/**
 * Resource values and their TLV payloads. The printer copies integers out of memory, lowest
 * byte first; the parser reads them highest byte first.
 */
module TlvValues {
  import opened Wrappers
  import opened Bits
  import opened Lists
  import opened TlvHeader

  datatype ValueType = INTEGER | DOUBLE | STRING | OPAQUE | BOOLEAN | NONE | LINK

  /** A double is its eight bytes in memory order; a string excludes its terminating NUL. */
  datatype Value =
    | IntValue(i: int)
    | DoubleValue(bytes: seq<byte>)
    | StringValue(chars: seq<byte>)
    | OpaqueValue(data: seq<byte>)
    | BoolValue(b: bool)
    | LinkValue(objectId: int, instanceId: int)

  // ---------------------------------------------------------------- byte order

  function Pow256(n: nat): (p: nat)
    ensures p >= 1
  {
    if n == 0 then 1 else 256 * Pow256(n - 1)
  }

  /** The lowest `n` bytes of an integer, lowest first. */
  function LittleEndian(v: int, n: nat): (bs: seq<byte>)
    ensures |bs| == n
    decreases n
  {
    if n == 0 then [] else [v % 256] + LittleEndian(v / 256, n - 1)
  }

  /** The number written by bytes, lowest first. */
  function FromLittle(bs: seq<byte>): nat {
    if bs == [] then 0 else bs[0] + 256 * FromLittle(bs[1..])
  }

  /** The number written by bytes, highest first. */
  function FromBig(bs: seq<byte>): nat {
    if bs == [] then 0 else 256 * FromBig(bs[..|bs| - 1]) + bs[|bs| - 1]
  }

  /** A 32-bit `int` that wraps around. */
  function Wrap32(v: int): (w: int)
    ensures -0x8000_0000 <= w < 0x8000_0000
  {
    (v + 0x8000_0000) % 0x1_0000_0000 - 0x8000_0000
  }

  lemma {:induction false} LittleReadsBack(v: int, n: nat)
    requires 0 <= v < Pow256(n)
    ensures FromLittle(LittleEndian(v, n)) == v
  {
    if n > 0 {
      LittleReadsBack(v / 256, n - 1);
      assert LittleEndian(v, n)[1..] == LittleEndian(v / 256, n - 1);
    }
  }

  lemma {:induction false} FromLittleBound(bs: seq<byte>)
    ensures FromLittle(bs) < Pow256(|bs|)
  {
    if bs != [] {
      FromLittleBound(bs[1..]);
    }
  }

  /** Reading one order is reading the reversed bytes in the other. */
  lemma {:induction false} BigIsReversedLittle(bs: seq<byte>)
    ensures FromBig(Reverse(bs)) == FromLittle(bs)
  {
    if bs != [] {
      BigIsReversedLittle(bs[1..]);
      var r := Reverse(bs);
      assert r == Reverse(bs[1..]) + [bs[0]];
      assert r[..|r| - 1] == Reverse(bs[1..]);
    }
  }

  lemma DigitsUnique(x: byte, p: nat, y: byte, q: nat)
    requires x + 256 * p == y + 256 * q
    ensures x == y && p == q
  {
  }

  lemma {:induction false} LittleInjective(a: seq<byte>, b: seq<byte>)
    requires |a| == |b| && FromLittle(a) == FromLittle(b)
    ensures a == b
  {
    if a != [] {
      DigitsUnique(a[0], FromLittle(a[1..]), b[0], FromLittle(b[1..]));
      LittleInjective(a[1..], b[1..]);
      assert a == [a[0]] + a[1..] && b == [b[0]] + b[1..];
    }
  }

  lemma ReverseTwice<T>(s: seq<T>)
    ensures Reverse(Reverse(s)) == s
  {
  }

  predicate Palindrome(bs: seq<byte>) {
    Reverse(bs) == bs
  }

  /**
   * The byte order of integers. A non-negative `int` fits the bytes the printer gives it, the
   * parser would recover it from the reversed bytes, and recovers it from the bytes
   * themselves exactly when they read the same both ways.
   */
  lemma IntegerByteOrder(v: int)
    requires 0 <= v < 0x8000_0000
    ensures var n := GetIntBytes(v);
      && v < Pow256(n)
      && FromLittle(LittleEndian(v, n)) == v
      && Wrap32(FromBig(Reverse(LittleEndian(v, n)))) == v
      && (Wrap32(FromBig(LittleEndian(v, n))) == v <==> Palindrome(LittleEndian(v, n)))
  {
    var n := GetIntBytes(v);
    var bs := LittleEndian(v, n);
    FitsItsBytes(v);
    LittleReadsBack(v, n);
    BigIsReversedLittle(bs);
    BigReadsBackPalindromes(v, bs);
  }

  lemma FitsItsBytes(v: int)
    requires 0 <= v < 0x8000_0000
    ensures v < Pow256(GetIntBytes(v)) <= 0x1_0000_0000
  {
    assert Pow256(1) == 256 && Pow256(2) == 0x1_0000 && Pow256(3) == 0x100_0000;
    assert Pow256(4) == 0x1_0000_0000;
  }

  lemma BigReadsBackPalindromes(v: int, bs: seq<byte>)
    requires 0 <= v < 0x8000_0000 && FromLittle(bs) == v && Pow256(|bs|) <= 0x1_0000_0000
    ensures Wrap32(FromBig(bs)) == v <==> Palindrome(bs)
  {
    BigReadsReverse(bs);
    WrapKeeps(FromBig(bs), v);
    if FromBig(bs) == v {
      LittleInjective(Reverse(bs), bs);
    }
  }

  lemma BigReadsReverse(bs: seq<byte>)
    ensures FromBig(bs) == FromLittle(Reverse(bs)) < Pow256(|bs|)
  {
    ReverseTwice(bs);
    BigIsReversedLittle(Reverse(bs));
    FromLittleBound(Reverse(bs));
  }

  lemma WrapKeeps(big: nat, v: int)
    requires big < 0x1_0000_0000 && 0 <= v < 0x8000_0000
    ensures Wrap32(big) == v <==> big == v
  {
  }

  /** `parse_int`: accumulates the bytes from the last to the first, in wrapping arithmetic. */
  method ParseInt(bytes: seq<byte>) returns (value: int)
    requires |bytes| <= 4
    ensures value == Wrap32(FromBig(bytes))
  {
    value := 0;
    var weight: int := 1;
    BigOfSuffix(bytes, |bytes|);
    for i := 0 to |bytes|
      invariant weight == Pow256(i)
      invariant value == Wrap32(FromBig(bytes[|bytes| - i..]))
    {
      value := Wrap32(value + Wrap32(bytes[|bytes| - i - 1] * weight));
      BigOfSuffix(bytes, |bytes| - i - 1);
      WrapAdds(FromBig(bytes[|bytes| - i..]), bytes[|bytes| - i - 1] * weight);
      weight := 256 * weight;
    }
    assert bytes[0..] == bytes;
  }

  lemma WrapAdds(a: int, b: int)
    ensures Wrap32(Wrap32(a) + Wrap32(b)) == Wrap32(a + b)
  {
  }

  lemma {:induction false} BigOfSuffix(bytes: seq<byte>, at: nat)
    requires at <= |bytes|
    ensures at == |bytes| ==> FromBig(bytes[at..]) == 0
    ensures at < |bytes| ==>
      FromBig(bytes[at..]) == bytes[at] * Pow256(|bytes| - at - 1) + FromBig(bytes[at + 1..])
  {
    if at < |bytes| {
      BigOfCons(bytes[at], bytes[at + 1..]);
      assert bytes[at..] == [bytes[at]] + bytes[at + 1..];
    }
  }

  lemma {:induction false} BigOfCons(b: byte, bs: seq<byte>)
    ensures FromBig([b] + bs) == b * Pow256(|bs|) + FromBig(bs)
  {
    if bs == [] {
      assert [b] + bs == [b];
      assert [b][..0] == [];
      assert FromBig([b]) == 256 * FromBig([]) + b;
    } else {
      var front := bs[..|bs| - 1];
      assert ([b] + bs)[..|bs|] == [b] + front;
      BigOfCons(b, front);
      assert 256 * (b * Pow256(|front|)) == b * Pow256(|bs|);
    }
  }

  // ---------------------------------------------------------------- payloads

  predicate HasType(v: Value, t: ValueType) {
    match v
    case IntValue(_) => t == INTEGER
    case DoubleValue(_) => t == DOUBLE
    case StringValue(_) => t == STRING
    case OpaqueValue(_) => t == OPAQUE
    case BoolValue(_) => t == BOOLEAN
    case LinkValue(_, _) => t == LINK
  }

  /** What the C types guarantee of a stored value. */
  predicate Representable(v: Value) {
    match v
    case IntValue(i) => -0x8000_0000 <= i < 0x8000_0000
    case DoubleValue(bytes) => |bytes| == 8
    case StringValue(chars) => 0 !in chars
    case _ => true
  }

  function ValueBytes(v: Value): seq<byte> {
    match v
    case IntValue(i) => LittleEndian(i, GetIntBytes(i))
    case DoubleValue(bytes) => bytes
    case StringValue(chars) => chars
    case OpaqueValue(data) => data
    case BoolValue(b) => [if b then 1 else 0]
    case LinkValue(o, i) => [o % 256, o / 256 % 256, i % 256, i / 256 % 256]
  }

  /** The payload of a value that may be NULL; NULL prints as no bytes. */
  function OptionalBytes(v: Option<Value>): seq<byte> {
    match v
    case None => []
    case Some(value) => ValueBytes(value)
  }

  /** The characters before the first NUL. */
  function UntilNul(bs: seq<byte>): seq<byte> {
    if bs == [] || bs[0] == 0 then [] else [bs[0]] + UntilNul(bs[1..])
  }

  lemma {:induction false} UntilNulOfClean(bs: seq<byte>)
    requires 0 !in bs
    ensures UntilNul(bs) == bs
  {
    if bs != [] {
      UntilNulOfClean(bs[1..]);
      assert bs == [bs[0]] + bs[1..];
    }
  }

  /**
   * The value read from `len` bytes at `at`; `None` leaves the value as the definition has
   * it. Doubles read eight bytes and links four, whatever the announced length.
   */
  function DecodeValue(buf: seq<byte>, at: nat, len: nat, t: ValueType): Result<Option<Value>, ParseError> {
    match t
    case INTEGER =>
      if len > 4 then Err(UndefinedShift)
      else if at + len > |buf| then Err(OutOfBounds)
      else Ok(Some(IntValue(Wrap32(FromBig(buf[at..at + len])))))
    case BOOLEAN =>
      if len > 4 then Err(UndefinedShift)
      else if at + len > |buf| then Err(OutOfBounds)
      else Ok(Some(BoolValue(Wrap32(FromBig(buf[at..at + len])) != 0)))
    case DOUBLE =>
      if at + 8 > |buf| then Err(OutOfBounds)
      else if len == 4 then Err(FloatWidth)
      else Ok(Some(DoubleValue(if len == 8 then Reverse(buf[at..at + 8]) else seq(8, _ => 0))))
    case STRING =>
      if at + len > |buf| then Err(OutOfBounds)
      else Ok(Some(StringValue(UntilNul(buf[at..at + len]))))
    case OPAQUE =>
      if at + len > |buf| then Err(OutOfBounds)
      else Ok(Some(OpaqueValue(buf[at..at + len])))
    case LINK =>
      if at + 4 > |buf| then Err(OutOfBounds)
      else Ok(Some(LinkValue(FromBig(buf[at + 2..at + 4]), FromBig(buf[at..at + 2]))))
    case NONE => Ok(None)
  }

  function Swap16(v: int): int {
    v % 256 * 256 + v / 256 % 256
  }

  /** What becomes of a value that is printed and parsed once. */
  function Transit(v: Value): Value {
    match v
    case IntValue(i) => IntValue(Wrap32(FromBig(LittleEndian(i, GetIntBytes(i)))))
    case DoubleValue(bytes) => DoubleValue(Reverse(bytes))
    case LinkValue(o, i) => LinkValue(Swap16(i), Swap16(o))
    case _ => v
  }

  /** What becomes of a value that may be NULL: an absent number, flag or text reads as empty. */
  function TransitOptional(v: Option<Value>, t: ValueType): Option<Value> {
    match v
    case Some(value) => Some(Transit(value))
    case None =>
      match t
      case INTEGER => Some(IntValue(0))
      case BOOLEAN => Some(BoolValue(false))
      case STRING => Some(StringValue([]))
      case OPAQUE => Some(OpaqueValue([]))
      case _ => None
  }

  /**
   * Values whose payload the parser reads within its announced length: stored values of
   * their type, and NULLs except for doubles and links.
   */
  predicate Printable(v: Option<Value>, t: ValueType) {
    match v
    case Some(value) => HasType(value, t) && Representable(value)
    case None => t != DOUBLE && t != LINK
  }

  lemma ValueRoundTrip(v: Option<Value>, t: ValueType, pre: seq<byte>, post: seq<byte>)
    requires Printable(v, t)
    ensures DecodeValue(pre + OptionalBytes(v) + post, |pre|, |OptionalBytes(v)|, t) ==
            Ok(TransitOptional(v, t))
  {
    var bs := OptionalBytes(v);
    var buf := pre + bs + post;
    assert buf[|pre|..|pre| + |bs|] == bs;
    match v
    case None =>
      assert Wrap32(FromBig([])) == 0;
    case Some(value) =>
      match value
      case StringValue(chars) => UntilNulOfClean(chars);
      case BoolValue(b) =>
        assert bs[..0] == [];
        assert FromBig(bs) == 256 * FromBig([]) + bs[0];
      case LinkValue(o, i) =>
        assert buf[|pre|..|pre| + 2] == [bs[0], bs[1]];
        assert buf[|pre| + 2..|pre| + 4] == [bs[2], bs[3]];
        FromBigPair(bs[0], bs[1]);
        FromBigPair(bs[2], bs[3]);
      case _ =>
  }

  lemma FromBigPair(hi: byte, lo: byte)
    ensures FromBig([hi, lo]) == 256 * hi as int + lo
  {
    assert [hi, lo][..1] == [hi];
    assert [hi][..0] == [];
    assert FromBig([hi]) == 256 * FromBig([]) + hi;
  }

  /** The values a round trip leaves alone, stated on the values themselves. */
  predicate Stable(v: Value) {
    match v
    case IntValue(i) => 0 <= i && Palindrome(LittleEndian(i, GetIntBytes(i)))
    case DoubleValue(bytes) => Palindrome(bytes)
    case LinkValue(o, i) => 0 <= o < 0x1_0000 && i == Swap16(o)
    case _ => true
  }

  lemma StableIsFixed(v: Value)
    requires Representable(v)
    ensures Transit(v) == v <==> Stable(v)
  {
    match v
    case IntValue(i) =>
      if i >= 0 {
        IntegerByteOrder(i);
      } else {
        assert LittleEndian(i, 1) == [i % 256] by {
          assert LittleEndian(i / 256, 0) == [];
        }
        FromBigOne(i % 256);
      }
    case LinkValue(o, i) => SwapFixed(o, i);
    case _ =>
  }

  lemma FromBigOne(b: byte)
    ensures FromBig([b]) == b
  {
    assert [b][..0] == [];
    assert FromBig([]) == 0;
  }

  lemma SwapFixed(o: int, i: int)
    ensures Swap16(i) == o && Swap16(o) == i <==> 0 <= o < 0x1_0000 && i == Swap16(o)
  {
    SwapTwice(o);
    if Swap16(i) == o {
      assert 0 <= o < 0x1_0000;
    }
  }

  lemma SwapTwice(v: int)
    ensures 0 <= Swap16(v) < 0x1_0000
    ensures 0 <= v < 0x1_0000 ==> Swap16(Swap16(v)) == v
  {
    var lo, hi := v % 256, v / 256 % 256;
    var w := lo * 256 + hi;
    assert w % 256 == hi && w / 256 == lo;
  }

  /** Integers from 0 to 254 take one byte and cross unchanged; 255 already does not. */
  lemma SmallIntegersAreStable(i: int)
    ensures 0 <= i < 255 ==> Stable(IntValue(i))
    ensures !Stable(IntValue(255))
  {
    if 0 <= i < 255 {
      assert LittleEndian(i / 256, 0) == [];
      assert LittleEndian(i, 1) == [i];
      assert Reverse([i]) == [i];
    }
    assert LittleEndian(0, 1) == [0] by {
      assert LittleEndian(0, 0) == [];
    }
    assert LittleEndian(255, 2) == [255, 0];
    assert Reverse([255, 0])[0] == 0;
  }

  /** A 16-bit link comes back after two crossings. */
  lemma LinkCrossesTwice(o: int, i: int)
    requires 0 <= o < 0x1_0000 && 0 <= i < 0x1_0000
    ensures Transit(Transit(LinkValue(o, i))) == LinkValue(o, i)
  {
    SwapTwice(o);
    SwapTwice(i);
  }

  // ---------------------------------------------------------------- every value, byte by byte

  lemma BigIs(b0: byte, b1: byte, b2: byte, b3: byte)
    ensures FromBig([]) == 0 && FromBig([b0]) == b0 as int
    ensures FromBig([b0, b1]) == 256 * b0 as int + b1 as int
    ensures FromBig([b0, b1, b2]) == 65536 * b0 as int + 256 * b1 as int + b2 as int
    ensures FromBig([b0, b1, b2, b3]) == 16777216 * b0 as int + 65536 * b1 as int + 256 * b2 as int + b3 as int
  {
    FromBigOne(b0);
    FromBigPair(b0, b1);
    assert [b0, b1, b2][..2] == [b0, b1];
    assert [b0, b1, b2, b3][..3] == [b0, b1, b2];
  }

  lemma SliceOf(pre: seq<byte>, bs: seq<byte>, post: seq<byte>)
    ensures |pre| + |bs| <= |pre + bs + post| && (pre + bs + post)[|pre|..|pre| + |bs|] == bs
  {
  }

  /**
   * What the parser makes of the bytes of a number, wherever they stand: the highest comes first,
   * and four bytes are a signed number. A flag is set unless all bytes are zero.
   */
  lemma NumbersAreBigEndian(pre: seq<byte>, post: seq<byte>, b0: byte, b1: byte, b2: byte, b3: byte)
    ensures var four := 16777216 * b0 as int + 65536 * b1 as int + 256 * b2 as int + b3 as int;
      && DecodeValue(pre + [] + post, |pre|, 0, INTEGER) == Ok(Some(IntValue(0)))
      && DecodeValue(pre + [b0] + post, |pre|, 1, INTEGER) == Ok(Some(IntValue(b0 as int)))
      && DecodeValue(pre + [b0, b1] + post, |pre|, 2, INTEGER) == Ok(Some(IntValue(256 * b0 as int + b1 as int)))
      && DecodeValue(pre + [b0, b1, b2] + post, |pre|, 3, INTEGER) ==
           Ok(Some(IntValue(65536 * b0 as int + 256 * b1 as int + b2 as int)))
      && DecodeValue(pre + [b0, b1, b2, b3] + post, |pre|, 4, INTEGER) ==
           Ok(Some(IntValue(if b0 < 128 then four else four - 4294967296)))
    ensures DecodeValue(pre + [b0] + post, |pre|, 1, BOOLEAN) == Ok(Some(BoolValue(b0 != 0)))
    ensures DecodeValue(pre + [b0, b1, b2, b3] + post, |pre|, 4, BOOLEAN) ==
            Ok(Some(BoolValue(b0 != 0 || b1 != 0 || b2 != 0 || b3 != 0)))
    ensures DecodeValue(pre + [b0, b1, b2, b3] + post, |pre|, 4, LINK) ==
            Ok(Some(LinkValue(256 * b2 as int + b3 as int, 256 * b0 as int + b1 as int)))
  {
    BigIs(b0, b1, b2, b3);
    BigIs(b2, b3, b3, b3);
    SliceOf(pre, [], post);
    SliceOf(pre, [b0], post);
    SliceOf(pre, [b0, b1], post);
    SliceOf(pre, [b0, b1, b2], post);
    SliceOf(pre, [b0, b1, b2, b3], post);
    var buf := pre + [b0, b1, b2, b3] + post;
    assert buf[|pre|..|pre| + 2] == [b0, b1] && buf[|pre| + 2..|pre| + 4] == [b2, b3];
    hide FromBig;
  }

  /** A text ends at its first NUL or with its bytes; opaque data is all of its bytes. */
  lemma TextsEndAtNul(pre: seq<byte>, text: seq<byte>, tail: seq<byte>, post: seq<byte>)
    requires 0 !in text
    ensures DecodeValue(pre + text + post, |pre|, |text|, STRING) == Ok(Some(StringValue(text)))
    ensures DecodeValue(pre + (text + [0] + tail) + post, |pre|, |text| + 1 + |tail|, STRING) ==
            Ok(Some(StringValue(text)))
    ensures DecodeValue(pre + tail + post, |pre|, |tail|, OPAQUE) == Ok(Some(OpaqueValue(tail)))
  {
    SliceOf(pre, text, post);
    SliceOf(pre, text + [0] + tail, post);
    SliceOf(pre, tail, post);
    UntilNulOfClean(text);
    UntilNulStops(text, tail);
  }

  lemma {:induction false} UntilNulStops(text: seq<byte>, tail: seq<byte>)
    requires 0 !in text
    ensures UntilNul(text + [0] + tail) == text
  {
    var s := text + [0] + tail;
    if text != [] {
      assert s[1..] == text[1..] + [0] + tail;
      UntilNulStops(text[1..], tail);
      assert text == [text[0]] + text[1..];
    }
  }

  /** Eight bytes are a double, read backwards; other lengths but four give zero. */
  lemma DoublesAreReversed(pre: seq<byte>, bs: seq<byte>, post: seq<byte>, len: nat)
    requires |bs| == 8
    ensures DecodeValue(pre + bs + post, |pre|, 8, DOUBLE) ==
            Ok(Some(DoubleValue([bs[7], bs[6], bs[5], bs[4], bs[3], bs[2], bs[1], bs[0]])))
    ensures len != 8 && len != 4 ==>
              DecodeValue(pre + bs + post, |pre|, len, DOUBLE) == Ok(Some(DoubleValue([0, 0, 0, 0, 0, 0, 0, 0])))
  {
    SliceOf(pre, bs, post);
    assert Reverse(bs) == [bs[7], bs[6], bs[5], bs[4], bs[3], bs[2], bs[1], bs[0]];
    var zeros: seq<byte> := [0, 0, 0, 0, 0, 0, 0, 0];
    assert seq(8, _ => 0) == zeros;
  }

  /** When a value can be read at all. */
  lemma ValueFits(buf: seq<byte>, at: nat, len: nat, t: ValueType)
    ensures DecodeValue(buf, at, len, t).Ok? <==>
            match t
            case INTEGER => len <= 4 && at + len <= |buf|
            case BOOLEAN => len <= 4 && at + len <= |buf|
            case DOUBLE => len != 4 && at + 8 <= |buf|
            case STRING => at + len <= |buf|
            case OPAQUE => at + len <= |buf|
            case LINK => at + 4 <= |buf|
            case NONE => true
  {
  }

  /** One byte, and the rest. */
  lemma LittleIs(v: int, low: byte, rest: int, n: nat)
    requires v == low as int + 256 * rest && n >= 1
    ensures LittleEndian(v, n) == [low] + LittleEndian(rest, n - 1)
  {
    LowDigit(v, low, rest);
  }

  lemma LowDigit(v: int, low: byte, rest: int)
    requires v == low as int + 256 * rest
    ensures v % 256 == low as int && v / 256 == rest
  {
  }

  lemma LittleBytes(b0: byte, b1: byte, b2: byte, b3: byte)
    ensures LittleEndian(b0 as int, 1) == [b0]
    ensures LittleEndian(b0 as int + 256 * b1 as int, 2) == [b0, b1]
    ensures LittleEndian(b0 as int + 256 * b1 as int + 65536 * b2 as int, 3) == [b0, b1, b2]
    ensures LittleEndian(b0 as int + 256 * b1 as int + 65536 * b2 as int + 16777216 * b3 as int, 4) == [b0, b1, b2, b3]
  {
    assert LittleEndian(0, 0) == [];
    hide LittleEndian;
    var two, three := b1 as int + 256 * b2 as int, b1 as int + 256 * b2 as int + 65536 * b3 as int;
    LittleIs(b0 as int, b0, 0, 1);
    LittleIs(b0 as int + 256 * b1 as int, b0, b1 as int, 2);
    LittleIs(b1 as int, b1, 0, 1);
    LittleIs(b0 as int + 256 * two, b0, two, 3);
    LittleIs(two, b1, b2 as int, 2);
    LittleIs(b2 as int, b2, 0, 1);
    LittleIs(b0 as int + 256 * three, b0, three, 4);
    LittleIs(three, b1, b2 as int + 256 * b3 as int, 3);
    LittleIs(b2 as int + 256 * b3 as int, b2, b3 as int, 2);
    LittleIs(b3 as int, b3, 0, 1);
  }

  /** What is printed of numbers: the lowest byte first, a negative one as one byte only. */
  lemma NumbersArePrinted(b0: byte, b1: byte, b2: byte, b3: byte, negative: int)
    requires negative < 0
    ensures b0 < 255 ==> ValueBytes(IntValue(b0 as int)) == [b0]
    ensures var two := b0 as int + 256 * b1 as int;
      255 <= two < 65535 ==> ValueBytes(IntValue(two)) == [b0, b1]
    ensures var three := b0 as int + 256 * b1 as int + 65536 * b2 as int;
      65535 <= three < 16777215 ==> ValueBytes(IntValue(three)) == [b0, b1, b2]
    ensures var four := b0 as int + 256 * b1 as int + 65536 * b2 as int + 16777216 * b3 as int;
      16777215 <= four ==> ValueBytes(IntValue(four)) == [b0, b1, b2, b3]
    ensures ValueBytes(IntValue(negative)) == [negative % 256]
    ensures ValueBytes(BoolValue(true)) == [1] && ValueBytes(BoolValue(false)) == [0]
  {
    LittleBytes(b0, b1, b2, b3);
    LittleIs(negative, negative % 256, negative / 256, 1);
    assert LittleEndian(negative / 256, 0) == [];
    hide LittleEndian;
  }

  lemma LinksArePrinted(b0: byte, b1: byte, b2: byte, b3: byte)
    ensures ValueBytes(LinkValue(b0 as int + 256 * b1 as int, b2 as int + 256 * b3 as int)) == [b0, b1, b2, b3]
  {
  }
}
