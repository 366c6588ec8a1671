/**
 * The TLV entry header: a type, an id of one or two bytes, and a length held in the first
 * byte or in one to three bytes of its own.
 */
module TlvHeader {
  import opened Wrappers
  import opened Bits

  const OBJECT_INSTANCE_TYPE: byte := 0
  const RESOURCE_INSTANCE_TYPE: byte := 64
  const MULTIPLE_RESOURCE_TYPE: byte := 128
  const RESOURCE_TYPE: byte := 192

  predicate IsType(code: int) {
    code in {0, 64, 128, 192}
  }

  /** Inputs on which the parser leaves the buffer, or does something C leaves undefined. */
  datatype ParseError =
    | OutOfBounds
    | NegativeLength
    | UndefinedShift
    | NoSuchDefinition
    | FloatWidth

  datatype Header = Header(code: int, length: int, id: int)

  /** How many bytes the printer thinks a value needs. An `int` never reaches a fifth case. */
  function GetIntBytes(value: int): (n: nat)
    ensures 1 <= n <= 4
    ensures 0 <= value < 0xFFFF_FFFF ==>
              value < (if n == 1 then 0x100 else if n == 2 then 0x1_0000 else if n == 3 then 0x100_0000
                       else 0x1_0000_0000)
  {
    if value < 0xFF then 1
    else if value < 0xFFFF then 2
    else if value < 0xFF_FFFF then 3
    else 4
  }

  // ---------------------------------------------------------------- what the printer emits

  function IdBytes(id: int): seq<byte> {
    if id < 0xFF then [id % 256] else [id % 256, id / 256 % 256]
  }

  /** The length bytes: every one but the last is truncated to a byte before it is shifted. */
  function LengthBytes(len: nat): seq<byte> {
    if len < 4 then []
    else
      var n := GetIntBytes(len);
      if n == 1 then [len % 256]
      else if n == 2 then [0, len % 256]
      else if n == 3 then [0, 0, len % 256]
      else []
  }

  /** The bit that announces a two-byte id. */
  function Wide(id: int): byte {
    if id < 0xFF then 0 else 32
  }

  function LengthField(len: nat): byte {
    if len < 4 then len
    else if len < 8 then 8 + len
    else 8 * GetIntBytes(len)
  }

  /** Four length bytes have no field; their count sets the id-width bit instead. */
  function FirstByte(id: int, code: int, len: nat): byte
    requires IsType(code)
  {
    if GetIntBytes(len) == 4 then code + 32 else code + Wide(id) + LengthField(len)
  }

  function HeaderBytes(id: int, code: int, len: nat): seq<byte>
    requires IsType(code)
  {
    [FirstByte(id, code, len)] + IdBytes(id) + LengthBytes(len)
  }

  /** Builds the first byte bit by bit, the way the printer does. */
  method SerializeFirstByte(id: int, code: int, len: nat, message: array<byte>)
    requires IsType(code) && message.Length >= 1
    modifies message
    ensures message[0] == FirstByte(id, code, len) && message[1..] == old(message[1..])
  {
    message[0] := 0;
    message[0] := Or(message[0], code);
    message[0] := Or(message[0], if id < 0xFF then 0 else 0x20);
    message[0] := Or(message[0], if len < 8 then len else 0);
    OrHighField(id, code);
    OrLowField(code + Wide(id), len);
    if len < 4 {
      message[0] := Or(message[0], And(len, 7));
    } else {
      message[0] := Or(message[0], 8 * GetIntBytes(len));
    }
  }

  lemma OrHighField(id: int, code: int)
    requires IsType(code)
    ensures HighField(code + Wide(id))
    ensures Or(Or(0, code), if id < 0xFF then 0 else 0x20) == code + Wide(id)
  {
    OrType(code);
    hide Or;
  }

  lemma OrLowField(high: byte, len: nat)
    requires HighField(high)
    ensures var short := if len < 8 then len else 0;
      && Or(high, short) == high + short
      && (len < 4 ==> Or(high + short, And(len, 7)) == high + LengthField(len))
      && (4 <= len ==> Or(high + short, 8 * GetIntBytes(len)) ==
                       if GetIntBytes(len) == 4 then high - high % 64 + 32 else high + LengthField(len))
  {
    hide Or, And;
    OrShort(high, if len < 8 then len else 0);
    if len < 4 {
      ShortLengthMask(len);
      OrShortAgain(high, len);
    } else if len < 8 {
      OrOneLengthByte(high, len);
    } else {
      OrOneLengthByte(high, 0);
      OrMoreLengthBytes(high);
    }
  }

  /** Writes the id and length bytes after the first byte. */
  method SerializeIdAndLength(id: int, len: nat, message: array<byte>) returns (messageLen: nat)
    requires message.Length >= 6
    modifies message
    ensures 1 <= messageLen <= 6 && message[0] == old(message[0])
    ensures message[1..messageLen] == IdBytes(id) + LengthBytes(len)
    ensures message[messageLen..] == old(message[messageLen..])
  {
    var bytesRequired := GetIntBytes(len);
    message[1] := id % 256;
    messageLen := 2;
    if id >= 0xFF {
      message[2] := id / 256 % 256;
      messageLen := 3;
    }
    assert message[1..messageLen] == IdBytes(id);
    var length := messageLen;
    if len >= 4 {
      if bytesRequired == 1 {
        message[length] := len % 256;
        messageLen := messageLen + 1;
      }
      if bytesRequired == 2 {
        message[length] := len % 256 / 256;
        message[length + 1] := len % 256;
        messageLen := messageLen + 2;
      }
      if bytesRequired == 3 {
        message[length] := len % 256 / 65536;
        message[length + 1] := len % 256 / 256;
        message[length + 2] := len % 256;
        messageLen := messageLen + 3;
      }
    }
    assert message[1..length] == IdBytes(id);
    assert message[length..messageLen] == LengthBytes(len);
    assert message[1..messageLen] == message[1..length] + message[length..messageLen];
  }

  /** Writes a header at the front of `message`. */
  method SerializeHeader(id: int, code: int, len: nat, message: array<byte>) returns (messageLen: nat)
    requires IsType(code) && message.Length >= 6
    modifies message
    ensures messageLen <= 6
    ensures message[..messageLen] == HeaderBytes(id, code, len)
    ensures message[messageLen..] == old(message[messageLen..])
  {
    SerializeFirstByte(id, code, len, message);
    label First:
    messageLen := SerializeIdAndLength(id, len, message);
    assert message[messageLen..] == old@First(message[1..])[messageLen - 1..] == old(message[1..])[messageLen - 1..];
    assert message[..messageLen] == [message[0]] + message[1..messageLen];
  }

  // ---------------------------------------------------------------- what the parser reads

  /** A byte read through a plain `char`. */
  function Char(signed: bool, b: byte): int {
    if signed && b >= 128 then b - 256 else b
  }

  function IdWidth(first: byte): nat {
    if first / 32 % 2 == 1 then 2 else 1
  }

  function LengthWidth(first: byte): nat {
    first / 8 % 4
  }

  function IdAt(signed: bool, buf: seq<byte>, at: nat, width: nat): int
    requires 1 <= width <= 2 && at + width <= |buf|
  {
    if width == 1 then Char(signed, buf[at])
    else Char(signed, buf[at + 1]) * 256 + Char(signed, buf[at])
  }

  /** Only the one-byte length is read through a plain `char`. */
  function LengthAt(signed: bool, buf: seq<byte>, at: nat, width: nat, short: int): int
    requires width <= 3 && at + width <= |buf|
  {
    match width
    case 0 => short
    case 1 => Char(signed, buf[at])
    case 2 => 256 * buf[at] as int + buf[at + 1]
    case _ => 65536 * buf[at] as int + 256 * buf[at + 1] as int + buf[at + 2]
  }

  /** The header at position `at`, and the position after it. */
  function DecodeHeader(signed: bool, buf: seq<byte>, at: nat): (r: Result<(Header, nat), ParseError>)
    ensures r.Ok? ==> at + 2 <= r.value.1 <= |buf|
  {
    if at >= |buf| then Err(OutOfBounds)
    else
      var first := buf[at];
      var idEnd := at + 1 + IdWidth(first);
      var end := idEnd + LengthWidth(first);
      if end > |buf| then Err(OutOfBounds)
      else
        var id := IdAt(signed, buf, at + 1, IdWidth(first));
        var length := LengthAt(signed, buf, idEnd, LengthWidth(first), first % 8);
        Ok((Header(first / 64 * 64, length, id), end))
  }

  /** Walks over a header with the masks and shifts of the bytes it reads. */
  method ParseTlvHeader(signed: bool, buf: seq<byte>, at: nat) returns (r: Result<(Header, nat), ParseError>)
    ensures r == DecodeHeader(signed, buf, at)
  {
    hide And, Char;
    if at >= |buf| {
      return Err(OutOfBounds);
    }
    var first := buf[at];
    TypeMask(first);
    IdWidthMask(first);
    LengthWidthMask(first);
    ShortLengthMask(first);
    var code := And(first, 0xC0);
    var length: int := And(first, 0x07);
    var idLen := if And(first, 0x20) != 0 then 16 else 8;
    var lengthLen := And(first, 0x18) / 8;
    var input := at + 1;
    if input + idLen / 8 + lengthLen > |buf| {
      return Err(OutOfBounds);
    }
    var id: int := 0;
    if idLen == 8 {
      id := Char(signed, buf[input]);
      input := input + 1;
    }
    if idLen == 16 {
      id := Char(signed, buf[input + 1]) * 256;
      id := id + Char(signed, buf[input]);
      input := input + 2;
    }
    if lengthLen == 1 {
      length := Char(signed, buf[input]);
      input := input + 1;
    }
    if lengthLen == 2 {
      length := 256 * buf[input] as int;
      length := length + buf[input + 1];
      input := input + 2;
    }
    if lengthLen == 3 {
      length := 65536 * buf[input] as int;
      length := length + 256 * buf[input + 1] as int;
      length := length + buf[input + 2];
      input := input + 3;
    }
    return Ok((Header(code, length, id), input));
  }

  // ---------------------------------------------------------------- where the two agree

  predicate IdSurvives(signed: bool, id: int) {
    if signed then -128 <= id < 128 || (256 <= id < 32768 && id % 256 < 128)
    else 0 <= id < 65536
  }

  predicate LengthSurvives(signed: bool, len: nat) {
    if signed then len < 128 || len == 255 else len < 256
  }

  lemma FirstByteFields(id: int, code: int, len: nat)
    requires IsType(code) && GetIntBytes(len) < 4
    ensures var first := FirstByte(id, code, len);
      && first / 64 * 64 == code
      && IdWidth(first) == |IdBytes(id)|
      && LengthWidth(first) == |LengthBytes(len)|
      && first % 8 == if len < 8 then len else 0
  {
    ByteFields(code, Wide(id), LengthField(len) / 8, LengthField(len) % 8);
  }

  lemma ByteFields(code: int, wide: int, n: int, short: int)
    requires IsType(code) && wide in {0, 32} && 0 <= n < 4 && 0 <= short < 8
    ensures var b := code + wide + (8 * n + short);
      b / 64 * 64 == code && b / 32 % 2 * 32 == wide && b / 8 % 4 == n && b % 8 == short
  {
    var b := code + wide + (8 * n + short);
    var c, w := code / 64, wide / 32;
    assert b == 8 * (8 * c + 4 * w + n) + short;
    assert b / 8 == 8 * c + 4 * w + n;
    assert b / 32 == 2 * c + w;
  }

  lemma LengthReadsBack(signed: bool, len: nat)
    requires GetIntBytes(len) < 4
    ensures var read := LengthAt(signed, LengthBytes(len), 0, |LengthBytes(len)|, if len < 8 then len else 0);
      && (read == len <==> LengthSurvives(signed, len))
      && read <= len
  {
  }

  /** What the parser reads back from a printed header followed by anything. */
  lemma DecodePrintedHeader(signed: bool, id: int, code: int, len: nat, pre: seq<byte>, post: seq<byte>)
    requires IsType(code) && GetIntBytes(len) < 4
    ensures var h := HeaderBytes(id, code, len);
      DecodeHeader(signed, pre + h + post, |pre|) ==
         Ok((Header(code,
                    LengthAt(signed, LengthBytes(len), 0, |LengthBytes(len)|, if len < 8 then len else 0),
                    IdAt(signed, IdBytes(id), 0, |IdBytes(id)|)),
             |pre| + |h|))
  {
    var h := HeaderBytes(id, code, len);
    var buf := pre + h + post;
    var i, l := IdBytes(id), LengthBytes(len);
    FirstByteFields(id, code, len);
    assert buf[|pre|] == h[0] == FirstByte(id, code, len);
    assert buf[|pre| + 1..][..|i|] == i;
    assert buf[|pre| + 1 + |i|..][..|l|] == l;
    DecodeFields(signed, buf, |pre|, i, l);
  }

  /** Decoding depends on the first byte and on the id and length bytes that follow it. */
  lemma DecodeFields(signed: bool, buf: seq<byte>, at: nat, i: seq<byte>, l: seq<byte>)
    requires at + 1 + |i| + |l| <= |buf|
    requires IdWidth(buf[at]) == |i| && LengthWidth(buf[at]) == |l|
    requires buf[at + 1..][..|i|] == i
    requires buf[at + 1 + |i|..][..|l|] == l
    ensures DecodeHeader(signed, buf, at) ==
            Ok((Header(buf[at] / 64 * 64, LengthAt(signed, l, 0, |l|, buf[at] % 8), IdAt(signed, i, 0, |i|)),
                at + 1 + |i| + |l|))
  {
    assert forall k :: 0 <= k < |i| ==> i[k] == buf[at + 1 + k];
    assert forall k :: 0 <= k < |l| ==> l[k] == buf[at + 1 + |i| + k];
    IdFromSlice(signed, buf, at + 1, i);
    LengthFromSlice(signed, buf, at + 1 + |i|, l, buf[at] % 8);
  }

  lemma IdFromSlice(signed: bool, buf: seq<byte>, at: nat, i: seq<byte>)
    requires 1 <= |i| <= 2 && at + |i| <= |buf|
    requires forall k :: 0 <= k < |i| ==> buf[at + k] == i[k]
    ensures IdAt(signed, buf, at, |i|) == IdAt(signed, i, 0, |i|)
  {
    assert buf[at + 0] == i[0];
  }

  lemma LengthFromSlice(signed: bool, buf: seq<byte>, at: nat, l: seq<byte>, short: int)
    requires |l| <= 3 && at + |l| <= |buf|
    requires forall k :: 0 <= k < |l| ==> buf[at + k] == l[k]
    ensures LengthAt(signed, buf, at, |l|, short) == LengthAt(signed, l, 0, |l|, short)
  {
    if |l| > 0 {
      assert buf[at + 0] == l[0];
    }
  }

  /** Past 24 bits of length nothing is recovered: the length reads as 0. */
  lemma DecodeOversizedHeader(signed: bool, id: int, code: int, len: nat, pre: seq<byte>, post: seq<byte>)
    requires IsType(code) && GetIntBytes(len) == 4
    ensures var r := DecodeHeader(signed, pre + HeaderBytes(id, code, len) + post, |pre|);
      r.Ok? ==> r.value.0.length == 0
  {
    var buf := pre + HeaderBytes(id, code, len) + post;
    assert buf[|pre|] == code + 32;
  }

  lemma IdReadsBack(signed: bool, id: int)
    ensures IdAt(signed, IdBytes(id), 0, |IdBytes(id)|) == id <==> IdSurvives(signed, id)
  {
    if id >= 0xFF {
      var lo, hi := id % 256, id / 256 % 256;
      assert id == id / 256 * 256 + lo;
      assert IdAt(signed, IdBytes(id), 0, 2) == Char(signed, hi) * 256 + Char(signed, lo);
    }
  }

  /**
   * The header round trip, exactly: the parser recovers the type, the id and the length of a
   * printed header, wherever it stands in a buffer, if and only if the id and the length lie
   * in the ranges that survive.
   */
  lemma HeaderExactDomain(signed: bool, id: int, code: int, len: nat, pre: seq<byte>, post: seq<byte>)
    requires IsType(code)
    ensures var h := HeaderBytes(id, code, len);
      DecodeHeader(signed, pre + h + post, |pre|) == Ok((Header(code, len, id), |pre| + |h|))
      <==> IdSurvives(signed, id) && LengthSurvives(signed, len)
  {
    if GetIntBytes(len) == 4 {
      DecodeOversizedHeader(signed, id, code, len, pre, post);
    } else {
      DecodePrintedHeader(signed, id, code, len, pre, post);
      IdReadsBack(signed, id);
      LengthReadsBack(signed, len);
    }
  }

  /** The design's range fails: a 300-byte value is announced as 44 bytes. */
  lemma LongLengthIsTruncated(signed: bool)
    ensures DecodeHeader(signed, HeaderBytes(3, RESOURCE_TYPE, 300), 0) == Ok((Header(192, 44, 3), 4))
  {
    DecodePrintedHeader(signed, 3, RESOURCE_TYPE, 300, [], []);
    assert [] + HeaderBytes(3, RESOURCE_TYPE, 300) + [] == HeaderBytes(3, RESOURCE_TYPE, 300);
  }

  // ---------------------------------------------------------------- every header, byte by byte

  lemma IdsAre(signed: bool, lo: byte, hi: byte)
    ensures IdAt(signed, [lo], 0, 1) == if signed && lo > 127 then lo as int - 256 else lo as int
    ensures IdAt(signed, [lo, hi], 0, 2) ==
            256 * (if signed && hi > 127 then hi as int - 256 else hi as int)
            + (if signed && lo > 127 then lo as int - 256 else lo as int)
  {
  }

  lemma LengthsAre(signed: bool, short: byte, b0: byte, b1: byte, b2: byte)
    ensures LengthAt(signed, [], 0, 0, short) == short as int
    ensures LengthAt(signed, [b0], 0, 1, short) == if signed && b0 > 127 then b0 as int - 256 else b0 as int
    ensures LengthAt(signed, [b0, b1], 0, 2, short) == 256 * b0 as int + b1 as int
    ensures LengthAt(signed, [b0, b1, b2], 0, 3, short) == 65536 * b0 as int + 256 * b1 as int + b2 as int
  {
  }

  /**
   * Every header with an id of one byte, wherever it stands: two bits of type, no id-width bit,
   * the number of length bytes and three bits of length; then the id; then the length, highest
   * byte first. The three bits count only if there are no length bytes.
   */
  lemma NarrowHeader(signed: bool, pre: seq<byte>, post: seq<byte>, code: byte, short: byte,
                     id: byte, b0: byte, b1: byte, b2: byte)
    requires code in {0, 64, 128, 192} && short < 8
    ensures var value := if signed && id > 127 then id as int - 256 else id as int;
      && DecodeHeader(signed, pre + [code + short, id] + post, |pre|) ==
           Ok((Header(code, short, value), |pre| + 2))
      && DecodeHeader(signed, pre + [code + 8 + short, id, b0] + post, |pre|) ==
           Ok((Header(code, if signed && b0 > 127 then b0 as int - 256 else b0 as int, value), |pre| + 3))
      && DecodeHeader(signed, pre + [code + 16 + short, id, b0, b1] + post, |pre|) ==
           Ok((Header(code, 256 * b0 as int + b1 as int, value), |pre| + 4))
      && DecodeHeader(signed, pre + [code + 24 + short, id, b0, b1, b2] + post, |pre|) ==
           Ok((Header(code, 65536 * b0 as int + 256 * b1 as int + b2 as int, value), |pre| + 5))
  {
    hide DecodeHeader, IdAt, LengthAt;
    IdsAre(signed, id, id);
    LengthsAre(signed, short, b0, b1, b2);
    HeaderAt(signed, pre, post, code, 0, 0, short, [id], []);
    HeaderAt(signed, pre, post, code, 0, 1, short, [id], [b0]);
    HeaderAt(signed, pre, post, code, 0, 2, short, [id], [b0, b1]);
    HeaderAt(signed, pre, post, code, 0, 3, short, [id], [b0, b1, b2]);
    assert [code + short] + [id] + [] == [code + short, id];
    assert [code + 8 + short] + [id] + [b0] == [code + 8 + short, id, b0];
    assert [code + 16 + short] + [id] + [b0, b1] == [code + 16 + short, id, b0, b1];
    assert [code + 24 + short] + [id] + [b0, b1, b2] == [code + 24 + short, id, b0, b1, b2];
  }

  /** The same with an id of two bytes, lowest byte first. */
  lemma WideHeader(signed: bool, pre: seq<byte>, post: seq<byte>, code: byte, short: byte,
                   lo: byte, hi: byte, b0: byte, b1: byte, b2: byte)
    requires code in {0, 64, 128, 192} && short < 8
    ensures var value := 256 * (if signed && hi > 127 then hi as int - 256 else hi as int)
                         + (if signed && lo > 127 then lo as int - 256 else lo as int);
      && DecodeHeader(signed, pre + [code + 32 + short, lo, hi] + post, |pre|) ==
           Ok((Header(code, short, value), |pre| + 3))
      && DecodeHeader(signed, pre + [code + 40 + short, lo, hi, b0] + post, |pre|) ==
           Ok((Header(code, if signed && b0 > 127 then b0 as int - 256 else b0 as int, value), |pre| + 4))
      && DecodeHeader(signed, pre + [code + 48 + short, lo, hi, b0, b1] + post, |pre|) ==
           Ok((Header(code, 256 * b0 as int + b1 as int, value), |pre| + 5))
      && DecodeHeader(signed, pre + [code + 56 + short, lo, hi, b0, b1, b2] + post, |pre|) ==
           Ok((Header(code, 65536 * b0 as int + 256 * b1 as int + b2 as int, value), |pre| + 6))
  {
    hide DecodeHeader, IdAt, LengthAt;
    IdsAre(signed, lo, hi);
    LengthsAre(signed, short, b0, b1, b2);
    HeaderAt(signed, pre, post, code, 32, 0, short, [lo, hi], []);
    HeaderAt(signed, pre, post, code, 32, 1, short, [lo, hi], [b0]);
    HeaderAt(signed, pre, post, code, 32, 2, short, [lo, hi], [b0, b1]);
    HeaderAt(signed, pre, post, code, 32, 3, short, [lo, hi], [b0, b1, b2]);
    assert [code + 32 + short] + [lo, hi] + [] == [code + 32 + short, lo, hi];
    assert [code + 40 + short] + [lo, hi] + [b0] == [code + 40 + short, lo, hi, b0];
    assert [code + 48 + short] + [lo, hi] + [b0, b1] == [code + 48 + short, lo, hi, b0, b1];
    assert [code + 56 + short] + [lo, hi] + [b0, b1, b2] == [code + 56 + short, lo, hi, b0, b1, b2];
  }

  lemma HeaderAt(signed: bool, pre: seq<byte>, post: seq<byte>, code: byte, wide: byte, n: nat, short: byte,
                 i: seq<byte>, l: seq<byte>)
    requires IsType(code) && wide in {0, 32} && n == |l| <= 3 && short < 8
    requires |i| == if wide == 0 then 1 else 2
    ensures code as int + wide as int + 8 * n + short as int < 256
    ensures DecodeHeader(signed, pre + ([code + wide + 8 * n as byte + short] + i + l) + post, |pre|) ==
            Ok((Header(code, LengthAt(signed, l, 0, n, short), IdAt(signed, i, 0, |i|)), |pre| + 1 + |i| + |l|))
  {
    ByteFields(code, wide, n, short);
    var first := code + wide + 8 * n as byte + short;
    var buf := pre + ([first] + i + l) + post;
    assert buf[|pre|] == first;
    assert buf[|pre| + 1..][..|i|] == i;
    assert buf[|pre| + 1 + |i|..][..|l|] == l;
    DecodeFields(signed, buf, |pre|, i, l);
  }

  lemma LengthDigits(len: nat)
    requires len < 0x100_0000
    ensures len == 65536 * (len / 65536) + 256 * (len / 256 % 256) + len % 256
    ensures len / 65536 < 256 && (len < 0x1_0000 ==> len / 65536 == 0) && (len < 0x100 ==> len / 256 % 256 == 0)
  {
    assert len / 65536 == len / 256 / 256;
  }

  /** A length of up to 24 bits reads back from its own bytes, highest first, in every width that holds it. */
  lemma BigEndianLengthReadsBack(signed: bool, pre: seq<byte>, post: seq<byte>, code: byte, id: byte, len: nat)
    requires code in {0, 64, 128, 192} && len < 0x100_0000
    ensures var three := DecodeHeader(
        signed, pre + [code + 24, id, len / 65536, len / 256 % 256, len % 256] + post, |pre|);
      three.Ok? && three.value.0.length == len
    ensures var two := DecodeHeader(signed, pre + [code + 16, id, len / 256 % 256, len % 256] + post, |pre|);
      two.Ok? && (len < 0x1_0000 ==> two.value.0.length == len)
    ensures var one := DecodeHeader(signed, pre + [code + 8, id, len % 256] + post, |pre|);
      one.Ok? && (len < 0x100 && !signed ==> one.value.0.length == len)
  {
    hide DecodeHeader;
    LengthDigits(len);
    var b0: byte, b1: byte, b2: byte := len / 65536, len / 256 % 256, len % 256;
    NarrowHeader(signed, pre, post, code, 0, id, b0, b1, b2);
    NarrowHeader(signed, pre, post, code, 0, id, b1, b2, b2);
    NarrowHeader(signed, pre, post, code, 0, id, b2, b2, b2);
  }

  /** A header that the buffer does not hold to its end is an error, and no other is. */
  lemma HeaderFits(signed: bool, buf: seq<byte>, at: nat)
    ensures DecodeHeader(signed, buf, at).Ok? <==>
            at < |buf| && at + 2 + buf[at] as int / 32 % 2 + buf[at] as int / 8 % 4 <= |buf|
  {
  }

  /** What is printed, for the ids and lengths that have one byte each, and for longer ones. */
  lemma PrintedBytes(code: byte, id: byte, len: nat)
    requires code in {0, 64, 128, 192} && id < 255
    ensures len < 4 ==> HeaderBytes(id as int, code, len) == [code + len as byte, id]
    ensures 4 <= len < 8 ==> HeaderBytes(id as int, code, len) == [code + 8 + len as byte, id, len as byte]
    ensures 8 <= len < 255 ==> HeaderBytes(id as int, code, len) == [code + 8, id, len as byte]
    ensures 255 <= len < 65535 ==> HeaderBytes(id as int, code, len) == [code + 16, id, 0, (len % 256) as byte]
    ensures 65535 <= len < 0xFF_FFFF ==>
              HeaderBytes(id as int, code, len) == [code + 24, id, 0, 0, (len % 256) as byte]
  {
  }

  lemma PrintedWideId(code: byte, lo: byte, hi: byte)
    requires code in {0, 64, 128, 192} && 256 * hi as int + lo as int >= 255
    ensures HeaderBytes(256 * hi as int + lo as int, code, 0) == [code + 32, lo, hi]
  {
  }
}
