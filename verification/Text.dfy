/**
 * The text primitives that topics and registration payloads are made of: decimal numbers as
 * `sprintf("%d")` prints and `atoi` reads them, and the cutting of a string at a delimiter
 * as `strtok` does it.
 */
module Text {
  import opened Wrappers

  // ---------------------------------------------------------------- numbers

  function Digit(d: int): char
    requires 0 <= d < 10
  {
    "0123456789"[d]
  }

  predicate IsDigit(c: char) {
    '0' <= c <= '9'
  }

  function DigitValue(c: char): int
    requires IsDigit(c)
  {
    c as int - '0' as int
  }

  function Digits(n: nat): (s: string)
    ensures s != []
  {
    if n < 10 then [Digit(n)] else Digits(n / 10) + [Digit(n % 10)]
  }

  /** What `itoa` writes. */
  function Decimal(i: int): (s: string)
    ensures s != []
  {
    if i < 0 then "-" + Digits(-i) else Digits(i)
  }

  predicate IsSpace(c: char) {
    c == ' ' || '\t' <= c <= '\r'
  }

  /** The number at the front of a string, read on from `n`. */
  function ReadDigits(s: string, n: int): int
    decreases |s|
  {
    if s == [] || !IsDigit(s[0]) then n else ReadDigits(s[1..], 10 * n + DigitValue(s[0]))
  }

  /** `atoi`: white space, a sign, digits; 0 if there are none. */
  function Atoi(s: string): int
    decreases |s|
  {
    if s == [] then 0
    else if IsSpace(s[0]) then Atoi(s[1..])
    else if s[0] == '-' then -ReadDigits(s[1..], 0)
    else if s[0] == '+' then ReadDigits(s[1..], 0)
    else ReadDigits(s, 0)
  }

  predicate AllDigits(s: string) {
    forall k :: 0 <= k < |s| ==> IsDigit(s[k])
  }

  lemma {:induction false} DigitsAre(n: nat)
    ensures AllDigits(Digits(n))
  {
    if n >= 10 {
      DigitsAre(n / 10);
    }
  }

  lemma {:induction false} ReadOn(s: string, c: char, n: int)
    requires AllDigits(s) && IsDigit(c)
    ensures ReadDigits(s + [c], n) == 10 * ReadDigits(s, n) + DigitValue(c)
    decreases |s|
  {
    if s == [] {
      assert ([] + [c])[1..] == [];
    } else {
      assert (s + [c])[1..] == s[1..] + [c];
      ReadOn(s[1..], c, 10 * n + DigitValue(s[0]));
    }
  }

  lemma {:induction false} DigitsReadBack(n: nat)
    ensures ReadDigits(Digits(n), 0) == n
  {
    if n < 10 {
      assert Digits(n)[1..] == [];
    } else {
      DigitsReadBack(n / 10);
      DigitsAre(n / 10);
      ReadOn(Digits(n / 10), Digit(n % 10), 0);
    }
  }

  /** Numbers survive printing and reading, so no two print alike. */
  lemma DecimalReadsBack(i: int)
    ensures Atoi(Decimal(i)) == i
  {
    var n := if i < 0 then -i else i;
    DigitsReadBack(n);
    DigitsAre(n);
    assert IsDigit(Digits(n)[0]);
    assert Decimal(i)[if i < 0 then 1 else 0..] == Digits(n);
  }

  /** A printed number has only digits and a minus sign. */
  lemma DecimalIsClean(i: int, c: char)
    requires !IsDigit(c) && c != '-'
    ensures c !in Decimal(i)
  {
    DigitsAre(if i < 0 then -i else i);
  }

  /** A printed number is its decimal digits, the highest first, with a minus sign if it is negative. */
  lemma DecimalDigits(n: int, d: int)
    requires n > 0 && 0 <= d < 10
    ensures Decimal(d) == ["0123456789"[d]]
    ensures Decimal(10 * n + d) == Decimal(n) + ["0123456789"[d]]
    ensures Decimal(-n) == "-" + Decimal(n)
  {
    assert (10 * n + d) / 10 == n && (10 * n + d) % 10 == d;
  }

  lemma {:induction false} ReadToEnd(digits: string, rest: string, n: int)
    requires AllDigits(digits) && (rest != [] ==> !('0' <= rest[0] <= '9'))
    ensures ReadDigits(digits + rest, n) == ReadDigits(digits, n)
    decreases |digits|
  {
    if digits == [] {
      assert digits + rest == rest;
    } else {
      assert (digits + rest)[1..] == digits[1..] + rest;
      ReadToEnd(digits[1..], rest, 10 * n + DigitValue(digits[0]));
    }
  }

  lemma AtoiSigns(s: string)
    requires s != [] && IsDigit(s[0])
    ensures Atoi(s) == ReadDigits(s, 0)
    ensures Atoi("-" + s) == -ReadDigits(s, 0)
    ensures Atoi("+" + s) == ReadDigits(s, 0)
  {
    hide ReadDigits;
    assert ("-" + s)[1..] == s && ("+" + s)[1..] == s;
  }

  lemma DigitsThen(n: nat, rest: string)
    requires rest != [] ==> !('0' <= rest[0] <= '9')
    ensures ReadDigits(Digits(n) + rest, 0) == n
    ensures Digits(n) + rest != [] && IsDigit((Digits(n) + rest)[0])
  {
    DigitsReadBack(n);
    DigitsAre(n);
    hide Digits, ReadDigits;
    ReadToEnd(Digits(n), rest, 0);
    assert (Digits(n) + rest)[0] == Digits(n)[0];
  }

  lemma AtoiOfNumber(i: int, rest: string)
    requires rest != [] ==> !('0' <= rest[0] <= '9')
    ensures Atoi(Decimal(i) + rest) == i
    ensures i >= 0 ==> Atoi("+" + (Decimal(i) + rest)) == i
  {
    hide Digits, ReadDigits, Atoi;
    var n := if i < 0 then -i else i;
    DigitsThen(n, rest);
    AtoiSigns(Digits(n) + rest);
    assert "-" + Digits(n) + rest == "-" + (Digits(n) + rest);
  }

  lemma {:induction false} AtoiSkips(spaces: string, s: string)
    requires forall k :: 0 <= k < |spaces| ==> spaces[k] in " \t\n\r"
    ensures Atoi(spaces + s) == Atoi(s)
    decreases |spaces|
  {
    if spaces == [] {
      assert spaces + s == s;
    } else {
      assert (spaces + s)[0] == spaces[0] && (spaces + s)[1..] == spaces[1..] + s;
      AtoiSkips(spaces[1..], s);
    }
  }

  /**
   * What `atoi` makes of any text that begins with a number: white space before it and anything
   * but a digit after it are ignored, and it may have a plus sign.
   */
  lemma AtoiReads(spaces: string, i: int, rest: string)
    requires forall k :: 0 <= k < |spaces| ==> spaces[k] in " \t\n\r"
    requires rest != [] ==> !('0' <= rest[0] <= '9')
    ensures Atoi(spaces + (Decimal(i) + rest)) == i
    ensures i >= 0 ==> Atoi(spaces + ("+" + (Decimal(i) + rest))) == i
  {
    AtoiOfNumber(i, rest);
    AtoiSkips(spaces, Decimal(i) + rest);
    AtoiSkips(spaces, "+" + (Decimal(i) + rest));
  }

  // ---------------------------------------------------------------- cutting

  /** A token: at least one character and no delimiter. */
  predicate Clean(s: string, d: char) {
    s != [] && d !in s
  }

  function Skip(s: string, d: char): string {
    if s == [] || s[0] != d then s else Skip(s[1..], d)
  }

  /** The position of the first delimiter, or the length. */
  function Span(s: string, d: char): (n: nat)
    ensures n <= |s|
    ensures d !in s[..n] && (n < |s| ==> s[n] == d)
  {
    if s == [] || s[0] == d then 0
    else
      var n := 1 + Span(s[1..], d);
      assert s[..n] == [s[0]] + s[1..][..n - 1];
      n
  }

  /** All that repeated calls of `strtok` return. */
  function Tokens(s: string, d: char): (ts: seq<string>)
    ensures forall k :: 0 <= k < |ts| ==> Clean(ts[k], d)
    decreases |s|
  {
    var t := Skip(s, d);
    if t == [] then []
    else
      SkipStops(s, d);
      var n := Span(t, d);
      [t[..n]] + Tokens(t[if n < |t| then n + 1 else n..], d)
  }

  lemma {:induction false} SkipStops(s: string, d: char)
    ensures |Skip(s, d)| <= |s|
    ensures Skip(s, d) != [] ==> Skip(s, d)[0] != d && Span(Skip(s, d), d) > 0
  {
    if s != [] && s[0] == d {
      SkipStops(s[1..], d);
    }
  }

  /** Where `strtok` goes on at its next call. */
  class Tokenizer {
    var rest: string
    const delimiter: char

    constructor (s: string, delimiter: char)
      ensures rest == s && this.delimiter == delimiter
    {
      rest := s;
      this.delimiter := delimiter;
    }

    method Next() returns (token: Option<string>)
      modifies this
      ensures token.None? ==> Tokens(old(rest), delimiter) == [] && rest == []
      ensures token.Some? ==> Tokens(old(rest), delimiter) == [token.value] + Tokens(rest, delimiter)
    {
      SkipStops(rest, delimiter);
      ghost var whole := Skip(rest, delimiter);
      while rest != [] && rest[0] == delimiter
        invariant Skip(rest, delimiter) == whole
        decreases |rest|
      {
        rest := rest[1..];
      }
      if rest == [] {
        return None;
      }
      var n := 0;
      while n < |rest| && rest[n] != delimiter
        invariant n <= |rest| && delimiter !in rest[..n]
      {
        n := n + 1;
      }
      SpanIs(rest, delimiter, n);
      token := Some(rest[..n]);
      rest := rest[if n < |rest| then n + 1 else n..];
    }
  }

  lemma SpanIs(s: string, d: char, n: nat)
    requires n <= |s| && d !in s[..n] && (n < |s| ==> s[n] == d)
    ensures Span(s, d) == n
  {
  }

  // ---------------------------------------------------------------- joining

  /** The parts with one delimiter between each two. */
  function Joined(parts: seq<string>, d: char): string {
    if parts == [] then ""
    else if |parts| == 1 then parts[0]
    else parts[0] + [d] + Joined(parts[1..], d)
  }

  lemma SpanOfClean(part: string, d: char, rest: string)
    requires d !in part
    ensures Span(part, d) == |part|
    ensures Span(part + [d] + rest, d) == |part|
  {
    assert part[..|part|] == part;
    SpanIs(part, d, |part|);
    var s := part + [d] + rest;
    assert s[..|part|] == part;
    SpanIs(s, d, |part|);
  }

  /** Cutting undoes joining exactly for tokens. */
  lemma {:induction false} TokensOfJoined(parts: seq<string>, d: char)
    ensures Tokens(Joined(parts, d), d) == parts <==> forall k :: 0 <= k < |parts| ==> Clean(parts[k], d)
  {
    if forall k :: 0 <= k < |parts| ==> Clean(parts[k], d) {
      CleanTokens(parts, d);
    }
  }

  lemma {:induction false} CleanTokens(parts: seq<string>, d: char)
    requires forall k :: 0 <= k < |parts| ==> Clean(parts[k], d)
    ensures Tokens(Joined(parts, d), d) == parts
  {
    if parts != [] {
      var s := Joined(parts, d);
      assert s[0] == parts[0][0] && Skip(s, d) == s;
      if |parts| == 1 {
        SpanOfClean(parts[0], d, "");
        assert s[..|s|] == s && s[|s|..] == [];
      } else {
        var rest := Joined(parts[1..], d);
        SpanOfClean(parts[0], d, rest);
        CleanTokens(parts[1..], d);
        assert s[..|parts[0]|] == parts[0] && s[|parts[0]| + 1..] == rest;
      }
    }
  }

  lemma {:induction false} JoinedAppend(parts: seq<string>, part: string, d: char)
    requires parts != []
    ensures Joined(parts + [part], d) == Joined(parts, d) + [d] + part
  {
    if |parts| == 1 {
      assert (parts + [part])[1..] == [part];
    } else {
      assert (parts + [part])[1..] == parts[1..] + [part];
      JoinedAppend(parts[1..], part, d);
    }
  }
}
