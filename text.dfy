// String helpers shared by the models: the small parts of Python's and
// JavaScript's string libraries that the modelled code relies on.

module Text {

  /** The six ASCII whitespace characters that Python's str.strip(),
      JavaScript's trim() and the regular-expression class \s all remove.
      Python's str.strip() also removes the separators \x1c to \x1f, which
      are left out here. */
  predicate IsSpace(c: char) {
    c == ' ' || c == '\t' || c == '\n' || c == '\r' || c == '\U{000B}' || c == '\U{000C}'
  }

  predicate IsDigit(c: char) {
    '0' <= c <= '9'
  }

  /** Leading whitespace removed. */
  function TrimStart(s: string): string {
    if s != [] && IsSpace(s[0]) then TrimStart(s[1..]) else s
  }

  /** Trailing whitespace removed. */
  function TrimEnd(s: string): string {
    if s != [] && IsSpace(s[|s| - 1]) then TrimEnd(s[..|s| - 1]) else s
  }

  /** Python's str.strip() with no argument, JavaScript's String.prototype.trim(). */
  function Strip(s: string): string {
    TrimEnd(TrimStart(s))
  }

  /** Neither end is whitespace. */
  predicate NoEdgeSpace(t: string) {
    t == [] || (!IsSpace(t[0]) && !IsSpace(t[|t| - 1]))
  }

  /** Trimming the start drops a prefix of whitespace and stops at a non-space. */
  lemma {:induction false} TrimStartShape(s: string)
    decreases |s|
    ensures |TrimStart(s)| <= |s| && TrimStart(s) == s[|s| - |TrimStart(s)|..]
    ensures TrimStart(s) != [] ==> !IsSpace(TrimStart(s)[0])
  {
    if s != [] && IsSpace(s[0]) {
      TrimStartShape(s[1..]);
    }
  }

  /** Trimming the end drops a suffix of whitespace and stops at a non-space. */
  lemma {:induction false} TrimEndShape(s: string)
    decreases |s|
    ensures |TrimEnd(s)| <= |s| && TrimEnd(s) == s[..|TrimEnd(s)|]
    ensures TrimEnd(s) != [] ==> !IsSpace(TrimEnd(s)[|TrimEnd(s)| - 1])
    ensures s != [] && !IsSpace(s[0]) ==> TrimEnd(s) != []
  {
    if s != [] && IsSpace(s[|s| - 1]) {
      TrimEndShape(s[..|s| - 1]);
    }
  }

  /** A stripped string has whitespace at neither end. */
  lemma StripShape(s: string)
    ensures NoEdgeSpace(Strip(s))
  {
    var a := TrimStart(s);
    TrimStartShape(s);
    var b := TrimEnd(a);
    TrimEndShape(a);
    if b != [] {
      assert b[0] == a[0];
    }
  }

  /** Text without edge whitespace is its own strip. */
  lemma StripFixed(t: string)
    requires NoEdgeSpace(t)
    ensures Strip(t) == t
  {
  }

  /** Stripping twice is stripping once. */
  lemma StripIdempotent(s: string)
    ensures Strip(Strip(s)) == Strip(s)
  {
    StripShape(s);
    StripFixed(Strip(s));
  }

  predicate StartsWith(s: string, prefix: string) {
    |prefix| <= |s| && s[..|prefix|] == prefix
  }

  predicate EndsWith(s: string, suffix: string) {
    |suffix| <= |s| && s[|s| - |suffix|..] == suffix
  }

  /** `sub in s` in Python, `s.includes(sub)` in JavaScript. */
  predicate Contains(s: string, sub: string)
    decreases |s|
  {
    StartsWith(s, sub) || (s != [] && Contains(s[1..], sub))
  }

  /** ASCII part of toLowerCase(). */
  function LowerChar(c: char): char {
    if 'A' <= c <= 'Z' then (c as int + 32) as char else c
  }

  function Lower(s: string): (r: string)
    ensures |r| == |s|
    ensures forall i :: 0 <= i < |s| ==> r[i] == LowerChar(s[i])
  {
    if s == [] then [] else [LowerChar(s[0])] + Lower(s[1..])
  }

  /** s.replace(/\D/g, ''): the digits of s, in order. */
  function Digits(s: string): string {
    if s == [] then []
    else if IsDigit(s[0]) then [s[0]] + Digits(s[1..])
    else Digits(s[1..])
  }

  /** Only digits are kept, so the result is no longer than the input. */
  lemma {:induction false} DigitsSpec(s: string)
    decreases |s|
    ensures |Digits(s)| <= |s|
    ensures forall i :: 0 <= i < |Digits(s)| ==> IsDigit(Digits(s)[i])
  {
    if s != [] {
      DigitsSpec(s[1..]);
      if IsDigit(s[0]) {
        var r := Digits(s);
        forall i | 0 < i < |r| ensures IsDigit(r[i]) {
          assert r[i] == Digits(s[1..])[i - 1];
        }
      }
    }
  }

  function DigitChar(d: nat): char
    requires d < 10
  {
    ('0' as int + d) as char
  }

  /** Decimal rendering of a natural number, as `${n}` prints it. */
  function NatToString(n: nat): (r: string)
    ensures |r| >= 1
    ensures forall i :: 0 <= i < |r| ==> IsDigit(r[i])
  {
    if n < 10 then [DigitChar(n)] else NatToString(n / 10) + [DigitChar(n % 10)]
  }

  /** The number a string of decimal digits denotes. */
  function DecimalValue(s: string): int {
    if s == [] then 0 else DecimalValue(s[..|s| - 1]) * 10 + (s[|s| - 1] as int - '0' as int)
  }

  /** Reading back a printed number gives the number, so different numbers
      print differently. */
  lemma {:induction false} DecimalValueOfNatToString(n: nat)
    ensures DecimalValue(NatToString(n)) == n
  {
    if n >= 10 {
      var s := NatToString(n);
      assert s[..|s| - 1] == NatToString(n / 10);
      DecimalValueOfNatToString(n / 10);
    }
  }

  function IntToString(n: int): string {
    if n < 0 then "-" + NatToString(-n) else NatToString(n)
  }

  /** The integer a decimal rendering with an optional leading minus denotes. */
  function IntValue(s: string): int {
    if |s| > 0 && s[0] == '-' then -DecimalValue(s[1..]) else DecimalValue(s)
  }

  /** Reading back a printed integer gives the integer, so different integers
      print differently. */
  lemma IntValueOfIntToString(n: int)
    ensures IntValue(IntToString(n)) == n
  {
    if n < 0 {
      assert IntToString(n)[1..] == NatToString(-n);
      DecimalValueOfNatToString(-n);
    } else {
      assert IsDigit(NatToString(n)[0]);
      DecimalValueOfNatToString(n);
    }
  }

  /** A number below 100 rendered with at least two digits, as
      `${s < 10 ? '0' : ''}${s}` does. */
  function Pad2(n: nat): (r: string)
    requires n < 100
    ensures |r| == 2
  {
    if n < 10 then ['0', DigitChar(n)] else [DigitChar(n / 10), DigitChar(n % 10)]
  }

  /** Array.prototype.join(sep). */
  function Join(parts: seq<string>, sep: string): string {
    if parts == [] then ""
    else if |parts| == 1 then parts[0]
    else parts[0] + sep + Join(parts[1..], sep)
  }
}
