/** The JavaScript string operations the UI code relies on: ASCII stand-ins
    for `trim`, `toLowerCase`, `includes`, `startsWith`, `String(n)` and
    `padStart`, and the UTF-16 `length`. */
module Text {

  /** The ASCII characters JavaScript's `trim` removes. */
  predicate IsSpace(c: char) {
    c == ' ' || c == '\t' || c == '\n' || c == '\r' || c == '\U{B}' || c == '\U{C}'
  }

  predicate AllSpace(s: string) {
    forall i :: 0 <= i < |s| ==> IsSpace(s[i])
  }

  /** Drops leading whitespace: the result is a suffix of `s` that does not start with a space. */
  function TrimStart(s: string): (r: string)
    ensures |r| <= |s| && r == s[|s| - |r|..]
    ensures r == [] || !IsSpace(r[0])
    ensures forall i :: 0 <= i < |s| - |r| ==> IsSpace(s[i])
  {
    if s != [] && IsSpace(s[0]) then TrimStart(s[1..]) else s
  }

  /** Drops trailing whitespace: the result is a prefix of `s` that does not end with a space. */
  function TrimEnd(s: string): (r: string)
    ensures |r| <= |s| && r == s[..|r|]
    ensures r == [] || !IsSpace(r[|r| - 1])
    ensures forall i :: |r| <= i < |s| ==> IsSpace(s[i])
  {
    if s != [] && IsSpace(s[|s| - 1]) then TrimEnd(s[..|s| - 1]) else s
  }

  /** JavaScript's `trim`. */
  function Trim(s: string): string {
    TrimEnd(TrimStart(s))
  }

  /** A string that neither starts nor ends with whitespace is its own trim. */
  lemma TrimUntouched(s: string)
    requires s != [] && !IsSpace(s[0]) && !IsSpace(s[|s| - 1])
    ensures Trim(s) == s
  {
    assert TrimStart(s) == s;
  }

  /** The code units of one character in UTF-16: two for a character outside
      the Basic Multilingual Plane, which takes a surrogate pair, one for any
      other. */
  function CodeUnits(c: char): nat {
    if c as int > 0xFFFF then 2 else 1
  }

  /** JavaScript's `length`, which counts UTF-16 code units rather than
      characters. It equals the number of characters exactly when every
      character lies in the Basic Multilingual Plane, and is twice that
      number exactly when none does. */
  function Utf16Length(s: string): (n: nat)
    ensures |s| <= n <= 2 * |s|
    ensures n == |s| <==> forall i :: 0 <= i < |s| ==> s[i] as int <= 0xFFFF
    ensures n == 2 * |s| <==> forall i :: 0 <= i < |s| ==> s[i] as int > 0xFFFF
  {
    if s == [] then 0
    else
      var n := CodeUnits(s[0]) + Utf16Length(s[1..]);
      assert forall i :: 1 <= i < |s| ==> s[i] == s[1..][i - 1];
      n
  }

  /** The length of a concatenation is the sum of the lengths. */
  lemma {:induction false} Utf16LengthConcat(a: string, b: string)
    ensures Utf16Length(a + b) == Utf16Length(a) + Utf16Length(b)
  {
    if a == [] {
      assert a + b == b;
    } else {
      assert (a + b)[0] == a[0] && (a + b)[1..] == a[1..] + b;
      Utf16LengthConcat(a[1..], b);
    }
  }

  /** A string trims to the empty string exactly when it consists of whitespace only. */
  lemma TrimEmptyIffBlank(s: string)
    ensures Trim(s) == [] <==> AllSpace(s)
  {
    var t := TrimStart(s);
    if t != [] {
      assert t[0] == s[|s| - |t|];
    }
  }

  function LowerChar(c: char): char {
    if 'A' <= c <= 'Z' then (c as int + 32) as char else c
  }

  /** `toLowerCase`, on ASCII letters only. */
  function Lower(s: string): (r: string)
    ensures |r| == |s|
    ensures forall i :: 0 <= i < |s| ==> r[i] == LowerChar(s[i])
  {
    seq(|s|, i requires 0 <= i < |s| => LowerChar(s[i]))
  }

  predicate StartsWith(s: string, prefix: string) {
    |prefix| <= |s| && s[..|prefix|] == prefix
  }

  /** `s.includes(t)`: `t` occurs in `s` at some position. */
  predicate Includes(s: string, t: string) {
    StartsWith(s, t) || (s != [] && Includes(s[1..], t))
  }

  function DigitChar(d: nat): char
    requires d < 10
  {
    "0123456789"[d]
  }

  /** `String(n)` for a natural number: its decimal digits, most significant first. */
  function Decimal(n: nat): (r: string)
    ensures 1 <= |r|
    ensures n < 10 <==> |r| == 1
    ensures r[|r| - 1] == DigitChar(n % 10)
  {
    if n < 10 then [DigitChar(n)] else Decimal(n / 10) + [DigitChar(n % 10)]
  }

  lemma DigitCharInjective(a: nat, b: nat)
    requires a < 10 && b < 10 && DigitChar(a) == DigitChar(b)
    ensures a == b
  {
  }

  /** Distinct numbers have distinct decimal strings. */
  lemma {:induction false} DecimalInjective(a: nat, b: nat)
    requires Decimal(a) == Decimal(b)
    ensures a == b
  {
    DigitCharInjective(a % 10, b % 10);
    if 10 <= a {
      var s := Decimal(a);
      assert Decimal(a / 10) == s[..|s| - 1];
      assert Decimal(b / 10) == s[..|s| - 1];
      DecimalInjective(a / 10, b / 10);
    }
  }

  /** `s.padStart(2, '0')`. */
  function PadStart2(s: string): string {
    if |s| < 2 then seq(2 - |s|, _ => '0') + s else s
  }

  /** Two-digit zero padding of a number below 100 is exactly two characters and loses nothing. */
  lemma {:induction false} PadStart2Decimal(a: nat, b: nat)
    requires a < 100 && b < 100
    ensures |PadStart2(Decimal(a))| == 2
    ensures PadStart2(Decimal(a)) == PadStart2(Decimal(b)) ==> a == b
  {
    if a >= 10 { assert Decimal(a / 10) == [DigitChar(a / 10)]; }
    if b >= 10 { assert Decimal(b / 10) == [DigitChar(b / 10)]; }
    if PadStart2(Decimal(a)) == PadStart2(Decimal(b)) {
      var s := PadStart2(Decimal(a));
      if a < 10 && b < 10 {
        assert s == ['0', DigitChar(a)] && s == ['0', DigitChar(b)];
        DigitCharInjective(a, b);
      } else if a < 10 {
        assert s[0] == '0' == DigitChar(0) && s[0] == DigitChar(b / 10);
        DigitCharInjective(0, b / 10);
      } else if b < 10 {
        assert s[0] == '0' == DigitChar(0) && s[0] == DigitChar(a / 10);
        DigitCharInjective(0, a / 10);
      } else {
        assert s == [DigitChar(a / 10), DigitChar(a % 10)];
        assert s == [DigitChar(b / 10), DigitChar(b % 10)];
        DigitCharInjective(a / 10, b / 10);
        DigitCharInjective(a % 10, b % 10);
      }
    }
  }
}
