/** The pieces of the JavaScript runtime that the bridge and the address listing rely on:
    string searching, integer-to-text rendering and `parseInt`. */
module Js {

  datatype Option<T> = None | Some(value: T)

  // ---------------------------------------------------------------------------
  // Strings

  /** `s.startsWith(p)` */
  predicate HasPrefix(s: string, p: string) {
    |p| <= |s| && s[..|p|] == p
  }

  /** `sub` occurs in `s` starting at index `i`. */
  ghost predicate OccursAt(s: string, sub: string, i: int) {
    0 <= i && i + |sub| <= |s| && s[i..i + |sub|] == sub
  }

  /** `s.includes(sub)`: tries each start position from the left. */
  predicate Contains(s: string, sub: string)
    decreases |s|
  {
    HasPrefix(s, sub) || (s != [] && Contains(s[1..], sub))
  }

  /** The left-to-right scan finds `sub` exactly when it occurs somewhere in `s`. */
  lemma {:induction false} ContainsIff(s: string, sub: string)
    ensures Contains(s, sub) <==> exists i :: OccursAt(s, sub, i)
    decreases |s|
  {
    if HasPrefix(s, sub) {
      assert OccursAt(s, sub, 0);
    } else if s != [] {
      ContainsIff(s[1..], sub);
      forall i | OccursAt(s[1..], sub, i)
        ensures OccursAt(s, sub, i + 1)
      {
        assert s[1..][i..i + |sub|] == s[i + 1..i + 1 + |sub|];
      }
      forall i | OccursAt(s, sub, i)
        ensures OccursAt(s[1..], sub, i - 1)
      {
        assert i != 0;
        assert s[1..][i - 1..i - 1 + |sub|] == s[i..i + |sub|];
      }
    }
  }

  /** Whatever surrounds it, a string holding `sub` contains `sub`. */
  lemma ContainsInside(p: string, sub: string, q: string)
    ensures Contains(p + sub + q, sub)
  {
    assert (p + sub + q)[|p|..|p| + |sub|] == sub;
    assert OccursAt(p + sub + q, sub, |p|);
    ContainsIff(p + sub + q, sub);
  }

  /** `s.replace(pat, "")` with a string pattern: drops the leftmost occurrence of `pat`, if any. */
  function RemoveFirst(s: string, pat: string): string
    decreases |s|
  {
    if HasPrefix(s, pat) then s[|pat|..]
    else if s == [] then s
    else [s[0]] + RemoveFirst(s[1..], pat)
  }

  /** The occurrence removed is the leftmost one and the text around it is kept. */
  lemma {:induction false} RemoveFirstLeftmost(s: string, pat: string, k: int)
    requires OccursAt(s, pat, k)
    requires forall j :: 0 <= j < k ==> !OccursAt(s, pat, j)
    ensures RemoveFirst(s, pat) == s[..k] + s[k + |pat|..]
    decreases |s|
  {
    if k == 0 {
      assert HasPrefix(s, pat);
    } else {
      assert !OccursAt(s, pat, 0);
      assert !HasPrefix(s, pat);
      assert OccursAt(s[1..], pat, k - 1) by {
        assert s[1..][k - 1..k - 1 + |pat|] == s[k..k + |pat|];
      }
      forall j | 0 <= j
        ensures OccursAt(s[1..], pat, j) <==> OccursAt(s, pat, j + 1)
      {
        if j + |pat| <= |s| - 1 {
          assert s[1..][j..j + |pat|] == s[j + 1..j + 1 + |pat|];
        }
      }
      RemoveFirstLeftmost(s[1..], pat, k - 1);
      assert [s[0]] + s[1..][..k - 1] == s[..k];
      assert s[1..][k - 1 + |pat|..] == s[k + |pat|..];
    }
  }

  /** With no occurrence of `pat`, `replace` leaves the string as it is. */
  lemma {:induction false} RemoveFirstAbsent(s: string, pat: string)
    requires !Contains(s, pat)
    ensures RemoveFirst(s, pat) == s
    decreases |s|
  {
    if s != [] {
      RemoveFirstAbsent(s[1..], pat);
    }
  }

  // ---------------------------------------------------------------------------
  // Digits and integers as text

  /** The value of `c` as a digit in any radix up to 36, as `parseInt` reads it; 36 when `c` is no digit. */
  function DigitValue(c: char): (d: nat)
    ensures d <= 36
  {
    if '0' <= c <= '9' then c as int - '0' as int
    else if 'a' <= c <= 'z' then c as int - 'a' as int + 10
    else if 'A' <= c <= 'Z' then c as int - 'A' as int + 10
    else 36
  }

  predicate IsDigit(c: char) {
    '0' <= c <= '9'
  }

  predicate AllDigits(s: string) {
    forall i :: 0 <= i < |s| ==> IsDigit(s[i])
  }

  /** Every character of `s` is a digit of the given radix. */
  predicate DigitsBelow(s: string, radix: nat) {
    forall i :: 0 <= i < |s| ==> DigitValue(s[i]) < radix
  }

  function DigitChar(d: nat): (c: char)
    requires d < 10
    ensures IsDigit(c) && DigitValue(c) == d
  {
    ('0' as int + d) as char
  }

  /** `n.toString()` for a non-negative BigInt, or a Number that holds an integer. */
  function Decimal(n: nat): (s: string)
    ensures s != [] && AllDigits(s)
    ensures s[0] == '0' <==> n == 0
  {
    if n < 10 then [DigitChar(n)] else Decimal(n / 10) + [DigitChar(n % 10)]
  }

  /** The number a string of radix digits denotes, most significant digit first. */
  function DigitsValue(s: string, radix: nat): nat
    requires DigitsBelow(s, radix)
  {
    if s == [] then 0 else DigitsValue(s[..|s| - 1], radix) * radix + DigitValue(s[|s| - 1])
  }

  lemma AllDigitsBelowTen(s: string)
    requires AllDigits(s)
    ensures DigitsBelow(s, 10)
  {
  }

  /** Reading a rendered number back gives the number. */
  lemma {:induction false} DecimalRoundTrip(n: nat)
    ensures DigitsBelow(Decimal(n), 10) && DigitsValue(Decimal(n), 10) == n
  {
    AllDigitsBelowTen(Decimal(n));
    if n >= 10 {
      var s := Decimal(n);
      assert s[..|s| - 1] == Decimal(n / 10);
      DecimalRoundTrip(n / 10);
    }
  }

  /** Distinct numbers render differently. */
  lemma DecimalInjective(m: nat, n: nat)
    requires Decimal(m) == Decimal(n)
    ensures m == n
  {
    DecimalRoundTrip(m);
    DecimalRoundTrip(n);
  }

  /** `${i}` or `String(i)` for a Number holding the integer `i`. */
  function IntText(i: int): (s: string)
    ensures s != [] && (s[0] == '-' <==> i < 0)
  {
    if i < 0 then "-" + Decimal(-i) else Decimal(i)
  }

  // ---------------------------------------------------------------------------
  // parseInt

  /** The integer-or-NaN Numbers that `parseInt` can return. */
  datatype NumberValue = NaN | Int(value: int)

  /** `${n}` */
  function NumberText(n: NumberValue): string {
    match n
    case NaN => "NaN"
    case Int(i) => IntText(i)
  }

  /** The white space and line terminator characters that `parseInt` skips at the front of its input. */
  predicate IsJsSpace(c: char) {
    var u := c as int;
    u == 0x09 || u == 0x0A || u == 0x0B || u == 0x0C || u == 0x0D || u == 0x20 || u == 0xA0 ||
    u == 0x1680 || (0x2000 <= u <= 0x200A) || u == 0x2028 || u == 0x2029 || u == 0x202F ||
    u == 0x205F || u == 0x3000 || u == 0xFEFF
  }

  function TrimStart(s: string): (r: string)
    ensures |r| <= |s| && r == s[|s| - |r|..]
    ensures r == [] || !IsJsSpace(r[0])
  {
    if s != [] && IsJsSpace(s[0]) then TrimStart(s[1..]) else s
  }

  /** The longest prefix of `s` made of digits of the given radix. */
  function LeadingDigits(s: string, radix: nat): (d: string)
    ensures HasPrefix(s, d) && DigitsBelow(d, radix)
    ensures |d| == |s| || DigitValue(s[|d|]) >= radix
  {
    if s != [] && DigitValue(s[0]) < radix then [s[0]] + LeadingDigits(s[1..], radix) else []
  }

  /** `parseInt(s)` with no radix argument: skips leading white space, takes one sign, reads
      hexadecimal after `0x`/`0X` and decimal otherwise, and stops at the first non-digit. */
  function ParseInt(s: string): NumberValue {
    var t := TrimStart(s);
    if t != [] && t[0] == '-' then Negate(ParseUnsigned(t[1..]))
    else if t != [] && t[0] == '+' then ParseUnsigned(t[1..])
    else ParseUnsigned(t)
  }

  function Negate(n: NumberValue): NumberValue {
    match n
    case NaN => NaN
    case Int(v) => Int(-v)
  }

  /** The digits after the sign: NaN when there are none. */
  function ParseUnsigned(u: string): NumberValue {
    var hex := HasPrefix(u, "0x") || HasPrefix(u, "0X");
    var radix := if hex then 16 else 10;
    var digits := LeadingDigits(if hex then u[2..] else u, radix);
    if digits == [] then NaN else Int(DigitsValue(digits, radix))
  }

  lemma {:induction false} LeadingDigitsAll(s: string)
    requires AllDigits(s)
    ensures LeadingDigits(s, 10) == s
  {
    if s != [] {
      LeadingDigitsAll(s[1..]);
    }
  }

  lemma ParseUnsignedDecimal(n: nat)
    ensures ParseUnsigned(Decimal(n)) == Int(n)
  {
    var u := Decimal(n);
    assert !HasPrefix(u, "0x") && !HasPrefix(u, "0X") by {
      if |u| >= 2 {
        assert IsDigit(u[1]);
        assert u[..2][1] == u[1];
      }
    }
    LeadingDigitsAll(u);
    DecimalRoundTrip(n);
  }

  /** `parseInt` reads back every integer that `String` renders. */
  lemma ParseIntText(i: int)
    ensures ParseInt(IntText(i)) == Int(i)
  {
    var t := IntText(i);
    assert TrimStart(t) == t by {
      assert !IsJsSpace(t[0]);
    }
    if i < 0 {
      assert t[1..] == Decimal(-i);
      ParseUnsignedDecimal(-i);
    } else {
      assert t[0] != '-' && t[0] != '+';
      ParseUnsignedDecimal(i);
    }
  }
}
