/** Decimal printing and parsing as done by fmt's %d and the strconv package. */
module Decimal {
  import opened Wrappers

  const INT64_MIN: int := -0x8000_0000_0000_0000
  const INT64_MAX: int := 0x7FFF_FFFF_FFFF_FFFF

  /** int64 arithmetic wraps around. */
  function Wrap64(n: int): int {
    (n + 0x8000_0000_0000_0000) % 0x1_0000_0000_0000_0000 - 0x8000_0000_0000_0000
  }

  predicate IsDigit(c: char) {
    '0' <= c <= '9'
  }

  function DigitChar(d: nat): (c: char)
    requires d < 10
    ensures IsDigit(c) && DigitValue(c) == d
  {
    ('0' as int + d) as char
  }

  function DigitValue(c: char): (d: nat)
    requires IsDigit(c)
    ensures d < 10
  {
    c as int - '0' as int
  }

  predicate AllDigits(s: string) {
    forall i :: 0 <= i < |s| ==> IsDigit(s[i])
  }

  function PrintNat(n: nat): (s: string)
    ensures s != "" && AllDigits(s) && DigitsValue(s) == n
  {
    if n < 10 then [DigitChar(n)]
    else
      var s := PrintNat(n / 10);
      DigitsSnoc(s, n % 10);
      s + [DigitChar(n % 10)]
  }

  function DigitsValue(s: string): nat
    requires AllDigits(s)
  {
    if s == "" then 0 else 10 * DigitsValue(s[..|s| - 1]) + DigitValue(s[|s| - 1])
  }

  lemma DigitsSnoc(s: string, d: nat)
    requires AllDigits(s) && d < 10
    ensures AllDigits(s + [DigitChar(d)]) && DigitsValue(s + [DigitChar(d)]) == 10 * DigitsValue(s) + d
  {
    assert (s + [DigitChar(d)])[..|s|] == s;
  }

  /** The %d verb. */
  function Print(n: int): (s: string)
    ensures s != ""
    ensures forall c :: c in s ==> IsDigit(c) || c == '-'
  {
    if n < 0 then "-" + PrintNat(-n) else PrintNat(n)
  }

  /** strconv.ParseInt(s, 10, 64), and strconv.Atoi on a 64-bit platform. */
  function ParseInt64(s: string): (r: Option<int>)
    ensures r.Some? ==> INT64_MIN <= r.value <= INT64_MAX
  {
    var signed := s != "" && (s[0] == '-' || s[0] == '+');
    var digits := if signed then s[1..] else s;
    if digits == "" || !AllDigits(digits) then None
    else
      var n: int := DigitsValue(digits);
      var n: int := if signed && s[0] == '-' then -n else n;
      if INT64_MIN <= n <= INT64_MAX then Some(n) else None
  }

  /** The value strconv.ParseInt leaves behind when its error is ignored: out-of-range numbers are clamped,
      anything else gives zero. */
  function ParseInt64Lenient(s: string): int {
    var signed := s != "" && (s[0] == '-' || s[0] == '+');
    var digits := if signed then s[1..] else s;
    if digits == "" || !AllDigits(digits) then 0
    else
      var n: int := DigitsValue(digits);
      var n: int := if signed && s[0] == '-' then -n else n;
      if n < INT64_MIN then INT64_MIN else if n > INT64_MAX then INT64_MAX else n
  }

  lemma LenientAgrees(s: string)
    ensures ParseInt64(s).Some? ==> ParseInt64Lenient(s) == ParseInt64(s).value
  {
  }

  /** Of a number beyond the int64 range the nearest bound is left, and of a text that is no number zero. */
  lemma LenientIsNearest(s: string, digits: string)
    requires digits != ""
    ensures AllDigits(digits) && DigitsValue(digits) > INT64_MAX ==>
              ParseInt64Lenient(digits) == ParseInt64Lenient("+" + digits) == INT64_MAX
              && ParseInt64Lenient("-" + digits) == INT64_MIN
    ensures ParseInt64(s).None? && (exists i :: 1 <= i < |s| && !IsDigit(s[i])) ==> ParseInt64Lenient(s) == 0
    ensures ParseInt64Lenient("") == 0
  {
    assert ("+" + digits)[1..] == digits && ("-" + digits)[1..] == digits;
  }

  /** strconv.ParseUint(s, 10, 64). */
  function ParseUint64(s: string): (r: Option<nat>)
    ensures r.Some? ==> r.value < 0x1_0000_0000_0000_0000
  {
    if s == "" || !AllDigits(s) then None
    else if DigitsValue(s) < 0x1_0000_0000_0000_0000 then Some(DigitsValue(s)) else None
  }

  lemma ParseOfPrint(n: int)
    ensures ParseInt64(Print(n)) == if INT64_MIN <= n <= INT64_MAX then Some(n) else None
  {
    var s := Print(n);
    if n < 0 {
      assert s[1..] == PrintNat(-n);
    } else {
      assert IsDigit(s[0]);
    }
  }

  lemma ParseUintOfPrint(n: nat)
    ensures ParseUint64(Print(n)) == if n < 0x1_0000_0000_0000_0000 then Some(n) else None
  {
    assert Print(n) == PrintNat(n);
  }

  lemma PrintInjective(m: int, n: int)
    ensures Print(m) == Print(n) ==> m == n
  {
    var s, t := Print(m), Print(n);
    assert if m < 0 then s[0] == '-' && s[1..] == PrintNat(-m) else IsDigit(s[0]);
    assert if n < 0 then t[0] == '-' && t[1..] == PrintNat(-n) else IsDigit(t[0]);
  }
}
