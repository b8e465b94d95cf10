/** Decimal text of integers: strconv.Itoa, strconv.Atoi and the integer syntax Redis accepts in HINCRBY. */
module Decimal {
  import opened Common

  predicate IsDigit(c: char) {
    '0' <= c <= '9'
  }

  predicate AllDigits(s: string) {
    forall i :: 0 <= i < |s| ==> IsDigit(s[i])
  }

  function DigitChar(d: nat): (c: char)
    requires d < 10
    ensures IsDigit(c) && DigitValue(c) == d
  {
    '0' + d as char
  }

  function DigitValue(c: char): (d: nat)
    requires IsDigit(c)
    ensures d < 10
  {
    c as int - '0' as int
  }

  function NatText(n: nat): (s: string)
    ensures s != "" && AllDigits(s)
    ensures |s| > 1 ==> s[0] != '0'
  {
    if n < 10 then [DigitChar(n)] else NatText(n / 10) + [DigitChar(n % 10)]
  }

  /** strconv.Itoa, and the text redispipe sends for an int argument. */
  function Itoa(n: int): string {
    if n < 0 then "-" + NatText(-n) else NatText(n)
  }

  function DigitsValue(s: string): nat
    requires AllDigits(s)
  {
    if s == "" then 0 else 10 * DigitsValue(s[..|s| - 1]) + DigitValue(s[|s| - 1])
  }

  predicate Signed(s: string) {
    s != "" && (s[0] == '-' || s[0] == '+')
  }

  /** strconv.Atoi: an optional sign, at least one digit, and a value that fits 64 bits. */
  function Atoi(s: string): (r: Option<int>)
    ensures r.Some? ==> MIN_INT64 <= r.value <= MAX_INT64
  {
    var digits := if Signed(s) then s[1..] else s;
    if digits == "" || !AllDigits(digits) then
      None
    else
      var n: int := DigitsValue(digits);
      var v := if s[0] == '-' then -n else n;
      if MIN_INT64 <= v <= MAX_INT64 then Some(v) else None
  }

  /** The integers HINCRBY accepts: canonical text only, so "05" and "+5" are not integers. */
  function CanonicalInt(s: string): (r: Option<int>)
    ensures r.Some? ==> s == Itoa(r.value) && MIN_INT64 <= r.value <= MAX_INT64
  {
    var r := Atoi(s);
    if r.Some? && Itoa(r.value) == s then r else None
  }

  lemma {:induction false} NatTextValue(n: nat)
    ensures DigitsValue(NatText(n)) == n
  {
    if n < 10 {
      assert NatText(n)[..0] == "";
    } else {
      NatTextValue(n / 10);
      assert NatText(n)[..|NatText(n)| - 1] == NatText(n / 10);
    }
  }

  /** Printing and parsing an int64 is the identity. */
  lemma ItoaRoundTrip(n: int)
    requires MIN_INT64 <= n <= MAX_INT64
    ensures Atoi(Itoa(n)) == Some(n) && CanonicalInt(Itoa(n)) == Some(n)
  {
    if n < 0 {
      NatTextValue(-n);
      assert Itoa(n)[1..] == NatText(-n);
    } else {
      NatTextValue(n);
      assert IsDigit(NatText(n)[0]);
    }
  }

  lemma {:induction false} LeadingZero(s: string)
    requires AllDigits(s)
    ensures DigitsValue("0" + s) == DigitsValue(s)
  {
    if s == "" {
      assert "0" + s == "0" && "0"[..0] == "";
    } else {
      LeadingZero(s[..|s| - 1]);
      assert ("0" + s)[..|s|] == "0" + s[..|s| - 1];
    }
  }

  /** Other spellings of a number parse all the same, though only the canonical one is an integer to HINCRBY. */
  lemma OtherSpellings(n: nat)
    requires n <= MAX_INT64
    ensures Atoi("+" + Itoa(n)) == Atoi("0" + Itoa(n)) == Some(n)
    ensures CanonicalInt("+" + Itoa(n)).None? && CanonicalInt("0" + Itoa(n)).None?
  {
    ItoaRoundTrip(n);
    NatTextValue(n);
    LeadingZero(NatText(n));
    assert ("+" + Itoa(n))[1..] == NatText(n);
    assert AllDigits("0" + NatText(n));
    assert IsDigit(NatText(n)[0]);
    assert |"+" + Itoa(n)| == |Itoa(n)| + 1 && |"0" + Itoa(n)| == |Itoa(n)| + 1;
  }

  lemma ItoaInjective(a: int, b: int)
    requires MIN_INT64 <= a <= MAX_INT64 && MIN_INT64 <= b <= MAX_INT64
    requires Itoa(a) == Itoa(b)
    ensures a == b
  {
    ItoaRoundTrip(a);
    ItoaRoundTrip(b);
  }
}
