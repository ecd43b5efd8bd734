/** Decimal digit strings and the numbers they stand for. */
module Decimals {
  predicate IsDigit(c: char) { '0' <= c <= '9' }

  predicate Digits(s: string) { forall i :: 0 <= i < |s| ==> IsDigit(s[i]) }

  function DigitValue(c: char): nat requires IsDigit(c) { c as int - '0' as int }

  function Pow10(k: nat): (p: nat)
    ensures p >= 1
  {
    if k == 0 then 1 else 10 * Pow10(k - 1)
  }

  function ParseNat(s: string): (n: nat)
    requires Digits(s)
    ensures n < Pow10(|s|)
  {
    if s == "" then 0 else 10 * ParseNat(s[..|s| - 1]) + DigitValue(s[|s| - 1])
  }

  function Show(n: nat): (s: string)
    ensures s != "" && Digits(s) && ParseNat(s) == n
  {
    var last := ['0' + (n % 10) as char];
    if n < 10 then
      assert last[..0] == "";
      last
    else
      var s := Show(n / 10) + last;
      assert s[..|s| - 1] == Show(n / 10);
      s
  }

  function Zeros(k: nat): (s: string)
    ensures |s| == k && forall i :: 0 <= i < k ==> s[i] == '0'
  {
    seq(k, _ => '0')
  }

  lemma {:induction false} ShowLength(n: nat, k: nat)
    requires k >= 1 && n < Pow10(k)
    ensures |Show(n)| <= k
  {
    if n >= 10 {
      assert k > 1;
      ShowLength(n / 10, k - 1);
    }
  }

  lemma {:induction false} Pow10Add(a: nat, b: nat)
    ensures Pow10(a + b) == Pow10(a) * Pow10(b)
  {
    if b > 0 { Pow10Add(a, b - 1); }
  }

  lemma {:induction false} Pow10Monotone(a: nat, b: nat)
    requires a <= b
    ensures Pow10(a) <= Pow10(b)
  {
    if a < b { Pow10Monotone(a, b - 1); }
  }

  /** Positional notation: putting b after a shifts a by |b| places. */
  lemma {:induction false} ParseConcat(a: string, b: string)
    requires Digits(a) && Digits(b)
    ensures Digits(a + b) && ParseNat(a + b) == ParseNat(a) * Pow10(|b|) + ParseNat(b)
  {
    if b == "" {
      assert a + b == a;
    } else {
      var n := |b| - 1;
      ParseConcat(a, b[..n]);
      var s := a + b;
      assert s[..|s| - 1] == a + b[..n] && s[|s| - 1] == b[n];
      ShiftDigits(ParseNat(a), Pow10(n), ParseNat(b[..n]), DigitValue(b[n]));
    }
  }

  lemma ShiftDigits(x: int, y: int, rest: int, d: int)
    ensures 10 * (x * y + rest) + d == x * (10 * y) + (10 * rest + d)
  {
    assert 10 * (x * y) == x * (10 * y);
  }

  lemma {:induction false} ParseZeros(s: string)
    requires forall i :: 0 <= i < |s| ==> s[i] == '0'
    ensures Digits(s) && ParseNat(s) == 0
  {
    if s != "" { ParseZeros(s[..|s| - 1]); }
  }

  lemma AppendZeros(s: string, k: nat)
    requires Digits(s)
    ensures ParseNat(s + Zeros(k)) == ParseNat(s) * Pow10(k)
  {
    ParseZeros(Zeros(k));
    ParseConcat(s, Zeros(k));
  }

  lemma {:induction false} ParseNatInjective(a: string, b: string)
    requires Digits(a) && Digits(b) && |a| == |b| && ParseNat(a) == ParseNat(b)
    ensures a == b
  {
    if a != "" {
      var n := |a| - 1;
      ParseNatInjective(a[..n], b[..n]);
      assert a == a[..n] + [a[n]] && b == b[..n] + [b[n]];
    }
  }

  lemma {:induction false} ParseNatLowerBound(s: string)
    requires Digits(s) && s != "" && s[0] != '0'
    ensures ParseNat(s) >= Pow10(|s| - 1)
  {
    if |s| > 1 {
      ParseNatLowerBound(s[..|s| - 1]);
    } else {
      assert s[..0] == "";
    }
  }
}
