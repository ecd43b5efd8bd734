/** Fixed-point money: toUnits, fromUnits and the trimming of a 7-decimal string. */
module Money {
  import opened Decimals
  import opened Options

  const SCALE: nat := 10_000_000

  function DotAt(s: string): (d: nat)
    ensures d <= |s| && (d < |s| ==> s[d] == '.')
    ensures forall i :: 0 <= i < d ==> s[i] != '.'
  {
    if s == "" || s[0] == '.' then 0
    else
      var d := 1 + DotAt(s[1..]);
      assert forall i | 1 <= i < d :: s[i] == s[1..][i - 1];
      d
  }

  function Whole(s: string): string { s[..DotAt(s)] }

  function Fraction(s: string): string
  {
    if DotAt(s) < |s| then s[DotAt(s) + 1..] else ""
  }

  /** A plain decimal, as the request schema and NUMERIC columns write it. */
  predicate Numeral(s: string)
  {
    Whole(s) != "" && Digits(Whole(s)) && Digits(Fraction(s))
  }

  /** None: the service throws 'Amount must be greater than zero'. */
  function ToUnits(s: string): Option<nat>
    requires Numeral(s)
  {
    var padded := PadEnd7(Fraction(s));
    var units := ParseNat(Whole(s)) * SCALE + ParseNat(padded);
    if units <= 0 then None else Some(units)
  }

  /** (fraction + '0000000').slice(0, 7) */
  function PadEnd7(f: string): (padded: string)
    ensures padded == if |f| <= 7 then f + Zeros(7 - |f|) else f[..7]
    ensures Digits(f) ==> Digits(padded)
  {
    assert forall i | 0 <= i < 7 :: "0000000"[i] == '0';
    (f + "0000000")[..7]
  }

  function PadStart7(s: string): string
  {
    if |s| >= 7 then s else Zeros(7 - |s|) + s
  }

  function FromUnits(units: nat): string
  {
    Show(units / SCALE) + "." + PadStart7(Show(units % SCALE))
  }

  /** The digits of s without the point; its value is Digits / 10^|Fraction|. */
  function Mantissa(s: string): nat
    requires Numeral(s)
  {
    ParseConcat(Whole(s), Fraction(s));
    ParseNat(Whole(s) + Fraction(s))
  }

  lemma JoinParts(whole: string, fraction: string)
    requires Digits(whole)
    ensures DotAt(whole + "." + fraction) == |whole|
    ensures Whole(whole + "." + fraction) == whole && Fraction(whole + "." + fraction) == fraction
  {
    var s := whole + "." + fraction;
    assert forall i | 0 <= i < |whole| :: s[i] == whole[i];
    assert s[|whole|] == '.';
  }

  lemma Pow10Seven()
    ensures Pow10(7) == SCALE
  {
    assert Pow10(4) == 10000;
    Pow10Add(4, 3);
  }

  /** u units are the value m / p rounded down to a unit. */
  predicate IsFloor(u: int, m: int, p: int)
  {
    u * p <= m * SCALE < (u + 1) * p
  }

  /** u units are exactly the value m / p. */
  predicate IsExact(u: int, m: int, p: int)
  {
    u * p == m * SCALE
  }

  lemma Regroup(x: int, y: int, z: int)
    ensures (x * y) * z == x * (y * z)
  {
  }

  lemma ExactIsFloor(u: int, m: int, p: int)
    requires IsExact(u, m, p) && p >= 1
    ensures IsFloor(u, m, p)
  {
    assert (u + 1) * p == u * p + p;
  }

  lemma PadIsExact(u: int, x: int, a: int, p: int)
    requires u == x * a && a * p == SCALE
    ensures IsExact(u, x, p)
  {
    Regroup(x, a, p);
  }

  lemma CutIsFloor(m: int, p: int, x: int, y: int, z: int)
    requires m == x * y + z && p == y * SCALE && 0 <= z < y
    ensures IsFloor(x, m, p)
  {
    Regroup(x, y, SCALE);
    assert m * SCALE == (x * y) * SCALE + z * SCALE;
    assert (x + 1) * p == x * p + p;
  }

  lemma SevenSplits(k: nat)
    requires k <= 7
    ensures Pow10(7 - k) * Pow10(k) == SCALE
  {
    Pow10Seven();
    Pow10Add(7 - k, k);
  }

  lemma ShortFraction(f: string)
    requires Digits(f) && |f| <= 7
    ensures IsExact(ParseNat(PadEnd7(f)), ParseNat(f), Pow10(|f|))
  {
    AppendZeros(f, 7 - |f|);
    SevenSplits(|f|);
    PadIsExact(ParseNat(PadEnd7(f)), ParseNat(f), Pow10(7 - |f|), Pow10(|f|));
  }

  lemma CutFraction(kept: string, rest: string)
    requires Digits(kept) && Digits(rest) && |kept| == 7
    ensures Digits(kept + rest) && IsFloor(ParseNat(kept), ParseNat(kept + rest), Pow10(7 + |rest|))
  {
    ParseConcat(kept, rest);
    Pow10Seven();
    Pow10Add(|rest|, 7);
    CutIsFloor(ParseNat(kept + rest), Pow10(7 + |rest|), ParseNat(kept), Pow10(|rest|), ParseNat(rest));
  }

  lemma LongFraction(f: string)
    requires Digits(f) && |f| > 7
    ensures IsFloor(ParseNat(f[..7]), ParseNat(f), Pow10(|f|))
  {
    assert f == f[..7] + f[7..];
    CutFraction(f[..7], f[7..]);
  }

  /** The padded fraction is the fraction read in units, cut after seven digits. */
  lemma PaddedFraction(f: string, padded: string)
    requires Digits(f) && Digits(padded) && padded == PadEnd7(f)
    ensures IsFloor(ParseNat(padded), ParseNat(f), Pow10(|f|))
    ensures |f| <= 7 ==> IsExact(ParseNat(padded), ParseNat(f), Pow10(|f|))
  {
    if |f| <= 7 {
      ShortFraction(f);
      ExactIsFloor(ParseNat(padded), ParseNat(f), Pow10(|f|));
    } else {
      LongFraction(f);
    }
  }

  /** Whole part and fraction together. */
  lemma JoinUnits(w: int, t: int, f: int, p: int, u: int, m: int)
    requires u == w * SCALE + t && m == w * p + f
    ensures IsFloor(t, f, p) ==> IsFloor(u, m, p)
    ensures IsExact(t, f, p) ==> IsExact(u, m, p)
  {
    Regroup(w, SCALE, p);
    Regroup(w, p, SCALE);
    assert m * SCALE == (w * p) * SCALE + f * SCALE;
    assert u * p == (w * SCALE) * p + t * p;
    assert (u + 1) * p == (w * SCALE) * p + (t + 1) * p;
  }

  lemma ExactZero(u: nat, m: nat, p: nat)
    requires p >= 1 && IsExact(u, m, p)
    ensures u == 0 <==> m == 0
  {
    if u >= 1 { assert u * p >= p; }
  }

  /** toUnits is the value of the decimal in units, rounded down; exactly the value when there
      are at most seven fractional digits; and refused exactly when that is zero. */
  lemma ToUnitsExact(s: string)
    requires Numeral(s)
    ensures var u := if ToUnits(s).Some? then ToUnits(s).value else 0;
            var p := Pow10(|Fraction(s)|);
            && IsFloor(u, Mantissa(s), p)
            && (|Fraction(s)| <= 7 ==> IsExact(u, Mantissa(s), p))
    ensures |Fraction(s)| <= 7 ==> (ToUnits(s).None? <==> Mantissa(s) == 0)
  {
    var f := Fraction(s);
    var w, t, p := ParseNat(Whole(s)), ParseNat(PadEnd7(f)), Pow10(|f|);
    var u := w * SCALE + t;
    PaddedFraction(f, PadEnd7(f));
    assert Mantissa(s) == w * p + ParseNat(f) by { ParseConcat(Whole(s), f); }
    JoinUnits(w, t, ParseNat(f), p, u, Mantissa(s));
    if |f| <= 7 { ExactZero(u, Mantissa(s), p); }
  }

  /** The seven digits of a part below one. */
  lemma SevenDigits(t: nat)
    requires t < SCALE
    ensures var f := PadStart7(Show(t)); Digits(f) && |f| == 7 && ParseNat(f) == t
  {
    Pow10Seven();
    ShowLength(t, 7);
    var zeros := Zeros(7 - |Show(t)|);
    ParseZeros(zeros);
    ParseConcat(zeros, Show(t));
    assert PadStart7(Show(t)) == zeros + Show(t);
  }

  /** fromUnits writes a decimal with seven fractional digits that toUnits reads back. */
  lemma UnitsRoundTrip(u: nat)
    ensures Numeral(FromUnits(u)) && |Fraction(FromUnits(u))| == 7
    ensures ToUnits(FromUnits(u)) == if u >= 1 then Some(u) else None
  {
    var f := PadStart7(Show(u % SCALE));
    SevenDigits(u % SCALE);
    JoinParts(Show(u / SCALE), f);
    assert PadEnd7(f) == f;
  }

  // ----- trailing zeros ---------------------------------------------------------------------

  predicate AllZero(s: string) { forall i :: 0 <= i < |s| ==> s[i] == '0' }

  /** The regular expression \.?0+$ matches the whole of s. */
  predicate ZeroTail(s: string)
  {
    (s != "" && AllZero(s)) || (|s| >= 2 && s[0] == '.' && AllZero(s[1..]))
  }

  /** s.replace(/\.?0+$/, ''): the leftmost match is cut off. */
  function StripZeros(s: string): string
  {
    if ZeroTail(s) then "" else if s == "" then "" else [s[0]] + StripZeros(s[1..])
  }

  lemma {:induction false} StripKeepsPrefix(a: string, b: string)
    requires forall i :: 0 <= i < |a| ==> !ZeroTail(a[i..] + b)
    ensures StripZeros(a + b) == a + StripZeros(b)
  {
    if a == "" {
      assert a + b == b;
    } else {
      assert a[0..] == a;
      assert (a + b)[1..] == a[1..] + b;
      forall i | 0 <= i < |a[1..]| ensures !ZeroTail(a[1..][i..] + b) {
        assert a[1..][i..] == a[i + 1..];
      }
      StripKeepsPrefix(a[1..], b);
      assert [a[0]] + (a[1..] + StripZeros(b)) == a + StripZeros(b);
    }
  }

  /** The length of f without its trailing zeros. */
  function Significant(f: string): (k: nat)
    ensures k <= |f| && AllZero(f[k..]) && (k > 0 ==> f[k - 1] != '0')
  {
    if f == "" then 0
    else if f[|f| - 1] != '0' then |f|
    else
      var k := Significant(f[..|f| - 1]);
      assert f[k..] == f[..|f| - 1][k..] + [f[|f| - 1]];
      k
  }

  lemma NoZeroTailThroughPoint(a: string, i: nat, f: string)
    requires Digits(a) && i < |a| && Digits(f)
    ensures !ZeroTail(a[i..] + ("." + f))
  {
    var s := a[i..] + ("." + f);
    assert s[|a| - i] == '.';
    assert IsDigit(s[0]);
  }

  /** "." and a fraction: the zeros after the last significant digit go, and a bare point too. */
  lemma StripFraction(f: string)
    requires Digits(f) && f != ""
    ensures var k := Significant(f); StripZeros("." + f) == if k == 0 then "" else "." + f[..k]
  {
    var k := Significant(f);
    if k == 0 {
      assert f[0..] == f;
      assert ("." + f)[1..] == f;
      assert ZeroTail("." + f);
    } else {
      var head, tail := "." + f[..k], f[k..];
      assert "." + f == head + tail;
      forall i | 0 <= i < |head| ensures !ZeroTail(head[i..] + tail) {
        var s := head[i..] + tail;
        assert s[k - i] == f[k - 1];
        if i == 0 { assert s[1..][k - 1] == f[k - 1]; } else { assert s[0] == f[i - 1]; }
      }
      StripKeepsPrefix(head, tail);
      StripAllZero(tail);
      assert head + "" == head;
    }
  }

  lemma StripAllZero(s: string)
    requires AllZero(s)
    ensures StripZeros(s) == ""
  {
    if s != "" { assert ZeroTail(s); }
  }

  /** Nothing before the point is cut. */
  lemma StripWhole(whole: string, f: string)
    requires Digits(whole) && Digits(f)
    ensures StripZeros(whole + ("." + f)) == whole + StripZeros("." + f)
  {
    forall i | 0 <= i < |whole| ensures !ZeroTail(whole[i..] + ("." + f)) {
      NoZeroTailThroughPoint(whole, i, f);
    }
    StripKeepsPrefix(whole, "." + f);
  }

  lemma Concat3(a: string, b: string, c: string)
    ensures a + b + c == a + (b + c)
  {
  }

  /** On a decimal with a fraction, exactly the trailing zeros of the fraction go, and the point
      with them when nothing is left after it; zeros of the whole part stay. */
  lemma StripsExactly(whole: string, f: string)
    requires Digits(whole) && Digits(f) && f != ""
    ensures var k := Significant(f);
            StripZeros(whole + "." + f) == if k == 0 then whole else whole + "." + f[..k]
  {
    Concat3(whole, ".", f);
    StripWhole(whole, f);
    StripFraction(f);
    Concat3(whole, ".", f[..Significant(f)]);
    if Significant(f) == 0 { assert whole + "" == whole; }
  }

  lemma TrimmedParts(whole: string, f: string)
    requires whole != "" && Digits(whole) && Digits(f) && f != ""
    ensures var r := StripZeros(whole + "." + f);
            Whole(r) == whole && Fraction(r) == f[..Significant(f)]
  {
    StripsExactly(whole, f);
    var k := Significant(f);
    if k == 0 { NoPoint(whole); } else { JoinParts(whole, f[..k]); }
  }

  /** Trimming a decimal of at most seven fractional digits keeps its value: same units, same
      whole part, still a plain decimal. */
  lemma StripKeepsUnits(s: string)
    requires Numeral(s) && 1 <= |Fraction(s)| <= 7
    ensures Numeral(StripZeros(s)) && Whole(StripZeros(s)) == Whole(s)
    ensures ToUnits(StripZeros(s)) == ToUnits(s)
  {
    SplitAtPoint(s);
    TrimmedParts(Whole(s), Fraction(s));
    SameTrimmedUnits(s, StripZeros(s));
  }

  lemma SplitAtPoint(s: string)
    requires Fraction(s) != ""
    ensures s == Whole(s) + "." + Fraction(s)
  {
  }

  lemma SameTrimmedUnits(s: string, r: string)
    requires Numeral(s) && |Fraction(s)| <= 7
    requires Whole(r) == Whole(s) && Fraction(r) == Fraction(s)[..Significant(Fraction(s))]
    ensures Numeral(r) && ToUnits(r) == ToUnits(s)
  {
    PadIgnoresZeros(Fraction(s), Significant(Fraction(s)));
    SameUnits(s, r);
  }

  lemma SameUnits(s: string, r: string)
    requires Numeral(s) && Numeral(r)
    requires Whole(s) == Whole(r) && PadEnd7(Fraction(s)) == PadEnd7(Fraction(r))
    ensures ToUnits(s) == ToUnits(r)
  {
  }

  lemma PadIgnoresZeros(f: string, k: nat)
    requires k <= |f| <= 7 && AllZero(f[k..])
    ensures PadEnd7(f) == PadEnd7(f[..k])
  {
    assert f == f[..k] + f[k..];
    assert f[k..] == Zeros(|f| - k);
    assert Zeros(|f| - k) + Zeros(7 - |f|) == Zeros(7 - k);
  }

  lemma NoPoint(whole: string)
    requires Digits(whole)
    ensures DotAt(whole) == |whole| && Whole(whole) == whole && Fraction(whole) == ""
  {
  }

  /** The amount put into a Stellar operation for an invoice of u units is u units. */
  lemma StellarAmountRoundTrip(u: nat)
    requires u >= 1
    ensures Numeral(StripZeros(FromUnits(u)))
    ensures ToUnits(StripZeros(FromUnits(u))) == Some(u)
  {
    UnitsRoundTrip(u);
    StripKeepsUnits(FromUnits(u));
  }
}
