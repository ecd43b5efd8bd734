/** Fees of a USDC invoice, and the spend limit that is checked before one is created. */
module Fees {
  import opened Options
  import opened Decimals
  import opened Money

  datatype Tier = Standard | Pro | Enterprise

  /** The fee columns of a merchant; feeFixed is a NUMERIC column printed as a decimal. */
  datatype Plan = Plan(tier: Tier, feeBps: nat, feeFixed: string)

  lemma CentsAreNumerals()
    ensures Numeral("0.10") && Numeral("0.25")
  {
    JoinParts("0", "10");
    JoinParts("0", "25");
    assert "0" + "." + "10" == "0.10" && "0" + "." + "25" == "0.25";
  }

  /** None: toUnits refuses a fixed fee of zero. */
  function FixedFee(plan: Plan): (r: Option<nat>)
    requires Numeral(plan.feeFixed)
    ensures r.Some? ==> r.value >= 1
  {
    CentsAreNumerals();
    match plan.tier
    case Pro => ToUnits("0.10")
    case Enterprise => ToUnits(plan.feeFixed)
    case Standard => ToUnits("0.25")
  }

  function Bps(plan: Plan): nat
  {
    match plan.tier case Pro => 30 case Enterprise => plan.feeBps case Standard => 50
  }

  /** A plan with its fixed fee in units. */
  datatype Rates = Rates(bps: nat, fixed: nat)

  /** None: every create of the merchant is refused. */
  function RatesOf(plan: Plan): Option<Rates>
    requires Numeral(plan.feeFixed)
  {
    match FixedFee(plan)
    case None => None
    case Some(fixed) => Some(Rates(Bps(plan), fixed))
  }

  function Fee(r: Rates, amount: nat): nat
  {
    amount * r.bps / 10_000 + r.fixed
  }

  datatype Terms = Terms(amount: nat, fee: nat, gross: nat, net: nat)

  /** The amounts of a USDC invoice; None when the request is rejected. */
  function Quote(r: Rates, amount: nat): Option<Terms>
  {
    var fee := Fee(r, amount);
    var gross := amount + fee;
    var net := amount - r.fixed;
    if net < 0 then None else Some(Terms(amount, fee, gross, net))
  }

  /** A rejected amount is one below the fixed fee; an accepted invoice has
      0 <= net < amount < gross, and the gross is the fee, the net and the fixed fee again. */
  lemma QuoteSound(plan: Plan, amount: nat)
    requires Numeral(plan.feeFixed) && RatesOf(plan).Some?
    ensures var r := RatesOf(plan).value;
      && (Quote(r, amount).Some? <==> amount >= r.fixed)
      && (Quote(r, amount).Some? ==>
            var t := Quote(r, amount).value;
            && t.amount == amount && t.gross == amount + t.fee && t.net == amount - r.fixed
            && 0 <= t.net < amount < t.gross && t.gross == t.fee + t.net + r.fixed)
  {
    FixedIsPositive(plan);
    QuoteArithmetic(RatesOf(plan).value, amount);
  }

  /** What an accepted invoice charges, on any plan with its columns. */
  lemma EnterpriseFee(plan: Plan, amount: nat)
    requires Numeral(plan.feeFixed) && plan.tier == Enterprise
    ensures RatesOf(plan).Some? <==> ToUnits(plan.feeFixed).Some?
    ensures RatesOf(plan).Some? ==>
              var fixed := ToUnits(plan.feeFixed).value;
              match Quote(RatesOf(plan).value, amount)
              case None => amount < fixed
              case Some(t) =>
                && t.amount == amount >= fixed && t.net == amount - fixed && t.gross == amount + t.fee
                && 10_000 * (t.fee - fixed) <= amount * plan.feeBps < 10_000 * (t.fee - fixed + 1)
  {
  }

  lemma FixedIsPositive(plan: Plan)
    requires Numeral(plan.feeFixed) && RatesOf(plan).Some?
    ensures RatesOf(plan).value.fixed >= 1
  {
  }

  lemma QuoteArithmetic(r: Rates, amount: nat)
    requires r.fixed >= 1
    ensures Quote(r, amount).Some? <==> amount >= r.fixed
    ensures Quote(r, amount).Some? ==>
              var t := Quote(r, amount).value;
              0 <= t.net < amount < t.gross && t.gross == t.fee + t.net + r.fixed
  {
  }

  lemma TwoDigitCents(f: string)
    requires f == "10" || f == "25"
    ensures Numeral("0" + "." + f)
    ensures ToUnits("0" + "." + f) == Some(if f == "10" then 1_000_000 else 2_500_000)
  {
    JoinParts("0", f);
    TwoDigits(f);
    ShortFraction(f);
    assert Pow10(2) == 100;
  }

  lemma TwoDigits(f: string)
    requires f == "10" || f == "25"
    ensures Digits(f) && ParseNat(f) == (if f == "10" then 10 else 25) && ParseNat("0") == 0
  {
    assert "0"[..0] == "" && f[..1][..0] == "";
  }

  lemma TenCents()
    ensures Numeral("0.10") && ToUnits("0.10") == Some(1_000_000)
  {
    TwoDigitCents("10");
    assert "0" + "." + "10" == "0.10";
  }

  lemma QuarterDollar()
    ensures Numeral("0.25") && ToUnits("0.25") == Some(2_500_000)
  {
    TwoDigitCents("25");
    assert "0" + "." + "25" == "0.25";
  }

  /** The built-in plans: 0.25 USDC and 50 basis points, 0.10 USDC and 30. */
  lemma BuiltInPlans(plan: Plan)
    requires Numeral(plan.feeFixed) && plan.tier != Enterprise
    ensures FixedFee(plan) == Some(if plan.tier == Pro then 1_000_000 else 2_500_000)
  {
    TenCents();
    QuarterDollar();
  }

  /** The rates of the built-in plans. */
  lemma BuiltInRates(plan: Plan)
    requires Numeral(plan.feeFixed) && plan.tier != Enterprise
    ensures RatesOf(plan) == Some(if plan.tier == Pro then Rates(30, 1_000_000) else Rates(50, 2_500_000))
  {
    BuiltInPlans(plan);
  }

  /** What create charges on the built-in plans: refused below 0.25 USDC (standard) or 0.10 (pro); else
      0.5 % and 0.25 USDC, or 0.3 % and 0.10 USDC, rounded down to a unit. */
  lemma BuiltInCharge(plan: Plan, amount: nat)
    requires Numeral(plan.feeFixed) && plan.tier != Enterprise
    ensures RatesOf(plan).Some?
    ensures match Quote(RatesOf(plan).value, amount)
            case None => amount < if plan.tier == Pro then 1_000_000 else 2_500_000
            case Some(t) =>
              && t.amount == amount && t.gross == amount + t.fee
              && (plan.tier == Standard ==>
                    amount >= 2_500_000 && t.net == amount - 2_500_000
                    && 1_000 * (t.fee - 2_500_000) <= 5 * amount < 1_000 * (t.fee - 2_500_000 + 1))
              && (plan.tier == Pro ==>
                    amount >= 1_000_000 && t.net == amount - 1_000_000
                    && 1_000 * (t.fee - 1_000_000) <= 3 * amount < 1_000 * (t.fee - 1_000_000 + 1))
  {
    BuiltInRates(plan);
  }

  /** Exactly, on amounts of ten thousand units: 50 units and 0.25 USDC, or 30 units and 0.10 USDC. */
  lemma RoundCharge(plan: Plan, n: nat)
    requires Numeral(plan.feeFixed) && plan.tier != Enterprise && n >= 250
    ensures RatesOf(plan).Some? && Quote(RatesOf(plan).value, 10_000 * n).Some?
    ensures Quote(RatesOf(plan).value, 10_000 * n).value.fee
            == if plan.tier == Pro then 30 * n + 1_000_000 else 50 * n + 2_500_000
  {
    BuiltInCharge(plan, 10_000 * n);
  }

  /** Pro never costs more than standard. */
  lemma ProIsCheaper(pro: Plan, standard: Plan, amount: nat)
    requires Numeral(pro.feeFixed) && Numeral(standard.feeFixed) && pro.tier == Pro && standard.tier == Standard
    ensures RatesOf(pro).Some? && RatesOf(standard).Some?
    ensures Quote(RatesOf(standard).value, amount).Some? ==>
              && Quote(RatesOf(pro).value, amount).Some?
              && Quote(RatesOf(pro).value, amount).value.fee < Quote(RatesOf(standard).value, amount).value.fee
  {
    BuiltInRates(pro);
    BuiltInRates(standard);
  }

  // ----- splitting an amount ----------------------------------------------------------------

  function Sum(parts: seq<nat>): nat
  {
    if parts == [] then 0 else Sum(parts[..|parts| - 1]) + parts[|parts| - 1]
  }

  function SumFees(r: Rates, parts: seq<nat>): nat
  {
    if parts == [] then 0
    else SumFees(r, parts[..|parts| - 1]) + Fee(r, parts[|parts| - 1])
  }

  /** Floors lose at most one unit where an amount is cut. */
  lemma FloorCut(a: nat, b: nat, bps: nat)
    ensures var cut := a * bps / 10_000 + b * bps / 10_000;
            cut <= (a + b) * bps / 10_000 <= cut + 1
  {
    assert (a + b) * bps == a * bps + b * bps;
  }

  /** Splitting an amount into n invoices never saves fees: each further invoice costs between
      fixed - 1 and fixed units more. */
  lemma {:induction false} SplittingNeverSaves(r: Rates, parts: seq<nat>)
    requires parts != [] && r.fixed >= 1
    ensures var extra := SumFees(r, parts) - Fee(r, Sum(parts));
            0 <= (|parts| - 1) * (r.fixed - 1) <= extra <= (|parts| - 1) * r.fixed
  {
    var n := |parts| - 1;
    if n == 0 {
      assert parts[..0] == [];
    } else {
      SplittingNeverSaves(r, parts[..n]);
      FloorCut(Sum(parts[..n]), parts[n], r.bps);
      Distribute(n, r.fixed);
      Distribute(n, r.fixed - 1);
    }
  }

  lemma Distribute(n: nat, x: nat)
    requires n >= 1
    ensures n * x == (n - 1) * x + x
  {
  }

  lemma FeeMonotone(r: Rates, a: nat, b: nat)
    requires a <= b
    ensures Fee(r, a) <= Fee(r, b)
  {
    assert a * r.bps <= b * r.bps;
  }
}

/** One spend-limit window of a merchant with a daily or monthly limit. */
module SpendLimit {
  import opened Options
  import opened Fees

  /** An invoice created in the window: what it adds to the total unless cancelled. */
  datatype Spend = Spend(gross: nat, cancelled: bool)

  /** passed: the amounts of the creates that have passed the limit check and not yet inserted. */
  datatype Window = Window(rows: seq<Spend>, passed: seq<nat>)

  /** A create reads the total (Check) and inserts its invoice (Insert) in two statements with no
      lock between them; it may fail in between (Fail). */
  datatype Action = Check(amount: nat) | Insert(call: nat) | Fail(call: nat) | Cancel(row: nat)

  function Total(rows: seq<Spend>): nat
  {
    if rows == [] then 0
    else
      var last := rows[|rows| - 1];
      Total(rows[..|rows| - 1]) + if last.cancelled then 0 else last.gross
  }

  /** enforceSpendLimits lets the amount pass. toUnits refuses a total or a limit of zero. */
  predicate WithinLimit(total: nat, limit: nat, amount: nat)
  {
    total >= 1 && limit >= 1 && total + amount <= limit
  }

  predicate Accepts(r: Rates, total: nat, limit: nat, amount: nat)
  {
    amount >= 1 && WithinLimit(total, limit, amount) && Quote(r, amount).Some?
  }

  function Without(passed: seq<nat>, i: nat): seq<nat>
    requires i < |passed|
  {
    passed[..i] + passed[i + 1..]
  }

  function Step(r: Rates, limit: nat, w: Window, a: Action): Window
  {
    match a
    case Check(amount) =>
      if Accepts(r, Total(w.rows), limit, amount) then w.(passed := w.passed + [amount]) else w
    case Insert(i) =>
      if i < |w.passed|
      then Window(w.rows + [Spend(w.passed[i] + Fee(r, w.passed[i]), false)], Without(w.passed, i)) else w
    case Fail(i) => if i < |w.passed| then w.(passed := Without(w.passed, i)) else w
    case Cancel(i) => if i < |w.rows| then w.(rows := w.rows[i := w.rows[i].(cancelled := true)]) else w
  }

  function Run(r: Rates, limit: nat, w: Window, acts: seq<Action>): Window
  {
    if acts == [] then w else Step(r, limit, Run(r, limit, w, acts[..|acts| - 1]), acts[|acts| - 1])
  }

  /** At no moment are more than c creates between check and insert. */
  ghost predicate AtMostInFlight(r: Rates, limit: nat, w: Window, acts: seq<Action>, c: nat)
  {
    |Run(r, limit, w, acts).passed| <= c && (acts != [] ==> AtMostInFlight(r, limit, w, acts[..|acts| - 1], c))
  }

  /** What the creates in flight will add. */
  function Coming(r: Rates, passed: seq<nat>): nat
  {
    if passed == [] then 0
    else
      var last := passed[|passed| - 1];
      Coming(r, passed[..|passed| - 1]) + last + Fee(r, last)
  }

  lemma {:induction false} CancelLowersTotal(rows: seq<Spend>, i: nat)
    requires i < |rows|
    ensures Total(rows[i := rows[i].(cancelled := true)])
            == Total(rows) - if rows[i].cancelled then 0 else rows[i].gross
  {
    var n := |rows| - 1;
    var after := rows[i := rows[i].(cancelled := true)];
    if i < n {
      CancelLowersTotal(rows[..n], i);
      assert after[..n] == rows[..n][i := rows[i].(cancelled := true)];
    } else {
      assert after[..n] == rows[..n];
    }
  }

  /** A cancel takes its invoice's gross out of the total, once; a create that fails leaves the total
      and is no longer in flight. */
  lemma CancelAndFail(r: Rates, limit: nat, w: Window, i: nat)
    ensures i < |w.rows| ==>
              var t := Step(r, limit, w, Cancel(i));
              t.passed == w.passed && |t.rows| == |w.rows| && t.rows[i].cancelled
              && Total(t.rows) == Total(w.rows) - if w.rows[i].cancelled then 0 else w.rows[i].gross
    ensures i < |w.passed| ==>
              var t := Step(r, limit, w, Fail(i));
              t.rows == w.rows && t.passed == w.passed[..i] + w.passed[i + 1..]
  {
    if i < |w.rows| { CancelLowersTotal(w.rows, i); }
  }

  lemma {:induction false} WithoutLowersComing(r: Rates, passed: seq<nat>, i: nat)
    requires i < |passed|
    ensures Coming(r, Without(passed, i)) + passed[i] + Fee(r, passed[i]) == Coming(r, passed)
  {
    var n := |passed| - 1;
    var after := Without(passed, i);
    if i < n {
      WithoutLowersComing(r, passed[..n], i);
      assert after[..|after| - 1] == Without(passed[..n], i) && after[|after| - 1] == passed[n];
    } else {
      assert after == passed[..n];
    }
  }

  predicate Small(limit: nat, passed: seq<nat>)
  {
    forall i :: 0 <= i < |passed| ==> passed[i] < limit
  }

  /** The gross of the largest amount that can pass. */
  function Most(r: Rates, limit: nat): nat
    requires limit >= 1
  {
    limit - 1 + Fee(r, limit - 1)
  }

  lemma {:induction false} ComingAtMost(r: Rates, limit: nat, passed: seq<nat>)
    requires limit >= 1 && Small(limit, passed)
    ensures Coming(r, passed) <= |passed| * Most(r, limit)
  {
    if passed != [] {
      var n := |passed| - 1;
      ComingAtMost(r, limit, passed[..n]);
      FeeMonotone(r, passed[n], limit - 1);
      Distribute(n + 1, Most(r, limit));
    }
  }

  /** The bound: what there was, or the limit, one fee, and a full gross for each of the other
      creates in flight. */
  function Bound(r: Rates, limit: nat, c: nat): nat
    requires limit >= 1 && c >= 1
  {
    limit + Fee(r, limit - 1) + (c - 1) * Most(r, limit)
  }

  ghost predicate Bounded(r: Rates, limit: nat, start: nat, c: nat, w: Window)
    requires limit >= 1 && c >= 1
  {
    var most := Total(w.rows) + Coming(r, w.passed);
    Small(limit, w.passed) && (most <= start || most <= Bound(r, limit, c))
  }

  lemma CheckIsBounded(r: Rates, limit: nat, w: Window, amount: nat, c: nat)
    requires limit >= 1 && c >= 1 && Small(limit, w.passed) && |w.passed| < c
    requires Accepts(r, Total(w.rows), limit, amount)
    ensures Total(w.rows) + Coming(r, w.passed + [amount]) <= Bound(r, limit, c)
  {
    assert (w.passed + [amount])[..|w.passed|] == w.passed;
    ComingAtMost(r, limit, w.passed);
    FeeMonotone(r, amount, limit - 1);
    MoreIsMore(|w.passed|, c - 1, Most(r, limit));
  }

  lemma MoreIsMore(a: nat, b: nat, x: nat)
    requires a <= b
    ensures a * x <= b * x
  {
  }

  lemma StepIsBounded(r: Rates, limit: nat, start: nat, c: nat, w: Window, a: Action)
    requires limit >= 1 && c >= 1 && Bounded(r, limit, start, c, w)
    requires |Step(r, limit, w, a).passed| <= c
    ensures Bounded(r, limit, start, c, Step(r, limit, w, a))
  {
    match a
    case Check(amount) =>
      if Accepts(r, Total(w.rows), limit, amount) { CheckIsBounded(r, limit, w, amount, c); }
    case Insert(i) =>
      if i < |w.passed| {
        WithoutLowersComing(r, w.passed, i);
        var rows := Step(r, limit, w, a).rows;
        assert rows[..|rows| - 1] == w.rows;
      }
    case Fail(i) => if i < |w.passed| { WithoutLowersComing(r, w.passed, i); }
    case Cancel(i) => if i < |w.rows| { CancelLowersTotal(w.rows, i); }
  }

  lemma {:induction false} RunIsBounded(r: Rates, limit: nat, w: Window, acts: seq<Action>, c: nat)
    requires limit >= 1 && c >= 1 && w.passed == [] && AtMostInFlight(r, limit, w, acts, c)
    ensures Bounded(r, limit, Total(w.rows), c, Run(r, limit, w, acts))
  {
    if acts != [] {
      var n := |acts| - 1;
      RunIsBounded(r, limit, w, acts[..n], c);
      StepIsBounded(r, limit, Total(w.rows), c, Run(r, limit, w, acts[..n]), acts[n]);
    }
  }

  /** The limit is checked on the amount, the total stores the gross, and nothing is locked between
      check and insert: over any run with at most c creates in flight at once the total stays within
      what it was, or the limit plus one fee plus c - 1 times the largest gross. */
  lemma TotalIsBounded(r: Rates, limit: nat, rows: seq<Spend>, acts: seq<Action>, c: nat)
    requires limit >= 1 && c >= 1 && AtMostInFlight(r, limit, Window(rows, []), acts, c)
    ensures var total := Total(Run(r, limit, Window(rows, []), acts).rows);
            total <= Total(rows) || total <= Bound(r, limit, c)
  {
    RunIsBounded(r, limit, Window(rows, []), acts, c);
  }

  /** n creates pass the check one after another, then the first m of them insert. */
  function Burst(amount: nat, n: nat, m: nat): seq<Action>
    decreases n + m
  {
    if m > 0 then Burst(amount, n, m - 1) + [Insert(0)]
    else if n > 0 then Burst(amount, n - 1, 0) + [Check(amount)]
    else []
  }

  /** A window with a total of one unit. */
  const ALMOST_EMPTY := Window([Spend(1, false)], [])

  /** Where a burst leads. */
  ghost predicate AfterBurst(r: Rates, limit: nat, n: nat, m: nat, w: Window)
    requires limit >= 1 && m <= n
  {
    && Total(w.rows) == 1 + m * Most(r, limit)
    && |w.passed| == n - m && forall i :: 0 <= i < |w.passed| ==> w.passed[i] == limit - 1
  }

  lemma BurstInsert(r: Rates, limit: nat, n: nat, m: nat, w: Window)
    requires limit >= 1 && 1 <= m <= n && AfterBurst(r, limit, n, m - 1, w)
    ensures AfterBurst(r, limit, n, m, Step(r, limit, w, Insert(0)))
  {
    var t := Step(r, limit, w, Insert(0));
    assert t.rows[..|t.rows| - 1] == w.rows;
    Distribute(m, Most(r, limit));
  }

  lemma BurstCheck(r: Rates, limit: nat, n: nat, w: Window)
    requires limit >= 2 && limit - 1 >= r.fixed && n >= 1 && AfterBurst(r, limit, n - 1, 0, w)
    ensures AfterBurst(r, limit, n, 0, Step(r, limit, w, Check(limit - 1)))
  {
  }

  lemma OneMoreInFlight(r: Rates, limit: nat, w: Window, acts: seq<Action>, a: Action, c: nat)
    requires AtMostInFlight(r, limit, w, acts, c)
    requires |Step(r, limit, Run(r, limit, w, acts), a).passed| <= c
    ensures AtMostInFlight(r, limit, w, acts + [a], c)
    ensures Run(r, limit, w, acts + [a]) == Step(r, limit, Run(r, limit, w, acts), a)
  {
    assert (acts + [a])[..|acts|] == acts;
  }

  lemma {:induction false} BurstRun(r: Rates, limit: nat, n: nat, m: nat, c: nat)
    requires limit >= 2 && limit - 1 >= r.fixed && m <= n <= c
    ensures AtMostInFlight(r, limit, ALMOST_EMPTY, Burst(limit - 1, n, m), c)
    ensures AfterBurst(r, limit, n, m, Run(r, limit, ALMOST_EMPTY, Burst(limit - 1, n, m)))
    decreases n + m
  {
    if m > 0 {
      var acts := Burst(limit - 1, n, m - 1);
      BurstRun(r, limit, n, m - 1, c);
      BurstInsert(r, limit, n, m, Run(r, limit, ALMOST_EMPTY, acts));
      OneMoreInFlight(r, limit, ALMOST_EMPTY, acts, Insert(0), c);
    } else if n > 0 {
      var acts := Burst(limit - 1, n - 1, 0);
      BurstRun(r, limit, n - 1, 0, c);
      BurstCheck(r, limit, n, Run(r, limit, ALMOST_EMPTY, acts));
      OneMoreInFlight(r, limit, ALMOST_EMPTY, acts, Check(limit - 1), c);
    } else {
      assert ALMOST_EMPTY.rows[..0] == [];
    }
  }

  /** The bound is reached: c creates of all that the limit leaves read the total before any of them
      inserts. */
  lemma BoundIsReached(r: Rates, limit: nat, c: nat)
    requires limit >= 2 && limit - 1 >= r.fixed && c >= 1
    ensures var acts := Burst(limit - 1, c, c);
      && AtMostInFlight(r, limit, ALMOST_EMPTY, acts, c)
      && Total(Run(r, limit, ALMOST_EMPTY, acts).rows)
         == Bound(r, limit, c)
  {
    BurstRun(r, limit, c, c, c);
    Distribute(c, Most(r, limit));
  }

  /** Two overlapping creates pass the same check and go beyond the limit by a full invoice. */
  lemma TwoCallsOvershoot(r: Rates, limit: nat)
    requires limit >= 2 && limit - 1 >= r.fixed
    ensures var acts := [Check(limit - 1), Check(limit - 1), Insert(0), Insert(0)];
      Total(Run(r, limit, ALMOST_EMPTY, acts).rows) == limit + Fee(r, limit - 1) + (limit - 1 + Fee(r, limit - 1))
  {
    BurstRun(r, limit, 2, 2, 2);
    assert Burst(limit - 1, 2, 2) == [Check(limit - 1), Check(limit - 1), Insert(0), Insert(0)];
  }

  /** The total stays within what it was, or the limit and one fee. */
  predicate WithinSingleBound(r: Rates, limit: nat, start: seq<Spend>, end: seq<Spend>)
    requires limit >= 1
  {
    Total(end) <= Total(start) || Total(end) <= limit + Fee(r, limit - 1)
  }

  /** The bound of a single create holds of all runs, from any window, if and only if no check can fall
      between another create's check and insert. */
  lemma SingleBoundIffSerial(r: Rates, limit: nat, c: nat)
    requires limit >= 2 && limit - 1 >= r.fixed && c >= 1
    ensures (forall rows, acts :: AtMostInFlight(r, limit, Window(rows, []), acts, c) ==>
               WithinSingleBound(r, limit, rows, Run(r, limit, Window(rows, []), acts).rows))
            <==> c == 1
  {
    if c == 1 {
      forall rows, acts | AtMostInFlight(r, limit, Window(rows, []), acts, c)
        ensures WithinSingleBound(r, limit, rows, Run(r, limit, Window(rows, []), acts).rows)
      {
        TotalIsBounded(r, limit, rows, acts, 1);
      }
    } else {
      BurstOvershoots(r, limit, c);
      assert ALMOST_EMPTY == Window(ALMOST_EMPTY.rows, []);
    }
  }

  lemma BurstOvershoots(r: Rates, limit: nat, c: nat)
    requires limit >= 2 && limit - 1 >= r.fixed && c >= 2
    ensures var acts := Burst(limit - 1, c, c);
      && AtMostInFlight(r, limit, ALMOST_EMPTY, acts, c)
      && !WithinSingleBound(r, limit, ALMOST_EMPTY.rows, Run(r, limit, ALMOST_EMPTY, acts).rows)
  {
    assert ALMOST_EMPTY.rows[..0] == [];
    assert Total(ALMOST_EMPTY.rows) == 1;
    BoundIsReached(r, limit, c);
    MoreIsMore(1, c - 1, Most(r, limit));
  }

  /** A create on its own keeps the total within the limit exactly when amount and fee together
      fit. */
  lemma OvershootIff(r: Rates, limit: nat, rows: seq<Spend>, amount: nat)
    requires Accepts(r, Total(rows), limit, amount)
    ensures Total(Run(r, limit, Window(rows, []), [Check(amount), Insert(0)]).rows) <= limit
            <==> Fee(r, amount) <= limit - Total(rows) - amount
  {
    var acts := [Check(amount), Insert(0)];
    assert acts[..1][..0] == [] && acts[..1][0] == Check(amount);
    assert Run(r, limit, Window(rows, []), acts[..1]) == Window(rows, [amount]);
    assert (rows + [Spend(amount + Fee(r, amount), false)])[..|rows|] == rows;
  }

  /** A limited merchant whose window starts at zero can never create an invoice in it. */
  lemma {:induction false} EmptyWindowLocksOut(r: Rates, limit: nat, rows: seq<Spend>, acts: seq<Action>)
    requires Total(rows) == 0
    ensures var after := Run(r, limit, Window(rows, []), acts);
            |after.rows| == |rows| && after.passed == [] && Total(after.rows) == 0
            && forall amount :: !Accepts(r, Total(after.rows), limit, amount)
  {
    if acts != [] {
      var n := |acts| - 1;
      EmptyWindowLocksOut(r, limit, rows, acts[..n]);
      var mid := Run(r, limit, Window(rows, []), acts[..n]).rows;
      if acts[n].Cancel? && acts[n].row < |mid| { CancelLowersTotal(mid, acts[n].row); }
    }
  }

  // ----- createBulk -------------------------------------------------------------------------

  /** totals[i] is the committed total that the check of item i reads. */
  predicate AllAccepted(r: Rates, totals: seq<nat>, limit: nat, amounts: seq<nat>)
    requires |totals| == |amounts|
  {
    forall i :: 0 <= i < |amounts| ==> Accepts(r, totals[i], limit, amounts[i])
  }

  function SumGross(terms: seq<Terms>): nat
  {
    if terms == [] then 0 else SumGross(terms[..|terms| - 1]) + terms[|terms| - 1].gross
  }

  /** createBulk: each item is checked against the total committed at that moment, which the items
      inserted so far do not change; one rejection rolls everything back. */
  method CreateBulk(r: Rates, totals: seq<nat>, limit: nat, amounts: seq<nat>) returns (results: Option<seq<Terms>>)
    requires |totals| == |amounts|
    ensures results.Some? <==>
              && 1 <= |amounts| <= 100
              && forall i :: 0 <= i < |amounts| ==>
                   1 <= totals[i] && amounts[i] >= 1 && amounts[i] >= r.fixed && totals[i] + amounts[i] <= limit
    ensures results.Some? ==> |results.value| == |amounts|
    ensures results.Some? ==> forall i :: 0 <= i < |amounts| ==> Quote(r, amounts[i]) == Some(results.value[i])
  {
    if |amounts| == 0 || |amounts| > 100 { return None; }
    var accepted: seq<Terms> := [];
    for k := 0 to |amounts|
      invariant |accepted| == k
      invariant forall i :: 0 <= i < k ==> Accepts(r, totals[i], limit, amounts[i])
      invariant forall i :: 0 <= i < k ==> Quote(r, amounts[i]) == Some(accepted[i])
    {
      if !Accepts(r, totals[k], limit, amounts[k]) { return None; }
      accepted := accepted + [Quote(r, amounts[k]).value];
    }
    return Some(accepted);
  }

  /** An accepted bulk of n items adds at most n * (room + fee(room)), where room is what the limit
      leaves above the smallest total read; n items of that size reach it. */
  lemma {:induction false} BulkBound(
      r: Rates, totals: seq<nat>, least: nat, limit: nat, amounts: seq<nat>, terms: seq<Terms>)
    requires |totals| == |amounts| == |terms| && AllAccepted(r, totals, limit, amounts)
    requires least <= limit && forall i :: 0 <= i < |totals| ==> least <= totals[i]
    requires forall i :: 0 <= i < |amounts| ==> Quote(r, amounts[i]) == Some(terms[i])
    ensures var room := limit - least;
            var most := |amounts| * (room + Fee(r, room));
            && SumGross(terms) <= most
            && ((forall i :: 0 <= i < |amounts| ==> amounts[i] == room) ==> SumGross(terms) == most)
  {
    if amounts != [] {
      var room := limit - least;
      var n := |amounts| - 1;
      BulkBound(r, totals[..n], least, limit, amounts[..n], terms[..n]);
      assert amounts[n] <= room && terms[n].gross == amounts[n] + Fee(r, amounts[n]) by {
        assert Accepts(r, totals[n], limit, amounts[n]);
      }
      FeeMonotone(r, amounts[n], room);
      Distribute(n + 1, room + Fee(r, room));
    }
  }
}
