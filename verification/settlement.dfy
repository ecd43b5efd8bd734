/** Daily settlements: sums read once for all merchants, then one transaction per merchant that
    writes the settlement with the sum read earlier and tags whatever is untagged by then. The
    reconciler goes on inserting ledger rows in between. */
module Settlement {
  import opened Options
  import opened PaymentTables

  const MINIMUM: Units := 10_000_000

  datatype State = Waiting | Submitted | Confirmed | Failed

  datatype Entry = Entry(merchant: nat, net: Units, settlement: Option<nat>)

  /** seen and cut are history: the lengths of the ledger when the sum was read and when the rows
      were tagged. */
  datatype Batch = Batch(merchant: nat, amount: Units, state: State, seen: nat, cut: nat)

  /** One row of the GROUP BY. */
  datatype Group = Group(merchant: nat, amount: Units)

  /** A run of the job: the groups still to be settled. */
  datatype Job = Idle | Running(groups: seq<Group>, seen: nat)

  datatype System = System(ledger: seq<Entry>, settlements: seq<Batch>, job: Job)

  datatype Action =
    | Insert(merchant: nat, net: Units)
    | ReadSums(groups: seq<Group>)
    | SettleNext
    | Abort
    | Progress(id: nat, state: State)

  predicate Untagged(e: Entry, merchant: nat)
  {
    e.merchant == merchant && e.settlement.None?
  }

  /** The WHERE clauses under which net is summed. */
  datatype Where =
    | OfMerchant(merchant: nat)
    | UntaggedOf(merchant: nat)
    | TaggedBy(id: nat)
    | OfMerchantTaggedBy(merchant: nat, id: nat)
    | OfMerchantTaggedBelow(merchant: nat, id: nat)

  predicate Holds(w: Where, e: Entry)
  {
    match w
    case OfMerchant(m) => e.merchant == m
    case UntaggedOf(m) => Untagged(e, m)
    case TaggedBy(id) => e.settlement == Some(id)
    case OfMerchantTaggedBy(m, id) => e.merchant == m && e.settlement == Some(id)
    case OfMerchantTaggedBelow(m, id) => e.merchant == m && e.settlement.Some? && e.settlement.value < id
  }

  /** SUM(net_usdc) of the entries under a WHERE clause. */
  function Net(ledger: seq<Entry>, w: Where): Units
  {
    if ledger == [] then 0
    else
      var last := ledger[|ledger| - 1];
      Net(ledger[..|ledger| - 1], w) + if Holds(w, last) then last.net else 0
  }

  function Pending(ledger: seq<Entry>, merchant: nat): Units
  {
    Net(ledger, UntaggedOf(merchant))
  }

  function TaggedWith(ledger: seq<Entry>, id: nat): Units
  {
    Net(ledger, TaggedBy(id))
  }

  function Earned(ledger: seq<Entry>, merchant: nat): Units
  {
    Net(ledger, OfMerchant(merchant))
  }

  /** UPDATE ledger_entries SET settlement_id=id WHERE merchant_id=merchant AND settlement_id IS NULL. */
  function Tag(ledger: seq<Entry>, merchant: nat, id: nat): (r: seq<Entry>)
    ensures |r| == |ledger|
    ensures forall i :: 0 <= i < |ledger| ==>
              r[i] == if Untagged(ledger[i], merchant) then ledger[i].(settlement := Some(id)) else ledger[i]
  {
    if ledger == [] then []
    else
      var last := ledger[|ledger| - 1];
      Tag(ledger[..|ledger| - 1], merchant, id)
      + [if Untagged(last, merchant) then last.(settlement := Some(id)) else last]
  }

  /** The answer of the GROUP BY .. HAVING: each merchant with at least one USDC untagged, once,
      with the sum. */
  ghost predicate IsGrouping(ledger: seq<Entry>, groups: seq<Group>)
  {
    && (forall j, k :: 0 <= j < k < |groups| ==> groups[j].merchant != groups[k].merchant)
    && (forall k :: 0 <= k < |groups| ==>
          groups[k].amount == Pending(ledger, groups[k].merchant) && groups[k].amount >= MINIMUM)
    && (forall m: nat :: Pending(ledger, m) >= MINIMUM ==> exists k :: 0 <= k < |groups| && groups[k].merchant == m)
  }

  predicate HasWaiting(settlements: seq<Batch>, merchant: nat)
  {
    exists k :: 0 <= k < |settlements| && settlements[k].merchant == merchant && settlements[k].state == Waiting
  }

  /** The transaction for one group. */
  function Settle(s: System, g: Group, seen: nat): System
  {
    if HasWaiting(s.settlements, g.merchant) then s
    else s.(settlements := s.settlements + [Batch(g.merchant, g.amount, Waiting, seen, |s.ledger|)],
            ledger := Tag(s.ledger, g.merchant, |s.settlements|))
  }

  ghost function Step(s: System, a: Action): System
  {
    match a
    case Insert(merchant, net) => s.(ledger := s.ledger + [Entry(merchant, net, None)])
    case ReadSums(groups) =>
      if s.job.Idle? && IsGrouping(s.ledger, groups) then s.(job := Running(groups, |s.ledger|)) else s
    case SettleNext =>
      if s.job.Idle? then s
      else if s.job.groups == [] then s.(job := Idle)
      else Settle(s, s.job.groups[0], s.job.seen).(job := Running(s.job.groups[1..], s.job.seen))
    case Abort => s.(job := Idle)
    case Progress(id, state) =>
      // A settlement leaves the pending state for good.
      if id < |s.settlements| && state != Waiting
      then s.(settlements := s.settlements[id := s.settlements[id].(state := state)]) else s
  }

  ghost function Exec(s: System, acts: seq<Action>): System
  {
    if acts == [] then s else Step(Exec(s, acts[..|acts| - 1]), acts[|acts| - 1])
  }

  // ----- sums -------------------------------------------------------------------------------

  lemma {:induction false} NetSplit(a: seq<Entry>, b: seq<Entry>, w: Where)
    ensures Net(a + b, w) == Net(a, w) + Net(b, w)
  {
    if b == [] {
      assert a + b == a;
    } else {
      var n := |b| - 1;
      NetSplit(a, b[..n], w);
      assert (a + b)[..|a + b| - 1] == a + b[..n];
    }
  }

  /** Two selections that agree entry by entry have the same net. */
  lemma {:induction false} NetSame(a: seq<Entry>, b: seq<Entry>, p: Where, q: Where)
    requires |a| == |b|
    requires forall i :: 0 <= i < |a| ==> a[i].net == b[i].net && Holds(p, a[i]) == Holds(q, b[i])
    ensures Net(a, p) == Net(b, q)
  {
    if a != [] {
      var n := |a| - 1;
      NetSame(a[..n], b[..n], p, q);
    }
  }

  lemma {:induction false} NetZero(a: seq<Entry>, p: Where)
    requires forall i :: 0 <= i < |a| ==> !Holds(p, a[i])
    ensures Net(a, p) == 0
  {
    if a != [] { NetZero(a[..|a| - 1], p); }
  }

  // ----- the invariant ----------------------------------------------------------------------

  /** The amount of a settlement is the net of the rows it tagged that were there when the sum was
      read. */
  ghost predicate AmountOk(ledger: seq<Entry>, b: Batch, id: nat)
  {
    b.seen <= |ledger| && b.amount == TaggedWith(ledger[..b.seen], id) && b.amount >= MINIMUM
  }

  /** Between its two moments a settlement took every row of its merchant, and none later. */
  ghost predicate WindowOk(ledger: seq<Entry>, b: Batch, id: nat)
  {
    && b.seen <= b.cut <= |ledger|
    && (forall i :: 0 <= i < |ledger| && ledger[i].settlement == Some(id) ==> i < b.cut)
    && (forall i :: b.seen <= i < b.cut && ledger[i].merchant == b.merchant ==> ledger[i].settlement == Some(id))
  }

  ghost predicate WindowsOk(ledger: seq<Entry>, settlements: seq<Batch>)
  {
    forall id: nat :: id < |settlements| ==> WindowOk(ledger, settlements[id], id)
  }

  ghost predicate AmountsOk(ledger: seq<Entry>, settlements: seq<Batch>)
  {
    forall id: nat :: id < |settlements| ==> AmountOk(ledger, settlements[id], id)
  }

  /** Tags point to settlements of the entry's own merchant. */
  ghost predicate TagsOk(ledger: seq<Entry>, settlements: seq<Batch>)
  {
    forall i :: 0 <= i < |ledger| && ledger[i].settlement.Some? ==>
      var id := ledger[i].settlement.value;
      id < |settlements| && settlements[id].merchant == ledger[i].merchant
  }

  ghost predicate OneWaiting(settlements: seq<Batch>)
  {
    forall j, k :: 0 <= j < k < |settlements| && settlements[j].merchant == settlements[k].merchant
      ==> settlements[j].state != Waiting || settlements[k].state != Waiting
  }

  ghost predicate UntaggedFrom(ledger: seq<Entry>, n: nat, merchant: nat)
  {
    forall i :: n <= i < |ledger| && ledger[i].merchant == merchant ==> ledger[i].settlement.None?
  }

  /** The sums read by a run in progress still stand for the rows read. */
  ghost predicate JobOk(s: System)
  {
    s.job.Running? ==>
      && s.job.seen <= |s.ledger|
      && (forall j, k :: 0 <= j < k < |s.job.groups| ==> s.job.groups[j].merchant != s.job.groups[k].merchant)
      && (forall k :: 0 <= k < |s.job.groups| ==>
           s.job.groups[k].amount == Pending(s.ledger[..s.job.seen], s.job.groups[k].merchant)
           && s.job.groups[k].amount >= MINIMUM)
      && forall k :: 0 <= k < |s.job.groups| ==> UntaggedFrom(s.ledger, s.job.seen, s.job.groups[k].merchant)
  }

  ghost predicate Inv(s: System)
  {
    && AmountsOk(s.ledger, s.settlements) && TagsOk(s.ledger, s.settlements)
    && WindowsOk(s.ledger, s.settlements) && OneWaiting(s.settlements) && JobOk(s)
  }

  lemma InsertKeepsInv(s: System, merchant: nat, net: Units)
    requires Inv(s)
    ensures Inv(Step(s, Insert(merchant, net)))
  {
    var t := Step(s, Insert(merchant, net));
    forall id: nat | id < |t.settlements| ensures AmountOk(t.ledger, t.settlements[id], id) {
      assert AmountOk(s.ledger, s.settlements[id], id);
      assert t.ledger[..t.settlements[id].seen] == s.ledger[..s.settlements[id].seen];
    }
    forall id: nat | id < |t.settlements| ensures WindowOk(t.ledger, t.settlements[id], id) {
      assert WindowOk(s.ledger, s.settlements[id], id);
    }
    if s.job.Running? { assert t.ledger[..s.job.seen] == s.ledger[..s.job.seen]; }
  }

  /** Tagging a merchant's entries: what was pending becomes the new settlement's; every other sum
      is as before. */
  lemma TagMoves(ledger: seq<Entry>, merchant: nat, id: nat)
    requires forall i :: 0 <= i < |ledger| ==> ledger[i].settlement != Some(id)
    ensures var after := Tag(ledger, merchant, id);
      && TaggedWith(after, id) == Pending(ledger, merchant)
      && Pending(after, merchant) == 0
      && (forall other: nat :: other != id ==> TaggedWith(after, other) == TaggedWith(ledger, other))
      && (forall m: nat :: m != merchant ==> Pending(after, m) == Pending(ledger, m))
      && (forall m: nat :: Earned(after, m) == Earned(ledger, m))
  {
    var after := Tag(ledger, merchant, id);
    NetSame(after, ledger, TaggedBy(id), UntaggedOf(merchant));
    NetZero(after, UntaggedOf(merchant));
    forall other: nat | other != id ensures TaggedWith(after, other) == TaggedWith(ledger, other) {
      NetSame(after, ledger, TaggedBy(other), TaggedBy(other));
    }
    forall m: nat | m != merchant ensures Pending(after, m) == Pending(ledger, m) {
      NetSame(after, ledger, UntaggedOf(m), UntaggedOf(m));
    }
    forall m: nat ensures Earned(after, m) == Earned(ledger, m) {
      NetSame(after, ledger, OfMerchant(m), OfMerchant(m));
    }
  }

  lemma TagPrefix(ledger: seq<Entry>, merchant: nat, id: nat, n: nat)
    requires n <= |ledger|
    ensures Tag(ledger, merchant, id)[..n] == Tag(ledger[..n], merchant, id)
  {
  }

  /** The new settlement's amount stands for the rows its sum was read from; older ones keep
      theirs. */
  lemma SettleKeepsAmounts(s: System, g: Group, seen: nat)
    requires Inv(s) && !HasWaiting(s.settlements, g.merchant)
    requires seen <= |s.ledger| && g.amount == Pending(s.ledger[..seen], g.merchant) && g.amount >= MINIMUM
    ensures AmountsOk(Settle(s, g, seen).ledger, Settle(s, g, seen).settlements)
  {
    var t, n := Settle(s, g, seen), |s.settlements|;
    forall id: nat | id < |t.settlements| ensures AmountOk(t.ledger, t.settlements[id], id) {
      if id < n { assert AmountOk(s.ledger, s.settlements[id], id); }
      var k := t.settlements[id].seen;
      TagPrefix(s.ledger, g.merchant, n, k);
      TagMoves(s.ledger[..k], g.merchant, n);
    }
  }

  lemma SettleKeepsWindows(s: System, g: Group, seen: nat)
    requires Inv(s) && !HasWaiting(s.settlements, g.merchant) && seen <= |s.ledger|
    requires UntaggedFrom(s.ledger, seen, g.merchant)
    ensures WindowsOk(Settle(s, g, seen).ledger, Settle(s, g, seen).settlements)
  {
    var t := Settle(s, g, seen);
    forall id: nat | id < |t.settlements| ensures WindowOk(t.ledger, t.settlements[id], id) {
      if id < |s.settlements| { assert WindowOk(s.ledger, s.settlements[id], id); }
    }
  }

  /** Another merchant's sum and untagged rows are not touched. */
  lemma SettleLeavesOther(s: System, g: Group, seen: nat, other: nat)
    requires Inv(s) && seen <= |s.ledger| && other != g.merchant && UntaggedFrom(s.ledger, seen, other)
    ensures seen <= |Settle(s, g, seen).ledger|
    ensures Pending(Settle(s, g, seen).ledger[..seen], other) == Pending(s.ledger[..seen], other)
    ensures UntaggedFrom(Settle(s, g, seen).ledger, seen, other)
  {
    if !HasWaiting(s.settlements, g.merchant) {
      TagPrefix(s.ledger, g.merchant, |s.settlements|, seen);
      TagMoves(s.ledger[..seen], g.merchant, |s.settlements|);
    }
  }

  lemma SettleKeepsJob(s: System)
    requires Inv(s) && s.job.Running? && s.job.groups != []
    ensures JobOk(Step(s, SettleNext))
  {
    var g, seen := s.job.groups[0], s.job.seen;
    var t := Step(s, SettleNext);
    forall k | 0 <= k < |t.job.groups|
      ensures t.job.groups[k].amount == Pending(t.ledger[..seen], t.job.groups[k].merchant) >= MINIMUM
      ensures UntaggedFrom(t.ledger, seen, t.job.groups[k].merchant)
    {
      assert t.job.groups[k] == s.job.groups[k + 1];
      assert UntaggedFrom(s.ledger, seen, s.job.groups[k + 1].merchant);
      SettleLeavesOther(s, g, seen, s.job.groups[k + 1].merchant);
    }
  }

  lemma SettleKeepsInv(s: System)
    requires Inv(s) && s.job.Running? && s.job.groups != []
    ensures Inv(Step(s, SettleNext))
  {
    var g, seen := s.job.groups[0], s.job.seen;
    SettleKeepsJob(s);
    if !HasWaiting(s.settlements, g.merchant) {
      SettleKeepsAmounts(s, g, seen);
      SettleKeepsWindows(s, g, seen);
    }
  }

  lemma StepKeepsInv(s: System, a: Action)
    requires Inv(s)
    ensures Inv(Step(s, a))
  {
    match a
    case Insert(m, net) => InsertKeepsInv(s, m, net);
    case ReadSums(_) => assert s.ledger[..|s.ledger|] == s.ledger;
    case SettleNext => if s.job.Running? && s.job.groups != [] { SettleKeepsInv(s); }
    case Abort =>
    case Progress(id, state) =>
      var t := Step(s, a);
      forall k: nat | k < |t.settlements| ensures AmountOk(t.ledger, t.settlements[k], k) {
        assert AmountOk(s.ledger, s.settlements[k], k);
      }
      forall k: nat | k < |t.settlements| ensures WindowOk(t.ledger, t.settlements[k], k) {
        assert WindowOk(s.ledger, s.settlements[k], k);
      }
  }

  lemma {:induction false} ExecKeepsInv(s: System, acts: seq<Action>)
    requires Inv(s)
    ensures Inv(Exec(s, acts))
  {
    if acts != [] {
      ExecKeepsInv(s, acts[..|acts| - 1]);
      StepKeepsInv(Exec(s, acts[..|acts| - 1]), acts[|acts| - 1]);
    }
  }

  // ----- the theorems -----------------------------------------------------------------------

  ghost predicate Initial(s: System)
  {
    s.settlements == [] && s.job.Idle? && forall i :: 0 <= i < |s.ledger| ==> s.ledger[i].settlement.None?
  }

  /** In every run, what a settlement tagged exceeds its amount by exactly the net its merchant
      earned between the reading of the sums and the tagging (nothing, when no row was inserted in
      that window); a settlement is at least one USDC; and a merchant has at most one pending. */
  lemma SettlementConservation(s: System, acts: seq<Action>, id: nat)
    requires Initial(s) && id < |Exec(s, acts).settlements|
    ensures var t := Exec(s, acts);
      var b := t.settlements[id];
      && OneWaiting(t.settlements) && TagsOk(t.ledger, t.settlements)
      && b.seen <= b.cut <= |t.ledger| && b.amount >= 10_000_000
      && TaggedWith(t.ledger, id) - b.amount == Earned(t.ledger[b.seen..b.cut], b.merchant)
  {
    ExecKeepsInv(s, acts);
    var t := Exec(s, acts);
    var b := t.settlements[id];
    assert AmountOk(t.ledger, b, id) && WindowOk(t.ledger, b, id);
    TaggedIsAmountPlusWindow(t.ledger, t.settlements, id);
  }

  lemma TaggedIsAmountPlusWindow(ledger: seq<Entry>, settlements: seq<Batch>, id: nat)
    requires id < |settlements| && TagsOk(ledger, settlements)
    requires AmountOk(ledger, settlements[id], id) && WindowOk(ledger, settlements[id], id)
    ensures var b := settlements[id];
            TaggedWith(ledger, id) == b.amount + Earned(ledger[b.seen..b.cut], b.merchant)
  {
    var b := settlements[id];
    LateIsWindow(ledger, settlements, id);
    assert ledger == ledger[..b.seen] + ledger[b.seen..];
    NetSplit(ledger[..b.seen], ledger[b.seen..], TaggedBy(id));
  }

  lemma LateIsWindow(ledger: seq<Entry>, settlements: seq<Batch>, id: nat)
    requires id < |settlements| && TagsOk(ledger, settlements) && WindowOk(ledger, settlements[id], id)
    ensures var b := settlements[id]; TaggedWith(ledger[b.seen..], id) == Earned(ledger[b.seen..b.cut], b.merchant)
  {
    var b := settlements[id];
    var window, after := ledger[b.seen..b.cut], ledger[b.cut..];
    assert ledger[b.seen..] == window + after;
    NetSplit(window, after, TaggedBy(id));
    forall i | 0 <= i < |after| ensures !Holds(TaggedBy(id), after[i]) {
      assert after[i] == ledger[b.cut + i];
    }
    NetZero(after, TaggedBy(id));
    forall i | 0 <= i < |window| ensures Holds(TaggedBy(id), window[i]) == Holds(OfMerchant(b.merchant), window[i]) {
      assert window[i] == ledger[b.seen + i];
    }
    NetSame(window, window, TaggedBy(id), OfMerchant(b.merchant));
  }

  /** The amounts of one merchant's settlements. */
  function Settled(settlements: seq<Batch>, merchant: nat): Units
  {
    if settlements == [] then 0
    else
      var last := settlements[|settlements| - 1];
      Settled(settlements[..|settlements| - 1], merchant) + if last.merchant == merchant then last.amount else 0
  }

  /** What a merchant earned in the windows of its first n settlements. */
  ghost function Late(ledger: seq<Entry>, settlements: seq<Batch>, merchant: nat, n: nat): Units
    requires n <= |settlements|
  {
    if n == 0 then 0
    else
      var b := settlements[n - 1];
      Late(ledger, settlements, merchant, n - 1)
      + if b.merchant == merchant && b.seen <= b.cut <= |ledger| then Earned(ledger[b.seen..b.cut], merchant) else 0
  }

  ghost function TaggedBelow(ledger: seq<Entry>, merchant: nat, n: nat): Units
  {
    Net(ledger, OfMerchantTaggedBelow(merchant, n))
  }

  lemma {:induction false} NetSum(ledger: seq<Entry>, p: Where, q: Where, r: Where)
    requires forall i :: 0 <= i < |ledger| ==>
              && (Holds(p, ledger[i]) <==> Holds(q, ledger[i]) || Holds(r, ledger[i]))
              && !(Holds(q, ledger[i]) && Holds(r, ledger[i]))
    ensures Net(ledger, p) == Net(ledger, q) + Net(ledger, r)
  {
    if ledger != [] { NetSum(ledger[..|ledger| - 1], p, q, r); }
  }

  lemma OwnTagged(ledger: seq<Entry>, settlements: seq<Batch>, merchant: nat, id: nat)
    requires id < |settlements| && TagsOk(ledger, settlements)
    requires AmountOk(ledger, settlements[id], id) && WindowOk(ledger, settlements[id], id)
    ensures var b := settlements[id];
            Net(ledger, OfMerchantTaggedBy(merchant, id))
            == if b.merchant == merchant then b.amount + Earned(ledger[b.seen..b.cut], merchant) else 0
  {
    var b := settlements[id];
    if b.merchant == merchant {
      TaggedIsAmountPlusWindow(ledger, settlements, id);
      NetSame(ledger, ledger, OfMerchantTaggedBy(merchant, id), TaggedBy(id));
    } else {
      NetZero(ledger, OfMerchantTaggedBy(merchant, id));
    }
  }

  lemma OneMoreTagged(ledger: seq<Entry>, merchant: nat, n: nat)
    ensures TaggedBelow(ledger, merchant, n + 1)
            == TaggedBelow(ledger, merchant, n) + Net(ledger, OfMerchantTaggedBy(merchant, n))
  {
    NetSum(ledger, OfMerchantTaggedBelow(merchant, n + 1), OfMerchantTaggedBelow(merchant, n),
           OfMerchantTaggedBy(merchant, n));
  }

  lemma OneMoreSettled(settlements: seq<Batch>, merchant: nat, n: nat)
    requires n < |settlements|
    ensures Settled(settlements[..n + 1], merchant) == Settled(settlements[..n], merchant)
            + if settlements[n].merchant == merchant then settlements[n].amount else 0
  {
    assert settlements[..n + 1][..n] == settlements[..n];
  }

  lemma {:induction false} TaggedIsSettledPlusLate(ledger: seq<Entry>, settlements: seq<Batch>, merchant: nat, n: nat)
    requires AmountsOk(ledger, settlements) && WindowsOk(ledger, settlements) && TagsOk(ledger, settlements)
    requires n <= |settlements|
    ensures TaggedBelow(ledger, merchant, n)
            == Settled(settlements[..n], merchant) + Late(ledger, settlements, merchant, n)
  {
    if n == 0 {
      NetZero(ledger, OfMerchantTaggedBelow(merchant, 0));
    } else {
      TaggedIsSettledPlusLate(ledger, settlements, merchant, n - 1);
      assert AmountOk(ledger, settlements[n - 1], n - 1) && WindowOk(ledger, settlements[n - 1], n - 1);
      OwnTagged(ledger, settlements, merchant, n - 1);
      OneMoreTagged(ledger, merchant, n - 1);
      OneMoreSettled(settlements, merchant, n - 1);
    }
  }

  /** Per merchant, in every run: all ledger net is the settlement amounts, plus what was earned in
      their windows, plus the pending balance. */
  lemma MerchantConservation(s: System, acts: seq<Action>, merchant: nat)
    requires Initial(s)
    ensures var t := Exec(s, acts);
      Earned(t.ledger, merchant)
      == Settled(t.settlements, merchant) + Late(t.ledger, t.settlements, merchant, |t.settlements|)
         + Pending(t.ledger, merchant)
  {
    ExecKeepsInv(s, acts);
    var t := Exec(s, acts);
    var n := |t.settlements|;
    TaggedIsSettledPlusLate(t.ledger, t.settlements, merchant, n);
    assert t.settlements[..n] == t.settlements;
    NetSum(t.ledger, OfMerchant(merchant),
           OfMerchantTaggedBelow(merchant, n),
           UntaggedOf(merchant));
  }

  /** A tag is never changed: no row is settled twice. */
  lemma {:induction false} TagsAreFinal(s: System, acts: seq<Action>, i: nat)
    requires i < |s.ledger|
    ensures i < |Exec(s, acts).ledger|
    ensures var e := Exec(s, acts).ledger[i];
            && e.merchant == s.ledger[i].merchant && e.net == s.ledger[i].net
            && (s.ledger[i].settlement.Some? ==> e.settlement == s.ledger[i].settlement)
  {
    if acts != [] { TagsAreFinal(s, acts[..|acts| - 1], i); }
  }

  // ----- who gets settled -------------------------------------------------------------------

  /** A row that arrives is earned by its merchant, and by no other, and waits to be settled; a settlement
      that leaves the pending state is no longer pending, and keeps its amount. */
  lemma ArrivalsAndProgress(s: System, m: nat, net: Units, other: nat, id: nat, state: State)
    ensures var t := Step(s, Insert(m, net));
      && t.ledger == s.ledger + [Entry(m, net, None)] && t.settlements == s.settlements
      && Earned(t.ledger, other) == Earned(s.ledger, other) + (if other == m then net else 0)
      && Owed(t.ledger, other) == Owed(s.ledger, other) + (if other == m then net else 0)
    ensures id < |s.settlements| && state != Waiting ==>
              var t := Step(s, Progress(id, state));
              && t.ledger == s.ledger && |t.settlements| == |s.settlements|
              && forall k :: 0 <= k < |s.settlements| ==>
                   && t.settlements[k].state == (if k == id then state else s.settlements[k].state)
                   && t.settlements[k].amount == s.settlements[k].amount
                   && t.settlements[k].merchant == s.settlements[k].merchant
  {
    assert (s.ledger + [Entry(m, net, None)])[..|s.ledger|] == s.ledger;
  }

  /** The merchant has a settlement with status 'pending'. */
  ghost predicate IsPending(settlements: seq<Batch>, merchant: nat)
  {
    exists id :: 0 <= id < |settlements| && settlements[id].merchant == merchant && settlements[id].state == Waiting
  }

  lemma StaysPending(before: seq<Batch>, after: seq<Batch>, merchant: nat)
    requires before <= after && IsPending(before, merchant)
    ensures IsPending(after, merchant)
  {
    var id :| 0 <= id < |before| && before[id].merchant == merchant && before[id].state == Waiting;
    assert after[id] == before[id];
  }

  /** After a merchant's transaction a settlement of theirs is pending: the one that was, and nothing
      changes; or a new one of the amount read, with every row of theirs tagged, and no other. */
  lemma TransactionSettles(s: System, g: Group, seen: nat)
    ensures var t, n := Settle(s, g, seen), |s.settlements|;
      && IsPending(t.settlements, g.merchant)
      && if exists id :: 0 <= id < n && s.settlements[id].merchant == g.merchant && s.settlements[id].state == Waiting
         then t == s
         else
           && |t.settlements| == n + 1 && t.settlements[..n] == s.settlements
           && t.settlements[n].merchant == g.merchant && t.settlements[n].amount == g.amount
           && t.settlements[n].state == Waiting
           && |t.ledger| == |s.ledger|
           && forall i :: 0 <= i < |s.ledger| ==>
                t.ledger[i] == if s.ledger[i].merchant == g.merchant && s.ledger[i].settlement == None
                               then s.ledger[i].(settlement := Some(n)) else s.ledger[i]
  {
    var t, n := Settle(s, g, seen), |s.settlements|;
    if !HasWaiting(s.settlements, g.merchant) { assert t.settlements[n].merchant == g.merchant; }
  }

  /** The net of a merchant's rows that no settlement has tagged. */
  function Owed(ledger: seq<Entry>, merchant: nat): Units
  {
    if ledger == [] then 0
    else
      var last := ledger[|ledger| - 1];
      Owed(ledger[..|ledger| - 1], merchant)
      + if last.merchant == merchant && last.settlement == None then last.net else 0
  }

  lemma {:induction false} OwedOf(ledger: seq<Entry>, merchant: nat)
    ensures Pending(ledger, merchant) == Owed(ledger, merchant)
  {
    if ledger != [] { OwedOf(ledger[..|ledger| - 1], merchant); }
  }

  /** The first n groups of a job have a pending settlement. */
  ghost predicate PendingUpTo(settlements: seq<Batch>, groups: seq<Group>, n: nat)
    requires n <= |groups|
  {
    forall k :: 0 <= k < n ==> IsPending(settlements, groups[k].merchant)
  }

  lemma OneMorePending(before: seq<Batch>, after: seq<Batch>, groups: seq<Group>, k: nat)
    requires k < |groups| && before <= after && PendingUpTo(before, groups, k) && IsPending(after, groups[k].merchant)
    ensures PendingUpTo(after, groups, k + 1)
  {
    forall j | 0 <= j < k ensures IsPending(after, groups[j].merchant) {
      StaysPending(before, after, groups[j].merchant);
    }
  }

  /** Every merchant owed one USDC has a pending settlement. */
  ghost predicate OwedArePending(ledger: seq<Entry>, settlements: seq<Batch>)
  {
    forall m: nat :: Owed(ledger, m) >= 10_000_000 ==> IsPending(settlements, m)
  }

  /** So has every merchant who was owed one USDC when the sums were read. */
  lemma EveryoneSettled(ledger: seq<Entry>, groups: seq<Group>, settlements: seq<Batch>)
    requires IsGrouping(ledger, groups) && PendingUpTo(settlements, groups, |groups|)
    ensures OwedArePending(ledger, settlements)
  {
    forall m: nat | Owed(ledger, m) >= 10_000_000 ensures IsPending(settlements, m) {
      OwedOf(ledger, m);
      var k :| 0 <= k < |groups| && groups[k].merchant == m;
    }
  }
}

/** createDailySettlements as the program it is, a loop over the merchants read at the start. */
module SettlementJob {
  import opened Options
  import opened PaymentTables
  import opened Settlement

  /** Ledger rows the reconciler commits while the job is at one merchant. */
  type Arrivals = seq<(nat, Units)>

  function Inserts(rows: Arrivals): seq<Action>
  {
    if rows == [] then []
    else Inserts(rows[..|rows| - 1]) + [Insert(rows[|rows| - 1].0, rows[|rows| - 1].1)]
  }

  /** The rows as they arrive. */
  function Received(rows: Arrivals): seq<Entry>
  {
    seq(|rows|, i requires 0 <= i < |rows| => Entry(rows[i].0, rows[i].1, None))
  }

  lemma OneMoreInsert(s: System, rows: Arrivals, i: nat)
    requires i < |rows|
    ensures Exec(s, Inserts(rows[..i + 1])) == Step(Exec(s, Inserts(rows[..i])), Insert(rows[i].0, rows[i].1))
    ensures Received(rows[..i + 1]) == Received(rows[..i]) + [Entry(rows[i].0, rows[i].1, None)]
  {
    var front, acts := rows[..i + 1], Inserts(rows[..i + 1]);
    assert front[..i] == rows[..i];
    assert acts[..|acts| - 1] == Inserts(rows[..i]);
  }

  /** The steps of the job up to its k-th merchant. */
  function Steps(groups: seq<Group>, arrivals: seq<Arrivals>, k: nat): seq<Action>
    requires k <= |arrivals|
  {
    if k == 0 then [ReadSums(groups)]
    else Steps(groups, arrivals, k - 1) + Inserts(arrivals[k - 1]) + [SettleNext]
  }

  lemma {:induction false} ExecConcat(s: System, a: seq<Action>, b: seq<Action>)
    ensures Exec(s, a + b) == Exec(Exec(s, a), b)
  {
    if b == [] {
      assert a + b == a;
    } else {
      var n := |b| - 1;
      ExecConcat(s, a, b[..n]);
      assert (a + b)[..|a + b| - 1] == a + b[..n];
    }
  }

  lemma ExecOne(s: System, a: Action)
    ensures Exec(s, [a]) == Step(s, a)
  {
    assert [a][..0] == [];
  }

  /** One more merchant: what arrives before its transaction, then the transaction. */
  lemma NextMerchant(start: System, groups: seq<Group>, arrivals: seq<Arrivals>, k: nat, mid: System)
    requires k < |arrivals| && mid == Exec(Exec(start, Steps(groups, arrivals, k)), Inserts(arrivals[k]))
    ensures Exec(start, Steps(groups, arrivals, k + 1)) == Step(mid, SettleNext)
  {
    var before, rows := Steps(groups, arrivals, k), Inserts(arrivals[k]);
    ExecConcat(start, before, rows);
    ExecConcat(start, before + rows, [SettleNext]);
    ExecOne(mid, SettleNext);
  }

  /** The steps of a job that ends at its k-th merchant. */
  function StepsToFailure(groups: seq<Group>, arrivals: seq<Arrivals>, k: nat): seq<Action>
    requires k < |arrivals|
  {
    Steps(groups, arrivals, k) + Inserts(arrivals[k]) + [Abort]
  }

  lemma AbortStep(start: System, groups: seq<Group>, arrivals: seq<Arrivals>, k: nat)
    requires k < |arrivals|
    ensures Exec(start, StepsToFailure(groups, arrivals, k))
            == Exec(Exec(start, Steps(groups, arrivals, k)), Inserts(arrivals[k])).(job := Idle)
  {
    var before, rows := Steps(groups, arrivals, k), Inserts(arrivals[k]);
    ExecConcat(start, before, rows);
    ExecConcat(start, before + rows, [Abort]);
    ExecOne(Exec(start, before + rows), Abort);
  }

  class SettlementService {
    var ledger: seq<Entry>
    var settlements: seq<Batch>

    constructor (ledger: seq<Entry>, settlements: seq<Batch>)
      ensures this.ledger == ledger && this.settlements == settlements
    {
      this.ledger, this.settlements := ledger, settlements;
    }

    /** The reconciler at work while the job runs. */
    method Receive(rows: Arrivals, ghost job: Job)
      modifies `ledger
      ensures System(ledger, settlements, job) == Exec(System(old(ledger), settlements, job), Inserts(rows))
      ensures ledger == old(ledger) + Received(rows)
    {
      for i := 0 to |rows|
        invariant System(ledger, settlements, job) == Exec(System(old(ledger), settlements, job), Inserts(rows[..i]))
        invariant ledger == old(ledger) + Received(rows[..i])
      {
        OneMoreInsert(System(old(ledger), settlements, job), rows, i);
        ledger := ledger + [Entry(rows[i].0, rows[i].1, None)];
      }
      assert rows[..|rows|] == rows;
    }

    /** One merchant's transaction: nothing when a settlement of theirs is still pending. */
    method SettleMerchant(g: Group, seen: nat, ghost groups: seq<Group>)
      requires groups != [] && groups[0] == g
      modifies this
      ensures IsPending(settlements, g.merchant) && old(settlements) <= settlements
      ensures System(ledger, settlements, Running(groups[1..], seen))
              == Step(System(old(ledger), old(settlements), Running(groups, seen)), SettleNext)
    {
      TransactionSettles(System(ledger, settlements, Running(groups, seen)), g, seen);
      if !HasWaiting(settlements, g.merchant) {
        var id := |settlements|;
        settlements := settlements + [Batch(g.merchant, g.amount, State.Waiting, seen, |ledger|)];
        ledger := Tag(ledger, g.merchant, id);
      }
    }

    method Turn(groups: seq<Group>, arrivals: seq<Arrivals>, k: nat, seen: nat, ghost start: System)
      requires k < |groups| == |arrivals|
      requires System(ledger, settlements, Running(groups[k..], seen)) == Exec(start, Steps(groups, arrivals, k))
      modifies this
      ensures System(ledger, settlements, Running(groups[k + 1..], seen)) == Exec(start, Steps(groups, arrivals, k + 1))
      ensures PendingUpTo(old(settlements), groups, k) ==> PendingUpTo(settlements, groups, k + 1)
    {
      ghost var earlier := settlements;
      Receive(arrivals[k], Running(groups[k..], seen));
      ghost var mid := System(ledger, settlements, Running(groups[k..], seen));
      assert groups[k..][1..] == groups[k + 1..];
      SettleMerchant(groups[k], seen, groups[k..]);
      if PendingUpTo(earlier, groups, k) { OneMorePending(earlier, settlements, groups, k); }
      NextMerchant(start, groups, arrivals, k, mid);
    }

    /** groups is the answer of the GROUP BY at the start, arrivals[k] what is inserted before the
        transaction of the k-th merchant, failing the merchant whose transaction fails, if any: it is
        rolled back and the error ends the job. */
    method CreateDailySettlements(groups: seq<Group>, arrivals: seq<Arrivals>, failing: Option<nat>)
      returns (count: Option<nat>)
      requires IsGrouping(ledger, groups) && |arrivals| == |groups|
      requires failing.Some? ==> failing.value < |groups|
      modifies this
      ensures failing.None? ==>
                && count == Some(|groups|)
                && System(ledger, settlements, Running([], |old(ledger)|))
                   == Exec(System(old(ledger), old(settlements), Idle), Steps(groups, arrivals, |groups|))
      ensures failing.None? ==> PendingUpTo(settlements, groups, |groups|) && OwedArePending(old(ledger), settlements)
      ensures failing.Some? ==>
                && count == None
                && System(ledger, settlements, Idle)
                   == Exec(System(old(ledger), old(settlements), Idle), StepsToFailure(groups, arrivals, failing.value))
    {
      ghost var start := System(ledger, settlements, Idle);
      var seen := |ledger|;
      ExecOne(start, ReadSums(groups));
      assert groups[0..] == groups;
      for k := 0 to |groups|
        invariant failing.Some? ==> k <= failing.value
        invariant PendingUpTo(settlements, groups, k)
        invariant System(ledger, settlements, Running(groups[k..], seen)) == Exec(start, Steps(groups, arrivals, k))
      {
        if failing == Some(k) {
          Receive(arrivals[k], Running(groups[k..], seen));
          AbortStep(start, groups, arrivals, k);
          return None;
        }
        Turn(groups, arrivals, k, seen, start);
      }
      EveryoneSettled(old(ledger), groups, settlements);
      assert groups[|groups|..] == [];
      count := Some(|groups|);
    }
  }
}
