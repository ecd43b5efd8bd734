/** What holds of every run of the reconciler: any number of crashes, errors and restarts, in
    any interleaving with the invoice service. */
module ReconcilerTheorems {
  import opened Options
  import opened PaymentTables
  import opened Matcher
  import opened InvoiceRules
  import opened Reconciler
  import opened ReconcilerSafety

  lemma ExecSnoc(w: World, s: System, acts: seq<Action>, a: Action)
    ensures Exec(w, s, acts + [a]) == Step(w, Exec(w, s, acts), a)
  {
    assert (acts + [a])[..|acts|] == acts;
  }

  lemma {:induction false} ExecConcat(w: World, s: System, a: seq<Action>, b: seq<Action>)
    ensures Exec(w, s, a + b) == Exec(w, Exec(w, s, a), b)
  {
    if b == [] {
      assert a + b == a;
    } else {
      var n := |b| - 1;
      ExecConcat(w, s, a, b[..n]);
      assert (a + b)[..|a + b| - 1] == a + b[..n];
    }
  }

  /** Every accepted payment between the first cursor and the saved one has an event, and no
      paging token has two. */
  lemma NoGapBehindCursor(w: World, s: System, acts: seq<Action>)
    requires Initial(w, s)
    ensures var db := Exec(w, s, acts).db;
            && EventsUnique(db.events)
            && forall p :: p in w.horizon && IsAcceptedAsset(p, w.config) && w.origin < p.token <= db.cursor
                 ==> exists e :: e in db.events && WrittenFor(w, e, p)
  {
    InitialInv(w, s);
    RunKeepsInv(w, s, acts);
    var t := Exec(w, s, acts);
    forall p | p in w.horizon && IsAcceptedAsset(p, w.config) && w.origin < p.token <= t.db.cursor
      ensures exists e :: e in t.db.events && WrittenFor(w, e, p)
    {
      var i :| 0 <= i < |w.horizon| && w.horizon[i] == p;
      assert Behind(t, i, w.horizon[i]);
      var k :| 0 <= k < |t.db.events| && t.db.events[k].token == p.token;
      assert Explained(w, t.db.invoices, t.db.events[k]);
      var q :| Explains(w, t.db.invoices, t.db.events[k], q);
      var j :| 0 <= j < |w.horizon| && w.horizon[j] == q;
      assert i == j;
    }
  }

  /** The saved cursor never moves backwards, whatever happens in between. */
  lemma CursorNeverMovesBack(w: World, s: System, before: seq<Action>, later: seq<Action>)
    requires Initial(w, s)
    ensures Exec(w, s, before).db.cursor <= Exec(w, s, before + later).db.cursor
  {
    InitialInv(w, s);
    RunKeepsInv(w, s, before);
    RunKeepsInv(w, Exec(w, s, before), later);
    ExecConcat(w, s, before, later);
  }

  /** At most one ledger row per payment event and per invoice; every row is backed by an event
      of an unblocked payment in the invoice's currency and exact amount; rows and conversion
      events come in pairs. */
  lemma LedgerIsSound(w: World, s: System, acts: seq<Action>)
    requires Initial(w, s)
    ensures var db := Exec(w, s, acts).db;
            LedgerUnique(db.ledger) && LedgerBacked(w, db) && ConversionsMatch(db)
  {
    InitialInv(w, s);
    RunKeepsInv(w, s, acts);
  }

  // ----- invoices ---------------------------------------------------------------------------

  lemma StepEvolves(w: World, s: System, a: Action)
    requires Inv(w, s)
    ensures TableEvolves(s.db.invoices, Step(w, s, a).db.invoices)
  {
    if a.Env? { EnvEvolves(s.db, a.e); }
    if a.Advance? && s.process.Up? && s.process.at.Commit? {
      MarkPaidEvolves(s.db.invoices, s.process.at.paidRow.id);
    }
  }

  lemma {:induction false} RunEvolves(w: World, s: System, acts: seq<Action>)
    requires Inv(w, s)
    ensures TableEvolves(s.db.invoices, Exec(w, s, acts).db.invoices)
  {
    if acts != [] {
      var n := |acts| - 1;
      RunEvolves(w, s, acts[..n]);
      RunKeepsInv(w, s, acts[..n]);
      var mid := Exec(w, s, acts[..n]);
      StepEvolves(w, mid, acts[n]);
      forall i | 0 <= i < |s.db.invoices|
        ensures Evolves(s.db.invoices[i], Exec(w, s, acts).db.invoices[i])
      {
        assert Evolves(s.db.invoices[i], mid.db.invoices[i]);
        assert Evolves(mid.db.invoices[i], Exec(w, s, acts).db.invoices[i]);
      }
    }
  }

  /** In every reachable state the balances agree with the statuses and a paid invoice with an
      open balance is in the ledger; from any point on, terms are fixed, nothing becomes pending
      again and paid, expired and cancelled are final. */
  lemma InvoiceMoney(w: World, s: System, before: seq<Action>, later: seq<Action>)
    requires Initial(w, s)
    ensures var db := Exec(w, s, before).db; TableMoneyOk(db.invoices) && PaidExplained(db)
    ensures TableEvolves(Exec(w, s, before).db.invoices, Exec(w, s, before + later).db.invoices)
  {
    InitialInv(w, s);
    RunKeepsInv(w, s, before);
    RunEvolves(w, Exec(w, s, before), later);
    ExecConcat(w, s, before, later);
  }

  // ----- what one step writes ---------------------------------------------------------------

  predicate IsMatched(e: PaymentEvent) { e.invoice.Some? && e.verdict.Screened? }

  predicate AtCommit(s: System) { s.process.Up? && s.process.at.Commit? }

  predicate Recording(at: Point) { at.RecordBlocked? || at.RecordMismatch? || at.RecordEvent? }

  /** The steps that write no event. */
  lemma MoveQuiet(w: World, s: System, o: Oracle)
    requires s.process.Up? && !AtCommit(s) && !Recording(s.process.at)
    ensures var db, t := s.db, AdvanceStep(w, s, o);
            t.db == db.(cursor := t.db.cursor) && !AtCommit(t)
  {
  }

  /** One event more, matched exactly when its commit comes next. */
  ghost predicate OneMoreEvent(db: Db, t: System)
  {
    exists e :: t.db.events == db.events + [e] && (IsMatched(e) <==> AtCommit(t))
                && (AtCommit(t) ==> t.process.at.event == |db.events|)
  }

  lemma RecordStepQuiet(w: World, s: System, o: Oracle)
    requires s.process.Up? && Recording(s.process.at) && s.process.next < |w.horizon|
    ensures var db, t := s.db, AdvanceStep(w, s, o);
      && t.db.ledger == db.ledger && t.db.deliveries == db.deliveries
      && ((t.db.events == db.events && !AtCommit(t)) || OneMoreEvent(db, t))
  {
    var p := w.horizon[s.process.next];
    match s.process.at
    case RecordBlocked => RecordQuiet(w, s, p, None, Screened(Blocked), Save);
    case RecordMismatch(row) => RecordQuiet(w, s, p, Some(row.id), AmountMismatch, Save);
    case RecordEvent(matched, ofac) =>
      if matched.None? {
        RecordQuiet(w, s, p, None, Screened(ofac), Save);
      } else {
        RecordQuiet(w, s, p, Some(matched.value.id), Screened(ofac), Commit(matched.value, |s.db.events|));
      }
  }

  /** Outside a commit the process writes at most one event; it is matched exactly when the commit
      of that event comes next. */
  lemma AdvanceQuiet(w: World, s: System, o: Oracle)
    requires s.process.Up? && !AtCommit(s)
    ensures var db, t := s.db, AdvanceStep(w, s, o);
      && t.db.ledger == db.ledger && t.db.deliveries == db.deliveries
      && ((t.db.events == db.events && !AtCommit(t)) || OneMoreEvent(db, t))
  {
    if Recording(s.process.at) && s.process.next < |w.horizon| {
      RecordStepQuiet(w, s, o);
    } else if !Recording(s.process.at) {
      MoveQuiet(w, s, o);
    }
  }

  lemma RecordQuiet(w: World, s: System, p: Payment, invoice: Option<nat>, verdict: Verdict, then_: Point)
    requires s.process.Up?
    ensures var t := Record(w, s, p, invoice, verdict, then_);
      && t.db.ledger == s.db.ledger && t.db.deliveries == s.db.deliveries
      && (|| (t.db.events == s.db.events && !AtCommit(t))
          || (exists e :: t.db.events == s.db.events + [e] && e.invoice == invoice && e.verdict == verdict
                          && t.process == s.process.(at := then_)))
  {
    if p.amount.Some? {
      var e := EventRow(p, p.amount.value, invoice, verdict);
      assert Record(w, s, p, invoice, verdict, then_).db.events == s.db.events + [e];
    }
  }

  /** A step other than the commit leaves ledger and deliveries alone. */
  lemma QuietStep(w: World, s: System, a: Action)
    requires !(a.Advance? && AtCommit(s))
    ensures var db, t := s.db, Step(w, s, a);
      && t.db.ledger == db.ledger && t.db.deliveries == db.deliveries
      && (|| (t.db.events == db.events && (AtCommit(t) <==> AtCommit(s) && !a.Fail? && !a.Crash?)
              && (AtCommit(t) ==> t.process == s.process))
          || (exists e :: t.db.events == db.events + [e] && (IsMatched(e) <==> AtCommit(t)) && !AtCommit(s)
                          && !a.Fail? && !a.Crash? && (AtCommit(t) ==> t.process.at.event == |db.events|)))
  {
    match a
    case Env(e) => EnvFrame(s.db, e);
    case Advance(o) => if s.process.Up? { AdvanceQuiet(w, s, o); }
    case _ =>
  }

  /** The commit appends one ledger row and its deliveries. */
  lemma CommitStep(w: World, s: System, o: Oracle)
    requires AtCommit(s) && s.process.next < |w.horizon|
    ensures var t := Step(w, s, Advance(o));
      && t.db == CommitPayment(s.db, s.process.at.paidRow, s.process.at.event)
      && !AtCommit(t)
  {
  }

  // ----- deliveries -------------------------------------------------------------------------

  ghost predicate QueuedFor(deliveries: seq<Delivery>, webhooks: seq<Webhook>, r: LedgerEntry)
  {
    forall h: nat :: Delivery(h, r.invoice, r.event) in deliveries
                     <==> h < |webhooks| && webhooks[h].merchant == r.merchant && webhooks[h].active
                          && "invoice.paid" in webhooks[h].events
  }

  /** The commit queues exactly the deliveries its webhooks want, and none for an older row. */
  lemma CommitQueues(w: World, db: Db, row: InvoiceRow, event: nat)
    requires DeliveriesPaid(db) && !EventInLedger(db.ledger, event)
    ensures var after := CommitPayment(db, row, event);
      && QueuedFor(after.deliveries, db.webhooks, after.ledger[|db.ledger|])
      && forall d :: d in after.deliveries && d.event != event <==> d in db.deliveries
  {
    PaidDeliveriesExact(db.webhooks, row, event);
  }

  lemma CommitKeepsQueued(w: World, db: Db, row: InvoiceRow, event: nat, j: nat, webhooks: seq<Webhook>)
    requires DeliveriesPaid(db) && !EventInLedger(db.ledger, event)
    requires j < |db.ledger| && QueuedFor(db.deliveries, webhooks, db.ledger[j])
    ensures var after := CommitPayment(db, row, event);
      && j < |after.ledger| && after.ledger[j] == db.ledger[j]
      && QueuedFor(after.deliveries, webhooks, after.ledger[j])
  {
    CommitQueues(w, db, row, event);
    assert db.ledger[j].event != event;
  }

  lemma CommitEnabled(w: World, s: System)
    requires Inv(w, s) && AtCommit(s)
    ensures s.process.next < |w.horizon| && DeliveriesPaid(s.db) && !EventInLedger(s.db.ledger, s.process.at.event)
  {
  }

  /** Once a row is in the ledger no step changes the deliveries queued for it. */
  lemma StepKeepsQueued(w: World, s: System, a: Action, j: nat, webhooks: seq<Webhook>)
    requires Inv(w, s) && j < |s.db.ledger| && QueuedFor(s.db.deliveries, webhooks, s.db.ledger[j])
    ensures var t := Step(w, s, a);
      j < |t.db.ledger| && t.db.ledger[j] == s.db.ledger[j] && QueuedFor(t.db.deliveries, webhooks, t.db.ledger[j])
  {
    if a.Advance? && AtCommit(s) {
      CommitEnabled(w, s);
      CommitStep(w, s, a.o);
      CommitKeepsQueued(w, s.db, s.process.at.paidRow, s.process.at.event, j, webhooks);
    } else {
      QuietStep(w, s, a);
    }
  }

  /** A step that adds a ledger row is a commit and queues the row's deliveries. */
  lemma NewRowQueued(w: World, s: System, a: Action)
    requires Inv(w, s) && |Step(w, s, a).db.ledger| > |s.db.ledger|
    ensures var t := Step(w, s, a);
      |t.db.ledger| == |s.db.ledger| + 1 && QueuedFor(t.db.deliveries, s.db.webhooks, t.db.ledger[|s.db.ledger|])
  {
    if a.Advance? && AtCommit(s) {
      CommitEnabled(w, s);
      CommitStep(w, s, a.o);
      CommitQueues(w, s.db, s.process.at.paidRow, s.process.at.event);
    } else {
      QuietStep(w, s, a);
    }
  }

  /** The same for the last step of a run. */
  lemma LastStepQueues(w: World, s: System, acts: seq<Action>, a: Action, j: nat, webhooks: seq<Webhook>)
    requires Initial(w, s)
    ensures var before, after := Exec(w, s, acts).db, Step(w, Exec(w, s, acts), a).db;
      && (j < |before.ledger| && QueuedFor(before.deliveries, webhooks, before.ledger[j]) ==>
            j < |after.ledger| && after.ledger[j] == before.ledger[j]
            && QueuedFor(after.deliveries, webhooks, after.ledger[j]))
      && (|after.ledger| > |before.ledger| ==>
            |after.ledger| == |before.ledger| + 1
            && QueuedFor(after.deliveries, before.webhooks, after.ledger[|before.ledger|]))
  {
    InitialInv(w, s);
    RunKeepsInv(w, s, acts);
    var t := Exec(w, s, acts);
    if j < |t.db.ledger| && QueuedFor(t.db.deliveries, webhooks, t.db.ledger[j]) {
      StepKeepsQueued(w, t, a, j, webhooks);
    }
    if |Step(w, t, a).db.ledger| > |t.db.ledger| { NewRowQueued(w, t, a); }
  }

  /** No webhook is queued the same delivery twice. */
  lemma DeliveriesDistinct(w: World, s: System, acts: seq<Action>)
    requires Initial(w, s)
    ensures var queued := Exec(w, s, acts).db.deliveries;
      forall a, b :: 0 <= a < b < |queued| ==> queued[a] != queued[b]
  {
    InitialInv(w, s);
    RunKeepsInv(w, s, acts);
  }

  lemma SamePrefixes(acts: seq<Action>, n: nat, k: nat)
    requires k < n <= |acts|
    ensures acts[..n][..k] == acts[..k] && acts[..n][..k + 1] == acts[..k + 1]
  {
  }

  /** Every ledger row was committed at some moment k of the run, and the deliveries queued for
      it are one for each webhook that was active and subscribed at that moment. */
  lemma {:induction false} DeliveriesOfRow(w: World, s: System, acts: seq<Action>, j: nat) returns (k: nat)
    requires Initial(w, s)
    requires j < |Exec(w, s, acts).db.ledger|
    ensures k < |acts|
    ensures |Exec(w, s, acts[..k]).db.ledger| == j
    ensures j < |Exec(w, s, acts[..k + 1]).db.ledger|
    ensures QueuedFor(Exec(w, s, acts).db.deliveries, Exec(w, s, acts[..k]).db.webhooks, Exec(w, s, acts).db.ledger[j])
    ensures forall a, b :: 0 <= a < b < |Exec(w, s, acts).db.deliveries| ==>
              Exec(w, s, acts).db.deliveries[a] != Exec(w, s, acts).db.deliveries[b]
  {
    var n := |acts| - 1;
    assert acts != [];
    DeliveriesDistinct(w, s, acts);
    var before := Exec(w, s, acts[..n]);
    if j < |before.db.ledger| {
      k := DeliveriesOfRow(w, s, acts[..n], j);
      SamePrefixes(acts, n, k);
      LastStepQueues(w, s, acts[..n], acts[n], j, Exec(w, s, acts[..k]).db.webhooks);
    } else {
      k := n;
      assert acts[..k + 1] == acts;
      LastStepQueues(w, s, acts[..n], acts[n], j, before.db.webhooks);
    }
  }

  // ----- matched events and the ledger ------------------------------------------------------

  function MatchedIn(events: seq<PaymentEvent>): set<int>
  {
    set i | 0 <= i < |events| && IsMatched(events[i])
  }

  function LedgerEvents(ledger: seq<LedgerEntry>): set<int>
  {
    set k | 0 <= k < |ledger| :: ledger[k].event as int
  }

  /** How often the process died or failed between writing a matched event and its commit. */
  ghost function InterruptedCommits(w: World, s: System, acts: seq<Action>): nat
  {
    if acts == [] then 0
    else
      var n := |acts| - 1;
      InterruptedCommits(w, s, acts[..n])
      + if (acts[n].Fail? || acts[n].Crash?) && AtCommit(Exec(w, s, acts[..n])) then 1 else 0
  }

  lemma MatchedGrows(events: seq<PaymentEvent>, e: PaymentEvent)
    ensures |MatchedIn(events + [e])| == |MatchedIn(events)| + if IsMatched(e) then 1 else 0
  {
    var n := |events|;
    assert forall i | 0 <= i < n :: (events + [e])[i] == events[i];
    assert MatchedIn(events + [e]) == MatchedIn(events) + if IsMatched(e) then {n} else {};
  }

  lemma StepAccounts(w: World, s: System, a: Action)
    requires Inv(w, s)
    ensures var t := Step(w, s, a);
      |MatchedIn(t.db.events)| - |t.db.ledger| - (if AtCommit(t) then 1 else 0)
      == |MatchedIn(s.db.events)| - |s.db.ledger| - (if AtCommit(s) then 1 else 0)
         + if (a.Fail? || a.Crash?) && AtCommit(s) then 1 else 0
  {
    var t := Step(w, s, a);
    if a.Advance? && AtCommit(s) {
      CommitStep(w, s, a.o);
    } else {
      QuietStep(w, s, a);
      if t.db.events != s.db.events {
        var e :| t.db.events == s.db.events + [e] && (IsMatched(e) <==> AtCommit(t));
        MatchedGrows(s.db.events, e);
      }
    }
  }

  /** Conservation: each matched event is in the ledger, or about to be committed, or was lost
      to an interrupted commit. */
  lemma {:induction false} MatchedAreAccounted(w: World, s: System, acts: seq<Action>)
    requires Initial(w, s)
    ensures var t := Exec(w, s, acts);
      |MatchedIn(t.db.events)| == |t.db.ledger| + InterruptedCommits(w, s, acts) + if AtCommit(t) then 1 else 0
  {
    InitialInv(w, s);
    if acts == [] {
      assert MatchedIn(s.db.events) == {};
    } else {
      var n := |acts| - 1;
      MatchedAreAccounted(w, s, acts[..n]);
      RunKeepsInv(w, s, acts[..n]);
      StepAccounts(w, Exec(w, s, acts[..n]), acts[n]);
    }
  }

  lemma {:induction false} LedgerEventsCount(ledger: seq<LedgerEntry>)
    requires LedgerUnique(ledger)
    ensures |LedgerEvents(ledger)| == |ledger|
  {
    if ledger == [] {
      assert LedgerEvents(ledger) == {};
    } else {
      var n := |ledger| - 1;
      LedgerEventsCount(ledger[..n]);
      assert forall k | 0 <= k < n :: ledger[..n][k] == ledger[k];
      assert LedgerEvents(ledger) == LedgerEvents(ledger[..n]) + {ledger[n].event as int};
    }
  }

  lemma SubsetOfEqualSize(a: set<int>, b: set<int>)
    requires a <= b
    ensures |a| == |b| <==> a == b
  {
    assert b == a + (b - a);
    assert |b| == |a| + |b - a|;
  }

  /** Exactly once: outside a commit in progress, every matched event has its one ledger row if
      and only if no commit was interrupted. */
  lemma ExactlyOnceIffUninterrupted(w: World, s: System, acts: seq<Action>)
    requires Initial(w, s) && !AtCommit(Exec(w, s, acts))
    ensures var db := Exec(w, s, acts).db;
      (forall i :: 0 <= i < |db.events| && IsMatched(db.events[i]) ==> EventInLedger(db.ledger, i))
      <==> InterruptedCommits(w, s, acts) == 0
  {
    InitialInv(w, s);
    RunKeepsInv(w, s, acts);
    MatchedAreAccounted(w, s, acts);
    var db := Exec(w, s, acts).db;
    LedgerEventsCount(db.ledger);
    assert LedgerEvents(db.ledger) <= MatchedIn(db.events) by {
      assert forall k | 0 <= k < |db.ledger| :: Backed(w, db, db.ledger[k]);
    }
    SubsetOfEqualSize(LedgerEvents(db.ledger), MatchedIn(db.events));
    assert forall i | 0 <= i < |db.events| :: EventInLedger(db.ledger, i) <==> i in LedgerEvents(db.ledger);
  }

  lemma OrphanStep(w: World, s: System, a: Action, e: nat)
    requires Inv(w, s)
    requires e < |s.db.events| && !EventInLedger(s.db.ledger, e)
    requires AtCommit(s) ==> s.process.at.event != e
    ensures var t := Step(w, s, a);
      && e < |t.db.events| && t.db.events[e] == s.db.events[e]
      && !EventInLedger(t.db.ledger, e) && (AtCommit(t) ==> t.process.at.event != e)
  {
    if a.Advance? && AtCommit(s) {
      CommitStep(w, s, a.o);
      LedgerGrows(s.db.ledger, Step(w, s, a).db.ledger[|s.db.ledger|]);
    } else {
      QuietStep(w, s, a);
    }
  }

  /** An event left without a ledger row stays without one in every continuation: its token is
      never processed again. */
  lemma {:induction false} OrphanIsForEver(w: World, s: System, acts: seq<Action>, e: nat)
    requires Inv(w, s)
    requires e < |s.db.events| && !EventInLedger(s.db.ledger, e)
    requires AtCommit(s) ==> s.process.at.event != e
    ensures var t := Exec(w, s, acts);
      && e < |t.db.events| && t.db.events[e] == s.db.events[e]
      && !EventInLedger(t.db.ledger, e) && (AtCommit(t) ==> t.process.at.event != e)
  {
    if acts != [] {
      var n := |acts| - 1;
      OrphanIsForEver(w, s, acts[..n], e);
      RunKeepsInv(w, s, acts[..n]);
      OrphanStep(w, Exec(w, s, acts[..n]), acts[n], e);
    }
  }

  // ----- a ledger row does not imply a paid invoice -------------------------------------------

  /** A commit leaves its invoice paid exactly when the invoice service had not moved it to
      partial, expired or cancelled since the match. */
  lemma CommitPaysIff(w: World, s: System, o: Oracle)
    requires Inv(w, s) && AtCommit(s)
    ensures var id := s.process.at.paidRow.id;
      var t := Step(w, s, Advance(o));
      && InLedger(t.db.ledger, id)
      && (t.db.invoices[id].status == Paid <==> s.db.invoices[id].status in {Pending, Paid})
  {
    var r := Step(w, s, Advance(o)).db.ledger[|s.db.ledger|];
    LedgerGrows(s.db.ledger, r);
  }
}
