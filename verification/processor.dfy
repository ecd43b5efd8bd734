/** process_payment and run_stream run to their end without interruption, as functions on the
    tables; that they are runs of the protocol; and that repeated paging tokens change nothing. */
module Processor {
  import opened Options
  import opened PaymentTables
  import opened Matcher
  import opened Reconciler
  import opened ReconcilerTheorems

  /** The screening answer for each payer address. */
  type Screen = string -> Screening

  /** Failed: the ? operator returned an error, with the tables as they are then. */
  datatype Outcome = Done(db: Db) | Failed(db: Db)

  function RecordAndSave(db: Db, p: Payment, invoice: Option<nat>, verdict: Verdict): Outcome
  {
    if p.amount.None? then Failed(db)
    else Done(SaveCursor(InsertEvent(db, EventRow(p, p.amount.value, invoice, verdict)), p.token))
  }

  /** The outcome of a payment matched to the i-th invoice. */
  function MatchedTo(db: Db, ofac: Screening, p: Payment, i: nat): Outcome
    requires i < |db.invoices|
  {
    var row := RowOf(db.invoices, i);
    if p.amount.None? then Failed(db)
    else if p.amount.value != row.gross then RecordAndSave(db, p, Some(i), AmountMismatch)
    else
      var recorded := InsertEvent(db, EventRow(p, p.amount.value, Some(i), Screened(ofac)));
      Done(SaveCursor(CommitPayment(recorded, row, |db.events|), p.token))
  }

  /** The outcome of a payment that has been screened and not blocked. */
  function Matched(db: Db, ofac: Screening, p: Payment): Outcome
  {
    match MatchInvoice(db.invoices, p)
    case None => RecordAndSave(db, p, None, Screened(ofac))
    case Some(i) => MatchedTo(db, ofac, p, i)
  }

  function ProcessPayment(db: Db, config: Config, screen: Screen, p: Payment): Outcome
  {
    if EventExists(db.events, p.token) || !IsAcceptedAsset(p, config) then Done(db)
    else if screen(p.from) == Blocked then RecordAndSave(db, p, None, Screened(Blocked))
    else Matched(db, screen(p.from), p)
  }

  /** In order; the first error ends the stream. */
  function RunStream(db: Db, config: Config, screen: Screen, payments: seq<Payment>): Outcome
  {
    if payments == [] then Done(db)
    else
      var n := |payments| - 1;
      match RunStream(db, config, screen, payments[..n])
      case Failed(d) => Failed(d)
      case Done(d) => ProcessPayment(d, config, screen, payments[n])
  }

  // ----- the functions are runs of the protocol ---------------------------------------------

  /** k steps of the process with the same answers from outside. */
  ghost function Advances(w: World, s: System, o: Oracle, k: nat): System
    decreases k
  {
    if k == 0 then s else Advances(w, Step(w, s, Advance(o)), o, k - 1)
  }

  ghost predicate Reaches(w: World, s: System, o: Oracle, t: System)
  {
    exists k: nat :: Advances(w, s, o, k) == t
  }

  lemma ReachesSelf(w: World, s: System, o: Oracle)
    ensures Reaches(w, s, o, s)
  {
    assert Advances(w, s, o, 0) == s;
  }

  lemma ReachesNext(w: World, s: System, o: Oracle, t: System)
    requires Reaches(w, Step(w, s, Advance(o)), o, t)
    ensures Reaches(w, s, o, t)
  {
    var k: nat :| Advances(w, Step(w, s, Advance(o)), o, k) == t;
    assert Advances(w, s, o, k + 1) == t;
  }

  lemma {:induction false} AdvancesIsExec(w: World, s: System, o: Oracle, k: nat)
    ensures Exec(w, s, seq(k, _ => Advance(o))) == Advances(w, s, o, k)
    decreases k
  {
    if k > 0 {
      var one, rest := [Advance(o)], seq(k - 1, _ => Advance(o));
      AdvancesIsExec(w, Step(w, s, Advance(o)), o, k - 1);
      ExecSnoc(w, s, [], Advance(o));
      assert [] + one == one;
      ExecConcat(w, s, one, rest);
      assert one + rest == seq(k, _ => Advance(o));
    }
  }

  /** The state of the protocol after one payment has been dealt with. */
  function AfterPayment(w: World, s: System, outcome: Outcome): System
    requires s.process.Up?
  {
    match outcome
    case Done(db) => System(db, s.process.(next := s.process.next + 1, at := Fetch))
    case Failed(db) => Retry(w, s.(db := db))
  }

  ghost predicate Reading(w: World, s: System)
  {
    s.process.Up? && s.process.next < |w.horizon|
  }

  /** The outcome does not depend on the point the process is at. */
  lemma AfterPaymentSame(w: World, s: System, at: Point, outcome: Outcome)
    requires s.process.Up?
    ensures AfterPayment(w, Goto(s, at), outcome) == AfterPayment(w, s, outcome)
  {
  }

  /** The cursor. */
  lemma SaveStep(w: World, s: System, o: Oracle)
    requires Reading(w, s) && s.process.at == Save
    ensures Reaches(w, s, o, AfterPayment(w, s, Done(SaveCursor(s.db, w.horizon[s.process.next].token))))
  {
    ReachesSelf(w, Step(w, s, Advance(o)), o);
    ReachesNext(w, s, o, Step(w, s, Advance(o)));
  }

  /** Writing an event with nothing to commit, then the cursor. */
  lemma RecordThenSave(w: World, s: System, o: Oracle, invoice: Option<nat>, verdict: Verdict)
    requires Reading(w, s)
    requires Step(w, s, Advance(o)) == Record(w, s, w.horizon[s.process.next], invoice, verdict, Save)
    ensures Reaches(w, s, o, AfterPayment(w, s, RecordAndSave(s.db, w.horizon[s.process.next], invoice, verdict)))
  {
    var t := Step(w, s, Advance(o));
    if w.horizon[s.process.next].amount.None? {
      ReachesSelf(w, t, o);
    } else {
      SaveStep(w, t, o);
    }
    ReachesNext(w, s, o, AfterPayment(w, s, RecordAndSave(s.db, w.horizon[s.process.next], invoice, verdict)));
  }

  /** The ledger transaction, publish, cursor. */
  lemma CommitThenSave(w: World, s: System, o: Oracle)
    requires Reading(w, s) && s.process.at.Commit?
    ensures var db := CommitPayment(s.db, s.process.at.paidRow, s.process.at.event);
            Reaches(w, s, o, AfterPayment(w, s, Done(SaveCursor(db, w.horizon[s.process.next].token))))
  {
    var committed := Step(w, s, Advance(o));
    var published := Step(w, committed, Advance(o));
    var target := AfterPayment(w, s, Done(SaveCursor(committed.db, w.horizon[s.process.next].token)));
    SaveStep(w, published, o);
    ReachesNext(w, committed, o, target);
    ReachesNext(w, s, o, target);
  }

  /** Event, then the commit. */
  lemma RecordThenCommit(w: World, s: System, o: Oracle)
    requires Reading(w, s) && s.process.at.RecordEvent? && s.process.at.matched.Some?
    requires w.horizon[s.process.next].amount.Some?
    ensures var p, row := w.horizon[s.process.next], s.process.at.matched.value;
            var e := EventRow(p, p.amount.value, Some(row.id), Screened(s.process.at.verdict));
            Reaches(w, s, o,
              AfterPayment(w, s, Done(SaveCursor(CommitPayment(InsertEvent(s.db, e), row, |s.db.events|), p.token))))
  {
    var t := Step(w, s, Advance(o));
    CommitThenSave(w, t, o);
    var p, row := w.horizon[s.process.next], s.process.at.matched.value;
    var e := EventRow(p, p.amount.value, Some(row.id), Screened(s.process.at.verdict));
    ReachesNext(w, s, o,
      AfterPayment(w, s, Done(SaveCursor(CommitPayment(InsertEvent(s.db, e), row, |s.db.events|), p.token))));
  }

  /** Where the match leads. */
  function MatchTarget(w: World, s: System, i: nat): System
    requires s.process.Up? && s.process.at.Match? && s.process.next < |w.horizon| && i < |s.db.invoices|
  {
    var p, row := w.horizon[s.process.next], RowOf(s.db.invoices, i);
    if p.amount.None? then Retry(w, s)
    else if p.amount.value != row.gross then Goto(s, RecordMismatch(row))
    else Goto(s, RecordEvent(Some(row), s.process.at.ofac))
  }

  lemma MatchStep(w: World, s: System, o: Oracle)
    requires Reading(w, s) && s.process.at.Match? && o.pick == MatchInvoice(s.db.invoices, w.horizon[s.process.next])
    ensures o.pick.Some? ==> o.pick.value < |s.db.invoices|
    ensures Step(w, s, Advance(o)) == match o.pick
                                      case None => Goto(s, RecordEvent(None, s.process.at.ofac))
                                      case Some(i) => MatchTarget(w, s, i)
  {
    MatchInvoiceAllowed(s.db.invoices, w.horizon[s.process.next]);
    if o.pick.Some? { MatchIsPending(s.db.invoices, w.horizon[s.process.next], o.pick); }
  }

  lemma MatchThenFinish(w: World, s: System, o: Oracle)
    requires Reading(w, s) && s.process.at.Match?
    requires o.pick == MatchInvoice(s.db.invoices, w.horizon[s.process.next])
    ensures Reaches(w, s, o, AfterPayment(w, s, Matched(s.db, s.process.at.ofac, w.horizon[s.process.next])))
  {
    MatchStep(w, s, o);
    if o.pick.None? {
      UnmatchedThenFinish(w, s, o);
    } else {
      MatchedThenFinish(w, s, o, o.pick.value);
    }
  }

  lemma UnmatchedThenFinish(w: World, s: System, o: Oracle)
    requires Reading(w, s) && s.process.at.Match?
    requires Step(w, s, Advance(o)) == Goto(s, RecordEvent(None, s.process.at.ofac))
    ensures var outcome := RecordAndSave(s.db, w.horizon[s.process.next], None, Screened(s.process.at.ofac));
            Reaches(w, s, o, AfterPayment(w, s, outcome))
  {
    var p, ofac := w.horizon[s.process.next], s.process.at.ofac;
    var t := Goto(s, RecordEvent(None, ofac));
    var outcome := RecordAndSave(s.db, p, None, Screened(ofac));
    RecordThenSave(w, t, o, None, Screened(ofac));
    AfterPaymentSame(w, s, t.process.at, outcome);
    ReachesNext(w, s, o, AfterPayment(w, s, outcome));
  }

  lemma MatchedThenFinish(w: World, s: System, o: Oracle, i: nat)
    requires Reading(w, s) && s.process.at.Match? && i < |s.db.invoices|
    requires Step(w, s, Advance(o)) == MatchTarget(w, s, i)
    ensures Reaches(w, s, o, AfterPayment(w, s, MatchedTo(s.db, s.process.at.ofac, w.horizon[s.process.next], i)))
  {
    var p, ofac, row := w.horizon[s.process.next], s.process.at.ofac, RowOf(s.db.invoices, i);
    var outcome := MatchedTo(s.db, ofac, p, i);
    var target := AfterPayment(w, s, outcome);
    if p.amount.None? {
      assert target == Retry(w, s);
      ReachesSelf(w, target, o);
    } else if p.amount.value != row.gross {
      var t := Goto(s, RecordMismatch(row));
      RecordThenSave(w, t, o, Some(row.id), AmountMismatch);
      AfterPaymentSame(w, s, t.process.at, outcome);
    } else {
      var t := Goto(s, RecordEvent(Some(row), ofac));
      RecordThenCommit(w, t, o);
      AfterPaymentSame(w, s, t.process.at, outcome);
    }
    ReachesNext(w, s, o, target);
  }

  lemma ScreenThenFinish(w: World, s: System, o: Oracle)
    requires Reading(w, s) && s.process.at.Screen?
    requires o.pick == MatchInvoice(s.db.invoices, w.horizon[s.process.next])
    ensures Reaches(w, s, o,
              AfterPayment(w, s, if o.screening == Blocked
                                 then RecordAndSave(s.db, w.horizon[s.process.next], None, Screened(Blocked))
                                 else Matched(s.db, o.screening, w.horizon[s.process.next])))
  {
    var p := w.horizon[s.process.next];
    if o.screening == Blocked {
      var t := Goto(s, RecordBlocked);
      assert Step(w, s, Advance(o)) == t;
      RecordThenSave(w, t, o, None, Screened(Blocked));
      AfterPaymentSame(w, s, RecordBlocked, RecordAndSave(s.db, p, None, Screened(Blocked)));
      ReachesNext(w, s, o, AfterPayment(w, s, RecordAndSave(s.db, p, None, Screened(Blocked))));
    } else {
      var t := Goto(s, Match(o.screening));
      assert Step(w, s, Advance(o)) == t;
      MatchThenFinish(w, t, o);
      AfterPaymentSame(w, s, Match(o.screening), Matched(s.db, o.screening, p));
      ReachesNext(w, s, o, AfterPayment(w, s, Matched(s.db, o.screening, p)));
    }
  }

  lemma PaymentReached(w: World, s: System, screen: Screen, o: Oracle)
    requires Reading(w, s) && s.process.at == Fetch
    requires var p := w.horizon[s.process.next]; o == Oracle(screen(p.from), MatchInvoice(s.db.invoices, p))
    ensures Reaches(w, s, o, AfterPayment(w, s, ProcessPayment(s.db, w.config, screen, w.horizon[s.process.next])))
  {
    var p := w.horizon[s.process.next];
    var t := Step(w, s, Advance(o));
    var outcome := ProcessPayment(s.db, w.config, screen, p);
    if EventExists(s.db.events, p.token) || !IsAcceptedAsset(p, w.config) {
      ReachesSelf(w, t, o);
    } else {
      assert t == Goto(s, Point.Screen);
      ScreenThenFinish(w, t, o);
      AfterPaymentSame(w, s, Point.Screen, outcome);
    }
    ReachesNext(w, s, o, AfterPayment(w, s, outcome));
  }

  /** An uninterrupted process_payment takes the protocol from one Fetch to the next (or, on an
      error, back to the boot cursor). */
  lemma ProcessIsARun(w: World, s: System, screen: Screen) returns (acts: seq<Action>)
    requires Reading(w, s) && s.process.at == Fetch
    ensures Exec(w, s, acts) == AfterPayment(w, s, ProcessPayment(s.db, w.config, screen, w.horizon[s.process.next]))
    ensures forall a :: a in acts ==> a.Advance?
  {
    var p := w.horizon[s.process.next];
    var o := Oracle(screen(p.from), MatchInvoice(s.db.invoices, p));
    PaymentReached(w, s, screen, o);
    var target := AfterPayment(w, s, ProcessPayment(s.db, w.config, screen, p));
    var k: nat :| Advances(w, s, o, k) == target;
    acts := seq(k, _ => Advance(o));
    AdvancesIsExec(w, s, o, k);
  }

  lemma DoneIsARun(w: World, s: System, screen: Screen, p: Payment) returns (acts: seq<Action>)
    requires Reading(w, s) && s.process.at == Fetch && p == w.horizon[s.process.next]
    requires ProcessPayment(s.db, w.config, screen, p).Done?
    ensures Exec(w, s, acts)
            == System(ProcessPayment(s.db, w.config, screen, p).db, s.process.(next := s.process.next + 1))
    ensures forall a :: a in acts ==> a.Advance?
  {
    acts := ProcessIsARun(w, s, screen);
  }

  lemma OneMoreIsARun(w: World, s: System, screen: Screen, front: seq<Action>, mid: System, p: Payment)
    returns (acts: seq<Action>)
    requires Exec(w, s, front) == mid && forall a :: a in front ==> a.Advance?
    requires Reading(w, mid) && mid.process.at == Fetch && p == w.horizon[mid.process.next]
    requires ProcessPayment(mid.db, w.config, screen, p).Done?
    ensures Exec(w, s, acts)
            == System(ProcessPayment(mid.db, w.config, screen, p).db, mid.process.(next := mid.process.next + 1))
    ensures forall a :: a in acts ==> a.Advance?
  {
    var back := DoneIsARun(w, mid, screen, p);
    ExecConcat(w, s, front, back);
    acts := front + back;
  }

  /** The state after a pass over the payments that come next. */
  function AfterStream(s: System, config: Config, screen: Screen, payments: seq<Payment>): System
    requires s.process.Up?
  {
    System(RunStream(s.db, config, screen, payments).db, s.process.(next := s.process.next + |payments|))
  }

  /** So is a pass without an error over the payments that come next in Horizon's stream. */
  lemma {:induction false} StreamIsARun(
      w: World, s: System, screen: Screen, payments: seq<Payment>) returns (acts: seq<Action>)
    requires s.process.Up? && s.process.at == Fetch
    requires s.process.next + |payments| <= |w.horizon|
    requires forall k :: 0 <= k < |payments| ==> payments[k] == w.horizon[s.process.next + k]
    requires RunStream(s.db, w.config, screen, payments).Done?
    ensures Exec(w, s, acts) == AfterStream(s, w.config, screen, payments)
    ensures forall a :: a in acts ==> a.Advance?
  {
    if payments == [] {
      acts := [];
    } else {
      var n := |payments| - 1;
      LastPayment(s, w.config, screen, payments);
      var front := StreamIsARun(w, s, screen, payments[..n]);
      acts := OneMoreIsARun(w, s, screen, front, AfterStream(s, w.config, screen, payments[..n]), payments[n]);
    }
  }

  lemma LastPayment(s: System, config: Config, screen: Screen, payments: seq<Payment>)
    requires payments != [] && s.process.Up? && RunStream(s.db, config, screen, payments).Done?
    ensures var n := |payments| - 1;
            var mid := AfterStream(s, config, screen, payments[..n]);
            && RunStream(s.db, config, screen, payments[..n]).Done?
            && ProcessPayment(mid.db, config, screen, payments[n]).Done?
            && AfterStream(s, config, screen, payments)
               == System(ProcessPayment(mid.db, config, screen, payments[n]).db,
                         mid.process.(next := mid.process.next + 1))
  {
    LastOfStream(s.db, config, screen, payments);
    var n := |payments| - 1;
    assert s.process.next + |payments| == s.process.next + |payments[..n]| + 1;
  }

  lemma LastOfStream(db: Db, config: Config, screen: Screen, payments: seq<Payment>)
    requires payments != [] && RunStream(db, config, screen, payments).Done?
    ensures var n := |payments| - 1;
            && RunStream(db, config, screen, payments[..n]).Done?
            && RunStream(db, config, screen, payments)
               == ProcessPayment(RunStream(db, config, screen, payments[..n]).db, config, screen, payments[n])
  {
  }

  // ----- replays ----------------------------------------------------------------------------

  /** The payments that are accepted and whose token is new: not in seen, nor carried by an
      earlier accepted payment. */
  function FirstOccurrences(seen: set<Token>, config: Config, payments: seq<Payment>): seq<Payment>
  {
    if payments == [] then []
    else
      var n := |payments| - 1;
      var front := FirstOccurrences(seen, config, payments[..n]);
      if IsAcceptedAsset(payments[n], config) && payments[n].token !in seen + Tokens(front)
      then front + [payments[n]] else front
  }

  function Tokens(payments: seq<Payment>): set<Token>
  {
    set i | 0 <= i < |payments| :: payments[i].token
  }

  function EventTokens(events: seq<PaymentEvent>): set<Token>
  {
    set i | 0 <= i < |events| :: events[i].token
  }

  lemma EventTokensGrow(events: seq<PaymentEvent>, e: PaymentEvent)
    ensures EventTokens(events + [e]) == EventTokens(events) + {e.token}
  {
    var all := events + [e];
    assert forall i | 0 <= i < |events| :: all[i] == events[i];
    assert all[|events|].token == e.token;
    forall t ensures t in EventTokens(all) <==> t in EventTokens(events) + {e.token} {
      if t in EventTokens(events) {
        var i :| 0 <= i < |events| && events[i].token == t;
        assert all[i].token == t;
      }
    }
  }

  lemma ProcessAddsToken(db: Db, config: Config, screen: Screen, p: Payment)
    requires ProcessPayment(db, config, screen, p).Done?
    ensures EventTokens(ProcessPayment(db, config, screen, p).db.events)
            == EventTokens(db.events) + if IsAcceptedAsset(p, config) then {p.token} else {}
  {
    var after := ProcessPayment(db, config, screen, p).db;
    if EventExists(db.events, p.token) {
      assert p.token in EventTokens(db.events);
    } else if IsAcceptedAsset(p, config) {
      var e := after.events[|db.events|];
      assert after.events == db.events + [e] && e.token == p.token;
      EventTokensGrow(db.events, e);
    }
  }

  lemma {:induction false} StreamAddsTokens(db: Db, config: Config, screen: Screen, payments: seq<Payment>)
    requires RunStream(db, config, screen, payments).Done?
    ensures EventTokens(RunStream(db, config, screen, payments).db.events)
            == EventTokens(db.events) + Tokens(FirstOccurrences(EventTokens(db.events), config, payments))
  {
    if payments != [] {
      var n := |payments| - 1;
      StreamAddsTokens(db, config, screen, payments[..n]);
      var mid := RunStream(db, config, screen, payments[..n]).db;
      ProcessAddsToken(mid, config, screen, payments[n]);
      var front := FirstOccurrences(EventTokens(db.events), config, payments[..n]);
      var all := front + [payments[n]];
      assert Tokens(all) == Tokens(front) + {payments[n].token} by {
        assert forall i | 0 <= i < |front| :: all[i] == front[i];
        assert all[|front|].token == payments[n].token;
      }
    }
  }

  /** Replay refinement: a stream with repeated paging tokens, with refused payments in it, leaves
      the events, ledger, statuses, deliveries and cursor (and the same error, if any) as the first
      occurrences alone do. */
  lemma {:induction false} ReplayRefines(db: Db, config: Config, screen: Screen, payments: seq<Payment>)
    ensures RunStream(db, config, screen, payments)
            == RunStream(db, config, screen, FirstOccurrences(EventTokens(db.events), config, payments))
  {
    if payments != [] {
      var n := |payments| - 1;
      ReplayRefines(db, config, screen, payments[..n]);
      var seen := EventTokens(db.events);
      var front := FirstOccurrences(seen, config, payments[..n]);
      var run := RunStream(db, config, screen, payments[..n]);
      if run.Done? {
        StreamAddsTokens(db, config, screen, payments[..n]);
        assert EventExists(run.db.events, payments[n].token) <==> payments[n].token in seen + Tokens(front);
      }
      assert (front + [payments[n]])[..|front|] == front;
    }
  }

  /** Processing again, in any order and any number, payments that a finished run has processed
      changes nothing. */
  lemma {:induction false} ReplayIsIdle(
      db: Db, config: Config, screen: Screen, payments: seq<Payment>, again: seq<Payment>)
    requires RunStream(db, config, screen, payments).Done?
    requires forall p :: p in again ==> p in payments
    ensures RunStream(RunStream(db, config, screen, payments).db, config, screen, again)
            == RunStream(db, config, screen, payments)
  {
    if again != [] {
      var n := |again| - 1;
      assert forall p | p in again[..n] :: p in again;
      ReplayIsIdle(db, config, screen, payments, again[..n]);
      assert again[n] in again;
      if IsAcceptedAsset(again[n], config) { ProcessedHasEvent(db, config, screen, payments, again[n]); }
    }
  }

  lemma {:induction false} ProcessedHasEvent(db: Db, config: Config, screen: Screen, payments: seq<Payment>, p: Payment)
    requires RunStream(db, config, screen, payments).Done?
    requires p in payments && IsAcceptedAsset(p, config)
    ensures p.token in EventTokens(RunStream(db, config, screen, payments).db.events)
  {
    var n := |payments| - 1;
    var mid := RunStream(db, config, screen, payments[..n]).db;
    ProcessAddsToken(mid, config, screen, payments[n]);
    if p != payments[n] {
      assert p in payments[..n];
      ProcessedHasEvent(db, config, screen, payments[..n], p);
    }
  }

  // ----- retries ----------------------------------------------------------------------------

  lemma FailureChangesNothing(db: Db, config: Config, screen: Screen, p: Payment)
    requires ProcessPayment(db, config, screen, p).Failed?
    ensures ProcessPayment(db, config, screen, p).db == db
  {
  }

  lemma {:induction false} StreamContinues(db: Db, config: Config, screen: Screen, a: seq<Payment>, b: seq<Payment>)
    requires RunStream(db, config, screen, a).Done?
    ensures RunStream(db, config, screen, a + b) == RunStream(RunStream(db, config, screen, a).db, config, screen, b)
  {
    if b == [] {
      assert a + b == a;
    } else {
      var n := |b| - 1;
      StreamContinues(db, config, screen, a, b[..n]);
      assert (a + b)[..|a + b| - 1] == a + b[..n];
    }
  }

  /** An error ends the stream whatever follows. */
  lemma {:induction false} StreamStops(db: Db, config: Config, screen: Screen, payments: seq<Payment>, n: nat)
    requires n <= |payments| && RunStream(db, config, screen, payments[..n]).Failed?
    ensures RunStream(db, config, screen, payments) == RunStream(db, config, screen, payments[..n])
  {
    if n < |payments| {
      var m := |payments| - 1;
      assert payments[..m][..n] == payments[..n];
      StreamStops(db, config, screen, payments[..m], n);
    } else {
      assert payments[..n] == payments;
    }
  }

  /** Stopping between two payments, or at one that cannot be processed, and starting again is the
      same as going on. */
  lemma {:induction false} StopBetween(db: Db, config: Config, screen: Screen, payments: seq<Payment>, k: nat)
    requires k <= |payments|
    ensures RunStream(RunStream(db, config, screen, payments[..k]).db, config, screen, payments)
            == RunStream(db, config, screen, payments)
  {
    var tried := RunStream(db, config, screen, payments[..k]);
    if tried.Done? {
      var a, b := payments[..k], payments[k..];
      assert payments == a + b;
      ReplayIsIdle(db, config, screen, a, a);
      StreamContinues(tried.db, config, screen, a, b);
      StreamContinues(db, config, screen, a, b);
    } else {
      StopBetween(db, config, screen, payments, k - 1);
      assert payments[..k][..k - 1] == payments[..k - 1];
      var before := RunStream(db, config, screen, payments[..k - 1]);
      if before.Done? { FailureChangesNothing(before.db, config, screen, payments[k - 1]); }
    }
  }
}
