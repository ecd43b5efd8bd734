/** run_with_backoff: attempts cut short by an error at any await of process_payment, each from the
    boot cursor, and what they leave compared with one undisturbed pass. */
module Retries {
  import opened Options
  import opened PaymentTables
  import opened Matcher
  import opened Reconciler
  import opened Processor

  /** The awaits of process_payment that can return an error. */
  datatype Await = ExistsCheck | Screening | Matching | EventInsert | Transaction | Publishing | CursorSave

  /** An attempt meets an error at an await of its payment-th payment (if it gets to it). */
  datatype Fault = Fault(payment: nat, at: Await)

  predicate IsNew(db: Db, config: Config, p: Payment)
  {
    !EventExists(db.events, p.token) && IsAcceptedAsset(p, config)
  }

  /** Processing p reaches the ledger transaction. */
  predicate Commits(db: Db, config: Config, screen: Screen, p: Payment)
  {
    && IsNew(db, config, p) && screen(p.from) != Blocked
    && var found := MatchInvoice(db.invoices, p);
    found.Some? && p.amount == Some(db.invoices[found.value].gross)
  }

  /** process_payment with an error at one await: what was committed before it stays. */
  function ProcessWith(db: Db, config: Config, screen: Screen, p: Payment, at: Await): Outcome
  {
    var whole := ProcessPayment(db, config, screen, p);
    if at == ExistsCheck then Failed(db)
    else if !IsNew(db, config, p) || whole.Failed? then whole
    else match at
      case ExistsCheck => Failed(db)
      case Screening => Failed(db)
      case Matching => if screen(p.from) == Blocked then whole else Failed(db)
      case EventInsert => Failed(db)
      case Transaction => if Commits(db, config, screen, p) then Failed(db.(events := whole.db.events)) else whole
      case Publishing => if Commits(db, config, screen, p) then Failed(whole.db.(cursor := db.cursor)) else whole
      case CursorSave => Failed(whole.db.(cursor := db.cursor))
  }

  /** run_stream with a fault. */
  function Attempt(db: Db, config: Config, screen: Screen, payments: seq<Payment>, fault: Fault): Outcome
  {
    if fault.payment >= |payments| then RunStream(db, config, screen, payments)
    else match RunStream(db, config, screen, payments[..fault.payment])
      case Failed(d) => Failed(d)
      case Done(d) =>
        match ProcessWith(d, config, screen, payments[fault.payment], fault.at)
        case Failed(e) => Failed(e)
        case Done(e) => RunStream(e, config, screen, payments[fault.payment + 1..])
  }

  /** run_with_backoff: attempts until one succeeds; after the given faults nothing goes wrong any
      more. */
  function Attempts(db: Db, config: Config, screen: Screen, payments: seq<Payment>, faults: seq<Fault>): Outcome
    decreases |faults|
  {
    if faults == [] then RunStream(db, config, screen, payments)
    else match Attempt(db, config, screen, payments, faults[0])
      case Done(d) => Done(d)
      case Failed(d) => Attempts(d, config, screen, payments, faults[1..])
  }

  /** Everything but the cursor: events, ledger, conversions, deliveries, invoices, webhooks. */
  function Tables(db: Db): Db
  {
    db.(cursor := 0)
  }

  /** The tables just before the payment of the fault. */
  function Before(db: Db, config: Config, screen: Screen, payments: seq<Payment>, fault: Fault): Outcome
    requires fault.payment <= |payments|
  {
    RunStream(db, config, screen, payments[..fault.payment])
  }

  /** The attempt stops between writing a matched event and its ledger transaction. */
  predicate LosesCommit(db: Db, config: Config, screen: Screen, payments: seq<Payment>, fault: Fault)
  {
    && fault.payment < |payments| && fault.at == Transaction
    && var mid := Before(db, config, screen, payments, fault);
    && mid.Done? && Commits(mid.db, config, screen, payments[fault.payment])
  }

  predicate SomeCommitLost(db: Db, config: Config, screen: Screen, payments: seq<Payment>, faults: seq<Fault>)
    decreases |faults|
  {
    faults != [] &&
    (|| LosesCommit(db, config, screen, payments, faults[0])
     || var a := Attempt(db, config, screen, payments, faults[0]);
        a.Failed? && SomeCommitLost(a.db, config, screen, payments, faults[1..]))
  }

  /** No payment of the stream is new. */
  predicate AllSeen(db: Db, config: Config, payments: seq<Payment>)
  {
    forall i :: 0 <= i < |payments| ==> !IsNew(db, config, payments[i])
  }

  /** The place of the first new payment, or the end. */
  function FirstNew(db: Db, config: Config, payments: seq<Payment>): (n: nat)
    ensures n <= |payments| && AllSeen(db, config, payments[..n])
    ensures n < |payments| ==> IsNew(db, config, payments[n])
  {
    if payments == [] || IsNew(db, config, payments[0]) then 0
    else
      var n := FirstNew(db, config, payments[1..]);
      assert payments[..n + 1] == [payments[0]] + payments[1..][..n];
      n + 1
  }

  /** The first new payment of the stream, if there is one, cannot be processed. */
  predicate NothingToSave(db: Db, config: Config, payments: seq<Payment>)
  {
    var n := FirstNew(db, config, payments);
    n < |payments| ==> payments[n].amount.None?
  }

  /** The attempt stops after writing an event and before saving its cursor, and nothing that comes
      after that payment saves one. */
  predicate LosesSave(db: Db, config: Config, screen: Screen, payments: seq<Payment>, fault: Fault)
  {
    && fault.payment < |payments|
    && var mid, p := Before(db, config, screen, payments, fault), payments[fault.payment];
    && mid.Done? && IsNew(mid.db, config, p) && p.amount.Some?
    && (fault.at == CursorSave || (fault.at in {Transaction, Publishing} && Commits(mid.db, config, screen, p)))
    && NothingToSave(ProcessPayment(mid.db, config, screen, p).db, config, payments[fault.payment + 1..])
  }

  predicate SomeSaveLost(db: Db, config: Config, screen: Screen, payments: seq<Payment>, faults: seq<Fault>)
    decreases |faults|
  {
    faults != [] &&
    (|| LosesSave(db, config, screen, payments, faults[0])
     || var a := Attempt(db, config, screen, payments, faults[0]);
        a.Failed? && SomeSaveLost(a.db, config, screen, payments, faults[1..]))
  }

  // ----- one payment with a fault -----------------------------------------------------------

  /** Either the fault is never met, or nothing was written, or the event was, with or without the
      transaction. */
  lemma FaultCases(db: Db, config: Config, screen: Screen, p: Payment, at: Await)
    ensures var whole, r := ProcessPayment(db, config, screen, p), ProcessWith(db, config, screen, p, at);
      || r == whole
      || r == Failed(db)
      || (&& whole.Done? && IsNew(db, config, p) && p.amount.Some? && r.Failed?
          && r.db.events == whole.db.events && |whole.db.events| == |db.events| + 1
          && whole.db.events[|db.events|].token == p.token && whole.db.cursor == p.token && r.db.cursor == db.cursor
          && (at == CursorSave || (at in {Transaction, Publishing} && Commits(db, config, screen, p)))
          && (Tables(r.db) == Tables(whole.db) || at == Transaction))
    ensures ProcessWith(db, config, screen, p, at).Done? ==>
              ProcessWith(db, config, screen, p, at) == ProcessPayment(db, config, screen, p)
  {
  }

  lemma WholeCases(db: Db, config: Config, screen: Screen, p: Payment)
    ensures var whole := ProcessPayment(db, config, screen, p);
      && (whole.Failed? <==> IsNew(db, config, p) && p.amount.None?)
      && (whole.Failed? ==> whole.db == db)
      && (!IsNew(db, config, p) ==> whole == Done(db))
      && (IsNew(db, config, p) && whole.Done? ==>
            && whole.db.cursor == p.token && |whole.db.events| == |db.events| + 1
            && whole.db.events[..|db.events|] == db.events && whole.db.events[|db.events|].token == p.token)
      && (Commits(db, config, screen, p) ==>
            whole.Done? && |whole.db.ledger| == |db.ledger| + 1 && whole.db.ledger[..|db.ledger|] == db.ledger
            && whole.db.ledger[|db.ledger|].event == |db.events|)
      && (!Commits(db, config, screen, p) ==> whole.db.ledger == db.ledger)
  {
  }

  // ----- what every pass keeps --------------------------------------------------------------

  /** Ledger rows point to events. */
  predicate EventsKnown(db: Db)
  {
    forall k :: 0 <= k < |db.ledger| ==> db.ledger[k].event < |db.events|
  }

  /** Rows are added for new events only. */
  ghost predicate Grows(db: Db, after: Db)
  {
    && |db.events| <= |after.events| && EventsKnown(after)
    && (forall e: nat :: e < |db.events| ==> (EventInLedger(after.ledger, e) <==> EventInLedger(db.ledger, e)))
    && (forall t: Token :: EventExists(db.events, t) ==> EventExists(after.events, t))
  }

  lemma GrowsFurther(a: Db, b: Db, c: Db)
    requires Grows(a, b) && Grows(b, c)
    ensures Grows(a, c)
  {
  }

  lemma AppendedGrows(db: Db, after: Db)
    requires EventsKnown(db)
    requires |db.events| <= |after.events| && after.events[..|db.events|] == db.events
    requires |db.ledger| <= |after.ledger| && after.ledger[..|db.ledger|] == db.ledger
    requires forall k :: |db.ledger| <= k < |after.ledger| ==> |db.events| <= after.ledger[k].event < |after.events|
    ensures Grows(db, after)
  {
    assert forall k | 0 <= k < |db.ledger| :: after.ledger[k] == db.ledger[k];
    assert forall i | 0 <= i < |db.events| :: after.events[i] == db.events[i];
    forall e: nat | e < |db.events| && EventInLedger(db.ledger, e) ensures EventInLedger(after.ledger, e) {
      var k :| 0 <= k < |db.ledger| && db.ledger[k].event == e;
      assert after.ledger[k].event == e;
    }
    forall t: Token | EventExists(db.events, t) ensures EventExists(after.events, t) {
      var i :| 0 <= i < |db.events| && db.events[i].token == t;
      assert after.events[i].token == t;
    }
  }

  lemma ProcessGrows(db: Db, config: Config, screen: Screen, p: Payment)
    requires EventsKnown(db)
    ensures Grows(db, ProcessPayment(db, config, screen, p).db)
  {
    WholeCases(db, config, screen, p);
    AppendedGrows(db, ProcessPayment(db, config, screen, p).db);
  }

  lemma FaultGrows(db: Db, config: Config, screen: Screen, p: Payment, at: Await)
    requires EventsKnown(db)
    ensures Grows(db, ProcessWith(db, config, screen, p, at).db)
  {
    WholeCases(db, config, screen, p);
    FaultCases(db, config, screen, p, at);
    AppendedGrows(db, ProcessWith(db, config, screen, p, at).db);
  }

  lemma {:induction false} StreamGrows(db: Db, config: Config, screen: Screen, payments: seq<Payment>)
    requires EventsKnown(db)
    ensures Grows(db, RunStream(db, config, screen, payments).db)
  {
    if payments != [] {
      var n := |payments| - 1;
      StreamGrows(db, config, screen, payments[..n]);
      var mid := RunStream(db, config, screen, payments[..n]);
      if mid.Done? {
        ProcessGrows(mid.db, config, screen, payments[n]);
        GrowsFurther(db, mid.db, ProcessPayment(mid.db, config, screen, payments[n]).db);
      }
    }
  }

  lemma AttemptGrows(db: Db, config: Config, screen: Screen, payments: seq<Payment>, fault: Fault)
    requires EventsKnown(db)
    ensures Grows(db, Attempt(db, config, screen, payments, fault).db)
  {
    if fault.payment >= |payments| {
      StreamGrows(db, config, screen, payments);
    } else {
      var mid := Before(db, config, screen, payments, fault);
      StreamGrows(db, config, screen, payments[..fault.payment]);
      if mid.Done? {
        var r := ProcessWith(mid.db, config, screen, payments[fault.payment], fault.at);
        FaultGrows(mid.db, config, screen, payments[fault.payment], fault.at);
        GrowsFurther(db, mid.db, r.db);
        if r.Done? {
          StreamGrows(r.db, config, screen, payments[fault.payment + 1..]);
          GrowsFurther(db, r.db, Attempt(db, config, screen, payments, fault).db);
        }
      }
    }
  }

  lemma {:induction false} AttemptsGrow(
      db: Db, config: Config, screen: Screen, payments: seq<Payment>, faults: seq<Fault>)
    requires EventsKnown(db)
    ensures Grows(db, Attempts(db, config, screen, payments, faults).db)
    decreases |faults|
  {
    if faults == [] {
      StreamGrows(db, config, screen, payments);
    } else {
      var a := Attempt(db, config, screen, payments, faults[0]);
      AttemptGrows(db, config, screen, payments, faults[0]);
      if a.Failed? {
        AttemptsGrow(a.db, config, screen, payments, faults[1..]);
        GrowsFurther(db, a.db, Attempts(db, config, screen, payments, faults).db);
      }
    }
  }

  // ----- passes side by side ----------------------------------------------------------------

  /** Payments of which none is new change nothing. */
  lemma {:induction false} SeenIsIdle(db: Db, config: Config, screen: Screen, payments: seq<Payment>)
    requires AllSeen(db, config, payments)
    ensures RunStream(db, config, screen, payments) == Done(db)
  {
    if payments != [] { SeenIsIdle(db, config, screen, payments[..|payments| - 1]); }
  }

  lemma SeenStays(a: Db, b: Db, config: Config, payments: seq<Payment>)
    requires Grows(a, b) && AllSeen(a, config, payments)
    ensures AllSeen(b, config, payments)
  {
    forall i | 0 <= i < |payments| ensures !IsNew(b, config, payments[i]) {
      assert !IsNew(a, config, payments[i]);
    }
  }

  lemma ProcessedIsSeen(db: Db, config: Config, screen: Screen, p: Payment)
    requires ProcessPayment(db, config, screen, p).Done?
    ensures !IsNew(ProcessPayment(db, config, screen, p).db, config, p)
  {
    WholeCases(db, config, screen, p);
  }

  lemma OneMoreSeen(db: Db, config: Config, payments: seq<Payment>)
    requires payments != []
    requires AllSeen(db, config, payments[..|payments| - 1]) && !IsNew(db, config, payments[|payments| - 1])
    ensures AllSeen(db, config, payments)
  {
    forall i | 0 <= i < |payments| ensures !IsNew(db, config, payments[i]) {
      if i < |payments| - 1 { assert payments[..|payments| - 1][i] == payments[i]; }
    }
  }

  /** What a pass has processed is not new after it. */
  lemma {:induction false} PassedIsSeen(db: Db, config: Config, screen: Screen, payments: seq<Payment>)
    requires EventsKnown(db) && RunStream(db, config, screen, payments).Done?
    ensures AllSeen(RunStream(db, config, screen, payments).db, config, payments)
  {
    if payments != [] {
      var n := |payments| - 1;
      var mid := RunStream(db, config, screen, payments[..n]).db;
      PassedIsSeen(db, config, screen, payments[..n]);
      StreamGrows(db, config, screen, payments[..n]);
      ProcessGrows(mid, config, screen, payments[n]);
      ProcessedIsSeen(mid, config, screen, payments[n]);
      var after := ProcessPayment(mid, config, screen, payments[n]).db;
      SeenStays(mid, after, config, payments[..n]);
      OneMoreSeen(after, config, payments);
    }
  }

  predicate SameTokens(a: Db, b: Db)
  {
    |a.events| == |b.events| && forall i :: 0 <= i < |a.events| ==> a.events[i].token == b.events[i].token
  }

  lemma BothAppend(a: Db, b: Db, x: Db, y: Db)
    requires SameTokens(a, b) && |x.events| == |y.events| == |a.events| + 1
    requires x.events[..|a.events|] == a.events && y.events[..|b.events|] == b.events
    requires x.events[|a.events|].token == y.events[|b.events|].token
    ensures SameTokens(x, y)
  {
    assert forall i | 0 <= i < |a.events| :: x.events[i] == a.events[i];
    assert forall i | 0 <= i < |b.events| :: y.events[i] == b.events[i];
  }

  lemma NewTogether(a: Db, b: Db, config: Config, p: Payment)
    requires SameTokens(a, b)
    ensures IsNew(a, config, p) <==> IsNew(b, config, p)
  {
  }

  lemma ProcessInParallel(a: Db, b: Db, config: Config, screen: Screen, p: Payment)
    requires SameTokens(a, b)
    ensures var x, y := ProcessPayment(a, config, screen, p), ProcessPayment(b, config, screen, p);
      && (x.Done? <==> y.Done?) && SameTokens(x.db, y.db)
      && |x.db.events| >= |a.events|
      && if |x.db.events| > |a.events| then x.db.cursor == y.db.cursor
         else x.db.cursor == a.cursor && y.db.cursor == b.cursor
  {
    WholeCases(a, config, screen, p);
    WholeCases(b, config, screen, p);
    NewTogether(a, b, config, p);
    if IsNew(a, config, p) && p.amount.Some? {
      BothAppend(a, b, ProcessPayment(a, config, screen, p).db, ProcessPayment(b, config, screen, p).db);
    }
  }

  /** Which payments are recorded, whether the pass ends well and what cursor it saves depend on the
      recorded tokens alone. */
  lemma {:induction false} StreamInParallel(a: Db, b: Db, config: Config, screen: Screen, payments: seq<Payment>)
    requires SameTokens(a, b)
    ensures var x, y := RunStream(a, config, screen, payments), RunStream(b, config, screen, payments);
      && (x.Done? <==> y.Done?) && SameTokens(x.db, y.db)
      && |x.db.events| >= |a.events|
      && if |x.db.events| > |a.events| then x.db.cursor == y.db.cursor
         else x.db.cursor == a.cursor && y.db.cursor == b.cursor
  {
    if payments != [] {
      var n := |payments| - 1;
      StreamInParallel(a, b, config, screen, payments[..n]);
      var x, y := RunStream(a, config, screen, payments[..n]), RunStream(b, config, screen, payments[..n]);
      if x.Done? { ProcessInParallel(x.db, y.db, config, screen, payments[n]); }
    }
  }

  /** No decision reads the cursor. */
  lemma {:induction false} CursorIsNotRead(a: Db, b: Db, config: Config, screen: Screen, payments: seq<Payment>)
    requires Tables(a) == Tables(b)
    ensures var x, y := RunStream(a, config, screen, payments), RunStream(b, config, screen, payments);
      (x.Done? <==> y.Done?) && Tables(x.db) == Tables(y.db)
  {
    if payments != [] {
      var n := |payments| - 1;
      CursorIsNotRead(a, b, config, screen, payments[..n]);
      var x, y := RunStream(a, config, screen, payments[..n]), RunStream(b, config, screen, payments[..n]);
      if x.Done? { ProcessReadsNoCursor(x.db, y.db, config, screen, payments[n]); }
    }
  }

  lemma ProcessReadsNoCursor(a: Db, b: Db, config: Config, screen: Screen, p: Payment)
    requires Tables(a) == Tables(b)
    ensures var x, y := ProcessPayment(a, config, screen, p), ProcessPayment(b, config, screen, p);
      (x.Done? <==> y.Done?) && Tables(x.db) == Tables(y.db)
  {
    assert b == a.(cursor := b.cursor);
    if IsNew(a, config, p) && screen(p.from) != Blocked {
      assert Matched(b, screen(p.from), p).Done? <==> Matched(a, screen(p.from), p).Done?;
    }
  }

  // ----- one retry --------------------------------------------------------------------------

  /** An attempt is a pass, or stops where a pass over fewer payments does, or stops inside its
      payment. */
  lemma AttemptCases(db: Db, config: Config, screen: Screen, payments: seq<Payment>, fault: Fault)
    requires fault.payment < |payments|
    ensures var mid, a := Before(db, config, screen, payments, fault), Attempt(db, config, screen, payments, fault);
      var once := RunStream(db, config, screen, payments);
      if mid.Failed? then a == mid
      else
        var p, rest := payments[fault.payment], payments[fault.payment + 1..];
        var whole, r := ProcessPayment(mid.db, config, screen, p), ProcessWith(mid.db, config, screen, p, fault.at);
        && once == (if whole.Failed? then whole else RunStream(whole.db, config, screen, rest))
        && (r == whole ==> a == once)
        && (r.Failed? ==> a == r)
  {
    var k := fault.payment;
    var mid := Before(db, config, screen, payments, fault);
    if mid.Done? {
      var front, rest := payments[..k + 1], payments[k + 1..];
      assert front[..k] == payments[..k] && payments == front + rest;
      var whole := ProcessPayment(mid.db, config, screen, payments[k]);
      assert RunStream(db, config, screen, front) == whole;
      if whole.Done? {
        StreamContinues(db, config, screen, front, rest);
      } else {
        StreamStops(db, config, screen, payments, k + 1);
      }
    }
  }

  /** When an attempt ended where a shorter pass ends, the next pass does what one pass does. */
  lemma BoundaryRetry(db: Db, config: Config, screen: Screen, payments: seq<Payment>, fault: Fault)
    requires fault.payment < |payments| ==>
               Attempt(db, config, screen, payments, fault).db == Before(db, config, screen, payments, fault).db
    requires Attempt(db, config, screen, payments, fault).Failed?
    ensures RunStream(Attempt(db, config, screen, payments, fault).db, config, screen, payments)
            == RunStream(db, config, screen, payments)
  {
    var k := if fault.payment < |payments| then fault.payment else |payments|;
    assert payments[..|payments|] == payments;
    StopBetween(db, config, screen, payments, k);
  }

  /** The attempt stopped inside its payment, after writing the event. */
  predicate StopsAfterEvent(db: Db, config: Config, screen: Screen, payments: seq<Payment>, fault: Fault)
  {
    && fault.payment < |payments|
    && var mid, p := Before(db, config, screen, payments, fault), payments[fault.payment];
    && mid.Done? && IsNew(mid.db, config, p) && p.amount.Some?
    && (fault.at == CursorSave || (fault.at in {Transaction, Publishing} && Commits(mid.db, config, screen, p)))
  }

  lemma WhereItStops(db: Db, config: Config, screen: Screen, payments: seq<Payment>, fault: Fault)
    requires Attempt(db, config, screen, payments, fault).Failed?
    ensures !StopsAfterEvent(db, config, screen, payments, fault) ==>
              RunStream(Attempt(db, config, screen, payments, fault).db, config, screen, payments)
              == RunStream(db, config, screen, payments)
  {
    if fault.payment >= |payments| {
      BoundaryRetry(db, config, screen, payments, fault);
    } else {
      AttemptCases(db, config, screen, payments, fault);
      var mid := Before(db, config, screen, payments, fault);
      if mid.Done? {
        FaultCases(mid.db, config, screen, payments[fault.payment], fault.at);
        WholeCases(mid.db, config, screen, payments[fault.payment]);
      }
      if !StopsAfterEvent(db, config, screen, payments, fault) {
        if mid.Done? && Attempt(db, config, screen, payments, fault).db != mid.db {
          assert Attempt(db, config, screen, payments, fault) == RunStream(db, config, screen, payments);
          BoundaryRetry(db, config, screen, payments, Fault(|payments|, fault.at));
        } else {
          BoundaryRetry(db, config, screen, payments, fault);
        }
      }
    }
  }

  lemma FaultAfterEvent(db: Db, config: Config, screen: Screen, p: Payment, at: Await)
    requires IsNew(db, config, p) && p.amount.Some?
    requires at == CursorSave || (at in {Transaction, Publishing} && Commits(db, config, screen, p))
    ensures var whole, r := ProcessPayment(db, config, screen, p), ProcessWith(db, config, screen, p, at);
      r.Failed? && whole.Done? && SameTokens(r.db, whole.db) && !IsNew(r.db, config, p)
  {
    FaultCases(db, config, screen, p, at);
    WholeCases(db, config, screen, p);
    assert ProcessWith(db, config, screen, p, at).db.events[|db.events|].token == p.token;
  }

  lemma PassFrom(db: Db, config: Config, screen: Screen, payments: seq<Payment>, k: nat)
    requires k <= |payments| && AllSeen(db, config, payments[..k])
    ensures RunStream(db, config, screen, payments) == RunStream(db, config, screen, payments[k..])
  {
    assert payments == payments[..k] + payments[k..];
    SeenIsIdle(db, config, screen, payments[..k]);
    StreamContinues(db, config, screen, payments[..k], payments[k..]);
  }

  lemma SeenAfterEvent(db: Db, config: Config, screen: Screen, front: seq<Payment>, p: Payment, at: Await)
    requires EventsKnown(db) && AllSeen(db, config, front) && IsNew(db, config, p) && p.amount.Some?
    requires at == CursorSave || (at in {Transaction, Publishing} && Commits(db, config, screen, p))
    ensures AllSeen(ProcessWith(db, config, screen, p, at).db, config, front + [p])
  {
    var stopped := ProcessWith(db, config, screen, p, at).db;
    FaultAfterEvent(db, config, screen, p, at);
    FaultGrows(db, config, screen, p, at);
    SeenStays(db, stopped, config, front);
    assert (front + [p])[..|front|] == front;
    OneMoreSeen(stopped, config, front + [p]);
  }

  lemma SeenBeforeStop(db: Db, config: Config, screen: Screen, payments: seq<Payment>)
    requires EventsKnown(db) && RunStream(db, config, screen, payments).Done?
    ensures EventsKnown(RunStream(db, config, screen, payments).db)
    ensures AllSeen(RunStream(db, config, screen, payments).db, config, payments)
  {
    StreamGrows(db, config, screen, payments);
    PassedIsSeen(db, config, screen, payments);
  }

  lemma SeenAtStop(db: Db, config: Config, screen: Screen, payments: seq<Payment>, fault: Fault)
    requires EventsKnown(db) && StopsAfterEvent(db, config, screen, payments, fault)
    ensures var mid := Before(db, config, screen, payments, fault).db;
      AllSeen(ProcessWith(mid, config, screen, payments[fault.payment], fault.at).db, config,
              payments[..fault.payment] + [payments[fault.payment]])
  {
    SeenBeforeStop(db, config, screen, payments[..fault.payment]);
    SeenAfterEvent(Before(db, config, screen, payments, fault).db, config, screen, payments[..fault.payment],
                   payments[fault.payment], fault.at);
  }

  lemma SkipsToRest(db: Db, config: Config, screen: Screen, payments: seq<Payment>, fault: Fault)
    requires EventsKnown(db) && StopsAfterEvent(db, config, screen, payments, fault)
    ensures var mid := Before(db, config, screen, payments, fault).db;
      var stopped := ProcessWith(mid, config, screen, payments[fault.payment], fault.at).db;
      && AllSeen(stopped, config, payments[..fault.payment + 1])
      && RunStream(stopped, config, screen, payments)
         == RunStream(stopped, config, screen, payments[fault.payment + 1..])
  {
    var mid, k := Before(db, config, screen, payments, fault).db, fault.payment;
    SeenAtStop(db, config, screen, payments, fault);
    assert payments[..k + 1] == payments[..k] + [payments[k]];
    PassFrom(ProcessWith(mid, config, screen, payments[k], fault.at).db, config, screen, payments, k + 1);
  }

  lemma AttemptAtStop(db: Db, config: Config, screen: Screen, payments: seq<Payment>, fault: Fault)
    requires StopsAfterEvent(db, config, screen, payments, fault)
    ensures var a := Attempt(db, config, screen, payments, fault);
      var mid := Before(db, config, screen, payments, fault).db;
      var p, rest := payments[fault.payment], payments[fault.payment + 1..];
      var whole := ProcessPayment(mid, config, screen, p);
      && a == ProcessWith(mid, config, screen, p, fault.at) && a.Failed? && whole.Done?
      && RunStream(db, config, screen, payments) == RunStream(whole.db, config, screen, rest)
      && SameTokens(a.db, whole.db)
  {
    FaultAfterEvent(Before(db, config, screen, payments, fault).db, config, screen, payments[fault.payment], fault.at);
    AttemptCases(db, config, screen, payments, fault);
  }

  /** The state after a stop behind the event: the payments up to it are seen, the rest is still to
      come, and the recorded tokens are those of the undisturbed pass. */
  lemma StoppedInside(db: Db, config: Config, screen: Screen, payments: seq<Payment>, fault: Fault)
    requires EventsKnown(db) && StopsAfterEvent(db, config, screen, payments, fault)
    ensures var a := Attempt(db, config, screen, payments, fault);
      var mid := Before(db, config, screen, payments, fault).db;
      var p, rest := payments[fault.payment], payments[fault.payment + 1..];
      var whole := ProcessPayment(mid, config, screen, p);
      && a == ProcessWith(mid, config, screen, p, fault.at) && a.Failed? && whole.Done?
      && RunStream(db, config, screen, payments) == RunStream(whole.db, config, screen, rest)
      && RunStream(a.db, config, screen, payments) == RunStream(a.db, config, screen, rest)
      && SameTokens(a.db, whole.db) && AllSeen(a.db, config, payments[..fault.payment + 1])
  {
    AttemptAtStop(db, config, screen, payments, fault);
    SkipsToRest(db, config, screen, payments, fault);
  }

  /** Unless a commit was lost, one retry makes up for the error in every table but the cursor. */
  lemma OneRetry(db: Db, config: Config, screen: Screen, payments: seq<Payment>, fault: Fault)
    requires EventsKnown(db) && Attempt(db, config, screen, payments, fault).Failed?
    ensures var again := RunStream(Attempt(db, config, screen, payments, fault).db, config, screen, payments);
      var once := RunStream(db, config, screen, payments);
      && (again.Done? <==> once.Done?)
      && (!LosesCommit(db, config, screen, payments, fault) ==> Tables(again.db) == Tables(once.db))
  {
    if StopsAfterEvent(db, config, screen, payments, fault) {
      var mid := Before(db, config, screen, payments, fault).db;
      var p, rest := payments[fault.payment], payments[fault.payment + 1..];
      StoppedInside(db, config, screen, payments, fault);
      var stopped, whole := ProcessWith(mid, config, screen, p, fault.at).db, ProcessPayment(mid, config, screen, p).db;
      StreamInParallel(stopped, whole, config, screen, rest);
      if !LosesCommit(db, config, screen, payments, fault) {
        FaultCases(mid, config, screen, p, fault.at);
        CursorIsNotRead(stopped, whole, config, screen, rest);
      }
    } else {
      WhereItStops(db, config, screen, payments, fault);
    }
  }

  lemma CommitRow(db: Db, config: Config, screen: Screen, p: Payment)
    requires EventsKnown(db) && Commits(db, config, screen, p)
    ensures var whole := ProcessPayment(db, config, screen, p).db;
      var stopped := ProcessWith(db, config, screen, p, Transaction).db;
      && Grows(db, whole) && |db.events| < |whole.events| && EventInLedger(whole.ledger, |db.events|)
      && |db.events| < |stopped.events| && !EventInLedger(stopped.ledger, |db.events|)
  {
    WholeCases(db, config, screen, p);
    ProcessGrows(db, config, screen, p);
    var whole := ProcessPayment(db, config, screen, p).db;
    assert whole.ledger[|db.ledger|].event == |db.events|;
  }

  /** A lost commit: the undisturbed pass has a ledger row for the event, the stopped attempt has the
      event and no row. */
  lemma LostRow(db: Db, config: Config, screen: Screen, payments: seq<Payment>, fault: Fault) returns (e: nat)
    requires EventsKnown(db) && LosesCommit(db, config, screen, payments, fault)
    ensures var a := Attempt(db, config, screen, payments, fault);
      && a.Failed? && e < |a.db.events| && !EventInLedger(a.db.ledger, e)
      && EventInLedger(RunStream(db, config, screen, payments).db.ledger, e)
  {
    var mid, p := Before(db, config, screen, payments, fault).db, payments[fault.payment];
    e := |mid.events|;
    StreamGrows(db, config, screen, payments[..fault.payment]);
    CommitRow(mid, config, screen, p);
    WholeCases(mid, config, screen, p);
    StoppedInside(db, config, screen, payments, fault);
    StreamGrows(ProcessPayment(mid, config, screen, p).db, config, screen, payments[fault.payment + 1..]);
  }

  /** Errors at any awaits and retries from the boot cursor leave the events, ledger, conversions,
      deliveries and invoices of one undisturbed pass if and only if no error fell between writing a
      matched event and its ledger transaction. They end well if and only if that pass does. */
  lemma {:induction false} RetriesRefineIff(
      db: Db, config: Config, screen: Screen, payments: seq<Payment>, faults: seq<Fault>)
    requires EventsKnown(db)
    ensures var once, again := RunStream(db, config, screen, payments), Attempts(db, config, screen, payments, faults);
      && (again.Done? <==> once.Done?)
      && (Tables(again.db) == Tables(once.db) <==> !SomeCommitLost(db, config, screen, payments, faults))
    decreases |faults|
  {
    if faults != [] {
      var a := Attempt(db, config, screen, payments, faults[0]);
      if a.Done? {
        UndisturbedIfDone(db, config, screen, payments, faults[0]);
      } else {
        AttemptGrows(db, config, screen, payments, faults[0]);
        OneRetry(db, config, screen, payments, faults[0]);
        RetriesRefineIff(a.db, config, screen, payments, faults[1..]);
        if LosesCommit(db, config, screen, payments, faults[0]) {
          var e := LostRow(db, config, screen, payments, faults[0]);
          AttemptsGrow(a.db, config, screen, payments, faults[1..]);
        }
      }
    }
  }

  lemma UndisturbedIfDone(db: Db, config: Config, screen: Screen, payments: seq<Payment>, fault: Fault)
    requires Attempt(db, config, screen, payments, fault).Done?
    ensures Attempt(db, config, screen, payments, fault) == RunStream(db, config, screen, payments)
    ensures EventsKnown(db) ==> !StopsAfterEvent(db, config, screen, payments, fault)
  {
    if fault.payment < |payments| {
      AttemptCases(db, config, screen, payments, fault);
      var mid := Before(db, config, screen, payments, fault);
      FaultCases(mid.db, config, screen, payments[fault.payment], fault.at);
      if EventsKnown(db) && StopsAfterEvent(db, config, screen, payments, fault) {
        StoppedInside(db, config, screen, payments, fault);
      }
    }
  }

  // ----- the cursor -------------------------------------------------------------------------

  /** The saved cursor is not the token of a payment still to be recorded. */
  predicate CursorKnown(db: Db, config: Config, payments: seq<Payment>)
  {
    forall i :: 0 <= i < |payments| && IsNew(db, config, payments[i]) ==> payments[i].token != db.cursor
  }

  ghost predicate KeepsCursorKnown(a: Db, b: Db)
  {
    && (forall t: Token :: EventExists(a.events, t) ==> EventExists(b.events, t))
    && (b.cursor == a.cursor || EventExists(b.events, b.cursor))
  }

  lemma CursorStaysKnown(a: Db, b: Db, config: Config, payments: seq<Payment>)
    requires CursorKnown(a, config, payments) && KeepsCursorKnown(a, b)
    ensures CursorKnown(b, config, payments)
  {
    forall i | 0 <= i < |payments| && IsNew(b, config, payments[i]) ensures payments[i].token != b.cursor {
      assert IsNew(a, config, payments[i]);
    }
  }

  lemma FaultKeepsCursorKnown(db: Db, config: Config, screen: Screen, p: Payment, at: Await)
    requires EventsKnown(db)
    ensures KeepsCursorKnown(db, ProcessWith(db, config, screen, p, at).db)
    ensures KeepsCursorKnown(db, ProcessPayment(db, config, screen, p).db)
  {
    WholeCases(db, config, screen, p);
    FaultCases(db, config, screen, p, at);
    FaultGrows(db, config, screen, p, at);
    ProcessGrows(db, config, screen, p);
    var whole := ProcessPayment(db, config, screen, p);
    if IsNew(db, config, p) && whole.Done? {
      assert whole.db.events[|db.events|].token == whole.db.cursor;
    }
  }

  lemma {:induction false} StreamKeepsCursorKnown(db: Db, config: Config, screen: Screen, payments: seq<Payment>)
    requires EventsKnown(db)
    ensures KeepsCursorKnown(db, RunStream(db, config, screen, payments).db)
  {
    if payments != [] {
      var n := |payments| - 1;
      StreamKeepsCursorKnown(db, config, screen, payments[..n]);
      StreamGrows(db, config, screen, payments[..n]);
      var mid := RunStream(db, config, screen, payments[..n]);
      if mid.Done? { FaultKeepsCursorKnown(mid.db, config, screen, payments[n], ExistsCheck); }
    }
  }

  lemma FirstNewIs(db: Db, config: Config, payments: seq<Payment>, n: nat)
    requires n <= |payments| && AllSeen(db, config, payments[..n])
    requires n < |payments| ==> IsNew(db, config, payments[n])
    ensures FirstNew(db, config, payments) == n
  {
    var m := FirstNew(db, config, payments);
    assert forall i | 0 <= i < n :: payments[..n][i] == payments[i];
    assert forall i | 0 <= i < m :: payments[..m][i] == payments[i];
  }

  lemma NothingInFront(db: Db, config: Config, payments: seq<Payment>, k: nat)
    requires k <= |payments| && NothingToSave(db, config, payments)
    ensures NothingToSave(db, config, payments[..k])
    ensures k < |payments| && AllSeen(db, config, payments[..k]) ==>
              !IsNew(db, config, payments[k]) || payments[k].amount.None?
  {
    var n, front := FirstNew(db, config, payments), payments[..k];
    if n < k {
      assert front[..n] == payments[..n] && front[n] == payments[n];
      FirstNewIs(db, config, front, n);
    } else {
      assert forall i | 0 <= i < k :: front[i] == payments[..n][i];
      assert front[..k] == front;
      FirstNewIs(db, config, front, k);
    }
  }

  lemma PassToFirstNew(db: Db, config: Config, screen: Screen, payments: seq<Payment>)
    ensures var n := FirstNew(db, config, payments);
      && RunStream(db, config, screen, payments[..n]) == Done(db)
      && (n < |payments| ==>
            RunStream(db, config, screen, payments[..n + 1]) == ProcessPayment(db, config, screen, payments[n]))
  {
    var n := FirstNew(db, config, payments);
    SeenIsIdle(db, config, screen, payments[..n]);
    if n < |payments| { assert payments[..n + 1][..n] == payments[..n]; }
  }

  /** A stream with nothing to save changes nothing. */
  lemma NothingIsIdle(db: Db, config: Config, screen: Screen, payments: seq<Payment>)
    requires NothingToSave(db, config, payments)
    ensures RunStream(db, config, screen, payments).db == db
    ensures RunStream(db, config, screen, payments).Done? ==> AllSeen(db, config, payments)
  {
    var n := FirstNew(db, config, payments);
    PassToFirstNew(db, config, screen, payments);
    if n == |payments| {
      assert payments[..n] == payments;
    } else {
      WholeCases(db, config, screen, payments[n]);
      StreamStops(db, config, screen, payments, n + 1);
    }
  }

  lemma IdleAttempt(db: Db, config: Config, screen: Screen, payments: seq<Payment>, fault: Fault)
    requires NothingToSave(db, config, payments)
    ensures Attempt(db, config, screen, payments, fault).db == db
  {
    NothingIsIdle(db, config, screen, payments);
    var k := fault.payment;
    if k < |payments| {
      NothingInFront(db, config, payments, k);
      NothingIsIdle(db, config, screen, payments[..k]);
      AttemptCases(db, config, screen, payments, fault);
      FaultCases(db, config, screen, payments[k], fault.at);
      WholeCases(db, config, screen, payments[k]);
    }
  }

  lemma {:induction false} IdleAttempts(
      db: Db, config: Config, screen: Screen, payments: seq<Payment>, faults: seq<Fault>)
    requires NothingToSave(db, config, payments)
    ensures Attempts(db, config, screen, payments, faults).db == db
    decreases |faults|
  {
    if faults == [] {
      NothingIsIdle(db, config, screen, payments);
    } else {
      IdleAttempt(db, config, screen, payments, faults[0]);
      IdleAttempts(db, config, screen, payments, faults[1..]);
    }
  }

  lemma CursorBehind(db: Db, config: Config, screen: Screen, payments: seq<Payment>, k: nat)
    requires EventsKnown(db) && CursorKnown(db, config, payments) && k < |payments|
    requires IsNew(RunStream(db, config, screen, payments[..k]).db, config, payments[k])
    ensures RunStream(db, config, screen, payments[..k]).db.cursor != payments[k].token
  {
    StreamKeepsCursorKnown(db, config, screen, payments[..k]);
    CursorStaysKnown(db, RunStream(db, config, screen, payments[..k]).db, config, payments);
  }

  lemma StopKeepsCursor(db: Db, config: Config, screen: Screen, p: Payment, at: Await)
    requires IsNew(db, config, p) && p.amount.Some?
    requires at == CursorSave || (at in {Transaction, Publishing} && Commits(db, config, screen, p))
    ensures ProcessWith(db, config, screen, p, at).db.cursor == db.cursor
    ensures ProcessPayment(db, config, screen, p).db.cursor == p.token
  {
  }

  /** A save lost before a rest with nothing to save stays lost: there is nothing to save any more, and
      the cursor is not that of the undisturbed pass. */
  lemma SaveStaysLost(db: Db, config: Config, screen: Screen, payments: seq<Payment>, fault: Fault)
    requires EventsKnown(db) && CursorKnown(db, config, payments) && LosesSave(db, config, screen, payments, fault)
    ensures var a := Attempt(db, config, screen, payments, fault);
      && a.Failed? && NothingToSave(a.db, config, payments)
      && a.db.cursor != RunStream(db, config, screen, payments).db.cursor
  {
    var k := fault.payment;
    var mid, p, rest := Before(db, config, screen, payments, fault).db, payments[k], payments[k + 1..];
    var stopped, whole := ProcessWith(mid, config, screen, p, fault.at).db, ProcessPayment(mid, config, screen, p).db;
    StoppedInside(db, config, screen, payments, fault);
    CursorBehind(db, config, screen, payments, k);
    StopKeepsCursor(mid, config, screen, p, fault.at);
    NothingIsIdle(whole, config, screen, rest);
    NothingAfterSeen(stopped, whole, config, payments, k + 1);
  }

  lemma NothingAfterSeen(a: Db, b: Db, config: Config, payments: seq<Payment>, k: nat)
    requires k <= |payments| && SameTokens(a, b)
    requires AllSeen(a, config, payments[..k]) && NothingToSave(b, config, payments[k..])
    ensures NothingToSave(a, config, payments)
  {
    var rest := payments[k..];
    var n := FirstNew(b, config, rest);
    var front := payments[..k + n];
    forall i | 0 <= i < k + n ensures !IsNew(a, config, front[i]) {
      NewTogether(a, b, config, front[i]);
      assert if i < k then front[i] == payments[..k][i] else front[i] == rest[..n][i - k];
    }
    if k + n < |payments| { NewTogether(a, b, config, rest[n]); }
    FirstNewIs(a, config, payments, k + n);
  }

  /** When something is saved after the stop, its cursor is saved like in the undisturbed pass. */
  lemma LaterSave(db: Db, config: Config, screen: Screen, payments: seq<Payment>, fault: Fault)
    requires EventsKnown(db)
    requires Attempt(db, config, screen, payments, fault).Failed? && !LosesSave(db, config, screen, payments, fault)
    ensures RunStream(Attempt(db, config, screen, payments, fault).db, config, screen, payments).db.cursor
            == RunStream(db, config, screen, payments).db.cursor
  {
    if StopsAfterEvent(db, config, screen, payments, fault) {
      var k := fault.payment;
      var mid, p, rest := Before(db, config, screen, payments, fault).db, payments[k], payments[k + 1..];
      StoppedInside(db, config, screen, payments, fault);
      var stopped, whole := ProcessWith(mid, config, screen, p, fault.at).db, ProcessPayment(mid, config, screen, p).db;
      CursorsMeet(stopped, whole, config, screen, rest);
    } else {
      WhereItStops(db, config, screen, payments, fault);
    }
  }

  lemma RecordsThen(db: Db, config: Config, screen: Screen, front: seq<Payment>, rest: seq<Payment>)
    requires RunStream(db, config, screen, front).Done?
    requires |RunStream(db, config, screen, front).db.events| > |db.events|
    ensures |RunStream(db, config, screen, front + rest).db.events| > |db.events|
  {
    var mid := RunStream(db, config, screen, front).db;
    StreamContinues(db, config, screen, front, rest);
    StreamInParallel(mid, mid, config, screen, rest);
  }

  lemma PrefixRecords(db: Db, config: Config, screen: Screen, payments: seq<Payment>, k: nat)
    requires k <= |payments| && RunStream(db, config, screen, payments[..k]).Done?
    requires |RunStream(db, config, screen, payments[..k]).db.events| > |db.events|
    ensures |RunStream(db, config, screen, payments).db.events| > |db.events|
  {
    RecordsThen(db, config, screen, payments[..k], payments[k..]);
    assert payments[..k] + payments[k..] == payments;
  }

  lemma FirstNewRecorded(db: Db, config: Config, screen: Screen, payments: seq<Payment>) returns (k: nat)
    requires !NothingToSave(db, config, payments)
    ensures k <= |payments| && RunStream(db, config, screen, payments[..k]).Done?
    ensures |RunStream(db, config, screen, payments[..k]).db.events| > |db.events|
  {
    k := FirstNew(db, config, payments) + 1;
    PassToFirstNew(db, config, screen, payments);
    WholeCases(db, config, screen, payments[k - 1]);
  }

  lemma SomethingRecorded(db: Db, config: Config, screen: Screen, payments: seq<Payment>)
    requires !NothingToSave(db, config, payments)
    ensures |RunStream(db, config, screen, payments).db.events| > |db.events|
  {
    var k := FirstNewRecorded(db, config, screen, payments);
    PrefixRecords(db, config, screen, payments, k);
  }

  lemma CursorsMeet(stopped: Db, whole: Db, config: Config, screen: Screen, rest: seq<Payment>)
    requires SameTokens(stopped, whole) && !NothingToSave(whole, config, rest)
    ensures RunStream(stopped, config, screen, rest).db.cursor == RunStream(whole, config, screen, rest).db.cursor
  {
    StreamInParallel(whole, stopped, config, screen, rest);
    SomethingRecorded(whole, config, screen, rest);
  }

  /** The cursor ends where one undisturbed pass leaves it if and only if no error fell between the
      event and the saved cursor of the last payment that saves one: the retry skips it and saves
      nothing. */
  lemma {:induction false} CursorRefinesIff(
      db: Db, config: Config, screen: Screen, payments: seq<Payment>, faults: seq<Fault>)
    requires EventsKnown(db) && CursorKnown(db, config, payments)
    ensures Attempts(db, config, screen, payments, faults).db.cursor
            == RunStream(db, config, screen, payments).db.cursor
            <==> !SomeSaveLost(db, config, screen, payments, faults)
    decreases |faults|
  {
    if faults != [] {
      var a := Attempt(db, config, screen, payments, faults[0]);
      if a.Done? {
        UndisturbedIfDone(db, config, screen, payments, faults[0]);
      } else if LosesSave(db, config, screen, payments, faults[0]) {
        SaveStaysLost(db, config, screen, payments, faults[0]);
        IdleAttempts(a.db, config, screen, payments, faults[1..]);
      } else {
        LaterSave(db, config, screen, payments, faults[0]);
        AttemptGrows(db, config, screen, payments, faults[0]);
        AttemptKeepsCursorKnown(db, config, screen, payments, faults[0]);
        CursorStaysKnown(db, a.db, config, payments);
        CursorRefinesIff(a.db, config, screen, payments, faults[1..]);
      }
    }
  }

  lemma AttemptKeepsCursorKnown(db: Db, config: Config, screen: Screen, payments: seq<Payment>, fault: Fault)
    requires EventsKnown(db) && Attempt(db, config, screen, payments, fault).Failed?
    ensures KeepsCursorKnown(db, Attempt(db, config, screen, payments, fault).db)
  {
    StreamKeepsCursorKnown(db, config, screen, payments);
    if fault.payment < |payments| {
      var mid := Before(db, config, screen, payments, fault);
      AttemptCases(db, config, screen, payments, fault);
      StreamKeepsCursorKnown(db, config, screen, payments[..fault.payment]);
      StreamGrows(db, config, screen, payments[..fault.payment]);
      if mid.Done? {
        FaultKeepsCursorKnown(mid.db, config, screen, payments[fault.payment], fault.at);
        FaultCases(mid.db, config, screen, payments[fault.payment], fault.at);
      }
    }
  }
}
