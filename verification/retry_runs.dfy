/** A retry in the protocol: a process that is stopped by an error after any number of undisturbed
    steps, and then makes a full pass. */
module RetryRuns {
  import opened Options
  import opened PaymentTables
  import opened Matcher
  import opened Reconciler
  import opened Processor
  import opened Retries

  /** The answers from outside when nothing interferes: the screening of the payer, and the row of
      the first-row lookup. */
  function Answers(w: World, s: System, screen: Screen): Oracle
    requires Reading(w, s)
  {
    var p := w.horizon[s.process.next];
    Oracle(screen(p.from), MatchInvoice(s.db.invoices, p))
  }

  /** A step of the process alone, until it gets to payment end. */
  ghost function StepAlone(w: World, t: System, screen: Screen, end: nat): System
  {
    if Reading(w, t) && t.process.next < end then Step(w, t, Advance(Answers(w, t, screen))) else t
  }

  /** n such steps. */
  ghost function Undisturbed(w: World, s: System, screen: Screen, end: nat, n: nat): System
  {
    if n == 0 then s else StepAlone(w, Undisturbed(w, s, screen, end, n - 1), screen, end)
  }

  function AwaitAt(at: Point): Await
  {
    match at
    case Fetch => ExistsCheck
    case Screen => Screening
    case RecordBlocked => EventInsert
    case Match(_) => Matching
    case RecordMismatch(_) => EventInsert
    case RecordEvent(_, _) => EventInsert
    case Commit(_, _) => Transaction
    case Publish => Publishing
    case Save => CursorSave
  }

  /** A payment on its way to the transaction: the row it was matched to, and its event. */
  ghost predicate Matches(db: Db, config: Config, screen: Screen, p: Payment, row: InvoiceRow)
  {
    && Commits(db, config, screen, p) && MatchInvoice(db.invoices, p) == Some(row.id)
    && row.id < |db.invoices| && row == RowOf(db.invoices, row.id)
  }

  /** Where process_payment is, having started with the tables before. */
  ghost predicate Within(before: Db, config: Config, screen: Screen, p: Payment, at: Point, db: Db)
  {
    var whole, found := ProcessPayment(before, config, screen, p), MatchInvoice(before.invoices, p);
    match at
    case Fetch => db == before
    case Screen => db == before && IsNew(before, config, p)
    case RecordBlocked => db == before && IsNew(before, config, p) && screen(p.from) == Blocked
    case Match(ofac) => db == before && IsNew(before, config, p) && ofac == screen(p.from) != Blocked
    case RecordMismatch(row) =>
      && db == before && IsNew(before, config, p) && screen(p.from) != Blocked
      && found == Some(row.id) && row.id < |before.invoices| && row == RowOf(before.invoices, row.id)
      && p.amount.Some? && p.amount.value != row.gross
    case RecordEvent(matched, ofac) =>
      && db == before && IsNew(before, config, p) && ofac == screen(p.from) != Blocked
      && (match matched
          case None => found.None?
          case Some(row) => Matches(before, config, screen, p, row))
    case Commit(row, event) =>
      && Matches(before, config, screen, p, row)
      && event == |before.events| && db == before.(events := whole.db.events)
    case Publish => Commits(before, config, screen, p) && db == whole.db.(cursor := before.cursor)
    case Save => IsNew(before, config, p) && whole.Done? && db == whole.db.(cursor := before.cursor)
  }

  lemma EarlyStop(before: Db, config: Config, screen: Screen, p: Payment, at: Await)
    requires at == ExistsCheck || IsNew(before, config, p)
    requires at in {ExistsCheck, Screening, EventInsert} || (at == Matching && screen(p.from) != Blocked)
    requires ProcessPayment(before, config, screen, p).Done?
    ensures ProcessWith(before, config, screen, p, at) == Failed(before)
  {
  }

  lemma LateStop(before: Db, config: Config, screen: Screen, p: Payment, at: Await)
    requires IsNew(before, config, p) && ProcessPayment(before, config, screen, p).Done?
    requires at == CursorSave || (at in {Transaction, Publishing} && Commits(before, config, screen, p))
    ensures var whole := ProcessPayment(before, config, screen, p).db;
      ProcessWith(before, config, screen, p, at)
      == Failed(if at == Transaction then before.(events := whole.events) else whole.(cursor := before.cursor))
  {
  }

  /** An error at a point leaves what process_payment with an error at its await leaves. */
  lemma WithinStops(before: Db, config: Config, screen: Screen, p: Payment, at: Point, db: Db)
    requires Within(before, config, screen, p, at, db) && ProcessPayment(before, config, screen, p).Done?
    ensures ProcessWith(before, config, screen, p, AwaitAt(at)) == Failed(db)
    ensures at.Commit? || at.Publish? || at.Save? ==>
              IsNew(before, config, p) && (at.Save? || Commits(before, config, screen, p))
  {
    if at.Commit? || at.Publish? || at.Save? {
      LateStop(before, config, screen, p, AwaitAt(at));
    } else {
      EarlyStop(before, config, screen, p, AwaitAt(at));
    }
  }

  /** The step from t stays within the payment or finishes it. */
  ghost predicate StaysOrFinishes(w: World, before: Db, screen: Screen, p: Payment, t: System, u: System)
  {
    t.process.Up? && u.process.Up? &&
    (|| u == System(ProcessPayment(before, w.config, screen, p).db, t.process.(next := t.process.next + 1, at := Fetch))
     || (u.process == t.process.(at := u.process.at) && Within(before, w.config, screen, p, u.process.at, u.db)))
  }

  ghost predicate AtPoint(w: World, t: System, at: Point, p: Payment)
  {
    Reading(w, t) && t.process.at == at && p == w.horizon[t.process.next]
  }

  lemma Stays(w: World, before: Db, screen: Screen, p: Payment, t: System, at: Point, db: Db)
    requires t.process.Up? && Within(before, w.config, screen, p, at, db)
    ensures StaysOrFinishes(w, before, screen, p, t, System(db, t.process.(at := at)))
  {
  }

  lemma Finishes(w: World, before: Db, screen: Screen, p: Payment, t: System, db: Db)
    requires t.process.Up? && db == ProcessPayment(before, w.config, screen, p).db
    ensures StaysOrFinishes(w, before, screen, p, t, System(db, t.process.(next := t.process.next + 1, at := Fetch)))
  {
  }

  /** The protocol's last steps for a payment. */
  lemma LastSteps(w: World, t: System, o: Oracle, p: Payment)
    requires Reading(w, t) && p == w.horizon[t.process.next]
    ensures var u := Step(w, t, Advance(o));
      match t.process.at
      case RecordEvent(Some(row), ofac) =>
        p.amount.Some? ==>
          u == System(InsertEvent(t.db, EventRow(p, p.amount.value, Some(row.id), Screened(ofac))),
                      t.process.(at := Commit(row, |t.db.events|)))
      case Commit(row, event) => u == System(CommitPayment(t.db, row, event), t.process.(at := Publish))
      case Publish => u == System(t.db, t.process.(at := Save))
      case Save => u == System(SaveCursor(t.db, p.token), t.process.(next := t.process.next + 1, at := Fetch))
      case _ => true
  {
  }

  lemma FromFetch(w: World, screen: Screen, p: Payment, t: System, o: Oracle)
    requires AtPoint(w, t, Fetch, p)
    ensures StaysOrFinishes(w, t.db, screen, p, t, Step(w, t, Advance(o)))
  {
  }

  lemma FromScreen(w: World, screen: Screen, p: Payment, t: System, o: Oracle)
    requires AtPoint(w, t, Point.Screen, p) && IsNew(t.db, w.config, p) && o.screening == screen(p.from)
    ensures StaysOrFinishes(w, t.db, screen, p, t, Step(w, t, Advance(o)))
  {
  }

  /** The match decides between the three events, with the row copied out. */
  lemma FromMatch(w: World, screen: Screen, p: Payment, t: System, o: Oracle)
    requires AtPoint(w, t, Match(screen(p.from)), p) && IsNew(t.db, w.config, p) && screen(p.from) != Blocked
    requires p.amount.Some? && o.pick == MatchInvoice(t.db.invoices, p)
    ensures StaysOrFinishes(w, t.db, screen, p, t, Step(w, t, Advance(o)))
  {
    MatchStep(w, t, o);
    if o.pick.None? {
      Stays(w, t.db, screen, p, t, RecordEvent(None, screen(p.from)), t.db);
    } else {
      var row := RowOf(t.db.invoices, o.pick.value);
      if p.amount.value != row.gross {
        Stays(w, t.db, screen, p, t, RecordMismatch(row), t.db);
      } else {
        assert Matches(t.db, w.config, screen, p, row);
        Stays(w, t.db, screen, p, t, RecordEvent(Some(row), screen(p.from)), t.db);
      }
    }
  }

  /** The event is written, with nothing to commit. */
  lemma FromRecord(w: World, screen: Screen, p: Payment, t: System, o: Oracle, invoice: Option<nat>, verdict: Verdict)
    requires Reading(w, t) && p == w.horizon[t.process.next] && IsNew(t.db, w.config, p) && p.amount.Some?
    requires Step(w, t, Advance(o)) == Record(w, t, p, invoice, verdict, Save)
    requires ProcessPayment(t.db, w.config, screen, p) == RecordAndSave(t.db, p, invoice, verdict)
    ensures StaysOrFinishes(w, t.db, screen, p, t, Step(w, t, Advance(o)))
  {
    Stays(w, t.db, screen, p, t, Save, InsertEvent(t.db, EventRow(p, p.amount.value, invoice, verdict)));
  }

  lemma MatchedOutcome(db: Db, config: Config, screen: Screen, p: Payment, row: InvoiceRow)
    requires Matches(db, config, screen, p, row)
    ensures p.amount == Some(row.gross)
    ensures var e := EventRow(p, row.gross, Some(row.id), Screened(screen(p.from)));
      ProcessPayment(db, config, screen, p)
      == Done(SaveCursor(CommitPayment(InsertEvent(db, e), row, |db.events|), p.token))
  {
  }

  lemma FromRecordMatched(w: World, screen: Screen, p: Payment, t: System, o: Oracle, row: InvoiceRow)
    requires AtPoint(w, t, RecordEvent(Some(row), screen(p.from)), p) && Matches(t.db, w.config, screen, p, row)
    ensures StaysOrFinishes(w, t.db, screen, p, t, Step(w, t, Advance(o)))
  {
    LastSteps(w, t, o, p);
    MatchedOutcome(t.db, w.config, screen, p, row);
    var e := EventRow(p, row.gross, Some(row.id), Screened(screen(p.from)));
    Stays(w, t.db, screen, p, t, Commit(row, |t.db.events|), InsertEvent(t.db, e));
  }

  lemma FromCommit(w: World, before: Db, screen: Screen, p: Payment, t: System, o: Oracle, row: InvoiceRow)
    requires AtPoint(w, t, Commit(row, |before.events|), p) && Matches(before, w.config, screen, p, row)
    requires t.db == before.(events := ProcessPayment(before, w.config, screen, p).db.events)
    ensures StaysOrFinishes(w, before, screen, p, t, Step(w, t, Advance(o)))
  {
    LastSteps(w, t, o, p);
    MatchedOutcome(before, w.config, screen, p, row);
    Stays(w, before, screen, p, t, Publish, CommitPayment(t.db, row, |before.events|));
  }

  lemma FromPublish(w: World, before: Db, screen: Screen, p: Payment, t: System, o: Oracle)
    requires AtPoint(w, t, Publish, p) && Commits(before, w.config, screen, p)
    requires t.db == ProcessPayment(before, w.config, screen, p).db.(cursor := before.cursor)
    ensures StaysOrFinishes(w, before, screen, p, t, Step(w, t, Advance(o)))
  {
    LastSteps(w, t, o, p);
    WholeCases(before, w.config, screen, p);
    Stays(w, before, screen, p, t, Save, t.db);
  }

  lemma FromSave(w: World, before: Db, screen: Screen, p: Payment, t: System, o: Oracle)
    requires AtPoint(w, t, Save, p) && IsNew(before, w.config, p) && ProcessPayment(before, w.config, screen, p).Done?
    requires t.db == ProcessPayment(before, w.config, screen, p).db.(cursor := before.cursor)
    ensures StaysOrFinishes(w, before, screen, p, t, Step(w, t, Advance(o)))
  {
    WholeCases(before, w.config, screen, p);
    LastSteps(w, t, o, p);
    Finishes(w, before, screen, p, t, SaveCursor(t.db, p.token));
  }

  lemma WithinStep(w: World, before: Db, screen: Screen, p: Payment, t: System)
    requires Reading(w, t) && p == w.horizon[t.process.next]
    requires Within(before, w.config, screen, p, t.process.at, t.db)
    requires ProcessPayment(before, w.config, screen, p).Done?
    ensures StaysOrFinishes(w, before, screen, p, t, Step(w, t, Advance(Answers(w, t, screen))))
  {
    var o := Answers(w, t, screen);
    match t.process.at
    case Fetch => FromFetch(w, screen, p, t, o);
    case Screen => FromScreen(w, screen, p, t, o);
    case RecordBlocked =>
      AmountKnown(before, w.config, screen, p);
      FromRecord(w, screen, p, t, o, None, Screened(Blocked));
    case Match(_) =>
      AmountKnown(before, w.config, screen, p);
      FromMatch(w, screen, p, t, o);
    case RecordMismatch(row) => FromRecord(w, screen, p, t, o, Some(row.id), AmountMismatch);
    case RecordEvent(matched, ofac) =>
      AmountKnown(before, w.config, screen, p);
      if matched.None? {
        FromRecord(w, screen, p, t, o, None, Screened(ofac));
      } else {
        FromRecordMatched(w, screen, p, t, o, matched.value);
      }
    case Commit(row, _) => FromCommit(w, before, screen, p, t, o, row);
    case Publish => FromPublish(w, before, screen, p, t, o);
    case Save => FromSave(w, before, screen, p, t, o);
  }

  lemma AmountKnown(db: Db, config: Config, screen: Screen, p: Payment)
    requires IsNew(db, config, p) && ProcessPayment(db, config, screen, p).Done?
    ensures p.amount.Some?
  {
    WholeCases(db, config, screen, p);
  }

  // ----- the fault that a stop is -----------------------------------------------------------

  /** The points between writing an event and saving its cursor. */
  predicate Unsaved(at: Point)
  {
    at.Commit? || at.Publish? || at.Save?
  }

  lemma LateWithin(before: Db, config: Config, screen: Screen, p: Payment, at: Point, db: Db)
    requires Within(before, config, screen, p, at, db) && ProcessPayment(before, config, screen, p).Done?
    ensures Unsaved(at) ==>
              db.events == ProcessPayment(before, config, screen, p).db.events && p.amount.Some?
              && IsNew(before, config, p) && (at.Save? || Commits(before, config, screen, p))
  {
    WholeCases(before, config, screen, p);
  }

  /** What LosesCommit asks of the payment of the fault. */
  lemma CommitLostWithin(before: Db, config: Config, screen: Screen, p: Payment, at: Point, db: Db)
    requires Within(before, config, screen, p, at, db) && ProcessPayment(before, config, screen, p).Done?
    ensures AwaitAt(at) == Transaction && Commits(before, config, screen, p) <==> at.Commit?
  {
    LateWithin(before, config, screen, p, at, db);
  }

  /** What LosesSave asks of the payment of the fault. */
  lemma SaveLostWithin(before: Db, config: Config, screen: Screen, p: Payment, at: Point, db: Db)
    requires Within(before, config, screen, p, at, db) && ProcessPayment(before, config, screen, p).Done?
    ensures (&& IsNew(before, config, p) && p.amount.Some?
             && (AwaitAt(at) == CursorSave
                 || (AwaitAt(at) in {Transaction, Publishing} && Commits(before, config, screen, p))))
            <==> Unsaved(at)
  {
    LateWithin(before, config, screen, p, at, db);
  }

  lemma SameEventsSame(a: Db, b: Db, config: Config, payments: seq<Payment>)
    requires a.events == b.events
    ensures NothingToSave(a, config, payments) <==> NothingToSave(b, config, payments)
  {
    FirstNewIs(b, config, payments, FirstNew(a, config, payments));
  }

  lemma StoppedAttempt(
      db: Db, config: Config, screen: Screen, payments: seq<Payment>, fault: Fault, before: Db, stopped: Db)
    requires fault.payment < |payments| && Before(db, config, screen, payments, fault) == Done(before)
    requires ProcessWith(before, config, screen, payments[fault.payment], fault.at) == Failed(stopped)
    ensures Attempt(db, config, screen, payments, fault) == Failed(stopped)
  {
  }

  /** LosesCommit and LosesSave with the tables before the payment. */
  lemma LossesOf(db: Db, config: Config, screen: Screen, payments: seq<Payment>, fault: Fault, before: Db)
    requires fault.payment < |payments| && Before(db, config, screen, payments, fault) == Done(before)
    ensures var p := payments[fault.payment];
      && (LosesCommit(db, config, screen, payments, fault) <==>
            fault.at == Transaction && Commits(before, config, screen, p))
      && (LosesSave(db, config, screen, payments, fault) <==>
            && IsNew(before, config, p) && p.amount.Some?
            && (fault.at == CursorSave
                || (fault.at in {Transaction, Publishing} && Commits(before, config, screen, p)))
            && NothingToSave(ProcessPayment(before, config, screen, p).db, config, payments[fault.payment + 1..]))
  {
  }

  lemma SaveLostAt(before: Db, config: Config, screen: Screen, p: Payment, at: Point, db: Db, rest: seq<Payment>)
    requires Within(before, config, screen, p, at, db) && ProcessPayment(before, config, screen, p).Done?
    ensures (&& IsNew(before, config, p) && p.amount.Some?
             && (AwaitAt(at) == CursorSave
                 || (AwaitAt(at) in {Transaction, Publishing} && Commits(before, config, screen, p)))
             && NothingToSave(ProcessPayment(before, config, screen, p).db, config, rest))
            <==> Unsaved(at) && NothingToSave(db, config, rest)
  {
    SaveLostWithin(before, config, screen, p, at, db);
    LateWithin(before, config, screen, p, at, db);
    if Unsaved(at) { SameEventsSame(db, ProcessPayment(before, config, screen, p).db, config, rest); }
  }

  /** A process stopped within the k-th payment of a stream. */
  ghost predicate StoppedWithin(
      start: Db, config: Config, screen: Screen, payments: seq<Payment>, k: nat, before: Db, at: Point, db: Db)
  {
    && k < |payments| && RunStream(start, config, screen, payments[..k]) == Done(before)
    && Within(before, config, screen, payments[k], at, db)
    && ProcessPayment(before, config, screen, payments[k]).Done?
  }

  /** An error there is a fault of an attempt. */
  lemma StopIsAFault(
      start: Db, config: Config, screen: Screen, payments: seq<Payment>, k: nat, before: Db, at: Point, db: Db)
    requires StoppedWithin(start, config, screen, payments, k, before, at, db)
    ensures Attempt(start, config, screen, payments, Fault(k, AwaitAt(at))) == Failed(db)
  {
    WithinStops(before, config, screen, payments[k], at, db);
    StoppedAttempt(start, config, screen, payments, Fault(k, AwaitAt(at)), before, db);
  }

  lemma StopLoses(
      start: Db, config: Config, screen: Screen, payments: seq<Payment>, k: nat, before: Db, at: Point, db: Db)
    requires StoppedWithin(start, config, screen, payments, k, before, at, db)
    ensures LosesCommit(start, config, screen, payments, Fault(k, AwaitAt(at))) <==> at.Commit?
    ensures LosesSave(start, config, screen, payments, Fault(k, AwaitAt(at)))
            <==> Unsaved(at) && NothingToSave(db, config, payments[k + 1..])
  {
    LossesOf(start, config, screen, payments, Fault(k, AwaitAt(at)), before);
    CommitLostWithin(before, config, screen, payments[k], at, db);
    SaveLostAt(before, config, screen, payments[k], at, db, payments[k + 1..]);
  }

  /** A pass from the tables db ends well, with the tables of a pass from start unless a row is lost
      and with its cursor unless that is lost. */
  ghost predicate PassAgain(
      start: Db, config: Config, screen: Screen, payments: seq<Payment>, db: Db, rowLost: bool, cursorLost: bool)
  {
    var once, again := RunStream(start, config, screen, payments), RunStream(db, config, screen, payments);
    && again.Done?
    && (Tables(again.db) == Tables(once.db) <==> !rowLost)
    && (again.db.cursor == once.db.cursor <==> !cursorLost)
  }

  lemma RetryFromWithin(
      start: Db, config: Config, screen: Screen, payments: seq<Payment>, k: nat, before: Db, at: Point, db: Db)
    requires StoppedWithin(start, config, screen, payments, k, before, at, db)
    requires EventsKnown(start) && CursorKnown(start, config, payments)
    requires RunStream(start, config, screen, payments).Done?
    ensures PassAgain(start, config, screen, payments, db, at.Commit?,
                      Unsaved(at) && NothingToSave(db, config, payments[k + 1..]))
  {
    StopIsAFault(start, config, screen, payments, k, before, at, db);
    StopLoses(start, config, screen, payments, k, before, at, db);
    RetryOutcome(start, config, screen, payments, Fault(k, AwaitAt(at)));
  }

  lemma RetryOutcome(db: Db, config: Config, screen: Screen, payments: seq<Payment>, fault: Fault)
    requires EventsKnown(db) && CursorKnown(db, config, payments)
    requires RunStream(db, config, screen, payments).Done?
    requires Attempt(db, config, screen, payments, fault).Failed?
    ensures var a := Attempt(db, config, screen, payments, fault);
      var once, again := RunStream(db, config, screen, payments), RunStream(a.db, config, screen, payments);
      && again.Done?
      && (Tables(again.db) == Tables(once.db) <==> !LosesCommit(db, config, screen, payments, fault))
      && (again.db.cursor == once.db.cursor <==> !LosesSave(db, config, screen, payments, fault))
  {
    assert [fault][1..] == [];
    RetriesRefineIff(db, config, screen, payments, [fault]);
    CursorRefinesIff(db, config, screen, payments, [fault]);
  }

  // ----- the retry --------------------------------------------------------------------------

  /** The payments that Horizon has for the process next. */
  ghost predicate Ahead(w: World, s: System, payments: seq<Payment>)
  {
    && s.process.Up? && s.process.next + |payments| <= |w.horizon|
    && forall k :: 0 <= k < |payments| ==> payments[k] == w.horizon[s.process.next + k]
  }

  /** The process started at s, has finished some of the payments and is within the next. */
  ghost predicate OnTheWay(w: World, s: System, screen: Screen, payments: seq<Payment>, t: System)
  {
    && s.process.Up? && t.process.Up? && t.process.boot == s.process.boot
    && var k := t.process.next - s.process.next;
    && 0 <= k <= |payments| && Progress(s.db, w.config, screen, payments, k, t.process.at, t.db)
  }

  ghost predicate Progress(
      start: Db, config: Config, screen: Screen, payments: seq<Payment>, k: nat, at: Point, db: Db)
    requires k <= |payments|
  {
    var before := RunStream(start, config, screen, payments[..k]);
    && before.Done?
    && if k < |payments| then Within(before.db, config, screen, payments[k], at, db) else at == Fetch && db == before.db
  }

  /** One more payment of a stream that has no error. */
  lemma NextInStream(db: Db, config: Config, screen: Screen, payments: seq<Payment>, k: nat)
    requires k < |payments| && RunStream(db, config, screen, payments).Done?
    ensures var mid := RunStream(db, config, screen, payments[..k]);
      var front := RunStream(db, config, screen, payments[..k + 1]);
      mid.Done? && front.Done? && front == ProcessPayment(mid.db, config, screen, payments[k])
  {
    assert payments[..k + 1][..k] == payments[..k];
    if RunStream(db, config, screen, payments[..k + 1]).Failed? { StreamStops(db, config, screen, payments, k + 1); }
  }

  lemma ProgressStep(w: World, start: Db, screen: Screen, payments: seq<Payment>, k: nat, t: System, u: System)
    requires RunStream(start, w.config, screen, payments).Done? && k < |payments| && t.process.Up?
    requires Progress(start, w.config, screen, payments, k, t.process.at, t.db)
    requires StaysOrFinishes(w, RunStream(start, w.config, screen, payments[..k]).db, screen, payments[k], t, u)
    ensures u.process.Up? && u.process.boot == t.process.boot
    ensures || (u.process.next == t.process.next && Progress(start, w.config, screen, payments, k, u.process.at, u.db))
            || (u.process.next == t.process.next + 1
                && Progress(start, w.config, screen, payments, k + 1, u.process.at, u.db))
  {
    NextInStream(start, w.config, screen, payments, k);
  }

  lemma ProgressIsWithin(
      start: Db, config: Config, screen: Screen, payments: seq<Payment>, k: nat, at: Point, db: Db)
    requires RunStream(start, config, screen, payments).Done? && k < |payments|
    requires Progress(start, config, screen, payments, k, at, db)
    ensures var before := RunStream(start, config, screen, payments[..k]).db;
      Within(before, config, screen, payments[k], at, db)
      && ProcessPayment(before, config, screen, payments[k]).Done?
  {
    NextInStream(start, config, screen, payments, k);
  }

  lemma OnTheWayStep(w: World, start: Db, screen: Screen, payments: seq<Payment>, t: System, k: nat)
    requires RunStream(start, w.config, screen, payments).Done? && k < |payments|
    requires Reading(w, t) && payments[k] == w.horizon[t.process.next]
    requires Progress(start, w.config, screen, payments, k, t.process.at, t.db)
    ensures var u := Step(w, t, Advance(Answers(w, t, screen)));
      && u.process.Up? && u.process.boot == t.process.boot
      && (|| (u.process.next == t.process.next && Progress(start, w.config, screen, payments, k, u.process.at, u.db))
          || (u.process.next == t.process.next + 1
              && Progress(start, w.config, screen, payments, k + 1, u.process.at, u.db)))
  {
    ProgressIsWithin(start, w.config, screen, payments, k, t.process.at, t.db);
    WithinStep(w, RunStream(start, w.config, screen, payments[..k]).db, screen, payments[k], t);
    ProgressStep(w, start, screen, payments, k, t, Step(w, t, Advance(Answers(w, t, screen))));
  }

  lemma StartsOnTheWay(w: World, s: System, screen: Screen, payments: seq<Payment>)
    requires s.process.Up? && s.process.at == Fetch
    ensures OnTheWay(w, s, screen, payments, s)
  {
    assert payments[..0] == [];
  }

  lemma ProgressIsOnTheWay(w: World, s: System, screen: Screen, payments: seq<Payment>, u: System, k: nat)
    requires s.process.Up? && u.process.Up? && u.process.boot == s.process.boot
    requires u.process.next == s.process.next + k && k <= |payments|
    requires Progress(s.db, w.config, screen, payments, k, u.process.at, u.db)
    ensures OnTheWay(w, s, screen, payments, u)
  {
  }

  lemma StepAloneOnTheWay(w: World, s: System, screen: Screen, payments: seq<Payment>, t: System)
    requires Ahead(w, s, payments) && RunStream(s.db, w.config, screen, payments).Done?
    requires OnTheWay(w, s, screen, payments, t)
    ensures OnTheWay(w, s, screen, payments, StepAlone(w, t, screen, s.process.next + |payments|))
  {
    if t.process.next < s.process.next + |payments| {
      var k := t.process.next - s.process.next;
      OnTheWayStep(w, s.db, screen, payments, t, k);
      var u := Step(w, t, Advance(Answers(w, t, screen)));
      ProgressIsOnTheWay(w, s, screen, payments, u, if u.process.next == t.process.next then k else k + 1);
    }
  }

  lemma {:induction false} UndisturbedIsOnTheWay(w: World, s: System, screen: Screen, payments: seq<Payment>, n: nat)
    requires Ahead(w, s, payments) && RunStream(s.db, w.config, screen, payments).Done?
    requires s.process.at == Fetch
    ensures OnTheWay(w, s, screen, payments, Undisturbed(w, s, screen, s.process.next + |payments|, n))
  {
    if n == 0 {
      StartsOnTheWay(w, s, screen, payments);
    } else {
      UndisturbedIsOnTheWay(w, s, screen, payments, n - 1);
      StepAloneOnTheWay(w, s, screen, payments, Undisturbed(w, s, screen, s.process.next + |payments|, n - 1));
    }
  }

  lemma InvKnows(w: World, s: System, payments: seq<Payment>)
    requires Inv(w, s) && Ahead(w, s, payments) && s.process.next == After(w.horizon, s.process.boot)
    ensures EventsKnown(s.db) && CursorKnown(s.db, w.config, payments)
  {
    forall k | 0 <= k < |s.db.ledger| ensures s.db.ledger[k].event < |s.db.events| {
      assert Backed(w, s.db, s.db.ledger[k]);
    }
    forall i | 0 <= i < |payments| && IsNew(s.db, w.config, payments[i]) ensures payments[i].token != s.db.cursor {
      var j := s.process.next + i;
      assert payments[i] == w.horizon[j] && w.horizon[s.process.next].token <= w.horizon[j].token;
    }
  }

  lemma RetryFromEnd(start: Db, config: Config, screen: Screen, payments: seq<Payment>)
    requires EventsKnown(start) && RunStream(start, config, screen, payments).Done?
    ensures PassAgain(start, config, screen, payments, RunStream(start, config, screen, payments).db, false, false)
  {
    PassedIsSeen(start, config, screen, payments);
    SeenIsIdle(RunStream(start, config, screen, payments).db, config, screen, payments);
  }

  /** The process is at the k-th payment, between its event and its cursor, and no later payment saves
      one. */
  predicate AtLastSave(config: Config, payments: seq<Payment>, k: nat, at: Point, db: Db)
  {
    Unsaved(at) && k < |payments| && NothingToSave(db, config, payments[k + 1..])
  }

  lemma RetryFrom(
      start: Db, config: Config, screen: Screen, payments: seq<Payment>, k: nat, at: Point, db: Db)
    requires k <= |payments| && Progress(start, config, screen, payments, k, at, db)
    requires EventsKnown(start) && CursorKnown(start, config, payments)
    requires RunStream(start, config, screen, payments).Done?
    ensures PassAgain(start, config, screen, payments, db, at.Commit?, AtLastSave(config, payments, k, at, db))
  {
    if k < |payments| {
      NextInStream(start, config, screen, payments, k);
      RetryFromWithin(start, config, screen, payments, k, RunStream(start, config, screen, payments[..k]).db, at, db);
    } else {
      assert payments[..k] == payments;
      RetryFromEnd(start, config, screen, payments);
    }
  }

  lemma FullPass(w: World, s: System, screen: Screen, payments: seq<Payment>, t: System) returns (pass: seq<Action>)
    requires Ahead(w, s, payments) && s.process.at == Fetch && s.process.next == After(w.horizon, s.process.boot)
    requires t.process.Up? && t.process.boot == s.process.boot
    requires RunStream(t.db, w.config, screen, payments).Done?
    ensures forall a :: a in pass ==> a.Advance?
    ensures Exec(w, Step(w, t, Fail), pass) == AfterStream(System(t.db, s.process), w.config, screen, payments)
  {
    pass := StreamIsARun(w, System(t.db, s.process), screen, payments);
    assert Step(w, t, Fail) == System(t.db, s.process);
  }

  lemma WhereItGot(w: World, s: System, screen: Screen, payments: seq<Payment>, n: nat)
    requires Ahead(w, s, payments) && EventsKnown(s.db) && CursorKnown(s.db, w.config, payments)
    requires s.process.at == Fetch && RunStream(s.db, w.config, screen, payments).Done?
    ensures var t := Undisturbed(w, s, screen, s.process.next + |payments|, n);
      && t.process.Up? && t.process.boot == s.process.boot && t.process.next >= s.process.next
      && var k := t.process.next - s.process.next;
      PassAgain(s.db, w.config, screen, payments, t.db, t.process.at.Commit?,
                AtLastSave(w.config, payments, k, t.process.at, t.db))
  {
    var t := Undisturbed(w, s, screen, s.process.next + |payments|, n);
    UndisturbedIsOnTheWay(w, s, screen, payments, n);
    RetryFrom(s.db, w.config, screen, payments, t.process.next - s.process.next, t.process.at, t.db);
  }

  lemma RetryAfterStop(w: World, s: System, screen: Screen, payments: seq<Payment>, n: nat)
    returns (pass: seq<Action>)
    requires Ahead(w, s, payments) && EventsKnown(s.db) && CursorKnown(s.db, w.config, payments)
    requires s.process.at == Fetch && s.process.next == After(w.horizon, s.process.boot)
    requires RunStream(s.db, w.config, screen, payments).Done?
    ensures forall a :: a in pass ==> a.Advance?
    ensures var t := Undisturbed(w, s, screen, s.process.next + |payments|, n);
      var once, again := AfterStream(s, w.config, screen, payments), Exec(w, Step(w, t, Fail), pass);
      && t.process.Up? && t.process.next >= s.process.next && once.process == again.process
      && (Tables(again.db) == Tables(once.db) <==> !t.process.at.Commit?)
      && (again.db.cursor == once.db.cursor
          <==> !AtLastSave(w.config, payments, t.process.next - s.process.next, t.process.at, t.db))
  {
    var t := Undisturbed(w, s, screen, s.process.next + |payments|, n);
    WhereItGot(w, s, screen, payments, n);
    pass := FullPass(w, s, screen, payments, t);
  }

  /** The retry of run_with_backoff, over any payments that come first from the boot cursor and can be
      processed, for an error after any number of undisturbed steps: the pass that follows ends with
      the tables of a pass without the error if and only if the process was not about to commit, and
      with its cursor if and only if the process was not between an event and its cursor with nothing
      to save after. */
  lemma RetryAfterAnyStop(w: World, s: System, screen: Screen, payments: seq<Payment>, n: nat)
    returns (pass: seq<Action>)
    requires Inv(w, s) && Ahead(w, s, payments)
    requires s.process.at == Fetch && s.process.next == After(w.horizon, s.process.boot)
    requires RunStream(s.db, w.config, screen, payments).Done?
    ensures forall a :: a in pass ==> a.Advance?
    ensures var t := Undisturbed(w, s, screen, s.process.next + |payments|, n);
      var once, again := AfterStream(s, w.config, screen, payments), Exec(w, Step(w, t, Fail), pass);
      && t.process.Up? && t.process.next >= s.process.next && once.process == again.process
      && (Tables(again.db) == Tables(once.db) <==> !t.process.at.Commit?)
      && (again.db.cursor == once.db.cursor
          <==> !AtLastSave(w.config, payments, t.process.next - s.process.next, t.process.at, t.db))
  {
    InvKnows(w, s, payments);
    pass := RetryAfterStop(w, s, screen, payments, n);
  }
}
