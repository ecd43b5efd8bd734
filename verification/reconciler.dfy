/** The reconciler as a protocol: process_payment, run_stream and run_with_backoff cut at every
    await, so that the process can crash or fail between any two database actions while the
    invoice service changes the same tables.

    One step is one atomic database action (or the death of the process). Step is total: an
    action that is not enabled changes nothing, so every sequence of actions is a run. */
module Reconciler {
  import opened Options
  import opened PaymentTables
  import opened Matcher
  import opened InvoiceRules

  /** What does not change during a run: the account's payments in Horizon order, the
      configuration and the first cursor. */
  datatype World = World(horizon: seq<Payment>, config: Config, origin: Token)

  /** The database action the process will do next. */
  datatype Point =
    | Fetch
    | Screen
    | RecordBlocked
    | Match(ofac: Screening)
    | RecordMismatch(row: InvoiceRow)
    | RecordEvent(matched: Option<InvoiceRow>, verdict: Screening)
    | Commit(paidRow: InvoiceRow, event: nat)
    | Publish
    | Save

  /** boot is the cursor read at start-up, to which every retry returns; next indexes the
      payment being read or processed. */
  datatype Process = Down | Up(boot: Token, next: nat, at: Point)

  datatype System = System(db: Db, process: Process)

  /** The answers that come from outside: the screening service and the row SQL fetched. */
  datatype Oracle = Oracle(screening: Screening, pick: Option<nat>)

  datatype EnvAction =
    | CreateInvoice(invoice: Invoice)
    | CancelInvoice(merchant: nat, id: nat)
    | PayPart(id: nat, amount: Units)
    | ExpireInvoices(now: int)
    | CancelUnpaid(ttl: map<nat, int>, now: int)
    | AddWebhook(webhook: Webhook)
    | DeactivateWebhook(merchant: nat, id: nat)

  datatype Action = Advance(o: Oracle) | Fail | Crash | Boot | Env(e: EnvAction)

  ghost predicate Ordered(h: seq<Payment>)
  {
    forall i, j :: 0 <= i < j < |h| ==> h[i].token < h[j].token
  }

  /** The place where Horizon resumes after a cursor. */
  function After(h: seq<Payment>, cursor: Token): (n: nat)
    ensures n <= |h|
    ensures n < |h| ==> h[n].token > cursor
    ensures forall i :: 0 <= i < n ==> h[i].token <= cursor
  {
    if h == [] then 0
    else
      var last := |h| - 1;
      assert forall i | 0 <= i < last :: h[..last][i] == h[i];
      var n := After(h[..last], cursor);
      if n < last then n else if h[last].token <= cursor then |h| else last
  }

  function Goto(s: System, at: Point): System
    requires s.process.Up?
  {
    s.(process := s.process.(at := at))
  }

  /** An error returned to the retry loop: the stream is read again from the boot cursor. */
  function Retry(w: World, s: System): System
    requires s.process.Up?
  {
    s.(process := Up(s.process.boot, After(w.horizon, s.process.boot), Fetch))
  }

  function Record(w: World, s: System, p: Payment, invoice: Option<nat>, verdict: Verdict, then_: Point): System
    requires s.process.Up?
  {
    if p.amount.None? then Retry(w, s)
    else Goto(s.(db := InsertEvent(s.db, EventRow(p, p.amount.value, invoice, verdict))), then_)
  }

  ghost function AdvanceStep(w: World, s: System, o: Oracle): System
    requires s.process.Up?
  {
    var i := s.process.next;
    if i >= |w.horizon| then s
    else
      var p := w.horizon[i];
      match s.process.at
      case Fetch =>
        if EventExists(s.db.events, p.token) || !IsAcceptedAsset(p, w.config)
        then s.(process := s.process.(next := i + 1))
        else Goto(s, Screen)
      case Screen => Goto(s, if o.screening == Blocked then RecordBlocked else Match(o.screening))
      case RecordBlocked => Record(w, s, p, None, Screened(Blocked), Save)
      case Match(ofac) =>
        if !MatchAllowed(s.db.invoices, p, o.pick) then s
        else if o.pick.None? then Goto(s, RecordEvent(None, ofac))
        else
          MatchIsPending(s.db.invoices, p, o.pick);
          var row := RowOf(s.db.invoices, o.pick.value);
          if p.amount.None? then Retry(w, s)
          else if p.amount.value != row.gross then Goto(s, RecordMismatch(row))
          else Goto(s, RecordEvent(Some(row), ofac))
      case RecordMismatch(row) => Record(w, s, p, Some(row.id), AmountMismatch, Save)
      case RecordEvent(matched, ofac) =>
        (match matched
         case None => Record(w, s, p, None, Screened(ofac), Save)
         case Some(row) => Record(w, s, p, Some(row.id), Screened(ofac), Commit(row, |s.db.events|)))
      case Commit(row, event) => Goto(s.(db := CommitPayment(s.db, row, event)), Publish)
      case Publish => Goto(s, Save)
      case Save =>
        System(SaveCursor(s.db, p.token), s.process.(next := i + 1, at := Fetch))
  }

  ghost function EnvStep(db: Db, e: EnvAction): Db
  {
    match e
    case CreateInvoice(v) =>
      if Fresh(v) && (forall i :: 0 <= i < |db.invoices| ==> db.invoices[i].muxedId != v.muxedId)
      then db.(invoices := db.invoices + [v]) else db
    case CancelInvoice(merchant, id) =>
      if id < |db.invoices|
      then db.(invoices := db.invoices[id := CancelRow(db.invoices[id], merchant)]) else db
    case PayPart(id, amount) =>
      if id < |db.invoices| && ApplyPartial(db.invoices[id], amount).Applied?
      then db.(invoices := db.invoices[id := ApplyPartial(db.invoices[id], amount).invoice]) else db
    case ExpireInvoices(now) =>
      db.(invoices := seq(|db.invoices|, i requires 0 <= i < |db.invoices| => ExpireRow(db.invoices[i], now)))
    case CancelUnpaid(ttl, now) =>
      db.(invoices := seq(|db.invoices|,
                          i requires 0 <= i < |db.invoices| => CancelUnpaidRow(db.invoices[i], ttl, now)))
    case AddWebhook(webhook) => db.(webhooks := db.webhooks + [webhook])
    case DeactivateWebhook(merchant, id) =>
      if id < |db.webhooks| && db.webhooks[id].merchant == merchant
      then db.(webhooks := db.webhooks[id := db.webhooks[id].(active := false)]) else db
  }

  ghost function Step(w: World, s: System, a: Action): System
  {
    match a
    case Advance(o) => if s.process.Up? then AdvanceStep(w, s, o) else s
    case Fail => if s.process.Up? then Retry(w, s) else s
    case Crash => s.(process := Down)
    case Boot =>
      if s.process.Down? then s.(process := Up(s.db.cursor, After(w.horizon, s.db.cursor), Fetch)) else s
    case Env(e) => s.(db := EnvStep(s.db, e))
  }

  /** A run: every list of actions is one. */
  ghost function Exec(w: World, s: System, acts: seq<Action>): System
  {
    if acts == [] then s else Step(w, Exec(w, s, acts[..|acts| - 1]), acts[|acts| - 1])
  }

  ghost predicate Initial(w: World, s: System)
  {
    && Ordered(w.horizon)
    && s.process.Down?
    && s.db.cursor == w.origin
    && s.db.events == [] && s.db.ledger == [] && s.db.conversions == [] && s.db.deliveries == []
    && (forall i :: 0 <= i < |s.db.invoices| ==> Fresh(s.db.invoices[i]))
    && MuxedUnique(s.db.invoices)
  }

  // ----- the invariant ----------------------------------------------------------------------

  ghost predicate EventsUnique(events: seq<PaymentEvent>)
  {
    forall i, j :: 0 <= i < j < |events| ==> events[i].token != events[j].token
  }

  /** The event was written for payment p. */
  ghost predicate WrittenFor(w: World, e: PaymentEvent, p: Payment)
  {
    && p in w.horizon && IsAcceptedAsset(p, w.config)
    && p.amount == Some(e.amount)
    && e == EventRow(p, e.amount, e.invoice, e.verdict)
  }

  /** The payment names the invoice, by muxed id or memo, and is in its currency. */
  predicate About(p: Payment, v: Invoice)
  {
    && PaymentCurrency(p) == v.currency
    && (DecodeMuxedId(p.to) == Some(v.muxedId) || (p.memo.Some? && p.memo == v.memo))
  }

  /** The event was written for p: with no invoice, for the invoice that p is about and pays, or for
      one that p is about with another amount. */
  ghost predicate Explains(w: World, invoices: seq<Invoice>, e: PaymentEvent, p: Payment)
  {
    && WrittenFor(w, e, p)
    && match e.invoice
       case None => e.verdict.Screened?
       case Some(id) =>
         && id < |invoices| && About(p, invoices[id])
         && if e.verdict == AmountMismatch then e.amount != invoices[id].gross
            else e.verdict.result != Blocked && e.amount == invoices[id].gross
  }

  ghost predicate Explained(w: World, invoices: seq<Invoice>, e: PaymentEvent)
  {
    exists p :: Explains(w, invoices, e, p)
  }

  ghost predicate EventsExplained(w: World, invoices: seq<Invoice>, events: seq<PaymentEvent>)
  {
    forall i :: 0 <= i < |events| ==> Explained(w, invoices, events[i])
  }

  /** The event records a screened, unblocked payment of the invoice: right currency, right
      amount. */
  ghost predicate Pays(w: World, e: PaymentEvent, id: nat, v: Invoice)
  {
    && e.invoice == Some(id)
    && e.verdict.Screened? && e.verdict.result != Blocked
    && e.amount == v.gross
    && exists p :: WrittenFor(w, e, p) && About(p, v)
  }

  ghost predicate Backed(w: World, db: Db, r: LedgerEntry)
  {
    && r.event < |db.events| && r.invoice < |db.invoices|
    && var v := db.invoices[r.invoice];
    && Pays(w, db.events[r.event], r.invoice, v)
    && r == LedgerEntry(r.invoice, v.merchant, r.event, v.grossEquiv, v.fee, v.net)
    && v.status != Pending
  }

  ghost predicate LedgerBacked(w: World, db: Db)
  {
    forall k :: 0 <= k < |db.ledger| ==> Backed(w, db, db.ledger[k])
  }

  ghost predicate LedgerUnique(ledger: seq<LedgerEntry>)
  {
    forall j, k :: 0 <= j < k < |ledger| ==>
      ledger[j].event != ledger[k].event && ledger[j].invoice != ledger[k].invoice
  }

  ghost predicate ConversionsMatch(db: Db)
  {
    && |db.conversions| == |db.ledger|
    && forall k :: 0 <= k < |db.ledger| ==>
         db.conversions[k] == Conversion(db.ledger[k].invoice, db.ledger[k].merchant)
  }

  ghost predicate InLedger(ledger: seq<LedgerEntry>, id: nat)
  {
    exists k :: 0 <= k < |ledger| && ledger[k].invoice == id
  }

  ghost predicate EventInLedger(ledger: seq<LedgerEntry>, event: nat)
  {
    exists k :: 0 <= k < |ledger| && ledger[k].event == event
  }

  ghost predicate PaidExplained(db: Db)
  {
    forall i :: 0 <= i < |db.invoices| && db.invoices[i].status == Paid && db.invoices[i].remaining != 0
      ==> InLedger(db.ledger, i)
  }

  ghost predicate MuxedUnique(invoices: seq<Invoice>)
  {
    forall i, j :: 0 <= i < j < |invoices| ==> invoices[i].muxedId != invoices[j].muxedId
  }

  ghost predicate DeliveriesPaid(db: Db)
  {
    && (forall i :: 0 <= i < |db.deliveries| ==> EventInLedger(db.ledger, db.deliveries[i].event))
    && (forall i, j :: 0 <= i < j < |db.deliveries| ==> db.deliveries[i] != db.deliveries[j])
  }

  ghost predicate DbInv(w: World, db: Db)
  {
    && EventsUnique(db.events) && EventsExplained(w, db.invoices, db.events)
    && LedgerBacked(w, db) && LedgerUnique(db.ledger) && ConversionsMatch(db)
    && DeliveriesPaid(db)
    && TableMoneyOk(db.invoices) && PaidExplained(db) && MuxedUnique(db.invoices)
    && w.origin <= db.cursor
  }

  /** The snapshot of an invoice taken at match time still tells its terms. */
  ghost predicate RowCurrent(db: Db, row: InvoiceRow)
  {
    row.id < |db.invoices| && row == RowOf(db.invoices, row.id)
  }

  /** A matched payment on its way to the ledger: its invoice is not there yet. */
  ghost predicate InFlight(db: Db, p: Payment, row: InvoiceRow)
  {
    && RowCurrent(db, row) && !InLedger(db.ledger, row.id)
    && p.amount == Some(row.gross) && About(p, db.invoices[row.id])
  }

  ghost predicate PointInv(w: World, db: Db, p: Payment, at: Point)
  {
    match at
    case Fetch => true
    case Screen => !EventExists(db.events, p.token)
    case RecordBlocked => !EventExists(db.events, p.token)
    case Match(ofac) => ofac != Blocked && !EventExists(db.events, p.token)
    case RecordMismatch(row) =>
      && !EventExists(db.events, p.token) && RowCurrent(db, row) && About(p, db.invoices[row.id])
      && p.amount.Some? && p.amount.value != row.gross
    case RecordEvent(matched, ofac) =>
      ofac != Blocked && !EventExists(db.events, p.token)
      && (matched.Some? ==> InFlight(db, p, matched.value))
    case Commit(row, event) =>
      && EventExists(db.events, p.token)
      && InFlight(db, p, row) && !EventInLedger(db.ledger, event)
      && event < |db.events|
      && db.events[event].token == p.token
      && Pays(w, db.events[event], row.id, db.invoices[row.id])
    case Publish => EventExists(db.events, p.token)
    case Save => EventExists(db.events, p.token)
  }

  ghost predicate ProcessInv(w: World, s: System)
  {
    s.process.Up? ==>
      && w.origin <= s.process.boot <= s.db.cursor
      && (s.process.next < |w.horizon| ==> s.process.boot < w.horizon[s.process.next].token)
      && (s.process.at != Fetch ==>
            && s.process.next < |w.horizon|
            && s.db.cursor < w.horizon[s.process.next].token
            && IsAcceptedAsset(w.horizon[s.process.next], w.config)
            && PointInv(w, s.db, w.horizon[s.process.next], s.process.at))
  }

  /** Payments the process is past: behind the saved cursor, or read since the last restart. */
  ghost predicate Behind(s: System, i: int, p: Payment)
  {
    p.token <= s.db.cursor || (s.process.Up? && i < s.process.next)
  }

  ghost predicate NoGap(w: World, s: System)
  {
    forall i :: 0 <= i < |w.horizon| && w.origin < w.horizon[i].token && IsAcceptedAsset(w.horizon[i], w.config)
                && Behind(s, i, w.horizon[i])
      ==> EventExists(s.db.events, w.horizon[i].token)
  }

  ghost predicate Inv(w: World, s: System)
  {
    && Ordered(w.horizon) && DbInv(w, s.db) && ProcessInv(w, s) && NoGap(w, s)
  }
}
