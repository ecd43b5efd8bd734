/** The invariant of the reconciler holds in every state of every run, and what follows. */
module ReconcilerSafety {
  import opened Options
  import opened PaymentTables
  import opened Matcher
  import opened InvoiceRules
  import opened Reconciler

  // ----- the invoice service's steps --------------------------------------------------------

  lemma EnvKeepsMoney(db: Db, e: EnvAction)
    requires TableMoneyOk(db.invoices)
    ensures TableMoneyOk(EnvStep(db, e).invoices) && TableEvolves(db.invoices, EnvStep(db, e).invoices)
  {
    if e.PayPart? && e.id < |db.invoices| {
      PartialKeepsMoney(db.invoices[e.id], e.amount);
    }
  }

  lemma EnvKeepsMuxed(db: Db, e: EnvAction)
    requires MuxedUnique(db.invoices)
    ensures MuxedUnique(EnvStep(db, e).invoices)
  {
    var after := EnvStep(db, e).invoices;
    assert forall i | 0 <= i < |db.invoices| :: after[i].muxedId == db.invoices[i].muxedId;
  }

  lemma EnvFrame(db: Db, e: EnvAction)
    ensures EnvStep(db, e) == db.(invoices := EnvStep(db, e).invoices, webhooks := EnvStep(db, e).webhooks)
  {
  }

  /** The service marks an invoice paid only when nothing remains. */
  lemma EnvPaysInFull(db: Db, e: EnvAction, i: nat)
    requires i < |EnvStep(db, e).invoices|
    requires EnvStep(db, e).invoices[i].status == Paid && EnvStep(db, e).invoices[i].remaining != 0
    ensures i < |db.invoices| && db.invoices[i].status == Paid && db.invoices[i].remaining != 0
  {
  }

  lemma EnvEvolves(db: Db, e: EnvAction)
    requires TableMoneyOk(db.invoices) && MuxedUnique(db.invoices)
    ensures var after := EnvStep(db, e);
            && TableEvolves(db.invoices, after.invoices)
            && TableMoneyOk(after.invoices) && MuxedUnique(after.invoices)
            && after == db.(invoices := after.invoices, webhooks := after.webhooks)
            && (forall i :: 0 <= i < |after.invoices| && after.invoices[i].status == Paid
                            && after.invoices[i].remaining != 0
                  ==> i < |db.invoices| && db.invoices[i].status == Paid && db.invoices[i].remaining != 0)
  {
    EnvKeepsMoney(db, e);
    EnvKeepsMuxed(db, e);
    EnvFrame(db, e);
    var after := EnvStep(db, e);
    forall i | 0 <= i < |after.invoices| && after.invoices[i].status == Paid && after.invoices[i].remaining != 0
      ensures i < |db.invoices| && db.invoices[i].status == Paid && db.invoices[i].remaining != 0
    {
      EnvPaysInFull(db, e, i);
    }
  }

  lemma BackedEvolves(w: World, db: Db, after: Db, r: LedgerEntry)
    requires Backed(w, db, r)
    requires after.events == db.events && TableEvolves(db.invoices, after.invoices)
    ensures Backed(w, after, r)
  {
    assert Evolves(db.invoices[r.invoice], after.invoices[r.invoice]);
  }

  lemma ExplainedEvolves(w: World, invoices: seq<Invoice>, after: seq<Invoice>, events: seq<PaymentEvent>)
    requires EventsExplained(w, invoices, events) && TableEvolves(invoices, after)
    ensures EventsExplained(w, after, events)
  {
    forall i | 0 <= i < |events| ensures Explained(w, after, events[i]) {
      assert Explained(w, invoices, events[i]);
      var p :| Explains(w, invoices, events[i], p);
      var id := events[i].invoice;
      if id.Some? { assert Evolves(invoices[id.value], after[id.value]); }
      assert Explains(w, after, events[i], p);
    }
  }

  lemma EnvKeepsDbInv(w: World, db: Db, e: EnvAction)
    requires DbInv(w, db)
    ensures DbInv(w, EnvStep(db, e))
  {
    EnvEvolves(db, e);
    var after := EnvStep(db, e);
    ExplainedEvolves(w, db.invoices, after.invoices, db.events);
    forall k | 0 <= k < |after.ledger| ensures Backed(w, after, after.ledger[k]) {
      BackedEvolves(w, db, after, db.ledger[k]);
    }
  }

  lemma RowCurrentEvolves(db: Db, after: Db, row: InvoiceRow)
    requires RowCurrent(db, row) && TableEvolves(db.invoices, after.invoices)
    ensures RowCurrent(after, row)
  {
    assert Evolves(db.invoices[row.id], after.invoices[row.id]);
  }

  lemma EnvKeepsInv(w: World, s: System, e: EnvAction)
    requires Inv(w, s)
    ensures Inv(w, Step(w, s, Env(e)))
  {
    EnvKeepsDbInv(w, s.db, e);
    EnvEvolves(s.db, e);
    var after := EnvStep(s.db, e);
    if s.process.Up? {
      match s.process.at
      case RecordMismatch(row) => RowCurrentEvolves(s.db, after, row);
      case RecordEvent(matched, _) => if matched.Some? { RowCurrentEvolves(s.db, after, matched.value); }
      case Commit(row, _) => RowCurrentEvolves(s.db, after, row);
      case _ =>
    }
  }

  // ----- the reconciler's own writes --------------------------------------------------------

  lemma EventsGrow(events: seq<PaymentEvent>, e: PaymentEvent)
    ensures forall t :: EventExists(events + [e], t) <==> EventExists(events, t) || t == e.token
  {
    forall t ensures EventExists(events + [e], t) <==> EventExists(events, t) || t == e.token {
      if EventExists(events, t) {
        var i :| 0 <= i < |events| && events[i].token == t;
        assert (events + [e])[i].token == t;
      }
      if t == e.token { assert (events + [e])[|events|].token == t; }
    }
  }

  lemma InsertKeepsDbInv(w: World, db: Db, p: Payment, invoice: Option<nat>, verdict: Verdict)
    requires DbInv(w, db)
    requires p in w.horizon && IsAcceptedAsset(p, w.config) && p.amount.Some?
    requires !EventExists(db.events, p.token)
    requires Explains(w, db.invoices, EventRow(p, p.amount.value, invoice, verdict), p)
    ensures DbInv(w, InsertEvent(db, EventRow(p, p.amount.value, invoice, verdict)))
    ensures WrittenFor(w, EventRow(p, p.amount.value, invoice, verdict), p)
  {
    var e := EventRow(p, p.amount.value, invoice, verdict);
    var after := InsertEvent(db, e);
    assert WrittenFor(w, e, p);
    assert Explained(w, db.invoices, e);
    forall k | 0 <= k < |after.ledger| ensures Backed(w, after, after.ledger[k]) {
      assert Backed(w, db, db.ledger[k]);
      assert after.events[db.ledger[k].event] == db.events[db.ledger[k].event];
    }
  }

  lemma LedgerGrows(ledger: seq<LedgerEntry>, r: LedgerEntry)
    ensures forall id :: InLedger(ledger + [r], id) <==> InLedger(ledger, id) || id == r.invoice
    ensures forall e :: EventInLedger(ledger + [r], e) <==> EventInLedger(ledger, e) || e == r.event
  {
    forall id ensures InLedger(ledger + [r], id) <==> InLedger(ledger, id) || id == r.invoice {
      if InLedger(ledger, id) {
        var i :| 0 <= i < |ledger| && ledger[i].invoice == id;
        assert (ledger + [r])[i].invoice == id;
      }
      if id == r.invoice { assert (ledger + [r])[|ledger|].invoice == id; }
    }
    forall e ensures EventInLedger(ledger + [r], e) <==> EventInLedger(ledger, e) || e == r.event {
      if EventInLedger(ledger, e) {
        var i :| 0 <= i < |ledger| && ledger[i].event == e;
        assert (ledger + [r])[i].event == e;
      }
      if e == r.event { assert (ledger + [r])[|ledger|].event == e; }
    }
  }

  lemma CommitKeepsDeliveries(db: Db, row: InvoiceRow, event: nat)
    requires DeliveriesPaid(db) && !EventInLedger(db.ledger, event)
    ensures DeliveriesPaid(CommitPayment(db, row, event))
  {
    var after := CommitPayment(db, row, event);
    LedgerGrows(db.ledger, after.ledger[|db.ledger|]);
    PaidDeliveriesExact(db.webhooks, row, event);
    var added := PaidDeliveries(db.webhooks, row, event);
    forall i | 0 <= i < |after.deliveries|
      ensures EventInLedger(after.ledger, after.deliveries[i].event)
      ensures i >= |db.deliveries| ==> after.deliveries[i].event == event
      ensures i < |db.deliveries| ==> after.deliveries[i].event != event
    {
      if i >= |db.deliveries| { assert after.deliveries[i] in added; }
    }
  }

  lemma MarkPaidEvolves(invoices: seq<Invoice>, id: nat)
    requires TableMoneyOk(invoices)
    ensures TableEvolves(invoices, MarkPaid(invoices, id)) && TableMoneyOk(MarkPaid(invoices, id))
    ensures |MarkPaid(invoices, id)| == |invoices|
    ensures id < |invoices| ==> MarkPaid(invoices, id)[id].status != Pending
    ensures forall i :: 0 <= i < |invoices| && i != id ==> MarkPaid(invoices, id)[i] == invoices[i]
  {
  }

  lemma CommitKeepsDbInv(w: World, db: Db, row: InvoiceRow, event: nat)
    requires DbInv(w, db)
    requires RowCurrent(db, row) && !InLedger(db.ledger, row.id)
    requires event < |db.events| && !EventInLedger(db.ledger, event)
    requires Pays(w, db.events[event], row.id, db.invoices[row.id])
    ensures DbInv(w, CommitPayment(db, row, event))
  {
    var after := CommitPayment(db, row, event);
    var r := after.ledger[|db.ledger|];
    LedgerGrows(db.ledger, r);
    CommitKeepsDeliveries(db, row, event);
    MarkPaidEvolves(db.invoices, row.id);
    ExplainedEvolves(w, db.invoices, after.invoices, db.events);
    assert Evolves(db.invoices[row.id], after.invoices[row.id]);
    forall k | 0 <= k < |after.ledger| ensures Backed(w, after, after.ledger[k]) {
      if k < |db.ledger| {
        BackedEvolves(w, db, after, db.ledger[k]);
      }
    }
    assert LedgerUnique(after.ledger) by {
      forall j, k | 0 <= j < k < |after.ledger|
        ensures after.ledger[j].event != after.ledger[k].event && after.ledger[j].invoice != after.ledger[k].invoice
      {
        if k == |db.ledger| { assert db.ledger[j] == after.ledger[j]; }
      }
    }
  }

  // ----- every step -------------------------------------------------------------------------

  /** Going back to a cursor at or before the saved one leaves nothing unrecorded behind. */
  lemma RestartKeepsInv(w: World, s: System, boot: Token)
    requires Inv(w, s) && w.origin <= boot <= s.db.cursor
    ensures Inv(w, s.(process := Up(boot, After(w.horizon, boot), Fetch)))
  {
  }

  lemma RecordedCanCommit(w: World, db: Db, p: Payment, row: InvoiceRow, ofac: Screening)
    requires LedgerBacked(w, db) && InFlight(db, p, row) && ofac != Blocked && p.amount.Some?
    requires p in w.horizon && IsAcceptedAsset(p, w.config)
    ensures var e := EventRow(p, p.amount.value, Some(row.id), Screened(ofac));
            PointInv(w, InsertEvent(db, e), p, Commit(row, |db.events|))
  {
    var e := EventRow(p, p.amount.value, Some(row.id), Screened(ofac));
    assert InsertEvent(db, e).events[|db.events|] == e;
    assert WrittenFor(w, e, p);
    assert Pays(w, e, row.id, db.invoices[row.id]);
    assert forall k | 0 <= k < |db.ledger| :: Backed(w, db, db.ledger[k]);
  }

  lemma RecordKeepsInv(w: World, s: System, p: Payment, invoice: Option<nat>, verdict: Verdict, then_: Point)
    requires Inv(w, s) && s.process.Up? && s.process.at != Fetch
    requires p == w.horizon[s.process.next]
    requires !EventExists(s.db.events, p.token)
    requires p.amount.Some? ==> Explains(w, s.db.invoices, EventRow(p, p.amount.value, invoice, verdict), p)
    requires then_ == Save || (exists row, ofac ::
               && then_ == Commit(row, |s.db.events|) && invoice == Some(row.id)
               && verdict == Screened(ofac) && ofac != Blocked
               && InFlight(s.db, p, row))
    ensures Inv(w, Record(w, s, p, invoice, verdict, then_))
  {
    if p.amount.None? {
      RestartKeepsInv(w, s, s.process.boot);
    } else {
      InsertKeepsDbInv(w, s.db, p, invoice, verdict);
      var e := EventRow(p, p.amount.value, invoice, verdict);
      EventsGrow(s.db.events, e);
      if then_ != Save {
        var row, ofac :| then_ == Commit(row, |s.db.events|) && invoice == Some(row.id)
               && verdict == Screened(ofac) && ofac != Blocked && InFlight(s.db, p, row);
        RecordedCanCommit(w, s.db, p, row, ofac);
      }
    }
  }

  lemma MoveKeepsInv(w: World, s: System, at: Point)
    requires Inv(w, s) && s.process.Up? && s.process.at != Fetch
    requires PointInv(w, s.db, w.horizon[s.process.next], at)
    ensures Inv(w, Goto(s, at))
  {
  }

  /** A pending invoice has no ledger row yet. */
  lemma PendingNotInLedger(w: World, db: Db, id: nat)
    requires LedgerBacked(w, db) && id < |db.invoices| && db.invoices[id].status == Pending
    ensures !InLedger(db.ledger, id)
  {
    assert forall k | 0 <= k < |db.ledger| :: Backed(w, db, db.ledger[k]);
  }

  lemma MatchKeepsInv(w: World, s: System, o: Oracle)
    requires Inv(w, s) && s.process.Up? && s.process.at.Match?
    ensures Inv(w, AdvanceStep(w, s, o))
  {
    var p, ofac := w.horizon[s.process.next], s.process.at.ofac;
    if MatchAllowed(s.db.invoices, p, o.pick) {
      if o.pick.None? {
        MoveKeepsInv(w, s, RecordEvent(None, ofac));
      } else {
        MatchIsPending(s.db.invoices, p, o.pick);
        var row := RowOf(s.db.invoices, o.pick.value);
        if p.amount.None? {
          RestartKeepsInv(w, s, s.process.boot);
        } else if p.amount.value != row.gross {
          MoveKeepsInv(w, s, RecordMismatch(row));
        } else {
          PendingNotInLedger(w, s.db, row.id);
          MoveKeepsInv(w, s, RecordEvent(Some(row), ofac));
        }
      }
    }
  }

  lemma CommitStepKeepsInv(w: World, s: System, o: Oracle)
    requires Inv(w, s) && s.process.Up? && s.process.at.Commit?
    ensures Inv(w, AdvanceStep(w, s, o))
  {
    CommitKeepsDbInv(w, s.db, s.process.at.paidRow, s.process.at.event);
  }

  lemma SaveKeepsInv(w: World, s: System, o: Oracle)
    requires Inv(w, s) && s.process.Up? && s.process.at.Save?
    ensures Inv(w, AdvanceStep(w, s, o))
  {
    var n := s.process.next;
    var after := AdvanceStep(w, s, o);
    forall i | 0 <= i < |w.horizon| && w.origin < w.horizon[i].token && IsAcceptedAsset(w.horizon[i], w.config)
               && Behind(after, i, w.horizon[i])
      ensures EventExists(after.db.events, w.horizon[i].token)
    {
      if i < n { assert Behind(s, i, w.horizon[i]); }
    }
  }

  lemma FetchKeepsInv(w: World, s: System, o: Oracle)
    requires Inv(w, s) && s.process.Up? && s.process.at.Fetch?
    ensures Inv(w, AdvanceStep(w, s, o))
  {
    var n := s.process.next;
    if n < |w.horizon| {
      var p := w.horizon[n];
      var after := AdvanceStep(w, s, o);
      if EventExists(s.db.events, p.token) || !IsAcceptedAsset(p, w.config) {
        forall i | 0 <= i < |w.horizon| && w.origin < w.horizon[i].token && IsAcceptedAsset(w.horizon[i], w.config)
                   && Behind(after, i, w.horizon[i])
          ensures EventExists(after.db.events, w.horizon[i].token)
        {
          if i != n { assert Behind(s, i, w.horizon[i]); }
        }
      } else {
        // A payment without an event lies beyond the cursor.
        assert p.token <= s.db.cursor ==> Behind(s, n, p);
      }
    }
  }

  lemma AdvanceKeepsInv(w: World, s: System, o: Oracle)
    requires Inv(w, s) && s.process.Up?
    ensures Inv(w, AdvanceStep(w, s, o))
  {
    if s.process.next < |w.horizon| {
      var p := w.horizon[s.process.next];
      match s.process.at
      case Fetch => FetchKeepsInv(w, s, o);
      case Screen =>
      case RecordBlocked => RecordKeepsInv(w, s, p, None, Screened(Blocked), Save);
      case Match(_) => MatchKeepsInv(w, s, o);
      case RecordMismatch(row) => RecordKeepsInv(w, s, p, Some(row.id), AmountMismatch, Save);
      case RecordEvent(matched, ofac) =>
        if matched.None? {
          RecordKeepsInv(w, s, p, None, Screened(ofac), Save);
        } else {
          RecordKeepsInv(w, s, p, Some(matched.value.id), Screened(ofac), Commit(matched.value, |s.db.events|));
        }
      case Commit(_, _) => CommitStepKeepsInv(w, s, o);
      case Publish =>
      case Save => SaveKeepsInv(w, s, o);
    }
  }

  /** Only the Save step moves the cursor, and it moves it forward. */
  lemma CursorStep(w: World, s: System, a: Action)
    requires Inv(w, s)
    ensures s.db.cursor <= Step(w, s, a).db.cursor
  {
    if a.Env? { EnvEvolves(s.db, a.e); }
  }

  lemma StepKeepsInv(w: World, s: System, a: Action)
    requires Inv(w, s)
    ensures Inv(w, Step(w, s, a))
  {
    match a
    case Env(e) => EnvKeepsInv(w, s, e);
    case Crash =>
    case Boot => if s.process.Down? { RestartKeepsInv(w, s, s.db.cursor); }
    case Fail => if s.process.Up? { RestartKeepsInv(w, s, s.process.boot); }
    case Advance(o) => if s.process.Up? { AdvanceKeepsInv(w, s, o); }
  }

  lemma InitialInv(w: World, s: System)
    requires Initial(w, s)
    ensures Inv(w, s)
  {
  }

  lemma {:induction false} RunKeepsInv(w: World, s: System, acts: seq<Action>)
    requires Inv(w, s)
    ensures Inv(w, Exec(w, s, acts))
    ensures s.db.cursor <= Exec(w, s, acts).db.cursor
  {
    if acts != [] {
      var n := |acts| - 1;
      RunKeepsInv(w, s, acts[..n]);
      StepKeepsInv(w, Exec(w, s, acts[..n]), acts[n]);
      CursorStep(w, Exec(w, s, acts[..n]), acts[n]);
    }
  }
}
