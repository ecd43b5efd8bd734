/** The reconciler as the program it is: a loop over the lines of a stream and a method that
    reads and writes the shared tables one statement at a time. */
module Store {
  import opened Options
  import opened PaymentTables
  import opened Matcher
  import opened InvoiceRules
  import opened Reconciler
  import opened Processor
  import opened Retries

  class Postgres {
    var events: seq<PaymentEvent>
    var ledger: seq<LedgerEntry>
    var conversions: seq<Conversion>
    var deliveries: seq<Delivery>
    var invoices: seq<Invoice>
    var webhooks: seq<Webhook>
    var cursor: Token

    ghost function Contents(): Db
      reads this
    {
      Db(events, ledger, conversions, deliveries, invoices, webhooks, cursor)
    }

    constructor (initial: Db)
      ensures Contents() == initial
    {
      events, ledger, conversions := initial.events, initial.ledger, initial.conversions;
      deliveries, invoices, webhooks, cursor := initial.deliveries, initial.invoices, initial.webhooks, initial.cursor;
    }

    method HasEvent(token: Token) returns (exists_: bool)
      ensures exists_ == EventExists(events, token)
    {
      exists_ := false;
      for i := 0 to |events|
        invariant exists_ == EventExists(events[..i], token)
      {
        assert events[..i + 1] == events[..i] + [events[i]];
        if events[i].token == token {
          assert events[..i + 1][i].token == token;
          exists_ := true;
        } else if exists_ {
          var k :| 0 <= k < i && events[..i][k].token == token;
          assert events[..i + 1][k].token == token;
        }
      }
      assert events[..|events|] == events;
    }

    method InsertPaymentEvent(p: Payment, invoice: Option<nat>, verdict: Verdict) returns (id: Option<nat>)
      modifies `events
      ensures p.amount.None? <==> id.None?
      ensures id.None? ==> events == old(events)
      ensures id.Some? ==> id.value == |old(events)|
                           && events == old(events) + [EventRow(p, p.amount.value, invoice, verdict)]
    {
      match p.amount
      case None => id := None;
      case Some(amount) =>
        id := Some(|events|);
        events := events + [EventRow(p, amount, invoice, verdict)];
    }

    /** INSERT INTO webhook_deliveries SELECT .. FROM webhooks. */
    method QueuePaid(row: InvoiceRow, event: nat)
      modifies `deliveries
      ensures deliveries == old(deliveries) + PaidDeliveries(webhooks, row, event)
    {
      for i := 0 to |webhooks|
        invariant deliveries == old(deliveries) + PaidDeliveries(webhooks[..i], row, event)
      {
        assert webhooks[..i + 1][..i] == webhooks[..i];
        if WantsPaid(webhooks[i], row.merchant) {
          deliveries := deliveries + [Delivery(i, row.id, event)];
        }
      }
      assert webhooks[..|webhooks|] == webhooks;
    }

    /** The transaction: ledger row, status, deliveries, conversion. */
    method CommitMatched(row: InvoiceRow, event: nat)
      modifies `ledger, `invoices, `deliveries, `conversions
      ensures Contents() == CommitPayment(old(Contents()), row, event)
      ensures ledger == old(ledger) + [LedgerEntry(row.id, row.merchant, event, row.grossEquiv, row.fee, row.net)]
      ensures conversions == old(conversions) + [Conversion(row.id, row.merchant)]
      ensures |invoices| == |old(invoices)|
      ensures forall j :: 0 <= j < |invoices| ==>
                invoices[j] == if j == row.id && old(invoices)[j].status == Pending
                               then old(invoices)[j].(status := Paid) else old(invoices)[j]
    {
      ledger := ledger + [LedgerEntry(row.id, row.merchant, event, row.grossEquiv, row.fee, row.net)];
      if row.id < |invoices| && invoices[row.id].status == Pending {
        invoices := invoices[row.id := invoices[row.id].(status := Paid)];
      }
      QueuePaid(row, event);
      conversions := conversions + [Conversion(row.id, row.merchant)];
    }

    /** process_payment; fault is the await that returns an error, if one does. */
    method Process(config: Config, screen: Screen, p: Payment, fault: Option<Await>) returns (ok: bool)
      modifies this
      ensures (if ok then Done(Contents()) else Failed(Contents()))
              == Processed(old(Contents()), config, screen, p, fault)
    {
      if fault == Some(ExistsCheck) { return false; }
      var seen := HasEvent(p.token);
      if seen || !IsAcceptedAsset(p, config) { return true; }
      if fault == Some(Screening) { return false; }
      var ofac := screen(p.from);
      if ofac == Blocked {
        RecordedOutcome(Contents(), config, screen, p, fault, None, Screened(ofac));
        ok := RecordOnly(p, None, Screened(ofac), fault);
        return;
      }
      if fault == Some(Matching) { return false; }
      var found := MatchInvoice(invoices, p);
      if found.None? {
        RecordedOutcome(Contents(), config, screen, p, fault, None, Screened(ofac));
        ok := RecordOnly(p, None, Screened(ofac), fault);
        return;
      }
      if p.amount.None? { return false; }
      if p.amount.value != invoices[found.value].gross {
        RecordedOutcome(Contents(), config, screen, p, fault, found, AmountMismatch);
        ok := RecordOnly(p, found, AmountMismatch, fault);
        return;
      }
      PaidOutcome(Contents(), config, screen, p, fault, found.value);
      ok := RecordAndCommit(p, RowOf(invoices, found.value), ofac, fault);
    }

    /** The event, the transaction, the publish and the cursor of a payment that pays an invoice. */
    method RecordAndCommit(
        p: Payment, row: InvoiceRow, ofac: PaymentTables.Screening, fault: Option<Await>) returns (ok: bool)
      requires p.amount.Some?
      modifies this
      ensures var recorded := InsertEvent(old(Contents()), EventRow(p, p.amount.value, Some(row.id), Screened(ofac)));
              var committed := CommitPayment(recorded, row, |old(events)|);
              && ok == (fault !in {Some(EventInsert), Some(Transaction), Some(Publishing), Some(CursorSave)})
              && Contents() == if fault == Some(EventInsert) then old(Contents())
                               else if fault == Some(Transaction) then recorded
                               else if ok then SaveCursor(committed, p.token) else committed
    {
      if fault == Some(EventInsert) { return false; }
      var id := InsertPaymentEvent(p, Some(row.id), Screened(ofac));
      if fault == Some(Transaction) { return false; }
      CommitMatched(row, id.value);
      if fault == Some(Publishing) || fault == Some(CursorSave) { return false; }
      cursor := p.token;
      return true;
    }

    /** The event and the cursor of a payment that pays no invoice. */
    method RecordOnly(p: Payment, invoice: Option<nat>, verdict: Verdict, fault: Option<Await>) returns (ok: bool)
      modifies `events, `cursor
      ensures p.amount.None? || fault == Some(EventInsert) ==> !ok && Contents() == old(Contents())
      ensures p.amount.Some? && fault != Some(EventInsert) ==>
                var recorded := InsertEvent(old(Contents()), EventRow(p, p.amount.value, invoice, verdict));
                && ok == (fault != Some(CursorSave))
                && Contents() == if ok then SaveCursor(recorded, p.token) else recorded
    {
      if fault == Some(EventInsert) { return false; }
      var id := InsertPaymentEvent(p, invoice, verdict);
      if id.None? || fault == Some(CursorSave) { return false; }
      cursor := p.token;
      return true;
    }

    /** run_stream: the payments of one response in order, up to the first error. */
    method ReadStream(config: Config, screen: Screen, payments: seq<Payment>, fault: Fault) returns (ok: bool)
      modifies this
      ensures (if ok then Done(Contents()) else Failed(Contents()))
              == Attempt(old(Contents()), config, screen, payments, fault)
    {
      for i := 0 to |payments|
        invariant Attempt(old(Contents()), config, screen, payments[..i], fault) == Done(Contents())
      {
        OneMoreOfAttempt(old(Contents()), config, screen, payments, fault, i);
        ok := Process(config, screen, payments[i], if i == fault.payment then Some(fault.at) else None);
        if !ok {
          AttemptStops(old(Contents()), config, screen, payments, fault, i + 1);
          return false;
        }
      }
      assert payments[..|payments|] == payments;
      return true;
    }

    /** run_with_backoff: attempts from the boot cursor until one succeeds; the first ones meet the
        given errors, the next one none. Together they do what one pass does, except for commits that
        were cut off (and for the cursor, which nothing reads back but a restart). */
    method RunWithBackoff(config: Config, screen: Screen, payments: seq<Payment>, faults: seq<Fault>) returns (ok: bool)
      modifies this
      ensures (if ok then Done(Contents()) else Failed(Contents()))
              == Attempts(old(Contents()), config, screen, payments, faults)
      ensures EventsKnown(old(Contents())) ==>
                var once := RunStream(old(Contents()), config, screen, payments);
                && (ok <==> once.Done?)
                && (Tables(Contents()) == Tables(once.db)
                    <==> !SomeCommitLost(old(Contents()), config, screen, payments, faults))
    {
      if EventsKnown(Contents()) { RetriesRefineIff(Contents(), config, screen, payments, faults); }
      for i := 0 to |faults|
        invariant Attempts(Contents(), config, screen, payments, faults[i..])
                  == Attempts(old(Contents()), config, screen, payments, faults)
      {
        assert faults[i..][0] == faults[i] && faults[i..][1..] == faults[i + 1..];
        ok := ReadStream(config, screen, payments, faults[i]);
        if ok { return true; }
      }
      assert faults[|faults|..] == [];
      ok := ReadStream(config, screen, payments, Fault(|payments|, ExistsCheck));
    }

    // ----- the invoice service on the same tables ---------------------------------------------

    method Cancel(merchant: nat, id: nat) returns (found: bool)
      modifies `invoices
      ensures found <==> id < |old(invoices)| && old(invoices)[id].merchant == merchant
                         && old(invoices)[id].status in {Pending, Partial}
      ensures |invoices| == |old(invoices)|
      ensures forall j :: 0 <= j < |invoices| ==>
                invoices[j] == if found && j == id then old(invoices)[j].(status := Cancelled) else old(invoices)[j]
      ensures Contents() == EnvStep(old(Contents()), EnvAction.CancelInvoice(merchant, id))
    {
      found := id < |invoices| && invoices[id].merchant == merchant && Open(invoices[id]);
      if found {
        invoices := invoices[id := invoices[id].(status := Cancelled)];
      }
    }

    /** The bulk UPDATE of expireInvoices. */
    method ExpireDue(now: int)
      modifies `invoices
      ensures Contents() == EnvStep(old(Contents()), ExpireInvoices(now))
      ensures |invoices| == |old(invoices)|
      ensures forall j :: 0 <= j < |invoices| ==>
                invoices[j] == if old(invoices)[j].status in {Pending, Partial} && old(invoices)[j].expiresAt < now
                               then old(invoices)[j].(status := Expired) else old(invoices)[j]
      ensures forall j :: 0 <= j < |invoices| && invoices[j].status in {Pending, Partial} ==>
                invoices[j].expiresAt >= now
    {
      for i := 0 to |invoices|
        invariant |invoices| == |old(invoices)|
        invariant forall j :: 0 <= j < |invoices| ==>
                    invoices[j] == if j < i then ExpireRow(old(invoices)[j], now) else old(invoices)[j]
      {
        if Open(invoices[i]) && invoices[i].expiresAt < now {
          invoices := invoices[i := invoices[i].(status := Expired)];
        }
      }
    }

    /** The bulk UPDATE of autoCancelUnpaidInvoices. */
    method AutoCancelUnpaid(ttl: map<nat, int>, now: int)
      modifies `invoices
      ensures Contents() == EnvStep(old(Contents()), CancelUnpaid(ttl, now))
      ensures |invoices| == |old(invoices)|
      ensures forall j :: 0 <= j < |invoices| ==>
                var v := old(invoices)[j];
                invoices[j] == if v.status in {Pending, Partial} && v.merchant in ttl
                                  && now - v.createdAt > ttl[v.merchant]
                               then v.(status := Cancelled) else v
      ensures forall j :: 0 <= j < |invoices| && invoices[j].status in {Pending, Partial}
                          && invoices[j].merchant in ttl ==>
                now <= invoices[j].createdAt + ttl[invoices[j].merchant]
    {
      for i := 0 to |invoices|
        invariant |invoices| == |old(invoices)|
        invariant forall j :: 0 <= j < |invoices| ==>
                    invoices[j] == if j < i then CancelUnpaidRow(old(invoices)[j], ttl, now) else old(invoices)[j]
      {
        var v := invoices[i];
        if Open(v) && v.merchant in ttl && v.createdAt + ttl[v.merchant] < now {
          invoices := invoices[i := v.(status := Cancelled)];
        }
      }
    }

    method ApplyPartialPayment(id: nat, amount: Units) returns (error: Option<PartialError>)
      modifies `invoices
      ensures Contents() == EnvStep(old(Contents()), PayPart(id, amount))
      ensures error == Some(NotFound) <==> id >= |old(invoices)| || old(invoices)[id].status !in {Pending, Partial}
      ensures error !in {None, Some(NotFound)} ==>
                var v := old(invoices)[id];
                error == if !v.partialEnabled then Some(PartialsDisabled)
                         else if amount < 1 || v.remaining < 1 then Some(AmountNotPositive)
                         else Some(ExceedsRemaining)
      ensures error.None? ==>
                var v := old(invoices)[id];
                && v.partialEnabled && 1 <= amount <= v.remaining
                && invoices == old(invoices)[id := v.(paid := v.paid + amount, remaining := v.remaining - amount,
                                                      status := if amount == v.remaining then Paid else Partial)]
      ensures error.Some? ==> invoices == old(invoices)
      ensures error == if id >= |old(invoices)| then Some(NotFound)
                       else match ApplyPartial(old(invoices)[id], amount)
                            case Applied(_) => None
                            case Rejected(e) => Some(e)
    {
      if id >= |invoices| || !Open(invoices[id]) { return Some(NotFound); }
      var v := invoices[id];
      if !v.partialEnabled { return Some(PartialsDisabled); }
      if amount <= 0 || v.remaining <= 0 { return Some(AmountNotPositive); }
      var remaining := v.remaining - amount;
      if remaining < 0 { return Some(ExceedsRemaining); }
      invoices := invoices[id := v.(paid := v.paid + amount, remaining := remaining,
                                    status := if remaining == 0 then Paid else Partial)];
      return None;
    }
  }

  /** process_payment with or without an error. */
  function Processed(db: Db, config: Config, screen: Screen, p: Payment, fault: Option<Await>): Outcome
  {
    match fault
    case None => ProcessPayment(db, config, screen, p)
    case Some(at) => ProcessWith(db, config, screen, p, at)
  }

  /** The outcomes of a payment that is recorded and pays nothing, and of one that pays the i-th
      invoice. */
  lemma RecordedOutcome(
      db: Db, config: Config, screen: Screen, p: Payment, fault: Option<Await>, invoice: Option<nat>, verdict: Verdict)
    requires IsNew(db, config, p) && !Commits(db, config, screen, p)
    requires ProcessPayment(db, config, screen, p) == RecordAndSave(db, p, invoice, verdict)
    requires fault !in {Some(ExistsCheck), Some(Screening)} && (fault == Some(Matching) ==> screen(p.from) == Blocked)
    ensures Processed(db, config, screen, p, fault)
            == if p.amount.None? || fault == Some(EventInsert) then Failed(db)
               else
                 var recorded := InsertEvent(db, EventRow(p, p.amount.value, invoice, verdict));
                 if fault == Some(CursorSave) then Failed(recorded) else Done(SaveCursor(recorded, p.token))
  {
  }

  lemma PaidOutcome(db: Db, config: Config, screen: Screen, p: Payment, fault: Option<Await>, i: nat)
    requires Commits(db, config, screen, p) && MatchInvoice(db.invoices, p) == Some(i) && i < |db.invoices|
    requires fault !in {Some(ExistsCheck), Some(Screening), Some(Matching)}
    ensures p.amount.Some?
    ensures var recorded := InsertEvent(db, EventRow(p, p.amount.value, Some(i), Screened(screen(p.from))));
            var committed := CommitPayment(recorded, RowOf(db.invoices, i), |db.events|);
            Processed(db, config, screen, p, fault)
            == if fault == Some(EventInsert) then Failed(db)
               else if fault == Some(Transaction) then Failed(recorded)
               else if fault in {Some(Publishing), Some(CursorSave)} then Failed(committed)
               else Done(SaveCursor(committed, p.token))
  {
  }

  lemma AfterFault(db: Db, config: Config, screen: Screen, before: seq<Payment>, p: Payment, fault: Fault)
    requires Attempt(db, config, screen, before, fault).Done? && fault.payment < |before|
    ensures Attempt(db, config, screen, before + [p], fault)
            == ProcessPayment(Attempt(db, config, screen, before, fault).db, config, screen, p)
  {
    var front := before + [p];
    assert before[..fault.payment] == front[..fault.payment] && front[..|before|] == before;
    UndisturbedIfDone(db, config, screen, before, fault);
    AttemptCases(db, config, screen, before, fault);
    AttemptCases(db, config, screen, front, fault);
    FaultCases(Before(db, config, screen, before, fault).db, config, screen, before[fault.payment], fault.at);
  }

  lemma AtFault(db: Db, config: Config, screen: Screen, before: seq<Payment>, p: Payment, at: Await)
    requires RunStream(db, config, screen, before).Done?
    ensures Attempt(db, config, screen, before + [p], Fault(|before|, at))
            == ProcessWith(RunStream(db, config, screen, before).db, config, screen, p, at)
  {
    var front := before + [p];
    assert front[..|before|] == before && front[|before| + 1..] == [];
  }

  lemma BeforeFault(db: Db, config: Config, screen: Screen, before: seq<Payment>, p: Payment, fault: Fault)
    requires RunStream(db, config, screen, before).Done? && fault.payment > |before|
    ensures Attempt(db, config, screen, before + [p], fault)
            == ProcessPayment(RunStream(db, config, screen, before).db, config, screen, p)
  {
    assert (before + [p])[..|before|] == before;
  }

  /** An attempt, payment by payment. */
  lemma OneMoreOfAttempt(db: Db, config: Config, screen: Screen, payments: seq<Payment>, fault: Fault, k: nat)
    requires k < |payments| && Attempt(db, config, screen, payments[..k], fault).Done?
    ensures Attempt(db, config, screen, payments[..k + 1], fault)
            == Processed(Attempt(db, config, screen, payments[..k], fault).db, config, screen, payments[k],
                         if k == fault.payment then Some(fault.at) else None)
  {
    var before := payments[..k];
    assert payments[..k + 1] == before + [payments[k]];
    if fault.payment < k {
      AfterFault(db, config, screen, before, payments[k], fault);
    } else if fault.payment == k {
      AtFault(db, config, screen, before, payments[k], fault.at);
    } else {
      BeforeFault(db, config, screen, before, payments[k], fault);
    }
  }

  /** An error ends the attempt whatever follows. */
  lemma AttemptStops(db: Db, config: Config, screen: Screen, payments: seq<Payment>, fault: Fault, k: nat)
    requires k <= |payments| && Attempt(db, config, screen, payments[..k], fault).Failed?
    ensures Attempt(db, config, screen, payments, fault) == Attempt(db, config, screen, payments[..k], fault)
  {
    var front := payments[..k];
    if fault.payment < k {
      assert front[..fault.payment] == payments[..fault.payment];
      AttemptCases(db, config, screen, front, fault);
      AttemptCases(db, config, screen, payments, fault);
      var mid := Before(db, config, screen, front, fault);
      FaultCases(mid.db, config, screen, payments[fault.payment], fault.at);
      if RunStream(db, config, screen, front).Failed? { StreamStops(db, config, screen, payments, k); }
    } else {
      StreamStops(db, config, screen, payments, k);
      if fault.payment < |payments| {
        assert payments[..fault.payment][..k] == front;
        StreamStops(db, config, screen, payments[..fault.payment], k);
      }
    }
  }
}
