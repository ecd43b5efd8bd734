/** What the tables hold after the reconciler's runs, in the columns of the payments, invoices and
    rows themselves. */
module PaymentColumns {
  import opened Options
  import opened PaymentTables
  import opened Matcher
  import opened Reconciler
  import opened ReconcilerSafety
  import opened ReconcilerTheorems
  import opened Processor

  predicate Usdc(p: Payment, config: Config)
  {
    p.assetType != Some("native") && p.assetCode == Some("USDC") && p.assetIssuer == Some(config.assetIssuer)
  }

  /** Of the configured issuer, or of any when none is configured. */
  predicate Eurc(p: Payment, config: Config)
  {
    p.assetType != Some("native") && p.assetCode == Some("EURC")
    && (config.eurcIssuer.None? || p.assetIssuer == config.eurcIssuer)
  }

  predicate Xlm(p: Payment)
  {
    p.assetType == Some("native")
  }

  predicate Genuine(p: Payment, config: Config)
  {
    Usdc(p, config) || Eurc(p, config) || Xlm(p)
  }

  lemma GenuineIsAccepted(p: Payment, config: Config)
    ensures IsAcceptedAsset(p, config) <==> Genuine(p, config)
    ensures Genuine(p, config) ==>
              PaymentCurrency(p) == if Xlm(p) then "XLM" else if Usdc(p, config) then "USDC" else "EURC"
  {
    assert ACCEPTED_ASSETS[0] == "USDC" && ACCEPTED_ASSETS[1] == "EURC" && ACCEPTED_ASSETS[2] == "XLM";
    assert "XLM"[0] == 'X' && "USDC"[0] == 'U' && "EURC"[0] == 'E';
  }

  /** The event row copies the payment. */
  predicate Records(e: PaymentEvent, p: Payment, config: Config)
  {
    && e.token == p.token && e.payer == p.from && p.amount == Some(e.amount)
    && (Usdc(p, config) ==> e.assetCode == "USDC" && e.assetIssuer == config.assetIssuer)
    && (Eurc(p, config) ==>
          e.assetCode == "EURC" && (config.eurcIssuer.Some? ==> e.assetIssuer == config.eurcIssuer.value))
    && (Xlm(p) && p.assetCode.None? && p.assetIssuer.None? ==> e.assetCode == "XLM" && e.assetIssuer == "native")
  }

  lemma EventRowRecords(p: Payment, amount: Units, invoice: Option<nat>, verdict: Verdict, config: Config)
    requires p.amount == Some(amount)
    ensures Records(EventRow(p, amount, invoice, verdict), p, config)
  {
  }

  /** The payment names the invoice by its muxed id or its memo, and is in its currency. */
  predicate Names(p: Payment, v: Invoice, config: Config)
  {
    && (DecodeMuxedId(p.to) == Some(v.muxedId) || (p.memo.Some? && p.memo == v.memo))
    && (v.currency == "USDC" ==> Usdc(p, config))
    && (v.currency == "EURC" ==> Eurc(p, config))
    && (v.currency == "XLM" ==> Xlm(p))
    && v.currency in {"USDC", "EURC", "XLM"}
  }

  lemma AboutNames(p: Payment, v: Invoice, config: Config)
    requires Genuine(p, config) && About(p, v)
    ensures Names(p, v, config)
  {
    GenuineIsAccepted(p, config);
    assert "XLM"[0] == 'X' && "USDC"[0] == 'U' && "EURC"[0] == 'E';
  }

  // ----- restarts and the invoice service ---------------------------------------------------

  /** A process that boots, or goes back after an error, reads on after its boot cursor: the saved one at
      boot, the old one after an error. Nothing of the tables changes. */
  lemma ReadsAfterBootCursor(w: World, s: System)
    requires Ordered(w.horizon)
    ensures s.process.Down? ==>
              var t := Step(w, s, Boot); t.db == s.db && t.process.Up? && t.process.boot == s.db.cursor
    ensures s.process.Up? ==>
              var t := Step(w, s, Fail); t.db == s.db && t.process.Up? && t.process.boot == s.process.boot
    ensures forall a :: a in {Boot, Fail} && (a == Boot <==> s.process.Down?) ==>
              var t := Step(w, s, a);
              && t.process.Up? && t.process.at == Fetch && t.process.next <= |w.horizon|
              && forall i :: 0 <= i < |w.horizon| ==> (i < t.process.next <==> w.horizon[i].token <= t.process.boot)
    ensures Step(w, s, Crash).process == Down && Step(w, s, Crash).db == s.db
  {
  }

  /** Creating an invoice with an unused muxed id adds it; webhooks are added and switched off. */
  lemma ServiceAdds(db: Db, v: Invoice, hook: Webhook, merchant: nat, id: nat)
    requires v.status == Pending && v.gross > 0 && v.paid == 0 && v.remaining == v.gross
    requires forall i :: 0 <= i < |db.invoices| ==> db.invoices[i].muxedId != v.muxedId
    ensures EnvStep(db, CreateInvoice(v)) == db.(invoices := db.invoices + [v])
    ensures EnvStep(db, AddWebhook(hook)) == db.(webhooks := db.webhooks + [hook])
    ensures id < |db.webhooks| && db.webhooks[id].merchant == merchant ==>
              EnvStep(db, DeactivateWebhook(merchant, id))
              == db.(webhooks := db.webhooks[id := Webhook(merchant, false, db.webhooks[id].events)])
    ensures id >= |db.webhooks| || db.webhooks[id].merchant != merchant ==>
              EnvStep(db, DeactivateWebhook(merchant, id)) == db
  {
  }

  // ----- events -----------------------------------------------------------------------------

  /** What an event row says of the payment and of the invoice it is linked to. */
  predicate Tells(e: PaymentEvent, p: Payment, invoices: seq<Invoice>, config: Config)
  {
    && Genuine(p, config) && Records(e, p, config)
    && (e.invoice.None? ==> e.verdict in {Screened(Clear), Screened(Review), Screened(Blocked)})
    && (e.invoice.Some? ==>
          && e.invoice.value < |invoices|
          && var v := invoices[e.invoice.value];
          && Names(p, v, config)
          && (if e.amount == v.gross then e.verdict in {Screened(Clear), Screened(Review)}
              else e.verdict == AmountMismatch))
  }

  /** In every run each event was written for a genuine payment of the stream, with its columns; it is
      linked to an invoice only if the payment names it and is not blocked, and is marked as a
      mismatch exactly when its amount is not the gross. */
  lemma EventsAreGenuine(w: World, s: System, acts: seq<Action>, i: nat)
    requires Initial(w, s) && i < |Exec(w, s, acts).db.events|
    ensures var db := Exec(w, s, acts).db;
            exists p :: p in w.horizon && Tells(db.events[i], p, db.invoices, w.config)
  {
    InitialInv(w, s);
    RunKeepsInv(w, s, acts);
    var db := Exec(w, s, acts).db;
    assert Explained(w, db.invoices, db.events[i]);
    ExplainedTells(w, db, db.events[i]);
  }

  lemma ExplainedTells(w: World, db: Db, e: PaymentEvent)
    requires Explained(w, db.invoices, e)
    ensures exists p :: p in w.horizon && Tells(e, p, db.invoices, w.config)
  {
    var p :| Explains(w, db.invoices, e, p);
    GenuineIsAccepted(p, w.config);
    EventRowRecords(p, e.amount, e.invoice, e.verdict, w.config);
    if e.invoice.Some? { AboutNames(p, db.invoices[e.invoice.value], w.config); }
    assert e.verdict.Screened? ==> e.verdict.result.Clear? || e.verdict.result.Review? || e.verdict.result.Blocked?;
    assert Tells(e, p, db.invoices, w.config);
  }

  /** In every run each genuine payment (of USDC or EURC of the right issuer, or native) between the
      first cursor and the saved one has an event with its columns. */
  lemma GenuineAreRecorded(w: World, s: System, acts: seq<Action>, p: Payment)
    requires Initial(w, s) && p in w.horizon && Genuine(p, w.config)
    requires w.origin < p.token <= Exec(w, s, acts).db.cursor
    ensures exists e :: e in Exec(w, s, acts).db.events && Records(e, p, w.config)
  {
    GenuineIsAccepted(p, w.config);
    NoGapBehindCursor(w, s, acts);
    var e :| e in Exec(w, s, acts).db.events && WrittenFor(w, e, p);
    EventRowRecords(p, e.amount, e.invoice, e.verdict, w.config);
  }

  // ----- ledger rows ------------------------------------------------------------------------

  /** A ledger row and the rows it points to. */
  predicate RowTells(r: LedgerEntry, e: PaymentEvent, v: Invoice, config: Config)
  {
    && e.invoice == Some(r.invoice) && e.amount == v.gross
    && e.verdict in {Screened(Clear), Screened(Review)}
    && (v.currency == "USDC" ==> e.assetCode == "USDC" && e.assetIssuer == config.assetIssuer)
    && (v.currency == "EURC" ==>
          e.assetCode == "EURC" && (config.eurcIssuer.Some? ==> e.assetIssuer == config.eurcIssuer.value))
    && v.currency in {"USDC", "EURC", "XLM"}
    && r.merchant == v.merchant && r.gross == v.grossEquiv && r.fee == v.fee && r.net == v.net
    && v.status in {Partial, Paid, Expired, Cancelled}
  }

  /** In every run each ledger row carries its invoice's terms and points to an event of the invoice's
      currency, of the right issuer, of its exact gross and not blocked, written for a payment of the
      stream that names the invoice. */
  lemma LedgerInColumns(w: World, s: System, acts: seq<Action>, k: nat)
    requires Initial(w, s) && k < |Exec(w, s, acts).db.ledger|
    ensures var db := Exec(w, s, acts).db;
      var r := db.ledger[k];
      && r.event < |db.events| && r.invoice < |db.invoices|
      && RowTells(r, db.events[r.event], db.invoices[r.invoice], w.config)
      && exists p :: p in w.horizon && p.token == db.events[r.event].token && Names(p, db.invoices[r.invoice], w.config)
  {
    LedgerIsSound(w, s, acts);
    var db := Exec(w, s, acts).db;
    assert Backed(w, db, db.ledger[k]);
    BackedTells(w, db, db.ledger[k]);
  }

  lemma BackedTells(w: World, db: Db, r: LedgerEntry)
    requires Backed(w, db, r)
    ensures RowTells(r, db.events[r.event], db.invoices[r.invoice], w.config)
    ensures exists p ::
              p in w.horizon && p.token == db.events[r.event].token && Names(p, db.invoices[r.invoice], w.config)
  {
    var e, v := db.events[r.event], db.invoices[r.invoice];
    var p :| WrittenFor(w, e, p) && About(p, v);
    GenuineIsAccepted(p, w.config);
    EventRowRecords(p, e.amount, e.invoice, e.verdict, w.config);
    AboutNames(p, v, w.config);
  }

  // ----- one payment ------------------------------------------------------------------------

  /** A payment that was seen, or is not genuine, changes nothing; one whose amount does not parse is an
      error that changes nothing. */
  lemma PaymentIgnored(db: Db, config: Config, screen: Screen, p: Payment)
    ensures !Genuine(p, config) || (exists i :: 0 <= i < |db.events| && db.events[i].token == p.token) ==>
              ProcessPayment(db, config, screen, p) == Done(db)
    ensures Genuine(p, config) && p.amount.None?
            && (forall i :: 0 <= i < |db.events| ==> db.events[i].token != p.token) ==>
              ProcessPayment(db, config, screen, p) == Failed(db)
  {
    GenuineIsAccepted(p, config);
  }

  /** A new genuine payment. */
  predicate Arrives(db: Db, config: Config, p: Payment)
  {
    Genuine(p, config) && p.amount.Some? && forall i :: 0 <= i < |db.events| ==> db.events[i].token != p.token
  }

  /** The invoice a new payment is linked to. */
  function Linked(db: Db, screen: Screen, p: Payment): Option<nat>
  {
    if screen(p.from) == Blocked then None else MatchInvoice(db.invoices, p)
  }

  lemma LinkedIsNamed(db: Db, config: Config, screen: Screen, p: Payment)
    requires Genuine(p, config)
    ensures Linked(db, screen, p).Some? ==>
              var i := Linked(db, screen, p).value;
              i < |db.invoices| && db.invoices[i].status == Pending && Names(p, db.invoices[i], config)
  {
    MatchInvoiceAllowed(db.invoices, p);
    if Linked(db, screen, p).Some? {
      MatchIsPending(db.invoices, p, Linked(db, screen, p));
      AboutNames(p, db.invoices[Linked(db, screen, p).value], config);
    }
  }

  lemma PaymentCases(db: Db, config: Config, screen: Screen, p: Payment)
    requires Arrives(db, config, p)
    ensures ProcessPayment(db, config, screen, p)
            == match Linked(db, screen, p)
               case None => RecordAndSave(db, p, None, Screened(screen(p.from)))
               case Some(i) => MatchedTo(db, screen(p.from), p, i)
  {
    GenuineIsAccepted(p, config);
  }

  lemma MatchedCases(db: Db, ofac: Screening, p: Payment, i: nat)
    requires p.amount.Some? && i < |db.invoices| && db.invoices[i].status == Pending
    ensures var v, r := db.invoices[i], MatchedTo(db, ofac, p, i);
      && r.Done?
      && if p.amount.value != v.gross then r == RecordAndSave(db, p, Some(i), AmountMismatch)
         else
           && r.db.events == db.events + [EventRow(p, v.gross, Some(i), Screened(ofac))]
           && r.db.cursor == p.token && r.db.webhooks == db.webhooks
           && r.db.ledger == db.ledger + [LedgerEntry(i, v.merchant, |db.events|, v.grossEquiv, v.fee, v.net)]
           && r.db.conversions == db.conversions + [Conversion(i, v.merchant)]
           && r.db.invoices == db.invoices[i := v.(status := Paid)]
  {
  }

  /** A new genuine payment gets one event with its columns and moves the cursor to its token. A blocked
      one is linked to nothing; a linked one names a pending invoice and is marked as a mismatch exactly
      when its amount is not the gross. */
  lemma PaymentRecorded(db: Db, config: Config, screen: Screen, p: Payment)
    requires Arrives(db, config, p)
    ensures var r, n := ProcessPayment(db, config, screen, p), |db.events|;
      && r.Done? && |r.db.events| == n + 1 && r.db.events[..n] == db.events
      && r.db.cursor == p.token && r.db.webhooks == db.webhooks
      && var e := r.db.events[n];
      && Records(e, p, config)
      && (screen(p.from) == Blocked ==> e.invoice == None)
      && (e.invoice.None? ==> e.verdict == Screened(screen(p.from)))
      && (e.invoice.Some? ==>
            && e.invoice.value < |db.invoices| && db.invoices[e.invoice.value].status == Pending
            && Names(p, db.invoices[e.invoice.value], config)
            && e.verdict == if e.amount == db.invoices[e.invoice.value].gross then Screened(screen(p.from))
                            else AmountMismatch)
  {
    PaymentCases(db, config, screen, p);
    LinkedIsNamed(db, config, screen, p);
    var linked := Linked(db, screen, p);
    if linked.Some? { MatchedCases(db, screen(p.from), p, linked.value); }
  }

  /** The other tables: a matching payment of the exact gross gets its ledger row and conversion and
      makes the invoice paid; any other leaves them alone. */
  lemma PaymentSettled(db: Db, config: Config, screen: Screen, p: Payment)
    requires Arrives(db, config, p)
    ensures var after := ProcessPayment(db, config, screen, p).db;
      && |after.events| > |db.events|
      && var e := after.events[|db.events|];
      if e.invoice.Some? && e.verdict != AmountMismatch then
        && e.invoice.value < |db.invoices|
        && var v := db.invoices[e.invoice.value];
        && after.ledger
           == db.ledger + [LedgerEntry(e.invoice.value, v.merchant, |db.events|, v.grossEquiv, v.fee, v.net)]
        && after.conversions == db.conversions + [Conversion(e.invoice.value, v.merchant)]
        && after.invoices == db.invoices[e.invoice.value := v.(status := Paid)]
      else
        && after.ledger == db.ledger && after.conversions == db.conversions
        && after.invoices == db.invoices && after.deliveries == db.deliveries
  {
    PaymentCases(db, config, screen, p);
    LinkedIsNamed(db, config, screen, p);
    var linked := Linked(db, screen, p);
    if linked.Some? { MatchedCases(db, screen(p.from), p, linked.value); }
  }

  /** When the payment names one pending invoice by muxed id, or none by muxed id and one by memo, that is
      the one it is linked to. */
  lemma PaymentFindsInvoice(db: Db, config: Config, screen: Screen, p: Payment, i: nat)
    requires Arrives(db, config, p) && screen(p.from) != Blocked
    requires i < |db.invoices| && db.invoices[i].status == Pending && Names(p, db.invoices[i], config)
    requires forall j :: 0 <= j < |db.invoices| && j != i && db.invoices[j].status == Pending ==>
               && DecodeMuxedId(p.to) != Some(db.invoices[j].muxedId)
               && (DecodeMuxedId(p.to) == Some(db.invoices[i].muxedId) || db.invoices[j].memo != p.memo)
    ensures |ProcessPayment(db, config, screen, p).db.events| > |db.events|
    ensures ProcessPayment(db, config, screen, p).db.events[|db.events|].invoice == Some(i)
  {
    PaymentRecorded(db, config, screen, p);
    GenuineIsAccepted(p, config);
    assert PaymentCurrency(p) == db.invoices[i].currency;
    MatchInvoiceAllowed(db.invoices, p);
    OneCandidate(db.invoices, p, i);
  }

  lemma OneCandidate(invoices: seq<Invoice>, p: Payment, i: nat)
    requires i < |invoices| && invoices[i].status == Pending && PaymentCurrency(p) == invoices[i].currency
    requires DecodeMuxedId(p.to) == Some(invoices[i].muxedId) || (p.memo.Some? && p.memo == invoices[i].memo)
    requires forall j :: 0 <= j < |invoices| && j != i && invoices[j].status == Pending ==>
               && DecodeMuxedId(p.to) != Some(invoices[j].muxedId)
               && (DecodeMuxedId(p.to) == Some(invoices[i].muxedId) || invoices[j].memo != p.memo)
    ensures MatchInvoice(invoices, p) == Some(i)
  {
    MatchInvoiceAllowed(invoices, p);
    assert MuxedHit(invoices[i], p) || MemoHit(invoices[i], p);
    assert forall j | 0 <= j < |invoices| && MuxedHit(invoices[j], p) :: j == i;
    if !MuxedHit(invoices[i], p) { assert forall j | 0 <= j < |invoices| && MemoHit(invoices[j], p) :: j == i; }
  }
}
