/** Two short runs that show which promises the protocol does not keep. */
module ReconcilerWitness {
  import opened Options
  import opened PaymentTables
  import opened Matcher
  import opened InvoiceRules
  import opened Reconciler
  import opened ReconcilerTheorems
  import opened ReconcilerSafety

  /** One native payment of five units with memo "m", for the one invoice with that memo. */
  const PAYMENT := Payment(1, "payer", "treasury", Some(5), Some("native"), None, None, Some("m"))
  const INVOICE := Invoice(0, 5, 1, 4, "XLM", 5, 16777217, Some("m"), false, 0, 5, Pending, 0, 60)
  const ROW := InvoiceRow(0, 0, 5, 1, 4, "XLM", 5)
  const WORLD := World([PAYMENT], Config("issuer", None), 0)
  const START := System(Db([], [], [], [], [INVOICE], [], 0), Down)
  const PICK := Oracle(Clear, Some(0))

  /** Boot, and advance until the match is made and nothing has been written. */
  function ToMatched(): seq<Action> { [Boot, Advance(PICK), Advance(PICK), Advance(PICK)] }

  lemma Fetched()
    ensures AdvanceStep(WORLD, System(START.db, Up(0, 0, Fetch)), PICK) == System(START.db, Up(0, 0, Screen))
  {
    assert ACCEPTED_ASSETS[2] == "XLM";
    assert IsAcceptedAsset(PAYMENT, WORLD.config);
  }

  lemma MemoMatched()
    ensures AdvanceStep(WORLD, System(START.db, Up(0, 0, Match(Clear))), PICK)
            == System(START.db, Up(0, 0, RecordEvent(Some(ROW), Clear)))
  {
    assert MatchAllowed([INVOICE], PAYMENT, PICK.pick) by {
      assert PAYMENT.to[0] == 't';
      assert DecodeMuxedId(PAYMENT.to) == None;
      assert MemoHit(INVOICE, PAYMENT) && [INVOICE][0] == INVOICE;
      assert IfCurrency([INVOICE], PAYMENT, 0) == Some(0);
    }
    assert RowOf([INVOICE], 0) == ROW;
  }

  lemma Matched()
    ensures Initial(WORLD, START)
    ensures Exec(WORLD, START, ToMatched()) == System(START.db, Up(0, 0, RecordEvent(Some(ROW), Clear)))
  {
    var a := Advance(PICK);
    ExecSnoc(WORLD, START, [], Boot);
    assert [] + [Boot] == [Boot];
    ExecSnoc(WORLD, START, [Boot], a);
    ExecSnoc(WORLD, START, [Boot] + [a], a);
    ExecSnoc(WORLD, START, [Boot] + [a] + [a], a);
    assert [Boot] + [a] + [a] + [a] == ToMatched();
    assert Step(WORLD, START, Boot) == System(START.db, Up(0, 0, Fetch)) by {
      assert After(WORLD.horizon, 0) == 0;
    }
    Fetched();
    MemoMatched();
  }

  const EVENT := PaymentEvent(1, Some(0), "payer", 5, "XLM", "native", Screened(Clear))

  lemma Recorded(invoices: seq<Invoice>)
    ensures var s := System(START.db.(invoices := invoices), Up(0, 0, RecordEvent(Some(ROW), Clear)));
            Step(WORLD, s, Advance(PICK))
            == System(s.db.(events := [EVENT]), Up(0, 0, Commit(ROW, 0)))
  {
    assert EventRow(PAYMENT, 5, Some(0), Screened(Clear)) == EVENT;
  }

  /** A cancel between the match and the commit: the cancelled invoice gets a ledger row. */
  lemma LedgerRowOnCancelledInvoice()
    ensures Initial(WORLD, START)
    ensures var acts := ToMatched() + [Env(EnvAction.CancelInvoice(0, 0))] + [Advance(PICK)] + [Advance(PICK)];
            var db := Exec(WORLD, START, acts).db;
            && db.ledger == [LedgerEntry(0, 0, 0, 5, 1, 4)]
            && db.invoices == [INVOICE.(status := Cancelled)]
  {
    Matched();
    var a := Advance(PICK);
    var c := Env(EnvAction.CancelInvoice(0, 0));
    ExecSnoc(WORLD, START, ToMatched(), c);
    ExecSnoc(WORLD, START, ToMatched() + [c], a);
    ExecSnoc(WORLD, START, ToMatched() + [c] + [a], a);
    var cancelled := [INVOICE.(status := Cancelled)];
    assert START.db.invoices[0 := CancelRow(INVOICE, 0)] == cancelled;
    Recorded(cancelled);
  }

  /** A crash between the event and the commit: the payment is recorded as matched, its invoice
      stays pending, and no continuation ever puts the event in the ledger. */
  lemma CrashLosesPayment(later: seq<Action>)
    ensures Initial(WORLD, START)
    ensures var acts := ToMatched() + [Advance(PICK)] + [Crash];
            var db := Exec(WORLD, START, acts + later).db;
            && Exec(WORLD, START, acts).db.invoices == [INVOICE]
            && |db.events| > 0 && db.events[0] == EVENT && IsMatched(EVENT)
            && !EventInLedger(db.ledger, 0)
  {
    Matched();
    var acts := ToMatched() + [Advance(PICK)] + [Crash];
    var crashed := System(START.db.(events := [EVENT]), Down);
    assert Exec(WORLD, START, acts) == crashed by {
      ExecSnoc(WORLD, START, ToMatched(), Advance(PICK));
      ExecSnoc(WORLD, START, ToMatched() + [Advance(PICK)], Crash);
      Recorded([INVOICE]);
    }
    InitialInv(WORLD, START);
    RunKeepsInv(WORLD, START, acts);
    ExecConcat(WORLD, START, acts, later);
    OrphanIsForEver(WORLD, crashed, later, 0);
  }
}

/** Two retries that lose what one undisturbed pass leaves. */
module RetryWitness {
  import opened Options
  import opened PaymentTables
  import opened Matcher
  import opened Processor
  import opened Retries
  import W = ReconcilerWitness

  const DB: Db := W.START.db
  const ROW: LedgerEntry := LedgerEntry(0, 0, 0, 5, 1, 4)
  const DELIVERED: Db := Db([W.EVENT], [ROW], [Conversion(0, 0)], [], [W.INVOICE.(status := Paid)], [], 1)

  lemma MemoFound()
    ensures MatchInvoice(DB.invoices, W.PAYMENT) == Some(0)
    ensures IsAcceptedAsset(W.PAYMENT, W.WORLD.config) && !EventExists(DB.events, W.PAYMENT.token)
  {
    W.Fetched();
    W.MemoMatched();
    assert W.PAYMENT.to[0] == 't';
    assert DecodeMuxedId(W.PAYMENT.to) == None;
    assert DB.invoices[..0] == [];
    assert MemoHit(W.INVOICE, W.PAYMENT) && !MuxedHit(W.INVOICE, W.PAYMENT);
  }

  lemma OnePass(screen: Screen)
    requires screen("payer") == Clear
    ensures ProcessPayment(DB, W.WORLD.config, screen, W.PAYMENT) == Done(DELIVERED)
    ensures Commits(DB, W.WORLD.config, screen, W.PAYMENT)
  {
    MemoFound();
    W.Recorded([W.INVOICE]);
    assert RowOf(DB.invoices, 0) == W.ROW;
    assert EventRow(W.PAYMENT, 5, Some(0), Screened(Clear)) == W.EVENT;
    assert MarkPaid(DB.invoices, 0) == [W.INVOICE.(status := Paid)];
  }

  lemma OneFault(screen: Screen, at: Await)
    requires screen("payer") == Clear && at in {Transaction, CursorSave}
    ensures RunStream(DB, W.WORLD.config, screen, [W.PAYMENT]) == Done(DELIVERED)
    ensures Before(DB, W.WORLD.config, screen, [W.PAYMENT], Fault(0, at)) == Done(DB)
    ensures Attempt(DB, W.WORLD.config, screen, [W.PAYMENT], Fault(0, at))
            == Failed(if at == Transaction then DB.(events := [W.EVENT]) else DELIVERED.(cursor := 0))
  {
    OnePass(screen);
    assert [W.PAYMENT][..0] == [];
  }

  /** An error at the ledger transaction: the row of the pass is missing after the retry. */
  lemma RetryLosesRow(screen: Screen)
    requires screen("payer") == Clear
    ensures LosesCommit(DB, W.WORLD.config, screen, [W.PAYMENT], Fault(0, Transaction))
    ensures RunStream(DB, W.WORLD.config, screen, [W.PAYMENT]).db.ledger == [ROW]
    ensures Attempts(DB, W.WORLD.config, screen, [W.PAYMENT], [Fault(0, Transaction)]).db.ledger == []
  {
    OneFault(screen, Transaction);
    OnePass(screen);
    var stopped := DB.(events := [W.EVENT]);
    PaymentIsSeen(stopped);
    SeenIsIdle(stopped, W.WORLD.config, screen, [W.PAYMENT]);
    assert [Fault(0, Transaction)][1..] == [];
  }

  /** An error at the cursor: the cursor of the pass is missing after the retry. */
  lemma RetryLosesCursor(screen: Screen)
    requires screen("payer") == Clear
    ensures LosesSave(DB, W.WORLD.config, screen, [W.PAYMENT], Fault(0, CursorSave))
    ensures RunStream(DB, W.WORLD.config, screen, [W.PAYMENT]).db.cursor == 1
    ensures Attempts(DB, W.WORLD.config, screen, [W.PAYMENT], [Fault(0, CursorSave)]).db.cursor == 0
  {
    OneFault(screen, CursorSave);
    OnePass(screen);
    var stopped := DELIVERED.(cursor := 0);
    PaymentIsSeen(stopped);
    SeenIsIdle(stopped, W.WORLD.config, screen, [W.PAYMENT]);
    assert [Fault(0, CursorSave)][1..] == [];
    assert [W.PAYMENT][1..] == [];
  }

  lemma PaymentIsSeen(db: Db)
    requires db.events == [W.EVENT]
    ensures AllSeen(db, W.WORLD.config, [W.PAYMENT])
  {
    assert db.events[0].token == W.PAYMENT.token;
  }
}
