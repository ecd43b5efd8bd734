/** The delivery worker statement by statement: one SELECT, then for each row it returned a POST and
    an UPDATE with the attempt count read by the SELECT, while deliveries are enqueued and reset in
    between, or the worker dies and another selects again. */
module WebhookRaces {
  import opened Options
  import opened WebhookQueue

  /** A row as the SELECT returned it. */
  datatype Picked = Picked(id: nat, row: Row)

  /** todo: what is left of the batch selected at time now. In a row's history, tries are the attempts
      since the last reset that was not overwritten. */
  datatype Table = Table(rows: seq<Row>, todo: seq<Picked>, now: int)

  datatype Statement =
    | Select(now: int, active: set<nat>, batch: seq<nat>)
    | Attempted(a: Attempt)
    | Insert(webhook: nat, createdAt: int)
    | RetryRow(id: nat, at: int)
    | ReplayRow(id: nat, at: int)
    | Die

  function Snapshot(rows: seq<Row>, batch: seq<nat>): seq<Picked>
    requires forall k :: 0 <= k < |batch| ==> batch[k] < |rows|
  {
    seq(|batch|, k requires 0 <= k < |batch| => Picked(batch[k], rows[batch[k]]))
  }

  ghost predicate Possible(t: Table, s: Statement)
  {
    match s
    case Select(now, active, batch) => t.todo == [] && IsBatch(t.rows, active, now, batch)
    case Attempted(a) => t.todo != [] && t.now <= a.at
    case _ => true
  }

  /** UPDATE .. SET status=$2, attempts=$3, next_retry_at=$4 WHERE id=$1 says nothing of the row's
      present state. */
  function Step(t: Table, s: Statement): Table
  {
    match s
    case Select(now, active, batch) =>
      if forall k :: 0 <= k < |batch| ==> batch[k] < |t.rows| then Table(t.rows, Snapshot(t.rows, batch), now) else t
    case Attempted(a) =>
      if t.todo == [] || t.todo[0].id >= |t.rows| then t
      else t.(rows := t.rows[t.todo[0].id := Deliver(t.todo[0].row, a)], todo := t.todo[1..])
    case Insert(webhook, createdAt) => t.(rows := Apply(t.rows, Enqueue(webhook, createdAt)))
    case RetryRow(id, at) => t.(rows := Apply(t.rows, Retry(id, at)))
    case ReplayRow(id, at) => t.(rows := Apply(t.rows, Replay(id, at)))
    case Die => t.(todo := [])
  }

  function Run(t: Table, statements: seq<Statement>): Table
    decreases statements
  {
    if statements == [] then t else Run(Step(t, statements[0]), statements[1..])
  }

  ghost predicate PossibleRun(t: Table, statements: seq<Statement>)
    decreases statements
  {
    statements != [] ==> Possible(t, statements[0]) && PossibleRun(Step(t, statements[0]), statements[1..])
  }

  /** A selected row was due, and keeps to the attempt bounds. */
  ghost predicate PickedOk(p: Picked, size: nat, now: int)
  {
    && p.id < size && RowOk(p.row) && p.row.state == Waiting
    && (p.row.nextRetryAt.None? || p.row.nextRetryAt.value <= now)
  }

  ghost predicate TableOk(t: Table)
  {
    && QueueOk(t.rows)
    && (forall k :: 0 <= k < |t.todo| ==> PickedOk(t.todo[k], |t.rows|, t.now))
    && forall j, k :: 0 <= j < k < |t.todo| ==> t.todo[j].id != t.todo[k].id
  }

  lemma SelectKeepsTable(t: Table, now: int, active: set<nat>, batch: seq<nat>)
    requires TableOk(t) && Possible(t, Select(now, active, batch))
    ensures TableOk(Step(t, Select(now, active, batch)))
  {
    forall k | 0 <= k < |batch|
      ensures batch[k] < |t.rows| && PickedOk(Picked(batch[k], t.rows[batch[k]]), |t.rows|, now)
    {
      assert batch[k] in DueIds(t.rows, active, now);
    }
  }

  lemma AttemptKeepsTable(t: Table, a: Attempt)
    requires TableOk(t) && Possible(t, Attempted(a))
    ensures TableOk(Step(t, Attempted(a)))
  {
    assert PickedOk(t.todo[0], |t.rows|, t.now);
    DeliverKeepsRow(t.todo[0].row, {t.todo[0].row.webhook}, t.now, a);
  }

  lemma StepKeepsTable(t: Table, s: Statement)
    requires TableOk(t) && Possible(t, s)
    ensures TableOk(Step(t, s))
  {
    match s
    case Select(now, active, batch) => SelectKeepsTable(t, now, active, batch);
    case Attempted(a) => AttemptKeepsTable(t, a);
    case Insert(webhook, createdAt) =>
    case RetryRow(id, at) =>
    case ReplayRow(id, at) =>
    case Die =>
  }

  /** In every run, with resets at any moment and workers that die inside a batch: a waiting delivery
      has had fewer than five attempts since its last reset that was not overwritten, and they are
      apart by the backoff. */
  lemma {:induction false} RunKeepsTable(t: Table, statements: seq<Statement>)
    requires TableOk(t) && PossibleRun(t, statements)
    ensures TableOk(Run(t, statements))
    decreases statements
  {
    if statements != [] {
      StepKeepsTable(t, statements[0]);
      RunKeepsTable(Step(t, statements[0]), statements[1..]);
    }
  }

  /** A delivery is given up only after five attempts that all failed, 1, 5, 30 and 120 minutes apart:
      156 minutes in all. */
  lemma DeadSpans156Minutes(t: Table, statements: seq<Statement>, i: nat)
    requires TableOk(t) && PossibleRun(t, statements)
    requires i < |Run(t, statements).rows| && Run(t, statements).rows[i].state == Dead
    ensures var tries := Run(t, statements).rows[i].tries;
      && |tries| == 5 && Apart(tries) && tries[4].at - tries[0].at >= 156 * 60_000
      && forall k :: 0 <= k < 5 ==> !tries[k].ok
  {
    RunKeepsTable(t, statements);
    var row := Run(t, statements).rows[i];
    assert RowOk(row);
    SpacedIsApart(row.tries);
  }

  /** A delivery that is queued waits, due at once, with nothing tried. */
  lemma QueuedIsDue(t: Table, webhook: nat, createdAt: int)
    ensures var after, n := Step(t, Insert(webhook, createdAt)), |t.rows|;
      && |after.rows| == n + 1 && after.rows[..n] == t.rows && after.todo == t.todo
      && var row := after.rows[n];
      && row.webhook == webhook && row.createdAt == createdAt && row.state == Waiting
      && row.attempts == 0 && row.nextRetryAt == None && row.tries == []
  {
  }

  ghost predicate NoneFailed(t: Table)
  {
    forall i :: 0 <= i < |t.rows| ==> t.rows[i].state != Failed
  }

  lemma {:induction false} RunLeavesNoneFailed(t: Table, statements: seq<Statement>)
    requires NoneFailed(t)
    ensures NoneFailed(Run(t, statements))
    decreases statements
  {
    if statements != [] { RunLeavesNoneFailed(Step(t, statements[0]), statements[1..]); }
  }

  /** Over every run from an empty table, of the tries since the last reset that was not overwritten: a
      row is delivered if and only if the last of them was answered 2xx, dead if and only if there
      were five and none was, and waiting otherwise; no try follows one that was answered 2xx, and
      they are 1, 5, 30 and 120 minutes apart. */
  lemma TriesDecideState(statements: seq<Statement>, i: nat)
    requires PossibleRun(Table([], [], 0), statements)
    requires i < |Run(Table([], [], 0), statements).rows|
    ensures var row := Run(Table([], [], 0), statements).rows[i];
      var n := |row.tries|;
      && row.attempts == n <= 5 && Apart(row.tries)
      && (row.state == Delivered <==> n > 0 && row.tries[n - 1].ok)
      && (row.state == Dead <==> n == 5 && !row.tries[4].ok)
      && (row.state == Waiting <==> n == 0 || (n < 5 && !row.tries[n - 1].ok))
      && forall k :: 0 <= k < n - 1 ==> !row.tries[k].ok
  {
    var t := Run(Table([], [], 0), statements);
    RunKeepsTable(Table([], [], 0), statements);
    RunLeavesNoneFailed(Table([], [], 0), statements);
    assert RowOk(t.rows[i]);
    SpacedIsApart(t.rows[i].tries);
  }

  // ----- resets during a batch --------------------------------------------------------------

  /** The rest of a batch. */
  function Rest(attempts: seq<Attempt>): seq<Statement>
  {
    if attempts == [] then [] else [Attempted(attempts[0])] + Rest(attempts[1..])
  }

  ghost predicate Awaits(t: Table, id: nat)
  {
    exists k :: 0 <= k < |t.todo| && t.todo[k].id == id
  }

  /** Two tables that differ in one row still to be attempted end the batch alike. */
  lemma {:induction false} AttemptOverwrites(t: Table, id: nat, row: Row, attempts: seq<Attempt>)
    requires id < |t.rows| && Awaits(t, id) && |attempts| == |t.todo|
    requires forall k :: 0 <= k < |t.todo| ==> t.todo[k].id < |t.rows|
    ensures Run(t.(rows := t.rows[id := row]), Rest(attempts)) == Run(t, Rest(attempts))
    decreases attempts
  {
    var other := t.(rows := t.rows[id := row]);
    var s := Attempted(attempts[0]);
    assert Rest(attempts)[0] == s && Rest(attempts)[1..] == Rest(attempts[1..]);
    if t.todo[0].id == id {
      assert Step(other, s) == Step(t, s);
    } else {
      var mid := Step(t, s);
      assert Step(other, s).rows == mid.rows[id := row];
      var k :| 0 <= k < |t.todo| && t.todo[k].id == id;
      assert mid.todo[k - 1].id == id;
      AttemptOverwrites(mid, id, row, attempts[1..]);
    }
  }

  lemma {:induction false} AttemptsLeaveOthers(t: Table, id: nat, attempts: seq<Attempt>)
    requires id < |t.rows| && !Awaits(t, id) && |attempts| == |t.todo|
    requires forall k :: 0 <= k < |t.todo| ==> t.todo[k].id < |t.rows|
    ensures |Run(t, Rest(attempts)).rows| == |t.rows| && Run(t, Rest(attempts)).rows[id] == t.rows[id]
    decreases attempts
  {
    if attempts != [] {
      assert Rest(attempts)[0] == Attempted(attempts[0]) && Rest(attempts)[1..] == Rest(attempts[1..]);
      AttemptsLeaveOthers(Step(t, Attempted(attempts[0])), id, attempts[1..]);
    }
  }

  /** A replay in the middle of a batch is undone without a trace when its row is still to be
      attempted; otherwise the row ends the batch reset. */
  lemma ReplayDuringBatch(t: Table, id: nat, at: int, attempts: seq<Attempt>)
    requires TableOk(t) && id < |t.rows| && |attempts| == |t.todo|
    ensures var after := Run(Step(t, ReplayRow(id, at)), Rest(attempts));
      if Awaits(t, id) then after == Run(t, Rest(attempts))
      else id < |after.rows| && after.rows[id] == Reset(t.rows[id], at)
  {
    assert forall k | 0 <= k < |t.todo| :: PickedOk(t.todo[k], |t.rows|, t.now);
    if Awaits(t, id) {
      AttemptOverwrites(t, id, Reset(t.rows[id], at), attempts);
    } else {
      AttemptsLeaveOthers(Step(t, ReplayRow(id, at)), id, attempts);
    }
  }

  // ----- without resets a batch is one tick -------------------------------------------------

  lemma {:induction false} BatchInProgress(
      rows: seq<Row>, now: int, active: set<nat>, batch: seq<nat>, attempts: seq<Attempt>, k: nat)
    requires IsBatch(rows, active, now, batch) && |attempts| == |batch| && k <= |batch|
    requires forall j :: 0 <= j < |batch| ==> batch[j] < |rows|
    ensures var t := Table(DeliverAll(rows, batch[..k], attempts[..k]), Snapshot(rows, batch)[k..], now);
      Run(t, Rest(attempts[k..])) == Table(DeliverAll(rows, batch, attempts), [], now)
    decreases |batch| - k
  {
    var t := Table(DeliverAll(rows, batch[..k], attempts[..k]), Snapshot(rows, batch)[k..], now);
    if k == |batch| {
      assert batch[..k] == batch && attempts[..k] == attempts;
    } else {
      var s := Attempted(attempts[k]);
      assert Rest(attempts[k..])[0] == s && attempts[k..][1..] == attempts[k + 1..];
      assert Rest(attempts[k..])[1..] == Rest(attempts[k + 1..]);
      assert batch[..k + 1][..k] == batch[..k] && attempts[..k + 1][..k] == attempts[..k];
      DeliverAllFrame(rows, batch[..k], attempts[..k], batch[k]);
      assert Step(t, s)
          == Table(DeliverAll(rows, batch[..k + 1], attempts[..k + 1]), Snapshot(rows, batch)[k + 1..], now);
      BatchInProgress(rows, now, active, batch, attempts, k + 1);
    }
  }

  /** The statements of a batch that nothing interrupts are one tick of the queue. */
  lemma BatchIsTick(rows: seq<Row>, before: int, now: int, active: set<nat>, batch: seq<nat>, attempts: seq<Attempt>)
    requires IsBatch(rows, active, now, batch) && |attempts| == |batch|
    ensures Run(Table(rows, [], before), [Select(now, active, batch)] + Rest(attempts))
            == Table(Apply(rows, Tick(now, active, batch, attempts)), [], now)
  {
    forall j | 0 <= j < |batch| ensures batch[j] < |rows| { assert batch[j] in DueIds(rows, active, now); }
    BatchInProgress(rows, now, active, batch, attempts, 0);
    var all := [Select(now, active, batch)] + Rest(attempts);
    assert all[1..] == Rest(attempts) && batch[..0] == [] && attempts[..0] == [] && attempts[0..] == attempts;
    assert Snapshot(rows, batch)[0..] == Snapshot(rows, batch);
  }
}
