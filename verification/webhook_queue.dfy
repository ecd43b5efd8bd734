/** The webhook delivery queue: ticks that attempt the 50 oldest due rows, five attempts with a
    backoff between them, and the manual resets. A row's id is its position. */
module WebhookQueue {
  import opened Options

  const BACKOFF_MINUTES: seq<nat> := [0, 1, 5, 30, 120]
  const MINUTE: nat := 60_000
  const MAX_ATTEMPTS: nat := 5
  const BATCH: nat := 50

  datatype State = Waiting | Delivered | Failed | Dead

  /** An attempt that was made: when, and whether the answer was 2xx. */
  datatype Try = Try(at: int, ok: bool)

  /** A webhook_deliveries row (Waiting is status 'pending'). tries is history: the times of the
      attempts since the last reset. */
  datatype Row = Row(
    webhook: nat, createdAt: int, state: State, attempts: nat, nextRetryAt: Option<int>, tries: seq<Try>)

  /** One POST: when it started, how long it took, whether the answer was 2xx (an exception is a
      failure), and the jitter drawn for the next retry. */
  datatype Attempt = Attempt(at: int, took: nat, ok: bool, jitter: nat)

  function BackoffMs(attempts: nat): nat
  {
    BACKOFF_MINUTES[if attempts < |BACKOFF_MINUTES| - 1 then attempts else |BACKOFF_MINUTES| - 1] * MINUTE
  }

  function NextRetry(attempts: nat, now: int, jitter: nat): int
  {
    now + BackoffMs(attempts) + jitter
  }

  function Deliver(row: Row, a: Attempt): Row
  {
    var attempts := row.attempts + 1;
    var dead := !a.ok && attempts >= MAX_ATTEMPTS;
    row.(state := if a.ok then Delivered else if dead then Dead else Waiting,
         attempts := attempts,
         nextRetryAt := if a.ok || dead then None else Some(NextRetry(attempts, a.at + a.took, a.jitter)),
         tries := row.tries + [Try(a.at, a.ok)])
  }

  predicate IsDue(row: Row, active: set<nat>, now: int)
  {
    row.webhook in active && row.state == Waiting && (row.nextRetryAt.None? || row.nextRetryAt.value <= now)
  }

  function DueIds(rows: seq<Row>, active: set<nat>, now: int): set<nat>
  {
    set i: nat | i < |rows| && IsDue(rows[i], active, now)
  }

  /** ORDER BY created_at LIMIT 50 over the due rows; rows created at one instant may come in any
      order. */
  ghost predicate IsBatch(rows: seq<Row>, active: set<nat>, now: int, batch: seq<nat>)
  {
    && |batch| <= BATCH
    && (forall k :: 0 <= k < |batch| ==> batch[k] in DueIds(rows, active, now))
    && (forall j, k :: 0 <= j < k < |batch| ==>
          batch[j] != batch[k] && rows[batch[j]].createdAt <= rows[batch[k]].createdAt)
    && (forall i :: i in DueIds(rows, active, now) && i !in batch ==>
          |batch| == BATCH && forall k :: 0 <= k < |batch| ==> rows[batch[k]].createdAt <= rows[i].createdAt)
  }

  function DeliverAll(rows: seq<Row>, batch: seq<nat>, attempts: seq<Attempt>): (r: seq<Row>)
    requires |attempts| == |batch|
    ensures |r| == |rows|
  {
    if batch == [] then rows
    else
      var n := |batch| - 1;
      var mid := DeliverAll(rows, batch[..n], attempts[..n]);
      if batch[n] < |mid| then mid[batch[n] := Deliver(mid[batch[n]], attempts[n])] else mid
  }

  datatype Event =
    | Tick(now: int, active: set<nat>, batch: seq<nat>, attempts: seq<Attempt>)
    | Enqueue(webhook: nat, createdAt: int)
    | Retry(id: nat, at: int)
    | Replay(id: nat, at: int)

  function Fresh(webhook: nat, createdAt: int): Row
  {
    Row(webhook, createdAt, Waiting, 0, None, [])
  }

  function Reset(row: Row, at: int): Row
  {
    row.(state := Waiting, attempts := 0, nextRetryAt := Some(at), tries := [])
  }

  ghost predicate Possible(rows: seq<Row>, e: Event)
  {
    e.Tick? ==>
      && IsBatch(rows, e.active, e.now, e.batch) && |e.attempts| == |e.batch|
      && forall k :: 0 <= k < |e.attempts| ==> e.now <= e.attempts[k].at
  }

  function Apply(rows: seq<Row>, e: Event): (r: seq<Row>)
    ensures |r| >= |rows|
  {
    match e
    case Tick(_, _, batch, attempts) => if |attempts| == |batch| then DeliverAll(rows, batch, attempts) else rows
    case Enqueue(webhook, createdAt) => rows + [Fresh(webhook, createdAt)]
    case Retry(id, at) =>
      if id < |rows| && rows[id].state in {Failed, Dead} then rows[id := Reset(rows[id], at)] else rows
    case Replay(id, at) => if id < |rows| then rows[id := Reset(rows[id], at)] else rows
  }

  function Run(rows: seq<Row>, events: seq<Event>): seq<Row>
    decreases events
  {
    if events == [] then rows else Run(Apply(rows, events[0]), events[1..])
  }

  // ----- attempts and their spacing ---------------------------------------------------------

  ghost predicate Spaced(tries: seq<Try>)
  {
    forall i :: 0 <= i < |tries| - 1 ==> tries[i].at + BackoffMs(i + 1) <= tries[i + 1].at
  }

  predicate NoneOk(tries: seq<Try>)
  {
    forall i :: 0 <= i < |tries| ==> !tries[i].ok
  }

  /** The state is what the answers of the tries made it. */
  predicate StateTold(row: Row)
  {
    var n := |row.tries|;
    match row.state
    case Delivered => n > 0 && row.tries[n - 1].ok && NoneOk(row.tries[..n - 1])
    case Dead => n == MAX_ATTEMPTS && NoneOk(row.tries)
    case Waiting => n < MAX_ATTEMPTS && NoneOk(row.tries)
    case Failed => NoneOk(row.tries)
  }

  ghost predicate RowOk(row: Row)
  {
    && row.attempts == |row.tries| <= MAX_ATTEMPTS && Spaced(row.tries) && StateTold(row)
    && (row.state == Waiting && row.attempts > 0 ==>
          row.nextRetryAt.Some? && row.tries[row.attempts - 1].at + BackoffMs(row.attempts) <= row.nextRetryAt.value)
  }

  ghost predicate QueueOk(rows: seq<Row>)
  {
    forall i :: 0 <= i < |rows| ==> RowOk(rows[i])
  }

  lemma DeliverKeepsRow(row: Row, active: set<nat>, now: int, a: Attempt)
    requires RowOk(row) && IsDue(row, active, now) && now <= a.at
    ensures RowOk(Deliver(row, a))
  {
    assert Deliver(row, a).tries[..|row.tries|] == row.tries;
  }

  /** The rows a batch has not reached are as they were. */
  lemma {:induction false} DeliverAllFrame(rows: seq<Row>, batch: seq<nat>, attempts: seq<Attempt>, i: nat)
    requires |attempts| == |batch| && i < |rows| && i !in batch
    ensures DeliverAll(rows, batch, attempts)[i] == rows[i]
  {
    if batch != [] {
      var n := |batch| - 1;
      assert batch[n] in batch;
      DeliverAllFrame(rows, batch[..n], attempts[..n], i);
    }
  }

  lemma {:induction false} DeliverAllKeepsQueue(
    rows: seq<Row>, active: set<nat>, now: int, batch: seq<nat>, attempts: seq<Attempt>)
    requires QueueOk(rows) && |attempts| == |batch|
    requires forall k :: 0 <= k < |batch| ==> batch[k] in DueIds(rows, active, now)
    requires forall j, k :: 0 <= j < k < |batch| ==> batch[j] != batch[k]
    requires forall k :: 0 <= k < |attempts| ==> now <= attempts[k].at
    ensures QueueOk(DeliverAll(rows, batch, attempts))
  {
    if batch != [] {
      var n := |batch| - 1;
      DeliverAllKeepsQueue(rows, active, now, batch[..n], attempts[..n]);
      DeliverAllFrame(rows, batch[..n], attempts[..n], batch[n]);
      DeliverKeepsRow(rows[batch[n]], active, now, attempts[n]);
    }
  }

  lemma ApplyKeepsQueue(rows: seq<Row>, e: Event)
    requires QueueOk(rows) && Possible(rows, e)
    ensures QueueOk(Apply(rows, e))
  {
    if e.Tick? { DeliverAllKeepsQueue(rows, e.active, e.now, e.batch, e.attempts); }
  }

  /** The tries are 1, 5, 30 and 120 minutes apart, at least. */
  predicate Apart(tries: seq<Try>)
  {
    && (|tries| >= 2 ==> tries[1].at - tries[0].at >= 60_000)
    && (|tries| >= 3 ==> tries[2].at - tries[1].at >= 300_000)
    && (|tries| >= 4 ==> tries[3].at - tries[2].at >= 1_800_000)
    && (|tries| >= 5 ==> tries[4].at - tries[3].at >= 7_200_000)
  }

  lemma SpacedIsApart(tries: seq<Try>)
    requires Spaced(tries)
    ensures Apart(tries)
  {
    assert forall i | 0 <= i < |tries| - 1 :: tries[i].at + BackoffMs(i + 1) <= tries[i + 1].at;
  }

  /** What one attempt makes of a row, in its columns. */
  lemma AttemptOutcome(row: Row, a: Attempt)
    ensures var after := Deliver(row, a);
      && after.webhook == row.webhook && after.createdAt == row.createdAt && after.attempts == row.attempts + 1
      && (a.ok ==> after.state == Delivered && after.nextRetryAt == None)
      && (!a.ok && row.attempts >= 4 ==> after.state == Dead && after.nextRetryAt == None)
      && (!a.ok && row.attempts <= 3 ==> after.state == Waiting && after.nextRetryAt.Some?)
      && (!a.ok && row.attempts == 0 ==> after.nextRetryAt == Some(a.at + a.took + 60_000 + a.jitter))
      && (!a.ok && row.attempts == 1 ==> after.nextRetryAt == Some(a.at + a.took + 300_000 + a.jitter))
      && (!a.ok && row.attempts == 2 ==> after.nextRetryAt == Some(a.at + a.took + 1_800_000 + a.jitter))
      && (!a.ok && row.attempts == 3 ==> after.nextRetryAt == Some(a.at + a.took + 7_200_000 + a.jitter))
  {
  }

  lemma {:induction false} DeliverAllAt(rows: seq<Row>, batch: seq<nat>, attempts: seq<Attempt>, k: nat)
    requires |attempts| == |batch| && k < |batch| && batch[k] < |rows|
    requires forall i, j :: 0 <= i < j < |batch| ==> batch[i] != batch[j]
    ensures DeliverAll(rows, batch, attempts)[batch[k]] == Deliver(rows[batch[k]], attempts[k])
  {
    var n := |batch| - 1;
    if k < n {
      DeliverAllAt(rows, batch[..n], attempts[..n], k);
    } else {
      DeliverAllFrame(rows, batch[..n], attempts[..n], batch[n]);
    }
  }

  /** A tick attempts only rows of active webhooks that wait and are due, each once; it leaves a due row
      aside only for 50 others that are not newer; and every row it does not attempt stays as it was. */
  lemma TickAttempts(rows: seq<Row>, e: Event, i: nat)
    requires e.Tick? && Possible(rows, e) && i < |rows|
    ensures var row, after := rows[i], Apply(rows, e)[i];
      var due := row.webhook in e.active && row.state == Waiting
                 && (row.nextRetryAt == None || row.nextRetryAt.value <= e.now);
      && |Apply(rows, e)| == |rows|
      && (i in e.batch ==>
            due && exists k :: 0 <= k < |e.batch| && e.batch[k] == i && after == Deliver(row, e.attempts[k]))
      && (i !in e.batch ==> after == row)
      && (due && i !in e.batch ==>
            |e.batch| == 50
            && forall k :: 0 <= k < 50 ==> e.batch[k] < |rows| && rows[e.batch[k]].createdAt <= row.createdAt)
  {
    if i in e.batch {
      var k :| 0 <= k < |e.batch| && e.batch[k] == i;
      DeliverAllAt(rows, e.batch, e.attempts, k);
      assert e.batch[k] in DueIds(rows, e.active, e.now);
    } else {
      DeliverAllFrame(rows, e.batch, e.attempts, i);
      assert forall k | 0 <= k < |e.batch| :: e.batch[k] in DueIds(rows, e.active, e.now);
      if IsDue(rows[i], e.active, e.now) { assert i in DueIds(rows, e.active, e.now); }
    }
    DeliverAllSize(rows, e.batch, e.attempts);
  }

  lemma DeliverAllSize(rows: seq<Row>, batch: seq<nat>, attempts: seq<Attempt>)
    requires |attempts| == |batch|
    ensures |DeliverAll(rows, batch, attempts)| == |rows|
  {
  }

  // ----- the potential: attempts left --------------------------------------------------------

  function Left(row: Row): nat
  {
    if row.state == Waiting && row.attempts < MAX_ATTEMPTS then MAX_ATTEMPTS - row.attempts else 0
  }

  /** The attempts left to the rows of a set. */
  function LeftOn(rows: seq<Row>, ids: set<nat>): nat
  {
    if rows == [] then 0
    else LeftOn(rows[..|rows| - 1], ids) + if |rows| - 1 in ids then Left(rows[|rows| - 1]) else 0
  }

  function CountIn(batch: seq<nat>, ids: set<nat>): nat
  {
    if batch == [] then 0
    else CountIn(batch[..|batch| - 1], ids) + if batch[|batch| - 1] in ids then 1 else 0
  }

  lemma {:induction false} UpdateLeft(rows: seq<Row>, ids: set<nat>, i: nat, row: Row)
    requires i < |rows|
    ensures LeftOn(rows[i := row], ids) + (if i in ids then Left(rows[i]) else 0)
            == LeftOn(rows, ids) + if i in ids then Left(row) else 0
  {
    var n := |rows| - 1;
    if i < n {
      UpdateLeft(rows[..n], ids, i, row);
      assert rows[i := row][..n] == rows[..n][i := row];
    } else {
      assert rows[i := row][..n] == rows[..n];
    }
  }

  /** Each attempt uses up at least one of the attempts left. */
  lemma {:induction false} BatchUsesLeft(
    rows: seq<Row>, active: set<nat>, now: int, batch: seq<nat>, attempts: seq<Attempt>, ids: set<nat>)
    requires QueueOk(rows) && |attempts| == |batch|
    requires forall k :: 0 <= k < |batch| ==> batch[k] in DueIds(rows, active, now)
    requires forall j, k :: 0 <= j < k < |batch| ==> batch[j] != batch[k]
    ensures LeftOn(DeliverAll(rows, batch, attempts), ids) + CountIn(batch, ids) <= LeftOn(rows, ids)
  {
    if batch != [] {
      var n := |batch| - 1;
      BatchUsesLeft(rows, active, now, batch[..n], attempts[..n], ids);
      DeliverAllFrame(rows, batch[..n], attempts[..n], batch[n]);
      var mid := DeliverAll(rows, batch[..n], attempts[..n]);
      UpdateLeft(mid, ids, batch[n], Deliver(mid[batch[n]], attempts[n]));
    }
  }

  function AllIds(rows: seq<Row>): (ids: set<nat>)
    ensures forall i: nat :: i in ids <==> i < |rows|
  {
    if rows == [] then {} else AllIds(rows[..|rows| - 1]) + {|rows| - 1}
  }

  lemma {:induction false} CountAll(batch: seq<nat>, ids: set<nat>)
    requires forall k :: 0 <= k < |batch| ==> batch[k] in ids
    ensures CountIn(batch, ids) == |batch|
  {
    if batch != [] { CountAll(batch[..|batch| - 1], ids); }
  }

  function Ids(batch: seq<nat>): (ids: set<nat>)
    ensures forall x: nat :: x in ids <==> x in batch
  {
    if batch == [] then {} else
      var n := |batch| - 1;
      assert batch == batch[..n] + [batch[n]];
      Ids(batch[..n]) + {batch[n]}
  }

  lemma {:induction false} DistinctIds(batch: seq<nat>)
    requires forall j, k :: 0 <= j < k < |batch| ==> batch[j] != batch[k]
    ensures |Ids(batch)| == |batch|
  {
    if batch != [] {
      var n := |batch| - 1;
      DistinctIds(batch[..n]);
      var front := Ids(batch[..n]);
      assert batch[n] !in front;
      assert Ids(batch) == front + {batch[n]};
    }
  }

  /** A tick attempts 50 rows, or all that are due. */
  lemma BatchSize(rows: seq<Row>, active: set<nat>, now: int, batch: seq<nat>)
    requires IsBatch(rows, active, now, batch)
    ensures |batch| == if |DueIds(rows, active, now)| < 50 then |DueIds(rows, active, now)| else 50
  {
    DistinctIds(batch);
    var ids, due := Ids(batch), DueIds(rows, active, now);
    assert ids <= due;
    assert |due| == |ids| + |due - ids| by { assert due == ids + (due - ids); }
    if |batch| < BATCH { assert due - ids == {}; }
  }

  /** Each tick lowers the attempts left by at least min(50, due). */
  lemma TickLowersLeft(rows: seq<Row>, e: Event)
    requires QueueOk(rows) && e.Tick? && Possible(rows, e)
    ensures var due := |DueIds(rows, e.active, e.now)|;
            LeftOn(Apply(rows, e), AllIds(rows)) + (if due < BATCH then due else BATCH) <= LeftOn(rows, AllIds(rows))
  {
    BatchSize(rows, e.active, e.now, e.batch);
    BatchUsesLeft(rows, e.active, e.now, e.batch, e.attempts, AllIds(rows));
    CountAll(e.batch, AllIds(rows));
  }

  ghost predicate SomeWaiting(rows: seq<Row>)
  {
    exists i :: 0 <= i < |rows| && rows[i].state == Waiting
  }

  /** Ticks only: nothing is enqueued or reset. */
  ghost predicate TicksOnly(rows: seq<Row>, events: seq<Event>)
    decreases events
  {
    events != [] ==>
      events[0].Tick? && Possible(rows, events[0]) && TicksOnly(Apply(rows, events[0]), events[1..])
  }

  /** The ticks that find something due. */
  ghost function Busy(rows: seq<Row>, events: seq<Event>): nat
    decreases events
  {
    if events == [] then 0
    else (if events[0].Tick? && DueIds(rows, events[0].active, events[0].now) != {} then 1 else 0)
         + Busy(Apply(rows, events[0]), events[1..])
  }

  lemma {:induction false} NoneLeft(rows: seq<Row>)
    requires QueueOk(rows) && LeftOn(rows, AllIds(rows)) == 0
    ensures !SomeWaiting(rows)
  {
    if rows != [] {
      var n := |rows| - 1;
      SameLeft(rows[..n], AllIds(rows), AllIds(rows[..n]));
      NoneLeft(rows[..n]);
      assert RowOk(rows[n]);
      forall i | 0 <= i < |rows| ensures rows[i].state != Waiting {
        if i < n { assert rows[..n][i] == rows[i]; }
      }
    }
  }

  lemma {:induction false} SameLeft(rows: seq<Row>, a: set<nat>, b: set<nat>)
    requires forall i: nat :: i < |rows| ==> (i in a <==> i in b)
    ensures LeftOn(rows, a) == LeftOn(rows, b)
  {
    if rows != [] { SameLeft(rows[..|rows| - 1], a, b); }
  }

  lemma {:induction false} BusyUsesLeft(rows: seq<Row>, events: seq<Event>)
    requires QueueOk(rows) && TicksOnly(rows, events)
    ensures LeftOn(Run(rows, events), AllIds(Run(rows, events))) + Busy(rows, events) <= LeftOn(rows, AllIds(rows))
    decreases events
  {
    if events != [] {
      var after := Apply(rows, events[0]);
      ApplyKeepsQueue(rows, events[0]);
      TickLowersLeft(rows, events[0]);
      assert AllIds(after) == AllIds(rows);
      if DueIds(rows, events[0].active, events[0].now) != {} { SomeDue(DueIds(rows, events[0].active, events[0].now)); }
      BusyUsesLeft(after, events[1..]);
    }
  }

  lemma SomeDue(due: set<nat>)
    requires due != {}
    ensures |due| >= 1
  {
    var i :| i in due;
    assert due == {i} + (due - {i});
  }

  /** Without enqueues and resets the queue drains: as many ticks with something due as there are
      attempts left, among any number of idle ones, end with every delivery delivered, failed or
      dead. */
  lemma QueueDrains(rows: seq<Row>, events: seq<Event>)
    requires QueueOk(rows) && TicksOnly(rows, events)
    requires Busy(rows, events) >= LeftOn(rows, AllIds(rows))
    ensures !SomeWaiting(Run(rows, events))
  {
    BusyUsesLeft(rows, events);
    TicksKeepQueue(rows, events);
    NoneLeft(Run(rows, events));
  }

  lemma {:induction false} TicksKeepQueue(rows: seq<Row>, events: seq<Event>)
    requires QueueOk(rows) && TicksOnly(rows, events)
    ensures QueueOk(Run(rows, events))
    decreases events
  {
    if events != [] {
      ApplyKeepsQueue(rows, events[0]);
      TicksKeepQueue(Apply(rows, events[0]), events[1..]);
    }
  }

  // ----- when the queue is empty ------------------------------------------------------------

  /** The pace of the worker, in milliseconds: the longest time from one tick to the next, from the
      start of a tick to its last answer, and the largest jitter. */
  datatype Pace = Pace(gap: nat, tick: nat, jitter: nat)

  /** After a tick every delivery it attempted is due again within this time. */
  function Wait(pace: Pace): nat
  {
    pace.tick + BackoffMs(MAX_ATTEMPTS) + pace.jitter
  }

  /** Every webhook is active, and every attempt keeps to the pace. */
  predicate OnPace(rows: seq<Row>, e: Event, pace: Pace)
  {
    && e.Tick?
    && (forall i :: 0 <= i < |rows| ==> rows[i].webhook in e.active)
    && forall k :: 0 <= k < |e.attempts| ==>
         e.attempts[k].at + e.attempts[k].took <= e.now + pace.tick && e.attempts[k].jitter <= pace.jitter
  }

  /** Ticks at the pace, none earlier than the one before. */
  ghost predicate Paced(rows: seq<Row>, events: seq<Event>, pace: Pace)
    decreases events
  {
    events != [] ==>
      && OnPace(rows, events[0], pace)
      && (|events| > 1 && events[1].Tick? ==> events[0].now <= events[1].now <= events[0].now + pace.gap)
      && Paced(Apply(rows, events[0]), events[1..], pace)
  }

  /** Every waiting delivery is due at the given time. */
  predicate DueBy(rows: seq<Row>, time: int)
  {
    forall i :: 0 <= i < |rows| && rows[i].state == Waiting && rows[i].nextRetryAt.Some? ==>
      rows[i].nextRetryAt.value <= time
  }

  lemma {:induction false} DeliveredDueBy(
      rows: seq<Row>, batch: seq<nat>, attempts: seq<Attempt>, time: int, pace: Pace, now: int)
    requires |attempts| == |batch| && DueBy(rows, time) && now + Wait(pace) <= time
    requires forall k :: 0 <= k < |attempts| ==>
               attempts[k].at + attempts[k].took <= now + pace.tick && attempts[k].jitter <= pace.jitter
    ensures DueBy(DeliverAll(rows, batch, attempts), time)
    ensures forall i :: 0 <= i < |rows| ==> DeliverAll(rows, batch, attempts)[i].webhook == rows[i].webhook
  {
    if batch != [] {
      var n := |batch| - 1;
      DeliveredDueBy(rows, batch[..n], attempts[..n], time, pace, now);
    }
  }

  /** A tick at which everything waiting is due is busy. */
  lemma DueMeansBusy(rows: seq<Row>, e: Event, pace: Pace)
    requires OnPace(rows, e, pace) && SomeWaiting(rows) && DueBy(rows, e.now)
    ensures DueIds(rows, e.active, e.now) != {}
  {
    var i: nat :| i < |rows| && rows[i].state == Waiting;
    assert i in DueIds(rows, e.active, e.now);
  }

  lemma IdleTick(rows: seq<Row>, e: Event, pace: Pace, time: int)
    requires OnPace(rows, e, pace) && Possible(rows, e) && SomeWaiting(rows) && DueBy(rows, time)
    requires DueIds(rows, e.active, e.now) == {}
    ensures e.now < time && Apply(rows, e) == rows
  {
    BatchSize(rows, e.active, e.now, e.batch);
    assert e.batch == [];
    if DueBy(rows, e.now) { DueMeansBusy(rows, e, pace); }
  }

  lemma BusyTick(rows: seq<Row>, e: Event, pace: Pace, time: int)
    requires QueueOk(rows) && OnPace(rows, e, pace) && Possible(rows, e)
    requires DueBy(rows, time) && e.now <= time + pace.gap
    requires DueIds(rows, e.active, e.now) != {}
    ensures DueBy(Apply(rows, e), time + pace.gap + Wait(pace))
    ensures LeftOn(Apply(rows, e), AllIds(Apply(rows, e))) < LeftOn(rows, AllIds(rows))
  {
    SomeDue(DueIds(rows, e.active, e.now));
    TickLowersLeft(rows, e);
    assert AllIds(Apply(rows, e)) == AllIds(rows);
    DeliveredDueBy(rows, e.batch, e.attempts, time + pace.gap + Wait(pace), pace, e.now);
  }

  /** The time that a number of steps of one length takes. */
  function Steps(count: nat, step: nat): nat
  {
    if count == 0 then 0 else step + Steps(count - 1, step)
  }

  /** The last tick comes that many steps after the time, or later. */
  predicate LastsUntil(events: seq<Event>, time: int, count: nat, step: nat)
  {
    events != [] && events[|events| - 1].Tick? && events[|events| - 1].now >= time + Steps(count, step)
  }

  lemma {:induction false} FewerSteps(fewer: nat, count: nat, step: nat)
    requires fewer < count
    ensures Steps(fewer, step) + step <= Steps(count, step)
  {
    if fewer < count - 1 { FewerSteps(fewer, count - 1, step); }
  }

  lemma LastsLonger(events: seq<Event>, time: int, count: nat, fewer: nat, step: nat)
    requires LastsUntil(events, time, count, step) && count >= 1
    requires events[0].Tick? && events[0].now < time + step
    ensures |events| >= 2 && LastsUntil(events[1..], time, count, step)
    ensures fewer < count ==> LastsUntil(events[1..], time + step, fewer, step)
  {
    FewerSteps(0, count, step);
    if fewer < count { FewerSteps(fewer, count, step); }
  }

  /** Ticks at the pace, the first of them no later than a gap after everything waiting is due, the
      last after as many steps as there are attempts left. */
  ghost predicate OnTime(rows: seq<Row>, events: seq<Event>, pace: Pace, time: int)
  {
    && TicksOnly(rows, events) && Paced(rows, events, pace)
    && events != [] && DueBy(rows, time) && events[0].now <= time + pace.gap
    && LastsUntil(events, time, LeftOn(rows, AllIds(rows)), pace.gap + Wait(pace))
  }

  lemma StaysOnTime(rows: seq<Row>, events: seq<Event>, pace: Pace, later: int)
    requires |events| >= 2 && TicksOnly(rows, events) && Paced(rows, events, pace)
    requires var after := Apply(rows, events[0]);
      DueBy(after, later) && LastsUntil(events[1..], later, LeftOn(after, AllIds(after)), pace.gap + Wait(pace))
    requires events[0].now <= later
    ensures OnTime(Apply(rows, events[0]), events[1..], pace, later)
  {
  }

  lemma AfterIdle(rows: seq<Row>, events: seq<Event>, pace: Pace, time: int)
    requires OnTime(rows, events, pace, time) && SomeWaiting(rows) && LeftOn(rows, AllIds(rows)) >= 1
    requires DueIds(rows, events[0].active, events[0].now) == {}
    ensures OnTime(Apply(rows, events[0]), events[1..], pace, time)
  {
    IdleTick(rows, events[0], pace, time);
    var left := LeftOn(rows, AllIds(rows));
    LastsLonger(events, time, left, left, pace.gap + Wait(pace));
    StaysOnTime(rows, events, pace, time);
  }

  lemma AfterBusy(rows: seq<Row>, events: seq<Event>, pace: Pace, time: int)
    requires QueueOk(rows) && OnTime(rows, events, pace, time) && LeftOn(rows, AllIds(rows)) >= 1
    requires DueIds(rows, events[0].active, events[0].now) != {}
    ensures OnTime(Apply(rows, events[0]), events[1..], pace, time + pace.gap + Wait(pace))
  {
    var after := Apply(rows, events[0]);
    BusyTick(rows, events[0], pace, time);
    BusyLasts(events, time, LeftOn(rows, AllIds(rows)), LeftOn(after, AllIds(after)), pace);
    StaysOnTime(rows, events, pace, time + pace.gap + Wait(pace));
  }

  lemma BusyLasts(events: seq<Event>, time: int, left: nat, fewer: nat, pace: Pace)
    requires LastsUntil(events, time, left, pace.gap + Wait(pace)) && fewer < left
    requires events[0].Tick? && events[0].now <= time + pace.gap
    ensures |events| >= 2 && LastsUntil(events[1..], time + pace.gap + Wait(pace), fewer, pace.gap + Wait(pace))
  {
    LastsLonger(events, time, left, fewer, pace.gap + Wait(pace));
  }

  /** The time form: when everything waiting is due by a time the ticks reach, nothing waits any more
      after, for each attempt left, one gap between ticks and one longest wait (a tick, the backoff
      of two hours and the jitter). */
  lemma {:induction false} DrainsByTime(rows: seq<Row>, events: seq<Event>, pace: Pace, time: int)
    requires QueueOk(rows) && OnTime(rows, events, pace, time)
    ensures !SomeWaiting(Run(rows, events))
    decreases events
  {
    if !SomeWaiting(rows) {
      StaysIdle(rows, events);
    } else {
      if LeftOn(rows, AllIds(rows)) == 0 { NoneLeft(rows); }
      ApplyKeepsQueue(rows, events[0]);
      if DueIds(rows, events[0].active, events[0].now) == {} {
        AfterIdle(rows, events, pace, time);
        DrainsByTime(Apply(rows, events[0]), events[1..], pace, time);
      } else {
        AfterBusy(rows, events, pace, time);
        DrainsByTime(Apply(rows, events[0]), events[1..], pace, time + pace.gap + Wait(pace));
      }
    }
  }

  lemma {:induction false} StaysIdle(rows: seq<Row>, events: seq<Event>)
    requires !SomeWaiting(rows) && TicksOnly(rows, events)
    ensures !SomeWaiting(Run(rows, events))
    decreases events
  {
    if events != [] {
      var e := events[0];
      assert DueIds(rows, e.active, e.now) == {};
      assert e.batch == [];
      StaysIdle(Apply(rows, e), events[1..]);
    }
  }

  // ----- bounded bypass ---------------------------------------------------------------------

  /** The waiting deliveries other than t that are not newer than t. */
  function Older(rows: seq<Row>, t: nat): set<nat>
    requires t < |rows|
  {
    set i: nat | i < |rows| && i != t && rows[i].state == Waiting && rows[i].createdAt <= rows[t].createdAt
  }

  /** At each tick t is due and yet not taken; everything enqueued is newer; no manual reset. */
  ghost predicate PassedOver(rows: seq<Row>, events: seq<Event>, t: nat)
    requires t < |rows|
    decreases events
  {
    events != [] ==>
      && Possible(rows, events[0])
      && (events[0].Tick? ==> IsDue(rows[t], events[0].active, events[0].now) && t !in events[0].batch)
      && (events[0].Enqueue? ==> events[0].createdAt > rows[t].createdAt)
      && !events[0].Retry? && !events[0].Replay?
      && PassedOver(Apply(rows, events[0]), events[1..], t)
  }

  function Ticks(events: seq<Event>): nat
  {
    if events == [] then 0 else (if events[0].Tick? then 1 else 0) + Ticks(events[1..])
  }

  lemma {:induction false} DeliverAllKeepsCreation(rows: seq<Row>, batch: seq<nat>, attempts: seq<Attempt>)
    requires |attempts| == |batch|
    ensures forall i :: 0 <= i < |rows| ==>
              var after := DeliverAll(rows, batch, attempts)[i];
              after.createdAt == rows[i].createdAt && (rows[i].state != Waiting && i !in batch ==> after == rows[i])
  {
    if batch != [] {
      var n := |batch| - 1;
      DeliverAllKeepsCreation(rows, batch[..n], attempts[..n]);
      assert forall i :: i in batch <==> i in batch[..n] || i == batch[n];
    }
  }

  /** A tick that skips t spends 50 of the attempts left to older rows. */
  lemma SkipSpends(rows: seq<Row>, e: Event, t: nat, ids: set<nat>)
    requires QueueOk(rows) && t < |rows| && e.Tick? && Possible(rows, e)
    requires IsDue(rows[t], e.active, e.now) && t !in e.batch
    requires Older(rows, t) <= ids
    ensures LeftOn(Apply(rows, e), ids) + BATCH <= LeftOn(rows, ids)
    ensures Older(Apply(rows, e), t) <= ids
  {
    assert t in DueIds(rows, e.active, e.now);
    assert forall k :: 0 <= k < |e.batch| ==> e.batch[k] in Older(rows, t);
    CountAll(e.batch, ids);
    BatchUsesLeft(rows, e.active, e.now, e.batch, e.attempts, ids);
    DeliverAllKeepsCreation(rows, e.batch, e.attempts);
  }

  lemma {:induction false} SkipsSpend(rows: seq<Row>, events: seq<Event>, t: nat, ids: set<nat>)
    requires QueueOk(rows) && t < |rows| && PassedOver(rows, events, t)
    requires Older(rows, t) <= ids && forall i :: i in ids ==> i < |rows|
    ensures BATCH * Ticks(events) <= LeftOn(rows, ids)
    decreases events
  {
    if events != [] {
      var e := events[0];
      var after := Apply(rows, e);
      ApplyKeepsQueue(rows, e);
      if e.Tick? {
        SkipSpends(rows, e, t, ids);
      } else {
        assert after[..|rows|] == rows;
      }
      SkipsSpend(after, events[1..], t, ids);
    }
  }

  lemma {:induction false} LeftAtMostFive(rows: seq<Row>, ids: set<nat>)
    requires forall i :: i in ids ==> i < |rows|
    ensures LeftOn(rows, ids) <= 5 * |ids|
  {
    if rows == [] {
    } else {
      var n := |rows| - 1;
      LeftAtMostFive(rows[..n], ids - {n});
      SameLeft(rows[..n], ids, ids - {n});
    }
  }

  /** Bounded bypass: a delivery that is due at every tick and has k older unfinished deliveries
      is passed over by at most k/10 ticks, however many newer ones arrive. */
  lemma BoundedBypass(rows: seq<Row>, events: seq<Event>, t: nat)
    requires QueueOk(rows) && t < |rows| && PassedOver(rows, events, t)
    ensures Ticks(events) <= |Older(rows, t)| / 10
  {
    SkipsSpend(rows, events, t, Older(rows, t));
    LeftAtMostFive(rows, Older(rows, t));
  }
}

/** The worker and the manual resets on the table. */
module WebhookWorker {
  import opened Options
  import opened WebhookQueue

  /** The row waits again with all its attempts, due at once. */
  predicate IsReset(after: Row, before: Row, now: int)
  {
    && after.state == Waiting && after.attempts == 0 && after.nextRetryAt == Some(now)
    && after.webhook == before.webhook && after.createdAt == before.createdAt
  }

  class Deliveries {
    var rows: seq<Row>
    /** merchantOf[w] owns webhook w. */
    const merchantOf: seq<nat>

    constructor (rows: seq<Row>, merchantOf: seq<nat>)
      ensures this.rows == rows && this.merchantOf == merchantOf
    {
      this.rows, this.merchantOf := rows, merchantOf;
    }

    method DeliverOne(id: nat, a: Attempt)
      requires id < |rows|
      modifies `rows
      ensures rows == old(rows)[id := Deliver(old(rows)[id], a)]
      ensures rows[id].attempts == old(rows)[id].attempts + 1
      ensures a.ok ==> rows[id].state == Delivered && rows[id].nextRetryAt == None
      ensures !a.ok && old(rows)[id].attempts >= 4 ==> rows[id].state == Dead && rows[id].nextRetryAt == None
      ensures !a.ok && old(rows)[id].attempts <= 3 ==>
                var minutes := match old(rows)[id].attempts case 0 => 1 case 1 => 5 case 2 => 30 case _ => 120;
                rows[id].state == Waiting && rows[id].nextRetryAt == Some(a.at + a.took + 60_000 * minutes + a.jitter)
    {
      var attempts := rows[id].attempts + 1;
      var row := rows[id].(attempts := attempts, tries := rows[id].tries + [Try(a.at, a.ok)]);
      if a.ok {
        row := row.(state := Delivered, nextRetryAt := None);
      } else if attempts >= MAX_ATTEMPTS {
        row := row.(state := Dead, nextRetryAt := None);
      } else {
        row := row.(state := Waiting, nextRetryAt := Some(NextRetry(attempts, a.at + a.took, a.jitter)));
      }
      rows := rows[id := row];
    }

    /** deliverPending: batch is the answer of the SELECT, attempts what happens to each. */
    method DeliverPending(active: set<nat>, now: int, batch: seq<nat>, attempts: seq<Attempt>)
      requires IsBatch(rows, active, now, batch) && |attempts| == |batch|
      modifies `rows
      ensures rows == Apply(old(rows), Tick(now, active, batch, attempts))
    {
      for k := 0 to |batch|
        invariant rows == DeliverAll(old(rows), batch[..k], attempts[..k])
      {
        assert batch[..k + 1][..k] == batch[..k] && attempts[..k + 1][..k] == attempts[..k];
        DeliverOne(batch[k], attempts[k]);
      }
      assert batch[..|batch|] == batch && attempts[..|batch|] == attempts;
    }

    method RetryDelivery(merchant: nat, id: nat, now: int) returns (found: bool)
      modifies `rows
      ensures found <==> id < |old(rows)| && old(rows)[id].webhook < |merchantOf|
                         && merchantOf[old(rows)[id].webhook] == merchant && old(rows)[id].state in {Failed, Dead}
      ensures rows == if found then Apply(old(rows), Retry(id, now)) else old(rows)
      ensures found ==> rows == old(rows)[id := rows[id]] && IsReset(rows[id], old(rows)[id], now)
    {
      found := id < |rows| && rows[id].webhook < |merchantOf| && merchantOf[rows[id].webhook] == merchant
               && (rows[id].state == Failed || rows[id].state == Dead);
      if found { rows := rows[id := Reset(rows[id], now)]; }
    }

    method ReplayDelivery(merchant: nat, webhook: nat, id: nat, now: int) returns (found: bool)
      modifies `rows
      ensures found <==> webhook < |merchantOf| && merchantOf[webhook] == merchant
                         && id < |old(rows)| && old(rows)[id].webhook == webhook
      ensures rows == if found then Apply(old(rows), Replay(id, now)) else old(rows)
      ensures found ==> rows == old(rows)[id := rows[id]] && IsReset(rows[id], old(rows)[id], now)
    {
      if webhook >= |merchantOf| || merchantOf[webhook] != merchant { return false; }
      found := id < |rows| && rows[id].webhook == webhook;
      if found { rows := rows[id := Reset(rows[id], now)]; }
    }
  }
}
