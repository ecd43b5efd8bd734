/** The Soroban event poller: repeated getEvents requests of at most 200 events each, with the
    restart ledger moved to one before the latest ledger after every success. */
module Soroban {
  import opened Options

  const PAGE: nat := 200

  /** A contract event: its paging token and ledger. */
  datatype Event = Event(token: nat, ledger: nat)

  /** stored: paging tokens in soroban_contract_events. done is history: the highest latest ledger
      of a successful poll, if any. */
  datatype System = System(stored: seq<nat>, start: nat, done: Option<nat>)

  /** Poll: the RPC answered with its latest ledger, and written events were handled before a
      database failure (all of them, when written is at least their number). */
  datatype Action = Poll(latest: nat, written: nat) | RpcError | NoResult | Restart

  /** The chain's contract events from a start ledger up to the latest, in order. */
  function Matching(chain: seq<Event>, start: nat, latest: nat): seq<Event>
  {
    if chain == [] then []
    else
      var last := chain[|chain| - 1];
      Matching(chain[..|chain| - 1], start, latest) + if start <= last.ledger <= latest then [last] else []
  }

  function Answer(chain: seq<Event>, start: nat, latest: nat): seq<Event>
  {
    var all := Matching(chain, start, latest);
    if |all| <= PAGE then all else all[..PAGE]
  }

  /** The part of the answer that is handled, up to a database failure. */
  function Handled(chain: seq<Event>, start: nat, latest: nat, written: nat): seq<Event>
  {
    var events := Answer(chain, start, latest);
    if written < |events| then events[..written] else events
  }

  /** The loop: exists check, then insert. */
  function Store(stored: seq<nat>, events: seq<Event>): seq<nat>
  {
    if events == [] then stored
    else
      var before := Store(stored, events[..|events| - 1]);
      var token := events[|events| - 1].token;
      if token in before then before else before + [token]
  }

  function Back(ledger: nat): nat { if ledger == 0 then 0 else ledger - 1 }

  function Max(done: Option<nat>, latest: nat): nat
  {
    if done.Some? && done.value > latest then done.value else latest
  }

  function Step(chain: seq<Event>, s: System, a: Action): System
  {
    match a
    case Poll(latest, written) =>
      var stored := Store(s.stored, Handled(chain, s.start, latest, written));
      if written < |Answer(chain, s.start, latest)| then s.(stored := stored)
      else System(stored, Back(latest), Some(Max(s.done, latest)))
    case RpcError => s
    case NoResult => s.(start := Back(s.start))
    case Restart => s.(start := 0)
  }

  function Exec(chain: seq<Event>, s: System, acts: seq<Action>): System
  {
    if acts == [] then s else Step(chain, Exec(chain, s, acts[..|acts| - 1]), acts[|acts| - 1])
  }

  const EMPTY := System([], 0, None)

  ghost predicate NoRepeats(tokens: seq<nat>)
  {
    forall i, j :: 0 <= i < j < |tokens| ==> tokens[i] != tokens[j]
  }

  lemma {:induction false} StoreAdds(stored: seq<nat>, events: seq<Event>)
    requires NoRepeats(stored)
    ensures NoRepeats(Store(stored, events))
    ensures forall t :: t in Store(stored, events) <==> t in stored || exists e :: e in events && e.token == t
  {
    if events != [] {
      var n := |events| - 1;
      StoreAdds(stored, events[..n]);
      assert events == events[..n] + [events[n]];
    }
  }

  lemma {:induction false} MatchingExact(chain: seq<Event>, start: nat, latest: nat)
    ensures forall e :: e in Matching(chain, start, latest) <==> e in chain && start <= e.ledger <= latest
  {
    if chain != [] {
      MatchingExact(chain[..|chain| - 1], start, latest);
      assert chain == chain[..|chain| - 1] + [chain[|chain| - 1]];
    }
  }

  /** The action, if it is a poll that handled its whole answer, did not have the page cut at 200. */
  predicate Uncut(chain: seq<Event>, s: System, a: Action)
  {
    a.Poll? && a.written >= |Answer(chain, s.start, a.latest)| ==> |Matching(chain, s.start, a.latest)| <= PAGE
  }

  /** No successful poll of the run had its page cut; one that failed in the database may have. */
  ghost predicate Untruncated(chain: seq<Event>, acts: seq<Action>)
  {
    forall i :: 0 <= i < |acts| ==> Uncut(chain, Exec(chain, EMPTY, acts[..i]), acts[i])
  }

  ghost predicate Covered(chain: seq<Event>, s: System)
  {
    && s.start <= (if s.done.Some? then s.done.value else 0)
    && (s.done.Some? ==> forall e :: e in chain && e.ledger <= s.done.value ==> e.token in s.stored)
  }

  /** What a poll does: it stores the part of its answer that was handled, which starts at the start
      ledger and has at most 200 events; when that is all, the restart point becomes one before the
      latest ledger, else it stays. */
  lemma PollMovesOn(chain: seq<Event>, s: System, latest: nat, written: nat)
    requires NoRepeats(s.stored)
    ensures var t, all := Step(chain, s, Poll(latest, written)), Matching(chain, s.start, latest);
      var size := if |all| <= 200 then |all| else 200;
      && (forall i :: 0 <= i < size && i < written ==> all[i].token in t.stored)
      && (forall token :: token in t.stored && token !in s.stored ==>
            exists i :: 0 <= i < size && i < written && all[i].token == token)
      && (written >= size ==>
            t.start == (if latest >= 1 then latest - 1 else 0) && t.done.Some? && t.done.value >= latest)
      && (written < size ==> t.start == s.start && t.done == s.done)
  {
    var events := Answer(chain, s.start, latest);
    var part := Handled(chain, s.start, latest, written);
    StoreAdds(s.stored, part);
    forall i | 0 <= i < |events| && i < written ensures events[i] in part {
      assert part[i] == events[i];
    }
    assert forall i | 0 <= i < |events| :: events[i] == Matching(chain, s.start, latest)[i];
    var t := Step(chain, s, Poll(latest, written));
    forall token | token in t.stored && token !in s.stored
      ensures exists i :: 0 <= i < |events| && i < written && events[i].token == token
    {
      var e :| e in part && e.token == token;
      var i :| 0 <= i < |part| && part[i] == e;
      assert events[i].token == token;
    }
  }

  /** A new process starts from ledger zero and keeps what is stored. */
  lemma RestartsFromZero(chain: seq<Event>, s: System)
    ensures Step(chain, s, Restart).start == 0
    ensures Step(chain, s, Restart).stored == s.stored && Step(chain, s, Restart).done == s.done
  {
  }

  lemma StepStores(chain: seq<Event>, s: System, a: Action)
    requires NoRepeats(s.stored)
    ensures NoRepeats(Step(chain, s, a).stored)
    ensures forall t :: t in s.stored ==> t in Step(chain, s, a).stored
  {
    if a.Poll? { StoreAdds(s.stored, Handled(chain, s.start, a.latest, a.written)); }
  }

  lemma StepCovers(chain: seq<Event>, s: System, a: Action)
    requires NoRepeats(s.stored) && Covered(chain, s)
    requires Uncut(chain, s, a)
    ensures Covered(chain, Step(chain, s, a))
  {
    StepStores(chain, s, a);
    if a.Poll? {
      MatchingExact(chain, s.start, a.latest);
      StoreAdds(s.stored, Answer(chain, s.start, a.latest));
    }
  }

  /** Each token is stored at most once, over any polls, errors, half-written pages and restarts. */
  lemma {:induction false} StoredOnce(chain: seq<Event>, acts: seq<Action>)
    ensures NoRepeats(Exec(chain, EMPTY, acts).stored)
  {
    if acts != [] {
      StoredOnce(chain, acts[..|acts| - 1]);
      StepStores(chain, Exec(chain, EMPTY, acts[..|acts| - 1]), acts[|acts| - 1]);
    }
  }

  /** If no page of a successful poll was cut, every event up to the highest latest ledger ever returned is stored, and
      the next request does not start beyond that ledger. */
  lemma {:induction false} NothingMissed(chain: seq<Event>, acts: seq<Action>)
    requires Untruncated(chain, acts)
    ensures Covered(chain, Exec(chain, EMPTY, acts))
  {
    if acts != [] {
      var n := |acts| - 1;
      var front := acts[..n];
      forall i | 0 <= i < n ensures Uncut(chain, Exec(chain, EMPTY, front[..i]), front[i]) {
        assert front[..i] == acts[..i] && front[i] == acts[i];
      }
      NothingMissed(chain, front);
      StoredOnce(chain, front);
      StepCovers(chain, Exec(chain, EMPTY, front), acts[n]);
    }
  }

  /** A successful poll stores all that it asked for exactly when whatever was cut off had been
      stored before. */
  lemma PollCompleteIff(chain: seq<Event>, s: System, latest: nat, written: nat)
    requires NoRepeats(s.stored) && written >= |Answer(chain, s.start, latest)|
    ensures var all := Matching(chain, s.start, latest);
      var after := Step(chain, s, Poll(latest, written));
      (forall e :: e in chain && s.start <= e.ledger <= latest ==> e.token in after.stored)
      <==> (forall i :: PAGE <= i < |all| ==>
              all[i].token in s.stored || exists e :: e in all[..PAGE] && e.token == all[i].token)
  {
    var all := Matching(chain, s.start, latest);
    var after := Step(chain, s, Poll(latest, written));
    MatchingExact(chain, s.start, latest);
    StoreAdds(s.stored, Answer(chain, s.start, latest));
    if |all| > PAGE {
      assert all == all[..PAGE] + all[PAGE..];
      if forall i :: PAGE <= i < |all| ==>
              all[i].token in s.stored || exists e :: e in all[..PAGE] && e.token == all[i].token {
        forall e | e in all ensures e.token in after.stored {
          var i :| 0 <= i < |all| && all[i] == e;
          if i < PAGE { assert all[..PAGE][i] == e; }
        }
      } else {
        var i :| PAGE <= i < |all|
                 && !(all[i].token in s.stored || exists e :: e in all[..PAGE] && e.token == all[i].token);
        assert all[i] in all;
      }
    }
  }

  /** An event the poller has passed without storing is not stored later, as long as the latest
      ledger stays more than one above it and there is neither a restart nor an empty result. */
  lemma {:induction false} PassedByIsLost(chain: seq<Event>, s: System, acts: seq<Action>, lost: Event)
    requires NoRepeats(s.stored) && lost.token !in s.stored && lost.ledger < s.start
    requires forall e :: e in chain && e.token == lost.token ==> e == lost
    requires forall a :: a in acts ==> a.RpcError? || (a.Poll? && a.latest > lost.ledger + 1)
    ensures var t := Exec(chain, s, acts);
            NoRepeats(t.stored) && lost.token !in t.stored && lost.ledger < t.start
  {
    if acts != [] {
      var n := |acts| - 1;
      var a := acts[n];
      assert a in acts;
      PassedByIsLost(chain, s, acts[..n], lost);
      var mid := Exec(chain, s, acts[..n]);
      StepStores(chain, mid, a);
      if a.Poll? {
        MatchingExact(chain, mid.start, a.latest);
        var events := Handled(chain, mid.start, a.latest, a.written);
        assert forall e | e in events :: e in Matching(chain, mid.start, a.latest);
        StoreAdds(mid.stored, events);
      }
    }
  }

  // ----- which events are lost --------------------------------------------------------------

  ghost predicate DistinctTokens(chain: seq<Event>)
  {
    forall i, j :: 0 <= i < j < |chain| ==> chain[i].token != chain[j].token
  }

  /** The i-th action is a poll whose range contains the event. */
  predicate AsksFor(chain: seq<Event>, acts: seq<Action>, i: int, e: Event)
  {
    0 <= i < |acts| && acts[i].Poll? && Exec(chain, EMPTY, acts[..i]).start <= e.ledger <= acts[i].latest
  }

  /** As many events of the range precede it as the poll handles: 200, or those before a database
      failure. */
  ghost predicate CutOff(chain: seq<Event>, start: nat, latest: nat, written: nat, e: Event)
  {
    var all := Matching(chain, start, latest);
    exists j :: (if written < PAGE then written else PAGE) <= j < |all| && all[j] == e
  }

  lemma {:induction false} MatchingDistinct(chain: seq<Event>, start: nat, latest: nat)
    requires DistinctTokens(chain)
    ensures DistinctTokens(Matching(chain, start, latest))
  {
    if chain != [] {
      var front := chain[..|chain| - 1];
      MatchingDistinct(front, start, latest);
      MatchingExact(front, start, latest);
      var before := Matching(front, start, latest);
      assert forall i | 0 <= i < |before| :: before[i] in before;
    }
  }

  lemma HandledIffNotCut(chain: seq<Event>, start: nat, latest: nat, written: nat, e: Event)
    requires DistinctTokens(chain) && e in chain && start <= e.ledger <= latest
    ensures e in Handled(chain, start, latest, written) <==> !CutOff(chain, start, latest, written, e)
  {
    var all, part := Matching(chain, start, latest), Handled(chain, start, latest, written);
    MatchingExact(chain, start, latest);
    MatchingDistinct(chain, start, latest);
    var j :| 0 <= j < |all| && all[j] == e;
    if j < |part| { assert part[j] == e; }
  }

  /** The i-th action asks for the event and handles it. */
  predicate StoresAt(chain: seq<Event>, acts: seq<Action>, i: int, e: Event)
  {
    AsksFor(chain, acts, i, e)
    && e in Handled(chain, Exec(chain, EMPTY, acts[..i]).start, acts[i].latest, acts[i].written)
  }

  /** The i-th action asks for the event and cuts it off. */
  ghost predicate CutsAt(chain: seq<Event>, acts: seq<Action>, i: int, e: Event)
  {
    AsksFor(chain, acts, i, e)
    && CutOff(chain, Exec(chain, EMPTY, acts[..i]).start, acts[i].latest, acts[i].written, e)
  }

  /** An event is stored exactly when some poll of the run handled it. */
  lemma {:induction false} StoredIffHandled(chain: seq<Event>, acts: seq<Action>, e: Event)
    requires DistinctTokens(chain) && e in chain
    ensures e.token in Exec(chain, EMPTY, acts).stored <==> exists i :: StoresAt(chain, acts, i, e)
  {
    if acts != [] {
      var n := |acts| - 1;
      var front := acts[..n];
      StoredIffHandled(chain, front, e);
      StoredOnce(chain, front);
      EarlierStores(chain, acts, e);
      LastStores(chain, acts, e);
    }
  }

  lemma EarlierStores(chain: seq<Event>, acts: seq<Action>, e: Event)
    requires acts != []
    ensures var front := acts[..|acts| - 1];
      (exists i :: StoresAt(chain, acts, i, e)) <==>
        (exists i :: StoresAt(chain, front, i, e)) || StoresAt(chain, acts, |acts| - 1, e)
  {
    var n := |acts| - 1;
    var front := acts[..n];
    forall i | 0 <= i < n ensures StoresAt(chain, acts, i, e) <==> StoresAt(chain, front, i, e) {
      assert front[..i] == acts[..i];
    }
    if i :| StoresAt(chain, front, i, e) { assert StoresAt(chain, acts, i, e); }
  }

  lemma LastStores(chain: seq<Event>, acts: seq<Action>, e: Event)
    requires DistinctTokens(chain) && e in chain && acts != []
    requires NoRepeats(Exec(chain, EMPTY, acts[..|acts| - 1]).stored)
    ensures e.token in Exec(chain, EMPTY, acts).stored <==>
              e.token in Exec(chain, EMPTY, acts[..|acts| - 1]).stored || StoresAt(chain, acts, |acts| - 1, e)
  {
    var n := |acts| - 1;
    if acts[n].Poll? { PollStores(chain, Exec(chain, EMPTY, acts[..n]), acts[n].latest, acts[n].written, e); }
  }

  lemma HandledWasAsked(chain: seq<Event>, start: nat, latest: nat, written: nat)
    ensures forall o :: o in Handled(chain, start, latest, written) ==> o in chain && start <= o.ledger <= latest
  {
    MatchingExact(chain, start, latest);
    assert forall o | o in Handled(chain, start, latest, written) :: o in Matching(chain, start, latest);
  }

  lemma TokenNames(chain: seq<Event>, o: Event, e: Event)
    requires DistinctTokens(chain) && o in chain && e in chain && o.token == e.token
    ensures o == e
  {
  }

  lemma PollStores(chain: seq<Event>, s: System, latest: nat, written: nat, e: Event)
    requires DistinctTokens(chain) && e in chain && NoRepeats(s.stored)
    ensures e.token in Step(chain, s, Poll(latest, written)).stored <==>
              e.token in s.stored || e in Handled(chain, s.start, latest, written)
    ensures e in Handled(chain, s.start, latest, written) ==> s.start <= e.ledger <= latest
  {
    var part := Handled(chain, s.start, latest, written);
    HandledWasAsked(chain, s.start, latest, written);
    StoreAdds(s.stored, part);
    if o :| o in part && o.token == e.token { TokenNames(chain, o, e); }
  }

  /** Over any run an event is missing if and only if every poll that asked for it cut it off. */
  lemma MissingIffAlwaysCut(chain: seq<Event>, acts: seq<Action>, e: Event)
    requires DistinctTokens(chain) && e in chain
    ensures e.token !in Exec(chain, EMPTY, acts).stored <==>
              forall i :: AsksFor(chain, acts, i, e) ==> CutsAt(chain, acts, i, e)
  {
    StoredIffHandled(chain, acts, e);
    forall i | AsksFor(chain, acts, i, e) ensures StoresAt(chain, acts, i, e) <==> !CutsAt(chain, acts, i, e) {
      HandledIffNotCut(chain, Exec(chain, EMPTY, acts[..i]).start, acts[i].latest, acts[i].written, e);
    }
  }

  /** Every ledger up to the highest one returned was asked for. */
  lemma {:induction false} WasAsked(chain: seq<Event>, acts: seq<Action>, e: Event)
    ensures var t := Exec(chain, EMPTY, acts);
      && t.start <= (if t.done.Some? then t.done.value else 0)
      && (t.done.Some? && e.ledger <= t.done.value ==> exists i :: AsksFor(chain, acts, i, e))
  {
    if acts != [] {
      var n := |acts| - 1;
      var front := acts[..n];
      WasAsked(chain, front, e);
      if exists i :: AsksFor(chain, front, i, e) {
        var i :| AsksFor(chain, front, i, e);
        AskedBefore(chain, acts, i, e);
      } else {
        DoneStep(chain, Exec(chain, EMPTY, front), acts[n]);
        var t := Exec(chain, EMPTY, acts);
        if t.done.Some? && e.ledger <= t.done.value { assert AsksFor(chain, acts, n, e); }
      }
    }
  }

  lemma AskedBefore(chain: seq<Event>, acts: seq<Action>, i: int, e: Event)
    requires acts != [] && AsksFor(chain, acts[..|acts| - 1], i, e)
    ensures AsksFor(chain, acts, i, e)
  {
    assert acts[..|acts| - 1][..i] == acts[..i];
  }

  /** The highest returned ledger goes up by complete polls only. */
  lemma DoneStep(chain: seq<Event>, s: System, a: Action)
    ensures var t := Step(chain, s, a);
      t.done == s.done || (a.Poll? && t.done.Some? && (t.done.value == a.latest || Some(t.done.value) == s.done))
  {
  }

  /** Polls and RPC errors, with a latest ledger that never goes back. */
  ghost predicate Steady(acts: seq<Action>)
  {
    && (forall i :: 0 <= i < |acts| ==> acts[i].Poll? || acts[i].RpcError?)
    && forall i, j :: 0 <= i < j < |acts| && acts[i].Poll? && acts[j].Poll? ==> acts[i].latest <= acts[j].latest
  }

  lemma {:induction false} StartIsOfPoll(chain: seq<Event>, acts: seq<Action>)
    requires Steady(acts) && Exec(chain, EMPTY, acts).start > 0
    ensures exists i :: 0 <= i < |acts| && acts[i].Poll? && Exec(chain, EMPTY, acts).start == Back(acts[i].latest)
  {
    var n := |acts| - 1;
    assert acts != [];
    if Exec(chain, EMPTY, acts).start == Exec(chain, EMPTY, acts[..n]).start {
      StartIsOfPoll(chain, acts[..n]);
      var i :| 0 <= i < n && acts[..n][i].Poll? && Exec(chain, EMPTY, acts).start == Back(acts[..n][i].latest);
      assert acts[i] == acts[..n][i];
    }
  }

  lemma {:induction false} ExecConcat(chain: seq<Event>, s: System, a: seq<Action>, b: seq<Action>)
    ensures Exec(chain, s, a + b) == Exec(chain, Exec(chain, s, a), b)
  {
    if b == [] {
      assert a + b == a;
    } else {
      var n := |b| - 1;
      ExecConcat(chain, s, a, b[..n]);
      assert (a + b)[..|a + b| - 1] == a + b[..n];
    }
  }

  /** While the latest ledger does not go back, what the poller has moved past is settled: an event
      below the restart point was asked for, and in every continuation it is missing if and only if
      every poll so far that asked for it cut it off. */
  lemma PassedIsSettled(chain: seq<Event>, acts: seq<Action>, later: seq<Action>, e: Event)
    requires DistinctTokens(chain) && e in chain && Steady(acts + later)
    requires e.ledger < Exec(chain, EMPTY, acts).start
    ensures exists i :: AsksFor(chain, acts, i, e)
    ensures e.token !in Exec(chain, EMPTY, acts + later).stored <==>
              forall i :: AsksFor(chain, acts, i, e) ==> CutsAt(chain, acts, i, e)
  {
    var t := Exec(chain, EMPTY, acts);
    WasAsked(chain, acts, e);
    MissingIffAlwaysCut(chain, acts, e);
    ExecConcat(chain, EMPTY, acts, later);
    StoredOnce(chain, acts);
    if e.token in t.stored {
      StoredStays(chain, t, later, e.token);
    } else {
      LatestStaysAhead(chain, acts, later, e.ledger);
      assert forall o | o in chain && o.token == e.token :: o == e;
      PassedByIsLost(chain, t, later, e);
    }
  }

  lemma LatestStaysAhead(chain: seq<Event>, acts: seq<Action>, later: seq<Action>, ledger: nat)
    requires Steady(acts + later) && ledger < Exec(chain, EMPTY, acts).start
    ensures forall a :: a in later ==> a.RpcError? || (a.Poll? && a.latest > ledger + 1)
  {
    var all := acts + later;
    assert Steady(acts) by { assert forall i | 0 <= i < |acts| :: acts[i] == all[i]; }
    StartIsOfPoll(chain, acts);
    var i :| 0 <= i < |acts| && acts[i].Poll? && Exec(chain, EMPTY, acts).start == Back(acts[i].latest);
    forall a | a in later ensures a.RpcError? || (a.Poll? && a.latest > ledger + 1) {
      var j :| 0 <= j < |later| && later[j] == a;
      assert all[i] == acts[i] && all[|acts| + j] == a;
    }
  }

  lemma {:induction false} StoredStays(chain: seq<Event>, s: System, acts: seq<Action>, token: nat)
    requires NoRepeats(s.stored) && token in s.stored
    ensures NoRepeats(Exec(chain, s, acts).stored) && token in Exec(chain, s, acts).stored
  {
    if acts != [] {
      var n := |acts| - 1;
      StoredStays(chain, s, acts[..n], token);
      StepStores(chain, Exec(chain, s, acts[..n]), acts[n]);
    }
  }

  // ----- a lost event -----------------------------------------------------------------------

  /** 201 events in ledger 5. */
  const CROWDED: seq<Event> := seq(201, i requires 0 <= i < 201 => Event(i, 5))

  lemma {:induction false} MatchingAll(chain: seq<Event>, start: nat, latest: nat)
    requires forall e :: e in chain ==> start <= e.ledger <= latest
    ensures Matching(chain, start, latest) == chain
  {
    if chain != [] {
      var n := |chain| - 1;
      var front, last := chain[..n], chain[n];
      assert chain == front + [last];
      MatchingAll(front, start, latest);
      assert last in chain;
    }
  }

  /** One complete poll at ledger 7, and the last of the events is never stored, whatever polls
      follow. */
  lemma EventIsLost(later: seq<Action>)
    requires Steady([Poll(7, 200)] + later)
    ensures Event(200, 5) in CROWDED
    ensures 200 !in Exec(CROWDED, EMPTY, [Poll(7, 200)] + later).stored
  {
    var acts, e := [Poll(7, 200)], Event(200, 5);
    assert CROWDED[200] == e && acts[..0] == [];
    MatchingAll(CROWDED, 0, 7);
    assert Exec(CROWDED, EMPTY, acts[..0]) == EMPTY;
    assert Exec(CROWDED, EMPTY, acts).start == 6;
    assert CutOff(CROWDED, 0, 7, 200, e) by { assert Matching(CROWDED, 0, 7)[200] == e; }
    assert forall i | AsksFor(CROWDED, acts, i, e) :: i == 0;
    PassedIsSettled(CROWDED, acts, later, e);
  }
}

/** index_contract_events, the body of the polling loop, and the invoice lookup. */
module SorobanIndexer {
  import opened Options
  import opened Soroban

  /** The RPC's reply: a transport or RPC error, no result, or a page. */
  datatype Reply = Failed | Empty | Events(events: seq<Event>, latest: nat)

  /** A topic is not a string, or a string that may parse as a number. */
  datatype Topic = Other | Text(number: Option<int>)

  class Poller {
    var stored: seq<nat>
    var start: nat

    constructor ()
      ensures stored == [] && start == 0
    {
      stored, start := [], 0;
    }

    /** Handles the page's events up to a database failure before event number budget. */
    method IndexEvents(events: seq<Event>, budget: nat) returns (ok: bool)
      modifies `stored
      ensures ok <==> budget >= |events|
      ensures stored == Store(old(stored), if ok then events else events[..budget])
      ensures forall token :: token in old(stored) ==> token in stored
      ensures forall i :: 0 <= i < |events| && i < budget ==> events[i].token in stored
      ensures forall token :: token in stored && token !in old(stored) ==>
                exists i :: 0 <= i < |events| && i < budget && events[i].token == token
    {
      for i := 0 to |events|
        invariant i <= budget
        invariant forall token :: token in old(stored) ==> token in stored
        invariant forall j :: 0 <= j < i ==> events[j].token in stored
        invariant forall token :: token in stored && token !in old(stored) ==>
                    exists j :: 0 <= j < i && events[j].token == token
        invariant stored == Store(old(stored), events[..i])
      {
        if i == budget { return false; }
        assert events[..i + 1][..i] == events[..i];
        if events[i].token !in stored {
          stored := stored + [events[i].token];
        }
      }
      assert events[..|events|] == events;
      return true;
    }

    /** One turn of the loop. */
    method PollOnce(reply: Reply, budget: nat, ghost chain: seq<Event>, ghost done: Option<nat>)
      requires reply.Events? ==> reply.events == Answer(chain, start, reply.latest)
      modifies this
      ensures var a := match reply
                       case Failed => RpcError
                       case Empty => NoResult
                       case Events(_, latest) => Poll(latest, budget);
              var t := Step(chain, System(old(stored), old(start), done), a);
              stored == t.stored && start == t.start
      ensures reply.Events? && budget >= |reply.events| ==> start == if reply.latest == 0 then 0 else reply.latest - 1
      ensures reply.Failed? || (reply.Events? && budget < |reply.events|) ==> start == old(start)
      ensures reply.Empty? ==> start == (if old(start) == 0 then 0 else old(start) - 1) && stored == old(stored)
      ensures forall token :: token in old(stored) ==> token in stored
      ensures reply.Events? ==> forall i :: 0 <= i < |reply.events| && i < budget ==> reply.events[i].token in stored
    {
      match reply
      case Failed =>
      case Empty => start := if start == 0 then 0 else start - 1;
      case Events(events, latest) =>
        var ok := IndexEvents(events, budget);
        if ok { start := if latest == 0 then 0 else latest - 1; }
    }
  }

  /** try_resolve_invoice: the invoice of the first topic that is the muxed id of one. */
  method TryResolveInvoice(topics: seq<Topic>, muxedIds: map<int, nat>) returns (invoice: Option<nat>)
    ensures invoice.None? <==>
              forall i :: 0 <= i < |topics| && topics[i].Text? && topics[i].number.Some? ==>
                topics[i].number.value !in muxedIds
    ensures invoice.Some? ==>
              exists i :: 0 <= i < |topics| && Resolves(topics[i], muxedIds)
                          && invoice.value == muxedIds[topics[i].number.value]
                          && forall j :: 0 <= j < i ==> !Resolves(topics[j], muxedIds)
  {
    for i := 0 to |topics|
      invariant forall j :: 0 <= j < i ==> !Resolves(topics[j], muxedIds)
    {
      if Resolves(topics[i], muxedIds) { return Some(muxedIds[topics[i].number.value]); }
    }
    return None;
  }

  predicate Resolves(topic: Topic, muxedIds: map<int, nat>)
  {
    topic.Text? && topic.number.Some? && topic.number.value in muxedIds
  }
}
