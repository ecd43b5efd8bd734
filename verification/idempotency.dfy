/** Creating an invoice with an idempotency key, for one merchant and one key: any number of calls
    at once, each a sequence of separately committed statements, each of which may die anywhere. */
module Idempotency {
  import opened Options

  /** A row of idempotency_keys: the first response saved. */
  datatype Saved = Saved(hash: string, response: nat)

  datatype Answer = Invoice(id: nat) | Conflict | Error

  /** What a call does next. */
  datatype Point = Check | FindExisting | Insert | Save(id: nat) | Answered(answer: Answer) | Dead

  datatype Call = Call(hash: string, at: Point)

  /** The tables as this merchant and key see them: the saved response, and the ids of the
      invoices that carry the key. */
  datatype System = System(saved: Option<Saved>, invoices: seq<nat>, calls: seq<Call>)

  /** Validate fails a call for reasons of its own: body, limits, fees. newId is the id a new row
      would get. */
  datatype Action = Begin(hash: string) | Continue(call: nat, newId: nat) | Validate(call: nat) | Crash(call: nat)

  function Goto(s: System, c: nat, at: Point): System
    requires c < |s.calls|
  {
    s.(calls := s.calls[c := s.calls[c].(at := at)])
  }

  function Advance(s: System, c: nat, newId: nat): System
    requires c < |s.calls|
  {
    match s.calls[c].at
    case Check =>
      (match s.saved
       case None => Goto(s, c, FindExisting)
       case Some(row) =>
         Goto(s, c, Answered(if row.hash != s.calls[c].hash then Conflict else Invoice(row.response))))
    case FindExisting =>
      if s.invoices != [] then Goto(s, c, Answered(Invoice(s.invoices[0]))) else Goto(s, c, Insert)
    case Insert =>
      // The unique index on (merchant_id, idempotency_key) admits one row.
      if s.invoices != [] then Goto(s, c, Answered(Error))
      else Goto(s.(invoices := [newId]), c, Save(newId))
    case Save(id) =>
      // ON CONFLICT DO NOTHING.
      var saved := if s.saved.Some? then s.saved else Some(Saved(s.calls[c].hash, id));
      Goto(s.(saved := saved), c, Answered(Invoice(id)))
    case Answered(_) => s
    case Dead => s
  }

  function Step(s: System, a: Action): System
  {
    match a
    case Begin(hash) => s.(calls := s.calls + [Call(hash, Check)])
    case Continue(c, newId) => if c < |s.calls| then Advance(s, c, newId) else s
    case Validate(c) =>
      if c < |s.calls| && s.calls[c].at == Insert then Goto(s, c, Answered(Error)) else s
    case Crash(c) =>
      if c < |s.calls| && !s.calls[c].at.Answered? then Goto(s, c, Dead) else s
  }

  function Exec(s: System, acts: seq<Action>): System
  {
    if acts == [] then s else Step(Exec(s, acts[..|acts| - 1]), acts[|acts| - 1])
  }

  const EMPTY := System(None, [], [])

  ghost predicate CallOk(s: System, c: Call)
  {
    && (c.at.Save? ==> s.invoices == [c.at.id])
    && (c.at.Answered? && c.at.answer.Invoice? ==> s.invoices == [c.at.answer.id])
    && (c.at.Answered? && c.at.answer.Conflict? ==> s.saved.Some? && s.saved.value.hash != c.hash)
  }

  ghost predicate Inv(s: System)
  {
    && |s.invoices| <= 1
    && (s.saved.Some? ==> s.invoices == [s.saved.value.response])
    && (forall c :: 0 <= c < |s.calls| ==> CallOk(s, s.calls[c]))
  }

  lemma StepKeepsInv(s: System, a: Action)
    requires Inv(s)
    ensures Inv(Step(s, a))
    ensures s.invoices <= Step(s, a).invoices
    ensures s.saved.Some? ==> Step(s, a).saved == s.saved
  {
    var t := Step(s, a);
    forall c | 0 <= c < |t.calls| ensures CallOk(t, t.calls[c]) {
      if c < |s.calls| { assert CallOk(s, s.calls[c]); }
      if a.Continue? && a.call < |s.calls| { assert CallOk(s, s.calls[a.call]); }
    }
  }

  lemma {:induction false} ExecKeepsInv(s: System, acts: seq<Action>)
    requires Inv(s)
    ensures Inv(Exec(s, acts))
    ensures s.invoices <= Exec(s, acts).invoices
    ensures s.saved.Some? ==> Exec(s, acts).saved == s.saved
  {
    if acts != [] {
      ExecKeepsInv(s, acts[..|acts| - 1]);
      StepKeepsInv(Exec(s, acts[..|acts| - 1]), acts[|acts| - 1]);
    }
  }

  /** One key, one invoice: every run creates at most one, and every call that succeeds returns
      that one. */
  lemma OneInvoicePerKey(acts: seq<Action>)
    ensures var t := Exec(EMPTY, acts);
      && |t.invoices| <= 1
      && forall c :: 0 <= c < |t.calls| && t.calls[c].at.Answered? && t.calls[c].at.answer.Invoice? ==>
           t.invoices == [t.calls[c].at.answer.id]
  {
    ExecKeepsInv(EMPTY, acts);
    var t := Exec(EMPTY, acts);
    forall c | 0 <= c < |t.calls| && t.calls[c].at.Answered? && t.calls[c].at.answer.Invoice?
      ensures t.invoices == [t.calls[c].at.answer.id]
    {
      assert CallOk(t, t.calls[c]);
    }
  }

  /** The i-th action of the run is the check of call c. */
  predicate ChecksAt(acts: seq<Action>, c: nat, i: nat)
  {
    && i < |acts| && acts[i].Continue? && acts[i].call == c
    && var s := Exec(EMPTY, acts[..i]);
    c < |s.calls| && s.calls[c].at == Check
  }

  /** What the check of a call decides: a conflict, the saved invoice, or to go on. */
  ghost predicate Decided(saved: Option<Saved>, hash: string, at: Point)
  {
    && at != Check
    && match saved
       case None => at != Answered(Conflict)
       case Some(row) => at == Answered(if row.hash != hash then Conflict else Invoice(row.response))
  }

  lemma DecidedStays(s: System, a: Action, c: nat, saved: Option<Saved>)
    requires c < |s.calls| && Decided(saved, s.calls[c].hash, s.calls[c].at)
    ensures c < |Step(s, a).calls| && Step(s, a).calls[c].hash == s.calls[c].hash
    ensures Decided(saved, s.calls[c].hash, Step(s, a).calls[c].at)
  {
  }

  lemma {:induction false} DecidedAfter(acts: seq<Action>, c: nat, i: nat)
    requires ChecksAt(acts, c, i)
    ensures c < |Exec(EMPTY, acts).calls|
    ensures var call := Exec(EMPTY, acts).calls[c];
            Decided(Exec(EMPTY, acts[..i]).saved, call.hash, call.at)
  {
    var n := |acts| - 1;
    if i < n {
      assert acts[..n][..i] == acts[..i];
      DecidedAfter(acts[..n], c, i);
      DecidedStays(Exec(EMPTY, acts[..n]), acts[n], c, Exec(EMPTY, acts[..i]).saved);
    }
  }

  /** A call is answered only after its check. */
  lemma {:induction false} AnsweredWasChecked(acts: seq<Action>, c: nat) returns (i: nat)
    requires c < |Exec(EMPTY, acts).calls| && Exec(EMPTY, acts).calls[c].at !in {Check, Dead}
    ensures ChecksAt(acts, c, i)
  {
    var n := |acts| - 1;
    assert acts != [];
    var mid := Exec(EMPTY, acts[..n]);
    if c < |mid.calls| && mid.calls[c].at !in {Check, Dead} {
      i := AnsweredWasChecked(acts[..n], c);
      assert acts[..n][..i] == acts[..i];
    } else {
      i := n;
    }
  }

  /** Every answered call made its check at some moment, and is answered by a conflict if and only if
      a response with another body was saved at that moment; one with the same body gets the saved
      invoice. */
  lemma ConflictIffSavedAtCheck(acts: seq<Action>, c: nat) returns (i: nat)
    requires c < |Exec(EMPTY, acts).calls| && Exec(EMPTY, acts).calls[c].at.Answered?
    ensures ChecksAt(acts, c, i)
    ensures var call, saved := Exec(EMPTY, acts).calls[c], Exec(EMPTY, acts[..i]).saved;
      && (call.at.answer == Conflict <==> saved.Some? && saved.value.hash != call.hash)
      && (saved.Some? && saved.value.hash == call.hash ==> call.at.answer == Invoice(saved.value.response))
  {
    i := AnsweredWasChecked(acts, c);
    DecidedAfter(acts, c, i);
  }

  /** A run seen one action at a time. */
  lemma ExecSnoc(acts: seq<Action>, a: Action)
    ensures Exec(EMPTY, acts + [a]) == Step(Exec(EMPTY, acts), a)
  {
    assert (acts + [a])[..|acts|] == acts;
  }

  /** The run in which call 0, with body "b", makes its check before call 1, with body "a", inserts
      and saves. */
  function Race(k: nat): seq<Action>
  {
    if k == 0 then []
    else Race(k - 1) + [match k
                        case 1 => Begin("b")
                        case 2 => Continue(0, 0)
                        case 3 => Begin("a")
                        case 8 => Continue(0, 0)
                        case _ => Continue(1, 7)]
  }

  /** The race between check and save: the other body gets the invoice instead of a conflict. */
  lemma OtherBodyGetsInvoice()
    ensures Exec(EMPTY, Race(8))
            == System(Some(Saved("a", 7)), [7], [Call("b", Answered(Invoice(7))), Call("a", Answered(Invoice(7)))])
  {
    RaceStates();
    ExecSnoc(Race(7), Continue(0, 0));
  }

  lemma RaceStates()
    ensures Exec(EMPTY, Race(7))
            == System(Some(Saved("a", 7)), [7], [Call("b", FindExisting), Call("a", Answered(Invoice(7)))])
  {
    var b := Call("b", FindExisting);
    ExecSnoc(Race(0), Begin("b"));
    ExecSnoc(Race(1), Continue(0, 0));
    assert Exec(EMPTY, Race(2)) == System(None, [], [b]);
    ExecSnoc(Race(2), Begin("a"));
    assert Exec(EMPTY, Race(3)) == System(None, [], [b, Call("a", Check)]);
    ExecSnoc(Race(3), Continue(1, 7));
    assert Exec(EMPTY, Race(4)) == System(None, [], [b, Call("a", FindExisting)]);
    ExecSnoc(Race(4), Continue(1, 7));
    assert Exec(EMPTY, Race(5)) == System(None, [], [b, Call("a", Insert)]);
    ExecSnoc(Race(5), Continue(1, 7));
    assert Exec(EMPTY, Race(6)) == System(None, [7], [b, Call("a", Save(7))]);
    ExecSnoc(Race(6), Continue(1, 7));
  }

  // ----- a creator that dies before saving ----------------------------------------------------

  /** The invoice exists, nothing is saved, and no call is about to save. */
  ghost predicate NeverSaved(s: System)
  {
    && s.saved.None? && s.invoices != []
    && forall c :: 0 <= c < |s.calls| ==> !s.calls[c].at.Save?
  }

  lemma {:induction false} NeverSavedStays(s: System, acts: seq<Action>)
    requires Inv(s) && NeverSaved(s)
    ensures Inv(Exec(s, acts)) && NeverSaved(Exec(s, acts)) && Exec(s, acts).invoices == s.invoices
  {
    if acts != [] {
      NeverSavedStays(s, acts[..|acts| - 1]);
      StepKeepsInv(Exec(s, acts[..|acts| - 1]), acts[|acts| - 1]);
    }
  }

  /** When the creating call dies between its insert and its save, no later call ever gets a
      conflict: whatever its body, a call that succeeds returns the first invoice. */
  lemma LostSaveMeansNoConflict(before: seq<Action>, acts: seq<Action>, c: nat)
    requires NeverSaved(Exec(EMPTY, before))
    requires c < |Exec(Exec(EMPTY, before), acts).calls|
    ensures Exec(Exec(EMPTY, before), acts).calls[c].at != Answered(Conflict)
  {
    ExecKeepsInv(EMPTY, before);
    NeverSavedStays(Exec(EMPTY, before), acts);
    var t := Exec(Exec(EMPTY, before), acts);
    assert CallOk(t, t.calls[c]);
  }

  /** Such a state is reached by a call that crashes between insert and save. */
  lemma LostSaveHappens()
    ensures NeverSaved(Exec(EMPTY, [Begin("a"), Continue(0, 7), Continue(0, 7), Continue(0, 7), Crash(0)]))
  {
    var a := [Begin("a")];
    var b, c := a + [Continue(0, 7)], a + [Continue(0, 7)] + [Continue(0, 7)];
    var d := c + [Continue(0, 7)];
    ExecSnoc([], Begin("a"));
    ExecSnoc(a, Continue(0, 7));
    ExecSnoc(b, Continue(0, 7));
    ExecSnoc(c, Continue(0, 7));
    ExecSnoc(d, Crash(0));
    assert [] + a == a && d + [Crash(0)] == [Begin("a"), Continue(0, 7), Continue(0, 7), Continue(0, 7), Crash(0)];
    assert Exec(EMPTY, b) == System(None, [], [Call("a", FindExisting)]);
    assert Exec(EMPTY, d) == System(None, [7], [Call("a", Save(7))]);
  }
}
