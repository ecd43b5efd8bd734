/** The muxed-id allocator under concurrent creates. Each call reads the merchant's base, computes
    and writes it when missing, then bumps the merchant's sequence: separate statements on the
    pool, outside any transaction, so that a rollback gives nothing back. */
module MuxedIds {
  import opened Options
  import opened Matcher

  const STRIDE: nat := 16_777_216

  datatype Merchant = Merchant(createdAt: int, base: Option<nat>, invoiceSeq: nat)

  /** What a running create does next. */
  datatype Point = ReadBase | CountRank | WriteBase(computed: nat) | Bump(base: nat) | Finished

  datatype Call = Call(merchant: nat, at: Point)

  /** History: every id handed out, whether or not its invoice was inserted in the end. */
  datatype Issued = Issued(merchant: nat, number: nat, id: nat)

  datatype System = System(merchants: seq<Merchant>, calls: seq<Call>, issued: seq<Issued>)

  datatype Action = Register(createdAt: int) | Begin(merchant: nat) | Continue(call: nat) | Abandon(call: nat)

  /** SELECT COUNT(*) FROM merchants WHERE created_at <= t. */
  function CountUntil(merchants: seq<Merchant>, t: int): nat
  {
    if merchants == [] then 0
    else CountUntil(merchants[..|merchants| - 1], t) + if merchants[|merchants| - 1].createdAt <= t then 1 else 0
  }

  function Goto(s: System, c: nat, at: Point): System
    requires c < |s.calls|
  {
    s.(calls := s.calls[c := s.calls[c].(at := at)])
  }

  function Advance(s: System, c: nat): System
    requires c < |s.calls| && s.calls[c].merchant < |s.merchants|
  {
    var m := s.calls[c].merchant;
    var merchant := s.merchants[m];
    match s.calls[c].at
    case ReadBase =>
      (match merchant.base
       case Some(b) => Goto(s, c, Bump(b))
       case None => Goto(s, c, CountRank))
    case CountRank => Goto(s, c, WriteBase(CountUntil(s.merchants, merchant.createdAt) * STRIDE))
    case WriteBase(b) => Goto(s.(merchants := s.merchants[m := merchant.(base := Some(b))]), c, Bump(b))
    case Bump(b) =>
      var n := merchant.invoiceSeq + 1;
      Goto(s.(merchants := s.merchants[m := merchant.(invoiceSeq := n)],
              issued := s.issued + [Issued(m, n, b + n)]), c, Finished)
    case Finished => s
  }

  function Step(s: System, a: Action): System
  {
    match a
    case Register(t) =>
      // created_at is distinct and grows with registration.
      if forall i :: 0 <= i < |s.merchants| ==> s.merchants[i].createdAt < t
      then s.(merchants := s.merchants + [Merchant(t, None, 0)]) else s
    case Begin(m) => if m < |s.merchants| then s.(calls := s.calls + [Call(m, ReadBase)]) else s
    case Continue(c) => if c < |s.calls| && s.calls[c].merchant < |s.merchants| then Advance(s, c) else s
    case Abandon(c) => if c < |s.calls| then Goto(s, c, Finished) else s
  }

  function Exec(s: System, acts: seq<Action>): System
  {
    if acts == [] then s else Step(Exec(s, acts[..|acts| - 1]), acts[|acts| - 1])
  }

  function BaseOf(m: nat): nat { (m + 1) * STRIDE }

  ghost predicate InOrder(merchants: seq<Merchant>)
  {
    forall i, j :: 0 <= i < j < |merchants| ==> merchants[i].createdAt < merchants[j].createdAt
  }

  ghost predicate CallOk(c: Call, merchants: seq<Merchant>)
  {
    && c.merchant < |merchants|
    && (c.at.WriteBase? ==> c.at.computed == BaseOf(c.merchant))
    && (c.at.Bump? ==> c.at.base == BaseOf(c.merchant))
  }

  ghost predicate IssuedOk(x: Issued, merchants: seq<Merchant>)
  {
    && x.merchant < |merchants|
    && 1 <= x.number <= merchants[x.merchant].invoiceSeq
    && x.id == BaseOf(x.merchant) + x.number
  }

  ghost predicate Inv(s: System)
  {
    && InOrder(s.merchants)
    && (forall m :: 0 <= m < |s.merchants| && s.merchants[m].base.Some? ==> s.merchants[m].base.value == BaseOf(m))
    && (forall c :: 0 <= c < |s.calls| ==> CallOk(s.calls[c], s.merchants))
    && (forall k :: 0 <= k < |s.issued| ==> IssuedOk(s.issued[k], s.merchants))
    && (forall j, k :: 0 <= j < k < |s.issued| ==>
          s.issued[j].merchant != s.issued[k].merchant || s.issued[j].number != s.issued[k].number)
  }

  /** A merchant's rank is its place in the order of registration, also after later ones came. */
  lemma {:induction false} RankIsPlace(merchants: seq<Merchant>, m: nat)
    requires InOrder(merchants) && m < |merchants|
    ensures CountUntil(merchants, merchants[m].createdAt) == m + 1
  {
    var n := |merchants| - 1;
    if m < n {
      RankIsPlace(merchants[..n], m);
    } else {
      AllCount(merchants[..n], merchants[n].createdAt);
    }
  }

  lemma {:induction false} AllCount(merchants: seq<Merchant>, t: int)
    requires forall i :: 0 <= i < |merchants| ==> merchants[i].createdAt <= t
    ensures CountUntil(merchants, t) == |merchants|
  {
    if merchants != [] { AllCount(merchants[..|merchants| - 1], t); }
  }

  lemma BumpKeepsInv(s: System, c: nat)
    requires Inv(s) && c < |s.calls| && s.calls[c].at.Bump?
    ensures Inv(Step(s, Continue(c)))
  {
    assert CallOk(s.calls[c], s.merchants);
    var t := Step(s, Continue(c));
    forall k | 0 <= k < |t.issued| ensures IssuedOk(t.issued[k], t.merchants) {
      if k < |s.issued| { assert IssuedOk(s.issued[k], s.merchants); }
    }
    forall d | 0 <= d < |t.calls| ensures CallOk(t.calls[d], t.merchants) {
      assert CallOk(s.calls[d], s.merchants);
    }
  }

  lemma WriteKeepsInv(s: System, c: nat)
    requires Inv(s) && c < |s.calls| && s.calls[c].at.WriteBase?
    ensures Inv(Step(s, Continue(c)))
  {
    assert CallOk(s.calls[c], s.merchants);
    var t := Step(s, Continue(c));
    forall k | 0 <= k < |t.issued| ensures IssuedOk(t.issued[k], t.merchants) {
      assert IssuedOk(s.issued[k], s.merchants);
    }
    forall d | 0 <= d < |t.calls| ensures CallOk(t.calls[d], t.merchants) {
      assert CallOk(s.calls[d], s.merchants);
    }
  }

  lemma StepKeepsInv(s: System, a: Action)
    requires Inv(s)
    ensures Inv(Step(s, a))
  {
    if a.Continue? && a.call < |s.calls| {
      var c := s.calls[a.call];
      assert CallOk(c, s.merchants);
      match c.at
      case Bump(_) => BumpKeepsInv(s, a.call);
      case WriteBase(_) => WriteKeepsInv(s, a.call);
      case CountRank => RankIsPlace(s.merchants, c.merchant);
      case _ =>
    }
  }

  lemma {:induction false} ExecKeepsInv(s: System, acts: seq<Action>)
    requires Inv(s)
    ensures Inv(Exec(s, acts))
  {
    if acts != [] {
      ExecKeepsInv(s, acts[..|acts| - 1]);
      StepKeepsInv(Exec(s, acts[..|acts| - 1]), acts[|acts| - 1]);
    }
  }

  const EMPTY := System([], [], [])

  /** A stored base is used as it is; a missing one is counted and stored, and then used. */
  lemma BaseIsReadOrStored(s: System, c: nat, b: nat)
    requires c < |s.calls| && s.calls[c].merchant < |s.merchants|
    ensures var m, t := s.calls[c].merchant, Step(s, Continue(c));
      && (s.calls[c].at == ReadBase && s.merchants[m].base == Some(b) ==> t.calls[c].at == Bump(b))
      && (s.calls[c].at == ReadBase && s.merchants[m].base == None ==> t.calls[c].at == CountRank)
      && (s.calls[c].at == WriteBase(b) ==> t.merchants[m].base == Some(b) && t.calls[c].at == Bump(b))
      && (s.calls[c].at == Bump(b) ==>
            t.merchants[m].invoiceSeq == s.merchants[m].invoiceSeq + 1
            && t.issued == s.issued + [Issued(m, s.merchants[m].invoiceSeq + 1, b + s.merchants[m].invoiceSeq + 1)])
  {
  }

  /** In every interleaving of registrations, creates and rollbacks, two ids handed out are equal
      exactly when one merchant's number has run past its block by the distance between the two
      blocks; so ids are pairwise distinct while every number is at most 2^24. */
  lemma IssuedIdsDistinct(acts: seq<Action>, j: nat, k: nat)
    requires j < k < |Exec(EMPTY, acts).issued|
    ensures var a, b := Exec(EMPTY, acts).issued[j], Exec(EMPTY, acts).issued[k];
      && a.id == (a.merchant + 1) * 16_777_216 + a.number && b.id == (b.merchant + 1) * 16_777_216 + b.number
      && (a.id == b.id <==> a.number - b.number == (b.merchant - a.merchant) * 16_777_216 && a.merchant != b.merchant)
      && (a.number <= 16_777_216 && b.number <= 16_777_216 ==> a.id != b.id)
  {
    ExecKeepsInv(EMPTY, acts);
    var t := Exec(EMPTY, acts);
    var a, b := t.issued[j], t.issued[k];
    assert IssuedOk(a, t.merchants) && IssuedOk(b, t.merchants);
    assert BaseOf(b.merchant) - BaseOf(a.merchant) == (b.merchant - a.merchant) * STRIDE;
  }

  /** How many ids a merchant was given. */
  function CountFor(issued: seq<Issued>, m: nat): nat
  {
    if issued == [] then 0
    else CountFor(issued[..|issued| - 1], m) + if issued[|issued| - 1].merchant == m then 1 else 0
  }

  ghost predicate Counted(s: System)
  {
    && (forall m :: 0 <= m < |s.merchants| ==> s.merchants[m].invoiceSeq == CountFor(s.issued, m))
    && (forall k :: 0 <= k < |s.issued| ==> s.issued[k].merchant < |s.merchants|)
    && forall k :: 0 <= k < |s.issued| ==> s.issued[k].number == CountFor(s.issued[..k], s.issued[k].merchant) + 1
  }

  lemma {:induction false} NoneFor(issued: seq<Issued>, m: nat)
    requires forall k :: 0 <= k < |issued| ==> issued[k].merchant != m
    ensures CountFor(issued, m) == 0
  {
    if issued != [] { NoneFor(issued[..|issued| - 1], m); }
  }

  lemma IssueIsCounted(s: System, c: nat)
    requires Counted(s) && c < |s.calls| && s.calls[c].merchant < |s.merchants| && s.calls[c].at.Bump?
    ensures Counted(Step(s, Continue(c)))
  {
    var t, n := Step(s, Continue(c)), |s.issued|;
    assert t.issued[..n] == s.issued;
    forall k | 0 <= k < |t.issued| ensures t.issued[k].number == CountFor(t.issued[..k], t.issued[k].merchant) + 1 {
      if k < n { assert t.issued[..k] == s.issued[..k]; }
    }
  }

  lemma RegisterIsCounted(s: System, createdAt: int)
    requires Counted(s)
    ensures Counted(Step(s, Register(createdAt)))
  {
    NoneFor(s.issued, |s.merchants|);
  }

  lemma StepIsCounted(s: System, a: Action)
    requires Counted(s)
    ensures Counted(Step(s, a))
  {
    if a.Continue? && a.call < |s.calls| && s.calls[a.call].merchant < |s.merchants| && s.calls[a.call].at.Bump? {
      IssueIsCounted(s, a.call);
    }
    if a.Register? { RegisterIsCounted(s, a.createdAt); }
  }

  lemma {:induction false} ExecIsCounted(acts: seq<Action>)
    ensures Counted(Exec(EMPTY, acts))
  {
    if acts != [] {
      ExecIsCounted(acts[..|acts| - 1]);
      StepIsCounted(Exec(EMPTY, acts[..|acts| - 1]), acts[|acts| - 1]);
    }
  }

  /** Each id is (place of the merchant) * 2^24 + number, and a merchant's numbers are handed out in
      order from 1 without gap or repetition. */
  lemma NumbersAreFresh(acts: seq<Action>, k: nat)
    requires k < |Exec(EMPTY, acts).issued|
    ensures var t := Exec(EMPTY, acts);
      var x := t.issued[k];
      && x.merchant < |t.merchants| && x.id == (x.merchant + 1) * 16_777_216 + x.number
      && x.number == CountFor(t.issued[..k], x.merchant) + 1
      && forall j :: 0 <= j < k && t.issued[j].merchant == x.merchant ==> t.issued[j].number != x.number
  {
    ExecKeepsInv(EMPTY, acts);
    ExecIsCounted(acts);
    var t := Exec(EMPTY, acts);
    assert IssuedOk(t.issued[k], t.merchants);
  }

  /** No muxed address decodes to an id that one of the first 131 merchants was given within its block. */
  lemma EarlyIdsNeverDecode(acts: seq<Action>, k: nat, address: string)
    requires k < |Exec(EMPTY, acts).issued| && Base32(address) && |address| >= 10
    requires var x := Exec(EMPTY, acts).issued[k]; x.merchant < 131 && x.number <= 16_777_216
    ensures DecodeMuxedId("M" + address) != Some(Exec(EMPTY, acts).issued[k].id)
  {
    NumbersAreFresh(acts, k);
    DecodeOfAddress(address);
  }
}
