/**
 Edge counts and in-degrees under every interleaving.
 */
module StampCounts {
  import opened InsertProtocol
  import opened InsertInvariant
  import opened InsertSteps
  import opened InsertRuns
  import opened InsertMoves
  import opened StampProtocol
  import opened StampInvariant

  // 1 while the call's neighbor is written and its edge not counted.
  function Late(th: Thread, c: Call, b: nat): nat {
    if c.aux.AddCount? && th.mode.FreshSlot? && th.tmp == b then 1 else 0
  }

  function SumLate(threads: seq<Thread>, calls: seq<Call>, b: nat): nat
    requires |threads| == |calls|
  {
    if threads == [] then 0 else Late(threads[0], calls[0], b) + SumLate(threads[1..], calls[1..], b)
  }

  // 1 once the call has counted a new edge to v.
  function Credit(th: Thread, c: Call, v: int): int {
    if th.to == v && !c.aux.AddIn? then Made(th) else 0
  }

  function SumCredit(threads: seq<Thread>, calls: seq<Call>, v: int): int
    requires |threads| == |calls|
  {
    if threads == [] then 0 else Credit(threads[0], calls[0], v) + SumCredit(threads[1..], calls[1..], v)
  }

  lemma {:induction false} SumsSet(threads: seq<Thread>, calls: seq<Call>, t: nat, th: Thread, c: Call, b: nat, v: int)
    requires |threads| == |calls| && t < |threads|
    ensures SumLate(threads[t := th], calls[t := c], b) == SumLate(threads, calls, b) - Late(threads[t], calls[t], b) + Late(th, c, b)
    ensures SumCredit(threads[t := th], calls[t := c], v) == SumCredit(threads, calls, v) - Credit(threads[t], calls[t], v) + Credit(th, c, v)
  {
    hide Late, Credit;
    if t > 0 {
      assert threads[t := th][1..] == threads[1..][t - 1 := th] && calls[t := c][1..] == calls[1..][t - 1 := c];
      SumsSet(threads[1..], calls[1..], t - 1, th, c, b, v);
    } else {
      assert threads[t := th][1..] == threads[1..] && calls[t := c][1..] == calls[1..];
    }
  }

  ghost function ClaimedIn(a: History, b: nat): set<nat> {
    set p | p in a.claimed && p.0 == b :: p.1
  }

  // Accesses to the header come at their places, and a block that is not linked yet has its one edge counted or not.
  ghost predicate TallyOk(meta: map<nat, Meta>, th: Thread, c: Call) {
    && PlaceOk(th, c)
    && (OwnsBlock(th) ==> MetaOf(meta, th.tmp).numEdges == if Counted(th, c) then 1 else 0)
  }

  // Counts are exact but for calls between their two accesses.
  ghost predicate CountsOk(x: Whole, a: History, indeg0: map<int, int>) {
    && |x.calls| == |x.s.threads|
    && (forall t: nat | t < |x.calls| :: TallyOk(x.meta, x.s.threads[t], x.calls[t]))
    && (forall b: nat | b in a.chain && Kind(x.s.m, b) ::
          MetaOf(x.meta, b).numEdges == |ClaimedIn(a, b)| - SumLate(x.s.threads, x.calls, b))
    && (forall v: int :: InDegree(x.indeg, v) == InDegree(indeg0, v) + SumCredit(x.s.threads, x.calls, v))
  }

  ghost predicate CountInvs(x: Whole, a: History, indeg0: map<int, int>) {
    Inv(x.s, a) && CountsOk(x, a, indeg0)
  }

  lemma CountsElim(x: Whole, a: History, indeg0: map<int, int>)
    requires CountInvs(x, a, indeg0)
    ensures Inv(x.s, a) && |x.calls| == |x.s.threads|
    ensures forall t: nat | t < |x.calls| :: TallyOk(x.meta, x.s.threads[t], x.calls[t])
    ensures forall b: nat | b in a.chain && Kind(x.s.m, b) :: MetaOf(x.meta, b).numEdges == |ClaimedIn(a, b)| - SumLate(x.s.threads, x.calls, b)
    ensures forall v: int :: InDegree(x.indeg, v) == InDegree(indeg0, v) + SumCredit(x.s.threads, x.calls, v)
  {
    hide Inv, TallyOk, Kind, MetaOf, ClaimedIn, SumLate, SumCredit, InDegree;
  }

  lemma CountsIntro(x: Whole, a: History, indeg0: map<int, int>)
    requires Inv(x.s, a) && |x.calls| == |x.s.threads|
    requires forall t: nat | t < |x.calls| :: TallyOk(x.meta, x.s.threads[t], x.calls[t])
    requires forall b: nat | b in a.chain && Kind(x.s.m, b) :: MetaOf(x.meta, b).numEdges == |ClaimedIn(a, b)| - SumLate(x.s.threads, x.calls, b)
    requires forall v: int :: InDegree(x.indeg, v) == InDegree(indeg0, v) + SumCredit(x.s.threads, x.calls, v)
    ensures CountInvs(x, a, indeg0)
  {
    hide Inv, TallyOk, Kind, MetaOf, ClaimedIn, SumLate, SumCredit, InDegree;
  }

  // ---------------------------------------------------------------- steps of the insert protocol

  // How a step moves the claimed slots of block b.
  lemma ClaimsMove(s: State, a: History, t: nat, b: nat)
    requires Inv(s, a) && Enabled(s, t) && t < |s.threads|
    ensures var th, a' := s.threads[t], Record(s, a, t);
      && (th.pc.WriteNb? && th.mode.FreshSlot? ==> th.tmp in a.chain)
      && |ClaimedIn(a', b)| == |ClaimedIn(a, b)| + if b == th.tmp && ((th.pc.WriteNb? && th.mode.FreshSlot?) || th.pc.Link?) then 1 else 0
  {
    hide *;
    var th, a' := s.threads[t], Record(s, a, t);
    RecordClaims(s, a, t);
    ClaimFacts(s, a, t);
    BlockInHand(s, a, t);
    OwnsIs(th);
    UpdatingIs(th.pc);
    OnKindIs(s.m, a, th.tmp);
    if (th.pc.WriteNb? && th.mode.FreshSlot?) || th.pc.Link? {
      ClaimOneMore(a, a', th.tmp, if th.pc.Link? then 0 else th.k, b);
    } else {
      SameClaims(a, a', b);
    }
  }

  lemma ClaimOneMore(a: History, a': History, b0: nat, k: nat, b: nat)
    requires a'.claimed == a.claimed + {(b0, k)} && (b0, k) !in a.claimed
    ensures |ClaimedIn(a', b)| == |ClaimedIn(a, b)| + if b == b0 then 1 else 0
  {
    forall j: nat ensures j in ClaimedIn(a', b) <==> (b, j) in a'.claimed { ClaimedHas(a', b, j); }
    forall j: nat ensures j in ClaimedIn(a, b) <==> (b, j) in a.claimed { ClaimedHas(a, b, j); }
    hide ClaimedIn;
    assert ClaimedIn(a', b) == ClaimedIn(a, b) + if b == b0 then {k} else {};
  }

  lemma ClaimedHas(a: History, b: nat, j: nat)
    ensures j in ClaimedIn(a, b) <==> (b, j) in a.claimed
  {
    if (b, j) in a.claimed { assert (b, j).1 == j; }
    if j in ClaimedIn(a, b) { var p :| p in a.claimed && p.0 == b && p.1 == j; assert p == (b, j); }
  }

  lemma SameClaims(a: History, a': History, b: nat)
    requires a'.claimed == a.claimed
    ensures |ClaimedIn(a', b)| == |ClaimedIn(a, b)|
  {
  }

  // A call's own tally over a step of the insert protocol.
  lemma TallyStep(m: Mem, th: Thread, c: Call)
    requires c.aux.Core? && (th.pc.Existing? ==> th.mode.Unlocked? || th.mode.Locked?)
    requires th.pc.OutDeg? || th.pc.HighTest? || th.pc.HighWrite? || th.pc.Unlock? ==> th.mode.FreshSlot? || th.mode.NewBlock?
    ensures var th', c' := Act(m, th).1, c.(aux := After(th.pc));
      && (OwnsBlock(th') && !th.pc.Alloc? ==> OwnsBlock(th) && th'.tmp == th.tmp && (Counted(th', c') <==> Counted(th, c)))
      && (th.pc.Alloc? && OwnsBlock(th') ==> th'.tmp == m.tail && !Counted(th', c'))
      && (Late(th', c', th.tmp) == if th.pc.WriteNb? && th.mode.FreshSlot? then 1 else 0)
      && (forall b: nat | b != th.tmp :: Late(th', c', b) == 0)
      && (forall v: int :: Credit(th', c', v) == Credit(th, c, v))
  {
    hide Word, At, Kind, Blk, SetWord, SetSlot, SetHigh;
  }

  lemma LateNone(th: Thread, c: Call)
    requires !c.aux.AddCount?
    ensures forall b: nat :: Late(th, c, b) == 0
  {
  }

  lemma {:induction false} SumLateZero(threads: seq<Thread>, calls: seq<Call>, b: nat)
    requires |threads| == |calls| && forall t | 0 <= t < |threads| :: Late(threads[t], calls[t], b) == 0
    ensures SumLate(threads, calls, b) == 0
  {
    hide Late;
    if threads != [] {
      assert forall t | 0 <= t < |threads| - 1 :: threads[1..][t] == threads[t + 1] && calls[1..][t] == calls[t + 1];
      SumLateZero(threads[1..], calls[1..], b);
    }
  }

  // A block that is not linked has nothing claimed and nobody late.
  lemma UnlinkedZero(x: Whole, a: History, indeg0: map<int, int>, b: nat)
    requires CountInvs(x, a, indeg0) && b !in a.chain
    ensures |ClaimedIn(a, b)| == 0 && |x.s.threads| == |x.calls| && SumLate(x.s.threads, x.calls, b) == 0
  {
    CountsElim(x, a, indeg0);
    NoneClaimed(x.s, a, b);
    forall u: nat | u < |x.s.threads| ensures Late(x.s.threads[u], x.calls[u], b) == 0 {
      TallyPlace(x.meta, x.s.threads[u], x.calls[u]);
      BlockInHand(x.s, a, u);
      UpdatingIs(x.s.threads[u].pc);
      hide CountInvs, Inv, TallyOk, Kind;
    }
    hide CountInvs, Inv, Late, SumLate;
    SumLateZero(x.s.threads, x.calls, b);
  }

  lemma NoneClaimed(s: State, a: History, b: nat)
    requires Inv(s, a) && b !in a.chain
    ensures |ClaimedIn(a, b)| == 0
  {
    InvParts(s, a);
    hide Inv, PoolInv, PtrInv, LockInv, ClaimInit, OrderInv, UniqueInv, CountInv;
    assert ClaimedIn(a, b) == {};
  }

  lemma TallyPlace(meta: map<nat, Meta>, th: Thread, c: Call)
    requires TallyOk(meta, th, c)
    ensures PlaceOk(th, c) && (c.aux.AddCount? || Putting(c) ==> th.pc.OutDeg?) && (c.aux.AddIn? ==> th.pc.HighTest?)
    ensures OwnsBlock(th) ==> MetaOf(meta, th.tmp).numEdges == if Counted(th, c) then 1 else 0
  {
    hide OwnsBlock, Counted, MetaOf;
  }

  lemma TallyIntro(meta: map<nat, Meta>, th: Thread, c: Call)
    requires PlaceOk(th, c) && (OwnsBlock(th) ==> MetaOf(meta, th.tmp).numEdges == if Counted(th, c) then 1 else 0)
    ensures TallyOk(meta, th, c)
  {
    hide OwnsBlock, Counted, MetaOf, PlaceOk;
  }

  lemma AfterPlace(m: Mem, th: Thread, c: Call)
    requires th.pc.Existing? ==> th.mode.Unlocked? || th.mode.Locked?
    requires th.pc.Unlock? ==> th.mode.FreshSlot? || th.mode.NewBlock?
    ensures PlaceOk(Act(m, th).1, c.(aux := After(th.pc)))
  {
    NextPlace(m, th);
    hide Act, After;
  }

  lemma CoreTally(x: Whole, a: History, indeg0: map<int, int>, t: nat, u: nat)
    requires CountInvs(x, a, indeg0) && Able(x, t) && x.calls[t].aux.Core? && u < |x.s.threads|
    ensures |Go(x, t).s.threads| == |Go(x, t).calls| == |x.s.threads| && TallyOk(Go(x, t).meta, Go(x, t).s.threads[u], Go(x, t).calls[u])
  {
    hide *;
    CoreIs(x, t);
    StepIs(x.s, t);
    CountsElim(x, a, indeg0);
    var th, c, x' := x.s.threads[u], x.calls[u], Go(x, t);
    TallyPlace(x.meta, th, c);
    BlockInHand(x.s, a, u);
    BlocksBelow(x.s, a);
    if u == t {
      ModeHere(x.s, a, t);
      AfterPlace(x.s.m, th, c);
      TallyStep(x.s.m, th, c);
      AllocEmpty(x, t);
    }
    if OwnsBlock(th) { HeaderKept(x.s, x.meta, x'.meta, th.tmp); }
    TallyIntro(x'.meta, x'.s.threads[u], x'.calls[u]);
  }

  lemma AllocEmpty(x: Whole, t: nat)
    requires Able(x, t) && x.calls[t].aux.Core?
    ensures var th := x.s.threads[t];
      th.pc.Alloc? && OwnsBlock(Act(x.s.m, th).1) ==> MetaOf(Go(x, t).meta, x.s.m.tail).numEdges == 0
  {
    hide Blocked;
  }

  lemma CoreBlock(x: Whole, a: History, indeg0: map<int, int>, t: nat, b: nat)
    requires CountInvs(x, a, indeg0) && Able(x, t) && x.calls[t].aux.Core? && b in Record(x.s, a, t).chain && Kind(Go(x, t).s.m, b)
    ensures |Go(x, t).s.threads| == |Go(x, t).calls|
    ensures MetaOf(Go(x, t).meta, b).numEdges == |ClaimedIn(Record(x.s, a, t), b)| - SumLate(Go(x, t).s.threads, Go(x, t).calls, b)
  {
    hide *;
    CoreIs(x, t);
    StepIs(x.s, t);
    CountsElim(x, a, indeg0);
    var th, c, x', a' := x.s.threads[t], x.calls[t], Go(x, t), Record(x.s, a, t);
    ModeHere(x.s, a, t);
    TallyStep(x.s.m, th, c);
    CoreLate(c);
    LateNone(th, c);
    SumsSet(x.s.threads, x.calls, t, x'.s.threads[t], x'.calls[t], b, 0);
    ClaimsMove(x.s, a, t, b);
    StepLeaves(x.s, a, t);
    LeavesChain(x.s, a, t, x'.s.m, a');
    ChainInPool(x.s, a);
    BlockInHand(x.s, a, t);
    OwnsIs(th);
    if b in a.chain {
      TidyLeaves(x.s, a, t, x'.s.m, a', b);
      HeaderKept(x.s, x.meta, x'.meta, b);
    } else {
      UnlinkedZero(x, a, indeg0, b);
      TallyPlace(x.meta, th, c);
      LinkCounted(th, c);
      BlocksBelow(x.s, a);
      HeaderKept(x.s, x.meta, x'.meta, b);
    }
  }

  lemma CoreLate(c: Call)
    ensures c.aux.Core? ==> !c.aux.AddCount?
  {
  }

  lemma LinkCounted(th: Thread, c: Call)
    ensures th.pc.Link? ==> Counted(th, c)
  {
  }

  lemma CoreIndegree(x: Whole, a: History, indeg0: map<int, int>, t: nat, v: int)
    requires CountInvs(x, a, indeg0) && Able(x, t) && x.calls[t].aux.Core?
    ensures |Go(x, t).s.threads| == |Go(x, t).calls| && Go(x, t).indeg == x.indeg
    ensures InDegree(x.indeg, v) == InDegree(indeg0, v) + SumCredit(Go(x, t).s.threads, Go(x, t).calls, v)
  {
    hide *;
    CoreIs(x, t);
    CoreIn(x, t);
    StepIs(x.s, t);
    CountsElim(x, a, indeg0);
    ModeHere(x.s, a, t);
    TallyStep(x.s.m, x.s.threads[t], x.calls[t]);
    SumsSet(x.s.threads, x.calls, t, Go(x, t).s.threads[t], Go(x, t).calls[t], 0, v);
  }

  lemma CoreIn(x: Whole, t: nat)
    requires Able(x, t) && x.calls[t].aux.Core?
    ensures Go(x, t).indeg == x.indeg
  {
    hide Step, Blocked;
  }

  lemma CoreCounts(x: Whole, a: History, indeg0: map<int, int>, t: nat)
    requires CountInvs(x, a, indeg0) && Able(x, t) && x.calls[t].aux.Core?
    ensures CountInvs(Go(x, t), Record(x.s, a, t), indeg0)
  {
    hide *;
    CountsElim(x, a, indeg0);
    CoreIs(x, t);
    StepKeeps(x.s, a, t);
    CoreTally(x, a, indeg0, t, t);
    var x', a' := Go(x, t), Record(x.s, a, t);
    forall u: nat | u < |x'.calls| ensures TallyOk(x'.meta, x'.s.threads[u], x'.calls[u]) { CoreTally(x, a, indeg0, t, u); }
    forall b: nat | b in a'.chain && Kind(x'.s.m, b) ensures MetaOf(x'.meta, b).numEdges == |ClaimedIn(a', b)| - SumLate(x'.s.threads, x'.calls, b) {
      CoreBlock(x, a, indeg0, t, b);
    }
    forall v: int ensures InDegree(x'.indeg, v) == InDegree(indeg0, v) + SumCredit(x'.s.threads, x'.calls, v) { CoreIndegree(x, a, indeg0, t, v); }
    CountsIntro(x', a', indeg0);
  }

  // ---------------------------------------------------------------- accesses to the header

  lemma HeadTally(th: Thread, c: Call, c': Call)
    requires PlaceOk(th, c) && !c.aux.Core? && !c.aux.AddIn?
    requires (c.aux.AddCount? ==> c'.aux.PutSmall? || c'.aux.Core?) && (c.aux.PutSmall? ==> c'.aux.PutLarge?) && (c.aux.PutLarge? ==> c'.aux.Core?)
    requires (c.aux.ReadSmall? ==> c'.aux.LockSmall? || c'.aux.ReadLarge?) && (c.aux.ReadLarge? ==> c'.aux.LockSmall? || c'.aux.Core?)
    requires (c.aux.LockSmall? ==> c'.aux.TestLarge?) && (c.aux.TestLarge? ==> c'.aux.SetLarge? || c'.aux.Unlatch?) && (c.aux.SetLarge? ==> c'.aux.Unlatch?)
    requires c.aux.Unlatch? ==> c'.aux.Core?
    ensures PlaceOk(th, c')
    ensures forall b: nat :: Late(th, c', b) == 0 && Late(th, c, b) == if c.aux.AddCount? && th.mode.FreshSlot? && th.tmp == b then 1 else 0
    ensures forall v: int :: Credit(th, c', v) == Credit(th, c, v)
    ensures c.aux.AddCount? ==> th.pc.OutDeg? && !Counted(th, c) && Counted(th, c')
    ensures !c.aux.AddCount? ==> (Counted(th, c') <==> Counted(th, c))
  {
    hide Made;
  }

  lemma HeadAux(x: Whole, t: nat, e: Meta, c': Call)
    requires Heads(x, t, e, c')
    ensures t < |x.calls| && (x.calls[t].aux.AddCount? ==> c'.aux.PutSmall? || c'.aux.Core?)
  {
    hide Blocked;
  }

  lemma HeadCounts(x: Whole, a: History, indeg0: map<int, int>, t: nat, e: Meta, c': Call)
    requires CountInvs(x, a, indeg0) && Heads(x, t, e, c')
    ensures CountInvs(Go(x, t), a, indeg0)
  {
    hide *;
    HeadsIs(x, t, e, c');
    HeadAux(x, t, e, c');
    CountsElim(x, a, indeg0);
    var th, c, x' := x.s.threads[t], x.calls[t], Go(x, t);
    var meta' := x.meta[th.tmp := e];
    MetaPut(x.meta, th.tmp, e);
    TallyPlace(x.meta, th, c);
    HeadTally(th, c, c');
    BlockInHand(x.s, a, t);
    OwnsIs(th);
    UpdatingIs(th.pc);
    OnKindIs(x.s.m, a, th.tmp);
    assert x.s.threads[t := th] == x.s.threads;
    forall u: nat | u < |x'.calls| ensures TallyOk(x'.meta, x'.s.threads[u], x'.calls[u]) {
      TallyPlace(x.meta, x.s.threads[u], x.calls[u]);
      BlockInHand(x.s, a, u);
      if u != t && OwnsBlock(x.s.threads[u]) && OwnsBlock(th) { Appending(x.s, a, t, u); }
      TallyIntro(x'.meta, x'.s.threads[u], x'.calls[u]);
    }
    forall b: nat | b in a.chain && Kind(x.s.m, b) ensures MetaOf(meta', b).numEdges == |ClaimedIn(a, b)| - SumLate(x.s.threads, x'.calls, b) {
      SumsSet(x.s.threads, x.calls, t, th, c', b, 0);
    }
    forall v: int ensures InDegree(x.indeg, v) == InDegree(indeg0, v) + SumCredit(x.s.threads, x'.calls, v) { SumsSet(x.s.threads, x.calls, t, th, c', 0, v); }
    CountsIntro(x', a, indeg0);
  }

  lemma InCounts(x: Whole, a: History, indeg0: map<int, int>, t: nat)
    requires CountInvs(x, a, indeg0) && Able(x, t) && x.calls[t].aux.AddIn?
    ensures CountInvs(Go(x, t), a, indeg0)
  {
    hide *;
    InIs(x, t);
    CountsElim(x, a, indeg0);
    var th, c, x' := x.s.threads[t], x.calls[t], Go(x, t);
    var c' := c.(aux := Core);
    TallyPlace(x.meta, th, c);
    ModeHere(x.s, a, t);
    InTally(x.meta, th, c);
    InPut(x.indeg, th.to);
    assert x.s.threads[t := th] == x.s.threads;
    forall u: nat | u < |x'.calls| ensures TallyOk(x'.meta, x'.s.threads[u], x'.calls[u]) {
      TallyPlace(x.meta, x.s.threads[u], x.calls[u]);
      TallyIntro(x'.meta, x'.s.threads[u], x'.calls[u]);
    }
    forall b: nat | b in a.chain && Kind(x.s.m, b) ensures MetaOf(x.meta, b).numEdges == |ClaimedIn(a, b)| - SumLate(x.s.threads, x'.calls, b) {
      SumsSet(x.s.threads, x.calls, t, th, c', b, 0);
    }
    forall v: int ensures InDegree(x'.indeg, v) == InDegree(indeg0, v) + SumCredit(x.s.threads, x'.calls, v) { SumsSet(x.s.threads, x.calls, t, th, c', 0, v); }
    CountsIntro(x', a, indeg0);
  }

  lemma InTally(meta: map<nat, Meta>, th: Thread, c: Call)
    requires TallyOk(meta, th, c) && c.aux.AddIn? && (th.pc.HighTest? ==> th.mode.FreshSlot? || th.mode.NewBlock?)
    ensures var c' := c.(aux := Core);
      && PlaceOk(th, c') && (Counted(th, c') <==> Counted(th, c))
      && (forall b: nat :: Late(th, c', b) == 0 && Late(th, c, b) == 0)
      && (forall v: int :: Credit(th, c, v) == 0 && Credit(th, c', v) == if v == th.to then 1 else 0)
  {
    hide MetaOf;
  }

  lemma InPut(indeg: map<int, int>, v: int)
    ensures forall u: int :: InDegree(indeg[v := InDegree(indeg, v) + 1], u) == InDegree(indeg, u) + if u == v then 1 else 0
  {
    var indeg' := indeg[v := InDegree(indeg, v) + 1];
    forall u: int ensures InDegree(indeg', u) == InDegree(indeg, u) + if u == v then 1 else 0 {}
  }

  /** Every atomic step keeps the counts exact, but for calls between their two accesses. */
  lemma GoCounts(x: Whole, a: History, indeg0: map<int, int>, t: nat)
    requires CountInvs(x, a, indeg0)
    ensures CountInvs(Go(x, t), Recorded(x, a, t), indeg0)
  {
    hide CountInvs, Go, Waits, Step, Header, Record;
    if Able(x, t) {
      match x.calls[t].aux {
        case Core => CoreCounts(x, a, indeg0, t);
        case AddIn => InCounts(x, a, indeg0, t);
        case _ =>
          var (e, c') := Header(MetaOf(x.meta, x.s.threads[t].tmp), x.s.threads[t].ts, x.calls[t]);
          HeadCounts(x, a, indeg0, t, e, c');
      }
    } else {
      Stays(x, t);
    }
  }

  // ---------------------------------------------------------------- start and end

  lemma StartSums(threads: seq<Thread>, calls: seq<Call>, b: nat, v: int)
    requires |threads| == |calls| && forall t: nat | t < |threads| :: threads[t].pc.BeginHead? && calls[t].aux.Core?
    ensures SumLate(threads, calls, b) == 0 && SumCredit(threads, calls, v) == 0
  {
    if threads != [] { StartSums(threads[1..], calls[1..], b, v); }
  }

  lemma StartCounted(x: Whole, chain: seq<nat>)
    requires AllReady(x, chain)
    ensures CountInvs(x, Start(x.s, chain), x.indeg)
  {
    var a := Start(x.s, chain);
    StartInv(x.s, chain);
    StartPlaces(x, chain);
    StartClaimed(x.s, chain);
    hide Inv, Start, AllReady, SumLate, SumCredit, ClaimedIn, FilledIn, Kind, MetaOf;
    forall b: nat | b in a.chain && Kind(x.s.m, b) ensures MetaOf(x.meta, b).numEdges == |ClaimedIn(a, b)| - SumLate(x.s.threads, x.calls, b) {
      StartSums(x.s.threads, x.calls, b, 0);
    }
    forall v: int ensures InDegree(x.indeg, v) == InDegree(x.indeg, v) + SumCredit(x.s.threads, x.calls, v) { StartSums(x.s.threads, x.calls, 0, v); }
    CountsIntro(x, a, x.indeg);
  }

  lemma StartPlaces(x: Whole, chain: seq<nat>)
    requires AllReady(x, chain)
    ensures |x.calls| == |x.s.threads| && Start(x.s, chain).chain == chain
    ensures forall t: nat | t < |x.s.threads| :: x.s.threads[t].pc.BeginHead? && x.calls[t].aux.Core? && TallyOk(x.meta, x.s.threads[t], x.calls[t])
    ensures forall b: nat | b in chain && Kind(x.s.m, b) :: MetaOf(x.meta, b).numEdges == |FilledIn(x.s.m, b)|
  {
    hide ChainOf, NoDuplicates, FilledSlots, FilledIn, MetaOf, Kind;
  }

  lemma StartClaimed(s: State, chain: seq<nat>)
    ensures forall b: nat | b in chain :: |ClaimedIn(Start(s, chain), b)| == |FilledIn(s.m, b)|
  {
    var a := Start(s, chain);
    forall b: nat | b in chain ensures |ClaimedIn(a, b)| == |FilledIn(s.m, b)| {
      forall k: nat ensures k in ClaimedIn(a, b) <==> k in FilledIn(s.m, b) { ClaimedHas(a, b, k); }
      assert ClaimedIn(a, b) == FilledIn(s.m, b);
    }
  }

  // How many calls for v have returned 1.
  function InsertionsTo(threads: seq<Thread>, v: int): nat {
    if threads == [] then 0 else (if threads[0].pc.Done? && threads[0].result == 1 && threads[0].to == v then 1 else 0) + InsertionsTo(threads[1..], v)
  }

  lemma {:induction false} EndSums(threads: seq<Thread>, calls: seq<Call>, b: nat, v: int)
    requires |threads| == |calls| && forall t: nat | t < |threads| :: threads[t].pc.Done? && calls[t].aux.Core?
    ensures SumLate(threads, calls, b) == 0 && SumCredit(threads, calls, v) == InsertionsTo(threads, v)
  {
    if threads != [] {
      assert forall t: nat | t < |threads| - 1 :: threads[1..][t] == threads[t + 1] && calls[1..][t] == calls[t + 1];
      EndSums(threads[1..], calls[1..], b, v);
    }
  }

  lemma EndClaimed(m: Mem, a: History, b: nat)
    requires b in a.chain && a.claimed == FilledSlots(m, a.chain)
    ensures |ClaimedIn(a, b)| == |FilledIn(m, b)|
  {
    forall k: nat ensures k in ClaimedIn(a, b) <==> k in FilledIn(m, b) { ClaimedHas(a, b, k); }
    assert ClaimedIn(a, b) == FilledIn(m, b);
  }
}
