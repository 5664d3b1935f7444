/**
 The whole of update_edge_data under every interleaving: when its locks can deadlock, and what its
 counts come to.
 */
module StampTheorems {
  import opened InsertProtocol
  import opened InsertInvariant
  import opened InsertSteps
  import opened InsertRuns
  import opened InsertMoves
  import opened InsertFirsts
  import opened InsertTheorems
  import opened StampProtocol
  import opened StampInvariant
  import opened StampCounts
  import opened StampDeadlock
  import opened StampRanges
  import opened StampReports

  /**
   Without a used block of the type that has no edge, no schedule of any calls deadlocks: while some
   call has not returned, some call can move.
   */
  lemma NoDeadlock(x: Whole, chain: seq<nat>, schedule: seq<nat>)
    requires AllReady(x, chain) && !SomeHollow(x.s.m, chain)
    ensures !Deadlocked(Runs(x, schedule))
  {
    StartWhole(x, chain);
    var a, owner := RunsKeep(x, Start(x.s, chain), map[], schedule);
    var y := Runs(x, schedule);
    hide WholeInv, Runs, Start, AllReady;
    if !y.s.m.aborted && !AllFinished(y) {
      var t: nat :| t < |y.s.threads| && !Finished(y, t);
      var u := AwakeCall(y, a, owner, t);
      assert Able(y, u);
    }
  }

  // Some calls and some schedule on this store deadlock.
  ghost predicate CanDeadlock(m: Mem, meta: map<nat, Meta>, chain: seq<nat>) {
    exists x: Whole, schedule: seq<nat> :: Deadlocks(x, m, meta, chain, schedule)
  }

  ghost predicate Deadlocks(x: Whole, m: Mem, meta: map<nat, Meta>, chain: seq<nat>, schedule: seq<nat>) {
    x.s.m == m && x.meta == meta && AllReady(x, chain) && Words(x) && Deadlocked(Runs(x, schedule))
  }

  // The calls' stamps are 64-bit words.
  predicate Words(x: Whole) {
    forall t: nat | t < |x.s.threads| :: INT64_MIN <= x.s.threads[t].ts <= INT64_MAX
  }

  /**
   The locks of update_edge_data can deadlock if and only if the chain has a block of the type that
   has been used and has no edge any more.  Such blocks have a 64-bit stamp above their range.
   */
  lemma DeadlockExactly(m: Mem, meta: map<nat, Meta>, chain: seq<nat>)
    requires Quiet(m, meta, chain) && RoomAbove(m, meta, chain, INT64_MAX)
    ensures CanDeadlock(m, meta, chain) <==> SomeHollow(m, chain)
  {
    hide Quiet, AllReady, Deadlocked, Runs, Hollow;
    if SomeHollow(m, chain) {
      var h: nat :| h in chain && Hollow(m, h);
      var x, schedule := HollowDeadlocks(m, meta, map[], chain, h, INT64_MAX);
      assert Deadlocks(x, m, meta, chain, schedule);
    }
    if CanDeadlock(m, meta, chain) {
      var x, schedule :| Deadlocks(x, m, meta, chain, schedule);
      if !SomeHollow(m, chain) { NoDeadlock(x, chain, schedule); }
    }
  }

  // A chain of one block with two removed edges, and the stamps they have left.
  const EMPTIED: Mem :=
    Mem(0, 0, 1, map[1 := Block(0, 0, 2, [Slot(-3, 5), Slot(-4, 7)] + seq(BLOCK_SIZE - 2, _ => BLANK_SLOT))], 2, 0, [1], false)

  const OLD_RANGE: map<nat, Meta> := map[1 := Meta(0, 5, 7)]

  /** Two edges inserted and removed again are enough to leave a store on which insertions can deadlock. */
  lemma EmptiedDeadlocks()
    ensures Quiet(EMPTIED, OLD_RANGE, [1]) && CanDeadlock(EMPTIED, OLD_RANGE, [1])
  {
    EmptiedQuiet();
    assert Hollow(EMPTIED, 1) by { hide Quiet; }
    assert 1 in [1];
    assert RoomAbove(EMPTIED, OLD_RANGE, [1], INT64_MAX) by { hide Quiet, Hollow; }
    hide Quiet, CanDeadlock;
    DeadlockExactly(EMPTIED, OLD_RANGE, [1]);
  }

  lemma EmptiedQuiet()
    ensures Quiet(EMPTIED, OLD_RANGE, [1])
  {
    var m := EMPTIED;
    assert forall b: nat, k: nat :: !Filled(m, b, k);
    assert FilledSlots(m, [1]) == {} && FilledIn(m, 1) == {};
    assert forall l | LocOk([1], l) :: Word(m, l) != MARKER && Word(m, l) == Succ([1], l);
    QuietIntro(m, OLD_RANGE, [1]);
  }

  // ---------------------------------------------------------------- what the counts come to

  /**
   Once all calls have returned, whatever the schedule: the chain is complete and without
   duplicates, new blocks are registered in order, the out-degree and every block's edge count are
   exact, and a vertex's in-degree has grown by one for each call to it that returned 1: one call where
   an edge to it is new, and none otherwise.  First stamps are as they were, or those of these calls.
   */
  lemma EveryOutcome(x0: Whole, chain0: seq<nat>, schedule: seq<nat>) returns (chain: seq<nat>)
    requires AllReady(x0, chain0) && AllFinished(Runs(x0, schedule))
    ensures var x := Runs(x0, schedule);
      && chain0 <= chain && ChainOf(x.s.m, chain) && NoDuplicates(x.s.m, chain)
      && (forall b, k: nat | b in chain && k < BLOCK_SIZE && Kind(x.s.m, b) :: At(x.s.m, b, k).timeFirst != MARKER)
      && x.s.m.eta == x0.s.m.eta + chain[|chain0|..]
      && x.s.m.outdeg == |FilledSlots(x.s.m, chain)| == x0.s.m.outdeg + Insertions(x.s.threads)
      && (forall b: nat | b in chain && Kind(x.s.m, b) :: MetaOf(x.meta, b).numEdges == |FilledIn(x.s.m, b)|)
      && (forall v: int :: InDegree(x.indeg, v) == InDegree(x0.indeg, v) + InsertionsTo(x.s.threads, v))
      && (forall v: int :: InsertionsTo(x.s.threads, v) == One(Present(x.s.m, chain, v)) - One(Present(x0.s.m, chain0, v)))
      && (forall p | p in FilledSlots(x0.s.m, chain0) :: At(x.s.m, p.0, p.1).timeFirst == At(x0.s.m, p.0, p.1).timeFirst)
      && (forall p | p in FilledSlots(x.s.m, chain) && p !in FilledSlots(x0.s.m, chain0) :: StampedBy(x.s.m, x0.s.threads, x.s.threads, p))
  {
    hide *;
    StartCounted(x0, chain0);
    ReadyCore(x0, chain0);
    StartReports(x0.s, chain0);
    StartFirsts(x0.s, chain0);
    var a := RunsReport(x0, Start(x0.s, chain0), x0.indeg, x0.s.m, chain0, x0.s.threads, schedule);
    var x := Runs(x0, schedule);
    chain := a.chain;
    CountsElim(x, a, x0.indeg);
    FinishedIs(x);
    InvUnique(x.s, a);
    InvParts(x.s, a);
    SharedParts(x.s.m, a, x.s.threads);
    DoneQuiet(x.s, a);
    DoneCounts(x.s.threads);
    DoneFacts(x.s.m, a, x.s.threads);
    StartFields(x0.s, chain0);
    FollowsFields(Start(x0.s, chain0), a);
    DoneClaimed(x.s.m, a, x.s.threads);
    forall b: nat | b in chain && Kind(x.s.m, b) ensures MetaOf(x.meta, b).numEdges == |FilledIn(x.s.m, b)| {
      EndSums(x.s.threads, x.calls, b, 0);
      EndClaimed(x.s.m, a, b);
    }
    forall v: int ensures InDegree(x.indeg, v) == InDegree(x0.indeg, v) + InsertionsTo(x.s.threads, v) { EndSums(x.s.threads, x.calls, 0, v); }
    forall v: int ensures InsertionsTo(x.s.threads, v) == One(Present(x.s.m, chain, v)) - One(Present(x0.s.m, chain0, v)) {
      DoneReports(x.s, a, x0.s.m, chain0, v);
    }
    FirstsAtRest(x0.s, chain0, x.s, a);
  }

  /**
   On a store without a used block of the type that has no edge, once all calls have returned,
   whatever the schedule: every call's stamp that is not negative lies in the range of the block that
   has its edge, and so does a negative one where the range began below zero; no stamp is above its
   block's range, no range has shrunk, and no stamp word is locked.
   */
  lemma RangesCover(x0: Whole, chain0: seq<nat>, schedule: seq<nat>) returns (chain: seq<nat>)
    requires AllReady(x0, chain0) && !SomeHollow(x0.s.m, chain0) && AllFinished(Runs(x0, schedule))
    ensures var x := Runs(x0, schedule);
      && chain0 <= chain
      && (forall t: nat | t < |x.s.threads| && x.s.threads[t].to != x.s.m.from ::
            Ranged(x.s.m, x.meta, chain, x.s.threads[t].to, x.s.threads[t].ts, UsedHeaders(x0.s.m, x0.meta, chain0)))
      && (forall b: nat | b in chain0 && Kind(x0.s.m, b) && Blk(x0.s.m, b).high > 0 ::
            MetaOf(x.meta, b).smallStamp <= MetaOf(x0.meta, b).smallStamp && MetaOf(x0.meta, b).largeStamp <= MetaOf(x.meta, b).largeStamp)
      && (forall b: nat :: MetaOf(x.meta, b).smallStamp != MARKER)
  {
    hide *;
    var base := UsedHeaders(x0.s.m, x0.meta, chain0);
    StartRange(x0, chain0);
    var a, owner := RunsRange(x0, Start(x0.s, chain0), map[], base, schedule);
    var x := Runs(x0, schedule);
    chain := a.chain;
    StartFields(x0.s, chain0);
    FollowsFields(Start(x0.s, chain0), a);
    forall t: nat | t < |x.s.threads| && x.s.threads[t].to != x.s.m.from
      ensures Ranged(x.s.m, x.meta, chain, x.s.threads[t].to, x.s.threads[t].ts, base)
    {
      EndRange(x, a, owner, base, t);
    }
    RangeParts(x, a, owner, base);
    forall b: nat ensures MetaOf(x.meta, b).smallStamp != MARKER { Unowned(x, a, owner, b); }
    forall b: nat | b in chain0 && Kind(x0.s.m, b) && Blk(x0.s.m, b).high > 0
      ensures MetaOf(x.meta, b).smallStamp <= MetaOf(x0.meta, b).smallStamp && MetaOf(x0.meta, b).largeStamp <= MetaOf(x.meta, b).largeStamp
    {
      UsedIs(x0.s.m, x0.meta, chain0, b);
      CoveringAt(x.s.m, a, x.meta, owner, x.calls, base, b);
      Unowned(x, a, owner, b);
      LowIs(x.meta, owner, x.calls, b);
    }
  }

  lemma RangeParts(x: Whole, a: History, owner: map<nat, nat>, base: map<nat, Meta>)
    requires RangeInv(x, a, owner, base)
    ensures WholeInv(x, a, owner) && Covering(x.s.m, a, x.meta, owner, x.calls, base)
  {
    hide WholeInv, Covering, Stored, InRange;
  }

  lemma UsedIs(m: Mem, meta: map<nat, Meta>, chain: seq<nat>, b: nat)
    requires b in chain && Kind(m, b) && Blk(m, b).high > 0
    ensures b in UsedHeaders(m, meta, chain) && UsedHeaders(m, meta, chain)[b] == MetaOf(meta, b)
  {
  }

  lemma FinishedIs(x: Whole)
    requires AllFinished(x) && |x.calls| == |x.s.threads|
    ensures AllDone(x.s)
    ensures forall t: nat | t < |x.s.threads| :: x.s.threads[t].pc.Done? && x.calls[t].aux.Core?
  {
    forall t: nat | t < |x.s.threads| ensures x.s.threads[t].pc.Done? && x.calls[t].aux.Core? { assert Finished(x, t); }
  }

  lemma ReadyCore(x: Whole, chain: seq<nat>)
    requires AllReady(x, chain)
    ensures Ready(x.s, chain)
  {
    hide Ready;
  }
}
