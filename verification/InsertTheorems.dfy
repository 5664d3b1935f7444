/**
 The insert protocol over whole runs.
 */
module InsertTheorems {
  import opened InsertProtocol
  import opened InsertInvariant
  import opened InsertSteps
  import opened InsertRuns
  import opened InsertFirsts

  /**
   Safety of every interleaving, at every moment: appended blocks stay linked, edges that were
   there stay, no destination is in two slots, nothing is stored that was not asked for, and the
   destination of every call that has returned is in exactly one slot.  A slot that no call holds has
   the first stamp it had before the calls, or that of the call to its neighbor that returned 1.
   The calls abort exactly when the pool's blocks run out.
   */
  lemma EveryInterleaving(s0: State, chain0: seq<nat>, schedule: seq<nat>) returns (chain: seq<nat>)
    requires Ready(s0, chain0)
    ensures var s := Run(s0, schedule);
      && chain0 <= chain && ChainUpToLocks(s.m, chain) && NoDuplicates(s.m, chain)
      && (forall p | p in FilledSlots(s0.m, chain0) ::
            Filled(s.m, p.0, p.1) && At(s.m, p.0, p.1).neighbor == At(s0.m, p.0, p.1).neighbor)
      && (forall p | p in FilledSlots(s.m, chain) && Kind(s.m, p.0) ::
            p in FilledSlots(s0.m, chain0) ||
            exists t :: 0 <= t < |s0.threads| && s0.threads[t].to == At(s.m, p.0, p.1).neighbor)
      && (forall t: nat | t < |s.threads| && s.threads[t].pc.Done? && s.threads[t].to != s.m.from ::
            s.threads[t].result in {0, 1} && HeldOnce(s.m, chain, s.threads[t].to))
      && (forall p | p in FilledSlots(s0.m, chain0) ::
            At(s.m, p.0, p.1).timeFirst == MARKER || At(s.m, p.0, p.1).timeFirst == At(s0.m, p.0, p.1).timeFirst)
      && (forall p | p in FilledSlots(s.m, chain) && p !in FilledSlots(s0.m, chain0) ::
            At(s.m, p.0, p.1).timeFirst == MARKER || StampedBy(s.m, s0.threads, s.threads, p))
      && ((s0.m.aborted <==> s0.m.tail >= EBPOOL_SIZE) ==> (s.m.aborted <==> s.m.tail >= EBPOOL_SIZE))
  {
    if s0.m.aborted <==> s0.m.tail >= EBPOOL_SIZE { RunTail(s0, schedule); }
    var a0 := Start(s0, chain0);
    StartInv(s0, chain0);
    StartFirsts(s0, chain0);
    var a := RunFirsts(s0, a0, s0.m, s0.threads, schedule);
    var s := Run(s0, schedule);
    chain := a.chain;
    FirstsEverywhere(s0, chain0, s, a);
    InvUnique(s, a);
    forall t: nat | t < |s.threads| && s.threads[t].pc.Done? && s.threads[t].to != s.m.from
      ensures s.threads[t].result in {0, 1} && HeldOnce(s.m, chain, s.threads[t].to)
    {
      InvHeld(s, a, t);
    }
    assert ClaimInv(s.m, a, s.threads) && ClaimInit(s.m, a) && UniqueInv(s.m, a);
    hide Inv, Run, HeldOnce, NoDuplicates, ChainUpToLocks, Filled, Kind, At, Ready, FirstsOk, StampedBy;
    forall p | p in FilledSlots(s.m, chain) && Kind(s.m, p.0) && p !in FilledSlots(s0.m, chain0)
      ensures exists t :: 0 <= t < |s0.threads| && s0.threads[t].to == At(s.m, p.0, p.1).neighbor
    {
      assert p == (p.0, p.1) && p in a.claimed && p !in a.initial;
      assert At(s.m, p.0, p.1).neighbor in a0.calls;
    }
  }

  lemma FirstsEverywhere(s0: State, chain0: seq<nat>, s: State, a: History)
    requires Inv(s, a) && FirstsOk(s, a, s0.m) && SameCalls(s0.threads, s.threads) && a.initial == Start(s0, chain0).initial
    ensures forall p | p in FilledSlots(s0.m, chain0) ::
              At(s.m, p.0, p.1).timeFirst == MARKER || At(s.m, p.0, p.1).timeFirst == At(s0.m, p.0, p.1).timeFirst
    ensures forall p | p in FilledSlots(s.m, a.chain) && p !in FilledSlots(s0.m, chain0) ::
              At(s.m, p.0, p.1).timeFirst == MARKER || StampedBy(s.m, s0.threads, s.threads, p)
  {
    hide *;
    StartInitial(s0, chain0);
    InitialClaimed(s, a);
    FilledAreClaimed(s, a);
    forall p | p in a.claimed
      ensures At(s.m, p.0, p.1).timeFirst == MARKER
           || if p in a.initial then At(s.m, p.0, p.1).timeFirst == At(s0.m, p.0, p.1).timeFirst else StampedBy(s.m, s0.threads, s.threads, p)
    {
      AnyFirst(s, a, s0.m, s0.threads, p);
    }
    assert forall p :: p in a.initial <==> p in FilledSlots(s0.m, chain0);
  }

  // With no slot held.
  lemma FirstsAtRest(s0: State, chain0: seq<nat>, s: State, a: History)
    requires Inv(s, a) && FirstsOk(s, a, s0.m) && SameCalls(s0.threads, s.threads) && a.initial == Start(s0, chain0).initial && a.slotOwner == map[]
    ensures forall p | p in FilledSlots(s0.m, chain0) :: At(s.m, p.0, p.1).timeFirst == At(s0.m, p.0, p.1).timeFirst
    ensures forall p | p in FilledSlots(s.m, a.chain) && p !in FilledSlots(s0.m, chain0) :: StampedBy(s.m, s0.threads, s.threads, p)
  {
    hide *;
    StartInitial(s0, chain0);
    InitialClaimed(s, a);
    FilledAreClaimed(s, a);
    forall p | p in a.claimed
      ensures if p in a.initial then At(s.m, p.0, p.1).timeFirst == At(s0.m, p.0, p.1).timeFirst else StampedBy(s.m, s0.threads, s.threads, p)
    {
      Unheld(s, a, s0.m, s0.threads, p);
    }
    assert forall p :: p in a.initial <==> p in FilledSlots(s0.m, chain0);
  }

  /**
   Once all calls have returned, no lock is held, the chain is complete, every appended block has
   been entered in the edge type array once and in order, and the out-degree is the number of
   filled slots; it has grown by one for each call that returned 1.  Every edge that was there has its
   first stamp still, and every new one that of the call to it that returned 1.
   */
  lemma EveryCompletion(s0: State, chain0: seq<nat>, schedule: seq<nat>) returns (chain: seq<nat>)
    requires Ready(s0, chain0) && AllDone(Run(s0, schedule))
    ensures var s := Run(s0, schedule);
      && chain0 <= chain && ChainOf(s.m, chain) && NoDuplicates(s.m, chain)
      && (forall b, k: nat | b in chain && k < BLOCK_SIZE && Kind(s.m, b) :: At(s.m, b, k).timeFirst != MARKER)
      && s.m.eta == s0.m.eta + chain[|chain0|..]
      && s.m.outdeg == |FilledSlots(s.m, chain)| == s0.m.outdeg + Insertions(s.threads)
      && (forall p | p in FilledSlots(s0.m, chain0) :: At(s.m, p.0, p.1).timeFirst == At(s0.m, p.0, p.1).timeFirst)
      && (forall p | p in FilledSlots(s.m, chain) && p !in FilledSlots(s0.m, chain0) :: StampedBy(s.m, s0.threads, s.threads, p))
  {
    hide *;
    StartInv(s0, chain0);
    StartFirsts(s0, chain0);
    var a := RunFirsts(s0, Start(s0, chain0), s0.m, s0.threads, schedule);
    var s := Run(s0, schedule);
    chain := a.chain;
    InvUnique(s, a);
    InvParts(s, a);
    SharedParts(s.m, a, s.threads);
    DoneQuiet(s, a);
    DoneThreads(s);
    DoneCounts(s.threads);
    DoneFacts(s.m, a, s.threads);
    assert Start(s0, chain0).chain0 == |chain0| && Start(s0, chain0).eta0 == s0.m.eta && Start(s0, chain0).outdeg0 == s0.m.outdeg
      && Start(s0, chain0).chain == chain0 by { StartFields(s0, chain0); }
    FollowsFields(Start(s0, chain0), a);
    FirstsAtRest(s0, chain0, s, a);
  }

  /**
   Slot and pointer locks alone never stop the calls: while some call has not returned, some thread
   can move.  The locks on the stamp words are not in this memory; with them the calls can stop for
   ever, and StampTheorems says when.
   */
  lemma SlotsAndPointersMove(s0: State, chain0: seq<nat>, schedule: seq<nat>)
    requires Ready(s0, chain0) && !Run(s0, schedule).m.aborted && !AllDone(Run(s0, schedule))
    ensures exists t :: Enabled(Run(s0, schedule), t)
  {
    StartInv(s0, chain0);
    var a := RunKeeps(s0, Start(s0, chain0), schedule);
    var s := Run(s0, schedule);
    var t: nat :| t < |s.threads| && !s.threads[t].pc.Done?;
    hide Run, Inv;
    var u := Awake(s, a, t);
    assert Enabled(s, u);
  }
}
