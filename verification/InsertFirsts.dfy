/**
 First stamps under every interleaving: a slot keeps the one that its edge came with, whoever locks it.
 */
module InsertFirsts {
  import opened InsertProtocol
  import opened InsertInvariant
  import opened InsertSteps
  import opened InsertRuns
  import opened InsertMoves

  // The first stamp of a slot or, while a call holds it, the one that it will have afterwards.
  ghost function FirstOf(m: Mem, a: History, threads: seq<Thread>, p: (nat, nat)): int {
    if p in a.slotOwner && a.slotOwner[p] < |threads| then
      var th := threads[a.slotOwner[p]];
      if InFlight(th) then th.ts else th.timefirst
    else At(m, p.0, p.1).timeFirst
  }

  // Call t has claimed slot p: it is still at it, or has returned 1.
  predicate Claimant(m: Mem, threads: seq<Thread>, p: (nat, nat), t: nat) {
    && t < |threads| && threads[t].to == At(m, p.0, p.1).neighbor
    && ((InFlight(threads[t]) && threads[t].tmp == p.0 && threads[t].k == p.1) || (threads[t].pc.Done? && threads[t].result == 1))
  }

  // A slot filled before the calls has the stamp it had then, one filled since that of the call that claimed it.
  ghost predicate FirstOk(s: State, a: History, m0: Mem, p: (nat, nat)) {
    if p in a.initial then FirstOf(s.m, a, s.threads, p) == At(m0, p.0, p.1).timeFirst
    else exists t: nat :: Claimant(s.m, s.threads, p, t) && FirstOf(s.m, a, s.threads, p) == s.threads[t].ts
  }

  // The call has filled its new block.
  predicate Linking(th: Thread) { th.pc.SetNext? || th.pc.Register? || th.pc.Link? }

  ghost predicate LinkOk(m: Mem, th: Thread) {
    Linking(th) ==> At(m, th.tmp, 0).timeFirst == th.ts
  }

  ghost predicate FirstsOk(s: State, a: History, m0: Mem) {
    && (forall p | p in a.claimed :: FirstOk(s, a, m0, p))
    && (forall t: nat | t < |s.threads| :: LinkOk(s.m, s.threads[t]))
  }

  // ---------------------------------------------------------------- what a step does to first stamps

  predicate Stamps(th: Thread) { th.pc.P2Lock? || th.pc.P2Unlock? || th.pc.Restore? || th.pc.Unlock? }

  // The first stamps of a step's memory.
  lemma ActTime(m: Mem, th: Thread, b: nat, k: nat)
    requires b in m.blocks && b < m.tail
    ensures At(Act(m, th).0, b, k).timeFirst == At(m, b, k).timeFirst || (Stamps(th) && b == th.tmp && k == th.k)
  {
    hide Begin, Scan1, Scan2, NextSlot, Return, Kind, Word, At, Blk, SetWord, SetSlot, SetHigh;
    WordNeighbor(m, th.ptr, MARKER, b, k);
    match th.pc {
      case P2Lock => SlotNeighbor(m, th.tmp, th.k, At(m, th.tmp, th.k).(timeFirst := MARKER), b, k);
      case P2Unlock | Restore => SlotNeighbor(m, th.tmp, th.k, At(m, th.tmp, th.k).(timeFirst := th.timefirst), b, k);
      case Unlock => SlotNeighbor(m, th.tmp, th.k, At(m, th.tmp, th.k).(timeFirst := th.ts), b, k);
      case WriteNb => SlotNeighbor(m, th.tmp, th.k, At(m, th.tmp, th.k).(neighbor := th.to), b, k);
      case P3Release => WordNeighbor(m, th.ptr, th.held, b, k);
      case SetNext => WordNeighbor(m, NextOf(th.tmp), 0, b, k);
      case Link => WordNeighbor(m, th.ptr, th.tmp, b, k);
      case HighWrite => HighNeighbor(m, th.tmp, th.k + 1, b, k);
      case Alloc => NewNeighbor(m, m.tail, FreshBlock(m.etype), b, k);
      case P3Lock =>
      case _ => SameBlocks(m, Act(m, th).0, b, k);
    }
  }

  // What the step writes, and what the call goes on with.
  lemma ActStamps(m: Mem, th: Thread)
    requires Stamps(th) && th.k < |Blk(m, th.tmp).slots|
    ensures th.pc.P2Lock? ==> Act(m, th).1.timefirst == At(m, th.tmp, th.k).timeFirst
    ensures th.pc.P2Unlock? || th.pc.Restore? ==> At(Act(m, th).0, th.tmp, th.k).timeFirst == th.timefirst
    ensures th.pc.Unlock? ==> At(Act(m, th).0, th.tmp, th.k).timeFirst == th.ts
  {
  }

  // The call's own part of a step.
  lemma ActFields(m: Mem, th: Thread)
    ensures var th' := Act(m, th).1; th'.to == th.to && th'.ts == th.ts && (th.pc.P2Lock? || th'.timefirst == th.timefirst)
  {
    hide Word, At, Kind, Blk, SetWord, SetSlot, SetHigh;
  }

  lemma ActFlight(m: Mem, th: Thread)
    ensures var th' := Act(m, th).1;
      && (HoldsSlot(th) && !th.pc.P2Unlock? && !th.pc.Restore? && !(th.pc.Unlock? && th.mode.FreshSlot?) && !(th.pc.WriteNb? && th.mode.FreshSlot?) ==>
            InFlight(th') == InFlight(th))
      && (InFlight(th) ==> (InFlight(th') && th'.tmp == th.tmp && th'.k == th.k) || (th.pc.Unlock? && th'.pc.Done? && th'.result == 1))
  {
    hide Word, At, Kind, Blk, SetWord, SetSlot, SetHigh;
  }

  lemma ActPlaces(m: Mem, th: Thread)
    ensures var th' := Act(m, th).1;
      && (th.pc.P2Lock? ==> !InFlight(th'))
      && (th.pc.WriteNb? && th.mode.FreshSlot? ==> InFlight(th') && th'.tmp == th.tmp && th'.k == th.k)
      && (th.pc.Link? ==> th'.pc.Done? && th'.result == 1)
  {
    hide Word, At, Kind, Blk, SetWord, SetSlot, SetHigh;
  }

  lemma ActLinking(m: Mem, th: Thread)
    ensures var th' := Act(m, th).1;
      Linking(th') ==> th'.tmp == th.tmp && th'.k == th.k && (Linking(th) || (th.mode.NewBlock? && (th.pc.Unlock? || th.pc.Existing?)))
  {
    hide Word, At, Kind, Blk, SetWord, SetSlot, SetHigh;
  }

  lemma ActThread(m: Mem, th: Thread)
    ensures var th' := Act(m, th).1;
      && th'.to == th.to && th'.ts == th.ts && (th.pc.P2Lock? || th'.timefirst == th.timefirst)
      && (HoldsSlot(th) && !th.pc.P2Unlock? && !th.pc.Restore? && !(th.pc.Unlock? && th.mode.FreshSlot?) && !(th.pc.WriteNb? && th.mode.FreshSlot?) ==>
            InFlight(th') == InFlight(th))
      && (InFlight(th) ==> (InFlight(th') && th'.tmp == th.tmp && th'.k == th.k) || (th.pc.Unlock? && th'.pc.Done? && th'.result == 1))
      && (th.pc.P2Lock? ==> !InFlight(th'))
      && (th.pc.WriteNb? && th.mode.FreshSlot? ==> InFlight(th') && th'.tmp == th.tmp && th'.k == th.k)
      && (Linking(th') ==> th'.tmp == th.tmp && th'.k == th.k && (Linking(th) || (th.mode.NewBlock? && (th.pc.Unlock? || th.pc.Existing?))))
      && (th.pc.Link? ==> th'.pc.Done? && th'.result == 1)
  {
    hide *;
    ActFields(m, th);
    ActFlight(m, th);
    ActPlaces(m, th);
    ActLinking(m, th);
  }

  // ---------------------------------------------------------------- locks

  // Where the call that steps stands to the locks on slots.
  lemma SlotLocks(s: State, a: History, t: nat)
    requires Inv(s, a) && Enabled(s, t) && t < |s.threads|
    ensures var th := s.threads[t];
      && (HoldsSlot(th) ==> (th.tmp, th.k) in a.slotOwner && a.slotOwner[(th.tmp, th.k)] == t)
      && (th.pc.P2Lock? ==> (th.tmp, th.k) !in a.slotOwner)
      && (Stamps(th) ==> th.k < |Blk(s.m, th.tmp).slots| && (HoldsSlot(th) || th.pc.P2Lock? || th.tmp !in a.chain))
      && (Linking(th) || (th.pc.Unlock? && th.mode.NewBlock?) ==> th.k == 0)
  {
    hide *;
    var th := s.threads[t];
    InvThread(s, a, t);
    InvPool(s, a);
    HeldSlot(s.m, a, t, th);
    NewSlot(s.m, a, t, th);
    ModeHere(s, a, t);
    HoldsIs(th);
    if th.pc.P2Lock? {
      FreeSlot(s, a, t);
      LockParts(s, a, t);
      LockFree(s.m, a, s.threads, th);
    }
  }

  lemma HoldsIs(th: Thread)
    ensures th.pc.P2Unlock? || th.pc.Restore? || (th.pc.Unlock? && th.mode.FreshSlot?) ==> HoldsSlot(th)
    ensures Stamps(th) <==> th.pc.P2Lock? || th.pc.P2Unlock? || th.pc.Restore? || th.pc.Unlock?
    ensures Linking(th) <==> th.pc.SetNext? || th.pc.Register? || th.pc.Link?
  {
  }

  lemma HeldSlot(m: Mem, a: History, t: nat, th: Thread)
    requires ThreadInv(m, a, t, th) && PoolInv(m, a)
    ensures HoldsSlot(th) ==> (th.tmp, th.k) in a.slotOwner && a.slotOwner[(th.tmp, th.k)] == t && th.k < |Blk(m, th.tmp).slots|
  {
    hide HoldsSlot, UpdateInv, LookInv, FindInv, AppendInv, LocInv, Kind;
  }

  lemma NewSlot(m: Mem, a: History, t: nat, th: Thread)
    requires ThreadInv(m, a, t, th) && PoolInv(m, a)
    ensures Linking(th) || (th.pc.Unlock? && th.mode.NewBlock?) ==> th.k == 0 && th.k < |Blk(m, th.tmp).slots| && th.tmp !in a.chain
  {
    hide HoldsSlot, LookInv, FindInv, LocInv, Kind, AtEnd, LockedBy, AtSlot;
  }

  // The slot that a call locks.
  lemma FreeSlot(s: State, a: History, t: nat)
    requires Inv(s, a) && Enabled(s, t) && t < |s.threads| && s.threads[t].pc.P2Lock?
    ensures var th := s.threads[t];
      && th.tmp in a.chain && Kind(s.m, th.tmp) && th.k < BLOCK_SIZE && th.k < |Blk(s.m, th.tmp).slots| && At(s.m, th.tmp, th.k).timeFirst != MARKER
  {
    InvThread(s, a, t);
    InvPool(s, a);
    hide Inv, LockedBy, LocInv, UpdateInv, LookInv, AppendInv, Clean, Scanned, Full, Kind, At;
  }

  lemma OwnerFacts(s: State, a: History, p: (nat, nat))
    requires Inv(s, a) && p in a.slotOwner
    ensures a.slotOwner[p] < |s.threads| && HoldsSlot(s.threads[a.slotOwner[p]])
    ensures s.threads[a.slotOwner[p]].tmp == p.0 && s.threads[a.slotOwner[p]].k == p.1
  {
    assert LockInv(s.m, a, s.threads);
    hide Inv, HoldsSlot;
  }

  lemma RecordOwner(s: State, a: History, t: nat)
    requires Enabled(s, t) && t < |s.threads|
    ensures var th := s.threads[t];
      Record(s, a, t).slotOwner ==
        if th.pc.P2Lock? then a.slotOwner[(th.tmp, th.k) := t]
        else if th.pc.P2Unlock? || th.pc.Restore? || (th.pc.Unlock? && th.mode.FreshSlot?) then a.slotOwner - {(th.tmp, th.k)}
        else a.slotOwner
    ensures Record(s, a, t).initial == a.initial
  {
    hide Enabled;
  }

  // ---------------------------------------------------------------- one step

  lemma FirstIs(m: Mem, a: History, threads: seq<Thread>, p: (nat, nat))
    ensures FirstOf(m, a, threads, p) ==
      if p in a.slotOwner && a.slotOwner[p] < |threads|
      then (if InFlight(threads[a.slotOwner[p]]) then threads[a.slotOwner[p]].ts else threads[a.slotOwner[p]].timefirst)
      else At(m, p.0, p.1).timeFirst
  {
  }

  /** A step leaves every claimed slot its first stamp. */
  lemma FirstKept(s: State, a: History, t: nat, p: (nat, nat))
    requires Inv(s, a) && Enabled(s, t) && t < |s.threads| && p in a.claimed
    ensures FirstOf(Step(s, t).m, Record(s, a, t), Step(s, t).threads, p) == FirstOf(s.m, a, s.threads, p)
  {
    hide *;
    var th, s', a' := s.threads[t], Step(s, t), Record(s, a, t);
    StepIs(s, t);
    SlotLocks(s, a, t);
    RecordOwner(s, a, t);
    ActThread(s.m, th);
    HoldsIs(th);
    ClaimFacts(s, a, t);
    ChainInPool(s, a);
    ActTime(s.m, th, p.0, p.1);
    if Stamps(th) { ActStamps(s.m, th); }
    FirstIs(s.m, a, s.threads, p);
    FirstIs(s'.m, a', s'.threads, p);
    if p in a.slotOwner { OwnerFacts(s, a, p); }
    ModeHere(s, a, t);
    FlightIs(th);
  }

  lemma FlightIs(th: Thread)
    ensures InFlight(th) <==> th.mode.FreshSlot? && (th.pc.OutDeg? || th.pc.HighTest? || th.pc.HighWrite? || th.pc.Unlock?)
  {
  }

  lemma ClaimantIs(m: Mem, threads: seq<Thread>, p: (nat, nat), t: nat)
    ensures Claimant(m, threads, p, t) <==>
      && t < |threads| && threads[t].to == At(m, p.0, p.1).neighbor
      && ((InFlight(threads[t]) && threads[t].tmp == p.0 && threads[t].k == p.1) || (threads[t].pc.Done? && threads[t].result == 1))
  {
    hide InFlight, At;
  }

  // Who has claimed a slot stays the one who has.
  lemma ClaimantKept(s: State, a: History, t: nat, p: (nat, nat), u: nat)
    requires Inv(s, a) && Enabled(s, t) && t < |s.threads| && p in a.claimed && Claimant(s.m, s.threads, p, u)
    ensures u < |s.threads| == |Step(s, t).threads| && Claimant(Step(s, t).m, Step(s, t).threads, p, u) && Step(s, t).threads[u].ts == s.threads[u].ts
  {
    hide *;
    StepIs(s, t);
    ClaimKept(s, a, t, p);
    ActThread(s.m, s.threads[t]);
    EnabledPc(s, t);
    ClaimantIs(s.m, s.threads, p, u);
    ClaimantIs(Step(s, t).m, Step(s, t).threads, p, u);
  }

  lemma ClaimantsThere(m: Mem, threads: seq<Thread>, p: (nat, nat))
    ensures forall u: nat | Claimant(m, threads, p, u) :: u < |threads|
  {
    hide At;
  }

  lemma EnabledPc(s: State, t: nat)
    requires Enabled(s, t)
    ensures t < |s.threads| && !s.threads[t].pc.Done?
  {
  }

  lemma FirstOkKept(s: State, a: History, t: nat, m0: Mem, p: (nat, nat))
    requires Inv(s, a) && Enabled(s, t) && t < |s.threads| && p in a.claimed && FirstOk(s, a, m0, p)
    ensures FirstOk(Step(s, t), Record(s, a, t), m0, p)
  {
    hide Inv, Enabled, Step, Record, FirstOf, Claimant, At;
    FirstKept(s, a, t, p);
    RecordOwner(s, a, t);
    if p !in a.initial {
      ClaimantsThere(s.m, s.threads, p);
      var u: nat :| u < |s.threads| && Claimant(s.m, s.threads, p, u) && FirstOf(s.m, a, s.threads, p) == s.threads[u].ts;
      ClaimantKept(s, a, t, p, u);
    }
  }

  // A slot just claimed gets the stamp of the call that has claimed it.
  lemma FirstClaimed(s: State, a: History, t: nat, m0: Mem, p: (nat, nat))
    requires Inv(s, a) && Enabled(s, t) && t < |s.threads| && NewlyClaims(s.threads[t]) && LinkOk(s.m, s.threads[t])
    requires Record(s, a, t).claimed == a.claimed + {p} && p !in a.claimed && At(Step(s, t).m, p.0, p.1).neighbor == s.threads[t].to
    ensures FirstOk(Step(s, t), Record(s, a, t), m0, p)
  {
    hide *;
    var th, s', a' := s.threads[t], Step(s, t), Record(s, a, t);
    NewlyClaimsIs(th);
    HoldsIs(th);
    StepIs(s, t);
    SlotLocks(s, a, t);
    RecordOwner(s, a, t);
    RecordClaims(s, a, t);
    ActThread(s.m, th);
    BlocksBelow(s, a);
    BlockInHand(s, a, t);
    OwnsIs(th);
    UpdatingIs(th.pc);
    InitialClaimed(s, a);
    HoldsWrite(th);
    assert p == (th.tmp, if th.pc.Link? then 0 else th.k);
    FirstIs(s'.m, a', s'.threads, p);
    ClaimantIs(s'.m, s'.threads, p, t);
    if th.pc.Link? {
      ActTime(s.m, th, th.tmp, 0);
      LinkIs(s.m, th);
      if p in a.slotOwner { OwnerInChain(s, a, p); }
    }
    FirstOkIntro(s', a', m0, p, t);
  }

  lemma HoldsWrite(th: Thread)
    ensures th.pc.WriteNb? && th.mode.FreshSlot? ==> HoldsSlot(th)
  {
  }

  lemma LinkIs(m: Mem, th: Thread)
    requires LinkOk(m, th)
    ensures th.pc.Link? ==> At(m, th.tmp, 0).timeFirst == th.ts
  {
    hide At;
  }

  lemma FirstOkIntro(s: State, a: History, m0: Mem, p: (nat, nat), t: nat)
    requires p !in a.initial && t < |s.threads| && Claimant(s.m, s.threads, p, t) && FirstOf(s.m, a, s.threads, p) == s.threads[t].ts
    ensures FirstOk(s, a, m0, p)
  {
    hide Claimant, FirstOf;
  }

  lemma InitialClaimed(s: State, a: History)
    requires Inv(s, a)
    ensures forall p | p in a.initial :: p in a.claimed
  {
    assert ClaimInv(s.m, a, s.threads) && ClaimInit(s.m, a);
    hide Inv, Claiming;
    forall p | p in a.initial ensures p in a.claimed {
      assert p == (p.0, p.1);
      assert Filled(s.m, p.0, p.1);
    }
  }

  lemma OwnerInChain(s: State, a: History, p: (nat, nat))
    requires Inv(s, a) && p in a.slotOwner
    ensures p.0 in a.chain
  {
    OwnerFacts(s, a, p);
    var u := a.slotOwner[p];
    InvThread(s, a, u);
    hide Inv, UpdateInv, LookInv, FindInv, AppendInv, LocInv, HoldsSlot;
  }

  // A block that is not linked yet keeps the stamp of its first edge.
  lemma LinkOkKept(s: State, a: History, t: nat, u: nat)
    requires Inv(s, a) && Enabled(s, t) && t < |s.threads| && u < |s.threads| && LinkOk(s.m, s.threads[u])
    ensures u < |Step(s, t).threads| && LinkOk(Step(s, t).m, Step(s, t).threads[u])
  {
    hide *;
    StepIs(s, t);
    var th, m' := s.threads[u], Step(s, t).m;
    var th' := Step(s, t).threads[u];
    LinkOkIs(s.m, th);
    LinkOkIs(m', th');
    HoldsIs(th);
    HoldsIs(s.threads[t]);
    BlocksBelow(s, a);
    BlockInHand(s, a, u);
    BlockInHand(s, a, t);
    OwnsIs(th);
    OwnsIs(s.threads[t]);
    UpdatingIs(th.pc);
    SlotLocks(s, a, t);
    ActThread(s.m, s.threads[t]);
    ModeHere(s, a, u);
    if Linking(th') && th.tmp in s.m.blocks { ActTime(s.m, s.threads[t], th.tmp, 0); }
    if u == t {
      if Stamps(th) { ActStamps(s.m, th); }
    } else if Linking(th) {
      if Stamps(s.threads[t]) && s.threads[t].tmp == th.tmp { StampApart(s, a, t, u); }
    }
  }

  lemma LinkOkIs(m: Mem, th: Thread)
    ensures LinkOk(m, th) <==> (Linking(th) ==> At(m, th.tmp, 0).timeFirst == th.ts)
  {
    hide At, Linking;
  }

  // Nobody else stamps a slot of a block that is not linked yet.
  lemma StampApart(s: State, a: History, t: nat, u: nat)
    requires Inv(s, a) && t < |s.threads| && u < |s.threads| && t != u && Stamps(s.threads[t]) && Linking(s.threads[u])
    requires Enabled(s, t)
    ensures s.threads[t].tmp != s.threads[u].tmp
  {
    hide *;
    var th := s.threads[t];
    HoldsIs(th);
    HoldsIs(s.threads[u]);
    BlockInHand(s, a, t);
    BlockInHand(s, a, u);
    OwnsIs(th);
    OwnsIs(s.threads[u]);
    UpdatingIs(th.pc);
    ModeHere(s, a, t);
    if OwnsBlock(th) {
      Appending(s, a, t, u);
    } else if th.pc.P2Lock? {
      FreeSlot(s, a, t);
    } else {
      SlotLocks(s, a, t);
      if (th.tmp, th.k) in a.slotOwner { OwnerInChain(s, a, (th.tmp, th.k)); }
    }
  }

  /** Every step keeps every first stamp, and gives a slot just claimed that of the call that has claimed it. */
  lemma StepFirsts(s: State, a: History, t: nat, m0: Mem)
    requires Inv(s, a) && FirstsOk(s, a, m0)
    ensures FirstsOk(Step(s, t), Record(s, a, t), m0)
  {
    hide Inv, FirstOk, LinkOk, NewlyClaims, At;
    if Enabled(s, t) {
      EnabledThread(s, t);
      var s', a', th := Step(s, t), Record(s, a, t), s.threads[t];
      StepIs(s, t);
      hide Step, Record, Enabled, Act;
      RecordClaims(s, a, t);
      NewlyClaimsIs(th);
      forall p | p in a.claimed ensures FirstOk(s', a', m0, p) { FirstOkKept(s, a, t, m0, p); }
      if NewlyClaims(th) {
        var p := NewClaim(s, a, t);
        FirstClaimed(s, a, t, m0, p);
      }
      forall u: nat | u < |s'.threads| ensures LinkOk(s'.m, s'.threads[u]) { LinkOkKept(s, a, t, u); }
    }
  }

  // ---------------------------------------------------------------- whole runs

  // The calls are those that were started.
  predicate SameCalls(threads0: seq<Thread>, threads: seq<Thread>) {
    |threads| == |threads0| && forall t: nat | t < |threads| :: threads[t].to == threads0[t].to && threads[t].ts == threads0[t].ts
  }

  lemma StepCalls(s: State, t: nat, threads0: seq<Thread>)
    requires SameCalls(threads0, s.threads)
    ensures SameCalls(threads0, Step(s, t).threads)
  {
    if Enabled(s, t) {
      EnabledThread(s, t);
      StepIs(s, t);
      ActFields(s.m, s.threads[t]);
    }
    hide Act, Enabled;
  }

  lemma StartFirsts(s: State, chain: seq<nat>)
    requires Ready(s, chain)
    ensures FirstsOk(s, Start(s, chain), s.m) && SameCalls(s.threads, s.threads)
  {
    hide ChainOf, NoDuplicates, FilledSlots, Kind, At, InFlight;
  }

  lemma {:induction false} RunFirsts(s: State, a: History, m0: Mem, threads0: seq<Thread>, schedule: seq<nat>) returns (a': History)
    requires Inv(s, a) && FirstsOk(s, a, m0) && SameCalls(threads0, s.threads)
    ensures Inv(Run(s, schedule), a') && Follows(a, a') && FirstsOk(Run(s, schedule), a', m0) && SameCalls(threads0, Run(s, schedule).threads)
    decreases |schedule|
  {
    hide Inv, Step, Record, FirstsOk, SameCalls;
    if schedule == [] {
      a' := a;
    } else {
      StepKeeps(s, a, schedule[0]);
      StepFirsts(s, a, schedule[0], m0);
      StepCalls(s, schedule[0], threads0);
      RecordFollows(s, a, schedule[0]);
      a' := RunFirsts(Step(s, schedule[0]), Record(s, a, schedule[0]), m0, threads0, schedule[1..]);
    }
  }

  // ---------------------------------------------------------------- what a reader of the slots finds

  // Some call to the slot's neighbor that has returned 1 came with this stamp.
  ghost predicate StampedBy(m: Mem, threads0: seq<Thread>, threads: seq<Thread>, p: (nat, nat)) {
    exists t: nat :: StampedAs(m, threads0, threads, p, t)
  }

  predicate StampedAs(m: Mem, threads0: seq<Thread>, threads: seq<Thread>, p: (nat, nat), t: nat) {
    && t < |threads0| && t < |threads| && threads[t].pc.Done? && threads[t].result == 1
    && threads0[t].to == At(m, p.0, p.1).neighbor && threads0[t].ts == At(m, p.0, p.1).timeFirst
  }

  // A slot that no call holds.
  lemma Unheld(s: State, a: History, m0: Mem, threads0: seq<Thread>, p: (nat, nat))
    requires Inv(s, a) && FirstsOk(s, a, m0) && SameCalls(threads0, s.threads) && p in a.claimed && p !in a.slotOwner
    ensures if p in a.initial then At(s.m, p.0, p.1).timeFirst == At(m0, p.0, p.1).timeFirst else StampedBy(s.m, threads0, s.threads, p)
  {
    hide *;
    FirstsAt(s, a, m0, p);
    FirstIs(s.m, a, s.threads, p);
    if p !in a.initial {
      var t := FirstBy(s, a, m0, p);
      ClaimantIs(s.m, s.threads, p, t);
      if t < |s.threads| && InFlight(s.threads[t]) {
        InvThread(s, a, t);
        InvPool(s, a);
        HeldSlot(s.m, a, t, s.threads[t]);
        FlightHolds(s.threads[t]);
        assert p == (p.0, p.1);
      }
      StampedIntro(s.m, threads0, s.threads, p, t);
    }
  }

  lemma FlightHolds(th: Thread)
    ensures InFlight(th) ==> HoldsSlot(th)
  {
  }

  lemma FirstsAt(s: State, a: History, m0: Mem, p: (nat, nat))
    requires FirstsOk(s, a, m0) && p in a.claimed
    ensures FirstOk(s, a, m0, p) && (p in a.initial ==> FirstOf(s.m, a, s.threads, p) == At(m0, p.0, p.1).timeFirst)
  {
    hide FirstOf, At, Claimant, LinkOk;
  }

  lemma FirstBy(s: State, a: History, m0: Mem, p: (nat, nat)) returns (t: nat)
    requires FirstOk(s, a, m0, p) && p !in a.initial
    ensures t < |s.threads| && Claimant(s.m, s.threads, p, t) && FirstOf(s.m, a, s.threads, p) == s.threads[t].ts
  {
    hide FirstOf, At, Claimant;
    ClaimantsThere(s.m, s.threads, p);
    t :| t < |s.threads| && Claimant(s.m, s.threads, p, t) && FirstOf(s.m, a, s.threads, p) == s.threads[t].ts;
  }

  lemma StampedIntro(m: Mem, threads0: seq<Thread>, threads: seq<Thread>, p: (nat, nat), t: nat)
    requires SameCalls(threads0, threads) && t < |threads| && threads[t].pc.Done? && threads[t].result == 1
    requires threads[t].to == At(m, p.0, p.1).neighbor && threads[t].ts == At(m, p.0, p.1).timeFirst
    ensures StampedBy(m, threads0, threads, p)
  {
    hide At;
    assert StampedAs(m, threads0, threads, p, t);
  }

  // A held slot is marked.
  lemma HeldMarked(s: State, a: History, p: (nat, nat))
    requires Inv(s, a) && p in a.slotOwner
    ensures At(s.m, p.0, p.1).timeFirst == MARKER
  {
    hide *;
    OwnerFacts(s, a, p);
    var u := a.slotOwner[p];
    InvThread(s, a, u);
    HeldKind(s.m, a, u, s.threads[u]);
    assert p == (p.0, p.1);
    InvParts(s, a);
    SharedParts(s.m, a, s.threads);
    MarkedHere(s.m, a, s.threads, p.0, p.1);
  }

  lemma HeldKind(m: Mem, a: History, t: nat, th: Thread)
    requires ThreadInv(m, a, t, th) && HoldsSlot(th)
    ensures th.tmp in a.chain && Kind(m, th.tmp) && th.k < BLOCK_SIZE
  {
    hide HoldsSlot, UpdateInv, LookInv, FindInv, AppendInv, LocInv, Kind;
  }

  lemma MarkedHere(m: Mem, a: History, threads: seq<Thread>, b: nat, k: nat)
    requires LockInv(m, a, threads) && b in a.chain && k < BLOCK_SIZE && Kind(m, b) && (b, k) in a.slotOwner
    ensures At(m, b, k).timeFirst == MARKER
  {
    hide Kind, At, HoldsSlot;
  }

  // At every moment: locked, or as it came.
  lemma AnyFirst(s: State, a: History, m0: Mem, threads0: seq<Thread>, p: (nat, nat))
    requires Inv(s, a) && FirstsOk(s, a, m0) && SameCalls(threads0, s.threads) && p in a.claimed
    ensures At(s.m, p.0, p.1).timeFirst == MARKER
         || if p in a.initial then At(s.m, p.0, p.1).timeFirst == At(m0, p.0, p.1).timeFirst else StampedBy(s.m, threads0, s.threads, p)
  {
    hide *;
    if p in a.slotOwner { HeldMarked(s, a, p); } else { Unheld(s, a, m0, threads0, p); }
  }

  lemma StartInitial(s: State, chain: seq<nat>)
    ensures Start(s, chain).initial.Keys == FilledSlots(s.m, chain)
  {
    hide FilledSlots, At;
  }

  lemma FilledAreClaimed(s: State, a: History)
    requires Inv(s, a)
    ensures forall p | p in FilledSlots(s.m, a.chain) :: p in a.claimed
  {
    assert ClaimInv(s.m, a, s.threads);
    hide Inv, Filled, Claiming;
    forall p | p in FilledSlots(s.m, a.chain) ensures p in a.claimed { assert p == (p.0, p.1); }
  }
}
