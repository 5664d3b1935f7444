/**
 The invariant over whole runs of the insert protocol, and what it says at their start and end.
 */
module InsertRuns {
  import opened InsertProtocol
  import opened InsertInvariant
  import opened InsertSteps

  // ---------------------------------------------------------------- whole runs

  lemma StepKeeps(s: State, a: History, t: nat)
    requires Inv(s, a)
    ensures Inv(Step(s, t), Record(s, a, t))
  {
    if Enabled(s, t) {
      var th := s.threads[t];
      assert Updating(th.pc) ==> UpdateInv(s.m, a, th) by { assert ThreadInv(s.m, a, t, th); }
      assert th.pc.WriteNb? || th.pc.HighWrite? || th.pc.Unlock? ==> th.mode.FreshSlot? || th.mode.NewBlock?;
      hide *;
      StepCases(s, a, t);
    }
  }

  lemma StepCases(s: State, a: History, t: nat)
    requires Inv(s, a) && Enabled(s, t)
    requires var th := s.threads[t]; th.pc.WriteNb? || th.pc.HighWrite? || th.pc.Unlock? ==> th.mode.FreshSlot? || th.mode.NewBlock?
    ensures Inv(Step(s, t), Record(s, a, t))
  {
    hide Inv, Step, Record, Act, Blk, At, Kind, Word;
    match s.threads[t].pc {
      case P2Lock => LockStep(s, a, t);
      case P2Unlock | Restore => FreeStep(s, a, t);
      case Unlock => if s.threads[t].mode.FreshSlot? { FreeStep(s, a, t); } else { PrivateStep(s, a, t); }
      case WriteNb => if s.threads[t].mode.FreshSlot? { WriteStep(s, a, t); } else { PrivateStep(s, a, t); }
      case HighWrite => if s.threads[t].mode.FreshSlot? { RaiseStep(s, a, t); } else { PrivateStep(s, a, t); }
      case OutDeg => OutDegStep(s, a, t);
      case P3Lock => AcquireStep(s, a, t);
      case P3Release => ReleaseStep(s, a, t);
      case Alloc => AllocStep(s, a, t);
      case SetNext => PrivateStep(s, a, t);
      case Register => RegisterStep(s, a, t);
      case Link => LinkStep(s, a, t);
      case Done => assert false;
      case _ => ReadStep(s, a, t);
    }
  }

  function Start(s: State, chain: seq<nat>): History {
    var filled := FilledSlots(s.m, chain);
    History(chain, filled, map p | p in filled :: At(s.m, p.0, p.1).neighbor,
            set t | 0 <= t < |s.threads| :: s.threads[t].to,
            map[], map[], |chain|, s.m.eta, s.m.outdeg)
  }

  lemma StartCounts(threads: seq<Thread>)
    requires forall t: nat | t < |threads| :: threads[t].pc.BeginHead?
    ensures SumAhead(threads) == 0 && SumMade(threads) == 0
  {
    if threads != [] { StartCounts(threads[1..]); }
  }

  lemma StartLocks(s: State, chain: seq<nat>)
    requires Ready(s, chain)
    ensures var a := Start(s, chain); PoolInv(s.m, a) && PtrInv(s.m, a, s.threads) && LockInv(s.m, a, s.threads)
  {
    hide NoDuplicates, FilledSlots, At, Kind, Filled;
  }

  lemma StartClaims(s: State, chain: seq<nat>)
    requires Ready(s, chain)
    ensures var a := Start(s, chain);
      && ClaimInv(s.m, a, s.threads) && ClaimInit(s.m, a) && OrderInv(s.m, a) && UniqueInv(s.m, a) && CountInv(s.m, a, s.threads)
  {
    var a := Start(s, chain);
    StartCounts(s.threads);
    hide ChainOf, Kind, Filled, At, SumAhead, SumMade;
    assert forall b, k: nat :: !Claiming(a, s.threads, b, k);
    assert ClaimInv(s.m, a, s.threads);
    assert UniqueInv(s.m, a) by {
      forall p, q | p in a.claimed && q in a.claimed && Kind(s.m, p.0) && Kind(s.m, q.0) && p != q
        ensures At(s.m, p.0, p.1).neighbor != At(s.m, q.0, q.1).neighbor
      {
        assert (p.0, p.1) != (q.0, q.1);
      }
    }
    assert CountInv(s.m, a, s.threads) by { assert a.chain[a.chain0..] == []; }
  }

  lemma StartInv(s: State, chain: seq<nat>)
    requires Ready(s, chain)
    ensures Inv(s, Start(s, chain))
  {
    var a := Start(s, chain);
    StartLocks(s, chain);
    StartClaims(s, chain);
    forall t: nat | t < |s.threads| ensures ThreadInv(s.m, a, t, s.threads[t]) && s.threads[t].to in a.calls {
      assert s.threads[t].pc.BeginHead? && s.threads[t].to >= 0 && s.threads[t].ts != MARKER;
      hide Ready, PoolInv, PtrInv, LockInv, ClaimInv, ClaimInit, OrderInv, UniqueInv, CountInv, FilledSlots;
    }
    hide Ready, Start, ThreadInv, PoolInv, PtrInv, LockInv, ClaimInv, ClaimInit, OrderInv, UniqueInv, CountInv;
  }

  // The parts of the history that no step changes.
  predicate Follows(a: History, a': History) {
    && a.chain <= a'.chain && a'.initial == a.initial && a'.calls == a.calls
    && a'.chain0 == a.chain0 && a'.eta0 == a.eta0 && a'.outdeg0 == a.outdeg0
  }

  lemma RecordFollows(s: State, a: History, t: nat)
    ensures Follows(a, Record(s, a, t))
  {
    hide Enabled;
  }

  lemma {:induction false} RunKeeps(s: State, a: History, schedule: seq<nat>) returns (a': History)
    requires Inv(s, a)
    ensures Inv(Run(s, schedule), a') && Follows(a, a')
    decreases |schedule|
  {
    hide Inv, Step, Record;
    if schedule == [] {
      a' := a;
    } else {
      StepKeeps(s, a, schedule[0]);
      RecordFollows(s, a, schedule[0]);
      a' := RunKeeps(Step(s, schedule[0]), Record(s, a, schedule[0]), schedule[1..]);
    }
  }

  // Calls abort for want of blocks exactly.
  predicate TailOk(m: Mem) { m.aborted <==> m.tail >= EBPOOL_SIZE }

  lemma StepTail(s: State, t: nat)
    requires TailOk(s.m)
    ensures TailOk(Step(s, t).m)
  {
    hide Begin, Scan1, Scan2, NextSlot, Return, At, Blk, Kind, Word, Blocked;
  }

  lemma {:induction false} RunTail(s: State, schedule: seq<nat>)
    requires TailOk(s.m)
    ensures TailOk(Run(s, schedule).m)
    decreases |schedule|
  {
    if schedule != [] {
      StepTail(s, schedule[0]);
      RunTail(Step(s, schedule[0]), schedule[1..]);
    }
    hide Step, TailOk;
  }

  lemma InvUnique(s: State, a: History)
    requires Inv(s, a)
    ensures ChainUpToLocks(s.m, a.chain) && NoDuplicates(s.m, a.chain)
  {
    forall b: nat, k: nat | b in a.chain && Filled(s.m, b, k) ensures (b, k) in a.claimed {}
    hide ThreadInv, Kind, Filled, At, Word;
  }

  lemma SameSlot(m: Mem, chain: seq<nat>, b: nat, k: nat, c: nat, j: nat, to: int)
    requires NoDuplicates(m, chain) && b in chain && c in chain && Holds(m, b, k, to) && Holds(m, c, j, to)
    ensures (c, j) == (b, k)
  {
  }

  lemma InvHeld(s: State, a: History, t: nat)
    requires Inv(s, a) && t < |s.threads| && s.threads[t].pc.Done? && s.threads[t].to != s.m.from
    ensures s.threads[t].result in {0, 1} && HeldOnce(s.m, a.chain, s.threads[t].to)
  {
    InvUnique(s, a);
    var to := s.threads[t].to;
    assert ThreadInv(s.m, a, t, s.threads[t]);
    var b: nat, k: nat :| b in a.chain && Holds(s.m, b, k, to);
    forall c: nat, j: nat | c in a.chain && Holds(s.m, c, j, to) ensures (c, j) == (b, k) {
      SameSlot(s.m, a.chain, b, k, c, j, to);
    }
  }

  lemma DoneCounts(threads: seq<Thread>)
    requires forall t: nat | t < |threads| :: threads[t].pc.Done?
    ensures SumAhead(threads) == 0 && SumMade(threads) == Insertions(threads)
  {
    if threads != [] { DoneCounts(threads[1..]); }
  }

  lemma StartFields(s: State, chain: seq<nat>)
    ensures var a := Start(s, chain); a.chain0 == |chain| && a.eta0 == s.m.eta && a.outdeg0 == s.m.outdeg && a.chain == chain
  {
  }

  lemma FollowsFields(a: History, a': History)
    requires Follows(a, a')
    ensures a.chain <= a'.chain && a'.chain0 == a.chain0 && a'.eta0 == a.eta0 && a'.outdeg0 == a.outdeg0 && a'.initial == a.initial
  {
  }

  lemma DoneQuiet(s: State, a: History)
    requires Inv(s, a) && AllDone(s)
    ensures a.ptrOwner == map[] && a.slotOwner == map[]
  {
    hide ThreadInv, PoolInv, ClaimInv, ClaimInit, OrderInv, UniqueInv, CountInv;
    assert forall l :: l !in a.ptrOwner;
    assert forall p :: p !in a.slotOwner;
  }

  lemma DoneFacts(m: Mem, a: History, threads: seq<Thread>)
    requires PtrInv(m, a, threads) && LockInv(m, a, threads) && ClaimInv(m, a, threads) && CountInv(m, a, threads)
    requires ChainUpToLocks(m, a.chain) && a.ptrOwner == map[] && a.slotOwner == map[] && SumAhead(threads) == 0
    ensures ChainOf(m, a.chain) && a.chain0 <= |a.chain| && m.eta == a.eta0 + a.chain[a.chain0..]
    ensures forall b, k: nat | b in a.chain && k < BLOCK_SIZE && Kind(m, b) :: At(m, b, k).timeFirst != MARKER
    ensures m.outdeg == |FilledSlots(m, a.chain)| == a.outdeg0 + SumMade(threads)
  {
    assert a.claimed == FilledSlots(m, a.chain) by {
      forall p ensures p in a.claimed <==> p in FilledSlots(m, a.chain) {
        assert p == (p.0, p.1);
      }
    }
    forall l | LocOk(a.chain, l) ensures Word(m, l) != MARKER {}
    hide Kind, At, Filled, Word, Distinct, SumAhead, SumMade, FilledSlots;
  }

  lemma DoneThreads(s: State)
    requires AllDone(s)
    ensures forall t: nat | t < |s.threads| :: s.threads[t].pc.Done?
  {
  }

  // ---------------------------------------------------------------- who can move

  // The thread that t waits for, or t itself.
  lemma Awake(s: State, a: History, t: nat) returns (u: nat)
    requires Inv(s, a) && t < |s.threads| && !s.threads[t].pc.Done? && !s.m.aborted
    ensures Enabled(s, u)
  {
    var th := s.threads[t];
    u := t;
    if Blocked(s.m, th) {
      assert ThreadInv(s.m, a, t, th);
      InvParts(s, a);
      hide Inv, ThreadInv, PoolInv, PtrInv, LockInv, ClaimInv, ClaimInit, OrderInv, UniqueInv, CountInv, Blocked, HoldsPtr, HoldsSlot;
      if th.pc.P2Lock? {
        u := SlotHolder(s.m, a, s.threads, t);
      } else {
        var l := WaitsFor(s.m, a, t, th);
        u := PtrHolder(s.m, a, s.threads, l);
      }
      HolderAwake(s.m, s.threads[u]);
    }
  }

  lemma HolderAwake(m: Mem, th: Thread)
    requires HoldsPtr(th) || HoldsSlot(th)
    ensures !Blocked(m, th)
  {
  }

  lemma SlotHolder(m: Mem, a: History, threads: seq<Thread>, t: nat) returns (u: nat)
    requires t < |threads| && LockInv(m, a, threads) && ThreadInv(m, a, t, threads[t])
    requires threads[t].pc.P2Lock? && Blocked(m, threads[t])
    ensures u < |threads| && HoldsSlot(threads[u])
  {
    var th := threads[t];
    assert AtSlot(m, a, th);
    hide ThreadInv, Scanned, Clean, Full, HoldsSlot, Kind, At, Pos;
    u := a.slotOwner[(th.tmp, th.k)];
  }

  lemma PtrHolder(m: Mem, a: History, threads: seq<Thread>, l: Loc) returns (u: nat)
    requires PtrInv(m, a, threads) && PoolInv(m, a) && LocOk(a.chain, l) && Word(m, l) == MARKER
    ensures u < |threads| && HoldsPtr(threads[u])
  {
    u := a.ptrOwner[l];
  }

  lemma WaitsFor(m: Mem, a: History, t: nat, th: Thread) returns (l: Loc)
    requires ThreadInv(m, a, t, th) && Blocked(m, th) && !th.pc.P2Lock? && !th.pc.Done?
    ensures LocOk(a.chain, l) && Word(m, l) == MARKER
  {
    l := if th.pc.BeginHead? then Head else if th.pc.P2Start? then th.loc else if th.pc.P3Lock? then th.ptr else NextOf(th.tmp);
    hide Scanned, NotKind, Clean, CleanUpTo, Pos, Kind, Blk;
  }
}
