/**
 Each writing step of the insert protocol keeps the invariant.
 */
module InsertSteps {
  import opened InsertProtocol
  import opened InsertInvariant

  // ---------------------------------------------------------------- steps that write

  ghost predicate Shared(m: Mem, a: History, threads: seq<Thread>) {
    && PoolInv(m, a) && PtrInv(m, a, threads) && LockInv(m, a, threads)
    && ClaimInv(m, a, threads) && ClaimInit(m, a)
    && OrderInv(m, a) && UniqueInv(m, a) && CountInv(m, a, threads)
  }

  lemma Assemble(s: State, a: History, t: nat, m': Mem, th': Thread, a': History)
    requires Inv(s, a) && t < |s.threads|
    requires forall u: nat | u < |s.threads| && u != t :: Rely(s.m, a, m', a', u, s.threads[u])
    requires Shared(m', a', s.threads[t := th'])
    requires ThreadInv(m', a', t, th') && th'.to == s.threads[t].to && a'.calls == a.calls
    ensures Inv(State(m', s.threads[t := th']), a')
  {
    hide Rely, ThreadInv, PoolInv, PtrInv, LockInv, ClaimInv, ClaimInit, OrderInv, UniqueInv, CountInv;
    forall u: nat | u < |s.threads| && u != t
      ensures ThreadInv(m', a', u, s.threads[u])
    {
      assert ThreadInv(s.m, a, u, s.threads[u]);
      RelyKeeps(s.m, a, m', a', u, s.threads[u]);
    }
  }

  // Memories that differ at most in the lock words of slots.
  ghost predicate SameEdges(m: Mem, m': Mem) {
    && m' == m.(blocks := m'.blocks) && m'.blocks.Keys == m.blocks.Keys
    && (forall b | b in m.blocks ::
          && m'.blocks[b] == m.blocks[b].(slots := m'.blocks[b].slots)
          && |m'.blocks[b].slots| == |m.blocks[b].slots|
          && forall k: nat | k < |m.blocks[b].slots| :: m'.blocks[b].slots[k].neighbor == m.blocks[b].slots[k].neighbor)
  }

  lemma SameEdgesFacts(m: Mem, m': Mem)
    requires SameEdges(m, m')
    ensures forall b :: Blk(m', b).etype == Blk(m, b).etype && Blk(m', b).high == Blk(m, b).high && Blk(m', b).next == Blk(m, b).next
    ensures forall b, k: nat :: At(m', b, k).neighbor == At(m, b, k).neighbor
    ensures forall b, k: nat :: Filled(m', b, k) == Filled(m, b, k)
    ensures forall b :: Kind(m', b) == Kind(m, b)
    ensures forall l :: Word(m', l) == Word(m, l)
  {
  }

  lemma SameEdgesShared(m: Mem, a: History, m': Mem, a': History, threads: seq<Thread>, threads': seq<Thread>)
    requires SameEdges(m, m') && a' == a.(slotOwner := a'.slotOwner)
    requires PoolInv(m, a) && ClaimInit(m, a) && OrderInv(m, a) && UniqueInv(m, a)
    ensures PoolInv(m', a') && ClaimInit(m', a') && OrderInv(m', a') && UniqueInv(m', a')
  {
    SameEdgesFacts(m, m');
    hide Filled, At, Kind, Word;
  }

  predicate FreesSlot(th: Thread) {
    th.pc.P2Unlock? || th.pc.Restore? || (th.pc.Unlock? && th.mode.FreshSlot?)
  }

  lemma SetTime(m: Mem, b: nat, k: nat, w: int)
    requires b in m.blocks && k < |m.blocks[b].slots|
    ensures var m' := SetSlot(m, b, k, At(m, b, k).(timeFirst := w));
      && SameEdges(m, m')
      && (forall c: nat, j: nat | (c, j) != (b, k) :: At(m', c, j) == At(m, c, j))
      && At(m', b, k).timeFirst == w
      && (forall c | c != b :: Blk(m', c) == Blk(m, c))
  {
  }

  lemma SlotRely(m: Mem, a: History, m': Mem, a': History, b: nat, u: nat, th: Thread)
    requires PoolInv(m, a)
    requires SameEdges(m, m') && a' == a.(slotOwner := a'.slotOwner)
    requires b in a.chain && forall c | c != b :: Blk(m', c) == Blk(m, c)
    requires forall p | p in a.slotOwner && a.slotOwner[p] == u :: p in a'.slotOwner && a'.slotOwner[p] == u
    requires OwnsBlock(th) ==> th.tmp in m.blocks && th.tmp !in a.chain
    ensures Rely(m, a, m', a', u, th)
  {
    SameEdgesFacts(m, m');
    hide At, Kind, Word;
  }

  lemma SlotPtrInv(m: Mem, a: History, m': Mem, a': History, threads: seq<Thread>, t: nat, th': Thread)
    requires t < |threads| && SameEdges(m, m') && a' == a.(slotOwner := a'.slotOwner)
    requires PtrInv(m, a, threads) && !HoldsPtr(threads[t]) && !HoldsPtr(th')
    ensures PtrInv(m', a', threads[t := th'])
  {
    SameEdgesFacts(m, m');
    hide Filled, At, Word, Kind;
  }

  lemma SlotClaimInv(m: Mem, a: History, m': Mem, a': History, threads: seq<Thread>, threads': seq<Thread>)
    requires SameEdges(m, m') && a' == a.(slotOwner := a'.slotOwner) && ClaimInv(m, a, threads)
    requires forall b, k: nat :: Claiming(a', threads', b, k) ==> Claiming(a, threads, b, k)
    requires forall b, k: nat :: Claiming(a, threads, b, k) ==> Claiming(a', threads', b, k) || Filled(m, b, k)
    ensures ClaimInv(m', a', threads')
  {
    SameEdgesFacts(m, m');
    hide Filled, At, Word, Kind, Claiming;
  }

  lemma SlotCountInv(m: Mem, a: History, m': Mem, a': History, threads: seq<Thread>, t: nat, th': Thread)
    requires t < |threads| && SameEdges(m, m') && a' == a.(slotOwner := a'.slotOwner) && CountInv(m, a, threads)
    requires !HoldsPtr(threads[t]) && !HoldsPtr(th') && Ahead(th') == Ahead(threads[t]) && Made(th') == Made(threads[t])
    ensures CountInv(m', a', threads[t := th'])
  {
    SumAheadSet(threads, t, th');
    assert Pending(a', threads[t := th']) == Pending(a, threads);
  }

  lemma LockFirst(m: Mem, a: History, m': Mem, a': History, threads: seq<Thread>, t: nat, th': Thread)
    requires PoolInv(m, a) && LockInv(m, a, threads) && t < |threads| && SameEdges(m, m')
    requires th'.tmp in a.chain && th'.k < BLOCK_SIZE && HoldsSlot(th') && !HoldsSlot(threads[t])
    requires m' == SetSlot(m, th'.tmp, th'.k, At(m, th'.tmp, th'.k).(timeFirst := MARKER))
    requires a' == a.(slotOwner := a.slotOwner[(th'.tmp, th'.k) := t])
    ensures LockInv(m', a', threads[t := th'])
  {
    HighBound(m, a, th'.tmp);
    SetTime(m, th'.tmp, th'.k, MARKER);
    SameEdgesFacts(m, m');
    hide HoldsSlot, Kind, At, Blk, SetSlot, SameEdges;
  }

  lemma SlotRelyAll(s: State, a: History, t: nat, m': Mem, a': History)
    requires Inv(s, a) && t < |s.threads|
    requires SameEdges(s.m, m') && a' == a.(slotOwner := a'.slotOwner)
    requires s.threads[t].tmp in a.chain && forall c | c != s.threads[t].tmp :: Blk(m', c) == Blk(s.m, c)
    requires forall p | p in a.slotOwner && a.slotOwner[p] != t :: p in a'.slotOwner && a'.slotOwner[p] == a.slotOwner[p]
    ensures forall u: nat | u < |s.threads| && u != t :: Rely(s.m, a, m', a', u, s.threads[u])
  {
    forall u: nat | u < |s.threads| && u != t
      ensures Rely(s.m, a, m', a', u, s.threads[u])
    {
      OwnedBlock(s, a, u);
      hide Inv, Rely, PoolInv, Blk;
      assert PoolInv(s.m, a) by { InvPool(s, a); }
      SlotRely(s.m, a, m', a', s.threads[t].tmp, u, s.threads[u]);
    }
  }

  lemma InvParts(s: State, a: History)
    requires Inv(s, a)
    ensures Shared(s.m, a, s.threads)
  {
  }

  lemma InvThread(s: State, a: History, t: nat)
    requires Inv(s, a) && t < |s.threads|
    ensures ThreadInv(s.m, a, t, s.threads[t])
  {
    hide ThreadInv, PoolInv, PtrInv, LockInv, ClaimInv, ClaimInit, OrderInv, UniqueInv, CountInv, CallsInv;
  }

  lemma InvPool(s: State, a: History)
    requires Inv(s, a)
    ensures PoolInv(s.m, a)
  {
  }

  lemma OwnedBlock(s: State, a: History, u: nat)
    requires Inv(s, a) && u < |s.threads|
    ensures var th := s.threads[u]; OwnsBlock(th) ==> th.tmp in s.m.blocks && th.tmp !in a.chain && Private(s.m, a, th)
  {
    hide PoolInv, PtrInv, LockInv, ClaimInv, ClaimInit, OrderInv, UniqueInv, CountInv, CallsInv, LockedBy, LocInv, LookInv, FindInv;
    assert ThreadInv(s.m, a, u, s.threads[u]);
  }

  // Any step that only takes or gives back a slot's lock.
  lemma SlotStep(s: State, a: History, t: nat, m': Mem, th': Thread, a': History)
    requires Inv(s, a) && t < |s.threads|
    requires SameEdges(s.m, m') && a' == a.(slotOwner := a'.slotOwner)
    requires s.threads[t].tmp in a.chain && forall c | c != s.threads[t].tmp :: Blk(m', c) == Blk(s.m, c)
    requires forall p | p in a.slotOwner && a.slotOwner[p] != t :: p in a'.slotOwner && a'.slotOwner[p] == a.slotOwner[p]
    requires !HoldsPtr(s.threads[t]) && !HoldsPtr(th') && Ahead(th') == Ahead(s.threads[t]) && Made(th') == Made(s.threads[t])
    requires th'.to == s.threads[t].to
    requires forall b, k: nat :: Claiming(a', s.threads[t := th'], b, k) ==> Claiming(a, s.threads, b, k)
    requires forall b, k: nat :: Claiming(a, s.threads, b, k) ==>
               Claiming(a', s.threads[t := th'], b, k) || Filled(s.m, b, k)
    requires LockInv(m', a', s.threads[t := th']) && ThreadInv(m', a', t, th')
    ensures Inv(State(m', s.threads[t := th']), a')
  {
    InvParts(s, a);
    hide Inv, LockInv, PtrInv, ClaimInv, ClaimInit, OrderInv, UniqueInv, CountInv, PoolInv, Rely, ThreadInv, SameEdges,
         HoldsPtr, Ahead, Made, Claiming, Filled, Blk;
    SlotPtrInv(s.m, a, m', a', s.threads, t, th');
    SlotClaimInv(s.m, a, m', a', s.threads, s.threads[t := th']);
    SlotCountInv(s.m, a, m', a', s.threads, t, th');
    SameEdgesShared(s.m, a, m', a', s.threads, s.threads[t := th']);
    SlotRelyAll(s, a, t, m', a');
    Assemble(s, a, t, m', th', a');
  }

  // readfe on a slot: the slot's lock passes to thread t.
  lemma LockThread(m: Mem, a: History, m': Mem, a': History, t: nat, u: nat, th: Thread)
    requires PoolInv(m, a) && ClaimInit(m, a) && ThreadInv(m, a, t, th)
    requires th.pc.P2Lock? && !Blocked(m, th)
    requires m' == Act(m, th).0 && a' == a.(slotOwner := a.slotOwner[(th.tmp, th.k) := t])
    requires Rely(m, a, m', a', u, th)
    ensures ThreadInv(m', a', t, Act(m, th).1)
  {
    hide PoolInv, ClaimInit, Rely, Pos, Scanned, Clean, NotKind, Full, Private, AtEnd, UpdateInv, CleanUpTo;
    RelyBlock(m, a, m', a', u, th);
    RelyLoc(m, a, m', a', u, th, th.loc);
    assert AtSlot(m', a', th);
  }

  lemma LockFree(m: Mem, a: History, threads: seq<Thread>, th: Thread)
    requires LockInv(m, a, threads) && th.tmp in a.chain && Kind(m, th.tmp) && th.k < BLOCK_SIZE
    requires At(m, th.tmp, th.k).timeFirst != MARKER
    ensures (th.tmp, th.k) !in a.slotOwner
  {
  }

  lemma LockClaiming(m: Mem, a: History, a': History, threads: seq<Thread>, t: nat, th': Thread)
    requires LockInv(m, a, threads) && t < |threads| && !InFlight(th') && !InFlight(threads[t])
    requires (th'.tmp, th'.k) !in a.slotOwner
    requires a' == a.(slotOwner := a.slotOwner[(th'.tmp, th'.k) := t])
    ensures forall b, k: nat :: Claiming(a', threads[t := th'], b, k) == Claiming(a, threads, b, k)
  {
    hide InFlight;
  }

  lemma LockFacts(s: State, a: History, t: nat)
    requires Enabled(s, t) && s.threads[t].pc.P2Lock? && PoolInv(s.m, a) && ThreadInv(s.m, a, t, s.threads[t])
    ensures var m, th := s.m, s.threads[t];
      var (m', th') := Act(m, th);
      && Step(s, t) == State(m', s.threads[t := th'])
      && Record(s, a, t) == a.(slotOwner := a.slotOwner[(th.tmp, th.k) := t])
      && m' == SetSlot(m, th.tmp, th.k, At(m, th.tmp, th.k).(timeFirst := MARKER)) && SameEdges(m, m')
      && th.tmp in a.chain && Kind(m, th.tmp) && th.k < BLOCK_SIZE && At(m, th.tmp, th.k).timeFirst != MARKER
      && (forall c | c != th.tmp :: Blk(m', c) == Blk(m, c))
      && th'.tmp == th.tmp && th'.k == th.k && HoldsSlot(th') && !HoldsSlot(th)
      && !HoldsPtr(th') && !HoldsPtr(th) && Ahead(th') == 0 == Ahead(th) && Made(th') == 0 == Made(th) && th'.to == th.to && !InFlight(th') && !InFlight(th)
      && !OwnsBlock(th) && !Blocked(m, th)
  {
    var th := s.threads[t];
    HighBound(s.m, a, th.tmp);
    SetTime(s.m, th.tmp, th.k, MARKER);
    assert AtSlot(s.m, a, th);
    hide PoolInv, ThreadInv, Scanned, Clean, Full, Pos, SameEdges;
  }

  lemma LockParts(s: State, a: History, t: nat)
    requires Inv(s, a) && Enabled(s, t)
    ensures t < |s.threads| && PoolInv(s.m, a) && LockInv(s.m, a, s.threads) && ClaimInit(s.m, a)
  {
    hide ThreadInv, PoolInv, PtrInv, LockInv, ClaimInv, ClaimInit, OrderInv, UniqueInv, CountInv, CallsInv;
  }

  lemma LockOwn(s: State, a: History, t: nat)
    requires Inv(s, a) && Enabled(s, t) && s.threads[t].pc.P2Lock?
    ensures var (m', th') := Act(s.m, s.threads[t]);
      ThreadInv(m', a.(slotOwner := a.slotOwner[(s.threads[t].tmp, s.threads[t].k) := t]), t, th')
  {
    hide *;
    LockParts(s, a, t);
    var m, th := s.m, s.threads[t];
    InvThread(s, a, t);
    LockFacts(s, a, t);
    LockFree(m, a, s.threads, th);
    var m' := Act(m, th).0;
    var a' := a.(slotOwner := a.slotOwner[(th.tmp, th.k) := t]);
    SlotRely(m, a, m', a', th.tmp, |s.threads|, th);
    LockThread(m, a, m', a', t, |s.threads|, th);
  }

  lemma LockShared(s: State, a: History, t: nat)
    requires Inv(s, a) && Enabled(s, t) && s.threads[t].pc.P2Lock?
    ensures var (m', th') := Act(s.m, s.threads[t]);
      var a' := a.(slotOwner := a.slotOwner[(s.threads[t].tmp, s.threads[t].k) := t]);
      && LockInv(m', a', s.threads[t := th'])
      && (s.threads[t].tmp, s.threads[t].k) !in a.slotOwner
      && forall b, k: nat :: Claiming(a', s.threads[t := th'], b, k) == Claiming(a, s.threads, b, k)
  {
    hide *;
    LockParts(s, a, t);
    var m, th := s.m, s.threads[t];
    InvThread(s, a, t);
    LockFacts(s, a, t);
    var m', th' := Act(m, th).0, Act(m, th).1;
    var a' := a.(slotOwner := a.slotOwner[(th.tmp, th.k) := t]);
    LockFree(m, a, s.threads, th);
    LockClaiming(m, a, a', s.threads, t, th');
    LockFirst(m, a, m', a', s.threads, t, th');
  }

  lemma LockStep(s: State, a: History, t: nat)
    requires Inv(s, a) && Enabled(s, t) && s.threads[t].pc.P2Lock?
    ensures Inv(Step(s, t), Record(s, a, t))
  {
    hide *;
    LockParts(s, a, t);
    InvThread(s, a, t);
    LockFacts(s, a, t);
    var m', th' := Act(s.m, s.threads[t]).0, Act(s.m, s.threads[t]).1;
    var a' := a.(slotOwner := a.slotOwner[(s.threads[t].tmp, s.threads[t].k) := t]);
    LockShared(s, a, t);
    LockOwn(s, a, t);
    SlotStep(s, a, t, m', th', a');
  }

  // writexf on a slot that thread t holds: its lock is given back.
  lemma DoneInv(m: Mem, a: History, t: nat, th: Thread, b: nat, k: nat)
    requires th.pc.Done? && th.to >= 0 && th.ts != MARKER && th.to != m.from && th.result in {0, 1}
    requires b in a.chain && Holds(m, b, k, th.to)
    ensures ThreadInv(m, a, t, th)
  {
    hide Holds;
  }

  // What is left to look at after a slot that holds another edge.
  lemma OnwardInv(m: Mem, a: History, t: nat, th: Thread)
    requires Going(m, a, th) && AtSlot(m, a, th)
    requires Filled(m, th.tmp, th.k) && At(m, th.tmp, th.k).neighbor != th.to
    requires th.endk <= Blk(m, th.tmp).high
    ensures ThreadInv(m, a, t, NextSlot(th))
  {
    SlotPassed(m, a, th);
    hide Filled, At, Blk, Kind, Pos, Scanned, Clean, NotKind, Full;
  }

  lemma FreeOnward(m: Mem, a: History, m': Mem, a': History, t: nat, u: nat, th: Thread)
    requires PoolInv(m, a) && ClaimInit(m, a) && ThreadInv(m, a, t, th)
    requires th.pc.P2Unlock? && SameEdges(m, m')
    requires Rely(m, a, m', a', u, th)
    ensures ThreadInv(m', a', t, Act(m, th).1)
  {
    assert Going(m, a, th) && AtSlot(m, a, th) && Filled(m, th.tmp, th.k) && At(m, th.tmp, th.k).neighbor != th.to
      && th.endk <= Blk(m, th.tmp).high && m'.from == m.from && Act(m, th).1 == NextSlot(th);
    hide *;
    SameEdgesFacts(m, m');
    assert th.tmp in a.chain by { AtSlotHere(m, a, th); }
    RelyBlock(m, a, m', a', u, th);
    assert LocOk(a.chain, th.loc) by { GoingLoc(m, a, th); }
    RelyLoc(m, a, m', a', u, th, th.loc);
    assert Going(m', a', th) by { GoingLoc(m, a, th); GoingBack(m', a', th); }
    OnwardInv(m', a', t, th);
  }

  lemma AtSlotHere(m: Mem, a: History, th: Thread)
    requires AtSlot(m, a, th)
    ensures th.tmp in a.chain && th.k < BLOCK_SIZE
  {
  }

  lemma GoingLoc(m: Mem, a: History, th: Thread)
    requires Going(m, a, th)
    ensures th.to >= 0 && th.ts != MARKER && th.to != m.from && LocOk(a.chain, th.loc) && NotKind(m, a, LocEnd(a.chain, th.loc))
  {
  }

  lemma GoingBack(m: Mem, a: History, th: Thread)
    requires th.to >= 0 && th.ts != MARKER && th.to != m.from && LocOk(a.chain, th.loc) && NotKind(m, a, LocEnd(a.chain, th.loc))
    ensures Going(m, a, th)
  {
  }

  lemma FreeReturn(m: Mem, a: History, m': Mem, a': History, t: nat, u: nat, th: Thread)
    requires ThreadInv(m, a, t, th) && SameEdges(m, m') && a'.chain == a.chain
    requires th.pc.Restore? || (th.pc.Unlock? && th.mode.FreshSlot?)
    ensures ThreadInv(m', a', t, Act(m, th).1)
  {
    SameEdgesFacts(m, m');
    var th' := Act(m, th).1;
    assert th'.pc.Done? && th'.to == th.to && th'.ts == th.ts && th'.result in {0, 1} && m'.from == m.from;
    assert th.to != m.from && th.tmp in a.chain && Holds(m, th.tmp, th.k, th.to) by { hide SameEdges; }
    assert Holds(m', th.tmp, th.k, th.to) by { hide ThreadInv; }
    assert th.to >= 0 && th.ts != MARKER;
    hide *;
    DoneInv(m', a', t, th', th.tmp, th.k);
  }

  lemma FreeClaiming(m: Mem, a: History, a': History, threads: seq<Thread>, t: nat, th': Thread)
    requires LockInv(m, a, threads) && t < |threads| && !InFlight(th')
    requires var th := threads[t];
      && HoldsSlot(th) && (th.tmp, th.k) in a.slotOwner && a.slotOwner[(th.tmp, th.k)] == t
      && (InFlight(th) ==> Filled(m, th.tmp, th.k))
      && a' == a.(slotOwner := a.slotOwner - {(th.tmp, th.k)})
    ensures forall b, k: nat :: Claiming(a', threads[t := th'], b, k) ==> Claiming(a, threads, b, k)
    ensures forall b, k: nat :: Claiming(a, threads, b, k) ==> Claiming(a', threads[t := th'], b, k) || Filled(m, b, k)
  {
    hide InFlight, HoldsSlot, Filled;
  }

  lemma LockLast(m: Mem, a: History, m': Mem, a': History, threads: seq<Thread>, t: nat, th': Thread, w: int)
    requires PoolInv(m, a) && LockInv(m, a, threads) && t < |threads| && SameEdges(m, m')
    requires var th := threads[t];
      && th.tmp in a.chain && th.k < BLOCK_SIZE && (th.tmp, th.k) in a.slotOwner && a.slotOwner[(th.tmp, th.k)] == t
      && m' == SetSlot(m, th.tmp, th.k, At(m, th.tmp, th.k).(timeFirst := w)) && w != MARKER
      && a' == a.(slotOwner := a.slotOwner - {(th.tmp, th.k)})
    ensures LockInv(m', a', threads[t := th'])
  {
    HighBound(m, a, threads[t].tmp);
    SetTime(m, threads[t].tmp, threads[t].k, w);
    SameEdgesFacts(m, m');
    hide HoldsSlot, Kind, At, Blk, SetSlot, SameEdges;
  }

  lemma FreeFacts(s: State, a: History, t: nat)
    requires Enabled(s, t) && FreesSlot(s.threads[t]) && PoolInv(s.m, a) && ThreadInv(s.m, a, t, s.threads[t])
    ensures var m, th := s.m, s.threads[t];
      var (m', th') := Act(m, th);
      var w := if th.pc.Unlock? then th.ts else th.timefirst;
      && Step(s, t) == State(m', s.threads[t := th'])
      && Record(s, a, t) == a.(slotOwner := a.slotOwner - {(th.tmp, th.k)})
      && m' == SetSlot(m, th.tmp, th.k, At(m, th.tmp, th.k).(timeFirst := w)) && SameEdges(m, m') && w != MARKER
      && th.tmp in a.chain && th.k < BLOCK_SIZE
      && (th.tmp, th.k) in a.slotOwner && a.slotOwner[(th.tmp, th.k)] == t
      && (InFlight(th) ==> Filled(m, th.tmp, th.k))
      && (forall c | c != th.tmp :: Blk(m', c) == Blk(m, c))
      && (th.pc.P2Unlock? || th.pc.Restore? || (th.pc.Unlock? && th.mode.FreshSlot?))
      && HoldsSlot(th) && !HoldsPtr(th') && !HoldsPtr(th) && Ahead(th') == 0 == Ahead(th) && Made(th') == Made(th) && th'.to == th.to && !InFlight(th') && !OwnsBlock(th)
  {
    hide PoolInv, Scanned, Clean, Full, Pos, SameEdges, Private, AtEnd, CleanUpTo, NotKind, LocInv;
    var th := s.threads[t];
    HighBound(s.m, a, th.tmp);
    SetTime(s.m, th.tmp, th.k, if th.pc.Unlock? then th.ts else th.timefirst);
  }

  lemma FreeStep(s: State, a: History, t: nat)
    requires Inv(s, a) && Enabled(s, t) && FreesSlot(s.threads[t])
    ensures Inv(Step(s, t), Record(s, a, t))
  {
    hide *;
    var m, threads := s.m, s.threads;
    Locks(s, a, t);
    var th := threads[t];
    FreeFacts(s, a, t);
    var m', th' := Act(m, th).0, Act(m, th).1;
    var a' := a.(slotOwner := a.slotOwner - {(th.tmp, th.k)});
    FreeClaiming(m, a, a', threads, t, th');
    LockLast(m, a, m', a', threads, t, th', if th.pc.Unlock? then th.ts else th.timefirst);
    if th.pc.P2Unlock? {
      SlotRely(m, a, m', a', th.tmp, |threads|, th);
      FreeOnward(m, a, m', a', t, |threads|, th);
    } else {
      FreeReturn(m, a, m', a', t, |threads|, th);
    }
    SlotStep(s, a, t, m', th', a');
  }

  lemma Locks(s: State, a: History, t: nat)
    requires Inv(s, a) && Enabled(s, t)
    ensures t < |s.threads| && PoolInv(s.m, a) && LockInv(s.m, a, s.threads) && ClaimInit(s.m, a)
    ensures ThreadInv(s.m, a, t, s.threads[t])
    ensures forall p | p in a.slotOwner :: a.slotOwner[p] < |s.threads|
  {
    hide ThreadInv, PoolInv, PtrInv, ClaimInit, OrderInv, UniqueInv, CountInv;
  }

  // ---------------------------------------------------------------- steps on a private block

  // Only one thread can be past the lock of the last word.
  lemma OneAppender(m: Mem, a: History, t: nat, th: Thread, u: nat, thu: Thread)
    requires Distinct(a.chain)
    requires HoldsPtr(th) && HoldsPtr(thu) && LockedBy(m, a, t, th) && LockedBy(m, a, u, thu)
    requires AtEnd(m, a, th) && AtEnd(m, a, thu)
    ensures t == u
  {
  }

  lemma AppenderEnd(m: Mem, a: History, t: nat, th: Thread)
    requires ThreadInv(m, a, t, th) && (OwnsBlock(th) || th.pc.Alloc?)
    ensures AtEnd(m, a, th) && HoldsPtr(th) && LockedBy(m, a, t, th)
  {
    hide AtEnd, LockedBy;
  }

  lemma Appending(s: State, a: History, t: nat, u: nat)
    requires Inv(s, a) && t < |s.threads| && u < |s.threads| && u != t
    requires OwnsBlock(s.threads[t]) || s.threads[t].pc.Alloc?
    ensures !OwnsBlock(s.threads[u]) && !s.threads[u].pc.Alloc?
  {
    hide ThreadInv, OwnsBlock, LockedBy, AtEnd;
    AppenderEnd(s.m, a, t, s.threads[t]);
    if OwnsBlock(s.threads[u]) || s.threads[u].pc.Alloc? {
      AppenderEnd(s.m, a, u, s.threads[u]);
      OneAppender(s.m, a, t, s.threads[t], u, s.threads[u]);
    }
  }

  // Memories that agree on every block of the chain and on the vertex's own words.
  ghost predicate SameChain(m: Mem, a: History, m': Mem) {
    && m'.from == m.from && m'.etype == m.etype && m'.head == m.head
    && m'.tail >= m.tail
    && (forall b | b in a.chain :: b in m'.blocks && b in m.blocks && m'.blocks[b] == m.blocks[b])
  }

  lemma SameChainFacts(m: Mem, a: History, m': Mem)
    requires SameChain(m, a, m')
    ensures forall b | b in a.chain :: Blk(m', b) == Blk(m, b) && Kind(m', b) == Kind(m, b)
    ensures forall b, k: nat | b in a.chain :: At(m', b, k) == At(m, b, k) && Filled(m', b, k) == Filled(m, b, k)
    ensures forall l | LocOk(a.chain, l) :: Word(m', l) == Word(m, l)
  {
  }

  lemma SameChainClaims(m: Mem, a: History, m': Mem, threads: seq<Thread>)
    requires SameChain(m, a, m') && ClaimInv(m, a, threads) && ClaimInit(m, a) && OrderInv(m, a) && UniqueInv(m, a)
    ensures ClaimInv(m', a, threads) && ClaimInit(m', a) && OrderInv(m', a) && UniqueInv(m', a)
  {
    SameChainFacts(m, a, m');
    hide SameChain, Blk, Kind, At, Filled, Word, Claiming;
  }

  lemma SameChainLocks(m: Mem, a: History, m': Mem, threads: seq<Thread>)
    requires SameChain(m, a, m') && PtrInv(m, a, threads) && LockInv(m, a, threads)
    ensures PtrInv(m', a, threads) && LockInv(m', a, threads)
  {
    SameChainFacts(m, a, m');
    hide SameChain, Blk, Kind, At, Filled, Word;
  }

  lemma SameChainRely(m: Mem, a: History, m': Mem, u: nat, th: Thread)
    requires SameChain(m, a, m') && LockChain(a) && !OwnsBlock(th)
    ensures Rely(m, a, m', a, u, th)
  {
    SameChainFacts(m, a, m');
    hide SameChain, Blk, Kind, At, Filled, Word;
  }

  ghost predicate LockChain(a: History) {
    forall p | p in a.slotOwner :: p.0 in a.chain
  }

  lemma LockInvChain(s: State, a: History)
    requires Inv(s, a)
    ensures LockChain(a)
  {
    forall p | p in a.slotOwner ensures p.0 in a.chain {
      assert ThreadInv(s.m, a, a.slotOwner[p], s.threads[a.slotOwner[p]]);
    }
  }

  predicate StandsFast(th: Thread, th': Thread) {
    && HoldsPtr(th') == HoldsPtr(th) && (HoldsPtr(th) ==> th'.ptr == th.ptr)
    && HoldsSlot(th') == HoldsSlot(th) && (HoldsSlot(th) ==> th'.tmp == th.tmp && th'.k == th.k)
    && InFlight(th') == InFlight(th) && th'.to == th.to
  }

  lemma FastShared(m: Mem, a: History, threads: seq<Thread>, t: nat, th': Thread)
    requires t < |threads| && StandsFast(threads[t], th')
    requires PtrInv(m, a, threads) && LockInv(m, a, threads) && ClaimInv(m, a, threads)
    ensures PtrInv(m, a, threads[t := th']) && LockInv(m, a, threads[t := th']) && ClaimInv(m, a, threads[t := th'])
  {
    forall b, k: nat ensures Claiming(a, threads[t := th'], b, k) == Claiming(a, threads, b, k) {}
    hide Claiming, HoldsPtr, HoldsSlot, InFlight, Word, Kind, At, Filled, Blk;
  }

  // A step that changes no block of the chain, no lock, and owns whatever block it changes.
  lemma QuietStep(s: State, a: History, t: nat, m': Mem, th': Thread)
    requires Inv(s, a) && t < |s.threads| && StandsFast(s.threads[t], th') && SameChain(s.m, a, m')
    requires PoolInv(m', a) && ThreadInv(m', a, t, th')
    requires CountInv(m', a, s.threads[t := th'])
    requires forall u: nat | u < |s.threads| && u != t && OwnsBlock(s.threads[u]) ::
               s.threads[u].tmp in m'.blocks && Blk(m', s.threads[u].tmp) == Blk(s.m, s.threads[u].tmp) && s.threads[u].tmp !in a.chain
    ensures Inv(State(m', s.threads[t := th']), a)
  {
    InvParts(s, a);
    LockInvChain(s, a);
    hide *;
    assert PtrInv(s.m, a, s.threads) && LockInv(s.m, a, s.threads) && ClaimInv(s.m, a, s.threads) && ClaimInit(s.m, a)
      && OrderInv(s.m, a) && UniqueInv(s.m, a) by { SharedParts(s.m, a, s.threads); }
    FastShared(s.m, a, s.threads, t, th');
    SameChainLocks(s.m, a, m', s.threads[t := th']);
    SameChainClaims(s.m, a, m', s.threads[t := th']);
    SharedBack(m', a, s.threads[t := th']);
    forall u: nat | u < |s.threads| && u != t ensures Rely(s.m, a, m', a, u, s.threads[u]) {
      SameChainRely(s.m, a, m', u, s.threads[u].(pc := Done));
      RelyBoth(s.m, a, m', a, u, s.threads[u]);
    }
    Assemble(s, a, t, m', th', a);
  }

  lemma RelyBoth(m: Mem, a: History, m': Mem, a': History, u: nat, th: Thread)
    requires Rely(m, a, m', a', u, th.(pc := Done))
    requires OwnsBlock(th) ==> th.tmp in m'.blocks && Blk(m', th.tmp) == Blk(m, th.tmp) && th.tmp !in a'.chain
    ensures Rely(m, a, m', a', u, th)
  {
  }

  lemma SharedParts(m: Mem, a: History, threads: seq<Thread>)
    requires Shared(m, a, threads)
    ensures PoolInv(m, a) && PtrInv(m, a, threads) && LockInv(m, a, threads)
    ensures ClaimInv(m, a, threads) && ClaimInit(m, a) && OrderInv(m, a) && UniqueInv(m, a) && CountInv(m, a, threads)
  {
  }

  lemma SharedBack(m: Mem, a: History, threads: seq<Thread>)
    requires PoolInv(m, a) && PtrInv(m, a, threads) && LockInv(m, a, threads)
    requires ClaimInv(m, a, threads) && ClaimInit(m, a) && OrderInv(m, a) && UniqueInv(m, a) && CountInv(m, a, threads)
    ensures Shared(m, a, threads)
  {
  }

  // ---------------------------------------------------------------- filling a new block

  // What a private block looks like, apart from where it will be linked.
  lemma PrivateKept(m: Mem, a: History, m': Mem, th: Thread, th': Thread)
    requires Private(m, a, th) && SameChain(m, a, m') && ClaimInit(m, a)
    requires th' == th.(pc := th'.pc) && th.tmp in m'.blocks
    requires Kind(m', th.tmp) && Blk(m', th.tmp).next == 0
    requires forall j: nat | j < BLOCK_SIZE :: At(m', th.tmp, j).timeFirst != MARKER
    ensures Private(m', a, th')
  {
    SameChainFacts(m, a, m');
    assert Scanned(m', a, |a.chain|, th.to) by { hide SameChain, Blk, Kind, At, Filled; }
    assert Clean(m', a, th.to) by { hide SameChain, Blk, Kind, At, Filled; }
  }

  lemma PrivateFacts(s: State, a: History, t: nat)
    requires Enabled(s, t) && OwnsBlock(s.threads[t]) && PoolInv(s.m, a) && ClaimInit(s.m, a)
    requires ThreadInv(s.m, a, t, s.threads[t])
    requires var pc := s.threads[t].pc; pc.WriteNb? || pc.HighWrite? || pc.Unlock? || pc.SetNext?
    ensures var m, th := s.m, s.threads[t];
      var (m', th') := Act(m, th);
      && Step(s, t) == State(m', s.threads[t := th']) && Record(s, a, t) == a
      && SameChain(m, a, m') && PoolInv(m', a) && m'.eta == m.eta && m'.outdeg == m.outdeg
      && th' == th.(pc := th'.pc) && StandsFast(th, th') && Ahead(th') == Ahead(th) && Made(th') == Made(th) && OwnsBlock(th')
      && !th.pc.Link? && !th'.pc.Link?
  {
    hide Inv, AtEnd, Distinct, Pos, LookInv, FindInv, LockedBy, LocInv, ClaimInit, Filled;
    var m, th := s.m, s.threads[t];
    assert Private(m, a, th) && (th.mode.NewBlock? || th.pc.SetNext?);
    assert th.tmp !in a.chain && th.tmp in m.blocks;
    hide ThreadInv, UpdateInv, AppendInv, Private;
  }

  lemma PrivateAfter(s: State, a: History, t: nat)
    requires Enabled(s, t) && OwnsBlock(s.threads[t]) && PoolInv(s.m, a) && ClaimInit(s.m, a)
    requires ThreadInv(s.m, a, t, s.threads[t])
    requires var pc := s.threads[t].pc; pc.WriteNb? || pc.HighWrite? || pc.Unlock? || pc.SetNext?
    ensures var (m', th') := Act(s.m, s.threads[t]); Private(m', a, th') && LocInv(m', a, th') && LockedBy(m', a, t, th')
  {
    var m, th := s.m, s.threads[t];
    PrivateFacts(s, a, t);
    var m', th' := Act(m, th).0, Act(m, th).1;
    assert Private(m, a, th) && th.ts != MARKER && |Blk(m, th.tmp).slots| == BLOCK_SIZE;
    forall j: nat | j < BLOCK_SIZE ensures At(m', th.tmp, j).timeFirst != MARKER {
      assert At(m, th.tmp, j).timeFirst != MARKER;
      hide PoolInv, ClaimInit, AtEnd, LocInv, LockedBy;
    }
    assert Kind(m', th.tmp) && Blk(m', th.tmp).next == 0 && th.tmp in m'.blocks;
    assert LockedBy(m, a, t, th) && LocInv(m, a, th) && !th.pc.BeginHead? && !th.pc.Done? && HoldsPtr(th) && HoldsPtr(th') && !HoldsSlot(th');
    hide Private, SameChain, AtEnd, PoolInv, ClaimInit, ThreadInv, LocInv, StandsFast;
    PrivateKept(m, a, m', th, th');
    SameChainLoc(m, a, m', th, th');
  }

  // A private block once its slot has been written.
  ghost predicate Filling(m: Mem, th: Thread) {
    && At(m, th.tmp, 0).neighbor == th.to
    && Blk(m, th.tmp).high == (if th.pc.Unlock? || th.pc.SetNext? || th.pc.Register? then 1 else 0)
  }

  lemma FillingAfter(m: Mem, a: History, t: nat, th: Thread)
    requires PoolInv(m, a) && ThreadInv(m, a, t, th) && OwnsBlock(th)
    requires th.pc.WriteNb? || th.pc.HighWrite? || th.pc.Unlock? || th.pc.SetNext?
    ensures Filling(Act(m, th).0, Act(m, th).1)
  {
    assert Private(m, a, th) && |Blk(m, th.tmp).slots| == BLOCK_SIZE && th.k == 0;
    hide AtEnd, LockedBy, LocInv, PoolInv, Kind;
  }

  lemma FillingInv(m: Mem, a: History, t: nat, th: Thread)
    requires th.to >= 0 && th.ts != MARKER && Private(m, a, th) && LocInv(m, a, th) && LockedBy(m, a, t, th) && Filling(m, th)
    requires (th.mode.NewBlock? && (th.pc.OutDeg? || th.pc.Unlock?)) || th.pc.SetNext? || th.pc.Register?
    ensures ThreadInv(m, a, t, th)
  {
    assert th.k == 0;
    hide LocInv, LockedBy, AtEnd, Kind, Blk, At;
  }

  lemma PrivateThread(s: State, a: History, t: nat)
    requires Enabled(s, t) && OwnsBlock(s.threads[t]) && PoolInv(s.m, a) && ClaimInit(s.m, a)
    requires ThreadInv(s.m, a, t, s.threads[t])
    requires var pc := s.threads[t].pc; pc.WriteNb? || pc.HighWrite? || pc.Unlock? || pc.SetNext?
    ensures ThreadInv(Act(s.m, s.threads[t]).0, a, t, Act(s.m, s.threads[t]).1)
  {
    var m, th := s.m, s.threads[t];
    PrivateAfter(s, a, t);
    FillingAfter(m, a, t, th);
    assert th.to >= 0 && th.ts != MARKER;
    hide Private, LockedBy, LocInv, Filling, PoolInv, ClaimInit, ThreadInv;
    FillingInv(Act(m, th).0, a, t, Act(m, th).1);
  }

  lemma SameChainLoc(m: Mem, a: History, m': Mem, th: Thread, th': Thread)
    requires SameChain(m, a, m') && LocInv(m, a, th) && !th.pc.BeginHead? && !th.pc.Done?
    requires th'.loc == th.loc && th'.to == th.to
    ensures LocInv(m', a, th')
  {
    SameChainFacts(m, a, m');
    hide SameChain, Blk, Kind;
  }

  lemma PrivateStep(s: State, a: History, t: nat)
    requires Inv(s, a) && Enabled(s, t) && OwnsBlock(s.threads[t])
    requires var pc := s.threads[t].pc; pc.WriteNb? || pc.HighWrite? || pc.Unlock? || pc.SetNext?
    ensures Inv(Step(s, t), Record(s, a, t))
  {
    hide *;
    Locks(s, a, t);
    PrivateFacts(s, a, t);
    PrivateThread(s, a, t);
    var m', th' := Act(s.m, s.threads[t]).0, Act(s.m, s.threads[t]).1;
    assert CountInv(m', a, s.threads[t := th']) by {
      InvCount(s, a);
      SameCount(s.m, a, m', s.threads, t, th');
    }
    forall u: nat | u < |s.threads| && u != t ensures !OwnsBlock(s.threads[u]) { Appending(s, a, t, u); }
    QuietStep(s, a, t, m', th');
  }

  lemma InvCount(s: State, a: History)
    requires Inv(s, a)
    ensures CountInv(s.m, a, s.threads)
  {
    hide ThreadInv;
  }

  lemma SameCount(m: Mem, a: History, m': Mem, threads: seq<Thread>, t: nat, th': Thread)
    requires t < |threads| && CountInv(m, a, threads) && m'.eta == m.eta
    requires m'.outdeg - m.outdeg == Ahead(th') - Ahead(threads[t]) == Made(th') - Made(threads[t])
    requires !threads[t].pc.Link? && !th'.pc.Link?
    ensures CountInv(m', a, threads[t := th'])
  {
    SumAheadSet(threads, t, th');
    assert Pending(a, threads[t := th']) == Pending(a, threads);
  }

  lemma SameChainSlot(m: Mem, a: History, m': Mem, th: Thread, th': Thread)
    requires SameChain(m, a, m') && ClaimInit(m, a) && AtSlot(m, a, th)
    requires th'.tmp == th.tmp && th'.k == th.k && th'.to == th.to
    ensures AtSlot(m', a, th')
  {
    SameChainFacts(m, a, m');
    hide SameChain, Blk, Kind, At, Filled;
  }

  // The out-degree is counted after the neighbor is written.
  lemma OutDegThread(m: Mem, a: History, t: nat, th: Thread)
    requires ThreadInv(m, a, t, th) && th.pc.OutDeg? && PoolInv(m, a) && ClaimInit(m, a)
    ensures ThreadInv(Act(m, th).0, a, t, Act(m, th).1)
  {
    hide Scanned, Clean, CleanUpTo, NotKind, Full, Pos;
    var m', th' := Act(m, th).0, Act(m, th).1;
    SameChainFacts(m, a, m');
    assert th.mode.NewBlock? ==> Private(m', a, th') by {
      assert forall j: nat :: At(m', th.tmp, j) == At(m, th.tmp, j);
      if th.mode.NewBlock? { PrivateKept(m, a, m', th, th'); }
    }
    assert th.mode.FreshSlot? ==> AtSlot(m', a, th') by {
      if th.mode.FreshSlot? { SameChainSlot(m, a, m', th, th'); }
    }
    assert LocInv(m', a, th') by { SameChainLoc(m, a, m', th, th'); }
    hide Private, AtSlot, LocInv, PoolInv, ClaimInit;
  }

  lemma OutDegFacts(s: State, a: History, t: nat)
    requires Enabled(s, t) && s.threads[t].pc.OutDeg? && PoolInv(s.m, a) && ThreadInv(s.m, a, t, s.threads[t])
    ensures var m, th := s.m, s.threads[t];
      var (m', th') := Act(m, th);
      && Step(s, t) == State(m', s.threads[t := th']) && Record(s, a, t) == a
      && PoolInv(m', a) && SameChain(m, a, m') && m'.blocks == m.blocks && m'.outdeg == m.outdeg + 1 && m'.eta == m.eta
      && StandsFast(th, th') && Ahead(th') == Ahead(th) + 1 && Made(th') == Made(th) + 1 && !th.pc.Link? && !th'.pc.Link?
  {
    assert s.threads[t].mode.FreshSlot? || s.threads[t].mode.NewBlock?;
    hide ThreadInv;
  }

  lemma OutDegStep(s: State, a: History, t: nat)
    requires Inv(s, a) && Enabled(s, t) && s.threads[t].pc.OutDeg?
    ensures Inv(Step(s, t), Record(s, a, t))
  {
    hide *;
    Locks(s, a, t);
    OutDegFacts(s, a, t);
    var m, th := s.m, s.threads[t];
    var m', th' := Act(m, th).0, Act(m, th).1;
    OutDegThread(m, a, t, th);
    InvCount(s, a);
    SameCount(m, a, m', s.threads, t, th');
    forall u: nat | u < |s.threads| && OwnsBlock(s.threads[u])
      ensures s.threads[u].tmp in m'.blocks && Blk(m', s.threads[u].tmp) == Blk(m, s.threads[u].tmp) && s.threads[u].tmp !in a.chain
    {
      OwnedBlock(s, a, u);
      SameBlk(m, m', s.threads[u].tmp);
    }
    QuietStep(s, a, t, m', th');
  }

  lemma SameBlk(m: Mem, m': Mem, b: nat)
    requires m'.blocks == m.blocks
    ensures Blk(m', b) == Blk(m, b)
  {
  }

  // push_ebs: the new block enters the edge type array before it is linked.
  lemma RegisterThread(m: Mem, a: History, t: nat, th: Thread)
    requires ThreadInv(m, a, t, th) && th.pc.Register? && PoolInv(m, a) && ClaimInit(m, a)
    ensures ThreadInv(Act(m, th).0, a, t, Act(m, th).1)
  {
    var m', th' := Act(m, th).0, Act(m, th).1;
    SameChainFacts(m, a, m');
    assert Private(m', a, th') by {
      assert forall j: nat :: At(m', th.tmp, j) == At(m, th.tmp, j);
      PrivateKept(m, a, m', th, th');
    }
    assert LocInv(m', a, th') by { SameChainLoc(m, a, m', th, th'); }
    hide Private, LocInv, PoolInv, ClaimInit;
  }

  lemma RegisterCount(m: Mem, a: History, m': Mem, threads: seq<Thread>, t: nat, th': Thread)
    requires t < |threads| && CountInv(m, a, threads) && m' == m.(eta := m.eta + [th'.tmp])
    requires Ahead(th') == Ahead(threads[t]) && Made(th') == Made(threads[t]) && !threads[t].pc.Link? && th'.pc.Link?
    requires EndLoc(a.chain) in a.ptrOwner && a.ptrOwner[EndLoc(a.chain)] == t
    ensures CountInv(m', a, threads[t := th'])
  {
    SumAheadSet(threads, t, th');
    assert Pending(a, threads) == [] && Pending(a, threads[t := th']) == [th'.tmp];
  }

  lemma EndHeld(m: Mem, a: History, t: nat, th: Thread)
    requires PoolInv(m, a) && ThreadInv(m, a, t, th) && (OwnsBlock(th) || th.pc.Alloc?)
    ensures th.ptr == EndLoc(a.chain) && th.ptr in a.ptrOwner && a.ptrOwner[th.ptr] == t
  {
    AppenderEnd(m, a, t, th);
    hide ThreadInv, OwnsBlock;
    if a.chain != [] { PosAt(a.chain, |a.chain| - 1); }
  }

  lemma RegisterFacts(s: State, a: History, t: nat)
    requires Enabled(s, t) && s.threads[t].pc.Register? && PoolInv(s.m, a)
    ensures var m, th := s.m, s.threads[t];
      var (m', th') := Act(m, th);
      && Step(s, t) == State(m', s.threads[t := th']) && Record(s, a, t) == a
      && PoolInv(m', a) && SameChain(m, a, m') && m' == m.(eta := m.eta + [th.tmp]) && th'.tmp == th.tmp
      && StandsFast(th, th') && Ahead(th') == Ahead(th) && Made(th') == Made(th) && !th.pc.Link? && th'.pc.Link? && OwnsBlock(th)
  {
  }

  lemma RegisterStep(s: State, a: History, t: nat)
    requires Inv(s, a) && Enabled(s, t) && s.threads[t].pc.Register?
    ensures Inv(Step(s, t), Record(s, a, t))
  {
    hide *;
    Locks(s, a, t);
    RegisterFacts(s, a, t);
    var m, th := s.m, s.threads[t];
    var m', th' := Act(m, th).0, Act(m, th).1;
    RegisterThread(m, a, t, th);
    InvCount(s, a);
    EndHeld(m, a, t, th);
    RegisterCount(m, a, m', s.threads, t, th');
    forall u: nat | u < |s.threads| && u != t ensures !OwnsBlock(s.threads[u]) { Appending(s, a, t, u); }
    QuietStep(s, a, t, m', th');
  }

  // new_eb: a zeroed block from the pool.
  lemma AllocThread(m: Mem, a: History, t: nat, th: Thread)
    requires ThreadInv(m, a, t, th) && th.pc.Alloc? && PoolInv(m, a) && ClaimInit(m, a)
    ensures ThreadInv(Act(m, th).0, a, t, Act(m, th).1)
    ensures PoolInv(Act(m, th).0, a) && SameChain(m, a, Act(m, th).0)
  {
    var m', th' := Act(m, th).0, Act(m, th).1;
    assert SameChain(m, a, m') && PoolInv(m', a);
    SameChainFacts(m, a, m');
    assert AtEnd(m', a, th') by {
      assert AtEnd(m, a, th) && th'.ptr == th.ptr && th'.to == th.to;
      SameChainEnd(m, a, m', th, th');
    }
    assert LocInv(m', a, th') by { SameChainLoc(m, a, m', th, th'); }
    assert LockedBy(m', a, t, th') by { hide AtEnd, LocInv, SameChain; }
    assert th'.pc.TestNb? ==> Private(m', a, th') && Blk(m', th'.tmp).high == 0 && At(m', th'.tmp, 0) == BLANK_SLOT
      by { hide ThreadInv, AtEnd, LocInv, ClaimInit, LockedBy; }
    hide Private, LocInv, PoolInv, ClaimInit, AtEnd, SameChain, LockedBy;
  }

  lemma SameChainEnd(m: Mem, a: History, m': Mem, th: Thread, th': Thread)
    requires SameChain(m, a, m') && ClaimInit(m, a) && AtEnd(m, a, th)
    requires th'.ptr == th.ptr && th'.to == th.to
    ensures AtEnd(m', a, th')
  {
    SameChainFacts(m, a, m');
    hide SameChain, Blk, Kind, At, Filled;
  }

  lemma AllocFacts(s: State, a: History, t: nat)
    requires Enabled(s, t) && s.threads[t].pc.Alloc?
    ensures var m, th := s.m, s.threads[t];
      var (m', th') := Act(m, th);
      && Step(s, t) == State(m', s.threads[t := th']) && Record(s, a, t) == a
      && m'.outdeg == m.outdeg && m'.eta == m.eta
      && StandsFast(th, th') && Ahead(th') == Ahead(th) && Made(th') == Made(th) && !th.pc.Link? && !th'.pc.Link?
  {
  }

  lemma AllocStep(s: State, a: History, t: nat)
    requires Inv(s, a) && Enabled(s, t) && s.threads[t].pc.Alloc?
    ensures Inv(Step(s, t), Record(s, a, t))
  {
    hide *;
    Locks(s, a, t);
    AllocFacts(s, a, t);
    var m, th := s.m, s.threads[t];
    var m', th' := Act(m, th).0, Act(m, th).1;
    AllocThread(m, a, t, th);
    InvCount(s, a);
    SameCount(m, a, m', s.threads, t, th');
    forall u: nat | u < |s.threads| && u != t ensures !OwnsBlock(s.threads[u]) { Appending(s, a, t, u); }
    QuietStep(s, a, t, m', th');
  }

  lemma InvCalls(s: State, a: History, t: nat)
    requires Inv(s, a) && t < |s.threads|
    ensures s.threads[t].to in a.calls
  {
    hide ThreadInv, PoolInv, PtrInv, ClaimInit, OrderInv, UniqueInv, CountInv, LockInv, ClaimInv;
  }

  // ---------------------------------------------------------------- claiming a slot

  // m' is m with the neighbor of one slot, which held no edge, replaced.
  ghost predicate Claims(m: Mem, m': Mem, b: nat, k: nat, to: int) {
    && m' == m.(blocks := m'.blocks) && m'.blocks.Keys == m.blocks.Keys
    && (forall c | c in m.blocks ::
          m'.blocks[c] == m.blocks[c].(slots := m'.blocks[c].slots) && |m'.blocks[c].slots| == |m.blocks[c].slots|)
    && (forall c | c != b :: Blk(m', c) == Blk(m, c))
    && (forall c: nat, j: nat | (c, j) != (b, k) :: At(m', c, j) == At(m, c, j))
    && At(m', b, k) == At(m, b, k).(neighbor := to)
    && !Filled(m, b, k) && b in m.blocks && k < BLOCK_SIZE && to >= 0
  }

  lemma ClaimsFacts(m: Mem, m': Mem, b: nat, k: nat, to: int)
    requires Claims(m, m', b, k, to)
    ensures forall c :: Blk(m', c).etype == Blk(m, c).etype && Blk(m', c).high == Blk(m, c).high && Blk(m', c).next == Blk(m, c).next
    ensures forall c :: Kind(m', c) == Kind(m, c)
    ensures forall l :: Word(m', l) == Word(m, l)
    ensures forall c: nat, j: nat :: At(m', c, j).timeFirst == At(m, c, j).timeFirst
    ensures forall c: nat, j: nat | (c, j) != (b, k) :: At(m', c, j) == At(m, c, j) && Filled(m', c, j) == Filled(m, c, j)
    ensures Filled(m', b, k) <==> k < Blk(m, b).high
    ensures forall c: nat, j: nat | Filled(m, c, j) :: (c, j) != (b, k)
  {
  }

  lemma ClaimsLocks(m: Mem, a: History, m': Mem, b: nat, k: nat, to: int, threads: seq<Thread>, t: nat, th': Thread)
    requires Claims(m, m', b, k, to) && t < |threads|
    requires HoldsPtr(th') == HoldsPtr(threads[t]) && (HoldsPtr(th') ==> th'.ptr == threads[t].ptr)
    requires HoldsSlot(th') == HoldsSlot(threads[t]) && (HoldsSlot(th') ==> th'.tmp == threads[t].tmp && th'.k == threads[t].k)
    requires PoolInv(m, a) && PtrInv(m, a, threads) && LockInv(m, a, threads)
    ensures var a' := a.(claimed := a.claimed + {(b, k)});
      PoolInv(m', a') && PtrInv(m', a', threads[t := th']) && LockInv(m', a', threads[t := th'])
  {
    ClaimsFacts(m, m', b, k, to);
    assert PoolInv(m', a.(claimed := a.claimed + {(b, k)}));
    hide PoolInv, Claims, Blk, Kind, At, Filled, Word, HoldsPtr, HoldsSlot;
  }

  lemma Unclaimed(m: Mem, a: History, threads: seq<Thread>, t: nat, b: nat, k: nat)
    requires ClaimInv(m, a, threads) && t < |threads| && !InFlight(threads[t])
    requires b in a.chain && k < BLOCK_SIZE && !Filled(m, b, k)
    requires (b, k) in a.slotOwner && a.slotOwner[(b, k)] == t
    ensures (b, k) !in a.claimed
  {
    hide Filled, InFlight;
  }

  lemma ClaimsClaimed(m: Mem, a: History, m': Mem, b: nat, k: nat, to: int, threads: seq<Thread>, t: nat, th': Thread)
    requires Claims(m, m', b, k, to) && t < |threads| && b in a.chain
    requires ClaimInv(m, a, threads) && ClaimInit(m, a)
    requires (b, k) in a.slotOwner && a.slotOwner[(b, k)] == t && InFlight(th') && !InFlight(threads[t])
    requires forall p | p in a.slotOwner && a.slotOwner[p] == t :: p == (b, k)
    ensures var a' := a.(claimed := a.claimed + {(b, k)}); ClaimInv(m', a', threads[t := th']) && ClaimInit(m', a')
  {
    ClaimsFacts(m, m', b, k, to);
    var a' := a.(claimed := a.claimed + {(b, k)});
    forall c: nat, j: nat | (c, j) != (b, k)
      ensures Claiming(a', threads[t := th'], c, j) == Claiming(a, threads, c, j)
    {
    }
    assert Claiming(a', threads[t := th'], b, k);
    hide Claims, Blk, Kind, At, Filled, Word, InFlight, Claiming;
  }

  // Slots before the claimed one are taken, and none of them, nor any later one, holds `to`.
  lemma ClaimsUnique(m: Mem, a: History, m': Mem, threads: seq<Thread>, th: Thread, q: (nat, nat))
    requires PoolInv(m, a) && ClaimInv(m, a, threads) && OrderInv(m, a) && AtSlot(m, a, th)
    requires q in a.claimed && Kind(m, q.0) && (th.tmp, th.k) !in a.claimed && !Filled(m, th.tmp, th.k)
    ensures At(m, q.0, q.1).neighbor != th.to
  {
    var i, j := Pos(a.chain, th.tmp), Pos(a.chain, q.0);
    assert q == (q.0, q.1);
    if q in a.initial {
    } else if j < i {
      assert Full(m, a.chain[j], BLOCK_SIZE, th.to);
    } else if j == i {
      assert q.0 == th.tmp && q.1 != th.k;
      assert q.1 < th.k;
    } else {
      assert false;
    }
  }

  lemma ClaimsOrder(m: Mem, a: History, m': Mem, threads: seq<Thread>, th: Thread)
    requires PoolInv(m, a) && ClaimInv(m, a, threads) && OrderInv(m, a) && UniqueInv(m, a) && AtSlot(m, a, th)
    requires Claims(m, m', th.tmp, th.k, th.to) && (th.tmp, th.k) !in a.claimed && th.to in a.calls
    ensures var a' := a.(claimed := a.claimed + {(th.tmp, th.k)}); OrderInv(m', a') && UniqueInv(m', a')
  {
    ClaimsFacts(m, m', th.tmp, th.k, th.to);
    var p := (th.tmp, th.k);
    var a' := a.(claimed := a.claimed + {p});
    assert OrderInv(m', a') by { hide Claims, UniqueInv, ClaimInv, PoolInv, At, Blk, Kind; }
    forall q | q in a.claimed && Kind(m, q.0) ensures At(m, q.0, q.1).neighbor != th.to {
      assert !Filled(m, th.tmp, th.k);
      ClaimsUnique(m, a, m', threads, th, q);
    }
    assert UniqueInv(m', a') by {
      hide OrderInv, ClaimInv, PoolInv, AtSlot, Claims, Blk, Kind, Filled;
      assert At(m', p.0, p.1).neighbor == th.to;
      forall q | q in a.claimed ensures At(m', q.0, q.1) == At(m, q.0, q.1) { assert q != p; assert (q.0, q.1) != (th.tmp, th.k); }
    }
  }

  lemma ClaimsSlot(m: Mem, a: History, m': Mem, th: Thread, th': Thread)
    requires PoolInv(m, a) && ClaimInit(m, a) && AtSlot(m, a, th)
    requires Claims(m, m', th.tmp, th.k, th.to) && th'.tmp == th.tmp && th'.k == th.k && th'.to == th.to
    ensures var a' := a.(claimed := a.claimed + {(th.tmp, th.k)}); AtSlot(m', a', th')
  {
    ClaimsFacts(m, m', th.tmp, th.k, th.to);
    hide Claims, At, Blk, Kind, Filled;
  }

  lemma ClaimsRely(m: Mem, a: History, m': Mem, b: nat, k: nat, to: int, t: nat, u: nat, th: Thread)
    requires Claims(m, m', b, k, to) && b in a.chain && u != t
    requires (b, k) in a.slotOwner && a.slotOwner[(b, k)] == t
    requires OwnsBlock(th) ==> th.tmp in m.blocks && th.tmp !in a.chain
    ensures Rely(m, a, m', a.(claimed := a.claimed + {(b, k)}), u, th)
  {
    ClaimsFacts(m, m', b, k, to);
    assert OwnsBlock(th) ==> th.tmp in m'.blocks && Blk(m', th.tmp) == Blk(m, th.tmp);
    hide Claims, At, Blk, Kind, Filled, OwnsBlock;
  }

  lemma WriteFacts(s: State, a: History, t: nat)
    requires Enabled(s, t) && s.threads[t].pc.WriteNb? && s.threads[t].mode.FreshSlot?
    requires PoolInv(s.m, a) && ThreadInv(s.m, a, t, s.threads[t])
    ensures var m, th := s.m, s.threads[t];
      var (m', th') := Act(m, th);
      && Step(s, t) == State(m', s.threads[t := th']) && Record(s, a, t) == a.(claimed := a.claimed + {(th.tmp, th.k)})
      && Claims(m, m', th.tmp, th.k, th.to) && AtSlot(m, a, th) && th.tmp in a.chain && th.k < BLOCK_SIZE
      && (th.tmp, th.k) in a.slotOwner && a.slotOwner[(th.tmp, th.k)] == t
      && !HoldsPtr(th) && !HoldsPtr(th') && HoldsSlot(th) && HoldsSlot(th') && th'.tmp == th.tmp && th'.k == th.k && th'.to == th.to
      && !InFlight(th) && InFlight(th') && Ahead(th) == 0 && Ahead(th') == -1 && Made(th') == Made(th) && !OwnsBlock(th)
      && m'.eta == m.eta && m'.outdeg == m.outdeg
  {
    var m, th := s.m, s.threads[t];
    assert AtSlot(m, a, th);
    HighBound(m, a, th.tmp);
    assert th.tmp in m.blocks;
    hide PoolInv, ThreadInv, Clean, Scanned, Full, Kind, Pos;
  }

  lemma WriteThread(s: State, a: History, t: nat)
    requires Enabled(s, t) && s.threads[t].pc.WriteNb? && s.threads[t].mode.FreshSlot?
    requires PoolInv(s.m, a) && ClaimInit(s.m, a) && ThreadInv(s.m, a, t, s.threads[t])
    ensures ThreadInv(Act(s.m, s.threads[t]).0, Record(s, a, t), t, Act(s.m, s.threads[t]).1)
  {
    var m, th := s.m, s.threads[t];
    WriteFacts(s, a, t);
    var m', th', a' := Act(m, th).0, Act(m, th).1, Record(s, a, t);
    ClaimsFacts(m, m', th.tmp, th.k, th.to);
    ClaimsSlot(m, a, m', th, th');
    assert At(m', th'.tmp, th'.k).neighbor == th'.to;
    assert LocInv(m', a', th') by { hide Claims, AtSlot, Blk, At, Filled, Kind; }
    assert Kind(m', th.tmp);
    hide Claims, AtSlot, Blk, At, LocInv, Filled, Kind, PoolInv, ClaimInit;
  }

  lemma WriteStep(s: State, a: History, t: nat)
    requires Inv(s, a) && Enabled(s, t) && s.threads[t].pc.WriteNb? && s.threads[t].mode.FreshSlot?
    ensures Inv(Step(s, t), Record(s, a, t))
  {
    hide *;
    Locks(s, a, t);
    InvParts(s, a);
    SharedParts(s.m, a, s.threads);
    WriteFacts(s, a, t);
    WriteThread(s, a, t);
    var m, th := s.m, s.threads[t];
    var m', th', a' := Act(m, th).0, Act(m, th).1, Record(s, a, t);
    NotFilled(m, m', th);
    Unclaimed(m, a, s.threads, t, th.tmp, th.k);
    OnlySlot(m, a, s.threads, t);
    InvCalls(s, a, t);
    ClaimsLocks(m, a, m', th.tmp, th.k, th.to, s.threads, t, th');
    ClaimsClaimed(m, a, m', th.tmp, th.k, th.to, s.threads, t, th');
    ClaimsOrder(m, a, m', s.threads, th);
    ClaimsCount(m, a, m', s.threads, t, th', (th.tmp, th.k));
    SharedBack(m', a', s.threads[t := th']);
    forall u: nat | u < |s.threads| && u != t ensures Rely(m, a, m', a', u, s.threads[u]) {
      OwnedBlock(s, a, u);
      ClaimsRely(m, a, m', th.tmp, th.k, th.to, t, u, s.threads[u]);
    }
    Assemble(s, a, t, m', th', a');
  }

  lemma NotFilled(m: Mem, m': Mem, th: Thread)
    requires Claims(m, m', th.tmp, th.k, th.to)
    ensures !Filled(m, th.tmp, th.k)
  {
  }

  lemma OnlySlot(m: Mem, a: History, threads: seq<Thread>, t: nat)
    requires LockInv(m, a, threads) && t < |threads|
    ensures forall p | p in a.slotOwner && a.slotOwner[p] == t :: p == (threads[t].tmp, threads[t].k)
  {
  }

  lemma ClaimsCount(m: Mem, a: History, m': Mem, threads: seq<Thread>, t: nat, th': Thread, p: (nat, nat))
    requires t < |threads| && CountInv(m, a, threads) && m'.eta == m.eta && m'.outdeg == m.outdeg
    requires p !in a.claimed && Ahead(th') == Ahead(threads[t]) - 1 && Made(th') == Made(threads[t]) && !HoldsPtr(th') && !HoldsPtr(threads[t])
    ensures CountInv(m', a.(claimed := a.claimed + {p}), threads[t := th'])
  {
    SumAheadSet(threads, t, th');
    var a' := a.(claimed := a.claimed + {p});
    assert Pending(a', threads[t := th']) == Pending(a, threads);
    assert |a'.claimed| == |a.claimed| + 1;
  }

  // ---------------------------------------------------------------- the high-water mark

  // m' is m with the high-water mark of one block moved from k to k + 1.
  ghost predicate Raises(m: Mem, m': Mem, b: nat, k: nat) {
    && m' == m.(blocks := m'.blocks) && m'.blocks.Keys == m.blocks.Keys && b in m.blocks && k < BLOCK_SIZE
    && m.blocks[b].high == k && m'.blocks[b] == m.blocks[b].(high := k + 1)
    && (forall c | c in m.blocks && c != b :: m'.blocks[c] == m.blocks[c])
  }

  lemma RaisesFacts(m: Mem, m': Mem, b: nat, k: nat)
    requires Raises(m, m', b, k)
    ensures forall c :: Blk(m', c).etype == Blk(m, c).etype && Blk(m', c).next == Blk(m, c).next
    ensures forall c :: Kind(m', c) == Kind(m, c)
    ensures forall c :: Blk(m, c).high <= Blk(m', c).high
    ensures forall l :: Word(m', l) == Word(m, l)
    ensures forall c: nat, j: nat :: At(m', c, j) == At(m, c, j)
    ensures forall c: nat, j: nat | (c, j) != (b, k) ::
              Filled(m', c, j) == Filled(m, c, j) && (j < Blk(m, c).high <==> j < Blk(m', c).high) &&
              (Blk(m, c).high == j ==> Blk(m', c).high == j)
    ensures !Filled(m, b, k) && (Filled(m', b, k) <==> At(m, b, k).neighbor >= 0)
  {
  }

  lemma RaisesLocks(m: Mem, a: History, m': Mem, b: nat, k: nat, threads: seq<Thread>, t: nat, th': Thread)
    requires Raises(m, m', b, k) && t < |threads| && SameStanding(threads[t], th')
    requires PoolInv(m, a) && PtrInv(m, a, threads) && LockInv(m, a, threads)
    ensures PoolInv(m', a) && PtrInv(m', a, threads[t := th']) && LockInv(m', a, threads[t := th'])
  {
    RaisesFacts(m, m', b, k);
    assert PoolInv(m', a);
    hide PoolInv, Raises, Blk, Kind, At, Filled, Word, HoldsPtr, HoldsSlot;
  }

  lemma RaisesClaims(m: Mem, a: History, m': Mem, b: nat, k: nat, threads: seq<Thread>, t: nat, th': Thread)
    requires Raises(m, m', b, k) && t < |threads| && SameStanding(threads[t], th')
    requires ClaimInv(m, a, threads) && ClaimInit(m, a) && OrderInv(m, a) && UniqueInv(m, a) && PoolInv(m, a)
    requires InFlight(threads[t]) && (b, k) in a.slotOwner && a.slotOwner[(b, k)] == t && b in a.chain
    ensures ClaimInv(m', a, threads[t := th']) && ClaimInit(m', a) && OrderInv(m', a) && UniqueInv(m', a)
  {
    RaisesFacts(m, m', b, k);
    forall c: nat, j: nat ensures Claiming(a, threads[t := th'], c, j) == Claiming(a, threads, c, j) {}
    assert Claiming(a, threads, b, k);
    hide Raises, Blk, Kind, At, Filled, Word, InFlight, Claiming, PoolInv;
    assert ClaimInv(m', a, threads[t := th']) && ClaimInit(m', a) by { hide OrderInv, UniqueInv; }
    assert OrderInv(m', a) by { hide ClaimInv, UniqueInv; }
  }

  lemma RaisesRely(m: Mem, a: History, m': Mem, b: nat, k: nat, t: nat, u: nat, th: Thread)
    requires Raises(m, m', b, k) && b in a.chain && u != t
    requires (b, k) in a.slotOwner && a.slotOwner[(b, k)] == t
    requires OwnsBlock(th) ==> th.tmp in m.blocks && th.tmp !in a.chain
    ensures Rely(m, a, m', a, u, th)
  {
    RaisesFacts(m, m', b, k);
    assert OwnsBlock(th) ==> th.tmp in m'.blocks && Blk(m', th.tmp) == Blk(m, th.tmp);
    hide Raises, At, Blk, Kind, Filled, OwnsBlock;
    forall p | p in a.slotOwner && a.slotOwner[p] == u ensures (p.0, p.1) != (b, k) {}
  }

  lemma RaiseFacts(s: State, a: History, t: nat)
    requires Enabled(s, t) && s.threads[t].pc.HighWrite? && s.threads[t].mode.FreshSlot?
    requires PoolInv(s.m, a) && ThreadInv(s.m, a, t, s.threads[t])
    ensures var m, th := s.m, s.threads[t];
      var (m', th') := Act(m, th);
      && Step(s, t) == State(m', s.threads[t := th']) && Record(s, a, t) == a
      && Raises(m, m', th.tmp, th.k) && AtSlot(m, a, th) && th.tmp in a.chain && At(m, th.tmp, th.k).neighbor == th.to
      && (th.tmp, th.k) in a.slotOwner && a.slotOwner[(th.tmp, th.k)] == t
      && SameStanding(th, th') && InFlight(th) && th' == th.(pc := Unlock) && !OwnsBlock(th)
      && m'.eta == m.eta && m'.outdeg == m.outdeg
  {
    var m, th := s.m, s.threads[t];
    assert AtSlot(m, a, th);
    HighBound(m, a, th.tmp);
    assert th.tmp in m.blocks;
    hide PoolInv, ThreadInv, Clean, Scanned, Full, Kind, Pos;
  }

  lemma RaiseThread(s: State, a: History, t: nat)
    requires Enabled(s, t) && s.threads[t].pc.HighWrite? && s.threads[t].mode.FreshSlot?
    requires PoolInv(s.m, a) && ClaimInit(s.m, a) && ThreadInv(s.m, a, t, s.threads[t])
    ensures ThreadInv(Act(s.m, s.threads[t]).0, a, t, Act(s.m, s.threads[t]).1)
  {
    var m, th := s.m, s.threads[t];
    RaiseFacts(s, a, t);
    var m', th' := Act(m, th).0, Act(m, th).1;
    RaisesFacts(m, m', th.tmp, th.k);
    assert AtSlot(m', a, th') by { hide Raises, At, Blk, Kind, Filled, ThreadInv; }
    assert LocInv(m', a, th') by { hide Raises, AtSlot, Blk, At, Filled, Kind; }
    assert Blk(m', th.tmp).high == th.k + 1 && Kind(m', th.tmp) && At(m', th'.tmp, th'.k).neighbor == th'.to;
    hide Raises, AtSlot, Blk, At, LocInv, Filled, Kind, PoolInv, ClaimInit;
  }

  lemma RaiseStep(s: State, a: History, t: nat)
    requires Inv(s, a) && Enabled(s, t) && s.threads[t].pc.HighWrite? && s.threads[t].mode.FreshSlot?
    ensures Inv(Step(s, t), Record(s, a, t))
  {
    hide *;
    Locks(s, a, t);
    InvParts(s, a);
    SharedParts(s.m, a, s.threads);
    RaiseFacts(s, a, t);
    RaiseThread(s, a, t);
    var m, th := s.m, s.threads[t];
    var m', th' := Act(m, th).0, Act(m, th).1;
    RaisesLocks(m, a, m', th.tmp, th.k, s.threads, t, th');
    RaisesClaims(m, a, m', th.tmp, th.k, s.threads, t, th');
    StandingCount(m, a, m', s.threads, t, th');
    SharedBack(m', a, s.threads[t := th']);
    forall u: nat | u < |s.threads| && u != t ensures Rely(m, a, m', a, u, s.threads[u]) {
      OwnedBlock(s, a, u);
      RaisesRely(m, a, m', th.tmp, th.k, t, u, s.threads[u]);
    }
    Assemble(s, a, t, m', th', a);
  }

  lemma StandingCount(m: Mem, a: History, m': Mem, threads: seq<Thread>, t: nat, th': Thread)
    requires t < |threads| && CountInv(m, a, threads) && m'.eta == m.eta && m'.outdeg == m.outdeg
    requires SameStanding(threads[t], th')
    ensures CountInv(m', a, threads[t := th'])
  {
    SameCount(m, a, m', threads, t, th');
  }

  // ---------------------------------------------------------------- locking the last pointer

  // m' is m with one pointer word replaced.
  ghost predicate Repoints(m: Mem, m': Mem, l: Loc, w: int) {
    m' == SetWord(m, l, w) && (l.NextOf? ==> l.b in m.blocks)
  }

  lemma RepointsFacts(m: Mem, m': Mem, l: Loc, w: int)
    requires Repoints(m, m', l, w)
    ensures m' == m.(head := m'.head, blocks := m'.blocks) && m'.blocks.Keys == m.blocks.Keys
    ensures forall c :: Blk(m', c) == Blk(m, c).(next := Blk(m', c).next)
    ensures forall c | l != NextOf(c) :: Blk(m', c) == Blk(m, c)
    ensures forall c :: Kind(m', c) == Kind(m, c)
    ensures forall c: nat, j: nat :: At(m', c, j) == At(m, c, j) && Filled(m', c, j) == Filled(m, c, j)
    ensures forall x :: Word(m', x) == if x == l then w else Word(m, x)
  {
  }

  lemma RepointsPool(m: Mem, a: History, m': Mem, l: Loc, w: int)
    requires Repoints(m, m', l, w) && PoolInv(m, a)
    ensures PoolInv(m', a)
  {
  }

  lemma RepointsClaims(m: Mem, a: History, m': Mem, l: Loc, w: int, a': History, threads: seq<Thread>, t: nat, th': Thread)
    requires Repoints(m, m', l, w) && a' == a.(ptrOwner := a'.ptrOwner) && t < |threads|
    requires LockInv(m, a, threads) && ClaimInv(m, a, threads) && ClaimInit(m, a) && OrderInv(m, a) && UniqueInv(m, a)
    requires !HoldsSlot(threads[t]) && !HoldsSlot(th') && !InFlight(threads[t]) && !InFlight(th')
    ensures LockInv(m', a', threads[t := th']) && ClaimInv(m', a', threads[t := th']) && ClaimInit(m', a')
    ensures OrderInv(m', a') && UniqueInv(m', a')
  {
    RepointsFacts(m, m', l, w);
    forall b, k: nat ensures Claiming(a', threads[t := th'], b, k) == Claiming(a, threads, b, k) {}
    hide Repoints, Blk, At, Kind, Filled, Word, HoldsSlot, InFlight, Claiming;
    assert LockInv(m', a', threads[t := th']) by { hide ClaimInv, OrderInv, UniqueInv; }
    assert ClaimInv(m', a', threads[t := th']) by { hide LockInv, OrderInv, UniqueInv; }
    assert OrderInv(m', a') by { hide LockInv, ClaimInv, UniqueInv; }
  }

  lemma RepointsRely(m: Mem, a: History, m': Mem, l: Loc, w: int, a': History, u: nat, th: Thread)
    requires Repoints(m, m', l, w) && a' == a.(ptrOwner := a'.ptrOwner) && LocOk(a.chain, l)
    requires forall x | x in a.ptrOwner && a.ptrOwner[x] == u :: x in a'.ptrOwner && a'.ptrOwner[x] == u
    requires OwnsBlock(th) ==> th.tmp in m.blocks && th.tmp !in a.chain
    ensures Rely(m, a, m', a', u, th)
  {
    RepointsFacts(m, m', l, w);
    assert OwnsBlock(th) ==> th.tmp in m'.blocks && Blk(m', th.tmp) == Blk(m, th.tmp);
    hide Repoints, At, Kind, Filled, Word, OwnsBlock, Pos;
  }

  lemma RepointsScans(m: Mem, a: History, m': Mem, l: Loc, w: int, a': History, th: Thread, n: nat)
    requires Repoints(m, m', l, w) && a' == a.(ptrOwner := a'.ptrOwner) && n <= |a.chain|
    ensures Scanned(m, a, n, th.to) ==> Scanned(m', a', n, th.to)
    ensures Clean(m, a, th.to) ==> Clean(m', a', th.to)
    ensures NotKind(m, a, n) ==> NotKind(m', a', n)
  {
    RepointsFacts(m, m', l, w);
    hide Repoints, At, Kind, Filled, Word, Blk;
  }

  lemma AcquireFacts(s: State, a: History, t: nat)
    requires Enabled(s, t) && s.threads[t].pc.P3Lock?
    requires PoolInv(s.m, a) && PtrInv(s.m, a, s.threads) && ThreadInv(s.m, a, t, s.threads[t])
    ensures var m, th := s.m, s.threads[t];
      var (m', th') := Act(m, th);
      && Step(s, t) == State(m', s.threads[t := th']) && Record(s, a, t) == a.(ptrOwner := a.ptrOwner[th.ptr := t])
      && Repoints(m, m', th.ptr, MARKER) && LocOk(a.chain, th.ptr) && th.ptr !in a.ptrOwner
      && !HoldsSlot(th) && !HoldsSlot(th') && !InFlight(th) && !InFlight(th') && !HoldsPtr(th) && HoldsPtr(th')
      && th'.ptr == th.ptr && th'.held == Succ(a.chain, th.ptr) && th'.to == th.to && th'.ts == th.ts && th'.loc == th.loc
      && Ahead(th) == 0 && Ahead(th') == 0 && Made(th) == Made(th') && !th.pc.Link? && !th'.pc.Link?
      && (if th'.held == 0 then th'.pc.Alloc? && LocEnd(a.chain, th.ptr) == |a.chain| else th'.pc.P3Release?)
      && Clean(m, a, th.to) && Scanned(m, a, LocEnd(a.chain, th.ptr), th.to) && Going(m, a, th)
  {
    var m, th := s.m, s.threads[t];
    assert th.ptr in a.ptrOwner ==> Word(m, th.ptr) == MARKER;
    WordRead(m, a, s.threads, th.ptr);
    assert Succ(a.chain, th.ptr) == 0 ==> LocEnd(a.chain, th.ptr) == |a.chain| by {
      var n := LocEnd(a.chain, th.ptr);
      if n < |a.chain| { assert a.chain[n] in a.chain; }
    }
    hide PtrInv, Clean, Scanned, NotKind, Succ, Pos, Word;
  }

  lemma AcquireThread(s: State, a: History, t: nat)
    requires Enabled(s, t) && s.threads[t].pc.P3Lock?
    requires PoolInv(s.m, a) && PtrInv(s.m, a, s.threads) && ThreadInv(s.m, a, t, s.threads[t])
    ensures ThreadInv(Act(s.m, s.threads[t]).0, Record(s, a, t), t, Act(s.m, s.threads[t]).1)
  {
    assert t < |s.threads|;
    hide *;
    AcquireFacts(s, a, t);
    var m, th := s.m, s.threads[t];
    var m', th', a' := Act(m, th).0, Act(m, th).1, Record(s, a, t);
    assert LocOk(a.chain, th.loc) && LocOk(a.chain, th.ptr) by { GoingLoc(m, a, th); }
    GoingLoc(m, a, th);
    RepointsScans(m, a, m', th.ptr, MARKER, a', th, LocEnd(a.chain, th.ptr));
    RepointsScans(m, a, m', th.ptr, MARKER, a', th, LocEnd(a.chain, th.loc));
    assert m'.from == m.from by { RepointsFacts(m, m', th.ptr, MARKER); }
    AcquireIntro(m', a', t, th');
  }

  lemma AcquireIntro(m: Mem, a: History, t: nat, th: Thread)
    requires th.pc.Alloc? || th.pc.P3Release?
    requires th.to >= 0 && th.ts != MARKER && th.to != m.from && LocOk(a.chain, th.loc) && NotKind(m, a, LocEnd(a.chain, th.loc))
    requires LocOk(a.chain, th.ptr) && th.ptr in a.ptrOwner && a.ptrOwner[th.ptr] == t
    requires Clean(m, a, th.to) && Scanned(m, a, LocEnd(a.chain, th.ptr), th.to) && th.held == Succ(a.chain, th.ptr)
    requires th.pc.Alloc? ==> LocEnd(a.chain, th.ptr) == |a.chain|
    ensures ThreadInv(m, a, t, th)
  {
    hide Clean, Scanned, NotKind, Succ, Pos;
  }

  lemma AcquirePtr(m: Mem, a: History, m': Mem, threads: seq<Thread>, t: nat, th': Thread)
    requires t < |threads| && PtrInv(m, a, threads) && Repoints(m, m', th'.ptr, MARKER) && LocOk(a.chain, th'.ptr)
    requires th'.ptr !in a.ptrOwner && HoldsPtr(th') && !HoldsPtr(threads[t])
    ensures PtrInv(m', a.(ptrOwner := a.ptrOwner[th'.ptr := t]), threads[t := th'])
  {
    RepointsFacts(m, m', th'.ptr, MARKER);
    hide Repoints, Word, Blk, At, Kind, Filled, HoldsPtr, Succ;
  }

  lemma AcquireStep(s: State, a: History, t: nat)
    requires Inv(s, a) && Enabled(s, t) && s.threads[t].pc.P3Lock?
    ensures Inv(Step(s, t), Record(s, a, t))
  {
    hide *;
    Locks(s, a, t);
    InvParts(s, a);
    SharedParts(s.m, a, s.threads);
    AcquireFacts(s, a, t);
    AcquireThread(s, a, t);
    var m, th := s.m, s.threads[t];
    var m', th', a' := Act(m, th).0, Act(m, th).1, Record(s, a, t);
    RepointsPool(m, a, m', th.ptr, MARKER);
    PoolOwners(m', a, a');
    RepointsClaims(m, a, m', th.ptr, MARKER, a', s.threads, t, th');
    AcquirePtr(m, a, m', s.threads, t, th');
    AcquireCount(m, a, m', s.threads, t, th');
    SharedBack(m', a', s.threads[t := th']);
    forall u: nat | u < |s.threads| && u != t ensures Rely(m, a, m', a', u, s.threads[u]) {
      OwnedBlock(s, a, u);
      RepointsRely(m, a, m', th.ptr, MARKER, a', u, s.threads[u]);
    }
    Assemble(s, a, t, m', th', a');
  }

  lemma PoolOwners(m: Mem, a: History, a': History)
    requires PoolInv(m, a) && a'.chain == a.chain
    ensures PoolInv(m, a')
  {
  }

  lemma AcquireCount(m: Mem, a: History, m': Mem, threads: seq<Thread>, t: nat, th': Thread)
    requires t < |threads| && CountInv(m, a, threads) && Repoints(m, m', th'.ptr, MARKER) && th'.ptr !in a.ptrOwner
    requires Ahead(th') == Ahead(threads[t]) && Made(th') == Made(threads[t]) && !threads[t].pc.Link? && !th'.pc.Link?
    ensures CountInv(m', a.(ptrOwner := a.ptrOwner[th'.ptr := t]), threads[t := th'])
  {
    var a' := a.(ptrOwner := a.ptrOwner[th'.ptr := t]);
    SumAheadSet(threads, t, th');
    assert Pending(a', threads[t := th']) == Pending(a, threads);
  }

  // ---------------------------------------------------------------- giving the pointer back

  lemma ReleaseFacts(s: State, a: History, t: nat)
    requires Enabled(s, t) && s.threads[t].pc.P3Release? && PoolInv(s.m, a) && ThreadInv(s.m, a, t, s.threads[t])
    ensures var m, th := s.m, s.threads[t];
      var (m', th') := Act(m, th);
      && Step(s, t) == State(m', s.threads[t := th']) && Record(s, a, t) == a.(ptrOwner := a.ptrOwner - {th.ptr})
      && Repoints(m, m', th.ptr, Succ(a.chain, th.ptr)) && LocOk(a.chain, th.ptr) && th.ptr in a.ptrOwner && a.ptrOwner[th.ptr] == t
      && !HoldsSlot(th) && !HoldsSlot(th') && !InFlight(th) && !InFlight(th') && !HoldsPtr(th') && th' == th.(pc := P2Start)
      && Ahead(th) == 0 && Ahead(th') == 0 && Made(th) == Made(th') && !th.pc.Link? && !th'.pc.Link?
      && Clean(m, a, th.to) && Going(m, a, th)
  {
    var m, th := s.m, s.threads[t];
    assert th.ptr.NextOf? ==> th.ptr.b in m.blocks;
    hide PoolInv, Clean, NotKind, Succ, Pos;
  }

  lemma ReleaseThread(s: State, a: History, t: nat)
    requires Enabled(s, t) && s.threads[t].pc.P3Release? && PoolInv(s.m, a) && ThreadInv(s.m, a, t, s.threads[t])
    ensures ThreadInv(Act(s.m, s.threads[t]).0, Record(s, a, t), t, Act(s.m, s.threads[t]).1)
  {
    assert t < |s.threads|;
    hide *;
    ReleaseFacts(s, a, t);
    var m, th := s.m, s.threads[t];
    var m', th', a' := Act(m, th).0, Act(m, th).1, Record(s, a, t);
    GoingLoc(m, a, th);
    RepointsScans(m, a, m', th.ptr, Succ(a.chain, th.ptr), a', th, LocEnd(a.chain, th.loc));
    assert m'.from == m.from by { RepointsFacts(m, m', th.ptr, Succ(a.chain, th.ptr)); }
    ReleaseIntro(m', a', t, th');
  }

  lemma ReleaseIntro(m: Mem, a: History, t: nat, th: Thread)
    requires th.pc.P2Start? && Clean(m, a, th.to)
    requires th.to >= 0 && th.ts != MARKER && th.to != m.from && LocOk(a.chain, th.loc) && NotKind(m, a, LocEnd(a.chain, th.loc))
    ensures ThreadInv(m, a, t, th)
  {
    hide Clean, NotKind, Pos;
  }

  lemma ReleasePtr(m: Mem, a: History, m': Mem, threads: seq<Thread>, t: nat, th': Thread)
    requires t < |threads| && PtrInv(m, a, threads) && LocOk(a.chain, th'.ptr)
    requires Repoints(m, m', th'.ptr, Succ(a.chain, th'.ptr))
    requires th'.ptr in a.ptrOwner && a.ptrOwner[th'.ptr] == t && !HoldsPtr(th')
    ensures PtrInv(m', a.(ptrOwner := a.ptrOwner - {th'.ptr}), threads[t := th'])
  {
    RepointsFacts(m, m', th'.ptr, Succ(a.chain, th'.ptr));
    hide Repoints, Word, Blk, At, Kind, Filled, HoldsPtr, Succ;
  }

  lemma ReleaseCount(m: Mem, a: History, m': Mem, w: int, threads: seq<Thread>, t: nat, th': Thread)
    requires t < |threads| && CountInv(m, a, threads) && Repoints(m, m', th'.ptr, w)
    requires th'.ptr in a.ptrOwner && a.ptrOwner[th'.ptr] == t
    requires Ahead(th') == Ahead(threads[t]) && Made(th') == Made(threads[t]) && !threads[t].pc.Link? && !th'.pc.Link?
    ensures CountInv(m', a.(ptrOwner := a.ptrOwner - {th'.ptr}), threads[t := th'])
  {
    var a' := a.(ptrOwner := a.ptrOwner - {th'.ptr});
    SumAheadSet(threads, t, th');
    assert Pending(a', threads[t := th']) == Pending(a, threads);
  }

  lemma ReleaseStep(s: State, a: History, t: nat)
    requires Inv(s, a) && Enabled(s, t) && s.threads[t].pc.P3Release?
    ensures Inv(Step(s, t), Record(s, a, t))
  {
    hide *;
    Locks(s, a, t);
    InvParts(s, a);
    SharedParts(s.m, a, s.threads);
    ReleaseFacts(s, a, t);
    ReleaseThread(s, a, t);
    var m, th := s.m, s.threads[t];
    var m', th', a' := Act(m, th).0, Act(m, th).1, Record(s, a, t);
    var w := Succ(a.chain, th.ptr);
    RepointsPool(m, a, m', th.ptr, w);
    PoolOwners(m', a, a');
    RepointsClaims(m, a, m', th.ptr, w, a', s.threads, t, th');
    ReleasePtr(m, a, m', s.threads, t, th');
    ReleaseCount(m, a, m', w, s.threads, t, th');
    SharedBack(m', a', s.threads[t := th']);
    forall u: nat | u < |s.threads| && u != t ensures Rely(m, a, m', a', u, s.threads[u]) {
      OwnedBlock(s, a, u);
      RepointsRely(m, a, m', th.ptr, w, a', u, s.threads[u]);
    }
    Assemble(s, a, t, m', th', a');
  }

  // ---------------------------------------------------------------- linking the new block

  lemma LinkFacts(s: State, a: History, t: nat)
    requires Enabled(s, t) && s.threads[t].pc.Link? && PoolInv(s.m, a) && ThreadInv(s.m, a, t, s.threads[t])
    ensures var m, th := s.m, s.threads[t];
      var (m', th') := Act(m, th);
      && Step(s, t) == State(m', s.threads[t := th'])
      && Record(s, a, t) == a.(ptrOwner := a.ptrOwner - {th.ptr}, chain := a.chain + [th.tmp], claimed := a.claimed + {(th.tmp, 0)})
      && Repoints(m, m', th.ptr, th.tmp) && Private(m, a, th)
      && Blk(m, th.tmp).high == 1 && At(m, th.tmp, 0).neighbor == th.to && th.to >= 0 && th.to != m.from && th.ts != MARKER
      && th.ptr in a.ptrOwner && a.ptrOwner[th.ptr] == t
      && !HoldsSlot(th) && !HoldsSlot(th') && !InFlight(th) && !InFlight(th') && !HoldsPtr(th')
      && th' == th.(pc := Done, result := 1) && Ahead(th) == 1 && Ahead(th') == 0 && Made(th) == Made(th') && OwnsBlock(th)
  {
    var m, th := s.m, s.threads[t];
    assert th.ptr.NextOf? ==> th.ptr.b in m.blocks;
    assert th.to != m.from;
    hide PoolInv, AtEnd, NotKind, Succ, Pos;
  }

  lemma LinkEnds(a: History, x: nat, ptr: Loc)
    requires Distinct(a.chain) && LocOk(a.chain, ptr) && LocEnd(a.chain, ptr) == |a.chain| && x !in a.chain
    ensures Distinct(a.chain + [x]) && a.chain <= a.chain + [x]
    ensures forall l | LocOk(a.chain, l) && l != ptr ::
              LocEnd(a.chain, l) < |a.chain| && Succ(a.chain + [x], l) == Succ(a.chain, l)
    ensures Succ(a.chain + [x], ptr) == x && Succ(a.chain + [x], NextOf(x)) == 0
    ensures forall b | b in a.chain :: Pos(a.chain + [x], b) == Pos(a.chain, b)
    ensures Pos(a.chain + [x], x) == |a.chain|
  {
    forall b | b in a.chain ensures Pos(a.chain + [x], b) == Pos(a.chain, b) { PosPrefix(a.chain, a.chain + [x], b); }
    PosAt(a.chain + [x], |a.chain|);
  }

  // The history after `th` has linked its block.
  function AfterLink(a: History, th: Thread): History {
    a.(ptrOwner := a.ptrOwner - {th.ptr}, chain := a.chain + [th.tmp], claimed := a.claimed + {(th.tmp, 0)})
  }

  ghost predicate Links(m: Mem, a: History, m': Mem, th: Thread) {
    && Repoints(m, m', th.ptr, th.tmp) && Private(m, a, th) && PoolInv(m, a) && ClaimInit(m, a)
    && Blk(m, th.tmp).high == 1 && At(m, th.tmp, 0).neighbor == th.to && th.to >= 0
  }

  // What linking does to memory, in the terms of the chain.
  lemma LinksFacts(m: Mem, a: History, m': Mem, th: Thread)
    requires Links(m, a, m', th)
    ensures LocOk(a.chain, th.ptr) && LocEnd(a.chain, th.ptr) == |a.chain| && th.tmp !in a.chain && Distinct(a.chain)
    ensures Clean(m, a, th.to) && Scanned(m, a, |a.chain|, th.to)
    ensures Kind(m, th.tmp) && Word(m, NextOf(th.tmp)) == 0 && th.ptr != NextOf(th.tmp)
    ensures forall j: nat | j < BLOCK_SIZE :: At(m, th.tmp, j).timeFirst != MARKER
    ensures forall j: nat :: Filled(m, th.tmp, j) <==> j == 0
  {
    forall j: nat | j < BLOCK_SIZE ensures At(m, th.tmp, j).timeFirst != MARKER {}
  }

  lemma LinkPool(m: Mem, a: History, m': Mem, th: Thread)
    requires Links(m, a, m', th)
    ensures PoolInv(m', AfterLink(a, th))
  {
    LinksFacts(m, a, m', th);
    LinkEnds(a, th.tmp, th.ptr);
    RepointsPool(m, a, m', th.ptr, th.tmp);
  }

  ghost predicate OwnersHere(a: History) {
    forall l | l in a.ptrOwner :: LocOk(a.chain, l)
  }

  lemma InvOwners(s: State, a: History)
    requires Inv(s, a)
    ensures OwnersHere(a)
  {
    forall l | l in a.ptrOwner ensures LocOk(a.chain, l) {
      assert ThreadInv(s.m, a, a.ptrOwner[l], s.threads[a.ptrOwner[l]]);
    }
  }

  // Every word of the longer chain, after the link.
  lemma LinkWord(m: Mem, a: History, m': Mem, th: Thread, l: Loc)
    requires Links(m, a, m', th) && LocOk(a.chain + [th.tmp], l)
    requires LocOk(a.chain, l) ==> Word(m, l) == if l in a.ptrOwner then MARKER else Succ(a.chain, l)
    requires NextOf(th.tmp) !in a.ptrOwner && th.ptr in a.ptrOwner
    ensures Word(m', l) == if l in a.ptrOwner - {th.ptr} then MARKER else Succ(a.chain + [th.tmp], l)
  {
    LinksFacts(m, a, m', th);
    LinkEnds(a, th.tmp, th.ptr);
    assert Repoints(m, m', th.ptr, th.tmp);
    RepointsFacts(m, m', th.ptr, th.tmp);
    assert l == NextOf(th.tmp) || LocOk(a.chain, l);
    hide Links, Repoints, Word, Blk, At, Kind, Filled, Succ, Distinct, Clean, Scanned, Pos, LocEnd;
  }

  lemma LinkPtr(m: Mem, a: History, m': Mem, threads: seq<Thread>, t: nat, th': Thread)
    requires t < |threads| && PtrInv(m, a, threads) && OwnersHere(a) && Links(m, a, m', threads[t])
    requires threads[t].ptr in a.ptrOwner && a.ptrOwner[threads[t].ptr] == t
    ensures PtrInv(m', AfterLink(a, threads[t]), threads[t := th'])
  {
    var th := threads[t];
    LinksFacts(m, a, m', th);
    assert !LocOk(a.chain, NextOf(th.tmp)) && NextOf(th.tmp) !in a.ptrOwner;
    hide Links, Word, HoldsPtr, Succ, Distinct, Clean, Scanned, LocEnd, Filled, Kind, At;
    forall l | LocOk(a.chain + [th.tmp], l)
      ensures Word(m', l) == if l in a.ptrOwner - {th.ptr} then MARKER else Succ(a.chain + [th.tmp], l)
    {
      LinkWord(m, a, m', th, l);
    }
  }

  lemma LinkLocks(m: Mem, a: History, m': Mem, threads: seq<Thread>, t: nat, th': Thread)
    requires t < |threads| && LockInv(m, a, threads) && LockChain(a) && Links(m, a, m', threads[t])
    requires !HoldsSlot(threads[t]) && !HoldsSlot(th')
    ensures LockInv(m', AfterLink(a, threads[t]), threads[t := th'])
  {
    var th := threads[t];
    LinksFacts(m, a, m', th);
    assert Repoints(m, m', th.ptr, th.tmp);
    RepointsFacts(m, m', th.ptr, th.tmp);
    assert forall j: nat :: (th.tmp, j) !in a.slotOwner by {
      forall j: nat ensures (th.tmp, j) !in a.slotOwner {
        var p := (th.tmp, j);
        assert p in a.slotOwner ==> p.0 in a.chain;
      }
    }
    hide Links, Repoints, Word, Blk, At, Kind, Filled, HoldsSlot, Distinct, Clean, Scanned, Pos;
  }

  lemma LinkClaims(m: Mem, a: History, m': Mem, threads: seq<Thread>, t: nat, th': Thread)
    requires t < |threads| && ClaimInv(m, a, threads) && LockChain(a) && Links(m, a, m', threads[t])
    requires !InFlight(threads[t]) && !InFlight(th')
    ensures ClaimInv(m', AfterLink(a, threads[t]), threads[t := th']) && ClaimInit(m', AfterLink(a, threads[t]))
  {
    var th := threads[t];
    var a' := AfterLink(a, th);
    LinksFacts(m, a, m', th);
    assert Repoints(m, m', th.ptr, th.tmp) && ClaimInit(m, a);
    RepointsFacts(m, m', th.ptr, th.tmp);
    forall b, k: nat ensures Claiming(a', threads[t := th'], b, k) == Claiming(a, threads, b, k) {}
    assert forall j: nat :: !Claiming(a, threads, th.tmp, j) by {
      forall j: nat ensures !Claiming(a, threads, th.tmp, j) { var p := (th.tmp, j); assert p in a.slotOwner ==> p.0 in a.chain; }
    }
    assert forall p | p in a.claimed :: p.0 != th.tmp;
    hide Links, Repoints, Word, Blk, At, Kind, Filled, InFlight, Distinct, Clean, Scanned, Pos, Claiming, LockChain;
  }

  // Every slot before the new block is taken, by another destination.
  lemma LinkFull(m: Mem, a: History, m': Mem, threads: seq<Thread>, th: Thread)
    requires ClaimInv(m, a, threads) && Links(m, a, m', th)
    ensures forall i | 0 <= i < |a.chain| && Kind(m, a.chain[i]) :: forall j: nat | j < BLOCK_SIZE :: Filled(m, a.chain[i], j)
    ensures forall q | q in a.claimed && Kind(m, q.0) :: At(m, q.0, q.1).neighbor != th.to && q.0 != th.tmp
  {
    LinksFacts(m, a, m', th);
    forall i | 0 <= i < |a.chain| && Kind(m, a.chain[i]) ensures forall j: nat | j < BLOCK_SIZE :: Filled(m, a.chain[i], j) {
      assert Full(m, a.chain[i], BLOCK_SIZE, th.to);
    }
    forall q | q in a.claimed && Kind(m, q.0) ensures At(m, q.0, q.1).neighbor != th.to && q.0 != th.tmp {
      var i := Pos(a.chain, q.0);
      assert Full(m, a.chain[i], BLOCK_SIZE, th.to);
    }
  }

  lemma LinkOrder(m: Mem, a: History, m': Mem, threads: seq<Thread>, th: Thread)
    requires ClaimInv(m, a, threads) && OrderInv(m, a) && Links(m, a, m', th)
    ensures OrderInv(m', AfterLink(a, th))
  {
    LinksFacts(m, a, m', th);
    LinkEnds(a, th.tmp, th.ptr);
    LinkFull(m, a, m', threads, th);
    assert Repoints(m, m', th.ptr, th.tmp) && ClaimInit(m, a);
    RepointsFacts(m, m', th.ptr, th.tmp);
    hide Links, Repoints, Word, Blk, At, Kind, Filled, Distinct, Clean, Scanned, Full, ClaimInv, LocEnd, Succ;
  }

  lemma LinkUnique(m: Mem, a: History, m': Mem, threads: seq<Thread>, th: Thread)
    requires ClaimInv(m, a, threads) && UniqueInv(m, a) && Links(m, a, m', th) && th.to in a.calls
    ensures UniqueInv(m', AfterLink(a, th))
  {
    LinkFull(m, a, m', threads, th);
    assert Repoints(m, m', th.ptr, th.tmp) && At(m, th.tmp, 0).neighbor == th.to;
    RepointsFacts(m, m', th.ptr, th.tmp);
    hide Links, Repoints, Word, Blk, At, Kind, Filled, Distinct, Clean, Scanned, Full, ClaimInv, LocEnd, Succ, Pos;
  }

  // Linking changes one word only, and no lock of another thread.
  lemma LinkChanges(m: Mem, a: History, m': Mem, t: nat, th: Thread)
    requires Links(m, a, m', th) && th.ptr in a.ptrOwner && a.ptrOwner[th.ptr] == t && OwnersHere(a)
    ensures var a' := AfterLink(a, th);
      && m'.from == m.from && m'.etype == m.etype && a.chain <= a'.chain && a'.initial == a.initial && a'.slotOwner == a.slotOwner
      && (forall c :: Blk(m', c) == Blk(m, c).(next := Blk(m', c).next))
      && (forall c: nat, j: nat :: At(m', c, j) == At(m, c, j) && Filled(m', c, j) == Filled(m, c, j))
      && (forall l | l in a.ptrOwner && a.ptrOwner[l] != t :: l in a'.ptrOwner && a'.ptrOwner[l] == a.ptrOwner[l] && LocOk(a.chain, l) && LocEnd(a.chain, l) < |a.chain|)
  {
    LinksFacts(m, a, m', th);
    LinkEnds(a, th.tmp, th.ptr);
    assert Repoints(m, m', th.ptr, th.tmp);
    RepointsFacts(m, m', th.ptr, th.tmp);
    hide Links, Repoints, Word, Blk, At, Kind, Filled, Distinct, Clean, Scanned, Succ, Pos, LocEnd;
  }

  lemma LinkRely(m: Mem, a: History, m': Mem, t: nat, th: Thread, u: nat, thu: Thread)
    requires Links(m, a, m', th) && u != t && th.ptr in a.ptrOwner && a.ptrOwner[th.ptr] == t && !OwnsBlock(thu)
    requires OwnersHere(a)
    ensures Rely(m, a, m', AfterLink(a, th), u, thu)
  {
    LinkChanges(m, a, m', t, th);
    hide Links, Blk, At, Filled, AfterLink, OwnersHere, LocOk, LocEnd, OwnsBlock;
  }

  lemma LinkCount(m: Mem, a: History, m': Mem, threads: seq<Thread>, t: nat, th': Thread)
    requires t < |threads| && CountInv(m, a, threads) && Links(m, a, m', threads[t]) && ClaimInv(m, a, threads) && OwnersHere(a)
    requires threads[t].ptr in a.ptrOwner && a.ptrOwner[threads[t].ptr] == t && threads[t].pc.Link?
    requires Ahead(threads[t]) == 1 && Ahead(th') == 0 && Made(threads[t]) == Made(th')
    ensures CountInv(m', AfterLink(a, threads[t]), threads[t := th'])
  {
    hide *;
    LinkPending(m, a, m', threads, t, th');
    SumAheadSet(threads, t, th');
    LinkSums(m, a, m', threads, t, th');
  }

  // The block about to be registered is the one that is linked.
  lemma LinkPending(m: Mem, a: History, m': Mem, threads: seq<Thread>, t: nat, th': Thread)
    requires t < |threads| && Links(m, a, m', threads[t]) && ClaimInv(m, a, threads) && OwnersHere(a)
    requires threads[t].ptr in a.ptrOwner && a.ptrOwner[threads[t].ptr] == t && threads[t].pc.Link?
    ensures m'.outdeg == m.outdeg && m'.eta == m.eta && (threads[t].tmp, 0) !in a.claimed
    ensures Pending(a, threads) == [threads[t].tmp] && Pending(AfterLink(a, threads[t]), threads[t := th']) == []
  {
    var th := threads[t];
    LinksFacts(m, a, m', th);
    assert Repoints(m, m', th.ptr, th.tmp);
    RepointsFacts(m, m', th.ptr, th.tmp);
    assert th.ptr == EndLoc(a.chain) by { if a.chain != [] { PosAt(a.chain, |a.chain| - 1); } }
    assert NextOf(th.tmp) !in a.ptrOwner;
  }

  lemma LinkSums(m: Mem, a: History, m': Mem, threads: seq<Thread>, t: nat, th': Thread)
    requires t < |threads| && CountInv(m, a, threads) && m'.outdeg == m.outdeg && m'.eta == m.eta && (threads[t].tmp, 0) !in a.claimed
    requires SumAhead(threads[t := th']) == SumAhead(threads) - 1 && SumMade(threads[t := th']) == SumMade(threads)
    requires Pending(a, threads) == [threads[t].tmp] && Pending(AfterLink(a, threads[t]), threads[t := th']) == []
    ensures CountInv(m', AfterLink(a, threads[t]), threads[t := th'])
  {
    hide SumAhead, SumMade, Pending;
    var a' := AfterLink(a, threads[t]);
    assert a'.chain[a.chain0..] == a.chain[a.chain0..] + [threads[t].tmp];
    assert |a'.claimed| == |a.claimed| + 1;
  }

  lemma LinkThread(m: Mem, a: History, m': Mem, t: nat, th: Thread, th': Thread)
    requires Links(m, a, m', th) && th' == th.(pc := Done, result := 1) && th.to != m.from && th.ts != MARKER
    ensures ThreadInv(m', AfterLink(a, th), t, th')
  {
    LinksFacts(m, a, m', th);
    assert Repoints(m, m', th.ptr, th.tmp) && At(m, th.tmp, 0).neighbor == th.to;
    RepointsFacts(m, m', th.ptr, th.tmp);
    assert m'.from == m.from && Holds(m', th.tmp, 0, th.to);
    assert th.tmp in AfterLink(a, th).chain;
    hide Links, Repoints, Holds, Clean, Scanned;
    DoneInv(m', AfterLink(a, th), t, th', th.tmp, 0);
  }

  lemma LinkStep(s: State, a: History, t: nat)
    requires Inv(s, a) && Enabled(s, t) && s.threads[t].pc.Link?
    ensures Inv(Step(s, t), Record(s, a, t))
  {
    hide *;
    Locks(s, a, t);
    InvParts(s, a);
    SharedParts(s.m, a, s.threads);
    InvOwners(s, a);
    LockInvChain(s, a);
    LinkFacts(s, a, t);
    InvCalls(s, a, t);
    var m, th := s.m, s.threads[t];
    var m', th', a' := Act(m, th).0, Act(m, th).1, Record(s, a, t);
    LinkBegins(m, a, m', th);
    LinkPool(m, a, m', th);
    LinkPtr(m, a, m', s.threads, t, th');
    LinkLocks(m, a, m', s.threads, t, th');
    LinkClaims(m, a, m', s.threads, t, th');
    LinkOrder(m, a, m', s.threads, th);
    LinkUnique(m, a, m', s.threads, th);
    LinkCount(m, a, m', s.threads, t, th');
    LinkThread(m, a, m', t, th, th');
    SharedBack(m', a', s.threads[t := th']);
    forall u: nat | u < |s.threads| && u != t ensures Rely(m, a, m', a', u, s.threads[u]) {
      Appending(s, a, t, u);
      LinkRely(m, a, m', t, th, u, s.threads[u]);
    }
    Assemble(s, a, t, m', th', a');
  }

  lemma LinkBegins(m: Mem, a: History, m': Mem, th: Thread)
    requires Repoints(m, m', th.ptr, th.tmp) && Private(m, a, th) && PoolInv(m, a) && ClaimInit(m, a)
    requires Blk(m, th.tmp).high == 1 && At(m, th.tmp, 0).neighbor == th.to && th.to >= 0
    ensures Links(m, a, m', th)
    ensures AfterLink(a, th) == a.(ptrOwner := a.ptrOwner - {th.ptr}, chain := a.chain + [th.tmp], claimed := a.claimed + {(th.tmp, 0)})
  {
  }
}
