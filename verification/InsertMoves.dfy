/**
 What one step of the insert protocol does to blocks, neighbors and claims.
 */
module InsertMoves {
  import opened InsertProtocol
  import opened InsertInvariant
  import opened InsertSteps

  // ---------------------------------------------------------------- what a step leaves of the blocks

  lemma EnabledThread(s: State, t: nat)
    requires Enabled(s, t)
    ensures t < |s.threads|
  {
    hide Blocked;
  }

  lemma StepIs(s: State, t: nat)
    requires Enabled(s, t)
    ensures Step(s, t) == State(Act(s.m, s.threads[t]).0, s.threads[t := Act(s.m, s.threads[t]).1])
  {
    hide Act, Enabled;
  }

  // What a step of the insert protocol by t leaves for the other calls' headers.
  ghost predicate Leaves(s: State, a: History, t: nat, m': Mem, a': History) {
    && t < |s.threads| && m'.etype == s.m.etype
    && (forall b | b in s.m.blocks :: b in m'.blocks && b < s.m.tail && Blk(m', b).etype == Blk(s.m, b).etype && Blk(s.m, b).high <= Blk(m', b).high)
    && (forall b | b in s.m.blocks && !(s.threads[t].pc.HighWrite? && b == s.threads[t].tmp) :: Blk(m', b).high == Blk(s.m, b).high)
    && a'.chain == (if s.threads[t].pc.Link? then a.chain + [s.threads[t].tmp] else a.chain)
    && (forall b | b in a.chain :: b in s.m.blocks)
  }

  lemma StepLeaves(s: State, a: History, t: nat)
    requires Inv(s, a) && Enabled(s, t)
    ensures Leaves(s, a, t, Step(s, t).m, Record(s, a, t))
  {
    hide *;
    EnabledThread(s, t);
    ChainInPool(s, a);
    BlocksBelow(s, a);
    if s.threads[t].pc.HighWrite? { HighRises(s, a, t); }
    ActMem(s.m, s.threads[t]);
    RecordChain(s, a, t);
    StepIs(s, t);
    MarksLeave(s, a, t, Step(s, t).m, Record(s, a, t));
  }

  lemma MarksLeave(s: State, a: History, t: nat, m': Mem, a': History)
    requires t < |s.threads| && MarksKept(s.m, m', if s.threads[t].pc.HighWrite? then {s.threads[t].tmp} else {})
    requires s.threads[t].pc.HighWrite? ==> Blk(s.m, s.threads[t].tmp).high <= Blk(m', s.threads[t].tmp).high
    requires a'.chain == (if s.threads[t].pc.Link? then a.chain + [s.threads[t].tmp] else a.chain)
    requires (forall b | b in s.m.blocks :: b < s.m.tail) && forall b | b in a.chain :: b in s.m.blocks
    ensures Leaves(s, a, t, m', a')
  {
    hide Blk;
  }

  // Memory m' has the blocks of m, with their types, and the marks of all but block b.
  ghost predicate MarksKept(m: Mem, m': Mem, but: set<nat>) {
    && m'.etype == m.etype && m.blocks.Keys <= m'.blocks.Keys
    && forall b | b in m.blocks :: Blk(m', b).etype == Blk(m, b).etype && (b !in but ==> Blk(m', b).high == Blk(m, b).high)
  }

  lemma ActMem(m: Mem, th: Thread)
    requires forall b | b in m.blocks :: b < m.tail
    ensures MarksKept(m, Act(m, th).0, if th.pc.HighWrite? then {th.tmp} else {})
    ensures th.pc.HighWrite? && th.tmp in m.blocks ==> Blk(Act(m, th).0, th.tmp).high == th.k + 1
  {
    hide Begin, Scan1, Scan2, NextSlot, Return, Blk, At, Kind, Word, SetWord, SetSlot, SetHigh, MarksKept;
    SetsKeep(m, th.ptr, MARKER, th.tmp, th.k + 1, At(m, th.tmp, th.k));
    match th.pc {
      case P2Lock => SetsKeep(m, Head, 0, th.tmp, th.k, At(m, th.tmp, th.k).(timeFirst := MARKER));
      case P2Unlock | Restore => SetsKeep(m, Head, 0, th.tmp, th.k, At(m, th.tmp, th.k).(timeFirst := th.timefirst));
      case Unlock => SetsKeep(m, Head, 0, th.tmp, th.k, At(m, th.tmp, th.k).(timeFirst := th.ts));
      case WriteNb => SetsKeep(m, Head, 0, th.tmp, th.k, At(m, th.tmp, th.k).(neighbor := th.to));
      case P3Release => SetsKeep(m, th.ptr, th.held, 0, 0, BLANK_SLOT);
      case SetNext => SetsKeep(m, NextOf(th.tmp), 0, 0, 0, BLANK_SLOT);
      case Link => SetsKeep(m, th.ptr, th.tmp, 0, 0, BLANK_SLOT);
      case HighWrite | P3Lock =>
      case _ => SameMarks(m, Act(m, th).0, th);
    }
  }

  lemma SameMarks(m: Mem, m': Mem, th: Thread)
    requires forall b | b in m.blocks :: b < m.tail
    requires m' == Act(m, th).0 && !th.pc.P2Lock? && !th.pc.P2Unlock? && !th.pc.Restore? && !th.pc.Unlock? && !th.pc.WriteNb? && !th.pc.P3Release?
    requires !th.pc.SetNext? && !th.pc.Link? && !th.pc.HighWrite? && !th.pc.P3Lock?
    ensures MarksKept(m, m', {})
  {
    hide Begin, Scan1, Scan2, NextSlot, Return, At, Kind, Word, SetWord, SetSlot, SetHigh;
  }

  lemma SetsKeep(m: Mem, l: Loc, w: int, b: nat, k: nat, s: Slot)
    ensures MarksKept(m, SetWord(m, l, w), {}) && MarksKept(m, SetSlot(m, b, k, s), {}) && MarksKept(m, SetHigh(m, b, k), {b})
    ensures b in m.blocks ==> Blk(SetHigh(m, b, k), b).high == k
  {
  }

  lemma RecordChain(s: State, a: History, t: nat)
    requires Enabled(s, t)
    ensures Record(s, a, t).chain == if s.threads[t].pc.Link? then a.chain + [s.threads[t].tmp] else a.chain
  {
    hide Enabled;
  }

  lemma HighRises(s: State, a: History, t: nat)
    requires Inv(s, a) && t < |s.threads| && s.threads[t].pc.HighWrite?
    ensures var th := s.threads[t]; th.tmp in s.m.blocks && Blk(s.m, th.tmp).high == th.k && (th.mode.FreshSlot? || (th.mode.NewBlock? && th.tmp !in a.chain))
  {
    assert ThreadInv(s.m, a, t, s.threads[t]);
    hide PtrInv, LockInv, ClaimInv, ClaimInit, OrderInv, UniqueInv, CountInv, CallsInv, LocInv, LookInv, FindInv, AppendInv, Clean, Scanned, Full;
  }

  lemma TidyLeaves(s: State, a: History, t: nat, m': Mem, a': History, b: nat)
    requires Leaves(s, a, t, m', a') && b in s.m.blocks
    ensures Blk(s.m, b).high <= Blk(m', b).high && Kind(m', b) == Kind(s.m, b) && b in m'.blocks && b < s.m.tail
    ensures !(s.threads[t].pc.HighWrite? && b == s.threads[t].tmp) ==> Blk(m', b).high == Blk(s.m, b).high
    ensures b in a.chain ==> b in a'.chain
  {
  }

  // ---------------------------------------------------------------- the block in hand

  lemma BlocksBelow(s: State, a: History)
    requires Inv(s, a)
    ensures forall b | b in s.m.blocks :: b < s.m.tail
  {
    InvPool(s, a);
    hide Inv;
  }

  lemma ChainInPool(s: State, a: History)
    requires Inv(s, a)
    ensures forall b | b in a.chain :: b in s.m.blocks && b < s.m.tail
  {
    InvPool(s, a);
    hide Inv;
  }

  // Where the block in hand is.
  lemma BlockInHand(s: State, a: History, u: nat)
    requires Inv(s, a) && u < |s.threads|
    ensures var th := s.threads[u];
      && (OwnsBlock(th) ==> th.tmp in s.m.blocks && th.tmp !in a.chain)
      && (Updating(th.pc) && !th.mode.NewBlock? ==> OnKind(s.m, a, th.tmp))
      && (Updating(th.pc) && th.mode.FreshSlot? ==> (th.tmp, th.k) in a.slotOwner && a.slotOwner[(th.tmp, th.k)] == u)
      && ((th.pc.OutDeg? || th.pc.HighTest? || th.pc.HighWrite? || th.pc.Unlock?) ==> th.mode.FreshSlot? || th.mode.NewBlock?)
  {
    OwnedBlock(s, a, u);
    hide PtrInv, LockInv, ClaimInv, ClaimInit, OrderInv, UniqueInv, CountInv, CallsInv, LocInv, LookInv, FindInv, AppendInv, Clean, Scanned, Full, Private;
    assert ThreadInv(s.m, a, u, s.threads[u]);
  }

  predicate OnKind(m: Mem, a: History, b: nat) { b in a.chain && b in m.blocks && Kind(m, b) }

  lemma OnKindIs(m: Mem, a: History, b: nat)
    ensures OnKind(m, a, b) <==> b in a.chain && b in m.blocks && Kind(m, b)
  {
  }

  lemma OwnsIs(th: Thread)
    ensures OwnsBlock(th) <==> th.pc.SetNext? || th.pc.Register? || th.pc.Link? || (Updating(th.pc) && th.mode.NewBlock?)
    ensures th.pc.OutDeg? ==> Updating(th.pc)
  {
  }

  // A call that comes to the stamps has its edge in a used block.
  lemma StampPlace(s: State, a: History, t: nat)
    requires Inv(s, a) && t < |s.threads| && (s.threads[t].pc.Existing? || s.threads[t].pc.Unlock?)
    ensures var th := s.threads[t];
      && (th.pc.Existing? ==> th.mode.Unlocked? || th.mode.Locked?) && (th.pc.Unlock? ==> th.mode.FreshSlot? || th.mode.NewBlock?)
      && (th.mode.NewBlock? || OnChain(s.m, a, th.tmp))
  {
    assert ThreadInv(s.m, a, t, s.threads[t]);
    hide PoolInv, PtrInv, LockInv, ClaimInv, ClaimInit, OrderInv, UniqueInv, CountInv, CallsInv, LocInv, LookInv, FindInv, AppendInv, Clean, Scanned, Full, Private, LockedBy;
  }

  ghost predicate OnChain(m: Mem, a: History, b: nat) {
    b in a.chain && Kind(m, b) && Blk(m, b).high > 0
  }

  // ---------------------------------------------------------------- neighbors

  // The neighbors of a step's memory.
  lemma ActNeighbor(m: Mem, th: Thread, b: nat, k: nat)
    requires b in m.blocks && b < m.tail
    ensures At(Act(m, th).0, b, k).neighbor == At(m, b, k).neighbor || (th.pc.WriteNb? && b == th.tmp && k == th.k)
    ensures Act(m, th).0.from == m.from
  {
    hide Begin, Scan1, Scan2, NextSlot, Return, Kind, Word, At, Blk, SetWord, SetSlot, SetHigh;
    WordNeighbor(m, th.ptr, MARKER, b, k);
    match th.pc {
      case P2Lock => SlotNeighbor(m, th.tmp, th.k, At(m, th.tmp, th.k).(timeFirst := MARKER), b, k);
      case P2Unlock | Restore => SlotNeighbor(m, th.tmp, th.k, At(m, th.tmp, th.k).(timeFirst := th.timefirst), b, k);
      case Unlock => SlotNeighbor(m, th.tmp, th.k, At(m, th.tmp, th.k).(timeFirst := th.ts), b, k);
      case WriteNb => SlotNeighbor(m, th.tmp, th.k, At(m, th.tmp, th.k).(neighbor := th.to), b, k);
      case P3Release => WordNeighbor(m, th.ptr, th.held, b, k);
      case SetNext => WordNeighbor(m, NextOf(th.tmp), 0, b, k);
      case Link => WordNeighbor(m, th.ptr, th.tmp, b, k);
      case HighWrite => HighNeighbor(m, th.tmp, th.k + 1, b, k);
      case Alloc => NewNeighbor(m, m.tail, FreshBlock(m.etype), b, k);
      case P3Lock =>
      case _ => SameBlocks(m, Act(m, th).0, b, k);
    }
  }

  lemma WordNeighbor(m: Mem, l: Loc, w: int, b: nat, k: nat)
    ensures At(SetWord(m, l, w), b, k) == At(m, b, k) && SetWord(m, l, w).from == m.from
  {
  }

  lemma SlotNeighbor(m: Mem, c: nat, j: nat, s: Slot, b: nat, k: nat)
    ensures At(SetSlot(m, c, j, s), b, k) == At(m, b, k) || (c == b && j == k && At(SetSlot(m, c, j, s), b, k) == s)
    ensures SetSlot(m, c, j, s).from == m.from
  {
  }

  lemma HighNeighbor(m: Mem, c: nat, h: nat, b: nat, k: nat)
    ensures At(SetHigh(m, c, h), b, k) == At(m, b, k) && SetHigh(m, c, h).from == m.from
  {
  }

  lemma NewNeighbor(m: Mem, c: nat, block: Block, b: nat, k: nat)
    requires b != c
    ensures At(m.(tail := m.tail + 1, blocks := m.blocks[c := block]), b, k) == At(m, b, k)
    ensures At(m.(tail := m.tail + 1, aborted := true), b, k) == At(m, b, k)
  {
  }

  lemma SameBlocks(m: Mem, m': Mem, b: nat, k: nat)
    requires m'.blocks == m.blocks
    ensures At(m', b, k) == At(m, b, k)
  {
  }

  // ---------------------------------------------------------------- claims

  lemma UpdatingIs(pc: Pc)
    ensures pc.WriteNb? || pc.OutDeg? || pc.HighTest? || pc.HighWrite? || pc.Unlock? ==> Updating(pc)
  {
  }

  lemma RecordClaims(s: State, a: History, t: nat)
    requires Enabled(s, t) && t < |s.threads|
    ensures var th, a' := s.threads[t], Record(s, a, t);
      a'.claimed == if th.pc.WriteNb? && th.mode.FreshSlot? then a.claimed + {(th.tmp, th.k)} else if th.pc.Link? then a.claimed + {(th.tmp, 0)} else a.claimed
  {
    hide Enabled;
  }

  lemma ClaimFacts(s: State, a: History, t: nat)
    requires Inv(s, a) && t < |s.threads|
    ensures var th := s.threads[t];
      && (th.pc.WriteNb? && th.mode.FreshSlot? ==> (th.tmp, th.k) !in a.claimed)
      && forall p | p in a.claimed :: p.0 in a.chain
  {
    var th := s.threads[t];
    if th.pc.WriteNb? && th.mode.FreshSlot? {
      WriteUnclaimed(s, a, t);
    }
    InvParts(s, a);
    hide Inv, PoolInv, PtrInv, LockInv, ClaimInit, OrderInv, UniqueInv, CountInv;
  }

  lemma WriteUnclaimed(s: State, a: History, t: nat)
    requires Inv(s, a) && t < |s.threads| && s.threads[t].pc.WriteNb? && s.threads[t].mode.FreshSlot?
    ensures (s.threads[t].tmp, s.threads[t].k) !in a.claimed
  {
    hide PoolInv, PtrInv, LockInv, ClaimInit, OrderInv, UniqueInv, CountInv, CallsInv, LocInv, LookInv, FindInv, AppendInv, Clean, Scanned, Full;
    var th := s.threads[t];
    assert AtSlot(s.m, a, th) && (At(s.m, th.tmp, th.k).neighbor < 0 || th.k >= Blk(s.m, th.tmp).high) && a.slotOwner[(th.tmp, th.k)] == t by {
      assert ThreadInv(s.m, a, t, th);
      hide PoolInv, PtrInv, LockInv, ClaimInv, ClaimInit, OrderInv, UniqueInv, CountInv, CallsInv, LocInv, LookInv, FindInv, AppendInv, Clean, Scanned, Full;
    }
    assert ClaimInv(s.m, a, s.threads);
    hide Inv, Clean, Scanned, Full;
    assert !Claiming(a, s.threads, th.tmp, th.k);
  }

  // The mode at each place of update_edge_data.
  lemma ModeHere(s: State, a: History, t: nat)
    requires Inv(s, a) && t < |s.threads|
    ensures var th := s.threads[t];
      && (th.pc.Existing? ==> th.mode.Unlocked? || th.mode.Locked?)
      && (th.pc.OutDeg? || th.pc.HighTest? || th.pc.HighWrite? || th.pc.Unlock? ==> th.mode.FreshSlot? || th.mode.NewBlock?)
  {
    BlockInHand(s, a, t);
    if s.threads[t].pc.Existing? { StampPlace(s, a, t); }
    hide Inv;
  }

  // A slot is claimed by this step.
  predicate NewlyClaims(th: Thread) {
    (th.pc.WriteNb? && th.mode.FreshSlot?) || th.pc.Link?
  }

  lemma NewlyClaimsIs(th: Thread)
    ensures NewlyClaims(th) <==> (th.pc.WriteNb? && th.mode.FreshSlot?) || th.pc.Link?
  {
  }

  // Claimed slots keep their neighbors.
  lemma ClaimKept(s: State, a: History, t: nat, p: (nat, nat))
    requires Inv(s, a) && Enabled(s, t) && p in a.claimed
    ensures Kind(Step(s, t).m, p.0) == Kind(s.m, p.0) && At(Step(s, t).m, p.0, p.1).neighbor == At(s.m, p.0, p.1).neighbor
  {
    hide *;
    EnabledThread(s, t);
    ChainInPool(s, a);
    StepLeaves(s, a, t);
    StepIs(s, t);
    ClaimFacts(s, a, t);
    TidyLeaves(s, a, t, Step(s, t).m, Record(s, a, t), p.0);
    var th := s.threads[t];
    ActNeighbor(s.m, th, p.0, p.1);
    if th.pc.WriteNb? && p == (th.tmp, th.k) {
      BlockInHand(s, a, t);
      OwnsIs(th);
      UpdatingIs(th.pc);
      WriteMode(s, a, t);
    }
  }

  lemma WriteMode(s: State, a: History, t: nat)
    requires Inv(s, a) && t < |s.threads| && s.threads[t].pc.WriteNb?
    ensures s.threads[t].mode.FreshSlot? || s.threads[t].mode.NewBlock?
  {
    hide PoolInv, PtrInv, LockInv, ClaimInv, ClaimInit, OrderInv, UniqueInv, CountInv, CallsInv, LocInv, LookInv, FindInv, AppendInv, Clean, Scanned, Full, Private, LockedBy;
    assert ThreadInv(s.m, a, t, s.threads[t]);
  }

  // The slot that a step claims.
  lemma NewClaim(s: State, a: History, t: nat) returns (p: (nat, nat))
    requires Inv(s, a) && Enabled(s, t) && t < |s.threads| && NewlyClaims(s.threads[t])
    ensures Record(s, a, t).claimed == a.claimed + {p} && p !in a.claimed
    ensures Kind(Step(s, t).m, p.0) && At(Step(s, t).m, p.0, p.1).neighbor == s.threads[t].to
  {
    hide *;
    var th := s.threads[t];
    NewlyClaimsIs(th);
    p := if th.pc.Link? then (th.tmp, 0) else (th.tmp, th.k);
    RecordClaims(s, a, t);
    ClaimFacts(s, a, t);
    StepIs(s, t);
    StepLeaves(s, a, t);
    BlocksBelow(s, a);
    BlockInHand(s, a, t);
    OwnsIs(th);
    UpdatingIs(th.pc);
    InvParts(s, a);
    InvThread(s, a, t);
    SharedParts(s.m, a, s.threads);
    if th.pc.Link? {
      LinkFacts(s, a, t);
      PrivateKind(s.m, a, th);
      ActNeighbor(s.m, th, th.tmp, 0);
      TidyLeaves(s, a, t, Step(s, t).m, Record(s, a, t), th.tmp);
    } else {
      WriteFacts(s, a, t);
      ClaimsThere(s.m, Step(s, t).m, th.tmp, th.k, th.to);
      OnKindIs(s.m, a, th.tmp);
      TidyLeaves(s, a, t, Step(s, t).m, Record(s, a, t), th.tmp);
    }
  }

  lemma ClaimsThere(m: Mem, m': Mem, b: nat, k: nat, to: int)
    requires Claims(m, m', b, k, to)
    ensures At(m', b, k).neighbor == to
  {
    hide At, Blk, Filled;
  }

  lemma PrivateKind(m: Mem, a: History, th: Thread)
    requires Private(m, a, th)
    ensures Kind(m, th.tmp)
  {
    hide Kind;
  }
}
