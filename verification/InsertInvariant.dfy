/**
 What every moment of a run satisfies, and why the steps of one thread do not disturb another.
 */
module InsertInvariant {
  import opened InsertProtocol

  // ---------------------------------------------------------------- history

  // chain: the blocks linked so far; claimed: the slots in them that hold an edge, counting a
  // slot from the moment its neighbor is written; initial: those claimed before the calls.
  // `initial` keeps their neighbors; `calls` are the destinations asked for.
  datatype History = History(chain: seq<nat>, claimed: set<(nat, nat)>, initial: map<(nat, nat), int>,
                             calls: set<int>, ptrOwner: map<Loc, nat>, slotOwner: map<(nat, nat), nat>,
                             chain0: nat, eta0: seq<nat>, outdeg0: int)

  function Record(s: State, a: History, t: nat): History {
    if !Enabled(s, t) then a
    else
      var th := s.threads[t];
      match th.pc
      case P2Lock => a.(slotOwner := a.slotOwner[(th.tmp, th.k) := t])
      case P2Unlock | Restore => a.(slotOwner := a.slotOwner - {(th.tmp, th.k)})
      case Unlock => if th.mode.FreshSlot? then a.(slotOwner := a.slotOwner - {(th.tmp, th.k)}) else a
      case WriteNb => if th.mode.FreshSlot? then a.(claimed := a.claimed + {(th.tmp, th.k)}) else a
      case P3Lock => a.(ptrOwner := a.ptrOwner[th.ptr := t])
      case P3Release => a.(ptrOwner := a.ptrOwner - {th.ptr})
      case Link => a.(ptrOwner := a.ptrOwner - {th.ptr}, chain := a.chain + [th.tmp],
                      claimed := a.claimed + {(th.tmp, 0)})
      case _ => a
  }

  // ---------------------------------------------------------------- invariant

  predicate Updating(pc: Pc) {
    pc.TestNb? || pc.TestHigh? || pc.Existing? || pc.WriteNb? || pc.OutDeg? || pc.HighTest? ||
    pc.HighWrite? || pc.Unlock?
  }

  predicate HoldsPtr(th: Thread) {
    th.pc.P3Release? || th.pc.Alloc? || th.pc.SetNext? || th.pc.Register? || th.pc.Link? ||
    (Updating(th.pc) && th.mode.NewBlock?)
  }

  predicate HoldsSlot(th: Thread) {
    th.pc.P2Recheck? || th.pc.P2RecheckHigh? || th.pc.P2Unlock? || th.pc.Restore? ||
    (Updating(th.pc) && (th.mode.Locked? || th.mode.FreshSlot?))
  }

  // The neighbor is written but the high-water mark may not cover it yet.
  predicate InFlight(th: Thread) {
    th.mode.FreshSlot? && (th.pc.OutDeg? || th.pc.HighTest? || th.pc.HighWrite? || th.pc.Unlock?)
  }

  // Degree increments made minus slots claimed, by this thread alone.
  function Ahead(th: Thread): int {
    if th.mode.FreshSlot? && th.pc.OutDeg? then -1
    else if (th.mode.NewBlock? && (th.pc.HighTest? || th.pc.HighWrite? || th.pc.Unlock?)) ||
            th.pc.SetNext? || th.pc.Register? || th.pc.Link? then 1
    else 0
  }

  function SumAhead(threads: seq<Thread>): int {
    if threads == [] then 0 else Ahead(threads[0]) + SumAhead(threads[1..])
  }

  // 1 once this thread has counted a new edge.
  function Made(th: Thread): int {
    if ((th.mode.NewBlock? || th.mode.FreshSlot?) && (th.pc.HighTest? || th.pc.HighWrite? || th.pc.Unlock?)) ||
       th.pc.SetNext? || th.pc.Register? || th.pc.Link? || (th.pc.Done? && th.result == 1) then 1 else 0
  }

  function SumMade(threads: seq<Thread>): int {
    if threads == [] then 0 else Made(threads[0]) + SumMade(threads[1..])
  }

  ghost predicate Full(m: Mem, b: nat, n: nat, to: int) {
    forall j: nat | j < n :: Filled(m, b, j) && At(m, b, j).neighbor != to
  }

  // The first n blocks of the chain hold no room and no edge to `to`.
  ghost predicate Scanned(m: Mem, a: History, n: nat, to: int)
    requires n <= |a.chain|
  {
    forall i | 0 <= i < n && Kind(m, a.chain[i]) :: Full(m, a.chain[i], BLOCK_SIZE, to)
  }

  ghost predicate NotKind(m: Mem, a: History, n: nat)
    requires n <= |a.chain|
  {
    forall i | 0 <= i < n :: !Kind(m, a.chain[i])
  }

  // No edge to `to` was there, in the first n blocks, before the calls.
  ghost predicate CleanUpTo(m: Mem, a: History, n: nat, to: int) {
    forall p | p in a.initial && Kind(m, p.0) && p.0 in a.chain && Pos(a.chain, p.0) < n ::
      At(m, p.0, p.1).neighbor != to
  }

  ghost predicate Clean(m: Mem, a: History, to: int) {
    forall p | p in a.initial && Kind(m, p.0) :: At(m, p.0, p.1).neighbor != to
  }

  ghost predicate AtSlot(m: Mem, a: History, th: Thread) {
    && th.tmp in a.chain && Kind(m, th.tmp) && th.k < BLOCK_SIZE
    && Clean(m, a, th.to) && Scanned(m, a, Pos(a.chain, th.tmp), th.to)
    && Full(m, th.tmp, th.k, th.to)
  }

  ghost predicate AtEnd(m: Mem, a: History, th: Thread) {
    && LocOk(a.chain, th.ptr) && LocEnd(a.chain, th.ptr) == |a.chain|
    && Clean(m, a, th.to) && Scanned(m, a, |a.chain|, th.to)
  }

  ghost predicate Private(m: Mem, a: History, th: Thread) {
    && AtEnd(m, a, th)
    && th.tmp !in a.chain && th.tmp in m.blocks && th.k == 0
    && Kind(m, th.tmp) && Blk(m, th.tmp).next == 0
    && (forall j: nat | j < BLOCK_SIZE :: At(m, th.tmp, j).timeFirst != MARKER)
  }

  ghost predicate UpdateInv(m: Mem, a: History, th: Thread)
  {
    var nb := At(m, th.tmp, th.k).neighbor;
    var h := Blk(m, th.tmp).high;
    match th.mode
    case Unlocked | Locked =>
      && (th.pc.TestNb? || th.pc.TestHigh? || th.pc.Existing?)
      && th.tmp in a.chain && Holds(m, th.tmp, th.k, th.to)
    case FreshSlot =>
      && AtSlot(m, a, th)
      && !th.pc.Existing?
      && (th.pc.TestNb? || th.pc.TestHigh? || th.pc.WriteNb? ==> nb < 0 || th.k >= h)
      && (th.pc.TestHigh? ==> nb >= 0)
      && (InFlight(th) ==> nb == th.to)
      && (th.pc.HighWrite? ==> h == th.k)
      && (th.pc.Unlock? ==> th.k < h)
    case NewBlock =>
      && Private(m, a, th)
      && !th.pc.Existing?
      && h == (if th.pc.Unlock? then 1 else 0)
      && (th.pc.TestNb? || th.pc.TestHigh? ==> nb >= 0)
      && (th.pc.OutDeg? || th.pc.HighTest? || th.pc.HighWrite? || th.pc.Unlock? ==> nb == th.to)
  }

  // What holds at each program point outside update_edge_data.
  ghost predicate LookInv(m: Mem, a: History, th: Thread) {
    match th.pc
    case BeginNext => th.tmp in a.chain && th.loc == NextOf(th.tmp)
    case P1High => th.tmp in a.chain && Kind(m, th.tmp) && CleanUpTo(m, a, Pos(a.chain, th.tmp), th.to)
    case P1Slot =>
      && th.tmp in a.chain && Kind(m, th.tmp) && CleanUpTo(m, a, Pos(a.chain, th.tmp), th.to)
      && th.k < th.endk <= Blk(m, th.tmp).high
      && (forall j: nat | (th.tmp, j) in a.initial ::
            j < th.endk && (j < th.k ==> At(m, th.tmp, j).neighbor != th.to))
    case P1Next => th.tmp in a.chain && CleanUpTo(m, a, Pos(a.chain, th.tmp) + 1, th.to)
    case _ => true
  }

  ghost predicate FindInv(m: Mem, a: History, th: Thread) {
    match th.pc
    case P2Start => Clean(m, a, th.to)
    case P2High => th.tmp in a.chain && Kind(m, th.tmp) && Clean(m, a, th.to) &&
                   Scanned(m, a, Pos(a.chain, th.tmp), th.to)
    case P2Slot => AtSlot(m, a, th) && th.endk <= Blk(m, th.tmp).high
    case P2Lock => AtSlot(m, a, th)
    case P2Recheck => AtSlot(m, a, th)
    case P2RecheckHigh => AtSlot(m, a, th) && th.seen == At(m, th.tmp, th.k).neighbor
    case P2Unlock => AtSlot(m, a, th) && th.endk <= Blk(m, th.tmp).high && Filled(m, th.tmp, th.k) && At(m, th.tmp, th.k).neighbor != th.to
    case P2Next => th.tmp in a.chain && Clean(m, a, th.to) &&
                   Scanned(m, a, Pos(a.chain, th.tmp) + 1, th.to)
    case _ => true
  }

  ghost predicate AppendInv(m: Mem, a: History, th: Thread) {
    match th.pc
    case P3Lock => LocOk(a.chain, th.ptr) && Clean(m, a, th.to) &&
                   Scanned(m, a, LocEnd(a.chain, th.ptr), th.to)
    case P3Release => LocOk(a.chain, th.ptr) && Clean(m, a, th.to) && th.held == Succ(a.chain, th.ptr)
    case Alloc => AtEnd(m, a, th)
    case SetNext | Register | Link =>
      Private(m, a, th) && Blk(m, th.tmp).high == 1 && At(m, th.tmp, 0).neighbor == th.to
    case Restore => th.to != m.from && Holds(m, th.tmp, th.k, th.to)
    case Done =>
      if th.to == m.from then th.result == -1
      else th.result in {0, 1} && exists b, k :: b in a.chain && Holds(m, b, k, th.to)
    case _ => true
  }

  ghost predicate LockedBy(m: Mem, a: History, t: nat, th: Thread) {
    && (HoldsPtr(th) ==> LocOk(a.chain, th.ptr) && th.ptr in a.ptrOwner && a.ptrOwner[th.ptr] == t)
    && (HoldsSlot(th) ==>
          && th.tmp in a.chain && Kind(m, th.tmp) && th.k < BLOCK_SIZE && th.timefirst != MARKER
          && (th.tmp, th.k) in a.slotOwner && a.slotOwner[(th.tmp, th.k)] == t)
  }

  ghost predicate LocInv(m: Mem, a: History, th: Thread) {
    !th.pc.BeginHead? && !th.pc.Done? ==>
      th.to != m.from && LocOk(a.chain, th.loc) && NotKind(m, a, LocEnd(a.chain, th.loc))
  }

  ghost predicate ThreadInv(m: Mem, a: History, t: nat, th: Thread) {
    && th.to >= 0 && th.ts != MARKER
    && LockedBy(m, a, t, th)
    && LocInv(m, a, th)
    && (Updating(th.pc) ==> UpdateInv(m, a, th))
    && LookInv(m, a, th) && FindInv(m, a, th) && AppendInv(m, a, th)
  }

  ghost predicate PoolInv(m: Mem, a: History) {
    && 1 <= m.tail
    && (forall b | b in m.blocks :: 1 <= b < m.tail && |m.blocks[b].slots| == BLOCK_SIZE && m.blocks[b].high <= BLOCK_SIZE)
    && Distinct(a.chain) && (forall b | b in a.chain :: b in m.blocks)
  }

  // Each pointer of the chain is the next block's index unless a thread holds it.
  ghost predicate PtrInv(m: Mem, a: History, threads: seq<Thread>) {
    && (forall l | LocOk(a.chain, l) :: Word(m, l) == if l in a.ptrOwner then MARKER else Succ(a.chain, l))
    && (forall l | l in a.ptrOwner ::
          a.ptrOwner[l] < |threads| && HoldsPtr(threads[a.ptrOwner[l]]) && threads[a.ptrOwner[l]].ptr == l)
  }

  ghost predicate LockInv(m: Mem, a: History, threads: seq<Thread>) {
    && (forall b, k: nat | b in a.chain && k < BLOCK_SIZE && Kind(m, b) ::
          At(m, b, k).timeFirst == MARKER <==> (b, k) in a.slotOwner)
    && (forall p | p in a.slotOwner ::
          && a.slotOwner[p] < |threads| && HoldsSlot(threads[a.slotOwner[p]])
          && threads[a.slotOwner[p]].tmp == p.0 && threads[a.slotOwner[p]].k == p.1)
  }

  ghost predicate Claiming(a: History, threads: seq<Thread>, b: nat, k: nat) {
    (b, k) in a.slotOwner && a.slotOwner[(b, k)] < |threads| && InFlight(threads[a.slotOwner[(b, k)]])
  }

  ghost predicate ClaimInv(m: Mem, a: History, threads: seq<Thread>) {
    && (forall p | p in a.claimed :: p.0 in a.chain && p.1 < BLOCK_SIZE)
    && (forall b, k: nat | b in a.chain && k < BLOCK_SIZE ::
          (b, k) in a.claimed <==> Filled(m, b, k) || Claiming(a, threads, b, k))
  }

  ghost predicate ClaimInit(m: Mem, a: History) {
    forall p | p in a.initial ::
      p.0 in a.chain && Filled(m, p.0, p.1) && At(m, p.0, p.1).neighbor == a.initial[p]
  }

  // Slots of a type are taken in chain order, apart from those taken before the calls.
  ghost predicate OrderInv(m: Mem, a: History) {
    forall p | p in a.claimed && p !in a.initial && Kind(m, p.0) && p.0 in a.chain ::
      && (forall j: nat | j < p.1 :: Filled(m, p.0, j))
      && (forall i: nat, j: nat | i < Pos(a.chain, p.0) && Kind(m, a.chain[i]) && j < BLOCK_SIZE :: Filled(m, a.chain[i], j))
  }

  // No destination is held twice, and every new one was asked for.
  ghost predicate UniqueInv(m: Mem, a: History) {
    && (forall p | p in a.claimed && p !in a.initial && Kind(m, p.0) :: At(m, p.0, p.1).neighbor in a.calls)
    && forall p, q | p in a.claimed && q in a.claimed && Kind(m, p.0) && Kind(m, q.0) && p != q ::
      At(m, p.0, p.1).neighbor != At(m, q.0, q.1).neighbor
  }

  function Pending(a: History, threads: seq<Thread>): seq<nat> {
    var l := EndLoc(a.chain);
    if l in a.ptrOwner && a.ptrOwner[l] < |threads| && threads[a.ptrOwner[l]].pc.Link?
    then [threads[a.ptrOwner[l]].tmp] else []
  }

  ghost predicate CountInv(m: Mem, a: History, threads: seq<Thread>) {
    && m.outdeg == |a.claimed| + SumAhead(threads)
    && m.outdeg == a.outdeg0 + SumMade(threads)
    && a.chain0 <= |a.chain|
    && m.eta == a.eta0 + a.chain[a.chain0..] + Pending(a, threads)
  }

  ghost predicate Inv(s: State, a: History) {
    && PoolInv(s.m, a)
    && PtrInv(s.m, a, s.threads)
    && LockInv(s.m, a, s.threads)
    && ClaimInv(s.m, a, s.threads) && ClaimInit(s.m, a)
    && OrderInv(s.m, a)
    && UniqueInv(s.m, a)
    && CountInv(s.m, a, s.threads)
    && CallsInv(a, s.threads)
    && forall t: nat | t < |s.threads| :: ThreadInv(s.m, a, t, s.threads[t])
  }

  ghost predicate CallsInv(a: History, threads: seq<Thread>) {
    forall t: nat | t < |threads| :: threads[t].to in a.calls
  }

  // ---------------------------------------------------------------- other threads

  lemma PosPrefix(chain: seq<nat>, chain': seq<nat>, b: nat)
    requires chain <= chain' && b in chain
    ensures b in chain' && Pos(chain', b) == Pos(chain, b)
  {
    var i := Pos(chain, b);
    assert chain'[i] == b;
    assert Pos(chain', b) <= i;
    assert chain[Pos(chain', b)] == chain'[Pos(chain', b)];
  }

  lemma PosAt(chain: seq<nat>, i: nat)
    requires Distinct(chain) && i < |chain|
    ensures Pos(chain, chain[i]) == i
  {
  }

  predicate OwnsBlock(th: Thread) {
    th.pc.SetNext? || th.pc.Register? || th.pc.Link? || (Updating(th.pc) && th.mode.NewBlock?)
  }

  // What a thread u may count on while another thread takes a step.
  ghost predicate Rely(m: Mem, a: History, m': Mem, a': History, u: nat, th: Thread) {
    && m'.from == m.from && m'.etype == m.etype
    && a.chain <= a'.chain && a'.initial == a.initial
    && (forall b | b in a.chain :: Blk(m', b).etype == Blk(m, b).etype && Blk(m, b).high <= Blk(m', b).high)
    && (forall b, k: nat | b in a.chain && Filled(m, b, k) ::
          Filled(m', b, k) && At(m', b, k).neighbor == At(m, b, k).neighbor)
    && (forall l | l in a.ptrOwner && a.ptrOwner[l] == u ::
          && l in a'.ptrOwner && a'.ptrOwner[l] == u
          && (LocOk(a.chain, l) && LocEnd(a.chain, l) == |a.chain| ==> a'.chain == a.chain))
    && (forall p | p in a.slotOwner && a.slotOwner[p] == u ::
          && p in a'.slotOwner && a'.slotOwner[p] == u
          && At(m', p.0, p.1).neighbor == At(m, p.0, p.1).neighbor
          && (p.1 < Blk(m, p.0).high <==> p.1 < Blk(m', p.0).high)
          && (Blk(m, p.0).high == p.1 ==> Blk(m', p.0).high == p.1))
    && (OwnsBlock(th) ==> th.tmp in m'.blocks && Blk(m', th.tmp) == Blk(m, th.tmp) && th.tmp !in a'.chain)
  }

  lemma RelyScans(m: Mem, a: History, m': Mem, a': History, u: nat, th: Thread, n: nat)
    requires PoolInv(m, a) && ClaimInit(m, a) && Rely(m, a, m', a', u, th)
    requires n <= |a.chain|
    ensures n <= |a'.chain|
    ensures Scanned(m, a, n, th.to) ==> Scanned(m', a', n, th.to)
    ensures NotKind(m, a, n) ==> NotKind(m', a', n)
    ensures Clean(m, a, th.to) ==> Clean(m', a', th.to)
    ensures CleanUpTo(m, a, n, th.to) ==> CleanUpTo(m', a', n, th.to)
  {
    forall b | b in a.chain ensures Pos(a'.chain, b) == Pos(a.chain, b) { PosPrefix(a.chain, a'.chain, b); }
    assert forall i | 0 <= i < n :: a'.chain[i] == a.chain[i];
  }

  lemma RelyLoc(m: Mem, a: History, m': Mem, a': History, u: nat, th: Thread, l: Loc)
    requires PoolInv(m, a) && ClaimInit(m, a) && Rely(m, a, m', a', u, th)
    requires LocOk(a.chain, l)
    ensures LocOk(a'.chain, l) && LocEnd(a'.chain, l) == LocEnd(a.chain, l)
    ensures Scanned(m, a, LocEnd(a.chain, l), th.to) ==> Scanned(m', a', LocEnd(a'.chain, l), th.to)
    ensures NotKind(m, a, LocEnd(a.chain, l)) ==> NotKind(m', a', LocEnd(a'.chain, l))
  {
    if l.NextOf? { PosPrefix(a.chain, a'.chain, l.b); }
    RelyScans(m, a, m', a', u, th, LocEnd(a.chain, l));
  }

  lemma RelyBlock(m: Mem, a: History, m': Mem, a': History, u: nat, th: Thread)
    requires PoolInv(m, a) && ClaimInit(m, a) && Rely(m, a, m', a', u, th)
    requires th.tmp in a.chain
    ensures th.tmp in a'.chain && Pos(a'.chain, th.tmp) == Pos(a.chain, th.tmp)
    ensures Kind(m', th.tmp) == Kind(m, th.tmp)
    ensures Clean(m, a, th.to) ==> Clean(m', a', th.to)
    ensures Scanned(m, a, Pos(a.chain, th.tmp), th.to) ==> Scanned(m', a', Pos(a'.chain, th.tmp), th.to)
    ensures CleanUpTo(m, a, Pos(a.chain, th.tmp), th.to) ==> CleanUpTo(m', a', Pos(a'.chain, th.tmp), th.to)
    ensures Scanned(m, a, Pos(a.chain, th.tmp) + 1, th.to) ==> Scanned(m', a', Pos(a'.chain, th.tmp) + 1, th.to)
    ensures CleanUpTo(m, a, Pos(a.chain, th.tmp) + 1, th.to) ==> CleanUpTo(m', a', Pos(a'.chain, th.tmp) + 1, th.to)
    ensures AtSlot(m, a, th) ==> AtSlot(m', a', th)
  {
    PosPrefix(a.chain, a'.chain, th.tmp);
    RelyScans(m, a, m', a', u, th, Pos(a.chain, th.tmp));
    RelyScans(m, a, m', a', u, th, Pos(a.chain, th.tmp) + 1);
  }

  lemma RelyEnd(m: Mem, a: History, m': Mem, a': History, u: nat, th: Thread)
    requires PoolInv(m, a) && ClaimInit(m, a) && Rely(m, a, m', a', u, th)
    requires HoldsPtr(th) && th.ptr in a.ptrOwner && a.ptrOwner[th.ptr] == u
    ensures AtEnd(m, a, th) ==> AtEnd(m', a', th)
    ensures OwnsBlock(th) && Private(m, a, th) ==> Private(m', a', th)
  {
    RelyScans(m, a, m', a', u, th, |a.chain|);
    assert OwnsBlock(th) ==> forall j: nat :: At(m', th.tmp, j) == At(m, th.tmp, j);
  }

  lemma RelyUpdate(m: Mem, a: History, m': Mem, a': History, u: nat, th: Thread)
    requires PoolInv(m, a) && ClaimInit(m, a) && ThreadInv(m, a, u, th)
    requires Rely(m, a, m', a', u, th) && Updating(th.pc)
    ensures UpdateInv(m', a', th)
  {
    match th.mode
    case Unlocked | Locked => RelyBlock(m, a, m', a', u, th);
    case FreshSlot => RelyBlock(m, a, m', a', u, th);
    case NewBlock => RelyEnd(m, a, m', a', u, th);
  }

  lemma RelyLook(m: Mem, a: History, m': Mem, a': History, u: nat, th: Thread)
    requires PoolInv(m, a) && ClaimInit(m, a) && ThreadInv(m, a, u, th)
    requires Rely(m, a, m', a', u, th)
    ensures LookInv(m', a', th)
  {
    if th.tmp in a.chain { RelyBlock(m, a, m', a', u, th); }
  }

  lemma RelyFind(m: Mem, a: History, m': Mem, a': History, u: nat, th: Thread)
    requires PoolInv(m, a) && ClaimInit(m, a) && ThreadInv(m, a, u, th)
    requires Rely(m, a, m', a', u, th)
    ensures FindInv(m', a', th)
  {
    if th.tmp in a.chain { RelyBlock(m, a, m', a', u, th); }
    RelyScans(m, a, m', a', u, th, 0);
  }

  lemma RelyAppend(m: Mem, a: History, m': Mem, a': History, u: nat, th: Thread)
    requires PoolInv(m, a) && ClaimInit(m, a) && ThreadInv(m, a, u, th)
    requires Rely(m, a, m', a', u, th)
    ensures AppendInv(m', a', th)
  {
    hide UpdateInv, LookInv, FindInv, LocInv, NotKind, CleanUpTo, Scanned, Clean, Private, AtEnd, ClaimInit, PoolInv, AtSlot, Full;
    if LocOk(a.chain, th.ptr) { RelyLoc(m, a, m', a', u, th, th.ptr); }
    RelyScans(m, a, m', a', u, th, 0);
    if HoldsPtr(th) { RelyEnd(m, a, m', a', u, th); }
    if th.pc.Done? && th.to != m.from {
      var b, k :| b in a.chain && Holds(m, b, k, th.to);
      assert b in a'.chain && Holds(m', b, k, th.to);
    }
  }

  lemma RelyKeeps(m: Mem, a: History, m': Mem, a': History, u: nat, th: Thread)
    requires PoolInv(m, a) && ClaimInit(m, a) && ThreadInv(m, a, u, th)
    requires Rely(m, a, m', a', u, th)
    ensures ThreadInv(m', a', u, th)
  {
    hide UpdateInv, LookInv, FindInv, AppendInv, NotKind, CleanUpTo, Scanned, Clean, Private, AtEnd, ClaimInit, PoolInv, AtSlot, Full;
    if Updating(th.pc) { RelyUpdate(m, a, m', a', u, th); }
    RelyLook(m, a, m', a', u, th);
    RelyFind(m, a, m', a', u, th);
    RelyAppend(m, a, m', a', u, th);
    if LocOk(a.chain, th.loc) { RelyLoc(m, a, m', a', u, th, th.loc); }
  }

  // ---------------------------------------------------------------- steps that only read

  lemma SumAheadSet(threads: seq<Thread>, t: nat, th: Thread)
    requires t < |threads|
    ensures SumMade(threads[t := th]) == SumMade(threads) - Made(threads[t]) + Made(th)
    ensures SumAhead(threads[t := th]) == SumAhead(threads) - Ahead(threads[t]) + Ahead(th)
  {
    if t > 0 {
      assert threads[t := th][1..] == threads[1..][t - 1 := th];
      SumAheadSet(threads[1..], t - 1, th);
    } else {
      assert threads[t := th][1..] == threads[1..];
    }
  }

  predicate SameStanding(th: Thread, th': Thread) {
    && HoldsPtr(th') == HoldsPtr(th) && (HoldsPtr(th) ==> th'.ptr == th.ptr)
    && HoldsSlot(th') == HoldsSlot(th) && (HoldsSlot(th) ==> th'.tmp == th.tmp && th'.k == th.k)
    && InFlight(th') == InFlight(th) && Ahead(th') == Ahead(th) && Made(th') == Made(th) && th'.to == th.to
    && !th.pc.Link? && !th'.pc.Link?
  }

  lemma LocalShared(m: Mem, a: History, threads: seq<Thread>, t: nat, th': Thread)
    requires t < |threads| && SameStanding(threads[t], th')
    requires PtrInv(m, a, threads) && LockInv(m, a, threads)
    ensures PtrInv(m, a, threads[t := th']) && LockInv(m, a, threads[t := th'])
  {
  }

  lemma LocalClaims(m: Mem, a: History, threads: seq<Thread>, t: nat, th': Thread)
    requires t < |threads| && SameStanding(threads[t], th')
    requires ClaimInv(m, a, threads) && CountInv(m, a, threads)
    ensures ClaimInv(m, a, threads[t := th']) && CountInv(m, a, threads[t := th'])
  {
    SumAheadSet(threads, t, th');
    forall b, k: nat ensures Claiming(a, threads[t := th'], b, k) == Claiming(a, threads, b, k) {}
    assert Pending(a, threads[t := th']) == Pending(a, threads);
  }

  lemma LocalStep(s: State, a: History, t: nat, th': Thread)
    requires Inv(s, a) && t < |s.threads|
    requires SameStanding(s.threads[t], th')
    requires ThreadInv(s.m, a, t, th')
    ensures Inv(State(s.m, s.threads[t := th']), a)
  {
    LocalShared(s.m, a, s.threads, t, th');
    LocalClaims(s.m, a, s.threads, t, th');
  }

  lemma WordRead(m: Mem, a: History, threads: seq<Thread>, l: Loc)
    requires PoolInv(m, a) && PtrInv(m, a, threads) && LocOk(a.chain, l) && Word(m, l) != MARKER
    ensures Word(m, l) == Succ(a.chain, l)
  {
  }

  // A begun look-up, somewhere in the chain.
  ghost predicate Going(m: Mem, a: History, th: Thread) {
    && th.to >= 0 && th.to != m.from && th.ts != MARKER
    && LocOk(a.chain, th.loc) && NotKind(m, a, LocEnd(a.chain, th.loc))
  }

  // Reaching the block (or the end) after the first n blocks, in case 1.
  lemma Scan1Inv(m: Mem, a: History, t: nat, th: Thread, b: nat, n: nat)
    requires PoolInv(m, a) && ClaimInit(m, a) && Going(m, a, th)
    requires n <= |a.chain| && CleanUpTo(m, a, n, th.to)
    requires b == if n < |a.chain| then a.chain[n] else 0
    ensures ThreadInv(m, a, t, Scan1(m, th, b))
  {
    hide UpdateInv, Private, AtEnd, Scanned, Full, AtSlot;
    if n < |a.chain| {
      PosAt(a.chain, n);
      assert a.chain[n] in a.chain;
    }
  }

  lemma Scan2Inv(m: Mem, a: History, t: nat, th: Thread, b: nat)
    requires PoolInv(m, a) && Going(m, a, th)
    requires LocOk(a.chain, th.ptr) && Clean(m, a, th.to) && Scanned(m, a, LocEnd(a.chain, th.ptr), th.to)
    requires b == Succ(a.chain, th.ptr)
    ensures ThreadInv(m, a, t, Scan2(m, th, b))
  {
    hide UpdateInv, CleanUpTo, Clean, Private, ClaimInit;
    var n := LocEnd(a.chain, th.ptr);
    if n < |a.chain| {
      PosAt(a.chain, n);
      assert a.chain[n] in a.chain && b != 0;
      assert Pos(a.chain, b) == n;
      if !Kind(m, b) { assert Scanned(m, a, n + 1, th.to); }
    } else {
      assert b == 0;
    }
  }

  lemma BeginInv(m: Mem, a: History, t: nat, th: Thread, b: nat)
    requires PoolInv(m, a) && ClaimInit(m, a) && Going(m, a, th)
    requires b == Succ(a.chain, th.loc)
    ensures ThreadInv(m, a, t, Begin(m, th, b))
  {
    var n := LocEnd(a.chain, th.loc);
    if b == 0 || Kind(m, b) {
      assert CleanUpTo(m, a, n, th.to);
      Scan1Inv(m, a, t, th, b, n);
    } else {
      PosAt(a.chain, n);
      assert a.chain[n] in a.chain && Pos(a.chain, b) == n;
      assert NotKind(m, a, n + 1);
    }
  }

  lemma HighBound(m: Mem, a: History, b: nat)
    requires PoolInv(m, a)
    ensures b in a.chain ==> |Blk(m, b).slots| == BLOCK_SIZE && Blk(m, b).high <= BLOCK_SIZE
  {
  }

  lemma BeginThread(m: Mem, a: History, threads: seq<Thread>, t: nat, th: Thread)
    requires PoolInv(m, a) && ClaimInit(m, a) && PtrInv(m, a, threads) && ThreadInv(m, a, t, th)
    requires !Blocked(m, th) && (th.pc.BeginHead? || th.pc.BeginNext?)
    ensures ThreadInv(m, a, t, Act(m, th).1)
  {
    hide PtrInv, Begin, Blk, Kind;
    if th.pc.BeginHead? {
      if m.from != th.to {
        WordRead(m, a, threads, Head);
        BeginInv(m, a, t, th.(loc := Head), m.head);
      }
    } else {
      WordRead(m, a, threads, NextOf(th.tmp));
      BeginInv(m, a, t, th, Word(m, NextOf(th.tmp)));
    }
  }

  lemma LookNextThread(m: Mem, a: History, threads: seq<Thread>, t: nat, th: Thread)
    requires PoolInv(m, a) && ClaimInit(m, a) && PtrInv(m, a, threads) && ThreadInv(m, a, t, th)
    requires !Blocked(m, th) && th.pc.P1Next?
    ensures ThreadInv(m, a, t, Act(m, th).1)
  {
    hide PtrInv, Scan1, Blk, Kind;
    WordRead(m, a, threads, NextOf(th.tmp));
    Scan1Inv(m, a, t, th, Word(m, NextOf(th.tmp)), Pos(a.chain, th.tmp) + 1);
  }

  lemma LookSlotThread(m: Mem, a: History, t: nat, th: Thread)
    requires PoolInv(m, a) && ClaimInit(m, a) && ThreadInv(m, a, t, th)
    requires th.pc.P1High? || th.pc.P1Slot?
    ensures ThreadInv(m, a, t, Act(m, th).1)
  {
    hide PoolInv, Blk, At, Kind, Pos, CleanUpTo, NotKind, Private, AtEnd, AtSlot, Scanned, Clean;
    HighBound(m, a, th.tmp);
    forall j: nat | (th.tmp, j) in a.initial ensures Filled(m, th.tmp, j) {
      var p := (th.tmp, j);
      assert p in a.initial;
    }
    if Act(m, th).1.pc.P1Next? { CleanBlock(m, a, th); }
  }

  lemma CleanBlock(m: Mem, a: History, th: Thread)
    requires th.tmp in a.chain && CleanUpTo(m, a, Pos(a.chain, th.tmp), th.to)
    requires forall j: nat | (th.tmp, j) in a.initial :: At(m, th.tmp, j).neighbor != th.to
    ensures CleanUpTo(m, a, Pos(a.chain, th.tmp) + 1, th.to)
  {
    forall p | p in a.initial && Kind(m, p.0) && p.0 in a.chain && Pos(a.chain, p.0) < Pos(a.chain, th.tmp) + 1
      ensures At(m, p.0, p.1).neighbor != th.to
    {
      if Pos(a.chain, p.0) == Pos(a.chain, th.tmp) {
        assert p == (th.tmp, p.1);
      }
    }
  }

  lemma FindNextThread(m: Mem, a: History, threads: seq<Thread>, t: nat, th: Thread)
    requires PoolInv(m, a) && PtrInv(m, a, threads) && ThreadInv(m, a, t, th)
    requires !Blocked(m, th) && (th.pc.P2Start? || th.pc.P2Next?)
    ensures ThreadInv(m, a, t, Act(m, th).1)
  {
    hide PtrInv, Scan2, Blk, Kind;
    var l := if th.pc.P2Start? then th.loc else NextOf(th.tmp);
    WordRead(m, a, threads, l);
    Scan2Inv(m, a, t, th.(ptr := l), Word(m, l));
  }

  lemma FindSlotThread(m: Mem, a: History, t: nat, th: Thread)
    requires PoolInv(m, a) && ThreadInv(m, a, t, th) && th.pc.P2Slot?
    ensures ThreadInv(m, a, t, Act(m, th).1)
  {
    HighBound(m, a, th.tmp);
    assert AtSlot(m, a, th);
    SlotPassed(m, a, th);
    hide PoolInv, Blk, At, Kind, Pos, Clean, Scanned, NotKind;
  }

  lemma FindOtherThread(m: Mem, a: History, t: nat, th: Thread)
    requires PoolInv(m, a) && ThreadInv(m, a, t, th)
    requires th.pc.P2High? || th.pc.P2Recheck? || th.pc.P2RecheckHigh?
    ensures ThreadInv(m, a, t, Act(m, th).1)
  {
    hide PoolInv, Blk, At, Kind, Pos, Clean, Scanned, NotKind, Private, AtEnd, CleanUpTo;
    HighBound(m, a, th.tmp);
  }

  // Going on from a slot found to hold another edge.
  lemma SlotPassed(m: Mem, a: History, th: Thread)
    requires AtSlot(m, a, th)
    ensures Filled(m, th.tmp, th.k) && At(m, th.tmp, th.k).neighbor != th.to ==>
              if th.k + 1 < BLOCK_SIZE then Full(m, th.tmp, th.k + 1, th.to)
              else Scanned(m, a, Pos(a.chain, th.tmp) + 1, th.to)
  {
    if Filled(m, th.tmp, th.k) && At(m, th.tmp, th.k).neighbor != th.to {
      assert Full(m, th.tmp, th.k + 1, th.to);
    }
  }

  lemma UpdateReadThread(m: Mem, a: History, t: nat, th: Thread)
    requires PoolInv(m, a) && ThreadInv(m, a, t, th)
    requires th.pc.TestNb? || th.pc.TestHigh? || th.pc.Existing? || th.pc.HighTest?
    ensures ThreadInv(m, a, t, Act(m, th).1)
  {
    hide PoolInv, Blk, At, Kind, Pos, Clean, Scanned, NotKind;
    if th.mode.FreshSlot? { HighIsHere(m, a, th); }
    if th.pc.Existing? { assert th.tmp in a.chain && Holds(m, th.tmp, th.k, th.to); }
  }

  // Every slot below has been filled, so the high-water mark is at least here.
  lemma HighIsHere(m: Mem, a: History, th: Thread)
    requires AtSlot(m, a, th)
    ensures th.k <= Blk(m, th.tmp).high
  {
    if th.k > 0 { assert Filled(m, th.tmp, th.k - 1); }
  }

  predicate Reads(pc: Pc) {
    pc.BeginHead? || pc.BeginNext? || pc.P1High? || pc.P1Slot? || pc.P1Next? || pc.P2Start? || pc.P2High? ||
    pc.P2Slot? || pc.P2Recheck? || pc.P2RecheckHigh? || pc.P2Next? || pc.TestNb? || pc.TestHigh? ||
    pc.Existing? || pc.HighTest?
  }

  lemma ReadStanding(m: Mem, th: Thread)
    requires Reads(th.pc)
    requires th.pc.Existing? ==> th.mode.Locked? || th.mode.Unlocked?
    requires th.pc.HighTest? ==> th.mode.FreshSlot? || th.mode.NewBlock?
    ensures SameStanding(th, Act(m, th).1)
  {
    hide Blk, Kind, At, Word;
  }

  lemma ReadsOnly(s: State, a: History, t: nat)
    requires Enabled(s, t) && Reads(s.threads[t].pc)
    ensures Record(s, a, t) == a
    ensures Step(s, t) == State(s.m, s.threads[t := Act(s.m, s.threads[t]).1])
  {
    hide Blk, Kind, At, Word, Blocked;
  }

  lemma ReadMode(m: Mem, a: History, t: nat, th: Thread)
    requires ThreadInv(m, a, t, th)
    ensures th.pc.Existing? ==> th.mode.Locked? || th.mode.Unlocked?
    ensures th.pc.HighTest? ==> th.mode.FreshSlot? || th.mode.NewBlock?
  {
    hide LockedBy, LocInv, LookInv, FindInv, AppendInv, AtSlot, Private;
  }

  lemma ReadThread(s: State, a: History, t: nat)
    requires Inv(s, a) && Enabled(s, t)
    ensures t < |s.threads| && ThreadInv(s.m, a, t, s.threads[t]) && PoolInv(s.m, a) && ClaimInit(s.m, a) && PtrInv(s.m, a, s.threads)
    ensures !Blocked(s.m, s.threads[t])
  {
    hide PoolInv, PtrInv, LockInv, ClaimInv, ClaimInit, OrderInv, UniqueInv, CountInv, CallsInv, ThreadInv, Blocked;
  }

  lemma ReadStep(s: State, a: History, t: nat)
    requires Inv(s, a) && Enabled(s, t) && Reads(s.threads[t].pc)
    ensures Inv(Step(s, t), Record(s, a, t))
  {
    hide Inv, Enabled, PoolInv, PtrInv, ClaimInit, SameStanding, Blocked, Act, Step, Record, ThreadInv;
    ReadThread(s, a, t);
    var th := s.threads[t];
    ReadMode(s.m, a, t, th);
    ReadStanding(s.m, th);
    ReadsOnly(s, a, t);
    match th.pc {
      case BeginHead | BeginNext => BeginThread(s.m, a, s.threads, t, th);
      case P1High | P1Slot => LookSlotThread(s.m, a, t, th);
      case P1Next => LookNextThread(s.m, a, s.threads, t, th);
      case P2Start | P2Next => FindNextThread(s.m, a, s.threads, t, th);
      case P2Slot => FindSlotThread(s.m, a, t, th);
      case P2High | P2Recheck | P2RecheckHigh => FindOtherThread(s.m, a, t, th);
      case _ => UpdateReadThread(s.m, a, t, th);
    }
    LocalStep(s, a, t, Act(s.m, th).1);
  }
}
