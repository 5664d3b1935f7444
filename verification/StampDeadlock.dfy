/**
 The other half: from any quiet store with a used block of the type that has no edge, some calls
 and some schedule deadlock.
 */
module StampDeadlock {
  import opened InsertProtocol
  import opened InsertInvariant
  import opened InsertSteps
  import opened InsertRuns
  import opened InsertMoves
  import opened StampProtocol
  import EdgeBlocks
  import opened StampInvariant

  // ---------------------------------------------------------------- one call at a time

  // Call t takes the next step of the insert protocol.
  lemma GoCore(x: Whole, t: nat) returns (th: Thread, th': Thread, m': Mem)
    requires t < |x.s.threads| && t < |x.calls| && x.calls[t].aux.Core? && !x.s.m.aborted && !Blocked(x.s.m, x.s.threads[t]) && !x.s.threads[t].pc.Alloc?
    ensures th == x.s.threads[t] && (m', th') == Act(x.s.m, th)
    ensures Go(x, t) == Whole(State(m', x.s.threads[t := th']), x.meta, x.indeg, x.calls[t := x.calls[t].(aux := After(th.pc))])
  {
    hide Act, Blocked;
    th := x.s.threads[t];
    m', th' := Act(x.s.m, th).0, Act(x.s.m, th).1;
  }

  // ---------------------------------------------------------------- the search for a free slot

  predicate Searching(pc: Pc) {
    pc.BeginHead? || pc.BeginNext? || pc.P1High? || pc.P1Slot? || pc.P1Next? || pc.P2Start? || pc.P2High? || pc.P2Slot? || pc.P2Next?
  }

  function Place(chain: seq<nat>, b: nat): nat { if b in chain then Pos(chain, b) else |chain| }

  // How far a search still is from its end.
  function Rank0(th: Thread): nat {
    if th.pc.BeginHead? then 4 else if th.pc.BeginNext? then 3 else if th.pc.P1High? || th.pc.P1Slot? || th.pc.P1Next? then 2 else 1
  }

  function Rank1(chain: seq<nat>, th: Thread): nat {
    if th.pc.P2Start? then |chain| + 1 else |chain| - Place(chain, th.tmp)
  }

  function Rank2(th: Thread): nat {
    if th.pc.P1High? || th.pc.P2High? then BLOCK_SIZE + 1
    else if (th.pc.P1Slot? || th.pc.P2Slot?) && th.k < BLOCK_SIZE then BLOCK_SIZE - th.k
    else 0
  }

  predicate Nearer(chain: seq<nat>, th': Thread, th: Thread) {
    || Rank0(th') < Rank0(th)
    || (Rank0(th') == Rank0(th) && Rank1(chain, th') < Rank1(chain, th))
    || (Rank0(th') == Rank0(th) && Rank1(chain, th') == Rank1(chain, th) && Rank2(th') < Rank2(th))
  }

  ghost predicate GapAt(m: Mem, chain: seq<nat>, b: nat, k: nat) {
    b in chain && Kind(m, b) && k < BLOCK_SIZE && !Filled(m, b, k)
  }

  // The chain's words are free, it has room, and the call's edge is not there.
  ghost predicate Room(m: Mem, chain: seq<nat>, th: Thread) {
    && (forall l | LocOk(chain, l) :: Word(m, l) != MARKER)
    && (forall b: nat, k: nat | b in chain :: At(m, b, k).neighbor != th.to)
    && (exists b: nat, k: nat :: GapAt(m, chain, b, k))
  }

  predicate FreshEnd(m: Mem, th: Thread) { th.pc.P2Slot? ==> th.endk == Blk(m, th.tmp).high }

  lemma NotAtEnd(m: Mem, a: History, th: Thread)
    requires Room(m, a.chain, th)
    ensures !Scanned(m, a, |a.chain|, th.to)
  {
    var b: nat, k: nat :| GapAt(m, a.chain, b, k);
    assert a.chain[Pos(a.chain, b)] == b;
    hide Kind;
  }

  // The next block comes later in the chain.
  lemma NextBlock(m: Mem, a: History, threads: seq<Thread>, b: nat)
    requires PoolInv(m, a) && PtrInv(m, a, threads) && b in a.chain && Word(m, NextOf(b)) != MARKER
    ensures var w := Word(m, NextOf(b)); w >= 0 && (w == 0 || (w in a.chain && Place(a.chain, w) == Place(a.chain, b) + 1))
    ensures Word(m, NextOf(b)) == 0 ==> LocEnd(a.chain, NextOf(b)) == |a.chain|
    ensures Place(a.chain, b) < |a.chain|
  {
    WordRead(m, a, threads, NextOf(b));
    var n := Pos(a.chain, b) + 1;
    if n < |a.chain| { PosAt(a.chain, n); assert a.chain[n] in a.chain; }
    hide PtrInv, Word;
  }

  // What the search is told about where it is.
  ghost predicate Here(m: Mem, a: History, th: Thread) {
    && (th.pc.P1High? || th.pc.P1Slot? || th.pc.P1Next? || th.pc.P2High? || th.pc.P2Slot? || th.pc.P2Next? || th.pc.BeginNext? ==> th.tmp in a.chain)
    && (th.pc.P1Slot? ==> th.k < th.endk <= BLOCK_SIZE) && (th.pc.P2Slot? ==> th.k < BLOCK_SIZE && Kind(m, th.tmp))
    && (!th.pc.BeginHead? ==> LocOk(a.chain, th.loc)) && th.to != m.from
  }

  lemma HereIs(m: Mem, a: History, t: nat, th: Thread)
    requires ThreadInv(m, a, t, th) && PoolInv(m, a) && Searching(th.pc) && th.to != m.from
    ensures Here(m, a, th)
  {
    HighBound(m, a, th.tmp);
    hide PoolInv, Clean, Scanned, Full, CleanUpTo, LockedBy, NotKind, Blk;
  }

  lemma BeginMoves(m: Mem, a: History, threads: seq<Thread>, th: Thread)
    requires PoolInv(m, a) && PtrInv(m, a, threads) && Room(m, a.chain, th) && Here(m, a, th) && (th.pc.BeginHead? || th.pc.BeginNext?)
    ensures !Blocked(m, th) && Act(m, th).0 == m && Searching(Act(m, th).1.pc) && Nearer(a.chain, Act(m, th).1, th)
  {
    var l := if th.pc.BeginHead? then Head else NextOf(th.tmp);
    assert Word(m, l) != MARKER;
    WordRead(m, a, threads, l);
    if th.pc.BeginNext? { NextBlock(m, a, threads, th.tmp); }
    hide PoolInv, PtrInv, Word, Kind, Room;
  }

  lemma ScanMoves(m: Mem, a: History, threads: seq<Thread>, th: Thread)
    requires PoolInv(m, a) && PtrInv(m, a, threads) && Room(m, a.chain, th) && Here(m, a, th) && (th.pc.P1Next? || th.pc.P2Next? || th.pc.P2Start?)
    requires !Act(m, th).1.pc.P3Lock?
    ensures !Blocked(m, th) && Act(m, th).0 == m && Searching(Act(m, th).1.pc) && Nearer(a.chain, Act(m, th).1, th)
  {
    if th.pc.P2Start? {
      assert Word(m, th.loc) != MARKER;
      WordRead(m, a, threads, th.loc);
    } else {
      assert Word(m, NextOf(th.tmp)) != MARKER;
      NextBlock(m, a, threads, th.tmp);
    }
    hide PoolInv, PtrInv, Word, Kind, Room;
  }

  lemma SlotMoves(m: Mem, a: History, th: Thread)
    requires PoolInv(m, a) && Room(m, a.chain, th) && Here(m, a, th) && FreshEnd(m, th) && (th.pc.P1High? || th.pc.P1Slot? || th.pc.P2High? || th.pc.P2Slot?)
    ensures !Blocked(m, th) && Act(m, th).0 == m && (Searching(Act(m, th).1.pc) || Act(m, th).1.pc.P2Lock?)
    ensures Searching(Act(m, th).1.pc) ==> Nearer(a.chain, Act(m, th).1, th) && FreshEnd(m, Act(m, th).1)
    ensures Act(m, th).1.pc.P2Lock? ==> GapAt(m, a.chain, th.tmp, th.k)
  {
    assert At(m, th.tmp, th.k).neighbor != th.to;
    PlaceIn(a.chain, th.tmp);
    hide PoolInv, At, Blk, Room;
  }

  lemma PlaceIn(chain: seq<nat>, b: nat)
    requires b in chain
    ensures Place(chain, b) < |chain|
  {
  }

  // A search never comes to the end of the chain.
  lemma NoAppend(m: Mem, a: History, threads: seq<Thread>, t: nat, th: Thread)
    requires PoolInv(m, a) && PtrInv(m, a, threads) && ThreadInv(m, a, t, th) && Room(m, a.chain, th) && (th.pc.P2Next? || th.pc.P2Start?) && !Blocked(m, th)
    ensures !Act(m, th).1.pc.P3Lock?
  {
    hide PoolInv, PtrInv, UpdateInv, LookInv, FindInv, Room, Private, AtEnd, Kind, Blk;
    FindNextThread(m, a, threads, t, th);
    var th' := Act(m, th).1;
    if th'.pc.P3Lock? {
      NotAtEnd(m, a, th);
      var l := if th.pc.P2Start? then th.loc else NextOf(th.tmp);
      WordRead(m, a, threads, l);
      assert th'.ptr == l && Word(m, l) == 0;
      EndWord(m, a, l);
    }
  }

  lemma EndWord(m: Mem, a: History, l: Loc)
    requires PoolInv(m, a) && LocOk(a.chain, l) && Succ(a.chain, l) == 0
    ensures LocEnd(a.chain, l) == |a.chain|
  {
    forall i | 0 <= i < |a.chain| ensures a.chain[i] != 0 { assert a.chain[i] in a.chain; }
  }

  lemma SearchMoves(s: State, a: History, t: nat)
    requires Inv(s, a) && t < |s.threads| && Searching(s.threads[t].pc) && Room(s.m, a.chain, s.threads[t]) && FreshEnd(s.m, s.threads[t])
    requires s.threads[t].to != s.m.from
    ensures var th := s.threads[t];
      && !Blocked(s.m, th) && Act(s.m, th).0 == s.m && (Searching(Act(s.m, th).1.pc) || Act(s.m, th).1.pc.P2Lock?)
      && (Searching(Act(s.m, th).1.pc) ==> Nearer(a.chain, Act(s.m, th).1, th) && FreshEnd(s.m, Act(s.m, th).1))
      && (Act(s.m, th).1.pc.P2Lock? ==> th.pc.P2Slot? && GapAt(s.m, a.chain, th.tmp, th.k))
  {
    var m, th := s.m, s.threads[t];
    SearchParts(s, a, t);
    hide Inv, PoolInv, PtrInv, ThreadInv, Room, Here, GapAt, Blocked, Act, Nearer, FreshEnd;
    HereIs(m, a, t, th);
    match th.pc {
      case BeginHead | BeginNext => BeginMoves(m, a, s.threads, th); FreshNone(m, th);
      case P1Next => ScanKind(m, th); ScanMoves(m, a, s.threads, th); FreshNone(m, th);
      case P2Next | P2Start =>
        ScanBlocked(m, a, th);
        NoAppend(m, a, s.threads, t, th);
        ScanMoves(m, a, s.threads, th);
        FreshNone(m, th);
      case _ => SlotMoves(m, a, th); LockFrom(m, th);
    }
  }

  lemma SearchParts(s: State, a: History, t: nat)
    requires Inv(s, a) && t < |s.threads|
    ensures PoolInv(s.m, a) && PtrInv(s.m, a, s.threads) && ThreadInv(s.m, a, t, s.threads[t])
  {
    hide PoolInv, PtrInv, ThreadInv;
  }

  lemma LockFrom(m: Mem, th: Thread)
    ensures Act(m, th).1.pc.P2Lock? && Searching(th.pc) ==> th.pc.P2Slot?
  {
    hide Word, At, Blk, Kind;
  }

  lemma FreshNone(m: Mem, th: Thread)
    requires Searching(th.pc) && !th.pc.P2High? && !th.pc.P2Slot?
    ensures FreshEnd(m, Act(m, th).1)
    ensures !Act(m, th).1.pc.P2Lock?
  {
    hide Word, At, Blk, Kind;
  }

  lemma ScanKind(m: Mem, th: Thread)
    requires th.pc.P1Next?
    ensures !Act(m, th).1.pc.P3Lock?
  {
    hide Word, At, Blk, Kind;
  }

  lemma ScanBlocked(m: Mem, a: History, th: Thread)
    requires Room(m, a.chain, th) && Here(m, a, th) && (th.pc.P2Next? || th.pc.P2Start?)
    ensures !Blocked(m, th)
  {
    var l := if th.pc.P2Start? then th.loc else NextOf(th.tmp);
    assert Word(m, l) != MARKER;
  }

  lemma SearchKeeps(m: Mem, th: Thread)
    requires Searching(th.pc)
    ensures var th' := Act(m, th).1; th'.to == th.to && th'.ts == th.ts && After(th.pc).Core? && Reads(th.pc) && !th.pc.Alloc?
    ensures Act(m, th).1.pc.P2Lock? ==> Act(m, th).1.tmp == th.tmp && Act(m, th).1.k == th.k
  {
    hide Word, At, Blk, Kind;
  }

  lemma RoomSame(m: Mem, chain: seq<nat>, th: Thread, th': Thread)
    requires Room(m, chain, th) && th'.to == th.to
    ensures Room(m, chain, th')
  {
    hide GapAt;
  }

  // What a search of call t comes to: nothing has changed but where it stands, at a free slot.
  ghost predicate Found(x: Whole, chain: seq<nat>, t: nat, schedule: seq<nat>, th': Thread) {
    && t < |x.s.threads| && Runs(x, schedule) == x.(s := State(x.s.m, x.s.threads[t := th']))
    && th'.pc.P2Lock? && th'.to == x.s.threads[t].to && th'.ts == x.s.threads[t].ts && GapAt(x.s.m, chain, th'.tmp, th'.k)
  }

  /** A search that nobody disturbs comes to a free slot. */
  lemma {:induction false} ToLock(x: Whole, a: History, t: nat) returns (schedule: seq<nat>, th': Thread)
    requires Inv(x.s, a) && t < |x.s.threads| && t < |x.calls| && x.calls[t].aux.Core? && !x.s.m.aborted
    requires Searching(x.s.threads[t].pc) && Room(x.s.m, a.chain, x.s.threads[t]) && FreshEnd(x.s.m, x.s.threads[t]) && x.s.threads[t].to != x.s.m.from
    ensures Found(x, a.chain, t, schedule, th') && Inv(State(x.s.m, x.s.threads[t := th']), a)
    decreases Rank0(x.s.threads[t]), Rank1(a.chain, x.s.threads[t]), Rank2(x.s.threads[t])
  {
    hide *;
    var th := x.s.threads[t];
    SearchMoves(x.s, a, t);
    SearchKeeps(x.s.m, th);
    ReadsStep(x.s, a, t);
    var m1, th1;
    th, th1, m1 := GoCore(x, t);
    assert x.calls[t := x.calls[t].(aux := Core)] == x.calls;
    var y := Go(x, t);
    assert y == x.(s := State(x.s.m, x.s.threads[t := th1]));
    RunsOne(x, t);
    if Searching(th1.pc) {
      RoomSame(x.s.m, a.chain, th, th1);
      NearerIs(a.chain, th1, th);
      var rest;
      rest, th' := ToLock(y, a, t);
      schedule := [t] + rest;
      RunsJoin(x, [t], rest);
      FoundElim(y, a.chain, t, rest, th');
      assert x.s.threads[t := th1][t := th'] == x.s.threads[t := th'];
    } else {
      schedule, th' := [t], th1;
    }
    FoundIntro(x, a.chain, t, schedule, th');
  }

  lemma NearerIs(chain: seq<nat>, th': Thread, th: Thread)
    requires Nearer(chain, th', th)
    ensures Rank0(th') < Rank0(th) || (Rank0(th') == Rank0(th) && Rank1(chain, th') < Rank1(chain, th))
         || (Rank0(th') == Rank0(th) && Rank1(chain, th') == Rank1(chain, th) && Rank2(th') < Rank2(th))
  {
  }

  lemma FoundElim(x: Whole, chain: seq<nat>, t: nat, schedule: seq<nat>, th': Thread)
    requires Found(x, chain, t, schedule, th')
    ensures t < |x.s.threads| && Runs(x, schedule) == x.(s := State(x.s.m, x.s.threads[t := th']))
    ensures th'.pc.P2Lock? && th'.to == x.s.threads[t].to && th'.ts == x.s.threads[t].ts && GapAt(x.s.m, chain, th'.tmp, th'.k)
  {
    hide Runs, GapAt;
  }

  lemma FoundIntro(x: Whole, chain: seq<nat>, t: nat, schedule: seq<nat>, th': Thread)
    requires t < |x.s.threads| && Runs(x, schedule) == x.(s := State(x.s.m, x.s.threads[t := th']))
    requires th'.pc.P2Lock? && th'.to == x.s.threads[t].to && th'.ts == x.s.threads[t].ts && GapAt(x.s.m, chain, th'.tmp, th'.k)
    ensures Found(x, chain, t, schedule, th')
  {
    hide Runs, GapAt;
  }

  lemma RunsOne(x: Whole, t: nat)
    ensures Runs(x, [t]) == Go(x, t)
  {
    hide Go;
    assert Runs(Go(x, t), []) == Go(x, t);
  }

  lemma ReadsStep(s: State, a: History, t: nat)
    requires Inv(s, a) && t < |s.threads| && Reads(s.threads[t].pc) && !Blocked(s.m, s.threads[t]) && !s.m.aborted && Act(s.m, s.threads[t]).0 == s.m
    ensures Inv(State(s.m, s.threads[t := Act(s.m, s.threads[t]).1]), a)
  {
    hide Inv, Act, Blocked, Record;
    ReadsOnly(s, a, t);
    StepKeeps(s, a, t);
  }

  // ---------------------------------------------------------------- taking the slot

  function SetCall(x: Whole, t: nat, m: Mem, th: Thread, aux: Aux): Whole
    requires t < |x.s.threads| && t < |x.calls|
  {
    x.(s := State(m, x.s.threads[t := th]), calls := x.calls[t := x.calls[t].(aux := aux)])
  }

  // The memory when the call's neighbor stands in its locked slot.
  function Taken(m: Mem, th: Thread): Mem { SetSlot(m, th.tmp, th.k, Slot(th.to, MARKER)) }

  // A free slot that the call has found and nobody holds.
  ghost predicate CanTake(m: Mem, th: Thread) {
    && th.pc.P2Lock? && th.k < |Blk(m, th.tmp).slots| == BLOCK_SIZE && !Filled(m, th.tmp, th.k) && At(m, th.tmp, th.k).timeFirst != MARKER
  }

  predicate InUpdate(th': Thread, th: Thread, pc: Pc) {
    th'.pc == pc && th'.mode.FreshSlot? && th'.tmp == th.tmp && th'.k == th.k && th'.to == th.to && th'.ts == th.ts
  }

  // From the lock to update_edge_data.
  lemma LockSteps(m: Mem, th: Thread) returns (m1: Mem, th1: Thread, th2: Thread, th3: Thread)
    requires CanTake(m, th)
    ensures (m1, th1) == Act(m, th) && (m1, th2) == Act(m1, th1) && (m1, th3) == Act(m1, th2)
    ensures !Blocked(m, th) && !Blocked(m1, th1) && !Blocked(m1, th2) && !Blocked(m1, th3)
    ensures th1.pc.P2Recheck? && th2.pc.P2RecheckHigh? && InUpdate(th3, th, TestNb)
    ensures m1 == SetSlot(m, th.tmp, th.k, At(m, th.tmp, th.k).(timeFirst := MARKER))
  {
    m1, th1 := Act(m, th).0, Act(m, th).1;
    th2 := Act(m1, th1).1;
    th3 := Act(m1, th2).1;
    SlotSet(m, th.tmp, th.k, At(m, th.tmp, th.k).(timeFirst := MARKER));
  }

  lemma SlotSet(m: Mem, b: nat, k: nat, e: Slot)
    requires k < |Blk(m, b).slots|
    ensures At(SetSlot(m, b, k, e), b, k) == e && Blk(SetSlot(m, b, k, e), b) == Blk(m, b).(slots := Blk(m, b).slots[k := e])
    ensures forall f :: SetSlot(SetSlot(m, b, k, e), b, k, f) == SetSlot(m, b, k, f)
  {
    forall f ensures SetSlot(SetSlot(m, b, k, e), b, k, f) == SetSlot(m, b, k, f) {
      assert Blk(m, b).slots[k := e][k := f] == Blk(m, b).slots[k := f];
    }
  }

  // And on to the neighbor.
  lemma WriteSteps(m: Mem, m1: Mem, th: Thread, th3: Thread) returns (th4: Thread, th5: Thread, m2: Mem)
    requires CanTake(m, th) && InUpdate(th3, th, TestNb) && m1 == SetSlot(m, th.tmp, th.k, At(m, th.tmp, th.k).(timeFirst := MARKER))
    ensures Act(m1, th3).0 == m1 && (th4 == Act(m1, th3).1 || (Act(m1, th3).1.pc.TestHigh? && (m1, th4) == Act(m1, Act(m1, th3).1)))
    ensures InUpdate(th4, th, WriteNb) && (m2, th5) == Act(m1, th4) && InUpdate(th5, th, OutDeg) && m2 == Taken(m, th)
  {
    SlotSet(m, th.tmp, th.k, At(m, th.tmp, th.k).(timeFirst := MARKER));
    th4 := Act(m1, th3).1;
    if th4.pc.TestHigh? { th4 := Act(m1, th4).1; }
    m2, th5 := Act(m1, th4).0, Act(m1, th4).1;
  }

  lemma TwoSteps(x: Whole, p: seq<nat>, y: Whole, t: nat) returns (q: seq<nat>)
    requires Runs(x, p) == y
    ensures q == p + [t] && Runs(x, q) == Go(y, t)
  {
    q := p + [t];
    RunsJoin(x, p, [t]);
    RunsOne(y, t);
  }

  // One more step of the insert protocol, with what it leads to given.
  lemma Onward(x: Whole, p: seq<nat>, t: nat, m: Mem, th: Thread, m': Mem, th': Thread) returns (q: seq<nat>)
    requires t < |x.s.threads| && t < |x.calls| && Runs(x, p) == SetCall(x, t, m, th, Core)
    requires (m', th') == Act(m, th) && !Blocked(m, th) && !th.pc.Alloc? && !m.aborted
    ensures Runs(x, q) == SetCall(x, t, m', th', After(th.pc))
  {
    hide Act, Blocked, Runs, After;
    var y := Runs(x, p);
    var th0, th1, m1 := GoCore(y, t);
    q := TwoSteps(x, p, y, t);
    assert x.s.threads[t := th][t := th'] == x.s.threads[t := th'];
    assert x.calls[t := x.calls[t].(aux := Core)][t := x.calls[t].(aux := After(th.pc))] == x.calls[t := x.calls[t].(aux := After(th.pc))];
  }

  /** From a free slot to the neighbor written into it. */
  lemma TakeSlot(x: Whole, p: seq<nat>, t: nat, m: Mem, th: Thread) returns (q: seq<nat>, th': Thread)
    requires t < |x.s.threads| && t < |x.calls| && Runs(x, p) == SetCall(x, t, m, th, Core) && CanTake(m, th) && !m.aborted
    ensures Runs(x, q) == SetCall(x, t, Taken(m, th), th', AddCount) && InUpdate(th', th, OutDeg)
  {
    hide Act, Blocked, Runs, SetCall, CanTake, SetSlot, Taken;
    var m1, th1, th2, th3 := LockSteps(m, th);
    var th4, th5, m2 := WriteSteps(m, m1, th, th3);
    LockPc(m, th);
    NotAborted(m, th.tmp, th.k, At(m, th.tmp, th.k).(timeFirst := MARKER));
    q := Onward(x, p, t, m, th, m1, th1);
    q := Onward(x, q, t, m1, th1, m1, th2);
    q := Onward(x, q, t, m1, th2, m1, th3);
    var thA := Act(m1, th3).1;
    q := Onward(x, q, t, m1, th3, m1, thA);
    if thA.pc.TestHigh? && thA != th4 {
      NotBlocked(m1, thA);
      q := Onward(x, q, t, m1, thA, m1, th4);
    }
    NotBlocked(m1, th4);
    q := Onward(x, q, t, m1, th4, m2, th5);
    th' := th5;
  }

  lemma LockPc(m: Mem, th: Thread)
    requires CanTake(m, th)
    ensures th.pc.P2Lock?
  {
  }

  lemma NotAborted(m: Mem, b: nat, k: nat, e: Slot)
    ensures SetSlot(m, b, k, e).aborted == m.aborted
  {
  }

  lemma NotBlocked(m: Mem, th: Thread)
    requires th.pc.TestHigh? || th.pc.WriteNb? || th.pc.OutDeg? || th.pc.HighTest? || th.pc.HighWrite? || th.pc.Unlock? || th.pc.TestNb?
    ensures !Blocked(m, th)
  {
  }

  // ---------------------------------------------------------------- from the neighbor to the stamps

  // The run with call t somewhere else, and other headers and in-degrees.
  function Put(x: Whole, t: nat, m: Mem, th: Thread, meta: map<nat, Meta>, indeg: map<int, int>, c: Call): Whole
    requires t < |x.s.threads| && t < |x.calls|
  {
    Whole(State(m, x.s.threads[t := th]), meta, indeg, x.calls[t := c])
  }

  lemma PutAgain(x: Whole, t: nat, m: Mem, th: Thread, meta: map<nat, Meta>, indeg: map<int, int>, c: Call)
    requires t < |x.s.threads| && t < |x.calls|
    ensures var y := Put(x, t, m, th, meta, indeg, c);
      && y.s.m == m && t < |y.s.threads| && t < |y.calls| && y.s.threads[t] == th && y.calls[t] == c && y.meta == meta && y.indeg == indeg
      && forall m', th', meta', indeg', c' :: Put(y, t, m', th', meta', indeg', c') == Put(x, t, m', th', meta', indeg', c')
  {
    var y := Put(x, t, m, th, meta, indeg, c);
    forall m', th', meta', indeg', c' ensures Put(y, t, m', th', meta', indeg', c') == Put(x, t, m', th', meta', indeg', c') {
      assert x.s.threads[t := th][t := th'] == x.s.threads[t := th'] && x.calls[t := c][t := c'] == x.calls[t := c'];
    }
  }

  // One more step of the insert protocol.
  lemma OnCore(x: Whole, p: seq<nat>, t: nat, m: Mem, th: Thread, meta: map<nat, Meta>, indeg: map<int, int>, c: Call, m': Mem, th': Thread) returns (q: seq<nat>)
    requires t < |x.s.threads| && t < |x.calls| && Runs(x, p) == Put(x, t, m, th, meta, indeg, c) && c.aux.Core?
    requires (m', th') == Act(m, th) && !Blocked(m, th) && !th.pc.Alloc? && !m.aborted
    ensures Runs(x, q) == Put(x, t, m', th', meta, indeg, c.(aux := After(th.pc)))
  {
    hide Act, Blocked, Runs, After, Put;
    PutAgain(x, t, m, th, meta, indeg, c);
    var y := Runs(x, p);
    var th0, th1, m1 := GoCore(y, t);
    q := TwoSteps(x, p, y, t);
    PutIs(y, t, m', th', meta, indeg, c.(aux := After(th.pc)));
  }

  lemma PutIs(x: Whole, t: nat, m: Mem, th: Thread, meta: map<nat, Meta>, indeg: map<int, int>, c: Call)
    requires t < |x.s.threads| && t < |x.calls|
    ensures Put(x, t, m, th, meta, indeg, c) == Whole(State(m, x.s.threads[t := th]), meta, indeg, x.calls[t := c])
  {
  }

  // One access to the header.
  lemma OnHead(x: Whole, p: seq<nat>, t: nat, m: Mem, th: Thread, meta: map<nat, Meta>, indeg: map<int, int>, c: Call) returns (q: seq<nat>)
    requires t < |x.s.threads| && t < |x.calls| && Runs(x, p) == Put(x, t, m, th, meta, indeg, c) && !m.aborted && !c.aux.Core? && !c.aux.AddIn?
    requires var small := MetaOf(meta, th.tmp).smallStamp;
      (c.aux.ReadSmall? || c.aux.LockSmall? ==> small != MARKER) && (c.aux.Unlatch? ==> small == MARKER)
    ensures var (e, c') := Header(MetaOf(meta, th.tmp), th.ts, c); Runs(x, q) == Put(x, t, m, th, meta[th.tmp := e], indeg, c')
  {
    hide Runs, Put, Header, MetaOf;
    PutAgain(x, t, m, th, meta, indeg, c);
    var y := Runs(x, p);
    q := TwoSteps(x, p, y, t);
    HeadStep(y, t);
    var (e, c') := Header(MetaOf(meta, th.tmp), th.ts, c);
    PutIs(y, t, m, th, meta[th.tmp := e], indeg, c');
    assert y.s.threads[t := th] == y.s.threads;
  }

  lemma HeadStep(x: Whole, t: nat)
    requires t < |x.s.threads| && t < |x.calls| && !x.s.m.aborted && !x.calls[t].aux.Core? && !x.calls[t].aux.AddIn?
    requires var small := MetaOf(x.meta, x.s.threads[t].tmp).smallStamp;
      (x.calls[t].aux.ReadSmall? || x.calls[t].aux.LockSmall? ==> small != MARKER) && (x.calls[t].aux.Unlatch? ==> small == MARKER)
    ensures var th := x.s.threads[t];
      var (e, c') := Header(MetaOf(x.meta, th.tmp), th.ts, x.calls[t]);
      Go(x, t) == x.(meta := x.meta[th.tmp := e], calls := x.calls[t := c'])
  {
    hide Header, MetaOf, Step, Blocked;
  }

  lemma OnIn(x: Whole, p: seq<nat>, t: nat, m: Mem, th: Thread, meta: map<nat, Meta>, indeg: map<int, int>, c: Call) returns (q: seq<nat>)
    requires t < |x.s.threads| && t < |x.calls| && Runs(x, p) == Put(x, t, m, th, meta, indeg, c) && !m.aborted && c.aux.AddIn?
    ensures Runs(x, q) == Put(x, t, m, th, meta, indeg[th.to := InDegree(indeg, th.to) + 1], c.(aux := Core))
  {
    hide Runs, Put, InDegree;
    PutAgain(x, t, m, th, meta, indeg, c);
    var y := Runs(x, p);
    q := TwoSteps(x, p, y, t);
    assert Able(y, t);
    InIs(y, t);
    PutIs(y, t, m, th, meta, indeg[th.to := InDegree(indeg, th.to) + 1], c.(aux := Core));
    assert y.s.threads[t := th] == y.s.threads;
  }

  // The memory once a new edge is in place.
  function Settled(m: Mem, th: Thread): Mem {
    var m1 := m.(outdeg := m.outdeg + 1);
    var m2 := if th.k >= Blk(m1, th.tmp).high then SetHigh(m1, th.tmp, th.k + 1) else m1;
    SetSlot(m2, th.tmp, th.k, At(m2, th.tmp, th.k).(timeFirst := th.ts))
  }

  /** From the counted neighbor to the stamps. */
  lemma ToStamps(x: Whole, p: seq<nat>, t: nat, m: Mem, th: Thread, meta: map<nat, Meta>, indeg: map<int, int>, c: Call)
    returns (q: seq<nat>, indeg': map<int, int>)
    requires t < |x.s.threads| && t < |x.calls| && Runs(x, p) == Put(x, t, m, th, meta, indeg, c) && !m.aborted && c.aux.Core? && InUpdate(th, th, OutDeg)
    ensures Runs(x, q) == Put(x, t, Settled(m, th), th.(pc := Done, result := 1), meta, indeg', c.(aux := ReadSmall))
  {
    hide Runs, Put, Blk, At, SetSlot, SetHigh, InDegree;
    var m1 := m.(outdeg := m.outdeg + 1);
    var th1 := th.(pc := HighTest);
    NotBlocked(m, th);
    q := OnCore(x, p, t, m, th, meta, indeg, c, m1, th1);
    q := OnIn(x, q, t, m1, th1, meta, indeg, c.(aux := AddIn));
    indeg' := indeg[th.to := InDegree(indeg, th.to) + 1];
    q := ToUnlocked(x, q, t, m1, th1, meta, indeg', c.(aux := Core));
  }

  // From the test of the high-water mark on.
  lemma ToUnlocked(x: Whole, p: seq<nat>, t: nat, m1: Mem, th1: Thread, meta: map<nat, Meta>, indeg': map<int, int>, c: Call) returns (q: seq<nat>)
    requires t < |x.s.threads| && t < |x.calls| && Runs(x, p) == Put(x, t, m1, th1, meta, indeg', c) && !m1.aborted && c.aux.Core? && InUpdate(th1, th1, HighTest)
    ensures var m2 := if th1.k >= Blk(m1, th1.tmp).high then SetHigh(m1, th1.tmp, th1.k + 1) else m1;
      Runs(x, q) == Put(x, t, SetSlot(m2, th1.tmp, th1.k, At(m2, th1.tmp, th1.k).(timeFirst := th1.ts)), th1.(pc := Done, result := 1), meta, indeg', c.(aux := ReadSmall))
  {
    hide Runs, Put, Blk, At, SetSlot, SetHigh, InDegree;
    var th2 := Act(m1, th1).1;
    q := OnCore(x, p, t, m1, th1, meta, indeg', c, m1, th2);
    var m2 := m1;
    if th2.pc.HighWrite? {
      m2 := SetHigh(m1, th1.tmp, th1.k + 1);
      HighKeeps(m1, th1.tmp, th1.k + 1);
      q := OnCore(x, q, t, m1, th2, meta, indeg', c, m2, th2.(pc := Unlock));
    }
    var m3 := SetSlot(m2, th1.tmp, th1.k, At(m2, th1.tmp, th1.k).(timeFirst := th1.ts));
    q := OnCore(x, q, t, m2, th1.(pc := Unlock), meta, indeg', c, m3, th1.(pc := Done, result := 1));
  }

  lemma HighKeeps(m: Mem, b: nat, h: nat)
    ensures SetHigh(m, b, h).aborted == m.aborted
  {
  }

  // Only the stamps of the header have changed, and the lower one is not locked.
  predicate Restamps(e: Meta, e': Meta) { e'.numEdges == e.numEdges && e'.smallStamp != MARKER }

  lemma MetaTwice(meta: map<nat, Meta>, b: nat, e: Meta, f: Meta)
    ensures MetaOf(meta[b := e], b) == e && meta[b := e][b := f] == meta[b := f]
  {
  }

  /** Past the stamps, when nobody else has the lower one. */
  lemma ThroughStamps(x: Whole, p: seq<nat>, t: nat, m: Mem, th: Thread, meta: map<nat, Meta>, e0: Meta, indeg: map<int, int>, c: Call)
    returns (q: seq<nat>, e: Meta, c': Call)
    requires t < |x.s.threads| && t < |x.calls| && Runs(x, p) == Put(x, t, m, th, meta[th.tmp := e0], indeg, c) && !m.aborted && c.aux.ReadSmall?
    requires e0.smallStamp != MARKER && th.ts != MARKER
    ensures Runs(x, q) == Put(x, t, m, th, meta[th.tmp := e], indeg, c') && c'.aux.Core? && Restamps(e0, e)
  {
    var b := th.tmp;
    e, c' := e0, c;
    q := OnWord(x, p, t, m, th, meta, e, indeg, c');
    e, c' := Header(e, th.ts, c').0, Header(e, th.ts, c').1;
    if c'.aux.ReadLarge? {
      q := OnWord(x, q, t, m, th, meta, e, indeg, c');
      e, c' := Header(e, th.ts, c').0, Header(e, th.ts, c').1;
    }
    if c'.aux.LockSmall? {
      hide Runs, Put;
      q := OnWord(x, q, t, m, th, meta, e, indeg, c');
      e, c' := Header(e, th.ts, c').0, Header(e, th.ts, c').1;
      q := OnWord(x, q, t, m, th, meta, e, indeg, c');
      e, c' := Header(e, th.ts, c').0, Header(e, th.ts, c').1;
      if c'.aux.SetLarge? {
        q := OnWord(x, q, t, m, th, meta, e, indeg, c');
        e, c' := Header(e, th.ts, c').0, Header(e, th.ts, c').1;
      }
      q := OnWord(x, q, t, m, th, meta, e, indeg, c');
      e, c' := Header(e, th.ts, c').0, Header(e, th.ts, c').1;
    }
  }

  lemma OnWord(x: Whole, p: seq<nat>, t: nat, m: Mem, th: Thread, meta: map<nat, Meta>, e: Meta, indeg: map<int, int>, c: Call) returns (q: seq<nat>)
    requires t < |x.s.threads| && t < |x.calls| && Runs(x, p) == Put(x, t, m, th, meta[th.tmp := e], indeg, c) && !m.aborted && !c.aux.Core? && !c.aux.AddIn?
    requires (c.aux.ReadSmall? || c.aux.LockSmall? ==> e.smallStamp != MARKER) && (c.aux.Unlatch? ==> e.smallStamp == MARKER)
    ensures var (e', c') := Header(e, th.ts, c); Runs(x, q) == Put(x, t, m, th, meta[th.tmp := e'], indeg, c')
  {
    hide Runs, Put, Header, MetaOf;
    MetaTwice(meta, th.tmp, e, Header(e, th.ts, c).0);
    q := OnHead(x, p, t, m, th, meta[th.tmp := e], indeg, c);
  }

  /** The edge count, and the plain stores of a first insertion. */
  lemma ThroughCount(x: Whole, p: seq<nat>, t: nat, m: Mem, th: Thread, meta: map<nat, Meta>, indeg: map<int, int>, c: Call)
    returns (q: seq<nat>, e: Meta, c': Call)
    requires t < |x.s.threads| && t < |x.calls| && Runs(x, p) == Put(x, t, m, th, meta, indeg, c) && !m.aborted && c.aux.AddCount?
    requires MetaOf(meta, th.tmp).smallStamp != MARKER && th.ts != MARKER
    ensures Runs(x, q) == Put(x, t, m, th, meta[th.tmp := e], indeg, c') && c'.aux.Core?
    ensures e.numEdges == MetaOf(meta, th.tmp).numEdges + 1 && e.smallStamp != MARKER
  {
    hide Runs, Put;
    q := OnHead(x, p, t, m, th, meta, indeg, c);
    var e0 := MetaOf(meta, th.tmp);
    e, c' := Header(e0, th.ts, c).0, Header(e0, th.ts, c).1;
    if c'.aux.PutSmall? {
      q := OnWord(x, q, t, m, th, meta, e, indeg, c');
      e, c' := Header(e, th.ts, c').0, Header(e, th.ts, c').1;
      q := OnWord(x, q, t, m, th, meta, e, indeg, c');
      e, c' := Header(e, th.ts, c').0, Header(e, th.ts, c').1;
    }
  }

  // ---------------------------------------------------------------- a call from its start

  // Every slot before this one, in chain order, is filled.
  ghost predicate FirstGap(m: Mem, chain: seq<nat>, b: nat, k: nat) {
    && GapAt(m, chain, b, k) && (forall j: nat | j < k :: Filled(m, b, j))
    && forall i: nat, j: nat | i < |chain| && i < Pos(chain, b) && Kind(m, chain[i]) && j < BLOCK_SIZE :: Filled(m, chain[i], j)
  }

  lemma FirstIs(s: State, a: History, t: nat)
    requires Inv(s, a) && t < |s.threads| && s.threads[t].pc.P2Lock? && GapAt(s.m, a.chain, s.threads[t].tmp, s.threads[t].k)
    ensures FirstGap(s.m, a.chain, s.threads[t].tmp, s.threads[t].k)
  {
    var m, th := s.m, s.threads[t];
    assert AtSlot(m, a, th) by {
      SearchParts(s, a, t);
      hide Inv, PoolInv, PtrInv, Clean, Scanned, Full, LockedBy;
    }
    hide Inv, Kind, Filled, Clean;
    forall i: nat, j: nat | i < |a.chain| && i < Pos(a.chain, th.tmp) && Kind(m, a.chain[i]) && j < BLOCK_SIZE ensures Filled(m, a.chain[i], j) {
      assert Full(m, a.chain[i], BLOCK_SIZE, th.to);
    }
  }

  // No free slot is locked.
  ghost predicate GapsFree(m: Mem, chain: seq<nat>) {
    forall b: nat, k: nat | GapAt(m, chain, b, k) :: At(m, b, k).timeFirst != MARKER
  }

  /** A call that nobody disturbs writes its neighbor into the first free slot. */
  lemma Reach(x: Whole, a: History, t: nat) returns (q: seq<nat>, thL: Thread, th': Thread)
    requires Inv(x.s, a) && t < |x.s.threads| && t < |x.calls| && x.calls[t].aux.Core? && !x.s.m.aborted && x.s.threads[t].pc.BeginHead?
    requires Room(x.s.m, a.chain, x.s.threads[t]) && x.s.threads[t].to != x.s.m.from && GapsFree(x.s.m, a.chain)
    ensures Runs(x, q) == Put(x, t, Taken(x.s.m, thL), th', x.meta, x.indeg, x.calls[t].(aux := AddCount))
    ensures FirstGap(x.s.m, a.chain, thL.tmp, thL.k) && CanTake(x.s.m, thL) && InUpdate(th', thL, OutDeg)
    ensures th'.to == x.s.threads[t].to == thL.to && th'.ts == x.s.threads[t].ts == thL.ts
  {
    var m := x.s.m;
    FreshStart(m, x.s.threads[t]);
    hide *;
    var p;
    p, thL := ToLock(x, a, t);
    FoundElim(x, a.chain, t, p, thL);
    var s := State(m, x.s.threads[t := thL]);
    FirstIs(s, a, t);
    CanTakeIntro(s, a, t);
    FirstElim(m, a.chain, thL.tmp, thL.k);
    SetCallIs(x, t, m, thL, Core);
    q, th' := TakeSlot(x, p, t, m, thL);
    SetCallIs(x, t, Taken(m, thL), th', AddCount);
    PutIs(x, t, Taken(m, thL), th', x.meta, x.indeg, x.calls[t].(aux := AddCount));
    UpdateIs(th', thL, OutDeg);
  }

  lemma UpdateIs(th': Thread, th: Thread, pc: Pc)
    requires InUpdate(th', th, pc)
    ensures th'.pc == pc && th'.mode.FreshSlot? && th'.tmp == th.tmp && th'.k == th.k && th'.to == th.to && th'.ts == th.ts
  {
  }

  lemma SetCallIs(x: Whole, t: nat, m: Mem, th: Thread, aux: Aux)
    requires t < |x.s.threads| && t < |x.calls|
    ensures SetCall(x, t, m, th, aux) == x.(s := State(m, x.s.threads[t := th]), calls := x.calls[t := x.calls[t].(aux := aux)])
    ensures x.calls[t].aux == aux ==> SetCall(x, t, m, th, aux) == x.(s := State(m, x.s.threads[t := th]))
  {
    assert x.calls[t].aux == aux ==> x.calls[t := x.calls[t].(aux := aux)] == x.calls;
  }

  lemma FreshStart(m: Mem, th: Thread)
    requires th.pc.BeginHead?
    ensures Searching(th.pc) && FreshEnd(m, th)
  {
  }

  lemma FirstElim(m: Mem, chain: seq<nat>, b: nat, k: nat)
    requires FirstGap(m, chain, b, k)
    ensures GapAt(m, chain, b, k)
  {
    hide GapAt, Filled, Kind;
  }

  lemma CanTakeIntro(s: State, a: History, t: nat)
    requires Inv(s, a) && t < |s.threads| && s.threads[t].pc.P2Lock? && GapAt(s.m, a.chain, s.threads[t].tmp, s.threads[t].k) && GapsFree(s.m, a.chain)
    ensures CanTake(s.m, s.threads[t])
  {
    InvPool(s, a);
    HighBound(s.m, a, s.threads[t].tmp);
    hide Inv, PoolInv, Kind, At, Blk;
  }

  // ---------------------------------------------------------------- calls beside others

  // The calls of schedule that are below n.
  function Within(schedule: seq<nat>, n: nat): seq<nat> {
    if schedule == [] then [] else (if schedule[0] < n then [schedule[0]] else []) + Within(schedule[1..], n)
  }

  function Append(x: Whole, threads: seq<Thread>, calls: seq<Call>): Whole {
    Whole(State(x.s.m, x.s.threads + threads), x.meta, x.indeg, x.calls + calls)
  }

  function Prepend(th: Thread, c: Call, x: Whole): Whole {
    Whole(State(x.s.m, [th] + x.s.threads), x.meta, x.indeg, [c] + x.calls)
  }

  function Shift(schedule: seq<nat>): seq<nat> {
    if schedule == [] then [] else [schedule[0] + 1] + Shift(schedule[1..])
  }

  function Solo(m: Mem, meta: map<nat, Meta>, indeg: map<int, int>, th: Thread, c: Call): Whole {
    Whole(State(m, [th]), meta, indeg, [c])
  }

  // A step depends on what is shared and on the call's own state only.
  lemma GoLocal(x: Whole, t: nat)
    requires t < |x.s.threads| && t < |x.calls|
    ensures var y := Go(Solo(x.s.m, x.meta, x.indeg, x.s.threads[t], x.calls[t]), 0);
      |y.s.threads| == |y.calls| == 1 && Go(x, t) == Put(x, t, y.s.m, y.s.threads[0], y.meta, y.indeg, y.calls[0])
  {
    hide Act, Blocked, Header;
    var z := Solo(x.s.m, x.meta, x.indeg, x.s.threads[t], x.calls[t]);
    assert Able(x, t) <==> Able(z, 0);
    if !Able(x, t) { assert x.s.threads[t := x.s.threads[t]] == x.s.threads && x.calls[t := x.calls[t]] == x.calls; }
    if Able(x, t) && !x.calls[t].aux.Core? { assert x.s.threads[t := x.s.threads[t]] == x.s.threads; }
  }

  lemma PutBeside(x: Whole, t: nat, m: Mem, th: Thread, meta: map<nat, Meta>, indeg: map<int, int>, c: Call, threads: seq<Thread>, calls: seq<Call>, f: Thread, g: Call)
    requires t < |x.s.threads| == |x.calls|
    ensures Put(Append(x, threads, calls), t, m, th, meta, indeg, c) == Append(Put(x, t, m, th, meta, indeg, c), threads, calls)
    ensures Put(Prepend(f, g, x), t + 1, m, th, meta, indeg, c) == Prepend(f, g, Put(x, t, m, th, meta, indeg, c))
  {
    assert (x.s.threads + threads)[t := th] == x.s.threads[t := th] + threads && (x.calls + calls)[t := c] == x.calls[t := c] + calls;
    assert ([f] + x.s.threads)[t + 1 := th] == [f] + x.s.threads[t := th] && ([g] + x.calls)[t + 1 := c] == [g] + x.calls[t := c];
  }

  lemma GoBeside(x: Whole, t: nat, threads: seq<Thread>, calls: seq<Call>, f: Thread, g: Call)
    requires |x.s.threads| == |x.calls|
    ensures |Go(x, t).s.threads| == |Go(x, t).calls| == |x.calls|
    ensures t < |x.calls| ==> Go(Append(x, threads, calls), t) == Append(Go(x, t), threads, calls)
    ensures Go(Prepend(f, g, x), t + 1) == Prepend(f, g, Go(x, t))
    ensures t >= |x.calls| ==> Go(x, t) == x
  {
    hide Go, Put;
    if t < |x.calls| {
      var y := Go(Solo(x.s.m, x.meta, x.indeg, x.s.threads[t], x.calls[t]), 0);
      GoLocal(x, t);
      var u, v := Append(x, threads, calls), Prepend(f, g, x);
      assert u.s.threads[t] == x.s.threads[t] && u.calls[t] == x.calls[t] && v.s.threads[t + 1] == x.s.threads[t] && v.calls[t + 1] == x.calls[t];
      GoLocal(u, t);
      GoLocal(v, t + 1);
      PutBeside(x, t, y.s.m, y.s.threads[0], y.meta, y.indeg, y.calls[0], threads, calls, f, g);
      PutIs(x, t, y.s.m, y.s.threads[0], y.meta, y.indeg, y.calls[0]);
    } else {
      Idle(x, t);
      Idle(Prepend(f, g, x), t + 1);
    }
  }

  lemma Idle(x: Whole, t: nat)
    requires t >= |x.calls|
    ensures Go(x, t) == x
  {
    hide Waits, Header, Step;
  }

  lemma {:induction false} RunsBeside(x: Whole, schedule: seq<nat>, threads: seq<Thread>, calls: seq<Call>, f: Thread, g: Call)
    requires |x.s.threads| == |x.calls|
    ensures |Runs(x, schedule).s.threads| == |Runs(x, schedule).calls| == |x.calls|
    ensures Runs(Append(x, threads, calls), Within(schedule, |x.calls|)) == Append(Runs(x, schedule), threads, calls)
    ensures Runs(Prepend(f, g, x), Shift(schedule)) == Prepend(f, g, Runs(x, schedule))
    decreases |schedule|
  {
    hide Go, Append, Prepend;
    if schedule != [] {
      var t := schedule[0];
      GoBeside(x, t, threads, calls, f, g);
      RunsBeside(Go(x, t), schedule[1..], threads, calls, f, g);
      if t < |x.calls| {
        assert Within(schedule, |x.calls|) == [t] + Within(schedule[1..], |x.calls|);
        assert ([t] + Within(schedule[1..], |x.calls|))[1..] == Within(schedule[1..], |x.calls|);
      } else {
        assert Within(schedule, |x.calls|) == Within(schedule[1..], |x.calls|);
      }
      assert ([t + 1] + Shift(schedule[1..]))[1..] == Shift(schedule[1..]);
    }
  }

  // ---------------------------------------------------------------- a quiet store between calls

  // A store that calls may start on.
  ghost predicate Quiet(m: Mem, meta: map<nat, Meta>, chain: seq<nat>) {
    AllReady(Whole(State(m, []), meta, map[], []), chain)
  }

  function Starting(to: int, ts: int): Thread {
    Thread(to, ts, BeginHead, Unlocked, Head, 0, 0, 0, 0, 0, Head, 0, 0)
  }

  const IDLE := Call(Core, 0)

  predicate AllStarting(threads: seq<Thread>, calls: seq<Call>) {
    && |calls| == |threads|
    && forall t | 0 <= t < |threads| :: threads[t].pc.BeginHead? && threads[t].to >= 0 && threads[t].ts != MARKER && calls[t].aux.Core?
  }

  lemma QuietReady(m: Mem, meta: map<nat, Meta>, chain: seq<nat>, indeg: map<int, int>, threads: seq<Thread>, calls: seq<Call>)
    requires Quiet(m, meta, chain) && AllStarting(threads, calls)
    ensures AllReady(Whole(State(m, threads), meta, indeg, calls), chain)
  {
    hide ChainOf, NoDuplicates, FilledSlots, FilledIn, Kind, At, MetaOf;
  }

  lemma QuietFacts(m: Mem, meta: map<nat, Meta>, chain: seq<nat>)
    requires Quiet(m, meta, chain)
    ensures Ready(State(m, []), chain) && !m.aborted && ChainOf(m, chain) && NoDuplicates(m, chain)
    ensures forall b: nat :: MetaOf(meta, b).smallStamp != MARKER && MetaOf(meta, b).numEdges >= 0
    ensures forall b: nat | b in chain && Kind(m, b) :: MetaOf(meta, b).numEdges == |FilledIn(m, b)|
    ensures forall b: nat, k: nat | b in chain && k < BLOCK_SIZE && Kind(m, b) :: At(m, b, k).timeFirst != MARKER
    ensures forall b | b in m.blocks :: 1 <= b < m.tail && |m.blocks[b].slots| == BLOCK_SIZE && m.blocks[b].high <= BLOCK_SIZE
    ensures 1 <= m.tail && m.outdeg == |FilledSlots(m, chain)|
  {
    hide ChainOf, NoDuplicates, FilledSlots, FilledIn, Kind, At, MetaOf;
  }

  lemma QuietIntro(m: Mem, meta: map<nat, Meta>, chain: seq<nat>)
    requires !m.aborted && ChainOf(m, chain) && NoDuplicates(m, chain)
    requires forall b: nat :: MetaOf(meta, b).smallStamp != MARKER && MetaOf(meta, b).numEdges >= 0
    requires forall b: nat | b in chain && Kind(m, b) :: MetaOf(meta, b).numEdges == |FilledIn(m, b)|
    requires forall b: nat, k: nat | b in chain && k < BLOCK_SIZE && Kind(m, b) :: At(m, b, k).timeFirst != MARKER
    requires forall b | b in m.blocks :: 1 <= b < m.tail && |m.blocks[b].slots| == BLOCK_SIZE && m.blocks[b].high <= BLOCK_SIZE
    requires 1 <= m.tail && m.outdeg == |FilledSlots(m, chain)|
    ensures Quiet(m, meta, chain)
  {
    hide ChainOf, NoDuplicates, FilledSlots, FilledIn, Kind, At, MetaOf;
  }

  // m' is m with one edge more, in the free slot k of b.
  ghost predicate OneMore(m: Mem, m': Mem, b: nat, k: nat, to: int, ts: int) {
    && m' == m.(blocks := m'.blocks, outdeg := m.outdeg + 1) && m'.blocks.Keys == m.blocks.Keys && b in m.blocks && k < |m.blocks[b].slots|
    && (forall c | c in m.blocks && c != b :: m'.blocks[c] == m.blocks[c])
    && m'.blocks[b] == m.blocks[b].(slots := m.blocks[b].slots[k := Slot(to, ts)], high := if k >= m.blocks[b].high then k + 1 else m.blocks[b].high)
  }

  lemma SettledIs(m: Mem, thL: Thread, th: Thread)
    requires CanTake(m, thL) && InUpdate(th, thL, OutDeg)
    ensures OneMore(m, Settled(Taken(m, thL), th), thL.tmp, thL.k, th.to, th.ts)
    ensures Taken(m, thL).aborted == m.aborted
  {
    var m1 := Taken(m, thL);
    SlotSet(m, thL.tmp, thL.k, Slot(thL.to, MARKER));
    assert thL.tmp in m.blocks;
    assert Blk(m1, thL.tmp).slots[thL.k := Slot(th.to, th.ts)] == Blk(m, thL.tmp).slots[thL.k := Slot(th.to, th.ts)];
  }

  // What one edge more changes.
  lemma MoreFacts(m: Mem, m': Mem, chain: seq<nat>, b: nat, k: nat, to: int, ts: int)
    requires OneMore(m, m', b, k, to, ts) && FirstGap(m, chain, b, k) && to >= 0 && |m.blocks[b].slots| == BLOCK_SIZE
    ensures m'.etype == m.etype && m'.from == m.from && m'.tail == m.tail && m'.aborted == m.aborted && m'.outdeg == m.outdeg + 1
    ensures forall l :: Word(m', l) == Word(m, l)
    ensures forall c :: Kind(m', c) == Kind(m, c)
    ensures forall c: nat, j: nat :: At(m', c, j) == if c == b && j == k then Slot(to, ts) else At(m, c, j)
    ensures forall c: nat, j: nat :: Filled(m', c, j) <==> Filled(m, c, j) || (c == b && j == k)
  {
    assert k <= m.blocks[b].high by { if k > 0 { assert Filled(m, b, k - 1); } }
    forall c: nat, j: nat ensures At(m', c, j) == if c == b && j == k then Slot(to, ts) else At(m, c, j) {}
  }

  lemma FilledMore(m: Mem, m': Mem, chain: seq<nat>, b: nat, k: nat)
    requires b in chain && k < BLOCK_SIZE && !Filled(m, b, k)
    requires forall c: nat, j: nat :: Filled(m', c, j) <==> Filled(m, c, j) || (c == b && j == k)
    ensures |FilledSlots(m', chain)| == |FilledSlots(m, chain)| + 1
    ensures forall c: nat :: |FilledIn(m', c)| == |FilledIn(m, c)| + if c == b then 1 else 0
  {
    assert FilledSlots(m', chain) == FilledSlots(m, chain) + {(b, k)};
    forall c: nat ensures |FilledIn(m', c)| == |FilledIn(m, c)| + if c == b then 1 else 0 { FilledInMore(m, m', b, k, c); }
    hide FilledIn;
  }

  lemma FilledInMore(m: Mem, m': Mem, b: nat, k: nat, c: nat)
    requires k < BLOCK_SIZE && !Filled(m, b, k)
    requires forall d: nat, j: nat :: Filled(m', d, j) <==> Filled(m, d, j) || (d == b && j == k)
    ensures |FilledIn(m', c)| == |FilledIn(m, c)| + if c == b then 1 else 0
  {
    assert FilledIn(m', c) == FilledIn(m, c) + if c == b then {k} else {};
  }

  /** After a call that found room, the store is quiet again. */
  lemma QuietNext(m: Mem, m': Mem, meta: map<nat, Meta>, chain: seq<nat>, b: nat, k: nat, to: int, ts: int, e: Meta)
    requires Quiet(m, meta, chain) && FirstGap(m, chain, b, k) && OneMore(m, m', b, k, to, ts) && to >= 0 && ts != MARKER
    requires forall c: nat, j: nat | c in chain :: At(m, c, j).neighbor != to
    requires e.numEdges == MetaOf(meta, b).numEdges + 1 && e.smallStamp != MARKER
    ensures Quiet(m', meta[b := e], chain)
  {
    hide *;
    QuietFacts(m, meta, chain);
    GapIs(m, chain, b, k);
    MoreBlocks(m, m', b, k, to, ts);
    MoreFacts(m, m', chain, b, k, to, ts);
    FilledMore(m, m', chain, b, k);
    MetaPut(meta, b, e);
    MoreUnique(m, m', chain, b, k, to, ts);
    SameWords(m, m', chain);
    var meta' := meta[b := e];
    forall d: nat ensures MetaOf(meta', d).smallStamp != MARKER && MetaOf(meta', d).numEdges >= 0 {
      assert MetaOf(meta, d).smallStamp != MARKER && MetaOf(meta, d).numEdges >= 0;
    }
    QuietIntro(m', meta[b := e], chain);
  }

  lemma GapIs(m: Mem, chain: seq<nat>, b: nat, k: nat)
    requires FirstGap(m, chain, b, k)
    ensures b in chain && k < BLOCK_SIZE && !Filled(m, b, k) && Kind(m, b)
  {
    hide Filled, Kind;
  }

  lemma MoreBlocks(m: Mem, m': Mem, b: nat, k: nat, to: int, ts: int)
    requires OneMore(m, m', b, k, to, ts) && k < BLOCK_SIZE
    requires forall b | b in m.blocks :: 1 <= b < m.tail && |m.blocks[b].slots| == BLOCK_SIZE && m.blocks[b].high <= BLOCK_SIZE
    ensures forall c | c in m'.blocks :: 1 <= c < m'.tail && |m'.blocks[c].slots| == BLOCK_SIZE && m'.blocks[c].high <= BLOCK_SIZE
    ensures |m.blocks[b].slots| == BLOCK_SIZE && m'.blocks.Keys == m.blocks.Keys
  {
  }

  lemma SameWords(m: Mem, m': Mem, chain: seq<nat>)
    requires ChainOf(m, chain) && (forall l :: Word(m', l) == Word(m, l)) && m'.blocks.Keys == m.blocks.Keys
    ensures ChainOf(m', chain)
  {
    hide Word, Distinct;
  }

  lemma MoreUnique(m: Mem, m': Mem, chain: seq<nat>, b: nat, k: nat, to: int, ts: int)
    requires NoDuplicates(m, chain) && (forall c: nat, j: nat | c in chain :: At(m, c, j).neighbor != to)
    requires forall c :: Kind(m', c) == Kind(m, c)
    requires forall c: nat, j: nat :: At(m', c, j) == if c == b && j == k then Slot(to, ts) else At(m, c, j)
    requires forall c: nat, j: nat :: Filled(m', c, j) <==> Filled(m, c, j) || (c == b && j == k)
    ensures NoDuplicates(m', chain)
  {
    hide Kind, At, Filled;
  }

  // ---------------------------------------------------------------- one call alone

  // A destination that is not there, nor the source.
  predicate NewTarget(m: Mem, to: int) {
    to >= 0 && to != m.from && forall b | b in m.blocks :: forall e | e in m.blocks[b].slots :: e.neighbor != to
  }

  function Greatest(s: seq<Slot>): (r: int)
    ensures r >= 0 && forall e | e in s :: e.neighbor <= r
  {
    if s == [] then 0 else var r := Greatest(s[1..]); if s[0].neighbor > r then s[0].neighbor else r
  }

  lemma {:induction false} GreatestOf(blocks: map<nat, Block>) returns (r: nat)
    ensures forall b | b in blocks :: forall e | e in blocks[b].slots :: e.neighbor <= r
    decreases |blocks|
  {
    r := 0;
    if blocks != map[] {
      var b :| b in blocks;
      var rest := blocks - {b};
      assert b !in rest && rest.Keys == blocks.Keys - {b};
      assert |rest.Keys| < |blocks.Keys|;
      r := GreatestOf(rest);
      var g := Greatest(blocks[b].slots);
      if g > r { r := g; }
      forall c | c in blocks ensures forall e | e in blocks[c].slots :: e.neighbor <= r { if c != b { assert rest[c] == blocks[c]; } }
    }
  }

  // There are always two new destinations.
  lemma TwoTargets(m: Mem) returns (to: int)
    ensures NewTarget(m, to) && NewTarget(m, to + 1) && to > 0
  {
    var r := GreatestOf(m.blocks);
    to := 1 + if m.from > r then m.from else r;
  }

  lemma NewNowhere(m: Mem, chain: seq<nat>, to: int)
    requires NewTarget(m, to) && ChainOf(m, chain) && (forall b | b in m.blocks :: |m.blocks[b].slots| == BLOCK_SIZE)
    ensures forall b: nat, k: nat | b in chain && k < BLOCK_SIZE :: At(m, b, k).neighbor != to
    ensures to > 0 ==> forall b: nat, k: nat | b in chain :: At(m, b, k).neighbor != to
  {
    forall b: nat, k: nat | b in chain && k < BLOCK_SIZE ensures At(m, b, k).neighbor != to { assert At(m, b, k) in m.blocks[b].slots; }
  }

  // A quiet store with a gap has room for a new destination.
  lemma QuietRoom(m: Mem, meta: map<nat, Meta>, chain: seq<nat>, to: int, th: Thread)
    requires Quiet(m, meta, chain) && NewTarget(m, to) && to > 0 && th.to == to && exists b: nat, k: nat :: GapAt(m, chain, b, k)
    ensures Room(m, chain, th) && GapsFree(m, chain) && to != m.from
  {
    QuietFacts(m, meta, chain);
    NewNowhere(m, chain, to);
    hide Quiet, Kind, At, Filled, Word;
  }

  // The start of the history is the chain itself.
  lemma QuietStart(x: Whole, chain: seq<nat>)
    requires AllReady(x, chain)
    ensures Inv(x.s, Start(x.s, chain)) && Start(x.s, chain).chain == chain && !x.s.m.aborted
  {
    StartInv(x.s, chain);
    StartFields(x.s, chain);
    hide Inv, Start, Ready;
  }

  /** One call alone on a quiet store writes its neighbor into the first free slot. */
  lemma SoloReach(m: Mem, meta: map<nat, Meta>, indeg: map<int, int>, chain: seq<nat>, to: int) returns (q: seq<nat>, thL: Thread, th: Thread)
    requires Quiet(m, meta, chain) && NewTarget(m, to) && to > 0 && exists b: nat, k: nat :: GapAt(m, chain, b, k)
    ensures Runs(Solo(m, meta, indeg, Starting(to, 0), IDLE), q) == Solo(Taken(m, thL), meta, indeg, th, Call(AddCount, 0))
    ensures FirstGap(m, chain, thL.tmp, thL.k) && CanTake(m, thL) && InUpdate(th, thL, OutDeg) && th.to == to == thL.to && th.ts == 0 && !m.aborted
  {
    hide *;
    var x := Solo(m, meta, indeg, Starting(to, 0), IDLE);
    SoloIs(m, meta, indeg, Starting(to, 0), IDLE);
    StartingIs(to, 0);
    QuietReady(m, meta, chain, indeg, [Starting(to, 0)], [IDLE]);
    QuietStart(x, chain);
    QuietRoom(m, meta, chain, to, Starting(to, 0));
    q, thL, th := Reach(x, Start(x.s, chain), 0);
    PutIs(x, 0, Taken(m, thL), th, meta, indeg, IDLE.(aux := AddCount));
    SoloIs(Taken(m, thL), meta, indeg, th, Call(AddCount, 0));
    assert [Starting(to, 0)][0 := th] == [th] && [IDLE][0 := Call(AddCount, 0)] == [Call(AddCount, 0)];
  }

  lemma SoloIs(m: Mem, meta: map<nat, Meta>, indeg: map<int, int>, th: Thread, c: Call)
    ensures Solo(m, meta, indeg, th, c) == Whole(State(m, [th]), meta, indeg, [c])
  {
  }

  lemma StartingIs(to: int, ts: int)
    requires to >= 0 && ts >= 0
    ensures var th := Starting(to, ts); th.pc.BeginHead? && th.to == to && th.ts == ts && AllStarting([th], [IDLE]) && IDLE == Call(Core, 0)
    ensures MARKER == -1
  {
  }

  /** And on from there it returns, leaving the store quiet. */
  lemma SoloFinish(m: Mem, meta: map<nat, Meta>, indeg: map<int, int>, chain: seq<nat>, to: int, p: seq<nat>, thL: Thread, th: Thread)
    returns (q: seq<nat>, m': Mem, e: Meta, indeg': map<int, int>, th': Thread, c: Call)
    requires Quiet(m, meta, chain) && NewTarget(m, to) && to > 0
    requires Runs(Solo(m, meta, indeg, Starting(to, 0), IDLE), p) == Solo(Taken(m, thL), meta, indeg, th, Call(AddCount, 0))
    requires FirstGap(m, chain, thL.tmp, thL.k) && CanTake(m, thL) && InUpdate(th, thL, OutDeg) && th.to == to == thL.to && th.ts == 0 && !m.aborted
    ensures Runs(Solo(m, meta, indeg, Starting(to, 0), IDLE), q) == Solo(m', meta[thL.tmp := e], indeg', th', c)
    ensures OneMore(m, m', thL.tmp, thL.k, to, 0) && Quiet(m', meta[thL.tmp := e], chain) && th'.pc.Done? && c.aux.Core?
  {
    hide *;
    var x := Solo(m, meta, indeg, Starting(to, 0), IDLE);
    SoloIs(m, meta, indeg, Starting(to, 0), IDLE);
    UpdateIs(th, thL, OutDeg);
    QuietFacts(m, meta, chain);
    StartingIs(to, 0);
    var b, m1 := thL.tmp, Taken(m, thL);
    SettledIs(m, thL, th);
    var e0 := MetaOf(meta, b);
    SoloPut(m, meta, indeg, Starting(to, 0), m1, th, Call(AddCount, 0));
    q := p;
    q, e, c := ThroughCount(x, p, 0, m1, th, meta, indeg, Call(AddCount, 0));
    UpdateSelf(th);
    var e1 := e;
    q, indeg' := ToStamps(x, q, 0, m1, th, meta[b := e1], indeg, c);
    m', th' := Settled(m1, th), th.(pc := Done, result := 1);
    SettledAborts(m1, th);
    c := c.(aux := ReadSmall);
    q, e, c := ThroughStamps(x, q, 0, m', th', meta, e1, indeg', c);
    SoloPut2(m, meta, indeg, Starting(to, 0), m', th', meta[b := e], indeg', c);
    RestampIs(e1, e);
    NewNowhere(m, chain, to);
    QuietNext(m, m', meta, chain, b, thL.k, to, 0, e);
  }

  lemma RestampIs(e: Meta, e': Meta)
    requires Restamps(e, e')
    ensures e'.numEdges == e.numEdges && e'.smallStamp != MARKER
  {
  }

  lemma SettledAborts(m: Mem, th: Thread)
    ensures Settled(m, th).aborted == m.aborted
  {
  }

  lemma UpdateSelf(th: Thread)
    requires th.pc.OutDeg? && th.mode.FreshSlot?
    ensures InUpdate(th, th, OutDeg)
  {
  }

  lemma SoloPut(m: Mem, meta: map<nat, Meta>, indeg: map<int, int>, th0: Thread, m': Mem, th': Thread, c: Call)
    ensures var x := Solo(m, meta, indeg, th0, IDLE); |x.s.threads| == |x.calls| == 1 && Solo(m', meta, indeg, th', c) == Put(x, 0, m', th', meta, indeg, c)
  {
    assert [th0][0 := th'] == [th'] && [IDLE][0 := c] == [c];
  }

  lemma SoloPut2(m: Mem, meta: map<nat, Meta>, indeg: map<int, int>, th0: Thread, m': Mem, th': Thread, meta': map<nat, Meta>, indeg': map<int, int>, c: Call)
    ensures var x := Solo(m, meta, indeg, th0, IDLE); |x.s.threads| == |x.calls| == 1 && Solo(m', meta', indeg', th', c) == Put(x, 0, m', th', meta', indeg', c)
  {
    assert [th0][0 := th'] == [th'] && [IDLE][0 := c] == [c];
  }

  // ---------------------------------------------------------------- two calls in an emptied block

  // The history of a run whose chain's words have not changed still has that chain.
  lemma SameChainThere(s: State, a: History, chain: seq<nat>)
    requires Inv(s, a) && chain <= a.chain && LocOk(chain, EndLoc(chain)) && Word(s.m, EndLoc(chain)) == 0
    ensures a.chain == chain
  {
    var l := EndLoc(chain);
    SearchPartsAll(s, a);
    hide Inv;
    if chain != [] {
      assert a.chain[|chain| - 1] == chain[|chain| - 1];
      PosAt(a.chain, |chain| - 1);
    }
    WordRead(s.m, a, s.threads, l);
    EndWord(s.m, a, l);
  }

  lemma SearchPartsAll(s: State, a: History)
    requires Inv(s, a)
    ensures PoolInv(s.m, a) && PtrInv(s.m, a, s.threads)
  {
    hide PoolInv, PtrInv;
  }

  // The history after a run that left the chain's last word alone.
  lemma HistoryThere(x: Whole, chain: seq<nat>, schedule: seq<nat>) returns (a: History)
    requires AllReady(x, chain) && Word(Runs(x, schedule).s.m, EndLoc(chain)) == Word(x.s.m, EndLoc(chain))
    ensures Inv(Runs(x, schedule).s, a) && a.chain == chain
  {
    QuietStart(x, chain);
    var core := Underneath(x, schedule);
    a := RunKeeps(x.s, Start(x.s, chain), core);
    LastWord(x, chain);
    FollowsFields(Start(x.s, chain), a);
    hide Inv, Runs, Start, AllReady, Word;
    EndOk(chain);
    SameChainThere(Runs(x, schedule).s, a, chain);
  }

  lemma EndOk(chain: seq<nat>)
    ensures LocOk(chain, EndLoc(chain))
  {
  }

  lemma LastWord(x: Whole, chain: seq<nat>)
    requires AllReady(x, chain)
    ensures Word(x.s.m, EndLoc(chain)) == 0
  {
    ReadyChain(x.s, chain);
    hide AllReady, Word;
    if chain != [] { PosLast(chain); }
    EndOk(chain);
  }

  lemma ReadyChain(s: State, chain: seq<nat>)
    requires Ready(s, chain)
    ensures ChainOf(s.m, chain) && Distinct(chain)
  {
    hide NoDuplicates, FilledSlots;
  }

  lemma PosLast(chain: seq<nat>)
    requires Distinct(chain) && chain != []
    ensures Pos(chain, chain[|chain| - 1]) == |chain| - 1
  {
    PosAt(chain, |chain| - 1);
  }

  // The memory with the first call's neighbor in slot 0 of a block that had no edge.
  lemma TakenHollow(m: Mem, meta: map<nat, Meta>, chain: seq<nat>, thL: Thread)
    requires Quiet(m, meta, chain) && FirstGap(m, chain, thL.tmp, thL.k) && CanTake(m, thL) && Hollow(m, thL.tmp) && thL.to >= 0
    ensures var m1, b := Taken(m, thL), thL.tmp;
      && thL.k == 0 && MetaOf(meta, b).numEdges == 0 && m1.aborted == m.aborted && m1.from == m.from
      && (forall l :: Word(m1, l) == Word(m, l)) && (forall c :: Kind(m1, c) == Kind(m, c))
      && (forall c: nat, j: nat :: At(m1, c, j) == if c == b && j == 0 then Slot(thL.to, MARKER) else At(m, c, j))
      && (forall c: nat, j: nat :: Filled(m1, c, j) <==> Filled(m, c, j) || (c == b && j == 0))
  {
    hide Quiet, Ready, ChainOf, NoDuplicates, FilledIn, FilledSlots, FirstGap, Hollow, MetaOf;
    QuietFacts(m, meta, chain);
    var m1, b := Taken(m, thL), thL.tmp;
    HollowFirst(m, chain, b, thL.k);
    SlotSet(m, b, thL.k, Slot(thL.to, MARKER));
    forall c: nat, j: nat ensures At(m1, c, j) == if c == b && j == 0 then Slot(thL.to, MARKER) else At(m, c, j) {}
  }

  // The first gap of an emptied block is its first slot.
  lemma HollowFirst(m: Mem, chain: seq<nat>, b: nat, k: nat)
    requires FirstGap(m, chain, b, k) && Hollow(m, b)
    ensures k == 0 && b in chain && Kind(m, b) && Blk(m, b).high > 0 && FilledIn(m, b) == {}
  {
    hide Filled, Pos;
    assert k == 0 || Filled(m, b, 0);
    NoneFilled(m, b);
  }

  lemma NoneFilled(m: Mem, b: nat)
    requires forall k: nat :: !Filled(m, b, k)
    ensures FilledIn(m, b) == {}
  {
    hide Filled;
  }

  // The second call has room, and goes to the same block.
  lemma SecondRoom(m: Mem, meta: map<nat, Meta>, chain: seq<nat>, thL: Thread, m1: Mem, th2: Thread)
    requires Quiet(m, meta, chain) && FirstGap(m, chain, thL.tmp, thL.k) && Hollow(m, thL.tmp) && thL.k == 0
    requires NewTarget(m, th2.to) && th2.to > 0 && th2.to != thL.to && m1.from == m.from
    requires (forall l :: Word(m1, l) == Word(m, l)) && (forall c :: Kind(m1, c) == Kind(m, c))
    requires forall c: nat, j: nat :: At(m1, c, j) == if c == thL.tmp && j == 0 then Slot(thL.to, MARKER) else At(m, c, j)
    requires forall c: nat, j: nat :: Filled(m1, c, j) <==> Filled(m, c, j) || (c == thL.tmp && j == 0)
    ensures Room(m1, chain, th2) && GapsFree(m1, chain) && GapAt(m1, chain, thL.tmp, 1) && th2.to != m1.from
  {
    QuietFacts(m, meta, chain);
    NewNowhere(m, chain, th2.to);
    GapIs(m, chain, thL.tmp, thL.k);
    assert forall k: nat :: !Filled(m, thL.tmp, k);
    hide Quiet, FirstGap, Hollow, Kind, At, Filled, Word, NoDuplicates, FilledSlots, FilledIn;
    assert GapAt(m1, chain, thL.tmp, 1);
    forall b: nat, k: nat | GapAt(m1, chain, b, k) ensures At(m1, b, k).timeFirst != MARKER {}
  }

  lemma SecondHere(m: Mem, m1: Mem, chain: seq<nat>, b: nat, b2: nat, k2: nat)
    requires FirstGap(m, chain, b, 0) && FirstGap(m1, chain, b2, k2) && GapAt(m1, chain, b, 1)
    requires (forall c :: Kind(m1, c) == Kind(m, c)) && forall c: nat, j: nat :: Filled(m1, c, j) <==> Filled(m, c, j) || (c == b && j == 0)
    ensures b2 == b
  {
    hide Kind, Filled;
    assert b in chain && b2 in chain;
    var i, j := Pos(chain, b), Pos(chain, b2);
    assert chain[i] == b && chain[j] == b2;
  }

  /** The first call comes as far as finding no edge counted, before its plain stores. */
  lemma ClashFirst(m: Mem, meta: map<nat, Meta>, indeg: map<int, int>, chain: seq<nat>, to: int, p: seq<nat>, thL: Thread, th: Thread, ts2: int)
    returns (x: Whole, q: seq<nat>, a: History, e: Meta)
    requires Quiet(m, meta, chain) && NewTarget(m, to) && NewTarget(m, to + 1) && to > 0 && ts2 >= 0
    requires Runs(Solo(m, meta, indeg, Starting(to, 0), IDLE), p) == Solo(Taken(m, thL), meta, indeg, th, Call(AddCount, 0))
    requires FirstGap(m, chain, thL.tmp, thL.k) && CanTake(m, thL) && InUpdate(th, thL, OutDeg) && th.to == to == thL.to && th.ts == 0 && !m.aborted
    requires Hollow(m, thL.tmp)
    ensures x == Whole(State(m, [Starting(to, 0), Starting(to + 1, ts2)]), meta, indeg, [IDLE, IDLE]) && AllReady(x, chain)
    ensures Runs(x, q) == Whole(State(Taken(m, thL), [th, Starting(to + 1, ts2)]), meta[thL.tmp := e], indeg, [Call(PutSmall, 0), IDLE])
    ensures e == MetaOf(meta, thL.tmp).(numEdges := 1) && Inv(Runs(x, q).s, a) && a.chain == chain
    ensures thL.k == 0
  {
    hide *;
    var th1, th2 := Starting(to, 0), Starting(to + 1, ts2);
    var s := Solo(m, meta, indeg, th1, IDLE);
    SoloIs(m, meta, indeg, th1, IDLE);
    SoloIs(Taken(m, thL), meta, indeg, th, Call(AddCount, 0));
    UpdateIs(th, thL, OutDeg);
    TakenHollow(m, meta, chain, thL);
    x := Whole(State(m, [th1, th2]), meta, indeg, [IDLE, IDLE]);
    StartingIs(to, 0);
    StartingIs(to + 1, ts2);
    BothStarting(th1, th2);
    QuietReady(m, meta, chain, indeg, [th1, th2], [IDLE, IDLE]);
    RunsBeside(s, p, [th2], [IDLE], th2, IDLE);
    AppendIs(s, [th2], [IDLE]);
    AppendIs(Runs(s, p), [th2], [IDLE]);
    assert [th1] + [th2] == [th1, th2] && [th] + [th2] == [th, th2] && [IDLE] + [IDLE] == [IDLE, IDLE] && [Call(AddCount, 0)] + [IDLE] == [Call(AddCount, 0), IDLE];
    q := Within(p, 1);
    PutIs(x, 0, Taken(m, thL), th, meta, indeg, Call(AddCount, 0));
    assert [th1, th2][0 := th] == [th, th2] && [IDLE, IDLE][0 := Call(AddCount, 0)] == [Call(AddCount, 0), IDLE];
    q := OnHead(x, q, 0, Taken(m, thL), th, meta, indeg, Call(AddCount, 0));
    e := MetaOf(meta, thL.tmp).(numEdges := 1);
    FirstCount(MetaOf(meta, thL.tmp), 0);
    PutIs(x, 0, Taken(m, thL), th, meta[thL.tmp := e], indeg, Call(PutSmall, 0));
    assert [IDLE, IDLE][0 := Call(PutSmall, 0)] == [Call(PutSmall, 0), IDLE];
    a := HistoryThere(x, chain, q);
  }

  lemma FirstCount(e: Meta, ts: int)
    requires e.numEdges == 0
    ensures Header(e, ts, Call(AddCount, 0)) == (e.(numEdges := 1), Call(PutSmall, 0))
  {
  }

  lemma BothStarting(th1: Thread, th2: Thread)
    requires AllStarting([th1], [IDLE]) && AllStarting([th2], [IDLE])
    ensures AllStarting([th1, th2], [IDLE, IDLE])
  {
    assert [th1][0] == th1 && [th2][0] == th2 && [IDLE][0] == IDLE;
  }

  lemma AppendIs(x: Whole, threads: seq<Thread>, calls: seq<Call>)
    ensures Append(x, threads, calls) == Whole(State(x.s.m, x.s.threads + threads), x.meta, x.indeg, x.calls + calls)
  {
  }

  /** The second call comes to the same block, counts its edge, and locks the lower stamp. */
  lemma ClashSecond(y: Whole, m: Mem, chain: seq<nat>, a: History, b: nat, e: Meta, to2: int, ts2: int)
    returns (q: seq<nat>, m3: Mem, th2: Thread, meta3: map<nat, Meta>, e3: Meta, indeg3: map<int, int>, c: Call)
    requires |y.s.threads| == |y.calls| == 2 && y.s.threads[1] == Starting(to2, ts2) && y.calls[1] == IDLE && Inv(y.s, a) && a.chain == chain && !y.s.m.aborted
    requires Room(y.s.m, chain, Starting(to2, ts2)) && GapsFree(y.s.m, chain) && to2 != y.s.m.from && GapAt(y.s.m, chain, b, 1)
    requires FirstGap(m, chain, b, 0) && (forall c :: Kind(y.s.m, c) == Kind(m, c))
    requires forall c: nat, j: nat :: Filled(y.s.m, c, j) <==> Filled(m, c, j) || (c == b && j == 0)
    requires MetaOf(y.meta, b) == e && e.numEdges == 1 && e.smallStamp != MARKER && ts2 > e.largeStamp && ts2 >= 0 && to2 >= 0
    ensures Runs(y, q) == Put(y, 1, m3, th2, meta3, indeg3, c) && c.aux.TestLarge? && th2.pc.Done? && th2.tmp == b && th2.ts == ts2
    ensures meta3 == y.meta[b := e3] && e3.smallStamp == MARKER && !m3.aborted
  {
    hide *;
    StartingIs(to2, ts2);
    var thL, th;
    q, thL, th := Reach(y, a, 1);
    UpdateIs(th, thL, OutDeg);
    SecondHere(m, y.s.m, chain, b, thL.tmp, thL.k);
    var m2 := Taken(y.s.m, thL);
    SettledIs(y.s.m, thL, th);
    var e2 := e.(numEdges := 2);
    SecondSteps(e, ts2);
    q := OnHead(y, q, 1, m2, th, y.meta, y.indeg, Call(AddCount, 0));
    UpdateSelf(th);
    q, indeg3 := ToStamps(y, q, 1, m2, th, y.meta[b := e2], y.indeg, IDLE);
    m3, th2 := Settled(m2, th), th.(pc := Done, result := 1);
    SettledAborts(m2, th);
    q := OnWord(y, q, 1, m3, th2, y.meta, e2, indeg3, Call(ReadSmall, 0));
    if Header(e2, ts2, Call(ReadSmall, 0)).1.aux.ReadLarge? {
      q := OnWord(y, q, 1, m3, th2, y.meta, e2, indeg3, Call(ReadLarge, 0));
    }
    q := OnWord(y, q, 1, m3, th2, y.meta, e2, indeg3, Call(LockSmall, 0));
    e3, c := Header(e2, ts2, Call(LockSmall, 0)).0, Header(e2, ts2, Call(LockSmall, 0)).1;
    meta3 := y.meta[b := e3];
  }

  lemma SecondSteps(e: Meta, ts: int)
    requires e.numEdges == 1 && ts > e.largeStamp
    ensures Header(e, ts, Call(AddCount, 0)) == (e.(numEdges := 2), IDLE) && IDLE.(aux := ReadSmall) == Call(ReadSmall, 0) && IDLE.aux.Core?
    ensures IDLE.(aux := AddCount) == Call(AddCount, 0)
    ensures var f := e.(numEdges := 2);
      && Header(f, ts, Call(ReadSmall, 0)) == (f, if EdgeBlocks.UnsignedLess(ts, f.smallStamp) then Call(LockSmall, 0) else Call(ReadLarge, 0))
      && Header(f, ts, Call(ReadLarge, 0)) == (f, Call(LockSmall, 0))
      && Header(f, ts, Call(LockSmall, 0)).0.smallStamp == MARKER && Header(f, ts, Call(LockSmall, 0)).1.aux.TestLarge?
  {
  }

  /** The first call overwrites the lock, and returns; the second waits for it for ever. */
  lemma ClashThird(z: Whole, th: Thread, b: nat, e: Meta) returns (q: seq<nat>)
    requires |z.s.threads| == |z.calls| == 2 && z.s.threads[0] == th && z.calls[0] == Call(PutSmall, 0) && !z.s.m.aborted
    requires InUpdate(th, th, OutDeg) && th.ts == 0 && th.tmp == b && MetaOf(z.meta, b) == e
    requires z.s.threads[1].pc.Done? && z.s.threads[1].tmp == b && z.s.threads[1].ts > 0 && z.calls[1].aux.TestLarge?
    ensures Deadlocked(Runs(z, q))
  {
    hide *;
    var m, meta0 := z.s.m, z.meta;
    Here0(z, 0);
    q := OnHead(z, [], 0, m, th, meta0, z.indeg, Call(PutSmall, 0));
    PlainSteps(e);
    q := OnWord(z, q, 0, m, th, meta0, e.(smallStamp := 0), z.indeg, Call(PutLarge, 0));
    var e1 := Meta(e.numEdges, 0, 0);
    var indeg';
    q, indeg' := ToStamps(z, q, 0, m, th, meta0[b := e1], z.indeg, IDLE);
    var m', th' := Settled(m, th), th.(pc := Done, result := 1);
    SettledAborts(m, th);
    q := OnWord(z, q, 0, m', th', meta0, e1, indeg', Call(ReadSmall, 0));
    q := OnWord(z, q, 0, m', th', meta0, e1, indeg', Call(ReadLarge, 0));
    var w := Runs(z, q);
    PutIs(z, 0, m', th', meta0[b := e1], indeg', IDLE);
    Here0(w, 1);
    var th2, c2 := w.s.threads[1], w.calls[1];
    LargeSteps(e1, th2.ts, c2);
    HeaderThere(meta0, b, e1);
    var r := OnHead(w, [], 1, m', th2, w.meta, indeg', c2);
    MetaTwice(meta0, b, e1, e1);
    r := OnWord(w, r, 1, m', th2, meta0, e1, indeg', c2.(aux := SetLarge));
    var e2 := e1.(largeStamp := th2.ts);
    PutIs(w, 1, m', th2, meta0[b := e2], indeg', c2.(aux := Unlatch));
    RunsJoin(z, q, r);
    q := q + r;
    HeaderThere(meta0, b, e2);
    Stuck(Runs(z, q));
  }

  // The run before any step.
  lemma Here0(x: Whole, t: nat)
    requires t < |x.s.threads| && t < |x.calls|
    ensures Runs(x, []) == x == Put(x, t, x.s.m, x.s.threads[t], x.meta, x.indeg, x.calls[t])
  {
    assert x.s.threads[t := x.s.threads[t]] == x.s.threads && x.calls[t := x.calls[t]] == x.calls;
  }

  lemma HeaderThere(meta: map<nat, Meta>, b: nat, e: Meta)
    ensures MetaOf(meta[b := e], b) == e
  {
  }

  lemma PlainSteps(e: Meta)
    ensures Header(e, 0, Call(PutSmall, 0)) == (e.(smallStamp := 0), Call(PutLarge, 0))
    ensures Header(e.(smallStamp := 0), 0, Call(PutLarge, 0)) == (Meta(e.numEdges, 0, 0), IDLE)
    ensures IDLE.(aux := ReadSmall) == Call(ReadSmall, 0) && IDLE.aux.Core? && IDLE == Call(Core, 0) && MARKER == -1
    ensures var f := Meta(e.numEdges, 0, 0);
      && Header(f, 0, Call(ReadSmall, 0)) == (f, Call(ReadLarge, 0)) && Header(f, 0, Call(ReadLarge, 0)) == (f, IDLE)
  {
  }

  lemma LargeSteps(e: Meta, ts: int, c: Call)
    requires c.aux.TestLarge? && ts > e.largeStamp
    ensures Header(e, ts, c) == (e, c.(aux := SetLarge)) && Header(e, ts, c.(aux := SetLarge)) == (e.(largeStamp := ts), c.(aux := Unlatch))
  {
  }

  lemma Stuck(v: Whole)
    requires |v.s.threads| == |v.calls| == 2 && !v.s.m.aborted && v.s.threads[0].pc.Done? && v.calls[0].aux.Core? && v.calls[1].aux.Unlatch?
    requires MetaOf(v.meta, v.s.threads[1].tmp).smallStamp != MARKER
    ensures Deadlocked(v)
  {
    assert !Finished(v, 1);
    forall t: nat ensures !Able(v, t) {}
  }

  // ---------------------------------------------------------------- from any store with an emptied block

  // The first call and the second clash in the first free block, if that has been used and emptied.
  lemma Clash(m: Mem, meta: map<nat, Meta>, indeg: map<int, int>, chain: seq<nat>, to: int, p: seq<nat>, thL: Thread, th: Thread, last: nat) returns (x: Whole, q: seq<nat>)
    requires Quiet(m, meta, chain) && NewTarget(m, to) && NewTarget(m, to + 1) && to > 0
    requires Runs(Solo(m, meta, indeg, Starting(to, 0), IDLE), p) == Solo(Taken(m, thL), meta, indeg, th, Call(AddCount, 0))
    requires FirstGap(m, chain, thL.tmp, thL.k) && CanTake(m, thL) && InUpdate(th, thL, OutDeg) && th.to == to == thL.to && th.ts == 0 && !m.aborted
    requires Hollow(m, thL.tmp) && MetaOf(meta, thL.tmp).largeStamp < last && 0 < last
    ensures x.s.m == m && x.meta == meta && x.indeg == indeg && AllReady(x, chain) && Deadlocked(Runs(x, q)) && StampsUpTo(x, last)
  {
    hide *;
    var b := thL.tmp;
    var large := MetaOf(meta, b).largeStamp;
    var ts2 := 1 + if large > 0 then large else 0;
    var p1, a, e;
    x, p1, a, e := ClashFirst(m, meta, indeg, chain, to, p, thL, th, ts2);
    StampsBoth(to, ts2, x, last);
    var y := Runs(x, p1);
    TakenHollow(m, meta, chain, thL);
    StartingIs(to + 1, ts2);
    QuietFacts(m, meta, chain);
    SecondRoom(m, meta, chain, thL, y.s.m, Starting(to + 1, ts2));
    HeaderThere(meta, b, e);
    var q2, m3, th2, meta3, e3, indeg3, c := ClashSecond(y, m, chain, a, b, e, to + 1, ts2);
    var z := Runs(y, q2);
    PutIs(y, 1, m3, th2, meta3, indeg3, c);
    HeaderThere(y.meta, b, e3);
    UpdateIs(th, thL, OutDeg);
    UpdateSelf(th);
    var q3 := ClashThird(z, th, b, e3);
    RunsJoin(x, p1, q2);
    RunsJoin(x, p1 + q2, q3);
    q := p1 + q2 + q3;
  }

  // The calls' stamps are from 0 to last.
  predicate StampsUpTo(x: Whole, last: nat) {
    forall t: nat | t < |x.s.threads| :: 0 <= x.s.threads[t].ts <= last
  }

  lemma StampsBoth(to: int, ts2: int, x: Whole, last: nat)
    requires x.s.threads == [Starting(to, 0), Starting(to + 1, ts2)] && 0 <= ts2 <= last
    ensures StampsUpTo(x, last)
  {
  }

  // Above the ranges of all emptied blocks there is a stamp up to last.
  ghost predicate RoomAbove(m: Mem, meta: map<nat, Meta>, chain: seq<nat>, last: nat) {
    0 < last && forall b: nat | b in chain && Hollow(m, b) :: MetaOf(meta, b).largeStamp < last
  }

  lemma RoomNext(m: Mem, meta: map<nat, Meta>, chain: seq<nat>, last: nat, m': Mem, b: nat, k: nat, e: Meta)
    requires RoomAbove(m, meta, chain, last) && (forall c :: Kind(m', c) == Kind(m, c)) && k < BLOCK_SIZE
    requires forall c: nat, j: nat :: Filled(m', c, j) <==> Filled(m, c, j) || (c == b && j == k)
    requires forall c: nat | c != b :: Blk(m', c).high == Blk(m, c).high
    ensures RoomAbove(m', meta[b := e], chain, last)
  {
    MetaPut(meta, b, e);
    hide MetaOf, Filled, Kind, Blk;
    forall h: nat | h in chain && Hollow(m', h) ensures MetaOf(meta[b := e], h).largeStamp < last {
      assert !Filled(m', h, k);
      assert h != b;
      forall j: nat ensures !Filled(m, h, j) { assert !Filled(m', h, j); }
      assert Hollow(m, h);
    }
  }

  lemma HighsElsewhere(m: Mem, m': Mem, b: nat, k: nat, to: int, ts: int)
    requires OneMore(m, m', b, k, to, ts)
    ensures forall c: nat | c != b :: Blk(m', c).high == Blk(m, c).high
  {
  }

  ghost function Gaps(m: Mem, chain: seq<nat>): set<(nat, nat)> {
    set b, k | b in chain && k in Below(BLOCK_SIZE) && GapAt(m, chain, b, k) :: (b, k)
  }

  lemma FewerGaps(m: Mem, m': Mem, chain: seq<nat>, b: nat, k: nat)
    requires GapAt(m, chain, b, k) && (forall c :: Kind(m', c) == Kind(m, c))
    requires forall c: nat, j: nat :: Filled(m', c, j) <==> Filled(m, c, j) || (c == b && j == k)
    ensures |Gaps(m', chain)| < |Gaps(m, chain)|
  {
    assert Gaps(m', chain) == Gaps(m, chain) - {(b, k)};
    assert (b, k) in Gaps(m, chain);
    hide Filled, Kind;
  }

  lemma HollowStays(m: Mem, m': Mem, b: nat, k: nat, to: int, ts: int, h: nat)
    requires OneMore(m, m', b, k, to, ts) && Hollow(m, h) && h != b
    ensures Hollow(m', h)
  {
    assert forall k: nat :: Filled(m', h, k) <==> Filled(m, h, k);
  }

  lemma HollowGap(m: Mem, chain: seq<nat>, h: nat)
    requires h in chain && Hollow(m, h)
    ensures GapAt(m, chain, h, 0)
  {
    hide Filled;
  }

  // A finished call beside a deadlock.
  lemma StillDeadlocked(th: Thread, c: Call, x: Whole)
    requires Deadlocked(x) && th.pc.Done? && c.aux.Core? && |x.calls| == |x.s.threads|
    ensures Deadlocked(Prepend(th, c, x))
  {
    hide Blocked;
    var y := Prepend(th, c, x);
    var u: nat :| u < |x.s.threads| && !Finished(x, u);
    assert y.s.threads[u + 1] == x.s.threads[u] && y.calls[u + 1] == x.calls[u];
    assert !Finished(y, u + 1);
    DoneWaits(x.s.m, th);
    forall t: nat ensures !Able(y, t) {
      if 0 < t < |y.calls| { assert !Able(x, t - 1); }
    }
  }

  lemma DoneWaits(m: Mem, th: Thread)
    requires th.pc.Done?
    ensures Blocked(m, th)
  {
  }

  /**
   From every quiet store with a used block of the type that has no edge, there are calls and a
   schedule that deadlock: as many calls as it takes to come to such a block, and two that clash in it.
   */
  lemma {:induction false} HollowDeadlocks(m: Mem, meta: map<nat, Meta>, indeg: map<int, int>, chain: seq<nat>, h: nat, last: nat)
    returns (x: Whole, schedule: seq<nat>)
    requires Quiet(m, meta, chain) && h in chain && Hollow(m, h) && RoomAbove(m, meta, chain, last)
    ensures x.s.m == m && x.meta == meta && x.indeg == indeg && AllReady(x, chain) && Deadlocked(Runs(x, schedule)) && StampsUpTo(x, last)
    decreases |Gaps(m, chain)|
  {
    hide *;
    HollowGap(m, chain, h);
    var to := TwoTargets(m);
    var p, thL, th := SoloReach(m, meta, indeg, chain, to);
    if Hollow(m, thL.tmp) {
      GapIs(m, chain, thL.tmp, thL.k);
      FirstElim(m, chain, thL.tmp, thL.k);
      RoomHere(m, meta, chain, last, thL.tmp);
      x, schedule := Clash(m, meta, indeg, chain, to, p, thL, th, last);
    } else {
      var q, m', e, indeg', th', c := SoloFinish(m, meta, indeg, chain, to, p, thL, th);
      var b, k := thL.tmp, thL.k;
      QuietFacts(m, meta, chain);
      GapIs(m, chain, b, k);
      FirstElim(m, chain, b, k);
      SlotsThere(m, m', b, k, to);
      MoreFacts(m, m', chain, b, k, to, 0);
      FewerGaps(m, m', chain, b, k);
      HollowStays(m, m', b, k, to, 0, h);
      HighsElsewhere(m, m', b, k, to, 0);
      RoomNext(m, meta, chain, last, m', b, k, e);
      var x', schedule' := HollowDeadlocks(m', meta[b := e], indeg', chain, h, last);
      x, schedule := Before(m, meta, indeg, chain, to, q, m', meta[b := e], indeg', th', c, x', schedule', last);
    }
  }

  lemma RoomHere(m: Mem, meta: map<nat, Meta>, chain: seq<nat>, last: nat, b: nat)
    requires RoomAbove(m, meta, chain, last) && b in chain && Hollow(m, b)
    ensures MetaOf(meta, b).largeStamp < last && 0 < last
  {
    hide MetaOf, Hollow;
  }

  lemma SlotsThere(m: Mem, m': Mem, b: nat, k: nat, to: int)
    requires OneMore(m, m', b, k, to, 0) && forall b | b in m.blocks :: 1 <= b < m.tail && |m.blocks[b].slots| == BLOCK_SIZE && m.blocks[b].high <= BLOCK_SIZE
    ensures b in m.blocks && |m.blocks[b].slots| == BLOCK_SIZE
  {
  }

  // The first call alone, and then the run of the others.
  lemma Before(m: Mem, meta: map<nat, Meta>, indeg: map<int, int>, chain: seq<nat>, to: int, q: seq<nat>, m': Mem, meta': map<nat, Meta>, indeg': map<int, int>,
               th': Thread, c: Call, x': Whole, schedule': seq<nat>, last: nat)
    returns (x: Whole, schedule: seq<nat>)
    requires Quiet(m, meta, chain) && to > 0 && Runs(Solo(m, meta, indeg, Starting(to, 0), IDLE), q) == Solo(m', meta', indeg', th', c) && th'.pc.Done? && c.aux.Core?
    requires x'.s.m == m' && x'.meta == meta' && x'.indeg == indeg' && AllReady(x', chain) && Deadlocked(Runs(x', schedule')) && StampsUpTo(x', last)
    ensures x.s.m == m && x.meta == meta && x.indeg == indeg && AllReady(x, chain) && Deadlocked(Runs(x, schedule)) && StampsUpTo(x, last)
  {
    hide *;
    var th, s := Starting(to, 0), Solo(m, meta, indeg, Starting(to, 0), IDLE);
    SoloIs(m, meta, indeg, th, IDLE);
    SoloIs(m', meta', indeg', th', c);
    ReadyStarting(x', chain);
    StartingIs(to, 0);
    x := Whole(State(m, [th] + x'.s.threads), meta, indeg, [IDLE] + x'.calls);
    OneMoreStarting(th, x'.s.threads, x'.calls);
    OneMoreStamp(to, x', x, last);
    QuietReady(m, meta, chain, indeg, [th] + x'.s.threads, [IDLE] + x'.calls);
    RunsBeside(s, q, x'.s.threads, x'.calls, th, IDLE);
    AppendIs(s, x'.s.threads, x'.calls);
    AppendIs(Runs(s, q), x'.s.threads, x'.calls);
    var p := Within(q, 1);
    PrependIs(th', c, x');
    RunsBeside(x', schedule', [], [], th', c);
    StillDeadlocked(th', c, Runs(x', schedule'));
    schedule := p + Shift(schedule');
    RunsJoin(x, p, Shift(schedule'));
  }

  lemma PrependIs(th: Thread, c: Call, x: Whole)
    ensures Prepend(th, c, x) == Whole(State(x.s.m, [th] + x.s.threads), x.meta, x.indeg, [c] + x.calls)
  {
  }

  lemma OneMoreStamp(to: int, x': Whole, x: Whole, last: nat)
    requires StampsUpTo(x', last) && x.s.threads == [Starting(to, 0)] + x'.s.threads
    ensures StampsUpTo(x, last)
  {
  }

  lemma OneMoreStarting(th: Thread, threads: seq<Thread>, calls: seq<Call>)
    requires AllStarting([th], [IDLE]) && AllStarting(threads, calls)
    ensures AllStarting([th] + threads, [IDLE] + calls)
  {
    assert [th][0] == th && [IDLE][0] == IDLE;
  }

  lemma ReadyStarting(x: Whole, chain: seq<nat>)
    requires AllReady(x, chain)
    ensures AllStarting(x.s.threads, x.calls) && |x.s.threads| == |x.calls|
  {
    hide ChainOf, NoDuplicates, FilledSlots, FilledIn, MetaOf;
  }
}
