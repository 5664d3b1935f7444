/**
 Concurrent edge insertion on one source vertex and one edge type.

 Every shared word is read or written by one atomic step, `readfe`, `readff` and `writexf`
 being the full/empty emulation of x86-full-empty.c.  A schedule is any sequence of thread
 numbers; a step of a thread that waits for a locked word leaves the state as it is.
 */
module InsertProtocol {
  // UINT64_MAX, seen as a signed word: the "empty" mark of the lock emulation.
  const MARKER: int := -1
  const BLOCK_SIZE: nat := 14
  const EBPOOL_SIZE: nat := 131072

  datatype Slot = Slot(neighbor: int, timeFirst: int)

  datatype Block = Block(etype: int, next: int, high: nat, slots: seq<Slot>)

  // The word a cursor points to: the vertex's edge pointer, or a block's next field.
  datatype Loc = Head | NextOf(b: nat)

  // What all threads share.  Calls are for source `from` and type `etype`.
  datatype Mem = Mem(from: int, etype: int, head: int, blocks: map<nat, Block>, tail: nat,
                     outdeg: int, eta: seq<nat>, aborted: bool)

  // The next access of a thread, in program order.
  datatype Pc =
    | BeginHead | BeginNext                                  // etype_begin
    | P1High | P1Slot | P1Next                               // case 1: look for the edge
    | P2Start | P2High | P2Slot | P2Lock | P2Recheck | P2RecheckHigh | P2Unlock | P2Next
    | P3Lock | P3Release | Alloc | SetNext | Register | Link // case 3: append a block
    | TestNb | TestHigh | Existing | WriteNb | OutDeg | HighTest | HighWrite | Unlock // update_edge_data
    | Restore | Done

  // Why update_edge_data was called.
  datatype Mode = Unlocked | Locked | FreshSlot | NewBlock

  datatype Thread = Thread(to: int, ts: int, pc: Pc, mode: Mode, loc: Loc, tmp: nat, k: nat,
                           endk: nat, seen: int, timefirst: int, ptr: Loc, held: int, result: int)

  datatype State = State(m: Mem, threads: seq<Thread>)

  // ---------------------------------------------------------------- memory access

  const BLANK_SLOT := Slot(0, 0)

  function Blk(m: Mem, b: nat): Block {
    if b in m.blocks then m.blocks[b] else Block(0, 0, 0, [])
  }

  function At(m: Mem, b: nat, k: nat): Slot {
    if k < |Blk(m, b).slots| then Blk(m, b).slots[k] else BLANK_SLOT
  }

  function Word(m: Mem, l: Loc): int {
    if l.Head? then m.head else Blk(m, l.b).next
  }

  function SetWord(m: Mem, l: Loc, w: int): Mem {
    if l.Head? then m.(head := w) else m.(blocks := m.blocks[l.b := Blk(m, l.b).(next := w)])
  }

  function SetSlot(m: Mem, b: nat, k: nat, s: Slot): Mem {
    if k < |Blk(m, b).slots|
    then m.(blocks := m.blocks[b := Blk(m, b).(slots := Blk(m, b).slots[k := s])])
    else m
  }

  function SetHigh(m: Mem, b: nat, h: nat): Mem {
    m.(blocks := m.blocks[b := Blk(m, b).(high := h)])
  }

  predicate Kind(m: Mem, b: nat) {
    Blk(m, b).etype == m.etype
  }

  function FreshBlock(etype: int): Block {
    Block(etype, 0, 0, seq(BLOCK_SIZE, _ => BLANK_SLOT))
  }

  // ---------------------------------------------------------------- the program

  function Begin(m: Mem, th: Thread, eb: nat): Thread {
    if eb == 0 || Kind(m, eb) then Scan1(m, th, eb)
    else th.(pc := BeginNext, tmp := eb, loc := NextOf(eb))
  }

  function Scan1(m: Mem, th: Thread, b: nat): Thread {
    if b == 0 then th.(pc := P2Start)
    else if Kind(m, b) then th.(pc := P1High, tmp := b)
    else th.(pc := P1Next, tmp := b)
  }

  function Scan2(m: Mem, th: Thread, b: nat): Thread {
    if b == 0 then th.(pc := P3Lock)
    else if Kind(m, b) then th.(pc := P2High, tmp := b)
    else th.(pc := P2Next, tmp := b)
  }

  function NextSlot(th: Thread): Thread {
    if th.k + 1 < BLOCK_SIZE then th.(k := th.k + 1, pc := P2Slot) else th.(pc := P2Next)
  }

  // Where update_edge_data returns to.
  function Return(th: Thread): Thread {
    match th.mode
    case Unlocked => th.(pc := Done, result := 0)
    case Locked => th.(pc := Restore)
    case FreshSlot => th.(pc := Done, result := 1)
    case NewBlock => th.(pc := SetNext)
  }

  predicate Blocked(m: Mem, th: Thread) {
    match th.pc
    case BeginHead => m.from != th.to && m.head == MARKER
    case BeginNext | P1Next | P2Next => Word(m, NextOf(th.tmp)) == MARKER
    case P2Start => Word(m, th.loc) == MARKER
    case P2Lock => At(m, th.tmp, th.k).timeFirst == MARKER
    case P3Lock => Word(m, th.ptr) == MARKER
    case Done => true
    case _ => false
  }

  function Nat(w: int): nat {
    if w < 0 then 0 else w
  }

  /** One atomic step of a thread that is not blocked. */
  function Act(m: Mem, th: Thread): (Mem, Thread) {
    match th.pc
    case BeginHead =>
      if m.from == th.to then (m, th.(pc := Done, result := -1))
      else (m, Begin(m, th.(loc := Head), Nat(m.head)))
    case BeginNext => (m, Begin(m, th, Nat(Word(m, NextOf(th.tmp)))))
    case P1High =>
      var h := Blk(m, th.tmp).high;
      (m, th.(endk := h, k := 0, pc := if 0 < h then P1Slot else P1Next))
    case P1Slot =>
      if At(m, th.tmp, th.k).neighbor == th.to then (m, th.(pc := TestNb, mode := Unlocked))
      else if th.k + 1 < th.endk then (m, th.(k := th.k + 1))
      else (m, th.(pc := P1Next))
    case P1Next => (m, Scan1(m, th, Nat(Word(m, NextOf(th.tmp)))))
    case P2Start => (m, Scan2(m, th.(ptr := th.loc), Nat(Word(m, th.loc))))
    case P2High => (m, th.(endk := Blk(m, th.tmp).high, k := 0, pc := P2Slot))
    case P2Slot =>
      var n := At(m, th.tmp, th.k).neighbor;
      if th.to == n && th.k < th.endk then (m, th.(pc := TestNb, mode := Unlocked))
      else if n < 0 || th.k >= th.endk then (m, th.(pc := P2Lock))
      else (m, NextSlot(th))
    case P2Lock =>
      var s := At(m, th.tmp, th.k);
      (SetSlot(m, th.tmp, th.k, s.(timeFirst := MARKER)),
       th.(timefirst := s.timeFirst, pc := P2Recheck))
    case P2Recheck => (m, th.(seen := At(m, th.tmp, th.k).neighbor, pc := P2RecheckHigh))
    case P2RecheckHigh =>
      var h := Blk(m, th.tmp).high;
      if th.seen < 0 || th.k >= h then (m, th.(endk := h, pc := TestNb, mode := FreshSlot))
      else if th.to == th.seen then (m, th.(endk := h, pc := TestNb, mode := Locked))
      else (m, th.(endk := h, pc := P2Unlock))
    case P2Unlock =>
      (SetSlot(m, th.tmp, th.k, At(m, th.tmp, th.k).(timeFirst := th.timefirst)), NextSlot(th))
    case P2Next => (m, Scan2(m, th.(ptr := NextOf(th.tmp)), Nat(Word(m, NextOf(th.tmp)))))
    case P3Lock =>
      var w := Word(m, th.ptr);
      (SetWord(m, th.ptr, MARKER), th.(held := w, pc := if w == 0 then Alloc else P3Release))
    case P3Release => (SetWord(m, th.ptr, th.held), th.(pc := P2Start))
    case Alloc =>
      if m.tail + 1 >= EBPOOL_SIZE then (m.(tail := m.tail + 1, aborted := true), th)
      else (m.(tail := m.tail + 1, blocks := m.blocks[m.tail := FreshBlock(m.etype)]),
            th.(tmp := m.tail, k := 0, mode := NewBlock, pc := TestNb))
    case SetNext => (SetWord(m, NextOf(th.tmp), 0), th.(pc := Register))
    case Register => (m.(eta := m.eta + [th.tmp]), th.(pc := Link))
    case Link => (SetWord(m, th.ptr, th.tmp), th.(pc := Done, result := 1))
    case TestNb => (m, th.(pc := if At(m, th.tmp, th.k).neighbor < 0 then WriteNb else TestHigh))
    case TestHigh => (m, th.(pc := if th.k >= Blk(m, th.tmp).high then WriteNb else Existing))
    case Existing => (m, Return(th))
    case WriteNb =>
      (SetSlot(m, th.tmp, th.k, At(m, th.tmp, th.k).(neighbor := th.to)), th.(pc := OutDeg))
    case OutDeg => (m.(outdeg := m.outdeg + 1), th.(pc := HighTest))
    case HighTest => (m, th.(pc := if th.k >= Blk(m, th.tmp).high then HighWrite else Unlock))
    case HighWrite => (SetHigh(m, th.tmp, th.k + 1), th.(pc := Unlock))
    case Unlock =>
      (SetSlot(m, th.tmp, th.k, At(m, th.tmp, th.k).(timeFirst := th.ts)), Return(th))
    case Restore =>
      (SetSlot(m, th.tmp, th.k, At(m, th.tmp, th.k).(timeFirst := th.timefirst)),
       th.(pc := Done, result := 0))
    case Done => (m, th)
  }

  predicate Enabled(s: State, t: nat) {
    t < |s.threads| && !s.m.aborted && !Blocked(s.m, s.threads[t])
  }

  function Step(s: State, t: nat): State {
    if !Enabled(s, t) then s
    else
      var (m, th) := Act(s.m, s.threads[t]);
      State(m, s.threads[t := th])
  }

  function Run(s: State, schedule: seq<nat>): State
    decreases |schedule|
  {
    if schedule == [] then s else Run(Step(s, schedule[0]), schedule[1..])
  }

  // ---------------------------------------------------------------- what is claimed

  predicate Filled(m: Mem, b: nat, k: nat) {
    k < Blk(m, b).high && k < BLOCK_SIZE && At(m, b, k).neighbor >= 0
  }

  function Pos(chain: seq<nat>, b: nat): (i: nat)
    requires b in chain
    ensures i < |chain| && chain[i] == b
    ensures forall j :: 0 <= j < i ==> chain[j] != b
  {
    if chain[0] == b then 0 else 1 + Pos(chain[1..], b)
  }

  predicate Distinct(chain: seq<nat>) {
    forall i, j :: 0 <= i < j < |chain| ==> chain[i] != chain[j]
  }

  predicate LocOk(chain: seq<nat>, l: Loc) {
    l.Head? || l.b in chain
  }

  // How many blocks of the chain come before the word `l`.
  function LocEnd(chain: seq<nat>, l: Loc): (n: nat)
    requires LocOk(chain, l)
    ensures n <= |chain|
  {
    if l.Head? then 0 else Pos(chain, l.b) + 1
  }

  function Succ(chain: seq<nat>, l: Loc): nat
    requires LocOk(chain, l)
  {
    var n := LocEnd(chain, l);
    if n < |chain| then chain[n] else 0
  }

  function EndLoc(chain: seq<nat>): Loc {
    if chain == [] then Head else NextOf(chain[|chain| - 1])
  }

  // ---------------------------------------------------------------- what is promised

  function FilledSlots(m: Mem, chain: seq<nat>): set<(nat, nat)> {
    set b, k | b in chain && k in Below(BLOCK_SIZE) && Filled(m, b, k) :: (b, k)
  }

  function Below(n: nat): (r: set<nat>)
    ensures forall k: nat :: k in r <==> k < n
  {
    if n == 0 then {} else Below(n - 1) + {n - 1}
  }

  // The chain's pointers spell out `chain`, except where a call holds a pointer locked.
  ghost predicate ChainUpToLocks(m: Mem, chain: seq<nat>) {
    && Distinct(chain) && (forall b | b in chain :: b in m.blocks)
    && forall l | LocOk(chain, l) :: Word(m, l) == MARKER || Word(m, l) == Succ(chain, l)
  }

  ghost predicate ChainOf(m: Mem, chain: seq<nat>) {
    ChainUpToLocks(m, chain) && forall l | LocOk(chain, l) :: Word(m, l) != MARKER
  }

  // No destination occurs in two slots of blocks of the calls' type.
  ghost predicate NoDuplicates(m: Mem, chain: seq<nat>) {
    forall b: nat, k: nat, c: nat, j: nat |
      b in chain && c in chain && Kind(m, b) && Kind(m, c) && Filled(m, b, k) && Filled(m, c, j) && (b, k) != (c, j) ::
      At(m, b, k).neighbor != At(m, c, j).neighbor
  }

  ghost predicate Holds(m: Mem, b: nat, k: nat, to: int) {
    Kind(m, b) && Filled(m, b, k) && At(m, b, k).neighbor == to
  }

  ghost predicate HeldOnce(m: Mem, chain: seq<nat>, to: int) {
    exists b: nat, k: nat ::
      && b in chain && Holds(m, b, k, to)
      && forall c: nat, j: nat | c in chain && Holds(m, c, j, to) :: (c, j) == (b, k)
  }

  // A quiet store, and calls about to start.
  ghost predicate Ready(s: State, chain: seq<nat>) {
    && 1 <= s.m.tail
    && (forall b | b in s.m.blocks :: 1 <= b < s.m.tail && |s.m.blocks[b].slots| == BLOCK_SIZE && s.m.blocks[b].high <= BLOCK_SIZE)
    && ChainOf(s.m, chain) && NoDuplicates(s.m, chain)
    && (forall b, k: nat | b in chain && k < BLOCK_SIZE && Kind(s.m, b) :: At(s.m, b, k).timeFirst != MARKER)
    && s.m.outdeg == |FilledSlots(s.m, chain)|
    && (forall t: nat | t < |s.threads| :: s.threads[t].pc.BeginHead? && s.threads[t].to >= 0 && s.threads[t].ts != MARKER)
  }

  ghost predicate AllDone(s: State) {
    forall t: nat | t < |s.threads| :: s.threads[t].pc.Done?
  }

  // How many calls have returned 1.
  function Insertions(threads: seq<Thread>): nat {
    if threads == [] then 0
    else (if threads[0].pc.Done? && threads[0].result == 1 then 1 else 0) + Insertions(threads[1..])
  }
}
