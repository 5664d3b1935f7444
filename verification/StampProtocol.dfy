/**
 The rest of update_edge_data beside the insert protocol: the block's edge count, its stamp range
 with the lock on the lower stamp, and the in-degrees.

 A call runs its program of the insert protocol; after the accesses to the neighbor, the out-degree and
 the slot's first stamp it makes those to the header, one atomic step each.
 */
module StampProtocol {
  import opened InsertProtocol
  import EdgeBlocks

  const INT64_MAX := 0x7fff_ffff_ffff_ffff
  const INT64_MIN := -0x8000_0000_0000_0000

  datatype Meta = Meta(numEdges: int, smallStamp: int, largeStamp: int)

  // The next access of a call: Core for one of the insert protocol, the others to the header.
  datatype Aux = Core | AddCount | PutSmall | PutLarge | AddIn | ReadSmall | ReadLarge | LockSmall | TestLarge | SetLarge | Unlatch

  // held is the lower stamp that a call will write back.
  datatype Call = Call(aux: Aux, held: int)

  datatype Whole = Whole(s: State, meta: map<nat, Meta>, indeg: map<int, int>, calls: seq<Call>)

  function MetaOf(meta: map<nat, Meta>, b: nat): Meta {
    if b in meta then meta[b] else Meta(0, INT64_MAX, INT64_MIN)
  }

  function InDegree(indeg: map<int, int>, v: int): int {
    if v in indeg then indeg[v] else 0
  }

  // Where the accesses of the insert protocol are followed by some to the header.
  function After(pc: Pc): Aux {
    match pc
    case WriteNb => AddCount
    case OutDeg => AddIn
    case Existing | Unlock => ReadSmall
    case _ => Core
  }

  predicate Waits(x: Whole, t: nat)
    requires t < |x.s.threads| && t < |x.calls|
  {
    var th := x.s.threads[t];
    var small := MetaOf(x.meta, th.tmp).smallStamp;
    match x.calls[t].aux
    case Core => Blocked(x.s.m, th)
    case ReadSmall | LockSmall => small == MARKER
    case Unlatch => small != MARKER
    case _ => false
  }

  predicate Able(x: Whole, t: nat) {
    t < |x.s.threads| && t < |x.calls| && !x.s.m.aborted && !Waits(x, t)
  }

  // One access to the header of the block in hand.
  function Header(e: Meta, ts: int, c: Call): (Meta, Call) {
    match c.aux
    case AddCount => (e.(numEdges := e.numEdges + 1), c.(aux := if e.numEdges == 0 then PutSmall else Core))
    case PutSmall => (e.(smallStamp := ts), c.(aux := PutLarge))
    case PutLarge => (e.(largeStamp := ts), c.(aux := Core))
    case ReadSmall => (e, c.(aux := if EdgeBlocks.UnsignedLess(ts, e.smallStamp) then LockSmall else ReadLarge))
    case ReadLarge => (e, c.(aux := if ts > e.largeStamp then LockSmall else Core))
    case LockSmall =>
      (e.(smallStamp := MARKER), c.(aux := TestLarge, held := if ts < e.smallStamp then ts else e.smallStamp))
    case TestLarge => (e, c.(aux := if ts > e.largeStamp then SetLarge else Unlatch))
    case SetLarge => (e.(largeStamp := ts), c.(aux := Unlatch))
    case Unlatch => (e.(smallStamp := c.held), c.(aux := Core))
    case _ => (e, c)
  }

  /** One atomic step of call t, or none while it waits. */
  function Go(x: Whole, t: nat): Whole {
    if !Able(x, t) then x
    else
      var th, c := x.s.threads[t], x.calls[t];
      match c.aux
      case Core =>
        var s' := Step(x.s, t);
        Whole(s', if th.pc.Alloc? && !s'.m.aborted then x.meta[x.s.m.tail := Meta(0, INT64_MAX, INT64_MIN)] else x.meta, x.indeg,
              x.calls[t := c.(aux := After(th.pc))])
      case AddIn => x.(indeg := x.indeg[th.to := InDegree(x.indeg, th.to) + 1], calls := x.calls[t := c.(aux := Core)])
      case _ =>
        var (e, c') := Header(MetaOf(x.meta, th.tmp), th.ts, c);
        x.(meta := x.meta[th.tmp := e], calls := x.calls[t := c'])
  }

  function Runs(x: Whole, schedule: seq<nat>): Whole
    decreases |schedule|
  {
    if schedule == [] then x else Runs(Go(x, schedule[0]), schedule[1..])
  }

  lemma {:induction false} RunsJoin(x: Whole, p: seq<nat>, q: seq<nat>)
    ensures Runs(x, p + q) == Runs(Runs(x, p), q)
    decreases |p|
  {
    if p == [] {
      assert p + q == q;
    } else {
      assert (p + q)[1..] == p[1..] + q;
      RunsJoin(Go(x, p[0]), p[1..], q);
    }
  }

  predicate Finished(x: Whole, t: nat) {
    t < |x.s.threads| && t < |x.calls| && x.s.threads[t].pc.Done? && x.calls[t].aux.Core?
  }

  predicate AllFinished(x: Whole) {
    forall t: nat | t < |x.s.threads| :: Finished(x, t)
  }

  // Some call has not returned, and none can move.
  ghost predicate Deadlocked(x: Whole) {
    !x.s.m.aborted && !AllFinished(x) && forall t: nat :: !Able(x, t)
  }

  // The slots of one block that hold an edge.
  function FilledIn(m: Mem, b: nat): set<nat> {
    set k | k in Below(BLOCK_SIZE) && Filled(m, b, k)
  }

  // A quiet store with exact counts and no stamp lock held, and calls about to start.
  ghost predicate AllReady(x: Whole, chain: seq<nat>) {
    && Ready(x.s, chain) && !x.s.m.aborted && |x.calls| == |x.s.threads|
    && (forall t: nat | t < |x.calls| :: x.calls[t].aux.Core?)
    && (forall b: nat :: MetaOf(x.meta, b).smallStamp != MARKER && MetaOf(x.meta, b).numEdges >= 0)
    && (forall b: nat | b in chain && Kind(x.s.m, b) :: MetaOf(x.meta, b).numEdges == |FilledIn(x.s.m, b)|)
  }

  // A block of the calls' type that has been used and has no edge.
  ghost predicate Hollow(m: Mem, b: nat) {
    Kind(m, b) && Blk(m, b).high > 0 && forall k: nat :: !Filled(m, b, k)
  }

  ghost predicate SomeHollow(m: Mem, chain: seq<nat>) {
    exists b: nat :: b in chain && Hollow(m, b)
  }

  // ---------------------------------------------------------------- the insert protocol underneath

  /** Every run is, as far as the insert protocol's memory goes, a run of the insert protocol. */
  lemma {:induction false} Underneath(x: Whole, schedule: seq<nat>) returns (core: seq<nat>)
    ensures Runs(x, schedule).s == Run(x.s, core)
    decreases |schedule|
  {
    if schedule == [] {
      core := [];
    } else {
      core := Underneath(Go(x, schedule[0]), schedule[1..]);
      if Go(x, schedule[0]).s != x.s {
        assert Go(x, schedule[0]).s == Step(x.s, schedule[0]);
        core := [schedule[0]] + core;
        assert core[1..] == core[1..];
      }
      hide Go, Step;
    }
  }
}
