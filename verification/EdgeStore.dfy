/**
 Sequential insert, increment and remove on STINGER's edge blocks, against a finite map from
 (type, from, to) to weight and stamps.
 */
module EdgeStore {
  import opened EdgeBlocks

  class Stinger {
    const nv: nat
    const ntypes: nat
    const pool: array<Block>
    const first: array<nat>
    const outDegree: array<int>
    const inDegree: array<int>
    const eta: array<seq<nat>>
    var tail: nat
    var totalWeight: int
    var maxActive: int
    ghost var chains: seq<seq<nat>>
    ghost var loc: map<Key, Loc>

    ghost function State(): Store
      reads this, pool, first, outDegree, inDegree, eta
    {
      Store(pool[..], tail, first[..], outDegree[..], inDegree[..], eta[..], chains, loc)
    }

    ghost predicate Valid()
      reads this, pool, first, outDegree, inDegree, eta
    {
      outDegree != inDegree && StoreOk(State(), nv, ntypes)
    }

    // Every block's stamp range covers its edges.
    ghost predicate RangesCover()
      reads this, pool
    {
      RangesOk(pool[..], tail)
    }

    // The map the store stands for.
    ghost function Contents(): map<Key, Val>
      reads this, pool, first, outDegree, inDegree, eta
    {
      Edges(State())
    }

    /** stinger_new: an empty store with room for poolSize - 2 blocks. */
    constructor (nv: nat, ntypes: nat, poolSize: nat)
      requires poolSize > 0
      ensures Valid() && Contents() == map[] && this.nv == nv && this.ntypes == ntypes && pool.Length == poolSize && tail == 1 && RangesCover()
      ensures fresh(pool) && fresh(first) && fresh(outDegree) && fresh(inDegree) && fresh(eta)
    {
      this.nv, this.ntypes := nv, ntypes;
      pool := new Block[poolSize](_ => NewBlock(0, 0));
      first := new nat[nv](_ => 0);
      outDegree := new int[nv](_ => 0);
      inDegree := new int[nv](_ => 0);
      eta := new seq<nat>[ntypes](_ => []);
      tail, totalWeight, maxActive := 1, 0, 0;
      chains, loc := seq(nv, _ => []), map[];
      new;
      EmptyOk(State(), nv, ntypes);
    }

    // ---------------------------------------------------------------- one slot

    /** update_edge_data: fills a free slot, refreshes a live one, or blanks it for a negative neighbor. */
    method UpdateEdgeData(b: nat, index: nat, neighbor: int, weight: int, ts: int)
      requires b < pool.Length && index < |pool[b].edges| && 0 <= pool[b].vertexID < outDegree.Length && outDegree != inDegree
      requires neighbor < inDegree.Length && (neighbor < 0 ==> pool[b].edges[index].neighbor < inDegree.Length)
      modifies this`totalWeight, pool, outDegree, inDegree
      ensures var block := old(pool[b]);
        var live := index < block.high && block.edges[index].neighbor >= 0;
        if neighbor >= 0 && !live then
          && pool[..] == old(pool[..])[b := Filled(block, index, neighbor, weight, ts)]
          && outDegree[..] == old(outDegree[..])[block.vertexID := old(outDegree[block.vertexID]) + 1]
          && inDegree[..] == old(inDegree[..])[neighbor := old(inDegree[neighbor]) + 1]
          && totalWeight == old(totalWeight) + weight
        else if neighbor >= 0 then
          && pool[..] == old(pool[..])[b := Updated(block, index, weight, ts)]
          && outDegree[..] == old(outDegree[..]) && inDegree[..] == old(inDegree[..])
          && totalWeight == old(totalWeight) + weight - block.edges[index].weight
        else if block.edges[index].neighbor >= 0 then
          && pool[..] == old(pool[..])[b := block.(numEdges := block.numEdges - 1, edges := block.edges[index := block.edges[index].(neighbor := neighbor)])]
          && outDegree[..] == old(outDegree[..])[block.vertexID := old(outDegree[block.vertexID]) - 1]
          && inDegree[..] == old(inDegree[..])[block.edges[index].neighbor := old(inDegree[block.edges[index].neighbor]) - 1]
          && totalWeight == old(totalWeight) - block.edges[index].weight
        else
          pool[..] == old(pool[..]) && outDegree[..] == old(outDegree[..]) && inDegree[..] == old(inDegree[..]) && totalWeight == old(totalWeight)
    {
      var e := pool[b].edges[index];
      if neighbor >= 0 {
        if e.neighbor < 0 || index >= pool[b].high {
          e := e.(neighbor := neighbor);
          var n := pool[b].numEdges;
          pool[b] := pool[b].(numEdges := n + 1);
          if n == 0 {
            pool[b] := pool[b].(smallStamp := ts, largeStamp := ts);
          }
          outDegree[pool[b].vertexID] := outDegree[pool[b].vertexID] + 1;
          inDegree[neighbor] := inDegree[neighbor] + 1;
          totalWeight := totalWeight + weight;
          if index >= pool[b].high { pool[b] := pool[b].(high := index + 1); }
          e := e.(timeFirst := ts);
        } else {
          totalWeight := totalWeight + (weight - e.weight);
        }
        e := e.(weight := weight);
        if UnsignedLess(ts, pool[b].smallStamp) || ts > pool[b].largeStamp {
          var smallStamp := pool[b].smallStamp;
          if ts < smallStamp { smallStamp := ts; }
          if ts > pool[b].largeStamp { pool[b] := pool[b].(largeStamp := ts); }
          pool[b] := pool[b].(smallStamp := smallStamp);
        }
        e := e.(timeRecent := ts);
        pool[b] := pool[b].(edges := pool[b].edges[index := e]);
      } else if e.neighbor >= 0 {
        outDegree[pool[b].vertexID] := outDegree[pool[b].vertexID] - 1;
        inDegree[e.neighbor] := inDegree[e.neighbor] - 1;
        pool[b] := pool[b].(numEdges := pool[b].numEdges - 1, edges := pool[b].edges[index := e.(neighbor := neighbor)]);
        totalWeight := totalWeight - e.weight;
      }
    }

    // ---------------------------------------------------------------- walking a chain

    // Position p of v's chain, and the link that leads there.
    ghost predicate Cursor(v: nat, p: nat, eb: nat, prev: nat)
      reads this
    {
      && v < |chains| && p <= |chains[v]|
      && eb == At(chains[v], p) && prev == if p == 0 then 0 else chains[v][p - 1]
    }

    /** etype_begin: the first block of v with the given type, or the end of the chain. */
    method EtypeBegin(v: nat, etype: int) returns (eb: nat, prev: nat, ghost p: nat)
      requires Valid() && v < nv
      ensures Cursor(v, p, eb, prev) && forall q | 0 <= q < p :: chains[v][q] < pool.Length && pool[chains[v][q]].etype != etype
      ensures if eb == 0 then p == |chains[v]| else eb < pool.Length && pool[eb].etype == etype
    {
      hide StoreOk, LinksOk, EtaOk, BlocksOk, LocOk, CountsOk, DegreesOk, BlockOk, SlotOk, Chained, At;
      ghost var s := State();
      ChainStep(s, nv, ntypes, v, 0);
      eb, prev, p := first[v], 0, 0;
      while eb != 0 && pool[eb].etype != etype
        invariant Cursor(v, p, eb, prev) && eb < pool.Length
        invariant forall q | 0 <= q < p :: chains[v][q] < pool.Length && pool[chains[v][q]].etype != etype
        decreases |chains[v]| - p
      {
        ChainStep(s, nv, ntypes, v, p);
        ChainStep(s, nv, ntypes, v, p + 1);
        prev := eb;
        eb := pool[eb].next;
        p := p + 1;
      }
      ChainStep(s, nv, ntypes, v, p);
    }

    /** The scan that looks for an edge: it finds the edge exactly when the map has it. */
    method FindEdge(eb0: nat, etype: int, from: nat, to: nat, ghost prev: nat, ghost p0: nat) returns (found: bool, b: nat, k: nat)
      requires Valid() && from < nv && Cursor(from, p0, eb0, prev)
      requires forall q | 0 <= q < p0 :: chains[from][q] < pool.Length && pool[chains[from][q]].etype != etype
      ensures found <==> Key(etype, from, to) in loc
      ensures found ==> loc[Key(etype, from, to)] == Loc(b, k)
    {
      hide StoreOk, LinksOk, EtaOk, BlocksOk, LocOk, CountsOk, DegreesOk, BlockOk, SlotOk, Chained, At;
      ghost var s := State();
      ChainStep(s, nv, ntypes, from, p0);
      ghost var p, key, chain := p0, Key(etype, from, to), chains[from];
      b, k, found := eb0, 0, false;
      while b != 0
        invariant p <= |chain| && b == At(chain, p) && b < pool.Length
        invariant forall q | 0 <= q < p :: chain[q] < pool.Length && NotIn(pool[chain[q]], etype, to)
        decreases |chain| - p
      {
        ChainStep(s, nv, ntypes, from, p);
        ChainStep(s, nv, ntypes, from, p + 1);
        if etype == pool[b].etype {
          found, k := FindInBlock(b, to);
          if found {
            LocHere(s, nv, ntypes, b, k, key);
            return;
          }
        }
        b := pool[b].next;
        p := p + 1;
      }
      ChainStep(s, nv, ntypes, from, p);
      NotFound(s, nv, ntypes, key);
    }

    // The scan of one block for an edge, up to the high-water mark.
    method FindInBlock(b: nat, to: nat) returns (found: bool, k: nat)
      requires b < pool.Length && pool[b].high <= |pool[b].edges|
      ensures found ==> Live(pool[b], k) && pool[b].edges[k].neighbor == to
      ensures !found ==> forall l: nat | Live(pool[b], l) :: pool[b].edges[l].neighbor != to
    {
      k, found := 0, false;
      var endk := pool[b].high;
      while k < endk
        invariant k <= endk
        invariant forall l: nat | l < k :: pool[b].edges[l].neighbor != to
      {
        if to == pool[b].edges[k].neighbor { return true, k; }
        k := k + 1;
      }
    }

    /**
     The scan that looks for a free slot: without one, it ends at the end of the chain, and every
     block of this type is full.
     */
    method FindGap(eb0: nat, prev0: nat, etype: int, from: nat, ghost p0: nat) returns (found: bool, b: nat, k: nat, prev: nat)
      requires Valid() && from < nv && Cursor(from, p0, eb0, prev0)
      requires forall q | 0 <= q < p0 :: chains[from][q] < pool.Length && pool[chains[from][q]].etype != etype
      ensures found ==>
        && 0 < b < tail <= pool.Length && pool[b].etype == etype && pool[b].vertexID == from
        && k < EDGEBLOCKSIZE && k <= pool[b].high && !Live(pool[b], k)
      ensures from < |chains|
      ensures !found ==> prev == Last(chains[from]) && prev < tail <= pool.Length
      ensures !found ==> forall q | 0 <= q < |chains[from]| :: chains[from][q] < pool.Length && Full(pool[chains[from][q]], etype)
    {
      hide StoreOk, LinksOk, EtaOk, BlocksOk, LocOk, CountsOk, DegreesOk, BlockOk, SlotOk, Chained, At;
      ghost var s := State();
      ChainStep(s, nv, ntypes, from, p0);
      ghost var p, chain := p0, chains[from];
      b, k, found, prev := eb0, 0, false, prev0;
      if p0 > 0 { ChainStep(s, nv, ntypes, from, p0 - 1); }
      FullBefore(s.pool, chain, p0, etype);
      while b != 0
        invariant p <= |chain| && b == At(chain, p) && b < pool.Length && prev < tail && prev == if p == 0 then 0 else chain[p - 1]
        invariant forall q | 0 <= q < p :: chain[q] < pool.Length && Full(pool[chain[q]], etype)
        decreases |chain| - p
      {
        ChainStep(s, nv, ntypes, from, p);
        ChainStep(s, nv, ntypes, from, p + 1);
        if etype == pool[b].etype {
          found, k := GapInBlock(b);
          if found { return; }
        }
        prev := b;
        b := pool[b].next;
        p := p + 1;
      }
      ChainStep(s, nv, ntypes, from, p);
    }

    // The scan of one block for a slot that is blank or above the high-water mark.
    method GapInBlock(b: nat) returns (found: bool, k: nat)
      requires b < pool.Length && |pool[b].edges| == EDGEBLOCKSIZE && pool[b].high <= EDGEBLOCKSIZE
      ensures found ==> k < EDGEBLOCKSIZE && k <= pool[b].high && !Live(pool[b], k)
      ensures !found ==> forall k: nat | k < EDGEBLOCKSIZE :: Live(pool[b], k)
    {
      k, found := 0, false;
      var endk := pool[b].high;
      while k < EDGEBLOCKSIZE
        invariant k <= EDGEBLOCKSIZE
        invariant forall l: nat | l < k :: Live(pool[b], l)
      {
        var myNeighbor := pool[b].edges[k].neighbor;
        if myNeighbor < 0 || k >= endk {
          assert k > 0 ==> Live(pool[b], k - 1);
          return true, k;
        }
        k := k + 1;
      }
    }

    // ---------------------------------------------------------------- placing a new edge

    /** Steps 2 and 3 of an insertion: a free slot of the chain, or a new block at its end. */
    method PlaceNew(etype: nat, from: nat, to: nat, weight: int, ts: int, eb: nat, prev0: nat, ghost p: nat) returns (rtn: int, aborted: bool)
      requires Valid() && etype < ntypes && from < nv && to < nv && from != to && weight != MARKER && ts != MARKER
      requires Key(etype, from, to) !in loc && Cursor(from, p, eb, prev0)
      requires forall q | 0 <= q < p :: chains[from][q] < pool.Length && pool[chains[from][q]].etype != etype
      modifies this, pool, first, outDegree, inDegree, eta
      ensures Valid() && maxActive == old(maxActive)
      ensures !aborted ==> rtn == 1 && Contents() == old(Contents())[Key(etype, from, to) := Val(weight, ts, ts)] && totalWeight == old(totalWeight) + weight
      ensures aborted ==> Contents() == old(Contents()) && totalWeight == old(totalWeight) && tail == old(tail) && tail + 1 >= pool.Length
      ensures aborted ==> (RangesCover() <==> old(RangesCover()))
      ensures !aborted && old(RangesCover()) ==> TookIn(RangesCover(), loc, Key(etype, from, to), old(pool[..]), old(tail), ts)
      ensures !aborted ==> Places(old(pool[..]), old(tail), Key(etype, from, to), weight, ts, pool[..], tail, loc)
      ensures old(tail) <= tail <= old(tail) + 1
      ensures aborted ==> forall q | 0 <= q < |chains[from]| :: chains[from][q] < pool.Length && Full(pool[chains[from][q]], etype)
    {
      hide StoreOk, LinksOk, EtaOk, BlocksOk, LocOk, CountsOk, DegreesOk, BlockOk, SlotOk, Chained, At, Cursor, Edges, RangesOk, Misses, Filled, NewBlock, Full;
      ghost var s := State();
      var found, b, k, prev := FindGap(eb, prev0, etype, from, p);
      if !found { AllFull(s, nv, ntypes, etype, from); }
      aborted, rtn := false, 1;
      if found {
        FillSlot(etype, from, to, weight, ts, b, k);
      } else if tail + 1 >= pool.Length {
        aborted := true;
      } else {
        AppendBlock(etype, from, to, weight, ts, prev);
      }
    }

    // A new edge in a free slot, whose timeFirst word is locked meanwhile.
    method FillSlot(etype: nat, from: nat, to: nat, weight: int, ts: int, b: nat, k: nat)
      requires Valid() && from < nv && to < nv && from != to && weight != MARKER && ts != MARKER && Key(etype, from, to) !in loc
      requires 0 < b < tail <= pool.Length && pool[b].etype == etype && pool[b].vertexID == from
      requires k < EDGEBLOCKSIZE && k <= pool[b].high && !Live(pool[b], k)
      modifies this`totalWeight, this`loc, pool, outDegree, inDegree
      ensures Valid()
      ensures Contents() == old(Contents())[Key(etype, from, to) := Val(weight, ts, ts)] && totalWeight == old(totalWeight) + weight
      ensures loc == old(loc)[Key(etype, from, to) := Loc(b, k)]
      ensures b < |old(pool[..])| && k < |old(pool[..])[b].edges| && pool[..] == old(pool[..])[b := Filled(old(pool[..])[b], k, to, weight, ts)]
      ensures old(RangesCover()) ==> (RangesCover() <==> !Misses(old(pool[..])[b], ts))
    {
      hide StoreOk, LinksOk, EtaOk, BlocksOk, LocOk, CountsOk, DegreesOk, BlockOk, SlotOk, Chained, At, Edges, RangesOk, Misses;
      ghost var s := State();
      StoreFilled(s, nv, ntypes, b, k, to, weight, ts);
      ghost var block := pool[b];
      var e := pool[b].edges[k];
      pool[b] := pool[b].(edges := pool[b].edges[k := e.(timeFirst := MARKER)]);
      FilledAnyway(block, k, to, weight, ts, e.(timeFirst := MARKER));
      UpdateEdgeData(b, k, to, weight, ts);
      loc := loc[Key(etype, from, to) := Loc(b, k)];
      assert pool[..] == s.pool[b := Filled(block, k, to, weight, ts)];
      assert State() == FilledStore(s, b, k, to, weight, ts);
    }

    // A new edge in a new block at the end of the chain.
    method AppendBlock(etype: nat, from: nat, to: nat, weight: int, ts: int, prev: nat)
      requires Valid() && etype < ntypes && from < nv && to < nv && from != to && weight != MARKER && ts != MARKER && Key(etype, from, to) !in loc
      requires from < |chains| && prev == Last(chains[from]) && prev < tail && tail + 1 < pool.Length
      modifies this`tail, this`totalWeight, this`chains, this`loc, pool, first, outDegree, inDegree, eta
      ensures Valid() && tail == old(tail) + 1
      ensures Contents() == old(Contents())[Key(etype, from, to) := Val(weight, ts, ts)] && totalWeight == old(totalWeight) + weight
      ensures loc == old(loc)[Key(etype, from, to) := Loc(old(tail), 0)] && (old(RangesCover()) ==> RangesCover())
      ensures pool[old(tail)] == Filled(NewBlock(etype, from), 0, to, weight, ts)
    {
      hide StoreOk, NewBlock, Filled, Edges, Last, Updated, RangesOk;
      ghost var s := State();
      ghost var s' := GrownStore(s, nv, ntypes, etype, from, to, weight, ts, prev);
      NewBlockIs(etype, from);
      FilledIsLinked(NewBlock(etype, from), to, weight, ts);
      var newBlock := tail;
      tail := tail + 1;
      pool[newBlock] := NewBlock(etype, from);
      UpdateEdgeData(newBlock, 0, to, weight, ts);
      pool[newBlock] := pool[newBlock].(next := 0);
      eta[etype] := eta[etype] + [newBlock];
      if prev == 0 {
        first[from] := newBlock;
      } else {
        pool[prev] := pool[prev].(next := newBlock);
      }
      chains := chains[from := chains[from] + [newBlock]];
      loc := loc[Key(etype, from, to) := Loc(newBlock, 0)];
      assert State().pool == s'.pool;
      assert State() == s';
    }

    // ---------------------------------------------------------------- the operations

    method Activate(v: int)
      requires Valid()
      modifies this`maxActive
      ensures Valid() && Contents() == old(Contents()) && (RangesCover() <==> old(RangesCover()))
      ensures maxActive == if v > old(maxActive) then v else old(maxActive)
    {
      if v > maxActive { maxActive := v; }
    }

    /**
     stinger_insert_edge_: 1 for a new edge, 0 for a known one, -1 for a loop.  Running out of
     blocks aborts the program, and only a new edge whose blocks are full can do that.
     */
    method InsertEdge_(etype: nat, from: nat, to: nat, weight: int, ts: int) returns (rtn: int, aborted: bool)
      requires Valid() && etype < ntypes && from < nv && to < nv && weight != MARKER && ts != MARKER
      modifies this, pool, first, outDegree, inDegree, eta
      ensures Valid() && maxActive == old(maxActive)
      ensures from == to || aborted ==> Contents() == old(Contents()) && totalWeight == old(totalWeight)
      ensures from == to ==> rtn == -1 && !aborted
      ensures var key := Key(etype, from, to);
        from != to && !aborted ==>
          && rtn == (if key in old(Contents()) then 0 else 1)
          && Contents() == Inserted(old(Contents()), key, weight, ts)
          && totalWeight - old(totalWeight) == weight - WeightOf(old(Contents()), key)
      ensures from != to && !aborted ==>
        var key, m := Key(etype, from, to), old(Contents());
        && Contents() == (if key in m then m[key := Val(weight, m[key].timeFirst, ts)] else m[key := Val(weight, ts, ts)])
        && totalWeight == old(totalWeight) + weight - if key in m then m[key].weight else 0
      ensures from == to || aborted ==> (RangesCover() <==> old(RangesCover()))
      ensures from != to && !aborted && old(RangesCover()) ==> TookIn(RangesCover(), loc, Key(etype, from, to), old(pool[..]), old(tail), ts)
      ensures from != to && !aborted && Key(etype, from, to) !in old(Contents()) ==>
        Places(old(pool[..]), old(tail), Key(etype, from, to), weight, ts, pool[..], tail, loc)
      ensures from != to && Key(etype, from, to) in old(Contents()) ==>
        Refreshes(old(pool[..]), old(tail), old(loc), Key(etype, from, to), weight, ts, pool[..], tail, loc)
      ensures aborted ==> Key(etype, from, to) !in Contents() && tail == old(tail) && tail + 1 >= pool.Length
      ensures old(tail) <= tail <= old(tail) + (if Key(etype, from, to) in old(Contents()) then 0 else 1)
    {
      hide StoreOk, LinksOk, EtaOk, BlocksOk, LocOk, CountsOk, DegreesOk, BlockOk, SlotOk, Chained, At, Cursor, RangesOk, TookIn, Places, Updated;
      aborted := false;
      if from == to { return -1, false; }
      ghost var key := Key(etype, from, to);
      var eb, prev;
      ghost var p;
      eb, prev, p := EtypeBegin(from, etype);
      var found, b, k := FindEdge(eb, etype, from, to, prev, p);
      if found {
        RefreshSlot(key, b, k, weight, ts);
        rtn := 0;
      } else {
        rtn, aborted := PlaceNew(etype, from, to, weight, ts, eb, prev, p);
      }
    }

    // A known edge refreshed in place.
    method RefreshSlot(ghost key: Key, b: nat, k: nat, weight: int, ts: int)
      requires Valid() && key in loc && loc[key] == Loc(b, k) && weight != MARKER && ts != MARKER && 0 <= key.to
      modifies this`totalWeight, pool, outDegree, inDegree
      ensures Valid()
      ensures Contents() == old(Contents())[key := Val(weight, old(Contents())[key].timeFirst, ts)]
      ensures totalWeight == old(totalWeight) + weight - old(Contents())[key].weight
      ensures old(RangesCover()) ==> TookIn(RangesCover(), loc, key, old(pool[..]), tail, ts)
      ensures b < |old(pool[..])| && k < |old(pool[..])[b].edges| && pool[..] == old(pool[..])[b := Updated(old(pool[..])[b], k, weight, ts)]
    {
      hide StoreOk, LinksOk, EtaOk, BlocksOk, LocOk, CountsOk, DegreesOk, BlockOk, SlotOk, Chained, At, Edges, RangesOk, Misses;
      ghost var s := State();
      LocFacts(s, nv, ntypes, key);
      StoreUpdated(s, nv, ntypes, key, weight, ts);
      StoreElim(s, nv, ntypes);
      UpdateEdgeData(b, k, pool[b].edges[k].neighbor, weight, ts);
      assert State() == UpdatedStore(s, key, weight, ts);
    }

    /** stinger_incr_edge_: as insertion, but the weight of a known edge grows. */
    method IncrEdge_(etype: nat, from: nat, to: nat, weight: int, ts: int) returns (rtn: int, aborted: bool)
      requires Valid() && etype < ntypes && from < nv && to < nv && weight != MARKER && ts != MARKER
      requires WeightOf(Contents(), Key(etype, from, to)) + weight != MARKER
      modifies this, pool, first, outDegree, inDegree, eta
      ensures Valid() && maxActive == old(maxActive)
      ensures from == to || aborted ==> Contents() == old(Contents()) && totalWeight == old(totalWeight)
      ensures from == to ==> rtn == -1 && !aborted
      ensures var key := Key(etype, from, to);
        from != to && !aborted ==>
          && rtn == (if key in old(Contents()) then 0 else 1)
          && Contents() == Inserted(old(Contents()), key, WeightOf(old(Contents()), key) + weight, ts)
          && totalWeight - old(totalWeight) == weight
      ensures from != to && !aborted ==>
        var key, m := Key(etype, from, to), old(Contents());
        Contents() == if key in m then m[key := Val(m[key].weight + weight, m[key].timeFirst, ts)] else m[key := Val(weight, ts, ts)]
      ensures from == to || aborted ==> (RangesCover() <==> old(RangesCover()))
      ensures from != to && !aborted && old(RangesCover()) ==> TookIn(RangesCover(), loc, Key(etype, from, to), old(pool[..]), old(tail), ts)
      ensures from != to && !aborted && Key(etype, from, to) !in old(Contents()) ==>
        Places(old(pool[..]), old(tail), Key(etype, from, to), weight, ts, pool[..], tail, loc)
      ensures from != to && Key(etype, from, to) in old(Contents()) ==>
        Refreshes(old(pool[..]), old(tail), old(loc), Key(etype, from, to), WeightOf(old(Contents()), Key(etype, from, to)) + weight, ts, pool[..], tail, loc)
      ensures aborted ==> Key(etype, from, to) !in Contents() && tail == old(tail) && tail + 1 >= pool.Length
      ensures old(tail) <= tail <= old(tail) + (if Key(etype, from, to) in old(Contents()) then 0 else 1)
    {
      hide StoreOk, LinksOk, EtaOk, BlocksOk, LocOk, CountsOk, DegreesOk, BlockOk, SlotOk, Chained, At, Cursor, RangesOk, TookIn, Places, Updated, Edges;
      aborted := false;
      if from == to { return -1, false; }
      ghost var key := Key(etype, from, to);
      EdgesKeys(State());
      var eb, prev;
      ghost var p;
      eb, prev, p := EtypeBegin(from, etype);
      var found, b, k := FindEdge(eb, etype, from, to, prev, p);
      if found {
        KnownWeight(State(), nv, ntypes, key);
        RefreshSlot(key, b, k, pool[b].edges[k].weight + weight, ts);
        rtn := 0;
      } else {
        rtn, aborted := PlaceNew(etype, from, to, weight, ts, eb, prev, p);
      }
    }

    /**
     stinger_remove_edge: 1 when the edge was there, -1 when it was not (and for a loop).  The
     total weight grows by one, since the locked weight word is subtracted.
     */
    method RemoveEdge(etype: nat, from: nat, to: nat) returns (rtn: int)
      requires Valid() && etype < ntypes && from < nv && to < nv
      modifies this`totalWeight, this`loc, pool, outDegree, inDegree
      ensures Valid() && Contents() == old(Contents()) - {Key(etype, from, to)}
      ensures rtn == if Key(etype, from, to) in old(Contents()) then 1 else -1
      ensures totalWeight == old(totalWeight) + if rtn == 1 then 1 else 0
      ensures old(RangesCover()) ==> RangesCover()
    {
      hide StoreOk, LinksOk, EtaOk, BlocksOk, LocOk, CountsOk, DegreesOk, BlockOk, SlotOk, Chained, At, Cursor, Edges, RangesOk;
      ghost var key, s := Key(etype, from, to), State();
      EdgesKeys(s);
      if from == to {
        NoLoops(s, nv, ntypes, key);
        return -1;
      }
      var eb, prev;
      ghost var p;
      eb, prev, p := EtypeBegin(from, etype);
      var found, b, k := FindEdge(eb, etype, from, to, prev, p);
      if !found { return -1; }
      LocFacts(s, nv, ntypes, key);
      StoreBlanked(s, nv, ntypes, key);
      var e := pool[b].edges[k];
      ghost var block := pool[b];
      pool[b] := pool[b].(edges := pool[b].edges[k := e.(weight := MARKER)]);
      UpdateEdgeData(b, k, -1 - to, e.weight, 0);
      loc := loc - {key};
      assert pool[b] == Blanked(block, k);
      assert State() == BlankedStore(s, key);
      rtn := 1;
    }

    // ---------------------------------------------------------------- both directions

    /**
     stinger_insert_edge_pair: both directions of the edge in the map, and a number that says which of
     them are new; a symmetric map stays symmetric.  The program aborts only where a direction is new
     and the pool is used up, after the first direction was stored if the second one fails.
     */
    method InsertEdgePair(etype: nat, from: nat, to: nat, weight: int, ts: int) returns (rtn: int, aborted: bool)
      requires Valid() && etype < ntypes && from < nv && to < nv && weight != MARKER && ts != MARKER
      modifies this, pool, first, outDegree, inDegree, eta
      ensures Valid() && maxActive == Top(old(maxActive), from, to)
      ensures from == to ==> rtn == -1 && !aborted && Contents() == old(Contents())
      ensures from != to && !aborted ==>
        && Contents() == Inserted(Inserted(old(Contents()), Key(etype, from, to), weight, ts), Key(etype, to, from), weight, ts)
        && rtn == (if Key(etype, from, to) in old(Contents()) then 0 else 1) + (if Key(etype, to, from) in old(Contents()) then 0 else 2)
      ensures aborted ==> tail + 1 >= pool.Length && PairCut(old(Contents()), Contents(), Key(etype, from, to), weight, ts)
      ensures Symmetric(old(Contents())) && !aborted ==> Symmetric(Contents())
      ensures old(RangesCover()) && (from == to || ts >= 0) ==> RangesCover()
    {
      hide *;
      Activate(if from > to then from else to);
      TopIs(old(maxActive), from, to);
      ghost var m, key := Contents(), Key(etype, from, to);
      var rtn1, rtn2;
      ghost var pool0, tail0 := pool[..], tail;
      rtn1, aborted := InsertEdge_(etype, from, to, weight, ts);
      if from != to && !aborted && ts >= 0 && old(RangesCover()) { TookLate(RangesCover(), loc, key, pool0, tail0, ts); }
      if aborted {
        CutFirst(m, key, weight, ts);
        return -1, true;
      }
      FlipIs(key);
      if from != to { WeightElsewhere(m, key, weight, ts); }
      ghost var pool1, tail1 := pool[..], tail;
      rtn2, aborted := InsertEdge_(etype, to, from, weight, ts);
      if from != to && !aborted && ts >= 0 && old(RangesCover()) { TookLate(RangesCover(), loc, Key(etype, to, from), pool1, tail1, ts); }
      if aborted {
        CutSecond(m, key, weight, ts);
        return -1, true;
      }
      OrIs(rtn1, 2 * rtn2);
      PairNewsIs(m, key);
      rtn := if rtn1 < 0 || rtn2 < 0 then -1 else Or(rtn1, 2 * rtn2);
      if Symmetric(m) && from != to {
        SymmetricAt(m, key);
        PairSymmetric(m, key, weight, weight, ts);
      }
    }

    /** stinger_incr_edge_pair: as above, with the weight added in both directions. */
    method IncrEdgePair(etype: nat, from: nat, to: nat, weight: int, ts: int) returns (rtn: int, aborted: bool)
      requires Valid() && etype < ntypes && from < nv && to < nv && weight != MARKER && ts != MARKER
      requires WeightOf(Contents(), Key(etype, from, to)) + weight != MARKER && WeightOf(Contents(), Key(etype, to, from)) + weight != MARKER
      modifies this, pool, first, outDegree, inDegree, eta
      ensures Valid() && maxActive == Top(old(maxActive), from, to)
      ensures from == to ==> rtn == -1 && !aborted && Contents() == old(Contents())
      ensures from != to && !aborted ==>
        && Contents() == Inserted(Inserted(old(Contents()), Key(etype, from, to), WeightOf(old(Contents()), Key(etype, from, to)) + weight, ts),
                                  Key(etype, to, from), WeightOf(old(Contents()), Key(etype, to, from)) + weight, ts)
        && rtn == (if Key(etype, from, to) in old(Contents()) then 0 else 1) + (if Key(etype, to, from) in old(Contents()) then 0 else 2)
      ensures aborted ==> tail + 1 >= pool.Length
      ensures aborted ==>
        PairCut(old(Contents()), Contents(), Key(etype, from, to), WeightOf(old(Contents()), Key(etype, from, to)) + weight, ts)
      ensures Symmetric(old(Contents())) && !aborted ==> Symmetric(Contents())
      ensures old(RangesCover()) && (from == to || ts >= 0) ==> RangesCover()
    {
      hide *;
      Activate(if from > to then from else to);
      TopIs(old(maxActive), from, to);
      ghost var m, key := Contents(), Key(etype, from, to);
      var rtn1, rtn2;
      ghost var pool0, tail0 := pool[..], tail;
      rtn1, aborted := IncrEdge_(etype, from, to, weight, ts);
      if from != to && !aborted && ts >= 0 && old(RangesCover()) { TookLate(RangesCover(), loc, key, pool0, tail0, ts); }
      if aborted {
        CutFirst(m, key, WeightOf(m, key) + weight, ts);
        return -1, true;
      }
      ghost var m1 := Contents();
      FlipIs(key);
      if from != to { WeightElsewhere(m, key, WeightOf(m, key) + weight, ts); }
      ghost var pool1, tail1 := pool[..], tail;
      rtn2, aborted := IncrEdge_(etype, to, from, weight, ts);
      if from != to && !aborted && ts >= 0 && old(RangesCover()) { TookLate(RangesCover(), loc, Key(etype, to, from), pool1, tail1, ts); }
      if aborted {
        CutSecond(m, key, WeightOf(m, key) + weight, ts);
        return -1, true;
      }
      OrIs(rtn1, 2 * rtn2);
      PairNewsIs(m, key);
      rtn := if rtn1 < 0 || rtn2 < 0 then -1 else Or(rtn1, 2 * rtn2);
      if Symmetric(m) && from != to { PairIncremented(m, m1, Contents(), key, weight, ts); }
    }

    /** stinger_remove_edge_pair: both directions go, 3 when both were there; symmetry stays. */
    method RemoveEdgePair(etype: nat, from: nat, to: nat) returns (rtn: int)
      requires Valid() && etype < ntypes && from < nv && to < nv
      modifies this`totalWeight, this`loc, pool, outDegree, inDegree
      ensures Valid() && Contents() == old(Contents()) - {Key(etype, from, to), Key(etype, to, from)}
      ensures rtn == if Key(etype, from, to) in old(Contents()) && Key(etype, to, from) in old(Contents()) then 3 else -1
      ensures Symmetric(old(Contents())) ==> Symmetric(Contents())
      ensures old(RangesCover()) ==> RangesCover()
    {
      hide StoreOk, Edges, RangesOk;
      ghost var m := Contents();
      EdgesKeys(State());
      if from == to { NoLoops(State(), nv, ntypes, Key(etype, from, to)); }
      var rtn1 := RemoveEdge(etype, from, to);
      var rtn2 := RemoveEdge(etype, to, from);
      rtn := if rtn1 < 0 || rtn2 < 0 then -1 else Or(rtn1, 2 * rtn2);
      assert m - {Key(etype, from, to)} - {Key(etype, to, from)} == m - {Key(etype, from, to), Key(etype, to, from)};
    }
  }

  // The largest vertex used so far, once from and to are.
  function Top(max: int, from: int, to: int): int {
    if max >= from && max >= to then max else if from > to then from else to
  }

  lemma TopIs(max: int, from: int, to: int)
    ensures var v := if from > to then from else to; Top(max, from, to) == if v > max then v else max
  {
  }

  // What a pair operation returns: bit 0 for the edge itself and bit 1 for its other direction, set when new.
  function PairNews(m: map<Key, Val>, key: Key): int {
    (if key in m then 0 else 1) + if Flip(key) in m then 0 else 2
  }

  lemma PairNewsIs(m: map<Key, Val>, key: Key)
    ensures PairNews(m, key) == (if key in m then 0 else 1) + if Flip(key) in m then 0 else 2
  {
  }

  // A pair operation that ran out of blocks: before its first direction, or between the two.
  ghost predicate PairCut(m: map<Key, Val>, m': map<Key, Val>, key: Key, weight: int, ts: int) {
    (key !in m && m' == m) || (Flip(key) !in m && m' == Inserted(m, key, weight, ts))
  }

  lemma CutFirst(m: map<Key, Val>, key: Key, weight: int, ts: int)
    requires key !in m
    ensures PairCut(m, m, key, weight, ts)
  {
  }

  lemma CutSecond(m: map<Key, Val>, key: Key, weight: int, ts: int)
    requires Flip(key) !in m
    ensures PairCut(m, Inserted(m, key, weight, ts), key, weight, ts)
  {
  }

  // After an insertion at ts the ranges cover all edges exactly unless the block that has the edge was
  // there before, with an edge, and its range did not take ts in.
  ghost predicate TookIn(covers: bool, loc: map<Key, Loc>, key: Key, pool: seq<Block>, tail: nat, ts: int) {
    key in loc && (covers <==> !(loc[key].b < tail && loc[key].b < |pool| && Misses(pool[loc[key].b], ts)))
  }

  // What a new edge does to the blocks: it fills a free slot, or, when all blocks of its vertex and type
  // are full, the first slot of a new block.
  ghost predicate Places(pool: seq<Block>, tail: nat, key: Key, weight: int, ts: int, pool': seq<Block>, tail': nat, loc': map<Key, Loc>) {
    && key in loc' && 0 <= key.to && tail <= |pool|
    && var l := loc'[key];
    if tail' == tail then
      && 0 < l.b < tail && l.k < |pool[l.b].edges| && l.k <= pool[l.b].high && !Live(pool[l.b], l.k) && pool' == pool[l.b := Filled(pool[l.b], l.k, key.to, weight, ts)]
    else
      && tail' == tail + 1 && l == Loc(tail, 0) && tail < |pool'| && pool'[tail] == Filled(NewBlock(key.etype, key.from), 0, key.to, weight, ts)
      && forall b: nat | 0 < b < tail && pool[b].vertexID == key.from :: Full(pool[b], key.etype)
  }

  lemma AllFull(s: Store, nv: nat, ntypes: nat, etype: int, from: nat)
    requires StoreOk(s, nv, ntypes) && from < |s.chains| && forall q | 0 <= q < |s.chains[from]| :: s.chains[from][q] < |s.pool| && Full(s.pool[s.chains[from][q]], etype)
    ensures s.tail <= |s.pool| && forall b: nat | 0 < b < s.tail && s.pool[b].vertexID == from :: Full(s.pool[b], etype)
  {
    hide Full;
    forall b: nat | 0 < b < s.tail && s.pool[b].vertexID == from ensures Full(s.pool[b], etype) {
      var q :| 0 <= q < |s.chains[from]| && s.chains[from][q] == b;
    }
  }

  // What an insertion of a known edge does to the blocks.
  ghost predicate Refreshes(pool: seq<Block>, tail: nat, loc: map<Key, Loc>, key: Key, weight: int, ts: int, pool': seq<Block>, tail': nat, loc': map<Key, Loc>) {
    && key in loc && loc' == loc && tail' == tail
    && var l := loc[key];
      l.b < |pool| && l.k < |pool[l.b].edges| && pool' == pool[l.b := Updated(pool[l.b], l.k, weight, ts)]
  }

  lemma TookLate(covers: bool, loc: map<Key, Loc>, key: Key, pool: seq<Block>, tail: nat, ts: int)
    requires TookIn(covers, loc, key, pool, tail, ts) && ts >= 0
    ensures covers
  {
  }

  // Bitwise or of two numbers without a common bit, as the pair operations combine their results.
  function Or(x: int, y: int): int { x + y }

  function WeightOf(m: map<Key, Val>, key: Key): int { if key in m then m[key].weight else 0 }

  // The edge takes this weight and recent stamp; a first stamp stays.
  function Inserted(m: map<Key, Val>, key: Key, weight: int, ts: int): map<Key, Val> {
    m[key := Val(weight, if key in m then m[key].timeFirst else ts, ts)]
  }

  function Flip(key: Key): Key { Key(key.etype, key.to, key.from) }

  // Both directions of every edge are there, with the same weight and stamps.
  ghost predicate Symmetric(m: map<Key, Val>) {
    forall key | key in m :: Flip(key) in m && m[Flip(key)] == m[key]
  }

  lemma SymmetricAt(m: map<Key, Val>, key: Key)
    requires Symmetric(m)
    ensures (key in m <==> Flip(key) in m) && WeightOf(m, key) == WeightOf(m, Flip(key))
  {
    assert Flip(Flip(key)) == key;
  }

  lemma FlipIs(key: Key)
    ensures Flip(key) == Key(key.etype, key.to, key.from)
  {
  }

  lemma OrIs(x: int, y: int)
    ensures Or(x, y) == x + y
  {
  }

  lemma WeightElsewhere(m: map<Key, Val>, key: Key, w: int, ts: int)
    requires key != Flip(key)
    ensures WeightOf(Inserted(m, key, w, ts), Flip(key)) == WeightOf(m, Flip(key))
    ensures Flip(key) in Inserted(m, key, w, ts) <==> Flip(key) in m
  {
  }

  lemma PairIncremented(m: map<Key, Val>, m1: map<Key, Val>, m2: map<Key, Val>, key: Key, weight: int, ts: int)
    requires Symmetric(m) && key != Flip(key) && m1 == Inserted(m, key, WeightOf(m, key) + weight, ts)
    requires m2 == Inserted(m1, Flip(key), WeightOf(m1, Flip(key)) + weight, ts)
    ensures Symmetric(m2) && WeightOf(m2, key) == WeightOf(m, key) + weight && (Flip(key) in m1 <==> key in m)
  {
    WeightElsewhere(m, key, WeightOf(m, key) + weight, ts);
    SymmetricAt(m, key);
    PairSymmetric(m, key, WeightOf(m, key) + weight, WeightOf(m, Flip(key)) + weight, ts);
    hide Symmetric;
  }

  lemma PairSymmetric(m: map<Key, Val>, key: Key, w1: int, w2: int, ts: int)
    requires Symmetric(m) && w1 == w2
    ensures Symmetric(Inserted(Inserted(m, key, w1, ts), Flip(key), w2, ts))
  {
  }

  lemma KnownWeight(s: Store, nv: nat, ntypes: nat, key: Key)
    requires StoreOk(s, nv, ntypes) && key in s.loc
    ensures var l := s.loc[key];
      && l.b < |s.pool| && l.k < |s.pool[l.b].edges| && 0 <= key.to
      && key in Edges(s) && s.pool[l.b].edges[l.k].weight == Edges(s)[key].weight
  {
    LocFacts(s, nv, ntypes, key);
    hide StoreOk;
  }

  lemma NoLoops(s: Store, nv: nat, ntypes: nat, key: Key)
    requires StoreOk(s, nv, ntypes) && key.from == key.to
    ensures key !in s.loc
  {
    if key in s.loc { LocFacts(s, nv, ntypes, key); }
  }

  lemma AppendsIntro(pool: seq<Block>, tail: nat, etype: nat, from: nat, prev: nat, pool': seq<Block>)
    requires 0 < tail < |pool| && prev < tail
    requires pool' == (if prev == 0 then pool[tail := NewBlock(etype, from)] else pool[tail := NewBlock(etype, from)][prev := pool[prev].(next := tail)])
    ensures AppendsBlock(pool, tail, etype, from, prev, pool')
  {
  }

  lemma LastNone(chain: seq<nat>, s: Store, nv: nat, ntypes: nat, v: nat)
    requires StoreOk(s, nv, ntypes) && v < nv && v < |s.chains| && chain == s.chains[v]
    ensures Last(chain) == 0 <==> chain == []
  {
    if chain != [] { ChainStep(s, nv, ntypes, v, |chain| - 1); }
  }

  lemma NewBlockIs(etype: int, from: int)
    ensures var block := NewBlock(etype, from);
      && block.next == 0 && block.etype == etype && block.vertexID == from && block.high == 0 && |block.edges| == EDGEBLOCKSIZE
  {
  }

  lemma FilledIsLinked(block: Block, to: int, weight: int, ts: int)
    requires |block.edges| > 0 && block.next == 0
    ensures Filled(block, 0, to, weight, ts).(next := 0) == Filled(block, 0, to, weight, ts)
  {
  }

  // The store after appending a block that holds one new edge, field by field.
  lemma GrownStore(s: Store, nv: nat, ntypes: nat, etype: nat, from: nat, to: nat, weight: int, ts: int, prev: nat) returns (s': Store)
    requires StoreOk(s, nv, ntypes) && etype < ntypes && from < nv && to < nv && from != to && weight != MARKER && ts != MARKER
    requires Key(etype, from, to) !in s.loc && from < |s.chains| && prev == Last(s.chains[from]) && prev < s.tail && s.tail + 1 < |s.pool|
    ensures |s.first| == |s.outDegree| == |s.inDegree| == nv && |s.eta| == ntypes
    ensures var block := Filled(NewBlock(etype, from), 0, to, weight, ts);
      var pool' := s.pool[s.tail := block];
      s' == Store(if prev == 0 then pool' else pool'[prev := s.pool[prev].(next := s.tail)], s.tail + 1,
                  if prev == 0 then s.first[from := s.tail] else s.first,
                  s.outDegree[from := s.outDegree[from] + 1], s.inDegree[to := s.inDegree[to] + 1],
                  s.eta[etype := s.eta[etype] + [s.tail]], s.chains[from := s.chains[from] + [s.tail]],
                  s.loc[Key(etype, from, to) := Loc(s.tail, 0)])
    ensures StoreOk(s', nv, ntypes) && Edges(s') == Edges(s)[Key(etype, from, to) := Val(weight, ts, ts)]
    ensures RangesOk(s.pool, s.tail) ==> RangesOk(s'.pool, s'.tail)
  {
    hide StoreOk, LinksOk, EtaOk, BlocksOk, LocOk, CountsOk, DegreesOk, BlockOk, SlotOk, Chained, At, Edges, AppendsBlock, Last, RangesOk;
    var newPool := s.pool[s.tail := NewBlock(etype, from)];
    if prev != 0 { newPool := newPool[prev := newPool[prev].(next := s.tail)]; }
    StoreElim(s, nv, ntypes);
    AppendsIntro(s.pool, s.tail, etype, from, prev, newPool);
    StoreAppended(s, nv, ntypes, etype, from, newPool);
    var s1 := AppendedStore(s, etype, from, newPool);
    StoreFilled(s1, nv, ntypes, s.tail, 0, to, weight, ts);
    LastNone(s.chains[from], s, nv, ntypes, from);
    s' := FilledStore(s1, s.tail, 0, to, weight, ts);
    hide Filled, NewBlock;
    var block := Filled(NewBlock(etype, from), 0, to, weight, ts);
    assert prev != 0 ==> newPool[s.tail := block] == s.pool[s.tail := block][prev := s.pool[prev].(next := s.tail)];
  }

  // Locking a slot's word first does not change what it is filled with.
  lemma FilledAnyway(block: Block, k: nat, to: int, weight: int, ts: int, e: Slot)
    requires k < |block.edges|
    ensures Filled(block.(edges := block.edges[k := e]), k, to, weight, ts) == Filled(block, k, to, weight, ts)
  {
    assert block.edges[k := e][k := Slot(to, weight, ts, ts)] == block.edges[k := Slot(to, weight, ts, ts)];
  }

  lemma FullBefore(pool: seq<Block>, chain: seq<nat>, p: nat, etype: int)
    requires p <= |chain| && forall q | 0 <= q < p :: chain[q] < |pool| && pool[chain[q]].etype != etype
    ensures forall q | 0 <= q < p :: Full(pool[chain[q]], etype)
  {
  }

  ghost predicate NotIn(block: Block, etype: int, to: int) {
    block.etype == etype ==> forall k: nat | Live(block, k) :: block.edges[k].neighbor != to
  }

  // A block of this type has no free slot.
  ghost predicate Full(block: Block, etype: int) {
    block.etype == etype ==> forall k: nat | k < EDGEBLOCKSIZE :: Live(block, k)
  }

  // What a walk along a vertex's chain needs at each step.
  lemma ChainStep(s: Store, nv: nat, ntypes: nat, v: nat, p: nat)
    requires StoreOk(s, nv, ntypes) && v < nv
    ensures |s.chains| == |s.first| == nv && s.first[v] == At(s.chains[v], 0) && s.tail <= |s.pool| && At(s.chains[v], p) < s.tail
    ensures p < |s.chains[v]| ==>
      var b := s.chains[v][p];
      && At(s.chains[v], p) == b && 0 < b < s.tail && s.pool[b].next == At(s.chains[v], p + 1) && s.pool[b].vertexID == v
      && |s.pool[b].edges| == EDGEBLOCKSIZE && s.pool[b].high <= EDGEBLOCKSIZE && 0 <= s.pool[b].etype < ntypes
    ensures p >= |s.chains[v]| ==> At(s.chains[v], p) == 0
  {
    StoreElim(s, nv, ntypes);
    LinksElim(s.pool, s.tail, s.first, s.chains, v);
    if p < |s.chains[v]| { BlockFacts(s, nv, ntypes, s.chains[v][p]); }
    hide LinksOk, EtaOk, BlocksOk, LocOk, CountsOk, DegreesOk, StoreOk;
  }

  lemma LocHere(s: Store, nv: nat, ntypes: nat, b: nat, k: nat, key: Key)
    requires StoreOk(s, nv, ntypes) && 0 < b < s.tail && s.tail <= |s.pool| && Live(s.pool[b], k)
    requires s.pool[b].etype == key.etype && s.pool[b].vertexID == key.from && s.pool[b].edges[k].neighbor == key.to
    ensures key in s.loc && s.loc[key] == Loc(b, k)
  {
    assert LiveAt(s.pool, s.tail, b, k) && KeyAt(s.pool, b, k) == key;
  }

  lemma NotFound(s: Store, nv: nat, ntypes: nat, key: Key)
    requires StoreOk(s, nv, ntypes) && 0 <= key.from < nv
    requires forall q | 0 <= q < |s.chains[key.from]| :: s.chains[key.from][q] < |s.pool| && NotIn(s.pool[s.chains[key.from][q]], key.etype, key.to)
    ensures key !in s.loc
  {
    if key in s.loc { InChain(s, nv, ntypes, key); }
  }

  lemma InChain(s: Store, nv: nat, ntypes: nat, key: Key)
    requires StoreOk(s, nv, ntypes) && key in s.loc
    ensures 0 <= key.from < |s.chains| && s.loc[key].b in s.chains[key.from]
    ensures s.loc[key].b < |s.pool| && !NotIn(s.pool[s.loc[key].b], key.etype, key.to)
  {
    LocFacts(s, nv, ntypes, key);
  }

  lemma EmptyOk(s: Store, nv: nat, ntypes: nat)
    requires 0 < |s.pool| && s.tail == 1 && |s.first| == |s.outDegree| == |s.inDegree| == |s.chains| == nv && |s.eta| == ntypes
    requires forall v | 0 <= v < nv :: s.first[v] == 0 && s.outDegree[v] == 0 && s.inDegree[v] == 0 && s.chains[v] == []
    requires forall t | 0 <= t < ntypes :: s.eta[t] == []
    requires s.loc == map[]
    ensures StoreOk(s, nv, ntypes) && Edges(s) == map[]
  {
    forall v ensures From(s.loc, v) == {} && To(s.loc, v) == {} {}
  }
}
