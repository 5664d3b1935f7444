/**
 STINGER's edge blocks as values: what one block update does, and the invariant that ties blocks,
 chains, the edge type array and all cached numbers to one finite map of edges.
 */
module EdgeBlocks {
  const EDGEBLOCKSIZE: nat := 14
  const MARKER := -1
  const INT64_MAX := 0x7fff_ffff_ffff_ffff
  const INT64_MIN := -0x8000_0000_0000_0000

  datatype Slot = Slot(neighbor: int, weight: int, timeFirst: int, timeRecent: int)

  datatype Block = Block(next: nat, etype: int, vertexID: int, numEdges: int, high: nat, smallStamp: int, largeStamp: int, edges: seq<Slot>)

  datatype Key = Key(etype: int, from: int, to: int)

  datatype Val = Val(weight: int, timeFirst: int, timeRecent: int)

  datatype Loc = Loc(b: nat, k: nat)

  // ---------------------------------------------------------------- one block

  predicate Live(block: Block, k: nat) {
    k < |block.edges| && k < block.high && block.edges[k].neighbor >= 0
  }

  // Both stamps of the slot lie in the block's range.
  predicate Covered(block: Block, e: Slot) {
    block.smallStamp <= e.timeFirst <= block.largeStamp && block.smallStamp <= e.timeRecent <= block.largeStamp
  }

  predicate SlotOk(block: Block, k: nat, nv: nat)
    requires k < |block.edges|
  {
    var e := block.edges[k];
    && e.timeFirst != MARKER && (k >= block.high ==> e == Slot(0, 0, 0, 0))
    && (Live(block, k) ==> e.neighbor < nv && e.neighbor != block.vertexID && e.weight != MARKER)
  }

  // The block's stamp range covers its edges.
  ghost predicate Ranged(block: Block) {
    forall k: nat | Live(block, k) :: Covered(block, block.edges[k])
  }

  predicate BlockOk(block: Block, nv: nat, ntypes: nat) {
    && |block.edges| == EDGEBLOCKSIZE && block.high <= EDGEBLOCKSIZE
    && 0 <= block.etype < ntypes && 0 <= block.vertexID < nv && block.smallStamp != MARKER
    && forall k: nat | k < EDGEBLOCKSIZE :: SlotOk(block, k, nv)
  }

  // A zeroed block of the given type and source.
  function NewBlock(etype: int, from: int): Block {
    Block(0, etype, from, 0, 0, INT64_MAX, INT64_MIN, seq(EDGEBLOCKSIZE, _ => Slot(0, 0, 0, 0)))
  }

  // x < y as 64-bit words without sign, as readff hands them over.
  predicate UnsignedLess(x: int, y: int) { if (x < 0) == (y < 0) then x < y else y < 0 }

  /** The words' order is that of their values without sign. */
  lemma UnsignedWords(x: int, y: int)
    requires INT64_MIN <= x <= INT64_MAX && INT64_MIN <= y <= INT64_MAX
    ensures UnsignedLess(x, y) <==> x % 0x1_0000_0000_0000_0000 < y % 0x1_0000_0000_0000_0000
  {
    assert x % 0x1_0000_0000_0000_0000 == if x < 0 then x + 0x1_0000_0000_0000_0000 else x;
    assert y % 0x1_0000_0000_0000_0000 == if y < 0 then y + 0x1_0000_0000_0000_0000 else y;
  }

  function Stamped(block: Block, ts: int): Block {
    if UnsignedLess(ts, block.smallStamp) || ts > block.largeStamp then
      block.(smallStamp := if ts < block.smallStamp then ts else block.smallStamp,
             largeStamp := if ts > block.largeStamp then ts else block.largeStamp)
    else block
  }

  // An edge already in slot k gets a new weight and recent stamp.
  function Updated(block: Block, k: nat, weight: int, ts: int): Block
    requires k < |block.edges|
  {
    Stamped(block, ts).(edges := block.edges[k := block.edges[k].(weight := weight, timeRecent := ts)])
  }

  // A new edge goes into slot k.
  function Filled(block: Block, k: nat, to: int, weight: int, ts: int): Block
    requires k < |block.edges|
  {
    var first := if block.numEdges == 0 then block.(smallStamp := ts, largeStamp := ts) else block;
    Stamped(first, ts).(numEdges := block.numEdges + 1, high := if k >= block.high then k + 1 else block.high,
                        edges := block.edges[k := Slot(to, weight, ts, ts)])
  }

  // The edge in slot k is removed; its weight word keeps the lock marker.
  function Blanked(block: Block, k: nat): Block
    requires k < |block.edges|
  {
    block.(numEdges := block.numEdges - 1,
           edges := block.edges[k := block.edges[k].(neighbor := -block.edges[k].neighbor - 1, weight := MARKER)])
  }

  // ---------------------------------------------------------------- the invariant, part by part

  function At(chain: seq<nat>, p: nat): nat { if p < |chain| then chain[p] else 0 }

  ghost predicate Chained(pool: seq<Block>, tail: nat, head: nat, chain: seq<nat>, v: int)
    requires tail <= |pool|
  {
    && head == At(chain, 0)
    && (forall p: nat | p < |chain| :: 0 < chain[p] < tail && pool[chain[p]].vertexID == v && pool[chain[p]].next == At(chain, p + 1))
    && (forall p, q | 0 <= p < q < |chain| :: chain[p] != chain[q])
  }

  // Every vertex's blocks form one chain, and every block is in its vertex's chain.
  ghost predicate LinksOk(pool: seq<Block>, tail: nat, first: seq<nat>, chains: seq<seq<nat>>) {
    && tail <= |pool| && |first| == |chains|
    && (forall v: nat | v < |first| :: Chained(pool, tail, first[v], chains[v], v))
    && (forall b | 0 < b < tail :: 0 <= pool[b].vertexID < |chains| && b in chains[pool[b].vertexID])
  }

  // Every block is registered exactly once, under its own type.
  ghost predicate EtaOk(pool: seq<Block>, tail: nat, eta: seq<seq<nat>>) {
    && tail <= |pool|
    && (forall t, p | 0 <= t < |eta| && 0 <= p < |eta[t]| :: 0 < eta[t][p] < tail && pool[eta[t][p]].etype == t)
    && (forall t, p, q | 0 <= t < |eta| && 0 <= p < q < |eta[t]| :: eta[t][p] != eta[t][q])
    && (forall b | 0 < b < tail :: 0 <= pool[b].etype < |eta| && b in eta[pool[b].etype])
  }

  ghost predicate BlocksOk(pool: seq<Block>, tail: nat, nv: nat, ntypes: nat) {
    tail <= |pool| && forall b | 0 < b < tail :: BlockOk(pool[b], nv, ntypes)
  }

  // Every block's stamp range covers its edges.
  ghost predicate RangesOk(pool: seq<Block>, tail: nat) {
    tail <= |pool| && forall b | 0 < b < tail :: Ranged(pool[b])
  }

  predicate LiveAt(pool: seq<Block>, tail: nat, b: nat, k: nat) {
    0 < b < tail <= |pool| && Live(pool[b], k)
  }

  function KeyAt(pool: seq<Block>, b: nat, k: nat): Key
    requires b < |pool| && k < |pool[b].edges|
  {
    Key(pool[b].etype, pool[b].vertexID, pool[b].edges[k].neighbor)
  }

  // loc is a bijection between the edges and the live slots, so no edge is stored twice.
  ghost predicate LocOk(pool: seq<Block>, tail: nat, loc: map<Key, Loc>) {
    && (forall key | key in loc :: LiveAt(pool, tail, loc[key].b, loc[key].k) && KeyAt(pool, loc[key].b, loc[key].k) == key)
    && (forall b: nat, k: nat | LiveAt(pool, tail, b, k) :: KeyAt(pool, b, k) in loc && loc[KeyAt(pool, b, k)] == Loc(b, k))
  }

  ghost function InBlock(loc: map<Key, Loc>, b: nat): set<Key> {
    set key | key in loc && loc[key].b == b
  }

  ghost function From(loc: map<Key, Loc>, v: int): set<Key> {
    set key | key in loc && key.from == v
  }

  ghost function To(loc: map<Key, Loc>, v: int): set<Key> {
    set key | key in loc && key.to == v
  }

  ghost predicate CountsOk(pool: seq<Block>, tail: nat, loc: map<Key, Loc>) {
    tail <= |pool| && forall b: nat | 0 < b < tail :: pool[b].numEdges == |InBlock(loc, b)|
  }

  ghost predicate DegreesOk(outDegree: seq<int>, inDegree: seq<int>, loc: map<Key, Loc>) {
    && |outDegree| == |inDegree|
    && forall v | 0 <= v < |outDegree| :: outDegree[v] == |From(loc, v)| && inDegree[v] == |To(loc, v)|
  }

  ghost function ValAt(pool: seq<Block>, l: Loc): Val
    requires l.b < |pool| && l.k < |pool[l.b].edges|
  {
    var e := pool[l.b].edges[l.k];
    Val(e.weight, e.timeFirst, e.timeRecent)
  }

  // The finite map that the blocks stand for.
  ghost function EdgeMap(pool: seq<Block>, loc: map<Key, Loc>): (m: map<Key, Val>)
    ensures m.Keys == loc.Keys
  {
    map key | key in loc :: if loc[key].b < |pool| && loc[key].k < |pool[loc[key].b].edges| then ValAt(pool, loc[key]) else Val(0, 0, 0)
  }

  // A STINGER's blocks, vertices and edge type array, with the chains and places they spell out.
  datatype Store = Store(pool: seq<Block>, tail: nat, first: seq<nat>, outDegree: seq<int>, inDegree: seq<int>, eta: seq<seq<nat>>,
                         chains: seq<seq<nat>>, loc: map<Key, Loc>)

  ghost predicate StoreOk(s: Store, nv: nat, ntypes: nat) {
    && 0 < s.tail <= |s.pool| && |s.first| == |s.outDegree| == |s.inDegree| == |s.chains| == nv && |s.eta| == ntypes
    && LinksOk(s.pool, s.tail, s.first, s.chains)
    && EtaOk(s.pool, s.tail, s.eta)
    && BlocksOk(s.pool, s.tail, nv, ntypes)
    && LocOk(s.pool, s.tail, s.loc)
    && CountsOk(s.pool, s.tail, s.loc)
    && DegreesOk(s.outDegree, s.inDegree, s.loc)
  }

  ghost function Edges(s: Store): map<Key, Val> {
    EdgeMap(s.pool, s.loc)
  }

  // ---------------------------------------------------------------- changing one block in place

  predicate SameHeader(x: Block, y: Block) {
    x.next == y.next && x.etype == y.etype && x.vertexID == y.vertexID
  }

  lemma LinksKept(pool: seq<Block>, tail: nat, first: seq<nat>, chains: seq<seq<nat>>, eta: seq<seq<nat>>, b: nat, block: Block)
    requires LinksOk(pool, tail, first, chains) && EtaOk(pool, tail, eta) && b < |pool| && SameHeader(block, pool[b])
    ensures LinksOk(pool[b := block], tail, first, chains) && EtaOk(pool[b := block], tail, eta)
  {
    var pool' := pool[b := block];
    forall v: nat | v < |first| ensures Chained(pool', tail, first[v], chains[v], v) {
      assert Chained(pool, tail, first[v], chains[v], v);
    }
  }

  lemma UpdatedOk(block: Block, k: nat, weight: int, ts: int, nv: nat, ntypes: nat)
    requires BlockOk(block, nv, ntypes) && Live(block, k) && weight != MARKER && ts != MARKER
    ensures BlockOk(Updated(block, k, weight, ts), nv, ntypes) && SameHeader(Updated(block, k, weight, ts), block)
    ensures Updated(block, k, weight, ts).numEdges == block.numEdges
  {
    var block' := Updated(block, k, weight, ts);
    forall l: nat | l < EDGEBLOCKSIZE ensures SlotOk(block', l, nv) {
      assert SlotOk(block, l, nv);
    }
  }

  // The block has an edge exactly as long as one of its slots is live.
  predicate CountMatches(block: Block) {
    block.numEdges == 0 <==> forall k: nat | k < |block.edges| :: !Live(block, k)
  }

  lemma FilledOk(block: Block, k: nat, to: int, weight: int, ts: int, nv: nat, ntypes: nat)
    requires BlockOk(block, nv, ntypes) && k < EDGEBLOCKSIZE && k <= block.high && !Live(block, k)
    requires 0 <= to < nv && to != block.vertexID && weight != MARKER && ts != MARKER
    ensures var block' := Filled(block, k, to, weight, ts);
      && BlockOk(block', nv, ntypes) && SameHeader(block', block) && block'.numEdges == block.numEdges + 1
      && (forall l: nat | l < EDGEBLOCKSIZE :: Live(block', l) <==> Live(block, l) || l == k)
      && (forall l: nat | l < EDGEBLOCKSIZE && l != k :: block'.edges[l] == block.edges[l])
      && block'.edges[k] == Slot(to, weight, ts, ts)
  {
    var block' := Filled(block, k, to, weight, ts);
    forall l: nat | l < EDGEBLOCKSIZE ensures SlotOk(block', l, nv) {
      assert SlotOk(block, l, nv);
    }
  }

  lemma BlankedOk(block: Block, k: nat, nv: nat, ntypes: nat)
    requires BlockOk(block, nv, ntypes) && Live(block, k)
    ensures var block' := Blanked(block, k);
      && BlockOk(block', nv, ntypes) && SameHeader(block', block) && block'.numEdges == block.numEdges - 1
      && (forall l: nat | l < EDGEBLOCKSIZE :: Live(block', l) <==> Live(block, l) && l != k)
      && (forall l: nat | l < EDGEBLOCKSIZE && l != k :: block'.edges[l] == block.edges[l])
  {
    var block' := Blanked(block, k);
    forall l: nat | l < EDGEBLOCKSIZE ensures SlotOk(block', l, nv) {
      assert SlotOk(block, l, nv);
    }
  }

  lemma CountMatchesHere(pool: seq<Block>, tail: nat, loc: map<Key, Loc>, b: nat)
    requires LocOk(pool, tail, loc) && CountsOk(pool, tail, loc) && 0 < b < tail
    ensures CountMatches(pool[b])
  {
    forall k: nat | k < |pool[b].edges| && Live(pool[b], k) ensures pool[b].numEdges != 0 {
      assert LiveAt(pool, tail, b, k);
      assert KeyAt(pool, b, k) in InBlock(loc, b);
    }
    if pool[b].numEdges != 0 {
      var key :| key in InBlock(loc, b);
      assert Live(pool[b], loc[key].k);
    }
  }

  // ---------------------------------------------------------------- stamp ranges

  // An insertion at ts that the range of this block does not take in: the comparison without sign
  // takes a negative stamp for a late one.
  predicate Misses(block: Block, ts: int) { block.numEdges != 0 && ts < 0 <= block.smallStamp }

  /** Where a range is not empty, it takes a stamp in exactly unless the stamp is negative and the range is not. */
  lemma StampedExactly(block: Block, ts: int)
    requires block.smallStamp <= block.largeStamp
    ensures var block' := Stamped(block, ts);
      && (block'.smallStamp <= ts <= block'.largeStamp <==> !(ts < 0 <= block.smallStamp))
      && block'.smallStamp <= block.smallStamp && block.largeStamp <= block'.largeStamp
      && (block'.smallStamp == block.smallStamp || block'.smallStamp == ts) && (block'.largeStamp == block.largeStamp || block'.largeStamp == ts)
      && block' == block.(smallStamp := block'.smallStamp, largeStamp := block'.largeStamp)
  {
  }

  /** A slot that is filled has the edge with one stamp for both, and the range takes it in as an update does, or starts with it. */
  lemma FilledExactly(block: Block, k: nat, to: int, weight: int, ts: int)
    requires k < |block.edges|
    ensures var block' := Filled(block, k, to, weight, ts);
      && block'.edges == block.edges[k := Slot(to, weight, ts, ts)] && block'.numEdges == block.numEdges + 1
      && block'.high == (if k >= block.high then k + 1 else block.high)
      && (block.numEdges == 0 ==> block'.smallStamp == block'.largeStamp == ts)
      && (block.numEdges != 0 ==> block'.smallStamp == Stamped(block, ts).smallStamp && block'.largeStamp == Stamped(block, ts).largeStamp)
      && (block'.next, block'.etype, block'.vertexID) == (block.next, block.etype, block.vertexID)
  {
  }

  lemma UpdatedRanged(block: Block, k: nat, weight: int, ts: int)
    requires Live(block, k) && Ranged(block) && CountMatches(block)
    ensures Ranged(Updated(block, k, weight, ts)) <==> !Misses(block, ts)
  {
    StampedExactly(block, ts);
    var block' := Updated(block, k, weight, ts);
    forall l: nat | Live(block', l) ensures Live(block, l) && Covered(block, block.edges[l]) && (l != k ==> block'.edges[l] == block.edges[l]) {}
    assert Live(block', k) && block'.edges[k].timeRecent == ts;
    hide Stamped, UnsignedLess;
  }

  lemma FilledRanged(block: Block, k: nat, to: int, weight: int, ts: int)
    requires k < |block.edges| && k <= block.high && !Live(block, k) && Ranged(block) && CountMatches(block) && 0 <= to
    ensures Ranged(Filled(block, k, to, weight, ts)) <==> !Misses(block, ts)
  {
    var block' := Filled(block, k, to, weight, ts);
    forall l: nat | Live(block', l) && l != k ensures Live(block, l) && Covered(block, block.edges[l]) && block'.edges[l] == block.edges[l] {}
    assert Live(block', k) && block'.edges[k] == Slot(to, weight, ts, ts);
    if block.numEdges != 0 {
      var l: nat :| Live(block, l);
      assert Covered(block, block.edges[l]);
      StampedExactly(block, ts);
    }
    hide Stamped, UnsignedLess;
  }

  lemma BlankedRanged(block: Block, k: nat)
    requires Live(block, k) && Ranged(block)
    ensures Ranged(Blanked(block, k))
  {
    var block' := Blanked(block, k);
    forall l: nat | Live(block', l) ensures Covered(block', block'.edges[l]) {
      if l != k { assert Live(block, l); }
    }
  }

  lemma RangesPut(pool: seq<Block>, tail: nat, b: nat, block: Block)
    requires RangesOk(pool, tail) && 0 < b < tail
    ensures RangesOk(pool[b := block], tail) <==> Ranged(block)
  {
    hide Ranged;
    assert pool[b := block][b] == block;
  }

  lemma RangesAt(pool: seq<Block>, tail: nat, b: nat)
    requires RangesOk(pool, tail) && 0 < b < tail
    ensures b < |pool| && Ranged(pool[b])
  {
  }

  // ---------------------------------------------------------------- counting keys

  lemma KeyInBlock(loc: map<Key, Loc>, key: Key, l: Loc, b: nat)
    requires key !in loc
    ensures |InBlock(loc[key := l], b)| == |InBlock(loc, b)| + if b == l.b then 1 else 0
  {
    assert InBlock(loc[key := l], b) == InBlock(loc, b) + if b == l.b then {key} else {};
  }

  lemma KeyFrom(loc: map<Key, Loc>, key: Key, l: Loc, v: int)
    requires key !in loc
    ensures |From(loc[key := l], v)| == |From(loc, v)| + if v == key.from then 1 else 0
  {
    assert From(loc[key := l], v) == From(loc, v) + if v == key.from then {key} else {};
  }

  lemma KeyTo(loc: map<Key, Loc>, key: Key, l: Loc, v: int)
    requires key !in loc
    ensures |To(loc[key := l], v)| == |To(loc, v)| + if v == key.to then 1 else 0
  {
    assert To(loc[key := l], v) == To(loc, v) + if v == key.to then {key} else {};
  }

  lemma KeyAdded(loc: map<Key, Loc>, key: Key, l: Loc)
    requires key !in loc
    ensures forall b: nat :: |InBlock(loc[key := l], b)| == |InBlock(loc, b)| + if b == l.b then 1 else 0
    ensures forall v :: |From(loc[key := l], v)| == |From(loc, v)| + if v == key.from then 1 else 0
    ensures forall v :: |To(loc[key := l], v)| == |To(loc, v)| + if v == key.to then 1 else 0
  {
    forall b: nat { KeyInBlock(loc, key, l, b); }
    forall v { KeyFrom(loc, key, l, v); }
    forall v { KeyTo(loc, key, l, v); }
    hide *;
  }

  lemma KeyRemoved(loc: map<Key, Loc>, key: Key)
    requires key in loc
    ensures forall b: nat :: |InBlock(loc, b)| == |InBlock(loc - {key}, b)| + if b == loc[key].b then 1 else 0
    ensures forall v :: |From(loc, v)| == |From(loc - {key}, v)| + if v == key.from then 1 else 0
    ensures forall v :: |To(loc, v)| == |To(loc - {key}, v)| + if v == key.to then 1 else 0
  {
    assert (loc - {key})[key := loc[key]] == loc;
    KeyAdded(loc - {key}, key, loc[key]);
  }

  // ---------------------------------------------------------------- the three changes

  lemma LocUpdated(pool: seq<Block>, tail: nat, loc: map<Key, Loc>, key: Key, block: Block, val: Val)
    requires LocOk(pool, tail, loc) && key in loc
    requires var old_ := pool[loc[key].b];
      && SameHeader(block, old_) && block.high == old_.high && |block.edges| == |old_.edges|
      && (forall l: nat | l < |old_.edges| :: block.edges[l].neighbor == old_.edges[l].neighbor)
      && (forall l: nat | l < |old_.edges| && l != loc[key].k :: block.edges[l] == old_.edges[l])
      && var e := block.edges[loc[key].k];
      Val(e.weight, e.timeFirst, e.timeRecent) == val
    ensures LocOk(pool[loc[key].b := block], tail, loc)
    ensures EdgeMap(pool[loc[key].b := block], loc) == EdgeMap(pool, loc)[key := val]
  {
    var b := loc[key].b;
    var pool' := pool[b := block];
    assert forall c: nat, k: nat :: LiveAt(pool', tail, c, k) <==> LiveAt(pool, tail, c, k);
    assert forall c: nat, k: nat | LiveAt(pool, tail, c, k) :: KeyAt(pool', c, k) == KeyAt(pool, c, k);
    forall key' | key' in loc ensures ValAt(pool', loc[key']) == if key' == key then val else ValAt(pool, loc[key']) {
      if key' != key { assert KeyAt(pool, loc[key'].b, loc[key'].k) == key'; }
    }
  }

  lemma StoreElim(s: Store, nv: nat, ntypes: nat)
    requires StoreOk(s, nv, ntypes)
    ensures 0 < s.tail <= |s.pool| && |s.first| == |s.outDegree| == |s.inDegree| == |s.chains| == nv && |s.eta| == ntypes
    ensures LinksOk(s.pool, s.tail, s.first, s.chains) && EtaOk(s.pool, s.tail, s.eta) && BlocksOk(s.pool, s.tail, nv, ntypes)
    ensures LocOk(s.pool, s.tail, s.loc) && CountsOk(s.pool, s.tail, s.loc) && DegreesOk(s.outDegree, s.inDegree, s.loc)
  {
    hide LinksOk, EtaOk, BlocksOk, LocOk, CountsOk, DegreesOk;
  }

  lemma StoreIntro(s: Store, nv: nat, ntypes: nat)
    requires 0 < s.tail <= |s.pool| && |s.first| == |s.outDegree| == |s.inDegree| == |s.chains| == nv && |s.eta| == ntypes
    requires LinksOk(s.pool, s.tail, s.first, s.chains) && EtaOk(s.pool, s.tail, s.eta) && BlocksOk(s.pool, s.tail, nv, ntypes)
    requires LocOk(s.pool, s.tail, s.loc) && CountsOk(s.pool, s.tail, s.loc) && DegreesOk(s.outDegree, s.inDegree, s.loc)
    ensures StoreOk(s, nv, ntypes)
  {
    hide LinksOk, EtaOk, BlocksOk, LocOk, CountsOk, DegreesOk;
  }

  lemma BlockFacts(s: Store, nv: nat, ntypes: nat, b: nat)
    requires StoreOk(s, nv, ntypes) && 0 < b < s.tail
    ensures b < |s.pool| && BlockOk(s.pool[b], nv, ntypes)
    ensures 0 <= s.pool[b].vertexID < nv && |s.pool[b].edges| == EDGEBLOCKSIZE && s.pool[b].high <= EDGEBLOCKSIZE && 0 <= s.pool[b].etype < ntypes
  {
    hide LinksOk, EtaOk, LocOk, CountsOk, DegreesOk;
  }

  lemma EdgesKeys(s: Store)
    ensures Edges(s).Keys == s.loc.Keys
  {
  }

  lemma LocFacts(s: Store, nv: nat, ntypes: nat, key: Key)
    requires StoreOk(s, nv, ntypes) && key in s.loc
    ensures var l := s.loc[key];
      && LiveAt(s.pool, s.tail, l.b, l.k) && 0 < l.b < s.tail <= |s.pool| && Live(s.pool[l.b], l.k)
      && BlockOk(s.pool[l.b], nv, ntypes) && l.k < |s.pool[l.b].edges| == EDGEBLOCKSIZE && l.k < s.pool[l.b].high
      && KeyAt(s.pool, l.b, l.k) == key && s.pool[l.b].etype == key.etype && s.pool[l.b].vertexID == key.from
      && s.pool[l.b].edges[l.k].neighbor == key.to && s.pool[l.b].edges[l.k].weight != MARKER
      && Edges(s)[key] == ValAt(s.pool, l)
    ensures 0 <= key.etype < ntypes && 0 <= key.from < nv && 0 <= key.to < nv && key.from != key.to
  {
    var l := s.loc[key];
    assert LiveAt(s.pool, s.tail, l.b, l.k) && KeyAt(s.pool, l.b, l.k) == key && BlockOk(s.pool[l.b], nv, ntypes);
    assert SlotOk(s.pool[l.b], l.k, nv);
    hide LinksOk, EtaOk, CountsOk, DegreesOk;
  }

  ghost function UpdatedStore(s: Store, key: Key, weight: int, ts: int): Store
    requires key in s.loc && s.loc[key].b < |s.pool| && s.loc[key].k < |s.pool[s.loc[key].b].edges|
  {
    var l := s.loc[key];
    s.(pool := s.pool[l.b := Updated(s.pool[l.b], l.k, weight, ts)])
  }

  /** A known edge gets a new weight and recent stamp. */
  lemma StoreUpdated(s: Store, nv: nat, ntypes: nat, key: Key, weight: int, ts: int)
    requires StoreOk(s, nv, ntypes) && key in s.loc && weight != MARKER && ts != MARKER
    ensures s.loc[key].b < |s.pool| && s.loc[key].k < |s.pool[s.loc[key].b].edges|
    ensures StoreOk(UpdatedStore(s, key, weight, ts), nv, ntypes)
    ensures Edges(UpdatedStore(s, key, weight, ts)) == Edges(s)[key := Val(weight, Edges(s)[key].timeFirst, ts)]
    ensures RangesOk(s.pool, s.tail) ==>
      (RangesOk(UpdatedStore(s, key, weight, ts).pool, s.tail) <==> !Misses(s.pool[s.loc[key].b], ts))
  {
    LocFacts(s, nv, ntypes, key);
    StoreElim(s, nv, ntypes);
    var l := s.loc[key];
    var block := Updated(s.pool[l.b], l.k, weight, ts);
    var val := Val(weight, Edges(s)[key].timeFirst, ts);
    UpdatedShape(s.pool[l.b], l.k, weight, ts, val);
    hide *;
    UpdatedOk(s.pool[l.b], l.k, weight, ts, nv, ntypes);
    LinksKept(s.pool, s.tail, s.first, s.chains, s.eta, l.b, block);
    LocUpdated(s.pool, s.tail, s.loc, key, block, val);
    BlockPut(s.pool, s.tail, nv, ntypes, l.b, block);
    CountsPut(s.pool, s.tail, s.loc, s.loc, l.b, block);
    UpdatedIs(s, key, weight, ts);
    StoreIntro(UpdatedStore(s, key, weight, ts), nv, ntypes);
    CountMatchesHere(s.pool, s.tail, s.loc, l.b);
    if RangesOk(s.pool, s.tail) {
      RangesAt(s.pool, s.tail, l.b);
      UpdatedRanged(s.pool[l.b], l.k, weight, ts);
      RangesPut(s.pool, s.tail, l.b, block);
    }
  }

  lemma UpdatedIs(s: Store, key: Key, weight: int, ts: int)
    requires key in s.loc && s.loc[key].b < |s.pool| && s.loc[key].k < |s.pool[s.loc[key].b].edges|
    ensures UpdatedStore(s, key, weight, ts) == s.(pool := s.pool[s.loc[key].b := Updated(s.pool[s.loc[key].b], s.loc[key].k, weight, ts)])
    ensures Edges(UpdatedStore(s, key, weight, ts)) == EdgeMap(UpdatedStore(s, key, weight, ts).pool, s.loc) && Edges(s) == EdgeMap(s.pool, s.loc)
  {
  }

  lemma UpdatedShape(block: Block, k: nat, weight: int, ts: int, val: Val)
    requires k < |block.edges| && val == Val(weight, block.edges[k].timeFirst, ts)
    ensures var block' := Updated(block, k, weight, ts);
      && block'.high == block.high && |block'.edges| == |block.edges|
      && (forall l: nat | l < |block.edges| :: block'.edges[l].neighbor == block.edges[l].neighbor)
      && (forall l: nat | l < |block.edges| && l != k :: block'.edges[l] == block.edges[l])
      && Val(block'.edges[k].weight, block'.edges[k].timeFirst, block'.edges[k].timeRecent) == val
  {
  }

  lemma BlockPut(pool: seq<Block>, tail: nat, nv: nat, ntypes: nat, b: nat, block: Block)
    requires BlocksOk(pool, tail, nv, ntypes) && b < |pool| && BlockOk(block, nv, ntypes)
    ensures BlocksOk(pool[b := block], tail, nv, ntypes)
  {
    hide BlockOk;
  }

  lemma CountsPut(pool: seq<Block>, tail: nat, loc: map<Key, Loc>, loc': map<Key, Loc>, b: nat, block: Block)
    requires CountsOk(pool, tail, loc) && b < |pool|
    requires forall c: nat | 0 < c < tail && c != b :: |InBlock(loc', c)| == |InBlock(loc, c)|
    requires block.numEdges - pool[b].numEdges == |InBlock(loc', b)| - |InBlock(loc, b)|
    ensures CountsOk(pool[b := block], tail, loc')
  {
  }

  lemma DegreesPut(outDegree: seq<int>, inDegree: seq<int>, loc: map<Key, Loc>, loc': map<Key, Loc>, from: nat, to: nat, delta: int)
    requires DegreesOk(outDegree, inDegree, loc) && from < |outDegree| && to < |inDegree|
    requires forall v :: |From(loc', v)| == |From(loc, v)| + if v == from then delta else 0
    requires forall v :: |To(loc', v)| == |To(loc, v)| + if v == to then delta else 0
    ensures DegreesOk(outDegree[from := outDegree[from] + delta], inDegree[to := inDegree[to] + delta], loc')
  {
  }

  lemma LocFilled(pool: seq<Block>, tail: nat, loc: map<Key, Loc>, key: Key, b: nat, k: nat, block: Block, val: Val)
    requires LocOk(pool, tail, loc) && key !in loc && 0 < b < tail <= |pool| && k < |block.edges| == |pool[b].edges|
    requires SameHeader(block, pool[b]) && !Live(pool[b], k)
    requires forall l: nat | l < |block.edges| :: Live(block, l) <==> Live(pool[b], l) || l == k
    requires forall l: nat | l < |block.edges| && l != k :: block.edges[l] == pool[b].edges[l]
    requires Key(block.etype, block.vertexID, block.edges[k].neighbor) == key
    requires var e := block.edges[k]; Val(e.weight, e.timeFirst, e.timeRecent) == val
    ensures LocOk(pool[b := block], tail, loc[key := Loc(b, k)])
    ensures EdgeMap(pool[b := block], loc[key := Loc(b, k)]) == EdgeMap(pool, loc)[key := val]
  {
    var pool', loc' := pool[b := block], loc[key := Loc(b, k)];
    forall c: nat, l: nat ensures LiveAt(pool', tail, c, l) <==> LiveAt(pool, tail, c, l) || (c == b && l == k) {}
    forall c: nat, l: nat | LiveAt(pool, tail, c, l) ensures KeyAt(pool', c, l) == KeyAt(pool, c, l) && !(c == b && l == k) {}
    assert KeyAt(pool', b, k) == key;
    hide Live;
    forall key' | key' in loc' ensures LiveAt(pool', tail, loc'[key'].b, loc'[key'].k) && KeyAt(pool', loc'[key'].b, loc'[key'].k) == key' {}
    forall c: nat, l: nat | LiveAt(pool', tail, c, l) ensures KeyAt(pool', c, l) in loc' && loc'[KeyAt(pool', c, l)] == Loc(c, l) {}
  }

  // Block b replaced by one that holds one edge more, in slot k.
  ghost function PutStore(s: Store, b: nat, k: nat, block: Block): Store
    requires b < |s.pool| && k < |block.edges| && 0 <= block.vertexID < |s.outDegree| && 0 <= block.edges[k].neighbor < |s.inDegree|
  {
    var from, to := block.vertexID, block.edges[k].neighbor;
    s.(pool := s.pool[b := block],
       outDegree := s.outDegree[from := s.outDegree[from] + 1],
       inDegree := s.inDegree[to := s.inDegree[to] + 1],
       loc := s.loc[Key(block.etype, from, to) := Loc(b, k)])
  }

  lemma PutIs(s: Store, b: nat, k: nat, block: Block)
    requires b < |s.pool| && k < |block.edges| && 0 <= block.vertexID < |s.outDegree| && 0 <= block.edges[k].neighbor < |s.inDegree|
    ensures var s', from, to := PutStore(s, b, k, block), block.vertexID, block.edges[k].neighbor;
      && s'.pool == s.pool[b := block] && s'.tail == s.tail && s'.first == s.first
      && s'.outDegree == s.outDegree[from := s.outDegree[from] + 1] && s'.inDegree == s.inDegree[to := s.inDegree[to] + 1]
      && s'.eta == s.eta && s'.chains == s.chains && s'.loc == s.loc[Key(block.etype, from, to) := Loc(b, k)]
      && Edges(s') == EdgeMap(s'.pool, s'.loc) && Edges(s) == EdgeMap(s.pool, s.loc)
  {
  }

  // block is old_ with the edge e in its free slot k.
  predicate Puts(old_: Block, k: nat, block: Block, e: Slot) {
    && k < |block.edges| == |old_.edges| && block.next == old_.next && block.etype == old_.etype && block.vertexID == old_.vertexID
    && block.numEdges == old_.numEdges + 1 && !Live(old_, k) && block.edges[k] == e
    && (forall l: nat | l < |block.edges| :: Live(block, l) <==> Live(old_, l) || l == k)
    && (forall l: nat | l < |block.edges| && l != k :: block.edges[l] == old_.edges[l])
  }

  lemma PutsFacts(old_: Block, k: nat, block: Block, e: Slot)
    requires Puts(old_, k, block, e)
    ensures SameHeader(block, old_) && k < |block.edges| == |old_.edges| && !Live(old_, k) && block.edges[k] == e
    ensures block.etype == old_.etype && block.vertexID == old_.vertexID && block.numEdges == old_.numEdges + 1
    ensures forall l: nat | l < |block.edges| :: Live(block, l) <==> Live(old_, l) || l == k
    ensures forall l: nat | l < |block.edges| && l != k :: block.edges[l] == old_.edges[l]
  {
  }

  /** A new edge in a free slot of a block. */
  lemma StorePut(s: Store, nv: nat, ntypes: nat, b: nat, k: nat, block: Block, e: Slot)
    requires StoreOk(s, nv, ntypes) && 0 < b < s.tail && b < |s.pool| && Puts(s.pool[b], k, block, e) && BlockOk(block, nv, ntypes)
    requires 0 <= e.neighbor < nv && Key(block.etype, block.vertexID, e.neighbor) !in s.loc
    ensures 0 <= block.vertexID < nv && |s.outDegree| == |s.inDegree| == nv && k < |block.edges| && block.edges[k] == e
    ensures StoreOk(PutStore(s, b, k, block), nv, ntypes)
    ensures Edges(PutStore(s, b, k, block)) == Edges(s)[Key(block.etype, block.vertexID, e.neighbor) := Val(e.weight, e.timeFirst, e.timeRecent)]
  {
    hide *;
    BlockFacts(s, nv, ntypes, b);
    StoreElim(s, nv, ntypes);
    PutsFacts(s.pool[b], k, block, e);
    var from, to: nat := block.vertexID, e.neighbor;
    var key := Key(block.etype, from, to);
    var loc' := s.loc[key := Loc(b, k)];
    LinksKept(s.pool, s.tail, s.first, s.chains, s.eta, b, block);
    LocFilled(s.pool, s.tail, s.loc, key, b, k, block, Val(e.weight, e.timeFirst, e.timeRecent));
    BlockPut(s.pool, s.tail, nv, ntypes, b, block);
    KeyAdded(s.loc, key, Loc(b, k));
    CountsPut(s.pool, s.tail, s.loc, loc', b, block);
    DegreesPut(s.outDegree, s.inDegree, s.loc, loc', from, to, 1);
    PutIs(s, b, k, block);
    StoreIntro(PutStore(s, b, k, block), nv, ntypes);
  }

  // The store when a new edge has been filled into a free slot.
  ghost function FilledStore(s: Store, b: nat, k: nat, to: nat, weight: int, ts: int): Store
    requires b < |s.pool| && k < |s.pool[b].edges| && 0 <= s.pool[b].vertexID < |s.outDegree| && to < |s.inDegree|
  {
    PutStore(s, b, k, Filled(s.pool[b], k, to, weight, ts))
  }

  /** update_edge_data with a new edge. */
  lemma StoreFilled(s: Store, nv: nat, ntypes: nat, b: nat, k: nat, to: nat, weight: int, ts: int)
    requires StoreOk(s, nv, ntypes)
    requires 0 < b < s.tail && k < EDGEBLOCKSIZE && b < |s.pool| && k <= s.pool[b].high && !Live(s.pool[b], k)
    requires to < nv && to != s.pool[b].vertexID && weight != MARKER && ts != MARKER
    requires Key(s.pool[b].etype, s.pool[b].vertexID, to) !in s.loc
    ensures 0 <= s.pool[b].vertexID < nv && |s.outDegree| == |s.inDegree| == nv && |s.pool[b].edges| == EDGEBLOCKSIZE
    ensures StoreOk(FilledStore(s, b, k, to, weight, ts), nv, ntypes)
    ensures Edges(FilledStore(s, b, k, to, weight, ts)) == Edges(s)[Key(s.pool[b].etype, s.pool[b].vertexID, to) := Val(weight, ts, ts)]
    ensures RangesOk(s.pool, s.tail) ==> (RangesOk(FilledStore(s, b, k, to, weight, ts).pool, s.tail) <==> !Misses(s.pool[b], ts))
  {
    BlockFacts(s, nv, ntypes, b);
    StoreElim(s, nv, ntypes);
    CountMatchesHere(s.pool, s.tail, s.loc, b);
    var block := Filled(s.pool[b], k, to, weight, ts);
    FilledOk(s.pool[b], k, to, weight, ts, nv, ntypes);
    assert Puts(s.pool[b], k, block, Slot(to, weight, ts, ts));
    hide *;
    StorePut(s, nv, ntypes, b, k, block, Slot(to, weight, ts, ts));
    FilledIs(s, b, k, to, weight, ts);
    if RangesOk(s.pool, s.tail) {
      RangesAt(s.pool, s.tail, b);
      FilledRanged(s.pool[b], k, to, weight, ts);
      RangesPut(s.pool, s.tail, b, block);
    }
  }

  lemma FilledIs(s: Store, b: nat, k: nat, to: nat, weight: int, ts: int)
    requires b < |s.pool| && k < |s.pool[b].edges| && 0 <= s.pool[b].vertexID < |s.outDegree| && to < |s.inDegree|
    ensures FilledStore(s, b, k, to, weight, ts) == PutStore(s, b, k, Filled(s.pool[b], k, to, weight, ts))
    ensures FilledStore(s, b, k, to, weight, ts).pool == s.pool[b := Filled(s.pool[b], k, to, weight, ts)]
    ensures Filled(s.pool[b], k, to, weight, ts).etype == s.pool[b].etype && Filled(s.pool[b], k, to, weight, ts).vertexID == s.pool[b].vertexID
  {
  }

  lemma LocBlanked(pool: seq<Block>, tail: nat, loc: map<Key, Loc>, key: Key, block: Block)
    requires LocOk(pool, tail, loc) && key in loc
    requires var l, old_ := loc[key], pool[loc[key].b];
      && SameHeader(block, old_) && |block.edges| == |old_.edges|
      && (forall i: nat | i < |block.edges| :: Live(block, i) <==> Live(old_, i) && i != l.k)
      && (forall i: nat | i < |block.edges| && i != l.k :: block.edges[i] == old_.edges[i])
    ensures LocOk(pool[loc[key].b := block], tail, loc - {key})
    ensures EdgeMap(pool[loc[key].b := block], loc - {key}) == EdgeMap(pool, loc) - {key}
  {
    var b, k := loc[key].b, loc[key].k;
    var pool', loc' := pool[b := block], loc - {key};
    forall c: nat, l: nat ensures LiveAt(pool', tail, c, l) <==> LiveAt(pool, tail, c, l) && !(c == b && l == k) {}
    forall c: nat, l: nat | LiveAt(pool', tail, c, l) ensures KeyAt(pool', c, l) == KeyAt(pool, c, l) {}
    hide Live;
    forall key' | key' in loc' ensures LiveAt(pool', tail, loc'[key'].b, loc'[key'].k) && KeyAt(pool', loc'[key'].b, loc'[key'].k) == key' {
      assert KeyAt(pool, loc[key'].b, loc[key'].k) == key';
    }
    forall c: nat, l: nat | LiveAt(pool', tail, c, l) ensures KeyAt(pool', c, l) in loc' && loc'[KeyAt(pool', c, l)] == Loc(c, l) {
      assert loc[KeyAt(pool, c, l)] == Loc(c, l);
    }
    forall key' | key' in loc' ensures ValAt(pool', loc'[key']) == ValAt(pool, loc[key']) {
      assert KeyAt(pool, loc[key'].b, loc[key'].k) == key';
    }
  }

  ghost function BlankedStore(s: Store, key: Key): Store
    requires key in s.loc && s.loc[key].b < |s.pool| && s.loc[key].k < |s.pool[s.loc[key].b].edges|
    requires 0 <= key.from < |s.outDegree| && 0 <= key.to < |s.inDegree|
  {
    var l := s.loc[key];
    s.(pool := s.pool[l.b := Blanked(s.pool[l.b], l.k)],
       outDegree := s.outDegree[key.from := s.outDegree[key.from] - 1],
       inDegree := s.inDegree[key.to := s.inDegree[key.to] - 1],
       loc := s.loc - {key})
  }

  lemma BlankedIs(s: Store, key: Key)
    requires key in s.loc && s.loc[key].b < |s.pool| && s.loc[key].k < |s.pool[s.loc[key].b].edges|
    requires 0 <= key.from < |s.outDegree| && 0 <= key.to < |s.inDegree|
    ensures var s', l := BlankedStore(s, key), s.loc[key];
      && s'.pool == s.pool[l.b := Blanked(s.pool[l.b], l.k)] && s'.tail == s.tail && s'.first == s.first
      && s'.outDegree == s.outDegree[key.from := s.outDegree[key.from] - 1] && s'.inDegree == s.inDegree[key.to := s.inDegree[key.to] - 1]
      && s'.eta == s.eta && s'.chains == s.chains && s'.loc == s.loc - {key}
      && Edges(s') == EdgeMap(s'.pool, s'.loc) && Edges(s) == EdgeMap(s.pool, s.loc)
  {
  }

  /** An edge is removed. */
  lemma StoreBlanked(s: Store, nv: nat, ntypes: nat, key: Key)
    requires StoreOk(s, nv, ntypes) && key in s.loc
    ensures s.loc[key].b < |s.pool| && s.loc[key].k < |s.pool[s.loc[key].b].edges|
    ensures 0 <= key.from < |s.outDegree| && 0 <= key.to < |s.inDegree|
    ensures StoreOk(BlankedStore(s, key), nv, ntypes)
    ensures Edges(BlankedStore(s, key)) == Edges(s) - {key}
    ensures RangesOk(s.pool, s.tail) ==> RangesOk(BlankedStore(s, key).pool, s.tail)
  {
    hide *;
    LocFacts(s, nv, ntypes, key);
    StoreElim(s, nv, ntypes);
    var l := s.loc[key];
    var block := Blanked(s.pool[l.b], l.k);
    var loc' := s.loc - {key};
    BlankedOk(s.pool[l.b], l.k, nv, ntypes);
    BlockSize(block, nv, ntypes);
    LinksKept(s.pool, s.tail, s.first, s.chains, s.eta, l.b, block);
    LocBlanked(s.pool, s.tail, s.loc, key, block);
    BlockPut(s.pool, s.tail, nv, ntypes, l.b, block);
    KeyRemoved(s.loc, key);
    CountsPut(s.pool, s.tail, s.loc, loc', l.b, block);
    DegreesPut(s.outDegree, s.inDegree, s.loc, loc', key.from, key.to, -1);
    BlankedIs(s, key);
    StoreIntro(BlankedStore(s, key), nv, ntypes);
    if RangesOk(s.pool, s.tail) {
      RangesAt(s.pool, s.tail, l.b);
      BlankedRanged(s.pool[l.b], l.k);
      RangesPut(s.pool, s.tail, l.b, block);
    }
  }

  lemma BlockSize(block: Block, nv: nat, ntypes: nat)
    requires BlockOk(block, nv, ntypes)
    ensures |block.edges| == EDGEBLOCKSIZE
  {
  }

  // ---------------------------------------------------------------- a block more

  ghost function Last(chain: seq<nat>): nat { if chain == [] then 0 else chain[|chain| - 1] }

  ghost predicate AppendsBlock(pool: seq<Block>, tail: nat, etype: nat, from: nat, prev: nat, pool': seq<Block>) {
    && 0 < tail < |pool| == |pool'| && prev < tail
    && pool'[tail] == NewBlock(etype, from)
    && (forall b | 0 <= b < tail && (b != prev || b == 0) :: pool'[b] == pool[b])
    && (prev != 0 ==> pool'[prev] == pool[prev].(next := tail))
  }

  lemma OtherChain(pool: seq<Block>, tail: nat, head: nat, chain: seq<nat>, v: int, etype: nat, from: nat, prev: nat, pool': seq<Block>)
    requires tail <= |pool| && Chained(pool, tail, head, chain, v) && AppendsBlock(pool, tail, etype, from, prev, pool')
    requires prev == 0 || prev !in chain
    ensures Chained(pool', tail + 1, head, chain, v)
  {
    forall p: nat | p < |chain| ensures pool'[chain[p]] == pool[chain[p]] { assert chain[p] in chain; }
  }

  lemma LongerChain(pool: seq<Block>, tail: nat, head: nat, chain: seq<nat>, etype: nat, from: nat, pool': seq<Block>)
    requires tail <= |pool| && Chained(pool, tail, head, chain, from) && AppendsBlock(pool, tail, etype, from, Last(chain), pool')
    ensures Chained(pool', tail + 1, if chain == [] then tail else head, chain + [tail], from)
  {
    var chain' := chain + [tail];
    forall p: nat | p < |chain'| ensures 0 < chain'[p] < tail + 1 && pool'[chain'[p]].vertexID == from && pool'[chain'[p]].next == At(chain', p + 1) {
      if p < |chain| - 1 { assert chain[p] != Last(chain); }
    }
  }

  lemma LastElsewhere(pool: seq<Block>, tail: nat, first: seq<nat>, chains: seq<seq<nat>>, v: nat, from: nat)
    requires LinksOk(pool, tail, first, chains) && v < |first| && from < |first| && v != from
    ensures Last(chains[from]) == 0 || Last(chains[from]) !in chains[v]
  {
    assert Chained(pool, tail, first[v], chains[v], v) && Chained(pool, tail, first[from], chains[from], from);
  }

  lemma LinksElim(pool: seq<Block>, tail: nat, first: seq<nat>, chains: seq<seq<nat>>, v: nat)
    requires LinksOk(pool, tail, first, chains) && v < |first|
    ensures tail <= |pool| && |first| == |chains| && Chained(pool, tail, first[v], chains[v], v)
  {
  }

  lemma ChainAfter(pool: seq<Block>, tail: nat, first: seq<nat>, chains: seq<seq<nat>>, etype: nat, from: nat, pool': seq<Block>, v: nat)
    requires LinksOk(pool, tail, first, chains) && from < |chains| && AppendsBlock(pool, tail, etype, from, Last(chains[from]), pool')
    requires v < |first|
    ensures |first| == |chains| && tail + 1 <= |pool'|
    ensures Chained(pool', tail + 1, if v == from && chains[from] == [] then tail else first[v],
                    if v == from then chains[from] + [tail] else chains[v], v)
  {
    hide *;
    LinksElim(pool, tail, first, chains, v);
    AppendsSize(pool, tail, etype, from, Last(chains[from]), pool');
    if v == from {
      LongerChain(pool, tail, first[v], chains[v], etype, from, pool');
    } else {
      LastElsewhere(pool, tail, first, chains, v, from);
      OtherChain(pool, tail, first[v], chains[v], v, etype, from, Last(chains[from]), pool');
    }
  }

  lemma MembersAfter(pool: seq<Block>, tail: nat, first: seq<nat>, chains: seq<seq<nat>>, etype: nat, from: nat, pool': seq<Block>, b: nat)
    requires LinksOk(pool, tail, first, chains) && from < |chains| && AppendsBlock(pool, tail, etype, from, Last(chains[from]), pool')
    requires 0 < b < tail + 1
    ensures b < |pool'| && 0 <= pool'[b].vertexID < |chains| && b in chains[from := chains[from] + [tail]][pool'[b].vertexID]
  {
    if b < tail { assert pool'[b].vertexID == pool[b].vertexID && b in chains[pool[b].vertexID]; }
    hide Chained;
  }

  // A block appended to the chain of from.
  lemma LinksAppended(pool: seq<Block>, tail: nat, first: seq<nat>, chains: seq<seq<nat>>, etype: nat, from: nat, pool': seq<Block>)
    requires LinksOk(pool, tail, first, chains) && from < |first| && from < |chains|
    requires AppendsBlock(pool, tail, etype, from, Last(chains[from]), pool')
    ensures LinksOk(pool', tail + 1, if chains[from] == [] then first[from := tail] else first, chains[from := chains[from] + [tail]])
  {
    hide *;
    LinksElim(pool, tail, first, chains, from);
    AppendsSize(pool, tail, etype, from, Last(chains[from]), pool');
    var chains' := chains[from := chains[from] + [tail]];
    var first' := if chains[from] == [] then first[from := tail] else first;
    forall v: nat | v < |first'| ensures Chained(pool', tail + 1, first'[v], chains'[v], v) {
      ChainAfter(pool, tail, first, chains, etype, from, pool', v);
    }
    forall b: nat | 0 < b < tail + 1 ensures 0 <= pool'[b].vertexID < |chains'| && b in chains'[pool'[b].vertexID] {
      MembersAfter(pool, tail, first, chains, etype, from, pool', b);
    }
    LinksIntro(pool', tail + 1, first', chains');
  }

  lemma LinksIntro(pool: seq<Block>, tail: nat, first: seq<nat>, chains: seq<seq<nat>>)
    requires tail <= |pool| && |first| == |chains|
    requires forall v: nat | v < |first| :: Chained(pool, tail, first[v], chains[v], v)
    requires forall b: nat | 0 < b < tail :: 0 <= pool[b].vertexID < |chains| && b in chains[pool[b].vertexID]
    ensures LinksOk(pool, tail, first, chains)
  {
    hide Chained;
  }

  // A block registered under its type.
  lemma EtaAppended(pool: seq<Block>, tail: nat, eta: seq<seq<nat>>, etype: nat, from: nat, prev: nat, pool': seq<Block>)
    requires EtaOk(pool, tail, eta) && etype < |eta| && AppendsBlock(pool, tail, etype, from, prev, pool')
    ensures EtaOk(pool', tail + 1, eta[etype := eta[etype] + [tail]])
  {
    var eta' := eta[etype := eta[etype] + [tail]];
    AppendsSize(pool, tail, etype, from, prev, pool');
    TypesAfter(pool, tail, etype, from, prev, pool');
    hide AppendsBlock;
    forall b | 0 < b < tail + 1 ensures 0 <= pool'[b].etype < |eta'| && b in eta'[pool'[b].etype] {
      if b < tail { assert b in eta[pool[b].etype]; }
    }
  }

  lemma TypesAfter(pool: seq<Block>, tail: nat, etype: nat, from: nat, prev: nat, pool': seq<Block>)
    requires AppendsBlock(pool, tail, etype, from, prev, pool')
    ensures |pool'| == |pool| && tail < |pool| && pool'[tail].etype == etype && forall b | 0 <= b < tail :: pool'[b].etype == pool[b].etype
  {
  }

  lemma BlocksAppended(pool: seq<Block>, tail: nat, nv: nat, ntypes: nat, etype: nat, from: nat, prev: nat, pool': seq<Block>)
    requires BlocksOk(pool, tail, nv, ntypes) && etype < ntypes && from < nv && AppendsBlock(pool, tail, etype, from, prev, pool')
    ensures BlocksOk(pool', tail + 1, nv, ntypes)
  {
    forall b | 0 < b < tail + 1 ensures BlockOk(pool'[b], nv, ntypes) {
      if b == tail {
        assert forall k: nat | k < EDGEBLOCKSIZE :: SlotOk(pool'[b], k, nv);
      } else {
        SameContents(pool[b], pool'[b], nv, ntypes);
      }
    }
  }

  lemma SameContents(x: Block, y: Block, nv: nat, ntypes: nat)
    requires BlockOk(x, nv, ntypes) && y == x.(next := y.next)
    ensures BlockOk(y, nv, ntypes)
  {
    forall k: nat | k < EDGEBLOCKSIZE ensures SlotOk(y, k, nv) { assert SlotOk(x, k, nv); }
  }

  // An empty block holds no edge.
  lemma LocAppended(pool: seq<Block>, tail: nat, loc: map<Key, Loc>, etype: nat, from: nat, prev: nat, pool': seq<Block>)
    requires LocOk(pool, tail, loc) && CountsOk(pool, tail, loc) && AppendsBlock(pool, tail, etype, from, prev, pool')
    ensures LocOk(pool', tail + 1, loc) && CountsOk(pool', tail + 1, loc) && EdgeMap(pool', loc) == EdgeMap(pool, loc)
  {
    forall b: nat, k: nat ensures LiveAt(pool', tail + 1, b, k) <==> LiveAt(pool, tail, b, k) {}
    forall b: nat, k: nat | LiveAt(pool, tail, b, k) ensures KeyAt(pool', b, k) == KeyAt(pool, b, k) {}
    assert InBlock(loc, tail) == {};
    forall key | key in loc ensures ValAt(pool', loc[key]) == ValAt(pool, loc[key]) {}
  }

  ghost function AppendedStore(s: Store, etype: nat, from: nat, pool': seq<Block>): Store
    requires from < |s.chains| && from < |s.first| && etype < |s.eta|
  {
    s.(pool := pool', tail := s.tail + 1, first := if s.chains[from] == [] then s.first[from := s.tail] else s.first,
       eta := s.eta[etype := s.eta[etype] + [s.tail]], chains := s.chains[from := s.chains[from] + [s.tail]])
  }

  lemma AppendedIs(s: Store, etype: nat, from: nat, pool': seq<Block>)
    requires from < |s.chains| && from < |s.first| && etype < |s.eta|
    ensures var s' := AppendedStore(s, etype, from, pool');
      && s'.pool == pool' && s'.tail == s.tail + 1 && s'.first == (if s.chains[from] == [] then s.first[from := s.tail] else s.first)
      && s'.outDegree == s.outDegree && s'.inDegree == s.inDegree && s'.loc == s.loc
      && s'.eta == s.eta[etype := s.eta[etype] + [s.tail]] && s'.chains == s.chains[from := s.chains[from] + [s.tail]]
      && Edges(s') == EdgeMap(s'.pool, s'.loc) && Edges(s) == EdgeMap(s.pool, s.loc)
  {
  }

  lemma AppendsSize(pool: seq<Block>, tail: nat, etype: nat, from: nat, prev: nat, pool': seq<Block>)
    requires AppendsBlock(pool, tail, etype, from, prev, pool')
    ensures 0 < tail < |pool| == |pool'|
  {
  }

  lemma RangesAppended(pool: seq<Block>, tail: nat, etype: nat, from: nat, prev: nat, pool': seq<Block>)
    requires AppendsBlock(pool, tail, etype, from, prev, pool')
    ensures RangesOk(pool', tail + 1) <==> RangesOk(pool, tail)
  {
    forall b | 0 < b < tail ensures Ranged(pool'[b]) <==> Ranged(pool[b]) {
      forall k: nat ensures Live(pool'[b], k) <==> Live(pool[b], k) {}
    }
    assert Ranged(pool'[tail]);
    hide Ranged;
  }

  /** An empty block may join a chain: no edge comes, goes or moves. */
  lemma StoreAppended(s: Store, nv: nat, ntypes: nat, etype: nat, from: nat, pool': seq<Block>)
    requires StoreOk(s, nv, ntypes) && etype < ntypes && from < nv
    requires from < |s.chains| && AppendsBlock(s.pool, s.tail, etype, from, Last(s.chains[from]), pool')
    ensures |s.chains| == |s.first| == nv && |s.eta| == ntypes
    ensures StoreOk(AppendedStore(s, etype, from, pool'), nv, ntypes)
    ensures Edges(AppendedStore(s, etype, from, pool')) == Edges(s)
    ensures RangesOk(pool', s.tail + 1) <==> RangesOk(s.pool, s.tail)
  {
    hide *;
    StoreElim(s, nv, ntypes);
    var prev := Last(s.chains[from]);
    LinksAppended(s.pool, s.tail, s.first, s.chains, etype, from, pool');
    EtaAppended(s.pool, s.tail, s.eta, etype, from, prev, pool');
    BlocksAppended(s.pool, s.tail, nv, ntypes, etype, from, prev, pool');
    LocAppended(s.pool, s.tail, s.loc, etype, from, prev, pool');
    AppendsSize(s.pool, s.tail, etype, from, prev, pool');
    AppendedIs(s, etype, from, pool');
    StoreIntro(AppendedStore(s, etype, from, pool'), nv, ntypes);
    RangesAppended(s.pool, s.tail, etype, from, prev, pool');
  }
}
