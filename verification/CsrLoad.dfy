/**
 stinger_set_initial_edges: blocks for all vertices at once, filled from CSR arrays, chained in front
 of what a vertex has, and registered under their type.
 */
module CsrLoad {
  import opened EdgeBlocks
  import opened EdgeStore
  import opened CsrBuild
  import opened CsrRows
  import opened CsrBlocks

  // The arrays to load, where each vertex's blocks begin, and the pool index of the first one.
  datatype Plan = Plan(off: seq<int>, n: nat, ents: seq<Slot>, etype: nat, blkoff: seq<int>, start: nat)

  ghost predicate PlanOk(pl: Plan, nv: nat, ntypes: nat) {
    && BlockOffsets(pl.off, pl.n, |pl.ents|, pl.blkoff) && RowsOk(pl.off, pl.ents, pl.n, nv)
    && pl.n <= nv && pl.etype < ntypes && 0 < pl.start
  }

  // v's blocks are the k with blkoff[v] <= k < blkoff[v + 1].
  predicate Blocks(pl: Plan, v: nat, k: nat) {
    v + 1 < |pl.blkoff| && v + 1 < |pl.off| && pl.blkoff[v] <= k < pl.blkoff[v + 1]
  }

  // The entries before block k of v.
  function Before(pl: Plan, v: nat, k: nat): int
    requires v + 1 < |pl.off| && v + 1 < |pl.blkoff|
  {
    if k < pl.blkoff[v + 1] then ChunkStart(pl.off, pl.blkoff, v, k) else pl.off[v + 1]
  }

  predicate Vertex(pl: Plan, v: nat) {
    && v < pl.n < |pl.off| && |pl.blkoff| == pl.n + 1 && 0 <= pl.off[v] <= pl.off[v + 1] <= |pl.ents|
    && 0 <= pl.blkoff[v] <= pl.blkoff[v + 1] <= pl.blkoff[pl.n]
  }

  lemma VertexFacts(pl: Plan, nv: nat, ntypes: nat, v: nat)
    requires PlanOk(pl, nv, ntypes) && v < pl.n
    ensures Vertex(pl, v) && v < nv && pl.etype < ntypes && 0 < pl.start && Rows(pl.off, pl.n, |pl.ents|)
    ensures RowFits(pl.off, v, |pl.ents|) && RowOk(Row(pl.off, pl.ents, v), v, nv)
    ensures pl.blkoff[v] == pl.blkoff[v + 1] <==> pl.off[v] == pl.off[v + 1]
    ensures Before(pl, v, pl.blkoff[v]) == pl.off[v] && Before(pl, v, pl.blkoff[v + 1]) == pl.off[v + 1]
    ensures WithRows(map[], pl.etype, pl.off, pl.ents, 0) == map[]
  {
    BlockOffsetsAt(pl.off, pl.n, |pl.ents|, pl.blkoff, v);
    hide BlkStart, RowOk, WithRows;
  }

  function Chunk(pl: Plan, v: nat, k: nat): seq<Slot>
    requires v + 1 < |pl.off| && v + 1 < |pl.blkoff| && 0 <= Before(pl, v, k) <= Before(pl, v, k + 1) <= |pl.ents|
  {
    pl.ents[Before(pl, v, k)..Before(pl, v, k + 1)]
  }

  lemma ChunkFacts(pl: Plan, nv: nat, ntypes: nat, v: nat, k: nat)
    requires PlanOk(pl, nv, ntypes) && v < pl.n && Vertex(pl, v) && Blocks(pl, v, k)
    ensures pl.off[v] <= Before(pl, v, k) < Before(pl, v, k + 1) <= pl.off[v + 1] && Before(pl, v, k + 1) - Before(pl, v, k) <= EDGEBLOCKSIZE
    ensures Before(pl, v, k + 1) == if Before(pl, v, k) + EDGEBLOCKSIZE >= pl.off[v + 1] then pl.off[v + 1] else Before(pl, v, k) + EDGEBLOCKSIZE
    ensures Before(pl, v, k) == pl.off[v] + EDGEBLOCKSIZE * (k - pl.blkoff[v])
  {
    ChunkFits(pl.off, pl.n, |pl.ents|, pl.blkoff, v, k);
  }

  // ---------------------------------------------------------------- blocks and links

  lemma ChunkSame(p: seq<Block>, b: nat, es: seq<Slot>)
    requires b < |p| && |es| <= |p[b].edges| && es != []
    ensures p[b := Loaded(p[b], es)] == p[b := Chunked(p[b], es)]
  {
  }

  // Setting a block's link and loading its entries may be done in either order.
  lemma LinkLater(pool: seq<Block>, b: nat, last: nat, head: nat, es: seq<Slot>)
    requires b < |pool| && last < |pool| && |es| <= |pool[b].edges|
    ensures var linked := pool[last := pool[last].(next := head)];
      var pool' := pool[b := Loaded(pool[b], es)];
      |es| <= |linked[b].edges| && pool'[last := pool'[last].(next := head)] == linked[b := Loaded(linked[b], es)]
  {
    hide Least, Most;
  }

  // ---------------------------------------------------------------- what the vertices before v have become

  // m0 is the map before loading; it has no edge of this type.
  ghost predicate Stage(pl: Plan, s: Store, m0: map<Key, Val>, eta0: seq<seq<nat>>, v: nat, nv: nat, ntypes: nat) {
    && PlanOk(pl, nv, ntypes) && StoreOk(s, nv, ntypes) && v <= pl.n && s.tail == pl.start + pl.blkoff[v]
    && Edges(s) == WithRows(m0, pl.etype, pl.off, pl.ents, v) && (forall key | key in m0 :: key.etype != pl.etype)
    && pl.etype < |eta0| && pl.blkoff[v] >= 0 && s.eta == eta0[pl.etype := eta0[pl.etype] + Range(pl.start, pl.blkoff[v])]
  }

  // v's blocks are chained, and those before k are filled.
  ghost predicate Inside(pl: Plan, s: Store, m0: map<Key, Val>, eta0: seq<seq<nat>>, v: nat, k: nat, nv: nat, ntypes: nat, base: seq<Block>) {
    && PlanOk(pl, nv, ntypes) && StoreOk(s, nv, ntypes) && v < pl.n && Vertex(pl, v) && pl.blkoff[v] <= k <= pl.blkoff[v + 1]
    && s.tail == pl.start + pl.blkoff[v + 1] && (forall key | key in m0 :: key.etype != pl.etype)
    && pl.off[v] <= Before(pl, v, k) <= pl.off[v + 1]
    && Edges(s) == WithEntries(WithRows(m0, pl.etype, pl.off, pl.ents, v), pl.etype, v, pl.ents[pl.off[v]..Before(pl, v, k)])
    && pl.etype < |eta0| && s.eta == eta0[pl.etype := eta0[pl.etype] + Range(pl.start, pl.blkoff[v + 1])]
    && |base| == |s.pool| >= pl.start + pl.blkoff[v + 1] && s.pool[pl.start + k..] == base[pl.start + k..]
    && forall l: nat | Blocks(pl, v, l) :: Empty(base[pl.start + l], pl.etype, v)
  }

  predicate Empty(block: Block, etype: int, v: int) {
    block.etype == etype && block.vertexID == v && block.high == 0 && block.numEdges == 0 && |block.edges| == EDGEBLOCKSIZE
  }

  // The k-th of all new blocks, when it is v's.
  function EmptyBlock(pl: Plan, v: nat, k: nat): Block
    requires v + 1 < |pl.blkoff|
  {
    NewBlock(pl.etype, v).(next := if k + 1 < pl.blkoff[v + 1] then pl.start + k + 1 else 0)
  }

  // The blocks of v and of the vertices after it, as they were allocated.
  ghost predicate Allocated(pl: Plan, pool: seq<Block>, v: nat) {
    && |pl.blkoff| == pl.n + 1
    && forall u: nat, k: nat | v <= u < pl.n && Blocks(pl, u, k) :: pl.start + k < |pool| && pool[pl.start + k] == EmptyBlock(pl, u, k)
  }

  // The pool with the last block of v linked to what v had.
  function Linked(pl: Plan, pool: seq<Block>, v: nat, head: nat): seq<Block>
    requires Vertex(pl, v) && pl.blkoff[v] < pl.blkoff[v + 1] && pl.start + pl.blkoff[v + 1] <= |pool|
  {
    var last := pl.start + pl.blkoff[v + 1] - 1;
    pool[last := pool[last].(next := head)]
  }

  lemma LinkedPrepends(pl: Plan, pool: seq<Block>, v: nat, head: nat)
    requires Vertex(pl, v) && pl.blkoff[v] < pl.blkoff[v + 1] && pl.start + pl.blkoff[v + 1] <= |pool| && Allocated(pl, pool, v) && 0 < pl.start
    ensures PrependsBlocks(pool, pl.start + pl.blkoff[v], pl.etype, v, head, pl.blkoff[v + 1] - pl.blkoff[v], Linked(pl, pool, v, head))
    ensures forall l: nat | Blocks(pl, v, l) :: Empty(Linked(pl, pool, v, head)[pl.start + l], pl.etype, v)
  {
    var tail, m, pool' := pl.start + pl.blkoff[v], pl.blkoff[v + 1] - pl.blkoff[v], Linked(pl, pool, v, head);
    forall i: nat | i < m ensures pool'[tail + i] == GroupBlock(tail, pl.etype, v, head, m, i) {
      var k: nat := pl.blkoff[v] + i;
      assert Blocks(pl, v, k) && pool[pl.start + k] == EmptyBlock(pl, v, k);
    }
    forall l: nat | Blocks(pl, v, l) ensures Empty(pool'[pl.start + l], pl.etype, v) {
      assert pool[pl.start + l] == EmptyBlock(pl, v, l);
    }
    assert pool'[..tail] == pool[..tail];
  }

  lemma RangeJoin(start: nat, a: nat, b: nat)
    ensures Range(start, a) + Range(start + a, b) == Range(start, a + b)
  {
  }

  lemma StageFacts(pl: Plan, s: Store, m0: map<Key, Val>, eta0: seq<seq<nat>>, v: nat, nv: nat, ntypes: nat)
    requires Stage(pl, s, m0, eta0, v, nv, ntypes)
    ensures PlanOk(pl, nv, ntypes) && StoreOk(s, nv, ntypes) && v <= pl.n < |pl.off| && |pl.blkoff| == pl.n + 1 && s.tail == pl.start + pl.blkoff[v]
    ensures Rows(pl.off, pl.n, |pl.ents|) && Edges(s) == WithRows(m0, pl.etype, pl.off, pl.ents, v) && (forall key | key in m0 :: key.etype != pl.etype)
    ensures pl.etype < |eta0| && pl.blkoff[v] >= 0 && s.eta == eta0[pl.etype := eta0[pl.etype] + Range(pl.start, pl.blkoff[v])]
  {
    hide StoreOk, RowOk, BlkStart, WithRows, Edges, Range;
  }

  lemma StageIntro(pl: Plan, s: Store, m0: map<Key, Val>, eta0: seq<seq<nat>>, v: nat, nv: nat, ntypes: nat)
    requires PlanOk(pl, nv, ntypes) && StoreOk(s, nv, ntypes) && v <= pl.n < |pl.off| && |pl.blkoff| == pl.n + 1 && s.tail == pl.start + pl.blkoff[v]
    requires Rows(pl.off, pl.n, |pl.ents|) && Edges(s) == WithRows(m0, pl.etype, pl.off, pl.ents, v) && (forall key | key in m0 :: key.etype != pl.etype)
    requires pl.etype < |eta0| && pl.blkoff[v] >= 0 && s.eta == eta0[pl.etype := eta0[pl.etype] + Range(pl.start, pl.blkoff[v])]
    ensures Stage(pl, s, m0, eta0, v, nv, ntypes)
  {
    hide StoreOk, RowOk, BlkStart, WithRows, Edges, Range, PlanOk;
  }

  lemma InsideFacts(pl: Plan, s: Store, m0: map<Key, Val>, eta0: seq<seq<nat>>, v: nat, k: nat, nv: nat, ntypes: nat, base: seq<Block>)
    requires Inside(pl, s, m0, eta0, v, k, nv, ntypes, base)
    ensures PlanOk(pl, nv, ntypes) && StoreOk(s, nv, ntypes) && v < pl.n && Vertex(pl, v) && pl.blkoff[v] <= k <= pl.blkoff[v + 1]
    ensures s.tail == pl.start + pl.blkoff[v + 1] && (forall key | key in m0 :: key.etype != pl.etype)
    ensures Rows(pl.off, pl.n, |pl.ents|) && pl.off[v] <= Before(pl, v, k) <= pl.off[v + 1]
    ensures Edges(s) == WithEntries(WithRows(m0, pl.etype, pl.off, pl.ents, v), pl.etype, v, pl.ents[pl.off[v]..Before(pl, v, k)])
    ensures pl.etype < |eta0| && s.eta == eta0[pl.etype := eta0[pl.etype] + Range(pl.start, pl.blkoff[v + 1])]
    ensures |base| == |s.pool| >= pl.start + pl.blkoff[v + 1] && s.pool[pl.start + k..] == base[pl.start + k..]
    ensures forall l: nat | Blocks(pl, v, l) :: Empty(base[pl.start + l], pl.etype, v)
  {
    hide StoreOk, RowOk, BlkStart, WithRows, Edges, Range, WithEntries;
  }

  lemma InsideIntro(pl: Plan, s: Store, m0: map<Key, Val>, eta0: seq<seq<nat>>, v: nat, k: nat, nv: nat, ntypes: nat, base: seq<Block>)
    requires PlanOk(pl, nv, ntypes) && StoreOk(s, nv, ntypes) && v < pl.n && Vertex(pl, v) && pl.blkoff[v] <= k <= pl.blkoff[v + 1]
    requires s.tail == pl.start + pl.blkoff[v + 1] && (forall key | key in m0 :: key.etype != pl.etype)
    requires Rows(pl.off, pl.n, |pl.ents|) && pl.off[v] <= Before(pl, v, k) <= pl.off[v + 1]
    requires Edges(s) == WithEntries(WithRows(m0, pl.etype, pl.off, pl.ents, v), pl.etype, v, pl.ents[pl.off[v]..Before(pl, v, k)])
    requires pl.etype < |eta0| && s.eta == eta0[pl.etype := eta0[pl.etype] + Range(pl.start, pl.blkoff[v + 1])]
    requires |base| == |s.pool| >= pl.start + pl.blkoff[v + 1] && s.pool[pl.start + k..] == base[pl.start + k..]
    requires forall l: nat | Blocks(pl, v, l) :: Empty(base[pl.start + l], pl.etype, v)
    ensures Inside(pl, s, m0, eta0, v, k, nv, ntypes, base)
  {
    hide StoreOk, RowOk, BlkStart, WithRows, Edges, Range, WithEntries, PlanOk;
  }

  // v's empty blocks join its chain.
  lemma OpenVertex(pl: Plan, s: Store, m0: map<Key, Val>, eta0: seq<seq<nat>>, v: nat, nv: nat, ntypes: nat) returns (s': Store, base: seq<Block>)
    requires Stage(pl, s, m0, eta0, v, nv, ntypes) && v < pl.n && Vertex(pl, v) && pl.blkoff[v] < pl.blkoff[v + 1] && Allocated(pl, s.pool, v)
    requires pl.start + pl.blkoff[v + 1] <= |s.pool|
    ensures v < |s.first| == |s.chains| && base == Linked(pl, s.pool, v, s.first[v])
    ensures Inside(pl, s', m0, eta0, v, pl.blkoff[v], nv, ntypes, base)
    ensures s'.pool == base && s'.first == s.first[v := pl.start + pl.blkoff[v]] && s'.outDegree == s.outDegree && s'.inDegree == s.inDegree
  {
    hide *;
    StageFacts(pl, s, m0, eta0, v, nv, ntypes);
    VertexFacts(pl, nv, ntypes, v);
    VertexIs(pl, v);
    StoreElim(s, nv, ntypes);
    base := Linked(pl, s.pool, v, s.first[v]);
    LinkedPrepends(pl, s.pool, v, s.first[v]);
    var m := pl.blkoff[v + 1] - pl.blkoff[v];
    StoreGrouped(s, nv, ntypes, pl.etype, v, m, base);
    s' := GroupedStore(s, pl.etype, v, m, base);
    GroupedIs(s, pl.etype, v, m, base);
    RangeJoin(pl.start, pl.blkoff[v], m);
    RowsLess(pl.off, pl.n, |pl.ents|, v);
    WithNone(WithRows(m0, pl.etype, pl.off, pl.ents, v), pl.etype, v);
    assert pl.ents[pl.off[v]..pl.off[v]] == [];
    assert eta0[pl.etype] + Range(pl.start, pl.blkoff[v]) + Range(s.tail, m) == eta0[pl.etype] + (Range(pl.start, pl.blkoff[v]) + Range(s.tail, m));
    LinkedSize(pl, s.pool, v, s.first[v]);
    InsideIntro(pl, s', m0, eta0, v, pl.blkoff[v], nv, ntypes, base);
  }

  lemma LinkedSize(pl: Plan, pool: seq<Block>, v: nat, head: nat)
    requires Vertex(pl, v) && pl.blkoff[v] < pl.blkoff[v + 1] && pl.start + pl.blkoff[v + 1] <= |pool|
    ensures |Linked(pl, pool, v, head)| == |pool|
  {
  }

  lemma ChunkIsSlice(pl: Plan, v: nat, k: nat)
    requires v + 1 < |pl.off| && v + 1 < |pl.blkoff| && 0 <= Before(pl, v, k) <= Before(pl, v, k + 1) <= |pl.ents|
    ensures Chunk(pl, v, k) == pl.ents[Before(pl, v, k)..Before(pl, v, k + 1)]
  {
  }

  lemma RowsLess(off: seq<int>, n: nat, size: nat, v: nat)
    requires Rows(off, n, size) && v <= n
    ensures Rows(off, v, size)
  {
  }

  lemma VertexIs(pl: Plan, v: nat)
    requires Vertex(pl, v)
    ensures v < pl.n < |pl.off| && |pl.blkoff| == pl.n + 1 && 0 <= pl.off[v] <= pl.off[v + 1] <= |pl.ents|
    ensures 0 <= pl.blkoff[v] <= pl.blkoff[v + 1] <= pl.blkoff[pl.n]
  {
  }

  // The entries of block k are new to the map.
  lemma ChunkReady(pl: Plan, s: Store, m0: map<Key, Val>, eta0: seq<seq<nat>>, v: nat, k: nat, nv: nat, ntypes: nat, base: seq<Block>)
    requires Inside(pl, s, m0, eta0, v, k, nv, ntypes, base) && Vertex(pl, v) && k < pl.blkoff[v + 1]
    ensures 0 <= pl.off[v] <= Before(pl, v, k) < Before(pl, v, k + 1) <= |pl.ents|
    ensures Ready(s, pl.start + k, Chunk(pl, v, k), nv, ntypes)
    ensures s.pool[pl.start + k].etype == pl.etype && s.pool[pl.start + k].vertexID == v
  {
    hide *;
    InsideFacts(pl, s, m0, eta0, v, k, nv, ntypes, base);
    VertexIs(pl, v);
    BlocksIs(pl, v, k);
    ChunkFacts(pl, nv, ntypes, v, k);
    VertexFacts(pl, nv, ntypes, v);
    assert s.pool[pl.start + k..][0] == s.pool[pl.start + k] && base[pl.start + k..][0] == base[pl.start + k];
    EmptyIs(base[pl.start + k], pl.etype, v);
    ChunkIsSlice(pl, v, k);
    ChunkNew(pl, m0, v, Before(pl, v, k), Before(pl, v, k + 1), nv);
    ReadyIntro(s, pl.start + k, Chunk(pl, v, k), nv, ntypes);
  }

  lemma BlocksIs(pl: Plan, v: nat, k: nat)
    ensures Blocks(pl, v, k) <==> v + 1 < |pl.blkoff| && v + 1 < |pl.off| && pl.blkoff[v] <= k < pl.blkoff[v + 1]
  {
  }

  lemma EmptyIs(block: Block, etype: int, v: int)
    requires Empty(block, etype, v)
    ensures block.etype == etype && block.vertexID == v && block.high == 0 && block.numEdges == 0 && |block.edges| == EDGEBLOCKSIZE
  {
  }

  lemma ReadyIntro(s: Store, b: nat, es: seq<Slot>, nv: nat, ntypes: nat)
    requires StoreOk(s, nv, ntypes) && 0 < b < s.tail && b < |s.pool| && s.pool[b].high == 0 && s.pool[b].numEdges == 0 && |es| <= EDGEBLOCKSIZE
    requires forall q | 0 <= q < |es| :: EntryFits(es[q], s.pool[b].vertexID, nv)
    requires NewKeys(Edges(s), s.pool[b].etype, s.pool[b].vertexID, es)
    ensures Ready(s, b, es, nv, ntypes)
  {
    hide StoreOk, EntryFits, NewKeys, Edges;
  }

  // Entries from a to b of v's row are admissible, and not in the map with what came before.
  lemma ChunkNew(pl: Plan, m0: map<Key, Val>, v: nat, a: int, b: int, nv: nat)
    requires Rows(pl.off, pl.n, |pl.ents|) && Vertex(pl, v) && pl.off[v] <= a <= b <= pl.off[v + 1] && (forall key | key in m0 :: key.etype != pl.etype)
    requires RowFits(pl.off, v, |pl.ents|) && RowOk(Row(pl.off, pl.ents, v), v, nv)
    ensures forall q | 0 <= q < b - a :: EntryFits(pl.ents[a..b][q], v, nv)
    ensures NewKeys(WithEntries(WithRows(m0, pl.etype, pl.off, pl.ents, v), pl.etype, v, pl.ents[pl.off[v]..a]), pl.etype, v, pl.ents[a..b])
  {
    var row, es := Row(pl.off, pl.ents, v), pl.ents[a..b];
    var m := WithRows(m0, pl.etype, pl.off, pl.ents, v);
    forall q | 0 <= q < b - a ensures es[q] == row[a - pl.off[v] + q] {}
    hide EntryFits, WithEntries, WithRows;
    forall q | 0 <= q < |es| ensures Key(pl.etype, v, es[q].neighbor) !in WithEntries(m, pl.etype, v, pl.ents[pl.off[v]..a]) {
      var key := Key(pl.etype, v, es[q].neighbor);
      WithEntriesIs(m, pl.etype, v, pl.ents[pl.off[v]..a], key);
      WithRowsIs(m0, pl.etype, pl.off, pl.ents, v, key);
      assert forall r | 0 <= r < a - pl.off[v] :: pl.ents[pl.off[v]..a][r] == row[r];
    }
  }

  // Block k is filled.
  lemma FillNext(pl: Plan, s: Store, m0: map<Key, Val>, eta0: seq<seq<nat>>, v: nat, k: nat, nv: nat, ntypes: nat, base: seq<Block>) returns (s': Store)
    requires Inside(pl, s, m0, eta0, v, k, nv, ntypes, base) && Vertex(pl, v) && k < pl.blkoff[v + 1]
    ensures 0 <= pl.off[v] <= Before(pl, v, k) < Before(pl, v, k + 1) <= |pl.ents|
    ensures var es := Chunk(pl, v, k);
      && |es| == Before(pl, v, k + 1) - Before(pl, v, k) && v < |s.outDegree| && pl.start + k < |s.pool| && |es| <= |s.pool[pl.start + k].edges|
      && s'.pool == s.pool[pl.start + k := Chunked(s.pool[pl.start + k], es)] && s'.first == s.first
      && s'.outDegree == s.outDegree[v := s.outDegree[v] + |es|] && s'.inDegree == Bumped(s.inDegree, es)
    ensures Inside(pl, s', m0, eta0, v, k + 1, nv, ntypes, base)
  {
    hide *;
    ChunkReady(pl, s, m0, eta0, v, k, nv, ntypes, base);
    InsideFacts(pl, s, m0, eta0, v, k, nv, ntypes, base);
    VertexIs(pl, v);
    BlocksIs(pl, v, k);
    ChunkFacts(pl, nv, ntypes, v, k);
    var es := Chunk(pl, v, k);
    ChunkIsSlice(pl, v, k);
    ReadyFacts(s, pl.start + k, es, nv, ntypes);
    s' := StoreChunk(s, pl.start + k, es, nv, ntypes);
    ChunkIs(s, pl.start + k, es, s'.loc);
    RowsLess(pl.off, pl.n, |pl.ents|, v);
    WithBoth(WithRows(m0, pl.etype, pl.off, pl.ents, v), pl.etype, v, pl.ents[pl.off[v]..Before(pl, v, k)], es);
    assert pl.ents[pl.off[v]..Before(pl, v, k)] + es == pl.ents[pl.off[v]..Before(pl, v, k + 1)];
    var b := pl.start + k;
    assert s.pool[b := Chunked(s.pool[b], es)][b + 1..] == s.pool[b..][1..] == base[b..][1..] == base[b + 1..];
    InsideIntro(pl, s', m0, eta0, v, k + 1, nv, ntypes, base);
  }

  // All of v's blocks are filled.
  lemma CloseVertex(pl: Plan, s: Store, m0: map<Key, Val>, eta0: seq<seq<nat>>, v: nat, nv: nat, ntypes: nat, base: seq<Block>)
    requires v + 1 < |pl.blkoff| && pl.blkoff[v + 1] >= 0 && Inside(pl, s, m0, eta0, v, pl.blkoff[v + 1], nv, ntypes, base)
    ensures Stage(pl, s, m0, eta0, v + 1, nv, ntypes)
  {
    hide *;
    InsideFacts(pl, s, m0, eta0, v, pl.blkoff[v + 1], nv, ntypes, base);
    VertexFacts(pl, nv, ntypes, v);
    VertexIs(pl, v);
    WithRowsNext(m0, pl.etype, pl.off, pl.ents, pl.n, v);
    StageIntro(pl, s, m0, eta0, v + 1, nv, ntypes);
  }

  lemma WithRowsNext(m0: map<Key, Val>, etype: int, off: seq<int>, ents: seq<Slot>, n: nat, v: nat)
    requires Rows(off, n, |ents|) && v < n
    ensures v + 1 < |off| && 0 <= off[v] <= off[v + 1] <= |ents|
    ensures WithRows(m0, etype, off, ents, v + 1) == WithEntries(WithRows(m0, etype, off, ents, v), etype, v, ents[off[v]..off[v + 1]])
  {
    assert RowFits(off, v, |ents|);
  }

  // A vertex without edges.
  lemma SkipVertex(pl: Plan, s: Store, m0: map<Key, Val>, eta0: seq<seq<nat>>, v: nat, nv: nat, ntypes: nat)
    requires Stage(pl, s, m0, eta0, v, nv, ntypes) && v < pl.n && Vertex(pl, v) && pl.blkoff[v] == pl.blkoff[v + 1]
    ensures Stage(pl, s, m0, eta0, v + 1, nv, ntypes)
  {
    hide *;
    StageFacts(pl, s, m0, eta0, v, nv, ntypes);
    VertexFacts(pl, nv, ntypes, v);
    VertexIs(pl, v);
    WithRowsNext(m0, pl.etype, pl.off, pl.ents, pl.n, v);
    RowsLess(pl.off, pl.n, |pl.ents|, v);
    WithNone(WithRows(m0, pl.etype, pl.off, pl.ents, v), pl.etype, v);
    assert pl.ents[pl.off[v]..pl.off[v + 1]] == [];
    StageIntro(pl, s, m0, eta0, v + 1, nv, ntypes);
  }

  // ---------------------------------------------------------------- filling the blocks in place

  // The block holds exactly these entries, with the stamps the loader computes.
  predicate Holds(block: Block, es: seq<Slot>) {
    && |es| <= |block.edges| && block.high == |es| == block.numEdges && block.edges[..|es|] == es
    && block.smallStamp == Least(es) && block.largeStamp == Most(es)
  }

  lemma LoadedHolds(block: Block, es: seq<Slot>)
    requires |es| <= |block.edges|
    ensures Holds(Loaded(block, es), es) && |Loaded(block, es).edges| == |block.edges|
  {
    hide Least, Most;
  }

  lemma LoadedParts(block: Block, es: seq<Slot>, edges: seq<Slot>)
    requires |es| <= |block.edges| == |edges| && edges[..|es|] == es && edges[|es|..] == block.edges[|es|..]
    ensures Loaded(block, es) == block.(edges := edges, smallStamp := Least(es), largeStamp := Most(es), numEdges := |es|, high := |es|)
  {
    assert edges == edges[..|es|] + edges[|es|..];
    hide Least, Most;
  }

  lemma StampsStart()
    ensures Least([]) == INT64_MAX && Most([]) == 0
  {
  }

  lemma StampsNext(es: seq<Slot>, i: nat)
    requires i < |es|
    ensures Least(es[..i + 1]) == (if es[i].timeFirst < Least(es[..i]) then es[i].timeFirst else Least(es[..i]))
    ensures Most(es[..i + 1]) == (if es[i].timeRecent > Most(es[..i]) then es[i].timeRecent else Most(es[..i]))
  {
    assert es[..i + 1][..i] == es[..i];
  }

  lemma BumpedNext(degree: seq<int>, es: seq<Slot>, i: nat)
    requires i < |es| && 0 <= es[i].neighbor < |degree|
    ensures var d, to := Bumped(degree, es[..i]), es[i].neighbor;
      to < |d| && Bumped(degree, es[..i + 1]) == d[to := d[to] + 1]
  {
    hide Bumped;
    BumpedLast(degree, es[..i], es[i]);
    assert es[..i + 1] == es[..i] + [es[i]];
  }

  lemma BumpedLast(degree: seq<int>, es: seq<Slot>, e: Slot)
    requires 0 <= e.neighbor < |degree|
    ensures var d := Bumped(degree, es); Bumped(degree, es + [e]) == d[e.neighbor := d[e.neighbor] + 1]
  {
    assert (es + [e])[..|es + [e]| - 1] == es;
  }

  // The entries are copied and counted.
  method CopyChunk(pool: array<Block>, inDegree: array<int>, b: nat, ents: seq<Slot>, voff: nat, nToCopy: nat, ghost es: seq<Slot>)
    requires b < pool.Length && voff + nToCopy <= |ents| && es == ents[voff..voff + nToCopy] && nToCopy <= |pool[b].edges|
    requires forall q | 0 <= q < nToCopy :: 0 <= es[q].neighbor < inDegree.Length
    modifies pool, inDegree
    ensures pool[..] == old(pool[..])[b := old(pool[b]).(edges := pool[b].edges)] && |pool[b].edges| == old(|pool[b].edges|)
    ensures pool[b].edges[..nToCopy] == es && pool[b].edges[nToCopy..] == old(pool[b]).edges[nToCopy..]
    ensures inDegree[..] == Bumped(old(inDegree[..]), es)
  {
    hide *;
    ghost var pool0, block, degree0 := pool[..], pool[b], inDegree[..];
    assert es[..0] == [];
    BumpedNone(degree0);
    assert pool0 == pool0[b := block.(edges := block.edges)];
    var i := 0;
    while i < nToCopy
      invariant 0 <= i <= nToCopy && |pool[b].edges| == |block.edges| && pool[..] == pool0[b := block.(edges := pool[b].edges)]
      invariant pool[b].edges[..i] == es[..i] && pool[b].edges[i..] == block.edges[i..]
      invariant inDegree[..] == Bumped(degree0, es[..i])
    {
      assert es[i] == ents[voff + i];
      BumpedNext(degree0, es, i);
      var to := ents[voff + i].neighbor;
      inDegree[to] := inDegree[to] + 1;
      ghost var edges := pool[b].edges;
      pool[b] := pool[b].(edges := pool[b].edges[i := ents[voff + i]]);
      SlotCopied(edges, es, block.edges, i);
      i := i + 1;
    }
    assert es[..nToCopy] == es;
  }

  lemma SlotCopied(edges: seq<Slot>, es: seq<Slot>, edges0: seq<Slot>, i: nat)
    requires i < |es| <= |edges| == |edges0| && edges[..i] == es[..i] && edges[i..] == edges0[i..]
    ensures edges[i := es[i]][..i + 1] == es[..i + 1] && edges[i := es[i]][i + 1..] == edges0[i + 1..]
  {
    assert es[..i + 1] == es[..i] + [es[i]];
    assert edges[i := es[i]][i + 1..] == edges[i..][1..] && edges0[i..][1..] == edges0[i + 1..];
  }

  // The stamp range of the copied entries.
  method ChunkStamps(edges: seq<Slot>, nToCopy: nat) returns (tslb: int, tsub: int)
    requires nToCopy <= |edges|
    ensures tslb == Least(edges[..nToCopy]) && tsub == Most(edges[..nToCopy])
  {
    hide *;
    ghost var es := edges[..nToCopy];
    StampsStart();
    tslb, tsub := INT64_MAX, 0;
    var i := 0;
    while i < nToCopy
      invariant 0 <= i <= nToCopy && tslb == Least(es[..i]) && tsub == Most(es[..i])
    {
      StampsNext(es, i);
      if edges[i].timeFirst < tslb { tslb := edges[i].timeFirst; }
      if edges[i].timeRecent > tsub { tsub := edges[i].timeRecent; }
      i := i + 1;
    }
    assert es[..nToCopy] == es;
  }

  lemma BumpedNone(degree: seq<int>)
    ensures Bumped(degree, []) == degree
  {
  }

  // One block's share of the arrays is copied in, and its header set.
  method LoadChunk(pool: array<Block>, inDegree: array<int>, b: nat, ents: seq<Slot>, voff: nat, nToCopy: nat, ghost es: seq<Slot>)
    requires b < pool.Length && voff + nToCopy <= |ents| && es == ents[voff..voff + nToCopy] && nToCopy <= |pool[b].edges|
    requires forall q | 0 <= q < nToCopy :: 0 <= es[q].neighbor < inDegree.Length
    modifies pool, inDegree
    ensures |es| <= |old(pool[b]).edges| && pool[..] == old(pool[..])[b := Loaded(old(pool[b]), es)]
    ensures inDegree[..] == Bumped(old(inDegree[..]), es)
  {
    hide *;
    ghost var pool0, block := pool[..], pool[b];
    CopyChunk(pool, inDegree, b, ents, voff, nToCopy, es);
    LoadedParts(block, es, pool[b].edges);
    var tslb, tsub := ChunkStamps(pool[b].edges, nToCopy);
    pool[b] := pool[b].(smallStamp := tslb, largeStamp := tsub, numEdges := nToCopy, high := nToCopy);
  }

  // The entries of u, when u is v or a later vertex.
  function Pending(pl: Plan, v: nat, u: nat): int {
    if v <= u < pl.n && u + 1 < |pl.off| then pl.off[u + 1] - pl.off[u] else 0
  }

  predicate Ahead(pl: Plan, outDegree: seq<int>, degree: seq<int>, v: nat) {
    |outDegree| == |degree| && forall u: nat | u < |outDegree| :: outDegree[u] == degree[u] + Pending(pl, v, u)
  }

  lemma AheadNext(pl: Plan, outDegree: seq<int>, degree: seq<int>, v: nat)
    requires Ahead(pl, outDegree, degree, v) && v < |degree| && v < pl.n && v + 1 < |pl.off|
    ensures Ahead(pl, outDegree, degree[v := degree[v] + pl.off[v + 1] - pl.off[v]], v + 1)
  {
  }

  // The arrays follow the store s, with the out-degrees of the vertices from v on already counted in.
  ghost predicate Follows(pl: Plan, pool: seq<Block>, first: seq<nat>, outDegree: seq<int>, inDegree: seq<int>, s: Store, v: nat) {
    && pool == s.pool && s.tail <= |pool| && first == s.first && inDegree == s.inDegree
    && |outDegree| == |s.outDegree| && pl.n < |pl.off| && |pl.blkoff| == pl.n + 1 && pl.start + pl.blkoff[pl.n] <= |pool|
    && Ahead(pl, outDegree, s.outDegree, v)
    && Allocated(pl, pool, v)
  }

  // Halfway through v's blocks.
  ghost predicate Midway(pl: Plan, pool: seq<Block>, s: Store, v: nat, k: nat, pool0: seq<Block>, head: nat) {
    && Vertex(pl, v) && pl.blkoff[v] < pl.blkoff[v + 1] && pl.blkoff[v] <= k <= pl.blkoff[v + 1]
    && |pool| == |pool0| >= pl.start + pl.blkoff[v + 1] && Linked(pl, pool, v, head) == s.pool
    && pool[..pl.start + pl.blkoff[v]] == pool0[..pl.start + pl.blkoff[v]] && pool[pl.start + k..] == pool0[pl.start + k..]
    && forall l: nat | pl.blkoff[v] <= l < k :: HoldsChunk(pl, pool, v, l)
  }

  // Block l of v holds its chunk.
  ghost predicate HoldsChunk(pl: Plan, pool: seq<Block>, v: nat, l: nat) {
    && v + 1 < |pl.off| && v + 1 < |pl.blkoff| && pl.start + l < |pool| && 0 <= Before(pl, v, l) <= Before(pl, v, l + 1) <= |pl.ents|
    && Holds(pool[pl.start + l], Chunk(pl, v, l))
  }

  lemma MidwayFacts(pl: Plan, pool: seq<Block>, s: Store, v: nat, k: nat, pool0: seq<Block>, head: nat)
    requires Midway(pl, pool, s, v, k, pool0, head)
    ensures Vertex(pl, v) && pl.blkoff[v] < pl.blkoff[v + 1] && pl.blkoff[v] <= k <= pl.blkoff[v + 1]
    ensures |pool| == |pool0| >= pl.start + pl.blkoff[v + 1] && Linked(pl, pool, v, head) == s.pool
    ensures pool[..pl.start + pl.blkoff[v]] == pool0[..pl.start + pl.blkoff[v]] && pool[pl.start + k..] == pool0[pl.start + k..]
    ensures forall l: nat | pl.blkoff[v] <= l < k :: HoldsChunk(pl, pool, v, l)
  {
    hide Linked, HoldsChunk;
  }

  lemma MidwayIntro(pl: Plan, pool: seq<Block>, s: Store, v: nat, k: nat, pool0: seq<Block>, head: nat)
    requires Vertex(pl, v) && pl.blkoff[v] < pl.blkoff[v + 1] && pl.blkoff[v] <= k <= pl.blkoff[v + 1]
    requires |pool| == |pool0| >= pl.start + pl.blkoff[v + 1] && Linked(pl, pool, v, head) == s.pool
    requires pool[..pl.start + pl.blkoff[v]] == pool0[..pl.start + pl.blkoff[v]] && pool[pl.start + k..] == pool0[pl.start + k..]
    requires forall l: nat | pl.blkoff[v] <= l < k :: HoldsChunk(pl, pool, v, l)
    ensures Midway(pl, pool, s, v, k, pool0, head)
  {
    hide Linked, HoldsChunk;
  }

  // A block of the pool has as many slots as the store says.
  lemma SameEdges(pl: Plan, pool: seq<Block>, v: nat, head: nat, q: seq<Block>, b: nat)
    requires Vertex(pl, v) && pl.blkoff[v] < pl.blkoff[v + 1] && pl.start + pl.blkoff[v + 1] <= |pool| && Linked(pl, pool, v, head) == q && b < |q|
    ensures |q| == |pool| && pool[b].edges == q[b].edges
  {
  }

  // What is needed to fill block k, and what its filling leaves.
  lemma MidwayTurn(pl: Plan, pool: seq<Block>, s: Store, m0: map<Key, Val>, eta0: seq<seq<nat>>, v: nat, k: nat, nv: nat, ntypes: nat, base: seq<Block>, pool0: seq<Block>, head: nat)
    returns (es: seq<Slot>, s': Store)
    requires Inside(pl, s, m0, eta0, v, k, nv, ntypes, base) && Midway(pl, pool, s, v, k, pool0, head) && Vertex(pl, v) && k < pl.blkoff[v + 1]
    ensures 0 <= pl.off[v] <= Before(pl, v, k) < Before(pl, v, k + 1) <= |pl.ents| && es == pl.ents[Before(pl, v, k)..Before(pl, v, k + 1)]
    ensures Before(pl, v, k + 1) == if Before(pl, v, k) + EDGEBLOCKSIZE >= pl.off[v + 1] then pl.off[v + 1] else Before(pl, v, k) + EDGEBLOCKSIZE
    ensures Before(pl, v, k) == pl.off[v] + EDGEBLOCKSIZE * (k - pl.blkoff[v])
    ensures pl.start + k < |pool| && |es| <= |pool[pl.start + k].edges|
    ensures |s.inDegree| == nv && forall q | 0 <= q < |es| :: 0 <= es[q].neighbor < nv
    ensures Inside(pl, s', m0, eta0, v, k + 1, nv, ntypes, base)
    ensures v < |s.outDegree| && s'.first == s.first && s'.outDegree == s.outDegree[v := s.outDegree[v] + |es|] && s'.inDegree == Bumped(s.inDegree, es)
    ensures Midway(pl, pool[pl.start + k := Loaded(pool[pl.start + k], es)], s', v, k + 1, pool0, head)
  {
    hide *;
    InsideFacts(pl, s, m0, eta0, v, k, nv, ntypes, base);
    MidwayFacts(pl, pool, s, v, k, pool0, head);
    VertexIs(pl, v);
    BlocksIs(pl, v, k);
    ChunkFacts(pl, nv, ntypes, v, k);
    ChunkReady(pl, s, m0, eta0, v, k, nv, ntypes, base);
    es := Chunk(pl, v, k);
    ChunkIsSlice(pl, v, k);
    ReadyFacts(s, pl.start + k, es, nv, ntypes);
    forall q | 0 <= q < |es| ensures 0 <= es[q].neighbor < nv { EntryBounds(es[q], s.pool[pl.start + k].vertexID, nv); }
    s' := FillNext(pl, s, m0, eta0, v, k, nv, ntypes, base);
    SameEdges(pl, pool, v, head, s.pool, pl.start + k);
    MidwayNext(pl, pool, s, v, k, pool0, head, es, s');
  }

  lemma MidwayNext(pl: Plan, pool: seq<Block>, s: Store, v: nat, k: nat, pool0: seq<Block>, head: nat, es: seq<Slot>, s': Store)
    requires Midway(pl, pool, s, v, k, pool0, head) && Vertex(pl, v) && k < pl.blkoff[v + 1] && es != []
    requires v + 1 < |pl.off| && v + 1 < |pl.blkoff| && 0 <= Before(pl, v, k) <= Before(pl, v, k + 1) <= |pl.ents| && es == Chunk(pl, v, k)
    requires pl.start + k < |s.pool| && |es| <= |s.pool[pl.start + k].edges| && s'.pool == s.pool[pl.start + k := Chunked(s.pool[pl.start + k], es)]
    ensures pl.start + k < |pool| && |es| <= |pool[pl.start + k].edges|
    ensures Midway(pl, pool[pl.start + k := Loaded(pool[pl.start + k], es)], s', v, k + 1, pool0, head)
  {
    hide *;
    MidwayFacts(pl, pool, s, v, k, pool0, head);
    VertexIs(pl, v);
    var b, last := pl.start + k, pl.start + pl.blkoff[v + 1] - 1;
    SameEdges(pl, pool, v, head, s.pool, b);
    LinkedIs(pl, pool, v, head);
    LinkLater(pool, b, last, head, es);
    ChunkSame(s.pool, b, es);
    var pool' := pool[b := Loaded(pool[b], es)];
    LinkedIs(pl, pool', v, head);
    LoadedHolds(pool[b], es);
    forall l: nat | pl.blkoff[v] <= l < k + 1 ensures HoldsChunk(pl, pool', v, l) {
      if l < k { HoldsKept(pl, pool, pool', v, l); } else { HoldsIntro(pl, pool', v, k); }
    }
    assert pool'[b + 1..] == pool[b..][1..] == pool0[b..][1..] == pool0[b + 1..];
    assert pool'[..pl.start + pl.blkoff[v]] == pool[..pl.start + pl.blkoff[v]];
    MidwayIntro(pl, pool', s', v, k + 1, pool0, head);
  }

  lemma LinkedIs(pl: Plan, pool: seq<Block>, v: nat, head: nat)
    requires Vertex(pl, v) && pl.blkoff[v] < pl.blkoff[v + 1] && pl.start + pl.blkoff[v + 1] <= |pool|
    ensures var last := pl.start + pl.blkoff[v + 1] - 1; Linked(pl, pool, v, head) == pool[last := pool[last].(next := head)]
  {
  }

  lemma HoldsKept(pl: Plan, pool: seq<Block>, pool': seq<Block>, v: nat, l: nat)
    requires HoldsChunk(pl, pool, v, l) && |pool'| == |pool| && pool'[pl.start + l] == pool[pl.start + l]
    ensures HoldsChunk(pl, pool', v, l)
  {
    hide Holds;
  }

  lemma HoldsIntro(pl: Plan, pool: seq<Block>, v: nat, l: nat)
    requires v + 1 < |pl.off| && v + 1 < |pl.blkoff| && pl.start + l < |pool| && 0 <= Before(pl, v, l) <= Before(pl, v, l + 1) <= |pl.ents|
    requires Holds(pool[pl.start + l], Chunk(pl, v, l))
    ensures HoldsChunk(pl, pool, v, l)
  {
    hide Holds;
  }

  // All blocks of a vertex, from its row of the arrays.
  method FillBlocks(pool: array<Block>, inDegree: array<int>, pl: Plan, v: nat, ghost s: Store, ghost m0: map<Key, Val>, ghost eta0: seq<seq<nat>>,
                    ghost nv: nat, ghost ntypes: nat, ghost base: seq<Block>, ghost head: nat) returns (ghost s': Store)
    requires Vertex(pl, v) && Inside(pl, s, m0, eta0, v, pl.blkoff[v], nv, ntypes, base)
    requires Midway(pl, pool[..], s, v, pl.blkoff[v], pool[..], head) && inDegree[..] == s.inDegree && v < |s.outDegree|
    modifies pool, inDegree
    ensures Inside(pl, s', m0, eta0, v, pl.blkoff[v + 1], nv, ntypes, base)
    ensures Midway(pl, pool[..], s', v, pl.blkoff[v + 1], old(pool[..]), head) && inDegree[..] == s'.inDegree
    ensures s'.first == s.first && s'.outDegree == s.outDegree[v := s.outDegree[v] + pl.off[v + 1] - pl.off[v]]
  {
    hide *;
    ghost var pool0 := pool[..];
    VertexIs(pl, v);
    MidwayFacts(pl, pool[..], s, v, pl.blkoff[v], pool0, head);
    InsideFacts(pl, s, m0, eta0, v, pl.blkoff[v], nv, ntypes, base);
    VertexFacts(pl, nv, ntypes, v);
    var nextoff, kgraph := pl.off[v + 1], pl.off[v];
    s' := s;
    var kblk := pl.blkoff[v];
    while kblk < pl.blkoff[v + 1]
      invariant pl.blkoff[v] <= kblk <= pl.blkoff[v + 1] && kgraph == pl.off[v] + EDGEBLOCKSIZE * (kblk - pl.blkoff[v])
      invariant Inside(pl, s', m0, eta0, v, kblk, nv, ntypes, base)
      invariant Midway(pl, pool[..], s', v, kblk, pool0, head) && inDegree[..] == s'.inDegree
      invariant s'.first == s.first && s'.outDegree == s.outDegree[v := s.outDegree[v] + Before(pl, v, kblk) - pl.off[v]]
    {
      ghost var es, s1 := MidwayTurn(pl, pool[..], s', m0, eta0, v, kblk, nv, ntypes, base, pool0, head);
      var voff := kgraph;
      kgraph := kgraph + EDGEBLOCKSIZE;
      var nToCopy: int := EDGEBLOCKSIZE;
      if voff + nToCopy >= nextoff { nToCopy := nextoff - voff; }
      LoadChunk(pool, inDegree, pl.start + kblk, pl.ents, voff, nToCopy, es);
      s' := s1;
      kblk := kblk + 1;
    }
  }

  lemma FollowsFacts(pl: Plan, pool: seq<Block>, first: seq<nat>, outDegree: seq<int>, inDegree: seq<int>, s: Store, v: nat)
    requires Follows(pl, pool, first, outDegree, inDegree, s, v)
    ensures pool == s.pool && s.tail <= |pool| && first == s.first && inDegree == s.inDegree
    ensures |outDegree| == |s.outDegree| && pl.n < |pl.off| && |pl.blkoff| == pl.n + 1 && pl.start + pl.blkoff[pl.n] <= |pool|
    ensures Ahead(pl, outDegree, s.outDegree, v)
    ensures Allocated(pl, pool, v)
  {
    hide Allocated, Ahead;
  }

  lemma FollowsIntro(pl: Plan, pool: seq<Block>, first: seq<nat>, outDegree: seq<int>, inDegree: seq<int>, s: Store, v: nat)
    requires pool == s.pool && s.tail <= |pool| && first == s.first && inDegree == s.inDegree
    requires |outDegree| == |s.outDegree| && pl.n < |pl.off| && |pl.blkoff| == pl.n + 1 && pl.start + pl.blkoff[pl.n] <= |pool|
    requires Ahead(pl, outDegree, s.outDegree, v)
    requires Allocated(pl, pool, v)
    ensures Follows(pl, pool, first, outDegree, inDegree, s, v)
  {
    hide Allocated, Ahead;
  }

  // Blocks of later vertices stay as they were.
  lemma AllocatedLater(pl: Plan, pool: seq<Block>, pool': seq<Block>, v: nat, nv: nat, ntypes: nat)
    requires PlanOk(pl, nv, ntypes) && v < pl.n && Vertex(pl, v) && Allocated(pl, pool, v) && |pool'| == |pool| && pl.start + pl.blkoff[v + 1] <= |pool|
    requires pool'[pl.start + pl.blkoff[v + 1]..] == pool[pl.start + pl.blkoff[v + 1]..]
    ensures Allocated(pl, pool', v + 1)
  {
    hide BlkStart, RowsOk;
    var from := pl.start + pl.blkoff[v + 1];
    forall u: nat, k: nat | v + 1 <= u < pl.n && Blocks(pl, u, k) ensures pl.start + k < |pool'| && pool'[pl.start + k] == EmptyBlock(pl, u, k) {
      BlkOrder(pl, nv, ntypes, v + 1, u);
      assert pool'[from..][pl.start + k - from] == pool[from..][pl.start + k - from];
    }
  }

  lemma BlkOrder(pl: Plan, nv: nat, ntypes: nat, u: nat, v: nat)
    requires PlanOk(pl, nv, ntypes) && u <= v <= pl.n
    ensures |pl.blkoff| == pl.n + 1 && pl.blkoff[u] <= pl.blkoff[v]
  {
    BlkStartOrder(pl.off, pl.n, |pl.ents|, u, v);
  }

  // A vertex's blocks are filled, and the last one is linked.
  lemma FollowsNext(pl: Plan, pool: seq<Block>, pool0: seq<Block>, first: seq<nat>, outDegree: seq<int>, inDegree: seq<int>, s0: Store, s: Store,
                    m0: map<Key, Val>, eta0: seq<seq<nat>>, v: nat, nv: nat, ntypes: nat, base: seq<Block>)
    requires Vertex(pl, v) && pl.blkoff[v] < pl.blkoff[v + 1] && pl.start + pl.blkoff[v + 1] <= |s0.pool| && v < |s0.first|
    requires Inside(pl, s, m0, eta0, v, pl.blkoff[v + 1], nv, ntypes, base) && base == Linked(pl, s0.pool, v, s0.first[v])
    requires Midway(pl, pool, s, v, pl.blkoff[v + 1], pool0, s0.first[v])
    requires Follows(pl, pool0, s0.first, outDegree, s0.inDegree, s0, v) && s0.tail == pl.start + pl.blkoff[v]
    requires first == s.first && inDegree == s.inDegree && v < |s0.outDegree| && s.outDegree == s0.outDegree[v := s0.outDegree[v] + pl.off[v + 1] - pl.off[v]]
    ensures pl.start + pl.blkoff[v + 1] <= |pool| && Follows(pl, Linked(pl, pool, v, s0.first[v]), first, outDegree, inDegree, s, v + 1)
  {
    hide *;
    VertexIs(pl, v);
    InsideFacts(pl, s, m0, eta0, v, pl.blkoff[v + 1], nv, ntypes, base);
    MidwayFacts(pl, pool, s, v, pl.blkoff[v + 1], pool0, s0.first[v]);
    FollowsFacts(pl, pool0, s0.first, outDegree, s0.inDegree, s0, v);
    LinkedIs(pl, s0.pool, v, s0.first[v]);
    LinkedIs(pl, pool, v, s0.first[v]);
    var end := pl.start + pl.blkoff[v + 1];
    var linked := Linked(pl, pool, v, s0.first[v]);
    assert linked[end..] == pool[end..] == pool0[end..];
    AllocatedLater(pl, pool0, linked, v, nv, ntypes);
    AheadNext(pl, outDegree, s0.outDegree, v);
    FollowsIntro(pl, linked, first, outDegree, inDegree, s, v + 1);
  }

  lemma FollowsSkip(pl: Plan, pool: seq<Block>, first: seq<nat>, outDegree: seq<int>, inDegree: seq<int>, s: Store, v: nat)
    requires Follows(pl, pool, first, outDegree, inDegree, s, v) && v < pl.n && v + 1 < |pl.off| && pl.off[v] == pl.off[v + 1]
    ensures Follows(pl, pool, first, outDegree, inDegree, s, v + 1)
  {
    hide EmptyBlock;
  }

  // The blocks of all vertices before v hold their chunks.
  ghost predicate AllHold(pl: Plan, pool: seq<Block>, v: nat) {
    v <= pl.n && forall u: nat, k: nat | u < v && Blocks(pl, u, k) :: HoldsChunk(pl, pool, u, k)
  }

  lemma AllHoldNext(pl: Plan, pool: seq<Block>, pool': seq<Block>, v: nat, nv: nat, ntypes: nat)
    requires PlanOk(pl, nv, ntypes) && v < pl.n && Vertex(pl, v) && AllHold(pl, pool, v) && |pool'| == |pool| && pl.start + pl.blkoff[v] <= |pool|
    requires pool'[..pl.start + pl.blkoff[v]] == pool[..pl.start + pl.blkoff[v]]
    requires forall k: nat | Blocks(pl, v, k) :: HoldsChunk(pl, pool', v, k)
    ensures AllHold(pl, pool', v + 1)
  {
    hide BlkStart, RowsOk, HoldsChunk;
    forall u: nat, k: nat | u < v + 1 && Blocks(pl, u, k) ensures HoldsChunk(pl, pool', u, k) {
      if u < v {
        BlkOrder(pl, nv, ntypes, u + 1, v);
        assert pool'[..pl.start + pl.blkoff[v]][pl.start + k] == pool[..pl.start + pl.blkoff[v]][pl.start + k];
        HoldsKept(pl, pool, pool', u, k);
      }
    }
  }

  // Linking the last block of v does not change what it holds.
  lemma HoldsLinked(pl: Plan, pool: seq<Block>, v: nat, head: nat, k: nat)
    requires Vertex(pl, v) && pl.blkoff[v] < pl.blkoff[v + 1] && pl.start + pl.blkoff[v + 1] <= |pool| && HoldsChunk(pl, pool, v, k)
    ensures HoldsChunk(pl, Linked(pl, pool, v, head), v, k)
  {
  }

  lemma FilledVertex(pl: Plan, pool: seq<Block>, s: Store, v: nat, pool0: seq<Block>, head: nat)
    requires v + 1 < |pl.blkoff| && pl.blkoff[v + 1] >= 0 && Midway(pl, pool, s, v, pl.blkoff[v + 1], pool0, head)
    ensures Vertex(pl, v) && pl.blkoff[v] < pl.blkoff[v + 1] && pl.start + pl.blkoff[v + 1] <= |pool|
    ensures forall k: nat | Blocks(pl, v, k) :: HoldsChunk(pl, Linked(pl, pool, v, head), v, k)
    ensures Linked(pl, pool, v, head)[..pl.start + pl.blkoff[v]] == pool0[..pl.start + pl.blkoff[v]]
  {
    MidwayFacts(pl, pool, s, v, pl.blkoff[v + 1], pool0, head);
    hide Midway, HoldsChunk;
    forall k: nat | Blocks(pl, v, k) ensures HoldsChunk(pl, Linked(pl, pool, v, head), v, k) { HoldsLinked(pl, pool, v, head, k); }
    assert Linked(pl, pool, v, head)[..pl.start + pl.blkoff[v]] == pool[..pl.start + pl.blkoff[v]];
  }

  lemma MidwayStarts(pl: Plan, pool: seq<Block>, s: Store, s0: Store, v: nat, head: nat)
    requires Vertex(pl, v) && pl.blkoff[v] < pl.blkoff[v + 1] && pl.start + pl.blkoff[v + 1] <= |pool| && pool == s0.pool
    requires s.pool == Linked(pl, s0.pool, v, head)
    ensures Midway(pl, pool, s, v, pl.blkoff[v], pool, head)
  {
  }

  // One vertex: its blocks filled, and put in front of its chain.
  method LoadVertex(pool: array<Block>, first: array<nat>, inDegree: array<int>, pl: Plan, v: nat, ghost s: Store, ghost outDegree: seq<int>,
                    ghost m0: map<Key, Val>, ghost eta0: seq<seq<nat>>, ghost nv: nat, ghost ntypes: nat) returns (ghost s': Store)
    requires Stage(pl, s, m0, eta0, v, nv, ntypes) && v < pl.n && Follows(pl, pool[..], first[..], outDegree, inDegree[..], s, v) && AllHold(pl, pool[..], v)
    modifies pool, first, inDegree
    ensures Stage(pl, s', m0, eta0, v + 1, nv, ntypes) && Follows(pl, pool[..], first[..], outDegree, inDegree[..], s', v + 1)
    ensures AllHold(pl, pool[..], v + 1)
    ensures pool[..pl.start] == old(pool[..pl.start])
  {
    hide *;
    StageFacts(pl, s, m0, eta0, v, nv, ntypes);
    FollowsFacts(pl, pool[..], first[..], outDegree, inDegree[..], s, v);
    VertexFacts(pl, nv, ntypes, v);
    VertexIs(pl, v);
    StoreElim(s, nv, ntypes);
    BlkOrder(pl, nv, ntypes, v + 1, pl.n);
    ghost var pool0 := pool[..];
    if pl.blkoff[v] != pl.blkoff[v + 1] {
      ghost var head := first[v];
      ghost var s1, base := OpenVertex(pl, s, m0, eta0, v, nv, ntypes);
      MidwayStarts(pl, pool[..], s1, s, v, head);
      s' := FillBlocks(pool, inDegree, pl, v, s1, m0, eta0, nv, ntypes, base, head);
      CloseVertex(pl, s', m0, eta0, v, nv, ntypes, base);
      FilledVertex(pl, pool[..], s', v, pool0, head);
      LinkedIs(pl, pool[..], v, head);
      ghost var linked := Linked(pl, pool[..], v, head);
      FollowsNext(pl, pool[..], pool0, s'.first, outDegree, inDegree[..], s, s', m0, eta0, v, nv, ntypes, base);
      var last := pl.start + pl.blkoff[v + 1] - 1;
      pool[last] := pool[last].(next := first[v]);
      first[v] := pl.start + pl.blkoff[v];
      assert pool[..] == linked && first[..] == s'.first;
      assert linked[..pl.start] == linked[..pl.start + pl.blkoff[v]][..pl.start] == pool0[..pl.start + pl.blkoff[v]][..pl.start] == pool0[..pl.start];
    } else {
      SkipVertex(pl, s, m0, eta0, v, nv, ntypes);
      FollowsSkip(pl, pool[..], first[..], outDegree, inDegree[..], s, v);
      NoBlocks(pl, v);
      s' := s;
    }
    AllHoldNext(pl, pool0, pool[..], v, nv, ntypes);
  }

  lemma NoBlocks(pl: Plan, v: nat)
    requires Vertex(pl, v) && pl.blkoff[v] == pl.blkoff[v + 1]
    ensures forall k: nat :: !Blocks(pl, v, k)
  {
  }

  // ---------------------------------------------------------------- before the filling

  method AddDegrees(outDegree: array<int>, pl: Plan)
    requires pl.n < |pl.off| && pl.n <= outDegree.Length
    modifies outDegree
    ensures Ahead(pl, outDegree[..], old(outDegree[..]), 0)
  {
    ghost var degree := outDegree[..];
    var v := 0;
    while v < pl.n
      invariant 0 <= v <= pl.n
      invariant forall u: nat | u < v :: outDegree[u] == degree[u] + Pending(pl, 0, u)
      invariant forall u: nat | v <= u < outDegree.Length :: outDegree[u] == degree[u]
    {
      var deg := pl.off[v + 1] - pl.off[v];
      if deg != 0 { outDegree[v] := outDegree[v] + deg; }
      v := v + 1;
    }
  }

  // new_blk_ebs, once there is room: blocks of this type, with v's chained to one another.
  method NewBlocks(pool: array<Block>, pl: Plan, ghost nv: nat, ghost ntypes: nat)
    requires PlanOk(pl, nv, ntypes) && |pl.blkoff| == pl.n + 1 && 0 <= pl.blkoff[pl.n] && pl.start + pl.blkoff[pl.n] <= pool.Length
    modifies pool
    ensures Allocated(pl, pool[..], 0) && pool[..pl.start] == old(pool[..pl.start])
  {
    hide *;
    var k := 0;
    while k < pl.blkoff[pl.n]
      invariant 0 <= k <= pl.blkoff[pl.n] && pool[..pl.start] == old(pool[..pl.start])
      invariant forall b: nat | pl.start <= b < pl.start + k :: pool[b] == NewBlock(pl.etype, 0)
    {
      pool[pl.start + k] := NewBlock(pl.etype, 0);
      k := k + 1;
    }
    var v := 0;
    AllocatedNone(pl, pool[..]);
    if pl.n > 0 { VertexFacts(pl, nv, ntypes, 0); VertexIs(pl, 0); }
    BlkNone(pl, nv, ntypes);
    while v < pl.n
      invariant 0 <= v <= pl.n && pool[..pl.start] == old(pool[..pl.start]) && AllocatedTo(pl, pool[..], v)
      invariant 0 <= pl.blkoff[v] <= pl.blkoff[pl.n]
      invariant forall b: nat | pl.start + pl.blkoff[v] <= b < pl.start + pl.blkoff[pl.n] :: pool[b] == NewBlock(pl.etype, 0)
    {
      NewBlocksOf(pool, pl, v, nv, ntypes);
      v := v + 1;
    }
    AllocatedAll(pl, pool[..]);
  }

  lemma BlkNone(pl: Plan, nv: nat, ntypes: nat)
    requires PlanOk(pl, nv, ntypes)
    ensures |pl.blkoff| == pl.n + 1 && pl.blkoff[0] == 0
  {
  }

  ghost predicate AllocatedTo(pl: Plan, pool: seq<Block>, v: nat) {
    && |pl.blkoff| == pl.n + 1 && v <= pl.n
    && forall u: nat, k: nat | u < v && Blocks(pl, u, k) :: pl.start + k < |pool| && pool[pl.start + k] == EmptyBlock(pl, u, k)
  }

  lemma AllocatedNone(pl: Plan, pool: seq<Block>)
    requires |pl.blkoff| == pl.n + 1
    ensures AllocatedTo(pl, pool, 0)
  {
  }

  lemma AllocatedAll(pl: Plan, pool: seq<Block>)
    requires AllocatedTo(pl, pool, pl.n)
    ensures Allocated(pl, pool, 0)
  {
  }

  lemma AllocatedNext(pl: Plan, pool: seq<Block>, pool': seq<Block>, v: nat, nv: nat, ntypes: nat)
    requires PlanOk(pl, nv, ntypes) && AllocatedTo(pl, pool, v) && v < pl.n && |pool'| == |pool| && Vertex(pl, v) && pl.start + pl.blkoff[v + 1] <= |pool|
    requires pool'[..pl.start + pl.blkoff[v]] == pool[..pl.start + pl.blkoff[v]]
    requires forall b: nat | pl.start + pl.blkoff[v] <= b < pl.start + pl.blkoff[v + 1] :: pool'[b] == EmptyBlock(pl, v, b - pl.start)
    ensures AllocatedTo(pl, pool', v + 1)
  {
    hide PlanOk, EmptyBlock, AllocatedTo;
    forall u: nat, k: nat | u < v + 1 && Blocks(pl, u, k) ensures pl.start + k < |pool'| && pool'[pl.start + k] == EmptyBlock(pl, u, k) {
      if u < v {
        AllocatedBefore(pl, pool, pool', v, u, k, nv, ntypes);
      } else {
        var b := pl.start + k;
        assert pool'[b] == EmptyBlock(pl, v, b - pl.start);
      }
    }
    AllocatedIntro(pl, pool', v + 1);
  }

  lemma AllocatedIntro(pl: Plan, pool: seq<Block>, v: nat)
    requires |pl.blkoff| == pl.n + 1 && v <= pl.n
    requires forall u: nat, k: nat | u < v && Blocks(pl, u, k) :: pl.start + k < |pool| && pool[pl.start + k] == EmptyBlock(pl, u, k)
    ensures AllocatedTo(pl, pool, v)
  {
    hide EmptyBlock;
  }

  lemma AllocatedBefore(pl: Plan, pool: seq<Block>, pool': seq<Block>, v: nat, u: nat, k: nat, nv: nat, ntypes: nat)
    requires PlanOk(pl, nv, ntypes) && AllocatedTo(pl, pool, v) && v < pl.n && |pool'| == |pool| && Vertex(pl, v) && pl.start + pl.blkoff[v + 1] <= |pool|
    requires pool'[..pl.start + pl.blkoff[v]] == pool[..pl.start + pl.blkoff[v]] && u < v && Blocks(pl, u, k)
    ensures pl.start + k < |pool'| && pool'[pl.start + k] == EmptyBlock(pl, u, k)
  {
    BlkOrder(pl, nv, ntypes, u + 1, v);
    hide PlanOk, EmptyBlock;
    assert pool'[..pl.start + pl.blkoff[v]][pl.start + k] == pool[..pl.start + pl.blkoff[v]][pl.start + k];
  }

  lemma EmptyBlockIs(pl: Plan, v: nat, k: nat)
    requires v + 1 < |pl.blkoff|
    ensures EmptyBlock(pl, v, k) == NewBlock(pl.etype, 0).(vertexID := v, next := if k + 1 < pl.blkoff[v + 1] then pl.start + k + 1 else 0)
    ensures NewBlock(pl.etype, 0).next == 0
  {
  }

  method NewBlocksOf(pool: array<Block>, pl: Plan, v: nat, ghost nv: nat, ghost ntypes: nat)
    requires PlanOk(pl, nv, ntypes) && v < pl.n && |pl.blkoff| == pl.n + 1 && pl.start + pl.blkoff[pl.n] <= pool.Length && AllocatedTo(pl, pool[..], v)
    requires 0 <= pl.blkoff[v] <= pl.blkoff[pl.n]
    requires forall b: nat | pl.start + pl.blkoff[v] <= b < pl.start + pl.blkoff[pl.n] :: pool[b] == NewBlock(pl.etype, 0)
    modifies pool
    ensures pool[..pl.start] == old(pool[..pl.start]) && AllocatedTo(pl, pool[..], v + 1) && 0 <= pl.blkoff[v + 1] <= pl.blkoff[pl.n]
    ensures forall b: nat | pl.start + pl.blkoff[v + 1] <= b < pl.start + pl.blkoff[pl.n] :: pool[b] == NewBlock(pl.etype, 0)
  {
    hide *;
    VertexFacts(pl, nv, ntypes, v);
    VertexIs(pl, v);
    ghost var pool0 := pool[..];
    var blkend := pl.blkoff[v + 1];
    var k: nat := pl.blkoff[v];
    while k < blkend
      invariant pl.blkoff[v] <= k <= blkend && pool[..pl.start + pl.blkoff[v]] == pool0[..pl.start + pl.blkoff[v]]
      invariant pool[pl.start + k..] == pool0[pl.start + k..]
      invariant forall b: nat | pl.start + pl.blkoff[v] <= b < pl.start + k :: pool[b] == NewBlock(pl.etype, 0).(vertexID := v)
    {
      assert pool[pl.start + k..][0] == pool0[pl.start + k..][0];
      assert pool0[pl.start + k..][1..] == pool0[pl.start + k + 1..];
      pool[pl.start + k] := pool[pl.start + k].(vertexID := v);
      assert pool[pl.start + k + 1..] == pool0[pl.start + k + 1..];
      k := k + 1;
    }
    ghost var pool1 := pool[..];
    k := pl.blkoff[v];
    while k < blkend - 1
      invariant pl.blkoff[v] <= k && (k <= blkend - 1 || k == blkend == pl.blkoff[v])
      invariant pool[..pl.start + pl.blkoff[v]] == pool0[..pl.start + pl.blkoff[v]] && pool[pl.start + blkend..] == pool0[pl.start + blkend..]
      invariant forall b: nat | pl.start + pl.blkoff[v] <= b < pl.start + k :: pool[b] == EmptyBlock(pl, v, b - pl.start)
      invariant forall b: nat | pl.start + k <= b < pl.start + blkend :: pool[b] == NewBlock(pl.etype, 0).(vertexID := v)
    {
      EmptyBlockIs(pl, v, k);
      pool[pl.start + k] := pool[pl.start + k].(next := pl.start + k + 1);
      k := k + 1;
    }
    EmptyBlockIs(pl, v, k);
    AllocatedNext(pl, pool0, pool[..], v, nv, ntypes);
    forall b: nat | pl.start + blkend <= b < pl.start + pl.blkoff[pl.n] ensures pool[b] == NewBlock(pl.etype, 0) {
      assert pool[pl.start + blkend..][b - pl.start - blkend] == pool0[pl.start + blkend..][b - pl.start - blkend];
    }
    assert pool[..pl.start] == pool[..pl.start + pl.blkoff[v]][..pl.start] == pool0[..pl.start + pl.blkoff[v]][..pl.start] == pool0[..pl.start];
  }
}
