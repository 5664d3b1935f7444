/**
 What loading does to the store, as values: a group of empty blocks joins the front of a chain, and
 an empty block takes a chunk of entries at once.
 */
module CsrBlocks {
  import opened EdgeBlocks
  import opened CsrRows

  // ---------------------------------------------------------------- a group of blocks more

  function Range(a: nat, m: nat): (r: seq<nat>)
    ensures |r| == m && forall i | 0 <= i < m :: r[i] == a + i
  {
    seq(m, i requires 0 <= i < m => a + i)
  }

  lemma RangeHas(a: nat, m: nat, b: nat)
    ensures b in Range(a, m) <==> a <= b < a + m
  {
    if a <= b < a + m { assert Range(a, m)[b - a] == b; }
  }

  // The i-th of m new blocks of a vertex whose chain began at head.
  function GroupBlock(tail: nat, etype: int, from: int, head: nat, m: nat, i: nat): Block {
    NewBlock(etype, from).(next := if i + 1 < m then tail + i + 1 else head)
  }

  ghost predicate PrependsBlocks(pool: seq<Block>, tail: nat, etype: int, from: int, head: nat, m: nat, pool': seq<Block>) {
    && 0 < tail && 0 < m && tail + m <= |pool| == |pool'| && pool'[..tail] == pool[..tail]
    && forall i: nat | i < m :: pool'[tail + i] == GroupBlock(tail, etype, from, head, m, i)
  }

  lemma PrependsFacts(pool: seq<Block>, tail: nat, etype: int, from: int, head: nat, m: nat, pool': seq<Block>)
    requires PrependsBlocks(pool, tail, etype, from, head, m, pool')
    ensures 0 < tail && 0 < m && tail + m <= |pool| == |pool'|
    ensures forall b | 0 <= b < tail :: pool'[b] == pool[b]
    ensures forall b | tail <= b < tail + m :: pool'[b] == NewBlock(etype, from).(next := if b + 1 < tail + m then b + 1 else head)
  {
    forall b | 0 <= b < tail ensures pool'[b] == pool[b] { assert pool'[..tail][b] == pool[..tail][b]; }
    forall b | tail <= b < tail + m ensures pool'[b] == NewBlock(etype, from).(next := if b + 1 < tail + m then b + 1 else head) {
      var i: nat := b - tail;
      assert pool'[tail + i] == GroupBlock(tail, etype, from, head, m, i);
    }
  }

  lemma NewHeader(etype: int, from: int, next: nat)
    ensures var block := NewBlock(etype, from).(next := next);
      block.next == next && block.etype == etype && block.vertexID == from && block.numEdges == 0 && block.high == 0 && |block.edges| == EDGEBLOCKSIZE
  {
  }

  lemma ChainKept(pool: seq<Block>, tail: nat, head: nat, chain: seq<nat>, v: int, pool': seq<Block>, tail': nat)
    requires tail <= |pool| && Chained(pool, tail, head, chain, v) && tail <= tail' <= |pool'|
    requires forall b | 0 <= b < tail :: pool'[b] == pool[b]
    ensures Chained(pool', tail', head, chain, v)
  {
  }

  lemma ChainPrepended(pool: seq<Block>, tail: nat, etype: int, from: int, head: nat, m: nat, pool': seq<Block>, chain: seq<nat>)
    requires PrependsBlocks(pool, tail, etype, from, head, m, pool') && Chained(pool, tail, head, chain, from)
    ensures tail + m <= |pool'| && Chained(pool', tail + m, tail, Range(tail, m) + chain, from)
  {
    PrependsFacts(pool, tail, etype, from, head, m, pool');
    var chain' := Range(tail, m) + chain;
    hide PrependsBlocks, Range;
    ConcatAt(Range(tail, m), chain);
    forall p: nat | p < |chain'| ensures 0 < chain'[p] < tail + m && pool'[chain'[p]].vertexID == from && pool'[chain'[p]].next == At(chain', p + 1) {
      if p < m { NewHeader(etype, from, if p + 1 < m then tail + p + 1 else head); }
      hide NewBlock;
    }
    forall p, q | 0 <= p < q < |chain'| ensures chain'[p] != chain'[q] { hide At; }
    assert At(chain', 0) == tail;
    hide NewBlock, At;
  }

  lemma ConcatAt(a: seq<nat>, c: seq<nat>)
    ensures forall p: nat | p < |a + c| :: (a + c)[p] == if p < |a| then a[p] else c[p - |a|]
    ensures forall p: nat | p <= |a + c| :: At(a + c, p) == if p < |a| then a[p] else At(c, p - |a|)
  {
  }

  lemma {:induction false} LinksPrepended(pool: seq<Block>, tail: nat, first: seq<nat>, chains: seq<seq<nat>>, etype: int, from: nat, m: nat, pool': seq<Block>)
    requires LinksOk(pool, tail, first, chains) && from < |first| && PrependsBlocks(pool, tail, etype, from, first[from], m, pool')
    ensures tail + m <= |pool'| && |first| == |chains|
    ensures LinksOk(pool', tail + m, first[from := tail], chains[from := Range(tail, m) + chains[from]])
  {
    hide Chained, PrependsBlocks, Range, GroupBlock;
    PrependsFacts(pool, tail, etype, from, first[from], m, pool');
    var first', chains' := first[from := tail], chains[from := Range(tail, m) + chains[from]];
    forall v: nat | v < |first'| ensures Chained(pool', tail + m, first'[v], chains'[v], v) {
      if v == from {
        ChainPrepended(pool, tail, etype, from, first[from], m, pool', chains[from]);
      } else {
        ChainKept(pool, tail, first[v], chains[v], v, pool', tail + m);
      }
    }
    forall b: nat | 0 < b < tail + m ensures 0 <= pool'[b].vertexID < |chains'| && b in chains'[pool'[b].vertexID] {
      RangeHas(tail, m, b);
      if b < tail { assert b in chains[pool[b].vertexID]; }
    }
    LinksIntro(pool', tail + m, first', chains');
  }

  lemma EtaPrepended(pool: seq<Block>, tail: nat, eta: seq<seq<nat>>, etype: nat, from: int, head: nat, m: nat, pool': seq<Block>)
    requires EtaOk(pool, tail, eta) && etype < |eta| && PrependsBlocks(pool, tail, etype, from, head, m, pool')
    ensures tail + m <= |pool'| && EtaOk(pool', tail + m, eta[etype := eta[etype] + Range(tail, m)])
  {
    PrependsFacts(pool, tail, etype, from, head, m, pool');
    assert forall b | 0 <= b < tail + m :: pool'[b].etype == if b < tail then pool[b].etype else etype;
    hide PrependsBlocks;
    var eta' := eta[etype := eta[etype] + Range(tail, m)];
    forall b: nat | 0 < b < tail + m ensures 0 <= pool'[b].etype < |eta'| && b in eta'[pool'[b].etype] {
      RangeHas(tail, m, b);
      if b < tail { assert b in eta[pool[b].etype]; }
    }
  }

  lemma BlocksPrepended(pool: seq<Block>, tail: nat, nv: nat, ntypes: nat, etype: nat, from: nat, head: nat, m: nat, pool': seq<Block>)
    requires BlocksOk(pool, tail, nv, ntypes) && etype < ntypes && from < nv && PrependsBlocks(pool, tail, etype, from, head, m, pool')
    ensures tail + m <= |pool'| && BlocksOk(pool', tail + m, nv, ntypes)
  {
    PrependsFacts(pool, tail, etype, from, head, m, pool');
    forall b | 0 < b < tail + m ensures BlockOk(pool'[b], nv, ntypes) {
      if b >= tail { assert forall k: nat | k < EDGEBLOCKSIZE :: SlotOk(pool'[b], k, nv); }
    }
  }

  lemma LocPrepended(pool: seq<Block>, tail: nat, loc: map<Key, Loc>, etype: int, from: int, head: nat, m: nat, pool': seq<Block>)
    requires LocOk(pool, tail, loc) && CountsOk(pool, tail, loc) && PrependsBlocks(pool, tail, etype, from, head, m, pool')
    ensures tail + m <= |pool'| && LocOk(pool', tail + m, loc) && CountsOk(pool', tail + m, loc) && EdgeMap(pool', loc) == EdgeMap(pool, loc)
  {
    PrependsFacts(pool, tail, etype, from, head, m, pool');
    forall b: nat, k: nat ensures LiveAt(pool', tail + m, b, k) <==> LiveAt(pool, tail, b, k) {}
    forall b: nat, k: nat | LiveAt(pool, tail, b, k) ensures KeyAt(pool', b, k) == KeyAt(pool, b, k) {}
    forall b: nat | tail <= b < tail + m ensures InBlock(loc, b) == {} {}
    forall key | key in loc ensures ValAt(pool', loc[key]) == ValAt(pool, loc[key]) {}
  }

  ghost function GroupedStore(s: Store, etype: nat, from: nat, m: nat, pool': seq<Block>): Store
    requires from < |s.chains| && from < |s.first| && etype < |s.eta|
  {
    s.(pool := pool', tail := s.tail + m, first := s.first[from := s.tail],
       eta := s.eta[etype := s.eta[etype] + Range(s.tail, m)], chains := s.chains[from := Range(s.tail, m) + s.chains[from]])
  }

  lemma GroupedIs(s: Store, etype: nat, from: nat, m: nat, pool': seq<Block>)
    requires from < |s.chains| && from < |s.first| && etype < |s.eta|
    ensures var s' := GroupedStore(s, etype, from, m, pool');
      && s'.pool == pool' && s'.tail == s.tail + m && s'.first == s.first[from := s.tail]
      && s'.outDegree == s.outDegree && s'.inDegree == s.inDegree && s'.loc == s.loc
      && s'.eta == s.eta[etype := s.eta[etype] + Range(s.tail, m)] && s'.chains == s.chains[from := Range(s.tail, m) + s.chains[from]]
      && Edges(s') == EdgeMap(s'.pool, s'.loc) && Edges(s) == EdgeMap(s.pool, s.loc)
  {
  }

  /** A group of chained empty blocks may join the front of a chain: no edge comes, goes or moves. */
  lemma StoreGrouped(s: Store, nv: nat, ntypes: nat, etype: nat, from: nat, m: nat, pool': seq<Block>)
    requires StoreOk(s, nv, ntypes) && etype < ntypes && from < nv && from < |s.first|
    requires PrependsBlocks(s.pool, s.tail, etype, from, s.first[from], m, pool')
    ensures |s.chains| == |s.first| == nv && |s.eta| == ntypes
    ensures StoreOk(GroupedStore(s, etype, from, m, pool'), nv, ntypes)
    ensures Edges(GroupedStore(s, etype, from, m, pool')) == Edges(s)
  {
    hide *;
    StoreElim(s, nv, ntypes);
    LinksPrepended(s.pool, s.tail, s.first, s.chains, etype, from, m, pool');
    EtaPrepended(s.pool, s.tail, s.eta, etype, from, s.first[from], m, pool');
    BlocksPrepended(s.pool, s.tail, nv, ntypes, etype, from, s.first[from], m, pool');
    LocPrepended(s.pool, s.tail, s.loc, etype, from, s.first[from], m, pool');
    PrependsFacts(s.pool, s.tail, etype, from, s.first[from], m, pool');
    GroupedIs(s, etype, from, m, pool');
    StoreIntro(GroupedStore(s, etype, from, m, pool'), nv, ntypes);
  }

  // ---------------------------------------------------------------- a chunk of entries

  // The stamps the loader computes: least first stamp, and largest recent stamp or 0.
  function Least(es: seq<Slot>): int {
    if es == [] then INT64_MAX else var x := Least(es[..|es| - 1]); var y := es[|es| - 1].timeFirst; if y < x then y else x
  }

  function Most(es: seq<Slot>): int {
    if es == [] then 0 else var x := Most(es[..|es| - 1]); var y := es[|es| - 1].timeRecent; if y > x then y else x
  }

  // An empty block filled with a chunk.
  function Loaded(block: Block, es: seq<Slot>): Block
    requires |es| <= |block.edges|
  {
    block.(numEdges := |es|, high := |es|, smallStamp := Least(es), largeStamp := Most(es), edges := es + block.edges[|es|..])
  }

  // A block with a chunk, or as it was before the first entry.
  function Chunked(block: Block, es: seq<Slot>): Block
    requires |es| <= |block.edges|
  {
    if es == [] then block else Loaded(block, es)
  }

  lemma {:induction false} LeastMost(es: seq<Slot>)
    ensures forall q | 0 <= q < |es| :: Least(es) <= es[q].timeFirst && es[q].timeRecent <= Most(es)
    ensures Least(es) == INT64_MAX || exists q :: 0 <= q < |es| && es[q].timeFirst == Least(es)
  {
    if es != [] {
      LeastMost(es[..|es| - 1]);
      assert forall q | 0 <= q < |es| - 1 :: es[..|es| - 1][q] == es[q];
    }
  }

  lemma ChunkedOk(block: Block, es: seq<Slot>, nv: nat, ntypes: nat)
    requires BlockOk(block, nv, ntypes) && block.high == 0 && 0 < |es| <= EDGEBLOCKSIZE
    requires forall q | 0 <= q < |es| :: EntryFits(es[q], block.vertexID, nv)
    ensures |es| <= |block.edges| && BlockOk(Chunked(block, es), nv, ntypes)
  {
    LeastMost(es);
    hide Least, Most;
    var block' := Chunked(block, es);
    forall k: nat | k < EDGEBLOCKSIZE ensures SlotOk(block', k, nv) {
      assert SlotOk(block, k, nv);
      assert block'.edges[k] == if k < |es| then es[k] else block.edges[k];
      if k < |es| { assert EntryFits(es[k], block.vertexID, nv); }
    }
  }

  // One entry more in the block.
  lemma ChunkedPuts(block: Block, es: seq<Slot>, e: Slot, nv: nat, ntypes: nat)
    requires |es| < EDGEBLOCKSIZE == |block.edges| && block.high == 0 && block.numEdges == 0
    requires forall q | 0 <= q < |es| :: es[q].neighbor >= 0
    requires e.neighbor >= 0
    ensures Puts(Chunked(block, es), |es|, Chunked(block, es + [e]), e)
    ensures var block' := Chunked(block, es); block'.etype == block.etype && block'.vertexID == block.vertexID
  {
    hide Chunked;
    ChunkedShape(block, es);
    ChunkedShape(block, es + [e]);
    var old_, new_ := Chunked(block, es), Chunked(block, es + [e]);
    assert forall l: nat | l < EDGEBLOCKSIZE && l != |es| :: new_.edges[l] == old_.edges[l];
  }

  // What a filled block looks like.
  lemma ChunkedShape(block: Block, es: seq<Slot>)
    requires |es| <= EDGEBLOCKSIZE == |block.edges| && block.high == 0 && block.numEdges == 0
    ensures var block' := Chunked(block, es);
      && block'.etype == block.etype && block'.vertexID == block.vertexID && block'.next == block.next
      && block'.numEdges == |es| && block'.high == |es| && |block'.edges| == EDGEBLOCKSIZE
      && forall l: nat | l < EDGEBLOCKSIZE :: block'.edges[l] == if l < |es| then es[l] else block.edges[l]
  {
    hide Least, Most;
  }

  function Bumped(degree: seq<int>, es: seq<Slot>): (r: seq<int>)
    ensures |r| == |degree|
  {
    if es == [] then degree
    else var d := Bumped(degree, es[..|es| - 1]); var to := es[|es| - 1].neighbor; if 0 <= to < |d| then d[to := d[to] + 1] else d
  }

  // Entries without a key of their row in the map yet.
  ghost predicate NewKeys(m: map<Key, Val>, etype: int, v: int, es: seq<Slot>) {
    && (forall q | 0 <= q < |es| :: Key(etype, v, es[q].neighbor) !in m)
    && (forall q, r | 0 <= q < r < |es| :: es[q].neighbor != es[r].neighbor)
  }

  // The store with a chunk in block b.
  ghost function ChunkStore(s: Store, b: nat, es: seq<Slot>, loc: map<Key, Loc>): Store
    requires b < |s.pool| && |es| <= |s.pool[b].edges| && 0 <= s.pool[b].vertexID < |s.outDegree|
  {
    var v := s.pool[b].vertexID;
    s.(pool := s.pool[b := Chunked(s.pool[b], es)], outDegree := s.outDegree[v := s.outDegree[v] + |es|], inDegree := Bumped(s.inDegree, es), loc := loc)
  }

  lemma ChunkIs(s: Store, b: nat, es: seq<Slot>, loc: map<Key, Loc>)
    requires b < |s.pool| && |es| <= |s.pool[b].edges| && 0 <= s.pool[b].vertexID < |s.outDegree|
    ensures var s', v := ChunkStore(s, b, es, loc), s.pool[b].vertexID;
      && s'.pool == s.pool[b := Chunked(s.pool[b], es)] && s'.tail == s.tail && s'.first == s.first && s'.eta == s.eta && s'.chains == s.chains
      && s'.outDegree == s.outDegree[v := s.outDegree[v] + |es|] && s'.inDegree == Bumped(s.inDegree, es) && s'.loc == loc
  {
    hide Chunked, Loaded, Bumped;
  }

  lemma ChunkNone(s: Store, b: nat)
    requires b < |s.pool| && 0 <= s.pool[b].vertexID < |s.outDegree|
    ensures ChunkStore(s, b, [], s.loc) == s
  {
    assert s.pool[b := s.pool[b]] == s.pool;
    var v := s.pool[b].vertexID;
    assert s.outDegree[v := s.outDegree[v] + 0] == s.outDegree;
    hide Loaded;
  }

  // An empty block, ready for entries of its vertex.
  ghost predicate Ready(s: Store, b: nat, es: seq<Slot>, nv: nat, ntypes: nat) {
    && StoreOk(s, nv, ntypes) && 0 < b < s.tail && b < |s.pool| && s.pool[b].high == 0 && s.pool[b].numEdges == 0 && |es| <= EDGEBLOCKSIZE
    && (forall q | 0 <= q < |es| :: EntryFits(es[q], s.pool[b].vertexID, nv))
    && NewKeys(Edges(s), s.pool[b].etype, s.pool[b].vertexID, es)
  }

  lemma ReadyFacts(s: Store, b: nat, es: seq<Slot>, nv: nat, ntypes: nat)
    requires Ready(s, b, es, nv, ntypes)
    ensures StoreOk(s, nv, ntypes) && 0 < b < s.tail && b < |s.pool| && BlockOk(s.pool[b], nv, ntypes)
    ensures |es| <= EDGEBLOCKSIZE == |s.pool[b].edges| && 0 <= s.pool[b].vertexID < nv == |s.outDegree| == |s.inDegree|
    ensures s.pool[b].high == 0 && s.pool[b].numEdges == 0
    ensures forall q | 0 <= q < |es| :: EntryFits(es[q], s.pool[b].vertexID, nv)
    ensures forall q | 0 <= q < |es| :: es[q].neighbor >= 0
  {
    hide StoreOk, LinksOk, EtaOk, BlocksOk, LocOk, CountsOk, DegreesOk, BlockOk, NewKeys, Edges;
    StoreElim(s, nv, ntypes);
    BlockFacts(s, nv, ntypes, b);
  }

  lemma ReadyLess(s: Store, b: nat, es: seq<Slot>, nv: nat, ntypes: nat)
    requires Ready(s, b, es, nv, ntypes) && es != []
    ensures Ready(s, b, es[..|es| - 1], nv, ntypes)
  {
    hide StoreOk, EntryFits, Edges;
    assert forall q | 0 <= q < |es| - 1 :: es[..|es| - 1][q] == es[q];
  }

  // The last entry of a chunk is not in the map with those before it.
  lemma LastIsNew(s: Store, b: nat, es: seq<Slot>, nv: nat, ntypes: nat)
    requires Ready(s, b, es, nv, ntypes) && es != []
    ensures Key(s.pool[b].etype, s.pool[b].vertexID, es[|es| - 1].neighbor) !in WithEntries(Edges(s), s.pool[b].etype, s.pool[b].vertexID, es[..|es| - 1])
  {
    var n := |es| - 1;
    WithEntriesIs(Edges(s), s.pool[b].etype, s.pool[b].vertexID, es[..n], Key(s.pool[b].etype, s.pool[b].vertexID, es[n].neighbor));
  }

  /** An empty block takes a chunk, one entry after another. */
  lemma {:induction false} StoreChunk(s: Store, b: nat, es: seq<Slot>, nv: nat, ntypes: nat) returns (s': Store)
    requires Ready(s, b, es, nv, ntypes)
    ensures b < |s.pool| && |es| <= |s.pool[b].edges| && 0 <= s.pool[b].vertexID < |s.outDegree|
    ensures StoreOk(s', nv, ntypes) && s' == ChunkStore(s, b, es, s'.loc)
    ensures Edges(s') == WithEntries(Edges(s), s.pool[b].etype, s.pool[b].vertexID, es)
  {
    hide *;
    ReadyFacts(s, b, es, nv, ntypes);
    var block := s.pool[b];
    if es == [] {
      s' := s;
      ChunkNone(s, b);
      WithNone(Edges(s), block.etype, block.vertexID);
    } else {
      var n := |es| - 1;
      ReadyLess(s, b, es, nv, ntypes);
      var s1 := StoreChunk(s, b, es[..n], nv, ntypes);
      ChunkIs(s, b, es[..n], s1.loc);
      assert es == es[..n] + [es[n]];
      ChunkedOk(block, es, nv, ntypes);
      ChunkedPuts(block, es[..n], es[n], nv, ntypes);
      assert Chunked(block, es).etype == block.etype && Chunked(block, es).vertexID == block.vertexID by { ChunkedHeader(block, es); }
      LastIsNew(s, b, es, nv, ntypes);
      EdgesKeys(s1);
      EntryBounds(es[n], block.vertexID, nv);
      StorePut(s1, nv, ntypes, b, n, Chunked(block, es), es[n]);
      s' := PutStore(s1, b, n, Chunked(block, es));
      PutIs(s1, b, n, Chunked(block, es));
      ChunkNext(s, b, es, s1, s', nv, ntypes);
      WithNext(Edges(s), block.etype, block.vertexID, es);
    }
  }

  lemma EntryBounds(e: Slot, v: int, nv: nat)
    requires EntryFits(e, v, nv)
    ensures 0 <= e.neighbor < nv
  {
  }

  lemma WithNone(m: map<Key, Val>, etype: int, v: int)
    ensures WithEntries(m, etype, v, []) == m
  {
  }

  lemma WithNext(m: map<Key, Val>, etype: int, v: int, es: seq<Slot>)
    requires es != []
    ensures var e := es[|es| - 1];
      WithEntries(m, etype, v, es) == WithEntries(m, etype, v, es[..|es| - 1])[Key(etype, v, e.neighbor) := Val(e.weight, e.timeFirst, e.timeRecent)]
  {
  }

  lemma ChunkedHeader(block: Block, es: seq<Slot>)
    requires |es| <= |block.edges|
    ensures Chunked(block, es).etype == block.etype && Chunked(block, es).vertexID == block.vertexID && Chunked(block, es).next == block.next
  {
  }

  lemma ChunkNext(s: Store, b: nat, es: seq<Slot>, s1: Store, s': Store, nv: nat, ntypes: nat)
    requires b < |s.pool| && 0 < |es| <= |s.pool[b].edges| && 0 <= s.pool[b].vertexID < |s.outDegree| && 0 <= es[|es| - 1].neighbor < |s.inDegree|
    requires s1 == ChunkStore(s, b, es[..|es| - 1], s1.loc) && |es| - 1 < |Chunked(s.pool[b], es).edges| && Chunked(s.pool[b], es).vertexID == s.pool[b].vertexID
    requires Chunked(s.pool[b], es).edges[|es| - 1] == es[|es| - 1]
    requires s' == PutStore(s1, b, |es| - 1, Chunked(s.pool[b], es))
    ensures s' == ChunkStore(s, b, es, s'.loc)
  {
    hide Chunked;
    assert s.pool[b := Chunked(s.pool[b], es[..|es| - 1])][b := Chunked(s.pool[b], es)] == s.pool[b := Chunked(s.pool[b], es)];
  }
}
