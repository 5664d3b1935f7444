/**
 Loading as a whole, when the stamp ranges come out right, and the round trip: the arrays built from
 a store, loaded type by type into an empty one, give the same edges and degrees back.
 */
module CsrRestore {
  import opened EdgeBlocks
  import opened EdgeStore
  import opened CsrBuild
  import opened CsrRows
  import opened CsrBlocks
  import opened CsrLoad
  import opened CsrRoom

  // ---------------------------------------------------------------- blocks to come

  // Blocks that no chain has reached do not matter.
  lemma StoreSuffix(s: Store, nv: nat, ntypes: nat, pool': seq<Block>)
    requires StoreOk(s, nv, ntypes) && s.tail <= |pool'| && s.tail <= |s.pool| && forall b | 0 <= b < s.tail :: pool'[b] == s.pool[b]
    ensures StoreOk(s.(pool := pool'), nv, ntypes) && Edges(s.(pool := pool')) == Edges(s)
  {
    hide *;
    var x := s.(pool := pool');
    StoreElim(s, nv, ntypes);
    SuffixLinks(s, pool');
    SuffixLoc(s, pool');
    SuffixBlocks(s, nv, ntypes, pool');
    StoreIntro(x, nv, ntypes);
  }

  lemma SuffixLinks(s: Store, pool': seq<Block>)
    requires s.tail <= |pool'| && s.tail <= |s.pool| && forall b | 0 <= b < s.tail :: pool'[b] == s.pool[b]
    requires LinksOk(s.pool, s.tail, s.first, s.chains) && EtaOk(s.pool, s.tail, s.eta)
    ensures LinksOk(pool', s.tail, s.first, s.chains) && EtaOk(pool', s.tail, s.eta)
  {
    SuffixEta(s, pool');
    forall v: nat | v < |s.first| ensures Chained(pool', s.tail, s.first[v], s.chains[v], v) {
      assert Chained(s.pool, s.tail, s.first[v], s.chains[v], v);
    }
    hide EtaOk;
    LinksIntro(pool', s.tail, s.first, s.chains);
  }

  lemma SuffixEta(s: Store, pool': seq<Block>)
    requires s.tail <= |pool'| && s.tail <= |s.pool| && forall b | 0 <= b < s.tail :: pool'[b] == s.pool[b]
    requires EtaOk(s.pool, s.tail, s.eta)
    ensures EtaOk(pool', s.tail, s.eta)
  {
  }

  lemma SuffixLoc(s: Store, pool': seq<Block>)
    requires s.tail <= |pool'| && s.tail <= |s.pool| && forall b | 0 <= b < s.tail :: pool'[b] == s.pool[b]
    requires LocOk(s.pool, s.tail, s.loc) && CountsOk(s.pool, s.tail, s.loc)
    ensures LocOk(pool', s.tail, s.loc) && CountsOk(pool', s.tail, s.loc) && Edges(s.(pool := pool')) == Edges(s)
  {
    forall b: nat, k: nat ensures LiveAt(pool', s.tail, b, k) <==> LiveAt(s.pool, s.tail, b, k) {}
    forall b: nat, k: nat | LiveAt(s.pool, s.tail, b, k) ensures KeyAt(pool', b, k) == KeyAt(s.pool, b, k) {}
    forall key | key in s.loc ensures ValAt(pool', s.loc[key]) == ValAt(s.pool, s.loc[key]) {}
  }

  lemma SuffixBlocks(s: Store, nv: nat, ntypes: nat, pool': seq<Block>)
    requires s.tail <= |pool'| && s.tail <= |s.pool| && forall b | 0 <= b < s.tail :: pool'[b] == s.pool[b]
    requires BlocksOk(s.pool, s.tail, nv, ntypes)
    ensures BlocksOk(pool', s.tail, nv, ntypes)
  {
    hide BlockOk;
  }

  // ---------------------------------------------------------------- stamps

  // The stamps computed for a chunk cover all stamps in it.
  predicate Covers(es: seq<Slot>) {
    forall q | 0 <= q < |es| :: Least(es) <= es[q].timeRecent && es[q].timeFirst <= Most(es)
  }

  // The i-th block's worth of entries of a row.
  predicate PieceCovers(row: seq<Slot>, i: nat) {
    var at := EDGEBLOCKSIZE * i;
    at < |row| ==> Covers(row[at..if at + EDGEBLOCKSIZE >= |row| then |row| else at + EDGEBLOCKSIZE])
  }

  predicate PieceFits(off: seq<int>, ents: seq<Slot>, v: nat, i: nat) {
    v + 1 < |off| && RowFits(off, v, |ents|) && PieceCovers(Row(off, ents, v), i)
  }

  // Every block's worth of every row is covered.
  ghost predicate StampsFit(off: seq<int>, ents: seq<Slot>, n: nat) {
    forall v: nat, i: nat | v < n :: PieceFits(off, ents, v, i)
  }

  /** Entries whose first stamp is no later than their recent one always fit. */
  lemma OrderedFit(off: seq<int>, ents: seq<Slot>, n: nat)
    requires Rows(off, n, |ents|) && forall q | 0 <= q < |ents| :: ents[q].timeFirst <= ents[q].timeRecent
    ensures StampsFit(off, ents, n)
  {
    hide PieceCovers;
    forall v: nat, i: nat | v < n ensures PieceFits(off, ents, v, i) {
      RowAt(off, ents, n, v);
      OrderedPiece(Row(off, ents, v), i);
    }
  }

  lemma OrderedPiece(row: seq<Slot>, i: nat)
    requires forall q | 0 <= q < |row| :: row[q].timeFirst <= row[q].timeRecent
    ensures PieceCovers(row, i)
  {
    hide Least, Most;
    var at := EDGEBLOCKSIZE * i;
    if at < |row| { LeastMost(row[at..if at + EDGEBLOCKSIZE >= |row| then |row| else at + EDGEBLOCKSIZE]); }
  }

  lemma RowAt(off: seq<int>, ents: seq<Slot>, n: nat, v: nat)
    requires Rows(off, n, |ents|) && v < n
    ensures RowFits(off, v, |ents|) && forall q | 0 <= q < |Row(off, ents, v)| :: Row(off, ents, v)[q] in ents
  {
  }

  // A block that holds a chunk has the range of its edges exactly when the stamps computed cover the chunk.
  lemma HeldRanged(block: Block, es: seq<Slot>)
    requires Holds(block, es) && forall q | 0 <= q < |es| :: es[q].neighbor >= 0
    ensures Ranged(block) <==> Covers(es)
  {
    LeastMost(es);
    hide Least, Most;
    forall k: nat ensures Live(block, k) <==> k < |es| {
      if k < |es| { assert block.edges[..|es|][k] == es[k]; }
    }
    forall q | 0 <= q < |es| ensures block.edges[q] == es[q] && Live(block, q) { assert block.edges[..|es|][q] == es[q]; }
  }

  // The vertex whose block k is.
  lemma {:induction false} BlockOwner(pl: Plan, nv: nat, ntypes: nat, k: nat, n: nat) returns (v: nat)
    requires PlanOk(pl, nv, ntypes) && n <= pl.n && |pl.blkoff| == pl.n + 1 && k < pl.blkoff[n]
    ensures v < n && Blocks(pl, v, k)
  {
    if n == 0 {
      BlkNone(pl, nv, ntypes);
      assert false;
    } else if k >= pl.blkoff[n - 1] {
      v := n - 1;
    } else {
      v := BlockOwner(pl, nv, ntypes, k, n - 1);
    }
  }

  // A chunk is a piece of its row.
  lemma SliceOfSlice<T>(s: seq<T>, a: nat, b: nat, i: nat, j: nat)
    requires a <= b <= |s| && i <= j <= b - a
    ensures s[a..b][i..j] == s[a + i..a + j]
  {
    var t := s[a..b];
    assert forall q | 0 <= q < |t| :: t[q] == s[a + q];
    assert forall q | 0 <= q < j - i :: t[i..j][q] == t[i + q];
  }

  lemma {:induction false} ChunkIsPiece(pl: Plan, nv: nat, ntypes: nat, v: nat, k: nat)
    requires PlanOk(pl, nv, ntypes) && v < pl.n && Vertex(pl, v) && Blocks(pl, v, k) && RowFits(pl.off, v, |pl.ents|)
    requires 0 <= Before(pl, v, k) <= Before(pl, v, k + 1) <= |pl.ents|
    ensures PieceCovers(Row(pl.off, pl.ents, v), k - pl.blkoff[v]) <==> Covers(Chunk(pl, v, k))
    ensures forall q | 0 <= q < |Chunk(pl, v, k)| :: Chunk(pl, v, k)[q] in Row(pl.off, pl.ents, v)
  {
    ChunkFacts(pl, nv, ntypes, v, k);
    var row, at := Row(pl.off, pl.ents, v), EDGEBLOCKSIZE * (k - pl.blkoff[v]);
    var to := if at + EDGEBLOCKSIZE >= |row| then |row| else at + EDGEBLOCKSIZE;
    SliceOfSlice(pl.ents, pl.off[v], pl.off[v + 1], at, to);
    assert row[at..to] == Chunk(pl, v, k);
    hide Covers;
  }

  // Whether a loaded block's range is right comes down to its piece of the row.
  lemma LoadedBlock(pl: Plan, pool: seq<Block>, nv: nat, ntypes: nat, v: nat, k: nat)
    requires PlanOk(pl, nv, ntypes) && v < pl.n && Blocks(pl, v, k) && HoldsChunk(pl, pool, v, k)
    ensures pl.start + k < |pool| && RowFits(pl.off, v, |pl.ents|) && 0 <= pl.blkoff[v]
    ensures Ranged(pool[pl.start + k]) <==> PieceCovers(Row(pl.off, pl.ents, v), k - pl.blkoff[v])
  {
    hide *;
    VertexFacts(pl, nv, ntypes, v);
    VertexIs(pl, v);
    BlocksIs(pl, v, k);
    HoldsFacts(pl, pool, v, k);
    ChunkIsPiece(pl, nv, ntypes, v, k);
    RowTargets(Row(pl.off, pl.ents, v), v, nv);
    HeldRanged(pool[pl.start + k], Chunk(pl, v, k));
  }

  lemma PlanStart(pl: Plan, nv: nat, ntypes: nat)
    requires PlanOk(pl, nv, ntypes)
    ensures 0 < pl.start
  {
  }

  lemma HoldsFacts(pl: Plan, pool: seq<Block>, v: nat, k: nat)
    requires HoldsChunk(pl, pool, v, k)
    ensures v + 1 < |pl.off| && v + 1 < |pl.blkoff| && pl.start + k < |pool| && 0 <= Before(pl, v, k) <= Before(pl, v, k + 1) <= |pl.ents|
    ensures Holds(pool[pl.start + k], Chunk(pl, v, k))
  {
    hide Holds;
  }

  lemma RowTargets(row: seq<Slot>, v: int, nv: nat)
    requires RowOk(row, v, nv)
    ensures forall e | e in row :: e.neighbor >= 0
  {
  }

  lemma RangesIntro(pool: seq<Block>, tail: nat)
    requires tail <= |pool| && forall b | 0 < b < tail :: Ranged(pool[b])
    ensures RangesOk(pool, tail)
  {
    hide Ranged;
  }

  // The ranges of the old blocks and of the new ones.
  lemma BlocksVerdict(pl: Plan, pool: seq<Block>, pool0: seq<Block>, tail: nat, nv: nat, ntypes: nat)
    requires PlanOk(pl, nv, ntypes) && |pl.blkoff| == pl.n + 1 && tail == pl.start + pl.blkoff[pl.n] <= |pool|
    requires AllHold(pl, pool, pl.n) && pl.start <= |pool| && pl.start <= |pool0| && pool[..pl.start] == pool0[..pl.start] && 0 <= pl.blkoff[pl.n]
    requires Rows(pl.off, pl.n, |pl.ents|)
    ensures RangesOk(pool, tail) <==> RangesOk(pool0, pl.start) && StampsFit(pl.off, pl.ents, pl.n)
  {
    hide *;
    forall b: nat | 0 < b < pl.start ensures pool[b] == pool0[b] { assert pool[..pl.start][b] == pool0[..pl.start][b]; }
    if RangesOk(pool, tail) {
      forall b: nat | 0 < b < pl.start ensures Ranged(pool0[b]) { RangesAt(pool, tail, b); }
      RangesIntro(pool0, pl.start);
      forall v: nat, i: nat | v < pl.n ensures PieceFits(pl.off, pl.ents, v, i) {
        VertexFacts(pl, nv, ntypes, v);
        VertexIs(pl, v);
        PieceHas(pl, nv, ntypes, v, i);
        if Blocks(pl, v, pl.blkoff[v] + i) {
          BlocksIs(pl, v, pl.blkoff[v] + i);
          AllHoldAt(pl, pool, v, pl.blkoff[v] + i);
          PlanStart(pl, nv, ntypes);
          LoadedBlock(pl, pool, nv, ntypes, v, pl.blkoff[v] + i);
          BlkOrder(pl, nv, ntypes, v + 1, pl.n);
          RangesAt(pool, tail, pl.start + pl.blkoff[v] + i);
        }
        PieceIntro(pl.off, pl.ents, v, i);
      }
      FitIntro(pl.off, pl.ents, pl.n);
    }
    if RangesOk(pool0, pl.start) && StampsFit(pl.off, pl.ents, pl.n) {
      forall b: nat | 0 < b < tail ensures Ranged(pool[b]) {
        if b < pl.start {
          RangesAt(pool0, pl.start, b);
        } else {
          var v := BlockOwner(pl, nv, ntypes, b - pl.start, pl.n);
          BlocksIs(pl, v, b - pl.start);
          AllHoldAt(pl, pool, v, b - pl.start);
          LoadedBlock(pl, pool, nv, ntypes, v, b - pl.start);
          FitAt(pl.off, pl.ents, pl.n, v, b - pl.start - pl.blkoff[v]);
        }
      }
      RangesIntro(pool, tail);
    }
  }

  lemma AllHoldAt(pl: Plan, pool: seq<Block>, v: nat, k: nat)
    requires AllHold(pl, pool, pl.n) && v < pl.n && Blocks(pl, v, k)
    ensures HoldsChunk(pl, pool, v, k)
  {
  }

  lemma FitAt(off: seq<int>, ents: seq<Slot>, n: nat, v: nat, i: nat)
    requires StampsFit(off, ents, n) && v < n
    ensures v + 1 < |off| && RowFits(off, v, |ents|) && PieceCovers(Row(off, ents, v), i)
  {
    assert PieceFits(off, ents, v, i);
    hide PieceCovers;
  }

  lemma FitIntro(off: seq<int>, ents: seq<Slot>, n: nat)
    requires forall v: nat, i: nat | v < n :: PieceFits(off, ents, v, i)
    ensures StampsFit(off, ents, n)
  {
    hide PieceFits;
  }

  lemma PieceIntro(off: seq<int>, ents: seq<Slot>, v: nat, i: nat)
    requires v + 1 < |off| && RowFits(off, v, |ents|) && PieceCovers(Row(off, ents, v), i)
    ensures PieceFits(off, ents, v, i)
  {
  }

  // A piece that is not empty has a block.
  lemma PieceHas(pl: Plan, nv: nat, ntypes: nat, v: nat, i: nat)
    requires PlanOk(pl, nv, ntypes) && v < pl.n && Vertex(pl, v) && RowFits(pl.off, v, |pl.ents|)
    ensures Blocks(pl, v, pl.blkoff[v] + i) || PieceCovers(Row(pl.off, pl.ents, v), i)
  {
    BlockOffsetsAt(pl.off, pl.n, |pl.ents|, pl.blkoff, v);
    hide Covers;
  }

  // ---------------------------------------------------------------- loading

  // The store with the new blocks allocated and no vertex loaded yet.
  lemma LoadingStarts(pl: Plan, s0: Store, pool: seq<Block>, outDegree: seq<int>, nv: nat, ntypes: nat) returns (s: Store)
    requires PlanOk(pl, nv, ntypes) && StoreOk(s0, nv, ntypes) && s0.tail == pl.start && |pool| == |s0.pool|
    requires s0.tail <= |pool| && pool[..s0.tail] == s0.pool[..s0.tail] && Allocated(pl, pool, 0) && Ahead(pl, outDegree, s0.outDegree, 0)
    requires forall key | key in Edges(s0) :: key.etype != pl.etype
    requires |pl.blkoff| == pl.n + 1 && 0 <= pl.blkoff[pl.n] && pl.start + pl.blkoff[pl.n] <= |pool|
    ensures Stage(pl, s, Edges(s0), s0.eta, 0, nv, ntypes) && Follows(pl, pool, s0.first, outDegree, s0.inDegree, s, 0) && AllHold(pl, pool, 0)
    ensures s.loc == s0.loc && s.outDegree == s0.outDegree
  {
    hide *;
    StoreElim(s0, nv, ntypes);
    forall b | 0 <= b < s0.tail ensures pool[b] == s0.pool[b] { assert pool[..s0.tail][b] == s0.pool[..s0.tail][b]; }
    StoreSuffix(s0, nv, ntypes, pool);
    s := s0.(pool := pool);
    BlkNone(pl, nv, ntypes);
    AheadSize(pl, outDegree, s0.outDegree);
    RangeNone(pl.start);
    PlanRows(pl, nv, ntypes);
    RowsNone(Edges(s0), pl.etype, pl.off, pl.ents);
    assert s0.eta[pl.etype] + [] == s0.eta[pl.etype];
    StageIntro(pl, s, Edges(s0), s0.eta, 0, nv, ntypes);
    FollowsIntro(pl, pool, s0.first, outDegree, s0.inDegree, s, 0);
    AllHoldNone(pl, pool);
  }

  lemma RangeNone(a: nat)
    ensures Range(a, 0) == []
  {
  }

  lemma PlanRows(pl: Plan, nv: nat, ntypes: nat)
    requires PlanOk(pl, nv, ntypes)
    ensures Rows(pl.off, pl.n, |pl.ents|) && pl.n < |pl.off| && pl.etype < ntypes && pl.n <= nv
  {
  }

  lemma RowsNone(m: map<Key, Val>, etype: int, off: seq<int>, ents: seq<Slot>)
    requires |off| > 0
    ensures Rows(off, 0, |ents|) && WithRows(m, etype, off, ents, 0) == m
  {
  }

  lemma AllHoldNone(pl: Plan, pool: seq<Block>)
    ensures AllHold(pl, pool, 0)
  {
  }

  // What the loaded store is, once its blocks are registered and nothing is left to count in.
  lemma LoadingEnds(pl: Plan, s: Store, m0: map<Key, Val>, eta0: seq<seq<nat>>, pool: seq<Block>, first: seq<nat>, outDegree: seq<int>, inDegree: seq<int>,
                    nv: nat, ntypes: nat, x: Store)
    requires Stage(pl, s, m0, eta0, pl.n, nv, ntypes) && Follows(pl, pool, first, outDegree, inDegree, s, pl.n)
    requires pl.etype < |eta0| && |pl.blkoff| == pl.n + 1 && 0 <= pl.blkoff[pl.n]
    requires x == Store(pool, pl.start + pl.blkoff[pl.n], first, outDegree, inDegree, eta0[pl.etype := eta0[pl.etype] + Range(pl.start, pl.blkoff[pl.n])], s.chains, s.loc)
    ensures StoreOk(s, nv, ntypes) && x == s
    ensures Rows(pl.off, pl.n, |pl.ents|) && Edges(x) == WithRows(m0, pl.etype, pl.off, pl.ents, pl.n)
  {
    hide *;
    StageFacts(pl, s, m0, eta0, pl.n, nv, ntypes);
    FollowsFacts(pl, pool, first, outDegree, inDegree, s, pl.n);
    AheadNone(pl, outDegree, s.outDegree);
  }

  lemma AheadSize(pl: Plan, outDegree: seq<int>, degree: seq<int>)
    requires Ahead(pl, outDegree, degree, 0)
    ensures |outDegree| == |degree|
  {
  }

  lemma StateIs(g: Stinger)
    ensures g.State() == Store(g.pool[..], g.tail, g.first[..], g.outDegree[..], g.inDegree[..], g.eta[..], g.chains, g.loc)
    ensures g.Contents() == Edges(g.State()) && (g.Valid() <==> g.outDegree != g.inDegree && StoreOk(g.State(), g.nv, g.ntypes))
    ensures g.RangesCover() <==> RangesOk(g.pool[..], g.tail)
  {
  }

  lemma AheadNone(pl: Plan, outDegree: seq<int>, degree: seq<int>)
    requires Ahead(pl, outDegree, degree, pl.n)
    ensures outDegree == degree
  {
  }

  // All vertices, one after another.
  method LoadVertices(pool: array<Block>, first: array<nat>, inDegree: array<int>, pl: Plan, ghost s0: Store, ghost outDegree: seq<int>,
                      ghost m0: map<Key, Val>, ghost eta0: seq<seq<nat>>, ghost nv: nat, ghost ntypes: nat) returns (ghost s: Store)
    requires Stage(pl, s0, m0, eta0, 0, nv, ntypes) && Follows(pl, pool[..], first[..], outDegree, inDegree[..], s0, 0) && AllHold(pl, pool[..], 0)
    requires pl.start <= pool.Length
    modifies pool, first, inDegree
    ensures Stage(pl, s, m0, eta0, pl.n, nv, ntypes) && Follows(pl, pool[..], first[..], outDegree, inDegree[..], s, pl.n)
    ensures AllHold(pl, pool[..], pl.n) && pool[..pl.start] == old(pool[..pl.start])
  {
    hide *;
    s := s0;
    var v := 0;
    while v < pl.n
      invariant 0 <= v <= pl.n && Stage(pl, s, m0, eta0, v, nv, ntypes)
      invariant Follows(pl, pool[..], first[..], outDegree, inDegree[..], s, v) && AllHold(pl, pool[..], v) && pool[..pl.start] == old(pool[..pl.start])
    {
      s := LoadVertex(pool, first, inDegree, pl, v, s, outDegree, m0, eta0, nv, ntypes);
      v := v + 1;
    }
  }

  /**
   stinger_set_initial_edges, on a store without edges of this type: the rows join the map, whatever
   else the store holds, and the store stays sound; its stamp ranges are right exactly when they were
   and each block's worth of entries fits the range computed for it.
   */
  method SetInitialEdges(g: Stinger, n: nat, etype: nat, off: seq<int>, ents: seq<Slot>) returns (aborted: bool)
    requires g.Valid() && etype < g.ntypes && n <= g.nv && RowsOk(off, ents, n, g.nv) && forall key | key in g.Contents() :: key.etype != etype
    modifies g, g.pool, g.first, g.outDegree, g.inDegree, g.eta
    ensures Rows(off, n, |ents|) && (aborted <==> n > 0 && old(g.tail) + BlkStart(off, n, |ents|, n) >= g.pool.Length)
    ensures !aborted ==> g.tail == old(g.tail) + BlkStart(off, n, |ents|, n)
    ensures !aborted ==> g.Valid() && g.Contents() == WithRows(old(g.Contents()), etype, off, ents, n)
    ensures !aborted ==> (g.RangesCover() <==> old(g.RangesCover()) && StampsFit(off, ents, n))
    ensures g.maxActive == n - 1 && g.totalWeight == old(g.totalWeight)
  {
    hide *;
    RowsOkRows(off, ents, n, g.nv);
    StateIs(g);
    StoreElim(g.State(), g.nv, g.ntypes);
    ghost var s0, nv, ntypes := g.State(), g.nv, g.ntypes;
    aborted := false;
    g.maxActive := n - 1;
    var blkoff := CountBlocksFor(off, n, |ents|);
    var pl := Plan(off, n, ents, etype, blkoff[..], g.tail);
    PlanIntro(pl, nv, ntypes);
    BlkTotal(pl, nv, ntypes);
    AddDegrees(g.outDegree, pl);
    var neb := blkoff[n];
    if n >= 1 {
      if g.tail + neb >= g.pool.Length { return true; }
      g.tail := g.tail + neb;
    }
    NewBlocks(g.pool, pl, nv, ntypes);
    ghost var s1 := LoadingStarts(pl, s0, g.pool[..], g.outDegree[..], nv, ntypes);
    ghost var s := LoadVertices(g.pool, g.first, g.inDegree, pl, s1, g.outDegree[..], Edges(s0), s0.eta, nv, ntypes);
    if neb != 0 { g.eta[etype] := g.eta[etype] + Range(pl.start, neb); }
    RangeNone(pl.start);
    g.chains, g.loc := s.chains, s.loc;
    assert s0.eta[etype] + [] == s0.eta[etype];
    assert g.eta[..] == s0.eta[etype := s0.eta[etype] + Range(pl.start, neb)];
    StateIs(g);
    LoadingEnds(pl, s, Edges(s0), s0.eta, g.pool[..], g.first[..], g.outDegree[..], g.inDegree[..], nv, ntypes, g.State());
    StoreElim(g.State(), nv, ntypes);
    BlocksVerdict(pl, g.pool[..], s0.pool, g.tail, nv, ntypes);
  }

  lemma RowsOkRows(off: seq<int>, ents: seq<Slot>, n: nat, nv: nat)
    requires RowsOk(off, ents, n, nv)
    ensures Rows(off, n, |ents|) && n < |off|
  {
    hide RowOk;
  }

  lemma PlanIntro(pl: Plan, nv: nat, ntypes: nat)
    requires BlockOffsets(pl.off, pl.n, |pl.ents|, pl.blkoff) && RowsOk(pl.off, pl.ents, pl.n, nv) && pl.n <= nv && pl.etype < ntypes && 0 < pl.start
    ensures PlanOk(pl, nv, ntypes)
  {
    hide BlockOffsets, RowsOk;
  }

  lemma BlkTotal(pl: Plan, nv: nat, ntypes: nat)
    requires PlanOk(pl, nv, ntypes)
    ensures |pl.blkoff| == pl.n + 1 && Rows(pl.off, pl.n, |pl.ents|) && pl.blkoff[pl.n] == BlkStart(pl.off, pl.n, |pl.ents|, pl.n) >= 0
    ensures pl.n == 0 ==> pl.blkoff[pl.n] == 0
  {
  }

  // ---------------------------------------------------------------- the round trip

  // No edge leaves a vertex from n on.
  ghost predicate LeavesBelow(m: map<Key, Val>, n: nat) {
    forall key | key in m :: key.from < n
  }

  lemma LeavesFrom(s: Store, t: nat, n: nat)
    requires LeavesBelow(Edges(s), n)
    ensures FromBelow(s.loc, t, n)
  {
    EdgesKeys(s);
  }

  /**
   The building half of stinger_save_to_file, type by type.  The arrays need only reach the first
   maxVtx vertices, if no edge leaves a later one.
   */
  method SaveTypes(g: Stinger, maxVtx: nat) returns (offs: seq<seq<int>>, entss: seq<seq<Slot>>)
    requires g.Valid() && LeavesBelow(g.Contents(), maxVtx)
    ensures |offs| == |entss| == g.ntypes && Saved(g.Contents(), offs, entss, maxVtx)
  {
    hide *;
    StateIs(g);
    StoreElim(g.State(), g.nv, g.ntypes);
    ghost var s := g.State();
    offs, entss := [], [];
    SavedNone(g.Contents(), maxVtx);
    var t := 0;
    while t < g.ntypes
      invariant 0 <= t <= g.ntypes == |g.eta[..]| && |offs| == |entss| == t && Saved(g.Contents(), offs, entss, maxVtx) && g.State() == s && s.eta == g.eta[..]
      invariant g.Contents() == Edges(s)
    {
      var offsets := new int[maxVtx + 2](_ => 0);
      LeavesFrom(s, t, maxVtx);
      var ents := BuildCsr(g.pool, g.eta[t], maxVtx, offsets, s, g.ntypes, t);
      StateIs(g);
      SavedNext(g.Contents(), offs, entss, maxVtx, offsets[..maxVtx + 1], ents[..]);
      offs, entss := offs + [offsets[..maxVtx + 1]], entss + [ents[..]];
      t := t + 1;
    }
  }

  lemma SavedNone(m: map<Key, Val>, nv: nat)
    ensures Saved(m, [], [], nv)
  {
  }

  lemma SavedNext(m: map<Key, Val>, offs: seq<seq<int>>, entss: seq<seq<Slot>>, nv: nat, off: seq<int>, ents: seq<Slot>)
    requires Saved(m, offs, entss, nv) && CsrOf(off, ents, nv, |offs|, m)
    ensures Saved(m, offs + [off], entss + [ents], nv)
  {
    hide CsrOf;
  }

  // The edges of types before t.
  ghost function UpTo(m: map<Key, Val>, t: int): map<Key, Val> { map key | key in m && key.etype < t :: m[key] }

  lemma UpToNext(m: map<Key, Val>, t: nat)
    ensures WithType(UpTo(m, t), m, t) == UpTo(m, t + 1) && forall key | key in UpTo(m, t) :: key.etype != t
  {
  }

  lemma UpToEnds(s: Store, nv: nat, ntypes: nat)
    requires StoreOk(s, nv, ntypes)
    ensures UpTo(Edges(s), 0) == map[] && UpTo(Edges(s), ntypes) == Edges(s)
  {
    hide *;
    EdgesKeys(s);
    forall key | key in Edges(s) ensures 0 <= key.etype < ntypes { LocFacts(s, nv, ntypes, key); }
    UpToAll(Edges(s), ntypes);
  }

  lemma UpToAll(m: map<Key, Val>, ntypes: nat)
    requires forall key | key in m :: 0 <= key.etype < ntypes
    ensures UpTo(m, 0) == map[] && UpTo(m, ntypes) == m
  {
  }

  // What was saved can be loaded.
  lemma SavedFits(s: Store, nv: nat, ntypes: nat, off: seq<int>, ents: seq<Slot>, n: nat, etype: nat)
    requires StoreOk(s, nv, ntypes) && CsrOf(off, ents, n, etype, Edges(s))
    ensures RowsOk(off, ents, n, nv)
  {
    hide StoreOk, CsrOf, RowOk;
    CsrRises(off, ents, n, etype, Edges(s));
    forall v: nat | v < n ensures RowOk(Row(off, ents, v), v, nv) {
      RowIs(off, ents, n, v, Edges(s), etype);
      SavedRow(s, nv, ntypes, Row(off, ents, v), v, etype);
    }
  }

  lemma SavedRow(s: Store, nv: nat, ntypes: nat, row: seq<Slot>, v: nat, etype: nat)
    requires StoreOk(s, nv, ntypes) && forall q | 0 <= q < |row| :: EntryOf(row[q], v, etype, Edges(s))
    requires forall q, r | 0 <= q < r < |row| :: row[q].neighbor != row[r].neighbor
    ensures RowOk(row, v, nv)
  {
    hide StoreOk;
    forall q | 0 <= q < |row| ensures EntryFits(row[q], v, nv) {
      var key := Key(etype, v, row[q].neighbor);
      assert EntryOf(row[q], v, etype, Edges(s));
      LocFacts(s, nv, ntypes, key);
      var l := s.loc[key];
      assert SlotOk(s.pool[l.b], l.k, nv);
    }
  }

  /**
   The loading half of stinger_open_from_file: one type after another into a new store.  It aborts
   exactly when the rows need as many blocks as the pool has left.
   */
  method LoadTypes(nv: nat, ntypes: nat, poolSize: nat, maxVtx: nat, offs: seq<seq<int>>, entss: seq<seq<Slot>>, ghost s0: Store)
    returns (h: Stinger, aborted: bool)
    requires poolSize > 0 && maxVtx <= nv && StoreOk(s0, nv, ntypes) && |offs| == |entss| == ntypes && Saved(Edges(s0), offs, entss, maxVtx)
    ensures fresh(h) && h.nv == nv && h.ntypes == ntypes && AllRows(offs, entss, maxVtx)
    ensures aborted <==> ntypes > 0 && maxVtx > 0 && 1 + BlocksNeeded(offs, entss, maxVtx, ntypes) >= poolSize
    ensures !aborted ==> h.Valid() && h.Contents() == Edges(s0)
    ensures !aborted ==> (h.RangesCover() <==> forall t: nat | t < ntypes :: StampsFit(offs[t], entss[t], maxVtx))
  {
    hide *;
    h := new Stinger(nv, ntypes, poolSize);
    StateIs(h);
    aborted := false;
    UpToEnds(s0, nv, ntypes);
    SavedRows(Edges(s0), offs, entss, maxVtx);
    BlocksNeededEmpty(offs, entss, maxVtx);
    var t := 0;
    while t < ntypes
      invariant 0 <= t <= ntypes && !aborted && fresh(h) && h.nv == nv && h.ntypes == ntypes && h.outDegree != h.inDegree
      invariant fresh(h.pool) && fresh(h.first) && fresh(h.outDegree) && fresh(h.inDegree) && fresh(h.eta) && h.pool.Length == poolSize
      invariant h.Valid() && h.Contents() == UpTo(Edges(s0), t)
      invariant h.RangesCover() <==> forall u: nat | u < t :: StampsFit(offs[u], entss[u], maxVtx)
      invariant h.tail == 1 + BlocksNeeded(offs, entss, maxVtx, t) && (t > 0 && maxVtx > 0 ==> h.tail < poolSize)
    {
      UpToNext(Edges(s0), t);
      SavedAt(Edges(s0), offs, entss, maxVtx, t);
      SavedFits(s0, nv, ntypes, offs[t], entss[t], maxVtx, t);
      RowsCarry(UpTo(Edges(s0), t), t, offs[t], entss[t], maxVtx, Edges(s0));
      BlocksNeededNext(offs, entss, maxVtx, t);
      aborted := SetInitialEdges(h, maxVtx, t, offs[t], entss[t]);
      if aborted { return; }
      t := t + 1;
    }
  }

  // A sound store's degrees follow from its edges.
  lemma SameDegrees(x: Store, y: Store, nv: nat, ntypes: nat)
    requires StoreOk(x, nv, ntypes) && StoreOk(y, nv, ntypes) && Edges(x) == Edges(y)
    ensures x.outDegree == y.outDegree && x.inDegree == y.inDegree
  {
    StoreElim(x, nv, ntypes);
    StoreElim(y, nv, ntypes);
    hide StoreOk, LinksOk, EtaOk, BlocksOk, LocOk, CountsOk;
    KeysDegrees(x.loc, y.loc, x.outDegree, x.inDegree, y.outDegree, y.inDegree);
  }

  lemma KeysDegrees(loc: map<Key, Loc>, loc': map<Key, Loc>, outDegree: seq<int>, inDegree: seq<int>, outDegree': seq<int>, inDegree': seq<int>)
    requires loc.Keys == loc'.Keys && DegreesOk(outDegree, inDegree, loc) && DegreesOk(outDegree', inDegree', loc') && |outDegree| == |outDegree'|
    ensures outDegree == outDegree' && inDegree == inDegree'
  {
    forall v: nat | v < |outDegree| ensures outDegree[v] == outDegree'[v] && inDegree[v] == inDegree'[v] {
      assert From(loc, v) == From(loc', v) && To(loc, v) == To(loc', v);
    }
  }

  // All edges of one type, when no edge is first seen after its last refresh.
  lemma OrderedSaved(m: map<Key, Val>, offs: seq<seq<int>>, entss: seq<seq<Slot>>, nv: nat, t: nat)
    requires Saved(m, offs, entss, nv) && t < |offs| && forall key | key in m :: m[key].timeFirst <= m[key].timeRecent
    ensures t < |entss| && StampsFit(offs[t], entss[t], nv)
  {
    hide Saved, CsrOf, PieceCovers;
    SavedAt(m, offs, entss, nv, t);
    forall v: nat, i: nat | v < nv ensures PieceFits(offs[t], entss[t], v, i) {
      RowIs(offs[t], entss[t], nv, v, m, t);
      CsrRises(offs[t], entss[t], nv, t, m);
      RowAt(offs[t], entss[t], nv, v);
      var row := Row(offs[t], entss[t], v);
      forall q | 0 <= q < |row| ensures row[q].timeFirst <= row[q].timeRecent { assert EntryOf(row[q], v, t, m); }
      OrderedPiece(row, i);
    }
  }

  /**
   Saving a store and loading it back gives the same map, weights and both stamps included, and the
   same degrees; the stamp ranges cover all edges when no edge's first stamp is after its recent one.  A
   pool with more room than the store has used always takes it.
   */
  method SaveAndLoad(g: Stinger, maxVtx: nat, poolSize: nat) returns (h: Stinger, aborted: bool)
    requires g.Valid() && poolSize > 0 && maxVtx <= g.nv && LeavesBelow(g.Contents(), maxVtx)
    ensures fresh(h) && h.nv == g.nv && h.ntypes == g.ntypes
    ensures g.tail < poolSize ==> !aborted
    ensures !aborted ==> h.Valid() && h.Contents() == g.Contents() && h.outDegree[..] == g.outDegree[..] && h.inDegree[..] == g.inDegree[..]
    ensures !aborted && (forall key | key in g.Contents() :: g.Contents()[key].timeFirst <= g.Contents()[key].timeRecent) ==> h.RangesCover()
  {
    hide *;
    StateIs(g);
    ghost var s0 := g.State();
    var offs, entss := SaveTypes(g, maxVtx);
    h, aborted := LoadTypes(g.nv, g.ntypes, poolSize, maxVtx, offs, entss, s0);
    StateIs(g);
    StateIs(h);
    RoomEnough(s0, g.nv, g.ntypes, offs, entss, maxVtx);
    if !aborted {
      SameDegrees(h.State(), s0, g.nv, g.ntypes);
      if forall key | key in s0.loc && key in Edges(s0) :: Edges(s0)[key].timeFirst <= Edges(s0)[key].timeRecent {
        EdgesKeys(s0);
        forall t: nat | t < g.ntypes ensures StampsFit(offs[t], entss[t], maxVtx) { OrderedSaved(Edges(s0), offs, entss, maxVtx, t); }
      }
    }
  }

  // ---------------------------------------------------------------- a store whose ranges do not come back right

  // The row of a vertex's only edge of a type.
  lemma LoneRow(off: seq<int>, ents: seq<Slot>, n: nat, m: map<Key, Val>, key: Key)
    requires CsrOf(off, ents, n, key.etype, m) && key in m
    requires forall other | other in m && other.etype == key.etype && other.from == key.from :: other == key
    ensures 0 <= key.from < n && Rows(off, n, |ents|) && key.from + 1 < |off| && RowFits(off, key.from, |ents|)
    ensures Row(off, ents, key.from) == [Slot(key.to, m[key].weight, m[key].timeFirst, m[key].timeRecent)]
  {
    var q: nat :| EntryAt(off, ents, key.from, q, key.to);
    CsrRises(off, ents, n, key.etype, m);
    RowIs(off, ents, n, key.from, m, key.etype);
    hide CsrOf;
    var row := Row(off, ents, key.from);
    assert row[q - off[key.from]] == ents[q];
    forall r | 0 <= r < |row| ensures row[r] == Slot(key.to, m[key].weight, m[key].timeFirst, m[key].timeRecent) {
      assert EntryOf(row[r], key.from, key.etype, m);
    }
    assert |row| > 1 ==> row[0].neighbor != row[1].neighbor;
  }

  /** An edge that is its vertex's only one of the type and first seen after its recent stamp never fits. */
  lemma LateFirst(off: seq<int>, ents: seq<Slot>, n: nat, m: map<Key, Val>, key: Key)
    requires CsrOf(off, ents, n, key.etype, m) && key in m
    requires forall other | other in m && other.etype == key.etype && other.from == key.from :: other == key
    requires m[key].timeRecent < m[key].timeFirst <= INT64_MAX
    ensures !StampsFit(off, ents, n)
  {
    LoneRow(off, ents, n, m, key);
    hide CsrOf, Rows;
    var row := Row(off, ents, key.from);
    assert row[..0] == [] && row[0..1] == row && Least(row[..0]) == INT64_MAX;
    assert Least(row) == m[key].timeFirst;
    assert !Covers(row);
    assert !PieceCovers(row, 0);
    assert !PieceFits(off, ents, key.from, 0);
  }

  /** Inserted at time 10 and again at time 5, saved and loaded: the same edge, outside its block's range. */
  method EarlierRefresh() returns (g: Stinger, h: Stinger)
    ensures g.Valid() && g.Contents() == map[Key(0, 0, 1) := Val(7, 10, 5)] && g.RangesCover()
    ensures h.Valid() && h.Contents() == g.Contents() && !h.RangesCover()
  {
    hide *;
    g := new Stinger(2, 1, 4);
    var rtn, aborted;
    InsertedTwice();
    ghost var pool0, tail0 := g.pool[..], g.tail;
    rtn, aborted := g.InsertEdge_(0, 0, 1, 7, 10);
    TookLate(g.RangesCover(), g.loc, Key(0, 0, 1), pool0, tail0, 10);
    pool0, tail0 := g.pool[..], g.tail;
    rtn, aborted := g.InsertEdge_(0, 0, 1, 7, 5);
    TookLate(g.RangesCover(), g.loc, Key(0, 0, 1), pool0, tail0, 5);
    StateIs(g);
    ghost var m, s0 := g.Contents(), g.State();
    LoneMap(m);
    var offs, entss := SaveTypes(g, 2);
    h, aborted := LoadTypes(2, 1, 4, 2, offs, entss, s0);
    StateIs(g);
    RoomEnough(s0, 2, 1, offs, entss, 2);
    SavedAt(m, offs, entss, 2, 0);
    LateFirst(offs[0], entss[0], 2, m, Key(0, 0, 1));
  }

  lemma InsertedTwice()
    ensures 5 != MARKER && 7 != MARKER && 10 != MARKER && 10 <= INT64_MAX
    ensures Inserted(map[], Key(0, 0, 1), 7, 10) == map[Key(0, 0, 1) := Val(7, 10, 10)]
    ensures Inserted(map[Key(0, 0, 1) := Val(7, 10, 10)], Key(0, 0, 1), 7, 5) == map[Key(0, 0, 1) := Val(7, 10, 5)]
  {
  }

  lemma LoneMap(m: map<Key, Val>)
    requires m == map[Key(0, 0, 1) := Val(7, 10, 5)]
    ensures LeavesBelow(m, 2) && forall other | other in m :: other == Key(0, 0, 1)
  {
  }
}
