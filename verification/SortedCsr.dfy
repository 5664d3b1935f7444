/**
 stinger_to_sorted_csr: every vertex's edges gathered from its chain and sorted through pointers, for
 any chains that end; and the search for self-edges and duplicates that completes the consistency check.
 */
module SortedCsr {
  import opened EdgeBlocks
  import opened EdgeStore
  import CsrBuild
  import opened ConsistencyCheck
  import Buckets

  // An entry of the arrays.
  datatype Adj = Adj(to: int, weight: int, timeFirst: int, timeRecent: int, etype: int)

  function AdjOf(block: Block, k: nat): Adj
    requires k < |block.edges|
  {
    var e := block.edges[k];
    Adj(e.neighbor, e.weight, e.timeFirst, e.timeRecent, block.etype)
  }

  // ---------------------------------------------------------------- the edges of a chain

  // The live slots among the first n of a block.
  function BlockRow(block: Block, n: nat): seq<Adj>
    requires n <= |block.edges|
  {
    if n == 0 then [] else BlockRow(block, n - 1) + if Live(block, n - 1) then [AdjOf(block, n - 1)] else []
  }

  // Those of the first n blocks of a chain.
  function ChainRow(pool: seq<Block>, chain: seq<nat>, n: nat): seq<Adj>
    requires n <= |chain|
  {
    if n == 0 then []
    else var block := BlockAt(pool, chain[n - 1]); ChainRow(pool, chain, n - 1) + BlockRow(block, |block.edges|)
  }

  function Row(s: Store, v: nat): seq<Adj> {
    if v < |s.chains| then ChainRow(s.pool, s.chains[v], |s.chains[v]|) else []
  }

  // How many entries lead to u.
  function CountTo(row: seq<Adj>, u: int): nat {
    if row == [] then 0 else CountTo(row[..|row| - 1], u) + if row[|row| - 1].to == u then 1 else 0
  }

  lemma {:induction false} CountJoin(a: seq<Adj>, b: seq<Adj>, u: int)
    ensures CountTo(a + b, u) == CountTo(a, u) + CountTo(b, u)
  {
    if b == [] {
      assert a + b == a;
    } else {
      assert (a + b)[..|a + b| - 1] == a + b[..|b| - 1];
      CountJoin(a, b[..|b| - 1], u);
    }
  }

  lemma {:induction false} BlockRowCounts(block: Block, n: nat, u: int)
    requires n <= |block.edges|
    ensures |BlockRow(block, n)| == LiveIn(block, n) && CountTo(BlockRow(block, n), u) == LiveTo(block, n, u)
  {
    if n > 0 {
      BlockRowCounts(block, n - 1, u);
      if Live(block, n - 1) {
        var x := [AdjOf(block, n - 1)];
        CountJoin(BlockRow(block, n - 1), x, u);
        assert x[..0] == [];
      } else {
        assert BlockRow(block, n - 1) + [] == BlockRow(block, n - 1);
      }
    }
  }

  /** The gathered entries are the live slots that the check counts along the chain. */
  lemma {:induction false} ChainRowCounts(pool: seq<Block>, chain: seq<nat>, n: nat, u: int)
    requires n <= |chain| && forall p | 0 <= p < n :: |BlockAt(pool, chain[p]).edges| == EDGEBLOCKSIZE
    ensures |ChainRow(pool, chain, n)| == ChainLive(pool, chain, n) && CountTo(ChainRow(pool, chain, n), u) == ChainTo(pool, chain, n, u)
  {
    if n > 0 {
      ChainRowCounts(pool, chain, n - 1, u);
      var block := BlockAt(pool, chain[n - 1]);
      BlockRowCounts(block, EDGEBLOCKSIZE, u);
      CountJoin(ChainRow(pool, chain, n - 1), BlockRow(block, EDGEBLOCKSIZE), u);
    }
    hide BlockAt, BlockRow, LiveIn, LiveTo, CountTo;
  }

  // What can be gathered: chains that end, of blocks with no more slots in use than they have.
  ghost predicate Gatherable(s: Store, nv: nat) {
    && Walkable(s, nv)
    && (forall b: nat | 0 < b < s.tail :: s.pool[b].high <= EDGEBLOCKSIZE)
    && (forall v: nat | v < nv :: 0 <= s.outDegree[v])
  }

  lemma RowCounts(s: Store, nv: nat, v: nat, u: int)
    requires Walkable(s, nv) && v < nv && v < |s.chains|
    ensures |Row(s, v)| == ChainLive(s.pool, s.chains[v], |s.chains[v]|) && CountTo(Row(s, v), u) == ChainTo(s.pool, s.chains[v], |s.chains[v]|, u)
  {
    WalkSizes(s, nv);
    forall p | 0 <= p < |s.chains[v]| ensures |BlockAt(s.pool, s.chains[v][p]).edges| == EDGEBLOCKSIZE { WalkStep(s, nv, v, p); }
    hide Walkable, BlockAt;
    ChainRowCounts(s.pool, s.chains[v], |s.chains[v]|, u);
  }

  // ---------------------------------------------------------------- gathering

  // The entries gathered so far, as far as there is room for them.
  predicate Gathered(out: seq<Adj>, o: nat, max: nat, row: seq<Adj>) {
    o + max <= |out| && (|row| <= max ==> out[o..o + |row|] == row)
  }

  lemma GatheredNext(out: seq<Adj>, o: nat, max: nat, row: seq<Adj>, x: Adj)
    requires Gathered(out, o, max, row)
    ensures Gathered(if |row| < max then out[o + |row| := x] else out, o, max, row + [x])
  {
    if |row| < max {
      var out' := out[o + |row| := x];
      assert out'[o..o + |row| + 1] == out'[o..o + |row|] + [x];
      assert out'[o..o + |row|] == out[o..o + |row|];
    }
  }

  lemma BlockRowNext(block: Block, i: nat)
    requires i < |block.edges|
    ensures BlockRow(block, i + 1) == BlockRow(block, i) + if Live(block, i) then [AdjOf(block, i)] else []
  {
  }

  // Slots that are not in use add nothing.
  lemma {:induction false} BlockRowRest(block: Block, n: nat)
    requires block.high <= n <= |block.edges|
    ensures BlockRow(block, n) == BlockRow(block, block.high)
    decreases n
  {
    if n > block.high { BlockRowRest(block, n - 1); }
  }

  // One block of the chain.
  method GatherBlock(block: Block, out: array<Adj>, o: nat, max: nat, kout0: nat, ghost row: seq<Adj>) returns (kout: nat)
    requires block.high <= |block.edges| && kout0 == |row| && Gathered(out[..], o, max, row)
    modifies out
    ensures kout == |row + BlockRow(block, |block.edges|)| && Gathered(out[..], o, max, row + BlockRow(block, |block.edges|))
    ensures forall q | 0 <= q < out.Length && !(o <= q < o + max) :: out[q] == old(out[q])
  {
    hide Gathered, BlockRow;
    GatheredRoom(out[..], o, max, row);
    kout := kout0;
    BlockRowNone(block);
    assert row + [] == row;
    var i: nat := 0;
    while i < block.high
      invariant i <= block.high && kout == |row + BlockRow(block, i)| && Gathered(out[..], o, max, row + BlockRow(block, i))
      invariant forall q | 0 <= q < out.Length && !(o <= q < o + max) :: out[q] == old(out[q])
    {
      BlockRowNext(block, i);
      ghost var now := row + BlockRow(block, i);
      if block.edges[i].neighbor >= 0 {
        var where := kout;
        kout := kout + 1;
        GatheredNext(out[..], o, max, now, AdjOf(block, i));
        assert row + (BlockRow(block, i) + [AdjOf(block, i)]) == now + [AdjOf(block, i)];
        if where < max { out[o + where] := AdjOf(block, i); }
      } else {
        assert BlockRow(block, i) + [] == BlockRow(block, i);
      }
      i := i + 1;
    }
    BlockRowRest(block, |block.edges|);
  }

  lemma BlockRowNone(block: Block)
    ensures BlockRow(block, 0) == []
  {
  }

  lemma GatheredRoom(out: seq<Adj>, o: nat, max: nat, row: seq<Adj>)
    requires Gathered(out, o, max, row)
    ensures o + max <= |out|
  {
  }

  lemma ChainRowNext(pool: seq<Block>, chain: seq<nat>, n: nat)
    requires n < |chain|
    ensures var block := BlockAt(pool, chain[n]); ChainRow(pool, chain, n + 1) == ChainRow(pool, chain, n) + BlockRow(block, |block.edges|)
    ensures ChainRow(pool, chain, 0) == []
  {
    hide BlockRow, BlockAt;
  }

  lemma HighBound(s: Store, nv: nat, b: nat)
    requires Gatherable(s, nv) && 0 < b < s.tail
    ensures b < |s.pool| && s.pool[b].high <= EDGEBLOCKSIZE == |s.pool[b].edges|
  {
    assert Scannable(s.pool[b], nv);
  }

  lemma ChainBelow(s: Store, nv: nat, v: nat, p: nat)
    requires Gatherable(s, nv) && v < nv && v < |s.chains| && p < |s.chains[v]|
    ensures 0 < s.chains[v][p] < s.tail
  {
    assert Chain(s.pool, s.tail, s.first[v], s.chains[v]);
    hide Scannable;
  }

  /** stinger_gather_successors: all edges of v, as many as there is room for. */
  method GatherSuccessors(g: Stinger, v: nat, out: array<Adj>, o: nat, max: nat, ghost s: Store) returns (outlen: nat)
    requires s == g.State() && Gatherable(s, g.nv) && v < g.nv && v < g.first.Length && v < |s.chains| && o + max <= out.Length
    modifies out
    ensures outlen == |Row(s, v)| && Gathered(out[..], o, max, Row(s, v))
    ensures forall q | 0 <= q < out.Length && !(o <= q < o + max) :: out[q] == old(out[q])
  {
    ghost var chain := s.chains[v];
    hide *;
    StateFields(g);
    GatherableWalks(s, g.nv);
    WalkStep(s, g.nv, v, 0);
    RowIs(s, v);
    GatheredNone(out[..], o, max);
    outlen := 0;
    var b := g.first[v];
    ghost var p: nat := 0;
    ChainRowNone(s.pool, chain);
    ghost var row: seq<Adj> := [];
    while b != 0
      invariant p <= |chain| && b == At(chain, p) && row == ChainRow(s.pool, chain, p) && outlen == |row| && Gathered(out[..], o, max, row)
      invariant forall q | 0 <= q < out.Length && !(o <= q < o + max) :: out[q] == old(out[q])
      decreases |chain| - p
    {
      GatherStep(s, g.nv, v, p);
      var block := g.pool[b];
      assert block == s.pool[b];
      outlen := GatherBlock(block, out, o, max, outlen, row);
      row := row + BlockRow(block, |block.edges|);
      b := block.next;
      p := p + 1;
    }
    GatherStep(s, g.nv, v, p);
  }

  // Where the walk along a chain stands.
  lemma GatherStep(s: Store, nv: nat, v: nat, p: nat)
    requires Gatherable(s, nv) && v < nv && v < |s.chains| && p <= |s.chains[v]|
    ensures var chain := s.chains[v];
      var b := At(chain, p);
      && (b == 0 <==> p == |chain|)
      && (b != 0 ==> b < |s.pool| && s.pool[b].high <= |s.pool[b].edges| && s.pool[b].next == At(chain, p + 1)
                     && ChainRow(s.pool, chain, p + 1) == ChainRow(s.pool, chain, p) + BlockRow(s.pool[b], |s.pool[b].edges|))
  {
    hide *;
    GatherableWalks(s, nv);
    WalkSizes(s, nv);
    WalkStep(s, nv, v, p);
    if p < |s.chains[v]| {
      ChainBelow(s, nv, v, p);
      HighBound(s, nv, s.chains[v][p]);
      ChainRowNext(s.pool, s.chains[v], p);
    }
  }

  lemma GatherableWalks(s: Store, nv: nat)
    requires Gatherable(s, nv)
    ensures Walkable(s, nv)
  {
    hide Walkable;
  }

  lemma GatheredNone(out: seq<Adj>, o: nat, max: nat)
    requires o + max <= |out|
    ensures Gathered(out, o, max, [])
  {
    assert out[o..o] == [];
  }

  lemma ChainRowNone(pool: seq<Block>, chain: seq<nat>)
    ensures ChainRow(pool, chain, 0) == []
  {
  }

  lemma RowIs(s: Store, v: nat)
    requires v < |s.chains|
    ensures Row(s, v) == ChainRow(s.pool, s.chains[v], |s.chains[v]|)
  {
    hide ChainRow;
  }

  // ---------------------------------------------------------------- rows one after another

  // The first n degrees together.
  function DegSum(deg: seq<int>, n: nat): int
    requires n <= |deg|
  {
    if n == 0 then 0 else DegSum(deg, n - 1) + deg[n - 1]
  }

  lemma {:induction false} DegSumOrder(deg: seq<int>, i: nat, j: nat)
    requires i <= j <= |deg| && forall v: nat | v < |deg| :: 0 <= deg[v]
    ensures 0 <= DegSum(deg, i) <= DegSum(deg, j)
    decreases j
  {
    if i < j { DegSumOrder(deg, i, j - 1); } else if i > 0 { DegSumOrder(deg, i - 1, i - 1); }
  }

  // Offsets of rows as long as the degrees say.
  ghost predicate OffsetsOf(deg: seq<int>, off: seq<int>, nv: nat) {
    nv <= |deg| && |off| == nv + 1 && forall v: nat | v <= nv :: off[v] == DegSum(deg, v)
  }

  // A row's place.
  lemma PlaceOf(deg: seq<int>, off: seq<int>, nv: nat, v: nat)
    requires OffsetsOf(deg, off, nv) && v < nv && forall u: nat | u < |deg| :: 0 <= deg[u]
    ensures |off| == nv + 1 && off[0] == 0 && 0 <= off[v] <= off[v + 1] <= off[nv] && off[v + 1] == off[v] + deg[v]
  {
    DegSumOrder(deg, 0, v);
    DegSumOrder(deg, v, v + 1);
    DegSumOrder(deg, v + 1, nv);
  }

  // Rows lie apart.
  lemma PlacesApart(deg: seq<int>, off: seq<int>, nv: nat, u: nat, v: nat)
    requires OffsetsOf(deg, off, nv) && u < v < nv && forall w: nat | w < |deg| :: 0 <= deg[w]
    ensures |off| == nv + 1 && off[u + 1] <= off[v]
  {
    DegSumOrder(deg, u + 1, v);
  }

  lemma DegSumNext(deg: seq<int>, n: nat)
    ensures DegSum(deg, 0) == 0 && (n < |deg| ==> DegSum(deg, n + 1) == DegSum(deg, n) + deg[n])
  {
  }

  // Out-degrees and their exclusive sums.
  method Offsets(g: Stinger, nv: nat) returns (off: array<int>, t: int)
    requires nv <= g.outDegree.Length
    ensures fresh(off) && OffsetsOf(g.outDegree[..], off[..], nv) && t == DegSum(g.outDegree[..], nv)
  {
    hide DegSum;
    ghost var deg := g.outDegree[..];
    DegSumNext(deg, 0);
    off := new int[nv + 1](_ => 0);
    var i := 0;
    while i < nv
      invariant 0 <= i <= nv
      invariant forall v | 0 <= v < i :: off[v] == deg[v]
    {
      off[i] := g.outDegree[i];
      i := i + 1;
    }
    t := 0;
    i := 0;
    while i < nv
      invariant 0 <= i <= nv && t == DegSum(deg, i)
      invariant forall v: nat | v < i :: off[v] == DegSum(deg, v)
      invariant forall v | i <= v < nv :: off[v] == deg[v]
    {
      DegSumNext(deg, i);
      var x := off[i];
      off[i] := t;
      t := t + x;
      i := i + 1;
    }
    off[nv] := t;
  }

  // Row v of the arrays.
  function RowIn(off: seq<int>, ents: seq<Adj>, v: nat): seq<Adj> {
    if v + 1 < |off| && 0 <= off[v] <= off[v + 1] <= |ents| then ents[off[v]..off[v + 1]] else []
  }

  // The first n vertices have their edges in their rows.
  ghost predicate RowsAre(s: Store, off: seq<int>, ents: seq<Adj>, n: nat) {
    n <= |s.outDegree| && forall v: nat | v < n :: s.outDegree[v] == |Row(s, v)| && RowIn(off, ents, v) == Row(s, v)
  }

  // The degrees of the first n vertices are those that their chains have.
  ghost predicate DegreesFit(s: Store, n: nat) {
    n <= |s.outDegree| && forall v: nat | v < n :: s.outDegree[v] == |Row(s, v)|
  }

  // One more row is in place.
  lemma RowsNext(s: Store, nv: nat, off: seq<int>, ents: seq<Adj>, ents': seq<Adj>, n: nat)
    requires OffsetsOf(s.outDegree, off, nv) && (forall v: nat | v < |s.outDegree| :: 0 <= s.outDegree[v]) && n < nv
    requires RowsAre(s, off, ents, n) && |ents| == |ents'| == off[nv] && 0 <= off[n] <= off[n + 1]
    requires forall q | 0 <= q < |ents| && !(off[n] <= q < off[n + 1]) :: ents'[q] == ents[q]
    requires Gathered(ents', off[n], off[n + 1] - off[n], Row(s, n)) && |Row(s, n)| == off[n + 1] - off[n]
    ensures RowsAre(s, off, ents', n + 1)
  {
    hide *;
    PlaceOf(s.outDegree, off, nv, n);
    OffsetsEnd(s.outDegree, off, nv);
    GatheredAll(off, ents', n, Row(s, n));
    forall v: nat | v < n ensures v < |s.outDegree| && s.outDegree[v] == |Row(s, v)| && RowIn(off, ents', v) == Row(s, v) {
      RowKept(s.outDegree, off, nv, ents, ents', n, v);
      RowsAt(s, off, ents, n, v);
    }
    RowsIntro(s, off, ents', n + 1);
  }

  lemma RowsIntro(s: Store, off: seq<int>, ents: seq<Adj>, n: nat)
    requires n <= |s.outDegree| && forall v: nat | v < n :: s.outDegree[v] == |Row(s, v)| && RowIn(off, ents, v) == Row(s, v)
    ensures RowsAre(s, off, ents, n)
  {
    hide Row, RowIn;
  }

  lemma GatheredAll(off: seq<int>, ents: seq<Adj>, v: nat, row: seq<Adj>)
    requires v + 1 < |off| && 0 <= off[v] <= off[v + 1] <= |ents|
    requires Gathered(ents, off[v], off[v + 1] - off[v], row) && |row| == off[v + 1] - off[v]
    ensures RowIn(off, ents, v) == row
  {
  }

  // What is written to one row leaves the others.
  lemma RowKept(deg: seq<int>, off: seq<int>, nv: nat, ents: seq<Adj>, ents': seq<Adj>, n: nat, v: nat)
    requires OffsetsOf(deg, off, nv) && (forall u: nat | u < |deg| :: 0 <= deg[u]) && n < nv && v < nv && v != n && |ents| == |ents'| == off[nv]
    requires forall q | 0 <= q < |ents| && !(off[n] <= q < off[n + 1]) :: ents'[q] == ents[q]
    ensures RowIn(off, ents', v) == RowIn(off, ents, v)
  {
    PlaceOf(deg, off, nv, v);
    PlaceOf(deg, off, nv, n);
    if v < n { PlacesApart(deg, off, nv, v, n); } else { PlacesApart(deg, off, nv, n, v); }
    hide OffsetsOf;
    assert ents'[off[v]..off[v + 1]] == ents[off[v]..off[v + 1]];
  }

  lemma StoreDegrees(g: Stinger, nv: nat)
    requires Gatherable(g.State(), nv)
    ensures g.State().outDegree == g.outDegree[..] && g.outDegree.Length == nv == |g.State().chains| == g.first.Length
    ensures forall v: nat | v < |g.State().outDegree| :: 0 <= g.State().outDegree[v]
  {
    WalkSizes(g.State(), nv);
    hide Walkable;
  }

  /** stinger_to_unsorted_csr: false stands for the failed assertion of a degree that is not that of the chain. */
  method ToUnsortedCsr(g: Stinger, nv: nat, ghost s: Store) returns (ok: bool, off: array<int>, ents: array<Adj>)
    requires s == g.State() && Gatherable(s, g.nv) && nv <= g.nv
    ensures fresh(off) && fresh(ents) && OffsetsOf(s.outDegree, off[..], nv) && ents.Length == off[nv]
    ensures ok ==> RowsAre(s, off[..], ents[..], nv)
    ensures ok <==> DegreesFit(s, nv)
  {
    hide *;
    StoreDegrees(g, g.nv);
    var t;
    off, t := Offsets(g, nv);
    ghost var offs := off[..];
    OffsetsEnd(s.outDegree, offs, nv);
    ents := new Adj[t](_ => Adj(0, 0, 0, 0, 0));
    RowsNone(s, offs, ents[..]);
    var i := 0;
    while i < nv
      invariant 0 <= i <= nv && off[..] == offs && RowsAre(s, offs, ents[..], i)
    {
      PlaceOf(s.outDegree, offs, nv, i);
      ghost var before := ents[..];
      var o := off[i];
      var md := off[i + 1] - o;
      var d := GatherSuccessors(g, i, ents, o, md, s);
      if d != md {
        NotFitting(s, nv, i);
        return false, off, ents;
      }
      RowsNext(s, nv, offs, before, ents[..], i);
      i := i + 1;
    }
    RowsFitting(s, offs, ents[..], nv);
    ok := true;
  }

  lemma OffsetsEnd(deg: seq<int>, off: seq<int>, nv: nat)
    requires OffsetsOf(deg, off, nv) && forall v: nat | v < |deg| :: 0 <= deg[v]
    ensures |off| == nv + 1 && off[nv] == DegSum(deg, nv) && 0 <= DegSum(deg, nv) && nv <= |deg|
  {
    DegSumOrder(deg, 0, nv);
  }

  lemma RowsNone(s: Store, off: seq<int>, ents: seq<Adj>)
    ensures RowsAre(s, off, ents, 0)
  {
  }

  lemma NotFitting(s: Store, nv: nat, v: nat)
    requires v < nv && v < |s.outDegree| && s.outDegree[v] != |Row(s, v)|
    ensures !DegreesFit(s, nv)
  {
    hide Row;
  }

  lemma RowsFitting(s: Store, off: seq<int>, ents: seq<Adj>, n: nat)
    requires RowsAre(s, off, ents, n)
    ensures DegreesFit(s, n)
  {
    hide Row, RowIn;
  }

  // ---------------------------------------------------------------- the comparison

  // A 64-bit number returned as an int.
  function Wrapped(x: int): int {
    var y := x % 0x1_0000_0000;
    if y < 0x8000_0000 then y else y - 0x1_0000_0000
  }

  // csr_cmp
  function CsrCmp(a: int, b: int): int { Wrapped(a - b) }

  // Vertices below n are compared as they are ordered.
  ghost predicate Compares(n: nat) {
    forall a: nat, b: nat | a < n && b < n :: (CsrCmp(a, b) < 0 <==> a < b) && (CsrCmp(a, b) > 0 <==> a > b)
  }

  /** The comparison is right for as many as 2^31 vertices and no more. */
  lemma ComparesExactly(n: nat)
    ensures Compares(n) <==> n <= 0x8000_0000
  {
    if n <= 0x8000_0000 {
      forall a: nat, b: nat | a < n && b < n ensures CsrCmp(a, b) == a - b {}
    } else {
      assert CsrCmp(0x8000_0000, 0) < 0;
    }
  }

  // ---------------------------------------------------------------- sorting through pointers

  predicate PointersIn(row: seq<Adj>, ps: seq<nat>) {
    forall j | 0 <= j < |ps| :: ps[j] < |row|
  }

  // What the pointers lead to.
  function Picked(row: seq<Adj>, ps: seq<nat>): (t: seq<Adj>)
    requires PointersIn(row, ps)
    ensures |t| == |ps| && forall j | 0 <= j < |ps| :: t[j] == row[ps[j]]
  {
    seq(|ps|, j requires 0 <= j < |ps| => row[ps[j]])
  }

  predicate Ascending(row: seq<Adj>) {
    forall p, q | 0 <= p < q < |row| :: row[p].to <= row[q].to
  }

  predicate Below(row: seq<Adj>, n: nat) {
    forall p | 0 <= p < |row| :: 0 <= row[p].to < n
  }

  lemma PickedInsert(row: seq<Adj>, ps: seq<nat>, p: nat, i: nat)
    requires PointersIn(row, ps) && p <= |ps| && i < |row| && multiset(Picked(row, ps)) == multiset(row[..i])
    ensures PointersIn(row, ps[..p] + [i] + ps[p..]) && multiset(Picked(row, ps[..p] + [i] + ps[p..])) == multiset(row[..i + 1])
  {
    var t := Picked(row, ps);
    assert Picked(row, ps[..p] + [i] + ps[p..]) == t[..p] + [row[i]] + t[p..];
    assert t == t[..p] + t[p..];
    assert row[..i + 1] == row[..i] + [row[i]];
  }

  lemma AscendingInsert(row: seq<Adj>, ps: seq<nat>, p: nat, i: nat)
    requires PointersIn(row, ps) && p <= |ps| && i < |row| && Ascending(Picked(row, ps))
    requires (forall j | 0 <= j < p :: row[ps[j]].to <= row[i].to) && (p < |ps| ==> row[i].to <= row[ps[p]].to)
    ensures PointersIn(row, ps[..p] + [i] + ps[p..]) && Ascending(Picked(row, ps[..p] + [i] + ps[p..]))
  {
    var t := Picked(row, ps);
    assert Picked(row, ps[..p] + [i] + ps[p..]) == t[..p] + [row[i]] + t[p..];
    assert forall j | 0 <= j < |ps| :: t[j] == row[ps[j]];
  }

  // Where the next pointer goes.
  method PlaceFor(row: seq<Adj>, ps: seq<nat>, i: nat) returns (p: nat)
    requires PointersIn(row, ps) && i < |row|
    ensures p <= |ps|
    ensures forall n: nat | Compares(n) && Below(row, n) ::
              (forall j | 0 <= j < p :: row[ps[j]].to <= row[i].to) && (p < |ps| ==> row[i].to <= row[ps[p]].to)
  {
    p := 0;
    while p < |ps| && CsrCmp(row[ps[p]].to, row[i].to) <= 0
      invariant 0 <= p <= |ps|
      invariant forall j | 0 <= j < p :: CsrCmp(row[ps[j]].to, row[i].to) <= 0
    {
      p := p + 1;
    }
    hide CsrCmp;
  }

  /** qsort of the pointers: any rearrangement, and an ascending one wherever the comparison is right. */
  method SortPointers(row: seq<Adj>) returns (ps: seq<nat>)
    ensures |ps| == |row| && PointersIn(row, ps) && multiset(Picked(row, ps)) == multiset(row)
    ensures forall n: nat | Compares(n) && Below(row, n) :: Ascending(Picked(row, ps))
  {
    hide Ascending, Below, Compares;
    ps := [];
    var i := 0;
    assert Picked(row, ps) == [] == row[..0];
    PickedNone(row);
    while i < |row|
      invariant 0 <= i <= |row| && |ps| == i && PointersIn(row, ps) && multiset(Picked(row, ps)) == multiset(row[..i])
      invariant forall n: nat | Compares(n) && Below(row, n) :: Ascending(Picked(row, ps))
    {
      var p := PlaceFor(row, ps, i);
      PickedInsert(row, ps, p, i);
      forall n: nat | Compares(n) && Below(row, n) ensures Ascending(Picked(row, ps[..p] + [i] + ps[p..])) { AscendingInsert(row, ps, p, i); }
      ps := ps[..p] + [i] + ps[p..];
      i := i + 1;
    }
    assert row[..i] == row;
  }

  lemma PickedNone(row: seq<Adj>)
    ensures PointersIn(row, []) && Ascending(Picked(row, []))
  {
  }

  /** One row: its pointers are sorted, and the arrays follow them through a buffer. */
  method SortRow(ents: array<Adj>, lo: nat, degree: nat)
    requires lo + degree <= ents.Length
    modifies ents
    ensures multiset(ents[lo..lo + degree]) == multiset(old(ents[lo..lo + degree]))
    ensures forall n: nat | Compares(n) && Below(old(ents[lo..lo + degree]), n) :: Ascending(ents[lo..lo + degree])
    ensures forall q | 0 <= q < ents.Length && !(lo <= q < lo + degree) :: ents[q] == old(ents[q])
  {
    ghost var row := ents[lo..lo + degree];
    var pointers := SortPointers(ents[lo..lo + degree]);
    hide Ascending, Below, Compares;
    var buffer := new Adj[degree](_ => Adj(0, 0, 0, 0, 0));
    var j := 0;
    while j < degree
      invariant 0 <= j <= degree && ents[..] == old(ents[..])
      invariant forall i | 0 <= i < j :: buffer[i] == row[pointers[i]]
    {
      buffer[j] := ents[lo + pointers[j]];
      j := j + 1;
    }
    j := 0;
    while j < degree
      invariant 0 <= j <= degree
      invariant forall i | 0 <= i < degree :: buffer[i] == row[pointers[i]]
      invariant forall i | 0 <= i < j :: ents[lo + i] == row[pointers[i]]
      invariant forall q | 0 <= q < ents.Length && !(lo <= q < lo + degree) :: ents[q] == old(ents[q])
    {
      ents[lo + j] := buffer[j];
      j := j + 1;
    }
    assert ents[lo..lo + degree] == Picked(row, pointers);
  }

  // ---------------------------------------------------------------- sorted rows

  // Row v has v's edges, and in order wherever the comparison is right.
  ghost predicate RowSorted(s: Store, nv: nat, row: seq<Adj>, v: nat) {
    multiset(row) == multiset(Row(s, v)) && (nv <= 0x8000_0000 ==> Ascending(row))
  }

  ghost predicate RowsSorted(s: Store, nv: nat, off: seq<int>, ents: seq<Adj>, n: nat) {
    forall v: nat | v < n :: RowSorted(s, nv, RowIn(off, ents, v), v)
  }

  lemma {:induction false} BlockRowBelow(block: Block, n: nat, nv: nat)
    requires Scannable(block, nv) && n <= |block.edges|
    ensures Below(BlockRow(block, n), nv)
  {
    if n > 0 { BlockRowBelow(block, n - 1, nv); }
  }

  lemma {:induction false} ChainRowBelow(s: Store, nv: nat, v: nat, n: nat)
    requires Gatherable(s, nv) && v < nv && v < |s.chains| && n <= |s.chains[v]|
    ensures Below(ChainRow(s.pool, s.chains[v], n), nv)
  {
    hide *;
    ChainRowNone(s.pool, s.chains[v]);
    BelowNone(nv);
    if n > 0 {
      ChainRowBelow(s, nv, v, n - 1);
      GatherableWalks(s, nv);
      WalkSizes(s, nv);
      WalkStep(s, nv, v, n - 1);
      var block := s.pool[s.chains[v][n - 1]];
      BlockRowBelow(block, |block.edges|, nv);
      ChainRowNext(s.pool, s.chains[v], n - 1);
      BelowJoin(ChainRow(s.pool, s.chains[v], n - 1), BlockRow(block, |block.edges|), nv);
    }
  }

  lemma BelowNone(n: nat)
    ensures Below([], n)
  {
  }

  lemma BelowJoin(a: seq<Adj>, b: seq<Adj>, n: nat)
    requires Below(a, n) && Below(b, n)
    ensures Below(a + b, n)
  {
  }

  // A gathered row, once sorted.
  lemma RowDone(s: Store, nv: nat, v: nat, row: seq<Adj>)
    requires Gatherable(s, nv) && v < nv && multiset(row) == multiset(Row(s, v))
    requires forall n: nat | Compares(n) && Below(Row(s, v), n) :: Ascending(row)
    ensures RowSorted(s, nv, row, v)
  {
    GatherableWalks(s, nv);
    WalkSizes(s, nv);
    RowIs(s, v);
    ChainRowBelow(s, nv, v, |s.chains[v]|);
    ComparesExactly(nv);
    hide Gatherable, Compares, Below, Ascending, Row, ChainRow;
  }

  /** stinger_to_sorted_csr */
  method ToSortedCsr(g: Stinger, nv: nat, ghost s: Store) returns (ok: bool, off: array<int>, ents: array<Adj>)
    requires s == g.State() && Gatherable(s, g.nv) && nv <= g.nv
    ensures fresh(off) && fresh(ents) && OffsetsOf(s.outDegree, off[..], nv) && ents.Length == off[nv]
    ensures ok <==> DegreesFit(s, nv)
    ensures ok ==> RowsSorted(s, g.nv, off[..], ents[..], nv)
  {
    hide *;
    StoreDegrees(g, g.nv);
    ok, off, ents := ToUnsortedCsr(g, nv, s);
    if !ok { return; }
    ghost var offs, ents0 := off[..], ents[..];
    RowsSortedNone(s, g.nv, offs, ents0);
    OffsetsEnd(s.outDegree, offs, nv);
    var i := 0;
    while i < nv
      invariant 0 <= i <= nv && off[..] == offs && ents.Length == off[nv]
      invariant RowsSorted(s, g.nv, offs, ents[..], i)
      invariant forall v: nat | i <= v < nv :: RowIn(offs, ents[..], v) == RowIn(offs, ents0, v)
    {
      PlaceOf(s.outDegree, offs, nv, i);
      ghost var before := ents[..];
      var lo := off[i];
      SortRow(ents, lo, off[i + 1] - lo);
      RowTurn(s, g.nv, nv, offs, ents0, before, ents[..], i);
      i := i + 1;
    }
  }

  lemma RowsSortedNone(s: Store, nv: nat, off: seq<int>, ents: seq<Adj>)
    ensures RowsSorted(s, nv, off, ents, 0)
  {
  }

  lemma RowTurn(s: Store, nv: nat, n: nat, off: seq<int>, ents0: seq<Adj>, ents: seq<Adj>, ents': seq<Adj>, i: nat)
    requires Gatherable(s, nv) && n <= nv && OffsetsOf(s.outDegree, off, n) && i < n && |ents| == |ents'| == off[n]
    requires 0 <= off[i] <= off[i + 1] <= |ents|
    requires RowsAre(s, off, ents0, n) && RowsSorted(s, nv, off, ents, i)
    requires forall v: nat | i <= v < n :: RowIn(off, ents, v) == RowIn(off, ents0, v)
    requires multiset(ents'[off[i]..off[i + 1]]) == multiset(ents[off[i]..off[i + 1]])
    requires forall k: nat | Compares(k) && Below(ents[off[i]..off[i + 1]], k) :: Ascending(ents'[off[i]..off[i + 1]])
    requires forall q | 0 <= q < |ents| && !(off[i] <= q < off[i + 1]) :: ents'[q] == ents[q]
    ensures RowsSorted(s, nv, off, ents', i + 1)
    ensures forall v: nat | i + 1 <= v < n :: RowIn(off, ents', v) == RowIn(off, ents0, v)
  {
    DegreesPositive(s, nv);
    forall v: nat | v < n && v != i ensures RowIn(off, ents', v) == RowIn(off, ents, v) { RowKept(s.outDegree, off, n, ents, ents', i, v); }
    RowsAt(s, off, ents0, n, i);
    RowInIs(off, ents, i);
    RowInIs(off, ents', i);
    hide *;
    RowDone(s, nv, i, RowIn(off, ents', i));
    forall v: nat | v < i ensures RowSorted(s, nv, RowIn(off, ents', v), v) { RowsSortedAt(s, nv, off, ents, i, v); }
    RowsSortedIntro(s, nv, off, ents', i + 1);
  }

  lemma DegreesPositive(s: Store, nv: nat)
    requires Gatherable(s, nv)
    ensures forall v: nat | v < |s.outDegree| :: 0 <= s.outDegree[v]
  {
    GatherableWalks(s, nv);
    WalkSizes(s, nv);
    hide Walkable;
  }

  lemma RowsAt(s: Store, off: seq<int>, ents: seq<Adj>, n: nat, v: nat)
    requires RowsAre(s, off, ents, n) && v < n
    ensures v < |s.outDegree| && s.outDegree[v] == |Row(s, v)| && RowIn(off, ents, v) == Row(s, v)
  {
    hide Row, RowIn;
  }

  lemma RowInIs(off: seq<int>, ents: seq<Adj>, v: nat)
    requires v + 1 < |off| && 0 <= off[v] <= off[v + 1] <= |ents|
    ensures RowIn(off, ents, v) == ents[off[v]..off[v + 1]]
  {
  }

  lemma RowsSortedAt(s: Store, nv: nat, off: seq<int>, ents: seq<Adj>, n: nat, v: nat)
    requires RowsSorted(s, nv, off, ents, n) && v < n
    ensures RowSorted(s, nv, RowIn(off, ents, v), v)
  {
    hide RowSorted, RowIn;
  }

  lemma RowsSortedIntro(s: Store, nv: nat, off: seq<int>, ents: seq<Adj>, n: nat)
    requires forall v: nat | v < n :: RowSorted(s, nv, RowIn(off, ents, v), v)
    ensures RowsSorted(s, nv, off, ents, n)
  {
    hide RowSorted, RowIn;
  }

  // ---------------------------------------------------------------- self-edges and duplicates

  lemma {:induction false} CountSame(a: seq<Adj>, b: seq<Adj>, u: int)
    requires multiset(a) == multiset(b)
    ensures CountTo(a, u) == CountTo(b, u)
    decreases |a|
  {
    if a == [] {
      assert |multiset(b)| == 0;
    } else {
      var n := |a| - 1;
      assert a[n] in multiset(b);
      var k :| 0 <= k < |b| && b[k] == a[n];
      Buckets.RestSame(a, b, k);
      assert a == a[..n] + [a[n]] && b == b[..k] + ([b[k]] + b[k + 1..]);
      CountSame(a[..n], b[..k] + b[k + 1..], u);
      CountJoin(b[..k], b[k + 1..], u);
      CountJoin(b[..k], [b[k]] + b[k + 1..], u);
      CountJoin([b[k]], b[k + 1..], u);
      assert [b[k]][..0] == [];
    }
  }

  // An entry is counted.
  lemma {:induction false} CountHas(row: seq<Adj>, p: nat, u: int)
    requires p < |row| && row[p].to == u
    ensures CountTo(row, u) >= 1
  {
    if p < |row| - 1 { CountHas(row[..|row| - 1], p, u); }
  }

  lemma {:induction false} CountWhere(row: seq<Adj>, u: int) returns (p: nat)
    requires CountTo(row, u) >= 1
    ensures p < |row| && row[p].to == u
  {
    var n := |row| - 1;
    if row[n].to == u { p := n; } else { p := CountWhere(row[..n], u); }
  }

  lemma CountTwo(row: seq<Adj>, p: nat, q: nat, u: int)
    requires p < q < |row| && row[p].to == u && row[q].to == u
    ensures CountTo(row, u) >= 2
  {
    assert row == row[..q] + row[q..];
    CountJoin(row[..q], row[q..], u);
    CountHas(row[..q], p, u);
    CountHas(row[q..], 0, u);
  }

  lemma {:induction false} CountTwice(row: seq<Adj>, u: int) returns (p: nat, q: nat)
    requires CountTo(row, u) >= 2
    ensures p < q < |row| && row[p].to == u && row[q].to == u
  {
    var n := |row| - 1;
    if row[n].to == u {
      q := n;
      p := CountWhere(row[..n], u);
    } else {
      p, q := CountTwice(row[..n], u);
    }
  }

  predicate Repeats(row: seq<Adj>) {
    exists j: nat :: j + 1 < |row| && row[j].to == row[j + 1].to
  }

  /** Neighbors in an ascending row are enough to find every duplicate. */
  lemma AdjacentSuffices(row: seq<Adj>)
    ensures Repeats(row) ==> exists u: int :: CountTo(row, u) > 1
    ensures Ascending(row) && (exists u: int :: CountTo(row, u) > 1) ==> Repeats(row)
  {
    if j: nat :| j + 1 < |row| && row[j].to == row[j + 1].to {
      CountTwo(row, j, j + 1, row[j].to);
    }
    if u: int :| Ascending(row) && CountTo(row, u) > 1 {
      var p, q := CountTwice(row, u);
      assert row[p].to <= row[p + 1].to;
      assert p + 1 < q ==> row[p + 1].to <= row[q].to;
      assert row[p].to == row[p + 1].to;
    }
  }

  // One row: entries that lead back, and equal neighbors.
  method CheckRow(off: seq<int>, ents: seq<Adj>, k: nat) returns (self: nat, duplicate: nat)
    requires k + 1 < |off| && CsrBuild.RowFits(off, k, |ents|)
    ensures self == CountTo(RowIn(off, ents, k), k) && (duplicate > 0 <==> Repeats(RowIn(off, ents, k)))
  {
    var myStart, myEnd := off[k], off[k + 1];
    ghost var row := RowIn(off, ents, k);
    self, duplicate := 0, 0;
    var j := myStart;
    while j < myEnd
      invariant myStart <= j <= myEnd && self == CountTo(row[..j - myStart], k)
      invariant duplicate > 0 <==> exists i: nat :: i < j - myStart && i + 1 < |row| && row[i].to == row[i + 1].to
    {
      var i := j - myStart;
      assert row[..i + 1][..i] == row[..i] && row[i] == ents[j];
      if ents[j].to == k { self := self + 1; }
      if j < myEnd - 1 && ents[j].to == ents[j + 1].to {
        assert row[i + 1] == ents[j + 1];
        duplicate := duplicate + 1;
      }
      j := j + 1;
    }
    assert row[..j - myStart] == row;
  }

  // The flags of the rows.
  ghost function RowFlags(off: seq<int>, ents: seq<Adj>, n: nat): set<int> {
    (if exists k: nat :: k < n && CountTo(RowIn(off, ents, k), k) > 0 then {0x200} else {})
    + if exists k: nat :: k < n && Repeats(RowIn(off, ents, k)) then {0x400} else {}
  }

  method CheckRows(off: seq<int>, ents: seq<Adj>, nv: nat) returns (flags: set<int>)
    requires nv < |off| && forall k: nat | k < nv :: CsrBuild.RowFits(off, k, |ents|)
    ensures flags == RowFlags(off, ents, nv)
  {
    hide CountTo, Repeats, RowIn;
    var countSelf, countDuplicate := 0, 0;
    var k := 0;
    while k < nv
      invariant 0 <= k <= nv && countSelf >= 0 && countDuplicate >= 0
      invariant countSelf > 0 <==> exists l: nat :: l < k && CountTo(RowIn(off, ents, l), l) > 0
      invariant countDuplicate > 0 <==> exists l: nat :: l < k && Repeats(RowIn(off, ents, l))
    {
      var self, duplicate := CheckRow(off, ents, k);
      countSelf := countSelf + self;
      countDuplicate := countDuplicate + duplicate;
      k := k + 1;
    }
    flags := (if countSelf != 0 then {0x200} else {}) + if countDuplicate != 0 then {0x400} else {};
  }

  // ---------------------------------------------------------------- the whole check

  // A vertex's chain has an edge back to it; it has two to the same vertex.
  ghost predicate LoopAt(s: Store, v: nat) { v < |s.chains| && ChainTo(s.pool, s.chains[v], |s.chains[v]|, v) > 0 }

  ghost predicate TwiceAt(s: Store, v: nat) { v < |s.chains| && exists u: int :: ChainTo(s.pool, s.chains[v], |s.chains[v]|, u) > 1 }

  lemma RowReport(s: Store, nv: nat, row: seq<Adj>, v: nat)
    requires Gatherable(s, nv) && v < nv && RowSorted(s, nv, row, v)
    ensures CountTo(row, v) > 0 <==> LoopAt(s, v)
    ensures Repeats(row) ==> TwiceAt(s, v)
    ensures nv <= 0x8000_0000 && TwiceAt(s, v) ==> Repeats(row)
  {
    GatherableWalks(s, nv);
    WalkSizes(s, nv);
    AdjacentSuffices(row);
    forall u: int ensures CountTo(row, u) == ChainTo(s.pool, s.chains[v], |s.chains[v]|, u) {
      CountSame(row, Row(s, v), u);
      RowCounts(s, nv, v, u);
    }
    hide Gatherable, CountTo, ChainTo, Repeats, Ascending, Row;
  }

  /** What the rows say of the store: every edge back, and, for up to 2^31 vertices, every duplicate. */
  lemma RowsReport(s: Store, nv: nat, off: seq<int>, ents: seq<Adj>)
    requires Gatherable(s, nv) && RowsSorted(s, nv, off, ents, nv)
    ensures 0x200 in RowFlags(off, ents, nv) <==> exists v: nat :: v < nv && LoopAt(s, v)
    ensures 0x400 in RowFlags(off, ents, nv) ==> exists v: nat :: v < nv && TwiceAt(s, v)
    ensures nv <= 0x8000_0000 && (exists v: nat :: v < nv && TwiceAt(s, v)) ==> 0x400 in RowFlags(off, ents, nv)
    ensures RowFlags(off, ents, nv) <= {0x200, 0x400}
  {
    forall v: nat | v < nv
      ensures CountTo(RowIn(off, ents, v), v) > 0 <==> LoopAt(s, v)
      ensures Repeats(RowIn(off, ents, v)) ==> TwiceAt(s, v)
      ensures nv <= 0x8000_0000 && TwiceAt(s, v) ==> Repeats(RowIn(off, ents, v))
    {
      RowsSortedAt(s, nv, off, ents, nv, v);
      RowReport(s, nv, RowIn(off, ents, v), v);
    }
    hide Gatherable, RowsSorted, CountTo, LoopAt, TwiceAt, Repeats, RowIn;
  }

  // Aborted: an assertion has failed.
  datatype Report = Aborted | Flags(flags: set<int>)

  /**
   stinger_consistency_check with one edge type: the flags of blocks and degrees, edges back and
   duplicates, unless an out-degree is not that of its chain, which stops it before they are returned.
   */
  method Check(g: Stinger, ghost s: Store) returns (r: Report)
    requires s == g.State() && Gatherable(s, g.nv)
    ensures r.Aborted? <==> !DegreesFit(s, g.nv)
    ensures r.Flags? ==>
      && r.flags - {0x200, 0x400} == OutFlags(s, |s.chains|) + InFlags(s, |s.inDegree|)
      && (0x200 in r.flags <==> exists v: nat :: v < g.nv && LoopAt(s, v))
      && (0x400 in r.flags ==> exists v: nat :: v < g.nv && TwiceAt(s, v))
      && (g.nv <= 0x8000_0000 && (exists v: nat :: v < g.nv && TwiceAt(s, v)) ==> 0x400 in r.flags)
  {
    hide *;
    GatherableWalks(s, g.nv);
    StoreDegrees(g, g.nv);
    var flags := CheckBlocks(g, s);
    OtherFlags(s, |s.chains|, |s.inDegree|);
    var ok, off, ents := ToSortedCsr(g, g.nv, s);
    if !ok { return Aborted; }
    OffsetsEnd(s.outDegree, off[..], g.nv);
    forall k: nat | k < g.nv ensures CsrBuild.RowFits(off[..], k, ents.Length) { RowFit(s.outDegree, off[..], g.nv, k, ents.Length); }
    var more := CheckRows(off[..], ents[..], g.nv);
    RowsReport(s, g.nv, off[..], ents[..]);
    r := Flags(flags + more);
  }

  lemma RowFit(deg: seq<int>, off: seq<int>, nv: nat, v: nat, size: nat)
    requires OffsetsOf(deg, off, nv) && |off| == nv + 1 && off[nv] == size && v < nv && forall u: nat | u < |deg| :: 0 <= deg[u]
    ensures CsrBuild.RowFits(off, v, size)
  {
    PlaceOf(deg, off, nv, v);
    hide OffsetsOf;
  }

  lemma {:induction false} ChainOther(pool: seq<Block>, chain: seq<nat>, n: nat, i: int)
    requires n <= |chain|
    ensures ChainFlags(pool, chain, n, i) !! {0x200, 0x400}
  {
    hide LiveIn, Latest, Earliest, Clean, BlockAt;
    if n > 0 { ChainOther(pool, chain, n - 1, i); }
  }

  lemma {:induction false} OutOther(s: Store, n: nat)
    requires n <= |s.chains| && n <= |s.outDegree|
    ensures OutFlags(s, n) !! {0x200, 0x400}
  {
    hide ChainFlags, ChainLive;
    if n > 0 {
      OutOther(s, n - 1);
      ChainOther(s.pool, s.chains[n - 1], |s.chains[n - 1]|, n - 1);
    }
  }

  lemma {:induction false} InOther(s: Store, n: nat)
    requires n <= |s.inDegree|
    ensures InFlags(s, n) !! {0x200, 0x400}
  {
    if n > 0 { InOther(s, n - 1); }
    hide AllTo;
  }

  lemma OtherFlags(s: Store, n: nat, m: nat)
    requires n <= |s.chains| && n <= |s.outDegree| && m <= |s.inDegree|
    ensures (OutFlags(s, n) + InFlags(s, m)) !! {0x200, 0x400}
  {
    OutOther(s, n);
    InOther(s, m);
    hide OutFlags, InFlags;
  }

  // ---------------------------------------------------------------- stores that the operations leave

  lemma SoundGatherable(s: Store, nv: nat, ntypes: nat)
    requires StoreOk(s, nv, ntypes) && forall b: nat | 0 < b < s.tail && b < |s.pool| :: InRange(s.pool[b])
    ensures Gatherable(s, nv) && DegreesFit(s, nv)
  {
    hide StoreOk, Walkable, Sound, InRange, RangesOk, Row, ChainLive, From;
    StoreAccepted(s, nv, ntypes);
    SoundWalkable(s, nv, ntypes);
    SoundSizes(s, nv, ntypes);
    forall b: nat | 0 < b < s.tail ensures b < |s.pool| && s.pool[b].high <= EDGEBLOCKSIZE { CsrBuild.LiveCount(s, nv, ntypes, b); }
    forall v: nat | v < nv ensures v < |s.outDegree| && s.outDegree[v] == |Row(s, v)| {
      RowCounts(s, nv, v, 0);
      OutCount(s, nv, ntypes, v);
      OutDegreeIs(s, nv, ntypes, v);
    }
  }

  lemma OutDegreeIs(s: Store, nv: nat, ntypes: nat, v: nat)
    requires StoreOk(s, nv, ntypes) && v < nv
    ensures v < |s.outDegree| && s.outDegree[v] == |From(s.loc, v)|
  {
    hide LinksOk, EtaOk, BlocksOk, LocOk, CountsOk;
  }

  // No edge back and no duplicate of the one type.
  lemma SoundSimple(s: Store, nv: nat, v: nat)
    requires StoreOk(s, nv, 1) && (forall b: nat | 0 < b < s.tail && b < |s.pool| :: InRange(s.pool[b])) && v < nv
    ensures !LoopAt(s, v) && !TwiceAt(s, v)
  {
    StoreAccepted(s, nv, 1);
    SoundSizes(s, nv, 1);
    var n := |s.chains[v]|;
    forall u: int ensures ChainTo(s.pool, s.chains[v], n, u) <= 1 && (u == v ==> ChainTo(s.pool, s.chains[v], n, u) == 0) {
      ChainToIs(s, nv, 1, v, n, u);
      OneKey(s, nv, v, u);
    }
    hide StoreOk, Sound, ChainTo, InRange, RangesOk;
  }

  lemma OneKey(s: Store, nv: nat, v: nat, u: int)
    requires StoreOk(s, nv, 1) && Sound(s, nv, 1) && v < nv && v < |s.chains|
    ensures var keys := ChainSel(s.loc, s.chains[v], |s.chains[v]|, (key: Key) => key.to == u); |keys| <= 1 && (u == v ==> |keys| == 0)
  {
    var keys := ChainSel(s.loc, s.chains[v], |s.chains[v]|, (key: Key) => key.to == u);
    assert s.chains[v][..|s.chains[v]|] == s.chains[v];
    forall key | key in s.loc && s.loc[key].b in s.chains[v] && key.to == u ensures key == Key(0, v, u) && u != v { TheKey(s, nv, v, key); }
    hide StoreOk, Sound;
    AtMostOne(keys, Key(0, v, u));
  }

  lemma AtMostOne<T>(keys: set<T>, x: T)
    requires forall key | key in keys :: key == x
    ensures |keys| <= 1 && (x !in keys ==> |keys| == 0)
  {
    if x in keys { assert keys == {x}; } else { assert keys == {}; }
  }

  lemma TheKey(s: Store, nv: nat, v: nat, key: Key)
    requires StoreOk(s, nv, 1) && Sound(s, nv, 1) && v < nv && v < |s.chains| && key in s.loc && s.loc[key].b in s.chains[v]
    ensures key == Key(0, v, key.to) && key.to != v
  {
    hide *;
    LocFacts(s, nv, 1, key);
    BlockOfKey(s, nv, 1, key, v);
  }

  /** A store as the operations leave it passes exactly when its stamp ranges cover its edges. */
  method CheckStore(g: Stinger) returns (r: Report)
    requires g.Valid() && g.ntypes == 1 && forall b: nat | 0 < b < g.tail && b < g.pool.Length :: InRange(g.pool[b])
    ensures r.Flags? && (r.flags == {} <==> g.RangesCover())
  {
    ghost var s := g.State();
    CoverIs(g);
    hide *;
    StateFields(g);
    StoreAccepted(s, g.nv, 1);
    SoundGatherable(s, g.nv, 1);
    r := Check(g, s);
    forall v: nat | v < g.nv ensures !LoopAt(s, v) && !TwiceAt(s, v) { SoundSimple(s, g.nv, v); }
  }

  // ---------------------------------------------------------------- rows and the map

  lemma {:induction false} BlockRowHas(block: Block, n: nat, e: Adj)
    requires n <= |block.edges|
    ensures e in BlockRow(block, n) <==> exists k: nat :: k < n && Live(block, k) && e == AdjOf(block, k)
  {
    hide AdjOf, Live;
    if n > 0 {
      BlockRowHas(block, n - 1, e);
      assert e in BlockRow(block, n) <==> e in BlockRow(block, n - 1) || (Live(block, n - 1) && e == AdjOf(block, n - 1));
    }
  }

  lemma {:induction false} ChainRowHas(pool: seq<Block>, chain: seq<nat>, n: nat, e: Adj)
    requires n <= |chain|
    ensures e in ChainRow(pool, chain, n) <==> exists p: nat :: p < n && InBlockRow(BlockAt(pool, chain[p]), e)
  {
    hide BlockAt, InBlockRow;
    if n > 0 {
      ChainRowHas(pool, chain, n - 1, e);
      var block := BlockAt(pool, chain[n - 1]);
      InBlockRowIs(block, e);
      assert e in ChainRow(pool, chain, n) <==> e in ChainRow(pool, chain, n - 1) || e in BlockRow(block, |block.edges|);
    }
  }

  predicate InBlockRow(block: Block, e: Adj) { e in BlockRow(block, |block.edges|) }

  lemma InBlockRowIs(block: Block, e: Adj)
    ensures InBlockRow(block, e) <==> e in BlockRow(block, |block.edges|)
  {
    hide BlockRow;
  }

  /** In a store that the operations leave, a row has exactly the vertex's edges, with weight and both stamps. */
  lemma RowIsMap(s: Store, nv: nat, ntypes: nat, v: nat, row: seq<Adj>, e: Adj)
    requires StoreOk(s, nv, ntypes) && v < nv && multiset(row) == multiset(Row(s, v))
    ensures e in row <==> var key := Key(e.etype, v, e.to); key in Edges(s) && Edges(s)[key] == Val(e.weight, e.timeFirst, e.timeRecent)
  {
    hide *;
    assert e in row <==> e in multiset(row);
    assert e in Row(s, v) <==> e in multiset(Row(s, v));
    ChainBlocks(s, nv, ntypes, v);
    RowIs(s, v);
    var chain := s.chains[v];
    ChainRowHas(s.pool, chain, |chain|, e);
    if e in Row(s, v) {
      var p: nat :| p < |chain| && InBlockRow(BlockAt(s.pool, chain[p]), e);
      var b := chain[p];
      InBlockRowIs(s.pool[b], e);
      BlockRowHas(s.pool[b], |s.pool[b].edges|, e);
      var k: nat :| k < |s.pool[b].edges| && Live(s.pool[b], k) && e == AdjOf(s.pool[b], k);
      SlotEdge(s, nv, ntypes, b, k);
    }
    var key := Key(e.etype, v, e.to);
    if key in Edges(s) && Edges(s)[key] == Val(e.weight, e.timeFirst, e.timeRecent) {
      EdgeSlot(s, nv, ntypes, key);
      var l := s.loc[key];
      var p: nat :| p < |chain| && chain[p] == l.b;
      BlockRowHas(s.pool[l.b], |s.pool[l.b].edges|, e);
      InBlockRowIs(s.pool[l.b], e);
    }
  }

  lemma ChainBlocks(s: Store, nv: nat, ntypes: nat, v: nat)
    requires StoreOk(s, nv, ntypes) && v < nv
    ensures v < |s.chains| && forall p | 0 <= p < |s.chains[v]| ::
              0 < s.chains[v][p] < s.tail <= |s.pool| && s.pool[s.chains[v][p]].vertexID == v && BlockAt(s.pool, s.chains[v][p]) == s.pool[s.chains[v][p]]
  {
    StoreElim(s, nv, ntypes);
    assert Chained(s.pool, s.tail, s.first[v], s.chains[v], v);
    hide EtaOk, BlocksOk, LocOk, CountsOk, DegreesOk;
  }

  // A live slot's edge.
  lemma SlotEdge(s: Store, nv: nat, ntypes: nat, b: nat, k: nat)
    requires StoreOk(s, nv, ntypes) && 0 < b < s.tail <= |s.pool| && k < |s.pool[b].edges| && Live(s.pool[b], k)
    ensures var e, key := s.pool[b].edges[k], Key(s.pool[b].etype, s.pool[b].vertexID, s.pool[b].edges[k].neighbor);
      && key in Edges(s) && Edges(s)[key] == Val(e.weight, e.timeFirst, e.timeRecent)
      && AdjOf(s.pool[b], k) == Adj(e.neighbor, e.weight, e.timeFirst, e.timeRecent, s.pool[b].etype)
  {
    StoreElim(s, nv, ntypes);
    assert LiveAt(s.pool, s.tail, b, k);
    LocFacts(s, nv, ntypes, KeyAt(s.pool, b, k));
    hide StoreOk, LinksOk, EtaOk, BlocksOk, CountsOk, DegreesOk;
  }

  // An edge's slot.
  lemma EdgeSlot(s: Store, nv: nat, ntypes: nat, key: Key)
    requires StoreOk(s, nv, ntypes) && key in Edges(s)
    ensures key in s.loc && 0 <= key.from < nv && key.from < |s.chains|
    ensures var l := s.loc[key];
      && 0 < l.b < s.tail <= |s.pool| && l.k < |s.pool[l.b].edges| && Live(s.pool[l.b], l.k) && l.b in s.chains[key.from]
      && AdjOf(s.pool[l.b], l.k) == Adj(key.to, Edges(s)[key].weight, Edges(s)[key].timeFirst, Edges(s)[key].timeRecent, key.etype)
  {
    LocFacts(s, nv, ntypes, key);
    StoreElim(s, nv, ntypes);
    hide StoreOk, EtaOk, BlocksOk, LocOk, CountsOk, DegreesOk, Chained, BlockOk;
  }
}
