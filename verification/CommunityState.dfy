/**
 The incremental cycle of the community server: edge insertions and removals reach the community graph
 (cstate_preproc), touched vertices are moved out and communities are merged again (cstate_update).
 */
module CommunityState {
  import opened Weights
  import opened Sizes
  import opened InsQueue
  import opened ExtractionCells
  import opened Movers
  import opened Extraction
  import Contraction
  import UpdateCommunity

  // ---------------------------------------------------------------- insertions and removals

  // The vertices that the first k changes between communities touch.
  ghost predicate Touches(incr: seq<Edge>, cmap: seq<int>, k: nat, v: int)
    requires Within(incr, |cmap|) && k <= |incr|
  {
    exists p :: 0 <= p < k && Between(incr, cmap, p) && (incr[p].i == v || incr[p].j == v)
  }

  predicate Between(incr: seq<Edge>, cmap: seq<int>, p: int)
    requires Within(incr, |cmap|) && 0 <= p < |incr|
  {
    assert incr[p] in incr;
    cmap[incr[p].i] != cmap[incr[p].j]
  }

  function BetweenCount(incr: seq<Edge>, cmap: seq<int>, k: nat): nat
    requires Within(incr, |cmap|) && k <= |incr|
  {
    if k == 0 then 0 else BetweenCount(incr, cmap, k - 1) + if Between(incr, cmap, k - 1) then 1 else 0
  }

  lemma {:induction false} BetweenCountGrows(incr: seq<Edge>, cmap: seq<int>, k: nat, l: nat)
    requires Within(incr, |cmap|) && k <= l <= |incr|
    ensures BetweenCount(incr, cmap, k) <= BetweenCount(incr, cmap, l)
  {
    if k < l { BetweenCountGrows(incr, cmap, k, l - 1); }
  }

  // After k changes: diagonal and edges to come reflect es with them, and the list is exact.
  ghost predicate Preparing(d: seq<int>, contents: seq<Edge>, es: seq<Edge>, incr: seq<Edge>, cmap: seq<int>, k: nat, nv: nat, room: int) {
    && Within(incr, |cmap|) && k <= |incr| && |d| == nv && Bounded(cmap, nv) && Within(contents, nv)
    && Reflects(d, contents, es + incr[..k], cmap)
    && |contents| + BetweenCount(incr, cmap, |incr|) - BetweenCount(incr, cmap, k) <= room
  }

  lemma ReflectsAdd(d: seq<int>, contents: seq<Edge>, d': seq<int>, contents': seq<Edge>, es: seq<Edge>, cmap: seq<int>, e: Edge)
    requires Reflects(d, contents, es, cmap) && 0 <= e.i < |cmap| && 0 <= e.j < |cmap|
    requires forall a, b | 0 <= a && 0 <= b :: Cell(Whole(d', contents'), a, b) ==
               Cell(Whole(d, contents), a, b) + if Joins(cmap[e.i], cmap[e.j], a, b) then e.w else 0
    ensures Reflects(d', contents', es + [e], cmap)
  {
    assert Relabel(es + [e], cmap) == Relabel(es, cmap) + [Edge(cmap[e.i], cmap[e.j], e.w)];
    forall a, b | 0 <= a && 0 <= b ensures Cell(Whole(d', contents'), a, b) == Cell(Relabel(es + [e], cmap), a, b) {
      CellAppend(Relabel(es, cmap), Edge(cmap[e.i], cmap[e.j], e.w), a, b);
    }
  }

  lemma DiagonalAdd(d: seq<int>, c: nat, w: int, a: int, b: int)
    requires c < |d|
    ensures Cell(Diagonal(d[c := d[c] + w]), a, b) == Cell(Diagonal(d), a, b) + if Joins(c, c, a, b) then w else 0
  {
    Contraction.DiagonalCell(d, a, b);
    Contraction.DiagonalCell(d[c := d[c] + w], a, b);
  }

  lemma PreparingInside(d: seq<int>, contents: seq<Edge>, es: seq<Edge>, incr: seq<Edge>, cmap: seq<int>, k: nat, nv: nat, room: int)
    requires Preparing(d, contents, es, incr, cmap, k, nv, room) && k < |incr| && !Between(incr, cmap, k)
    ensures 0 <= incr[k].i < |cmap| && 0 <= cmap[incr[k].i] < |d|
    ensures Preparing(d[cmap[incr[k].i] := d[cmap[incr[k].i]] + incr[k].w], contents, es, incr, cmap, k + 1, nv, room)
  {
    var e := incr[k];
    assert e in incr;
    var c := cmap[e.i];
    var d' := d[c := d[c] + e.w];
    forall a, b | 0 <= a && 0 <= b
      ensures Cell(Whole(d', contents), a, b) == Cell(Whole(d, contents), a, b) + if Joins(cmap[e.i], cmap[e.j], a, b) then e.w else 0
    {
      DiagonalAdd(d, c, e.w, a, b);
      CellConcat(Diagonal(d'), contents, a, b);
      CellConcat(Diagonal(d), contents, a, b);
    }
    ReflectsAdd(d, contents, d', contents, es + incr[..k], cmap, e);
    assert es + incr[..k] + [e] == es + incr[..k + 1];
    hide Reflects;
  }

  lemma PreparingBetween(d: seq<int>, contents: seq<Edge>, contents': seq<Edge>, es: seq<Edge>, incr: seq<Edge>, cmap: seq<int>, k: nat, nv: nat, room: int)
    requires Preparing(d, contents, es, incr, cmap, k, nv, room) && k < |incr| && Between(incr, cmap, k)
    requires 0 <= incr[k].i < |cmap| && 0 <= incr[k].j < |cmap|
    requires SameGraph(contents', contents + [Edge(cmap[incr[k].i], cmap[incr[k].j], incr[k].w)]) && |contents'| <= |contents| + 1
    requires forall e | e in contents' :: (e.i == cmap[incr[k].i] && e.j == cmap[incr[k].j]) || e in contents
    ensures Preparing(d, contents', es, incr, cmap, k + 1, nv, room)
  {
    var e := incr[k];
    assert e in incr;
    var f := Edge(cmap[e.i], cmap[e.j], e.w);
    forall a, b | 0 <= a && 0 <= b
      ensures Cell(Whole(d, contents'), a, b) == Cell(Whole(d, contents), a, b) + if Joins(cmap[e.i], cmap[e.j], a, b) then e.w else 0
    {
      CellAppend(contents, f, a, b);
      CellConcat(Diagonal(d), contents', a, b);
      CellConcat(Diagonal(d), contents, a, b);
    }
    ReflectsAdd(d, contents, d, contents', es + incr[..k], cmap, e);
    assert es + incr[..k] + [e] == es + incr[..k + 1];
    hide Reflects;
  }

  // A removal that finds nothing changes nothing.
  lemma PreparingNothing(d: seq<int>, contents: seq<Edge>, es: seq<Edge>, incr: seq<Edge>, cmap: seq<int>, k: nat, nv: nat, room: int)
    requires Preparing(d, contents, es, incr, cmap, k, nv, room) && k < |incr| && incr[k].w == 0
    ensures Preparing(d, contents, es, incr, cmap, k + 1, nv, room)
  {
    var e := incr[k];
    assert e in incr;
    ReflectsAdd(d, contents, d, contents, es + incr[..k], cmap, e);
    assert es + incr[..k] + [e] == es + incr[..k + 1];
    hide Reflects;
  }

  // The list holds exactly what the changes so far touch.
  ghost predicate ListsTouched(vlist: seq<int>, n: nat, mark: seq<int>, incr: seq<Edge>, cmap: seq<int>, k: nat) {
    && Within(incr, |cmap|) && k <= |incr| && |mark| == |cmap|
    && Listed(vlist, n, mark)
    && forall v | 0 <= v < |mark| :: mark[v] >= 0 <==> Touches(incr, cmap, k, v)
  }

  lemma TouchesNext(incr: seq<Edge>, cmap: seq<int>, k: nat, v: int)
    requires Within(incr, |cmap|) && k < |incr|
    ensures Touches(incr, cmap, k + 1, v) <==>
            Touches(incr, cmap, k, v) || (Between(incr, cmap, k) && (incr[k].i == v || incr[k].j == v))
  {
    if Touches(incr, cmap, k, v) {
      var p :| 0 <= p < k && Between(incr, cmap, p) && (incr[p].i == v || incr[p].j == v);
      assert 0 <= p < k + 1;
    }
  }

  // Clears the marks of the previous list.
  method ClearMarks(nvlist: nat, vlist: array<int>, mark: array<int>)
    requires nvlist <= vlist.Length && vlist != mark && Bounded(vlist[..nvlist], mark.Length)
    requires forall v | 0 <= v < mark.Length && v !in vlist[..nvlist] :: mark[v] == -1
    modifies mark
    ensures forall v | 0 <= v < mark.Length :: mark[v] == -1
  {
    var k := 0;
    while k < nvlist
      invariant 0 <= k <= nvlist && vlist[..] == old(vlist[..])
      invariant forall v | 0 <= v < mark.Length && v !in vlist[k..nvlist] :: mark[v] == -1
    {
      assert vlist[k..nvlist] == [vlist[k]] + vlist[k + 1..nvlist];
      assert vlist[k] == vlist[..nvlist][k];
      mark[vlist[k]] := -1;
      k := k + 1;
    }
  }

  // The weight of the first entry for j, as the removal's search finds it; 0 without one.
  function WeightTo(row: seq<Nbr>, j: int): (w: int)
    ensures (forall r | 0 <= r < |row| :: row[r].to != j) ==> w == 0
    ensures forall r | 0 <= r < |row| && row[r].to == j && (forall q | 0 <= q < r :: row[q].to != j) :: w == row[r].w
  {
    if row == [] then 0 else if row[0].to == j then row[0].w else WeightTo(row[1..], j)
  }

  // The removals as edges of negative weight.
  function Removals(rem: seq<(int, int)>, adj: seq<seq<Nbr>>): (es: seq<Edge>)
    requires PairsWithin(rem, |adj|)
    ensures |es| == |rem| && forall k | 0 <= k < |rem| :: es[k] == Edge(rem[k].0, rem[k].1, -WeightTo(adj[rem[k].0], rem[k].1))
  {
    seq(|rem|, k requires 0 <= k < |rem| => Edge(rem[k].0, rem[k].1, -WeightTo(adj[rem[k].0], rem[k].1)))
  }

  predicate PairsWithin(rem: seq<(int, int)>, n: nat) {
    forall k | 0 <= k < |rem| :: 0 <= rem[k].0 < n && 0 <= rem[k].1 < n
  }

  // Insertions first, then removals: all changes of a batch.
  function Changes(incr: seq<Edge>, rem: seq<(int, int)>, adj: seq<seq<Nbr>>): (all: seq<Edge>)
    requires PairsWithin(rem, |adj|)
    ensures |all| == |incr| + |rem|
  {
    incr + Removals(rem, adj)
  }

  lemma ChangesAre(incr: seq<Edge>, rem: seq<(int, int)>, adj: seq<seq<Nbr>>, n: nat)
    requires PairsWithin(rem, |adj|) && |adj| == n && Within(incr, n)
    ensures Within(Changes(incr, rem, adj), n)
    ensures forall k | 0 <= k < |incr| :: Changes(incr, rem, adj)[k] == incr[k]
    ensures forall k | 0 <= k < |rem| :: Changes(incr, rem, adj)[|incr| + k] == Edge(rem[k].0, rem[k].1, -WeightTo(adj[rem[k].0], rem[k].1))
  {
    var all := Changes(incr, rem, adj);
    forall e | e in all ensures 0 <= e.i < n && 0 <= e.j < n {
      var k :| 0 <= k < |all| && all[k] == e;
      if k < |incr| { assert e in incr; } else { assert e == Removals(rem, adj)[k - |incr|]; }
    }
  }

  // How many changes are between communities.
  method CountBetween(incr: seq<Edge>, rem: seq<(int, int)>, cmap: array<int>, ghost adj: seq<seq<Nbr>>) returns (n: nat)
    requires |adj| == cmap.Length && PairsWithin(rem, |adj|) && Within(incr, cmap.Length)
    ensures Within(Changes(incr, rem, adj), cmap.Length)
    ensures n == BetweenCount(Changes(incr, rem, adj), cmap[..], |incr| + |rem|)
  {
    hide *;
    ghost var all, cm := Changes(incr, rem, adj), cmap[..];
    ChangesWithin(incr, rem, adj, cmap.Length);
    BetweenNone(all, cm);
    n := 0;
    var k := 0;
    while k < |incr|
      invariant 0 <= k <= |incr| && n == BetweenCount(all, cm, k)
    {
      ChangeAt(incr, rem, adj, k);
      BetweenNext(all, cm, k);
      var ci, cj := cmap[incr[k].i], cmap[incr[k].j];
      if ci != cj { n := n + 1; }
      k := k + 1;
    }
    k := 0;
    while k < |rem|
      invariant 0 <= k <= |rem| && n == BetweenCount(all, cm, |incr| + k)
    {
      ChangeAt(incr, rem, adj, |incr| + k);
      BetweenNext(all, cm, |incr| + k);
      var ci, cj := cmap[rem[k].0], cmap[rem[k].1];
      if ci != cj { n := n + 1; }
      k := k + 1;
    }
  }

  lemma ChangesWithin(incr: seq<Edge>, rem: seq<(int, int)>, adj: seq<seq<Nbr>>, n: nat)
    requires PairsWithin(rem, |adj|) && |adj| == n && Within(incr, n)
    ensures Within(Changes(incr, rem, adj), n) && |Changes(incr, rem, adj)| == |incr| + |rem|
  {
    ChangesAre(incr, rem, adj, n);
    hide Changes;
  }

  lemma ChangeIs(incr: seq<Edge>, rem: seq<(int, int)>, adj: seq<seq<Nbr>>, k: nat)
    requires PairsWithin(rem, |adj|) && k < |incr| + |rem|
    ensures k < |Changes(incr, rem, adj)|
    ensures k < |incr| ==> Changes(incr, rem, adj)[k] == incr[k]
    ensures k >= |incr| ==>
      var p := rem[k - |incr|];
      0 <= p.0 < |adj| && Changes(incr, rem, adj)[k] == Edge(p.0, p.1, -WeightTo(adj[p.0], p.1))
  {
    hide WeightTo;
  }

  // The ends of a change.
  lemma ChangeAt(incr: seq<Edge>, rem: seq<(int, int)>, adj: seq<seq<Nbr>>, k: nat)
    requires PairsWithin(rem, |adj|) && k < |incr| + |rem|
    ensures k < |Changes(incr, rem, adj)| && (Changes(incr, rem, adj)[k].i, Changes(incr, rem, adj)[k].j) ==
            if k < |incr| then (incr[k].i, incr[k].j) else rem[k - |incr|]
  {
    hide WeightTo;
  }

  lemma BetweenNone(all: seq<Edge>, cmap: seq<int>)
    requires Within(all, |cmap|)
    ensures BetweenCount(all, cmap, 0) == 0
  {
  }

  lemma BetweenNext(all: seq<Edge>, cmap: seq<int>, k: nat)
    requires Within(all, |cmap|) && k < |all|
    ensures 0 <= all[k].i < |cmap| && 0 <= all[k].j < |cmap|
    ensures BetweenCount(all, cmap, k + 1) == BetweenCount(all, cmap, k) + if cmap[all[k].i] != cmap[all[k].j] then 1 else 0
  {
    assert all[k] in all;
  }

  lemma PreparingStarts(d: seq<int>, ge: seq<Edge>, es: seq<Edge>, incr: seq<Edge>, cmap: seq<int>, nv: nat, room: int)
    requires Reflects(d, ge, es, cmap) && Within(ge, nv) && |d| == nv && Bounded(cmap, nv) && Within(incr, |cmap|)
    requires |ge| + BetweenCount(incr, cmap, |incr|) <= room
    ensures Preparing(d, ge, es, incr, cmap, 0, nv, room)
  {
    assert es + incr[..0] == es;
  }

  lemma PreparingFacts(d: seq<int>, contents: seq<Edge>, es: seq<Edge>, incr: seq<Edge>, cmap: seq<int>, k: nat, nv: nat, room: int)
    requires Preparing(d, contents, es, incr, cmap, k, nv, room)
    ensures |d| == nv && |contents| <= room
    ensures k < |incr| ==>
              && 0 <= incr[k].i < |cmap| && 0 <= incr[k].j < |cmap|
              && 0 <= cmap[incr[k].i] < nv && 0 <= cmap[incr[k].j] < nv
              && (Between(incr, cmap, k) <==> cmap[incr[k].i] != cmap[incr[k].j])
              && (Between(incr, cmap, k) ==> |contents| < room)
    ensures k == |incr| ==> Reflects(d, contents, es + incr, cmap) && Within(contents, nv)
  {
    BetweenCountGrows(incr, cmap, k, |incr|);
    if k < |incr| {
      assert incr[k] in incr;
      BetweenCountGrows(incr, cmap, k + 1, |incr|);
    }
    assert k == |incr| ==> incr[..k] == incr;
    hide Reflects;
  }

  // Lists both ends of a change between communities.
  method TouchBoth(nvlist: nat, vlist: array<int>, mark: array<int>, i: nat, j: nat, ghost all: seq<Edge>, ghost cmap: seq<int>, ghost k: nat)
    returns (n: nat)
    requires k < |all| && mark.Length == |cmap| <= vlist.Length && vlist != mark && i < |cmap| && j < |cmap| && all[k].i == i && all[k].j == j
    requires ListsTouched(vlist[..], nvlist, mark[..], all, cmap, k) && Between(all, cmap, k)
    modifies vlist, mark
    ensures ListsTouched(vlist[..], n, mark[..], all, cmap, k + 1)
  {
    ghost var mark0 := mark[..];
    var o1, o2;
    n, o1 := AppendToVlist(nvlist, vlist, mark, i);
    n, o2 := AppendToVlist(n, vlist, mark, j);
    forall v | 0 <= v < mark.Length ensures mark[v] >= 0 <==> Touches(all, cmap, k + 1, v) {
      TouchesNext(all, cmap, k, v);
      assert mark0[v] >= 0 <==> Touches(all, cmap, k, v);
    }
    hide Listed;
  }

  lemma TouchNeither(vlist: seq<int>, n: nat, mark: seq<int>, incr: seq<Edge>, cmap: seq<int>, k: nat)
    requires ListsTouched(vlist, n, mark, incr, cmap, k) && k < |incr| && !Between(incr, cmap, k)
    ensures ListsTouched(vlist, n, mark, incr, cmap, k + 1)
  {
    forall v | 0 <= v < |mark| ensures mark[v] >= 0 <==> Touches(incr, cmap, k + 1, v) { TouchesNext(incr, cmap, k, v); }
  }

  /**
   cstate_preproc: the community graph reflects the graph with all changes of the batch, and the list
   holds exactly the vertices that a change between communities touches.  A removal counts with the
   weight that the vertex's adjacency list still has for it.
   */
  method Preproc(g: CommunityGraph, cmap: array<int>, incr: seq<Edge>, rem: seq<(int, int)>, adj: seq<seq<Nbr>>, ghost es: seq<Edge>,
                 nvlist0: nat, vlist: array<int>, mark: array<int>, queueSize: nat) returns (nvlist: nat)
    requires queueSize > 0 && mark.Length == cmap.Length <= vlist.Length && vlist != mark && vlist != cmap && mark != cmap
    requires g.d != vlist && g.d != mark && g.d != cmap && |adj| == cmap.Length && PairsWithin(rem, |adj|)
    requires nvlist0 <= vlist.Length && Bounded(vlist[..nvlist0], mark.Length)
    requires forall v | 0 <= v < mark.Length && v !in vlist[..nvlist0] :: mark[v] == -1
    requires g.Valid() && Within(g.Edges(), g.nv) && Bounded(cmap[..], g.nv) && Within(incr, cmap.Length)
    requires Reflects(g.Diag(), g.Edges(), es, cmap[..])
    modifies g, g.d, g.el, vlist, mark
    ensures g.Valid() && g.nv == old(g.nv) && g.d == old(g.d) && Within(g.Edges(), g.nv)
    ensures Reflects(g.Diag(), g.Edges(), es + Changes(incr, rem, adj), cmap[..])
    ensures ListsTouched(vlist[..], nvlist, mark[..], Changes(incr, rem, adj), cmap[..], |incr| + |rem|)
    ensures Within(Changes(incr, rem, adj), cmap.Length) && (BetweenCount(Changes(incr, rem, adj), cmap[..], |incr| + |rem|) > 0 ==> Contraction.Simple(g.Edges()))
  {
    hide *;
    ghost var cm, nv, all := cmap[..], g.nv, Changes(incr, rem, adj);
    ClearMarks(nvlist0, vlist, mark);
    nvlist := 0;
    var n := CountBetween(incr, rem, cmap, adj);
    TouchedNone(vlist[..], mark[..], all, cm);
    ValidFacts(g);
    DiagIs(g);
    g.GrowEdges(g.ne + n);
    ValidFacts(g);
    DiagIs(g);
    nvlist := PrepareAll(g, cmap, incr, rem, adj, es, vlist, mark, queueSize);
    if n > 0 {
      ghost var d1, ge1 := g.Diag(), g.Edges();
      ContractSelf(g);
      ReflectsSame(d1, ge1, g.Diag(), g.Edges(), es + all, cm);
    }
  }

  // The loop over insertions.
  method PrepareInsertions(g: CommunityGraph, q: InsertQueue, cmap: array<int>, incr: seq<Edge>, ghost rem: seq<(int, int)>, ghost adj: seq<seq<Nbr>>,
                           ghost es: seq<Edge>, vlist: array<int>, mark: array<int>) returns (nvlist: nat)
    requires g.Valid() && q.Valid() && q.q != g.el && mark.Length == cmap.Length <= vlist.Length && |adj| == cmap.Length && PairsWithin(rem, |adj|)
    requires vlist != mark && vlist != cmap && mark != cmap && g.d != vlist && g.d != mark && g.d != cmap
    requires Preparing(g.Diag(), q.Contents(g), es, Changes(incr, rem, adj), cmap[..], 0, g.nv, g.el.Length)
    requires ListsTouched(vlist[..], 0, mark[..], Changes(incr, rem, adj), cmap[..], 0)
    modifies g`ne, g.el, g.d, q, q.q, vlist, mark
    ensures g.Valid() && q.Valid() && cmap[..] == old(cmap[..])
    ensures Preparing(g.Diag(), q.Contents(g), es, Changes(incr, rem, adj), cmap[..], |incr|, g.nv, g.el.Length)
    ensures ListsTouched(vlist[..], nvlist, mark[..], Changes(incr, rem, adj), cmap[..], |incr|)
  {
    hide *;
    ghost var cm, all := cmap[..], Changes(incr, rem, adj);
    nvlist := 0;
    var k := 0;
    while k < |incr|
      invariant 0 <= k <= |incr| && g.Valid() && q.Valid() && cmap[..] == cm
      invariant Preparing(g.Diag(), q.Contents(g), es, all, cm, k, g.nv, g.el.Length)
      invariant ListsTouched(vlist[..], nvlist, mark[..], all, cm, k)
    {
      ChangeIs(incr, rem, adj, k);
      nvlist := PrepareOne(g, q, cmap, incr[k].i, incr[k].j, incr[k].w, true, all, es, k, nvlist, vlist, mark);
      k := k + 1;
    }
  }

  // The loop over removals.
  method PrepareRemovals(g: CommunityGraph, q: InsertQueue, cmap: array<int>, ghost incr: seq<Edge>, rem: seq<(int, int)>, adj: seq<seq<Nbr>>,
                         ghost es: seq<Edge>, nvlist0: nat, vlist: array<int>, mark: array<int>) returns (nvlist: nat)
    requires g.Valid() && q.Valid() && q.q != g.el && mark.Length == cmap.Length <= vlist.Length && |adj| == cmap.Length && PairsWithin(rem, |adj|)
    requires vlist != mark && vlist != cmap && mark != cmap && g.d != vlist && g.d != mark && g.d != cmap
    requires Preparing(g.Diag(), q.Contents(g), es, Changes(incr, rem, adj), cmap[..], |incr|, g.nv, g.el.Length)
    requires ListsTouched(vlist[..], nvlist0, mark[..], Changes(incr, rem, adj), cmap[..], |incr|)
    modifies g`ne, g.el, g.d, q, q.q, vlist, mark
    ensures g.Valid() && q.Valid() && cmap[..] == old(cmap[..])
    ensures Preparing(g.Diag(), q.Contents(g), es, Changes(incr, rem, adj), cmap[..], |incr| + |rem|, g.nv, g.el.Length)
    ensures ListsTouched(vlist[..], nvlist, mark[..], Changes(incr, rem, adj), cmap[..], |incr| + |rem|)
  {
    hide *;
    ghost var cm, all := cmap[..], Changes(incr, rem, adj);
    nvlist := nvlist0;
    var k := 0;
    while k < |rem|
      invariant 0 <= k <= |rem| && g.Valid() && q.Valid() && cmap[..] == cm
      invariant Preparing(g.Diag(), q.Contents(g), es, all, cm, |incr| + k, g.nv, g.el.Length)
      invariant ListsTouched(vlist[..], nvlist, mark[..], all, cm, |incr| + k)
    {
      ChangeIs(incr, rem, adj, |incr| + k);
      var i, j := rem[k].0, rem[k].1;
      var found, w := FindWeight(adj[i], j);
      nvlist := PrepareOne(g, q, cmap, i, j, -w, found, all, es, |incr| + k, nvlist, vlist, mark);
      k := k + 1;
    }
  }

  // The loops over insertions and removals, with the last flush.
  method PrepareAll(g: CommunityGraph, cmap: array<int>, incr: seq<Edge>, rem: seq<(int, int)>, adj: seq<seq<Nbr>>, ghost es: seq<Edge>,
                    vlist: array<int>, mark: array<int>, queueSize: nat) returns (nvlist: nat)
    requires queueSize > 0 && mark.Length == cmap.Length <= vlist.Length && vlist != mark && vlist != cmap && mark != cmap
    requires g.d != vlist && g.d != mark && g.d != cmap && |adj| == cmap.Length && PairsWithin(rem, |adj|)
    requires g.Valid() && Within(g.Edges(), g.nv) && Bounded(cmap[..], g.nv) && Within(incr, cmap.Length) && Within(Changes(incr, rem, adj), cmap.Length)
    requires Reflects(g.Diag(), g.Edges(), es, cmap[..])
    requires g.ne + BetweenCount(Changes(incr, rem, adj), cmap[..], |incr| + |rem|) <= g.el.Length
    requires ListsTouched(vlist[..], 0, mark[..], Changes(incr, rem, adj), cmap[..], 0)
    modifies g`ne, g.d, g.el, vlist, mark
    ensures g.Valid() && Within(g.Edges(), g.nv)
    ensures Reflects(g.Diag(), g.Edges(), es + Changes(incr, rem, adj), cmap[..])
    ensures ListsTouched(vlist[..], nvlist, mark[..], Changes(incr, rem, adj), cmap[..], |incr| + |rem|)
  {
    hide *;
    ghost var cm, nv, room, all := cmap[..], g.nv, g.el.Length, Changes(incr, rem, adj);
    nvlist := 0;
    var q := new InsertQueue(queueSize);
    QueueEmpty(q, g);
    ValidFacts(g);
    ChangesWithin(incr, rem, adj, cmap.Length);
    PreparingStarts(g.Diag(), q.Contents(g), es, all, cm, nv, room);
    nvlist := PrepareInsertions(g, q, cmap, incr, rem, adj, es, vlist, mark);
    nvlist := PrepareRemovals(g, q, cmap, incr, rem, adj, es, nvlist, vlist, mark);
    PreparingFacts(g.Diag(), q.Contents(g), es, all, cm, |all|, nv, room);
    ContentsSize(q, g);
    DiagIs(g);
    q.Flush(g);
    DiagIs(g);
  }

  // The removal's search of an adjacency list.
  method FindWeight(row: seq<Nbr>, j: int) returns (found: bool, w: int)
    ensures w == WeightTo(row, j) && (!found ==> w == 0) && (found <==> exists r :: 0 <= r < |row| && row[r].to == j)
  {
    var k := 0;
    while k < |row|
      invariant 0 <= k <= |row| && WeightTo(row, j) == WeightTo(row[k..], j)
      invariant forall r | 0 <= r < k :: row[r].to != j
    {
      if row[k].to == j { return true, row[k].w; }
      assert row[k..][1..] == row[k + 1..];
      k := k + 1;
    }
    return false, 0;
  }

  // One change: an insertion, or a removal that found its edge or did not.
  method PrepareOne(g: CommunityGraph, q: InsertQueue, cmap: array<int>, i: int, j: int, w: int, found: bool, ghost all: seq<Edge>, ghost es: seq<Edge>, ghost k: nat,
                    nvlist: nat, vlist: array<int>, mark: array<int>) returns (n: nat)
    requires k < |all| && all[k] == Edge(i, j, w) && g.Valid() && q.Valid() && q.q != g.el && mark.Length == cmap.Length <= vlist.Length
    requires !found ==> w == 0
    requires vlist != mark && vlist != cmap && mark != cmap && g.d != vlist && g.d != mark && g.d != cmap
    requires Preparing(g.Diag(), q.Contents(g), es, all, cmap[..], k, g.nv, g.el.Length)
    requires ListsTouched(vlist[..], nvlist, mark[..], all, cmap[..], k)
    modifies g`ne, g.el, g.d, q, q.q, vlist, mark
    ensures g.Valid() && q.Valid()
    ensures Preparing(g.Diag(), q.Contents(g), es, all, cmap[..], k + 1, g.nv, g.el.Length)
    ensures ListsTouched(vlist[..], n, mark[..], all, cmap[..], k + 1)
    ensures !found ==> g.Diag() == old(g.Diag()) && q.Contents(g) == old(q.Contents(g))
  {
    hide Preparing, ListsTouched, Between, Reflects, SameGraph, Within;
    ghost var cm, d1, was := cmap[..], g.Diag(), q.Contents(g);
    PreparingFacts(d1, was, es, all, cm, k, g.nv, g.el.Length);
    var ci, cj := cmap[i], cmap[j];
    n := nvlist;
    if ci != cj {
      n := TouchBoth(nvlist, vlist, mark, i, j, all, cm, k);
      assert q.Contents(g) == was;
      if found {
        q.Enqueue(ci, cj, w, g);
        assert g.Diag() == d1;
        PreparingBetween(d1, was, q.Contents(g), es, all, cm, k, g.nv, g.el.Length);
      } else {
        PreparingNothing(d1, was, es, all, cm, k, g.nv, g.el.Length);
      }
    } else {
      TouchNeither(vlist[..], nvlist, mark[..], all, cm, k);
      PreparingInside(d1, was, es, all, cm, k, g.nv, g.el.Length);
      if found {
        g.d[ci] := g.d[ci] + w;
      }
      assert g.Diag() == d1[ci := d1[ci] + w] && q.Contents(g) == was;
    }
  }

  lemma TouchedNone(vlist: seq<int>, mark: seq<int>, incr: seq<Edge>, cmap: seq<int>)
    requires Within(incr, |cmap|) && |mark| == |cmap| && forall v | 0 <= v < |mark| :: mark[v] == -1
    ensures ListsTouched(vlist, 0, mark, incr, cmap, 0)
  {
  }

  lemma ReflectsSame(d: seq<int>, ge: seq<Edge>, d': seq<int>, ge': seq<Edge>, es: seq<Edge>, cmap: seq<int>)
    requires Reflects(d, ge, es, cmap) && SameGraph(Whole(d', ge'), Whole(d, ge))
    ensures Reflects(d', ge', es, cmap)
  {
    hide Cell, Relabel, Whole;
  }

  // No removed pair is in the adjacency lists any more.
  predicate NoneListed(rem: seq<(int, int)>, adj: seq<seq<Nbr>>)
    requires PairsWithin(rem, |adj|)
  {
    forall k, r | 0 <= k < |rem| && 0 <= r < |adj[rem[k].0]| :: adj[rem[k].0][r].to != rem[k].1
  }

  lemma {:induction false} WeightOfNone(row: seq<Nbr>, j: int)
    requires forall r | 0 <= r < |row| :: row[r].to != j
    ensures WeightTo(row, j) == 0
  {
    if row != [] { WeightOfNone(row[1..], j); }
  }

  lemma {:induction false} WeightlessCell(es: seq<Edge>, a: int, b: int)
    requires forall k | 0 <= k < |es| :: es[k].w == 0
    ensures Cell(es, a, b) == 0
  {
    if es != [] { WeightlessCell(es[1..], a, b); }
  }

  // No weight between any two communities, or inside one.
  ghost predicate Weightless(es: seq<Edge>, cmap: seq<int>)
    requires Within(es, |cmap|)
  {
    forall a, b | 0 <= a && 0 <= b :: Cell(Relabel(es, cmap), a, b) == 0
  }

  lemma RemovalsWithin(rem: seq<(int, int)>, adj: seq<seq<Nbr>>)
    requires PairsWithin(rem, |adj|)
    ensures Within(Removals(rem, adj), |adj|)
  {
  }

  lemma RelabelThree(es: seq<Edge>, fs: seq<Edge>, gs: seq<Edge>, m: seq<int>, a: int, b: int)
    requires Within(es, |m|) && Within(fs, |m|) && Within(gs, |m|)
    ensures Within(es + fs, |m|) && Within(es + fs + gs, |m|)
    ensures Cell(Relabel(es + fs + gs, m), a, b) == Cell(Relabel(es, m), a, b) + Cell(Relabel(fs, m), a, b) + Cell(Relabel(gs, m), a, b)
  {
    RelabelConcat(es, fs, m);
    RelabelConcat(es + fs, gs, m);
    CellConcat(Relabel(es, m), Relabel(fs, m), a, b);
    CellConcat(Relabel(es, m) + Relabel(fs, m), Relabel(gs, m), a, b);
  }

  /**
   A batch that removes gone from the graph: the community graph reflects what is left, with the
   insertions, exactly when the weights that the removals find make up for gone in every cell.
   */
  lemma RemovedExactly(d: seq<int>, ge: seq<Edge>, es: seq<Edge>, kept: seq<Edge>, gone: seq<Edge>, incr: seq<Edge>, rem: seq<(int, int)>,
                       adj: seq<seq<Nbr>>, cmap: seq<int>)
    requires PairsWithin(rem, |adj|) && |adj| == |cmap| && Within(es, |cmap|) && Within(kept, |cmap|) && Within(gone, |cmap|) && Within(incr, |cmap|)
    requires SameGraph(es, kept + gone) && Reflects(d, ge, es + Changes(incr, rem, adj), cmap)
    ensures Within(gone + Removals(rem, adj), |cmap|)
    ensures Reflects(d, ge, kept + incr, cmap) <==> Weightless(gone + Removals(rem, adj), cmap)
  {
    var found := Removals(rem, adj);
    RemovalsWithin(rem, adj);
    assert Within(kept + gone, |cmap|) && Within(gone + found, |cmap|) && Within(kept + incr, |cmap|) by { hide Relabel, Cell, SameGraph; }
    assert es + Changes(incr, rem, adj) == es + incr + found;
    RelabelRespects(es, kept + gone, cmap);
    RelabelConcat(kept, gone, cmap);
    RelabelConcat(gone, found, cmap);
    RelabelConcat(kept, incr, cmap);
    hide Relabel, Cell;
    forall a, b | 0 <= a && 0 <= b
      ensures Cell(Whole(d, ge), a, b) == Cell(Relabel(kept + incr, cmap), a, b) + Cell(Relabel(gone + found, cmap), a, b)
    {
      RelabelThree(es, incr, found, cmap, a, b);
      CellConcat(Relabel(kept, cmap), Relabel(gone, cmap), a, b);
      CellConcat(Relabel(gone, cmap), Relabel(found, cmap), a, b);
      CellConcat(Relabel(kept, cmap), Relabel(incr, cmap), a, b);
    }
  }

  lemma {:induction false} PositiveCell(es: seq<Edge>, a: int, b: int)
    requires forall e | e in es :: e.w > 0
    ensures Cell(es, a, b) >= 0
    ensures es != [] && Joins(es[0].i, es[0].j, a, b) ==> Cell(es, a, b) > 0
  {
    if es != [] {
      assert es[0] in es;
      PositiveCell(es[1..], a, b);
    }
  }

  lemma PositiveWeightless(es: seq<Edge>, cmap: seq<int>, nv: nat)
    requires Within(es, |cmap|) && Bounded(cmap, nv) && forall e | e in es :: e.w > 0
    ensures Weightless(es, cmap) <==> es == []
  {
    if es != [] {
      assert es[0] in es;
      var r := Relabel(es, cmap);
      forall e | e in r ensures e.w > 0 {
        var k :| 0 <= k < |r| && r[k] == e;
        assert es[k] in es;
      }
      PositiveCell(r, r[0].i, r[0].j);
      assert 0 <= r[0].i && 0 <= r[0].j;
    }
  }

  /**
   The server removes its edges from the store before it prepares the batch.  Removals then find
   nothing: the community graph goes on reflecting the graph that still has these edges, and with
   positive weights it reflects the graph without them exactly when there were none.
   */
  lemma RemovedStay(d: seq<int>, ge: seq<Edge>, es: seq<Edge>, kept: seq<Edge>, gone: seq<Edge>, incr: seq<Edge>, rem: seq<(int, int)>,
                    adj: seq<seq<Nbr>>, cmap: seq<int>, nv: nat)
    requires PairsWithin(rem, |adj|) && |adj| == |cmap| && Within(es, |cmap|) && Within(kept, |cmap|) && Within(gone, |cmap|) && Within(incr, |cmap|)
    requires SameGraph(es, kept + gone) && NoneListed(rem, adj) && Bounded(cmap, nv)
    requires Reflects(d, ge, es + Changes(incr, rem, adj), cmap)
    ensures Reflects(d, ge, es + incr, cmap)
    ensures (forall e | e in gone :: e.w > 0) ==> (Reflects(d, ge, kept + incr, cmap) <==> gone == [])
  {
    hide *;
    RemovalsWithin(rem, adj);
    NothingFound(rem, adj, cmap);
    SameSelf(es);
    assert es + [] == es;
    assert Within([], |cmap|) by { WithinNone(|cmap|); }
    RemovedExactly(d, ge, es, es, [], incr, rem, adj, cmap);
    assert [] + Removals(rem, adj) == Removals(rem, adj);
    RemovedExactly(d, ge, es, kept, gone, incr, rem, adj, cmap);
    if forall e | e in gone :: e.w > 0 {
      WeightlessSum(gone, Removals(rem, adj), cmap);
      PositiveWeightless(gone, cmap, nv);
    }
  }

  lemma WithinNone(n: nat)
    ensures Within([], n)
  {
  }

  lemma SameSelf(es: seq<Edge>)
    ensures SameGraph(es, es)
  {
  }

  lemma NothingFound(rem: seq<(int, int)>, adj: seq<seq<Nbr>>, cmap: seq<int>)
    requires PairsWithin(rem, |adj|) && |adj| == |cmap| && NoneListed(rem, adj)
    ensures Within(Removals(rem, adj), |cmap|) && Weightless(Removals(rem, adj), cmap)
  {
    var found := Removals(rem, adj);
    RemovalsWithin(rem, adj);
    forall k | 0 <= k < |found| ensures found[k].w == 0 { WeightOfNone(adj[rem[k].0], rem[k].1); }
    forall a, b | 0 <= a && 0 <= b ensures Cell(Relabel(found, cmap), a, b) == 0 { WeightlessCell(Relabel(found, cmap), a, b); }
  }

  lemma WeightlessSum(gone: seq<Edge>, found: seq<Edge>, cmap: seq<int>)
    requires Within(gone, |cmap|) && Within(found, |cmap|) && Weightless(found, cmap)
    ensures Within(gone + found, |cmap|) && (Weightless(gone + found, cmap) <==> Weightless(gone, cmap))
  {
    RelabelConcat(gone, found, cmap);
    forall a, b | 0 <= a && 0 <= b ensures Cell(Relabel(gone + found, cmap), a, b) == Cell(Relabel(gone, cmap), a, b) {
      CellConcat(Relabel(gone, cmap), Relabel(found, cmap), a, b);
    }
  }

  /** One edge of weight 5, removed from the store and then from the communities: its weight stays. */
  method RemovedExample() returns (g: CommunityGraph)
    ensures g.Valid() && Reflects(g.Diag(), g.Edges(), [Edge(0, 1, 5)], [0, 1]) && !Reflects(g.Diag(), g.Edges(), [], [0, 1])
  {
    hide *;
    var d, el, cmap, vlist, mark := new int[2](_ => 0), new Edge[1](_ => Edge(0, 1, 5)), new int[2](v => v), new int[2](_ => 0), new int[2](_ => -1);
    g := new CommunityGraph(2, d, 1, el);
    ghost var es := [Edge(0, 1, 5)];
    assert d[..2] == [0, 0] && el[..1] == es && cmap[..] == [0, 1];
    assert vlist[..0] == [];
    OneEdge();
    DiagIs(g);
    EdgesIs(g);
    var _ := Preproc(g, cmap, [], [(0, 1)], [[], []], es, 0, vlist, mark, 1);
    RemovedStay(g.Diag(), g.Edges(), es, [], es, [], [(0, 1)], [[], []], [0, 1], 2);
    ghost var none: seq<Edge> := [];
    assert es + none == es && none + none == none;
  }

  lemma EdgesIs(g: CommunityGraph)
    requires g.Valid()
    ensures g.ne <= g.el.Length && g.Edges() == g.el[..g.ne]
  {
  }

  lemma OneEdge()
    ensures var es := [Edge(0, 1, 5)];
      && Within(es, 2) && Within([], 2) && Bounded([0, 1], 2) && Bounded([], 2) && PairsWithin([(0, 1)], 2) && NoneListed([(0, 1)], [[], []])
      && Reflects([0, 0], es, es, [0, 1]) && SameGraph(es, [] + es) && forall e | e in es :: e.w > 0
  {
    var es := [Edge(0, 1, 5)];
    assert [] + es == es;
    RelabelIdentity(es, 2);
    assert Identity(2) == [0, 1];
    forall a, b | 0 <= a && 0 <= b ensures Cell(Whole([0, 0], es), a, b) == Cell(es, a, b) {
      CellConcat(Diagonal([0, 0]), es, a, b);
      Contraction.DiagonalCell([0, 0], a, b);
    }
  }

  // ---------------------------------------------------------------- one update

  /** Merging communities of a graph that reflects es gives a graph that reflects es. */
  lemma ReflectsMerged(d: seq<int>, ge: seq<Edge>, es: seq<Edge>, cmap: seq<int>, d': seq<int>, ge': seq<Edge>, nv': nat, c: seq<int>)
    requires Reflects(d, ge, es, cmap) && Bounded(cmap, |c|) && UpdateCommunity.Current(d, ge, d', ge', nv', c)
    ensures Reflects(d', ge', es, Compose(c, cmap))
  {
    assert Diagonal([]) + es == es;
    QuotientComposes([], es, cmap, d, ge, c, d', ge');
  }

  // ---------------------------------------------------------------- what merging cannot repair

  lemma {:induction false} TotalConcat(es: seq<Edge>, fs: seq<Edge>)
    ensures Total(es + fs) == Total(es) + Total(fs)
  {
    if es == [] {
      assert es + fs == fs;
    } else {
      assert (es + fs)[1..] == es[1..] + fs;
      TotalConcat(es[1..], fs);
    }
  }

  // The weight taken twice, as loops of the communities it is taken from.
  function SharedLoops(cmap: seq<int>, mark: seq<int>, es: seq<Edge>): seq<Edge>
    requires |cmap| == |mark| && Within(es, |cmap|)
  {
    if es == [] then []
    else
      var e := es[|es| - 1];
      assert e in es;
      SharedLoops(cmap, mark, es[..|es| - 1]) + if Shared(cmap, mark, e) then [Edge(cmap[e.i], cmap[e.i], e.w)] else []
  }

  lemma {:induction false} SharedLoopsCell(cmap: seq<int>, mark: seq<int>, es: seq<Edge>, a: int, b: int)
    requires |cmap| == |mark| && Within(es, |cmap|)
    ensures Cell(SharedLoops(cmap, mark, es), a, b) == if a == b then SharedWeight(cmap, mark, es, a) else 0
  {
    if es != [] {
      var e := es[|es| - 1];
      assert e in es;
      var rest := SharedLoops(cmap, mark, es[..|es| - 1]);
      SharedLoopsCell(cmap, mark, es[..|es| - 1], a, b);
      CellAppend(rest, Edge(cmap[e.i], cmap[e.i], e.w), a, b);
      assert rest + [] == rest;
    }
  }

  lemma {:induction false} SharedLoopsTotal(cmap: seq<int>, mark: seq<int>, nv: nat, es: seq<Edge>)
    requires |cmap| == |mark| && Within(es, |cmap|) && Bounded(cmap, nv) && forall e | e in es :: e.w > 0
    ensures Within(SharedLoops(cmap, mark, es), nv) && Total(SharedLoops(cmap, mark, es)) >= 0
    ensures Total(SharedLoops(cmap, mark, es)) == 0 ==> forall e | e in es :: !Shared(cmap, mark, e)
  {
    if es != [] {
      var n := |es| - 1;
      var e := es[n];
      assert e in es && es == es[..n] + [e];
      var rest := SharedLoops(cmap, mark, es[..n]);
      SharedLoopsTotal(cmap, mark, nv, es[..n]);
      TotalConcat(rest, [Edge(cmap[e.i], cmap[e.i], e.w)]);
      assert rest + [] == rest;
    }
  }

  lemma ReflectsTotal(d: seq<int>, ge: seq<Edge>, es: seq<Edge>, cmap: seq<int>, nv: nat)
    requires Reflects(d, ge, es, cmap) && |d| == nv && Within(ge, nv) && Bounded(cmap, nv)
    ensures Total(Whole(d, ge)) == Total(es)
  {
    assert Whole([], es) == es;
    assert Within(Whole(d, ge), nv);
    hide Cell, Relabel, Total;
    QuotientTotals(d, ge, [], es, cmap, nv);
  }

  lemma ButFacts(d: seq<int>, ge: seq<Edge>, es: seq<Edge>, cmap: seq<int>, mark: seq<int>, nv: nat, newNv: nat)
    requires Marked(cmap, mark, nv, newNv) && ReflectsBut(d, ge, es, cmap, mark)
    ensures |cmap| == |mark| && nv <= newNv && Within(es, |cmap|) && Bounded(cmap, nv) && Bounded(cmap, newNv) && Bounded(Next(cmap, mark), newNv)
  {
  }

  lemma ButCell(d: seq<int>, ge: seq<Edge>, es: seq<Edge>, cmap: seq<int>, mark: seq<int>, a: int, b: int)
    requires |mark| == |cmap| && ReflectsBut(d, ge, es, cmap, mark) && 0 <= a && 0 <= b
    ensures Within(es, |cmap|) && Cell(Whole(d, ge), a, b) ==
            Cell(Relabel(es, Next(cmap, mark)), a, b) - if a == b then SharedWeight(cmap, mark, es, a) else 0
  {
  }

  lemma WholeMore(d: seq<int>, ge: seq<Edge>, loops: seq<Edge>)
    ensures Whole(d, ge + loops) == Whole(d, ge) + loops
  {
    assert Diagonal(d) + (ge + loops) == Diagonal(d) + ge + loops;
  }

  lemma WithinBoth(es: seq<Edge>, fs: seq<Edge>, n: nat)
    requires Within(es, n) && Within(fs, n)
    ensures Within(es + fs, n)
  {
  }

  lemma ReflectsIntro(d: seq<int>, ge: seq<Edge>, es: seq<Edge>, cmap: seq<int>)
    requires Within(es, |cmap|) && forall a, b | 0 <= a && 0 <= b :: Cell(Whole(d, ge), a, b) == Cell(Relabel(es, cmap), a, b)
    ensures Reflects(d, ge, es, cmap)
  {
  }

  // With positive weights the graph lacks weight when something was taken twice.
  lemma ButTotal(d: seq<int>, ge: seq<Edge>, es: seq<Edge>, cmap: seq<int>, mark: seq<int>, nv: nat, newNv: nat)
    requires Marked(cmap, mark, nv, newNv) && ReflectsBut(d, ge, es, cmap, mark) && |d| == newNv && Within(ge, newNv)
    requires (forall e | e in es :: e.w > 0) && Total(Whole(d, ge)) == Total(es)
    ensures NothingShared(cmap, mark, es)
  {
    hide *;
    ButFacts(d, ge, es, cmap, mark, nv, newNv);
    var loops := SharedLoops(cmap, mark, es);
    SharedLoopsTotal(cmap, mark, newNv, es);
    SharedPositive(cmap, mark, es);
    WholeMore(d, ge, loops);
    TotalConcat(Whole(d, ge), loops);
    forall a, b | 0 <= a && 0 <= b ensures Cell(Whole(d, ge + loops), a, b) == Cell(Relabel(es, Next(cmap, mark)), a, b) {
      CellConcat(Whole(d, ge), loops, a, b);
      SharedLoopsCell(cmap, mark, es, a, b);
      ButCell(d, ge, es, cmap, mark, a, b);
    }
    ReflectsIntro(d, ge + loops, es, Next(cmap, mark));
    WithinBoth(ge, loops, newNv);
    ReflectsTotal(d, ge + loops, es, Next(cmap, mark), newNv);
  }

  /** With positive weights merging never makes good what was taken twice. */
  lemma MergedExactly(d: seq<int>, ge: seq<Edge>, es: seq<Edge>, cmap: seq<int>, mark: seq<int>, nv: nat,
                      d': seq<int>, ge': seq<Edge>, nv': nat, c: seq<int>)
    requires Marked(cmap, mark, nv, |c|) && ReflectsBut(d, ge, es, cmap, mark) && UpdateCommunity.Current(d, ge, d', ge', nv', c)
    requires Bounded(Next(cmap, mark), |c|)
    ensures NothingShared(cmap, mark, es) ==> Reflects(d', ge', es, Compose(c, Next(cmap, mark)))
    ensures (forall e | e in es :: e.w > 0) && Reflects(d', ge', es, Compose(c, Next(cmap, mark))) ==> NothingShared(cmap, mark, es)
  {
    var next := Next(cmap, mark);
    ReflectsExactly(d, ge, es, cmap, mark, nv, |c|);
    UpdateCommunity.CurrentTotal(d, ge, d', ge', nv', c);
    assert |d'| == nv' && Within(ge', nv') && Bounded(Compose(c, next), nv') && |d| == |c| && Within(ge, |c|);
    hide Reflects, ReflectsBut, UpdateCommunity.Current, NothingShared, Marked, Total, Next, Bounded;
    if NothingShared(cmap, mark, es) { ReflectsMerged(d, ge, es, next, d', ge', nv', c); }
    if (forall e | e in es :: e.w > 0) && Reflects(d', ge', es, Compose(c, next)) {
      ReflectsTotal(d', ge', es, Compose(c, next), nv');
      ButTotal(d, ge, es, cmap, mark, nv, |c|);
    }
  }

  // ---------------------------------------------------------------- one update in place

  /**
   cstate_update: extract the listed vertices, then merge greedily.  Unless the merging ran out of
   edges, the next batch finds what this one found (the graph is the quotient by the map and the
   sizes are its histogram) when no moved neighbors shared a community, and with positive weights
   only then; map, sizes and list given to it say who moves.  It is enough that no two listed
   neighbors share a community.
   */
  method CstateUpdate(g: CommunityGraph, cmap: array<int>, csize: array<int>, adj: seq<seq<Nbr>>, ghost es: seq<Edge>,
                      nvlist: nat, vlist: array<int>, mark: array<int>, queueSize: nat, maximal: bool, maxsz: int,
                      score: (nat, nat) -> real, drops: nat -> bool, covered: nat -> bool)
    returns (nsteps: nat, csz: int, nonsingletons: nat, ghost nc: nat, ghost trace: seq<UpdateCommunity.Moment>)
    requires queueSize > 0 && mark.Length == cmap.Length <= csize.Length && nvlist <= vlist.Length
    requires mark != csize && mark != vlist && mark != cmap && csize != vlist && csize != cmap && cmap != vlist
    requires g.d != vlist && g.d != cmap && g.d != mark && g.d != csize
    requires |adj| == cmap.Length && AdjacencyOf(adj, es)
    requires g.Valid() && Within(g.Edges(), g.nv) && Reflects(g.Diag(), g.Edges(), es, cmap[..])
    requires Sized(csize[..], cmap[..], g.nv) && Listed(vlist[..], nvlist, mark[..])
    modifies g, g.d, g.el, cmap, csize, mark
    ensures g.Valid() && g.nv <= nc && Sized(csize[..], cmap[..], nc)
    ensures forall v | 0 <= v < mark.Length :: mark[v] == -1
    ensures Within(es, |old(cmap[..])|) && Fits(old(cmap[..]), old(csize[..]), vlist[..nvlist])
    ensures g.nv < nc <==> g.ne == 0 && g.nv < old(g.nv) + MoverCount(old(cmap[..]), old(csize[..]), vlist[..nvlist], nvlist)
    ensures g.nv == nc && NothingShared(old(cmap[..]), MarksOf(old(cmap[..]), old(csize[..]), vlist[..nvlist], old(g.nv), nvlist), es) ==>
              Reflects(g.Diag(), g.Edges(), es, cmap[..])
    ensures g.nv == nc && (forall e | e in es :: e.w > 0) && Reflects(g.Diag(), g.Edges(), es, cmap[..]) ==>
              NothingShared(old(cmap[..]), MarksOf(old(cmap[..]), old(csize[..]), vlist[..nvlist], old(g.nv), nvlist), es)
    ensures g.nv == nc && ListedApart(old(cmap[..]), vlist[..nvlist], es) ==> Reflects(g.Diag(), g.Edges(), es, cmap[..])
    ensures Within(g.Edges(), g.nv) && (g.nv == nc ==> Bounded(cmap[..], g.nv)) && nc <= csize.Length
    ensures (nc > 0 ==> UpdateCommunity.Largest(csize[..], nc, csz)) && (nsteps > 0 ==> nonsingletons == |set a | 0 <= a < nc && csize[..][a] > 1|)
    ensures |trace| == nsteps + 1 && (csz > maxsz || g.nv < 2 || covered(nsteps) || drops(nsteps)
         || g.ne == 0 || forall k: nat | k < |trace[nsteps].es| :: score(nsteps, k) <= 0.0)
  {
    hide *;
    ghost var cm, cs, list, n0 := cmap[..], csize[..], vlist[..nvlist], g.nv;
    AdjacencyWithin(adj, es);
    SizedBounded(cs, cm, n0);
    ghost var moved := UpdateEl(g, cmap, csize, adj, es, nvlist, vlist, mark, queueSize);
    GraphIs(g);
    SimpleLoopFree(g.Edges());
    ghost var d1, ge1, cm1, n1 := g.Diag(), g.Edges(), cmap[..], g.nv;
    var ne, nv, c;
    nsteps, ne, nv, c, csz, nonsingletons, nc, trace :=
      UpdateCommunity.UpdateCommunity(cmap, csize, g.ne, g.el, g.nv, g.d, maximal, maxsz, 1, -1, score, drops, covered);
    ghost var cc := c[..];
    g.nv, g.ne := nv, ne;
    GraphFits(g);
    GraphIs(g);
    MergedExactly(d1, ge1, es, cm, moved, n0, g.Diag(), g.Edges(), nv, cc);
    if ListedApart(cm, list, es) { ApartSuffices(cm, cs, list, n0, es); }
    SizedBounded(csize[..], cmap[..], nc);
  }

  lemma GraphIs(g: CommunityGraph)
    requires g.Valid()
    ensures g.ne <= g.el.Length && g.nv <= g.d.Length && g.Diag() == g.d[..g.nv] && g.Edges() == g.el[..g.ne]
  {
  }

  lemma SimpleLoopFree(es: seq<Edge>)
    requires Contraction.Simple(es)
    ensures UpdateCommunity.LoopFree(es)
  {
  }

  lemma GraphFits(g: CommunityGraph)
    requires g.ne <= g.el.Length && g.nv <= g.d.Length
    ensures g.Valid()
  {
  }

  lemma SizedBounded(csize: seq<int>, cmap: seq<int>, n: nat)
    requires Sized(csize, cmap, n)
    ensures Bounded(cmap, n) && n <= |csize|
  {
  }

  lemma AdjacencyWithin(adj: seq<seq<Nbr>>, es: seq<Edge>)
    requires AdjacencyOf(adj, es)
    ensures Within(es, |adj|)
  {
  }
}
