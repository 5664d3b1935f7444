/**
 contract_el and contract_self_el: the graph that contraction leaves in place is the exact
 quotient, tidily laid out by rows.
 */
module Contraction {
  import opened Weights
  import opened Sorts
  import opened Buckets
  import opened Contract

  // ---------------------------------------------------------------- the diagonal

  lemma {:induction false} LoopsCell(es: seq<Edge>, a: int, b: int)
    requires a != b && forall e | e in es :: e.i == e.j
    ensures Cell(es, a, b) == 0
  {
    if es != [] {
      assert es[0] in es;
      LoopsCell(es[1..], a, b);
    }
  }

  lemma {:induction false} DiagonalCell(d: seq<int>, a: int, b: int)
    ensures Cell(Diagonal(d), a, b) == if a == b && 0 <= a < |d| then d[a] else 0
  {
    if a != b {
      LoopsCell(Diagonal(d), a, b);
    } else if d != [] {
      var n := |d| - 1;
      assert Diagonal(d) == Diagonal(d[..n]) + [Edge(n, n, d[n])];
      DiagonalCell(d[..n], a, b);
      CellAppend(Diagonal(d[..n]), Edge(n, n, d[n]), a, b);
    }
  }

  // The sum of the entries that m sends to a.
  function GroupSum(d: seq<int>, m: seq<int>, a: int): int
    requires |d| == |m|
  {
    if d == [] then 0
    else GroupSum(d[..|d| - 1], m[..|d| - 1], a) + if m[|d| - 1] == a then d[|d| - 1] else 0
  }

  lemma GroupSumNext(d: seq<int>, m: seq<int>, k: nat, a: int)
    requires |d| == |m| && k < |d|
    ensures GroupSum(d[..k + 1], m[..k + 1], a) == GroupSum(d[..k], m[..k], a) + if m[k] == a then d[k] else 0
  {
    assert d[..k + 1][..k] == d[..k] && m[..k + 1][..k] == m[..k];
  }

  lemma {:induction false} GroupCell(d: seq<int>, m: seq<int>, a: int, b: int)
    requires |d| == |m|
    ensures Cell(Relabel(Diagonal(d), m), a, b) == if a == b then GroupSum(d, m, a) else 0
  {
    var r := Relabel(Diagonal(d), m);
    if a != b {
      LoopsCell(r, a, b);
    } else if d == [] {
    } else {
      var n := |d| - 1;
      assert r == Relabel(Diagonal(d[..n]), m[..n]) + [Edge(m[n], m[n], d[n])];
      CellAppend(Relabel(Diagonal(d[..n]), m[..n]), Edge(m[n], m[n], d[n]), a, b);
      GroupCell(d[..n], m[..n], a, b);
    }
  }

  /** Each new diagonal entry is the sum of the entries merged into it. */
  method CollapseDiagonal(oldNv: nat, newNv: nat, m: seq<int>, d: array<int>, count: array<int>)
    requires |m| == oldNv <= d.Length && newNv <= d.Length && count.Length == newNv + 1 && count != d
    requires forall v | 0 <= v < oldNv :: m[v] < newNv
    modifies d, count
    ensures forall a | 0 <= a < newNv :: d[a] == GroupSum(old(d[..oldNv]), m, a)
    ensures forall a | newNv <= a < d.Length :: d[a] == old(d[a])
    ensures forall a | 0 <= a <= newNv :: count[a] == 0
  {
    ghost var d0 := d[..oldNv];
    var i := 0;
    while i <= newNv
      invariant 0 <= i <= newNv + 1 && d[..] == old(d[..])
      invariant forall a | 0 <= a < i :: count[a] == 0
    {
      count[i] := 0;
      i := i + 1;
    }
    var v := 0;
    assert d0[..0] == [] && m[..0] == [];
    while v < oldNv
      invariant 0 <= v <= oldNv && d[..] == old(d[..]) && count[newNv] == 0
      invariant forall a | 0 <= a < newNv :: count[a] == GroupSum(d0[..v], m[..v], a)
    {
      forall a | 0 <= a < newNv
        ensures GroupSum(d0[..v + 1], m[..v + 1], a) == GroupSum(d0[..v], m[..v], a) + if m[v] == a then d0[v] else 0
      {
        GroupSumNext(d0, m, v, a);
      }
      var newI := m[v];
      if newI >= 0 { count[newI] := count[newI] + d[v]; }
      v := v + 1;
    }
    assert d0[..oldNv] == d0 && m[..oldNv] == m;
    i := 0;
    while i < newNv
      invariant 0 <= i <= newNv
      invariant forall a | 0 <= a < i :: d[a] == GroupSum(d0, m, a)
      invariant forall a | i <= a < newNv :: count[a] == GroupSum(d0, m, a)
      invariant forall a | newNv <= a < d.Length :: d[a] == old(d[a])
      invariant count[newNv] == 0 && forall a | 0 <= a < i :: count[a] == 0
    {
      d[i] := count[i];
      count[i] := 0;
      i := i + 1;
    }
  }

  // ---------------------------------------------------------------- canonical edges

  function CanonicalEdges(es: seq<Edge>): (r: seq<Edge>)
    ensures |r| == |es| && forall k | 0 <= k < |es| :: r[k] == CanonicalEdge(es[k])
  {
    seq(|es|, k requires 0 <= k < |es| => CanonicalEdge(es[k]))
  }

  lemma {:induction false} CanonicalCell(es: seq<Edge>, a: int, b: int)
    ensures Cell(CanonicalEdges(es), a, b) == Cell(es, a, b)
  {
    if es != [] {
      assert CanonicalEdges(es)[1..] == CanonicalEdges(es[1..]);
      CanonicalNormal(es[0].i, es[0].j);
      CanonicalCell(es[1..], a, b);
    }
  }

  predicate Canonical(es: seq<Edge>, nv: nat) {
    forall k | 0 <= k < |es| :: 0 <= es[k].i < nv && 0 <= es[k].j < nv && CanonicalOrder(es[k].i, es[k].j) == (es[k].i, es[k].j)
  }

  lemma CanonicalEdgesAre(es: seq<Edge>, nv: nat)
    requires forall k | 0 <= k < |es| :: 0 <= es[k].i < nv && 0 <= es[k].j < nv
    ensures Canonical(CanonicalEdges(es), nv)
  {
    forall k | 0 <= k < |es| ensures CanonicalOrder(CanonicalEdge(es[k]).i, CanonicalEdge(es[k]).j) == (CanonicalEdge(es[k]).i, CanonicalEdge(es[k]).j) {
      CanonicalNormal(es[k].i, es[k].j);
    }
  }

  // ---------------------------------------------------------------- rows of the result

  // Some edge joins a and b.
  ghost predicate Adjacent(es: seq<Edge>, a: int, b: int) {
    exists k :: 0 <= k < |es| && Joins(es[k].i, es[k].j, a, b)
  }

  // es[lo..hi) are the edges stored under i, without loops, by ascending neighbor.
  predicate TidyRow(es: seq<Edge>, lo: int, hi: int, i: int) {
    && 0 <= lo <= hi <= |es|
    && (forall k | lo <= k < hi :: es[k].i == i && es[k].j != i)
    && (forall k, l | lo <= k < l < hi :: es[k].j < es[l].j)
  }

  // The list is laid out by rows, one after another.
  ghost predicate Tidy(es: seq<Edge>, rowstart: seq<int>, rowend: seq<int>, nv: nat) {
    && Canonical(es, nv) && nv <= |rowstart| && nv <= |rowend|
    && (forall i: nat | i < nv :: TidyRow(es, rowstart[i], rowend[i], i))
    && RowsTile(rowstart, rowend, nv, |es|)
  }

  ghost predicate RowsTile(rowstart: seq<int>, rowend: seq<int>, nv: nat, n: nat) {
    && nv <= |rowstart| && nv <= |rowend|
    && (forall i: nat | i < nv :: rowstart[i] == if i == 0 then 0 else rowend[i - 1])
    && n == if nv == 0 then 0 else rowend[nv - 1]
  }

  lemma {:induction false} RowsEdgesSlice(outs: seq<seq<Pair>>, i: nat)
    requires i < |outs|
    ensures var lo := |RowsEdges(outs[..i])|;
      lo + |outs[i]| <= |RowsEdges(outs)| && RowsEdges(outs)[lo..lo + |outs[i]|] == RowEdges(i, outs[i])
    decreases |outs|
  {
    var n := |outs| - 1;
    if i < n {
      assert outs[..n][..i] == outs[..i];
      RowsEdgesSlice(outs[..n], i);
    }
  }

  // Which row an edge of a layout of rows comes from.
  lemma {:induction false} RowsEdgesFrom(outs: seq<seq<Pair>>, k: nat) returns (i: nat, p: nat)
    requires k < |RowsEdges(outs)|
    ensures i < |outs| && p < |outs[i]| && RowsEdges(outs)[k] == Edge(i, outs[i][p].key, outs[i][p].weight)
    ensures k == |RowsEdges(outs[..i])| + p
  {
    var n := |outs| - 1;
    var m := |RowsEdges(outs[..n])|;
    if k < m {
      i, p := RowsEdgesFrom(outs[..n], k);
      assert outs[..n][..i] == outs[..i];
    } else {
      i, p := n, k - m;
    }
  }

  ghost predicate Stored(es: seq<Edge>, i: int, x: int) {
    exists k :: 0 <= k < |es| && es[k].i == i && es[k].j == x
  }

  lemma StoredLast(es: seq<Edge>, i: int, x: int)
    requires es != []
    ensures var n := |es| - 1; Stored(es, i, x) <==> Stored(es[..n], i, x) || (es[n].i == i && es[n].j == x)
  {
    var n := |es| - 1;
    if Stored(es[..n], i, x) {
      var k :| 0 <= k < n && es[..n][k].i == i && es[..n][k].j == x;
      assert es[k] == es[..n][k];
    }
    if Stored(es, i, x) {
      var k :| 0 <= k < |es| && es[k].i == i && es[k].j == x;
      assert k < n ==> es[..n][k] == es[k];
    }
  }

  lemma {:induction false} RowOfMembers(es: seq<Edge>, i: int, x: int)
    ensures x in Keys(RowOf(es, i)) <==> Stored(es, i, x)
  {
    if es != [] {
      var n := |es| - 1;
      RowOfMembers(es[..n], i, x);
      StoredLast(es, i, x);
      KeySumPush(RowOf(es[..n], i), Pair(es[n].j, es[n].w), x);
      assert RowOf(es, i) == RowOf(es[..n], i) + if es[n].i == i then [Pair(es[n].j, es[n].w)] else [];
      hide Stored, RowOf, Keys, KeySum;
      assert es[n].i != i ==> RowOf(es, i) == RowOf(es[..n], i);
    }
  }

  // What every row's collapse leaves.
  ghost predicate AllCollapsed(rows: seq<seq<Pair>>, outs: seq<seq<Pair>>, d0: seq<int>, d: seq<int>) {
    && |rows| == |outs| <= |d| == |d0|
    && forall i: nat | i < |rows| :: Collapsed(rows[i], outs[i], i, d[i] - d0[i])
  }

  lemma NoKeyNoSum(row: seq<Pair>, x: int)
    requires x !in Keys(row)
    ensures KeySum(row, x) == 0
  {
    if row != [] {
      assert row[|row| - 1] in row;
      assert Keys(row[..|row| - 1]) <= Keys(row) by { forall p | p in row[..|row| - 1] ensures p in row {} }
      NoKeyNoSum(row[..|row| - 1], x);
    }
  }

  lemma {:induction false} CollapsedRowsCell(rows: seq<seq<Pair>>, outs: seq<seq<Pair>>, d0: seq<int>, d: seq<int>, n: nat, a: int, b: int)
    requires AllCollapsed(rows, outs, d0, d) && n <= |rows|
    ensures RowsCell(outs[..n], a, b) + (if a == b && 0 <= a < n then d[a] - d0[a] else 0) == RowsCell(rows[..n], a, b)
  {
    if n > 0 {
      assert outs[..n][..n - 1] == outs[..n - 1] && rows[..n][..n - 1] == rows[..n - 1];
      CollapsedRowsCell(rows, outs, d0, d, n - 1, a, b);
      assert Collapsed(rows[n - 1], outs[n - 1], n - 1, d[n - 1] - d0[n - 1]);
      RowCell(n - 1, rows[n - 1], a, b);
      RowCell(n - 1, outs[n - 1], a, b);
      NoKeyNoSum(outs[n - 1], n - 1);
      hide KeySum, Keys;
    }
  }

  /** Collapsing every row keeps every cell, loops having moved to the diagonal. */
  lemma CollapsedSame(es: seq<Edge>, outs: seq<seq<Pair>>, d0: seq<int>, d: seq<int>, nv: nat)
    requires Canonical(es, nv) && |d| == |d0| == nv && AllCollapsed(RowsOf(es, nv), outs, d0, d)
    ensures SameGraph(Whole(d, RowsEdges(outs)), Whole(d0, es))
  {
    forall a, b ensures Cell(Whole(d, RowsEdges(outs)), a, b) == Cell(Whole(d0, es), a, b) {
      CollapsedCell(es, outs, d0, d, nv, a, b);
    }
  }

  lemma CanonicalRows(es: seq<Edge>, nv: nat)
    requires Canonical(es, nv)
    ensures forall e | e in es :: 0 <= e.i < nv
  {
  }

  lemma CollapsedCell(es: seq<Edge>, outs: seq<seq<Pair>>, d0: seq<int>, d: seq<int>, nv: nat, a: int, b: int)
    requires Canonical(es, nv) && |d| == |d0| == nv && AllCollapsed(RowsOf(es, nv), outs, d0, d)
    ensures Cell(Whole(d, RowsEdges(outs)), a, b) == Cell(Whole(d0, es), a, b)
  {
    var rows := RowsOf(es, nv);
    assert |outs| == nv && |rows| == nv;
    assert Whole(d, RowsEdges(outs)) == Diagonal(d) + RowsEdges(outs) && Whole(d0, es) == Diagonal(d0) + es;
    hide *;
    CanonicalRows(es, nv);
    CellConcat(Diagonal(d), RowsEdges(outs), a, b);
    CellConcat(Diagonal(d0), es, a, b);
    DiagonalCell(d, a, b);
    DiagonalCell(d0, a, b);
    RowsEdgesCell(outs, a, b);
    BucketCell(es, nv, a, b);
    CollapsedRowsCell(rows, outs, d0, d, nv, a, b);
    assert outs[..nv] == outs && rows[..nv] == rows;
  }

  lemma OutRow(es: seq<Edge>, outs: seq<seq<Pair>>, nv: nat, i: nat, d0: seq<int>, d: seq<int>)
    requires i < nv && AllCollapsed(RowsOf(es, nv), outs, d0, d)
    ensures |outs| == nv && Ascending(outs[i]) && forall p | 0 <= p < |outs[i]| :: outs[i][p].key != i
  {
    assert Collapsed(RowsOf(es, nv)[i], outs[i], i, d[i] - d0[i]);
    forall p | 0 <= p < |outs[i]| ensures outs[i][p].key != i {
      assert outs[i][p] in outs[i] && outs[i][p].key in Keys(outs[i]);
    }
  }

  lemma OutTidyRow(es: seq<Edge>, outs: seq<seq<Pair>>, nv: nat, i: nat, d0: seq<int>, d: seq<int>, rowstart: int, rowend: int)
    requires i < nv == |outs| && AllCollapsed(RowsOf(es, nv), outs, d0, d)
    requires rowstart == |RowsEdges(outs[..i])| && rowend == rowstart + |outs[i]|
    ensures TidyRow(RowsEdges(outs), rowstart, rowend, i)
  {
    hide RowsEdges, AllCollapsed, RowsOf, RowEdges;
    OutRow(es, outs, nv, i, d0, d);
    RowsEdgesSlice(outs, i);
    var r := RowsEdges(outs);
    forall k | rowstart <= k < rowend ensures r[k] == Edge(i, outs[i][k - rowstart].key, outs[i][k - rowstart].weight) {
      assert r[rowstart..rowend][k - rowstart] == r[k];
    }
  }

  lemma OutCanonical(es: seq<Edge>, outs: seq<seq<Pair>>, nv: nat, d0: seq<int>, d: seq<int>)
    requires Canonical(es, nv) && AllCollapsed(RowsOf(es, nv), outs, d0, d)
    ensures Canonical(RowsEdges(outs), nv)
  {
    var r := RowsEdges(outs);
    forall k | 0 <= k < |r| ensures 0 <= r[k].i < nv && 0 <= r[k].j < nv && CanonicalOrder(r[k].i, r[k].j) == (r[k].i, r[k].j) {
      var i, p := RowsEdgesFrom(outs, k);
      assert Collapsed(RowsOf(es, nv)[i], outs[i], i, d[i] - d0[i]);
      assert outs[i][p] in outs[i] && outs[i][p].key in Keys(outs[i]);
      RowOfMembers(es, i, outs[i][p].key);
    }
  }

  // What a row keeps of its neighbors.
  lemma OutKeys(es: seq<Edge>, outs: seq<seq<Pair>>, nv: nat, d0: seq<int>, d: seq<int>, i: nat, x: int)
    requires AllCollapsed(RowsOf(es, nv), outs, d0, d) && i < nv && i != x
    ensures |outs| == nv && (x in Keys(outs[i]) <==> Stored(es, i, x))
  {
    assert Collapsed(RowsOf(es, nv)[i], outs[i], i, d[i] - d0[i]);
    RowOfMembers(es, i, x);
  }

  lemma KeysFrom(outs: seq<seq<Pair>>, k: nat) returns (i: nat)
    requires k < |RowsEdges(outs)|
    ensures i < |outs| && RowsEdges(outs)[k].i == i && RowsEdges(outs)[k].j in Keys(outs[i])
  {
    var p;
    i, p := RowsEdgesFrom(outs, k);
    assert outs[i][p] in outs[i] && outs[i][p].key in Keys(outs[i]);
  }

  lemma KeysTo(outs: seq<seq<Pair>>, i: nat, x: int) returns (k: nat)
    requires i < |outs| && x in Keys(outs[i])
    ensures k < |RowsEdges(outs)| && RowsEdges(outs)[k].i == i && RowsEdges(outs)[k].j == x
  {
    var q :| q in outs[i] && q.key == x;
    var p :| 0 <= p < |outs[i]| && outs[i][p] == q;
    RowsEdgesSlice(outs, i);
    var lo := |RowsEdges(outs[..i])|;
    k := lo + p;
    assert RowsEdges(outs)[k] == RowsEdges(outs)[lo..lo + |outs[i]|][p];
  }

  lemma OutAdjacent(es: seq<Edge>, outs: seq<seq<Pair>>, nv: nat, d0: seq<int>, d: seq<int>, a: int, b: int)
    requires Canonical(es, nv) && AllCollapsed(RowsOf(es, nv), outs, d0, d) && a != b
    ensures Adjacent(RowsEdges(outs), a, b) <==> Adjacent(es, a, b)
  {
    var r := RowsEdges(outs);
    assert |outs| == nv;
    assert forall k | 0 <= k < |es| :: 0 <= es[k].i < nv;
    hide RowsEdges, AllCollapsed, Canonical, Keys;
    if Adjacent(r, a, b) {
      var k :| 0 <= k < |r| && Joins(r[k].i, r[k].j, a, b);
      var i := KeysFrom(outs, k);
      OutKeys(es, outs, nv, d0, d, i, r[k].j);
    }
    if Adjacent(es, a, b) {
      var k :| 0 <= k < |es| && Joins(es[k].i, es[k].j, a, b);
      OutKeys(es, outs, nv, d0, d, es[k].i, es[k].j);
      var l := KeysTo(outs, es[k].i, es[k].j);
      assert Joins(r[l].i, r[l].j, a, b);
    }
  }

  /** In a tidy list no two places join the same two vertices. */
  // No loop, and no two places that join the same vertices.
  ghost predicate Simple(es: seq<Edge>) {
    && (forall k | 0 <= k < |es| :: es[k].i != es[k].j)
    && forall k, l | 0 <= k < l < |es| :: !Joins(es[k].i, es[k].j, es[l].i, es[l].j)
  }

  lemma TidyIsSimple(es: seq<Edge>, rowstart: seq<int>, rowend: seq<int>, nv: nat)
    requires Tidy(es, rowstart, rowend, nv)
    ensures Simple(es)
  {
    forall k: nat, l: nat | k < l < |es| ensures !Joins(es[k].i, es[k].j, es[l].i, es[l].j) { TidySimple(es, rowstart, rowend, nv, k, l); }
    forall k: nat | k < |es| ensures es[k].i != es[k].j { TidyLoopFree(es, rowstart, rowend, nv, k); }
    hide Tidy, Joins;
  }

  lemma TidyLoopFree(es: seq<Edge>, rowstart: seq<int>, rowend: seq<int>, nv: nat, k: nat)
    requires Tidy(es, rowstart, rowend, nv) && k < |es|
    ensures es[k].i != es[k].j
  {
    var i := TidyWhere(rowstart, rowend, nv, |es|, k, nv);
    assert TidyRow(es, rowstart[i], rowend[i], i);
  }

  lemma TidySimple(es: seq<Edge>, rowstart: seq<int>, rowend: seq<int>, nv: nat, k: nat, l: nat)
    requires Tidy(es, rowstart, rowend, nv) && k < l < |es|
    ensures es[k].i != es[k].j && !Joins(es[k].i, es[k].j, es[l].i, es[l].j)
  {
    var i, j := TidyWhere(rowstart, rowend, nv, |es|, k, nv), TidyWhere(rowstart, rowend, nv, |es|, l, nv);
    assert TidyRow(es, rowstart[i], rowend[i], i) && TidyRow(es, rowstart[j], rowend[j], j);
    CanonicalNormal(es[k].i, es[k].j);
    assert es[k].i == i && es[l].i == j;
    if i == j { assert es[k].j < es[l].j; }
  }

  // The row of a place.
  ghost function TidyWhere(rowstart: seq<int>, rowend: seq<int>, nv: nat, size: nat, k: nat, n: nat): (i: nat)
    requires RowsTile(rowstart, rowend, nv, size) && 0 < n <= nv && k < rowend[n - 1]
    ensures i < n && rowstart[i] <= k < rowend[i]
  {
    if rowstart[n - 1] <= k then n - 1 else TidyWhere(rowstart, rowend, nv, size, k, n - 1)
  }

  // ---------------------------------------------------------------- the methods

  // What the shared tail of both contractions leaves: the same graph, tidily laid out.
  ghost predicate Tidied(es: seq<Edge>, d0: seq<int>, es': seq<Edge>, d: seq<int>, rowstart: seq<int>, rowend: seq<int>, nv: nat) {
    && nv <= |d| == |d0| && |es'| <= |es|
    && SameGraph(Whole(d[..nv], es'), Whole(d0[..nv], es))
    && d[nv..] == d0[nv..]
    && Tidy(es', rowstart, rowend, nv)
    && (forall a, b | a != b :: Adjacent(es', a, b) <==> Adjacent(es, a, b))
  }

  lemma RowsGiveTidied(es: seq<Edge>, d0: seq<int>, d: seq<int>, nv: nat, outs: seq<seq<Pair>>, rowstart: seq<int>, rowend: seq<int>)
    requires Canonical(es, nv) && nv <= |d| == |d0| && d[nv..] == d0[nv..] && |RowsEdges(outs)| <= |es|
    requires AllCollapsed(RowsOf(es, nv), outs, d0[..nv], d[..nv]) && RowsAt(outs, rowstart, rowend, nv)
    ensures Tidied(es, d0, RowsEdges(outs), d, rowstart, rowend, nv)
  {
    assert |outs| == nv && nv <= |rowstart| && nv <= |rowend|;
    assert forall i: nat | i < nv :: rowstart[i] == |RowsEdges(outs[..i])| && rowend[i] == rowstart[i] + |outs[i]|;
    hide *;
    var r := RowsEdges(outs);
    CollapsedSame(es, outs, d0[..nv], d[..nv], nv);
    OutCanonical(es, outs, nv, d0[..nv], d[..nv]);
    forall i: nat | i < nv ensures TidyRow(r, rowstart[i], rowend[i], i) {
      OutTidyRow(es, outs, nv, i, d0[..nv], d[..nv], rowstart[i], rowend[i]);
    }
    forall a, b | a != b ensures Adjacent(r, a, b) <==> Adjacent(es, a, b) { OutAdjacent(es, outs, nv, d0[..nv], d[..nv], a, b); }
    RowsAtTile(outs, rowstart, rowend, nv);
    TidiedIntro(es, d0, r, d, rowstart, rowend, nv);
  }

  lemma TidiedIntro(es: seq<Edge>, d0: seq<int>, es': seq<Edge>, d: seq<int>, rowstart: seq<int>, rowend: seq<int>, nv: nat)
    requires nv <= |d| == |d0| && |es'| <= |es| && nv <= |rowstart| && nv <= |rowend|
    requires SameGraph(Whole(d[..nv], es'), Whole(d0[..nv], es)) && d[nv..] == d0[nv..]
    requires Canonical(es', nv) && RowsTile(rowstart, rowend, nv, |es'|)
    requires forall i: nat | i < nv :: TidyRow(es', rowstart[i], rowend[i], i)
    requires forall a, b | a != b :: Adjacent(es', a, b) <==> Adjacent(es, a, b)
    ensures Tidied(es, d0, es', d, rowstart, rowend, nv)
  {
    hide SameGraph, Adjacent, TidyRow, Canonical, RowsTile, Whole;
  }

  lemma RowsAtTile(outs: seq<seq<Pair>>, rowstart: seq<int>, rowend: seq<int>, nv: nat)
    requires |outs| == nv && RowsAt(outs, rowstart, rowend, nv)
    ensures RowsTile(rowstart, rowend, nv, |RowsEdges(outs)|)
  {
    assert outs[..0] == [] && outs[..nv] == outs;
    forall i: nat | i < nv ensures rowstart[i] == if i == 0 then 0 else rowend[i - 1] {
      if i > 0 { RowsEdgesNext(outs, i - 1); }
    }
    if nv > 0 { RowsEdgesNext(outs, nv - 1); }
  }

  // The row loop's result, as the rows that are copied back.
  lemma RowsStateDone(rows: seq<seq<Pair>>, off: seq<int>, tmp: seq<Pair>, rowend: seq<int>, d0: seq<int>, d: seq<int>, nv: nat)
    requires RowsState(rows, off, tmp, rowend, d0, d, nv, nv)
    ensures Offsets(off, nv, |tmp|) && off[0] == 0 && nv <= |d| == |d0| && d[nv..] == d0[nv..]
    ensures nv <= |rowend| && forall i: nat | i < nv :: off[i] <= rowend[i] <= off[i + 1]
    ensures AllCollapsed(rows, RowsOut(off, tmp, rowend, nv), d0[..nv], d[..nv])
  {
    forall i: nat | i < nv
      ensures off[i] <= rowend[i] <= off[i + 1] && Collapsed(rows[i], RowsOut(off, tmp, rowend, nv)[i], i, d[..nv][i] - d0[..nv][i])
    {
      assert RowDone(rows, off, tmp, rowend, d0, d, i);
    }
    hide Collapsed, RowDone;
  }

  /**
   Bucket sort, row sort, collapse and copy back, shared by both contractions: on canonical
   edges it keeps every cell and leaves a tidy list.
   */
  method ContractRows(ne: nat, el: array<Edge>, nv: nat, d: array<int>, rowstart: array<int>, rowend: array<int>,
                      count: array<int>, tmp: array<Pair>) returns (n: nat)
    requires ne <= el.Length && nv <= d.Length && nv <= rowstart.Length && nv <= rowend.Length
    requires count.Length == nv + 1 && tmp.Length == ne && Canonical(el[..ne], nv)
    requires d != rowstart && d != rowend && d != count && rowstart != rowend && rowstart != count && rowend != count
    modifies el, d, rowstart, rowend, count, tmp
    ensures n <= ne && Tidied(old(el[..ne]), old(d[..]), el[..n], d[..], rowstart[..], rowend[..], nv)
  {
    ghost var es, d0 := el[..ne], d[..];
    assert forall k | 0 <= k < ne :: el[k] == es[k];
    RoughBucketSortEl(nv, ne, el, count, tmp);
    assert tmp[..ne] == tmp[..];
    hide *;
    SortAndCollapse(nv, tmp, count, rowend, d, RowsOf(es, nv));
    ghost var d1, ends := d[..], rowend[..];
    RowsStateDone(RowsOf(es, nv), count[..], tmp[..], ends, d0, d1, nv);
    ghost var outs := RowsOut(count[..], tmp[..], ends, nv);
    n := RoughBucketCopyBack(nv, el, rowstart, rowend, count, tmp);
    RowsGiveTidied(es, d0, d1, nv, outs, rowstart[..], rowend[..]);
  }

  // Edges moved to the new vertices and put in canonical order.
  method RelabelEdges(ne: nat, el: array<Edge>, m: seq<int>)
    requires ne <= el.Length && Within(el[..ne], |m|)
    modifies el
    ensures el[..ne] == CanonicalEdges(Relabel(old(el[..ne]), m))
  {
    ghost var es := el[..ne];
    ghost var target := CanonicalEdges(Relabel(es, m));
    assert |target| == ne;
    hide *;
    var k := 0;
    while k < ne
      invariant 0 <= k <= ne
      invariant el[..k] == target[..k] && el[k..ne] == es[k..]
    {
      RelabelAt(es, m, k);
      assert el[k] == es[k] by { assert el[k] == el[k..ne][0] && es[k] == es[k..][0]; }
      var (newI, newJ) := CanonicalOrder(m[el[k].i], m[el[k].j]);
      el[k] := Edge(newI, newJ, el[k].w);
      assert el[..k + 1] == el[..k] + [el[k]];
      k := k + 1;
    }
    assert target[..ne] == target;
  }

  lemma RelabelAt(es: seq<Edge>, m: seq<int>, k: nat)
    requires Within(es, |m|) && k < |es|
    ensures 0 <= es[k].i < |m| && 0 <= es[k].j < |m|
    ensures var (newI, newJ) := CanonicalOrder(m[es[k].i], m[es[k].j]);
      CanonicalEdges(Relabel(es, m))[k] == Edge(newI, newJ, es[k].w)
  {
    assert es[k] in es;
  }

  lemma {:induction false} RelabelAdjacent(es: seq<Edge>, m: seq<int>, a: int, b: int)
    requires Within(es, |m|)
    ensures Adjacent(CanonicalEdges(Relabel(es, m)), a, b) <==> exists k :: 0 <= k < |es| && es[k] in es && Joins(m[es[k].i], m[es[k].j], a, b)
  {
    var r := CanonicalEdges(Relabel(es, m));
    forall k | 0 <= k < |es| ensures es[k] in es && Joins(r[k].i, r[k].j, a, b) == Joins(m[es[k].i], m[es[k].j], a, b) {
      CanonicalNormal(m[es[k].i], m[es[k].j]);
    }
  }

  /**
   contract_el: (d, el) becomes its quotient by m, in place.  Vertices that m drops (a negative
   label) must have no edges.
   */
  method ContractEl(ne: nat, el: array<Edge>, oldNv: nat, newNv: nat, m: seq<int>, d: array<int>,
                    rowstart: array<int>, rowend: array<int>, count: array<int>, tmp: array<Pair>) returns (n: nat)
    requires ne <= el.Length && |m| == oldNv <= d.Length && newNv <= d.Length && newNv <= rowstart.Length && newNv <= rowend.Length
    requires count.Length == newNv + 1 && tmp.Length == ne
    requires d != rowstart && d != rowend && d != count && rowstart != rowend && rowstart != count && rowend != count
    requires Within(el[..ne], oldNv) && forall v | 0 <= v < oldNv :: m[v] < newNv
    requires forall e | e in el[..ne] :: 0 <= m[e.i] && 0 <= m[e.j]
    modifies el, d, rowstart, rowend, count, tmp
    ensures n <= ne && Within(Whole(old(d[..oldNv]), old(el[..ne])), |m|)
    ensures Quotient(d[..newNv], el[..n], old(d[..oldNv]), old(el[..ne]), m)
    ensures Tidy(el[..n], rowstart[..], rowend[..], newNv)
    ensures forall a, b | a != b :: Adjacent(el[..n], a, b) <==> Adjacent(CanonicalEdges(Relabel(old(el[..ne]), m)), a, b)
  {
    ghost var es, d0 := el[..ne], d[..oldNv];
    CollapseDiagonal(oldNv, newNv, m, d, count);
    ghost var d1 := d[..];
    RelabelEdges(ne, el, m);
    ghost var es1 := el[..ne];
    assert Canonical(es1, newNv) by {
      forall k | 0 <= k < ne ensures 0 <= Relabel(es, m)[k].i < newNv && 0 <= Relabel(es, m)[k].j < newNv { assert es[k] in es; }
      CanonicalEdgesAre(Relabel(es, m), newNv);
    }
    hide *;
    n := ContractRows(ne, el, newNv, d, rowstart, rowend, count, tmp);
    ContractedQuotient(d0, es, m, newNv, d1, es1, el[..n], d[..], rowstart[..], rowend[..]);
  }

  lemma ContractedQuotient(d0: seq<int>, es: seq<Edge>, m: seq<int>, nv: nat, d1: seq<int>, es1: seq<Edge>,
                           es2: seq<Edge>, d2: seq<int>, rowstart: seq<int>, rowend: seq<int>)
    requires |d0| == |m| && Within(es, |m|) && nv <= |d1| && es1 == CanonicalEdges(Relabel(es, m))
    requires forall a | 0 <= a < nv :: d1[a] == GroupSum(d0, m, a)
    requires forall v | 0 <= v < |m| :: m[v] < nv
    requires Tidied(es1, d1, es2, d2, rowstart, rowend, nv)
    ensures Within(Whole(d0, es), |m|) && Quotient(d2[..nv], es2, d0, es, m) && Tidy(es2, rowstart, rowend, nv)
    ensures forall a, b | a != b :: Adjacent(es2, a, b) <==> Adjacent(es1, a, b)
  {
    assert Within(Diagonal(d0), |m|) && Within(Whole(d0, es), |m|);
    RelabelConcat(Diagonal(d0), es, m);
    forall a, b | 0 <= a && 0 <= b ensures Cell(Whole(d2[..nv], es2), a, b) == Cell(Relabel(Whole(d0, es), m), a, b) {
      assert Cell(Whole(d2[..nv], es2), a, b) == Cell(Whole(d1[..nv], es1), a, b);
      CellConcat(Diagonal(d1[..nv]), es1, a, b);
      CellConcat(Relabel(Diagonal(d0), m), Relabel(es, m), a, b);
      DiagonalCell(d1[..nv], a, b);
      GroupCell(d0, m, a, b);
      CanonicalCell(Relabel(es, m), a, b);
      if a == b && nv <= a { GroupSumNone(d0, m, a); }
      hide Cell, GroupSum, Tidied, Within;
    }
  }

  lemma {:induction false} GroupSumNone(d: seq<int>, m: seq<int>, a: int)
    requires |d| == |m| && forall v | 0 <= v < |m| :: m[v] < a
    ensures GroupSum(d, m, a) == 0
  {
    if d != [] { GroupSumNone(d[..|d| - 1], m[..|d| - 1], a); }
  }

  /** contract_self_el: the same graph, tidily laid out. */
  method ContractSelfEl(ne: nat, el: array<Edge>, nv: nat, d: array<int>,
                        rowstart: array<int>, rowend: array<int>, count: array<int>, tmp: array<Pair>) returns (n: nat)
    requires ne <= el.Length && nv <= d.Length && nv <= rowstart.Length && nv <= rowend.Length
    requires count.Length == nv + 1 && tmp.Length == ne && Within(el[..ne], nv)
    requires d != rowstart && d != rowend && d != count && rowstart != rowend && rowstart != count && rowend != count
    modifies el, d, rowstart, rowend, count, tmp
    ensures n <= ne && SameGraph(Whole(d[..nv], el[..n]), Whole(old(d[..nv]), old(el[..ne])))
    ensures Tidy(el[..n], rowstart[..], rowend[..], nv)
    ensures d[nv..] == old(d[nv..])
  {
    ghost var es, d0 := el[..ne], d[..];
    var k := 0;
    while k < ne
      invariant 0 <= k <= ne && d[..] == d0
      invariant forall a | 0 <= a < k :: el[a] == CanonicalEdge(es[a])
      invariant forall a | k <= a < ne :: el[a] == es[a]
    {
      var (i, j) := CanonicalOrder(el[k].i, el[k].j);
      el[k] := Edge(i, j, el[k].w);
      k := k + 1;
    }
    assert el[..ne] == CanonicalEdges(es);
    forall k | 0 <= k < ne ensures 0 <= es[k].i < nv && 0 <= es[k].j < nv { assert es[k] in es; }
    CanonicalEdgesAre(es, nv);
    hide *;
    n := ContractRows(ne, el, nv, d, rowstart, rowend, count, tmp);
    TidiedSelf(es, d0, el[..n], d[..], rowstart[..], rowend[..], nv);
    assert d0[..nv] == old(d[..nv]) && d0[nv..] == old(d[nv..]) && d[..][..nv] == d[..nv] && d[..][nv..] == d[nv..];
  }

  lemma TidiedSelf(es: seq<Edge>, d0: seq<int>, es': seq<Edge>, d: seq<int>, rowstart: seq<int>, rowend: seq<int>, nv: nat)
    requires Tidied(CanonicalEdges(es), d0, es', d, rowstart, rowend, nv)
    ensures nv <= |d| == |d0| && SameGraph(Whole(d[..nv], es'), Whole(d0[..nv], es)) && Tidy(es', rowstart, rowend, nv) && d[nv..] == d0[nv..]
  {
    forall a, b ensures Cell(Whole(d[..nv], es'), a, b) == Cell(Whole(d0[..nv], es), a, b) {
      CellConcat(Diagonal(d0[..nv]), es, a, b);
      CellConcat(Diagonal(d0[..nv]), CanonicalEdges(es), a, b);
      CanonicalCell(es, a, b);
    }
  }
}
