/**
 Edge lists by rows: the canonical order of an edge's ends, the layout of a list by stored row,
 and the stable bucket sort that produces it.
 */
module Buckets {
  import opened Weights
  import opened Sorts
  import PrefixSum

  // ---------------------------------------------------------------- canonical order

  // Ends of different parity are stored smaller first, others larger first.
  function CanonicalOrder(i: int, j: int): (r: (int, int)) {
    if (i - j) % 2 != 0 then (if i < j then (i, j) else (j, i))
    else if i > j then (i, j) else (j, i)
  }

  /** Both orders of an edge are stored alike, and a stored edge is left as it is. */
  lemma CanonicalNormal(i: int, j: int)
    ensures CanonicalOrder(i, j) == CanonicalOrder(j, i)
    ensures CanonicalOrder(i, j) == (i, j) || CanonicalOrder(i, j) == (j, i)
    ensures var (x, y) := CanonicalOrder(i, j); CanonicalOrder(x, y) == (x, y)
  {
  }

  function CanonicalEdge(e: Edge): Edge {
    var (i, j) := CanonicalOrder(e.i, e.j);
    Edge(i, j, e.w)
  }

  // ---------------------------------------------------------------- rows

  // The (neighbor, weight) pairs of the edges stored under i, in list order.
  function RowOf(es: seq<Edge>, i: int): (r: seq<Pair>)
    ensures |r| <= |es|
  {
    if es == [] then []
    else RowOf(es[..|es| - 1], i) +
         if es[|es| - 1].i == i then [Pair(es[|es| - 1].j, es[|es| - 1].w)] else []
  }

  // Where row i begins when the rows are laid out one after another.
  function RowStart(es: seq<Edge>, i: nat): nat {
    if i == 0 then 0 else RowStart(es, i - 1) + |RowOf(es, i - 1)|
  }

  function RowEdges(i: int, row: seq<Pair>): (r: seq<Edge>)
    ensures |r| == |row| && forall k | 0 <= k < |row| :: r[k] == Edge(i, row[k].key, row[k].weight)
  {
    seq(|row|, k requires 0 <= k < |row| => Edge(i, row[k].key, row[k].weight))
  }

  // The edges of rows 0, 1, 2, ... one after another.
  function RowsEdges(rows: seq<seq<Pair>>): seq<Edge> {
    if rows == [] then []
    else RowsEdges(rows[..|rows| - 1]) + RowEdges(|rows| - 1, rows[|rows| - 1])
  }

  function RowsOf(es: seq<Edge>, nv: nat): (r: seq<seq<Pair>>)
    ensures |r| == nv && forall i | 0 <= i < nv :: r[i] == RowOf(es, i)
  {
    seq(nv, i requires 0 <= i < nv => RowOf(es, i))
  }

  lemma RowOfPrefix(es: seq<Edge>, k: nat, i: int)
    requires k < |es|
    ensures RowOf(es[..k + 1], i) == RowOf(es[..k], i) + if es[k].i == i then [Pair(es[k].j, es[k].w)] else []
  {
    assert es[..k + 1][..k] == es[..k];
  }

  lemma {:induction false} RowOfGrows(es: seq<Edge>, k: nat, i: int)
    requires k <= |es|
    ensures |RowOf(es[..k], i)| <= |RowOf(es, i)|
    ensures k < |es| && es[k].i == i ==> |RowOf(es[..k], i)| < |RowOf(es, i)|
    decreases |es| - k
  {
    if k < |es| {
      RowOfPrefix(es, k, i);
      RowOfGrows(es, k + 1, i);
    } else {
      assert es[..k] == es;
    }
  }

  lemma {:induction false} RowStartOrder(es: seq<Edge>, i: nat, j: nat)
    requires i < j
    ensures RowStart(es, i) + |RowOf(es, i)| <= RowStart(es, j)
  {
    if i < j - 1 { RowStartOrder(es, i, j - 1); }
  }

  // Dropping the last edge shortens row i by one and moves the later rows down by one.
  lemma {:induction false} RowStartShrinks(es: seq<Edge>, n: nat)
    requires es != []
    ensures RowStart(es, n) == RowStart(es[..|es| - 1], n) + if 0 <= es[|es| - 1].i < n then 1 else 0
  {
    if n > 0 { RowStartShrinks(es, n - 1); }
  }

  lemma {:induction false} RowStartTotal(es: seq<Edge>, nv: nat)
    requires forall e | e in es :: 0 <= e.i < nv
    ensures RowStart(es, nv) == |es|
  {
    if es == [] {
      RowStartEmpty(nv);
    } else {
      assert es[|es| - 1] in es;
      RowStartShrinks(es, nv);
      RowStartTotal(es[..|es| - 1], nv);
    }
  }

  lemma {:induction false} RowStartEmpty(n: nat)
    ensures RowStart([], n) == 0
  {
    if n > 0 { RowStartEmpty(n - 1); }
  }

  // ---------------------------------------------------------------- cells of rows

  function KeySum(row: seq<Pair>, x: int): int {
    if row == [] then 0
    else KeySum(row[..|row| - 1], x) + if row[|row| - 1].key == x then row[|row| - 1].weight else 0
  }

  function Keys(row: seq<Pair>): set<int> {
    set p | p in row :: p.key
  }

  lemma {:induction false} KeySumSet(row: seq<Pair>, k: nat, p: Pair, x: int)
    requires k < |row|
    ensures KeySum(row[k := p], x) == KeySum(row, x) - (if row[k].key == x then row[k].weight else 0) + (if p.key == x then p.weight else 0)
  {
    var n := |row| - 1;
    if k < n {
      assert row[k := p][..n] == row[..n][k := p];
      KeySumSet(row[..n], k, p, x);
    } else {
      assert row[k := p][..n] == row[..n];
    }
  }

  lemma KeySumPush(row: seq<Pair>, p: Pair, x: int)
    ensures KeySum(row + [p], x) == KeySum(row, x) + if p.key == x then p.weight else 0
    ensures Keys(row + [p]) == Keys(row) + {p.key}
  {
    assert (row + [p])[..|row|] == row;
    assert forall q :: q in row + [p] <==> q in row || q == p;
  }

  lemma {:induction false} KeySumMultiset(row: seq<Pair>, row': seq<Pair>, x: int)
    requires multiset(row) == multiset(row')
    ensures KeySum(row, x) == KeySum(row', x)
    decreases |row|
  {
    if row == [] {
      assert |multiset(row')| == 0;
    } else {
      var n := |row| - 1;
      var p := row[n];
      assert row == row[..n] + [p];
      assert p in multiset(row');
      var k :| 0 <= k < |row'| && row'[k] == p;
      RestSame(row, row', k);
      KeySumMultiset(row[..n], row'[..k] + row'[k + 1..], x);
      KeySumTake(row', k, x);
    }
  }

  lemma {:induction false} RestSame<T>(row: seq<T>, row': seq<T>, k: nat)
    requires row != [] && k < |row'| && row'[k] == row[|row| - 1] && multiset(row) == multiset(row')
    ensures multiset(row[..|row| - 1]) == multiset(row'[..k] + row'[k + 1..])
  {
    var p, a, b, c := row'[k], row[..|row| - 1], row'[..k], row'[k + 1..];
    assert row == a + [p];
    assert row' == b + [p] + c;
    assert multiset(a + [p]) == multiset(a) + multiset{p};
    assert multiset(b + [p] + c) == multiset(b) + multiset{p} + multiset(c);
    assert multiset(b + c) == multiset(b) + multiset(c);
    assert multiset(a) == multiset(row) - multiset{p};
    assert multiset(b) + multiset(c) == multiset(row') - multiset{p};
  }

  lemma KeysMultiset(row: seq<Pair>, row': seq<Pair>)
    requires multiset(row) == multiset(row')
    ensures Keys(row) == Keys(row')
  {
    assert forall p :: p in row <==> p in multiset(row);
    assert forall p :: p in row' <==> p in multiset(row');
  }

  lemma {:induction false} KeySumTake(row: seq<Pair>, k: nat, x: int)
    requires k < |row|
    ensures KeySum(row, x) == KeySum(row[..k] + row[k + 1..], x) + if row[k].key == x then row[k].weight else 0
  {
    var n := |row| - 1;
    if k < n {
      assert (row[..k] + row[k + 1..])[..n - 1] == row[..n][..k] + row[..n][k + 1..];
      KeySumTake(row[..n], k, x);
    } else {
      assert row[..k] + row[k + 1..] == row[..n];
    }
  }

  lemma {:induction false} RowCell(i: int, row: seq<Pair>, a: int, b: int)
    ensures Cell(RowEdges(i, row), a, b) == if a == i then KeySum(row, b) else if b == i then KeySum(row, a) else 0
  {
    if row == [] {
    } else {
      var n := |row| - 1;
      assert RowEdges(i, row) == RowEdges(i, row[..n]) + [Edge(i, row[n].key, row[n].weight)];
      CellAppend(RowEdges(i, row[..n]), Edge(i, row[n].key, row[n].weight), a, b);
      RowCell(i, row[..n], a, b);
    }
  }

  // The cells a layout of rows has, row by row.
  function RowsCell(rows: seq<seq<Pair>>, a: int, b: int): int {
    if rows == [] then 0
    else RowsCell(rows[..|rows| - 1], a, b) + Cell(RowEdges(|rows| - 1, rows[|rows| - 1]), a, b)
  }

  lemma {:induction false} RowsEdgesCell(rows: seq<seq<Pair>>, a: int, b: int)
    ensures Cell(RowsEdges(rows), a, b) == RowsCell(rows, a, b)
  {
    if rows != [] {
      var n := |rows| - 1;
      RowsEdgesCell(rows[..n], a, b);
      CellConcat(RowsEdges(rows[..n]), RowEdges(n, rows[n]), a, b);
    }
  }

  lemma LastRowCell(es: seq<Edge>, i: int, a: int, b: int)
    requires es != []
    ensures var e := es[|es| - 1];
      Cell(RowEdges(i, RowOf(es, i)), a, b) ==
      Cell(RowEdges(i, RowOf(es[..|es| - 1], i)), a, b) + if e.i == i && Joins(e.i, e.j, a, b) then e.w else 0
  {
    var e, es' := es[|es| - 1], es[..|es| - 1];
    if e.i == i {
      assert RowEdges(i, RowOf(es, i)) == RowEdges(i, RowOf(es', i)) + [e];
      CellAppend(RowEdges(i, RowOf(es', i)), e, a, b);
    } else {
      assert RowOf(es, i) == RowOf(es', i);
    }
  }

  lemma RowsCellSplit(es: seq<Edge>, n: nat, a: int, b: int)
    ensures RowsCell(RowsOf(es, n + 1), a, b) == RowsCell(RowsOf(es, n), a, b) + Cell(RowEdges(n, RowOf(es, n)), a, b)
  {
    assert RowsOf(es, n + 1)[..n] == RowsOf(es, n);
  }

  // Adding an edge to the list adds its weight to one cell of the rows.
  lemma {:induction false} RowsCellGrows(es: seq<Edge>, nv: nat, a: int, b: int)
    requires es != []
    ensures var e := es[|es| - 1];
      RowsCell(RowsOf(es, nv), a, b) ==
      RowsCell(RowsOf(es[..|es| - 1], nv), a, b) + if 0 <= e.i < nv && Joins(e.i, e.j, a, b) then e.w else 0
  {
    if nv > 0 {
      var n := nv - 1;
      RowsCellSplit(es, n, a, b);
      RowsCellSplit(es[..|es| - 1], n, a, b);
      hide RowsCell, RowOf, Cell, RowEdges, RowsOf;
      RowsCellGrows(es, n, a, b);
      LastRowCell(es, n, a, b);
    }
  }

  lemma {:induction false} RowsCellEmpty(nv: nat, a: int, b: int)
    ensures RowsCell(RowsOf([], nv), a, b) == 0
  {
    if nv > 0 {
      assert RowsOf([], nv)[..nv - 1] == RowsOf([], nv - 1);
      RowsCellEmpty(nv - 1, a, b);
    }
  }

  /** Laying a list out by rows keeps its cells. */
  lemma {:induction false} BucketCell(es: seq<Edge>, nv: nat, a: int, b: int)
    requires forall e | e in es :: 0 <= e.i < nv
    ensures RowsCell(RowsOf(es, nv), a, b) == Cell(es, a, b)
  {
    if es == [] {
      RowsCellEmpty(nv, a, b);
    } else {
      var n := |es| - 1;
      assert es[n] in es && es == es[..n] + [es[n]];
      RowsCellGrows(es, nv, a, b);
      BucketCell(es[..n], nv, a, b);
      CellAppend(es[..n], es[n], a, b);
    }
  }

  // ---------------------------------------------------------------- the bucket sort

  // off[i] is the start of row i and tail holds the rows one after another.
  ghost predicate BucketedRow(off: seq<int>, tail: seq<Pair>, i: nat, row: seq<Pair>) {
    && i + 1 < |off| && 0 <= off[i] <= off[i + 1] <= |tail| && tail[off[i]..off[i + 1]] == row
  }

  ghost predicate Bucketed(off: seq<int>, tail: seq<Pair>, rows: seq<seq<Pair>>) {
    && |off| == |rows| + 1 && off[0] == 0
    && (forall i: nat | i < |rows| :: BucketedRow(off, tail, i, rows[i]))
  }

  // Row i's part of the first k edges is in place, and off[i + 1] is where it goes on.
  ghost predicate PlacingRow(es: seq<Edge>, k: nat, i: nat, off: seq<int>, tail: seq<Pair>) {
    && k <= |es| && i + 1 < |off|
    && off[i + 1] == RowStart(es, i) + |RowOf(es[..k], i)| && off[i + 1] <= |tail|
    && tail[RowStart(es, i)..off[i + 1]] == RowOf(es[..k], i)
  }

  ghost predicate Placing(es: seq<Edge>, nv: nat, k: nat, off: seq<int>, tail: seq<Pair>) {
    && k <= |es| == |tail| && |off| == nv + 1 && off[0] == 0
    && (forall i: nat | i < nv :: PlacingRow(es, k, i, off, tail))
  }

  lemma RowFits(es: seq<Edge>, nv: nat, i: nat)
    requires i < nv && forall e | e in es :: 0 <= e.i < nv
    ensures RowStart(es, i) + |RowOf(es, i)| <= |es|
  {
    RowStartTotal(es, nv);
    RowStartOrder(es, i, nv);
  }

  lemma PlaceHere(es: seq<Edge>, nv: nat, k: nat, i: nat, off: seq<int>, tail: seq<Pair>)
    requires k < |es| == |tail| && es[k].i == i < nv && forall e | e in es :: 0 <= e.i < nv
    requires PlacingRow(es, k, i, off, tail)
    ensures 0 <= off[i + 1] < |tail|
    ensures PlacingRow(es, k + 1, i, off[i + 1 := off[i + 1] + 1], tail[off[i + 1] := Pair(es[k].j, es[k].w)])
    ensures RowStart(es, i) <= off[i + 1] < RowStart(es, i) + |RowOf(es, i)|
  {
    RowOfGrows(es, k, i);
    RowOfPrefix(es, k, i);
    RowFits(es, nv, i);
    hide RowOf, RowStart;
  }

  lemma PlaceElsewhere(es: seq<Edge>, k: nat, i: nat, off: seq<int>, tail: seq<Pair>, r: nat, loc: nat, p: Pair)
    requires k < |es| && loc < |tail| && r != es[k].i == i && i + 1 < |off| && PlacingRow(es, k, r, off, tail)
    requires RowStart(es, i) <= loc < RowStart(es, i) + |RowOf(es, i)|
    ensures PlacingRow(es, k + 1, r, off[i + 1 := loc + 1], tail[loc := p])
  {
    RowOfGrows(es, k, r);
    RowOfPrefix(es, k, r);
    if r < i { RowStartOrder(es, r, i); } else { RowStartOrder(es, i, r); }
    hide RowOf, RowStart;
  }

  lemma PlaceNext(es: seq<Edge>, nv: nat, k: nat, off: seq<int>, tail: seq<Pair>)
    requires Placing(es, nv, k, off, tail) && k < |es| && forall e | e in es :: 0 <= e.i < nv
    ensures var i := es[k].i;
      && 0 <= i < nv && 0 <= off[i + 1] < |tail|
      && Placing(es, nv, k + 1, off[i + 1 := off[i + 1] + 1], tail[off[i + 1] := Pair(es[k].j, es[k].w)])
  {
    var i := es[k].i;
    assert es[k] in es && PlacingRow(es, k, i, off, tail);
    PlaceHere(es, nv, k, i, off, tail);
    var loc, off', tail' := off[i + 1], off[i + 1 := off[i + 1] + 1], tail[off[i + 1] := Pair(es[k].j, es[k].w)];
    var k' := k + 1;
    hide PlacingRow, RowOf, RowStart;
    forall r: nat | r < nv ensures PlacingRow(es, k', r, off', tail') {
      assert PlacingRow(es, k, r, off, tail);
      if r != i { PlaceElsewhere(es, k, i, off, tail, r, loc, Pair(es[k].j, es[k].w)); }
    }
  }

  lemma {:induction false} CountsAreStarts(es: seq<Edge>, counts: seq<int>, i: nat)
    requires i <= |counts| && forall r | 0 <= r < |counts| :: counts[r] == |RowOf(es, r)|
    ensures PrefixSum.SumTo(counts, i) == RowStart(es, i)
  {
    if i > 0 { CountsAreStarts(es, counts, i - 1); }
  }

  lemma PlacingStarts(es: seq<Edge>, nv: nat, off: seq<int>, tail: seq<Pair>)
    requires |tail| == |es| && |off| == nv + 1 && off[0] == 0 && forall e | e in es :: 0 <= e.i < nv
    requires forall i: nat | i < nv :: off[i + 1] == RowStart(es, i)
    ensures Placing(es, nv, 0, off, tail)
  {
    assert es[..0] == [];
    forall i: nat | i < nv ensures PlacingRow(es, 0, i, off, tail) { RowFits(es, nv, i); }
    hide RowStart;
  }

  lemma PlacingEnds(es: seq<Edge>, nv: nat, off: seq<int>, tail: seq<Pair>)
    requires Placing(es, nv, |es|, off, tail) && forall e | e in es :: 0 <= e.i < nv
    ensures Bucketed(off, tail, RowsOf(es, nv)) && off[nv] == |es|
  {
    assert es[..|es|] == es;
    forall i: nat | i <= nv ensures off[i] == RowStart(es, i) {
      if i > 0 {
        var j: nat := i - 1;
        assert PlacingRow(es, |es|, j, off, tail);
      }
    }
    RowStartTotal(es, nv);
    forall i: nat | i < nv ensures BucketedRow(off, tail, i, RowsOf(es, nv)[i]) {
      assert PlacingRow(es, |es|, i, off, tail);
    }
    hide PlacingRow, RowOf, RowStart;
  }

  /** rough_bucket_sort_el: a stable counting sort by stored row. */
  method RoughBucketSortEl(nv: nat, ne: nat, el: array<Edge>, off: array<int>, tail: array<Pair>)
    requires ne <= el.Length && off.Length == nv + 1 && tail.Length >= ne
    requires forall k | 0 <= k < ne :: 0 <= el[k].i < nv
    modifies off, tail
    ensures Bucketed(off[..], tail[..ne], RowsOf(el[..ne], nv)) && off[nv] == ne
  {
    ghost var es := el[..ne];
    assert forall e | e in es :: 0 <= e.i < nv;
    CountRows(nv, ne, el, off);
    ghost var counts := off[..];
    var _ := PrefixSum.Serial(off, 1, nv);
    BucketStarts(es, nv, counts, off[..]);
    PlacingStarts(es, nv, off[..], tail[..ne]);
    PlaceAll(nv, ne, el, off, tail);
    PlacingEnds(es, nv, off[..], tail[..ne]);
  }

  method PlaceAll(nv: nat, ne: nat, el: array<Edge>, off: array<int>, tail: array<Pair>)
    requires ne <= el.Length && tail.Length >= ne && forall e | e in el[..ne] :: 0 <= e.i < nv
    requires Placing(el[..ne], nv, 0, off[..], tail[..ne])
    modifies off, tail
    ensures Placing(el[..ne], nv, ne, off[..], tail[..ne])
  {
    hide *;
    var k := 0;
    while k < ne
      invariant 0 <= k <= ne
      invariant Placing(el[..ne], nv, k, off[..], tail[..ne])
    {
      PlaceOne(nv, ne, el, off, tail, k);
      k := k + 1;
    }
  }

  // One turn of the placing loop.
  method PlaceOne(nv: nat, ne: nat, el: array<Edge>, off: array<int>, tail: array<Pair>, k: nat)
    requires k < ne <= el.Length && tail.Length >= ne && forall e | e in el[..ne] :: 0 <= e.i < nv
    requires Placing(el[..ne], nv, k, off[..], tail[..ne])
    modifies off, tail
    ensures Placing(el[..ne], nv, k + 1, off[..], tail[..ne])
  {
    ghost var es, off0, tail0 := el[..ne], off[..], tail[..ne];
    PlaceNext(es, nv, k, off0, tail0);
    assert |off0| == nv + 1;
    hide Placing;
    var i := el[k].i;
    assert i == es[k].i && el[k] == es[k];
    var loc := off[i + 1];
    off[i + 1] := loc + 1;
    tail[loc] := Pair(el[k].j, el[k].w);
    assert off[..] == off0[i + 1 := loc + 1];
    assert tail[..ne] == tail0[loc := Pair(es[k].j, es[k].w)];
  }

  lemma BucketStarts(es: seq<Edge>, nv: nat, counts: seq<int>, off: seq<int>)
    requires |counts| == nv + 1 && off == PrefixSum.ExclusiveAt(counts, 1, nv)
    requires counts[0] == 0 && forall i: nat | i < nv :: counts[i + 1] == |RowOf(es, i)|
    ensures off[0] == 0 && forall i: nat | i < nv :: off[i + 1] == RowStart(es, i)
  {
    PrefixSum.ExclusiveAtIndex(counts, 1, nv, 0);
    forall i: nat | i < nv ensures off[i + 1] == RowStart(es, i) {
      PrefixSum.ExclusiveAtIndex(counts, 1, nv, i + 1);
      CountsAreStarts(es, counts[1..1 + nv], i);
    }
  }

  // The counting loop: off[i + 1] becomes the number of edges stored under i.
  method CountRows(nv: nat, ne: nat, el: array<Edge>, off: array<int>)
    requires ne <= el.Length && off.Length == nv + 1
    requires forall k | 0 <= k < ne :: 0 <= el[k].i < nv
    modifies off
    ensures off[0] == 0 && forall i: nat | i < nv :: off[i + 1] == |RowOf(el[..ne], i)|
  {
    var k := 0;
    while k <= nv
      invariant 0 <= k <= nv + 1
      invariant forall i | 0 <= i < k :: off[i] == 0
    {
      off[k] := 0;
      k := k + 1;
    }
    ghost var es := el[..ne];
    k := 0;
    assert es[..0] == [];
    while k < ne
      invariant 0 <= k <= ne && off[0] == 0 && es == el[..ne]
      invariant forall i: nat | i < nv :: off[i + 1] == |RowOf(es[..k], i)|
    {
      var r := el[k].i;
      assert r == es[k].i && 0 <= r < nv;
      ghost var was, now := es[..k], es[..k + 1];
      forall i: nat | i < nv ensures |RowOf(now, i)| == |RowOf(was, i)| + if r == i then 1 else 0 { RowOfPrefix(es, k, i); }
      hide RowOf;
      ghost var off0 := off[..];
      off[r + 1] := off[r + 1] + 1;
      forall i: nat | i < nv ensures off[i + 1] == |RowOf(now, i)| { assert off0[i + 1] == |RowOf(was, i)|; }
      k := k + 1;
    }
    assert es[..ne] == es;
  }
}
