/**
 Weighted undirected multigraphs as edge lists, and what contracting one by a vertex map means.

 A community graph stores a diagonal `d` (weight inside each vertex) and an edge list; both are
 edges here, a diagonal entry being the loop (i, i, d[i]).  The weight between two vertices, in
 either direction, is a cell; two lists describe the same graph when all their cells agree.
 */
module Weights {
  datatype Edge = Edge(i: int, j: int, w: int)

  predicate Joins(x: int, y: int, a: int, b: int) {
    (x == a && y == b) || (x == b && y == a)
  }

  // The weight between a and b; the weight inside a when a == b.
  function Cell(es: seq<Edge>, a: int, b: int): int {
    if es == [] then 0
    else (if Joins(es[0].i, es[0].j, a, b) then es[0].w else 0) + Cell(es[1..], a, b)
  }

  ghost predicate SameGraph(es: seq<Edge>, fs: seq<Edge>) {
    forall a, b :: Cell(es, a, b) == Cell(fs, a, b)
  }

  predicate Within(es: seq<Edge>, n: nat) {
    forall e | e in es :: 0 <= e.i < n && 0 <= e.j < n
  }

  // Every edge moved to where the map m sends its ends.
  function Relabel(es: seq<Edge>, m: seq<int>): (r: seq<Edge>)
    requires Within(es, |m|)
    ensures |r| == |es|
    ensures forall k | 0 <= k < |es| :: r[k] == Edge(m[es[k].i], m[es[k].j], es[k].w)
  {
    if es == [] then []
    else assert es[0] in es; [Edge(m[es[0].i], m[es[0].j], es[0].w)] + Relabel(es[1..], m)
  }

  function Diagonal(d: seq<int>): (r: seq<Edge>)
    ensures |r| == |d| && Within(r, |d|)
    ensures forall k | 0 <= k < |d| :: r[k] == Edge(k, k, d[k])
  {
    seq(|d|, k requires 0 <= k < |d| => Edge(k, k, d[k]))
  }

  // The whole graph: diagonal and edge list.
  function Whole(d: seq<int>, es: seq<Edge>): seq<Edge> {
    Diagonal(d) + es
  }

  // (d', es') on n vertices is (d, es) with every vertex v merged into m[v].
  ghost predicate Quotient(d': seq<int>, es': seq<Edge>, d: seq<int>, es: seq<Edge>, m: seq<int>)
    requires Within(Whole(d, es), |m|)
  {
    forall a, b | 0 <= a && 0 <= b :: Cell(Whole(d', es'), a, b) == Cell(Relabel(Whole(d, es), m), a, b)
  }

  function Total(es: seq<Edge>): int {
    if es == [] then 0 else es[0].w + Total(es[1..])
  }

  // The weight of the edges whose ends differ.
  function Cut(es: seq<Edge>): int {
    if es == [] then 0 else (if es[0].i != es[0].j then es[0].w else 0) + Cut(es[1..])
  }

  // ---------------------------------------------------------------- cells of lists

  lemma {:induction false} CellConcat(es: seq<Edge>, fs: seq<Edge>, a: int, b: int)
    ensures Cell(es + fs, a, b) == Cell(es, a, b) + Cell(fs, a, b)
  {
    if es == [] {
      assert es + fs == fs;
    } else {
      assert (es + fs)[1..] == es[1..] + fs;
      CellConcat(es[1..], fs, a, b);
    }
  }

  lemma {:induction false} CellAppend(es: seq<Edge>, e: Edge, a: int, b: int)
    ensures Cell(es + [e], a, b) == Cell(es, a, b) + if Joins(e.i, e.j, a, b) then e.w else 0
  {
    CellConcat(es, [e], a, b);
    assert [e][1..] == [];
  }

  lemma RelabelConcat(es: seq<Edge>, fs: seq<Edge>, m: seq<int>)
    requires Within(es, |m|) && Within(fs, |m|)
    ensures Within(es + fs, |m|) && Relabel(es + fs, m) == Relabel(es, m) + Relabel(fs, m)
  {
  }

  function Compose(m2: seq<int>, m1: seq<int>): (r: seq<int>)
    requires forall v | 0 <= v < |m1| :: 0 <= m1[v] < |m2|
    ensures |r| == |m1| && forall v | 0 <= v < |m1| :: r[v] == m2[m1[v]]
  {
    seq(|m1|, v requires 0 <= v < |m1| => m2[m1[v]])
  }

  lemma RelabelTwice(es: seq<Edge>, m1: seq<int>, m2: seq<int>)
    requires Within(es, |m1|) && forall v | 0 <= v < |m1| :: 0 <= m1[v] < |m2|
    ensures Within(Relabel(es, m1), |m2|)
    ensures Relabel(Relabel(es, m1), m2) == Relabel(es, Compose(m2, m1))
  {
    var r := Relabel(es, m1);
    forall e | e in r ensures 0 <= e.i < |m2| && 0 <= e.j < |m2| {
      var k :| 0 <= k < |r| && r[k] == e;
      assert es[k] in es;
    }
    forall k | 0 <= k < |es| ensures Relabel(r, m2)[k] == Relabel(es, Compose(m2, m1))[k] {
      assert es[k] in es;
    }
  }

  function Identity(n: nat): (r: seq<int>)
    ensures |r| == n && forall k | 0 <= k < n :: r[k] == k
  {
    seq(n, k => k)
  }

  lemma RelabelIdentity(es: seq<Edge>, n: nat)
    requires Within(es, n)
    ensures Relabel(es, Identity(n)) == es
  {
    forall k | 0 <= k < |es| ensures Relabel(es, Identity(n))[k] == es[k] { assert es[k] in es; }
  }

  // ---------------------------------------------------------------- what the cells decide

  // The edges that do not join x and y.
  function Without(es: seq<Edge>, x: int, y: int): (r: seq<Edge>)
    ensures |r| <= |es|
    ensures forall e | e in r :: e in es
  {
    if es == [] then []
    else if Joins(es[0].i, es[0].j, x, y) then Without(es[1..], x, y)
    else [es[0]] + Without(es[1..], x, y)
  }

  lemma {:induction false} WithoutCell(es: seq<Edge>, x: int, y: int, a: int, b: int)
    ensures Cell(Without(es, x, y), a, b) == if Joins(x, y, a, b) then 0 else Cell(es, a, b)
  {
    if es != [] {
      WithoutCell(es[1..], x, y, a, b);
      assert ([es[0]] + Without(es[1..], x, y))[1..] == Without(es[1..], x, y);
    }
  }

  // The weight of the edges whose ends satisfy p.
  ghost function Mass(es: seq<Edge>, p: (int, int) -> bool): int {
    if es == [] then 0 else (if p(es[0].i, es[0].j) then es[0].w else 0) + Mass(es[1..], p)
  }

  ghost predicate Symmetric(p: (int, int) -> bool) {
    forall x, y :: p(x, y) == p(y, x)
  }

  lemma {:induction false} MassWithout(es: seq<Edge>, p: (int, int) -> bool, x: int, y: int)
    requires Symmetric(p)
    ensures Mass(es, p) == Mass(Without(es, x, y), p) + if p(x, y) then Cell(es, x, y) else 0
  {
    if es != [] {
      MassWithout(es[1..], p, x, y);
      assert ([es[0]] + Without(es[1..], x, y))[1..] == Without(es[1..], x, y);
    }
  }

  /** Lists with the same cells have the same weight between the ends any symmetric relation selects. */
  lemma {:induction false} CellsDecide(es: seq<Edge>, fs: seq<Edge>, p: (int, int) -> bool)
    requires SameGraph(es, fs) && Symmetric(p)
    ensures Mass(es, p) == Mass(fs, p)
    decreases |es| + |fs|
  {
    if es != [] || fs != [] {
      var e := if es != [] then es[0] else fs[0];
      var es', fs' := Without(es, e.i, e.j), Without(fs, e.i, e.j);
      forall a, b ensures Cell(es', a, b) == Cell(fs', a, b) {
        WithoutCell(es, e.i, e.j, a, b);
        WithoutCell(fs, e.i, e.j, a, b);
      }
      MassWithout(es, p, e.i, e.j);
      MassWithout(fs, p, e.i, e.j);
      CellsDecide(es', fs', p);
    }
  }

  lemma {:induction false} MassOfRelabel(es: seq<Edge>, m: seq<int>, a: int, b: int, p: (int, int) -> bool)
    requires Within(es, |m|)
    requires forall x, y | 0 <= x < |m| && 0 <= y < |m| :: p(x, y) == Joins(m[x], m[y], a, b)
    ensures Mass(es, p) == Cell(Relabel(es, m), a, b)
  {
    if es != [] {
      assert es[0] in es;
      assert Relabel(es, m)[1..] == Relabel(es[1..], m);
      MassOfRelabel(es[1..], m, a, b, p);
    }
  }

  /** Relabelling respects the cells: merging vertices of equal graphs gives equal graphs. */
  lemma RelabelRespects(es: seq<Edge>, fs: seq<Edge>, m: seq<int>)
    requires Within(es, |m|) && Within(fs, |m|) && SameGraph(es, fs)
    ensures SameGraph(Relabel(es, m), Relabel(fs, m))
  {
    forall a, b ensures Cell(Relabel(es, m), a, b) == Cell(Relabel(fs, m), a, b) {
      var p := (x: int, y: int) => 0 <= x < |m| && 0 <= y < |m| && Joins(m[x], m[y], a, b);
      MassOfRelabel(es, m, a, b, p);
      MassOfRelabel(fs, m, a, b, p);
      CellsDecide(es, fs, p);
    }
  }

  lemma {:induction false} TotalIsMass(es: seq<Edge>, p: (int, int) -> bool)
    requires forall x, y :: p(x, y)
    ensures Mass(es, p) == Total(es)
  {
    if es != [] { TotalIsMass(es[1..], p); }
  }

  lemma {:induction false} CutIsMass(es: seq<Edge>, p: (int, int) -> bool)
    requires forall x, y :: p(x, y) == (x != y)
    ensures Mass(es, p) == Cut(es)
  {
    if es != [] { CutIsMass(es[1..], p); }
  }

  lemma SameTotals(es: seq<Edge>, fs: seq<Edge>)
    requires SameGraph(es, fs)
    ensures Total(es) == Total(fs) && Cut(es) == Cut(fs)
  {
    var all_ := (x: int, y: int) => true;
    var off := (x: int, y: int) => x != y;
    TotalIsMass(es, all_);
    TotalIsMass(fs, all_);
    CellsDecide(es, fs, all_);
    CutIsMass(es, off);
    CutIsMass(fs, off);
    CellsDecide(es, fs, off);
  }

  lemma {:induction false} TotalOfRelabel(es: seq<Edge>, m: seq<int>)
    requires Within(es, |m|)
    ensures Total(Relabel(es, m)) == Total(es)
  {
    if es != [] {
      assert Relabel(es, m)[1..] == Relabel(es[1..], m);
      TotalOfRelabel(es[1..], m);
    }
  }

  // ---------------------------------------------------------------- quotients

  lemma {:induction false} CellOutside(es: seq<Edge>, n: nat, a: int, b: int)
    requires Within(es, n) && !(0 <= a < n && 0 <= b < n)
    ensures Cell(es, a, b) == 0
  {
    if es != [] {
      assert es[0] in es;
      CellOutside(es[1..], n, a, b);
    }
  }

  // A quotient by a map into 0..n is the relabelled graph, cell for cell.
  lemma QuotientSame(d': seq<int>, es': seq<Edge>, d: seq<int>, es: seq<Edge>, m: seq<int>, n: nat)
    requires Within(Whole(d, es), |m|) && Quotient(d', es', d, es, m)
    requires Within(Whole(d', es'), n) && forall v | 0 <= v < |m| :: 0 <= m[v] < n
    ensures SameGraph(Whole(d', es'), Relabel(Whole(d, es), m))
  {
    var r := Relabel(Whole(d, es), m);
    assert Within(r, n) by {
      forall e | e in r ensures 0 <= e.i < n && 0 <= e.j < n {
        var k :| 0 <= k < |r| && r[k] == e;
        assert Whole(d, es)[k] in Whole(d, es);
      }
    }
    forall a, b | !(0 <= a && 0 <= b) ensures Cell(Whole(d', es'), a, b) == Cell(r, a, b) {
      CellOutside(Whole(d', es'), n, a, b);
      CellOutside(r, n, a, b);
    }
  }

  /** Contracting by m1 and then by m2 is contracting by m2 after m1. */
  lemma QuotientComposes(d0: seq<int>, es0: seq<Edge>, m1: seq<int>, d1: seq<int>, es1: seq<Edge>, m2: seq<int>,
                         d2: seq<int>, es2: seq<Edge>)
    requires Within(Whole(d0, es0), |m1|) && Within(Whole(d1, es1), |m2|)
    requires forall v | 0 <= v < |m1| :: 0 <= m1[v] < |m2|
    requires Quotient(d1, es1, d0, es0, m1) && Quotient(d2, es2, d1, es1, m2)
    ensures Quotient(d2, es2, d0, es0, Compose(m2, m1))
  {
    QuotientSame(d1, es1, d0, es0, m1, |m2|);
    RelabelTwice(Whole(d0, es0), m1, m2);
    RelabelRespects(Whole(d1, es1), Relabel(Whole(d0, es0), m1), m2);
  }

  /** A quotient keeps the total weight, and its cut is the weight between different groups. */
  lemma QuotientTotals(d': seq<int>, es': seq<Edge>, d: seq<int>, es: seq<Edge>, m: seq<int>, n: nat)
    requires Within(Whole(d, es), |m|) && Quotient(d', es', d, es, m)
    requires Within(Whole(d', es'), n) && forall v | 0 <= v < |m| :: 0 <= m[v] < n
    ensures Total(Whole(d', es')) == Total(Whole(d, es))
    ensures Cut(Whole(d', es')) == Cut(Relabel(Whole(d, es), m))
  {
    QuotientSame(d', es', d, es, m, n);
    SameTotals(Whole(d', es'), Relabel(Whole(d, es), m));
    TotalOfRelabel(Whole(d, es), m);
  }
}
