/**
 update_community: matching and contracting, step after step.  Whatever the scores and wherever the
 loop stops, the graph that is left is the quotient of the graph at entry by the composed map c.
 */
module UpdateCommunity {
  import opened Weights
  import opened Sorts
  import opened Sizes
  import opened Buckets
  import opened Contract
  import opened Contraction
  import opened Matching
  import opened MatchLabels

  ghost predicate LoopFree(es: seq<Edge>) {
    forall k | 0 <= k < |es| :: es[k].i != es[k].j
  }

  // ---------------------------------------------------------------- the layout at entry

  lemma TidyRows(es: seq<Edge>, rowstart: seq<int>, rowend: seq<int>, nv: nat)
    requires Tidy(es, rowstart, rowend, nv)
    ensures Rows(es, rowstart, rowend, nv) && Within(es, nv)
  {
    forall k | 0 <= k < |es| ensures InRow(es, rowstart, rowend, nv, k) {
      var i := TidyWhere(rowstart, rowend, nv, |es|, k, nv);
      assert TidyRow(es, rowstart[i], rowend[i], i);
      assert es[k].i == i;
    }
    forall i: nat | i < nv
      ensures 0 <= rowstart[i] && rowend[i] <= |es| && forall k | rowstart[i] <= k < rowend[i] :: es[k].i == i
    {
      assert TidyRow(es, rowstart[i], rowend[i], i);
    }
    forall e | e in es ensures 0 <= e.i < nv && 0 <= e.j < nv {
      var k :| 0 <= k < |es| && es[k] == e;
    }
  }

  lemma LaidOutRow(rows: seq<seq<Pair>>, lo: int, hi: int, i: nat)
    requires i < |rows| && lo == |RowsEdges(rows[..i])| && hi == lo + |rows[i]|
    ensures hi <= |RowsEdges(rows)| && forall k | lo <= k < hi :: RowsEdges(rows)[k].i == i
  {
    var r := RowsEdges(rows);
    RowsEdgesSlice(rows, i);
    hide RowsEdges;
    forall k | lo <= k < hi ensures r[k].i == i {
      assert r[lo..hi][k - lo] == r[k];
    }
  }

  lemma LaidOutEdge(es: seq<Edge>, nv: nat, k: nat) returns (i: nat)
    requires Canonical(es, nv) && LoopFree(es) && k < |RowsEdges(RowsOf(es, nv))|
    ensures var rows := RowsOf(es, nv);
      && var e := RowsEdges(rows)[k];
      && i < nv && e.i == i && 0 <= e.j < nv && e.i != e.j
      && |RowsEdges(rows[..i])| <= k < |RowsEdges(rows[..i])| + |rows[i]|
  {
    var rows := RowsOf(es, nv);
    var p: nat;
    i, p := RowsEdgesFrom(rows, k);
    assert rows[i][p] in rows[i] && rows[i][p].key in Keys(rows[i]);
    RowOfMembers(es, i, rows[i][p].key);
  }

  // Rows laid out from a list without loops are rows of that list.
  lemma LaidOutRows(es: seq<Edge>, rowstart: seq<int>, rowend: seq<int>, nv: nat)
    requires Canonical(es, nv) && LoopFree(es) && RowsAt(RowsOf(es, nv), rowstart, rowend, nv)
    ensures Rows(RowsEdges(RowsOf(es, nv)), rowstart, rowend, nv)
  {
    var rows := RowsOf(es, nv);
    var r := RowsEdges(rows);
    hide RowsEdges, RowsOf, Canonical, LoopFree;
    forall i: nat | i < nv
      ensures 0 <= rowstart[i] && rowend[i] <= |r| && forall k | rowstart[i] <= k < rowend[i] :: r[k].i == i
    {
      LaidOutRow(rows, rowstart[i], rowend[i], i);
    }
    forall k | 0 <= k < |r| ensures InRow(r, rowstart, rowend, nv, k) {
      var i := LaidOutEdge(es, nv, k);
    }
  }

  lemma LaidOutSame(es: seq<Edge>, nv: nat)
    requires Canonical(es, nv)
    ensures SameGraph(RowsEdges(RowsOf(es, nv)), es)
  {
    forall a, b ensures Cell(RowsEdges(RowsOf(es, nv)), a, b) == Cell(es, a, b) {
      assert forall e | e in es :: 0 <= e.i < nv;
      RowsEdgesCell(RowsOf(es, nv), a, b);
      BucketCell(es, nv, a, b);
    }
  }

  lemma {:induction false} LaidOutSize(es: seq<Edge>, nv: nat, n: nat)
    requires n <= nv
    ensures |RowsEdges(RowsOf(es, nv)[..n])| == RowStart(es, n)
  {
    var rows := RowsOf(es, nv);
    if n > 0 {
      assert rows[..n][..n - 1] == rows[..n - 1];
      LaidOutSize(es, nv, n - 1);
    }
  }

  lemma LaidOutLength(es: seq<Edge>, nv: nat)
    requires Canonical(es, nv)
    ensures |RowsEdges(RowsOf(es, nv))| == |es|
  {
    assert forall e | e in es :: 0 <= e.i < nv;
    LaidOutSize(es, nv, nv);
    assert RowsOf(es, nv)[..nv] == RowsOf(es, nv);
    RowStartTotal(es, nv);
  }

  // The rows lying in tail are the rows that are copied back.
  lemma BucketedOut(off: seq<int>, tail: seq<Pair>, ends: seq<int>, rows: seq<seq<Pair>>, nv: nat)
    requires Bucketed(off, tail, rows) && |rows| == nv <= |ends|
    requires forall i: nat | i < nv :: ends[i] == off[i + 1]
    ensures Offsets(off, nv, |tail|) && off[0] == 0 && RowsOut(off, tail, ends, nv) == rows
    ensures forall i: nat | i < nv :: off[i] <= ends[i] <= off[i + 1]
  {
    forall i: nat | i < nv ensures OffsetAt(off, i, |tail|) && RowsOut(off, tail, ends, nv)[i] == rows[i] {
      assert BucketedRow(off, tail, i, rows[i]);
    }
    forall i: nat | i < nv ensures off[i] <= ends[i] <= off[i + 1] { assert OffsetAt(off, i, |tail|); }
  }

  /** The layout at entry: edges in canonical order, bucketed by row and copied back. */
  method LayOut(ne: nat, el: array<Edge>, nv: nat, rowstart: array<int>, rowend: array<int>)
    requires ne <= el.Length && nv <= rowstart.Length && nv <= rowend.Length && rowstart != rowend
    requires Within(el[..ne], nv) && LoopFree(el[..ne])
    modifies el, rowstart, rowend
    ensures SameGraph(el[..ne], old(el[..ne])) && Rows(el[..ne], rowstart[..], rowend[..], nv)
  {
    ghost var es := el[..ne];
    var k := 0;
    while k < ne
      invariant 0 <= k <= ne
      invariant forall a | 0 <= a < k :: el[a] == CanonicalEdge(es[a])
      invariant forall a | k <= a < ne :: el[a] == es[a]
    {
      var (i, j) := CanonicalOrder(el[k].i, el[k].j);
      el[k] := Edge(i, j, el[k].w);
      k := k + 1;
    }
    ghost var es1 := el[..ne];
    assert es1 == CanonicalEdges(es);
    CanonicalFacts(es, nv);
    var off, tail := new int[nv + 1], new Pair[ne];
    assert forall k | 0 <= k < ne :: el[k] == es1[k];
    RoughBucketSortEl(nv, ne, el, off, tail);
    assert tail[..ne] == tail[..];
    hide *;
    ghost var offs, rows := off[..], RowsOf(es1, nv);
    k := 0;
    while k < nv
      invariant 0 <= k <= nv && off[..] == offs && Bucketed(offs, tail[..], rows)
      invariant forall i: nat | i < k :: rowend[i] == offs[i + 1]
    {
      rowend[k] := off[k + 1];
      k := k + 1;
    }
    BucketedOut(offs, tail[..], rowend[..], rows, nv);
    var n := RoughBucketCopyBack(nv, el, rowstart, rowend, off, tail);
    LaidOutLength(es1, nv);
    LaidOutRows(es1, rowstart[..], rowend[..], nv);
    LaidOutSame(es1, nv);
    SameTrans(el[..ne], es1, es);
  }

  lemma SameTrans(es: seq<Edge>, fs: seq<Edge>, gs: seq<Edge>)
    requires SameGraph(es, fs) && SameGraph(fs, gs)
    ensures SameGraph(es, gs)
  {
  }

  lemma CanonicalFacts(es: seq<Edge>, nv: nat)
    requires Within(es, nv) && LoopFree(es)
    ensures var es1 := CanonicalEdges(es); Canonical(es1, nv) && LoopFree(es1) && SameGraph(es1, es) && forall k | 0 <= k < |es| :: 0 <= es1[k].i < nv
  {
    forall k | 0 <= k < |es| ensures 0 <= es[k].i < nv && 0 <= es[k].j < nv { assert es[k] in es; }
    CanonicalEdgesAre(es, nv);
    forall k | 0 <= k < |es| ensures CanonicalEdge(es[k]).i != CanonicalEdge(es[k]).j { CanonicalNormal(es[k].i, es[k].j); }
    forall a, b ensures Cell(CanonicalEdges(es), a, b) == Cell(es, a, b) { CanonicalCell(es, a, b); }
  }

  // ---------------------------------------------------------------- one step

  // u and v are joined by an edge of positive score.
  ghost predicate Attracted(es: seq<Edge>, s: seq<real>, u: int, v: int) {
    exists k :: 0 <= k < |es| && k < |s| && s[k] > 0.0 && Joins(es[k].i, es[k].j, u, v)
  }

  // u merges with another vertex.
  ghost predicate Joined(m: seq<int>, u: int) {
    exists v :: 0 <= u < |m| && 0 <= v < |m| && u != v && m[u] == m[v]
  }

  // Some edge whose ends merge has a score of x or more.
  ghost predicate MergedAt(es: seq<Edge>, s: seq<real>, m: seq<int>, x: real) {
    exists w :: 0 <= w < |es| && w < |s| && x <= s[w] && 0 <= es[w].i < |m| && 0 <= es[w].j < |m| && m[es[w].i] == m[es[w].j]
  }

  // What a matching's relabelling m of (es, s) onto 0..n says about the scores: pairs joined by edges of
  // positive score merge, one of the greatest among them, and every pair whose edge is better than all
  // others at its ends; if the matching is maximal, an end of every edge of positive score.
  ghost predicate Merges(maximal: bool, es: seq<Edge>, s: seq<real>, m: seq<int>, n: nat) {
    && n <= |m| && Bounded(m, n) && Onto(m, n)
    && (forall u, v | 0 <= u < v < |m| && m[u] == m[v] :: Attracted(es, s, u, v))
    && (forall u, v, w | 0 <= u < v < w < |m| :: !(m[u] == m[v] == m[w]))
    && (n == |m| ==> m == Identity(|m|)) && (n < |m| ==> exists u :: 0 <= u < |m| && Joined(m, u))
    && (forall k | 0 <= k < |es| && k < |s| && s[k] > 0.0 :: MergedAt(es, s, m, s[k]))
    && (forall k | Summit(es, s, k) :: 0 <= es[k].i < |m| && 0 <= es[k].j < |m| && m[es[k].i] == m[es[k].j])
    && (maximal ==> forall k | 0 <= k < |es| && k < |s| && s[k] > 0.0 :: Joined(m, es[k].i) || Joined(m, es[k].j))
  }

  lemma MatchingMerges(maximal: bool, es: seq<Edge>, s: seq<real>, m0: seq<int>, m: seq<int>, n: nat)
    requires IsMatching(es, s, m0) && Relabelling(es, m0, m, n) && NoneBetter(es, s, m0) && SummitsTaken(es, s, m0)
    requires Within(es, |m|) && LoopFree(es) && (maximal ==> IsMaximal(es, s, m0))
    ensures Merges(maximal, es, s, m, n)
  {
    hide *;
    RelabelFacts(es, m0, m, n);
    assert |s| == |es| by { MatchingFacts(es, s, m0); }
    forall u, v | 0 <= u < v < |m| && m[u] == m[v] ensures Attracted(es, s, u, v) { PairAttracted(es, s, m0, m, n, u, v); }
    forall u, v, w | 0 <= u < v < w < |m| ensures !(m[u] == m[v] == m[w]) { PairsOnly(es, m0, m, n, u, v, w); }
    if n < |m| {
      var v :| 0 <= v < |m0| && Partner(es, m0, v) != v;
      PartnerMerges(es, s, m0, m, n, v);
    }
    forall k | 0 <= k < |es| && s[k] > 0.0 ensures MergedAt(es, s, m, s[k]) { BestMerges(es, s, m0, m, n, k); }
    forall k | Summit(es, s, k) ensures 0 <= k < |es| && 0 <= es[k].i < |m| && 0 <= es[k].j < |m| && m[es[k].i] == m[es[k].j] {
      SummitAt(es, s, m0, k);
      TakenMerges(es, m0, m, n, k);
    }
    forall k | maximal && 0 <= k < |es| && s[k] > 0.0 ensures Joined(m, es[k].i) || Joined(m, es[k].j) { EndMerges(es, s, m0, m, n, k); }
    MergesIntro(maximal, es, s, m, n);
  }

  lemma MergesIntro(maximal: bool, es: seq<Edge>, s: seq<real>, m: seq<int>, n: nat)
    requires n <= |m| && Bounded(m, n) && Onto(m, n)
    requires forall u, v | 0 <= u < v < |m| && m[u] == m[v] :: Attracted(es, s, u, v)
    requires forall u, v, w | 0 <= u < v < w < |m| :: !(m[u] == m[v] == m[w])
    requires (n == |m| ==> m == Identity(|m|)) && (n < |m| ==> exists u :: 0 <= u < |m| && Joined(m, u))
    requires forall k | 0 <= k < |es| && k < |s| && s[k] > 0.0 :: MergedAt(es, s, m, s[k])
    requires forall k | Summit(es, s, k) :: 0 <= k < |es| && 0 <= es[k].i < |m| && 0 <= es[k].j < |m| && m[es[k].i] == m[es[k].j]
    requires maximal ==> forall k | 0 <= k < |es| && k < |s| && s[k] > 0.0 :: Joined(m, es[k].i) || Joined(m, es[k].j)
    ensures Merges(maximal, es, s, m, n)
  {
    hide Summit, MergedAt, Joined, Attracted, Onto, Bounded;
  }

  lemma RelabelFacts(es: seq<Edge>, m0: seq<int>, m: seq<int>, n: nat)
    requires Relabelling(es, m0, m, n)
    ensures |m| == |m0| && n <= |m| && Bounded(m, n) && Onto(m, n) && (n == |m| ==> m == Identity(|m|))
    ensures forall v | 0 <= v < |m0| :: m0[v] < |es|
    ensures n < |m| ==> exists v :: 0 <= v < |m0| && Partner(es, m0, v) != v
  {
    hide Onto, Bounded, Partner;
  }

  lemma MatchingFacts(es: seq<Edge>, s: seq<real>, m0: seq<int>)
    requires IsMatching(es, s, m0)
    ensures |s| == |es|
  {
  }

  lemma PairAttracted(es: seq<Edge>, s: seq<real>, m0: seq<int>, m: seq<int>, n: nat, u: int, v: int)
    requires IsMatching(es, s, m0) && Relabelling(es, m0, m, n) && 0 <= u < v < |m| && m[u] == m[v]
    ensures Attracted(es, s, u, v)
  {
    assert Partner(es, m0, u) == v;
    assert Matched(es, s, m0, u);
  }

  lemma PairsOnly(es: seq<Edge>, m0: seq<int>, m: seq<int>, n: nat, u: int, v: int, w: int)
    requires Relabelling(es, m0, m, n) && 0 <= u < v < w < |m|
    ensures !(m[u] == m[v] == m[w])
  {
    assert m[u] == m[v] ==> Partner(es, m0, u) == v;
    assert m[u] == m[w] ==> Partner(es, m0, u) == w;
    hide Partner;
  }

  lemma BestMerges(es: seq<Edge>, s: seq<real>, m0: seq<int>, m: seq<int>, n: nat, k: int)
    requires IsMatching(es, s, m0) && Relabelling(es, m0, m, n) && NoneBetter(es, s, m0) && 0 <= k < |es| && k < |s| && s[k] > 0.0
    ensures MergedAt(es, s, m, s[k])
  {
    hide Relabelling, Partner, IsMatching, Taken;
    RelabelFacts(es, m0, m, n);
    var v :| 0 <= v < |m0| && 0 <= m0[v] < |es| && s[k] <= s[m0[v]];
    MatchedTaken(es, s, m0, v);
    TakenMerges(es, m0, m, n, m0[v]);
  }

  lemma MatchedTaken(es: seq<Edge>, s: seq<real>, m: seq<int>, v: int)
    requires IsMatching(es, s, m) && 0 <= v < |m| && m[v] >= 0
    ensures Taken(es, m, m[v]) && m[v] < |es| == |s| && 0 <= es[m[v]].i < |m| && 0 <= es[m[v]].j < |m|
  {
    assert Matched(es, s, m, v);
  }

  lemma SummitAt(es: seq<Edge>, s: seq<real>, m0: seq<int>, k: int)
    requires SummitsTaken(es, s, m0) && Summit(es, s, k)
    ensures 0 <= k < |es| && Taken(es, m0, k) && 0 <= es[k].i < |m0| && 0 <= es[k].j < |m0|
  {
    hide Meets;
  }

  lemma EndMerges(es: seq<Edge>, s: seq<real>, m0: seq<int>, m: seq<int>, n: nat, k: int)
    requires IsMatching(es, s, m0) && Relabelling(es, m0, m, n) && |s| == |es| && IsMaximal(es, s, m0)
    requires Within(es, |m|) && LoopFree(es) && 0 <= k < |es| && s[k] > 0.0
    ensures Joined(m, es[k].i) || Joined(m, es[k].j)
  {
    assert es[k] in es;
    assert Eligible(es, s, m0, k) || m0[es[k].j] >= 0;
    var v := if m0[es[k].i] >= 0 then es[k].i else es[k].j;
    hide Relabelling;
    RelabelFacts(es, m0, m, n);
    MatchedMerges(es, s, m0, m, n, v);
  }

  lemma PartnerMerges(es: seq<Edge>, s: seq<real>, m0: seq<int>, m: seq<int>, n: nat, v: int)
    requires IsMatching(es, s, m0) && Relabelling(es, m0, m, n) && 0 <= v < |m0| && Partner(es, m0, v) != v
    ensures Joined(m, v)
  {
    assert Matched(es, s, m0, v);
    assert m[Partner(es, m0, v)] == m[v];
  }

  lemma TakenMerges(es: seq<Edge>, m0: seq<int>, m: seq<int>, n: nat, k: int)
    requires Relabelling(es, m0, m, n) && Taken(es, m0, k)
    ensures m[es[k].i] == m[es[k].j]
  {
    assert Partner(es, m0, es[k].i) == es[k].j;
  }

  lemma MatchedMerges(es: seq<Edge>, s: seq<real>, m0: seq<int>, m: seq<int>, n: nat, v: int)
    requires IsMatching(es, s, m0) && Relabelling(es, m0, m, n) && LoopFree(es) && 0 <= v < |m0| && m0[v] >= 0
    ensures Joined(m, v)
  {
    assert Matched(es, s, m0, v);
    TakenMerges(es, m0, m, n, m0[v]);
    var k := m0[v];
    var u := if es[k].i == v then es[k].j else es[k].i;
    assert m[u] == m[v];
  }

  /** Something merges exactly when some score is positive, even after a single pass. */
  lemma Progress(maximal: bool, es: seq<Edge>, s: seq<real>, m: seq<int>, n: nat)
    requires Merges(maximal, es, s, m, n) && |s| == |es| && LoopFree(es)
    ensures n < |m| <==> exists k :: 0 <= k < |es| && s[k] > 0.0
  {
    hide *;
    MergesElim(maximal, es, s, m, n);
    if n < |m| {
      var u :| 0 <= u < |m| && Joined(m, u);
      var v := JoinedWith(m, u);
      AttractedBy(es, s, if u < v then u else v, if u < v then v else u);
    }
    if k :| 0 <= k < |es| && s[k] > 0.0 { MergedApart(es, s, m, s[k]); }
  }

  lemma MergesElim(maximal: bool, es: seq<Edge>, s: seq<real>, m: seq<int>, n: nat)
    requires Merges(maximal, es, s, m, n)
    ensures n <= |m| && (n == |m| ==> m == Identity(|m|)) && (n < |m| ==> exists u :: 0 <= u < |m| && Joined(m, u))
    ensures forall u, v | 0 <= u < v < |m| && m[u] == m[v] :: Attracted(es, s, u, v)
    ensures forall k | 0 <= k < |es| && k < |s| && s[k] > 0.0 :: MergedAt(es, s, m, s[k])
  {
    hide Onto, Summit, Joined, Attracted, MergedAt;
  }

  lemma JoinedWith(m: seq<int>, u: int) returns (v: int)
    requires Joined(m, u)
    ensures 0 <= u < |m| && 0 <= v < |m| && u != v && m[u] == m[v]
  {
    v :| 0 <= v < |m| && u != v && m[u] == m[v];
  }

  lemma AttractedBy(es: seq<Edge>, s: seq<real>, u: int, v: int)
    requires Attracted(es, s, u, v)
    ensures exists k :: 0 <= k < |es| && k < |s| && s[k] > 0.0
  {
  }

  lemma MergedApart(es: seq<Edge>, s: seq<real>, m: seq<int>, x: real)
    requires MergedAt(es, s, m, x) && LoopFree(es)
    ensures m != Identity(|m|)
  {
  }

  lemma RowsFacts(es: seq<Edge>, rowstart: seq<int>, rowend: seq<int>, nv: nat)
    requires Rows(es, rowstart, rowend, nv)
    ensures Within(es, nv) && LoopFree(es)
  {
    forall k | 0 <= k < |es| ensures 0 <= es[k].i < nv && 0 <= es[k].j < nv && es[k].i != es[k].j {
      assert InRow(es, rowstart, rowend, nv, k);
    }
  }

  // The greedy pass on its own: every vertex starts unmatched.
  method GreedyPass(el: array<Edge>, ne: nat, s: seq<real>, rowstart: array<int>, rowend: array<int>, m: array<int>)
    requires ne <= el.Length && |s| == ne && Rows(el[..ne], rowstart[..], rowend[..], m.Length)
    requires m != rowstart && m != rowend
    modifies m
    ensures IsMatching(el[..ne], s, m[..]) && NoneBetter(el[..ne], s, m[..]) && SummitsTaken(el[..ne], s, m[..])
  {
    hide *;
    ghost var es := el[..ne];
    var unmatched, bestm, tmp := new int[m.Length], new int[m.Length], new int[m.Length];
    var i := 0;
    while i < m.Length
      invariant 0 <= i <= m.Length && rowstart[..] == old(rowstart[..]) && rowend[..] == old(rowend[..]) && el[..ne] == es
      invariant forall v | 0 <= v < i :: m[v] == -1 && unmatched[v] == v
    {
      m[i] := -1;
      unmatched[i] := i;
      i := i + 1;
    }
    ghost var m0, list := m[..], unmatched[..m.Length];
    AllUnmatched(es, s, m0, rowstart[..], rowend[..], list);
    var _ := SlicedNonMaximalPass(el, ne, s, rowstart, rowend, m.Length, unmatched, m, bestm, tmp);
    FirstPass(es, s, m0, rowstart[..], rowend[..], list, m[..]);
  }

  method MatchStep(maximal: bool, el: array<Edge>, ne: nat, s: seq<real>, rowstart: array<int>, rowend: array<int>, m: array<int>)
    returns (newNv: nat)
    requires ne <= el.Length && |s| == ne && Rows(el[..ne], rowstart[..], rowend[..], m.Length)
    requires m != rowstart && m != rowend
    modifies m
    ensures Merges(maximal, el[..ne], s, m[..], newNv)
  {
    ghost var es := el[..ne];
    RowsFacts(es, rowstart[..], rowend[..], m.Length);
    hide *;
    var ws := new int[m.Length];
    if maximal {
      var bestm, tmp := new int[m.Length], new int[m.Length];
      MaximalMatchIter(el, ne, s, rowstart, rowend, m, bestm, ws, tmp);
    } else {
      GreedyPass(el, ne, s, rowstart, rowend, m);
    }
    ghost var m0 := m[..];
    MatchingPairs(es, s, m0);
    newNv := ConvertElMatchToRelabel(el, ne, m, ws);
    MatchingMerges(maximal, es, s, m0, m[..], newNv);
  }

  // The current graph on nv vertices is the quotient of the graph at entry by c.
  ghost predicate Current(d0: seq<int>, es0: seq<Edge>, d: seq<int>, es: seq<Edge>, nv: nat, c: seq<int>) {
    && |d| == nv && |d0| == |c| && Within(es0, |c|) && Within(Whole(d0, es0), |c|) && Within(es, nv)
    && Bounded(c, nv) && Onto(c, nv)
    && Quotient(d, es, d0, es0, c)
  }

  lemma CurrentStarts(d0: seq<int>, es0: seq<Edge>, es: seq<Edge>, c: seq<int>)
    requires |d0| == |c| && Within(es0, |c|) && Within(es, |c|) && SameGraph(es, es0) && c == Identity(|c|)
    ensures Current(d0, es0, d0, es, |c|, c)
  {
    var w := Whole(d0, es0);
    forall e | e in w ensures 0 <= e.i < |c| && 0 <= e.j < |c| {}
    RelabelIdentity(w, |c|);
    forall a, b ensures Cell(Whole(d0, es), a, b) == Cell(w, a, b) {
      CellConcat(Diagonal(d0), es, a, b);
      CellConcat(Diagonal(d0), es0, a, b);
    }
    forall a | 0 <= a < |c| ensures a in c { assert c[a] == a; }
  }

  lemma CurrentNext(d0: seq<int>, es0: seq<Edge>, d: seq<int>, es: seq<Edge>, c: seq<int>, m: seq<int>, d': seq<int>, es': seq<Edge>, nv': nat)
    requires Current(d0, es0, d, es, |m|, c) && Within(Whole(d, es), |m|) && Quotient(d', es', d, es, m)
    requires Bounded(m, nv') && Onto(m, nv') && |d'| == nv' && Within(es', nv')
    ensures Current(d0, es0, d', es', nv', Compose(m, c))
  {
    QuotientComposes(d0, es0, c, d, es, m, d', es');
    OntoComposes(m, c, nv');
  }

  /** Contraction never changes the total weight. */
  lemma CurrentTotal(d0: seq<int>, es0: seq<Edge>, d: seq<int>, es: seq<Edge>, nv: nat, c: seq<int>)
    requires Current(d0, es0, d, es, nv, c)
    ensures Total(Whole(d, es)) == Total(Whole(d0, es0))
    ensures Cut(Whole(d, es)) == Cut(Relabel(Whole(d0, es0), c))
  {
    forall e | e in Whole(d, es) ensures 0 <= e.i < nv && 0 <= e.j < nv {}
    QuotientTotals(d, es, d0, es0, c, nv);
  }

  lemma MergesFacts(maximal: bool, es: seq<Edge>, s: seq<real>, m: seq<int>, n: nat)
    requires Merges(maximal, es, s, m, n) && Within(es, |m|)
    ensures n <= |m| && Bounded(m, n) && Onto(m, n) && (n == |m| ==> m == Identity(|m|))
    ensures forall v | 0 <= v < |m| :: 0 <= m[v] < n
    ensures forall e | e in es :: 0 <= e.i < |m| && 0 <= e.j < |m| && 0 <= m[e.i] && 0 <= m[e.j]
  {
  }

  lemma CurrentFacts(d0: seq<int>, es0: seq<Edge>, d: seq<int>, es: seq<Edge>, nv: nat, c: seq<int>)
    requires Current(d0, es0, d, es, nv, c)
    ensures |d| == nv && Within(es, nv) && (forall v | 0 <= v < |c| :: 0 <= c[v] < nv)
  {
  }

  // The vertex map moved on to the new communities.
  method Remap(c: array<int>, n: nat, m: array<int>)
    requires n <= c.Length && c != m && forall v | 0 <= v < n :: 0 <= c[v] < m.Length
    modifies c
    ensures c[..n] == Compose(m[..], old(c[..n])) && c[n..] == old(c[n..])
  {
    var i := 0;
    while i < n
      invariant 0 <= i <= n && m[..] == old(m[..])
      invariant forall v | 0 <= v < i :: c[v] == m[old(c[v])]
      invariant forall v | i <= v < c.Length :: c[v] == old(c[v])
    {
      if c[i] >= 0 { c[i] := m[c[i]]; }
      i := i + 1;
    }
  }

  // Where nothing merges some edge remains.
  lemma EdgesRemain(es: seq<Edge>, m: seq<int>, es': seq<Edge>)
    requires Within(es, |m|) && LoopFree(es) && m == Identity(|m|)
    requires forall a, b | a != b :: Contraction.Adjacent(es', a, b) <==> Contraction.Adjacent(Contraction.CanonicalEdges(Relabel(es, m)), a, b)
    ensures es != [] ==> es' != []
  {
    if es != [] {
      assert es[0] in es;
      var i, j := es[0].i, es[0].j;
      Contraction.RelabelAdjacent(es, m, i, j);
      assert Joins(m[es[0].i], m[es[0].j], i, j);
      assert Contraction.Adjacent(es', i, j);
    }
  }

  /** One step's matching and contraction. */
  method ContractStep(maximal: bool, ne: nat, el: array<Edge>, nv: nat, d: array<int>, rowstart: array<int>, rowend: array<int>,
                      s: seq<real>, c: array<int>, ghost d0: seq<int>, ghost es0: seq<Edge>)
    returns (ne': nat, nv': nat, m: array<int>)
    requires ne <= el.Length && |s| == ne && nv <= d.Length && nv <= rowstart.Length && nv <= rowend.Length
    requires d != rowstart && d != rowend && rowstart != rowend && c != d && c != rowstart && c != rowend
    requires Rows(el[..ne], rowstart[..], rowend[..], nv) && Current(d0, es0, d[..nv], el[..ne], nv, c[..])
    modifies el, d, rowstart, rowend, c
    ensures fresh(m) && m.Length == nv && ne' <= ne && nv' <= nv
    ensures Merges(maximal, old(el[..ne]), s, m[..], nv') 
    ensures Within(Whole(old(d[..nv]), old(el[..ne])), nv) && Quotient(d[..nv'], el[..ne'], old(d[..nv]), old(el[..ne]), m[..])
    ensures nv' == nv ==> (ne' == 0 <==> ne == 0)
    ensures Rows(el[..ne'], rowstart[..], rowend[..], nv') && Current(d0, es0, d[..nv'], el[..ne'], nv', c[..])
    ensures Bounded(old(c[..]), nv) && c[..] == Compose(m[..], old(c[..])) && Simple(el[..ne'])
  {
    hide *;
    ghost var es, dd, c0 := el[..ne], d[..nv], c[..];
    CurrentFacts(d0, es0, dd, es, nv, c0);
    RowsFacts(es, rowstart[..], rowend[..], nv);
    m := new int[nv];
    nv' := MatchStep(maximal, el, ne, s, rowstart, rowend, m);
    ghost var mm := m[..];
    MergesFacts(maximal, es, s, mm, nv');
    var count, tmp := new int[nv' + 1], new Pair[ne];
    ne' := ContractEl(ne, el, nv, nv', m[..], d, rowstart, rowend, count, tmp);
    TidyRows(el[..ne'], rowstart[..], rowend[..], nv');
    TidyIsSimple(el[..ne'], rowstart[..], rowend[..], nv');
    if nv' == nv { EdgesRemain(es, mm, el[..ne']); }
    CurrentNext(d0, es0, dd, es, c0, mm, d[..nv'], el[..ne'], nv');
    assert c[..c.Length] == c0;
    Remap(c, c.Length, m);
    assert c[..c.Length] == c[..];
    BoundedIntro(c0, nv);
  }

  lemma BoundedIntro(c: seq<int>, n: nat)
    requires forall v | 0 <= v < |c| :: 0 <= c[v] < n
    ensures Bounded(c, n)
  {
  }

  // ---------------------------------------------------------------- sizes

  // How many of the first n communities have two vertices or more.
  function Nonsingletons(csize: seq<int>, n: nat): nat
    requires n <= |csize|
  {
    if n == 0 then 0 else Nonsingletons(csize, n - 1) + if csize[n - 1] > 1 then 1 else 0
  }

  lemma {:induction false} NonsingletonsAre(csize: seq<int>, n: nat)
    requires n <= |csize|
    ensures Nonsingletons(csize, n) == |set a | 0 <= a < n && csize[a] > 1|
  {
    var now := set a | 0 <= a < n && csize[a] > 1;
    if n == 0 {
      assert now == {};
    } else {
      NonsingletonsAre(csize, n - 1);
      var before := set a | 0 <= a < n - 1 && csize[a] > 1;
      assert now == if csize[n - 1] > 1 then before + {n - 1} else before;
    }
  }

  // z is the largest of the first n sizes.
  ghost predicate Largest(csize: seq<int>, n: nat, z: int)
    requires n <= |csize|
  {
    (forall a | 0 <= a < n :: csize[a] <= z) && exists a :: 0 <= a < n && csize[a] == z
  }

  lemma SizedNext(csize: seq<int>, cmap: seq<int>, m: seq<int>, n: nat, csize': seq<int>)
    requires |m| <= |csize| && Sized(csize, cmap, |m|) && Bounded(m, n) && Onto(m, n) && n <= |csize'|
    requires forall a | 0 <= a < n :: csize'[a] == Merged(csize, m, |m|, a)
    ensures forall k | 0 <= k < |cmap| :: 0 <= cmap[k] < |m|
    ensures Sized(csize', Compose(m, cmap), n)
    ensures forall a | 0 <= a < n :: csize'[a] > 0
  {
    forall a | 0 <= a < n ensures csize'[a] == Size(Compose(m, cmap), a) {
      MergedPrefix(csize[..|m|], csize, m, |m|, a);
      MergedSizes(csize[..|m|], cmap, m, a);
    }
    OntoComposes(m, cmap, n);
    forall a | 0 <= a < n ensures csize'[a] > 0 { SizePositive(Compose(m, cmap), a); }
  }

  lemma {:induction false} NonsingletonsPrefix(s: seq<int>, t: seq<int>, n: nat)
    requires n <= |s| && n <= |t| && forall a | 0 <= a < n :: s[a] == t[a]
    ensures Nonsingletons(s, n) == Nonsingletons(t, n)
  {
    if n > 0 { NonsingletonsPrefix(s, t, n - 1); }
  }

  // The sizes of the merged communities.
  method MergeSizes(csize: array<int>, oldNc: nat, m: array<int>, newNv: nat, ws: array<int>)
    requires oldNc <= csize.Length && oldNc <= m.Length && newNv <= ws.Length && ws != csize && ws != m
    requires forall k | 0 <= k < oldNc :: 0 <= m[k] < newNv
    modifies ws
    ensures forall a | 0 <= a < newNv :: ws[a] == Merged(csize[..], m[..], oldNc, a)
  {
    var i := 0;
    while i < newNv
      invariant 0 <= i <= newNv && csize[..] == old(csize[..]) && m[..] == old(m[..])
      invariant forall a | 0 <= a < i :: ws[a] == 0
    {
      ws[i] := 0;
      i := i + 1;
    }
    var k := 0;
    while k < oldNc
      invariant 0 <= k <= oldNc && csize[..] == old(csize[..]) && m[..] == old(m[..])
      invariant forall a | 0 <= a < newNv :: ws[a] == Merged(csize[..], m[..], k, a)
    {
      var newc := m[k];
      ws[newc] := ws[newc] + csize[k];
      k := k + 1;
    }
  }

  lemma LargestNext(s: seq<int>, s': seq<int>, n: nat, z: int, z': int)
    requires n < |s| == |s'| && s' == s[n := s'[n]] && s'[n] > 0
    requires z' == if s'[n] > z then s'[n] else z
    requires if n == 0 then z == 0 else Largest(s, n, z)
    ensures Largest(s', n + 1, z')
  {
    if n > 0 && z' == z {
      var a :| 0 <= a < n && s[a] == z;
      assert s'[a] == z;
    }
  }

  // Copies the sizes back, counting them on the way.
  method TakeSizes(csize: array<int>, newNv: nat, ws: array<int>) returns (csz: int, nonsingletons: nat)
    requires newNv <= csize.Length && newNv <= ws.Length && ws != csize
    requires newNv > 0 && forall a | 0 <= a < newNv :: ws[a] > 0
    modifies csize
    ensures csize[..newNv] == ws[..newNv]
    ensures Largest(csize[..], newNv, csz) && nonsingletons == Nonsingletons(csize[..], newNv)
  {
    csz, nonsingletons := 0, 0;
    var i := 0;
    while i < newNv
      invariant 0 <= i <= newNv && ws[..] == old(ws[..])
      invariant forall a | 0 <= a < i :: csize[a] == ws[a]
      invariant i == 0 ==> csz == 0
      invariant i > 0 ==> Largest(csize[..], i, csz)
      invariant nonsingletons == Nonsingletons(csize[..], i)
    {
      var z := ws[i];
      ghost var s0, csz0 := csize[..], csz;
      if z > csz { csz := z; }
      csize[i] := z;
      NonsingletonsPrefix(s0, csize[..], i);
      LargestNext(s0, csize[..], i, csz0, csz);
      if z > 1 { nonsingletons := nonsingletons + 1; }
      i := i + 1;
    }
  }

  /** A completed step's bookkeeping: sizes merged, the global map moved on, the counters exact. */
  method ResizeStep(cmapGlobal: array<int>, csize: array<int>, m: array<int>, newNv: nat) returns (csz: int, nonsingletons: nat)
    requires m.Length <= csize.Length && cmapGlobal != csize && m != csize && m != cmapGlobal && 0 < newNv <= m.Length
    requires Sized(csize[..], cmapGlobal[..], m.Length) && Bounded(m[..], newNv) && Onto(m[..], newNv)
    modifies cmapGlobal, csize
    ensures Bounded(old(cmapGlobal[..]), m.Length)
    ensures cmapGlobal[..] == Compose(m[..], old(cmapGlobal[..]))
    ensures Sized(csize[..], cmapGlobal[..], newNv)
    ensures Largest(csize[..], newNv, csz) && nonsingletons == Nonsingletons(csize[..], newNv)
  {
    ghost var cs0, cm0, mm := csize[..], cmapGlobal[..], m[..];
    var ws := new int[newNv];
    assert forall k | 0 <= k < m.Length :: m[k] == mm[k];
    MergeSizes(csize, m.Length, m, newNv, ws);
    ghost var sizes := ws[..];
    SizedNext(cs0, cm0, mm, newNv, sizes);
    hide Sized, Onto;
    assert cmapGlobal[..cmapGlobal.Length] == cm0;
    Remap(cmapGlobal, cmapGlobal.Length, m);
    assert cmapGlobal[..cmapGlobal.Length] == cmapGlobal[..];
    csz, nonsingletons := TakeSizes(csize, newNv, ws);
    SizedPrefix(sizes, cmapGlobal[..], newNv, csize[..]);
  }

  lemma SizedPrefix(csize: seq<int>, cmap: seq<int>, n: nat, csize': seq<int>)
    requires Sized(csize, cmap, n) && n <= |csize'| && n <= |csize| && csize[..n] == csize'[..n]
    ensures Sized(csize', cmap, n)
  {
    forall a | 0 <= a < n ensures csize'[a] == csize[a] { assert csize'[..n][a] == csize[..n][a]; }
  }

  // ---------------------------------------------------------------- the loop

  // cmap is the map at entry followed by cp, onto nc communities.
  ghost predicate Following(cmap0: seq<int>, cp: seq<int>, nc: nat, csize: seq<int>, cmap: seq<int>) {
    Bounded(cp, nc) && Bounded(cmap0, |cp|) && cmap == Compose(cp, cmap0) && Sized(csize, cmap, nc)
  }

  lemma FollowingStarts(cmap0: seq<int>, csize: seq<int>, c: seq<int>)
    requires Sized(csize, cmap0, |c|) && c == Identity(|c|)
    ensures Following(cmap0, c, |c|, csize, cmap0)
  {
  }

  lemma FollowingNext(cmap0: seq<int>, cp: seq<int>, m: seq<int>, n: nat, csize: seq<int>, cmap: seq<int>, csize': seq<int>)
    requires Following(cmap0, cp, |m|, csize, cmap) && Bounded(m, n) && Sized(csize', Compose(m, cmap), n)
    ensures Following(cmap0, Compose(m, cp), n, csize', Compose(m, cmap))
  {
    ComposeAssoc(m, cp, cmap0);
  }

  // The global map agrees with c exactly when it is onto as many communities as the graph has.
  lemma FollowingAgrees(cmap0: seq<int>, cp: seq<int>, nc: nat, csize: seq<int>, cmap: seq<int>, c: seq<int>, nv: nat)
    requires Following(cmap0, cp, nc, csize, cmap) && Bounded(c, nv) && nv <= nc && |c| == |cp|
    requires nv == nc ==> c == cp
    ensures Bounded(cmap0, |c|) && (cmap == Compose(c, cmap0) <==> nv == nc)
  {
    if nv < nc {
      assert nv in cmap;
      var k :| 0 <= k < |cmap| && cmap[k] == nv;
      assert Compose(c, cmap0)[k] < nv;
    }
  }

  // The largest of the first n sizes, or -1 when there are none.
  method LargestSize(csize: array<int>, n: nat) returns (csz: int)
    requires n <= csize.Length && forall a | 0 <= a < n :: csize[a] > 0
    ensures n > 0 ==> Largest(csize[..], n, csz)
  {
    csz := -1;
    var k := 0;
    while k < n
      invariant 0 <= k <= n && (k == 0 ==> csz == -1) && (k > 0 ==> Largest(csize[..], k, csz))
    {
      if csize[k] > csz { csz := csize[k]; }
      k := k + 1;
    }
  }

  lemma SizedFacts(csize: seq<int>, cmap: seq<int>, n: nat)
    requires Sized(csize, cmap, n)
    ensures n <= |csize| && forall a | 0 <= a < n :: csize[a] > 0
  {
    forall a | 0 <= a < n ensures csize[a] > 0 { SizePositive(cmap, a); }
  }

  lemma ScoreFacts(m: seq<int>, c: seq<int>)
    requires Bounded(c, |m|) && m == Identity(|m|)
    ensures Compose(m, c) == c
  {
  }

  // The graph and the map where a turn of the loop begins or ends.
  datatype Moment = Moment(d: seq<int>, es: seq<Edge>, nv: nat, c: seq<int>)

  // What the caller has asked for; a score is that of a turn and an edge.
  datatype Rules = Rules(maximal: bool, maxsz: int, maxnum: int, limit: int, score: (nat, nat) -> real, drops: nat -> bool, covered: nat -> bool)

  ghost predicate Scored(rules: Rules, t: nat, s: seq<real>) {
    forall k: nat | k < |s| :: s[k] == rules.score(t, k)
  }

  // A turn: vertices are merged as a matching on the scores says, and the graph is contracted accordingly.
  ghost predicate Stepped(rules: Rules, t: nat, a: Moment, b: Moment) {
    exists s: seq<real>, m: seq<int> :: SteppedBy(rules, t, a, b, s, m)
  }

  ghost predicate SteppedBy(rules: Rules, t: nat, a: Moment, b: Moment, s: seq<real>, m: seq<int>) {
    && |s| == |a.es| && Scored(rules, t, s) && |m| == a.nv && Merges(rules.maximal, a.es, s, m, b.nv)
    && Within(Whole(a.d, a.es), a.nv) && Quotient(b.d, b.es, a.d, a.es, m)
    && (forall v | 0 <= v < |a.c| :: 0 <= a.c[v] < |m|) && b.c == Compose(m, a.c) && Simple(b.es)
  }

  // Of the first n communities none has more than z vertices.
  ghost predicate SizesWithin(cmap: seq<int>, n: nat, z: int) {
    forall a | 0 <= a < n :: Size(cmap, a) <= z
  }

  // None of the tests stops the loop before turn t.
  ghost predicate GoesOn(rules: Rules, cmap0: seq<int>, t: nat, x: Moment) {
    && t < rules.limit && x.nv >= rules.maxnum && !rules.covered(t) && !rules.drops(t)
    && (forall v | 0 <= v < |cmap0| :: 0 <= cmap0[v] < |x.c|)
    && SizesWithin(Compose(x.c, cmap0), x.nv, rules.maxsz)
  }

  // The turns so far: each one begins because no test stops the loop, merges something and leaves edges.
  ghost predicate Ran(rules: Rules, cmap0: seq<int>, trace: seq<Moment>) {
    |trace| > 0 && forall t: nat | t + 1 < |trace| :: TurnRan(rules, cmap0, trace, t)
  }

  ghost predicate TurnRan(rules: Rules, cmap0: seq<int>, trace: seq<Moment>, t: nat)
    requires t + 1 < |trace|
  {
    && GoesOn(rules, cmap0, t, trace[t]) && Stepped(rules, t, trace[t], trace[t + 1])
    && trace[t + 1].nv < trace[t].nv && trace[t + 1].es != []
  }

  // Where the loop has stopped: before a turn, because of a test, or after one that merged nothing or left no edge.
  ghost predicate Stopped(rules: Rules, cmap0: seq<int>, t: nat, x: Moment, f: Moment) {
    if GoesOn(rules, cmap0, t, x) then Stepped(rules, t, x, f) && (f.nv == x.nv || f.es == []) else f == x
  }

  lemma RanNext(rules: Rules, cmap0: seq<int>, trace: seq<Moment>, f: Moment)
    requires Ran(rules, cmap0, trace)
    requires var t := |trace| - 1; GoesOn(rules, cmap0, t, trace[t]) && Stepped(rules, t, trace[t], f) && f.nv < trace[t].nv && f.es != []
    ensures Ran(rules, cmap0, trace + [f])
  {
    var trace' := trace + [f];
    forall t: nat | t + 1 < |trace'| ensures TurnRan(rules, cmap0, trace', t) {
      if t + 1 < |trace| { assert TurnRan(rules, cmap0, trace, t); }
    }
    hide GoesOn, Stepped;
  }

  lemma RanStarts(rules: Rules, cmap0: seq<int>, x: Moment)
    ensures Ran(rules, cmap0, [x])
  {
  }

  lemma SteppedIntro(rules: Rules, t: nat, a: Moment, b: Moment, s: seq<real>, m: seq<int>)
    requires SteppedBy(rules, t, a, b, s, m)
    ensures Stepped(rules, t, a, b)
  {
    hide SteppedBy;
  }

  // A turn that merges nothing has found no positive score.
  lemma SteppedIdle(rules: Rules, t: nat, a: Moment, b: Moment)
    requires Stepped(rules, t, a, b) && b.nv == a.nv && LoopFree(a.es)
    ensures forall k: nat | k < |a.es| :: rules.score(t, k) <= 0.0
  {
    var s, m :| SteppedBy(rules, t, a, b, s, m);
    Progress(rules.maximal, a.es, s, m, b.nv);
    hide Merges;
    forall k: nat | k < |a.es| ensures rules.score(t, k) <= 0.0 { assert s[k] == rules.score(t, k); }
  }

  // The sizes that are kept decide the test on the largest one.
  lemma SizesFit(cmap0: seq<int>, cp: seq<int>, nc: nat, csize: seq<int>, cmap: seq<int>, csz: int, maxsz: int)
    requires Following(cmap0, cp, nc, csize, cmap) && nc <= |csize| && (nc > 0 ==> Largest(csize, nc, csz))
    ensures forall v | 0 <= v < |cmap0| :: 0 <= cmap0[v] < |cp|
    ensures nc > 0 ==> (csz <= maxsz <==> SizesWithin(Compose(cp, cmap0), nc, maxsz))
  {
    hide Size;
    assert cmap == Compose(cp, cmap0);
    assert forall a | 0 <= a < nc :: csize[a] == Size(cmap, a);
    if nc > 0 && SizesWithin(cmap, nc, maxsz) {
      var a :| 0 <= a < nc && csize[a] == csz;
      assert Size(cmap, a) <= maxsz;
    }
  }

  // What holds wherever the loop stands: the graph is current, and the global map follows cp, which
  // is c unless the graph has run out of edges.
  ghost predicate Stage(d0: seq<int>, es0: seq<Edge>, cmap0: seq<int>, nsteps: nat, d: seq<int>, es: seq<Edge>, nv: nat, c: seq<int>,
                        cp: seq<int>, nc: nat, csize: seq<int>, cmap: seq<int>, csz: int, nonsingletons: nat) {
    && Current(d0, es0, d, es, nv, c) && Following(cmap0, cp, nc, csize, cmap) && nc <= |csize|
    && |c| == |cp| && nv <= nc && (nv == nc ==> c == cp) && (nv < nc ==> es == [])
    && (nc > 0 ==> Largest(csize, nc, csz))
    && (nsteps > 0 ==> nonsingletons == Nonsingletons(csize, nc))
  }

  lemma StageIntro(d0: seq<int>, es0: seq<Edge>, cmap0: seq<int>, nsteps: nat, d: seq<int>, es: seq<Edge>, nv: nat, c: seq<int>,
                   cp: seq<int>, nc: nat, csize: seq<int>, cmap: seq<int>, csz: int, nonsingletons: nat)
    requires Current(d0, es0, d, es, nv, c) && Following(cmap0, cp, nc, csize, cmap) && nc <= |csize|
    requires |c| == |cp| && nv <= nc && (nv == nc ==> c == cp) && (nv < nc ==> es == [])
    requires nc > 0 ==> Largest(csize, nc, csz)
    requires nsteps > 0 ==> nonsingletons == Nonsingletons(csize, nc)
    ensures Stage(d0, es0, cmap0, nsteps, d, es, nv, c, cp, nc, csize, cmap, csz, nonsingletons)
  {
    hide Current, Following, Largest;
  }

  lemma StageStarts(d0: seq<int>, es0: seq<Edge>, es: seq<Edge>, cmap0: seq<int>, csize: seq<int>, c: seq<int>, csz: int)
    requires |d0| == |c| && Within(es0, |c|) && Within(es, |c|) && SameGraph(es, es0) && c == Identity(|c|) && Sized(csize, cmap0, |c|)
    requires |c| <= |csize| && (|c| > 0 ==> Largest(csize, |c|, csz))
    ensures Stage(d0, es0, cmap0, 0, d0, es, |c|, c, c, |c|, csize, cmap0, csz, 0)
  {
    hide *;
    CurrentStarts(d0, es0, es, c);
    FollowingStarts(cmap0, csize, c);
    StageIntro(d0, es0, cmap0, 0, d0, es, |c|, c, c, |c|, csize, cmap0, csz, 0);
  }

  lemma StageElim(d0: seq<int>, es0: seq<Edge>, cmap0: seq<int>, nsteps: nat, d: seq<int>, es: seq<Edge>, nv: nat, c: seq<int>,
                  cp: seq<int>, nc: nat, csize: seq<int>, cmap: seq<int>, csz: int, nonsingletons: nat)
    requires Stage(d0, es0, cmap0, nsteps, d, es, nv, c, cp, nc, csize, cmap, csz, nonsingletons)
    ensures Current(d0, es0, d, es, nv, c) && Following(cmap0, cp, nc, csize, cmap) && nc <= |csize|
    ensures |c| == |cp| && nv <= nc && (nv == nc ==> c == cp) && (nv < nc ==> es == [])
    ensures nc > 0 ==> Largest(csize, nc, csz)
    ensures nsteps > 0 ==> nonsingletons == Nonsingletons(csize, nc)
  {
    hide Current, Following, Largest;
  }

  lemma StageDone(d0: seq<int>, es0: seq<Edge>, cmap0: seq<int>, nsteps: nat, d: seq<int>, es: seq<Edge>, nv: nat, c: seq<int>,
                  cp: seq<int>, nc: nat, csize: seq<int>, cmap: seq<int>, csz: int, nonsingletons: nat)
    requires Stage(d0, es0, cmap0, nsteps, d, es, nv, c, cp, nc, csize, cmap, csz, nonsingletons)
    ensures Current(d0, es0, d, es, nv, c) && Total(Whole(d, es)) == Total(Whole(d0, es0))
    ensures nv <= nc <= |csize| && Sized(csize, cmap, nc)
    ensures forall v | 0 <= v < |c| :: 0 <= c[v] < nv
    ensures Bounded(cmap0, |c|) && (cmap == Compose(c, cmap0) <==> nv == nc)
    ensures nv < nc ==> es == []
    ensures nc > 0 ==> Largest(csize, nc, csz)
    ensures nsteps > 0 ==> nonsingletons == Nonsingletons(csize, nc)
  {
    hide *;
    StageElim(d0, es0, cmap0, nsteps, d, es, nv, c, cp, nc, csize, cmap, csz, nonsingletons);
    CurrentTotal(d0, es0, d, es, nv, c);
    CurrentFacts(d0, es0, d, es, nv, c);
    FollowingSized(cmap0, cp, nc, csize, cmap);
    BoundedIntro(c, nv);
    FollowingAgrees(cmap0, cp, nc, csize, cmap, c, nv);
  }

  /** One turn of the loop, up to its two exits. */
  method Turn(cmapGlobal: array<int>, csize: array<int>, ne0: nat, el: array<Edge>, nv0: nat, d: array<int>,
              rowstart: array<int>, rowend: array<int>, rules: Rules, s: seq<real>, c: array<int>,
              nsteps0: nat, csz0: int, nonsingletons0: nat,
              ghost d0: seq<int>, ghost es0: seq<Edge>, ghost cmap0: seq<int>, ghost cp0: seq<int>, ghost nc0: nat)
    returns (last: bool, nsteps: nat, ne: nat, nv: nat, csz: int, nonsingletons: nat, ghost cp: seq<int>, ghost nc: nat)
    requires ne0 <= el.Length && nv0 <= d.Length && nv0 <= rowstart.Length && nv0 <= rowend.Length && |s| == ne0 && nv0 == nc0
    requires d != rowstart && d != rowend && rowstart != rowend && c != d && c != rowstart && c != rowend
    requires cmapGlobal != csize && csize != d && csize != rowstart && csize != rowend && csize != c
    requires cmapGlobal != d && cmapGlobal != rowstart && cmapGlobal != rowend && cmapGlobal != c
    requires Rows(el[..ne0], rowstart[..], rowend[..], nv0) && Scored(rules, nsteps0, s)
    requires Stage(d0, es0, cmap0, nsteps0, d[..nv0], el[..ne0], nv0, c[..], cp0, nc0, csize[..], cmapGlobal[..], csz0, nonsingletons0)
    modifies cmapGlobal, csize, el, d, rowstart, rowend, c
    ensures ne <= ne0 && nv <= nv0
    ensures Stage(d0, es0, cmap0, nsteps, d[..nv], el[..ne], nv, c[..], cp, nc, csize[..], cmapGlobal[..], csz, nonsingletons)
    ensures Stepped(rules, nsteps0, Moment(old(d[..nv0]), old(el[..ne0]), nv0, old(c[..])), Moment(d[..nv], el[..ne], nv, c[..]))
    ensures if last then nsteps == nsteps0 else nsteps == nsteps0 + 1 && nv < nv0 && nc == nv && Rows(el[..ne], rowstart[..], rowend[..], nv)
    ensures Rows(el[..ne], rowstart[..], rowend[..], nv)
    ensures nv == nv0 ==> last && (ne == 0 <==> ne0 == 0)
    ensures if last then nc == nv0 && (nv < nv0 ==> ne == 0) else ne != 0
  {
    hide *;
    ghost var dd, es, cs0, cm0, cc := d[..nv0], el[..ne0], csize[..], cmapGlobal[..], c[..];
    StageElim(d0, es0, cmap0, nsteps0, dd, es, nv0, cc, cp0, nc0, cs0, cm0, csz0, nonsingletons0);
    RowsFacts(es, rowstart[..], rowend[..], nv0);
    FollowingSized(cmap0, cp0, nc0, cs0, cm0);
    var m: array<int>;
    ne, nv, m := ContractStep(rules.maximal, ne0, el, nv0, d, rowstart, rowend, s, c, d0, es0);
    ghost var mm, dd', es', c' := m[..], d[..nv], el[..ne], c[..];
    MergesFacts(rules.maximal, es, s, mm, nv);
    TurnStepped(rules, nsteps0, Moment(dd, es, nv0, cc), Moment(dd', es', nv, c'), s, mm);
    last, nsteps, csz, nonsingletons, cp, nc := true, nsteps0, csz0, nonsingletons0, cp0, nc0;
    if nv == nv0 {
      ScoreFacts(mm, cp0);
    } else if ne != 0 {
      CurrentPositive(d0, es0, dd', es', nv, c');
      csz, nonsingletons := ResizeStep(cmapGlobal, csize, m, nv);
      FollowingNext(cmap0, cp0, mm, nv, cs0, cm0, csize[..]);
      last, nsteps, cp, nc := false, nsteps0 + 1, c', nv;
      SizedFacts(csize[..], cmapGlobal[..], nv);
    }
    StageIntro(d0, es0, cmap0, nsteps, dd', es', nv, c', cp, nc, csize[..], cmapGlobal[..], csz, nonsingletons);
  }

  lemma TurnStepped(rules: Rules, t: nat, a: Moment, b: Moment, s: seq<real>, m: seq<int>)
    requires |s| == |a.es| && Scored(rules, t, s) && |m| == a.nv && Merges(rules.maximal, a.es, s, m, b.nv)
    requires Within(Whole(a.d, a.es), a.nv) && Quotient(b.d, b.es, a.d, a.es, m)
    requires Bounded(a.c, a.nv) && b.c == Compose(m, a.c) && Simple(b.es)
    ensures Stepped(rules, t, a, b)
  {
    hide Merges, Quotient, Scored, Whole, Within;
    SteppedIntro(rules, t, a, b, s, m);
  }

  // None of the loop's tests stops it before its first step.
  predicate TakesStep(csize: seq<int>, nv: nat, maxsz: int, maxnum: int, maxNsteps: int, drops: nat -> bool, covered: nat -> bool)
    requires nv <= |csize|
  {
    maxNsteps != 0 && nv >= 2 && nv >= maxnum && (forall a | 0 <= a < nv :: csize[a] <= maxsz) && !covered(0) && !drops(0)
  }

  /**
   update_community.  The scores, the score-drop tests and the coverage test are arbitrary; score(t, k)
   is what step t gives to edge k.  The trace has the graph and the map before each turn: the loop goes
   on for as long as no test stops it, each turn merges by its scores, and it ends before a turn that a
   test stops or after one that merges nothing or leaves no edge.  On return nc is the number of
   communities that csize and cmapGlobal speak of: they are behind the graph exactly when the loop
   merged something and ran out of edges, since it then stops before it brings them up to date.
   */
  method UpdateCommunity(cmapGlobal: array<int>, csize: array<int>, ne0: nat, el: array<Edge>, nv0: nat, d: array<int>,
                         maximal: bool, maxsz: int, maxnum0: int, maxNsteps0: int,
                         score: (nat, nat) -> real, drops: nat -> bool, covered: nat -> bool)
    returns (nsteps: nat, ne: nat, nv: nat, c: array<int>, csz: int, nonsingletons: nat, ghost nc: nat, ghost trace: seq<Moment>)
    requires ne0 <= el.Length && nv0 <= d.Length && nv0 <= csize.Length && cmapGlobal != csize && d != csize && d != cmapGlobal
    requires Within(el[..ne0], nv0) && LoopFree(el[..ne0]) && Sized(csize[..], cmapGlobal[..], nv0)
    modifies cmapGlobal, csize, el, d
    ensures ne <= el.Length && nv <= d.Length && c.Length == nv0
    ensures Current(old(d[..nv0]), old(el[..ne0]), d[..nv], el[..ne], nv, c[..])
    ensures Total(Whole(d[..nv], el[..ne])) == Total(Whole(old(d[..nv0]), old(el[..ne0])))
    ensures nsteps + nv <= nv0
    ensures nv <= nc && Sized(csize[..], cmapGlobal[..], nc) && nc <= csize.Length
    ensures Bounded(old(cmapGlobal[..]), nv0) && (cmapGlobal[..] == Compose(c[..], old(cmapGlobal[..])) <==> nv == nc)
    ensures nv < nc <==> ne == 0 && nv < nv0
    ensures nc > 0 ==> Largest(csize[..], nc, csz)
    ensures nsteps > 0 ==> nonsingletons == |set a | 0 <= a < nc && csize[..][a] > 1|
    ensures Within(el[..ne], nv) && LoopFree(el[..ne])
    ensures |trace| == nsteps + 1 && trace[0].nv == nv0 && SameGraph(trace[0].es, old(el[..ne0])) && trace[0].d == old(d[..nv0])
    ensures |trace[0].es| == ne0 && trace[0].c == Identity(nv0)
    ensures var rules := Rules(maximal, maxsz, if maxnum0 < 2 then 2 else maxnum0, if maxNsteps0 < 0 then nv0 else maxNsteps0, score, drops, covered);
      Ran(rules, old(cmapGlobal[..]), trace) &&
      Stopped(rules, old(cmapGlobal[..]), nsteps, trace[nsteps], Moment(d[..nv], el[..ne], nv, c[..]))
    ensures nsteps <= if maxNsteps0 < 0 then nv0 else maxNsteps0
    ensures nsteps == (if maxNsteps0 < 0 then nv0 else maxNsteps0) || csz > maxsz || nv < 2 || nv < maxnum0 || covered(nsteps) || drops(nsteps)
         || ne == 0 || forall k: nat | k < |trace[nsteps].es| :: score(nsteps, k) <= 0.0
    ensures nv == nv0 && TakesStep(old(csize[..]), nv0, maxsz, maxnum0, maxNsteps0, drops, covered) ==>
              forall k: nat | k < ne0 :: score(0, k) <= 0.0
  {
    hide *;
    ghost var d0, es0, cmap0 := d[..nv0], el[..ne0], cmapGlobal[..];
    SizedFacts(csize[..], cmap0, nv0);
    var maxNsteps := if maxNsteps0 < 0 then nv0 else maxNsteps0;
    var maxnum := if maxnum0 < 2 then 2 else maxnum0;
    var rules := Rules(maximal, maxsz, maxnum, maxNsteps, score, drops, covered);
    var rowstart, rowend := new int[nv0], new int[nv0];
    LayOut(ne0, el, nv0, rowstart, rowend);
    c := new int[nv0](i => i);
    ghost var cp := c[..];
    assert cp == Identity(nv0);
    RowsFacts(el[..ne0], rowstart[..], rowend[..], nv0);
    csz := LargestSize(csize, nv0);
    StageStarts(d0, es0, el[..ne0], cmap0, csize[..], cp, csz);
    ghost var first := Moment(d[..nv0], el[..ne0], nv0, cp);
    if TakesStep(csize[..], nv0, maxsz, maxnum0, maxNsteps0, drops, covered) {
      TakesFirst(csize[..], nv0, maxsz, maxnum0, maxNsteps0, drops, covered);
      TakesGoes(rules, cmap0, csize[..], first);
    }
    nsteps, ne, nv, csz, nonsingletons, cp, nc, trace := Turns(cmapGlobal, csize, ne0, el, nv0, d, rowstart, rowend, rules, c, csz, d0, es0, cmap0, cp);
    StageDone(d0, es0, cmap0, nsteps, d[..nv], el[..ne], nv, c[..], cp, nc, csize[..], cmapGlobal[..], csz, nonsingletons);
    NonsingletonsAre(csize[..], nc);
    RowsFacts(el[..ne], rowstart[..], rowend[..], nv);
  }

  // The loop.
  method Turns(cmapGlobal: array<int>, csize: array<int>, ne0: nat, el: array<Edge>, nv0: nat, d: array<int>,
               rowstart: array<int>, rowend: array<int>, rules: Rules, c: array<int>, csz0: int,
               ghost d0: seq<int>, ghost es0: seq<Edge>, ghost cmap0: seq<int>, ghost cp0: seq<int>)
    returns (nsteps: nat, ne: nat, nv: nat, csz: int, nonsingletons: nat, ghost cp: seq<int>, ghost nc: nat, ghost trace: seq<Moment>)
    requires ne0 <= el.Length && nv0 <= d.Length && nv0 <= rowstart.Length && nv0 <= rowend.Length && rules.maxnum >= 2
    requires d != rowstart && d != rowend && rowstart != rowend && c != d && c != rowstart && c != rowend
    requires cmapGlobal != csize && csize != d && csize != rowstart && csize != rowend && csize != c
    requires cmapGlobal != d && cmapGlobal != rowstart && cmapGlobal != rowend && cmapGlobal != c
    requires Rows(el[..ne0], rowstart[..], rowend[..], nv0)
    requires Stage(d0, es0, cmap0, 0, d[..nv0], el[..ne0], nv0, c[..], cp0, nv0, csize[..], cmapGlobal[..], csz0, 0)
    modifies cmapGlobal, csize, el, d, rowstart, rowend, c
    ensures ne <= el.Length && nsteps + nv <= nv0 && Rows(el[..ne], rowstart[..], rowend[..], nv) && nv <= d.Length && nv <= rowstart.Length && nv <= rowend.Length
    ensures Stage(d0, es0, cmap0, nsteps, d[..nv], el[..ne], nv, c[..], cp, nc, csize[..], cmapGlobal[..], csz, nonsingletons)
    ensures nsteps == 0 || nsteps <= rules.limit
    ensures nv < nc <==> ne == 0 && nv < nv0
    ensures |trace| == nsteps + 1 && trace[0] == Moment(old(d[..nv0]), old(el[..ne0]), nv0, old(c[..])) && Ran(rules, cmap0, trace)
    ensures Stopped(rules, cmap0, nsteps, trace[nsteps], Moment(d[..nv], el[..ne], nv, c[..]))
    ensures nsteps >= rules.limit || csz > rules.maxsz || nv < rules.maxnum || rules.covered(nsteps) || rules.drops(nsteps)
         || ne == 0 || forall k: nat | k < |trace[nsteps].es| :: rules.score(nsteps, k) <= 0.0
    ensures nv == nv0 ==> nsteps == 0
    ensures nv == nv0 && GoesOn(rules, cmap0, 0, trace[0]) ==> forall k: nat | k < ne0 :: rules.score(0, k) <= 0.0
  {
    hide *;
    nsteps, ne, nv, csz, nonsingletons, cp, nc := 0, ne0, nv0, csz0, 0, cp0, nv0;
    ghost var first := Moment(d[..nv0], el[..ne0], nv0, c[..]);
    trace := [first];
    RanStarts(rules, cmap0, first);
    while nsteps < rules.limit && csz <= rules.maxsz && nv >= rules.maxnum && !rules.covered(nsteps)
      invariant ne <= el.Length && nv == nc && nsteps + nv <= nv0 && Rows(el[..ne], rowstart[..], rowend[..], nv)
      invariant nsteps == 0 || nsteps <= rules.limit
      invariant ne == 0 ==> nv == nv0
      invariant nv == nv0 ==> nsteps == 0 && ne == ne0
      invariant Stage(d0, es0, cmap0, nsteps, d[..nv], el[..ne], nv, c[..], cp, nc, csize[..], cmapGlobal[..], csz, nonsingletons)
      invariant |trace| == nsteps + 1 && trace[0] == first && Ran(rules, cmap0, trace) && trace[nsteps] == Moment(d[..nv], el[..ne], nv, c[..])
      decreases nv
    {
      ghost var before, t := trace[nsteps], nsteps;
      TestsDecide(rules, cmap0, t, before, d0, es0, cp, nc, csize[..], cmapGlobal[..], csz, nonsingletons);
      if rules.drops(nsteps) {
        StoppedBefore(rules, cmap0, t, before);
        return;
      }
      var s := seq(ne, k requires 0 <= k < ne => rules.score(nsteps, k));
      ScoredIntro(rules, nsteps, s);
      RowsFacts(el[..ne], rowstart[..], rowend[..], nv);
      var last: bool;
      last, nsteps, ne, nv, csz, nonsingletons, cp, nc := Turn(cmapGlobal, csize, ne, el, nv, d, rowstart, rowend, rules, s, c,
                                                               nsteps, csz, nonsingletons, d0, es0, cmap0, cp, nc);
      ghost var after := Moment(d[..nv], el[..ne], nv, c[..]);
      if last {
        if nv == before.nv { SteppedIdle(rules, t, before, after); }
        StoppedAfter(rules, cmap0, t, before, after);
        return;
      }
      RanNext(rules, cmap0, trace, after);
      trace := trace + [after];
    }
    TestsDecide(rules, cmap0, nsteps, trace[nsteps], d0, es0, cp, nc, csize[..], cmapGlobal[..], csz, nonsingletons);
    StoppedBefore(rules, cmap0, nsteps, trace[nsteps]);
  }

  // A caller's conditions for a first turn are the loop's.
  lemma TakesGoes(rules: Rules, cmap0: seq<int>, csize: seq<int>, x: Moment)
    requires Sized(csize, cmap0, x.nv) && x.c == Identity(x.nv)
    requires rules.limit != 0 && rules.limit >= 0 && x.nv >= rules.maxnum && (forall a | 0 <= a < x.nv :: csize[a] <= rules.maxsz)
    requires !rules.covered(0) && !rules.drops(0)
    ensures GoesOn(rules, cmap0, 0, x)
  {
    assert Compose(x.c, cmap0) == cmap0;
    hide Size;
  }

  lemma ScoredIntro(rules: Rules, t: nat, s: seq<real>)
    requires forall k: nat | k < |s| :: s[k] == rules.score(t, k)
    ensures Scored(rules, t, s)
  {
  }

  lemma StoppedAfter(rules: Rules, cmap0: seq<int>, t: nat, x: Moment, f: Moment)
    requires GoesOn(rules, cmap0, t, x) && Stepped(rules, t, x, f) && (f.nv == x.nv || f.es == [])
    ensures Stopped(rules, cmap0, t, x, f)
  {
    hide GoesOn, Stepped;
  }

  lemma StoppedBefore(rules: Rules, cmap0: seq<int>, t: nat, x: Moment)
    requires !GoesOn(rules, cmap0, t, x)
    ensures Stopped(rules, cmap0, t, x, x)
  {
    hide GoesOn, Stepped;
  }

  // The loop's tests are those of the trace.
  lemma TestsDecide(rules: Rules, cmap0: seq<int>, t: nat, x: Moment, d0: seq<int>, es0: seq<Edge>,
                    cp: seq<int>, nc: nat, csize: seq<int>, cmap: seq<int>, csz: int, nonsingletons: nat)
    requires Stage(d0, es0, cmap0, t, x.d, x.es, x.nv, x.c, cp, nc, csize, cmap, csz, nonsingletons) && x.nv == nc && rules.maxnum >= 2
    ensures GoesOn(rules, cmap0, t, x) <==> t < rules.limit && x.nv >= rules.maxnum && !rules.covered(t) && !rules.drops(t) && csz <= rules.maxsz
  {
    hide *;
    StageElim(d0, es0, cmap0, t, x.d, x.es, x.nv, x.c, cp, nc, csize, cmap, csz, nonsingletons);
    SizesFit(cmap0, cp, nc, csize, cmap, csz, rules.maxsz);
    GoesOnIs(rules, cmap0, t, x);
  }

  lemma GoesOnIs(rules: Rules, cmap0: seq<int>, t: nat, x: Moment)
    requires forall v | 0 <= v < |cmap0| :: 0 <= cmap0[v] < |x.c|
    ensures GoesOn(rules, cmap0, t, x) <==>
      && t < rules.limit && x.nv >= rules.maxnum && !rules.covered(t) && !rules.drops(t)
      && SizesWithin(Compose(x.c, cmap0), x.nv, rules.maxsz)
  {
    hide SizesWithin, Compose;
  }

  /**
   Two vertices and one edge of positive score: they merge, no edge is left, and sizes and map still
   speak of two communities.
   */
  method EarlyStop() returns (ne: nat, nv: nat, c: array<int>, csize: array<int>, cmap: array<int>)
    ensures ne == 0 && nv == 1 && c.Length == 2 && c[0] == c[1] == 0
    ensures cmap.Length == csize.Length == 2 && Sized(csize[..], cmap[..], 2) && cmap[0] != cmap[1]
  {
    hide *;
    var d, el := new int[2](_ => 0), new Edge[1](_ => Edge(0, 1, 1));
    cmap, csize := new int[2](v => v), new int[2](_ => 1);
    assert d[..2] == [0, 0] && el[..1] == [Edge(0, 1, 1)] && cmap[..] == [0, 1] && csize[..] == [1, 1];
    var never := (k: nat) => false;
    var even := (t: nat, k: nat) => 1.0;
    PairStarts(never);
    assert even(0, 0) == 1.0;
    var nsteps, csz, nonsingletons;
    ghost var nc, trace;
    nsteps, ne, nv, c, csz, nonsingletons, nc, trace := UpdateCommunity(cmap, csize, 1, el, 2, d, true, 2, 1, -1, even, never, never);
    PairMerged(d[..nv], el[..ne], nv, c[..]);
    assert c[0] == c[..][0] && c[1] == c[..][1] && nc == 2;
    PairDiffers(csize[..], cmap[..]);
  }

  lemma PairStarts(never: nat -> bool)
    requires !never(0)
    ensures Sized([1, 1], [0, 1], 2) && Within([Edge(0, 1, 1)], 2) && LoopFree([Edge(0, 1, 1)])
    ensures TakesStep([1, 1], 2, 2, 1, -1, never, never)
  {
    assert [0, 1][..1] == [0] && [0][..0] == [];
    assert Size([0], 0) == 1 && Size([0], 1) == 0;
    assert Size([0, 1], 0) == 1 && Size([0, 1], 1) == 1;
  }

  lemma PairMerged(d: seq<int>, es: seq<Edge>, nv: nat, c: seq<int>)
    requires Current([0, 0], [Edge(0, 1, 1)], d, es, nv, c) && nv < 2 && Within(es, nv) && LoopFree(es)
    ensures nv == 1 && es == [] && c == [0, 0]
  {
    assert 0 <= c[0] < nv;
    AllLoops(es);
  }

  lemma AllLoops(es: seq<Edge>)
    requires Within(es, 1)
    ensures es != [] ==> !LoopFree(es)
  {
    if es != [] { assert es[0] in es && es[0].i == es[0].j; }
  }

  lemma PairDiffers(csize: seq<int>, cmap: seq<int>)
    requires Sized(csize, cmap, 2) && |cmap| == 2
    ensures cmap[0] != cmap[1]
  {
    assert 0 in cmap && 1 in cmap;
  }

  lemma TakesFirst(csize: seq<int>, nv: nat, maxsz: int, maxnum: int, maxNsteps: int, drops: nat -> bool, covered: nat -> bool)
    requires nv <= |csize| && TakesStep(csize, nv, maxsz, maxnum, maxNsteps, drops, covered)
    ensures maxNsteps != 0 && nv >= 2 && nv >= maxnum && (forall a | 0 <= a < nv :: csize[a] <= maxsz) && !covered(0) && !drops(0)
  {
  }

  lemma FollowingSized(cmap0: seq<int>, cp: seq<int>, nc: nat, csize: seq<int>, cmap: seq<int>)
    requires Following(cmap0, cp, nc, csize, cmap)
    ensures Sized(csize, cmap, nc) && nc <= |csize| && Bounded(cp, nc) && Bounded(cmap0, |cp|)
  {
  }

  // A graph with edges has vertices.
  lemma CurrentPositive(d0: seq<int>, es0: seq<Edge>, d: seq<int>, es: seq<Edge>, nv: nat, c: seq<int>)
    requires Current(d0, es0, d, es, nv, c) && es != []
    ensures nv > 0
  {
    assert es[0] in es;
  }
}
