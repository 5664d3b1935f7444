/**
 Moving touched vertices out of their communities: extract_vertices, extract_edges,
 commit_cmap_change and update_el, and the list of touched vertices they work on.
 */
module Extraction {
  import opened Weights
  import opened Sorts
  import opened Sizes
  import opened InsQueue
  import opened ExtractionCells
  import opened Movers
  import Contraction

  // ---------------------------------------------------------------- the list of touched vertices

  // vlist[..n] holds without repetition exactly the vertices with a non-negative mark.
  ghost predicate Listed(vlist: seq<int>, n: nat, mark: seq<int>) {
    && n <= |vlist| && Bounded(vlist[..n], |mark|)
    && (forall k | 0 <= k < n :: mark[vlist[k]] == k)
    && (forall v | 0 <= v < |mark| && mark[v] >= 0 :: mark[v] < n && vlist[mark[v]] == v)
    && (forall v | 0 <= v < |mark| && mark[v] < 0 :: mark[v] == -1)
  }

  lemma {:induction false} DistinctFew(s: seq<int>, n: nat)
    requires Bounded(s, n) && forall p, q | 0 <= p < q < |s| :: s[p] != s[q]
    ensures |s| <= n
  {
    if s != [] {
      assert 0 <= s[0] < n;
      if n - 1 in s {
        var k :| 0 <= k < |s| && s[k] == n - 1;
        DistinctFew(s[..k] + s[k + 1..], n - 1);
      } else {
        DistinctFew(s, n - 1);
      }
    }
  }

  lemma ListedRoom(vlist: seq<int>, n: nat, mark: seq<int>, i: int)
    requires Listed(vlist, n, mark) && 0 <= i < |mark| && mark[i] < 0
    ensures n < |mark|
  {
    var s := vlist[..n] + [i];
    assert forall p | 0 <= p < n :: mark[s[p]] == p;
    DistinctFew(s, |mark|);
  }

  /** append_to_vlist: a vertex is listed once, however often it is touched. */
  method AppendToVlist(nvlist: nat, vlist: array<int>, mark: array<int>, i: nat) returns (n: nat, out: bool)
    requires i < mark.Length <= vlist.Length && vlist != mark && Listed(vlist[..], nvlist, mark[..])
    modifies vlist, mark
    ensures Listed(vlist[..], n, mark[..]) && vlist[..nvlist] == old(vlist[..nvlist])
    ensures forall v | 0 <= v < mark.Length :: mark[v] >= 0 <==> old(mark[v]) >= 0 || v == i
    ensures out <==> old(mark[i]) < 0
    ensures n == if out then nvlist + 1 else nvlist
  {
    n, out := nvlist, false;
    if mark[i] < 0 {
      ListedRoom(vlist[..], nvlist, mark[..], i);
      n := nvlist + 1;
      mark[i] := nvlist;
      vlist[nvlist] := i;
      out := true;
    }
  }

  // ---------------------------------------------------------------- extracting vertices

  // cmap with the first k listed vertices moved where they are marked.
  function Moved(cmap: seq<int>, mark: seq<int>, vlist: seq<int>, k: nat): (r: seq<int>)
    requires |mark| == |cmap| && k <= |vlist|
    ensures |r| == |cmap|
    ensures forall v | 0 <= v < |cmap| :: r[v] == if v in vlist[..k] && mark[v] >= 0 then mark[v] else cmap[v]
  {
    seq(|cmap|, v requires 0 <= v < |cmap| => if v in vlist[..k] && mark[v] >= 0 then mark[v] else cmap[v])
  }

  function Max(a: int, b: int): int { if a < b then b else a }

  // Listed vertices stay, or move to new communities of their own.
  ghost predicate MarksNew(mark: seq<int>, list: seq<int>, nv: nat, ncomm: nat) {
    && (forall v | v in list :: 0 <= v < |mark| && (mark[v] == -1 || nv <= mark[v] < ncomm))
    && (forall u, v | u in list && v in list && u != v && mark[u] >= 0 :: mark[u] != mark[v])
  }

  // The old communities have lost what the first k listed vertices took, but not their last vertex.
  ghost predicate SizesLeft(cmap: seq<int>, vlist: seq<int>, k: nat, nv: nat, csize0: seq<int>, csize: seq<int>)
    requires k <= |vlist| && Bounded(vlist, |cmap|)
  {
    nv <= |csize0| && nv <= |csize| && forall c | 0 <= c < nv :: csize[c] == Max(1, csize0[c] - Out(cmap, vlist, k, c))
  }

  // The first k listed vertices are marked as the inputs say, and ncomm is the next number.
  ghost predicate MarkedSoFar(cmap: seq<int>, vlist: seq<int>, k: nat, nv: nat, csize0: seq<int>, mark: seq<int>, ncomm: nat) {
    && k <= |vlist| && Fits(cmap, csize0, vlist) && |mark| == |cmap|
    && ncomm == nv + MoverCount(cmap, csize0, vlist, k)
    && forall p | 0 <= p < k :: mark[vlist[p]] == MarksOf(cmap, csize0, vlist, nv, k)[vlist[p]]
  }

  lemma MarkedNext(cmap: seq<int>, vlist: seq<int>, k: nat, nv: nat, csize0: seq<int>, mark: seq<int>, ncomm: nat, moves: bool)
    requires k < |vlist| && Distinct(vlist) && MarkedSoFar(cmap, vlist, k, nv, csize0, mark, ncomm)
    requires moves <==> Moves(cmap, csize0, vlist, k)
    ensures 0 <= vlist[k] < |mark|
    ensures MarkedSoFar(cmap, vlist, k + 1, nv, csize0, mark[vlist[k] := if moves then ncomm else -1], if moves then ncomm + 1 else ncomm)
  {
    hide Moves;
  }

  lemma MarkedAll(cmap: seq<int>, vlist: seq<int>, nv: nat, csize0: seq<int>, mark: seq<int>, ncomm: nat)
    requires MarkedSoFar(cmap, vlist, |vlist|, nv, csize0, mark, ncomm)
    requires forall v | 0 <= v < |mark| && v !in vlist :: mark[v] == -1
    ensures Fits(cmap, csize0, vlist) && mark == MarksOf(cmap, csize0, vlist, nv, |vlist|)
  {
    assert vlist[..|vlist|] == vlist;
    forall v | 0 <= v < |mark| && v !in vlist { MarkBefore(cmap, csize0, vlist, nv, |vlist|, v); }
    hide MarksOf;
  }

  ghost predicate Extracting(cmap: seq<int>, vlist: seq<int>, k: nat, nv: nat, csize0: seq<int>, mark: seq<int>, ncomm: nat, csize: seq<int>) {
    && |mark| == |cmap| <= |csize| && k <= |vlist| && Bounded(vlist, |cmap|) && Distinct(vlist)
    && Bounded(cmap, nv) && nv <= ncomm <= |cmap|
    && Sized(csize, Moved(cmap, mark, vlist, k), ncomm)
    && MarksNew(mark, vlist[..k], nv, ncomm)
    && SizesLeft(cmap, vlist, k, nv, csize0, csize)
    && MarkedSoFar(cmap, vlist, k, nv, csize0, mark, ncomm)
  }

  // There are no more communities than vertices, and fewer when one has two vertices.
  lemma {:induction false} SizesRoom(csize: seq<int>, n: nat)
    requires n <= |csize| && forall a | 0 <= a < n :: csize[a] >= 1
    ensures Sum(csize[..n]) >= n
    ensures forall a | 0 <= a < n && csize[a] > 1 :: Sum(csize[..n]) > n
  {
    if n > 0 {
      assert csize[..n][..n - 1] == csize[..n - 1];
      SizesRoom(csize, n - 1);
    }
  }

  lemma CommunitiesRoom(csize: seq<int>, cmap: seq<int>, n: nat, a: int)
    requires Sized(csize, cmap, n) && 0 <= a < n && csize[a] > 1
    ensures n < |cmap|
  {
    forall c | 0 <= c < n ensures csize[c] >= 1 { SizePositive(cmap, c); }
    SizesRoom(csize, n);
    SizesTotal(cmap, csize[..n]);
  }

  lemma ExtractingHere(cmap: seq<int>, vlist: seq<int>, k: nat, nv: nat, csize0: seq<int>, mark: seq<int>, ncomm: nat, csize: seq<int>)
    requires Extracting(cmap, vlist, k, nv, csize0, mark, ncomm, csize) && k < |vlist|
    ensures var cv := cmap[vlist[k]];
      && 0 <= cv < nv && csize[cv] >= 1
      && (csize[cv] > 1 ==> ncomm < |cmap|)
  {
    var moved := Moved(cmap, mark, vlist, k);
    var cv := cmap[vlist[k]];
    SizePositive(moved, cv);
    if csize[cv] > 1 { CommunitiesRoom(csize, moved, ncomm, cv); }
  }

  lemma ListGrows(vlist: seq<int>, k: nat)
    requires k < |vlist| && Distinct(vlist)
    ensures vlist[..k + 1] == vlist[..k] + [vlist[k]] && vlist[k] !in vlist[..k]
  {
  }

  lemma MovedOne(cmap: seq<int>, mark: seq<int>, vlist: seq<int>, k: nat, x: int)
    requires |mark| == |cmap| && k < |vlist| && Bounded(vlist, |cmap|) && Distinct(vlist) && x >= -1
    ensures Moved(cmap, mark, vlist, k)[vlist[k]] == cmap[vlist[k]]
    ensures Moved(cmap, mark[vlist[k] := x], vlist, k + 1) ==
            Moved(cmap, mark, vlist, k)[vlist[k] := if x >= 0 then x else cmap[vlist[k]]]
  {
    ListGrows(vlist, k);
  }

  // Moving one vertex to a new community keeps the histogram.
  lemma SizedMove(csize: seq<int>, m: seq<int>, n: nat, v: nat)
    requires Sized(csize, m, n) && v < |m| && n < |csize| && 0 <= m[v] < n && csize[m[v]] > 1
    ensures Sized(csize[m[v] := csize[m[v]] - 1][n := 1], m[v := n], n + 1)
  {
    var m', csize' := m[v := n], csize[m[v] := csize[m[v]] - 1][n := 1];
    SizePositive(m, n);
    forall a | 0 <= a < n + 1 ensures csize'[a] == Size(m', a) && a in m' {
      SizeMove(m, v, n, a);
      SizePositive(m, a);
      SizePositive(m', a);
    }
  }

  lemma MarksMove(mark: seq<int>, vlist: seq<int>, k: nat, nv: nat, ncomm: nat, moves: bool)
    requires k < |vlist| && Distinct(vlist) && 0 <= vlist[k] < |mark| && MarksNew(mark, vlist[..k], nv, ncomm) && nv <= ncomm
    ensures MarksNew(mark[vlist[k] := if moves then ncomm else -1], vlist[..k + 1], nv, if moves then ncomm + 1 else ncomm)
  {
    ListGrows(vlist, k);
  }

  // A vertex that is not the last of its community gets a new one.
  lemma ExtractingMove(cmap: seq<int>, vlist: seq<int>, k: nat, nv: nat, csize0: seq<int>, mark: seq<int>, ncomm: nat, csize: seq<int>)
    requires Extracting(cmap, vlist, k, nv, csize0, mark, ncomm, csize) && k < |vlist| && ncomm < |cmap|
    requires 0 <= cmap[vlist[k]] < nv && csize[cmap[vlist[k]]] > 1
    ensures var v, cv := vlist[k], cmap[vlist[k]];
      Extracting(cmap, vlist, k + 1, nv, csize0, mark[v := ncomm], ncomm + 1, csize[cv := csize[cv] - 1][ncomm := 1])
  {
    MovedOne(cmap, mark, vlist, k, ncomm);
    SizedMove(csize, Moved(cmap, mark, vlist, k), ncomm, vlist[k]);
    MarksMove(mark, vlist, k, nv, ncomm, true);
    MarkedNext(cmap, vlist, k, nv, csize0, mark, ncomm, true);
    hide Sized, MarksNew, Moved, Distinct, MarkedSoFar;
  }

  // The last vertex of a community stays.
  lemma ExtractingStay(cmap: seq<int>, vlist: seq<int>, k: nat, nv: nat, csize0: seq<int>, mark: seq<int>, ncomm: nat, csize: seq<int>)
    requires Extracting(cmap, vlist, k, nv, csize0, mark, ncomm, csize) && k < |vlist|
    requires 0 <= cmap[vlist[k]] < nv && csize[cmap[vlist[k]]] == 1
    ensures Extracting(cmap, vlist, k + 1, nv, csize0, mark[vlist[k] := -1], ncomm, csize)
  {
    MovedOne(cmap, mark, vlist, k, -1);
    MarksMove(mark, vlist, k, nv, ncomm, false);
    MarkedNext(cmap, vlist, k, nv, csize0, mark, ncomm, false);
    var m := Moved(cmap, mark, vlist, k);
    assert m[vlist[k] := cmap[vlist[k]]] == m;
    hide Sized, MarksNew, Moved, Distinct, MarkedSoFar;
  }

  /** extract_vertex */
  method ExtractVertex(v: nat, cv: nat, mark: array<int>, ncomm: nat, csize: array<int>) returns (ncomm': nat)
    requires v < mark.Length && cv < csize.Length && mark != csize && (csize[cv] > 1 ==> cv < ncomm < csize.Length)
    modifies mark, csize
    ensures if old(csize[cv]) > 1
            then ncomm' == ncomm + 1 && mark[..] == old(mark[..])[v := ncomm] && csize[..] == old(csize[..])[cv := old(csize[cv]) - 1][ncomm := 1]
            else ncomm' == ncomm && mark[..] == old(mark[..])[v := -1] && csize[..] == old(csize[..])
  {
    ncomm' := ncomm;
    if csize[cv] > 1 {
      csize[cv] := csize[cv] - 1;
      ncomm' := ncomm + 1;
      mark[v] := ncomm;
      csize[ncomm] := 1;
    } else {
      mark[v] := -1;
    }
  }

  /**
   extract_vertices: exactly the listed vertices that find company in their community move, each to
   the next new number; sizes stay the exact histogram, no community is emptied, and new community
   numbers stay below the number of vertices.
   */
  method ExtractVertices(nvlist: nat, vlist: array<int>, cmap: array<int>, mark: array<int>, nv: nat, csize: array<int>) returns (ncomm: nat)
    requires mark.Length == cmap.Length <= csize.Length && mark != csize && mark != vlist && mark != cmap && csize != vlist && csize != cmap
    requires nvlist <= vlist.Length && Listed(vlist[..], nvlist, mark[..])
    requires Sized(csize[..], cmap[..], nv)
    modifies mark, csize
    ensures Extracting(cmap[..], vlist[..nvlist], nvlist, nv, old(csize[..]), mark[..], ncomm, csize[..])
    ensures Fits(cmap[..], old(csize[..]), vlist[..nvlist]) && Distinct(vlist[..nvlist])
    ensures mark[..] == MarksOf(cmap[..], old(csize[..]), vlist[..nvlist], nv, nvlist)
    ensures ncomm == nv + MoverCount(cmap[..], old(csize[..]), vlist[..nvlist], nvlist)
  {
    ghost var list, cm, cs0, mark0 := vlist[..nvlist], cmap[..], csize[..], mark[..];
    ncomm := nv;
    ExtractingStarts(vlist[..], nvlist, cm, mark0, nv, cs0);
    MarksOutside(vlist[..], nvlist, mark0);
    hide *;
    assert vlist[..][..nvlist] == list;
    var k := 0;
    while k < nvlist
      invariant 0 <= k <= nvlist && vlist[..nvlist] == list && cmap[..] == cm
      invariant Extracting(cm, list, k, nv, cs0, mark[..], ncomm, csize[..])
      invariant forall v | 0 <= v < mark.Length && mark0[v] < 0 :: mark[v] == mark0[v]
    {
      assert vlist[k] == list[k] && list[k] in list;
      ncomm := ExtractListed(k, list, vlist[k], cmap, mark, nv, ncomm, csize, cs0);
      k := k + 1;
    }
    ExtractingFacts(cm, list, nvlist, nv, cs0, mark[..], ncomm, csize[..]);
    MarkedAll(cm, list, nv, cs0, mark[..], ncomm);
  }

  // One turn of extract_vertices.
  method ExtractListed(ghost k: nat, ghost list: seq<int>, v: int, cmap: array<int>, mark: array<int>, ghost nv: nat, ncomm: nat, csize: array<int>,
                       ghost cs0: seq<int>) returns (ncomm': nat)
    requires k < |list| && v == list[k] && 0 <= v < mark.Length == cmap.Length && mark != csize && mark != cmap && csize != cmap
    requires Extracting(cmap[..], list, k, nv, cs0, mark[..], ncomm, csize[..])
    modifies mark, csize
    ensures Extracting(cmap[..], list, k + 1, nv, cs0, mark[..], ncomm', csize[..])
    ensures forall u | 0 <= u < mark.Length && u != v :: mark[u] == old(mark[u])
  {
    hide *;
    ghost var cm, m1, c1 := cmap[..], mark[..], csize[..];
    ExtractingHere(cm, list, k, nv, cs0, m1, ncomm, c1);
    ExtractingLengths(cm, list, k, nv, cs0, m1, ncomm, c1);
    assert cmap[v] == cm[v] && csize[cmap[v]] == c1[cm[v]];
    if c1[cm[v]] > 1 {
      ExtractingMove(cm, list, k, nv, cs0, m1, ncomm, c1);
    } else {
      ExtractingStay(cm, list, k, nv, cs0, m1, ncomm, c1);
    }
    ncomm' := ExtractVertex(v, cmap[v], mark, ncomm, csize);
    forall u | 0 <= u < mark.Length && u != v ensures mark[u] == m1[u] { assert mark[..][u] == m1[u]; }
  }

  lemma ExtractingLengths(cmap: seq<int>, vlist: seq<int>, k: nat, nv: nat, csize0: seq<int>, mark: seq<int>, ncomm: nat, csize: seq<int>)
    requires Extracting(cmap, vlist, k, nv, csize0, mark, ncomm, csize)
    ensures |mark| == |cmap| <= |csize| && nv <= ncomm <= |cmap|
  {
  }

  lemma ExtractingStarts(vlist: seq<int>, n: nat, cmap: seq<int>, mark: seq<int>, nv: nat, csize: seq<int>)
    requires |mark| == |cmap| <= |csize| && Listed(vlist, n, mark) && Sized(csize, cmap, nv)
    ensures Extracting(cmap, vlist[..n], 0, nv, csize, mark, nv, csize)
    ensures forall v | v in vlist[..n] :: 0 <= v < |mark| && mark[v] >= 0
  {
    assert Moved(cmap, mark, vlist[..n], 0) == cmap;
    forall c | 0 <= c < nv ensures csize[c] >= 1 { SizePositive(cmap, c); }
    SizesRoom(csize, nv);
    SizesTotal(cmap, csize[..nv]);
    forall p, q | 0 <= p < q < n ensures vlist[p] != vlist[q] { assert mark[vlist[p]] == p && mark[vlist[q]] == q; }
    forall v | v in vlist[..n] ensures 0 <= v < |mark| && mark[v] >= 0 {
      var p :| 0 <= p < n && vlist[..n][p] == v;
      assert mark[vlist[p]] == p;
    }
  }

  // What the edge passes need of the marks.
  lemma ExtractingDone(cmap: seq<int>, vlist: seq<int>, nv: nat, csize0: seq<int>, mark: seq<int>, ncomm: nat, csize: seq<int>)
    requires Extracting(cmap, vlist, |vlist|, nv, csize0, mark, ncomm, csize)
    requires forall v | 0 <= v < |mark| && v !in vlist :: mark[v] == -1
    ensures Marked(cmap, mark, nv, ncomm) && Lists(mark, vlist)
    ensures Sized(csize, Next(cmap, mark), ncomm)
    ensures forall v | 0 <= v < |mark| :: mark[v] >= -1
  {
    assert vlist[..|vlist|] == vlist;
    assert Moved(cmap, mark, vlist, |vlist|) == Next(cmap, mark);
  }

  // ---------------------------------------------------------------- the first edge pass

  // What the first pass has done to the diagonal after k vertices.
  ghost predicate DiagState(cmap: seq<int>, mark: seq<int>, adj: seq<seq<Nbr>>, vlist: seq<int>, k: nat, newNv: nat, d0: seq<int>, d: seq<int>)
    requires |cmap| == |mark| && RowsFit(adj, |cmap|) && k <= |vlist| && Bounded(vlist, |cmap|)
  {
    && |d0| == newNv <= |d|
    && forall a | 0 <= a < newNv :: d[a] == d0[a] + Cell(Looped(cmap, mark, adj, vlist, k), a, a)
  }

  // Nothing has yet reached the diagonal of a vertex still to come.
  lemma {:induction false} LoopedNone(cmap: seq<int>, mark: seq<int>, nv: nat, newNv: nat, adj: seq<seq<Nbr>>, vlist: seq<int>, k: nat, l: nat)
    requires Marked(cmap, mark, nv, newNv) && Lists(mark, vlist) && RowsFit(adj, |cmap|) && k <= l < |vlist| && mark[vlist[l]] >= 0
    ensures Cell(Looped(cmap, mark, adj, vlist, k), mark[vlist[l]], mark[vlist[l]]) == 0
  {
    if k > 0 {
      LoopedNone(cmap, mark, nv, newNv, adj, vlist, k - 1, l);
      LoopedStep(cmap, mark, adj, vlist, k - 1, mark[vlist[l]]);
      var u, v := vlist[k - 1], vlist[l];
      assert u != v && cmap[u] < nv;
    }
  }

  lemma LoopedStep(cmap: seq<int>, mark: seq<int>, adj: seq<seq<Nbr>>, vlist: seq<int>, k: nat, a: int)
    requires |cmap| == |mark| && RowsFit(adj, |cmap|) && k < |vlist| && Bounded(vlist, |cmap|)
    ensures var i := vlist[k];
      Cell(Looped(cmap, mark, adj, vlist, k + 1), a, a) == Cell(Looped(cmap, mark, adj, vlist, k), a, a)
        - (if mark[i] >= 0 && cmap[i] == a then InternalOld(cmap, i, adj[i]) else 0)
        + (if mark[i] >= 0 && mark[i] == a then InternalNew(mark, i, adj[i]) else 0)
  {
    hide Looped, Cell, InternalOld, InternalNew;
    if mark[vlist[k]] >= 0 {
      LoopedCellNext(cmap, mark, adj, vlist, k, a, a);
    } else {
      NothingNext(cmap, mark, adj, vlist, k);
    }
  }

  // One vertex's turn leaves the diagonal as its loops say.
  lemma DiagNext(cmap: seq<int>, mark: seq<int>, nv: nat, newNv: nat, adj: seq<seq<Nbr>>, vlist: seq<int>, k: nat, d0: seq<int>, d: seq<int>)
    requires Marked(cmap, mark, nv, newNv) && Lists(mark, vlist) && RowsFit(adj, |cmap|) && k < |vlist|
    requires DiagState(cmap, mark, adj, vlist, k, newNv, d0, d) && forall a | nv <= a < newNv :: d0[a] == 0
    ensures var i := vlist[k];
      var ci, mi := cmap[i], mark[i];
      && 0 <= ci < nv && mi < newNv && (mi >= 0 ==> ci != mi)
      && DiagState(cmap, mark, adj, vlist, k + 1, newNv, d0,
                   if mi >= 0 then d[ci := d[ci] - InternalOld(cmap, i, adj[i])][mi := InternalNew(mark, i, adj[i])] else d)
  {
    hide Cell, Looped, InternalOld, InternalNew;
    var i := vlist[k];
    if mark[i] >= 0 { LoopedNone(cmap, mark, nv, newNv, adj, vlist, k, k); }
    forall a | 0 <= a < newNv {
      LoopedStep(cmap, mark, adj, vlist, k, a);
    }
  }

  lemma RowPrefix(cmap: seq<int>, mark: seq<int>, i: int, row: seq<Nbr>, r: nat)
    requires |cmap| == |mark| && 0 <= i < |cmap| && r < |row| && forall k | 0 <= k < |row| :: 0 <= row[k].to < |cmap|
    ensures RowCount(cmap, mark, i, row[..r + 1]) == RowCount(cmap, mark, i, row[..r]) + EntryCount(cmap, mark, i, row[r])
    ensures InternalOld(cmap, i, row[..r + 1]) == InternalOld(cmap, i, row[..r]) + if cmap[row[r].to] == cmap[i] then row[r].w else 0
    ensures InternalNew(mark, i, row[..r + 1]) == InternalNew(mark, i, row[..r]) + if mark[row[r].to] == mark[i] then row[r].w else 0
    ensures RowQueued(cmap, mark, i, row[..r + 1]) == RowQueued(cmap, mark, i, row[..r]) + EntryQueued(cmap, mark, i, row[r])
  {
    assert row[..r + 1][..r] == row[..r];
  }

  // The first pass over one vertex's adjacency list.
  method ScanRow(cmap: array<int>, mark: array<int>, i: nat, row: seq<Nbr>) returns (count: nat, internalCw: int, internalW: int)
    requires cmap.Length == mark.Length && i < mark.Length && mark[i] >= 0 && forall k | 0 <= k < |row| :: 0 <= row[k].to < cmap.Length
    ensures count == RowCount(cmap[..], mark[..], i, row)
    ensures internalCw == InternalOld(cmap[..], i, row) && internalW == InternalNew(mark[..], i, row)
  {
    count, internalCw, internalW := 0, 0, 0;
    var ci, mi := cmap[i], mark[i];
    ghost var cm, mk := cmap[..], mark[..];
    var r := 0;
    while r < |row|
      invariant 0 <= r <= |row| && cmap[..] == cm && mark[..] == mk
      invariant count == RowCount(cm, mk, i, row[..r])
      invariant internalCw == InternalOld(cm, i, row[..r]) && internalW == InternalNew(mk, i, row[..r])
    {
      RowPrefix(cm, mk, i, row, r);
      var j, w := row[r].to, row[r].w;
      var cj, mj := cmap[j], mark[j];
      if ci != cj {
        if mj < 0 || ci < cj { count := count + 1; }
      } else {
        internalCw := internalCw + w;
      }
      if mi == mj {
        internalW := internalW + w;
      } else if mj < 0 {
        count := count + 1;
      } else if mi < mj {
        count := count + 1;
      }
      r := r + 1;
    }
    assert row[..|row|] == row;
  }

  /** The first pass: how many edges will come, and the diagonals of the communities left and entered. */
  method CountEdges(nvlist: nat, vlist: array<int>, cmap: array<int>, mark: array<int>, adj: seq<seq<Nbr>>, g: CommunityGraph, ghost nv: nat)
    returns (count: nat)
    requires g.Valid() && nvlist <= vlist.Length && g.d != vlist && g.d != cmap && g.d != mark
    requires Marked(cmap[..], mark[..], nv, g.nv) && Lists(mark[..], vlist[..nvlist]) && RowsFit(adj, cmap.Length)
    requires forall a | nv <= a < g.nv :: g.d[a] == 0
    modifies g.d
    ensures count == Count(cmap[..], mark[..], adj, vlist[..nvlist], nvlist)
    ensures DiagState(cmap[..], mark[..], adj, vlist[..nvlist], nvlist, g.nv, old(g.Diag()), g.d[..])
  {
    hide *;
    ghost var list, cm, mk, d0, newNv := vlist[..nvlist], cmap[..], mark[..], g.Diag(), g.nv;
    DiagIs(g);
    DiagStarts(g, nv);
    ListsFit(cm, mk, nv, newNv, list, adj);
    count := 0;
    DiagStateStarts(cm, mk, adj, list, d0, newNv, g.d[..]);
    CountNone(cm, mk, adj, list);
    var k := 0;
    while k < nvlist
      invariant 0 <= k <= nvlist && vlist[..nvlist] == list && cmap[..] == cm && mark[..] == mk
      invariant count == Count(cm, mk, adj, list, k)
      invariant DiagState(cm, mk, adj, list, k, newNv, d0, g.d[..])
    {
      DiagNext(cm, mk, nv, newNv, adj, list, k, d0, g.d[..]);
      CountNext(cm, mk, adj, list, k);
      assert vlist[k] == list[k] && mark[vlist[k]] == mk[vlist[k]] && cmap[vlist[k]] == cm[vlist[k]];
      var c := CountOne(cmap, mark, vlist[k], adj[vlist[k]], g.d);
      count := count + c;
      k := k + 1;
    }
  }

  lemma DiagStarts(g: CommunityGraph, nv: nat)
    requires g.Valid() && forall a | nv <= a < g.nv :: g.d[a] == 0
    ensures |g.Diag()| == g.nv && forall a | nv <= a < g.nv :: g.Diag()[a] == 0
  {
  }

  lemma DiagStateStarts(cmap: seq<int>, mark: seq<int>, adj: seq<seq<Nbr>>, vlist: seq<int>, d0: seq<int>, newNv: nat, d: seq<int>)
    requires |cmap| == |mark| && RowsFit(adj, |cmap|) && Bounded(vlist, |cmap|) && newNv <= |d| && d0 == d[..newNv]
    ensures DiagState(cmap, mark, adj, vlist, 0, newNv, d0, d)
  {
  }

  lemma CountNone(cmap: seq<int>, mark: seq<int>, adj: seq<seq<Nbr>>, vlist: seq<int>)
    requires |cmap| == |mark| && RowsFit(adj, |cmap|) && Bounded(vlist, |cmap|)
    ensures Count(cmap, mark, adj, vlist, 0) == 0
  {
  }

  lemma CountNext(cmap: seq<int>, mark: seq<int>, adj: seq<seq<Nbr>>, vlist: seq<int>, k: nat)
    requires |cmap| == |mark| && RowsFit(adj, |cmap|) && k < |vlist| && Bounded(vlist, |cmap|)
    ensures 0 <= vlist[k] < |cmap| == |adj| && forall r | 0 <= r < |adj[vlist[k]]| :: 0 <= adj[vlist[k]][r].to < |cmap|
    ensures Count(cmap, mark, adj, vlist, k + 1) ==
            Count(cmap, mark, adj, vlist, k) + if mark[vlist[k]] >= 0 then RowCount(cmap, mark, vlist[k], adj[vlist[k]]) else 0
  {
    assert InRange(adj);
    hide RowCount;
  }

  // One vertex's turn in the first pass.
  method CountOne(cmap: array<int>, mark: array<int>, i: nat, row: seq<Nbr>, d: array<int>) returns (count: nat)
    requires cmap.Length == mark.Length && i < mark.Length && d != cmap && d != mark
    requires forall k | 0 <= k < |row| :: 0 <= row[k].to < cmap.Length
    requires mark[i] >= 0 ==> 0 <= cmap[i] < d.Length && mark[i] < d.Length && cmap[i] != mark[i]
    modifies d
    ensures count == if mark[i] >= 0 then RowCount(cmap[..], mark[..], i, row) else 0
    ensures d[..] == if mark[i] >= 0
                     then old(d[..])[cmap[i] := old(d[..])[cmap[i]] - InternalOld(cmap[..], i, row)][mark[i] := InternalNew(mark[..], i, row)]
                     else old(d[..])
  {
    var ci, mi := cmap[i], mark[i];
    count := 0;
    if mi >= 0 {
      var c, internalCw, internalW := ScanRow(cmap, mark, i, row);
      count := c;
      if internalCw != 0 { d[ci] := d[ci] - internalCw; }
      d[mi] := internalW;
    }
  }

  // ---------------------------------------------------------------- the second edge pass

  // The queue and the edge list together hold the graph of target, in no more room.
  ghost predicate Tracks(contents: seq<Edge>, target: seq<Edge>, nv: nat) {
    SameGraph(contents, target) && |contents| <= |target| && Within(contents, nv)
  }

  lemma TracksNext(contents: seq<Edge>, contents': seq<Edge>, target: seq<Edge>, nv: nat, e: Edge)
    requires Tracks(contents, target, nv) && 0 <= e.i < nv && 0 <= e.j < nv
    requires SameGraph(contents', contents + [e]) && |contents'| <= |contents| + 1
    requires forall f | f in contents' :: (f.i == e.i && f.j == e.j) || f in contents
    ensures Tracks(contents', target + [e], nv)
  {
    SameAppend(contents, target, e);
    SameTransitive(contents', contents + [e], target + [e]);
  }

  method EnqueueOne(q: InsertQueue, i: int, j: int, w: int, g: CommunityGraph, ghost target: seq<Edge>)
    requires q.Valid() && g.Valid() && q.q != g.el && Tracks(q.Contents(g), target, g.nv) && |target| < g.el.Length
    requires 0 <= i < g.nv && 0 <= j < g.nv
    modifies q, q.q, g`ne, g.el
    ensures q.Valid() && g.Valid() && Tracks(q.Contents(g), target + [Edge(i, j, w)], g.nv)
  {
    ghost var was := q.Contents(g);
    q.Enqueue(i, j, w, g);
    TracksNext(was, q.Contents(g), target, g.nv, Edge(i, j, w));
  }

  lemma {:induction false} RowQueuedGrows(cmap: seq<int>, mark: seq<int>, i: int, row: seq<Nbr>, r: nat)
    requires |cmap| == |mark| && 0 <= i < |cmap| && r <= |row| && forall k | 0 <= k < |row| :: 0 <= row[k].to < |cmap|
    ensures |RowQueued(cmap, mark, i, row[..r])| <= |RowQueued(cmap, mark, i, row)|
    decreases |row| - r
  {
    if r < |row| {
      RowPrefix(cmap, mark, i, row, r);
      RowQueuedGrows(cmap, mark, i, row, r + 1);
    } else {
      assert row[..r] == row;
    }
  }

  // The second pass over one vertex's adjacency list.
  method EnqueueRow(q: InsertQueue, cmap: array<int>, mark: array<int>, i: nat, row: seq<Nbr>, g: CommunityGraph, ghost nv: nat, ghost target: seq<Edge>)
    requires q.Valid() && g.Valid() && q.q != g.el && Tracks(q.Contents(g), target, g.nv)
    requires cmap.Length == mark.Length && i < mark.Length && mark[i] >= 0 && forall k | 0 <= k < |row| :: 0 <= row[k].to < cmap.Length
    requires Marked(cmap[..], mark[..], nv, g.nv) && |target| + |RowQueued(cmap[..], mark[..], i, row)| <= g.el.Length
    modifies q, q.q, g`ne, g.el
    ensures q.Valid() && g.Valid() && Tracks(q.Contents(g), target + RowQueued(cmap[..], mark[..], i, row), g.nv)
  {
    hide *;
    ghost var cm, mk := cmap[..], mark[..];
    var r := 0;
    RowQueuedStarts(cm, mk, i, row, target);
    while r < |row|
      invariant 0 <= r <= |row| && q.Valid() && g.Valid() && cmap[..] == cm && mark[..] == mk
      invariant Tracks(q.Contents(g), target + RowQueued(cm, mk, i, row[..r]), g.nv)
    {
      RowTurn(cm, mk, nv, g.nv, i, row, r, target);
      EnqueueEntry(q, cmap[i], mark[i], cmap[row[r].to], mark[row[r].to], row[r].w, g, target + RowQueued(cm, mk, i, row[..r]),
                   EntryQueued(cm, mk, i, row[r]));
      r := r + 1;
    }
    assert row[..|row|] == row;
  }

  lemma RowQueuedStarts(cmap: seq<int>, mark: seq<int>, i: int, row: seq<Nbr>, target: seq<Edge>)
    requires |cmap| == |mark| && 0 <= i < |cmap|
    ensures target + RowQueued(cmap, mark, i, row[..0]) == target
  {
    assert row[..0] == [];
  }

  // What one entry's turn needs and leaves.
  lemma RowTurn(cmap: seq<int>, mark: seq<int>, nv: nat, newNv: nat, i: int, row: seq<Nbr>, r: nat, target: seq<Edge>)
    requires Marked(cmap, mark, nv, newNv) && 0 <= i < |cmap| && r < |row| && forall k | 0 <= k < |row| :: 0 <= row[k].to < |cmap|
    ensures var e := EntryQueued(cmap, mark, i, row[r]);
      && var j := row[r].to;
      && target + RowQueued(cmap, mark, i, row[..r + 1]) == target + RowQueued(cmap, mark, i, row[..r]) + e
      && |target + RowQueued(cmap, mark, i, row[..r])| + |e| <= |target| + |RowQueued(cmap, mark, i, row)|
      && e == (if cmap[i] != cmap[j] && (mark[j] < 0 || cmap[i] < cmap[j]) then [Edge(cmap[i], cmap[j], -row[r].w)] else []) +
              (if mark[j] < 0 then [Edge(mark[i], cmap[j], row[r].w)] else if mark[i] < mark[j] then [Edge(mark[i], mark[j], row[r].w)] else [])
      && 0 <= cmap[i] < newNv && mark[i] < newNv && 0 <= cmap[j] < newNv && mark[j] < newNv
  {
    RowPrefix(cmap, mark, i, row, r);
    RowQueuedGrows(cmap, mark, i, row, r + 1);
    hide RowQueued;
    assert target + RowQueued(cmap, mark, i, row[..r]) + EntryQueued(cmap, mark, i, row[r]) == target + RowQueued(cmap, mark, i, row[..r + 1]);
  }

  method EnqueueEntry(q: InsertQueue, ci: int, mi: int, cj: int, mj: int, w: int, g: CommunityGraph, ghost target: seq<Edge>, ghost entry: seq<Edge>)
    requires q.Valid() && g.Valid() && q.q != g.el && Tracks(q.Contents(g), target, g.nv) && |target| + |entry| <= g.el.Length
    requires 0 <= ci < g.nv && 0 <= mi < g.nv && 0 <= cj < g.nv && mj < g.nv
    requires entry == (if ci != cj && (mj < 0 || ci < cj) then [Edge(ci, cj, -w)] else []) +
                      (if mj < 0 then [Edge(mi, cj, w)] else if mi < mj then [Edge(mi, mj, w)] else [])
    modifies q, q.q, g`ne, g.el
    ensures q.Valid() && g.Valid() && Tracks(q.Contents(g), target + entry, g.nv)
  {
    hide *;
    ghost var t := target;
    if ci != cj {
      if mj < 0 || ci < cj {
        EnqueueOne(q, ci, cj, -w, g, t);
        t := t + [Edge(ci, cj, -w)];
      }
    }
    if mj < 0 {
      EnqueueOne(q, mi, cj, w, g, t);
      t := t + [Edge(mi, cj, w)];
    } else if mi < mj {
      EnqueueOne(q, mi, mj, w, g, t);
      t := t + [Edge(mi, mj, w)];
    }
    assert t == target + entry;
  }

  lemma QueuedNext(cmap: seq<int>, mark: seq<int>, adj: seq<seq<Nbr>>, vlist: seq<int>, k: nat)
    requires |cmap| == |mark| && RowsFit(adj, |cmap|) && k < |vlist| && Bounded(vlist, |cmap|)
    ensures var i := vlist[k];
      && 0 <= i < |cmap|
      && Queued(cmap, mark, adj, vlist, k + 1) ==
         Queued(cmap, mark, adj, vlist, k) + if mark[i] >= 0 then RowQueued(cmap, mark, i, adj[i]) else []
  {
  }

  lemma QueuedStep(cmap: seq<int>, mark: seq<int>, adj: seq<seq<Nbr>>, vlist: seq<int>, k: nat, es: seq<Edge>)
    requires |cmap| == |mark| && RowsFit(adj, |cmap|) && k < |vlist| && Bounded(vlist, |cmap|)
    ensures var i := vlist[k];
      && 0 <= i < |cmap|
      && es + Queued(cmap, mark, adj, vlist, k + 1) ==
         (if mark[i] >= 0 then es + Queued(cmap, mark, adj, vlist, k) + RowQueued(cmap, mark, i, adj[i]) else es + Queued(cmap, mark, adj, vlist, k))
      && |es + Queued(cmap, mark, adj, vlist, k + 1)| <= |es| + Count(cmap, mark, adj, vlist, |vlist|)
  {
    CountGrows(cmap, mark, adj, vlist, k + 1, |vlist|);
    CountExact(cmap, mark, adj, vlist, |vlist|);
    QueuedNext(cmap, mark, adj, vlist, k);
    var i := vlist[k];
    assert InRange(adj);
    hide RowQueued, Queued, Count;
    if mark[i] >= 0 {
      Associative(es, Queued(cmap, mark, adj, vlist, k), RowQueued(cmap, mark, i, adj[i]));
    } else {
      assert Queued(cmap, mark, adj, vlist, k + 1) == Queued(cmap, mark, adj, vlist, k);
    }
  }

  lemma Associative<T>(a: seq<T>, b: seq<T>, c: seq<T>)
    ensures a + (b + c) == a + b + c
  {
  }

  lemma TracksStarts(contents: seq<Edge>, nv: nat)
    requires Within(contents, nv)
    ensures Tracks(contents, contents, nv)
  {
  }

  /** The second pass, with its last flush: the queued changes are in the edge list. */
  method EnqueueEdges(nvlist: nat, vlist: array<int>, cmap: array<int>, mark: array<int>, adj: seq<seq<Nbr>>, g: CommunityGraph, ghost nv: nat, queueSize: nat)
    requires g.Valid() && queueSize > 0 && nvlist <= vlist.Length
    requires Marked(cmap[..], mark[..], nv, g.nv) && Lists(mark[..], vlist[..nvlist]) && RowsFit(adj, cmap.Length) && Within(g.Edges(), g.nv)
    requires g.ne + Count(cmap[..], mark[..], adj, vlist[..nvlist], nvlist) <= g.el.Length
    modifies g`ne, g.el
    ensures g.Valid() && Tracks(g.Edges(), old(g.Edges()) + Queued(cmap[..], mark[..], adj, vlist[..nvlist], nvlist), g.nv)
  {
    hide *;
    ghost var list, cm, mk, es, newNv := vlist[..nvlist], cmap[..], mark[..], g.Edges(), g.nv;
    ListsFit(cm, mk, nv, newNv, list, adj);
    ValidFacts(g);
    var q := new InsertQueue(queueSize);
    QueueEmpty(q, g);
    QueuedNone(cm, mk, adj, list, es);
    TracksStarts(es, newNv);
    var k := 0;
    while k < nvlist
      invariant 0 <= k <= nvlist && vlist[..nvlist] == list && cmap[..] == cm && mark[..] == mk && fresh(q) && fresh(q.q)
      invariant q.Valid() && g.Valid() && Tracks(q.Contents(g), es + Queued(cm, mk, adj, list, k), newNv)
    {
      var i := vlist[k];
      assert i == list[k] && mark[i] == mk[i];
      QueuedStep(cm, mk, adj, list, k, es);
      if mark[i] >= 0 {
        EnqueueRow(q, cmap, mark, i, adj[i], g, nv, es + Queued(cm, mk, adj, list, k));
      }
      k := k + 1;
    }
    TracksRoom(q.Contents(g), es + Queued(cm, mk, adj, list, nvlist), newNv);
    QueuedFits(cm, mk, adj, list, es);
    ContentsSize(q, g);
    q.Flush(g);
  }

  lemma QueueEmpty(q: InsertQueue, g: CommunityGraph)
    requires q.Valid() && g.Valid() && q.n == 0
    ensures q.Contents(g) == g.Edges()
  {
  }

  lemma QueuedNone(cmap: seq<int>, mark: seq<int>, adj: seq<seq<Nbr>>, vlist: seq<int>, es: seq<Edge>)
    requires |cmap| == |mark| && RowsFit(adj, |cmap|) && Bounded(vlist, |cmap|)
    ensures es + Queued(cmap, mark, adj, vlist, 0) == es
  {
  }

  lemma ListsFit(cmap: seq<int>, mark: seq<int>, nv: nat, newNv: nat, vlist: seq<int>, adj: seq<seq<Nbr>>)
    requires Marked(cmap, mark, nv, newNv) && Lists(mark, vlist) && RowsFit(adj, |cmap|)
    ensures |cmap| == |mark| && nv <= newNv && Bounded(vlist, |cmap|) && (forall k | 0 <= k < |vlist| :: 0 <= vlist[k] < |cmap|)
    ensures |adj| == |cmap| && forall i, k | 0 <= i < |adj| && 0 <= k < |adj[i]| :: 0 <= adj[i][k].to < |adj|
  {
  }

  lemma TracksRoom(contents: seq<Edge>, target: seq<Edge>, nv: nat)
    requires Tracks(contents, target, nv)
    ensures |contents| <= |target|
  {
  }

  lemma QueuedFits(cmap: seq<int>, mark: seq<int>, adj: seq<seq<Nbr>>, vlist: seq<int>, es: seq<Edge>)
    requires |cmap| == |mark| && RowsFit(adj, |cmap|) && Bounded(vlist, |cmap|)
    ensures |es + Queued(cmap, mark, adj, vlist, |vlist|)| == |es| + Count(cmap, mark, adj, vlist, |vlist|)
  {
    CountExact(cmap, mark, adj, vlist, |vlist|);
  }

  lemma ContentsSize(q: InsertQueue, g: CommunityGraph)
    requires q.Valid() && g.Valid()
    ensures |q.Contents(g)| == g.ne + q.n
  {
  }

  // ---------------------------------------------------------------- committing

  /** commit_cmap_change: the marks become communities, and are cleared. */
  method CommitCmapChange(nvlist: nat, vlist: array<int>, cmap: array<int>, mark: array<int>)
    requires cmap.Length == mark.Length && nvlist <= vlist.Length && cmap != mark && cmap != vlist && mark != vlist
    requires Lists(mark[..], vlist[..nvlist]) && forall v | 0 <= v < mark.Length :: mark[v] >= -1
    modifies cmap, mark
    ensures cmap[..] == Next(old(cmap[..]), old(mark[..]))
    ensures forall v | 0 <= v < mark.Length :: mark[v] == -1
  {
    ghost var list, cm, mk := vlist[..nvlist], cmap[..], mark[..];
    var k := 0;
    while k < nvlist
      invariant 0 <= k <= nvlist && vlist[..nvlist] == list
      invariant forall v | 0 <= v < mark.Length :: mark[v] == if v in list[..k] then -1 else mk[v]
      invariant forall v | 0 <= v < cmap.Length :: cmap[v] == if v in list[..k] && mk[v] >= 0 then mk[v] else cm[v]
    {
      var i := vlist[k];
      assert i == list[k] && list[..k + 1] == list[..k] + [i] && i !in list[..k];
      if mark[i] >= 0 {
        cmap[i] := mark[i];
        mark[i] := -1;
      }
      k := k + 1;
    }
    assert list[..nvlist] == list;
  }

  // ---------------------------------------------------------------- the community graph and the STINGER

  // (d, ge) is the quotient of the graph es by cmap.
  ghost predicate Reflects(d: seq<int>, ge: seq<Edge>, es: seq<Edge>, cmap: seq<int>) {
    && Within(es, |cmap|)
    && forall a, b | 0 <= a && 0 <= b :: Cell(Whole(d, ge), a, b) == Cell(Relabel(es, cmap), a, b)
  }

  // The same, but for the weight that moved neighbors take twice.
  ghost predicate ReflectsBut(d: seq<int>, ge: seq<Edge>, es: seq<Edge>, cmap: seq<int>, mark: seq<int>)
    requires |mark| == |cmap|
  {
    && Within(es, |cmap|)
    && forall a, b | 0 <= a && 0 <= b :: Cell(Whole(d, ge), a, b) ==
         Cell(Relabel(es, Next(cmap, mark)), a, b) - if a == b then SharedWeight(cmap, mark, es, a) else 0
  }

  lemma LoopedLoops(cmap: seq<int>, mark: seq<int>, adj: seq<seq<Nbr>>, vlist: seq<int>, k: nat, a: int, b: int)
    requires |cmap| == |mark| && RowsFit(adj, |cmap|) && k <= |vlist| && Bounded(vlist, |cmap|) && a != b
    ensures Cell(Looped(cmap, mark, adj, vlist, k), a, b) == 0
  {
    LoopedEdges(cmap, mark, adj, vlist, k);
    Contraction.LoopsCell(Looped(cmap, mark, adj, vlist, k), a, b);
  }

  lemma {:induction false} LoopedEdges(cmap: seq<int>, mark: seq<int>, adj: seq<seq<Nbr>>, vlist: seq<int>, k: nat)
    requires |cmap| == |mark| && RowsFit(adj, |cmap|) && k <= |vlist| && Bounded(vlist, |cmap|)
    ensures forall e | e in Looped(cmap, mark, adj, vlist, k) :: e.i == e.j
  {
    if k > 0 { LoopedEdges(cmap, mark, adj, vlist, k - 1); }
  }

  lemma {:induction false} LoopedBeyond(cmap: seq<int>, mark: seq<int>, nv: nat, newNv: nat, adj: seq<seq<Nbr>>, vlist: seq<int>, k: nat, a: int)
    requires Marked(cmap, mark, nv, newNv) && RowsFit(adj, |cmap|) && k <= |vlist| && Bounded(vlist, |cmap|) && newNv <= a
    ensures Cell(Looped(cmap, mark, adj, vlist, k), a, a) == 0
  {
    if k > 0 {
      LoopedBeyond(cmap, mark, nv, newNv, adj, vlist, k - 1, a);
      LoopedStep(cmap, mark, adj, vlist, k - 1, a);
    }
  }

  // The first pass's diagonal, cell by cell.
  lemma DiagCell(cmap: seq<int>, mark: seq<int>, nv: nat, newNv: nat, adj: seq<seq<Nbr>>, vlist: seq<int>, d0: seq<int>, d: seq<int>, a: int, b: int)
    requires Marked(cmap, mark, nv, newNv) && RowsFit(adj, |cmap|) && Bounded(vlist, |cmap|)
    requires DiagState(cmap, mark, adj, vlist, |vlist|, newNv, d0, d) && 0 <= a && 0 <= b
    ensures Cell(Diagonal(d[..newNv]), a, b) == Cell(Diagonal(d0), a, b) + Cell(Looped(cmap, mark, adj, vlist, |vlist|), a, b)
  {
    Contraction.DiagonalCell(d[..newNv], a, b);
    Contraction.DiagonalCell(d0, a, b);
    if a != b {
      LoopedLoops(cmap, mark, adj, vlist, |vlist|, a, b);
    } else if newNv <= a {
      LoopedBeyond(cmap, mark, nv, newNv, adj, vlist, |vlist|, a);
    }
  }

  lemma PaddedCell(d: seq<int>, n: nat, a: int, b: int)
    ensures Cell(Diagonal(d + seq(n, _ => 0)), a, b) == Cell(Diagonal(d), a, b)
  {
    Contraction.DiagonalCell(d + seq(n, _ => 0), a, b);
    Contraction.DiagonalCell(d, a, b);
  }

  /** After both passes the graph is the quotient by the new map, but for the shared weights. */
  lemma PassesReflect(cmap: seq<int>, mark: seq<int>, nv: nat, newNv: nat, adj: seq<seq<Nbr>>, es: seq<Edge>, vlist: seq<int>,
                      d0: seq<int>, ge0: seq<Edge>, d1: seq<int>, d: seq<int>, ge: seq<Edge>)
    requires Marked(cmap, mark, nv, newNv) && Lists(mark, vlist) && RowsFit(adj, |cmap|) && AdjacencyOf(adj, es)
    requires |d0| == nv && Reflects(d0, ge0, es, cmap) && d1 == d0 + seq(newNv - nv, _ => 0)
    requires DiagState(cmap, mark, adj, vlist, |vlist|, newNv, d1, d)
    requires Tracks(ge, ge0 + Queued(cmap, mark, adj, vlist, |vlist|), newNv)
    ensures ReflectsBut(d[..newNv], ge, es, cmap, mark)
  {
    var q, l := Queued(cmap, mark, adj, vlist, |vlist|), Looped(cmap, mark, adj, vlist, |vlist|);
    forall a, b | 0 <= a && 0 <= b
      ensures Cell(Whole(d[..newNv], ge), a, b) ==
              Cell(Relabel(es, Next(cmap, mark)), a, b) - if a == b then SharedWeight(cmap, mark, es, a) else 0
    {
      CellConcat(Diagonal(d[..newNv]), ge, a, b);
      CellConcat(Diagonal(d0), ge0, a, b);
      CellConcat(ge0, q, a, b);
      DiagCell(cmap, mark, nv, newNv, adj, vlist, d1, d, a, b);
      PaddedCell(d0, newNv - nv, a, b);
      ChangesCell(cmap, mark, nv, newNv, adj, es, vlist, a, b);
      ReflectsCell(d0, ge0, es, cmap, a, b);
      TracksCell(ge, ge0 + q, newNv, a, b);
      hide *;
    }
  }

  lemma ReflectsCell(d: seq<int>, ge: seq<Edge>, es: seq<Edge>, cmap: seq<int>, a: int, b: int)
    requires Reflects(d, ge, es, cmap) && 0 <= a && 0 <= b
    ensures Cell(Diagonal(d) + ge, a, b) == Cell(Relabel(es, cmap), a, b)
  {
  }

  lemma TracksCell(ge: seq<Edge>, target: seq<Edge>, nv: nat, a: int, b: int)
    requires Tracks(ge, target, nv)
    ensures Cell(ge, a, b) == Cell(target, a, b)
  {
  }

  /** The new map is reflected exactly when no community lost weight twice. */
  lemma ReflectsExactly(d: seq<int>, ge: seq<Edge>, es: seq<Edge>, cmap: seq<int>, mark: seq<int>, nv: nat, newNv: nat)
    requires Marked(cmap, mark, nv, newNv) && ReflectsBut(d, ge, es, cmap, mark)
    ensures Reflects(d, ge, es, Next(cmap, mark)) <==> NothingShared(cmap, mark, es)
  {
    var next := Next(cmap, mark);
    if Reflects(d, ge, es, next) {
      forall a ensures SharedWeight(cmap, mark, es, a) == 0 {
        if 0 <= a {
          assert Cell(Whole(d, ge), a, a) == Cell(Relabel(es, next), a, a);
        } else {
          SharedBelow(cmap, mark, nv, es, a);
        }
      }
    }
  }

  lemma {:induction false} SharedBelow(cmap: seq<int>, mark: seq<int>, nv: nat, es: seq<Edge>, a: int)
    requires |cmap| == |mark| && Within(es, |cmap|) && Bounded(cmap, nv) && a < 0
    ensures SharedWeight(cmap, mark, es, a) == 0
  {
    if es != [] {
      assert es[|es| - 1] in es;
      SharedBelow(cmap, mark, nv, es[..|es| - 1], a);
    }
  }

  lemma ReflectsButSame(d: seq<int>, ge: seq<Edge>, d': seq<int>, ge': seq<Edge>, es: seq<Edge>, cmap: seq<int>, mark: seq<int>)
    requires |mark| == |cmap| && ReflectsBut(d, ge, es, cmap, mark) && SameGraph(Whole(d', ge'), Whole(d, ge))
    ensures ReflectsBut(d', ge', es, cmap, mark)
  {
    hide Cell, Relabel, SharedWeight, Whole;
  }

  // contract_self on the graph in place.
  method ContractSelf(g: CommunityGraph)
    requires g.Valid() && Within(g.Edges(), g.nv)
    modifies g`ne, g.d, g.el
    ensures g.Valid() && SameGraph(Whole(g.Diag(), g.Edges()), old(Whole(g.Diag(), g.Edges())))
    ensures g.ne <= old(g.ne) && Within(g.Edges(), g.nv) && Contraction.Simple(g.Edges())
  {
    var rowstart, rowend, count, tmp := new int[g.nv], new int[g.nv], new int[g.nv + 1], new Pair[g.ne];
    ghost var nv := g.nv;
    g.ne := Contraction.ContractSelfEl(g.ne, g.el, g.nv, g.d, rowstart, rowend, count, tmp);
    TidyEdges(g.Edges(), rowstart[..], rowend[..], nv);
    Contraction.TidyIsSimple(g.Edges(), rowstart[..], rowend[..], nv);
  }

  lemma TidyEdges(es: seq<Edge>, rowstart: seq<int>, rowend: seq<int>, nv: nat)
    requires Contraction.Tidy(es, rowstart, rowend, nv)
    ensures Within(es, nv)
  {
    forall e | e in es ensures 0 <= e.i < nv && 0 <= e.j < nv {
      var k :| 0 <= k < |es| && es[k] == e;
      var i := Contraction.TidyWhere(rowstart, rowend, nv, |es|, k, nv);
      assert Contraction.TidyRow(es, rowstart[i], rowend[i], i);
    }
  }

  lemma MarksOutside(vlist: seq<int>, n: nat, mark: seq<int>)
    requires Listed(vlist, n, mark)
    ensures forall v | 0 <= v < |mark| && v !in vlist[..n] :: mark[v] == -1
  {
    forall v | 0 <= v < |mark| && mark[v] >= 0 ensures v in vlist[..n] {
      assert vlist[..n][mark[v]] == v;
    }
  }

  // extract_edges, with the room it asks for: the graph is the new quotient but for the shared weights.
  method MoveEdges(g: CommunityGraph, cmap: array<int>, adj: seq<seq<Nbr>>, ghost es: seq<Edge>,
                   nvlist: nat, vlist: array<int>, mark: array<int>, newNv: nat, queueSize: nat)
    requires queueSize > 0 && nvlist <= vlist.Length && g.d != vlist && g.d != cmap && g.d != mark
    requires g.Valid() && Within(g.Edges(), g.nv) && Reflects(g.Diag(), g.Edges(), es, cmap[..])
    requires Marked(cmap[..], mark[..], g.nv, newNv) && g.nv <= newNv && Lists(mark[..], vlist[..nvlist])
    requires |adj| == cmap.Length && AdjacencyOf(adj, es) && mark.Length == cmap.Length
    modifies g, g.d, g.el
    ensures g.Valid() && g.nv == newNv && Within(g.Edges(), newNv)
    ensures ReflectsBut(g.Diag(), g.Edges(), es, cmap[..], mark[..])
    ensures (g.d == old(g.d) || fresh(g.d)) && (g.el == old(g.el) || fresh(g.el))
  {
    ghost var cm, mk, list, nv, d0, ge0 := cmap[..], mark[..], vlist[..nvlist], g.nv, g.Diag(), g.Edges();
    hide *;
    AdjacencyInRange(adj, es);
    RowsFitIntro(adj, cmap.Length);
    ValidFacts(g);
    g.GrowVertices(newNv);
    ghost var d1 := g.Diag();
    DiagPadded(g, d0, newNv - nv);
    var count := CountEdges(nvlist, vlist, cmap, mark, adj, g, nv);
    ValidFacts(g);
    g.GrowEdges(g.ne + count);
    WithinMore(ge0, nv, newNv);
    EnqueueEdges(nvlist, vlist, cmap, mark, adj, g, nv, queueSize);
    PassesReflect(cm, mk, nv, newNv, adj, es, list, d0, ge0, d1, g.d[..], g.Edges());
    DiagIs(g);
    TracksWithin(g.Edges(), ge0 + Queued(cm, mk, adj, list, nvlist), newNv);
  }

  // What update_el does once the marks are set.
  method ApplyMarks(g: CommunityGraph, cmap: array<int>, adj: seq<seq<Nbr>>, ghost es: seq<Edge>,
                    nvlist: nat, vlist: array<int>, mark: array<int>, newNv: nat, queueSize: nat)
    requires queueSize > 0 && nvlist <= vlist.Length && mark.Length == cmap.Length
    requires mark != vlist && mark != cmap && cmap != vlist && g.d != vlist && g.d != cmap && g.d != mark
    requires |adj| == cmap.Length && AdjacencyOf(adj, es)
    requires g.Valid() && Within(g.Edges(), g.nv) && Reflects(g.Diag(), g.Edges(), es, cmap[..])
    requires Marked(cmap[..], mark[..], g.nv, newNv) && g.nv <= newNv && Lists(mark[..], vlist[..nvlist])
    requires forall v | 0 <= v < mark.Length :: mark[v] >= -1
    modifies g, g.d, g.el, cmap, mark
    ensures g.Valid() && g.nv == newNv && cmap[..] == Next(old(cmap[..]), old(mark[..]))
    ensures ReflectsBut(g.Diag(), g.Edges(), es, old(cmap[..]), old(mark[..]))
    ensures Within(g.Edges(), g.nv) && Contraction.Simple(g.Edges())
    ensures forall v | 0 <= v < mark.Length :: mark[v] == -1
    ensures (g.d == old(g.d) || fresh(g.d)) && (g.el == old(g.el) || fresh(g.el))
  {
    hide *;
    ghost var cm, mk := cmap[..], mark[..];
    MoveEdges(g, cmap, adj, es, nvlist, vlist, mark, newNv, queueSize);
    CommitCmapChange(nvlist, vlist, cmap, mark);
    ghost var d2, ge2 := g.Diag(), g.Edges();
    ContractSelf(g);
    ReflectsButSame(d2, ge2, g.Diag(), g.Edges(), es, cm, mk);
  }

  /**
   update_el: the community graph becomes the quotient by the new map exactly when no moved neighbors
   shared a community, where map, sizes and list given to it say who moves; in any case its cells, the
   map and the sizes are as stated.  moved is what the marks said in between.
   */
  method UpdateEl(g: CommunityGraph, cmap: array<int>, csize: array<int>, adj: seq<seq<Nbr>>, ghost es: seq<Edge>,
                  nvlist: nat, vlist: array<int>, mark: array<int>, queueSize: nat) returns (ghost moved: seq<int>)
    requires queueSize > 0 && mark.Length == cmap.Length <= csize.Length && nvlist <= vlist.Length
    requires mark != csize && mark != vlist && mark != cmap && csize != vlist && csize != cmap && cmap != vlist
    requires g.d != vlist && g.d != cmap && g.d != mark && g.d != csize
    requires |adj| == cmap.Length && AdjacencyOf(adj, es)
    requires g.Valid() && Within(g.Edges(), g.nv) && Reflects(g.Diag(), g.Edges(), es, cmap[..])
    requires Sized(csize[..], cmap[..], g.nv) && Listed(vlist[..], nvlist, mark[..])
    modifies g, g.d, g.el, cmap, csize, mark
    ensures Fits(old(cmap[..]), old(csize[..]), vlist[..nvlist]) && Distinct(vlist[..nvlist])
    ensures moved == MarksOf(old(cmap[..]), old(csize[..]), vlist[..nvlist], old(g.nv), nvlist)
    ensures g.Valid() && Marked(old(cmap[..]), moved, old(g.nv), g.nv) && cmap[..] == Next(old(cmap[..]), moved)
    ensures g.nv == old(g.nv) + MoverCount(old(cmap[..]), old(csize[..]), vlist[..nvlist], nvlist)
    ensures forall v | 0 <= v < mark.Length && moved[v] >= 0 :: v in vlist[..nvlist]
    ensures Sized(csize[..], cmap[..], g.nv) && g.nv <= cmap.Length
    ensures Bounded(vlist[..nvlist], cmap.Length) && SizesLeft(old(cmap[..]), vlist[..nvlist], nvlist, old(g.nv), old(csize[..]), csize[..])
    ensures ReflectsBut(g.Diag(), g.Edges(), es, old(cmap[..]), moved)
    ensures Reflects(g.Diag(), g.Edges(), es, cmap[..]) <==>
            NothingShared(old(cmap[..]), MarksOf(old(cmap[..]), old(csize[..]), vlist[..nvlist], old(g.nv), nvlist), es)
    ensures Within(g.Edges(), g.nv) && Contraction.Simple(g.Edges())
    ensures forall v | 0 <= v < mark.Length :: mark[v] == -1
    ensures (g.d == old(g.d) || fresh(g.d)) && (g.el == old(g.el) || fresh(g.el))
  {
    hide *;
    ghost var cm, list, nv, cs0, mk0 := cmap[..], vlist[..nvlist], g.nv, csize[..], mark[..];
    var newNv := ExtractVertices(nvlist, vlist, cmap, mark, g.nv, csize);
    moved := mark[..];
    ghost var cs1 := csize[..];
    ExtractingFacts(cm, list, nvlist, nv, cs0, moved, newNv, cs1);
    MarkedOutside(cm, cs0, list, nv, moved);
    ExtractingDone(cm, list, nv, cs0, moved, newNv, cs1);
    ApplyMarks(g, cmap, adj, es, nvlist, vlist, mark, newNv, queueSize);
    ReflectsExactly(g.Diag(), g.Edges(), es, cm, moved, nv, newNv);
    ListsMoved(moved, list);
  }

  lemma MarkedOutside(cmap: seq<int>, csize: seq<int>, vlist: seq<int>, nv: nat, mark: seq<int>)
    requires Fits(cmap, csize, vlist) && mark == MarksOf(cmap, csize, vlist, nv, |vlist|)
    ensures forall v | 0 <= v < |mark| && v !in vlist :: mark[v] == -1
  {
    hide *;
    assert vlist[..|vlist|] == vlist;
    forall v | 0 <= v < |mark| && v !in vlist ensures mark[v] == -1 { MarkBefore(cmap, csize, vlist, nv, |vlist|, v); }
  }

  lemma ValidFacts(g: CommunityGraph)
    requires g.Valid()
    ensures g.nv <= g.d.Length && g.ne <= g.el.Length && |g.Diag()| == g.nv && |g.Edges()| == g.ne
  {
  }

  lemma DiagIs(g: CommunityGraph)
    requires g.Valid()
    ensures g.nv <= g.d.Length && g.Diag() == g.d[..][..g.nv]
  {
    assert g.d[..][..g.nv] == g.d[..g.nv];
  }

  lemma DiagPadded(g: CommunityGraph, d0: seq<int>, n: nat)
    requires g.Valid() && g.Diag() == d0 + seq(n, _ => 0)
    ensures g.nv <= g.d.Length && g.nv == |d0| + n && forall a | |d0| <= a < g.nv :: g.d[a] == 0
  {
    forall a | |d0| <= a < g.nv ensures g.d[a] == 0 { assert g.Diag()[a] == g.d[a]; }
  }

  lemma RowsFitIntro(adj: seq<seq<Nbr>>, n: nat)
    requires |adj| == n && InRange(adj)
    ensures RowsFit(adj, n)
  {
  }

  lemma WithinMore(es: seq<Edge>, nv: nat, newNv: nat)
    requires Within(es, nv) && nv <= newNv
    ensures Within(es, newNv)
  {
  }

  lemma TracksWithin(ge: seq<Edge>, target: seq<Edge>, nv: nat)
    requires Tracks(ge, target, nv)
    ensures Within(ge, nv)
  {
  }

  lemma ListsMoved(mark: seq<int>, vlist: seq<int>)
    requires Lists(mark, vlist)
    ensures forall v | 0 <= v < |mark| && mark[v] >= 0 :: v in vlist
  {
  }

  lemma ExtractingFacts(cmap: seq<int>, vlist: seq<int>, k: nat, nv: nat, csize0: seq<int>, mark: seq<int>, ncomm: nat, csize: seq<int>)
    requires Extracting(cmap, vlist, k, nv, csize0, mark, ncomm, csize)
    ensures |mark| == |cmap| && nv <= ncomm <= |cmap| && k <= |vlist| && Bounded(vlist, |cmap|) && SizesLeft(cmap, vlist, k, nv, csize0, csize)
    ensures Fits(cmap, csize0, vlist) && Distinct(vlist) && MarkedSoFar(cmap, vlist, k, nv, csize0, mark, ncomm)
    ensures ncomm == nv + MoverCount(cmap, csize0, vlist, k)
  {
  }
}
