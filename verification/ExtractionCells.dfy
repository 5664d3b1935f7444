/**
 What moving vertices out of their communities does to the community graph's cells: the weight
 changes that are queued, summed over the moved vertices' adjacency lists, are the difference of
 the two quotients, up to the weight between moved vertices that shared a community.
 */
module ExtractionCells {
  import opened Weights
  import opened Sizes
  import Buckets

  datatype Nbr = Nbr(to: int, w: int)

  // ---------------------------------------------------------------- adjacency lists

  // What vertex i sees of the edges es; a loop is seen once.
  function Incident(es: seq<Edge>, i: int): seq<Nbr> {
    if es == [] then []
    else
      var e := es[|es| - 1];
      Incident(es[..|es| - 1], i) + if e.i == i then [Nbr(e.j, e.w)] else if e.j == i then [Nbr(e.i, e.w)] else []
  }

  // adj holds the adjacency lists, in any order, of the undirected graph es.
  ghost predicate AdjacencyOf(adj: seq<seq<Nbr>>, es: seq<Edge>) {
    && Within(es, |adj|)
    && forall i | 0 <= i < |adj| :: multiset(adj[i]) == multiset(Incident(es, i))
  }

  // Every neighbor is a vertex.
  predicate InRange(adj: seq<seq<Nbr>>) {
    forall i, k | 0 <= i < |adj| && 0 <= k < |adj[i]| :: 0 <= adj[i][k].to < |adj|
  }

  lemma {:induction false} IncidentInRange(es: seq<Edge>, n: nat, i: int)
    requires Within(es, n)
    ensures forall x | x in Incident(es, i) :: 0 <= x.to < n
  {
    if es != [] {
      assert es[|es| - 1] in es;
      IncidentInRange(es[..|es| - 1], n, i);
    }
  }

  lemma AdjacencyInRange(adj: seq<seq<Nbr>>, es: seq<Edge>)
    requires AdjacencyOf(adj, es)
    ensures InRange(adj)
  {
    forall i, k | 0 <= i < |adj| && 0 <= k < |adj[i]| ensures 0 <= adj[i][k].to < |adj| {
      IncidentInRange(es, |adj|, i);
      assert adj[i][k] in multiset(adj[i]);
      assert adj[i][k] in multiset(Incident(es, i));
    }
  }

  // ---------------------------------------------------------------- the queued changes

  // cmap with every vertex of non-negative mark moved to the community it is marked with.
  function Next(cmap: seq<int>, mark: seq<int>): (r: seq<int>)
    requires |cmap| == |mark|
    ensures |r| == |cmap| && forall v | 0 <= v < |cmap| :: r[v] == if mark[v] >= 0 then mark[v] else cmap[v]
  {
    seq(|cmap|, v requires 0 <= v < |cmap| => if mark[v] >= 0 then mark[v] else cmap[v])
  }

  // Moved vertices get communities of their own, beyond the old ones.
  ghost predicate Marked(cmap: seq<int>, mark: seq<int>, nv: nat, newNv: nat) {
    && |mark| == |cmap| && Bounded(cmap, nv) && nv <= newNv
    && (forall v | 0 <= v < |mark| && mark[v] >= 0 :: nv <= mark[v] < newNv)
    && (forall u, v | 0 <= u < v < |mark| && mark[u] >= 0 :: mark[u] != mark[v])
  }

  // The edges enqueued for the entry nb of the moved vertex i.
  function EntryQueued(cmap: seq<int>, mark: seq<int>, i: int, nb: Nbr): seq<Edge>
    requires |cmap| == |mark| && 0 <= i < |cmap| && 0 <= nb.to < |cmap|
  {
    var ci, mi, cj, mj := cmap[i], mark[i], cmap[nb.to], mark[nb.to];
    (if ci != cj && (mj < 0 || ci < cj) then [Edge(ci, cj, -nb.w)] else []) +
    (if mj < 0 then [Edge(mi, cj, nb.w)] else if mi < mj then [Edge(mi, mj, nb.w)] else [])
  }

  // How many edges the first pass counts for it.
  function EntryCount(cmap: seq<int>, mark: seq<int>, i: int, nb: Nbr): nat
    requires |cmap| == |mark| && 0 <= i < |cmap| && 0 <= nb.to < |cmap|
  {
    var ci, mi, cj, mj := cmap[i], mark[i], cmap[nb.to], mark[nb.to];
    (if ci != cj && (mj < 0 || ci < cj) then 1 else 0) +
    (if mi == mj then 0 else if mj < 0 then 1 else if mi < mj then 1 else 0)
  }

  function RowQueued(cmap: seq<int>, mark: seq<int>, i: int, row: seq<Nbr>): (r: seq<Edge>)
    requires |cmap| == |mark| && 0 <= i < |cmap| && forall k | 0 <= k < |row| :: 0 <= row[k].to < |cmap|
  {
    if row == [] then [] else RowQueued(cmap, mark, i, row[..|row| - 1]) + EntryQueued(cmap, mark, i, row[|row| - 1])
  }

  function RowCount(cmap: seq<int>, mark: seq<int>, i: int, row: seq<Nbr>): nat
    requires |cmap| == |mark| && 0 <= i < |cmap| && forall k | 0 <= k < |row| :: 0 <= row[k].to < |cmap|
  {
    if row == [] then 0 else RowCount(cmap, mark, i, row[..|row| - 1]) + EntryCount(cmap, mark, i, row[|row| - 1])
  }

  // The weight of i's entries inside its old community, and of its loops.
  function InternalOld(cmap: seq<int>, i: int, row: seq<Nbr>): int
    requires 0 <= i < |cmap| && forall k | 0 <= k < |row| :: 0 <= row[k].to < |cmap|
  {
    if row == [] then 0
    else InternalOld(cmap, i, row[..|row| - 1]) + if cmap[row[|row| - 1].to] == cmap[i] then row[|row| - 1].w else 0
  }

  function InternalNew(mark: seq<int>, i: int, row: seq<Nbr>): int
    requires 0 <= i < |mark| && forall k | 0 <= k < |row| :: 0 <= row[k].to < |mark|
  {
    if row == [] then 0
    else InternalNew(mark, i, row[..|row| - 1]) + if mark[row[|row| - 1].to] == mark[i] then row[|row| - 1].w else 0
  }

  predicate RowsFit(adj: seq<seq<Nbr>>, n: nat) {
    |adj| == n && InRange(adj)
  }

  // All that is enqueued for the first k vertices of the list.
  function Queued(cmap: seq<int>, mark: seq<int>, adj: seq<seq<Nbr>>, vlist: seq<int>, k: nat): seq<Edge>
    requires |cmap| == |mark| && RowsFit(adj, |cmap|) && k <= |vlist| && Bounded(vlist, |cmap|)
  {
    if k == 0 then []
    else
      var i := vlist[k - 1];
      Queued(cmap, mark, adj, vlist, k - 1) + if mark[i] >= 0 then RowQueued(cmap, mark, i, adj[i]) else []
  }

  function Count(cmap: seq<int>, mark: seq<int>, adj: seq<seq<Nbr>>, vlist: seq<int>, k: nat): nat
    requires |cmap| == |mark| && RowsFit(adj, |cmap|) && k <= |vlist| && Bounded(vlist, |cmap|)
  {
    if k == 0 then 0
    else
      var i := vlist[k - 1];
      Count(cmap, mark, adj, vlist, k - 1) + if mark[i] >= 0 then RowCount(cmap, mark, i, adj[i]) else 0
  }

  // The loops that stand for the first pass's changes of the diagonal.
  function Looped(cmap: seq<int>, mark: seq<int>, adj: seq<seq<Nbr>>, vlist: seq<int>, k: nat): seq<Edge>
    requires |cmap| == |mark| && RowsFit(adj, |cmap|) && k <= |vlist| && Bounded(vlist, |cmap|)
  {
    if k == 0 then []
    else
      var i := vlist[k - 1];
      Looped(cmap, mark, adj, vlist, k - 1) +
      if mark[i] >= 0 then [Edge(cmap[i], cmap[i], -InternalOld(cmap, i, adj[i])), Edge(mark[i], mark[i], InternalNew(mark, i, adj[i]))]
      else []
  }

  // ---------------------------------------------------------------- the first pass counts enough

  lemma {:induction false} RowCountExact(cmap: seq<int>, mark: seq<int>, i: int, row: seq<Nbr>)
    requires |cmap| == |mark| && 0 <= i < |cmap| && mark[i] >= 0 && forall k | 0 <= k < |row| :: 0 <= row[k].to < |cmap|
    ensures |RowQueued(cmap, mark, i, row)| == RowCount(cmap, mark, i, row)
  {
    if row != [] { RowCountExact(cmap, mark, i, row[..|row| - 1]); }
  }

  /** The first pass counts exactly the edges that the second enqueues. */
  lemma {:induction false} CountExact(cmap: seq<int>, mark: seq<int>, adj: seq<seq<Nbr>>, vlist: seq<int>, k: nat)
    requires |cmap| == |mark| && RowsFit(adj, |cmap|) && k <= |vlist| && Bounded(vlist, |cmap|)
    ensures |Queued(cmap, mark, adj, vlist, k)| == Count(cmap, mark, adj, vlist, k)
  {
    if k > 0 {
      CountExact(cmap, mark, adj, vlist, k - 1);
      var i := vlist[k - 1];
      if mark[i] >= 0 { RowCountExact(cmap, mark, i, adj[i]); }
    }
  }

  lemma {:induction false} CountGrows(cmap: seq<int>, mark: seq<int>, adj: seq<seq<Nbr>>, vlist: seq<int>, k: nat, l: nat)
    requires |cmap| == |mark| && RowsFit(adj, |cmap|) && k <= l <= |vlist| && Bounded(vlist, |cmap|)
    ensures |Queued(cmap, mark, adj, vlist, k)| <= |Queued(cmap, mark, adj, vlist, l)|
  {
    if k < l { CountGrows(cmap, mark, adj, vlist, k, l - 1); }
  }

  // ---------------------------------------------------------------- gains

  // What the entry nb of the moved vertex i adds to the cell (a, b).
  function Gain(cmap: seq<int>, mark: seq<int>, i: int, nb: Nbr, a: int, b: int): int
    requires |cmap| == |mark| && 0 <= i < |cmap| && 0 <= nb.to < |cmap|
  {
    var ci, mi, cj, mj := cmap[i], mark[i], cmap[nb.to], mark[nb.to];
    (if (ci == cj || mj < 0 || ci < cj) && Joins(ci, cj, a, b) then -nb.w else 0) +
    (if mj < 0 then (if Joins(mi, cj, a, b) then nb.w else 0)
     else if mi <= mj then (if Joins(mi, mj, a, b) then nb.w else 0) else 0)
  }

  function RowGain(cmap: seq<int>, mark: seq<int>, i: int, row: seq<Nbr>, a: int, b: int): int
    requires |cmap| == |mark| && 0 <= i < |cmap| && forall k | 0 <= k < |row| :: 0 <= row[k].to < |cmap|
  {
    if row == [] then 0 else RowGain(cmap, mark, i, row[..|row| - 1], a, b) + Gain(cmap, mark, i, row[|row| - 1], a, b)
  }

  lemma {:induction false} RowGainCell(cmap: seq<int>, mark: seq<int>, i: int, row: seq<Nbr>, a: int, b: int)
    requires |cmap| == |mark| && 0 <= i < |cmap| && mark[i] >= 0 && forall k | 0 <= k < |row| :: 0 <= row[k].to < |cmap|
    ensures RowGain(cmap, mark, i, row, a, b) ==
            Cell(RowQueued(cmap, mark, i, row), a, b)
            - (if Joins(cmap[i], cmap[i], a, b) then InternalOld(cmap, i, row) else 0)
            + (if Joins(mark[i], mark[i], a, b) then InternalNew(mark, i, row) else 0)
  {
    if row != [] {
      var n := |row| - 1;
      RowGainCell(cmap, mark, i, row[..n], a, b);
      EntryCell(cmap, mark, i, row[n], a, b);
      CellConcat(RowQueued(cmap, mark, i, row[..n]), EntryQueued(cmap, mark, i, row[n]), a, b);
      hide EntryQueued, Cell, Gain;
    }
  }

  lemma EntryCell(cmap: seq<int>, mark: seq<int>, i: int, nb: Nbr, a: int, b: int)
    requires |cmap| == |mark| && 0 <= i < |cmap| && 0 <= nb.to < |cmap| && mark[i] >= 0
    ensures Gain(cmap, mark, i, nb, a, b) ==
            Cell(EntryQueued(cmap, mark, i, nb), a, b)
            - (if Joins(cmap[i], cmap[i], a, b) && cmap[nb.to] == cmap[i] then nb.w else 0)
            + (if Joins(mark[i], mark[i], a, b) && mark[nb.to] == mark[i] then nb.w else 0)
  {
    var ci, mi, cj, mj := cmap[i], mark[i], cmap[nb.to], mark[nb.to];
    var olds := if ci != cj && (mj < 0 || ci < cj) then [Edge(ci, cj, -nb.w)] else [];
    var news := if mj < 0 then [Edge(mi, cj, nb.w)] else if mi < mj then [Edge(mi, mj, nb.w)] else [];
    CellConcat(olds, news, a, b);
    assert forall e: Edge :: [e] != [] && [e][1..] == [];
  }

  // The gains of the first k vertices of the list, with the adjacency lists rows.
  function ListGain(cmap: seq<int>, mark: seq<int>, rows: seq<seq<Nbr>>, vlist: seq<int>, k: nat, a: int, b: int): int
    requires |cmap| == |mark| && RowsFit(rows, |cmap|) && k <= |vlist| && Bounded(vlist, |cmap|)
  {
    if k == 0 then 0
    else
      var i := vlist[k - 1];
      ListGain(cmap, mark, rows, vlist, k - 1, a, b) + if mark[i] >= 0 then RowGain(cmap, mark, i, rows[i], a, b) else 0
  }

  lemma LoopedCell(l: seq<Edge>, old1: Edge, new1: Edge, a: int, b: int)
    ensures Cell(l + [old1, new1], a, b) ==
            Cell(l, a, b) + (if Joins(old1.i, old1.j, a, b) then old1.w else 0) + (if Joins(new1.i, new1.j, a, b) then new1.w else 0)
  {
    assert l + [old1, new1] == l + [old1] + [new1];
    CellAppend(l + [old1], new1, a, b);
    CellAppend(l, old1, a, b);
  }

  lemma QueuedCellNext(cmap: seq<int>, mark: seq<int>, adj: seq<seq<Nbr>>, vlist: seq<int>, k: nat, a: int, b: int)
    requires |cmap| == |mark| && RowsFit(adj, |cmap|) && k < |vlist| && Bounded(vlist, |cmap|) && mark[vlist[k]] >= 0
    ensures forall r | 0 <= r < |adj[vlist[k]]| :: 0 <= adj[vlist[k]][r].to < |cmap|
    ensures Cell(Queued(cmap, mark, adj, vlist, k + 1), a, b) ==
            Cell(Queued(cmap, mark, adj, vlist, k), a, b) + Cell(RowQueued(cmap, mark, vlist[k], adj[vlist[k]]), a, b)
  {
    var i := vlist[k];
    assert InRange(adj) && 0 <= i < |adj|;
    assert Queued(cmap, mark, adj, vlist, k + 1) == Queued(cmap, mark, adj, vlist, k) + RowQueued(cmap, mark, i, adj[i]);
    hide Cell, RowQueued, Queued;
    CellConcat(Queued(cmap, mark, adj, vlist, k), RowQueued(cmap, mark, i, adj[i]), a, b);
  }

  lemma LoopedCellNext(cmap: seq<int>, mark: seq<int>, adj: seq<seq<Nbr>>, vlist: seq<int>, k: nat, a: int, b: int)
    requires |cmap| == |mark| && RowsFit(adj, |cmap|) && k < |vlist| && Bounded(vlist, |cmap|) && mark[vlist[k]] >= 0
    ensures forall r | 0 <= r < |adj[vlist[k]]| :: 0 <= adj[vlist[k]][r].to < |cmap|
    ensures var i := vlist[k];
      Cell(Looped(cmap, mark, adj, vlist, k + 1), a, b) == Cell(Looped(cmap, mark, adj, vlist, k), a, b)
        - (if Joins(cmap[i], cmap[i], a, b) then InternalOld(cmap, i, adj[i]) else 0)
        + (if Joins(mark[i], mark[i], a, b) then InternalNew(mark, i, adj[i]) else 0)
  {
    var i := vlist[k];
    assert InRange(adj) && 0 <= i < |adj|;
    var old1, new1 := Edge(cmap[i], cmap[i], -InternalOld(cmap, i, adj[i])), Edge(mark[i], mark[i], InternalNew(mark, i, adj[i]));
    assert Looped(cmap, mark, adj, vlist, k + 1) == Looped(cmap, mark, adj, vlist, k) + [old1, new1];
    hide Cell, Looped, InternalOld, InternalNew, Joins;
    LoopedCell(Looped(cmap, mark, adj, vlist, k), old1, new1, a, b);
  }

  lemma ListGainNext(cmap: seq<int>, mark: seq<int>, rows: seq<seq<Nbr>>, vlist: seq<int>, k: nat, a: int, b: int)
    requires |cmap| == |mark| && RowsFit(rows, |cmap|) && k < |vlist| && Bounded(vlist, |cmap|)
    ensures 0 <= vlist[k] < |cmap| == |rows| && forall r | 0 <= r < |rows[vlist[k]]| :: 0 <= rows[vlist[k]][r].to < |cmap|
    ensures ListGain(cmap, mark, rows, vlist, k + 1, a, b) ==
            ListGain(cmap, mark, rows, vlist, k, a, b) + if mark[vlist[k]] >= 0 then RowGain(cmap, mark, vlist[k], rows[vlist[k]], a, b) else 0
  {
    assert InRange(rows);
    hide RowGain;
  }

  lemma NothingNext(cmap: seq<int>, mark: seq<int>, adj: seq<seq<Nbr>>, vlist: seq<int>, k: nat)
    requires |cmap| == |mark| && RowsFit(adj, |cmap|) && k < |vlist| && Bounded(vlist, |cmap|) && mark[vlist[k]] < 0
    ensures Queued(cmap, mark, adj, vlist, k + 1) == Queued(cmap, mark, adj, vlist, k)
    ensures Looped(cmap, mark, adj, vlist, k + 1) == Looped(cmap, mark, adj, vlist, k)
  {
  }

  // One vertex's part of the three lists.
  lemma ListGainStep(cmap: seq<int>, mark: seq<int>, adj: seq<seq<Nbr>>, vlist: seq<int>, k: nat, a: int, b: int)
    requires |cmap| == |mark| && RowsFit(adj, |cmap|) && k < |vlist| && Bounded(vlist, |cmap|)
    ensures ListGain(cmap, mark, adj, vlist, k + 1, a, b) - ListGain(cmap, mark, adj, vlist, k, a, b) ==
            Cell(Queued(cmap, mark, adj, vlist, k + 1), a, b) - Cell(Queued(cmap, mark, adj, vlist, k), a, b)
            + Cell(Looped(cmap, mark, adj, vlist, k + 1), a, b) - Cell(Looped(cmap, mark, adj, vlist, k), a, b)
  {
    hide *;
    ListGainNext(cmap, mark, adj, vlist, k, a, b);
    if mark[vlist[k]] >= 0 {
      RowGainCell(cmap, mark, vlist[k], adj[vlist[k]], a, b);
      QueuedCellNext(cmap, mark, adj, vlist, k, a, b);
      LoopedCellNext(cmap, mark, adj, vlist, k, a, b);
    } else {
      NothingNext(cmap, mark, adj, vlist, k);
    }
  }

  lemma {:induction false} ListGainCell(cmap: seq<int>, mark: seq<int>, adj: seq<seq<Nbr>>, vlist: seq<int>, k: nat, a: int, b: int)
    requires |cmap| == |mark| && RowsFit(adj, |cmap|) && k <= |vlist| && Bounded(vlist, |cmap|)
    ensures ListGain(cmap, mark, adj, vlist, k, a, b) ==
            Cell(Queued(cmap, mark, adj, vlist, k), a, b) + Cell(Looped(cmap, mark, adj, vlist, k), a, b)
  {
    if k > 0 {
      ListGainCell(cmap, mark, adj, vlist, k - 1, a, b);
      ListGainStep(cmap, mark, adj, vlist, k - 1, a, b);
    }
  }

  // ---------------------------------------------------------------- the order of a list does not matter

  lemma {:induction false} RowGainRemove(cmap: seq<int>, mark: seq<int>, i: int, row: seq<Nbr>, k: nat, a: int, b: int)
    requires |cmap| == |mark| && 0 <= i < |cmap| && forall k | 0 <= k < |row| :: 0 <= row[k].to < |cmap|
    requires k < |row|
    ensures RowGain(cmap, mark, i, row, a, b) ==
            RowGain(cmap, mark, i, row[..k] + row[k + 1..], a, b) + Gain(cmap, mark, i, row[k], a, b)
  {
    var n := |row| - 1;
    var rest := row[..k] + row[k + 1..];
    if k < n {
      RowGainRemove(cmap, mark, i, row[..n], k, a, b);
      assert rest[..n - 1] == row[..n][..k] + row[..n][k + 1..];
      assert rest[n - 1] == row[n];
    } else {
      assert rest == row[..n];
    }
  }

  lemma {:induction false} RowGainMultiset(cmap: seq<int>, mark: seq<int>, i: int, row: seq<Nbr>, row': seq<Nbr>, a: int, b: int)
    requires |cmap| == |mark| && 0 <= i < |cmap| && multiset(row) == multiset(row')
    requires forall k | 0 <= k < |row| :: 0 <= row[k].to < |cmap|
    requires forall k | 0 <= k < |row'| :: 0 <= row'[k].to < |cmap|
    ensures RowGain(cmap, mark, i, row, a, b) == RowGain(cmap, mark, i, row', a, b)
    decreases |row|
  {
    if row == [] {
      assert |multiset(row')| == 0;
    } else {
      var n := |row| - 1;
      assert row[n] in multiset(row');
      var k :| 0 <= k < |row'| && row'[k] == row[n];
      var rest := row'[..k] + row'[k + 1..];
      Buckets.RestSame(row, row', k);
      hide Gain;
      RowGainRemove(cmap, mark, i, row', k, a, b);
      RowGainMultiset(cmap, mark, i, row[..n], rest, a, b);
    }
  }

  function Incidence(es: seq<Edge>, n: nat): (r: seq<seq<Nbr>>)
    requires Within(es, n)
    ensures |r| == n && InRange(r) && forall i | 0 <= i < n :: r[i] == Incident(es, i)
  {
    var r := seq(n, i requires 0 <= i < n => Incident(es, i));
    assert InRange(r) by {
      forall i, k | 0 <= i < n && 0 <= k < |r[i]| ensures 0 <= r[i][k].to < n { IncidentInRange(es, n, i); }
    }
    r
  }

  lemma {:induction false} ListGainIncidence(cmap: seq<int>, mark: seq<int>, adj: seq<seq<Nbr>>, es: seq<Edge>, vlist: seq<int>, k: nat, a: int, b: int)
    requires |cmap| == |mark| == |adj| && AdjacencyOf(adj, es) && InRange(adj) && k <= |vlist| && Bounded(vlist, |cmap|)
    ensures ListGain(cmap, mark, adj, vlist, k, a, b) == ListGain(cmap, mark, Incidence(es, |adj|), vlist, k, a, b)
  {
    if k > 0 {
      ListGainIncidence(cmap, mark, adj, es, vlist, k - 1, a, b);
      var i := vlist[k - 1];
      RowGainMultiset(cmap, mark, i, adj[i], Incidence(es, |adj|)[i], a, b);
    }
  }

  // ---------------------------------------------------------------- edge by edge

  // What the edge e adds to the cell (a, b): once for each end that moves.
  function EdgeGain(cmap: seq<int>, mark: seq<int>, e: Edge, a: int, b: int): int
    requires |cmap| == |mark| && 0 <= e.i < |cmap| && 0 <= e.j < |cmap|
  {
    (if mark[e.i] >= 0 then Gain(cmap, mark, e.i, Nbr(e.j, e.w), a, b) else 0) +
    (if e.j != e.i && mark[e.j] >= 0 then Gain(cmap, mark, e.j, Nbr(e.i, e.w), a, b) else 0)
  }

  function EdgesGain(cmap: seq<int>, mark: seq<int>, es: seq<Edge>, a: int, b: int): int
    requires |cmap| == |mark| && Within(es, |cmap|)
  {
    if es == [] then 0
    else assert es[|es| - 1] in es; EdgesGain(cmap, mark, es[..|es| - 1], a, b) + EdgeGain(cmap, mark, es[|es| - 1], a, b)
  }

  // One more edge, seen from the first k vertices of the list.
  lemma {:induction false} ListGainEdge(cmap: seq<int>, mark: seq<int>, es: seq<Edge>, vlist: seq<int>, k: nat, a: int, b: int)
    requires |cmap| == |mark| && Within(es, |cmap|) && es != [] && k <= |vlist| && Bounded(vlist, |cmap|)
    requires forall p, q | 0 <= p < q < |vlist| :: vlist[p] != vlist[q]
    ensures es[|es| - 1] in es
    ensures var e := es[|es| - 1];
      && ListGain(cmap, mark, Incidence(es, |cmap|), vlist, k, a, b) ==
         ListGain(cmap, mark, Incidence(es[..|es| - 1], |cmap|), vlist, k, a, b)
         + (if e.i in vlist[..k] && mark[e.i] >= 0 then Gain(cmap, mark, e.i, Nbr(e.j, e.w), a, b) else 0)
         + (if e.j != e.i && e.j in vlist[..k] && mark[e.j] >= 0 then Gain(cmap, mark, e.j, Nbr(e.i, e.w), a, b) else 0)
  {
    var e := es[|es| - 1];
    assert e in es;
    if k > 0 {
      ListGainEdge(cmap, mark, es, vlist, k - 1, a, b);
      var i := vlist[k - 1];
      assert vlist[..k] == vlist[..k - 1] + [i];
      assert i !in vlist[..k - 1];
      var row := Incident(es[..|es| - 1], i);
      assert Incidence(es, |cmap|)[i] == Incident(es, i);
      assert e.i == i ==> Incident(es, i) == row + [Nbr(e.j, e.w)] && Incident(es, i)[..|row|] == row;
      assert e.i != i && e.j == i ==> Incident(es, i) == row + [Nbr(e.i, e.w)] && Incident(es, i)[..|row|] == row;
      assert e.i != i && e.j != i ==> Incident(es, i) == row;
      hide Gain;
    }
  }

  lemma {:induction false} ListGainNothing(cmap: seq<int>, mark: seq<int>, vlist: seq<int>, k: nat, a: int, b: int)
    requires |cmap| == |mark| && k <= |vlist| && Bounded(vlist, |cmap|)
    ensures ListGain(cmap, mark, Incidence([], |cmap|), vlist, k, a, b) == 0
  {
    if k > 0 { ListGainNothing(cmap, mark, vlist, k - 1, a, b); }
  }

  // The list holds every moved vertex, once.
  ghost predicate Lists(mark: seq<int>, vlist: seq<int>) {
    && Bounded(vlist, |mark|)
    && (forall p, q | 0 <= p < q < |vlist| :: vlist[p] != vlist[q])
    && (forall v | 0 <= v < |mark| && mark[v] >= 0 :: v in vlist)
  }

  lemma {:induction false} ListGainEdges(cmap: seq<int>, mark: seq<int>, es: seq<Edge>, vlist: seq<int>, a: int, b: int)
    requires |cmap| == |mark| && Within(es, |cmap|) && Lists(mark, vlist)
    ensures ListGain(cmap, mark, Incidence(es, |cmap|), vlist, |vlist|, a, b) == EdgesGain(cmap, mark, es, a, b)
    decreases |es|
  {
    if es == [] {
      ListGainNothing(cmap, mark, vlist, |vlist|, a, b);
    } else {
      var n := |es| - 1;
      ListGainEdge(cmap, mark, es, vlist, |vlist|, a, b);
      ListGainEdges(cmap, mark, es[..n], vlist, a, b);
      assert vlist[..|vlist|] == vlist;
      hide ListGain, Gain;
    }
  }

  // ---------------------------------------------------------------- the difference of the quotients

  // Both ends of e move out of the same community.
  predicate Shared(cmap: seq<int>, mark: seq<int>, e: Edge)
    requires |cmap| == |mark| && 0 <= e.i < |cmap| && 0 <= e.j < |cmap|
  {
    e.i != e.j && mark[e.i] >= 0 && mark[e.j] >= 0 && cmap[e.i] == cmap[e.j]
  }

  // The weight of the edges whose ends both move out of community a.
  function SharedWeight(cmap: seq<int>, mark: seq<int>, es: seq<Edge>, a: int): int
    requires |cmap| == |mark| && Within(es, |cmap|)
  {
    if es == [] then 0
    else
      var e := es[|es| - 1];
      assert e in es;
      SharedWeight(cmap, mark, es[..|es| - 1], a) + if Shared(cmap, mark, e) && cmap[e.i] == a then e.w else 0
  }

  lemma EdgeGainCell(cmap: seq<int>, mark: seq<int>, nv: nat, newNv: nat, e: Edge, a: int, b: int)
    requires Marked(cmap, mark, nv, newNv) && 0 <= e.i < |cmap| && 0 <= e.j < |cmap|
    ensures EdgeGain(cmap, mark, e, a, b) ==
            (if Joins(Next(cmap, mark)[e.i], Next(cmap, mark)[e.j], a, b) then e.w else 0)
            - (if Joins(cmap[e.i], cmap[e.j], a, b) then e.w else 0)
            - (if Shared(cmap, mark, e) && cmap[e.i] == a && a == b then e.w else 0)
  {
  }

  lemma RelabelSplit(es: seq<Edge>, e: Edge, m: seq<int>)
    requires Within(es, |m|) && Within([e], |m|) && 0 <= e.i < |m| && 0 <= e.j < |m|
    ensures Within(es + [e], |m|)
    ensures Relabel(es + [e], m) == Relabel(es, m) + [Edge(m[e.i], m[e.j], e.w)]
  {
    RelabelConcat(es, [e], m);
    hide *;
    assert Relabel([e], m) == [Edge(m[e.i], m[e.j], e.w)];
  }

  lemma WithinPrefix(es: seq<Edge>, k: nat, n: nat)
    requires Within(es, n) && k <= |es|
    ensures Within(es[..k], n)
  {
    forall e | e in es[..k] ensures 0 <= e.i < n && 0 <= e.j < n {
      var p :| 0 <= p < k && es[..k][p] == e;
      assert es[p] in es;
    }
  }

  lemma WithinOne(es: seq<Edge>, k: nat, n: nat)
    requires Within(es, n) && k < |es|
    ensures es[k] in es && 0 <= es[k].i < n && 0 <= es[k].j < n && Within([es[k]], n)
  {
    assert es[k] in es;
  }

  lemma RelabelLast(es: seq<Edge>, m: seq<int>, a: int, b: int)
    requires Within(es, |m|) && es != []
    ensures var n := |es| - 1;
      && es[n] in es && Within(es[..n], |m|)
      && Cell(Relabel(es, m), a, b) == Cell(Relabel(es[..n], m), a, b) + if Joins(m[es[n].i], m[es[n].j], a, b) then es[n].w else 0
  {
    var n := |es| - 1;
    var e := es[n];
    WithinPrefix(es, n, |m|);
    WithinOne(es, n, |m|);
    RelabelSplit(es[..n], e, m);
    hide *;
    assert es == es[..n] + [e];
    CellAppend(Relabel(es[..|es| - 1], m), Edge(m[e.i], m[e.j], e.w), a, b);
  }

  lemma {:induction false} EdgesGainCell(cmap: seq<int>, mark: seq<int>, nv: nat, newNv: nat, es: seq<Edge>, a: int, b: int)
    requires Marked(cmap, mark, nv, newNv) && Within(es, |cmap|)
    ensures EdgesGain(cmap, mark, es, a, b) ==
            Cell(Relabel(es, Next(cmap, mark)), a, b) - Cell(Relabel(es, cmap), a, b)
            - (if a == b then SharedWeight(cmap, mark, es, a) else 0)
  {
    if es != [] {
      var n := |es| - 1;
      var e := es[n];
      assert e in es;
      var next := Next(cmap, mark);
      EdgesGainCell(cmap, mark, nv, newNv, es[..n], a, b);
      EdgeGainCell(cmap, mark, nv, newNv, e, a, b);
      RelabelLast(es, next, a, b);
      RelabelLast(es, cmap, a, b);
      hide Cell, EdgeGain, Shared, Marked, Relabel, Joins;
    }
  }

  /**
   All that both passes add to a cell: the new quotient less the old one, less what moved
   neighbors that shared a community take from its diagonal a second time.
   */
  lemma ChangesCell(cmap: seq<int>, mark: seq<int>, nv: nat, newNv: nat, adj: seq<seq<Nbr>>, es: seq<Edge>, vlist: seq<int>, a: int, b: int)
    requires Marked(cmap, mark, nv, newNv) && Lists(mark, vlist) && |adj| == |cmap| && AdjacencyOf(adj, es) && InRange(adj)
    ensures Cell(Queued(cmap, mark, adj, vlist, |vlist|), a, b) + Cell(Looped(cmap, mark, adj, vlist, |vlist|), a, b) ==
            Cell(Relabel(es, Next(cmap, mark)), a, b) - Cell(Relabel(es, cmap), a, b)
            - (if a == b then SharedWeight(cmap, mark, es, a) else 0)
  {
    ListGainCell(cmap, mark, adj, vlist, |vlist|, a, b);
    ListGainIncidence(cmap, mark, adj, es, vlist, |vlist|, a, b);
    ListGainEdges(cmap, mark, es, vlist, a, b);
    EdgesGainCell(cmap, mark, nv, newNv, es, a, b);
  }

  // No community loses weight twice.
  ghost predicate NothingShared(cmap: seq<int>, mark: seq<int>, es: seq<Edge>)
    requires |cmap| == |mark| && Within(es, |cmap|)
  {
    forall a :: SharedWeight(cmap, mark, es, a) == 0
  }

  lemma {:induction false} SharedAt(cmap: seq<int>, mark: seq<int>, es: seq<Edge>, k: nat)
    requires |cmap| == |mark| && Within(es, |cmap|) && k < |es| && forall e | e in es :: e.w > 0
    ensures es[k] in es && (Shared(cmap, mark, es[k]) ==> SharedWeight(cmap, mark, es, cmap[es[k].i]) > 0)
    ensures forall a :: SharedWeight(cmap, mark, es, a) >= 0
  {
    var n := |es| - 1;
    assert es[k] in es && es[n] in es;
    if n > 0 { SharedAt(cmap, mark, es[..n], if k < n then k else 0); }
  }

  lemma {:induction false} SharedNone(cmap: seq<int>, mark: seq<int>, es: seq<Edge>, a: int)
    requires |cmap| == |mark| && Within(es, |cmap|) && forall e | e in es :: !Shared(cmap, mark, e)
    ensures SharedWeight(cmap, mark, es, a) == 0
  {
    if es != [] { SharedNone(cmap, mark, es[..|es| - 1], a); }
  }

  /** With positive weights the shared weights vanish exactly when no moved neighbors shared a community. */
  lemma SharedPositive(cmap: seq<int>, mark: seq<int>, es: seq<Edge>)
    requires |cmap| == |mark| && Within(es, |cmap|) && forall e | e in es :: e.w > 0
    ensures NothingShared(cmap, mark, es) <==> forall e | e in es :: !Shared(cmap, mark, e)
  {
    if forall e | e in es :: !Shared(cmap, mark, e) {
      forall a ensures SharedWeight(cmap, mark, es, a) == 0 { SharedNone(cmap, mark, es, a); }
    } else {
      var e :| e in es && Shared(cmap, mark, e);
      var k :| 0 <= k < |es| && es[k] == e;
      SharedAt(cmap, mark, es, k);
      assert SharedWeight(cmap, mark, es, cmap[es[k].i]) != 0;
    }
  }
}
