/**
 The community graph as it is updated in place, and the queue through which edge weight changes
 reach its edge list.
 */
module InsQueue {
  import opened Weights

  lemma SameAppend(es: seq<Edge>, fs: seq<Edge>, e: Edge)
    requires SameGraph(es, fs)
    ensures SameGraph(es + [e], fs + [e])
  {
    forall a, b ensures Cell(es + [e], a, b) == Cell(fs + [e], a, b) {
      CellAppend(es, e, a, b);
      CellAppend(fs, e, a, b);
    }
  }

  // Adding to the weight of the last edge is the same as appending.
  lemma SameMerge(es: seq<Edge>, e: Edge)
    requires es != [] && es[|es| - 1].i == e.i && es[|es| - 1].j == e.j
    ensures var n := |es| - 1; SameGraph(es[..n] + [Edge(e.i, e.j, es[n].w + e.w)], es + [e])
  {
    var n := |es| - 1;
    forall a, b ensures Cell(es[..n] + [Edge(e.i, e.j, es[n].w + e.w)], a, b) == Cell(es + [e], a, b) {
      assert es == es[..n] + [es[n]];
      CellAppend(es[..n], es[n], a, b);
      CellAppend(es[..n], Edge(e.i, e.j, es[n].w + e.w), a, b);
      CellAppend(es, e, a, b);
    }
  }

  lemma SameReflexive(es: seq<Edge>)
    ensures SameGraph(es, es)
  {
  }

  lemma SameTransitive(es: seq<Edge>, fs: seq<Edge>, gs: seq<Edge>)
    requires SameGraph(es, fs) && SameGraph(fs, gs)
    ensures SameGraph(es, gs)
  {
  }

  // struct el: vertices 0..nv with diagonal d, and edges el[..ne] with room for more.
  class CommunityGraph {
    var nv: nat
    var ne: nat
    var d: array<int>
    var el: array<Edge>

    constructor (nv: nat, d: array<int>, ne: nat, el: array<Edge>)
      requires nv <= d.Length && ne <= el.Length
      ensures Valid() && this.nv == nv && this.ne == ne && this.d == d && this.el == el
    {
      this.nv, this.d, this.ne, this.el := nv, d, ne, el;
    }

    ghost predicate Valid()
      reads this
    {
      nv <= d.Length && ne <= el.Length
    }

    ghost function Edges(): seq<Edge>
      requires Valid()
      reads this, el
    {
      el[..ne]
    }

    ghost function Diag(): seq<int>
      requires Valid()
      reads this, d
    {
      d[..nv]
    }

    /** realloc_graph, its first half: more vertices, with nothing on their diagonal. */
    method GrowVertices(newNv: nat)
      requires Valid() && nv <= newNv
      modifies this, d
      ensures Valid() && nv == newNv && ne == old(ne) && el == old(el)
      ensures d == old(d) || fresh(d)
      ensures Diag() == old(Diag()) + seq(newNv - old(nv), _ => 0)
    {
      var d' := d;
      if newNv > d.Length {
        d' := new int[newNv];
        var k := 0;
        while k < nv
          invariant 0 <= k <= nv && d[..] == old(d[..]) && d == old(d) && nv == old(nv) && ne == old(ne) && el == old(el)
          invariant forall a | 0 <= a < k :: d'[a] == d[a]
        {
          d'[k] := d[k];
          k := k + 1;
        }
      }
      var k := nv;
      while k < newNv
        invariant nv <= k <= newNv && d == old(d) && nv == old(nv) && ne == old(ne) && el == old(el)
        invariant forall a | 0 <= a < nv :: d'[a] == old(d[a])
        invariant forall a | nv <= a < k :: d'[a] == 0
      {
        d'[k] := 0;
        k := k + 1;
      }
      d := d';
      nv := newNv;
    }

    /** realloc_graph, its second half: room for more edges. */
    method GrowEdges(room: nat)
      requires Valid()
      modifies this
      ensures Valid() && nv == old(nv) && d == old(d) && ne == old(ne) && room <= el.Length
      ensures el == old(el) || fresh(el)
      ensures Edges() == old(Edges())
    {
      if room > el.Length {
        var el' := new Edge[room];
        var k := 0;
        while k < ne
          invariant 0 <= k <= ne && el == old(el) && el[..] == old(el[..]) && ne == old(ne) && nv == old(nv) && d == old(d)
          invariant forall a | 0 <= a < k :: el'[a] == el[a]
        {
          el'[k] := el[k];
          k := k + 1;
        }
        el := el';
      }
    }
  }

  // struct insqueue; the capacity of q is INSQUEUE_SIZE and may be any positive number.
  class InsertQueue {
    var n: nat
    const q: array<Edge>

    constructor (size: nat)
      requires size > 0
      ensures Valid() && n == 0 && fresh(q) && q.Length == size
    {
      n := 0;
      q := new Edge[size];
    }

    ghost predicate Valid()
      reads this
    {
      0 < q.Length && n <= q.Length
    }

    // What the graph's edge list will hold once the queue is flushed.
    ghost function Contents(g: CommunityGraph): seq<Edge>
      requires Valid() && g.Valid()
      reads this, q, g, g.el
    {
      g.Edges() + q[..n]
    }

    /** qflush, plain-append branch. */
    method Flush(g: CommunityGraph)
      requires Valid() && g.Valid() && q != g.el && g.ne + n <= g.el.Length
      modifies this, g`ne, g.el
      ensures Valid() && g.Valid() && n == 0
      ensures g.Edges() == old(Contents(g))
    {
      if n != 0 {
        var at := g.ne;
        ghost var es, qs := g.Edges(), q[..n];
        g.ne := g.ne + n;
        var k := 0;
        while k < n
          invariant 0 <= k <= n && n == old(n) && g.ne == at + n && q[..n] == qs && g.Valid()
          invariant g.el[..at] == es && g.el[at..at + k] == qs[..k]
        {
          g.el[at + k] := q[k];
          k := k + 1;
        }
        assert g.el[..at + n] == es + qs;
        n := 0;
      } else {
        assert q[..n] == [];
      }
    }

    /** enqueue: whether the edge is merged, queued or makes the queue flush, it arrives. */
    method Enqueue(i: int, j: int, w: int, g: CommunityGraph)
      requires Valid() && g.Valid() && q != g.el && |Contents(g)| < g.el.Length
      modifies this, q, g`ne, g.el
      ensures Valid() && g.Valid()
      ensures SameGraph(Contents(g), old(Contents(g)) + [Edge(i, j, w)])
      ensures var was, merged := old(Contents(g)), old(n) > 0 && old(q[..n])[old(n) - 1].i == i && old(q[..n])[old(n) - 1].j == j;
        && old(n) <= |was| && Contents(g) == (if merged then was[..|was| - 1] + [Edge(i, j, was[|was| - 1].w + w)] else was + [Edge(i, j, w)])
        && n == if merged then old(n) else if old(n) < q.Length then old(n) + 1 else 1
      ensures |Contents(g)| <= |old(Contents(g))| + 1
      ensures forall e | e in Contents(g) :: (e.i == i && e.j == j) || e in old(Contents(g))
    {
      ghost var was := Contents(g);
      var at := n;
      if at > 0 {
        var k := at - 1;
        if q[k].i == i && q[k].j == j {
          SameMerge(was, Edge(i, j, w));
          q[k] := Edge(i, j, q[k].w + w);
          assert Contents(g) == was[..|was| - 1] + [q[k]];
          return;
        }
      }
      SameReflexive(was + [Edge(i, j, w)]);
      if at < q.Length {
        n := n + 1;
        q[at] := Edge(i, j, w);
        assert Contents(g) == was + [Edge(i, j, w)];
        return;
      }
      Flush(g);
      n := 1;
      q[0] := Edge(i, j, w);
      assert q[..n] == [Edge(i, j, w)];
      assert Contents(g) == was + [Edge(i, j, w)];
    }
  }
}
