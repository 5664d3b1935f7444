/**
 Breadth-first component trees: levels, labels and bounded lists of parents and same-level
 neighbours, and what following one edge of the search does to them.
 */
module ComponentTrees {
  import opened ShortestPaths
  import opened Sizes

  const INFINITY_MY := 1073741824
  const PARENTS: nat := 4

  // kin[v] lists parents u as u itself and same-level neighbours u as -1 - u.
  datatype Tree = Tree(level: seq<int>, comp: seq<int>, kin: seq<seq<int>>)

  // Adjacency lists of an undirected graph; an edge may be listed once per type.
  ghost predicate Symmetric(adj: seq<seq<nat>>) {
    && (forall u, p | 0 <= u < |adj| && 0 <= p < |adj[u]| :: adj[u][p] < |adj|)
    && forall u: nat, v: nat | u < |adj| && v < |adj| :: v in adj[u] <==> u in adj[v]
  }

  predicate Fits(adj: seq<seq<nat>>, t: Tree) { |t.level| == |t.comp| == |t.kin| == |adj| < INFINITY_MY }

  predicate Reached(t: Tree, v: nat) { v < |t.level| && t.level[v] != INFINITY_MY }

  // One entry of v's list.
  predicate KinOk(adj: seq<seq<nat>>, level: seq<int>, v: nat, x: int) {
    v < |level| == |adj| &&
    if x >= 0 then x < |adj| && v in adj[x] && level[x] + 1 == level[v]
    else -1 - x < |adj| && v in adj[-1 - x] && level[-1 - x] == level[v]
  }

  ghost predicate VertexOk(adj: seq<seq<nat>>, t: Tree, v: nat)
    requires Fits(adj, t) && v < |adj|
  {
    if t.level[v] == INFINITY_MY then t.comp[v] == v && t.kin[v] == []
    else
      && 0 <= t.level[v] < |adj| && 0 <= t.comp[v] <= v && Reached(t, t.comp[v]) && t.comp[t.comp[v]] == t.comp[v]
      && (t.level[v] == 0 <==> t.comp[v] == v) && Walks(adj, t.comp[v], v, t.level[v]) > 0
      && |t.kin[v]| <= PARENTS && (t.comp[v] != v ==> t.kin[v] != [] && t.kin[v][0] >= 0)
      && forall w | 0 <= w < |t.kin[v]| :: KinOk(adj, t.level, v, t.kin[v][w])
  }

  ghost predicate TreeOk(adj: seq<seq<nat>>, t: Tree) {
    Fits(adj, t) && forall v: nat | v < |adj| :: VertexOk(adj, t, v)
  }

  // u is listed at k, unless k's list is full.
  predicate Recorded(t: Tree, u: nat, k: nat)
    requires u < |t.level| && k < |t.level| && k < |t.kin|
  {
    |t.kin[k]| == PARENTS || ((t.level[k] == t.level[u] + 1 ==> u in t.kin[k]) && (t.level[k] == t.level[u] ==> -1 - u in t.kin[k]))
  }

  // The edge (u, k) has been followed.
  ghost predicate EdgeOk(adj: seq<seq<nat>>, t: Tree, u: nat, k: nat)
    requires Fits(adj, t)
  {
    && u < |adj| && k < |adj| && k in adj[u] && Reached(t, u) && Reached(t, k)
    && t.level[k] <= t.level[u] + 1 && t.comp[k] == t.comp[u] && Recorded(t, u, k)
  }

  ghost predicate SeenOk(adj: seq<seq<nat>>, t: Tree, seen: set<(nat, nat)>) {
    Fits(adj, t) && forall u: nat, k: nat | (u, k) in seen :: EdgeOk(adj, t, u, k)
  }

  // Of all reached vertices, only those from qStart on in the queue have edges not yet followed.
  ghost predicate Done(adj: seq<seq<nat>>, t: Tree, seen: set<(nat, nat)>, queue: seq<nat>, qStart: nat, e: nat) {
    && Fits(adj, t) && qStart <= |queue|
    && (forall u: nat, k: nat | u < |adj| && Reached(t, u) && u !in queue[qStart..] && k in adj[u] :: (u, k) in seen)
    && (e > 0 ==> qStart < |queue| && queue[qStart] < |adj| && e <= |adj[queue[qStart]]|
                  && forall k | k in adj[queue[qStart]][..e] :: (queue[qStart], k) in seen)
  }

  // The queue holds the vertices labelled root, by ascending level, spread over two levels at most.
  ghost predicate Line(adj: seq<seq<nat>>, t: Tree, root: nat, queue: seq<nat>, qStart: nat) {
    && Fits(adj, t) && root < |adj| && qStart <= |queue| && 0 < |queue| <= |adj| && queue[0] == root && Reached(t, root)
    && (forall p | 0 <= p < |queue| :: queue[p] < |adj| && Reached(t, queue[p]) && 0 <= t.level[queue[p]] <= p)
    && (forall p, r | 0 <= p < r < |queue| :: queue[p] != queue[r] && t.level[queue[p]] <= t.level[queue[r]])
    && (forall p | qStart <= p < |queue| :: t.level[queue[p]] <= t.level[queue[qStart]] + 1)
    && (forall v: nat | v < |adj| :: v in queue <==> t.comp[v] == root)
  }

  // The vertices below n that are not reached have no edges.
  ghost predicate CoveredTo(adj: seq<seq<nat>>, t: Tree, n: nat) {
    Fits(adj, t) && forall v: nat | v < n && v < |adj| :: Reached(t, v) || adj[v] == []
  }

  // Sizes at the roots, except the one in work.
  ghost predicate SizesBut(t: Tree, csize: seq<int>, root: int) {
    && |csize| == |t.level| == |t.comp|
    && forall r: nat | r < |csize| && r != root :: csize[r] == if Reached(t, r) && t.comp[r] == r then Size(t.comp, r) else 0
  }

  // ---------------------------------------------------------------- one edge

  function Found(t: Tree, c: nat, k: nat, root: nat): Tree
    requires c < |t.level| && k < |t.level| == |t.comp|
  {
    if t.level[k] == INFINITY_MY then t.(level := t.level[k := t.level[c] + 1], comp := t.comp[k := root]) else t
  }

  function Noted(t: Tree, c: nat, k: nat): Tree
    requires c < |t.level| && k < |t.level| == |t.kin|
  {
    if |t.kin[k]| >= PARENTS then t
    else if t.level[k] == t.level[c] + 1 then t.(kin := t.kin[k := t.kin[k] + [c]])
    else if t.level[k] == t.level[c] then t.(kin := t.kin[k := t.kin[k] + [-1 - c]])
    else t
  }

  // Where the search stands, with its next edge.
  ghost predicate Searching(adj: seq<seq<nat>>, t: Tree, seen: set<(nat, nat)>, root: nat, queue: seq<nat>, qStart: nat, e: nat, csize: seq<int>) {
    && Symmetric(adj) && TreeOk(adj, t) && SeenOk(adj, t, seen) && Line(adj, t, root, queue, qStart) && Done(adj, t, seen, queue, qStart, e)
    && CoveredTo(adj, t, root) && SizesBut(t, csize, root) && Size(t.comp, root) == |queue|
  }

  lemma SearchingFacts(adj: seq<seq<nat>>, t: Tree, seen: set<(nat, nat)>, root: nat, queue: seq<nat>, qStart: nat, e: nat, csize: seq<int>)
    requires Searching(adj, t, seen, root, queue, qStart, e, csize)
    ensures Symmetric(adj) && TreeOk(adj, t) && SeenOk(adj, t, seen) && Line(adj, t, root, queue, qStart) && Done(adj, t, seen, queue, qStart, e)
    ensures CoveredTo(adj, t, root) && SizesBut(t, csize, root) && Size(t.comp, root) == |queue|
    ensures Fits(adj, t) && |t.level| == |t.comp| == |t.kin| == |adj| < INFINITY_MY && qStart <= |queue| <= |adj| && 0 < |queue| && root < |adj|
    ensures qStart < |queue| ==> queue[qStart] < |adj|
  {
    hide Symmetric, SeenOk, Done, CoveredTo, SizesBut, Size, VertexOk;
  }

  lemma SearchingIntro(adj: seq<seq<nat>>, t: Tree, seen: set<(nat, nat)>, root: nat, queue: seq<nat>, qStart: nat, e: nat, csize: seq<int>)
    requires Symmetric(adj) && TreeOk(adj, t) && SeenOk(adj, t, seen) && Line(adj, t, root, queue, qStart) && Done(adj, t, seen, queue, qStart, e)
    requires CoveredTo(adj, t, root) && SizesBut(t, csize, root) && Size(t.comp, root) == |queue|
    ensures Searching(adj, t, seen, root, queue, qStart, e, csize)
  {
    hide Symmetric, SeenOk, Done, CoveredTo, SizesBut, Size, TreeOk, Line;
  }

  // A neighbour that is reached is in this component, at most one level on; one that is not is
  // unlisted and larger than the root.
  lemma Neighbour(adj: seq<seq<nat>>, t: Tree, seen: set<(nat, nat)>, root: nat, queue: seq<nat>, qStart: nat, e: nat, csize: seq<int>, k: nat)
    requires Searching(adj, t, seen, root, queue, qStart, e, csize) && qStart < |queue| && queue[qStart] < |adj| && k in adj[queue[qStart]]
    ensures k < |adj| && Fits(adj, t) && Reached(t, queue[qStart]) && t.comp[queue[qStart]] == root && 0 <= t.level[queue[qStart]] <= qStart
    ensures Reached(t, k) ==> t.comp[k] == root && t.level[k] <= t.level[queue[qStart]] + 1
    ensures !Reached(t, k) ==> t.comp[k] == k && t.kin[k] == [] && root < k && k !in queue
  {
    hide Walks, Size, SizesBut, Recorded, KinOk;
    var c := queue[qStart];
    assert c in queue;
    var p :| 0 <= p < |adj[c]| && adj[c][p] == k;
    assert c in adj[k] && VertexOk(adj, t, k);
    if Reached(t, k) {
      if k !in queue[qStart..] {
        assert (k, c) in seen && EdgeOk(adj, t, k, c);
      } else {
        var q :| 0 <= q < |queue| && queue[q] == k;
      }
      assert k in queue;
      var q :| 0 <= q < |queue| && queue[q] == k;
    }
  }

  lemma Fewer(queue: seq<nat>, n: nat, k: nat)
    requires k < n && k !in queue && (forall p | 0 <= p < |queue| :: queue[p] < n) && forall p, r | 0 <= p < r < |queue| :: queue[p] != queue[r]
    ensures |queue| < n
  {
    DistinctBelow(queue + [k], n);
  }

  // ---------------------------------------------------------------- a vertex is found

  // The tree once c's neighbour k is found from c.
  function Grown(t: Tree, c: nat, k: nat, root: nat): Tree
    requires c < |t.level| && k < |t.level| == |t.comp| == |t.kin|
  {
    Tree(t.level[k := t.level[c] + 1], t.comp[k := root], t.kin[k := [c]])
  }

  // c, the vertex in work, has the neighbour k, which is not reached yet.
  ghost predicate Next(adj: seq<seq<nat>>, t: Tree, root: nat, c: nat, k: nat) {
    && Fits(adj, t) && c < |adj| && k < |adj| && k in adj[c] && Reached(t, c) && t.comp[c] == root && root < k && !Reached(t, k)
    && t.comp[k] == k && t.kin[k] == [] && 0 <= t.level[c] < |adj| - 1
  }

  lemma GrownVertex(adj: seq<seq<nat>>, t: Tree, root: nat, c: nat, k: nat, v: nat)
    requires TreeOk(adj, t) && Next(adj, t, root, c, k) && v < |adj|
    ensures Fits(adj, Grown(t, c, k, root)) && VertexOk(adj, Grown(t, c, k, root), v)
  {
    var t' := Grown(t, c, k, root);
    assert VertexOk(adj, t, v) && VertexOk(adj, t, c);
    if v == k {
      WalkOn(adj, root, c, k, t.level[c]);
      assert KinOk(adj, t'.level, k, c);
    } else if Reached(t, v) {
      assert VertexOk(adj, t, t.comp[v]);
      forall w | 0 <= w < |t.kin[v]| ensures KinOk(adj, t'.level, v, t.kin[v][w]) {
        assert KinOk(adj, t.level, v, t.kin[v][w]);
      }
    }
    hide Walks;
  }

  lemma GrownEdge(adj: seq<seq<nat>>, t: Tree, root: nat, c: nat, k: nat, u: nat, j: nat)
    requires Next(adj, t, root, c, k) && EdgeOk(adj, t, u, j)
    ensures Fits(adj, Grown(t, c, k, root)) && EdgeOk(adj, Grown(t, c, k, root), u, j)
  {
    assert u != k && j != k;
  }

  lemma GrownSelf(adj: seq<seq<nat>>, t: Tree, root: nat, c: nat, k: nat)
    requires Next(adj, t, root, c, k)
    ensures Fits(adj, Grown(t, c, k, root)) && EdgeOk(adj, Grown(t, c, k, root), c, k)
  {
    assert c != k && Grown(t, c, k, root).kin[k][0] == c;
  }

  lemma GrownLine(adj: seq<seq<nat>>, t: Tree, root: nat, queue: seq<nat>, qStart: nat, k: nat)
    requires Line(adj, t, root, queue, qStart) && qStart < |queue| && Next(adj, t, root, queue[qStart], k) && k !in queue && t.level[queue[qStart]] <= qStart
    ensures Line(adj, Grown(t, queue[qStart], k, root), root, queue + [k], qStart)
  {
    Fewer(queue, |adj|, k);
    var t', queue' := Grown(t, queue[qStart], k, root), queue + [k];
    assert forall p | 0 <= p < |queue| :: queue'[p] == queue[p] && queue[p] != k && t'.level[queue[p]] == t.level[queue[p]];
    forall p | 0 <= p < |queue| ensures t.level[queue[p]] <= t.level[queue[qStart]] + 1 {}
    forall v: nat | v < |adj| ensures v in queue' <==> t'.comp[v] == root {}
  }

  lemma GrownDone(adj: seq<seq<nat>>, t: Tree, seen: set<(nat, nat)>, root: nat, queue: seq<nat>, qStart: nat, e: nat, k: nat)
    requires Done(adj, t, seen, queue, qStart, e) && qStart < |queue| && Next(adj, t, root, queue[qStart], k)
    requires e < |adj[queue[qStart]]| && adj[queue[qStart]][e] == k
    ensures Done(adj, Grown(t, queue[qStart], k, root), seen + {(queue[qStart], k)}, queue + [k], qStart, e + 1)
  {
    var c, t', queue' := queue[qStart], Grown(t, queue[qStart], k, root), queue + [k];
    assert queue'[qStart..] == queue[qStart..] + [k];
    assert adj[c][..e + 1] == adj[c][..e] + [k];
    forall u: nat, j: nat | u < |adj| && Reached(t', u) && u !in queue'[qStart..] && j in adj[u] ensures (u, j) in seen + {(c, k)} {
      assert u != k && Reached(t, u) && u !in queue[qStart..];
    }
  }

  lemma GrownSizes(adj: seq<seq<nat>>, t: Tree, root: nat, c: nat, k: nat, csize: seq<int>)
    requires Next(adj, t, root, c, k) && SizesBut(t, csize, root)
    ensures SizesBut(Grown(t, c, k, root), csize, root) && Size(Grown(t, c, k, root).comp, root) == Size(t.comp, root) + 1
  {
    SizeMove(t.comp, k, root, root);
    forall r: nat | r < |csize| && r != root
      ensures csize[r] == if Reached(Grown(t, c, k, root), r) && Grown(t, c, k, root).comp[r] == r then Size(Grown(t, c, k, root).comp, r) else 0
    {
      SizeMove(t.comp, k, root, r);
    }
    hide Size;
  }

  /** The search goes on when it finds a vertex. */
  lemma FoundNext(adj: seq<seq<nat>>, t: Tree, seen: set<(nat, nat)>, root: nat, queue: seq<nat>, qStart: nat, e: nat, csize: seq<int>, k: nat)
    requires Searching(adj, t, seen, root, queue, qStart, e, csize) && qStart < |queue| && queue[qStart] < |adj|
    requires e < |adj[queue[qStart]]| && adj[queue[qStart]][e] == k && !Reached(t, k)
    ensures k < |adj| && Fits(adj, t) && |queue| < |adj|
    ensures Searching(adj, Grown(t, queue[qStart], k, root), seen + {(queue[qStart], k)}, root, queue + [k], qStart, e + 1, csize)
  {
    hide *;
    SearchingFacts(adj, t, seen, root, queue, qStart, e, csize);
    Neighbour(adj, t, seen, root, queue, qStart, e, csize, k);
    var c := queue[qStart];
    var t' := Grown(t, c, k, root);
    FewerInLine(adj, t, root, queue, qStart, k);
    NextIntro(adj, t, root, c, k);
    forall v: nat | v < |adj| ensures Fits(adj, t') && VertexOk(adj, t', v) { GrownVertex(adj, t, root, c, k, v); }
    GrownSelf(adj, t, root, c, k);
    TreeIntro(adj, t');
    forall u: nat, j: nat | (u, j) in seen + {(c, k)} ensures EdgeOk(adj, t', u, j) {
      if (u, j) in seen { SeenAt(adj, t, seen, u, j); GrownEdge(adj, t, root, c, k, u, j); }
    }
    SeenIntro(adj, t', seen + {(c, k)});
    GrownLine(adj, t, root, queue, qStart, k);
    GrownDone(adj, t, seen, root, queue, qStart, e, k);
    GrownSizes(adj, t, root, c, k, csize);
    CoveredGrown(adj, t, root, c, k);
    SearchingIntro(adj, t', seen + {(c, k)}, root, queue + [k], qStart, e + 1, csize);
  }

  lemma CoveredGrown(adj: seq<seq<nat>>, t: Tree, root: nat, c: nat, k: nat)
    requires CoveredTo(adj, t, root) && Next(adj, t, root, c, k)
    ensures CoveredTo(adj, Grown(t, c, k, root), root)
  {
  }

  lemma FewerInLine(adj: seq<seq<nat>>, t: Tree, root: nat, queue: seq<nat>, qStart: nat, k: nat)
    requires Line(adj, t, root, queue, qStart) && k < |adj| && k !in queue
    ensures |queue| < |adj|
  {
    Fewer(queue, |adj|, k);
  }

  lemma NextIntro(adj: seq<seq<nat>>, t: Tree, root: nat, c: nat, k: nat)
    requires Fits(adj, t) && c < |adj| && k < |adj| && k in adj[c] && Reached(t, c) && t.comp[c] == root && root < k && !Reached(t, k)
    requires t.comp[k] == k && t.kin[k] == [] && 0 <= t.level[c] < |adj| - 1
    ensures Next(adj, t, root, c, k)
  {
  }

  lemma TreeIntro(adj: seq<seq<nat>>, t: Tree)
    requires Fits(adj, t) && forall v: nat | v < |adj| :: VertexOk(adj, t, v)
    ensures TreeOk(adj, t)
  {
    hide VertexOk;
  }

  lemma SeenAt(adj: seq<seq<nat>>, t: Tree, seen: set<(nat, nat)>, u: nat, k: nat)
    requires SeenOk(adj, t, seen) && (u, k) in seen
    ensures EdgeOk(adj, t, u, k)
  {
    hide EdgeOk;
  }

  lemma SeenIntro(adj: seq<seq<nat>>, t: Tree, seen: set<(nat, nat)>)
    requires Fits(adj, t) && forall u: nat, k: nat | (u, k) in seen :: EdgeOk(adj, t, u, k)
    ensures SeenOk(adj, t, seen)
  {
    hide EdgeOk;
  }

  // ---------------------------------------------------------------- a vertex is known already

  // k's list, and only that, may get the entry x.
  ghost predicate Adds(adj: seq<seq<nat>>, t: Tree, t': Tree, c: nat, k: nat) {
    && Fits(adj, t) && Fits(adj, t') && c < |adj| && k < |adj| && t'.level == t.level && t'.comp == t.comp
    && (t'.kin == t.kin || (|t.kin[k]| < PARENTS && exists x :: KinOk(adj, t.level, k, x) && t'.kin == t.kin[k := t.kin[k] + [x]]))
  }

  lemma AddedVertex(adj: seq<seq<nat>>, t: Tree, t': Tree, c: nat, k: nat, v: nat)
    requires TreeOk(adj, t) && Adds(adj, t, t', c, k) && Reached(t, k) && v < |adj|
    ensures VertexOk(adj, t', v)
  {
    assert VertexOk(adj, t, v);
    hide Walks;
    if v == k && t'.kin != t.kin {
      var x :| KinOk(adj, t.level, k, x) && t'.kin == t.kin[k := t.kin[k] + [x]];
      if t.comp[k] != k { assert t'.kin[k][0] == t.kin[k][0]; }
    }
  }

  lemma AddedEdge(adj: seq<seq<nat>>, t: Tree, t': Tree, c: nat, k: nat, u: nat, j: nat)
    requires Adds(adj, t, t', c, k) && EdgeOk(adj, t, u, j)
    ensures EdgeOk(adj, t', u, j)
  {
  }

  lemma AddedRest(adj: seq<seq<nat>>, t: Tree, t': Tree, seen: set<(nat, nat)>, root: nat, queue: seq<nat>, qStart: nat, e: nat, csize: seq<int>, k: nat)
    requires Searching(adj, t, seen, root, queue, qStart, e, csize) && qStart < |queue| && queue[qStart] < |adj|
    requires e < |adj[queue[qStart]]| && adj[queue[qStart]][e] == k && Adds(adj, t, t', queue[qStart], k)
    ensures Line(adj, t', root, queue, qStart) && Done(adj, t', seen + {(queue[qStart], k)}, queue, qStart, e + 1)
    ensures CoveredTo(adj, t', root) && SizesBut(t', csize, root) && Size(t'.comp, root) == |queue|
  {
    hide Symmetric, TreeOk, SeenOk, Size, KinOk;
    var c := queue[qStart];
    assert adj[c][..e + 1] == adj[c][..e] + [k];
  }

  /** Or the vertex is known, and gets c listed if it is one level on, or on the same level, and has room. */
  lemma KnownNext(adj: seq<seq<nat>>, t: Tree, seen: set<(nat, nat)>, root: nat, queue: seq<nat>, qStart: nat, e: nat, csize: seq<int>, k: nat)
    requires Searching(adj, t, seen, root, queue, qStart, e, csize) && qStart < |queue| && queue[qStart] < |adj|
    requires e < |adj[queue[qStart]]| && adj[queue[qStart]][e] == k && Reached(t, k)
    ensures k < |adj| && Fits(adj, t)
    ensures Searching(adj, Noted(t, queue[qStart], k), seen + {(queue[qStart], k)}, root, queue, qStart, e + 1, csize)
  {
    hide *;
    SearchingFacts(adj, t, seen, root, queue, qStart, e, csize);
    Neighbour(adj, t, seen, root, queue, qStart, e, csize, k);
    var c := queue[qStart];
    var t' := Noted(t, c, k);
    NotedAdds(adj, t, c, k, root);
    forall v: nat | v < |adj| ensures VertexOk(adj, t', v) { AddedVertex(adj, t, t', c, k, v); }
    TreeIntro(adj, t');
    forall u: nat, j: nat | (u, j) in seen + {(c, k)} ensures EdgeOk(adj, t', u, j) {
      if (u, j) in seen { SeenAt(adj, t, seen, u, j); AddedEdge(adj, t, t', c, k, u, j); }
    }
    SeenIntro(adj, t', seen + {(c, k)});
    AddedRest(adj, t, t', seen, root, queue, qStart, e, csize, k);
    SearchingIntro(adj, t', seen + {(c, k)}, root, queue, qStart, e + 1, csize);
  }

  lemma NotedAdds(adj: seq<seq<nat>>, t: Tree, c: nat, k: nat, root: nat)
    requires TreeOk(adj, t) && Fits(adj, t) && c < |adj| && k < |adj| && k in adj[c] && Reached(t, c) && Reached(t, k)
    requires t.comp[k] == t.comp[c] && t.level[k] <= t.level[c] + 1
    ensures Fits(adj, Noted(t, c, k)) && Adds(adj, t, Noted(t, c, k), c, k) && EdgeOk(adj, Noted(t, c, k), c, k)
  {
    hide Walks;
    assert VertexOk(adj, t, k);
    var t' := Noted(t, c, k);
    if |t.kin[k]| < PARENTS && t.level[k] == t.level[c] + 1 {
      assert KinOk(adj, t.level, k, c) && t'.kin[k][|t.kin[k]|] == c;
    } else if |t.kin[k]| < PARENTS && t.level[k] == t.level[c] {
      assert -1 - (-1 - c) == c;
      assert KinOk(adj, t.level, k, -1 - c) && t'.kin[k][|t.kin[k]|] == -1 - c;
    }
  }

  lemma GrownIs(adj: seq<seq<nat>>, t: Tree, root: nat, c: nat, k: nat)
    requires Next(adj, t, root, c, k)
    ensures Noted(Found(t, c, k, root), c, k) == Grown(t, c, k, root)
  {
    assert c != k && t.kin[k] + [c] == [c];
  }

  lemma FoundIs(t: Tree, c: nat, k: nat, root: nat)
    requires c < |t.level| && k < |t.level| == |t.comp| && Reached(t, k)
    ensures Found(t, c, k, root) == t
  {
  }

  /** One edge of the search. */
  lemma EdgeTurn(adj: seq<seq<nat>>, t: Tree, seen: set<(nat, nat)>, root: nat, queue: seq<nat>, qStart: nat, e: nat, csize: seq<int>, k: nat)
    requires Searching(adj, t, seen, root, queue, qStart, e, csize) && qStart < |queue| && queue[qStart] < |adj|
    requires e < |adj[queue[qStart]]| && adj[queue[qStart]][e] == k
    ensures k < |adj| == |t.level| == |t.comp| == |t.kin| && (t.level[k] == INFINITY_MY ==> |queue| < |adj|)
    ensures Searching(adj, Noted(Found(t, queue[qStart], k, root), queue[qStart], k), seen + {(queue[qStart], k)}, root,
                      if t.level[k] == INFINITY_MY then queue + [k] else queue, qStart, e + 1, csize)
  {
    hide *;
    var c := queue[qStart];
    SearchingFacts(adj, t, seen, root, queue, qStart, e, csize);
    Neighbour(adj, t, seen, root, queue, qStart, e, csize, k);
    ReachedIs(t, k);
    if t.level[k] == INFINITY_MY {
      FoundNext(adj, t, seen, root, queue, qStart, e, csize, k);
      NextIntro(adj, t, root, c, k);
      GrownIs(adj, t, root, c, k);
    } else {
      KnownNext(adj, t, seen, root, queue, qStart, e, csize, k);
      FoundIs(t, c, k, root);
    }
  }

  lemma ReachedIs(t: Tree, v: nat)
    ensures Reached(t, v) <==> v < |t.level| && t.level[v] != INFINITY_MY
  {
  }

  // ---------------------------------------------------------------- from vertex to vertex, and from root to root

  /** When all edges of a vertex have been followed, the search moves on in its queue. */
  lemma Advance(adj: seq<seq<nat>>, t: Tree, seen: set<(nat, nat)>, root: nat, queue: seq<nat>, qStart: nat, e: nat, csize: seq<int>)
    requires Searching(adj, t, seen, root, queue, qStart, e, csize) && qStart < |queue| && queue[qStart] < |adj| && e == |adj[queue[qStart]]|
    ensures Searching(adj, t, seen, root, queue, qStart + 1, 0, csize)
  {
    hide Symmetric, TreeOk, SeenOk, CoveredTo, SizesBut, Size;
    var c := queue[qStart];
    assert adj[c][..e] == adj[c];
    assert queue[qStart..] == [c] + queue[qStart + 1..];
    forall u: nat, k: nat | u < |adj| && Reached(t, u) && u !in queue[qStart + 1..] && k in adj[u] ensures (u, k) in seen {
      if u != c { assert u !in queue[qStart..]; }
    }
  }

  // Between two searches: nothing left to follow.
  ghost predicate Between(adj: seq<seq<nat>>, t: Tree, seen: set<(nat, nat)>, n: nat, csize: seq<int>) {
    && Symmetric(adj) && TreeOk(adj, t) && SeenOk(adj, t, seen) && Done(adj, t, seen, [], 0, 0) && CoveredTo(adj, t, n) && SizesBut(t, csize, -1)
  }

  lemma BetweenFacts(adj: seq<seq<nat>>, t: Tree, seen: set<(nat, nat)>, n: nat, csize: seq<int>)
    requires Between(adj, t, seen, n, csize)
    ensures Symmetric(adj) && TreeOk(adj, t) && SeenOk(adj, t, seen) && Done(adj, t, seen, [], 0, 0) && CoveredTo(adj, t, n) && SizesBut(t, csize, -1)
    ensures Fits(adj, t) && |t.level| == |t.comp| == |t.kin| == |adj| == |csize| < INFINITY_MY
  {
    hide Symmetric, SeenOk, CoveredTo, Size, VertexOk;
  }

  lemma BetweenIntro(adj: seq<seq<nat>>, t: Tree, seen: set<(nat, nat)>, n: nat, csize: seq<int>)
    requires Symmetric(adj) && TreeOk(adj, t) && SeenOk(adj, t, seen) && Done(adj, t, seen, [], 0, 0) && CoveredTo(adj, t, n) && SizesBut(t, csize, -1)
    ensures Between(adj, t, seen, n, csize)
  {
    hide Symmetric, SeenOk, CoveredTo, SizesBut, TreeOk, Done;
  }

  // The tree with a vertex that starts a component of its own.
  function Rooted(t: Tree, root: nat): Tree
    requires root < |t.level| == |t.comp|
  {
    t.(level := t.level[root := 0], comp := t.comp[root := root])
  }

  lemma RootedVertex(adj: seq<seq<nat>>, t: Tree, root: nat, v: nat)
    requires TreeOk(adj, t) && root < |adj| && !Reached(t, root) && v < |adj|
    ensures Fits(adj, Rooted(t, root)) && VertexOk(adj, Rooted(t, root), v)
  {
    var t' := Rooted(t, root);
    assert VertexOk(adj, t, v) && VertexOk(adj, t, root);
    if v == root {
      assert Walks(adj, root, root, 0) == 1;
    } else if Reached(t, v) {
      hide Walks;
      forall w | 0 <= w < |t.kin[v]| ensures KinOk(adj, t'.level, v, t.kin[v][w]) { assert KinOk(adj, t.level, v, t.kin[v][w]); }
      assert t.comp[v] != root;
    }
  }

  lemma RootedEdge(adj: seq<seq<nat>>, t: Tree, root: nat, u: nat, k: nat)
    requires TreeOk(adj, t) && root < |adj| && !Reached(t, root) && EdgeOk(adj, t, u, k)
    ensures Fits(adj, Rooted(t, root)) && EdgeOk(adj, Rooted(t, root), u, k)
  {
    assert u != root && k != root;
  }

  lemma RootedTree(adj: seq<seq<nat>>, t: Tree, seen: set<(nat, nat)>, root: nat)
    requires TreeOk(adj, t) && SeenOk(adj, t, seen) && root < |adj| && !Reached(t, root) && Fits(adj, t) && |t.level| == |t.comp| == |adj|
    ensures Fits(adj, Rooted(t, root)) && TreeOk(adj, Rooted(t, root)) && SeenOk(adj, Rooted(t, root), seen)
  {
    hide *;
    var t' := Rooted(t, root);
    RootedVertex(adj, t, root, root);
    forall v: nat | v < |adj| ensures VertexOk(adj, t', v) { RootedVertex(adj, t, root, v); }
    forall u: nat, k: nat | (u, k) in seen ensures EdgeOk(adj, t', u, k) { SeenAt(adj, t, seen, u, k); RootedEdge(adj, t, root, u, k); }
    TreeIntro(adj, t');
    SeenIntro(adj, t', seen);
  }

  // A vertex that labels itself and no other.
  lemma {:induction false} SizeOne(comp: seq<int>, r: nat)
    requires r < |comp| && comp[r] == r && forall v: nat | v < |comp| && comp[v] == r :: v == r
    ensures Size(comp, r) == 1
  {
    SizeMove(comp, r, -1, r);
    SizePositive(comp[r := -1], r);
  }

  lemma NoneLabelled(adj: seq<seq<nat>>, t: Tree, r: nat)
    requires TreeOk(adj, t) && r < |adj| && !Reached(t, r)
    ensures t.comp[r] == r && Size(t.comp, r) == 1 && forall v: nat | v < |adj| && t.comp[v] == r :: v == r
  {
    hide Walks;
    forall v: nat | v < |adj| && t.comp[v] == r ensures v == r { assert VertexOk(adj, t, v); }
    assert VertexOk(adj, t, r);
    hide VertexOk, TreeOk;
    SizeOne(t.comp, r);
  }

  lemma RootedSizes(adj: seq<seq<nat>>, t: Tree, root: nat, csize: seq<int>)
    requires Fits(adj, t) && SizesBut(t, csize, -1) && root < |adj| && t.comp[root] == root
    ensures SizesBut(Rooted(t, root), csize, root)
  {
    assert Rooted(t, root).comp == t.comp;
    hide Size;
  }

  /** A search starts at a vertex not yet reached. */
  lemma SearchStarts(adj: seq<seq<nat>>, t: Tree, seen: set<(nat, nat)>, root: nat, csize: seq<int>)
    requires Between(adj, t, seen, root, csize) && root < |adj| && !Reached(t, root)
    ensures |t.level| == |t.comp| == |adj| && Searching(adj, Rooted(t, root), seen, root, [root], 0, 0, csize)
  {
    hide *;
    BetweenFacts(adj, t, seen, root, csize);
    RootedTree(adj, t, seen, root);
    NoneLabelled(adj, t, root);
    RootedSizes(adj, t, root, csize);
    RootedLine(adj, t, seen, root);
    SearchingIntro(adj, Rooted(t, root), seen, root, [root], 0, 0, csize);
  }

  lemma RootedLine(adj: seq<seq<nat>>, t: Tree, seen: set<(nat, nat)>, root: nat)
    requires Fits(adj, t) && CoveredTo(adj, t, root) && Done(adj, t, seen, [], 0, 0) && root < |adj| && !Reached(t, root)
    requires t.comp[root] == root && Size(t.comp, root) == 1 && forall v: nat | v < |adj| && t.comp[v] == root :: v == root
    ensures Line(adj, Rooted(t, root), root, [root], 0) && Done(adj, Rooted(t, root), seen, [root], 0, 0) && CoveredTo(adj, Rooted(t, root), root)
    ensures Size(Rooted(t, root).comp, root) == 1
  {
    var t' := Rooted(t, root);
    assert t'.comp == t.comp;
    assert [root][0..] == [root];
    hide Size;
    forall u: nat, k: nat | u < |adj| && Reached(t', u) && u !in [root] && k in adj[u] ensures (u, k) in seen { assert u !in [][0..]; }
  }

  /** And ends when its queue is used up: the component's size is the queue's length. */
  lemma SearchEnds(adj: seq<seq<nat>>, t: Tree, seen: set<(nat, nat)>, root: nat, queue: seq<nat>, csize: seq<int>)
    requires Searching(adj, t, seen, root, queue, |queue|, 0, csize) && root < |csize|
    ensures Between(adj, t, seen, root + 1, csize[root := |queue|])
  {
    hide *;
    SearchingFacts(adj, t, seen, root, queue, |queue|, 0, csize);
    EndedLine(adj, t, seen, root, queue, csize);
    BetweenIntro(adj, t, seen, root + 1, csize[root := |queue|]);
  }

  lemma EndedLine(adj: seq<seq<nat>>, t: Tree, seen: set<(nat, nat)>, root: nat, queue: seq<nat>, csize: seq<int>)
    requires Line(adj, t, root, queue, |queue|) && Done(adj, t, seen, queue, |queue|, 0) && CoveredTo(adj, t, root) && SizesBut(t, csize, root)
    requires Size(t.comp, root) == |queue| && root < |csize|
    ensures Done(adj, t, seen, [], 0, 0) && CoveredTo(adj, t, root + 1) && SizesBut(t, csize[root := |queue|], -1)
  {
    hide Size;
    assert queue[0] in queue;
    assert queue[|queue|..] == [];
  }

  lemma SkipCovered(adj: seq<seq<nat>>, t: Tree, seen: set<(nat, nat)>, n: nat, csize: seq<int>)
    requires Between(adj, t, seen, n, csize) && n < |adj| && (Reached(t, n) || adj[n] == [])
    ensures Between(adj, t, seen, n + 1, csize)
  {
    hide Symmetric, TreeOk, SeenOk, Done, SizesBut;
  }

  /** A vertex without edges is a component of its own. */
  lemma Isolated(adj: seq<seq<nat>>, t: Tree, seen: set<(nat, nat)>, n: nat, csize: seq<int>, v: nat)
    requires Between(adj, t, seen, n, csize) && v < n && v < |adj| && !Reached(t, v)
    ensures |t.level| == |t.comp| == |csize| == |adj| && Between(adj, Rooted(t, v), seen, n, csize[v := 1])
  {
    hide *;
    BetweenFacts(adj, t, seen, n, csize);
    RootedTree(adj, t, seen, v);
    NoneLabelled(adj, t, v);
    RootedSizes(adj, t, v, csize);
    IsolatedRest(adj, t, seen, n, csize, v);
    BetweenIntro(adj, Rooted(t, v), seen, n, csize[v := 1]);
  }

  lemma IsolatedRest(adj: seq<seq<nat>>, t: Tree, seen: set<(nat, nat)>, n: nat, csize: seq<int>, v: nat)
    requires Fits(adj, t) && Done(adj, t, seen, [], 0, 0) && CoveredTo(adj, t, n) && v < n && v < |adj| && !Reached(t, v)
    requires t.comp[v] == v && Size(t.comp, v) == 1 && SizesBut(Rooted(t, v), csize, v) && v < |csize|
    ensures Done(adj, Rooted(t, v), seen, [], 0, 0) && CoveredTo(adj, Rooted(t, v), n) && SizesBut(Rooted(t, v), csize[v := 1], -1)
  {
    assert Rooted(t, v).comp == t.comp;
    hide Size;
    forall u: nat, k: nat | u < |adj| && Reached(Rooted(t, v), u) && k in adj[u] ensures (u, k) in seen {
      assert u != v;
      assert u !in [][0..];
    }
  }

  // ---------------------------------------------------------------- what it all comes to

  // Every vertex is reached, every edge has been followed.
  ghost predicate Complete(adj: seq<seq<nat>>, t: Tree, csize: seq<int>) {
    && TreeOk(adj, t) && (forall v: nat | v < |adj| :: Reached(t, v))
    && (forall u: nat, k: nat | u < |adj| && k in adj[u] :: EdgeOk(adj, t, u, k))
    && SizesBut(t, csize, -1)
  }

  lemma Completed(adj: seq<seq<nat>>, t: Tree, seen: set<(nat, nat)>, n: nat, csize: seq<int>)
    requires Between(adj, t, seen, n, csize) && |adj| <= n && |t.level| == |adj| && forall v: nat | v < |adj| :: Reached(t, v)
    ensures Complete(adj, t, csize)
  {
    hide VertexOk, EdgeOk, Size, SizesBut, CoveredTo;
    forall u: nat, k: nat | u < |adj| && k in adj[u] ensures EdgeOk(adj, t, u, k) {
      assert u !in [][0..];
      assert (u, k) in seen;
    }
  }

  lemma {:induction false} SameComponent(adj: seq<seq<nat>>, t: Tree, csize: seq<int>, u: nat, v: nat, n: nat)
    requires Complete(adj, t, csize) && u < |adj| && v < |adj| && Walks(adj, u, v, n) > 0
    ensures |t.comp| == |adj| && t.comp[u] == t.comp[v]
    decreases n
  {
    hide SizesBut, TreeOk;
    CompleteSizes(adj, t, csize);
    if n > 0 {
      var w := WalkBack(adj, u, v, n - 1);
      SameComponent(adj, t, csize, u, w, n - 1);
      assert EdgeOk(adj, t, w, v);
    }
  }

  /** Labels: a vertex is labelled with the least vertex that it is connected to. */
  lemma LeastOfComponent(adj: seq<seq<nat>>, t: Tree, csize: seq<int>, v: nat)
    requires Complete(adj, t, csize) && v < |adj|
    ensures 0 <= t.comp[v] < |adj| && Reachable(adj, t.comp[v], v)
    ensures forall u: nat | u < |adj| && Reachable(adj, u, v) :: t.comp[v] <= u
  {
    hide SizesBut, EdgeOk;
    assert VertexOk(adj, t, v) && Reached(t, v);
    hide Walks;
    forall u: nat | u < |adj| && Reachable(adj, u, v) ensures t.comp[v] <= u {
      var n: nat :| Walks(adj, u, v, n) > 0;
      SameComponent(adj, t, csize, u, v, n);
      assert VertexOk(adj, t, u) && Reached(t, u);
    }
  }

  lemma ClosedTree(adj: seq<seq<nat>>, t: Tree, csize: seq<int>, v: nat)
    requires Complete(adj, t, csize) && v < |adj|
    ensures 0 <= t.comp[v] < |adj| && 0 <= t.level[v] < |adj| && Walks(adj, t.comp[v], v, t.level[v]) > 0
    ensures ClosedBelow(adj, t.comp[v], t.level, INFINITY_MY, INFINITY_MY)
  {
    hide Walks, SizesBut, Recorded;
    assert VertexOk(adj, t, v) && Reached(t, v) && VertexOk(adj, t, t.comp[v]);
    forall w | 0 <= w < |adj| ensures 0 <= t.level[w] <= INFINITY_MY { assert VertexOk(adj, t, w); }
    hide VertexOk;
    forall u: nat, w: nat | u < |adj| && w < |adj| && w in adj[u] ensures t.level[w] <= t.level[u] + 1 { assert EdgeOk(adj, t, u, w); }
  }

  /** Levels: a vertex's level is its distance from its label. */
  lemma LevelIsDistance(adj: seq<seq<nat>>, t: Tree, csize: seq<int>, v: nat)
    requires Complete(adj, t, csize) && v < |adj|
    ensures 0 <= t.comp[v] < |adj| && 0 <= t.level[v] && IsDistance(adj, t.comp[v], v, t.level[v])
  {
    hide *;
    ClosedTree(adj, t, csize, v);
    CompleteSizes(adj, t, csize);
    forall m: nat | m < t.level[v] ensures Walks(adj, t.comp[v], v, m) == 0 {
      if Walks(adj, t.comp[v], v, m) > 0 { LevelsMinimal(adj, t.comp[v], t.level, INFINITY_MY, INFINITY_MY, v, m); }
    }
    DistanceIntro(adj, t.comp[v], v, t.level[v]);
  }

  lemma CompleteSizes(adj: seq<seq<nat>>, t: Tree, csize: seq<int>)
    requires Complete(adj, t, csize)
    ensures Fits(adj, t) && |t.level| == |t.comp| == |t.kin| == |adj| == |csize| < INFINITY_MY
  {
    hide EdgeOk, VertexOk, Size;
  }

  lemma DistanceIntro(adj: seq<seq<nat>>, root: nat, v: nat, d: nat)
    requires Walks(adj, root, v, d) > 0 && forall m: nat | m < d :: Walks(adj, root, v, m) == 0
    ensures IsDistance(adj, root, v, d)
  {
    hide Walks;
  }

  /** Sizes: the histogram of the labels. */
  lemma SizesAreHistogram(adj: seq<seq<nat>>, t: Tree, csize: seq<int>)
    requires Complete(adj, t, csize)
    ensures Histogram(csize, t.comp, |adj|)
  {
    hide Size, EdgeOk, Walks;
    forall v: nat | v < |adj| ensures 0 <= t.comp[v] < |adj| && t.comp[t.comp[v]] == t.comp[v] { assert VertexOk(adj, t, v) && Reached(t, v); }
    hide VertexOk, TreeOk;
    forall a: nat | a < |adj| ensures csize[a] == Size(t.comp, a) {
      if t.comp[a] != a { SizePositive(t.comp, a); }
    }
  }

  /**
     Lists: at most PARENTS entries, each a neighbour one level up or, negated, on the same level;
     the first entry of every vertex but a root is a parent; and a list with room left is complete.
   */
  lemma ListsOfKin(adj: seq<seq<nat>>, t: Tree, csize: seq<int>, v: nat)
    requires Complete(adj, t, csize) && v < |adj|
    ensures |t.kin| == |adj| && |t.level| == |adj| && |t.comp| == |adj| && |t.kin[v]| <= PARENTS && forall w | 0 <= w < |t.kin[v]| :: KinOk(adj, t.level, v, t.kin[v][w])
    ensures t.comp[v] != v ==> |t.kin[v]| > 0 && t.kin[v][0] >= 0
    ensures |t.kin[v]| < PARENTS ==> forall u: nat | u < |adj| && v in adj[u] :: (u in t.kin[v] <==> t.level[u] + 1 == t.level[v]) && (-1 - u in t.kin[v] <==> t.level[u] == t.level[v])
  {
    hide Walks, SizesBut;
    assert VertexOk(adj, t, v) && Reached(t, v);
    if |t.kin[v]| < PARENTS {
      forall u: nat | u < |adj| && v in adj[u]
        ensures (u in t.kin[v] <==> t.level[u] + 1 == t.level[v]) && (-1 - u in t.kin[v] <==> t.level[u] == t.level[v])
      {
        assert EdgeOk(adj, t, u, v);
        assert -1 - (-1 - u) == u;
        assert u in t.kin[v] ==> KinOk(adj, t.level, v, u);
        assert -1 - u in t.kin[v] ==> KinOk(adj, t.level, v, -1 - u);
      }
    }
  }
}
