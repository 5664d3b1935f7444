/**
 Triangle counts on an undirected graph whose edges carry the time they first came: a recount with
 a neighbor set, and the update after a batch of insertions, which counts each new triangle once.
 */
module Triangles {
  import Sizes

  // timeFirst of every edge, in both directions.
  type Graph = map<(nat, nat), int>

  ghost predicate Undirected(m: Graph, n: nat) {
    forall a: nat, b: nat | (a, b) in m :: a < n && b < n && a != b && (b, a) in m && m[(b, a)] == m[(a, b)]
  }

  // The ordered pairs of adjacent neighbors of v: two for each triangle at v.
  function Pairs(m: Graph, v: nat): set<(nat, nat)> {
    set p | p in m && (v, p.0) in m && (v, p.1) in m
  }

  function Older(m: Graph, minTs: int): Graph {
    map p | p in m && m[p] < minTs :: m[p]
  }

  datatype Triple = Triple(a: nat, b: nat, c: nat)

  predicate Ascends(t: Triple) { t.a < t.b < t.c }

  predicate Has(t: Triple, v: nat) { t.a == v || t.b == v || t.c == v }

  function Sort3(x: nat, y: nat, z: nat): Triple {
    if x < y then (if y < z then Triple(x, y, z) else if x < z then Triple(x, z, y) else Triple(z, x, y))
    else (if x < z then Triple(y, x, z) else if y < z then Triple(y, z, x) else Triple(z, y, x))
  }

  predicate Triangle(m: Graph, x: nat, y: nat, z: nat) {
    (x, y) in m && (y, z) in m && (x, z) in m
  }

  predicate Recent(m: Graph, minTs: int, x: nat, y: nat) {
    (x, y) in m && m[(x, y)] >= minTs
  }

  // A triangle of which some edge is recent.
  predicate Arrived(m: Graph, minTs: int, t: Triple) {
    && Ascends(t) && Triangle(m, t.a, t.b, t.c)
    && (Recent(m, minTs, t.a, t.b) || Recent(m, minTs, t.b, t.c) || Recent(m, minTs, t.a, t.c))
  }

  ghost predicate AllArrived(c: set<Triple>, m: Graph, minTs: int) {
    forall t :: t in c <==> Arrived(m, minTs, t)
  }

  // ---------------------------------------------------------------- sets of triples

  ghost predicate Ascending(c: set<Triple>) {
    forall t | t in c :: Ascends(t)
  }

  ghost function At(c: set<Triple>, v: nat): set<Triple> {
    set t | t in c && Has(t, v)
  }

  // The ordered pairs that form a triple of c with v.
  ghost predicate PairIn(c: set<Triple>, v: nat, x: nat, y: nat) {
    x != y && x != v && y != v && Sort3(v, x, y) in c
  }

  ghost predicate PairsAre(c: set<Triple>, v: nat, pairs: set<(nat, nat)>) {
    forall x: nat, y: nat :: (x, y) in pairs <==> PairIn(c, v, x, y)
  }

  // The other two corners of a triple.
  function Others(t: Triple, v: nat): (nat, nat)
    requires Has(t, v)
  {
    if t.a == v then (t.b, t.c) else if t.b == v then (t.a, t.c) else (t.a, t.b)
  }

  lemma AtAdd(c: set<Triple>, t: Triple, v: nat)
    requires t !in c
    ensures |At(c + {t}, v)| == |At(c, v)| + if Has(t, v) then 1 else 0
  {
    assert At(c + {t}, v) == At(c, v) + if Has(t, v) then {t} else {};
  }

  /** Each triple at v gives two ordered pairs of other corners. */
  lemma {:induction false} PairsTwice(c: set<Triple>, v: nat, pairs: set<(nat, nat)>)
    requires Ascending(c) && PairsAre(c, v, pairs)
    ensures |pairs| == 2 * |At(c, v)|
    decreases c
  {
    if c == {} {
      assert forall p :: p in pairs ==> PairIn(c, v, p.0, p.1);
      assert pairs == {};
    } else {
      var t :| t in c;
      var c' := c - {t};
      assert c == c' + {t};
      AtAdd(c', t, v);
      if Has(t, v) {
        var (x, y) := Others(t, v);
        var both := {(x, y), (y, x)};
        SortsBack(t, v, x, y);
        assert PairIn(c, v, x, y) && PairIn(c, v, y, x);
        var pairs' := pairs - both;
        assert |pairs'| == |pairs| - 2;
        forall p: nat, q: nat ensures (p, q) in pairs' <==> PairIn(c', v, p, q) { SortsOnly(t, v, p, q); }
        PairsTwice(c', v, pairs');
      } else {
        forall p: nat, q: nat ensures (p, q) in pairs <==> PairIn(c', v, p, q) {}
        PairsTwice(c', v, pairs);
      }
    }
  }

  lemma SortsBack(t: Triple, v: nat, x: nat, y: nat)
    requires Ascends(t) && Has(t, v) && (x, y) == Others(t, v)
    ensures x != y && x != v && y != v && Sort3(v, x, y) == t && Sort3(v, y, x) == t
  {
  }

  lemma SortsOnly(t: Triple, v: nat, p: nat, q: nat)
    requires Ascends(t) && Has(t, v)
    ensures p != q && p != v && q != v && Sort3(v, p, q) == t <==> (p, q) == Others(t, v) || (q, p) == Others(t, v)
  {
  }

  lemma Sort3Facts(x: nat, y: nat, z: nat)
    requires x != y && y != z && x != z
    ensures Ascends(Sort3(x, y, z)) && forall v :: Has(Sort3(x, y, z), v) <==> v == x || v == y || v == z
    ensures Sort3(x, y, z) == Sort3(y, x, z) == Sort3(z, x, y) == Sort3(x, z, y)
  {
  }

  // ---------------------------------------------------------------- old and new triangles

  /** The pairs of all triangles at v: those of older triangles, and two for each that arrived. */
  lemma PairsGrow(m: Graph, n: nat, minTs: int, c: set<Triple>, v: nat)
    requires Undirected(m, n) && AllArrived(c, m, minTs)
    ensures |Pairs(m, v)| == |Pairs(Older(m, minTs), v)| + 2 * |At(c, v)|
  {
    hide *;
    var old_ := Pairs(Older(m, minTs), v);
    var new_ := Pairs(m, v) - old_;
    OlderPairs(m, minTs, v);
    ArrivedAscend(c, m, minTs);
    forall x: nat, y: nat ensures (x, y) in new_ <==> PairIn(c, v, x, y) { NewPair(m, n, minTs, c, v, x, y); }
    PairsAreIntro(c, v, new_);
    PairsTwice(c, v, new_);
    assert Pairs(m, v) == old_ + new_;
  }

  lemma ArrivedAscend(c: set<Triple>, m: Graph, minTs: int)
    requires AllArrived(c, m, minTs)
    ensures Ascending(c)
  {
    forall t | t in c ensures Ascends(t) { assert Arrived(m, minTs, t); }
  }

  lemma OlderPairs(m: Graph, minTs: int, v: nat)
    ensures Pairs(Older(m, minTs), v) <= Pairs(m, v)
  {
  }

  lemma PairsAreIntro(c: set<Triple>, v: nat, pairs: set<(nat, nat)>)
    requires forall x: nat, y: nat :: (x, y) in pairs <==> PairIn(c, v, x, y)
    ensures PairsAre(c, v, pairs)
  {
  }

  lemma NewPair(m: Graph, n: nat, minTs: int, c: set<Triple>, v: nat, x: nat, y: nat)
    requires Undirected(m, n) && AllArrived(c, m, minTs)
    ensures (x, y) in Pairs(m, v) && (x, y) !in Pairs(Older(m, minTs), v) <==> PairIn(c, v, x, y)
  {
    if x != y && x != v && y != v {
      Sort3Facts(v, x, y);
      ArrivedAnyOrder(m, n, minTs, v, x, y);
    }
  }

  lemma ArrivedAnyOrder(m: Graph, n: nat, minTs: int, x: nat, y: nat, z: nat)
    requires Undirected(m, n) && x != y && y != z && x != z
    ensures Arrived(m, minTs, Sort3(x, y, z)) <==>
            Triangle(m, x, y, z) && (Recent(m, minTs, x, y) || Recent(m, minTs, y, z) || Recent(m, minTs, x, z))
  {
  }

  // ---------------------------------------------------------------- who counts a triangle

  // The recent edge {i, j} counts its triangle with u.
  predicate Counts(m: Graph, minTs: int, i: nat, j: nat, u: nat) {
    && (i, u) in m && (j, u) in m
    && var ti, tj := m[(i, u)], m[(j, u)];
    || (ti < minTs && tj < minTs)
    || (i < u && ti < minTs)
    || (j < u && tj < minTs)
    || (ti >= minTs && tj >= minTs && i < u && j < u)
  }

  function Norm(x: nat, y: nat): (nat, nat) { if x < y then (x, y) else (y, x) }

  // The one recent edge that counts a triangle: the only one; of two, the one at the smaller end
  // of the older edge; of three, the one between the two smaller corners.
  function CounterOf(m: Graph, minTs: int, t: Triple): (nat, nat) {
    var ab, bc, ac := Recent(m, minTs, t.a, t.b), Recent(m, minTs, t.b, t.c), Recent(m, minTs, t.a, t.c);
    if ab && bc && ac then (t.a, t.b)
    else if ab && bc then (t.a, t.b)
    else if ab && ac then (t.a, t.b)
    else if bc && ac then (t.a, t.c)
    else if ab then (t.a, t.b)
    else if bc then (t.b, t.c)
    else (t.a, t.c)
  }

  /** A recent edge counts a triangle exactly when it is the triangle's counter, whichever way it is given. */
  lemma CountsIsCounter(m: Graph, n: nat, minTs: int, i: nat, j: nat, u: nat)
    requires Undirected(m, n) && Recent(m, minTs, i, j) && u != i && u != j
    ensures Counts(m, minTs, i, j, u) <==> Triangle(m, i, j, u) && CounterOf(m, minTs, Sort3(i, j, u)) == Norm(i, j)
    ensures Counts(m, minTs, i, j, u) ==> Arrived(m, minTs, Sort3(i, j, u))
  {
  }

  lemma CounterRecent(m: Graph, n: nat, minTs: int, t: Triple)
    requires Undirected(m, n) && Arrived(m, minTs, t)
    ensures var e := CounterOf(m, minTs, t); e.0 < e.1 && Has(t, e.0) && Has(t, e.1) && Recent(m, minTs, e.0, e.1)
  {
  }

  // ---------------------------------------------------------------- batches

  datatype Action = Action(source: int, dest: int, time: int)

  predicate Accepted(a: Action, result: int) {
    !(result == 1 && a.source > a.dest) && a.source != a.dest && a.source >= 0 && result != 0
  }

  // The accepted actions are the recent edges, once each.
  ghost predicate BatchOk(m: Graph, minTs: int, actions: seq<Action>, results: seq<int>) {
    && |results| == |actions|
    && (forall k | 0 <= k < |actions| && Accepted(actions[k], results[k]) ::
          actions[k].dest >= 0 && Recent(m, minTs, actions[k].source, actions[k].dest))
    && (forall k, l | 0 <= k < l < |actions| && Accepted(actions[k], results[k]) && Accepted(actions[l], results[l]) &&
          actions[k].dest >= 0 && actions[l].dest >= 0 ::
          Norm(actions[k].source, actions[k].dest) != Norm(actions[l].source, actions[l].dest))
    && (forall x: nat, y: nat | Recent(m, minTs, x, y) :: Processed(actions, results, |actions|, Norm(x, y)))
  }

  // One of the first k actions brought the edge e.
  ghost predicate Processed(actions: seq<Action>, results: seq<int>, k: nat, e: (nat, nat))
    requires k <= |actions| == |results|
  {
    exists l :: 0 <= l < k && Accepted(actions[l], results[l]) && actions[l].dest >= 0 && Norm(actions[l].source, actions[l].dest) == e
  }

  lemma ProcessedNext(actions: seq<Action>, results: seq<int>, k: nat, e: (nat, nat))
    requires k < |actions| == |results|
    ensures Processed(actions, results, k + 1, e) <==>
            Processed(actions, results, k, e) || (Accepted(actions[k], results[k]) && actions[k].dest >= 0 && Norm(actions[k].source, actions[k].dest) == e)
  {
    if Processed(actions, results, k, e) {
      var l :| 0 <= l < k && Accepted(actions[l], results[l]) && actions[l].dest >= 0 && Norm(actions[l].source, actions[l].dest) == e;
      assert 0 <= l < k + 1;
    }
  }

  // ---------------------------------------------------------------- adjacency lists

  datatype Arc = Arc(to: nat, ts: int)

  // adj holds every vertex's edges, in any order, without repetition.
  ghost predicate ListsOf(adj: seq<seq<Arc>>, m: Graph) {
    && (forall v: nat, p: nat | v < |adj| && p < |adj[v]| :: (v, adj[v][p].to) in m && m[(v, adj[v][p].to)] == adj[v][p].ts)
    && (forall v: nat, p: nat, q: nat | v < |adj| && p < q < |adj[v]| :: adj[v][p].to != adj[v][q].to)
    && (forall v: nat, u: nat | (v, u) in m :: v < |adj| && Lists(adj[v], |adj[v]|, u))
  }

  // u is among the first r neighbors of the list.
  ghost predicate Lists(list: seq<Arc>, r: nat, u: nat) {
    exists p: nat :: p < r && p < |list| && list[p].to == u
  }

  lemma ListsNext(list: seq<Arc>, r: nat, u: nat)
    requires r < |list|
    ensures Lists(list, r + 1, u) <==> Lists(list, r, u) || list[r].to == u
  {
    if Lists(list, r, u) {
      var p: nat :| p < r && p < |list| && list[p].to == u;
      assert p < r + 1;
    }
  }

  // find_in_sorted, on the gathered neighbors of i.
  method FindArc(u: nat, list: seq<Arc>) returns (where: int)
    ensures where >= 0 ==> where < |list| && list[where].to == u
    ensures where < 0 ==> !Lists(list, |list|, u)
  {
    var p := 0;
    while p < |list|
      invariant 0 <= p <= |list| && !Lists(list, p, u)
    {
      if list[p].to == u { return p; }
      p := p + 1;
    }
    where := -1;
  }

  // ---------------------------------------------------------------- a recount

  // The triangles at v among the first r neighbors: the later of two adjacent ones counts the pair.
  function Partial(m: Graph, v: nat, list: seq<Arc>, r: nat): set<(nat, nat)>
    requires r <= |list|
  {
    set p | p in m && (v, p.0) in m && (v, p.1) in m && p.0 in Heads(list, r) && p.1 in Heads(list, r)
  }

  function Heads(list: seq<Arc>, r: nat): (s: set<nat>)
    requires r <= |list|
    ensures forall u :: u in s <==> exists p: nat :: p < r && list[p].to == u
  {
    if r == 0 then {} else Heads(list, r - 1) + {list[r - 1].to}
  }

  // The neighbors of w, before its q-th, that are adjacent to v and already in the set.
  function Hits(m: Graph, v: nat, w: nat, list: seq<Arc>, q: nat, seen: set<nat>): set<nat>
    requires q <= |list|
  {
    set u | u in Heads(list, q) && u != v && u in seen
  }

  lemma HitsNext(m: Graph, v: nat, w: nat, list: seq<Arc>, q: nat, seen: set<nat>)
    requires q < |list| && forall p: nat, r: nat | p < r < |list| :: list[p].to != list[r].to
    ensures |Hits(m, v, w, list, q + 1, seen)| == |Hits(m, v, w, list, q, seen)| + if list[q].to != v && list[q].to in seen then 1 else 0
  {
    var u := list[q].to;
    assert u !in Heads(list, q);
    assert Hits(m, v, w, list, q + 1, seen) == Hits(m, v, w, list, q, seen) + if u != v && u in seen then {u} else {};
  }

  function Row(w: nat, s: set<nat>): set<(nat, nat)> { set u | u in s :: (w, u) }

  function Column(w: nat, s: set<nat>): set<(nat, nat)> { set u | u in s :: (u, w) }

  lemma {:induction false} MirrorSize(w: nat, s: set<nat>)
    ensures |Row(w, s)| == |s| && |Column(w, s)| == |s|
    decreases s
  {
    if s != {} {
      var u :| u in s;
      MirrorSize(w, s - {u});
      assert Row(w, s) == Row(w, s - {u}) + {(w, u)};
      assert Column(w, s) == Column(w, s - {u}) + {(u, w)};
    }
  }

  lemma MirrorTwice(w: nat, s: set<nat>)
    requires w !in s
    ensures |Row(w, s) + Column(w, s)| == 2 * |s|
  {
    MirrorSize(w, s);
    assert Row(w, s) !! Column(w, s);
  }

  // The earlier neighbors of v that are adjacent to its r-th.
  lemma HitsAre(adj: seq<seq<Arc>>, m: Graph, n: nat, v: nat, r: nat)
    requires Undirected(m, n) && ListsOf(adj, m) && v < |adj| && r < |adj[v]|
    ensures adj[v][r].to < |adj| && (v, adj[v][r].to) in m && adj[v][r].to !in Heads(adj[v], r)
    ensures var w := adj[v][r].to;
      forall u: nat :: u in Hits(m, v, w, adj[w], |adj[w]|, Heads(adj[v], r)) <==> (w, u) in m && u in Heads(adj[v], r)
  {
    var list, w := adj[v], adj[v][r].to;
    assert (v, w) in m && (w, v) in m;
    assert Lists(adj[w], |adj[w]|, v);
    HeadsFrom(adj, m, v, r);
    forall u: nat ensures u in Hits(m, v, w, adj[w], |adj[w]|, Heads(list, r)) <==> (w, u) in m && u in Heads(list, r) {
      if (w, u) in m && u in Heads(list, r) { assert Lists(adj[w], |adj[w]|, u); }
    }
  }

  lemma PartialMember(m: Graph, n: nat, v: nat, list: seq<Arc>, r: nat, w: nat, hits: set<nat>, x: nat, y: nat)
    requires Undirected(m, n) && r < |list| && w == list[r].to && (v, w) in m && w !in Heads(list, r)
    requires forall u :: u in hits <==> (w, u) in m && u in Heads(list, r)
    requires forall u | u in Heads(list, r) :: (v, u) in m
    ensures (x, y) in Partial(m, v, list, r + 1) <==> (x, y) in Partial(m, v, list, r) || (x, y) in Row(w, hits) || (x, y) in Column(w, hits)
    ensures (x, y) in Partial(m, v, list, r) ==> (x, y) !in Row(w, hits) && (x, y) !in Column(w, hits)
  {
    assert forall u :: u in Heads(list, r + 1) <==> u in Heads(list, r) || u == w;
  }

  /** The next neighbor adds two ordered pairs for each earlier neighbor it is adjacent to. */
  lemma PartialNext(adj: seq<seq<Arc>>, m: Graph, n: nat, v: nat, r: nat)
    requires Undirected(m, n) && ListsOf(adj, m) && v < |adj| && r < |adj[v]|
    ensures adj[v][r].to < |adj|
    ensures var w := adj[v][r].to;
      |Partial(m, v, adj[v], r + 1)| == |Partial(m, v, adj[v], r)| + 2 * |Hits(m, v, w, adj[w], |adj[w]|, Heads(adj[v], r))|
  {
    HitsAre(adj, m, n, v, r);
    HeadsFrom(adj, m, v, r);
    hide *;
    var w := adj[v][r].to;
    var hits := Hits(m, v, w, adj[w], |adj[w]|, Heads(adj[v], r));
    MirrorTwice(w, hits);
    forall x: nat, y: nat
      ensures (x, y) in Partial(m, v, adj[v], r + 1) <==> (x, y) in Partial(m, v, adj[v], r) || (x, y) in Row(w, hits) + Column(w, hits)
      ensures !((x, y) in Partial(m, v, adj[v], r) && (x, y) in Row(w, hits) + Column(w, hits))
    {
      PartialMember(m, n, v, adj[v], r, w, hits, x, y);
    }
    PairSplit(Partial(m, v, adj[v], r + 1), Partial(m, v, adj[v], r), Row(w, hits) + Column(w, hits));
  }

  lemma PairSplit(after: set<(nat, nat)>, before: set<(nat, nat)>, more: set<(nat, nat)>)
    requires forall x: nat, y: nat :: (x, y) in after <==> (x, y) in before || (x, y) in more
    requires forall x: nat, y: nat :: !((x, y) in before && (x, y) in more)
    ensures |after| == |before| + |more|
  {
    forall p: (nat, nat) ensures (p in after <==> p in before || p in more) && !(p in before && p in more) { assert p == (p.0, p.1); }
    assert after == before + more;
    assert before !! more;
  }

  lemma HeadsFrom(adj: seq<seq<Arc>>, m: Graph, v: nat, r: nat)
    requires ListsOf(adj, m) && v < |adj| && r <= |adj[v]|
    ensures forall u :: u in Heads(adj[v], r) ==> (v, u) in m
  {
  }

  lemma HitsNone(m: Graph, v: nat, w: nat, list: seq<Arc>, seen: set<nat>)
    ensures |Hits(m, v, w, list, 0, seen)| == 0
  {
    assert Hits(m, v, w, list, 0, seen) == {};
  }

  lemma PartialEnds(adj: seq<seq<Arc>>, m: Graph, n: nat, v: nat)
    requires Undirected(m, n) && ListsOf(adj, m) && v < |adj|
    ensures Partial(m, v, adj[v], 0) == {} && Partial(m, v, adj[v], |adj[v]|) == Pairs(m, v)
  {
    forall p | p in Pairs(m, v) ensures p in Partial(m, v, adj[v], |adj[v]|) {
      assert Lists(adj[v], |adj[v]|, p.0) && Lists(adj[v], |adj[v]|, p.1);
    }
  }

  lemma ArcsBelow(adj: seq<seq<Arc>>, m: Graph, n: nat, v: nat)
    requires Undirected(m, n) && ListsOf(adj, m) && v < |adj|
    ensures forall p: nat | p < |adj[v]| :: adj[v][p].to < n && adj[v][p].to < |adj|
    ensures forall p: nat, q: nat | p < q < |adj[v]| :: adj[v][p].to != adj[v][q].to
  {
    forall p: nat | p < |adj[v]| ensures adj[v][p].to < n && adj[v][p].to < |adj| {
      assert (v, adj[v][p].to) in m && (adj[v][p].to, v) in m;
    }
  }

  /** count_triangles: with the set of earlier neighbors, the number of ordered pairs. */
  method CountTriangles(adj: seq<seq<Arc>>, ghost m: Graph, ghost n: nat, v: nat) returns (triangles: nat)
    requires Undirected(m, n) && ListsOf(adj, m) && v < |adj|
    ensures triangles == |Pairs(m, v)|
  {
    hide *;
    ArcsBelow(adj, m, n, v);
    PartialEnds(adj, m, n, v);
    var count, ht: set<nat> := 0, {};
    var r := 0;
    while r < |adj[v]|
      invariant 0 <= r <= |adj[v]| && ht == Heads(adj[v], r)
      invariant 2 * count == |Partial(m, v, adj[v], r)|
    {
      var neigh := adj[v][r].to;
      PartialNext(adj, m, n, v, r);
      ArcsBelow(adj, m, n, neigh);
      HitsNone(m, v, neigh, adj[neigh], ht);
      ghost var count0 := count;
      var q := 0;
      while q < |adj[neigh]|
        invariant 0 <= q <= |adj[neigh]| && count == count0 + |Hits(m, v, neigh, adj[neigh], q, ht)|
      {
        HitsNext(m, v, neigh, adj[neigh], q, ht);
        if adj[neigh][q].to != v {
          if adj[neigh][q].to in ht { count := count + 1; }
        }
        q := q + 1;
      }
      HeadsNext(adj[v], r);
      ht := ht + {neigh};
      r := r + 1;
    }
    triangles := count * 2;
  }

  lemma HeadsNext(list: seq<Arc>, r: nat)
    requires r < |list|
    ensures Heads(list, r + 1) == Heads(list, r) + {list[r].to} && Heads(list, 0) == {}
  {
  }

  lemma NoNeighbors(adj: seq<seq<Arc>>, m: Graph, n: nat, v: nat)
    requires Undirected(m, n) && ListsOf(adj, m) && v < |adj| && adj[v] == []
    ensures Pairs(m, v) == {}
  {
    PartialEnds(adj, m, n, v);
  }

  /** count_all_triangles. */
  method CountAllTriangles(adj: seq<seq<Arc>>, ghost m: Graph, triangles: array<int>)
    requires Undirected(m, |adj|) && ListsOf(adj, m) && triangles.Length == |adj|
    modifies triangles
    ensures forall v | 0 <= v < |adj| :: triangles[v] == |Pairs(m, v)|
  {
    hide *;
    var v := 0;
    while v < |adj|
      invariant 0 <= v <= |adj|
      invariant forall u | 0 <= u < v :: triangles[u] == |Pairs(m, u)|
    {
      if |adj[v]| != 0 {
        triangles[v] := CountTriangles(adj, m, |adj|, v);
      } else {
        NoNeighbors(adj, m, |adj|, v);
        triangles[v] := 0;
      }
      v := v + 1;
    }
  }

  // ---------------------------------------------------------------- the update

  // The triangles counted when k actions are done, and r neighbors of the next one's target.
  ghost predicate Counted(m: Graph, minTs: int, actions: seq<Action>, results: seq<int>, adj: seq<seq<Arc>>, k: nat, r: nat, c: set<Triple>)
    requires k <= |actions| == |results|
  {
    forall t :: t in c <==> CountedBy(m, minTs, actions, results, adj, k, r, t)
  }

  ghost predicate CountedBy(m: Graph, minTs: int, actions: seq<Action>, results: seq<int>, adj: seq<seq<Arc>>, k: nat, r: nat, t: Triple)
    requires k <= |actions| == |results|
  {
    && Arrived(m, minTs, t)
    && var e := CounterOf(m, minTs, t);
    || Processed(actions, results, k, e)
    || (k < |actions| && actions[k].source >= 0 && 0 <= actions[k].dest < |adj| && e == Norm(actions[k].source, actions[k].dest)
        && Third(adj[actions[k].dest], r, t, e))
  }

  // The corner opposite e is among the first r neighbors.
  ghost predicate Third(list: seq<Arc>, r: nat, t: Triple, e: (nat, nat)) {
    exists u: nat :: Lists(list, r, u) && Has(t, u) && u != e.0 && u != e.1
  }

  lemma CountedNone(m: Graph, minTs: int, actions: seq<Action>, results: seq<int>, adj: seq<seq<Arc>>)
    requires |actions| == |results|
    ensures Counted(m, minTs, actions, results, adj, 0, 0, {})
  {
  }

  lemma ArrivedCorners(m: Graph, n: nat, minTs: int, t: Triple, x: nat, y: nat, u: nat)
    requires Arrived(m, minTs, t) && x != y && u != x && u != y && Has(t, x) && Has(t, y) && Has(t, u)
    ensures t == Sort3(x, y, u)
  {
  }

  lemma FreshEdge(m: Graph, minTs: int, actions: seq<Action>, results: seq<int>, k: nat)
    requires BatchOk(m, minTs, actions, results) && k < |actions| && Accepted(actions[k], results[k])
    ensures actions[k].source >= 0 && actions[k].dest >= 0 && Recent(m, minTs, actions[k].source, actions[k].dest)
    ensures !Processed(actions, results, k, Norm(actions[k].source, actions[k].dest))
  {
  }

  lemma ListsFresh(adj: seq<seq<Arc>>, m: Graph, n: nat, j: nat, r: nat)
    requires Undirected(m, n) && ListsOf(adj, m) && j < |adj| && r < |adj[j]|
    ensures !Lists(adj[j], r, adj[j][r].to) && (j, adj[j][r].to) in m && adj[j][r].to != j && adj[j][r].to < n
  {
    assert (j, adj[j][r].to) in m;
  }

  // What the next neighbor changes about one triangle.
  lemma CountedStep(m: Graph, n: nat, minTs: int, actions: seq<Action>, results: seq<int>, adj: seq<seq<Arc>>, k: nat, r: nat, s: Triple,
                    i: nat, j: nat, u: nat)
    requires Undirected(m, n) && k < |actions| == |results| && actions[k].source == i && actions[k].dest == j && Recent(m, minTs, i, j)
    requires j < |adj| && r < |adj[j]| && u == adj[j][r].to
    ensures CountedBy(m, minTs, actions, results, adj, k, r + 1, s) <==>
            CountedBy(m, minTs, actions, results, adj, k, r, s) || (u != i && u != j && Counts(m, minTs, i, j, u) && s == Sort3(i, j, u))
  {
    var e := CounterOf(m, minTs, s);
    if Arrived(m, minTs, s) && e == Norm(i, j) {
      CounterRecent(m, n, minTs, s);
      ThirdNext(adj[j], r, s, e);
      if u != i && u != j {
        CountsIsCounter(m, n, minTs, i, j, u);
        Sort3Facts(i, j, u);
        if Has(s, u) {
          ArrivedCorners(m, n, minTs, s, i, j, u);
          ArrivedAnyOrder(m, n, minTs, i, j, u);
        }
      }
    } else if u != i && u != j && Counts(m, minTs, i, j, u) {
      CountsIsCounter(m, n, minTs, i, j, u);
    }
    hide Arrived, CounterOf, Counts, Sort3, Processed, Recent, Third, Undirected;
  }

  lemma ThirdNext(list: seq<Arc>, r: nat, t: Triple, e: (nat, nat))
    requires r < |list|
    ensures Third(list, r + 1, t, e) <==>
            Third(list, r, t, e) || (Has(t, list[r].to) && list[r].to != e.0 && list[r].to != e.1)
  {
    if Third(list, r, t, e) {
      var u: nat :| Lists(list, r, u) && Has(t, u) && u != e.0 && u != e.1;
      ListsNext(list, r, u);
    }
    if Third(list, r + 1, t, e) {
      var u: nat :| Lists(list, r + 1, u) && Has(t, u) && u != e.0 && u != e.1;
      ListsNext(list, r, u);
    }
    ListsNext(list, r, list[r].to);
  }

  lemma NotYet(m: Graph, n: nat, minTs: int, actions: seq<Action>, results: seq<int>, adj: seq<seq<Arc>>, k: nat, r: nat, i: nat, j: nat, u: nat)
    requires Undirected(m, n) && k < |actions| == |results| && actions[k].source == i && actions[k].dest == j && Recent(m, minTs, i, j)
    requires j < |adj| && r < |adj[j]| && u == adj[j][r].to && u != i && u != j && Counts(m, minTs, i, j, u)
    requires !Processed(actions, results, k, Norm(i, j)) && !Lists(adj[j], r, u)
    ensures !CountedBy(m, minTs, actions, results, adj, k, r, Sort3(i, j, u))
  {
    CountsIsCounter(m, n, minTs, i, j, u);
    Sort3Facts(i, j, u);
    hide Arrived, CounterOf, Counts, Sort3, Processed, Recent, Undirected, Lists;
  }

  /** The edge of action k and the r-th neighbor u of its target: their triangle is counted here, and was not before. */
  lemma CountedNext(m: Graph, n: nat, minTs: int, actions: seq<Action>, results: seq<int>, adj: seq<seq<Arc>>, k: nat, r: nat, c: set<Triple>,
                    i: nat, j: nat, u: nat)
    requires Undirected(m, n) && BatchOk(m, minTs, actions, results) && k < |actions| && Accepted(actions[k], results[k])
    requires actions[k].source == i && actions[k].dest == j && j < |adj| && ListsOf(adj, m) && r < |adj[j]| && u == adj[j][r].to
    requires |actions| == |results| && Counted(m, minTs, actions, results, adj, k, r, c)
    ensures if u != i && u != j && Counts(m, minTs, i, j, u)
            then Sort3(i, j, u) !in c && Counted(m, minTs, actions, results, adj, k, r + 1, c + {Sort3(i, j, u)})
            else Counted(m, minTs, actions, results, adj, k, r + 1, c)
  {
    FreshEdge(m, minTs, actions, results, k);
    ListsFresh(adj, m, n, j, r);
    forall s {
      CountedStep(m, n, minTs, actions, results, adj, k, r, s, i, j, u);
    }
    if u != i && u != j && Counts(m, minTs, i, j, u) { NotYet(m, n, minTs, actions, results, adj, k, r, i, j, u); }
    hide CountedBy, Counts, Sort3, BatchOk, ListsOf, Undirected, Accepted;
  }

  // An action is done.
  lemma CountedDone(m: Graph, n: nat, minTs: int, actions: seq<Action>, results: seq<int>, adj: seq<seq<Arc>>, k: nat, c: set<Triple>, j: nat)
    requires Undirected(m, n) && BatchOk(m, minTs, actions, results) && k < |actions| == |results| && ListsOf(adj, m)
    requires Accepted(actions[k], results[k]) && actions[k].dest == j && j < |adj|
    requires Counted(m, minTs, actions, results, adj, k, |adj[j]|, c)
    ensures Counted(m, minTs, actions, results, adj, k + 1, 0, c)
  {
    FreshEdge(m, minTs, actions, results, k);
    forall s ensures CountedBy(m, minTs, actions, results, adj, k + 1, 0, s) <==> CountedBy(m, minTs, actions, results, adj, k, |adj[j]|, s) {
      var e := CounterOf(m, minTs, s);
      ProcessedNext(actions, results, k, e);
      if Arrived(m, minTs, s) && e == Norm(actions[k].source, j) {
        CornerListed(m, n, minTs, adj, s, actions[k].source, j);
      }
      hide Processed, Arrived, CounterOf, BatchOk, ListsOf, Undirected;
    }
  }

  lemma CornerListed(m: Graph, n: nat, minTs: int, adj: seq<seq<Arc>>, t: Triple, i: nat, j: nat)
    requires Undirected(m, n) && ListsOf(adj, m) && Arrived(m, minTs, t) && CounterOf(m, minTs, t) == Norm(i, j) && i != j && j < |adj|
    ensures Third(adj[j], |adj[j]|, t, Norm(i, j))
  {
    CounterRecent(m, n, minTs, t);
    var u := if t.a != i && t.a != j then t.a else if t.b != i && t.b != j then t.b else t.c;
    assert (j, u) in m;
    assert Lists(adj[j], |adj[j]|, u);
  }

  lemma CountedSkip(m: Graph, minTs: int, actions: seq<Action>, results: seq<int>, adj: seq<seq<Arc>>, k: nat, c: set<Triple>)
    requires k < |actions| == |results| && Counted(m, minTs, actions, results, adj, k, 0, c) && !Accepted(actions[k], results[k])
    ensures Counted(m, minTs, actions, results, adj, k + 1, 0, c)
  {
    forall s ensures CountedBy(m, minTs, actions, results, adj, k + 1, 0, s) <==> CountedBy(m, minTs, actions, results, adj, k, 0, s) {
      ProcessedNext(actions, results, k, CounterOf(m, minTs, s));
    }
  }

  /** After the last action every triangle that arrived has been counted. */
  lemma CountedAll(m: Graph, n: nat, minTs: int, actions: seq<Action>, results: seq<int>, adj: seq<seq<Arc>>, c: set<Triple>)
    requires Undirected(m, n) && BatchOk(m, minTs, actions, results) && |actions| == |results|
    requires Counted(m, minTs, actions, results, adj, |actions|, 0, c)
    ensures AllArrived(c, m, minTs)
  {
    forall t ensures t in c <==> Arrived(m, minTs, t) {
      if Arrived(m, minTs, t) {
        CounterRecent(m, n, minTs, t);
        var e := CounterOf(m, minTs, t);
        assert Processed(actions, results, |actions|, Norm(e.0, e.1));
      }
      assert t in c <==> CountedBy(m, minTs, actions, results, adj, |actions|, 0, t);
    }
  }

  // ntri has two for every counted triangle at a vertex; i and j get theirs at the end of an action.
  ghost predicate Tally(ntri: seq<int>, base: seq<int>, c: set<Triple>, i: int, j: int, incr: int) {
    && |ntri| == |base|
    && forall v: nat | v < |base| :: ntri[v] == base[v] + 2 * |At(c, v)| - if v == i || v == j then 2 * incr else 0
  }

  lemma TallyNext(ntri: seq<int>, base: seq<int>, c: set<Triple>, i: nat, j: nat, incr: int, u: nat)
    requires Tally(ntri, base, c, i, j, incr) && i != j && u != i && u != j && u < |ntri| && Sort3(i, j, u) !in c
    ensures Tally(ntri[u := ntri[u] + 2], base, c + {Sort3(i, j, u)}, i, j, incr + 1)
    ensures Sizes.Sum(ntri[u := ntri[u] + 2]) == Sizes.Sum(ntri) + 2
  {
    Sort3Facts(i, j, u);
    forall v: nat | v < |base| { AtAdd(c, Sort3(i, j, u), v); }
    Sizes.SumSet(ntri, u, ntri[u] + 2);
    hide Sort3, At;
  }

  lemma TallyDone(ntri: seq<int>, base: seq<int>, c: set<Triple>, i: nat, j: nat, incr: int)
    requires Tally(ntri, base, c, i, j, incr) && i != j && i < |ntri| && j < |ntri|
    ensures var ntri' := ntri[i := ntri[i] + 2 * incr][j := ntri[j] + 2 * incr];
      Tally(ntri', base, c, -1, -1, 0) && Sizes.Sum(ntri') == Sizes.Sum(ntri) + 4 * incr
  {
    var ntri1 := ntri[i := ntri[i] + 2 * incr];
    Sizes.SumSet(ntri, i, ntri[i] + 2 * incr);
    Sizes.SumSet(ntri1, j, ntri1[j] + 2 * incr);
    hide At, Sizes.Sum;
  }

  lemma TallyStarts(ntri: seq<int>, base: seq<int>, c: set<Triple>, i: int, j: int)
    requires Tally(ntri, base, c, -1, -1, 0)
    ensures Tally(ntri, base, c, i, j, 0)
  {
    hide At;
  }

  // The branches for one common neighbor, on its two stamps.
  method CountsHere(i: nat, j: nat, u: nat, ti: int, tj: int, minTs: int) returns (count: bool)
    ensures count <==> (ti < minTs && tj < minTs) || (i < u && ti < minTs) || (j < u && tj < minTs) || (ti >= minTs && tj >= minTs && i < u && j < u)
  {
    count := false;
    if ti < minTs && tj < minTs {
      count := true;
    } else if i < u && ti < minTs {
      count := true;
    } else if j < u && tj < minTs {
      count := true;
    } else if ti >= minTs && tj >= minTs {
      if i < u && j < u { count := true; }
    }
  }

  lemma CountsFound(adj: seq<seq<Arc>>, m: Graph, n: nat, minTs: int, i: nat, j: nat, r: nat, where: int)
    requires Undirected(m, n) && ListsOf(adj, m) && i < |adj| && j < |adj| && r < |adj[j]|
    requires where >= 0 ==> where < |adj[i]| && adj[i][where].to == adj[j][r].to
    requires where < 0 ==> !Lists(adj[i], |adj[i]|, adj[j][r].to)
    ensures var u := adj[j][r].to;
      && u != j && u < n && (where >= 0 ==> u != i)
      && (where < 0 ==> !Counts(m, minTs, i, j, u))
      && (where >= 0 ==> (i, u) in m && (j, u) in m && m[(i, u)] == adj[i][where].ts && m[(j, u)] == adj[j][r].ts)
  {
    var u := adj[j][r].to;
    ListsFresh(adj, m, n, j, r);
    if where >= 0 { assert (i, adj[i][where].to) in m; }
  }

  // One accepted action.
  method CountEdge(adj: seq<seq<Arc>>, ghost m: Graph, minTs: int, actions: seq<Action>, ghost results: seq<int>, k: nat, ntri: array<int>,
                   ghost base: seq<int>, ghost c0: set<Triple>, globalNtri: int) returns (global': int, ghost c: set<Triple>)
    requires Undirected(m, |adj|) && BatchOk(m, minTs, actions, results) && k < |actions| == |results| && ListsOf(adj, m)
    requires Accepted(actions[k], results[k]) && ntri.Length == |adj|
    requires Counted(m, minTs, actions, results, adj, k, 0, c0) && Tally(ntri[..], base, c0, -1, -1, 0) && globalNtri == Sizes.Sum(ntri[..])
    modifies ntri
    ensures Counted(m, minTs, actions, results, adj, k + 1, 0, c) && Tally(ntri[..], base, c, -1, -1, 0) && global' == Sizes.Sum(ntri[..])
  {
    hide *;
    FreshEdge(m, minTs, actions, results, k);
    ActionEnds(m, |adj|, minTs, actions, results, k);
    var i: nat, j: nat := actions[k].source, actions[k].dest;
    var incr := 0;
    c := c0;
    TallyStarts(ntri[..], base, c, i, j);
    var k2 := 0;
    while k2 < |adj[j]|
      invariant 0 <= k2 <= |adj[j]| && Counted(m, minTs, actions, results, adj, k, k2, c)
      invariant Tally(ntri[..], base, c, i, j, incr) && Sizes.Sum(ntri[..]) == globalNtri + 2 * incr
    {
      var u := adj[j][k2].to;
      var where := FindArc(u, adj[i]);
      CountsFound(adj, m, |adj|, minTs, i, j, k2, where);
      CountedNext(m, |adj|, minTs, actions, results, adj, k, k2, c, i, j, u);
      if where >= 0 {
        CountsIs(m, minTs, i, j, u);
        var count := CountsHere(i, j, u, adj[i][where].ts, adj[j][k2].ts, minTs);
        if count {
          TallyNext(ntri[..], base, c, i, j, incr, u);
          incr := incr + 1;
          ntri[u] := ntri[u] + 2;
          c := c + {Sort3(i, j, u)};
        }
      }
      k2 := k2 + 1;
    }
    TallyDone(ntri[..], base, c, i, j, incr);
    CountedDone(m, |adj|, minTs, actions, results, adj, k, c, j);
    ntri[i] := ntri[i] + 2 * incr;
    ntri[j] := ntri[j] + 2 * incr;
    global' := globalNtri + 6 * incr;
  }

  lemma CountsIs(m: Graph, minTs: int, i: nat, j: nat, u: nat)
    requires (i, u) in m && (j, u) in m
    ensures Counts(m, minTs, i, j, u) <==>
            (m[(i, u)] < minTs && m[(j, u)] < minTs) || (i < u && m[(i, u)] < minTs) || (j < u && m[(j, u)] < minTs)
            || (m[(i, u)] >= minTs && m[(j, u)] >= minTs && i < u && j < u)
  {
  }

  lemma ActionEnds(m: Graph, n: nat, minTs: int, actions: seq<Action>, results: seq<int>, k: nat)
    requires Undirected(m, n) && k < |actions| && actions[k].source >= 0 && actions[k].dest >= 0
    requires Recent(m, minTs, actions[k].source, actions[k].dest)
    ensures actions[k].source < n && actions[k].dest < n && actions[k].source != actions[k].dest
  {
  }

  // The least time of a batch.
  function MinTime(actions: seq<Action>): int {
    if actions == [] then 0x7fff_ffff_ffff_ffff
    else
      var rest := MinTime(actions[..|actions| - 1]);
      if actions[|actions| - 1].time < rest then actions[|actions| - 1].time else rest
  }

  /**
   The update after a batch of insertions: counts of the older graph become counts of the new one,
   for every vertex, and their sum follows.
   */
  method AfterBatch(adj: seq<seq<Arc>>, ghost m: Graph, actions: seq<Action>, results: seq<int>, ntri: array<int>, globalNtri: int) returns (global': int)
    requires Undirected(m, |adj|) && ListsOf(adj, m) && ntri.Length == |adj|
    requires BatchOk(m, MinTime(actions), actions, results)
    requires forall v | 0 <= v < |adj| :: ntri[v] == |Pairs(Older(m, MinTime(actions)), v)|
    requires globalNtri == Sizes.Sum(ntri[..])
    modifies ntri
    ensures forall v | 0 <= v < |adj| :: ntri[v] == |Pairs(m, v)|
    ensures global' == Sizes.Sum(ntri[..])
  {
    ghost var base := ntri[..];
    BatchSize(m, MinTime(actions), actions, results);
    hide *;
    var minTs := FindMinTime(actions);
    global' := globalNtri;
    ghost var c: set<Triple> := {};
    CountedNone(m, minTs, actions, results, adj);
    TallyNone(base);
    var k := 0;
    while k < |actions|
      invariant 0 <= k <= |actions|
      invariant Counted(m, minTs, actions, results, adj, k, 0, c) && Tally(ntri[..], base, c, -1, -1, 0) && global' == Sizes.Sum(ntri[..])
    {
      if Accepted(actions[k], results[k]) {
        global', c := CountEdge(adj, m, minTs, actions, results, k, ntri, base, c, global');
      } else {
        CountedSkip(m, minTs, actions, results, adj, k, c);
      }
      k := k + 1;
    }
    CountedAll(m, |adj|, minTs, actions, results, adj, c);
    forall v: nat | v < |adj| ensures ntri[v] == |Pairs(m, v)| {
      PairsGrow(m, |adj|, minTs, c, v);
      TallyAt(ntri[..], base, c, v);
      assert ntri[..][v] == ntri[v];
    }
  }

  lemma BatchSize(m: Graph, minTs: int, actions: seq<Action>, results: seq<int>)
    requires BatchOk(m, minTs, actions, results)
    ensures |results| == |actions|
  {
  }

  lemma TallyNone(base: seq<int>)
    ensures Tally(base, base, {}, -1, -1, 0)
  {
    forall v: nat | v < |base| ensures |At({}, v)| == 0 { assert At({}, v) == {}; }
  }

  lemma TallyAt(ntri: seq<int>, base: seq<int>, c: set<Triple>, v: nat)
    requires Tally(ntri, base, c, -1, -1, 0) && v < |base|
    ensures |ntri| == |base| && ntri[v] == base[v] + 2 * |At(c, v)|
  {
  }

  method FindMinTime(actions: seq<Action>) returns (minTs: int)
    ensures minTs == MinTime(actions)
  {
    minTs := 0x7fff_ffff_ffff_ffff;
    var k := 0;
    while k < |actions|
      invariant 0 <= k <= |actions| && minTs == MinTime(actions[..k])
    {
      assert actions[..k + 1][..k] == actions[..k];
      if actions[k].time < minTs { minTs := actions[k].time; }
      k := k + 1;
    }
    assert actions[..|actions|] == actions;
  }

  // ---------------------------------------------------------------- where batches come from

  // The store after inserting the first k actions as pairs: a known edge keeps its time.
  function Inserts(m: Graph, actions: seq<Action>, k: nat): Graph
    requires k <= |actions|
  {
    if k == 0 then m
    else InsertOne(Inserts(m, actions, k - 1), actions[k - 1])
  }

  // What pair insertion returns: -1 for a loop, 0 for a known edge, 3 for a new one.
  function ResultOf(m: Graph, a: Action): int {
    if a.source < 0 || a.dest < 0 || a.source == a.dest then -1 else if (a.source, a.dest) in m then 0 else 3
  }

  predicate InsertsOnly(actions: seq<Action>, n: nat) {
    forall k | 0 <= k < |actions| :: 0 <= actions[k].source < n && 0 <= actions[k].dest < n
  }

  ghost predicate ResultsOf(m: Graph, actions: seq<Action>, results: seq<int>) {
    |results| == |actions| && forall k: nat | k < |actions| :: results[k] == ResultOf(Inserts(m, actions, k), actions[k])
  }

  // The least time is that of some action.
  lemma {:induction false} MinTimeAttained(actions: seq<Action>) returns (k: nat)
    requires actions != [] && forall l | 0 <= l < |actions| :: actions[l].time <= 0x7fff_ffff_ffff_ffff
    ensures k < |actions| && actions[k].time == MinTime(actions)
  {
    var n := |actions| - 1;
    assert n == 0 ==> actions[..n] == [];
    if MinTime(actions) == actions[n].time { k := n; } else { k := MinTimeAttained(actions[..n]); }
  }

  lemma {:induction false} MinTimeLeast(actions: seq<Action>, k: nat)
    requires k < |actions|
    ensures MinTime(actions) <= actions[k].time
  {
    if k < |actions| - 1 { MinTimeLeast(actions[..|actions| - 1], k); }
  }

  lemma {:induction false} InsertsUndirected(m: Graph, actions: seq<Action>, n: nat, k: nat)
    requires Undirected(m, n) && InsertsOnly(actions, n) && k <= |actions|
    ensures Undirected(Inserts(m, actions, k), n)
  {
    if k > 0 { InsertsUndirected(m, actions, n, k - 1); }
  }

  function InsertOne(m: Graph, a: Action): Graph {
    if a.source < 0 || a.dest < 0 || a.source == a.dest || (a.source, a.dest) in m then m
    else m[(a.source, a.dest) := a.time][(a.dest, a.source) := a.time]
  }

  lemma InsertOneChanges(m: Graph, a: Action, n: nat, minTs: int, x: nat, y: nat)
    requires Undirected(m, n) && 0 <= a.source < n && 0 <= a.dest < n && a.time >= minTs
    ensures Recent(InsertOne(m, a), minTs, x, y) <==>
            Recent(m, minTs, x, y) || (Accepted(a, ResultOf(m, a)) && a.dest >= 0 && Norm(a.source, a.dest) == Norm(x, y))
    ensures (x, y) in InsertOne(m, a) && !Recent(InsertOne(m, a), minTs, x, y) <==> (x, y) in m && !Recent(m, minTs, x, y)
    ensures (x, y) in m ==> (x, y) in InsertOne(m, a) && InsertOne(m, a)[(x, y)] == m[(x, y)]
  {
  }

  // What the batch has changed after k actions.
  lemma {:induction false} InsertsSince(m: Graph, actions: seq<Action>, results: seq<int>, n: nat, minTs: int, k: nat, x: nat, y: nat)
    requires |actions| == |results|
    requires Undirected(m, n) && InsertsOnly(actions, n) && ResultsOf(m, actions, results) && k <= |actions|
    requires (forall p | p in m :: m[p] < minTs) && forall l | 0 <= l < |actions| :: actions[l].time >= minTs
    ensures Recent(Inserts(m, actions, k), minTs, x, y) <==> Processed(actions, results, k, Norm(x, y))
    ensures (x, y) in Inserts(m, actions, k) && !Recent(Inserts(m, actions, k), minTs, x, y) <==> (x, y) in m
    ensures (x, y) in m ==> (x, y) in Inserts(m, actions, k) && Inserts(m, actions, k)[(x, y)] == m[(x, y)]
  {
    if k == 0 {
      assert (x, y) in m ==> m[(x, y)] < minTs;
    } else {
      InsertsSince(m, actions, results, n, minTs, k - 1, x, y);
      InsertsUndirected(m, actions, n, k - 1);
      hide *;
      ProcessedNext(actions, results, k - 1, Norm(x, y));
      InsertsNext(m, actions, results, n, k - 1);
      InsertOneChanges(Inserts(m, actions, k - 1), actions[k - 1], n, minTs, x, y);
    }
  }

  lemma InsertsNext(m: Graph, actions: seq<Action>, results: seq<int>, n: nat, k: nat)
    requires InsertsOnly(actions, n) && ResultsOf(m, actions, results) && k < |actions|
    ensures |results| == |actions| && 0 <= actions[k].source < n && 0 <= actions[k].dest < n
    ensures Inserts(m, actions, k + 1) == InsertOne(Inserts(m, actions, k), actions[k])
    ensures results[k] == ResultOf(Inserts(m, actions, k), actions[k])
  {
  }

  /** Inserting a batch of pairs into an undirected graph of older edges makes a batch as the update expects it. */
  lemma InsertsMakeBatch(m: Graph, actions: seq<Action>, results: seq<int>, n: nat)
    requires Undirected(m, n) && InsertsOnly(actions, n) && ResultsOf(m, actions, results)
    requires forall p | p in m :: m[p] < MinTime(actions)
    ensures var m' := Inserts(m, actions, |actions|);
      Undirected(m', n) && BatchOk(m', MinTime(actions), actions, results) && Older(m', MinTime(actions)) == m
  {
    var minTs, m' := MinTime(actions), Inserts(m, actions, |actions|);
    forall l | 0 <= l < |actions| ensures actions[l].time >= minTs { MinTimeLeast(actions, l); }
    InsertsUndirected(m, actions, n, |actions|);
    BatchFromInserts(m, actions, results, n, minTs);
    forall p ensures (p in Older(m', minTs) <==> p in m) && (p in m ==> p in m' && m'[p] == m[p]) {
      InsertsSince(m, actions, results, n, minTs, |actions|, p.0, p.1);
      assert p == (p.0, p.1);
    }
    hide Inserts, BatchOk, InsertsOnly, ResultsOf, Undirected;
  }

  lemma BatchFromInserts(m: Graph, actions: seq<Action>, results: seq<int>, n: nat, minTs: int)
    requires Undirected(m, n) && InsertsOnly(actions, n) && ResultsOf(m, actions, results)
    requires (forall p | p in m :: m[p] < minTs) && forall l | 0 <= l < |actions| :: actions[l].time >= minTs
    ensures BatchOk(Inserts(m, actions, |actions|), minTs, actions, results)
  {
    var m' := Inserts(m, actions, |actions|);
    assert |results| == |actions| && forall k | 0 <= k < |actions| :: actions[k].source >= 0 && actions[k].dest >= 0;
    forall k: nat | k < |actions| && Accepted(actions[k], results[k])
      ensures Recent(m', minTs, actions[k].source, actions[k].dest)
    {
      InsertsSince(m, actions, results, n, minTs, |actions|, actions[k].source, actions[k].dest);
      assert Processed(actions, results, |actions|, Norm(actions[k].source, actions[k].dest));
    }
    forall k: nat, l: nat | k < l < |actions| && Accepted(actions[k], results[k]) && Accepted(actions[l], results[l])
      ensures Norm(actions[k].source, actions[k].dest) != Norm(actions[l].source, actions[l].dest)
    {
      OnceOnly(m, actions, results, n, minTs, k, l);
    }
    forall x: nat, y: nat | Recent(m', minTs, x, y) ensures Processed(actions, results, |actions|, Norm(x, y)) {
      InsertsSince(m, actions, results, n, minTs, |actions|, x, y);
    }
    hide Inserts, Processed, Accepted, Norm, Recent, Undirected, ResultsOf;
  }

  lemma OnceOnly(m: Graph, actions: seq<Action>, results: seq<int>, n: nat, minTs: int, k: nat, l: nat)
    requires Undirected(m, n) && InsertsOnly(actions, n) && ResultsOf(m, actions, results) && k < l < |actions|
    requires (forall p | p in m :: m[p] < minTs) && forall l | 0 <= l < |actions| :: actions[l].time >= minTs
    requires Accepted(actions[k], results[k]) && Accepted(actions[l], results[l])
    ensures Norm(actions[k].source, actions[k].dest) != Norm(actions[l].source, actions[l].dest)
  {
    assert results[l] == ResultOf(Inserts(m, actions, l), actions[l]);
    InsertsSince(m, actions, results, n, minTs, l, actions[l].source, actions[l].dest);
    hide Inserts;
  }
}
