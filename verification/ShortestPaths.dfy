/**
 Walks in a graph given by adjacency lists: the reference for distances and for numbers of
 shortest paths, and what a breadth-first search's levels and counts must satisfy to meet it.
 */
module ShortestPaths {
  predicate Proper(adj: seq<seq<nat>>) {
    && (forall u, p | 0 <= u < |adj| && 0 <= p < |adj[u]| :: adj[u][p] < |adj|)
    && (forall u, p, q | 0 <= u < |adj| && 0 <= p < q < |adj[u]| :: adj[u][p] != adj[u][q])
  }

  ghost predicate Undirected(adj: seq<seq<nat>>) {
    Proper(adj) && forall u: nat, v: nat | u < |adj| && v < |adj| :: v in adj[u] <==> u in adj[v]
  }

  // How many walks of n edges lead from root to v; a walk's last edge comes from some u.
  function Walks(adj: seq<seq<nat>>, root: nat, v: nat, n: nat): nat
    decreases n, 0
  {
    if n == 0 then (if v == root then 1 else 0) else WalksFrom(adj, root, v, n - 1, |adj|)
  }

  // Those of n + 1 edges whose last edge comes from a vertex below k.
  function WalksFrom(adj: seq<seq<nat>>, root: nat, v: nat, n: nat, k: nat): nat
    requires k <= |adj|
    decreases n, 1 + k
  {
    if k == 0 then 0
    else WalksFrom(adj, root, v, n, k - 1) + if v in adj[k - 1] then Walks(adj, root, k - 1, n) else 0
  }

  // d is the number of edges of a shortest walk from root to v.
  ghost predicate IsDistance(adj: seq<seq<nat>>, root: nat, v: nat, d: nat) {
    Walks(adj, root, v, d) > 0 && forall m: nat | m < d :: Walks(adj, root, v, m) == 0
  }

  ghost predicate Reachable(adj: seq<seq<nat>>, root: nat, v: nat) {
    exists n: nat :: Walks(adj, root, v, n) > 0
  }

  lemma {:induction false} WalksFromPositive(adj: seq<seq<nat>>, root: nat, v: nat, n: nat, k: nat, u: nat)
    requires u < k <= |adj| && v in adj[u]
    ensures WalksFrom(adj, root, v, n, k) >= Walks(adj, root, u, n)
  {
    if u < k - 1 { WalksFromPositive(adj, root, v, n, k - 1, u); }
  }

  lemma WalkOn(adj: seq<seq<nat>>, root: nat, u: nat, v: nat, n: nat)
    requires u < |adj| && v in adj[u]
    ensures Walks(adj, root, v, n + 1) >= Walks(adj, root, u, n)
  {
    WalksFromPositive(adj, root, v, n, |adj|, u);
  }

  lemma {:induction false} WalksFromWitness(adj: seq<seq<nat>>, root: nat, v: nat, n: nat, k: nat) returns (u: nat)
    requires k <= |adj| && WalksFrom(adj, root, v, n, k) > 0
    ensures u < k && v in adj[u] && Walks(adj, root, u, n) > 0
  {
    if WalksFrom(adj, root, v, n, k - 1) > 0 { u := WalksFromWitness(adj, root, v, n, k - 1); } else { u := k - 1; }
  }

  // A walk of n + 1 edges has a last edge.
  lemma WalkBack(adj: seq<seq<nat>>, root: nat, v: nat, n: nat) returns (u: nat)
    requires Walks(adj, root, v, n + 1) > 0
    ensures u < |adj| && v in adj[u] && Walks(adj, root, u, n) > 0
  {
    u := WalksFromWitness(adj, root, v, n, |adj|);
  }

  // ---------------------------------------------------------------- sums over parents

  // The counts of the vertices in a list of parents.
  function SumOf(paths: seq<int>, parents: seq<nat>): int
    requires forall p | 0 <= p < |parents| :: parents[p] < |paths|
  {
    if parents == [] then 0 else SumOf(paths, parents[..|parents| - 1]) + paths[parents[|parents| - 1]]
  }

  // The same sum, vertex by vertex.
  function SumBelow(paths: seq<int>, parents: seq<nat>, k: nat): int
    requires k <= |paths|
  {
    if k == 0 then 0 else SumBelow(paths, parents, k - 1) + if k - 1 in parents then paths[k - 1] else 0
  }

  lemma {:induction false} SumBelowAppend(paths: seq<int>, parents: seq<nat>, x: nat, k: nat)
    requires k <= |paths| && x < |paths| && x !in parents
    ensures SumBelow(paths, parents + [x], k) == SumBelow(paths, parents, k) + if x < k then paths[x] else 0
  {
    if k > 0 { SumBelowAppend(paths, parents, x, k - 1); }
  }

  lemma {:induction false} SumBelowNone(paths: seq<int>, k: nat)
    requires k <= |paths|
    ensures SumBelow(paths, [], k) == 0
  {
    if k > 0 { SumBelowNone(paths, k - 1); }
  }

  lemma {:induction false} SumOfBelow(paths: seq<int>, parents: seq<nat>)
    requires forall p | 0 <= p < |parents| :: parents[p] < |paths|
    requires forall p, q | 0 <= p < q < |parents| :: parents[p] != parents[q]
    ensures SumOf(paths, parents) == SumBelow(paths, parents, |paths|)
  {
    if parents == [] {
      SumBelowNone(paths, |paths|);
    } else {
      var n := |parents| - 1;
      SumOfBelow(paths, parents[..n]);
      SumBelowAppend(paths, parents[..n], parents[n], |paths|);
      assert parents[..n] + [parents[n]] == parents;
    }
  }

  lemma {:induction false} BelowIsWalks(adj: seq<seq<nat>>, root: nat, v: nat, n: nat, k: nat, paths: seq<int>, parents: seq<nat>)
    requires k <= |adj| == |paths|
    requires forall u: nat | u < k :: u in parents <==> v in adj[u] && Walks(adj, root, u, n) > 0
    requires forall u: nat | u < k && u in parents :: paths[u] == Walks(adj, root, u, n)
    ensures SumBelow(paths, parents, k) == WalksFrom(adj, root, v, n, k)
  {
    if k > 0 { BelowIsWalks(adj, root, v, n, k - 1, paths, parents); }
  }

  lemma {:induction false} BelowAtMostWalks(adj: seq<seq<nat>>, root: nat, v: nat, n: nat, k: nat, paths: seq<int>, parents: seq<nat>)
    requires k <= |adj| == |paths|
    requires forall u: nat | u < k && u in parents :: v in adj[u] && paths[u] <= Walks(adj, root, u, n)
    ensures SumBelow(paths, parents, k) <= WalksFrom(adj, root, v, n, k)
  {
    if k > 0 { BelowAtMostWalks(adj, root, v, n, k - 1, paths, parents); }
  }

  // Parents without repetition that are exactly the predecessors of v at walk length n have
  // together as many walks as lead to v in one edge more.
  lemma SumIsWalks(adj: seq<seq<nat>>, root: nat, v: nat, n: nat, paths: seq<int>, parents: seq<nat>)
    requires |adj| == |paths| && (forall p | 0 <= p < |parents| :: parents[p] < |paths|)
    requires forall p, q | 0 <= p < q < |parents| :: parents[p] != parents[q]
    requires forall u: nat | u < |adj| :: u in parents <==> v in adj[u] && Walks(adj, root, u, n) > 0
    requires forall u: nat | u in parents :: u < |adj| && paths[u] == Walks(adj, root, u, n)
    ensures SumOf(paths, parents) == Walks(adj, root, v, n + 1)
  {
    SumOfBelow(paths, parents);
    BelowIsWalks(adj, root, v, n, |adj|, paths, parents);
  }

  // With fewer parents, or smaller counts: at most as many.
  lemma SumBelowWalks(adj: seq<seq<nat>>, root: nat, v: nat, n: nat, paths: seq<int>, parents: seq<nat>)
    requires |adj| == |paths| && (forall p | 0 <= p < |parents| :: parents[p] < |paths|)
    requires forall p, q | 0 <= p < q < |parents| :: parents[p] != parents[q]
    requires forall u: nat | u in parents :: u < |adj| && v in adj[u] && paths[u] <= Walks(adj, root, u, n)
    ensures SumOf(paths, parents) <= Walks(adj, root, v, n + 1)
  {
    SumOfBelow(paths, parents);
    BelowAtMostWalks(adj, root, v, n, |adj|, paths, parents);
  }

  lemma RestMembers(s: seq<nat>, p: nat)
    requires p < |s| && forall i, j | 0 <= i < j < |s| :: s[i] != s[j]
    ensures var rest := s[..p] + s[p + 1..];
      && (forall i, j | 0 <= i < j < |rest| :: rest[i] != rest[j])
      && (forall x :: x in rest <==> x in s && x != s[p])
  {
    var rest := s[..p] + s[p + 1..];
    forall x | x in s && x != s[p] ensures x in rest {
      var i :| 0 <= i < |s| && s[i] == x;
      assert i < p ==> rest[i] == x;
      assert i > p ==> rest[i - 1] == x;
    }
  }

  lemma {:induction false} DistinctBelow(s: seq<nat>, n: nat)
    requires forall p | 0 <= p < |s| :: s[p] < n
    requires forall p, q | 0 <= p < q < |s| :: s[p] != s[q]
    ensures |s| <= n
  {
    if s != [] {
      assert s[0] < n;
      if n - 1 in s {
        var k :| 0 <= k < |s| && s[k] == n - 1;
        RestMembers(s, k);
        DistinctBelow(s[..k] + s[k + 1..], n - 1);
      } else {
        forall p | 0 <= p < |s| ensures s[p] < n - 1 { assert s[p] in s; }
        DistinctBelow(s, n - 1);
      }
    }
  }

  // ---------------------------------------------------------------- levels

  // Levels that a search has reached so far: every level below `bound` is closed under edges.
  ghost predicate ClosedBelow(adj: seq<seq<nat>>, root: nat, level: seq<int>, infinity: int, bound: int) {
    && |level| == |adj| && root < |adj| && level[root] == 0
    && (forall v | 0 <= v < |adj| :: 0 <= level[v] <= infinity)
    && (forall u: nat, v: nat | u < |adj| && v < |adj| && v in adj[u] && level[u] < bound && level[u] < infinity :: level[v] <= level[u] + 1)
  }

  /** No walk is shorter than the level, as long as it ends within the closed levels. */
  lemma {:induction false} LevelsMinimal(adj: seq<seq<nat>>, root: nat, level: seq<int>, infinity: int, bound: int, v: nat, n: nat)
    requires ClosedBelow(adj, root, level, infinity, bound) && v < |adj|
    requires Walks(adj, root, v, n) > 0 && n <= bound && n < infinity
    ensures level[v] <= n
    decreases n
  {
    if n > 0 {
      var u := WalkBack(adj, root, v, n - 1);
      LevelsMinimal(adj, root, level, infinity, bound, u, n - 1);
    }
  }
}
