/**
 One root's pass of Brandes' algorithm: a breadth-first search that counts shortest paths and
 keeps every predecessor, and the accumulation of dependencies in reverse order.
 */
module Brandes {
  import opened ShortestPaths
  import opened Dependencies

  const INFINITY := 0x7fff_ffff_ffff_ffff

  // Numbers of shortest paths fit below the value that marks "none yet".
  ghost predicate CountsFit(adj: seq<seq<nat>>, root: nat) {
    forall v: nat, n: nat | v < |adj| && IsDistance(adj, root, v, n) :: Walks(adj, root, v, n) < INFINITY
  }

  // ---------------------------------------------------------------- the search's invariant

  // The queue holds the found vertices once each, by ascending level, spread over two levels at most.
  ghost predicate Line(n: nat, root: nat, level: seq<int>, queue: seq<nat>, qStart: nat, qEnd: nat) {
    && |level| == n < INFINITY && root < n && qStart <= qEnd <= |queue| && 0 < qEnd <= n && queue[0] == root && level[root] == 0
    && (forall p | 0 <= p < qEnd :: queue[p] < n && 0 <= level[queue[p]] <= p)
    && (forall p, r | 0 <= p < r < qEnd :: queue[p] != queue[r] && level[queue[p]] <= level[queue[r]])
    && (forall p | qStart <= p < qEnd :: level[queue[p]] <= level[queue[qStart]] + 1)
    && (forall v: nat | v < n :: v in queue[..qEnd] || level[v] == INFINITY)
  }

  // The edges looked at: all of the first qStart queued vertices, and the first e of the next one.
  ghost predicate SeenIs(adj: seq<seq<nat>>, queue: seq<nat>, qStart: nat, e: nat, seen: set<(nat, nat)>) {
    && qStart <= |queue|
    && (forall p: nat, k: nat | p < qStart && queue[p] < |adj| && k in adj[queue[p]] :: (queue[p], k) in seen)
    && (forall u: nat, k: nat | (u, k) in seen ::
          u < |adj| && k in adj[u] &&
          (u in queue[..qStart] || (qStart < |queue| && u == queue[qStart] && e <= |adj[u]| && k in adj[u][..e])))
    && (e > 0 ==>
          && qStart < |queue| && queue[qStart] < |adj| && e <= |adj[queue[qStart]]|
          && forall k | k in adj[queue[qStart]][..e] :: (queue[qStart], k) in seen)
  }

  // Levels, counts and parents agree with the edges looked at, which start at levels up to top.
  ghost predicate Explored(adj: seq<seq<nat>>, root: nat, level: seq<int>, paths: seq<int>, parents: seq<seq<nat>>,
                           seen: set<(nat, nat)>, top: int) {
    && |level| == |paths| == |parents| == |adj| && root < |adj| && paths[root] == 1 && level[root] == 0
    && (forall u: nat, k: nat | (u, k) in seen :: EdgeOk(adj, level, u, k, top))
    && (forall k: nat | k < |adj| :: ParentsOk(adj, level, parents[k], seen, k))
    && (forall k: nat | k < |adj| && k != root :: CountOk(paths, parents[k], k))
    && (forall k: nat | k < |adj| && level[k] < INFINITY && k != root :: parents[k] != [])
    && (forall k: nat | k < |adj| && level[k] < INFINITY :: PathsOk(adj, root, level, paths, k))
  }

  predicate EdgeOk(adj: seq<seq<nat>>, level: seq<int>, u: nat, k: nat, top: int)
    requires |level| == |adj|
  {
    u < |adj| && k < |adj| && k in adj[u] && 0 <= level[u] <= top && level[k] <= level[u] + 1
  }

  ghost predicate ParentsOk(adj: seq<seq<nat>>, level: seq<int>, parents: seq<nat>, seen: set<(nat, nat)>, k: nat)
    requires |level| == |adj| && k < |adj|
  {
    && (forall p | 0 <= p < |parents| :: parents[p] < |adj|)
    && (forall p, q | 0 <= p < q < |parents| :: parents[p] != parents[q])
    && (forall u: nat :: u in parents <==> (u, k) in seen && u < |adj| && level[k] == level[u] + 1)
  }

  ghost predicate CountOk(paths: seq<int>, parents: seq<nat>, k: nat)
    requires k < |paths|
  {
    && (forall p | 0 <= p < |parents| :: parents[p] < |paths|)
    && paths[k] == if parents == [] then INFINITY else SumOf(paths, parents)
  }

  predicate PathsOk(adj: seq<seq<nat>>, root: nat, level: seq<int>, paths: seq<int>, k: nat)
    requires k < |level| && k < |paths|
  {
    0 <= level[k] && 0 < paths[k] <= Walks(adj, root, k, level[k])
  }

  // ---------------------------------------------------------------- one edge

  lemma {:induction false} SumOfKept(paths: seq<int>, paths': seq<int>, parents: seq<nat>)
    requires |paths| == |paths'| && forall p | 0 <= p < |parents| :: parents[p] < |paths| && paths'[parents[p]] == paths[parents[p]]
    ensures SumOf(paths', parents) == SumOf(paths, parents)
  {
    if parents != [] { SumOfKept(paths, paths', parents[..|parents| - 1]); }
  }

  // Nothing about k's parents and counts changes when only x, at a level beyond top, changes.
  lemma CountKept(adj: seq<seq<nat>>, root: nat, level: seq<int>, paths: seq<int>, parents: seq<seq<nat>>, seen: set<(nat, nat)>, top: int,
                  paths': seq<int>, x: nat, k: nat)
    requires Explored(adj, root, level, paths, parents, seen, top) && k < |adj| && k != root && x < |adj| && level[x] > top
    requires |paths'| == |paths| && forall v | 0 <= v < |paths| && v != x :: paths'[v] == paths[v]
    ensures SumOfFits(paths, parents[k]) && SumOf(paths', parents[k]) == SumOf(paths, parents[k])
    ensures k != x ==> CountOk(paths', parents[k], k)
  {
    assert ParentsOk(adj, level, parents[k], seen, k) && CountOk(paths, parents[k], k);
    forall p | 0 <= p < |parents[k]| ensures parents[k][p] != x {
      assert parents[k][p] in parents[k];
      assert (parents[k][p], k) in seen;
      assert EdgeOk(adj, level, parents[k][p], k, top);
    }
    SumOfKept(paths, paths', parents[k]);
  }

  predicate SumOfFits(paths: seq<int>, parents: seq<nat>) {
    forall p | 0 <= p < |parents| :: parents[p] < |paths|
  }

  // An edge that leads to no deeper level.
  lemma EdgeSkipped(adj: seq<seq<nat>>, root: nat, level: seq<int>, paths: seq<int>, parents: seq<seq<nat>>, seen: set<(nat, nat)>,
                    c: nat, k: nat)
    requires c < |adj| && |level| == |adj| && Explored(adj, root, level, paths, parents, seen, level[c]) && 0 <= level[c]
    requires k < |adj| && k in adj[c] && level[k] <= level[c]
    ensures Explored(adj, root, level, paths, parents, seen + {(c, k)}, level[c])
  {
    var seen' := seen + {(c, k)};
    forall j: nat | j < |adj| ensures ParentsOk(adj, level, parents[j], seen', j) {
      assert ParentsOk(adj, level, parents[j], seen, j);
    }
    hide CountOk, PathsOk;
  }

  lemma HasMember(s: seq<nat>)
    ensures s != [] ==> exists x :: x in s
  {
    if s != [] { assert s[0] in s; }
  }

  // k has no parent yet exactly when it has not been found.
  lemma Parentless(adj: seq<seq<nat>>, root: nat, level: seq<int>, paths: seq<int>, parents: seq<seq<nat>>, seen: set<(nat, nat)>, top: int, k: nat)
    requires Explored(adj, root, level, paths, parents, seen, top) && k < |adj| && k != root && top < INFINITY - 1
    requires level[k] >= INFINITY
    ensures parents[k] == [] && paths[k] == INFINITY
  {
    assert ParentsOk(adj, level, parents[k], seen, k) && CountOk(paths, parents[k], k);
    HasMember(parents[k]);
  }

  // The edge (c, k) leads one level on: c becomes a parent of k.
  ghost predicate Takes(adj: seq<seq<nat>>, level: seq<int>, paths: seq<int>, parents: seq<seq<nat>>, seen: set<(nat, nat)>, c: nat, k: nat,
                        level': seq<int>, paths': seq<int>, parents': seq<seq<nat>>)
    requires |level| == |paths| == |parents| == |adj| && c < |adj| && k < |adj|
  {
    && k in adj[c] && (c, k) !in seen && 0 <= level[c] < INFINITY - 1
    && (level[k] == level[c] + 1 || level[k] >= INFINITY)
    && level' == level[k := level[c] + 1]
    && paths' == paths[k := if parents[k] == [] then paths[c] else paths[k] + paths[c]]
    && parents' == parents[k := parents[k] + [c]]
  }

  lemma TakenEdges(adj: seq<seq<nat>>, root: nat, level: seq<int>, paths: seq<int>, parents: seq<seq<nat>>, seen: set<(nat, nat)>, c: nat, k: nat,
                   level': seq<int>, paths': seq<int>, parents': seq<seq<nat>>, u: nat, j: nat)
    requires c < |adj| && k < |adj| && |level| == |adj| && Explored(adj, root, level, paths, parents, seen, level[c])
    requires Takes(adj, level, paths, parents, seen, c, k, level', paths', parents') && (u, j) in seen + {(c, k)}
    ensures EdgeOk(adj, level', u, j, level'[c]) && u != k && level'[u] == level[u] && level'[c] == level[c]
  {
    if (u, j) in seen { assert EdgeOk(adj, level, u, j, level[c]); }
    hide ParentsOk, CountOk, PathsOk;
  }

  lemma TakenParents(adj: seq<seq<nat>>, root: nat, level: seq<int>, paths: seq<int>, parents: seq<seq<nat>>, seen: set<(nat, nat)>, c: nat, k: nat,
                     level': seq<int>, paths': seq<int>, parents': seq<seq<nat>>, j: nat)
    requires c < |adj| && k < |adj| && |level| == |adj| && Explored(adj, root, level, paths, parents, seen, level[c])
    requires Takes(adj, level, paths, parents, seen, c, k, level', paths', parents') && j < |adj|
    ensures ParentsOk(adj, level', parents'[j], seen + {(c, k)}, j)
  {
    assert ParentsOk(adj, level, parents[j], seen, j);
    assert forall u: nat | (u, j) in seen :: EdgeOk(adj, level, u, j, level[c]);
    assert j == k ==> c !in parents[k];
    hide CountOk, PathsOk;
  }

  lemma TakenCounts(adj: seq<seq<nat>>, root: nat, level: seq<int>, paths: seq<int>, parents: seq<seq<nat>>, seen: set<(nat, nat)>, c: nat, k: nat,
                    level': seq<int>, paths': seq<int>, parents': seq<seq<nat>>, j: nat)
    requires c < |adj| && k < |adj| && |level| == |adj| && Explored(adj, root, level, paths, parents, seen, level[c])
    requires Takes(adj, level, paths, parents, seen, c, k, level', paths', parents') && j < |adj| && j != root
    ensures CountOk(paths', parents'[j], j)
  {
    CountKept(adj, root, level, paths, parents, seen, level[c], paths', k, j);
    assert CountOk(paths, parents[j], j);
    if j == k {
      assert parents'[k][..|parents[k]|] == parents[k];
    }
    hide ParentsOk, PathsOk;
  }

  lemma TakenPaths(adj: seq<seq<nat>>, root: nat, level: seq<int>, paths: seq<int>, parents: seq<seq<nat>>, seen: set<(nat, nat)>, c: nat, k: nat,
                   level': seq<int>, paths': seq<int>, parents': seq<seq<nat>>)
    requires c < |adj| && k < |adj| && |level| == |adj| && Explored(adj, root, level, paths, parents, seen, level[c]) && k != root
    requires Takes(adj, level, paths, parents, seen, c, k, level', paths', parents')
    requires parents[k] != [] ==> paths[k] > 0
    ensures PathsOk(adj, root, level', paths', k)
  {
    TakenParents(adj, root, level, paths, parents, seen, c, k, level', paths', parents', k);
    TakenCounts(adj, root, level, paths, parents, seen, c, k, level', paths', parents', k);
    var n: nat := level[c];
    forall u: nat | u in parents'[k] ensures u < |adj| && k in adj[u] && paths'[u] <= Walks(adj, root, u, n) {
      TakenParent(adj, root, level, paths, parents, seen, c, k, level', paths', parents', u);
    }
    assert PathsOk(adj, root, level, paths, c);
    SumBelowWalks(adj, root, k, n, paths', parents'[k]);
    hide Explored, Walks, SumOf;
  }

  // A parent of the vertex reached is at the level before, and its count has not changed.
  lemma TakenParent(adj: seq<seq<nat>>, root: nat, level: seq<int>, paths: seq<int>, parents: seq<seq<nat>>, seen: set<(nat, nat)>, c: nat, k: nat,
                    level': seq<int>, paths': seq<int>, parents': seq<seq<nat>>, u: nat)
    requires c < |adj| && k < |adj| && |level| == |adj| && Explored(adj, root, level, paths, parents, seen, level[c])
    requires Takes(adj, level, paths, parents, seen, c, k, level', paths', parents') && u in parents'[k]
    ensures u < |adj| && k in adj[u] && paths'[u] <= Walks(adj, root, u, level[c])
  {
    TakenParents(adj, root, level, paths, parents, seen, c, k, level', paths', parents', k);
    TakenEdges(adj, root, level, paths, parents, seen, c, k, level', paths', parents', u, k);
    assert PathsOk(adj, root, level, paths, u);
  }

  /** Following an edge to the next level keeps levels, parents and counts in agreement. */
  lemma EdgeTaken(adj: seq<seq<nat>>, root: nat, level: seq<int>, paths: seq<int>, parents: seq<seq<nat>>, seen: set<(nat, nat)>, c: nat, k: nat,
                  level': seq<int>, paths': seq<int>, parents': seq<seq<nat>>)
    requires c < |adj| && k < |adj| && |level| == |adj| && Explored(adj, root, level, paths, parents, seen, level[c])
    requires Takes(adj, level, paths, parents, seen, c, k, level', paths', parents')
    ensures Explored(adj, root, level', paths', parents', seen + {(c, k)}, level'[c])
  {
    assert k != root;
    if level[k] >= INFINITY {
      Parentless(adj, root, level, paths, parents, seen, level[c], k);
    } else {
      assert PathsOk(adj, root, level, paths, k);
    }
    TakenPaths(adj, root, level, paths, parents, seen, c, k, level', paths', parents');
    forall u: nat, j: nat | (u, j) in seen + {(c, k)} ensures EdgeOk(adj, level', u, j, level'[c]) {
      TakenEdges(adj, root, level, paths, parents, seen, c, k, level', paths', parents', u, j);
    }
    forall j: nat | j < |adj| ensures ParentsOk(adj, level', parents'[j], seen + {(c, k)}, j) {
      TakenParents(adj, root, level, paths, parents, seen, c, k, level', paths', parents', j);
    }
    forall j: nat | j < |adj| && j != root ensures CountOk(paths', parents'[j], j) {
      TakenCounts(adj, root, level, paths, parents, seen, c, k, level', paths', parents', j);
    }
    forall j: nat | j < |adj| && level'[j] < INFINITY ensures PathsOk(adj, root, level', paths', j) {
      if j != k { assert PathsOk(adj, root, level, paths, j); }
    }
    hide ParentsOk, CountOk, EdgeOk, PathsOk;
  }

  // ---------------------------------------------------------------- where the search stands

  // Every level below the current vertex's is closed.
  lemma SoFarClosed(adj: seq<seq<nat>>, root: nat, level: seq<int>, paths: seq<int>, parents: seq<seq<nat>>, seen: set<(nat, nat)>,
                    queue: seq<nat>, qStart: nat, qEnd: nat, e: nat)
    requires Line(|adj|, root, level, queue, qStart, qEnd) && qStart < qEnd && SeenIs(adj, queue[..qEnd], qStart, e, seen)
    requires Explored(adj, root, level, paths, parents, seen, level[queue[qStart]])
    ensures ClosedBelow(adj, root, level, INFINITY, level[queue[qStart]])
  {
    forall u: nat, v: nat | u < |adj| && v < |adj| && v in adj[u] && level[u] < level[queue[qStart]] && level[u] < INFINITY
      ensures level[v] <= level[u] + 1
    {
      assert u in queue[..qEnd];
      var p: nat :| p < qEnd && queue[..qEnd][p] == u;
      assert p < qStart;
      assert (queue[..qEnd][p], v) in seen;
      assert EdgeOk(adj, level, u, v, level[queue[qStart]]);
    }
    LevelsRange(|adj|, root, level, queue, qStart, qEnd);
    hide ParentsOk, CountOk, PathsOk, SeenIs;
  }

  lemma LevelsRange(n: nat, root: nat, level: seq<int>, queue: seq<nat>, qStart: nat, qEnd: nat)
    requires Line(n, root, level, queue, qStart, qEnd)
    ensures forall v | 0 <= v < n :: 0 <= level[v] <= INFINITY && (level[v] < INFINITY ==> level[v] < n)
  {
    forall v: nat | v < n ensures 0 <= level[v] <= INFINITY && (level[v] < INFINITY ==> level[v] < n) {
      if v in queue[..qEnd] {
        var p :| 0 <= p < qEnd && queue[..qEnd][p] == v;
        assert queue[p] == v;
      }
    }
  }

  // A vertex one level on is at its distance, so its count is below the mark.
  lemma NextLevelFits(adj: seq<seq<nat>>, root: nat, level: seq<int>, c: nat, k: nat, count: int)
    requires CountsFit(adj, root) && c < |adj| && k < |adj| && |level| == |adj|
    requires ClosedBelow(adj, root, level, INFINITY, level[c]) && 0 <= level[c] < INFINITY - 1
    requires level[k] == level[c] + 1 && 0 < count <= Walks(adj, root, k, level[k])
    ensures count < INFINITY
  {
    var d: nat := level[k];
    forall m: nat | m < d ensures Walks(adj, root, k, m) == 0 {
      if Walks(adj, root, k, m) > 0 { LevelsMinimal(adj, root, level, INFINITY, level[c], k, m); }
    }
    assert IsDistance(adj, root, k, d);
  }

  // ---------------------------------------------------------------- the search

  // Where the search stands: vertex queue[qStart] is being served and e of its edges are done.
  ghost predicate Searching(adj: seq<seq<nat>>, root: nat, level: seq<int>, paths: seq<int>, parents: seq<seq<nat>>, queue: seq<nat>,
                            qStart: nat, qEnd: nat, e: nat, seen: set<(nat, nat)>, top: int) {
    && Proper(adj) && Line(|adj|, root, level, queue, qStart, qEnd)
    && SeenIs(adj, queue[..qEnd], qStart, e, seen)
    && Explored(adj, root, level, paths, parents, seen, top)
  }

  lemma SearchStarts(adj: seq<seq<nat>>, root: nat, level: seq<int>, paths: seq<int>, parents: seq<seq<nat>>, queue: seq<nat>)
    requires Proper(adj) && root < |adj| < INFINITY && |level| == |paths| == |parents| == |adj| <= |queue| && queue[0] == root
    requires forall v | 0 <= v < |adj| :: parents[v] == [] && level[v] == (if v == root then 0 else INFINITY)
    requires forall v | 0 <= v < |adj| :: paths[v] == (if v == root then 1 else INFINITY)
    ensures Searching(adj, root, level, paths, parents, queue, 0, 1, 0, {}, 0)
  {
    assert queue[..1] == [root];
  }

  lemma SeenNext(adj: seq<seq<nat>>, queue: seq<nat>, qStart: nat, e: nat, seen: set<(nat, nat)>)
    requires SeenIs(adj, queue, qStart, e, seen) && qStart < |queue| && queue[qStart] < |adj| && e < |adj[queue[qStart]]|
    ensures SeenIs(adj, queue, qStart, e + 1, seen + {(queue[qStart], adj[queue[qStart]][e])})
  {
    var c := queue[qStart];
    assert adj[c][..e + 1] == adj[c][..e] + [adj[c][e]];
  }

  lemma SeenMore(adj: seq<seq<nat>>, queue: seq<nat>, qStart: nat, e: nat, seen: set<(nat, nat)>, k: nat)
    requires SeenIs(adj, queue, qStart, e, seen) && qStart < |queue|
    ensures SeenIs(adj, queue + [k], qStart, e, seen)
  {
    assert (queue + [k])[..qStart] == queue[..qStart];
  }

  lemma SeenDone(adj: seq<seq<nat>>, queue: seq<nat>, qStart: nat, seen: set<(nat, nat)>)
    requires qStart < |queue| && queue[qStart] < |adj| && SeenIs(adj, queue, qStart, |adj[queue[qStart]]|, seen)
    ensures SeenIs(adj, queue, qStart + 1, 0, seen)
  {
    var c := queue[qStart];
    assert queue[..qStart + 1] == queue[..qStart] + [c];
    assert adj[c][..|adj[c]|] == adj[c];
  }

  lemma LineFound(n: nat, root: nat, level: seq<int>, queue: seq<nat>, qStart: nat, qEnd: nat, k: nat, queue': seq<nat>)
    requires Line(n, root, level, queue, qStart, qEnd) && qStart < qEnd && k < n && level[k] == INFINITY
    requires qEnd < |queue| && queue' == queue[qEnd := k]
    ensures qEnd < n && Line(n, root, level[k := level[queue[qStart]] + 1], queue', qStart, qEnd + 1)
    ensures queue'[..qEnd + 1] == queue[..qEnd] + [k]
  {
    LineRoom(n, root, level, queue, qStart, qEnd, k);
    var level' := level[k := level[queue[qStart]] + 1];
    forall p | 0 <= p < qEnd ensures queue'[p] == queue[p] != k {}
    assert queue'[..qEnd + 1] == queue[..qEnd] + [k];
    forall v: nat | v < n ensures v in queue'[..qEnd + 1] || level'[v] == INFINITY {
      if v in queue[..qEnd] { assert v in queue'[..qEnd + 1]; }
    }
  }

  lemma LineRoom(n: nat, root: nat, level: seq<int>, queue: seq<nat>, qStart: nat, qEnd: nat, k: nat)
    requires Line(n, root, level, queue, qStart, qEnd) && k < n && level[k] == INFINITY
    ensures qEnd < n && forall p | 0 <= p < qEnd :: queue[p] != k
  {
    DistinctBelow(queue[..qEnd] + [k], n);
  }

  // One edge's turn.
  lemma SearchSkip(adj: seq<seq<nat>>, root: nat, level: seq<int>, paths: seq<int>, parents: seq<seq<nat>>, queue: seq<nat>,
                   qStart: nat, qEnd: nat, e: nat, seen: set<(nat, nat)>)
    requires qStart < qEnd <= |queue| && queue[qStart] < |adj| == |level|
    requires Searching(adj, root, level, paths, parents, queue, qStart, qEnd, e, seen, level[queue[qStart]])
    requires var c := queue[qStart]; e < |adj[c]| && adj[c][e] < |adj| && level[adj[c][e]] <= level[c]
    ensures Searching(adj, root, level, paths, parents, queue, qStart, qEnd, e + 1, seen + {(queue[qStart], adj[queue[qStart]][e])}, level[queue[qStart]])
  {
    var c := queue[qStart];
    SeenNext(adj, queue[..qEnd], qStart, e, seen);
    assert 0 <= level[c];
    EdgeSkipped(adj, root, level, paths, parents, seen, c, adj[c][e]);
    hide Line, SeenIs, Explored, Proper;
  }

  // What an edge to a deeper level finds there.
  lemma SearchHere(adj: seq<seq<nat>>, root: nat, level: seq<int>, paths: seq<int>, parents: seq<seq<nat>>, queue: seq<nat>,
                   qStart: nat, qEnd: nat, e: nat, seen: set<(nat, nat)>)
    requires CountsFit(adj, root) && qStart < qEnd <= |queue| && queue[qStart] < |adj| == |level|
    requires Searching(adj, root, level, paths, parents, queue, qStart, qEnd, e, seen, level[queue[qStart]])
    requires var c := queue[qStart]; e < |adj[c]| && adj[c][e] < |adj| && level[adj[c][e]] > level[c]
    ensures var c := queue[qStart];
      var k := adj[c][e];
      && |paths| == |parents| == |adj| && 0 <= level[c] < INFINITY - 1
      && k in adj[c] && (c, k) !in seen && k != root
      && (level[k] == INFINITY || level[k] == level[c] + 1)
      && (level[k] == INFINITY <==> parents[k] == []) && (level[k] == INFINITY <==> paths[k] == INFINITY)
      && (level[k] == INFINITY ==> qEnd < |adj|)
  {
    var c := queue[qStart];
    var k := adj[c][e];
    SearchElim(adj, root, level, paths, parents, queue, qStart, qEnd, e, seen, level[c]);
    LevelsRange(|adj|, root, level, queue, qStart, qEnd);
    SoFarClosed(adj, root, level, paths, parents, seen, queue, qStart, qEnd, e);
    NotSeen(adj, queue[..qEnd], qStart, e, seen, root, level);
    LevelHere(|adj|, root, level, queue, qStart, qEnd, k);
    ExploredAt(adj, root, level, paths, parents, seen, level[c], k);
    hide *;
    if level[k] >= INFINITY {
      Parentless(adj, root, level, paths, parents, seen, level[c], k);
      LineRoom(|adj|, root, level, queue, qStart, qEnd, k);
    } else {
      NextLevelFits(adj, root, level, c, k, paths[k]);
    }
  }

  lemma SearchElim(adj: seq<seq<nat>>, root: nat, level: seq<int>, paths: seq<int>, parents: seq<seq<nat>>, queue: seq<nat>,
                   qStart: nat, qEnd: nat, e: nat, seen: set<(nat, nat)>, top: int)
    requires Searching(adj, root, level, paths, parents, queue, qStart, qEnd, e, seen, top)
    ensures Proper(adj) && Line(|adj|, root, level, queue, qStart, qEnd) && qEnd <= |queue| && SeenIs(adj, queue[..qEnd], qStart, e, seen)
    ensures Explored(adj, root, level, paths, parents, seen, top) && |level| == |paths| == |parents| == |adj| && root < |adj| && level[root] == 0
    ensures forall p | 0 <= p < qEnd :: queue[p] < |adj| && 0 <= level[queue[p]]
  {
  }

  lemma ExploredAt(adj: seq<seq<nat>>, root: nat, level: seq<int>, paths: seq<int>, parents: seq<seq<nat>>, seen: set<(nat, nat)>, top: int, k: nat)
    requires Explored(adj, root, level, paths, parents, seen, top) && k < |adj|
    ensures |level| == |paths| == |parents| == |adj|
    ensures level[k] < INFINITY ==> 0 < paths[k] <= Walks(adj, root, k, level[k]) && (k != root ==> parents[k] != [])
  {
    assert level[k] < INFINITY ==> PathsOk(adj, root, level, paths, k);
  }

  lemma LevelHere(n: nat, root: nat, level: seq<int>, queue: seq<nat>, qStart: nat, qEnd: nat, k: nat)
    requires Line(n, root, level, queue, qStart, qEnd) && qStart < qEnd && k < n && level[k] > level[queue[qStart]]
    ensures level[k] == INFINITY || level[k] == level[queue[qStart]] + 1
  {
    if k in queue[..qEnd] {
      var p :| 0 <= p < qEnd && queue[..qEnd][p] == k;
      assert queue[p] == k;
    }
  }

  lemma NotSeen(adj: seq<seq<nat>>, queue: seq<nat>, qStart: nat, e: nat, seen: set<(nat, nat)>, root: nat, level: seq<int>)
    requires Proper(adj) && SeenIs(adj, queue, qStart, e, seen) && qStart < |queue| && queue[qStart] < |adj| && e < |adj[queue[qStart]]|
    requires forall p, r | 0 <= p < r < |queue| :: queue[p] != queue[r]
    ensures (queue[qStart], adj[queue[qStart]][e]) !in seen
  {
    var c, k := queue[qStart], adj[queue[qStart]][e];
    assert c !in queue[..qStart];
    assert k !in adj[c][..e];
  }

  // An edge that finds k.
  lemma SearchFind(adj: seq<seq<nat>>, root: nat, level: seq<int>, paths: seq<int>, parents: seq<seq<nat>>, queue: seq<nat>,
                   qStart: nat, qEnd: nat, e: nat, seen: set<(nat, nat)>, c: nat, k: nat,
                   level': seq<int>, paths': seq<int>, parents': seq<seq<nat>>, queue': seq<nat>)
    requires qStart < qEnd <= |queue| && queue[qStart] == c < |adj| == |level| && |paths| == |parents| == |adj|
    requires Searching(adj, root, level, paths, parents, queue, qStart, qEnd, e, seen, level[c])
    requires e < |adj[c]| && adj[c][e] == k < |adj| && Takes(adj, level, paths, parents, seen, c, k, level', paths', parents')
    requires level[k] == INFINITY && qEnd < |queue| && queue' == queue[qEnd := k]
    ensures |level'| == |adj| && Searching(adj, root, level', paths', parents', queue', qStart, qEnd + 1, e + 1, seen + {(c, k)}, level'[c])
  {
    hide *;
    SearchElim(adj, root, level, paths, parents, queue, qStart, qEnd, e, seen, level[c]);
    TakesLevel(adj, level, paths, parents, seen, c, k, level', paths', parents');
    EdgeTaken(adj, root, level, paths, parents, seen, c, k, level', paths', parents');
    SeenNext(adj, queue[..qEnd], qStart, e, seen);
    LineFound(|adj|, root, level, queue, qStart, qEnd, k, queue');
    SeenMore(adj, queue[..qEnd], qStart, e + 1, seen + {(c, k)}, k);
    SearchIntro(adj, root, level', paths', parents', queue', qStart, qEnd + 1, e + 1, seen + {(c, k)}, level'[c]);
  }

  // An edge that reaches k on one more shortest path.
  lemma SearchAgain(adj: seq<seq<nat>>, root: nat, level: seq<int>, paths: seq<int>, parents: seq<seq<nat>>, queue: seq<nat>,
                    qStart: nat, qEnd: nat, e: nat, seen: set<(nat, nat)>, c: nat, k: nat,
                    level': seq<int>, paths': seq<int>, parents': seq<seq<nat>>)
    requires qStart < qEnd <= |queue| && queue[qStart] == c < |adj| == |level| && |paths| == |parents| == |adj|
    requires Searching(adj, root, level, paths, parents, queue, qStart, qEnd, e, seen, level[c])
    requires e < |adj[c]| && adj[c][e] == k < |adj| && Takes(adj, level, paths, parents, seen, c, k, level', paths', parents')
    requires level[k] == level[c] + 1
    ensures |level'| == |adj| && Searching(adj, root, level', paths', parents', queue, qStart, qEnd, e + 1, seen + {(c, k)}, level'[c])
  {
    hide *;
    SearchElim(adj, root, level, paths, parents, queue, qStart, qEnd, e, seen, level[c]);
    TakesLevel(adj, level, paths, parents, seen, c, k, level', paths', parents');
    EdgeTaken(adj, root, level, paths, parents, seen, c, k, level', paths', parents');
    SeenNext(adj, queue[..qEnd], qStart, e, seen);
    assert level' == level;
    SearchIntro(adj, root, level', paths', parents', queue, qStart, qEnd, e + 1, seen + {(c, k)}, level'[c]);
  }

  lemma SearchIntro(adj: seq<seq<nat>>, root: nat, level: seq<int>, paths: seq<int>, parents: seq<seq<nat>>, queue: seq<nat>,
                    qStart: nat, qEnd: nat, e: nat, seen: set<(nat, nat)>, top: int)
    requires Proper(adj) && Line(|adj|, root, level, queue, qStart, qEnd) && qEnd <= |queue| && SeenIs(adj, queue[..qEnd], qStart, e, seen)
    requires Explored(adj, root, level, paths, parents, seen, top)
    ensures Searching(adj, root, level, paths, parents, queue, qStart, qEnd, e, seen, top)
  {
    hide Proper, Line, SeenIs, Explored;
  }

  lemma TakesLevel(adj: seq<seq<nat>>, level: seq<int>, paths: seq<int>, parents: seq<seq<nat>>, seen: set<(nat, nat)>, c: nat, k: nat,
                   level': seq<int>, paths': seq<int>, parents': seq<seq<nat>>)
    requires |level| == |paths| == |parents| == |adj| && c < |adj| && k < |adj| && Takes(adj, level, paths, parents, seen, c, k, level', paths', parents')
    ensures level' == level[k := level[c] + 1] && c != k
  {
  }

  // A vertex is done: the next one's level is the new top.
  lemma SearchNext(adj: seq<seq<nat>>, root: nat, level: seq<int>, paths: seq<int>, parents: seq<seq<nat>>, queue: seq<nat>,
                   qStart: nat, qEnd: nat, seen: set<(nat, nat)>) returns (top: int)
    requires qStart < qEnd <= |queue| && queue[qStart] < |adj| == |level|
    requires Searching(adj, root, level, paths, parents, queue, qStart, qEnd, |adj[queue[qStart]]|, seen, level[queue[qStart]])
    ensures Searching(adj, root, level, paths, parents, queue, qStart + 1, qEnd, 0, seen, top)
    ensures qStart + 1 < qEnd ==> queue[qStart + 1] < |adj| && top == level[queue[qStart + 1]]
  {
    var c := queue[qStart];
    SeenDone(adj, queue[..qEnd], qStart, seen);
    assert Line(|adj|, root, level, queue, qStart + 1, qEnd);
    top := if qStart + 1 < qEnd then level[queue[qStart + 1]] else level[c];
    forall u: nat, k: nat | (u, k) in seen ensures EdgeOk(adj, level, u, k, top) { assert EdgeOk(adj, level, u, k, level[c]); }
    hide SeenIs, ParentsOk, CountOk, PathsOk;
  }

  // ---------------------------------------------------------------- what the search has found

  // Distances, numbers of shortest paths and all shortest-path predecessors, of the n queued vertices.
  ghost predicate Found(adj: seq<seq<nat>>, root: nat, level: seq<int>, paths: seq<int>, parents: seq<seq<nat>>, queue: seq<nat>, n: nat) {
    && |level| == |paths| == |parents| == |adj| && 0 < n <= |queue| && n <= |adj| && root < |adj| && queue[0] == root
    && (forall p | 0 <= p < n :: queue[p] < |adj|)
    && (forall p, r | 0 <= p < r < n :: queue[p] != queue[r])
    && (forall v: nat | v < |adj| :: VertexFound(adj, root, level, paths, parents[v], queue[..n], v))
    && (forall p, r | 0 <= p < n && 0 <= r < n && queue[p] in parents[queue[r]] :: p < r)
  }

  ghost predicate VertexFound(adj: seq<seq<nat>>, root: nat, level: seq<int>, paths: seq<int>, parents: seq<nat>, queue: seq<nat>, v: nat)
    requires v < |level| == |paths| == |adj|
  {
    && (v in queue <==> Reachable(adj, root, v)) && (v in queue <==> level[v] != INFINITY) && 0 <= level[v] <= INFINITY
    && (level[v] != INFINITY ==> IsDistance(adj, root, v, level[v]) && paths[v] == Walks(adj, root, v, level[v]))
    && (forall p, q | 0 <= p < q < |parents| :: parents[p] != parents[q])
    && (forall u: nat :: u in parents <==> u < |adj| && v in adj[u] && level[u] != INFINITY && level[v] == level[u] + 1)
    && (v != root && level[v] != INFINITY ==> SumOfFits(paths, parents) && paths[v] == SumOf(paths, parents) && paths[v] > 0)
    && (v == root || level[v] == INFINITY ==> parents == [])
  }

  // Once the queue is empty every edge of a found vertex has been looked at.
  lemma AllSeen(adj: seq<seq<nat>>, root: nat, level: seq<int>, paths: seq<int>, parents: seq<seq<nat>>, queue: seq<nat>, n: nat,
                seen: set<(nat, nat)>, top: int)
    requires Searching(adj, root, level, paths, parents, queue, n, n, 0, seen, top)
    ensures |level| == |adj| && n <= |queue|
    ensures forall u: nat, k: nat :: (u, k) in seen <==> u < |adj| && k in adj[u] && level[u] != INFINITY
    ensures forall v: nat | v < |adj| :: v in queue[..n] <==> level[v] != INFINITY
    ensures ClosedBelow(adj, root, level, INFINITY, INFINITY)
  {
    LevelsRange(|adj|, root, level, queue, n, n);
    assert queue[..n][..n] == queue[..n];
    forall v: nat | v < |adj| ensures v in queue[..n] <==> level[v] != INFINITY { InLine(|adj|, root, level, queue, n, n, v); }
    forall u: nat, k: nat ensures (u, k) in seen <==> u < |adj| && k in adj[u] && level[u] != INFINITY {
      if u < |adj| && k in adj[u] && level[u] != INFINITY {
        var p: nat :| p < n && queue[..n][p] == u;
        assert (queue[..n][p], k) in seen;
      }
    }
    forall u: nat, v: nat | u < |adj| && v < |adj| && v in adj[u] && level[u] < INFINITY ensures level[v] <= level[u] + 1 {
      assert (u, v) in seen && EdgeOk(adj, level, u, v, top);
    }
    hide ParentsOk, CountOk, PathsOk, Proper;
  }

  lemma InLine(n: nat, root: nat, level: seq<int>, queue: seq<nat>, qStart: nat, qEnd: nat, v: nat)
    requires Line(n, root, level, queue, qStart, qEnd) && v < n
    ensures v in queue[..qEnd] <==> level[v] != INFINITY
  {
    if v in queue[..qEnd] {
      var p :| 0 <= p < qEnd && queue[..qEnd][p] == v;
      assert queue[p] == v;
    }
  }

  lemma {:induction false} ReachesFound(adj: seq<seq<nat>>, root: nat, level: seq<int>, v: nat, n: nat)
    requires ClosedBelow(adj, root, level, INFINITY, INFINITY) && v < |adj| < INFINITY && Walks(adj, root, v, n) > 0
    requires forall u | 0 <= u < |adj| :: level[u] < INFINITY ==> level[u] < |adj|
    ensures level[v] < INFINITY
    decreases n
  {
    if n > 0 {
      var u := WalkBack(adj, root, v, n - 1);
      ReachesFound(adj, root, level, u, n - 1);
    }
  }

  lemma FoundDistance(adj: seq<seq<nat>>, root: nat, level: seq<int>, v: nat)
    requires ClosedBelow(adj, root, level, INFINITY, INFINITY) && v < |adj| && 0 <= level[v] < INFINITY && Walks(adj, root, v, level[v]) > 0
    ensures IsDistance(adj, root, v, level[v])
  {
    forall m: nat | m < level[v] ensures Walks(adj, root, v, m) == 0 {
      if Walks(adj, root, v, m) > 0 { LevelsMinimal(adj, root, level, INFINITY, INFINITY, v, m); }
    }
  }

  // By induction on the level, counts are the numbers of walks.
  lemma {:induction false} FoundCounts(adj: seq<seq<nat>>, root: nat, level: seq<int>, paths: seq<int>, parents: seq<seq<nat>>,
                                       seen: set<(nat, nat)>, top: int, v: nat, d: nat)
    requires Explored(adj, root, level, paths, parents, seen, top) && ClosedBelow(adj, root, level, INFINITY, INFINITY) && v < |adj|
    requires forall u: nat, k: nat :: (u, k) in seen <==> u < |adj| && k in adj[u] && level[u] != INFINITY
    requires level[v] == d < INFINITY
    ensures paths[v] == Walks(adj, root, v, d)
    decreases d
  {
    if v == root {
      assert d == 0;
    } else {
      assert ParentsOk(adj, level, parents[v], seen, v) && CountOk(paths, parents[v], v) && parents[v] != [];
      assert parents[v][0] in parents[v] && EdgeOk(adj, level, parents[v][0], v, top);
      var n: nat := d - 1;
      forall u: nat | u < |adj| ensures u in parents[v] <==> v in adj[u] && Walks(adj, root, u, n) > 0 {
        if v in adj[u] && Walks(adj, root, u, n) > 0 {
          LevelsMinimal(adj, root, level, INFINITY, INFINITY, u, n);
          assert (u, v) in seen && EdgeOk(adj, level, u, v, top);
        }
        if u in parents[v] { assert EdgeOk(adj, level, u, v, top) && PathsOk(adj, root, level, paths, u); }
      }
      forall u: nat | u in parents[v] ensures u < |adj| && paths[u] == Walks(adj, root, u, n) {
        assert EdgeOk(adj, level, u, v, top);
        FoundCounts(adj, root, level, paths, parents, seen, top, u, n);
      }
      SumIsWalks(adj, root, v, n, paths, parents[v]);
    }
  }

  lemma FoundVertex(adj: seq<seq<nat>>, root: nat, level: seq<int>, paths: seq<int>, parents: seq<seq<nat>>, queue: seq<nat>, n: nat,
                    seen: set<(nat, nat)>, top: int, v: nat)
    requires Searching(adj, root, level, paths, parents, queue, n, n, 0, seen, top) && v < |adj|
    requires |level| == |paths| == |parents| == |adj| && n <= |queue|
    ensures VertexFound(adj, root, level, paths, parents[v], queue[..n], v)
  {
    SearchElim(adj, root, level, paths, parents, queue, n, n, 0, seen, top);
    AllSeen(adj, root, level, paths, parents, queue, n, seen, top);
    LevelsRange(|adj|, root, level, queue, n, n);
    ExploredAt(adj, root, level, paths, parents, seen, top, v);
    if level[v] < INFINITY {
      FoundDistance(adj, root, level, v);
      FoundCounts(adj, root, level, paths, parents, seen, top, v, level[v]);
    }
    if Reachable(adj, root, v) {
      var m: nat :| Walks(adj, root, v, m) > 0;
      ReachesFound(adj, root, level, v, m);
    }
    assert ParentsOk(adj, level, parents[v], seen, v);
    assert v != root ==> CountOk(paths, parents[v], v);
    HasMember(parents[v]);
    assert forall u: nat | (u, v) in seen :: EdgeOk(adj, level, u, v, top);
    hide Line, SeenIs, ClosedBelow, Proper, PathsOk, Walks, IsDistance;
  }

  /** The search meets its reference: distances, counts of shortest paths, all predecessors. */
  lemma SearchDone(adj: seq<seq<nat>>, root: nat, level: seq<int>, paths: seq<int>, parents: seq<seq<nat>>, queue: seq<nat>, n: nat,
                   seen: set<(nat, nat)>, top: int)
    requires Searching(adj, root, level, paths, parents, queue, n, n, 0, seen, top)
    ensures Found(adj, root, level, paths, parents, queue, n)
  {
    SearchElim(adj, root, level, paths, parents, queue, n, n, 0, seen, top);
    LineFacts(|adj|, root, level, queue, n, n);
    forall v: nat | v < |adj| ensures VertexFound(adj, root, level, paths, parents[v], queue[..n], v) {
      FoundVertex(adj, root, level, paths, parents, queue, n, seen, top, v);
    }
    forall p, r | 0 <= p < n && 0 <= r < n && queue[p] in parents[queue[r]] ensures p < r {
      assert VertexFound(adj, root, level, paths, parents[queue[r]], queue[..n], queue[r]);
    }
    hide Line, SeenIs, Explored, Proper, VertexFound;
  }

  lemma LineFacts(n: nat, root: nat, level: seq<int>, queue: seq<nat>, qStart: nat, qEnd: nat)
    requires Line(n, root, level, queue, qStart, qEnd)
    ensures qEnd <= |queue| && 0 < qEnd <= n && queue[0] == root && forall p | 0 <= p < qEnd :: queue[p] < n
    ensures forall p, r | 0 <= p < r < qEnd :: queue[p] != queue[r] && level[queue[p]] <= level[queue[r]]
  {
  }

  // One edge of the vertex c that is being served.
  method Visit(adj: seq<seq<nat>>, level: array<int>, paths: array<int>, parents: array<seq<nat>>, queue: array<nat>,
               c: nat, k: nat, qEnd: nat) returns (qEnd': nat)
    requires level.Length == paths.Length == parents.Length == |adj| && level != paths && c < |adj| && k < |adj| && qEnd <= queue.Length
    requires level[k] == INFINITY ==> qEnd < queue.Length
    requires queue as object != level && queue as object != paths
    modifies level, paths, parents, queue
    ensures level[..] == if old(level[k]) > old(level[c]) && old(level[k]) == INFINITY then old(level[..])[k := old(level[c]) + 1] else old(level[..])
    ensures paths[..] == if old(level[k]) > old(level[c])
                         then old(paths[..])[k := if old(paths[k]) == INFINITY then old(paths[c]) else old(paths[k]) + old(paths[c])] else old(paths[..])
    ensures parents[..] == if old(level[k]) > old(level[c]) then old(parents[..])[k := old(parents[k]) + [c]] else old(parents[..])
    ensures queue[..] == if old(level[k]) > old(level[c]) && old(level[k]) == INFINITY then old(queue[..])[qEnd := k] else old(queue[..])
    ensures qEnd' == if old(level[k]) > old(level[c]) && old(level[k]) == INFINITY then qEnd + 1 else qEnd
  {
    qEnd' := qEnd;
    if level[k] > level[c] {
      if level[k] == INFINITY {
        level[k] := level[c] + 1;
        queue[qEnd] := k;
        qEnd' := qEnd + 1;
      }
      if paths[k] == INFINITY {
        paths[k] := paths[c];
        parents[k] := parents[k] + [c];
      } else {
        paths[k] := paths[k] + paths[c];
        parents[k] := parents[k] + [c];
      }
    }
  }

  // One edge's turn, with what it does to the search.
  method ServeEdge(adj: seq<seq<nat>>, ghost root: nat, level: array<int>, paths: array<int>, parents: array<seq<nat>>, queue: array<nat>,
                   c: nat, ghost qStart: nat, qEnd: nat, e: nat, ghost seen: set<(nat, nat)>) returns (qEnd': nat)
    requires CountsFit(adj, root) && level.Length == paths.Length == parents.Length == |adj| && level != paths
    requires queue as object != level && queue as object != paths
    requires qStart < qEnd <= queue.Length && queue.Length >= |adj| && queue[qStart] == c && c < |adj| && e < |adj[c]| && adj[c][e] < |adj|
    requires Searching(adj, root, level[..], paths[..], parents[..], queue[..], qStart, qEnd, e, seen, level[c])
    modifies level, paths, parents, queue
    ensures qStart < qEnd' <= queue.Length && queue[qStart] == c
    ensures Searching(adj, root, level[..], paths[..], parents[..], queue[..], qStart, qEnd', e + 1, seen + {(c, adj[c][e])}, level[c])
  {
    hide *;
    var k := adj[c][e];
    ghost var l0, p0, q0, r0 := level[..], paths[..], queue[..], parents[..];
    if level[k] > level[c] {
      SearchHere(adj, root, l0, p0, r0, q0, qStart, qEnd, e, seen);
      qEnd' := Visit(adj, level, paths, parents, queue, c, k, qEnd);
      TakesIntro(adj, l0, p0, r0, seen, c, k, level[..], paths[..], parents[..]);
      if l0[k] == INFINITY {
        SearchFind(adj, root, l0, p0, r0, q0, qStart, qEnd, e, seen, c, k, level[..], paths[..], parents[..], queue[..]);
      } else {
        SearchAgain(adj, root, l0, p0, r0, q0, qStart, qEnd, e, seen, c, k, level[..], paths[..], parents[..]);
      }
    } else {
      SearchSkip(adj, root, l0, p0, r0, q0, qStart, qEnd, e, seen);
      SearchElim(adj, root, l0, p0, r0, q0, qStart, qEnd, e, seen, l0[c]);
      LineFacts(|adj|, root, l0, q0, qStart, qEnd);
      qEnd' := Visit(adj, level, paths, parents, queue, c, k, qEnd);
    }
  }

  // All edges of one vertex.
  method Serve(adj: seq<seq<nat>>, root: nat, level: array<int>, paths: array<int>, parents: array<seq<nat>>, queue: array<nat>,
               qStart: nat, qEnd0: nat, ghost seen0: set<(nat, nat)>) returns (qEnd: nat, ghost seen: set<(nat, nat)>, ghost top: int)
    requires CountsFit(adj, root) && level.Length == paths.Length == parents.Length == |adj| && level != paths
    requires queue as object != level && queue as object != paths
    requires qStart < qEnd0 <= queue.Length && queue.Length >= |adj| && queue[qStart] < |adj|
    requires Searching(adj, root, level[..], paths[..], parents[..], queue[..], qStart, qEnd0, 0, seen0, level[queue[qStart]])
    modifies level, paths, parents, queue
    ensures qStart + 1 <= qEnd <= |adj|
    ensures Searching(adj, root, level[..], paths[..], parents[..], queue[..], qStart + 1, qEnd, 0, seen, top)
    ensures qStart + 1 < qEnd ==> queue[qStart + 1] < |adj| && top == level[queue[qStart + 1]]
  {
    var c := queue[qStart];
    qEnd, seen := qEnd0, seen0;
    var e := 0;
    SearchElim(adj, root, level[..], paths[..], parents[..], queue[..], qStart, qEnd, e, seen, level[c]);
    AdjBelow(adj, c);
    hide *;
    while e < |adj[c]|
      invariant 0 <= e <= |adj[c]| && qStart < qEnd <= queue.Length && queue[qStart] == c
      invariant Searching(adj, root, level[..], paths[..], parents[..], queue[..], qStart, qEnd, e, seen, level[c])
    {
      qEnd := ServeEdge(adj, root, level, paths, parents, queue, c, qStart, qEnd, e, seen);
      seen := seen + {(c, adj[c][e])};
      e := e + 1;
    }
    top := SearchNext(adj, root, level[..], paths[..], parents[..], queue[..], qStart, qEnd, seen);
    SearchElim(adj, root, level[..], paths[..], parents[..], queue[..], qStart + 1, qEnd, 0, seen, top);
    LineFacts(|adj|, root, level[..], queue[..], qStart + 1, qEnd);
  }

  lemma AdjBelow(adj: seq<seq<nat>>, c: nat)
    requires Proper(adj) && c < |adj|
    ensures forall p | 0 <= p < |adj[c]| :: adj[c][p] < |adj|
  {
  }

  lemma TakesIntro(adj: seq<seq<nat>>, level: seq<int>, paths: seq<int>, parents: seq<seq<nat>>, seen: set<(nat, nat)>, c: nat, k: nat,
                   level': seq<int>, paths': seq<int>, parents': seq<seq<nat>>)
    requires |level| == |paths| == |parents| == |adj| && c < |adj| && k < |adj|
    requires k in adj[c] && (c, k) !in seen && 0 <= level[c] < INFINITY - 1
    requires (level[k] == INFINITY || level[k] == level[c] + 1) && (level[k] == INFINITY <==> parents[k] == []) && (level[k] == INFINITY <==> paths[k] == INFINITY)
    requires level' == if level[k] == INFINITY then level[k := level[c] + 1] else level
    requires paths' == paths[k := if paths[k] == INFINITY then paths[c] else paths[k] + paths[c]]
    requires parents' == parents[k := parents[k] + [c]]
    ensures Takes(adj, level, paths, parents, seen, c, k, level', paths', parents')
  {
    assert level[k] != INFINITY ==> level[k := level[c] + 1] == level;
  }

  // The arrays before the search.
  method Clear(n: nat, root: nat, level: array<int>, paths: array<int>, delta: array<real>, parents: array<seq<nat>>, queue: array<nat>)
    requires root < n && level.Length == paths.Length == delta.Length == parents.Length == n <= queue.Length && level != paths
    requires queue as object != level && queue as object != paths
    modifies level, paths, delta, parents, queue
    ensures forall v | 0 <= v < n :: parents[v] == [] && level[v] == (if v == root then 0 else INFINITY)
    ensures forall v | 0 <= v < n :: paths[v] == (if v == root then 1 else INFINITY) && delta[v] == 0.0
    ensures queue[0] == root
  {
    var j := 0;
    while j < n
      invariant 0 <= j <= n
      invariant forall v | 0 <= v < j :: parents[v] == [] && level[v] == INFINITY && paths[v] == INFINITY && delta[v] == 0.0
    {
      parents[j] := [];
      level[j] := INFINITY;
      paths[j] := INFINITY;
      delta[j] := 0.0;
      j := j + 1;
    }
    level[root] := 0;
    paths[root] := 1;
    queue[0] := root;
  }

  /** The search of bfsBrandesPerTree. */
  method Search(adj: seq<seq<nat>>, root: nat, level: array<int>, paths: array<int>, delta: array<real>, parents: array<seq<nat>>, queue: array<nat>)
    returns (n: nat)
    requires Proper(adj) && CountsFit(adj, root) && root < |adj| < INFINITY
    requires level.Length == paths.Length == delta.Length == parents.Length == |adj| <= queue.Length && level != paths
    requires queue as object != level && queue as object != paths
    modifies level, paths, delta, parents, queue
    ensures Found(adj, root, level[..], paths[..], parents[..], queue[..], n)
    ensures forall v | 0 <= v < |adj| :: delta[v] == 0.0
  {
    Clear(|adj|, root, level, paths, delta, parents, queue);
    hide *;
    var qStart: nat, qEnd: nat := 0, 1;
    ghost var seen: set<(nat, nat)>, top := {}, 0;
    SearchStarts(adj, root, level[..], paths[..], parents[..], queue[..]);
    while qStart != qEnd
      invariant qStart <= qEnd <= |adj| && Searching(adj, root, level[..], paths[..], parents[..], queue[..], qStart, qEnd, 0, seen, top)
      invariant qStart < qEnd ==> queue[qStart] < |adj| && top == level[queue[qStart]]
      invariant forall v | 0 <= v < |adj| :: delta[v] == 0.0
      decreases |adj| - qStart
    {
      qEnd, seen, top := Serve(adj, root, level, paths, parents, queue, qStart, qEnd, seen);
      qStart := qStart + 1;
    }
    SearchDone(adj, root, level[..], paths[..], parents[..], queue[..], qEnd, seen, top);
    n := qEnd;
  }

  // ---------------------------------------------------------------- room for the parents

  lemma {:induction false} DistinctWithin(s: seq<nat>, t: seq<nat>)
    requires (forall p, q | 0 <= p < q < |s| :: s[p] != s[q]) && forall x | x in s :: x in t
    ensures |s| <= |t|
  {
    if s != [] {
      var n := |s| - 1;
      assert s[n] in t;
      var k :| 0 <= k < |t| && t[k] == s[n];
      forall x | x in s[..n] ensures x in t[..k] + t[k + 1..] {
        var p :| 0 <= p < n && s[..n][p] == x;
        assert s[p] in s;
        var l :| 0 <= l < |t| && t[l] == x;
        assert l < k ==> t[..k][l] == x;
        assert l > k ==> t[k + 1..][l - k - 1] == x;
      }
      DistinctWithin(s[..n], t[..k] + t[k + 1..]);
    }
  }

  /** In an undirected graph a vertex has at most as many parents as neighbors: the room allocated for them. */
  lemma ParentsFit(adj: seq<seq<nat>>, root: nat, level: seq<int>, paths: seq<int>, parents: seq<seq<nat>>, queue: seq<nat>, n: nat, v: nat)
    requires Undirected(adj) && Found(adj, root, level, paths, parents, queue, n) && v < |adj|
    ensures |parents[v]| <= |adj[v]|
  {
    assert VertexFound(adj, root, level, paths, parents[v], queue[..n], v);
    DistinctWithin(parents[v], adj[v]);
  }

  // ---------------------------------------------------------------- dependencies

  // What the parent k of v is owed: its share of v's shortest paths, for v and all that depends on v.
  function Share(paths: seq<int>, delta: seq<real>, k: nat, v: nat): real
    requires k < |paths| == |delta| && v < |paths| && paths[v] > 0
  {
    (paths[k] as real / paths[v] as real) * (delta[v] + 1.0)
  }

  predicate Ranked(paths: seq<int>, delta: seq<real>, parents: seq<seq<nat>>, queue: seq<nat>) {
    && |paths| == |delta| == |parents|
    && (forall p | 0 <= p < |queue| :: queue[p] < |paths| && paths[queue[p]] > 0)
    && (forall p, q | 0 <= p < |parents| && 0 <= q < |parents[p]| :: parents[p][q] < |paths|)
  }

  // What k is owed by the queued vertices from position i on.
  function Owed(paths: seq<int>, delta: seq<real>, parents: seq<seq<nat>>, queue: seq<nat>, i: nat, k: nat): real
    requires Ranked(paths, delta, parents, queue) && i <= |queue| && k < |paths|
    decreases |queue| - i
  {
    if i == |queue| then 0.0
    else Owed(paths, delta, parents, queue, i + 1, k) + if k in parents[queue[i]] then Share(paths, delta, k, queue[i]) else 0.0
  }

  // The dependencies of the first i queued vertices together.
  function Together(delta: seq<real>, queue: seq<nat>, i: nat): real
    requires i <= |queue| && forall p | 0 <= p < |queue| :: queue[p] < |delta|
  {
    if i == 0 then 0.0 else Together(delta, queue, i - 1) + delta[queue[i - 1]]
  }

  lemma {:induction false} OwedKept(paths: seq<int>, delta: seq<real>, delta': seq<real>, parents: seq<seq<nat>>, queue: seq<nat>, i: nat, k: nat)
    requires Ranked(paths, delta, parents, queue) && |delta'| == |delta| && i <= |queue| && k < |paths|
    requires forall p | i <= p < |queue| :: delta'[queue[p]] == delta[queue[p]]
    ensures Owed(paths, delta', parents, queue, i, k) == Owed(paths, delta, parents, queue, i, k)
    decreases |queue| - i
  {
    if i < |queue| { OwedKept(paths, delta, delta', parents, queue, i + 1, k); }
  }

  lemma {:induction false} TogetherAdd(delta: seq<real>, queue: seq<nat>, i: nat, p: nat, x: real)
    requires (forall q | 0 <= q < |queue| :: queue[q] < |delta|) && (forall q, r | 0 <= q < r < |queue| :: queue[q] != queue[r])
    requires i <= |queue| && p < |queue|
    ensures Together(delta[queue[p] := delta[queue[p]] + x], queue, i) == Together(delta, queue, i) + if p < i then x else 0.0
  {
    if i > 0 { TogetherAdd(delta, queue, i - 1, p, x); }
  }

  function ShareSum(paths: seq<int>, list: seq<nat>, total: int, x: real): real
    requires SumOfFits(paths, list) && total > 0
  {
    if list == [] then 0.0
    else ShareSum(paths, list[..|list| - 1], total, x) + (paths[list[|list| - 1]] as real / total as real) * x
  }

  lemma Distribute(a: real, b: real, s: real, x: real)
    requires s > 0.0
    ensures ((a + b) / s) * x == (a / s) * x + (b / s) * x
  {
    assert (a + b) / s == a / s + b / s;
    var u, v := a / s, b / s;
    assert (u + v) * x == u * x + v * x;
  }

  lemma {:induction false} ShareSumIs(paths: seq<int>, list: seq<nat>, total: int, x: real)
    requires SumOfFits(paths, list) && total > 0
    ensures ShareSum(paths, list, total, x) == (SumOf(paths, list) as real / total as real) * x
  {
    if list != [] {
      var n := |list| - 1;
      ShareSumIs(paths, list[..n], total, x);
      Distribute(SumOf(paths, list[..n]) as real, paths[list[n]] as real, total as real, x);
    }
  }

  /** All of a vertex's own dependency and one more is passed on to its parents. */
  lemma SharesAddUp(paths: seq<int>, list: seq<nat>, total: int, x: real)
    requires SumOfFits(paths, list) && total > 0 && SumOf(paths, list) == total
    ensures ShareSum(paths, list, total, x) == x
  {
    ShareSumIs(paths, list, total, x);
    var s := total as real;
    assert s / s == 1.0;
  }

  // The vertices from position i on have passed on what they owe.
  ghost predicate Accumulated(paths: seq<int>, delta: seq<real>, parents: seq<seq<nat>>, queue: seq<nat>, i: nat) {
    && Ranked(paths, delta, parents, queue) && i <= |queue|
    && (forall k: nat | k < |paths| :: delta[k] == Owed(paths, delta, parents, queue, i, k))
    && (i > 0 ==> Together(delta, queue, i) == (|queue| - i) as real)
  }

  // Of one vertex's parents the first j have had their share.
  predicate SharesGiven(paths: seq<int>, delta0: seq<real>, delta: seq<real>, served: seq<nat>, v: nat)
    requires v < |paths| == |delta0| && paths[v] > 0
  {
    && |delta| == |delta0|
    && forall k: nat | k < |paths| :: delta[k] == delta0[k] + if k in served then Share(paths, delta0, k, v) else 0.0
  }

  ghost predicate Passing(paths: seq<int>, delta0: seq<real>, delta: seq<real>, parents: seq<seq<nat>>, queue: seq<nat>, i: nat, j: nat)
    requires i < |queue| && Ranked(paths, delta0, parents, queue)
  {
    var v := queue[i];
    && j <= |parents[v]| && SharesGiven(paths, delta0, delta, parents[v][..j], v)
    && Together(delta, queue, i) == Together(delta0, queue, i) + ShareSum(paths, parents[v][..j], paths[v], delta0[v] + 1.0)
  }

  // Parents come earlier in the queue.
  ghost predicate Ordered(parents: seq<seq<nat>>, queue: seq<nat>) {
    && (forall p, q | 0 <= p < q < |queue| :: queue[p] != queue[q])
    && (forall r, j | 0 <= r < |queue| && queue[r] < |parents| && 0 <= j < |parents[queue[r]]| ::
          exists p :: 0 <= p < r && queue[p] == parents[queue[r]][j])
    && (forall r, j, l | 0 <= r < |queue| && queue[r] < |parents| && 0 <= j < l < |parents[queue[r]]| :: parents[queue[r]][j] != parents[queue[r]][l])
  }

  // The parent served next comes earlier in the queue and is served for the first time.
  lemma NextParent(parents: seq<seq<nat>>, queue: seq<nat>, i: nat, j: nat) returns (p: nat)
    requires i < |queue| && queue[i] < |parents| && Ordered(parents, queue) && j < |parents[queue[i]]|
    ensures var v := queue[i];
      var list := parents[v];
      && p < i && queue[p] == list[j] && list[j] != v && v !in list[..j] && list[j] !in list[..j]
      && list[..j + 1] == list[..j] + [list[j]]
  {
    var v := queue[i];
    var list := parents[v];
    p :| p < i && queue[p] == list[j];
    forall l | 0 <= l < j ensures list[l] != v {
      var r :| 0 <= r < i && queue[r] == list[l];
    }
  }

  lemma ShareSumNext(paths: seq<int>, list: seq<nat>, k: nat, total: int, x: real)
    requires SumOfFits(paths, list) && k < |paths| && total > 0
    ensures SumOfFits(paths, list + [k])
    ensures ShareSum(paths, list + [k], total, x) == ShareSum(paths, list, total, x) + (paths[k] as real / total as real) * x
  {
    assert (list + [k])[..|list|] == list;
  }

  lemma RankedAt(paths: seq<int>, delta: seq<real>, parents: seq<seq<nat>>, queue: seq<nat>, i: nat, j: nat)
    requires Ranked(paths, delta, parents, queue) && i < |queue|
    ensures |paths| == |delta| == |parents| && queue[i] < |paths| && paths[queue[i]] > 0
    ensures j <= |parents[queue[i]]| ==> SumOfFits(paths, parents[queue[i]][..j])
    ensures j < |parents[queue[i]]| ==> parents[queue[i]][j] < |paths|
    ensures forall p | 0 <= p < |queue| :: queue[p] < |delta|
  {
  }

  lemma ShareNext(paths: seq<int>, delta0: seq<real>, delta: seq<real>, served: seq<nat>, v: nat, k: nat)
    requires v < |paths| == |delta0| && paths[v] > 0 && k < |paths| && SharesGiven(paths, delta0, delta, served, v) && k !in served && v !in served && k != v
    ensures delta[v] == delta0[v] && |delta| == |delta0|
    ensures Share(paths, delta0, k, v) == (paths[k] as real / paths[v] as real) * (delta[v] + 1.0)
    ensures SharesGiven(paths, delta0, delta[k := delta[k] + Share(paths, delta0, k, v)], served + [k], v)
  {
    var share := Share(paths, delta0, k, v);
    assert delta[v] == delta0[v];
    assert share == (paths[k] as real / paths[v] as real) * (delta[v] + 1.0);
    hide Share;
    assert forall u :: u in served + [k] <==> u in served || u == k;
  }

  lemma PassNext(paths: seq<int>, delta0: seq<real>, delta: seq<real>, parents: seq<seq<nat>>, queue: seq<nat>, i: nat, j: nat)
    requires i < |queue| && Ranked(paths, delta0, parents, queue) && Ordered(parents, queue)
    requires Passing(paths, delta0, delta, parents, queue, i, j) && j < |parents[queue[i]]|
    ensures var v := queue[i];
      var k := parents[v][j];
      && k < |delta| == |paths| && v < |paths| && paths[v] > 0 && v != k && delta[v] == delta0[v]
      && Share(paths, delta0, k, v) == (paths[k] as real / paths[v] as real) * (delta[v] + 1.0)
      && Passing(paths, delta0, delta[k := delta[k] + Share(paths, delta0, k, v)], parents, queue, i, j + 1)
  {
    RankedAt(paths, delta0, parents, queue, i, j);
    var v := queue[i];
    var k := parents[v][j];
    var p := NextParent(parents, queue, i, j);
    assert forall q, r | 0 <= q < r < |queue| :: queue[q] != queue[r];
    assert SharesGiven(paths, delta0, delta, parents[v][..j], v);
    ShareNext(paths, delta0, delta, parents[v][..j], v, k);
    hide Ranked, Ordered, ShareSum, Together, SharesGiven, SumOfFits;
    ShareSumNext(paths, parents[v][..j], k, paths[v], delta0[v] + 1.0);
    TogetherAdd(delta, queue, i, p, Share(paths, delta0, k, v));
  }

  // Vertices at or after position i keep their dependency.
  lemma PassKeeps(paths: seq<int>, delta0: seq<real>, delta: seq<real>, parents: seq<seq<nat>>, queue: seq<nat>, i: nat, p: nat)
    requires i < |queue| && Ranked(paths, delta0, parents, queue) && Ordered(parents, queue) && i <= p < |queue|
    requires Passing(paths, delta0, delta, parents, queue, i, |parents[queue[i]]|)
    ensures queue[p] < |delta| && delta[queue[p]] == delta0[queue[p]]
  {
    var v := queue[i];
    assert parents[v][..|parents[v]|] == parents[v];
    forall l | 0 <= l < |parents[v]| ensures parents[v][l] != queue[p] {
      var r :| 0 <= r < i && queue[r] == parents[v][l];
    }
    hide Together, ShareSum, Share;
  }

  lemma PassOwed(paths: seq<int>, delta0: seq<real>, delta: seq<real>, parents: seq<seq<nat>>, queue: seq<nat>, i: nat, k: nat)
    requires i < |queue| && Accumulated(paths, delta0, parents, queue, i + 1) && Ordered(parents, queue) && k < |paths|
    requires Passing(paths, delta0, delta, parents, queue, i, |parents[queue[i]]|) && Ranked(paths, delta, parents, queue)
    ensures delta[k] == Owed(paths, delta, parents, queue, i, k)
  {
    var v := queue[i];
    assert parents[v][..|parents[v]|] == parents[v];
    forall p | i <= p < |queue| ensures delta[queue[p]] == delta0[queue[p]] {
      PassKeeps(paths, delta0, delta, parents, queue, i, p);
    }
    OwedKept(paths, delta0, delta, parents, queue, i + 1, k);
    assert Share(paths, delta0, k, v) == Share(paths, delta, k, v);
    hide Together, ShareSum, Share, Ordered;
  }

  // A served vertex's turn is complete.
  lemma PassDone(paths: seq<int>, delta0: seq<real>, delta: seq<real>, parents: seq<seq<nat>>, queue: seq<nat>, i: nat)
    requires i < |queue| && Accumulated(paths, delta0, parents, queue, i + 1) && Ordered(parents, queue)
    requires Passing(paths, delta0, delta, parents, queue, i, |parents[queue[i]]|)
    requires i > 0 ==> SumOfFits(paths, parents[queue[i]]) && SumOf(paths, parents[queue[i]]) == paths[queue[i]]
    ensures Accumulated(paths, delta, parents, queue, i)
  {
    var v := queue[i];
    assert parents[v][..|parents[v]|] == parents[v];
    assert Ranked(paths, delta, parents, queue);
    forall k: nat | k < |paths| ensures delta[k] == Owed(paths, delta, parents, queue, i, k) {
      PassOwed(paths, delta0, delta, parents, queue, i, k);
    }
    if i > 0 { SharesAddUp(paths, parents[v], paths[v], delta0[v] + 1.0); }
    hide Owed, Share, ShareSum, Ordered, SumOf;
  }

  // What a vertex is owed, vertex by vertex.
  ghost function Owing(paths: seq<int>, delta: seq<real>, parents: seq<seq<nat>>, queue: seq<nat>, i: nat, k: nat): nat -> real
    requires Ranked(paths, delta, parents, queue) && i <= |queue| && k < |paths|
  {
    (v: nat) => if v < |paths| && v in queue[i..] && k in parents[v] && paths[v] > 0 then Share(paths, delta, k, v) else 0.0
  }

  lemma {:induction false} OwedSum(paths: seq<int>, delta: seq<real>, parents: seq<seq<nat>>, queue: seq<nat>, i: nat, k: nat)
    requires Ranked(paths, delta, parents, queue) && i <= |queue| && k < |paths|
    requires forall p, r | 0 <= p < r < |queue| :: queue[p] != queue[r]
    ensures Owed(paths, delta, parents, queue, i, k) == Sum(|paths|, Owing(paths, delta, parents, queue, i, k))
    decreases |queue| - i
  {
    var now := Owing(paths, delta, parents, queue, i, k);
    if i == |queue| {
      SumNone(|paths|, now);
    } else {
      OwedSum(paths, delta, parents, queue, i + 1, k);
      RankedAt(paths, delta, parents, queue, i, 0);
      OwedNext(paths, delta, parents, queue, i, k);
      hide *;
      forall v: nat | v < |paths| ensures v != queue[i] ==> now(v) == Owing(paths, delta, parents, queue, i + 1, k)(v) {
        OwingNext(paths, delta, parents, queue, i, k, v);
      }
      OwingNext(paths, delta, parents, queue, i, k, queue[i]);
      SumBut(|paths|, now, Owing(paths, delta, parents, queue, i + 1, k), queue[i]);
    }
  }

  lemma OwedNext(paths: seq<int>, delta: seq<real>, parents: seq<seq<nat>>, queue: seq<nat>, i: nat, k: nat)
    requires Ranked(paths, delta, parents, queue) && i < |queue| && k < |paths|
    ensures queue[i] < |parents| && Owed(paths, delta, parents, queue, i, k)
         == Owed(paths, delta, parents, queue, i + 1, k) + if k in parents[queue[i]] then Share(paths, delta, k, queue[i]) else 0.0
  {
    hide Share;
  }

  lemma OwingNext(paths: seq<int>, delta: seq<real>, parents: seq<seq<nat>>, queue: seq<nat>, i: nat, k: nat, v: nat)
    requires Ranked(paths, delta, parents, queue) && i < |queue| && k < |paths| && v < |paths|
    requires forall p, r | 0 <= p < r < |queue| :: queue[p] != queue[r]
    ensures var now, next := Owing(paths, delta, parents, queue, i, k)(v), Owing(paths, delta, parents, queue, i + 1, k)(v);
      if v == queue[i] then next == 0.0 && now == if k in parents[v] then Share(paths, delta, k, v) else 0.0 else now == next
  {
    hide Share;
    assert queue[i..] == [queue[i]] + queue[i + 1..];
    assert queue[i] !in queue[i + 1..];
  }

  lemma FoundMeasured(adj: seq<seq<nat>>, root: nat, level: seq<int>, paths: seq<int>, parents: seq<seq<nat>>, queue: seq<nat>, n: nat)
    requires Found(adj, root, level, paths, parents, queue, n)
    ensures Measured(adj, root, level, INFINITY)
  {
    forall v: nat | v < |adj| ensures LevelOk(adj, root, level, INFINITY, v) {
      assert VertexFound(adj, root, level, paths, parents[v], queue[..n], v);
    }
    hide VertexFound, Walks, Reachable, IsDistance;
  }

  // A vertex's share as the recurrence has it.
  lemma OwingIs(adj: seq<seq<nat>>, root: nat, level: seq<int>, paths: seq<int>, parents: seq<seq<nat>>, queue: seq<nat>, n: nat, delta: seq<real>,
                k: nat, v: nat)
    requires Found(adj, root, level, paths, parents, queue, n) && Measured(adj, root, level, INFINITY)
    requires Ranked(paths, delta, parents, queue[..n]) && k < |adj| && v < |adj|
    ensures Owing(paths, delta, parents, queue[..n], 0, k)(v) == Times(Ratio(adj, root, level, INFINITY, k, v), delta[v] + 1.0)
  {
    assert queue[..n][0..] == queue[..n];
    assert VertexFound(adj, root, level, paths, parents[v], queue[..n], v) && VertexFound(adj, root, level, paths, parents[k], queue[..n], k);
  }

  /** Brandes' theorem: what the recurrence leaves at a vertex is its dependency. */
  lemma OwedIsDependency(adj: seq<seq<nat>>, root: nat, level: seq<int>, paths: seq<int>, parents: seq<seq<nat>>, queue: seq<nat>, n: nat, delta: seq<real>)
    requires Found(adj, root, level, paths, parents, queue, n) && Ranked(paths, delta, parents, queue[..n])
    requires forall k: nat | k < |adj| :: delta[k] == Owed(paths, delta, parents, queue[..n], 0, k)
    ensures Measured(adj, root, level, INFINITY) && forall k: nat | k < |adj| :: delta[k] == Dependency(adj, root, level, INFINITY, k)
  {
    FoundMeasured(adj, root, level, paths, parents, queue, n);
    FoundSizes(adj, root, level, paths, parents, queue, n);
    RankedSizes(paths, delta, parents, queue[..n]);
    var q := queue[..n];
    var parts := (k: nat) => if k < |paths| then Owing(paths, delta, parents, q, 0, k) else (v: nat) => 0.0;
    hide *;
    forall k: nat, v: nat | k < |adj| && v < |adj| ensures parts(k)(v) == Times(Ratio(adj, root, level, INFINITY, k, v), delta[v] + 1.0) {
      OwingIs(adj, root, level, paths, parents, queue, n, delta, k, v);
    }
    forall k: nat | k < |adj| ensures delta[k] == Sum(|adj|, parts(k)) { OwedSum(paths, delta, parents, q, 0, k); }
    forall k: nat | k < |adj| ensures delta[k] == Dependency(adj, root, level, INFINITY, k) {
      RecursUnique(adj, root, level, INFINITY, delta, parts, k);
    }
  }

  lemma RankedSizes(paths: seq<int>, delta: seq<real>, parents: seq<seq<nat>>, queue: seq<nat>)
    requires Ranked(paths, delta, parents, queue)
    ensures |delta| == |paths|
  {
  }

  // But for the first, each queued vertex's count is its parents' together.
  ghost predicate Splits(paths: seq<int>, parents: seq<seq<nat>>, queue: seq<nat>) {
    forall p | 0 < p < |queue| ::
      queue[p] < |parents| == |paths| && SumOfFits(paths, parents[queue[p]]) && SumOf(paths, parents[queue[p]]) == paths[queue[p]]
  }

  lemma SplitsAt(paths: seq<int>, parents: seq<seq<nat>>, queue: seq<nat>, i: nat)
    requires Splits(paths, parents, queue) && i < |queue|
    ensures i > 0 ==> queue[i] < |parents| == |paths| && SumOfFits(paths, parents[queue[i]]) && SumOf(paths, parents[queue[i]]) == paths[queue[i]]
  {
  }

  lemma FoundRanked(adj: seq<seq<nat>>, root: nat, level: seq<int>, paths: seq<int>, parents: seq<seq<nat>>, queue: seq<nat>, n: nat, delta: seq<real>)
    requires Found(adj, root, level, paths, parents, queue, n) && |delta| == |paths|
    ensures Ranked(paths, delta, parents, queue[..n]) && Ordered(parents, queue[..n])
    ensures Splits(paths, parents, queue[..n]) && parents[root] == []
  {
    var q := queue[..n];
    FoundAt(adj, root, level, paths, parents, queue, n, 0);
    forall p | 0 <= p < n ensures q[p] < |paths| && paths[q[p]] > 0 { FoundAt(adj, root, level, paths, parents, queue, n, p); }
    forall p | 0 < p < n
      ensures q[p] < |parents| == |paths| && SumOfFits(paths, parents[q[p]]) && SumOf(paths, parents[q[p]]) == paths[q[p]]
    {
      FoundAt(adj, root, level, paths, parents, queue, n, p);
    }
    forall p, l | 0 <= p < |parents| && 0 <= l < |parents[p]| ensures parents[p][l] < |paths| {
      assert VertexFound(adj, root, level, paths, parents[p], q, p) && parents[p][l] in parents[p];
    }
    FoundOrdered(adj, root, level, paths, parents, queue, n);
    hide Found, VertexFound, SumOf, Ordered;
  }

  // The vertex at position p of the queue.
  lemma FoundAt(adj: seq<seq<nat>>, root: nat, level: seq<int>, paths: seq<int>, parents: seq<seq<nat>>, queue: seq<nat>, n: nat, p: nat)
    requires Found(adj, root, level, paths, parents, queue, n) && p < n
    ensures var v := queue[p];
      && v < |paths| == |parents| && paths[v] > 0 && (p == 0 ==> v == root && parents[v] == [])
      && (p > 0 ==> SumOfFits(paths, parents[v]) && SumOf(paths, parents[v]) == paths[v])
      && (forall j, l | 0 <= j < l < |parents[v]| :: parents[v][j] != parents[v][l])
  {
    var v := queue[p];
    assert queue[..n][p] == v;
    assert VertexFound(adj, root, level, paths, parents[v], queue[..n], v);
    hide SumOf, Walks, Reachable, SumOfFits;
  }

  lemma FoundParent(adj: seq<seq<nat>>, root: nat, level: seq<int>, paths: seq<int>, parents: seq<seq<nat>>, queue: seq<nat>, n: nat, r: nat, j: nat)
    requires Found(adj, root, level, paths, parents, queue, n) && r < n && queue[r] < |parents| && j < |parents[queue[r]]|
    ensures exists p :: 0 <= p < r && queue[p] == parents[queue[r]][j]
  {
    var u := parents[queue[r]][j];
    assert VertexFound(adj, root, level, paths, parents[queue[r]], queue[..n], queue[r]) && u in parents[queue[r]];
    assert VertexFound(adj, root, level, paths, parents[u], queue[..n], u);
    var p :| 0 <= p < n && queue[..n][p] == u;
    assert queue[p] in parents[queue[r]];
    hide SumOf, Walks, Reachable, SumOfFits, IsDistance;
  }

  lemma FoundOrdered(adj: seq<seq<nat>>, root: nat, level: seq<int>, paths: seq<int>, parents: seq<seq<nat>>, queue: seq<nat>, n: nat)
    requires Found(adj, root, level, paths, parents, queue, n)
    ensures Ordered(parents, queue[..n])
  {
    var q := queue[..n];
    forall r, j, l | 0 <= r < n && q[r] < |parents| && 0 <= j < l < |parents[q[r]]| ensures parents[q[r]][j] != parents[q[r]][l] {
      FoundAt(adj, root, level, paths, parents, queue, n, r);
    }
    forall r, j | 0 <= r < n && q[r] < |parents| && 0 <= j < |parents[q[r]]| ensures exists p :: 0 <= p < r && q[p] == parents[q[r]][j] {
      FoundParent(adj, root, level, paths, parents, queue, n, r, j);
      var p :| 0 <= p < r && queue[p] == parents[queue[r]][j];
      assert q[p] == parents[q[r]][j];
    }
    hide VertexFound, SumOf;
  }

  // One vertex's dependency passed on to its parents.
  method PassOn(paths: array<int>, delta: array<real>, parents: array<seq<nat>>, queue: array<nat>, ghost n: nat, i: nat)
    requires i < n <= queue.Length && delta.Length == paths.Length == parents.Length
    requires Accumulated(paths[..], delta[..], parents[..], queue[..n], i + 1) && Ordered(parents[..], queue[..n])
    requires i > 0 ==> SumOfFits(paths[..], parents[..][queue[..n][i]]) && SumOf(paths[..], parents[..][queue[..n][i]]) == paths[..][queue[..n][i]]
    modifies delta
    ensures Accumulated(paths[..], delta[..], parents[..], queue[..n], i)
    ensures parents[queue[i]] == [] ==> delta[..] == old(delta[..])
    ensures forall p | i <= p < n :: queue[..n][p] < delta.Length && delta[queue[..n][p]] == old(delta[..])[queue[..n][p]]
  {
    ghost var ps, d0, rs, q := paths[..], delta[..], parents[..], queue[..n];
    var v := queue[i];
    assert v == q[i];
    PassStarts(ps, d0, rs, q, i);
    hide *;
    var j := 0;
    while j < |parents[v]|
      invariant 0 <= j <= |parents[v]| && (j == 0 ==> delta[..] == d0)
      invariant Passing(ps, d0, delta[..], rs, q, i, j)
    {
      PassOne(paths, delta, parents, ps, d0, rs, q, i, v, j);
      j := j + 1;
    }
    PassDone(ps, d0, delta[..], rs, q, i);
    forall p | i <= p < n ensures q[p] < delta.Length && delta[q[p]] == d0[q[p]] { PassKeeps(ps, d0, delta[..], rs, q, i, p); }
  }

  lemma PassStarts(paths: seq<int>, delta: seq<real>, parents: seq<seq<nat>>, queue: seq<nat>, i: nat)
    requires i < |queue| && Accumulated(paths, delta, parents, queue, i + 1)
    ensures Ranked(paths, delta, parents, queue) && queue[i] < |parents| && Passing(paths, delta, delta, parents, queue, i, 0)
  {
    assert parents[queue[i]][..0] == [];
  }

  // One parent's share.
  method PassOne(paths: array<int>, delta: array<real>, parents: array<seq<nat>>, ghost ps: seq<int>, ghost d0: seq<real>, ghost rs: seq<seq<nat>>,
                 ghost q: seq<nat>, ghost i: nat, v: nat, j: nat)
    requires paths[..] == ps && parents[..] == rs && i < |q| && Ranked(ps, d0, rs, q) && Ordered(rs, q) && v == q[i] && v < parents.Length
    requires j < |parents[v]| && delta.Length == paths.Length && Passing(ps, d0, delta[..], rs, q, i, j)
    modifies delta
    ensures Passing(ps, d0, delta[..], rs, q, i, j + 1)
  {
    PassNext(ps, d0, delta[..], rs, q, i, j);
    hide Passing, Ordered, Together, ShareSum;
    var k := parents[v][j];
    ghost var d1 := delta[..];
    assert k == rs[q[i]][j] && delta[v] == d1[v] == d0[v] && paths[k] == ps[k] && paths[v] == ps[v];
    ghost var share := Share(ps, d0, k, v);
    hide *;
    assert share == (paths[k] as real / paths[v] as real) * (delta[v] + 1.0);
    delta[k] := delta[k] + (paths[k] as real / paths[v] as real) * (delta[v] + 1.0);
    assert delta[..] == d1[k := d1[k] + share];
  }

  lemma {:induction false} TogetherZero(delta: seq<real>, queue: seq<nat>, i: nat)
    requires i <= |queue| && (forall p | 0 <= p < |queue| :: queue[p] < |delta|) && forall v | 0 <= v < |delta| :: delta[v] == 0.0
    ensures Together(delta, queue, i) == 0.0
  {
    if i > 0 { TogetherZero(delta, queue, i - 1); }
  }

  lemma NothingOwed(paths: seq<int>, delta: seq<real>, parents: seq<seq<nat>>, queue: seq<nat>)
    requires Ranked(paths, delta, parents, queue) && forall v | 0 <= v < |delta| :: delta[v] == 0.0
    ensures Accumulated(paths, delta, parents, queue, |queue|)
  {
    TogetherZero(delta, queue, |queue|);
  }

  lemma FirstTogether(paths: seq<int>, delta: seq<real>, parents: seq<seq<nat>>, queue: seq<nat>)
    requires Accumulated(paths, delta, parents, queue, 1)
    ensures queue[0] < |delta| && delta[queue[0]] == (|queue| - 1) as real
  {
    assert Together(delta, queue, 1) == Together(delta, queue, 0) + delta[queue[0]];
  }

  // The vertices from position i on, but for the root, have been credited with their dependency.
  ghost predicate Credited(bc0: seq<real>, bc: seq<real>, delta: seq<real>, queue: seq<nat>, i: nat, root: nat)
    requires i <= |queue|
  {
    && |bc| == |bc0| == |delta|
    && forall v: nat | v < |bc0| :: bc[v] == bc0[v] + if v != root && v in queue[i..] then delta[v] else 0.0
  }

  lemma CreditStarts(bc0: seq<real>, delta: seq<real>, queue: seq<nat>, root: nat)
    requires |bc0| == |delta|
    ensures Credited(bc0, bc0, delta, queue, |queue|, root)
  {
    assert queue[|queue|..] == [];
  }

  lemma CreditNext(bc0: seq<real>, bc: seq<real>, delta: seq<real>, delta': seq<real>, queue: seq<nat>, i: nat, root: nat, bc': seq<real>)
    requires i < |queue| && Credited(bc0, bc, delta, queue, i + 1, root) && |delta'| == |delta|
    requires forall p | 0 <= p < |queue| :: queue[p] < |bc0|
    requires forall p, r | 0 <= p < r < |queue| :: queue[p] != queue[r]
    requires forall p | i <= p < |queue| :: delta'[queue[p]] == delta[queue[p]]
    requires bc' == if queue[i] != root then bc[queue[i] := bc[queue[i]] + delta'[queue[i]]] else bc
    ensures Credited(bc0, bc', delta', queue, i, root)
  {
    assert queue[i..] == [queue[i]] + queue[i + 1..];
    assert queue[i] !in queue[i + 1..];
    forall v: nat | v < |bc0| && v in queue[i + 1..] ensures delta'[v] == delta[v] {
      var p :| 0 <= p < |queue| - i - 1 && queue[i + 1..][p] == v;
      assert queue[i + 1 + p] == v;
    }
  }

  /** The second phase: from the last queued vertex back to the root. */
  method Accumulate(root: nat, paths: array<int>, delta: array<real>, parents: array<seq<nat>>, queue: array<nat>, n: nat, totalBC: array<real>)
    requires n <= queue.Length && delta.Length == paths.Length == parents.Length == totalBC.Length && totalBC != delta && root < delta.Length
    requires Ranked(paths[..], delta[..], parents[..], queue[..n]) && Ordered(parents[..], queue[..n])
    requires Splits(paths[..], parents[..], queue[..n])
    requires 0 < n && queue[0] == root && parents[root] == [] && forall v | 0 <= v < delta.Length :: delta[v] == 0.0
    modifies delta, totalBC
    ensures Accumulated(paths[..], delta[..], parents[..], queue[..n], 0)
    ensures delta[root] == (n - 1) as real
    ensures Credited(old(totalBC[..]), totalBC[..], delta[..], queue[..n], 0, root)
  {
    ghost var ps, rs, q, bc0 := paths[..], parents[..], queue[..n], totalBC[..];
    hide *;
    CreditStarts(bc0, delta[..], q, root);
    NothingOwed(ps, delta[..], rs, q);
    CreditingIntro(ps, delta[..], rs, q, n, bc0, bc0, root);
    var i := n;
    while i > 0
      invariant 0 <= i <= n && paths[..] == ps && parents[..] == rs && queue[..n] == q
      invariant Crediting(ps, delta[..], rs, q, i, bc0, totalBC[..], root)
    {
      i := i - 1;
      AccumulateOne(root, paths, delta, parents, queue, n, totalBC, i, bc0);
    }
    CreditingElim(ps, delta[..], rs, q, 0, bc0, totalBC[..], root);
    assert delta[..][root] == delta[root];
  }

  ghost predicate Crediting(paths: seq<int>, delta: seq<real>, parents: seq<seq<nat>>, queue: seq<nat>, i: nat, bc0: seq<real>, bc: seq<real>, root: nat) {
    && Accumulated(paths, delta, parents, queue, i) && Credited(bc0, bc, delta, queue, i, root) && root < |delta|
    && (i == 0 ==> delta[root] == (|queue| - 1) as real)
  }

  lemma CreditingIntro(paths: seq<int>, delta: seq<real>, parents: seq<seq<nat>>, queue: seq<nat>, i: nat, bc0: seq<real>, bc: seq<real>, root: nat)
    requires Accumulated(paths, delta, parents, queue, i) && i <= |queue| && Credited(bc0, bc, delta, queue, i, root) && root < |delta|
    requires i == 0 ==> delta[root] == (|queue| - 1) as real
    ensures Crediting(paths, delta, parents, queue, i, bc0, bc, root)
  {
    hide Accumulated, Credited;
  }

  lemma CreditingElim(paths: seq<int>, delta: seq<real>, parents: seq<seq<nat>>, queue: seq<nat>, i: nat, bc0: seq<real>, bc: seq<real>, root: nat)
    requires Crediting(paths, delta, parents, queue, i, bc0, bc, root)
    ensures Accumulated(paths, delta, parents, queue, i) && i <= |queue| && Credited(bc0, bc, delta, queue, i, root) && root < |delta|
    ensures i == 0 ==> delta[root] == (|queue| - 1) as real
  {
    hide Credited;
  }

  // One vertex's turn.
  method AccumulateOne(root: nat, paths: array<int>, delta: array<real>, parents: array<seq<nat>>, queue: array<nat>, ghost n: nat, totalBC: array<real>,
                       i: nat, ghost bc0: seq<real>)
    requires i < n <= queue.Length && delta.Length == paths.Length == parents.Length == totalBC.Length && totalBC != delta && root < delta.Length
    requires Ordered(parents[..], queue[..n]) && Crediting(paths[..], delta[..], parents[..], queue[..n], i + 1, bc0, totalBC[..], root)
    requires Splits(paths[..], parents[..], queue[..n]) && queue[0] == root && parents[root] == []
    modifies delta, totalBC
    ensures Crediting(paths[..], delta[..], parents[..], queue[..n], i, bc0, totalBC[..], root)
  {
    hide *;
    ghost var ps, rs, q, d0, bc := paths[..], parents[..], queue[..n], delta[..], totalBC[..];
    CreditingElim(ps, d0, rs, q, i + 1, bc0, bc, root);
    QueueFacts(ps, d0, rs, q, i, bc0, bc, root);
    SplitsAt(ps, rs, q, i);
    if i == 0 { FirstTogether(ps, d0, rs, q); }
    PassOn(paths, delta, parents, queue, n, i);
    var v := queue[i];
    assert v == q[i];
    if v != root { totalBC[v] := totalBC[v] + delta[v]; }
    CreditNext(bc0, bc, d0, delta[..], q, i, root, totalBC[..]);
    CreditingIntro(ps, delta[..], rs, q, i, bc0, totalBC[..], root);
  }

  lemma QueueFacts(paths: seq<int>, delta: seq<real>, parents: seq<seq<nat>>, queue: seq<nat>, i: nat, bc0: seq<real>, bc: seq<real>, root: nat)
    requires i < |queue| && Accumulated(paths, delta, parents, queue, i + 1) && Ordered(parents, queue) && Credited(bc0, bc, delta, queue, i + 1, root)
    ensures |bc0| == |paths| && forall p | 0 <= p < |queue| :: queue[p] < |bc0|
    ensures forall p, r | 0 <= p < r < |queue| :: queue[p] != queue[r]
  {
  }

  lemma AccumulatedDone(paths: seq<int>, delta: seq<real>, parents: seq<seq<nat>>, queue: seq<nat>)
    requires Accumulated(paths, delta, parents, queue, 0)
    ensures Ranked(paths, delta, parents, queue) && forall k: nat | k < |paths| :: delta[k] == Owed(paths, delta, parents, queue, 0, k)
  {
  }

  lemma CreditedDone(bc0: seq<real>, bc: seq<real>, delta: seq<real>, queue: seq<nat>, root: nat)
    requires Credited(bc0, bc, delta, queue, 0, root)
    ensures |bc| == |bc0| == |delta| && forall v: nat | v < |bc0| :: bc[v] == bc0[v] + if v != root && v in queue then delta[v] else 0.0
  {
    assert queue[0..] == queue;
  }

  lemma FoundSizes(adj: seq<seq<nat>>, root: nat, level: seq<int>, paths: seq<int>, parents: seq<seq<nat>>, queue: seq<nat>, n: nat)
    requires Found(adj, root, level, paths, parents, queue, n)
    ensures forall p, r | 0 <= p < r < n :: queue[p] != queue[r]
    ensures 0 < n <= |queue| && |adj| == |paths| && root < |adj| && queue[0] == root && forall p | 0 <= p < n :: queue[p] < |adj|
  {
  }

  /**
   bfsBrandesPerTree: the search's results, the dependency of the root on each vertex, and a root
   whose own value is the number of other vertices reached.
   */
  method BfsBrandesPerTree(adj: seq<seq<nat>>, root: nat, level: array<int>, paths: array<int>, delta: array<real>,
                           parents: array<seq<nat>>, queue: array<nat>, totalBC: array<real>) returns (n: nat)
    requires Proper(adj) && CountsFit(adj, root) && root < |adj| < INFINITY && totalBC.Length == |adj| && totalBC != delta
    requires level.Length == paths.Length == delta.Length == parents.Length == |adj| <= queue.Length && level != paths
    requires queue as object != level && queue as object != paths
    modifies level, paths, delta, parents, queue, totalBC
    ensures Found(adj, root, level[..], paths[..], parents[..], queue[..], n)
    ensures n <= queue.Length && Ranked(paths[..], delta[..], parents[..], queue[..n])
    ensures forall k: nat | k < |adj| :: delta[k] == Owed(paths[..], delta[..], parents[..], queue[..n], 0, k)
    ensures Measured(adj, root, level[..], INFINITY) && forall v: nat | v < |adj| :: delta[v] == Dependency(adj, root, level[..], INFINITY, v)
    ensures delta[root] == (n - 1) as real
    ensures forall v: nat | v < |adj| :: totalBC[v] == old(totalBC[v]) + if v != root && v in queue[..n] then delta[v] else 0.0
  {
    hide *;
    n := Search(adj, root, level, paths, delta, parents, queue);
    FoundRanked(adj, root, level[..], paths[..], parents[..], queue[..], n, delta[..]);
    FoundSizes(adj, root, level[..], paths[..], parents[..], queue[..], n);
    assert queue[..][..n] == queue[..n];
    Accumulate(root, paths, delta, parents, queue, n, totalBC);
    AccumulatedDone(paths[..], delta[..], parents[..], queue[..n]);
    OwedIsDependency(adj, root, level[..], paths[..], parents[..], queue[..], n, delta[..]);
    CreditedDone(old(totalBC[..]), totalBC[..], delta[..], queue[..n], root);
  }
}
