/**
 Betweenness from several roots: the roots are shared out among threads, each of which adds up its own
 dependencies, and the threads' sums are added at the end.
 */
module Betweenness {
  import opened ShortestPaths
  import opened Dependencies
  import opened Brandes

  // ---------------------------------------------------------------- one root

  lemma {:induction false} ThroughAtMost(adj: seq<seq<nat>>, root: nat, v: nat, i: nat, t: nat, n: nat)
    ensures Through(adj, root, v, i, t, n) <= Walks(adj, root, t, n)
    decreases n, 0
  {
    if n > i { ThroughFromAtMost(adj, root, v, i, t, n - 1, |adj|); }
  }

  lemma {:induction false} ThroughFromAtMost(adj: seq<seq<nat>>, root: nat, v: nat, i: nat, t: nat, n: nat, k: nat)
    requires k <= |adj|
    ensures ThroughFrom(adj, root, v, i, t, n, k) <= WalksFrom(adj, root, t, n, k)
    decreases n, 1 + k
  {
    if k > 0 {
      ThroughFromAtMost(adj, root, v, i, t, n, k - 1);
      ThroughAtMost(adj, root, v, i, k - 1, n);
    }
  }

  lemma PartRange(a: nat, s: nat)
    requires s > 0 && a <= s
    ensures 0.0 <= Part(a, s) <= 1.0
  {
    var x, y := a as real, s as real;
    assert x / y <= y / y;
  }

  lemma ShareRange(adj: seq<seq<nat>>, root: nat, level: seq<int>, far: int, v: nat, t: nat)
    requires Measured(adj, root, level, far) && v < |adj| && v != root
    ensures 0.0 <= Shares(adj, root, level, far, v)(t) <= if t == v || t == root then 0.0 else 1.0
  {
    hide Walks, Through, Part;
    RootLevel(adj, root, level, far, v);
    if t != v && t < |adj| && level[v] < far && level[t] < far {
      assert LevelOk(adj, root, level, far, t) && LevelOk(adj, root, level, far, v);
      if t == root {
        PairNone(adj, root, level, far, v, t);
      } else {
        ThroughAtMost(adj, root, v, level[v], t, level[t]);
        PartRange(Through(adj, root, v, level[v], t, level[t]), Walks(adj, root, t, level[t]));
      }
    }
  }

  // The root is the only vertex at distance 0.
  lemma RootLevel(adj: seq<seq<nat>>, root: nat, level: seq<int>, far: int, v: nat)
    requires Measured(adj, root, level, far) && v < |adj| && v != root
    ensures |level| == |adj| && level[root] == 0 && level[v] != 0
  {
    assert LevelOk(adj, root, level, far, root) && LevelOk(adj, root, level, far, v);
    assert Walks(adj, root, root, 0) == 1;
    assert Reachable(adj, root, root);
  }

  lemma {:induction false} SumAtMost(n: nat, f: nat -> real, g: nat -> real)
    requires forall i: nat | i < n :: 0.0 <= f(i) <= g(i)
    ensures 0.0 <= Sum(n, f) <= Sum(n, g)
  {
    if n > 0 { SumAtMost(n - 1, f, g); }
  }

  lemma {:induction false} SumOnes(n: nat, f: nat -> real)
    requires forall i: nat | i < n :: f(i) == 1.0
    ensures Sum(n, f) == n as real
  {
    if n > 0 { SumOnes(n - 1, f); }
  }

  /** No vertex but the root contributes to more than all others: the range that the documentation states. */
  lemma DependencyRange(adj: seq<seq<nat>>, root: nat, level: seq<int>, far: int, v: nat)
    requires Measured(adj, root, level, far) && v < |adj| && v != root
    ensures 0.0 <= Dependency(adj, root, level, far, v) <= (|adj| - 2) as real
  {
    var n := |adj|;
    assert root < n by { hide LevelOk; }
    var ones, most, others := (t: nat) => 1.0, (t: nat) => if t == v || t == root then 0.0 else 1.0, (t: nat) => if t == v then 0.0 else 1.0;
    hide *;
    SumOnes(n, ones);
    SumBut(n, others, ones, v);
    SumBut(n, most, others, root);
    forall t: nat | t < n ensures 0.0 <= Shares(adj, root, level, far, v)(t) <= most(t) { ShareRange(adj, root, level, far, v, t); }
    SumAtMost(n, Shares(adj, root, level, far, v), most);
    DependencyIs(adj, root, level, far, v);
  }

  // A vertex that is not reached contributes nothing.
  lemma DependencyNone(adj: seq<seq<nat>>, root: nat, level: seq<int>, far: int, v: nat)
    requires Measured(adj, root, level, far) && v < |adj| && level[v] >= far
    ensures Dependency(adj, root, level, far, v) == 0.0
  {
    SumNone(|adj|, Shares(adj, root, level, far, v));
  }

  lemma DistanceUnique(adj: seq<seq<nat>>, root: nat, v: nat, d: nat, e: nat)
    requires IsDistance(adj, root, v, d) && IsDistance(adj, root, v, e)
    ensures d == e
  {
    hide Walks;
    assert d < e ==> Walks(adj, root, v, d) == 0;
  }

  /** Levels of one root are determined by the graph. */
  lemma MeasuredUnique(adj: seq<seq<nat>>, root: nat, level: seq<int>, level': seq<int>, far: int)
    requires Measured(adj, root, level, far) && Measured(adj, root, level', far)
    ensures level == level'
  {
    forall v: nat | v < |adj| ensures level[v] == level'[v] {
      assert LevelOk(adj, root, level, far, v) && LevelOk(adj, root, level', far, v);
      if level[v] < far && level'[v] < far {
        DistanceUnique(adj, root, v, level[v], level'[v]);
      }
      hide Walks;
    }
    hide LevelOk;
  }

  // ---------------------------------------------------------------- several roots

  // Levels from each of the roots.
  ghost predicate AllMeasured(adj: seq<seq<nat>>, roots: seq<nat>, levels: seq<seq<int>>) {
    |levels| <= |roots| && forall i: nat | i < |levels| :: Measured(adj, roots[i], levels[i], INFINITY)
  }

  // What v contributes to the shortest paths from the roots, root by root.
  ghost function Credits(adj: seq<seq<nat>>, roots: seq<nat>, levels: seq<seq<int>>, v: nat): nat -> real
    requires AllMeasured(adj, roots, levels) && v < |adj|
  {
    (i: nat) => if i < |levels| && v != roots[i] then Dependency(adj, roots[i], levels[i], INFINITY, v) else 0.0
  }

  // From the first k roots.
  ghost function Centrality(adj: seq<seq<nat>>, roots: seq<nat>, levels: seq<seq<int>>, k: nat, v: nat): real
    requires AllMeasured(adj, roots, levels) && v < |adj|
  {
    Sum(k, Credits(adj, roots, levels, v))
  }

  // How many of the first k roots are not v.
  function Others(roots: seq<nat>, k: nat, v: nat): (n: nat)
    requires k <= |roots|
    ensures n <= k
  {
    if k == 0 then 0 else Others(roots, k - 1, v) + if roots[k - 1] != v then 1 else 0
  }

  /** The range that the documentation states: at most n - 2 from each root that is another vertex. */
  lemma {:induction false} CentralityRange(adj: seq<seq<nat>>, roots: seq<nat>, levels: seq<seq<int>>, k: nat, v: nat)
    requires AllMeasured(adj, roots, levels) && k <= |levels| <= |roots| && v < |adj|
    ensures 0.0 <= Centrality(adj, roots, levels, k, v) <= (Others(roots, k, v) * (|adj| - 2)) as real
    decreases k
  {
    hide *;
    CentralityStep(adj, roots, levels, k, v);
    OthersStep(roots, k, v);
    if k > 0 {
      CentralityRange(adj, roots, levels, k - 1, v);
      MeasuredAt(adj, roots, levels, k - 1);
      if v != roots[k - 1] { DependencyRange(adj, roots[k - 1], levels[k - 1], INFINITY, v); }
      Grows(Others(roots, k - 1, v), |adj| - 2);
    }
  }

  lemma Grows(a: int, c: int)
    ensures (a + 1) * c == a * c + c && 0 * c == 0
  {
  }

  lemma OthersStep(roots: seq<nat>, k: nat, v: nat)
    requires k <= |roots|
    ensures Others(roots, k, v) == if k == 0 then 0 else Others(roots, k - 1, v) + if roots[k - 1] != v then 1 else 0
  {
  }

  lemma MeasuredAt(adj: seq<seq<nat>>, roots: seq<nat>, levels: seq<seq<int>>, i: nat)
    requires AllMeasured(adj, roots, levels) && i < |levels|
    ensures i < |roots| && Measured(adj, roots[i], levels[i], INFINITY)
  {
    hide Measured;
  }

  lemma CentralityStep(adj: seq<seq<nat>>, roots: seq<nat>, levels: seq<seq<int>>, k: nat, v: nat)
    requires AllMeasured(adj, roots, levels) && k <= |levels| <= |roots| && v < |adj|
    ensures k > 0 ==> Measured(adj, roots[k - 1], levels[k - 1], INFINITY)
    ensures Centrality(adj, roots, levels, k, v) == if k == 0 then 0.0
      else Centrality(adj, roots, levels, k - 1, v) + if v != roots[k - 1] then Dependency(adj, roots[k - 1], levels[k - 1], INFINITY, v) else 0.0
  {
    hide Measured, Dependency;
  }

  // One more root.
  lemma CentralityNext(adj: seq<seq<nat>>, roots: seq<nat>, levels: seq<seq<int>>, level: seq<int>, v: nat)
    requires AllMeasured(adj, roots, levels) && |levels| < |roots| && Measured(adj, roots[|levels|], level, INFINITY) && v < |adj|
    ensures AllMeasured(adj, roots, levels + [level])
    ensures forall k: nat | k <= |levels| :: Centrality(adj, roots, levels + [level], k, v) == Centrality(adj, roots, levels, k, v)
    ensures Centrality(adj, roots, levels + [level], |levels| + 1, v)
         == Centrality(adj, roots, levels, |levels|, v) + if v != roots[|levels|] then Dependency(adj, roots[|levels|], level, INFINITY, v) else 0.0
  {
    var levels', n := levels + [level], |levels|;
    hide Measured, Dependency;
    forall k: nat | k <= n ensures Centrality(adj, roots, levels', k, v) == Centrality(adj, roots, levels, k, v) {
      SumSame(k, Credits(adj, roots, levels', v), Credits(adj, roots, levels, v));
    }
    assert levels'[n] == level;
  }

  // ---------------------------------------------------------------- choosing roots

  // The vertices below n that have an edge.
  function Busy(adj: seq<seq<nat>>, n: nat): seq<nat>
    requires n <= |adj|
  {
    if n == 0 then [] else Busy(adj, n - 1) + if adj[n - 1] != [] then [n - 1] else []
  }

  lemma {:induction false} BusyAre(adj: seq<seq<nat>>, n: nat)
    requires n <= |adj|
    ensures forall v: nat :: v in Busy(adj, n) <==> v < n && adj[v] != []
    ensures forall i, k | 0 <= i < k < |Busy(adj, n)| :: Busy(adj, n)[i] < Busy(adj, n)[k]
  {
    if n > 0 {
      BusyAre(adj, n - 1);
      var b := Busy(adj, n - 1);
      forall i | 0 <= i < |b| ensures b[i] < n - 1 { assert b[i] in b; }
    }
  }

  /** The first vertices with an edge; where there are fewer than roots asked for, the rest of the list is never set. */
  method SelectRoots(adj: seq<seq<nat>>, roots: array<nat>) returns (r1: nat)
    modifies roots
    ensures r1 <= roots.Length && roots[r1..] == old(roots[r1..])
    ensures forall i | 0 <= i < r1 :: roots[i] < |adj| && adj[roots[i]] != []
    ensures forall i, k | 0 <= i < k < r1 :: roots[i] < roots[k]
    ensures forall v: nat | v < |adj| && adj[v] != [] && v !in roots[..r1] :: r1 == roots.Length && forall i | 0 <= i < r1 :: roots[i] < v
  {
    r1 := 0;
    var v := 0;
    while v < |adj| && r1 < roots.Length
      invariant 0 <= v <= |adj| && r1 <= roots.Length && roots[..r1] == Busy(adj, v)
      invariant forall i | r1 <= i < roots.Length :: roots[i] == old(roots[i])
    {
      if adj[v] != [] {
        roots[r1] := v;
        r1 := r1 + 1;
        assert roots[..r1] == roots[..r1 - 1] + [v];
      }
      v := v + 1;
    }
    BusyAre(adj, v);
    forall i | 0 <= i < r1 ensures roots[i] < v && adj[roots[i]] != [] { assert roots[..r1][i] in Busy(adj, v); }
    forall i, k | 0 <= i < k < r1 ensures roots[i] < roots[k] { assert roots[..r1][i] < roots[..r1][k]; }
  }

  // ---------------------------------------------------------------- the threads

  ghost predicate RootsOk(adj: seq<seq<nat>>, roots: seq<nat>) {
    Proper(adj) && |adj| < INFINITY && forall i | 0 <= i < |roots| :: roots[i] < |adj| && CountsFit(adj, roots[i])
  }

  // A thread's sums over its roots from start on.
  ghost predicate SlicesSum(adj: seq<seq<nat>>, roots: seq<nat>, levels: seq<seq<int>>, start: nat, total: seq<real>) {
    && AllMeasured(adj, roots, levels) && |total| == |adj|
    && forall v: nat | v < |adj| :: total[v] == Centrality(adj, roots, levels, |levels|, v) - Centrality(adj, roots, levels, start, v)
  }

  // One root's turn.
  lemma SliceNext(adj: seq<seq<nat>>, roots: seq<nat>, levels: seq<seq<int>>, start: nat, total: seq<real>, level: seq<int>, delta: seq<real>,
                  reached: seq<nat>, total': seq<real>)
    requires SlicesSum(adj, roots, levels, start, total) && start <= |levels| < |roots| && Measured(adj, roots[|levels|], level, INFINITY)
    requires |delta| == |total'| == |adj| && forall v: nat | v < |adj| :: delta[v] == Dependency(adj, roots[|levels|], level, INFINITY, v)
    requires forall v: nat | v < |adj| && v !in reached :: level[v] >= INFINITY
    requires forall v: nat | v < |adj| :: total'[v] == total[v] + if v != roots[|levels|] && v in reached then delta[v] else 0.0
    ensures SlicesSum(adj, roots, levels + [level], start, total')
  {
    hide Measured, Dependency, Centrality;
    if |adj| > 0 { CentralityNext(adj, roots, levels, level, 0); }
    forall v: nat | v < |adj|
      ensures total'[v] == Centrality(adj, roots, levels + [level], |levels| + 1, v) - Centrality(adj, roots, levels + [level], start, v)
    {
      CentralityNext(adj, roots, levels, level, v);
      if v !in reached { DependencyNone(adj, roots[|levels|], level, INFINITY, v); }
    }
  }

  lemma FoundReached(adj: seq<seq<nat>>, root: nat, level: seq<int>, paths: seq<int>, parents: seq<seq<nat>>, queue: seq<nat>, n: nat)
    requires Found(adj, root, level, paths, parents, queue, n)
    ensures |level| == |adj| && n <= |queue| && forall v: nat | v < |adj| && v !in queue[..n] :: level[v] >= INFINITY
  {
    forall v: nat | v < |adj| && v !in queue[..n] ensures level[v] >= INFINITY {
      assert VertexFound(adj, root, level, paths, parents[v], queue[..n], v);
    }
    hide VertexFound;
  }

  // What one thread adds up: the roots from start to stop.
  method BfsBrandes(adj: seq<seq<nat>>, roots: seq<nat>, start: nat, stop: nat, ghost levels0: seq<seq<int>>)
    returns (totalBC: array<real>, ghost levels: seq<seq<int>>)
    requires RootsOk(adj, roots) && start <= stop <= |roots| && |levels0| == start && AllMeasured(adj, roots, levels0)
    ensures fresh(totalBC) && |levels| == stop && levels0 <= levels && SlicesSum(adj, roots, levels, start, totalBC[..])
  {
    var n := |adj|;
    totalBC := new real[n](_ => 0.0);
    var level, paths, delta := new int[n](_ => 0), new int[n](_ => 0), new real[n](_ => 0.0);
    var parents, queue := new seq<nat>[n](_ => []), new nat[n](_ => 0);
    levels := levels0;
    hide *;
    SliceStarts(adj, roots, levels, totalBC[..]);
    var i := start;
    while i < stop
      invariant start <= i <= stop && |levels| == i && levels0 <= levels && SlicesSum(adj, roots, levels, start, totalBC[..])
    {
      RootIs(adj, roots, i);
      ghost var before := totalBC[..];
      var reached := BfsBrandesPerTree(adj, roots[i], level, paths, delta, parents, queue, totalBC);
      FoundReached(adj, roots[i], level[..], paths[..], parents[..], queue[..], reached);
      SliceNext(adj, roots, levels, start, before, level[..], delta[..], queue[..reached], totalBC[..]);
      levels := levels + [level[..]];
      i := i + 1;
    }
  }

  lemma RootIs(adj: seq<seq<nat>>, roots: seq<nat>, i: nat)
    requires RootsOk(adj, roots) && i < |roots|
    ensures Proper(adj) && roots[i] < |adj| < INFINITY && CountsFit(adj, roots[i])
  {
    hide Proper, CountsFit;
  }

  lemma SliceStarts(adj: seq<seq<nat>>, roots: seq<nat>, levels: seq<seq<int>>, total: seq<real>)
    requires AllMeasured(adj, roots, levels) && |total| == |adj| && forall v | 0 <= v < |adj| :: total[v] == 0.0
    ensures SlicesSum(adj, roots, levels, |levels|, total)
  {
    hide Measured, Centrality;
  }

  // The sums of the first n threads at one vertex.
  function ThreadSum(totals: seq<seq<real>>, n: nat, v: nat): real
    requires n <= |totals| && forall t | 0 <= t < |totals| :: v < |totals[t]|
  {
    if n == 0 then 0.0 else ThreadSum(totals, n - 1, v) + totals[n - 1][v]
  }

  predicate Wide(totals: seq<seq<real>>, n: nat) { forall t | 0 <= t < |totals| :: |totals[t]| == n }

  // REDUCTION
  method Reduction(finalBC: array<real>, totals: seq<seq<real>>)
    requires Wide(totals, finalBC.Length)
    modifies finalBC
    ensures forall v | 0 <= v < finalBC.Length :: finalBC[v] == old(finalBC[v]) + ThreadSum(totals, |totals|, v)
  {
    var v := 0;
    while v < finalBC.Length
      invariant 0 <= v <= finalBC.Length
      invariant forall u | 0 <= u < v :: finalBC[u] == old(finalBC[u]) + ThreadSum(totals, |totals|, u)
      invariant forall u | v <= u < finalBC.Length :: finalBC[u] == old(finalBC[u])
    {
      var t := 0;
      while t < |totals|
        invariant 0 <= t <= |totals| && finalBC[v] == old(finalBC[v]) + ThreadSum(totals, t, v)
        invariant forall u | 0 <= u < finalBC.Length && u != v :: finalBC[u] == if u < v then old(finalBC[u]) + ThreadSum(totals, |totals|, u) else old(finalBC[u])
      {
        finalBC[v] := finalBC[v] + totals[t][v];
        t := t + 1;
      }
      v := v + 1;
    }
  }

  // After some threads: their sums are those of the roots so far.
  ghost predicate Shared(adj: seq<seq<nat>>, roots: seq<nat>, levels: seq<seq<int>>, totals: seq<seq<real>>) {
    && AllMeasured(adj, roots, levels) && Wide(totals, |adj|)
    && forall v: nat | v < |adj| :: ThreadSum(totals, |totals|, v) == Centrality(adj, roots, levels, |levels|, v)
  }

  lemma {:induction false} ThreadSumPrefix(totals: seq<seq<real>>, total: seq<real>, n: nat, v: nat)
    requires n <= |totals| && (forall t | 0 <= t < |totals| :: v < |totals[t]|) && v < |total|
    ensures ThreadSum(totals + [total], n, v) == ThreadSum(totals, n, v)
  {
    if n > 0 { ThreadSumPrefix(totals, total, n - 1, v); }
  }

  lemma CentralityPrefix(adj: seq<seq<nat>>, roots: seq<nat>, levels: seq<seq<int>>, levels': seq<seq<int>>, v: nat)
    requires AllMeasured(adj, roots, levels') && levels <= levels' && v < |adj|
    ensures AllMeasured(adj, roots, levels) && Centrality(adj, roots, levels', |levels|, v) == Centrality(adj, roots, levels, |levels|, v)
  {
    hide Measured, Dependency;
    assert forall i | 0 <= i < |levels| :: levels[i] == levels'[i];
    assert AllMeasured(adj, roots, levels);
    SumSame(|levels|, Credits(adj, roots, levels', v), Credits(adj, roots, levels, v));
  }

  lemma SharedNext(adj: seq<seq<nat>>, roots: seq<nat>, levels: seq<seq<int>>, totals: seq<seq<real>>, levels': seq<seq<int>>, total: seq<real>)
    requires Shared(adj, roots, levels, totals) && levels <= levels' && SlicesSum(adj, roots, levels', |levels|, total)
    ensures Shared(adj, roots, levels', totals + [total])
  {
    hide AllMeasured, Centrality;
    var totals' := totals + [total];
    forall v: nat | v < |adj| ensures ThreadSum(totals', |totals'|, v) == Centrality(adj, roots, levels', |levels'|, v) {
      ThreadSumPrefix(totals, total, |totals|, v);
      CentralityPrefix(adj, roots, levels, levels', v);
    }
  }

  lemma SharedStarts(adj: seq<seq<nat>>, roots: seq<nat>)
    ensures Shared(adj, roots, [], []) && AllMeasured(adj, roots, [])
  {
  }

  lemma SharedParts(adj: seq<seq<nat>>, roots: seq<nat>, levels: seq<seq<int>>, totals: seq<seq<real>>)
    requires Shared(adj, roots, levels, totals)
    ensures AllMeasured(adj, roots, levels) && Wide(totals, |adj|)
    ensures forall v: nat | v < |adj| :: ThreadSum(totals, |totals|, v) == Centrality(adj, roots, levels, |levels|, v)
  {
    hide AllMeasured, Centrality, ThreadSum;
  }

  lemma SliceWithin(roots: nat, threads: nat, thread: nat)
    requires threads > 0 && thread < threads
    ensures var k := roots / threads; thread * k + k == (thread + 1) * k && 0 <= thread * k && (thread + 1) * k <= threads * k <= roots
  {
    var k := roots / threads;
    assert roots == threads * k + roots % threads;
    ProductOrder(k, thread + 1, threads);
    NextProduct(k, thread);
    hide *;
  }

  lemma NextProduct(k: nat, a: nat)
    ensures (a + 1) * k == a * k + k && a * k >= 0
  {
  }

  lemma {:induction false} ProductOrder(k: nat, a: nat, b: nat)
    requires a <= b
    ensures a * k <= b * k
    decreases b
  {
    if a < b {
      ProductOrder(k, a, b - 1);
      NextProduct(k, b - 1);
    }
  }

  /**
   The scores: over the roots that fall to some thread, all but the remainder of their number by the
   number of threads, what each vertex contributes to the shortest paths from them.
   */
  method Scores(adj: seq<seq<nat>>, roots: seq<nat>, threads: nat, finalBC: array<real>) returns (ghost levels: seq<seq<int>>)
    requires RootsOk(adj, roots) && threads > 0 && finalBC.Length == |adj|
    modifies finalBC
    ensures AllMeasured(adj, roots, levels) && |levels| == threads * (|roots| / threads)
    ensures forall v: nat | v < |adj| :: finalBC[v] == Centrality(adj, roots, levels, |levels|, v)
  {
    hide *;
    var v := 0;
    while v < |adj|
      invariant 0 <= v <= |adj|
      invariant forall u | 0 <= u < v :: finalBC[u] == 0.0
    {
      finalBC[v] := 0.0;
      v := v + 1;
    }
    var rootsPerThread := |roots| / threads;
    var totals: seq<seq<real>> := [];
    levels := [];
    SharedStarts(adj, roots);
    var thread := 0;
    while thread < threads
      invariant 0 <= thread <= threads && |levels| == thread * rootsPerThread && Shared(adj, roots, levels, totals)
      invariant forall u | 0 <= u < |adj| :: finalBC[u] == 0.0
    {
      SliceWithin(|roots|, threads, thread);
      SharedParts(adj, roots, levels, totals);
      var totalBC;
      ghost var levels';
      totalBC, levels' := BfsBrandes(adj, roots, thread * rootsPerThread, thread * rootsPerThread + rootsPerThread, levels);
      SharedNext(adj, roots, levels, totals, levels', totalBC[..]);
      levels := levels';
      totals := totals + [totalBC[..]];
      thread := thread + 1;
    }
    SharedParts(adj, roots, levels, totals);
    Reduction(finalBC, totals);
  }
}
