/**
 Brandes' theorem: what a vertex contributes to the shortest paths from one root to all others
 obeys a recurrence over its shortest-path successors, and nothing else does.
 */
module Dependencies {
  import opened ShortestPaths

  // ---------------------------------------------------------------- sums

  // f(0) + ... + f(n - 1)
  ghost function Sum(n: nat, f: nat -> real): real {
    if n == 0 then 0.0 else Sum(n - 1, f) + f(n - 1)
  }

  lemma {:induction false} SumSame(n: nat, f: nat -> real, g: nat -> real)
    requires forall i: nat | i < n :: f(i) == g(i)
    ensures Sum(n, f) == Sum(n, g)
  {
    if n > 0 { SumSame(n - 1, f, g); }
  }

  lemma {:induction false} SumAdd(n: nat, f: nat -> real, g: nat -> real, h: nat -> real)
    requires forall i: nat | i < n :: h(i) == f(i) + g(i)
    ensures Sum(n, h) == Sum(n, f) + Sum(n, g)
  {
    if n > 0 { SumAdd(n - 1, f, g, h); }
  }

  ghost function Times(a: real, b: real): real { a * b }

  lemma {:induction false} SumScaled(n: nat, c: real, f: nat -> real, h: nat -> real)
    requires forall i: nat | i < n :: h(i) == Times(c, f(i))
    ensures Sum(n, h) == Times(c, Sum(n, f))
  {
    if n > 0 {
      SumScaled(n - 1, c, f, h);
      var a, b := Sum(n - 1, f), f(n - 1);
      assert c * (a + b) == c * a + c * b;
    }
  }

  lemma {:induction false} SumNone(n: nat, f: nat -> real)
    requires forall i: nat | i < n :: f(i) == 0.0
    ensures Sum(n, f) == 0.0
  {
    if n > 0 { SumNone(n - 1, f); }
  }

  // Functions that differ at one place only.
  lemma {:induction false} SumBut(n: nat, f: nat -> real, g: nat -> real, x: nat)
    requires x < n && forall i: nat | i < n && i != x :: f(i) == g(i)
    ensures Sum(n, f) == Sum(n, g) - g(x) + f(x)
  {
    if x < n - 1 { SumBut(n - 1, f, g, x); } else { SumSame(n - 1, f, g); }
  }

  lemma SumOne(n: nat, f: nat -> real, x: nat)
    requires x < n && forall i: nat | i < n && i != x :: f(i) == 0.0
    ensures Sum(n, f) == f(x)
  {
    var none := (i: nat) => 0.0;
    SumNone(n, none);
    SumBut(n, f, none, x);
  }

  /** Summing a table by rows or by columns. */
  lemma {:induction false} SumSwap(n: nat, m: nat, g: nat -> nat -> real, h: nat -> nat -> real, rows: nat -> real, cols: nat -> real)
    requires forall i: nat, j: nat | i < n && j < m :: g(i)(j) == h(j)(i)
    requires forall i: nat | i < n :: rows(i) == Sum(m, g(i))
    requires forall j: nat | j < m :: cols(j) == Sum(n, h(j))
    ensures Sum(n, rows) == Sum(m, cols)
  {
    if n == 0 {
      SumNone(m, cols);
    } else {
      var before := (j: nat) => Sum(n - 1, h(j));
      SumSwap(n - 1, m, g, h, rows, before);
      SumAdd(m, before, g(n - 1), cols);
    }
  }

  // ---------------------------------------------------------------- walks by their first edge

  ghost function Last(adj: seq<seq<nat>>, root: nat, t: nat, n: nat): nat -> real {
    (u: nat) => if u < |adj| && t in adj[u] then Walks(adj, root, u, n) as real else 0.0
  }

  ghost function First(adj: seq<seq<nat>>, root: nat, t: nat, n: nat): nat -> real {
    (x: nat) => if root < |adj| && x in adj[root] then Walks(adj, x, t, n) as real else 0.0
  }

  lemma LastAt(adj: seq<seq<nat>>, root: nat, t: nat, n: nat, u: nat)
    ensures Last(adj, root, t, n)(u) == if u < |adj| && t in adj[u] then Walks(adj, root, u, n) as real else 0.0
  {
  }

  lemma FirstAt(adj: seq<seq<nat>>, root: nat, t: nat, n: nat, x: nat)
    ensures First(adj, root, t, n)(x) == if root < |adj| && x in adj[root] then Walks(adj, x, t, n) as real else 0.0
  {
  }

  lemma {:induction false} LastSum(adj: seq<seq<nat>>, root: nat, t: nat, n: nat, k: nat)
    requires k <= |adj|
    ensures WalksFrom(adj, root, t, n, k) as real == Sum(k, Last(adj, root, t, n))
  {
    if k > 0 { LastSum(adj, root, t, n, k - 1); }
  }

  // By the last edge, which is the definition.
  lemma ByLast(adj: seq<seq<nat>>, root: nat, t: nat, n: nat)
    ensures Walks(adj, root, t, n + 1) as real == Sum(|adj|, Last(adj, root, t, n))
  {
    LastSum(adj, root, t, n, |adj|);
  }

  lemma OneEdge(adj: seq<seq<nat>>, root: nat, t: nat)
    requires root < |adj| && t < |adj|
    ensures Sum(|adj|, Last(adj, root, t, 0)) == Sum(|adj|, First(adj, root, t, 0))
  {
    SumOne(|adj|, Last(adj, root, t, 0), root);
    SumOne(|adj|, First(adj, root, t, 0), t);
  }

  /** By the first edge: a walk of n + 1 edges goes to a neighbor and on from there. */
  lemma {:induction false} ByFirst(adj: seq<seq<nat>>, root: nat, t: nat, n: nat)
    requires root < |adj| && t < |adj|
    ensures Walks(adj, root, t, n + 1) as real == Sum(|adj|, First(adj, root, t, n))
    decreases n
  {
    ByLast(adj, root, t, n);
    if n == 0 {
      OneEdge(adj, root, t);
    } else {
      var g := (u: nat) => (x: nat) => if u < |adj| && t in adj[u] then First(adj, root, u, n - 1)(x) else 0.0;
      var h := (x: nat) => (u: nat) => if x in adj[root] then Last(adj, x, t, n - 1)(u) else 0.0;
      forall u: nat | u < |adj| ensures Last(adj, root, t, n)(u) == Sum(|adj|, g(u)) {
        if t in adj[u] {
          ByFirst(adj, root, u, n - 1);
          SumSame(|adj|, g(u), First(adj, root, u, n - 1));
        } else {
          SumNone(|adj|, g(u));
        }
      }
      forall x: nat | x < |adj| ensures First(adj, root, t, n)(x) == Sum(|adj|, h(x)) {
        if x in adj[root] {
          ByLast(adj, x, t, n - 1);
          SumSame(|adj|, h(x), Last(adj, x, t, n - 1));
        } else {
          SumNone(|adj|, h(x));
        }
      }
      forall u: nat, x: nat | u < |adj| && x < |adj| ensures g(u)(x) == h(x)(u) {
        LastAt(adj, x, t, n - 1, u);
        FirstAt(adj, root, u, n - 1, x);
        assert g(u)(x) == if t in adj[u] then First(adj, root, u, n - 1)(x) else 0.0;
        assert h(x)(u) == if x in adj[root] then Last(adj, x, t, n - 1)(u) else 0.0;
      }
      SumSwap(|adj|, |adj|, g, h, Last(adj, root, t, n), First(adj, root, t, n));
    }
  }

  // ---------------------------------------------------------------- walks through a vertex

  // How many walks of n edges lead from root to t and are at v after i of them.
  ghost function Through(adj: seq<seq<nat>>, root: nat, v: nat, i: nat, t: nat, n: nat): nat
    decreases n, 0
  {
    if n < i then 0
    else if n == i then (if t == v then Walks(adj, root, v, i) else 0)
    else ThroughFrom(adj, root, v, i, t, n - 1, |adj|)
  }

  // Those of n + 1 edges whose last edge comes from a vertex below k.
  ghost function ThroughFrom(adj: seq<seq<nat>>, root: nat, v: nat, i: nat, t: nat, n: nat, k: nat): nat
    requires k <= |adj|
    decreases n, 1 + k
  {
    if k == 0 then 0
    else ThroughFrom(adj, root, v, i, t, n, k - 1) + if t in adj[k - 1] then Through(adj, root, v, i, k - 1, n) else 0
  }

  /** A walk to the vertex and a walk from it. */
  lemma {:induction false} ThroughIs(adj: seq<seq<nat>>, root: nat, v: nat, i: nat, t: nat, n: nat)
    requires i <= n
    ensures Through(adj, root, v, i, t, n) == Walks(adj, root, v, i) * Walks(adj, v, t, n - i)
    decreases n, 0
  {
    if n > i { ThroughFromIs(adj, root, v, i, t, n - 1, |adj|); }
  }

  lemma Spread(w: int, a: int, b: int)
    ensures w * (a + b) == w * a + w * b && w * 0 == 0
  {
  }

  lemma {:induction false} ThroughFromIs(adj: seq<seq<nat>>, root: nat, v: nat, i: nat, t: nat, n: nat, k: nat)
    requires i <= n && k <= |adj|
    ensures ThroughFrom(adj, root, v, i, t, n, k) == Walks(adj, root, v, i) * WalksFrom(adj, v, t, n - i, k)
    decreases n, 1 + k
  {
    if k > 0 {
      ThroughFromIs(adj, root, v, i, t, n, k - 1);
      ThroughIs(adj, root, v, i, k - 1, n);
      Spread(Walks(adj, root, v, i), WalksFrom(adj, v, t, n - i, k - 1), Walks(adj, v, k - 1, n - i));
    }
    hide Walks;
  }

  lemma {:induction false} WalksJoin(adj: seq<seq<nat>>, root: nat, v: nat, t: nat, i: nat, n: nat)
    requires Walks(adj, root, v, i) > 0 && Walks(adj, v, t, n) > 0
    ensures Walks(adj, root, t, i + n) > 0
    decreases n
  {
    if n > 0 {
      var u := WalkBack(adj, v, t, n - 1);
      WalksJoin(adj, root, v, u, i, n - 1);
      WalkOn(adj, root, u, t, i + n - 1);
    }
  }

  /** A shortest walk to t is at v after as many edges as v is away from the root, or never. */
  lemma ThroughOnce(adj: seq<seq<nat>>, root: nat, v: nat, d: nat, t: nat, n: nat, i: nat)
    requires IsDistance(adj, root, v, d) && IsDistance(adj, root, t, n) && i != d
    ensures Through(adj, root, v, i, t, n) == 0
  {
    if i <= n {
      ThroughIs(adj, root, v, i, t, n);
      if i < d {
        assert Walks(adj, root, v, i) == 0;
      } else if Walks(adj, v, t, n - i) > 0 {
        WalksJoin(adj, root, v, t, d, n - i);
      }
    }
  }

  // ---------------------------------------------------------------- dependencies

  // Levels are distances from the root; far marks the vertices that are not reached.
  ghost predicate Measured(adj: seq<seq<nat>>, root: nat, level: seq<int>, far: int) {
    && |level| == |adj| && root < |adj|
    && forall v: nat | v < |adj| :: LevelOk(adj, root, level, far, v)
  }

  ghost predicate LevelOk(adj: seq<seq<nat>>, root: nat, level: seq<int>, far: int, v: nat)
    requires v < |level|
  {
    && 0 <= level[v] <= far && (level[v] < far ==> IsDistance(adj, root, v, level[v]))
    && (level[v] == far ==> !Reachable(adj, root, v))
  }

  ghost function Part(a: nat, s: nat): real
    requires s > 0
  {
    a as real / s as real
  }

  // The share of the shortest walks from root to t that pass v.
  ghost function PairShare(adj: seq<seq<nat>>, root: nat, level: seq<int>, far: int, v: nat, t: nat): real
    requires Measured(adj, root, level, far) && v < |adj|
  {
    if t < |adj| && level[v] < far && level[t] < far then
      assert LevelOk(adj, root, level, far, t);
      assert LevelOk(adj, root, level, far, v);
      Part(Through(adj, root, v, level[v], t, level[t]), Walks(adj, root, t, level[t]))
    else 0.0
  }

  /** The dependency of the root on v: over all other vertices reached, the share of their shortest walks that pass v. */
  ghost function Dependency(adj: seq<seq<nat>>, root: nat, level: seq<int>, far: int, v: nat): real
    requires Measured(adj, root, level, far) && v < |adj|
  {
    Sum(|adj|, Shares(adj, root, level, far, v))
  }

  ghost function Shares(adj: seq<seq<nat>>, root: nat, level: seq<int>, far: int, v: nat): nat -> real
    requires Measured(adj, root, level, far) && v < |adj|
  {
    (t: nat) => if t != v then PairShare(adj, root, level, far, v, t) else 0.0
  }

  // v follows k on shortest walks.
  ghost predicate Follows(adj: seq<seq<nat>>, level: seq<int>, far: int, k: nat, v: nat)
    requires |level| == |adj| && k < |adj|
  {
    v < |adj| && v in adj[k] && level[v] == level[k] + 1 < far
  }

  // Of the walks to v, the share that ends with the edge from k.
  ghost function Ratio(adj: seq<seq<nat>>, root: nat, level: seq<int>, far: int, k: nat, v: nat): real
    requires Measured(adj, root, level, far) && k < |adj|
  {
    if Follows(adj, level, far, k, v) then
      assert LevelOk(adj, root, level, far, v) && LevelOk(adj, root, level, far, k);
      Part(Walks(adj, root, k, level[k]), Walks(adj, root, v, level[v]))
    else 0.0
  }

  lemma PairIs(adj: seq<seq<nat>>, root: nat, level: seq<int>, far: int, v: nat, t: nat)
    requires Measured(adj, root, level, far) && v < |adj| && t < |adj| && level[v] <= level[t] < far
    ensures |level| == |adj| && 0 <= level[v] && Walks(adj, root, v, level[v]) > 0 && Walks(adj, root, t, level[t]) > 0
    ensures PairShare(adj, root, level, far, v, t)
         == Part(Walks(adj, root, v, level[v]) * Walks(adj, v, t, level[t] - level[v]), Walks(adj, root, t, level[t]))
  {
    assert LevelOk(adj, root, level, far, t) && LevelOk(adj, root, level, far, v);
    ThroughIs(adj, root, v, level[v], t, level[t]);
  }

  lemma PairNone(adj: seq<seq<nat>>, root: nat, level: seq<int>, far: int, v: nat, t: nat)
    requires Measured(adj, root, level, far) && v < |adj| && (t < |adj| ==> level[t] < level[v] || level[t] >= far || (level[t] == level[v] && t != v))
    ensures PairShare(adj, root, level, far, v, t) == 0.0
  {
    if t < |adj| {
      assert LevelOk(adj, root, level, far, t) && LevelOk(adj, root, level, far, v);
      if level[v] == level[t] < far { PairIs(adj, root, level, far, v, t); }
    }
  }

  lemma Unit(s: real)
    requires s > 0.0
    ensures s / s == 1.0
  {
  }

  lemma Whole(w: nat)
    requires w > 0
    ensures Part(w * 1, w) == 1.0
  {
    Unit(w as real);
  }

  lemma PairSelf(adj: seq<seq<nat>>, root: nat, level: seq<int>, far: int, v: nat)
    requires Measured(adj, root, level, far) && v < |adj| && level[v] < far
    ensures PairShare(adj, root, level, far, v, v) == 1.0
  {
    PairIs(adj, root, level, far, v, v);
    Whole(Walks(adj, root, v, level[v]));
  }

  // A neighbor that does not follow lies on no shortest walk onwards.
  lemma NoFollower(adj: seq<seq<nat>>, root: nat, level: seq<int>, far: int, k: nat, t: nat, x: nat)
    requires Measured(adj, root, level, far) && k < |adj| && t < |adj| && level[k] < level[t] < far
    requires x < |adj| && x in adj[k] && !Follows(adj, level, far, k, x)
    ensures 0 <= level[k] && Walks(adj, x, t, level[t] - level[k] - 1) == 0
  {
    assert LevelOk(adj, root, level, far, k) && LevelOk(adj, root, level, far, t) && LevelOk(adj, root, level, far, x);
    var n: nat := level[t] - level[k] - 1;
    WalkOn(adj, root, k, x, level[k]);
    assert Reachable(adj, root, x);
    assert level[x] <= level[k] + 1;
    if Walks(adj, x, t, n) > 0 { WalksJoin(adj, root, x, t, level[x], n); }
  }

  lemma Cancel(a: nat, b: nat, w: nat, s: nat)
    requires b > 0 && s > 0
    ensures Times(Part(a, b), Part(b * w, s)) == Times(Part(a, s), w as real)
  {
    assert (b * w) as real == b as real * w as real;
    CancelReal(a as real, b as real, w as real, s as real);
  }

  lemma CancelReal(a: real, b: real, w: real, s: real)
    requires b > 0.0 && s > 0.0
    ensures (a / b) * ((b * w) / s) == (a / s) * w
  {
    assert (b * w) / s == b * (w / s);
    assert (a / b) * (b * (w / s)) == ((a / b) * b) * (w / s);
    assert (a / b) * b == a;
    assert a * (w / s) == (a * w) / s == (a / s) * w;
  }

  // One neighbor's part in the walks from k to t.
  lemma PartOf(adj: seq<seq<nat>>, root: nat, level: seq<int>, far: int, k: nat, t: nat, x: nat)
    requires Measured(adj, root, level, far) && k < |adj| && t < |adj| && level[k] < level[t] < far && x < |adj|
    ensures 0 <= level[k] && Walks(adj, root, t, level[t]) > 0
    ensures Times(Ratio(adj, root, level, far, k, x), PairShare(adj, root, level, far, x, t))
         == Times(Part(Walks(adj, root, k, level[k]), Walks(adj, root, t, level[t])), First(adj, k, t, level[t] - level[k] - 1)(x))
  {
    PairIs(adj, root, level, far, k, t);
    if Follows(adj, level, far, k, x) {
      PairIs(adj, root, level, far, x, t);
      Cancel(Walks(adj, root, k, level[k]), Walks(adj, root, x, level[x]), Walks(adj, x, t, level[t] - level[x]), Walks(adj, root, t, level[t]));
    } else if x in adj[k] {
      NoFollower(adj, root, level, far, k, t, x);
    }
    hide Walks, PairShare, Measured, Part;
  }

  // What k owes to t comes through those that follow k.
  lemma OneFollower(adj: seq<seq<nat>>, root: nat, level: seq<int>, far: int, k: nat, t: nat, parts: nat -> real)
    requires Measured(adj, root, level, far) && k < |adj| && t < |adj| && level[k] < level[t] < far
    requires forall x: nat | x < |adj| :: parts(x) == Times(Ratio(adj, root, level, far, k, x), PairShare(adj, root, level, far, x, t))
    ensures PairShare(adj, root, level, far, k, t) == Sum(|adj|, parts)
  {
    PairIs(adj, root, level, far, k, t);
    hide *;
    var n: nat := level[t] - level[k] - 1;
    var a, s := Walks(adj, root, k, level[k]), Walks(adj, root, t, level[t]);
    forall x: nat | x < |adj| ensures parts(x) == Times(Part(a, s), First(adj, k, t, n)(x)) {
      PartOf(adj, root, level, far, k, t, x);
    }
    SumScaled(|adj|, Part(a, s), First(adj, k, t, n), parts);
    ByFirst(adj, k, t, n);
    Apart(a, Walks(adj, k, t, n + 1), s);
  }

  lemma Apart(a: nat, w: nat, s: nat)
    requires s > 0
    ensures Times(Part(a, s), w as real) == Part(a * w, s)
  {
    var x, y, z := a as real, w as real, s as real;
    assert (a * w) as real == x * y;
    assert (x / z) * y == (x * y) / z;
  }

  lemma PairStep(adj: seq<seq<nat>>, root: nat, level: seq<int>, far: int, k: nat, t: nat, parts: nat -> real)
    requires Measured(adj, root, level, far) && k < |adj| && t < |adj|
    requires forall x: nat | x < |adj| :: parts(x) == Times(Ratio(adj, root, level, far, k, x), PairShare(adj, root, level, far, x, t))
    ensures Shares(adj, root, level, far, k)(t) == Sum(|adj|, parts)
  {
    if level[k] < level[t] < far {
      assert k != t;
      OneFollower(adj, root, level, far, k, t, parts);
    } else {
      if t != k { PairNone(adj, root, level, far, k, t); }
      forall x: nat | x < |adj| ensures parts(x) == 0.0 {
        if Follows(adj, level, far, k, x) { PairNone(adj, root, level, far, x, t); }
      }
      SumNone(|adj|, parts);
    }
    hide PairShare, Measured, Part;
  }

  // All of a reached vertex's shares, with its own.
  lemma WithSelf(adj: seq<seq<nat>>, root: nat, level: seq<int>, far: int, v: nat, all: nat -> real)
    requires Measured(adj, root, level, far) && v < |adj| && level[v] < far
    requires forall t: nat | t < |adj| :: all(t) == PairShare(adj, root, level, far, v, t)
    ensures Sum(|adj|, all) == Dependency(adj, root, level, far, v) + 1.0
  {
    PairSelf(adj, root, level, far, v);
    SumBut(|adj|, all, Shares(adj, root, level, far, v), v);
  }

  /** Dependencies satisfy Brandes' recurrence. */
  lemma DependencyRecurs(adj: seq<seq<nat>>, root: nat, level: seq<int>, far: int, k: nat, parts: nat -> real)
    requires Measured(adj, root, level, far) && k < |adj|
    requires forall v: nat | v < |adj| :: parts(v) == Times(Ratio(adj, root, level, far, k, v), Dependency(adj, root, level, far, v) + 1.0)
    ensures Dependency(adj, root, level, far, k) == Sum(|adj|, parts)
  {
    var n := |adj|;
    var g := (t: nat) => (v: nat) => if v < n then Times(Ratio(adj, root, level, far, k, v), PairShare(adj, root, level, far, v, t)) else 0.0;
    var h := (v: nat) => (t: nat) => if v < n then Times(Ratio(adj, root, level, far, k, v), PairShare(adj, root, level, far, v, t)) else 0.0;
    hide *;
    forall t: nat | t < n ensures Shares(adj, root, level, far, k)(t) == Sum(n, g(t)) { PairStep(adj, root, level, far, k, t, g(t)); }
    forall v: nat | v < n ensures parts(v) == Sum(n, h(v)) { OwedThrough(adj, root, level, far, k, v, h(v)); }
    SumSwap(n, n, g, h, Shares(adj, root, level, far, k), parts);
    DependencyIs(adj, root, level, far, k);
  }

  lemma DependencyIs(adj: seq<seq<nat>>, root: nat, level: seq<int>, far: int, k: nat)
    requires Measured(adj, root, level, far) && k < |adj|
    ensures Dependency(adj, root, level, far, k) == Sum(|adj|, Shares(adj, root, level, far, k))
  {
  }

  // What k is owed through one vertex that follows it.
  lemma OwedThrough(adj: seq<seq<nat>>, root: nat, level: seq<int>, far: int, k: nat, v: nat, owed: nat -> real)
    requires Measured(adj, root, level, far) && k < |adj| && v < |adj|
    requires forall t: nat | t < |adj| :: owed(t) == Times(Ratio(adj, root, level, far, k, v), PairShare(adj, root, level, far, v, t))
    ensures Sum(|adj|, owed) == Times(Ratio(adj, root, level, far, k, v), Dependency(adj, root, level, far, v) + 1.0)
  {
    var all := (t: nat) => PairShare(adj, root, level, far, v, t);
    SumScaled(|adj|, Ratio(adj, root, level, far, k, v), all, owed);
    if Follows(adj, level, far, k, v) { WithSelf(adj, root, level, far, v, all); }
    hide Part, PairShare, Dependency, Measured, Sum;
  }

  /** Nothing else satisfies it. */
  lemma {:induction false} RecursUnique(adj: seq<seq<nat>>, root: nat, level: seq<int>, far: int, delta: seq<real>, parts: nat -> nat -> real, k: nat)
    requires Measured(adj, root, level, far) && k < |adj| == |delta|
    requires forall v: nat, x: nat | v < |adj| && x < |adj| :: parts(v)(x) == Times(Ratio(adj, root, level, far, v, x), delta[x] + 1.0)
    requires forall v: nat | v < |adj| :: delta[v] == Sum(|adj|, parts(v))
    ensures delta[k] == Dependency(adj, root, level, far, k)
    decreases far - level[k]
  {
    assert LevelOk(adj, root, level, far, k);
    forall v: nat | v < |adj| ensures parts(k)(v) == Times(Ratio(adj, root, level, far, k, v), Dependency(adj, root, level, far, v) + 1.0) {
      if Follows(adj, level, far, k, v) { RecursUnique(adj, root, level, far, delta, parts, v); }
    }
    DependencyRecurs(adj, root, level, far, k, parts(k));
  }
}
