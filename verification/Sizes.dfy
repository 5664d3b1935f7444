/**
 Community sizes: the histogram of a vertex-to-community map.
 */
module Sizes {
  import opened Weights

  // How many vertices are in community a.
  function Size(cmap: seq<int>, a: int): nat {
    if cmap == [] then 0
    else Size(cmap[..|cmap| - 1], a) + if cmap[|cmap| - 1] == a then 1 else 0
  }

  /** The number of vertices that the map takes to a. */
  lemma {:induction false} SizeIs(cmap: seq<int>, a: int)
    ensures Size(cmap, a) == |set v | 0 <= v < |cmap| && cmap[v] == a|
  {
    var n := |cmap| - 1;
    var now := set v | 0 <= v < |cmap| && cmap[v] == a;
    if cmap == [] {
      assert now == {};
    } else {
      SizeIs(cmap[..n], a);
      var before := set v | 0 <= v < |cmap[..n]| && cmap[..n][v] == a;
      assert now == if cmap[n] == a then before + {n} else before;
    }
  }

  predicate Bounded(cmap: seq<int>, n: nat) {
    forall k | 0 <= k < |cmap| :: 0 <= cmap[k] < n
  }

  // csize holds the sizes of communities 0..n, and there are no others.
  ghost predicate Histogram(csize: seq<int>, cmap: seq<int>, n: nat) {
    && n <= |csize| && Bounded(cmap, n)
    && forall a | 0 <= a < n :: csize[a] == Size(cmap, a)
  }

  // Every community below n has a vertex.
  ghost predicate Onto(cmap: seq<int>, n: nat) {
    forall a | 0 <= a < n :: a in cmap
  }

  // csize is the histogram of the map, and no community is empty.
  ghost predicate Sized(csize: seq<int>, cmap: seq<int>, n: nat) {
    Histogram(csize, cmap, n) && Onto(cmap, n)
  }

  lemma {:induction false} SizePositive(cmap: seq<int>, a: int)
    ensures Size(cmap, a) > 0 <==> a in cmap
  {
    if cmap != [] {
      SizePositive(cmap[..|cmap| - 1], a);
      assert cmap == cmap[..|cmap| - 1] + [cmap[|cmap| - 1]];
    }
  }

  lemma SizeSplit(cmap: seq<int>, k: nat, a: int)
    requires k < |cmap|
    ensures Size(cmap[..k + 1], a) == Size(cmap[..k], a) + if cmap[k] == a then 1 else 0
  {
    assert cmap[..k + 1][..k] == cmap[..k];
  }

  lemma {:induction false} SizeMove(cmap: seq<int>, k: nat, b: int, a: int)
    requires k < |cmap|
    ensures Size(cmap[k := b], a) ==
            Size(cmap, a) - (if cmap[k] == a then 1 else 0) + (if b == a then 1 else 0)
  {
    var n := |cmap| - 1;
    if k < n {
      assert cmap[k := b][..n] == cmap[..n][k := b];
      SizeMove(cmap[..n], k, b, a);
    } else {
      assert cmap[k := b][..n] == cmap[..n];
    }
  }

  function Sum(s: seq<int>): int {
    if s == [] then 0 else Sum(s[..|s| - 1]) + s[|s| - 1]
  }

  lemma {:induction false} SumSet(s: seq<int>, k: nat, x: int)
    requires k < |s|
    ensures Sum(s[k := x]) == Sum(s) - s[k] + x
  {
    var n := |s| - 1;
    if k < n {
      assert s[k := x][..n] == s[..n][k := x];
      SumSet(s[..n], k, x);
    } else {
      assert s[k := x][..n] == s[..n];
    }
  }

  lemma {:induction false} SumZero(s: seq<int>)
    requires forall k | 0 <= k < |s| :: s[k] == 0
    ensures Sum(s) == 0
  {
    if s != [] { SumZero(s[..|s| - 1]); }
  }

  /** The sizes add up to the number of vertices. */
  lemma {:induction false} SizesTotal(cmap: seq<int>, csize: seq<int>)
    requires Histogram(csize, cmap, |csize|)
    ensures Sum(csize) == |cmap|
  {
    if cmap == [] {
      SumZero(csize);
    } else {
      var n := |cmap| - 1;
      var a := cmap[n];
      SumSet(csize, a, csize[a] - 1);
      SizesTotal(cmap[..n], csize[a := csize[a] - 1]);
    }
  }

  // The sum of the sizes of the communities that m merges into a.
  function Merged(csize: seq<int>, m: seq<int>, n: nat, a: int): int
    requires n <= |csize| && n <= |m|
  {
    if n == 0 then 0 else Merged(csize, m, n - 1, a) + if m[n - 1] == a then csize[n - 1] else 0
  }

  lemma {:induction false} MergedAdd(csize: seq<int>, csize': seq<int>, m: seq<int>, n: nat, a: int, k: nat)
    requires n <= |csize| == |csize'| && n <= |m| && k < |csize|
    requires csize' == csize[k := csize[k] + 1]
    ensures Merged(csize', m, n, a) == Merged(csize, m, n, a) + if k < n && m[k] == a then 1 else 0
  {
    if n > 0 { MergedAdd(csize, csize', m, n - 1, a, k); }
  }

  lemma {:induction false} MergedZero(csize: seq<int>, m: seq<int>, n: nat, a: int)
    requires n <= |csize| && n <= |m| && forall k | 0 <= k < n :: csize[k] == 0
    ensures Merged(csize, m, n, a) == 0
  {
    if n > 0 { MergedZero(csize, m, n - 1, a); }
  }

  lemma {:induction false} MergedPrefix(csize: seq<int>, csize': seq<int>, m: seq<int>, n: nat, a: int)
    requires n <= |csize| && n <= |csize'| && n <= |m| && csize[..n] == csize'[..n]
    ensures Merged(csize', m, n, a) == Merged(csize, m, n, a)
  {
    if n > 0 {
      assert csize[n - 1] == csize[..n][n - 1] == csize'[n - 1];
      assert csize[..n - 1] == csize[..n][..n - 1] == csize'[..n - 1];
      MergedPrefix(csize, csize', m, n - 1, a);
    }
  }

  /** Merging communities by m adds up their sizes: the sums are the sizes under the composed map. */
  lemma {:induction false} MergedSizes(csize: seq<int>, cmap: seq<int>, m: seq<int>, a: int)
    requires |csize| == |m| && Histogram(csize, cmap, |m|)
    ensures Merged(csize, m, |m|, a) == Size(Compose(m, cmap), a)
    decreases |cmap|
  {
    if cmap == [] {
      MergedZero(csize, m, |m|, a);
    } else {
      var n := |cmap| - 1;
      var k := cmap[n];
      var csize0 := csize[k := csize[k] - 1];
      assert Compose(m, cmap)[..n] == Compose(m, cmap[..n]);
      MergedSizes(csize0, cmap[..n], m, a);
      MergedAdd(csize0, csize, m, |m|, a, k);
    }
  }

  lemma OntoComposes(m: seq<int>, c: seq<int>, n: nat)
    requires Bounded(c, |m|) && Onto(c, |m|) && Onto(m, n)
    ensures Onto(Compose(m, c), n)
  {
    forall a | 0 <= a < n ensures a in Compose(m, c) {
      assert a in m;
      var v :| 0 <= v < |m| && m[v] == a;
      assert v in c;
      var k :| 0 <= k < |c| && c[k] == v;
      assert Compose(m, c)[k] == a;
    }
  }

  lemma ComposeAssoc(m: seq<int>, c: seq<int>, b: seq<int>)
    requires Bounded(c, |m|) && Bounded(b, |c|)
    ensures Bounded(Compose(c, b), |m|) && Compose(m, Compose(c, b)) == Compose(Compose(m, c), b)
  {
  }
}
