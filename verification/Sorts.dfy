/**
 The in-place introsort of (key, weight) pairs that orders each row during contraction.
 */
module Sorts {
  datatype Pair = Pair(key: int, weight: int)

  const SORT_THRESH: nat := 32

  ghost predicate Sorted(s: seq<Pair>) {
    forall a, b | 0 <= a < b < |s| :: s[a].key <= s[b].key
  }

  // s is t with the pairs in [lo, hi) rearranged.
  ghost predicate Rearranged(s: seq<Pair>, t: seq<Pair>, lo: int, hi: int) {
    && |s| == |t| && multiset(s) == multiset(t)
    && forall a | 0 <= a < |s| && !(lo <= a < hi) :: s[a] == t[a]
  }

  lemma RearrangedTwice(s: seq<Pair>, t: seq<Pair>, u: seq<Pair>, lo: int, hi: int)
    requires Rearranged(s, t, lo, hi) && Rearranged(t, u, lo, hi)
    ensures Rearranged(s, u, lo, hi)
  {
  }

  lemma RearrangedWider(s: seq<Pair>, t: seq<Pair>, lo: int, hi: int, lo': int, hi': int)
    requires Rearranged(s, t, lo, hi) && lo' <= lo && hi <= hi'
    ensures Rearranged(s, t, lo', hi')
  {
  }

  lemma SwapRearranges(s: seq<Pair>, i: int, j: int, lo: int, hi: int)
    requires 0 <= i < |s| && 0 <= j < |s| && lo <= i < hi && lo <= j < hi
    ensures Rearranged(s[i := s[j]][j := s[i]], s, lo, hi)
  {
    var t := s[i := s[j]][j := s[i]];
    assert multiset(t) == multiset(s);
  }

  lemma MiddleKept(a: seq<Pair>, b: seq<Pair>, c: seq<Pair>, e: seq<Pair>)
    requires multiset(a + b + e) == multiset(a + c + e)
    ensures multiset(b) == multiset(c)
  {
    var x := multiset(a) + multiset(e);
    assert multiset(a + b + e) == x + multiset(b) && multiset(a + c + e) == x + multiset(c);
    assert multiset(b) == (x + multiset(b)) - x && multiset(c) == (x + multiset(c)) - x;
  }

  // Rearranging inside [lo, hi) keeps the multiset of that slice.
  lemma SliceKept(s: seq<Pair>, t: seq<Pair>, lo: nat, hi: nat)
    requires Rearranged(s, t, lo, hi) && lo <= hi <= |s|
    ensures multiset(s[lo..hi]) == multiset(t[lo..hi])
  {
    assert s == s[..lo] + s[lo..hi] + s[hi..];
    assert t == t[..lo] + t[lo..hi] + t[hi..];
    assert s[..lo] == t[..lo] && s[hi..] == t[hi..];
    MiddleKept(s[..lo], s[lo..hi], t[lo..hi], s[hi..]);
  }

  // ---------------------------------------------------------------- insertion and shell sort

  // Moving the hole left by h: the pair x is written where the hole ends up.
  lemma HoleMoves(s: seq<Pair>, k: int, h: int, x: Pair, t: seq<Pair>, lo: int, hi: int)
    requires 0 < h && lo <= k - h && k < hi && 0 <= k - h && k < |s|
    requires Rearranged(s[k := x], t, lo, hi)
    ensures Rearranged(s[k := s[k - h]][k - h := x], t, lo, hi)
  {
    hide *;
    var u := s[k := x];
    SwapRearranges(u, k, k - h, lo, hi);
    RearrangedTwice(u[k := u[k - h]][k - h := u[k]], u, t, lo, hi);
    assert u[k := u[k - h]][k - h := u[k]] == s[k := s[k - h]][k - h := x];
  }

  // The pairs from lo to i are in order of key, leaving out the hole at k, and the pairs after
  // the hole belong after x.
  ghost predicate OrderedAround(s: seq<Pair>, lo: int, i: int, k: int, x: Pair) {
    && (forall a, b | lo <= a < b <= i && 0 <= a && b < |s| && a != k && b != k :: s[a].key <= s[b].key)
    && (forall a | k < a <= i && 0 <= a < |s| :: s[a].key > x.key)
  }

  lemma OrderedMoves(s: seq<Pair>, lo: nat, i: nat, k: nat, x: Pair)
    requires lo < k <= i < |s| && OrderedAround(s, lo, i, k, x) && s[k - 1].key > x.key
    ensures OrderedAround(s[k := s[k - 1]], lo, i, k - 1, x)
  {
  }

  lemma OrderedStarts(s: seq<Pair>, lo: nat, i: nat)
    requires lo <= i < |s| && Sorted(s[lo..i])
    ensures OrderedAround(s, lo, i, i, s[i])
  {
    forall a, b | lo <= a < b < i ensures s[a].key <= s[b].key {
      assert s[a] == s[lo..i][a - lo] && s[b] == s[lo..i][b - lo];
    }
  }

  // What the insertion of x, taken from place i, keeps while its hole is at k.
  ghost predicate Inserting(s: seq<Pair>, t: seq<Pair>, lo: nat, i: nat, k: nat, x: Pair, ordered: bool) {
    && lo <= k <= i < |s| && Rearranged(s[k := x], t, lo, i + 1)
    && (ordered ==> OrderedAround(s, lo, i, k, x))
  }

  lemma InsertingStarts(t: seq<Pair>, lo: nat, i: nat, ordered: bool)
    requires lo <= i < |t| && (ordered ==> Sorted(t[lo..i]))
    ensures Inserting(t, t, lo, i, i, t[i], ordered)
  {
    assert t[i := t[i]] == t;
    if ordered { OrderedStarts(t, lo, i); }
  }

  lemma InsertingMoves(s: seq<Pair>, t: seq<Pair>, lo: nat, i: nat, k: nat, h: nat, x: Pair, ordered: bool)
    requires Inserting(s, t, lo, i, k, x, ordered) && 0 < h && lo + h <= k && s[k - h].key > x.key && (ordered ==> h == 1)
    ensures Inserting(s[k := s[k - h]], t, lo, i, k - h, x, ordered)
  {
    HoleMoves(s, k, h, x, t, lo, i + 1);
    if ordered { OrderedMoves(s, lo, i, k, x); }
  }

  lemma InsertingEnds(s: seq<Pair>, t: seq<Pair>, lo: nat, i: nat, k: nat, h: nat, x: Pair, ordered: bool)
    requires Inserting(s, t, lo, i, k, x, ordered) && (ordered ==> h == 1)
    requires k < lo + h || s[k - h].key <= x.key
    ensures Rearranged(s[k := x], t, lo, i + 1)
    ensures ordered ==> Sorted(s[k := x][lo..i + 1])
  {
    if ordered { HoleFilled(s, lo, i, k, x); }
  }

  /** Inserts d[i] among the pairs h, 2h, ... places before it. */
  method InsertStrided(d: array<Pair>, lo: nat, i: nat, h: nat)
    requires 0 < h && lo + h <= i < d.Length
    modifies d
    ensures Rearranged(d[..], old(d[..]), lo, i + 1)
    ensures h == 1 && Sorted(old(d[..])[lo..i]) ==> Sorted(d[..][lo..i + 1])
  {
    hide *;
    var x := d[i];
    var k := i;
    ghost var s, t := d[..], d[..];
    ghost var ordered := h == 1 && Sorted(t[lo..i]);
    InsertingStarts(t, lo, i, ordered);
    while k >= lo + h && d[k - h].key > x.key
      invariant lo <= k <= i && s == d[..]
      invariant Inserting(s, t, lo, i, k, x, ordered)
      invariant k == i ==> s == t
    {
      InsertingMoves(s, t, lo, i, k, h, x, ordered);
      s := s[k := s[k - h]];
      d[k] := d[k - h];
      k := k - h;
    }
    InsertingEnds(s, t, lo, i, k, h, x, ordered);
    if k != i { d[k] := x; }
    assert d[..] == s[k := x];
  }

  lemma HoleFilled(s: seq<Pair>, lo: nat, i: nat, k: nat, x: Pair)
    requires lo <= k <= i < |s| && OrderedAround(s, lo, i, k, x)
    requires k == lo || s[k - 1].key <= x.key
    ensures Sorted(s[k := x][lo..i + 1])
  {
  }

  method InsertionIki(d: array<Pair>, lo: nat, hi: nat)
    requires lo <= hi <= d.Length
    modifies d
    ensures Rearranged(d[..], old(d[..]), lo, hi)
    ensures Sorted(d[..][lo..hi])
  {
    if hi <= lo + 1 { return; }
    var i := lo + 1;
    while i < hi
      invariant lo < i <= hi
      invariant Rearranged(d[..], old(d[..]), lo, hi)
      invariant Sorted(d[..][lo..i])
    {
      ghost var s := d[..];
      InsertStrided(d, lo, i, 1);
      RearrangedWider(d[..], s, lo, i + 1, lo, hi);
      i := i + 1;
    }
  }

  // One pass of the strided insertion sort, with stride h.
  method ShellPass(d: array<Pair>, lo: nat, hi: nat, h: nat)
    requires lo <= hi <= d.Length && 0 < h
    modifies d
    ensures Rearranged(d[..], old(d[..]), lo, hi)
    ensures h == 1 ==> Sorted(d[..][lo..hi])
  {
    var i := lo + h;
    while i < hi
      invariant lo + h <= i && (i <= hi || i == lo + h)
      invariant Rearranged(d[..], old(d[..]), lo, hi)
      invariant h == 1 && i <= hi ==> Sorted(d[..][lo..i])
    {
      ghost var s := d[..];
      InsertStrided(d, lo, i, h);
      RearrangedWider(d[..], s, lo, i + 1, lo, hi);
      i := i + 1;
    }
  }

  method ThreshShellsortIki(d: array<Pair>, lo: nat, hi: nat)
    requires lo <= hi <= d.Length
    modifies d
    ensures Rearranged(d[..], old(d[..]), lo, hi) && Sorted(d[..][lo..hi])
  {
    var stride := [23, 10, 4, 1];
    var k := 0;
    while k < |stride|
      invariant 0 <= k <= 4
      invariant Rearranged(d[..], old(d[..]), lo, hi)
      invariant k == 4 ==> Sorted(d[..][lo..hi])
    {
      ShellPass(d, lo, hi, stride[k]);
      k := k + 1;
    }
  }

  // ---------------------------------------------------------------- partitioning

  function MedianOfThree(a: int, b: int, c: int): (r: int)
    ensures r in {a, b, c}
    ensures (a <= r && b <= r) || (a <= r && c <= r) || (b <= r && c <= r)
    ensures (r <= a && r <= b) || (r <= a && r <= c) || (r <= b && r <= c)
  {
    var (a1, b1) := if a > b then (b, a) else (a, b);
    var (b2, c2) := if b1 > c then (c, b1) else (b1, c);
    if a1 > b2 then a1 else b2
  }

  // The scans stop because `stop` marks a key on the other side of the pivot.
  method ScanUp(d: array<Pair>, i0: int, piv: int, ghost stop: int) returns (i: int)
    requires 0 <= i0 <= stop < d.Length && d[stop].key >= piv
    ensures i0 <= i <= stop && d[i].key >= piv
    ensures forall a | i0 <= a < i :: d[a].key < piv
  {
    i := i0;
    while d[i].key < piv
      invariant i0 <= i <= stop
      invariant forall a | i0 <= a < i :: d[a].key < piv
      decreases stop - i
    {
      i := i + 1;
    }
  }

  method ScanDown(d: array<Pair>, j0: int, piv: int, ghost stop: int) returns (j: int)
    requires 0 <= stop <= j0 < d.Length && d[stop].key <= piv
    ensures stop <= j <= j0 && d[j].key <= piv
    ensures forall a | j < a <= j0 :: d[a].key > piv
  {
    j := j0;
    while d[j].key > piv
      invariant stop <= j <= j0
      invariant forall a | j < a <= j0 :: d[a].key > piv
      decreases j - stop
    {
      j := j - 1;
    }
  }

  // Keys before i are at most piv and keys after j at least piv, within [lo, hi).
  ghost predicate Parted(s: seq<Pair>, lo: int, hi: int, i: int, j: int, piv: int) {
    && (forall a | lo <= a < i && 0 <= a < |s| :: s[a].key <= piv)
    && (forall a | j < a < hi && 0 <= a < |s| :: s[a].key >= piv)
  }

  lemma PartedSwap(s: seq<Pair>, lo: int, hi: int, i: int, j: int, piv: int)
    requires 0 <= lo <= i <= j < hi <= |s| && Parted(s, lo, hi, i, j, piv)
    requires s[i].key >= piv && s[j].key <= piv
    ensures Parted(s[i := s[j]][j := s[i]], lo, hi, i + 1, j - 1, piv)
  {
  }

  lemma PartedScan(s: seq<Pair>, lo: int, hi: int, i: int, i': int, j: int, j': int, piv: int)
    requires 0 <= lo <= i <= i' < hi <= |s| && lo <= j' <= j < hi && Parted(s, lo, hi, i, j, piv)
    requires forall a | i <= a < i' :: s[a].key < piv
    requires forall a | j' < a <= j :: s[a].key > piv
    ensures Parted(s, lo, hi, i', j', piv)
  {
  }

  // The state of the partition loop: up and down mark where the next scans stop at the latest.
  ghost predicate Parting(s: seq<Pair>, t: seq<Pair>, lo: nat, hi: nat, i: int, j: int, piv: int, up: int, down: int) {
    && lo <= i <= hi <= |s| && lo - 1 <= j < hi && Rearranged(s, t, lo, hi) && Parted(s, lo, hi, i, j, piv)
    && (i <= j ==> i <= up < hi && lo <= down <= j && s[up].key >= piv && s[down].key <= piv)
    && ((i == lo && j == hi - 1 && up <= down && lo < down) || (lo < i && j < hi - 1 && lo <= j))
  }

  lemma PartingSwaps(s: seq<Pair>, t: seq<Pair>, lo: nat, hi: nat, i: int, j: int, i': int, j': int, piv: int, up: int, down: int)
    requires Parting(s, t, lo, hi, i, j, piv, up, down) && i <= j
    requires i <= i' <= up && s[i'].key >= piv && forall a | i <= a < i' :: s[a].key < piv
    requires down <= j' <= j && s[j'].key <= piv && forall a | j' < a <= j :: s[a].key > piv
    ensures i' <= j' ==> Parting(s[i' := s[j']][j' := s[i']], t, lo, hi, i' + 1, j' - 1, piv, j', i')
    ensures i' > j' ==> Parting(s, t, lo, hi, i', j', piv, up, down)
  {
    PartedScan(s, lo, hi, i, i', j, j', piv);
    if i' <= j' {
      SwapRearranges(s, i', j', lo, hi);
      PartedSwap(s, lo, hi, i', j', piv);
      RearrangedTwice(s[i' := s[j']][j' := s[i']], s, t, lo, hi);
      hide Rearranged, Parted;
    } else {
      hide Rearranged, Parted;
      assert !(i == lo && j == hi - 1);
    }
  }

  /** Keys up to the split point are at most the pivot, later ones at least. */
  method PartitionIki(d: array<Pair>, lo: nat, hi: nat, piv: int) returns (p: int)
    requires lo + 2 <= hi <= d.Length
    requires exists a :: lo <= a <= lo + (hi - lo) / 2 && d[a].key >= piv
    requires exists b :: lo + (hi - lo) / 2 <= b < hi && d[b].key <= piv
    modifies d
    ensures Rearranged(d[..], old(d[..]), lo, hi)
    ensures lo <= p < hi - 1 && Parted(d[..], lo, hi, p + 1, p, piv)
  {
    var i: int, j: int := lo, hi - 1;
    ghost var up: int :| lo <= up <= lo + (hi - lo) / 2 && d[up].key >= piv;
    ghost var down: int :| lo + (hi - lo) / 2 <= down < hi && d[down].key <= piv;
    ghost var s, t := d[..], d[..];
    assert Parting(s, t, lo, hi, i, j, piv, up, down);
    hide Rearranged, Parted;
    while i <= j
      invariant s == d[..] && Parting(s, t, lo, hi, i, j, piv, up, down)
      decreases j - i
    {
      var i' := ScanUp(d, i, piv, up);
      var j' := ScanDown(d, j, piv, down);
      PartingSwaps(s, t, lo, hi, i, j, i', j', piv, up, down);
      hide Parting;
      i, j := i', j';
      if i <= j {
        s := s[i := s[j]][j := s[i]];
        up, down := j, i;
        d[i], d[j] := d[j], d[i];
        i := i + 1;
        j := j - 1;
      }
    }
    p := j;
    PartedEnds(s, lo, hi, i, j, piv);
  }

  lemma PartedEnds(s: seq<Pair>, lo: int, hi: int, i: int, j: int, piv: int)
    requires Parted(s, lo, hi, i, j, piv) && j < i
    ensures Parted(s, lo, hi, j + 1, j, piv)
  {
  }

  // ---------------------------------------------------------------- introsort

  function FloorLog2(x: nat): (r: nat) {
    if x == 0 then 0 else
    var (x5, o5) := if x >= 0x1_0000_0000 then (x / 0x1_0000_0000, 32) else (x, 0);
    var (x4, o4) := if x5 >= 0x1_0000 then (x5 / 0x1_0000, o5 + 16) else (x5, o5);
    var (x3, o3) := if x4 >= 0x100 then (x4 / 0x100, o4 + 8) else (x4, o4);
    var (x2, o2) := if x3 >= 0x10 then (x3 / 0x10, o3 + 4) else (x3, o3);
    var (x1, o1) := if x2 >= 4 then (x2 / 4, o2 + 2) else (x2, o2);
    if x1 >= 2 then o1 + 1 else o1
  }

  // Recursion is bounded by the depth limit alone.
  method IntrosortLoopIki(d: array<Pair>, start: nat, end0: nat, depthLimit: nat)
    requires start <= end0 <= d.Length
    modifies d
    ensures Rearranged(d[..], old(d[..]), start, end0)
    decreases depthLimit
  {
    var end: nat, depth: nat := end0, depthLimit;
    while end - start > SORT_THRESH
      invariant start <= end <= end0 && depth <= depthLimit
      invariant Rearranged(d[..], old(d[..]), start, end0)
      decreases depth
    {
      ghost var s := d[..];
      if depth == 0 {
        ThreshShellsortIki(d, start, end);
        RearrangedWider(d[..], s, start, end, start, end0);
        RearrangedTwice(d[..], s, old(d[..]), start, end0);
        return;
      }
      depth := depth - 1;
      var piv := MedianOfThree(d[start].key, d[start + (end - start) / 2].key, d[end - 1].key);
      var p := PartitionIki(d, start, end, piv);
      RearrangedWider(d[..], s, start, end, start, end0);
      ghost var t := d[..];
      IntrosortLoopIki(d, p, end, depth);
      RearrangedWider(d[..], t, p, end, start, end0);
      RearrangedTwice(d[..], t, s, start, end0);
      RearrangedTwice(d[..], s, old(d[..]), start, end0);
      end := p;
    }
  }

  /** Sorts d[lo..lo+n) by key, keeping each weight with its key. */
  method IntrosortIki(d: array<Pair>, lo: nat, n: nat)
    requires lo + n <= d.Length
    modifies d
    ensures Rearranged(d[..], old(d[..]), lo, lo + n)
    ensures Sorted(d[..][lo..lo + n]) && multiset(d[..][lo..lo + n]) == multiset(old(d[..])[lo..lo + n])
  {
    if n < 2 { return; }
    IntrosortLoopIki(d, lo, lo + n, 2 * FloorLog2(n));
    ghost var s := d[..];
    InsertionIki(d, lo, lo + n);
    RearrangedTwice(d[..], s, old(d[..]), lo, lo + n);
    SliceKept(d[..], old(d[..]), lo, lo + n);
  }
}
