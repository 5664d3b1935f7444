/**
 stinger_sort_actions: a batch of insertions and deletions in both directions, grouped by source,
 with the deletions of each group first.
 */
module SortActions {
  import opened CsrBuild

  // A packed pair of vertices; a complemented vertex marks a deletion.
  datatype Pair = Pair(a: int, b: int)

  function Decode(x: int): int { if x < 0 then -x - 1 else x }

  // The two entries of an action: each end as a source, with the other end as given.
  function BothWays(p: Pair): seq<Pair> { [Pair(Decode(p.a), p.b), Pair(Decode(p.b), p.a)] }

  // All actions but those on a single vertex, in both directions.
  function Doubled(actions: seq<Pair>): seq<Pair> {
    if actions == [] then []
    else var p := actions[|actions| - 1]; Doubled(actions[..|actions| - 1]) + if p.a != p.b then BothWays(p) else []
  }

  // ---------------------------------------------------------------- the sort

  predicate Before(x: Pair, y: Pair) { x.a < y.a || (x.a == y.a && x.b <= y.b) }

  predicate Ascending(s: seq<Pair>) { forall i, j | 0 <= i < j < |s| :: Before(s[i], s[j]) }

  function Insert(s: seq<Pair>, x: Pair): seq<Pair> {
    if s == [] || Before(s[|s| - 1], x) then s + [x] else Insert(s[..|s| - 1], x) + [s[|s| - 1]]
  }

  function Sorted(s: seq<Pair>): seq<Pair> {
    if s == [] then [] else Insert(Sorted(s[..|s| - 1]), s[|s| - 1])
  }

  lemma {:induction false} InsertKeeps(s: seq<Pair>, x: Pair)
    ensures multiset(Insert(s, x)) == multiset(s) + multiset{x} && |Insert(s, x)| == |s| + 1
  {
    if s != [] && !Before(s[|s| - 1], x) {
      var n := |s| - 1;
      assert s == s[..n] + [s[n]];
      InsertKeeps(s[..n], x);
    }
  }

  lemma {:induction false} InsertSorts(s: seq<Pair>, x: Pair)
    requires Ascending(s)
    ensures Ascending(Insert(s, x))
  {
    if s != [] && !Before(s[|s| - 1], x) {
      var n := |s| - 1;
      InsertSorts(s[..n], x);
      InsertKeeps(s[..n], x);
      var r := Insert(s[..n], x);
      forall i | 0 <= i < |r| ensures Before(r[i], s[n]) {
        assert r[i] in multiset(r);
        assert r[i] in multiset(s[..n]) + multiset{x};
        assert r[i] == x || r[i] in s[..n];
      }
    }
  }

  lemma {:induction false} SortSorts(s: seq<Pair>)
    ensures Ascending(Sorted(s)) && multiset(Sorted(s)) == multiset(s)
  {
    if s != [] {
      SortSorts(s[..|s| - 1]);
      InsertSorts(Sorted(s[..|s| - 1]), s[|s| - 1]);
      InsertKeeps(Sorted(s[..|s| - 1]), s[|s| - 1]);
      assert s == s[..|s| - 1] + [s[|s| - 1]];
    }
  }

  // ---------------------------------------------------------------- groups

  // How many times the source changes up to entry k: the number of k's group.
  function Group(s: seq<Pair>, k: nat): nat
    requires k < |s|
  {
    if k == 0 then 0 else Group(s, k - 1) + if s[k].a != s[k - 1].a then 1 else 0
  }

  // The number of groups, as returned: 1 even without entries.
  function Groups(s: seq<Pair>): nat { if s == [] then 1 else Group(s, |s| - 1) + 1 }

  lemma {:induction false} GroupOrder(s: seq<Pair>, i: nat, k: nat)
    requires i <= k < |s| && Ascending(s)
    ensures Group(s, i) <= Group(s, k) && (Group(s, i) == Group(s, k) <==> s[i].a == s[k].a)
  {
    if i < k {
      GroupOrder(s, i, k - 1);
      assert Before(s[i], s[k - 1]) || i == k - 1;
      assert Before(s[k - 1], s[k]);
    }
  }

  // How many of the first m entries are in groups before g.
  function Start(s: seq<Pair>, g: nat, m: nat): nat
    requires m <= |s|
  {
    if m == 0 then 0 else Start(s, g, m - 1) + if Group(s, m - 1) < g then 1 else 0
  }

  lemma {:induction false} StartAll(s: seq<Pair>, g: nat, m: nat)
    requires m <= |s| && forall k: nat | k < m :: Group(s, k) < g
    ensures Start(s, g, m) == m
  {
    if m > 0 { StartAll(s, g, m - 1); }
  }

  lemma {:induction false} StartIs(s: seq<Pair>, g: nat, m: nat)
    requires m <= |s| && Ascending(s)
    ensures Start(s, g, m) <= m && forall k: nat | k < m :: k < Start(s, g, m) <==> Group(s, k) < g
  {
    if m > 0 {
      StartIs(s, g, m - 1);
      if Group(s, m - 1) < g {
        forall k: nat | k < m - 1 ensures Group(s, k) < g { GroupOrder(s, k, m - 1); }
        StartAll(s, g, m - 1);
      }
    }
  }

  // How many of the first m entries are in group g.
  function InGroup(s: seq<Pair>, g: nat, m: nat): nat
    requires m <= |s|
  {
    if m == 0 then 0 else InGroup(s, g, m - 1) + if Group(s, m - 1) == g then 1 else 0
  }

  lemma {:induction false} StartNext(s: seq<Pair>, g: nat, m: nat)
    requires m <= |s|
    ensures Start(s, g + 1, m) == Start(s, g, m) + InGroup(s, g, m) && Start(s, 0, m) == 0
  {
    if m > 0 { StartNext(s, g, m - 1); }
  }

  // ---------------------------------------------------------------- what comes out

  predicate Offsets(s: seq<Pair>, n: nat, deloff: seq<int>) {
    |deloff| == n + 1 && forall g: nat | g <= n :: deloff[g] == Start(s, g, |s|)
  }

  // Group g's deletions, decoded, and then its insertions.
  ghost predicate GroupSplit(s: seq<Pair>, act: seq<Pair>, del: int, ins: int, end: int) {
    && 0 <= del <= ins <= end <= |s| == |act|
    && (forall q | del <= q < ins :: s[q].b < 0 && act[q] == Pair(s[q].a, Decode(s[q].b)))
    && (forall q | ins <= q < end :: s[q].b >= 0 && act[q] == s[q])
    && (forall p, q | del <= p < q < end :: s[p].a == s[q].a)
  }

  ghost predicate SplitAt(s: seq<Pair>, act: seq<Pair>, insoff: seq<int>, deloff: seq<int>, g: nat) {
    g < |insoff| && g + 1 < |deloff| && GroupSplit(s, act, deloff[g], insoff[g], deloff[g + 1])
  }

  predicate Within(deloff: seq<int>, g: nat, k: int) { g + 1 < |deloff| && deloff[g] <= k < deloff[g + 1] }

  // act is the sorted list s cut into n groups.
  ghost predicate Grouped(s: seq<Pair>, act: seq<Pair>, n: nat, insoff: seq<int>, deloff: seq<int>) {
    && |insoff| == n && |deloff| == n + 1 && deloff[0] == 0 && deloff[n] == |act| == |s|
    && (forall g: nat | g < n :: SplitAt(s, act, insoff, deloff, g))
    && (forall g: nat, h: nat, p: nat, q: nat | g < h && Within(deloff, g, p) && Within(deloff, h, q) && p < |s| && q < |s| :: s[p].a < s[q].a)
    && (s != [] ==> forall g: nat | g < n :: Within(deloff, g, deloff[g]))
  }

  // Group g's part of the offsets.
  lemma OffsetsAt(s: seq<Pair>, n: nat, deloff: seq<int>, g: nat)
    requires Ascending(s) && n == Groups(s) && Offsets(s, n, deloff) && g < n
    ensures 0 <= deloff[g] <= deloff[g + 1] <= |s| && (s != [] ==> deloff[g] < deloff[g + 1])
    ensures forall k: nat | k < |s| :: Within(deloff, g, k) <==> Group(s, k) == g
  {
    hide Start, Group;
    StartIs(s, g, |s|);
    StartIs(s, g + 1, |s|);
    StartNext(s, g, |s|);
    if s != [] {
      var k := GroupHas(s, g, |s|);
    }
  }

  lemma OffsetsEnd(s: seq<Pair>, n: nat, deloff: seq<int>)
    requires Ascending(s) && n == Groups(s) && Offsets(s, n, deloff)
    ensures deloff[0] == 0 && deloff[n] == |s|
  {
    hide Start, Group;
    StartNext(s, 0, |s|);
    StartIs(s, n, |s|);
    forall k: nat | k < |s| ensures Group(s, k) < n { GroupOrder(s, k, |s| - 1); }
  }

  lemma {:induction false} GroupHas(s: seq<Pair>, g: nat, m: nat) returns (k: nat)
    requires 0 < m <= |s| && g <= Group(s, m - 1)
    ensures k < m && Group(s, k) == g
  {
    if g == Group(s, m - 1) { k := m - 1; } else { k := GroupHas(s, g, m - 1); }
  }

  /** Offsets at the groups' starts cut a sorted list by its sources; a split of every group is all that is missing. */
  lemma GroupedIntro(s: seq<Pair>, act: seq<Pair>, n: nat, insoff: seq<int>, deloff: seq<int>)
    requires Ascending(s) && n == Groups(s) && Offsets(s, n, deloff) && |insoff| == n && |act| == |s|
    requires forall g: nat | g < n :: SplitAt(s, act, insoff, deloff, g)
    ensures Grouped(s, act, n, insoff, deloff)
  {
    hide SplitAt, Group, Start, Offsets;
    OffsetsEnd(s, n, deloff);
    OffsetsSize(s, n, deloff);
    forall g: nat, h: nat, p: nat, q: nat | g < h && Within(deloff, g, p) && Within(deloff, h, q) && p < |s| && q < |s| ensures s[p].a < s[q].a {
      OffsetsAt(s, n, deloff, g);
      OffsetsAt(s, n, deloff, h);
      if q <= p { GroupOrder(s, q, p); } else { GroupOrder(s, p, q); assert Before(s[p], s[q]); }
    }
    forall g: nat | g < n && s != [] ensures Within(deloff, g, deloff[g]) { OffsetsAt(s, n, deloff, g); }
  }

  lemma OffsetsSize(s: seq<Pair>, n: nat, deloff: seq<int>)
    requires Offsets(s, n, deloff)
    ensures |deloff| == n + 1
  {
  }

  // ---------------------------------------------------------------- the steps

  // Every action goes in twice, once from each end.
  method CopyActions(actions: seq<Pair>, act: array<Pair>) returns (head: nat)
    requires act.Length >= 2 * |actions|
    modifies act
    ensures head <= 2 * |actions| && act[..head] == Doubled(actions)
  {
    head := 0;
    var k := 0;
    while k < |actions|
      invariant 0 <= k <= |actions| && head <= 2 * k && act[..head] == Doubled(actions[..k])
    {
      assert actions[..k + 1][..k] == actions[..k];
      var i, j := actions[k].a, actions[k].b;
      if i != j {
        ghost var before := act[..head];
        act[head] := Pair(Decode(i), j);
        act[head + 1] := Pair(Decode(j), i);
        head := head + 2;
        assert act[..head] == before + [Pair(Decode(i), j), Pair(Decode(j), i)];
      }
      k := k + 1;
    }
    assert actions[..k] == actions;
  }

  lemma SortedLength(s: seq<Pair>)
    ensures |Sorted(s)| == |s|
  {
    SortSorts(s);
    assert |Sorted(s)| == |multiset(Sorted(s))|;
  }

  // qsort with a comparison by source and then target.
  method Sort(act: array<Pair>, len: nat)
    requires len <= act.Length
    modifies act
    ensures act[..len] == Sorted(old(act[..len])) && |Sorted(old(act[..len]))| == len
  {
    hide *;
    var s := Sorted(act[..len]);
    SortedLength(act[..len]);
    var k := 0;
    while k < len
      invariant 0 <= k <= len && act[..k] == s[..k]
    {
      act[k] := s[k];
      k := k + 1;
    }
    assert s[..len] == s;
  }

  lemma {:induction false} SumIsGroup(s: seq<Pair>, marks: seq<int>, k: nat)
    requires k < |s| <= |marks| && marks[0] == 0 && forall i | 0 < i < |s| :: marks[i] == if s[i].a != s[i - 1].a then 1 else 0
    ensures SumUpTo(marks, k) == Group(s, k)
  {
    if k > 0 { SumIsGroup(s, marks, k - 1); }
  }

  // The group of every entry, and the number of groups.
  method FindGroups(act: array<Pair>, len: nat) returns (actk: array<int>, n: nat)
    requires len <= act.Length
    ensures fresh(actk) && actk.Length >= len && n == Groups(act[..len])
    ensures forall k: nat | k < len :: actk[k] == Group(act[..len], k)
  {
    ghost var s := act[..len];
    actk := new int[if len == 0 then 1 else len](_ => 0);
    n := 1;
    var k := 1;
    while k < len
      invariant 1 <= k && (k <= len || len == 0) && actk[0] == 0 && n == if len == 0 then 1 else Group(s, k - 1) + 1
      invariant forall i | 0 < i < k && i < len :: actk[i] == if s[i].a != s[i - 1].a then 1 else 0
    {
      if act[k].a != act[k - 1].a {
        n := n + 1;
        actk[k] := 1;
      } else {
        actk[k] := 0;
      }
      k := k + 1;
    }
    ghost var marks := actk[..];
    InclusiveSum(actk, marks);
    forall i: nat | i < len ensures actk[i] == Group(s, i) { SumIsGroup(s, marks, i); }
  }

  lemma {:induction false} SumIsStart(s: seq<Pair>, counts: seq<int>, n: nat, g: nat)
    requires |counts| == n + 1 && g <= n && counts[0] == 0 && forall h: nat | 0 < h <= n :: counts[h] == InGroup(s, h - 1, |s|)
    ensures SumUpTo(counts, g) == Start(s, g, |s|)
  {
    if g > 0 {
      SumIsStart(s, counts, n, g - 1);
      StartNext(s, g - 1, |s|);
    } else {
      StartNext(s, 0, |s|);
    }
  }

  lemma GroupBelow(s: seq<Pair>, k: nat)
    requires k < |s| && Ascending(s)
    ensures Group(s, k) < Groups(s)
  {
    GroupOrder(s, k, |s| - 1);
  }

  // Where every group starts.
  method FindStarts(len: nat, actk: array<int>, n: nat, ghost s: seq<Pair>) returns (deloff: array<int>)
    requires len == |s| && Ascending(s) && n == Groups(s) && actk.Length >= |s| && forall k: nat | k < |s| :: actk[k] == Group(s, k)
    ensures fresh(deloff) && Offsets(s, n, deloff[..])
  {
    hide Group, Groups, Start, InGroup, SumUpTo;
    deloff := new int[n + 1](_ => 0);
    forall h: nat | h < n ensures InGroup(s, h, 0) == 0 { InGroupZero(s, h); }
    var k := 0;
    while k < len
      invariant 0 <= k <= len && deloff[0] == 0 && forall h: nat | 0 < h <= n :: deloff[h] == InGroup(s, h - 1, k)
    {
      GroupBelow(s, k);
      ghost var g := Group(s, k);
      forall h: nat | h < n ensures InGroup(s, h, k + 1) == InGroup(s, h, k) + if h == g then 1 else 0 { InGroupNext(s, h, k); }
      deloff[actk[k] + 1] := deloff[actk[k] + 1] + 1;
      k := k + 1;
    }
    ghost var counts := deloff[..];
    InclusiveSum(deloff, counts);
    forall g: nat | g <= n ensures deloff[g] == Start(s, g, |s|) { SumIsStart(s, counts, n, g); }
  }

  lemma InGroupZero(s: seq<Pair>, g: nat)
    ensures InGroup(s, g, 0) == 0
  {
  }

  lemma InGroupNext(s: seq<Pair>, g: nat, k: nat)
    requires k < |s|
    ensures InGroup(s, g, k + 1) == InGroup(s, g, k) + if g == Group(s, k) then 1 else 0
  {
  }

  // The first entry from del on that is no deletion.
  method FirstInsertion(act: array<Pair>, del: nat, end: nat, ghost s: seq<Pair>) returns (off: nat)
    requires Ascending(s) && del <= end <= |s| <= act.Length && act[del..|s|] == s[del..]
    requires forall p, q | del <= p < q < end :: s[p].a == s[q].a
    ensures del <= off <= end && (forall q | del <= q < off :: s[q].b < 0) && forall q | off <= q < end :: s[q].b >= 0
  {
    off := del;
    while off < end && act[off].b < 0
      invariant del <= off <= end && forall q | del <= q < off :: s[q].b < 0
    {
      assert act[del..|s|][off - del] == s[del..][off - del];
      off := off + 1;
    }
    if off < end {
      assert act[del..|s|][off - del] == s[del..][off - del];
      forall q | off <= q < end ensures s[q].b >= 0 { assert q > off ==> Before(s[off], s[q]); }
    }
  }

  // The deletions from del to ins are decoded.
  method DecodeDeletions(act: array<Pair>, del: nat, ins: nat)
    requires del <= ins <= act.Length && forall q | del <= q < ins :: act[q].b < 0
    modifies act
    ensures act[..del] == old(act[..del]) && act[ins..] == old(act[ins..])
    ensures forall q | del <= q < ins :: act[q] == Pair(old(act[q]).a, Decode(old(act[q]).b))
  {
    ghost var act0 := act[..];
    var off := del;
    while off < ins
      invariant del <= off <= ins && forall q | del <= q < off :: act[q] == Pair(act0[q].a, Decode(act0[q].b))
      invariant forall q | 0 <= q < act.Length && !(del <= q < off) :: act[q] == act0[q]
    {
      act[off] := Pair(act[off].a, -act[off].b - 1);
      off := off + 1;
    }
  }

  // The deletions of one group are found and decoded.
  method SplitGroup(act: array<Pair>, k: nat, insoff: array<int>, deloff: array<int>, ghost s: seq<Pair>)
    requires Ascending(s) && Offsets(s, Groups(s), deloff[..]) && k < Groups(s) == insoff.Length && |s| <= act.Length && insoff != deloff
    requires |deloff[..]| == Groups(s) + 1 && 0 <= deloff[k] <= |s| && act[deloff[k]..|s|] == s[deloff[k]..]
    modifies act, insoff
    ensures SplitAt(s, act[..|s|], insoff[..], deloff[..], k) && 0 <= deloff[k] <= deloff[k + 1] <= |s|
    ensures act[..deloff[k]] == old(act[..deloff[k]]) && act[deloff[k + 1]..] == old(act[deloff[k + 1]..])
    ensures insoff[..] == old(insoff[..])[k := insoff[k]]
  {
    hide *;
    SameSource(s, Groups(s), deloff[..], k);
    ghost var act0, del, end := act[..], deloff[k], deloff[k + 1];
    forall q | del <= q < |s| ensures act0[q] == s[q] { assert act0[del..|s|][q - del] == s[del..][q - del]; }
    var off := FirstInsertion(act, deloff[k], deloff[k + 1], s);
    insoff[k] := off;
    DecodeDeletions(act, deloff[k], off);
    forall q | off <= q < end ensures act[q] == s[q] { assert act[off..][q - off] == act0[off..][q - off]; }
    assert act[end..] == act[off..][end - off..] == act0[off..][end - off..] == act0[end..];
    SplitIntro(s, act[..|s|], insoff[..], deloff[..], k);
  }

  lemma SplitIntro(s: seq<Pair>, act: seq<Pair>, insoff: seq<int>, deloff: seq<int>, g: nat)
    requires g < |insoff| && g + 1 < |deloff| && 0 <= deloff[g] <= insoff[g] <= deloff[g + 1] <= |s| == |act|
    requires forall q | deloff[g] <= q < insoff[g] :: s[q].b < 0 && act[q] == Pair(s[q].a, Decode(s[q].b))
    requires forall q | insoff[g] <= q < deloff[g + 1] :: s[q].b >= 0 && act[q] == s[q]
    requires forall p, q | deloff[g] <= p < q < deloff[g + 1] :: s[p].a == s[q].a
    ensures SplitAt(s, act, insoff, deloff, g)
  {
    hide Decode;
  }

  lemma SameSource(s: seq<Pair>, n: nat, deloff: seq<int>, g: nat)
    requires Ascending(s) && n == Groups(s) && Offsets(s, n, deloff) && g < n
    ensures 0 <= deloff[g] <= deloff[g + 1] <= |s| && forall p, q | deloff[g] <= p < q < deloff[g + 1] :: s[p].a == s[q].a
  {
    hide Group, Start;
    OffsetsAt(s, n, deloff, g);
    forall p, q | deloff[g] <= p < q < deloff[g + 1] ensures s[p].a == s[q].a {
      assert Within(deloff, g, p) && Within(deloff, g, q);
      GroupOrder(s, p, q);
    }
  }

  lemma SplitKept(s: seq<Pair>, act: seq<Pair>, act': seq<Pair>, insoff: seq<int>, insoff': seq<int>, deloff: seq<int>, g: nat)
    requires SplitAt(s, act, insoff, deloff, g) && g + 1 < |deloff| && 0 <= deloff[g + 1] <= |act'| == |act| && act'[..deloff[g + 1]] == act[..deloff[g + 1]]
    requires g < |insoff'| == |insoff| && insoff'[g] == insoff[g]
    ensures SplitAt(s, act', insoff', deloff, g)
  {
    forall q | 0 <= q < deloff[g + 1] ensures act'[q] == act[q] { assert act'[..deloff[g + 1]][q] == act[..deloff[g + 1]][q]; }
  }

  // The list s[from..] is what act holds from there on.
  predicate RestIs(act: seq<Pair>, s: seq<Pair>, from: int) {
    0 <= from <= |s| == |act| && act[from..] == s[from..]
  }

  lemma RestNext(act: seq<Pair>, act': seq<Pair>, s: seq<Pair>, del: int, end: int)
    requires RestIs(act, s, del) && del <= end <= |s| && |act'| == |act| && act'[end..] == act[end..]
    ensures RestIs(act', s, end)
  {
    assert act[end..] == act[del..][end - del..] && s[end..] == s[del..][end - del..];
  }

  // Group after group.
  method SplitGroups(act: array<Pair>, n: nat, deloff: array<int>, ghost s: seq<Pair>) returns (insoff: array<int>)
    requires Ascending(s) && n == Groups(s) && Offsets(s, n, deloff[..]) && |s| <= act.Length && act[..|s|] == s
    modifies act
    ensures fresh(insoff) && insoff.Length == n && forall g: nat | g < n :: SplitAt(s, act[..|s|], insoff[..], deloff[..], g)
  {
    hide *;
    insoff := new int[n](_ => 0);
    ghost var starts := deloff[..];
    OffsetsSize(s, n, starts);
    OffsetsEnd(s, n, starts);
    RestStarts(act[..|s|], s);
    var k := 0;
    while k < n
      invariant 0 <= k <= n == insoff.Length && fresh(insoff) && insoff != deloff && deloff[..] == starts
      invariant RestIs(act[..|s|], s, starts[k])
      invariant forall g: nat | g < k :: SplitAt(s, act[..|s|], insoff[..], starts, g)
    {
      ghost var act0, insoff0, whole := act[..|s|], insoff[..], act[..];
      RestFacts(act[..|s|], s, starts[k]);
      assert act[starts[k]..|s|] == act[..|s|][starts[k]..];
      SplitGroup(act, k, insoff, deloff, s);
      ghost var del, end := starts[k], starts[k + 1];
      assert act[..|s|][..del] == act[..del] == whole[..del] == act0[..del];
      assert act[..|s|][end..] == act[end..][..|s| - end] == whole[end..][..|s| - end] == act0[end..];
      SplitsKept(s, act0, act[..|s|], insoff0, insoff[..], starts, n, k);
      RestNext(act0, act[..|s|], s, del, end);
      k := k + 1;
    }
  }

  lemma RestStarts(act: seq<Pair>, s: seq<Pair>)
    requires act == s
    ensures RestIs(act, s, 0)
  {
  }

  lemma RestFacts(act: seq<Pair>, s: seq<Pair>, from: int)
    requires RestIs(act, s, from)
    ensures 0 <= from <= |s| == |act| && act[from..] == s[from..]
  {
  }

  // ---------------------------------------------------------------- what arrives

  // How often b stands against u, complemented or not, in some action.
  function Between(actions: seq<Pair>, u: int, b: int): nat {
    var m := multiset(actions);
    m[Pair(u, b)] + m[Pair(-u - 1, b)] + m[Pair(b, u)] + m[Pair(b, -u - 1)]
  }

  lemma {:induction false} DoubledCount(actions: seq<Pair>, u: int, b: int)
    requires u >= 0 && b != u && b != -u - 1
    ensures multiset(Doubled(actions))[Pair(u, b)] == Between(actions, u, b)
  {
    hide BothWays, Between;
    if actions == [] {
      BetweenNone(u, b);
    } else {
      var n := |actions| - 1;
      var p := actions[n];
      DoubledCount(actions[..n], u, b);
      BothWaysCount(p, u, b);
      assert actions == actions[..n] + [p];
      BetweenJoin(actions[..n], [p], u, b);
    }
  }

  lemma BetweenNone(u: int, b: int)
    ensures Between([], u, b) == 0
  {
  }

  lemma BetweenJoin(a: seq<Pair>, c: seq<Pair>, u: int, b: int)
    ensures Between(a + c, u, b) == Between(a, u, b) + Between(c, u, b)
  {
  }

  lemma BothWaysCount(p: Pair, u: int, b: int)
    requires u >= 0 && b != u && b != -u - 1
    ensures multiset(if p.a != p.b then BothWays(p) else [])[Pair(u, b)] == Between([p], u, b)
  {
    assert multiset([p]) == multiset{p};
    if p.a != p.b {
      var x, y := Pair(Decode(p.a), p.b), Pair(Decode(p.b), p.a);
      assert multiset(BothWays(p)) == multiset{x, y};
    }
  }

  /** Actions that have both vertices complemented or neither: insertions are asked for by these, deletions by those. */
  lemma BetweenProper(actions: seq<Pair>, u: int, v: int)
    requires (forall p | p in actions :: p.a < 0 <==> p.b < 0) && u >= 0 && v >= 0
    ensures Between(actions, u, v) == multiset(actions)[Pair(u, v)] + multiset(actions)[Pair(v, u)]
    ensures Between(actions, u, -v - 1) == multiset(actions)[Pair(-u - 1, -v - 1)] + multiset(actions)[Pair(-v - 1, -u - 1)]
  {
    Improper(actions, Pair(-u - 1, v));
    Improper(actions, Pair(v, -u - 1));
    Improper(actions, Pair(u, -v - 1));
    Improper(actions, Pair(-v - 1, u));
  }

  lemma Improper(actions: seq<Pair>, x: Pair)
    requires (forall p | p in actions :: p.a < 0 <==> p.b < 0) && (x.a < 0) != (x.b < 0)
    ensures multiset(actions)[x] == 0
  {
    assert x !in actions;
    CountNone(actions, x);
  }

  // In group g the insertions and the deletions of an edge from u to v are as many as asked for.
  predicate CountsAt(actions: seq<Pair>, act: seq<Pair>, insoff: seq<int>, deloff: seq<int>, g: nat, u: int, v: int) {
    && g < |insoff| && g + 1 < |deloff| && 0 <= deloff[g] <= insoff[g] <= deloff[g + 1] <= |act|
    && multiset(act[insoff[g]..deloff[g + 1]])[Pair(u, v)] == Between(actions, u, v)
    && multiset(act[deloff[g]..insoff[g]])[Pair(u, v)] == Between(actions, u, -v - 1)
  }

  // Group g has the entries of u.
  predicate GroupOf(act: seq<Pair>, deloff: seq<int>, g: nat, u: int) {
    g + 1 < |deloff| && 0 <= deloff[g] < deloff[g + 1] <= |act| && act[deloff[g]].a == u
  }

  ghost predicate HasGroup(act: seq<Pair>, n: nat, deloff: seq<int>, u: int) {
    exists g: nat :: g < n && GroupOf(act, deloff, g, u)
  }

  // The groups have the actions that were asked for, from both ends, and nothing else.
  ghost predicate Delivers(actions: seq<Pair>, act: seq<Pair>, n: nat, insoff: seq<int>, deloff: seq<int>) {
    && (forall g: nat, u: int, v: int | g < n && u >= 0 && v >= 0 && GroupOf(act, deloff, g, u) && u != v :: CountsAt(actions, act, insoff, deloff, g, u, v))
    && (forall p | p in actions && p.a != p.b ::
          && HasGroup(act, n, deloff, if p.a < 0 then -p.a - 1 else p.a)
          && HasGroup(act, n, deloff, if p.b < 0 then -p.b - 1 else p.b))
    && (forall q | 0 <= q < |act| :: act[q].a >= 0 && act[q].b >= 0)
    && ((forall p | p in actions :: p.a < 0 <==> p.b < 0) ==> forall q | 0 <= q < |act| :: act[q].a != act[q].b)
  }

  lemma {:induction false} DecodedCount(t: seq<Pair>, r: seq<Pair>, u: int, v: int)
    requires v >= 0 && |t| == |r| && forall q | 0 <= q < |t| :: t[q].b < 0 && r[q] == Pair(t[q].a, Decode(t[q].b))
    ensures multiset(r)[Pair(u, v)] == multiset(t)[Pair(u, -v - 1)]
  {
    if t != [] {
      var n := |t| - 1;
      DecodedCount(t[..n], r[..n], u, v);
      assert t == t[..n] + [t[n]] && r == r[..n] + [r[n]];
    }
  }

  lemma {:induction false} CountNone(t: seq<Pair>, x: Pair)
    requires forall q | 0 <= q < |t| :: t[q] != x
    ensures multiset(t)[x] == 0
  {
    if t != [] {
      CountNone(t[..|t| - 1], x);
      assert t == t[..|t| - 1] + [t[|t| - 1]];
    }
  }

  // Of a sorted list, an entry's copies lie in one part of one group.
  lemma PartCount(s: seq<Pair>, lo: nat, hi: nat, x: Pair)
    requires lo <= hi <= |s| && forall q | 0 <= q < |s| && s[q] == x :: lo <= q < hi
    ensures multiset(s)[x] == multiset(s[lo..hi])[x]
  {
    assert s == s[..lo] + s[lo..hi] + s[hi..];
    CountNone(s[..lo], x);
    CountNone(s[hi..], x);
  }

  // An entry of u is in u's group.
  lemma InItsGroup(s: seq<Pair>, n: nat, deloff: seq<int>, g: nat, q: nat)
    requires Ascending(s) && n == Groups(s) && Offsets(s, n, deloff) && g < n && q < |s| && s != []
    ensures 0 <= deloff[g] < deloff[g + 1] <= |s| && (s[q].a == s[deloff[g]].a <==> deloff[g] <= q < deloff[g + 1])
  {
    OffsetsAt(s, n, deloff, g);
    hide Group, Offsets, Groups;
    var d: nat := deloff[g];
    assert Within(deloff, g, d);
    if q <= d { GroupOrder(s, q, d); } else { GroupOrder(s, d, q); }
    assert Within(deloff, g, q) <==> Group(s, q) == g;
  }

  lemma GroupCounts(actions: seq<Pair>, s: seq<Pair>, act: seq<Pair>, n: nat, insoff: seq<int>, deloff: seq<int>, g: nat, u: int, v: int)
    requires Ascending(s) && n == Groups(s) && Offsets(s, n, deloff) && |act| == |s| && SplitAt(s, act, insoff, deloff, g) && g < n && u >= 0 && v >= 0
    requires multiset(s) == multiset(Doubled(actions)) && GroupOf(act, deloff, g, u) && u != v
    ensures CountsAt(actions, act, insoff, deloff, g, u, v)
  {
    hide *;
    SplitIs(s, act, insoff, deloff, g, u);
    var del, ins, end := deloff[g], insoff[g], deloff[g + 1];
    forall q: nat | q < |s| ensures s[q].a == u <==> del <= q < end { InItsGroup(s, n, deloff, g, q); }
    DoubledCount(actions, u, v);
    DoubledCount(actions, u, -v - 1);
    InsertionCount(s, act, del, ins, end, u, v);
    DeletionCount(s, act, del, ins, end, u, v);
    CountsIntro(actions, act, insoff, deloff, g, u, v);
  }

  lemma CountsIntro(actions: seq<Pair>, act: seq<Pair>, insoff: seq<int>, deloff: seq<int>, g: nat, u: int, v: int)
    requires g < |insoff| && g + 1 < |deloff| && 0 <= deloff[g] <= insoff[g] <= deloff[g + 1] <= |act|
    requires multiset(act[insoff[g]..deloff[g + 1]])[Pair(u, v)] == Between(actions, u, v)
    requires multiset(act[deloff[g]..insoff[g]])[Pair(u, v)] == Between(actions, u, -v - 1)
    ensures CountsAt(actions, act, insoff, deloff, g, u, v)
  {
    hide Between;
  }

  lemma SplitIs(s: seq<Pair>, act: seq<Pair>, insoff: seq<int>, deloff: seq<int>, g: nat, u: int)
    requires SplitAt(s, act, insoff, deloff, g) && GroupOf(act, deloff, g, u)
    ensures g < |insoff| && g + 1 < |deloff| && 0 <= deloff[g] < |s| && s != [] && GroupSplit(s, act, deloff[g], insoff[g], deloff[g + 1])
    ensures 0 <= deloff[g] <= insoff[g] <= deloff[g + 1] <= |s| == |act| && s[deloff[g]].a == u
  {
  }

  lemma InsertionCount(s: seq<Pair>, act: seq<Pair>, del: nat, ins: nat, end: nat, u: int, v: int)
    requires GroupSplit(s, act, del, ins, end) && v >= 0 && forall q: nat | q < |s| :: s[q].a == u <==> del <= q < end
    ensures multiset(act[ins..end])[Pair(u, v)] == multiset(s)[Pair(u, v)]
  {
    PartCount(s, ins, end, Pair(u, v));
    assert act[ins..end] == s[ins..end];
  }

  lemma DeletionCount(s: seq<Pair>, act: seq<Pair>, del: nat, ins: nat, end: nat, u: int, v: int)
    requires GroupSplit(s, act, del, ins, end) && v >= 0 && forall q: nat | q < |s| :: s[q].a == u <==> del <= q < end
    ensures multiset(act[del..ins])[Pair(u, v)] == multiset(s)[Pair(u, -v - 1)]
  {
    PartCount(s, del, ins, Pair(u, -v - 1));
    var t, r := s[del..ins], act[del..ins];
    forall q | 0 <= q < |t| ensures t[q].b < 0 && r[q] == Pair(t[q].a, Decode(t[q].b)) { assert t[q] == s[del + q] && r[q] == act[del + q]; }
    DecodedCount(t, r, u, v);
  }

  lemma {:induction false} DoubledHas(actions: seq<Pair>, p: Pair)
    requires p in actions && p.a != p.b
    ensures Pair(Decode(p.a), p.b) in Doubled(actions) && Pair(Decode(p.b), p.a) in Doubled(actions)
  {
    var n := |actions| - 1;
    if p in actions[..n] { DoubledHas(actions[..n], p); } else { assert actions == actions[..n] + [actions[n]]; }
  }

  lemma {:induction false} DoubledFrom(actions: seq<Pair>, e: Pair)
    requires e in Doubled(actions)
    ensures e.a >= 0 && exists p :: p in actions && p.a != p.b && (e == Pair(Decode(p.a), p.b) || e == Pair(Decode(p.b), p.a))
  {
    var n := |actions| - 1;
    var p := actions[n];
    if e in Doubled(actions[..n]) {
      DoubledFrom(actions[..n], e);
      var p' :| p' in actions[..n] && p'.a != p'.b && (e == Pair(Decode(p'.a), p'.b) || e == Pair(Decode(p'.b), p'.a));
      assert p' in actions;
    } else {
      assert p in actions;
    }
  }

  // The group of an entry.
  lemma GroupThere(s: seq<Pair>, act: seq<Pair>, n: nat, insoff: seq<int>, deloff: seq<int>, e: Pair)
    requires Ascending(s) && n == Groups(s) && Offsets(s, n, deloff) && |act| == |s| && e in s
    requires forall g: nat | g < n :: SplitAt(s, act, insoff, deloff, g)
    ensures HasGroup(act, n, deloff, e.a)
  {
    var k: nat :| k < |s| && s[k] == e;
    var g := Group(s, k);
    GroupBelow(s, k);
    hide Group, Groups, Offsets;
    OffsetsAt(s, n, deloff, g);
    InItsGroup(s, n, deloff, g, k);
    assert SplitAt(s, act, insoff, deloff, g);
    assert GroupSplit(s, act, deloff[g], insoff[g], deloff[g + 1]);
    assert GroupOf(act, deloff, g, e.a);
  }

  // Where an entry comes from.
  lemma EntryFrom(actions: seq<Pair>, s: seq<Pair>, act: seq<Pair>, n: nat, insoff: seq<int>, deloff: seq<int>, q: nat)
    requires Ascending(s) && n == Groups(s) && Offsets(s, n, deloff) && |act| == |s| && q < |s|
    requires multiset(s) == multiset(Doubled(actions)) && forall g: nat | g < n :: SplitAt(s, act, insoff, deloff, g)
    ensures act[q].a >= 0 && act[q].b >= 0
    ensures (forall p | p in actions :: p.a < 0 <==> p.b < 0) ==> act[q].a != act[q].b
  {
    var g := Group(s, q);
    GroupBelow(s, q);
    OffsetsAt(s, n, deloff, g);
    hide Group, Groups, Offsets, Ascending;
    assert Within(deloff, g, q) && SplitAt(s, act, insoff, deloff, g);
    assert GroupSplit(s, act, deloff[g], insoff[g], deloff[g + 1]);
    assert s[q] in multiset(s);
    DoubledFrom(actions, s[q]);
  }

  lemma AllDelivered(actions: seq<Pair>, s: seq<Pair>, act: seq<Pair>, n: nat, insoff: seq<int>, deloff: seq<int>)
    requires Ascending(s) && n == Groups(s) && Offsets(s, n, deloff) && |act| == |s|
    requires multiset(s) == multiset(Doubled(actions)) && forall g: nat | g < n :: SplitAt(s, act, insoff, deloff, g)
    ensures Delivers(actions, act, n, insoff, deloff)
  {
    hide *;
    forall g: nat, u: int, v: int | g < n && u >= 0 && v >= 0 && GroupOf(act, deloff, g, u) && u != v ensures CountsAt(actions, act, insoff, deloff, g, u, v) {
      GroupCounts(actions, s, act, n, insoff, deloff, g, u, v);
    }
    forall p | p in actions && p.a != p.b
      ensures HasGroup(act, n, deloff, if p.a < 0 then -p.a - 1 else p.a)
      ensures HasGroup(act, n, deloff, if p.b < 0 then -p.b - 1 else p.b)
    {
      DoubledHas(actions, p);
      DecodeIs(p.a);
      DecodeIs(p.b);
      assert Pair(Decode(p.a), p.b) in multiset(s) && Pair(Decode(p.b), p.a) in multiset(s);
      GroupThere(s, act, n, insoff, deloff, Pair(Decode(p.a), p.b));
      GroupThere(s, act, n, insoff, deloff, Pair(Decode(p.b), p.a));
    }
    forall q | 0 <= q < |act|
      ensures act[q].a >= 0 && act[q].b >= 0 && ((forall p | p in actions :: p.a < 0 <==> p.b < 0) ==> act[q].a != act[q].b)
    {
      EntryFrom(actions, s, act, n, insoff, deloff, q);
    }
    DeliversIntro(actions, act, n, insoff, deloff);
  }

  lemma DecodeIs(x: int)
    ensures Decode(x) == if x < 0 then -x - 1 else x
  {
  }

  lemma DeliversIntro(actions: seq<Pair>, act: seq<Pair>, n: nat, insoff: seq<int>, deloff: seq<int>)
    requires forall g: nat, u: int, v: int | g < n && u >= 0 && v >= 0 && GroupOf(act, deloff, g, u) && u != v :: CountsAt(actions, act, insoff, deloff, g, u, v)
    requires forall p | p in actions && p.a != p.b ::
          && HasGroup(act, n, deloff, if p.a < 0 then -p.a - 1 else p.a)
          && HasGroup(act, n, deloff, if p.b < 0 then -p.b - 1 else p.b)
    requires forall q | 0 <= q < |act| :: act[q].a >= 0 && act[q].b >= 0
    requires (forall p | p in actions :: p.a < 0 <==> p.b < 0) ==> forall q | 0 <= q < |act| :: act[q].a != act[q].b
    ensures Delivers(actions, act, n, insoff, deloff)
  {
    hide CountsAt, GroupOf, HasGroup;
  }

  // ---------------------------------------------------------------- the whole

  /**
     stinger_sort_actions: with s the non-self actions in both directions, sorted, the result is s
     cut by source into n groups, each of them first deletions, decoded, and then insertions.  For any
     two vertices u and v, u's group has as many insertions and deletions of v as the actions ask for
     from either end.
   */
  method SortBatch(actions: seq<Pair>, act: array<Pair>) returns (n: nat, actlen: nat, insoff: array<int>, deloff: array<int>, ghost s: seq<Pair>)
    requires act.Length >= 2 * |actions|
    modifies act
    ensures multiset(s) == multiset(Doubled(actions)) && Ascending(s) && actlen == |s| <= act.Length
    ensures n == Groups(s) && Grouped(s, act[..actlen], n, insoff[..], deloff[..])
    ensures Delivers(actions, act[..actlen], n, insoff[..], deloff[..])
  {
    hide *;
    actlen := CopyActions(actions, act);
    Sort(act, actlen);
    SortSorts(Doubled(actions));
    s := act[..actlen];
    var actk;
    actk, n := FindGroups(act, actlen);
    deloff := FindStarts(actlen, actk, n, s);
    insoff := SplitGroups(act, n, deloff, s);
    GroupedIntro(s, act[..actlen], n, insoff[..], deloff[..]);
    AllDelivered(actions, s, act[..actlen], n, insoff[..], deloff[..]);
  }

  lemma SplitsKept(s: seq<Pair>, act: seq<Pair>, act': seq<Pair>, insoff: seq<int>, insoff': seq<int>, deloff: seq<int>, n: nat, k: nat)
    requires Ascending(s) && n == Groups(s) && Offsets(s, n, deloff) && k < n == |insoff| == |insoff'| && |deloff| == n + 1 && |act'| == |act| == |s|
    requires forall g: nat | g < k :: SplitAt(s, act, insoff, deloff, g)
    requires 0 <= deloff[k] <= |s| && act'[..deloff[k]] == act[..deloff[k]] && insoff' == insoff[k := insoff'[k]]
    ensures forall g: nat | g < k :: SplitAt(s, act', insoff', deloff, g)
  {
    hide *;
    forall g: nat | g < k ensures SplitAt(s, act', insoff', deloff, g) {
      OffsetsRise(s, n, deloff, g + 1, k);
      assert act'[..deloff[g + 1]] == act'[..deloff[k]][..deloff[g + 1]] == act[..deloff[k]][..deloff[g + 1]] == act[..deloff[g + 1]];
      SplitKept(s, act, act', insoff, insoff', deloff, g);
    }
  }

  lemma {:induction false} OffsetsRise(s: seq<Pair>, n: nat, deloff: seq<int>, g: nat, k: nat)
    requires Ascending(s) && n == Groups(s) && Offsets(s, n, deloff) && g <= k <= n && |deloff| == n + 1
    ensures 0 <= deloff[g] <= deloff[k]
  {
    StartIs(s, g, |s|);
    if g < k {
      OffsetsRise(s, n, deloff, g, k - 1);
      OffsetsAt(s, n, deloff, k - 1);
    }
  }

  // The number of different sources among the first m entries.
  ghost function Sources(s: seq<Pair>, m: nat): set<int>
    requires m <= |s|
  {
    set k | 0 <= k < m :: s[k].a
  }

  lemma {:induction false} GroupsCount(s: seq<Pair>, m: nat)
    requires Ascending(s) && 0 < m <= |s|
    ensures |Sources(s, m)| == Group(s, m - 1) + 1
  {
    if m == 1 {
      assert Sources(s, 1) == {s[0].a};
    } else {
      GroupsCount(s, m - 1);
      assert Sources(s, m) == Sources(s, m - 1) + {s[m - 1].a};
      if s[m - 1].a in Sources(s, m - 1) {
        var k :| 0 <= k < m - 1 && s[k].a == s[m - 1].a;
        assert Before(s[k], s[m - 2]) || k == m - 2;
        assert Before(s[m - 2], s[m - 1]);
      }
    }
  }

  /**
     The returned number is that of the vertices with an action exactly when there is an action on
     two vertices; without one it is 1, though no vertex has any.
   */
  lemma ReturnedCount(actions: seq<Pair>, s: seq<Pair>)
    requires Ascending(s) && multiset(s) == multiset(Doubled(actions))
    ensures Groups(s) == |Sources(s, |s|)| <==> exists p :: p in actions && p.a != p.b
  {
    if s == [] {
      assert |multiset(s)| == 0;
      DoubledNone(actions);
    } else {
      GroupsCount(s, |s|);
      assert s[0] in multiset(s);
      DoubledNone(actions);
    }
  }

  lemma {:induction false} DoubledNone(actions: seq<Pair>)
    ensures Doubled(actions) == [] <==> forall p | p in actions :: p.a == p.b
  {
    if actions != [] {
      var n := |actions| - 1;
      DoubledNone(actions[..n]);
      assert actions == actions[..n] + [actions[n]];
    }
  }

  /** In a group, deletions come in descending and insertions in ascending order of their targets. */
  lemma TargetsOrdered(s: seq<Pair>, act: seq<Pair>, n: nat, insoff: seq<int>, deloff: seq<int>, g: nat, p: nat, q: nat)
    requires Ascending(s) && Grouped(s, act, n, insoff, deloff) && g < n && p < q
    ensures deloff[g] <= p && q < insoff[g] ==> q < |act| && act[p].b >= act[q].b >= 0
    ensures insoff[g] <= p && q < deloff[g + 1] ==> q < |act| && 0 <= act[p].b <= act[q].b
  {
    assert SplitAt(s, act, insoff, deloff, g);
    if q < |s| { assert Before(s[p], s[q]); }
  }
}
