/**
 Connected components by hooking and climbing, from scratch and warm-started after a batch of
 insertions, with the server's component statistics.
 */
module Labels {
  import opened Sizes

  // ---------------------------------------------------------------- connectedness

  ghost predicate Walk(es: seq<(nat, nat)>, p: seq<nat>) {
    |p| > 0 && forall k: nat | k + 1 < |p| :: Joined(es, p, k)
  }

  predicate Joined(es: seq<(nat, nat)>, p: seq<nat>, k: nat)
    requires k + 1 < |p|
  {
    (p[k], p[k + 1]) in es
  }

  ghost predicate Connected(es: seq<(nat, nat)>, u: nat, v: nat) {
    exists p :: Walk(es, p) && p[0] == u && p[|p| - 1] == v
  }

  predicate EdgesBelow(es: seq<(nat, nat)>, n: nat) {
    forall e | e in es :: e.0 < n && e.1 < n
  }

  predicate Mirrored(es: seq<(nat, nat)>) {
    forall e | e in es :: (e.1, e.0) in es
  }

  lemma ConnectedSelf(es: seq<(nat, nat)>, v: nat)
    ensures Connected(es, v, v)
  {
    assert Walk(es, [v]);
  }

  lemma ConnectedEdge(es: seq<(nat, nat)>, u: nat, v: nat)
    requires (u, v) in es
    ensures Connected(es, u, v)
  {
    var p := [u, v];
    assert Joined(es, p, 0);
    assert Walk(es, p) && p[0] == u && p[|p| - 1] == v;
  }

  lemma ConnectedTrans(es: seq<(nat, nat)>, u: nat, v: nat, w: nat)
    requires Connected(es, u, v) && Connected(es, v, w)
    ensures Connected(es, u, w)
  {
    var p :| Walk(es, p) && p[0] == u && p[|p| - 1] == v;
    var q :| Walk(es, q) && q[0] == v && q[|q| - 1] == w;
    var r := p + q[1..];
    forall k: nat | k + 1 < |r| ensures Joined(es, r, k) {
      if k + 1 < |p| {
        assert Joined(es, p, k);
      } else {
        assert Joined(es, q, k + 1 - |p|);
      }
    }
    assert Walk(es, r) && r[0] == u && r[|r| - 1] == w;
  }

  // Labels that agree along edges agree along walks.
  lemma {:induction false} AlongWalk(es: seq<(nat, nat)>, cm: seq<int>, p: seq<nat>)
    requires Walk(es, p) && EdgesBelow(es, |cm|) && (forall k | 0 <= k < |p| :: p[k] < |cm|)
    requires forall e | e in es :: cm[e.0] == cm[e.1]
    ensures cm[p[0]] == cm[p[|p| - 1]]
  {
    if |p| > 1 {
      var n := |p| - 1;
      assert Joined(es, p, n - 1);
      forall k: nat | k + 1 < n ensures Joined(es, p[..n], k) { assert Joined(es, p, k); }
      AlongWalk(es, cm, p[..n]);
    }
  }

  lemma WalkBelow(es: seq<(nat, nat)>, n: nat, p: seq<nat>)
    requires Walk(es, p) && EdgesBelow(es, n) && p[0] < n
    ensures forall k | 0 <= k < |p| :: p[k] < n
  {
    forall k | 0 <= k < |p| ensures p[k] < n {
      if k > 0 { assert Joined(es, p, k - 1); }
    }
  }

  lemma ConnectedMore(es: seq<(nat, nat)>, es': seq<(nat, nat)>, u: nat, v: nat)
    requires Connected(es, u, v) && forall e | e in es :: e in es'
    ensures Connected(es', u, v)
  {
    var p :| Walk(es, p) && p[0] == u && p[|p| - 1] == v;
    forall k: nat | k + 1 < |p| ensures Joined(es', p, k) { assert Joined(es, p, k); }
    assert Walk(es', p);
  }

  // ---------------------------------------------------------------- labels

  // Every label is a vertex of the same component, and no larger than the vertex.
  ghost predicate Labelled(es: seq<(nat, nat)>, cm: seq<int>) {
    forall v: nat | v < |cm| :: 0 <= cm[v] <= v && Connected(es, v, cm[v])
  }

  // The label of every vertex is the least vertex of its component.
  ghost predicate LeastLabels(es: seq<(nat, nat)>, cm: seq<int>) {
    forall v: nat | v < |cm| :: 0 <= cm[v] && Connected(es, v, cm[v]) && forall u: nat | u < |cm| && Connected(es, u, v) :: cm[v] <= u
  }

  lemma LabelledHook(es: seq<(nat, nat)>, cm: seq<int>, s: nat, d: nat)
    requires Labelled(es, cm) && EdgesBelow(es, |cm|) && (s, d) in es && s < |cm| && d < |cm| && cm[d] < cm[s]
    ensures Labelled(es, cm[s := cm[d]]) && Sum(cm[s := cm[d]]) < Sum(cm)
  {
    assert Connected(es, d, cm[d]) && cm[s] <= s;
    ConnectedEdge(es, s, d);
    ConnectedTrans(es, s, d, cm[d]);
    SumSet(cm, s, cm[d]);
    hide Connected, Sum;
  }

  lemma LabelledClimb(es: seq<(nat, nat)>, cm: seq<int>, i: nat)
    requires Labelled(es, cm) && i < |cm| && 0 <= cm[i] < |cm| && cm[i] != cm[cm[i]]
    ensures 0 <= cm[cm[i]] < cm[i] <= i
    ensures Labelled(es, cm[i := cm[cm[i]]]) && Sum(cm[i := cm[cm[i]]]) < Sum(cm)
  {
    var c: nat := cm[i];
    assert Connected(es, i, c) && Connected(es, c, cm[c]) && cm[c] <= c;
    ConnectedTrans(es, i, c, cm[c]);
    SumSet(cm, i, cm[c]);
    hide Connected, Sum;
  }

  lemma {:induction false} SumNonneg(s: seq<int>)
    requires forall k | 0 <= k < |s| :: s[k] >= 0
    ensures Sum(s) >= 0
  {
    if s != [] { SumNonneg(s[..|s| - 1]); }
  }

  /** When no edge lowers a label any more, every label is the least vertex of its component. */
  lemma SettledLabels(es: seq<(nat, nat)>, cm: seq<int>)
    requires Labelled(es, cm) && EdgesBelow(es, |cm|) && Mirrored(es)
    requires forall k | 0 <= k < |es| && es[k].0 < |cm| && es[k].1 < |cm| :: cm[es[k].0] <= cm[es[k].1]
    ensures LeastLabels(es, cm)
  {
    forall e | e in es ensures cm[e.0] == cm[e.1] {
      var k :| 0 <= k < |es| && es[k] == e;
      assert (e.1, e.0) in es;
      var l :| 0 <= l < |es| && es[l] == (e.1, e.0);
    }
    forall v: nat, u: nat | v < |cm| && u < |cm| && Connected(es, u, v) ensures cm[v] <= u {
      var p :| Walk(es, p) && p[0] == u && p[|p| - 1] == v;
      WalkBelow(es, |cm|, p);
      AlongWalk(es, cm, p);
    }
  }

  // One sweep over all edges: lesser labels move to the source.
  method Hook(es: seq<(nat, nat)>, cm: array<int>) returns (changed: nat)
    requires EdgesBelow(es, cm.Length) && Labelled(es, cm[..])
    modifies cm
    ensures Labelled(es, cm[..])
    ensures changed == 0 ==> cm[..] == old(cm[..]) && forall k | 0 <= k < |es| && es[k].0 < cm.Length && es[k].1 < cm.Length :: cm[es[k].0] <= cm[es[k].1]
    ensures changed > 0 ==> Sum(cm[..]) < Sum(old(cm[..]))
  {
    ghost var cm0 := cm[..];
    changed := 0;
    var k := 0;
    while k < |es|
      invariant 0 <= k <= |es| && Labelled(es, cm[..])
      invariant changed == 0 ==> cm[..] == cm0 && forall l | 0 <= l < k && es[l].0 < cm.Length && es[l].1 < cm.Length :: cm[es[l].0] <= cm[es[l].1]
      invariant changed > 0 ==> Sum(cm[..]) < Sum(cm0)
    {
      assert es[k] in es;
      var (s, d) := es[k];
      if cm[d] < cm[s] {
        LabelledHook(es, cm[..], s, d);
        hide Labelled, Sum;
        cm[s] := cm[d];
        changed := changed + 1;
      }
      k := k + 1;
    }
  }

  // Every vertex climbs to a label that labels itself, as things stand.
  method Climb(ghost es: seq<(nat, nat)>, cm: array<int>)
    requires Labelled(es, cm[..])
    modifies cm
    ensures Labelled(es, cm[..]) && Sum(cm[..]) <= Sum(old(cm[..]))
  {
    ghost var cm0 := cm[..];
    var i := 0;
    while i < cm.Length
      invariant 0 <= i <= cm.Length && Labelled(es, cm[..]) && Sum(cm[..]) <= Sum(cm0)
    {
      LabelRange(es, cm[..], i);
      while cm[i] != cm[cm[i]]
        invariant Labelled(es, cm[..]) && Sum(cm[..]) <= Sum(cm0) && 0 <= cm[i] < cm.Length
        decreases cm[i]
      {
        LabelledClimb(es, cm[..], i);
        ghost var cm1 := cm[..];
        hide Labelled, Sum;
        cm[i] := cm[cm[i]];
        assert cm[..] == cm1[i := cm1[cm1[i]]];
      }
      i := i + 1;
    }
  }

  lemma LabelRange(es: seq<(nat, nat)>, cm: seq<int>, i: nat)
    requires Labelled(es, cm) && i < |cm|
    ensures 0 <= cm[i] <= i
  {
  }

  lemma LabelsNonneg(es: seq<(nat, nat)>, cm: seq<int>)
    requires Labelled(es, cm)
    ensures Sum(cm) >= 0
  {
    SumNonneg(cm);
  }

  /** Hook and climb until nothing changes; it ends because the labels' sum falls. */
  method Settle(es: seq<(nat, nat)>, cm: array<int>)
    requires EdgesBelow(es, cm.Length) && Mirrored(es) && Labelled(es, cm[..])
    modifies cm
    ensures LeastLabels(es, cm[..]) && Labelled(es, cm[..])
  {
    hide *;
    while true
      invariant Labelled(es, cm[..])
      decreases Sum(cm[..])
    {
      ghost var cm0 := cm[..];
      LabelsNonneg(es, cm0);
      var changed := Hook(es, cm);
      if changed == 0 { break; }
      LabelsNonneg(es, cm[..]);
      Climb(es, cm);
      LabelsNonneg(es, cm[..]);
    }
    SettledLabels(es, cm[..]);
  }

  // ---------------------------------------------------------------- counting components

  // The least vertices of components below n.
  function Roots(cm: seq<int>, n: nat): nat
    requires n <= |cm|
  {
    if n == 0 then 0 else Roots(cm, n - 1) + if cm[n - 1] == n - 1 then 1 else 0
  }

  lemma LabelsOfSelf(es: seq<(nat, nat)>, n: nat)
    ensures Labelled(es, seq(n, i => i))
  {
    forall v: nat | v < n ensures Connected(es, v, v) { ConnectedSelf(es, v); }
  }

  // Those of them that have a vertex type.
  function TypedRoots(cm: seq<int>, vtype: seq<int>, n: nat): nat
    requires n <= |cm| == |vtype|
  {
    if n == 0 then 0 else TypedRoots(cm, vtype, n - 1) + if cm[n - 1] == n - 1 && vtype[n - 1] != 0 then 1 else 0
  }

  /** Counting typed roots counts the components exactly when the least vertex of each has a type. */
  /** The number of least vertices that have a type. */
  lemma {:induction false} TypedRootsAre(cm: seq<int>, vtype: seq<int>, n: nat)
    requires n <= |cm| == |vtype|
    ensures TypedRoots(cm, vtype, n) == |set v | 0 <= v < n && cm[v] == v && vtype[v] != 0|
  {
    var now := set v | 0 <= v < n && cm[v] == v && vtype[v] != 0;
    if n == 0 {
      assert now == {};
    } else {
      TypedRootsAre(cm, vtype, n - 1);
      var before := set v | 0 <= v < n - 1 && cm[v] == v && vtype[v] != 0;
      assert now == if cm[n - 1] == n - 1 && vtype[n - 1] != 0 then before + {n - 1} else before;
    }
  }

  lemma {:induction false} TypedAll(cm: seq<int>, vtype: seq<int>, n: nat)
    requires n <= |cm| == |vtype|
    ensures TypedRoots(cm, vtype, n) <= Roots(cm, n)
    ensures TypedRoots(cm, vtype, n) == Roots(cm, n) <==> forall v | 0 <= v < n && cm[v] == v :: vtype[v] != 0
  {
    if n > 0 { TypedAll(cm, vtype, n - 1); }
  }

  /** parallel_shiloach_vishkin_components: least labels, and the number of components whose label has a type. */
  method ShiloachVishkin(es: seq<(nat, nat)>, cm: array<int>, vtype: seq<int>) returns (components: nat)
    requires EdgesBelow(es, cm.Length) && Mirrored(es) && |vtype| == cm.Length
    modifies cm
    ensures LeastLabels(es, cm[..]) && components == |set v | 0 <= v < cm.Length && cm[v] == v && vtype[v] != 0|
  {
    var i := 0;
    while i < cm.Length
      invariant 0 <= i <= cm.Length
      invariant forall v | 0 <= v < i :: cm[v] == v
    {
      cm[i] := i;
      i := i + 1;
    }
    LabelsOfSelf(es, cm.Length);
    assert cm[..] == seq(cm.Length, i => i);
    hide *;
    Settle(es, cm);
    components := CountRoots(cm, vtype);
    TypedRootsAre(cm[..], vtype, cm.Length);
    ghost var cs := cm[..];
    assert forall v | 0 <= v < cm.Length :: cs[v] == cm[v];
    assert (set v | 0 <= v < |cs| && cs[v] == v && vtype[v] != 0) == set v | 0 <= v < cm.Length && cm[v] == v && vtype[v] != 0;
  }

  method CountRoots(cm: array<int>, vtype: seq<int>) returns (components: nat)
    requires |vtype| == cm.Length
    ensures components == TypedRoots(cm[..], vtype, cm.Length)
  {
    components := 0;
    var i := 0;
    while i < cm.Length
      invariant 0 <= i <= cm.Length && components == TypedRoots(cm[..], vtype, i)
    {
      if cm[i] == i && vtype[i] != 0 { components := components + 1; }
      i := i + 1;
    }
  }

  /** Two vertices have the same label exactly when they are connected. */
  lemma SameLabel(es: seq<(nat, nat)>, cm: seq<int>, u: nat, v: nat)
    requires LeastLabels(es, cm) && EdgesBelow(es, |cm|) && Mirrored(es) && u < |cm| && v < |cm|
    ensures cm[u] == cm[v] <==> Connected(es, u, v)
    ensures 0 <= cm[u] <= u && cm[cm[u]] == cm[u]
  {
    ConnectedSelf(es, u);
    ConnectedSelf(es, v);
    var a: nat, b: nat := cm[u], cm[v];
    if Connected(es, u, v) {
      ConnectedBack(es, u, v);
      ConnectedTrans(es, v, u, a);
      ConnectedTrans(es, u, v, b);
      ConnectedBack(es, v, a);
      ConnectedBack(es, u, b);
    }
    if a == b {
      ConnectedBack(es, v, b);
      ConnectedTrans(es, u, a, v);
    }
    ConnectedSelf(es, a);
    ConnectedTrans(es, u, a, cm[a]);
    ConnectedBack(es, u, a);
    ConnectedBack(es, u, cm[a]);
    hide Connected;
  }

  lemma ConnectedBack(es: seq<(nat, nat)>, u: nat, v: nat)
    requires Mirrored(es) && Connected(es, u, v)
    ensures Connected(es, v, u)
  {
    var p :| Walk(es, p) && p[0] == u && p[|p| - 1] == v;
    var n := |p|;
    var q := seq(n, k requires 0 <= k < n => p[n - 1 - k]);
    forall k: nat | k + 1 < n ensures Joined(es, q, k) { assert Joined(es, p, n - 2 - k); }
    assert Walk(es, q) && q[0] == v && q[|q| - 1] == u;
  }

  // ---------------------------------------------------------------- the server's statistics

  // How many communities below n have two vertices or more.
  function Shared(cm: seq<int>, n: nat): nat {
    if n == 0 then 0 else Shared(cm, n - 1) + if Size(cm, n - 1) > 1 then 1 else 0
  }

  // Two vertices or more have label c.
  predicate Several(cm: seq<int>, c: int) {
    exists u, v :: 0 <= u < v < |cm| && cm[u] == c && cm[v] == c
  }

  lemma {:induction false} SeveralIs(cm: seq<int>, c: int)
    ensures Several(cm, c) <==> Size(cm, c) > 1
  {
    var n := |cm| - 1;
    if cm != [] {
      SeveralIs(cm[..n], c);
      SizePositive(cm[..n], c);
      if Several(cm, c) {
        var u, v :| 0 <= u < v < |cm| && cm[u] == c && cm[v] == c;
        assert cm[..n][u] == c;
        if v < n { assert cm[..n][v] == c; }
      }
      if Several(cm[..n], c) {
        var u, v :| 0 <= u < v < n && cm[..n][u] == c && cm[..n][v] == c;
        assert cm[u] == c && cm[v] == c;
      }
      if c in cm[..n] {
        var u :| 0 <= u < n && cm[..n][u] == c;
        assert cm[u] == c;
      }
    }
  }

  /** The number of labels that two vertices or more have. */
  lemma {:induction false} SharedAre(cm: seq<int>, n: nat)
    ensures Shared(cm, n) == |set c | 0 <= c < n && Several(cm, c)|
  {
    hide Several, Size;
    var now := set c | 0 <= c < n && Several(cm, c);
    if n == 0 {
      assert now == {};
    } else {
      SharedAre(cm, n - 1);
      SeveralIs(cm, n - 1);
      var before := set c | 0 <= c < n - 1 && Several(cm, c);
      if Several(cm, n - 1) { assert now == before + {n - 1}; } else { assert now == before; }
    }
  }

  // Among the labels of the first k vertices, list holds each once.
  ghost predicate ListedLabels(cm: seq<int>, k: nat, list: seq<int>) {
    && k <= |cm|
    && (forall p, q | 0 <= p < q < |list| :: list[p] != list[q])
    && (forall c :: c in list <==> c in cm[..k])
  }

  lemma ListedNext(cm: seq<int>, k: nat, list: seq<int>)
    requires ListedLabels(cm, k, list) && k < |cm|
    ensures ListedLabels(cm, k + 1, if cm[k] in cm[..k] then list else list + [cm[k]])
  {
    assert cm[..k + 1] == cm[..k] + [cm[k]];
  }

  lemma {:induction false} ListRoom(list: seq<int>, n: nat)
    requires Bounded(list, n) && forall p, q | 0 <= p < q < |list| :: list[p] != list[q]
    ensures |list| <= n
  {
    if list != [] {
      assert 0 <= list[0] < n;
      if n - 1 in list {
        var k :| 0 <= k < |list| && list[k] == n - 1;
        ListRoom(list[..k] + list[k + 1..], n - 1);
      } else {
        ListRoom(list, n - 1);
      }
    }
  }

  // The labels of list that have two vertices or more.
  function SharedIn(cm: seq<int>, list: seq<int>): nat {
    if list == [] then 0 else SharedIn(cm, list[..|list| - 1]) + if Size(cm, list[|list| - 1]) > 1 then 1 else 0
  }

  function SharedBelow(cm: seq<int>, list: seq<int>, n: nat): nat {
    if n == 0 then 0 else SharedBelow(cm, list, n - 1) + if n - 1 in list && Size(cm, n - 1) > 1 then 1 else 0
  }

  lemma {:induction false} SharedBelowAppend(cm: seq<int>, list: seq<int>, c: int, n: nat)
    requires c !in list
    ensures SharedBelow(cm, list + [c], n) == SharedBelow(cm, list, n) + if 0 <= c < n && Size(cm, c) > 1 then 1 else 0
  {
    if n > 0 { SharedBelowAppend(cm, list, c, n - 1); }
  }

  lemma {:induction false} SharedBelowNone(cm: seq<int>, n: nat)
    ensures SharedBelow(cm, [], n) == 0
  {
    if n > 0 { SharedBelowNone(cm, n - 1); }
  }

  lemma {:induction false} SharedInBelow(cm: seq<int>, list: seq<int>, n: nat)
    requires Bounded(list, n) && forall p, q | 0 <= p < q < |list| :: list[p] != list[q]
    ensures SharedIn(cm, list) == SharedBelow(cm, list, n)
  {
    if list == [] {
      SharedBelowNone(cm, n);
    } else {
      var m := |list| - 1;
      SharedInBelow(cm, list[..m], n);
      SharedBelowAppend(cm, list[..m], list[m], n);
      assert list[..m] + [list[m]] == list;
    }
  }

  lemma {:induction false} SharedIsBelow(cm: seq<int>, list: seq<int>, n: nat)
    requires forall c | 0 <= c < n && Size(cm, c) > 0 :: c in list
    ensures Shared(cm, n) == SharedBelow(cm, list, n)
  {
    if n > 0 { SharedIsBelow(cm, list, n - 1); }
  }

  // z is the largest number of vertices with one label.
  ghost predicate LargestSize(cm: seq<int>, z: int) {
    (forall c :: Size(cm, c) <= z) && exists c :: Size(cm, c) == z
  }

  // The marks count the first k vertices by label, from -1.
  ghost predicate MarksCount(cm: seq<int>, k: nat, mark: seq<int>) {
    k <= |cm| && |cm| <= |mark| && forall c | 0 <= c < |mark| :: mark[c] == Size(cm[..k], c) - 1
  }

  lemma ClaimNone(cm: seq<int>, mark: seq<int>)
    requires |cm| <= |mark| && forall c | 0 <= c < |mark| :: mark[c] == -1
    ensures MarksCount(cm, 0, mark) && ListedLabels(cm, 0, [])
  {
    assert cm[..0] == [];
  }

  // The next vertex's label is marked, and listed when it is the first with it.
  lemma ClaimHere(cm: seq<int>, k: nat, list: seq<int>, mark: seq<int>)
    requires Bounded(cm, |cm|) && k < |cm| && MarksCount(cm, k, mark) && ListedLabels(cm, k, list)
    ensures 0 <= cm[k] < |mark| && |list| < |cm| + (if mark[cm[k]] == -1 then 0 else 1)
    ensures MarksCount(cm, k + 1, mark[cm[k] := mark[cm[k]] + 1])
    ensures ListedLabels(cm, k + 1, if mark[cm[k]] == -1 then list + [cm[k]] else list)
  {
    SizePositive(cm[..k], cm[k]);
    MarksNext(cm, k, mark);
    ListedNext(cm, k, list);
    ListedBound(cm, k, list);
    hide ListedLabels, Size;
  }

  // The first pass over the vertices: marks and the list of labels in use.
  method ClaimLabels(cm: array<int>, vlist: array<int>, mark: array<int>) returns (nvlist: nat)
    requires cm != vlist && cm != mark && vlist != mark && cm.Length <= vlist.Length && cm.Length == mark.Length
    requires Bounded(cm[..], cm.Length) && forall c | 0 <= c < mark.Length :: mark[c] == -1
    modifies vlist, mark
    ensures nvlist <= cm.Length && MarksCount(cm[..], cm.Length, mark[..]) && ListedLabels(cm[..], cm.Length, vlist[..nvlist])
  {
    ghost var cs := cm[..];
    nvlist := 0;
    var k := 0;
    assert vlist[..0] == [] && cs[..0] == [];
    ClaimNone(cs, mark[..]);
    hide *;
    while k < cm.Length
      invariant 0 <= k <= cm.Length && cm[..] == cs && nvlist <= cm.Length
      invariant MarksCount(cs, k, mark[..]) && ListedLabels(cs, k, vlist[..nvlist])
    {
      var c := cm[k];
      ghost var list, m0 := vlist[..nvlist], mark[..];
      ClaimHere(cs, k, list, m0);
      var subcnt := mark[c];
      mark[c] := mark[c] + 1;
      if subcnt == -1 {
        vlist[nvlist] := c;
        assert vlist[..nvlist + 1] == list + [c];
        nvlist := nvlist + 1;
      }
      k := k + 1;
    }
  }

  lemma MarksNext(cm: seq<int>, k: nat, mark: seq<int>)
    requires MarksCount(cm, k, mark) && k < |cm| && 0 <= cm[k] < |mark|
    ensures MarksCount(cm, k + 1, mark[cm[k] := mark[cm[k]] + 1])
  {
    forall c | 0 <= c < |mark| { SizeSplit(cm, k, c); }
  }

  // A label not yet listed leaves room for one more.
  lemma ListedBound(cm: seq<int>, k: nat, list: seq<int>)
    requires ListedLabels(cm, k, list) && Bounded(cm, |cm|) && k < |cm|
    ensures |list| <= |cm| && (cm[k] !in cm[..k] ==> |list| < |cm|)
  {
    var more := if cm[k] in cm[..k] then list else list + [cm[k]];
    ListedNext(cm, k, list);
    forall p | 0 <= p < |more| ensures 0 <= more[p] < |cm| {
      assert more[p] in more;
      assert more[p] in cm[..k + 1];
    }
    ListRoom(more, |cm|);
  }

  // The second pass over the labels in use: the statistics, and the marks back to -1.
  method TakeStatistics(ghost cm: seq<int>, vlist: array<int>, nvlist: nat, mark: array<int>) returns (nnsc: nat, mxcsz: int)
    requires vlist != mark && nvlist <= vlist.Length && |cm| == mark.Length && Bounded(cm, |cm|) && cm != []
    requires MarksCount(cm, |cm|, mark[..]) && ListedLabels(cm, |cm|, vlist[..nvlist])
    modifies mark
    ensures nnsc == Shared(cm, |cm|) && LargestSize(cm, mxcsz)
    ensures forall c | 0 <= c < mark.Length :: mark[c] == -1
  {
    hide *;
    ghost var list := vlist[..nvlist];
    TakingStarts(cm, list, mark[..]);
    nnsc := 0;
    var cmaxsz := -1;
    var k := 0;
    while k < nvlist
      invariant 0 <= k <= nvlist && vlist[..nvlist] == list
      invariant Taking(cm, list, k, mark[..], nnsc, cmaxsz)
    {
      assert vlist[k] == list[k];
      nnsc, cmaxsz := TakeOne(cm, list, k, vlist[k], mark, nnsc, cmaxsz);
      k := k + 1;
    }
    mxcsz := cmaxsz;
    TakingDone(cm, list, mark[..], nnsc, cmaxsz);
  }

  // One label's turn.
  method TakeOne(ghost cm: seq<int>, ghost list: seq<int>, ghost k: nat, c: int, mark: array<int>, nnsc: nat, cmaxsz: int) returns (nnsc': nat, cmaxsz': int)
    requires k < |list| && c == list[k] && Taking(cm, list, k, mark[..], nnsc, cmaxsz)
    modifies mark
    ensures Taking(cm, list, k + 1, mark[..], nnsc', cmaxsz')
  {
    hide *;
    TakingNext(cm, list, k, mark[..], nnsc, cmaxsz);
    nnsc', cmaxsz' := nnsc, cmaxsz;
    var csz := mark[c] + 1;
    if csz > 1 { nnsc' := nnsc + 1; }
    if csz > cmaxsz { cmaxsz' := csz; }
    mark[c] := -1;
  }

  // The first k listed labels are taken: their marks are cleared, and the statistics cover them.
  ghost predicate Taking(cm: seq<int>, list: seq<int>, k: nat, mark: seq<int>, nnsc: int, z: int) {
    && k <= |list| && |mark| == |cm| && InUse(cm, list)
    && (forall c | 0 <= c < |mark| :: mark[c] == if c in list[..k] then -1 else Size(cm, c) - 1)
    && nnsc == SharedIn(cm, list[..k])
    && (forall p | 0 <= p < k :: Size(cm, list[p]) <= z)
    && (if k == 0 then z == -1 else exists p :: 0 <= p < k && Size(cm, list[p]) == z)
  }

  // list holds the labels in use, once each.
  ghost predicate InUse(cm: seq<int>, list: seq<int>) {
    && list != [] && Bounded(list, |cm|)
    && (forall p, q | 0 <= p < q < |list| :: list[p] != list[q])
    && (forall c :: c in list <==> Size(cm, c) > 0)
  }

  lemma TakingStarts(cm: seq<int>, list: seq<int>, mark: seq<int>)
    requires Bounded(cm, |cm|) && cm != [] && |mark| == |cm| && MarksCount(cm, |cm|, mark) && ListedLabels(cm, |cm|, list)
    ensures Taking(cm, list, 0, mark, 0, -1)
  {
    ListFacts(cm, list, mark);
  }

  lemma TakingNext(cm: seq<int>, list: seq<int>, k: nat, mark: seq<int>, nnsc: int, z: int)
    requires Taking(cm, list, k, mark, nnsc, z) && k < |list|
    ensures 0 <= list[k] < |mark|
    ensures var csz := mark[list[k]] + 1;
      Taking(cm, list, k + 1, mark[list[k] := -1], if csz > 1 then nnsc + 1 else nnsc, if csz > z then csz else z)
  {
    hide Size, InUse, SharedIn, Bounded;
    InUseAt(cm, list, k);
    SharedInNext(cm, list, k);
    var csz := mark[list[k]] + 1;
    assert csz == Size(cm, list[k]);
    if csz <= z {
      assert k > 0;
      var p :| 0 <= p < k && Size(cm, list[p]) == z;
      assert 0 <= p < k + 1;
    }
  }

  lemma InUseAt(cm: seq<int>, list: seq<int>, k: nat)
    requires InUse(cm, list) && k < |list|
    ensures 0 <= list[k] < |cm| && list[k] !in list[..k] && forall c :: c in list[..k + 1] <==> c in list[..k] || c == list[k]
  {
    assert list[..k + 1] == list[..k] + [list[k]];
  }

  lemma SharedInNext(cm: seq<int>, list: seq<int>, k: nat)
    requires k < |list|
    ensures SharedIn(cm, list[..k + 1]) == SharedIn(cm, list[..k]) + if Size(cm, list[k]) > 1 then 1 else 0
  {
    assert list[..k + 1][..k] == list[..k];
  }

  lemma TakingDone(cm: seq<int>, list: seq<int>, mark: seq<int>, nnsc: int, z: int)
    requires Taking(cm, list, |list|, mark, nnsc, z)
    ensures nnsc == Shared(cm, |cm|) && LargestSize(cm, z) && forall c | 0 <= c < |mark| :: mark[c] == -1
  {
    assert list[..|list|] == list;
    StatisticsDone(cm, list, z);
  }

  lemma ListFacts(cm: seq<int>, list: seq<int>, mark: seq<int>)
    requires Bounded(cm, |cm|) && cm != [] && |mark| == |cm| && MarksCount(cm, |cm|, mark) && ListedLabels(cm, |cm|, list)
    ensures InUse(cm, list) && forall c | 0 <= c < |mark| :: mark[c] == Size(cm, c) - 1
  {
    assert cm[..|cm|] == cm;
    assert cm[0] in cm && cm[0] in list;
    forall c ensures c in list <==> Size(cm, c) > 0 { SizePositive(cm, c); }
    forall p | 0 <= p < |list| ensures 0 <= list[p] < |cm| {
      assert list[p] in list && list[p] in cm;
    }
  }

  lemma StatisticsDone(cm: seq<int>, list: seq<int>, z: int)
    requires InUse(cm, list)
    requires forall p | 0 <= p < |list| :: Size(cm, list[p]) <= z
    requires exists p :: 0 <= p < |list| && Size(cm, list[p]) == z
    ensures SharedIn(cm, list) == Shared(cm, |cm|) && LargestSize(cm, z)
  {
    SharedInBelow(cm, list, |cm|);
    SharedIsBelow(cm, list, |cm|);
    assert list[0] in list;
    forall c ensures Size(cm, c) <= z {
      if Size(cm, c) > 0 { var p :| 0 <= p < |list| && list[p] == c; }
    }
  }

  /**
   components_batch after insertions only: labels that were right for fewer edges become right, the
   statistics are exact and the marks are ready for the next batch.  The number of components it
   reports is always the number of vertices.
   */
  method ComponentsBatch(es: seq<(nat, nat)>, ghost es0: seq<(nat, nat)>, cm: array<int>, vlist: array<int>, mark: array<int>)
    returns (nComponents: nat, nNonsingleton: nat, maxCompsize: int)
    requires EdgesBelow(es, cm.Length) && Mirrored(es) && (forall e | e in es0 :: e in es) && Labelled(es0, cm[..])
    requires cm != vlist && cm != mark && vlist != mark && cm.Length <= vlist.Length && cm.Length == mark.Length
    requires forall c | 0 <= c < mark.Length :: mark[c] == -1
    modifies cm, vlist, mark
    ensures LeastLabels(es, cm[..]) && Labelled(es, cm[..])
    ensures nComponents == cm.Length
    ensures nNonsingleton == |set c | 0 <= c < cm.Length && Several(cm[..], c)|
    ensures cm.Length > 0 ==> LargestSize(cm[..], maxCompsize)
    ensures forall c | 0 <= c < mark.Length :: mark[c] == -1
  {
    LabelledMore(es0, es, cm[..]);
    hide *;
    Settle(es, cm);
    LeastBounded(es, cm[..]);
    ghost var cs := cm[..];
    nComponents := CountSettled(cm);
    nNonsingleton, maxCompsize := 0, 0;
    if nComponents != 0 {
      var nvlist := ClaimLabels(cm, vlist, mark);
      assert cm[..] == cs;
      nNonsingleton, maxCompsize := TakeStatistics(cm[..], vlist, nvlist, mark);
      SharedAre(cs, |cs|);
    } else {
      SharedAre(cs, 0);
      NoneShared(cs);
    }
  }

  lemma NoneShared(cm: seq<int>)
    requires cm == []
    ensures Shared(cm, 0) == 0
  {
  }

  lemma LabelledMore(es0: seq<(nat, nat)>, es: seq<(nat, nat)>, cm: seq<int>)
    requires Labelled(es0, cm) && forall e | e in es0 :: e in es
    ensures Labelled(es, cm)
  {
    forall v: nat | v < |cm| ensures Connected(es, v, cm[v]) { ConnectedMore(es0, es, v, cm[v]); }
  }

  lemma LeastBounded(es: seq<(nat, nat)>, cm: seq<int>)
    requires LeastLabels(es, cm) && EdgesBelow(es, |cm|) && Mirrored(es)
    ensures Bounded(cm, |cm|) && forall i: nat | i < |cm| :: 0 <= cm[i] < |cm| && cm[cm[i]] == cm[i]
  {
    forall i: nat | i < |cm| ensures 0 <= cm[i] < |cm| && cm[cm[i]] == cm[i] { SameLabel(es, cm, i, i); }
    hide LeastLabels;
  }

  // Counts the vertices whose label labels itself.
  method CountSettled(cm: array<int>) returns (nc: nat)
    requires forall i: nat | i < cm.Length :: 0 <= cm[..][i] < cm.Length && cm[..][cm[..][i]] == cm[..][i]
    ensures nc == cm.Length
  {
    ghost var cs := cm[..];
    nc := 0;
    var i := 0;
    while i < cm.Length
      invariant 0 <= i <= cm.Length && nc == i
    {
      assert 0 <= cs[i] < cm.Length && cs[cs[i]] == cs[i];
      assert cm[i] == cs[i] && cm[cm[i]] == cs[cs[i]];
      if cm[i] == cm[cm[i]] { nc := nc + 1; }
      i := i + 1;
    }
  }

  lemma {:induction false} RootsAll(cm: seq<int>, n: nat)
    requires n <= |cm|
    ensures Roots(cm, n) <= n && (Roots(cm, n) == n <==> forall v | 0 <= v < n :: cm[v] == v)
  {
    if n > 0 { RootsAll(cm, n - 1); }
  }

  /** The reported number of components is the true one exactly when no edge joins two vertices. */
  lemma ReportedComponents(es: seq<(nat, nat)>, cm: seq<int>)
    requires LeastLabels(es, cm) && EdgesBelow(es, |cm|) && Mirrored(es)
    ensures Roots(cm, |cm|) == |cm| <==> forall e | e in es :: e.0 == e.1
  {
    RootsAll(cm, |cm|);
    if forall v | 0 <= v < |cm| :: cm[v] == v {
      forall e | e in es ensures e.0 == e.1 {
        ConnectedEdge(es, e.0, e.1);
        SameLabel(es, cm, e.0, e.1);
      }
    }
    if forall e | e in es :: e.0 == e.1 {
      forall v: nat | v < |cm| ensures cm[v] == v {
        assert Connected(es, v, cm[v]);
        var p :| Walk(es, p) && p[0] == v && p[|p| - 1] == cm[v];
        Standing(es, p);
      }
    }
  }

  lemma {:induction false} Standing(es: seq<(nat, nat)>, p: seq<nat>)
    requires Walk(es, p) && forall e | e in es :: e.0 == e.1
    ensures p[0] == p[|p| - 1]
  {
    if |p| > 1 {
      var n := |p| - 1;
      assert Joined(es, p, n - 1);
      forall k: nat | k + 1 < n ensures Joined(es, p[..n], k) { assert Joined(es, p, k); }
      Standing(es, p[..n]);
    }
  }
}
