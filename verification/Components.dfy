/**
 Streaming components' initialisation: breadth-first trees for all components, in place.
 */
module Components {
  import opened ShortestPaths
  import opened Sizes
  import opened ComponentTrees

  // The used part of k's slots.
  function Slots(parents: seq<int>, counter: seq<int>, k: nat): seq<int>
    requires k < |counter|
  {
    if 0 <= counter[k] <= PARENTS && PARENTS * k + PARENTS <= |parents| then parents[PARENTS * k..PARENTS * k + counter[k]] else []
  }

  function Kin(parents: seq<int>, counter: seq<int>): (r: seq<seq<int>>)
    ensures |r| == |counter| && forall k | 0 <= k < |counter| :: r[k] == Slots(parents, counter, k)
  {
    seq(|counter|, k requires 0 <= k < |counter| => Slots(parents, counter, k))
  }

  predicate CountersOk(parents: seq<int>, counter: seq<int>) {
    |parents| == PARENTS * |counter| && forall k | 0 <= k < |counter| :: 0 <= counter[k] <= PARENTS
  }

  lemma KinAppend(parents: seq<int>, counter: seq<int>, k: nat, x: int)
    requires CountersOk(parents, counter) && k < |counter| && counter[k] < PARENTS
    ensures 0 <= PARENTS * k + counter[k] < |parents| && |Kin(parents, counter)[k]| == counter[k]
    ensures var parents' := parents[PARENTS * k + counter[k] := x];
      var counter' := counter[k := counter[k] + 1];
      CountersOk(parents', counter') && Kin(parents', counter') == Kin(parents, counter)[k := Kin(parents, counter)[k] + [x]]
  {
    var parents', counter' := parents[PARENTS * k + counter[k] := x], counter[k := counter[k] + 1];
    forall v: nat | v < |counter| ensures Slots(parents', counter', v) == if v == k then Slots(parents, counter, k) + [x] else Slots(parents, counter, v) {}
  }

  lemma KinFull(parents: seq<int>, counter: seq<int>, k: nat)
    requires CountersOk(parents, counter) && k < |counter|
    ensures |Kin(parents, counter)[k]| == counter[k]
  {
  }

  class Workspace {
    const nv: nat
    const queue: array<nat>
    const level: array<int>
    const parentArray: array<int>
    const parentCounter: array<int>
    const components: array<int>
    const componentSizes: array<int>

    ghost predicate Valid()
      reads this, parentArray, parentCounter
    {
      && queue.Length == level.Length == parentCounter.Length == components.Length == componentSizes.Length == nv
      && parentArray.Length == PARENTS * nv && nv < INFINITY_MY
      && level != parentArray && level != parentCounter && level != components && level != componentSizes
      && parentArray != parentCounter && parentArray != components && parentArray != componentSizes
      && parentCounter != components && parentCounter != componentSizes && components != componentSizes
      && CountersOk(parentArray[..], parentCounter[..])
    }

    ghost function State(): Tree
      reads this, level, parentArray, parentCounter, components
    {
      Tree(level[..], components[..], Kin(parentArray[..], parentCounter[..]))
    }

    /** streaming_components_workspace_from_void: room for nv vertices. */
    constructor (nv: nat)
      requires nv < INFINITY_MY
      ensures Valid() && this.nv == nv
    {
      this.nv := nv;
      queue := new nat[nv](_ => 0);
      level := new int[nv](_ => INFINITY_MY);
      parentArray := new int[PARENTS * nv](_ => 0);
      parentCounter := new int[nv](_ => 0);
      components := new int[nv](i => i);
      componentSizes := new int[nv](_ => 0);
    }

    // One more entry in k's list.
    method Push(k: nat, x: int)
      requires Valid() && k < nv && parentCounter[k] < PARENTS
      modifies parentArray, parentCounter
      ensures Valid() && |old(State()).kin| == nv && State() == old(State()).(kin := old(State()).kin[k := old(State()).kin[k] + [x]])
    {
      ghost var parents0, counter0 := parentArray[..], parentCounter[..];
      KinAppend(parents0, counter0, k, x);
      hide Kin, CountersOk;
      var which := parentCounter[k];
      parentCounter[k] := which + 1;
      parentArray[PARENTS * k + which] := x;
      assert parentCounter[..] == counter0[k := counter0[k] + 1];
      assert parentArray[..] == parents0[PARENTS * k + counter0[k] := x];
    }

    // k gets the current vertex listed, if it has room.
    method Note(cur: nat, k: nat)
      requires Valid() && cur < nv && k < nv
      modifies parentArray, parentCounter
      ensures Valid() && |old(State()).kin| == nv && State() == Noted(old(State()), cur, k)
    {
      KinFull(parentArray[..], parentCounter[..], k);
      hide Kin, CountersOk;
      var myLevel := level[cur];
      var nextLevel := myLevel + 1;
      if parentCounter[k] < PARENTS {
        if level[k] == nextLevel {
          Push(k, cur);
        } else if level[k] == myLevel {
          Push(k, -1 - cur);
        }
      }
    }

    // One edge of the search: its end may be found, and may get the current vertex listed.
    method Visit(root: nat, cur: nat, k: nat, qEnd: nat) returns (qEnd': nat)
      requires Valid() && cur < nv && k < nv && root < nv && (level[k] == INFINITY_MY ==> qEnd < nv)
      modifies queue, level, parentArray, parentCounter, components
      ensures Valid() && |old(State()).level| == |old(State()).comp| == |old(State()).kin| == nv
      ensures State() == Noted(Found(old(State()), cur, k, root), cur, k)
      ensures old(level[k]) == INFINITY_MY ==> qEnd' == qEnd + 1 && qEnd < queue.Length && queue[..] == old(queue[..])[qEnd := k]
      ensures old(level[k]) != INFINITY_MY ==> qEnd' == qEnd && queue[..] == old(queue[..])
    {
      hide Kin, CountersOk, Noted;
      ghost var t := State();
      qEnd' := qEnd;
      if level[k] == INFINITY_MY {
        level[k] := level[cur] + 1;
        queue[qEnd] := k;
        qEnd' := qEnd + 1;
        components[k] := root;
        assert level[..] == t.level[k := t.level[cur] + 1] && components[..] == t.comp[k := root];
      }
      assert State() == Found(t, cur, k, root);
      Note(cur, k);
    }
  
    // All edges of the vertex at qStart.
    method VisitAll(adj: seq<seq<nat>>, root: nat, qStart: nat, qEnd0: nat, ghost seen0: set<(nat, nat)>, ghost csize: seq<int>)
      returns (qEnd: nat, ghost seen: set<(nat, nat)>)
      requires Valid() && nv == |adj| && qStart < qEnd0 <= nv && Searching(adj, State(), seen0, root, queue[..qEnd0], qStart, 0, csize)
      modifies queue, level, parentArray, parentCounter, components
      ensures Valid() && qStart < qEnd0 <= qEnd <= nv && Searching(adj, State(), seen, root, queue[..qEnd], qStart + 1, 0, csize)
    {
      hide *;
      ValidFacts();
      SearchingFacts(adj, State(), seen0, root, queue[..qEnd0], qStart, 0, csize);
      var currElement := queue[qStart];
      qEnd, seen := qEnd0, seen0;
      var e := 0;
      while e < |adj[currElement]|
        invariant 0 <= e <= |adj[currElement]| && Valid() && qStart < qEnd0 <= qEnd <= nv && queue[qStart] == currElement
        invariant Searching(adj, State(), seen, root, queue[..qEnd], qStart, e, csize)
      {
        var k := adj[currElement][e];
        StateFacts();
        SearchingFacts(adj, State(), seen, root, queue[..qEnd], qStart, e, csize);
        EdgeTurn(adj, State(), seen, root, queue[..qEnd], qStart, e, csize, k);
        ghost var queue0, end0, fresh_ := queue[..], qEnd, level[k] == INFINITY_MY;
        qEnd := Visit(root, currElement, k, qEnd);
        assert queue[..qEnd] == if fresh_ then queue0[..end0] + [k] else queue0[..end0];
        seen := seen + {(currElement, k)};
        e := e + 1;
      }
      Advance(adj, State(), seen, root, queue[..qEnd], qStart, e, csize);
    }

    lemma ValidFacts()
      requires Valid()
      ensures queue.Length == level.Length == components.Length == componentSizes.Length == nv < INFINITY_MY
      ensures level != componentSizes && components != componentSizes && parentArray != componentSizes && parentCounter != componentSizes
    {
    }

    lemma StateFacts()
      requires Valid()
      ensures State().level == level[..] && State().comp == components[..]
    {
    }

    /** bfs_build_component: the component of a vertex not reached yet; the result is its size. */
    method BfsBuildComponent(adj: seq<seq<nat>>, currRoot: nat, ghost seen0: set<(nat, nat)>) returns (qEnd: nat, ghost seen: set<(nat, nat)>)
      requires Valid() && nv == |adj| && currRoot < nv && level[currRoot] == INFINITY_MY
      requires Between(adj, State(), seen0, currRoot, componentSizes[..])
      modifies queue, level, parentArray, parentCounter, components
      ensures Valid() && Between(adj, State(), seen, currRoot + 1, componentSizes[..][currRoot := qEnd])
    {
      hide *;
      ValidFacts();
      StateFacts();
      ghost var csize, t := componentSizes[..], State();
      ReachedIs(State(), currRoot);
      SearchStarts(adj, State(), seen0, currRoot, csize);
      StartAt(currRoot);
      assert State() == Rooted(t, currRoot);
      qEnd, seen := 1, seen0;
      assert queue[..1] == [currRoot];
      var qStart := 0;
      while qStart != qEnd
        invariant 0 <= qStart <= qEnd <= nv && Valid() && componentSizes[..] == csize
        invariant Searching(adj, State(), seen, currRoot, queue[..qEnd], qStart, 0, csize)
        decreases nv - qStart
      {
        var oldQEnd := qEnd;
        while qStart < oldQEnd
          invariant qStart <= oldQEnd <= qEnd <= nv && Valid() && componentSizes[..] == csize
          invariant Searching(adj, State(), seen, currRoot, queue[..qEnd], qStart, 0, csize)
        {
          qEnd, seen := VisitAll(adj, currRoot, qStart, qEnd, seen, csize);
          qStart := qStart + 1;
        }
      }
      SearchEnds(adj, State(), seen, currRoot, queue[..qEnd], csize);
    }

    // The root's own entries.
    method StartAt(currRoot: nat)
      requires Valid() && currRoot < nv && |State().level| == |State().comp|
      modifies queue, level, components
      ensures Valid() && State() == Rooted(old(State()), currRoot) && queue[0] == currRoot
    {
      hide Kin, CountersOk;
      ghost var t := State();
      components[currRoot] := currRoot;
      level[currRoot] := 0;
      queue[0] := currRoot;
      assert level[..] == t.level[currRoot := 0] && components[..] == t.comp[currRoot := currRoot];
    }

    // Everything as before any search.
    method Reset()
      requires Valid()
      modifies level, parentCounter, components, componentSizes
      ensures Valid() && forall v: nat | v < nv :: level[v] == INFINITY_MY && components[v] == v && componentSizes[v] == 0 && parentCounter[v] == 0
    {
      hide Kin, CountersOk;
      var i := 0;
      while i < nv
        invariant 0 <= i <= nv && parentArray.Length == PARENTS * nv
        invariant forall v: nat | v < i :: level[v] == INFINITY_MY && components[v] == v && componentSizes[v] == 0 && parentCounter[v] == 0
      {
        components[i] := i;
        componentSizes[i] := 0;
        level[i] := INFINITY_MY;
        parentCounter[i] := 0;
        i := i + 1;
      }
      CountersZero(parentArray[..], parentCounter[..]);
    }

    /**
     streaming_components_init: least labels, exact sizes at the roots, distances from the roots,
     and sound lists of parents and neighbours.
     */
    method Init(adj: seq<seq<nat>>)
      requires Valid() && nv == |adj| && Symmetric(adj)
      modifies queue, level, parentArray, parentCounter, components, componentSizes
      ensures Valid() && Complete(adj, State(), componentSizes[..])
    {
      hide *;
      ValidFacts();
      Reset();
      StateIs();
      FreshTree(adj, State(), componentSizes[..]);
      ghost var seen: set<(nat, nat)> := {};
      var i := 0;
      while i < nv
        invariant 0 <= i <= nv && Valid() && Between(adj, State(), seen, i, componentSizes[..])
      {
        StateFacts();
        ReachedIs(State(), i);
        if level[i] == INFINITY_MY && |adj[i]| != 0 {
          ghost var csize := componentSizes[..];
          var size;
          size, seen := BfsBuildComponent(adj, i, seen);
          componentSizes[i] := size;
        } else {
          SkipCovered(adj, State(), seen, i, componentSizes[..]);
        }
        i := i + 1;
      }
      Singles(adj, seen);
    }

    // The vertices without edges.
    method Singles(adj: seq<seq<nat>>, ghost seen: set<(nat, nat)>)
      requires Valid() && nv == |adj| && Between(adj, State(), seen, nv, componentSizes[..])
      modifies level, components, componentSizes
      ensures Valid() && Complete(adj, State(), componentSizes[..])
    {
      hide *;
      ValidFacts();
      var i := 0;
      while i < nv
        invariant 0 <= i <= nv && Valid() && Between(adj, State(), seen, nv, componentSizes[..])
        invariant forall v: nat | v < i :: level[v] != INFINITY_MY
      {
        StateFacts();
        ReachedIs(State(), i);
        if level[i] == INFINITY_MY {
          Isolated(adj, State(), seen, nv, componentSizes[..], i);
          Single(i);
        }
        i := i + 1;
      }
      StateFacts();
      forall v: nat | v < |adj| ensures Reached(State(), v) { ReachedIs(State(), v); }
      Completed(adj, State(), seen, nv, componentSizes[..]);
    }

    method Single(i: nat)
      requires Valid() && i < nv && |State().level| == |State().comp| == componentSizes.Length
      modifies level, components, componentSizes
      ensures Valid() && State() == Rooted(old(State()), i) && componentSizes[..] == old(componentSizes[..])[i := 1]
      ensures level[i] == 0 && forall v: nat | v < nv && v != i :: level[v] == old(level[v])
    {
      hide Kin, CountersOk;
      ghost var t := State();
      components[i] := i;
      componentSizes[i] := 1;
      level[i] := 0;
      assert level[..] == t.level[i := 0] && components[..] == t.comp[i := i];
    }

    lemma StateIs()
      requires Valid() && forall v: nat | v < nv :: level[v] == INFINITY_MY && components[v] == v && componentSizes[v] == 0 && parentCounter[v] == 0
      ensures State() == Tree(seq(nv, _ => INFINITY_MY), seq(nv, v => v), seq(nv, _ => [])) && componentSizes[..] == seq(nv, _ => 0)
    {
    }
  }

  lemma CountersZero(parents: seq<int>, counter: seq<int>)
    requires |parents| == PARENTS * |counter| && forall v: nat | v < |counter| :: counter[v] == 0
    ensures CountersOk(parents, counter)
  {
  }

  lemma FreshTree(adj: seq<seq<nat>>, t: Tree, csize: seq<int>)
    requires Symmetric(adj) && |adj| < INFINITY_MY && csize == seq(|adj|, _ => 0)
    requires t == Tree(seq(|adj|, _ => INFINITY_MY), seq(|adj|, v => v), seq(|adj|, _ => []))
    ensures Between(adj, t, {}, 0, csize)
  {
    forall v: nat | v < |adj| ensures VertexOk(adj, t, v) {}
    assert forall v: nat :: !Reached(t, v);
    hide VertexOk, Size, Symmetric;
  }

  // ---------------------------------------------------------------- what a caller gets

  /** After initialisation a vertex is labelled with the least vertex of its component, at its distance from it. */
  lemma InitLabels(adj: seq<seq<nat>>, w: Workspace, v: nat)
    requires w.Valid() && w.nv == |adj| && Complete(adj, w.State(), w.componentSizes[..]) && v < w.nv
    ensures 0 <= w.components[v] < w.nv && Reachable(adj, w.components[v], v)
    ensures forall u: nat | u < w.nv && Reachable(adj, u, v) :: w.components[v] <= u
    ensures 0 <= w.level[v] && IsDistance(adj, w.components[v], v, w.level[v])
    ensures w.componentSizes[w.components[v]] == Size(w.components[..], w.components[v])
  {
    LeastOfComponent(adj, w.State(), w.componentSizes[..], v);
    LevelIsDistance(adj, w.State(), w.componentSizes[..], v);
    SizesAreHistogram(adj, w.State(), w.componentSizes[..]);
    hide Complete, Reachable, IsDistance, Size;
  }
}
