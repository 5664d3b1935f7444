/**
 Which listed vertices extract_vertices moves, from the inputs alone: a vertex leaves its community
 exactly when some other vertex of it has not had its turn.  With that, two neighbors take their
 edge's weight twice exactly when both are listed and a third vertex of their community comes later
 or not at all.
 */
module Movers {
  import opened Weights
  import opened Sizes
  import opened ExtractionCells

  ghost predicate Distinct(s: seq<int>) {
    forall p, q | 0 <= p < q < |s| :: s[p] != s[q]
  }

  // How many of the first k listed vertices were in community c.
  function Out(cmap: seq<int>, vlist: seq<int>, k: nat, c: int): nat
    requires k <= |vlist| && Bounded(vlist, |cmap|)
  {
    if k == 0 then 0 else Out(cmap, vlist, k - 1, c) + if cmap[vlist[k - 1]] == c then 1 else 0
  }

  // Maps, sizes and list fit together.
  predicate Fits(cmap: seq<int>, csize: seq<int>, vlist: seq<int>) {
    Bounded(vlist, |cmap|) && Bounded(cmap, |csize|)
  }

  // The k-th listed vertex finds more than itself in its community, less what was listed before it.
  predicate Moves(cmap: seq<int>, csize: seq<int>, vlist: seq<int>, k: nat)
    requires k < |vlist| && Fits(cmap, csize, vlist)
  {
    csize[cmap[vlist[k]]] - Out(cmap, vlist, k, cmap[vlist[k]]) > 1
  }

  // How many of the first k listed vertices move.
  function MoverCount(cmap: seq<int>, csize: seq<int>, vlist: seq<int>, k: nat): nat
    requires k <= |vlist| && Fits(cmap, csize, vlist)
  {
    if k == 0 then 0 else MoverCount(cmap, csize, vlist, k - 1) + if Moves(cmap, csize, vlist, k - 1) then 1 else 0
  }

  // Who moves gets the next number from nv on; -1 for all others.
  function MarksOf(cmap: seq<int>, csize: seq<int>, vlist: seq<int>, nv: nat, k: nat): (mark: seq<int>)
    requires k <= |vlist| && Fits(cmap, csize, vlist)
    ensures |mark| == |cmap|
  {
    if k == 0 then seq(|cmap|, _ => -1)
    else
      MarksOf(cmap, csize, vlist, nv, k - 1)[vlist[k - 1] :=
        if Moves(cmap, csize, vlist, k - 1) then nv + MoverCount(cmap, csize, vlist, k - 1) else -1]
  }

  // ---------------------------------------------------------------- what a mark says

  lemma {:induction false} MarkBefore(cmap: seq<int>, csize: seq<int>, vlist: seq<int>, nv: nat, k: nat, v: int)
    requires k <= |vlist| && Fits(cmap, csize, vlist) && 0 <= v < |cmap| && v !in vlist[..k]
    ensures MarksOf(cmap, csize, vlist, nv, k)[v] == -1
  {
    if k > 0 {
      assert vlist[..k] == vlist[..k - 1] + [vlist[k - 1]];
      MarkBefore(cmap, csize, vlist, nv, k - 1, v);
    }
  }

  lemma {:induction false} MarkAt(cmap: seq<int>, csize: seq<int>, vlist: seq<int>, nv: nat, k: nat, p: nat)
    requires p < k <= |vlist| && Fits(cmap, csize, vlist) && Distinct(vlist)
    ensures MarksOf(cmap, csize, vlist, nv, k)[vlist[p]] ==
            if Moves(cmap, csize, vlist, p) then nv + MoverCount(cmap, csize, vlist, p) else -1
  {
    if p < k - 1 { MarkAt(cmap, csize, vlist, nv, k - 1, p); }
  }

  // ---------------------------------------------------------------- who moves

  // The map with the first k listed vertices taken out.
  function Without(cmap: seq<int>, vlist: seq<int>, k: nat): (m: seq<int>)
    requires k <= |vlist| && Bounded(vlist, |cmap|)
    ensures |m| == |cmap| && forall v | 0 <= v < |cmap| :: m[v] == if v in vlist[..k] then -1 else cmap[v]
  {
    seq(|cmap|, v requires 0 <= v < |cmap| => if v in vlist[..k] then -1 else cmap[v])
  }

  lemma {:induction false} SizeWithout(cmap: seq<int>, vlist: seq<int>, k: nat, c: nat)
    requires k <= |vlist| && Bounded(vlist, |cmap|) && Distinct(vlist)
    ensures Size(Without(cmap, vlist, k), c) == Size(cmap, c) - Out(cmap, vlist, k, c)
  {
    if k == 0 {
      assert Without(cmap, vlist, 0) == cmap;
    } else {
      var v, m := vlist[k - 1], Without(cmap, vlist, k - 1);
      SizeWithout(cmap, vlist, k - 1, c);
      assert vlist[..k] == vlist[..k - 1] + [v] && v !in vlist[..k - 1];
      assert Without(cmap, vlist, k) == m[v := -1];
      SizeMove(m, v, -1, c);
    }
  }

  // Some vertex of v's community is not among the first k listed.
  ghost predicate StaysBehind(cmap: seq<int>, vlist: seq<int>, k: nat, c: int)
    requires k <= |vlist|
  {
    exists u :: 0 <= u < |cmap| && cmap[u] == c && u !in vlist[..k]
  }

  /** A listed vertex moves exactly when some other vertex of its community was not listed before it. */
  lemma MovesExactly(cmap: seq<int>, csize: seq<int>, vlist: seq<int>, nv: nat, k: nat)
    requires k < |vlist| && Fits(cmap, csize, vlist) && Distinct(vlist) && Sized(csize, cmap, nv)
    ensures Moves(cmap, csize, vlist, k) <==> StaysBehind(cmap, vlist, k + 1, cmap[vlist[k]])
  {
    var c := cmap[vlist[k]];
    SizeWithout(cmap, vlist, k + 1, c);
    SizePositive(Without(cmap, vlist, k + 1), c);
    assert Size(cmap, c) == csize[c];
    if StaysBehind(cmap, vlist, k + 1, c) {
      var u :| 0 <= u < |cmap| && cmap[u] == c && u !in vlist[..k + 1];
      assert Without(cmap, vlist, k + 1)[u] == c;
    }
  }

  // ---------------------------------------------------------------- whose weight is taken twice

  // The ends of e are listed, from one community, and another vertex of it comes after both or not at all.
  ghost predicate BothLeave(cmap: seq<int>, vlist: seq<int>, e: Edge)
    requires 0 <= e.i < |cmap| && 0 <= e.j < |cmap|
  {
    cmap[e.i] == cmap[e.j] &&
    exists p, q | 0 <= p < q < |vlist| ::
      ((vlist[p] == e.i && vlist[q] == e.j) || (vlist[p] == e.j && vlist[q] == e.i)) && StaysBehind(cmap, vlist, q + 1, cmap[e.i])
  }

  lemma LeavesOnce(cmap: seq<int>, csize: seq<int>, vlist: seq<int>, nv: nat, v: int)
    requires Fits(cmap, csize, vlist) && Distinct(vlist) && Sized(csize, cmap, nv) && 0 <= v < |cmap|
    ensures MarksOf(cmap, csize, vlist, nv, |vlist|)[v] >= 0 <==>
            exists p :: 0 <= p < |vlist| && vlist[p] == v && StaysBehind(cmap, vlist, p + 1, cmap[v])
  {
    if v in vlist {
      var p :| 0 <= p < |vlist| && vlist[p] == v;
      MarkAt(cmap, csize, vlist, nv, |vlist|, p);
      MovesExactly(cmap, csize, vlist, nv, p);
    } else {
      assert vlist[..|vlist|] == vlist;
      MarkBefore(cmap, csize, vlist, nv, |vlist|, v);
    }
  }

  /** The edges whose weight is taken twice are those with both ends leaving, as the inputs say. */
  lemma SharedExactly(cmap: seq<int>, csize: seq<int>, vlist: seq<int>, nv: nat, e: Edge)
    requires Fits(cmap, csize, vlist) && Distinct(vlist) && Sized(csize, cmap, nv) && 0 <= e.i < |cmap| && 0 <= e.j < |cmap|
    ensures Shared(cmap, MarksOf(cmap, csize, vlist, nv, |vlist|), e) <==> BothLeave(cmap, vlist, e)
  {
    LeavesOnce(cmap, csize, vlist, nv, e.i);
    LeavesOnce(cmap, csize, vlist, nv, e.j);
    if BothLeave(cmap, vlist, e) {
      var p, q :| 0 <= p < q < |vlist| && ((vlist[p] == e.i && vlist[q] == e.j) || (vlist[p] == e.j && vlist[q] == e.i)) && StaysBehind(cmap, vlist, q + 1, cmap[e.i]);
      Earlier(cmap, vlist, p + 1, q + 1, cmap[e.i]);
    }
    hide MarksOf, StaysBehind;
  }

  lemma Earlier(cmap: seq<int>, vlist: seq<int>, k: nat, l: nat, c: int)
    requires k <= l <= |vlist| && StaysBehind(cmap, vlist, l, c)
    ensures StaysBehind(cmap, vlist, k, c)
  {
    var u :| 0 <= u < |cmap| && cmap[u] == c && u !in vlist[..l];
    assert u !in vlist[..k];
  }

  /**
   With positive weights nothing is taken twice exactly when no edge has both ends leaving one
   community: over map, list and edges alone.
   */
  lemma NothingSharedExactly(cmap: seq<int>, csize: seq<int>, vlist: seq<int>, nv: nat, es: seq<Edge>)
    requires Fits(cmap, csize, vlist) && Distinct(vlist) && Sized(csize, cmap, nv) && Within(es, |cmap|)
    ensures (forall e | e in es :: !BothLeave(cmap, vlist, e)) ==> NothingShared(cmap, MarksOf(cmap, csize, vlist, nv, |vlist|), es)
    ensures (forall e | e in es :: e.w > 0) ==>
              (NothingShared(cmap, MarksOf(cmap, csize, vlist, nv, |vlist|), es) <==> forall e | e in es :: !BothLeave(cmap, vlist, e))
  {
    var mark := MarksOf(cmap, csize, vlist, nv, |vlist|);
    forall e | e in es ensures Shared(cmap, mark, e) <==> BothLeave(cmap, vlist, e) { SharedExactly(cmap, csize, vlist, nv, e); }
    hide MarksOf, BothLeave, Shared, Fits, Distinct, Sized;
    if forall e | e in es :: !BothLeave(cmap, vlist, e) {
      forall a ensures SharedWeight(cmap, mark, es, a) == 0 { SharedNone(cmap, mark, es, a); }
    }
    if forall e | e in es :: e.w > 0 { SharedPositive(cmap, mark, es); }
  }

  // No edge joins two listed vertices of one community.
  ghost predicate ListedApart(cmap: seq<int>, vlist: seq<int>, es: seq<Edge>)
    requires Within(es, |cmap|)
  {
    forall e | e in es && e.i != e.j && e.i in vlist && e.j in vlist :: cmap[e.i] != cmap[e.j]
  }

  /** Nothing is taken twice when no two listed neighbors share a community. */
  lemma ApartSuffices(cmap: seq<int>, csize: seq<int>, vlist: seq<int>, nv: nat, es: seq<Edge>)
    requires Fits(cmap, csize, vlist) && Distinct(vlist) && Sized(csize, cmap, nv) && Within(es, |cmap|) && ListedApart(cmap, vlist, es)
    ensures NothingShared(cmap, MarksOf(cmap, csize, vlist, nv, |vlist|), es)
  {
    NothingSharedExactly(cmap, csize, vlist, nv, es);
    forall e | e in es ensures !BothLeave(cmap, vlist, e) {}
  }

  /** A community of three whose first two vertices are listed: its diagonal loses their edge twice. */
  lemma SharedExample()
    ensures var cmap, csize, vlist, es := [0, 0, 0], [3], [0, 1], [Edge(0, 1, 5)];
      && Fits(cmap, csize, vlist) && Distinct(vlist) && Sized(csize, cmap, 1) && Within(es, 3)
      && MarksOf(cmap, csize, vlist, 1, 2) == [1, 2, -1]
      && SharedWeight(cmap, MarksOf(cmap, csize, vlist, 1, 2), es, 0) == 5
      && !NothingShared(cmap, MarksOf(cmap, csize, vlist, 1, 2), es)
  {
    var cmap, csize, vlist, es := [0, 0, 0], [3], [0, 1], [Edge(0, 1, 5)];
    ThreeOfOne();
    assert Out(cmap, vlist, 0, 0) == 0 && Out(cmap, vlist, 1, 0) == 1;
    assert Moves(cmap, csize, vlist, 0) && Moves(cmap, csize, vlist, 1);
    assert MoverCount(cmap, csize, vlist, 0) == 0 && MoverCount(cmap, csize, vlist, 1) == 1;
    assert MarksOf(cmap, csize, vlist, 1, 0) == [-1, -1, -1];
    assert MarksOf(cmap, csize, vlist, 1, 1) == [1, -1, -1];
    var mark := MarksOf(cmap, csize, vlist, 1, 2);
    assert mark == [1, 2, -1];
    assert es[..0] == [] && es[0] in es;
    assert Within(es[..0], 3) && SharedWeight(cmap, mark, es[..0], 0) == 0;
    assert Shared(cmap, mark, es[0]);
    assert SharedWeight(cmap, mark, es, 0) == 5;
  }

  lemma ThreeOfOne()
    ensures Sized([3], [0, 0, 0], 1)
  {
    var cmap := [0, 0, 0];
    assert cmap[..2] == [0, 0] && [0, 0][..1] == [0] && [0][..0] == [];
    assert Size([0], 0) == 1 && Size([0, 0], 0) == 2 && Size(cmap, 0) == 3;
  }
}
