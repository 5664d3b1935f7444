/**
 From a matching to a relabelling: each matched pair shares one new label, every unmatched vertex
 keeps one of its own, and the labels are handed out in vertex order.
 */
module MatchLabels {
  import opened Weights
  import opened Matching
  import opened Sizes

  // The vertex that v is matched with; v itself when it is not matched.
  function Partner(es: seq<Edge>, m: seq<int>, v: int): int
    requires 0 <= v < |m| && m[v] < |es|
  {
    if m[v] < 0 then v else if v == es[m[v]].i then es[m[v]].j else es[m[v]].i
  }

  // The vertex of v's pair that claims the label.
  function Claimer(es: seq<Edge>, m: seq<int>, v: int): int
    requires 0 <= v < |m| && m[v] < |es|
  {
    if Partner(es, m, v) > v then Partner(es, m, v) else v
  }

  // How many vertices below n claim a label.
  function Claims(es: seq<Edge>, m: seq<int>, n: nat): nat
    requires n <= |m| && forall v | 0 <= v < |m| :: m[v] < |es|
  {
    if n == 0 then 0 else Claims(es, m, n - 1) + if Partner(es, m, n - 1) <= n - 1 then 1 else 0
  }

  // Everyone's partner's partner is himself.
  ghost predicate Paired(es: seq<Edge>, m: seq<int>) {
    && (forall v | 0 <= v < |m| :: m[v] < |es|)
    && (forall v | 0 <= v < |m| :: 0 <= Partner(es, m, v) < |m|)
    && (forall v | 0 <= v < |m| :: Partner(es, m, Partner(es, m, v)) == v)
  }

  lemma MatchingPairs(es: seq<Edge>, s: seq<real>, m: seq<int>)
    requires IsMatching(es, s, m)
    ensures Paired(es, m)
  {
    forall v | 0 <= v < |m| ensures m[v] < |es| && 0 <= Partner(es, m, v) < |m| {
      if m[v] >= 0 { assert Matched(es, s, m, v); }
    }
    forall v | 0 <= v < |m| ensures Partner(es, m, Partner(es, m, v)) == v {
      if m[v] >= 0 { assert Matched(es, s, m, v); }
    }
  }

  lemma {:induction false} ClaimsOrder(es: seq<Edge>, m: seq<int>, a: nat, b: nat)
    requires a <= b <= |m| && forall v | 0 <= v < |m| :: m[v] < |es|
    ensures Claims(es, m, a) <= Claims(es, m, b) <= Claims(es, m, a) + (b - a)
  {
    if a < b { ClaimsOrder(es, m, a, b - 1); }
  }

  // The label of v.
  function Label(es: seq<Edge>, m: seq<int>, v: int): int
    requires 0 <= v < |m| && forall v | 0 <= v < |m| :: m[v] < |es|
    requires 0 <= Claimer(es, m, v) < |m|
  {
    Claims(es, m, Claimer(es, m, v))
  }

  lemma ClaimerClaims(es: seq<Edge>, m: seq<int>, v: int)
    requires Paired(es, m) && 0 <= v < |m|
    ensures var c := Claimer(es, m, v);
      && 0 <= c < |m| && Partner(es, m, c) <= c && (v == c || v == Partner(es, m, c))
      && Claims(es, m, c + 1) == Claims(es, m, c) + 1
  {
  }

  lemma {:induction false} ClaimedLabel(es: seq<Edge>, m: seq<int>, n: nat, a: nat) returns (v: nat)
    requires Paired(es, m) && n <= |m| && a < Claims(es, m, n)
    ensures v < n && Partner(es, m, v) <= v && Claims(es, m, v) == a
  {
    if a < Claims(es, m, n - 1) { v := ClaimedLabel(es, m, n - 1, a); } else { v := n - 1; }
  }

  lemma {:induction false} AllClaim(es: seq<Edge>, m: seq<int>, n: nat)
    requires Paired(es, m) && n <= |m| && Claims(es, m, n) == n
    ensures forall v | 0 <= v < n :: Partner(es, m, v) <= v && Claims(es, m, v) == v
  {
    if n > 0 {
      ClaimsOrder(es, m, 0, n - 1);
      AllClaim(es, m, n - 1);
    }
  }

  // ws is the relabelling that the matching m asks for, onto 0..n.
  ghost predicate Relabelling(es: seq<Edge>, m: seq<int>, ws: seq<int>, n: nat) {
    && |ws| == |m| && n <= |m|
    && (forall v | 0 <= v < |m| :: m[v] < |es|)
    && Bounded(ws, n) && Onto(ws, n)
    && (forall u, v | 0 <= u < |m| && 0 <= v < |m| :: ws[u] == ws[v] <==> u == v || Partner(es, m, u) == v)
    && (n == |m| <==> forall v | 0 <= v < |m| :: Partner(es, m, v) == v)
    && (n == |m| ==> ws == Identity(|m|))
  }

  lemma LabelsSame(es: seq<Edge>, m: seq<int>, u: int, v: int)
    requires Paired(es, m) && 0 <= u < |m| && 0 <= v < |m|
    ensures 0 <= Claimer(es, m, u) < |m| && 0 <= Claimer(es, m, v) < |m|
    ensures Label(es, m, u) == Label(es, m, v) <==> u == v || Partner(es, m, u) == v
  {
    ClaimerClaims(es, m, u);
    ClaimerClaims(es, m, v);
    var c, d := Claimer(es, m, u), Claimer(es, m, v);
    if c < d { ClaimsOrder(es, m, c + 1, d); }
    if d < c { ClaimsOrder(es, m, d + 1, c); }
  }

  lemma LabelBounds(es: seq<Edge>, m: seq<int>, v: int)
    requires Paired(es, m) && 0 <= v < |m|
    ensures 0 <= Claimer(es, m, v) < |m| && 0 <= Label(es, m, v) < Claims(es, m, |m|)
  {
    ClaimerClaims(es, m, v);
    ClaimsOrder(es, m, Claimer(es, m, v) + 1, |m|);
  }

  lemma {:induction false} LabelIdentity(es: seq<Edge>, m: seq<int>, v: int)
    requires Paired(es, m) && 0 <= v < |m| && Claims(es, m, |m|) == |m|
    ensures Partner(es, m, v) == v && 0 <= Claimer(es, m, v) < |m| && Label(es, m, v) == v
  {
    AllClaim(es, m, |m|);
    ClaimerClaims(es, m, v);
    assert Partner(es, m, Partner(es, m, v)) == v;
    assert Partner(es, m, Partner(es, m, v)) <= Partner(es, m, v) <= v;
    hide Claims;
  }

  lemma PairedBelow(es: seq<Edge>, m: seq<int>)
    requires Paired(es, m)
    ensures forall v | 0 <= v < |m| :: m[v] < |es|
  {
  }

  lemma ClaimedIsLabel(es: seq<Edge>, m: seq<int>, v: int)
    requires Paired(es, m) && 0 <= v < |m| && Partner(es, m, v) <= v
    ensures 0 <= Claimer(es, m, v) < |m| && Label(es, m, v) == Claims(es, m, v)
  {
  }

  lemma LabelsRelabel(es: seq<Edge>, m: seq<int>, ws: seq<int>, n: nat)
    requires Paired(es, m) && |ws| == |m| && n == Claims(es, m, |m|)
    requires forall v | 0 <= v < |m| :: Claimer(es, m, v) < |m| && ws[v] == Label(es, m, v)
    ensures Relabelling(es, m, ws, n)
  {
    PairedBelow(es, m);
    hide Paired, Partner, Claims, Claimer, Label;
    ClaimsOrder(es, m, 0, |m|);
    assert Claims(es, m, 0) == 0 by { ClaimsNone(es, m); }
    forall u, v | 0 <= u < |m| && 0 <= v < |m| ensures ws[u] == ws[v] <==> u == v || Partner(es, m, u) == v {
      LabelsSame(es, m, u, v);
    }
    forall v | 0 <= v < |m| ensures 0 <= ws[v] < n { LabelBounds(es, m, v); }
    forall a | 0 <= a < n ensures a in ws {
      var v := ClaimedLabel(es, m, |m|, a);
      ClaimedIsLabel(es, m, v);
      assert ws[v] == a;
    }
    if n == |m| {
      forall v | 0 <= v < |m| ensures Partner(es, m, v) == v && ws[v] == v { LabelIdentity(es, m, v); }
    } else if forall v | 0 <= v < |m| :: Partner(es, m, v) == v {
      NoPairs(es, m, |m|);
    }
  }

  lemma ClaimsNone(es: seq<Edge>, m: seq<int>)
    requires forall v | 0 <= v < |m| :: m[v] < |es|
    ensures Claims(es, m, 0) == 0
  {
  }

  lemma {:induction false} NoPairs(es: seq<Edge>, m: seq<int>, n: nat)
    requires Paired(es, m) && n <= |m| && forall v | 0 <= v < |m| :: Partner(es, m, v) == v
    ensures Claims(es, m, n) == n
  {
    if n > 0 { NoPairs(es, m, n - 1); }
  }

  // The labelling loop has passed the vertices below i: labels claimed there are set.
  ghost predicate Labelled(es: seq<Edge>, m: seq<int>, ws: seq<int>, i: nat, n: nat) {
    && Paired(es, m) && |ws| == |m| && i <= |m| && n == Claims(es, m, i)
    && forall v | 0 <= v < |m| :: Claimer(es, m, v) < |m| && (Claimer(es, m, v) < i ==> ws[v] == Label(es, m, v))
  }

  lemma LabelledStarts(es: seq<Edge>, m: seq<int>, ws: seq<int>)
    requires Paired(es, m) && |ws| == |m|
    ensures Labelled(es, m, ws, 0, 0)
  {
  }

  lemma LabelledEnds(es: seq<Edge>, m: seq<int>, ws: seq<int>, n: nat)
    requires Labelled(es, m, ws, |m|, n)
    ensures Relabelling(es, m, ws, n)
  {
    LabelsRelabel(es, m, ws, n);
    hide Claims, Relabelling, Label;
  }

  lemma LabelledNext(es: seq<Edge>, m: seq<int>, ws: seq<int>, i: nat, n: nat)
    requires Labelled(es, m, ws, i, n) && i < |m|
    ensures m[i] < |es| && 0 <= Partner(es, m, i) < |m|
    ensures Labelled(es, m, if Partner(es, m, i) <= i then ws[i := n][Partner(es, m, i) := n] else ws, i + 1,
                     if Partner(es, m, i) <= i then n + 1 else n)
  {
    var j := Partner(es, m, i);
    var ws' := if j <= i then ws[i := n][j := n] else ws;
    forall v | 0 <= v < |m| && Claimer(es, m, v) < i + 1 ensures ws'[v] == Label(es, m, v) {
      ClaimerClaims(es, m, v);
    }
  }

  // One turn of the labelling loop: of a pair, only the larger end claims a label.
  method LabelOne(el: array<Edge>, ne: nat, m: array<int>, ws: array<int>, i: nat, n: nat) returns (n': nat)
    requires ne <= el.Length && ws.Length == m.Length && ws != m && i < m.Length && m[i] < ne && 0 <= Partner(el[..ne], m[..], i) < m.Length
    modifies ws
    ensures var j := Partner(el[..ne], m[..], i);
      if j <= i then ws[..] == old(ws[..])[i := n][j := n] && n' == n + 1 else ws[..] == old(ws[..]) && n' == n
  {
    n' := n;
    if m[i] >= 0 {
      var j := if i == el[m[i]].i then el[m[i]].j else el[m[i]].i;
      if i > j {
        ws[j] := n;
        ws[i] := ws[j];
        n' := n + 1;
      } else if i == j {
        ws[i] := n;
        n' := n + 1;
      }
    } else {
      ws[i] := n;
      n' := n + 1;
    }
  }

  /**
   convert_el_match_to_relabel: exactly the two ends of a matched edge come to share a label, the
   labels are 0..newNv without gaps, and their number drops as soon as anything is matched.
   */
  method ConvertElMatchToRelabel(el: array<Edge>, ne: nat, m: array<int>, ws: array<int>) returns (newNv: nat)
    requires ne <= el.Length && ws.Length == m.Length && ws != m
    requires Paired(el[..ne], m[..])
    modifies m, ws
    ensures Relabelling(el[..ne], old(m[..]), m[..], newNv)
  {
    hide *;
    ghost var es, m0 := el[..ne], m[..];
    var i := 0;
    while i < m.Length
      invariant 0 <= i <= m.Length && m[..] == m0
    {
      ws[i] := -1;
      i := i + 1;
    }
    newNv := 0;
    i := 0;
    LabelledStarts(es, m0, ws[..]);
    while i < m.Length
      invariant 0 <= i <= m.Length && m[..] == m0
      invariant Labelled(es, m0, ws[..], i, newNv)
    {
      LabelledNext(es, m0, ws[..], i, newNv);
      newNv := LabelOne(el, ne, m, ws, i, newNv);
      i := i + 1;
    }
    ghost var labels := ws[..];
    i := 0;
    LabelledEnds(es, m0, labels, newNv);
    while i < m.Length
      invariant 0 <= i <= m.Length && ws[..] == labels
      invariant forall v | 0 <= v < i :: m[v] == labels[v]
    {
      m[i] := ws[i];
      i := i + 1;
    }
    assert m[..] == labels;
  }
}
