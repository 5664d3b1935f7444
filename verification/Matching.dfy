/**
 Greedy maximal matching on a community graph laid out by rows: every unmatched vertex proposes
 its best eligible edge, proposals contend for both their ends, half-held proposals are dropped,
 and vertices that are matched or have nothing to propose leave the list.
 */
module Matching {
  import opened Weights

  // Edges in row i are stored under i, and every edge lies in its row.
  ghost predicate Rows(es: seq<Edge>, rowstart: seq<int>, rowend: seq<int>, nv: nat) {
    && nv <= |rowstart| && nv <= |rowend|
    && (forall i: nat | i < nv :: 0 <= rowstart[i] && rowend[i] <= |es|)
    && (forall i: nat, k | i < nv && rowstart[i] <= k < rowend[i] :: es[k].i == i)
    && (forall k | 0 <= k < |es| :: InRow(es, rowstart, rowend, nv, k))
  }

  predicate InRow(es: seq<Edge>, rowstart: seq<int>, rowend: seq<int>, nv: nat, k: int)
    requires 0 <= k < |es| && nv <= |rowstart| && nv <= |rowend|
  {
    && 0 <= es[k].i < nv && 0 <= es[k].j < nv && es[k].i != es[k].j
    && rowstart[es[k].i] <= k < rowend[es[k].i]
  }

  predicate EndOf(es: seq<Edge>, k: int, v: int)
    requires 0 <= k < |es|
  {
    v == es[k].i || v == es[k].j
  }

  // m[v] is the matched edge of v, or negative; both ends of a matched edge hold it.
  ghost predicate IsMatching(es: seq<Edge>, s: seq<real>, m: seq<int>) {
    && |s| == |es|
    && forall v | 0 <= v < |m| && m[v] >= 0 :: Matched(es, s, m, v)
  }

  predicate Matched(es: seq<Edge>, s: seq<real>, m: seq<int>, v: int)
    requires 0 <= v < |m| && |s| == |es|
  {
    var k := m[v];
    && 0 <= k < |es| && EndOf(es, k, v) && s[k] > 0.0
    && 0 <= es[k].i < |m| && 0 <= es[k].j < |m| && m[es[k].i] == k && m[es[k].j] == k
  }

  // Some positive edge of v's row leads to an unmatched vertex.
  predicate Eligible(es: seq<Edge>, s: seq<real>, m: seq<int>, k: int)
    requires 0 <= k < |es| == |s|
  {
    s[k] > 0.0 && 0 <= es[k].j < |m| && m[es[k].j] < 0
  }

  /** is_maximal_p: no positive edge has both ends unmatched. */
  ghost predicate IsMaximal(es: seq<Edge>, s: seq<real>, m: seq<int>)
    requires |s| == |es|
  {
    forall k | 0 <= k < |es| && s[k] > 0.0 && 0 <= es[k].i < |m| && m[es[k].i] < 0 :: !Eligible(es, s, m, k)
  }

  // ---------------------------------------------------------------- proposing

  // b is the best edge that i can propose, or -1 when it has none.
  ghost predicate Proposal(es: seq<Edge>, s: seq<real>, m: seq<int>, lo: int, hi: int, b: int)
    requires |s| == |es| && 0 <= lo
  {
    && (b == -1 ==> forall k | lo <= k < hi && k < |es| :: !Eligible(es, s, m, k))
    && (b != -1 ==>
          && lo <= b < hi && b < |es| && Eligible(es, s, m, b)
          && forall k | lo <= k < hi && k < |es| && Eligible(es, s, m, k) :: s[k] <= s[b] && (k < b ==> s[k] < s[b]))
  }

  method Propose(el: array<Edge>, ne: nat, s: seq<real>, m: array<int>, lo: int, hi: int) returns (best: int)
    requires ne <= el.Length && |s| == ne && 0 <= lo && hi <= ne
    requires forall k | 0 <= k < ne :: 0 <= el[k].j < m.Length
    ensures Proposal(el[..ne], s, m[..], lo, hi, best)
  {
    best := -1;
    var bestScore := 0.0;
    var k := lo;
    while k < hi
      invariant lo <= k && (k <= hi || k == lo)
      invariant Proposal(el[..ne], s, m[..], lo, k, best)
      invariant bestScore == if best == -1 then 0.0 else s[best]
    {
      var j := el[k].j;
      if m[j] < 0 && s[k] > 0.0 {
        var score := s[k];
        if score > bestScore {
          best := k;
          bestScore := score;
        }
      }
      k := k + 1;
    }
  }

  // un[..n] are unmatched vertices, and best holds their proposals.
  ghost predicate Proposals(es: seq<Edge>, s: seq<real>, m: seq<int>, rowstart: seq<int>, rowend: seq<int>, nv: nat,
                            un: seq<int>, best: seq<int>, n: nat) {
    && |m| == nv && |s| == |es| && n <= |un| && n <= |best| && Rows(es, rowstart, rowend, nv)
    && forall q: nat | q < n :: ProposedBy(es, s, m, rowstart, rowend, nv, un, best, q)
  }

  ghost predicate ProposedBy(es: seq<Edge>, s: seq<real>, m: seq<int>, rowstart: seq<int>, rowend: seq<int>, nv: nat,
                             un: seq<int>, best: seq<int>, q: nat)
    requires q < |un| && q < |best| && |m| == nv && |s| == |es| && Rows(es, rowstart, rowend, nv)
  {
    var i := un[q];
    && 0 <= i < nv && m[i] < 0
    && Proposal(es, s, m, rowstart[i], rowend[i], best[q])
  }

  method ProposePass(el: array<Edge>, ne: nat, s: seq<real>, m: array<int>, rowstart: array<int>, rowend: array<int>,
                     unmatched: array<int>, n: nat, bestm: array<int>)
    requires ne <= el.Length && |s| == ne && Rows(el[..ne], rowstart[..], rowend[..], m.Length)
    requires n <= unmatched.Length && n <= bestm.Length
    requires bestm != m && bestm != rowstart && bestm != rowend && bestm != unmatched
    requires forall q: nat | q < n :: 0 <= unmatched[q] < m.Length && m[unmatched[q]] < 0
    modifies bestm
    ensures Proposals(el[..ne], s, m[..], rowstart[..], rowend[..], m.Length, unmatched[..], bestm[..], n)
  {
    ghost var es := el[..ne];
    assert forall k | 0 <= k < ne :: es[k] == el[k] && InRow(es, rowstart[..], rowend[..], m.Length, k);
    var ki := 0;
    while ki < n
      invariant 0 <= ki <= n
      invariant Proposals(es, s, m[..], rowstart[..], rowend[..], m.Length, unmatched[..], bestm[..], ki)
    {
      var i := unmatched[ki];
      ghost var best0 := bestm[..];
      var b := Propose(el, ne, s, m, rowstart[i], rowend[i]);
      bestm[ki] := b;
      assert ProposedBy(es, s, m[..], rowstart[..], rowend[..], m.Length, unmatched[..], bestm[..], ki);
      forall q: nat | q < ki ensures ProposedBy(es, s, m[..], rowstart[..], rowend[..], m.Length, unmatched[..], bestm[..], q) {
        assert ProposedBy(es, s, m[..], rowstart[..], rowend[..], m.Length, unmatched[..], best0, q);
      }
      ki := ki + 1;
    }
  }

  // ---------------------------------------------------------------- contending

  function Larger(e: Edge): int { if e.i < e.j then e.j else e.i }

  function Smaller(e: Edge): int { if e.i < e.j then e.i else e.j }

  // Edge a is preferred to edge b: a better score, or an equal one and earlier ends.
  predicate Beats(es: seq<Edge>, s: seq<real>, a: int, b: int)
    requires 0 <= a < |es| == |s| && 0 <= b < |es|
  {
    || s[a] > s[b]
    || (s[a] == s[b] && (Larger(es[a]) < Larger(es[b]) || (Larger(es[a]) == Larger(es[b]) && Smaller(es[a]) < Smaller(es[b]))))
  }

  // Edge ke takes over vertex v.
  predicate Wins(es: seq<Edge>, s: seq<real>, m: seq<int>, v: int, ke: int)
    requires 0 <= ke < |es| == |s| && 0 <= v < |m| && m[v] < |es|
  {
    m[v] < 0 || Beats(es, s, ke, m[v])
  }

  // q's proposal is edge k.
  predicate Proposed(best: seq<int>, n: nat, k: int) {
    k >= 0 && exists q: nat :: q < n && q < |best| && best[q] == k
  }

  // The first n proposals have contended: earlier matches are untouched, a vertex holds its own
  // former value or a proposed edge of its own, and some unbeaten proposal holds both its ends.
  ghost predicate Contended(es: seq<Edge>, s: seq<real>, m0: seq<int>, m: seq<int>, best: seq<int>, n: nat, win: int) {
    && |m| == |m0| && |s| == |es|
    && (forall k | Proposed(best, n, k) :: k < |es| && 0 <= es[k].i < |m| && 0 <= es[k].j < |m| && es[k].i != es[k].j
          && m0[es[k].i] < 0 && m0[es[k].j] < 0 && s[k] > 0.0)
    && (forall v | 0 <= v < |m| :: m[v] == m0[v] || (m0[v] < 0 && Proposed(best, n, m[v]) && EndOf(es, m[v], v)))
    && (if win == -1 then forall k :: !Proposed(best, n, k)
        else Proposed(best, n, win) && m[es[win].i] == win && m[es[win].j] == win &&
             forall k | Proposed(best, n, k) :: !Beats(es, s, k, win))
  }

  function ContendStep(es: seq<Edge>, s: seq<real>, m: seq<int>, ke: int): seq<int>
    requires 0 <= ke < |es| == |s| && 0 <= es[ke].i < |m| && 0 <= es[ke].j < |m|
    requires m[es[ke].i] < |es| && m[es[ke].j] < |es|
  {
    if Wins(es, s, m, Larger(es[ke]), ke) && Wins(es, s, m, Smaller(es[ke]), ke)
    then m[Larger(es[ke]) := ke][Smaller(es[ke]) := ke] else m
  }

  lemma ProposedNext(best: seq<int>, n: nat, n': nat)
    requires n < |best| && n' == n + 1
    ensures forall k :: Proposed(best, n', k) <==> Proposed(best, n, k) || (k >= 0 && k == best[n])
  {
    forall k | Proposed(best, n', k) ensures Proposed(best, n, k) || k == best[n] {}
    assert best[n] >= 0 ==> Proposed(best, n', best[n]);
    forall k | Proposed(best, n, k) ensures Proposed(best, n', k) {
      var q: nat :| q < n && q < |best| && best[q] == k;
      assert best[q] == k;
    }
  }

  // The preference is a weak order.
  lemma BeatsOver(es: seq<Edge>, s: seq<real>, a: int, b: int, c: int)
    requires 0 <= a < |es| == |s| && 0 <= b < |es| && 0 <= c < |es|
    requires Beats(es, s, a, b) && !Beats(es, s, c, b)
    ensures Beats(es, s, a, c) && !Beats(es, s, c, a)
  {
  }

  lemma BeatsIrreflexive(es: seq<Edge>, s: seq<real>, a: int)
    requires 0 <= a < |es| == |s|
    ensures !Beats(es, s, a, a)
  {
  }

  lemma ContendNext(es: seq<Edge>, s: seq<real>, m0: seq<int>, m: seq<int>, best: seq<int>, n: nat, win: int) returns (win': int)
    requires Contended(es, s, m0, m, best, n, win) && n < |best|
    requires forall v | 0 <= v < |m| :: m[v] < |es|
    requires best[n] >= 0 ==>
      var k := best[n];
      k < |es| && 0 <= es[k].i < |m| && 0 <= es[k].j < |m| && es[k].i != es[k].j && m0[es[k].i] < 0 && m0[es[k].j] < 0 && s[k] > 0.0
    ensures Contended(es, s, m0, if best[n] >= 0 then ContendStep(es, s, m, best[n]) else m, best, n + 1, win')
  {
    ProposedNext(best, n, n + 1);
    win' := win;
    var ke := best[n];
    hide Proposed;
    if ke >= 0 {
      BeatsIrreflexive(es, s, ke);
      var i, j := es[ke].i, es[ke].j;
      var m' := ContendStep(es, s, m, ke);
      if win == -1 || Beats(es, s, ke, win) {
        win' := ke;
        forall v | v == i || v == j ensures Wins(es, s, m, v, ke) {
          if m[v] >= 0 { BeatsOver(es, s, ke, win, m[v]); }
        }
        forall k | Proposed(best, n, k) ensures !Beats(es, s, k, ke) { BeatsOver(es, s, ke, win, k); }
        hide Beats, Wins;
        assert m' == m[i := ke][j := ke];
      } else {
        assert Wins(es, s, m, i, ke) ==> m[i] != win;
        assert Wins(es, s, m, j, ke) ==> m[j] != win;
        hide Beats, Wins;
        assert m' == m || m' == m[i := ke][j := ke];
        assert m'[es[win].i] == win && m'[es[win].j] == win;
      }
      assert forall v | 0 <= v < |m| :: m'[v] == m0[v] || (m0[v] < 0 && Proposed(best, n + 1, m'[v]) && EndOf(es, m'[v], v));
    }
  }

  predicate Meets(es: seq<Edge>, a: int, b: int)
    requires 0 <= a < |es| && 0 <= b < |es|
  {
    EndOf(es, a, es[b].i) || EndOf(es, a, es[b].j)
  }

  // Proposal k is better than every other one at either of its ends.
  ghost predicate Dominant(es: seq<Edge>, s: seq<real>, best: seq<int>, n: nat, k: int)
    requires 0 <= k < |es| == |s|
  {
    forall c | Proposed(best, n, c) && c < |es| && c != k && Meets(es, c, k) :: s[c] < s[k]
  }

  // Of the first q proposals, those that are better than all at their ends have both.
  ghost predicate Holding(es: seq<Edge>, s: seq<real>, m: seq<int>, best: seq<int>, n: nat, q: nat) {
    && |s| == |es|
    && forall k | Proposed(best, q, k) && k < |es| && Dominant(es, s, best, n, k) ::
         0 <= es[k].i < |m| && 0 <= es[k].j < |m| && m[es[k].i] == k && m[es[k].j] == k
  }

  lemma ProposedMore(best: seq<int>, q: nat, n: nat, k: int)
    requires Proposed(best, q, k) && q <= n
    ensures Proposed(best, n, k)
  {
    var p: nat :| p < q && p < |best| && best[p] == k;
    assert best[p] == k;
  }

  // A better score wins both ends, and is not displaced.
  lemma HoldingNext(es: seq<Edge>, s: seq<real>, m0: seq<int>, m: seq<int>, best: seq<int>, n: nat, q: nat, win: int)
    requires Contended(es, s, m0, m, best, q, win) && Holding(es, s, m, best, n, q) && q < n <= |best|
    requires forall v | 0 <= v < |m| :: m[v] < |es|
    requires best[q] >= 0 ==>
      var k := best[q];
      k < |es| && 0 <= es[k].i < |m| && 0 <= es[k].j < |m| && es[k].i != es[k].j && m0[es[k].i] < 0 && m0[es[k].j] < 0 && s[k] > 0.0
    ensures Holding(es, s, if best[q] >= 0 then ContendStep(es, s, m, best[q]) else m, best, n, q + 1)
  {
    ProposedNext(best, q, q + 1);
    var ke := best[q];
    if ke >= 0 {
      var m' := ContendStep(es, s, m, ke);
      ProposedHere(best, n, q);
      forall k | Proposed(best, q + 1, k) && k < |es| && Dominant(es, s, best, n, k)
        ensures 0 <= es[k].i < |m| && 0 <= es[k].j < |m| && m'[es[k].i] == k && m'[es[k].j] == k
      {
        if Proposed(best, q, k) {
          DominantStays(es, s, m, best, n, k, ke);
        } else {
          DominantWins(es, s, m0, m, best, n, q, win);
        }
      }
    }
    hide Proposed, Dominant, ContendStep;
  }

  lemma DominantStays(es: seq<Edge>, s: seq<real>, m: seq<int>, best: seq<int>, n: nat, k: int, ke: int)
    requires 0 <= k < |es| == |s| && Dominant(es, s, best, n, k) && Proposed(best, n, ke) && ke < |es|
    requires 0 <= es[k].i < |m| && 0 <= es[k].j < |m| && m[es[k].i] == k && m[es[k].j] == k
    requires 0 <= ke && 0 <= es[ke].i < |m| && 0 <= es[ke].j < |m| && m[es[ke].i] < |es| && m[es[ke].j] < |es|
    ensures ContendStep(es, s, m, ke)[es[k].i] == k && ContendStep(es, s, m, ke)[es[k].j] == k
  {
    if ke != k && Meets(es, ke, k) { assert s[ke] < s[k]; }
    hide Proposed;
  }

  lemma DominantWins(es: seq<Edge>, s: seq<real>, m0: seq<int>, m: seq<int>, best: seq<int>, n: nat, q: nat, win: int)
    requires Contended(es, s, m0, m, best, q, win) && q < n <= |best| && forall v | 0 <= v < |m| :: m[v] < |es|
    requires var k := best[q];
      && 0 <= k < |es| && 0 <= es[k].i < |m| && 0 <= es[k].j < |m| && es[k].i != es[k].j && m0[es[k].i] < 0 && m0[es[k].j] < 0
      && !Proposed(best, q, k) && Dominant(es, s, best, n, k)
    ensures var k := best[q];
      ContendStep(es, s, m, k)[es[k].i] == k && ContendStep(es, s, m, k)[es[k].j] == k
  {
    var k := best[q];
    forall v | v == es[k].i || v == es[k].j ensures Wins(es, s, m, v, k) {
      if m[v] >= 0 {
        ProposedMore(best, q, n, m[v]);
        assert Meets(es, m[v], k);
        assert s[m[v]] < s[k];
      }
    }
    hide Proposed, Dominant, Wins;
  }

  // The vertex whose proposal is q's, and the best edges, seen from Proposals.
  lemma ProposalEdge(es: seq<Edge>, s: seq<real>, m: seq<int>, rowstart: seq<int>, rowend: seq<int>, nv: nat,
                     un: seq<int>, best: seq<int>, n: nat, q: nat)
    requires Proposals(es, s, m, rowstart, rowend, nv, un, best, n) && q < n
    ensures 0 <= un[q] < nv && m[un[q]] < 0 && best[q] < |es|
    ensures best[q] >= 0 ==>
      var k := best[q];
      && es[k].i == un[q] && 0 <= es[k].i < nv && 0 <= es[k].j < nv && es[k].i != es[k].j
      && m[es[k].i] < 0 && m[es[k].j] < 0 && s[k] > 0.0
  {
    assert ProposedBy(es, s, m, rowstart, rowend, nv, un, best, q);
    if best[q] >= 0 { assert InRow(es, rowstart, rowend, nv, best[q]); }
  }

  // What a turn of the contending loop may rely on.
  ghost predicate Contending(es: seq<Edge>, s: seq<real>, m0: seq<int>, m: seq<int>, best: seq<int>, n: nat, q: nat, win: int) {
    && Contended(es, s, m0, m, best, q, win) && (forall v | 0 <= v < |m| :: m[v] < |es|)
    && Holding(es, s, m, best, n, q) && q <= n <= |best|
  }

  lemma ContendStarts(es: seq<Edge>, s: seq<real>, m: seq<int>, best: seq<int>, n: nat)
    requires IsMatching(es, s, m) && n <= |best|
    ensures Contending(es, s, m, m, best, n, 0, -1)
  {
    forall v | 0 <= v < |m| ensures m[v] < |es| { if m[v] >= 0 { assert Matched(es, s, m, v); } }
  }

  // The move of a vertex's proposal, or nothing when it has none.
  function ContendTurn(es: seq<Edge>, s: seq<real>, m: seq<int>, ke: int): seq<int>
    requires ke >= 0 ==> ke < |es| == |s| && 0 <= es[ke].i < |m| && 0 <= es[ke].j < |m|
    requires ke >= 0 ==> m[es[ke].i] < |es| && m[es[ke].j] < |es|
  {
    if ke >= 0 then ContendStep(es, s, m, ke) else m
  }

  lemma ContendingNext(es: seq<Edge>, s: seq<real>, m0: seq<int>, m: seq<int>, rowstart: seq<int>, rowend: seq<int>, nv: nat,
                       un: seq<int>, best: seq<int>, n: nat, q: nat, win: int) returns (win': int)
    requires Proposals(es, s, m0, rowstart, rowend, nv, un, best, n) && q < n && Contending(es, s, m0, m, best, n, q, win)
    ensures q < |un| && q < |best| && |m| == nv && |s| == |es|
    ensures best[q] >= 0 ==>
      var k := best[q];
      && k < |es| && es[k].i == un[q] && 0 <= es[k].i < nv && 0 <= es[k].j < nv && es[k].i != es[k].j
      && m[es[k].i] < |es| && m[es[k].j] < |es|
    ensures Contending(es, s, m0, ContendTurn(es, s, m, best[q]), best, n, q + 1, win')
  {
    ProposalEdge(es, s, m0, rowstart, rowend, nv, un, best, n, q);
    win' := ContendNext(es, s, m0, m, best, q, win);
    HoldingNext(es, s, m0, m, best, n, q, win);
    hide Contended, Proposals, Wins;
  }

  method ContendPass(el: array<Edge>, ne: nat, s: seq<real>, m: array<int>, unmatched: array<int>, n: nat, bestm: array<int>,
                     ghost rowstart: seq<int>, ghost rowend: seq<int>) returns (ghost win: int)
    requires ne <= el.Length && |s| == ne && n <= unmatched.Length && n <= bestm.Length && m != unmatched && m != bestm
    requires Proposals(el[..ne], s, m[..], rowstart, rowend, m.Length, unmatched[..], bestm[..], n)
    requires IsMatching(el[..ne], s, m[..])
    modifies m
    ensures Contending(el[..ne], s, old(m[..]), m[..], bestm[..], n, n, win)
  {
    hide *;
    ghost var es, m0, best, un := el[..ne], m[..], bestm[..], unmatched[..];
    win := -1;
    ContendStarts(es, s, m0, best, n);
    var ki := 0;
    while ki < n
      invariant 0 <= ki <= n && bestm[..] == best && unmatched[..] == un
      invariant Contending(es, s, m0, m[..], best, n, ki, win)
    {
      win := ContendingNext(es, s, m0, m[..], rowstart, rowend, m.Length, un, best, n, ki, win);
      assert unmatched[ki] == un[ki] && bestm[ki] == best[ki];
      ContendOne(el, ne, s, m, unmatched[ki], bestm[ki]);
      ki := ki + 1;
    }
  }

  method ContendOne(el: array<Edge>, ne: nat, s: seq<real>, m: array<int>, u: int, ke: int)
    requires ne <= el.Length && |s| == ne
    requires ke >= 0 ==> && ke < ne && (el[ke].i == u || el[ke].j == u) && 0 <= el[ke].i < m.Length && 0 <= el[ke].j < m.Length && el[ke].i != el[ke].j
                         && m[el[ke].i] < ne && m[el[ke].j] < ne
    modifies m
    ensures m[..] == ContendTurn(el[..ne], s, old(m[..]), ke)
  {
    if ke >= 0 {
      var i := u;
      var j := if i == el[ke].i then el[ke].j else el[ke].i;
      if i < j { i, j := j, i; }
      var winI := WinsOver(el, ne, s, m, i, ke);
      var winJ := false;
      if winI { winJ := WinsOver(el, ne, s, m, j, ke); }
      hide Wins;
      if winJ {
        m[i] := ke;
        m[j] := ke;
      }
    }
  }

  // Does edge ke take over its end v?
  method WinsOver(el: array<Edge>, ne: nat, s: seq<real>, m: array<int>, v: int, ke: int) returns (win: bool)
    requires ne <= el.Length && |s| == ne && 0 <= ke < ne && 0 <= v < m.Length && m[v] < ne
    ensures win == Wins(el[..ne], s, m[..], v, ke)
  {
    var i, j := Larger(el[ke]), Smaller(el[ke]);
    var mv := m[v];
    win := false;
    if mv < 0 || s[ke] > s[mv] {
      win := true;
    } else if s[ke] == s[mv] {
      var otherI, otherJ := el[mv].i, el[mv].j;
      if otherI < otherJ { otherI, otherJ := otherJ, otherI; }
      if i < otherI || (i == otherI && j < otherJ) { win := true; }
    }
  }

  // ---------------------------------------------------------------- dropping half-held proposals

  predicate HeldEvenly(es: seq<Edge>, m: seq<int>, k: int)
    requires 0 <= k < |es| && 0 <= es[k].i < |m| && 0 <= es[k].j < |m|
  {
    m[es[k].i] == k <==> m[es[k].j] == k
  }

  // The clean-up has looked at the first q of the n proposals.
  ghost predicate Cleaned(es: seq<Edge>, s: seq<real>, m0: seq<int>, m: seq<int>, best: seq<int>, n: nat, q: nat, win: int) {
    && |m| == |m0| && |s| == |es| && q <= n <= |best|
    && (forall k | Proposed(best, n, k) :: k < |es| && 0 <= es[k].i < |m| && 0 <= es[k].j < |m| && es[k].i != es[k].j
          && m0[es[k].i] < 0 && m0[es[k].j] < 0 && s[k] > 0.0)
    && (forall v | 0 <= v < |m| :: m[v] == m0[v] || (m0[v] < 0 && (m[v] < 0 || (Proposed(best, n, m[v]) && EndOf(es, m[v], v)))))
    && (forall k | Proposed(best, n, k) && Proposed(best, q, k) :: HeldEvenly(es, m, k))
    && (if win == -1 then forall k :: !Proposed(best, n, k) else Proposed(best, n, win) && m[es[win].i] == win && m[es[win].j] == win)
    && Holding(es, s, m, best, n, n)
  }

  function CleanStep(es: seq<Edge>, m: seq<int>, ke: int): seq<int>
    requires 0 <= ke < |es| && 0 <= es[ke].i < |m| && 0 <= es[ke].j < |m|
  {
    var i, j := es[ke].i, es[ke].j;
    if m[i] == ke && m[j] != ke then m[i := -1]
    else if m[i] != ke && m[j] == ke then m[j := -1]
    else m
  }

  lemma ProposedHere(best: seq<int>, n: nat, q: nat)
    requires q < n <= |best| && best[q] >= 0
    ensures Proposed(best, n, best[q])
  {
  }

  lemma CleanNext(es: seq<Edge>, s: seq<real>, m0: seq<int>, m: seq<int>, best: seq<int>, n: nat, q: nat, win: int)
    requires Cleaned(es, s, m0, m, best, n, q, win) && q < n
    ensures best[q] >= 0 ==> best[q] < |es| && 0 <= es[best[q]].i < |m| && 0 <= es[best[q]].j < |m|
    ensures Cleaned(es, s, m0, if best[q] >= 0 then CleanStep(es, m, best[q]) else m, best, n, q + 1, win)
  {
    hide Proposed, Dominant, Holding;
    ProposedPositive(best, n);
    ProposedNext(best, q, q + 1);
    if best[q] >= 0 {
      ProposedHere(best, n, q);
      HoldingCleaned(es, s, m, best, n, best[q]);
    }
  }

  lemma ProposedPositive(best: seq<int>, n: nat)
    ensures forall k | Proposed(best, n, k) :: k >= 0
  {
  }

  // Who has both ends keeps them.
  lemma HoldingCleaned(es: seq<Edge>, s: seq<real>, m: seq<int>, best: seq<int>, n: nat, ke: int)
    requires Holding(es, s, m, best, n, n) && 0 <= ke < |es| && 0 <= es[ke].i < |m| && 0 <= es[ke].j < |m|
    ensures Holding(es, s, CleanStep(es, m, ke), best, n, n)
  {
    hide Proposed, Dominant;
  }

  lemma CleanStarts(es: seq<Edge>, s: seq<real>, m0: seq<int>, m: seq<int>, best: seq<int>, n: nat, win: int)
    requires Contending(es, s, m0, m, best, n, n, win)
    ensures Cleaned(es, s, m0, m, best, n, 0, win)
  {
    assert forall k :: !Proposed(best, 0, k);
    hide Proposed, Beats;
  }

  lemma CleanEnds(es: seq<Edge>, s: seq<real>, m0: seq<int>, m: seq<int>, best: seq<int>, n: nat, win: int)
    requires Cleaned(es, s, m0, m, best, n, n, win) && IsMatching(es, s, m0)
    ensures IsMatching(es, s, m) && forall v | 0 <= v < |m0| && m0[v] >= 0 :: m[v] == m0[v]
  {
    forall v | 0 <= v < |m| && m[v] >= 0 ensures Matched(es, s, m, v) {
      if m0[v] >= 0 {
        assert Matched(es, s, m0, v);
      } else {
        assert HeldEvenly(es, m, m[v]);
      }
    }
  }

  method CleanPass(el: array<Edge>, ne: nat, s: seq<real>, m: array<int>, n: nat, bestm: array<int>, ghost m0: seq<int>, ghost win: int)
    requires ne <= el.Length && m != bestm
    requires Cleaned(el[..ne], s, m0, m[..], bestm[..], n, 0, win)
    modifies m
    ensures Cleaned(el[..ne], s, m0, m[..], bestm[..], n, n, win)
  {
    ghost var es, best := el[..ne], bestm[..];
    assert n <= |best|;
    hide *;
    var ki := 0;
    while ki < n
      invariant 0 <= ki <= n && bestm[..] == best
      invariant Cleaned(es, s, m0, m[..], best, n, ki, win)
    {
      CleanNext(es, s, m0, m[..], best, n, ki, win);
      var ke := bestm[ki];
      assert ke == best[ki];
      if ke >= 0 { CleanOne(el, ne, m, ke); }
      ki := ki + 1;
    }
  }

  method CleanOne(el: array<Edge>, ne: nat, m: array<int>, ke: int)
    requires ne <= el.Length && 0 <= ke < ne && 0 <= el[ke].i < m.Length && 0 <= el[ke].j < m.Length
    modifies m
    ensures m[..] == CleanStep(el[..ne], old(m[..]), ke)
  {
    var i, j := el[ke].i, el[ke].j;
    if m[i] == ke && m[j] != ke {
      m[i] := -1;
    } else if m[i] != ke && m[j] == ke {
      m[j] := -1;
    }
  }

  // ---------------------------------------------------------------- the next list

  // The vertices that proposed and are still unmatched, in list order.
  function Kept(un: seq<int>, best: seq<int>, m: seq<int>, n: nat): (r: seq<int>)
    requires n <= |un| && n <= |best|
    ensures |r| <= n
  {
    if n == 0 then []
    else Kept(un, best, m, n - 1) +
         if best[n - 1] >= 0 && 0 <= un[n - 1] < |m| && m[un[n - 1]] < 0 then [un[n - 1]] else []
  }

  lemma {:induction false} KeptMembers(un: seq<int>, best: seq<int>, m: seq<int>, n: nat, v: int)
    requires n <= |un| && n <= |best|
    ensures v in Kept(un, best, m, n) <==> 0 <= v < |m| && m[v] < 0 && exists q: nat :: q < n && un[q] == v && best[q] >= 0
  {
    if n > 0 { KeptMembers(un, best, m, n - 1, v); }
  }

  lemma {:induction false} KeptShorter(un: seq<int>, best: seq<int>, m: seq<int>, n: nat, q: nat)
    requires q < n <= |un| && n <= |best|
    requires best[q] < 0 || (0 <= un[q] < |m| && m[un[q]] >= 0)
    ensures |Kept(un, best, m, n)| < n
  {
    if q < n - 1 { KeptShorter(un, best, m, n - 1, q); }
  }

  method KeepPass(m: array<int>, unmatched: array<int>, n: nat, bestm: array<int>, tmp: array<int>) returns (n': nat)
    requires n <= unmatched.Length && n <= bestm.Length && n <= tmp.Length
    requires tmp != m && tmp != unmatched && tmp != bestm && unmatched != m && unmatched != bestm
    requires forall q: nat | q < n :: 0 <= unmatched[q] < m.Length
    modifies tmp, unmatched
    ensures n' == |Kept(old(unmatched[..]), bestm[..], m[..], n)| <= n
    ensures unmatched[..n'] == Kept(old(unmatched[..]), bestm[..], m[..], n)
  {
    ghost var un, best, mm := unmatched[..], bestm[..], m[..];
    n' := 0;
    var ki := 0;
    while ki < n
      invariant 0 <= ki <= n && unmatched[..] == un && bestm[..] == best && m[..] == mm
      invariant n' == |Kept(un, best, mm, ki)| <= ki && tmp[..n'] == Kept(un, best, mm, ki)
    {
      var i := unmatched[ki];
      if bestm[ki] >= 0 && m[i] < 0 {
        tmp[n'] := i;
        n' := n' + 1;
        assert tmp[..n'] == Kept(un, best, mm, ki) + [i];
      }
      ki := ki + 1;
    }
    ghost var kept := tmp[..n'];
    ki := 0;
    while ki < n'
      invariant 0 <= ki <= n' && tmp[..n'] == kept && n' == |Kept(un, best, mm, n)|
      invariant forall q | 0 <= q < ki :: unmatched[q] == kept[q]
    {
      unmatched[ki] := tmp[ki];
      ki := ki + 1;
    }
    assert unmatched[..n'] == kept;
  }

  // ---------------------------------------------------------------- one pass

  // Every unmatched vertex that has left the list has no eligible edge.
  ghost predicate Frontier(es: seq<Edge>, s: seq<real>, m: seq<int>, rowstart: seq<int>, rowend: seq<int>, nv: nat, list: seq<int>) {
    && |m| == nv && |s| == |es| && Rows(es, rowstart, rowend, nv)
    && (forall v | v in list :: 0 <= v < nv && m[v] < 0)
    && (forall k | 0 <= k < |es| && 0 <= es[k].i < nv && m[es[k].i] < 0 && es[k].i !in list :: !Eligible(es, s, m, k))
  }

  lemma FrontierNext(es: seq<Edge>, s: seq<real>, m0: seq<int>, m: seq<int>, rowstart: seq<int>, rowend: seq<int>, nv: nat,
                     un: seq<int>, best: seq<int>, n: nat, win: int)
    requires n <= |un| && Frontier(es, s, m0, rowstart, rowend, nv, un[..n]) && Proposals(es, s, m0, rowstart, rowend, nv, un, best, n)
    requires Cleaned(es, s, m0, m, best, n, n, win) && forall v | 0 <= v < |m0| && m0[v] >= 0 :: m[v] == m0[v]
    ensures Frontier(es, s, m, rowstart, rowend, nv, Kept(un, best, m, n))
    ensures n > 0 ==> |Kept(un, best, m, n)| < n
  {
    var list := Kept(un, best, m, n);
    forall v ensures v in list <==> 0 <= v < |m| && m[v] < 0 && exists q: nat :: q < n && un[q] == v && best[q] >= 0 {
      KeptMembers(un, best, m, n, v);
    }
    forall k | 0 <= k < |es| && 0 <= es[k].i < nv && m[es[k].i] < 0 && es[k].i !in list ensures !Eligible(es, s, m, k) {
      assert InRow(es, rowstart, rowend, nv, k);
      var v := es[k].i;
      if v in un[..n] {
        var q: nat :| q < n && un[..n][q] == v;
        assert un[q] == v && ProposedBy(es, s, m0, rowstart, rowend, nv, un, best, q);
        assert best[q] == -1;
        assert !Eligible(es, s, m0, k);
      }
    }
    if n > 0 {
      if win == -1 {
        assert best[0] < 0 by { if best[0] >= 0 { ProposedHere(best, n, 0); } }
        KeptShorter(un, best, m, n, 0);
      } else {
        var q: nat :| q < n && q < |best| && best[q] == win;
        ProposalEdge(es, s, m0, rowstart, rowend, nv, un, best, n, q);
        KeptShorter(un, best, m, n, q);
      }
    }
  }

  // An edge of positive score from a listed vertex to an unmatched one.
  ghost predicate Open(es: seq<Edge>, s: seq<real>, m: seq<int>, list: seq<int>, k: int) {
    |s| == |es| && 0 <= k < |es| && es[k].i in list && Eligible(es, s, m, k)
  }

  predicate Taken(es: seq<Edge>, m: seq<int>, k: int) {
    0 <= k < |es| && 0 <= es[k].i < |m| && 0 <= es[k].j < |m| && m[es[k].i] == k && m[es[k].j] == k
  }

  // The first of a vertex's open edges with its greatest score.
  ghost predicate First(es: seq<Edge>, s: seq<real>, m: seq<int>, list: seq<int>, b: int) {
    && Open(es, s, m, list, b)
    && forall k | Open(es, s, m, list, k) && es[k].i == es[b].i :: s[k] <= s[b] && (k < b ==> s[k] < s[b])
  }

  // An equal score is decided by the larger ends, and then by the smaller ones.
  predicate NoLater(a: Edge, b: Edge) {
    Larger(a) < Larger(b) || (Larger(a) == Larger(b) && Smaller(a) <= Smaller(b))
  }

  ghost predicate Foremost(es: seq<Edge>, s: seq<real>, m: seq<int>, list: seq<int>, w: int) {
    && Open(es, s, m, list, w)
    && (forall k | Open(es, s, m, list, k) :: s[k] <= s[w])
    && (forall b | First(es, s, m, list, b) && s[b] == s[w] :: NoLater(es[w], es[b]))
  }

  // Of the edges open before, one of greatest score is matched, the foremost of equals.
  ghost predicate BestTaken(es: seq<Edge>, s: seq<real>, m0: seq<int>, list: seq<int>, m: seq<int>) {
    (exists k :: Open(es, s, m0, list, k)) ==> exists w :: Foremost(es, s, m0, list, w) && Taken(es, m, w)
  }

  // An edge with a score above those of all other open edges at its ends.
  ghost predicate Peak(es: seq<Edge>, s: seq<real>, m: seq<int>, list: seq<int>, k: int) {
    Open(es, s, m, list, k) && forall c | Open(es, s, m, list, c) && c != k && Meets(es, c, k) :: s[c] < s[k]
  }

  // Every such edge is matched.
  ghost predicate PeaksTaken(es: seq<Edge>, s: seq<real>, m0: seq<int>, list: seq<int>, m: seq<int>) {
    forall k | Peak(es, s, m0, list, k) :: Taken(es, m, k)
  }

  lemma ProposedOpen(es: seq<Edge>, s: seq<real>, m: seq<int>, rowstart: seq<int>, rowend: seq<int>, nv: nat,
                     un: seq<int>, best: seq<int>, n: nat, c: int)
    requires Proposals(es, s, m, rowstart, rowend, nv, un, best, n) && Proposed(best, n, c)
    ensures Open(es, s, m, un[..n], c)
  {
    var q: nat :| q < n && q < |best| && best[q] == c;
    ProposalEdge(es, s, m, rowstart, rowend, nv, un, best, n, q);
    assert un[..n][q] == un[q];
  }

  // Where an open edge starts, an open edge no worse is proposed.
  lemma OpenProposed(es: seq<Edge>, s: seq<real>, m: seq<int>, rowstart: seq<int>, rowend: seq<int>, nv: nat,
                     un: seq<int>, best: seq<int>, n: nat, k: int) returns (c: int)
    requires Proposals(es, s, m, rowstart, rowend, nv, un, best, n) && Open(es, s, m, un[..n], k)
    ensures Proposed(best, n, c) && 0 <= c < |es| && es[c].i == es[k].i && s[k] <= s[c]
  {
    var q: nat :| q < n && un[..n][q] == es[k].i;
    assert un[q] == es[k].i && ProposedBy(es, s, m, rowstart, rowend, nv, un, best, q);
    assert InRow(es, rowstart, rowend, nv, k);
    c := best[q];
    ProposalEdge(es, s, m, rowstart, rowend, nv, un, best, n, q);
    ProposedHere(best, n, q);
  }

  // No proposal is better than the one that stood.
  lemma WinBest(es: seq<Edge>, s: seq<real>, m0: seq<int>, m: seq<int>, best: seq<int>, n: nat, win: int)
    requires Contending(es, s, m0, m, best, n, n, win)
    ensures |s| == |es| && (win == -1 ==> forall k :: !Proposed(best, n, k))
    ensures win != -1 ==> 0 <= win < |es| && forall k | Proposed(best, n, k) ::
              0 <= k < |es| && (s[k] < s[win] || (s[k] == s[win] && NoLater(es[win], es[k])))
  {
    forall k | Proposed(best, n, k) ensures k >= 0 {}
    hide Proposed, Holding;
  }

  lemma BetterTaken(es: seq<Edge>, s: seq<real>, m0: seq<int>, m: seq<int>, rowstart: seq<int>, rowend: seq<int>, nv: nat,
                    un: seq<int>, best: seq<int>, n: nat, win: int)
    requires Proposals(es, s, m0, rowstart, rowend, nv, un, best, n) && Cleaned(es, s, m0, m, best, n, n, win)
    requires win == -1 ==> forall k :: !Proposed(best, n, k)
    requires win != -1 ==> 0 <= win < |es| && forall k | Proposed(best, n, k) ::
               0 <= k < |es| && (s[k] < s[win] || (s[k] == s[win] && NoLater(es[win], es[k])))
    ensures BestTaken(es, s, m0, un[..n], m) && PeaksTaken(es, s, m0, un[..n], m)
  {
    var list := un[..n];
    if k :| Open(es, s, m0, list, k) {
      var c := OpenProposed(es, s, m0, rowstart, rowend, nv, un, best, n, k);
      ProposedOpen(es, s, m0, rowstart, rowend, nv, un, best, n, win);
      forall k | Open(es, s, m0, list, k) ensures s[k] <= s[win] {
        var c := OpenProposed(es, s, m0, rowstart, rowend, nv, un, best, n, k);
      }
      forall b | First(es, s, m0, list, b) && s[b] == s[win] ensures NoLater(es[win], es[b]) {
        FirstProposed(es, s, m0, rowstart, rowend, nv, un, best, n, b);
      }
      assert Foremost(es, s, m0, list, win);
      assert Taken(es, m, win);
    }
    forall k | Peak(es, s, m0, list, k) ensures Taken(es, m, k) {
      PeakProposed(es, s, m0, rowstart, rowend, nv, un, best, n, k);
    }
    hide Proposals, Open, Proposed, Dominant, Meets, NoLater;
  }

  lemma FirstProposed(es: seq<Edge>, s: seq<real>, m: seq<int>, rowstart: seq<int>, rowend: seq<int>, nv: nat,
                      un: seq<int>, best: seq<int>, n: nat, b: int)
    requires Proposals(es, s, m, rowstart, rowend, nv, un, best, n) && First(es, s, m, un[..n], b)
    ensures Proposed(best, n, b)
  {
    var q: nat :| q < n && un[..n][q] == es[b].i;
    assert un[q] == es[b].i && ProposedBy(es, s, m, rowstart, rowend, nv, un, best, q);
    assert InRow(es, rowstart, rowend, nv, b);
    var c := best[q];
    ProposalEdge(es, s, m, rowstart, rowend, nv, un, best, n, q);
    assert Open(es, s, m, un[..n], c) && s[b] <= s[c];
    ProposedHere(best, n, q);
  }

  lemma PeakProposed(es: seq<Edge>, s: seq<real>, m: seq<int>, rowstart: seq<int>, rowend: seq<int>, nv: nat,
                     un: seq<int>, best: seq<int>, n: nat, k: int)
    requires Proposals(es, s, m, rowstart, rowend, nv, un, best, n) && Peak(es, s, m, un[..n], k)
    ensures |s| == |es| && 0 <= k < |es| && Proposed(best, n, k) && Dominant(es, s, best, n, k)
  {
    var c := OpenProposed(es, s, m, rowstart, rowend, nv, un, best, n, k);
    ProposedOpen(es, s, m, rowstart, rowend, nv, un, best, n, c);
    assert Meets(es, c, k);
    forall c | Proposed(best, n, c) && c < |es| && c != k && Meets(es, c, k) ensures s[c] < s[k] {
      ProposedOpen(es, s, m, rowstart, rowend, nv, un, best, n, c);
    }
    hide Proposals, Proposed;
  }

  /**
   sliced_non_maximal_pass: earlier matches stay, the result is a matching, whoever leaves the
   list unmatched has nothing eligible, and the list gets shorter.  Better scores win: one of the
   greatest is matched, and so is every edge that is better than all at its ends.
   */
  method SlicedNonMaximalPass(el: array<Edge>, ne: nat, s: seq<real>, rowstart: array<int>, rowend: array<int>,
                              n: nat, unmatched: array<int>, m: array<int>, bestm: array<int>, tmp: array<int>) returns (n': nat)
    requires ne <= el.Length && n <= unmatched.Length && n <= bestm.Length && n <= tmp.Length
    requires m != rowstart && m != rowend && m != unmatched && m != bestm && m != tmp
    requires bestm != rowstart && bestm != rowend && bestm != unmatched && tmp != bestm && tmp != unmatched && unmatched != rowstart
    requires unmatched != rowend && tmp != rowstart && tmp != rowend
    requires Frontier(el[..ne], s, m[..], rowstart[..], rowend[..], m.Length, unmatched[..n]) && IsMatching(el[..ne], s, m[..])
    modifies m, unmatched, bestm, tmp
    ensures n' <= unmatched.Length && Frontier(el[..ne], s, m[..], rowstart[..], rowend[..], m.Length, unmatched[..n'])
    ensures IsMatching(el[..ne], s, m[..])
    ensures forall v | 0 <= v < m.Length && old(m[v]) >= 0 :: m[v] == old(m[v])
    ensures BestTaken(el[..ne], s, old(m[..]), old(unmatched[..n]), m[..])
    ensures PeaksTaken(el[..ne], s, old(m[..]), old(unmatched[..n]), m[..])
    ensures n > 0 ==> n' < n
    ensures n == 0 ==> n' == 0
  {
    ghost var es, m0, un := el[..ne], m[..], unmatched[..];
    ghost var list := un[..n];
    hide *;
    assert unmatched[..n] == list;
    FrontierList(es, s, m0, rowstart[..], rowend[..], m.Length, un, n);
    ProposePass(el, ne, s, m, rowstart, rowend, unmatched, n, bestm);
    MatchProposals(el, ne, s, rowstart[..], rowend[..], n, unmatched, m, bestm);
    n' := KeepPass(m, unmatched, n, bestm, tmp);
  }

  // The two loops between proposing and the next list.
  method MatchProposals(el: array<Edge>, ne: nat, s: seq<real>, ghost rowstart: seq<int>, ghost rowend: seq<int>,
                        n: nat, unmatched: array<int>, m: array<int>, bestm: array<int>)
    requires ne <= el.Length && |s| == ne && n <= unmatched.Length && n <= bestm.Length && m != unmatched && m != bestm
    requires Frontier(el[..ne], s, m[..], rowstart, rowend, m.Length, unmatched[..n]) && IsMatching(el[..ne], s, m[..])
    requires Proposals(el[..ne], s, m[..], rowstart, rowend, m.Length, unmatched[..], bestm[..], n)
    modifies m
    ensures IsMatching(el[..ne], s, m[..]) && forall v | 0 <= v < m.Length && old(m[v]) >= 0 :: m[v] == old(m[v])
    ensures BestTaken(el[..ne], s, old(m[..]), unmatched[..n], m[..]) && PeaksTaken(el[..ne], s, old(m[..]), unmatched[..n], m[..])
    ensures Frontier(el[..ne], s, m[..], rowstart, rowend, m.Length, Kept(unmatched[..], bestm[..], m[..], n))
    ensures n > 0 ==> |Kept(unmatched[..], bestm[..], m[..], n)| < n
  {
    hide *;
    ghost var es, m0, un, best := el[..ne], m[..], unmatched[..], bestm[..];
    ghost var win := ContendPass(el, ne, s, m, unmatched, n, bestm, rowstart, rowend);
    CleanStarts(es, s, m0, m[..], best, n, win);
    WinBest(es, s, m0, m[..], best, n, win);
    CleanPass(el, ne, s, m, n, bestm, m0, win);
    CleanEnds(es, s, m0, m[..], best, n, win);
    assert un[..n] == unmatched[..n];
    FrontierNext(es, s, m0, m[..], rowstart, rowend, m.Length, un, best, n, win);
    BetterTaken(es, s, m0, m[..], rowstart, rowend, m.Length, un, best, n, win);
  }

  lemma FrontierList(es: seq<Edge>, s: seq<real>, m: seq<int>, rowstart: seq<int>, rowend: seq<int>, nv: nat, un: seq<int>, n: nat)
    requires n <= |un| && Frontier(es, s, m, rowstart, rowend, nv, un[..n])
    ensures |s| == |es| && |m| == nv && Rows(es, rowstart, rowend, nv) && forall q: nat | q < n :: 0 <= un[q] < |m| && m[un[q]] < 0
  {
    forall q: nat | q < n ensures 0 <= un[q] < |m| && m[un[q]] < 0 { assert un[..n][q] in un[..n]; }
    hide Rows, Eligible;
  }

  lemma FrontierMaximal(es: seq<Edge>, s: seq<real>, m: seq<int>, rowstart: seq<int>, rowend: seq<int>, nv: nat)
    requires Frontier(es, s, m, rowstart, rowend, nv, [])
    ensures IsMaximal(es, s, m)
  {
  }

  // For every edge of positive score, one that is no worse is matched.
  ghost predicate NoneBetter(es: seq<Edge>, s: seq<real>, m: seq<int>) {
    |s| == |es| && forall k | 0 <= k < |es| && s[k] > 0.0 :: exists v :: 0 <= v < |m| && 0 <= m[v] < |es| && s[k] <= s[m[v]]
  }

  // An edge of positive score above those of all other edges at its ends.
  ghost predicate Summit(es: seq<Edge>, s: seq<real>, k: int) {
    |s| == |es| && 0 <= k < |es| && s[k] > 0.0 && forall c | 0 <= c < |es| && c != k && Meets(es, c, k) :: s[c] < s[k]
  }

  ghost predicate SummitsTaken(es: seq<Edge>, s: seq<real>, m: seq<int>) {
    forall k | Summit(es, s, k) :: Taken(es, m, k)
  }

  // The first pass, before which every vertex is unmatched and listed.
  lemma FirstPass(es: seq<Edge>, s: seq<real>, m0: seq<int>, rowstart: seq<int>, rowend: seq<int>, list: seq<int>, m: seq<int>)
    requires |s| == |es| && Rows(es, rowstart, rowend, |m0|) && |list| == |m0| == |m| && forall v | 0 <= v < |m0| :: m0[v] < 0 && list[v] == v
    requires BestTaken(es, s, m0, list, m) && PeaksTaken(es, s, m0, list, m)
    ensures NoneBetter(es, s, m) && SummitsTaken(es, s, m)
  {
    forall k | 0 <= k < |es| ensures Open(es, s, m0, list, k) <==> s[k] > 0.0 {
      assert InRow(es, rowstart, rowend, |m0|, k);
      assert list[es[k].i] == es[k].i;
    }
    forall k | 0 <= k < |es| && s[k] > 0.0 ensures exists v :: 0 <= v < |m| && 0 <= m[v] < |es| && s[k] <= s[m[v]] {
      assert Open(es, s, m0, list, k);
      var w :| Foremost(es, s, m0, list, w) && Taken(es, m, w);
      assert m[es[w].i] == w;
    }
    forall k | Summit(es, s, k) ensures Taken(es, m, k) { assert Peak(es, s, m0, list, k); }
  }

  lemma AllUnmatched(es: seq<Edge>, s: seq<real>, m: seq<int>, rowstart: seq<int>, rowend: seq<int>, list: seq<int>)
    requires |s| == |es| && Rows(es, rowstart, rowend, |m|) && |list| == |m|
    requires forall v | 0 <= v < |m| :: m[v] < 0 && list[v] == v
    ensures Frontier(es, s, m, rowstart, rowend, |m|, list) && IsMatching(es, s, m)
  {
    forall k | 0 <= k < |es| ensures es[k].i in list {
      assert InRow(es, rowstart, rowend, |m|, k);
      assert list[es[k].i] == es[k].i;
    }
  }

  // A vertex that is matched stays so.
  lemma BestKept(es: seq<Edge>, s: seq<real>, m: seq<int>, m': seq<int>)
    requires |m'| == |m| && forall v | 0 <= v < |m| && m[v] >= 0 :: m'[v] == m[v]
    requires NoneBetter(es, s, m) && SummitsTaken(es, s, m)
    ensures NoneBetter(es, s, m') && SummitsTaken(es, s, m')
  {
    forall k | 0 <= k < |es| && s[k] > 0.0 ensures exists v :: 0 <= v < |m'| && 0 <= m'[v] < |es| && s[k] <= s[m'[v]] {
      var v :| 0 <= v < |m| && 0 <= m[v] < |es| && s[k] <= s[m[v]];
      assert m'[v] == m[v];
    }
    hide Summit;
  }

  /**
   maximal_match_iter: for any scores it ends, with a matching by positive edges that leaves no
   positive edge between unmatched vertices, no score above all matched ones, and no edge unmatched
   that is better than all at its ends.
   */
  method MaximalMatchIter(el: array<Edge>, ne: nat, s: seq<real>, rowstart: array<int>, rowend: array<int>, m: array<int>,
                          bestm: array<int>, unmatched: array<int>, tmp: array<int>)
    requires ne <= el.Length && |s| == ne && Rows(el[..ne], rowstart[..], rowend[..], m.Length)
    requires bestm.Length == unmatched.Length == tmp.Length == m.Length
    requires m != rowstart && m != rowend && m != unmatched && m != bestm && m != tmp
    requires bestm != rowstart && bestm != rowend && bestm != unmatched && tmp != bestm && tmp != unmatched && unmatched != rowstart
    requires unmatched != rowend && tmp != rowstart && tmp != rowend
    modifies m, unmatched, bestm, tmp
    ensures IsMatching(el[..ne], s, m[..]) && IsMaximal(el[..ne], s, m[..])
    ensures NoneBetter(el[..ne], s, m[..]) && SummitsTaken(el[..ne], s, m[..])
  {
    hide *;
    var i := 0;
    while i < m.Length
      invariant 0 <= i <= m.Length && rowstart[..] == old(rowstart[..]) && rowend[..] == old(rowend[..])
      invariant forall v | 0 <= v < i :: m[v] == -3 && unmatched[v] == v
    {
      m[i] := -3;
      unmatched[i] := i;
      i := i + 1;
    }
    var n: nat := m.Length;
    ghost var es, m0, list := el[..ne], m[..], unmatched[..n];
    AllUnmatched(es, s, m0, rowstart[..], rowend[..], list);
    n := SlicedNonMaximalPass(el, ne, s, rowstart, rowend, n, unmatched, m, bestm, tmp);
    FirstPass(es, s, m0, rowstart[..], rowend[..], list, m[..]);
    while n != 0
      invariant n <= unmatched.Length && rowstart[..] == old(rowstart[..]) && rowend[..] == old(rowend[..])
      invariant Frontier(es, s, m[..], rowstart[..], rowend[..], m.Length, unmatched[..n]) && IsMatching(es, s, m[..])
      invariant NoneBetter(es, s, m[..]) && SummitsTaken(es, s, m[..])
      decreases n
    {
      ghost var before := m[..];
      n := SlicedNonMaximalPass(el, ne, s, rowstart, rowend, n, unmatched, m, bestm, tmp);
      BestKept(es, s, before, m[..]);
    }
    assert unmatched[..0] == [];
    FrontierMaximal(es, s, m[..], rowstart[..], rowend[..], m.Length);
  }
}
