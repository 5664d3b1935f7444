/**
 What calls report under every interleaving, destination by destination.
 */
module StampReports {
  import opened InsertProtocol
  import opened InsertInvariant
  import opened InsertSteps
  import opened InsertRuns
  import opened InsertMoves
  import opened InsertFirsts
  import opened StampProtocol
  import opened StampInvariant
  import opened StampCounts
  import opened StampRanges

  // A block of the type holds an edge to v.
  ghost predicate Present(m: Mem, chain: seq<nat>, v: int) {
    exists b: nat, k: nat :: b in chain && Holds(m, b, k, v)
  }

  function One(b: bool): int { if b then 1 else 0 }

  // Some claimed slot has an edge to v.
  ghost predicate ClaimedFor(m: Mem, a: History, v: int) {
    exists p :: p in a.claimed && Kind(m, p.0) && At(m, p.0, p.1).neighbor == v
  }

  // 1 from the moment that the call has claimed a slot for v.
  function Claim(th: Thread, v: int): int {
    if th.to == v then Made(th) - Ahead(th) else 0
  }

  function SumClaims(threads: seq<Thread>, v: int): int {
    if threads == [] then 0 else Claim(threads[0], v) + SumClaims(threads[1..], v)
  }

  lemma {:induction false} SumClaimsSet(threads: seq<Thread>, t: nat, th: Thread, v: int)
    requires t < |threads|
    ensures SumClaims(threads[t := th], v) == SumClaims(threads, v) - Claim(threads[t], v) + Claim(th, v)
    decreases t
  {
    hide Claim;
    if t > 0 {
      assert threads[t := th][1..] == threads[1..][t - 1 := th];
      SumClaimsSet(threads[1..], t - 1, th, v);
    } else {
      assert threads[t := th][1..] == threads[1..];
    }
  }

  // ---------------------------------------------------------------- one step

  // A call has claimed a slot exactly from that step on.
  lemma ClaimStep(m: Mem, th: Thread, v: int)
    requires th.pc.Existing? ==> th.mode.Unlocked? || th.mode.Locked?
    requires th.pc.OutDeg? || th.pc.HighTest? || th.pc.HighWrite? || th.pc.Unlock? ==> th.mode.FreshSlot? || th.mode.NewBlock?
    ensures var th' := Act(m, th).1; Claim(th', v) == Claim(th, v) + if NewlyClaims(th) && th.to == v then 1 else 0
  {
    hide Word, At, Kind, Blk, SetWord, SetSlot, SetHigh;
  }

  lemma SoleClaim(s: State, a: History, p: (nat, nat), q: (nat, nat))
    requires Inv(s, a) && p in a.claimed && q in a.claimed && p != q && Kind(s.m, p.0) && Kind(s.m, q.0)
    ensures At(s.m, p.0, p.1).neighbor != At(s.m, q.0, q.1).neighbor
  {
    hide PoolInv, PtrInv, LockInv, ClaimInv, ClaimInit, OrderInv, CountInv, CallsInv, ThreadInv, Kind, At;
  }

  /** A step claims a slot for a destination that had none, or changes no destination's claim. */
  lemma ClaimedForStep(s: State, a: History, t: nat, v: int)
    requires Inv(s, a) && Enabled(s, t) && t < |s.threads|
    ensures ClaimedFor(Step(s, t).m, Record(s, a, t), v) <==> ClaimedFor(s.m, a, v) || (NewlyClaims(s.threads[t]) && s.threads[t].to == v)
    ensures NewlyClaims(s.threads[t]) ==> !ClaimedFor(s.m, a, s.threads[t].to)
  {
    hide Inv, Step, Record, Kind, At, NewlyClaims, Enabled;
    var s', a', th := Step(s, t), Record(s, a, t), s.threads[t];
    RecordClaims(s, a, t);
    NewlyClaimsIs(th);
    StepKeeps(s, a, t);
    forall p | p in a.claimed ensures Kind(s'.m, p.0) == Kind(s.m, p.0) && At(s'.m, p.0, p.1).neighbor == At(s.m, p.0, p.1).neighbor {
      ClaimKept(s, a, t, p);
    }
    if NewlyClaims(th) {
      var q := NewClaim(s, a, t);
      forall p | p in a.claimed && Kind(s.m, p.0) ensures At(s.m, p.0, p.1).neighbor != th.to { SoleClaim(s', a', p, q); }
    }
  }

  // ---------------------------------------------------------------- whole runs

  ghost predicate ClaimSums(s: State, a: History, v: int, before: int) {
    One(ClaimedFor(s.m, a, v)) == before + SumClaims(s.threads, v)
  }

  lemma StepClaims(s: State, a: History, t: nat, v: int, before: int)
    requires Inv(s, a) && ClaimSums(s, a, v, before)
    ensures ClaimSums(Step(s, t), Record(s, a, t), v, before)
  {
    hide Inv, Act, ClaimedFor, Claim, NewlyClaims;
    if Enabled(s, t) {
      var th := s.threads[t];
      ModeHere(s, a, t);
      ClaimedForStep(s, a, t, v);
      StepIs(s, t);
      ClaimStep(s.m, th, v);
      SumClaimsSet(s.threads, t, Act(s.m, th).1, v);
    }
    hide Enabled, Step, Record;
  }

  // For every destination, the claims so far.
  ghost predicate ReportsOk(s: State, a: History, m0: Mem, chain0: seq<nat>) {
    forall v: int :: ClaimSums(s, a, v, One(Present(m0, chain0, v)))
  }

  lemma GoReports(x: Whole, a: History, t: nat, m0: Mem, chain0: seq<nat>)
    requires Inv(x.s, a) && ReportsOk(x.s, a, m0, chain0)
    ensures ReportsOk(Go(x, t).s, Recorded(x, a, t), m0, chain0)
  {
    forall v: int ensures ClaimSums(Go(x, t).s, Recorded(x, a, t), v, One(Present(m0, chain0, v))) {
      assert ClaimSums(x.s, a, v, One(Present(m0, chain0, v)));
      if Able(x, t) && x.calls[t].aux.Core? { StepClaims(x.s, a, t, v, One(Present(m0, chain0, v))); }
    }
    hide Inv, Record, Step, Header, ClaimSums, Present, Waits;
  }

  lemma GoFirsts(x: Whole, a: History, t: nat, m0: Mem, threads0: seq<Thread>)
    requires Inv(x.s, a) && FirstsOk(x.s, a, m0) && SameCalls(threads0, x.s.threads)
    ensures FirstsOk(Go(x, t).s, Recorded(x, a, t), m0) && SameCalls(threads0, Go(x, t).s.threads)
  {
    if Able(x, t) && x.calls[t].aux.Core? {
      StepFirsts(x.s, a, t, m0);
      StepCalls(x.s, t, threads0);
    }
    hide Inv, Record, Step, Header, FirstsOk, SameCalls, Waits;
  }

  lemma {:induction false} RunsReport(x: Whole, a: History, indeg0: map<int, int>, m0: Mem, chain0: seq<nat>, threads0: seq<Thread>, schedule: seq<nat>)
    returns (a': History)
    requires CountInvs(x, a, indeg0) && ReportsOk(x.s, a, m0, chain0) && FirstsOk(x.s, a, m0) && SameCalls(threads0, x.s.threads)
    ensures CountInvs(Runs(x, schedule), a', indeg0) && ReportsOk(Runs(x, schedule).s, a', m0, chain0) && Follows(a, a')
    ensures FirstsOk(Runs(x, schedule).s, a', m0) && SameCalls(threads0, Runs(x, schedule).s.threads)
    decreases |schedule|
  {
    hide CountInvs, ReportsOk, FirstsOk, SameCalls, Go, Record, Able;
    if schedule == [] {
      a' := a;
    } else {
      CountsElim(x, a, indeg0);
      GoCounts(x, a, indeg0, schedule[0]);
      GoReports(x, a, schedule[0], m0, chain0);
      GoFirsts(x, a, schedule[0], m0, threads0);
      RecordFollows(x.s, a, schedule[0]);
      a' := RunsReport(Go(x, schedule[0]), Recorded(x, a, schedule[0]), indeg0, m0, chain0, threads0, schedule[1..]);
    }
  }

  // ---------------------------------------------------------------- start and end

  lemma FilledClaimed(m: Mem, a: History, v: int)
    requires a.claimed == FilledSlots(m, a.chain)
    ensures ClaimedFor(m, a, v) <==> Present(m, a.chain, v)
  {
    hide Kind, Filled, At;
    if b: nat, k: nat :| b in a.chain && Holds(m, b, k, v) {
      assert (b, k) in a.claimed by { hide At, Kind; FilledBelow(m, b, k); }
      assert (b, k).0 == b && (b, k).1 == k;
    }
    if p :| p in a.claimed && Kind(m, p.0) && At(m, p.0, p.1).neighbor == v {
      assert p.0 in a.chain && Holds(m, p.0, p.1, v);
    }
  }

  lemma FilledBelow(m: Mem, b: nat, k: nat)
    ensures Filled(m, b, k) ==> k < BLOCK_SIZE
  {
  }

  lemma {:induction false} StartClaimSum(threads: seq<Thread>, v: int)
    requires forall t: nat | t < |threads| :: threads[t].pc.BeginHead?
    ensures SumClaims(threads, v) == 0
  {
    if threads != [] {
      assert forall t: nat | t < |threads| - 1 :: threads[1..][t] == threads[t + 1];
      StartClaimSum(threads[1..], v);
    }
  }

  lemma {:induction false} DoneClaimSum(threads: seq<Thread>, v: int)
    requires forall t: nat | t < |threads| :: threads[t].pc.Done?
    ensures SumClaims(threads, v) == InsertionsTo(threads, v)
  {
    if threads != [] {
      assert forall t: nat | t < |threads| - 1 :: threads[1..][t] == threads[t + 1];
      DoneClaimSum(threads[1..], v);
    }
  }

  lemma StartReports(s: State, chain: seq<nat>)
    requires Ready(s, chain)
    ensures ReportsOk(s, Start(s, chain), s.m, chain)
  {
    StartFields(s, chain);
    StartThreads(s, chain);
    forall v: int ensures ClaimSums(s, Start(s, chain), v, One(Present(s.m, chain, v))) {
      StartClaimSum(s.threads, v);
      FilledClaimed(s.m, Start(s, chain), v);
    }
    hide Ready, Start, ClaimedFor, Present, SumClaims;
  }

  lemma StartThreads(s: State, chain: seq<nat>)
    requires Ready(s, chain)
    ensures Start(s, chain).claimed == FilledSlots(s.m, chain) && forall t: nat | t < |s.threads| :: s.threads[t].pc.BeginHead?
  {
    hide ChainOf, NoDuplicates, FilledSlots, Kind;
  }

  /** Once all calls have returned: one has returned 1 for each destination that is new, and none for any other. */
  lemma DoneReports(s: State, a: History, m0: Mem, chain0: seq<nat>, v: int)
    requires ReportsOk(s, a, m0, chain0) && AllDone(s) && a.claimed == FilledSlots(s.m, a.chain)
    ensures InsertionsTo(s.threads, v) == One(Present(s.m, a.chain, v)) - One(Present(m0, chain0, v))
  {
    assert ClaimSums(s, a, v, One(Present(m0, chain0, v)));
    DoneClaimSum(s.threads, v);
    FilledClaimed(s.m, a, v);
    hide ClaimedFor, Present, SumClaims, FilledSlots, InsertionsTo;
  }

  lemma DoneClaimed(m: Mem, a: History, threads: seq<Thread>)
    requires ClaimInv(m, a, threads) && a.slotOwner == map[]
    ensures a.claimed == FilledSlots(m, a.chain)
  {
    forall p ensures p in a.claimed <==> p in FilledSlots(m, a.chain) { assert p == (p.0, p.1); }
  }
}
