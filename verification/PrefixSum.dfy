/**
 The exclusive prefix sum used by the bucket sort: the serial loop, and the team version in
 which every thread owns a slice and three barriers separate the phases.
 */
module PrefixSum {
  function SumTo(s: seq<int>, k: nat): int
    requires k <= |s|
  {
    if k == 0 then 0 else SumTo(s, k - 1) + s[k - 1]
  }

  function Exclusive(s: seq<int>): (r: seq<int>)
    ensures |r| == |s|
  {
    seq(|s|, k requires 0 <= k < |s| => SumTo(s, k))
  }

  // s with the n words from base replaced by their exclusive prefix sums.
  function ExclusiveAt(s: seq<int>, base: nat, n: nat): (r: seq<int>)
    requires base + n <= |s|
    ensures |r| == |s|
  {
    s[..base] + Exclusive(s[base..base + n]) + s[base + n..]
  }

  lemma ExclusiveAtIndex(s: seq<int>, base: nat, n: nat, j: nat)
    requires base + n <= |s| && j < |s|
    ensures ExclusiveAt(s, base, n)[j] == if base <= j < base + n then SumTo(s[base..base + n], j - base) else s[j]
  {
  }

  /** The serial loop, on the n words from `base`. */
  method Serial(a: array<int>, base: nat, n: nat) returns (total: int)
    requires base + n <= a.Length
    modifies a
    ensures a[..] == ExclusiveAt(old(a[..]), base, n)
    ensures total == SumTo(old(a[base..base + n]), n)
  {
    ghost var whole := a[..];
    ghost var s := whole[base..base + n];
    var cur := 0;
    var k := 0;
    while k < n
      invariant 0 <= k <= n && cur == SumTo(s, k)
      invariant forall j | 0 <= j < a.Length :: a[j] == if base <= j < base + k then SumTo(s, j - base) else whole[j]
    {
      var tmp := a[base + k];
      assert tmp == s[k];
      a[base + k] := cur;
      cur := cur + tmp;
      k := k + 1;
    }
    total := cur;
    forall j | 0 <= j < a.Length ensures a[..][j] == ExclusiveAt(whole, base, n)[j] { ExclusiveAtIndex(whole, base, n, j); }
    assert s == old(a[base..base + n]);
  }

  // ---------------------------------------------------------------- slices

  // The first index of thread t's slice of [0, n), among nt threads; it ends at Begin(n, nt, t + 1).
  function Begin(n: nat, nt: nat, t: nat): nat
    requires 0 < nt
  {
    (n / nt) * t + if t < n % nt then t else n % nt
  }

  lemma SliceStep(n: nat, nt: nat, t: nat)
    requires t < nt
    ensures Begin(n, nt, t) <= Begin(n, nt, t + 1)
  {
    assert (n / nt) * (t + 1) == (n / nt) * t + n / nt;
  }

  lemma {:induction false} SliceOrder(n: nat, nt: nat, t: nat, u: nat)
    requires t <= u <= nt && 0 < nt
    ensures Begin(n, nt, t) <= Begin(n, nt, u)
    decreases u - t
  {
    if t < u {
      SliceStep(n, nt, t);
      SliceOrder(n, nt, t + 1, u);
    }
  }

  /** The slices tile [0, n): each index lies in exactly one. */
  lemma SlicesTile(n: nat, nt: nat, k: nat) returns (t: nat)
    requires 0 < nt && k < n
    ensures Begin(n, nt, 0) == 0 && Begin(n, nt, nt) == n
    ensures t < nt && Begin(n, nt, t) <= k < Begin(n, nt, t + 1)
    ensures forall u: nat | u < nt && u != t :: !(Begin(n, nt, u) <= k < Begin(n, nt, u + 1))
  {
    assert (n / nt) * 0 == 0 && (n / nt) * nt == n - n % nt;
    t := 0;
    while Begin(n, nt, t + 1) <= k
      invariant t < nt && Begin(n, nt, t) <= k
      decreases nt - t
    {
      t := t + 1;
    }
    forall u: nat | u < nt && u != t ensures !(Begin(n, nt, u) <= k < Begin(n, nt, u + 1)) {
      if u < t { SliceOrder(n, nt, u + 1, t); } else { SliceOrder(n, nt, t + 1, u); }
    }
  }

  // ---------------------------------------------------------------- the team

  // Summing its slice; waiting for the sums; scanning buf (one thread); waiting for the scan;
  // writing its slice; finished.
  datatype Phase = Summing | Summed | Scanning | Scanned | Writing | Finished

  datatype Worker = Worker(phase: Phase, k: nat, acc: int)

  datatype Team = Team(ary: seq<int>, buf: seq<int>, scanStarted: bool, scanDone: bool, workers: seq<Worker>)

  predicate AllPast(s: Team, early: set<Phase>) {
    forall t | 0 <= t < |s.workers| :: s.workers[t].phase !in early
  }

  function With(s: Team, t: nat, w: Worker): Team
    requires t < |s.workers|
  {
    s.(workers := s.workers[t := w])
  }

  /** One step of thread t; it stays put while it waits at a barrier. */
  function Step(s: Team, t: nat): Team {
    if t >= |s.workers| || |s.buf| != |s.workers| then s
    else
      var n, nt, w := |s.ary|, |s.workers|, s.workers[t];
      match w.phase
      case Summing =>
        if w.k < Begin(n, nt, t + 1) && w.k < n then With(s, t, w.(k := w.k + 1, acc := w.acc + s.ary[w.k]))
        else With(s, t, w.(phase := Summed)).(buf := s.buf[t := w.acc])
      case Summed =>
        if !AllPast(s, {Summing}) then s
        else if s.scanStarted then With(s, t, w.(phase := Scanned))
        else With(s, t, w.(phase := Scanning, k := 1)).(scanStarted := true)
      case Scanning =>
        if w.k < nt then With(s, t, w.(k := w.k + 1)).(buf := s.buf[w.k := s.buf[w.k] + if w.k > 0 then s.buf[w.k - 1] else 0])
        else With(s, t, w.(phase := Scanned)).(scanDone := true)
      case Scanned =>
        if !AllPast(s, {Summing, Summed, Scanning}) then s
        else With(s, t, Worker(Writing, Begin(n, nt, t), if t > 0 then s.buf[t - 1] else 0))
      case Writing =>
        if w.k < Begin(n, nt, t + 1) && w.k < n
        then With(s, t, w.(k := w.k + 1, acc := w.acc + s.ary[w.k])).(ary := s.ary[w.k := w.acc])
        else With(s, t, w.(phase := Finished))
      case Finished => s
  }

  function Run(s: Team, schedule: seq<nat>): Team
    decreases |schedule|
  {
    if schedule == [] then s else Run(Step(s, schedule[0]), schedule[1..])
  }

  function Start(ary: seq<int>, buf: seq<int>): Team
    requires |buf| > 0
  {
    Team(ary, buf, false, false, seq(|buf|, t requires 0 <= t => Worker(Summing, Begin(|ary|, |buf|, t), 0)))
  }

  // ---------------------------------------------------------------- invariant

  function Upto(s0: seq<int>, nt: nat, t: nat): int
    requires 0 < nt
  {
    var b := Begin(|s0|, nt, t);
    if b <= |s0| then SumTo(s0, b) else 0
  }

  // Thread t's own state and its slice of the array, for the original array s0.
  ghost predicate WorkerInv(s0: seq<int>, s: Team, t: nat)
    requires t < |s.workers| && |s.ary| == |s0|
  {
    var n, nt, w := |s0|, |s.workers|, s.workers[t];
    var lo, hi := Begin(n, nt, t), Begin(n, nt, t + 1);
    && lo <= hi <= n
    && (w.phase.Summing? || w.phase.Writing? ==> lo <= w.k <= hi)
    && (w.phase.Summing? ==> w.acc == SumTo(s0, w.k) - SumTo(s0, lo))
    && (w.phase.Writing? ==> w.acc == SumTo(s0, w.k))
    && (w.phase.Finished? ==> w.acc == SumTo(s0, hi))
    && (forall j | lo <= j < hi ::
          s.ary[j] == if w.phase.Finished? || (w.phase.Writing? && j < w.k) then SumTo(s0, j) else s0[j])
  }

  // How far the scan of buf has come.
  ghost predicate BufInv(s0: seq<int>, s: Team, scanner: nat)
    requires |s.buf| == |s.workers|
  {
    var nt := |s.workers|;
    && (s.scanDone ==> s.scanStarted)
    && (s.scanStarted && !s.scanDone ==> scanner < nt && s.workers[scanner].phase.Scanning? && 1 <= s.workers[scanner].k <= nt)
    && (forall t | 0 <= t < nt && s.workers[t].phase.Scanning? :: s.scanStarted && !s.scanDone && t == scanner)
    && (s.scanStarted ==> AllPast(s, {Summing}))
    && ((exists t :: 0 <= t < nt && (s.workers[t].phase.Scanned?)) ==> s.scanStarted)
    && ((exists t :: 0 <= t < nt && (s.workers[t].phase.Writing? || s.workers[t].phase.Finished?)) ==> s.scanDone)
    && forall t | 0 <= t < nt && !s.workers[t].phase.Summing? ::
         s.buf[t] == Upto(s0, nt, t + 1) -
           if s.scanDone || (s.scanStarted && t < s.workers[scanner].k) || t == 0 then 0 else Upto(s0, nt, t)
  }

  ghost predicate Inv(s0: seq<int>, s: Team, scanner: nat) {
    && |s.ary| == |s0| && |s.buf| == |s.workers| && 0 < |s.workers|
    && BufInv(s0, s, scanner)
    && forall t: nat | t < |s.workers| :: WorkerInv(s0, s, t)
  }

  lemma StartInv(s0: seq<int>, buf: seq<int>)
    requires |buf| > 0
    ensures Inv(s0, Start(s0, buf), 0)
  {
    forall t: nat | t < |buf| ensures WorkerInv(s0, Start(s0, buf), t) {
      SliceStep(|s0|, |buf|, t);
      SliceOrder(|s0|, |buf|, t + 1, |buf|);
      assert (|s0| / |buf|) * |buf| == |s0| - |s0| % |buf|;
    }
  }

  // A worker's inv only looks at its own slice, so another worker's step keeps it.
  lemma OtherWorker(s0: seq<int>, s: Team, s': Team, t: nat, u: nat)
    requires |s.ary| == |s'.ary| == |s0| && |s.workers| == |s'.workers| && t < |s.workers| && u < |s.workers| && u != t
    requires WorkerInv(s0, s, u) && s'.workers[u] == s.workers[u]
    requires forall j | 0 <= j < |s0| && s'.ary[j] != s.ary[j] :: Begin(|s0|, |s.workers|, t) <= j < Begin(|s0|, |s.workers|, t + 1)
    ensures WorkerInv(s0, s', u)
  {
    var n, nt := |s0|, |s.workers|;
    if u < t { SliceOrder(n, nt, u + 1, t); } else { SliceOrder(n, nt, t + 1, u); }
  }

  lemma BufKept(s0: seq<int>, s: Team, scanner: nat, t: nat)
    requires Inv(s0, s, scanner) && t < |s.workers|
    requires s.workers[t].phase.Summing? || s.workers[t].phase.Writing? || s.workers[t].phase.Finished?
    ensures BufInv(s0, Step(s, t), scanner)
  {
    assert WorkerInv(s0, s, t);
    var s', nt, w := Step(s, t), |s.workers|, s.workers[t];
    assert w.phase.Summing? && s'.workers[t].phase.Summed? ==>
      w.acc == Upto(s0, nt, t + 1) - (if t == 0 then 0 else Upto(s0, nt, t)) && s'.buf[t] == w.acc by {
      if t == 0 { assert Begin(|s0|, nt, 0) == 0; }
    }
    hide Upto, Begin, SumTo, WorkerInv;
    assert forall u | 0 <= u < nt && u != t :: s'.workers[u] == s.workers[u] && s'.buf[u] == s.buf[u];
    assert !(exists u :: 0 <= u < nt && (s.workers[u].phase.Writing? || s.workers[u].phase.Finished?)) || s.scanDone;
  }

  lemma BufAtSums(s0: seq<int>, s: Team, scanner: nat, t: nat) returns (scanner': nat)
    requires |s.buf| == |s.workers| && BufInv(s0, s, scanner) && t < |s.workers| && s.workers[t].phase.Summed?
    ensures BufInv(s0, Step(s, t), scanner')
  {
    hide Upto, Begin, SumTo;
    scanner' := if AllPast(s, {Summing}) && !s.scanStarted then t else scanner;
    assert forall u | 0 <= u < |s.workers| && u != t :: Step(s, t).workers[u] == s.workers[u];
  }

  lemma BufScan(s0: seq<int>, s: Team, scanner: nat, t: nat)
    requires |s.buf| == |s.workers| && BufInv(s0, s, scanner) && t < |s.workers| && s.workers[t].phase.Scanning?
    ensures BufInv(s0, Step(s, t), scanner)
  {
    hide Upto, Begin, SumTo;
    assert forall u | 0 <= u < |s.workers| && u != t :: Step(s, t).workers[u] == s.workers[u];
  }

  lemma BufAtScan(s0: seq<int>, s: Team, scanner: nat, t: nat)
    requires |s.buf| == |s.workers| && BufInv(s0, s, scanner) && t < |s.workers| && s.workers[t].phase.Scanned?
    ensures BufInv(s0, Step(s, t), scanner)
  {
    hide Upto, Begin, SumTo;
    assert forall u | 0 <= u < |s.workers| && u != t :: Step(s, t).workers[u] == s.workers[u];
    if AllPast(s, {Summing, Summed, Scanning}) { assert s.scanStarted && s.scanDone; }
  }

  lemma BufScans(s0: seq<int>, s: Team, scanner: nat, t: nat) returns (scanner': nat)
    requires Inv(s0, s, scanner) && t < |s.workers|
    requires s.workers[t].phase.Summed? || s.workers[t].phase.Scanning? || s.workers[t].phase.Scanned?
    ensures BufInv(s0, Step(s, t), scanner')
  {
    scanner' := scanner;
    hide BufInv, WorkerInv, Step;
    match s.workers[t].phase {
      case Summed => scanner' := BufAtSums(s0, s, scanner, t);
      case Scanning => BufScan(s0, s, scanner, t);
      case Scanned => BufAtScan(s0, s, scanner, t);
    }
  }

  lemma StepInv(s0: seq<int>, s: Team, scanner: nat, t: nat) returns (scanner': nat)
    requires Inv(s0, s, scanner)
    ensures Inv(s0, Step(s, t), scanner')
  {
    scanner' := scanner;
    if t < |s.workers| {
      var s' := Step(s, t);
      var w := s.workers[t];
      assert WorkerInv(s0, s, t);
      if w.phase.Summing? || w.phase.Writing? || w.phase.Finished? {
        BufKept(s0, s, scanner, t);
      } else {
        scanner' := BufScans(s0, s, scanner, t);
      }
      forall u: nat | u < |s.workers| ensures WorkerInv(s0, s', u) {
        if u == t { OwnStep(s0, s, scanner, t); } else { OtherWorker(s0, s, s', t, u); }
      }
    }
  }

  lemma OwnStep(s0: seq<int>, s: Team, scanner: nat, t: nat)
    requires Inv(s0, s, scanner) && t < |s.workers|
    ensures WorkerInv(s0, Step(s, t), t)
  {
    assert WorkerInv(s0, s, t);
    if s.workers[t].phase.Scanned? {
      if AllPast(s, {Summing, Summed, Scanning}) {
        ScanGives(s0, s, scanner, t);
        hide BufInv, AllPast;
      }
    } else {
      hide BufInv, AllPast;
    }
  }

  // Past the last barrier, buf holds the sums up to the slice ends.
  lemma ScanGives(s0: seq<int>, s: Team, scanner: nat, t: nat)
    requires Inv(s0, s, scanner) && t < |s.workers|
    requires s.workers[t].phase.Scanned? && AllPast(s, {Summing, Summed, Scanning})
    ensures Begin(|s0|, |s.workers|, t) <= |s0|
    ensures (if t > 0 then s.buf[t - 1] else 0) == SumTo(s0, Begin(|s0|, |s.workers|, t))
  {
    assert WorkerInv(s0, s, t) && s.scanStarted && s.scanDone;
    if t > 0 {
      assert s.buf[t - 1] == Upto(s0, |s.workers|, t);
    } else {
      assert Begin(|s0|, |s.workers|, 0) == 0;
    }
  }

  lemma {:induction false} RunInv(s0: seq<int>, s: Team, scanner: nat, schedule: seq<nat>) returns (scanner': nat)
    requires Inv(s0, s, scanner)
    ensures Inv(s0, Run(s, schedule), scanner')
    decreases |schedule|
  {
    hide Inv, Step;
    if schedule == [] {
      scanner' := scanner;
    } else {
      var sc := StepInv(s0, s, scanner, schedule[0]);
      scanner' := RunInv(s0, Step(s, schedule[0]), sc, schedule[1..]);
    }
  }

  /**
   For every number of threads and every interleaving, once all threads have finished the array
   is the serial exclusive prefix sum; thread t returns the sum up to the end of its slice, so
   only the last thread is sure to return the total.
   */
  lemma TeamIsSerial(s0: seq<int>, buf: seq<int>, schedule: seq<nat>)
    requires |buf| > 0
    requires forall t | 0 <= t < |Run(Start(s0, buf), schedule).workers| :: Run(Start(s0, buf), schedule).workers[t].phase.Finished?
    ensures var s := Run(Start(s0, buf), schedule);
      && s.ary == Exclusive(s0) && |s.workers| == |buf|
      && (forall t: nat | t < |buf| :: s.workers[t].acc == Upto(s0, |buf|, t + 1))
      && s.workers[|buf| - 1].acc == SumTo(s0, |s0|)
  {
    StartInv(s0, buf);
    var sc := RunInv(s0, Start(s0, buf), 0, schedule);
    var s := Run(Start(s0, buf), schedule);
    RunSize(Start(s0, buf), schedule);
    hide Run, Start;
    forall t: nat | t < |buf| ensures s.workers[t].acc == Upto(s0, |buf|, t + 1) { assert WorkerInv(s0, s, t); }
    assert (|s0| / |buf|) * |buf| == |s0| - |s0| % |buf|;
    forall j | 0 <= j < |s0| ensures s.ary[j] == SumTo(s0, j) {
      var t := SlicesTile(|s0|, |buf|, j);
      assert WorkerInv(s0, s, t);
    }
  }

  lemma {:induction false} RunSize(s: Team, schedule: seq<nat>)
    ensures |Run(s, schedule).workers| == |s.workers|
    decreases |schedule|
  {
    if schedule != [] { RunSize(Step(s, schedule[0]), schedule[1..]); }
  }

  /** No thread waits for ever: until all have finished, some step changes the state. */
  lemma TeamMoves(s0: seq<int>, buf: seq<int>, schedule: seq<nat>)
    requires |buf| > 0
    requires exists t :: 0 <= t < |Run(Start(s0, buf), schedule).workers| && !Run(Start(s0, buf), schedule).workers[t].phase.Finished?
    ensures exists t: nat :: Step(Run(Start(s0, buf), schedule), t) != Run(Start(s0, buf), schedule)
  {
    StartInv(s0, buf);
    var sc := RunInv(s0, Start(s0, buf), 0, schedule);
    RunSize(Start(s0, buf), schedule);
    var s := Run(Start(s0, buf), schedule);
    hide Run, Start;
    var t :| 0 <= t < |buf| && !s.workers[t].phase.Finished?;
    if u :| 0 <= u < |buf| && s.workers[u].phase.Summing? {
      assert Step(s, u).workers[u] != s.workers[u];
    } else if u :| 0 <= u < |buf| && s.workers[u].phase.Scanning? {
      assert Step(s, u).workers[u] != s.workers[u];
    } else if u :| 0 <= u < |buf| && s.workers[u].phase.Summed? {
      assert Step(s, u).workers[u] != s.workers[u];
    } else {
      assert Step(s, t).workers[t] != s.workers[t];
    }
  }
}
