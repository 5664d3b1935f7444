/**
 stinger_consistency_check: what it reports, for any chains that end, and when it reports nothing.
 A set of flags stands for the result's bits.
 */
module ConsistencyCheck {
  import opened EdgeBlocks
  import opened EdgeStore
  import opened CsrBuild

  // ---------------------------------------------------------------- what a block's slots add up to

  // Live slots among the first n.
  function LiveIn(block: Block, n: nat): nat {
    if n == 0 then 0 else LiveIn(block, n - 1) + if Live(block, n - 1) then 1 else 0
  }

  // Those that lead to u.
  function LiveTo(block: Block, n: nat, u: int): nat {
    if n == 0 then 0 else LiveTo(block, n - 1, u) + if Live(block, n - 1) && block.edges[n - 1].neighbor == u then 1 else 0
  }

  function Earliest(block: Block, n: nat): int {
    if n == 0 then INT64_MAX
    else if !Live(block, n - 1) then Earliest(block, n - 1)
    else var e := block.edges[n - 1]; var x := if e.timeRecent < Earliest(block, n - 1) then e.timeRecent else Earliest(block, n - 1);
      if e.timeFirst < x then e.timeFirst else x
  }

  function Latest(block: Block, n: nat): int {
    if n == 0 then INT64_MIN
    else if !Live(block, n - 1) then Latest(block, n - 1)
    else var e := block.edges[n - 1]; var x := if e.timeRecent > Latest(block, n - 1) then e.timeRecent else Latest(block, n - 1);
      if e.timeFirst > x then e.timeFirst else x
  }

  predicate Zero(e: Slot) { e.neighbor == 0 && e.weight == 0 && e.timeRecent == 0 && e.timeFirst == 0 }

  // Above the high-water mark a slot is blank or zero.
  predicate Clean(block: Block) {
    forall k: nat | block.high <= k < |block.edges| :: block.edges[k].neighbor < 0 || Zero(block.edges[k])
  }

  // The flags that a block of i's chain raises.
  function BlockFlags(block: Block, i: int): set<int> {
    var n := LiveIn(block, EDGEBLOCKSIZE);
    (if block.vertexID != i then {0x2} else {}) + (if block.high > EDGEBLOCKSIZE then {0x4} else {})
    + (if n > 0 && n != block.numEdges then {0x8} else {}) + (if n > 0 && Latest(block, EDGEBLOCKSIZE) > block.largeStamp then {0x10} else {})
    + (if n > 0 && Earliest(block, EDGEBLOCKSIZE) < block.smallStamp then {0x20} else {}) + (if Clean(block) then {} else {0x40})
  }

  // The slots among the first n that hold an edge.
  ghost function LiveSet(block: Block, n: nat): set<nat> {
    set k: nat | k < n && k < |block.edges| && k < block.high && block.edges[k].neighbor >= 0
  }

  lemma {:induction false} LiveInIs(block: Block, n: nat)
    ensures LiveIn(block, n) == |LiveSet(block, n)|
  {
    if n > 0 {
      LiveInIs(block, n - 1);
      assert LiveSet(block, n) == LiveSet(block, n - 1) + if Live(block, n - 1) then {n - 1} else {};
    } else {
      assert LiveSet(block, 0) == {};
    }
  }

  lemma {:induction false} StampsLatest(block: Block, n: nat)
    requires n <= |block.edges| && INT64_MIN <= block.largeStamp
    ensures Latest(block, n) > block.largeStamp <==> exists k: nat :: k in LiveSet(block, n) && (block.edges[k].timeFirst > block.largeStamp || block.edges[k].timeRecent > block.largeStamp)
  {
    if n > 0 {
      StampsLatest(block, n - 1);
      var before, now := LiveSet(block, n - 1), LiveSet(block, n);
      assert forall k: nat :: k in now <==> k in before || (k == n - 1 && Live(block, n - 1));
      hide LiveSet;
    }
  }

  lemma {:induction false} StampsEarliest(block: Block, n: nat)
    requires n <= |block.edges| && block.smallStamp <= INT64_MAX
    ensures Earliest(block, n) < block.smallStamp <==> exists k: nat :: k in LiveSet(block, n) && (block.edges[k].timeFirst < block.smallStamp || block.edges[k].timeRecent < block.smallStamp)
  {
    if n > 0 {
      StampsEarliest(block, n - 1);
      var before, now := LiveSet(block, n - 1), LiveSet(block, n);
      assert forall k: nat :: k in now <==> k in before || (k == n - 1 && Live(block, n - 1));
      hide LiveSet;
    }
  }

  /** What each flag of a block says. */
  lemma BlockFlagsAre(block: Block, i: int)
    requires |block.edges| == 14 && INT64_MIN <= block.largeStamp && block.smallStamp <= INT64_MAX
    ensures 0x2 in BlockFlags(block, i) <==> block.vertexID != i
    ensures 0x4 in BlockFlags(block, i) <==> block.high > 14
    ensures 0x8 in BlockFlags(block, i) <==> LiveSet(block, 14) != {} && |LiveSet(block, 14)| != block.numEdges
    ensures 0x10 in BlockFlags(block, i) <==>
            exists k: nat :: k in LiveSet(block, 14) && (block.edges[k].timeFirst > block.largeStamp || block.edges[k].timeRecent > block.largeStamp)
    ensures 0x20 in BlockFlags(block, i) <==>
            exists k: nat :: k in LiveSet(block, 14) && (block.edges[k].timeFirst < block.smallStamp || block.edges[k].timeRecent < block.smallStamp)
    ensures 0x40 in BlockFlags(block, i) <==>
            exists k: nat :: block.high <= k < 14 && block.edges[k].neighbor >= 0 && block.edges[k] != Slot(0, 0, 0, 0)
    ensures BlockFlags(block, i) <= {0x2, 0x4, 0x8, 0x10, 0x20, 0x40}
  {
    hide *;
    LiveInIs(block, 14);
    StampsLatest(block, 14);
    StampsEarliest(block, 14);
    FlagsOf(block, i);
    CleanIs(block);
    SetSize(LiveSet(block, 14));
    var n := LiveIn(block, 14);
    var late, early := Latest(block, 14) > block.largeStamp, Earliest(block, 14) < block.smallStamp;
    if late { LiveFirst(block); }
    if early { LiveFirst(block); }
    SixFlags(block.vertexID != i, block.high > 14, n > 0 && n != block.numEdges, n > 0 && late, n > 0 && early, !Clean(block));
  }

  lemma LiveFirst(block: Block)
    requires |block.edges| == 14 && exists k: nat :: k in LiveSet(block, 14)
    ensures LiveIn(block, 14) > 0
  {
    LiveInIs(block, 14);
    SetSize(LiveSet(block, 14));
    hide LiveSet, LiveIn;
  }

  lemma SetSize(s: set<nat>)
    ensures |s| > 0 <==> s != {}
  {
  }

  lemma SixFlags(a: bool, b: bool, c: bool, d: bool, e: bool, f: bool)
    ensures var s: set<int> := (if a then {0x2} else {}) + (if b then {0x4} else {}) + (if c then {0x8} else {}) + (if d then {0x10} else {})
                    + (if e then {0x20} else {}) + (if !f then {} else {0x40});
      && (0x2 in s <==> a) && (0x4 in s <==> b) && (0x8 in s <==> c) && (0x10 in s <==> d) && (0x20 in s <==> e) && (0x40 in s <==> f)
      && s <= {0x2, 0x4, 0x8, 0x10, 0x20, 0x40}
  {
  }

  lemma FlagsOf(block: Block, i: int)
    ensures var n := LiveIn(block, 14);
      BlockFlags(block, i) ==
      (if block.vertexID != i then {0x2} else {}) + (if block.high > 14 then {0x4} else {})
      + (if n > 0 && n != block.numEdges then {0x8} else {}) + (if n > 0 && Latest(block, 14) > block.largeStamp then {0x10} else {})
      + (if n > 0 && Earliest(block, 14) < block.smallStamp then {0x20} else {}) + (if Clean(block) then {} else {0x40})
  {
    hide LiveIn, Latest, Earliest, Clean;
  }

  lemma CleanIs(block: Block)
    requires |block.edges| == 14
    ensures Clean(block) <==> !exists k: nat :: block.high <= k < 14 && block.edges[k].neighbor >= 0 && block.edges[k] != Slot(0, 0, 0, 0)
  {
  }

  // ---------------------------------------------------------------- what can be walked

  ghost predicate Walkable(s: Store, nv: nat) {
    && s.tail <= |s.pool| && |s.first| == |s.chains| == |s.outDegree| == |s.inDegree| == nv
    && (forall v: nat | v < nv :: Chain(s.pool, s.tail, s.first[v], s.chains[v]))
    && (forall b: nat | 0 < b < s.tail :: Scannable(s.pool[b], nv))
  }

  ghost predicate Chain(pool: seq<Block>, tail: nat, head: nat, chain: seq<nat>)
    requires tail <= |pool|
  {
    head == At(chain, 0) && forall p: nat | p < |chain| :: 0 < chain[p] < tail && pool[chain[p]].next == At(chain, p + 1)
  }

  // The block has all its slots, and its live ones lead to vertices, with 64-bit stamps.
  predicate Scannable(block: Block, nv: nat) {
    && |block.edges| == EDGEBLOCKSIZE
    && forall k: nat | k < EDGEBLOCKSIZE && Live(block, k) :: block.edges[k].neighbor < nv
  }

  function BlockAt(pool: seq<Block>, b: nat): Block { if b < |pool| then pool[b] else NewBlock(0, 0) }

  // Over the first n blocks of a chain.
  function ChainLive(pool: seq<Block>, chain: seq<nat>, n: nat): nat
    requires n <= |chain|
  {
    if n == 0 then 0 else ChainLive(pool, chain, n - 1) + LiveIn(BlockAt(pool, chain[n - 1]), EDGEBLOCKSIZE)
  }

  function ChainTo(pool: seq<Block>, chain: seq<nat>, n: nat, u: int): nat
    requires n <= |chain|
  {
    if n == 0 then 0 else ChainTo(pool, chain, n - 1, u) + LiveTo(BlockAt(pool, chain[n - 1]), EDGEBLOCKSIZE, u)
  }

  // Over the chains of the first n vertices.
  function AllTo(pool: seq<Block>, chains: seq<seq<nat>>, n: nat, u: int): nat
    requires n <= |chains|
  {
    if n == 0 then 0 else AllTo(pool, chains, n - 1, u) + ChainTo(pool, chains[n - 1], |chains[n - 1]|, u)
  }

  function ChainFlags(pool: seq<Block>, chain: seq<nat>, n: nat, i: int): set<int>
    requires n <= |chain|
  {
    if n == 0 then {} else ChainFlags(pool, chain, n - 1, i) + BlockFlags(BlockAt(pool, chain[n - 1]), i)
  }

  // The flags of v's chain, and of its out-degree.
  function VertexFlags(s: Store, v: nat): set<int>
    requires v < |s.chains| && v < |s.outDegree|
  {
    ChainFlags(s.pool, s.chains[v], |s.chains[v]|, v) + if ChainLive(s.pool, s.chains[v], |s.chains[v]|) != s.outDegree[v] then {0x80} else {}
  }

  function OutFlags(s: Store, n: nat): set<int>
    requires n <= |s.chains| && n <= |s.outDegree|
  {
    if n == 0 then {}
    else OutFlags(s, n - 1) + VertexFlags(s, n - 1)
  }

  function InFlags(s: Store, n: nat): set<int>
    requires n <= |s.inDegree|
  {
    if n == 0 then {} else InFlags(s, n - 1) + if AllTo(s.pool, s.chains, |s.chains|, n - 1) != s.inDegree[n - 1] then {0x100} else {}
  }

  // ---------------------------------------------------------------- the check

  lemma ScanNext(block: Block, j: nat)
    requires j < EDGEBLOCKSIZE == |block.edges|
    ensures LiveIn(block, j + 1) == LiveIn(block, j) + if Live(block, j) then 1 else 0
    ensures forall u :: LiveTo(block, j + 1, u) == LiveTo(block, j, u) + if Live(block, j) && block.edges[j].neighbor == u then 1 else 0
    ensures !Live(block, j) ==> Earliest(block, j + 1) == Earliest(block, j) && Latest(block, j + 1) == Latest(block, j)
    ensures Live(block, j) <==> j < block.high && block.edges[j].neighbor >= 0
  {
  }

  // Nothing is live beyond the high-water mark.
  lemma {:induction false} ScanRest(block: Block, j: nat, n: nat)
    requires j <= n && (j >= block.high || j == n)
    ensures LiveIn(block, n) == LiveIn(block, j) && Earliest(block, n) == Earliest(block, j) && Latest(block, n) == Latest(block, j)
    ensures forall u :: LiveTo(block, n, u) == LiveTo(block, j, u)
  {
    if j < n { ScanRest(block, j, n - 1); }
  }

  // One block: its live slots are counted, and its flags found.
  method CheckBlock(block: Block, i: nat, inDegree: array<int>) returns (numEdges: nat, flags: set<int>)
    requires Scannable(block, inDegree.Length)
    modifies inDegree
    ensures numEdges == LiveIn(block, EDGEBLOCKSIZE) && flags == BlockFlags(block, i)
    ensures forall u | 0 <= u < inDegree.Length :: inDegree[u] == old(inDegree[u]) + LiveTo(block, EDGEBLOCKSIZE, u)
  {
    hide LiveIn, LiveTo;
    ScanRest(block, 0, 0);
    flags := {};
    if block.vertexID != i { flags := flags + {0x2}; }
    if block.high > EDGEBLOCKSIZE { flags := flags + {0x4}; }
    ghost var inDegree0 := inDegree[..];
    ScanNone(block);
    numEdges := 0;
    var smallStamp, largeStamp := INT64_MAX, INT64_MIN;
    var j: nat := 0;
    while j < block.high && j < EDGEBLOCKSIZE
      invariant j <= EDGEBLOCKSIZE && (j <= block.high || j == 0)
      invariant numEdges == LiveIn(block, j) && smallStamp == Earliest(block, j) && largeStamp == Latest(block, j)
      invariant forall u | 0 <= u < inDegree.Length :: inDegree[u] == inDegree0[u] + LiveTo(block, j, u)
    {
      ScanNext(block, j);
      if block.edges[j].neighbor >= 0 {
        var e := block.edges[j];
        inDegree[e.neighbor] := inDegree[e.neighbor] + 1;
        numEdges := numEdges + 1;
        if e.timeRecent < smallStamp { smallStamp := e.timeRecent; }
        if e.timeFirst < smallStamp { smallStamp := e.timeFirst; }
        if e.timeRecent > largeStamp { largeStamp := e.timeRecent; }
        if e.timeFirst > largeStamp { largeStamp := e.timeFirst; }
      }
      j := j + 1;
    }
    ScanRest(block, j, EDGEBLOCKSIZE);
    if numEdges != 0 && numEdges != block.numEdges { flags := flags + {0x8}; }
    if numEdges != 0 && largeStamp > block.largeStamp { flags := flags + {0x10}; }
    if numEdges != 0 && smallStamp < block.smallStamp { flags := flags + {0x20}; }
    var clean := CheckRest(block, j);
    if !clean { flags := flags + {0x40}; }
  }

  lemma ScanNone(block: Block)
    ensures LiveIn(block, 0) == 0 && forall u :: LiveTo(block, 0, u) == 0
  {
  }

  // The slots above the high-water mark.
  method CheckRest(block: Block, j0: nat) returns (clean: bool)
    requires |block.edges| == EDGEBLOCKSIZE && j0 <= EDGEBLOCKSIZE && (j0 == block.high || (j0 == EDGEBLOCKSIZE < block.high))
    ensures clean <==> Clean(block)
  {
    clean := true;
    var j := j0;
    while j < EDGEBLOCKSIZE
      invariant j0 <= j <= EDGEBLOCKSIZE
      invariant clean <==> forall k: nat | block.high <= k < j :: block.edges[k].neighbor < 0 || Zero(block.edges[k])
    {
      if !(block.edges[j].neighbor < 0 || Zero(block.edges[j])) { clean := false; }
      j := j + 1;
    }
  }

  lemma WalkStep(s: Store, nv: nat, v: nat, p: nat)
    requires Walkable(s, nv) && v < nv && v < |s.chains| && v < |s.first|
    ensures p < |s.chains[v]| ==>
      var b := s.chains[v][p];
      At(s.chains[v], p) == b && 0 < b < |s.pool| && s.pool[b].next == At(s.chains[v], p + 1) && Scannable(s.pool[b], nv) && BlockAt(s.pool, b) == s.pool[b]
    ensures p >= |s.chains[v]| ==> At(s.chains[v], p) == 0
    ensures s.first[v] == At(s.chains[v], 0)
  {
    hide Scannable;
    assert Chain(s.pool, s.tail, s.first[v], s.chains[v]);
  }

  lemma WalkSizes(s: Store, nv: nat)
    requires Walkable(s, nv)
    ensures |s.first| == |s.chains| == |s.outDegree| == |s.inDegree| == nv
  {
  }

  lemma ChainNext(pool: seq<Block>, chain: seq<nat>, n: nat, i: nat)
    requires n < |chain|
    ensures ChainLive(pool, chain, n + 1) == ChainLive(pool, chain, n) + LiveIn(BlockAt(pool, chain[n]), EDGEBLOCKSIZE)
    ensures ChainFlags(pool, chain, n + 1, i) == ChainFlags(pool, chain, n, i) + BlockFlags(BlockAt(pool, chain[n]), i)
    ensures forall u :: ChainTo(pool, chain, n + 1, u) == ChainTo(pool, chain, n, u) + LiveTo(BlockAt(pool, chain[n]), EDGEBLOCKSIZE, u)
  {
    hide LiveIn, LiveTo, BlockFlags, BlockAt;
  }

  lemma ChainNone(pool: seq<Block>, chain: seq<nat>, i: nat)
    ensures ChainLive(pool, chain, 0) == 0 && ChainFlags(pool, chain, 0, i) == {} && forall u :: ChainTo(pool, chain, 0, u) == 0
  {
  }

  // One vertex's chain.
  method CheckVertex(g: Stinger, i: nat, inDegree: array<int>, ghost s: Store) returns (curOutDegree: nat, flags: set<int>)
    requires s == g.State() && Walkable(s, inDegree.Length) && i < g.first.Length && i < |s.chains| && i < inDegree.Length && inDegree != g.outDegree && inDegree != g.inDegree
    modifies inDegree
    ensures curOutDegree == ChainLive(s.pool, s.chains[i], |s.chains[i]|) && flags == ChainFlags(s.pool, s.chains[i], |s.chains[i]|, i)
    ensures forall u | 0 <= u < inDegree.Length :: inDegree[u] == old(inDegree[u]) + ChainTo(s.pool, s.chains[i], |s.chains[i]|, u)
  {
    hide Walkable, Chain, Scannable, LiveIn, LiveTo, BlockFlags, BlockAt, ChainLive, ChainTo, ChainFlags, At;
    ghost var nv, inDegree0, chain := inDegree.Length, inDegree[..], s.chains[i];
    WalkSizes(s, nv);
    WalkStep(s, nv, i, 0);
    ChainNone(s.pool, chain, i);
    curOutDegree, flags := 0, {};
    var b := g.first[i];
    ghost var p: nat := 0;
    while b != 0
      invariant p <= |chain| && b == At(chain, p)
      invariant curOutDegree == ChainLive(s.pool, chain, p) && flags == ChainFlags(s.pool, chain, p, i)
      invariant forall u | 0 <= u < inDegree.Length :: inDegree[u] == inDegree0[u] + ChainTo(s.pool, chain, p, u)
      decreases |chain| - p
    {
      WalkStep(s, nv, i, p);
      WalkStep(s, nv, i, p + 1);
      ChainNext(s.pool, chain, p, i);
      var numEdges, more := CheckBlock(g.pool[b], i, inDegree);
      curOutDegree := curOutDegree + numEdges;
      flags := flags + more;
      b := g.pool[b].next;
      p := p + 1;
    }
    WalkStep(s, nv, i, p);
  }

  lemma AllNext(s: Store, n: nat)
    requires n < |s.chains| && n < |s.outDegree|
    ensures OutFlags(s, n + 1) == OutFlags(s, n) + VertexFlags(s, n)
    ensures forall u :: AllTo(s.pool, s.chains, n + 1, u) == AllTo(s.pool, s.chains, n, u) + ChainTo(s.pool, s.chains[n], |s.chains[n]|, u)
  {
    hide VertexFlags, ChainTo;
  }

  lemma AllNone(s: Store)
    ensures OutFlags(s, 0) == {} && InFlags(s, 0) == {} && forall u :: AllTo(s.pool, s.chains, 0, u) == 0
  {
  }

  lemma InNext(s: Store, n: nat)
    requires n < |s.inDegree|
    ensures InFlags(s, n + 1) == InFlags(s, n) + if AllTo(s.pool, s.chains, |s.chains|, n) != s.inDegree[n] then {0x100} else {}
  {
    hide AllTo;
  }

  lemma VertexIs(s: Store, v: nat)
    requires v < |s.chains| && v < |s.outDegree|
    ensures VertexFlags(s, v) == ChainFlags(s.pool, s.chains[v], |s.chains[v]|, v) + if ChainLive(s.pool, s.chains[v], |s.chains[v]|) != s.outDegree[v] then {0x80} else {}
  {
  }

  // The blocks and degrees.
  method CheckBlocks(g: Stinger, ghost s: Store) returns (flags: set<int>)
    requires s == g.State() && Walkable(s, g.nv)
    ensures flags == OutFlags(s, |s.chains|) + InFlags(s, |s.inDegree|)
  {
    hide *;
    WalkSizes(s, g.nv);
    StateFields(g);
    AllNone(s);
    var inDegree := new int[g.nv](_ => 0);
    flags := {};
    var i := 0;
    while i < g.nv
      invariant 0 <= i <= g.nv && flags == OutFlags(s, i) && fresh(inDegree) && g.State() == s
      invariant forall u | 0 <= u < inDegree.Length :: inDegree[u] == AllTo(s.pool, s.chains, i, u)
    {
      var curOutDegree, more := CheckVertex(g, i, inDegree, s);
      StateFields(g);
      AllNext(s, i);
      VertexIs(s, i);
      flags := flags + more;
      if curOutDegree != g.outDegree[i] { flags := flags + {0x80}; }
      i := i + 1;
    }
    var more := CheckInDegrees(g, inDegree, s);
    flags := flags + more;
  }

  method CheckInDegrees(g: Stinger, inDegree: array<int>, ghost s: Store) returns (flags: set<int>)
    requires s == g.State() && |s.inDegree| == |s.chains| == inDegree.Length == g.nv
    requires forall u | 0 <= u < inDegree.Length :: inDegree[u] == AllTo(s.pool, s.chains, |s.chains|, u)
    ensures flags == InFlags(s, |s.inDegree|)
  {
    hide *;
    StateFields(g);
    AllNone(s);
    flags := {};
    var i := 0;
    while i < g.nv
      invariant 0 <= i <= g.nv && flags == InFlags(s, i)
    {
      InNext(s, i);
      if inDegree[i] != g.inDegree[i] { flags := flags + {0x100}; }
      i := i + 1;
    }
  }

  lemma StateFields(g: Stinger)
    ensures g.State().first == g.first[..] && g.State().outDegree == g.outDegree[..] && g.State().inDegree == g.inDegree[..] && g.State().pool == g.pool[..]
  {
  }

  // ---------------------------------------------------------------- counting keys

  ghost function LiveSel(pool: seq<Block>, b: nat, n: nat, sel: Key -> bool): nat
    requires b < |pool|
  {
    if n == 0 then 0
    else LiveSel(pool, b, n - 1, sel) + if Live(pool[b], n - 1) && sel(KeyAt(pool, b, n - 1)) then 1 else 0
  }

  ghost function InSel(loc: map<Key, Loc>, b: nat, n: nat, sel: Key -> bool): set<Key> {
    set key | key in loc && loc[key].b == b && loc[key].k < n && sel(key)
  }

  lemma {:induction false} LiveSelIs(pool: seq<Block>, tail: nat, loc: map<Key, Loc>, b: nat, n: nat, sel: Key -> bool)
    requires LocOk(pool, tail, loc) && 0 < b < tail <= |pool|
    ensures LiveSel(pool, b, n, sel) == |InSel(loc, b, n, sel)|
  {
    hide LocOk, InSel, Live, LiveAt, KeyAt;
    if n == 0 {
      InSelNone(loc, b, sel);
    } else {
      LiveSelIs(pool, tail, loc, b, n - 1, sel);
      InSelNext(pool, tail, loc, b, n - 1, sel);
    }
  }

  lemma InSelNone(loc: map<Key, Loc>, b: nat, sel: Key -> bool)
    ensures InSel(loc, b, 0, sel) == {}
  {
  }

  // What one more slot adds to the selection.
  lemma InSelNext(pool: seq<Block>, tail: nat, loc: map<Key, Loc>, b: nat, k: nat, sel: Key -> bool)
    requires LocOk(pool, tail, loc) && 0 < b < tail <= |pool|
    ensures Live(pool[b], k) ==> k < |pool[b].edges|
    ensures |InSel(loc, b, k + 1, sel)| == |InSel(loc, b, k, sel)| + if Live(pool[b], k) && sel(KeyAt(pool, b, k)) then 1 else 0
  {
    LiveKeyIs(pool, tail, loc, b, k);
    hide LocOk, Live, KeyAt;
    if Live(pool[b], k) && sel(KeyAt(pool, b, k)) {
      assert InSel(loc, b, k + 1, sel) == InSel(loc, b, k, sel) + {KeyAt(pool, b, k)};
    } else {
      assert InSel(loc, b, k + 1, sel) == InSel(loc, b, k, sel);
    }
  }

  // Keys whose block is among the first n of a chain.
  ghost function ChainSel(loc: map<Key, Loc>, chain: seq<nat>, n: nat, sel: Key -> bool): set<Key>
    requires n <= |chain|
  {
    set key | key in loc && loc[key].b in chain[..n] && sel(key)
  }

  lemma ChainSelNext(s: Store, nv: nat, ntypes: nat, chain: seq<nat>, n: nat, sel: Key -> bool)
    requires Sound(s, nv, ntypes) && n < |chain| && (forall p | 0 <= p < |chain| :: 0 < chain[p] < s.tail) && forall p, q | 0 <= p < q < |chain| :: chain[p] != chain[q]
    ensures s.tail <= |s.pool|
    ensures |ChainSel(s.loc, chain, n + 1, sel)| == |ChainSel(s.loc, chain, n, sel)| + LiveSel(s.pool, chain[n], EDGEBLOCKSIZE, sel)
  {
    hide Sound, LiveSel;
    SoundLoc(s, nv, ntypes);
    var b := chain[n];
    LiveSelIs(s.pool, s.tail, s.loc, b, EDGEBLOCKSIZE, sel);
    assert chain[..n + 1] == chain[..n] + [b];
    forall key | key in s.loc && s.loc[key].b == b ensures s.loc[key].k < EDGEBLOCKSIZE { SlotInBlock(s, nv, ntypes, key); }
    assert ChainSel(s.loc, chain, n + 1, sel) == ChainSel(s.loc, chain, n, sel) + InSel(s.loc, b, EDGEBLOCKSIZE, sel);
    assert b !in chain[..n];
  }

  lemma SoundLoc(s: Store, nv: nat, ntypes: nat)
    requires Sound(s, nv, ntypes)
    ensures 0 < s.tail <= |s.pool| && LocOk(s.pool, s.tail, s.loc)
  {
    hide LocOk, LinksOk, Scannable, InRange;
  }

  /** What is assumed of a store before its cached numbers are looked at. */
  ghost predicate Sound(s: Store, nv: nat, ntypes: nat) {
    && 0 < s.tail <= |s.pool| && |s.first| == |s.outDegree| == |s.inDegree| == |s.chains| == nv
    && LinksOk(s.pool, s.tail, s.first, s.chains) && LocOk(s.pool, s.tail, s.loc)
    && (forall b | 0 < b < s.tail :: Scannable(s.pool[b], nv) && InRange(s.pool[b]))
  }

  // Stamps are 64-bit words.
  predicate InRange(block: Block) {
    && INT64_MIN <= block.largeStamp <= INT64_MAX && INT64_MIN <= block.smallStamp <= INT64_MAX
    && forall k: nat | k < |block.edges| :: INT64_MIN <= block.edges[k].timeFirst <= INT64_MAX && INT64_MIN <= block.edges[k].timeRecent <= INT64_MAX
  }

  lemma SlotInBlock(s: Store, nv: nat, ntypes: nat, key: Key)
    requires Sound(s, nv, ntypes) && key in s.loc
    ensures 0 < s.loc[key].b < s.tail && s.loc[key].k < EDGEBLOCKSIZE && Live(s.pool[s.loc[key].b], s.loc[key].k)
    ensures 0 <= key.from < nv && s.loc[key].b in s.chains[key.from] && 0 <= key.to < nv
  {
    var l := s.loc[key];
    assert LiveAt(s.pool, s.tail, l.b, l.k) && KeyAt(s.pool, l.b, l.k) == key;
    assert Scannable(s.pool[l.b], nv);
    hide Chained, InRange;
  }

  lemma {:induction false} LiveInSel(pool: seq<Block>, b: nat, n: nat)
    requires b < |pool|
    ensures LiveIn(pool[b], n) == LiveSel(pool, b, n, (key: Key) => true)
  {
    if n > 0 { LiveInSel(pool, b, n - 1); }
  }

  lemma {:induction false} LiveToSel(pool: seq<Block>, b: nat, n: nat, u: int)
    requires b < |pool|
    ensures LiveTo(pool[b], n, u) == LiveSel(pool, b, n, (key: Key) => key.to == u)
  {
    if n > 0 { LiveToSel(pool, b, n - 1, u); }
  }

  lemma ChainOf(s: Store, nv: nat, ntypes: nat, v: nat)
    requires Sound(s, nv, ntypes) && v < nv
    ensures v < |s.chains| && v < |s.first| && s.tail <= |s.pool| && (forall p | 0 <= p < |s.chains[v]| :: 0 < s.chains[v][p] < s.tail && s.pool[s.chains[v][p]].vertexID == v)
    ensures (forall p, q | 0 <= p < q < |s.chains[v]| :: s.chains[v][p] != s.chains[v][q]) && Chain(s.pool, s.tail, s.first[v], s.chains[v])
  {
    assert Chained(s.pool, s.tail, s.first[v], s.chains[v], v);
    hide Scannable, InRange, LocOk;
  }

  lemma {:induction false} ChainLiveIs(s: Store, nv: nat, ntypes: nat, v: nat, n: nat)
    requires Sound(s, nv, ntypes) && v < nv && v < |s.chains| && n <= |s.chains[v]|
    ensures ChainLive(s.pool, s.chains[v], n) == |ChainSel(s.loc, s.chains[v], n, (key: Key) => true)|
  {
    hide Sound, LiveIn, LiveSel, Chain;
    if n == 0 {
      assert ChainSel(s.loc, s.chains[v], 0, (key: Key) => true) == {};
    } else {
      ChainLiveIs(s, nv, ntypes, v, n - 1);
      ChainOf(s, nv, ntypes, v);
      ChainSelNext(s, nv, ntypes, s.chains[v], n - 1, (key: Key) => true);
      LiveInSel(s.pool, s.chains[v][n - 1], EDGEBLOCKSIZE);
      hide ChainSel;
    }
  }

  lemma {:induction false} ChainToIs(s: Store, nv: nat, ntypes: nat, v: nat, n: nat, u: int)
    requires Sound(s, nv, ntypes) && v < nv && v < |s.chains| && n <= |s.chains[v]|
    ensures ChainTo(s.pool, s.chains[v], n, u) == |ChainSel(s.loc, s.chains[v], n, (key: Key) => key.to == u)|
  {
    hide Sound, LiveTo, LiveSel, Chain;
    if n == 0 {
      assert ChainSel(s.loc, s.chains[v], 0, (key: Key) => key.to == u) == {};
    } else {
      ChainToIs(s, nv, ntypes, v, n - 1, u);
      ChainOf(s, nv, ntypes, v);
      ChainSelNext(s, nv, ntypes, s.chains[v], n - 1, (key: Key) => key.to == u);
      LiveToSel(s.pool, s.chains[v][n - 1], EDGEBLOCKSIZE, u);
      hide ChainSel;
    }
  }

  // A key's block is in the chain of its source, and in no other.
  lemma BlockOfKey(s: Store, nv: nat, ntypes: nat, key: Key, v: nat)
    requires Sound(s, nv, ntypes) && key in s.loc && v < nv
    ensures v < |s.chains| && (s.loc[key].b in s.chains[v] <==> key.from == v)
  {
    SlotInBlock(s, nv, ntypes, key);
    ChainOf(s, nv, ntypes, v);
    assert KeyAt(s.pool, s.loc[key].b, s.loc[key].k) == key;
    hide Scannable, InRange, LinksOk;
  }

  /** What the check counts along a chain is the number of edges from the vertex. */
  lemma OutCount(s: Store, nv: nat, ntypes: nat, v: nat)
    requires Sound(s, nv, ntypes) && v < nv && v < |s.chains|
    ensures ChainLive(s.pool, s.chains[v], |s.chains[v]|) == |From(s.loc, v)|
  {
    hide Sound, ChainLive;
    var n := |s.chains[v]|;
    ChainLiveIs(s, nv, ntypes, v, n);
    assert s.chains[v][..n] == s.chains[v];
    forall key | key in s.loc ensures s.loc[key].b in s.chains[v][..n] <==> key.from == v { BlockOfKey(s, nv, ntypes, key, v); }
    assert ChainSel(s.loc, s.chains[v], n, (key: Key) => true) == From(s.loc, v);
  }

  ghost function ToBelow(loc: map<Key, Loc>, n: nat, u: int): set<Key> { set key | key in loc && 0 <= key.from < n && key.to == u }

  lemma {:induction false} AllToIs(s: Store, nv: nat, ntypes: nat, n: nat, u: int)
    requires Sound(s, nv, ntypes) && n <= nv && n <= |s.chains|
    ensures AllTo(s.pool, s.chains, n, u) == |ToBelow(s.loc, n, u)|
  {
    hide Sound, ChainTo;
    if n == 0 {
      assert ToBelow(s.loc, 0, u) == {};
    } else {
      AllToIs(s, nv, ntypes, n - 1, u);
      var v := n - 1;
      ChainToIs(s, nv, ntypes, v, |s.chains[v]|, u);
      BelowNext(s, nv, ntypes, v, u);
    }
  }

  // The edges to u from one more vertex.
  lemma BelowNext(s: Store, nv: nat, ntypes: nat, v: nat, u: int)
    requires Sound(s, nv, ntypes) && v < nv && v < |s.chains|
    ensures |ToBelow(s.loc, v + 1, u)| == |ToBelow(s.loc, v, u)| + |ChainSel(s.loc, s.chains[v], |s.chains[v]|, (key: Key) => key.to == u)|
  {
    hide Sound;
    var m := |s.chains[v]|;
    assert s.chains[v][..m] == s.chains[v];
    forall key | key in s.loc ensures s.loc[key].b in s.chains[v][..m] <==> key.from == v { BlockOfKey(s, nv, ntypes, key, v); }
    assert ToBelow(s.loc, v + 1, u) == ToBelow(s.loc, v, u) + ChainSel(s.loc, s.chains[v], m, (key: Key) => key.to == u);
  }

  /** And over all chains, the number of edges to a vertex. */
  lemma InCount(s: Store, nv: nat, ntypes: nat, u: int)
    requires Sound(s, nv, ntypes)
    ensures |s.chains| == nv && AllTo(s.pool, s.chains, nv, u) == |To(s.loc, u)|
  {
    AllToIs(s, nv, ntypes, nv, u);
    forall key | key in s.loc ensures 0 <= key.from < nv { SlotInBlock(s, nv, ntypes, key); }
    assert ToBelow(s.loc, nv, u) == To(s.loc, u);
    hide Sound, AllTo;
  }

  // ---------------------------------------------------------------- what no flag means

  lemma {:induction false} StampsReach(block: Block, n: nat)
    requires InRange(block) && n <= |block.edges|
    ensures Latest(block, n) <= block.largeStamp <==> forall k: nat | k < n && Live(block, k) :: block.edges[k].timeFirst <= block.largeStamp && block.edges[k].timeRecent <= block.largeStamp
    ensures block.smallStamp <= Earliest(block, n) <==> forall k: nat | k < n && Live(block, k) :: block.smallStamp <= block.edges[k].timeFirst && block.smallStamp <= block.edges[k].timeRecent
  {
    if n > 0 {
      StampsReach(block, n - 1);
      assert forall k: nat | k < n && Live(block, k) :: k < n - 1 || k == n - 1;
    }
  }

  lemma {:induction false} SomeLive(block: Block, n: nat, k: nat)
    requires k < n && Live(block, k)
    ensures LiveIn(block, n) > 0
  {
    if k < n - 1 { SomeLive(block, n - 1, k); }
  }

  // The block's header is right, except that one without edges may claim any number of them.
  ghost predicate Accepted(s: Store, b: nat)
    requires b < |s.pool|
  {
    var block := s.pool[b];
    && block.high <= EDGEBLOCKSIZE && Clean(block) && (|InBlock(s.loc, b)| > 0 ==> block.numEdges == |InBlock(s.loc, b)|)
    && forall k: nat | k < |block.edges| && Live(block, k) :: Covered(block, block.edges[k])
  }

  lemma BlockCount(s: Store, nv: nat, ntypes: nat, b: nat)
    requires Sound(s, nv, ntypes) && 0 < b < s.tail
    ensures b < |s.pool| && LiveIn(s.pool[b], EDGEBLOCKSIZE) == |InBlock(s.loc, b)|
  {
    hide LiveIn, LiveSel;
    LiveInSel(s.pool, b, EDGEBLOCKSIZE);
    LiveSelIs(s.pool, s.tail, s.loc, b, EDGEBLOCKSIZE, (key: Key) => true);
    forall key | key in s.loc ensures s.loc[key].k < EDGEBLOCKSIZE { SlotInBlock(s, nv, ntypes, key); }
    assert InSel(s.loc, b, EDGEBLOCKSIZE, (key: Key) => true) == InBlock(s.loc, b);
  }

  lemma BlockExact(s: Store, nv: nat, ntypes: nat, b: nat)
    requires Sound(s, nv, ntypes) && 0 < b < s.tail
    ensures b < |s.pool| && (BlockFlags(s.pool[b], s.pool[b].vertexID) == {} <==> Accepted(s, b))
  {
    BlockCount(s, nv, ntypes, b);
    var block := s.pool[b];
    assert Scannable(block, nv) && InRange(block);
    StampsReach(block, EDGEBLOCKSIZE);
    forall k: nat | k < |block.edges| && Live(block, k) ensures LiveIn(block, EDGEBLOCKSIZE) > 0 { SomeLive(block, EDGEBLOCKSIZE, k); }
    hide Sound, LiveIn, Earliest, Latest, InBlock, InRange, Clean, Live;
    FlagsNone(block, block.vertexID);
  }

  lemma FlagsNone(block: Block, i: int)
    ensures var n := LiveIn(block, EDGEBLOCKSIZE);
      BlockFlags(block, i) == {} <==>
        && block.vertexID == i && block.high <= EDGEBLOCKSIZE && (n > 0 ==> n == block.numEdges) && (n > 0 ==> Latest(block, EDGEBLOCKSIZE) <= block.largeStamp)
        && (n > 0 ==> block.smallStamp <= Earliest(block, EDGEBLOCKSIZE)) && Clean(block)
  {
    hide LiveIn, Earliest, Latest, Clean;
    var n := LiveIn(block, EDGEBLOCKSIZE);
    if block.vertexID != i { assert 0x2 in BlockFlags(block, i); }
    if block.high > EDGEBLOCKSIZE { assert 0x4 in BlockFlags(block, i); }
    if n > 0 && n != block.numEdges { assert 0x8 in BlockFlags(block, i); }
    if n > 0 && Latest(block, EDGEBLOCKSIZE) > block.largeStamp { assert 0x10 in BlockFlags(block, i); }
    if n > 0 && Earliest(block, EDGEBLOCKSIZE) < block.smallStamp { assert 0x20 in BlockFlags(block, i); }
    if !Clean(block) { assert 0x40 in BlockFlags(block, i); }
  }

  lemma {:induction false} ChainClear(pool: seq<Block>, chain: seq<nat>, n: nat, i: nat)
    requires n <= |chain|
    ensures ChainFlags(pool, chain, n, i) == {} <==> forall p: nat | p < n :: BlockFlags(BlockAt(pool, chain[p]), i) == {}
  {
    hide BlockFlags, BlockAt;
    if n > 0 {
      ChainClear(pool, chain, n - 1, i);
      Neither(ChainFlags(pool, chain, n - 1, i), BlockFlags(BlockAt(pool, chain[n - 1]), i));
    }
  }

  lemma Neither(a: set<int>, b: set<int>)
    ensures a + b == {} <==> a == {} && b == {}
  {
    if a + b == {} {
      assert a <= a + b && b <= a + b;
    }
  }

  lemma {:induction false} OutClear(s: Store, n: nat)
    requires n <= |s.chains| && n <= |s.outDegree|
    ensures OutFlags(s, n) == {} <==> forall v: nat | v < n :: VertexFlags(s, v) == {}
  {
    hide VertexFlags;
    if n > 0 {
      OutClear(s, n - 1);
      Neither(OutFlags(s, n - 1), VertexFlags(s, n - 1));
    }
  }

  lemma {:induction false} InClear(s: Store, n: nat)
    requires n <= |s.inDegree|
    ensures InFlags(s, n) == {} <==> forall u: nat | u < n :: AllTo(s.pool, s.chains, |s.chains|, u) == s.inDegree[u]
  {
    hide AllTo;
    if n > 0 {
      InClear(s, n - 1);
      Neither(InFlags(s, n - 1), if AllTo(s.pool, s.chains, |s.chains|, n - 1) != s.inDegree[n - 1] then {0x100} else {});
    }
  }

  lemma VertexClear(s: Store, nv: nat, ntypes: nat, v: nat)
    requires Sound(s, nv, ntypes) && v < nv && v < |s.chains| && v < |s.outDegree|
    ensures s.tail <= |s.pool|
    ensures VertexFlags(s, v) == {} <==> s.outDegree[v] == |From(s.loc, v)| && forall p: nat | p < |s.chains[v]| :: s.chains[v][p] < |s.pool| && Accepted(s, s.chains[v][p])
  {
    hide *;
    VertexIs(s, v);
    OutCount(s, nv, ntypes, v);
    ChainOf(s, nv, ntypes, v);
    SoundSizes(s, nv, ntypes);
    ChainClear(s.pool, s.chains[v], |s.chains[v]|, v);
    Neither(ChainFlags(s.pool, s.chains[v], |s.chains[v]|, v), if ChainLive(s.pool, s.chains[v], |s.chains[v]|) != s.outDegree[v] then {0x80} else {});
    forall p: nat | p < |s.chains[v]| ensures s.chains[v][p] < |s.pool| && (BlockFlags(BlockAt(s.pool, s.chains[v][p]), v) == {} <==> Accepted(s, s.chains[v][p])) {
      BlockExact(s, nv, ntypes, s.chains[v][p]);
      BlockIs(s.pool, s.chains[v][p]);
    }
  }

  lemma BlockIs(pool: seq<Block>, b: nat)
    requires b < |pool|
    ensures BlockAt(pool, b) == pool[b]
  {
  }

  lemma SoundSizes(s: Store, nv: nat, ntypes: nat)
    requires Sound(s, nv, ntypes)
    ensures 0 < s.tail <= |s.pool| && |s.first| == |s.outDegree| == |s.inDegree| == |s.chains| == nv
    ensures forall b: nat | 0 < b < s.tail :: 0 <= s.pool[b].vertexID < nv && b in s.chains[s.pool[b].vertexID]
  {
    hide LocOk, Chained, Scannable, InRange;
  }

  lemma SoundWalkable(s: Store, nv: nat, ntypes: nat)
    requires Sound(s, nv, ntypes)
    ensures Walkable(s, nv)
  {
    SoundSizes(s, nv, ntypes);
    forall v: nat | v < nv ensures Chain(s.pool, s.tail, s.first[v], s.chains[v]) { ChainOf(s, nv, ntypes, v); }
    hide LocOk, LinksOk, Chain, InRange;
  }

  /**
     On a store with sound links and no edge twice, no flag is raised exactly when all headers are
     right (an empty block's count apart) and all degrees are exact.
   */
  lemma NoFlags(s: Store, nv: nat, ntypes: nat)
    requires Sound(s, nv, ntypes)
    ensures s.tail <= |s.pool| && |s.chains| == |s.outDegree| == |s.inDegree| == nv
    ensures OutFlags(s, nv) + InFlags(s, nv) == {} <==> DegreesOk(s.outDegree, s.inDegree, s.loc) && forall b: nat | 0 < b < s.tail :: Accepted(s, b)
  {
    hide *;
    SoundSizes(s, nv, ntypes);
    OutClear(s, nv);
    InClear(s, nv);
    Neither(OutFlags(s, nv), InFlags(s, nv));
    forall v: nat | v < nv
      ensures VertexFlags(s, v) == {} <==> s.outDegree[v] == |From(s.loc, v)| && forall p: nat | p < |s.chains[v]| :: s.chains[v][p] < |s.pool| && Accepted(s, s.chains[v][p])
      ensures AllTo(s.pool, s.chains, nv, v) == |To(s.loc, v)|
    {
      VertexClear(s, nv, ntypes, v);
      InCount(s, nv, ntypes, v);
    }
    DegreesAre(s.outDegree, s.inDegree, s.loc);
    if OutFlags(s, nv) == {} {
      forall b: nat | 0 < b < s.tail ensures Accepted(s, b) {
        var v := s.pool[b].vertexID;
        var p :| 0 <= p < |s.chains[v]| && s.chains[v][p] == b;
      }
    }
    if forall b: nat | 0 < b < s.tail :: Accepted(s, b) {
      forall v: nat, p: nat | v < nv && p < |s.chains[v]| ensures s.chains[v][p] < |s.pool| && Accepted(s, s.chains[v][p]) { ChainOf(s, nv, ntypes, v); }
    }
  }

  lemma DegreesAre(outDegree: seq<int>, inDegree: seq<int>, loc: map<Key, Loc>)
    requires |outDegree| == |inDegree|
    ensures DegreesOk(outDegree, inDegree, loc) <==> forall v: nat | v < |outDegree| :: outDegree[v] == |From(loc, v)| && inDegree[v] == |To(loc, v)|
  {
    hide From, To;
  }

  /** A store as every operation leaves it raises no flag exactly when its stamp ranges cover its edges. */
  lemma StoreAccepted(s: Store, nv: nat, ntypes: nat)
    requires StoreOk(s, nv, ntypes) && forall b: nat | 0 < b < s.tail && b < |s.pool| :: InRange(s.pool[b])
    ensures Sound(s, nv, ntypes) && |s.chains| == |s.outDegree| == |s.inDegree| == nv
    ensures OutFlags(s, nv) + InFlags(s, nv) == {} <==> RangesOk(s.pool, s.tail)
  {
    hide InRange, Accepted, OutFlags, InFlags, LinksOk, EtaOk, LocOk, DegreesOk, BlockOk, Scannable, Ranged;
    StoreElim(s, nv, ntypes);
    forall b: nat | 0 < b < s.tail ensures b < |s.pool| && Scannable(s.pool[b], nv) && (Accepted(s, b) <==> Ranged(s.pool[b])) { BlockAccepted(s, nv, ntypes, b); }
    NoFlags(s, nv, ntypes);
  }

  lemma BlockAccepted(s: Store, nv: nat, ntypes: nat, b: nat)
    requires StoreOk(s, nv, ntypes) && 0 < b < s.tail
    ensures b < |s.pool| && Scannable(s.pool[b], nv) && (Accepted(s, b) <==> Ranged(s.pool[b]))
  {
    hide *;
    BlockFacts(s, nv, ntypes, b);
    StoreElim(s, nv, ntypes);
    HeaderAccepted(s.pool[b], nv, ntypes);
    CountAt(s.pool, s.tail, s.loc, b);
    AcceptedIs(s, b);
  }

  lemma HeaderAccepted(block: Block, nv: nat, ntypes: nat)
    requires BlockOk(block, nv, ntypes)
    ensures Scannable(block, nv) && block.high <= EDGEBLOCKSIZE && Clean(block)
  {
    forall k: nat | k < EDGEBLOCKSIZE
      ensures Live(block, k) ==> block.edges[k].neighbor < nv
      ensures k >= block.high ==> block.edges[k] == Slot(0, 0, 0, 0)
    {
      assert SlotOk(block, k, nv);
    }
    hide BlockOk, SlotOk;
  }

  lemma CountAt(pool: seq<Block>, tail: nat, loc: map<Key, Loc>, b: nat)
    requires CountsOk(pool, tail, loc) && 0 < b < tail
    ensures b < |pool| && pool[b].numEdges == |InBlock(loc, b)|
  {
    hide InBlock;
  }

  lemma AcceptedIs(s: Store, b: nat)
    requires b < |s.pool| && s.pool[b].high <= EDGEBLOCKSIZE && Clean(s.pool[b]) && s.pool[b].numEdges == |InBlock(s.loc, b)|
    ensures Accepted(s, b) <==> Ranged(s.pool[b])
  {
    hide Clean, Covered, InBlock;
  }

  // ---------------------------------------------------------------- what is reported of a store

  // No edge of the block is stamped above its range, and none below.
  ghost predicate Upper(block: Block) {
    forall k: nat | Live(block, k) :: block.edges[k].timeFirst <= block.largeStamp && block.edges[k].timeRecent <= block.largeStamp
  }

  ghost predicate Lower(block: Block) {
    forall k: nat | Live(block, k) :: block.smallStamp <= block.edges[k].timeFirst && block.smallStamp <= block.edges[k].timeRecent
  }

  lemma BlockReport(s: Store, nv: nat, ntypes: nat, b: nat)
    requires StoreOk(s, nv, ntypes) && Sound(s, nv, ntypes) && 0 < b < s.tail
    ensures b < |s.pool| && BlockFlags(s.pool[b], s.pool[b].vertexID) == (if Upper(s.pool[b]) then {} else {0x10}) + (if Lower(s.pool[b]) then {} else {0x20})
  {
    BlockFacts(s, nv, ntypes, b);
    StoreElim(s, nv, ntypes);
    BlockCount(s, nv, ntypes, b);
    var block := s.pool[b];
    assert InRange(block);
    HeaderAccepted(block, nv, ntypes);
    CountAt(s.pool, s.tail, s.loc, b);
    StampsReach(block, EDGEBLOCKSIZE);
    forall k: nat | Live(block, k) ensures k < EDGEBLOCKSIZE && LiveIn(block, EDGEBLOCKSIZE) > 0 { SomeLive(block, EDGEBLOCKSIZE, k); }
    hide StoreOk, Sound, LiveIn, Earliest, Latest, InBlock, InRange, Clean, Live;
  }

  lemma {:induction false} ChainHas(pool: seq<Block>, chain: seq<nat>, n: nat, i: nat, x: int)
    requires n <= |chain|
    ensures x in ChainFlags(pool, chain, n, i) <==> exists p: nat :: p < n && x in BlockFlags(BlockAt(pool, chain[p]), i)
  {
    hide BlockFlags, BlockAt;
    if n > 0 { ChainHas(pool, chain, n - 1, i, x); }
  }

  lemma {:induction false} OutHas(s: Store, n: nat, x: int)
    requires n <= |s.chains| && n <= |s.outDegree|
    ensures x in OutFlags(s, n) <==> exists v: nat :: v < n && x in VertexFlags(s, v)
  {
    hide VertexFlags;
    if n > 0 { OutHas(s, n - 1, x); }
  }

  lemma VertexReport(s: Store, nv: nat, ntypes: nat, v: nat, x: int)
    requires StoreOk(s, nv, ntypes) && Sound(s, nv, ntypes) && v < nv
    ensures v < |s.chains| && v < |s.outDegree| && s.tail <= |s.pool|
    ensures x in VertexFlags(s, v) <==> exists p: nat :: p < |s.chains[v]| && s.chains[v][p] < |s.pool| && x in BlockFlags(s.pool[s.chains[v][p]], v)
  {
    hide *;
    SoundSizes(s, nv, ntypes);
    VertexIs(s, v);
    OutCount(s, nv, ntypes, v);
    ChainOf(s, nv, ntypes, v);
    StoreElim(s, nv, ntypes);
    DegreesAre(s.outDegree, s.inDegree, s.loc);
    ChainHas(s.pool, s.chains[v], |s.chains[v]|, v, x);
    forall p: nat | p < |s.chains[v]| ensures s.chains[v][p] < |s.pool| && BlockAt(s.pool, s.chains[v][p]) == s.pool[s.chains[v][p]] { BlockIs(s.pool, s.chains[v][p]); }
  }

  /** What the check reports of a store as the operations leave it: edges above and edges below their block's range. */
  lemma StoreReport(s: Store, nv: nat, ntypes: nat, x: int)
    requires StoreOk(s, nv, ntypes) && Sound(s, nv, ntypes)
    ensures s.tail <= |s.pool| && |s.chains| == |s.outDegree| == |s.inDegree| == nv
    ensures x in OutFlags(s, nv) + InFlags(s, nv) <==>
      (x == 0x10 && exists b: nat :: 0 < b < s.tail && !Upper(s.pool[b])) || (x == 0x20 && exists b: nat :: 0 < b < s.tail && !Lower(s.pool[b]))
  {
    hide *;
    SoundSizes(s, nv, ntypes);
    StoreElim(s, nv, ntypes);
    DegreesAre(s.outDegree, s.inDegree, s.loc);
    InClear(s, nv);
    forall u: nat | u < nv ensures AllTo(s.pool, s.chains, |s.chains|, u) == s.inDegree[u] { InCount(s, nv, ntypes, u); }
    OutHas(s, nv, x);
    forall v: nat | v < nv
      ensures x in VertexFlags(s, v) <==> exists p: nat :: p < |s.chains[v]| && s.chains[v][p] < |s.pool| && x in BlockFlags(s.pool[s.chains[v][p]], v)
    {
      VertexReport(s, nv, ntypes, v, x);
    }
    forall v: nat, p: nat | v < nv && p < |s.chains[v]| ensures 0 < s.chains[v][p] < s.tail && s.pool[s.chains[v][p]].vertexID == v { ChainOf(s, nv, ntypes, v); }
    forall b: nat | 0 < b < s.tail
      ensures BlockFlags(s.pool[b], s.pool[b].vertexID) == (if Upper(s.pool[b]) then {} else {0x10}) + (if Lower(s.pool[b]) then {} else {0x20})
      ensures 0 <= s.pool[b].vertexID < nv && exists p: nat :: p < |s.chains[s.pool[b].vertexID]| && s.chains[s.pool[b].vertexID][p] == b
    {
      BlockReport(s, nv, ntypes, b);
      var v := s.pool[b].vertexID;
      var p :| 0 <= p < |s.chains[v]| && s.chains[v][p] == b;
    }
    BlocksReport(s, nv, x);
  }

  // Over all blocks, by way of the chains.
  lemma BlocksReport(s: Store, nv: nat, x: int)
    requires s.tail <= |s.pool| && |s.chains| == |s.outDegree| == nv
    requires forall v: nat | v < nv ::
               x in VertexFlags(s, v) <==> exists p: nat :: p < |s.chains[v]| && s.chains[v][p] < |s.pool| && x in BlockFlags(s.pool[s.chains[v][p]], v)
    requires forall v: nat, p: nat | v < nv && p < |s.chains[v]| :: 0 < s.chains[v][p] < s.tail && s.pool[s.chains[v][p]].vertexID == v
    requires forall b: nat | 0 < b < s.tail ::
               && BlockFlags(s.pool[b], s.pool[b].vertexID) == (if Upper(s.pool[b]) then {} else {0x10}) + (if Lower(s.pool[b]) then {} else {0x20})
               && 0 <= s.pool[b].vertexID < nv && exists p: nat :: p < |s.chains[s.pool[b].vertexID]| && s.chains[s.pool[b].vertexID][p] == b
    ensures (exists v: nat :: v < nv && x in VertexFlags(s, v)) <==>
      (x == 0x10 && exists b: nat :: 0 < b < s.tail && !Upper(s.pool[b])) || (x == 0x20 && exists b: nat :: 0 < b < s.tail && !Lower(s.pool[b]))
  {
    hide *;
    if v: nat :| v < nv && x in VertexFlags(s, v) {
      var p: nat :| p < |s.chains[v]| && s.chains[v][p] < |s.pool| && x in BlockFlags(s.pool[s.chains[v][p]], v);
      var b := s.chains[v][p];
      assert 0 < b < s.tail;
    }
    if b: nat :| 0 < b < s.tail && ((x == 0x10 && !Upper(s.pool[b])) || (x == 0x20 && !Lower(s.pool[b]))) {
      var v := s.pool[b].vertexID;
      var p: nat :| p < |s.chains[v]| && s.chains[v][p] == b;
      assert x in BlockFlags(s.pool[s.chains[v][p]], v);
      assert x in VertexFlags(s, v);
    }
  }

  // ---------------------------------------------------------------- a stamp that no range takes in

  // The block after the two insertions.
  function Stranded(): Block { Filled(Filled(NewBlock(0, 0), 0, 1, 7, 10), 1, 2, 7, -5) }

  lemma StrandedIs()
    ensures NewBlock(0, 0).edges[0] == Slot(0, 0, 0, 0) && |Filled(NewBlock(0, 0), 0, 1, 7, 10).edges| == EDGEBLOCKSIZE
    ensures Live(Filled(NewBlock(0, 0), 0, 1, 7, 10), 0) && !Live(Filled(NewBlock(0, 0), 0, 1, 7, 10), 1)
    ensures Filled(NewBlock(0, 0), 0, 1, 7, 10).high == 1 && Filled(NewBlock(0, 0), 0, 1, 7, 10).etype == 0
    ensures InRange(Stranded()) && Upper(Stranded()) && !Lower(Stranded())
  {
    var first, block := Filled(NewBlock(0, 0), 0, 1, 7, 10), Stranded();
    assert first.smallStamp == first.largeStamp == 10 && block.smallStamp == block.largeStamp == 10;
    assert forall k: nat | k < EDGEBLOCKSIZE :: block.edges[k] == if k == 0 then Slot(1, 7, 10, 10) else if k == 1 then Slot(2, 7, -5, -5) else Slot(0, 0, 0, 0);
    assert block.high == 2 && Live(block, 1) && block.edges[1].timeFirst == -5;
  }

  /**
   Two edges of one vertex, inserted at time 10 and at time -5: the second insertion leaves the range
   at 10, and the check reports an edge stamped before its block's range.
   */
  method NegativeStamp() returns (g: Stinger, flags: set<int>)
    ensures g.Valid() && g.Contents() == map[Key(0, 0, 1) := Val(7, 10, 10), Key(0, 0, 2) := Val(7, -5, -5)]
    ensures !g.RangesCover() && flags == {0x20}
  {
    hide *;
    TwoInserted();
    g := new Stinger(3, 1, 4);
    ghost var pool0 := g.pool[..];
    var rtn, aborted;
    rtn, aborted := g.InsertEdge_(0, 0, 1, 7, 10);
    FirstPlaced(g, pool0);
    ghost var pool1 := g.pool[..];
    rtn, aborted := g.InsertEdge_(0, 0, 2, 7, -5);
    SecondPlaced(g, pool1);
    StrandedIs();
    ghost var s := g.State();
    CoverIs(g);
    assert s.pool[1] == Stranded();
    StoreAccepted(s, g.nv, g.ntypes);
    SoundWalkable(s, g.nv, g.ntypes);
    flags := CheckBlocks(g, s);
    WalkSizes(s, g.nv);
    forall x ensures x in flags <==> x == 0x20 { StoreReport(s, g.nv, g.ntypes, x); }
    assert 0x20 in flags;
    CoverIs(g);
  }

  lemma TwoInserted()
    ensures 7 != MARKER && 10 != MARKER && -5 != MARKER
    ensures Inserted(map[], Key(0, 0, 1), 7, 10) == map[Key(0, 0, 1) := Val(7, 10, 10)]
    ensures Inserted(map[Key(0, 0, 1) := Val(7, 10, 10)], Key(0, 0, 2), 7, -5) == map[Key(0, 0, 1) := Val(7, 10, 10), Key(0, 0, 2) := Val(7, -5, -5)]
  {
  }

  lemma FirstPlaced(g: Stinger, pool0: seq<Block>)
    requires Places(pool0, 1, Key(0, 0, 1), 7, 10, g.pool[..], g.tail, g.loc)
    ensures g.tail == 2 <= g.pool.Length && g.pool[1] == Filled(NewBlock(0, 0), 0, 1, 7, 10)
  {
    hide Filled, NewBlock;
  }

  lemma SecondPlaced(g: Stinger, pool1: seq<Block>)
    requires 1 < |pool1| && pool1[1] == Filled(NewBlock(0, 0), 0, 1, 7, 10) && Places(pool1, 2, Key(0, 0, 2), 7, -5, g.pool[..], g.tail, g.loc)
    ensures g.tail == 2 <= g.pool.Length && g.pool[1] == Stranded()
  {
    StrandedIs();
    assert pool1[1].vertexID == 0;
    hide Filled, NewBlock;
    assert !Full(pool1[1], 0);
  }

  lemma CoverIs(g: Stinger)
    ensures g.State().pool == g.pool[..] && g.State().tail == g.tail && (g.Valid() ==> StoreOk(g.State(), g.nv, g.ntypes))
    ensures g.RangesCover() <==> RangesOk(g.pool[..], g.tail)
  {
  }
}
