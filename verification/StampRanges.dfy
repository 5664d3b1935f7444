/**
 The stamp ranges under every interleaving: what a call reads without the lock stays true, because
 ranges only grow while no block is filled from empty.
 */
module StampRanges {
  import opened InsertProtocol
  import opened InsertInvariant
  import opened InsertSteps
  import opened InsertRuns
  import opened InsertMoves
  import opened StampProtocol
  import opened StampInvariant
  import EdgeBlocks

  // The lower stamp of a block: where it is locked, what will be written back.
  function Low(meta: map<nat, Meta>, owner: map<nat, nat>, calls: seq<Call>, b: nat): int {
    if b in owner && owner[b] < |calls| then calls[owner[b]].held else MetaOf(meta, b).smallStamp
  }

  // The call is done with the header of its block.
  predicate Stamped(m: Mem, th: Thread, c: Call) {
    c.aux.Core? && th.to != m.from && (th.pc.SetNext? || th.pc.Register? || th.pc.Link? || th.pc.Restore? || th.pc.Done?)
  }

  // Its edge is stored, or about to be linked with its block.
  ghost predicate Stored(m: Mem, a: History, th: Thread, c: Call) {
    Stamping(c) || Stamped(m, th, c) ==> OwnsBlock(th) || (th.tmp in a.chain && Holds(m, th.tmp, th.k, th.to))
  }

  // The comparison without sign does not take the call's stamp for a late one: it is not negative, or its
  // block's range began below zero.
  predicate Seen(base: map<nat, Meta>, th: Thread) {
    th.ts >= 0 || (th.tmp in base && base[th.tmp].smallStamp < 0)
  }

  // What the call has read of its block's range still holds.
  predicate InRange(m: Mem, meta: map<nat, Meta>, owner: map<nat, nat>, th: Thread, c: Call, calls: seq<Call>, base: map<nat, Meta>) {
    var low, large := Low(meta, owner, calls, th.tmp), MetaOf(meta, th.tmp).largeStamp;
    && (Stamped(m, th, c) ==> th.ts <= large && (Seen(base, th) ==> low <= th.ts))
    && (c.aux.ReadLarge? && Seen(base, th) ==> low <= th.ts)
    && (Latched(c) ==> c.held <= th.ts)
    && (c.aux.SetLarge? ==> large < th.ts)
    && (c.aux.Unlatch? ==> th.ts <= large)
  }

  // The ranges that blocks had are still covered.
  ghost predicate Covering(m: Mem, a: History, meta: map<nat, Meta>, owner: map<nat, nat>, calls: seq<Call>, base: map<nat, Meta>) {
    forall b: nat | b in base ::
      OnChain(m, a, b) && Low(meta, owner, calls, b) <= base[b].smallStamp && base[b].largeStamp <= MetaOf(meta, b).largeStamp
  }

  ghost predicate RangeInv(x: Whole, a: History, owner: map<nat, nat>, base: map<nat, Meta>) {
    && WholeInv(x, a, owner)
    && (forall t: nat | t < |x.s.threads| && t < |x.calls| ::
          Stored(x.s.m, a, x.s.threads[t], x.calls[t]) && InRange(x.s.m, x.meta, owner, x.s.threads[t], x.calls[t], x.calls, base))
    && Covering(x.s.m, a, x.meta, owner, x.calls, base)
  }

  // ---------------------------------------------------------------- ranges only grow

  predicate Wider(meta: map<nat, Meta>, owner: map<nat, nat>, calls: seq<Call>, meta': map<nat, Meta>, owner': map<nat, nat>, calls': seq<Call>, b: nat) {
    && Low(meta', owner', calls', b) <= Low(meta, owner, calls, b)
    && MetaOf(meta, b).largeStamp <= MetaOf(meta', b).largeStamp
  }

  // What one access does to the lower and upper stamp, and to the call.
  lemma HeaderRange(e: Meta, ts: int, c: Call)
    requires !c.aux.Core? && !c.aux.AddIn?
    ensures var (e', c') := Header(e, ts, c);
      && (!c.aux.PutLarge? ==> e.largeStamp <= e'.largeStamp || c.aux.SetLarge?)
      && (!c.aux.PutLarge? && !c.aux.SetLarge? ==> e'.largeStamp == e.largeStamp)
      && (c.aux.SetLarge? ==> e'.largeStamp == ts && c'.held == c.held && c'.aux.Unlatch?)
      && (c.aux.LockSmall? ==> c'.held <= e.smallStamp && c'.held <= ts && c'.aux.TestLarge?)
      && (c.aux.TestLarge? ==> c'.held == c.held && (if ts > e.largeStamp then c'.aux.SetLarge? else c'.aux.Unlatch?))
      && (c.aux.Unlatch? ==> e'.smallStamp == c.held && c'.aux.Core?)
      && (c.aux.ReadSmall? ==> if EdgeBlocks.UnsignedLess(ts, e.smallStamp) then c'.aux.LockSmall? else c'.aux.ReadLarge?)
      && (c.aux.ReadSmall? && c'.aux.ReadLarge? && (ts >= 0 || e.smallStamp < 0) ==> e.smallStamp <= ts)
      && (c.aux.ReadLarge? ==> if ts > e.largeStamp then c'.aux.LockSmall? else c'.aux.Core?)
      && (!c.aux.PutSmall? && !c.aux.LockSmall? && !c.aux.Unlatch? ==> e'.smallStamp == e.smallStamp)
      && (c.aux.AddCount? || c.aux.PutSmall? || c.aux.PutLarge? ==> c'.aux.PutSmall? || c'.aux.PutLarge? || c'.aux.Core?)
  {
  }

  lemma HeadsWider(x: Whole, a: History, owner: map<nat, nat>, base: map<nat, Meta>, t: nat, e: Meta, c': Call, b: nat)
    requires RangeInv(x, a, owner, base) && Heads(x, t, e, c') && (Putting(x.calls[t]) ==> b != x.s.threads[t].tmp)
    ensures t < |x.s.threads| && t < |x.calls|
    ensures Wider(x.meta, owner, x.calls, x.meta[x.s.threads[t].tmp := e], Latch(x, owner, t), x.calls[t := c'], b)
    ensures b in owner && owner[b] != t ==> MetaOf(x.meta[x.s.threads[t].tmp := e], b).largeStamp == MetaOf(x.meta, b).largeStamp
  {
    hide *;
    RangeAt(x, a, owner, base, t, e, c');
    var th, c, d := x.s.threads[t], x.calls[t], x.s.threads[t].tmp;
    HeaderRange(MetaOf(x.meta, d), th.ts, c);
    MetaPut(x.meta, d, e);
    LatchIs(x, owner, t, e, c');
    LatchedIs(c);
    PutIs(c);
    OwnerAt(x.s.threads, x.calls, x.meta, owner, b);
    if Latched(c) { StampCall(x.s.m, a, x.meta, owner, t, th, c); }
    InRangeIs(x.s.m, x.meta, owner, th, c, x.calls, base);
    WiderIntro(x.meta, owner, x.calls, x.meta[d := e], Latch(x, owner, t), x.calls[t := c'], b);
    LowIs(x.meta, owner, x.calls, b);
    LowIs(x.meta[d := e], Latch(x, owner, t), x.calls[t := c'], b);
  }

  lemma LowIs(meta: map<nat, Meta>, owner: map<nat, nat>, calls: seq<Call>, b: nat)
    ensures Low(meta, owner, calls, b) == if b in owner && owner[b] < |calls| then calls[owner[b]].held else MetaOf(meta, b).smallStamp
  {
  }

  lemma WiderIntro(meta: map<nat, Meta>, owner: map<nat, nat>, calls: seq<Call>, meta': map<nat, Meta>, owner': map<nat, nat>, calls': seq<Call>, b: nat)
    ensures Wider(meta, owner, calls, meta', owner', calls', b) <==>
            Low(meta', owner', calls', b) <= Low(meta, owner, calls, b) && MetaOf(meta, b).largeStamp <= MetaOf(meta', b).largeStamp
  {
  }

  lemma InRangeIs(m: Mem, meta: map<nat, Meta>, owner: map<nat, nat>, th: Thread, c: Call, calls: seq<Call>, base: map<nat, Meta>)
    ensures InRange(m, meta, owner, th, c, calls, base) <==>
      var low, large := Low(meta, owner, calls, th.tmp), MetaOf(meta, th.tmp).largeStamp;
      && (Stamped(m, th, c) ==> th.ts <= large && (Seen(base, th) ==> low <= th.ts)) && (c.aux.ReadLarge? && Seen(base, th) ==> low <= th.ts)
      && (Latched(c) ==> c.held <= th.ts) && (c.aux.SetLarge? ==> large < th.ts) && (c.aux.Unlatch? ==> th.ts <= large)
  {
    hide Low, MetaOf;
  }

  // The facts about the call that takes a step on a header.
  lemma RangeAt(x: Whole, a: History, owner: map<nat, nat>, base: map<nat, Meta>, t: nat, e: Meta, c': Call)
    requires RangeInv(x, a, owner, base) && Heads(x, t, e, c')
    ensures WholeInv(x, a, owner) && t < |x.s.threads| && t < |x.calls| && !x.calls[t].aux.Core? && !x.calls[t].aux.AddIn?
    ensures (e, c') == Header(MetaOf(x.meta, x.s.threads[t].tmp), x.s.threads[t].ts, x.calls[t])
    ensures Stored(x.s.m, a, x.s.threads[t], x.calls[t]) && InRange(x.s.m, x.meta, owner, x.s.threads[t], x.calls[t], x.calls, base)
    ensures OwnerOk(x.s.threads, x.calls, x.meta, owner) && CallOk(x.s.m, a, x.meta, owner, t, x.s.threads[t], x.calls[t])
    ensures Covering(x.s.m, a, x.meta, owner, x.calls, base)
    ensures x.calls[t].aux.LockSmall? ==> MetaOf(x.meta, x.s.threads[t].tmp).smallStamp != MARKER
    ensures x.calls[t].aux.ReadSmall? ==> MetaOf(x.meta, x.s.threads[t].tmp).smallStamp != MARKER
  {
    WholeAt(x, a, owner, t);
    hide WholeInv, Header, Stored, InRange, OwnerOk, CallOk, Covering, Blocked;
  }

  // What n accesses of a call on its own make of a header.
  function Alone(e: Meta, ts: int, c: Call, n: nat): (Meta, Call) {
    if n == 0 then (e, c) else var (e', c') := Alone(e, ts, c, n - 1); Header(e', ts, c')
  }

  /**
   A call on its own: its stamp is in the range afterwards exactly unless it is negative and the range
   was not, and the header is then that of an update by one caller.
   */
  lemma AloneExactly(e: Meta, ts: int, held: int, block: EdgeBlocks.Block)
    requires e.smallStamp != MARKER && ts != MARKER && e.smallStamp <= e.largeStamp
    requires block.smallStamp == e.smallStamp && block.largeStamp == e.largeStamp
    ensures var (e', c') := Alone(e, ts, Call(ReadSmall, held), 6);
      && c'.aux.Core? && e'.numEdges == e.numEdges
      && (e'.smallStamp <= ts <= e'.largeStamp <==> !(ts < 0 <= e.smallStamp))
      && e'.smallStamp == EdgeBlocks.Stamped(block, ts).smallStamp && e'.largeStamp == EdgeBlocks.Stamped(block, ts).largeStamp
  {
    var c := Call(ReadSmall, held);
    var (e1, c1) := Header(e, ts, c);
    var (e2, c2) := Header(e1, ts, c1);
    var (e3, c3) := Header(e2, ts, c2);
    var (e4, c4) := Header(e3, ts, c3);
    var (e5, c5) := Header(e4, ts, c4);
    assert Alone(e, ts, c, 1) == (e1, c1) && Alone(e, ts, c, 2) == (e2, c2) && Alone(e, ts, c, 3) == (e3, c3);
    assert Alone(e, ts, c, 4) == (e4, c4) && Alone(e, ts, c, 5) == (e5, c5) && Alone(e, ts, c, 6) == Header(e5, ts, c5);
  }

  // ---------------------------------------------------------------- the other calls

  // No call has its edge in a block that another one fills from empty.
  lemma PutApart(x: Whole, a: History, owner: map<nat, nat>, base: map<nat, Meta>, t: nat, u: nat)
    requires RangeInv(x, a, owner, base) && t < |x.s.threads| && u < |x.s.threads| && t < |x.calls| && u < |x.calls| && u != t
    requires Putting(x.calls[t]) && (Stamping(x.calls[u]) || Stamped(x.s.m, x.s.threads[u], x.calls[u]))
    ensures x.s.threads[t].tmp != x.s.threads[u].tmp
  {
    hide *;
    RangeCall(x, a, owner, base, t);
    RangeCall(x, a, owner, base, u);
    var b := x.s.threads[t].tmp;
    if x.s.threads[u].tmp == b {
      PutCall(x.s.m, a, x.meta, owner, t, x.s.threads[t], x.calls[t]);
      StoredIs(x.s.m, a, x.s.threads[u], x.calls[u]);
      BlockInHand(x.s, a, t);
      BlockInHand(x.s, a, u);
      OwnsIs(x.s.threads[t]);
      OwnsIs(x.s.threads[u]);
      HoldsIs(x.s.m, b, x.s.threads[u].k, x.s.threads[u].to);
      OnKindIs(x.s.m, a, b);
      if OwnsBlock(x.s.threads[u]) && OwnsBlock(x.s.threads[t]) { OwnersApart(x.s, a, t, u); }
    }
  }

  // Two calls do not both have the end of the chain.
  lemma OwnersApart(s: State, a: History, t: nat, u: nat)
    requires Inv(s, a) && t < |s.threads| && u < |s.threads| && OwnsBlock(s.threads[t]) && OwnsBlock(s.threads[u])
    ensures t == u
  {
    hide *;
    EndOwned(s, a, t);
    EndOwned(s, a, u);
  }

  lemma EndOwned(s: State, a: History, t: nat)
    requires Inv(s, a) && t < |s.threads| && OwnsBlock(s.threads[t])
    ensures EndLoc(a.chain) in a.ptrOwner && a.ptrOwner[EndLoc(a.chain)] == t
  {
    hide *;
    InvThread(s, a, t);
    InvPool(s, a);
    OwnerEnd(s.m, a, t, s.threads[t]);
    EndPtr(s.m, a, s.threads[t].ptr);
  }

  lemma OwnerEnd(m: Mem, a: History, t: nat, th: Thread)
    requires ThreadInv(m, a, t, th) && OwnsBlock(th)
    ensures LocOk(a.chain, th.ptr) && LocEnd(a.chain, th.ptr) == |a.chain| && th.ptr in a.ptrOwner && a.ptrOwner[th.ptr] == t
  {
    hide LookInv, FindInv, LocInv, Clean, Scanned, LocOk, LocEnd;
  }

  lemma EndPtr(m: Mem, a: History, l: Loc)
    requires PoolInv(m, a) && LocOk(a.chain, l) && LocEnd(a.chain, l) == |a.chain|
    ensures l == EndLoc(a.chain)
  {
    if a.chain != [] { PosAt(a.chain, |a.chain| - 1); }
  }

  lemma RangeCall(x: Whole, a: History, owner: map<nat, nat>, base: map<nat, Meta>, t: nat)
    requires RangeInv(x, a, owner, base) && t < |x.s.threads|
    ensures t < |x.calls| == |x.s.threads| && WholeInv(x, a, owner) && Inv(x.s, a) && CallOk(x.s.m, a, x.meta, owner, t, x.s.threads[t], x.calls[t])
    ensures Stored(x.s.m, a, x.s.threads[t], x.calls[t]) && InRange(x.s.m, x.meta, owner, x.s.threads[t], x.calls[t], x.calls, base)
    ensures OwnerOk(x.s.threads, x.calls, x.meta, owner) && Covering(x.s.m, a, x.meta, owner, x.calls, base)
  {
    WholeAt(x, a, owner, t);
    hide WholeInv, Stored, InRange, OwnerOk, CallOk, Inv, Covering;
  }

  lemma StoredIs(m: Mem, a: History, th: Thread, c: Call)
    ensures Stored(m, a, th, c) <==>
      (Stamping(c) || Stamped(m, th, c) ==> OwnsBlock(th) || (th.tmp in a.chain && Holds(m, th.tmp, th.k, th.to)))
  {
  }

  lemma HoldsIs(m: Mem, b: nat, k: nat, to: int)
    ensures Holds(m, b, k, to) <==> Kind(m, b) && k < Blk(m, b).high && k < BLOCK_SIZE && At(m, b, k).neighbor >= 0 && At(m, b, k).neighbor == to
  {
  }

  // What stays of another call when ranges grow.
  lemma RangeKept(m: Mem, meta: map<nat, Meta>, owner: map<nat, nat>, calls: seq<Call>, th: Thread, c: Call,
                  m': Mem, meta': map<nat, Meta>, owner': map<nat, nat>, calls': seq<Call>, base: map<nat, Meta>)
    requires InRange(m, meta, owner, th, c, calls, base) && m'.from == m.from
    requires Stamped(m, th, c) || Stamping(c) ==> Wider(meta, owner, calls, meta', owner', calls', th.tmp)
    requires Latched(c) ==> MetaOf(meta', th.tmp).largeStamp == MetaOf(meta, th.tmp).largeStamp
    ensures InRange(m', meta', owner', th, c, calls', base)
  {
    hide Low, MetaOf;
  }

  // ---------------------------------------------------------------- a step on the header

  lemma HeadsOwnRange(x: Whole, a: History, owner: map<nat, nat>, base: map<nat, Meta>, t: nat, e: Meta, c': Call)
    requires RangeInv(x, a, owner, base) && Heads(x, t, e, c')
    ensures t < |x.s.threads| && t < |x.calls| && Stored(x.s.m, a, x.s.threads[t], c')
    ensures InRange(x.s.m, x.meta[x.s.threads[t].tmp := e], Latch(x, owner, t), x.s.threads[t], c', x.calls[t := c'], base)
  {
    hide *;
    RangeAt(x, a, owner, base, t, e, c');
    var m, th, c, d := x.s.m, x.s.threads[t], x.calls[t], x.s.threads[t].tmp;
    var meta', owner', calls' := x.meta[d := e], Latch(x, owner, t), x.calls[t := c'];
    CallPlace(m, a, x.meta, owner, t, th, c);
    PlaceIs(th, c);
    HeaderRange(MetaOf(x.meta, d), th.ts, c);
    MetaPut(x.meta, d, e);
    LatchIs(x, owner, t, e, c');
    LatchedIs(c);
    LatchedIs(c');
    PutIs(c);
    StampingIs(c);
    StampingIs(c');
    OwnerAt(x.s.threads, x.calls, x.meta, owner, d);
    if Latched(c) { StampCall(m, a, x.meta, owner, t, th, c); }
    InRangeIs(m, x.meta, owner, th, c, x.calls, base);
    InRangeIs(m, meta', owner', th, c', calls', base);
    LowIs(x.meta, owner, x.calls, d);
    LowIs(meta', owner', calls', d);
    StoredIs(m, a, th, c);
    StoredIs(m, a, th, c');
    StampedIs(m, th, c');
    if d in base { CoveringAt(m, a, x.meta, owner, x.calls, base, d); }
    SeenIs(base, th);
  }

  lemma SeenIs(base: map<nat, Meta>, th: Thread)
    ensures Seen(base, th) <==> th.ts >= 0 || (th.tmp in base && base[th.tmp].smallStamp < 0)
  {
  }

  lemma PlaceIs(th: Thread, c: Call)
    requires PlaceOk(th, c)
    ensures c.aux.AddCount? || c.aux.PutSmall? || c.aux.PutLarge? ==> th.pc.OutDeg?
  {
  }

  lemma StampingIs(c: Call)
    ensures Stamping(c) <==> c.aux.ReadSmall? || c.aux.ReadLarge? || c.aux.LockSmall? || c.aux.TestLarge? || c.aux.SetLarge? || c.aux.Unlatch?
  {
  }

  lemma StampedIs(m: Mem, th: Thread, c: Call)
    ensures Stamped(m, th, c) <==> c.aux.Core? && th.to != m.from && (th.pc.SetNext? || th.pc.Register? || th.pc.Link? || th.pc.Restore? || th.pc.Done?)
  {
  }

  lemma HeadsRange(x: Whole, a: History, owner: map<nat, nat>, base: map<nat, Meta>, t: nat, e: Meta, c': Call)
    requires RangeInv(x, a, owner, base) && Heads(x, t, e, c')
    ensures RangeInv(Go(x, t), a, Latch(x, owner, t), base)
  {
    hide *;
    HeadsIs(x, t, e, c');
    RangeCall(x, a, owner, base, t);
    HeadsKeep(x, a, owner, t, e, c');
    HeadsOwnRange(x, a, owner, base, t, e, c');
    var meta', owner', calls' := x.meta[x.s.threads[t].tmp := e], Latch(x, owner, t), x.calls[t := c'];
    forall u: nat | u < |x.s.threads|
      ensures Stored(x.s.m, a, x.s.threads[u], calls'[u]) && InRange(x.s.m, meta', owner', x.s.threads[u], calls'[u], calls', base)
    {
      if u != t { HeadsOtherRange(x, a, owner, base, t, e, c', u); }
    }
    HeadsCovering(x, a, owner, base, t, e, c');
    RangeIntro(Go(x, t), a, owner', base);
  }

  lemma HeadsOtherRange(x: Whole, a: History, owner: map<nat, nat>, base: map<nat, Meta>, t: nat, e: Meta, c': Call, u: nat)
    requires RangeInv(x, a, owner, base) && Heads(x, t, e, c') && u < |x.s.threads| && u != t
    ensures t < |x.s.threads| && u < |x.calls| && Stored(x.s.m, a, x.s.threads[u], x.calls[u])
    ensures InRange(x.s.m, x.meta[x.s.threads[t].tmp := e], Latch(x, owner, t), x.s.threads[u], x.calls[u], x.calls[t := c'], base)
  {
    hide *;
    HeadsIs(x, t, e, c');
    RangeCall(x, a, owner, base, t);
    RangeCall(x, a, owner, base, u);
    var m, th, c, d := x.s.m, x.s.threads[u], x.calls[u], x.s.threads[t].tmp;
    LatchedIs(c);
    StampingIs(c);
    if Stamping(c) || Stamped(m, th, c) {
      if Putting(x.calls[t]) { PutApart(x, a, owner, base, t, u); }
      HeadsWider(x, a, owner, base, t, e, c', th.tmp);
    }
    if Latched(c) { StampCall(m, a, x.meta, owner, u, th, c); }
    RangeKept(m, x.meta, owner, x.calls, th, c, m, x.meta[d := e], Latch(x, owner, t), x.calls[t := c'], base);
  }

  lemma HeadsCovering(x: Whole, a: History, owner: map<nat, nat>, base: map<nat, Meta>, t: nat, e: Meta, c': Call)
    requires RangeInv(x, a, owner, base) && Heads(x, t, e, c')
    ensures t < |x.s.threads| && t < |x.calls|
    ensures Covering(x.s.m, a, x.meta[x.s.threads[t].tmp := e], Latch(x, owner, t), x.calls[t := c'], base)
  {
    hide *;
    HeadsIs(x, t, e, c');
    RangeCall(x, a, owner, base, t);
    var d := x.s.threads[t].tmp;
    var meta', owner', calls' := x.meta[d := e], Latch(x, owner, t), x.calls[t := c'];
    forall b: nat | b in base
      ensures OnChain(x.s.m, a, b) && Low(meta', owner', calls', b) <= base[b].smallStamp && base[b].largeStamp <= MetaOf(meta', b).largeStamp
    {
      CoveringAt(x.s.m, a, x.meta, owner, x.calls, base, b);
      if Putting(x.calls[t]) { PutUnused(x, a, owner, t, b); }
      HeadsWider(x, a, owner, base, t, e, c', b);
      WiderIntro(x.meta, owner, x.calls, meta', owner', calls', b);
    }
    CoveringIntro(x.s.m, a, meta', owner', calls', base);
  }

  // A used block is not filled from empty.
  lemma PutUnused(x: Whole, a: History, owner: map<nat, nat>, t: nat, b: nat)
    requires WholeInv(x, a, owner) && t < |x.s.threads| && t < |x.calls| && Putting(x.calls[t]) && OnChain(x.s.m, a, b)
    ensures b != x.s.threads[t].tmp
  {
    hide *;
    WholeAt(x, a, owner, t);
    PutCall(x.s.m, a, x.meta, owner, t, x.s.threads[t], x.calls[t]);
    BlockInHand(x.s, a, t);
    OwnsIs(x.s.threads[t]);
    OnChainIs(x.s.m, a, b);
  }

  lemma CoveringAt(m: Mem, a: History, meta: map<nat, Meta>, owner: map<nat, nat>, calls: seq<Call>, base: map<nat, Meta>, b: nat)
    requires Covering(m, a, meta, owner, calls, base) && b in base
    ensures OnChain(m, a, b) && Low(meta, owner, calls, b) <= base[b].smallStamp && base[b].largeStamp <= MetaOf(meta, b).largeStamp
  {
    hide OnChain, Low, MetaOf;
  }

  lemma CoveringIntro(m: Mem, a: History, meta: map<nat, Meta>, owner: map<nat, nat>, calls: seq<Call>, base: map<nat, Meta>)
    requires forall b: nat | b in base ::
               OnChain(m, a, b) && Low(meta, owner, calls, b) <= base[b].smallStamp && base[b].largeStamp <= MetaOf(meta, b).largeStamp
    ensures Covering(m, a, meta, owner, calls, base)
  {
    hide OnChain, Low, MetaOf;
  }

  lemma RangeIntro(x: Whole, a: History, owner: map<nat, nat>, base: map<nat, Meta>)
    requires WholeInv(x, a, owner) && Covering(x.s.m, a, x.meta, owner, x.calls, base)
    requires forall t: nat | t < |x.s.threads| && t < |x.calls| ::
               Stored(x.s.m, a, x.s.threads[t], x.calls[t]) && InRange(x.s.m, x.meta, owner, x.s.threads[t], x.calls[t], x.calls, base)
    ensures RangeInv(x, a, owner, base)
  {
    hide WholeInv, Covering, Stored, InRange;
  }

  // ---------------------------------------------------------------- a step of the insert protocol

  // A step takes no edge away.
  lemma HoldsKept(s: State, a: History, t: nat, b: nat, k: nat, to: int)
    requires Inv(s, a) && Enabled(s, t) && b in a.chain && Holds(s.m, b, k, to)
    ensures b in Record(s, a, t).chain && Holds(Step(s, t).m, b, k, to) && Step(s, t).m.from == s.m.from
  {
    hide *;
    EnabledThread(s, t);
    ChainInPool(s, a);
    StepLeaves(s, a, t);
    StepIs(s, t);
    TidyLeaves(s, a, t, Step(s, t).m, Record(s, a, t), b);
    ActNeighbor(s.m, s.threads[t], b, k);
    HoldsIs(s.m, b, k, to);
    HoldsIs(Step(s, t).m, b, k, to);
    if s.threads[t].pc.WriteNb? && b == s.threads[t].tmp && k == s.threads[t].k { WritesFree(s, a, t); }
  }

  lemma WritesFree(s: State, a: History, t: nat)
    requires Inv(s, a) && t < |s.threads| && s.threads[t].pc.WriteNb?
    ensures var th := s.threads[t]; th.tmp in a.chain ==> !Filled(s.m, th.tmp, th.k)
    ensures var th := s.threads[t]; !Filled(s.m, th.tmp, th.k) ==> th.k >= Blk(s.m, th.tmp).high || th.k >= BLOCK_SIZE || At(s.m, th.tmp, th.k).neighbor < 0
  {
    hide PoolInv, PtrInv, LockInv, ClaimInv, ClaimInit, OrderInv, UniqueInv, CountInv, CallsInv, LocInv, LookInv, FindInv, AppendInv, Clean, Scanned, Full, LockedBy;
    assert ThreadInv(s.m, a, t, s.threads[t]);
  }

  // A call that comes to the stamps has stored its edge.
  lemma StoresFirst(s: State, a: History, t: nat)
    requires Inv(s, a) && Enabled(s, t) && (s.threads[t].pc.Existing? || s.threads[t].pc.Unlock?)
    ensures var th := s.threads[t]; var th' := Act(s.m, th).1;
      && th'.tmp == th.tmp && th'.k == th.k && th'.to == th.to && th'.ts == th.ts
      && (OwnsBlock(th') || (th.tmp in a.chain && Holds(s.m, th.tmp, th.k, th.to)))
  {
    hide PoolInv, PtrInv, LockInv, ClaimInv, ClaimInit, OrderInv, UniqueInv, CountInv, CallsInv, LocInv, LookInv, FindInv, AppendInv, Clean, Scanned, Full, Private,
         SetWord, SetSlot, SetHigh, Begin, Scan1, Scan2, NextSlot;
    assert ThreadInv(s.m, a, t, s.threads[t]);
  }

  // After the stamps a call goes on to link its block, to give back its slot, or to return.
  lemma GoesOn(s: State, a: History, t: nat)
    requires Inv(s, a) && Enabled(s, t) && !s.threads[t].pc.Existing? && !s.threads[t].pc.Unlock? && s.threads[t].to != s.m.from
    ensures var th := s.threads[t]; var th' := Act(s.m, th).1;
      (th'.pc.SetNext? || th'.pc.Register? || th'.pc.Link? || th'.pc.Restore? || th'.pc.Done?) ==>
        && (th.pc.SetNext? || th.pc.Register? || th.pc.Link? || th.pc.Restore?)
        && th'.tmp == th.tmp && th'.k == th.k && th'.to == th.to && th'.ts == th.ts
        && (th.pc.Link? || th.pc.Restore? || OwnsBlock(th'))
        && (th.pc.Link? ==> th.tmp in Record(s, a, t).chain && Holds(Step(s, t).m, th.tmp, th.k, th.to))
        && (th.pc.Restore? ==> !OwnsBlock(th))
  {
    hide PoolInv, PtrInv, LockInv, ClaimInv, ClaimInit, OrderInv, UniqueInv, CountInv, CallsInv, LocInv, LookInv, FindInv, UpdateInv, Clean, Scanned, Full;
    assert ThreadInv(s.m, a, t, s.threads[t]);
  }

  lemma ActKeepsCall(m: Mem, th: Thread)
    ensures Act(m, th).1.to == th.to && Act(m, th).1.ts == th.ts
  {
    hide Kind, Word, At, Blk, SetWord, SetSlot, SetHigh;
  }

  lemma SameRange(s: State, meta: map<nat, Meta>, meta': map<nat, Meta>, owner: map<nat, nat>, calls: seq<Call>, t: nat, aux: Aux, b: nat)
    requires HeadersKept(s, meta, meta') && b != s.m.tail && t < |calls|
    ensures Low(meta', owner, calls[t := calls[t].(aux := aux)], b) == Low(meta, owner, calls, b) && MetaOf(meta', b) == MetaOf(meta, b)
    ensures Wider(meta, owner, calls, meta', owner, calls[t := calls[t].(aux := aux)], b)
  {
    hide MetaOf;
  }

  // The block in hand is in the pool.
  lemma StoredHere(s: State, a: History, u: nat, c: Call)
    requires Inv(s, a) && u < |s.threads| && Stored(s.m, a, s.threads[u], c) && (Stamping(c) || Stamped(s.m, s.threads[u], c))
    ensures s.threads[u].tmp in s.m.blocks && s.threads[u].tmp < s.m.tail
  {
    hide *;
    StoredIs(s.m, a, s.threads[u], c);
    BlockInHand(s, a, u);
    ChainInPool(s, a);
    BlocksBelow(s, a);
  }

  lemma CoreOther(x: Whole, a: History, owner: map<nat, nat>, base: map<nat, Meta>, t: nat, u: nat)
    requires RangeInv(x, a, owner, base) && Able(x, t) && x.calls[t].aux.Core? && u < |x.s.threads| && u != t
    ensures u < |Go(x, t).calls| && Stored(Go(x, t).s.m, Record(x.s, a, t), x.s.threads[u], x.calls[u])
    ensures InRange(Go(x, t).s.m, Go(x, t).meta, owner, x.s.threads[u], x.calls[u], Go(x, t).calls, base)
  {
    hide *;
    RangeCall(x, a, owner, base, u);
    CoreIs(x, t);
    var x', th, c := Go(x, t), x.s.threads[u], x.calls[u];
    FromKept(x.s, a, t);
    StampedIs(x.s.m, th, c);
    StampedIs(x'.s.m, th, c);
    StoredIs(x.s.m, a, th, c);
    StoredIs(x'.s.m, Record(x.s, a, t), th, c);
    if Stamping(c) || Stamped(x.s.m, th, c) {
      StoredHere(x.s, a, u, c);
      SameRange(x.s, x.meta, x'.meta, owner, x.calls, t, After(x.s.threads[t].pc), th.tmp);
      if !OwnsBlock(th) { HoldsKept(x.s, a, t, th.tmp, th.k, th.to); }
    }
    LatchedIs(c);
    StampingIs(c);
    RangeKept(x.s.m, x.meta, owner, x.calls, th, c, x'.s.m, x'.meta, owner, x'.calls, base);
  }

  lemma FromKept(s: State, a: History, t: nat)
    requires Enabled(s, t)
    ensures Step(s, t).m.from == s.m.from
  {
    hide Begin, Scan1, Scan2, NextSlot, Return, Kind, Word, At, Blk, Blocked;
  }

  lemma CoreOwn(x: Whole, a: History, owner: map<nat, nat>, base: map<nat, Meta>, t: nat)
    requires RangeInv(x, a, owner, base) && Able(x, t) && x.calls[t].aux.Core?
    ensures t < |Go(x, t).calls| && t < |Go(x, t).s.threads|
    ensures Stored(Go(x, t).s.m, Record(x.s, a, t), Go(x, t).s.threads[t], Go(x, t).calls[t])
    ensures InRange(Go(x, t).s.m, Go(x, t).meta, owner, Go(x, t).s.threads[t], Go(x, t).calls[t], Go(x, t).calls, base)
  {
    hide *;
    CoreIs(x, t);
    RangeCall(x, a, owner, base, t);
    StepIs(x.s, t);
    FromKept(x.s, a, t);
    var x', a', th, c := Go(x, t), Record(x.s, a, t), x.s.threads[t], x.calls[t];
    var th', c' := x'.s.threads[t], x'.calls[t];
    ActKeepsCall(x.s.m, th);
    AfterIs(th.pc);
    StampedIs(x.s.m, th, c);
    StampedIs(x'.s.m, th', c');
    StoredIs(x.s.m, a, th, c);
    StoredIs(x'.s.m, a', th', c');
    StampingIs(c');
    LatchedIs(c');
    InRangeIs(x.s.m, x.meta, owner, th, c, x.calls, base);
    InRangeIs(x'.s.m, x'.meta, owner, th', c', x'.calls, base);
    if th.pc.Existing? || th.pc.Unlock? {
      StoresFirst(x.s, a, t);
      if !OwnsBlock(th') { HoldsKept(x.s, a, t, th.tmp, th.k, th.to); }
    } else if th.to != x.s.m.from {
      GoesOn(x.s, a, t);
      SeenIs(base, th);
      SeenIs(base, th');
      if Stamped(x'.s.m, th', c') {
        StoredHere(x.s, a, t, c);
        SameRange(x.s, x.meta, x'.meta, owner, x.calls, t, After(th.pc), th.tmp);
        if th.pc.Restore? { HoldsKept(x.s, a, t, th.tmp, th.k, th.to); }
      }
    }
  }

  lemma AfterIs(pc: Pc)
    ensures After(pc) == if pc.WriteNb? then AddCount else if pc.OutDeg? then AddIn else if pc.Existing? || pc.Unlock? then ReadSmall else Core
  {
  }

  lemma CoreCovering(x: Whole, a: History, owner: map<nat, nat>, base: map<nat, Meta>, t: nat)
    requires RangeInv(x, a, owner, base) && Able(x, t) && x.calls[t].aux.Core?
    ensures Covering(Go(x, t).s.m, Record(x.s, a, t), Go(x, t).meta, owner, Go(x, t).calls, base)
  {
    hide *;
    CoreIs(x, t);
    RangeCall(x, a, owner, base, t);
    StepLeaves(x.s, a, t);
    ChainInPool(x.s, a);
    var x', a' := Go(x, t), Record(x.s, a, t);
    forall b: nat | b in base
      ensures OnChain(x'.s.m, a', b) && Low(x'.meta, owner, x'.calls, b) <= base[b].smallStamp && base[b].largeStamp <= MetaOf(x'.meta, b).largeStamp
    {
      CoveringAt(x.s.m, a, x.meta, owner, x.calls, base, b);
      OnChainIs(x.s.m, a, b);
      OnChainIs(x'.s.m, a', b);
      TidyLeaves(x.s, a, t, x'.s.m, a', b);
      SameRange(x.s, x.meta, x'.meta, owner, x.calls, t, After(x.s.threads[t].pc), b);
    }
    CoveringIntro(x'.s.m, a', x'.meta, owner, x'.calls, base);
  }

  lemma CoreRange(x: Whole, a: History, owner: map<nat, nat>, base: map<nat, Meta>, t: nat)
    requires RangeInv(x, a, owner, base) && Able(x, t) && x.calls[t].aux.Core?
    ensures RangeInv(Go(x, t), Record(x.s, a, t), owner, base)
  {
    hide *;
    CoreIs(x, t);
    RangeCall(x, a, owner, base, t);
    StepIs(x.s, t);
    CoreKeeps(x, a, owner, t);
    CoreCovering(x, a, owner, base, t);
    var x', a' := Go(x, t), Record(x.s, a, t);
    forall u: nat | u < |x'.s.threads| && u < |x'.calls|
      ensures Stored(x'.s.m, a', x'.s.threads[u], x'.calls[u]) && InRange(x'.s.m, x'.meta, owner, x'.s.threads[u], x'.calls[u], x'.calls, base)
    {
      if u == t { CoreOwn(x, a, owner, base, t); } else { CoreOther(x, a, owner, base, t, u); }
    }
    RangeIntro(x', a', owner, base);
  }

  // ---------------------------------------------------------------- whole runs

  lemma InRangeStep(x: Whole, a: History, owner: map<nat, nat>, base: map<nat, Meta>, t: nat)
    requires RangeInv(x, a, owner, base) && Able(x, t) && x.calls[t].aux.AddIn?
    ensures RangeInv(Go(x, t), a, owner, base)
  {
    hide *;
    InIs(x, t);
    RangeCall(x, a, owner, base, t);
    InKeeps(x, a, owner, t);
    var x' := Go(x, t);
    CallPlace(x.s.m, a, x.meta, owner, t, x.s.threads[t], x.calls[t]);
    forall u: nat | u < |x.s.threads|
      ensures Stored(x.s.m, a, x.s.threads[u], x'.calls[u]) && InRange(x.s.m, x.meta, owner, x.s.threads[u], x'.calls[u], x'.calls, base)
    {
      RangeCall(x, a, owner, base, u);
      InCounted(x.s.m, a, x.meta, owner, x.calls, t, x.s.threads[t], u, x.s.threads[u], base);
    }
    forall b: nat | b in base
      ensures OnChain(x.s.m, a, b) && Low(x.meta, owner, x'.calls, b) <= base[b].smallStamp && base[b].largeStamp <= MetaOf(x.meta, b).largeStamp
    {
      CoveringAt(x.s.m, a, x.meta, owner, x.calls, base, b);
      LowIs(x.meta, owner, x.calls, b);
      LowIs(x.meta, owner, x'.calls, b);
    }
    CoveringIntro(x.s.m, a, x.meta, owner, x'.calls, base);
    RangeIntro(x', a, owner, base);
  }

  lemma InCounted(m: Mem, a: History, meta: map<nat, Meta>, owner: map<nat, nat>, calls: seq<Call>, t: nat, tht: Thread, u: nat, th: Thread, base: map<nat, Meta>)
    requires t < |calls| && u < |calls| && calls[t].aux.AddIn? && tht.pc.HighTest? && (u == t ==> th == tht)
    requires Stored(m, a, th, calls[u]) && InRange(m, meta, owner, th, calls[u], calls, base)
    ensures var calls' := calls[t := calls[t].(aux := Core)]; Stored(m, a, th, calls'[u]) && InRange(m, meta, owner, th, calls'[u], calls', base)
  {
    hide MetaOf, Holds, OwnsBlock;
  }

  /** Every step of every call keeps the ranges. */
  lemma GoRange(x: Whole, a: History, owner: map<nat, nat>, base: map<nat, Meta>, t: nat)
    requires RangeInv(x, a, owner, base)
    ensures RangeInv(Go(x, t), Recorded(x, a, t), Latch(x, owner, t), base)
  {
    hide RangeInv, Go, Waits, Step, Header, Record;
    if Able(x, t) {
      match x.calls[t].aux {
        case Core => CoreRange(x, a, owner, base, t);
        case AddIn => InRangeStep(x, a, owner, base, t);
        case _ =>
          var (e, c') := Header(MetaOf(x.meta, x.s.threads[t].tmp), x.s.threads[t].ts, x.calls[t]);
          HeadsRange(x, a, owner, base, t, e, c');
      }
    } else {
      Stays(x, t);
    }
  }

  lemma {:induction false} RunsRange(x: Whole, a: History, owner: map<nat, nat>, base: map<nat, Meta>, schedule: seq<nat>)
    returns (a': History, owner': map<nat, nat>)
    requires RangeInv(x, a, owner, base)
    ensures RangeInv(Runs(x, schedule), a', owner', base) && Follows(a, a')
    decreases |schedule|
  {
    hide RangeInv, Go, Latch, Record, Able;
    if schedule == [] {
      a', owner' := a, owner;
    } else {
      GoRange(x, a, owner, base, schedule[0]);
      RecordFollows(x.s, a, schedule[0]);
      a', owner' := RunsRange(Go(x, schedule[0]), Recorded(x, a, schedule[0]), Latch(x, owner, schedule[0]), base, schedule[1..]);
    }
  }

  // The used blocks of the type, with their headers.
  ghost function UsedHeaders(m: Mem, meta: map<nat, Meta>, chain: seq<nat>): map<nat, Meta> {
    map b | b in chain && Kind(m, b) && Blk(m, b).high > 0 :: MetaOf(meta, b)
  }

  lemma StartRange(x: Whole, chain: seq<nat>)
    requires AllReady(x, chain) && !SomeHollow(x.s.m, chain)
    ensures RangeInv(x, Start(x.s, chain), map[], UsedHeaders(x.s.m, x.meta, chain))
  {
    hide WholeInv, Start, FilledIn, Kind, Blk, FilledSlots, SomeHollow, Ready;
    var a := Start(x.s, chain);
    StartWhole(x, chain);
    StartFields(x.s, chain);
    forall t: nat | t < |x.s.threads| && t < |x.calls|
      ensures Stored(x.s.m, a, x.s.threads[t], x.calls[t]) && InRange(x.s.m, x.meta, map[], x.s.threads[t], x.calls[t], x.calls, UsedHeaders(x.s.m, x.meta, chain))
    {
      StartPc(x.s, chain, t);
    }
  }

  // A call's stamp is not above the range of the block that has its edge; nor below it, unless the stamp is
  // negative and the block's range did not begin below zero.
  ghost predicate Ranged(m: Mem, meta: map<nat, Meta>, chain: seq<nat>, to: int, ts: int, base: map<nat, Meta>) {
    exists b: nat, k: nat :: b in chain && Holds(m, b, k, to) && ts <= MetaOf(meta, b).largeStamp
      && (ts >= 0 || (b in base && base[b].smallStamp < 0) ==> MetaOf(meta, b).smallStamp <= ts)
  }

  lemma EndRange(x: Whole, a: History, owner: map<nat, nat>, base: map<nat, Meta>, t: nat)
    requires RangeInv(x, a, owner, base) && AllFinished(x) && t < |x.s.threads| && x.s.threads[t].to != x.s.m.from
    ensures Ranged(x.s.m, x.meta, a.chain, x.s.threads[t].to, x.s.threads[t].ts, base)
  {
    hide WholeInv, Inv, CallOk, OwnerOk, Covering, Stored, InRange;
    RangeCall(x, a, owner, base, t);
    var th, c := x.s.threads[t], x.calls[t];
    assert Finished(x, t);
    Unowned(x, a, owner, th.tmp);
    StampedIs(x.s.m, th, c);
    StoredIs(x.s.m, a, th, c);
    InRangeIs(x.s.m, x.meta, owner, th, c, x.calls, base);
    LowIs(x.meta, owner, x.calls, th.tmp);
    SeenIs(base, th);
    assert !OwnsBlock(th);
    assert Holds(x.s.m, th.tmp, th.k, th.to);
  }

  // At the end no stamp is locked.
  lemma Unowned(x: Whole, a: History, owner: map<nat, nat>, b: nat)
    requires WholeInv(x, a, owner) && AllFinished(x)
    ensures b !in owner && MetaOf(x.meta, b).smallStamp != MARKER
  {
    hide *;
    WholeParts(x, a, owner);
    OwnerAt(x.s.threads, x.calls, x.meta, owner, b);
    if b in owner {
      FinishedCall(x, owner[b]);
      LatchedIs(x.calls[owner[b]]);
    }
  }

  lemma FinishedCall(x: Whole, t: nat)
    requires AllFinished(x) && t < |x.s.threads| && t < |x.calls|
    ensures x.calls[t].aux.Core?
  {
    assert Finished(x, t);
  }
}
