/**
 What keeps the stamp lock sound: while every used block of the type has an edge, the plain stores of
 a block's first insertion never meet another call's lock.
 */
module StampInvariant {
  import opened InsertProtocol
  import opened InsertInvariant
  import opened InsertSteps
  import opened InsertRuns
  import opened InsertMoves
  import opened StampProtocol

  predicate Stamping(c: Call) {
    c.aux.ReadSmall? || c.aux.ReadLarge? || c.aux.LockSmall? || Latched(c)
  }

  // The call has the lower stamp locked.
  predicate Latched(c: Call) {
    c.aux.TestLarge? || c.aux.SetLarge? || c.aux.Unlatch?
  }

  predicate Putting(c: Call) {
    c.aux.PutSmall? || c.aux.PutLarge?
  }

  // The call has raised the count of the block in hand.
  predicate Counted(th: Thread, c: Call) {
    (th.pc.OutDeg? && !c.aux.AddCount?) || th.pc.HighTest? || th.pc.HighWrite? || th.pc.Unlock? || th.pc.SetNext? || th.pc.Register? || th.pc.Link?
  }

  // Accesses to the header come at their places only.
  predicate PlaceOk(th: Thread, c: Call) {
    && (c.aux.AddCount? || Putting(c) ==> th.pc.OutDeg?)
    && (c.aux.AddIn? ==> th.pc.HighTest?)
    && (Stamping(c) ==> th.pc.Done? || th.pc.Restore? || th.pc.SetNext?)
  }

  ghost predicate CallOk(m: Mem, a: History, meta: map<nat, Meta>, owner: map<nat, nat>, t: nat, th: Thread, c: Call) {
    && PlaceOk(th, c)
    && (Stamping(c) ==> th.pc.SetNext? || OnChain(m, a, th.tmp))
    && (Putting(c) && th.mode.FreshSlot? ==> th.k == 0 && Blk(m, th.tmp).high == 0)
    && (Counted(th, c) ==> MetaOf(meta, th.tmp).numEdges > 0)
    && (Latched(c) ==> c.held != MARKER && th.tmp in owner && owner[th.tmp] == t)
  }

  // A lower stamp is locked exactly while some call has it locked.
  ghost predicate OwnerOk(threads: seq<Thread>, calls: seq<Call>, meta: map<nat, Meta>, owner: map<nat, nat>) {
    && (forall b: nat :: MetaOf(meta, b).smallStamp == MARKER <==> b in owner)
    && (forall b: nat | b in owner :: owner[b] < |calls| && owner[b] < |threads| && Latched(calls[owner[b]]) && threads[owner[b]].tmp == b)
  }

  // Used blocks have edges counted.
  ghost predicate UsedOk(m: Mem, a: History, meta: map<nat, Meta>) {
    && (forall b: nat :: MetaOf(meta, b).numEdges >= 0)
    && (forall b: nat | b in a.chain && Kind(m, b) && Blk(m, b).high > 0 :: MetaOf(meta, b).numEdges > 0)
  }

  ghost predicate AllCalls(m: Mem, a: History, meta: map<nat, Meta>, owner: map<nat, nat>, threads: seq<Thread>, calls: seq<Call>) {
    |calls| == |threads| && forall t: nat | t < |threads| :: CallOk(m, a, meta, owner, t, threads[t], calls[t])
  }

  ghost predicate WholeInv(x: Whole, a: History, owner: map<nat, nat>) {
    && Inv(x.s, a) && AllCalls(x.s.m, a, x.meta, owner, x.s.threads, x.calls)
    && OwnerOk(x.s.threads, x.calls, x.meta, owner) && UsedOk(x.s.m, a, x.meta)
  }

  // Who has which stamp locked after a step.
  function Latch(x: Whole, owner: map<nat, nat>, t: nat): map<nat, nat> {
    if !Able(x, t) then owner
    else if x.calls[t].aux.LockSmall? then owner[x.s.threads[t].tmp := t]
    else if x.calls[t].aux.Unlatch? then owner - {x.s.threads[t].tmp}
    else owner
  }

  // And the history of the insert protocol.
  function Recorded(x: Whole, a: History, t: nat): History {
    if Able(x, t) && x.calls[t].aux.Core? then Record(x.s, a, t) else a
  }

  // ---------------------------------------------------------------- steps of the insert protocol

  // A counted block is known to the pool.
  lemma CountedBlock(s: State, a: History, u: nat, c: Call)
    requires Inv(s, a) && u < |s.threads| && Counted(s.threads[u], c)
    ensures s.threads[u].tmp in s.m.blocks
  {
    BlockInHand(s, a, u);
    hide Inv;
  }

  // The slot's owner keeps an unused block unused.
  lemma UnusedStays(s: State, a: History, t: nat, u: nat)
    requires Inv(s, a) && Enabled(s, t) && u < |s.threads| && u != t
    requires s.threads[u].pc.OutDeg? && s.threads[u].mode.FreshSlot? && s.threads[u].k == 0 && Blk(s.m, s.threads[u].tmp).high == 0
    ensures Blk(Step(s, t).m, s.threads[u].tmp).high == 0
  {
    hide Inv, Enabled, Step, Record, Blk, Kind;
    EnabledThread(s, t);
    BlockInHand(s, a, u);
    BlockInHand(s, a, t);
    StepLeaves(s, a, t);
    if s.threads[t].pc.HighWrite? { HighRises(s, a, t); }
    TidyLeaves(s, a, t, Step(s, t).m, Record(s, a, t), s.threads[u].tmp);
  }

  // What the memory keeps of headers when a new block is taken.
  ghost predicate HeadersKept(s: State, meta: map<nat, Meta>, meta': map<nat, Meta>) {
    forall b: nat | b != s.m.tail :: MetaOf(meta', b) == MetaOf(meta, b)
  }

  lemma OtherCall(x: Whole, a: History, owner: map<nat, nat>, t: nat, u: nat, meta': map<nat, Meta>)
    requires WholeInv(x, a, owner) && Enabled(x.s, t) && u < |x.s.threads| && u != t && HeadersKept(x.s, x.meta, meta')
    requires u < |x.calls|
    ensures CallOk(Step(x.s, t).m, Record(x.s, a, t), meta', owner, u, x.s.threads[u], x.calls[u])
  {
    assert CallOk(x.s.m, a, x.meta, owner, u, x.s.threads[u], x.calls[u]) && Inv(x.s, a);
    var th, c := x.s.threads[u], x.calls[u];
    hide WholeInv, Inv, Enabled, Step, Record, Blk, Kind, MetaOf, HeadersKept;
    StepLeaves(x.s, a, t);
    BlockInHand(x.s, a, u);
    ChainInPool(x.s, a);
    if th.tmp in x.s.m.blocks { TidyLeaves(x.s, a, t, Step(x.s, t).m, Record(x.s, a, t), th.tmp); }
    if Counted(th, c) { CountedBlock(x.s, a, u, c); HeaderKept(x.s, x.meta, meta', th.tmp); }
    if Putting(c) && th.mode.FreshSlot? { UnusedStays(x.s, a, t, u); }
  }

  lemma HeaderKept(s: State, meta: map<nat, Meta>, meta': map<nat, Meta>, b: nat)
    requires HeadersKept(s, meta, meta') && b != s.m.tail
    ensures MetaOf(meta', b) == MetaOf(meta, b)
  {
  }

  // Where a call goes from a place in update_edge_data.
  lemma NextPlace(m: Mem, th: Thread)
    requires th.pc.Existing? ==> th.mode.Unlocked? || th.mode.Locked?
    requires th.pc.Unlock? ==> th.mode.FreshSlot? || th.mode.NewBlock?
    ensures var th' := Act(m, th).1;
      && PlaceOk(th', Call(After(th.pc), 0))
      && (th'.pc.OutDeg? ==> th.pc.WriteNb?) && (th'.pc.HighTest? ==> th.pc.OutDeg?)
      && (th'.pc.HighWrite? ==> th.pc.HighTest?) && (th'.pc.Unlock? ==> th.pc.HighTest? || th.pc.HighWrite?)
      && (th'.pc.SetNext? ==> th.pc.Unlock?) && (th'.pc.Register? ==> th.pc.SetNext?) && (th'.pc.Link? ==> th.pc.Register?)
      && (th'.pc.OutDeg? || th'.pc.HighTest? || th'.pc.HighWrite? || th'.pc.Unlock? || th'.pc.SetNext? || th'.pc.Register? || th'.pc.Link? ==> th'.tmp == th.tmp)
      && (th.pc.Existing? || th.pc.Unlock? ==> th'.tmp == th.tmp && (th'.pc.SetNext? || th.mode != NewBlock))
  {
    hide Word, At, Kind, Blk, SetWord, SetSlot, SetHigh;
  }

  lemma SameCounted(th: Thread, c: Call, th': Thread, c': Call)
    requires c.aux.Core? && c'.aux == After(th.pc) && Counted(th', c')
    requires (th'.pc.OutDeg? ==> th.pc.WriteNb?) && (th'.pc.HighTest? ==> th.pc.OutDeg?)
    requires (th'.pc.HighWrite? ==> th.pc.HighTest?) && (th'.pc.Unlock? ==> th.pc.HighTest? || th.pc.HighWrite?)
    requires (th'.pc.SetNext? ==> th.pc.Unlock?) && (th'.pc.Register? ==> th.pc.SetNext?) && (th'.pc.Link? ==> th.pc.Register?)
    ensures Counted(th, c)
  {
  }

  lemma OwnCall(x: Whole, a: History, owner: map<nat, nat>, t: nat, meta': map<nat, Meta>)
    requires WholeInv(x, a, owner) && Enabled(x.s, t) && t < |x.s.threads| && t < |x.calls| && x.calls[t].aux.Core? && HeadersKept(x.s, x.meta, meta')
    ensures CallOk(Step(x.s, t).m, Record(x.s, a, t), meta', owner, t, Act(x.s.m, x.s.threads[t]).1, x.calls[t].(aux := After(x.s.threads[t].pc)))
  {
    hide *;
    var s, th, c := x.s, x.s.threads[t], x.calls[t];
    var th', c' := Act(s.m, th).1, c.(aux := After(th.pc));
    WholeAt(x, a, owner, t);
    if th.pc.Existing? || th.pc.Unlock? {
      StampPlace(s, a, t);
      StepLeaves(s, a, t);
      ChainInPool(s, a);
      if !th.mode.NewBlock? {
        OnChainIs(s.m, a, th.tmp);
        TidyLeaves(s, a, t, Step(s, t).m, Record(s, a, t), th.tmp);
        OnChainIs(Step(s, t).m, Record(s, a, t), th.tmp);
      }
    }
    NextPlace(s.m, th);
    if Counted(th', c') {
      SameCounted(th, c, th', c');
      CountedBlock(s, a, t, c);
      CountedHeader(s.m, a, x.meta, owner, t, th, c);
      BlocksBelow(s, a);
      NextCounted(th', c');
      HeaderKept(s, x.meta, meta', th.tmp);
    }
    CoreIntro(Step(s, t).m, Record(s, a, t), meta', owner, t, th, th', c, c');
  }

  lemma NextCounted(th: Thread, c: Call)
    requires Counted(th, c)
    ensures th.pc.OutDeg? || th.pc.HighTest? || th.pc.HighWrite? || th.pc.Unlock? || th.pc.SetNext? || th.pc.Register? || th.pc.Link?
  {
  }

  lemma CountedHeader(m: Mem, a: History, meta: map<nat, Meta>, owner: map<nat, nat>, t: nat, th: Thread, c: Call)
    requires CallOk(m, a, meta, owner, t, th, c) && Counted(th, c)
    ensures MetaOf(meta, th.tmp).numEdges > 0
  {
    hide Counted, MetaOf;
  }

  lemma OnChainIs(m: Mem, a: History, b: nat)
    ensures OnChain(m, a, b) <==> b in a.chain && Kind(m, b) && Blk(m, b).high > 0
  {
  }

  lemma WholeAt(x: Whole, a: History, owner: map<nat, nat>, t: nat)
    requires WholeInv(x, a, owner) && t < |x.s.threads|
    ensures t < |x.calls| == |x.s.threads| && CallOk(x.s.m, a, x.meta, owner, t, x.s.threads[t], x.calls[t]) && Inv(x.s, a)
    ensures OwnerOk(x.s.threads, x.calls, x.meta, owner) && UsedOk(x.s.m, a, x.meta)
  {
    hide CallOk, Inv, OwnerOk, UsedOk;
  }

  lemma CoreIntro(m: Mem, a: History, meta: map<nat, Meta>, owner: map<nat, nat>, t: nat, th: Thread, th': Thread, c: Call, c': Call)
    requires c'.aux == After(th.pc) && PlaceOk(th', Call(After(th.pc), 0))
    requires th.pc.Existing? || th.pc.Unlock? ==> th'.pc.SetNext? || OnChain(m, a, th'.tmp)
    requires Counted(th', c') ==> MetaOf(meta, th'.tmp).numEdges > 0
    ensures CallOk(m, a, meta, owner, t, th', c')
  {
    hide OnChain, Counted, MetaOf;
  }

  lemma UsedKept(x: Whole, a: History, owner: map<nat, nat>, t: nat, meta': map<nat, Meta>)
    requires WholeInv(x, a, owner) && Enabled(x.s, t) && t < |x.s.threads| && t < |x.calls| && x.calls[t].aux.Core? && HeadersKept(x.s, x.meta, meta')
    requires MetaOf(meta', x.s.m.tail).numEdges >= 0
    ensures UsedOk(Step(x.s, t).m, Record(x.s, a, t), meta')
  {
    hide *;
    var s, th, c := x.s, x.s.threads[t], x.calls[t];
    WholeAt(x, a, owner, t);
    StepLeaves(s, a, t);
    ChainInPool(s, a);
    BlocksBelow(s, a);
    CountedIs(th, c);
    if Counted(th, c) {
      CountedBlock(s, a, t, c);
      CountedHeader(s.m, a, x.meta, owner, t, th, c);
      HeaderKept(s, x.meta, meta', th.tmp);
    }
    var m', a' := Step(s, t).m, Record(s, a, t);
    LeavesChain(s, a, t, m', a');
    forall b: nat | b in a'.chain && Kind(m', b) && Blk(m', b).high > 0 ensures MetaOf(meta', b).numEdges > 0 {
      if b in a.chain && !(th.pc.HighWrite? && b == th.tmp) {
        TidyLeaves(s, a, t, m', a', b);
        HeaderKept(s, x.meta, meta', b);
        UsedAt(s.m, a, x.meta, b);
      }
    }
    forall b: nat ensures MetaOf(meta', b).numEdges >= 0 {
      CountsNonneg(s.m, a, x.meta, b);
      if b != s.m.tail { HeaderKept(s, x.meta, meta', b); }
    }
    UsedIntro(m', a', meta');
  }

  lemma CountedIs(th: Thread, c: Call)
    ensures th.pc.HighWrite? || th.pc.Link? ==> Counted(th, c)
  {
  }

  lemma UsedAt(m: Mem, a: History, meta: map<nat, Meta>, b: nat)
    requires UsedOk(m, a, meta) && b in a.chain && Kind(m, b) && Blk(m, b).high > 0
    ensures MetaOf(meta, b).numEdges > 0
  {
    hide Kind, Blk, MetaOf;
  }

  lemma UsedIntro(m: Mem, a: History, meta: map<nat, Meta>)
    requires forall b: nat :: MetaOf(meta, b).numEdges >= 0
    requires forall b: nat | b in a.chain && Kind(m, b) && Blk(m, b).high > 0 :: MetaOf(meta, b).numEdges > 0
    ensures UsedOk(m, a, meta)
  {
    hide Kind, Blk, MetaOf;
  }

  lemma LeavesChain(s: State, a: History, t: nat, m': Mem, a': History)
    requires Leaves(s, a, t, m', a')
    ensures forall b :: b in a'.chain ==> b in a.chain || (s.threads[t].pc.Link? && b == s.threads[t].tmp)
  {
  }

  // Nobody has the stamp of a block that is not there yet.
  lemma TailUnlatched(x: Whole, a: History, owner: map<nat, nat>)
    requires WholeInv(x, a, owner)
    ensures x.s.m.tail !in owner
  {
    if x.s.m.tail in owner {
      var u := owner[x.s.m.tail];
      assert CallOk(x.s.m, a, x.meta, owner, u, x.s.threads[u], x.calls[u]) && Inv(x.s, a);
      hide Inv;
      BlockInHand(x.s, a, u);
      ChainInPool(x.s, a);
      BlocksBelow(x.s, a);
    }
  }

  lemma OwnersKept(x: Whole, a: History, owner: map<nat, nat>, t: nat, meta': map<nat, Meta>, threads': seq<Thread>, calls': seq<Call>)
    requires OwnerOk(x.s.threads, x.calls, x.meta, owner) && t < |x.s.threads| && t < |x.calls| && !Latched(x.calls[t])
    requires x.s.m.tail !in owner && HeadersKept(x.s, x.meta, meta') && MetaOf(meta', x.s.m.tail).smallStamp != MARKER
    requires |threads'| == |x.s.threads| && |calls'| == |x.calls|
    requires forall u | 0 <= u < |threads'| && u != t :: threads'[u] == x.s.threads[u]
    requires forall u | 0 <= u < |calls'| && u != t :: calls'[u] == x.calls[u]
    ensures OwnerOk(threads', calls', meta', owner)
  {
    hide MetaOf;
  }

  // A step of the insert protocol.
  lemma WholeParts(x: Whole, a: History, owner: map<nat, nat>)
    requires WholeInv(x, a, owner)
    ensures Inv(x.s, a) && OwnerOk(x.s.threads, x.calls, x.meta, owner) && |x.calls| == |x.s.threads|
  {
    hide Inv, OwnerOk;
  }

  lemma CoreKeeps(x: Whole, a: History, owner: map<nat, nat>, t: nat)
    requires WholeInv(x, a, owner) && Able(x, t) && x.calls[t].aux.Core?
    ensures WholeInv(Go(x, t), Record(x.s, a, t), owner)
  {
    hide *;
    var x', a' := Go(x, t), Record(x.s, a, t);
    CoreIs(x, t);
    TailUnlatched(x, a, owner);
    WholeParts(x, a, owner);
    CoreTail(x, a, owner, t);
    StepKeeps(x.s, a, t);
    StepIs(x.s, t);
    UsedKept(x, a, owner, t, x'.meta);
    OwnersKept(x, a, owner, t, x'.meta, x'.s.threads, x'.calls);
    OwnCall(x, a, owner, t, x'.meta);
    forall u: nat | u < |x'.s.threads| ensures CallOk(x'.s.m, a', x'.meta, owner, u, x'.s.threads[u], x'.calls[u]) {
      if u != t { OtherCall(x, a, owner, t, u, x'.meta); }
    }
    WholeIntro(x', a', owner);
  }

  lemma CoreIs(x: Whole, t: nat)
    requires Able(x, t) && x.calls[t].aux.Core?
    ensures Enabled(x.s, t) && t < |x.s.threads| && t < |x.calls| && Go(x, t).s == Step(x.s, t)
    ensures Go(x, t).calls == x.calls[t := x.calls[t].(aux := After(x.s.threads[t].pc))]
    ensures HeadersKept(x.s, x.meta, Go(x, t).meta) && !Latched(x.calls[t])
  {
    hide Step, Blocked;
  }

  lemma CoreTail(x: Whole, a: History, owner: map<nat, nat>, t: nat)
    requires WholeInv(x, a, owner) && Able(x, t) && x.calls[t].aux.Core? && x.s.m.tail !in owner
    ensures MetaOf(Go(x, t).meta, x.s.m.tail).smallStamp != MARKER && |x.calls| == |x.s.threads|
    ensures MetaOf(Go(x, t).meta, x.s.m.tail).numEdges >= 0
  {
    hide Step, Blocked, Inv, CallOk;
  }

  lemma WholeIntro(x: Whole, a: History, owner: map<nat, nat>)
    requires Inv(x.s, a) && |x.calls| == |x.s.threads|
    requires forall t: nat | t < |x.s.threads| :: CallOk(x.s.m, a, x.meta, owner, t, x.s.threads[t], x.calls[t])
    requires OwnerOk(x.s.threads, x.calls, x.meta, owner) && UsedOk(x.s.m, a, x.meta)
    ensures WholeInv(x, a, owner)
  {
    hide Inv, CallOk, OwnerOk, UsedOk;
  }

  // ---------------------------------------------------------------- accesses to the header

  // The step of call t on the header of its block.
  ghost predicate Heads(x: Whole, t: nat, e: Meta, c': Call) {
    && Able(x, t) && !x.calls[t].aux.Core? && !x.calls[t].aux.AddIn?
    && (e, c') == Header(MetaOf(x.meta, x.s.threads[t].tmp), x.s.threads[t].ts, x.calls[t])
  }

  lemma HeadsIs(x: Whole, t: nat, e: Meta, c': Call)
    requires Heads(x, t, e, c')
    ensures t < |x.s.threads| && t < |x.calls| && !x.calls[t].aux.Core? && !x.calls[t].aux.AddIn? && Go(x, t) == x.(meta := x.meta[x.s.threads[t].tmp := e], calls := x.calls[t := c'])
    ensures var th, c, old_ := x.s.threads[t], x.calls[t], MetaOf(x.meta, x.s.threads[t].tmp);
      && e.numEdges == old_.numEdges + (if c.aux.AddCount? then 1 else 0)
      && (c.aux.AddCount? ==> c'.aux == if old_.numEdges == 0 then PutSmall else Core)
      && (c.aux.PutSmall? ==> c'.aux.PutLarge? && e.smallStamp == th.ts)
      && (c.aux.PutLarge? ==> c'.aux.Core?)
      && (c.aux.ReadSmall? ==> c'.aux.LockSmall? || c'.aux.ReadLarge?) && (c.aux.ReadLarge? ==> c'.aux.LockSmall? || c'.aux.Core?)
      && (c.aux.LockSmall? ==> old_.smallStamp != MARKER && c'.aux.TestLarge? && e.smallStamp == MARKER && (c'.held == th.ts || c'.held == old_.smallStamp))
      && (c.aux.TestLarge? ==> c'.held == c.held && (c'.aux.SetLarge? || c'.aux.Unlatch?)) && (c.aux.SetLarge? ==> c'.held == c.held && c'.aux.Unlatch?)
      && (c.aux.Unlatch? ==> c'.aux.Core? && e.smallStamp == c.held)
      && (!c.aux.PutSmall? && !c.aux.LockSmall? && !c.aux.Unlatch? ==> e.smallStamp == old_.smallStamp)
  {
    hide Step, Blocked;
  }

  lemma MetaPut(meta: map<nat, Meta>, b: nat, e: Meta)
    ensures forall d: nat :: MetaOf(meta[b := e], d) == if d == b then e else MetaOf(meta, d)
  {
    forall d: nat ensures MetaOf(meta[b := e], d) == if d == b then e else MetaOf(meta, d) {}
  }

  // Who holds the lower stamp of the block in hand has an edge in it, so a first insertion meets no lock.
  lemma PutFree(x: Whole, a: History, owner: map<nat, nat>, t: nat)
    requires WholeInv(x, a, owner) && t < |x.s.threads| && t < |x.calls| && Putting(x.calls[t])
    ensures x.s.threads[t].tmp !in owner
  {
    hide *;
    WholeAt(x, a, owner, t);
    var b := x.s.threads[t].tmp;
    if b in owner {
      OwnerAt(x.s.threads, x.calls, x.meta, owner, b);
      var u := owner[b];
      WholeAt(x, a, owner, u);
      StampCall(x.s.m, a, x.meta, owner, u, x.s.threads[u], x.calls[u]);
      PutCall(x.s.m, a, x.meta, owner, t, x.s.threads[t], x.calls[t]);
      BlockInHand(x.s, a, t);
      BlockInHand(x.s, a, u);
      OwnsIs(x.s.threads[t]);
      OwnsIs(x.s.threads[u]);
      OnChainIs(x.s.m, a, b);
      OnKindIs(x.s.m, a, b);
      if x.s.threads[u].pc.SetNext? && x.s.threads[t].mode.NewBlock? { Appending(x.s, a, t, u); }
    }
  }

  lemma OwnerAt(threads: seq<Thread>, calls: seq<Call>, meta: map<nat, Meta>, owner: map<nat, nat>, b: nat)
    requires OwnerOk(threads, calls, meta, owner)
    ensures MetaOf(meta, b).smallStamp == MARKER <==> b in owner
    ensures b in owner ==> owner[b] < |calls| && owner[b] < |threads| && Latched(calls[owner[b]]) && threads[owner[b]].tmp == b
  {
    hide MetaOf;
  }

  lemma StampCall(m: Mem, a: History, meta: map<nat, Meta>, owner: map<nat, nat>, t: nat, th: Thread, c: Call)
    requires CallOk(m, a, meta, owner, t, th, c) && Latched(c)
    ensures th.pc.SetNext? || OnChain(m, a, th.tmp)
    ensures c.held != MARKER && th.tmp in owner && owner[th.tmp] == t && !Putting(c) && !c.aux.Core? && !c.aux.LockSmall?
  {
    hide OnChain;
  }

  lemma PutCall(m: Mem, a: History, meta: map<nat, Meta>, owner: map<nat, nat>, t: nat, th: Thread, c: Call)
    requires CallOk(m, a, meta, owner, t, th, c) && Putting(c)
    ensures th.pc.OutDeg? && (th.mode.FreshSlot? ==> Blk(m, th.tmp).high == 0) && !Latched(c)
  {
  }

  // A first insertion into a block that is linked is into an unused one.
  lemma FirstSlot(s: State, a: History, meta: map<nat, Meta>, t: nat)
    requires Inv(s, a) && UsedOk(s.m, a, meta) && t < |s.threads| && s.threads[t].pc.OutDeg? && s.threads[t].mode.FreshSlot?
    requires MetaOf(meta, s.threads[t].tmp).numEdges == 0
    ensures s.threads[t].k == 0 && Blk(s.m, s.threads[t].tmp).high == 0
  {
    hide *;
    SlotOf(s, a, t);
    UnusedHigh(s.m, a, meta, s.threads[t].tmp);
    HighCovers(s.m, a, s.threads[t]);
  }

  lemma SlotOf(s: State, a: History, t: nat)
    requires Inv(s, a) && t < |s.threads| && s.threads[t].pc.OutDeg? && s.threads[t].mode.FreshSlot?
    ensures AtSlot(s.m, a, s.threads[t])
    ensures s.threads[t].tmp in a.chain && Kind(s.m, s.threads[t].tmp)
  {
    hide PoolInv, PtrInv, LockInv, ClaimInv, ClaimInit, OrderInv, UniqueInv, CountInv, CallsInv, LocInv, LookInv, FindInv, AppendInv, Clean, Scanned, Full, LockedBy;
    assert ThreadInv(s.m, a, t, s.threads[t]);
  }

  lemma UnusedHigh(m: Mem, a: History, meta: map<nat, Meta>, b: nat)
    requires UsedOk(m, a, meta) && b in a.chain && Kind(m, b) && MetaOf(meta, b).numEdges == 0
    ensures Blk(m, b).high == 0
  {
    hide Kind, MetaOf;
  }

  lemma HighCovers(m: Mem, a: History, th: Thread)
    requires AtSlot(m, a, th)
    ensures th.k <= Blk(m, th.tmp).high
  {
    hide Clean, Scanned, Kind;
    if th.k > 0 { assert Filled(m, th.tmp, th.k - 1); }
  }

  lemma TsOk(s: State, a: History, t: nat)
    requires Inv(s, a) && t < |s.threads|
    ensures s.threads[t].ts != MARKER
  {
    hide PoolInv, PtrInv, LockInv, ClaimInv, ClaimInit, OrderInv, UniqueInv, CountInv, CallsInv;
    assert ThreadInv(s.m, a, t, s.threads[t]);
  }

  lemma HeadsOwners(x: Whole, a: History, owner: map<nat, nat>, t: nat, e: Meta, c': Call)
    requires WholeInv(x, a, owner) && Heads(x, t, e, c')
    ensures OwnerOk(x.s.threads, x.calls[t := c'], x.meta[x.s.threads[t].tmp := e], Latch(x, owner, t))
  {
    hide *;
    HeadsIs(x, t, e, c');
    WholeAt(x, a, owner, t);
    var th, c, b := x.s.threads[t], x.calls[t], x.s.threads[t].tmp;
    TsOk(x.s, a, t);
    if c.aux.PutSmall? { PutIs(c); PutFree(x, a, owner, t); }
    MetaPut(x.meta, b, e);
    OwnerAt(x.s.threads, x.calls, x.meta, owner, b);
    LatchIs(x, owner, t, e, c');
    LatchedIs(c);
    LatchedIs(c');
    if Latched(c) { StampCall(x.s.m, a, x.meta, owner, t, th, c); }
    OwnersPut(x.s.threads, x.calls, x.meta, owner, t, e, c', Latch(x, owner, t));
  }

  lemma PutIs(c: Call)
    ensures Putting(c) <==> c.aux.PutSmall? || c.aux.PutLarge?
  {
  }

  lemma LatchedIs(c: Call)
    ensures Latched(c) <==> c.aux.TestLarge? || c.aux.SetLarge? || c.aux.Unlatch?
  {
  }

  lemma LatchIs(x: Whole, owner: map<nat, nat>, t: nat, e: Meta, c': Call)
    requires Heads(x, t, e, c')
    ensures t < |x.s.threads| && t < |x.calls|
    ensures Latch(x, owner, t) == if x.calls[t].aux.LockSmall? then owner[x.s.threads[t].tmp := t]
                                  else if x.calls[t].aux.Unlatch? then owner - {x.s.threads[t].tmp} else owner
  {
  }

  lemma OwnersPut(threads: seq<Thread>, calls: seq<Call>, meta: map<nat, Meta>, owner: map<nat, nat>, t: nat, e: Meta, c': Call, owner': map<nat, nat>)
    requires OwnerOk(threads, calls, meta, owner) && t < |threads| && t < |calls|
    requires var b := threads[t].tmp;
      && (Latched(calls[t]) ==> b in owner && owner[b] == t)
      && (e.smallStamp == MARKER <==> b in owner')
      && (b in owner' ==> (owner'[b] == t && Latched(c')) || (b in owner && owner'[b] == owner[b] && owner[b] != t))
      && forall d: nat | d != b :: (d in owner' <==> d in owner) && (d in owner ==> owner'[d] == owner[d])
    requires Latched(c') ==> Latched(calls[t]) || threads[t].tmp in owner'
    ensures OwnerOk(threads, calls[t := c'], meta[threads[t].tmp := e], owner')
  {
    MetaPut(meta, threads[t].tmp, e);
    hide MetaOf, Latched;
  }

  lemma HeadsOther(x: Whole, a: History, owner: map<nat, nat>, t: nat, e: Meta, c': Call, u: nat)
    requires WholeInv(x, a, owner) && Heads(x, t, e, c') && u < |x.s.threads| && u != t
    ensures t < |x.s.threads| && u < |x.calls|
    ensures CallOk(x.s.m, a, x.meta[x.s.threads[t].tmp := e], Latch(x, owner, t), u, x.s.threads[u], x.calls[u])
  {
    hide *;
    HeadsIs(x, t, e, c');
    var b := x.s.threads[t].tmp;
    WholeAt(x, a, owner, t);
    WholeAt(x, a, owner, u);
    MetaPut(x.meta, b, e);
    LatchIs(x, owner, t, e, c');
    OwnerAt(x.s.threads, x.calls, x.meta, owner, b);
    LatchedIs(x.calls[t]);
    if Latched(x.calls[t]) { StampCall(x.s.m, a, x.meta, owner, t, x.s.threads[t], x.calls[t]); }
    if Latched(x.calls[u]) { StampCall(x.s.m, a, x.meta, owner, u, x.s.threads[u], x.calls[u]); }
    CallKept(x.s.m, a, x.meta, owner, u, x.s.threads[u], x.calls[u], x.meta[b := e], Latch(x, owner, t));
  }

  lemma CallKept(m: Mem, a: History, meta: map<nat, Meta>, owner: map<nat, nat>, t: nat, th: Thread, c: Call, meta': map<nat, Meta>, owner': map<nat, nat>)
    requires CallOk(m, a, meta, owner, t, th, c) && MetaOf(meta', th.tmp).numEdges >= MetaOf(meta, th.tmp).numEdges
    requires Latched(c) ==> th.tmp in owner' && owner'[th.tmp] == t
    ensures CallOk(m, a, meta', owner', t, th, c)
  {
    hide OnChain, Counted, MetaOf;
  }

  lemma HeadsOwn(x: Whole, a: History, owner: map<nat, nat>, t: nat, e: Meta, c': Call)
    requires WholeInv(x, a, owner) && Heads(x, t, e, c')
    ensures t < |x.s.threads| && CallOk(x.s.m, a, x.meta[x.s.threads[t].tmp := e], Latch(x, owner, t), t, x.s.threads[t], c')
  {
    hide *;
    HeadsIs(x, t, e, c');
    var th, c := x.s.threads[t], x.calls[t];
    WholeAt(x, a, owner, t);
    TsOk(x.s, a, t);
    MetaPut(x.meta, th.tmp, e);
    LatchIs(x, owner, t, e, c');
    OwnerAt(x.s.threads, x.calls, x.meta, owner, th.tmp);
    LatchedIs(c);
    if Latched(c) { StampCall(x.s.m, a, x.meta, owner, t, th, c); }
    CountsNonneg(x.s.m, a, x.meta, th.tmp);
    if c.aux.AddCount? {
      CallPlace(x.s.m, a, x.meta, owner, t, th, c);
      if th.mode.FreshSlot? && MetaOf(x.meta, th.tmp).numEdges == 0 { FirstSlot(x.s, a, x.meta, t); }
    }
    OwnIntro(x.s.m, a, x.meta, owner, t, th, c, x.meta[th.tmp := e], Latch(x, owner, t), c');
  }

  lemma CountsNonneg(m: Mem, a: History, meta: map<nat, Meta>, b: nat)
    requires UsedOk(m, a, meta)
    ensures MetaOf(meta, b).numEdges >= 0
  {
    hide MetaOf;
  }

  lemma CallPlace(m: Mem, a: History, meta: map<nat, Meta>, owner: map<nat, nat>, t: nat, th: Thread, c: Call)
    requires CallOk(m, a, meta, owner, t, th, c)
    ensures PlaceOk(th, c) && (c.aux.AddCount? ==> th.pc.OutDeg?) && (c.aux.AddIn? ==> th.pc.HighTest?)
  {
  }

  lemma OwnIntro(m: Mem, a: History, meta: map<nat, Meta>, owner: map<nat, nat>, t: nat, th: Thread, c: Call, meta': map<nat, Meta>, owner': map<nat, nat>, c': Call)
    requires CallOk(m, a, meta, owner, t, th, c) && !c.aux.Core? && !c.aux.AddIn?
    requires MetaOf(meta', th.tmp).numEdges == MetaOf(meta, th.tmp).numEdges + (if c.aux.AddCount? then 1 else 0) && MetaOf(meta, th.tmp).numEdges >= 0
    requires c.aux.AddCount? ==> c'.aux == if MetaOf(meta, th.tmp).numEdges == 0 then PutSmall else Core
    requires c.aux.AddCount? && th.mode.FreshSlot? && MetaOf(meta, th.tmp).numEdges == 0 ==> th.k == 0 && Blk(m, th.tmp).high == 0
    requires (c.aux.PutSmall? ==> c'.aux.PutLarge?) && (c.aux.PutLarge? ==> c'.aux.Core?)
    requires (c.aux.ReadSmall? ==> c'.aux.LockSmall? || c'.aux.ReadLarge?) && (c.aux.ReadLarge? ==> c'.aux.LockSmall? || c'.aux.Core?)
    requires (c.aux.LockSmall? ==> c'.aux.TestLarge? && c'.held != MARKER && th.tmp in owner' && owner'[th.tmp] == t)
    requires (c.aux.TestLarge? ==> c'.held == c.held && (c'.aux.SetLarge? || c'.aux.Unlatch?)) && (c.aux.SetLarge? ==> c'.held == c.held && c'.aux.Unlatch?)
    requires c.aux.TestLarge? || c.aux.SetLarge? ==> th.tmp in owner' && owner'[th.tmp] == t
    requires c.aux.Unlatch? ==> c'.aux.Core?
    ensures CallOk(m, a, meta', owner', t, th, c')
  {
    hide OnChain, MetaOf, Blk;
  }

  lemma HeadsUsed(x: Whole, a: History, owner: map<nat, nat>, t: nat, e: Meta, c': Call)
    requires WholeInv(x, a, owner) && Heads(x, t, e, c')
    ensures t < |x.s.threads| && UsedOk(x.s.m, a, x.meta[x.s.threads[t].tmp := e])
  {
    hide *;
    HeadsIs(x, t, e, c');
    WholeAt(x, a, owner, t);
    UsedPut(x.s.m, a, x.meta, x.s.threads[t].tmp, e);
  }

  lemma UsedPut(m: Mem, a: History, meta: map<nat, Meta>, b: nat, e: Meta)
    requires UsedOk(m, a, meta) && e.numEdges >= MetaOf(meta, b).numEdges
    ensures UsedOk(m, a, meta[b := e])
  {
    hide MetaOf, Kind, Blk;
    MetaPut(meta, b, e);
    var meta' := meta[b := e];
    forall d: nat ensures MetaOf(meta', d).numEdges >= 0 { assert MetaOf(meta, d).numEdges >= 0; }
    forall d: nat | d in a.chain && Kind(m, d) && Blk(m, d).high > 0 ensures MetaOf(meta', d).numEdges > 0 { assert MetaOf(meta, d).numEdges > 0; }
  }

  // A step on the header.
  lemma HeadsKeep(x: Whole, a: History, owner: map<nat, nat>, t: nat, e: Meta, c': Call)
    requires WholeInv(x, a, owner) && Heads(x, t, e, c')
    ensures WholeInv(Go(x, t), a, Latch(x, owner, t))
  {
    hide *;
    HeadsIs(x, t, e, c');
    WholeAt(x, a, owner, t);
    var meta', owner' := x.meta[x.s.threads[t].tmp := e], Latch(x, owner, t);
    HeadsOwners(x, a, owner, t, e, c');
    HeadsUsed(x, a, owner, t, e, c');
    HeadsOwn(x, a, owner, t, e, c');
    forall u: nat | u < |x.s.threads| ensures CallOk(x.s.m, a, meta', owner', u, x.s.threads[u], Go(x, t).calls[u]) {
      if u != t { HeadsOther(x, a, owner, t, e, c', u); }
    }
    WholeIntro(Go(x, t), a, owner');
  }

  // The in-degree's step.
  lemma InKeeps(x: Whole, a: History, owner: map<nat, nat>, t: nat)
    requires WholeInv(x, a, owner) && Able(x, t) && x.calls[t].aux.AddIn?
    ensures WholeInv(Go(x, t), a, owner)
  {
    hide *;
    InIs(x, t);
    WholeAt(x, a, owner, t);
    var x' := Go(x, t);
    forall u: nat | u < |x.s.threads| ensures CallOk(x.s.m, a, x.meta, owner, u, x.s.threads[u], x'.calls[u]) {
      WholeAt(x, a, owner, u);
      if u == t { InCall(x.s.m, a, x.meta, owner, t, x.s.threads[t], x.calls[t]); }
    }
    LatchedIs(x.calls[t]);
    OwnersSame(x.s.threads, x.calls, x.meta, owner, t, x'.calls);
    WholeIntro(x', a, owner);
  }

  lemma OwnersSame(threads: seq<Thread>, calls: seq<Call>, meta: map<nat, Meta>, owner: map<nat, nat>, t: nat, calls': seq<Call>)
    requires OwnerOk(threads, calls, meta, owner) && t < |calls| && !Latched(calls[t]) && |calls'| == |calls|
    requires forall u | 0 <= u < |calls| && u != t :: calls'[u] == calls[u]
    ensures OwnerOk(threads, calls', meta, owner)
  {
    hide MetaOf;
  }

  lemma InIs(x: Whole, t: nat)
    requires Able(x, t) && x.calls[t].aux.AddIn?
    ensures t < |x.s.threads| && t < |x.calls|
    ensures Go(x, t) == x.(indeg := x.indeg[x.s.threads[t].to := InDegree(x.indeg, x.s.threads[t].to) + 1], calls := x.calls[t := x.calls[t].(aux := Core)])
  {
    hide Step, Header;
  }

  lemma InCall(m: Mem, a: History, meta: map<nat, Meta>, owner: map<nat, nat>, t: nat, th: Thread, c: Call)
    requires CallOk(m, a, meta, owner, t, th, c) && c.aux.AddIn?
    ensures CallOk(m, a, meta, owner, t, th, c.(aux := Core))
  {
    hide OnChain, MetaOf, Blk;
  }

  /** Every atomic step of every call keeps the invariant. */
  lemma GoKeeps(x: Whole, a: History, owner: map<nat, nat>, t: nat)
    requires WholeInv(x, a, owner)
    ensures WholeInv(Go(x, t), Recorded(x, a, t), Latch(x, owner, t))
  {
    hide WholeInv, Go, Waits, Step, Header, Record;
    if Able(x, t) {
      match x.calls[t].aux {
        case Core => CoreKeeps(x, a, owner, t);
        case AddIn => InKeeps(x, a, owner, t);
        case _ =>
          var (e, c') := Header(MetaOf(x.meta, x.s.threads[t].tmp), x.s.threads[t].ts, x.calls[t]);
          HeadsKeep(x, a, owner, t, e, c');
      }
    } else {
      Stays(x, t);
    }
  }

  lemma Stays(x: Whole, t: nat)
    requires !Able(x, t)
    ensures Go(x, t) == x
  {
    hide Able, Step, Header;
  }

  lemma {:induction false} RunsKeep(x: Whole, a: History, owner: map<nat, nat>, schedule: seq<nat>) returns (a': History, owner': map<nat, nat>)
    requires WholeInv(x, a, owner)
    ensures WholeInv(Runs(x, schedule), a', owner') && Follows(a, a')
    decreases |schedule|
  {
    hide WholeInv, Go, Latch, Record, Able;
    if schedule == [] {
      a', owner' := a, owner;
    } else {
      GoKeeps(x, a, owner, schedule[0]);
      RecordFollows(x.s, a, schedule[0]);
      a', owner' := RunsKeep(Go(x, schedule[0]), Recorded(x, a, schedule[0]), Latch(x, owner, schedule[0]), schedule[1..]);
    }
  }

  // ---------------------------------------------------------------- the start

  lemma StartWhole(x: Whole, chain: seq<nat>)
    requires AllReady(x, chain) && !SomeHollow(x.s.m, chain)
    ensures WholeInv(x, Start(x.s, chain), map[])
  {
    hide Inv, Start, FilledIn, Kind, Blk, FilledSlots;
    var a := Start(x.s, chain);
    StartInv(x.s, chain);
    StartFields(x.s, chain);
    forall b: nat | b in chain && Kind(x.s.m, b) && Blk(x.s.m, b).high > 0 ensures MetaOf(x.meta, b).numEdges > 0 {
      UsedHas(x.s.m, chain, b);
    }
    hide Ready;
    forall t: nat | t < |x.s.threads| ensures CallOk(x.s.m, a, x.meta, map[], t, x.s.threads[t], x.calls[t]) {
      StartPc(x.s, chain, t);
    }
  }

  lemma StartPc(s: State, chain: seq<nat>, t: nat)
    requires Ready(s, chain) && t < |s.threads|
    ensures s.threads[t].pc.BeginHead?
  {
    hide ChainOf, NoDuplicates, FilledSlots;
  }

  lemma UsedHas(m: Mem, chain: seq<nat>, b: nat)
    requires !SomeHollow(m, chain) && b in chain && Kind(m, b) && Blk(m, b).high > 0
    ensures |FilledIn(m, b)| > 0
  {
    assert !Hollow(m, b);
    var k: nat :| Filled(m, b, k);
    assert k in FilledIn(m, b);
    hide SomeHollow, Hollow, Kind;
  }

  // ---------------------------------------------------------------- freedom from deadlock

  // The call that t waits for, or t itself.
  lemma AwakeCall(x: Whole, a: History, owner: map<nat, nat>, t: nat) returns (u: nat)
    requires WholeInv(x, a, owner) && t < |x.s.threads| && !Finished(x, t) && !x.s.m.aborted
    ensures Able(x, u)
  {
    hide WholeInv, Inv, CallOk, OwnerOk, Blocked, UsedOk;
    WholeAt(x, a, owner, t);
    if !x.calls[t].aux.Core? {
      u := AwakeStamp(x, a, owner, t);
    } else {
      var v := Awake(x.s, a, t);
      EnabledIs(x.s, v);
      WholeAt(x, a, owner, v);
      if x.calls[v].aux.Core? { u := v; } else { u := AwakeStamp(x, a, owner, v); }
    }
  }

  lemma EnabledIs(s: State, t: nat)
    requires Enabled(s, t)
    ensures t < |s.threads| && !Blocked(s.m, s.threads[t])
  {
    hide Blocked;
  }

  lemma AwakeStamp(x: Whole, a: History, owner: map<nat, nat>, t: nat) returns (u: nat)
    requires WholeInv(x, a, owner) && t < |x.s.threads| && t < |x.calls| && !x.calls[t].aux.Core? && !x.s.m.aborted
    ensures Able(x, u)
  {
    hide WholeInv, Inv, CallOk, OwnerOk, Blocked, UsedOk, MetaOf;
    WholeAt(x, a, owner, t);
    var b := x.s.threads[t].tmp;
    OwnerAt(x.s.threads, x.calls, x.meta, owner, b);
    u := t;
    if x.calls[t].aux.Unlatch? {
      StampCall(x.s.m, a, x.meta, owner, t, x.s.threads[t], x.calls[t]);
    } else if Waits(x, t) {
      u := owner[b];
      WholeAt(x, a, owner, u);
      OwnerAt(x.s.threads, x.calls, x.meta, owner, x.s.threads[u].tmp);
    }
  }
}
