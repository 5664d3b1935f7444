/**
 The checkpoint writer's CSR arrays: a counting sort of the live slots, block by block, in the order
 of the edge type array.
 */
module CsrBuild {
  import opened EdgeBlocks
  import Weights
  import Sorts
  import Buckets

  // ---------------------------------------------------------------- what CSR arrays stand for

  // Row v of the arrays.
  predicate InRow(off: seq<int>, v: nat, q: int)
    requires v + 1 < |off|
  {
    off[v] <= q < off[v + 1]
  }

  predicate RowsFit(off: seq<int>, nv: nat, size: nat) {
    && |off| >= nv + 1 && off[0] == 0 && off[nv] == size
    && forall v: nat | v < nv :: RowFits(off, v, size)
  }

  predicate RowFits(off: seq<int>, v: nat, size: nat)
    requires v + 1 < |off|
  {
    0 <= off[v] <= off[v + 1] <= size
  }

  // The arrays hold the edges of one type, by source, each once, with its weight and both stamps.
  ghost predicate CsrOf(off: seq<int>, ents: seq<Slot>, nv: nat, etype: int, m: map<Key, Val>) {
    && RowsFit(off, nv, |ents|)
    && (forall v: nat, q: nat | v < nv && q < |ents| && InRow(off, v, q) :: EntryOf(ents[q], v, etype, m))
    && (forall v: nat, q: nat, r: nat | v < nv && q < r < |ents| && InRow(off, v, q) && InRow(off, v, r) :: ents[q].neighbor != ents[r].neighbor)
    && (forall key | key in m && key.etype == etype :: 0 <= key.from < nv && exists q: nat :: EntryAt(off, ents, key.from, q, key.to))
  }

  predicate EntryOf(e: Slot, v: int, etype: int, m: map<Key, Val>) {
    Key(etype, v, e.neighbor) in m && m[Key(etype, v, e.neighbor)] == Val(e.weight, e.timeFirst, e.timeRecent)
  }

  predicate EntryAt(off: seq<int>, ents: seq<Slot>, v: nat, q: nat, to: int) {
    v + 1 < |off| && q < |ents| && InRow(off, v, q) && ents[q].neighbor == to
  }

  // ---------------------------------------------------------------- live slots of a block

  // The live slots among the first n of block b.
  function LiveSlots(pool: seq<Block>, b: nat, n: nat): seq<Loc>
    requires b < |pool|
  {
    if n == 0 then [] else LiveSlots(pool, b, n - 1) + if Live(pool[b], n - 1) then [Loc(b, n - 1)] else []
  }

  ghost function LiveKeys(pool: seq<Block>, b: nat, n: nat): set<Key>
    requires b < |pool|
  {
    if n == 0 then {} else LiveKeys(pool, b, n - 1) + if Live(pool[b], n - 1) then {KeyAt(pool, b, n - 1)} else {}
  }

  lemma {:induction false} LiveKeysAre(pool: seq<Block>, tail: nat, loc: map<Key, Loc>, b: nat, n: nat)
    requires LocOk(pool, tail, loc) && 0 < b < tail <= |pool|
    ensures forall key :: key in LiveKeys(pool, b, n) <==> key in loc && loc[key].b == b && loc[key].k < n
  {
    hide LocOk, Live, LiveAt, KeyAt;
    if n > 0 {
      LiveKeysAre(pool, tail, loc, b, n - 1);
      LiveKeyIs(pool, tail, loc, b, n - 1);
    }
  }

  lemma {:induction false} LiveKeysCount(pool: seq<Block>, tail: nat, loc: map<Key, Loc>, b: nat, n: nat)
    requires LocOk(pool, tail, loc) && 0 < b < tail <= |pool|
    ensures |LiveKeys(pool, b, n)| == |LiveSlots(pool, b, n)|
  {
    hide LocOk, KeyAt, Live, LiveAt;
    if n > 0 {
      LiveKeysCount(pool, tail, loc, b, n - 1);
      LiveKeyNew(pool, tail, loc, b, n - 1);
      LiveNext(pool, b, n - 1);
    }
  }

  lemma LiveKeyNew(pool: seq<Block>, tail: nat, loc: map<Key, Loc>, b: nat, k: nat)
    requires LocOk(pool, tail, loc) && 0 < b < tail <= |pool|
    ensures Live(pool[b], k) ==> k < |pool[b].edges| && KeyAt(pool, b, k) !in LiveKeys(pool, b, k)
  {
    hide *;
    LiveKeysAre(pool, tail, loc, b, k);
    LiveKeyIs(pool, tail, loc, b, k);
  }

  lemma LiveNext(pool: seq<Block>, b: nat, k: nat)
    requires b < |pool| && (Live(pool[b], k) ==> k < |pool[b].edges|)
    ensures LiveKeys(pool, b, k + 1) == if Live(pool[b], k) then LiveKeys(pool, b, k) + {KeyAt(pool, b, k)} else LiveKeys(pool, b, k)
    ensures |LiveSlots(pool, b, k + 1)| == |LiveSlots(pool, b, k)| + if Live(pool[b], k) then 1 else 0
  {
    hide Live, KeyAt;
  }

  // Which key is in this slot.
  lemma LiveKeyIs(pool: seq<Block>, tail: nat, loc: map<Key, Loc>, b: nat, k: nat)
    requires LocOk(pool, tail, loc) && 0 < b < tail <= |pool|
    ensures Live(pool[b], k) ==> k < |pool[b].edges| && KeyAt(pool, b, k) in loc && loc[KeyAt(pool, b, k)] == Loc(b, k)
    ensures forall key | key in loc && loc[key] == Loc(b, k) :: Live(pool[b], k) && k < |pool[b].edges| && key == KeyAt(pool, b, k)
  {
    assert Live(pool[b], k) ==> LiveAt(pool, tail, b, k);
  }

  /** A block's count is its number of live slots. */
  lemma LiveCount(s: Store, nv: nat, ntypes: nat, b: nat)
    requires StoreOk(s, nv, ntypes) && 0 < b < s.tail
    ensures b < |s.pool| && s.pool[b].high <= EDGEBLOCKSIZE && 0 <= s.pool[b].vertexID < nv
    ensures s.pool[b].numEdges == |LiveSlots(s.pool, b, s.pool[b].high)|
  {
    BlockFacts(s, nv, ntypes, b);
    StoreElim(s, nv, ntypes);
    LiveKeysAre(s.pool, s.tail, s.loc, b, s.pool[b].high);
    LiveKeysCount(s.pool, s.tail, s.loc, b, s.pool[b].high);
    assert LiveKeys(s.pool, b, s.pool[b].high) == InBlock(s.loc, b) by {
      forall key | key in s.loc && s.loc[key].b == b ensures s.loc[key].k < s.pool[b].high { LocFacts(s, nv, ntypes, key); }
    }
    hide StoreOk, LocOk, LinksOk, EtaOk;
  }

  // ---------------------------------------------------------------- all of them, in order

  predicate BlocksIn(pool: seq<Block>, blocks: seq<nat>) {
    forall p | 0 <= p < |blocks| :: blocks[p] < |pool|
  }

  // The live slots of the first n registered blocks.
  function Flat(pool: seq<Block>, blocks: seq<nat>, n: nat): seq<Loc>
    requires BlocksIn(pool, blocks) && n <= |blocks|
  {
    if n == 0 then [] else Flat(pool, blocks, n - 1) + LiveSlots(pool, blocks[n - 1], pool[blocks[n - 1]].high)
  }

  predicate LocsIn(pool: seq<Block>, flat: seq<Loc>) {
    forall p | 0 <= p < |flat| :: flat[p].b < |pool| && flat[p].k < |pool[flat[p].b].edges|
  }

  lemma {:induction false} LiveSlotsIn(pool: seq<Block>, b: nat, n: nat)
    requires b < |pool|
    ensures forall l :: l in LiveSlots(pool, b, n) <==> l.b == b && l.k < n && Live(pool[b], l.k)
    ensures forall p, q | 0 <= p < q < |LiveSlots(pool, b, n)| :: LiveSlots(pool, b, n)[p] != LiveSlots(pool, b, n)[q]
  {
    if n > 0 { LiveSlotsIn(pool, b, n - 1); }
  }

  lemma {:induction false} FlatIn(pool: seq<Block>, blocks: seq<nat>, n: nat)
    requires BlocksIn(pool, blocks) && n <= |blocks| && forall p, q | 0 <= p < q < |blocks| :: blocks[p] != blocks[q]
    ensures forall l :: l in Flat(pool, blocks, n) <==> l.b in blocks[..n] && l.b < |pool| && Live(pool[l.b], l.k)
    ensures forall p, q | 0 <= p < q < |Flat(pool, blocks, n)| :: Flat(pool, blocks, n)[p] != Flat(pool, blocks, n)[q]
  {
    if n > 0 {
      FlatIn(pool, blocks, n - 1);
      var b := blocks[n - 1];
      LiveSlotsIn(pool, b, pool[b].high);
      assert blocks[..n] == blocks[..n - 1] + [b] && b !in blocks[..n - 1];
      var f, l := Flat(pool, blocks, n - 1), LiveSlots(pool, b, pool[b].high);
      forall p, q | 0 <= p < q < |f + l| ensures (f + l)[p] != (f + l)[q] {
        if p < |f| <= q { assert f[p] in f && l[q - |f|] in l; }
      }
    }
  }

  // The slots as edges that carry their own position: what the counting sort moves.
  function Indexed(pool: seq<Block>, flat: seq<Loc>): (es: seq<Weights.Edge>)
    requires LocsIn(pool, flat)
    ensures |es| == |flat| && forall p | 0 <= p < |flat| :: es[p] == Weights.Edge(pool[flat[p].b].vertexID, p, 0)
  {
    seq(|flat|, p requires 0 <= p < |flat| => Weights.Edge(pool[flat[p].b].vertexID, p, 0))
  }

  // ents holds, wherever tail has a slot's position, that slot.
  ghost predicate Mirrors(pool: seq<Block>, flat: seq<Loc>, tail: seq<Sorts.Pair>, ents: seq<Slot>) {
    && LocsIn(pool, flat) && |ents| == |tail|
    && forall q | 0 <= q < |tail| && 0 <= tail[q].key < |flat| :: ents[q] == pool[flat[tail[q].key].b].edges[flat[tail[q].key].k]
  }

  lemma {:induction false} IndexedRow(es: seq<Weights.Edge>, v: int)
    requires forall p | 0 <= p < |es| :: es[p].j == p && es[p].w == 0
    ensures forall x :: x in Buckets.RowOf(es, v) <==> 0 <= x.key < |es| && x.weight == 0 && es[x.key].i == v
    ensures forall p, q | 0 <= p < q < |Buckets.RowOf(es, v)| :: Buckets.RowOf(es, v)[p].key < Buckets.RowOf(es, v)[q].key
  {
    if es != [] {
      var n := |es| - 1;
      IndexedRow(es[..n], v);
      var r := Buckets.RowOf(es[..n], v);
      forall p | 0 <= p < |r| ensures r[p].key < n { assert r[p] in r; }
    }
  }

  // ---------------------------------------------------------------- from sorted slots to the map

  // Row v of the sorted arrays holds the slots of v.
  lemma SortedEntry(s: Store, nv: nat, ntypes: nat, etype: nat, flat: seq<Loc>, off: seq<int>, tail: seq<Sorts.Pair>, ents: seq<Slot>, v: nat, q: nat)
    returns (p: nat)
    requires StoreOk(s, |s.first|, ntypes) && etype < ntypes && etype < |s.eta| && BlocksIn(s.pool, s.eta[etype]) && flat == Flat(s.pool, s.eta[etype], |s.eta[etype]|)
    requires Mirrors(s.pool, flat, tail, ents) && Buckets.Bucketed(off, tail, Buckets.RowsOf(Indexed(s.pool, flat), nv))
    requires v < nv && v + 1 < |off| && q < |ents| && InRow(off, v, q)
    ensures p < |flat| && tail[q].key == p && flat[p].b < |s.pool| && flat[p].k < |s.pool[flat[p].b].edges|
    ensures ents[q] == s.pool[flat[p].b].edges[flat[p].k] && s.pool[flat[p].b].vertexID == v
    ensures EntryOf(ents[q], v, etype, Edges(s)) && s.loc[Key(etype, v, ents[q].neighbor)] == flat[p]
  {
    var es := Indexed(s.pool, flat);
    var rows := Buckets.RowsOf(es, nv);
    assert Buckets.BucketedRow(off, tail, v, rows[v]);
    assert tail[off[v]..off[v + 1]][q - off[v]] == tail[q];
    assert tail[q] in Buckets.RowOf(es, v);
    IndexedRow(es, v);
    p := tail[q].key;
    FlatHere(s, |s.first|, ntypes, etype, flat, p);
  }

  // A listed slot is live and holds an edge of the type.
  lemma FlatHere(s: Store, nv: nat, ntypes: nat, etype: nat, flat: seq<Loc>, p: nat)
    requires StoreOk(s, nv, ntypes) && etype < ntypes && etype < |s.eta| && BlocksIn(s.pool, s.eta[etype])
    requires flat == Flat(s.pool, s.eta[etype], |s.eta[etype]|) && p < |flat|
    ensures var l := flat[p];
      && 0 < l.b < s.tail <= |s.pool| && l.k < |s.pool[l.b].edges| && Live(s.pool[l.b], l.k) && s.pool[l.b].etype == etype
      && var e := s.pool[l.b].edges[l.k];
      && var key := Key(etype, s.pool[l.b].vertexID, e.neighbor);
      && key in s.loc && s.loc[key] == l && key in Edges(s) && Edges(s)[key] == Val(e.weight, e.timeFirst, e.timeRecent)
      && 0 <= s.pool[l.b].vertexID < nv
  {
    var blocks := s.eta[etype];
    StoreElim(s, nv, ntypes);
    FlatIn(s.pool, blocks, |blocks|);
    var l := flat[p];
    assert l in flat && blocks[..|blocks|] == blocks;
    var i :| 0 <= i < |blocks| && blocks[i] == l.b;
    assert 0 < s.eta[etype][i] < s.tail && s.pool[l.b].etype == etype;
    assert LiveAt(s.pool, s.tail, l.b, l.k);
    LocFacts(s, nv, ntypes, KeyAt(s.pool, l.b, l.k));
    hide StoreOk, LinksOk, BlocksOk, CountsOk, DegreesOk;
  }

  // Every edge of the type is listed.
  lemma FlatAll(s: Store, nv: nat, ntypes: nat, etype: nat, flat: seq<Loc>, key: Key) returns (p: nat)
    requires StoreOk(s, nv, ntypes) && etype < ntypes && etype < |s.eta| && BlocksIn(s.pool, s.eta[etype])
    requires flat == Flat(s.pool, s.eta[etype], |s.eta[etype]|) && key in s.loc && key.etype == etype
    ensures p < |flat| && flat[p] == s.loc[key]
  {
    var blocks := s.eta[etype];
    StoreElim(s, nv, ntypes);
    LocFacts(s, nv, ntypes, key);
    FlatIn(s.pool, blocks, |blocks|);
    assert blocks[..|blocks|] == blocks;
    assert s.loc[key].b in blocks;
    assert s.loc[key] in flat;
    p :| p < |flat| && flat[p] == s.loc[key];
    hide StoreOk, LinksOk, BlocksOk, CountsOk, DegreesOk, LocOk;
  }

  // The slots are sorted: off and tail are the buckets, and ents holds the slots.
  ghost predicate SlotsSorted(s: Store, nv: nat, etype: nat, flat: seq<Loc>, off: seq<int>, tail: seq<Sorts.Pair>, ents: seq<Slot>) {
    && etype < |s.eta| && BlocksIn(s.pool, s.eta[etype]) && flat == Flat(s.pool, s.eta[etype], |s.eta[etype]|)
    && Mirrors(s.pool, flat, tail, ents) && |off| == nv + 1 && off[nv] == |flat| == |ents|
    && Buckets.Bucketed(off, tail, Buckets.RowsOf(Indexed(s.pool, flat), nv))
  }

  lemma SortedRows(s: Store, nv: nat, etype: nat, flat: seq<Loc>, off: seq<int>, tail: seq<Sorts.Pair>, ents: seq<Slot>)
    requires SlotsSorted(s, nv, etype, flat, off, tail, ents)
    ensures RowsFit(off, nv, |ents|)
  {
    var rows := Buckets.RowsOf(Indexed(s.pool, flat), nv);
    forall v: nat | v < nv ensures RowFits(off, v, |ents|) { assert Buckets.BucketedRow(off, tail, v, rows[v]); }
  }

  lemma SortedDistinct(s: Store, nv: nat, ntypes: nat, etype: nat, flat: seq<Loc>, off: seq<int>, tail: seq<Sorts.Pair>, ents: seq<Slot>,
                       v: nat, q: nat, r: nat)
    requires StoreOk(s, |s.first|, ntypes) && etype < ntypes && SlotsSorted(s, nv, etype, flat, off, tail, ents)
    requires v < nv && v + 1 < |off| && q < r < |ents| && InRow(off, v, q) && InRow(off, v, r)
    ensures ents[q].neighbor != ents[r].neighbor
  {
    hide StoreOk, Flat, Indexed;
    var p1 := SortedEntry(s, nv, ntypes, etype, flat, off, tail, ents, v, q);
    var p2 := SortedEntry(s, nv, ntypes, etype, flat, off, tail, ents, v, r);
    var rows := Buckets.RowsOf(Indexed(s.pool, flat), nv);
    assert Buckets.BucketedRow(off, tail, v, rows[v]);
    var row := tail[off[v]..off[v + 1]];
    assert row[q - off[v]] == tail[q] && row[r - off[v]] == tail[r];
    IndexedRow(Indexed(s.pool, flat), v);
    assert p1 < p2;
    FlatDistinct(s, |s.first|, ntypes, etype, flat, p1, p2);
  }

  lemma FlatDistinct(s: Store, nv: nat, ntypes: nat, etype: nat, flat: seq<Loc>, p: nat, q: nat)
    requires StoreOk(s, nv, ntypes) && etype < |s.eta| && BlocksIn(s.pool, s.eta[etype]) && flat == Flat(s.pool, s.eta[etype], |s.eta[etype]|)
    requires p < q < |flat|
    ensures flat[p] != flat[q]
  {
    StoreElim(s, nv, ntypes);
    FlatIn(s.pool, s.eta[etype], |s.eta[etype]|);
  }

  lemma SortedAll(s: Store, nv: nat, ntypes: nat, etype: nat, flat: seq<Loc>, off: seq<int>, tail: seq<Sorts.Pair>, ents: seq<Slot>, key: Key)
    returns (q: nat)
    requires StoreOk(s, |s.first|, ntypes) && etype < ntypes && SlotsSorted(s, nv, etype, flat, off, tail, ents)
    requires key in s.loc && key.etype == etype && key.from < nv
    ensures 0 <= key.from < nv && EntryAt(off, ents, key.from, q, key.to)
  {
    hide StoreOk, Flat, Buckets.Bucketed, BlocksIn;
    var p := FlatAll(s, |s.first|, ntypes, etype, flat, key);
    LocFacts(s, |s.first|, ntypes, key);
    assert Mirrors(s.pool, flat, tail, ents) && |off| == nv + 1;
    var es := Indexed(s.pool, flat);
    assert es[p] == Weights.Edge(key.from, p, 0);
    q := BucketHas(es, nv, off, tail, p);
    assert ents[q] == s.pool[s.loc[key].b].edges[s.loc[key].k];
  }

  // Where the item at position p of the list lies after the sort.
  lemma BucketHas(es: seq<Weights.Edge>, nv: nat, off: seq<int>, tail: seq<Sorts.Pair>, p: nat) returns (q: nat)
    requires (forall i | 0 <= i < |es| :: es[i].j == i && es[i].w == 0) && p < |es| && 0 <= es[p].i < nv
    requires Buckets.Bucketed(off, tail, Buckets.RowsOf(es, nv))
    ensures es[p].i + 1 < |off| && q < |tail| && InRow(off, es[p].i, q) && tail[q].key == p
  {
    var v := es[p].i;
    IndexedRow(es, v);
    var rows := Buckets.RowsOf(es, nv);
    assert Buckets.BucketedRow(off, tail, v, rows[v]);
    assert Sorts.Pair(p, 0) in Buckets.RowOf(es, v);
    var i :| 0 <= i < |rows[v]| && rows[v][i] == Sorts.Pair(p, 0);
    q := off[v] + i;
    assert tail[q] == tail[off[v]..off[v + 1]][i];
  }

  // The type's edges leave vertices below n only.
  ghost predicate FromBelow(loc: map<Key, Loc>, etype: int, n: nat) {
    forall key | key in loc && key.etype == etype :: key.from < n
  }

  /** Sorted slots are the CSR form of the type's edges. */
  lemma SortedIsCsr(s: Store, nv: nat, ntypes: nat, etype: nat, flat: seq<Loc>, off: seq<int>, tail: seq<Sorts.Pair>, ents: seq<Slot>)
    requires FromBelow(s.loc, etype, nv) && StoreOk(s, |s.first|, ntypes) && etype < ntypes && SlotsSorted(s, nv, etype, flat, off, tail, ents)
    ensures CsrOf(off, ents, nv, etype, Edges(s))
  {
    SortedRows(s, nv, etype, flat, off, tail, ents);
    assert Edges(s).Keys == s.loc.Keys;
    forall v: nat, q: nat | v < nv && q < |ents| && InRow(off, v, q) ensures EntryOf(ents[q], v, etype, Edges(s)) {
      var _ := SortedEntry(s, nv, ntypes, etype, flat, off, tail, ents, v, q);
    }
    forall v: nat, q: nat, r: nat | v < nv && q < r < |ents| && InRow(off, v, q) && InRow(off, v, r) ensures ents[q].neighbor != ents[r].neighbor {
      SortedDistinct(s, nv, ntypes, etype, flat, off, tail, ents, v, q, r);
    }
    forall key | key in Edges(s) && key.etype == etype
      ensures 0 <= key.from < nv && exists q: nat :: EntryAt(off, ents, key.from, q, key.to)
    {
      var q := SortedAll(s, nv, ntypes, etype, flat, off, tail, ents, key);
    }
    hide StoreOk, SlotsSorted, Edges, EntryOf, RowsFit;
  }

  // ---------------------------------------------------------------- the writer's loops

  lemma FlatNext(pool: seq<Block>, blocks: seq<nat>, n: nat)
    requires BlocksIn(pool, blocks) && n < |blocks|
    ensures Flat(pool, blocks, n + 1) == Flat(pool, blocks, n) + LiveSlots(pool, blocks[n], pool[blocks[n]].high)
  {
  }

  lemma {:induction false} FlatPrefix(pool: seq<Block>, blocks: seq<nat>, n: nat, k: nat)
    requires BlocksIn(pool, blocks) && n <= k <= |blocks|
    ensures Flat(pool, blocks, n) <= Flat(pool, blocks, k)
  {
    if n < k { FlatPrefix(pool, blocks, n, k - 1); }
  }

  // A run of items stored under one row lengthens that row alone.
  lemma {:induction false} RowsOfRun(es: seq<Weights.Edge>, k: nat, n: nat, v: int, i: int)
    requires k + n <= |es| && forall p | k <= p < k + n :: es[p].i == v
    ensures |Buckets.RowOf(es[..k + n], i)| == |Buckets.RowOf(es[..k], i)| + if i == v then n else 0
  {
    if n > 0 {
      RowsOfRun(es, k, n - 1, v, i);
      Buckets.RowOfPrefix(es, k + n - 1, i);
    }
  }

  // What the writer's loops rely on.
  ghost predicate Writing(s: Store, nv: nat, ntypes: nat, etype: nat, flat: seq<Loc>, es: seq<Weights.Edge>) {
    && FromBelow(s.loc, etype, nv) && StoreOk(s, |s.first|, ntypes) && etype < ntypes && etype < |s.eta| && BlocksIn(s.pool, s.eta[etype])
    && flat == Flat(s.pool, s.eta[etype], |s.eta[etype]|) && LocsIn(s.pool, flat) && es == Indexed(s.pool, flat)
    && forall e | e in es :: 0 <= e.i < nv
  }

  lemma WritingStarts(s: Store, nv: nat, ntypes: nat, etype: nat) returns (flat: seq<Loc>, es: seq<Weights.Edge>)
    requires StoreOk(s, |s.first|, ntypes) && etype < ntypes && FromBelow(s.loc, etype, nv)
    ensures Writing(s, nv, ntypes, etype, flat, es)
  {
    StoreElim(s, |s.first|, ntypes);
    assert BlocksIn(s.pool, s.eta[etype]) by {
      forall p | 0 <= p < |s.eta[etype]| ensures s.eta[etype][p] < |s.pool| { assert 0 < s.eta[etype][p] < s.tail; }
    }
    flat := Flat(s.pool, s.eta[etype], |s.eta[etype]|);
    forall p | 0 <= p < |flat| ensures flat[p].b < |s.pool| && flat[p].k < |s.pool[flat[p].b].edges| && 0 <= s.pool[flat[p].b].vertexID < nv {
      FlatHere(s, |s.first|, ntypes, etype, flat, p);
    }
    es := Indexed(s.pool, flat);
    hide StoreOk, LinksOk, EtaOk, BlocksOk, LocOk, CountsOk, DegreesOk, Flat;
    forall e | e in es ensures 0 <= e.i < nv {
      var p :| 0 <= p < |es| && es[p] == e;
    }
  }

  lemma WritingElim(s: Store, nv: nat, ntypes: nat, etype: nat, flat: seq<Loc>, es: seq<Weights.Edge>)
    requires Writing(s, nv, ntypes, etype, flat, es)
    ensures StoreOk(s, |s.first|, ntypes) && etype < ntypes && etype < |s.eta| && BlocksIn(s.pool, s.eta[etype]) && |es| == |flat|
    ensures FromBelow(s.loc, etype, nv)
    ensures flat == Flat(s.pool, s.eta[etype], |s.eta[etype]|) && forall e | e in es :: 0 <= e.i < nv
    ensures forall p | 0 <= p < |flat| :: flat[p].b < |s.pool| && flat[p].k < |s.pool[flat[p].b].edges| && es[p] == Weights.Edge(s.pool[flat[p].b].vertexID, p, 0)
    ensures forall n | 0 <= n < |s.eta[etype]| :: s.eta[etype][n] < |s.pool|
  {
  }

  // Block n of the type, and the stretch of the list that its live slots make.
  lemma WritingBlock(s: Store, nv: nat, ntypes: nat, etype: nat, flat: seq<Loc>, es: seq<Weights.Edge>, n: nat)
    returns (b: nat, slots: seq<Loc>, k: nat)
    requires Writing(s, nv, ntypes, etype, flat, es) && etype < |s.eta| && BlocksIn(s.pool, s.eta[etype]) && n < |s.eta[etype]|
    ensures b == s.eta[etype][n] && 0 < b < |s.pool| && s.pool[b].high <= EDGEBLOCKSIZE == |s.pool[b].edges| && 0 <= s.pool[b].vertexID && (s.pool[b].numEdges != 0 ==> s.pool[b].vertexID < nv)
    ensures slots == LiveSlots(s.pool, b, s.pool[b].high) && s.pool[b].numEdges == |slots|
    ensures k == |Flat(s.pool, s.eta[etype], n)| && |Flat(s.pool, s.eta[etype], n + 1)| == k + |slots| <= |flat| == |es|
    ensures flat[k..k + |slots|] == slots
    ensures forall p | k <= p < k + |slots| :: es[p] == Weights.Edge(s.pool[b].vertexID, p, 0)
  {
    hide *;
    WritingElim(s, nv, ntypes, etype, flat, es);
    b := s.eta[etype][n];
    RegisteredBlock(s, |s.first|, ntypes, etype, n);
    FlatNext(s.pool, s.eta[etype], n);
    FlatPrefix(s.pool, s.eta[etype], n + 1, |s.eta[etype]|);
    slots := LiveSlots(s.pool, b, s.pool[b].high);
    k := |Flat(s.pool, s.eta[etype], n)|;
    Stretch(Flat(s.pool, s.eta[etype], n), slots, flat);
    forall p | k <= p < k + |slots| ensures es[p] == Weights.Edge(s.pool[b].vertexID, p, 0) { StretchAt(s.pool, b, slots, k, flat, p); }
    if |slots| > 0 { assert es[k] in es; }
  }

  // An item of the stretch that a block's live slots make.
  lemma {:induction false} StretchAt(pool: seq<Block>, b: nat, slots: seq<Loc>, k: nat, flat: seq<Loc>, p: nat)
    requires b < |pool| && slots == LiveSlots(pool, b, pool[b].high) && k <= p < k + |slots| <= |flat| && flat[k..k + |slots|] == slots
    ensures flat[p].b == b
  {
    LiveSlotsIn(pool, b, pool[b].high);
    assert flat[p] == slots[p - k];
    assert slots[p - k] in slots;
  }

  lemma Stretch<T>(a: seq<T>, b: seq<T>, c: seq<T>)
    requires a + b <= c
    ensures c[|a|..|a| + |b|] == b
  {
    assert forall i | 0 <= i < |b| :: (a + b)[|a| + i] == b[i];
  }

  lemma RegisteredBlock(s: Store, nv: nat, ntypes: nat, etype: nat, n: nat)
    requires StoreOk(s, nv, ntypes) && etype < |s.eta| && n < |s.eta[etype]|
    ensures var b := s.eta[etype][n];
      && 0 < b < |s.pool| && s.pool[b].high <= EDGEBLOCKSIZE == |s.pool[b].edges| && 0 <= s.pool[b].vertexID < nv
      && s.pool[b].numEdges == |LiveSlots(s.pool, b, s.pool[b].high)|
  {
    StoreElim(s, nv, ntypes);
    assert 0 < s.eta[etype][n] < s.tail;
    LiveCount(s, nv, ntypes, s.eta[etype][n]);
    BlockFacts(s, nv, ntypes, s.eta[etype][n]);
    hide StoreOk, LinksOk, BlocksOk, LocOk, CountsOk, DegreesOk, LiveSlots, BlockOk;
  }

  method CountBlocks(pool: array<Block>, blocks: seq<nat>, maxVtx: nat, offsets: array<int>, ghost s: Store, ghost ntypes: nat, ghost etype: nat,
                     ghost flat: seq<Loc>, ghost es: seq<Weights.Edge>)
    requires offsets.Length == maxVtx + 2 && Writing(s, maxVtx, ntypes, etype, flat, es) && pool[..] == s.pool && blocks == s.eta[etype]
    modifies offsets
    ensures CountsRows(es, maxVtx, offsets[..])
  {
    hide *;
    var i := 0;
    while i < offsets.Length
      invariant 0 <= i <= offsets.Length && forall j | 0 <= j < i :: offsets[j] == 0
    {
      offsets[i] := 0;
      i := i + 1;
    }
    var n := 0;
    CountedStarts(s, maxVtx, ntypes, etype, flat, es, offsets[..]);
    while n < |blocks|
      invariant 0 <= n <= |blocks| && Counted(s, maxVtx, etype, es, offsets[..], n)
    {
      ghost var b := CountedNext(s, maxVtx, ntypes, etype, flat, es, offsets[..], n);
      assert pool[blocks[n]] == s.pool[blocks[n]];
      var num := pool[blocks[n]].numEdges;
      if num != 0 {
        var v := pool[blocks[n]].vertexID;
        offsets[v + 2] := offsets[v + 2] + num;
      }
      n := n + 1;
    }
    CountedDone(s, maxVtx, ntypes, etype, flat, es, offsets[..]);
  }

  // offsets[v + 2] counts the slots of v among the first k.
  ghost predicate CountedTo(es: seq<Weights.Edge>, nv: nat, offsets: seq<int>, k: nat) {
    && |offsets| == nv + 2 && offsets[0] == 0 && offsets[1] == 0 && k <= |es|
    && forall v: nat | v < nv :: offsets[v + 2] == |Buckets.RowOf(es[..k], v)|
  }

  lemma CountedRun(es: seq<Weights.Edge>, nv: nat, offsets: seq<int>, k: nat, n: nat, v0: nat)
    requires CountedTo(es, nv, offsets, k) && k + n <= |es| && v0 < nv && forall p | k <= p < k + n :: es[p].i == v0
    ensures v0 + 2 < |offsets| && CountedTo(es, nv, offsets[v0 + 2 := offsets[v0 + 2] + n], k + n)
  {
    var offsets', k' := offsets[v0 + 2 := offsets[v0 + 2] + n], k + n;
    forall v: nat | v < nv ensures offsets'[v + 2] == |Buckets.RowOf(es[..k'], v)| {
      RowsOfRun(es, k, n, v0, v);
      hide Buckets.RowOf;
    }
  }

  ghost predicate Counted(s: Store, nv: nat, etype: nat, es: seq<Weights.Edge>, offsets: seq<int>, n: nat) {
    && etype < |s.eta| && BlocksIn(s.pool, s.eta[etype]) && n <= |s.eta[etype]|
    && CountedTo(es, nv, offsets, |Flat(s.pool, s.eta[etype], n)|)
  }

  lemma CountedStarts(s: Store, nv: nat, ntypes: nat, etype: nat, flat: seq<Loc>, es: seq<Weights.Edge>, offsets: seq<int>)
    requires Writing(s, nv, ntypes, etype, flat, es) && |offsets| == nv + 2 && forall j | 0 <= j < |offsets| :: offsets[j] == 0
    ensures Counted(s, nv, etype, es, offsets, 0)
  {
    assert es[..0] == [];
  }

  lemma CountedNext(s: Store, nv: nat, ntypes: nat, etype: nat, flat: seq<Loc>, es: seq<Weights.Edge>, offsets: seq<int>, n: nat) returns (b: nat)
    requires Writing(s, nv, ntypes, etype, flat, es) && Counted(s, nv, etype, es, offsets, n) && etype < |s.eta| && n < |s.eta[etype]|
    ensures b == s.eta[etype][n] && b < |s.pool| && 0 <= s.pool[b].vertexID
    ensures s.pool[b].numEdges == 0 ==> Counted(s, nv, etype, es, offsets, n + 1)
    ensures s.pool[b].numEdges != 0 ==>
              s.pool[b].vertexID < nv && s.pool[b].vertexID + 2 < |offsets| &&
              Counted(s, nv, etype, es, offsets[s.pool[b].vertexID + 2 := offsets[s.pool[b].vertexID + 2] + s.pool[b].numEdges], n + 1)
  {
    hide *;
    CountedElim(s, nv, etype, es, offsets, n);
    var slots, k;
    b, slots, k := WritingBlock(s, nv, ntypes, etype, flat, es, n);
    if |slots| == 0 {
      CountedIntro(s, nv, etype, es, offsets, n + 1);
    } else {
      CountedRun(es, nv, offsets, k, |slots|, s.pool[b].vertexID);
      CountedIntro(s, nv, etype, es, offsets[s.pool[b].vertexID + 2 := offsets[s.pool[b].vertexID + 2] + |slots|], n + 1);
    }
  }

  lemma CountedElim(s: Store, nv: nat, etype: nat, es: seq<Weights.Edge>, offsets: seq<int>, n: nat)
    requires Counted(s, nv, etype, es, offsets, n)
    ensures etype < |s.eta| && BlocksIn(s.pool, s.eta[etype]) && n <= |s.eta[etype]|
    ensures CountedTo(es, nv, offsets, |Flat(s.pool, s.eta[etype], n)|)
  {
  }

  lemma CountedIntro(s: Store, nv: nat, etype: nat, es: seq<Weights.Edge>, offsets: seq<int>, n: nat)
    requires etype < |s.eta| && BlocksIn(s.pool, s.eta[etype]) && n <= |s.eta[etype]|
    requires CountedTo(es, nv, offsets, |Flat(s.pool, s.eta[etype], n)|)
    ensures Counted(s, nv, etype, es, offsets, n)
  {
  }

  lemma CountedDone(s: Store, nv: nat, ntypes: nat, etype: nat, flat: seq<Loc>, es: seq<Weights.Edge>, offsets: seq<int>)
    requires Writing(s, nv, ntypes, etype, flat, es) && Counted(s, nv, etype, es, offsets, |s.eta[etype]|)
    ensures CountsRows(es, nv, offsets)
  {
    assert es[..|es|] == es;
  }

  // ---------------------------------------------------------------- offsets

  // prefix_sum as the checkpoint writer uses it: inclusive.
  method InclusiveSum(a: array<int>, ghost s0: seq<int>)
    requires a[..] == s0
    modifies a
    ensures forall i | 0 <= i < a.Length :: a[i] == SumUpTo(s0, i)
  {
    var i := 1;
    while i < a.Length
      invariant 1 <= i && (i <= a.Length || a.Length == 0)
      invariant forall j | 0 <= j < i && j < a.Length :: a[j] == SumUpTo(s0, j)
      invariant forall j | i <= j < a.Length :: a[j] == s0[j]
    {
      a[i] := a[i] + a[i - 1];
      i := i + 1;
    }
  }

  function SumUpTo(s: seq<int>, i: nat): int
    requires i < |s|
  {
    if i == 0 then s[0] else SumUpTo(s, i - 1) + s[i]
  }

  // With the rows' sizes from place 2 on, place v + 1 of the sums is where row v starts.
  lemma {:induction false} SumsAreStarts(es: seq<Weights.Edge>, nv: nat, s: seq<int>, v: nat)
    requires |s| == nv + 2 && s[0] == 0 && s[1] == 0 && (forall u: nat | u < nv :: s[u + 2] == |Buckets.RowOf(es, u)|) && v <= nv
    ensures SumUpTo(s, v + 1) == Buckets.RowStart(es, v)
  {
    if v > 0 {
      SumsAreStarts(es, nv, s, v - 1);
    } else {
      assert SumUpTo(s, 1) == SumUpTo(s, 0) + s[1];
    }
  }

  // ---------------------------------------------------------------- filling

  // The live slots of the first n blocks, and the first j of the next one, are in place.
  ghost predicate Placed(s: Store, nv: nat, etype: nat, flat: seq<Loc>, es: seq<Weights.Edge>, k: nat, off: seq<int>, tail: seq<Sorts.Pair>, ents: seq<Slot>) {
    Buckets.Placing(es, nv, k, off, tail) && Mirrors(s.pool, flat, tail, ents) && |ents| == |es| == |flat|
  }

  // One slot goes to its row's place.
  lemma PlaceSlot(s: Store, nv: nat, ntypes: nat, etype: nat, flat: seq<Loc>, es: seq<Weights.Edge>, k: nat, off: seq<int>, tail: seq<Sorts.Pair>, ents: seq<Slot>)
    returns (v: nat, e: Slot, off': seq<int>, tail': seq<Sorts.Pair>)
    requires Writing(s, nv, ntypes, etype, flat, es) && Placed(s, nv, etype, flat, es, k, off, tail, ents) && k < |es|
    ensures k < |flat| && flat[k].b < |s.pool| && flat[k].k < |s.pool[flat[k].b].edges|
    ensures v == s.pool[flat[k].b].vertexID && e == s.pool[flat[k].b].edges[flat[k].k]
    ensures v < nv && v + 1 < |off| && 0 <= off[v + 1] < |ents| && off' == off[v + 1 := off[v + 1] + 1]
    ensures Placed(s, nv, etype, flat, es, k + 1, off', tail', ents[off[v + 1] := e])
  {
    hide *;
    WritingElim(s, nv, ntypes, etype, flat, es);
    PlacedElim(s, nv, etype, flat, es, k, off, tail, ents);
    Buckets.PlaceNext(es, nv, k, off, tail);
    v := es[k].i;
    e := s.pool[flat[k].b].edges[flat[k].k];
    off', tail' := off[v + 1 := off[v + 1] + 1], tail[off[v + 1] := Sorts.Pair(es[k].j, es[k].w)];
    MirrorsNext(s.pool, flat, tail, ents, k, off[v + 1]);
    PlacedIntro(s, nv, etype, flat, es, k + 1, off', tail', ents[off[v + 1] := e]);
  }

  lemma PlacedElim(s: Store, nv: nat, etype: nat, flat: seq<Loc>, es: seq<Weights.Edge>, k: nat, off: seq<int>, tail: seq<Sorts.Pair>, ents: seq<Slot>)
    requires Placed(s, nv, etype, flat, es, k, off, tail, ents)
    ensures Buckets.Placing(es, nv, k, off, tail) && Mirrors(s.pool, flat, tail, ents) && |ents| == |es| == |flat| == |tail| && |off| == nv + 1
  {
  }

  lemma PlacedIntro(s: Store, nv: nat, etype: nat, flat: seq<Loc>, es: seq<Weights.Edge>, k: nat, off: seq<int>, tail: seq<Sorts.Pair>, ents: seq<Slot>)
    requires Buckets.Placing(es, nv, k, off, tail) && Mirrors(s.pool, flat, tail, ents) && |ents| == |es| == |flat|
    ensures Placed(s, nv, etype, flat, es, k, off, tail, ents)
  {
  }

  lemma MirrorsNext(pool: seq<Block>, flat: seq<Loc>, tail: seq<Sorts.Pair>, ents: seq<Slot>, k: nat, at: nat)
    requires Mirrors(pool, flat, tail, ents) && k < |flat| && at < |tail|
    ensures flat[k].b < |pool| && flat[k].k < |pool[flat[k].b].edges| && at < |ents|
    ensures Mirrors(pool, flat, tail[at := Sorts.Pair(k, 0)], ents[at := pool[flat[k].b].edges[flat[k].k]])
  {
  }

  lemma {:induction false} LiveSlotsPrefix(pool: seq<Block>, b: nat, n: nat, k: nat)
    requires b < |pool| && n <= k
    ensures LiveSlots(pool, b, n) <= LiveSlots(pool, b, k)
  {
    if n < k { LiveSlotsPrefix(pool, b, n, k - 1); }
  }

  // Which entry of the list a live slot is.
  lemma SlotHere(s: Store, flat: seq<Loc>, b: nat, high: nat, k0: nat, kk: nat)
    requires b < |s.pool| && kk < high && Live(s.pool[b], kk)
    requires k0 + |LiveSlots(s.pool, b, high)| <= |flat| && flat[k0..k0 + |LiveSlots(s.pool, b, high)|] == LiveSlots(s.pool, b, high)
    ensures var n := |LiveSlots(s.pool, b, kk)|;
      && LiveSlots(s.pool, b, kk + 1) == LiveSlots(s.pool, b, kk) + [Loc(b, kk)]
      && n < |LiveSlots(s.pool, b, high)| && k0 + n < |flat| && flat[k0 + n] == Loc(b, kk)
  {
    LiveSlotsPrefix(s.pool, b, kk + 1, high);
    var n := |LiveSlots(s.pool, b, kk)|;
    assert LiveSlots(s.pool, b, kk + 1)[n] == Loc(b, kk);
    assert flat[k0..k0 + |LiveSlots(s.pool, b, high)|][n] == flat[k0 + n];
  }

  // Live slots do not come back once all have been seen.
  lemma AllLive(pool: seq<Block>, b: nat, kk: nat, high: nat)
    requires b < |pool| && kk <= high
    ensures |LiveSlots(pool, b, kk)| <= |LiveSlots(pool, b, high)|
  {
    LiveSlotsPrefix(pool, b, kk, high);
  }

  // One block's live slots, moved to the row of its source.
  method FillBlock(pool: array<Block>, b: nat, nv: nat, offsets: array<int>, ents: array<Slot>, ghost s: Store, ghost ntypes: nat, ghost etype: nat,
                   ghost flat: seq<Loc>, ghost es: seq<Weights.Edge>, ghost slots: seq<Loc>, ghost k0: nat, ghost tail0: seq<Sorts.Pair>)
    returns (ghost tail: seq<Sorts.Pair>)
    requires offsets.Length == nv + 2 && Writing(s, nv, ntypes, etype, flat, es) && pool[..] == s.pool && b < |s.pool| && |es| == |flat|
    requires s.pool[b].high <= EDGEBLOCKSIZE == |s.pool[b].edges| && 0 <= s.pool[b].vertexID && (s.pool[b].numEdges != 0 ==> s.pool[b].vertexID < nv)
    requires slots == LiveSlots(s.pool, b, s.pool[b].high) && s.pool[b].numEdges == |slots| && k0 + |slots| <= |flat| && flat[k0..k0 + |slots|] == slots
    requires forall p | k0 <= p < k0 + |slots| :: es[p] == Weights.Edge(s.pool[b].vertexID, p, 0)
    requires Placed(s, nv, etype, flat, es, k0, offsets[..nv + 1], tail0, ents[..])
    modifies offsets, ents
    ensures Placed(s, nv, etype, flat, es, k0 + |slots|, offsets[..nv + 1], tail, ents[..])
    ensures offsets[nv + 1] == old(offsets[nv + 1])
  {
    hide *;
    assert pool[b] == s.pool[b];
    tail := tail0;
    var num := pool[b].numEdges;
    if num != 0 {
      var v := pool[b].vertexID;
      ghost var off0 := offsets[..nv + 1];
      var myOff := offsets[v + 1];
      var stop := myOff + num;
      offsets[v + 1] := stop;
      ghost var off, start, offsets1 := off0, myOff, offsets[..];
      LiveNone(s.pool, b);
      var k := 0;
      while k < pool[b].high && myOff < stop
        invariant 0 <= k <= pool[b].high && |LiveSlots(s.pool, b, k)| <= num && myOff == start + |LiveSlots(s.pool, b, k)|
        invariant offsets[..] == offsets1 && |off| == nv + 1 && off == off0[v + 1 := myOff]
        invariant Placed(s, nv, etype, flat, es, k0 + |LiveSlots(s.pool, b, k)|, off, tail, ents[..])
      {
        if pool[b].edges[k].neighbor >= 0 {
          LiveIs(s.pool, b, k);
          SlotHere(s, flat, b, pool[b].high, k0, k);
          ghost var ents0 := ents[..];
          ghost var w, e;
          w, e, off, tail := PlaceSlot(s, nv, ntypes, etype, flat, es, k0 + |LiveSlots(s.pool, b, k)|, off, tail, ents0);
          ents[myOff] := pool[b].edges[k];
          myOff := myOff + 1;
        } else {
          LiveIs(s.pool, b, k);
        }
        AllLive(s.pool, b, k + 1, pool[b].high);
        k := k + 1;
      }
      assert off == offsets1[..nv + 1] == offsets[..nv + 1];
      assert offsets1[nv + 1] == offsets[nv + 1];
    }
  }

  lemma LiveNone(pool: seq<Block>, b: nat)
    requires b < |pool|
    ensures LiveSlots(pool, b, 0) == []
  {
  }

  lemma LiveIs(pool: seq<Block>, b: nat, k: nat)
    requires b < |pool| && k < pool[b].high && k < |pool[b].edges|
    ensures Live(pool[b], k) <==> pool[b].edges[k].neighbor >= 0
    ensures LiveSlots(pool, b, k + 1) == LiveSlots(pool, b, k) + if Live(pool[b], k) then [Loc(b, k)] else []
  {
  }

  // The offsets before the blocks are filled in.
  lemma PlacedStarts(s: Store, nv: nat, ntypes: nat, etype: nat, flat: seq<Loc>, es: seq<Weights.Edge>, off: seq<int>, ents: seq<Slot>)
    returns (tail: seq<Sorts.Pair>)
    requires Writing(s, nv, ntypes, etype, flat, es) && |off| >= nv + 1 && |ents| == |es|
    requires forall v: nat | v <= nv :: off[v] == StartBefore(es, v)
    ensures Placed(s, nv, etype, flat, es, 0, off[..nv + 1], tail, ents)
  {
    WritingElim(s, nv, ntypes, etype, flat, es);
    tail := seq(|es|, _ => Sorts.Pair(-1, 0));
    forall v: nat | v < nv ensures off[..nv + 1][v + 1] == Buckets.RowStart(es, v) { assert off[v + 1] == StartBefore(es, v + 1); }
    Buckets.PlacingStarts(es, nv, off[..nv + 1], tail);
    hide Writing, StoreOk, Flat, Buckets.Placing, BlocksIn;
  }

  lemma PlacedDone(s: Store, nv: nat, ntypes: nat, etype: nat, flat: seq<Loc>, es: seq<Weights.Edge>, off: seq<int>, tail: seq<Sorts.Pair>, ents: seq<Slot>)
    requires Writing(s, nv, ntypes, etype, flat, es) && Placed(s, nv, etype, flat, es, |es|, off, tail, ents)
    ensures CsrOf(off, ents, nv, etype, Edges(s))
  {
    hide *;
    WritingElim(s, nv, ntypes, etype, flat, es);
    PlacedElim(s, nv, etype, flat, es, |es|, off, tail, ents);
    Buckets.PlacingEnds(es, nv, off, tail);
    SortedIntro(s, nv, ntypes, etype, flat, es, off, tail, ents);
    SortedIsCsr(s, nv, ntypes, etype, flat, off, tail, ents);
  }

  lemma SortedIntro(s: Store, nv: nat, ntypes: nat, etype: nat, flat: seq<Loc>, es: seq<Weights.Edge>, off: seq<int>, tail: seq<Sorts.Pair>, ents: seq<Slot>)
    requires Writing(s, nv, ntypes, etype, flat, es) && Mirrors(s.pool, flat, tail, ents) && |off| == nv + 1 && off[nv] == |es| == |ents|
    requires Buckets.Bucketed(off, tail, Buckets.RowsOf(es, nv))
    ensures SlotsSorted(s, nv, etype, flat, off, tail, ents)
  {
    hide StoreOk, Mirrors, Buckets.Bucketed, Flat;
  }

  // Place v is the start of row v - 1, as the fill-in loop finds it.
  function StartBefore(es: seq<Weights.Edge>, v: nat): nat { if v == 0 then 0 else Buckets.RowStart(es, v - 1) }

  predicate CountsRows(es: seq<Weights.Edge>, nv: nat, counts: seq<int>) {
    && |counts| == nv + 2 && counts[0] == 0 && counts[1] == 0
    && forall v: nat | v < nv :: counts[v + 2] == |Buckets.RowOf(es, v)|
  }

  lemma SumAt(es: seq<Weights.Edge>, nv: nat, counts: seq<int>, v: nat)
    requires CountsRows(es, nv, counts) && v <= nv
    ensures SumUpTo(counts, v) == StartBefore(es, v)
    ensures (forall e | e in es :: 0 <= e.i < nv) ==> SumUpTo(counts, nv + 1) == |es|
  {
    SumsAreStarts(es, nv, counts, nv);
    if v > 0 { SumsAreStarts(es, nv, counts, v - 1); }
    if forall e | e in es :: 0 <= e.i < nv { Buckets.RowStartTotal(es, nv); }
    hide Buckets.RowStart, Buckets.RowOf;
  }

  lemma SumsDone(es: seq<Weights.Edge>, nv: nat, counts: seq<int>, sums: seq<int>)
    requires CountsRows(es, nv, counts) && |sums| == nv + 2 && forall i | 0 <= i < |sums| :: sums[i] == SumUpTo(counts, i)
    requires forall e | e in es :: 0 <= e.i < nv
    ensures sums[nv + 1] == |es| && forall v: nat | v <= nv :: sums[v] == StartBefore(es, v)
  {
    assert |counts| == nv + 2;
    hide *;
    SumAt(es, nv, counts, 0);
    forall v: nat | v <= nv ensures sums[v] == StartBefore(es, v) { SumAt(es, nv, counts, v); }
  }

  // Which blocks of the type have been filled in.
  ghost predicate Filling(s: Store, nv: nat, etype: nat, flat: seq<Loc>, es: seq<Weights.Edge>, n: nat, off: seq<int>, tail: seq<Sorts.Pair>, ents: seq<Slot>) {
    && etype < |s.eta| && BlocksIn(s.pool, s.eta[etype]) && n <= |s.eta[etype]|
    && Placed(s, nv, etype, flat, es, |Flat(s.pool, s.eta[etype], n)|, off, tail, ents)
  }

  lemma FillingIntro(s: Store, nv: nat, ntypes: nat, etype: nat, flat: seq<Loc>, es: seq<Weights.Edge>, n: nat, k: nat, off: seq<int>, tail: seq<Sorts.Pair>, ents: seq<Slot>)
    requires Writing(s, nv, ntypes, etype, flat, es) && etype < |s.eta| && BlocksIn(s.pool, s.eta[etype]) && n <= |s.eta[etype]|
    requires Placed(s, nv, etype, flat, es, k, off, tail, ents) && k == |Flat(s.pool, s.eta[etype], n)|
    ensures Filling(s, nv, etype, flat, es, n, off, tail, ents)
  {
  }

  lemma FillingElim(s: Store, nv: nat, ntypes: nat, etype: nat, flat: seq<Loc>, es: seq<Weights.Edge>, n: nat, off: seq<int>, tail: seq<Sorts.Pair>, ents: seq<Slot>)
    requires Writing(s, nv, ntypes, etype, flat, es) && Filling(s, nv, etype, flat, es, n, off, tail, ents)
    ensures etype < |s.eta| && BlocksIn(s.pool, s.eta[etype]) && n <= |s.eta[etype]| && |es| == |flat|
    ensures Placed(s, nv, etype, flat, es, |Flat(s.pool, s.eta[etype], n)|, off, tail, ents)
    ensures n == |s.eta[etype]| ==> |Flat(s.pool, s.eta[etype], n)| == |es|
    ensures Flat(s.pool, s.eta[etype], 0) == []
  {
    hide Placed, StoreOk;
  }

  /**
   stinger_save_to_file, its building half for one type: the arrays are the CSR form of the type's
   edges.  No edge of the type leaves a vertex from maxVtx on.
   */
  method BuildCsr(pool: array<Block>, blocks: seq<nat>, maxVtx: nat, offsets: array<int>, ghost s: Store, ghost ntypes: nat, ghost etype: nat)
    returns (ents: array<Slot>)
    requires offsets.Length == maxVtx + 2 && pool[..] == s.pool && StoreOk(s, |s.first|, ntypes) && FromBelow(s.loc, etype, maxVtx) && etype < ntypes && etype < |s.eta| && blocks == s.eta[etype]
    modifies offsets
    ensures fresh(ents) && CsrOf(offsets[..maxVtx + 1], ents[..], maxVtx, etype, Edges(s))
  {
    hide *;
    ghost var flat, es := WritingStarts(s, maxVtx, ntypes, etype);
    WritingElim(s, maxVtx, ntypes, etype, flat, es);
    CountBlocks(pool, blocks, maxVtx, offsets, s, ntypes, etype, flat, es);
    ghost var counts := offsets[..];
    InclusiveSum(offsets, counts);
    SumsDone(es, maxVtx, counts, offsets[..]);
    ents := new Slot[offsets[maxVtx + 1]](_ => Slot(0, 0, 0, 0));
    ghost var tail := PlacedStarts(s, maxVtx, ntypes, etype, flat, es, offsets[..], ents[..]);
    assert offsets[..][..maxVtx + 1] == offsets[..maxVtx + 1];
    var n := 0;
    FlatNone(s.pool, blocks);
    FillingIntro(s, maxVtx, ntypes, etype, flat, es, 0, 0, offsets[..maxVtx + 1], tail, ents[..]);
    while n < |blocks|
      invariant 0 <= n <= |blocks| && fresh(ents) && pool[..] == s.pool
      invariant Filling(s, maxVtx, etype, flat, es, n, offsets[..maxVtx + 1], tail, ents[..])
    {
      FillingElim(s, maxVtx, ntypes, etype, flat, es, n, offsets[..maxVtx + 1], tail, ents[..]);
      ghost var b, slots, k := WritingBlock(s, maxVtx, ntypes, etype, flat, es, n);
      tail := FillBlock(pool, blocks[n], maxVtx, offsets, ents, s, ntypes, etype, flat, es, slots, k, tail);
      FillingIntro(s, maxVtx, ntypes, etype, flat, es, n + 1, k + |slots|, offsets[..maxVtx + 1], tail, ents[..]);
      n := n + 1;
    }
    FillingElim(s, maxVtx, ntypes, etype, flat, es, n, offsets[..maxVtx + 1], tail, ents[..]);
    PlacedDone(s, maxVtx, ntypes, etype, flat, es, offsets[..maxVtx + 1], tail, ents[..]);
  }

  lemma FlatNone(pool: seq<Block>, blocks: seq<nat>)
    requires BlocksIn(pool, blocks)
    ensures Flat(pool, blocks, 0) == []
  {
  }
}
