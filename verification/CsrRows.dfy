/**
 The CSR arrays that the loader reads: how their rows are cut into blocks, and the map they add up to.
 */
module CsrRows {
  import opened EdgeBlocks
  import opened CsrBuild

  // ---------------------------------------------------------------- rows

  predicate Rows(off: seq<int>, n: nat, size: nat) {
    n < |off| && forall v: nat | v < n :: RowFits(off, v, size)
  }

  predicate EntryFits(e: Slot, v: int, nv: nat) {
    0 <= e.neighbor < nv && e.neighbor != v && e.weight != MARKER && e.timeFirst != MARKER
  }

  // A row of edges from v: admissible, and no target twice.
  predicate RowOk(row: seq<Slot>, v: int, nv: nat) {
    && (forall q | 0 <= q < |row| :: EntryFits(row[q], v, nv))
    && (forall q, r | 0 <= q < r < |row| :: row[q].neighbor != row[r].neighbor)
  }

  function Row(off: seq<int>, ents: seq<Slot>, v: nat): seq<Slot>
    requires v + 1 < |off| && RowFits(off, v, |ents|)
  {
    ents[off[v]..off[v + 1]]
  }

  ghost predicate RowsOk(off: seq<int>, ents: seq<Slot>, n: nat, nv: nat) {
    Rows(off, n, |ents|) && forall v: nat | v < n :: RowOk(Row(off, ents, v), v, nv)
  }

  // ---------------------------------------------------------------- the map

  function WithEntry(m: map<Key, Val>, etype: int, v: int, e: Slot): map<Key, Val> {
    m[Key(etype, v, e.neighbor) := Val(e.weight, e.timeFirst, e.timeRecent)]
  }

  function WithEntries(m: map<Key, Val>, etype: int, v: int, es: seq<Slot>): map<Key, Val> {
    if es == [] then m else WithEntry(WithEntries(m, etype, v, es[..|es| - 1]), etype, v, es[|es| - 1])
  }

  // The map after the first n rows.
  function WithRows(m: map<Key, Val>, etype: int, off: seq<int>, ents: seq<Slot>, n: nat): map<Key, Val>
    requires Rows(off, n, |ents|)
  {
    if n == 0 then m else WithEntries(WithRows(m, etype, off, ents, n - 1), etype, n - 1, Row(off, ents, n - 1))
  }

  lemma {:induction false} WithBoth(m: map<Key, Val>, etype: int, v: int, es: seq<Slot>, fs: seq<Slot>)
    ensures WithEntries(m, etype, v, es + fs) == WithEntries(WithEntries(m, etype, v, es), etype, v, fs)
  {
    if fs == [] {
      assert es + fs == es;
    } else {
      var n := |fs| - 1;
      assert (es + fs)[..|es + fs| - 1] == es + fs[..n];
      WithBoth(m, etype, v, es, fs[..n]);
    }
  }

  // Which keys a row adds, and with which values.
  lemma {:induction false} WithEntriesIs(m: map<Key, Val>, etype: int, v: int, es: seq<Slot>, key: Key)
    ensures key in WithEntries(m, etype, v, es) <==>
      key in m || (key.etype == etype && key.from == v && exists q :: 0 <= q < |es| && es[q].neighbor == key.to)
    ensures !(key.etype == etype && key.from == v) && key in m ==> WithEntries(m, etype, v, es)[key] == m[key]
  {
    if es != [] {
      var n := |es| - 1;
      WithEntriesIs(m, etype, v, es[..n], key);
      assert forall q | 0 <= q < n :: es[..n][q] == es[q];
    }
  }

  lemma {:induction false} WithEntriesAt(m: map<Key, Val>, etype: int, v: int, es: seq<Slot>, q: nat)
    requires q < |es| && forall r | q < r < |es| :: es[r].neighbor != es[q].neighbor
    ensures Key(etype, v, es[q].neighbor) in WithEntries(m, etype, v, es)
    ensures WithEntries(m, etype, v, es)[Key(etype, v, es[q].neighbor)] == Val(es[q].weight, es[q].timeFirst, es[q].timeRecent)
  {
    var n := |es| - 1;
    if q < n { WithEntriesAt(m, etype, v, es[..n], q); }
  }

  // Rows only add keys of their type and of vertices before n.
  lemma {:induction false} WithRowsIs(m: map<Key, Val>, etype: int, off: seq<int>, ents: seq<Slot>, n: nat, key: Key)
    requires Rows(off, n, |ents|)
    ensures key in WithRows(m, etype, off, ents, n) ==> key in m || (key.etype == etype && 0 <= key.from < n)
    ensures key in m ==> key in WithRows(m, etype, off, ents, n)
    ensures key.etype != etype && key in m ==> WithRows(m, etype, off, ents, n)[key] == m[key]
  {
    if n > 0 {
      WithRowsIs(m, etype, off, ents, n - 1, key);
      WithEntriesIs(WithRows(m, etype, off, ents, n - 1), etype, n - 1, Row(off, ents, n - 1), key);
    }
  }

  lemma {:induction false} WithRowsAt(m: map<Key, Val>, etype: int, off: seq<int>, ents: seq<Slot>, n: nat, key: Key)
    requires Rows(off, n, |ents|) && key !in m
    ensures key in WithRows(m, etype, off, ents, n) <==>
      key.etype == etype && 0 <= key.from < n && exists q :: 0 <= q < |Row(off, ents, key.from)| && Row(off, ents, key.from)[q].neighbor == key.to
  {
    if n > 0 {
      WithRowsAt(m, etype, off, ents, n - 1, key);
      WithEntriesIs(WithRows(m, etype, off, ents, n - 1), etype, n - 1, Row(off, ents, n - 1), key);
    }
  }

  lemma {:induction false} WithRowsVal(m: map<Key, Val>, etype: int, off: seq<int>, ents: seq<Slot>, n: nat, v: nat, q: nat)
    requires Rows(off, n, |ents|) && v < n && q < |Row(off, ents, v)|
    requires forall r | q < r < |Row(off, ents, v)| :: Row(off, ents, v)[r].neighbor != Row(off, ents, v)[q].neighbor
    ensures var e := Row(off, ents, v)[q];
      && Key(etype, v, e.neighbor) in WithRows(m, etype, off, ents, n)
      && WithRows(m, etype, off, ents, n)[Key(etype, v, e.neighbor)] == Val(e.weight, e.timeFirst, e.timeRecent)
  {
    var row := Row(off, ents, n - 1);
    if v == n - 1 {
      WithEntriesAt(WithRows(m, etype, off, ents, n - 1), etype, v, row, q);
    } else {
      WithRowsVal(m, etype, off, ents, n - 1, v, q);
      WithEntriesIs(WithRows(m, etype, off, ents, n - 1), etype, n - 1, row, Key(etype, v, Row(off, ents, v)[q].neighbor));
    }
  }

  // m with the edges of one type from m'.
  function WithType(m: map<Key, Val>, m': map<Key, Val>, etype: int): map<Key, Val> {
    map key | key in m.Keys + m'.Keys && (key.etype == etype ==> key in m') && (key.etype != etype ==> key in m)
      :: if key.etype == etype then m'[key] else m[key]
  }

  lemma RowIs(off: seq<int>, ents: seq<Slot>, n: nat, v: nat, m': map<Key, Val>, etype: int)
    requires CsrOf(off, ents, n, etype, m') && v < n
    ensures RowFits(off, v, |ents|)
    ensures forall q | 0 <= q < |Row(off, ents, v)| :: Row(off, ents, v)[q] == ents[off[v] + q] && EntryOf(Row(off, ents, v)[q], v, etype, m')
    ensures forall q, r | 0 <= q < r < |Row(off, ents, v)| :: Row(off, ents, v)[q].neighbor != Row(off, ents, v)[r].neighbor
  {
    assert RowFits(off, v, |ents|);
    var row := Row(off, ents, v);
    forall q | 0 <= q < |row| ensures row[q] == ents[off[v] + q] && EntryOf(row[q], v, etype, m') {
      assert InRow(off, v, off[v] + q);
    }
    forall q, r | 0 <= q < r < |row| ensures row[q].neighbor != row[r].neighbor {
      assert InRow(off, v, off[v] + q) && InRow(off, v, off[v] + r);
    }
  }

  /** Arrays built from a map's edges of one type carry exactly these edges, weights and stamps over to another map. */
  lemma RowsCarry(m: map<Key, Val>, etype: int, off: seq<int>, ents: seq<Slot>, n: nat, m': map<Key, Val>)
    requires CsrOf(off, ents, n, etype, m') && forall key | key in m :: key.etype != etype
    ensures Rows(off, n, |ents|) && WithRows(m, etype, off, ents, n) == WithType(m, m', etype)
  {
    var m1 := WithRows(m, etype, off, ents, n);
    forall key ensures key in m1 <==> key in WithType(m, m', etype)
      ensures key in m1 ==> m1[key] == WithType(m, m', etype)[key]
    {
      if key in m {
        WithRowsIs(m, etype, off, ents, n, key);
      } else if key.etype == etype {
        CarriedKey(m, etype, off, ents, n, m', key);
      } else {
        WithRowsAt(m, etype, off, ents, n, key);
      }
    }
  }

  lemma CarriedKey(m: map<Key, Val>, etype: int, off: seq<int>, ents: seq<Slot>, n: nat, m': map<Key, Val>, key: Key)
    requires CsrOf(off, ents, n, etype, m') && key.etype == etype && key !in m && Rows(off, n, |ents|)
    ensures key in WithRows(m, etype, off, ents, n) <==> key in m'
    ensures key in m' ==> WithRows(m, etype, off, ents, n)[key] == m'[key]
  {
    WithRowsAt(m, etype, off, ents, n, key);
    if 0 <= key.from < n {
      RowIs(off, ents, n, key.from, m', etype);
      if key in m' {
        var q: nat :| EntryAt(off, ents, key.from, q, key.to);
        assert Row(off, ents, key.from)[q - off[key.from]] == ents[q];
        WithRowsVal(m, etype, off, ents, n, key.from, q - off[key.from]);
      }
    }
  }

  // ---------------------------------------------------------------- how many blocks

  function Deg(off: seq<int>, v: nat): int
    requires v + 1 < |off|
  {
    off[v + 1] - off[v]
  }

  function BlocksFor(deg: int): int { (deg + EDGEBLOCKSIZE - 1) / EDGEBLOCKSIZE }

  // The place of v's first block among all.
  function BlkStart(off: seq<int>, n: nat, size: nat, v: nat): nat
    requires Rows(off, n, size) && v <= n
  {
    if v == 0 then 0 else (assert RowFits(off, v - 1, size); BlkStart(off, n, size, v - 1) + BlocksFor(Deg(off, v - 1)))
  }

  lemma {:induction false} BlkStartOrder(off: seq<int>, n: nat, size: nat, u: nat, v: nat)
    requires Rows(off, n, size) && u <= v <= n
    ensures BlkStart(off, n, size, u) <= BlkStart(off, n, size, v)
  {
    if u < v {
      BlkStartOrder(off, n, size, u, v - 1);
      assert RowFits(off, v - 1, size);
    }
  }

  // blkoff[v] is where v's blocks begin.
  ghost predicate BlockOffsets(off: seq<int>, n: nat, size: nat, blkoff: seq<int>) {
    && Rows(off, n, size) && |blkoff| == n + 1
    && forall v: nat | v <= n :: blkoff[v] == BlkStart(off, n, size, v)
  }

  lemma BlockOffsetsAt(off: seq<int>, n: nat, size: nat, blkoff: seq<int>, v: nat)
    requires BlockOffsets(off, n, size, blkoff) && v < n
    ensures v + 1 < |off| && |blkoff| == n + 1 && RowFits(off, v, size)
    ensures 0 <= blkoff[v] <= blkoff[v + 1] == blkoff[v] + BlocksFor(Deg(off, v)) && blkoff[v + 1] <= blkoff[n] && blkoff[0] == 0
  {
    BlkStartOrder(off, n, size, v + 1, n);
  }

  // What a block count becomes when the counts before it are added up.
  lemma BlkStartNext(off: seq<int>, n: nat, size: nat, v: nat)
    requires Rows(off, n, size) && v < n
    ensures v + 1 < |off| && BlkStart(off, n, size, 0) == 0
    ensures BlkStart(off, n, size, v + 1) == BlkStart(off, n, size, v) + BlocksFor(Deg(off, v))
  {
  }

  lemma BlkStartFirst(off: seq<int>, n: nat, size: nat)
    requires Rows(off, n, size)
    ensures BlkStart(off, n, size, 0) == 0
  {
  }

  method CountBlocksFor(off: seq<int>, n: nat, ghost size: nat) returns (blkoff: array<int>)
    requires Rows(off, n, size)
    ensures fresh(blkoff) && BlockOffsets(off, n, size, blkoff[..])
  {
    blkoff := new int[n + 1](_ => 0);
    var v := 0;
    while v < n
      invariant 0 <= v <= n && blkoff[0] == 0
      invariant forall u: nat | u < v :: blkoff[u + 1] == BlocksFor(Deg(off, u))
    {
      var deg := off[v + 1] - off[v];
      blkoff[v + 1] := (deg + EDGEBLOCKSIZE - 1) / EDGEBLOCKSIZE;
      v := v + 1;
    }
    SumBlocks(off, n, size, blkoff);
  }

  method SumBlocks(off: seq<int>, n: nat, ghost size: nat, blkoff: array<int>)
    requires Rows(off, n, size) && blkoff.Length == n + 1 && blkoff[0] == 0
    requires forall u: nat | u < n :: blkoff[u + 1] == BlocksFor(Deg(off, u))
    modifies blkoff
    ensures BlockOffsets(off, n, size, blkoff[..])
  {
    hide Rows, BlkStart, BlocksFor, Deg;
    BlkStartFirst(off, n, size);
    if n > 0 { BlkStartNext(off, n, size, 0); }
    var v := 2;
    while v <= n
      invariant 2 <= v && blkoff[0] == 0
      invariant forall u: nat | u < v && u <= n :: blkoff[u] == BlkStart(off, n, size, u)
      invariant forall u: nat | v <= u <= n :: blkoff[u] == old(blkoff[u])
    {
      BlkStartNext(off, n, size, v - 1);
      blkoff[v] := blkoff[v] + blkoff[v - 1];
      v := v + 1;
    }
  }

  // ---------------------------------------------------------------- which entries go where

  function ChunkStart(off: seq<int>, blkoff: seq<int>, v: nat, k: nat): int
    requires v + 1 < |off| && v < |blkoff|
  {
    off[v] + EDGEBLOCKSIZE * (k - blkoff[v])
  }

  function ChunkEnd(off: seq<int>, blkoff: seq<int>, v: nat, k: nat): int
    requires v + 1 < |off| && v < |blkoff|
  {
    var at := ChunkStart(off, blkoff, v, k);
    if at + EDGEBLOCKSIZE >= off[v + 1] then off[v + 1] else at + EDGEBLOCKSIZE
  }

  // Block k of v gets some of v's entries, and the row ends with v's last block.
  lemma ChunkFits(off: seq<int>, n: nat, size: nat, blkoff: seq<int>, v: nat, k: nat)
    requires BlockOffsets(off, n, size, blkoff) && v < n && v < |blkoff| && v + 1 < |off| && v + 1 < |blkoff| && blkoff[v] <= k < blkoff[v + 1]
    ensures 0 <= off[v] <= ChunkStart(off, blkoff, v, k) < ChunkEnd(off, blkoff, v, k) <= off[v + 1] <= size
    ensures ChunkEnd(off, blkoff, v, k) - ChunkStart(off, blkoff, v, k) <= EDGEBLOCKSIZE
    ensures k + 1 < blkoff[v + 1] ==> ChunkEnd(off, blkoff, v, k) == ChunkStart(off, blkoff, v, k + 1)
    ensures k + 1 == blkoff[v + 1] ==> ChunkEnd(off, blkoff, v, k) == off[v + 1]
  {
    BlockOffsetsAt(off, n, size, blkoff, v);
  }
}
