/**
 How many blocks a checkpoint needs when it is loaded: never more than the store it was built from
 has, since a row of a vertex's edges of one type takes as few blocks as can hold it.
 */
module CsrRoom {
  import opened EdgeBlocks
  import opened CsrBuild
  import opened CsrRows

  // The arrays of each type hold the edges of that type.
  ghost predicate Saved(m: map<Key, Val>, offs: seq<seq<int>>, entss: seq<seq<Slot>>, n: nat) {
    |offs| == |entss| && forall t: nat | t < |offs| :: CsrOf(offs[t], entss[t], n, t, m)
  }

  ghost predicate AllRows(offs: seq<seq<int>>, entss: seq<seq<Slot>>, n: nat) {
    |offs| == |entss| && forall t: nat | t < |offs| :: Rows(offs[t], n, |entss[t]|)
  }

  // How many blocks the rows of the first t types take.
  ghost function BlocksNeeded(offs: seq<seq<int>>, entss: seq<seq<Slot>>, n: nat, t: nat): nat
    requires AllRows(offs, entss, n) && t <= |offs|
  {
    if t == 0 then 0 else BlocksNeeded(offs, entss, n, t - 1) + BlkStart(offs[t - 1], n, |entss[t - 1]|, n)
  }

  lemma {:induction false} BlocksNeededGrows(offs: seq<seq<int>>, entss: seq<seq<Slot>>, n: nat, t: nat, u: nat)
    requires AllRows(offs, entss, n) && t <= u <= |offs|
    ensures BlocksNeeded(offs, entss, n, t) <= BlocksNeeded(offs, entss, n, u)
  {
    if t < u { BlocksNeededGrows(offs, entss, n, t, u - 1); }
  }

  lemma BlocksNeededNext(offs: seq<seq<int>>, entss: seq<seq<Slot>>, n: nat, t: nat)
    requires AllRows(offs, entss, n) && t < |offs|
    ensures Rows(offs[t], n, |entss[t]|) && BlocksNeeded(offs, entss, n, 0) == 0
    ensures BlocksNeeded(offs, entss, n, t + 1) == BlocksNeeded(offs, entss, n, t) + BlkStart(offs[t], n, |entss[t]|, n)
    ensures BlocksNeeded(offs, entss, n, t + 1) <= BlocksNeeded(offs, entss, n, |offs|)
  {
    BlocksNeededGrows(offs, entss, n, t + 1, |offs|);
  }

  lemma SavedRows(m: map<Key, Val>, offs: seq<seq<int>>, entss: seq<seq<Slot>>, n: nat)
    requires Saved(m, offs, entss, n)
    ensures AllRows(offs, entss, n)
  {
    forall t: nat | t < |offs| ensures Rows(offs[t], n, |entss[t]|) { CsrRises(offs[t], entss[t], n, t, m); }
    hide CsrOf;
  }

  lemma BlocksNeededEmpty(offs: seq<seq<int>>, entss: seq<seq<Slot>>, n: nat)
    requires AllRows(offs, entss, n)
    ensures BlocksNeeded(offs, entss, n, 0) == 0
  {
  }

  lemma CsrRises(off: seq<int>, ents: seq<Slot>, nv: nat, etype: int, m: map<Key, Val>)
    requires CsrOf(off, ents, nv, etype, m)
    ensures Rows(off, nv, |ents|)
  {
  }

  // ---------------------------------------------------------------- a row and the blocks it came from

  // The blocks of one type and vertex.
  function BlocksOf(pool: seq<Block>, tail: nat, t: int, v: int): set<nat>
    requires tail <= |pool|
  {
    set b: nat | 0 < b < tail && pool[b].etype == t && pool[b].vertexID == v
  }

  // The places of the edges whose targets are given.
  function LocsOf(loc: map<Key, Loc>, t: int, v: int, row: seq<Slot>): set<Loc>
    requires forall q | 0 <= q < |row| :: Key(t, v, row[q].neighbor) in loc
  {
    set q | 0 <= q < |row| :: loc[Key(t, v, row[q].neighbor)]
  }

  // All slots of some blocks.
  function SlotsOf(blocks: set<nat>): set<Loc> {
    set b, k: nat | b in blocks && k < EDGEBLOCKSIZE :: Loc(b, k)
  }

  lemma {:induction false} SlotCount(b: nat, n: nat)
    ensures |set k: nat | k < n :: Loc(b, k)| == n
  {
    if n > 0 {
      SlotCount(b, n - 1);
      assert (set k: nat | k < n :: Loc(b, k)) == (set k: nat | k < n - 1 :: Loc(b, k)) + {Loc(b, n - 1)};
    } else {
      assert (set k: nat | k < 0 :: Loc(b, k)) == {};
    }
  }

  lemma {:induction false} SlotsCount(blocks: set<nat>)
    ensures |SlotsOf(blocks)| == EDGEBLOCKSIZE * |blocks|
  {
    if blocks == {} {
      assert SlotsOf(blocks) == {};
    } else {
      var b :| b in blocks;
      SlotsCount(blocks - {b});
      SlotCount(b, EDGEBLOCKSIZE);
      var here := set k: nat | k < EDGEBLOCKSIZE :: Loc(b, k);
      assert SlotsOf(blocks) == SlotsOf(blocks - {b}) + here;
      assert SlotsOf(blocks - {b}) !! here;
    }
  }

  lemma {:induction false} SubsetCount<T>(a: set<T>, b: set<T>)
    requires a <= b
    ensures |a| <= |b|
  {
    if a != {} {
      var x :| x in a;
      SubsetCount(a - {x}, b - {x});
    }
  }

  // Different edges are in different places.
  lemma {:induction false} LocsCount(s: Store, nv: nat, ntypes: nat, t: int, v: int, row: seq<Slot>)
    requires StoreOk(s, nv, ntypes) && forall q | 0 <= q < |row| :: Key(t, v, row[q].neighbor) in s.loc
    requires forall q, r | 0 <= q < r < |row| :: row[q].neighbor != row[r].neighbor
    ensures |LocsOf(s.loc, t, v, row)| == |row|
  {
    hide StoreOk;
    if row == [] {
      assert LocsOf(s.loc, t, v, row) == {};
    } else {
      var n := |row| - 1;
      var rest := row[..n];
      LocsCount(s, nv, ntypes, t, v, rest);
      var l := s.loc[Key(t, v, row[n].neighbor)];
      assert LocsOf(s.loc, t, v, row) == LocsOf(s.loc, t, v, rest) + {l} by {
        forall q | 0 <= q < n ensures s.loc[Key(t, v, row[q].neighbor)] in LocsOf(s.loc, t, v, rest) {
          assert s.loc[Key(t, v, rest[q].neighbor)] in LocsOf(s.loc, t, v, rest);
        }
      }
      forall q | 0 <= q < n ensures s.loc[Key(t, v, rest[q].neighbor)] != l {
        LocFacts(s, nv, ntypes, Key(t, v, rest[q].neighbor));
        LocFacts(s, nv, ntypes, Key(t, v, row[n].neighbor));
      }
    }
  }

  // A row needs no more blocks than its vertex has of the type.
  lemma RowRoom(s: Store, nv: nat, ntypes: nat, t: int, v: int, row: seq<Slot>)
    requires StoreOk(s, nv, ntypes) && forall q | 0 <= q < |row| :: Key(t, v, row[q].neighbor) in s.loc
    requires forall q, r | 0 <= q < r < |row| :: row[q].neighbor != row[r].neighbor
    ensures s.tail <= |s.pool| && BlocksFor(|row|) <= |BlocksOf(s.pool, s.tail, t, v)|
  {
    hide StoreOk, LocsOf, SlotsOf, BlocksOf;
    StoreElim(s, nv, ntypes);
    var blocks := BlocksOf(s.pool, s.tail, t, v);
    LocsCount(s, nv, ntypes, t, v, row);
    SlotsCount(blocks);
    LocsThere(s, nv, ntypes, t, v, row);
    SubsetCount(LocsOf(s.loc, t, v, row), SlotsOf(blocks));
  }

  // The edges of a row are in slots of its vertex's blocks.
  lemma LocsThere(s: Store, nv: nat, ntypes: nat, t: int, v: int, row: seq<Slot>)
    requires StoreOk(s, nv, ntypes) && forall q | 0 <= q < |row| :: Key(t, v, row[q].neighbor) in s.loc
    ensures s.tail <= |s.pool| && LocsOf(s.loc, t, v, row) <= SlotsOf(BlocksOf(s.pool, s.tail, t, v))
  {
    hide StoreOk, Edges, BlockOk;
    StoreElim(s, nv, ntypes);
    forall q | 0 <= q < |row| ensures s.loc[Key(t, v, row[q].neighbor)] in SlotsOf(BlocksOf(s.pool, s.tail, t, v)) {
      LocFacts(s, nv, ntypes, Key(t, v, row[q].neighbor));
    }
  }

  // ---------------------------------------------------------------- all rows

  // The blocks of types before t, and of vertices before v of type t.
  function BlocksBefore(pool: seq<Block>, tail: nat, t: int, v: int): set<nat>
    requires tail <= |pool|
  {
    set b: nat | 0 < b < tail && (pool[b].etype < t || (pool[b].etype == t && pool[b].vertexID < v))
  }

  lemma BlocksSplit(pool: seq<Block>, tail: nat, t: int, v: int)
    requires tail <= |pool|
    ensures |BlocksBefore(pool, tail, t, v + 1)| == |BlocksBefore(pool, tail, t, v)| + |BlocksOf(pool, tail, t, v)|
  {
    assert BlocksBefore(pool, tail, t, v + 1) == BlocksBefore(pool, tail, t, v) + BlocksOf(pool, tail, t, v);
    assert BlocksBefore(pool, tail, t, v) !! BlocksOf(pool, tail, t, v);
  }

  lemma {:induction false} RowsRoom(s: Store, nv: nat, ntypes: nat, off: seq<int>, ents: seq<Slot>, n: nat, t: nat, v: nat)
    requires StoreOk(s, nv, ntypes) && CsrOf(off, ents, n, t, Edges(s)) && Rows(off, n, |ents|) && v <= n && s.tail <= |s.pool|
    ensures |BlocksBefore(s.pool, s.tail, t, 0)| + BlkStart(off, n, |ents|, v) <= |BlocksBefore(s.pool, s.tail, t, v)|
  {
    hide *;
    if v == 0 {
      BlkStartFirst(off, n, |ents|);
    } else {
      RowsRoom(s, nv, ntypes, off, ents, n, t, v - 1);
      BlkStartNext(off, n, |ents|, v - 1);
      BlocksSplit(s.pool, s.tail, t, v - 1);
      RowIs(off, ents, n, v - 1, Edges(s), t);
      EntriesHere(s, t, v - 1, Row(off, ents, v - 1));
      RowRoom(s, nv, ntypes, t, v - 1, Row(off, ents, v - 1));
      RowLength(off, ents, v - 1);
    }
  }

  lemma EntriesHere(s: Store, t: int, v: int, row: seq<Slot>)
    requires forall q | 0 <= q < |row| :: EntryOf(row[q], v, t, Edges(s))
    ensures forall q | 0 <= q < |row| :: Key(t, v, row[q].neighbor) in s.loc
  {
    EdgesKeys(s);
    forall q | 0 <= q < |row| ensures Key(t, v, row[q].neighbor) in s.loc { assert EntryOf(row[q], v, t, Edges(s)); }
  }

  lemma RowLength(off: seq<int>, ents: seq<Slot>, v: nat)
    requires v + 1 < |off| && RowFits(off, v, |ents|)
    ensures |Row(off, ents, v)| == Deg(off, v)
  {
  }

  lemma BlocksNextType(pool: seq<Block>, tail: nat, t: int, n: int)
    requires tail <= |pool| && forall b | 0 < b < tail :: 0 <= pool[b].vertexID
    ensures |BlocksBefore(pool, tail, t, n)| <= |BlocksBefore(pool, tail, t + 1, 0)|
  {
    SubsetCount(BlocksBefore(pool, tail, t, n), BlocksBefore(pool, tail, t + 1, 0));
  }

  lemma {:induction false} TypesRoom(s: Store, nv: nat, ntypes: nat, offs: seq<seq<int>>, entss: seq<seq<Slot>>, n: nat, t: nat)
    requires StoreOk(s, nv, ntypes) && Saved(Edges(s), offs, entss, n) && AllRows(offs, entss, n) && t <= |offs| && s.tail <= |s.pool|
    requires forall b | 0 < b < s.tail :: 0 <= s.pool[b].vertexID
    ensures BlocksNeeded(offs, entss, n, t) <= |BlocksBefore(s.pool, s.tail, t, 0)|
  {
    hide *;
    if t == 0 {
      BlocksNeededEmpty(offs, entss, n);
    } else {
      TypesRoom(s, nv, ntypes, offs, entss, n, t - 1);
      BlocksNeededNext(offs, entss, n, t - 1);
      SavedAt(Edges(s), offs, entss, n, t - 1);
      RowsRoom(s, nv, ntypes, offs[t - 1], entss[t - 1], n, t - 1, n);
      BlocksNextType(s.pool, s.tail, t - 1, n);
    }
  }

  lemma {:induction false} FewNumbers(blocks: set<nat>, n: nat)
    requires 0 < n && forall b | b in blocks :: 0 < b < n
    ensures |blocks| <= n - 1
  {
    if n > 1 {
      FewNumbers(blocks - {n - 1}, n - 1);
    } else {
      assert blocks == {};
    }
  }

  /** The rows of a saved store need no more blocks than the store has used. */
  lemma RoomEnough(s: Store, nv: nat, ntypes: nat, offs: seq<seq<int>>, entss: seq<seq<Slot>>, n: nat)
    requires StoreOk(s, nv, ntypes) && Saved(Edges(s), offs, entss, n)
    ensures AllRows(offs, entss, n) && 1 + BlocksNeeded(offs, entss, n, |offs|) <= s.tail
  {
    hide *;
    SavedRows(Edges(s), offs, entss, n);
    StoreElim(s, nv, ntypes);
    forall b | 0 < b < s.tail ensures 0 <= s.pool[b].vertexID { BlockFacts(s, nv, ntypes, b); }
    TypesRoom(s, nv, ntypes, offs, entss, n, |offs|);
    BeforeAll(s.pool, s.tail, |offs|);
  }

  lemma BeforeAll(pool: seq<Block>, tail: nat, t: int)
    requires 0 < tail <= |pool|
    ensures |BlocksBefore(pool, tail, t, 0)| <= tail - 1
  {
    FewNumbers(BlocksBefore(pool, tail, t, 0), tail);
  }

  lemma SavedAt(m: map<Key, Val>, offs: seq<seq<int>>, entss: seq<seq<Slot>>, n: nat, t: nat)
    requires Saved(m, offs, entss, n) && t < |offs|
    ensures t < |entss| && CsrOf(offs[t], entss[t], n, t, m)
  {
    hide CsrOf;
  }
}
