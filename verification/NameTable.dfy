/**
 The names table as a value: open addressing from strings to numbers, with the strings in one pool.
 Creating and looking up are functions here; what they keep over whole runs is proved about these.
 */
module NameTable {
  import ShortestPaths

  const NAME_STR_MAX: nat := 127
  const MARKER := -1
  const NUL := '\0'

  // fromName[j] is 0 for a free slot, MARKER for a locked one, and else where the slot's string begins.
  datatype Table = Table(maxTypes: nat, nextString: nat, nextType: nat, names: seq<char>, toName: seq<int>, fromName: seq<int>, toInt: seq<int>)

  datatype Outcome = Known(id: int) | New(id: int) | TableFull | NoRoom | Spins

  datatype Probe = Free(j: nat) | Hit(j: nat) | Locked(j: nat) | Nowhere

  predicate CString(s: string) { NUL !in s }

  // What counts of a name: its first 127 characters.
  function Key(name: string): (key: string)
    ensures key <= name && |key| == (if |name| > 127 then 127 else |name|) && (CString(name) ==> CString(key))
  {
    if |name| > NAME_STR_MAX then name[..NAME_STR_MAX] else name
  }

  function MaxNames(t: Table): int { t.maxTypes * (NAME_STR_MAX + 1) - 1 }

  predicate Shape(t: Table) {
    && t.maxTypes > 0 && |t.names| == t.maxTypes * (NAME_STR_MAX + 1) && |t.toName| == t.maxTypes
    && |t.fromName| == |t.toInt| == 2 * t.maxTypes
  }

  function Empty(maxTypes: nat): Table {
    Table(maxTypes, 1, 0, seq(maxTypes * (NAME_STR_MAX + 1), _ => NUL), seq(maxTypes, _ => 0), seq(2 * maxTypes, _ => 0), seq(2 * maxTypes, _ => 0))
  }

  // strncmp(name, names + place, length) == 0
  predicate Matches(names: seq<char>, place: int, key: string) {
    0 <= place && place + |key| <= |names| && names[place..place + |key|] == key
  }

  // ---------------------------------------------------------------- probing

  lemma Around(a: nat, n: nat)
    requires 0 < n && a <= n
    ensures a % n == if a == n then 0 else a
  {
  }

  // The next slot, around the end.
  function Next(t: Table, j: nat): (r: nat)
    requires Shape(t) && j < 2 * t.maxTypes
    ensures r == if j + 1 == 2 * t.maxTypes then 0 else j + 1
  {
    Around(j + 1, 2 * t.maxTypes); (j + 1) % (2 * t.maxTypes)
  }

  // From slot j on, with this many slots left to look at.
  function Find(t: Table, key: string, j: nat, left: nat): Probe
    requires Shape(t) && j < 2 * t.maxTypes
    decreases left
  {
    if left == 0 then Nowhere
    else if t.fromName[j] == MARKER then Locked(j)
    else if t.fromName[j] == 0 then Free(j)
    else if Matches(t.names, t.fromName[j], key) then Hit(j)
    else Find(t, key, Next(t, j), left - 1)
  }

  function Lookup(t: Table, hash: string -> nat, name: string): Probe
    requires Shape(t)
  {
    Find(t, Key(name), hash(Key(name)) % (2 * t.maxTypes), 2 * t.maxTypes)
  }

  lemma {:induction false} FindSlot(t: Table, key: string, j: nat, left: nat)
    requires Shape(t) && j < 2 * t.maxTypes
    ensures Find(t, key, j, left).Free? ==> Find(t, key, j, left).j < 2 * t.maxTypes && t.fromName[Find(t, key, j, left).j] == 0
    ensures Find(t, key, j, left).Locked? ==> Find(t, key, j, left).j < 2 * t.maxTypes && t.fromName[Find(t, key, j, left).j] == MARKER
    ensures Find(t, key, j, left).Hit? ==>
      var i := Find(t, key, j, left).j;
      i < 2 * t.maxTypes && t.fromName[i] != 0 && t.fromName[i] != MARKER && Matches(t.names, t.fromName[i], key)
    decreases left
  {
    if left > 0 { FindSlot(t, key, Next(t, j), left - 1); }
  }

  // ---------------------------------------------------------------- one call

  function Write(names: seq<char>, place: nat, key: string): (r: seq<char>)
    requires place + |key| <= |names|
    ensures |r| == |names|
  {
    names[..place] + key + names[place + |key|..]
  }

  // to_name[id] := place; the word after the last of to_name is the first of from_name.
  function SetToName(t: Table, id: nat, place: nat): Table
    requires Shape(t) && id <= t.maxTypes
  {
    if id < t.maxTypes then t.(toName := t.toName[id := place]) else t.(fromName := t.fromName[0 := place])
  }

  // What a creation does in the free slot j.
  function Place(t: Table, j: nat, key: string): (Table, Outcome)
    requires Shape(t) && j < 2 * t.maxTypes && t.nextType <= t.maxTypes
  {
    var place := t.nextString;
    var t1 := t.(nextString := place + |key| + 1, fromName := t.fromName[j := MARKER]);
    if place + |key| >= MaxNames(t) then (t1, NoRoom)
    else
      var t2 := t1.(names := Write(t.names, place, key), toInt := t.toInt[j := t.nextType], nextType := t.nextType + 1);
      var t3 := SetToName(t2, t.nextType, place);
      if t3.fromName[j] != MARKER then (t3, Spins) else (t3.(fromName := t3.fromName[j := place]), New(t.nextType))
  }

  /** stinger_names_create_type */
  function Create(t: Table, hash: string -> nat, name: string): (Table, Outcome)
    requires Shape(t)
  {
    if t.nextType > t.maxTypes then (t, TableFull)
    else
      var p := Lookup(t, hash, name);
      FindSlot(t, Key(name), hash(Key(name)) % (2 * t.maxTypes), 2 * t.maxTypes);
      match p
      case Nowhere => (t, TableFull)
      case Locked(_) => (t, Spins)
      case Hit(j) => (t, Known(t.toInt[j]))
      case Free(j) => Place(t, j, Key(name))
  }

  // ---------------------------------------------------------------- the invariant

  // The string of id i, given what was made so far.
  ghost predicate StringOk(t: Table, made: seq<string>, i: nat)
    requires i < |made|
  {
    && i < |t.toName| && 1 <= t.toName[i] && t.toName[i] + |made[i]| < t.nextString && t.toName[i] + |made[i]| < |t.names|
    && Matches(t.names, t.toName[i], made[i]) && t.names[t.toName[i] + |made[i]|] == NUL && CString(made[i]) && |made[i]| <= NAME_STR_MAX
  }

  predicate SlotOk(t: Table, j: nat)
    requires j < |t.fromName| && j < |t.toInt|
  {
    && (t.fromName[j] != 0 && t.fromName[j] != MARKER ==> 0 <= t.toInt[j] < t.nextType && t.toInt[j] < |t.toName| && t.fromName[j] == t.toName[t.toInt[j]])
  }

  predicate Taken(t: Table, j: nat) { j < |t.fromName| && t.fromName[j] != 0 && t.fromName[j] != MARKER }

  // made lists the strings of the ids so far.
  ghost predicate TableOk(t: Table, made: seq<string>) {
    && Shape(t) && |made| == t.nextType <= t.maxTypes && 0 < t.nextString
    && (forall i: nat | i < |made| :: StringOk(t, made, i))
    && (forall j: nat | j < 2 * t.maxTypes :: SlotOk(t, j))
    && (forall j: nat, l: nat | j < l < 2 * t.maxTypes && Taken(t, j) && Taken(t, l) :: t.toInt[j] != t.toInt[l])
    && (forall p | t.nextString <= p < |t.names| :: t.names[p] == NUL) && t.names[0] == NUL
    && (forall i | t.nextType <= i < |t.toName| :: t.toName[i] == 0)
  }

  ghost predicate Unlocked(t: Table) { forall j | 0 <= j < |t.fromName| :: t.fromName[j] != MARKER }

  lemma EmptyOk(maxTypes: nat)
    requires maxTypes > 0
    ensures TableOk(Empty(maxTypes), []) && Unlocked(Empty(maxTypes))
  {
  }

  // Slots in use, and locked ones, stay as they are, and so do their strings.
  ghost predicate Extends(t: Table, t': Table) {
    && Shape(t) && Shape(t') && t'.maxTypes == t.maxTypes
    && (forall j: nat | j < 2 * t.maxTypes && t.fromName[j] != 0 :: t'.fromName[j] == t.fromName[j] && t'.toInt[j] == t.toInt[j])
    && (forall j: nat | j < 2 * t.maxTypes && Taken(t, j) :: SameString(t, t', t.fromName[j]))
  }

  // Up to its NUL, the string at this place is the same.
  ghost predicate SameString(t: Table, t': Table, place: int) {
    |t.names| == |t'.names| && exists end: nat :: SameTo(t.names, t'.names, place, end)
  }

  predicate SameTo(names: seq<char>, names': seq<char>, place: int, end: nat) {
    0 <= place <= end < |names| == |names'| && names[end] == NUL && forall p | place <= p <= end :: names'[p] == names[p]
  }

  lemma SameMatches(t: Table, t': Table, place: int, key: string)
    requires SameString(t, t', place) && CString(key)
    ensures Matches(t.names, place, key) <==> Matches(t'.names, place, key)
  {
    var end: nat :| SameTo(t.names, t'.names, place, end);
    MatchesAt(t.names, place, key);
    MatchesAt(t'.names, place, key);
    if place + |key| > end {
      var i := end - place;
      assert key[i] in key;
      assert t.names[place + i] != key[i] && t'.names[place + i] != key[i];
    } else {
      forall i {:trigger key[i]} | 0 <= i < |key| ensures t.names[place + i] == t'.names[place + i] {
        var p := place + i;
        assert t'.names[p] == t.names[p];
      }
    }
  }

  lemma MatchesAt(names: seq<char>, place: int, key: string)
    requires 0 <= place
    ensures Matches(names, place, key) <==> place + |key| <= |names| && forall i {:trigger key[i]} | 0 <= i < |key| :: names[place + i] == key[i]
  {
    if place + |key| <= |names| { assert forall i {:trigger key[i]} | 0 <= i < |key| :: names[place..place + |key|][i] == names[place + i]; }
  }

  /** What a probe has once come to, a match or a lock, it comes to ever after. */
  lemma {:induction false} FindKept(t: Table, t': Table, key: string, j: nat, left: nat)
    requires Extends(t, t') && CString(key) && j < 2 * t.maxTypes
    ensures !Find(t, key, j, left).Free? ==> Find(t', key, j, left) == Find(t, key, j, left)
    decreases left
  {
    if left > 0 {
      FindKept(t, t', key, Next(t, j), left - 1);
      if Taken(t, j) { SameMatches(t, t', t.fromName[j], key); }
    }
  }

  lemma {:induction false} ExtendsTrans(t: Table, t': Table, t'': Table)
    requires Extends(t, t') && Extends(t', t'')
    ensures Extends(t, t'')
  {
    forall j: nat | j < 2 * t.maxTypes && Taken(t, j) ensures SameString(t, t'', t.fromName[j]) {
      assert Taken(t', j);
      SameTrans(t, t', t'', t.fromName[j]);
    }
  }

  lemma SameTrans(t: Table, t': Table, t'': Table, place: int)
    requires SameString(t, t', place) && SameString(t', t'', place)
    ensures SameString(t, t'', place)
  {
    var n: nat :| SameTo(t.names, t'.names, place, n);
    var m: nat :| SameTo(t'.names, t''.names, place, m);
    assert SameTo(t.names, t''.names, place, if n < m then n else m);
  }

  // ---------------------------------------------------------------- creating

  lemma WriteAt(names: seq<char>, place: nat, key: string, p: nat)
    requires place + |key| <= |names| && p < |names|
    ensures Write(names, place, key)[p] == if place <= p < place + |key| then key[p - place] else names[p]
  {
  }

  // The string of an id is not touched by writing beyond nextString.
  lemma StringKept(t: Table, t': Table, made: seq<string>, made': seq<string>, key: string, i: nat)
    requires TableOk(t, made) && i < |made| <= |made'| && made'[i] == made[i]
    requires t.nextString + |key| < |t.names| && t'.names == Write(t.names, t.nextString, key) && t'.nextString >= t.nextString
    requires |t'.toName| == |t.toName| && i < |t.toName| && t'.toName[i] == t.toName[i]
    ensures StringOk(t', made', i) && SameString(t, t', t.toName[i])
  {
    assert StringOk(t, made, i);
    var place, end := t.toName[i], t.toName[i] + |made[i]|;
    forall p | 0 <= p < t.nextString ensures t'.names[p] == t.names[p] { WriteAt(t.names, t.nextString, key, p); }
    assert SameTo(t.names, t'.names, place, end);
    SameMatches(t, t', place, made[i]);
  }

  lemma StringMade(t: Table, t': Table, made': seq<string>, key: string)
    requires t.nextType < |made'| && made'[t.nextType] == key && CString(key) && |key| <= NAME_STR_MAX && 0 < t.nextString
    requires t.nextString + |key| < |t.names| && t'.names == Write(t.names, t.nextString, key) && t'.nextString == t.nextString + |key| + 1
    requires t.nextType < |t'.toName| && t'.toName[t.nextType] == t.nextString && forall p | t.nextString <= p < |t.names| :: t.names[p] == NUL
    ensures StringOk(t', made', t.nextType)
  {
    WriteAt(t.names, t.nextString, key, t.nextString + |key|);
    assert t'.names[t.nextString..t.nextString + |key|] == key;
  }

  // The table after a creation within bounds.
  function Placed(t: Table, j: nat, key: string): Table
    requires Shape(t) && j < 2 * t.maxTypes && t.nextType < t.maxTypes && t.nextString + |key| <= |t.names|
  {
    Table(t.maxTypes, t.nextString + |key| + 1, t.nextType + 1, Write(t.names, t.nextString, key), t.toName[t.nextType := t.nextString],
          t.fromName[j := t.nextString], t.toInt[j := t.nextType])
  }

  lemma PlaceIs(t: Table, made: seq<string>, j: nat, key: string)
    requires TableOk(t, made) && j < 2 * t.maxTypes && t.nextType < t.maxTypes && t.nextString + |key| < MaxNames(t)
    ensures t.nextString + |key| <= |t.names| && Place(t, j, key) == (Placed(t, j, key), New(t.nextType))
  {
    assert t.fromName[j := MARKER][j := t.nextString] == t.fromName[j := t.nextString];
  }

  lemma PlacedOk(t: Table, made: seq<string>, j: nat, key: string)
    requires TableOk(t, made) && j < 2 * t.maxTypes && t.fromName[j] == 0 && t.nextType < t.maxTypes && t.nextString + |key| < MaxNames(t)
    requires CString(key) && |key| <= NAME_STR_MAX
    ensures t.nextString + |key| <= |t.names| && TableOk(Placed(t, j, key), made + [key]) && Extends(t, Placed(t, j, key))
    ensures Matches(Placed(t, j, key).names, t.nextString, key)
  {
    var t', made' := Placed(t, j, key), made + [key];
    forall i: nat | i < |made'| ensures StringOk(t', made', i) {
      if i < |made| { StringKept(t, t', made, made', key, i); } else { StringMade(t, t', made', key); }
    }
    forall p | t'.nextString <= p < |t'.names| ensures t'.names[p] == NUL { WriteAt(t.names, t.nextString, key, p); }
    WriteAt(t.names, t.nextString, key, 0);
    forall l: nat | l < 2 * t.maxTypes && Taken(t, l) ensures l != j && SameString(t, t', t.fromName[l]) {
      assert SlotOk(t, l);
      StringKept(t, t', made, made', key, t.toInt[l]);
    }
    assert StringOk(t', made', |made|);
    hide StringOk, Matches, SameString;
    forall l: nat | l < 2 * t.maxTypes ensures SlotOk(t', l) { assert SlotOk(t, l); }
    forall l: nat, m: nat | l < m < 2 * t.maxTypes && Taken(t', l) && Taken(t', m) ensures t'.toInt[l] != t'.toInt[m] {
      assert SlotOk(t, l) && SlotOk(t, m);
      assert l != j ==> Taken(t, l);
      assert m != j ==> Taken(t, m);
    }
  }

  lemma LockedOk(t: Table, made: seq<string>, j: nat, n: nat)
    requires TableOk(t, made) && j < 2 * t.maxTypes && t.fromName[j] == 0
    ensures var t' := t.(nextString := t.nextString + n, fromName := t.fromName[j := MARKER]); TableOk(t', made) && Extends(t, t')
  {
    var t' := t.(nextString := t.nextString + n, fromName := t.fromName[j := MARKER]);
    forall i: nat | i < |made| ensures StringOk(t', made, i) { assert StringOk(t, made, i); }
    forall l: nat | l < 2 * t.maxTypes && Taken(t, l) ensures SameString(t, t', t.fromName[l]) { TakenSame(t, made, t', l); }
    forall l: nat | l < 2 * t.maxTypes ensures SlotOk(t', l) { assert SlotOk(t, l); }
    hide StringOk, SameString;
    forall l: nat, m: nat | l < m < 2 * t.maxTypes && Taken(t', l) && Taken(t', m) ensures t'.toInt[l] != t'.toInt[m] {
      assert Taken(t, l) && Taken(t, m);
    }
  }

  lemma TakenSame(t: Table, made: seq<string>, t': Table, l: nat)
    requires TableOk(t, made) && l < 2 * t.maxTypes && Taken(t, l) && t'.names == t.names
    ensures SameString(t, t', t.fromName[l])
  {
    assert SlotOk(t, l) && StringOk(t, made, t.toInt[l]);
    assert SameTo(t.names, t'.names, t.fromName[l], t.toName[t.toInt[l]] + |made[t.toInt[l]]|);
  }

  lemma ExtendsSelf(t: Table, made: seq<string>)
    requires TableOk(t, made)
    ensures Extends(t, t)
  {
    forall l: nat | l < 2 * t.maxTypes && Taken(t, l) ensures SameString(t, t, t.fromName[l]) { TakenSame(t, made, t, l); }
  }

  // Room for one more type, if a new one is what it takes.
  ghost predicate RoomFor(t: Table, hash: string -> nat, name: string)
    requires Shape(t)
  {
    t.nextType < t.maxTypes || !Lookup(t, hash, name).Free?
  }

  function Made(made: seq<string>, o: Outcome, name: string): seq<string> { if o.New? then made + [Key(name)] else made }

  // What a probe comes to gives this id.
  predicate Gives(t: Table, p: Probe, id: int) { p.Hit? && p.j < |t.toInt| && t.toInt[p.j] == id }

  lemma {:induction false} FreeFilled(t: Table, t': Table, key: string, j: nat, left: nat)
    requires Extends(t, t') && CString(key) && j < 2 * t.maxTypes && Find(t, key, j, left).Free?
    requires var i := Find(t, key, j, left).j; i < 2 * t.maxTypes && t'.fromName[i] != 0 && (t'.fromName[i] == MARKER || Matches(t'.names, t'.fromName[i], key))
    ensures Find(t', key, j, left) == if t'.fromName[Find(t, key, j, left).j] == MARKER then Locked(Find(t, key, j, left).j) else Hit(Find(t, key, j, left).j)
    decreases left
  {
    if t.fromName[j] != 0 {
      if Taken(t, j) { SameMatches(t, t', t.fromName[j], key); }
      FreeFilled(t, t', key, Next(t, j), left - 1);
    }
  }

  /**
     One call: the table stays sound, nothing known is disturbed, a new id is the next number, and
     the very name is found under the id from then on; without room for the string, the name's slot
     stays locked.
   */
  lemma CreateOk(t: Table, made: seq<string>, hash: string -> nat, name: string)
    requires TableOk(t, made) && CString(name) && RoomFor(t, hash, name)
    ensures var (t', o) := Create(t, hash, name);
      && TableOk(t', Made(made, o, name)) && Extends(t, t')
      && (o.New? ==> o.id == |made| && Gives(t', Lookup(t', hash, name), o.id))
      && (o.Known? ==> t' == t && 0 <= o.id < |made| && Key(name) <= made[o.id] && Gives(t', Lookup(t', hash, name), o.id))
      && (o.NoRoom? ==> Lookup(t', hash, name).Locked?)
      && (o.TableFull? || o.Spins? ==> t' == t)
  {
    var key := Key(name);
    var at := hash(key) % (2 * t.maxTypes);
    FindSlot(t, key, at, 2 * t.maxTypes);
    ExtendsSelf(t, made);
    match Lookup(t, hash, name) {
      case Nowhere =>
      case Locked(_) =>
      case Hit(j) => HitKey(t, made, j, key);
      case Free(j) => FreeOk(t, made, hash, name, j);
    }
  }

  lemma HitKey(t: Table, made: seq<string>, j: nat, key: string)
    requires TableOk(t, made) && j < 2 * t.maxTypes && Taken(t, j) && Matches(t.names, t.fromName[j], key) && CString(key)
    ensures 0 <= t.toInt[j] < |made| && key <= made[t.toInt[j]]
  {
    assert SlotOk(t, j) && StringOk(t, made, t.toInt[j]);
    var s, place := made[t.toInt[j]], t.fromName[j];
    MatchesAt(t.names, place, key);
    MatchesAt(t.names, place, s);
    forall i | 0 <= i < |key| ensures i < |s| && key[i] == s[i] { assert key[i] in key; }
  }

  lemma FreeOk(t: Table, made: seq<string>, hash: string -> nat, name: string, j: nat)
    requires TableOk(t, made) && CString(name) && t.nextType < t.maxTypes && Lookup(t, hash, name) == Free(j) && j < 2 * t.maxTypes && t.fromName[j] == 0
    ensures var (t', o) := Place(t, j, Key(name));
      && TableOk(t', Made(made, o, name)) && Extends(t, t') && (o.New? || o.NoRoom?)
      && (o.New? ==> o.id == |made| && Gives(t', Lookup(t', hash, name), o.id))
      && (o.NoRoom? ==> Lookup(t', hash, name).Locked?)
  {
    var key := Key(name);
    if t.nextString + |key| < MaxNames(t) {
      PlaceIs(t, made, j, key);
      PlacedOk(t, made, j, key);
      FoundAgain(t, made, Placed(t, j, key), hash, name, j);
    } else {
      var t' := t.(nextString := t.nextString + (|key| + 1), fromName := t.fromName[j := MARKER]);
      LockedOk(t, made, j, |key| + 1);
      FoundAgain(t, made, t', hash, name, j);
    }
    hide TableOk, Extends, Find, Matches;
  }

  // The slot that was free is where the probe ends from now on.
  lemma FoundAgain(t: Table, made: seq<string>, t': Table, hash: string -> nat, name: string, j: nat)
    requires TableOk(t, made) && CString(name) && Lookup(t, hash, name) == Free(j) && j < 2 * t.maxTypes && Extends(t, t')
    requires t'.fromName[j] != 0 && (t'.fromName[j] == MARKER || Matches(t'.names, t'.fromName[j], Key(name)))
    ensures Lookup(t', hash, name) == if t'.fromName[j] == MARKER then Locked(j) else Hit(j)
  {
    FreeFilled(t, t', Key(name), hash(Key(name)) % (2 * t.maxTypes), 2 * t.maxTypes);
    hide TableOk, Find, Matches;
  }

  // ---------------------------------------------------------------- whole runs

  lemma CreateShape(t: Table, hash: string -> nat, name: string)
    requires Shape(t)
    ensures Shape(Create(t, hash, name).0) && Create(t, hash, name).0.maxTypes == t.maxTypes
  {
    FindSlot(t, Key(name), hash(Key(name)) % (2 * t.maxTypes), 2 * t.maxTypes);
    hide Find, Matches;
  }

  // The table after creating these names one after another.
  function Run(t: Table, hash: string -> nat, names: seq<string>): (t': Table)
    requires Shape(t)
    ensures Shape(t') && t'.maxTypes == t.maxTypes
  {
    if names == [] then t
    else CreateShape(Run(t, hash, names[..|names| - 1]), hash, names[|names| - 1]); Create(Run(t, hash, names[..|names| - 1]), hash, names[|names| - 1]).0
  }

  ghost predicate CStrings(names: seq<string>) { forall k | 0 <= k < |names| :: CString(names[k]) }

  // The number of types only grows, and exceeds the maximum as soon as a name is added beyond it.
  lemma CountGrows(t: Table, hash: string -> nat, name: string)
    requires Shape(t)
    ensures t.nextType <= Create(t, hash, name).0.nextType
    ensures t.nextType <= t.maxTypes && Create(t, hash, name).0.nextType <= t.maxTypes ==> RoomFor(t, hash, name) || Create(t, hash, name).1.NoRoom?
  {
    FindSlot(t, Key(name), hash(Key(name)) % (2 * t.maxTypes), 2 * t.maxTypes);
  }

  lemma NoRoomOk(t: Table, made: seq<string>, hash: string -> nat, name: string)
    requires TableOk(t, made) && CString(name) && Create(t, hash, name).1.NoRoom?
    ensures TableOk(Create(t, hash, name).0, made) && Extends(t, Create(t, hash, name).0) && Lookup(Create(t, hash, name).0, hash, name).Locked?
  {
    var key := Key(name);
    FindSlot(t, key, hash(key) % (2 * t.maxTypes), 2 * t.maxTypes);
    var j := Lookup(t, hash, name).j;
    var t' := t.(nextString := t.nextString + (|key| + 1), fromName := t.fromName[j := MARKER]);
    LockedOk(t, made, j, |key| + 1);
    FoundAgain(t, made, t', hash, name, j);
    hide TableOk, Extends, Find, Matches;
  }

  /** A run that has not taken the count beyond the maximum leaves a sound table, with nothing disturbed. */
  lemma {:induction false} RunOk(t: Table, made: seq<string>, hash: string -> nat, names: seq<string>) returns (made': seq<string>)
    requires TableOk(t, made) && CStrings(names) && Run(t, hash, names).nextType <= t.maxTypes
    ensures TableOk(Run(t, hash, names), made') && Extends(t, Run(t, hash, names)) && made <= made'
  {
    if names == [] {
      made' := made;
      ExtendsSelf(t, made);
    } else {
      var n := |names| - 1;
      var t1 := Run(t, hash, names[..n]);
      assert forall k | 0 <= k < n :: names[..n][k] == names[k];
      CountGrows(t1, hash, names[n]);
      var made1 := RunOk(t, made, hash, names[..n]);
      if Create(t1, hash, names[n]).1.NoRoom? {
        NoRoomOk(t1, made1, hash, names[n]);
      } else {
        CreateOk(t1, made1, hash, names[n]);
      }
      made' := Made(made1, Create(t1, hash, names[n]).1, names[n]);
      ExtendsTrans(t, t1, Run(t, hash, names));
      hide TableOk, Extends, Create, CStrings;
    }
  }

  /** Once a name gives an id it gives it for ever, whatever else is created. */
  lemma IdForever(t: Table, made: seq<string>, hash: string -> nat, name: string, names: seq<string>, id: int)
    requires TableOk(t, made) && CString(name) && CStrings(names) && Run(t, hash, names).nextType <= t.maxTypes
    requires Gives(t, Lookup(t, hash, name), id)
    ensures Gives(Run(t, hash, names), Lookup(Run(t, hash, names), hash, name), id)
    ensures Create(Run(t, hash, names), hash, name) == (Run(t, hash, names), Known(id))
  {
    var made' := RunOk(t, made, hash, names);
    var key := Key(name);
    FindSlot(t, key, hash(key) % (2 * t.maxTypes), 2 * t.maxTypes);
    FindKept(t, Run(t, hash, names), key, hash(key) % (2 * t.maxTypes), 2 * t.maxTypes);
    hide Run, Find, Matches;
  }

  /** A name whose string found no room leaves its slot locked: no later create or lookup of it ever returns. */
  lemma LockedForever(t: Table, made: seq<string>, hash: string -> nat, name: string, names: seq<string>)
    requires TableOk(t, made) && CString(name) && CStrings(names) && Create(t, hash, name).1.NoRoom?
    requires var t1 := Create(t, hash, name).0; Shape(t1) && Run(t1, hash, names).nextType <= t.maxTypes
    ensures var t1 := Create(t, hash, name).0;
      Lookup(Run(t1, hash, names), hash, name).Locked? && Create(Run(t1, hash, names), hash, name).1 == Spins
  {
    NoRoomOk(t, made, hash, name);
    var t1 := Create(t, hash, name).0;
    var made' := RunOk(t1, made, hash, names);
    FindKept(t1, Run(t1, hash, names), Key(name), hash(Key(name)) % (2 * t.maxTypes), 2 * t.maxTypes);
    hide Run, Find, Matches;
  }

  // How many slots after j slot l comes.
  function Ahead(j: nat, l: nat, n: nat): int { if l >= j then l - j else l - j + n }

  lemma {:induction false} NowhereTaken(t: Table, key: string, j: nat, left: nat, l: nat)
    requires Shape(t) && j < 2 * t.maxTypes && left <= 2 * t.maxTypes && Find(t, key, j, left) == Nowhere && l < 2 * t.maxTypes
    requires Ahead(j, l, 2 * t.maxTypes) < left
    ensures Taken(t, l)
    decreases left
  {
    if l != j {
      NowhereTaken(t, key, Next(t, j), left - 1, l);
    }
  }

  function IdOf(t: Table, l: nat): nat
    requires l < |t.toInt|
  {
    if t.toInt[l] >= 0 then t.toInt[l] else 0
  }

  lemma SomeFree(t: Table, made: seq<string>)
    requires TableOk(t, made)
    ensures exists l: nat :: l < 2 * t.maxTypes && !Taken(t, l)
  {
    if forall l: nat | l < 2 * t.maxTypes :: Taken(t, l) {
      var ids: seq<nat> := seq(2 * t.maxTypes, l requires 0 <= l < 2 * t.maxTypes => IdOf(t, l));
      forall l: nat | l < |ids| ensures ids[l] == t.toInt[l] < t.nextType { assert SlotOk(t, l) && Taken(t, l); }
      ShortestPaths.DistinctBelow(ids, t.nextType);
    }
  }

  /** With room for a type and for the string, and no slot locked, creating a name always gives an id. */
  lemma CreateSucceeds(t: Table, made: seq<string>, hash: string -> nat, name: string)
    requires TableOk(t, made) && Unlocked(t) && CString(name) && t.nextType < t.maxTypes
    requires t.nextString + (if |name| > 127 then 127 else |name|) < 128 * t.maxTypes - 1
    ensures var (t', o) := Create(t, hash, name); (o.Known? || o.New?) && Unlocked(t')
  {
    var key := Key(name);
    var at := hash(key) % (2 * t.maxTypes);
    FindSlot(t, key, at, 2 * t.maxTypes);
    if Lookup(t, hash, name) == Nowhere {
      forall l: nat | l < 2 * t.maxTypes ensures Taken(t, l) { NowhereTaken(t, key, at, 2 * t.maxTypes, l); }
      SomeFree(t, made);
    }
    if Lookup(t, hash, name).Free? {
      PlaceIs(t, made, Lookup(t, hash, name).j, key);
    }
    hide TableOk, Find, Matches;
  }

  /** A new name finds no room exactly when its string and two more characters reach the end of the pool. */
  lemma NoRoomExactly(t: Table, hash: string -> nat, name: string)
    requires Shape(t)
    ensures Create(t, hash, name).1.NoRoom? <==>
      t.nextType <= t.maxTypes && Lookup(t, hash, name).Free? && t.nextString + (if |name| > 127 then 127 else |name|) + 2 > |t.names|
  {
    FindSlot(t, Key(name), hash(Key(name)) % (2 * t.maxTypes), 2 * t.maxTypes);
    hide Find, Matches, Write;
  }

  /**
     The guard lets one type too many in: whether a table stays sound comes down to whether the new
     name still has a number below the maximum.
   */
  lemma SoundUnlessBeyond(t: Table, made: seq<string>, hash: string -> nat, name: string)
    requires TableOk(t, made) && CString(name)
    ensures (exists made' :: TableOk(Create(t, hash, name).0, made')) <==>
            RoomFor(t, hash, name) || t.nextString + (if |name| > 127 then 127 else |name|) >= 128 * t.maxTypes - 1
  {
    var (t', o) := Create(t, hash, name);
    FindSlot(t, Key(name), hash(Key(name)) % (2 * t.maxTypes), 2 * t.maxTypes);
    if RoomFor(t, hash, name) {
      CreateOk(t, made, hash, name);
    } else if t.nextString + |Key(name)| >= MaxNames(t) {
      NoRoomOk(t, made, hash, name);
    }
    hide Find, Matches, StringOk, SlotOk;
  }

  // ---------------------------------------------------------------- from ids back to names

  function StringAt(names: seq<char>, place: int): string
    decreases |names| - place
  {
    if 0 <= place < |names| && names[place] != NUL then [names[place]] + StringAt(names, place + 1) else ""
  }

  lemma {:induction false} StringIs(names: seq<char>, place: nat, s: string)
    requires Matches(names, place, s) && CString(s) && place + |s| < |names| && names[place + |s|] == NUL
    ensures StringAt(names, place) == s
    decreases |s|
  {
    if s != [] {
      assert names[place..place + |s|][0] == s[0] && s[0] in s;
      assert names[place + 1..place + |s|] == names[place..place + |s|][1..] == s[1..];
      StringIs(names, place + 1, s[1..]);
      assert s == [s[0]] + s[1..];
    }
  }

  /** Looking up an id gives the first 127 characters of the name that created it; a number not given out yet, the empty string. */
  lemma NameOfId(t: Table, made: seq<string>, id: nat)
    requires TableOk(t, made) && id < t.maxTypes
    ensures StringAt(t.names, t.toName[id]) == if id < |made| then made[id] else ""
  {
    if id < |made| {
      assert StringOk(t, made, id);
      StringIs(t.names, t.toName[id], made[id]);
    }
  }

  /** Whatever is created afterwards, the id that a name got leads back to its first 127 characters. */
  lemma NamedBack(t: Table, made: seq<string>, hash: string -> nat, name: string, names: seq<string>)
    requires TableOk(t, made) && CString(name) && RoomFor(t, hash, name) && Create(t, hash, name).1.New?
    requires var t' := Create(t, hash, name).0; Shape(t') && CStrings(names) && Run(t', hash, names).nextType <= t'.maxTypes
    ensures var (t', o) := Create(t, hash, name);
      var t2 := Run(t', hash, names);
      0 <= o.id < t2.maxTypes == |t2.toName| && StringAt(t2.names, t2.toName[o.id]) == if |name| > 127 then name[..127] else name
  {
    CreateOk(t, made, hash, name);
    hide Create, Run, Lookup, TableOk, StringAt;
    var (t', o) := Create(t, hash, name);
    var made' := Made(made, o, name);
    var made2 := RunOk(t', made', hash, names);
    var t2 := Run(t', hash, names);
    TableFacts(t2, made2);
    NameOfId(t2, made2, o.id);
    assert made2[o.id] == made'[o.id] == Key(name);
    var n := if |name| > 127 then 127 else |name|;
    assert name[..|name|] == name;
    assert Key(name) == name[..n];
  }

  lemma TableFacts(t: Table, made: seq<string>)
    requires TableOk(t, made)
    ensures Shape(t) && |made| <= t.maxTypes == |t.toName|
  {
  }

  /** Names of at most 127 characters that have one id begin one with the other. */
  lemma SharedId(t: Table, made: seq<string>, hash: string -> nat, name1: string, name2: string, id: int)
    requires TableOk(t, made) && CString(name1) && CString(name2) && |name1| <= 127 && |name2| <= 127
    requires Gives(t, Lookup(t, hash, name1), id) && Gives(t, Lookup(t, hash, name2), id)
    ensures name1 <= name2 || name2 <= name1
  {
    GivenPrefix(t, made, hash, name1, id);
    GivenPrefix(t, made, hash, name2, id);
    hide Lookup, TableOk, Gives;
    var s := made[id];
    if |name1| <= |name2| { assert name1 == s[..|name1|] == name2[..|name1|]; } else { assert name2 == s[..|name2|] == name1[..|name2|]; }
  }

  lemma GivenPrefix(t: Table, made: seq<string>, hash: string -> nat, name: string, id: int)
    requires TableOk(t, made) && CString(name) && |name| <= 127 && Gives(t, Lookup(t, hash, name), id)
    ensures 0 <= id < |made| && name <= made[id]
  {
    LongerFound(t, made, Key(name), hash(Key(name)) % (2 * t.maxTypes), 2 * t.maxTypes);
    hide TableOk, Find;
  }

  // ---------------------------------------------------------------- a longer name's id

  // A slot in use matches a name exactly when its string begins with it.
  lemma PrefixIs(t: Table, made: seq<string>, j: nat, key: string)
    requires TableOk(t, made) && j < 2 * t.maxTypes && Taken(t, j) && CString(key)
    ensures 0 <= t.toInt[j] < |made| && (Matches(t.names, t.fromName[j], key) <==> key <= made[t.toInt[j]])
  {
    assert SlotOk(t, j);
    var i, place := t.toInt[j], t.fromName[j];
    assert StringOk(t, made, i);
    var s := made[i];
    MatchesAt(t.names, place, s);
    MatchesAt(t.names, place, key);
    if Matches(t.names, place, key) { HitKey(t, made, j, key); }
    if key <= s {
      forall l {:trigger key[l]} | 0 <= l < |key| ensures t.names[place + l] == key[l] { assert s[l] == key[l]; }
    }
  }

  // From slot j on, a slot whose string properly extends the key comes before one that has the key itself,
  // and before any free or locked one.
  ghost predicate LongerFirst(t: Table, made: seq<string>, key: string, j: nat, left: nat)
    requires TableOk(t, made) && j < 2 * t.maxTypes
    decreases left
  {
    && left > 0 && Taken(t, j) && 0 <= t.toInt[j] < |made| && made[t.toInt[j]] != key
    && (key < made[t.toInt[j]] || LongerFirst(t, made, key, Next(t, j), left - 1))
  }

  lemma {:induction false} LongerFound(t: Table, made: seq<string>, key: string, j: nat, left: nat)
    requires TableOk(t, made) && j < 2 * t.maxTypes && CString(key)
    ensures var p := Find(t, key, j, left);
      && (p.Hit? ==> p.j < 2 * t.maxTypes && 0 <= t.toInt[p.j] < |made| && key <= made[t.toInt[p.j]])
      && (p.Hit? && made[t.toInt[p.j]] != key <==> LongerFirst(t, made, key, j, left))
    decreases left
  {
    if left > 0 && Taken(t, j) {
      PrefixIs(t, made, j, key);
      LongerFound(t, made, key, Next(t, j), left - 1);
    }
    hide TableOk, Matches;
  }

  /**
   Creating a name answers with the id of another name exactly when the probe comes to a longer name
   that begins with it first.
   */
  lemma LongerAnswered(t: Table, made: seq<string>, hash: string -> nat, name: string)
    requires TableOk(t, made) && CString(name)
    ensures var o := Create(t, hash, name).1;
      && (o.Known? ==> 0 <= o.id < |made| && Key(name) <= made[o.id])
      && (o.Known? && made[o.id] != Key(name) <==> LongerFirst(t, made, Key(name), hash(Key(name)) % (2 * t.maxTypes), 2 * t.maxTypes))
  {
    LongerFound(t, made, Key(name), hash(Key(name)) % (2 * t.maxTypes), 2 * t.maxTypes);
    hide TableOk, Find, LongerFirst, Place;
  }
}
