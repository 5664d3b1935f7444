/**
 The names table in place: creating a type from its name, and looking up either from the other.
 */
module Names {
  import opened NameTable

  datatype Option<T> = None | Some(value: T)

  class StingerNames {
    const maxTypes: nat
    const hash: string -> nat
    const names: array<char>
    const toName: array<int>
    const fromName: array<int>
    const toInt: array<int>
    var nextString: nat
    var nextType: nat

    ghost function State(): Table
      reads this, names, toName, fromName, toInt
    {
      Table(maxTypes, nextString, nextType, names[..], toName[..], fromName[..], toInt[..])
    }

    ghost predicate Valid()
      reads this, names, toName, fromName, toInt
    {
      && Shape(State()) && toName != fromName && toName != toInt && fromName != toInt
      && forall j | 0 <= j < fromName.Length :: MARKER <= fromName[j] <= names.Length
    }

    /** stinger_names_new: an empty, sound table, for any hash function. */
    constructor (maxTypes: nat, hash: string -> nat)
      requires maxTypes > 0
      ensures Valid() && State() == Empty(maxTypes) && TableOk(State(), []) && this.hash == hash && fresh(names) && fresh(toName) && fresh(fromName) && fresh(toInt)
    {
      this.maxTypes, this.hash := maxTypes, hash;
      names := new char[maxTypes * (NAME_STR_MAX + 1)](_ => NUL);
      toName := new int[maxTypes](_ => 0);
      fromName := new int[2 * maxTypes](_ => 0);
      toInt := new int[2 * maxTypes](_ => 0);
      nextString, nextType := 1, 0;
      new;
      EmptyOk(maxTypes);
      assert State() == Empty(maxTypes);
    }

    // strncmp of key with the string at a place.
    method SamePrefix(place: int, key: string) returns (same: bool)
      requires 0 <= place <= names.Length
      ensures same <==> Matches(names[..], place, key)
    {
      MatchesAt(names[..], place, key);
      var i := 0;
      while i < |key|
        invariant 0 <= i <= |key| && place + i <= names.Length
        invariant forall l {:trigger key[l]} | 0 <= l < i :: place + l < names.Length && names[place + l] == key[l]
      {
        if place + i >= names.Length || names[place + i] != key[i] { return false; }
        i := i + 1;
      }
      same := true;
    }

    // The probe from the name's own slot on, once around.
    method FindSlotOf(key: string) returns (p: Probe)
      requires Valid()
      ensures p == Find(State(), key, hash(key) % (2 * maxTypes), 2 * maxTypes)
    {
      var index := hash(key) % (2 * maxTypes);
      var initIndex := index;
      ghost var steps, start, t := 0, index, State();
      while true
        invariant index < 2 * maxTypes && steps < 2 * maxTypes && index == if start + steps < 2 * maxTypes then start + steps else start + steps - 2 * maxTypes
        invariant Find(t, key, start, 2 * maxTypes) == Find(t, key, index, 2 * maxTypes - steps)
        decreases 2 * maxTypes - steps
      {
        ghost var next := Next(t, index);
        if fromName[index] == MARKER { return Locked(index); }
        if fromName[index] == 0 { return Free(index); }
        var same := SamePrefix(fromName[index], key);
        if same { return Hit(index); }
        index := (index + 1) % (2 * maxTypes);
        steps := steps + 1;
        if index == initIndex { return Nowhere; }
      }
    }
  
    // The string goes into the pool.
    method StoreString(place: nat, key: string)
      requires Valid() && place + |key| <= names.Length
      modifies names
      ensures Valid() && names[..] == Write(old(names[..]), place, key)
    {
      ghost var names0 := names[..];
      var i := 0;
      while i < |key|
        invariant 0 <= i <= |key|
        invariant forall p | 0 <= p < names.Length :: names[p] == if place <= p < place + i then key[p - place] else names0[p]
      {
        names[place + i] := key[i];
        i := i + 1;
      }
      forall p | 0 <= p < names.Length ensures names[..][p] == Write(names0, place, key)[p] { WriteAt(names0, place, key, p); }
    }

    // A new type in a free slot, which is locked meanwhile.
    method PlaceType(j: nat, key: string) returns (o: Outcome)
      requires Valid() && j < 2 * maxTypes && nextType <= maxTypes && fromName[j] == 0
      modifies this`nextString, this`nextType, names, toName, fromName, toInt
      ensures Valid() && (State(), o) == Place(old(State()), j, key)
    {
      hide Write, Find, Matches;
      ghost var t := State();
      fromName[j] := MARKER;
      var place := nextString;
      nextString := nextString + |key| + 1;
      if place + |key| >= maxTypes * (NAME_STR_MAX + 1) - 1 {
        return NoRoom;
      }
      StoreString(place, key);
      toInt[j] := nextType;
      nextType := nextType + 1;
      if toInt[j] < maxTypes {
        toName[toInt[j]] := place;
      } else {
        fromName[0] := place;
      }
      if fromName[j] != MARKER { return Spins; }
      fromName[j] := place;
      o := New(toInt[j]);
    }

    /** stinger_names_create_type; Spins stands for a call that never returns. */
    method CreateType(name: string) returns (o: Outcome)
      requires Valid()
      modifies this`nextString, this`nextType, names, toName, fromName, toInt
      ensures Valid() && (State(), o) == Create(old(State()), hash, name)
    {
      hide Find, Matches, Place;
      ghost var t := State();
      var key := Key(name);
      if nextType > maxTypes { return TableFull; }
      FindSlot(t, key, hash(key) % (2 * maxTypes), 2 * maxTypes);
      var p := FindSlotOf(key);
      match p {
        case Nowhere => o := TableFull;
        case Locked(_) => o := Spins;
        case Hit(j) => o := Known(toInt[j]);
        case Free(j) => o := PlaceType(j, key);
      }
    }

    /** stinger_names_lookup_type: -1 for a name without an id. */
    method LookupType(name: string) returns (id: int, spins: bool)
      requires Valid()
      ensures spins <==> Lookup(State(), hash, name).Locked?
      ensures !spins ==> if Lookup(State(), hash, name).Hit? then Gives(State(), Lookup(State(), hash, name), id) else id == -1
    {
      hide Find, Matches;
      ghost var t := State();
      var key := Key(name);
      FindSlot(t, key, hash(key) % (2 * maxTypes), 2 * maxTypes);
      var p := FindSlotOf(key);
      spins := p.Locked?;
      id := match p { case Hit(j) => toInt[j] case _ => -1 };
    }

    /** stinger_names_lookup_name: the name that created the id; the empty string for an id not given out yet. */
    method LookupName(id: nat) returns (name: Option<string>)
      requires Valid()
      ensures (name.None? <==> id >= maxTypes) && (name.Some? ==> name.value == StringAt(State().names, State().toName[id]))
      ensures forall made | TableOk(State(), made) :: name.Some? ==> name.value == if id < |made| then made[id] else ""
    {
      if id >= maxTypes { return None; }
      name := Some(StringAt(names[..], toName[id]));
      forall made | TableOk(State(), made) ensures name.value == if id < |made| then made[id] else "" {
        NameOfId(State(), made, id);
      }
    }
  }

  // ---------------------------------------------------------------- the hash function

  // Up to eight bytes as a word, the first byte lowest.
  function Word(bytes: string): bv64 {
    if bytes == "" then 0 else Before(bytes[0], Word(bytes[1..]))
  }

  function Byte(c: char): bv64 { c as bv64 & 0xff }

  function Before(c: char, word: bv64): bv64 { Byte(c) | (word << 8) }

  function Words(bytes: string, out: bv64): bv64
    decreases |bytes|
  {
    if |bytes| > 8 then Words(bytes[8..], out ^ Word(bytes[..8])) else out ^ Word(bytes)
  }

  // Jenkins' 64-bit mix.
  function Mix(x: bv64): bv64 {
    var a := !x + (x << 21);
    var b := Times265(a ^ (a >> 24));
    var c := Times21(b ^ (b >> 14));
    var d := c ^ (c >> 28);
    d + (d << 31)
  }

  function Times265(x: bv64): bv64 { x + (x << 3) + (x << 8) }

  function Times21(x: bv64): bv64 { x + (x << 2) + (x << 4) }

  /** xor_hash */
  function XorHash(bytes: string): nat { Mix(Words(bytes, 0)) as nat }

  lemma HashOfC()
    ensures XorHash("c") % 2 == 0
  {
    hide Word, Words, Mix;
    WordOfC();
    MixOfC();
    assert 0x81f5507803ea9ed6 as bv64 as nat == 0x81f5507803ea9ed6;
  }

  lemma WordStep(s: string)
    requires s != ""
    ensures Word(s) == Before(s[0], Word(s[1..])) && Word("") == 0
  {
    hide Before, Byte;
  }

  lemma BeforeIs(c: char, word: bv64)
    ensures Before(c, word) == Byte(c) | (word << 8)
  {
    hide Byte;
  }

  lemma WordsShort(s: string)
    requires |s| <= 8
    ensures Words(s, 0) == Word(s)
  {
    hide Word;
  }

  lemma ByteOfC()
    ensures Byte('c') == 0x63
  {
  }

  lemma WordOfC()
    ensures Words("c", 0) == 0x63
  {
    hide *;
    WordsShort("c");
    WordStep("c");
    assert "c"[1..] == "";
    BeforeIs('c', 0);
    ByteOfC();
  }

  lemma MixOfC()
    ensures Mix(0x63) == 0x81f5507803ea9ed6
  {
    var x: bv64 := 0x63;
    assert !x + (x << 21) == 0xc5fff9c;
    TimesC();
    hide Times265, Times21;
  }

  lemma TimesC()
    ensures Times265(0xc5fff90) == 0xccf5f8c10 && Times21(0xccf6cb16e) == 0x10d03ea8e06
  {
  }

  lemma HashOfA()
    ensures XorHash("a") % 2 == 1
  {
    hide Word, Words, Mix;
    WordOfA();
    MixOfA();
    assert 0xca602e0214c059f5 as bv64 as nat == 0xca602e0214c059f5;
  }

  lemma ByteOfA()
    ensures Byte('a') == 0x61
  {
  }

  lemma WordOfA()
    ensures Words("a", 0) == 0x61
  {
    hide *;
    WordsShort("a");
    WordStep("a");
    assert "a"[1..] == "";
    BeforeIs('a', 0);
    ByteOfA();
  }

  lemma MixOfA()
    ensures Mix(0x61) == 0xca602e0214c059f5
  {
    var x: bv64 := 0x61;
    assert !x + (x << 21) == 0xc1fff9e;
    TimesA();
    hide Times265, Times21;
  }

  lemma TimesA()
    ensures Times265(0xc1fff92) == 0xc8d1f8e22 && Times21(0xc8d2dba5c) == 0x10794c0498c
  {
  }

  lemma HashOfAt()
    ensures XorHash("at") % 2 == 1
  {
    hide Word, Words, Mix;
    WordOfAt();
    MixOfAt();
    assert 0x7e6364667cc4504f as bv64 as nat == 0x7e6364667cc4504f;
  }

  lemma ByteOfT()
    ensures Byte('t') == 0x74
  {
  }

  lemma WordOfAt()
    ensures Words("at", 0) == 0x7461
  {
    hide *;
    WordsShort("at");
    WordStep("at");
    WordStep("t");
    assert "at"[1..] == "t" && "t"[1..] == "";
    BeforeIs('t', 0);
    BeforeIs('a', 0x74);
    ByteOfA();
    ByteOfT();
  }

  lemma MixOfAt()
    ensures Mix(0x7461) == 0x7e6364667cc4504f
  {
    var x: bv64 := 0x7461;
    assert !x + (x << 21) == 0xe8c1f8b9e;
    TimesAt();
    hide Times265, Times21;
  }

  lemma TimesAt()
    ensures Times265(0xe8c1f8512) == 0xf0f0ca0bfa2 && Times21(0xf0f309c8d20) == 0x13c3efcd793a0
  {
  }

  // ---------------------------------------------------------------- one type too many

  lemma LostIfFirst(hash: string -> nat)
    requires hash("c") % 2 == 0 && hash("a") % 2 == 1
    ensures var (t1, o1) := Create(Empty(1), hash, "c");
      Shape(t1) && o1 == New(0) &&
      var (t2, o2) := Create(t1, hash, "a");
      Shape(t2) && o2 == New(1) && Gives(t1, Lookup(t1, hash, "c"), 0) && !Lookup(t2, hash, "c").Hit?
  {
  }

  /** One type too many: with room for one, "c" and then "a" get ids, and "c" is no longer found. */
  lemma LostName()
    ensures var (t1, o1) := Create(Empty(1), XorHash, "c");
      Shape(t1) && o1 == New(0) &&
      var (t2, o2) := Create(t1, XorHash, "a");
      Shape(t2) && o2 == New(1) && Gives(t1, Lookup(t1, XorHash, "c"), 0) && !Lookup(t2, XorHash, "c").Hit?
  {
    hide *;
    HashOfC();
    HashOfA();
    LostIfFirst(XorHash);
  }

  // ---------------------------------------------------------------- a longer name's id

  lemma LongerIfSame(hash: string -> nat)
    requires hash("at") % 2 == 1 && hash("a") % 2 == 1
    ensures var (t1, o1) := Create(Empty(1), hash, "at");
      Shape(t1) && o1 == New(0) && TableOk(t1, ["at"]) && Create(t1, hash, "a") == (t1, Known(0))
  {
    EmptyOk(1);
    CreateOk(Empty(1), [], hash, "at");
  }

  /** "at" and then "a": the second name is answered with the id of the first. */
  lemma LongerName()
    ensures var (t1, o1) := Create(Empty(1), XorHash, "at");
      Shape(t1) && o1 == New(0) && TableOk(t1, ["at"]) && Create(t1, XorHash, "a") == (t1, Known(0))
  {
    hide *;
    HashOfAt();
    HashOfA();
    LongerIfSame(XorHash);
  }
}
