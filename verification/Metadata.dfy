/** File attributes as decimal strings in a dictionary, and back: src/metadata.c. */
module Metadata {
  import opened Basics
  import opened Decimal

  type Meta = map<string, string>

  /** The seven fields of struct stat that are kept, as numbers. */
  datatype Attributes = Attributes(mode: int, size: int, uid: int, gid: int, atime: int, mtime: int, ctime: int)

  predicate Is32(x: int) {
    0 <= x < TWO_32
  }

  predicate Is64(x: int) {
    -TWO_63 <= x < TWO_63
  }

  /** mode_t, uid_t and gid_t are unsigned 32-bit types, off_t and time_t signed 64-bit ones. */
  predicate InRange(a: Attributes) {
    Is32(a.mode) && Is64(a.size) && Is32(a.uid) && Is32(a.gid) && Is64(a.atime) && Is64(a.mtime) && Is64(a.ctime)
  }

  /** The conversion to unsigned long. */
  function ToULong(x: int): nat {
    x % TWO_64
  }

  /** The kept fields and the names they have in the dictionary. */
  datatype Name = Mode | Size | Uid | Gid | Atime | Mtime | Ctime

  function Key(n: Name): string {
    match n
    case Mode => "mode"
    case Size => "size"
    case Uid => "uid"
    case Gid => "gid"
    case Atime => "atime"
    case Mtime => "mtime"
    case Ctime => "ctime"
  }

  predicate Wide(n: Name) {
    n != Mode && n != Uid && n != Gid
  }

  function At(a: Attributes, n: Name): int {
    match n
    case Mode => a.mode
    case Size => a.size
    case Uid => a.uid
    case Gid => a.gid
    case Atime => a.atime
    case Mtime => a.mtime
    case Ctime => a.ctime
  }

  function Field(x: int): string {
    Print(ToULong(x))
  }

  /** The dictionary `m` after fill_metadata_from_stat. */
  function WithMeta(m: Meta, a: Attributes): Meta {
    m[Key(Mode) := Field(a.mode)][Key(Size) := Field(a.size)][Key(Uid) := Field(a.uid)][Key(Gid) := Field(a.gid)]
    [Key(Atime) := Field(a.atime)][Key(Mtime) := Field(a.mtime)][Key(Ctime) := Field(a.ctime)]
  }

  /** metadatatoll: -1 when there is no such metadata. */
  function MetadataToLL(m: Meta, key: string): int {
    if key in m then ToInt64(Strtoull(m[key])) else -1
  }

  /** STORE_META: the new value of a field that was `before`. */
  function Stored(m: Meta, n: Name, before: int): int {
    var v := MetadataToLL(m, Key(n));
    if v == -1 then before else if Wide(n) then v else v % TWO_32
  }

  function FromMeta(m: Meta, before: Attributes): Attributes {
    Attributes(Stored(m, Mode, before.mode), Stored(m, Size, before.size),
               Stored(m, Uid, before.uid), Stored(m, Gid, before.gid),
               Stored(m, Atime, before.atime), Stored(m, Mtime, before.mtime), Stored(m, Ctime, before.ctime))
  }

  lemma KeysDiffer(n: Name, k: Name)
    ensures Key(n) == Key(k) ==> n == k
  {
    assert Key(n)[0] == Key(k)[0] && Key(n)[|Key(n)| - 1] == Key(k)[|Key(k)| - 1] && |Key(n)| == |Key(k)| ==> n == k;
  }

  /** Filling writes every field in decimal, under its own name, and touches no other name. */
  lemma WithMetaAt(m: Meta, a: Attributes, n: Name)
    ensures Key(n) in WithMeta(m, a) && WithMeta(m, a)[Key(n)] == Field(At(a, n))
  {
    hide Key, Field;
    KeysDiffer(n, Mode);
    KeysDiffer(n, Size);
    KeysDiffer(n, Uid);
    KeysDiffer(n, Gid);
    KeysDiffer(n, Atime);
    KeysDiffer(n, Mtime);
    KeysDiffer(n, Ctime);
  }

  /** The seven names in the dictionary, and that no other one is touched. */
  lemma FilledIn(m: Meta, a: Attributes, name: string)
    ensures var d := WithMeta(m, a);
            if name == "mode" then Lookup(d, name) == Some(Print(ToULong(a.mode)))
            else if name == "size" then Lookup(d, name) == Some(Print(ToULong(a.size)))
            else if name == "uid" then Lookup(d, name) == Some(Print(ToULong(a.uid)))
            else if name == "gid" then Lookup(d, name) == Some(Print(ToULong(a.gid)))
            else if name == "atime" then Lookup(d, name) == Some(Print(ToULong(a.atime)))
            else if name == "mtime" then Lookup(d, name) == Some(Print(ToULong(a.mtime)))
            else if name == "ctime" then Lookup(d, name) == Some(Print(ToULong(a.ctime)))
            else Lookup(d, name) == Lookup(m, name)
  {
    hide Print;
    WithMetaAt(m, a, Mode);
    WithMetaAt(m, a, Size);
    WithMetaAt(m, a, Uid);
    WithMetaAt(m, a, Gid);
    WithMetaAt(m, a, Atime);
    WithMetaAt(m, a, Mtime);
    WithMetaAt(m, a, Ctime);
  }

  /** The structure has the numbers of the dictionary, whoever has filled it, each under its own name. */
  ghost predicate ReadByName(m: Meta, a: Attributes) {
    forall n: nat :: n < 0xFFFF_FFFF ==>
      && (Lookup(m, "mode") == Some(Print(n)) ==> a.mode == n)
      && (Lookup(m, "size") == Some(Print(n)) ==> a.size == n)
      && (Lookup(m, "uid") == Some(Print(n)) ==> a.uid == n)
      && (Lookup(m, "gid") == Some(Print(n)) ==> a.gid == n)
      && (Lookup(m, "atime") == Some(Print(n)) ==> a.atime == n)
      && (Lookup(m, "mtime") == Some(Print(n)) ==> a.mtime == n)
      && (Lookup(m, "ctime") == Some(Print(n)) ==> a.ctime == n)
  }

  lemma ReadBack(m: Meta, before: Attributes)
    ensures ReadByName(m, FromMeta(m, before))
  {
    hide Print, Stored;
    forall n: nat, k: Name, v: int | n < 0xFFFF_FFFF && Lookup(m, Key(k)) == Some(Print(n)) ensures Stored(m, k, v) == n
    {
      StoredRead(m, n, k, v);
    }
  }

  lemma StoredRead(m: Meta, n: nat, k: Name, before: int)
    requires n < 0xFFFF_FFFF && Lookup(m, Key(k)) == Some(Print(n))
    ensures Stored(m, k, before) == n
  {
    hide Print, Strtoull, Key;
    PrintThenRead(n);
  }

  lemma FieldRead(x: int)
    requires -TWO_63 <= x < TWO_64
    ensures ToInt64(Strtoull(Field(x))) == ToInt64(x)
  {
    hide Strtoull, Print;
    PrintThenRead(ToULong(x));
  }

  /** One field comes back, unless it is a 64-bit field of value -1: that one stays as it was. */
  lemma FieldComesBack(m: Meta, a: Attributes, n: Name, before: int)
    requires InRange(a)
    ensures Stored(WithMeta(m, a), n, before) == if Wide(n) && At(a, n) == -1 then before else At(a, n)
  {
    hide Key, Field, Strtoull, WithMeta;
    WithMetaAt(m, a, n);
    FieldRead(At(a, n));
  }

  /** Stat to metadata to stat, for all values of all fields and whatever both sides held before. */
  lemma RoundTrip(m: Meta, a: Attributes, before: Attributes)
    requires InRange(a)
    ensures FromMeta(WithMeta(m, a), before) ==
            a.(size := if a.size == -1 then before.size else a.size,
               atime := if a.atime == -1 then before.atime else a.atime,
               mtime := if a.mtime == -1 then before.mtime else a.mtime,
               ctime := if a.ctime == -1 then before.ctime else a.ctime)
  {
    hide Stored, WithMeta, InRange;
    FieldComesBack(m, a, Mode, before.mode);
    FieldComesBack(m, a, Size, before.size);
    FieldComesBack(m, a, Uid, before.uid);
    FieldComesBack(m, a, Gid, before.gid);
    FieldComesBack(m, a, Atime, before.atime);
    FieldComesBack(m, a, Mtime, before.mtime);
    FieldComesBack(m, a, Ctime, before.ctime);
  }

  /** So the whole structure comes back exactly when no 64-bit field is -1 that was not -1 already. */
  lemma RoundTripExactly(m: Meta, a: Attributes, before: Attributes)
    requires InRange(a)
    ensures FromMeta(WithMeta(m, a), before) == a <==>
            (a.size == -1 ==> before.size == -1) && (a.atime == -1 ==> before.atime == -1)
            && (a.mtime == -1 ==> before.mtime == -1) && (a.ctime == -1 ==> before.ctime == -1)
  {
    hide FromMeta, WithMeta, InRange;
    RoundTrip(m, a, before);
  }

  lemma Named(m: Meta, a: Attributes)
    ensures var d := WithMeta(m, a);
            && Lookup(d, "mode") == Some(Print(ToULong(a.mode))) && Lookup(d, "size") == Some(Print(ToULong(a.size)))
            && Lookup(d, "uid") == Some(Print(ToULong(a.uid))) && Lookup(d, "gid") == Some(Print(ToULong(a.gid)))
            && Lookup(d, "atime") == Some(Print(ToULong(a.atime)))
            && Lookup(d, "mtime") == Some(Print(ToULong(a.mtime)))
            && Lookup(d, "ctime") == Some(Print(ToULong(a.ctime)))
  {
    hide Print, WithMeta;
    FilledIn(m, a, "mode");
    FilledIn(m, a, "size");
    FilledIn(m, a, "uid");
    FilledIn(m, a, "gid");
    FilledIn(m, a, "atime");
    FilledIn(m, a, "mtime");
    FilledIn(m, a, "ctime");
  }

  // ----- In place -----

  class Dict {
    var entries: Meta

    constructor ()
      ensures entries == map[]
    {
      entries := map[];
    }

    /** assign_meta_to_dict: src/metadata.c:23-35. */
    method AssignMeta(meta: string, val: nat)
      modifies this
      ensures entries == old(entries)[meta := Print(val)]
    {
      var buf := Print(val);
      entries := entries[meta := buf];
    }
  }

  class Stat {
    var mode: int
    var size: int
    var uid: int
    var gid: int
    var atime: int
    var mtime: int
    var ctime: int

    function Abs(): Attributes
      reads this
    {
      Attributes(mode, size, uid, gid, atime, mtime, ctime)
    }

    constructor (a: Attributes)
      ensures Abs() == a
    {
      mode, size, uid, gid, atime, mtime, ctime := a.mode, a.size, a.uid, a.gid, a.atime, a.mtime, a.ctime;
    }

    /** fill_metadata_from_stat: src/metadata.c:37-48. */
    method FillMetadata(dict: Dict)
      modifies dict
      ensures dict.entries == WithMeta(old(dict.entries), Abs())
      ensures Lookup(dict.entries, "mode") == Some(Print(ToULong(mode)))
      ensures Lookup(dict.entries, "size") == Some(Print(ToULong(size)))
      ensures Lookup(dict.entries, "uid") == Some(Print(ToULong(uid)))
      ensures Lookup(dict.entries, "gid") == Some(Print(ToULong(gid)))
      ensures Lookup(dict.entries, "atime") == Some(Print(ToULong(atime)))
      ensures Lookup(dict.entries, "mtime") == Some(Print(ToULong(mtime)))
      ensures Lookup(dict.entries, "ctime") == Some(Print(ToULong(ctime)))
    {
      Named(old(dict.entries), Abs());
      hide Key, Print;
      dict.AssignMeta(Key(Mode), ToULong(mode));
      dict.AssignMeta(Key(Size), ToULong(size));
      dict.AssignMeta(Key(Uid), ToULong(uid));
      dict.AssignMeta(Key(Gid), ToULong(gid));
      dict.AssignMeta(Key(Atime), ToULong(atime));
      dict.AssignMeta(Key(Mtime), ToULong(mtime));
      dict.AssignMeta(Key(Ctime), ToULong(ctime));
    }

    /** fill_stat_from_metadata: src/metadata.c:94-105. */
    method FillFromMetadata(dict: Dict)
      modifies this
      ensures Abs() == FromMeta(dict.entries, old(Abs()))
      ensures ReadByName(dict.entries, Abs())
    {
      hide Stored, ReadByName;
      ReadBack(dict.entries, Abs());
      size := Stored(dict.entries, Size, size);
      mode := Stored(dict.entries, Mode, mode);
      uid := Stored(dict.entries, Uid, uid);
      gid := Stored(dict.entries, Gid, gid);
      atime := Stored(dict.entries, Atime, atime);
      ctime := Stored(dict.entries, Ctime, ctime);
      mtime := Stored(dict.entries, Mtime, mtime);
    }
  }
}
