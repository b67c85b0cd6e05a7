/** One pass of the garbage collector over a snapshot of the table's keys. */
module GcPass {
  import opened Basics
  import opened CacheProtocol

  /** What the descriptors' fstat(2) answers for each path, the time, and gc_age_threshold. */
  datatype Clock = Clock(st: Path -> Option<Times>, now: int, threshold: int)

  predicate Dropped<Id(==)>(s: State<Id>, p: Path, c: Clock) {
    p in s.hash && s.hash[p] in s.mem && Collects(s.mem[s.hash[p]], c.st(p), c.now, c.threshold)
  }

  /** gc_callback on one key, as in the GcVisit step; a key that is gone is not visited. */
  function GcStep<Id(==)>(s: State<Id>, p: Path, c: Clock): State<Id> {
    if Dropped(s, p, c) then AfterCollect(s, p) else s
  }

  function GcFold<Id(==)>(s: State<Id>, keys: seq<Path>, c: Clock): State<Id> {
    if keys == [] then s
    else GcStep(GcFold(s, keys[..|keys| - 1], c), keys[|keys| - 1], c)
  }

  function Visited(keys: seq<Path>): set<Path> {
    set p | p in keys
  }

  function Gone<Id(==)>(s: State<Id>, keys: set<Path>, c: Clock): set<Path> {
    set p | p in keys && Dropped(s, p, c)
  }

  function Addresses<Id(==)>(s: State<Id>, gone: set<Path>): set<Id> {
    set p | p in gone && p in s.hash :: s.hash[p]
  }

  /** The table without the entries of `gone`, and everything else as it was. */
  function Without<Id(==)>(s: State<Id>, gone: set<Path>): State<Id> {
    s.(hash := s.hash - gone, mem := s.mem - Addresses(s, gone), cache := s.cache - gone,
       stale := s.stale - gone, lost := s.lost + gone * s.stale)
  }

  /** The oldest of the three times. */
  function Oldest(t: Times): int {
    if t.atime <= t.mtime && t.atime <= t.ctime then t.atime else if t.mtime <= t.ctime then t.mtime else t.ctime
  }

  /** Which entries a pass keeps, in the terms of the descriptor's times: in use, locked, without a
      descriptor, or with the oldest of the three times within the threshold, which is ten times
      larger for an excluded path. A bad descriptor, or one fstat(2) fails on, keeps nothing. */
  lemma KeptExactly(e: Entry, st: Option<Times>, now: int, threshold: int)
    ensures !Collects(e, st, now, threshold) <==>
            || e.refcount > 0 || e.locked || e.fd == -1
            || (e.fd >= 0 && st.Some? && now - Oldest(st.value) < (if e.exclude then 10 * threshold else threshold))
  {
  }

  lemma TableKept<Id>(s: State<Id>, p: Path)
    requires TableInv(s.hash, s.mem) && p in s.hash
    ensures TableInv(AfterCollect(s, p).hash, AfterCollect(s, p).mem)
  {
    var t := AfterCollect(s, p);
    forall id | id in t.mem ensures exists q :: q in t.hash && t.hash[q] == id
    {
      var q :| q in s.hash && s.hash[q] == id;
      assert t.hash[q] == id;
    }
  }

  /** Collecting frees the entry whatever its fields have become. */
  lemma CollectAnyway<Id>(s: State<Id>, p: Path, e: Entry)
    requires TableInv(s.hash, s.mem) && p in s.hash
    ensures TableInv(s.hash, SetEntry(s, s.hash[p], e).mem)
    ensures AfterCollect(SetEntry(s, s.hash[p], e), p) == AfterCollect(s, p)
  {
    assert AfterCollect(SetEntry(s, s.hash[p], e), p).mem == AfterCollect(s, p).mem;
  }

  lemma TableFold<Id>(s: State<Id>, keys: seq<Path>, c: Clock)
    requires TableInv(s.hash, s.mem)
    ensures var t := GcFold(s, keys, c); TableInv(t.hash, t.mem)
  {
    if keys != [] {
      TableFold(s, keys[..|keys| - 1], c);
      var t := GcFold(s, keys[..|keys| - 1], c);
      if keys[|keys| - 1] in t.hash { TableKept(t, keys[|keys| - 1]); }
    }
  }

  lemma WithoutNone<Id>(s: State<Id>)
    ensures Without(s, {}) == s
  {
    var t := Without(s, {});
    assert t.hash == s.hash && t.mem == s.mem && t.cache == s.cache && t.stale == s.stale && t.lost == s.lost;
  }

  lemma AddressKept<Id>(s: State<Id>, gone: set<Path>, p: Path)
    requires TableInv(s.hash, s.mem) && p in s.hash && p !in gone
    ensures s.hash[p] !in Addresses(s, gone)
    ensures s.hash[p] in Without(s, gone).mem && Without(s, gone).mem[s.hash[p]] == s.mem[s.hash[p]]
  {
  }

  lemma MinusTwice<K, V>(m: map<K, V>, a: set<K>, b: set<K>)
    ensures (m - a) - b == m - (a + b)
  {
  }

  lemma OneMoreAddress<Id>(s: State<Id>, gone: set<Path>, p: Path)
    requires p in s.hash
    ensures Addresses(s, gone + {p}) == Addresses(s, gone) + {s.hash[p]}
  {
  }

  lemma WithoutOneMore<Id>(s: State<Id>, gone: set<Path>, p: Path)
    requires TableInv(s.hash, s.mem) && p in s.hash && p !in gone
    ensures AfterCollect(Without(s, gone), p) == Without(s, gone + {p})
  {
    hide Addresses, TableInv;
    var a, b := AfterCollect(Without(s, gone), p), Without(s, gone + {p});
    OneMoreAddress(s, gone, p);
    MinusTwice(s.hash, gone, {p});
    MinusTwice(s.mem, Addresses(s, gone), {s.hash[p]});
    MinusTwice(s.cache, gone, {p});
    assert a.stale == b.stale && a.lost == b.lost;
  }

  lemma DroppedLater<Id>(s: State<Id>, gone: set<Path>, p: Path, c: Clock)
    requires TableInv(s.hash, s.mem)
    ensures Dropped(Without(s, gone), p, c) <==> Dropped(s, p, c) && p !in gone
  {
    if p in s.hash && p !in gone { AddressKept(s, gone, p); }
  }

  lemma GoneMore<Id>(s: State<Id>, front: seq<Path>, p: Path, c: Clock)
    ensures Gone(s, Visited(front + [p]), c)
            == (if Dropped(s, p, c) then Gone(s, Visited(front), c) + {p} else Gone(s, Visited(front), c))
  {
  }

  lemma StepWithout<Id>(s: State<Id>, gone: set<Path>, p: Path, c: Clock)
    requires TableInv(s.hash, s.mem)
    ensures GcStep(Without(s, gone), p, c) == Without(s, if Dropped(s, p, c) then gone + {p} else gone)
  {
    DroppedLater(s, gone, p, c);
    if p in gone { assert gone + {p} == gone; }
    if Dropped(s, p, c) && p !in gone { WithoutOneMore(s, gone, p); }
  }

  /** The pass drops the collectable entries of its keys, with their cache files, and leaves
      everything else as it was, whatever the order of the visits. */
  lemma {:induction false} PassResult<Id>(s: State<Id>, keys: seq<Path>, c: Clock)
    requires TableInv(s.hash, s.mem)
    ensures GcFold(s, keys, c) == Without(s, Gone(s, Visited(keys), c))
  {
    if keys == [] {
      WithoutNone(s);
      assert Gone(s, Visited(keys), c) == {};
    } else {
      var front, p := keys[..|keys| - 1], keys[|keys| - 1];
      PassResult(s, front, c);
      GoneMore(s, front, p, c);
      assert keys == front + [p];
      StepWithout(s, Gone(s, Visited(front), c), p, c);
    }
  }

  /** Two passes over the same keys in any two orders end alike. */
  lemma OrderIndependent<Id>(s: State<Id>, keys: seq<Path>, other: seq<Path>, c: Clock)
    requires TableInv(s.hash, s.mem) && (forall p :: p in keys <==> p in other)
    ensures GcFold(s, keys, c) == GcFold(s, other, c)
  {
    PassResult(s, keys, c);
    PassResult(s, other, c);
    assert Visited(keys) == Visited(other);
  }

  /** A survivor's entry, lock included, is left as it was, and a second pass at the same time
      does nothing. */
  lemma PassIdempotent<Id>(s: State<Id>, keys: seq<Path>, c: Clock)
    requires TableInv(s.hash, s.mem)
    ensures var t := GcFold(s, keys, c);
            && (forall p :: p in t.hash <==> p in s.hash && !(p in keys && Dropped(s, p, c)))
            && (forall p :: p in t.hash ==>
                 t.hash[p] == s.hash[p] && t.hash[p] in t.mem && t.mem[t.hash[p]] == s.mem[s.hash[p]])
            && GcFold(t, keys, c) == t
  {
    PassResult(s, keys, c);
    TableFold(s, keys, c);
    var gone := Gone(s, Visited(keys), c);
    var t := Without(s, gone);
    forall p | p in t.hash ensures t.hash[p] in t.mem && t.mem[t.hash[p]] == s.mem[s.hash[p]]
    {
      AddressKept(s, gone, p);
    }
    PassResult(t, keys, c);
    forall p ensures p !in Gone(t, Visited(keys), c)
    {
      DroppedLater(s, gone, p, c);
    }
    assert Gone(t, Visited(keys), c) == {};
    WithoutNone(t);
  }
}
