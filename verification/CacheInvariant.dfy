/** Every step of the path-entry cache keeps the invariant. */
module CacheInvariant {
  import opened Basics
  import opened OpenFlags
  import opened CacheProtocol
  import GcPass

  // ----- A change of one handle and of its entry -----

  lemma CardMinus(a: set<nat>, h: nat)
    ensures |a - {h}| == |a| - (if h in a then 1 else 0)
  {
    if h !in a { assert a - {h} == a; }
  }

  lemma CountOf<Id>(handles: map<nat, Handle<Id>>, h: nat, hd: Handle<Id>, id: Id)
    requires h in handles ==> handles[h].pe == hd.pe
    ensures |CountedHandles(handles[h := hd], id)| == |CountedHandles(handles, id)|
              + (if hd.pe == id && Counted(hd.phase) then 1 else 0)
              - (if h in handles && hd.pe == id && Counted(handles[h].phase) then 1 else 0)
  {
    var handles' := handles[h := hd];
    var a, b := CountedHandles(handles, id), CountedHandles(handles', id);
    forall g ensures g in a - {h} <==> g in b - {h} {}
    assert a - {h} == b - {h};
    CardMinus(a, h);
    CardMinus(b, h);
  }

  lemma CountKept<Id>(mem: map<Id, Entry>, handles: map<nat, Handle<Id>>, h: nat, hd: Handle<Id>, e: Entry)
    requires CountInv(mem, handles) && hd.pe in mem
    requires h in handles ==> handles[h].pe == hd.pe
    requires e.refcount == mem[hd.pe].refcount + (if Counted(hd.phase) then 1 else 0)
                           - (if h in handles && Counted(handles[h].phase) then 1 else 0)
    ensures CountInv(mem[hd.pe := e], handles[h := hd])
  {
    var mem', handles' := mem[hd.pe := e], handles[h := hd];
    forall id | id in mem'
      ensures mem'[id].refcount == |CountedHandles(handles', id)|
    {
      CountOf(handles, h, hd, id);
    }
  }

  /** The lock stays as it is, is taken when free, or is given back by the handle that has it. */
  ghost predicate LockMove<Id>(mem: map<Id, Entry>, handles: map<nat, Handle<Id>>, h: nat, hd: Handle<Id>, e: Entry)
    requires hd.pe in mem
  {
    var before := h in handles && Holds(handles[h]);
    || (before == Holds(hd) && e.locked == mem[hd.pe].locked)
    || (!before && Holds(hd) && !mem[hd.pe].locked && e.locked)
    || (before && !Holds(hd) && !e.locked)
  }

  lemma LockKept<Id>(mem: map<Id, Entry>, handles: map<nat, Handle<Id>>, h: nat, hd: Handle<Id>, e: Entry)
    requires LockInv(mem, handles) && hd.pe in mem && LockMove(mem, handles, h, hd, e)
    requires h in handles ==> handles[h].pe == hd.pe
    ensures LockInv(mem[hd.pe := e], handles[h := hd])
  {
    var mem', handles' := mem[hd.pe := e], handles[h := hd];
    var before := h in handles && Holds(handles[h]);
    assert before ==> HeldBy(handles, h, hd.pe) && mem[hd.pe].locked;
    forall id, g | HeldBy(handles', g, id)
      ensures id in mem' ==> mem'[id].locked
      ensures id == hd.pe && Holds(hd) ==> g == h
    {
      if g != h { assert HeldBy(handles, g, id); }
    }
    forall f, g | f in handles' && HeldBy(handles', g, handles'[f].pe) && Holds(handles'[f])
      ensures f == g
    {
      assert HeldBy(handles', f, handles'[f].pe);
      if f != h && g != h { assert HeldBy(handles, g, handles[f].pe); }
    }
    forall id | id in mem' && mem'[id].locked ensures exists g :: HeldBy(handles', g, id)
    {
      if id == hd.pe && Holds(hd) {
        assert HeldBy(handles', h, id);
      } else {
        var g :| HeldBy(handles, g, id);
        assert HeldBy(handles', g, id);
      }
    }
  }

  lemma HandlesKept<Id>(hash: map<Path, Id>, mem: map<Id, Entry>, handles: map<nat, Handle<Id>>, h: nat,
                        hd: Handle<Id>, e: Entry)
    requires HandleInv(hash, mem, handles) && hd.pe in mem
    requires mem[hd.pe].fd >= 0 ==> e.fd >= 0
    requires HandleOk(hash, mem[hd.pe := e], hd)
    ensures HandleInv(hash, mem[hd.pe := e], handles[h := hd])
  {
    var mem', handles' := mem[hd.pe := e], handles[h := hd];
    forall g | g in handles' ensures HandleOk(hash, mem', handles'[g])
    {
      if g != h { assert HandleOk(hash, mem, handles[g]); }
    }
  }

  /** The offset is 0, or stays as it is while nobody's send is over, or is the handle's own send's. */
  ghost predicate OffsetMove<Id>(mem: map<Id, Entry>, handles: map<nat, Handle<Id>>, h: nat, hd: Handle<Id>, e: Entry)
    requires hd.pe in mem
  {
    || e.offset == 0
    || (hd.phase == Seeking && hd.access.Locks())
    || (e.offset == mem[hd.pe].offset && !(h in handles && handles[h].phase == Seeking))
  }

  lemma OffsetKept<Id>(mem: map<Id, Entry>, handles: map<nat, Handle<Id>>, h: nat, hd: Handle<Id>, e: Entry)
    requires OffsetInv(mem, handles) && hd.pe in mem && OffsetMove(mem, handles, h, hd, e)
    requires h in handles ==> handles[h].pe == hd.pe
    ensures OffsetInv(mem[hd.pe := e], handles[h := hd])
  {
    var mem', handles' := mem[hd.pe := e], handles[h := hd];
    forall id | id in mem' && mem'[id].offset != 0 ensures exists g :: Sending(handles', g, id)
    {
      if id == hd.pe && hd.phase == Seeking && hd.access.Locks() {
        assert Sending(handles', h, id);
      } else {
        var g :| Sending(handles, g, id);
        assert Sending(handles', g, id);
      }
    }
  }

  /** While a handle has the lock and its own send is not over, the descriptor is at the start. */
  lemma AtStart<Id>(mem: map<Id, Entry>, handles: map<nat, Handle<Id>>, h: nat)
    requires OffsetInv(mem, handles) && LockInv(mem, handles)
    requires h in handles && Holds(handles[h]) && handles[h].phase != Seeking && handles[h].pe in mem
    ensures mem[handles[h].pe].offset == 0
  {
    var id := handles[h].pe;
    forall g | Sending(handles, g, id) ensures g == h
    {
      assert HeldBy(handles, g, id) && HeldBy(handles, h, handles[g].pe);
    }
  }

  /** The state `t` differs from `s` in handle `h` and in its entry, and in the files and the history. */
  ghost predicate Moves<Id>(s: State<Id>, t: State<Id>, h: nat, hd: Handle<Id>, e: Entry) {
    t.hash == s.hash && hd.pe in s.mem && t.mem == s.mem[hd.pe := e] && t.handles == s.handles[h := hd]
  }

  // ----- The steps -----

  ghost predicate SameFiles<Id>(s: State<Id>, t: State<Id>, p: Path) {
    Lookup(t.cache, p) == Lookup(s.cache, p) && Lookup(t.store, p) == Lookup(s.store, p)
        && (p in t.stale <==> p in s.stale)
  }

  /** Nothing but files, entries of other paths or marks changed at the paths other than `p`. */
  lemma SyncElsewhere<Id>(dec: Object -> Option<bytes>, s: State<Id>, t: State<Id>, p: Path)
    requires TableInv(s.hash, s.mem) && SyncInv(dec, s)
    requires t.hash == s.hash && p in s.hash && t.mem.Keys == s.mem.Keys
    requires forall id :: id in s.mem && id != s.hash[p] ==> t.mem[id] == s.mem[id]
    requires forall q :: q != p ==> SameFiles(s, t, q)
    requires SyncOk(dec, t, p)
    ensures SyncInv(dec, t)
  {
    forall q ensures SyncOk(dec, t, q)
    {
      if q != p && Cached(t, q) {
        assert SyncOk(dec, s, q) && SameFiles(s, t, q);
      }
    }
  }

  /** Only the lock holder changes the files of its path, so another handle's send stays good. */
  lemma SentElsewhere<Id>(dec: Object -> Option<bytes>, s: State<Id>, t: State<Id>, h: nat)
    requires SentInv(dec, s) && HandleInv(s.hash, s.mem, s.handles) && LockInv(s.mem, s.handles)
    requires h in t.handles && t.handles == s.handles[h := t.handles[h]]
    requires h in s.handles ==> s.handles[h].path == t.handles[h].path
    requires forall q :: q != t.handles[h].path ==> SameFiles(s, t, q)
    requires SameFiles(s, t, t.handles[h].path) || (h in s.handles && Holds(s.handles[h]))
            || !Cached(s, t.handles[h].path)
    requires SentOk(dec, t, h)
    ensures SentInv(dec, t)
  {
    forall g ensures SentOk(dec, t, g)
    {
      assert SentOk(dec, s, g);
      if g != h && InPhase(s, g, Seeking) {
        assert HandleOk(s.hash, s.mem, s.handles[g]);
        assert h in s.handles && Holds(s.handles[h]) ==> HandleOk(s.hash, s.mem, s.handles[h]);
        assert HeldBy(s.handles, g, s.handles[g].pe);
        assert SameFiles(s, t, s.handles[g].path);
      }
    }
  }

  /** A step that leaves handles and files alone. */
  lemma SentSame<Id>(dec: Object -> Option<bytes>, s: State<Id>, t: State<Id>)
    requires SentInv(dec, s) && t.handles == s.handles && t.cache == s.cache && t.store == s.store && t.stale == s.stale
    ensures SentInv(dec, t)
  {
    forall h ensures SentOk(dec, t, h)
    {
      assert SentOk(dec, s, h);
    }
  }

  /** One handle moves, its entry changes, and the files of its path may. */
  ghost predicate Allowed<Id>(dec: Object -> Option<bytes>, s: State<Id>, t: State<Id>, h: nat, hd: Handle<Id>,
                              e: Entry)
    requires hd.pe in s.mem
  {
    && (h in s.handles ==> s.handles[h].pe == hd.pe && s.handles[h].path == hd.path)
    && hd.path in s.hash && s.hash[hd.path] == hd.pe
    && e.refcount == s.mem[hd.pe].refcount + (if Counted(hd.phase) then 1 else 0)
                     - (if h in s.handles && Counted(s.handles[h].phase) then 1 else 0)
    && LockMove(s.mem, s.handles, h, hd, e)
    && OffsetMove(s.mem, s.handles, h, hd, e)
    && (s.mem[hd.pe].fd >= 0 ==> e.fd >= 0)
    && HandleOk(s.hash, s.mem[hd.pe := e], hd) && EntryOk(e)
    && (SameFiles(s, t, hd.path) || (h in s.handles && Holds(s.handles[h])) || !Cached(s, hd.path))
    && SyncOk(dec, t, hd.path) && SentOk(dec, t, h)
  }

  lemma MoveKeeps<Id>(dec: Object -> Option<bytes>, s: State<Id>, t: State<Id>, h: nat, hd: Handle<Id>, e: Entry)
    requires Inv(dec, s) && Moves(s, t, h, hd, e) && Allowed(dec, s, t, h, hd, e)
    requires forall q :: q != hd.path ==> SameFiles(s, t, q)
    ensures Inv(dec, t)
  {
    hide CountInv, LockInv, OffsetInv, LockMove, OffsetMove, HandleInv, HandleOk, SyncInv, SentInv, SyncOk, SentOk,
         SameFiles, Holds, Counted;
    CountKept(s.mem, s.handles, h, hd, e);
    OffsetKept(s.mem, s.handles, h, hd, e);
    LockKept(s.mem, s.handles, h, hd, e);
    HandlesKept(s.hash, s.mem, s.handles, h, hd, e);
    SyncElsewhere(dec, s, t, hd.path);
    SentElsewhere(dec, s, t, h);
    assert TableInv(t.hash, t.mem);
    assert EntryInv(t.mem);
  }

  /** What the invariant says to the holder of a handle. */
  lemma HandleAt<Id>(dec: Object -> Option<bytes>, s: State<Id>, h: nat)
    requires Inv(dec, s) && h in s.handles
    ensures var hd := s.handles[h];
            && HandleOk(s.hash, s.mem, hd) && SyncOk(dec, s, hd.path) && SentOk(dec, s, h)
            && (hd.pe in s.mem ==> EntryOk(s.mem[hd.pe]) && (Holds(hd) ==> s.mem[hd.pe].locked))
            && (hd.pe in s.mem && Holds(hd) && hd.phase != Seeking ==> s.mem[hd.pe].offset == 0)
  {
    var hd := s.handles[h];
    assert HandleOk(s.hash, s.mem, hd);
    if hd.pe in s.mem && Holds(hd) {
      assert HeldBy(s.handles, h, hd.pe);
      if hd.phase != Seeking { AtStart(s.mem, s.handles, h); }
    }
  }

  /** And to who finds a path in the table. */
  lemma PathAt<Id>(dec: Object -> Option<bytes>, s: State<Id>, p: Path)
    requires Inv(dec, s) && p in s.hash
    ensures s.hash[p] in s.mem && EntryOk(s.mem[s.hash[p]]) && SyncOk(dec, s, p)
  {
    hide HandleInv, CountInv, LockInv, OffsetInv, SentInv, SyncOk;
  }

  /** A descriptor that is there stays there, so the handles stay good. */
  lemma HandlesSame<Id>(hash: map<Path, Id>, mem: map<Id, Entry>, handles: map<nat, Handle<Id>>, id: Id, e: Entry)
    requires HandleInv(hash, mem, handles) && id in mem && (mem[id].fd >= 0 ==> e.fd >= 0)
    ensures HandleInv(hash, mem[id := e], handles)
  {
    forall h | h in handles ensures HandleOk(hash, mem[id := e], handles[h])
    {
      assert HandleOk(hash, mem, handles[h]);
    }
  }

  /** A change of the entry alone, with its count and its lock left as they are. */
  lemma EntryKeeps<Id>(dec: Object -> Option<bytes>, s: State<Id>, p: Path, e: Entry)
    requires Inv(dec, s) && p in s.hash
    requires e.refcount == s.mem[s.hash[p]].refcount && e.locked == s.mem[s.hash[p]].locked
    requires e.fd >= 0 <==> s.mem[s.hash[p]].fd >= 0
    requires e.offset == s.mem[s.hash[p]].offset
    requires EntryOk(e)
    ensures Inv(dec, SetEntry(s, s.hash[p], e))
  {
    hide HandleInv, CountInv, LockInv, OffsetInv, SentInv, SyncInv;
    var t := SetEntry(s, s.hash[p], e);
    PathAt(dec, s, p);
    SyncElsewhere(dec, s, t, p);
    HandlesSame(s.hash, s.mem, s.handles, s.hash[p], e);
    GuardsKept(s.mem, s.handles, s.hash[p], e);
    SentSame(dec, s, t);
  }

  lemma GuardsKept<Id>(mem: map<Id, Entry>, handles: map<nat, Handle<Id>>, id: Id, e: Entry)
    requires CountInv(mem, handles) && LockInv(mem, handles) && OffsetInv(mem, handles)
    requires id in mem && e.refcount == mem[id].refcount && e.locked == mem[id].locked && e.offset == mem[id].offset
    ensures CountInv(mem[id := e], handles) && LockInv(mem[id := e], handles) && OffsetInv(mem[id := e], handles)
  {
    hide CountedHandles, HeldBy, Sending;
  }

  /** An address the table does not use has no handle that counts or holds. */
  lemma FreshAddress<Id>(s: State<Id>, addr: Id)
    requires HandleInv(s.hash, s.mem, s.handles) && addr !in s.mem
    ensures CountedHandles(s.handles, addr) == {}
    ensures forall h :: !HeldBy(s.handles, h, addr)
  {
    forall h | h in s.handles && (Counted(s.handles[h].phase) || Holds(s.handles[h]))
      ensures s.handles[h].pe != addr
    {
      assert HandleOk(s.hash, s.mem, s.handles[h]);
    }
  }

  lemma InsertTable<Id>(dec: Object -> Option<bytes>, s: State<Id>, p: Path, addr: Id)
    requires TableInv(s.hash, s.mem) && SyncInv(dec, s) && HandleInv(s.hash, s.mem, s.handles)
    requires p !in s.hash && addr !in s.mem
    ensures var t := Populate(s, p, addr);
            TableInv(t.hash, t.mem) && SyncInv(dec, t) && HandleInv(t.hash, t.mem, t.handles)
  {
    var t := Populate(s, p, addr);
    forall h | h in t.handles ensures HandleOk(t.hash, t.mem, t.handles[h])
    {
      assert HandleOk(s.hash, s.mem, s.handles[h]);
    }
    forall q ensures SyncOk(dec, t, q)
    {
      assert SyncOk(dec, s, q);
    }
    assert t.hash[p] == addr;
    forall id | id in t.mem ensures exists q :: q in t.hash && t.hash[q] == id
    {
      if id != addr {
        var q :| q in s.hash && s.hash[q] == id;
        assert t.hash[q] == id;
      }
    }
  }

  lemma GuardsInsert<Id>(mem: map<Id, Entry>, handles: map<nat, Handle<Id>>, addr: Id)
    requires CountInv(mem, handles) && LockInv(mem, handles) && OffsetInv(mem, handles) && EntryInv(mem)
    requires CountedHandles(handles, addr) == {} && forall h :: !HeldBy(handles, h, addr)
    ensures var mem' := mem[addr := NEW_ENTRY];
            CountInv(mem', handles) && LockInv(mem', handles) && OffsetInv(mem', handles) && EntryInv(mem')
  {
    hide CountedHandles, HeldBy, Sending, Holds;
  }

  lemma PopulateKeeps<Id>(dec: Object -> Option<bytes>, s: State<Id>, p: Path, addr: Id)
    requires Inv(dec, s)
    requires if p in s.hash then s.hash[p] in s.mem else addr !in s.mem
    ensures Inv(dec, Populate(s, p, addr))
  {
    hide TableInv, HandleInv, CountInv, LockInv, OffsetInv, EntryInv, SyncInv, SentInv;
    if p !in s.hash {
      InsertTable(dec, s, p, addr);
      FreshAddress(s, addr);
      GuardsInsert(s.mem, s.handles, addr);
      SentSame(dec, s, Populate(s, p, addr));
    }
  }

  lemma BeginMoves<Id>(s: State<Id>, h: nat, p: Path, access: Access, addr: Id)
    requires h !in s.handles
    requires if p in s.hash then s.hash[p] in s.mem else addr !in s.mem
    ensures var t, u := Populate(s, p, addr), AfterOpenBegin(s, h, p, access, addr);
            var id := t.hash[p];
            && u.hash == t.hash && u.mem == t.mem[id := t.mem[id].(refcount := t.mem[id].refcount + 1)]
            && u.handles == t.handles[h := Handle(p, id, access, if access.Locks() then Waiting else Granted)]
            && u.cache == t.cache && u.store == t.store && u.stale == t.stale
    ensures AfterOpenBegin(s, h, p, access, addr).stale == s.stale
    ensures AfterOpenBegin(s, h, p, access, addr).lost == s.lost
  {
  }

  lemma OpenBeginKeeps<Id>(dec: Object -> Option<bytes>, s: State<Id>, h: nat, p: Path, access: Access, addr: Id)
    requires Inv(dec, s) && h !in s.handles
    requires if p in s.hash then s.hash[p] in s.mem else addr !in s.mem
    requires access.writes ==> access.unlocks
    requires access.unlocks ==> access.Locks()
    ensures Inv(dec, AfterOpenBegin(s, h, p, access, addr))
  {
    hide Inv, AfterOpenBegin;
    PopulateKeeps(dec, s, p, addr);
    BeginMoves(s, h, p, access, addr);
    BeginKeeps(dec, Populate(s, p, addr), AfterOpenBegin(s, h, p, access, addr), h, p, access);
  }

  lemma BeginKeeps<Id>(dec: Object -> Option<bytes>, t: State<Id>, u: State<Id>, h: nat, p: Path, access: Access)
    requires Inv(dec, t) && h !in t.handles && p in t.hash
    requires access.writes ==> access.unlocks
    requires access.unlocks ==> access.Locks()
    requires var id := t.hash[p];
            && u.hash == t.hash && u.mem == t.mem[id := t.mem[id].(refcount := t.mem[id].refcount + 1)]
            && u.handles == t.handles[h := Handle(p, id, access, if access.Locks() then Waiting else Granted)]
            && u.cache == t.cache && u.store == t.store && u.stale == t.stale
    ensures Inv(dec, u)
  {
    hide Inv;
    PathAt(dec, t, p);
    MoveKeeps(dec, t, u, h, u.handles[h], u.mem[t.hash[p]]);
  }

  lemma LockGrantedKeeps<Id>(dec: Object -> Option<bytes>, s: State<Id>, h: nat)
    requires Inv(dec, s) && Enabled(dec, s, LockGranted(h))
    ensures Inv(dec, AfterLock(s, h))
  {
    hide Inv;
    HandleAt(dec, s, h);
    var t, pe := AfterLock(s, h), s.handles[h].pe;
    MoveKeeps(dec, s, t, h, t.handles[h], t.mem[pe]);
  }

  /** Dropping the count of a handle whose next phase does not count, with the lock kept. */
  lemma DropKeeps<Id>(dec: Object -> Option<bytes>, s: State<Id>, h: nat, phase: Phase)
    requires Inv(dec, s) && h in s.handles && Points(s, h) && Counted(s.handles[h].phase)
    requires s.mem[s.handles[h].pe].refcount > 0 && !Counted(phase)
    requires phase != Seeking && (phase == Uploading ==> s.handles[h].phase == Opened && s.handles[h].access.unlocks)
    requires Holds(s.handles[h].(phase := phase)) == Holds(s.handles[h])
    ensures Inv(dec, AfterDrop(s, h, phase))
  {
    hide Inv;
    HandleAt(dec, s, h);
    var t, pe := AfterDrop(s, h, phase), s.handles[h].pe;
    MoveKeeps(dec, s, t, h, t.handles[h], t.mem[pe]);
  }

  /** The lock holder may change the cache file: nothing is promised about it until the unlock. */
  lemma CreatKeeps<Id>(dec: Object -> Option<bytes>, s: State<Id>, h: nat, newfd: nat)
    requires Inv(dec, s) && InPhase(s, h, Granted) && s.handles[h].access.Locks()
    ensures HandleOk(s.hash, s.mem, s.handles[h]) && Points(s, h) && Inv(dec, AfterCreat(s, h, newfd))
  {
    hide Inv;
    HandleAt(dec, s, h);
    var t, pe := AfterCreat(s, h, newfd), s.handles[h].pe;
    MoveKeeps(dec, s, t, h, t.handles[h], t.mem[pe]);
  }

  lemma ReuseKeeps<Id>(dec: Object -> Option<bytes>, s: State<Id>, h: nat)
    requires Inv(dec, s) && InPhase(s, h, Granted) && s.handles[h].access.mode != ModeCreat
    requires Points(s, h) && s.mem[s.handles[h].pe].fd >= 0
    ensures Inv(dec, AfterReuse(s, h))
  {
    hide Inv;
    HandleAt(dec, s, h);
    var t, pe := AfterReuse(s, h), s.handles[h].pe;
    MoveKeeps(dec, s, t, h, t.handles[h], t.mem[pe]);
  }

  lemma FetchKeeps<Id>(dec: Object -> Option<bytes>, s: State<Id>, h: nat, newfd: nat, content: bytes, mark: bool)
    requires Inv(dec, s) && InPhase(s, h, Granted) && s.handles[h].access.mode != ModeCreat
    requires Points(s, h) && s.mem[s.handles[h].pe].fd < 0
    requires mark || Decoded(dec, s, s.handles[h].path) == Some(content)
    ensures var t := AfterFetch(s, h, newfd, content);
            var p := s.handles[h].path;
            Inv(dec, if mark then t.(stale := s.stale + {p}, lost := s.lost + {p}) else t)
  {
    hide Inv;
    HandleAt(dec, s, h);
    var p, pe := s.handles[h].path, s.handles[h].pe;
    var t0 := AfterFetch(s, h, newfd, content);
    var t := if mark then t0.(stale := s.stale + {p}, lost := s.lost + {p}) else t0;
    MoveKeeps(dec, s, t, h, t.handles[h], t.mem[pe]);
  }

  /** A failed open keeps its count and its lock. */
  lemma FailKeeps<Id>(dec: Object -> Option<bytes>, s: State<Id>, h: nat, cache: map<Path, bytes>)
    requires Inv(dec, s) && InPhase(s, h, Granted)
    requires forall q :: q != s.handles[h].path ==> Lookup(cache, q) == Lookup(s.cache, q)
    requires cache == s.cache || !Cached(s, s.handles[h].path)
    ensures Inv(dec, SetPhase(s, h, Failed).(cache := cache))
  {
    hide Inv;
    HandleAt(dec, s, h);
    var t, pe := SetPhase(s, h, Failed).(cache := cache), s.handles[h].pe;
    assert s.mem[pe := s.mem[pe]] == s.mem;
    assert forall q :: q != s.handles[h].path ==> SameFiles(s, t, q);
    MoveKeeps(dec, s, t, h, t.handles[h], s.mem[pe]);
  }

  /** dfs_create may go on with a handle whose open failed: it has the count and the lock. */
  lemma CreateEndKeeps<Id>(dec: Object -> Option<bytes>, s: State<Id>, h: nat, exclude: bool, goesOn: bool,
                           made: Option<Object>)
    requires Inv(dec, s) && Enabled(dec, s, CreateEnd(h, exclude, goesOn, made))
    ensures Inv(dec, AfterCreateEnd(s, h, exclude, goesOn, made))
  {
    hide Inv, SendOk, Decoded;
    HandleAt(dec, s, h);
    var t, pe := AfterCreateEnd(s, h, exclude, goesOn, made), s.handles[h].pe;
    MoveKeeps(dec, s, t, h, t.handles[h], t.mem[pe]);
  }

  lemma WriteKeeps<Id>(dec: Object -> Option<bytes>, s: State<Id>, h: nat, content: bytes)
    requires Inv(dec, s) && InPhase(s, h, Opened) && s.handles[h].access.writes
    ensures Inv(dec, s.(cache := s.cache[s.handles[h].path := content]))
  {
    hide Inv;
    HandleAt(dec, s, h);
    var hd := s.handles[h];
    var t := s.(cache := s.cache[hd.path := content]);
    assert s.mem[hd.pe := s.mem[hd.pe]] == s.mem && s.handles[h := hd] == s.handles;
    MoveKeeps(dec, s, t, h, hd, s.mem[hd.pe]);
  }

  /** What a send leaves: after a successful one the store has the bytes of the cache file. */
  lemma SendMoves<Id>(dec: Object -> Option<bytes>, s: State<Id>, h: nat, upload: UploadOutcome)
    requires Enabled(dec, s, ReleaseSend(h, upload)) && s.mem[s.handles[h].pe].offset == 0
    ensures var t, p := AfterSend(s, h, upload), s.handles[h].path;
            && (upload.Sent? ==> Decoded(dec, t, p) == Some(CacheBytes(s, p)) && p !in t.stale)
            && (upload.Unsent? ==> p in t.stale)
            && upload.end <= |CacheBytes(s, p)|
  {
  }

  lemma SendKeeps<Id>(dec: Object -> Option<bytes>, s: State<Id>, h: nat, upload: UploadOutcome)
    requires Inv(dec, s) && Enabled(dec, s, ReleaseSend(h, upload))
    ensures s.mem[s.handles[h].pe].offset == 0
    ensures Inv(dec, AfterSend(s, h, upload))
  {
    hide Inv, SendOk, Decoded;
    HandleAt(dec, s, h);
    var t, pe := AfterSend(s, h, upload), s.handles[h].pe;
    SendMoves(dec, s, h, upload);
    MoveKeeps(dec, s, t, h, t.handles[h], t.mem[pe]);
  }

  /** The unlock: the file has the store's bytes by now, or the path is marked. */
  lemma ReleaseKeeps<Id>(dec: Object -> Option<bytes>, s: State<Id>, h: nat)
    requires Inv(dec, s) && Enabled(dec, s, ReleaseEnd(h))
    ensures Inv(dec, AfterRelease(s, h))
  {
    hide Inv, SendOk, OffsetInv;
    HandleAt(dec, s, h);
    var t, pe := AfterRelease(s, h), s.handles[h].pe;
    MoveKeeps(dec, s, t, h, t.handles[h], t.mem[pe]);
  }

  lemma Unused<Id>(s: State<Id>, id: Id, h: nat)
    requires HandleInv(s.hash, s.mem, s.handles) && CountInv(s.mem, s.handles) && LockInv(s.mem, s.handles)
    requires id in s.mem && s.mem[id].refcount == 0 && !s.mem[id].locked
    requires h in s.handles && (InUse(s.handles[h].phase) || Holds(s.handles[h]))
    ensures s.handles[h].pe != id
  {
    assert HandleOk(s.hash, s.mem, s.handles[h]);
    assert Holds(s.handles[h]) ==> HeldBy(s.handles, h, s.handles[h].pe);
    assert Counted(s.handles[h].phase) ==> h in CountedHandles(s.handles, s.handles[h].pe);
  }

  /** The files of the other paths are as they were. */
  lemma CollectFiles<Id>(dec: Object -> Option<bytes>, s: State<Id>, p: Path)
    requires p in s.hash && TableInv(s.hash, s.mem) && SyncInv(dec, s) && SentInv(dec, s)
    requires forall h :: InPhase(s, h, Seeking) ==> s.handles[h].path != p
    ensures SyncInv(dec, AfterCollect(s, p)) && SentInv(dec, AfterCollect(s, p))
  {
    var t := AfterCollect(s, p);
    forall q ensures SyncOk(dec, t, q)
    {
      assert SyncOk(dec, s, q);
    }
    forall h ensures SentOk(dec, t, h)
    {
      assert SentOk(dec, s, h);
    }
  }

  lemma GuardsWithout<Id>(mem: map<Id, Entry>, handles: map<nat, Handle<Id>>, id: Id)
    requires CountInv(mem, handles) && LockInv(mem, handles) && OffsetInv(mem, handles) && EntryInv(mem)
    ensures CountInv(mem - {id}, handles) && LockInv(mem - {id}, handles) && OffsetInv(mem - {id}, handles)
    ensures EntryInv(mem - {id})
  {
    hide CountedHandles, HeldBy, Sending, Holds;
  }

  lemma HandlesWithout<Id>(s: State<Id>, p: Path)
    requires p in s.hash && HandleInv(s.hash, s.mem, s.handles)
    requires forall h :: h in s.handles && (InUse(s.handles[h].phase) || Holds(s.handles[h])) ==>
              s.handles[h].pe != s.hash[p]
    ensures HandleInv(AfterCollect(s, p).hash, AfterCollect(s, p).mem, s.handles)
  {
    var t := AfterCollect(s, p);
    forall h | h in s.handles ensures HandleOk(t.hash, t.mem, s.handles[h])
    {
      assert HandleOk(s.hash, s.mem, s.handles[h]);
    }
  }

  lemma NobodyUses<Id>(s: State<Id>, id: Id)
    requires HandleInv(s.hash, s.mem, s.handles) && CountInv(s.mem, s.handles) && LockInv(s.mem, s.handles)
    requires id in s.mem && s.mem[id].refcount == 0 && !s.mem[id].locked
    ensures forall h :: h in s.handles && (InUse(s.handles[h].phase) || Holds(s.handles[h])) ==> s.handles[h].pe != id
  {
    forall h | h in s.handles && (InUse(s.handles[h].phase) || Holds(s.handles[h])) ensures s.handles[h].pe != id
    {
      Unused(s, id, h);
    }
  }

  /** An entry with no count and a free mutex is used by no handle, so it may be freed. */
  lemma CollectKeeps<Id>(dec: Object -> Option<bytes>, s: State<Id>, p: Path)
    requires Inv(dec, s) && p in s.hash && s.mem[s.hash[p]].refcount == 0 && !s.mem[s.hash[p]].locked
    ensures forall h :: h in s.handles && (InUse(s.handles[h].phase) || Holds(s.handles[h])) ==>
              s.handles[h].pe != s.hash[p]
    ensures Inv(dec, AfterCollect(s, p))
  {
    assert s.hash[p] in s.mem;
    hide SyncInv, SentInv, TableInv, CountInv, LockInv, OffsetInv, EntryInv;
    NobodyUses(s, s.hash[p]);
    forall h | InPhase(s, h, Seeking) ensures s.handles[h].path != p
    {
      assert HandleOk(s.hash, s.mem, s.handles[h]);
    }
    hide HandleInv;
    HandlesWithout(s, p);
    GuardsWithout(s.mem, s.handles, s.hash[p]);
    GcPass.TableKept(s, p);
    CollectFiles(dec, s, p);
  }

  lemma BodyKeeps<Id>(dec: Object -> Option<bytes>, s: State<Id>, h: nat, newfd: nat, body: BodyOutcome)
    requires Inv(dec, s) && Enabled(dec, s, OpenBody(h, newfd, body))
    ensures Inv(dec, AfterBody(dec, s, h, newfd, body))
  {
    hide Inv;
    HandleAt(dec, s, h);
    var hd := s.handles[h];
    if hd.access.mode == ModeCreat {
      if body.Done? { CreatKeeps(dec, s, h, newfd); } else { FailKeeps(dec, s, h, s.cache); }
    } else if s.mem[hd.pe].fd >= 0 {
      ReuseKeeps(dec, s, h);
    } else {
      match body
      case Done => FetchKeeps(dec, s, h, newfd, Decoded(dec, s, hd.path).value, false);
      case Raw => FetchKeeps(dec, s, h, newfd, s.store[hd.path].payload, true);
      case Broken(remnant) => FailKeeps(dec, s, h, AfterBody(dec, s, h, newfd, body).cache);
    }
  }

  lemma GetattrBeginKeeps<Id>(dec: Object -> Option<bytes>, s: State<Id>, g: nat, p: Path, addr: Id)
    requires Inv(dec, s)
    requires if p in s.hash then s.hash[p] in s.mem else addr !in s.mem
    ensures Inv(dec, AfterGetattrBegin(s, g, p, addr))
  {
    PopulateKeeps(dec, s, p, addr);
    PendingKeeps(dec, Populate(s, p, addr), AfterGetattrBegin(s, g, p, addr).pending);
  }

  lemma PendingKeeps<Id>(dec: Object -> Option<bytes>, s: State<Id>, pending: map<nat, Id>)
    requires Inv(dec, s)
    ensures Inv(dec, s.(pending := pending))
  {
    hide CountInv, LockInv, OffsetInv, HandleInv, TableInv, EntryInv;
    forall q ensures SyncOk(dec, s.(pending := pending), q)
    {
      assert SyncOk(dec, s, q);
    }
    SentSame(dec, s, s.(pending := pending));
  }

  /** The placeholder of a live entry may become REMOTE at any time. */
  lemma GetattrEndKeeps<Id>(dec: Object -> Option<bytes>, s: State<Id>, g: nat, found: bool)
    requires Inv(dec, s) && Enabled(dec, s, GetattrEnd(g, found))
    ensures Inv(dec, AfterGetattrEnd(s, g, found))
  {
    var id := s.pending[g];
    if found {
      var p :| p in s.hash && s.hash[p] == id;
      assert EntryOk(s.mem[id]);
      EntryKeeps(dec, s, p, s.mem[id].(ondisk := Remote));
      PendingKeeps(dec, SetEntry(s, id, s.mem[id].(ondisk := Remote)), s.pending - {g});
    } else {
      PendingKeeps(dec, s, s.pending - {g});
    }
  }

  lemma OpenStepKeeps<Id>(dec: Object -> Option<bytes>, s: State<Id>, e: Event<Id>)
    requires Inv(dec, s) && Enabled(dec, s, e)
    requires e.OpenBegin? || e.LockGranted? || e.LockRefused? || e.OpenBody? || e.GetattrBegin? || e.GetattrEnd?
    ensures Inv(dec, Next(dec, s, e))
  {
    hide Inv, AfterOpenBegin, AfterLock, AfterDrop, AfterBody, AfterGetattrBegin, AfterGetattrEnd;
    match e
    case OpenBegin(h, path, flags, addr) => OpenBeginKeeps(dec, s, h, path, Classify(flags), addr);
    case LockGranted(h) => LockGrantedKeeps(dec, s, h);
    case LockRefused(h) => DropKeeps(dec, s, h, Refused);
    case OpenBody(h, newfd, body) => BodyKeeps(dec, s, h, newfd, body);
    case GetattrBegin(g, path, addr) => GetattrBeginKeeps(dec, s, g, path, addr);
    case GetattrEnd(g, found) => GetattrEndKeeps(dec, s, g, found);
  }

  lemma CloseStepKeeps<Id>(dec: Object -> Option<bytes>, s: State<Id>, e: Event<Id>)
    requires Inv(dec, s) && Enabled(dec, s, e)
    requires e.CreateEnd? || e.Write? || e.ReleaseBegin? || e.ReleaseSend? || e.ReleaseEnd? || e.GcVisit?
    ensures Inv(dec, Next(dec, s, e))
  {
    hide Inv, AfterCreateEnd, AfterDrop, AfterSend, AfterRelease, AfterCollect, SendOk, PWrite;
    match e
    case CreateEnd(h, exclude, goesOn, made) => CreateEndKeeps(dec, s, h, exclude, goesOn, made);
    case Write(h, offset, data) => WriteKeeps(dec, s, h, PWrite(CacheBytes(s, s.handles[h].path), offset, data));
    case ReleaseBegin(h) => DropKeeps(dec, s, h, if s.handles[h].access.unlocks then Uploading else Closed);
    case ReleaseSend(h, upload) => SendKeeps(dec, s, h, upload);
    case ReleaseEnd(h) => ReleaseKeeps(dec, s, h);
    case GcVisit(path, st, now, threshold) =>
      if Collects(s.mem[s.hash[path]], st, now, threshold) { CollectKeeps(dec, s, path); }
  }

  /** Every step keeps the invariant. */
  lemma StepKeeps<Id>(dec: Object -> Option<bytes>, s: State<Id>, e: Event<Id>)
    requires Inv(dec, s) && Enabled(dec, s, e)
    ensures Inv(dec, Next(dec, s, e))
  {
    hide Inv, Enabled, Next;
    if e.CreateEnd? || e.Write? || e.ReleaseBegin? || e.ReleaseSend? || e.ReleaseEnd? || e.GcVisit? {
      CloseStepKeeps(dec, s, e);
    } else {
      OpenStepKeeps(dec, s, e);
    }
  }
}
