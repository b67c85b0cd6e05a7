/** The cache as the program keeps it: path entries are objects that the operations change in
    place, and the hash table maps paths to them. Every method is one step of CacheProtocol. */
module Dropletfs {
  import opened Basics
  import opened OpenFlags
  import opened CacheProtocol
  import GcPass

  lemma ValuesAfterInsert<K, V>(m: map<K, V>, k: K, v: V)
    requires k !in m
    ensures m[k := v].Values == m.Values + {v}
  {
    forall x | x in m.Values ensures x in m[k := v].Values
    {
      var j :| j in m && m[j] == x;
      assert m[k := v][j] == x;
    }
    assert m[k := v][k] == v;
  }

  lemma ValuesAfterRemove<K, V>(m: map<K, V>, k: K)
    requires k in m && forall j :: j in m && m[j] == m[k] ==> j == k
    ensures (m - {k}).Values == m.Values - {m[k]}
  {
    forall x | x in m.Values && x != m[k] ensures x in (m - {k}).Values
    {
      var j :| j in m && m[j] == x;
      assert (m - {k})[j] == x;
    }
  }

  /** struct pentry of src/hash.c. */
  class Pentry {
    var fd: int
    var writable: bool
    var offset: nat
    var ondisk: Placeholder
    var refcount: nat
    var locked: bool
    var dirty: bool
    var exclude: bool

    function Snapshot(): Entry
      reads this
    {
      Entry(fd, writable, offset, ondisk, refcount, locked, dirty, exclude)
    }

    constructor ()
      ensures Snapshot() == NEW_ENTRY
    {
      fd, writable, offset, ondisk, refcount := -1, false, 0, Unset, 0;
      locked, dirty, exclude := false, true, false;
    }

    method IncRefcount()
      modifies this
      ensures Snapshot() == old(Snapshot()).(refcount := old(refcount) + 1)
    {
      refcount := refcount + 1;
    }

    /** sem_wait: it would block at 0. */
    method DecRefcount()
      requires refcount > 0
      modifies this
      ensures Snapshot() == old(Snapshot()).(refcount := old(refcount) - 1)
    {
      refcount := refcount - 1;
    }

    /** pthread_mutex_lock, at the moment it is granted. */
    method Lock()
      requires !locked
      modifies this
      ensures Snapshot() == old(Snapshot()).(locked := true)
    {
      locked := true;
    }

    method Trylock() returns (busy: bool)
      modifies this
      ensures busy == old(locked) && Snapshot() == old(Snapshot()).(locked := true)
    {
      busy := locked;
      locked := true;
    }

    method Unlock()
      modifies this
      ensures Snapshot() == old(Snapshot()).(locked := false)
    {
      locked := false;
    }

    /** The age test of gc_callback: src/gc.c:41-67. */
    method IsTooOld(st: Option<Times>, now: int, threshold: int) returns (r: bool)
      ensures r == TooOld(Snapshot(), st, now, threshold)
    {
      if fd == -1 {
        return false;
      }
      if fd < 0 || st.None? {
        return true;
      }
      var limit := threshold;
      if exclude {
        limit := limit * 10;
      }
      var t := st.value;
      r := !(now < t.atime + limit && now < t.mtime + limit && now < t.ctime + limit);
    }

    /** The guards of gc_callback and the age test: src/gc.c:33-67, 84-85. The mutex is given back
        unless the entry is to be removed. */
    method Condemn(st: Option<Times>, now: int, threshold: int) returns (condemned: bool)
      modifies this
      ensures condemned == Collects(old(Snapshot()), st, now, threshold)
      ensures Snapshot() == if condemned then old(Snapshot()).(locked := true) else old(Snapshot())
    {
      if refcount != 0 {
        return false;
      }
      var busy := Trylock();
      if busy {
        return false;
      }
      condemned := IsTooOld(st, now, threshold);
      if !condemned {
        Unlock();
      }
    }
  }

  lemma SameEntry<K, V>(m: map<K, V>, k: K)
    requires k in m
    ensures m[k := m[k]] == m
  {
  }

  // Values of <errno.h> on Linux.
  const EBADF := 9
  const EBADFD := 77

  class Cache {
    var hash: map<Path, Pentry>
    var cache: map<Path, bytes>
    var store: map<Path, Object>
    var handles: map<nat, Handle<Pentry>>
    var pending: map<nat, Pentry>
    ghost var stale: set<Path>
    ghost var lost: set<Path>

    ghost function Mem(): map<Pentry, Entry>
      reads this, hash.Values
    {
      map pe | pe in hash.Values :: pe.Snapshot()
    }

    ghost function Abs(): State<Pentry>
      reads this, hash.Values
    {
      State(hash, Mem(), cache, store, handles, pending, stale, lost)
    }

    constructor (objects: map<Path, Object>)
      ensures Abs() == State(map[], map[], map[], objects, map[], map[], {}, {})
    {
      hash, cache, store, handles, pending := map[], map[], objects, map[], map[];
      stale, lost := {}, {};
    }

    /** An operation changed the fields of `pe` and of no other entry: the state before and after. */
    twostate lemma OneEntryChanged(pe: Pentry)
      requires hash == old(hash) && pe in hash.Values
      requires forall q :: q in hash.Values && q != pe ==> q.Snapshot() == old(q.Snapshot())
      ensures Abs() == State(hash, old(Abs().mem)[pe := pe.Snapshot()], cache, store, handles, pending, stale, lost)
      ensures old(Abs()) == State(old(hash), old(Abs().mem), old(cache), old(store), old(handles), old(pending),
                                  old(stale), old(lost))
      ensures pe in old(Abs().mem) && old(Abs().mem)[pe] == old(pe.Snapshot())
    {
      assert Abs().mem == old(Abs().mem)[pe := pe.Snapshot()];
    }

    /** Lookup, and insertion of a new entry when there is none: src/open.c:219-226. */
    method Populate(path: Path) returns (pe: Pentry)
      modifies this
      ensures path in old(hash) ==> pe == old(hash[path])
      ensures path !in old(hash) ==> fresh(pe)
      ensures path in hash && hash[path] == pe && hash.Values <= old(hash.Values) + {pe}
      ensures Abs() == CacheProtocol.Populate(old(Abs()), path, pe)
      ensures pe.Snapshot() == if path in old(hash) then old(hash[path].Snapshot()) else NEW_ENTRY
    {
      hide Mem;
      if path in hash {
        pe := hash[path];
      } else {
        pe := new Pentry();
        hash := hash[path := pe];
        Inserted(path, pe);
      }
    }

    twostate lemma Inserted(path: Path, new pe: Pentry)
      requires path !in old(hash) && hash == old(hash)[path := pe] && pe !in old(hash.Values)
      requires pe.Snapshot() == NEW_ENTRY
      requires forall q :: q in old(hash.Values) ==> q.Snapshot() == old(q.Snapshot())
      ensures hash.Values == old(hash.Values) + {pe} && Mem() == old(Mem())[pe := NEW_ENTRY]
    {
      ValuesAfterInsert(old(hash), path, pe);
    }

    /** pentry_inc_refcount and the mode: src/open.c:237-240. */
    method CountOpen(h: nat, path: Path, flags: bv32, pe: Pentry)
      requires path in hash && hash[path] == pe
      modifies this`handles, pe
      ensures pe in old(Abs()).mem
      ensures var access, e := Classify(flags), old(Abs()).mem[pe];
              var phase := if access.Locks() then Waiting else Granted;
              Abs() == SetEntry(old(Abs()), pe, e.(refcount := e.refcount + 1))
                       .(handles := old(handles)[h := Handle(path, pe, access, phase)])
      ensures pe.Snapshot() == old(pe.Snapshot()).(refcount := old(pe.refcount) + 1)
    {
      assert pe in hash.Values;
      hide Abs, Classify;
      pe.IncRefcount();
      var access := Classify(flags);
      handles := handles[h := Handle(path, pe, access, if access.Locks() then Waiting else Granted)];
      OneEntryChanged(pe);
    }

    /** dfs_open up to the increment of the count: src/open.c:219-240. */
    method OpenBegin(h: nat, path: Path, flags: bv32) returns (pe: Pentry)
      requires h !in handles
      modifies this, hash.Values
      ensures path in old(hash) ==> pe == old(hash[path])
      ensures path !in old(hash) ==> fresh(pe)
      ensures hash.Values <= old(hash.Values) + {pe}
      ensures Abs() == AfterOpenBegin(old(Abs()), h, path, Classify(flags), pe)
      ensures path !in old(hash) ==>
                pe.fd == -1 && pe.ondisk == Unset && pe.refcount == 1 && !pe.locked && pe.dirty && !pe.exclude
      ensures path in old(hash) ==> pe.Snapshot() == old(hash[path].Snapshot().(refcount := hash[path].refcount + 1))
    {
      hide Mem, Classify;
      pe := Populate(path);
      CountOpen(h, path, flags, pe);
    }

    method SetPhase(h: nat, phase: Phase)
      requires h in handles
      modifies this`handles
      ensures handles == old(handles)[h := old(handles[h]).(phase := phase)]
    {
      handles := handles[h := handles[h].(phase := phase)];
    }

    /** pentry_lock in dfs_open, granted or refused: src/open.c:242-248. */
    method OpenLock(h: nat, refused: bool)
      requires InPhase(Abs(), h, Waiting) && Points(Abs(), h)
      requires if refused then handles[h].pe.refcount > 0 else !handles[h].pe.locked
      modifies this`handles, handles[h].pe
      ensures Abs() == if refused then AfterDrop(old(Abs()), h, Refused) else AfterLock(old(Abs()), h)
      ensures var pe := old(handles[h]).pe;
              if refused then pe.refcount == old(handles[h].pe.refcount) - 1 && pe.locked == old(handles[h].pe.locked)
              else pe.locked && pe.refcount == old(handles[h].pe.refcount)
    {
      var pe := handles[h].pe;
      assert pe in hash.Values;
      hide Abs;
      if refused {
        pe.DecRefcount();
      } else {
        pe.Lock();
      }
      SetPhase(h, if refused then Refused else Granted);
      OneEntryChanged(pe);
    }

    /** open_creat: src/open.c:116-147. `failed` is open(2) or the directory tree failing. */
    method OpenCreat(path: Path, pe: Pentry, newfd: nat, failed: bool) returns (ret: int)
      modifies this`cache, this`lost, pe
      ensures ret == if failed then -1 else 0
      ensures pe.Snapshot() == if failed then old(pe.Snapshot())
                               else old(pe.Snapshot()).(fd := newfd, writable := true, offset := 0, dirty := true)
      ensures cache == if failed then old(cache) else old(cache)[path := []]
      ensures lost == if failed then old(lost) else old(lost) - {path}
    {
      if failed {
        return -1;
      }
      cache := cache[path := []];
      lost := lost - {path};
      pe.fd, pe.writable, pe.offset := newfd, true, 0;
      pe.dirty := true;
      ret := 0;
    }

    /** open_existing, and the DIRTY flag of open_wronly: src/open.c:149-204. `content` is what a
        fetch leaves in the cache file, if it leaves one. */
    method OpenExisting(path: Path, pe: Pentry, rdwr: bool, newfd: nat, body: BodyOutcome, content: Option<bytes>)
      returns (ret: int)
      modifies this`cache, this`stale, this`lost, pe
      ensures ret == if old(pe.fd) < 0 && body.Broken? then -1 else 0
      ensures pe.Snapshot() == ExistingEntry(old(pe.Snapshot()), rdwr, newfd, body)
      ensures cache == if old(pe.fd) >= 0 then old(cache)
                       else if content.Some? then old(cache)[path := content.value] else old(cache) - {path}
      ensures stale == if old(pe.fd) < 0 && body.Raw? then old(stale) + {path} else old(stale)
      ensures lost == if old(pe.fd) < 0 && body.Raw? then old(lost) + {path} else old(lost)
    {
      if pe.fd < 0 {
        cache := if content.Some? then cache[path := content.value] else cache - {path};
        if body.Broken? {
          return -1;
        }
        if body.Raw? {
          stale, lost := stale + {path}, lost + {path};
        }
        pe.fd, pe.writable, pe.offset := newfd, rdwr, 0;
      }
      if rdwr {
        pe.dirty := true;
      }
      ret := 0;
    }

    /** The call through the table of modes, and the placeholder: src/open.c:250-266. */
    method RunBody(path: Path, pe: Pentry, mode: Mode, newfd: nat, body: BodyOutcome, content: Option<bytes>)
      returns (ret: int)
      modifies this`cache, this`stale, this`lost, pe
      ensures var e := old(pe.Snapshot());
              var fetches := mode != ModeCreat && e.fd < 0;
              var ok := if mode == ModeCreat then body == Done else !fetches || !body.Broken?;
              && ret == (if ok then 0 else -1)
              && pe.Snapshot() == (if ok then OpenedEntry(e, mode, newfd, body).(ondisk := Local) else e)
              && cache == (if mode == ModeCreat then (if ok then old(cache)[path := []] else old(cache))
                           else if !fetches then old(cache)
                           else if content.Some? then old(cache)[path := content.value] else old(cache) - {path})
              && stale == (if fetches && body.Raw? then old(stale) + {path} else old(stale))
              && lost == (if mode == ModeCreat && ok then old(lost) - {path}
                          else if fetches && body.Raw? then old(lost) + {path} else old(lost))
    {
      match mode {
        case ModeCreat => ret := OpenCreat(path, pe, newfd, body != Done);
        case ModeRdOnly => ret := OpenExisting(path, pe, false, newfd, body, content);
        case ModeRdWr => ret := OpenExisting(path, pe, true, newfd, body, content);
      }
      if ret == 0 {
        pe.ondisk := Local;
      }
    }

    /** The body of dfs_open, with what the fetch left in the cache file, if there was one. */
    method OpenBody(ghost dec: Object -> Option<bytes>, h: nat, newfd: nat, body: BodyOutcome, content: Option<bytes>)
      returns (ret: int)
      requires Enabled(dec, Abs(), CacheProtocol.OpenBody(h, newfd, body))
      requires handles[h].access.mode != ModeCreat && handles[h].pe.fd < 0 ==>
                 content == FetchedContent(dec, store, handles[h].path, body)
      modifies this`cache, this`stale, this`lost, this`handles, handles[h].pe
      ensures Abs() == AfterBody(dec, old(Abs()), h, newfd, body)
      ensures ret == if InPhase(Abs(), h, Opened) then 0 else -1
    {
      var pe, path := handles[h].pe, handles[h].path;
      BodyShape(dec, Abs(), h, newfd, body);
      assert pe in hash.Values;
      hide Abs, AfterBody, FetchEnabled, FetchedContent, OpenedEntry;
      ret := RunBody(path, pe, handles[h].access.mode, newfd, body, content);
      handles := handles[h := handles[h].(phase := if ret == 0 then Opened else Failed)];
      OneEntryChanged(pe);
    }

    /** The end of dfs_create: src/create.c:62-98. `stFails` is fstat(2) failing, `made` what
        dfs_mknod_timeout made, if it made anything, and `mknodFails` its answer. */
    method CreateEnd(h: nat, exclude: bool, stFails: bool, made: Option<Object>, mknodFails: bool) returns (ret: int)
      requires (InPhase(Abs(), h, Opened) || InPhase(Abs(), h, Failed)) && Points(Abs(), h)
      modifies this`handles, this`store, handles[h].pe
      ensures var has := old(handles[h].pe.fd) != -1;
              var made' := if has && !stFails && !exclude then made else None;
              var goesOn := has && !stFails && (exclude || !mknodFails);
              && Abs() == AfterCreateEnd(old(Abs()), h, exclude, goesOn, made')
              && ret == if goesOn then 0 else -1
      ensures store == if old(handles[h].pe.fd) != -1 && !stFails && !exclude && made.Some?
                       then old(store)[old(handles[h]).path := made.value] else old(store)
      ensures old(handles[h]).pe.exclude == exclude
    {
      var pe, path := handles[h].pe, handles[h].path;
      assert pe in hash.Values;
      hide Abs;
      pe.exclude := exclude;
      ret := -1;
      if pe.fd != -1 && !stFails {
        ret := 0;
        if !exclude {
          store := if made.Some? then store[path := made.value] else store;
          ret := if mknodFails then -1 else 0;
        }
      }
      SetPhase(h, if ret == 0 then Opened else Failed);
      OneEntryChanged(pe);
    }

    /** dfs_read: pread(2) through the entry's descriptor: src/read.c:12-44. */
    method Read(h: nat, offset: nat, size: nat) returns (ret: int, buf: bytes)
      requires InPhase(Abs(), h, Opened) && Points(Abs(), h)
      ensures handles[h].pe.fd < 0 ==> ret == -EBADFD && buf == []
      ensures handles[h].pe.fd >= 0 ==>
                var content := CacheBytes(Abs(), handles[h].path);
                && ret == |buf|
                && |buf| == (if offset >= |content| then 0
                             else if offset + size <= |content| then size
                             else |content| - offset)
                && forall k :: 0 <= k < |buf| ==> buf[k] == content[offset + k]
    {
      var path := handles[h].path;
      if handles[h].pe.fd < 0 {
        return -EBADFD, [];
      }
      buf := PRead(if path in cache then cache[path] else [], offset, size);
      ret := |buf|;
    }

    /** dfs_write: pwrite(2) through the entry's descriptor: src/write.c:9-42. The data is where it was
        written, zeros fill a gap, and the other bytes and files are as they were. A descriptor that
        is not open for writing makes it fail with EBADF, and then nothing changes. */
    method Write(h: nat, offset: nat, data: bytes) returns (ret: int)
      requires InPhase(Abs(), h, Opened) && Points(Abs(), h) && handles[h].access.writes
      modifies this`cache
      ensures var path, pe := handles[h].path, handles[h].pe;
              var was, now := CacheBytes(old(Abs()), path), CacheBytes(Abs(), path);
              if pe.fd >= 0 && pe.writable then
                && ret == |data| && Abs() == old(Abs()).(cache := old(cache)[path := PWrite(was, offset, data)])
                && |now| == (if data != [] && offset + |data| > |was| then offset + |data| else |was|)
                && forall k :: 0 <= k < |now| ==>
                     now[k] == if offset <= k < offset + |data| then data[k - offset]
                               else if k < |was| then was[k] else 0
              else ret == (if pe.fd < 0 then EBADF else -EBADF) && Abs() == old(Abs())
    {
      var path := handles[h].path;
      if handles[h].pe.fd < 0 {
        return EBADF;
      }
      if !handles[h].pe.writable {
        return -EBADF;
      }
      var content := if path in cache then cache[path] else [];
      PWriteBytes(content, offset, data);
      cache := cache[path := PWrite(content, offset, data)];
      ret := |data|;
    }

    /** dfs_release up to the read-only exit: src/release.c:105-134. */
    method ReleaseBegin(h: nat)
      requires InPhase(Abs(), h, Opened) && Points(Abs(), h) && handles[h].pe.refcount > 0
      modifies this`handles, handles[h].pe
      ensures Abs() == AfterDrop(old(Abs()), h, if old(handles[h]).access.unlocks then Uploading else Closed)
      ensures old(handles[h]).pe.refcount == old(handles[h].pe.refcount) - 1
    {
      var pe := handles[h].pe;
      assert pe in hash.Values;
      hide Abs;
      pe.DecRefcount();
      SetPhase(h, if handles[h].access.unlocks then Uploading else Closed);
      OneEntryChanged(pe);
    }

    /** What the upload of dfs_release leaves: src/release.c:142-223. */
    method ReleaseSend(h: nat, upload: UploadOutcome)
      requires InPhase(Abs(), h, Uploading) && Points(Abs(), h)
      modifies this`store, this`stale, this`handles, handles[h].pe
      ensures Abs() == AfterSend(old(Abs()), h, upload)
      ensures store == match upload
                       case Sent(obj, _) => old(store)[old(handles[h]).path := obj]
                       case Unsent(Some(left), _) => old(store)[old(handles[h]).path := left]
                       case Unsent(None, _) => old(store) - {old(handles[h]).path}
    {
      var pe, path := handles[h].pe, handles[h].path;
      assert pe in hash.Values;
      hide Abs;
      match upload {
        case Sent(obj, _) =>
          store := store[path := obj];
          stale := stale - {path};
        case Unsent(left, _) =>
          store := if left.Some? then store[path := left.value] else store - {path};
          stale := stale + {path};
      }
      pe.offset := upload.end;
      SetPhase(h, Seeking);
      OneEntryChanged(pe);
    }

    /** The seek back to the start, the CLEAN flag and the unlock: src/release.c:224-238. An excluded
        path comes here without the seek. */
    method ReleaseEnd(h: nat)
      requires (InPhase(Abs(), h, Uploading) || InPhase(Abs(), h, Seeking)) && Points(Abs(), h)
      modifies this`stale, this`handles, handles[h].pe
      ensures Abs() == AfterRelease(old(Abs()), h)
      ensures !old(handles[h]).pe.locked && !old(handles[h]).pe.dirty
      ensures InPhase(old(Abs()), h, Seeking) ==> old(handles[h]).pe.offset == 0
    {
      var pe := handles[h].pe;
      assert pe in hash.Values;
      hide Abs;
      if handles[h].phase == Seeking {
        pe.offset := 0;
      } else {
        stale := stale + {handles[h].path};
      }
      pe.dirty := false;
      pe.Unlock();
      SetPhase(h, Closed);
      OneEntryChanged(pe);
    }

    /** gc_callback: src/gc.c:29-86. */
    method GcCallback(path: Path, c: GcPass.Clock)
      requires path in hash && TableInv(Abs().hash, Abs().mem)
      modifies this, hash.Values
      ensures Abs() == GcPass.GcStep(old(Abs()), path, c)
      ensures hash.Values <= old(hash.Values)
    {
      var pe := hash[path];
      assert pe in hash.Values;
      ghost var s := Abs();
      var condemned := pe.Condemn(c.st(path), c.now, c.threshold);
      OneEntryChanged(pe);
      assert Abs() == SetEntry(s, pe, pe.Snapshot());
      if condemned {
        GcPass.CollectAnyway(s, path, pe.Snapshot());
        Remove(path);
      } else {
        assert s.mem[pe := pe.Snapshot()] == s.mem;
      }
    }

    /** unlink(2) of the cache file and g_hash_table_remove, which frees the entry: src/gc.c:72-80. */
    method Remove(path: Path)
      requires path in hash && TableInv(Abs().hash, Abs().mem)
      modifies this
      ensures Abs() == AfterCollect(old(Abs()), path)
      ensures hash.Values <= old(hash.Values)
    {
      hide Mem, TableInv;
      Distinguished(path);
      cache := cache - {path};
      lost := if path in stale then lost + {path} else lost;
      stale := stale - {path};
      hash := hash - {path};
      Removed(path);
    }

    lemma Distinguished(path: Path)
      requires path in hash && TableInv(Abs().hash, Abs().mem)
      ensures forall q :: q in hash && hash[q] == hash[path] ==> q == path
    {
    }

    twostate lemma Removed(path: Path)
      requires path in old(hash) && hash == old(hash) - {path}
      requires forall q :: q in old(hash) && old(hash)[q] == old(hash)[path] ==> q == path
      requires forall pe :: pe in old(hash.Values) ==> pe.Snapshot() == old(pe.Snapshot())
      ensures hash.Values <= old(hash.Values) && Mem() == old(Mem()) - {old(hash)[path]}
    {
      ValuesAfterRemove(old(hash), path);
    }

    /** One turn of thread_gc over a snapshot of the keys: src/gc.c:98. */
    method GcTurn(keys: seq<Path>, c: GcPass.Clock)
      requires TableInv(Abs().hash, Abs().mem)
      modifies this, hash.Values
      ensures Abs() == GcPass.GcFold(old(Abs()), keys, c)
    {
      for i := 0 to |keys|
        invariant hash.Values <= old(hash.Values)
        invariant TableInv(Abs().hash, Abs().mem)
        invariant Abs() == GcPass.GcFold(old(Abs()), keys[..i], c)
      {
        GcPass.TableFold(old(Abs()), keys[..i + 1], c);
        assert keys[..i + 1][..i] == keys[..i];
        if keys[i] in hash {
          GcCallback(keys[i], c);
        }
      }
      assert keys[..|keys|] == keys;
    }

    /** dfs_getattr up to the calls to the store: src/getattr.c:224-272. */
    method GetattrBegin(g: nat, path: Path) returns (pe: Pentry)
      modifies this
      ensures path in old(hash) ==> pe == old(hash[path])
      ensures path !in old(hash) ==> fresh(pe)
      ensures hash.Values <= old(hash.Values) + {pe}
      ensures Abs() == AfterGetattrBegin(old(Abs()), g, path, pe)
      ensures pending == if old(path in hash && hash[path].ondisk != Unset) then old(pending)
                         else old(pending)[g := pe]
    {
      pe := Populate(path);
      if pe.ondisk == Unset {
        pending := pending[g := pe];
      }
    }

    /** The rest of getattr_unset: src/getattr.c:185-216. `found` is the store having metadata. */
    method GetattrEnd(g: nat, found: bool)
      requires g in pending && pending[g] in hash.Values
      modifies this`pending, pending[g]
      ensures Abs() == AfterGetattrEnd(old(Abs()), g, found)
      ensures pending == old(pending) - {g}
      ensures old(pending[g]).ondisk == if found then Remote else old(pending[g].ondisk)
    {
      var pe := pending[g];
      hide Abs;
      if found {
        pe.ondisk := Remote;
      }
      pending := pending - {g};
      OneEntryChanged(pe);
      if !found { SameEntry(old(Abs()).mem, pe); }
    }
  }
}
