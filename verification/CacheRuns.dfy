/** Theorems about whole runs of the cache: any number of opens, writes, releases, collections and
    getattrs, interleaved in any order. */
module CacheRuns {
  import opened Basics
  import opened OpenFlags
  import opened CacheProtocol
  import opened CacheInvariant
  import opened CacheEntries
  import opened CacheRefinement

  /** An empty cache in front of `store`. */
  function Init<Id>(store: map<Path, Object>): State<Id> {
    State(map[], map[], map[], store, map[], map[], {}, {})
  }

  datatype Run<Id> = Run(states: seq<State<Id>>, events: seq<Event<Id>>)

  ghost predicate IsRun<Id>(dec: Object -> Option<bytes>, r: Run<Id>) {
    && |r.states| == |r.events| + 1
    && r.states[0] == Init(r.states[0].store)
    && (forall i :: 0 <= i < |r.events| ==>
          Enabled(dec, r.states[i], r.events[i]) && r.states[i + 1] == Next(dec, r.states[i], r.events[i]))
  }

  /** The files the store holds, decoded. */
  function StoredFiles(dec: Object -> Option<bytes>, store: map<Path, Object>): map<Path, bytes> {
    map p | p in store && dec(store[p]).Some? :: dec(store[p]).value
  }

  /** The plain file map after the first `n` steps of a run. */
  ghost function PlainAt<Id>(dec: Object -> Option<bytes>, r: Run<Id>, n: nat): map<Path, bytes>
    requires IsRun(dec, r) && n <= |r.events|
  {
    if n == 0 then StoredFiles(dec, r.states[0].store)
    else PlainNext(PlainAt(dec, r, n - 1), r.states[n - 1], r.events[n - 1])
  }

  lemma StepOf<Id>(dec: Object -> Option<bytes>, r: Run<Id>, k: nat)
    requires IsRun(dec, r) && k < |r.events|
    ensures Enabled(dec, r.states[k], r.events[k]) && r.states[k + 1] == Next(dec, r.states[k], r.events[k])
  {
  }

  // ----- Invariant and refinement -----

  lemma InitInv<Id>(dec: Object -> Option<bytes>, store: map<Path, Object>)
    ensures Inv(dec, Init<Id>(store))
  {
  }

  /** The invariant holds in every reachable state. */
  lemma {:induction false} RunInv<Id>(dec: Object -> Option<bytes>, r: Run<Id>, n: nat)
    requires IsRun(dec, r) && n <= |r.events|
    ensures Inv(dec, r.states[n])
  {
    if n == 0 {
      InitInv<Id>(dec, r.states[0].store);
    } else {
      RunInv(dec, r, n - 1);
      StepKeeps(dec, r.states[n - 1], r.events[n - 1]);
    }
  }

  /** At every moment of every run, reading a path that is not lost gives what the plain file map
      has there. */
  lemma {:induction false} RunRefines<Id>(dec: Object -> Option<bytes>, r: Run<Id>, n: nat)
    requires IsRun(dec, r) && n <= |r.events|
    ensures Agrees(dec, r.states[n], PlainAt(dec, r, n))
  {
    if n > 0 {
      RunRefines(dec, r, n - 1);
      RunInv(dec, r, n - 1);
      StepRefines(dec, r.states[n - 1], r.events[n - 1], PlainAt(dec, r, n - 1));
    }
  }

  /** The step cannot leave the store behind: no upload fails, no excluded path is released and no
      fetch ends with the compressed payload. */
  predicate FaultFree<Id(==)>(s: State<Id>, e: Event<Id>) {
    && (e.ReleaseSend? ==> e.upload.Sent?)
    && (e.ReleaseEnd? ==> InPhase(s, e.h, Seeking))
    && (e.OpenBody? ==> !e.body.Raw?)
  }

  /** The history changes only with the body of an open, a release and a collection. */
  lemma HistoryKept<Id>(dec: Object -> Option<bytes>, s: State<Id>, e: Event<Id>)
    requires Enabled(dec, s, e) && !e.OpenBody? && !e.GcVisit?
    ensures Next(dec, s, e).lost == s.lost
    ensures !e.ReleaseSend? && !e.ReleaseEnd? ==> Next(dec, s, e).stale == s.stale
  {
    hide AfterOpenBegin, SendOk, PWrite, CacheBytes;
    if e.OpenBegin? { BeginMoves(s, e.h, e.path, Classify(e.flags), e.addr); }
  }

  lemma BodyHistory<Id>(dec: Object -> Option<bytes>, s: State<Id>, h: nat, newfd: nat, body: BodyOutcome)
    requires Enabled(dec, s, OpenBody(h, newfd, body))
    ensures var t, p := AfterBody(dec, s, h, newfd, body), s.handles[h].path;
            && t.lost <= s.lost + (if body.Raw? then {p} else {})
            && t.stale <= s.stale + (if body.Raw? then {p} else {})
  {
    hide AfterBody, OpenedEntry, FetchedContent, FetchEnabled;
    BodyShape(dec, s, h, newfd, body);
  }

  lemma FaultFreeStep<Id>(dec: Object -> Option<bytes>, s: State<Id>, e: Event<Id>)
    requires Enabled(dec, s, e) && FaultFree(s, e)
    ensures Next(dec, s, e).stale <= s.stale
    ensures Next(dec, s, e).lost <= s.lost + s.stale
  {
    if e.OpenBody? {
      hide Next, Enabled, AfterBody;
      BodyHistory(dec, s, e.h, e.newfd, e.body);
      NextBody(dec, s, e.h, e.newfd, e.body);
    } else if e.GcVisit? || e.ReleaseSend? || e.ReleaseEnd? {
      hide TooOld, SendOk;
    } else {
      hide Next, Enabled;
      HistoryKept(dec, s, e);
    }
  }

  lemma {:induction false} FaultFreePrefix<Id>(dec: Object -> Option<bytes>, r: Run<Id>, n: nat)
    requires IsRun(dec, r) && n <= |r.events|
    requires forall i :: 0 <= i < n ==> FaultFree(r.states[i], r.events[i])
    ensures r.states[n].lost == {} && r.states[n].stale == {}
  {
    if n > 0 {
      FaultFreePrefix(dec, r, n - 1);
      FaultFreeStep(dec, r.states[n - 1], r.events[n - 1]);
    }
  }

  /** Without such a fault the cache is a plain file map. */
  lemma FaultFreeRefines<Id>(dec: Object -> Option<bytes>, r: Run<Id>, n: nat, p: Path)
    requires IsRun(dec, r) && n <= |r.events|
    requires forall i :: 0 <= i < n ==> FaultFree(r.states[i], r.events[i])
    ensures View(dec, r.states[n], p) == Lookup(PlainAt(dec, r, n), p)
  {
    FaultFreePrefix(dec, r, n);
    RunRefines(dec, r, n);
  }

  /** A path becomes lost in two ways only: the collector drops an entry that is stale, or a fetch
      ends with the compressed payload. */
  lemma LostOnlyBy<Id>(dec: Object -> Option<bytes>, s: State<Id>, e: Event<Id>, p: Path)
    requires Enabled(dec, s, e) && p !in s.lost && p in Next(dec, s, e).lost
    ensures || (e.GcVisit? && e.path == p && p in s.stale && Collects(s.mem[s.hash[p]], e.st, e.now, e.threshold))
            || (e.OpenBody? && e.body.Raw? && s.handles[e.h].path == p)
  {
    if e.GcVisit? {
      hide TooOld;
    } else if e.OpenBody? {
      hide Next, Enabled, AfterBody;
      BodyHistory(dec, s, e.h, e.newfd, e.body);
      NextBody(dec, s, e.h, e.newfd, e.body);
    } else {
      hide Next, Enabled;
      HistoryKept(dec, s, e);
    }
  }

  // ----- Handles -----

  /** How far an open/release pair has come. */
  function Rank(phase: Phase): nat {
    match phase
    case Waiting => 0
    case Granted => 1
    case Opened => 2
    case Failed => 2
    case Uploading => 3
    case Seeking => 4
    case Refused => 5
    case Closed => 5
  }

  ghost predicate HandleKept<Id>(s: State<Id>, t: State<Id>, h: nat)
    requires h in s.handles
  {
    && h in t.handles && t.handles[h] == s.handles[h].(phase := t.handles[h].phase)
    && Rank(s.handles[h].phase) <= Rank(t.handles[h].phase)
    && (Rank(s.handles[h].phase) == 5 ==> t.handles[h].phase == s.handles[h].phase)
  }

  lemma BodyHandleStep<Id>(dec: Object -> Option<bytes>, s: State<Id>, g: nat, newfd: nat, body: BodyOutcome, h: nat)
    requires Enabled(dec, s, OpenBody(g, newfd, body)) && h in s.handles
    ensures HandleKept(s, AfterBody(dec, s, g, newfd, body), h)
  {
    BodyShape(dec, s, g, newfd, body);
    hide AfterBody, Enabled;
  }

  /** The steps that move one handle on. */
  predicate MovesHandle<Id>(e: Event<Id>) {
    e.LockGranted? || e.LockRefused? || e.CreateEnd? || e.ReleaseBegin? || e.ReleaseSend? || e.ReleaseEnd?
  }

  /** Handle `h` is moved on, and no other. */
  ghost predicate MovedOn<Id>(s: State<Id>, t: State<Id>, h: nat) {
    && h in s.handles && h in t.handles && t.handles == s.handles[h := s.handles[h].(phase := t.handles[h].phase)]
    && Rank(s.handles[h].phase) <= Rank(t.handles[h].phase) && Rank(s.handles[h].phase) < 5
  }

  lemma SetPhaseMoves<Id>(s: State<Id>, t: State<Id>, h: nat, phase: Phase)
    requires h in s.handles && t.handles == SetPhase(s, h, phase).handles
    requires Rank(s.handles[h].phase) <= Rank(phase) && Rank(s.handles[h].phase) < 5
    ensures MovedOn(s, t, h)
  {
  }

  lemma OpenSideHandles<Id>(s: State<Id>, h: nat, phase: Phase)
    requires h in s.handles && Points(s, h)
    ensures AfterLock(s, h).handles == SetPhase(s, h, Granted).handles
    ensures s.mem[s.handles[h].pe].refcount > 0 ==> AfterDrop(s, h, phase).handles == SetPhase(s, h, phase).handles
  {
  }

  lemma CloseSideHandles<Id>(s: State<Id>, h: nat, exclude: bool, goesOn: bool, made: Option<Object>,
                             upload: UploadOutcome)
    requires h in s.handles && Points(s, h)
    ensures AfterCreateEnd(s, h, exclude, goesOn, made).handles ==
            SetPhase(s, h, if goesOn then Opened else Failed).handles
    ensures AfterSend(s, h, upload).handles == SetPhase(s, h, Seeking).handles
    ensures AfterRelease(s, h).handles == SetPhase(s, h, Closed).handles
  {
  }

  lemma MovedHandle<Id>(dec: Object -> Option<bytes>, s: State<Id>, e: Event<Id>)
    requires Enabled(dec, s, e) && MovesHandle(e)
    ensures MovedOn(s, Next(dec, s, e), e.h)
  {
    hide SendOk, Points, MovedOn, SetPhase, AfterLock, AfterDrop, AfterCreateEnd, AfterSend, AfterRelease;
    var t, sent := Next(dec, s, e), Unsent(None, 0);
    match e
    case LockGranted(h) =>
      OpenSideHandles(s, h, Granted);
      SetPhaseMoves(s, t, h, Granted);
    case LockRefused(h) =>
      OpenSideHandles(s, h, Refused);
      SetPhaseMoves(s, t, h, Refused);
    case ReleaseBegin(h) =>
      var phase := if s.handles[h].access.unlocks then Uploading else Closed;
      OpenSideHandles(s, h, phase);
      SetPhaseMoves(s, t, h, phase);
    case CreateEnd(h, exclude, goesOn, made) =>
      CloseSideHandles(s, h, exclude, goesOn, made, sent);
      SetPhaseMoves(s, t, h, if goesOn then Opened else Failed);
    case ReleaseSend(h, upload) =>
      CloseSideHandles(s, h, false, false, None, upload);
      SetPhaseMoves(s, t, h, Seeking);
    case ReleaseEnd(h) =>
      CloseSideHandles(s, h, false, false, None, sent);
      SetPhaseMoves(s, t, h, Closed);
  }

  lemma OtherHandleStep<Id>(dec: Object -> Option<bytes>, s: State<Id>, e: Event<Id>, h: nat)
    requires Enabled(dec, s, e) && h in s.handles && !e.OpenBody? && !MovesHandle(e)
    ensures h in Next(dec, s, e).handles && Next(dec, s, e).handles[h] == s.handles[h]
  {
    hide AfterOpenBegin, PWrite, TooOld;
    if e.OpenBegin? { BeginMoves(s, e.h, e.path, Classify(e.flags), e.addr); }
  }

  /** An open keeps its path, its entry and its access for ever, and only goes forward. */
  lemma HandleStep<Id>(dec: Object -> Option<bytes>, s: State<Id>, e: Event<Id>, h: nat)
    requires Enabled(dec, s, e) && h in s.handles
    ensures HandleKept(s, Next(dec, s, e), h)
  {
    hide Enabled, Next, AfterBody;
    if e.OpenBody? {
      BodyHandleStep(dec, s, e.h, e.newfd, e.body, h);
      NextBody(dec, s, e.h, e.newfd, e.body);
    } else if MovesHandle(e) {
      MovedHandle(dec, s, e);
    } else {
      OtherHandleStep(dec, s, e, h);
    }
  }

  lemma {:induction false} HandleRun<Id>(dec: Object -> Option<bytes>, r: Run<Id>, i: nat, j: nat, h: nat)
    requires IsRun(dec, r) && i <= j <= |r.events| && h in r.states[i].handles
    ensures HandleKept(r.states[i], r.states[j], h)
    decreases j - i
  {
    hide Enabled, Next;
    if i < j {
      HandleRun(dec, r, i, j - 1, h);
      assert Enabled(dec, r.states[j - 1], r.events[j - 1]);
      HandleStep(dec, r.states[j - 1], r.events[j - 1], h);
    }
  }

  /** No collection frees an entry that an open is using: from its begin to the end of its
      release, waiting for the lock and the upload included, the handle's entry is the same live
      entry, and the table finds it under the handle's path. */
  lemma EntryOutlivesOpen<Id>(dec: Object -> Option<bytes>, r: Run<Id>, i: nat, k: nat, j: nat, h: nat)
    requires IsRun(dec, r) && i <= k <= j <= |r.events| && h in r.states[i].handles
    requires h in r.states[j].handles && InUse(r.states[j].handles[h].phase)
    ensures var s := r.states[k];
            var hd := r.states[i].handles[h];
            hd.pe in s.mem && hd.path in s.hash && s.hash[hd.path] == hd.pe && h in s.handles
                && s.handles[h].pe == hd.pe
  {
    HandleRun(dec, r, i, k, h);
    HandleRun(dec, r, k, j, h);
    RunInv(dec, r, k);
    var s := r.states[k];
    assert HandleOk(s.hash, s.mem, s.handles[h]);
  }

  /** The semaphore counts the opens begun and not released, failed ones included, so dfs_release
      does not block on it, and it has a descriptor to work with. */
  lemma ReleaseNeverBlocks<Id>(dec: Object -> Option<bytes>, r: Run<Id>, n: nat, h: nat)
    requires IsRun(dec, r) && n <= |r.events| && InPhase(r.states[n], h, Opened)
    ensures var s := r.states[n];
            && Enabled(dec, s, ReleaseBegin(h))
            && s.mem[s.handles[h].pe].refcount == |CountedHandles(s.handles, s.handles[h].pe)| > 0
            && s.mem[s.handles[h].pe].fd >= 0
            && View(dec, s, s.handles[h].path) == Some(CacheBytes(s, s.handles[h].path))
  {
    RunInv(dec, r, n);
    var s := r.states[n];
    assert HandleOk(s.hash, s.mem, s.handles[h]) && EntryOk(s.mem[s.handles[h].pe]);
    assert h in CountedHandles(s.handles, s.handles[h].pe);
  }

  /** A read through an open handle gives what the plain file has there, if the path is not lost. */
  lemma ReadsThePlainFile<Id>(dec: Object -> Option<bytes>, r: Run<Id>, n: nat, h: nat, offset: nat, size: nat)
    requires IsRun(dec, r) && n <= |r.events| && InPhase(r.states[n], h, Opened)
    requires r.states[n].handles[h].path !in r.states[n].lost
    ensures var p := r.states[n].handles[h].path;
            && p in PlainAt(dec, r, n)
            && PRead(CacheBytes(r.states[n], p), offset, size) == PRead(PlainAt(dec, r, n)[p], offset, size)
  {
    ReleaseNeverBlocks(dec, r, n, h);
    RunRefines(dec, r, n);
  }

  /** The mutex of an entry is taken exactly when one open is past the lock and has not given it
      back: it is in progress, it failed, or it was closed with flags whose release does not
      unlock. There is never a second one. */
  lemma MutexAccounting<Id>(dec: Object -> Option<bytes>, r: Run<Id>, n: nat, id: Id)
    requires IsRun(dec, r) && n <= |r.events| && id in r.states[n].mem
    ensures var s := r.states[n];
            && (s.mem[id].locked <==> exists h :: HeldBy(s.handles, h, id))
            && (forall g, h :: HeldBy(s.handles, g, id) && HeldBy(s.handles, h, id) ==> g == h)
  {
    RunInv(dec, r, n);
    var s := r.states[n];
    forall g, h | HeldBy(s.handles, g, id) && HeldBy(s.handles, h, id) ensures g == h
    {
      assert s.handles[g].pe == id;
    }
  }

  /** If no open had the flags whose release does not unlock, and none failed, then a taken mutex
      belongs to a writer between its lock and the end of its release. */
  lemma BalancedMutex<Id>(dec: Object -> Option<bytes>, r: Run<Id>, n: nat, id: Id)
    requires IsRun(dec, r) && n <= |r.events| && id in r.states[n].mem
    requires forall h :: h in r.states[n].handles ==>
               r.states[n].handles[h].access.Locks() == r.states[n].handles[h].access.unlocks
               && r.states[n].handles[h].phase != Failed
    ensures var s := r.states[n];
            s.mem[id].locked <==>
            exists h :: HeldBy(s.handles, h, id)
                        && 1 <= Rank(s.handles[h].phase) <= 4
  {
    MutexAccounting(dec, r, n, id);
    var s := r.states[n];
    if s.mem[id].locked {
      var h :| HeldBy(s.handles, h, id);
      assert 1 <= Rank(s.handles[h].phase) <= 4;
    }
  }

  /** An open fetches only when its entry has no descriptor, and then the entry is not LOCAL, so the
      digest comparison that would skip the download (src/file.c:179-183, 407-410) never succeeds. */
  lemma DigestShortcutUnused<Id>(dec: Object -> Option<bytes>, r: Run<Id>, n: nat, h: nat)
    requires IsRun(dec, r) && n <= |r.events| && InPhase(r.states[n], h, Granted)
    ensures var s := r.states[n];
            Points(s, h) && (s.mem[s.handles[h].pe].fd < 0 ==> s.mem[s.handles[h].pe].ondisk != Local)
  {
    RunInv(dec, r, n);
    HandleAt(dec, r.states[n], h);
  }

  /** An entry is LOCAL exactly when it has a descriptor, in every state that no getattr has reached by
      ending on an entry that has got a descriptor in the meantime; see LocalExactly for such a step. */
  lemma {:induction false} LocalHasDescriptor<Id>(dec: Object -> Option<bytes>, r: Run<Id>, n: nat)
    requires IsRun(dec, r) && n <= |r.events|
    requires forall i :: 0 <= i < n ==> !LateGetattr(r.states[i], r.events[i])
    ensures LocalInv(r.states[n])
  {
    hide LateGetattr;
    if n > 0 {
      LocalHasDescriptor(dec, r, n - 1);
      StepOf(dec, r, n - 1);
      LocalExactly(dec, r.states[n - 1], r.events[n - 1]);
    }
  }

  // ----- What a collection loses -----

  /** A collection changes what a reader of the path gets if and only if the cache file was in use and
      its bytes are not those of the store. */
  lemma CollectExactly<Id>(dec: Object -> Option<bytes>, s: State<Id>, e: Event<Id>)
    requires Inv(dec, s) && Enabled(dec, s, e) && e.GcVisit?
    requires Collects(s.mem[s.hash[e.path]], e.st, e.now, e.threshold)
    ensures View(dec, Next(dec, s, e), e.path) == View(dec, s, e.path) <==>
            !Cached(s, e.path) || Decoded(dec, s, e.path) == Some(CacheBytes(s, e.path))
  {
    hide Inv, TooOld;
    PathAt(dec, s, e.path);
  }

  /** So a collection takes a path that is not lost away from the plain file map if and only if the
      store does not have the bytes of its cache file. */
  lemma CollectLoses<Id>(dec: Object -> Option<bytes>, r: Run<Id>, n: nat)
    requires IsRun(dec, r) && n < |r.events| && r.events[n].GcVisit? && r.events[n].path in r.states[n].hash
    requires r.states[n].hash[r.events[n].path] in r.states[n].mem && r.events[n].path !in r.states[n].lost
    requires Collects(r.states[n].mem[r.states[n].hash[r.events[n].path]], r.events[n].st, r.events[n].now,
                      r.events[n].threshold)
    ensures var p, s := r.events[n].path, r.states[n];
            View(dec, r.states[n + 1], p) == Lookup(PlainAt(dec, r, n + 1), p) <==>
            !Cached(s, p) || Decoded(dec, s, p) == Some(CacheBytes(s, p))
  {
    RunInv(dec, r, n);
    RunRefines(dec, r, n);
    StepOf(dec, r, n);
    hide Inv, View, Collects;
    CollectExactly(dec, r.states[n], r.events[n]);
  }

  /** A fetch that ends with the payload changes what a reader gets if and only if the object does not
      stand for its payload. */
  lemma RawExactly<Id>(dec: Object -> Option<bytes>, s: State<Id>, h: nat, newfd: nat)
    requires Inv(dec, s) && Enabled(dec, s, OpenBody(h, newfd, Raw))
    ensures var p := s.handles[h].path;
            p in s.store && (View(dec, AfterBody(dec, s, h, newfd, Raw), p) == View(dec, s, p) <==>
                               dec(s.store[p]) == Some(s.store[p].payload))
  {
    hide Inv;
    HandleAt(dec, s, h);
  }

  /** The step leaves the cache file, the object and the table entry of `p` alone. */
  predicate Quiet<Id(==)>(s: State<Id>, e: Event<Id>, p: Path) {
    && (e.OpenBody? || e.CreateEnd? || e.Write? || e.ReleaseSend? ==> e.h in s.handles && s.handles[e.h].path != p)
    && (e.GcVisit? ==>
         e.path != p || !(p in s.hash && s.hash[p] in s.mem && Collects(s.mem[s.hash[p]], e.st, e.now, e.threshold)))
  }

  /** The path has a cache file in use, and the store has something else, or nothing. */
  predicate Unsaved<Id(==)>(dec: Object -> Option<bytes>, s: State<Id>, p: Path, content: bytes) {
    Cached(s, p) && CacheBytes(s, p) == content && Decoded(dec, s, p) != Some(content)
  }

  /** Cache file, object and table entry of `p` are the same. */
  predicate SameAt<Id(==)>(s: State<Id>, t: State<Id>, p: Path) {
    && Lookup(t.cache, p) == Lookup(s.cache, p) && Lookup(t.store, p) == Lookup(s.store, p)
    && (p in s.hash ==> p in t.hash && t.hash[p] == s.hash[p])
  }

  lemma QuietTable<Id>(dec: Object -> Option<bytes>, s: State<Id>, e: Event<Id>, p: Path)
    requires Enabled(dec, s, e) && Quiet(s, e, p)
    requires e.OpenBegin? || e.LockGranted? || e.LockRefused? || e.GcVisit? || e.GetattrBegin? || e.GetattrEnd?
    ensures SameAt(s, Next(dec, s, e), p)
  {
    hide AfterOpenBegin, TooOld;
    if e.OpenBegin? { BeginFiles(s, e.h, e.path, Classify(e.flags), e.addr, p); }
  }

  lemma QuietFiles<Id>(dec: Object -> Option<bytes>, s: State<Id>, e: Event<Id>, p: Path)
    requires Enabled(dec, s, e) && Quiet(s, e, p)
    requires e.CreateEnd? || e.Write? || e.ReleaseBegin? || e.ReleaseSend? || e.ReleaseEnd?
    ensures SameAt(s, Next(dec, s, e), p)
  {
    hide SendOk, PWrite, CacheBytes;
  }

  lemma BeginFiles<Id>(s: State<Id>, h: nat, q: Path, access: Access, addr: Id, p: Path)
    requires h !in s.handles && (if q in s.hash then s.hash[q] in s.mem else addr !in s.mem)
    ensures var t := AfterOpenBegin(s, h, q, access, addr);
            t.cache == s.cache && t.store == s.store && (p in s.hash ==> p in t.hash && t.hash[p] == s.hash[p])
  {
    BeginMoves(s, h, q, access, addr);
    hide AfterOpenBegin;
  }

  lemma QuietBody<Id>(dec: Object -> Option<bytes>, s: State<Id>, h: nat, newfd: nat, body: BodyOutcome, p: Path)
    requires Enabled(dec, s, OpenBody(h, newfd, body)) && s.handles[h].path != p
    ensures var t := AfterBody(dec, s, h, newfd, body);
            Lookup(t.cache, p) == Lookup(s.cache, p) && t.store == s.store && t.hash == s.hash
  {
    hide AfterBody, FetchEnabled, FetchedContent, OpenedEntry;
    BodyShape(dec, s, h, newfd, body);
  }

  lemma QuietStep<Id>(dec: Object -> Option<bytes>, s: State<Id>, e: Event<Id>, p: Path, content: bytes)
    requires Inv(dec, s) && Enabled(dec, s, e) && Quiet(s, e, p) && Unsaved(dec, s, p, content)
    ensures Unsaved(dec, Next(dec, s, e), p, content)
  {
    hide Inv, Enabled, Next, AfterBody, Quiet;
    var t, id := Next(dec, s, e), s.hash[p];
    if e.OpenBody? {
      NextBody(dec, s, e.h, e.newfd, e.body);
      assert s.handles[e.h].path != p by { BodyElsewhere(s, e, p); }
      QuietBody(dec, s, e.h, e.newfd, e.body, p);
      BodyAddsNone(dec, s, e.h, e.newfd, e.body);
    } else {
      if e.CreateEnd? || e.Write? || e.ReleaseBegin? || e.ReleaseSend? || e.ReleaseEnd? {
        QuietFiles(dec, s, e, p);
      } else {
        QuietTable(dec, s, e, p);
      }
    }
    KeptEntry(dec, s, e, p);
    EntryAfter(dec, s, e, id);
  }

  lemma BodyElsewhere<Id>(s: State<Id>, e: Event<Id>, p: Path)
    requires Quiet(s, e, p) && e.OpenBody?
    ensures e.h in s.handles && s.handles[e.h].path != p
  {
  }

  lemma KeptEntry<Id>(dec: Object -> Option<bytes>, s: State<Id>, e: Event<Id>, p: Path)
    requires Inv(dec, s) && Enabled(dec, s, e) && Quiet(s, e, p) && p in s.hash && s.hash[p] in s.mem
    ensures s.hash[p] in Next(dec, s, e).mem
  {
    hide Inv, Enabled, Next, AfterBody;
    var id := s.hash[p];
    if e.OpenBody? {
      NextBody(dec, s, e.h, e.newfd, e.body);
      BodyAddsNone(dec, s, e.h, e.newfd, e.body);
    } else if e.GcVisit? {
      VisitKeeps(dec, s, e, p);
    } else if e.CreateEnd? {
      CreateSide(dec, s, e, id);
    } else if e.GetattrEnd? {
      GetattrSide(dec, s, e, id);
    } else if e.Write? || e.ReleaseBegin? || e.ReleaseSend? || e.ReleaseEnd? {
      CloseSide(dec, s, e, id);
    } else {
      OpenSide(dec, s, e, id);
    }
  }

  lemma VisitKeeps<Id>(dec: Object -> Option<bytes>, s: State<Id>, e: Event<Id>, p: Path)
    requires Inv(dec, s) && Enabled(dec, s, e) && e.GcVisit? && Quiet(s, e, p) && p in s.hash && s.hash[p] in s.mem
    ensures s.hash[p] in Next(dec, s, e).mem
  {
    hide Inv, TooOld;
    OneEntryEach(dec, s, p, e.path);
  }

  lemma {:induction false} QuietRun<Id>(dec: Object -> Option<bytes>, r: Run<Id>, i: nat, j: nat, p: Path,
                                        content: bytes)
    requires IsRun(dec, r) && i <= j <= |r.events| && Unsaved(dec, r.states[i], p, content)
    requires forall k :: i <= k < j ==> Quiet(r.states[k], r.events[k], p)
    ensures Unsaved(dec, r.states[j], p, content)
    decreases j - i
  {
    hide Quiet, Unsaved, Inv, Enabled, Next;
    if i < j {
      QuietRun(dec, r, i, j - 1, p, content);
      RunInv(dec, r, j - 1);
      StepOf(dec, r, j - 1);
      QuietStep(dec, r.states[j - 1], r.events[j - 1], p, content);
    }
  }

  /** A send that fails leaves a path unsaved, when what it leaves in the store is not the file. */
  lemma SendUnsaved<Id>(dec: Object -> Option<bytes>, r: Run<Id>, n: nat)
    requires IsRun(dec, r) && n < |r.events| && r.events[n].ReleaseSend? && r.events[n].upload.Unsent?
    ensures r.events[n].h in r.states[n].handles
    ensures var s, left := r.states[n], r.events[n].upload.left;
            var p := s.handles[r.events[n].h].path;
            (left.Some? ==> dec(left.value) != Some(CacheBytes(s, p))) ==>
                  Unsaved(dec, r.states[n + 1], p, CacheBytes(s, p))
  {
    RunInv(dec, r, n);
    StepOf(dec, r, n);
    hide Inv, SendOk, IsRun;
    HandleAt(dec, r.states[n], r.events[n].h);
  }

  /** So does the release of an excluded path, when the store does not have the file already. */
  lemma ReleaseUnsaved<Id>(dec: Object -> Option<bytes>, r: Run<Id>, n: nat)
    requires IsRun(dec, r) && n < |r.events| && r.events[n].ReleaseEnd?
    ensures r.events[n].h in r.states[n].handles
    ensures var s := r.states[n];
            var p := s.handles[r.events[n].h].path;
            Decoded(dec, s, p) != Some(CacheBytes(s, p)) ==> Unsaved(dec, r.states[n + 1], p, CacheBytes(s, p))
  {
    RunInv(dec, r, n);
    StepOf(dec, r, n);
    hide Inv, SendOk, IsRun;
    HandleAt(dec, r.states[n], r.events[n].h);
  }

  /** Then, if nothing saves it in the meantime, a collection loses it: for every path and every file. */
  lemma UnsavedThenCollected<Id>(dec: Object -> Option<bytes>, r: Run<Id>, i: nat, j: nat, p: Path, content: bytes)
    requires IsRun(dec, r) && i <= j < |r.events| && Unsaved(dec, r.states[i], p, content)
    requires forall k :: i <= k < j ==> Quiet(r.states[k], r.events[k], p)
    requires r.events[j].GcVisit? && r.events[j].path == p && !Quiet(r.states[j], r.events[j], p)
    requires p !in r.states[j].lost
    ensures Lookup(PlainAt(dec, r, j), p) == Some(content) && Lookup(PlainAt(dec, r, j + 1), p) == Some(content)
    ensures View(dec, r.states[j], p) == Some(content) != View(dec, r.states[j + 1], p)
  {
    QuietRun(dec, r, i, j, p, content);
    CollectLoses(dec, r, j);
    RunRefines(dec, r, j);
    hide IsRun, Collects;
  }

  // ----- The descriptor's offset -----

  /** The offset of an entry's descriptor is 0 in every reachable state in which no release of the
      entry is between its send and its seek. */
  lemma OffsetAtBoundaries<Id>(dec: Object -> Option<bytes>, r: Run<Id>, n: nat, id: Id)
    requires IsRun(dec, r) && n <= |r.events| && id in r.states[n].mem
    requires forall h :: InPhase(r.states[n], h, Seeking) ==> r.states[n].handles[h].pe != id
    ensures r.states[n].mem[id].offset == 0
  {
    RunInv(dec, r, n);
    var s := r.states[n];
    assert OffsetInv(s.mem, s.handles);
    forall h ensures !Sending(s.handles, h, id)
    {
      assert InPhase(s, h, Seeking) ==> s.handles[h].pe != id;
    }
  }

  /** So what a release sends is the whole cache file, although a plain send starts where the
      descriptor is; and a plain one leaves the descriptor at the end. */
  lemma UploadsWholeFile<Id>(dec: Object -> Option<bytes>, r: Run<Id>, n: nat, h: nat)
    requires IsRun(dec, r) && n < |r.events| && r.events[n].ReleaseSend? && r.events[n].h == h
    requires r.events[n].upload.Sent?
    ensures var p, pe := r.states[n].handles[h].path, r.states[n].handles[h].pe;
            && Decoded(dec, r.states[n + 1], p) == Some(CacheBytes(r.states[n], p))
            && pe in r.states[n + 1].mem && r.states[n + 1].mem[pe].offset in {0, |CacheBytes(r.states[n], p)|}
  {
    RunInv(dec, r, n);
    var s, upload := r.states[n], r.events[n].upload;
    assert Enabled(dec, s, ReleaseSend(h, upload));
    SendKeeps(dec, s, h, upload);
    SendMoves(dec, s, h, upload);
  }

  /** Any object that stands for the cache file can be what a release sends, by either kind of send. */
  lemma SendEnabled<Id>(dec: Object -> Option<bytes>, r: Run<Id>, n: nat, h: nat, obj: Object, end: nat)
    requires IsRun(dec, r) && n <= |r.events| && InPhase(r.states[n], h, Uploading)
    requires Points(r.states[n], h) && !r.states[n].mem[r.states[n].handles[h].pe].exclude
    requires dec(obj) == Some(CacheBytes(r.states[n], r.states[n].handles[h].path))
    requires end == 0 || end == |CacheBytes(r.states[n], r.states[n].handles[h].path)|
    ensures Enabled(dec, r.states[n], ReleaseSend(h, Sent(obj, end)))
  {
    RunInv(dec, r, n);
    var s := r.states[n];
    HandleAt(dec, s, h);
    var content := CacheBytes(s, s.handles[h].path);
    assert content[0..] == content;
  }

  // ----- Who can write -----

  /** While a handle has the lock past the body of its open, another open of the entry reads. */
  lemma OthersRead<Id>(dec: Object -> Option<bytes>, s: State<Id>, g: nat, h: nat)
    requires Inv(dec, s) && InPhase(s, g, Granted) && h in s.handles && Holds(s.handles[h])
    requires Rank(s.handles[h].phase) >= 2
    ensures s.handles[g].pe == s.handles[h].pe ==> !s.handles[g].access.Locks()
  {
    assert HeldBy(s.handles, h, s.handles[h].pe);
  }

  /** While a handle is past the body of its open and has the lock, its entry keeps a descriptor
      with the same access. */
  lemma StepKeepsDescriptor<Id>(dec: Object -> Option<bytes>, s: State<Id>, e: Event<Id>, h: nat)
    requires Inv(dec, s) && Enabled(dec, s, e) && h in s.handles && Holds(s.handles[h])
    requires 2 <= Rank(s.handles[h].phase) <= 4 && Points(s, h) && s.mem[s.handles[h].pe].fd >= 0
    ensures var pe, t := s.handles[h].pe, Next(dec, s, e);
            pe in t.mem && t.mem[pe].fd >= 0 && t.mem[pe].writable == s.mem[pe].writable
  {
    hide Inv, Next, Enabled, AfterBody, Rank, Holds;
    HandleAt(dec, s, h);
    var pe := s.handles[h].pe;
    if e.OpenBody? {
      BodyGranted(dec, s, e.h, e.newfd, e.body);
      OthersRead(dec, s, e.h, h);
      BodySide(dec, s, e.h, e.newfd, e.body, pe);
      NextBody(dec, s, e.h, e.newfd, e.body);
    } else if e.GcVisit? {
      GcSpares(dec, s, e, pe);
      GcSide(dec, s, e, pe);
    } else if e.CreateEnd? {
      CreateSide(dec, s, e, pe);
    } else if e.GetattrEnd? {
      GetattrSide(dec, s, e, pe);
    } else if e.Write? || e.ReleaseBegin? || e.ReleaseSend? || e.ReleaseEnd? {
      CloseSide(dec, s, e, pe);
    } else {
      OpenSide(dec, s, e, pe);
    }
  }

  lemma BodyGranted<Id>(dec: Object -> Option<bytes>, s: State<Id>, h: nat, newfd: nat, body: BodyOutcome)
    requires Enabled(dec, s, OpenBody(h, newfd, body))
    ensures InPhase(s, h, Granted)
  {
    hide FetchEnabled;
  }

  lemma RankOpened()
    ensures Rank(Opened) == 2
  {
  }

  ghost predicate SameDescriptor<Id>(s: State<Id>, t: State<Id>, pe: Id) {
    pe in s.mem && pe in t.mem && s.mem[pe].fd >= 0 && t.mem[pe].fd >= 0 && t.mem[pe].writable == s.mem[pe].writable
  }

  lemma RunStepDescriptor<Id>(dec: Object -> Option<bytes>, r: Run<Id>, k: nat, h: nat)
    requires IsRun(dec, r) && k < |r.events| && h in r.states[k].handles && r.states[k].handles[h].access.Locks()
    requires 2 <= Rank(r.states[k].handles[h].phase) <= 4 && Points(r.states[k], h)
    requires r.states[k].mem[r.states[k].handles[h].pe].fd >= 0
    ensures SameDescriptor(r.states[k], r.states[k + 1], r.states[k].handles[h].pe)
  {
    RunInv(dec, r, k);
    hide Inv, Enabled, Next;
    StepKeepsDescriptor(dec, r.states[k], r.events[k], h);
  }

  lemma HandleBetween<Id>(dec: Object -> Option<bytes>, r: Run<Id>, i: nat, k: nat, j: nat, h: nat)
    requires IsRun(dec, r) && i <= k <= j <= |r.events| && h in r.states[i].handles
    ensures h in r.states[k].handles && h in r.states[j].handles
    ensures r.states[k].handles[h].pe == r.states[i].handles[h].pe
    ensures r.states[k].handles[h].access == r.states[i].handles[h].access
    ensures Rank(r.states[i].handles[h].phase) <= Rank(r.states[k].handles[h].phase)
    ensures Rank(r.states[k].handles[h].phase) <= Rank(r.states[j].handles[h].phase)
  {
    HandleRun(dec, r, i, k, h);
    HandleRun(dec, r, k, j, h);
    hide IsRun;
  }

  /** From the body of an open on, step by step. */
  lemma {:induction false} RunKeepsDescriptor<Id>(dec: Object -> Option<bytes>, r: Run<Id>, i: nat, j: nat, h: nat)
    requires IsRun(dec, r) && i <= j <= |r.events| && InPhase(r.states[i], h, Opened)
    requires h in r.states[j].handles && Rank(r.states[j].handles[h].phase) <= 4
    requires r.states[i].handles[h].access.Locks()
    ensures var pe := r.states[i].handles[h].pe; SameDescriptor(r.states[i], r.states[j], pe)
    decreases j - i
  {
    hide IsRun, Rank, HandleKept;
    if i == j {
      OpenedHasDescriptor(dec, r, i, h);
    } else {
      var k := j - 1;
      HandleBetween(dec, r, i, k, j, h);
      assert Rank(Opened) == 2 by { RankOpened(); }
      RunKeepsDescriptor(dec, r, i, k, h);
      RunStepDescriptor(dec, r, k, h);
    }
  }

  lemma OpenedHasDescriptor<Id>(dec: Object -> Option<bytes>, r: Run<Id>, n: nat, h: nat)
    requires IsRun(dec, r) && n <= |r.events| && InPhase(r.states[n], h, Opened)
    ensures Points(r.states[n], h) && r.states[n].mem[r.states[n].handles[h].pe].fd >= 0
    ensures r.states[n].handles[h].access.writes ==> r.states[n].handles[h].access.Locks()
  {
    RunInv(dec, r, n);
    HandleAt(dec, r.states[n], h);
  }

  lemma BodyWritable<Id>(dec: Object -> Option<bytes>, s: State<Id>, h: nat, newfd: nat, body: BodyOutcome)
    requires Enabled(dec, s, OpenBody(h, newfd, body)) && InPhase(AfterBody(dec, s, h, newfd, body), h, Opened)
    requires s.handles[h].access.Locks()
    ensures var t, pe := AfterBody(dec, s, h, newfd, body), s.handles[h].pe;
            pe in t.mem && (t.mem[pe].writable <==>
              s.handles[h].access.mode == ModeCreat || s.mem[pe].fd < 0 || s.mem[pe].writable)
  {
    BodyShape(dec, s, h, newfd, body);
    hide AfterBody;
  }

  /** When a writer can write, from its open to its release: if it truncates, or finds no descriptor
      in the entry, or one that is open for writing. An appending writer that finds the descriptor a
      reader left behind cannot write a byte, because open_existing keeps it (src/open.c:158-161). */
  lemma WriterCanWrite<Id>(dec: Object -> Option<bytes>, r: Run<Id>, i: nat, j: nat, h: nat, offset: nat, data: bytes)
    requires IsRun(dec, r) && i < j <= |r.events| && r.events[i].OpenBody? && r.events[i].h == h
    requires InPhase(r.states[i + 1], h, Opened) && InPhase(r.states[j], h, Opened)
    requires r.states[j].handles[h].access.writes
    ensures var hd := r.states[i].handles[h];
            && hd.pe in r.states[i].mem
            && (Enabled(dec, r.states[j], Write(h, offset, data)) <==>
                  hd.access.mode == ModeCreat || r.states[i].mem[hd.pe].fd < 0 || r.states[i].mem[hd.pe].writable)
  {
    StepOf(dec, r, i);
    HandleRun(dec, r, i, j, h);
    HandleRun(dec, r, i, i + 1, h);
    OpenedHasDescriptor(dec, r, j, h);
    hide IsRun, AfterBody, FetchEnabled;
    BodyWritable(dec, r.states[i], h, r.events[i].newfd, r.events[i].body);
    RunKeepsDescriptor(dec, r, i + 1, j, h);
  }

  /** In particular a truncating writer always can. */
  lemma TruncatingOpenCanWrite<Id>(dec: Object -> Option<bytes>, r: Run<Id>, i: nat, j: nat, h: nat, offset: nat,
                                   data: bytes)
    requires IsRun(dec, r) && i < j <= |r.events| && r.events[i].OpenBody? && r.events[i].h == h
    requires InPhase(r.states[i + 1], h, Opened) && InPhase(r.states[j], h, Opened)
    requires r.states[j].handles[h].access == Access(ModeCreat, true, true)
    ensures Enabled(dec, r.states[j], Write(h, offset, data))
  {
    HandleRun(dec, r, i + 1, j, h);
    StepOf(dec, r, i);
    HandleStep(dec, r.states[i], r.events[i], h);
    WriterCanWrite(dec, r, i, j, h, offset, data);
  }

  /** After the close of a read-only open with O_APPEND or O_CREAT, the mutex of its path is never
      granted again: that open took it and its release does not give it back. */
  lemma NeverGrantedAgain<Id>(dec: Object -> Option<bytes>, r: Run<Id>, i: nat, j: nat, g: nat, h: nat)
    requires IsRun(dec, r) && i <= j <= |r.events| && InPhase(r.states[i], g, Closed)
    requires r.states[i].handles[g].access.Locks() && !r.states[i].handles[g].access.unlocks
    requires h in r.states[j].handles && r.states[j].handles[h].path == r.states[i].handles[g].path
    ensures !Enabled(dec, r.states[j], LockGranted(h))
  {
    HandleRun(dec, r, i, j, g);
    RunInv(dec, r, j);
    HandleAt(dec, r.states[j], g);
    HandleAt(dec, r.states[j], h);
  }
}
