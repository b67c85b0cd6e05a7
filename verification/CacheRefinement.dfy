/** The cache refines a plain map from paths to file contents, over every run. */
module CacheRefinement {
  import opened Basics
  import opened OpenFlags
  import opened CacheProtocol
  import opened CacheInvariant

  /** The step is the body of an open that truncates `p`. */
  predicate Truncates<Id>(s: State<Id>, e: Event<Id>, p: Path) {
    e.OpenBody? && e.body.Done? && e.h in s.handles && s.handles[e.h].path == p
        && s.handles[e.h].access.mode == ModeCreat
  }

  predicate Writes<Id>(s: State<Id>, e: Event<Id>, p: Path) {
    e.Write? && e.h in s.handles && s.handles[e.h].path == p
  }

  /** What a plain file map does: a truncating open empties the file, a write writes, and nothing
      else, neither reader opens nor releases nor collections nor getattr, touches it. */
  function PlainNext<Id>(m: map<Path, bytes>, s: State<Id>, e: Event<Id>): map<Path, bytes> {
    match e
    case OpenBody(h, _, Done) =>
      if h in s.handles && s.handles[h].access.mode == ModeCreat then m[s.handles[h].path := []] else m
    case Write(h, offset, data) =>
      if h in s.handles then
        var p := s.handles[h].path;
        m[p := PWrite(if p in m then m[p] else [], offset, data)]
      else m
    case _ => m
  }

  ghost predicate Agrees<Id>(dec: Object -> Option<bytes>, s: State<Id>, m: map<Path, bytes>) {
    forall p :: p !in s.lost ==> View(dec, s, p) == Lookup(m, p)
  }

  // ----- One step -----

  /** A step that leaves the table entry, the cache file and the object of `p` as they are. */
  lemma SameView<Id>(dec: Object -> Option<bytes>, s: State<Id>, t: State<Id>, p: Path)
    requires Cached(s, p) == Cached(t, p)
    requires Cached(s, p) ==> CacheBytes(s, p) == CacheBytes(t, p)
    requires !Cached(s, p) ==> Lookup(s.store, p) == Lookup(t.store, p)
    ensures View(dec, s, p) == View(dec, t, p)
  {
  }

  /** The table gives every handle in use its own entry, so a change of that entry is not seen
      through another path. */
  lemma OwnEntry<Id>(dec: Object -> Option<bytes>, s: State<Id>, h: nat)
    requires Inv(dec, s) && h in s.handles && InUse(s.handles[h].phase)
    ensures var hd := s.handles[h];
            hd.path in s.hash && s.hash[hd.path] == hd.pe && hd.pe in s.mem && EntryOk(s.mem[hd.pe])
    ensures forall q :: q in s.hash && q != s.handles[h].path ==> s.hash[q] != s.handles[h].pe
  {
    assert HandleOk(s.hash, s.mem, s.handles[h]);
  }

  /** Only the entry of `h` differs, and it has a descriptor exactly when it had one. */
  lemma EntryView<Id>(dec: Object -> Option<bytes>, s: State<Id>, t: State<Id>, h: nat, p: Path)
    requires Inv(dec, s) && h in s.handles && InUse(s.handles[h].phase)
    requires t.hash == s.hash && t.cache == s.cache && t.store == s.store
    requires s.handles[h].pe in s.mem && s.handles[h].pe in t.mem
    requires t.mem == s.mem[s.handles[h].pe := t.mem[s.handles[h].pe]]
    requires t.mem[s.handles[h].pe].fd >= 0 <==> s.mem[s.handles[h].pe].fd >= 0
    ensures View(dec, t, p) == View(dec, s, p)
  {
    SameView(dec, s, t, p);
  }

  /** The cache file of `h` has become `content` and the entry has a descriptor. */
  lemma CacheView<Id>(dec: Object -> Option<bytes>, s: State<Id>, t: State<Id>, h: nat, content: bytes, p: Path)
    requires Inv(dec, s) && h in s.handles && InUse(s.handles[h].phase)
    requires t.hash == s.hash && t.cache == s.cache[s.handles[h].path := content] && t.store == s.store
    requires s.handles[h].pe in s.mem && s.handles[h].pe in t.mem
    requires t.mem == s.mem[s.handles[h].pe := t.mem[s.handles[h].pe]]
    requires t.mem[s.handles[h].pe].fd >= 0
    ensures View(dec, t, p) == if p == s.handles[h].path then Some(content) else View(dec, s, p)
  {
    OwnEntry(dec, s, h);
    if p != s.handles[h].path { SameView(dec, s, t, p); }
  }

  lemma FailView<Id>(dec: Object -> Option<bytes>, s: State<Id>, h: nat, cache: map<Path, bytes>, p: Path)
    requires h in s.handles
    requires forall q :: q != s.handles[h].path ==> Lookup(cache, q) == Lookup(s.cache, q)
    requires cache == s.cache || !Cached(s, s.handles[h].path)
    ensures View(dec, SetPhase(s, h, Failed).(cache := cache), p) == View(dec, s, p)
  {
    if p != s.handles[h].path { assert Lookup(cache, p) == Lookup(s.cache, p); }
  }

  lemma FetchView<Id>(dec: Object -> Option<bytes>, s: State<Id>, h: nat, newfd: nat, body: BodyOutcome, p: Path)
    requires Inv(dec, s) && Enabled(dec, s, OpenBody(h, newfd, body))
    requires s.handles[h].access.mode != ModeCreat && s.mem[s.handles[h].pe].fd < 0
    requires p !in AfterBody(dec, s, h, newfd, body).lost
    ensures View(dec, AfterBody(dec, s, h, newfd, body), p) == View(dec, s, p) && p !in s.lost
  {
    hide Inv;
    OwnEntry(dec, s, h);
    var hd, t := s.handles[h], AfterBody(dec, s, h, newfd, body);
    match body
    case Done => CacheView(dec, s, t, h, Decoded(dec, s, hd.path).value, p);
    case Raw => CacheView(dec, s, t, h, s.store[hd.path].payload, p);
    case Broken(_) => FailView(dec, s, h, t.cache, p);
  }

  lemma CreatView<Id>(dec: Object -> Option<bytes>, s: State<Id>, h: nat, newfd: nat, body: BodyOutcome, p: Path)
    requires Inv(dec, s) && Enabled(dec, s, OpenBody(h, newfd, body)) && s.handles[h].access.mode == ModeCreat
    ensures var t := AfterBody(dec, s, h, newfd, body);
            && View(dec, t, p) == (if p == s.handles[h].path && body.Done? then Some([]) else View(dec, s, p))
            && (p in s.lost && p !in t.lost ==> p == s.handles[h].path && body.Done?)
  {
    hide Inv, View;
    if body.Done? { CacheView(dec, s, AfterCreat(s, h, newfd), h, [], p); } else { FailView(dec, s, h, s.cache, p); }
  }

  lemma ReuseView<Id>(dec: Object -> Option<bytes>, s: State<Id>, h: nat, newfd: nat, body: BodyOutcome, p: Path)
    requires Inv(dec, s) && Enabled(dec, s, OpenBody(h, newfd, body))
    requires s.handles[h].access.mode != ModeCreat && s.mem[s.handles[h].pe].fd >= 0
    ensures View(dec, AfterBody(dec, s, h, newfd, body), p) == View(dec, s, p)
    ensures AfterBody(dec, s, h, newfd, body).lost == s.lost
  {
    hide Inv, View;
    EntryView(dec, s, AfterReuse(s, h), h, p);
  }

  lemma BodyView<Id>(dec: Object -> Option<bytes>, s: State<Id>, h: nat, newfd: nat, body: BodyOutcome, p: Path)
    requires Inv(dec, s) && Enabled(dec, s, OpenBody(h, newfd, body))
    requires var t := AfterBody(dec, s, h, newfd, body); p !in t.lost
    ensures p in s.lost ==> p == s.handles[h].path && s.handles[h].access.mode == ModeCreat && body.Done?
    ensures var t := AfterBody(dec, s, h, newfd, body);
            View(dec, t, p) == if p == s.handles[h].path && s.handles[h].access.mode == ModeCreat && body.Done?
                               then Some([]) else View(dec, s, p)
  {
    hide Inv, View, AfterBody;
    if s.handles[h].access.mode == ModeCreat {
      CreatView(dec, s, h, newfd, body, p);
    } else if s.mem[s.handles[h].pe].fd >= 0 {
      ReuseView(dec, s, h, newfd, body, p);
    } else {
      FetchView(dec, s, h, newfd, body, p);
    }
  }

  /** The object changes behind an entry that has a descriptor: readers use the cache file. */
  lemma StoreView<Id>(dec: Object -> Option<bytes>, s: State<Id>, t: State<Id>, h: nat, p: Path)
    requires Inv(dec, s) && h in s.handles && InUse(s.handles[h].phase)
    requires t.hash == s.hash && t.cache == s.cache
    requires forall q :: q != s.handles[h].path ==> Lookup(t.store, q) == Lookup(s.store, q)
    requires s.handles[h].pe in s.mem && s.handles[h].pe in t.mem
    requires t.mem == s.mem[s.handles[h].pe := t.mem[s.handles[h].pe]]
    requires t.mem[s.handles[h].pe].fd >= 0 && s.mem[s.handles[h].pe].fd >= 0
    ensures View(dec, t, p) == View(dec, s, p)
  {
    OwnEntry(dec, s, h);
    hide Inv;
    if p == s.handles[h].path { assert Cached(s, p) && Cached(t, p); } else { SameView(dec, s, t, p); }
  }

  lemma SendView<Id>(dec: Object -> Option<bytes>, s: State<Id>, h: nat, upload: UploadOutcome, p: Path)
    requires Inv(dec, s) && Enabled(dec, s, ReleaseSend(h, upload))
    ensures View(dec, AfterSend(s, h, upload), p) == View(dec, s, p)
    ensures AfterSend(s, h, upload).lost == s.lost
  {
    hide Inv, SendOk, View;
    HandleAt(dec, s, h);
    StoreView(dec, s, AfterSend(s, h, upload), h, p);
  }

  lemma CreateEndView<Id>(dec: Object -> Option<bytes>, s: State<Id>, h: nat, exclude: bool, goesOn: bool,
                          made: Option<Object>, p: Path)
    requires Inv(dec, s) && Enabled(dec, s, CreateEnd(h, exclude, goesOn, made))
    ensures View(dec, AfterCreateEnd(s, h, exclude, goesOn, made), p) == View(dec, s, p)
    ensures AfterCreateEnd(s, h, exclude, goesOn, made).lost == s.lost
  {
    hide Inv, View;
    HandleAt(dec, s, h);
    var t := AfterCreateEnd(s, h, exclude, goesOn, made);
    if made.Some? { StoreView(dec, s, t, h, p); } else { EntryView(dec, s, t, h, p); }
  }

  lemma CollectView<Id>(dec: Object -> Option<bytes>, s: State<Id>, path: Path, p: Path)
    requires Inv(dec, s) && path in s.hash && !s.mem[s.hash[path]].locked
    requires p !in AfterCollect(s, path).lost
    ensures View(dec, AfterCollect(s, path), p) == View(dec, s, p)
  {
    hide Inv;
    PathAt(dec, s, path);
    if p != path {
      OneEntryEach(dec, s, p, path);
      SameView(dec, s, AfterCollect(s, path), p);
    }
  }

  lemma OneEntryEach<Id>(dec: Object -> Option<bytes>, s: State<Id>, p: Path, q: Path)
    requires Inv(dec, s)
    ensures p != q && p in s.hash && q in s.hash ==> s.hash[p] != s.hash[q]
  {
    hide HandleInv, CountInv, LockInv, OffsetInv, EntryInv, SyncInv, SentInv;
  }

  lemma PopulateView<Id>(dec: Object -> Option<bytes>, s: State<Id>, path: Path, addr: Id, p: Path)
    requires Inv(dec, s)
    requires if path in s.hash then s.hash[path] in s.mem else addr !in s.mem
    ensures View(dec, Populate(s, path, addr), p) == View(dec, s, p)
    ensures Populate(s, path, addr).lost == s.lost
  {
    SameView(dec, s, Populate(s, path, addr), p);
  }

  lemma GetattrBeginView<Id>(dec: Object -> Option<bytes>, s: State<Id>, g: nat, path: Path, addr: Id, p: Path)
    requires Inv(dec, s)
    requires if path in s.hash then s.hash[path] in s.mem else addr !in s.mem
    ensures View(dec, AfterGetattrBegin(s, g, path, addr), p) == View(dec, s, p)
    ensures AfterGetattrBegin(s, g, path, addr).lost == s.lost
  {
    hide Inv;
    PopulateView(dec, s, path, addr, p);
    SameView(dec, Populate(s, path, addr), AfterGetattrBegin(s, g, path, addr), p);
  }

  /** An entry that becomes REMOTE under an open descriptor: nobody reads differently. */
  lemma GetattrEndView<Id>(dec: Object -> Option<bytes>, s: State<Id>, g: nat, found: bool, p: Path)
    requires Enabled(dec, s, GetattrEnd(g, found))
    ensures View(dec, AfterGetattrEnd(s, g, found), p) == View(dec, s, p)
    ensures AfterGetattrEnd(s, g, found).lost == s.lost
  {
    SameView(dec, s, AfterGetattrEnd(s, g, found), p);
  }

  lemma BeginView<Id>(dec: Object -> Option<bytes>, s: State<Id>, h: nat, path: Path, access: Access, addr: Id, p: Path)
    requires Inv(dec, s) && h !in s.handles
    requires if path in s.hash then s.hash[path] in s.mem else addr !in s.mem
    ensures View(dec, AfterOpenBegin(s, h, path, access, addr), p) == View(dec, s, p)
    ensures AfterOpenBegin(s, h, path, access, addr).lost == s.lost
  {
    PopulateView(dec, s, path, addr, p);
    BeginMoves(s, h, path, access, addr);
    SameView(dec, Populate(s, path, addr), AfterOpenBegin(s, h, path, access, addr), p);
  }

  lemma WriteView<Id>(dec: Object -> Option<bytes>, s: State<Id>, h: nat, offset: nat, data: bytes, p: Path)
    requires Inv(dec, s) && InPhase(s, h, Opened)
    ensures var path := s.handles[h].path;
            var t := s.(cache := s.cache[path := PWrite(CacheBytes(s, path), offset, data)]);
            View(dec, t, p) == if p == path then Some(PWrite(View(dec, s, p).GetOr([]), offset, data))
              else View(dec, s, p)
  {
    var path := s.handles[h].path;
    OwnEntry(dec, s, h);
    assert HandleOk(s.hash, s.mem, s.handles[h]);
    CacheView(dec, s, s.(cache := s.cache[path := PWrite(CacheBytes(s, path), offset, data)]), h,
              PWrite(CacheBytes(s, path), offset, data), p);
  }

  /** What a plain file gives after the step: [] after a truncating open, the written bytes after
      a write, and what it gave before in every other case. */
  function ViewAfter<Id(==)>(dec: Object -> Option<bytes>, s: State<Id>, e: Event<Id>, p: Path): Option<bytes> {
    if Truncates(s, e, p) then Some([])
    else if Writes(s, e, p) then Some(PWrite(View(dec, s, p).GetOr([]), e.offset, e.data))
    else View(dec, s, p)
  }

  lemma TableStepView<Id>(dec: Object -> Option<bytes>, s: State<Id>, e: Event<Id>, p: Path)
    requires e.OpenBegin? || e.GetattrBegin? || e.GetattrEnd? || e.GcVisit?
    requires Inv(dec, s) && Enabled(dec, s, e) && p !in Next(dec, s, e).lost
    ensures p in s.lost ==> Truncates(s, e, p)
    ensures View(dec, Next(dec, s, e), p) == ViewAfter(dec, s, e, p)
  {
    hide Inv, View, AfterOpenBegin, AfterGetattrBegin, AfterGetattrEnd;
    match e
    case OpenBegin(h, path, flags, addr) => BeginView(dec, s, h, path, Classify(flags), addr, p);
    case GetattrBegin(g, path, addr) => GetattrBeginView(dec, s, g, path, addr, p);
    case GetattrEnd(g, found) => GetattrEndView(dec, s, g, found, p);
    case GcVisit(path, st, now, threshold) =>
      if Collects(s.mem[s.hash[path]], st, now, threshold) { CollectView(dec, s, path, p); }
  }

  lemma EntryStepView<Id>(dec: Object -> Option<bytes>, s: State<Id>, e: Event<Id>, p: Path)
    requires e.LockGranted? || e.LockRefused? || e.ReleaseBegin? || e.ReleaseEnd?
    requires Inv(dec, s) && Enabled(dec, s, e) && p !in Next(dec, s, e).lost
    ensures p in s.lost ==> Truncates(s, e, p)
    ensures View(dec, Next(dec, s, e), p) == ViewAfter(dec, s, e, p)
  {
    hide Inv, View;
    EntryView(dec, s, Next(dec, s, e), e.h, p);
  }

  lemma FileStepView<Id>(dec: Object -> Option<bytes>, s: State<Id>, e: Event<Id>, p: Path)
    requires e.OpenBody? || e.CreateEnd? || e.Write? || e.ReleaseSend?
    requires Inv(dec, s) && Enabled(dec, s, e) && p !in Next(dec, s, e).lost
    ensures p in s.lost ==> Truncates(s, e, p)
    ensures View(dec, Next(dec, s, e), p) == ViewAfter(dec, s, e, p)
  {
    hide Inv, View, PWrite, SendOk, AfterBody, AfterSend, AfterCreateEnd;
    match e
    case OpenBody(h, newfd, body) => BodyView(dec, s, h, newfd, body, p);
    case Write(h, offset, data) => WriteView(dec, s, h, offset, data, p);
    case CreateEnd(h, exclude, goesOn, made) => CreateEndView(dec, s, h, exclude, goesOn, made, p);
    case ReleaseSend(h, upload) => SendView(dec, s, h, upload, p);
  }

  /** One step changes what a reader of `p` gets only as the plain map does, for every path that is
      not lost after it. */
  lemma StepView<Id>(dec: Object -> Option<bytes>, s: State<Id>, e: Event<Id>, p: Path)
    requires Inv(dec, s) && Enabled(dec, s, e) && p !in Next(dec, s, e).lost
    ensures p in s.lost ==> Truncates(s, e, p)
    ensures View(dec, Next(dec, s, e), p) == ViewAfter(dec, s, e, p)
  {
    hide Inv, Enabled, Next, View, ViewAfter, Truncates, Writes;
    if e.OpenBegin? || e.GetattrBegin? || e.GetattrEnd? || e.GcVisit? { TableStepView(dec, s, e, p); }
    else if e.OpenBody? || e.CreateEnd? || e.Write? || e.ReleaseSend? { FileStepView(dec, s, e, p); }
    else { EntryStepView(dec, s, e, p); }
  }

  lemma StepRefines<Id>(dec: Object -> Option<bytes>, s: State<Id>, e: Event<Id>, m: map<Path, bytes>)
    requires Inv(dec, s) && Enabled(dec, s, e) && Agrees(dec, s, m)
    ensures Agrees(dec, Next(dec, s, e), PlainNext(m, s, e))
  {
    var t, n := Next(dec, s, e), PlainNext(m, s, e);
    forall p | p !in t.lost ensures View(dec, t, p) == Lookup(n, p)
    {
      StepView(dec, s, e, p);
    }
  }
}
