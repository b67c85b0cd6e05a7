/** The path-entry cache as a transition system. One step is one atomic piece of dfs_open,
    dfs_write, dfs_release, dfs_create, dfs_getattr or of the garbage collector; a run
    interleaves the steps of any number of threads. `Id` is the address of a path entry. */
module CacheProtocol {
  import opened Basics
  import opened OpenFlags

  datatype Placeholder = Local | Remote | Unset

  /** struct pentry. `writable` is the access mode the descriptor was opened with and `offset`
      its file offset, both kept by the kernel. */
  datatype Entry = Entry(
    fd: int, writable: bool, offset: nat, ondisk: Placeholder,
    refcount: nat, locked: bool, dirty: bool, exclude: bool)

  const NEW_ENTRY := Entry(-1, false, 0, Unset, 0, false, true, false)

  /** Where an open/release pair stands. `Waiting` is blocked on the mutex, `Granted` has passed
      it (or does not need it) and has not run the body of the open, `Uploading` has dropped its
      count in dfs_release and has the upload to do, `Seeking` has done it and has to bring the
      descriptor back to the start and to unlock. */
  datatype Phase = Waiting | Granted | Refused | Opened | Failed | Uploading | Seeking | Closed

  datatype Handle<Id> = Handle(path: Path, pe: Id, access: Access, phase: Phase)

  /** `pending` are the getattrs that have found an UNSET entry and are asking the store about it.
      `stale` and `lost` are history: a path is stale when the cache file may hold bytes the store
      does not have, and lost when such bytes were dropped. */
  datatype State<Id> = State(
    hash: map<Path, Id>,
    mem: map<Id, Entry>,
    cache: map<Path, bytes>,
    store: map<Path, Object>,
    handles: map<nat, Handle<Id>>,
    pending: map<nat, Id>,
    stale: set<Path>,
    lost: set<Path>)

  datatype Times = Times(atime: int, mtime: int, ctime: int)

  /** `Raw` is a fetch that ends with the compressed payload as cache file: src/file.c:281-285
      answers 1 when rename(2) fails, which the caller does not take for an error. */
  datatype BodyOutcome = Done | Raw | Broken(remnant: Option<bytes>)

  /** `end` is where the send leaves the entry's descriptor; `left` is what the store has under the
      path after a send that failed, or that sent something else than the file. */
  datatype UploadOutcome = Sent(obj: Object, end: nat) | Unsent(left: Option<Object>, end: nat)

  datatype Event<Id> =
    | OpenBegin(h: nat, path: Path, flags: bv32, addr: Id)
    | LockGranted(h: nat)
    | LockRefused(h: nat)
    | OpenBody(h: nat, newfd: nat, body: BodyOutcome)
    | CreateEnd(h: nat, exclude: bool, goesOn: bool, made: Option<Object>)
    | Write(h: nat, offset: nat, data: bytes)
    | ReleaseBegin(h: nat)
    | ReleaseSend(h: nat, upload: UploadOutcome)
    | ReleaseEnd(h: nat)
    | GcVisit(path: Path, st: Option<Times>, now: int, threshold: int)
    | GetattrBegin(g: nat, path: Path, addr: Id)
    | GetattrEnd(g: nat, found: bool)

  // ----- Reading and writing file contents -----

  function Zeros(n: nat): (z: bytes)
    ensures |z| == n
  {
    seq(n, _ => 0)
  }

  /** pwrite(2): a gap is filled with zeros, and writing nothing changes nothing. */
  function PWrite(was: bytes, offset: nat, data: bytes): (r: bytes) {
    if data == [] then was
    else
      var base := if |was| < offset then was + Zeros(offset - |was|) else was;
      base[..offset] + data + (if offset + |data| < |base| then base[offset + |data|..] else [])
  }

  /** pread(2): at most `size` bytes, and none past the end. */
  function PRead(content: bytes, offset: nat, size: nat): bytes {
    var rest := if offset < |content| then content[offset..] else [];
    if size < |rest| then rest[..size] else rest
  }

  /** A write is as long as it must be; its bytes are the data where it was written, the old bytes
      elsewhere, and zeros in a gap. */
  lemma PWriteBytes(was: bytes, offset: nat, data: bytes)
    ensures |PWrite(was, offset, data)| == if data != [] && offset + |data| > |was| then offset + |data| else |was|
    ensures forall k :: 0 <= k < |PWrite(was, offset, data)| ==>
              PWrite(was, offset, data)[k] ==
              if offset <= k < offset + |data| then data[k - offset] else if k < |was| then was[k] else 0
  {
  }

  lemma PReadBytes(content: bytes, offset: nat, size: nat)
    ensures |PRead(content, offset, size)| ==
            if offset >= |content| then 0 else if offset + size <= |content| then size else |content| - offset
    ensures forall k :: 0 <= k < |PRead(content, offset, size)| ==>
              PRead(content, offset, size)[k] == content[offset + k]
  {
  }

  /** Reading where one has just written gives the data; reading beside it, what was there. */
  lemma ReadAfterWrite(was: bytes, offset: nat, data: bytes, at: nat, size: nat)
    ensures PRead(PWrite(was, offset, data), offset, |data|) == data
    ensures at + size <= offset <= |was| || (offset + |data| <= at <= |was|) ==>
              PRead(PWrite(was, offset, data), at, size) == PRead(was, at, size)
  {
    PWriteBytes(was, offset, data);
    PReadBytes(PWrite(was, offset, data), offset, |data|);
    PReadBytes(PWrite(was, offset, data), at, size);
    PReadBytes(was, at, size);
    hide PRead, PWrite;
  }

  function CacheBytes<Id>(s: State<Id>, p: Path): bytes {
    if p in s.cache then s.cache[p] else []
  }

  function Decoded<Id>(dec: Object -> Option<bytes>, s: State<Id>, p: Path): Option<bytes> {
    if p in s.store then dec(s.store[p]) else None
  }

  /** The path has a cache file that opens use: its entry has a descriptor, which is what
      open_existing tests (src/open.c:158-161). */
  predicate Cached<Id(==)>(s: State<Id>, p: Path) {
    p in s.hash && s.hash[p] in s.mem && s.mem[s.hash[p]].fd >= 0
  }

  /** What a reader of `p` gets: the cache file when there is one in use, else the remote object. */
  function View<Id(==)>(dec: Object -> Option<bytes>, s: State<Id>, p: Path): Option<bytes> {
    if Cached(s, p) then Some(CacheBytes(s, p)) else Decoded(dec, s, p)
  }

  // ----- The garbage collector's decision -----

  /** src/gc.c:41-67, once both guards let the collector through. */
  predicate TooOld(e: Entry, st: Option<Times>, now: int, threshold: int) {
    if e.fd == -1 then false
    else if e.fd < 0 then true
    else
      match st
      case None => true
      case Some(t) =>
        var limit := if e.exclude then threshold * 10 else threshold;
        !(now < t.atime + limit && now < t.mtime + limit && now < t.ctime + limit)
  }

  predicate Collects(e: Entry, st: Option<Times>, now: int, threshold: int) {
    e.refcount == 0 && !e.locked && TooOld(e, st, now, threshold)
  }

  // ----- Steps -----

  predicate InPhase<Id>(s: State<Id>, h: nat, phase: Phase) {
    h in s.handles && s.handles[h].phase == phase
  }

  /** The handle's entry has not been freed. Every step below reads the entry through the handle. */
  predicate Points<Id(==)>(s: State<Id>, h: nat)
    requires h in s.handles
  {
    s.handles[h].pe in s.mem
  }

  predicate FetchEnabled<Id>(dec: Object -> Option<bytes>, s: State<Id>, p: Path, body: BodyOutcome) {
    match body
    case Done => Decoded(dec, s, p).Some?
    case Raw => p in s.store
    case Broken(_) => true
  }

  predicate PlainSend(dec: Object -> Option<bytes>, offset: nat, content: bytes, obj: Object) {
    offset <= |content| && dec(obj) == Some(content[offset..])
  }

  /** How a send can go for a descriptor at `offset` in a file: a plain one reads the descriptor on to
      the end of the file, a compressed one reads the file through a stream of its own. */
  predicate SendOk(dec: Object -> Option<bytes>, offset: nat, content: bytes, upload: UploadOutcome) {
    match upload
    case Sent(obj, end) =>
      || (end == |content| && PlainSend(dec, offset, content, obj))
      || (end == offset && dec(obj) == Some(content))
    case Unsent(_, end) => end == offset || offset <= end <= |content|
  }

  predicate Enabled<Id(==)>(dec: Object -> Option<bytes>, s: State<Id>, e: Event<Id>) {
    match e
    case OpenBegin(h, path, flags, addr) =>
      h !in s.handles && (if path in s.hash then s.hash[path] in s.mem else addr !in s.mem)
    case LockGranted(h) =>
      InPhase(s, h, Waiting) && Points(s, h) && !s.mem[s.handles[h].pe].locked
    case LockRefused(h) =>
      InPhase(s, h, Waiting) && Points(s, h) && s.mem[s.handles[h].pe].refcount > 0
    case OpenBody(h, newfd, body) =>
      && InPhase(s, h, Granted) && Points(s, h)
      && (match s.handles[h].access.mode
          case ModeCreat => !body.Raw?
          case _ => if s.mem[s.handles[h].pe].fd >= 0 then body.Done?
                    else FetchEnabled(dec, s, s.handles[h].path, body))
    case CreateEnd(h, exclude, goesOn, made) =>
      && (InPhase(s, h, Opened) || InPhase(s, h, Failed)) && Points(s, h) && s.handles[h].access.Locks()
      && (goesOn || made.Some? ==> s.mem[s.handles[h].pe].fd >= 0)
    case Write(h, _, _) =>
      InPhase(s, h, Opened) && Points(s, h) && s.handles[h].access.writes
      && s.mem[s.handles[h].pe].fd >= 0 && s.mem[s.handles[h].pe].writable
    case ReleaseBegin(h) =>
      InPhase(s, h, Opened) && Points(s, h) && s.mem[s.handles[h].pe].fd >= 0
      && s.mem[s.handles[h].pe].refcount > 0
    case ReleaseSend(h, upload) =>
      && InPhase(s, h, Uploading) && Points(s, h) && !s.mem[s.handles[h].pe].exclude
      && SendOk(dec, s.mem[s.handles[h].pe].offset, CacheBytes(s, s.handles[h].path), upload)
    case ReleaseEnd(h) =>
      && (InPhase(s, h, Uploading) || InPhase(s, h, Seeking)) && Points(s, h)
      && (InPhase(s, h, Uploading) ==> s.mem[s.handles[h].pe].exclude)
    case GcVisit(path, _, _, _) =>
      path in s.hash && s.hash[path] in s.mem
    case GetattrBegin(g, path, addr) =>
      g !in s.pending && (if path in s.hash then s.hash[path] in s.mem else addr !in s.mem)
    case GetattrEnd(g, found) =>
      g in s.pending && s.pending[g] in s.mem
  }

  function SetPhase<Id>(s: State<Id>, h: nat, phase: Phase): State<Id>
    requires h in s.handles
  {
    s.(handles := s.handles[h := s.handles[h].(phase := phase)])
  }

  function SetEntry<Id(==)>(s: State<Id>, id: Id, e: Entry): State<Id> {
    s.(mem := s.mem[id := e])
  }

  /** The hash table after a lookup of `p` that inserts a new entry at `addr` when there is none. */
  function Populate<Id(==)>(s: State<Id>, p: Path, addr: Id): State<Id> {
    if p in s.hash then s
    else s.(hash := s.hash[p := addr], mem := s.mem[addr := NEW_ENTRY])
  }

  function AfterOpenBegin<Id(==)>(s: State<Id>, h: nat, p: Path, access: Access, addr: Id): State<Id>
    requires h !in s.handles
    requires if p in s.hash then s.hash[p] in s.mem else addr !in s.mem
  {
    var t := Populate(s, p, addr);
    var id := t.hash[p];
    var phase := if access.Locks() then Waiting else Granted;
    SetEntry(t, id, t.mem[id].(refcount := t.mem[id].refcount + 1))
    .(handles := s.handles[h := Handle(p, id, access, phase)])
  }

  function AfterLock<Id(==)>(s: State<Id>, h: nat): State<Id>
    requires h in s.handles && Points(s, h)
  {
    var id := s.handles[h].pe;
    SetPhase(SetEntry(s, id, s.mem[id].(locked := true)), h, Granted)
  }

  /** pentry_dec_refcount, and the handle moves on. */
  function AfterDrop<Id(==)>(s: State<Id>, h: nat, phase: Phase): State<Id>
    requires h in s.handles && Points(s, h) && s.mem[s.handles[h].pe].refcount > 0
  {
    var id := s.handles[h].pe;
    SetPhase(SetEntry(s, id, s.mem[id].(refcount := s.mem[id].refcount - 1)), h, phase)
  }

  /** open_creat: src/open.c:135-144. */
  function AfterCreat<Id(==)>(s: State<Id>, h: nat, newfd: nat): State<Id>
    requires h in s.handles && Points(s, h)
  {
    var p, id := s.handles[h].path, s.handles[h].pe;
    var e := s.mem[id].(fd := newfd, writable := true, offset := 0, dirty := true, ondisk := Local);
    SetPhase(SetEntry(s, id, e), h, Opened)
    .(cache := s.cache[p := []], lost := s.lost - {p})
  }

  /** open_existing with a descriptor already in the entry: src/open.c:158, 171. */
  function AfterReuse<Id(==)>(s: State<Id>, h: nat): State<Id>
    requires h in s.handles && Points(s, h)
  {
    var id := s.handles[h].pe;
    var dirty := s.mem[id].dirty || s.handles[h].access.mode == ModeRdWr;
    SetPhase(SetEntry(s, id, s.mem[id].(dirty := dirty, ondisk := Local)), h, Opened)
  }

  /** open_existing that downloads `content` into the cache file: src/open.c:161-169. */
  function AfterFetch<Id(==)>(s: State<Id>, h: nat, newfd: nat, content: bytes): State<Id>
    requires h in s.handles && Points(s, h)
  {
    var p, id := s.handles[h].path, s.handles[h].pe;
    var w := s.handles[h].access.mode == ModeRdWr;
    var e := s.mem[id].(fd := newfd, writable := w, offset := 0,
                        dirty := s.mem[id].dirty || w, ondisk := Local);
    SetPhase(SetEntry(s, id, e), h, Opened).(cache := s.cache[p := content])
  }

  function AfterBody<Id(==)>(dec: Object -> Option<bytes>, s: State<Id>, h: nat, newfd: nat,
                        body: BodyOutcome): State<Id>
    requires Enabled(dec, s, OpenBody(h, newfd, body))
  {
    var p, pe := s.handles[h].path, s.mem[s.handles[h].pe];
    if s.handles[h].access.mode == ModeCreat then
      if body.Done? then AfterCreat(s, h, newfd) else SetPhase(s, h, Failed)
    else if pe.fd >= 0 then AfterReuse(s, h)
    else
      match body
      case Done => AfterFetch(s, h, newfd, Decoded(dec, s, p).value)
      case Raw =>
        AfterFetch(s, h, newfd, s.store[p].payload).(stale := s.stale + {p}, lost := s.lost + {p})
      case Broken(remnant) =>
        SetPhase(s, h, Failed)
        .(cache := if remnant.Some? then s.cache[p := remnant.value] else s.cache - {p})
  }

  /** The end of dfs_create: src/create.c:60-98. It ignores what dfs_open answered and goes on
      whenever the entry has a descriptor; when it fails itself, nobody releases the handle. */
  function AfterCreateEnd<Id(==)>(s: State<Id>, h: nat, exclude: bool, goesOn: bool, made: Option<Object>): State<Id>
    requires h in s.handles && Points(s, h)
  {
    var p, id := s.handles[h].path, s.handles[h].pe;
    SetPhase(SetEntry(s, id, s.mem[id].(exclude := exclude)), h, if goesOn then Opened else Failed)
    .(store := if made.Some? then s.store[p := made.value] else s.store)
  }

  /** The upload of dfs_release: src/release.c:142-223. */
  function AfterSend<Id(==)>(s: State<Id>, h: nat, upload: UploadOutcome): State<Id>
    requires h in s.handles && Points(s, h)
  {
    var p, id := s.handles[h].path, s.handles[h].pe;
    var moved := SetPhase(SetEntry(s, id, s.mem[id].(offset := upload.end)), h, Seeking);
    match upload
    case Sent(obj, _) => moved.(store := s.store[p := obj], stale := s.stale - {p})
    case Unsent(left, _) =>
      moved.(store := if left.Some? then s.store[p := left.value] else s.store - {p}, stale := s.stale + {p})
  }

  /** The end of dfs_release: src/release.c:224-238. An excluded path comes here directly and is not
      seeked. */
  function AfterRelease<Id(==)>(s: State<Id>, h: nat): State<Id>
    requires h in s.handles && Points(s, h)
  {
    var hd := s.handles[h];
    var pe := s.mem[hd.pe];
    var sent := hd.phase == Seeking;
    var offset := if sent then 0 else pe.offset;
    SetPhase(SetEntry(s, hd.pe, pe.(dirty := false, locked := false, offset := offset)), h, Closed)
    .(stale := if sent then s.stale else s.stale + {hd.path})
  }

  /** The collector drops the entry and its cache file: src/gc.c:72-80. */
  function AfterCollect<Id(==)>(s: State<Id>, p: Path): State<Id>
    requires p in s.hash
  {
    s.(hash := s.hash - {p}, mem := s.mem - {s.hash[p]}, cache := s.cache - {p},
       stale := s.stale - {p}, lost := if p in s.stale then s.lost + {p} else s.lost)
  }

  /** dfs_getattr up to the calls to the store: src/getattr.c:224-272. */
  function AfterGetattrBegin<Id(==)>(s: State<Id>, g: nat, p: Path, addr: Id): State<Id>
    requires if p in s.hash then s.hash[p] in s.mem else addr !in s.mem
  {
    var t := Populate(s, p, addr);
    if t.mem[t.hash[p]].ondisk == Unset then t.(pending := s.pending[g := t.hash[p]]) else t
  }

  /** The rest of getattr_unset: src/getattr.c:185-216. The entry becomes REMOTE whatever has
      happened to it since it was found UNSET. */
  function AfterGetattrEnd<Id(==)>(s: State<Id>, g: nat, found: bool): State<Id>
    requires g in s.pending && s.pending[g] in s.mem
  {
    var id := s.pending[g];
    (if found then SetEntry(s, id, s.mem[id].(ondisk := Remote)) else s).(pending := s.pending - {g})
  }

  function Next<Id(==)>(dec: Object -> Option<bytes>, s: State<Id>, e: Event<Id>): State<Id>
    requires Enabled(dec, s, e)
  {
    match e
    case OpenBegin(h, path, flags, addr) => AfterOpenBegin(s, h, path, Classify(flags), addr)
    case LockGranted(h) => AfterLock(s, h)
    case LockRefused(h) => AfterDrop(s, h, Refused)
    case OpenBody(h, newfd, body) => AfterBody(dec, s, h, newfd, body)
    case CreateEnd(h, exclude, goesOn, made) => AfterCreateEnd(s, h, exclude, goesOn, made)
    case Write(h, offset, data) =>
      var p := s.handles[h].path;
      s.(cache := s.cache[p := PWrite(CacheBytes(s, p), offset, data)])
    case ReleaseBegin(h) =>
      AfterDrop(s, h, if s.handles[h].access.unlocks then Uploading else Closed)
    case ReleaseSend(h, upload) => AfterSend(s, h, upload)
    case ReleaseEnd(h) => AfterRelease(s, h)
    case GcVisit(path, st, now, threshold) =>
      if Collects(s.mem[s.hash[path]], st, now, threshold) then AfterCollect(s, path) else s
    case GetattrBegin(g, path, addr) => AfterGetattrBegin(s, g, path, addr)
    case GetattrEnd(g, found) => AfterGetattrEnd(s, g, found)
  }

  // ----- The body of an open, field by field -----

  /** What a fetch leaves in the cache file. */
  function FetchedContent(dec: Object -> Option<bytes>, store: map<Path, Object>, p: Path,
                          body: BodyOutcome): Option<bytes> {
    match body
    case Done => if p in store then dec(store[p]) else None
    case Raw => if p in store then Some(store[p].payload) else None
    case Broken(remnant) => remnant
  }

  /** The entry after open_existing, before dfs_open sets the placeholder. */
  function ExistingEntry(e: Entry, rdwr: bool, newfd: nat, body: BodyOutcome): Entry {
    var used := e.(dirty := rdwr || e.dirty);
    if e.fd >= 0 then used
    else if body.Broken? then e
    else used.(fd := newfd, writable := rdwr, offset := 0)
  }

  /** The entry after open_creat or open_existing. */
  function OpenedEntry(e: Entry, mode: Mode, newfd: nat, body: BodyOutcome): Entry {
    if mode != ModeCreat then ExistingEntry(e, mode == ModeRdWr, newfd, body)
    else e.(fd := newfd, writable := true, offset := 0, dirty := true)
  }

  /** The state after the body of an open, field by field. */
  lemma BodyShape<Id>(dec: Object -> Option<bytes>, s: State<Id>, h: nat, newfd: nat, body: BodyOutcome)
    requires Enabled(dec, s, OpenBody(h, newfd, body))
    ensures var hd := s.handles[h];
            var p, e, mode := hd.path, s.mem[hd.pe], hd.access.mode;
            var fetches, content := mode != ModeCreat && e.fd < 0, FetchedContent(dec, s.store, p, body);
            var ok := if mode == ModeCreat then body == Done else !fetches || !body.Broken?;
            AfterBody(dec, s, h, newfd, body) ==
            State(s.hash, s.mem[hd.pe := if ok then OpenedEntry(e, mode, newfd, body).(ondisk := Local) else e],
                  if mode == ModeCreat then (if ok then s.cache[p := []] else s.cache)
                  else if !fetches then s.cache
                  else if content.Some? then s.cache[p := content.value] else s.cache - {p},
                  s.store, s.handles[h := hd.(phase := if ok then Opened else Failed)], s.pending,
                  if fetches && body.Raw? then s.stale + {p} else s.stale,
                  if mode == ModeCreat && ok then s.lost - {p}
                  else if fetches && body.Raw? then s.lost + {p} else s.lost)
  {
    var hd := s.handles[h];
    assert s.mem[hd.pe := s.mem[hd.pe]] == s.mem;
  }

  // ----- The invariant -----

  /** The open or release has started and has not finished. */
  predicate InUse(phase: Phase) {
    phase == Waiting || phase == Granted || phase == Opened || phase == Failed || phase == Uploading
    || phase == Seeking
  }

  predicate Counted(phase: Phase) {
    phase == Waiting || phase == Granted || phase == Opened || phase == Failed
  }

  /** Past the lock and not unlocked yet; a failed writer and an unbalanced close stay so for ever. */
  predicate Holds<Id>(h: Handle<Id>) {
    h.access.Locks() &&
    (h.phase == Granted || h.phase == Opened || h.phase == Failed || h.phase == Uploading
     || h.phase == Seeking || (h.phase == Closed && !h.access.unlocks))
  }

  function CountedHandles<Id(==)>(handles: map<nat, Handle<Id>>, id: Id): set<nat> {
    set h | h in handles && handles[h].pe == id && Counted(handles[h].phase)
  }

  /** The hash table and the live entries are in one-to-one correspondence. */
  ghost predicate TableInv<Id>(hash: map<Path, Id>, mem: map<Id, Entry>) {
    && (forall p :: p in hash ==> hash[p] in mem)
    && (forall id :: id in mem ==> exists p :: p in hash && hash[p] == id)
    && (forall p, q :: p in hash && q in hash && hash[p] == hash[q] ==> p == q)
  }

  /** A handle in use, or that has the lock, names a live entry that the table finds under its path. */
  ghost predicate HandleOk<Id>(hash: map<Path, Id>, mem: map<Id, Entry>, h: Handle<Id>) {
    && (InUse(h.phase) || Holds(h) ==> h.path in hash && hash[h.path] == h.pe && h.pe in mem)
    && (h.phase == Opened || h.phase == Uploading || h.phase == Seeking ==> h.pe in mem && mem[h.pe].fd >= 0)
    && (h.phase == Uploading || h.phase == Seeking ==> h.access.unlocks)
    && (h.phase == Waiting ==> h.access.Locks())
    && (h.access.writes ==> h.access.unlocks)
    && (h.access.unlocks ==> h.access.Locks())
  }

  ghost predicate HandleInv<Id>(hash: map<Path, Id>, mem: map<Id, Entry>, handles: map<nat, Handle<Id>>) {
    forall h :: h in handles ==> HandleOk(hash, mem, handles[h])
  }

  /** The semaphore is the number of opens begun and not yet released. */
  ghost predicate CountInv<Id>(mem: map<Id, Entry>, handles: map<nat, Handle<Id>>) {
    forall id :: id in mem ==> mem[id].refcount == |CountedHandles(handles, id)|
  }

  ghost predicate HeldBy<Id>(handles: map<nat, Handle<Id>>, h: nat, id: Id) {
    h in handles && handles[h].pe == id && Holds(handles[h])
  }

  /** The mutex is taken exactly when one handle has it. */
  ghost predicate LockInv<Id>(mem: map<Id, Entry>, handles: map<nat, Handle<Id>>) {
    && (forall id, h :: id in mem && HeldBy(handles, h, id) ==> mem[id].locked)
    && (forall id :: id in mem && mem[id].locked ==> exists h :: HeldBy(handles, h, id))
    && (forall g, h :: g in handles && HeldBy(handles, h, handles[g].pe) && Holds(handles[g]) ==> g == h)
  }

  /** A LOCAL entry has a descriptor. */
  ghost predicate EntryOk(e: Entry) {
    e.fd >= -1 && (e.ondisk == Local ==> e.fd >= 0)
  }

  /** A descriptor is away from the start of its file only between a send and the seek after it. */
  ghost predicate OffsetInv<Id>(mem: map<Id, Entry>, handles: map<nat, Handle<Id>>) {
    forall id :: id in mem && mem[id].offset != 0 ==> exists h :: Sending(handles, h, id)
  }

  ghost predicate Sending<Id>(handles: map<nat, Handle<Id>>, h: nat, id: Id) {
    h in handles && handles[h].pe == id && handles[h].phase == Seeking && handles[h].access.Locks()
  }

  ghost predicate EntryInv<Id>(mem: map<Id, Entry>) {
    forall id :: id in mem ==> EntryOk(mem[id])
  }

  /** A path in use has a cache file; when nobody holds the entry the file has the bytes of the
      store, unless the path is marked stale. */
  ghost predicate SyncOk<Id>(dec: Object -> Option<bytes>, s: State<Id>, p: Path) {
    Cached(s, p) ==>
      && p in s.cache
      && (!s.mem[s.hash[p]].locked && p !in s.stale ==> Decoded(dec, s, p) == Some(CacheBytes(s, p)))
  }

  ghost predicate SyncInv<Id>(dec: Object -> Option<bytes>, s: State<Id>) {
    forall p :: SyncOk(dec, s, p)
  }

  /** From a successful send to the unlock the store has the bytes of the cache file. */
  ghost predicate SentOk<Id>(dec: Object -> Option<bytes>, s: State<Id>, h: nat) {
    InPhase(s, h, Seeking) && s.handles[h].path !in s.stale ==>
      Decoded(dec, s, s.handles[h].path) == Some(CacheBytes(s, s.handles[h].path))
  }

  ghost predicate SentInv<Id>(dec: Object -> Option<bytes>, s: State<Id>) {
    forall h :: SentOk(dec, s, h)
  }

  ghost predicate Inv<Id>(dec: Object -> Option<bytes>, s: State<Id>) {
    && TableInv(s.hash, s.mem)
    && HandleInv(s.hash, s.mem, s.handles)
    && CountInv(s.mem, s.handles)
    && LockInv(s.mem, s.handles)
    && EntryInv(s.mem)
    && OffsetInv(s.mem, s.handles)
    && SyncInv(dec, s)
    && SentInv(dec, s)
  }
}
