/** The whole program on the heap: the operations of Dropletfs.Cache with the transfers they make,
    in any order and number. What is done is recorded as a run of CacheProtocol, so that what is
    proved of runs holds of the heap. */
module Mount {
  import opened Basics
  import opened OpenFlags
  import Codec
  import FileIO
  import opened Text
  import Transfer
  import opened CacheProtocol
  import CacheInvariant
  import opened CacheEntries
  import opened CacheRefinement
  import opened CacheRuns
  import GcPass
  import Dropletfs

  /** One atomic piece of an operation, with what the system answers during it. */
  datatype Request =
    | Open(h: nat, path: Path, flags: bv32)
    | Lock(h: nat, refused: bool)
    | Body(h: nat, newfd: nat, failed: bool, down: Transfer.DownloadEnv)
    | Create(h: nat, exclude: bool, stFails: bool, made: Option<Object>, mknodFails: bool)
    | Write(h: nat, offset: nat, data: bytes)
    | Close(h: nat)
    | Send(h: nat, up: Transfer.UploadEnv, left: Option<Object>)
    | Finish(h: nat)
    | Collect(path: Path, clock: GcPass.Clock)
    | Stat(g: nat, path: Path)
    | StatEnd(g: nat, found: bool)

  /** Writes make progress, and fileno(3) gives -1 or a descriptor. */
  ghost predicate Sane(r: Request) {
    && (r.Body? ==> exists rank: nat -> nat :: FileIO.Progress(r.down.answers, rank))
    && (r.Send? ==> r.up.fileno >= -1)
  }

  // ----- What a request asks for -----

  predicate CreateFits<Id(==)>(s: State<Id>, h: nat) {
    (InPhase(s, h, Opened) || InPhase(s, h, Failed)) && Points(s, h) && s.handles[h].access.Locks()
  }

  predicate WriteFits<Id(==)>(s: State<Id>, h: nat) {
    InPhase(s, h, Opened) && Points(s, h) && s.handles[h].access.writes && s.mem[s.handles[h].pe].writable
  }

  predicate SendFits<Id(==)>(s: State<Id>, h: nat) {
    InPhase(s, h, Uploading) && Points(s, h) && !s.mem[s.handles[h].pe].exclude
  }

  predicate FinishFits<Id(==)>(s: State<Id>, h: nat) {
    InPhase(s, h, Seeking) || (InPhase(s, h, Uploading) && Points(s, h) && s.mem[s.handles[h].pe].exclude)
  }

  /** The request fits the state of its handle, its path or its getattr, so that it is served. */
  predicate Fits<Id(==)>(r: Request, s: State<Id>) {
    match r
    case Open(h, _, _) => h !in s.handles
    case Lock(h, refused) => InPhase(s, h, Waiting) && Points(s, h) && (refused || !s.mem[s.handles[h].pe].locked)
    case Body(h, _, _, _) => InPhase(s, h, Granted) && Points(s, h)
    case Create(h, _, _, _, _) => CreateFits(s, h)
    case Write(h, _, _) => WriteFits(s, h)
    case Close(h) => InPhase(s, h, Opened)
    case Send(h, _, _) => SendFits(s, h)
    case Finish(h) => FinishFits(s, h)
    case Collect(path, _) => path in s.hash
    case Stat(g, _) => g !in s.pending
    case StatEnd(g, _) => g in s.pending && s.pending[g] in s.mem
  }

  /** What the body of an open gets: the new file unless that fails, the descriptor there is, or a
      download, which is good when every call of it is, and leaves the payload only when rename(2)
      fails. */
  ghost predicate Gets(dec: Object -> Option<bytes>, mode: Mode, fetches: bool, obj: Option<Object>, newfd: nat,
                       failed: bool, down: Transfer.DownloadEnv, fd: nat, body: BodyOutcome) {
    if mode == ModeCreat then fd == newfd && body == if failed then Broken(None) else Done
    else if !fetches then fd == newfd && body == Done
    else
      && (!body.Broken? ==> fd == down.newfd)
      && (body.Done? ==> obj.Some? && dec(obj.value).Some?)
      && (body.Raw? ==> !down.renameOk)
      && (obj.Some? && dec(obj.value).Some? && Transfer.AllWell(down) ==> body.Done?)
  }

  /** What an upload sends: the file, when every call of the send is answered well and the temporary
      file has another descriptor than 0; what a failed one leaves, or the file plain under the tag. */
  ghost predicate Sends(compression: string, content: bytes, up: Transfer.UploadEnv, left: Option<Object>,
                        upload: UploadOutcome) {
    match upload
    case Sent(obj, _) =>
      && up.openwriteOk && up.closeOk && (obj.compression.None? ==> obj.payload == content)
      && (!StartsWithNoCase(compression, "zlib") ==> obj == Object(content, None))
      && (StartsWithNoCase(compression, "zlib") && up.tmpOpens && Transfer.Compresses(up) ==>
           obj.compression == Some("zlib"))
    case Unsent(lost, _) =>
      || (!Transfer.Sends(up) && lost == left)
      || (up.fileno == 0 && lost == Some(Object(content, Some("zlib"))))
  }

  ghost predicate BodyServes<Id>(dec: Object -> Option<bytes>, s: State<Id>, h: nat, newfd: nat, failed: bool,
                                 down: Transfer.DownloadEnv, e: Event<Id>)
    requires h in s.handles && Points(s, h)
  {
    var hd := s.handles[h];
    && e.OpenBody? && e.h == h
    && Gets(dec, hd.access.mode, s.mem[hd.pe].fd < 0, Lookup(s.store, hd.path), newfd, failed, down, e.newfd, e.body)
  }

  function CreateStep<Id(==)>(s: State<Id>, h: nat, exclude: bool, stFails: bool, made: Option<Object>,
                         mknodFails: bool): Event<Id>
    requires h in s.handles && Points(s, h)
  {
    var goes := s.mem[s.handles[h].pe].fd != -1 && !stFails;
    CreateEnd(h, exclude, goes && (exclude || !mknodFails), if goes && !exclude then made else None)
  }

  ghost predicate SendServes<Id>(compression: string, s: State<Id>, h: nat, up: Transfer.UploadEnv,
                                 left: Option<Object>, e: Event<Id>)
    requires h in s.handles
  {
    e.ReleaseSend? && e.h == h && Sends(compression, CacheBytes(s, s.handles[h].path), up, left, e.upload)
  }

  /** The step that serves the request. */
  ghost predicate Serves<Id>(dec: Object -> Option<bytes>, compression: string, r: Request, s: State<Id>, e: Event<Id>)
    requires Fits(r, s)
  {
    match r
    case Open(h, path, flags) => e.OpenBegin? && e == OpenBegin(h, path, flags, e.addr)
    case Lock(h, refused) => e == if refused then LockRefused(h) else LockGranted(h)
    case Body(h, newfd, failed, down) => BodyServes(dec, s, h, newfd, failed, down, e)
    case Create(h, exclude, stFails, made, mknodFails) => e == CreateStep(s, h, exclude, stFails, made, mknodFails)
    case Write(h, offset, data) => e == CacheProtocol.Write(h, offset, data)
    case Close(h) => e == ReleaseBegin(h)
    case Send(h, up, left) => SendServes(compression, s, h, up, left, e)
    case Finish(h) => e == ReleaseEnd(h)
    case Collect(path, clock) => e == GcVisit(path, clock.st(path), clock.now, clock.threshold)
    case Stat(g, path) => e.GetattrBegin? && e == GetattrBegin(g, path, e.addr)
    case StatEnd(g, found) => e == GetattrEnd(g, found)
  }

  /** The body of the open ends well: the file was made, the entry had a descriptor or the fetch got one. */
  predicate EndsWell<Id(==)>(s: State<Id>, h: nat, body: BodyOutcome) {
    h in s.handles && Points(s, h) &&
    if s.handles[h].access.mode == ModeCreat then body == Done
    else s.mem[s.handles[h].pe].fd >= 0 || !body.Broken?
  }

  /** What the caller is answered: 0 or -1 by how the step ends, and for a write the number of bytes, or
      -EBADF when nothing is written. */
  ghost predicate Replies<Id>(r: Request, s: State<Id>, x: Option<Event<Id>>, ret: int) {
    match x
    case None => ret == if r.Write? then -9 else -1
    case Some(OpenBody(h, _, body)) => ret == if EndsWell(s, h, body) then 0 else -1
    case Some(CreateEnd(_, _, goesOn, _)) => ret == if goesOn then 0 else -1
    case Some(Write(_, _, data)) => ret == |data|
    case Some(ReleaseSend(_, upload)) =>
      r.Send? ==> (Transfer.Sends(r.up) ==> ret == 0) && (ret != 0 ==> upload.Unsent? && upload.left == r.left)
    case Some(LockRefused(_)) => ret == -1
    case Some(_) => ret == 0
  }

  /** From `s` on, the request has been served by the step `x`, or by none when it does not fit, and the
      caller has been answered `ret`. */
  ghost predicate Answered<Id>(dec: Object -> Option<bytes>, compression: string, r: Request, s: State<Id>,
                               x: Option<Event<Id>>, ret: int) {
    && (x.Some? <==> Fits(r, s)) && (x.Some? ==> Serves(dec, compression, r, s, x.value))
    && Replies(r, s, x, ret)
  }

  lemma BodyEnds<Id>(dec: Object -> Option<bytes>, s: State<Id>, h: nat, newfd: nat, body: BodyOutcome)
    requires Enabled(dec, s, OpenBody(h, newfd, body))
    ensures InPhase(AfterBody(dec, s, h, newfd, body), h, Opened) <==> EndsWell(s, h, body)
  {
    BodyShape(dec, s, h, newfd, body);
    hide AfterBody, FetchEnabled, FetchedContent, OpenedEntry;
  }

  function Steps<Id>(served: seq<Option<Event<Id>>>): seq<Event<Id>> {
    if served == [] then []
    else Steps(served[..|served| - 1]) + (match served[|served| - 1] case Some(e) => [e] case None => [])
  }

  lemma StepsMore<Id>(served: seq<Option<Event<Id>>>, x: Option<Event<Id>>)
    ensures Steps(served + [x]) == Steps(served) + (match x case Some(e) => [e] case None => [])
  {
    assert (served + [x])[..|served|] == served;
  }

  /** The run `r` has gone on from `was` by the step `x`, if that is one. */
  ghost predicate Continues<Id>(was: Run<Id>, r: Run<Id>, x: Option<Event<Id>>) {
    && was.states <= r.states
    && r.events == was.events + (match x case Some(e) => [e] case None => [])
  }

  /** The run from its `start`-th state on serves the requests one after the other. */
  ghost predicate Follows<Id>(dec: Object -> Option<bytes>, compression: string, r: Run<Id>, start: nat,
                              requests: seq<Request>, served: seq<Option<Event<Id>>>, answers: seq<int>)
    requires |served| == |answers| <= |requests|
  {
    forall i :: 0 <= i < |served| ==> FollowsAt(dec, compression, r, start, requests[i], served, i, answers[i])
  }

  ghost predicate FollowsAt<Id>(dec: Object -> Option<bytes>, compression: string, r: Run<Id>, start: nat,
                                request: Request, served: seq<Option<Event<Id>>>, i: int, ret: int)
    requires 0 <= i < |served|
  {
    var at := start + |Steps(served[..i])|;
    at < |r.states| && Answered(dec, compression, request, r.states[at], served[i], ret)
  }

  lemma FollowsLater<Id>(dec: Object -> Option<bytes>, compression: string, was: Run<Id>, r: Run<Id>, start: nat,
                         request: Request, served: seq<Option<Event<Id>>>, x: Option<Event<Id>>, i: nat, ret: int)
    requires i < |served| && was.states <= r.states && FollowsAt(dec, compression, was, start, request, served, i, ret)
    ensures FollowsAt(dec, compression, r, start, request, served + [x], i, ret)
  {
    hide Answered, Steps;
    assert (served + [x])[..i] == served[..i];
  }

  lemma FollowsMore<Id>(dec: Object -> Option<bytes>, compression: string, was: Run<Id>, r: Run<Id>, start: nat,
                        requests: seq<Request>, served: seq<Option<Event<Id>>>, answers: seq<int>,
                        x: Option<Event<Id>>, ret: int)
    requires |served| == |answers| < |requests|
    requires Follows(dec, compression, was, start, requests, served, answers) && Continues(was, r, x)
    requires |was.states| == |was.events| + 1 && |was.events| == start + |Steps(served)|
    requires Answered(dec, compression, requests[|served|], was.states[|was.events|], x, ret)
    ensures Follows(dec, compression, r, start, requests, served + [x], answers + [ret])
  {
    hide Answered, Steps;
    var more, told := served + [x], answers + [ret];
    assert more[..|served|] == served;
    forall i | 0 <= i < |served| ensures FollowsAt(dec, compression, r, start, requests[i], more, i, told[i])
    {
      FollowsLater(dec, compression, was, r, start, requests[i], served, x, i, answers[i]);
    }
    assert FollowsAt(dec, compression, r, start, requests[|served|], more, |served|, ret);
  }

  // ----- Requests without a fault -----

  /** Uploads and renames go well, and no path is excluded. */
  ghost predicate Faultless(r: Request) {
    && (r.Body? ==> r.down.renameOk)
    && (r.Send? ==> Transfer.Sends(r.up) && r.up.fileno != 0)
    && (r.Create? ==> !r.exclude)
  }

  ghost predicate CleanStep<Id>(s: State<Id>, e: Event<Id>) {
    FaultFree(s, e) && (e.CreateEnd? ==> !e.exclude)
  }

  ghost predicate Clean<Id>(r: Run<Id>) {
    |r.states| == |r.events| + 1 && forall i :: 0 <= i < |r.events| ==> CleanStep(r.states[i], r.events[i])
  }

  lemma {:induction false} CleanExcludesNothing<Id>(dec: Object -> Option<bytes>, r: Run<Id>, n: nat)
    requires IsRun(dec, r) && Clean(r) && n <= |r.events|
    ensures NothingExcluded(r.states[n])
  {
    hide FaultFree, NothingExcluded;
    if n == 0 {
      InitExcludesNothing<Id>(r.states[0].store);
    } else {
      CleanExcludesNothing(dec, r, n - 1);
      StepOf(dec, r, n - 1);
      assert CleanStep(r.states[n - 1], r.events[n - 1]);
      StaysUnexcluded(dec, r.states[n - 1], r.events[n - 1]);
    }
  }

  lemma InitExcludesNothing<Id>(store: map<Path, Object>)
    ensures NothingExcluded(Init<Id>(store))
  {
  }

  /** The step that serves such a request is free of faults. */
  lemma FaultlessStep<Id>(dec: Object -> Option<bytes>, compression: string, r: Request, s: State<Id>, e: Event<Id>)
    requires Faultless(r) && Fits(r, s) && Serves(dec, compression, r, s, e) && NothingExcluded(s)
    ensures CleanStep(s, e)
  {
    hide Transfer.Sends, Transfer.Compresses, CreateFits, WriteFits;
  }

  lemma CleanMore<Id>(dec: Object -> Option<bytes>, compression: string, was: Run<Id>, r: Run<Id>, request: Request,
                      x: Option<Event<Id>>, ret: int)
    requires IsRun(dec, was) && IsRun(dec, r) && Clean(was) && Continues(was, r, x) && Faultless(request)
    requires Answered(dec, compression, request, was.states[|was.events|], x, ret)
    ensures Clean(r)
  {
    hide Replies, CleanStep, Faultless, Fits, Serves, NothingExcluded, FaultFree;
    CleanExcludesNothing(dec, was, |was.events|);
    if x.Some? { FaultlessStep(dec, compression, request, was.states[|was.events|], x.value); }
    forall i | 0 <= i < |r.events| ensures CleanStep(r.states[i], r.events[i])
    {
      if i < |was.events| {
        assert CleanStep(was.states[i], was.events[i]) && r.states[i] == was.states[i] && r.events[i] == was.events[i];
      } else {
        assert r.states[i] == was.states[i];
      }
    }
  }

  ghost function Extended<Id>(dec: Object -> Option<bytes>, r: Run<Id>, e: Event<Id>): (x: Run<Id>)
    requires IsRun(dec, r) && Enabled(dec, r.states[|r.events|], e)
    ensures IsRun(dec, x) && x.events == r.events + [e] && x.states == r.states + [Next(dec, r.states[|r.events|], e)]
  {
    hide Enabled, Next;
    Run(r.states + [Next(dec, r.states[|r.events|], e)], r.events + [e])
  }

  lemma CleanRefines<Id>(dec: Object -> Option<bytes>, r: Run<Id>)
    requires IsRun(dec, r) && Clean(r)
    ensures forall p :: View(dec, r.states[|r.events|], p) == Lookup(PlainAt(dec, r, |r.events|), p)
  {
    forall i | 0 <= i < |r.events| ensures FaultFree(r.states[i], r.events[i])
    {
      assert CleanStep(r.states[i], r.events[i]);
    }
    hide FaultFree, IsRun, View;
    forall p ensures View(dec, r.states[|r.events|], p) == Lookup(PlainAt(dec, r, |r.events|), p)
    {
      FaultFreeRefines(dec, r, |r.events|, p);
    }
  }

  class Mount<D(!new), I(!new)> {
    const c: Codec.Codec<D, I>
    const compression: string
    const split: bytes -> seq<bytes>  // how the store cuts a payload into pieces
    const cache: Dropletfs.Cache
    ghost const dec: Object -> Option<bytes>
    ghost var run: Run<Dropletfs.Pentry>

    /** What the program is given: a codec, which decodes the objects, and a store that keeps payloads. */
    ghost predicate Given() {
      Codec.Valid(c) && (forall o :: dec(o) == Transfer.Decode(c, o)) && (forall x :: FileIO.Concat(split(x)) == x)
    }

    ghost predicate Valid()
      reads this, cache, cache.hash.Values
    {
      && Given() && IsRun(dec, run) && run.states[|run.events|] == cache.Abs()
    }

    constructor (c: Codec.Codec<D, I>, compression: string, split: bytes -> seq<bytes>, objects: map<Path, Object>)
      requires Codec.Valid(c) && forall x :: FileIO.Concat(split(x)) == x
      ensures Valid() && run.events == [] && Clean(run) && cache.store == objects && fresh(cache) && cache.hash == map[]
    {
      this.c, this.compression, this.split := c, compression, split;
      cache := new Dropletfs.Cache(objects);
      dec := o => Transfer.Decode(c, o);
      run := Run([Init(objects)], []);
    }

    /** The entries are the old ones and new ones. */
    twostate predicate Grown()
      reads this, cache
    {
      forall pe :: pe in cache.hash.Values ==> pe in old(cache.hash.Values) || fresh(pe)
    }

    /** The heap made the step `e`. */
    ghost method Record(s: State<Dropletfs.Pentry>, e: Event<Dropletfs.Pentry>)
      requires Given() && IsRun(dec, run) && run.states[|run.events|] == s
      requires Enabled(dec, s, e) && cache.Abs() == Next(dec, s, e)
      modifies this`run
      ensures Valid() && run == Extended(dec, old(run), e) && Continues(old(run), run, Some(e))
    {
      hide Enabled, Next, Given;
      run := Extended(dec, run, e);
    }

    /** What every run says of the entry of a handle in use. */
    lemma Alive(h: nat)
      requires Valid() && h in cache.handles && InUse(cache.handles[h].phase)
      ensures var hd := cache.handles[h];
              && hd.pe in cache.hash.Values && hd.path in cache.hash && cache.hash[hd.path] == hd.pe
              && cache.Abs().mem[hd.pe] == hd.pe.Snapshot()
              && HandleOk(cache.Abs().hash, cache.Abs().mem, hd) && SyncOk(dec, cache.Abs(), hd.path)
              && (Counted(hd.phase) ==> hd.pe.refcount > 0)
              && (Holds(hd) && hd.phase != Seeking ==> hd.pe.offset == 0)
    {
      var s := cache.Abs();
      RunInv(dec, run, |run.events|);
      CacheInvariant.HandleAt(dec, s, h);
      assert Counted(s.handles[h].phase) ==> h in CountedHandles(s.handles, s.handles[h].pe);
    }

    /** dfs_open up to its lock. */
    method Open(h: nat, path: Path, flags: bv32) returns (ret: int, ghost x: Option<Event<Dropletfs.Pentry>>)
      requires Valid()
      modifies this`run, cache, cache.hash.Values
      ensures Valid() && Grown() && Continues(old(run), run, x)
      ensures x.Some? <==> h !in old(cache.Abs()).handles
      ensures x.Some? ==> x.value.OpenBegin? && x.value == OpenBegin(h, path, flags, x.value.addr)
      ensures ret == if x.Some? then 0 else -1
    {
      hide IsRun, Given, AfterOpenBegin;
      if h in cache.handles {
        return -1, None;
      }
      ghost var s := cache.Abs();
      var pe := cache.OpenBegin(h, path, flags);
      ret := 0;
      x := Some(OpenBegin(h, path, flags, pe));
      Record(s, x.value);
    }

    method Lock(h: nat, refused: bool) returns (ret: int, ghost x: Option<Event<Dropletfs.Pentry>>)
      requires Valid()
      modifies this`run, cache, cache.hash.Values
      ensures Valid() && Grown() && Continues(old(run), run, x)
      ensures var s := old(cache.Abs());
              x == if InPhase(s, h, Waiting) && Points(s, h) && (refused || !s.mem[s.handles[h].pe].locked)
                   then Some(if refused then LockRefused(h) else LockGranted(h)) else None
      ensures ret == if x.Some? && !refused then 0 else -1
    {
      hide IsRun, Given, AfterDrop, AfterLock, HandleOk, SyncOk;
      if h !in cache.handles || cache.handles[h].phase != Waiting {
        return -1, None;
      }
      Alive(h);
      if !refused && cache.handles[h].pe.locked {
        return -1, None;
      }
      ghost var s := cache.Abs();
      cache.OpenLock(h, refused);
      ret := if refused then -1 else 0;
      x := Some(if refused then LockRefused(h) else LockGranted(h));
      Record(s, x.value);
    }

    /** The body of an open, with the download it makes if the entry has no descriptor. It answers 0
        exactly when the handle is open then. */
    method Body(h: nat, newfd: nat, failed: bool, down: Transfer.DownloadEnv)
      returns (ret: int, ghost x: Option<Event<Dropletfs.Pentry>>)
      requires Valid() && exists rank: nat -> nat :: FileIO.Progress(down.answers, rank)
      modifies this`run, cache, cache.hash.Values
      ensures Valid() && Grown() && Continues(old(run), run, x)
      ensures var s := old(cache.Abs());
              && (x.Some? <==> InPhase(s, h, Granted) && Points(s, h))
              && (x.Some? ==> BodyServes(dec, s, h, newfd, failed, down, x.value))
      ensures x.Some? ==> x.value.OpenBody? && x.value.h == h
      ensures x.Some? ==> ret == if InPhase(cache.Abs(), h, Opened) then 0 else -1
      ensures ret == if x.Some? && EndsWell(old(cache.Abs()), h, x.value.body) then 0 else -1
    {
      hide IsRun, Given, AfterBody, HandleOk, SyncOk;
      if h !in cache.handles || cache.handles[h].phase != Granted {
        return -1, None;
      }
      Alive(h);
      var hd := cache.handles[h];
      var fd, outcome, content := Fetch(hd, newfd, failed, down);
      ghost var s := cache.Abs();
      BodyEnds(dec, s, h, fd, outcome);
      ret := cache.OpenBody(dec, h, fd, outcome, content);
      x := Some(OpenBody(h, fd, outcome));
      Record(s, x.value);
    }

    /** What dfs_open gets for its body: the new file, the descriptor there is, or a download. */
    method Fetch(hd: Handle<Dropletfs.Pentry>, newfd: nat, failed: bool, down: Transfer.DownloadEnv)
      returns (fd: nat, body: BodyOutcome, content: Option<bytes>)
      requires Valid() && exists rank: nat -> nat :: FileIO.Progress(down.answers, rank)
      ensures var fetches := hd.access.mode != ModeCreat && hd.pe.fd < 0;
              && Gets(dec, hd.access.mode, hd.pe.fd < 0, Lookup(cache.store, hd.path), newfd, failed, down, fd, body)
              && (fetches ==> FetchEnabled(dec, cache.Abs(), hd.path, body)
                              && content == FetchedContent(dec, cache.store, hd.path, body))
    {
      fd, content := newfd, None;
      if hd.access.mode == ModeCreat {
        body := if failed then Broken(None) else Done;
        return;
      }
      if hd.pe.fd >= 0 {
        body := Done;
        return;
      }
      content := Lookup(cache.cache, hd.path);
      if hd.path !in cache.store {
        body := Broken(content);
        return;
      }
      fd, body, content := Obtain(cache.store[hd.path], content, newfd, down);
    }

    /** The download, its outcome and the cache file it leaves. */
    method Obtain(obj: Object, before: Option<bytes>, newfd: nat, down: Transfer.DownloadEnv)
      returns (fd: nat, body: BodyOutcome, content: Option<bytes>)
      requires Given() && exists rank: nat -> nat :: FileIO.Progress(down.answers, rank)
      ensures !body.Broken? ==> fd == down.newfd
      ensures body.Done? ==> dec(obj).Some? && content == dec(obj)
      ensures body.Raw? ==> !down.renameOk && content == Some(obj.payload)
      ensures body.Broken? ==> body == Broken(content)
      ensures dec(obj).Some? && Transfer.AllWell(down) ==> body.Done?
    {
      hide Transfer.AllWell, Transfer.Decode, Transfer.Unzips, Codec.Valid, FileIO.Progress, FileIO.Concat;
      ghost var rank :| FileIO.Progress(down.answers, rank);
      var env := down.(chunks := split(obj.payload));
      WellForAnyChunks(down, split(obj.payload));
      var got, raw;
      got, content, raw := Transfer.Download(c, obj, before, env, rank);
      fd := newfd;
      if got < 0 {
        body := Broken(content);
      } else {
        fd := got;
        body := if raw then Raw else Done;
      }
    }

    static lemma WellForAnyChunks(down: Transfer.DownloadEnv, chunks: seq<bytes>)
      ensures Transfer.AllWell(down) ==> Transfer.AllWell(down.(chunks := chunks)) && down.renameOk
    {
    }

    /** dfs_release up to the read-only exit. */
    method Close(h: nat) returns (ret: int, ghost x: Option<Event<Dropletfs.Pentry>>)
      requires Valid()
      modifies this`run, cache, cache.hash.Values
      ensures Valid() && Grown() && Continues(old(run), run, x)
      ensures x == if InPhase(old(cache.Abs()), h, Opened) then Some(ReleaseBegin(h)) else None
      ensures ret == if x.Some? then 0 else -1
    {
      hide IsRun, Given, AfterDrop, SyncOk;
      if h !in cache.handles || cache.handles[h].phase != Opened {
        return -1, None;
      }
      Alive(h);
      ghost var s := cache.Abs();
      cache.ReleaseBegin(h);
      ret := 0;
      x := Some(ReleaseBegin(h));
      Record(s, x.value);
    }

    /** The upload of a release: it is a Sent step when the object stands for the file, and an Unsent
        one when the send failed, or sent the plain file under the tag, as it does when the temporary
        file has descriptor 0. `left` is what a failed send leaves in the store. */
    method Send(h: nat, up: Transfer.UploadEnv, left: Option<Object>)
      returns (ret: int, ghost x: Option<Event<Dropletfs.Pentry>>)
      requires Valid() && up.fileno >= -1
      modifies this`run, cache, cache.hash.Values
      ensures Valid() && Grown() && Continues(old(run), run, x)
      ensures var s := old(cache.Abs());
              && (x.Some? <==> SendFits(s, h))
              && (x.Some? ==> SendServes(compression, s, h, up, left, x.value))
      ensures x.Some? ==>
                (Transfer.Sends(up) ==> ret == 0)
                    && (ret != 0 ==> x.value.upload.Unsent? && x.value.upload.left == left)
      ensures x.Some? && ret == 0 && x.value.upload.Unsent? ==> up.fileno == 0
      ensures if x.None? then ret == -1 else x.value.ReleaseSend? && x.value.h == h
    {
      hide IsRun, Given, HandleOk, SyncOk, SendOk, Sends;
      if h !in cache.handles || cache.handles[h].phase != Uploading {
        return -1, None;
      }
      Alive(h);
      var path, pe := cache.handles[h].path, cache.handles[h].pe;
      if pe.exclude {
        return -1, None;
      }
      var content := if path in cache.cache then cache.cache[path] else [];
      var outcome;
      ret, outcome := Ship(content, pe.offset, up, left);
      x := Some(ReleaseSend(h, outcome));
      Deliver(h, outcome);
    }

    method Deliver(h: nat, upload: UploadOutcome)
      requires Valid() && Enabled(dec, cache.Abs(), ReleaseSend(h, upload)) && cache.handles[h].pe in cache.hash.Values
      modifies this`run, cache, cache.hash.Values
      ensures Valid() && Grown() && Continues(old(run), run, Some(ReleaseSend(h, upload)))
    {
      hide IsRun, Given, AfterSend, SendOk;
      ghost var s := cache.Abs();
      cache.ReleaseSend(h, upload);
      Record(s, ReleaseSend(h, upload));
    }

    method Ship(content: bytes, offset: nat, up: Transfer.UploadEnv, left: Option<Object>)
      returns (ret: int, upload: UploadOutcome)
      requires Valid() && up.fileno >= -1 && offset == 0
      ensures SendOk(dec, offset, content, upload)
      ensures ret != 0 ==> upload.Unsent? && upload.left == left
      ensures ret == 0 && upload.Unsent? ==> up.fileno == 0 && upload.left == Some(Object(content, Some("zlib")))
      ensures ret == 0 && up.fileno != 0 ==> upload.Sent?
      ensures Transfer.Sends(up) ==> ret == 0
      ensures Sends(compression, content, up, left, upload)
    {
      assert content[0..] == content;
      var obj, end;
      ret, obj, end := Transfer.Upload(c, content, offset, compression, up);
      if ret != 0 {
        upload := Unsent(left, end);
      } else if obj.compression.Some? && up.fileno == 0 {
        upload := Unsent(Some(obj), end);
      } else {
        upload := Sent(obj, end);
      }
    }

    /** The seek, the flag and the unlock of a release. */
    method Finish(h: nat) returns (ret: int, ghost x: Option<Event<Dropletfs.Pentry>>)
      requires Valid()
      modifies this`run, cache, cache.hash.Values
      ensures Valid() && Grown() && Continues(old(run), run, x)
      ensures x == if FinishFits(old(cache.Abs()), h) then Some(ReleaseEnd(h)) else None
      ensures ret == if x.Some? then 0 else -1
    {
      hide IsRun, Given, AfterRelease, HandleOk, SyncOk;
      if h !in cache.handles || (cache.handles[h].phase != Seeking && cache.handles[h].phase != Uploading) {
        return -1, None;
      }
      Alive(h);
      if cache.handles[h].phase == Uploading && !cache.handles[h].pe.exclude {
        return -1, None;
      }
      ghost var s := cache.Abs();
      cache.ReleaseEnd(h);
      ret := 0;
      x := Some(ReleaseEnd(h));
      Record(s, x.value);
    }

    /** The end of dfs_create. */
    method Create(h: nat, exclude: bool, stFails: bool, made: Option<Object>, mknodFails: bool)
      returns (ret: int, ghost x: Option<Event<Dropletfs.Pentry>>)
      requires Valid()
      modifies this`run, cache, cache.hash.Values
      ensures Valid() && Grown() && Continues(old(run), run, x)
      ensures var s := old(cache.Abs());
              x == if CreateFits(s, h) then Some(CreateStep(s, h, exclude, stFails, made, mknodFails)) else None
      ensures x.None? ==> ret == -1 && cache.store == old(cache.store)
      ensures x.Some? ==>
                && x.value.CreateEnd? && x.value.h == h && ret == (if x.value.goesOn then 0 else -1)
                && var had := old(cache.handles[h].pe.fd) >= 0;
                && (ret == 0 <==> had && !stFails && (exclude || !mknodFails))
                && cache.store == (if had && !exclude && !stFails && made.Some?
                                   then old(cache.store)[old(cache.handles[h]).path := made.value]
                                   else old(cache.store))
    {
      hide IsRun, Given, HandleOk, SyncOk, CreateStep;
      if h !in cache.handles || (cache.handles[h].phase != Opened && cache.handles[h].phase != Failed)
         || !cache.handles[h].access.Locks() {
        return -1, None;
      }
      Alive(h);
      EntryAt(cache.handles[h].pe);
      ghost var e;
      ret, e := Make(h, exclude, stFails, made, mknodFails);
      x := Some(e);
    }

    /** The create that fits: its step, its answer and the object it leaves in the store. */
    method Make(h: nat, exclude: bool, stFails: bool, made: Option<Object>, mknodFails: bool)
      returns (ret: int, ghost e: Event<Dropletfs.Pentry>)
      requires Valid() && CreateFits(cache.Abs(), h)
      requires cache.handles[h].pe in cache.hash.Values && EntryOk(cache.handles[h].pe.Snapshot())
      modifies this`run, cache, cache.handles[h].pe
      ensures Valid() && Grown() && Continues(old(run), run, Some(e))
      ensures e == CreateStep(old(cache.Abs()), h, exclude, stFails, made, mknodFails)
      ensures e.CreateEnd? && e.h == h && ret == if e.goesOn then 0 else -1
      ensures var had := old(cache.handles[h].pe.fd) >= 0;
              && cache.store == (if had && !exclude && !stFails && made.Some?
                                 then old(cache.store)[old(cache.handles[h]).path := made.value] else old(cache.store))
              && (ret == 0 <==> had && !stFails && (exclude || !mknodFails))
    {
      hide IsRun, Given, AfterCreateEnd;
      ghost var s := cache.Abs();
      ghost var fd := cache.handles[h].pe.fd;
      ret := cache.CreateEnd(h, exclude, stFails, made, mknodFails);
      e := CreateEnd(h, exclude, ret == 0, if fd != -1 && !stFails && !exclude then made else None);
      Record(s, e);
    }

    lemma EntryAt(pe: Dropletfs.Pentry)
      requires Valid() && pe in cache.hash.Values
      ensures EntryOk(pe.Snapshot())
    {
      RunInv(dec, run, |run.events|);
      assert cache.Abs().mem[pe] == pe.Snapshot();
    }

    /** A write, with the answer of dfs_write; one that fails is no step. */
    method Write(h: nat, offset: nat, data: bytes) returns (ret: int, ghost x: Option<Event<Dropletfs.Pentry>>)
      requires Valid()
      modifies this`run, cache, cache.hash.Values
      ensures Valid() && Grown() && Continues(old(run), run, x)
      ensures x == if WriteFits(old(cache.Abs()), h) then Some(CacheProtocol.Write(h, offset, data)) else None
      ensures ret == if x.Some? then |data| else -9
    {
      hide IsRun, Given, SyncOk, PWrite;
      ret := -Dropletfs.EBADF;
      if h !in cache.handles || cache.handles[h].phase != Opened || !cache.handles[h].access.writes {
        return ret, None;
      }
      Alive(h);
      ghost var s := cache.Abs();
      ret := cache.Write(h, offset, data);
      if !cache.handles[h].pe.writable {
        return ret, None;
      }
      x := Some(CacheProtocol.Write(h, offset, data));
      Record(s, x.value);
    }

    /** A read gives what the plain file map of the run has there, unless the path is lost. */
    method Read(h: nat, offset: nat, size: nat) returns (ret: int, buf: bytes)
      requires Valid() && InPhase(cache.Abs(), h, Opened) && cache.handles[h].path !in cache.lost
      ensures var m := PlainAt(dec, run, |run.events|);
              cache.handles[h].path in m && ret == |buf| && buf == PRead(m[cache.handles[h].path], offset, size)
    {
      hide IsRun, Given, PRead;
      Alive(h);
      ReadsThePlainFile(dec, run, |run.events|, h, offset, size);
      PReadBytes(CacheBytes(cache.Abs(), cache.handles[h].path), offset, size);
      ret, buf := cache.Read(h, offset, size);
    }

    /** One visit of the collector. */
    method Collect(path: Path, clock: GcPass.Clock) returns (ret: int, ghost x: Option<Event<Dropletfs.Pentry>>)
      requires Valid()
      modifies this`run, cache, cache.hash.Values
      ensures Valid() && Grown() && Continues(old(run), run, x)
      ensures x == if path in old(cache.hash) then Some(GcVisit(path, clock.st(path), clock.now, clock.threshold))
                else None
      ensures ret == if x.Some? then 0 else -1
    {
      hide IsRun, Given, AfterCollect, HandleInv, CountInv, LockInv, SyncInv, SentInv, OffsetInv, TooOld;
      if path !in cache.hash {
        return -1, None;
      }
      RunInv(dec, run, |run.events|);
      ghost var s := cache.Abs();
      cache.GcCallback(path, clock);
      ret := 0;
      x := Some(GcVisit(path, clock.st(path), clock.now, clock.threshold));
      Record(s, x.value);
    }

    method Stat(g: nat, path: Path) returns (ret: int, ghost x: Option<Event<Dropletfs.Pentry>>)
      requires Valid()
      modifies this`run, cache, cache.hash.Values
      ensures Valid() && Grown() && Continues(old(run), run, x)
      ensures x.Some? <==> g !in old(cache.pending)
      ensures x.Some? ==> x.value.GetattrBegin? && x.value == GetattrBegin(g, path, x.value.addr)
      ensures ret == if x.Some? then 0 else -1
    {
      hide IsRun, Given, AfterGetattrBegin;
      if g in cache.pending {
        return -1, None;
      }
      ghost var s := cache.Abs();
      var pe := cache.GetattrBegin(g, path);
      ret := 0;
      x := Some(GetattrBegin(g, path, pe));
      Record(s, x.value);
    }

    /** The end of a getattr, if its entry is still there. */
    method StatEnd(g: nat, found: bool) returns (ret: int, ghost x: Option<Event<Dropletfs.Pentry>>)
      requires Valid()
      modifies this`run, cache, cache.hash.Values
      ensures Valid() && Grown() && Continues(old(run), run, x)
      ensures x == if old(g in cache.pending && cache.pending[g] in cache.Abs().mem) then Some(GetattrEnd(g, found))
                else None
      ensures ret == if x.Some? then 0 else -1
    {
      hide IsRun, Given, AfterGetattrEnd;
      if g !in cache.pending || cache.pending[g] !in cache.hash.Values {
        return -1, None;
      }
      ghost var s := cache.Abs();
      cache.GetattrEnd(g, found);
      ret := 0;
      x := Some(GetattrEnd(g, found));
      Record(s, x.value);
    }

    /** Serves the request, if it fits, and answers. */
    method Serve(r: Request) returns (ret: int, ghost x: Option<Event<Dropletfs.Pentry>>)
      requires Valid() && Sane(r)
      modifies this`run, cache, cache.hash.Values
      ensures Valid() && Grown() && Continues(old(run), run, x)
      ensures Answered(dec, compression, r, old(cache.Abs()), x, ret)
    {
      hide IsRun, Given, Continues, Answered;
      if r.Open? || r.Lock? || r.Body? || r.Create? {
        ret, x := ServeOpen(r);
      } else if r.Collect? || r.Stat? || r.StatEnd? {
        ret, x := ServePath(r);
      } else {
        ret, x := ServeUse(r);
      }
    }

    method ServeOpen(r: Request) returns (ret: int, ghost x: Option<Event<Dropletfs.Pentry>>)
      requires Valid() && Sane(r) && (r.Open? || r.Lock? || r.Body? || r.Create?)
      modifies this`run, cache, cache.hash.Values
      ensures Valid() && Grown() && Continues(old(run), run, x)
      ensures Answered(dec, compression, r, old(cache.Abs()), x, ret)
    {
      hide IsRun, Given, Continues, BodyServes, CreateStep, CreateFits, InPhase, EndsWell;
      match r
      case Open(h, path, flags) => ret, x := Open(h, path, flags);
      case Lock(h, refused) => ret, x := Lock(h, refused);
      case Body(h, newfd, failed, down) => ret, x := Body(h, newfd, failed, down);
      case Create(h, exclude, stFails, made, mknodFails) => ret, x := Create(h, exclude, stFails, made, mknodFails);
    }

    method ServePath(r: Request) returns (ret: int, ghost x: Option<Event<Dropletfs.Pentry>>)
      requires Valid() && (r.Collect? || r.Stat? || r.StatEnd?)
      modifies this`run, cache, cache.hash.Values
      ensures Valid() && Grown() && Continues(old(run), run, x)
      ensures Answered(dec, compression, r, old(cache.Abs()), x, ret)
    {
      hide IsRun, Given, Continues;
      match r
      case Collect(path, clock) => ret, x := Collect(path, clock);
      case Stat(g, path) => ret, x := Stat(g, path);
      case StatEnd(g, found) => ret, x := StatEnd(g, found);
    }

    method ServeUse(r: Request) returns (ret: int, ghost x: Option<Event<Dropletfs.Pentry>>)
      requires Valid() && Sane(r) && (r.Write? || r.Close? || r.Send? || r.Finish?)
      modifies this`run, cache, cache.hash.Values
      ensures Valid() && Grown() && Continues(old(run), run, x)
      ensures Answered(dec, compression, r, old(cache.Abs()), x, ret)
    {
      hide IsRun, Given, Continues, SendServes, SendFits, FinishFits, WriteFits, InPhase, Transfer.Sends;
      match r
      case Write(h, offset, data) => ret, x := Write(h, offset, data);
      case Close(h) => ret, x := Close(h);
      case Send(h, up, left) => ret, x := Send(h, up, left);
      case Finish(h) => ret, x := Finish(h);
    }

    /** Whatever is asked for, in whatever order: every request that fits is served by its step, the
        steps are a run of the cache, and what a reader of a path gets from the heap is what the plain
        file map of that run has there, unless the path is lost. */
    method Drive(requests: seq<Request>)
      returns (answers: seq<int>, ghost served: seq<Option<Event<Dropletfs.Pentry>>>)
      requires Valid() && forall i :: 0 <= i < |requests| ==> Sane(requests[i])
      modifies this`run, cache, cache.hash.Values
      ensures Valid() && Grown() && |served| == |answers| == |requests|
      ensures run.events == old(run.events) + Steps(served)
      ensures Follows(dec, compression, run, |old(run.events)|, requests, served, answers)
      ensures Agrees(dec, cache.Abs(), PlainAt(dec, run, |run.events|))
      ensures old(Clean(run)) && (forall i :: 0 <= i < |requests| ==> Faultless(requests[i])) ==>
                Clean(run) && forall p :: View(dec, cache.Abs(), p) == Lookup(PlainAt(dec, run, |run.events|), p)
    {
      hide Given, Answered, Follows, Continues, Agrees, Steps, Clean, Faultless, View;
      answers, served := [], [];
      NothingServed(requests);
      for i := 0 to |requests|
        invariant Valid() && Grown() && |served| == |answers| == i
        invariant run.events == old(run.events) + Steps(served)
        invariant Follows(dec, compression, run, |old(run.events)|, requests, served, answers)
        invariant old(Clean(run)) && (forall k :: 0 <= k < i ==> Faultless(requests[k])) ==> Clean(run)
      {
        ghost var was := run;
        var ret;
        ghost var x;
        ret, x := Serve(requests[i]);
        FollowsMore(dec, compression, was, run, |old(run.events)|, requests, served, answers, x, ret);
        if Clean(was) && Faultless(requests[i]) { CleanMore(dec, compression, was, run, requests[i], x, ret); }
        StepsMore(served, x);
        assert run.events == was.events + (match x case Some(e) => [e] case None => []) by { EventsOf(was, run, x); }
        answers, served := answers + [ret], served + [x];
      }
      RunRefines(dec, run, |run.events|);
      if Clean(run) { CleanRefines(dec, run); }
    }

    lemma NothingServed(requests: seq<Request>)
      ensures Steps<Dropletfs.Pentry>([]) == [] && Follows(dec, compression, run, |run.events|, requests, [], [])
    {
    }
  }

  lemma EventsOf<Id>(was: Run<Id>, r: Run<Id>, x: Option<Event<Id>>)
    requires Continues(was, r, x)
    ensures r.events == was.events + (match x case Some(e) => [e] case None => [])
  {
  }
}
