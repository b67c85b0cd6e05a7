/** Runs of the cache that show what its guards are for, and that the conditions of the theorems about
    runs cannot be dropped. */
module CacheExamples {
  import opened Basics
  import opened OpenFlags
  import opened CacheProtocol
  import opened CacheRefinement
  import opened CacheRuns

  /** Some run ends in the state `s`, with the plain file map `m`. */
  ghost predicate Reaches(dec: Object -> Option<bytes>, s: State<nat>, m: map<Path, bytes>) {
    exists r: Run<nat> :: IsRun(dec, r) && r.states[|r.events|] == s && PlainAt(dec, r, |r.events|) == m
  }

  lemma {:induction false} PlainPrefix<Id>(dec: Object -> Option<bytes>, r: Run<Id>, x: Run<Id>, n: nat)
    requires IsRun(dec, r) && IsRun(dec, x) && n <= |r.events|
    requires r.events <= x.events && r.states <= x.states
    ensures PlainAt(dec, x, n) == PlainAt(dec, r, n)
  {
    if n > 0 { PlainPrefix(dec, r, x, n - 1); }
  }

  lemma Start(dec: Object -> Option<bytes>, store: map<Path, Object>)
    ensures Reaches(dec, Init(store), StoredFiles(dec, store))
  {
    var r := Run([Init<nat>(store)], []);
    assert IsRun(dec, r) && PlainAt(dec, r, 0) == StoredFiles(dec, store);
  }

  lemma Onward(dec: Object -> Option<bytes>, s: State<nat>, m: map<Path, bytes>, e: Event<nat>)
    requires Reaches(dec, s, m) && Enabled(dec, s, e)
    ensures Reaches(dec, Next(dec, s, e), PlainNext(m, s, e))
  {
    hide Enabled, Next, PlainNext;
    var r: Run<nat> :| IsRun(dec, r) && r.states[|r.events|] == s && PlainAt(dec, r, |r.events|) == m;
    var x := Run(r.states + [Next(dec, s, e)], r.events + [e]);
    PlainPrefix(dec, r, x, |r.events|);
    assert IsRun(dec, x) && x.states[|x.events|] == Next(dec, s, e);
    assert PlainAt(dec, x, |x.events|) == PlainNext(m, s, e);
  }

  /** The step `e` leads from `s` to `t`, and the plain map from `m` to `n`. */
  lemma Step(dec: Object -> Option<bytes>, s: State<nat>, m: map<Path, bytes>, e: Event<nat>, t: State<nat>,
             n: map<Path, bytes>)
    requires Reaches(dec, s, m) && Enabled(dec, s, e) && t == Next(dec, s, e) && n == PlainNext(m, s, e)
    ensures Reaches(dec, t, n)
  {
    Onward(dec, s, m, e);
  }

  /** The hash table, the remote objects and the handles of a mount that knows one path. */
  function OnePath(e: Entry, cache: map<Path, bytes>, store: map<Path, Object>, handles: map<nat, Handle<nat>>,
                   stale: set<Path>): State<nat> {
    State(map["/f" := 0], map[0 := e], cache, store, handles, map[], stale, {})
  }

  /** A writer's open has made the file. */
  function Own(refcount: nat, locked: bool, exclude: bool): Entry {
    Entry(3, true, 0, Local, refcount, locked, true, exclude)
  }

  function Writer(phase: Phase): map<nat, Handle<nat>> {
    map[0 := Handle("/f", 0, Access(ModeCreat, true, true), phase)]
  }

  lemma FirstOpen(store: map<Path, Object>, access: Access)
    ensures AfterOpenBegin(Init<nat>(store), 0, "/f", access, 0) ==
            OnePath(NEW_ENTRY.(refcount := 1), map[], store,
                    map[0 := Handle("/f", 0, access, if access.Locks() then Waiting else Granted)], {})
  {
  }

  /** A writer has begun its open of a file that is nowhere. */
  lemma WriterBegun(dec: Object -> Option<bytes>)
    ensures Reaches(dec, OnePath(NEW_ENTRY.(refcount := 1), map[], map[], Writer(Waiting), {}), map[])
  {
    assert Classify(O_WRONLY) == Access(ModeCreat, true, true);
    assert StoredFiles(dec, map[]) == map[];
    hide Reaches, Classify, StoredFiles, AfterOpenBegin;
    Start(dec, map[]);
    FirstOpen(map[], Access(ModeCreat, true, true));
    Onward(dec, Init(map[]), map[], OpenBegin(0, "/f", O_WRONLY, 0));
  }

  /** It has made the file. */
  lemma Created(dec: Object -> Option<bytes>)
    ensures Reaches(dec, OnePath(Own(1, true, false), map["/f" := []], map[], Writer(Opened), {}), map["/f" := []])
  {
    WriterBegun(dec);
    hide Reaches;
    var s1 := OnePath(NEW_ENTRY.(refcount := 1), map[], map[], Writer(Waiting), {});
    var s2 := OnePath(NEW_ENTRY.(refcount := 1, locked := true), map[], map[], Writer(Granted), {});
    var s3 := OnePath(Own(1, true, false), map["/f" := []], map[], Writer(Opened), {});
    Step(dec, s1, map[], LockGranted(0), s2, map[]);
    Step(dec, s2, map[], OpenBody(0, 3, Done), s3, map["/f" := []]);
  }

  /** dfs_create has set the mark. */
  lemma Marked(dec: Object -> Option<bytes>, exclude: bool)
    ensures Reaches(dec, OnePath(Own(1, true, exclude), map["/f" := []], map[], Writer(Opened), {}), map["/f" := []])
  {
    Created(dec);
    hide Reaches;
    var s3 := OnePath(Own(1, true, false), map["/f" := []], map[], Writer(Opened), {});
    var s4 := OnePath(Own(1, true, exclude), map["/f" := []], map[], Writer(Opened), {});
    Step(dec, s3, map["/f" := []], CreateEnd(0, exclude, true, None), s4, map["/f" := []]);
  }

  /** It has written one byte. */
  lemma OneByteWritten(dec: Object -> Option<bytes>, exclude: bool)
    ensures Reaches(dec, OnePath(Own(1, true, exclude), map["/f" := [7]], map[], Writer(Opened), {}), map["/f" := [7]])
  {
    Marked(dec, exclude);
    assert PWrite([], 0, [7]) == [7];
    hide Reaches, PWrite;
    var s4 := OnePath(Own(1, true, exclude), map["/f" := []], map[], Writer(Opened), {});
    var s5 := OnePath(Own(1, true, exclude), map["/f" := [7]], map[], Writer(Opened), {});
    Step(dec, s4, map["/f" := []], Write(0, 0, [7]), s5, map["/f" := [7]]);
  }

  /** Its release has dropped the count: only the mutex keeps the collector away now, at any time
      that finds the file too old. */
  lemma UploadNeedsTheLock(dec: Object -> Option<bytes>, exclude: bool)
    ensures var s := OnePath(Own(0, true, exclude), map["/f" := [7]], map[], Writer(Uploading), {});
            && Reaches(dec, s, map["/f" := [7]])
            && (forall st, now, threshold :: TooOld(s.mem[0], st, now, threshold) ==>
                  !Collects(s.mem[0], st, now, threshold) && Collects(s.mem[0].(locked := false), st, now, threshold))
            && TooOld(s.mem[0], Some(Times(0, 0, 0)), 9000, 900)
  {
    OneByteWritten(dec, exclude);
    hide Reaches;
    var s5 := OnePath(Own(1, true, exclude), map["/f" := [7]], map[], Writer(Opened), {});
    var s6 := OnePath(Own(0, true, exclude), map["/f" := [7]], map[], Writer(Uploading), {});
    Step(dec, s5, map["/f" := [7]], ReleaseBegin(0), s6, map["/f" := [7]]);
  }

  // ----- The program without the seek at the end of a release -----

  function NextUnsought(dec: Object -> Option<bytes>, s: State<nat>, e: Event<nat>): State<nat>
    requires Enabled(dec, s, e)
  {
    if e.ReleaseEnd? then
      var pe := s.handles[e.h].pe;
      var t := AfterRelease(s, e.h);
      SetEntry(t, pe, t.mem[pe].(offset := s.mem[pe].offset))
    else Next(dec, s, e)
  }

  predicate Goes(dec: Object -> Option<bytes>, s: State<nat>, e: Event<nat>, t: State<nat>) {
    Enabled(dec, s, e) && t == NextUnsought(dec, s, e)
  }

  function WithoutSeek(dec: Object -> Option<bytes>, s: State<nat>, es: seq<Event<nat>>): Option<State<nat>>
    decreases |es|
  {
    if es == [] then Some(s)
    else if !Enabled(dec, s, es[0]) then None
    else WithoutSeek(dec, NextUnsought(dec, s, es[0]), es[1..])
  }

  lemma OneUnsought(dec: Object -> Option<bytes>, s: State<nat>, e: Event<nat>, t: State<nat>, es: seq<Event<nat>>)
    requires Goes(dec, s, e, t)
    ensures WithoutSeek(dec, s, [e] + es) == WithoutSeek(dec, t, es)
  {
    hide Enabled, NextUnsought;
    assert Enabled(dec, s, e);
    assert ([e] + es)[1..] == es;
  }

  /** The first writer has sent the file and is closed; the descriptor is where the send left it. */
  function Unsought(full: Object, refcount: nat, locked: bool, dirty: bool, more: map<nat, Handle<nat>>): State<nat> {
    OnePath(Entry(3, true, 1, Local, refcount, locked, dirty, false), map["/f" := [7]], map["/f" := full],
            Writer(Closed) + more, {})
  }

  function Appender(phase: Phase): map<nat, Handle<nat>> {
    map[1 := Handle("/f", 0, Access(ModeRdWr, true, true), phase)]
  }

  const APPEND_AND_CLOSE: seq<Event<nat>> :=
    [OpenBegin(1, "/f", O_WRONLY | O_APPEND, 1)] + ([LockGranted(1)] + ([OpenBody(1, 4, Done)] + [ReleaseBegin(1)]))

  lemma AppendBegins(dec: Object -> Option<bytes>, full: Object)
    ensures Goes(dec, Unsought(full, 0, false, false, map[]), OpenBegin(1, "/f", O_WRONLY | O_APPEND, 1),
                 Unsought(full, 1, false, false, Appender(Waiting)))
  {
    assert Classify(O_WRONLY | O_APPEND) == Access(ModeRdWr, true, true);
    hide Classify;
  }

  lemma AppendLocks(dec: Object -> Option<bytes>, full: Object)
    ensures Goes(dec, Unsought(full, 1, false, false, Appender(Waiting)), LockGranted(1),
                 Unsought(full, 1, true, false, Appender(Granted)))
  {
  }

  lemma AppendOpens(dec: Object -> Option<bytes>, full: Object)
    ensures Goes(dec, Unsought(full, 1, true, false, Appender(Granted)), OpenBody(1, 4, Done),
                 Unsought(full, 1, true, true, Appender(Opened)))
  {
  }

  lemma AppendCloses(dec: Object -> Option<bytes>, full: Object)
    ensures Goes(dec, Unsought(full, 1, true, true, Appender(Opened)), ReleaseBegin(1),
                 Unsought(full, 0, true, true, Appender(Uploading)))
  {
  }

  lemma AppendAndClose(dec: Object -> Option<bytes>, full: Object)
    ensures WithoutSeek(dec, Unsought(full, 0, false, false, map[]), APPEND_AND_CLOSE)
            == Some(Unsought(full, 0, true, true, Appender(Uploading)))
  {
    hide WithoutSeek, Goes, Unsought, Appender;
    AppendBegins(dec, full);
    AppendLocks(dec, full);
    AppendOpens(dec, full);
    AppendCloses(dec, full);
    var s0 := Unsought(full, 0, false, false, map[]);
    var s1, s2 := Unsought(full, 1, false, false, Appender(Waiting)), Unsought(full, 1, true, false, Appender(Granted));
    var s3, s4 := Unsought(full, 1, true, true, Appender(Opened)), Unsought(full, 0, true, true, Appender(Uploading));
    var close: seq<Event<nat>> := [ReleaseBegin(1)];
    assert close + [] == close;
    OneUnsought(dec, s3, ReleaseBegin(1), s4, []);
    OneUnsought(dec, s2, OpenBody(1, 4, Done), s3, close);
    OneUnsought(dec, s1, LockGranted(1), s2, [OpenBody(1, 4, Done)] + close);
    OneUnsought(dec, s0, OpenBegin(1, "/f", O_WRONLY | O_APPEND, 1), s1,
                [LockGranted(1)] + ([OpenBody(1, 4, Done)] + close));
    WalkOver(dec, s4);
  }

  lemma WalkOver(dec: Object -> Option<bytes>, s: State<nat>)
    ensures WithoutSeek(dec, s, []) == Some(s)
  {
  }

  /** What the seek is for. Without it a writer sends its file, [7], in full; an appending writer of the
      same file, which writes nothing, then sends an object that stands for the empty file. */
  lemma SeekNeeded(dec: Object -> Option<bytes>, full: Object, empty: Object)
    requires dec(full) == Some([7]) && dec(empty) == Some([])
    ensures exists s: State<nat>, es: seq<Event<nat>> ::
              && Reaches(dec, s, map["/f" := [7]]) && WithoutSeek(dec, s, es).Some?
              && (forall e :: e in es && e.ReleaseSend? ==> e.upload.Sent?)
                 && (forall e :: e in es ==> !e.Write? && !e.GcVisit?)
              && var t := WithoutSeek(dec, s, es).value;
                 CacheBytes(t, "/f") == [7] && Decoded(dec, t, "/f") == Some([])
  {
    UploadNeedsTheLock(dec, false);
    hide Reaches, WithoutSeek, Unsought, OnePath, Own;
    var m: map<Path, bytes> := map["/f" := [7]];
    var s := OnePath(Own(0, true, false), m, map[], Writer(Uploading), {});
    var first, last := [ReleaseSend(0, Sent(full, 1))] + [ReleaseEnd(0)], [ReleaseSend(1, Sent(empty, 1))];
    var es: seq<Event<nat>> := first + (APPEND_AND_CLOSE + last);
    FirstUnsought(dec, full);
    AppendAndClose(dec, full);
    LastUnsought(dec, full, empty);
    Walk(dec, s, first, APPEND_AND_CLOSE + last);
    Walk(dec, Unsought(full, 0, false, false, map[]), APPEND_AND_CLOSE, last);
    var t := Unsought(full, 0, true, true, Appender(Seeking)).(store := map["/f" := empty]);
    assert WithoutSeek(dec, s, es) == Some(t);
    HoldsBoth(dec, full, empty);
  }

  lemma HoldsBoth(dec: Object -> Option<bytes>, full: Object, empty: Object)
    requires dec(empty) == Some([])
    ensures var t := Unsought(full, 0, true, true, Appender(Seeking)).(store := map["/f" := empty]);
            CacheBytes(t, "/f") == [7] && Decoded(dec, t, "/f") == Some([])
  {
  }

  lemma {:induction false} Walk(dec: Object -> Option<bytes>, s: State<nat>, a: seq<Event<nat>>, b: seq<Event<nat>>)
    requires WithoutSeek(dec, s, a).Some?
    ensures WithoutSeek(dec, s, a + b) == WithoutSeek(dec, WithoutSeek(dec, s, a).value, b)
    decreases |a|
  {
    hide Enabled, NextUnsought;
    if a == [] {
      assert a + b == b;
    } else {
      assert (a + b)[1..] == a[1..] + b;
      Walk(dec, NextUnsought(dec, s, a[0]), a[1..], b);
    }
  }

  lemma SendGoes(dec: Object -> Option<bytes>, full: Object)
    requires dec(full) == Some([7])
    ensures Goes(dec, OnePath(Own(0, true, false), map["/f" := [7]], map[], Writer(Uploading), {}),
                 ReleaseSend(0, Sent(full, 1)), Halfway(full))
  {
    assert [7 as byte][0..] == [7];
  }

  /** Between the send and the end of the release. */
  function Halfway(full: Object): State<nat> {
    OnePath(Own(0, true, false).(offset := 1), map["/f" := [7]], map["/f" := full], Writer(Seeking), {})
  }

  lemma EndGoes(dec: Object -> Option<bytes>, full: Object)
    ensures Goes(dec, Halfway(full), ReleaseEnd(0), Unsought(full, 0, false, false, map[]))
  {
  }

  lemma FirstUnsought(dec: Object -> Option<bytes>, full: Object)
    requires dec(full) == Some([7])
    ensures WithoutSeek(dec, OnePath(Own(0, true, false), map["/f" := [7]], map[], Writer(Uploading), {}),
                        [ReleaseSend(0, Sent(full, 1))] + [ReleaseEnd(0)]) == Some(Unsought(full, 0, false, false,
                              map[]))
  {
    hide WithoutSeek, Goes, Halfway, Unsought, OnePath;
    SendGoes(dec, full);
    EndGoes(dec, full);
    var end: seq<Event<nat>> := [ReleaseEnd(0)];
    assert end + [] == end;
    var s, t := OnePath(Own(0, true, false), map["/f" := [7]], map[], Writer(Uploading), {}),
      Unsought(full, 0, false, false, map[]);
    OneUnsought(dec, Halfway(full), ReleaseEnd(0), t, []);
    OneUnsought(dec, s, ReleaseSend(0, Sent(full, 1)), Halfway(full), end);
    WalkOver(dec, t);
  }

  lemma LastUnsought(dec: Object -> Option<bytes>, full: Object, empty: Object)
    requires dec(empty) == Some([])
    ensures WithoutSeek(dec, Unsought(full, 0, true, true, Appender(Uploading)), [ReleaseSend(1, Sent(empty, 1))])
            == Some(Unsought(full, 0, true, true, Appender(Seeking)).(store := map["/f" := empty]))
  {
    hide WithoutSeek;
    var s, t := Unsought(full, 0, true, true, Appender(Uploading)),
      Unsought(full, 0, true, true, Appender(Seeking)).(store := map["/f" := empty]);
    var send: seq<Event<nat>> := [ReleaseSend(1, Sent(empty, 1))];
    assert send + [] == send && [7 as byte][1..] == [];
    OneUnsought(dec, s, ReleaseSend(1, Sent(empty, 1)), t, []);
    WalkOver(dec, t);
  }

  /** What is left of it when its release is over: nothing of the file was sent. */
  function Kept(exclude: bool): State<nat> {
    OnePath(Own(0, false, exclude).(dirty := false), map["/f" := [7]], map[], Writer(Closed), {"/f"})
  }

  lemma ExcludedReleased(dec: Object -> Option<bytes>)
    ensures Reaches(dec, Kept(true), map["/f" := [7]])
  {
    UploadNeedsTheLock(dec, true);
    hide Reaches;
    var m := map["/f" := [7]];
    Step(dec, OnePath(Own(0, true, true), m, map[], Writer(Uploading), {}), m, ReleaseEnd(0), Kept(true), m);
  }

  lemma UploadFailed(dec: Object -> Option<bytes>)
    ensures Reaches(dec, Kept(false), map["/f" := [7]])
  {
    UploadNeedsTheLock(dec, false);
    hide Reaches;
    var m := map["/f" := [7]];
    var s6 := OnePath(Own(0, true, false), m, map[], Writer(Uploading), {});
    var s7 := OnePath(Own(0, true, false), m, map[], Writer(Seeking), {"/f"});
    Step(dec, s6, m, ReleaseSend(0, Unsent(None, 0)), s7, m);
    Onward(dec, s7, m, ReleaseEnd(0));
    ReleasedState(dec);
  }

  lemma ReleasedState(dec: Object -> Option<bytes>)
    ensures AfterRelease(OnePath(Own(0, true, false), map["/f" := [7]], map[], Writer(Seeking), {"/f"}),
                         0) == Kept(false)
  {
  }

  /** Both conditions on a release are needed: after an upload that failed, and on an excluded
      path, whatever visit of the collector finds the file too old drops its only copy. */
  lemma UnsentThenCollected(dec: Object -> Option<bytes>, exclude: bool, st: Option<Times>, now: int, threshold: int)
    ensures exists s: State<nat> ::
              && Reaches(dec, s, map["/f" := [7]]) && View(dec, s, "/f") == Some([7])
              && "/f" in s.hash && s.hash["/f"] in s.mem && TooOld(s.mem[s.hash["/f"]], Some(Times(0, 0, 0)), 9000, 900)
              && (TooOld(s.mem[s.hash["/f"]], st, now, threshold) ==>
                    var t := Next(dec, s, GcVisit("/f", st, now, threshold));
                    Reaches(dec, t, map["/f" := [7]]) && View(dec, t, "/f") == None)
  {
    if exclude { ExcludedReleased(dec); } else { UploadFailed(dec); }
    hide Reaches;
    var s := Kept(exclude);
    var visit := GcVisit("/f", st, now, threshold);
    Onward(dec, s, map["/f" := [7]], visit);
    assert s.hash["/f"] == 0 && TooOld(s.mem[0], Some(Times(0, 0, 0)), 9000, 900) && View(dec, s, "/f") == Some([7]);
    assert TooOld(s.mem[0], st, now, threshold) ==> View(dec, Next(dec, s, visit), "/f") == None;
  }

  function Reader(phase: Phase): Handle<nat> {
    Handle("/f", 0, Access(ModeRdOnly, false, false), phase)
  }

  /** A reader is about to run the body of its open. */
  lemma ReaderBegun(dec: Object -> Option<bytes>, obj: Object)
    ensures Reaches(dec, OnePath(NEW_ENTRY.(refcount := 1), map[], map["/f" := obj], map[0 := Reader(Granted)], {}),
                    StoredFiles(dec, map["/f" := obj]))
  {
    assert Classify(O_RDONLY) == Access(ModeRdOnly, false, false);
    hide Reaches, Classify, StoredFiles, AfterOpenBegin;
    Start(dec, map["/f" := obj]);
    FirstOpen(map["/f" := obj], Access(ModeRdOnly, false, false));
    Onward(dec, Init(map["/f" := obj]), StoredFiles(dec, map["/f" := obj]), OpenBegin(0, "/f", O_RDONLY, 0));
  }

  /** A fetch whose rename(2) fails is an open that succeeds on the compressed payload: readers get
      something else than the file whenever the payload is something else. */
  lemma RawFetchReadsThePayload(dec: Object -> Option<bytes>, obj: Object)
    requires dec(obj).Some? && dec(obj) != Some(obj.payload)
    ensures exists s: State<nat>, m ::
              && Reaches(dec, s, m) && InPhase(s, 0, Opened) && s.handles[0].path == "/f"
              && "/f" in m && m["/f"] == dec(obj).value
              && View(dec, s, "/f") == Some(obj.payload) != Lookup(m, "/f")
  {
    ReaderBegun(dec, obj);
    var m := StoredFiles(dec, map["/f" := obj]);
    assert "/f" in m && m["/f"] == dec(obj).value;
    hide Reaches, StoredFiles;
    var s := OnePath(NEW_ENTRY.(refcount := 1), map[], map["/f" := obj], map[0 := Reader(Granted)], {});
    Onward(dec, s, m, OpenBody(0, 3, Raw));
    var t := Next(dec, s, OpenBody(0, 3, Raw));
    assert InPhase(t, 0, Opened) && View(dec, t, "/f") == Some(obj.payload);
  }

  /** The state in which a reader has the file open. */
  function Fetched(dec: Object -> Option<bytes>, obj: Object): State<nat>
    requires dec(obj).Some?
  {
    OnePath(Entry(3, false, 0, Local, 1, false, true, false), map["/f" := dec(obj).value], map["/f" := obj],
            map[0 := Reader(Opened)], {})
  }

  /** The mutex is free then: only the count keeps the collector away, at any time that finds the
      file too old. */
  lemma ReaderNeedsTheCount(dec: Object -> Option<bytes>, obj: Object)
    requires dec(obj).Some?
    ensures Reaches(dec, Fetched(dec, obj), StoredFiles(dec, map["/f" := obj]))
    ensures var e := Fetched(dec, obj).mem[0];
            && (forall st, now, threshold :: TooOld(e, st, now, threshold) ==>
                  !Collects(e, st, now, threshold) && Collects(e.(refcount := 0), st, now, threshold))
            && TooOld(e, Some(Times(0, 0, 0)), 900, 900)
  {
    ReaderBegun(dec, obj);
    hide Reaches;
    var s := OnePath(NEW_ENTRY.(refcount := 1), map[], map["/f" := obj], map[0 := Reader(Granted)], {});
    Onward(dec, s, StoredFiles(dec, map["/f" := obj]), OpenBody(0, 3, Done));
    assert Next(dec, s, OpenBody(0, 3, Done)) == Fetched(dec, obj);
  }

  /** An appending writer beside that reader. */
  function Appending(dec: Object -> Option<bytes>, obj: Object, locked: bool, phase: Phase): State<nat>
    requires dec(obj).Some?
  {
    Fetched(dec, obj).(mem := map[0 := Entry(3, false, 0, Local, 2, locked, true, false)],
                       handles := map[0 := Reader(Opened), 1 := Handle("/f", 0, Access(ModeRdWr, true, true), phase)])
  }

  lemma AppenderBegun(dec: Object -> Option<bytes>, obj: Object)
    requires dec(obj).Some?
    ensures Reaches(dec, Appending(dec, obj, false, Waiting), StoredFiles(dec, map["/f" := obj]))
  {
    var flags := O_WRONLY | O_APPEND;
    assert Classify(flags) == Access(ModeRdWr, true, true);
    ReaderNeedsTheCount(dec, obj);
    hide Reaches, Classify, StoredFiles;
    Onward(dec, Fetched(dec, obj), StoredFiles(dec, map["/f" := obj]), OpenBegin(1, "/f", flags, 1));
  }

  lemma AppenderLocked(dec: Object -> Option<bytes>, obj: Object)
    requires dec(obj).Some?
    ensures Reaches(dec, Appending(dec, obj, true, Granted), StoredFiles(dec, map["/f" := obj]))
  {
    hide Reaches, StoredFiles;
    AppenderBegun(dec, obj);
    var m := StoredFiles(dec, map["/f" := obj]);
    Step(dec, Appending(dec, obj, false, Waiting), m, LockGranted(1), Appending(dec, obj, true, Granted), m);
  }

  /** The case WriterCanWrite excludes is reached: an appending open succeeds beside a reader, and
      none of its writes can. */
  lemma AppendAfterReadCannotWrite(dec: Object -> Option<bytes>, obj: Object)
    requires dec(obj).Some?
    ensures exists s: State<nat> ::
              && Reaches(dec, s, StoredFiles(dec, map["/f" := obj]))
              && InPhase(s, 1, Opened) && s.handles[1].access.writes
              && forall offset, data :: !Enabled(dec, s, Write(1, offset, data))
  {
    hide Reaches, StoredFiles;
    AppenderLocked(dec, obj);
    var m, s := StoredFiles(dec, map["/f" := obj]), Appending(dec, obj, true, Opened);
    Step(dec, Appending(dec, obj, true, Granted), m, OpenBody(1, 4, Done), s, m);
    assert InPhase(s, 1, Opened) && s.handles[1].access.writes && !s.mem[0].writable && s.handles[1].pe == 0;
  }

  /** A getattr that was asking the store while a reader opened the file: the entry is REMOTE and
      has a descriptor, which is why reading goes by the descriptor. */
  lemma RemoteWithDescriptor(dec: Object -> Option<bytes>, obj: Object)
    requires dec(obj).Some?
    ensures exists s: State<nat> ::
              && Reaches(dec, s, StoredFiles(dec, map["/f" := obj]))
              && InPhase(s, 0, Opened) && s.handles[0].pe in s.mem
              && s.mem[s.handles[0].pe].ondisk == Remote && s.mem[s.handles[0].pe].fd >= 0
  {
    ReaderBegun(dec, obj);
    hide Reaches;
    var m := StoredFiles(dec, map["/f" := obj]);
    var s := OnePath(NEW_ENTRY.(refcount := 1), map[], map["/f" := obj], map[0 := Reader(Granted)], {});
    Onward(dec, s, m, GetattrBegin(0, "/f", 1));
    var s1 := s.(pending := map[0 := 0]);
    assert Next(dec, s, GetattrBegin(0, "/f", 1)) == s1;
    Onward(dec, s1, m, OpenBody(0, 3, Done));
    var s2 := Fetched(dec, obj).(pending := map[0 := 0]);
    assert Next(dec, s1, OpenBody(0, 3, Done)) == s2;
    Onward(dec, s2, m, GetattrEnd(0, true));
    var s3 := Next(dec, s2, GetattrEnd(0, true));
    assert InPhase(s3, 0, Opened) && s3.handles[0].pe == 0 && s3.mem[0].ondisk == Remote && s3.mem[0].fd >= 0;
  }
}
