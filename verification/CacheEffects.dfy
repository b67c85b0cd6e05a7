/** What the operations do over runs, in the terms of their callers: by the flag word of the open, to the
    objects of the store, and to the flags of an entry. */
module CacheEffects {
  import opened Basics
  import opened OpenFlags
  import opened CacheProtocol
  import opened CacheInvariant
  import opened CacheEntries
  import opened CacheRefinement
  import opened CacheRuns

  // ----- The flag word -----

  /** A handle has the path and the flag word it was opened with. */
  lemma OpenedWith<Id>(dec: Object -> Option<bytes>, r: Run<Id>, i: nat, j: nat, h: nat, p: Path, flags: bv32, addr: Id)
    requires IsRun(dec, r) && i < j <= |r.events| && r.events[i] == OpenBegin(h, p, flags, addr)
    ensures h in r.states[j].handles && r.states[j].handles[h].path == p
    ensures r.states[j].handles[h].access == Classify(flags)
  {
    hide Classify;
    StepOf(dec, r, i);
    BeginMoves(r.states[i], h, p, Classify(flags), addr);
    HandleRun(dec, r, i + 1, j, h);
    hide IsRun, AfterOpenBegin;
  }

  /** The open truncates, waits for the mutex, is unlocked by its close, and may write. */
  lemma FlagWord(flags: bv32)
    ensures Classify(flags).mode == ModeCreat <==>
            flags & 0x400 == 0 && (flags & 0x40 != 0 || flags & 3 == 1 || flags & 3 == 2)
    ensures Classify(flags).Locks() <==> flags & 3 != 0 || flags & 0x440 != 0
    ensures Classify(flags).unlocks <==> flags & 3 != 0
    ensures Classify(flags).writes <==> flags & 3 == 1 || flags & 3 == 2
  {
  }

  /** The body of an open that keeps the file: nobody reads differently, not even a lost path. */
  lemma KeepingBody<Id>(dec: Object -> Option<bytes>, s: State<Id>, h: nat, newfd: nat, q: Path)
    requires Inv(dec, s) && Enabled(dec, s, OpenBody(h, newfd, Done)) && s.handles[h].access.mode != ModeCreat
    ensures View(dec, AfterBody(dec, s, h, newfd, Done), q) == View(dec, s, q)
  {
    hide Inv;
    HandleAt(dec, s, h);
    if s.mem[s.handles[h].pe].fd >= 0 {
      ReuseView(dec, s, h, newfd, Done, q);
    } else {
      CacheView(dec, s, AfterBody(dec, s, h, newfd, Done), h, Decoded(dec, s, s.handles[h].path).value, q);
    }
  }

  /** Which opens truncate, by the flag word alone: when the body of an open ends well, the file is empty
      if the word has no O_APPEND and has O_CREAT, O_WRONLY or O_RDWR, and in every other case it is what
      it was, for the plain file map and for every reader. No open changes another path. */
  lemma TruncatesWhen<Id>(dec: Object -> Option<bytes>, r: Run<Id>, i: nat, j: nat, h: nat, p: Path, flags: bv32,
                          addr: Id, newfd: nat, q: Path)
    requires IsRun(dec, r) && i < j < |r.events| && r.events[i] == OpenBegin(h, p, flags, addr)
    requires r.events[j] == OpenBody(h, newfd, Done)
    ensures if flags & 0x400 == 0 && (flags & 0x40 != 0 || flags & 3 == 1 || flags & 3 == 2) then
              && PlainAt(dec, r, j + 1) == PlainAt(dec, r, j)[p := []]
              && View(dec, r.states[j + 1], q) == if q == p then Some([]) else View(dec, r.states[j], q)
            else
              && PlainAt(dec, r, j + 1) == PlainAt(dec, r, j)
              && View(dec, r.states[j + 1], q) == View(dec, r.states[j], q)
  {
    OpenedWith(dec, r, i, j, h, p, flags, addr);
    FlagWord(flags);
    RunInv(dec, r, j);
    StepOf(dec, r, j);
    BodyByAccess(dec, r.states[j], h, newfd, q, PlainAt(dec, r, j));
    hide IsRun, Inv, View, Classify, AfterBody, Enabled, Next;
    assert PlainAt(dec, r, j + 1) == PlainNext(PlainAt(dec, r, j), r.states[j], r.events[j]);
  }

  lemma BodyByAccess<Id>(dec: Object -> Option<bytes>, s: State<Id>, h: nat, newfd: nat, q: Path,
                         files: map<Path, bytes>)
    requires Inv(dec, s) && Enabled(dec, s, OpenBody(h, newfd, Done))
    ensures h in s.handles
    ensures var e := OpenBody(h, newfd, Done);
            var path := s.handles[h].path;
            if s.handles[h].access.mode == ModeCreat then
              && PlainNext(files, s, e) == files[path := []]
              && View(dec, Next(dec, s, e), q) == if q == path then Some([]) else View(dec, s, q)
            else
              && PlainNext(files, s, e) == files
              && View(dec, Next(dec, s, e), q) == View(dec, s, q)
  {
    hide Inv, View, AfterBody, FetchEnabled;
    NextBody(dec, s, h, newfd, Done);
    if s.handles[h].access.mode == ModeCreat {
      CreatView(dec, s, h, newfd, Done, q);
    } else {
      KeepingBody(dec, s, h, newfd, q);
    }
  }

  /** The mutex and the right to write, by the flag word: an open asks for the mutex unless it is for
      reading without O_APPEND and O_CREAT; its close goes on to the upload and the unlock unless it is for
      reading; and only O_WRONLY and O_RDWR write. */
  lemma FlagsDecide<Id>(dec: Object -> Option<bytes>, r: Run<Id>, i: nat, j: nat, h: nat, p: Path, flags: bv32,
                        addr: Id)
    requires IsRun(dec, r) && i < j < |r.events| && r.events[i] == OpenBegin(h, p, flags, addr)
    ensures InPhase(r.states[i + 1], h, if flags & 3 == 0 && flags & 0x440 == 0 then Granted else Waiting)
    ensures r.events[j] == ReleaseBegin(h) ==>
              InPhase(r.states[j + 1], h, if flags & 3 == 0 then Closed else Uploading)
    ensures r.events[j].Write? && r.events[j].h == h ==> flags & 3 == 1 || flags & 3 == 2
  {
    OpenedWith(dec, r, i, j, h, p, flags, addr);
    FlagWord(flags);
    StepOf(dec, r, i);
    StepOf(dec, r, j);
    hide IsRun, Classify, PWrite;
    BeginMoves(r.states[i], h, p, Classify(flags), addr);
    hide AfterOpenBegin;
  }

  // ----- The store -----

  /** What the store has under `p` after a step: what a create has made there, what a send has left there,
      and otherwise what it had. */
  function StoreAfter<Id>(s: State<Id>, e: Event<Id>, p: Path): Option<Object> {
    match e
    case CreateEnd(h, _, _, Some(o)) =>
      if h in s.handles && s.handles[h].path == p then Some(o) else Lookup(s.store, p)
    case ReleaseSend(h, Sent(o, _)) =>
      if h in s.handles && s.handles[h].path == p then Some(o) else Lookup(s.store, p)
    case ReleaseSend(h, Unsent(left, _)) =>
      if h in s.handles && s.handles[h].path == p then left else Lookup(s.store, p)
    case _ => Lookup(s.store, p)
  }

  lemma StoreStep<Id>(dec: Object -> Option<bytes>, s: State<Id>, e: Event<Id>, p: Path)
    requires Enabled(dec, s, e)
    ensures Lookup(Next(dec, s, e).store, p) == StoreAfter(s, e, p)
  {
    if e.OpenBody? {
      hide Enabled, Next, AfterBody;
      NextBody(dec, s, e.h, e.newfd, e.body);
      BodyStore(dec, s, e.h, e.newfd, e.body);
    } else if e.OpenBegin? {
      BeginFiles(s, e.h, e.path, Classify(e.flags), e.addr, p);
      hide AfterOpenBegin;
    } else {
      hide SendOk, PWrite, TooOld;
    }
  }

  lemma BodyStore<Id>(dec: Object -> Option<bytes>, s: State<Id>, h: nat, newfd: nat, body: BodyOutcome)
    requires Enabled(dec, s, OpenBody(h, newfd, body))
    ensures AfterBody(dec, s, h, newfd, body).store == s.store
  {
    hide AfterBody, FetchEnabled, FetchedContent, OpenedEntry;
    BodyShape(dec, s, h, newfd, body);
  }

  /** The step can change what the store has under `p`. */
  predicate Stores<Id>(s: State<Id>, e: Event<Id>, p: Path) {
    ((e.CreateEnd? && e.made.Some?) || e.ReleaseSend?) && e.h in s.handles && s.handles[e.h].path == p
  }

  lemma {:induction false} StoreKept<Id>(dec: Object -> Option<bytes>, r: Run<Id>, i: nat, j: nat, p: Path)
    requires IsRun(dec, r) && i <= j <= |r.events|
    requires forall k :: i <= k < j ==> !Stores(r.states[k], r.events[k], p)
    ensures Lookup(r.states[j].store, p) == Lookup(r.states[i].store, p)
    decreases j - i
  {
    hide Stores, Enabled, Next;
    if i < j {
      StoreKept(dec, r, i, j - 1, p);
      StepOf(dec, r, j - 1);
      StoreStep(dec, r.states[j - 1], r.events[j - 1], p);
      NotStored(r.states[j - 1], r.events[j - 1], p);
    }
  }

  lemma NotStored<Id>(s: State<Id>, e: Event<Id>, p: Path)
    requires !Stores(s, e, p)
    ensures StoreAfter(s, e, p) == Lookup(s.store, p)
  {
  }

  /** A create that has made an object leaves it in the store, and there it stays until a send of that path,
      or another create of it, puts something else there; no open, write, getattr or collection does. */
  lemma CreateMakes<Id>(dec: Object -> Option<bytes>, r: Run<Id>, i: nat, j: nat, h: nat, exclude: bool, goesOn: bool,
                        o: Object)
    requires IsRun(dec, r) && i < j <= |r.events| && r.events[i] == CreateEnd(h, exclude, goesOn, Some(o))
    requires h in r.states[i].handles
    requires forall k :: i < k < j ==> !Stores(r.states[k], r.events[k], r.states[i].handles[h].path)
    ensures Lookup(r.states[j].store, r.states[i].handles[h].path) == Some(o)
  {
    StepOf(dec, r, i);
    hide IsRun, Enabled, Next, Stores;
    var p := r.states[i].handles[h].path;
    StoreStep(dec, r.states[i], r.events[i], p);
    StoreKept(dec, r, i + 1, j, p);
  }

  // ----- The flag of an entry -----

  /** A step that may leave the entry DIRTY: the body of a writing open that ends well. */
  predicate Dirties<Id(==)>(s: State<Id>, t: State<Id>, e: Event<Id>, id: Id) {
    && e.OpenBody? && e.h in s.handles && s.handles[e.h].pe == id && s.handles[e.h].access.Locks()
    && InPhase(t, e.h, Opened)
  }

  predicate Cleans<Id(==)>(s: State<Id>, e: Event<Id>, id: Id) {
    e.ReleaseEnd? && e.h in s.handles && s.handles[e.h].pe == id
  }

  /** An entry is born DIRTY, the body of an open that locks makes it DIRTY and the end of a release CLEAN,
      and nothing else changes the flag. */
  lemma FlagStep<Id>(dec: Object -> Option<bytes>, s: State<Id>, e: Event<Id>, id: Id)
    requires Enabled(dec, s, e) && id in Next(dec, s, e).mem
    ensures var t := Next(dec, s, e);
            t.mem[id].dirty ==
            if id !in s.mem || Dirties(s, t, e, id) then true
            else if Cleans(s, e, id) then false
            else s.mem[id].dirty
  {
    hide Next, Enabled, AfterBody, AfterOpenBegin, Classify;
    if e.OpenBody? {
      NextBody(dec, s, e.h, e.newfd, e.body);
      BodyAddsNone(dec, s, e.h, e.newfd, e.body);
      BodyFlag(dec, s, e.h, e.newfd, e.body, id);
    } else if e.OpenBegin? {
      BeginFlag(dec, s, e, id);
    } else if e.GcVisit? {
      VisitFlag(dec, s, e, id);
    } else if e.GetattrBegin? {
      LookedUpFlag(dec, s, e, id);
    } else if e.GetattrEnd? {
      AnsweredFlag(dec, s, e, id);
    } else {
      HandleFlag(dec, s, e, id);
    }
  }

  lemma LookedUpFlag<Id>(dec: Object -> Option<bytes>, s: State<Id>, e: Event<Id>, id: Id)
    requires Enabled(dec, s, e) && e.GetattrBegin? && id in Next(dec, s, e).mem
    ensures Next(dec, s, e).mem[id].dirty == (id !in s.mem || s.mem[id].dirty)
  {
    LookedUp(s, e.g, e.path, e.addr);
    hide AfterGetattrBegin;
  }

  lemma LookedUp<Id>(s: State<Id>, g: nat, p: Path, addr: Id)
    requires if p in s.hash then s.hash[p] in s.mem else addr !in s.mem
    ensures AfterGetattrBegin(s, g, p, addr).mem == if p in s.hash then s.mem else s.mem[addr := NEW_ENTRY]
  {
  }

  lemma AnsweredFlag<Id>(dec: Object -> Option<bytes>, s: State<Id>, e: Event<Id>, id: Id)
    requires Enabled(dec, s, e) && e.GetattrEnd? && id in Next(dec, s, e).mem
    ensures id in s.mem && Next(dec, s, e).mem[id].dirty == s.mem[id].dirty
  {
  }

  lemma VisitFlag<Id>(dec: Object -> Option<bytes>, s: State<Id>, e: Event<Id>, id: Id)
    requires Enabled(dec, s, e) && e.GcVisit? && id in Next(dec, s, e).mem
    ensures id in s.mem && Next(dec, s, e).mem[id] == s.mem[id]
  {
    hide Collects;
  }

  lemma BeginFlag<Id>(dec: Object -> Option<bytes>, s: State<Id>, e: Event<Id>, id: Id)
    requires Enabled(dec, s, e) && e.OpenBegin? && id in Next(dec, s, e).mem
    ensures Next(dec, s, e).mem[id].dirty == (id !in s.mem || s.mem[id].dirty)
  {
    hide AfterOpenBegin, Classify;
    BeginMoves(s, e.h, e.path, Classify(e.flags), e.addr);
  }

  lemma HandleFlag<Id>(dec: Object -> Option<bytes>, s: State<Id>, e: Event<Id>, id: Id)
    requires Enabled(dec, s, e) && id in Next(dec, s, e).mem
    requires !e.OpenBody? && !e.OpenBegin? && !e.GetattrBegin? && !e.GetattrEnd? && !e.GcVisit?
    ensures id in s.mem && Next(dec, s, e).mem[id].dirty == (s.mem[id].dirty && !Cleans(s, e, id))
  {
    hide SendOk, PWrite;
  }

  lemma BodyFlag<Id>(dec: Object -> Option<bytes>, s: State<Id>, h: nat, newfd: nat, body: BodyOutcome, id: Id)
    requires Enabled(dec, s, OpenBody(h, newfd, body)) && id in s.mem
    ensures var t := AfterBody(dec, s, h, newfd, body);
            id in t.mem && t.mem[id].dirty ==
              (Dirties(s, t, OpenBody(h, newfd, body), id) || s.mem[id].dirty)
  {
    hide AfterBody, FetchEnabled, FetchedContent;
    BodyShape(dec, s, h, newfd, body);
  }
}
