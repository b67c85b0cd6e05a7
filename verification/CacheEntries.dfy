/** What one step does to one entry, and what follows for the descriptors, the placeholders and the
    marks of all of them. */
module CacheEntries {
  import opened Basics
  import opened OpenFlags
  import opened CacheProtocol
  import opened CacheInvariant

  /** The same descriptor, placeholder and mark. */
  predicate Alike(e: Entry, e': Entry) {
    e'.fd == e.fd && e'.writable == e.writable && e'.ondisk == e.ondisk && e'.exclude == e.exclude
  }

  lemma OpenSide<Id>(dec: Object -> Option<bytes>, s: State<Id>, e: Event<Id>, id: Id)
    requires Enabled(dec, s, e) && (e.OpenBegin? || e.LockGranted? || e.LockRefused? || e.GetattrBegin?) && id in s.mem
    ensures id in Next(dec, s, e).mem && Alike(s.mem[id], Next(dec, s, e).mem[id])
  {
    hide AfterOpenBegin;
    if e.OpenBegin? { BeginMoves(s, e.h, e.path, Classify(e.flags), e.addr); }
  }

  lemma CloseSide<Id>(dec: Object -> Option<bytes>, s: State<Id>, e: Event<Id>, id: Id)
    requires Enabled(dec, s, e) && (e.Write? || e.ReleaseBegin? || e.ReleaseSend? || e.ReleaseEnd?) && id in s.mem
    ensures id in Next(dec, s, e).mem && Alike(s.mem[id], Next(dec, s, e).mem[id])
  {
    if e.ReleaseSend? || e.ReleaseEnd? {
      hide Enabled, Next, Alike;
      UploadSide(dec, s, e, id);
    } else {
      hide PWrite, CacheBytes;
    }
  }

  lemma UploadSide<Id>(dec: Object -> Option<bytes>, s: State<Id>, e: Event<Id>, id: Id)
    requires Enabled(dec, s, e) && (e.ReleaseSend? || e.ReleaseEnd?) && id in s.mem
    ensures id in Next(dec, s, e).mem && Alike(s.mem[id], Next(dec, s, e).mem[id])
  {
    hide SendOk, CacheBytes;
  }

  lemma CreateSide<Id>(dec: Object -> Option<bytes>, s: State<Id>, e: Event<Id>, id: Id)
    requires Enabled(dec, s, e) && e.CreateEnd? && id in s.mem
    ensures id in Next(dec, s, e).mem
    ensures var mark := if id == s.handles[e.h].pe then e.exclude else s.mem[id].exclude;
            Alike(s.mem[id].(exclude := mark), Next(dec, s, e).mem[id])
  {
  }

  lemma GetattrSide<Id>(dec: Object -> Option<bytes>, s: State<Id>, e: Event<Id>, id: Id)
    requires Enabled(dec, s, e) && e.GetattrEnd? && id in s.mem
    ensures id in Next(dec, s, e).mem
    ensures var place := if id == s.pending[e.g] && e.found then Remote else s.mem[id].ondisk;
            Alike(s.mem[id].(ondisk := place), Next(dec, s, e).mem[id])
  {
  }

  /** The body of an open leaves an entry alone, or leaves it LOCAL with a descriptor, its own if it
      had one and did not truncate. */
  lemma BodySide<Id>(dec: Object -> Option<bytes>, s: State<Id>, h: nat, newfd: nat, body: BodyOutcome, id: Id)
    requires Enabled(dec, s, OpenBody(h, newfd, body)) && id in s.mem
    ensures var t := AfterBody(dec, s, h, newfd, body);
            && id in t.mem && t.mem[id].exclude == s.mem[id].exclude
            && (t.mem[id] == s.mem[id] || (id == s.handles[h].pe && t.mem[id].fd >= 0 && t.mem[id].ondisk == Local))
            && (s.handles[h].access.mode != ModeCreat && s.mem[id].fd >= 0 ==>
                  t.mem[id].fd == s.mem[id].fd && t.mem[id].writable == s.mem[id].writable)
  {
    hide AfterBody, FetchEnabled, FetchedContent;
    BodyShape(dec, s, h, newfd, body);
  }

  lemma NextBody<Id>(dec: Object -> Option<bytes>, s: State<Id>, h: nat, newfd: nat, body: BodyOutcome)
    requires Enabled(dec, s, OpenBody(h, newfd, body))
    ensures Next(dec, s, OpenBody(h, newfd, body)) == AfterBody(dec, s, h, newfd, body)
  {
    hide AfterBody, Enabled;
  }

  lemma GcSide<Id>(dec: Object -> Option<bytes>, s: State<Id>, e: Event<Id>, id: Id)
    requires Enabled(dec, s, e) && e.GcVisit? && id in Next(dec, s, e).mem
    ensures id in s.mem && Next(dec, s, e).mem[id] == s.mem[id]
  {
    hide TooOld;
  }

  /** A taken mutex keeps the collector away. */
  lemma GcSpares<Id>(dec: Object -> Option<bytes>, s: State<Id>, e: Event<Id>, id: Id)
    requires Enabled(dec, s, e) && e.GcVisit? && id in s.mem && s.mem[id].locked
    ensures id in Next(dec, s, e).mem
  {
    hide TooOld;
  }

  /** An entry that was not there before is a new one. */
  lemma NewEntries<Id>(dec: Object -> Option<bytes>, s: State<Id>, e: Event<Id>, id: Id)
    requires Enabled(dec, s, e) && (e.OpenBegin? || e.GetattrBegin?) && id in Next(dec, s, e).mem && id !in s.mem
    ensures Alike(NEW_ENTRY, Next(dec, s, e).mem[id])
  {
    hide AfterOpenBegin;
    if e.OpenBegin? { BeginMoves(s, e.h, e.path, Classify(e.flags), e.addr); }
  }

  lemma NoNewEntries<Id>(dec: Object -> Option<bytes>, s: State<Id>, e: Event<Id>, id: Id)
    requires Enabled(dec, s, e) && !e.OpenBegin? && !e.GetattrBegin? && !e.OpenBody? && id in Next(dec, s, e).mem
    ensures id in s.mem
  {
    hide TooOld, SendOk, PWrite;
  }

  lemma BodyAddsNone<Id>(dec: Object -> Option<bytes>, s: State<Id>, h: nat, newfd: nat, body: BodyOutcome)
    requires Enabled(dec, s, OpenBody(h, newfd, body))
    ensures AfterBody(dec, s, h, newfd, body).mem.Keys == s.mem.Keys && AfterBody(dec, s, h, newfd, body).hash == s.hash
  {
    hide AfterBody, FetchEnabled, FetchedContent, OpenedEntry;
    BodyShape(dec, s, h, newfd, body);
  }

  /** The getattr turns an entry REMOTE. */
  predicate TurnsRemote<Id(==)>(s: State<Id>, e: Event<Id>, id: Id) {
    e.GetattrEnd? && e.found && e.g in s.pending && s.pending[e.g] == id
  }

  /** An entry after a step: a new one; LOCAL with a descriptor; the same but for a getattr that turns
      it REMOTE; or the same but for the mark. */
  lemma EntryAfter<Id>(dec: Object -> Option<bytes>, s: State<Id>, e: Event<Id>, id: Id)
    requires Enabled(dec, s, e) && id in Next(dec, s, e).mem
    ensures var e' := Next(dec, s, e).mem[id];
            if id !in s.mem then Alike(NEW_ENTRY, e')
            else
              && (e'.exclude == s.mem[id].exclude || (e.CreateEnd? && e'.exclude == e.exclude))
              && (|| (e'.fd == s.mem[id].fd && e'.ondisk == if TurnsRemote(s, e, id) then Remote else s.mem[id].ondisk)
                  || (e.OpenBody? && e'.fd >= 0 && e'.ondisk == Local))
  {
    hide Enabled, Next, AfterBody;
    if e.OpenBody? {
      NextBody(dec, s, e.h, e.newfd, e.body);
      BodyAddsNone(dec, s, e.h, e.newfd, e.body);
      BodySide(dec, s, e.h, e.newfd, e.body, id);
    } else if id !in s.mem {
      if e.OpenBegin? || e.GetattrBegin? { NewEntries(dec, s, e, id); } else { NoNewEntries(dec, s, e, id); }
    } else if e.GcVisit? {
      GcSide(dec, s, e, id);
    } else if e.CreateEnd? {
      CreateSide(dec, s, e, id);
    } else if e.GetattrEnd? {
      GetattrSide(dec, s, e, id);
      assert e.g in s.pending by { PendingThere(dec, s, e); }
    } else if e.Write? || e.ReleaseBegin? || e.ReleaseSend? || e.ReleaseEnd? {
      CloseSide(dec, s, e, id);
    } else {
      OpenSide(dec, s, e, id);
    }
  }

  lemma PendingThere<Id>(dec: Object -> Option<bytes>, s: State<Id>, e: Event<Id>)
    requires Enabled(dec, s, e) && e.GetattrEnd?
    ensures e.g in s.pending && s.pending[e.g] in s.mem
  {
  }

  // ----- When an entry with a descriptor is LOCAL -----

  predicate LocalOk(e: Entry) {
    e.ondisk == Local <==> e.fd >= 0
  }

  ghost predicate LocalInv<Id>(s: State<Id>) {
    forall id :: id in s.mem ==> LocalOk(s.mem[id])
  }

  /** A getattr ends on an entry that has got a descriptor since it was found UNSET. */
  predicate LateGetattr<Id(==)>(s: State<Id>, e: Event<Id>) {
    e.GetattrEnd? && e.found && e.g in s.pending && s.pending[e.g] in s.mem && s.mem[s.pending[e.g]].fd >= 0
  }

  /** That the entries with a descriptor are the LOCAL ones is kept by a step if and only if it is no
      such getattr. */
  lemma LocalExactly<Id>(dec: Object -> Option<bytes>, s: State<Id>, e: Event<Id>)
    requires Enabled(dec, s, e) && LocalInv(s)
    ensures LocalInv(Next(dec, s, e)) <==> !LateGetattr(s, e)
  {
    hide Enabled, Next;
    var t := Next(dec, s, e);
    if LateGetattr(s, e) {
      var id := s.pending[e.g];
      GetattrSide(dec, s, e, id);
      assert !LocalOk(t.mem[id]);
    } else {
      forall id | id in t.mem ensures LocalOk(t.mem[id])
      {
        EntryAfter(dec, s, e, id);
        if TurnsRemote(s, e, id) { PendingThere(dec, s, e); }
      }
    }
  }

  // ----- The mark -----

  ghost predicate NothingExcluded<Id>(s: State<Id>) {
    forall id :: id in s.mem ==> !s.mem[id].exclude
  }

  lemma StaysUnexcluded<Id>(dec: Object -> Option<bytes>, s: State<Id>, e: Event<Id>)
    requires Enabled(dec, s, e) && NothingExcluded(s) && !(e.CreateEnd? && e.exclude)
    ensures NothingExcluded(Next(dec, s, e))
  {
    hide Enabled, Next;
    forall id | id in Next(dec, s, e).mem ensures !Next(dec, s, e).mem[id].exclude
    {
      EntryAfter(dec, s, e, id);
    }
  }
}
