/** When dfs_rename answers -1, and when 0, in the terms of the calls' answers. */
module RenameReport {
  import opened Basics
  import opened TmpStr
  import opened RemoteTree
  import opened RenameSpec
  import opened Draws
  import opened RenameRun
  import opened RenameSafe
  import opened RenameRing
  import opened RenameLoss
  import opened RenamePlain
  import opened RenameAnswer

  /** The call reports something else than success and ENOENT. */
  predicate Refused(r: Answer) {
    r.Fails? && r.code != -2
  }

  // ----- A file -----

  /** For a file the answer is -1 if and only if the copy did not succeed, and 0 otherwise, whatever the
      unlink answers. */
  lemma FileAnswer(e: Env, w: World, o: TreePath, n: TreePath, stack: nat)
    requires IsFile(w.tree, o) && e.sched(w.tick).Fine?
    ensures var out := WholeRun(e, w, o, n, stack);
            && !out.crash && (out.ret == 0 || out.ret == -1)
            && (out.ret == -1 <==> e.sched(w.tick + 1).Fails? || !CanCopy(w.tree, o, n))
  {
  }

  /** When the lookup of the old name fails with 1, or fails and leaves a `type` that is neither a
      directory's nor a file's, the answer is -1 and nothing has happened. */
  lemma OldNameRefused(e: Env, w: World, o: TreePath, n: TreePath, stack: nat)
    requires e.sched(w.tick).Fails?
    requires e.sched(w.tick).code == 1 || (!e.garbage(w.tick + 1) && !e.garbage(w.tick + 2))
    ensures WholeRun(e, w, o, n, stack) == Out(w.(tick := w.tick + 1), -1, false)
  {
    hide DirRun, FileRun;
  }

  // ----- The new directory -----

  /** The rename of a directory comes to rename_directory, and answers -1 exactly when that does. */
  lemma DirectoryRun(e: Env, w: World, o: TreePath, n: TreePath, stack: nat)
    requires IsDir(w.tree, o) && e.sched(w.tick).Fine?
    ensures var out, dir := WholeRun(e, w, o, n, stack), DirRun(e, Asked(w), Outside(o), Outside(n), stack);
            out == dir.(ret := out.ret) && out.ret == (if dir.ret == -1 then -1 else 0)
  {
    hide DirRun, FileRun;
  }

  /** When the new name cannot be looked up, or the new directory cannot be made, the answer is -1 and
      nothing has happened but for what the mkdir itself may have done. */
  lemma TargetRefused(e: Env, w: World, o: TreePath, n: TreePath, stack: nat)
    requires IsDir(w.tree, o) && e.sched(w.tick).Fine? && stack > 0
    ensures Refused(e.sched(w.tick + 1)) ==>
              var out := WholeRun(e, w, o, n, stack); out.ret == -1 && !out.crash && out.w.tree == w.tree
    ensures (if e.sched(w.tick + 1).Fine? then n !in w.tree else e.sched(w.tick + 1).code == -2)
            && Refused(e.sched(w.tick + 2)) ==>
              var out := WholeRun(e, w, o, n, stack);
              && out.ret == -1 && !out.crash
              && (out.w.tree == w.tree || (n !in w.tree && out.w.tree == w.tree[n := Dir]))
  {
    DirectoryRun(e, w, o, n, stack);
    DirSteps(e, Asked(w), Outside(o), Outside(n), stack);
    hide DirRun, LoopRun, OpenRun, Rmdir, HasParent;
  }

  /** When the old directory cannot be entered or opened, the answer is -1 exactly for the status -1, and
      nothing is moved. */
  lemma SourceRefused(e: Env, w: World, o: TreePath, n: TreePath, stack: nat)
    requires IsDir(w.tree, o) && e.sched(w.tick).Fine? && stack > 0
    requires n in w.tree && e.sched(w.tick + 1).Fine?
    ensures var r := e.sched(w.tick + 2); var out := WholeRun(e, w, o, n, stack);
            r.Fails? && r.code != 0 ==>
              out.ret == (if r.code == -1 then -1 else 0) && !out.crash && out.w.tree == w.tree
    ensures var r := e.sched(w.tick + 3); var out := WholeRun(e, w, o, n, stack);
            e.sched(w.tick + 2).Fine? && r.Fails? && r.code != 0 ==>
              out.ret == (if r.code == -1 then -1 else 0) && !out.crash && out.w.tree == w.tree
  {
    DirectoryRun(e, w, o, n, stack);
    DirSteps(e, Asked(w), Outside(o), Outside(n), stack);
    hide DirRun, LoopRun, Rmdir, HasParent;
  }

  // ----- The entries -----

  /** Where the loop of rename_directory stands before it asks for its n-th name, if it gets there: it may
      have ended before. */
  function Turn(e: Env, v: World, from: Ref, to: Ref, names: seq<Name>, wasDir: bool, stack: nat, n: nat):
    Option<EntryOut>
    requires n <= |names|
  {
    if n == 0 then Some(EntryOut(v, 0, wasDir, false, false))
    else
      match Turn(e, v, from, to, names, wasDir, stack, n - 1)
      case None => None
      case Some(t) =>
        if e.sched(t.w.tick).Fails? then None
        else if Dotted(names[n - 1]) then Some(t.(w := Asked(t.w)))
        else
          var out := EntryRun(e, Asked(t.w), from, to, names[n - 1], t.isDir, stack);
          if out.abort || out.crash then None else Some(out)
  }

  /** From there on the loop goes as it goes from the start. */
  lemma {:induction false} TurnLoops(e: Env, v: World, from: Ref, to: Ref, names: seq<Name>, wasDir: bool, stack: nat,
                                     n: nat)
    requires n <= |names| && Turn(e, v, from, to, names, wasDir, stack, n).Some?
    ensures var t := Turn(e, v, from, to, names, wasDir, stack, n).value;
            && !t.abort && !t.crash
            && LoopRun(e, v, from, to, names, 0, 0, wasDir, stack)
               == LoopRun(e, t.w, from, to, names, n, t.ret, t.isDir, stack)
  {
    hide EntryRun;
    if n > 0 { TurnLoops(e, v, from, to, names, wasDir, stack, n - 1); }
  }

  /** The loop comes to a name whose entry cannot be looked up. */
  ghost predicate EntryRefused(e: Env, v: World, from: Ref, to: Ref, names: seq<Name>, wasDir: bool, stack: nat, n: nat)
    requires n <= |names|
  {
    var turn := Turn(e, v, from, to, names, wasDir, stack, n);
    && n < |names| && turn.Some? && !Dotted(names[n])
    && e.sched(turn.value.w.tick).Fine? && Refused(e.sched(turn.value.w.tick + 1))
  }

  /** The loop ends before its n-th name, with the answer `ret` of the last entry it has moved. */
  ghost predicate EndsWith(e: Env, v: World, from: Ref, to: Ref, names: seq<Name>, wasDir: bool, stack: nat, n: nat,
                           ret: int)
    requires n <= |names|
  {
    var turn := Turn(e, v, from, to, names, wasDir, stack, n);
    turn.Some? && (n == |names| || e.sched(turn.value.w.tick).Fails?) && turn.value.ret == ret
  }

  lemma LookupRefused(e: Env, w: World, from: Ref, to: Ref, x: Name, wasDir: bool, stack: nat)
    ensures var out := EntryRun(e, w, from, to, x, wasDir, stack);
            && (out.abort <==> Refused(e.sched(w.tick)))
            && (out.abort ==> out.ret == -1 && !out.crash && out.w.tree == w.tree)
  {
    EntrySteps(e, w, from, to, x, wasDir, stack);
    hide At, DirRun, FileRun;
  }

  /** An entry the store does not have is taken for what the entry before it was: after a file the copy
      fails, and after a directory a directory is made at the new name, with nothing to move into it. */
  lemma MissingEntry(e: Env, w: World, from: Ref, to: Ref, x: Name, wasDir: bool, stack: nat)
    requires stack > 0 && forall i :: w.tick <= i < w.tick + 4 ==> e.sched(i).Fine?
    requires At(w, from) + [x] !in w.tree
    ensures var src := At(w, from) + [x];
            var dst := At(Draw(w, src), to) + [x];
            var out := EntryRun(e, w, from, to, x, wasDir, stack);
            && !out.abort && out.isDir == wasDir
            && (!wasDir ==> out.ret == -1 && out.w.tree == w.tree)
            && (wasDir && dst != src && dst !in w.tree && HasParent(w.tree, dst) ==>
                  out.ret == DPL_EINVAL && !out.crash && out.w.tree == w.tree[dst := Dir])
  {
    var src := At(w, from) + [x];
    var dst := At(Draw(w, src), to) + [x];
    EntrySteps(e, w, from, to, x, wasDir, stack);
    var w1, w2 := Draw(w, src), Draw(Draw(w, src), dst);
    JustDrawn(w, src, dst);
    SameReading(w2, Asked(w2), Last(w1));
    SameReading(w2, Asked(w2), Last(w2));
    assert e.sched(w.tick).Fine? && e.sched(w.tick + 1).Fine?;
    if wasDir && dst != src && dst !in w.tree && HasParent(w.tree, dst) {
      NoSource(e, Asked(w2), Last(w1), Last(w2), stack);
    }
    hide At, Draw, Last, DirRun, HasParent, Reads, EntryRun;
  }

  /** rename_directory of what is not there makes the new directory all the same. */
  lemma NoSource(e: Env, w: World, from: Ref, to: Ref, stack: nat)
    requires stack > 0 && forall i :: w.tick <= i < w.tick + 3 ==> e.sched(i).Fine?
    requires At(w, from) !in w.tree && At(w, to) !in w.tree && HasParent(w.tree, At(w, to)) && At(w, from) != At(w, to)
    ensures var out := DirRun(e, w, from, to, stack);
            out.ret == DPL_EINVAL && !out.crash && out.w.tree == w.tree[At(w, to) := Dir]
  {
    DirSteps(e, w, from, to, stack);
    assert e.sched(w.tick).Fine? && e.sched(w.tick + 1).Fine? && e.sched(w.tick + 2).Fine?;
    var v := Called(Asked(w), w.tree[At(w, to) := Dir]);
    SameReading(w, Asked(w), to);
    SameReading(w, v, from);
    hide At, HasParent, DirRun, LoopRun, Rmdir;
  }

  /** An entry that cannot be looked up ends the loop at once. */
  lemma RefusedEnds(e: Env, v: World, from: Ref, to: Ref, names: seq<Name>, wasDir: bool, stack: nat, n: nat)
    requires n <= |names| && EntryRefused(e, v, from, to, names, wasDir, stack, n)
    ensures var out := LoopRun(e, v, from, to, names, 0, 0, wasDir, stack);
            && out.abort && out.ret == -1 && !out.crash
            && out.w.tree == Turn(e, v, from, to, names, wasDir, stack, n).value.w.tree
  {
    hide EntryRun, Turn, Refused;
    TurnLoops(e, v, from, to, names, wasDir, stack, n);
    var t := Turn(e, v, from, to, names, wasDir, stack, n).value;
    LookupRefused(e, Asked(t.w), from, to, names[n], t.isDir, stack);
  }

  /** The loop comes to its n-th name with the stack running out in that entry. */
  ghost predicate EntryCrashes(e: Env, v: World, from: Ref, to: Ref, names: seq<Name>, wasDir: bool, stack: nat, n: nat)
    requires n <= |names|
  {
    var turn := Turn(e, v, from, to, names, wasDir, stack, n);
    && n < |names| && turn.Some? && !Dotted(names[n]) && e.sched(turn.value.w.tick).Fine?
    && EntryRun(e, Asked(turn.value.w), from, to, names[n], turn.value.isDir, stack).crash
  }

  lemma NextTurn(e: Env, v: World, from: Ref, to: Ref, names: seq<Name>, wasDir: bool, stack: nat, n: nat)
    requires n <= |names| && Turn(e, v, from, to, names, wasDir, stack, n).Some?
    ensures var ret := Turn(e, v, from, to, names, wasDir, stack, n).value.ret;
            || EndsWith(e, v, from, to, names, wasDir, stack, n, ret)
            || EntryRefused(e, v, from, to, names, wasDir, stack, n)
            || EntryCrashes(e, v, from, to, names, wasDir, stack, n)
            || (n < |names| && Turn(e, v, from, to, names, wasDir, stack, n + 1).Some?)
  {
    hide EntryRun, Refused;
    var t := Turn(e, v, from, to, names, wasDir, stack, n).value;
    if n < |names| { LookupRefused(e, Asked(t.w), from, to, names[n], t.isDir, stack); }
  }

  lemma CrashEnds(e: Env, v: World, from: Ref, to: Ref, names: seq<Name>, wasDir: bool, stack: nat, n: nat)
    requires n <= |names| && EntryCrashes(e, v, from, to, names, wasDir, stack, n)
    ensures LoopRun(e, v, from, to, names, 0, 0, wasDir, stack).crash
  {
    hide EntryRun, Turn;
    TurnLoops(e, v, from, to, names, wasDir, stack, n);
  }

  lemma EndIs(e: Env, v: World, from: Ref, to: Ref, names: seq<Name>, wasDir: bool, stack: nat, n: nat, ret: int)
    requires n <= |names| && EndsWith(e, v, from, to, names, wasDir, stack, n, ret)
    ensures var out := LoopRun(e, v, from, to, names, 0, 0, wasDir, stack); out.ret == ret && !out.abort
  {
    hide EntryRun, Turn;
    TurnLoops(e, v, from, to, names, wasDir, stack, n);
  }

  /** An entry cannot be looked up, or the last one that was moved answered -1. */
  ghost predicate Fruitless(e: Env, v: World, from: Ref, to: Ref, names: seq<Name>, wasDir: bool, stack: nat) {
    exists k: nat :: k <= |names| &&
        (EntryRefused(e, v, from, to, names, wasDir, stack, k) || EndsWith(e, v, from, to, names, wasDir, stack, k, -1))
  }

  /** A loop that does not run out of stack answers -1 if and only if it ends at an entry that cannot be
      looked up, or out of names or of answers with -1 from the last entry. */
  lemma {:induction false} LoopAnswer(e: Env, v: World, from: Ref, to: Ref, names: seq<Name>, wasDir: bool, stack: nat,
                                      n: nat)
    requires n <= |names| && Turn(e, v, from, to, names, wasDir, stack, n).Some?
    ensures var out := LoopRun(e, v, from, to, names, 0, 0, wasDir, stack);
            !out.crash ==> (out.ret == -1 <==> Fruitless(e, v, from, to, names, wasDir, stack))
    decreases |names| - n
  {
    hide LoopRun, EntryRefused, EntryCrashes, EndsWith, Turn;
    NextTurn(e, v, from, to, names, wasDir, stack, n);
    if EntryRefused(e, v, from, to, names, wasDir, stack, n) {
      RefusedEnds(e, v, from, to, names, wasDir, stack, n);
    } else if EntryCrashes(e, v, from, to, names, wasDir, stack, n) {
      CrashEnds(e, v, from, to, names, wasDir, stack, n);
    } else if n < |names| && Turn(e, v, from, to, names, wasDir, stack, n + 1).Some? {
      LoopAnswer(e, v, from, to, names, wasDir, stack, n + 1);
    } else {
      var ret := Turn(e, v, from, to, names, wasDir, stack, n).value.ret;
      EndIs(e, v, from, to, names, wasDir, stack, n, ret);
    }
    forall k: nat | k <= |names| && EntryRefused(e, v, from, to, names, wasDir, stack, k)
      ensures LoopRun(e, v, from, to, names, 0, 0, wasDir, stack).ret == -1
    {
      RefusedEnds(e, v, from, to, names, wasDir, stack, k);
    }
    forall k: nat | k <= |names| && EndsWith(e, v, from, to, names, wasDir, stack, k, -1)
      ensures LoopRun(e, v, from, to, names, 0, 0, wasDir, stack).ret == -1
    {
      EndIs(e, v, from, to, names, wasDir, stack, k, -1);
    }
  }

  // ----- The answer, exactly -----

  /** The new directory is there or has been made, and the old one has been entered and opened: what is
      left is the loop over `names` from `v` on. */
  ghost predicate Listed(e: Env, w: World, o: TreePath, n: TreePath, v: World, names: seq<Name>) {
    var made := TargetRun(e, Asked(w), Outside(n));
    made.ret == 0 && OpenRun(e, made.w, Outside(o)) == (Out(v, 0, false), names)
  }

  /** An entry of the directory that cannot be looked up makes the answer -1; what was moved before stays
      moved. */
  lemma EntryUnknown(e: Env, w: World, o: TreePath, n: TreePath, stack: nat, v: World, names: seq<Name>, i: nat)
    requires IsDir(w.tree, o) && e.sched(w.tick).Fine? && stack > 0 && Listed(e, w, o, n, v, names)
    requires i <= |names| && EntryRefused(e, v, Outside(o), Outside(n), names, e.garbage(v.tick), stack - 1, i)
    ensures var out := WholeRun(e, w, o, n, stack);
            && out.ret == -1 && !out.crash
            && out.w.tree == Turn(e, v, Outside(o), Outside(n), names, e.garbage(v.tick), stack - 1, i).value.w.tree
  {
    DirectoryRun(e, w, o, n, stack);
    DirSteps(e, Asked(w), Outside(o), Outside(n), stack);
    RefusedEnds(e, v, Outside(o), Outside(n), names, e.garbage(v.tick), stack - 1, i);
    hide WholeRun, DirRun, LoopRun, OpenRun, TargetRun, Rmdir, EntryRefused, Turn;
  }

  /** Once the directory is listed, the answer is -1 if and only if an entry cannot be looked up, or the last
      entry that was moved answered -1. */
  lemma ListedAnswer(e: Env, w: World, o: TreePath, n: TreePath, stack: nat, v: World, names: seq<Name>)
    requires IsDir(w.tree, o) && e.sched(w.tick).Fine? && stack > 0 && Listed(e, w, o, n, v, names)
    requires !WholeRun(e, w, o, n, stack).crash
    ensures WholeRun(e, w, o, n, stack).ret == -1 <==>
            Fruitless(e, v, Outside(o), Outside(n), names, e.garbage(v.tick), stack - 1)
  {
    DirectoryRun(e, w, o, n, stack);
    DirSteps(e, Asked(w), Outside(o), Outside(n), stack);
    LoopAnswer(e, v, Outside(o), Outside(n), names, e.garbage(v.tick), stack - 1, 0);
    hide WholeRun, DirRun, LoopRun, OpenRun, TargetRun, Rmdir, Fruitless;
  }

  ghost predicate CanList(e: Env, w: World, o: TreePath, n: TreePath) {
    exists v, names :: Listed(e, w, o, n, v, names)
  }

  /** The loop over the entries meets one that cannot be looked up, or ends with an entry that answered -1. */
  ghost predicate EntriesFail(e: Env, w: World, o: TreePath, n: TreePath, room: nat) {
    exists v, names :: Listed(e, w, o, n, v, names)
      && Fruitless(e, v, Outside(o), Outside(n), names, e.garbage(v.tick), room)
  }

  lemma DirectoryAnswer(e: Env, w: World, o: TreePath, n: TreePath, stack: nat)
    requires IsDir(w.tree, o) && e.sched(w.tick).Fine? && stack > 0 && CanList(e, w, o, n)
    requires !WholeRun(e, w, o, n, stack).crash
    ensures WholeRun(e, w, o, n, stack).ret == -1 <==> EntriesFail(e, w, o, n, stack - 1)
  {
    hide WholeRun, Fruitless;
    var v, names :| Listed(e, w, o, n, v, names);
    ListedAnswer(e, w, o, n, stack, v, names);
  }

  // ----- Every call succeeding -----

  /** The rename of a directory of files, every call succeeding, answers 0 and moves them all, however many
      there are: its own names are not in the ring. */
  lemma FilesAnswer(e: Env, w: World, o: TreePath, n: TreePath, stack: nat)
    requires Good(w) && ListsWell(e) && AlwaysFine(e) && Disjoint(o, n) && Disjoint(e.cacheDir, o) && GoodName(n)
    requires HasParent(w.tree, n) && Compatible(w.tree, o, n) && IsDir(w.tree, o) && FilesOnly(w.tree, o)
    requires stack > |Subtree(w.tree, o)|
    ensures var out := WholeRun(e, w, o, n, stack); out.ret == 0 && Relocated(w.tree, out.w.tree, o, n)
  {
    assert RingFits(w.tree, o) by {
      forall d | Under(o, d) && d != o ensures !IsDir(w.tree, d) {}
    }
    hide WholeRun, Relocated, RingFits, Compatible, Disjoint, ListsWell, FilesOnly, Subtree, HasParent, WellFormed;
    RenameExactly(e, w, o, n, stack);
  }

  /** The old directory holds one directory of plain files and nothing else, and nothing is in the way. */
  ghost predicate HoldsOnly(e: Env, t: Tree, o: TreePath, n: TreePath, b: Name) {
    && Apart(o, n, e.cacheDir) && GoodName(n) && IsDir(t, o) && HasParent(t, n) && Compatible(t, o, n)
    && Children(t, o) == {b} && IsDir(t, o + [b]) && FilesOnly(t, o + [b]) && NoCache(t, e.cacheDir)
  }

  /** Its rename, every call succeeding, answers 0 if and only if there are at most eleven files, which is
      one more than it can move. */
  lemma OnlyRename(e: Env, w: World, stack: nat, o: TreePath, n: TreePath, b: Name)
    requires AlwaysFine(e) && WellFormed(w.tree) && ListsWell(e) && stack > 2 && HoldsOnly(e, w.tree, o, n, b)
    ensures var out := WholeRun(e, w, o, n, stack);
            !out.crash && out.ret == if |Children(w.tree, o + [b])| <= 11 then 0 else -1
  {
    assert e.sched(w.tick).Fine?;
    DirectoryRun(e, w, o, n, stack);
    hide WholeRun, DirRun, ListsWell, WellFormed, Compatible, HasParent, Children, FilesOnly, NoCache, Apart;
    OnlyAnswer(e, Asked(w), stack, o, n, b);
  }
}
