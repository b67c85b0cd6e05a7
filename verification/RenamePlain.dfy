/** Safety beyond the ring: a subdirectory of plain files may overwrite its own names, and still no
    file is lost, because the names it then uses are those of nothing that is to be moved. */
module RenamePlain {
  import opened Basics
  import opened TmpStr
  import opened RemoteTree
  import opened RenameSpec
  import opened Draws
  import opened RenameRun
  import opened RenameSafe
  import opened RenameRing

  // ----- Names that point at nothing to be moved -----

  predicate Strictly(p: TreePath, q: TreePath) {
    Under(p, q) && |q| > |p|
  }

  /** Below the old directory `d`, the new one `m`, or the cache directory `c`. */
  predicate Stray(d: TreePath, m: TreePath, c: TreePath, p: TreePath) {
    Strictly(d, p) || Strictly(m, p) || Strictly(c, p)
  }

  /** And below an entry of `d` or `m`. */
  predicate Deep(d: TreePath, m: TreePath, c: TreePath, p: TreePath) {
    (Under(d, p) && |p| > |d| + 1) || (Under(m, p) && |p| > |m| + 1) || Strictly(c, p)
  }

  lemma Deeper(d: TreePath, m: TreePath, c: TreePath, p: TreePath, x: Name)
    ensures Stray(d, m, c, p) ==> Deep(d, m, c, p + [x])
    ensures Deep(d, m, c, p) ==> Stray(d, m, c, p)
  {
  }

  ghost predicate AllStray(log: seq<TreePath>, since: nat, d: TreePath, m: TreePath, c: TreePath) {
    since <= |log| && forall j :: since <= j < |log| ==> Stray(d, m, c, log[j])
  }

  lemma StrayReads(w: World, ref: Ref, since: nat, d: TreePath, m: TreePath, c: TreePath)
    requires Late(w.log, ref, since) && AllStray(w.log, since, d, m, c)
    ensures Stray(d, m, c, At(w, ref))
  {
    var i :| since <= i && DrawnIn(w.log, i, ref.k);
    Lifetime(|w.log|, i);
  }

  /** The old directory holds files only, and nothing is under the cache directory. */
  ghost predicate Plain(t: Tree, d: TreePath, c: TreePath) {
    forall q :: q in t ==> !Under(c, q) && (Under(d, q) && q != d ==> |q| == |d| + 1 && t[q].File?)
  }

  /** Only below entries of the new directory has anything changed, or an entry that was a directory. */
  ghost predicate Harmless(t: Tree, u: Tree, m: TreePath) {
    forall q :: Lookup(u, q) == Lookup(t, q) || (Under(m, q) && |q| > |m| && (|q| > |m| + 1 || IsDir(t, q)))
  }

  lemma HarmlessOn(t: Tree, u: Tree, v: Tree, m: TreePath)
    requires Harmless(t, u, m) && Harmless(u, v, m)
    ensures Harmless(t, v, m)
  {
    forall q ensures Lookup(v, q) == Lookup(t, q) || (Under(m, q) && |q| > |m| && (|q| > |m| + 1 || IsDir(t, q)))
    {
      assert Lookup(v, q) == Lookup(u, q) || (Under(m, q) && |q| > |m| && (|q| > |m| + 1 || IsDir(u, q)));
      assert Lookup(u, q) == Lookup(t, q) || (Under(m, q) && |q| > |m| && (|q| > |m| + 1 || IsDir(t, q)));
    }
  }

  ghost predicate Apart(d: TreePath, m: TreePath, c: TreePath) {
    Disjoint(d, m) && Disjoint(c, d) && Disjoint(c, m)
  }

  /** Harmless changes leave the old directory plain. */
  lemma PlainStays(t: Tree, u: Tree, d: TreePath, m: TreePath, c: TreePath)
    requires Plain(t, d, c) && Harmless(t, u, m) && Apart(d, m, c)
    ensures Plain(u, d, c)
  {
    forall q | q in u ensures !Under(c, q) && (Under(d, q) && q != d ==> |q| == |d| + 1 && u[q].File?)
    {
      UnderBoth(d, m, q);
      UnderBoth(c, m, q);
      assert Lookup(u, q) == Lookup(t, q) || Under(m, q);
    }
  }

  // ----- Calls on such names -----

  lemma StrayMkdir(t: Tree, p: TreePath, r: Answer, d: TreePath, m: TreePath, c: TreePath)
    requires Plain(t, d, c) && Apart(d, m, c) && Deep(d, m, c, p)
    ensures Harmless(t, Mkdir(t, p, r).0, m)
  {
    if HasParent(t, p) { DeepParent(t, p, d, m, c); }
  }

  /** What can be created under a deep name is below an entry of the new directory. */
  lemma DeepParent(t: Tree, p: TreePath, d: TreePath, m: TreePath, c: TreePath)
    requires Plain(t, d, c) && Deep(d, m, c, p) && HasParent(t, p)
    ensures Under(m, p) && |p| > |m| + 1
  {
    var q := Parent(p);
    assert Strictly(c, p) ==> Under(c, q);
    assert Under(d, p) && |p| > |d| + 1 ==> Under(d, q) && q != d;
  }

  lemma StrayCopy(t: Tree, src: TreePath, dst: TreePath, r: Answer, d: TreePath, m: TreePath, c: TreePath)
    requires Plain(t, d, c) && Apart(d, m, c) && Deep(d, m, c, dst)
    ensures Harmless(t, Fcopy(t, src, dst, r).0, m)
  {
    if CanCopy(t, src, dst) { DeepParent(t, dst, d, m, c); }
  }

  lemma StrayUnlink(t: Tree, p: TreePath, r: Answer, d: TreePath, m: TreePath, c: TreePath)
    requires Plain(t, d, c) && Apart(d, m, c) && Deep(d, m, c, p)
    ensures Harmless(t, Unlink(t, p, r).0, m)
  {
  }

  lemma StrayRmdir(t: Tree, p: TreePath, r: Answer, d: TreePath, m: TreePath, c: TreePath)
    requires Plain(t, d, c) && Apart(d, m, c) && Stray(d, m, c, p)
    ensures Harmless(t, Rmdir(t, p, r).0, m)
  {
  }

  // ----- Runs on such names -----

  ghost predicate Steady(e: Env, w: World, since: nat, d: TreePath, m: TreePath) {
    Good(w) && AllStray(w.log, since, d, m, e.cacheDir) && Plain(w.tree, d, e.cacheDir)
  }

  ghost predicate Drifts(w: World, u: World, m: TreePath) {
    && Grew(w, u) && Harmless(w.tree, u.tree, m)
    && (forall i :: |w.trace| <= i < |u.trace| ==> Harmless(w.tree, u.trace[i], m))
  }

  lemma DriftsOn(w: World, v: World, u: World, m: TreePath)
    requires Drifts(w, v, m) && Drifts(v, u, m)
    ensures Drifts(w, u, m)
  {
    hide Harmless;
    HarmlessOn(w.tree, v.tree, u.tree, m);
    forall i | |w.trace| <= i < |u.trace| ensures Harmless(w.tree, u.trace[i], m)
    {
      if i < |v.trace| { assert u.trace[i] == v.trace[i]; } else { HarmlessOn(w.tree, v.tree, u.trace[i], m); }
    }
  }

  /** A call with a harmless outcome. */
  lemma CallDrifts(e: Env, w: World, t: Tree, since: nat, d: TreePath, m: TreePath)
    requires Steady(e, w, since, d, m) && Harmless(w.tree, t, m) && WellFormed(t) && Apart(d, m, e.cacheDir)
    ensures Drifts(w, Called(w, t), m) && Steady(e, Called(w, t), since, d, m)
  {
    hide Harmless, WellFormed, AllStray, Plain, Disjoint;
    PlainStays(w.tree, t, d, m, e.cacheDir);
  }

  lemma AskDrifts(e: Env, w: World, since: nat, d: TreePath, m: TreePath)
    requires Steady(e, w, since, d, m)
    ensures Drifts(w, Asked(w), m) && Steady(e, Asked(w), since, d, m)
  {
    hide WellFormed, AllStray, Plain;
  }

  lemma DrawDrifts(e: Env, w: World, p: TreePath, since: nat, d: TreePath, m: TreePath)
    requires Steady(e, w, since, d, m) && Stray(d, m, e.cacheDir, p)
    ensures Drifts(w, Draw(w, p), m) && Steady(e, Draw(w, p), since, d, m)
  {
    hide WellFormed, Plain, Stray;
  }

  /** Two names drawn from stray bases, read back. */
  lemma StrayNames(e: Env, w: World, p: TreePath, q: TreePath, since: nat, d: TreePath, m: TreePath)
    requires Steady(e, w, since, d, m) && Stray(d, m, e.cacheDir, p) && Stray(d, m, e.cacheDir, q)
    ensures var w1, w2 := Draw(w, p), Draw(Draw(w, p), q);
            && Steady(e, Asked(w2), since, d, m) && Drifts(w, Asked(w2), m)
            && At(Asked(w2), Last(w1)) == p && At(Asked(w2), Last(w2)) == q
            && Late(w2.log, Last(w1), since) && Late(w2.log, Last(w2), since)
  {
    hide At, Stray, Plain, WellFormed, Harmless, Late, AllStray;
    var w1, w2 := Draw(w, p), Draw(Draw(w, p), q);
    assert since <= |w.log| by { StraySince(w.log, since, d, m, e.cacheDir); }
    DrawDrifts(e, w, p, since, d, m);
    DrawDrifts(e, w1, q, since, d, m);
    AskDrifts(e, w2, since, d, m);
    DriftsOn(w, w1, w2, m);
    DriftsOn(w, w2, Asked(w2), m);
    LateLast(w, p, w2.log, since);
    LateLast(w1, q, w2.log, since);
    TwoNames(w, p, q);
    SameReading(w2, Asked(w2), Last(w1));
    SameReading(w2, Asked(w2), Last(w2));
  }

  lemma StraySince(log: seq<TreePath>, since: nat, d: TreePath, m: TreePath, c: TreePath)
    requires AllStray(log, since, d, m, c)
    ensures since <= |log|
  {
  }

  lemma TwoNames(w: World, p: TreePath, q: TreePath)
    ensures var w1, w2 := Draw(w, p), Draw(Draw(w, p), q); At(w2, Last(w1)) == p && At(w2, Last(w2)) == q
  {
    var w2 := Draw(Draw(w, p), q);
    Lifetime(|w2.log|, |w.log|);
    Lifetime(|w2.log|, |w.log| + 1);
  }

  lemma StrayFile(e: Env, w: World, from: Ref, to: Ref, since: nat, d: TreePath, m: TreePath)
    requires Steady(e, w, since, d, m) && Apart(d, m, e.cacheDir) && GoodName(At(w, to))
    requires Deep(d, m, e.cacheDir, At(w, from)) && Deep(d, m, e.cacheDir, At(w, to))
    ensures Drifts(w, FileRun(e, w, from, to).w, m) && Steady(e, FileRun(e, w, from, to).w, since, d, m)
  {
    hide At, Deep, Plain, WellFormed, Harmless, AllStray, Apart, Fcopy, Unlink, Stray, GoodName;
    var src, dst, r := At(w, from), At(w, to), e.sched(w.tick);
    GoodNames(dst);
    FcopyKeeps(w.tree, src, dst, r);
    StrayCopy(w.tree, src, dst, r, d, m, e.cacheDir);
    var w1 := Called(w, Fcopy(w.tree, src, dst, r).0);
    CallDrifts(e, w, w1.tree, since, d, m);
    if Fcopy(w.tree, src, dst, r).1 == DPL_SUCCESS {
      SameReading(w, w1, from);
      var r1 := e.sched(w1.tick);
      UnlinkKeeps(w1.tree, src, r1);
      StrayUnlink(w1.tree, src, r1, d, m, e.cacheDir);
      var w2 := Called(w1, Unlink(w1.tree, src, r1).0);
      CallDrifts(e, w1, w2.tree, since, d, m);
      DriftsOn(w, w1, w2, m);
      CacheStray(e, d, m, src);
      DrawDrifts(e, w2, e.cacheDir + src, since, d, m);
      DriftsOn(w, w2, Draw(w2, e.cacheDir + src), m);
    }
  }

  lemma GoodNames(p: TreePath)
    ensures GoodName(p) ==> p != [] && p[|p| - 1] != "." && p[|p| - 1] != ".."
  {
  }

  lemma CacheStray(e: Env, d: TreePath, m: TreePath, p: TreePath)
    requires Deep(d, m, e.cacheDir, p)
    ensures Stray(d, m, e.cacheDir, e.cacheDir + p)
  {
  }

  lemma StrayTarget(e: Env, w: World, to: Ref, since: nat, d: TreePath, m: TreePath)
    requires Steady(e, w, since, d, m) && Apart(d, m, e.cacheDir) && GoodName(At(w, to))
    requires Deep(d, m, e.cacheDir, At(w, to))
    ensures Drifts(w, TargetRun(e, w, to).w, m) && Steady(e, TargetRun(e, w, to).w, since, d, m)
  {
    hide At, Deep, Plain, WellFormed, Harmless, AllStray, Apart, Mkdir, Stray, GoodName, Namei;
    var dst, w1 := At(w, to), Asked(w);
    AskDrifts(e, w, since, d, m);
    SameReading(w, w1, to);
    var r := e.sched(w1.tick);
    GoodNames(dst);
    MkdirKeeps(w1.tree, dst, r);
    StrayMkdir(w1.tree, dst, r, d, m, e.cacheDir);
    CallDrifts(e, w1, Mkdir(w1.tree, dst, r).0, since, d, m);
    DriftsOn(w, w1, Called(w1, Mkdir(w1.tree, dst, r).0), m);
  }

  lemma StrayOpen(e: Env, w: World, from: Ref, since: nat, d: TreePath, m: TreePath)
    requires Steady(e, w, since, d, m)
    ensures Drifts(w, OpenRun(e, w, from).0.w, m) && Steady(e, OpenRun(e, w, from).0.w, since, d, m)
    ensures OpenRun(e, w, from).0.w.log == w.log
  {
    hide At, Plain, WellFormed, Harmless, AllStray;
    AskDrifts(e, w, since, d, m);
    AskDrifts(e, Asked(w), since, d, m);
    DriftsOn(w, Asked(w), Asked(Asked(w)), m);
  }

  lemma {:induction false} StrayEntry(e: Env, w: World, from: Ref, to: Ref, x: Name, wasDir: bool, stack: nat,
                                      since: nat, d: TreePath, m: TreePath)
    requires Steady(e, w, since, d, m) && Apart(d, m, e.cacheDir) && !Dotted(x)
    requires Stray(d, m, e.cacheDir, At(w, from)) && Stray(d, m, e.cacheDir, At(Draw(w, At(w, from) + [x]), to))
    ensures var u := EntryRun(e, w, from, to, x, wasDir, stack).w; Drifts(w, u, m) && Steady(e, u, since, d, m)
    decreases stack, 1, 0
  {
    hide At, Plain, WellFormed, Harmless, AllStray, Apart, Stray, Deep, Late, DirRun, FileRun, EntryRun, Steady,
         Drifts, Namei;
    var src := At(w, from) + [x];
    var dst := At(Draw(w, src), to) + [x];
    Deeper(d, m, e.cacheDir, At(w, from), x);
    Deeper(d, m, e.cacheDir, At(Draw(w, src), to), x);
    Deeper(d, m, e.cacheDir, src, x);
    Deeper(d, m, e.cacheDir, dst, x);
    EntrySteps(e, w, from, to, x, wasDir, stack);
    StrayNames(e, w, src, dst, since, d, m);
    var w1, w2 := Draw(w, src), Draw(Draw(w, src), dst);
    var w3 := Asked(w2);
    StrayFile(e, w3, Last(w1), Last(w2), since, d, m);
    StrayDir(e, w3, Last(w1), Last(w2), stack, since, d, m);
    DriftsOn(w, w3, FileRun(e, w3, Last(w1), Last(w2)).w, m);
    DriftsOn(w, w3, DirRun(e, w3, Last(w1), Last(w2), stack).w, m);
  }

  lemma {:induction false} StrayLoop(e: Env, w: World, from: Ref, to: Ref, names: seq<Name>, i: nat, ret: int,
                                     isDir: bool, stack: nat, since: nat, d: TreePath, m: TreePath)
    requires Steady(e, w, since, d, m) && Apart(d, m, e.cacheDir) && i <= |names|
    requires Late(w.log, from, since) && Late(w.log, to, since)
    ensures var u := LoopRun(e, w, from, to, names, i, ret, isDir, stack).w;
            Drifts(w, u, m) && Steady(e, u, since, d, m)
    decreases stack, 2, |names| - i
  {
    hide At, Plain, WellFormed, Harmless, AllStray, Apart, Stray, Deep, Late, DirRun, EntryRun;
    AskDrifts(e, w, since, d, m);
    if i < |names| && e.sched(w.tick).Fine? {
      var w1 := Asked(w);
      if Dotted(names[i]) {
        StrayLoop(e, w1, from, to, names, i + 1, ret, isDir, stack, since, d, m);
        DriftsOn(w, w1, LoopRun(e, w1, from, to, names, i + 1, ret, isDir, stack).w, m);
      } else {
        StrayBases(e, w1, from, to, names[i], since, d, m);
        StrayEntry(e, w1, from, to, names[i], isDir, stack, since, d, m);
        var out := EntryRun(e, w1, from, to, names[i], isDir, stack);
        DriftsOn(w, w1, out.w, m);
        if !out.abort && !out.crash {
          NearLater(w.log, out.w.log, from, names[i], since, d);
          NearLater(w.log, out.w.log, to, names[i], since, d);
          StrayLoop(e, out.w, from, to, names, i + 1, out.ret, out.isDir, stack, since, d, m);
          DriftsOn(w, out.w, LoopRun(e, out.w, from, to, names, i + 1, out.ret, out.isDir, stack).w, m);
        }
      }
    } else {
      NothingDrifts(w, m);
    }
  }

  lemma NothingDrifts(w: World, m: TreePath)
    ensures Drifts(w, w, m)
  {
  }

  lemma StrayBases(e: Env, w: World, from: Ref, to: Ref, x: Name, since: nat, d: TreePath, m: TreePath)
    requires Steady(e, w, since, d, m) && Late(w.log, from, since) && Late(w.log, to, since)
    ensures Stray(d, m, e.cacheDir, At(w, from)) && Stray(d, m, e.cacheDir, At(Draw(w, At(w, from) + [x]), to))
  {
    hide At, Plain, WellFormed, Stray, Late, Deep;
    StrayReads(w, from, since, d, m, e.cacheDir);
    Deeper(d, m, e.cacheDir, At(w, from), x);
    Deeper(d, m, e.cacheDir, At(w, from) + [x], x);
    var w1 := Draw(w, At(w, from) + [x]);
    DrawDrifts(e, w, At(w, from) + [x], since, d, m);
    NearLater(w.log, w1.log, to, x, since, d);
    StrayReads(w1, to, since, d, m, e.cacheDir);
  }

  lemma {:induction false} StrayDir(e: Env, w: World, from: Ref, to: Ref, stack: nat, since: nat, d: TreePath,
                                    m: TreePath)
    requires Steady(e, w, since, d, m) && Apart(d, m, e.cacheDir) && GoodName(At(w, to))
    requires Deep(d, m, e.cacheDir, At(w, to))
    requires Late(w.log, from, since) && Late(w.log, to, since)
    ensures var u := DirRun(e, w, from, to, stack).w; Drifts(w, u, m) && Steady(e, u, since, d, m)
    decreases stack, 0, 0
  {
    hide At, Plain, WellFormed, Harmless, AllStray, Apart, Stray, Deep, Late, DirRun, LoopRun, TargetRun, OpenRun,
         Rmdir, Steady, Drifts;
    NoStack(e, w, from, to);
    NothingDrifts(w, m);
    if stack > 0 {
      DirSteps(e, w, from, to, stack);
      StepsGrow(e, w, from, to);
      StrayTarget(e, w, to, since, d, m);
      var made := TargetRun(e, w, to);
      StepsGrow(e, made.w, from, to);
      StrayOpen(e, made.w, from, since, d, m);
      var (listed, names) := OpenRun(e, made.w, from);
      DriftsOn(w, made.w, listed.w, m);
      NearLater(w.log, listed.w.log, from, "", since, d);
      NearLater(w.log, listed.w.log, to, "", since, d);
      StrayLoop(e, listed.w, from, to, names, 0, 0, e.garbage(listed.w.tick), stack - 1, since, d, m);
      LoopGrows(e, listed.w, from, to, names, 0, 0, e.garbage(listed.w.tick), stack - 1);
      var moved := LoopRun(e, listed.w, from, to, names, 0, 0, e.garbage(listed.w.tick), stack - 1);
      DriftsOn(w, listed.w, moved.w, m);
      NearLater(listed.w.log, moved.w.log, from, "", since, d);
      StrayRemoval(e, moved.w, from, since, d, m);
      DriftsOn(w, moved.w, Called(moved.w, Rmdir(moved.w.tree, At(moved.w, from), e.sched(moved.w.tick)).0), m);
    }
  }

  lemma StrayRemoval(e: Env, w: World, from: Ref, since: nat, d: TreePath, m: TreePath)
    requires Steady(e, w, since, d, m) && Apart(d, m, e.cacheDir) && Late(w.log, from, since)
    ensures var u := Called(w, Rmdir(w.tree, At(w, from), e.sched(w.tick)).0);
            Drifts(w, u, m) && Steady(e, u, since, d, m)
  {
    hide At, Plain, WellFormed, Harmless, Apart, Stray, Late, Rmdir;
    var r := e.sched(w.tick);
    StrayReads(w, from, since, d, m, e.cacheDir);
    RmdirKeeps(w.tree, At(w, from), r);
    StrayRmdir(w.tree, At(w, from), r, d, m, e.cacheDir);
    CallDrifts(e, w, Rmdir(w.tree, At(w, from), r).0, since, d, m);
  }

  // ----- Turns whose names are the right ones -----

  lemma FcopyPlain(t: Tree, src: TreePath, dst: TreePath, r: Answer, d: TreePath, m: TreePath, c: TreePath)
    requires Plain(t, d, c) && Apart(d, m, c) && Strictly(m, dst)
    ensures Plain(Fcopy(t, src, dst, r).0, d, c)
  {
    UnderBoth(d, m, dst);
    UnderBoth(c, m, dst);
  }

  lemma UnlinkPlain(t: Tree, p: TreePath, r: Answer, d: TreePath, c: TreePath)
    requires Plain(t, d, c)
    ensures Plain(Unlink(t, p, r).0, d, c)
  {
  }

  lemma MkdirPlain(t: Tree, p: TreePath, r: Answer, d: TreePath, m: TreePath, c: TreePath)
    requires Plain(t, d, c) && Apart(d, m, c) && Under(m, p)
    ensures Plain(Mkdir(t, p, r).0, d, c)
  {
    UnderBoth(d, m, p);
    UnderBoth(c, m, p);
  }

  lemma RightFile(e: Env, w: World, from: Ref, to: Ref, x: Name, since: nat, d: TreePath, m: TreePath)
    requires Steady(e, w, since, d, m) && Apart(d, m, e.cacheDir) && !Dotted(x)
    requires At(w, from) == d + [x] && At(w, to) == m + [x]
    ensures var u := FileRun(e, w, from, to).w; Safely(w, u, d + [x], m + [x]) && Steady(e, u, since, d, m)
  {
    hide At, WellFormed, Fcopy, Unlink, Plain, Safe, SafeSince, Disjoint;
    ChildrenDisjoint(d, m, x, x);
    FileSafely(e, w, from, to, d + [x], m + [x]);
    FileOutcome(e, w, from, to);
    var copied := Fcopy(w.tree, d + [x], m + [x], e.sched(w.tick)).0;
    FcopyPlain(w.tree, d + [x], m + [x], e.sched(w.tick), d, m, e.cacheDir);
    UnlinkPlain(copied, d + [x], e.sched(w.tick + 1), d, e.cacheDir);
    assert Stray(d, m, e.cacheDir, e.cacheDir + (d + [x]));
  }

  /** A file taken for a directory: nothing but the new name is made. */
  lemma RightDir(e: Env, w: World, from: Ref, to: Ref, stack: nat, x: Name, since: nat, d: TreePath, m: TreePath)
    requires Steady(e, w, since, d, m) && Apart(d, m, e.cacheDir) && !Dotted(x)
    requires At(w, from) == d + [x] && At(w, to) == m + [x] && IsFile(w.tree, d + [x])
    ensures var u := DirRun(e, w, from, to, stack).w; Safely(w, u, d + [x], m + [x]) && Steady(e, u, since, d, m)
  {
    hide At, WellFormed, Plain, Safe, SafeSince, Mkdir, TargetRun, LoopRun, Rmdir, Disjoint;
    ChildrenDisjoint(d, m, x, x);
    NoStack(e, w, from, to);
    StartSafely(w, d + [x], m + [x]);
    if stack > 0 {
      DirSteps(e, w, from, to, stack);
      TargetSafely(e, w, to, d + [x], m + [x]);
      TargetOutcome(e, w, to);
      var made := TargetRun(e, w, to);
      MkdirPlain(w.tree, m + [x], e.sched(w.tick + 1), d, m, e.cacheDir);
      SameReading(w, made.w, from);
      OpenAsks(e, made.w, from);
      SafelyAsked(w, made.w, OpenRun(e, made.w, from).0.w, d + [x], m + [x]);
    }
  }

  /** Entering what is no directory fails, and entering and listing change nothing. */
  lemma OpenAsks(e: Env, w: World, from: Ref)
    ensures var out := OpenRun(e, w, from).0;
            && out.w.tree == w.tree && out.w.log == w.log && out.w.trace == w.trace && w.tick <= out.w.tick
            && (!IsDir(w.tree, At(w, from)) ==> out.ret != 0)
  {
    hide At;
  }

  lemma SafelyAsked(w: World, v: World, u: World, o: TreePath, n: TreePath)
    requires Safely(w, v, o, n) && u.tree == v.tree && u.log == v.log && u.trace == v.trace && v.tick <= u.tick
    ensures Safely(w, u, o, n)
  {
  }

  lemma RightEntry(e: Env, w: World, from: Ref, to: Ref, x: Name, wasDir: bool, stack: nat, since: nat, d: TreePath,
                   m: TreePath)
    requires Steady(e, w, since, d, m) && Apart(d, m, e.cacheDir) && !Dotted(x) && IsFile(w.tree, d + [x])
    requires At(w, from) == d && At(Draw(w, d + [x]), to) == m
    ensures var u := EntryRun(e, w, from, to, x, wasDir, stack).w;
            Safely(w, u, d + [x], m + [x]) && Steady(e, u, since, d, m)
  {
    hide At, WellFormed, Plain, Safe, SafeSince, AllStray, Apart, DirRun, FileRun, Namei, Late;
    EntrySteps(e, w, from, to, x, wasDir, stack);
    StrayNames(e, w, d + [x], m + [x], since, d, m);
    var w1, w2 := Draw(w, d + [x]), Draw(Draw(w, d + [x]), m + [x]);
    var w3 := Asked(w2);
    StartSafely(w, d + [x], m + [x]);
    RightFile(e, w3, Last(w1), Last(w2), x, since, d, m);
    RightDir(e, w3, Last(w1), Last(w2), stack, x, since, d, m);
    SafelyFrom(w, w3, FileRun(e, w3, Last(w1), Last(w2)).w, d + [x], m + [x]);
    SafelyFrom(w, w3, DirRun(e, w3, Last(w1), Last(w2), stack).w, d + [x], m + [x]);
  }

  // ----- The plain directory -----

  lemma HarmlessSafe(t0: Tree, t: Tree, u: Tree, d: TreePath, m: TreePath, c: TreePath)
    requires Plain(t0, d, c) && IsDir(t0, d) && Apart(d, m, c) && Safe(t0, t, d, m) && Harmless(t, u, m)
    ensures Safe(t0, u, d, m)
  {
    forall q | Under(d, q) ensures FileSafe(t0, u, d, m, q)
    {
      assert FileSafe(t0, t, d, m, q);
      UnderBoth(d, m, q);
      if IsFile(t0, q) {
        assert |Image(d, m, q)| == |m| + 1;
        assert Lookup(u, q) == Lookup(t, q);
      }
    }
  }

  lemma DriftSafe(w: World, u: World, start: nat, t0: Tree, d: TreePath, m: TreePath, c: TreePath)
    requires Plain(t0, d, c) && IsDir(t0, d) && Apart(d, m, c) && Good(w) && Drifts(w, u, m)
    requires start < |w.trace| && SafeSince(w.trace, start, t0, d, m)
    ensures SafeSince(u.trace, start, t0, d, m)
  {
    hide WellFormed, Plain, Apart, Harmless, Safe;
    assert Safe(t0, w.tree, d, m);
    forall i | start <= i < |u.trace| ensures Safe(t0, u.trace[i], d, m)
    {
      if i < |w.trace| { assert u.trace[i] == w.trace[i]; } else { HarmlessSafe(t0, w.tree, u.trace[i], d, m, c); }
    }
  }

  /** The two buffers of the directory's names, drawn as the strings `start` and `start + 1`, and what has
      been drawn since. */
  ghost predicate Housed(log: seq<TreePath>, from: Ref, to: Ref, start: nat, d: TreePath, m: TreePath) {
    && |log| >= start + 2 && log[start] == d && log[start + 1] == m
    && from == Buffer(SlotOf(start + 1)) && to == Buffer(SlotOf(start + 2))
  }

  lemma HousedReads(w: World, from: Ref, to: Ref, x: Name, start: nat, d: TreePath, m: TreePath)
    requires Housed(w.log, from, to, start, d, m)
    ensures |w.log| <= start + 32 ==> At(w, from) == d && At(Draw(w, d + [x]), to) == m
    ensures |w.log| > start + 32 ==> Late(w.log, from, start + 2) && Late(Draw(w, At(w, from) + [x]).log, to, start + 2)
  {
    if |w.log| <= start + 32 {
      Lifetime(|w.log|, start);
      Lifetime(|w.log| + 1, start + 1);
    } else {
      SlotReuse(start + 1, start + 33);
      SlotReuse(start + 2, start + 34);
      assert DrawnIn(w.log, start + 32, from.k);
      assert DrawnIn(Draw(w, At(w, from) + [x]).log, start + 33, to.k);
    }
  }

  lemma {:induction false} PlainLoop(e: Env, w: World, from: Ref, to: Ref, names: seq<Name>, i: nat, ret: int,
                                     isDir: bool, stack: nat, start: nat, first: nat, t0: Tree, d: TreePath,
                                       m: TreePath)
    requires Steady(e, w, start + 2, d, m) && Apart(d, m, e.cacheDir) && Housed(w.log, from, to, start, d, m)
    requires WellFormed(t0) && IsDir(t0, d) && Plain(t0, d, e.cacheDir) && i <= |names|
    requires IsListing(names, Children(t0, d))
    requires |w.log| <= start + 32 ==> Intact(t0, w.tree, d, Remaining(names, i))
    requires first < |w.trace| && SafeSince(w.trace, first, t0, d, m)
    ensures var u := LoopRun(e, w, from, to, names, i, ret, isDir, stack).w;
            Steady(e, u, start + 2, d, m) && SafeSince(u.trace, first, t0, d, m) && Grew(w, u)
    decreases |names| - i
  {
    hide At, WellFormed, Plain, Safe, SafeSince, AllStray, Apart, EntryRun, Steady, Housed, Intact, Remaining,
         IsListing, Children, Stray, Late;
    var w1 := Asked(w);
    assert Steady(e, w1, start + 2, d, m) by { AskDrifts(e, w, start + 2, d, m); }
    if i < |names| && e.sched(w.tick).Fine? {
      RemainingNext(names, Children(t0, d), i);
      if Dotted(names[i]) {
        PlainLoop(e, w1, from, to, names, i + 1, ret, isDir, stack, start, first, t0, d, m);
      } else {
        PlainTurn(e, w1, from, to, names, i, isDir, stack, start, first, t0, d, m);
        var out := EntryRun(e, w1, from, to, names[i], isDir, stack);
        if !out.abort && !out.crash {
          PlainLoop(e, out.w, from, to, names, i + 1, out.ret, out.isDir, stack, start, first, t0, d, m);
        }
      }
    }
  }

  lemma PlainTurn(e: Env, w: World, from: Ref, to: Ref, names: seq<Name>, i: nat, isDir: bool, stack: nat,
                  start: nat, first: nat, t0: Tree, d: TreePath, m: TreePath)
    requires Steady(e, w, start + 2, d, m) && Apart(d, m, e.cacheDir) && Housed(w.log, from, to, start, d, m)
    requires WellFormed(t0) && IsDir(t0, d) && Plain(t0, d, e.cacheDir)
    requires i < |names| && !Dotted(names[i]) && IsListing(names, Children(t0, d))
    requires |w.log| <= start + 32 ==> Intact(t0, w.tree, d, Remaining(names, i))
    requires first < |w.trace| && SafeSince(w.trace, first, t0, d, m)
    ensures var u := EntryRun(e, w, from, to, names[i], isDir, stack).w;
            && Steady(e, u, start + 2, d, m) && SafeSince(u.trace, first, t0, d, m) && Grew(w, u)
            && Housed(u.log, from, to, start, d, m)
               && (|u.log| <= start + 32 ==> Intact(t0, u.tree, d, Remaining(names, i + 1)))
  {
    hide At, WellFormed, Plain, Safe, SafeSince, AllStray, EntryRun, Intact, Remaining, IsListing, Children, Stray,
         Late, Harmless;
    var x := names[i];
    EntryGrows(e, w, from, to, x, isDir, stack);
    HousedReads(w, from, to, x, start, d, m);
    var u := EntryRun(e, w, from, to, x, isDir, stack).w;
    if |w.log| <= start + 32 {
      FileThere(t0, w.tree, d, names, i, e.cacheDir);
      RightEntry(e, w, from, to, x, isDir, stack, start + 2, d, m);
      TurnSafely(w, u, first, t0, d, m, names, i);
    } else {
      StrayReads(w, from, start + 2, d, m, e.cacheDir);
      var w1 := Draw(w, At(w, from) + [x]);
      StrayAfter(e, w, from, x, start + 2, d, m);
      StrayReads(w1, to, start + 2, d, m, e.cacheDir);
      StrayEntry(e, w, from, to, x, isDir, stack, start + 2, d, m);
      DriftSafe(w, u, first, t0, d, m, e.cacheDir);
    }
  }

  lemma StrayAfter(e: Env, w: World, from: Ref, x: Name, since: nat, d: TreePath, m: TreePath)
    requires Steady(e, w, since, d, m) && Stray(d, m, e.cacheDir, At(w, from))
    ensures AllStray(Draw(w, At(w, from) + [x]).log, since, d, m, e.cacheDir)
  {
    hide At, WellFormed, Plain;
    Deeper(d, m, e.cacheDir, At(w, from), x);
    Deeper(d, m, e.cacheDir, At(w, from) + [x], x);
    hide Stray;
  }

  lemma FileThere(t0: Tree, t: Tree, d: TreePath, names: seq<Name>, i: nat, c: TreePath)
    requires WellFormed(t0) && IsDir(t0, d) && Plain(t0, d, c) && i < |names| && !Dotted(names[i])
    requires IsListing(names, Children(t0, d)) && Intact(t0, t, d, Remaining(names, i))
    ensures IsFile(t, d + [names[i]])
  {
    hide WellFormed;
    RemainingNext(names, Children(t0, d), i);
    ChildIn(t0, d, names[i]);
    assert names[i] in Children(t0, d);
    assert Lookup(t, d + [names[i]]) == Lookup(t0, d + [names[i]]);
  }

  /** A directory of plain files moves safely whatever the calls answer and however many files it has. */
  lemma PlainDir(e: Env, w: World, from: Ref, to: Ref, stack: nat, start: nat, d: TreePath, m: TreePath)
    requires Good(w) && ListsWell(e) && Apart(d, m, e.cacheDir) && GoodName(m) && Plain(w.tree, d, e.cacheDir)
    requires |w.log| == start + 2 && Housed(w.log, from, to, start, d, m)
    ensures Safely(w, DirRun(e, w, from, to, stack).w, d, m)
  {
    hide At, WellFormed, ListsWell, Plain, Safe, SafeSince, TargetRun, OpenRun, LoopRun, DirRun, Rmdir, Intact,
         IsListing, Children, Remaining, Mkdir, Stray, Late, Harmless;
    StartSafely(w, d, m);
    NoStack(e, w, from, to);
    if stack > 0 {
      HousedReads(w, from, to, "", start, d, m);
      ToReads(w, from, to, start, d, m);
      DirSteps(e, w, from, to, stack);
      TargetSafely(e, w, to, d, m);
      TargetOutcome(e, w, to);
      MkdirPlain(w.tree, m, e.sched(w.tick + 1), d, m, e.cacheDir);
      var made := TargetRun(e, w, to);
      SameReading(w, made.w, from);
      OpenSafely(e, made.w, from, d);
      var (listed, names) := OpenRun(e, made.w, from);
      SafelyAsked(w, made.w, listed.w, d, m);
      if made.ret == 0 && listed.ret == 0 {
        RemainingAll(names, Children(w.tree, d));
        var v, garbage := listed.w, e.garbage(listed.w.tick);
        PlainLoop(e, v, from, to, names, 0, 0, garbage, stack - 1, start, |w.trace| - 1, w.tree, d, m);
        var moved := LoopRun(e, v, from, to, names, 0, 0, garbage, stack - 1);
        HousedReads(moved.w, from, to, "", start, d, m);
        if |moved.w.log| <= start + 32 {
          RmdirSafely(w, moved.w, d, m, e.sched(moved.w.tick));
        } else {
          StrayRemoval(e, moved.w, from, start + 2, d, m);
          var u := Called(moved.w, Rmdir(moved.w.tree, At(moved.w, from), e.sched(moved.w.tick)).0);
          DriftSafe(moved.w, u, |w.trace| - 1, w.tree, d, m, e.cacheDir);
        }
      }
    }
  }

  lemma ToReads(w: World, from: Ref, to: Ref, start: nat, d: TreePath, m: TreePath)
    requires |w.log| == start + 2 && Housed(w.log, from, to, start, d, m)
    ensures At(w, from) == d && At(w, to) == m
  {
    Lifetime(|w.log|, start);
    Lifetime(|w.log|, start + 1);
  }

  // ----- The whole rename -----

  /** Nothing in the store is at the cache directory or below it. */
  ghost predicate NoCache(t: Tree, c: TreePath) {
    forall q :: q in t ==> !Under(c, q)
  }

  /** Every entry draws at most 30 buffers or is a directory of plain files. */
  ghost predicate Tame(t: Tree, o: TreePath) {
    forall x :: o + [x] in t ==> EntryFits(t, o + [x]) || FilesOnly(t, o + [x])
  }

  ghost predicate FilesOnly(t: Tree, d: TreePath) {
    forall q :: q in t && Under(d, q) && q != d ==> |q| == |d| + 1 && t[q].File?
  }

  lemma FilesOnlyIsPlain(t0: Tree, t: Tree, o: TreePath, x: Name, c: TreePath)
    requires FilesOnly(t0, o + [x]) && Intact(t0, t, o, {x}) && NoCache(t, c)
    ensures Plain(t, o + [x], c)
  {
    forall q | q in t ensures !Under(c, q) && (Under(o + [x], q) && q != o + [x] ==> |q| == |o + [x]| + 1 && t[q].File?)
    {
      if Under(o + [x], q) {
        UnderChild(o, x, q);
        assert Lookup(t, q) == Lookup(t0, q);
      }
    }
  }

  /** An entry that is a directory of plain files, under the caller's own names. */
  lemma PlainEntry(e: Env, w: World, x: Name, wasDir: bool, stack: nat, o: TreePath, n: TreePath)
    requires Good(w) && ListsWell(e) && Apart(o + [x], n + [x], e.cacheDir) && !Dotted(x)
    requires Plain(w.tree, o + [x], e.cacheDir)
    ensures Safely(w, EntryRun(e, w, Outside(o), Outside(n), x, wasDir, stack).w, o + [x], n + [x])
  {
    hide WellFormed, ListsWell, Plain, Safe, SafeSince, DirRun, FileRun, Namei, Disjoint;
    var d, m := o + [x], n + [x];
    EntrySteps(e, w, Outside(o), Outside(n), x, wasDir, stack);
    TwoNames(w, d, m);
    var w1, w2 := Draw(w, d), Draw(Draw(w, d), m);
    var w3 := Asked(w2);
    StartSafely(w, d, m);
    SameReading(w2, w3, Last(w1));
    SameReading(w2, w3, Last(w2));
    hide At;
    FileSafely(e, w3, Last(w1), Last(w2), d, m);
    PlainDir(e, w3, Last(w1), Last(w2), stack, |w.log|, d, m);
    SafelyFrom(w, w3, FileRun(e, w3, Last(w1), Last(w2)).w, d, m);
    SafelyFrom(w, w3, DirRun(e, w3, Last(w1), Last(w2), stack).w, d, m);
  }

  lemma NoCacheLater(t: Tree, u: Tree, d: TreePath, m: TreePath, c: TreePath)
    requires NoCache(t, c) && Apart(d, m, c) && Frame(t, u, d, m)
    ensures NoCache(u, c)
  {
    forall q | q in u ensures !Under(c, q)
    {
      UnderBoth(c, d, q);
      UnderBoth(c, m, q);
      assert !Under(d, q) && !Under(m, q) ==> Lookup(u, q) == Lookup(t, q);
    }
  }

  lemma ApartBelow(o: TreePath, n: TreePath, c: TreePath, x: Name)
    requires Apart(o, n, c)
    ensures Apart(o + [x], n + [x], c)
  {
    ChildrenDisjoint(o, n, x, x);
    UnderBoth(c, o, o + [x]);
    UnderBoth(c, n, n + [x]);
    assert Under(o + [x], c) ==> Under(o, c);
    assert Under(n + [x], c) ==> Under(n, c);
  }

  lemma {:induction false} TameLoop(e: Env, w: World, names: seq<Name>, i: nat, ret: int, isDir: bool, stack: nat,
                                    first: nat, t0: Tree, o: TreePath, n: TreePath)
    requires Good(w) && ListsWell(e) && Apart(o, n, e.cacheDir) && WellFormed(t0) && IsDir(t0, o) && Tame(t0, o)
    requires NoCache(w.tree, e.cacheDir)
    requires i <= |names| && IsListing(names, Children(t0, o)) && Intact(t0, w.tree, o, Remaining(names, i))
    requires first < |w.trace| && SafeSince(w.trace, first, t0, o, n)
    ensures var u := LoopRun(e, w, Outside(o), Outside(n), names, i, ret, isDir, stack).w;
            Good(u) && SafeSince(u.trace, first, t0, o, n) && Grew(w, u)
    decreases |names| - i
  {
    hide WellFormed, ListsWell, Safe, SafeSince, Apart, EntryRun, Tame, NoCache, Intact, Remaining, IsListing, Children;
    if i < |names| && e.sched(w.tick).Fine? {
      var w1 := Asked(w);
      RemainingNext(names, Children(t0, o), i);
      if Dotted(names[i]) {
        TameLoop(e, w1, names, i + 1, ret, isDir, stack, first, t0, o, n);
      } else {
        TameTurn(e, w1, names, i, isDir, stack, first, t0, o, n);
        var out := EntryRun(e, w1, Outside(o), Outside(n), names[i], isDir, stack);
        if !out.abort && !out.crash {
          TameLoop(e, out.w, names, i + 1, out.ret, out.isDir, stack, first, t0, o, n);
        }
      }
    }
  }

  lemma TameTurn(e: Env, w: World, names: seq<Name>, i: nat, isDir: bool, stack: nat, first: nat, t0: Tree,
                 o: TreePath, n: TreePath)
    requires Good(w) && ListsWell(e) && Apart(o, n, e.cacheDir) && WellFormed(t0) && IsDir(t0, o) && Tame(t0, o)
    requires NoCache(w.tree, e.cacheDir)
    requires i < |names| && !Dotted(names[i]) && IsListing(names, Children(t0, o))
    requires Intact(t0, w.tree, o, Remaining(names, i))
    requires first < |w.trace| && SafeSince(w.trace, first, t0, o, n)
    ensures var u := EntryRun(e, w, Outside(o), Outside(n), names[i], isDir, stack).w;
            && Good(u) && SafeSince(u.trace, first, t0, o, n) && Grew(w, u) && NoCache(u.tree, e.cacheDir)
            && Intact(t0, u.tree, o, Remaining(names, i + 1))
  {
    hide WellFormed, ListsWell, Safe, SafeSince, EntryRun, NoCache, Intact, Remaining, IsListing, Children, EntryFits,
         FilesOnly, Share, Reads, Weight, Named, DrawsOf, Subtree, Compatible, Partial, HasParent, CanCopy;
    var x := names[i];
    var u := EntryRun(e, w, Outside(o), Outside(n), x, isDir, stack).w;
    TurnBefore(t0, w.tree, o, n, names, i);
    ApartBelow(o, n, e.cacheDir, x);
    ThereBefore(t0, w.tree, o + [x]);
    if EntryFits(t0, o + [x]) {
      OutsideReads(w, o, n, |w.log| + Share(w.tree, o + [x]));
      EntrySafely(e, w, Outside(o), Outside(n), x, isDir, stack, o, n, |w.log| + Share(w.tree, o + [x]));
    } else {
      FilesOnlyIsPlain(t0, w.tree, o, x, e.cacheDir);
      PlainEntry(e, w, x, isDir, stack, o, n);
    }
    TurnSafely(w, u, first, t0, o, n, names, i);
    SafelyFrames(w, u, o + [x], n + [x]);
    NoCacheLater(w.tree, u.tree, o + [x], n + [x], e.cacheDir);
  }

  lemma ThereBefore(t0: Tree, t: Tree, p: TreePath)
    requires Lookup(t, p) == Lookup(t0, p) && p in t
    ensures p in t0
  {
  }

  lemma TameDir(e: Env, w: World, stack: nat, o: TreePath, n: TreePath)
    requires Good(w) && ListsWell(e) && Apart(o, n, e.cacheDir) && GoodName(n) && Tame(w.tree, o)
    requires NoCache(w.tree, e.cacheDir)
    ensures Safely(w, DirRun(e, w, Outside(o), Outside(n), stack).w, o, n)
  {
    hide WellFormed, ListsWell, Safe, SafeSince, TargetRun, OpenRun, LoopRun, DirRun, Rmdir, Intact, IsListing,
         Children, Remaining, Mkdir, Tame, NoCache;
    var from, to := Outside(o), Outside(n);
    StartSafely(w, o, n);
    NoStack(e, w, from, to);
    if stack > 0 {
      DirSteps(e, w, from, to, stack);
      TargetSafely(e, w, to, o, n);
      var made := TargetRun(e, w, to);
      OpenSafely(e, made.w, from, o);
      var (listed, names) := OpenRun(e, made.w, from);
      SafelyAsked(w, made.w, listed.w, o, n);
      SafelyFrames(w, made.w, o, n);
      NoCacheLater(w.tree, made.w.tree, o, n, e.cacheDir);
      if made.ret == 0 && listed.ret == 0 {
        RemainingAll(names, Children(w.tree, o));
        var v, garbage := listed.w, e.garbage(listed.w.tick);
        TameLoop(e, v, names, 0, 0, garbage, stack - 1, |w.trace| - 1, w.tree, o, n);
        var moved := LoopRun(e, v, from, to, names, 0, 0, garbage, stack - 1);
        RmdirSafely(w, moved.w, o, n, e.sched(moved.w.tick));
      }
    }
  }

  /** dfs_rename is safe under every schedule of failures when each entry of the old directory draws at
      most 30 buffers or is a directory of plain files, however many, and no call can find the cache
      directory in the store. */
  lemma RenameTame(e: Env, w: World, oldpath: TreePath, newpath: TreePath, stack: nat)
    requires Good(w) && ListsWell(e) && Apart(oldpath, newpath, e.cacheDir) && GoodName(newpath)
    requires Tame(w.tree, oldpath) && NoCache(w.tree, e.cacheDir)
    ensures Safely(w, WholeRun(e, w, oldpath, newpath, stack).w, oldpath, newpath)
  {
    hide DirRun, FileRun, Safe, SafeSince, WellFormed, ListsWell, Disjoint, Namei, Tame, NoCache;
    StartSafely(w, oldpath, newpath);
    var w1 := Asked(w);
    TameDir(e, w1, stack, oldpath, newpath);
    FileSafely(e, w1, Outside(oldpath), Outside(newpath), oldpath, newpath);
    SafelyFrom(w, w1, DirRun(e, w1, Outside(oldpath), Outside(newpath), stack).w, oldpath, newpath);
    SafelyFrom(w, w1, FileRun(e, w1, Outside(oldpath), Outside(newpath)).w, oldpath, newpath);
  }
}
