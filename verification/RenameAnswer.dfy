/** What the answer of dfs_rename says: when every call succeeds but the ring does not suffice, and when
    the old name is gone. */
module RenameAnswer {
  import opened Basics
  import opened TmpStr
  import opened RemoteTree
  import opened RenameSpec
  import opened RenameRun
  import opened RenameSafe
  import opened RenameRing
  import opened RenameLoss
  import opened RenamePlain

  // ----- Nothing at the old name -----

  /** After a rename that was safe, nothing is at the old name if and only if nothing is below it either
      and every file is at its new name. */
  lemma GoneMeansMoved(w: World, u: World, o: TreePath, n: TreePath)
    requires Good(w) && Safely(w, u, o, n)
    ensures o !in u.tree <==>
            forall q :: Under(o, q) ==>
                  q !in u.tree && (IsFile(w.tree, q) ==> Lookup(u.tree, Image(o, n, q)) == Some(w.tree[q]))
  {
    assert u.trace[|u.trace| - 1] == u.tree && Safe(w.tree, u.tree, o, n);
    assert Under(o, o);
    if o !in u.tree {
      forall q | Under(o, q)
        ensures q !in u.tree && (IsFile(w.tree, q) ==> Lookup(u.tree, Image(o, n, q)) == Some(w.tree[q]))
      {
        NothingUnder(u.tree, o, q);
        assert FileSafe(w.tree, u.tree, o, n, q);
      }
    }
  }

  lemma {:induction false} NothingUnder(t: Tree, o: TreePath, q: TreePath)
    requires WellFormed(t) && o !in t && Under(o, q)
    ensures q !in t
    decreases |q|
  {
    if q != o {
      assert Under(o, Parent(q));
      NothingUnder(t, o, Parent(q));
    }
  }

  // ----- A directory of plain files, every call succeeding -----

  /** No node is strictly below a string drawn since. */
  ghost predicate Barren(t: Tree, log: seq<TreePath>, since: nat) {
    since <= |log| && forall j, q :: since <= j < |log| && q in t ==> !Strictly(log[j], q)
  }

  lemma BarrenReads(w: World, ref: Ref, since: nat, x: Name)
    requires Barren(w.tree, w.log, since) && Late(w.log, ref, since)
    ensures At(w, ref) + [x] !in w.tree
    ensures Barren(w.tree, w.log + [At(w, ref) + [x]], since)
  {
    var i :| since <= i && DrawnIn(w.log, i, ref.k);
    Lifetime(|w.log|, i);
    var p := At(w, ref) + [x];
    assert forall q :: Strictly(p, q) ==> Strictly(At(w, ref), q);
  }

  /** A turn under overwritten names: there is no such file, and the turn answers -1. */
  lemma LostTurn(e: Env, w: World, from: Ref, to: Ref, x: Name, stack: nat, since: nat)
    requires AlwaysFine(e) && Barren(w.tree, w.log, since)
    requires Late(w.log, from, since) && Late(Draw(w, At(w, from) + [x]).log, to, since)
    ensures var out := EntryRun(e, w, from, to, x, false, stack);
            && out.ret == -1 && !out.isDir && !out.abort && !out.crash
            && out.w.tree == w.tree && w.log <= out.w.log && |out.w.log| == |w.log| + 2
               && Barren(out.w.tree, out.w.log, since)
  {
    hide At, Late, Barren;
    EntrySteps(e, w, from, to, x, false, stack);
    BarrenReads(w, from, since, x);
    var w1 := Draw(w, At(w, from) + [x]);
    BarrenReads(w1, to, since, x);
    var src, dst := At(w, from) + [x], At(w1, to) + [x];
    var w2 := Draw(w1, dst);
    TwoNames(w, src, dst);
    SameReading(w2, Asked(w2), Last(w1));
    SameReading(w2, Asked(w2), Last(w2));
    assert e.sched(w2.tick).Fine? && e.sched(w2.tick + 1).Fine?;
  }

  /** A turn under the right names moves the file. */
  lemma MovedTurn(e: Env, w: World, from: Ref, to: Ref, x: Name, wasDir: bool, stack: nat, d: TreePath, m: TreePath)
    requires AlwaysFine(e) && At(w, from) == d && At(Draw(w, d + [x]), to) == m
    requires CanCopy(w.tree, d + [x], m + [x]) && d + [x] != m + [x]
    ensures var out := EntryRun(e, w, from, to, x, wasDir, stack);
            && out.ret == 0 && !out.isDir && !out.abort && !out.crash && out.w.tree == Moved(w.tree, d + [x], m + [x])
            && out.w.log == w.log + [d + [x], m + [x], e.cacheDir + (d + [x])]
  {
    hide At, DirRun;
    EntrySteps(e, w, from, to, x, wasDir, stack);
    TwoNames(w, d + [x], m + [x]);
    var w1, w2 := Draw(w, d + [x]), Draw(Draw(w, d + [x]), m + [x]);
    SameReading(w2, Asked(w2), Last(w1));
    SameReading(w2, Asked(w2), Last(w2));
    SameReading(w2, Called(Asked(w2), w2.tree[m + [x] := w2.tree[d + [x]]]), Last(w1));
    assert e.sched(w2.tick).Fine? && e.sched(w2.tick + 1).Fine? && e.sched(w2.tick + 2).Fine?;
  }

  /** What is still to move, and room for it. */
  ghost predicate Waiting(t0: Tree, t: Tree, d: TreePath, m: TreePath, todo: set<Name>) {
    && IsDir(t, m)
    && forall x :: x in todo ==> Lookup(t, d + [x]) == Lookup(t0, d + [x]) && IsFile(t0, d + [x]) && !IsDir(t, m + [x])
  }

  /** The loop has come to a point with so many entries done. */
  ghost predicate Coming(e: Env, w: World, start: nat, d: TreePath, m: TreePath, t0: Tree, todo: set<Name>, done: nat) {
    && Barren(w.tree, w.log, start + 2)
    && |w.log| == start + 2 + (if done <= 11 then 3 * done else 33 + 2 * (done - 11))
    && (done <= 10 ==>
          WellFormed(w.tree) && Plain(w.tree, d, e.cacheDir) && AllStray(w.log, start + 2, d, m, e.cacheDir)
          && Waiting(t0, w.tree, d, m, todo))
  }

  function Added(d: TreePath, m: TreePath, c: TreePath, x: Name): seq<TreePath> {
    [d + [x], m + [x], c + (d + [x])]
  }

  lemma MovedTree(t: Tree, d: TreePath, m: TreePath, c: TreePath, x: Name)
    requires WellFormed(t) && Plain(t, d, c) && Apart(d, m, c) && CanCopy(t, d + [x], m + [x]) && !Dotted(x)
    ensures WellFormed(Moved(t, d + [x], m + [x])) && Plain(Moved(t, d + [x], m + [x]), d, c)
    ensures !Under(d, m + [x]) && !Under(c, m + [x]) && d + [x] != m + [x] && Moved(t, d + [x], m + [x])[m + [x]].File?
  {
    UnderBoth(d, m, m + [x]);
    UnderBoth(c, m, m + [x]);
    FileKeeps(t, m + [x], Some(t[d + [x]]));
    FileKeeps(t[m + [x] := t[d + [x]]], d + [x], None);
    hide WellFormed;
    assert Under(d, d + [x]);
  }

  lemma AddedStray(log: seq<TreePath>, since: nat, d: TreePath, m: TreePath, c: TreePath, x: Name)
    requires AllStray(log, since, d, m, c)
    ensures AllStray(log + Added(d, m, c, x), since, d, m, c)
  {
  }

  lemma MovedBarren(t: Tree, log: seq<TreePath>, since: nat, d: TreePath, m: TreePath, c: TreePath, x: Name)
    requires Barren(t, log, since) && WellFormed(t) && Plain(t, d, c) && Apart(d, m, c)
    requires AllStray(log, since, d, m, c) && CanCopy(t, d + [x], m + [x]) && !Dotted(x)
    ensures Barren(Moved(t, d + [x], m + [x]), log + Added(d, m, c, x), since)
  {
    MovedTree(t, d, m, c, x);
    hide Apart, WellFormed, Stray;
    var u, more := Moved(t, d + [x], m + [x]), log + Added(d, m, c, x);
    forall j, q | since <= j < |more| && q in u ensures !Strictly(more[j], q)
    {
      if j < |log| {
        assert more[j] == log[j] && Stray(d, m, c, log[j]);
        if q == m + [x] { NotBelowStray(log[j], d, m, c, x); }
      } else {
        AddedBarren(u, d, m, c, x, q, j - |log|);
      }
    }
  }

  lemma AddedBarren(u: Tree, d: TreePath, m: TreePath, c: TreePath, x: Name, q: TreePath, k: nat)
    requires k < 3 && WellFormed(u) && Plain(u, d, c) && m + [x] in u && u[m + [x]].File? && q in u
    ensures !Strictly(Added(d, m, c, x)[k], q)
  {
    if Strictly(m + [x], q) { NothingBelowFile(u, m + [x], q); }
    hide WellFormed;
  }

  /** The new name of an entry is not below any of those strings. */
  lemma NotBelowStray(p: TreePath, d: TreePath, m: TreePath, c: TreePath, x: Name)
    requires Stray(d, m, c, p) && !Under(d, m + [x]) && !Under(c, m + [x])
    ensures !Strictly(p, m + [x])
  {
  }

  lemma WaitingMore(t0: Tree, t: Tree, d: TreePath, m: TreePath, todo: set<Name>, x: Name)
    requires Waiting(t0, t, d, m, todo) && x in todo && Disjoint(d, m) && CanCopy(t, d + [x], m + [x])
    ensures Waiting(t0, Moved(t, d + [x], m + [x]), d, m, todo - {x})
  {
    var u := Moved(t, d + [x], m + [x]);
    assert Under(d, d + [x]) && !Under(d, m);
    forall y | y in todo && y != x
      ensures Lookup(u, d + [y]) == Lookup(t0, d + [y]) && IsFile(t0, d + [y]) && !IsDir(u, m + [y])
    {
      ChildrenDisjoint(d, m, x, y);
      ChildrenDisjoint(d, m, y, x);
      assert m + [y] != m + [x] by { assert (m + [y])[|m|] == y; }
      assert d + [y] != d + [x];
    }
  }

  /** The turn of a name, right or lost. */
  lemma AnswerTurn(e: Env, w: World, from: Ref, to: Ref, x: Name, isDir: bool, stack: nat, start: nat, t0: Tree,
                   d: TreePath, m: TreePath, todo: set<Name>, done: nat)
    requires AlwaysFine(e) && Apart(d, m, e.cacheDir) && Housed(w.log, from, to, start, d, m) && !Dotted(x) && x in todo
    requires Coming(e, w, start, d, m, t0, todo, done) && (done > 0 ==> !isDir)
    ensures var out := EntryRun(e, w, from, to, x, isDir, stack);
            && !out.isDir && !out.abort && !out.crash && out.ret == (if done <= 10 then 0 else -1)
            && Housed(out.w.log, from, to, start, d, m) && Coming(e, out.w, start, d, m, t0, todo - {x}, done + 1)
  {
    hide At, EntryRun, WellFormed, Plain, Barren, AllStray, Apart, Late, Waiting, Moved;
    EntryGrows(e, w, from, to, x, isDir, stack);
    HousedReads(w, from, to, x, start, d, m);
    if done <= 10 {
      CanMove(t0, w.tree, d, m, todo, x);
      assert Disjoint(d, m) by { ApartIs(d, m, e.cacheDir); }
      MovedTree(w.tree, d, m, e.cacheDir, x);
      MovedTurn(e, w, from, to, x, isDir, stack, d, m);
      MovedBarren(w.tree, w.log, start + 2, d, m, e.cacheDir, x);
      AddedStray(w.log, start + 2, d, m, e.cacheDir, x);
      WaitingMore(t0, w.tree, d, m, todo, x);
    } else {
      LostTurn(e, w, from, to, x, stack, start + 2);
    }
  }

  lemma ApartIs(d: TreePath, m: TreePath, c: TreePath)
    requires Apart(d, m, c)
    ensures Disjoint(d, m)
  {
  }

  lemma CanMove(t0: Tree, t: Tree, d: TreePath, m: TreePath, todo: set<Name>, x: Name)
    requires Waiting(t0, t, d, m, todo) && x in todo
    ensures CanCopy(t, d + [x], m + [x])
  {
    assert Parent(m + [x]) == m;
  }

  lemma {:induction false} AnswerLoop(e: Env, w: World, from: Ref, to: Ref, names: seq<Name>, i: nat, isDir: bool,
                                      stack: nat, start: nat, t0: Tree, d: TreePath, m: TreePath, done: nat)
    requires AlwaysFine(e) && Apart(d, m, e.cacheDir) && Housed(w.log, from, to, start, d, m) && (done > 0 ==> !isDir)
    requires i <= |names| && IsListing(names, Children(t0, d))
    requires Coming(e, w, start, d, m, t0, Remaining(names, i), done)
    ensures var out := LoopRun(e, w, from, to, names, i, if done <= 11 then 0 else -1, isDir, stack);
            !out.abort && !out.crash && out.ret == if done + |Remaining(names, i)| <= 11 then 0 else -1
    decreases |names| - i
  {
    hide At, EntryRun, Coming, Housed, Apart, IsListing, Children, Remaining;
    RemainingAll(names, Children(t0, d));
    if i < |names| {
      assert e.sched(w.tick).Fine?;
      var w1, x := Asked(w), names[i];
      assert Coming(e, w1, start, d, m, t0, Remaining(names, i), done) by {
        ComingAsked(e, w, start, d, m, t0, Remaining(names, i), done);
      }
      RemainingNext(names, Children(t0, d), i);
      if Dotted(x) {
        AnswerLoop(e, w1, from, to, names, i + 1, isDir, stack, start, t0, d, m, done);
      } else {
        AnswerTurn(e, w1, from, to, x, isDir, stack, start, t0, d, m, Remaining(names, i), done);
        var out := EntryRun(e, w1, from, to, x, isDir, stack);
        AnswerLoop(e, out.w, from, to, names, i + 1, out.isDir, stack, start, t0, d, m, done + 1);
      }
    }
  }

  lemma ComingAsked(e: Env, w: World, start: nat, d: TreePath, m: TreePath, t0: Tree, todo: set<Name>, done: nat)
    requires Coming(e, w, start, d, m, t0, todo, done)
    ensures Coming(e, Asked(w), start, d, m, t0, todo, done)
  {
    hide WellFormed, Plain, Barren, AllStray, Waiting;
  }

  /** The directory is there to be listed, and its new one to be filled. */
  lemma Ready(t: Tree, u: Tree, d: TreePath, m: TreePath, c: TreePath)
    requires WellFormed(t) && Plain(t, d, c) && Apart(d, m, c) && IsDir(t, d) && Compatible(t, d, m)
    requires u == (if m in t then t else t[m := Dir])
    ensures IsDir(u, d) && Plain(u, d, c) && Children(u, d) == Children(t, d) && Waiting(u, u, d, m, Children(u, d))
  {
    assert Image(d, m, d) == m;
    UnderBoth(d, m, m);
    UnderBoth(c, m, m);
    MkdirElsewhere(t, u, d, m);
    hide WellFormed;
    forall x | x in Children(u, d) ensures IsFile(u, d + [x]) && !IsDir(u, m + [x])
    {
      ChildIn(u, d, x);
      assert Under(d, d + [x]) && Image(d, m, d + [x]) == m + [x];
    }
  }

  lemma Made(e: Env, w: World, to: Ref, d: TreePath, m: TreePath)
    requires AlwaysFine(e) && At(w, to) == m && HasParent(w.tree, m)
    ensures var made := TargetRun(e, w, to);
            made.ret == 0 && made.w.tree == (if m in w.tree then w.tree else w.tree[m := Dir]) && made.w.log == w.log
  {
    hide At;
    TargetOutcome(e, w, to);
    assert e.sched(w.tick).Fine? && e.sched(w.tick + 1).Fine?;
  }

  lemma ListsIt(e: Env, t: Tree, p: TreePath)
    requires ListsWell(e) && WellFormed(t)
    ensures IsListing(e.order(t, p), Children(t, p))
  {
  }

  lemma NoneDrawn(t: Tree, log: seq<TreePath>, d: TreePath, m: TreePath, c: TreePath)
    ensures Barren(t, log, |log|) && AllStray(log, |log|, d, m, c)
  {
  }

  /** The loop's answer is the directory's, 0 if it is not -1. */
  lemma AnswerOf(e: Env, w: World, from: Ref, to: Ref, stack: nat, p: TreePath)
    requires AlwaysFine(e) && At(w, from) == p && stack > 0
    requires var made := TargetRun(e, w, to); made.ret == 0 && made.w.log == w.log && IsDir(made.w.tree, p)
    ensures var made := TargetRun(e, w, to).w;
            var v := made.(tick := made.tick + 2);
            var moved := LoopRun(e, v, from, to, e.order(made.tree, p), 0, 0, e.garbage(v.tick), stack - 1);
            !moved.abort && !moved.crash ==>
              var out := DirRun(e, w, from, to, stack); !out.crash && out.ret == if moved.ret == -1 then -1 else 0
  {
    hide LoopRun, DirRun, Rmdir, TargetRun;
    var made := TargetRun(e, w, to).w;
    assert e.sched(made.tick).Fine? && e.sched(made.tick + 1).Fine?;
    SameReading(w, made, from);
    SameReading(w, Asked(made), from);
    hide At;
    DirSteps(e, w, from, to, stack);
  }

  /** rename_directory on a directory of plain files, every call succeeding: it answers 0 up to eleven
      files, although the directory stays at the eleventh, and -1 from the twelfth on. */
  lemma PlainAnswer(e: Env, w: World, from: Ref, to: Ref, stack: nat, start: nat, d: TreePath, m: TreePath)
    requires AlwaysFine(e) && WellFormed(w.tree) && ListsWell(e) && Apart(d, m, e.cacheDir) && GoodName(m) && stack > 1
    requires IsDir(w.tree, d) && Plain(w.tree, d, e.cacheDir) && HasParent(w.tree, m) && Compatible(w.tree, d, m)
    requires |w.log| == start + 2 && Housed(w.log, from, to, start, d, m)
    ensures var out := DirRun(e, w, from, to, stack);
            !out.crash && out.ret == if |Children(w.tree, d)| <= 11 then 0 else -1
  {
    hide At, LoopRun, DirRun, TargetRun, ListsWell, IsListing, Apart, Plain, Barren, AllStray, Rmdir, Mkdir,
         Compatible, Waiting, Children, HasParent;
    ToReads(w, from, to, start, d, m);
    Made(e, w, to, d, m);
    var made := TargetRun(e, w, to).w;
    Ready(w.tree, made.tree, d, m, e.cacheDir);
    assert WellFormed(made.tree) by { MadeGood(w.tree, m); }
    AnswerOf(e, w, from, to, stack, d);
    hide WellFormed;
    var v, names := made.(tick := made.tick + 2), e.order(made.tree, d);
    assert IsListing(names, Children(made.tree, d)) by { ListsIt(e, made.tree, d); }
    RemainingAll(names, Children(made.tree, d));
    NoneDrawn(made.tree, w.log, d, m, e.cacheDir);
    AnswerLoop(e, v, from, to, names, 0, e.garbage(v.tick), stack - 1, start, made.tree, d, m, 0);
  }

  lemma MadeGood(t: Tree, m: TreePath)
    requires WellFormed(t) && GoodName(m) && HasParent(t, m)
    ensures WellFormed(if m in t then t else t[m := Dir])
  {
    if m !in t { MkdirKeeps(t, m, Fine); }
  }

  // ----- One subdirectory of files -----

  /** The entry `b` of the old directory, with both directories in place. */
  ghost predicate OneDir(e: Env, u: Tree, o: TreePath, n: TreePath, b: Name) {
    && WellFormed(u) && IsDir(u, n) && IsDir(u, o + [b]) && Plain(u, o + [b], e.cacheDir)
    && Compatible(u, o + [b], n + [b]) && Apart(o + [b], n + [b], e.cacheDir) && !Dotted(b)
  }

  lemma EntryAnswer(e: Env, w: World, b: Name, isDir: bool, stack: nat, o: TreePath, n: TreePath)
    requires AlwaysFine(e) && ListsWell(e) && OneDir(e, w.tree, o, n, b) && stack > 1
    ensures var out := EntryRun(e, w, Outside(o), Outside(n), b, isDir, stack);
            !out.abort && !out.crash && out.ret == if |Children(w.tree, o + [b])| <= 11 then 0 else -1
  {
    hide WellFormed, ListsWell, Plain, DirRun, FileRun, Compatible, Children, Apart;
    var d, m := o + [b], n + [b];
    EntrySteps(e, w, Outside(o), Outside(n), b, isDir, stack);
    TwoNames(w, d, m);
    var w1, w2 := Draw(w, d), Draw(Draw(w, d), m);
    SameReading(w2, Asked(w2), Last(w1));
    hide At;
    assert e.sched(w2.tick).Fine?;
    assert Parent(m) == n;
    PlainAnswer(e, Asked(w2), Last(w1), Last(w2), stack, |w.log|, d, m);
  }

  lemma {:induction false} OnlyLoop(e: Env, w: World, names: seq<Name>, i: nat, ret: int, isDir: bool, stack: nat,
                                    o: TreePath, n: TreePath, b: Name)
    requires AlwaysFine(e) && ListsWell(e) && OneDir(e, w.tree, o, n, b) && stack > 1
    requires i <= |names| && IsListing(names, {b}) && b in Remaining(names, i)
    ensures var out := LoopRun(e, w, Outside(o), Outside(n), names, i, ret, isDir, stack);
            !out.abort && !out.crash && out.ret == if |Children(w.tree, o + [b])| <= 11 then 0 else -1
    decreases |names| - i
  {
    hide ListsWell, EntryRun, Children, OneDir, IsListing;
    RemainingAll(names, {b});
    assert i < |names| && e.sched(w.tick).Fine?;
    var w1, x := Asked(w), names[i];
    RemainingNext(names, {b}, i);
    if Dotted(x) {
      OnlyLoop(e, w1, names, i + 1, ret, isDir, stack, o, n, b);
    } else {
      OnlyName(names, i, b);
      EntryAnswer(e, w1, b, isDir, stack, o, n);
      var out := EntryRun(e, w1, Outside(o), Outside(n), b, isDir, stack);
      DottedLoop(e, out.w, Outside(o), Outside(n), names, i + 1, out.ret, out.isDir, stack);
    }
  }

  lemma OnlyName(names: seq<Name>, i: nat, b: Name)
    requires IsListing(names, {b}) && i < |names| && !Dotted(names[i])
    ensures names[i] == b && forall k :: i < k < |names| ==> Dotted(names[k])
  {
    assert names[i] in names;
  }

  lemma {:induction false} DottedLoop(e: Env, w: World, from: Ref, to: Ref, names: seq<Name>, i: nat, ret: int,
                                      isDir: bool, stack: nat)
    requires AlwaysFine(e) && i <= |names| && forall k :: i <= k < |names| ==> Dotted(names[k])
    ensures var out := LoopRun(e, w, from, to, names, i, ret, isDir, stack); !out.abort && !out.crash && out.ret == ret
    decreases |names| - i
  {
    if i < |names| {
      assert e.sched(w.tick).Fine?;
      DottedLoop(e, Asked(w), from, to, names, i + 1, ret, isDir, stack);
    }
  }

  /** The rename of a directory that holds one directory of plain files and nothing else, every call
      succeeding: it answers 0 if and only if there are at most eleven files, which is one more than it
      can move. */
  lemma OnlyAnswer(e: Env, w: World, stack: nat, o: TreePath, n: TreePath, b: Name)
    requires AlwaysFine(e) && WellFormed(w.tree) && ListsWell(e) && Apart(o, n, e.cacheDir) && GoodName(n) && stack > 2
    requires IsDir(w.tree, o) && HasParent(w.tree, n) && Compatible(w.tree, o, n) && Children(w.tree, o) == {b}
    requires IsDir(w.tree, o + [b]) && FilesOnly(w.tree, o + [b]) && NoCache(w.tree, e.cacheDir)
    ensures var out := DirRun(e, w, Outside(o), Outside(n), stack);
            !out.crash && out.ret == if |Children(w.tree, o + [b])| <= 11 then 0 else -1
  {
    hide DirRun, LoopRun, ListsWell, TargetRun, Rmdir, AlwaysFine, WellFormed, Compatible, HasParent, Children,
         FilesOnly, NoCache, IsListing, Apart, OneDir;
    var from, to := Outside(o), Outside(n);
    Made(e, w, to, o, n);
    var made := TargetRun(e, w, to).w;
    assert WellFormed(made.tree) by { MadeGood(w.tree, n); }
    BothThere(e, w.tree, made.tree, o, n, b);
    AnswerOf(e, w, from, to, stack, o);
    var names := e.order(made.tree, o);
    assert IsListing(names, {b}) by { ListsIt(e, made.tree, o); }
    RemainingAll(names, {b});
    var v := made.(tick := made.tick + 2);
    OnlyLoop(e, v, names, 0, 0, e.garbage(v.tick), stack - 1, o, n, b);
  }

  lemma BothThere(e: Env, t: Tree, u: Tree, o: TreePath, n: TreePath, b: Name)
    requires WellFormed(t) && WellFormed(u) && Apart(o, n, e.cacheDir) && GoodName(n) && IsDir(t, o)
    requires Compatible(t, o, n)
    requires u == (if n in t then t else t[n := Dir]) && Children(t, o) == {b}
    requires IsDir(t, o + [b]) && FilesOnly(t, o + [b]) && NoCache(t, e.cacheDir)
    ensures IsDir(u, o) && Children(u, o) == {b} && OneDir(e, u, o, n, b)
    ensures Children(u, o + [b]) == Children(t, o + [b])
  {
    var d, m := o + [b], n + [b];
    assert Image(o, n, o) == n;
    MkdirElsewhere(t, u, o, n);
    ApartBelow(o, n, e.cacheDir, b);
    assert !Under(d, n) && !Under(e.cacheDir, n) by {
      UnderBoth(o, n, n);
      UnderBoth(e.cacheDir, n, n);
      assert Under(d, n) ==> Under(o, n);
    }
    GoodChild(t, o, b);
    SameBelow(t, u, d, n);
    CompatibleBelow(t, u, o, n, b);
    hide Compatible, WellFormed, Disjoint;
    forall q | q in u ensures !Under(e.cacheDir, q) && (Under(d, q) && q != d ==> |q| == |d| + 1 && u[q].File?)
    {
    }
  }

  lemma CompatibleBelow(t: Tree, u: Tree, o: TreePath, n: TreePath, b: Name)
    requires Compatible(t, o, n) && u == (if n in t then t else t[n := Dir]) && !Under(o + [b], n)
    ensures Compatible(u, o + [b], n + [b])
  {
    var d, m := o + [b], n + [b];
    forall q | Under(d, q) && q in u && Image(d, m, q) in u ensures IsFile(u, q) <==> IsFile(u, Image(d, m, q))
    {
      ChildImage(o, n, b, q);
      assert |Image(d, m, q)| > |n|;
    }
  }

  lemma GoodChild(t: Tree, o: TreePath, b: Name)
    requires WellFormed(t) && o + [b] in t
    ensures !Dotted(b)
  {
    assert (o + [b])[|o + [b]| - 1] == b;
  }

  lemma SameBelow(t: Tree, u: Tree, d: TreePath, n: TreePath)
    requires !Under(d, n) && u == (if n in t then t else t[n := Dir])
    ensures Children(u, d) == Children(t, d) && IsDir(u, d) == IsDir(t, d)
  {
    forall x ensures x in Children(u, d) <==> x in Children(t, d)
    {
      ChildIn(t, d, x);
      ChildIn(u, d, x);
      assert Under(d, d + [x]);
    }
  }
}
