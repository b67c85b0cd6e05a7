/** rename_directory and rename_file of src/rename.c as they are written: over a tree that the calls
    change, with the names of the entries in the ring of string buffers. */
module Rename {
  import opened Basics
  import opened TmpStr
  import opened RemoteTree
  import opened RenameSpec
  import opened Draws
  import opened RenameRun
  import opened RenameSafe
  import opened RenameRing
  import opened RenameLoss
  import opened RenamePlain
  import opened RenameAnswer
  import opened RenameReport

  /** The caller's own string, or a buffer there is. */
  predicate Held(ref: Ref) {
    ref.Buffer? ==> ref.k < TMPSTR_NB
  }

  class Renamer {
    var tree: Tree
    var cwd: TreePath
    var tick: nat
    const env: Env
    const ring: Ring<TreePath>
    ghost var trace: seq<Tree>  // the tree after every call, and at the start

    ghost predicate Valid()
      reads this, ring, ring.strings
    {
      ring.Valid() && ring.zero == []
    }

    ghost function Abs(): World
      reads this, ring
    {
      World(tree, tick, ring.log, trace)
    }

    constructor (objects: Tree, e: Env)
      requires WellFormed(objects)
      ensures Valid() && Good(Abs()) && Abs() == World(objects, 0, [], [objects]) && env == e
      ensures fresh(ring) && fresh(ring.strings)
    {
      tree, cwd, env, tick, trace := objects, [], e, 0, [objects];
      ring := new Ring([]);
    }

    method Deref(ref: Ref) returns (path: TreePath)
      requires Valid() && Held(ref)
      ensures path == At(Abs(), ref)
    {
      match ref
      case Outside(p) => path := p;
      case Buffer(k) => path := ring.strings[k];
    }

    method Answered() returns (r: Answer)
      modifies this`tick
      ensures r == env.sched(old(tick)) && Abs() == Asked(old(Abs()))
    {
      r := env.sched(tick);
      tick := tick + 1;
    }

    /** A call that leaves the tree `t`. */
    method Put(t: Tree)
      modifies this`tree, this`tick, this`trace
      ensures Abs() == Called(old(Abs()), t)
    {
      tree, tick, trace := t, tick + 1, trace + [t];
    }

    /** dfs_namei_timeout; `isDir` is left to the caller unless it succeeds. */
    method Lookup(p: TreePath) returns (rc: int, isDir: bool)
      modifies this`tick
      ensures rc == Namei(old(tree), p, env.sched(old(tick))) && Abs() == Asked(old(Abs()))
      ensures rc == DPL_SUCCESS ==> isDir == IsDir(old(tree), p)
    {
      var r := Answered();
      isDir := IsDir(tree, p);
      if r.Fails? {
        rc := r.code;
      } else {
        rc := if p in tree then DPL_SUCCESS else DPL_ENOENT;
      }
    }

    /** dfs_unlink: src/unlink.c:30-40. */
    method DfsUnlink(p: TreePath) returns (ret: int)
      requires Valid()
      modifies this`tree, this`tick, this`trace, ring, ring.strings
      ensures Valid() && Out(Abs(), ret, false) == UnlinkRun(env, old(Abs()), p)
    {
      var (t, rc) := Unlink(tree, p, env.sched(tick));
      Put(t);
      if rc != DPL_SUCCESS {
        return 1;
      }
      var local := ring.Printf(env.cacheDir + p);
      ret := 0;
    }

    /** rename_file: src/rename.c:17-51. */
    method RenameFile(from: Ref, to: Ref) returns (ret: int)
      requires Valid() && Held(from) && Held(to)
      modifies this`tree, this`tick, this`trace, ring, ring.strings
      ensures Valid() && Out(Abs(), ret, false) == FileRun(env, old(Abs()), from, to)
    {
      var src := Deref(from);
      var dst := Deref(to);
      var (t, rc) := Fcopy(tree, src, dst, env.sched(tick));
      Put(t);
      if rc != DPL_SUCCESS {
        return -1;
      }
      src := Deref(from);
      ret := DfsUnlink(src);
    }

    /** rename_directory makes the new directory when it is not there: src/rename.c:68-82. */
    method MakeTarget(to: Ref) returns (ret: int)
      requires Valid() && Held(to)
      modifies this`tree, this`tick, this`trace
      ensures Valid() && Out(Abs(), ret, false) == TargetRun(env, old(Abs()), to)
    {
      var dst := Deref(to);
      var rc, isDir := Lookup(dst);
      if rc != DPL_SUCCESS && rc != DPL_ENOENT {
        return -1;
      }
      if rc == DPL_ENOENT {
        var (t, mk) := Mkdir(tree, dst, env.sched(tick));
        Put(t);
        if mk != DPL_SUCCESS && mk != DPL_ENOENT {
          return -1;
        }
      }
      ret := 0;
    }

    /** And lists the old one, which it enters first: src/rename.c:84-96. */
    method OpenSource(from: Ref) returns (ret: int, names: seq<Name>)
      requires Valid() && Held(from)
      modifies this`cwd, this`tick
      ensures Valid() && (Out(Abs(), ret, false), names) == OpenRun(env, old(Abs()), from)
    {
      var src := Deref(from);
      var r := Answered();
      if r.Fails? {
        return r.code, [];
      }
      if !IsDir(tree, src) {
        return DPL_EINVAL, [];
      }
      cwd := src;
      r := Answered();
      if r.Fails? {
        return r.code, [];
      }
      ret, names := 0, env.order(tree, cwd);
    }

    /** One turn of the loop, once the entry's name is known: src/rename.c:104-125. */
    method MoveEntry(from: Ref, to: Ref, x: Name, wasDir: bool, stack: nat)
      returns (ret: int, isDir: bool, abort: bool, crash: bool)
      requires Valid() && Held(from) && Held(to)
      modifies this, ring, ring.strings
      ensures Valid()
      ensures EntryOut(Abs(), ret, isDir, abort, crash) == EntryRun(env, old(Abs()), from, to, x, wasDir, stack)
      decreases stack, 1
    {
      hide DirRun, FileRun, Namei, At;
      isDir, abort, crash := wasDir, false, false;
      var base := Deref(from);
      var src := ring.Printf(base + [x]);
      base := Deref(to);
      var dst := ring.Printf(base + [x]);
      var path := Deref(Buffer(src));
      var rc, found := Lookup(path);
      if rc != DPL_SUCCESS && rc != DPL_ENOENT {
        return -1, wasDir, true, false;
      }
      if rc == DPL_SUCCESS {
        isDir := found;
      }
      if isDir {
        ret, crash := RenameDirectory(Buffer(src), Buffer(dst), stack);
      } else {
        ret := RenameFile(Buffer(src), Buffer(dst));
      }
    }

    /** The loop of rename_directory: src/rename.c:98-126. */
    method MoveEntries(from: Ref, to: Ref, names: seq<Name>, garbage: bool, stack: nat)
      returns (ret: int, abort: bool, crash: bool)
      requires Valid() && Held(from) && Held(to)
      modifies this, ring, ring.strings
      ensures Valid()
      ensures var out := LoopRun(env, old(Abs()), from, to, names, 0, 0, garbage, stack);
              Abs() == out.w && ret == out.ret && abort == out.abort && crash == out.crash
      decreases stack, 2
    {
      hide EntryRun;
      ret, abort, crash := 0, false, false;
      var isDir, i := garbage, 0;
      while i < |names|
        invariant Valid() && i <= |names| && !abort && !crash
        invariant LoopRun(env, Abs(), from, to, names, i, ret, isDir, stack) == LoopRun(env, old(Abs()), from, to,
              names, 0, 0, garbage, stack)
      {
        var r := Answered();
        if r.Fails? {
          return;
        }
        var x := names[i];
        i := i + 1;
        if Dotted(x) {
          continue;
        }
        ret, isDir, abort, crash := MoveEntry(from, to, x, isDir, stack);
        if abort || crash {
          return;
        }
      }
    }

    /** rename_directory: src/rename.c:53-139. */
    method RenameDirectory(from: Ref, to: Ref, stack: nat) returns (ret: int, crash: bool)
      requires Valid() && Held(from) && Held(to)
      modifies this, ring, ring.strings
      ensures Valid() && Out(Abs(), ret, crash) == DirRun(env, old(Abs()), from, to, stack)
      decreases stack, 0
    {
      hide TargetRun, OpenRun, LoopRun, At;
      if stack == 0 {
        return -1, true;
      }
      crash := false;
      ret := MakeTarget(to);
      if ret != 0 {
        return;
      }
      var names;
      ret, names := OpenSource(from);
      if ret != 0 {
        return;
      }
      var abort;
      ret, abort, crash := MoveEntries(from, to, names, env.garbage(tick), stack - 1);
      if abort || crash || ret == -1 {
        return;
      }
      var src := Deref(from);
      var (t, _) := Rmdir(tree, src, env.sched(tick));
      Put(t);
      ret := 0;
    }

    /** dfs_rename: src/rename.c:141-184. When the ring suffices, or overflows in directories of plain
        files only, no file is lost on the way, whatever the calls answer, and every file has moved once
        nothing is at the old name; and when all calls succeed, what can be moved is moved exactly if and
        only if the ring suffices. The answer is 0 or -1: -1 for a file exactly when its copy does not
        succeed; -1 when the new name's lookup or the mkdir is refused; of a directory that is listed
        exactly when an entry's lookup is refused or the last entry answered so; and for one directory of
        plain files in another, all calls succeeding, 0 exactly up to eleven of them. */
    method DfsRename(oldpath: TreePath, newpath: TreePath, stack: nat) returns (ret: int, crash: bool)
      requires Valid()
      modifies this, ring, ring.strings
      ensures Valid() && Out(Abs(), ret, crash) == WholeRun(env, old(Abs()), oldpath, newpath, stack)
      ensures old(Good(Abs())) && ListsWell(env) && Disjoint(oldpath, newpath) && GoodName(newpath)
              && Sheltered(env, old(tree), oldpath, newpath) ==>
                && Safely(old(Abs()), Abs(), oldpath, newpath)
                && (RingFits(old(tree), oldpath) && stack > |Subtree(old(tree), oldpath)| ==> !crash)
                && (oldpath !in tree ==> forall q :: Under(oldpath, q) && IsFile(old(tree), q) ==>
                      Image(oldpath, newpath, q) in tree && tree[Image(oldpath, newpath, q)] == old(tree)[q])
      ensures old(Good(Abs())) && ListsWell(env) && Movable(env, old(tree), oldpath, newpath)
              && AllFine(env, old(tick), tick) && stack > |Subtree(old(tree), oldpath)| ==>
                && (Relocated(old(tree), tree, oldpath, newpath) <==> RingFits(old(tree), oldpath))
                && (RingFits(old(tree), oldpath) ==> ret == 0)
      ensures ret == 0 || ret == -1
      ensures IsFile(old(tree), oldpath) && env.sched(old(tick)).Fine? ==>
                (ret == -1 <==> env.sched(old(tick) + 1).Fails? || !CanCopy(old(tree), oldpath, newpath))
      ensures IsDir(old(tree), oldpath) && env.sched(old(tick)).Fine? && stack > 0 ==>
                && (Refused(env.sched(old(tick) + 1)) ==> ret == -1 && tree == old(tree))
                && ((if env.sched(old(tick) + 1).Fine? then newpath !in old(tree)
                     else env.sched(old(tick) + 1).code == -2)
                    && Refused(env.sched(old(tick) + 2)) ==>
                      ret == -1 && (tree == old(tree) || tree == old(tree)[newpath := Dir]))
      ensures IsDir(old(tree), oldpath) && env.sched(old(tick)).Fine? && stack > 0
              && CanList(env, old(Abs()), oldpath, newpath) && !crash ==>
                (ret == -1 <==> EntriesFail(env, old(Abs()), oldpath, newpath, stack - 1))
      ensures WellFormed(old(tree)) && AlwaysFine(env) && ListsWell(env) && stack > 2 ==>
                forall b :: HoldsOnly(env, old(tree), oldpath, newpath, b) ==>
                  ret == if |Children(old(tree), oldpath + [b])| <= 11 then 0 else -1
    {
      hide DirRun, FileRun, Good, ListsWell, Disjoint, GoodName, RingFits, Sheltered, Safely, Subtree, AllFine,
           Relocated, Compatible, HasParent, CanCopy, CanList, EntriesFail, HoldsOnly, AlwaysFine, Refused, Children,
           Movable, Under, Image;
      ghost var w := Abs();
      AnswerIs(env, w, oldpath, newpath, stack);
      RunIs(env, w, oldpath, newpath, stack);
      crash := false;
      var rc, isDir := Lookup(oldpath);
      var isReg := !isDir;
      if rc != DPL_SUCCESS {
        isDir, isReg := env.garbage(tick), env.garbage(tick + 1);
      }
      if (rc == 1 && rc != DPL_ENOENT) || (!isDir && !isReg) {
        ret := -1;
      } else {
        if isDir {
          ret, crash := RenameDirectory(Outside(oldpath), Outside(newpath), stack);
        } else {
          ret := RenameFile(Outside(oldpath), Outside(newpath));
        }
        ret := if ret == -1 then -1 else 0;
      }
      assert Out(Abs(), ret, crash) == WholeRun(env, w, oldpath, newpath, stack);
      hide WholeRun;
    }
  }

  /** What has moved. */
  lemma RunIs(e: Env, w: World, o: TreePath, n: TreePath, stack: nat)
    ensures var out := WholeRun(e, w, o, n, stack);
            Good(w) && ListsWell(e) && Disjoint(o, n) && GoodName(n) && Sheltered(e, w.tree, o, n) ==>
              && Safely(w, out.w, o, n) && (RingFits(w.tree, o) && stack > |Subtree(w.tree, o)| ==> !out.crash)
              && (o !in out.w.tree ==> forall q :: Under(o, q) && IsFile(w.tree, q) ==>
                    Image(o, n, q) in out.w.tree && out.w.tree[Image(o, n, q)] == w.tree[q])
    ensures var out := WholeRun(e, w, o, n, stack);
            Good(w) && ListsWell(e) && Movable(e, w.tree, o, n) && AllFine(e, w.tick, out.w.tick)
            && stack > |Subtree(w.tree, o)| ==>
              (Relocated(w.tree, out.w.tree, o, n) <==> RingFits(w.tree, o)) && (RingFits(w.tree, o) ==> out.ret == 0)
  {
    hide Good, ListsWell, Disjoint, GoodName, RingFits, Sheltered, Safely, Subtree, AllFine, Relocated, Compatible,
         HasParent, CanCopy, WholeRun, IsFile, Under, Image;
    if Good(w) && ListsWell(e) && Disjoint(o, n) && GoodName(n) && Sheltered(e, w.tree, o, n) {
      ShelteredSafely(e, w, o, n, stack);
    }
    if Good(w) && ListsWell(e) && Movable(e, w.tree, o, n) && AllFine(e, w.tick, WholeRun(e, w, o, n, stack).w.tick)
       && stack > |Subtree(w.tree, o)| {
      RenameExactly(e, w, o, n, stack);
    }
  }

  /** What the answer says, once the old name has been looked up. */
  lemma AnswerIs(e: Env, w: World, o: TreePath, n: TreePath, stack: nat)
    ensures var out := WholeRun(e, w, o, n, stack);
            IsFile(w.tree, o) && e.sched(w.tick).Fine? ==>
              (out.ret == -1 <==> e.sched(w.tick + 1).Fails? || !CanCopy(w.tree, o, n))
    ensures var out := WholeRun(e, w, o, n, stack);
            IsDir(w.tree, o) && e.sched(w.tick).Fine? && stack > 0 ==>
              && (Refused(e.sched(w.tick + 1)) ==> out.ret == -1 && out.w.tree == w.tree)
              && ((if e.sched(w.tick + 1).Fine? then n !in w.tree else e.sched(w.tick + 1).code == -2)
                  && Refused(e.sched(w.tick + 2)) ==>
                    out.ret == -1 && (out.w.tree == w.tree || out.w.tree == w.tree[n := Dir]))
              && (CanList(e, w, o, n) && !out.crash ==> (out.ret == -1 <==> EntriesFail(e, w, o, n, stack - 1)))
    ensures var out := WholeRun(e, w, o, n, stack);
            WellFormed(w.tree) && AlwaysFine(e) && ListsWell(e) && stack > 2 ==>
              forall b :: HoldsOnly(e, w.tree, o, n, b) ==>
                !out.crash && out.ret == if |Children(w.tree, o + [b])| <= 11 then 0 else -1
  {
    hide WholeRun, CanCopy, CanList, EntriesFail, HoldsOnly, AlwaysFine, ListsWell, WellFormed, Refused, Children;
    if e.sched(w.tick).Fine? && IsFile(w.tree, o) { FileAnswer(e, w, o, n, stack); }
    if e.sched(w.tick).Fine? && IsDir(w.tree, o) && stack > 0 {
      TargetRefused(e, w, o, n, stack);
      if CanList(e, w, o, n) && !WholeRun(e, w, o, n, stack).crash { DirectoryAnswer(e, w, o, n, stack); }
    }
    if WellFormed(w.tree) && AlwaysFine(e) && ListsWell(e) && stack > 2 {
      forall b | HoldsOnly(e, w.tree, o, n, b)
        ensures !WholeRun(e, w, o, n, stack).crash
        ensures WholeRun(e, w, o, n, stack).ret == if |Children(w.tree, o + [b])| <= 11 then 0 else -1
      {
        OnlyRename(e, w, stack, o, n, b);
      }
    }
  }

  /** The buffers suffice, or overflow only in directories of plain files. */
  ghost predicate Sheltered(e: Env, t: Tree, o: TreePath, n: TreePath) {
    RingFits(t, o) || (Apart(o, n, e.cacheDir) && Tame(t, o) && NoCache(t, e.cacheDir))
  }

  lemma ShelteredSafely(e: Env, w: World, o: TreePath, n: TreePath, stack: nat)
    requires Good(w) && ListsWell(e) && Disjoint(o, n) && GoodName(n) && Sheltered(e, w.tree, o, n)
    ensures RingFits(w.tree, o) && stack > |Subtree(w.tree, o)| ==> !WholeRun(e, w, o, n, stack).crash
    ensures var u := WholeRun(e, w, o, n, stack).w;
            && Safely(w, u, o, n)
            && (o !in u.tree ==> forall q :: Under(o, q) && IsFile(w.tree, q) ==>
                 Lookup(u.tree, Image(o, n, q)) == Some(w.tree[q]))
  {
    hide Good, ListsWell, GoodName, WholeRun, Safely, RingFits, Tame, NoCache, IsFile, Subtree;
    if RingFits(w.tree, o) { RenameSafely(e, w, o, n, stack); } else { RenameTame(e, w, o, n, stack); }
    GoneMeansMoved(w, WholeRun(e, w, o, n, stack).w, o, n);
  }

  /** What a rename is asked that the store can do. */
  ghost predicate Movable(e: Env, t: Tree, o: TreePath, n: TreePath) {
    && Disjoint(o, n) && Disjoint(e.cacheDir, o) && GoodName(n) && HasParent(t, n) && Compatible(t, o, n)
    && (IsDir(t, o) || CanCopy(t, o, n))
  }
}
