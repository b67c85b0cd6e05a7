/** A rename whose names stay in their buffers: no file is lost whatever the calls answer, and
    everything is moved when they all succeed. */
module RenameSafe {
  import opened Basics
  import opened TmpStr
  import opened RemoteTree
  import opened RenameSpec
  import opened Draws
  import opened RenameRun

  predicate GoodName(p: TreePath) {
    p != [] && !Dotted(p[|p| - 1])
  }

  /** What readdir gives: the children and perhaps "." and "..", each once, in any order. */
  ghost predicate IsListing(names: seq<Name>, children: set<Name>) {
    && (forall i, j :: 0 <= i < j < |names| ==> names[i] != names[j])
    && (forall x :: x in names && !Dotted(x) <==> x in children)
  }

  /** The children a loop over `names` has still to visit from position `i` on. */
  function Remaining(names: seq<Name>, i: nat): set<Name>
    requires i <= |names|
  {
    set k | i <= k < |names| && !Dotted(names[k]) :: names[k]
  }

  lemma RemainingNext(names: seq<Name>, children: set<Name>, i: nat)
    requires i < |names| && IsListing(names, children)
    ensures Dotted(names[i]) ==> Remaining(names, i + 1) == Remaining(names, i)
    ensures !Dotted(names[i]) ==>
              names[i] in Remaining(names, i) && Remaining(names, i + 1) == Remaining(names, i) - {names[i]}
  {
  }

  lemma RemainingAll(names: seq<Name>, children: set<Name>)
    requires IsListing(names, children)
    ensures Remaining(names, 0) == children && Remaining(names, |names|) == {}
  {
    forall x | x in children ensures x in Remaining(names, 0)
    {
      assert x in names;
    }
  }

  /** Making the directory `n` touches nothing of the old one. */
  lemma MkdirElsewhere(t0: Tree, t: Tree, o: TreePath, n: TreePath)
    requires Disjoint(o, n) && n != [] && (t == t0 || t == t0[n := Dir])
    ensures Children(t, o) == Children(t0, o) && IsDir(t, o) == IsDir(t0, o)
    ensures forall todo :: Intact(t0, t, o, todo)
  {
    forall x ensures x in Children(t, o) <==> x in Children(t0, o)
    {
      ChildIn(t, o, x);
      ChildIn(t0, o, x);
    }
  }

  lemma ReadyToMove(t0: Tree, t: Tree, o: TreePath, n: TreePath)
    requires WellFormed(t0) && Disjoint(o, n)
    ensures IsDir(t0, o) && Compatible(t0, o, n) && t == (if n in t0 then t0 else t0[n := Dir])
            ==> Partial(t0, t, o, n, Children(t0, o))
  {
    if IsDir(t0, o) && Compatible(t0, o, n) && t == (if n in t0 then t0 else t0[n := Dir]) {
      assert Image(o, n, o) == n;
      PartialStart(t0, t, o, n);
    }
  }

  /** What the loop knows when it comes to the name at `i`. */
  lemma TurnBefore(t0: Tree, t: Tree, o: TreePath, n: TreePath, names: seq<Name>, i: nat)
    requires WellFormed(t0) && IsDir(t0, o) && IsListing(names, Children(t0, o))
    requires i < |names| && !Dotted(names[i])
    requires Disjoint(o, n) && Intact(t0, t, o, Remaining(names, i))
    ensures var c := o + [names[i]];
            && c in t && (EntryFits(t0, c) ==> EntryFits(t, c)) && Share(t, c) == Share(t0, c)
               && DrawsOf(t, c) == DrawsOf(t0, c)
            && Lookup(t, c) == Lookup(t0, c) && |Subtree(t, c)| < |Subtree(t0, o)|
            && Weight(t0, Named(t0, o, Remaining(names, i))) ==
               Weight(t0, Named(t0, o, Remaining(names, i + 1))) + Share(t, c)
            && Intact(t0, t, o, {names[i]})
    ensures var c, m := o + [names[i]], n + [names[i]];
            Partial(t0, t, o, n, Remaining(names, i)) && Compatible(t0, o, n) ==>
              HasParent(t, m) && Compatible(t, c, m) && (IsFile(t, c) ==> CanCopy(t, c, m))
  {
    var x := names[i];
    RemainingNext(names, Children(t0, o), i);
    ChildIn(t0, o, x);
    assert Intact(t0, t, o, {x});
    forall q | Under(o + [x], q) ensures Lookup(t, q) == Lookup(t0, q)
    {
      UnderChild(o, x, q);
    }
    assert Lookup(t, o + [x]) == Lookup(t0, o + [x]);
    SameSubtree(t0, t, o + [x]);
    SmallerSubtree(t0, o, x);
    ChildShare(t0, o, Remaining(names, i), x);
    if Partial(t0, t, o, n, Remaining(names, i)) && Compatible(t0, o, n) {
      ChildReady(t0, t, o, n, Remaining(names, i), x);
    }
  }

  /** What the loop knows after that name's move. */
  lemma TurnAfter(t0: Tree, t: Tree, u: Tree, o: TreePath, n: TreePath, names: seq<Name>, i: nat)
    requires IsListing(names, Children(t0, o)) && i < |names| && !Dotted(names[i])
    requires Disjoint(o, n) && Intact(t0, t, o, Remaining(names, i))
    requires Frame(t, u, o + [names[i]], n + [names[i]])
    ensures Intact(t0, u, o, Remaining(names, i + 1))
    ensures Partial(t0, t, o, n, Remaining(names, i)) && Relocated(t, u, o + [names[i]], n + [names[i]]) ==>
              Partial(t0, u, o, n, Remaining(names, i + 1))
  {
    RemainingNext(names, Children(t0, o), i);
    assert Intact(t0, t, o, Remaining(names, i + 1));
    IntactChild(t0, t, u, o, n, names[i], Remaining(names, i + 1));
    if Partial(t0, t, o, n, Remaining(names, i)) && Relocated(t, u, o + [names[i]], n + [names[i]]) {
      PartialChild(t0, t, u, o, n, names[i], Remaining(names, i));
    }
  }

  // ----- Runs -----

  /** The tree is the last of the trace and a tree. */
  ghost predicate Good(w: World) {
    WellFormed(w.tree) && |w.trace| > 0 && w.trace[|w.trace| - 1] == w.tree
  }

  /** The store lists every child once, in some order, with "." and ".." perhaps. */
  ghost predicate ListsWell(e: Env) {
    forall t, p :: WellFormed(t) ==> IsListing(e.order(t, p), Children(t, p))
  }

  ghost predicate AllFine(e: Env, a: nat, b: nat) {
    forall k :: a <= k < b ==> e.sched(k).Fine?
  }

  ghost predicate Grew(w: World, u: World) {
    w.tick <= u.tick && w.log <= u.log && w.trace <= u.trace
  }

  /** Every tree from position `k` of the trace on is safe. */
  ghost predicate SafeSince(trace: seq<Tree>, k: int, t0: Tree, o: TreePath, n: TreePath) {
    forall i :: 0 <= k <= i < |trace| ==> Safe(t0, trace[i], o, n)
  }

  lemma StepsGrow(e: Env, w: World, from: Ref, to: Ref)
    ensures Grew(w, TargetRun(e, w, to).w) && Grew(w, OpenRun(e, w, from).0.w) && Grew(w, FileRun(e, w, from, to).w)
    ensures w.tick < FileRun(e, w, from, to).w.tick
    ensures w.tick < TargetRun(e, w, to).w.tick && TargetRun(e, w, to).w.log == w.log
    ensures OpenRun(e, w, from).0.w.log == w.log && OpenRun(e, w, from).0.w.trace == w.trace
    ensures OpenRun(e, w, from).0.w.tree == w.tree
  {
    hide Fcopy, Unlink, Mkdir;
  }

  lemma {:induction false} DirGrows(e: Env, w: World, from: Ref, to: Ref, stack: nat)
    ensures Grew(w, DirRun(e, w, from, to, stack).w)
    decreases stack, 0, 0
  {
    hide TargetRun, OpenRun, At, Rmdir;
    if stack > 0 {
      var made := TargetRun(e, w, to);
      var (opened', names) := OpenRun(e, made.w, from);
      StepsGrow(e, w, from, to);
      StepsGrow(e, made.w, from, to);
      if made.ret == 0 && opened'.ret == 0 {
        LoopGrows(e, opened'.w, from, to, names, 0, 0, e.garbage(opened'.w.tick), stack - 1);
      }
    }
  }

  lemma {:induction false} LoopGrows(e: Env, w: World, from: Ref, to: Ref, names: seq<Name>, i: nat, ret: int,
                                     isDir: bool, stack: nat)
    requires i <= |names|
    ensures Grew(w, LoopRun(e, w, from, to, names, i, ret, isDir, stack).w)
    decreases stack, 2, |names| - i
  {
    if i < |names| && e.sched(w.tick).Fine? {
      var w1 := Asked(w);
      if Dotted(names[i]) {
        LoopGrows(e, w1, from, to, names, i + 1, ret, isDir, stack);
      } else {
        var out := EntryRun(e, w1, from, to, names[i], isDir, stack);
        EntryGrows(e, w1, from, to, names[i], isDir, stack);
        if !out.abort && !out.crash { LoopGrows(e, out.w, from, to, names, i + 1, out.ret, out.isDir, stack); }
      }
    }
  }

  lemma {:induction false} EntryGrows(e: Env, w: World, from: Ref, to: Ref, x: Name, wasDir: bool, stack: nat)
    ensures var u := EntryRun(e, w, from, to, x, wasDir, stack).w;
            Grew(w, u) && w.tick < u.tick && |u.log| >= |w.log| + 2
    decreases stack, 1, 0
  {
    hide FileRun, At;
    var w1 := Draw(w, At(w, from) + [x]);
    var w2 := Draw(w1, At(w1, to) + [x]);
    StepsGrow(e, Asked(w2), Last(w1), Last(w2));
    DirGrows(e, Asked(w2), Last(w1), Last(w2), stack);
  }

  // ----- Strings -----

  /** The string reads as `p` until `upto` buffers have been drawn in all. */
  ghost predicate Reads(log: seq<TreePath>, ref: Ref, p: TreePath, upto: nat) {
    match ref
    case Outside(q) => q == p
    case Buffer(k) => exists i :: DrawnAs(log, i, p, k) && upto <= i + TMPSTR_NB
  }

  ghost predicate DrawnAs(log: seq<TreePath>, i: int, p: TreePath, k: nat) {
    0 <= i < |log| && log[i] == p && k == SlotOf(i + 1)
  }

  lemma ReadsLater(log: seq<TreePath>, log': seq<TreePath>, ref: Ref, p: TreePath, upto: nat)
    requires Reads(log, ref, p, upto) && log <= log'
    ensures Reads(log', ref, p, upto)
  {
    match ref
    case Outside(_) =>
    case Buffer(k) =>
      var i :| DrawnAs(log, i, p, k) && upto <= i + TMPSTR_NB;
      assert DrawnAs(log', i, p, k);
  }

  lemma ReadsNow(w: World, ref: Ref, p: TreePath, upto: nat)
    requires Reads(w.log, ref, p, upto) && |w.log| <= upto
    ensures At(w, ref) == p
  {
    match ref
    case Outside(_) =>
    case Buffer(k) =>
      var i :| DrawnAs(w.log, i, p, k) && upto <= i + TMPSTR_NB;
      Lifetime(|w.log|, i);
  }

  /** The buffer just drawn reads as what was drawn for 31 draws more. */
  lemma ReadsLast(w: World, p: TreePath, log: seq<TreePath>)
    requires Draw(w, p).log <= log
    ensures Reads(log, Last(Draw(w, p)), p, |w.log| + TMPSTR_NB)
  {
    assert DrawnAs(log, |w.log|, p, SlotOf(|w.log| + 1));
  }

  // ----- One file -----

  /** Safe at every moment from `w` to `u`. */
  ghost predicate Safely(w: World, u: World, o: TreePath, n: TreePath) {
    Good(u) && Grew(w, u) && SafeSince(u.trace, |w.trace| - 1, w.tree, o, n)
  }

  lemma CallSafely(w: World, u: World, t: Tree, o: TreePath, n: TreePath)
    requires Good(w) && Grew(w, u) && SafeSince(u.trace, |w.trace| - 1, w.tree, o, n)
    requires WellFormed(t) && Safe(w.tree, t, o, n)
    ensures Safely(w, Called(u, t), o, n)
  {
  }

  lemma StartSafely(w: World, o: TreePath, n: TreePath)
    requires Good(w)
    ensures Grew(w, w) && SafeSince(w.trace, |w.trace| - 1, w.tree, o, n)
  {
    SafeHere(w.tree, o, n);
    hide Safe, WellFormed;
  }

  lemma UnlinkSafely(e: Env, w: World, u: World, o: TreePath, n: TreePath)
    requires Good(w) && Grew(w, u) && SafeSince(u.trace, |w.trace| - 1, w.tree, o, n)
    requires WellFormed(u.tree) && Safe(w.tree, Unlink(u.tree, o, e.sched(u.tick)).0, o, n)
    ensures var out := UnlinkRun(e, u, o);
            && Safely(w, out.w, o, n) && !out.crash && out.w.tick == u.tick + 1
            && out.w.tree == Unlink(u.tree, o, e.sched(u.tick)).0
            && (out.ret == 0 <==> Unlink(u.tree, o, e.sched(u.tick)).1 == DPL_SUCCESS)
            && |out.w.log| == |u.log| + (if out.ret == 0 then 1 else 0)
  {
    var t := Unlink(u.tree, o, e.sched(u.tick)).0;
    UnlinkKeeps(u.tree, o, e.sched(u.tick));
    hide Safe, WellFormed, Unlink;
    CallSafely(w, u, t, o, n);
  }

  lemma FileOutcome(e: Env, w: World, from: Ref, to: Ref)
    ensures var o := At(w, from);
            var copy := Fcopy(w.tree, o, At(w, to), e.sched(w.tick));
            var w1 := Called(w, copy.0);
            FileRun(e, w, from, to) == if copy.1 == DPL_SUCCESS then UnlinkRun(e, w1, o) else Out(w1, -1, false)
  {
    hide Fcopy, UnlinkRun;
  }

  lemma CopySafely(w: World, o: TreePath, n: TreePath, r: Answer)
    requires Good(w) && Disjoint(o, n) && GoodName(n)
    ensures Safely(w, Called(w, Fcopy(w.tree, o, n, r).0), o, n)
    ensures Fcopy(w.tree, o, n, r).1 == DPL_SUCCESS ==> IsFile(w.tree, o)
  {
    StartSafely(w, o, n);
    FcopyKeeps(w.tree, o, n, r);
    SafeFcopy(w.tree, o, n, r);
    hide Safe, SafeSince, Grew;
    CallSafely(w, w, Fcopy(w.tree, o, n, r).0, o, n);
  }

  /** rename_file: safe after each of its two calls, whatever they answer. */
  lemma FileSafely(e: Env, w: World, from: Ref, to: Ref, o: TreePath, n: TreePath)
    requires Good(w) && Disjoint(o, n) && GoodName(n) && At(w, from) == o && At(w, to) == n
    ensures var out := FileRun(e, w, from, to);
            && Safely(w, out.w, o, n) && !out.crash
            && |out.w.log| <= |w.log| + (if IsFile(w.tree, o) then 1 else 0)
  {
    hide Safe, WellFormed, Fcopy, Unlink, UnlinkRun, FileRun, At, SafeSince, Disjoint, IsFile;
    FileOutcome(e, w, from, to);
    CopySafely(w, o, n, e.sched(w.tick));
    var copy := Fcopy(w.tree, o, n, e.sched(w.tick));
    if copy.1 == DPL_SUCCESS {
      SafeUnlink(w.tree, o, n, e.sched(w.tick), e.sched(w.tick + 1));
      UnlinkSafely(e, w, Called(w, copy.0), o, n);
    }
  }

  /** And exact when both succeed. */
  lemma FileExactly(e: Env, w: World, from: Ref, to: Ref, o: TreePath, n: TreePath)
    requires Good(w) && Disjoint(o, n) && At(w, from) == o && At(w, to) == n
    requires AllFine(e, w.tick, FileRun(e, w, from, to).w.tick) && CanCopy(w.tree, o, n)
    ensures var out := FileRun(e, w, from, to);
            out.ret == 0 && !out.crash && Relocated(w.tree, out.w.tree, o, n) && |out.w.log| == |w.log| + 1
  {
    assert e.sched(w.tick).Fine?;
    FileMove(w.tree, o, n, e.sched(w.tick), e.sched(w.tick + 1));
    hide Safe, Relocated, WellFormed, Fcopy, Unlink;
  }

  // ----- The directory before its loop -----

  lemma TargetOutcome(e: Env, w: World, to: Ref)
    ensures var n := At(w, to);
            var rc := Namei(w.tree, n, e.sched(w.tick));
            var made := Mkdir(w.tree, n, e.sched(w.tick + 1));
            TargetRun(e, w, to) ==
              if rc == DPL_ENOENT then
                Out(Called(Asked(w), made.0), if made.1 != DPL_SUCCESS && made.1 != DPL_ENOENT then -1 else 0, false)
              else Out(Asked(w), if rc == DPL_SUCCESS then 0 else -1, false)
  {
    hide Mkdir;
  }

  /** The new directory is looked up and perhaps made. */
  lemma TargetSafely(e: Env, w: World, to: Ref, o: TreePath, n: TreePath)
    requires Good(w) && Disjoint(o, n) && GoodName(n) && At(w, to) == n
    ensures var out := TargetRun(e, w, to);
            && Safely(w, out.w, o, n) && !out.crash && out.w.log == w.log
            && Children(out.w.tree, o) == Children(w.tree, o) && IsDir(out.w.tree, o) == IsDir(w.tree, o)
            && Intact(w.tree, out.w.tree, o, Children(w.tree, o))
  {
    hide Safe, Mkdir, TargetRun, At, SafeSince, Disjoint, Namei, Intact, Children, WellFormed, IsDir;
    TargetOutcome(e, w, to);
    MadeSafely(w, o, n, e.sched(w.tick + 1));
    MkdirElsewhere(w.tree, w.tree, o, n);
    StartSafely(w, o, n);
  }

  lemma MadeSafely(w: World, o: TreePath, n: TreePath, r: Answer)
    requires Good(w) && Disjoint(o, n) && GoodName(n)
    ensures var t := Mkdir(w.tree, n, r).0;
            && Safely(w, Called(Asked(w), t), o, n)
            && Children(t, o) == Children(w.tree, o) && IsDir(t, o) == IsDir(w.tree, o)
            && Intact(w.tree, t, o, Children(w.tree, o))
  {
    StartSafely(w, o, n);
    MkdirKeeps(w.tree, n, r);
    SafeHere(w.tree, o, n);
    SafeMkdir(w.tree, w.tree, o, n, r);
    MkdirElsewhere(w.tree, Mkdir(w.tree, n, r).0, o, n);
    hide Safe, WellFormed, SafeSince, Children, Intact, Disjoint, Mkdir;
    CallSafely(w, Asked(w), Mkdir(w.tree, n, r).0, o, n);
  }

  lemma TargetExactly(e: Env, w: World, to: Ref, o: TreePath, n: TreePath)
    requires Good(w) && Disjoint(o, n) && At(w, to) == n
    requires AllFine(e, w.tick, TargetRun(e, w, to).w.tick)
    requires IsDir(w.tree, o) && HasParent(w.tree, n) && Compatible(w.tree, o, n)
    ensures var out := TargetRun(e, w, to);
            out.ret == 0 && Partial(w.tree, out.w.tree, o, n, Children(w.tree, o))
  {
    hide Partial, Compatible, Children, Disjoint, WellFormed;
    assert e.sched(w.tick).Fine?;
    ReadyToMove(w.tree, TargetRun(e, w, to).w.tree, o, n);
  }

  /** The old directory is entered and listed. */
  lemma OpenSafely(e: Env, w: World, from: Ref, o: TreePath)
    requires WellFormed(w.tree) && ListsWell(e) && At(w, from) == o
    ensures var (out, names) := OpenRun(e, w, from);
            && out.w.tree == w.tree && out.w.log == w.log && out.w.trace == w.trace && w.tick < out.w.tick && !out.crash
            && (out.ret == 0 ==> IsDir(w.tree, o) && IsListing(names, Children(w.tree, o)))
            && (AllFine(e, w.tick, out.w.tick) && IsDir(w.tree, o) ==> out.ret == 0)
  {
    hide WellFormed, IsListing, Children;
    assert IsListing(e.order(w.tree, o), Children(w.tree, o));
    assert AllFine(e, w.tick, w.tick + 2) ==> e.sched(w.tick).Fine? && e.sched(w.tick + 1).Fine?;
    assert AllFine(e, w.tick, w.tick + 1) ==> e.sched(w.tick).Fine?;
  }

  // ----- One entry -----

  /** The two names of an entry are drawn: src/rename.c:104-105. */
  function Drawn(w: World, from: Ref, to: Ref, x: Name): World {
    var w1 := Draw(w, At(w, from) + [x]);
    Draw(w1, At(w1, to) + [x])
  }

  /** While the directory's names are readable the entry's are the right ones, for 30 draws more. */
  lemma NamesDrawn(w: World, from: Ref, to: Ref, x: Name, o: TreePath, n: TreePath, upto: nat)
    requires Reads(w.log, from, o, upto) && Reads(w.log, to, n, upto) && |w.log| + 2 <= upto
    ensures var w1, w2 := Draw(w, At(w, from) + [x]), Drawn(w, from, to, x);
            && w2 == w.(log := w.log + [o + [x], n + [x]])
            && Reads(w2.log, Last(w1), o + [x], |w2.log| + 30) && Reads(w2.log, Last(w2), n + [x], |w2.log| + 30)
            && At(w2, Last(w1)) == o + [x] && At(w2, Last(w2)) == n + [x]
  {
    hide At;
    ReadsNow(w, from, o, upto);
    var w1 := Draw(w, o + [x]);
    ReadsLater(w.log, w1.log, to, n, upto);
    ReadsNow(w1, to, n, upto);
    var w2 := Draw(w1, n + [x]);
    ReadsLast(w, o + [x], w2.log);
    ReadsLast(w1, n + [x], w2.log);
    hide Reads;
    assert Reads(w2.log, Last(w1), o + [x], |w2.log| + 30) && Reads(w2.log, Last(w2), n + [x], |w2.log| + 30) by {
      ReadsLess(w2.log, Last(w1), o + [x], |w.log| + TMPSTR_NB, |w2.log| + 30);
      ReadsLess(w2.log, Last(w2), n + [x], |w1.log| + TMPSTR_NB, |w2.log| + 30);
    }
    ReadsNow(w2, Last(w1), o + [x], |w2.log| + 30);
    ReadsNow(w2, Last(w2), n + [x], |w2.log| + 30);
  }

  lemma ReadsLess(log: seq<TreePath>, ref: Ref, p: TreePath, more: nat, upto: nat)
    requires Reads(log, ref, p, more) && upto <= more
    ensures Reads(log, ref, p, upto)
  {
  }

  /** What is safe from a later moment on is safe from `w` on, if no call was made in between. */
  lemma SafelyFrom(w: World, v: World, u: World, o: TreePath, n: TreePath)
    requires Good(w) && v.tree == w.tree && v.trace == w.trace && Grew(w, v) && Safely(v, u, o, n)
    ensures Safely(w, u, o, n)
  {
  }

  lemma EntrySteps(e: Env, w: World, from: Ref, to: Ref, x: Name, wasDir: bool, stack: nat)
    ensures var w1, w2 := Draw(w, At(w, from) + [x]), Drawn(w, from, to, x);
            var w3 := Asked(w2);
            var rc := Namei(w2.tree, At(w2, Last(w1)), e.sched(w2.tick));
            var isDir := if rc == DPL_SUCCESS then IsDir(w2.tree, At(w2, Last(w1))) else wasDir;
            var out := if isDir then DirRun(e, w3, Last(w1), Last(w2), stack) else FileRun(e, w3, Last(w1), Last(w2));
            EntryRun(e, w, from, to, x, wasDir, stack) ==
              if rc != DPL_SUCCESS && rc != DPL_ENOENT then EntryOut(w3, -1, wasDir, true, false)
              else EntryOut(out.w, out.ret, isDir, false, out.crash)
  {
    hide At, Namei, DirRun, FileRun;
  }

  /** An entry's move is safe at every moment and draws no more than its share. */
  lemma {:induction false} EntrySafely(e: Env, w: World, from: Ref, to: Ref, x: Name, wasDir: bool, stack: nat,
                                       o: TreePath, n: TreePath, upto: nat)
    requires Good(w) && ListsWell(e) && Disjoint(o, n) && !Dotted(x) && o + [x] in w.tree && EntryFits(w.tree, o + [x])
    requires Reads(w.log, from, o, upto) && Reads(w.log, to, n, upto) && |w.log| + Share(w.tree, o + [x]) <= upto
    ensures var out := EntryRun(e, w, from, to, x, wasDir, stack);
            && Safely(w, out.w, o + [x], n + [x])
            && |out.w.log| <= |w.log| + Share(w.tree, o + [x])
            && (stack > |Subtree(w.tree, o + [x])| ==> !out.crash)
    decreases stack, 1, 0
  {
    hide Reads, Safe, SafeSince, At, Namei, DirRun, FileRun, EntryRun, WellFormed, ListsWell, EntryFits, RingFits,
         Subtree, DrawsOf, Drawn;
    var c, m := o + [x], n + [x];
    ChildrenDisjoint(o, n, x, x);
    EntryDraws(w.tree, c);
    EntrySteps(e, w, from, to, x, wasDir, stack);
    NamesDrawn(w, from, to, x, o, n, upto);
    var w1, w2 := Draw(w, At(w, from) + [x]), Drawn(w, from, to, x);
    var w3 := Asked(w2);
    StartSafely(w, c, m);
    var rc := Namei(w2.tree, c, e.sched(w2.tick));
    if rc == DPL_SUCCESS || rc == DPL_ENOENT {
      if if rc == DPL_SUCCESS then IsDir(w2.tree, c) else wasDir {
        ReadsLess(w3.log, Last(w1), c, |w3.log| + 30, |w3.log| + DrawsOf(w3.tree, c));
        ReadsLess(w3.log, Last(w2), m, |w3.log| + 30, |w3.log| + DrawsOf(w3.tree, c));
        DirSafely(e, w3, Last(w1), Last(w2), stack, c, m);
        SafelyFrom(w, w3, DirRun(e, w3, Last(w1), Last(w2), stack).w, c, m);
      } else {
        SameReading(w2, w3, Last(w1));
        SameReading(w2, w3, Last(w2));
        FileSafely(e, w3, Last(w1), Last(w2), c, m);
        SafelyFrom(w, w3, FileRun(e, w3, Last(w1), Last(w2)).w, c, m);
      }
    }
  }

  lemma SameReading(w: World, u: World, ref: Ref)
    requires w.log == u.log
    ensures At(w, ref) == At(u, ref)
  {
  }

  // ----- The loop and the directory -----

  /** The loop is safe at every moment, and draws no more than the shares of what is left. */
  lemma {:induction false} LoopSafely(e: Env, w: World, from: Ref, to: Ref, names: seq<Name>, i: nat, ret: int,
                                      isDir: bool, stack: nat, start: nat, t0: Tree, o: TreePath, n: TreePath,
                                        upto: nat)
    requires Good(w) && ListsWell(e) && Disjoint(o, n) && WellFormed(t0) && IsDir(t0, o) && RingFits(t0, o)
    requires i <= |names| && IsListing(names, Children(t0, o)) && Intact(t0, w.tree, o, Remaining(names, i))
    requires Reads(w.log, from, o, upto) && Reads(w.log, to, n, upto)
    requires |w.log| + Weight(t0, Named(t0, o, Remaining(names, i))) <= upto
    requires start < |w.trace| && SafeSince(w.trace, start, t0, o, n)
    ensures var out := LoopRun(e, w, from, to, names, i, ret, isDir, stack);
            && Good(out.w) && SafeSince(out.w.trace, start, t0, o, n)
            && |out.w.log| <= |w.log| + Weight(t0, Named(t0, o, Remaining(names, i)))
            && (stack >= |Subtree(t0, o)| ==> !out.crash)
    decreases stack, 2, |names| - i
  {
    hide Reads, Safe, SafeSince, At, EntryRun, WellFormed, ListsWell, EntryFits, RingFits, Subtree, DrawsOf, Share,
         Weight, Named, Intact, Remaining, IsListing, Children, Disjoint, Compatible, Partial, CanCopy, HasParent;
    if i < |names| && e.sched(w.tick).Fine? {
      var x, w1 := names[i], Asked(w);
      RemainingNext(names, Children(t0, o), i);
      if Dotted(x) {
        LoopSafely(e, w1, from, to, names, i + 1, ret, isDir, stack, start, t0, o, n, upto);
      } else {
        TurnBefore(t0, w.tree, o, n, names, i);
        ChildFits(t0, o, x);
        EntrySafely(e, w1, from, to, x, isDir, stack, o, n, upto);
        var out := EntryRun(e, w1, from, to, x, isDir, stack);
        TurnSafely(w1, out.w, start, t0, o, n, names, i);
        if !out.abort && !out.crash {
          ReadsLater(w.log, out.w.log, from, o, upto);
          ReadsLater(w.log, out.w.log, to, n, upto);
          LoopSafely(e, out.w, from, to, names, i + 1, out.ret, out.isDir, stack, start, t0, o, n, upto);
        }
      }
    }
  }

  /** A turn keeps the whole move safe and what is still to move intact. */
  lemma TurnSafely(w: World, u: World, start: nat, t0: Tree, o: TreePath, n: TreePath, names: seq<Name>, i: nat)
    requires i < |names| && IsListing(names, Children(t0, o)) && !Dotted(names[i]) && Disjoint(o, n)
    requires Good(w) && Safely(w, u, o + [names[i]], n + [names[i]])
    requires Intact(t0, w.tree, o, Remaining(names, i)) && start < |w.trace| && SafeSince(w.trace, start, t0, o, n)
    ensures Intact(t0, u.tree, o, Remaining(names, i + 1)) && SafeSince(u.trace, start, t0, o, n) && Grew(w, u)
  {
    hide Safe, WellFormed, Intact, Remaining, IsListing, Children, Disjoint;
    var x := names[i];
    IntactOne(t0, w.tree, o, names, i);
    assert Safe(w.tree, u.tree, o + [x], n + [x]) by { assert u.trace[|u.trace| - 1] == u.tree; }
    TurnAfterSafe(t0, w.tree, u.tree, o, n, names, i);
    forall k | 0 <= start <= k < |u.trace| ensures Safe(t0, u.trace[k], o, n)
    {
      if k < |w.trace| {
        assert u.trace[k] == w.trace[k];
      } else {
        SafeChild(t0, w.tree, u.trace[k], o, n, x);
      }
    }
  }

  lemma IntactOne(t0: Tree, t: Tree, o: TreePath, names: seq<Name>, i: nat)
    requires i < |names| && !Dotted(names[i]) && Intact(t0, t, o, Remaining(names, i))
    ensures Intact(t0, t, o, {names[i]})
  {
  }

  lemma TurnAfterSafe(t0: Tree, t: Tree, u: Tree, o: TreePath, n: TreePath, names: seq<Name>, i: nat)
    requires IsListing(names, Children(t0, o)) && i < |names| && !Dotted(names[i])
    requires Disjoint(o, n) && Intact(t0, t, o, Remaining(names, i))
    requires Safe(t, u, o + [names[i]], n + [names[i]])
    ensures Intact(t0, u, o, Remaining(names, i + 1))
  {
    hide Remaining, IsListing, Children, Disjoint, Intact;
    assert Frame(t, u, o + [names[i]], n + [names[i]]);
    TurnAfter(t0, t, u, o, n, names, i);
  }

  lemma NoStack(e: Env, w: World, from: Ref, to: Ref)
    ensures DirRun(e, w, from, to, 0) == Out(w, -1, true)
  {
  }

  lemma DirSteps(e: Env, w: World, from: Ref, to: Ref, stack: nat)
    requires stack > 0
    ensures var made := TargetRun(e, w, to);
            var listed := OpenRun(e, made.w, from);
            var v := listed.0.w;
            var moved := LoopRun(e, v, from, to, listed.1, 0, 0, e.garbage(v.tick), stack - 1);
            var gone := Rmdir(moved.w.tree, At(moved.w, from), e.sched(moved.w.tick)).0;
            DirRun(e, w, from, to, stack) ==
              if made.ret != 0 then made
              else if listed.0.ret != 0 then listed.0
              else if moved.abort || moved.crash || moved.ret == -1 then Out(moved.w, moved.ret, moved.crash)
              else Out(Called(moved.w, gone), 0, false)
  {
    hide TargetRun, OpenRun, LoopRun, Rmdir, At;
  }

  /** rename_directory: safe at every moment, whatever the calls answer, and it draws no more than
      DrawsOf buffers. */
  lemma {:induction false} DirSafely(e: Env, w: World, from: Ref, to: Ref, stack: nat, o: TreePath, n: TreePath)
    requires Good(w) && ListsWell(e) && Disjoint(o, n) && GoodName(n) && RingFits(w.tree, o)
    requires Reads(w.log, from, o, |w.log| + DrawsOf(w.tree, o)) && Reads(w.log, to, n, |w.log| + DrawsOf(w.tree, o))
    ensures var out := DirRun(e, w, from, to, stack);
            && Safely(w, out.w, o, n)
            && |out.w.log| <= |w.log| + DrawsOf(w.tree, o)
            && (stack > |Subtree(w.tree, o)| ==> !out.crash)
    decreases stack, 0, 0
  {
    hide Reads, Safe, At, TargetRun, OpenRun, LoopRun, DirRun, WellFormed, ListsWell, RingFits, Subtree, DrawsOf,
         SafeSince, Weight, Named, Intact, Remaining, IsListing, Children, Disjoint, Rmdir;
    StartSafely(w, o, n);
    NoStack(e, w, from, to);
    if stack > 0 {
      var upto := |w.log| + DrawsOf(w.tree, o);
      ReadsNow(w, from, o, upto);
      ReadsNow(w, to, n, upto);
      DirSteps(e, w, from, to, stack);
      TargetSafely(e, w, to, o, n);
      var made := TargetRun(e, w, to);
      SameReading(w, made.w, from);
      OpenSafely(e, made.w, from, o);
      var (listed, names) := OpenRun(e, made.w, from);
      if made.ret == 0 && listed.ret == 0 {
        RemainingAll(names, Children(w.tree, o));
        NamedShare(w.tree, o);
        LoopSafely(e, listed.w, from, to, names, 0, 0, e.garbage(listed.w.tick), stack - 1, |w.trace| - 1, w.tree, o,
                   n, upto);
        LoopGrows(e, listed.w, from, to, names, 0, 0, e.garbage(listed.w.tick), stack - 1);
        var moved := LoopRun(e, listed.w, from, to, names, 0, 0, e.garbage(listed.w.tick), stack - 1);
        ReadsLater(w.log, moved.w.log, from, o, upto);
        ReadsNow(moved.w, from, o, upto);
        RmdirSafely(w, moved.w, o, n, e.sched(moved.w.tick));
      }
    }
  }

  lemma RmdirSafely(w: World, u: World, o: TreePath, n: TreePath, r: Answer)
    requires Good(w) && Good(u) && Grew(w, u) && SafeSince(u.trace, |w.trace| - 1, w.tree, o, n)
    ensures Safely(w, Called(u, Rmdir(u.tree, o, r).0), o, n)
  {
    hide WellFormed, Rmdir;
    assert Safe(w.tree, u.tree, o, n) by { assert u.trace[|u.trace| - 1] == u.tree; }
    hide Safe;
    RmdirKeeps(u.tree, o, r);
    SafeRmdir(w.tree, u.tree, o, n, r);
    CallSafely(w, u, Rmdir(u.tree, o, r).0, o, n);
  }

  // ----- Exactly, when every call succeeds -----

  /** An entry is moved exactly and draws exactly its share. */
  lemma {:induction false} EntryExactly(e: Env, w: World, from: Ref, to: Ref, x: Name, wasDir: bool, stack: nat,
                                        o: TreePath, n: TreePath, upto: nat)
    requires Good(w) && ListsWell(e) && Disjoint(o, n) && !Dotted(x) && o + [x] in w.tree && EntryFits(w.tree, o + [x])
    requires Reads(w.log, from, o, upto) && Reads(w.log, to, n, upto) && |w.log| + Share(w.tree, o + [x]) <= upto
    requires AllFine(e, w.tick, EntryRun(e, w, from, to, x, wasDir, stack).w.tick) && stack > |Subtree(w.tree, o + [x])|
    requires HasParent(w.tree, n + [x]) && Compatible(w.tree, o + [x], n + [x])
    requires IsFile(w.tree, o + [x]) ==> CanCopy(w.tree, o + [x], n + [x])
    ensures var out := EntryRun(e, w, from, to, x, wasDir, stack);
            && !out.abort && !out.crash && out.ret == 0 && Relocated(w.tree, out.w.tree, o + [x], n + [x])
            && |out.w.log| == |w.log| + Share(w.tree, o + [x])
    decreases stack, 1, 0
  {
    hide Reads, Relocated, At, DirRun, FileRun, EntryRun, WellFormed, ListsWell, EntryFits, RingFits, Subtree,
         DrawsOf, Drawn, Compatible, CanCopy, HasParent, Disjoint, AllFine;
    var c, m := o + [x], n + [x];
    ChildrenDisjoint(o, n, x, x);
    EntryDraws(w.tree, c);
    EntrySteps(e, w, from, to, x, wasDir, stack);
    EntryGrows(e, w, from, to, x, wasDir, stack);
    NamesDrawn(w, from, to, x, o, n, upto);
    var w1, w2 := Draw(w, At(w, from) + [x]), Drawn(w, from, to, x);
    var w3 := Asked(w2);
    var end := EntryRun(e, w, from, to, x, wasDir, stack).w.tick;
    FineAt(e, w.tick, end);
    FineLater(e, w.tick, w3.tick, end);
    if IsDir(w.tree, c) {
      ReadsLess(w3.log, Last(w1), c, |w3.log| + 30, |w3.log| + DrawsOf(w3.tree, c));
      ReadsLess(w3.log, Last(w2), m, |w3.log| + 30, |w3.log| + DrawsOf(w3.tree, c));
      DirExactly(e, w3, Last(w1), Last(w2), stack, c, m);
    } else {
      SameReading(w2, w3, Last(w1));
      SameReading(w2, w3, Last(w2));
      FileExactly(e, w3, Last(w1), Last(w2), c, m);
    }
  }

  lemma FineAt(e: Env, a: nat, b: nat)
    requires AllFine(e, a, b) && a < b
    ensures e.sched(a).Fine?
  {
  }

  lemma FineLater(e: Env, a: nat, k: nat, b: nat)
    requires AllFine(e, a, b) && a <= k
    ensures AllFine(e, k, b)
  {
  }

  lemma FineUpTo(e: Env, a: nat, k: nat, b: nat)
    requires AllFine(e, a, b) && k <= b
    ensures AllFine(e, a, k)
  {
  }

  /** From any name on, the loop moves all that is left. */
  lemma {:induction false} LoopExactly(e: Env, w: World, from: Ref, to: Ref, names: seq<Name>, i: nat, isDir: bool,
                                       stack: nat, t0: Tree, o: TreePath, n: TreePath, upto: nat)
    requires Good(w) && ListsWell(e) && Disjoint(o, n) && WellFormed(t0) && IsDir(t0, o) && RingFits(t0, o)
    requires i <= |names| && IsListing(names, Children(t0, o)) && Intact(t0, w.tree, o, Remaining(names, i))
    requires Reads(w.log, from, o, upto) && Reads(w.log, to, n, upto)
    requires |w.log| + Weight(t0, Named(t0, o, Remaining(names, i))) <= upto
    requires Compatible(t0, o, n) && Partial(t0, w.tree, o, n, Remaining(names, i)) && stack >= |Subtree(t0, o)|
    requires AllFine(e, w.tick, LoopRun(e, w, from, to, names, i, 0, isDir, stack).w.tick)
    ensures var out := LoopRun(e, w, from, to, names, i, 0, isDir, stack);
            && !out.abort && !out.crash && out.ret == 0 && Partial(t0, out.w.tree, o, n, {})
            && |out.w.log| == |w.log| + Weight(t0, Named(t0, o, Remaining(names, i)))
    decreases stack, 2, |names| - i
  {
    hide Reads, Relocated, Safe, SafeSince, At, EntryRun, WellFormed, ListsWell, EntryFits, RingFits, Subtree,
         DrawsOf, Share, Weight, Named, Intact, Remaining, IsListing, Children, Disjoint, Compatible, Partial,
         CanCopy, HasParent, AllFine;
    RemainingAll(names, Children(t0, o));
    NothingNamed(t0, o);
    if i < |names| {
      var x, w1, end := names[i], Asked(w), LoopRun(e, w, from, to, names, i, 0, isDir, stack).w.tick;
      LoopTicks(e, w, from, to, names, i, 0, isDir, stack);
      FineAt(e, w.tick, end);
      FineLater(e, w.tick, w1.tick, end);
      RemainingNext(names, Children(t0, o), i);
      if Dotted(x) {
        LoopExactly(e, w1, from, to, names, i + 1, isDir, stack, t0, o, n, upto);
      } else {
        ChildFits(t0, o, x);
        TurnBefore(t0, w.tree, o, n, names, i);
        LoopTurnExactly(e, w1, from, to, names, i, isDir, stack, t0, o, n, upto, end);
        var out := EntryRun(e, w1, from, to, x, isDir, stack);
        ReadsLater(w.log, out.w.log, from, o, upto);
        ReadsLater(w.log, out.w.log, to, n, upto);
        FineLater(e, w1.tick, out.w.tick, end);
        LoopExactly(e, out.w, from, to, names, i + 1, out.isDir, stack, t0, o, n, upto);
      }
    }
  }

  lemma LoopTicks(e: Env, w: World, from: Ref, to: Ref, names: seq<Name>, i: nat, ret: int, isDir: bool, stack: nat)
    requires i < |names|
    ensures var end := LoopRun(e, w, from, to, names, i, ret, isDir, stack).w.tick;
            && w.tick < end
            && (e.sched(w.tick).Fine? && !Dotted(names[i]) ==>
                 EntryRun(e, Asked(w), from, to, names[i], isDir, stack).w.tick <= end)
  {
    hide EntryRun;
    var w1 := Asked(w);
    if e.sched(w.tick).Fine? {
      if Dotted(names[i]) {
        LoopGrows(e, w1, from, to, names, i + 1, ret, isDir, stack);
      } else {
        EntryGrows(e, w1, from, to, names[i], isDir, stack);
        var out := EntryRun(e, w1, from, to, names[i], isDir, stack);
        LoopGrows(e, out.w, from, to, names, i + 1, out.ret, out.isDir, stack);
      }
    }
  }

  /** One turn of it. */
  lemma {:induction false} LoopTurnExactly(e: Env, w: World, from: Ref, to: Ref, names: seq<Name>, i: nat,
                                           isDir: bool, stack: nat, t0: Tree, o: TreePath, n: TreePath, upto: nat,
                                             end: nat)
    requires Good(w) && ListsWell(e) && Disjoint(o, n) && WellFormed(t0) && IsDir(t0, o)
    requires i < |names| && !Dotted(names[i]) && IsListing(names, Children(t0, o))
    requires Intact(t0, w.tree, o, Remaining(names, i))
    requires Reads(w.log, from, o, upto) && Reads(w.log, to, n, upto)
    requires EntryFits(t0, o + [names[i]]) && |w.log| + Share(t0, o + [names[i]]) <= upto
    requires Compatible(t0, o, n) && Partial(t0, w.tree, o, n, Remaining(names, i)) && stack >= |Subtree(t0, o)|
    requires AllFine(e, w.tick, end) && EntryRun(e, w, from, to, names[i], isDir, stack).w.tick <= end
    ensures var out := EntryRun(e, w, from, to, names[i], isDir, stack);
            && !out.abort && !out.crash && out.ret == 0 && Good(out.w) && Grew(w, out.w)
            && Partial(t0, out.w.tree, o, n, Remaining(names, i + 1))
               && Intact(t0, out.w.tree, o, Remaining(names, i + 1))
            && |out.w.log| + Weight(t0, Named(t0, o, Remaining(names, i + 1))) == |w.log| + Weight(t0,
                  Named(t0, o, Remaining(names, i)))
    decreases stack, 1, 1
  {
    hide Reads, Relocated, Safe, SafeSince, At, EntryRun, WellFormed, ListsWell, EntryFits, RingFits, Subtree,
         DrawsOf, Share, Weight, Named, Intact, Remaining, IsListing, Children, Disjoint, Compatible, Partial,
         CanCopy, HasParent, AllFine;
    var x := names[i];
    TurnBefore(t0, w.tree, o, n, names, i);
    var out := EntryRun(e, w, from, to, x, isDir, stack);
    FineUpTo(e, w.tick, out.w.tick, end);
    EntrySafely(e, w, from, to, x, isDir, stack, o, n, upto);
    EntryExactly(e, w, from, to, x, isDir, stack, o, n, upto);
    assert Frame(w.tree, out.w.tree, o + [x], n + [x]) by { SafelyFrames(w, out.w, o + [x], n + [x]); }
    TurnAfter(t0, w.tree, out.w.tree, o, n, names, i);
  }

  lemma SafelyFrames(w: World, u: World, o: TreePath, n: TreePath)
    requires Good(w) && Safely(w, u, o, n)
    ensures Frame(w.tree, u.tree, o, n)
  {
    assert u.trace[|u.trace| - 1] == u.tree;
  }

  /** When all calls succeed the loop is reached, with both directories there and all to do. */
  lemma Begun(e: Env, w: World, from: Ref, to: Ref, stack: nat, o: TreePath, n: TreePath)
    requires Good(w) && ListsWell(e) && Disjoint(o, n) && GoodName(n) && At(w, from) == o && At(w, to) == n
    requires AllFine(e, w.tick, DirRun(e, w, from, to, stack).w.tick) && stack > 0
    requires IsDir(w.tree, o) && HasParent(w.tree, n) && Compatible(w.tree, o, n)
    ensures var made := TargetRun(e, w, to);
            var (listed, names) := OpenRun(e, made.w, from);
            var v := listed.w;
            var moved := LoopRun(e, v, from, to, names, 0, 0, e.garbage(v.tick), stack - 1);
            && made.ret == 0 && listed.ret == 0 && Good(v) && v.log == w.log && IsListing(names, Children(w.tree, o))
            && Remaining(names, 0) == Children(w.tree, o) && Intact(w.tree, v.tree, o, Children(w.tree, o))
            && Partial(w.tree, v.tree, o, n, Children(w.tree, o)) && AllFine(e, v.tick, moved.w.tick)
  {
    hide Safe, SafeSince, At, TargetRun, OpenRun, LoopRun, DirRun, WellFormed, ListsWell, Rmdir,
         Intact, Remaining, IsListing, Children, Disjoint, Compatible, Partial, HasParent, AllFine;
    var end := DirRun(e, w, from, to, stack).w.tick;
    DirSteps(e, w, from, to, stack);
    TargetSafely(e, w, to, o, n);
    var made := TargetRun(e, w, to);
    SameReading(w, made.w, from);
    OpenSafely(e, made.w, from, o);
    var (listed, names) := OpenRun(e, made.w, from);
    LoopGrows(e, listed.w, from, to, names, 0, 0, e.garbage(listed.w.tick), stack - 1);
    StepsGrow(e, w, from, to);
    var moved := LoopRun(e, listed.w, from, to, names, 0, 0, e.garbage(listed.w.tick), stack - 1);
    FineUpTo(e, w.tick, made.w.tick, end);
    TargetExactly(e, w, to, o, n);
    FineLater(e, w.tick, made.w.tick, end);
    FineUpTo(e, made.w.tick, listed.w.tick, end);
    FineLater(e, made.w.tick, listed.w.tick, end);
    FineUpTo(e, listed.w.tick, moved.w.tick, end);
    RemainingAll(names, Children(w.tree, o));
  }

  /** rename_directory moves the directory exactly and draws exactly DrawsOf buffers. */
  lemma {:induction false} DirExactly(e: Env, w: World, from: Ref, to: Ref, stack: nat, o: TreePath, n: TreePath)
    requires Good(w) && ListsWell(e) && Disjoint(o, n) && GoodName(n) && RingFits(w.tree, o)
    requires Reads(w.log, from, o, |w.log| + DrawsOf(w.tree, o)) && Reads(w.log, to, n, |w.log| + DrawsOf(w.tree, o))
    requires AllFine(e, w.tick, DirRun(e, w, from, to, stack).w.tick) && stack > |Subtree(w.tree, o)|
    requires IsDir(w.tree, o) && HasParent(w.tree, n) && Compatible(w.tree, o, n)
    ensures var out := DirRun(e, w, from, to, stack);
            out.ret == 0 && !out.crash && Relocated(w.tree, out.w.tree, o, n)
                && |out.w.log| == |w.log| + DrawsOf(w.tree, o)
    decreases stack, 0, 0
  {
    hide Reads, Relocated, Safe, SafeSince, At, TargetRun, OpenRun, LoopRun, DirRun, WellFormed, ListsWell, RingFits,
         Subtree, DrawsOf, Weight, Named, Intact, Remaining, IsListing, Children, Disjoint, Rmdir, Compatible,
         Partial, HasParent, AllFine;
    var upto, end := |w.log| + DrawsOf(w.tree, o), DirRun(e, w, from, to, stack).w.tick;
    ReadsNow(w, from, o, upto);
    ReadsNow(w, to, n, upto);
    DirSteps(e, w, from, to, stack);
    Begun(e, w, from, to, stack, o, n);
    var made := TargetRun(e, w, to);
    var (listed, names) := OpenRun(e, made.w, from);
    var v, garbage := listed.w, e.garbage(listed.w.tick);
    NamedShare(w.tree, o);
    LoopExactly(e, v, from, to, names, 0, garbage, stack - 1, w.tree, o, n, upto);
    var moved := LoopRun(e, v, from, to, names, 0, 0, garbage, stack - 1);
    LoopGrows(e, v, from, to, names, 0, 0, garbage, stack - 1);
    StepsGrow(e, w, from, to);
    StepsGrow(e, made.w, from, to);
    FineLater(e, w.tick, moved.w.tick, end);
    FineAt(e, moved.w.tick, end);
    ReadsLater(w.log, moved.w.log, from, o, upto);
    ReadsNow(moved.w, from, o, upto);
    LastCall(w.tree, moved.w.tree, o, n, e.sched(moved.w.tick));
  }

  /** The last call: the old directory is empty and goes. */
  lemma LastCall(t0: Tree, t: Tree, o: TreePath, n: TreePath, r: Answer)
    requires Disjoint(o, n) && r.Fine? && IsDir(t0, o) && Partial(t0, t, o, n, {})
    ensures Relocated(t0, Rmdir(t, o, r).0, o, n)
  {
    NoChildrenLeft(t0, t, o, n);
    assert Lookup(t, o) == Halfway(t0, o, n, {}, o);
    assert o != [];
    hide Disjoint;
    PartialEnd(t0, t, Rmdir(t, o, r).0, o, n);
  }
}
