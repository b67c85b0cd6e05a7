/** What the ring of string buffers does to a rename: with a subdirectory that draws more than 30 of
    them, its own name is overwritten before its rmdir, and the subdirectory stays where it was. */
module RenameRing {
  import opened Basics
  import opened TmpStr
  import opened RemoteTree
  import opened RenameSpec
  import opened Draws
  import opened RenameRun
  import opened RenameSafe

  // ----- A directory whose name nobody has -----

  /** `d` is neither `p` nor below it: no call on `p` or on anything under it touches `d`. */
  predicate Far(d: TreePath, p: TreePath) {
    !Under(p, d)
  }

  /** Every string from draw `since` on is far from `d`. */
  ghost predicate FarFrom(log: seq<TreePath>, since: nat, d: TreePath) {
    since <= |log| && forall j :: since <= j < |log| ==> Far(d, log[j])
  }

  /** The buffer of draw `since` or of a later one. */
  ghost predicate Late(log: seq<TreePath>, ref: Ref, since: nat) {
    ref.Buffer? && exists i :: since <= i && DrawnIn(log, i, ref.k)
  }

  ghost predicate DrawnIn(log: seq<TreePath>, i: int, k: nat) {
    0 <= i < |log| && k == SlotOf(i + 1)
  }

  /** Or of the draw before, whose string was `d`. */
  ghost predicate Near(log: seq<TreePath>, ref: Ref, since: nat, d: TreePath) {
    Late(log, ref, since) || (ref.Buffer? && 0 < since <= |log| && log[since - 1] == d && ref.k == SlotOf(since))
  }

  /** A name under which the entries of `names` are far from `d`. */
  ghost predicate Base(log: seq<TreePath>, ref: Ref, x: Name, since: nat, d: TreePath) {
    match ref
    case Outside(p) => Far(d, p + [x])
    case Buffer(_) => Near(log, ref, since, d)
  }

  lemma FarBelow(d: TreePath, p: TreePath, x: Name)
    ensures Far(d, p) ==> Far(d, p + [x])
    ensures Far(d, d + [x])
  {
  }

  lemma LateReads(w: World, ref: Ref, since: nat, d: TreePath)
    requires Late(w.log, ref, since) && FarFrom(w.log, since, d)
    ensures Far(d, At(w, ref))
  {
    var i :| since <= i && DrawnIn(w.log, i, ref.k);
    Lifetime(|w.log|, i);
  }

  lemma NearReads(w: World, ref: Ref, since: nat, d: TreePath)
    requires Near(w.log, ref, since, d) && FarFrom(w.log, since, d)
    ensures At(w, ref) == d || Far(d, At(w, ref))
    ensures |w.log| > since + 31 ==> Far(d, At(w, ref))
  {
    if Late(w.log, ref, since) {
      LateReads(w, ref, since, d);
    } else {
      Lifetime(|w.log|, since - 1);
    }
  }

  lemma BaseReads(w: World, ref: Ref, x: Name, since: nat, d: TreePath)
    requires Base(w.log, ref, x, since, d) && FarFrom(w.log, since, d)
    ensures Far(d, At(w, ref) + [x])
  {
    match ref
    case Outside(_) =>
    case Buffer(_) =>
      NearReads(w, ref, since, d);
      FarBelow(d, At(w, ref), x);
  }

  lemma FarLater(log: seq<TreePath>, p: TreePath, since: nat, d: TreePath)
    requires FarFrom(log, since, d) && Far(d, p)
    ensures FarFrom(log + [p], since, d)
  {
  }

  lemma NearLater(log: seq<TreePath>, log': seq<TreePath>, ref: Ref, x: Name, since: nat, d: TreePath)
    requires log <= log'
    ensures Late(log, ref, since) ==> Late(log', ref, since)
    ensures Near(log, ref, since, d) ==> Near(log', ref, since, d)
    ensures Base(log, ref, x, since, d) ==> Base(log', ref, x, since, d)
  {
    if Late(log, ref, since) {
      var i :| since <= i && DrawnIn(log, i, ref.k);
      assert DrawnIn(log', i, ref.k);
    }
  }

  /** `d` is there, and nobody is going to name it. */
  ghost predicate Spared(e: Env, w: World, since: nat, d: TreePath) {
    IsDir(w.tree, d) && Far(d, e.cacheDir) && FarFrom(w.log, since, d)
  }

  lemma FileSpares(e: Env, w: World, from: Ref, to: Ref, since: nat, d: TreePath)
    requires Spared(e, w, since, d)
    ensures Spared(e, FileRun(e, w, from, to).w, since, d)
  {
    assert !Under(e.cacheDir + At(w, from), d) by {
      if Under(e.cacheDir + At(w, from), d) { assert Under(e.cacheDir, d); }
    }
  }

  lemma TargetSpares(e: Env, w: World, to: Ref, since: nat, d: TreePath)
    requires Spared(e, w, since, d)
    ensures Spared(e, TargetRun(e, w, to).w, since, d)
  {
  }

  lemma OpenSpares(e: Env, w: World, from: Ref, since: nat, d: TreePath)
    requires Spared(e, w, since, d)
    ensures Spared(e, OpenRun(e, w, from).0.w, since, d)
  {
  }

  lemma RmdirSpares(e: Env, w: World, p: TreePath, since: nat, d: TreePath)
    requires Spared(e, w, since, d) && p != d
    ensures Spared(e, Called(w, Rmdir(w.tree, p, e.sched(w.tick)).0), since, d)
  {
  }

  // ----- Moves that spare a directory -----

  lemma {:induction false} EntrySpares(e: Env, w: World, from: Ref, to: Ref, x: Name, wasDir: bool, stack: nat,
                                       since: nat, d: TreePath)
    requires Spared(e, w, since, d) && Base(w.log, from, x, since, d) && Base(w.log, to, x, since, d)
    ensures Spared(e, EntryRun(e, w, from, to, x, wasDir, stack).w, since, d)
    decreases stack, 1, 0
  {
    hide At, Namei, DirRun, FileRun, EntryRun, Base, Near, Late, Far;
    EntrySteps(e, w, from, to, x, wasDir, stack);
    BaseReads(w, from, x, since, d);
    var w1 := Draw(w, At(w, from) + [x]);
    FarLater(w.log, At(w, from) + [x], since, d);
    NearLater(w.log, w1.log, to, x, since, d);
    BaseReads(w1, to, x, since, d);
    var w2 := Draw(w1, At(w1, to) + [x]);
    FarLater(w1.log, At(w1, to) + [x], since, d);
    LateLast(w, At(w, from) + [x], w2.log, since);
    LateLast(w1, At(w1, to) + [x], w2.log, since);
    NearIfLate(w2.log, Last(w1), since, d);
    NearIfLate(w2.log, Last(w2), since, d);
    FileSpares(e, Asked(w2), Last(w1), Last(w2), since, d);
    DirSpares(e, Asked(w2), Last(w1), Last(w2), stack, since, d);
  }

  lemma LateLast(w: World, p: TreePath, log: seq<TreePath>, since: nat)
    requires since <= |w.log| && Draw(w, p).log <= log
    ensures Late(log, Last(Draw(w, p)), since)
  {
    assert DrawnIn(log, |w.log|, Last(Draw(w, p)).k);
  }

  lemma NearIfLate(log: seq<TreePath>, ref: Ref, since: nat, d: TreePath)
    requires Late(log, ref, since)
    ensures Near(log, ref, since, d)
  {
  }

  lemma {:induction false} LoopSpares(e: Env, w: World, from: Ref, to: Ref, names: seq<Name>, i: nat, ret: int,
                                      isDir: bool, stack: nat, since: nat, d: TreePath)
    requires Spared(e, w, since, d) && i <= |names|
    requires forall k :: i <= k < |names| && !Dotted(names[k]) ==>
              Base(w.log, from, names[k], since, d) && Base(w.log, to, names[k], since, d)
    ensures Spared(e, LoopRun(e, w, from, to, names, i, ret, isDir, stack).w, since, d)
    decreases stack, 2, |names| - i
  {
    hide At, EntryRun, Base, Near, Late, Far, FarFrom;
    if i < |names| && e.sched(w.tick).Fine? {
      var w1 := Asked(w);
      if Dotted(names[i]) {
        LoopSpares(e, w1, from, to, names, i + 1, ret, isDir, stack, since, d);
      } else {
        EntrySpares(e, w1, from, to, names[i], isDir, stack, since, d);
        EntryGrows(e, w1, from, to, names[i], isDir, stack);
        var out := EntryRun(e, w1, from, to, names[i], isDir, stack);
        forall k | i < k < |names| && !Dotted(names[k])
          ensures Base(out.w.log, from, names[k], since, d) && Base(out.w.log, to, names[k], since, d)
        {
          NearLater(w.log, out.w.log, from, names[k], since, d);
          NearLater(w.log, out.w.log, to, names[k], since, d);
        }
        if !out.abort && !out.crash {
          LoopSpares(e, out.w, from, to, names, i + 1, out.ret, out.isDir, stack, since, d);
        }
      }
    }
  }

  /** A rename_directory with a later name, or with `d`'s own when more than 31 strings have been
      drawn since that one, leaves `d` in place. */
  lemma {:induction false} DirSpares(e: Env, w: World, from: Ref, to: Ref, stack: nat, since: nat, d: TreePath)
    requires Spared(e, w, since, d) && Near(w.log, from, since, d) && Near(w.log, to, since, d)
    ensures var out := DirRun(e, w, from, to, stack);
            Late(w.log, from, since) || out.crash || |out.w.log| > since + 31 ==> Spared(e, out.w, since, d)
    decreases stack, 0, 0
  {
    hide At, TargetRun, OpenRun, LoopRun, DirRun, Rmdir, Near, Late, Far, Spared;
    NoStack(e, w, from, to);
    if stack > 0 {
      DirSteps(e, w, from, to, stack);
      StepsGrow(e, w, from, to);
      TargetSpares(e, w, to, since, d);
      var made := TargetRun(e, w, to);
      StepsGrow(e, made.w, from, to);
      OpenSpares(e, made.w, from, since, d);
      var (listed, names) := OpenRun(e, made.w, from);
      var v := listed.w;
      forall k | 0 <= k < |names| && !Dotted(names[k])
        ensures Base(v.log, from, names[k], since, d) && Base(v.log, to, names[k], since, d)
      {
        NearIsBuffer(v.log, from, since, d);
        NearIsBuffer(v.log, to, since, d);
      }
      LoopSpares(e, v, from, to, names, 0, 0, e.garbage(v.tick), stack - 1, since, d);
      LoopGrows(e, v, from, to, names, 0, 0, e.garbage(v.tick), stack - 1);
      var moved := LoopRun(e, v, from, to, names, 0, 0, e.garbage(v.tick), stack - 1);
      NearLater(w.log, moved.w.log, from, "", since, d);
      if Late(w.log, from, since) || |moved.w.log| > since + 31 {
        SparedFar(e, moved.w, since, d);
        NearReads(moved.w, from, since, d);
        if Late(w.log, from, since) { LateReads(moved.w, from, since, d); }
        FarIsOther(d, At(moved.w, from));
        RmdirSpares(e, moved.w, At(moved.w, from), since, d);
      }
    }
  }

  lemma NearIsBuffer(log: seq<TreePath>, ref: Ref, since: nat, d: TreePath)
    requires Near(log, ref, since, d)
    ensures ref.Buffer?
  {
  }

  lemma SparedFar(e: Env, w: World, since: nat, d: TreePath)
    requires Spared(e, w, since, d)
    ensures FarFrom(w.log, since, d)
  {
  }

  lemma FarIsOther(d: TreePath, p: TreePath)
    requires Far(d, p)
    ensures p != d
  {
  }

  // ----- More draws than the ring has room for -----

  /** An entry whose share does not fit until `upto` uses up the draws until then. */
  lemma {:induction false} EntryOverflows(e: Env, w: World, from: Ref, to: Ref, x: Name, wasDir: bool, stack: nat,
                                          o: TreePath, n: TreePath, upto: nat)
    requires Good(w) && ListsWell(e) && Disjoint(o, n) && !Dotted(x) && o + [x] in w.tree
    requires Reads(w.log, from, o, upto) && Reads(w.log, to, n, upto)
    requires upto <= |w.log| + TMPSTR_NB && |w.log| + Share(w.tree, o + [x]) > upto
    requires AllFine(e, w.tick, EntryRun(e, w, from, to, x, wasDir, stack).w.tick) && stack > |Subtree(w.tree, o + [x])|
    requires HasParent(w.tree, n + [x]) && Compatible(w.tree, o + [x], n + [x])
    requires IsFile(w.tree, o + [x]) ==> CanCopy(w.tree, o + [x], n + [x])
    ensures var out := EntryRun(e, w, from, to, x, wasDir, stack); out.crash || |out.w.log| > upto
    decreases stack, 1, 0
  {
    hide Reads, At, DirRun, FileRun, EntryRun, WellFormed, ListsWell, Subtree, DrawsOf, Drawn, Compatible, CanCopy,
         HasParent, Disjoint, AllFine, Relocated;
    EntryGrows(e, w, from, to, x, wasDir, stack);
    if |w.log| + 2 <= upto {
      var c, m := o + [x], n + [x];
      ChildrenDisjoint(o, n, x, x);
      FitsAtTheTop(w.tree, c);
      EntrySteps(e, w, from, to, x, wasDir, stack);
      NamesDrawn(w, from, to, x, o, n, upto);
      var w1, w2 := Draw(w, At(w, from) + [x]), Drawn(w, from, to, x);
      var w3 := Asked(w2);
      var end := EntryRun(e, w, from, to, x, wasDir, stack).w.tick;
      FineAt(e, w.tick, end);
      FineLater(e, w.tick, w3.tick, end);
      if IsDir(w.tree, c) {
        ReadsLess(w3.log, Last(w1), c, |w3.log| + 30, upto);
        ReadsLess(w3.log, Last(w2), m, |w3.log| + 30, upto);
        DirOverflows(e, w3, Last(w1), Last(w2), stack, c, m, upto);
      } else {
        SameReading(w2, w3, Last(w1));
        SameReading(w2, w3, Last(w2));
        FileExactly(e, w3, Last(w1), Last(w2), c, m);
      }
    }
  }

  lemma {:induction false} LoopOverflows(e: Env, w: World, from: Ref, to: Ref, names: seq<Name>, i: nat, isDir: bool,
                                         stack: nat, t0: Tree, o: TreePath, n: TreePath, upto: nat)
    requires Good(w) && ListsWell(e) && Disjoint(o, n) && WellFormed(t0) && IsDir(t0, o)
    requires i <= |names| && IsListing(names, Children(t0, o)) && Intact(t0, w.tree, o, Remaining(names, i))
    requires Reads(w.log, from, o, upto) && Reads(w.log, to, n, upto) && |w.log| <= upto <= |w.log| + TMPSTR_NB
    requires |w.log| + Weight(t0, Named(t0, o, Remaining(names, i))) > upto
    requires Compatible(t0, o, n) && Partial(t0, w.tree, o, n, Remaining(names, i)) && stack >= |Subtree(t0, o)|
    requires AllFine(e, w.tick, LoopRun(e, w, from, to, names, i, 0, isDir, stack).w.tick)
    ensures var out := LoopRun(e, w, from, to, names, i, 0, isDir, stack); out.crash || |out.w.log| > upto
    decreases stack, 2, |names| - i
  {
    hide Reads, Relocated, Safe, SafeSince, At, EntryRun, WellFormed, ListsWell, EntryFits, Subtree, DrawsOf, Share,
         Weight, Named, Intact, Remaining, IsListing, Children, Disjoint, Compatible, Partial, CanCopy, HasParent,
         AllFine;
    RemainingAll(names, Children(t0, o));
    NothingNamed(t0, o);
    var x, w1, end := names[i], Asked(w), LoopRun(e, w, from, to, names, i, 0, isDir, stack).w.tick;
    LoopTicks(e, w, from, to, names, i, 0, isDir, stack);
    FineAt(e, w.tick, end);
    FineLater(e, w.tick, w1.tick, end);
    RemainingNext(names, Children(t0, o), i);
    if Dotted(x) {
      LoopOverflows(e, w1, from, to, names, i + 1, isDir, stack, t0, o, n, upto);
    } else {
      var out := EntryRun(e, w1, from, to, x, isDir, stack);
      TurnBefore(t0, w.tree, o, n, names, i);
      FineUpTo(e, w1.tick, out.w.tick, end);
      if |w.log| + Share(t0, o + [x]) <= upto {
        ShareFits(t0, o, x);
        LoopTurnExactly(e, w1, from, to, names, i, isDir, stack, t0, o, n, upto, end);
        ReadsLater(w.log, out.w.log, from, o, upto);
        ReadsLater(w.log, out.w.log, to, n, upto);
        FineLater(e, w1.tick, out.w.tick, end);
        LoopOverflows(e, out.w, from, to, names, i + 1, out.isDir, stack, t0, o, n, upto);
      } else {
        EntryOverflows(e, w1, from, to, x, isDir, stack, o, n, upto);
        LoopGrows(e, out.w, from, to, names, i + 1, out.ret, out.isDir, stack);
      }
    }
  }

  /** An entry whose share is within the ring fits. */
  lemma ShareFits(t: Tree, o: TreePath, x: Name)
    requires WellFormed(t) && o + [x] in t && Share(t, o + [x]) <= TMPSTR_NB
    ensures EntryFits(t, o + [x])
  {
    hide DrawsOf;
    FitsAtTheTop(t, o + [x]);
  }

  /** rename_directory uses up the draws until `upto` when its own do not fit. */
  lemma {:induction false} DirOverflows(e: Env, w: World, from: Ref, to: Ref, stack: nat, o: TreePath, n: TreePath,
                                        upto: nat)
    requires Good(w) && ListsWell(e) && Disjoint(o, n) && GoodName(n)
    requires Reads(w.log, from, o, upto) && Reads(w.log, to, n, upto) && |w.log| <= upto <= |w.log| + TMPSTR_NB
    requires |w.log| + DrawsOf(w.tree, o) > upto
    requires AllFine(e, w.tick, DirRun(e, w, from, to, stack).w.tick) && stack > |Subtree(w.tree, o)|
    requires IsDir(w.tree, o) && HasParent(w.tree, n) && Compatible(w.tree, o, n)
    ensures var out := DirRun(e, w, from, to, stack); out.crash || |out.w.log| > upto
    decreases stack, 0, 0
  {
    hide Reads, Relocated, Safe, SafeSince, At, TargetRun, OpenRun, LoopRun, DirRun, WellFormed, ListsWell, Subtree,
         DrawsOf, Weight, Named, Intact, Remaining, IsListing, Children, Disjoint, Rmdir, Compatible, Partial,
         HasParent, AllFine;
    ReadsNow(w, from, o, upto);
    ReadsNow(w, to, n, upto);
    DirSteps(e, w, from, to, stack);
    Begun(e, w, from, to, stack, o, n);
    var made := TargetRun(e, w, to);
    var (listed, names) := OpenRun(e, made.w, from);
    var garbage := e.garbage(listed.w.tick);
    LoopGrows(e, listed.w, from, to, names, 0, 0, garbage, stack - 1);
    NamedShare(w.tree, o);
    LoopOverflows(e, listed.w, from, to, names, 0, garbage, stack - 1, w.tree, o, n, upto);
  }

  // ----- The directory that stays -----

  /** An entry that does not fit is a directory, and stays: its own name is overwritten before it is
      given to rmdir. */
  lemma EntryStays(e: Env, w: World, x: Name, wasDir: bool, stack: nat, o: TreePath, n: TreePath)
    requires Good(w) && ListsWell(e) && Disjoint(o, n) && Disjoint(e.cacheDir, o) && !Dotted(x) && o + [x] in w.tree
    requires DrawsOf(w.tree, o + [x]) > 30
    requires AllFine(e, w.tick, EntryRun(e, w, Outside(o), Outside(n), x, wasDir, stack).w.tick)
    requires stack > |Subtree(w.tree, o + [x])|
    requires HasParent(w.tree, n + [x]) && Compatible(w.tree, o + [x], n + [x])
    ensures Spared(e, EntryRun(e, w, Outside(o), Outside(n), x, wasDir, stack).w, |w.log| + 1, o + [x])
  {
    hide Reads, DirRun, FileRun, EntryRun, WellFormed, ListsWell, Subtree, DrawsOf, Drawn, Compatible, HasParent,
         AllFine, Late, Near, DrawnIn;
    var c, m, since := o + [x], n + [x], |w.log| + 1;
    ChildrenDisjoint(o, n, x, x);
    FitsAtTheTop(w.tree, c);
    assert IsDir(w.tree, c);
    EntrySteps(e, w, Outside(o), Outside(n), x, wasDir, stack);
    EntryGrows(e, w, Outside(o), Outside(n), x, wasDir, stack);
    OutsideReads(w, o, n, since + 31);
    NamesDrawn(w, Outside(o), Outside(n), x, o, n, since + 31);
    var w1, w2 := Draw(w, c), Drawn(w, Outside(o), Outside(n), x);
    var w3 := Asked(w2);
    var end := EntryRun(e, w, Outside(o), Outside(n), x, wasDir, stack).w.tick;
    FineAt(e, w.tick, end);
    FineLater(e, w.tick, w3.tick, end);
    DirOverflows(e, w3, Last(w1), Last(w2), stack, c, m, since + 31);
    OwnName(w, c, m);
    LateLast(w1, m, w2.log, since);
    NearIfLate(w2.log, Last(w2), since, c);
    CacheFar(e, o, c);
    assert Spared(e, w3, since, c) by { assert w2.log[since..] == [m]; }
    DirSpares(e, w3, Last(w1), Last(w2), stack, since, c);
  }

  lemma OutsideReads(w: World, o: TreePath, n: TreePath, upto: nat)
    ensures Reads(w.log, Outside(o), o, upto) && Reads(w.log, Outside(n), n, upto)
  {
  }

  lemma OwnName(w: World, c: TreePath, m: TreePath)
    ensures Near(w.log + [c, m], Last(Draw(w, c)), |w.log| + 1, c)
  {
  }

  lemma CacheFar(e: Env, o: TreePath, d: TreePath)
    requires Disjoint(e.cacheDir, o) && Under(o, d)
    ensures Far(d, e.cacheDir)
  {
    UnderBoth(e.cacheDir, o, d);
  }

  /** So does the first of the entries still to move that does not fit. */
  lemma {:induction false} LoopStays(e: Env, w: World, names: seq<Name>, i: nat, isDir: bool, stack: nat, t0: Tree,
                                     o: TreePath, n: TreePath, y: Name)
    requires Good(w) && ListsWell(e) && Disjoint(o, n) && Disjoint(e.cacheDir, o) && WellFormed(t0) && IsDir(t0, o)
    requires i <= |names| && IsListing(names, Children(t0, o)) && Intact(t0, w.tree, o, Remaining(names, i))
    requires Compatible(t0, o, n) && Partial(t0, w.tree, o, n, Remaining(names, i)) && stack >= |Subtree(t0, o)|
    requires AllFine(e, w.tick, LoopRun(e, w, Outside(o), Outside(n), names, i, 0, isDir, stack).w.tick)
    requires y in Remaining(names, i) && DrawsOf(t0, o + [y]) > 30
    ensures exists x :: IsDir(LoopRun(e, w, Outside(o), Outside(n), names, i, 0, isDir, stack).w.tree, o + [x])
    decreases |names| - i
  {
    hide Reads, Relocated, Safe, SafeSince, At, EntryRun, WellFormed, ListsWell, EntryFits, Subtree, DrawsOf, Share,
         Weight, Named, Intact, IsListing, Children, Disjoint, Compatible, Partial, CanCopy, HasParent, AllFine, Spared;
    var from, to := Outside(o), Outside(n);
    assert i < |names|;
    RemainingNext(names, Children(t0, o), i);
    hide Remaining;
    var x, w1, end := names[i], Asked(w), LoopRun(e, w, from, to, names, i, 0, isDir, stack).w.tick;
    LoopTicks(e, w, from, to, names, i, 0, isDir, stack);
    FineAt(e, w.tick, end);
    FineLater(e, w.tick, w1.tick, end);
    if Dotted(x) {
      LoopStays(e, w1, names, i + 1, isDir, stack, t0, o, n, y);
    } else {
      TurnBefore(t0, w.tree, o, n, names, i);
      var out := EntryRun(e, w1, from, to, x, isDir, stack);
      FineUpTo(e, w1.tick, out.w.tick, end);
      if DrawsOf(t0, o + [x]) > 30 {
        EntryStays(e, w1, x, isDir, stack, o, n);
        if !out.abort && !out.crash {
          RestSpares(e, out.w, names, i, out.ret, out.isDir, stack, |w.log| + 1, t0, o, n);
        }
        SparedIsThere(e, LoopRun(e, w, from, to, names, i, 0, isDir, stack).w, |w.log| + 1, o + [x]);
      } else {
        MovesWithinLimit(e, w1, names, i, isDir, stack, t0, o, n, end);
        FineLater(e, w1.tick, out.w.tick, end);
        LoopStays(e, out.w, names, i + 1, out.isDir, stack, t0, o, n, y);
      }
    }
  }

  lemma SparedIsThere(e: Env, w: World, since: nat, d: TreePath)
    requires Spared(e, w, since, d)
    ensures IsDir(w.tree, d)
  {
  }

  /** The names that follow are other names. */
  lemma RestSpares(e: Env, w: World, names: seq<Name>, i: nat, ret: int, isDir: bool, stack: nat, since: nat,
                   t0: Tree, o: TreePath, n: TreePath)
    requires i < |names| && IsListing(names, Children(t0, o)) && Disjoint(o, n) && Spared(e, w, since, o + [names[i]])
    ensures Spared(e, LoopRun(e, w, Outside(o), Outside(n), names, i + 1, ret, isDir, stack).w, since, o + [names[i]])
  {
    hide Spared, LoopRun;
    var d := o + [names[i]];
    forall k | i + 1 <= k < |names| && !Dotted(names[k])
      ensures Base(w.log, Outside(o), names[k], since, d) && Base(w.log, Outside(n), names[k], since, d)
    {
      ChildrenDisjoint(o, n, names[i], names[k]);
    }
    LoopSpares(e, w, Outside(o), Outside(n), names, i + 1, ret, isDir, stack, since, d);
  }

  /** A turn whose entry fits, as long as the caller's strings can be read, which is for ever. */
  lemma MovesWithinLimit(e: Env, w: World, names: seq<Name>, i: nat, isDir: bool, stack: nat, t0: Tree, o: TreePath,
                         n: TreePath, end: nat)
    requires Good(w) && ListsWell(e) && Disjoint(o, n) && WellFormed(t0) && IsDir(t0, o)
    requires i < |names| && !Dotted(names[i]) && IsListing(names, Children(t0, o))
    requires Intact(t0, w.tree, o, Remaining(names, i))
    requires Compatible(t0, o, n) && Partial(t0, w.tree, o, n, Remaining(names, i)) && stack >= |Subtree(t0, o)|
    requires DrawsOf(t0, o + [names[i]]) <= 30
    requires AllFine(e, w.tick, end) && EntryRun(e, w, Outside(o), Outside(n), names[i], isDir, stack).w.tick <= end
    ensures var out := EntryRun(e, w, Outside(o), Outside(n), names[i], isDir, stack);
            && !out.abort && !out.crash && out.ret == 0 && Good(out.w) && Grew(w, out.w)
            && Partial(t0, out.w.tree, o, n, Remaining(names, i + 1))
               && Intact(t0, out.w.tree, o, Remaining(names, i + 1))
  {
    hide WellFormed, ListsWell, Subtree, DrawsOf, Intact, IsListing, Children, Disjoint, Compatible, Partial, AllFine,
         EntryRun, Remaining, EntryFits;
    var upto := |w.log| + Share(t0, o + [names[i]]);
    OutsideReads(w, o, n, upto);
    TurnBefore(t0, w.tree, o, n, names, i);
    assert o + [names[i]] in t0 by { assert Lookup(w.tree, o + [names[i]]) == Lookup(t0, o + [names[i]]); }
    FitsAtTheTop(t0, o + [names[i]]);
    hide Reads, Share;
    LoopTurnExactly(e, w, Outside(o), Outside(n), names, i, isDir, stack, t0, o, n, upto, end);
  }

  /** Called with the caller's own strings on a tree that does not fit, rename_directory leaves a
      child of the old directory in place although every call succeeds. */
  lemma DirStays(e: Env, w: World, stack: nat, o: TreePath, n: TreePath)
    requires Good(w) && ListsWell(e) && Disjoint(o, n) && Disjoint(e.cacheDir, o) && GoodName(n) && !RingFits(w.tree, o)
    requires AllFine(e, w.tick, DirRun(e, w, Outside(o), Outside(n), stack).w.tick) && stack > |Subtree(w.tree, o)|
    requires IsDir(w.tree, o) && HasParent(w.tree, n) && Compatible(w.tree, o, n)
    ensures exists x :: IsDir(DirRun(e, w, Outside(o), Outside(n), stack).w.tree, o + [x])
  {
    hide WellFormed, ListsWell, Subtree, DrawsOf, Intact, IsListing, Children, Disjoint, Compatible, Partial, AllFine,
         DirRun, LoopRun, Remaining, EntryFits, RingFits, TargetRun, OpenRun, Rmdir, HasParent;
    var from, to := Outside(o), Outside(n);
    RingFitsByChildren(w.tree, o);
    var y :| IsDir(w.tree, o + [y]) && DrawsOf(w.tree, o + [y]) > 30;
    ChildIn(w.tree, o, y);
    DirSteps(e, w, from, to, stack);
    Begun(e, w, from, to, stack, o, n);
    var made := TargetRun(e, w, to);
    var (listed, names) := OpenRun(e, made.w, from);
    var v, garbage := listed.w, e.garbage(listed.w.tick);
    LoopStays(e, v, names, 0, garbage, stack - 1, w.tree, o, n, y);
    var moved := LoopRun(e, v, from, to, names, 0, 0, garbage, stack - 1);
    var x :| IsDir(moved.w.tree, o + [x]);
    RmdirOther(moved.w.tree, o, o + [x], e.sched(moved.w.tick));
  }

  lemma RmdirOther(t: Tree, p: TreePath, q: TreePath, r: Answer)
    requires IsDir(t, q) && p != q
    ensures IsDir(Rmdir(t, p, r).0, q)
  {
  }

  /** When every call succeeds, a directory that can be moved is moved exactly if and only if every
      subdirectory draws at most 30 buffers. */
  lemma RelocatesExactlyWhenItFits(e: Env, w: World, stack: nat, o: TreePath, n: TreePath)
    requires Good(w) && ListsWell(e) && Disjoint(o, n) && Disjoint(e.cacheDir, o) && GoodName(n)
    requires AllFine(e, w.tick, DirRun(e, w, Outside(o), Outside(n), stack).w.tick) && stack > |Subtree(w.tree, o)|
    requires IsDir(w.tree, o) && HasParent(w.tree, n) && Compatible(w.tree, o, n)
    ensures Relocated(w.tree, DirRun(e, w, Outside(o), Outside(n), stack).w.tree, o, n) <==> RingFits(w.tree, o)
  {
    hide WellFormed, ListsWell, Subtree, DrawsOf, Disjoint, Compatible, AllFine, DirRun, RingFits, HasParent;
    var out := DirRun(e, w, Outside(o), Outside(n), stack);
    if RingFits(w.tree, o) {
      OutsideReads(w, o, n, |w.log| + DrawsOf(w.tree, o));
      hide Reads, Relocated;
      DirExactly(e, w, Outside(o), Outside(n), stack, o, n);
    } else {
      DirStays(e, w, stack, o, n);
      var x :| IsDir(out.w.tree, o + [x]);
      assert Lookup(out.w.tree, o + [x]) == Some(Dir) && Relocation(w.tree, o, n, o + [x]) == None;
    }
  }

  // ----- Plain subdirectories -----

  /** In particular, if the subdirectories hold plain files only: exactly if each holds at most ten. */
  lemma PlainSubdirectories(e: Env, w: World, stack: nat, o: TreePath, n: TreePath)
    requires Good(w) && ListsWell(e) && Disjoint(o, n) && Disjoint(e.cacheDir, o) && GoodName(n)
    requires AllFine(e, w.tick, DirRun(e, w, Outside(o), Outside(n), stack).w.tick) && stack > |Subtree(w.tree, o)|
    requires IsDir(w.tree, o) && HasParent(w.tree, n) && Compatible(w.tree, o, n)
    requires forall x, q :: IsDir(w.tree, o + [x]) && q in Below(w.tree, o + [x]) ==> IsFile(w.tree, q)
    ensures Relocated(w.tree, DirRun(e, w, Outside(o), Outside(n), stack).w.tree, o, n) <==>
            forall x :: IsDir(w.tree, o + [x]) ==> |Below(w.tree, o + [x])| <= 10
  {
    hide DirRun, Relocated, AllFine, ListsWell, Compatible, Disjoint;
    RelocatesExactlyWhenItFits(e, w, stack, o, n);
    RingFitsByChildren(w.tree, o);
    forall x | IsDir(w.tree, o + [x]) ensures DrawsOf(w.tree, o + [x]) <= 30 <==> |Below(w.tree, o + [x])| <= 10
    {
      FlatDraws(w.tree, o + [x]);
    }
  }

  /** The directory `a` with one subdirectory `b` of empty files. */
  function Crowd(a: Name, b: Name, names: set<Name>): Tree {
    map q | q in {[], [a], [a, b]} + CrowdFiles(a, b, names) :: if |q| == 3 then File([]) else Dir
  }

  function CrowdFiles(a: Name, b: Name, names: set<Name>): set<TreePath> {
    set x | x in names :: [a, b, x]
  }

  lemma {:induction false} CrowdSize(a: Name, b: Name, names: set<Name>)
    ensures |CrowdFiles(a, b, names)| == |names|
  {
    if names == {} {
      assert CrowdFiles(a, b, names) == {};
    } else {
      var x :| x in names;
      CrowdSize(a, b, names - {x});
      assert [a, b, x][2] == x;
      assert forall q :: q in CrowdFiles(a, b, names - {x}) ==> q[2] != x;
      assert CrowdFiles(a, b, names) == CrowdFiles(a, b, names - {x}) + {[a, b, x]};
    }
  }

  lemma CrowdIsATree(a: Name, b: Name, names: set<Name>)
    requires !Dotted(a) && !Dotted(b) && forall x :: x in names ==> !Dotted(x)
    ensures WellFormed(Crowd(a, b, names))
  {
    var t := Crowd(a, b, names);
    forall p | p in t && p != [] ensures HasParent(t, p) && p[|p| - 1] != "." && p[|p| - 1] != ".."
    {
      if |p| == 1 { assert Parent(p) == []; }
      else if |p| == 2 { assert Parent(p) == [a]; }
      else { assert Parent(p) == [a, b]; }
    }
  }

  lemma CrowdShape(a: Name, b: Name, c: Name, names: set<Name>)
    requires a != c
    ensures var t := Crowd(a, b, names);
            && IsDir(t, [a]) && HasParent(t, [c]) && Compatible(t, [a], [c])
            && (forall x :: IsDir(t, [a] + [x]) <==> x == b)
            && Below(t, [a] + [b]) == CrowdFiles(a, b, names)
               && (forall q :: q in CrowdFiles(a, b, names) ==> IsFile(t, q))
  {
    var t := Crowd(a, b, names);
    assert Parent([c]) == [];
    forall q | Under([a], q) ensures Image([a], [c], q) !in t
    {
      assert Image([a], [c], q)[0] == c;
    }
    forall x: Name ensures IsDir(t, [a] + [x]) <==> x == b
    {
      assert [a] + [x] == [a, x];
    }
  }

  /** Moving it, with every call succeeding, moves it if the subdirectory has ten files, and not if it
      has eleven. */
  lemma CrowdMoves(e: Env, w: World, stack: nat, a: Name, b: Name, c: Name, names: set<Name>)
    requires a != c && !Dotted(a) && !Dotted(b) && !Dotted(c) && forall x :: x in names ==> !Dotted(x)
    requires w.tree == Crowd(a, b, names) && |w.trace| > 0 && w.trace[|w.trace| - 1] == w.tree
    requires ListsWell(e) && Disjoint(e.cacheDir, [a]) && stack > |Subtree(w.tree, [a])|
    requires forall i :: e.sched(i).Fine?
    ensures Relocated(w.tree, DirRun(e, w, Outside([a]), Outside([c]), stack).w.tree, [a], [c]) <==> |names| <= 10
  {
    CrowdIsATree(a, b, names);
    CrowdShape(a, b, c, names);
    CrowdSize(a, b, names);
    hide Crowd, CrowdFiles, Relocated, DirRun, ListsWell, WellFormed, Compatible, HasParent, Subtree, IsDir, Below;
    assert [a][0] == a && [c][0] == c;
    PlainSubdirectories(e, w, stack, [a], [c]);
  }

  // ----- The answer -----

  /** dfs_rename on a file: when it answers 0, the file's bytes are at the new name. */
  lemma ZeroForFile(e: Env, w: World, oldpath: TreePath, newpath: TreePath, stack: nat)
    requires Good(w) && Disjoint(oldpath, newpath) && IsFile(w.tree, oldpath) && e.sched(w.tick).Fine?
    requires WholeRun(e, w, oldpath, newpath, stack).ret == 0
    ensures Lookup(WholeRun(e, w, oldpath, newpath, stack).w.tree, newpath) == Some(w.tree[oldpath])
  {
    hide WellFormed;
    assert Under(oldpath, oldpath);
  }

  /** On a directory, 0 says nothing: with a listing that breaks off at once it is the answer too, and
      nothing at all has been moved. */
  lemma ZeroWithNothingMoved(e: Env, w: World, oldpath: TreePath, newpath: TreePath, stack: nat)
    requires Good(w) && stack > 0 && IsDir(w.tree, oldpath) && HasChild(w.tree, oldpath) && newpath in w.tree
    requires (forall i :: w.tick <= i < w.tick + 4 ==> e.sched(i).Fine?) && e.sched(w.tick + 4).Fails?
    ensures var out := WholeRun(e, w, oldpath, newpath, stack); out.ret == 0 && !out.crash && out.w.tree == w.tree
  {
    hide WellFormed;
    assert e.sched(w.tick).Fine? && e.sched(w.tick + 1).Fine? && e.sched(w.tick + 2).Fine? && e.sched(w.tick + 3).Fine?;
    var w1 := Asked(w);
    var from, to := Outside(oldpath), Outside(newpath);
    DirSteps(e, w1, from, to, stack);
    var v := OpenRun(e, TargetRun(e, w1, to).w, from).0.w;
    EmptyLoop(e, v, from, to, OpenRun(e, TargetRun(e, w1, to).w, from).1, e.garbage(v.tick), stack - 1);
  }

  lemma EmptyLoop(e: Env, w: World, from: Ref, to: Ref, names: seq<Name>, isDir: bool, stack: nat)
    requires e.sched(w.tick).Fails?
    ensures var out := LoopRun(e, w, from, to, names, 0, 0, isDir, stack);
            out.ret == 0 && !out.abort && !out.crash && out.w.tree == w.tree && out.w.log == w.log
  {
  }

  // ----- dfs_rename -----

  /** Every tree on the way is safe when the ring suffices, whatever the calls answer. */
  lemma RenameSafely(e: Env, w: World, oldpath: TreePath, newpath: TreePath, stack: nat)
    requires Good(w) && ListsWell(e) && Disjoint(oldpath, newpath) && GoodName(newpath) && RingFits(w.tree, oldpath)
    ensures var out := WholeRun(e, w, oldpath, newpath, stack);
            Safely(w, out.w, oldpath, newpath) && (stack > |Subtree(w.tree, oldpath)| ==> !out.crash)
  {
    hide DirRun, FileRun, Safe, SafeSince, WellFormed, ListsWell, RingFits, Subtree, DrawsOf, Disjoint, Reads, Namei;
    StartSafely(w, oldpath, newpath);
    var w1 := Asked(w);
    OutsideReads(w1, oldpath, newpath, |w1.log| + DrawsOf(w1.tree, oldpath));
    DirSafely(e, w1, Outside(oldpath), Outside(newpath), stack, oldpath, newpath);
    FileSafely(e, w1, Outside(oldpath), Outside(newpath), oldpath, newpath);
    SafelyFrom(w, w1, DirRun(e, w1, Outside(oldpath), Outside(newpath), stack).w, oldpath, newpath);
    SafelyFrom(w, w1, FileRun(e, w1, Outside(oldpath), Outside(newpath)).w, oldpath, newpath);
  }

  /** When every call succeeds, what can be moved is moved exactly if and only if the ring suffices. */
  lemma RenameExactly(e: Env, w: World, oldpath: TreePath, newpath: TreePath, stack: nat)
    requires Good(w) && ListsWell(e) && Disjoint(oldpath, newpath) && Disjoint(e.cacheDir, oldpath) && GoodName(newpath)
    requires AllFine(e, w.tick, WholeRun(e, w, oldpath, newpath, stack).w.tick) && stack > |Subtree(w.tree, oldpath)|
    requires HasParent(w.tree, newpath) && Compatible(w.tree, oldpath, newpath)
    requires IsDir(w.tree, oldpath) || CanCopy(w.tree, oldpath, newpath)
    ensures Relocated(w.tree, WholeRun(e, w, oldpath, newpath, stack).w.tree, oldpath, newpath) <==>
              RingFits(w.tree, oldpath)
    ensures RingFits(w.tree, oldpath) ==> WholeRun(e, w, oldpath, newpath, stack).ret == 0
  {
    hide DirRun, FileRun, WellFormed, ListsWell, Subtree, DrawsOf, Disjoint, Compatible, Relocated, AllFine, RingFits,
         HasParent, CanCopy;
    var w1, end := Asked(w), WholeRun(e, w, oldpath, newpath, stack).w.tick;
    RenameTicks(e, w, oldpath, newpath, stack);
    FineAt(e, w.tick, end);
    FineLater(e, w.tick, w1.tick, end);
    if IsDir(w.tree, oldpath) {
      RelocatesExactlyWhenItFits(e, w1, stack, oldpath, newpath);
      if RingFits(w.tree, oldpath) {
        OutsideReads(w1, oldpath, newpath, |w1.log| + DrawsOf(w1.tree, oldpath));
        DirExactly(e, w1, Outside(oldpath), Outside(newpath), stack, oldpath, newpath);
      }
    } else {
      CopiesAFile(w.tree, oldpath, newpath);
      FileExactly(e, w1, Outside(oldpath), Outside(newpath), oldpath, newpath);
    }
  }

  lemma CopiesAFile(t: Tree, o: TreePath, n: TreePath)
    requires WellFormed(t) && CanCopy(t, o, n)
    ensures o in t && IsFile(t, o) && RingFits(t, o)
  {
    forall d | Under(o, d) && d != o ensures d !in t
    {
      NothingBelowFile(t, o, d);
    }
  }

  lemma RenameTicks(e: Env, w: World, oldpath: TreePath, newpath: TreePath, stack: nat)
    ensures w.tick < WholeRun(e, w, oldpath, newpath, stack).w.tick
  {
    hide DirRun, FileRun;
    DirGrows(e, Asked(w), Outside(oldpath), Outside(newpath), stack);
    StepsGrow(e, Asked(w), Outside(oldpath), Outside(newpath));
  }
}
