/** What renaming the directory `o` to `n` promises, on trees. */
module RenameSpec {
  import opened Basics
  import opened RemoteTree

  // ----- Conservation -----

  ghost predicate Frame(t0: Tree, t: Tree, o: TreePath, n: TreePath) {
    forall q :: !Under(o, q) && !Under(n, q) ==> Lookup(t, q) == Lookup(t0, q)
  }

  /** The bytes of the original file at `q` are at `q` or at its image. */
  ghost predicate FileSafe(t0: Tree, t: Tree, o: TreePath, n: TreePath, q: TreePath)
    requires Under(o, q)
  {
    IsFile(t0, q) ==> Lookup(t, q) == Some(t0[q]) || Lookup(t, Image(o, n, q)) == Some(t0[q])
  }

  /** Nothing outside the two subtrees changed and no original file's bytes are gone. */
  ghost predicate Safe(t0: Tree, t: Tree, o: TreePath, n: TreePath) {
    Frame(t0, t, o, n) && forall q :: Under(o, q) ==> FileSafe(t0, t, o, n, q)
  }

  /** The part of the old tree below the names of `todo` is as it was. */
  ghost predicate Intact(t0: Tree, t: Tree, o: TreePath, todo: set<Name>) {
    forall q :: Under(o, q) && |q| > |o| && q[|o|] in todo ==> Lookup(t, q) == Lookup(t0, q)
  }

  lemma SafeHere(t: Tree, o: TreePath, n: TreePath)
    ensures Safe(t, t, o, n)
  {
  }

  lemma SafeMkdir(t0: Tree, t: Tree, o: TreePath, n: TreePath, r: Answer)
    requires Safe(t0, t, o, n)
    ensures Safe(t0, Mkdir(t, n, r).0, o, n)
  {
    var u := Mkdir(t, n, r).0;
    forall q | Under(o, q) ensures FileSafe(t0, u, o, n, q)
    {
      assert FileSafe(t0, t, o, n, q);
    }
  }

  lemma SafeRmdir(t0: Tree, t: Tree, o: TreePath, n: TreePath, r: Answer)
    requires Safe(t0, t, o, n)
    ensures Safe(t0, Rmdir(t, o, r).0, o, n)
  {
    var u := Rmdir(t, o, r).0;
    forall q | Under(o, q) ensures FileSafe(t0, u, o, n, q)
    {
      assert FileSafe(t0, t, o, n, q);
      assert IsFile(t0, q) && Lookup(t, q) == Some(t0[q]) ==> q != o || u == t;
      assert IsFile(t0, q) && Lookup(t, Image(o, n, q)) == Some(t0[q]) ==> Image(o, n, q) != o || u == t;
    }
  }

  /** A copy leaves the source alone, whatever it leaves at the destination. */
  lemma SafeFcopy(t: Tree, src: TreePath, dst: TreePath, r: Answer)
    requires Disjoint(src, dst)
    ensures Safe(t, Fcopy(t, src, dst, r).0, src, dst)
  {
    var u := Fcopy(t, src, dst, r).0;
    forall q | Under(src, q) ensures FileSafe(t, u, src, dst, q)
    {
      assert q != dst;
    }
  }

  /** The source is unlinked only after a copy that succeeded. */
  lemma SafeUnlink(t0: Tree, src: TreePath, dst: TreePath, r: Answer, s: Answer)
    requires Disjoint(src, dst) && Fcopy(t0, src, dst, r).1 == DPL_SUCCESS
    ensures Safe(t0, Unlink(Fcopy(t0, src, dst, r).0, src, s).0, src, dst)
  {
    var t := Fcopy(t0, src, dst, r).0;
    var u := Unlink(t, src, s).0;
    forall q | Under(src, q) ensures FileSafe(t0, u, src, dst, q)
    {
      assert q != dst;
      if q == src { assert Image(src, dst, q) == dst; }
    }
  }

  /** Moving one more child keeps the whole move safe. */
  lemma SafeChild(t0: Tree, t: Tree, u: Tree, o: TreePath, n: TreePath, x: Name)
    requires Disjoint(o, n) && Safe(t0, t, o, n) && Intact(t0, t, o, {x})
    requires Safe(t, u, o + [x], n + [x])
    ensures Safe(t0, u, o, n)
  {
    forall q | !Under(o, q) && !Under(n, q) ensures Lookup(u, q) == Lookup(t0, q)
    {
      UnderChild(o, x, q);
      UnderChild(n, x, q);
    }
    forall q | Under(o, q) ensures FileSafe(t0, u, o, n, q)
    {
      ChildSafe(t0, t, u, o, n, x, q);
    }
  }

  lemma ChildSafe(t0: Tree, t: Tree, u: Tree, o: TreePath, n: TreePath, x: Name, q: TreePath)
    requires Disjoint(o, n) && Safe(t0, t, o, n) && Intact(t0, t, o, {x})
    requires Safe(t, u, o + [x], n + [x]) && Under(o, q)
    ensures FileSafe(t0, u, o, n, q)
  {
    var i := Image(o, n, q);
    UnderChild(o, x, q);
    if Under(o + [x], q) {
      ChildImage(o, n, x, q);
      assert Lookup(t, q) == Lookup(t0, q);
      assert FileSafe(t, u, o + [x], n + [x], q);
    } else {
      UnderBoth(o, n, q);
      UnderChild(n, x, q);
      assert FileSafe(t0, t, o, n, q);
      assert Lookup(u, q) == Lookup(t, q);
      ImageRoundTrip(o, n, q);
      UnderBoth(o, n, i);
      UnderChild(o, x, i);
      UnderChild(n, x, i);
      assert |q| > |o| ==> i[|n|] == q[|o|];
      assert Lookup(u, i) == Lookup(t, i);
    }
  }

  lemma IntactChild(t0: Tree, t: Tree, u: Tree, o: TreePath, n: TreePath, x: Name, todo: set<Name>)
    requires Disjoint(o, n) && Intact(t0, t, o, todo) && x !in todo
    requires Frame(t, u, o + [x], n + [x])
    ensures Intact(t0, u, o, todo)
  {
    forall q | Under(o, q) && |q| > |o| && q[|o|] in todo ensures Lookup(u, q) == Lookup(t0, q)
    {
      UnderBoth(o, n, q);
      UnderChild(o, x, q);
      UnderChild(n, x, q);
    }
  }

  // ----- Exact relocation -----

  /** Where a complete move puts things: nothing is left below `o`, everything that was below `o`
      is below `n`, and the rest, other entries of `n` included, is as it was. */
  ghost function Relocation(t0: Tree, o: TreePath, n: TreePath, q: TreePath): Option<Node> {
    if Under(o, q) then None
    else if Under(n, q) && Image(n, o, q) in t0 then Some(t0[Image(n, o, q)])
    else Lookup(t0, q)
  }

  ghost predicate Relocated(t0: Tree, t: Tree, o: TreePath, n: TreePath) {
    forall q :: Lookup(t, q) == Relocation(t0, o, n, q)
  }

  /** Where both the old and the new subtree have a node, the two are of the same kind. */
  ghost predicate Compatible(t: Tree, o: TreePath, n: TreePath) {
    forall q :: Under(o, q) && q in t && Image(o, n, q) in t ==> (IsFile(t, q) <==> IsFile(t, Image(o, n, q)))
  }

  /** The move with the children of `todo` still to do, and both directories in place. */
  ghost function Halfway(t0: Tree, o: TreePath, n: TreePath, todo: set<Name>, q: TreePath): Option<Node> {
    if Under(o, q) then
      if |q| == |o| || q[|o|] in todo then Lookup(t0, q) else None
    else if Under(n, q) then
      if |q| == |n| then Some(Dir)
      else if q[|n|] !in todo && Image(n, o, q) in t0 then Some(t0[Image(n, o, q)])
      else Lookup(t0, q)
    else Lookup(t0, q)
  }

  ghost predicate Partial(t0: Tree, t: Tree, o: TreePath, n: TreePath, todo: set<Name>) {
    forall q :: Lookup(t, q) == Halfway(t0, o, n, todo, q)
  }

  function Children(t: Tree, p: TreePath): set<Name> {
    set q | q in t && q != [] && Parent(q) == p :: q[|q| - 1]
  }

  lemma ChildIn(t: Tree, p: TreePath, x: Name)
    ensures x in Children(t, p) <==> p + [x] in t
  {
    if p + [x] in t { assert Parent(p + [x]) == p; }
    if x in Children(t, p) {
      var q :| q in t && q != [] && Parent(q) == p && q[|q| - 1] == x;
      assert q == p + [x];
    }
  }

  /** Every ancestor of a node is in the tree. */
  lemma {:induction false} Ancestor(t: Tree, p: TreePath, x: Name, q: TreePath)
    requires WellFormed(t) && q in t && Under(p + [x], q)
    ensures p + [x] in t && x in Children(t, p)
    decreases |q|
  {
    if q == p + [x] {
      ChildIn(t, p, x);
    } else {
      assert HasParent(t, q) && Under(p + [x], Parent(q));
      Ancestor(t, p, x, Parent(q));
    }
  }

  lemma PartialStart(t0: Tree, t: Tree, o: TreePath, n: TreePath)
    requires WellFormed(t0) && Disjoint(o, n)
    requires IsDir(t, n) && forall q :: q != n ==> Lookup(t, q) == Lookup(t0, q)
    ensures Partial(t0, t, o, n, Children(t0, o))
  {
    forall q ensures Lookup(t, q) == Halfway(t0, o, n, Children(t0, o), q)
    {
      UnderBoth(o, n, q);
      assert Under(n, q) && |q| == |n| ==> q == n;
      if Under(o, q) && |q| > |o| && q in t0 {
        UnderChild(o, q[|o|], q);
        Ancestor(t0, o, q[|o|], q);
      }
      if Under(n, q) && |q| > |n| && Image(n, o, q) in t0 {
        var i := Image(n, o, q);
        UnderChild(o, q[|n|], i);
        Ancestor(t0, o, q[|n|], i);
      }
    }
  }

  lemma PartialChild(t0: Tree, t: Tree, u: Tree, o: TreePath, n: TreePath, x: Name, todo: set<Name>)
    requires Disjoint(o, n) && x in todo && Partial(t0, t, o, n, todo) && Relocated(t, u, o + [x], n + [x])
    ensures Partial(t0, u, o, n, todo - {x})
  {
    forall q ensures Lookup(u, q) == Halfway(t0, o, n, todo - {x}, q)
    {
      HalfwayChild(t0, t, u, o, n, x, todo, q);
    }
  }

  lemma HalfwayChild(t0: Tree, t: Tree, u: Tree, o: TreePath, n: TreePath, x: Name, todo: set<Name>, q: TreePath)
    requires Disjoint(o, n) && x in todo && Partial(t0, t, o, n, todo) && Relocated(t, u, o + [x], n + [x])
    ensures Lookup(u, q) == Halfway(t0, o, n, todo - {x}, q)
  {
    UnderBoth(o, n, q);
    UnderChild(o, x, q);
    UnderChild(n, x, q);
    assert Lookup(u, q) == Relocation(t, o + [x], n + [x], q);
    assert Lookup(t, q) == Halfway(t0, o, n, todo, q);
    if Under(n + [x], q) {
      ChildImage(n, o, x, q);
      var i := Image(n, o, q);
      UnderChild(o, x, i);
      assert Lookup(t, i) == Halfway(t0, o, n, todo, i);
    }
  }

  lemma PartialEnd(t0: Tree, t: Tree, u: Tree, o: TreePath, n: TreePath)
    requires Disjoint(o, n) && IsDir(t0, o) && Partial(t0, t, o, n, {})
    requires forall q :: Lookup(u, q) == if q == o then None else Lookup(t, q)
    ensures Relocated(t0, u, o, n)
  {
    forall q ensures Lookup(u, q) == Relocation(t0, o, n, q)
    {
      UnderBoth(o, n, q);
      assert Lookup(t, q) == Halfway(t0, o, n, {}, q);
      if q == n { assert Image(n, o, q) == o; }
    }
  }

  lemma NoChildrenLeft(t0: Tree, t: Tree, o: TreePath, n: TreePath)
    requires Partial(t0, t, o, n, {})
    ensures !HasChild(t, o)
  {
    forall q | q in t && q != [] ensures Parent(q) != o
    {
      assert Lookup(t, q) == Halfway(t0, o, n, {}, q);
    }
  }

  /** A child still to do finds its own move possible. */
  lemma ChildReady(t0: Tree, t: Tree, o: TreePath, n: TreePath, todo: set<Name>, x: Name)
    requires Disjoint(o, n) && Partial(t0, t, o, n, todo) && x in todo && Compatible(t0, o, n)
    ensures Lookup(t, o + [x]) == Lookup(t0, o + [x])
    ensures HasParent(t, n + [x]) && Compatible(t, o + [x], n + [x])
    ensures IsFile(t, o + [x]) ==> CanCopy(t, o + [x], n + [x])
  {
    UnderChild(o, x, o + [x]);
    assert Lookup(t, o + [x]) == Halfway(t0, o, n, todo, o + [x]);
    assert Lookup(t, n) == Halfway(t0, o, n, todo, n) && Parent(n + [x]) == n;
    UnderBoth(o, n, n);
    forall q | Under(o + [x], q) && q in t && Image(o + [x], n + [x], q) in t
      ensures IsFile(t, q) <==> IsFile(t, Image(o + [x], n + [x], q))
    {
      ChildImage(o, n, x, q);
      var i := Image(o, n, q);
      UnderChild(o, x, q);
      UnderChild(n, x, i);
      UnderBoth(o, n, i);
      assert Lookup(t, q) == Halfway(t0, o, n, todo, q);
      assert Lookup(t, i) == Halfway(t0, o, n, todo, i);
    }
    assert Image(o + [x], n + [x], o + [x]) == n + [x];
  }

  /** A file's move: a copy and an unlink that succeed. */
  lemma FileRelocated(t0: Tree, src: TreePath, dst: TreePath)
    requires WellFormed(t0) && Disjoint(src, dst) && CanCopy(t0, src, dst)
    ensures var t := Fcopy(t0, src, dst, Fine).0;
            IsFile(t, src) && Relocated(t0, Unlink(t, src, Fine).0, src, dst)
  {
    var t := Fcopy(t0, src, dst, Fine).0;
    var u := Unlink(t, src, Fine).0;
    forall q ensures Lookup(u, q) == Relocation(t0, src, dst, q)
    {
      UnderBoth(src, dst, q);
      if Under(src, q) && q != src && q in t0 { NothingBelowFile(t0, src, q); }
      if Under(dst, q) && q != dst && Image(dst, src, q) in t0 { NothingBelowFile(t0, src, Image(dst, src, q)); }
      if q == dst { assert Image(dst, src, q) == src; }
    }
  }

  lemma {:induction false} NothingBelowFile(t: Tree, p: TreePath, q: TreePath)
    requires WellFormed(t) && IsFile(t, p) && Under(p, q) && q != p
    ensures q !in t
    decreases |q|
  {
    if q in t {
      assert HasParent(t, q) && Under(p, Parent(q));
      if Parent(q) != p { NothingBelowFile(t, p, Parent(q)); }
    }
  }

  /** A copy and, only when it succeeds, an unlink: safe after each call, and exact when both are. */
  lemma FileMove(t0: Tree, src: TreePath, dst: TreePath, r: Answer, s: Answer)
    requires WellFormed(t0) && Disjoint(src, dst)
    ensures var (t, rc) := Fcopy(t0, src, dst, r);
            var (u, rc') := Unlink(t, src, s);
            && Safe(t0, t0, src, dst) && Safe(t0, t, src, dst)
            && (rc == DPL_SUCCESS ==> Safe(t0, u, src, dst))
            && (r.Fine? && s.Fine? && CanCopy(t0, src, dst) ==>
                  rc == DPL_SUCCESS && rc' == DPL_SUCCESS && Relocated(t0, u, src, dst))
  {
    SafeHere(t0, src, dst);
    SafeFcopy(t0, src, dst, r);
    if Fcopy(t0, src, dst, r).1 == DPL_SUCCESS { SafeUnlink(t0, src, dst, r, s); }
    if CanCopy(t0, src, dst) { FileRelocated(t0, src, dst); }
  }

  // ----- What a complete move is -----

  /** Every old/rel is at new/rel as it was, nothing is left under old, an entry of new without a
      counterpart is kept, and everything outside is unchanged; and these four say it all. */
  lemma RelocatedMeans(t0: Tree, t: Tree, o: TreePath, n: TreePath)
    requires Disjoint(o, n)
    ensures Relocated(t0, t, o, n) <==>
            && (forall rel: TreePath :: o + rel !in t)
            && (forall rel: TreePath :: o + rel in t0 ==> Lookup(t, n + rel) == Some(t0[o + rel]))
            && (forall rel: TreePath :: o + rel !in t0 ==> Lookup(t, n + rel) == Lookup(t0, n + rel))
            && Frame(t0, t, o, n)
  {
    forall rel: TreePath
      ensures Relocation(t0, o, n, o + rel) == None
      ensures Relocation(t0, o, n, n + rel) == if o + rel in t0 then Some(t0[o + rel]) else Lookup(t0, n + rel)
    {
      UnderBoth(o, n, n + rel);
      assert Image(n, o, n + rel) == o + rel;
    }
    if Relocated(t0, t, o, n) {
      forall rel: TreePath ensures o + rel !in t && Lookup(t, n + rel) == Relocation(t0, o, n, n + rel)
      {
        assert Lookup(t, o + rel) == Relocation(t0, o, n, o + rel);
      }
    } else {
      var q :| Lookup(t, q) != Relocation(t0, o, n, q);
      assert Under(o, q) ==> q == o + q[|o|..];
      assert Under(n, q) ==> q == n + q[|n|..];
    }
  }

  /** Moving a tree and moving it back gives the tree there was exactly when nothing was at the
      new name before. */
  lemma ThereAndBack(t0: Tree, t: Tree, u: Tree, o: TreePath, n: TreePath)
    requires Disjoint(o, n) && Relocated(t0, t, o, n) && Relocated(t, u, n, o)
    ensures u == t0 <==> forall q :: Under(n, q) ==> q !in t0
  {
    forall q
      ensures Lookup(u, q) == if Under(n, q) then None
                              else if Under(o, q) && q !in t0 then Lookup(t0, Image(o, n, q))
                              else Lookup(t0, q)
    {
      UnderBoth(o, n, q);
      assert Lookup(u, q) == Relocation(t, n, o, q);
      assert Lookup(t, q) == Relocation(t0, o, n, q);
      if Under(o, q) {
        var i := Image(o, n, q);
        ImageRoundTrip(o, n, q);
        UnderBoth(o, n, i);
        assert Lookup(t, i) == Relocation(t0, o, n, i);
      }
    }
    SameTree(t0, u);
    forall q | Under(o, q) ensures Under(n, Image(o, n, q))
    {
      UnderBoth(o, n, q);
    }
    if u == t0 {
      forall q | Under(n, q) ensures q !in t0
      {
        assert Lookup(u, q) == None;
      }
    }
  }

  lemma SameTree(t: Tree, u: Tree)
    ensures t == u <==> forall q :: Lookup(t, q) == Lookup(u, q)
  {
    if forall q :: Lookup(t, q) == Lookup(u, q) {
      forall q ensures q in t <==> q in u
      {
        assert Lookup(t, q) == Lookup(u, q);
      }
      forall q | q in t && q in u ensures t[q] == u[q]
      {
        assert Lookup(t, q) == Lookup(u, q);
      }
    }
  }
}
