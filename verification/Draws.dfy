/** How many string buffers a rename draws, and how big a subtree is. */
module Draws {
  import opened Basics
  import opened RemoteTree
  import opened RenameSpec

  function Subtree(t: Tree, p: TreePath): set<TreePath> {
    set q | q in t && Under(p, q)
  }

  function Below(t: Tree, p: TreePath): set<TreePath> {
    set q | q in t && Under(p, q) && q != p
  }

  /** The nodes below `o` whose first step is a name of `todo`. */
  function Named(t: Tree, o: TreePath, todo: set<Name>): set<TreePath> {
    set q | q in t && Under(o, q) && |q| > |o| && q[|o|] in todo
  }

  function Files(t: Tree, s: set<TreePath>): set<TreePath> {
    set q | q in s && IsFile(t, q)
  }

  function Dirs(t: Tree, s: set<TreePath>): set<TreePath> {
    set q | q in s && IsDir(t, q)
  }

  /** Two names for each entry, and one cache path for each file unlinked: src/rename.c:104-105,
      src/unlink.c:37. */
  function Weight(t: Tree, s: set<TreePath>): nat {
    3 * |Files(t, s)| + 2 * |Dirs(t, s)|
  }

  /** The buffers that moving the directory `p` draws when everything succeeds; no run draws more. */
  function DrawsOf(t: Tree, p: TreePath): nat {
    Weight(t, Below(t, p))
  }

  /** Every directory below `o` is moved with at most 30 draws, so that the two buffers holding its
      names are not reused before it is done. The names of `o` itself are the caller's. */
  ghost predicate RingFits(t: Tree, o: TreePath) {
    forall d :: Under(o, d) && d != o && IsDir(t, d) ==> DrawsOf(t, d) <= 30
  }

  /** The same, `c` included: its names are in buffers. */
  ghost predicate EntryFits(t: Tree, c: TreePath) {
    forall d :: Under(c, d) && IsDir(t, d) ==> DrawsOf(t, d) <= 30
  }

  /** The draws for one entry: its two names, and its cache path or its own draws. */
  function Share(t: Tree, p: TreePath): nat {
    DrawsOf(t, p) + (if IsFile(t, p) then 3 else 2)
  }

  lemma WeightUnion(t: Tree, a: set<TreePath>, b: set<TreePath>)
    requires a !! b
    ensures Weight(t, a + b) == Weight(t, a) + Weight(t, b)
  {
    assert Files(t, a + b) == Files(t, a) + Files(t, b);
    assert Dirs(t, a + b) == Dirs(t, a) + Dirs(t, b);
  }

  lemma SubtreeWeight(t: Tree, p: TreePath)
    requires p in t
    ensures Weight(t, Subtree(t, p)) == Share(t, p)
  {
    assert Subtree(t, p) == Below(t, p) + {p};
    WeightUnion(t, Below(t, p), {p});
    assert Files(t, {p}) == if IsFile(t, p) then {p} else {};
    assert Dirs(t, {p}) == if IsFile(t, p) then {} else {p};
  }

  /** One child's share of what is left to draw. */
  lemma ChildShare(t: Tree, o: TreePath, todo: set<Name>, x: Name)
    requires x in todo && o + [x] in t
    ensures Weight(t, Named(t, o, todo)) == Weight(t, Named(t, o, todo - {x})) + Share(t, o + [x])
  {
    forall q ensures q in Named(t, o, todo) <==> q in Named(t, o, todo - {x}) || q in Subtree(t, o + [x])
    {
      UnderChild(o, x, q);
    }
    assert Named(t, o, todo) == Named(t, o, todo - {x}) + Subtree(t, o + [x]);
    forall q ensures !(q in Named(t, o, todo - {x}) && q in Subtree(t, o + [x]))
    {
      UnderChild(o, x, q);
    }
    WeightUnion(t, Named(t, o, todo - {x}), Subtree(t, o + [x]));
    SubtreeWeight(t, o + [x]);
  }

  lemma NothingNamed(t: Tree, o: TreePath)
    ensures Weight(t, Named(t, o, {})) == 0
  {
    assert Named(t, o, {}) == {};
    assert Files(t, {}) == {} && Dirs(t, {}) == {};
  }

  lemma NamedShare(t: Tree, o: TreePath)
    requires WellFormed(t)
    ensures Weight(t, Named(t, o, Children(t, o))) == DrawsOf(t, o)
  {
    forall q | q in Below(t, o) ensures q in Named(t, o, Children(t, o))
    {
      Ancestor(t, o, q[|o|], q);
    }
    assert Named(t, o, Children(t, o)) == Below(t, o);
  }

  /** Two trees that agree below `p` draw alike below `p`, and have subtrees of the same size. */
  lemma SameSubtree(t0: Tree, t: Tree, p: TreePath)
    requires forall q :: Under(p, q) ==> Lookup(t, q) == Lookup(t0, q)
    ensures Subtree(t, p) == Subtree(t0, p) && DrawsOf(t, p) == DrawsOf(t0, p)
    ensures EntryFits(t0, p) ==> EntryFits(t, p)
    ensures p in t0 ==> Share(t, p) == Share(t0, p)
  {
    SameWeight(t0, t, p);
    assert Lookup(t, p) == Lookup(t0, p);
    forall q | Under(p, q)
      ensures IsDir(t, q) == IsDir(t0, q) && DrawsOf(t, q) == DrawsOf(t0, q)
    {
      assert Lookup(t, q) == Lookup(t0, q);
      SameWeight(t0, t, q);
    }
  }

  lemma SameWeight(t0: Tree, t: Tree, p: TreePath)
    requires forall q :: Under(p, q) ==> Lookup(t, q) == Lookup(t0, q)
    ensures Subtree(t, p) == Subtree(t0, p) && DrawsOf(t, p) == DrawsOf(t0, p)
  {
    forall q ensures q in Subtree(t, p) <==> q in Subtree(t0, p)
    {
      if Under(p, q) { assert Lookup(t, q) == Lookup(t0, q); }
    }
    assert Below(t, p) == Subtree(t, p) - {p} && Below(t0, p) == Subtree(t0, p) - {p};
    forall q | q in Below(t, p) ensures IsFile(t, q) == IsFile(t0, q) && IsDir(t, q) == IsDir(t0, q)
    {
      assert Lookup(t, q) == Lookup(t0, q);
    }
    assert Files(t, Below(t, p)) == Files(t0, Below(t0, p));
    assert Dirs(t, Below(t, p)) == Dirs(t0, Below(t0, p));
  }

  lemma SmallerSubtree(t0: Tree, o: TreePath, x: Name)
    requires o in t0
    ensures |Subtree(t0, o + [x])| < |Subtree(t0, o)|
  {
    assert Subtree(t0, o + [x]) <= Subtree(t0, o) - {o};
    CardSubset(Subtree(t0, o + [x]), Subtree(t0, o) - {o});
  }

  lemma CardSubset(a: set<TreePath>, b: set<TreePath>)
    requires a <= b
    ensures |a| <= |b|
  {
    assert |b| == |a| + |b - a| by { assert b == a + (b - a); }
  }

  /** A child moves within the room its parent has. */
  lemma ChildFits(t: Tree, o: TreePath, x: Name)
    requires RingFits(t, o)
    ensures EntryFits(t, o + [x])
  {
    assert forall d :: Under(o + [x], d) ==> Under(o, d) && d != o;
  }

  lemma EntryDraws(t: Tree, c: TreePath)
    requires WellFormed(t) && EntryFits(t, c) && c in t
    ensures RingFits(t, c) && DrawsOf(t, c) <= 30
    ensures IsFile(t, c) ==> DrawsOf(t, c) == 0
  {
    if IsFile(t, c) { FileDraws(t, c); } else { assert Under(c, c); }
  }

  lemma LessDraws(t: Tree, d: TreePath, e: TreePath)
    requires Under(d, e)
    ensures DrawsOf(t, e) <= DrawsOf(t, d)
  {
    var rest := Below(t, d) - Below(t, e);
    assert Below(t, d) == Below(t, e) + rest;
    WeightUnion(t, Below(t, e), rest);
  }

  /** An entry fits when its own draws do; a file draws nothing. */
  lemma FitsAtTheTop(t: Tree, c: TreePath)
    requires WellFormed(t) && c in t
    ensures EntryFits(t, c) <==> DrawsOf(t, c) <= 30
    ensures IsFile(t, c) ==> DrawsOf(t, c) == 0
  {
    hide DrawsOf;
    forall d | Under(c, d) ensures DrawsOf(t, d) <= DrawsOf(t, c)
    {
      LessDraws(t, c, d);
    }
    assert Under(c, c);
    if IsFile(t, c) { FileDraws(t, c); }
  }

  lemma FileDraws(t: Tree, c: TreePath)
    requires WellFormed(t) && IsFile(t, c)
    ensures DrawsOf(t, c) == 0
  {
    forall q ensures q !in Below(t, c)
    {
      if Under(c, q) && q != c { NothingBelowFile(t, c, q); }
    }
    assert Below(t, c) == {};
    assert Files(t, {}) == {} && Dirs(t, {}) == {};
  }

  /** So the ring suffices exactly when no child of the directory draws more than 30 buffers. */
  lemma RingFitsByChildren(t: Tree, o: TreePath)
    requires WellFormed(t)
    ensures RingFits(t, o) <==> forall x :: IsDir(t, o + [x]) ==> DrawsOf(t, o + [x]) <= 30
  {
    hide DrawsOf;
    forall x: Name ensures Under(o, o + [x]) && o + [x] != o {}
    if forall x :: IsDir(t, o + [x]) ==> DrawsOf(t, o + [x]) <= 30 {
      forall d | Under(o, d) && d != o && IsDir(t, d) ensures DrawsOf(t, d) <= 30
      {
        var x := d[|o|];
        UnderChild(o, x, d);
        LessDraws(t, o + [x], d);
        Ancestor(t, o, x, d);
        if IsFile(t, o + [x]) { FileDraws(t, o + [x]); }
      }
    }
  }

  /** A directory of plain files draws three buffers for each. */
  lemma FlatDraws(t: Tree, d: TreePath)
    requires forall q :: q in Below(t, d) ==> IsFile(t, q)
    ensures DrawsOf(t, d) == 3 * |Below(t, d)|
  {
    assert Files(t, Below(t, d)) == Below(t, d);
    assert Dirs(t, Below(t, d)) == {};
  }
}
