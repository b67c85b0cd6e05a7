/** The remote store seen as a tree, and what each remote call does to it, failures included. */
module RemoteTree {
  import opened Basics

  type Name = string

  /** A path as the names from the root, so that joining with '/' is appending a name. */
  type TreePath = seq<Name>

  datatype Node = Dir | File(content: bytes)

  type Tree = map<TreePath, Node>

  // Statuses of libdroplet; a retry wrapper returns one of them. Only success, ENOENT and the
  // value -1 are told apart by the callers.
  const DPL_SUCCESS := 0
  const DPL_FAILURE := -1
  const DPL_ENOENT := -2
  const DPL_EINVAL := -3

  /** How the store answers one call: it does it, or it reports `code` and may have done it all the
      same; a failed copy may leave junk or nothing at the destination. */
  datatype Response = Fine | Fails(code: int, applied: bool, junk: Option<bytes>)

  type Answer = r: Response | r.Fails? ==> r.code != DPL_SUCCESS witness Fine

  predicate IsDir(t: Tree, p: TreePath) {
    p in t && t[p] == Dir
  }

  predicate IsFile(t: Tree, p: TreePath) {
    p in t && t[p].File?
  }

  function Parent(p: TreePath): TreePath
    requires p != []
  {
    p[..|p| - 1]
  }

  predicate HasParent(t: Tree, p: TreePath) {
    p != [] && IsDir(t, Parent(p))
  }

  /** The tree has a root, every node's parent is a directory, and no node is called "." or "..". */
  ghost predicate WellFormed(t: Tree) {
    && IsDir(t, [])
    && (forall p :: p in t && p != [] ==> HasParent(t, p) && p[|p| - 1] != "." && p[|p| - 1] != "..")
  }

  predicate HasChild(t: Tree, p: TreePath) {
    exists q :: q in t && q != [] && Parent(q) == p
  }

  // ----- The calls: the tree after the call, and the status -----

  function Mkdir(t: Tree, p: TreePath, r: Answer): (Tree, int) {
    var can := p !in t && HasParent(t, p);
    match r
    case Fails(code, applied, _) => (if can && applied then t[p := Dir] else t, code)
    case Fine =>
      if can then (t[p := Dir], DPL_SUCCESS)
      else (t, if p in t then DPL_FAILURE else DPL_ENOENT)
  }

  predicate CanCopy(t: Tree, src: TreePath, dst: TreePath) {
    IsFile(t, src) && HasParent(t, dst) && !IsDir(t, dst)
  }

  function Fcopy(t: Tree, src: TreePath, dst: TreePath, r: Answer): (Tree, int) {
    match r
    case Fails(code, applied, junk) =>
      (if !(CanCopy(t, src, dst) && applied) then t
       else if junk.Some? then t[dst := File(junk.value)] else t - {dst}, code)
    case Fine =>
      if CanCopy(t, src, dst) then (t[dst := t[src]], DPL_SUCCESS)
      else (t, if src in t then DPL_FAILURE else DPL_ENOENT)
  }

  function Unlink(t: Tree, p: TreePath, r: Answer): (Tree, int) {
    match r
    case Fails(code, applied, _) => (if IsFile(t, p) && applied then t - {p} else t, code)
    case Fine =>
      if IsFile(t, p) then (t - {p}, DPL_SUCCESS)
      else (t, if p in t then DPL_FAILURE else DPL_ENOENT)
  }

  /** rmdir removes a directory only when it is empty. */
  function Rmdir(t: Tree, p: TreePath, r: Answer): (Tree, int) {
    var can := IsDir(t, p) && p != [] && !HasChild(t, p);
    match r
    case Fails(code, applied, _) => (if can && applied then t - {p} else t, code)
    case Fine =>
      if can then (t - {p}, DPL_SUCCESS)
      else (t, if p in t then DPL_FAILURE else DPL_ENOENT)
  }

  lemma MkdirKeeps(t: Tree, p: TreePath, r: Answer)
    requires WellFormed(t) && (p != [] ==> p[|p| - 1] != "." && p[|p| - 1] != "..")
    ensures WellFormed(Mkdir(t, p, r).0)
  {
  }

  lemma RmdirKeeps(t: Tree, p: TreePath, r: Answer)
    requires WellFormed(t)
    ensures WellFormed(Rmdir(t, p, r).0)
  {
    var u := Rmdir(t, p, r).0;
    forall q | q in u && q != [] ensures HasParent(u, q)
    {
      assert HasParent(t, q);
      if Parent(q) == p { assert HasChild(t, p); }
    }
  }

  /** Dropping or replacing a file leaves its neighbours their parents. */
  lemma FileKeeps(t: Tree, p: TreePath, node: Option<Node>)
    requires WellFormed(t) && !IsDir(t, p)
    requires node.Some? ==> node.value.File? && HasParent(t, p) && p[|p| - 1] != "." && p[|p| - 1] != ".."
    ensures WellFormed(if node.Some? then t[p := node.value] else t - {p})
  {
    var u := if node.Some? then t[p := node.value] else t - {p};
    forall q | q in u && q != [] ensures HasParent(u, q) && q[|q| - 1] != "." && q[|q| - 1] != ".."
    {
      if q != p { assert HasParent(t, q); }
    }
  }

  lemma FcopyKeeps(t: Tree, src: TreePath, dst: TreePath, r: Answer)
    requires WellFormed(t) && (dst != [] ==> dst[|dst| - 1] != "." && dst[|dst| - 1] != "..")
    ensures WellFormed(Fcopy(t, src, dst, r).0)
  {
    if CanCopy(t, src, dst) {
      FileKeeps(t, dst, None);
      FileKeeps(t, dst, Some(t[src]));
      if r.Fails? && r.junk.Some? { FileKeeps(t, dst, Some(File(r.junk.value))); }
    }
  }

  lemma UnlinkKeeps(t: Tree, p: TreePath, r: Answer)
    requires WellFormed(t)
    ensures WellFormed(Unlink(t, p, r).0)
  {
    if IsFile(t, p) { FileKeeps(t, p, None); }
  }

  // ----- Subtrees -----

  /** `q` is `p` or below it. */
  predicate Under(p: TreePath, q: TreePath) {
    p <= q
  }

  predicate Disjoint(o: TreePath, n: TreePath) {
    !Under(o, n) && !Under(n, o)
  }

  function Image(o: TreePath, n: TreePath, q: TreePath): TreePath
    requires Under(o, q)
  {
    n + q[|o|..]
  }

  lemma ImageRoundTrip(o: TreePath, n: TreePath, q: TreePath)
    requires Under(o, q)
    ensures Under(n, Image(o, n, q)) && Image(n, o, Image(o, n, q)) == q
  {
  }

  /** Below a child, the image under the child's new name is the image under the parent's. */
  lemma ChildImage(o: TreePath, n: TreePath, x: Name, q: TreePath)
    requires Under(o + [x], q)
    ensures Under(o, q) && Image(o + [x], n + [x], q) == Image(o, n, q)
    ensures Under(n + [x], Image(o, n, q))
  {
    assert q[|o|..] == [x] + q[|o| + 1..];
    assert n + ([x] + q[|o| + 1..]) == (n + [x]) + q[|o| + 1..];
  }

  lemma UnderChild(o: TreePath, x: Name, q: TreePath)
    ensures Under(o + [x], q) <==> Under(o, q) && |q| > |o| && q[|o|] == x
  {
  }

  lemma UnderBoth(o: TreePath, n: TreePath, q: TreePath)
    requires Disjoint(o, n)
    ensures !(Under(o, q) && Under(n, q))
  {
  }

  lemma ChildrenDisjoint(o: TreePath, n: TreePath, x: Name, y: Name)
    requires Disjoint(o, n)
    ensures Disjoint(o + [x], n + [y])
    ensures x != y ==> Disjoint(o + [x], o + [y])
  {
    UnderBoth(o, n, n + [y]);
    UnderBoth(o, n, o + [x]);
    assert (o + [x])[|o|] == x && (o + [y])[|o|] == y;
  }
}
