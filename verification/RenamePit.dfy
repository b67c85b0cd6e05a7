/** An input on which the rename destroys a file although the store does everything it is asked. */
module RenamePit {
  import opened Basics
  import opened RemoteTree
  import opened RenameSpec
  import opened Draws
  import opened RenameRun
  import opened RenameSafe
  import opened RenameRing
  import opened RenameLoss

  /** The names "a" to "p". */
  function Letter(k: nat): Name
    requires k < 16
  {
    [(97 + k) as char]
  }

  function Letters(): (f: seq<Name>)
    ensures |f| == 16 && forall k :: 0 <= k < 16 ==> f[k] == Letter(k)
  {
    seq(16, k requires 0 <= k < 16 => Letter(k))
  }

  function PitDirs(): set<TreePath> {
    {[], ["O"], ["N"], ["O", "b"], ["N", "b"], ["O", "b", "o"], ["N", "b", "o"], ["O", "b", "o", "z"]}
    + set k | 1 <= k < 14 :: ["N", "b", Letter(k)]
  }

  function PitFiles(): set<TreePath> {
    {["O", "b", "o", "z", "p"], ["N", "b", "o", "z"], ["N", "b", "o", "p"]}
    + set k | 0 <= k < 16 && k != 14 :: ["O", "b", Letter(k)]
  }

  /** Renaming "O" to "N", which is there already. */
  function Pit(): Tree {
    map q | q in PitDirs() + PitFiles() :: if q in PitDirs() then Dir else if |q| == 5 then File([1]) else File([])
  }

  lemma LettersDiffer(i: nat, j: nat)
    requires i < 16 && j < 16
    ensures Letter(i) == Letter(j) <==> i == j
    ensures !Dotted(Letter(i)) && Letter(14) == "o" && Letter(15) == "p"
  {
    assert Letter(i)[0] as int == 97 + i && Letter(j)[0] as int == 97 + j;
  }

  lemma PitHas(q: TreePath)
    ensures q in PitDirs() ==> IsDir(Pit(), q)
    ensures q in PitFiles() && q !in PitDirs() ==> IsFile(Pit(), q)
  {
  }

  lemma OldName(k: nat)
    requires k < 16
    ensures k != 14 ==> IsFile(Pit(), ["O", "b"] + [Letter(k)])
    ensures 1 <= k < 14 ==> IsDir(Pit(), ["N", "b"] + [Letter(k)])
    ensures k == 0 ==> ["N", "b"] + [Letter(k)] !in Pit()
  {
    LettersDiffer(k, 14);
    var p, q := ["O", "b", Letter(k)], ["N", "b", Letter(k)];
    assert ["O", "b"] + [Letter(k)] == p && ["N", "b"] + [Letter(k)] == q;
    assert p[2] == Letter(k) && q[2] == Letter(k) && p[0] == "O" && q[0] == "N";
    if k == 0 {
      forall j | 1 <= j < 14 ensures q != ["N", "b", Letter(j)]
      {
        LettersDiffer(0, j);
        assert ["N", "b", Letter(j)][2] == Letter(j);
      }
    }
  }

  lemma PitParent(q: TreePath)
    requires q in Pit() && q != []
    ensures HasParent(Pit(), q) && !Dotted(q[|q| - 1])
  {
    var p := Parent(q);
    if |q| == 1 { assert p == []; }
    else if |q| == 2 { assert p == ["O"] || p == ["N"]; }
    else if |q| == 3 {
      assert p == ["O", "b"] || p == ["N", "b"];
      if q[2] != "o" {
        var k: nat :| k < 16 && q[2] == Letter(k);
        LettersDiffer(k, k);
      }
    }
    else if |q| == 4 { assert p == ["O", "b", "o"] || p == ["N", "b", "o"]; }
    else { assert p == ["O", "b", "o", "z"]; }
  }

  lemma PitIsATree()
    ensures WellFormed(Pit())
  {
    forall q | q in Pit() && q != [] ensures HasParent(Pit(), q) && q[|q| - 1] != "." && q[|q| - 1] != ".."
    {
      PitParent(q);
    }
  }

  lemma PitShapes(q: TreePath)
    ensures |q| == 2 ==> (q in Pit() <==> q == ["O", "b"] || q == ["N", "b"])
    ensures |q| == 4 ==>
              (q in Pit() <==> q == ["O", "b", "o", "z"] || q == ["N", "b", "o", "z"] || q == ["N", "b", "o", "p"])
    ensures |q| == 5 ==> (q in Pit() <==> q == ["O", "b", "o", "z", "p"])
  {
  }

  lemma PitNest()
    ensures Nest(Pit(), ["O", "b"], ["N", "b"], "o", "z", "p")
  {
    hide Pit;
    var o, n := ["O", "b"], ["N", "b"];
    PitBelow();
    assert o + ["o"] == ["O", "b", "o"] && n + ["o"] == ["N", "b", "o"];
    assert o + ["o"] + ["z"] == ["O", "b", "o", "z"] && n + ["o"] + ["z"] == ["N", "b", "o", "z"];
    assert o + ["o"] + ["z"] + ["p"] == ["O", "b", "o", "z", "p"] && n + ["o"] + ["p"] == ["N", "b", "o", "p"];
    var image := n + ["o"] + ["z"] + ["p"];
    PitShapes(image);
    assert image[0] == "N";
  }

  lemma PitBelow()
    ensures var t := Pit();
            && IsDir(t, ["O", "b", "o"]) && IsDir(t, ["N", "b", "o"]) && IsDir(t, ["O", "b", "o", "z"])
               && IsFile(t, ["N", "b", "o", "z"])
            && Lookup(t, ["O", "b", "o", "z", "p"]) == Some(File([1]))
               && Lookup(t, ["N", "b", "o", "p"]) == Some(File([]))
  {
  }

  lemma PitTrap()
    ensures Trap(Pit(), ["O", "b"], ["N", "b"], Letters(), "z")
    ensures IsFile(Pit(), ["O", "b"] + [Letters()[0]]) && !IsDir(Pit(), ["N", "b"] + [Letters()[0]])
  {
    PitNest();
    hide Pit, Nest;
    PitHas(["O", "b"]);
    PitHas(["N", "b"]);
    OldName(0);
    LettersDiffer(14, 15);
    var f := Letters();
    forall i, j | 0 <= i < j < 16 ensures f[i] != f[j]
    {
      LettersDiffer(i, j);
    }
    forall i | 0 <= i < 16 ensures !Dotted(f[i])
    {
      LettersDiffer(i, i);
    }
    forall i {:trigger f[i]} | 1 <= i < 14
      ensures IsFile(Pit(), ["O", "b"] + [f[i]]) && IsDir(Pit(), ["N", "b"] + [f[i]])
    {
      OldName(i);
    }
  }

  // ----- A store that lists the names in that order -----

  ghost function Listed(names: set<Name>): seq<Name> {
    if names == {} then [] else var x :| x in names; [x] + Listed(names - {x})
  }

  lemma {:induction false} ListedAll(names: set<Name>)
    ensures forall x :: x in Listed(names) <==> x in names
    ensures forall i, j :: 0 <= i < j < |Listed(names)| ==> Listed(names)[i] != Listed(names)[j]
  {
    if names != {} {
      var x := Listed(names)[0];
      assert x in names && Listed(names) == [x] + Listed(names - {x});
      ListedAll(names - {x});
    }
  }

  lemma ListedOne(x: Name)
    ensures Listed({x}) == [x]
  {
    var y := Listed({x})[0];
    assert y == x && {x} - {y} == {};
  }

  ghost function PitOrder(t: Tree, p: TreePath): seq<Name> {
    if t == Pit() && p == ["O", "b"] then Letters() else Listed(Children(t, p))
  }

  ghost function Willing(): Env {
    Env((_: nat) => Fine, (t, p) => PitOrder(t, p), (_: nat) => false, ["cache"])
  }

  lemma PitNames(x: Name)
    ensures ["O", "b", x] in Pit() <==> x in Letters()
  {
    var f, q := Letters(), ["O", "b", x];
    assert q[2] == x;
    LettersDiffer(14, 14);
    if q in Pit() {
      if x != "o" {
        var k :| 0 <= k < 16 && k != 14 && q == ["O", "b", Letter(k)];
        assert ["O", "b", Letter(k)][2] == f[k];
      } else {
        assert f[14] == x;
      }
    }
    if x in f {
      var k :| 0 <= k < 16 && f[k] == x;
      assert k != 14 ==> q == ["O", "b", Letter(k)];
    }
  }

  lemma PitListing()
    ensures IsListing(Letters(), Children(Pit(), ["O", "b"]))
  {
    hide Pit;
    var f := Letters();
    forall x ensures x in f && !Dotted(x) <==> x in Children(Pit(), ["O", "b"])
    {
      ChildIn(Pit(), ["O", "b"], x);
      assert ["O", "b"] + [x] == ["O", "b", x];
      PitNames(x);
      if x in f {
        var k :| 0 <= k < 16 && f[k] == x;
        LettersDiffer(k, k);
      }
    }
    forall i, j | 0 <= i < j < 16 ensures f[i] != f[j]
    {
      LettersDiffer(i, j);
    }
  }

  lemma WillingListsWell()
    ensures ListsWell(Willing())
  {
    hide Pit, IsListing, WellFormed;
    forall t, p | WellFormed(t) ensures IsListing(Willing().order(t, p), Children(t, p))
    {
      if t == Pit() && p == ["O", "b"] { PitListing(); } else { ListedWell(t, p); }
    }
  }

  lemma ListedWell(t: Tree, p: TreePath)
    requires WellFormed(t)
    ensures IsListing(Listed(Children(t, p)), Children(t, p))
  {
    ListedAll(Children(t, p));
  }

  lemma OneChild(t: Tree, p: TreePath, x: Name)
    requires forall y :: p + [y] in t <==> y == x
    ensures Listed(Children(t, p)) == [x]
  {
    forall y ensures y in Children(t, p) <==> y == x
    {
      ChildIn(t, p, y);
    }
    assert Children(t, p) == {x};
    ListedOne(x);
  }

  lemma OneInO(y: Name)
    ensures ["O"] + [y] in Pit() <==> y == "b"
  {
    hide Pit;
    PitShapes(["O"] + [y]);
    assert (["O"] + [y])[0] == "O" && (["O"] + [y])[1] == y;
  }

  /** The first file moved, below the subdirectory "o" nothing is different. */
  lemma OneInEach(u: Tree, g: Name, y: Name)
    requires ["O", "b"] + [g] in Pit() && u == Moved(Pit(), ["O", "b"] + [g], ["N", "b"] + [g])
    ensures ["O", "b"] + ["o"] + [y] in u <==> y == "z"
    ensures ["O", "b"] + ["o"] + ["z"] + [y] in u <==> y == "p"
  {
    hide Pit;
    var p, q := ["O", "b", "o", y], ["O", "b", "o", "z", y];
    assert ["O", "b"] + ["o"] + [y] == p && ["O", "b"] + ["o"] + ["z"] + [y] == q;
    PitShapes(p);
    PitShapes(q);
    assert p[0] == "O" && p[3] == y && q[4] == y;
  }

  lemma WillingElsewhere(t: Tree, p: TreePath)
    requires |p| != 2
    ensures Willing().order(t, p) == Listed(Children(t, p))
  {
    hide Pit, Children, Listed;
  }

  lemma PitOrders()
    ensures Willing().order(Pit(), ["O"]) == ["b"] && Willing().order(Pit(), ["O", "b"]) == Letters()
  {
    hide Pit, Children, Listed, Letters;
    forall y ensures ["O"] + [y] in Pit() <==> y == "b"
    {
      OneInO(y);
    }
    OneChild(Pit(), ["O"], "b");
    WillingElsewhere(Pit(), ["O"]);
  }

  lemma MovedOrders(g: Name)
    requires ["O", "b"] + [g] in Pit()
    ensures Lists(Willing(), Moved(Pit(), ["O", "b"] + [g], ["N", "b"] + [g]), ["O", "b"], "o", "z", "p")
  {
    hide Pit, Children, Listed, Willing, Moved;
    var u := Moved(Pit(), ["O", "b"] + [g], ["N", "b"] + [g]);
    var p, q := ["O", "b"] + ["o"], ["O", "b"] + ["o"] + ["z"];
    forall y ensures (p + [y] in u <==> y == "z") && (q + [y] in u <==> y == "p")
    {
      OneInEach(u, g, y);
    }
    OneChild(u, p, "z");
    OneChild(u, q, "p");
    WillingElsewhere(u, p);
    WillingElsewhere(u, q);
  }

  lemma WillingIs()
    ensures AlwaysFine(Willing()) && Willing().cacheDir == ["cache"]
  {
  }

  /** So the condition on the ring cannot be dropped from the safety of dfs_rename. */
  lemma RenameDestroysAFile()
    ensures var e, w := Willing(), World(Pit(), 0, [], [Pit()]);
            && Good(w) && ListsWell(e) && AlwaysFine(e) && Disjoint(["O"], ["N"]) && Disjoint(e.cacheDir, ["O"])
               && GoodName(["N"])
            && !Safely(w, WholeRun(e, w, ["O"], ["N"], 100).w, ["O"], ["N"])
            && !RingFits(w.tree, ["O"])
  {
    hide Pit, Letters, Letter, Trap, Lists, Moved, ListsWell, AlwaysFine, PitOrder, Willing, WholeRun, Safely,
         RingFits, WellFormed;
    PitIsATree();
    WillingListsWell();
    WillingIs();
    PitTrap();
    PitOrders();
    OldName(0);
    LettersDiffer(14, 15);
    MovedOrders(Letter(0));
    var e, w := Willing(), World(Pit(), 0, [], [Pit()]);
    PitTop();
    assert ["O"] + ["b"] == ["O", "b"] && ["N"] + ["b"] == ["N", "b"];
    RenameLoses(e, w, ["O"], ["N"], "b", 100, Letters(), "z");
    if RingFits(w.tree, ["O"]) { RenameSafely(e, w, ["O"], ["N"], 100); }
  }

  lemma PitTop()
    ensures IsDir(Pit(), ["O"]) && ["N"] in Pit()
  {
    hide Pit;
    PitHas(["O"]);
    PitHas(["N"]);
  }
}
