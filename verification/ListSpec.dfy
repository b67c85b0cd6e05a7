/** What the operations of src/list.c compute, on the sequence of a list's elements. */
module ListSpec {

  /** The elements that do not satisfy `p`, in order. */
  function Without<T>(s: seq<T>, p: T -> bool): seq<T> {
    if s == [] then []
    else
      var last := s[|s| - 1];
      Without(s[..|s| - 1], p) + (if p(last) then [] else [last])
  }

  lemma {:induction false} WithoutMembers<T>(s: seq<T>, p: T -> bool)
    ensures forall x :: x in Without(s, p) ==> x in s && !p(x)
    ensures forall x :: x in s && !p(x) ==> x in Without(s, p)
  {
    if s != [] {
      WithoutMembers(s[..|s| - 1], p);
      assert s == s[..|s| - 1] + [s[|s| - 1]];
    }
  }

  /** The position of the first element that satisfies `p`, or the length. */
  function FirstMatch<T>(s: seq<T>, p: T -> bool): (k: nat)
    ensures k <= |s| && (k < |s| ==> p(s[k]))
    ensures forall i :: 0 <= i < k ==> !p(s[i])
  {
    if s == [] || p(s[0]) then 0 else 1 + FirstMatch(s[1..], p)
  }

  function WithoutFirst<T>(s: seq<T>, p: T -> bool): seq<T> {
    var k := FirstMatch(s, p);
    if k < |s| then s[..k] + s[k + 1..] else s
  }

  /** The first match is at `i`, or nowhere. */
  lemma FirstIs<T>(s: seq<T>, i: nat, p: T -> bool)
    requires i <= |s| && (forall k :: 0 <= k < i ==> !p(s[k])) && (i < |s| ==> p(s[i]))
    ensures FirstMatch(s, p) == i && WithoutFirst(s, p) == if i < |s| then s[..i] + s[i + 1..] else s
  {
    hide FirstMatch;
    var k := FirstMatch(s, p);
    assert !(k < i);
    assert !(i < k);
  }

  /** Removing the first match until nothing changes. */
  function RemoveWhileMatching<T>(s: seq<T>, p: T -> bool): seq<T>
    decreases |s|
  {
    if FirstMatch(s, p) < |s| then RemoveWhileMatching(WithoutFirst(s, p), p) else s
  }

  lemma {:induction false} WithoutSplit<T>(a: seq<T>, b: seq<T>, p: T -> bool)
    ensures Without(a + b, p) == Without(a, p) + Without(b, p)
  {
    if b == [] {
      assert a + b == a;
    } else {
      assert (a + b)[..|a + b| - 1] == a + b[..|b| - 1];
      WithoutSplit(a, b[..|b| - 1], p);
    }
  }

  lemma {:induction false} NothingToDrop<T>(s: seq<T>, p: T -> bool)
    requires forall i :: 0 <= i < |s| ==> !p(s[i])
    ensures Without(s, p) == s
  {
    if s != [] {
      NothingToDrop(s[..|s| - 1], p);
      assert s == s[..|s| - 1] + [s[|s| - 1]];
    }
  }

  /** Taking out a match leaves the elements without a match alone. */
  lemma WithoutSkips<T>(a: seq<T>, x: T, b: seq<T>, p: T -> bool)
    requires p(x)
    ensures Without(a + [x] + b, p) == Without(a + b, p)
  {
    assert Without([x], p) == [];
    hide Without;
    WithoutSplit(a + [x], b, p);
    WithoutSplit(a, [x], p);
    WithoutSplit(a, b, p);
  }

  /** list_remove_all is list_remove iterated to its fixed point. */
  lemma {:induction false} RemoveAllIterates<T>(s: seq<T>, p: T -> bool)
    ensures RemoveWhileMatching(s, p) == Without(s, p)
    decreases |s|
  {
    hide Without, FirstMatch;
    var k := FirstMatch(s, p);
    if k < |s| {
      var a, x, b := s[..k], s[k], s[k + 1..];
      RemoveAllIterates(a + b, p);
      WithoutSkips(a, x, b, p);
      assert s == a + [x] + b;
    } else {
      NothingToDrop(s, p);
    }
  }

  /** Adding an element and removing it gives the list there was; adding one that does not match
      leaves what a removal does alone. */
  lemma AddThenRemove<T>(s: seq<T>, x: T, p: T -> bool)
    ensures WithoutFirst([x] + s, p) == if p(x) then s else [x] + WithoutFirst(s, p)
  {
    hide FirstMatch, WithoutFirst;
    var t, k := [x] + s, FirstMatch(s, p);
    if p(x) {
      FirstIs(t, 0, p);
      assert t[..0] + t[1..] == s;
    } else {
      FirstIs(s, k, p);
      FirstIs(t, k + 1, p);
      if k < |s| { assert t[..k + 1] + t[k + 2..] == [x] + (s[..k] + s[k + 1..]); }
    }
  }

  /** `r` is `s` with some elements left out: `f` gives their positions in `s`. */
  ghost predicate Subsequence<T(!new)>(r: seq<T>, s: seq<T>, f: int -> int) {
    && (forall i :: 0 <= i < |r| ==> 0 <= f(i) < |s| && r[i] == s[f(i)])
    && (forall i, j :: 0 <= i < j < |r| ==> f(i) < f(j))
  }

  lemma {:induction false} WithoutKeepsOrder<T(!new)>(s: seq<T>, p: T -> bool) returns (f: int -> int)
    ensures Subsequence(Without(s, p), s, f)
  {
    if s == [] {
      f := i => i;
    } else {
      var n := |s| - 1;
      var g := WithoutKeepsOrder(s[..n], p);
      var front := Without(s[..n], p);
      f := i => if i < |front| then g(i) else n;
      OneMorePosition(front, s, g, f, Without(s, p));
    }
  }

  lemma OneMorePosition<T(!new)>(front: seq<T>, s: seq<T>, g: int -> int, f: int -> int, r: seq<T>)
    requires s != [] && Subsequence(front, s[..|s| - 1], g) && (r == front || r == front + [s[|s| - 1]])
    requires forall i :: f(i) == if i < |front| then g(i) else |s| - 1
    ensures Subsequence(r, s, f)
  {
    forall i | 0 <= i < |r| ensures 0 <= f(i) < |s| && r[i] == s[f(i)]
    {
      if i < |front| { assert r[i] == front[i] == s[..|s| - 1][g(i)]; }
    }
  }
}
