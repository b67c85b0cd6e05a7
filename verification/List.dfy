/** src/list.c on the heap: singly linked cells, rewired and freed in place. */
module List {
  import opened Basics
  import opened ListSpec

  /** struct list. `data` is None when it is NULL. */
  class Cell {
    const data: Option<string>
    var next: Cell?

    constructor (data: Option<string>, next: Cell?)
      ensures this.data == data && this.next == next
    {
      this.data, this.next := data, next;
    }
  }

  type Criterion = Option<string> -> bool

  function Values(s: seq<Cell>): (v: seq<Option<string>>)
    ensures |v| == |s| && forall i :: 0 <= i < |s| ==> v[i] == s[i].data
  {
    seq(|s|, i requires 0 <= i < |s| => s[i].data)
  }

  function OnCell(p: Criterion): Cell -> bool {
    (c: Cell) => p(c.data)
  }

  /** What the callback `fn` answers on `data` and a cell's value. */
  function Like(data: string, fn: (string, Option<string>) -> bool): Criterion {
    (v: Option<string>) => fn(data, v)
  }

  lemma LikeCell(c: Cell, data: string, fn: (string, Option<string>) -> bool)
    ensures OnCell(Like(data, fn))(c) == fn(data, c.data)
  {
  }

  ghost predicate Distinct(s: seq<Cell>) {
    forall i, j :: 0 <= i < j < |s| ==> s[i] != s[j]
  }

  /** From `first`, the cells of `s` in order, and then `last`. */
  ghost predicate Chain(first: Cell?, s: seq<Cell>, last: Cell?)
    reads s
  {
    && first == (if s == [] then last else s[0])
    && (forall i {:trigger s[i]} :: 0 <= i < |s| ==> s[i].next == if i + 1 < |s| then s[i + 1] else last)
  }

  ghost predicate Linked(ll: Cell?, s: seq<Cell>)
    reads s
  {
    Distinct(s) && Chain(ll, s, null)
  }

  lemma HeadCell(first: Cell?, s: seq<Cell>)
    requires Linked(first, s)
    ensures first == (if s == [] then null else s[0]) && Distinct(s)
  {
  }

  lemma NotTheHead(first: Cell?, s: seq<Cell>, i: nat)
    requires Linked(first, s) && i < |s|
    ensures s[i] == first <==> i == 0
  {
  }

  lemma NextCell(first: Cell?, s: seq<Cell>, i: nat)
    requires Linked(first, s) && i < |s|
    ensures s[i].next == if i + 1 < |s| then s[i + 1] else null
  {
  }

  lemma TailLinked(first: Cell?, s: seq<Cell>)
    requires Linked(first, s) && s != []
    ensures Linked(s[0].next, s[1..])
  {
  }

  /** The cell before the i-th points past it. */
  ghost predicate Skips(first: Cell?, s: seq<Cell>, i: nat)
    requires 0 < i < |s|
    reads s
  {
    && first == s[0]
    && (forall k {:trigger s[k]} :: 0 <= k < |s| ==>
          s[k].next == if k == i - 1 then (if i + 1 < |s| then s[i + 1] else null)
                       else if k + 1 < |s| then s[k + 1] else null)
  }

  lemma Bypassed(first: Cell?, s: seq<Cell>, i: nat)
    requires 0 < i < |s| && Distinct(s) && Skips(first, s, i)
    ensures Linked(first, s[..i] + s[i + 1..])
  {
    var t := s[..i] + s[i + 1..];
    DistinctWithout(s, i);
    hide Distinct;
    forall k | 0 <= k < |t| ensures t[k].next == if k + 1 < |t| then t[k + 1] else null
    {
      assert t[k] == s[if k < i then k else k + 1];
    }
  }

  lemma DistinctWithout(s: seq<Cell>, i: nat)
    requires i < |s| && Distinct(s)
    ensures Distinct(s[..i] + s[i + 1..])
  {
  }

  lemma {:induction false} WithoutCells(s: seq<Cell>, p: Criterion)
    ensures Values(Without(s, OnCell(p))) == Without(Values(s), p)
  {
    if s != [] {
      WithoutCells(s[..|s| - 1], p);
      assert Values(s)[..|s| - 1] == Values(s[..|s| - 1]);
    }
  }

  lemma {:induction false} WithoutDistinct(s: seq<Cell>, p: Cell -> bool)
    requires Distinct(s)
    ensures Distinct(Without(s, p))
  {
    if s != [] {
      WithoutDistinct(s[..|s| - 1], p);
      WithoutMembers(s[..|s| - 1], p);
    }
  }

  lemma {:induction false} FirstMatchCells(s: seq<Cell>, p: Criterion)
    ensures FirstMatch(Values(s), p) == FirstMatch(s, OnCell(p))
  {
    if s != [] {
      assert Values(s)[1..] == Values(s[1..]);
      FirstMatchCells(s[1..], p);
    }
  }

  lemma WithoutFirstCells(s: seq<Cell>, p: Criterion)
    ensures Values(WithoutFirst(s, OnCell(p))) == WithoutFirst(Values(s), p)
  {
    FirstMatchCells(s, p);
  }

  ghost function Matching(s: seq<Cell>, p: Cell -> bool): set<Cell> {
    set c | c in s && p(c)
  }

  /** What list_filter and list_rfilter drop: src/list.c:143, 166, 174. */
  predicate Drops(fn: string -> bool, negate: bool, d: Option<string>) {
    d == None || fn(d.value) != negate
  }

  function Filter(fn: string -> bool, negate: bool): Criterion {
    (d: Option<string>) => Drops(fn, negate, d)
  }

  /** What one more element adds to what is kept. */
  function Kept(d: Option<string>, p: Criterion): multiset<Option<string>> {
    if p(d) then multiset{} else multiset{d}
  }

  lemma FilterCell(c: Cell, fn: string -> bool, negate: bool)
    ensures OnCell(Filter(fn, negate))(c) == Drops(fn, negate, c.data)
  {
  }

  lemma NothingLeft(s: seq<Cell>, p: Cell -> bool)
    requires s == []
    ensures Without(s, p) == s && Matching(s, p) == {}
  {
  }

  lemma WithoutLast(front: seq<Option<string>>, d: Option<string>, p: Criterion)
    ensures multiset(Without(front + [d], p)) == multiset(Without(front, p)) + Kept(d, p)
    ensures multiset(Without([], p)) == multiset{}
  {
    assert (front + [d])[..|front|] == front;
  }

  predicate IsNull(d: Option<string>) {
    d == None
  }

  /** list_filter and list_rfilter with one criterion share the cells that hold something between
      them, each cell going to exactly one of the two. */
  lemma {:induction false} FiltersComplement(v: seq<Option<string>>, fn: string -> bool)
    ensures multiset(Without(v, Filter(fn, false))) + multiset(Without(v, Filter(fn, true)))
            == multiset(Without(v, IsNull))
  {
    hide Without, Kept;
    if v == [] {
      WithoutLast([], None, Filter(fn, false));
      WithoutLast([], None, Filter(fn, true));
      WithoutLast([], None, IsNull);
    } else {
      var front, d := v[..|v| - 1], v[|v| - 1];
      FiltersComplement(front, fn);
      assert v == front + [d];
      WithoutLast(front, d, Filter(fn, false));
      WithoutLast(front, d, Filter(fn, true));
      WithoutLast(front, d, IsNull);
      OneOfTwo(d, fn);
    }
  }

  /** Which elements each of the two leaves, and how often: list_filter those that do not satisfy the
      criterion, list_rfilter those that do, neither a cell that holds nothing. */
  lemma {:induction false} FilterLeaves(v: seq<Option<string>>, fn: string -> bool, d: Option<string>)
    ensures multiset(Without(v, Filter(fn, false)))[d] == if d.Some? && !fn(d.value) then multiset(v)[d] else 0
    ensures multiset(Without(v, Filter(fn, true)))[d] == if d.Some? && fn(d.value) then multiset(v)[d] else 0
  {
    hide Without;
    if v == [] {
      WithoutLast([], None, Filter(fn, false));
      WithoutLast([], None, Filter(fn, true));
    } else {
      var front, last := v[..|v| - 1], v[|v| - 1];
      FilterLeaves(front, fn, d);
      assert v == front + [last];
      WithoutLast(front, last, Filter(fn, false));
      WithoutLast(front, last, Filter(fn, true));
    }
  }

  /** So it is with the cells. */
  lemma FilterCells(cells: seq<Cell>, fn: string -> bool)
    ensures forall c :: c in Without(cells, OnCell(Filter(fn, false))) <==>
              c in cells && c.data.Some? && !fn(c.data.value)
    ensures forall c :: c in Without(cells, OnCell(Filter(fn, true))) <==>
              c in cells && c.data.Some? && fn(c.data.value)
  {
    hide Without;
    WithoutMembers(cells, OnCell(Filter(fn, false)));
    WithoutMembers(cells, OnCell(Filter(fn, true)));
  }

  lemma OneOfTwo(d: Option<string>, fn: string -> bool)
    ensures Kept(d, Filter(fn, false)) + Kept(d, Filter(fn, true)) == Kept(d, IsNull)
  {
  }

  // ----- A sweep through the list that has come to the i-th cell -----

  /** What is kept of the first `i` cells, then the i-th and all that follow. */
  ghost predicate Swept(orig: Cell?, kept: seq<Cell>, ll: Cell?, rest: seq<Cell>)
    reads kept, rest
  {
    Chain(orig, kept, ll) && Chain(ll, rest, null)
  }

  lemma SweptHeads(orig: Cell?, kept: seq<Cell>, ll: Cell, rest: seq<Cell>)
    requires Swept(orig, kept, ll, rest) && rest != [] && rest[0] == ll
    ensures orig == (if kept == [] then ll else kept[0])
    ensures ll.next == if |rest| > 1 then rest[1] else null
  {
  }

  /** The cursors of list_remove_all. */
  ghost predicate Cursors(orig: Cell?, prev: Cell?, ll: Cell?, kept: seq<Cell>) {
    if kept == [] then orig == prev == ll else orig == kept[0] && prev == kept[|kept| - 1]
  }

  lemma CursorsLive(orig: Cell?, prev: Cell?, ll: Cell?, kept: seq<Cell>)
    requires Cursors(orig, prev, ll, kept) && ll != null
    ensures orig != null && prev != null && (prev == ll || prev in kept)
  {
  }

  lemma SweepStart(first: Cell?, s: seq<Cell>, p: Cell -> bool)
    requires Linked(first, s)
    ensures Without(s[..0], p) == [] && Matching(s[..0], p) == {}
    ensures Swept(first, [], first, s[0..]) && Cursors(first, first, first, [])
  {
    assert s[0..] == s;
  }

  lemma SweepEnd(orig: Cell?, s: seq<Cell>, p: Cell -> bool, ll: Cell?)
    requires Distinct(s) && Swept(orig, Without(s, p), ll, [])
    ensures Linked(orig, Without(s, p))
  {
    WithoutDistinct(s, p);
  }

  /** The i-th cell is not among those already kept or dropped, nor among those to come. */
  lemma SweepStep(s: seq<Cell>, p: Cell -> bool, i: nat)
    requires Distinct(s) && i < |s|
    ensures s[i] !in Without(s[..i], p) && s[i] !in Matching(s[..i], p) && s[i] !in s[i + 1..]
    ensures s[i..][0] == s[i] && s[i..][1..] == s[i + 1..]
    ensures Without(s[..i + 1], p) == Without(s[..i], p) + (if p(s[i]) then [] else [s[i]])
    ensures Matching(s[..i + 1], p) == Matching(s[..i], p) + (if p(s[i]) then {s[i]} else {})
    ensures forall c :: c in Without(s[..i], p) ==> c in s && c !in s[i..] && c !in Matching(s[..i], p)
    ensures Distinct(Without(s[..i], p))
  {
    WithoutMembers(s[..i], p);
    WithoutDistinct(s[..i], p);
    assert s[..i + 1][..i] == s[..i];
    assert s[..i + 1] == s[..i] + [s[i]];
  }

  /** The i-th cell is kept. */
  lemma SweepKeep(orig: Cell?, kept: seq<Cell>, ll: Cell, rest: seq<Cell>)
    requires rest != [] && rest[0] == ll && Swept(orig, kept, ll, rest)
    ensures Swept(orig, kept + [ll], ll.next, rest[1..])
  {
    var t := kept + [ll];
    forall k | 0 <= k < |t| ensures t[k].next == if k + 1 < |t| then t[k + 1] else ll.next
    {
      if k < |kept| { assert t[k] == kept[k]; }
    }
  }

  /** Where the cursor `prev` of __filter is when it comes to the i-th cell. */
  lemma FilterPrev(cells: seq<Cell>, p: Cell -> bool, i: nat, prev: Cell)
    requires Distinct(cells) && i < |cells|
    requires var kept := Without(cells[..i], p);
             prev == if kept == [] then cells[0] else kept[|kept| - 1]
    ensures prev in cells && prev !in cells[i + 1..]
    ensures p(cells[i]) ==> (prev in Matching(cells[..i], p) <==> i > 0 && Without(cells[..i], p) == [])
  {
    WithoutMembers(cells[..i], p);
    var kept := Without(cells[..i], p);
    assert i > 0 ==> cells[0] in cells[..i];
    assert kept != [] ==> prev in kept;
  }

  lemma FirstTwo(cells: seq<Cell>, p: Cell -> bool, i: nat)
    requires Distinct(cells) && i < |cells| && p(cells[i])
    ensures i > 0 && Without(cells[..i], p) == [] ==> |cells| > 1 && p(cells[0]) && p(cells[1])
    ensures i == 1 && p(cells[0]) ==> Without(cells[..i], p) == []
  {
    WithoutMembers(cells[..i], p);
    if i > 0 && Without(cells[..i], p) == [] {
      assert cells[0] in cells[..i];
      assert i > 1 ==> cells[1] in cells[..i];
    }
    if i == 1 {
      assert cells[..1] == [cells[0]];
      assert Without([cells[0]][..0], p) == [];
    }
  }

  /** What malloc(3) and free(3) know. A freed cell stays readable, and `faulted` is set by any
      access to one and by freeing it again. */
  class Heap {
    ghost var freed: set<Cell>
    ghost var faulted: bool

    constructor ()
      ensures freed == {} && !faulted
    {
      freed, faulted := {}, false;
    }

    method Next(c: Cell) returns (n: Cell?)
      modifies this`faulted
      ensures n == c.next && faulted == (old(faulted) || c in freed)
    {
      faulted := faulted || c in freed;
      n := c.next;
    }

    method Data(c: Cell) returns (d: Option<string>)
      modifies this`faulted
      ensures d == c.data && faulted == (old(faulted) || c in freed)
    {
      faulted := faulted || c in freed;
      d := c.data;
    }

    method SetNext(c: Cell, n: Cell?)
      modifies this`faulted, c`next
      ensures c.next == n && faulted == (old(faulted) || c in freed)
    {
      faulted := faulted || c in freed;
      c.next := n;
    }

    method Free(c: Cell)
      modifies this
      ensures freed == old(freed) + {c} && faulted == (old(faulted) || c in old(freed))
    {
      faulted := faulted || c in freed;
      freed := freed + {c};
    }

    /** list_add: src/list.c:15-29. */
    method Add(ll: Cell?, data: Option<string>, ghost cells: seq<Cell>) returns (n: Cell, ghost added: seq<Cell>)
      requires Linked(ll, cells)
      ensures fresh(n) && added == [n] + cells && Linked(n, added)
      ensures Values(added) == [data] + Values(cells)
    {
      n := new Cell(data, ll);
      added := [n] + cells;
      forall i | 0 <= i < |added| ensures added[i].next == if i + 1 < |added| then added[i + 1] else null
      {
        if i > 0 { assert added[i] == cells[i - 1]; }
      }
    }

    /** Takes the i-th cell out of the chain. */
    method Bypass(prev: Cell, next: Cell?, ghost first: Cell?, ghost cells: seq<Cell>, ghost i: nat)
      requires Linked(first, cells) && 0 < i < |cells| && prev == cells[i - 1] && next == cells[i].next
      requires !faulted && prev !in freed
      modifies this`faulted, prev`next
      ensures !faulted && Linked(first, cells[..i] + cells[i + 1..])
    {
      HeadCell(first, cells);
      SetNext(prev, next);
      Bypassed(first, cells, i);
    }

    /** Takes the i-th cell out and frees it: src/list.c:47-57. */
    method Detach(orig: Cell, prev: Cell, ll: Cell, next: Cell?, ghost cells: seq<Cell>, ghost i: nat)
      returns (r: Cell?)
      requires Linked(orig, cells) && i < |cells| && ll == cells[i] && next == ll.next
      requires i == 0 || prev == cells[i - 1]
      requires !faulted && prev !in freed && ll !in freed
      modifies this, prev`next
      ensures !faulted && freed == old(freed) + {cells[i]}
      ensures Linked(r, cells[..i] + cells[i + 1..])
    {
      hide Distinct, Chain;
      HeadCell(orig, cells);
      NotTheHead(orig, cells, i);
      if ll == orig {
        TailLinked(orig, cells);
        assert cells[..i] + cells[i + 1..] == cells[1..];
        r := next;
      } else {
        Bypass(prev, next, orig, cells, i);
        r := orig;
      }
      Free(ll);
    }

    /** list_remove: src/list.c:31-64. */
    method Remove(ll0: Cell?, data: Option<string>, fn: (string, Option<string>) -> bool, ghost cells: seq<Cell>)
      returns (r: Cell?, ghost left: seq<Cell>)
      requires Linked(ll0, cells) && !faulted && (forall c :: c in cells ==> c !in freed)
      modifies this, cells
      ensures !faulted && Linked(r, left)
      ensures data == None ==> left == cells && freed == old(freed)
      ensures data.Some? ==> var p := OnCell(Like(data.value, fn));
                             var k := FirstMatch(cells, p);
                             && left == WithoutFirst(cells, p)
                             && freed == old(freed) + (if k < |cells| then {cells[k]} else {})
    {
      hide FirstMatch, WithoutFirst, Distinct, Linked, OnCell, Like;
      left := cells;
      if data == None {
        return ll0, cells;
      }
      ghost var p := OnCell(Like(data.value, fn));
      HeadCell(ll0, cells);
      if ll0 == null {
        FirstIs(cells, 0, p);
        return null, cells;
      }
      var orig: Cell, prev: Cell, ll: Cell? := ll0, ll0, ll0;
      ghost var i := 0;
      while ll != null
        invariant 0 <= i <= |cells| && ll == if i < |cells| then cells[i] else null
        invariant prev in cells && (i == 0 || prev == cells[i - 1])
        invariant Linked(orig, cells) && !faulted && freed == old(freed)
        invariant forall k :: 0 <= k < i ==> !p(cells[k])
        decreases |cells| - i
      {
        var d := Data(ll);
        var next := Next(ll);
        NextCell(orig, cells, i);
        LikeCell(ll, data.value, fn);
        if fn(data.value, d) {
          FirstIs(cells, i, p);
          left := cells[..i] + cells[i + 1..];
          r := Detach(orig, prev, ll, next, cells, i);
          return;
        }
        prev := ll;
        ll := next;
        i := i + 1;
      }
      FirstIs(cells, |cells|, p);
      r := orig;
    }

    /** list_add and then list_remove: if the callback takes the new element for the one to remove,
        the very cells that were there are left, and only the new one is freed; if not, list_remove
        does what it would have done without it. */
    method AddThenRemove(ll: Cell?, x: Option<string>, data: string, fn: (string, Option<string>) -> bool,
                         ghost cells: seq<Cell>)
      returns (r: Cell?, ghost left: seq<Cell>)
      requires Linked(ll, cells) && !faulted && (forall c :: c in cells ==> c !in freed)
      modifies this, cells
      ensures !faulted && Linked(r, left)
      ensures Values(left) == if fn(data, x) then Values(cells) else [x] + WithoutFirst(Values(cells), Like(data, fn))
      ensures fn(data, x) ==> left == cells && fresh(freed - old(freed))
    {
      hide Distinct, Chain, WithoutFirst, FirstMatch;
      var n;
      ghost var added;
      n, added := Add(ll, x, cells);
      ghost var p := OnCell(Like(data, fn));
      WithoutFirstCells(added, Like(data, fn));
      ListSpec.AddThenRemove(Values(cells), x, Like(data, fn));
      ListSpec.AddThenRemove(cells, n, p);
      assert n !in freed;
      r, left := Remove(n, Some(data), fn, added);
      if fn(data, x) {
        assert p(added[0]);
        assert FirstMatch(added, p) == 0;
      }
    }

    /** The cell after the last one kept is freed and bypassed: src/list.c:88-92. */
    method DropAfter(prev: Cell, ll: Cell, next: Cell?, ghost orig: Cell?, ghost kept: seq<Cell>, ghost rest: seq<Cell>)
      requires Swept(orig, kept, ll, rest) && rest != [] && rest[0] == ll && next == ll.next
      requires kept != [] && prev == kept[|kept| - 1] && Distinct(kept) && prev !in rest[1..] && ll != prev
      requires !faulted && prev !in freed && ll !in freed
      modifies this, prev`next
      ensures !faulted && freed == old(freed) + {ll}
      ensures Swept(orig, kept, next, rest[1..])
    {
      Free(ll);
      SetNext(prev, next);
    }

    method DropFirst(ll: Cell, next: Cell?, ghost kept: seq<Cell>, ghost rest: seq<Cell>)
      requires Swept(ll, kept, ll, rest) && rest != [] && rest[0] == ll && next == ll.next && kept == []
      requires !faulted && ll !in freed
      modifies this
      ensures !faulted && freed == old(freed) + {ll}
      ensures Swept(next, kept, next, rest[1..])
    {
      Free(ll);
    }

    /** That turn, for the cells kept so far and the ones to come. */
    method RemoveTurn(orig0: Cell, prev0: Cell, ll0: Cell, data: string, fn: (string, Option<string>) -> bool,
                      ghost kept: seq<Cell>, ghost rest: seq<Cell>)
      returns (orig: Cell?, prev: Cell?, ll: Cell?)
      requires Swept(orig0, kept, ll0, rest) && Cursors(orig0, prev0, ll0, kept)
      requires rest != [] && rest[0] == ll0 && ll0 !in kept && Distinct(kept)
      requires forall c :: c in kept ==> c !in rest
      requires !faulted && ll0 !in freed && (forall c :: c in kept ==> c !in freed)
      modifies this, prev0`next
      ensures !faulted && freed == old(freed) + (if fn(data, ll0.data) then {ll0} else {})
      ensures var now := kept + (if fn(data, ll0.data) then [] else [ll0]);
              Swept(orig, now, ll, rest[1..]) && Cursors(orig, prev, ll, now)
      ensures ll == if |rest| > 1 then rest[1] else null
    {
      orig, prev := orig0, prev0;
      var d := Data(ll0);
      var next := Next(ll0);
      if fn(data, d) {
        assert kept + [] == kept;
        if orig == ll0 {
          DropFirst(ll0, next, kept, rest);
          orig, prev := next, next;
        } else {
          assert prev0 in kept && forall c :: c in rest[1..] ==> c in rest;
          DropAfter(prev0, ll0, next, orig0, kept, rest);
        }
      } else {
        SweepKeep(orig0, kept, ll0, rest);
        prev := ll0;
      }
      ll := next;
    }

    /** list_remove_all has come to the i-th cell; `was` are the cells freed before it began. */
    ghost predicate Sweeping(orig: Cell?, prev: Cell?, ll: Cell?, cells: seq<Cell>, p: Cell -> bool, i: nat,
                             was: set<Cell>)
      requires i <= |cells|
      reads this, cells, Without(cells[..i], p)
    {
      var kept := Without(cells[..i], p);
      && ll == (if i < |cells| then cells[i] else null)
      && Swept(orig, kept, ll, cells[i..]) && Cursors(orig, prev, ll, kept)
      && !faulted && freed == was + Matching(cells[..i], p)
    }

    /** One turn of the loop of list_remove_all: src/list.c:80-98. */
    method SweepTurn(orig0: Cell?, prev0: Cell?, ll0: Cell, data: string, fn: (string, Option<string>) -> bool,
                     ghost cells: seq<Cell>, ghost p: Cell -> bool, ghost i: nat, ghost was: set<Cell>)
      returns (orig: Cell?, prev: Cell?, ll: Cell?)
      requires i < |cells| && Distinct(cells) && (forall c :: c in cells ==> c !in was)
      requires Sweeping(orig0, prev0, ll0, cells, p, i, was) && p(ll0) == fn(data, ll0.data)
      modifies this, cells
      ensures Sweeping(orig, prev, ll, cells, p, i + 1, was)
      ensures ll == if i + 1 < |cells| then cells[i + 1] else null
    {
      hide Without, Chain, Matching, Distinct, Swept, Cursors;
      ghost var kept := Without(cells[..i], p);
      SweepStep(cells, p, i);
      CursorsLive(orig0, prev0, ll0, kept);
      assert prev0 in cells;
      orig, prev, ll := RemoveTurn(orig0, prev0, ll0, data, fn, kept, cells[i..]);
    }

    /** list_remove_all: src/list.c:66-107. The loop ends with `ll` NULL, so lines 100-104 do nothing. */
    method RemoveAll(ll0: Cell?, data: Option<string>, fn: (string, Option<string>) -> bool, ghost cells: seq<Cell>)
      returns (r: Cell?, ghost left: seq<Cell>)
      requires Linked(ll0, cells) && !faulted && (forall c :: c in cells ==> c !in freed)
      modifies this, cells
      ensures !faulted && Linked(r, left)
      ensures data == None ==> left == cells && freed == old(freed)
      ensures data.Some? ==> var p := OnCell(Like(data.value, fn));
                             left == Without(cells, p) && freed == old(freed) + Matching(cells, p)
    {
      left := cells;
      if data == None {
        return ll0, cells;
      }
      ghost var p := OnCell(Like(data.value, fn));
      HeadCell(ll0, cells);
      SweepStart(ll0, cells, p);
      var orig, prev, ll := ll0, ll0, ll0;
      ghost var i := 0;
      assert Sweeping(orig, prev, ll, cells, p, i, old(freed));
      hide Sweeping, Without, Chain, Matching, Distinct;
      while ll != null
        invariant 0 <= i <= |cells| && ll == if i < |cells| then cells[i] else null
        invariant Sweeping(orig, prev, ll, cells, p, i, old(freed))
        decreases |cells| - i
      {
        orig, prev, ll := SweepTurn(orig, prev, ll, data.value, fn, cells, p, i, old(freed));
        i := i + 1;
      }
      r := orig;
      left := Without(cells, p);
      SweepDone(orig, prev, ll, cells, p, old(freed));
    }

    lemma SweepDone(orig: Cell?, prev: Cell?, ll: Cell?, cells: seq<Cell>, p: Cell -> bool, was: set<Cell>)
      requires Distinct(cells) && Sweeping(orig, prev, ll, cells, p, |cells|, was)
      ensures Linked(orig, Without(cells, p)) && !faulted && freed == was + Matching(cells, p)
    {
      assert cells[..|cells|] == cells && cells[|cells|..] == [];
      SweepEnd(orig, cells, p, ll);
    }

    /** A cell is bypassed by the cursor, which may be that cell itself or one already freed. */
    method Unhook(prev: Cell, ll: Cell, next: Cell?, ghost orig: Cell?, ghost kept: seq<Cell>, ghost rest: seq<Cell>)
      requires Swept(orig, kept, ll, rest) && rest != [] && rest[0] == ll && next == ll.next && Distinct(kept)
      requires prev !in rest[1..] && (kept != [] ==> prev == kept[|kept| - 1])
      modifies this`faulted, prev`next
      ensures faulted == (old(faulted) || prev in freed) && prev.next == next
      ensures Swept(if kept == [] then next else orig, kept, next, rest[1..])
    {
      SetNext(prev, next);
    }

    /** One turn of the loop of __filter: src/list.c:142-156. */
    method FilterTurn(orig0: Cell?, prev0: Cell, ll0: Cell, fn: string -> bool, negate: bool,
                      ghost kept: seq<Cell>, ghost rest: seq<Cell>)
      returns (orig: Cell?, prev: Cell, ll: Cell?)
      requires Swept(orig0, kept, ll0, rest) && rest != [] && rest[0] == ll0 && Distinct(kept)
      requires prev0 !in rest[1..] && ll0 !in rest[1..] && ll0 !in kept
      requires (forall c :: c in kept ==> c !in freed && c !in rest)
      requires kept != [] ==> prev0 == kept[|kept| - 1]
      requires ll0 !in freed
      modifies this, prev0`next
      ensures var drops := Drops(fn, negate, ll0.data);
              && freed == old(freed) + (if drops then {ll0} else {})
              && faulted == (old(faulted) || (drops && prev0 in old(freed)))
              && prev == (if drops then prev0 else ll0)
              && Swept(orig, kept + (if drops then [] else [ll0]), ll, rest[1..])
      ensures ll == if |rest| > 1 then rest[1] else null
    {
      hide Swept, Chain, Distinct, Drops;
      orig, prev := orig0, prev0;
      SweptHeads(orig0, kept, ll0, rest);
      var d := Data(ll0);
      if Drops(fn, negate, d) {
        assert kept + [] == kept;
        if ll0 == orig {
          orig := Next(ll0);
        }
        var next := Next(ll0);
        Unhook(prev, ll0, next, orig0, kept, rest);
        ll := Next(prev);
        Free(ll0);
      } else {
        SweepKeep(orig0, kept, ll0, rest);
        prev := ll0;
        ll := Next(ll0);
      }
    }

    /** __filter has come to the i-th cell. The cursor `prev` stays on the first cell until one is
        kept, whether that cell is freed or not. */
    ghost predicate Filtering(orig: Cell?, prev: Cell, ll: Cell?, cells: seq<Cell>, p: Cell -> bool, i: nat,
                              was: set<Cell>, bad: bool)
      requires 0 < |cells| && i <= |cells|
      reads this, cells, Without(cells[..i], p)
    {
      var kept := Without(cells[..i], p);
      && Swept(orig, kept, ll, cells[i..])
      && prev == (if kept == [] then cells[0] else kept[|kept| - 1])
      && freed == was + Matching(cells[..i], p)
      && faulted == (bad || (i > 1 && p(cells[0]) && p(cells[1])))
    }

    method FilterStepTurn(orig0: Cell?, prev0: Cell, ll0: Cell, fn: string -> bool, negate: bool,
                          ghost cells: seq<Cell>, ghost p: Cell -> bool, ghost i: nat, ghost was: set<Cell>,
                            ghost bad: bool)
      returns (orig: Cell?, prev: Cell, ll: Cell?)
      requires i < |cells| && Distinct(cells) && (forall c :: c in cells ==> c !in was)
      requires ll0 == cells[i] && p(ll0) == Drops(fn, negate, ll0.data)
      requires Filtering(orig0, prev0, ll0, cells, p, i, was, bad)
      modifies this, cells
      ensures Filtering(orig, prev, ll, cells, p, i + 1, was, bad)
      ensures ll == if i + 1 < |cells| then cells[i + 1] else null
    {
      hide Without, Chain, Matching, Distinct, Swept;
      ghost var kept := Without(cells[..i], p);
      SweepStep(cells, p, i);
      FilterPrev(cells, p, i, prev0);
      if p(ll0) { FirstTwo(cells, p, i); }
      assert kept + [] == kept;
      orig, prev, ll := FilterTurn(orig0, prev0, ll0, fn, negate, kept, cells[i..]);
    }

    /** __filter: src/list.c:135-159. The cells kept are the right ones in the right order. A freed
        cell is accessed exactly when the first two cells are both dropped. */
    method FilterList(ll0: Cell?, fn: string -> bool, negate: bool, ghost cells: seq<Cell>)
      returns (r: Cell?, ghost left: seq<Cell>)
      requires Linked(ll0, cells) && !faulted && (forall c :: c in cells ==> c !in freed)
      modifies this, cells
      ensures var p := OnCell(Filter(fn, negate));
              && left == Without(cells, p) && Linked(r, left)
              && freed == old(freed) + Matching(cells, p)
              && (faulted <==> |cells| > 1 && p(cells[0]) && p(cells[1]))
    {
      hide Filtering, Without, Linked, Matching, Distinct, OnCell, Filter, Drops;
      ghost var p := OnCell(Filter(fn, negate));
      left := Without(cells, p);
      HeadCell(ll0, cells);
      if ll0 == null {
        NothingLeft(cells, p);
        return null, left;
      }
      FilterStart(ll0, cells, p);
      var orig: Cell?, prev: Cell, ll: Cell? := ll0, ll0, ll0;
      ghost var i := 0;
      while ll != null
        invariant 0 <= i <= |cells| && ll == if i < |cells| then cells[i] else null
        invariant Filtering(orig, prev, ll, cells, p, i, old(freed), false)
        decreases |cells| - i
      {
        FilterCell(ll, fn, negate);
        orig, prev, ll := FilterStepTurn(orig, prev, ll, fn, negate, cells, p, i, old(freed), false);
        i := i + 1;
      }
      FilterDone(orig, prev, ll, cells, p, old(freed), false);
      r := orig;
    }

    /** list_filter: src/list.c:161-167. */
    method ListFilter(ll: Cell?, fn: string -> bool, ghost cells: seq<Cell>) returns (r: Cell?, ghost left: seq<Cell>)
      requires Linked(ll, cells) && !faulted && (forall c :: c in cells ==> c !in freed)
      modifies this, cells
      ensures Linked(r, left) && left == Without(cells, OnCell(Filter(fn, false)))
      ensures forall c :: c in left <==> c in cells && c.data.Some? && !fn(c.data.value)
      ensures freed == old(freed) + set c | c in cells && (c.data.None? || fn(c.data.value))
      ensures faulted <==> |cells| > 1 && (forall k :: 0 <= k < 2 ==> cells[k].data.None? || fn(cells[k].data.value))
    {
      hide Linked, Without;
      r, left := FilterList(ll, fn, false, cells);
      FilterCells(cells, fn);
    }

    /** list_rfilter: src/list.c:169-175. */
    method ListRfilter(ll: Cell?, fn: string -> bool, ghost cells: seq<Cell>) returns (r: Cell?, ghost left: seq<Cell>)
      requires Linked(ll, cells) && !faulted && (forall c :: c in cells ==> c !in freed)
      modifies this, cells
      ensures Linked(r, left) && left == Without(cells, OnCell(Filter(fn, true)))
      ensures forall c :: c in left <==> c in cells && c.data.Some? && fn(c.data.value)
      ensures freed == old(freed) + set c | c in cells && (c.data.None? || !fn(c.data.value))
      ensures faulted <==> |cells| > 1 && (forall k :: 0 <= k < 2 ==> cells[k].data.None? || !fn(cells[k].data.value))
    {
      hide Linked, Without;
      r, left := FilterList(ll, fn, true, cells);
      FilterCells(cells, fn);
    }

    lemma FilterStart(ll: Cell, cells: seq<Cell>, p: Cell -> bool)
      requires Linked(ll, cells)
      ensures cells != [] && Distinct(cells) && Filtering(ll, ll, ll, cells, p, 0, freed, faulted)
    {
      SweepStart(ll, cells, p);
    }

    lemma FilterDone(orig: Cell?, prev: Cell, ll: Cell?, cells: seq<Cell>, p: Cell -> bool, was: set<Cell>, bad: bool)
      requires cells != [] && Distinct(cells) && Filtering(orig, prev, ll, cells, p, |cells|, was, bad)
      ensures Linked(orig, Without(cells, p)) && freed == was + Matching(cells, p)
      ensures faulted == (bad || (|cells| > 1 && p(cells[0]) && p(cells[1])))
    {
      assert cells[..|cells|] == cells && cells[|cells|..] == [];
      SweepEnd(orig, cells, p, ll);
    }
  }
}
