/** Why the names must stay in their buffers: a rename that overwrites them can destroy a file, even
    with a store that does everything it is asked. */
module RenameLoss {
  import opened Basics
  import opened TmpStr
  import opened RemoteTree
  import opened RenameSpec
  import opened RenameRun
  import opened RenameSafe

  ghost predicate AlwaysFine(e: Env) {
    forall i :: e.sched(i).Fine?
  }

  /** It failed, changed nothing in the tree and drew `d` buffers. */
  ghost predicate StaysPut(w: World, u: World, d: nat) {
    u.tree == w.tree && Grew(w, u) && |u.log| == |w.log| + d
  }

  /** A file that cannot be copied. */
  lemma StuckEntry(e: Env, w: World, from: Ref, to: Ref, x: Name, wasDir: bool, stack: nat, o: TreePath, n: TreePath,
                   upto: nat)
    requires AlwaysFine(e) && Reads(w.log, from, o, upto) && Reads(w.log, to, n, upto) && |w.log| + 2 <= upto
    requires IsFile(w.tree, o + [x]) && !CanCopy(w.tree, o + [x], n + [x])
    ensures var out := EntryRun(e, w, from, to, x, wasDir, stack);
            && out.ret == -1 && !out.isDir && !out.abort && !out.crash && StaysPut(w, out.w, 2)
            && out.w.log == w.log + [o + [x], n + [x]]
  {
    hide Reads, At, DirRun;
    NamesDrawn(w, from, to, x, o, n, upto);
    EntrySteps(e, w, from, to, x, wasDir, stack);
    var w1, w2 := Draw(w, At(w, from) + [x]), Drawn(w, from, to, x);
    SameReading(w2, Asked(w2), Last(w1));
    SameReading(w2, Asked(w2), Last(w2));
    assert e.sched(w2.tick).Fine? && e.sched(w2.tick + 1).Fine?;
  }

  /** Entries that are stuck, one after the other. */
  lemma {:induction false} StuckEntries(e: Env, w: World, from: Ref, to: Ref, names: seq<Name>, i: nat, m: nat,
                                        ret: int, isDir: bool, stack: nat, o: TreePath, n: TreePath, upto: nat)
    returns (u: World, ret': int, isDir': bool)
    requires AlwaysFine(e) && Reads(w.log, from, o, upto) && Reads(w.log, to, n, upto)
    requires i <= m <= |names| && |w.log| + 2 * (m - i) <= upto
    requires forall k :: i <= k < m ==>
              !Dotted(names[k]) && IsFile(w.tree, o + [names[k]]) && !CanCopy(w.tree, o + [names[k]], n + [names[k]])
    ensures StaysPut(w, u, 2 * (m - i))
    ensures LoopRun(e, w, from, to, names, i, ret, isDir, stack) == LoopRun(e, u, from, to, names, m, ret', isDir',
                                                                            stack)
    decreases m - i
  {
    hide Reads, EntryRun, CanCopy, IsFile;
    u, ret', isDir' := w, ret, isDir;
    if i < m {
      assert e.sched(w.tick).Fine?;
      var w1 := Asked(w);
      StuckEntry(e, w1, from, to, names[i], isDir, stack, o, n, upto);
      var out := EntryRun(e, w1, from, to, names[i], isDir, stack);
      ReadsLater(w.log, out.w.log, from, o, upto);
      ReadsLater(w.log, out.w.log, to, n, upto);
      u, ret', isDir' := StuckEntries(e, out.w, from, to, names, i + 1, m, out.ret, out.isDir, stack, o, n, upto);
    }
  }

  /** A directory is listed when its new one is there already. */
  lemma DirOpens(e: Env, w: World, from: Ref, to: Ref, stack: nat, p: TreePath, q: TreePath)
    requires AlwaysFine(e) && At(w, from) == p && At(w, to) == q && IsDir(w.tree, p) && q in w.tree && stack > 0
    ensures var v := w.(tick := w.tick + 3);
            var moved := LoopRun(e, v, from, to, e.order(w.tree, p), 0, 0, e.garbage(v.tick), stack - 1);
            && Grew(moved.w, DirRun(e, w, from, to, stack).w)
            && (moved.abort || moved.crash || moved.ret == -1 ==>
                 DirRun(e, w, from, to, stack) == Out(moved.w, moved.ret, moved.crash))
  {
    hide LoopRun, DirRun, Rmdir;
    assert e.sched(w.tick).Fine? && e.sched(w.tick + 1).Fine? && e.sched(w.tick + 2).Fine?;
    SameReading(w, Asked(w), from);
    hide At;
    DirSteps(e, w, from, to, stack);
  }

  /** A directory with one entry that is stuck. */
  lemma StuckDir(e: Env, w: World, from: Ref, to: Ref, stack: nat, p: TreePath, q: TreePath, x: Name, d: nat)
    requires AlwaysFine(e) && At(w, from) == p && At(w, to) == q && IsDir(w.tree, p) && q in w.tree && stack > 0
    requires e.order(w.tree, p) == [x] && !Dotted(x)
    requires var v := w.(tick := w.tick + 4);
             var out := EntryRun(e, v, from, to, x, e.garbage(w.tick + 3), stack - 1);
             out.ret == -1 && !out.abort && !out.crash && StaysPut(v, out.w, d)
    ensures var out := DirRun(e, w, from, to, stack);
            && out.ret == -1 && !out.crash && StaysPut(w, out.w, d)
            && out.w.log == EntryRun(e, w.(tick := w.tick + 4), from, to, x, e.garbage(w.tick + 3), stack - 1).w.log
  {
    hide At, DirRun, EntryRun;
    DirOpens(e, w, from, to, stack, p, q);
    assert e.sched(w.tick + 3).Fine?;
    var v := w.(tick := w.tick + 3);
    assert Asked(v) == w.(tick := w.tick + 4);
    var out := EntryRun(e, Asked(v), from, to, x, e.garbage(v.tick), stack - 1);
    OneTurn(e, v, from, to, [x], 0, 0, e.garbage(v.tick), stack - 1);
    LoopOver(e, out.w, from, to, [x], out.ret, out.isDir, stack - 1);
  }

  lemma OneTurn(e: Env, w: World, from: Ref, to: Ref, names: seq<Name>, i: nat, ret: int, isDir: bool, stack: nat)
    requires i < |names| && !Dotted(names[i]) && e.sched(w.tick).Fine?
    ensures var out := EntryRun(e, Asked(w), from, to, names[i], isDir, stack);
            LoopRun(e, w, from, to, names, i, ret, isDir, stack) ==
              if out.abort || out.crash then out
                else LoopRun(e, out.w, from, to, names, i + 1, out.ret, out.isDir, stack)
  {
    hide EntryRun;
  }

  lemma LoopOver(e: Env, w: World, from: Ref, to: Ref, names: seq<Name>, ret: int, isDir: bool, stack: nat)
    ensures LoopRun(e, w, from, to, names, |names|, ret, isDir, stack) == EntryOut(w, ret, isDir, false, false)
  {
  }

  /** Two names that have just been drawn. */
  lemma JustDrawn(w: World, p: TreePath, q: TreePath)
    ensures var w1, w2 := Draw(w, p), Draw(Draw(w, p), q);
            && At(w2, Last(w1)) == p && At(w2, Last(w2)) == q
            && Reads(w2.log, Last(w1), p, |w2.log| + 30) && Reads(w2.log, Last(w2), q, |w2.log| + 30)
  {
    hide Reads, At;
    var w1, w2 := Draw(w, p), Draw(Draw(w, p), q);
    ReadsLast(w, p, w2.log);
    ReadsLast(w1, q, w2.log);
    ReadsLess(w2.log, Last(w1), p, |w.log| + TMPSTR_NB, |w2.log| + 30);
    ReadsLess(w2.log, Last(w2), q, |w1.log| + TMPSTR_NB, |w2.log| + 30);
    ReadsNow(w2, Last(w1), p, |w2.log| + 30);
    ReadsNow(w2, Last(w2), q, |w2.log| + 30);
  }

  /** An entry that is a directory and stays put. */
  lemma StuckDirEntry(e: Env, w: World, from: Ref, to: Ref, x: Name, wasDir: bool, stack: nat, o: TreePath,
                      n: TreePath, d: nat)
    requires AlwaysFine(e) && At(w, from) == o && At(Draw(w, o + [x]), to) == n && IsDir(w.tree, o + [x])
    requires var w1 := Draw(w, o + [x]);
             var w2 := Draw(w1, n + [x]);
             var out := DirRun(e, Asked(w2), Last(w1), Last(w2), stack);
             out.ret == -1 && !out.crash && StaysPut(Asked(w2), out.w, d)
    ensures var out := EntryRun(e, w, from, to, x, wasDir, stack);
            && out.ret == -1 && !out.abort && !out.crash && StaysPut(w, out.w, d + 2)
            && w.log + [o + [x], n + [x]] <= out.w.log
            && out.w == DirRun(e, Asked(Draw(Draw(w, o + [x]), n + [x])), Last(Draw(w, o + [x])),
                               Last(Draw(Draw(w, o + [x]), n + [x])), stack).w
  {
    hide At, DirRun, FileRun, Reads;
    EntrySteps(e, w, from, to, x, wasDir, stack);
    JustDrawn(w, o + [x], n + [x]);
    var w2 := Draw(Draw(w, o + [x]), n + [x]);
    assert e.sched(w2.tick).Fine?;
    assert w2.log == w.log + [o + [x], n + [x]];
  }

  /** A directory that holds one directory that holds one file, which cannot be copied. */
  lemma StuckNest(e: Env, w: World, from: Ref, to: Ref, y: Name, z: Name, x: Name, wasDir: bool, stack: nat,
                  o: TreePath, n: TreePath)
    requires AlwaysFine(e) && At(w, from) == o && At(Draw(w, o + [y]), to) == n && stack > 1 && !Dotted(z) && !Dotted(x)
    requires IsDir(w.tree, o + [y]) && n + [y] in w.tree && e.order(w.tree, o + [y]) == [z]
    requires IsDir(w.tree, o + [y] + [z]) && n + [y] + [z] in w.tree && e.order(w.tree, o + [y] + [z]) == [x]
    requires IsFile(w.tree, o + [y] + [z] + [x]) && !CanCopy(w.tree, o + [y] + [z] + [x], n + [y] + [z] + [x])
    ensures var out := EntryRun(e, w, from, to, y, wasDir, stack);
            && out.ret == -1 && !out.abort && !out.crash && StaysPut(w, out.w, 6)
            && w.log + [o + [y], n + [y], o + [y] + [z]] <= out.w.log
  {
    hide At, DirRun, EntryRun, Reads, CanCopy;
    var p, q := o + [y], n + [y];
    var a1, a2 := Draw(w, p), Draw(Draw(w, p), q);
    JustDrawn(w, p, q);
    var a := Asked(a2).(tick := Asked(a2).tick + 4);
    SameReading(a2, Asked(a2), Last(a1));
    SameReading(a2, Asked(a2), Last(a2));
    SameReading(a2, a, Last(a1));
    var b1, b2 := Draw(a, p + [z]), Draw(Draw(a, p + [z]), q + [z]);
    ReadsLater(a.log, b1.log, Last(a2), q, |a2.log| + 30);
    ReadsNow(b1, Last(a2), q, |a2.log| + 30);
    JustDrawn(a, p + [z], q + [z]);
    var b := Asked(b2).(tick := Asked(b2).tick + 4);
    SameReading(b2, Asked(b2), Last(b1));
    SameReading(b2, Asked(b2), Last(b2));
    StuckEntry(e, b, Last(b1), Last(b2), x, e.garbage(b.tick - 1), stack - 2, p + [z], q + [z], |b2.log| + 30);
    StuckDir(e, Asked(b2), Last(b1), Last(b2), stack - 1, p + [z], q + [z], x, 2);
    StuckDirEntry(e, a, Last(a1), Last(a2), z, e.garbage(a.tick - 1), stack - 1, p, q, 2);
    StuckDir(e, Asked(a2), Last(a1), Last(a2), stack, p, q, z, 4);
    StuckDirEntry(e, w, from, to, y, wasDir, stack, o, n, 4);
    assert a.log + [p + [z]] <= a.log + [p + [z], q + [z]];
  }

  /** The tree after a file has moved. */
  function Moved(t: Tree, src: TreePath, dst: TreePath): Tree
    requires src in t
  {
    t[dst := t[src]] - {src}
  }

  lemma MovedEntry(e: Env, w: World, from: Ref, to: Ref, x: Name, wasDir: bool, stack: nat, o: TreePath, n: TreePath,
                   upto: nat)
    requires AlwaysFine(e) && Reads(w.log, from, o, upto) && Reads(w.log, to, n, upto) && |w.log| + 2 <= upto
    requires CanCopy(w.tree, o + [x], n + [x]) && o + [x] != n + [x]
    ensures var out := EntryRun(e, w, from, to, x, wasDir, stack);
            && !out.isDir && !out.abort && !out.crash && out.w.tree == Moved(w.tree, o + [x], n + [x])
            && Grew(w, out.w) && |out.w.log| == |w.log| + 3
  {
    hide Reads, At, DirRun;
    NamesDrawn(w, from, to, x, o, n, upto);
    EntrySteps(e, w, from, to, x, wasDir, stack);
    var w1, w2 := Draw(w, At(w, from) + [x]), Drawn(w, from, to, x);
    SameReading(w2, Asked(w2), Last(w1));
    SameReading(w2, Asked(w2), Last(w2));
    SameReading(w2, Called(Asked(w2), w2.tree[n + [x] := w2.tree[o + [x]]]), Last(w1));
    assert e.sched(w2.tick).Fine? && e.sched(w2.tick + 1).Fine? && e.sched(w2.tick + 2).Fine?;
  }

  /** Bases that read as something else: the file copied is another one, and so is the place. */
  lemma WrongCopy(e: Env, w: World, from: Ref, to: Ref, x: Name, wasDir: bool, stack: nat, s: TreePath, d: TreePath)
    requires AlwaysFine(e) && At(w, from) == s && At(Draw(w, s + [x]), to) == d && CanCopy(w.tree, s + [x], d + [x])
    ensures var out := EntryRun(e, w, from, to, x, wasDir, stack);
            w.trace + [w.tree[d + [x] := w.tree[s + [x]]]] <= out.w.trace
  {
    hide At, DirRun, UnlinkRun;
    EntrySteps(e, w, from, to, x, wasDir, stack);
    JustDrawn(w, s + [x], d + [x]);
    var w1, w2 := Draw(w, s + [x]), Draw(Draw(w, s + [x]), d + [x]);
    SameReading(w2, Asked(w2), Last(w1));
    SameReading(w2, Asked(w2), Last(w2));
    assert e.sched(w2.tick).Fine? && e.sched(w2.tick + 1).Fine?;
    var w3 := Called(Asked(w2), w2.tree[d + [x] := w2.tree[s + [x]]]);
    UnlinkGrows(e, w3, At(w3, Last(w1)));
  }

  lemma UnlinkGrows(e: Env, w: World, p: TreePath)
    ensures Grew(w, UnlinkRun(e, w, p).w)
  {
  }

  // ----- The tree -----

  /** The first name of `f` can be moved. The next thirteen cannot, because the new tree has
      directories there. Of the last two, y and x, y has a directory z that cannot be moved, because
      the new tree has a file there; and x is a name in the old z and in the new y. */
  ghost predicate Trap(t: Tree, o: TreePath, n: TreePath, f: seq<Name>, z: Name) {
    && |f| == 16 && (forall i, j :: 0 <= i < j < 16 ==> f[i] != f[j])
       && (forall i :: 0 <= i < 16 ==> !Dotted(f[i])) && !Dotted(z)
    && IsDir(t, o) && IsDir(t, n)
    && (forall i {:trigger f[i]} :: 1 <= i < 14 ==> IsFile(t, o + [f[i]]) && IsDir(t, n + [f[i]]))
    && Nest(t, o, n, f[14], z, f[15])
  }

  ghost predicate Nest(t: Tree, o: TreePath, n: TreePath, y: Name, z: Name, x: Name) {
    && IsDir(t, o + [y]) && IsDir(t, n + [y]) && IsDir(t, o + [y] + [z]) && IsFile(t, n + [y] + [z])
    && IsFile(t, o + [y] + [z] + [x]) && n + [y] + [z] + [x] !in t
    && IsFile(t, n + [y] + [x]) && t[n + [y] + [x]] != t[o + [y] + [z] + [x]]
  }

  lemma NestHas(t: Tree, o: TreePath, n: TreePath, y: Name, z: Name, x: Name)
    requires Nest(t, o, n, y, z, x)
    ensures o + [y] + [z] + [x] in t && IsFile(t, o + [y] + [z] + [x])
  {
  }

  lemma MovedElsewhere(t: Tree, o: TreePath, n: TreePath, g: Name, h: Name, q: TreePath)
    requires Disjoint(o, n) && g != h && o + [g] in t && (Under(o + [h], q) || Under(n + [h], q))
    ensures Lookup(Moved(t, o + [g], n + [g]), q) == Lookup(t, q)
  {
    UnderChild(o, h, q);
    UnderChild(n, h, q);
    UnderChild(o, g, o + [g]);
    UnderChild(n, g, n + [g]);
    if q == o + [g] || q == n + [g] { UnderBoth(o, n, q); }
  }

  lemma NestKept(t: Tree, o: TreePath, n: TreePath, g: Name, y: Name, z: Name, x: Name)
    requires Disjoint(o, n) && g != y && o + [g] in t && Nest(t, o, n, y, z, x)
    ensures Nest(Moved(t, o + [g], n + [g]), o, n, y, z, x)
    ensures var u := Moved(t, o + [g], n + [g]);
            u[o + [y] + [z] + [x]] == t[o + [y] + [z] + [x]] && u[n + [y] + [x]] == t[n + [y] + [x]]
  {
    hide Disjoint, Moved;
    var u := Moved(t, o + [g], n + [g]);
    MovedElsewhere(t, o, n, g, y, o + [y]);
    MovedElsewhere(t, o, n, g, y, n + [y]);
    MovedElsewhere(t, o, n, g, y, o + [y] + [z]);
    MovedElsewhere(t, o, n, g, y, n + [y] + [z]);
    MovedElsewhere(t, o, n, g, y, o + [y] + [z] + [x]);
    MovedElsewhere(t, o, n, g, y, n + [y] + [z] + [x]);
    MovedElsewhere(t, o, n, g, y, n + [y] + [x]);
  }

  /** Neither at `p` nor at `q` is `node` any more, at some moment from position `k` of the trace on. */
  ghost predicate Gone(trace: seq<Tree>, k: nat, p: TreePath, q: TreePath, node: Node) {
    exists i :: k <= i < |trace| && Lookup(trace[i], p) != Some(node) && Lookup(trace[i], q) != Some(node)
  }

  /** The last turn: the buffers of the two names hold names drawn 32 draws later. */
  lemma LastTurn(e: Env, u: World, from: Ref, to: Ref, wasDir: bool, stack: nat, o: TreePath, n: TreePath,
                 y: Name, z: Name, x: Name, start: nat)
    requires AlwaysFine(e) && Disjoint(o, n) && |u.log| == start + 37
    requires from == Buffer(SlotOf(start + 1)) && to == Buffer(SlotOf(start + 2))
    requires u.log[start + 32] == n + [y] && u.log[start + 33] == o + [y] + [z]
    requires Nest(u.tree, o, n, y, z, x)
    ensures Gone(EntryRun(e, u, from, to, x, wasDir, stack).w.trace, |u.trace|, o + [y] + [z] + [x],
                 n + [y] + [z] + [x],
                 u.tree[o + [y] + [z] + [x]])
  {
    hide EntryRun, Disjoint;
    var s, d := n + [y], o + [y] + [z];
    SlotReuse(start + 1, start + 33);
    SlotReuse(start + 2, start + 34);
    Lifetime(|u.log|, start + 32);
    var u1 := Draw(u, s + [x]);
    Lifetime(|u1.log|, start + 33);
    assert Parent(d + [x]) == d;
    WrongCopy(e, u, from, to, x, wasDir, stack, s, d);
    var t := u.tree[d + [x] := u.tree[s + [x]]];
    var trace := EntryRun(e, u, from, to, x, wasDir, stack).w.trace;
    assert trace[|u.trace|] == t;
    NotItsImage(o, n, [y, z, x]);
    assert o + [y, z, x] == d + [x] && n + [y, z, x] == n + [y] + [z] + [x];
  }

  lemma NotItsImage(o: TreePath, n: TreePath, q: TreePath)
    requires Disjoint(o, n)
    ensures o + q != n + q
  {
    if o + q == n + q { UnderBoth(o, n, o + q); }
  }

  lemma GoneLater(trace: seq<Tree>, trace': seq<Tree>, k: nat, k': nat, p: TreePath, q: TreePath, node: Node)
    requires Gone(trace, k, p, q, node) && trace <= trace' && k' <= k
    ensures Gone(trace', k', p, q, node)
  {
    var i :| k <= i < |trace| && Lookup(trace[i], p) != Some(node) && Lookup(trace[i], q) != Some(node);
    assert trace'[i] == trace[i];
  }

  /** The store lists the names in this order. */
  ghost predicate Lists(e: Env, t: Tree, o: TreePath, y: Name, z: Name, x: Name) {
    e.order(t, o + [y]) == [z] && e.order(t, o + [y] + [z]) == [x]
  }

  /** The last two turns. */
  lemma LastTwoTurns(e: Env, w: World, from: Ref, to: Ref, f: seq<Name>, ret: int, isDir: bool, stack: nat,
                     o: TreePath, n: TreePath, z: Name, start: nat)
    requires AlwaysFine(e) && Disjoint(o, n) && |w.log| == start + 31 && stack > 1
    requires from == Buffer(SlotOf(start + 1)) && to == Buffer(SlotOf(start + 2)) && w.log[start] == o
    requires w.log[start + 1] == n
    requires |f| == 16 && !Dotted(f[14]) && !Dotted(f[15]) && !Dotted(z)
    requires Nest(w.tree, o, n, f[14], z, f[15]) && Lists(e, w.tree, o, f[14], z, f[15])
    ensures Gone(LoopRun(e, w, from, to, f, 14, ret, isDir, stack).w.trace, |w.trace|, o + [f[14]] + [z] + [f[15]],
                 n + [f[14]] + [z] + [f[15]],
                 w.tree[o + [f[14]] + [z] + [f[15]]])
  {
    hide EntryRun, Disjoint;
    var y, x, w1 := f[14], f[15], Asked(w);
    assert e.sched(w.tick).Fine?;
    Lifetime(|w.log|, start);
    Lifetime(|w.log| + 1, start + 1);
    assert Parent(n + [y] + [z] + [x]) == n + [y] + [z];
    StuckNest(e, w1, from, to, y, z, x, isDir, stack, o, n);
    OneTurn(e, w, from, to, f, 14, ret, isDir, stack);
    var out := EntryRun(e, w1, from, to, y, isDir, stack);
    assert out.w.log[start + 32] == n + [y] && out.w.log[start + 33] == o + [y] + [z];
    var u1 := Asked(out.w);
    assert e.sched(out.w.tick).Fine?;
    LastTurn(e, u1, from, to, out.isDir, stack, o, n, y, z, x, start);
    OneTurn(e, out.w, from, to, f, 15, out.ret, out.isDir, stack);
    var last := EntryRun(e, u1, from, to, x, out.isDir, stack);
    LoopOver(e, last.w, from, to, f, last.ret, last.isDir, stack);
    GoneLater(last.w.trace, last.w.trace, |u1.trace|, |w.trace|, o + [y] + [z] + [x], n + [y] + [z] + [x],
              w.tree[o + [y] + [z] + [x]]);
  }

  /** Up to there: one file is moved and thirteen are stuck, with 29 buffers drawn. */
  lemma FirstTurns(e: Env, w: World, from: Ref, to: Ref, f: seq<Name>, isDir: bool, stack: nat, o: TreePath,
                   n: TreePath, z: Name, start: nat)
    returns (u: World, ret': int, isDir': bool)
    requires AlwaysFine(e) && Disjoint(o, n) && |w.log| == start + 2
    requires from == Buffer(SlotOf(start + 1)) && to == Buffer(SlotOf(start + 2)) && w.log[start] == o
    requires w.log[start + 1] == n
    requires Trap(w.tree, o, n, f, z) && IsFile(w.tree, o + [f[0]]) && !IsDir(w.tree, n + [f[0]])
    ensures Grew(w, u) && |u.log| == start + 31 && u.tree == Moved(w.tree, o + [f[0]], n + [f[0]])
    ensures LoopRun(e, w, from, to, f, 0, 0, isDir, stack) == LoopRun(e, u, from, to, f, 14, ret', isDir', stack)
  {
    hide EntryRun, Disjoint, Nest, Reads;
    var upto, w1 := start + 32, Asked(w);
    assert e.sched(w.tick).Fine?;
    assert Reads(w.log, from, o, upto) && Reads(w.log, to, n, upto) by { OwnNames(w.log, start, o, n); }
    assert Parent(n + [f[0]]) == n;
    NotItsImage(o, n, [f[0]]);
    MovedEntry(e, w1, from, to, f[0], isDir, stack, o, n, upto);
    OneTurn(e, w, from, to, f, 0, 0, isDir, stack);
    var out := EntryRun(e, w1, from, to, f[0], isDir, stack);
    ReadsLater(w.log, out.w.log, from, o, upto);
    ReadsLater(w.log, out.w.log, to, n, upto);
    forall k | 1 <= k < 14
      ensures !Dotted(f[k]) && IsFile(out.w.tree, o + [f[k]]) && !CanCopy(out.w.tree, o + [f[k]], n + [f[k]])
    {
      MovedElsewhere(w.tree, o, n, f[0], f[k], o + [f[k]]);
      MovedElsewhere(w.tree, o, n, f[0], f[k], n + [f[k]]);
    }
    hide Trap, Moved, IsFile, CanCopy;
    u, ret', isDir' := StuckEntries(e, out.w, from, to, f, 1, 14, out.ret, out.isDir, stack, o, n, upto);
  }

  lemma OwnNames(log: seq<TreePath>, start: nat, o: TreePath, n: TreePath)
    requires |log| == start + 2 && log[start] == o && log[start + 1] == n
    ensures Reads(log, Buffer(SlotOf(start + 1)), o, start + 32) && Reads(log, Buffer(SlotOf(start + 2)), n, start + 32)
  {
    assert DrawnAs(log, start, o, SlotOf(start + 1)) && DrawnAs(log, start + 1, n, SlotOf(start + 2));
  }

  /** Every call that can be done is done, and still a file's bytes are gone: they were overwritten by
      those of a file of the new directory. */
  lemma DirLoses(e: Env, w: World, from: Ref, to: Ref, stack: nat, o: TreePath, n: TreePath, f: seq<Name>, z: Name,
                 start: nat)
    requires AlwaysFine(e) && Disjoint(o, n) && |w.log| == start + 2 && stack > 2
    requires from == Buffer(SlotOf(start + 1)) && to == Buffer(SlotOf(start + 2)) && w.log[start] == o
    requires w.log[start + 1] == n
    requires Trap(w.tree, o, n, f, z) && IsFile(w.tree, o + [f[0]]) && !IsDir(w.tree, n + [f[0]])
    requires e.order(w.tree, o) == f && Lists(e, Moved(w.tree, o + [f[0]], n + [f[0]]), o, f[14], z, f[15])
    ensures Gone(DirRun(e, w, from, to, stack).w.trace, |w.trace|, o + [f[14]] + [z] + [f[15]],
                 n + [f[14]] + [z] + [f[15]],
                 w.tree[o + [f[14]] + [z] + [f[15]]])
  {
    hide LoopRun, DirRun, Disjoint, Nest;
    var y, x := f[14], f[15];
    NestHas(w.tree, o, n, y, z, x);
    OwnNames(w.log, start, o, n);
    hide Reads;
    ReadsNow(w, from, o, start + 32);
    ReadsNow(w, to, n, start + 32);
    hide At;
    DirOpens(e, w, from, to, stack, o, n);
    var v := w.(tick := w.tick + 3);
    var u, ret', isDir' := FirstTurns(e, v, from, to, f, e.garbage(v.tick), stack - 1, o, n, z, start);
    NestKept(w.tree, o, n, f[0], y, z, x);
    hide Moved, Lists;
    LastTwoTurns(e, u, from, to, f, ret', isDir', stack - 1, o, n, z, start);
    var moved := LoopRun(e, v, from, to, f, 0, 0, e.garbage(v.tick), stack - 1);
    GoneLater(moved.w.trace, DirRun(e, w, from, to, stack).w.trace, |u.trace|, |w.trace|, o + [y] + [z] + [x],
              n + [y] + [z] + [x],
              w.tree[o + [y] + [z] + [x]]);
  }

  /** dfs_rename of a directory with one subdirectory `b` that is such a trap. */
  lemma RenameLoses(e: Env, w: World, p: TreePath, q: TreePath, b: Name, stack: nat, f: seq<Name>, z: Name)
    requires AlwaysFine(e) && Good(w) && Disjoint(p, q) && IsDir(w.tree, p) && q in w.tree && stack > 3
    requires e.order(w.tree, p) == [b] && !Dotted(b)
    requires Trap(w.tree, p + [b], q + [b], f, z) && IsFile(w.tree, p + [b] + [f[0]])
    requires !IsDir(w.tree, q + [b] + [f[0]])
    requires e.order(w.tree, p + [b]) == f
    requires Lists(e, Moved(w.tree, p + [b] + [f[0]], q + [b] + [f[0]]), p + [b], f[14], z, f[15])
    ensures !Safely(w, WholeRun(e, w, p, q, stack).w, p, q)
  {
    hide DirRun, Nest, WellFormed, Moved, Lists, Disjoint, Safely, WholeRun;
    var o, n, y, x := p + [b], q + [b], f[14], f[15];
    NestHas(w.tree, o, n, y, z, x);
    assert e.sched(w.tick).Fine?;
    TopLoses(e, Asked(w), p, q, b, stack, f, z);
    var end := WholeRun(e, w, p, q, stack).w;
    assert end == DirRun(e, Asked(w), Outside(p), Outside(q), stack).w by { WholeIsDir(e, w, p, q, stack); }
    assert p + [b, y, z, x] == o + [y] + [z] + [x] && q + [b, y, z, x] == n + [y] + [z] + [x];
    GoneIsUnsafe(w, end, p, q, [b, y, z, x]);
  }

  lemma WholeIsDir(e: Env, w: World, p: TreePath, q: TreePath, stack: nat)
    requires e.sched(w.tick).Fine? && IsDir(w.tree, p)
    ensures WholeRun(e, w, p, q, stack).w == DirRun(e, Asked(w), Outside(p), Outside(q), stack).w
  {
    hide DirRun, FileRun;
  }

  lemma TopLoses(e: Env, w: World, p: TreePath, q: TreePath, b: Name, stack: nat, f: seq<Name>, z: Name)
    requires AlwaysFine(e) && Disjoint(p, q) && IsDir(w.tree, p) && q in w.tree && stack > 3
    requires e.order(w.tree, p) == [b] && !Dotted(b)
    requires Trap(w.tree, p + [b], q + [b], f, z) && IsFile(w.tree, p + [b] + [f[0]])
    requires !IsDir(w.tree, q + [b] + [f[0]])
    requires e.order(w.tree, p + [b]) == f
    requires Lists(e, Moved(w.tree, p + [b] + [f[0]], q + [b] + [f[0]]), p + [b], f[14], z, f[15])
    ensures p + [b] + [f[14]] + [z] + [f[15]] in w.tree
    ensures Gone(DirRun(e, w, Outside(p), Outside(q), stack).w.trace, |w.trace|, p + [b] + [f[14]] + [z] + [f[15]],
                 q + [b] + [f[14]] + [z] + [f[15]], w.tree[p + [b] + [f[14]] + [z] + [f[15]]])
  {
    hide LoopRun, DirRun, EntryRun, Nest, Moved, Lists, Disjoint;
    var o, n, y, x := p + [b], q + [b], f[14], f[15];
    var v := w.(tick := w.tick + 3);
    EntryLoses(e, Asked(v), p, q, b, e.garbage(v.tick), stack - 1, f, z);
    DirOpens(e, w, Outside(p), Outside(q), stack, p, q);
    assert e.sched(v.tick).Fine?;
    OneTurn(e, v, Outside(p), Outside(q), [b], 0, 0, e.garbage(v.tick), stack - 1);
    var out := EntryRun(e, Asked(v), Outside(p), Outside(q), b, e.garbage(v.tick), stack - 1);
    LoopOver(e, out.w, Outside(p), Outside(q), [b], out.ret, out.isDir, stack - 1);
    GoneLater(out.w.trace, DirRun(e, w, Outside(p), Outside(q), stack).w.trace, |w.trace|, |w.trace|,
              o + [y] + [z] + [x],
              n + [y] + [z] + [x], w.tree[o + [y] + [z] + [x]]);
  }

  lemma EntryLoses(e: Env, w: World, p: TreePath, q: TreePath, b: Name, wasDir: bool, stack: nat, f: seq<Name>, z: Name)
    requires AlwaysFine(e) && Disjoint(p, q) && stack > 2
    requires Trap(w.tree, p + [b], q + [b], f, z) && IsFile(w.tree, p + [b] + [f[0]])
    requires !IsDir(w.tree, q + [b] + [f[0]])
    requires e.order(w.tree, p + [b]) == f
    requires Lists(e, Moved(w.tree, p + [b] + [f[0]], q + [b] + [f[0]]), p + [b], f[14], z, f[15])
    ensures p + [b] + [f[14]] + [z] + [f[15]] in w.tree
    ensures Gone(EntryRun(e, w, Outside(p), Outside(q), b, wasDir, stack).w.trace, |w.trace|,
                 p + [b] + [f[14]] + [z] + [f[15]],
                 q + [b] + [f[14]] + [z] + [f[15]], w.tree[p + [b] + [f[14]] + [z] + [f[15]]])
  {
    hide DirRun, FileRun, EntryRun, Nest, Moved, Lists, Disjoint, Reads;
    var o, n := p + [b], q + [b];
    ChildrenDisjoint(p, q, b, b);
    NestHas(w.tree, o, n, f[14], z, f[15]);
    EntrySteps(e, w, Outside(p), Outside(q), b, wasDir, stack);
    JustDrawn(w, o, n);
    var w1, w2 := Draw(w, o), Draw(Draw(w, o), n);
    assert e.sched(w2.tick).Fine?;
    DirLoses(e, Asked(w2), Last(w1), Last(w2), stack, o, n, f, z, |w.log|);
  }

  lemma GoneIsUnsafe(w: World, u: World, p: TreePath, q: TreePath, rest: TreePath)
    requires Good(w) && p + rest in w.tree && IsFile(w.tree, p + rest)
    requires Gone(u.trace, |w.trace|, p + rest, q + rest, w.tree[p + rest])
    ensures !Safely(w, u, p, q)
  {
    hide WellFormed;
    var i :| |w.trace| <= i < |u.trace| && Lookup(u.trace[i], p + rest) != Some(w.tree[p + rest])
             && Lookup(u.trace[i], q + rest) != Some(w.tree[p + rest]);
    assert Under(p, p + rest) && Image(p, q, p + rest) == q + rest;
    assert !FileSafe(w.tree, u.trace[i], p, q, p + rest);
  }
}
