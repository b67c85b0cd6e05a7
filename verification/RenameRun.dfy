/** What dfs_rename does: rename_directory, rename_file and the calls they make, over a remote tree
    whose calls may fail, with the names of the entries kept in the ring of string buffers. */
module RenameRun {
  import opened TmpStr
  import opened RemoteTree

  /** A `char *`: the caller's own string, or a buffer of the ring. */
  datatype Ref = Outside(path: TreePath) | Buffer(k: nat)

  /** The tree, the number of calls made, the strings drawn so far, and the tree after every call. */
  datatype World = World(tree: Tree, tick: nat, log: seq<TreePath>, trace: seq<Tree>)

  /** How the store answers the calls and orders its listings, what a `type` nothing has set holds,
      and conf->cache_dir. */
  datatype Env = Env(
    sched: nat -> Answer,
    order: (Tree, TreePath) -> seq<Name>,
    garbage: nat -> bool,
    cacheDir: TreePath)

  /** The state afterwards, the return value, and whether the stack ran out on the way. */
  datatype Out = Out(w: World, ret: int, crash: bool)

  /** The same for one entry, with the variable `type` and whether the loop is left. */
  datatype EntryOut = EntryOut(w: World, ret: int, isDir: bool, abort: bool, crash: bool)

  predicate Dotted(x: Name) {
    x == "." || x == ".."
  }

  function At(w: World, ref: Ref): TreePath {
    match ref
    case Outside(p) => p
    case Buffer(k) => Latest(w.log, k, [])
  }

  /** tmpstr_printf. */
  function Draw(w: World, p: TreePath): World {
    w.(log := w.log + [p])
  }

  /** The buffer of the last draw. */
  function Last(w: World): Ref {
    Buffer(SlotOf(|w.log|))
  }

  function Asked(w: World): World {
    w.(tick := w.tick + 1)
  }

  /** A call that leaves the tree `t`. */
  function Called(w: World, t: Tree): World {
    w.(tick := w.tick + 1, tree := t, trace := w.trace + [t])
  }

  /** dfs_namei_timeout. */
  function Namei(t: Tree, p: TreePath, r: Answer): int {
    if r.Fails? then r.code else if p in t then DPL_SUCCESS else DPL_ENOENT
  }

  /** dfs_unlink, as far as the store and the ring go: src/unlink.c:30-40. */
  function UnlinkRun(e: Env, w: World, p: TreePath): Out {
    var (t, rc) := Unlink(w.tree, p, e.sched(w.tick));
    var w' := Called(w, t);
    if rc != DPL_SUCCESS then Out(w', 1, false) else Out(Draw(w', e.cacheDir + p), 0, false)
  }

  /** rename_file: src/rename.c:17-51. */
  function FileRun(e: Env, w: World, from: Ref, to: Ref): Out {
    var src, dst := At(w, from), At(w, to);
    var (t, rc) := Fcopy(w.tree, src, dst, e.sched(w.tick));
    var w' := Called(w, t);
    if rc != DPL_SUCCESS then Out(w', -1, false) else UnlinkRun(e, w', At(w', from))
  }

  /** rename_directory makes the new directory when it is not there: src/rename.c:68-82. */
  function TargetRun(e: Env, w: World, to: Ref): Out {
    var rc := Namei(w.tree, At(w, to), e.sched(w.tick));
    var w1 := Asked(w);
    if rc != DPL_SUCCESS && rc != DPL_ENOENT then Out(w1, -1, false)
    else if rc == DPL_SUCCESS then Out(w1, 0, false)
    else
      var (t, mk) := Mkdir(w1.tree, At(w1, to), e.sched(w1.tick));
      Out(Called(w1, t), if mk != DPL_SUCCESS && mk != DPL_ENOENT then -1 else 0, false)
  }

  /** And lists the old one, which it enters first: src/rename.c:84-96. The listing is of ".". */
  function OpenRun(e: Env, w: World, from: Ref): (Out, seq<Name>) {
    var r := e.sched(w.tick);
    if r.Fails? then (Out(Asked(w), r.code, false), [])
    else if !IsDir(w.tree, At(w, from)) then (Out(Asked(w), DPL_EINVAL, false), [])
    else
      var w1 := Asked(w);
      var r1 := e.sched(w1.tick);
      if r1.Fails? then (Out(Asked(w1), r1.code, false), [])
      else (Out(Asked(w1), 0, false), e.order(w1.tree, At(w, from)))
  }

  /** One turn of the loop, once the entry's name is known: src/rename.c:104-125. */
  function EntryRun(e: Env, w: World, from: Ref, to: Ref, x: Name, wasDir: bool, stack: nat): EntryOut
    decreases stack, 1, 0
  {
    var w1 := Draw(w, At(w, from) + [x]);
    var w2 := Draw(w1, At(w1, to) + [x]);
    var src, dst := Last(w1), Last(w2);
    var rc := Namei(w2.tree, At(w2, src), e.sched(w2.tick));
    var w3 := Asked(w2);
    if rc != DPL_SUCCESS && rc != DPL_ENOENT then EntryOut(w3, -1, wasDir, true, false)
    else
      var isDir := if rc == DPL_SUCCESS then IsDir(w2.tree, At(w2, src)) else wasDir;
      var out := if isDir then DirRun(e, w3, src, dst, stack) else FileRun(e, w3, src, dst);
      EntryOut(out.w, out.ret, isDir, false, out.crash)
  }

  /** The loop of rename_directory from the i-th name on: src/rename.c:98-126. `ret` is the last
      entry's, and `type` keeps its value over a lookup that finds nothing. */
  function LoopRun(e: Env, w: World, from: Ref, to: Ref, names: seq<Name>, i: nat, ret: int, isDir: bool,
                   stack: nat): EntryOut
    requires i <= |names|
    decreases stack, 2, |names| - i
  {
    if i == |names| then EntryOut(w, ret, isDir, false, false)
    else if e.sched(w.tick).Fails? then EntryOut(Asked(w), ret, isDir, false, false)
    else
      var w1 := Asked(w);
      if Dotted(names[i]) then LoopRun(e, w1, from, to, names, i + 1, ret, isDir, stack)
      else
        var out := EntryRun(e, w1, from, to, names[i], isDir, stack);
        if out.abort || out.crash then out
        else LoopRun(e, out.w, from, to, names, i + 1, out.ret, out.isDir, stack)
  }

  /** rename_directory: src/rename.c:53-139. `stack` is the number of calls there is room for. */
  function DirRun(e: Env, w: World, from: Ref, to: Ref, stack: nat): Out
    decreases stack, 0, 0
  {
    if stack == 0 then Out(w, -1, true)
    else
      var made := TargetRun(e, w, to);
      if made.ret != 0 then made
      else
        var (opened', names) := OpenRun(e, made.w, from);
        if opened'.ret != 0 then opened'
        else
          var out := LoopRun(e, opened'.w, from, to, names, 0, 0, e.garbage(opened'.w.tick), stack - 1);
          if out.abort || out.crash || out.ret == -1 then Out(out.w, out.ret, out.crash)
          else
            var (t, _) := Rmdir(out.w.tree, At(out.w, from), e.sched(out.w.tick));
            Out(Called(out.w, t), 0, false)
  }

  /** dfs_rename: src/rename.c:141-184. The lookup's status is tested with "! DPL_SUCCESS == rc", so
      that a failed lookup goes on, with a `type` nothing has set. */
  function WholeRun(e: Env, w: World, oldpath: TreePath, newpath: TreePath, stack: nat): Out {
    var rc := Namei(w.tree, oldpath, e.sched(w.tick));
    var w1 := Asked(w);
    var isDir := if rc == DPL_SUCCESS then IsDir(w.tree, oldpath) else e.garbage(w1.tick);
    var isReg := if rc == DPL_SUCCESS then !isDir else e.garbage(w1.tick + 1);
    if rc == 1 && rc != DPL_ENOENT then Out(w1, -1, false)
    else if !isDir && !isReg then Out(w1, -1, false)
    else
      var out := if isDir then DirRun(e, w1, Outside(oldpath), Outside(newpath), stack)
                 else FileRun(e, w1, Outside(oldpath), Outside(newpath));
      out.(ret := if out.ret == -1 then -1 else 0)
  }
}
