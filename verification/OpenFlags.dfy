/** Classification of the flag word of open(2), as src/open.c and src/release.c read it. */
module OpenFlags {

  // Values of <fcntl.h> on Linux.
  const O_ACCMODE: bv32 := 3
  const O_RDONLY: bv32 := 0
  const O_WRONLY: bv32 := 1
  const O_RDWR: bv32 := 2
  const O_CREAT: bv32 := 0x40
  const O_APPEND: bv32 := 0x400

  datatype Mode = ModeRdOnly | ModeRdWr | ModeCreat

  /** How dfs_open treats the cache file: MODE_WRONLY is never produced, and an access mode
      of 3 falls through to MODE_DEFAULT, which is MODE_RDWR. */
  function GetModeFromFlags(flags: bv32): Mode {
    if flags & O_APPEND != 0 then ModeRdWr
    else if flags & O_CREAT != 0 then ModeCreat
    else if flags & O_ACCMODE == O_RDONLY then ModeRdOnly
    else if flags & O_ACCMODE == O_WRONLY then ModeCreat
    else if flags & O_ACCMODE == O_RDWR then ModeCreat
    else ModeRdWr
  }

  /** dfs_open takes the entry's mutex. */
  predicate OpenLocks(flags: bv32) {
    GetModeFromFlags(flags) != ModeRdOnly
  }

  /** dfs_release goes past its read-only exit, to the upload and the unlock. */
  predicate ReleaseUnlocks(flags: bv32) {
    flags & O_ACCMODE != O_RDONLY
  }

  /** The kernel lets a handle with these flags write. */
  predicate WriteAccess(flags: bv32) {
    flags & O_ACCMODE == O_WRONLY || flags & O_ACCMODE == O_RDWR
  }

  /** What the rest of the model needs of a flag word. */
  datatype Access = Access(mode: Mode, unlocks: bool, writes: bool) {
    predicate Locks() { mode != ModeRdOnly }
  }

  function Classify(flags: bv32): (a: Access)
    ensures a.Locks() == OpenLocks(flags)
    ensures a.writes ==> a.unlocks
    ensures a.unlocks ==> a.Locks()
  {
    LockBalance(flags);
    Access(GetModeFromFlags(flags), ReleaseUnlocks(flags), WriteAccess(flags))
  }

  /** Open takes the lock that release gives back, except for read-only access with O_APPEND
      or O_CREAT, where open locks and release does not unlock. Release never unlocks a mutex
      that open did not take. */
  lemma LockBalance(flags: bv32)
    ensures ReleaseUnlocks(flags) ==> OpenLocks(flags)
    ensures OpenLocks(flags) != ReleaseUnlocks(flags) <==>
            flags & O_ACCMODE == O_RDONLY && (flags & O_APPEND != 0 || flags & O_CREAT != 0)
    ensures WriteAccess(flags) ==> ReleaseUnlocks(flags)
    ensures WriteAccess(flags) && flags & O_APPEND == 0 ==> GetModeFromFlags(flags) == ModeCreat
  {
  }
}
