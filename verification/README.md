# dropletfs, modelled and proved in Dafny

dropletfs mounts a remote object store as a file system. A file that is opened is downloaded into a
cache directory, read and written there, and uploaded again when it is released; a collector drops
cache files that have not been used for a while. This project models that cache, the data path
behind it, the recursive rename, and the structures and loops they rest on, and proves what they
promise. `dafny verify dfyconfig.toml` checks all of it.

## How it is laid out

| module | models |
|---|---|
| `Basics`, `Text`, `Decimal` | shared types, C string functions, decimal numbers as printf and strtoull treat them |
| `OpenFlags` | the classification of open(2) flags |
| `CacheProtocol` | the cache as a transition system: entries, cache files, remote objects, outstanding handles; its steps and its invariant |
| `CacheInvariant`, `CacheEntries`, `CacheRefinement`, `CacheRuns`, `CacheEffects`, `CacheExamples` | every step keeps the invariant; what a step does to one entry; every step, and every run, refines a plain file map; what runs do by the flag word of an open, to the objects of the store, and to the flags of an entry; example runs |
| `GcPass` | a collector pass over a snapshot of the keys |
| `Dropletfs` | the same operations on the heap: a class for `struct pentry`, one for the hash table, each method equal to its step |
| `Codec`, `Zip`, `StoredCodec` | the contract of the zlib stream functions, the two chunk loops over it, and an instance: stored blocks (section 3.2.4 of RFC 1951) in the wrapper of section 2.2 of RFC 1950 |
| `FileIO`, `Transfer` | the I/O loops, upload and download of one file |
| `Mount` | the whole program on the heap: any sequence of requests, with the transfers they make, recorded as a run of the cache |
| `Metadata` | file attributes as decimal strings in a dictionary, and back |
| `RemoteTree`, `RenameSpec`, `Draws`, `TmpStr` | the store as a tree, what a rename promises, the string buffers it draws, the ring of buffers |
| `RenameRun`, `RenameSafe`, `RenameRing` | what the rename does as functions of the calls' answers; what holds while the names stay in their buffers; what happens when they do not |
| `RenamePlain`, `RenameLoss`, `RenamePit`, `RenameAnswer`, `RenameReport`, `Rename` | where overwritten names lose nothing, and where they destroy a file; what the answer says, of rename_directory and of dfs_rename; the renaming methods |
| `ListSpec`, `List` | linked lists on a heap that knows what was freed |
| `ConfSpec`, `ConfWords`, `Conf` | the settings as a fold over lines, overridden by the environment; the same by the words users write; the class that reads them |
| `Retry` | the retry loops |

The cache's main theorem is `CacheRuns.RunRefines`. A *plain file map* is changed by two steps only,
a truncating open and a write. At every moment of every interleaving of any number of opens, reads,
writes, releases, collections and getattrs, what a reader of a path gets is what the plain file map
has there, unless the path is marked `lost`. A reader gets the cache file when the entry has a
descriptor, which is what open_existing tests, and the decoded object otherwise. `LostOnlyBy` says
when a path gets the mark, and `FaultFreeRefines` that without a failed upload, an excluded path and
a failed rename(2) in a fetch there is no such path. `UnsentThenCollected` and
`RawFetchReadsThePayload` are runs showing that each of the three conditions is needed.

In the runs the decoding of objects is a parameter, and an upload or a fetch is a step with its
outcome. `Mount` closes the gap: there the steps are taken by the methods of `Dropletfs.Cache`, the
fetch is `Transfer.Download`, the upload is `Transfer.Upload`, and decoding is `Transfer.Decode`.
`Mount.Mount.Drive` serves any sequence of requests: each one that fits the state of its handle by its
step, which the method for it states exactly. The steps are a run, so that `RunRefines` holds of the
heap; and when uploads and renames go well and nothing is excluded, the heap is the plain file map.

The remote store answers renames with an arbitrary schedule of successes and failures; a call that
reports a failure may have happened all the same, and a failed copy may leave junk.

## Where the code does not do what one would expect

Each of these is stated exactly by a member of the project.

* Read-only access with O_APPEND or O_CREAT takes the mutex in dfs_open and never gives it back
  (`OpenFlags.LockBalance`); after its close the mutex of that path is never granted again
  (`CacheRuns.NeverGrantedAgain`).
* A writer can write if and only if it truncates, or its open finds no descriptor in the entry, or one
  that is open for writing (`CacheRuns.WriterCanWrite`). The other case, an appending writer that
  finds the descriptor of an earlier reader, is reached (`CacheExamples.AppendAfterReadCannotWrite`).
* A collection loses a file if and only if the store does not have the bytes of its cache file
  (`CacheRuns.CollectExactly`, `CacheRuns.CollectLoses`); after a failed upload, or the release of an
  excluded path, that is so until something saves it (`CacheRuns.UnsavedThenCollected`; a run is
  `CacheExamples.UnsentThenCollected`).
* A rename(2) that fails at the end of a download makes the compressed payload pass for the file. The
  cache file is right if and only if rename(2) worked, or the object is not tagged "zlib", or its
  payload begins with a stream for itself (`Transfer.Download`, `CacheRuns.RawExactly`; a run is
  `CacheExamples.RawFetchReadsThePayload`).
* A temporary file with descriptor 0 makes the upload send plain bytes under the tag "zlib"; they read
  back if and only if they begin with a stream for themselves (`Transfer.Upload`,
  `Transfer.MistaggedExactly`).
* A subdirectory whose move draws more than 30 string buffers has its own name overwritten before its
  rmdir, and stays. With every call succeeding, a directory is moved exactly if and only if no
  subdirectory draws more (`RenameRing.RelocatesExactlyWhenItFits`); if the subdirectories hold plain
  files only, that is if and only if each holds at most ten (`RenameRing.PlainSubdirectories`,
  `RenameRing.CrowdMoves`).
* The same can destroy a file, although the store does everything that can be done: with its names
  overwritten rename_directory copies another file over it (`RenameLoss.RenameLoses`,
  `RenamePit.RenameDestroysAFile`). No file is lost, whatever the calls answer, when no subdirectory
  draws more than 30 buffers (`RenameRing.RenameSafely`), or those that do hold plain files only, and
  the cache directory is not in the store (`RenamePlain.RenameTame`).
* dfs_rename can answer 0 with nothing moved (`RenameRing.ZeroWithNothingMoved`), because a listing
  that breaks off is not noticed. Of a directory that could be listed the answer is -1 if and only if
  an entry cannot be looked up or the last one that was moved answered -1
  (`RenameReport.DirectoryAnswer`); a failure before that is hidden. An entry the store does not have is
  taken for what the entry before it was (`RenameReport.MissingEntry`). With every call succeeding, a directory that holds one directory of
  plain files is moved if and only if there are at most ten, and the answer is 0 if and only if there
  are at most eleven (`RenameReport.OnlyRename`). After a safe rename, nothing is at the old name if
  and only if every file is at its new one and nothing is left below (`RenameAnswer.GoneMeansMoved`);
  for a file, 0 means that its bytes are at the new name (`RenameRing.ZeroForFile`).
* The entries with a descriptor are the LOCAL ones, and a step changes that if and only if it is a
  getattr that ends on an entry which got its descriptor while the store was being asked
  (`CacheEntries.LocalExactly`, `CacheRuns.LocalHasDescriptor`; a run is
  `CacheExamples.RemoteWithDescriptor`).
* An exclusion pattern in the configuration file excludes nothing; one in the environment does, if it
  compiles (`ConfSpec.ExclusionByEnvironment`).
* `list_filter` and `list_rfilter` touch a freed cell exactly when the first two cells are both
  dropped (`List.Heap.FilterList`).
* A profiling_logfile line also sets profiling (`ConfSpec.ProfilingOrder`,
  `ConfSpec.LogfileTurnsProfilingOff`).
* The manual's compression_level is no setting; the code reads zlib_level
  (`ConfSpec.CompressionLevelIgnored`). The manual's DROPLETFS_CACHE_DIR is not read at all.
* A 64-bit attribute of value -1 does not survive the trip through the metadata
  (`Metadata.RoundTripExactly`).
* The retry delay overflows an int when more than 30 retries are allowed (`Retry.DelayFits`).

## Model

| member | source | states |
|---|---|---|
| OpenFlags.Classify | src/open.c:104-114 | an access that may write is one whose release unlocks, and release unlocks only what open locked; which opens truncate is CacheEffects.TruncatesWhen |
| OpenFlags.LockBalance | src/open.c:242-248 | open locks and release unlocks for the same flag words, except exactly read-only access with O_APPEND or O_CREAT |
| CacheInvariant.OpenBeginKeeps | src/open.c:219-240 | lookup, insertion and the count keep table, counts, locks, placeholders and cache contents consistent |
| CacheInvariant.LockGrantedKeeps | src/open.c:242-248 | taking the free mutex keeps the invariant: nobody else has it |
| CacheInvariant.BodyKeeps | src/open.c:116-204 | truncating, reusing, fetching or failing keeps the invariant, failed opens keeping count and lock |
| CacheInvariant.CreateEndKeeps | src/create.c:60-98 | dfs_create going on after an open that failed, or failing after one that did not, keeps the invariant |
| CacheInvariant.SendKeeps | src/release.c:142-223 | a send starts at the beginning of the file, and keeps the invariant: after a good one the store has the file's bytes |
| CacheInvariant.ReleaseKeeps | src/release.c:224-238 | seek and unlock keep the invariant: an unlocked entry with a descriptor has the store's bytes or is marked stale |
| CacheInvariant.CollectKeeps | src/gc.c:72-80 | a collection behind both guards keeps the invariant; no handle in use loses its entry |
| CacheInvariant.GetattrBeginKeeps | src/getattr.c:224-272 | getattr up to its calls to the store keeps the invariant |
| CacheInvariant.GetattrEndKeeps | src/getattr.c:185-216 | turning an entry REMOTE keeps the invariant, whatever has happened to it since it was found UNSET |
| CacheInvariant.StepKeeps | src/release.c:125-237 | every step of every operation keeps the whole invariant |
| CacheRefinement.StepView | src/open.c:116-204 | one step changes what a reader of any path gets only if it is a truncating open or a write of that path |
| CacheRefinement.CollectView | src/gc.c:33-85 | dropping an unlocked entry that is not stale changes nothing for any reader |
| CacheRefinement.SendView | src/release.c:142-223 | an upload, failed ones included, changes nothing for any reader of the mount |
| CacheProtocol.ReadAfterWrite | src/write.c:30-36 | a read where one has just written gives the data, and a read beside it what was there |
| CacheProtocol.PWriteBytes | src/write.c:30-36 | every byte and the length of a file after a write, gaps included |
| CacheRuns.RunInv | src/open.c:206-272 | the invariant holds in every reachable state |
| CacheRuns.RunRefines | src/release.c:125-237 | at every moment of every run the cache agrees with the plain file map on every path not lost |
| CacheRuns.FaultFreeRefines | src/open.c:116-204 | without failed uploads, excluded paths and failed renames the cache is the plain file map |
| CacheRuns.LostOnlyBy | src/gc.c:54-80 | a path is lost only when a stale entry is collected or a fetch leaves the compressed payload |
| CacheRuns.ReadsThePlainFile | src/read.c:12-44 | a read through an open handle gives the plain file's bytes |
| CacheRuns.EntryOutlivesOpen | src/gc.c:33-39 | over whole runs, no collection frees an entry an open or release is using, waiting for the lock and the upload window included |
| CacheRuns.ReleaseNeverBlocks | src/release.c:125 | the semaphore equals the opens begun and not released, so release does not block, and its descriptor is good |
| CacheRuns.MutexAccounting | src/release.c:234-238 | the mutex is taken exactly when one handle past the lock has not given it back, and never by two |
| CacheRuns.BalancedMutex | src/open.c:242-248 | with balanced flags and no failed open, a taken mutex belongs to a writer between lock and unlock |
| CacheRuns.DigestShortcutUnused | src/file.c:179-183 | an entry an open is about to fetch is never LOCAL, so the digest comparison cannot skip the download |
| CacheRuns.OffsetAtBoundaries | src/release.c:200-226 | a descriptor is at the start of its file in every reachable state, except between a send and its seek |
| CacheRuns.UploadsWholeFile | src/release.c:200-223 | a send that succeeds leaves an object standing for the whole cache file, and the descriptor at its start or its end |
| CacheRuns.SendEnabled | src/release.c:200-223 | in every run any object that stands for the file can be what a release sends, plain or compressed |
| CacheExamples.SeekNeeded | src/release.c:224-226 | a run of the program without the seek: two writers, the second of which writes nothing, after whose good sends the store has an empty file for a cache file of one byte |
| CacheRuns.WriterCanWrite | src/open.c:157-171 | from its open to its release a writer can write if and only if it truncates or found no descriptor or a writable one |
| CacheRuns.TruncatingOpenCanWrite | src/open.c:135-144 | a writer without O_APPEND has a descriptor it can write with until its release |
| CacheEffects.TruncatesWhen | src/open.c:104-147 | in every run, by the flag word alone: an open whose body ends well empties the file exactly without O_APPEND and with O_CREAT, O_WRONLY or O_RDWR, for the plain file map and for every reader; any other leaves it and every other path as they were |
| CacheEffects.FlagWord | src/open.c:100-114 | truncating, asking for the mutex, giving it back and writing, each by the bits of the flag word |
| CacheEffects.FlagsDecide | src/open.c:242-248 | in every run an open waits for the mutex unless it is for reading without O_APPEND and O_CREAT, its close goes on to the upload unless it is for reading, and it writes only with O_WRONLY or O_RDWR |
| CacheEffects.StoreStep | src/create.c:88-95 | what a step does to any path of the store: a create puts the object made at its path, a send what it sends or leaves, and nothing else changes it |
| CacheEffects.CreateMakes | src/create.c:88-95 | in every run the object a create has made is in the store until a send or another create of that path |
| CacheEffects.FlagStep | src/release.c:230-236 | an entry is born DIRTY, becomes DIRTY by the body of an open that locks and CLEAN by the end of a release, and no other step changes the flag |
| CacheEntries.EntryAfter | src/open.c:116-266 | what any step can make of an entry: new, LOCAL with a descriptor, REMOTE by a getattr, or the same but for the mark |
| CacheEntries.LocalExactly | src/getattr.c:185-216 | a step keeps "LOCAL exactly with a descriptor" for all entries if and only if it is no getattr ending on an entry that has got a descriptor |
| CacheRuns.LocalHasDescriptor | src/getattr.c:185-216 | without such a step in it, every run ends with exactly the entries with a descriptor LOCAL |
| CacheRuns.CollectExactly | src/gc.c:54-80 | a collection changes what a reader of the path gets if and only if its cache file was in use and the store does not have the same bytes |
| CacheRuns.CollectLoses | src/gc.c:54-80 | in every run, a collected path leaves the plain file map under the same condition |
| CacheRuns.RawExactly | src/file.c:281-285 | a fetch ending with the payload changes what a reader gets if and only if the object does not stand for its payload |
| CacheRuns.SendUnsaved | src/release.c:200-223 | a failed send leaves the path unsaved, if what it leaves in the store is not the file |
| CacheRuns.ReleaseUnsaved | src/release.c:136-140 | so does the release of an excluded path that the store does not have |
| CacheRuns.UnsavedThenCollected | src/gc.c:54-80 | for every path and content: an unsaved file that nothing saves is lost by the collection, the plain file map still having it |
| CacheRuns.NeverGrantedAgain | src/open.c:242-248 | after the close of a read-only open with O_APPEND or O_CREAT no open of the path is ever granted the mutex |
| CacheExamples.RemoteWithDescriptor | src/getattr.c:185-210 | a reachable state with an open file whose entry is REMOTE |
| CacheExamples.UploadNeedsTheLock | src/release.c:125 | a reachable state in which a writer uploads with count 0, and at any time that finds the file too old only the mutex stops the collector |
| CacheExamples.UnsentThenCollected | src/release.c:136-140 | after a failed upload, or on an excluded path, every visit of the collector that finds the file too old loses the written bytes |
| CacheExamples.RawFetchReadsThePayload | src/file.c:281-285 | a failed rename(2) in a fetch makes readers get the payload, for every object whose payload is not the file |
| CacheExamples.ReaderNeedsTheCount | src/gc.c:33-36 | a reachable state in which a reader is in, and at any time that finds the file too old only the count stops the collector |
| CacheExamples.AppendAfterReadCannotWrite | src/open.c:157-171 | the case in which a writer cannot write is reached: an appending open beside a reader succeeds |
| GcPass.KeptExactly | src/gc.c:33-67 | kept are exactly the entries in use, locked, without descriptor, or with a descriptor that fstat knows and the oldest time within the threshold, tenfold if excluded |
| GcPass.PassResult | src/gc.c:95-99 | a pass removes exactly the collectable entries of its keys with their cache files and nothing else |
| GcPass.OrderIndependent | src/gc.c:95-99 | the order of the visits does not matter |
| GcPass.PassIdempotent | src/gc.c:29-85 | survivors keep fields and lock, and a second pass at the same time does nothing |
| Dropletfs.Pentry.Condemn | src/gc.c:33-67 | the collector's guards and age test: condemned is exactly collectable, and a spared entry is left as it was |
| Dropletfs.Cache.OpenBegin | src/open.c:219-240 | the heap after lookup, insertion and count is the protocol's next state |
| Dropletfs.Cache.OpenLock | src/open.c:242-248 | the heap after the lock, granted or refused, is the protocol's next state |
| Dropletfs.Cache.OpenBody | src/open.c:250-266 | the heap after the body of an open, and its return value, are the protocol's |
| Dropletfs.Cache.CreateEnd | src/create.c:60-98 | the heap after the end of dfs_create is the protocol's; the store has the object made at the handle's path, or is as it was, and 0 is answered exactly when it goes on |
| Dropletfs.Cache.Read | src/read.c:12-44 | a read gives the bytes of the cache file from the offset on, as many as there are, or EBADFD without a descriptor |
| Dropletfs.Cache.Write | src/write.c:9-42 | after a write the data is at its place, a gap is zeros and every other byte and file is as it was; without a writable descriptor it fails and changes nothing |
| Dropletfs.Cache.ReleaseBegin | src/release.c:105-134 | the heap after the count is dropped is the protocol's next state |
| Dropletfs.Cache.ReleaseSend | src/release.c:142-223 | the heap after an upload, with the descriptor where the send leaves it, is the protocol's next state |
| Dropletfs.Cache.ReleaseEnd | src/release.c:224-238 | the heap after seek, flag and unlock is the protocol's next state |
| Dropletfs.Cache.GcCallback | src/gc.c:18-86 | one visit of the collector is the protocol's step |
| Dropletfs.Cache.GcTurn | src/gc.c:95-99 | a turn over the keys is the fold of GcPass |
| Dropletfs.Cache.GetattrBegin | src/getattr.c:224-272 | the heap when the store is asked about an UNSET entry is the protocol's next state |
| Dropletfs.Cache.GetattrEnd | src/getattr.c:185-216 | the heap when the answer has come is the protocol's next state |
| Mount.Mount.Obtain | src/file.c:352-474 | a download is Done, Raw or Broken with the cache file of that outcome, Raw only after a failed rename(2), and Done when all its calls succeed on an object that decodes |
| Mount.Mount.Fetch | src/open.c:149-204 | what the body of an open gets: the new file unless that fails, the descriptor there is, or the download |
| Mount.Mount.Open | src/open.c:219-240 | a new handle is begun by exactly that step, and a handle in use by none |
| Mount.Mount.Lock | src/open.c:242-248 | the lock is granted exactly to a waiting handle of an unlocked entry, or refused |
| Mount.Mount.Body | src/open.c:250-266 | the body of a granted open is one step with what Fetch gets, and answers 0 exactly when the handle is open then |
| Mount.Mount.Create | src/create.c:60-98 | the end of dfs_create is one step, which goes on exactly with a descriptor, a good fstat and a good mknod where one is made; the store has the object made, and 0 is answered exactly when it goes on |
| Mount.Mount.Write | src/write.c:9-42 | a write is a step exactly through a writable descriptor, and then answers the number of bytes; a refused one answers -EBADF |
| Mount.Mount.Close | src/release.c:105-134 | an open handle drops its count by exactly one step |
| Mount.Mount.Ship | src/release.c:141-214 | an upload succeeds when its calls do; it is Sent in the right form, or Unsent with what a failure leaves or, under descriptor 0, the plain file under the tag |
| Mount.Mount.Send | src/release.c:141-223 | a release with an upload to do makes exactly that step, answering 0 when the calls succeed |
| Mount.Mount.Finish | src/release.c:224-238 | the unlock is one step, after the send or for an excluded path |
| Mount.Mount.Collect | src/gc.c:29-86 | a visit of a path in the table is one step |
| Mount.Mount.Stat | src/getattr.c:224-272 | a getattr is begun by one step |
| Mount.Mount.StatEnd | src/getattr.c:185-216 | and ended by one while its entry lives |
| Mount.Mount.Read | src/read.c:12-44 | a read of the heap gives the bytes of the plain file map of the run, unless the path is lost |
| Mount.FaultlessStep | src/release.c:136-223 | a request whose uploads and renames go well and that excludes nothing is served by a step without a fault |
| Mount.Mount.Serve | src/dropletfs.c:288-330 | a request is served exactly when it fits, by its step, with the answer that goes with it |
| Mount.Mount.Drive | src/dropletfs.c:288-330 | a sequence of requests is served and answered one by one, the steps being the run made; the heap agrees with its plain file map, on every path if no request has a fault |
| Zip.Zip | src/zip.c:38-86 | for every length and chunking the output is one complete stream for the source, both asserts hold, and without I/O faults it succeeds |
| Zip.Unzip | src/zip.c:94-150 | inverts a stream whatever follows it, answers Z_DATA_ERROR on every proper prefix and on the empty file, and success means a stream was there |
| StoredCodec.StoredValid | src/zip.c:66-76 | the stored-block codec keeps the whole contract, so the contract can be met |
| FileIO.OutFile.WriteAll | src/file.c:49-75 | under every schedule of short writes and interruptions the buffer is appended in order, and it fails only when write does |
| FileIO.ReadWriteAll | src/file.c:77-107 | the blocks sent are together the file from the offset on; a failure has sent a prefix |
| Transfer.CompressBeforeSending | src/release.c:22-79 | a positive answer means the tag is set and the file is a stream for the source, and is given when no call fails; the tag without it only for descriptor 0 |
| Text.NoCaseMeans | src/release.c:151 | a text begins with a key, case ignored, exactly when each of the key's places has the same character or the other case of the same letter, by their codes |
| Text.CaseBlind | src/conf.c:285-390 | texts that differ only in case begin with the same keys |
| Transfer.TagsAre | src/file.c:242-292 | no tag and "none" stand for the payload itself, "zlib" for what the stream at its start decodes to, any other tag for nothing |
| Transfer.Upload | src/release.c:141-214 | a setting that begins with z or Z, l or L, i or I, b or B, and no other, gets a file compressed; the tag "zlib" goes with the zipped form and no tag with the plain one, and either decodes to the file, unless the descriptor was 0; the zipped form is sent whenever it can be made, and the send succeeds when no call fails |
| Transfer.MistaggedEmptyFile | src/release.c:43-48 | an empty file sent under descriptor 0 cannot be read back |
| Transfer.MistaggedExactly | src/release.c:69-79 | a file sent plain under the tag reads back exactly when it begins with a stream for itself |
| Transfer.RawMeaning | src/file.c:281-285 | a compressed payload taken for the file is right exactly when it begins with a stream for itself |
| Transfer.DecodeZlib | src/file.c:265-292 | a tagged payload that begins with a stream stands for that stream's content and no other |
| Transfer.HandleCompression | src/file.c:213-307 | 0 means the local file has the decoded bytes, 1 exactly a tagged file still compressed after a failed rename(2) |
| Transfer.Download | src/file.c:352-474 | under a good descriptor the cache file has the decoded bytes if and only if rename(2) worked, or the object is plain, or its payload begins with a stream for itself; it succeeds when every call does |
| Transfer.UpThenDown | src/release.c:142-203 | what goes up comes down, for every content, setting and fallback, and goes up and comes down when the calls succeed |
| Decimal.PrintThenRead | src/metadata.c:23-35 | printing a 64-bit number and reading it back gives the number |
| Decimal.ReadsNumber | src/metadata.c:79 | a number behind spaces and in front of no digit is read: as itself, behind a minus sign modulo 2^64, and as the largest when too large |
| Decimal.ReadsInt | src/conf.c:212-239 | an int takes the number its text begins with, if it fits, with its sign |
| Metadata.WithMetaAt | src/metadata.c:37-48 | every field is written under its own name and is not overwritten by another |
| Metadata.FilledIn | src/metadata.c:37-48 | the same by the literal names: each of the seven has its field's number in decimal, and any other name what it had |
| Metadata.ReadBack | src/metadata.c:94-105 | a dictionary that anybody has filled is read by the literal names: each number below 2^32 - 1 is in the field of its name afterwards |
| Metadata.RoundTrip | src/metadata.c:94-105 | every field comes back, negative times included; a 64-bit field of value -1 stays what it was |
| Metadata.RoundTripExactly | src/metadata.c:65-93 | the structure comes back exactly when no field becomes -1 by the trip's own sentinel |
| Metadata.Stat.FillMetadata | src/metadata.c:37-48 | the dictionary after filling has the seven names and keeps the others |
| Metadata.Stat.FillFromMetadata | src/metadata.c:94-105 | the structure after filling is the stored one, field by field |
| RenameSpec.RelocatedMeans | src/rename.c:53-139 | a complete move: every old/rel is at new/rel, nothing is left under old, other entries of new and everything outside are kept |
| RenameSpec.ThereAndBack | src/rename.c:53-139 | moving a tree and moving it back restores everything exactly when nothing was at the new name |
| RenameSpec.FileMove | src/rename.c:29-48 | copy, then unlink if the copy succeeded: no bytes lost after either call under any answers, exact when both succeed |
| RenameSpec.SafeChild | src/rename.c:98-126 | a safe move of one entry keeps the whole directory's move safe |
| RenameSpec.PartialChild | src/rename.c:98-126 | an exact move of one entry takes the half-done move one entry further |
| Draws.ChildShare | src/rename.c:104-125 | the buffers an entry's move draws, taken from those of its directory |
| Draws.RingFitsByChildren | src/rename.c:98-126 | the ring suffices exactly when no child of the directory draws more than 30 buffers |
| TmpStr.SlotReuse | src/tmpstr.c:13-20 | two draws share a slot only 32 or more apart, and 32 apart they do |
| TmpStr.Lifetime | src/tmpstr.c:13-33 | a draw has its slot through the next 31 draws, and a later draw has it from the 32nd on |
| TmpStr.Ring.Printf | src/tmpstr.c:22-33 | every buffer of the ring holds the string of the last draw that used it |
| RenameSafe.FileSafely | src/rename.c:29-48 | a file's move is safe after every call, whatever the calls answer |
| RenameSafe.DirSafely | src/rename.c:53-139 | rename_directory under every schedule of failures: every original file's bytes are at the old path or its image after every call, no more than DrawsOf buffers are drawn, and the recursion ends within the stack |
| RenameSafe.DirExactly | src/rename.c:53-139 | if all calls succeed and the ring suffices the move is exact and draws exactly DrawsOf buffers |
| RenameRing.DirSpares | src/rename.c:104-131 | a directory none of whose later names is its own is left in place by every later call |
| RenameRing.DirOverflows | src/rename.c:98-126 | a directory whose move does not fit draws past the limit |
| RenameRing.EntryStays | src/rename.c:104-131 | a subdirectory that draws more than 30 buffers stays: its rmdir is given another name |
| RenameRing.RelocatesExactlyWhenItFits | src/rename.c:53-139 | with every call succeeding the move is exact if and only if no subdirectory draws more than 30 buffers |
| RenameRing.PlainSubdirectories | src/rename.c:104-105 | with subdirectories of plain files: if and only if each has at most ten |
| RenameRing.CrowdMoves | src/rename.c:104-131 | a directory with one subdirectory of empty files: moved if and only if there are at most ten of them |
| RenamePlain.StrayDir | src/rename.c:53-139 | a rename_directory under overwritten names of a plain directory changes only what is below entries of the new one, whatever it recurses into |
| RenamePlain.PlainDir | src/rename.c:53-139 | a directory of plain files moves safely under every schedule of failures, however many files it has |
| RenamePlain.RenameTame | src/rename.c:141-184 | dfs_rename is safe under every schedule of failures when each entry draws at most 30 buffers or is a directory of plain files, and the cache directory is not in the store |
| RenameLoss.StuckNest | src/rename.c:53-126 | a directory within a directory whose one file cannot be copied: both stay, and six buffers are drawn |
| RenameLoss.LastTurn | src/rename.c:104-125 | an entry of a directory whose names hold later strings: another file is copied over one that had not moved |
| RenameLoss.DirLoses | src/rename.c:53-139 | for every tree of that shape a file's bytes are neither at its old path nor at its new one after some call |
| RenameLoss.RenameLoses | src/rename.c:141-184 | dfs_rename of a directory holding such a subdirectory is not safe, although every call that can be done is done |
| RenamePit.RenameDestroysAFile | src/rename.c:141-184 | there is such a tree, with sixteen names in the subdirectory |
| RenameRing.ZeroForFile | src/rename.c:29-48 | when the rename of a file answers 0 its bytes are at the new name |
| RenameRing.ZeroWithNothingMoved | src/rename.c:98-139 | the rename of a directory can answer 0 with nothing moved |
| RenameRing.RenameSafely | src/rename.c:141-184 | dfs_rename under every schedule of failures is safe when the ring suffices, whatever its lookup answers |
| RenameRing.RenameExactly | src/rename.c:141-184 | with every call succeeding dfs_rename moves what can be moved exactly if and only if the ring suffices, and then answers 0 |
| RenameAnswer.GoneMeansMoved | src/rename.c:128-133 | after a safe rename nothing is at the old name if and only if nothing is below it and every file is at its new name |
| RenameAnswer.PlainAnswer | src/rename.c:98-133 | with every call succeeding, rename_directory of a directory of plain files whose names are in the ring answers 0 up to eleven files and -1 from twelve on |
| RenameAnswer.OnlyAnswer | src/rename.c:53-139 | so does rename_directory of a directory that holds such a directory and nothing else |
| RenameReport.FileAnswer | src/rename.c:29-48 | dfs_rename of a file answers -1 if and only if the copy fails or cannot be made, whatever the unlink answers |
| RenameReport.OldNameRefused | src/rename.c:155-168 | a lookup of the old name that fails with 1, or leaves no supported type, makes the answer -1 with nothing done |
| RenameReport.TargetRefused | src/rename.c:66-82 | a lookup of the new name or a mkdir that fails with anything but ENOENT makes the answer -1, with nothing changed but what the mkdir may have done |
| RenameReport.SourceRefused | src/rename.c:84-96 | an old directory that cannot be entered or opened makes the answer -1 exactly for the status -1, and nothing is moved |
| RenameReport.MissingEntry | src/rename.c:113-125 | an entry that is not there is taken for what the one before it was: a failed copy, or a directory made for nothing |
| RenameReport.EntryUnknown | src/rename.c:113-120 | an entry whose lookup fails with anything but ENOENT makes the answer of dfs_rename -1, and what was moved before stays moved |
| RenameReport.DirectoryAnswer | src/rename.c:98-133 | once the directory is listed dfs_rename answers -1 if and only if an entry cannot be looked up, or the last one that was moved answered -1 |
| RenameReport.FilesAnswer | src/rename.c:141-184 | with every call succeeding dfs_rename of a directory of plain files moves them all and answers 0, however many there are |
| RenameReport.OnlyRename | src/rename.c:141-184 | with every call succeeding dfs_rename of a directory that holds one directory of plain files and nothing else answers 0 up to eleven files and -1 from twelve on |
| Rename.Renamer.RenameFile | src/rename.c:17-51 | the tree, the strings, the calls and the answer are those of FileRun |
| Rename.Renamer.MoveEntries | src/rename.c:98-126 | the loop ends with the tree, the strings and the answer of LoopRun |
| Rename.Renamer.RenameDirectory | src/rename.c:53-139 | the recursion ends with the tree, the strings and the answer of DirRun |
| Rename.Renamer.DfsRename | src/rename.c:141-184 | safe after every call when the ring suffices or overflows in plain directories only, every file moved once the old name is gone; with every call succeeding, exact if and only if the ring suffices; the answer is 0 or -1, -1 exactly for a file that is not copied and for a listed directory with an entry that cannot be looked up or a last entry that answered so, -1 with the tree as it was when the new name is refused |
| ListSpec.RemoveAllIterates | src/list.c:66-107 | removing all matches is removing the first match to a fixed point |
| ListSpec.AddThenRemove | src/list.c:15-64 | removing what was just added restores the list |
| ListSpec.WithoutKeepsOrder | src/list.c:135-159 | what is kept is a subsequence in order |
| List.Heap.AddThenRemove | src/list.c:15-64 | removing what was just added leaves the very cells there were and frees only the new one; adding what does not match leaves a removal alone |
| List.FiltersComplement | src/list.c:161-175 | list_filter and list_rfilter together keep exactly the cells that hold something, each once |
| List.FilterLeaves | src/list.c:161-175 | list_filter leaves each element that does not satisfy the criterion as often as it was there, list_rfilter each that does, and neither an empty cell |
| List.WithoutCells | src/list.c:66-107 | keeping cells is keeping their values |
| List.Heap.Add | src/list.c:15-29 | a new cell in front, the list behind it untouched |
| List.Heap.Remove | src/list.c:31-64 | exactly the first match is unlinked and freed, and no freed cell is touched |
| List.Heap.RemoveAll | src/list.c:66-107 | exactly the cells that do not match are left, in order; each match is freed once and no freed cell is touched |
| List.Heap.FilterList | src/list.c:135-159 | the right cells are left in order, and a freed cell is touched exactly when the first two are both dropped |
| List.Heap.ListFilter | src/list.c:161-167 | left are exactly the cells whose element does not satisfy the criterion; the others are freed |
| List.Heap.ListRfilter | src/list.c:169-175 | left are exactly the cells whose element satisfies the criterion; the others are freed |
| ConfSpec.Precedence | src/conf.c:520-562 | each integer setting ends as its non-empty environment value, else the last line for it before the first rejected one, else the default |
| ConfWords.EveryInteger | src/env.c:79-138 | each of the eight integer fields by its own literal variable, keyword and default: a non-empty variable decides, else the last line for the keyword before the first rejected one, else the default |
| ConfWords.VariableOfKeyword | src/env.c:79-138 | every variable is "DROPLETFS_" and the keyword in capitals |
| ConfWords.EveryText | src/conf.c:520-562 | the same for the text fields, by their literal variables, keywords and defaults; an empty value in the file does not count |
| ConfWords.ThePattern | src/conf.c:346-351 | the exclusion pattern: its variable counts even when empty or wrong, and leaves none then |
| ConfWords.TheLevel | src/conf.c:83-99 | the log level by the literal names of its eight values, from the variable, the last line or the default |
| ConfWords.RejectedMeans | src/conf.c:278-401 | a line is rejected exactly when it has no '=' and begins with one of the literal keywords in any case, or names a cache directory that cannot be made |
| ConfWords.WrittenInAnyCase | src/conf.c:278-401 | a keyword in any case, behind spaces, with '=' and a number after it, sets that keyword to that number |
| ConfWords.CacheDirIs | src/conf.c:168-210 | the bucket below the directory given, without the slashes at its end once it is made |
| ConfSpec.FileFold | src/conf.c:443-472 | the last line for a setting decides, whatever the other lines are |
| ConfSpec.OneKey | src/conf.c:32-59 | a line names two settings only if they are profiling and profiling_logfile |
| ConfSpec.NeighboursCommute | src/conf.c:443-472 | two neighbouring lines that name no common setting and are not rejected can change places in any file |
| ConfSpec.LinesCommute | src/conf.c:278-401 | lines that name no common setting commute |
| ConfSpec.ProfilingOrder | src/conf.c:384-396 | a profiling line and a profiling_logfile line commute exactly when they read as the same number |
| ConfSpec.LogfileTurnsProfilingOff | src/conf.c:384-396 | naming an absolute path as log file sets profiling to 0 |
| ConfSpec.CompressionLevelIgnored | src/conf.c:292-297 | a compression_level line is accepted and changes nothing |
| ConfSpec.ExclusionByEnvironment | src/conf.c:346-351 | paths are excluded if and only if the environment has a pattern that compiles; the file's is never compiled |
| ConfSpec.CommentIgnored | src/conf.c:415-436 | a blank line and a comment change nothing and are not rejected |
| Conf.AssignedValue | src/conf.c:219-231 | the loops find the text after the first '=' without its leading spaces |
| Conf.Conf.ParseToken | src/conf.c:278-401 | the fields after a line, and whether it is rejected |
| Conf.Conf.ParseFile | src/conf.c:443-472 | the fields after the lines up to and including the first rejected one |
| Conf.Conf.EnvOverride | src/env.c:159-195 | the fields after the environment, empty values not counting, but for the exclusion pattern, which an empty or a wrong value unsets |
| Conf.Conf.constructor | src/conf.c:520-562 | defaults, cache directory, file and environment in this order, the integer fields by their literal variables, keywords and defaults |
| Retry.Retry | src/timeout.c:6-31 | the answer returned, the number of calls and the exact time slept, 2^k - 1 for k retries; one call exactly for the literal first answers of AtOnce |
| Retry.AtOnce | src/timeout.c:18-31 | which first answers are not tried again, wrapper by wrapper, in literal statuses |
| Retry.FirstFinalOrLast | src/timeout.c:156-174 | at most max_retry + 1 calls; the first final answer of the wrapper's own set, or the last one |
| Retry.DelayFits | src/timeout.c:6-11 | the delay fits an int for every sequence of answers exactly when max_retry is at most 30 |

## Left out

- Codec: zlib itself is a contract on the two stream functions; the compression level has no part in it.
- CacheProtocol: a collector's visit is one step, and so are a download with the fields it sets and an upload with the object it leaves; in C the collector reads the count and tries the lock in two calls.
- CacheProtocol.AfterOpenBegin: lookup, insertion and count are one step; in C the collector can free the entry between src/open.c:219 and 238, and two first opens of a path can both insert. CacheRuns.EntryOutlivesOpen speaks from the count on.
- CacheProtocol.AfterGetattrEnd: a getattr in flight is not counted, so the collector may free its entry; what C then does with the freed entry is not modelled, and the step is taken only while the entry lives.
- CacheProtocol.AfterCreateEnd: dfs_create going on after its open was refused the lock, which has already dropped the count, is not a step.
- CacheProtocol.PWrite: a pwrite(2) that is short or fails for want of space is not a step.
- Dropletfs.Cache.GcTurn: g_hash_table_foreach runs over a table the callback changes; the model runs over a snapshot of the keys.
- Dropletfs.Cache.ReleaseBegin: fstat(2) on an open descriptor is taken to succeed; in C its failure unlocks without dropping the count.
- Dropletfs.Cache.CreateEnd: the match against the exclusion pattern is its parameter; the lookup before it, fchmod(2) and the metadata are not modelled, and -errno is -1 here.
- Mount.Mount.Drive: a request that does not fit the state of its handle is not served; FUSE does not make such requests.
- Mount.Mount.Read: asks that the path is not lost; see CacheRuns.LostOnlyBy.
- Dropletfs.Cache.GcCallback: the cache file's unlink(2) is taken to succeed, and ten times the threshold to fit an int.
- Another client of the store changing an object is not a step; neither are dfs_unlink and dfs_rename of a path that is open, which free its entry without looking at the count.
- Transfer.UpThenDown: asks for a descriptor of the temporary file other than 0 and for no failed rename(2), because the property is false there; see Transfer.MistaggedExactly and Transfer.Download.
- Transfer.Upload: the AES flag and the lengths announced to the store are not modelled; the download side never decrypts, because src/file.c:335-337 leaves before it could.
- Zip: stdio buffering; a read or write that fails is an answer of the environment.
- Metadata: dpl_dict_update_value failing, and the md_mutex around the metadata of an entry.
- Rename.Renamer.DfsRename: of a tree with a subdirectory that draws more than 30 buffers and has directories in it, it is not said which moves are safe all the same; old and new name are neither below the other; the new name "." and the file types other than directory and regular file.
- RenameSafe.DirSafely: asks for RingFits, which cannot be dropped; see RenamePit.RenameDestroysAFile, and RenamePlain.RenameTame for a larger class.
- RenamePlain.RenameTame: asks that the cache directory's path is not one of the store's, because a deleted file's cache path is drawn among the names; nothing is said of the recursion ending within the stack.
- RenameReport.OnlyRename: the number of files is given for one subdirectory; with more entries the answer is the last one's, as RenameReport.DirectoryAnswer says.
- RenameReport.DirectoryAnswer: says nothing when the stack runs out.
- RenameRun.DirRun: the stack is a parameter, the number of calls there is room for; rmdir is taken never to delete a directory that has entries, and each directory to be listed with every child once.
- RenameRun.LoopRun: its return value is the last entry's, as in src/rename.c:122-133, where a later success hides an earlier failure.
- Rename.Renamer.DfsUnlink: the entry, the cache file and the parent's list of names; the model follows the store.
- RemoteTree: of the statuses of libdroplet only success, ENOENT and -1 are told apart, and a trailing '/' of a name is not modelled because paths are sequences of names.
- TmpStr.Ring.Printf: a string longer than the buffer is cut in C and kept whole here; a draw whose argument is the very buffer it overwrites, the 32nd after it, is undefined in C and takes the old string here.
- List.Heap.FilterList: a freed cell stays readable, which is what the code relies on in that case.
- List.Heap.Add: malloc(3) is taken to succeed.
- Conf.Conf.ParseFile: starts from the lines; how fgets splits and cuts them is not modelled.
- Conf.IfLevel: an empty log_level value reaches strcmp as NULL in C; here it is the default level.
- Conf.Conf.EnvOverride: which patterns regcomp(3) accepts is a parameter; the pattern's text after a wrong one, freed in C, is empty here.
- Conf.Conf: freeing of the strings that are replaced, one of which, the default log file's name, was never allocated.
- Retry.Retry: numbers are unbounded, so that DelayFits can say when C's int overflows.
- The constants of fcntl.h, errno.h, syslog.h, zlib.h and libdroplet are not in the repository; their usual values are used where a value matters.
- readdir, symlink, chmod, chown, statfs, the directory cache, profiling and the unimplemented operations are not modelled: they would add only easy members.
