# Verified models of five systems

The repository is a set of systems programs. This project models five of them and proves what they are for:

* **The lazy thread pool** of assign5, as a labelled transition system with a program counter for the dispatcher, every
  worker, every `schedule()` call, every `wait()` call and the destructor. Much of its state is shared without a lock; the
  proofs replace the ownership argument that the header only asserts. Every run is safe, every run is finite, and a run
  can only end once every thunk has run exactly once and every caller has been served.
* **The Unix V6 file system reader and the indexer above it**, of assign2. A sector cache in two regions, a table of open
  files that prefetches, duplicate detection by checksum, a tokenizer and a recursive walk: each layer is imperative code
  on arrays and fields, and each is proved to be a fast form of something flat: a disk, a byte string, equality of
  contents, the letter runs of a file, a tree of files. On top stand theorems about the index that a scan builds.
* **The coin ledger** of assign8: what a verdict of `verifyBlock` means, what accepted blocks keep true of the ledger, and
  what a farmer's outstanding transactions keep true between requests. Signatures and hashes are uninterpreted functions.
* **The tiny shell** of assign3, as a labelled transition system in which the SIGCHLD handler runs at any point where the
  signal is not blocked, over a job table kept in a fixed array; and the in-place command-line parser.
* **The HTTP response parser and printer** of assign6: reading undoes printing, for header fields and folding (section
  3.2 of RFC 7230) and for the chunked coding (section 4.1 of RFC 7230).

## How the files hang together

| area | files |
|---|---|
| shared | `Basics.dfy`, `Sums.dfy`, `DivMod.dfy` |
| thread pool | `ThreadPool.dfy` (the system), `ThreadPoolInvariant.dfy`, `ThreadPoolSafety.dfy` (preservation), `ThreadPoolTheorems.dfy`, `ThreadPoolProgress.dfy`, `ThreadPoolGrowth.dfy` (when threads are created), `ThreadPoolLimits.dfy` (runs) |
| sector cache | `Disksim.dfy`, `CacheSpec.dfy` (on values), `CacheTheorems.dfy`, `CacheMem.dfy` (in place) |
| file system | `Inode.dfy`, `File.dfy`, `Directory.dfy`, `Pathname.dfy`, `Fileops.dfy`, `Layout.dfy` (the formats on disk, written down and read back) |
| indexer | `Pathstore.dfy`, `Words.dfy`, `Index.dfy`, `Scan.dfy`, `ScanTheorems.dfy`, `DiskSearch.dfy`, `ExampleDisk.dfy` |
| ledger | `Txn.dfy`, `Block.dfy`, `Ledger.dfy`, `Farmer.dfy` (handlers as single steps), `FarmerThreads.dfy` (handlers as threads) |
| shell | `Jobs.dfy`, `Shell.dfy`, `ShellSafety.dfy`, `ShellLimits.dfy` (runs), `Parse.dfy` (on strings), `ParseLine.dfy` (in place) |
| HTTP | `HttpText.dfy`, `HttpStream.dfy`, `HttpHeader.dfy`, `HttpPayload.dfy`, `HttpResponse.dfy` |

Where the source updates a structure in place, the model does too (a class or an array), and each such method is proved
against a function on values; the theorems are about those functions and about runs of them. `ExampleDisk.dfy` builds a
disk that meets every condition of the theorems about scanning, so that they are not about nothing.

## Where the code falls short of what it promises

Each of these is proved, either as the exact condition under which the code does what is promised or with a concrete run:

* `wait()` can return while a thunk whose `schedule()` call has returned has not run, because another call is between
  pushing its thunk and counting it. assign5/thread-pool.h promises otherwise. `ThreadPoolTheorems.WaitReturns` gives the
  exact condition, `ThreadPoolLimits.WaitCanReturnEarly` a run.
* A pool of no threads never runs anything; every other pool serves its clients
  (`ThreadPoolLimits.ServesClientsExactlyWithThreads`).
* A read past the end of the disk transfers nothing the first time and then comes back from the cache as a full sector
  (`CacheTheorems.TransparentExactlyOnDisk`).
* The number of valid bytes that `file_getblock` returns is wrong for blocks past the end of a file, unless the file's
  size is a multiple of 512 (`File.ValidBytesExactly`); `File.GetBlockPastEnd` reads such a block.
* Requests that are handled at the same time can leave the outstanding list with two transactions for one coin, or with
  one that does not verify any more: the checks and the push are separate critical sections. Over every run of any TXN and
  BLOCK handlers the list keeps its promise exactly if at each push what was checked before still holds
  (`FarmerThreads.InterleavedHandlers`). `FarmerThreads.DuplicateRun` and `FarmerThreads.BlockRaceRun` are runs in which it
  does not; a block that is farmed before a later purge repairs the list is rejected.
* Two live jobs can have the same job id. Ids stay distinct throughout a run exactly if no job is added while a live job
  has the next id (`ShellSafety.JobIdsDistinctExactly`), which is so until ids wrap (`ShellSafety.NoWrapNoClash`).
  `ShellLimits.JobIdsCollide` is a run of the shell that ends with two jobs of id 1.
* `waitfg` is suspended although its job is no longer in the foreground exactly if the handler updated the job's entry
  between the test, or the call, and sigsuspend (`ShellSafety.WaitfgMissesExactly`). In `ShellLimits.WaitfgCanMissItsJob`
  no child is left to wake it, in `ShellLimits.WaitfgCanWaitForAnother` only an unrelated one.
* The prompt can wait with SIGCHLD blocked: exactly after a built-in whose redirection failed and after a command that
  found the job table full (`ShellSafety.PromptIsBlockedExactly`); `ShellLimits.BadRedirectionBlocksPrompt` and
  `ShellLimits.FullTableBlocksPrompt` are runs.
* The parser drops the last argument of any line whose last argument starts with `&`, even where it is quoted
  (`Parse.ParseUndoesPrint`).
* A header that was read can be printed and read back unchanged exactly if no value is left in it that started as the
  continuation of an empty or missing value: the space in front of such a value is lost
  (`HttpHeader.IngestedReadBackExactly`; the text in `HttpHeader.SpaceIsRead`, the loss in `HttpHeader.SpaceIsLost`).
* A payload whose length does not fit an int gets a Content-Length that is not its length
  (`HttpPayload.LengthIsCanonical`).

## Model

| member | source | states |
|---|---|---|
| ThreadPoolSafety.InitInv | assign5/thread-pool.cc:14-28 | a newly constructed pool with at least one thread satisfies the invariant: who owns each worker's flag, semaphore and thunk, and what both counting semaphores and both counters stand for |
| ThreadPoolSafety.StepKeepsInv | assign5/thread-pool.cc:34-216 | every step of the dispatcher, any worker, any call to schedule() or wait(), the destructor or a client keeps the invariant |
| ThreadPoolSafety.RunKeepsInv | assign5/thread-pool.cc:34-216 | so does every run, in any interleaving |
| ThreadPoolSafety.ReachableInv | assign5/thread-pool.cc:14-216 | every reachable state of a pool with at least one thread satisfies it |
| ThreadPoolTheorems.ThunkCustody | assign5/thread-pool.cc:60-81 | a thunk that was pushed is in exactly one of four places: queued, assigned to a worker, running, finished; and no two workers hold the same thunk |
| ThreadPoolTheorems.NoOverwrite | assign5/thread-pool.h:88-91 | whatever step is taken, a worker's thunk is replaced only by the dispatcher's assignment, and never while that worker still has to run the old one: the ownership argument that stands in for a lock |
| ThreadPoolTheorems.RunsOnce | assign5/thread-pool.cc:181-193 | a thunk enters the finished history only when the worker that holds it executes it, and it was not there before |
| ThreadPoolTheorems.HandedOutInPushOrder | assign5/thread-pool.cc:69-81 | along every run thunks are handed out in push order, and no history is rewritten |
| ThreadPoolTheorems.JobsCountMeaning | assign5/thread-pool.cc:43-64 | jobsCount is never negative; it is the number of pushed thunks not yet run, plus those run but not yet counted down, minus the calls between addJob and incrementJobsCount |
| ThreadPoolTheorems.CountersBounded | assign5/thread-pool.cc:86-105 | 0 <= numAvailableThreads <= currentThreads <= numThreads, although flags and counter change in separate steps |
| ThreadPoolTheorems.ScanFindsWorker | assign5/thread-pool.cc:129-149 | the unlocked scan of the worker table always finds an available worker within the table, and the queue it then takes from is not empty |
| ThreadPoolTheorems.WaitReturns | assign5/thread-pool.cc:34-38 | where wait() returns, every pushed thunk has run if and only if no schedule() call is between addJob and incrementJobsCount |
| ThreadPoolTheorems.IdleMeaning | assign5/thread-pool.cc:48-64 | the same equivalence in any state in which jobsCount is 0 |
| ThreadPoolProgress.StepLowersMeasure | assign5/thread-pool.cc:34-216 | every step lowers a natural number computed from the state |
| ThreadPoolProgress.RunsAreFinite | assign5/thread-pool.cc:34-216 | so no run is longer than that number at its start, with no assumption of fairness |
| ThreadPoolProgress.StoppedIsComplete | assign5/thread-pool.cc:154-216 | a reachable state in which no thread of the pool and no call can move has nothing outstanding: no deadlock, no lost wakeup, and a destructor that was called has joined the dispatcher and every worker |
| ThreadPoolProgress.EveryThunkRan | assign5/thread-pool.cc:60-64 | in such a state the finished thunks are exactly those scheduled, each once |
| ThreadPoolProgress.PoolServesEveryClient | assign5/thread-pool.h:29-54 | from construction on, with at least one thread, whatever the clients do: runs are finite, and where one ends every thunk has run exactly once and every schedule(), wait() and destructor call has returned |
| ThreadPoolGrowth.StepKeepsGrowth | assign5/thread-pool.cc:154-176 | past the point where it may create a thread, the dispatcher knows that someone is available or that all threads exist; each of its rounds creates at most one thread and hands out a thunk |
| ThreadPoolGrowth.BlockedOnlyWhenFull | assign5/thread-pool.cc:163-166 | over every run: where the dispatcher waits for a worker and none is about to signal, all numThreads threads have been created and every one of them has work |
| ThreadPoolGrowth.SpawnsOnlyWhenNeeded | assign5/thread-pool.cc:110-123 | over every run: a thread is created by the dispatcher only, and only if it read last that no thread was available |
| ThreadPoolGrowth.NeverMoreThreadsThanThunks | assign5/thread-pool.cc:154-176 | over every run there are never more threads than thunks that were scheduled |
| ThreadPoolGrowth.DestructorSignalsOnce | assign5/thread-pool.cc:198-216 | over every run: a finished destructor has left exactly one permit of availableThread beyond those of the available workers |
| ThreadPoolGrowth.FullPoolIsReachable | assign5/thread-pool.cc:110-149 | for every pool size, if the clients make as many calls, a state is reachable in which all numThreads workers are inside their thunks |
| ThreadPoolLimits.ServesClientsExactlyWithThreads | assign5/thread-pool.cc:129-132 | the pool serves its clients in every run if and only if numThreads is at least 1 |
| ThreadPoolLimits.EmptyPoolIsStuck | assign5/thread-pool.cc:129-132 | with numThreads 0 there is a run that ends with a thunk never run and wait() suspended |
| ThreadPoolLimits.WaitCanReturnEarly | assign5/thread-pool.cc:60-64 | a run in which wait() is called after a schedule() call has returned, and returns before that thunk has run |
| CacheSpec.RegionsDisjoint | assign2/cachemem.c:127-153 | for every accepted size the protected lines end before the direct-mapped region starts, lines do not overlap, none runs past the allocation, and the direct-mapped region is not empty |
| CacheTheorems.PerformKeepsCoherent | assign2/cachemem.c:155-328 | each cached read and each erase keeps every line of either region that claims a sector of the disk equal to that sector |
| CacheTheorems.RunKeepsCoherent | assign2/cachemem.c:155-328 | so does any run of reads, saves, demotions and erases |
| CacheTheorems.CachedReadIsDiskRead | assign2/diskimg.c:37-81 | then either cached read returns the count and the bytes that the disk itself would, for every sector not past the end |
| CacheTheorems.TransparentExactlyOnDisk | assign2/diskimg.c:37-58 | after every run from a fresh cache a read returns what the disk would, if and only if the sector is on the disk, negative or 0 |
| CacheTheorems.ReadPastEndIsCached | assign2/diskimg.c:49-57 | otherwise the first read returns 0 and the next one a full sector holding what the first caller's buffer held |
| CacheTheorems.SaveKeepsPinned | assign2/cachemem.c:204-312 | no save displaces a protected line of a doubly-indirect directory block that has an owner |
| CacheTheorems.PinnedSurvives | assign2/cachemem.c:204-328 | nor does any run of reads and erases that does not erase that owner |
| CacheTheorems.EraseReleases | assign2/cachemem.c:319-328 | erasing an owner frees its lines for any file or directory and changes no line of another owner |
| CacheTheorems.ReadIsCached | assign2/diskimg.c:37-81 | after either read of a sector of the disk the next fetch of that sector hits, with the bytes of the disk |
| CacheTheorems.DisplacedIsFetched | assign2/cachemem.c:221-288 | a live protected line that a save displaces, a directory's of another owner or a file's own, is still fetched afterwards |
| CacheTheorems.NotProtectedExactly | assign2/cachemem.c:297-312 | a save leaves the protected region alone only if no line of it is free, stale or singly-indirect, and then saves in the direct-mapped region |
| CacheTheorems.DirectoryPlace | assign2/cachemem.c:246-275 | a directory's block replaces the owner's own first singly-indirect line, or else the first line that is free or holds a file's block, and nothing else changes |
| CacheTheorems.FilePlace | assign2/cachemem.c:204-225 | a file's block replaces the first line that is free or holds another file's block, and nothing else changes |
| CacheTheorems.KindReadBack | assign2/cachemem.c:204-312 | type and level of indirection, packed into one int, are told apart again |
| CacheMem.Cache.constructor | assign2/cachemem.c:90-120 | allocation succeeds exactly for positive sizes within the limit that are multiples of 4 KB, and gives an all-zero cache of that many lines |
| CacheMem.Cache.FetchSector | assign2/cachemem.c:166-176 | a hit in the direct-mapped region or else the first protected line with that sector; otherwise the error code and an untouched buffer |
| CacheMem.Cache.FetchSectorInInodeCache | assign2/cachemem.c:186-197 | the first protected line with that sector |
| CacheMem.Cache.SaveSector | assign2/cachemem.c:178-184 | exactly one line changes, the one that the hash selects |
| CacheMem.Cache.SaveFileSector | assign2/cachemem.c:204-238 | in place, what SaveFile does on values: the first free or stale line, else the first singly-indirect one, which is demoted, else failure with nothing changed |
| CacheMem.Cache.SaveDirectorySector | assign2/cachemem.c:246-288 | in place, what SaveDirectory does on values, with its three searches in order |
| CacheMem.Cache.SaveSectorInInodeCache | assign2/cachemem.c:297-312 | in place, what SaveInode does on values, falling back on the direct-mapped region |
| CacheMem.Cache.EraseSectors | assign2/cachemem.c:319-328 | exactly the lines of that owner lose it |
| CacheMem.Cache.ReadSector | assign2/diskimg.c:37-58 | agreement with the disk is kept, and a sector not past the end is returned as the disk holds it |
| CacheMem.Cache.ReadSectorInode | assign2/diskimg.c:60-81 | the same for the protected region, for every owner and level of indirection |
| Inode.PathsAreDistinct | assign2/assign1/inode.c:83-158 | for every block number of a large file the path through the index blocks exists and all its indices are in range; different blocks have different paths |
| Inode.IGet | assign2/assign1/inode.c:64-78 | failure for an inumber out of range; otherwise, on a complete inode table, the inode that the table on the disk holds |
| Inode.FindInDoublyIndirectBlock | assign2/assign1/inode.c:92-103 | the entry of the single index block that the double index block leads to |
| Inode.AddressIsListed | assign2/assign1/inode.c:83-137 | the sector of block k is element k of one flat list: the eight addresses of a small file; for a large one the words of the blocks at the first seven addresses in order, then the words of the blocks that the block at the eighth lists, in order |
| Inode.FindForLargeFile | assign2/assign1/inode.c:109-137 | the sector at the end of the 7-single-plus-1-double tree as it is on the raw disk; the index blocks are cached for their owner, as directory or file and with their level of indirection |
| Inode.IndexLookup | assign2/assign1/inode.c:146-158 | lookup through the cache gives element k of that flat list of the raw disk, and failure outside it |
| File.BytesUpToAt | assign2/assign1/file.c:52-77 | the flat contents of a well-formed inode: byte k is byte k % 512 of block k / 512 |
| Layout.ContentsListed | assign2/assign1/file.c:52-77 | byte k of a file is byte k % 512 of the sector that its flat list of sectors has at k / 512 |
| Layout.InodeReadBack | assign2/assign1/ino.h:29-39 | 32 bytes that hold an inode, field by field and low byte first, are read as that inode |
| Layout.TableReadBack | assign2/assign1/inode.c:21-46 | an inode table written from sector 2 on, 16 a sector, is read back: number n is its n-th inode, and no other number is valid |
| Layout.ModeReadBack | assign2/assign1/ino.h:41-51 | the bits of a mode tell allocated, large, regular and directory apart as written |
| Layout.SizeReadBack | assign2/assign1/inode.c:160-162 | a 24-bit size split over the two fields is read back |
| Layout.WordsReadBack | assign2/assign1/inode.c:109-137 | an index block written as 256 words is read as those words |
| File.ValidBytesExactly | assign2/assign1/file.c:65-72 | the count of valid bytes is the number of the file's bytes in that block if and only if the block starts before the end of the file or the size is a multiple of 512 |
| File.GetBlockPastEnd | assign2/assign1/file.c:52-77 | reading block 1 of a file of 100 bytes whose inode has a second address returns 100, where the file has no bytes |
| File.GetBlock | assign2/assign1/file.c:52-77 | failure outside the block range or after a failed inode fetch; otherwise the block as it is on the disk and its count of valid bytes |
| File.GetBlockByInumber | assign2/assign1/file.c:88-117 | the same when the inode is fetched on every call |
| File.NextBlock | assign2/assign1/chksumfile.c:68-79 | the valid bytes of each block extend the prefix hashed so far by exactly the next bytes of the file |
| File.HashedBytes | assign2/assign1/chksumfile.c:53-85 | what is fed to the checksum, in order, is exactly the contents of the file, `size` bytes |
| File.HashedBytesByInumber | assign2/assign1/chksumfile.c:16-51 | the same for the slow form that fetches the inode again for every block |
| Directory.BlockEntries | assign2/assign1/directory.c:76-90 | the number of whole entries in each block, and that blocks together hold all whole entries of the directory |
| Directory.EntryOfBlock | assign2/assign1/directory.c:76-97 | entries do not straddle blocks: entry j of block b is entry 32 b + j of the flat directory |
| Directory.AdvanceSearch | assign2/assign1/directory.c:76-97 | a block without a match advances the search by that block; a match is the first in the whole directory |
| Directory.SearchBlocks | assign2/assign1/directory.c:76-97 | the block-wise search finds the first matching entry of the flat contents, or fails if there is none |
| Directory.FindName | assign2/assign1/directory.c:57-102 | the same from an inumber and a name, with the name cut to 13 characters |
| Layout.EntryReadBack | assign2/assign1/direntv6.h:10-13 | 16 bytes that hold an inode number and a name filled up with NULs are read as that number and name |
| Layout.KeysDiffer | assign2/assign1/directory.c:57-75 | names of at most 13 characters compare equal exactly if they are equal |
| Layout.LookupReadBack | assign2/assign1/directory.c:57-102 | in a directory written as a list of names and numbers, looking up a name finds the number of the first entry with just that name, and nothing if there is none |
| Pathname.ComponentsAreNames | assign2/assign1/pathname.c:42-73 | every component of a path is non-empty and without a slash |
| Pathname.ComponentsOfChild | assign2/assign1/pathname.c:42-73 | appending a slash and a name to any path appends exactly that component |
| Pathname.PathnameLookup | assign2/assign1/pathname.c:42-73 | the loop over tokens returns the inumber at the end of the walk from the root over the flat directories, or failure |
| Pathname.WalkChild | assign2/assign1/pathname.c:55-70 | one more component is one more directory search, and failure persists |
| Pathname.ResolveChild | assign2/assign1/pathname.c:42-73 | looking up parent/name is looking for the name in what the parent resolves to |
| Fileops.NthGetchar | assign2/fileops.c:181-218 | over repeated calls, call n + 1 returns byte n from the cursor on, and -1 for ever after the end |
| Fileops.ByteUnderCursor | assign2/fileops.c:208-217 | the assertion that the prefetched block covers the cursor never fails, and the byte is the file's byte at the cursor |
| Fileops.StretchStart | assign2/fileops.c:146-164 | a sequential reader asks for the next stretch exactly at a multiple of the prefetch length, and never past the end of the file |
| Fileops.FilledStore | assign2/fileops.c:146-176 | after a prefetch, block b of the stretch is found at index b modulo the prefetch length |
| Fileops.FreeSlotIff | assign2/fileops.c:333-338 | a search for a slot can succeed exactly if the count of free slots is positive |
| Fileops.FreeSlotsUpdate | assign2/fileops.c:333-350 | opening takes one free slot and closing gives one back: the measure of the recursive scan |
| Fileops.FileTable.PrefetchFileContents | assign2/fileops.c:146-164 | afterwards the cursor's block is in the store and every stored block is the disk's; other slots and the slot's own cursor are untouched |
| Fileops.FileTable.NextByte | assign2/fileops.c:202-218 | the byte of the flat contents under the cursor, and the cursor one further |
| Fileops.FileTable.Getchar | assign2/fileops.c:181-218 | one step of reading the flat byte string, for any prefetch length of at least 1 and however other descriptors are used in between |
| Fileops.FileTable.Read | assign2/fileops.c:224-233 | the next bytes of the flat contents, as many as asked for or are left |
| Fileops.FileTable.OptimizedOpen | assign2/fileops.c:322-354 | succeeds exactly with a fetched inode and a free slot; takes the first free slot, at position 0, and changes no other |
| Fileops.FileTable.OpenPath | assign2/fileops.c:88-119 | succeeds exactly if the path resolves to a valid inode and a slot is free, and then reads that inode |
| Fileops.FileTable.OptimizedIsFile | assign2/fileops.c:303-315 | true exactly for an allocated regular file; returns the inode of the disk |
| Fileops.FileTable.Close | assign2/fileops.c:248-260 | frees that slot only, and erases exactly the protected lines owned by its inode pointer |
| Pathstore.AgreeUpTo | assign2/pathstore.c:165-218 | comparing byte by byte up to the first difference or a common end decides equality of contents |
| Pathstore.SameContents | assign2/pathstore.c:190-211 | the interleaved reading of two descriptors returns whether the two files have the same contents |
| Pathstore.ComparePaths | assign2/pathstore.c:165-218 | opening, comparing and closing two paths returns whether both open and have the same contents, and leaves the table of open files as it was |
| Pathstore.Pathstore.SimplePathnameInStoreCheck | assign2/pathstore.c:67-78 | the position of the first element with that very name, or -1 |
| Pathstore.Pathstore.IsSameFile | assign2/pathstore.c:165-218 | contents are compared only if the stored checksum equals the new one |
| Pathstore.Pathstore.SameFileIsInStore | assign2/pathstore.c:149-158 | true exactly if some stored element matches |
| Pathstore.Pathstore.IsDuplicate | assign2/pathstore.c:91-121 | true for a stored name, and otherwise exactly if the path is rejected on flat contents; computes the checksum to be stored |
| Pathstore.Pathstore.Path | assign2/pathstore.c:84-143 | either prepends one element with that path and checksum or, only when discarding, leaves the store unchanged; which one is decided by the flat contents |
| Pathstore.ChksumByPathname | assign2/assign1/chksumfile.c:87-94 | the checksum of the contents that the path leads to, failure if there are none |
| Pathstore.RejectsDuplicatesOnly | assign2/pathstore.c:67-218 | with two free slots, a path that resolves is rejected if and only if a stored element has its name or its contents, and storing it otherwise keeps stored contents pairwise distinct and checksums right |
| Pathstore.NewIsNotRejected | assign2/pathstore.c:149-218 | a new file is never rejected, whatever its checksum and however many slots are free |
| Pathstore.OldIsRejected | assign2/pathstore.c:149-218 | a known file is always rejected, given its right checksum and two free slots |
| Pathstore.PathstoreOriginal.IsSameFile | assign2/pathstore-original.c:102-164 | the simple comparison, which computes both checksums again from the paths |
| Pathstore.PathstoreOriginal.SameFileIsInStore | assign2/pathstore-original.c:88-97 | true exactly if some stored path compares as the same file |
| Pathstore.PathstoreOriginal.Path | assign2/pathstore-original.c:61-83 | stores or rejects by the simple comparison |
| Pathstore.VersionsAgree | assign2/pathstore-original.c:61-164 | with two free slots and a path that resolves, the store with checksums rejects exactly what the original rejects, which is exactly the known names and contents |
| Words.SpanIsRun | assign2/scan.c:54-72 | every word is a run of 1 to 64 letters that ends before a non-letter or at the end of the file, unless it is cut at 64 |
| Words.SpanStarts | assign2/scan.c:54-72 | every word starts the file, follows a non-letter, or follows a word cut at 64 |
| Words.SpansConcat | assign2/scan.c:54-75 | the words in scan order concatenate to all the letters of the file |
| Words.WordsOfFile | assign2/scan.c:51-77 | all three for a whole file, with 1-based offsets |
| Index.Index.StoreEntry | assign2/index.c:47-90 | in the hash table of lists, exactly one posting more, at the front of its word's list |
| Index.LatestFirst | assign2/index.c:87-88 | a location goes to the front of its word's list and leaves all other lists alone |
| Index.Index.RetrieveEntry | assign2/index.c:92-102 | the locations stored for that word, latest first |
| Scan.SkipToWord | assign2/scan.c:55-59 | stops at the next letter or at the end, losing no word |
| Scan.FillBuffer | assign2/scan.c:62-72 | the buffer holds the letters from the start of the word on, up to 64 |
| Scan.ScanWord | assign2/scan.c:54-75 | one turn of the loop records the next word of the file and no other |
| Scan.ScanWords | assign2/scan.c:51-77 | reading an open file to its end records exactly its words, in order, each with its offset |
| Scan.IndexFile | assign2/scan.c:42-79 | open, record, close: the postings of the flat contents, or failure when no slot is free; the table of open files is as at entry |
| Scan.ScanFile | assign2/scan.c:34-79 | a duplicate changes nothing and succeeds; any other file is stored and its words recorded |
| Scan.ReadDirent | assign2/scan.c:112-124 | the next 16 bytes of the flat directory, or what is left of it |
| Scan.ScanEntries | assign2/scan.c:110-138 | the loop reads the entries of the flat directory in order although the recursion uses other slots in between; the cursor of this one only moves here |
| Scan.ScanEntry | assign2/scan.c:127-137 | dot entries are skipped, any other is scanned under prefix/name |
| Scan.ScanDirectory | assign2/scan.c:91-141 | anything but a file is read as a directory; failure for a long path, a bad inode or a full table |
| Scan.ScanTreeAndIndex | assign2/scan.c:82-142 | terminates on every disk image, cyclic ones included; leaves slot occupancy and all outer cursors as at entry on every return; on a good disk store, index and return value are those of the walk over flat contents |
| ScanTheorems.FileRepresented | assign2/scan.c:34-79 | after a file is scanned, its contents are in the index with all their words, under its own path or under that of an equal file |
| ScanTheorems.TreeKeepsSound | assign2/scan.c:82-142 | on a tree, every posting of the index names a path that leads to a file with that word there, and stored contents stay distinct |
| ScanTheorems.TreeGrows | assign2/scan.c:82-142 | a scan only adds to the store and the index |
| ScanTheorems.TreeCovers | assign2/scan.c:82-142 | on a tree, every file below the scanned path ends up represented; the only entries that are exempt are those named "." and ".." |
| ScanTheorems.ScanReturns | assign2/scan.c:110-141 | the scan of a directory returns 0 exactly if the path is short enough, a slot is free and the directory holds whole entries |
| ScanTheorems.ScanOfTree | assign2/scan.c:82-142 | scanning a tree of depth up to 62 from the root gives a sound index, pairwise distinct stored contents, and every file of the tree represented |
| DiskSearch.BuildDiskIndex | assign2/disksearch.c:119-143 | the same about the index that the program builds, through cache, prefetching and duplicate detection, with all slots free again; on a good disk whose root is a directory it succeeds exactly if the root holds whole entries |
| DiskSearch.FoundWord | assign2/index.c:92-102 | every location that a sound index gives for a word is a file with that word at that offset |
| DiskSearch.PostingIsFound | assign2/index.c:92-102 | every location that was stored for a word is found under it |
| DiskSearch.Search | assign2/index.c:92-102 | both, about the lookup itself |
| Txns.LastOfIsLast | assign8/utils.cc:77-87 | there is a last transaction of a coin exactly if the coin occurs, and it is the one after which the coin does not occur |
| Txns.LastTxn | assign8/utils.cc:77-87 | the backward loop finds it |
| Txns.VerifySig | assign8/txn.cc:55-70 | 1, -1 and -2 exactly when the transaction verifies under the last owner's key, the coin is unknown, or the owner is |
| Txns.SignedPart | assign8/txn.cc:29-41 | what is signed depends on the recipient and the coin and on nothing else |
| Txns.SignedByOwnerVerifies | assign8/txn.cc:36-70 | whatever is signed with the private key of the coin's last recipient verifies |
| Txns.VerifiesIgnoresOthers | assign8/txn.cc:55-70 | later transactions of other coins do not change whether a transaction verifies |
| Blocks.BlockHeader.HashBlock | assign8/block.cc:26-53 | the hash becomes that of the header with a cleared hash and the transactions; it is unchanged exactly if it was right |
| Blocks.RareExactly | assign8/block.cc:66-73 | a hash is rare exactly if its first byte is below 4 on a global network and below 51 on a local one |
| Blocks.CheckSpends | assign8/block.cc:101-112 | the loop returns 3 or 5 exactly if the first transaction that spoils the block does not verify, or spends a coin of an earlier one |
| Blocks.SpoiledHere | assign8/block.cc:102-112 | the first spoiling transaction alone settles which of the two it is |
| Blocks.BlockHeader.VerifyBlock | assign8/block.cc:86-125 | each of the verdicts 0 to 6 if and only if its condition holds |
| Blocks.ReadBlock | assign8/block.cc:56-64 | appends as many transactions as the header announces; past the end of the stream, whatever an uninitialised transaction holds |
| Ledger.NoCoinTwice | assign8/block.cc:101-120 | no coin occurs twice in an accepted block, the new coin included |
| Ledger.OneCoinMore | assign8/block.cc:114-123 | an accepted block adds exactly one coin |
| Ledger.AcceptedBlockKeepsLedger | assign8/block.cc:86-125 | verdict 0 keeps the ledger sound: first entries head blocks, every later entry verifies under the previous owner's key, and there are as many coins as blocks |
| Ledger.HistoryIsSound | assign8/block.cc:86-125 | so every history of accepted blocks is sound and has as many coins as blocks |
| Farming.PushKeepsOutstanding | assign8/farmer.cc:148-169 | appending a transaction keeps the outstanding list good if and only if it verifies and its coin is not there |
| Farming.OfferAllKeepsOutstanding | assign8/farmer.cc:133-172 | so a TXN request keeps it good, whatever it holds |
| Farming.OfferAllCoins | assign8/farmer.cc:133-172 | and afterwards exactly the coins are outstanding that were before or that some verifying transaction of the request is for |
| Farming.StillValidMembers | assign8/farmer.cc:190-202 | purging keeps exactly the transactions that still verify |
| Farming.PurgeRestoresOutstanding | assign8/farmer.cc:179-204 | so after a BLOCK request the list is good under the longer ledger |
| Farming.FarmedBlockSpends | assign8/farmer.cc:101-116 | a farmed block passes the transaction loop of verifyBlock if and only if the outstanding list is good |
| Farming.Judge | assign8/block.cc:86-125 | the verdict of a master that hashes a copy again: 1 exactly for a wrong hash, 0 only for an acceptable block |
| Farming.Farmer.IsOutstanding | assign8/farmer.cc:157-162 | the loop tells whether the coin is outstanding |
| Farming.Farmer.TakeTxn | assign8/farmer.cc:148-170 | pushes a transaction exactly if it verifies and its coin is not outstanding |
| Farming.Farmer.HandleTxnRequest | assign8/farmer.cc:133-172 | the list becomes what offering the announced transactions one by one makes of it, for any stream, however short |
| Farming.Farmer.HandleBlockRequest | assign8/farmer.cc:179-204 | the ledger grows by the block as it was read, however short the stream, and the list keeps what still verifies under it, in order |
| Farming.Farmer.PurgeOutstanding | assign8/farmer.cc:192-202 | the in-place erase loop skips and keeps nothing wrongly |
| Farming.Farmer.Farm | assign8/farmer.cc:101-116 | a coinbase followed by all outstanding transactions, under their right hash |
| Farming.Farmer.FarmAndSubmit | assign8/farmer.cc:101-126 | a rare block gets verdict 0 or 4 if and only if the outstanding list is good, and 4 exactly if the random coin exists already |
| Farming.RunKeepsOutstanding | assign8/farmer.cc:133-204 | with each handler as one step, after any requests in any order the outstanding transactions all verify and are for distinct coins |
| FarmerThreads.StepKeepsInv | assign8/farmer.cc:133-204 | with every critical section as a step of its own, each step of any handler, but for a push that is not clean, keeps coins distinct and every transaction verified or still before a purge |
| FarmerThreads.DirtyPushBreaks | assign8/farmer.cc:163-168 | a push after which the coin is outstanding twice, or which does not verify when no purge is due, breaks the promise at once |
| FarmerThreads.InterleavedHandlers | assign8/farmer.cc:133-204 | over every run of any number of TXN and BLOCK handlers: coins are distinct throughout and everything verifies whenever no purge is due, if and only if at each push the coin is not outstanding and the transaction verifies under the ledger as it is then, or a purge is due |
| FarmerThreads.PushBreaksExactly | assign8/farmer.cc:148-168 | a single push breaks a good list if and only if the transaction does not verify under the current ledger or its coin is outstanding by now |
| FarmerThreads.RunKeepsChecked | assign8/farmer.cc:148-168 | over every run, whatever is about to be pushed verified under the ledger or an earlier part of it |
| FarmerThreads.TxnHandlerAlone | assign8/farmer.cc:133-172 | a TXN handler that is not interrupted does what the handler as a single step does |
| FarmerThreads.BlockHandlerAlone | assign8/farmer.cc:179-204 | so does a BLOCK handler, erasing in place |
| FarmerThreads.DuplicateRun | assign8/farmer.cc:155-168 | a run of two TXN handlers that ends with one coin outstanding twice; a block farmed then is rejected for spending it twice |
| FarmerThreads.BlockRaceRun | assign8/farmer.cc:148-202 | a run of a TXN handler and a BLOCK handler with an acceptable block that ends with a transaction that does not verify; a block farmed then is rejected for it |
| Jobs.MaxJidIsMax | assign3/tsh-jobs.c:80-89 | the largest job id in the table |
| Jobs.AddKeepsPids | assign3/tsh-jobs.c:111-130 | adding a new process to a table with room adds exactly that process and keeps pids distinct |
| Jobs.DeleteKeepsPids | assign3/tsh-jobs.c:133-143 | deleting removes exactly that process |
| Jobs.AddKeepsDistinct | assign3/tsh-jobs.c:111-130 | adding keeps job ids distinct if and only if no live job has the next id |
| Jobs.AddKeepsJids | assign3/tsh-jobs.c:111-130 | adding keeps job ids distinct and all below the next one if and only if the next one is below the limit |
| Jobs.DeleteKeepsJids | assign3/tsh-jobs.c:133-143 | deleting keeps both, although the next job id may become smaller |
| Jobs.JobTable.GetMaxJobID | assign3/tsh-jobs.c:80-89 | the loop over the array computes the largest id |
| Jobs.JobTable.CanNewJobBeAdded | assign3/tsh-jobs.c:92-98 | true exactly if some entry is free |
| Jobs.JobTable.Add | assign3/tsh-jobs.c:111-130 | in place, the first free entry and the next job id as on values; refused for a bad pid or a full table |
| Jobs.JobTable.Delete | assign3/tsh-jobs.c:133-143 | in place, clears the first entry with that pid and recomputes the next job id |
| Jobs.JobTable.GetFGJobPID | assign3/tsh-jobs.c:146-153 | the pid of the first foreground job, 0 without one |
| Jobs.JobTable.GetJobByPID | assign3/tsh-jobs.c:156-164 | the first entry with that pid |
| Jobs.JobTable.GetJobByJID | assign3/tsh-jobs.c:167-175 | the first entry with that job id |
| Jobs.JobTable.GetJIDFromPID | assign3/tsh-jobs.c:178-186 | the job id of the first entry with that pid, 0 without one |
| ShellSafety.StepKeepsPids | assign3/tsh.c:347-368 | every step of the main loop, the handler, the children and the user keeps the entries of the table equal to the children, but for the windows after fork and after waitpid |
| ShellSafety.RunKeepsPids | assign3/tsh.c:347-368 | so does every run, with SIGCHLD arriving at any unblocked point |
| ShellSafety.TableMatchesChildren | assign3/tsh.c:496-550 | in every reachable state outside those windows the pids of the table are exactly the unreaped children; the handler's lookup is never NULL; in the fork window SIGCHLD is blocked and addJob will succeed |
| ShellSafety.TargetMatches | assign3/tsh.c:229-244 | with distinct job ids, the entry that fg or bg changes is that of the process it continues |
| ShellSafety.StepKeepsStops | assign3/tsh.c:354-358 | every step keeps it true that a child whose stop has been handled has an entry that says Stopped |
| ShellSafety.StoppedIsListed | assign3/tsh.c:347-368 | over every run without a clash of job ids: a child that is stopped, reported and not in the handler's hands has an entry in state Stopped |
| ShellSafety.FgBgContinues | assign3/tsh.c:228-262 | in every reachable state without such a clash: fg and bg put just the job that is named in the foreground or background, its process runs again with SIGCHLD pending if it was stopped, no other process changes, and fg goes on to wait for it |
| ShellSafety.FgBgOfNothing | assign3/tsh.c:228-242 | fg and bg of a job that is not there change nothing |
| ShellSafety.ForkedIsListed | assign3/tsh.c:534-548 | in every reachable state after fork: one free entry becomes the job, with the next id, in the foreground or background as asked, and only a foreground job is waited for |
| ShellSafety.StepKeepsJobs | assign3/tsh.c:204-263 | unless a job is added under the id of a live one, every step keeps ids distinct and lets only the process waited for be in the foreground |
| ShellSafety.RunKeepsJobs | assign3/tsh.c:204-263 | so does every run |
| ShellSafety.JobsInOrder | assign3/tsh.c:496-550 | in every state reached without such an addition live job ids are distinct, at most one job is in the foreground, and none at the prompt |
| ShellSafety.JobIdsDistinctExactly | assign3/tsh-jobs.c:111-143 | over every run of the shell, job ids are distinct throughout if and only if no job is added while a live job has the next id |
| ShellSafety.NoWrapNoClash | assign3/tsh-jobs.c:117-119 | which is so in every run without a wrap of job ids; ids then also stay below the next one |
| ShellLimits.JobIdsCollide | assign3/tsh-jobs.c:117-119 | a run of the shell, of adds and deletes up to the wrap, that ends with two live jobs of id 1 |
| ShellSafety.RunKeepsSignal | assign3/tsh.c:347-368 | over every run, a child that has something to report comes with a pending signal or a running handler |
| ShellSafety.WaitfgMissesExactly | assign3/tsh.c:94-104 | over every run without an id clash: waitfg is suspended although its job is no longer in the foreground if and only if the handler updated the job's entry after the last test, or the call, and before sigsuspend |
| ShellSafety.SuspendedCanWake | assign3/tsh.c:94-104 | something other than another signal can still happen to a suspended waitfg, whether or not it concerns its job, if and only if SIGCHLD is pending or a child is left |
| ShellLimits.WaitfgCanMissItsJob | assign3/tsh.c:541-542 | a run that ends with waitfg suspended, its job gone, no child and no pending signal |
| ShellLimits.WaitfgCanWaitForAnother | assign3/tsh.c:541-542 | a run that ends with waitfg suspended, its job gone, and only an unrelated child to wake it |
| ShellSafety.PromptIsBlockedExactly | assign3/tsh.c:496-550 | in every reachable state the prompt waits with SIGCHLD blocked if and only if the last step of the main program refused a built-in with a bad redirection or a command that found the table full |
| ShellLimits.BadRedirectionBlocksPrompt | assign3/tsh.c:311-314 | a run to the prompt with SIGCHLD blocked after a bad redirection |
| ShellLimits.FullTableBlocksPrompt | assign3/tsh.c:510-513 | a run to the prompt with SIGCHLD blocked after sixteen jobs and one more command |
| Parse.AddItemsMeaning | assign3/tsh-parse.c:36-64 | taking items one by one collects the arguments in order and the file of each kind |
| Parse.ScanPrinted | assign3/tsh-parse.c:31-73 | scanning a printed line, its tokens in quotes or not, finds just the items that were printed, for any white space between them, and goes on with what follows |
| Parse.ParseUndoesPrint | assign3/tsh-parse.c:24-88 | parsing a printed line, each of its tokens in quotes or not, recovers both files in order, and all arguments if and only if the last does not start with `&`; otherwise all but that one, and the job is in the background |
| Parse.UnfitIsRefused | assign3/tsh-parse.c:39-48 | a line with too many arguments or two redirections of a kind gives no command, whatever follows |
| Parse.UnmatchedQuoteIsRefused | assign3/tsh-parse.c:64-70 | so does a line that ends in a quote without a partner |
| Parse.MissingFileIsRefused | assign3/tsh-parse.c:78-81 | so does a line that ends in an operator without a file |
| ParseLine.TakeToken | assign3/tsh-parse.c:51-72 | one token, recorded and cut off in place, is the next token of the string; nothing recorded before is damaged by the NULs written |
| ParseLine.TakeOperator | assign3/tsh-parse.c:39-50 | a redirection operator sets the state; a second one of its kind spoils the line |
| ParseLine.Advance | assign3/tsh-parse.c:31-73 | one turn of the loop is one turn of the scan of the string |
| ParseLine.ScanLine | assign3/tsh-parse.c:31-73 | the loop in the command buffer finds what the scan of the string finds |
| ParseLine.ParseLine | assign3/tsh-parse.c:24-88 | afterwards the pointers lead to NUL-terminated strings inside the buffer that are exactly the arguments and files of the parsed string, and the arguments end with NULL |
| ParseLine.ParsePrinted | assign3/tsh-parse.c:24-88 | a buffer that holds a printed line, parsed in place, leads to exactly the printed files and arguments, but for a last argument that starts with `&` |
| HttpText.TrimIsTrimmed | assign6/header.cc:25-33 | a trimmed string has no white space at either end and no character that was not there |
| HttpText.ReadIntOfDecimal | assign6/response.cc:23-24 | any int that was printed is read back, whatever white space comes before it |
| HttpText.NumberOfDecimal | assign6/header.cc:66-72 | any long that was printed is read back, although the base depends on its first digit |
| HttpText.NumberOfHex | assign6/header.cc:66-72 | any long that is written in base 16 after 0x is read back |
| HttpText.ChunkSizeReadBack | assign6/payload.cc:50-53 | any int that is written in base 16 is read back as a chunk size, whatever extension follows it |
| HttpHeader.IngestField | assign6/header.cc:17-48 | reading one printed field sets exactly that field, to its value without the white space around it, and goes on behind it |
| HttpHeader.IngestContinuation | assign6/header.cc:24-26 | a continuation line joins its trimmed text to the value of the last field, with one space between |
| HttpHeader.ReadBack | assign6/header.cc:74-80 | printing fields in any order and reading them gives back the same names, each with its value trimmed |
| HttpHeader.ReadBackExactly | assign6/header.cc:74-80 | so they come back unchanged if and only if every value is trimmed |
| HttpHeader.HeaderRoundTrip | assign6/header.cc:74-80 | printing canonical fields in any order, and a blank line, and reading them gives back exactly those fields and leaves the rest of the stream |
| HttpHeader.LineKeepsCanonical | assign6/header.cc:24-35 | a line that is read keeps the fields canonical if and only if it does not continue an empty value |
| HttpHeader.ExtensionKeepsCanonical | assign6/header.cc:84-87 | a continuation keeps every value trimmed if and only if the value it extends is not empty |
| HttpHeader.IngestIsCanonical | assign6/header.cc:17-37 | whatever the text, the names that are read are canonical, and all values are trimmed if and only if none is left that started as the continuation of an empty or missing one |
| HttpHeader.IngestedReadBackExactly | assign6/header.cc:17-48 | exactly then are the fields that were read printed and read back unchanged, in any order |
| HttpHeader.SpaceIsRead | assign6/header.cc:24-26 | an empty field that is continued on the next line is read with a space in front of its value |
| HttpHeader.SpaceIsLost | assign6/header.cc:74-80 | which is lost when the field is printed and read back |
| HttpHeader.Header.AddHeader | assign6/header.cc:45-48 | looking up the name in any case gives the value, looking up any other name gives what it gave before |
| HttpHeader.Header.AddNumber | assign6/header.cc:39-43 | the same with a printed number |
| HttpHeader.Header.RemoveHeader | assign6/header.cc:50-52 | looking up the name in any case gives nothing, looking up any other name gives what it gave before |
| HttpHeader.Header.GetValueAsNumber | assign6/header.cc:66-72 | the number that the whole value spells, 0 if it spells none |
| HttpHeader.Header.ExtendHeader | assign6/header.cc:84-87 | appends to the value of the lower-case name, which is made if need be |
| HttpHeader.Header.IngestHeader | assign6/header.cc:17-37 | the loop over the stream is the recursive reading of the text, and leaves the stream behind the blank line |
| HttpHeader.Header.Publish | assign6/header.cc:74-80 | the printed fields in the order of the keys |
| HttpPayload.ChunkedRoundTrip | assign6/payload.cc:46-61 | reading well-formed chunks copies them byte for byte, and leaves the blank line after the last one in the stream |
| HttpPayload.CodedIsRead | assign6/payload.cc:46-61 | pieces of data in the chunked coding, each behind its size in base 16, are read to their end, whatever follows |
| HttpPayload.IngestedIsChunked | assign6/payload.cc:46-61 | whatever the stream, a chunked payload that is read in full is stored in well-formed chunks |
| HttpPayload.LengthIsCanonical | assign6/payload.cc:29-33 | a payload whose length was just set can be read back by that length if and only if it fits an int |
| HttpPayload.PayloadRoundTrip | assign6/payload.cc:20-38 | a payload that is canonically chunked or matches its Content-Length is read back from its own text |
| HttpPayload.Payload.NextChunk | assign6/payload.cc:47-58 | one turn of the loop is one step of the recursive reading, and makes the stream shorter unless it ends |
| HttpPayload.Payload.IngestChunkedPayload | assign6/payload.cc:46-61 | the loop appends what the recursive reading gives, for every stream |
| HttpPayload.Payload.IngestCompletePayload | assign6/payload.cc:63-67 | appends as many characters as announced; what the stream lacks is zeros |
| HttpPayload.Payload.Ingest | assign6/payload.cc:20-27 | chooses between the two by the header |
| HttpPayload.Payload.SetPayload | assign6/payload.cc:29-33 | payload and Content-Length are replaced together; unless the header says chunked, the payload can be read back if and only if its length fits an int |
| HttpResponse.StatusLineReadBack | assign6/response.cc:66-68 | the status line gives back protocol and code, and no status message breaks it |
| HttpResponse.ResponseRoundTrip | assign6/response.cc:16-73 | ingesting the text of a canonical response gives back protocol, code, fields and payload, whatever follows it in the stream |
| HttpResponse.HTTPResponse.IngestResponseHeader | assign6/response.cc:16-27 | protocol and fields of the text, and the stream behind them; the code if some text follows the protocol on its line |
| HttpResponse.HTTPResponse.IngestPayload | assign6/response.cc:29-31 | the payload that the header announces |
| HttpResponse.HTTPResponse.Publish | assign6/response.cc:66-73 | the text of the response |
| HttpResponse.CacheRoundTrip | assign6/response.cc:16-73 | a canonical response that is printed and ingested again, as the cache does, comes back unchanged |

## Left out

Thread pool:

- Weak memory, spurious wakeups and exceptions: steps interleave as under sequential consistency, and thunks terminate without throwing.
- Thunks that call wait(), outside threads that call schedule() while the pool is being destroyed, and clients without end: the model gives its clients any finite number of calls.
- The window inside the constructor in which the dispatcher already runs: the model starts after the constructor has returned.
- What a thunk does besides calling schedule(): executing it is one step, after its own calls have returned.

File system and indexer:

- Writing: the disk is read-only, and diskimg_writesector, which does not update the cache, is not part of this model. Sectors are whole.
- The earlier variants assign2/cachemem-opt.c and assign2/pathstore-optimization.c, statistics, option handling, and failures of malloc and strdup.
- The hash table under the index is a map; the checksum is an arbitrary function, so that unequal files may have equal checksums.
- Fileops.FileTable.Close: frees only lines keyed by `inp`. Lines that getchar reads are keyed by the address of the slot's own inode copy, and no close frees them; `CacheTheorems.EraseReleases` says that erasing one owner leaves the lines of another.
- Addresses of inodes on the stack are parameters (`frame`) of the methods that have such a variable.
- Pathstore.Pathstore.Path: with duplicates not discarded, the stored checksum is uninitialised; the model stores none, and says nothing about a later comparison with such an element beyond that the name check and the table of open files are right.
- Directory entries of 14 characters without a NUL: the source reads on past the end of d_name; the model stops after 14.
- Directory.FindName: compares 14 bytes with a name cut to 13 characters and padded, as the source does, so longer names cannot be told apart.
- Inode fields other than mode, size and addresses.
- ScanTheorems.ScanOfTree: is about trees of regular files and directories whose depth leaves two free slots and whose entries are each found under their own name (unique in the directory, at most 13 characters, no slash); on every other good disk `Scan.ScanTreeAndIndex` still says exactly what the scan stores and returns, and on any image that it ends.

Ledger:

- RSA, SHA-1 and key lookup are uninterpreted functions of their inputs; key files, sockets, pings and the saved ledger file are left out.
- Padding between the fields of a struct, and names without a NUL. What a read past the end of a stream leaves in a transaction is a parameter (`garbage`).
- Blocks.BlockHeader.VerifyBlock: the comment in assign8/block.cc:66-68 promises a rarity of 1/60 on a global network; the code accepts a first byte below 255 / 60, which is 4 of 256. The model follows the code.
- Farming.RunKeepsOutstanding: takes each handler as one step, which the code's locks do not ensure; `FarmerThreads.InterleavedHandlers` is about handlers as the code runs them, and says exactly when that matters.
- Farming.Judge: the master is not in the repository; that it reads the block, hashes a copy of the header again and calls verifyBlock follows from assign8/block.cc:75-88.

Shell:

- fork, exec, process groups, the SIGHUP that quit sends, terminal control and the opening of redirection files; SIGINT, SIGTSTP and SIGQUIT handlers appear only as signals that end a suspension.
- The arguments of fg and bg are taken as the numbers they spell; printed messages are left out.
- Command lines longer than the buffer of a job entry.
- ShellSafety.WaitfgMissesExactly: is about runs in which no job is added under the id of a live one; otherwise fg can mark one job and wait for another.
- ParseLine.ParseLine: assign3/tsh-parse.h says that a background job ends in the token `&`; in the code any last argument that starts with `&` counts. Tabs and line breaks are skipped before a token but do not end one, only a blank does. The model follows the code.

HTTP:

- Requests, the proxy, the blacklist, the cache directory and its keys, permitsCaching and getTTL.
- The bodies of trim, rtrim and toLowerCase are not part of the repository: they are taken to remove white space at both ends, at the right end, and to map ASCII letters.
- HttpPayload.Payload.IngestChunkedPayload: a chunk size whose buffer could not be allocated is a failure with nothing said about the payload, and an int overflow of the size is such a failure.
- HttpResponse.HTTPResponse.IngestResponseHeader: when the status line has no word, or nothing but white space behind its word, the source passes on an uninitialised code; nothing is said about the code then.
- HttpHeader.LineKeepsCanonical: a line that starts with a tab is taken for a field, as in the code, not for a continuation as section 3.2.4 of RFC 7230 has it.

Not modelled at all: assign4, assign7, the news aggregator of assign5, the proxy plumbing of assign6, lecture examples and the
earlier versions of source files.
