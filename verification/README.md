# Verified model of two xv6 kernels

This project models the parts of project1 and project3 that carry protocols and data structures, and proves
properties of the models. Code that changes state is a class whose methods have the source's
branches and loops; each method is proved to do what a specification function or an explicit
description of the new state says, and the theorems are about those.

- **Write-ahead log** (`LogDisk`, `LogCode`, `LogProtocol`, `LogProcs`, `LogSafety`, `LogTheorems`,
  `LogHistory`, `LogRefine`).
  The log of project1, and project3's deferred commit. A disk is a sequence of blocks and one block
  write is atomic. `LogDisk` says which disk writes commit and recovery make and proves that cutting
  them anywhere, recovery included, leaves all of the old or all of the new contents. `LogCode` is the
  code, proved to make exactly those writes. `LogProtocol` is a state machine: any number of processes
  take critical sections and single disk writes in any interleaving, and the machine may stop between
  any two. `LogHistory` says what its states are in terms of what the calls of `log_write` were given, and
  `LogRefine` runs the code beside it. The theorems hold for every run of project1's protocol, operations
  that log more than MAXOPBLOCKS blocks included, and for runs of one process with project3's. Only the
  log-space account and what follows from it ask for operations within their budgets.
- **Files** (`Blocks`, `FreeMap`, `FileTree`, `FileBytes`, `FileLayout`, `FileRoom`, `FileTrunc`,
  `FileCode`, `FileTheorems`). project3's bitmap allocator and inodes with direct, single, double and triple
  index blocks. A position names a place in some inode's tree; the invariant is that the blocks at all positions
  are in use and different. `bmap`, `itrunc`, `readi` and `writei` are proved against it and against a file as
  a flat array of bytes. Every method keeps that each block it has changed has been given to `log_write`.
- **Log budgets** (`WriteBudget`, and the end of `FileCode`). How many distinct blocks a transaction of
  project1's `filewrite` and project3's `unlink` log.
- **Link counts** (`LinkTree`, `LinkCode`). Directories, `link`, `unlink`, `create` and `iput` of
  project1, one system call at a time.
- **Scheduler** (`MlfqSpec`, `MlfqInv`, `MlfqFields`, `MlfqRuns`, `MlfqCode`). project1's three queues, quanta,
  priorities, boosting and scheduler lock, driven by fork, yield, sleep, wakeup, kill, exit and wait.
  `MlfqSpec` has one function per critical section, `MlfqFields` says what each does to processes and queues, and
  `MlfqCode` is the code over arrays shifted in place.
- **User allocator** (`FreeList`, `Umalloc`, `UmallocCode`). The circular, address-ordered, coalescing
  free list of project1. Addresses count headers.
- **Buffer cache** (`BufLinks`, `BufCache`, `BufLog`). The LRU list of project1 through `prev` and `next`,
  and the cache over the disk: what a reader sees never changes except by a store into a held buffer.
  `BufLog` counts the buffers the log leaves for `bget`.
- **Address spaces** (`VmSpace`, `VmCode`, `VmUser`). Physical pages of project1 as words, the free page list linked
  through the pages themselves, page directories and tables. The invariant gives every page frame one use. `VmUser` is
  what a program gets at through both levels of tables.
- **Matcher** (`Grep`). project1's `match`, `matchhere` and `matchstar` against a declarative reading of a
  pattern as a list of elements, each accepting some words.

Where the code and its documentation disagree, or the code does not keep a promise in every case, the
model follows the code and says exactly in which cases it is kept:

- `project1/README.md` (lines 42-44) says that boosting brings every process to L0 and resets all of them.
  The loop compares its counter with a size that shrinks as it runs, so it moves the first half, rounded
  up, of L1 and of L2; of L0 it resets only the front process, and processes in no queue are reset only if
  they hold the scheduler lock. `MlfqInv.BoostFields` says of each process whether it is reset,
  `MlfqInv.BoostMoves` what becomes of the queues, and `MlfqInv.BoostResetsExactly` on which tables the
  documented promise is kept. `MlfqInv.BoostLeavesOne`, `MlfqInv.BoostMissesSleeper` and
  `MlfqInv.BoostKeepsUsedTime` are tables on which it is not, each for another reason.
- The comment above `filewrite` allows for two blocks of slop. A write that does not start on a block
  boundary starts in a block that is already there, so a transaction logs at most ten blocks
  (`WriteBudget.File.Writei`). Ten are reached on a volume with several blocks of free map
  (`WriteBudget.TenBlocks`); on one of project1's 1000 blocks it is at most seven
  (`WriteBudget.SevenBlocks`).
- A file or directory can be made in, or linked into, a directory that has been removed but is still
  somebody's. The new entry is then not counted, and a removed directory gets a link back without its
  parent knowing: `LinkTree.CountsNeedLinkedParent` and `LinkTree.DirCountsNeedLinkedParent` say that this
  is exactly when link counts go wrong. `LinkCode.FileInRemoved` and `LinkCode.DirInRemoved` are calls that
  get there, and `LinkCode.CreateDotDot` calls whose last one panics, because the parent of a removed
  directory has gone too.
- `malloc` of 2 GB or more asks `sbrk` for a number that is not positive as an int, and stores a header
  beyond the end of the process: `UmallocCode.Heap.Malloc` says exactly when it does.
- There are as many buffers as LOGSIZE, and the log pins up to 29. `BufLog.BgetFinds` says exactly when a
  buffer is left; a commit alone always has one, but `BufLog.ReaderTooMany` has three operations within
  their budgets and one reader, and none left for the commit.
- The log is described as taking LOGSIZE blocks. The log area made by mkfs has LOGSIZE blocks with the
  header, and the guard in `log_write` comes before absorption, so operations within their budgets can
  reach its panic. `LogTheorems.FullBudgetsPanic` is such a run; `LogProcs.GuardsExactly` says exactly when
  the guards pass. Crash safety holds regardless: a panic is one of the ways in which the machine stops.
- Boosting resets the level of the process that holds the scheduler lock, and does not move it.
  `MlfqRuns.StepKeepsButLock` says that the queues stay right in every step but exactly a boost that finds
  the holder in the second half of L1 or L2, which takes a holder that has slept;
  `MlfqRuns.HolderLeftBehind` is such a table.

Verify with `dafny verify dfyconfig.toml` (Dafny 4.11).

## Model

| member | source | states |
|---|---|---|
| LogDisk.HeaderRoundTrip | project1/log.c:85-113 | What write_head stores in the header block, as 32-bit words, is what read_head loads: the same count and the same block numbers; word 1 + i is block number i |
| LogDisk.RecoverEffect | project1/log.c:115-122 | Recovery gives each block the header names its log copy, changes no other block outside the log, and leaves the log empty, for every disk it can be started on |
| LogDisk.RecoveryCutRecovers | project1/log.c:69-122 | A recovery cut after any number of its disk writes can be started again, and its completion gives the same home blocks as an uncut one |
| LogDisk.AnyCutsRecover | project1/log.c:69-122 | The same for any number of restarts, each cut anywhere |
| LogDisk.CommitCutRecovers | project1/log.c:177-202 | A commit cut after any of its writes recovers to the old home blocks if the first header write had not happened, to the new ones if it had |
| LogDisk.CommitIsAtomic | project1/log.c:69-202 | Crash atomicity: commit cut at any write and recovery cut any number of times end with all of the old or all of the logged contents, the new ones exactly when the first write_head was on disk |
| LogDisk.ReplayHit | project1/log.c:69-82 | A block named by a list of disk writes ends with what the last such write stored |
| LogDisk.ReplayMiss | project1/log.c:69-82 | A block no write names keeps its contents |
| LogDisk.CutCommitBoots | project1/log.c:192-202 | Every disk a cut commit can leave is one recovery can be started on |
| LogDisk.IndexOf | project1/log.c:224-227 | Where log_write's loop stops: at the first entry equal to the block, or at the end |
| LogCode.Log.InstallTrans | project1/log.c:69-82 | The loop's writes to disk are, in order, the log copies going to their home blocks |
| LogCode.Log.WriteLog | project1/log.c:176-190 | The loop's writes are, in order, the cached contents of the logged blocks going to their log slots; nothing outside the log changes |
| LogCode.Log.ReadHead | project1/log.c:84-96 | lh is loaded with exactly the block numbers the header block holds |
| LogCode.Log.WriteHead | project1/log.c:98-113 | One disk write: the header block with n and the block numbers of lh in place, its other words kept |
| LogCode.Log.Commit | project1/log.c:192-202 | The disk writes are exactly CommitWrites, in that order, and nothing at all when the log is empty |
| LogCode.Log.RecoverFromLog | project1/log.c:115-122 | The disk writes are exactly RecoveryWrites and the result is Recover |
| LogCode.Log.LogWrite | project1/log.c:213-233 | Passes or panics exactly by its two guards; appends a new block number, absorbs one already logged, and stores the caller's data in the cache only |
| LogCode.Log.BeginOp | project1/log.c:125-141 | One turn: sleeps while a commit runs or the reservation does not fit, otherwise counts the operation |
| LogCode.Log.EndOp | project1/log.c:145-174 | project1: the last operation commits everything logged; the panic happens exactly if a commit is running |
| LogCode.Log.Sync | project3/log.c:229-246 | Commits at once and returns the number of blocks in the log before |
| LogCode.Log.EndOpDeferred | project3/log.c:145-168 | project3: the last operation commits only if another MAXOPBLOCKS would not fit; otherwise nothing is written to disk |
| LogCode.CommitInOrder | project1/log.c:192-202 | The four phases of commit, each computed from the cache the one before leaves, make up CommitWrites |
| LogCode.RecoveryInOrder | project1/log.c:115-122 | Installing and then clearing the header make up RecoveryWrites |
| LogProcs.StepKeepsProcs | project1/log.c:125-202 | Every step of every process, crashes and reboots included, keeps: at most one commit, announced by committing, with no operation beside it; between operations room for one more; whoever sleeps in begin_op has someone to wake it; end_op's panic is not reached |
| LogProcs.StepKeepsAccount | project1/log.c:125-141 | A step that does not panic keeps the account, logged blocks plus unused reservations within LOGSIZE, exactly if it leaves its operation within MAXOPBLOCKS different blocks |
| LogProcs.GuardsExactly | project1/log.c:213-233 | Where the account holds, a call of log_write within its operation's budget passes its guards exactly if: for a block not yet logged, the log area has a slot left; for a block already logged, the log is not full |
| LogTheorems.FullBudgetsPanic | project1/log.c:213-233 | With project1's constants three operations of ten distinct blocks each, all let in by begin_op and within their budgets, end in the panic "too big a transaction": the guard counts the header block |
| LogSafety.StepKeepsHistory | project1/log.c:125-202 | Every step keeps the history of log_writes split into whole finished operations already safe and the rest |
| LogSafety.StepKeepsDisk | project1/log.c:69-202 | Every step, one disk write or one critical section at a time, keeps the tie between disk, cache and history |
| LogSafety.DiskOkIsCrashSafe | project1/log.c:69-122 | That tie means crash safety whatever the machine was doing when it stopped |
| LogSafety.NextWriteListed | project1/log.c:192-202 | In an interleaved run each write of a commit is the one CommitWrites lists |
| LogTheorems.CrashSafety | project1/log.c:69-233 | After any run of any number of processes, stopping and recovering, with recovery cut at will, yields the disk after a whole number of finished operations of its history, which is what its calls of log_write were given (LogHistory.HistoryIsTold) |
| LogHistory.HistoryIsTold | project1/log.c:213-233 | After every run, crashes included, the history is the one told from its actions: each log_write that passes its guards adds the data its caller gave for the block, a crash leaves the safe part |
| LogHistory.DataRecovered | project1/log.c:69-233 | So after any run and recovery cut at will every block outside the log holds what the last safe log_write of it was given, or what the disk had at the beginning |
| LogHistory.DataRead | project1/log.c:213-233 | and while the machine is up the cache holds what the last log_write of the block was given |
| LogRefine.BeginStep | project1/log.c:125-141 | One turn of begin_op on the log object goes where the machine's step goes; it is let in exactly if no commit runs and the reservations with one more operation fit |
| LogRefine.LogWriteStep | project1/log.c:213-233 | The same for log_write, which passes exactly within an operation, with a log neither full nor as large as the log area |
| LogRefine.WholeCommit | project1/log.c:192-202 | All the machine's steps of one commit make exactly the writes the code's commit makes |
| LogRefine.EndRuns | project1/log.c:145-174 | The machine's end_op with the commit it starts: commits exactly if the last operation ends and, in project3, another would not fit |
| LogRefine.EndStep | project1/log.c:145-174 | end_op on the log object goes where these steps go, and panics exactly if a commit is running |
| LogRefine.EndDeferredStep | project3/log.c:145-168 | The same for project3 |
| LogRefine.SyncStep | project3/log.c:229-246 | and for sync |
| LogRefine.RecoverStep | project1/log.c:115-122 | Recovery on the log object goes where the machine's steps after a crash go |
| LogTheorems.SafeOnlyGrows | project1/log.c:69-233 | Over any further run, crashes included, what is safe stays safe |
| LogTheorems.EndedMeansDurable | project1/log.c:145-174 | project1: when no operation is running and no commit is, everything logged is durable |
| LogTheorems.ProtocolSafety | project1/log.c:125-233 | After every run, whatever the operations log: a commit excludes operations and other commits, no sleeper is forgotten, logged blocks are distinct, end_op never panics |
| LogTheorems.LogSpace | project1/log.c:125-141 | After every run whose operations stay within MAXOPBLOCKS, what is logged and what running operations may still log fit in the log |
| LogTheorems.CommitFinishes | project1/log.c:177-202 | A commit left alone finishes, in a number of steps given in closed form, with nothing left unsafe |
| LogTheorems.DeferredNeverSleeps | project3/log.c:125-168 | project3 with one process: between operations there is always room for one more, so begin_op lets every operation in |
| LogTheorems.SyncCounts | project3/log.c:229-246 | After every run of one process, sync returns the number of distinct blocks it makes durable, and finishes with everything logged safe |
| Blocks.WordSetWord | project3/fs.c:390-395 | Storing one little-endian word of a block changes that word and no other |
| Blocks.OrBitOthers | project3/fs.c:66-68 | Setting bit k of a byte sets it and leaves the others |
| Blocks.AndNotBitOthers | project3/fs.c:87-92 | Clearing bit k of a byte clears it and leaves the others |
| Blocks.BitValue | project3/fs.c:66-92 | Setting a clear bit k adds 2^k to the byte, clearing a set one takes it off |
| FreeMap.MarkUsedBits | project3/fs.c:63-69 | Marking a block in use changes the state of that block only, whichever byte and bit hold it |
| FreeMap.MarkFreeBits | project3/fs.c:87-93 | Marking a block free changes the state of that block only |
| FreeMap.AllocEffect | project3/fs.c:41-78 | balloc's block is in use and zero; no other block of the data area changes |
| FreeMap.FreeEffect | project3/fs.c:80-95 | bfree changes one bit and no data block |
| FreeMap.MapIsFlat | project3/fs.c:60-66 | The free map is one string of bits: block b has bit b % 8 of byte b / 8 from bmapstart on |
| FileCode.FileSys.Balloc | project3/fs.c:55-78 | Returns the first free block, marked and zeroed, logging it and its map block; panics exactly if no block is free |
| FileCode.FileSys.Bfree | project3/fs.c:80-95 | Clears the block's bit; the panic "freeing free block" happens exactly if it was clear |
| FileTree.EnterNode | project3/fs.c:379-395 | Entering a new block in an index block or slot changes exactly one position of one tree |
| FileTree.EnterKeepsGood | project3/fs.c:379-395 | and keeps every block of every tree in use and at one position only |
| FileBytes.LeafPosInjective | project3/fs.c:374-438 | bmap's index arithmetic sends different block numbers below MAXFILE to different positions |
| FileLayout.LeafPosInOrder | project3/fs.c:374-438 | Positions are in the order of the file: a smaller block number has the lexicographically smaller position |
| FileLayout.LeafPosMissesNone | project3/fs.c:374-438 | and every place for data in an inode's trees is the position of some block below MAXFILE |
| FileLayout.WhereIs | project3/fs.c:373-480 | The block found for each block number: six in the inode, then through one, two and three index blocks of 128 entries, written out |
| FileBytes.PathExtends | project3/fs.c:373-480 | Filling in a path adds free blocks at the missing positions of that path and changes no other position and no other block's use |
| FileBytes.PathAgain | project3/fs.c:373-480 | A path that is there is left as it is |
| FileBytes.PathFitsExactly | project3/fs.c:373-480 | bmap does not run out of blocks exactly if as many blocks are free as entries of its path are missing, and it takes exactly that many |
| FileRoom.FillPath | project3/fs.c:373-480 | Of several paths filled in one after the other, the next one fits exactly if as many blocks were free at the start as entries were missing on all of them together, and that many have been taken |
| FileBytes.EnsureByte | project3/fs.c:373-480 | Allocating a block changes no byte of any file |
| FileBytes.PutDataByte | project3/fs.c:653 | Writing into a data block changes those bytes of that file and no other byte of any file |
| FileCode.FileSys.EnsureSlot | project3/fs.c:379-382 | Allocates for an empty slot and only then; panics exactly if that needs a block and none is free |
| FileCode.FileSys.EnsureEntry | project3/fs.c:390-397 | The same for an entry of an index block, with the log_write of that block |
| FileCode.FileSys.Bmap | project3/fs.c:373-480 | Fills in exactly the path of the block and returns its data block; panics exactly if out of range or out of blocks; changes no byte of any file; every block it changes is logged |
| FileCode.FileSys.BmapTriple | project3/fs.c:435-477 | Its branch through three index blocks |
| FileTheorems.BmapInjective | project3/fs.c:373-480 | Different blocks of the files, whatever their inodes, are kept in different disk blocks |
| FileTheorems.DataIsNotIndex | project3/fs.c:373-480 | No data block is also an index block |
| FileTheorems.BmapAddsOnlyItsPath | project3/fs.c:373-480 | A successful bmap takes into use exactly the missing blocks of its own path, each free before; the same call again returns the same block and changes nothing |
| FileTheorems.BmapStable | project3/fs.c:373-480 | A block found before any call of bmap is found at the same place after it |
| FileTrunc.FreeAllEffect | project3/fs.c:487-583 | Freeing a list of blocks clears exactly their bits |
| FileTrunc.OrderIsSubtree | project3/fs.c:501-583 | The nested loops under an index block free exactly the blocks at or below it |
| FileTrunc.OrderNoRepeat | project3/fs.c:501-583 | and none of them twice |
| FileTrunc.SlotsCanFree | project3/fs.c:487-583 | itrunc never reaches "freeing free block" |
| FileTrunc.TruncEffect | project3/fs.c:487-587 | After itrunc the inode's trees are gone, exactly their blocks are free again, its size is 0, and no other inode's tree or bytes changed |
| FileCode.FileSys.FreeIndex | project3/fs.c:501-583 | The loops over an index block of any depth free its blocks in the order given, without a panic, logging only map blocks |
| FileCode.FileSys.ClearSlot | project3/fs.c:501-583 | The same for one of the three index slots, which is then zero |
| FileCode.FileSys.Itrunc | project3/fs.c:487-587 | The whole state after itrunc is Trunc of the state before, without a panic |
| FileTheorems.TruncUndoesBmaps | project3/fs.c:373-587 | From an empty inode, any calls of bmap in any order followed by itrunc leave in use exactly the blocks in use before |
| FileTheorems.FormattedUses | project3/mkfs.c:237-251 | The map made for a new volume marks exactly its first blocks |
| FileTheorems.FormattedGood | project3/mkfs.c:237-251 | With exactly the blocks before the data marked in use and empty inodes, the ownership invariant holds |
| FileCode.FileSys.Readi | project3/fs.c:604-628 | Returns the file's bytes from off, clipped at the size; refuses exactly past the size or when 32-bit off+n wraps; runs out of blocks exactly if the holes read need more than are free; on a file without holes changes nothing |
| FileCode.FileSys.Writei | project3/fs.c:633-663 | Overlays exactly the written bytes on the flat file, sets size to max(size, off+n), leaves every other file's bytes, keeps files without holes so, logs every block it changes, refuses exactly outside the bounds, and runs out of blocks exactly if more entries are missing along the paths of its blocks than blocks are free |
| FileCode.FileSys.UnlinkWrites | project3/sysfile.c:220-231 | The writes of unlinking, freeing included, log at most one entry block, two inode blocks and the free map; the directory loses 16 bytes at the entry and the freed file is empty |
| FileCode.UnlinkFits | project3/mkfs.c:20-27 | With 100000 blocks that is 28, within MAXOPBLOCKS = 30, for a file of any size |
| FileCode.WroteAll | project3/fs.c:650-662 | The loop's pieces together overlay the source and nothing else |
| WriteBudget.File.Bmap | project1/fs.c:372-400 | Besides the data block and the indirect block bmap logs at most one free-map block for each of them that was missing, and nothing if the block is there |
| WriteBudget.File.Writei | project1/fs.c:481-511 | On a file without holes a write of at most 1536 bytes at any offset logs at most 10 distinct blocks, wherever the free bits lie; which blocks it takes and logs; the file still has no holes |
| WriteBudget.BudgetOfMaps | project1/fs.c:481-511 | A write of at most 1536 bytes logs at most 6 blocks beside those of the free map it allocates from |
| WriteBudget.SevenBlocks | project1/param.h:13 | On a disk of project1's 1000 blocks that makes seven |
| WriteBudget.TenBlocks | project1/file.c:127-133 | On a larger volume ten is reached: a file, its free blocks and an offset for which a write of 1536 bytes logs exactly 10 blocks |
| WriteBudget.File.WriteBlock | project1/fs.c:497-503 | One round of the loop keeps the account: two blocks a round, less one when the first round writes into a block that was there, plus one for a new indirect block |
| WriteBudget.TookData | project1/fs.c:372-511 | A range of bytes can be written exactly if as many blocks are free as its blocks and the indirect block lack, and that many have been taken |
| WriteBudget.NextChunk | project1/file.c:133-152 | One chunk: refused exactly when all that can be written has been, a panic only when blocks are too few for it |
| WriteBudget.File.WriteChunk | project1/file.c:133-145 | One transaction of filewrite does such a chunk and moves offset and size |
| WriteBudget.File.Filewrite | project1/file.c:127-152 | Every transaction of filewrite logs at most MAXOPBLOCKS blocks. It panics exactly if fewer blocks are free than are missing under what can be written, n bytes or the whole chunks within bounds; otherwise it returns -1 exactly for a negative n or a write out of bounds, those chunks written, and else n, with offset and size moved |
| WriteBudget.TallyEnd | project1/fs.c:481-511 | The account bounds the number of distinct blocks logged |
| LinkTree.EntryAddedOk | project1/sysfile.c:140-152 | Adding an entry for a file or device with one more link, or a new one, in a linked directory keeps every link count equal to the entries other than "." naming the inode, names in a directory distinct, and the tree of directories |
| LinkTree.CountsNeedLinkedParent | project1/sysfile.c:140-152 | In a directory removed or not, a new entry for a file or device keeps the counts right exactly if the directory is linked |
| LinkTree.DirCountsNeedLinkedParent | project1/sysfile.c:260-277 | The same for a new directory, although its ".." gives a removed directory a link again: that one's own ".." then names its old parent, uncounted |
| LinkTree.RemovedParentMiscounts | project1/sysfile.c:241-283 | A valid table with a removed directory that is open, in which a new file and a new directory are both counted wrongly |
| LinkTree.DirAddedOk | project1/sysfile.c:260-277 | Adding a directory, its two entries and its parent's extra link keeps the invariant |
| LinkTree.RemovedOk | project1/sysfile.c:218-229 | Clearing an entry and dropping a link of a file or device keeps the invariant |
| LinkTree.DirLinks | project1/sysfile.c:211-229 | An empty directory's one link is its entry, and the directory holding it has at least two |
| LinkTree.DirRemovedOk | project1/sysfile.c:218-229 | Clearing the entry of an empty directory, its link and its parent's keeps the invariant; the directory ends with no link |
| LinkTree.FreeOk | project1/fs.c:341-347 | Freeing an inode without links keeps the invariant: no linked directory names it |
| LinkTree.RefOk | project1/fs.c:241-285 | Taking and dropping references keeps the invariant as long as an unlinked inode in use keeps one |
| LinkTree.FreshOk | project1/mkfs.c:116-129 | A file system with only the root, named by its own entries, satisfies the invariant |
| LinkCode.Namecmp | project1/fs.c:516-520 | strncmp over 14 bytes answers zero exactly for names that agree after truncation to 14 |
| LinkCode.Inodes.Iget | project1/fs.c:241-270 | One more reference; an entry nobody had counts as not read |
| LinkCode.Inodes.Iput | project1/fs.c:331-353 | Frees the inode exactly if it has no links and this was the last reference |
| LinkCode.Inodes.Find | project1/fs.c:524-549 | Finds a used entry of the name, and fails exactly if there is none |
| LinkCode.Inodes.Ilock | project1/fs.c:288-312 | Reads the inode if need be; panics exactly for one not read yet and not in use |
| LinkCode.Inodes.Dirlink | project1/fs.c:551-577 | Refuses exactly a name that is there, changing nothing; otherwise fills the first unused slot; panics exactly when the directory is as large as a file can be or needs more blocks than are free |
| LinkCode.GrowsBy | project1/fs.c:563-574 | The blocks a new entry needs are the blocks a directory of one entry more, 16 bytes each, takes over those it has |
| LinkCode.Inodes.Link | project1/sysfile.c:118-166 | Fails, changing nothing, exactly for a directory, a missing parent or a name that is there; panics exactly when the entry has no place; otherwise one more link and one new entry, and the invariant holds exactly if the parent has not been removed |
| LinkCode.Inodes.Isdirempty | project1/sysfile.c:168-182 | True exactly if no entry after the first two is used |
| LinkCode.Inodes.RemoveEntry | project1/sysfile.c:219-230 | The clearing of an entry found, with the two link counts and the two iputs: the whole table after it, and the invariant |
| LinkCode.Inodes.Unlink | project1/sysfile.c:184-240 | In any directory, removed or not: fails, changing nothing, exactly for ".", "..", a missing name or a directory that is not empty; otherwise the entry and one link are gone and the inode is free exactly if that was the last link and nobody has it open; its panics cannot happen |
| LinkCode.Inodes.Ialloc | project1/fs.c:194-214 | The first free inode, with the given type, no link and one reference |
| LinkCode.Inodes.Create | project1/sysfile.c:241-283 | In any directory: opens an existing file for a file, refuses any other name that is there, otherwise takes the first free inode and enters it, keeping the invariant exactly if the directory has not been removed; panics exactly without a free inode, without a place or free blocks for the entries, or for a name whose inode is no longer in use; "create dots" cannot happen |
| LinkCode.OnlyOldParentDangles | project1/sysfile.c:250-252 | Such a name is only the ".." of a removed directory |
| LinkCode.RemovedWhileOpen | project1/sysfile.c:184-283 | mkdir and rmdir from a fresh file system lead to a removed directory that is still open |
| LinkCode.FileInRemoved | project1/sysfile.c:241-283 | and a file made in it breaks the invariant |
| LinkCode.DirInRemoved | project1/sysfile.c:241-283 | and so does a directory, although that links it again |
| LinkCode.CreateDotDot | project1/sysfile.c:250-252 | Calls from a fresh file system after which create of ".." panics |
| MlfqCode.Queue.Enqueue | project1/proc.c:666-673 | Appends at the back if there is room; the array shifted in place holds the rest unchanged |
| MlfqCode.Queue.Dequeue | project1/proc.c:676-687 | Drops the front |
| MlfqCode.Queue.Remove | project1/proc.c:689-708 | Drops the first process with the pid and keeps the order of the others |
| MlfqCode.Queue.Insert | project1/proc.c:710-721 | Puts the process at the front if there is room |
| MlfqCode.Ptable.MakeReady | project1/proc.c:470-474 | RUNNABLE, and at the back of the queue of its level |
| MlfqCode.Ptable.Wakeup1 | project1/proc.c:465-475 | The loop does what Woken says, which MlfqFields.WakeupIs says in fields: it wakes exactly the sleepers on the channel, in slot order |
| MlfqCode.Ptable.AllocProc | project1/proc.c:87-109 | The first unused slot, with the next pid, priority 3, level 0 |
| MlfqCode.Ptable.Start | project1/proc.c:234-240 | The new process becomes runnable in L0 |
| MlfqCode.Ptable.Yield | project1/proc.c:380-400 | The holder of the scheduler lock keeps running; anyone else goes to the back of its queue |
| MlfqCode.Ptable.Sleep | project1/proc.c:425-448 | The process sleeps on the channel and is in no queue |
| MlfqCode.Ptable.Kill | project1/proc.c:489-509 | Marks the first process with the pid, and readies it if it sleeps; -1 exactly if there is none |
| MlfqCode.Ptable.Exit | project1/proc.c:271-291 | Wakes the parent, hands the children to init, becomes a zombie, and drops the scheduler lock whoever holds it |
| MlfqCode.Ptable.WaitOnce | project1/proc.c:304-332 | One scan: the first zombie child is freed and its pid returned |
| MlfqCode.Ptable.SetPriority | project1/proc.c:558-577 | Sets the priority of the first process with the pid, only for 0 to 3 |
| MlfqCode.Ptable.SchedulerLock | project1/proc.c:580-611 | Takes the lock exactly if nobody has it |
| MlfqCode.Ptable.SchedulerUnlock | project1/proc.c:620-658 | Only the holder: reset and put at the front of L0 |
| MlfqCode.Ptable.Pick | project1/proc.c:746-754 | The front of L0 or L1, in L2 the first of least priority value |
| MlfqCode.Ptable.Schedule | project1/proc.c:732-778 | One turn of the scheduler: picks, takes out of its queue, charges the quantum, moves down a level or lowers the priority value |
| MlfqCode.Ptable.BoostQueue | project1/proc.c:800-810 | The loop over L1 or L2 whose bound shrinks as it runs does what BoostedQueue says |
| MlfqCode.Ptable.PriorityBoosting | project1/proc.c:792-821 | The whole table after boosting |
| MlfqFields.WakeupIs | project1/proc.c:465-475 | Exactly the processes sleeping on the channel become RUNNABLE, with nothing else about any process changed, and each queue is followed by those of its level in slot order |
| MlfqFields.ExitFields | project1/proc.c:271-291 | Every process after exit: the exiting one a zombie, its children init's, a parent asleep on itself RUNNABLE, and init if it waits and a child is a zombie; the scheduler lock is nobody's |
| MlfqFields.ExitQueues | project1/proc.c:271-291 | and the queues: the parent woken goes to the end of its own, and then init |
| MlfqFields.KillFields | project1/proc.c:489-509 | kill changes only the first process with the pid: marked, and a sleeper RUNNABLE at the end of its queue |
| MlfqFields.ReapFields | project1/proc.c:304-332 | wait clears the first zombie child and nothing else |
| MlfqFields.PriorityFields | project1/proc.c:558-577 | setPriority changes that one field of that one process, for 0 to 3 |
| MlfqFields.NobodyFields | project1/proc.c:489-577 | kill and setPriority of a pid nobody has, wait without a zombie child and allocproc with every slot used change nothing |
| MlfqFields.AllocFields | project1/proc.c:87-109 | allocproc gives the first unused slot the next pid, priority 3 and a fresh quantum in L0, and leaves its other fields |
| MlfqFields.StartFields | project1/proc.c:234-240 | fork's child has its parent and is at the end of the queue of its level |
| MlfqFields.YieldFields | project1/proc.c:380-400 | yield does nothing for the holder of the scheduler lock and puts anyone else at the end of the queue of its level |
| MlfqFields.UnlockFields | project1/proc.c:620-658 | schedulerUnlock puts the holder, as new, before all of L0 and does nothing for anyone else |
| MlfqFields.LockThenYield | project1/proc.c:380-658 | Of two who call schedulerLock the first has the lock and keeps the processor in yield; the other does not, and cannot unlock |
| MlfqFields.SleepThenWake | project1/proc.c:425-475 | A sleeper is woken by its channel and by no other |
| MlfqInv.PickIsBest | project1/proc.c:739-754 | What is picked is in the first nonempty queue; the front of L0 or L1, in L2 one of least priority value and the first such |
| MlfqInv.NeverDrops | project1/proc.c:666-721 | By counting over NPROC, enqueue and insertqueue always have room for a process not queued yet |
| MlfqInv.BoostFields | project1/proc.c:792-821 | Boosting gives level 0, used time 0 and priority 3 to exactly the front of L0, the first half, rounded up, of L1 and of L2 and the holder of the scheduler lock, and changes no other process |
| MlfqInv.BoostMoves | project1/proc.c:800-810 | Boosting moves exactly the first half, rounded up, of L1 and then of L2, in order, to the end of L0, and loses nobody |
| MlfqInv.BoostEmptiesExactly | project1/proc.c:800-810 | L1 and L2 end empty exactly if neither holds more than one process |
| MlfqInv.BoostResetsExactly | project1/README.md:40-44 | Documented as resetting every process, boosting leaves every process in use with level 0, used time 0 and priority 3 exactly if neither L1 nor L2 holds more than one and everyone behind the front of L0, and everyone in no queue but the holder of the scheduler lock, has these values before |
| MlfqInv.BoostLeavesOne | project1/proc.c:800-810 | A valid table, two processes waiting in L1, of which boosting leaves one behind |
| MlfqInv.BoostMissesSleeper | project1/proc.c:792-821 | A valid table whose queues are empty and whose sleeper stays at level 2 |
| MlfqInv.BoostKeepsUsedTime | project1/proc.c:792-799 | A valid table, two processes in L0, of which the second keeps its used time |
| MlfqRuns.StepKeeps | project1/proc.c:87-821 | Every step but the holder of the scheduler lock going to sleep keeps: RUNNABLE exactly if queued once, in the queue of its level and no other; used time below 2*level+4; priority 0 to 3; pids in use different; the lock holder running |
| MlfqRuns.RunKeeps | project1/proc.c:87-821 | and so does every run in which the holder never sleeps |
| MlfqRuns.EveryRun | project1/proc.c:28-41 | From boot on the invariant holds after every such run, and every queue has room for a process that is not queued |
| MlfqRuns.BoostNeedsHolderMoved | project1/proc.c:812-818 | Without the assumption that the holder does not sleep, boosting keeps the queues right exactly if the holder does not stay behind in L1 or L2 |
| MlfqRuns.HolderLeftBehind | project1/proc.c:792-821 | A table with the holder second in L1: boosting leaves it there, at level 0 |
| MlfqRuns.StepKeepsButLock | project1/proc.c:87-821 | With sleep allowed to anyone a step keeps all of the invariant but "the holder runs" exactly unless it is a boost that leaves the holder behind |
| MlfqRuns.RunKeepsButLock | project1/proc.c:87-821 | and so does every run whose boosts leave no holder behind |
| MlfqRuns.EveryFreeRun | project1/proc.c:28-41 | From boot on this holds after every such run, and every queue has room for a process that is not queued |
| MlfqRuns.AwakeIsMoved | project1/proc.c:812-818 | The runs in which the holder never sleeps are among these |
| MlfqRuns.L0InOrder | project1/proc.c:739-763 | In any run without schedulerUnlock whose boosts leave no holder behind the process at index j of L0 is picked by exactly the (j+1)-th dispatch |
| MlfqRuns.Decay | project1/proc.c:765-778 | In any run without boosting, unlocking or setPriority, level, used time and priority are the closed form of the number of turns: thresholds 4 and 10, one step of priority for every 8 turns after |
| Umalloc.UnitsEnough | project1/umalloc.c:69 | The units computed in 32-bit arithmetic hold the bytes asked for exactly if the sum does not wrap around |
| Umalloc.UnitsLeast | project1/umalloc.c:69 | and no fewer do |
| UmallocCode.StopsAtPlace | project1/umalloc.c:31-33 | The tests of free's search loop stop it at the last entry below the block, and nowhere else |
| Umalloc.FreedOrdered | project1/umalloc.c:34-43 | After freeing, the list is in address order, disjoint and without touching neighbours |
| Umalloc.FreedUnits | project1/umalloc.c:34-43 | and covers exactly the freed units besides those it covered |
| Umalloc.FreedLinked | project1/umalloc.c:34-43 | and the headers written link it in a circle |
| Umalloc.FreeSound | project1/umalloc.c:25-44 | free keeps the invariant: every unit from sbrk in exactly one free or live block |
| Umalloc.TakeSound | project1/umalloc.c:75-76 | Taking a whole block keeps it |
| Umalloc.SplitSound | project1/umalloc.c:77-81 | Taking the tail of a larger block keeps it |
| Umalloc.GrowSound | project1/umalloc.c:51-57 | So does a region from sbrk, until freed as a live block |
| Umalloc.UserWrites | project1/umalloc.c:24-90 | Whatever a program stores inside its block, after the header, keeps it |
| UmallocCode.FreeUndoesMalloc | project1/umalloc.c:24-90 | Giving back a block just taken restores the very same list |
| UmallocCode.Heap.Free | project1/umalloc.c:24-44 | The search terminates from any free pointer; list, live blocks and free pointer after it; all of the arena kept |
| UmallocCode.Heap.Coalesce | project1/umalloc.c:34-43 | The field-by-field writes make the two header updates of FreedMemory |
| UmallocCode.Heap.Morecore | project1/umalloc.c:46-61 | For requests of less than 2^28 units: 0 with nothing changed exactly if sbrk fails, else at least 4096 units from the old end of memory freed into the list; for larger ones the header's place is not memory of the process exactly unless sbrk fails, which it does exactly if shrinking by what it takes the number for would leave nothing |
| UmallocCode.Heap.Take | project1/umalloc.c:74-85 | Exact fit or split of the entry found; the block is disjoint from all live ones |
| UmallocCode.Heap.Malloc | project1/umalloc.c:63-90 | For every request: terminates; takes the first block after the free pointer that is large enough, asks for memory only if none is, fails exactly if sbrk then fails; the block is new, live blocks and arena otherwise unchanged. It stores outside the process's memory exactly for a request of 2^28 units or more that no free block satisfies, unless sbrk fails |
| UmallocCode.AllottedIsTail | project1/umalloc.c:75-82 | The block malloc gives is the end of an entry that is large enough, and the list loses exactly that |
| BufLinks.PushFront | project1/bio.c:50-54 | Linking in after the head keeps next and prev one cycle, with the buffer first |
| BufLinks.TakeOut | project1/bio.c:132-133 | Unlinking keeps the cycle through the others in their order |
| BufLinks.ToFrontFull | project1/bio.c:130-138 | Moving a buffer to the front keeps every buffer in the list once |
| BufCache.ShowsOne | project1/bio.c:61-93 | With at most one buffer for each block of a device, every block has one contents |
| BufCache.UpdateSame | project1/bio.c:95-116 | Filling, writing back, pinning, locking and counting change no block's contents |
| BufCache.RecycleSame | project1/bio.c:81-87 | Recycling a buffer changes no block's contents exactly if the disk has what the buffer had |
| BufCache.StoreShows | project1/bio.c:10-14 | A store into a held buffer changes its own block's contents and no other's |
| BufCache.Bcache.Binit | project1/bio.c:38-56 | All buffers in one cycle, the last of the array first |
| BufCache.Bcache.FindCached | project1/bio.c:69-76 | The first loop finds the block's buffer, exactly if there is one |
| BufCache.Bcache.FindUnused | project1/bio.c:81-92 | The second finds the least recently used buffer that nobody references and is not pinned, exactly if there is one |
| BufCache.Bcache.Bget | project1/bio.c:61-93 | The block's buffer with one more reference; else the least recently used one that nobody references or waits for and is not pinned, given to the block; the panic exactly if there is none; no block's contents change |
| BufCache.Bcache.AcquireSleep | project1/sleeplock.c:22-32 | One holder at a time |
| BufCache.Bcache.Iderw | project1/ide.c:134-164 | Writes a dirty buffer or reads one without data; panics exactly otherwise or if not held; no block's contents change |
| BufCache.Bcache.ReadIn | project1/bio.c:96-106 | The held buffer ends with the contents of its block |
| BufCache.Bcache.Store | project1/bio.c:8-14 | Between bread and bwrite or log_write only the held block changes |
| BufCache.Bcache.Bwrite | project1/bio.c:109-116 | The buffer's data are on disk; panics exactly for one who does not hold it |
| BufCache.Bcache.LogWrite | project1/log.c:231 | Pins the buffer |
| BufCache.Bcache.ReleaseSleep | project1/bio.c:120-126 | Gives up the buffer; panics exactly for one who does not hold it; changes no block's contents, and keeps the invariant exactly if a changed buffer has been written or is pinned |
| BufCache.Bcache.Drop | project1/bio.c:128-138 | One reference less; the last one moves the buffer to the front and leaves the order of the others |
| BufLog.BuffersLeft | project1/bio.c:78-93 | The buffers bget can recycle are exactly as many as remain beside the logged blocks and the buffers held |
| BufLog.RecyclePins | project1/bio.c:81-87 | bget's recycling keeps that account with one more buffer held |
| BufLog.LogWritePins | project1/log.c:224-231 | log_write of a block not logged yet turns a buffer held into one pinned |
| BufLog.DropPins | project1/bio.c:120-138 | and the last brelse of a buffer that is not pinned gives it back |
| BufLog.BgetFinds | project1/param.h:10-12 | With project1's constants, after every run of the log, a buffer is left exactly if logged blocks and buffers held are fewer than 30, and always if none is held |
| BufLog.ReaderTooMany | project1/param.h:10-12 | A run of three operations within their budgets and a valid cache with their 29 blocks pinned and one buffer held, in which none is left for the first log block |
| VmSpace.EntryParts | project1/vm.c:73 | The entry stored has the frame, the flags, and the present bit set |
| VmSpace.NewTableOk | project1/vm.c:45-52 | A zeroed page entered in a directory, present, writable and open to programs, keeps every frame in exactly one use and every directory entry so |
| VmSpace.NewUserOk | project1/vm.c:69-73 | So does mapping a page of the kernel's for a process |
| VmSpace.DropUserOk | project1/vm.c:270-275 | and unmapping one |
| VmSpace.DissolveOk | project1/vm.c:289-295 | and giving up a directory without pages |
| VmSpace.OneOwner | project1/vm.c:69-73 | No two user mappings, of whatever processes, share a frame |
| VmSpace.SetLeaf | project1/vm.c:69-73 | Storing one table entry changes one page of one address space |
| VmSpace.FreeFirst | project1/kalloc.c:89-91 | Popping leaves the free list with exactly the other free frames, each once |
| VmSpace.FreeMore | project1/kalloc.c:74-76 | Pushing a frame that is not free leaves it with exactly the free frames |
| VmSpace.FreeTwice | project1/kalloc.c:74-76 | Pushing a frame that is free already leaves links that no list of frames makes up |
| VmCode.Vm.Kalloc | project1/kalloc.c:82-95 | The first frame of the list; 0 exactly if no frame is free |
| VmCode.Vm.Kfree | project1/kalloc.c:59-79 | The frame first on the list, filled with junk; panics exactly outside the allocator's frames; the list stays one exactly if the frame was not free |
| VmCode.Vm.Freerange | project1/kalloc.c:46-53 | Every page of the range is free, the last first |
| VmCode.Vm.Walkpgdir | project1/vm.c:35-56 | The table for the page; with alloc a new zeroed one, entered open to all access, unless memory is out; no page's entry in any address space changes |
| VmCode.Vm.Mappages | project1/vm.c:60-80 | For addresses and sizes in bytes: all pages of the range, none of them present before, mapped to consecutive frames with the flags, those below KERNBASE now the process's; or the pages before the first present one, and the panic "remap"; or the pages before one without a table when memory is out. No entry outside the range changes |
| VmCode.NotYet | project1/vm.c:105-115 | The kernel's ranges do not overlap |
| VmCode.Vm.Setupkvm | project1/vm.c:118-137 | A new directory with exactly the kernel's mappings; on failure every frame's use is as before |
| VmCode.Vm.Allocuvm | project1/vm.c:221-249 | Success: exactly the pages from oldsz rounded up to newsz, none present before, are new, zeroed, writable, in frames that were free. Failure: no such page is there, those that were before given up with the new ones, nothing but tables taken, other mappings as before. The panic "remap" only for a range with a page that was there, never on success. For a size of 0 nothing changes |
| VmCode.Vm.DropPage | project1/vm.c:267-278 | One round: the page's frame freed and its entry cleared if present |
| VmCode.Vm.Deallocuvm | project1/vm.c:255-280 | With the step over missing tables, frees exactly the present pages from newsz rounded up to oldsz |
| VmCode.Vm.Freevm | project1/vm.c:283-298 | Exactly the directory, its tables and its pages are free; other address spaces and their pages as before |
| VmCode.Vm.CopyNext | project1/vm.c:324-338 | One round: the page copied to a frame of its own and mapped; or every use as before; or a panic exactly if the page is not present |
| VmCode.Vm.Copyuvm | project1/vm.c:315-346 | Success: every page was there; same pages, flags and contents in frames of its own, the parent unchanged. Failure: every frame's use is as before. It panics only for a page below sz that is not present |
| VmCode.CopyUndone | project1/vm.c:342-345 | freevm of the half-made copy gives back all it had taken |
| VmUser.AccessIsLeaf | project1/mmu.h:64-100 | What the processor reaches from a virtual address, through directory and table and their access bits, is what the table's entry says: no directory entry takes a right away |
| VmUser.NewPagesUsable | project1/vm.c:221-249 | After allocuvm a program can read and write every byte of the new pages, which are zero and in frames that were free |
| VmUser.CopySeesSame | project1/vm.c:315-346 | After copyuvm the child can do with an address what the parent can, and finds the same page there in a frame of its own |
| VmUser.KernelMap | project1/vm.c:105-115 | What setupkvm maps, written out: physical memory from KERNBASE on, writable but for the kernel's text, and the devices at their own addresses |
| VmUser.KernelHidden | project1/vm.c:105-137 | and a program gets at none of it |
| Grep.RenderParse | project1/grep.c:72-106 | Reading a pattern as elements loses nothing of it |
| Grep.BeginsCons | project1/grep.c:84-96 | A first word and a match of the rest make a match |
| Grep.BeginsUncons | project1/grep.c:84-96 | and every match has that form |
| Grep.MatchHere | project1/grep.c:84-96 | 1 exactly if some prefix of the text, the whole of it with a final $, is in the language of the pattern |
| Grep.MatchStar | project1/grep.c:98-106 | 1 exactly if a run of c followed by a match begins the text: the shortest-first search misses none |
| Grep.Match | project1/grep.c:72-82 | 1 exactly if some suffix of the text, the text itself after a leading ^, has such a prefix; all the recursion terminates |

## Left out

- LogCode.Log.LogWrite: the two guards, which the source evaluates before it takes the lock, are one step with the locked section.
- LogTheorems.SyncCounts: one process only; with several, project3's `end_op` releases the lock before `sync` announces the commit, and does not wake sleepers when it does not commit, so the claims of project1 do not carry over.
- LogCode.Log.InstallTrans: buffers are found by block number; their reference counts and the recycling of buffers are in BufCache only.
- FileCode.FileSys.Readi: as in the source, a read over a hole allocates the block; for a file without holes nothing changes. Device files are not part of this model, here and in Writei.
- FileCode.FileSys.FreeIndex: the loops that the source writes out once for each depth are one method with the depth as a parameter.
- FileCode.FileSys.Itrunc: `iupdate` is the block number it logs; how inodes lie in their disk blocks is not modelled.
- FileCode.FileSys.UnlinkWrites: finding the entry and the link counts are left to LinkCode.
- FileCode.FileSys.Writei: that a write in project3 fits its log reservation is not claimed, since free bits spread over many map blocks can exceed it.
- WriteBudget.File.Bmap: the contents of data blocks are left out; the blocks allocations return are a parameter, any block numbers, free or not.
- LinkCode.Inodes.Link: paths are not walked; the inode and the parent directory they lead to are parameters, here and in Unlink and Create.
- LinkCode.Inodes.Iget: the bound NINODE on cached inodes, and its panic, are left out.
- LinkCode.Inodes.Dirlink: a directory is its list of entries; that they lie in a file is FileCode's part, and how many blocks a freed inode gives back is left open. The link count is unbounded; a 16-bit one cannot overflow on a disk of 1000 blocks, which holds at most 32000 entries.
- MlfqRuns.StepKeeps: the holder of the scheduler lock is assumed not to sleep; StepKeepsButLock is without that.
- MlfqCode.Ptable.SchedulerLock: a wrong password, which ends the process, is an exit; the tick counter is left out.
- MlfqCode.Ptable.AllocProc: process identifiers are unbounded; the kernel stack, page table, open files and the switch between processes are left out.
- UmallocCode.Heap.Malloc: addresses are unbounded, and the break is assumed to be aligned to headers; what becomes of a process that stores outside its memory is not modelled.
- UmallocCode.Heap.Morecore: memory from sbrk lies above all earlier memory; a process that shrinks itself by calling sbrk is not modelled.
- BufCache.Bcache.ReleaseSleep: blocks of device 0, which unused buffers carry, are excluded from the claims about contents.
- BufLog.BgetFinds: that cache and log step together is not a state machine of its own; the account is kept step by step.
- BufCache.Bcache.Iderw: a disk transfer is one atomic step; the request queue and the presence of the second disk are left out.
- VmCode.Vm.Mappages: physical addresses are page-aligned, as in all of its calls, and frames given for pages below KERNBASE are the kernel's own; flags beyond the lowest 12 bits do not exist.
- VmCode.Vm.Copyuvm: sizes above KERNBASE, which no process has; loading programs, `inituvm`, `clearpteu` and `copyout` are left out.
- Grep.Match: `grep` itself, which reads lines through a buffer and drops a line longer than the buffer, is left out.
- Interrupts, spinlocks, context switches, traps, drivers, consoles, pipes, exec, the shell and the test programs.
- project2, and project3's symbolic links.
