# RucksFS metadata engine: a verified model

RucksFS is a POSIX file system whose metadata server keeps its namespace in an ordered key-value store.
Changes to parent directories are appended to a delta log instead of being written into the parent's
record; readers fold the log, and a background compactor folds it into the record. This project models
that engine in Dafny and proves what its parts promise each other.

## Structure

The heart is one state machine, `Server.dfy`. Its state is the committed store (inodes, entries, deltas,
locations, symlinks, inode counter) and the server's memory (sequence counters, cache, handles, pending
deletes, dirty set, allocator). `Step` gives the effect of one attempt of each of 17 operations, including
what an attempt leaves behind whose commit is refused. The build variant is a parameter, so the same
operations exist with delta logging and with the read-modify-write of the `no_delta` feature.

| files | contents |
|---|---|
| `Bits`, `Types`, `Wrappers` | machine words, inode values, mode masks |
| `DeltaFold`, `Logging` | the fold, its order, and what a list of parent changes amounts to |
| `Server` | the state machine |
| `Tree`, `Links`, `Invariants`, `Preservation`, `RenamePreservation`, `Namespace` | the namespace invariants over every run |
| `Conditions`, `Protocol`, `CacheCoherence` | exact caller conditions, the unlink/open/release protocol, the cache |
| `Answers`, `Effects` | when each operation succeeds and with which error it fails; what it changes, field by field |
| `Handles`, `Writes` | opens against closes, and sizes and contents after writes, over whole runs |
| `Reference` | the server behaves like a file system of names, nodes and handles |
| `Refinement`, `Reads` | the delta build refines the `no_delta` build, and answers reads alike |
| `DeltaLog` | sequence numbers, dirty coverage, clocks |
| `CompactionRace`, `SplitCompaction` | compaction against concurrent appends; refinement with compactions split into scan and commit |
| `Codec`, `SortedStore`, `DeltaStore` | the byte layer: encodings, prefix scans, the delta store object |
| `InodeCache`, `RawDisk`, `Allocator`, `Fsck` | the cache, data store and allocator objects, the checker's loops |
| `MetadataServer`, `VfsCore`, `Vfs` | the server and client objects, and data coordination over runs |
| `Locks`, `LockCoverage`, `RowTransactions` | lock order and waiting; locks against writes; serialisability of one row with retries |

The objects in `MetadataServer.dfy`, `DeltaStore.dfy`, `InodeCache.dfy`, `RawDisk.dfy` and `VfsCore.dfy` follow
the step-by-step form of the source and are proved against the functions that the run theorems are about.

## Reading the conditions

The server does not establish everything that its invariants need. What is asked of callers is collected in
`Invariants.Allowed` (parents of new entries are linked directories; no rename of a directory onto or below
itself and none that joins two names of a file; a link target has a link; counters have room; the deletion in
a last release gets through), `Protocol.ProtocolAllowed`, `CacheCoherence.CacheAllowed`,
`Refinement.TimesAllowed` and `Vfs.VfsAllowed`. Members ending in `Iff` say which of them are exact:

- of an accepted link, create, mkdir or symlink, the invariant survives if and only if its condition in `Allowed`
  holds (`Conditions`); of an accepted rename the same, among renames with room for one more subdirectory;
- the protocol survives a link, a replacing rename or a release if and only if the stated case is avoided
  (`Protocol`); for release `Allowed` asks a little more, that no deletion is refused at all;
- the cache survives caching a base if and only if it is settled (`CacheCoherence`);
- equal times survive setattr, report_write and rename if and only if `TimesAllowed` holds (`Refinement`);
- for truncating opens, unreported writes and stray writes `Vfs` gives the exact condition on the data, of
  which `VfsAllowed` admits the part that does not depend on the bytes.

The remaining parts of `VfsAllowed` (pieces below 4 GiB, regions below 2^64, a number left for a new inode) and the
room for a subdirectory in a rename are sufficient; nothing here shows that they are necessary.

Time, refused commits and blocked compactions are inputs of the operations. Where code and comments disagree
the code is followed:

- `storage/src/allocator.rs:57-59` says that a crash skips numbers; `load` resumes from the last written value
  and so gives numbers out again (`Allocator.RestartTakesOverInode`).
- `storage/src/rocks.rs:690` says that inode order prevents deadlocks; link and backward renames do not follow
  it (`Locks.LinkDeadlocks`, `Locks.CrossedRenamesDeadlock`).
- `server/src/delta.rs:137` gives the link change without the clamp that the loop applies.
- `storage/src/rawdisk.rs:118-127` has a case for truncation to exactly the maximum that its own offset check
  refuses first (`RawDisk.RawDiskStore.Truncate`).

## Model

| member | source | states |
|---|---|---|
| `DeltaFold.FoldDeltas` | server/src/delta.rs:142-161 | the in-place loop computes the left fold of the operations: signed link change clamped at zero and cast to 32 bits, times only forward |
| `DeltaFold.FoldConcat` | server/src/delta.rs:142-161 | folding a log in two pieces is folding it whole |
| `DeltaFold.FoldByField` | server/src/delta.rs:142-161 | the fold changes only the link count and the three times, each from its own old value and the latest logged time |
| `DeltaFold.FoldPermutation` | server/src/delta.rs:142-161 | every order of the same operations folds to the same value while the link count neither clamps nor wraps |
| `DeltaFold.OrderIrrelevantIff` | server/src/delta.rs:145-149 | given that the additions fit in 32 bits, every order gives the arithmetic link count if and only if the base covers all removals |
| `DeltaFold.ClampDependsOnOrder` | server/src/delta.rs:145-149 | at a link count of zero, removing then adding gives 1 and adding then removing gives 0 |
| `DeltaFold.ExactIsInteger` | server/src/delta.rs:145-149 | a log that never clamps or wraps changes the count at every prefix by plain integer addition |
| `Types.TypeTestsAreBitwise` | server/src/lib.rs:422-425 | the arithmetic readings of the file type, of the symlink test and of the whole-type directory test are the masks of the code |
| `Types.DirectoryTestIsBitwise` | server/src/lib.rs:418-420 | the arithmetic reading of the one-bit directory test is the mask of the server |
| `Types.ChmodIsBitwise` | server/src/lib.rs:530-530 | the arithmetic chmod is the mask expression of setattr |
| `Types.TypedIsBitwise` | server/src/lib.rs:613-620 | the arithmetic typing of new inodes is the mask expression of create, mkdir and symlink |
| `Types.Chmod` | server/src/lib.rs:529-531 | chmod cannot change the file type |
| `Types.DirectoryTestsAgree` | server/src/fsck.rs:96-103 | the one-bit directory test of the server and the whole-type test of the checker agree on a mode if and only if its type is none of seven types, and so on every storable mode |
| `Types.DirectoryTestsDisagreeOnDevices` | server/src/lib.rs:418-420 | block devices and sockets pass the server test and fail the checker test |
| `Logging.LogAllDeltas` | server/src/lib.rs:364-380 | delta build: a list of parent changes appends exactly the numbered operations addressed to each inode and changes nothing else |
| `Logging.LogAllPlain` | server/src/lib.rs:382-413 | read-modify-write build: the same list folds each stored base with the operations addressed to it |
| `Logging.CacheAllFolds` | server/src/cache.rs:84-90 | applying deltas to the cache folds present entries and adds none |
| `Tree.TreeAdd` | server/src/lib.rs:696-759 | one more entry below a directory of the tree keeps the tree |
| `Tree.TreeRemove` | server/src/lib.rs:869-932 | removing a file entry or an empty directory keeps the tree |
| `Tree.TreeMoveIff` | server/src/lib.rs:934-1155 | moving a directory, also onto an empty one, keeps the tree if and only if the new parent is outside the moved subtree |
| `Tree.TreeMoveFile` | server/src/lib.rs:934-1155 | moving a file keeps the tree |
| `Namespace.StepKeepsInv` | server/src/lib.rs:496-1411 | every attempt of every operation, committed or refused, under the stated conditions on callers, keeps the joint invariant: entries typed like their inodes, tree, file and directory link counts, exact logs, fresh numbers, pending deletes, typed cache |
| `Namespace.RunKeepsInv` | server/src/lib.rs:496-1411 | the same over every run of attempts |
| `Namespace.FormattedInv` | server/src/lib.rs:190-210 | a formatted store satisfies the invariant |
| `Namespace.DirectoriesFormATree` | server/src/lib.rs:934-1155 | in every reachable state each linked directory has a path from the root and exactly one entry, the root none |
| `Namespace.DirectoryLinkCounts` | server/src/lib.rs:1060-1086 | in every reachable state the effective link count of a linked directory is two plus its subdirectory entries, and no prefix of the fold that computes it clamps or wraps |
| `Namespace.FileLinkCounts` | server/src/lib.rs:786-816 | in every reachable state a stored file has as many links as entries name it, no pending deltas, and every entry has the type of its inode |
| `Preservation.UnlinkKeepsInv` | server/src/lib.rs:761-867 | unlink keeps the joint invariant without any condition on the caller |
| `Preservation.RmdirKeepsInv` | server/src/lib.rs:869-932 | rmdir keeps the joint invariant without any condition on the caller |
| `Preservation.LinkKeepsInv` | server/src/lib.rs:1227-1303 | link keeps the joint invariant for a target with a link left |
| `Preservation.AddNodeKeepsInv` | server/src/lib.rs:599-662 | create, mkdir and symlink keep the joint invariant below a linked directory |
| `Preservation.CompactAllEffective` | server/src/compaction.rs:158-202 | compaction leaves every effective value as it was |
| `RenamePreservation.RenameKeepsInv` | server/src/lib.rs:934-1155 | an allowed rename between two names keeps the joint invariant, in all combinations of types, parents and replaced targets |
| `Answers.CreationAnswers` | server/src/lib.rs:599-662 | create, create_and_open, mkdir and symlink: NameTooLong, AlreadyExists or a refused commit exactly when the name is too long, taken, or the commit is refused, and success otherwise |
| `Answers.UnlinkAnswers` | server/src/lib.rs:761-784 | unlink succeeds if and only if the name is an entry of a non-directory and the commit is not refused; the error of every other case |
| `Answers.RmdirAnswers` | server/src/lib.rs:869-897 | rmdir succeeds if and only if the name is an entry of a directory that no entry has as parent and the commit is not refused; the error of every other case |
| `Answers.RenameAnswers` | server/src/lib.rs:934-1040 | rename succeeds if and only if the source is an entry and the target is free, or of the same kind and not a directory with entries, and the commit is not refused; the error of every other case |
| `Answers.LinkAnswers` | server/src/lib.rs:1227-1261 | link succeeds if and only if the target is a stored non-directory, the name is free, the parent a stored directory and the commit not refused; the error of every other case |
| `Answers.UpdateAnswers` | server/src/lib.rs:517-577 | setattr and report_write succeed if and only if the inode is stored and the commit is not refused |
| `Answers.LoadAnswers` | server/src/lib.rs:220-247 | a read finds exactly the stored inodes, from the cache or not |
| `Answers.OpenAnswers` | server/src/lib.rs:1157-1197 | open succeeds if and only if the inode is a stored non-directory and no truncation that has something to cut is refused; the location it answers |
| `Answers.ReleaseAnswers` | server/src/lib.rs:1393-1410 | release fails if and only if it closes the last handle of a file waiting to be deleted and is refused, and reports exactly that file otherwise |
| `Effects.CreatedFile` | server/src/lib.rs:599-694 | an accepted create or create_and_open answers, stores and serves a file with the next number, the requested permission bits under the regular type, owner and group as given, size 0, one link, all times the given one and the default location; one entry is new, the parent gets the time, and nothing else changes |
| `Effects.CreatedDirectory` | server/src/lib.rs:696-759 | the same for mkdir, with two links and no location; a linked parent with room gains a link |
| `Effects.CreatedSymlink` | server/src/lib.rs:1306-1375 | the same for symlink, with all permissions, the length of the target as size, and the stored target as given |
| `Effects.UnlinkEffect` | server/src/lib.rs:761-867 | an accepted unlink removes the entry; the file goes, with its location, if this was its last link and no handle is open, and otherwise loses one link and gets the change time only; the parent gets its time, and nothing else changes |
| `Effects.RmdirEffect` | server/src/lib.rs:869-932 | an accepted rmdir removes entry and inode, takes a link from the parent and gives it the time, and changes nothing else |
| `Effects.RenameEffect` | server/src/lib.rs:1046-1130 | an accepted rename moves the entry, sets the change time of the moved inode and no other field, gives both parents the time and moves one link along with a directory, and changes nothing else but the replaced inode |
| `Effects.ReplacedEffect` | server/src/lib.rs:1006-1063 | a replaced file loses one link and gets the change time, or goes with its last link and is reported; the row of a replaced directory stays and its pending deltas go |
| `Effects.RenameOntoItselfEffect` | server/src/lib.rs:1023-1059 | a file renamed onto itself keeps its links and gets the change time; with one link it loses its location and is reported |
| `Effects.LinkEffect` | server/src/lib.rs:1262-1303 | an accepted link adds the entry and one link, sets the change time of the target and no other time, gives the parent its time, and changes nothing else |
| `Effects.SetAttrEffect` | server/src/lib.rs:517-577 | an accepted setattr gives every requested field the requested value and keeps every other, on the reply, the stored row and the next read: the type is kept, the modification time is the clock exactly when the size changes, the change time is the clock; truncation is asked for exactly on a shrink; no other row changes |
| `Effects.ReportWriteEffect` | server/src/lib.rs:1199-1225 | an accepted report_write makes the size the larger of the two and both times the reported one, and changes no other row |
| `Effects.OpenEffect` | server/src/lib.rs:1157-1197 | an accepted open adds one handle of this inode; with truncation a file with a size loses it and gets both times; nothing else changes |
| `Effects.ReleaseEffect` | server/src/lib.rs:477-488 | release takes one handle of this inode away if there is one; the last one of a file without links takes the file and its location along; nothing else changes |
| `Effects.ReadsChangeNothing` | server/src/lib.rs:220-247 | reads and evictions change the cache only, and only at their inode |
| `Effects.CompactionEffect` | server/src/compaction.rs:158-253 | compaction of any kind changes no entry and no value that a reader sees, and drops what it has rewritten from the cache |
| `Conditions.NewEntryKeepsTreeIff` | server/src/lib.rs:599-640 | an entry for a new inode keeps the tree if and only if its parent is a linked directory |
| `Conditions.AddNodeKeepsTreeIff` | server/src/lib.rs:599-640 | create, mkdir and symlink, which do not check their parent, keep the tree if and only if it is a linked directory |
| `Conditions.AddNodeKeepsInvIff` | server/src/lib.rs:599-662 | an accepted create, mkdir or symlink keeps the joint invariant if and only if its parent is a linked directory, another inode number is left, and for mkdir the link count of the parent has room |
| `Conditions.LinkKeepsInvIff` | server/src/lib.rs:1227-1303 | an accepted link keeps the joint invariant if and only if its parent is a linked directory (a stored one is not enough), its target has a link left, and the link count has room |
| `Conditions.RenameKeepsInvIff` | server/src/lib.rs:934-1155 | given room for one more subdirectory, an accepted rename keeps the joint invariant if and only if the new parent is a linked directory, no two names of one file are joined, and no directory moves onto or below itself |
| `Conditions.JoiningNamesMiscounts` | server/src/lib.rs:1023-1059 | renaming one name of a file over another of its names always loses count of the links |
| `Conditions.DirectoryOntoItselfMiscounts` | server/src/lib.rs:1012-1068 | renaming a directory onto itself always takes a link from its parent |
| `Protocol.ProtocolSafety` | server/src/lib.rs:477-488 | over every run of the protocol, inodes with open handles stay stored, pending deletes are exactly the stored files without links, and no inode is reported purged twice or comes back |
| `Protocol.EveryStepIsClean` | server/src/lib.rs:786-861 | every attempt reports at most one inode, exactly the file that stops being stored by it, and keeps open inodes stored |
| `Protocol.PurgedIffGone` | server/src/lib.rs:850-861 | an inode is reported purged if and only if the attempt removes it, and then it has no name, no handle and no pending delete |
| `Protocol.RenameKeepsHandlesIff` | server/src/lib.rs:1023-1040 | rename keeps open files stored if and only if it does not replace the last link of another open file |
| `Protocol.RenameOntoItselfPurgesIff` | server/src/lib.rs:1023-1059 | a file renamed onto itself stays stored, and is wrongly reported purged if and only if it has one link |
| `Protocol.LinkKeepsDeferredIff` | server/src/lib.rs:1233-1265 | link keeps the pending deletes exact if and only if the target has a link left |
| `Protocol.LinkToDeadFileDangles` | server/src/lib.rs:1393-1410 | linking an unlinked open file and closing it leaves an entry that names no stored inode |
| `Protocol.ReleaseKeepsDeferredIff` | server/src/lib.rs:1393-1410 | release keeps the pending deletes exact unless it closes the last handle of a pending file and all its tries are refused |
| `Protocol.RestartKeepsDeferredIff` | server/src/lib.rs:181-188 | a restart closes every handle and keeps the pending deletes exact if and only if there were none; files that were waiting stay stored and no release deletes them |
| `Handles.TableIsCounted` | server/src/lib.rs:1183-1186 | over every run, without conditions on callers, the handle count of an inode is the number of its answered opens minus the releases made while it was open |
| `Handles.OpenFilesAreStored` | server/src/lib.rs:477-488 | over every run of the protocol an inode that has been opened more often than closed is stored, as a file |
| `Handles.PurgedByLastRelease` | server/src/lib.rs:1393-1410 | over every run of the protocol, a file without names is purged by an attempt if and only if that is the release that makes its closes equal its opens |
| `Handles.UnlinkPurgesIff` | server/src/lib.rs:786-816 | the unlink of the last name of a file purges it if and only if it has been closed as often as opened |
| `Reference.EveryStepMatches` | server/src/lib.rs:496-1411 | every allowed attempt has the answer of the reference file system and shows its new names, nodes, symlink targets, handles and next number |
| `Reference.StepCacheShows` | server/src/lib.rs:220-247 | every attempt, without conditions on callers, keeps cached type, permissions, owner and size equal to the stored ones, pending deltas or not |
| `Reference.RunsLikeReference` | server/src/lib.rs:496-1411 | over every run of the protocol the server shows what the reference shows |
| `Reference.AnswersLikeReference` | server/src/lib.rs:496-1411 | from a formatted store, after every run of the protocol and for every further allowed attempt, names, nodes, targets, handles and the answer are those of a reference without deltas, cache, transactions and deferred deletion, in which a file lives as long as it has a name or is open |
| `CacheCoherence.RunCoherent` | server/src/lib.rs:220-247 | along every run in which written bases are settled, every cached value is the stored base folded with its pending deltas, and cached implies stored |
| `CacheCoherence.CacheIsTransparent` | server/src/lib.rs:220-247 | after such a run a read returns the folded value of a stored inode and NotFound for any other, on a hit and on a miss alike |
| `CacheCoherence.SettledIff` | server/src/lib.rs:559-563 | a written base is settled if and only if the pending link changes cancel out and no pending time is later than its own |
| `CacheCoherence.PutBaseCoherentIff` | server/src/lib.rs:559-563 | caching a locked base without its deltas keeps the cache coherent if and only if the pending link changes cancel out and no pending time is later |
| `CacheCoherence.SetAttrAfterMkdirIsStale` | server/src/lib.rs:559-563 | a run that serves a stale value: on a new server, mkdir in the root and any setattr of the root, after which a read returns two links although the root has three |
| `Refinement.StepMatches` | server/src/lib.rs:364-413 | every allowed attempt takes related servers of the two builds to related servers and gets from both the same error, the same instructions, for files the same attributes and for directories the same type |
| `Refinement.RunRefines` | server/src/lib.rs:364-413 | the relation holds along every run |
| `Refinement.DeltaBuildRefinesPlain` | server/src/lib.rs:364-413 | over every run of operations, compactions and evictions from a formatted store: identical entries, handles and pending deletes, and for every linked inode the folded value agrees with the other base on size, mode, owner and link count |
| `Refinement.ClockedBuildsAgree` | server/src/lib.rs:364-413 | under a clock that never goes back, and no explicit modification time below a pending one, the folded value of every linked inode equals the other base in every field |
| `Refinement.SetAttrTimesIff` | server/src/lib.rs:526-562 | setattr keeps the times of the two builds equal if and only if no time it sets is earlier than a pending one |
| `Refinement.ReportWriteTimesIff` | server/src/lib.rs:1213-1218 | report_write does so if and only if its time is not earlier than a pending modification or change time |
| `Refinement.RenameTimesIff` | server/src/lib.rs:1056-1059 | rename, which sets the change time of the moved inode, does so if and only if its time is not earlier than a pending change time |
| `Refinement.CompactionMatches` | server/src/compaction.rs:158-202 | compacting any set of inodes is invisible to the other build |
| `Refinement.RenameMatches` | server/src/lib.rs:934-1155 | rename has the same outcome in both builds |
| `Reads.StepIsPlain` | server/src/lib.rs:382-413 | every attempt of the read-modify-write build, without any condition on callers, leaves no deltas and a cache that holds stored bases |
| `Reads.RunIsPlain` | server/src/lib.rs:382-413 | the same over every run |
| `Reads.ReadsAgree` | server/src/lib.rs:220-247 | after every run that the refinement and the cache theorem cover, both builds answer a read of a linked inode, file or directory, from cache or store, with the same type, permissions, owner, size and link count, and with the same times if times were respected |
| `Reads.ClockedReadsAgree` | server/src/lib.rs:220-247 | under a clock that never goes back the two replies are identical |
| `DeltaLog.StepLeaves` | server/src/lib.rs:364-380 | every attempt appends the operations it numbered at the end of the log of their inode, or only spends the numbers if it is refused, and clears or compacts whole logs |
| `DeltaLog.StepSeqSafe` | storage/src/rocks.rs:403-413 | every attempt, committed or refused, keeps the rows of each inode ascending and below the next number |
| `DeltaLog.RestartSeqSafe` | storage/src/rocks.rs:369-400 | so does a restart that recovers the counters from the rows |
| `DeltaLog.NextSeqIsFresh` | storage/src/rocks.rs:369-413 | over every history of attempts and restarts, without any condition on callers, the number drawn next is above every live row of its inode, so new deltas sort last |
| `DeltaLog.StepCovered` | server/src/compaction.rs:102-117 | every attempt but flush_all keeps every inode with pending deltas in the dirty set |
| `DeltaLog.RunCovered` | server/src/compaction.rs:207-231 | within a lifetime that starts without deltas and makes no flush_all, every inode with pending deltas is dirty after every attempt |
| `DeltaLog.RoundBoundsDeltas` | server/src/compaction.rs:142-155 | after a round in which no commit is refused, every stored inode has fewer pending deltas than the threshold, or none if the threshold is zero |
| `DeltaLog.FlushCoveredIff` | server/src/compaction.rs:236-253 | flush_all keeps coverage if and only if every inode with deltas is stored and its commit is not refused |
| `DeltaLog.FlushForgetsRefused` | server/src/compaction.rs:236-253 | an inode whose commit is refused in flush_all is lost to the compactor |
| `DeltaLog.RestartCoveredIff` | server/src/compaction.rs:79-97 | a restart keeps coverage if and only if no delta is stored |
| `DeltaLog.StepStampedBefore` | server/src/lib.rs:640-660 | attempts that read a clock up to a time log nothing later, and never an access time |
| `CompactionRace.NextKeepsInv` | server/src/compaction.rs:158-202 | any number of appenders and compactors, interleaved at the grain of draw, scan, lock, commit and abort, keep rows, reservations and snapshots consistent |
| `CompactionRace.StepKeepsMeaning` | server/src/compaction.rs:158-202 | no step of a lone compactor and no step of an appender before its commit changes the effective value, as long as the folds of the reader and of the commit are exact |
| `CompactionRace.AppendMeaning` | server/src/lib.rs:364-380 | a committing append adds its link changes to the effective count and moves the effective times forward to its own, whatever rows lie before or after it |
| `CompactionRace.EveryInterleavingKeepsMeaning` | server/src/compaction.rs:158-202 | for every interleaving of one compactor at a time with any number of appenders, the effective value is the original base plus the sum of all committed link changes with the latest committed times; asked is only that the folds performed by the compactors along the run and by the reader at its end neither clamp nor wrap |
| `CompactionRace.MeaningIsCommitOrder` | server/src/compaction.rs:158-202 | and so it is the fold of the committed operations in commit order, if that fold is exact too |
| `CompactionRace.CommitAppliesStale` | server/src/compaction.rs:158-202 | with any number of compactors, a commit whose folds are exact changes the effective value by exactly one more application of the scanned rows that another compactor has already folded |
| `CompactionRace.CommitKeepsLinksIff` | server/src/compaction.rs:158-202 | so a commit keeps the effective link count if and only if those stale rows cancel out |
| `CompactionRace.TwoCompactorsCountTwice` | server/src/compaction.rs:158-202 | two compactors that scan the same increment count it twice |
| `CompactionRace.CompactionFoldsAll` | server/src/compaction.rs:158-202 | an undisturbed compaction leaves no row, and the base is what a reader computed before it |
| `SplitCompaction.StepHolds` | server/src/compaction.rs:158-202 | the rows scanned by a compaction in flight stay in front of the log of their linked directory through every allowed attempt, a removal of the directory and its cleared log included |
| `SplitCompaction.FoldScanEffective` | server/src/compaction.rs:158-202 | folding the scanned front of the log into the base and deleting just those rows leaves the effective value, and its exactness, as they were |
| `SplitCompaction.FoldScanKeepsInv` | server/src/compaction.rs:158-202 | so a commit of an older scan keeps the joint invariant |
| `SplitCompaction.CommitRelates` | server/src/compaction.rs:158-202 | and is invisible to the other build |
| `SplitCompaction.SplitCompactionRefinesPlain` | server/src/compaction.rs:158-202 | over every run in which compactions are a scan and a later commit, refused or not, with any allowed attempts in between: the delta build keeps the joint invariant and agrees with the read-modify-write build, which sees the attempts only, on entries, handles, pending deletes and the value of every linked inode |
| `SplitCompaction.UndisturbedSplitIsCompact` | server/src/compaction.rs:158-202 | a scan and the commit right after it are the compaction of the state machine |
| `Codec.WordOrder` | storage/src/encoding.rs:154-161 | big-endian words sort bytewise as the numbers they encode and are equal only for equal numbers |
| `Codec.InodeFamilyKeysDistinct` | storage/src/encoding.rs:156-265 | inode, location and symlink keys collide neither across inodes nor across kinds |
| `Codec.DeltaKeyOrder` | storage/src/encoding.rs:199-209 | delta keys sort by inode and then by sequence number, and are injective |
| `Codec.EntryKeyOrder` | storage/src/encoding.rs:164-170 | directory keys sort by parent and then by name bytes, and are injective |
| `Codec.DeltaKeyRoundTrip` | storage/src/encoding.rs:203-224 | decoding an encoded delta key gives inode and number back |
| `Codec.DecodedDeltaKey` | storage/src/encoding.rs:215-224 | a key that decodes starts with the encoding of what it decodes to |
| `Codec.ChildNameRoundTrip` | storage/src/encoding.rs:182-190 | extracting the name of an encoded directory key gives the name back |
| `Codec.DeltaPrefix` | storage/src/encoding.rs:228-233 | a delta key has the prefix of an inode if and only if it belongs to it |
| `Codec.EntryPrefix` | storage/src/encoding.rs:174-179 | a directory key has the prefix of a directory if and only if it lies in it |
| `Codec.PutWord` | storage/src/encoding.rs:74-97 | writes one big-endian word at the offset and leaves everything behind it alone |
| `Codec.SerializeInode` | storage/src/encoding.rs:74-97 | the buffer filled field by field at a moving offset is the concatenation of version and fields |
| `Codec.InodeRoundTrip` | storage/src/encoding.rs:103-145 | parsing a serialised inode gives it back if and only if it carries the current version; any other version is InvalidInput |
| `Codec.ParsedInode` | storage/src/encoding.rs:103-145 | what parses is the encoding of the result, followed by ignored bytes |
| `Codec.EntryRoundTrip` | storage/src/rocks.rs:221-240 | directory values round trip |
| `Codec.ParsedEntry` | server/src/lib.rs:428-435 | a directory value that parses is the encoding of the result, followed by ignored bytes |
| `Codec.DeltaRoundTrip` | server/src/delta.rs:43-128 | delta operations round trip, negative link changes in two’s complement included |
| `Codec.ParsedDelta` | server/src/delta.rs:73-128 | a delta that parses is the encoding of the result, followed by ignored bytes |
| `SortedStore.PrefixEnds` | storage/src/rocks.rs:270-277 | keys with one prefix are contiguous: past it, the first key without it ends them |
| `SortedStore.ScanPrefix` | storage/src/rocks.rs:515-532 | seek, read on, stop at the first key without the prefix: returns exactly the rows with the prefix, in key order |
| `SortedStore.IsDirEmpty` | storage/src/rocks.rs:669-683 | one step of the iterator tells whether any row has the prefix |
| `SortedStore.ListDir` | storage/src/rocks.rs:262-285 | the listing loop decodes the rows of the directory in order and fails on the first that does not decode |
| `SortedStore.ListDirIsExact` | storage/src/rocks.rs:262-285 | over rows that represent the entry map, a listing holds exactly the entries of the directory, by ascending name |
| `SortedStore.EmptyScanIsEmptyDir` | storage/src/rocks.rs:669-683 | over such rows the byte test for an empty directory is the typed one |
| `SortedStore.RepresentsPut` | server/src/lib.rs:285-298 | putting an encoded entry row represents the updated entry map |
| `SortedStore.RepresentsDelete` | server/src/lib.rs:300-308 | deleting an entry row represents the entry map without that key |
| `DeltaRows.PutAppends` | storage/src/rocks.rs:417-438 | a row with a number above all live ones appends one delta to its inode, and no other inode sees it |
| `DeltaRows.DeltasAscend` | storage/src/rocks.rs:440-458 | the deltas of an inode are read in ascending order |
| `DeltaStores.DeltaStore.constructor` | storage/src/rocks.rs:350-363 | opening any sorted rows recovers counters one above the largest live number of each inode; rows whose key does not decode are skipped |
| `DeltaStores.DeltaStore.RecoverSeqs` | storage/src/rocks.rs:369-400 | the backwards walk over all rows, whatever they are, skips those whose key does not decode, leaves the counter of every inode with rows one above its largest number, and keeps the counters it finds for the others |
| `DeltaStores.DeltaStore.Draw` | storage/src/rocks.rs:403-413 | the number drawn is above every live number of the inode, and only its counter moves |
| `DeltaStores.DeltaStore.Append` | storage/src/rocks.rs:417-438 | appends exactly the numbered operations to the inode, consecutive numbers, other inodes untouched |
| `DeltaStores.DeltaStore.Scan` | storage/src/rocks.rs:515-532 | returns the rows of the inode, which decode to its deltas in ascending order |
| `DeltaStores.DeltaStore.Clear` | storage/src/rocks.rs:480-509 | removes every delta of the inode and resets its counter, other inodes untouched |
| `InodeCache.ShardIndex` | server/src/cache.rs:48-51 | the shard index is below sixteen |
| `InodeCache.CacheRefinesMap` | server/src/cache.rs:33-99 | after any operations a hit returns what an unbounded map under the same operations holds, every inode is in its own shard, and the total is at most 16 times max(1, capacity / 16) |
| `InodeCache.RecentlyUsedStays` | server/src/cache.rs:56-70 | an entry survives any operations that use fewer other inodes of its shard than the shard holds and do not invalidate it |
| `InodeCache.InodeFoldedCache.constructor` | server/src/cache.rs:33-44 | a new cache is empty with max(1, capacity / 16) per shard |
| `InodeCache.InodeFoldedCache.GetInode` | server/src/cache.rs:56-60 | returns the cached value, if any, and makes it most recently used |
| `InodeCache.InodeFoldedCache.PutInode` | server/src/cache.rs:65-69 | afterwards the inode is cached with the value, and a full shard has lost its least recently used entry |
| `InodeCache.InodeFoldedCache.Apply` | server/src/cache.rs:75-90 | folds a present value in place and adds nothing for an absent one |
| `InodeCache.InodeFoldedCache.InvalidateInode` | server/src/cache.rs:95-99 | afterwards the inode is not cached |
| `MetadataServers.MetadataServer.constructor` | server/src/lib.rs:111-210 | a server over a store starts with recovered counters, the persisted inode counter and empty memory, writes a root directory if none is stored, and so is the formatted server over an empty store and the restarted one otherwise |
| `MetadataServers.MetadataServer.BatchParentDeltas` | server/src/lib.rs:364-413 | the loop of either build is one logged change of the state machine |
| `MetadataServers.MetadataServer.ParentChanged` | server/src/lib.rs:656-660 | folds the cached parent, if any, and marks it dirty |
| `MetadataServers.MetadataServer.TryAddNode` | server/src/lib.rs:603-662 | one attempt of create, mkdir or symlink: checks, allocation, pushes, commit, persisted counter, cache and dirty set, as the state machine says |
| `MetadataServers.MetadataServer.TryUnlink` | server/src/lib.rs:765-867 | one attempt of unlink, with immediate and deferred deletion |
| `MetadataServers.MetadataServer.TryRmdir` | server/src/lib.rs:873-932 | one attempt of rmdir |
| `MetadataServers.MetadataServer.LockOrder` | server/src/lib.rs:968-985 | the inodes a rename locks are exactly source, target and both parents, ascending and each once |
| `MetadataServers.MetadataServer.ReadLocked` | server/src/lib.rs:987-995 | the map filled under the locks holds exactly the stored rows among them |
| `MetadataServers.MetadataServer.RenameBatch` | server/src/lib.rs:954-1059 | all checks of a rename in their order, and otherwise the rows it writes and the inode it deletes |
| `MetadataServers.MetadataServer.TryRename` | server/src/lib.rs:953-1150 | one attempt of rename |
| `MetadataServers.MetadataServer.TryLink` | server/src/lib.rs:1231-1303 | one attempt of link |
| `MetadataServers.MetadataServer.TrySetAttr` | server/src/lib.rs:520-577 | one attempt of setattr, and whether the client must truncate |
| `MetadataServers.MetadataServer.TryReportWrite` | server/src/lib.rs:1205-1225 | one attempt of report_write: the size only grows |
| `MetadataServers.MetadataServer.LoadInode` | server/src/lib.rs:220-247 | cache hit, or base folded with the scanned deltas and cached |
| `MetadataServers.MetadataServer.TryCut` | server/src/lib.rs:1166-1180 | one attempt to cut an opened file: the base is truncated in the store and in the cache, or nothing changes |
| `MetadataServers.MetadataServer.OpenFile` | server/src/lib.rs:1157-1197 | open with and without truncation, the retried transaction that cuts the size, and the handle it adds |
| `MetadataServers.MetadataServer.LastHandleClosed` | server/src/lib.rs:477-488 | true exactly for the last handle of a file waiting to be deleted; handle count and pending set after it |
| `MetadataServers.MetadataServer.ReleaseHandle` | server/src/lib.rs:1393-1410 | release, with the retried transaction of the deferred deletion |
| `MetadataServers.MetadataServer.ForceCompactInode` | server/src/compaction.rs:158-202 | folds and deletes the deltas of a stored inode unless there are none or the commit is refused |
| `MetadataServers.MetadataServer.CompactInode` | server/src/compaction.rs:142-155 | the same from the threshold on only |
| `MetadataServers.MetadataServer.CompactDirtyInodes` | server/src/compaction.rs:207-231 | draining the dirty set in any order compacts exactly the inodes that are due, keeps the others marked, and returns their number |
| `MetadataServers.MetadataServer.FlushAllInodes` | server/src/compaction.rs:236-253 | draining the dirty set in any order compacts everything that can be compacted, marks nothing again, and returns the number |
| `MetadataServers.MetadataServer.ExecuteWithRetry` | server/src/lib.rs:448-471 | for the nine operations whose whole body is retried: at most three attempts, the next one only after a refused commit, and the outcome of the last; open and release retry a part of theirs in `OpenFile` and `ReleaseHandle` |
| `Retries.CommitsAtMostOnce` | server/src/lib.rs:448-471 | a call over its attempts has the outcome of one attempt from a state with the same store, and a failed call leaves the store as it was |
| `Retries.RetriedIsRun` | server/src/lib.rs:448-471 | a retried call is a run of attempts, so every statement about runs applies to it |
| `Retries.FailureKeepsStore` | server/src/lib.rs:448-471 | an attempt that returns an error has changed nothing in the store |
| `Retries.RefusedOnlyByAll` | server/src/lib.rs:448-471 | a call ends with a refusal only if every one of its attempts was refused |
| `Locks.FollowsLockOrderIff` | server/src/lib.rs:958-995 | an operation takes its contended locks in the global order if and only if it is not a link and not a rename towards an earlier entry key |
| `Locks.NoCyclicWait` | storage/src/rocks.rs:687-693 | with arbitrarily many transactions that follow the order, in any state of progress, some unfinished one can proceed |
| `Locks.OperationsGoOn` | storage/src/rocks.rs:687-693 | so any mix of create, mkdir, symlink, unlink, rmdir, setattr, report_write, release, compaction and forward renames can go on |
| `Locks.EveryoneCanFinish` | storage/src/rocks.rs:687-693 | from every such state there is a schedule after which all transactions have ended |
| `Locks.LinkDeadlocks` | server/src/lib.rs:1233-1257 | a link and an unlink of the same name and inode can each take their first lock and then wait for each other |
| `Locks.CrossedRenamesDeadlock` | server/src/lib.rs:956-965 | two renames between the same names in opposite directions can each take their first lock and then wait for each other |
| `LockCoverage.WritesAreLocked` | server/src/lib.rs:599-1410 | every entry, inode, location and symlink row that an accepted attempt changes is among the rows that its plan locks |
| `LockCoverage.AnswersDependOnLocks` | server/src/lib.rs:599-1410 | what an attempt other than open answers depends only on the rows that its plan locks, on the memory of the server, and on whether a directory that has to be empty is |
| `LockCoverage.EmptinessIsNotLocked` | storage/src/rocks.rs:669-683 | that emptiness is outside the locks: an entry put below the directory leaves every row of the plan of an rmdir as it was and changes its answer |
| `RowTransactions.EveryInterleavingIsSerial` | storage/src/rocks.rs:649-667 | in every interleaving of locked, refused and retried transactions on one row, the row is the committed requests applied in commit order, each call commits at most once and begins at most three attempts |
| `RowTransactions.NoReportIsLost` | server/src/lib.rs:1199-1225 | the final size is the largest of the initial size and all committed reports |
| `RowTransactions.FreeCallCommits` | storage/src/rocks.rs:649-667 | a call that finds the lock free, has a try left and is not refused commits its request |
| `RowTransactions.RefusedCallGivesUp` | server/src/lib.rs:448-471 | a call that is refused each time fails after three attempts and leaves the row as it was |
| `RowTransactions.GrowIsReportWrite` | server/src/lib.rs:1213-1218 | the row request of the interleaving theorem is what report_write does to the stored size |
| `RowTransactions.OnEntryIsCreate` | server/src/lib.rs:606-633 | and creating an entry, with its refusal, is what create does to the locked entry |
| `RowTransactions.OnEntryIsLink` | server/src/lib.rs:1233-1290 | an accepted link creates the entry it has locked, naming its target; a failed one leaves it |
| `RowTransactions.OnEntryIsUnlink` | server/src/lib.rs:765-825 | an accepted unlink removes the entry it has locked; a failed one leaves it |
| `RowTransactions.OnEntryIsRmdir` | server/src/lib.rs:873-915 | an accepted rmdir removes the entry it has locked; a failed one leaves it |
| `RowTransactions.OnEntryIsRename` | server/src/lib.rs:953-1059 | an accepted rename between two names removes the one entry and puts its inode in the place of the other, free or not; a failed one leaves both |
| `RowTransactions.CreatedOnceBetweenRemovals` | server/src/lib.rs:606-610 | in every interleaving of creations, removals and replacements of one name, between two committed creations lies a committed removal, a creation that commits first found the name free, and the name is free at the end if and only if the last commit removed it |
| `Fsck.CollectInodes` | server/src/fsck.rs:79-94 | the scan of the inode rows collects exactly those that decode, skips the others, and tracks the largest number |
| `Fsck.CountReferences` | server/src/fsck.rs:96-114 | the 32-bit reference table counts, for each inode and modulo 2^32, exactly the entries in collected directories that name it |
| `Fsck.FindOrphans` | server/src/fsck.rs:116-129 | one orphan issue for each stored inode but the root that is not referenced, and no other |
| `Fsck.FindMismatches` | server/src/fsck.rs:131-152 | one mismatch issue for each stored non-directory whose count differs, and no other |
| `Fsck.Check` | server/src/fsck.rs:72-175 | over any rows, decodable or not, an issue is reported if and only if the declarative condition is violated, each once, with the totals; a link count mismatch while the references of the inode fit in 32 bits |
| `Fsck.RepresentedInodes` | server/src/fsck.rs:79-94 | rows that hold the encodings of a typed inode map are read back as that map, so the check of bytes is the check of the typed store |
| `Fsck.ReachableHasNoMismatch` | server/src/fsck.rs:131-152 | no reachable state yields a link count mismatch, and the checker sees every entry |
| `Fsck.ReachableOrphans` | server/src/fsck.rs:116-129 | the orphans of a reachable state are exactly the files pending deletion and the directories replaced by a rename |
| `Fsck.CounterIssueMeansReuse` | server/src/fsck.rs:154-172 | a written counter is reported if and only if a restart would resume at or below a stored inode; an unwritten one is never reported although the restart resumes at 2 |
| `RawDisk.AddressableIff` | storage/src/rawdisk.rs:57-71 | for an inode whose region fits in 64 bits exactly the offsets below the maximum are accepted |
| `RawDisk.OffsetsAreDistinct` | storage/src/rawdisk.rs:57-71 | accepted offsets are equal only for the same inode and offset |
| `RawDisk.WriteRegion` | storage/src/rawdisk.rs:94-109 | a write replaces its clamped range of its region and no other byte of any region |
| `RawDisk.TruncateRegion` | storage/src/rawdisk.rs:111-137 | truncation keeps the head of the region, zeroes the whole tail and touches no other region |
| `RawDisk.RawDiskStore.constructor` | storage/src/rawdisk.rs:37-54 | opens over the existing file |
| `RawDisk.RawDiskStore.ReadAt` | storage/src/rawdisk.rs:76-92 | returns the requested part of the region clamped at its end, zeros where the file is short |
| `RawDisk.RawDiskStore.WriteAt` | storage/src/rawdisk.rs:94-109 | writes the clamped data and returns its length cast to 32 bits; a bad offset changes nothing |
| `RawDisk.RawDiskStore.Truncate` | storage/src/rawdisk.rs:111-137 | the chunked loop terminates and writes one run of zeros to the end of the region; succeeds if and only if the offset check accepts the size, and changes nothing otherwise |
| `RawDisk.WriteThenRead` | storage/src/rawdisk.rs:76-109 | what is written is read back |
| `Vfs.VfsStepKeepsClean` | client/src/vfs_core.rs:163-198 | every allowed call keeps every byte at or past the size of every stored inode zero, and all regions of numbers not yet given out zero |
| `Vfs.RunIsClean` | client/src/vfs_core.rs:163-198 | the same over every run from a new volume |
| `Vfs.PastSizeReadsZero` | client/src/vfs_core.rs:163-198 | after any such run each byte at or past the metadata size reads as zero |
| `Vfs.StepSizes` | server/src/lib.rs:496-1411 | metadata operations other than setattr, report_write and truncating open keep all sizes and modes, and a new inode takes the next number |
| `Vfs.CreatedFileIsZero` | storage/src/rawdisk.rs:145-152 | a file created after any such run is all zeros although deletion erases nothing |
| `Vfs.ExtensionShowsZeros` | server/src/lib.rs:545-557 | growing a file by setattr shows zeros in the gap |
| `Vfs.TruncatingOpenIff` | server/src/lib.rs:1163-1181 | an open that cuts the size without truncating data is harmless if and only if every byte visible below the old size is zero |
| `Vfs.TruncatingOpenUndone` | server/src/lib.rs:1163-1181 | after a truncating open, extending the file to its old size brings back every byte it had |
| `Vfs.TruncatedByteComesBack` | client/src/vfs_core.rs:163-198 | a run that shows it: create, write a byte, open with truncation, extend, and the byte is read again |
| `Vfs.UnreportedWriteIff` | client/src/vfs_core.rs:185-198 | a write whose report is refused is harmless if and only if it puts only zeros past the size |
| `Vfs.StrayWriteIff` | client/src/vfs_core.rs:185-198 | a write to an inode that is not stored is harmless if and only if its number is used up or the data is zero |
| `Writes.WriteSetsSize` | client/src/vfs_core.rs:189-198 | a reported write changes size and times of its inode only; the size becomes the larger of the old one and the end of the bytes that fit if and only if fewer than 2^32 bytes fit or the file was large enough |
| `Writes.WriteShowsData` | client/src/vfs_core.rs:189-198 | the bytes that fit are read back and every other byte of every inode is as before |
| `Writes.SizeIsLargestEnd` | client/src/vfs_core.rs:189-198 | after any number of writes to any files, reported or not, the size of a file is the largest of its old size and the ends of its reported writes |
| `Writes.BytesAreLastWritten` | client/src/vfs_core.rs:189-198 | after any number of writes every byte of every inode is the last one written there |
| `VfsCores.VfsCore.constructor` | client/src/vfs_core.rs:33-41 | starts without routes or written marks |
| `VfsCores.VfsCore.WriteData` | client/src/vfs_core.rs:189-198 | data first, then the retried report; the reply in every case, and a written mark exactly on success |
| `VfsCores.VfsCore.ChangeAttributes` | client/src/vfs_core.rs:163-170 | the retried setattr, then the truncation that a shrink asks for; the reply is the new attributes, the error of setattr, or InvalidInput if the truncation is refused |
| `VfsCores.VfsCore.RemoveName` | client/src/vfs_core.rs:124-161 | the retried unlink or rename; deleting purged data leaves the file alone |
| `VfsCores.VfsCore.ReleaseFile` | client/src/vfs_core.rs:237-250 | the retried release, and the routing and written mark it forgets if and only if it succeeds |
| `Allocator.InodeAllocator.constructor` | storage/src/allocator.rs:31-35 | a fresh allocator starts at 2 |
| `Allocator.InodeAllocator.Alloc` | storage/src/allocator.rs:40-42 | returns the counter and bumps it, wrapping at 2^64 |
| `Allocator.InodeAllocator.MaybePersist` | storage/src/allocator.rs:60-66 | at multiples of 64 the stored row loads back to the counter, otherwise it is unchanged |
| `Allocator.AllocMany` | storage/src/allocator.rs:40-42 | any number of allocations within one lifetime yields consecutive distinct numbers |
| `Allocator.LoadIsRestart` | storage/src/allocator.rs:71-88 | loading the stored row resumes where the typed restart does |
| `Allocator.RunCounterLags` | storage/src/allocator.rs:60-66 | after every run the stored counter is a multiple of 64 that the allocator has reached |
| `Allocator.StepCounter` | storage/src/allocator.rs:60-66 | the counter is written by exactly the accepted creations that reach a multiple of 64; a refused creation uses a number up and writes nothing |
| `Allocator.CounterKeepsUp` | storage/src/allocator.rs:60-88 | along runs in which no creation is refused the stored counter is the largest multiple of 64 not above the next number, and none below 64, and a restart resumes there |
| `Allocator.RestartCreateKeepsInodesIff` | storage/src/allocator.rs:71-88 | the first create after a restart leaves all stored inodes as they are, given a clock past their change times, if and only if none of them has the number that load resumes from |
| `Allocator.RestartTakesOverInode` | storage/src/allocator.rs:71-88 | otherwise the next create overwrites a live inode and two names share one link |

## Left out

- lookup, getattr, readdir, readlink and statfs: read-only operations over `load_inode`, `list_dir` and the entry map, which are modelled.
- `MetadataServers.MetadataServer` keeps its cache and delta rows as typed maps; the bounded cache and the byte rows are separate objects with their own refinement proofs, and an eviction is an explicit step of the state machine.
- Namespace invariants take each attempt as one atomic step: `is_dir_empty` takes no range lock and create does not lock its parent, so a create racing with an rmdir is outside the model (`LockCoverage.EmptinessIsNotLocked` shows the gap). Finer steps are used for compaction, row locks and waiting only.
- `CompactionRace` covers one inode at the grain of draw, scan, lock, commit and abort, with any number of compactors; `SplitCompaction` covers the whole server, a `clear_deltas` between scan and commit included, with one compaction of an inode in flight at a time.
- Reference.AnswersLikeReference: does not compare times and link counts; times are in `Effects`, `Refinement` and `Reads`, link counts in `Namespace`, and a cached link count of a directory can be stale.
- LockCoverage.AnswersDependOnLocks: leaves out open, which reads through the cache without locks.
- In the lock model the delta rows a transaction inserts belong to it alone, which is what fresh sequence numbers give; the `no_delta` build, which also locks parents, is not covered by it.
- Sequence numbers and handle counts are unbounded; their 64-bit and 32-bit counters do not overflow in the model. `DeltaStores.DeltaStore.Append` asks for room below 2^64.
- Fsck.Check: takes the directory listings from the typed entry map, so a listing that fails to decode, which the checker skips, is not modelled; a reference count past 2^32 wraps, where a build with overflow checks would panic.
- Names are bytes; UTF-8 validation of names, locations and symlink targets is not modelled.
- I/O errors, short reads and writes, lock timeouts, panics on broken column families, and errors of `maybe_persist` after a commit are not modelled; a refused commit is the only failure of a transaction.
- Registration of several data servers, routing by `handle_map` and the flush skip: the client model has one data store.
- The background loop, its wake-ups and intervals, back-off and jitter: rounds and retries happen whenever the run says so.
- RocksDB itself: a sorted sequence of rows, row locks and an atomic commit that may be refused.
- The RPC layer, FUSE adapter, command line, permission checks and demos.
