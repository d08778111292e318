# ripsync, modelled and proved in Dafny

ripsync mirrors one directory tree into another, on one machine or over an ssh pipe. This project
models its engine and proves what the engine is for. `dafny verify dfyconfig.toml` checks all of it.

## What is modelled

| files | part of ripsync |
|---|---|
| `Bytes`, `Checksum`, `Delta`, `DeltaProofs` | the rsync-style delta engine: unrolled and rolling checksum, signature, block lookup, encoder, apply |
| `Trees`, `Plan` | trees of inodes, walks, classification, hard-link enforcement, deletions |
| `Report`, `Steps`, `Destination`, `Jobs`, `Apply`, `Partition`, `Tally`, `Phases` | the outcome counters, and the apply phases on a destination that changes call by call |
| `Mirror`, `Sync` | what planning and applying add up to |
| `FilePhase`, `LinkPhase`, `CallPlans` | the copy and hard-link phases at the granularity of system calls, and that the work of a real run is what they are proved for |
| `Journal`, `Index`, `Store`, `Persist`, `Cached` | the manifest: journal format, cached classification, storage that may crash at any byte, recording, and runs planned from it |
| `Framing`, `Net`, `Protocol` | frames over a byte stream, message types, the two peers as a transition system |
| `Receiver`, `Remote`, `Session` | the remote session on the receiving end, using the delta engine, and its exchange played over the channels |
| `Verify`, `Findings`, `Confirm` | the tree verifier, what its reports list, and what it says after a run |
| `Throttle` | the outbound rate limit |

Code that changes state step by step is modelled as classes and methods with loops and is proved
against specification functions; decision code is modelled as functions. What the design promises is
proved of those functions and of the states the methods reach.

A tree is a map from paths (sequences of names) to inodes; "closed" means that every parent is a
directory of the tree. BLAKE3, bincode and zstd are parameters: the theorems hold for every function,
and where they need an assumption (a hash that does not collide on the buffers at hand, a serializer
that reads back what it wrote) the statement names it. A system call that can fail may fail in the
model wherever it stands, cancellation may strike at any checkpoint, and work that runs in parallel is
done in an arbitrary order. A call through a missing or symlinked parent may land anywhere: its effect
is left arbitrary and recorded in a ghost flag, and runs without errors are proved never to make one.
Ghost flags also record best-effort calls whose failure the code ignores, and whether any call failed at
all, so that runs without failures are proved to report none. Whether calls can fail, the run be cancelled
or the connection break is a constant; where they cannot, nothing does, and a run comes to its end.

## What is proved, in short

- Delta: the encoder with its rolling checksum, hash table and lazily cached strong hash equals a
  matcher that hashes every window afresh and scans every block; apply after encode is the identity if
  no hash collides; without any assumption lengths are exact; no literal byte starts a window that could
  have been copied; an unchanged file costs no literal byte.
- Local mirror: save for the name a link's temporary takes (below), a run in which no system call fails
  reports no error, and a run without errors leaves exactly the source's paths, kinds and targets outside
  `.ripsync`, through every change of kind, and with no further assumption the bytes, stripped mode and
  time of every file the classifier found different; skipped files equal the source's where the skip of
  that path can be trusted. It keeps hard-link groups, `.ripsync`, coherent identities and a closed tree,
  so the theorems apply to the next run. What the next plan will leave alone is known exactly, after runs
  that delete as well. Under any failures every entry and every confirmed deletion ends in exactly one
  count, and what the source lacks and is neither in the way nor to be deleted stays; without errors the
  counts are those of the plan.
- File replacement: whatever the interleaving, failures and moment, the target of every copy of a real
  run, unless a directory was there, shows its old node or the complete new one. For hard links it is known
  exactly when the target shows neither.
- Manifest: after any history of runs and crashes a cached Skip is a Skip of the live walk exactly if no link
  is on the way to the path, and where none is, an index plan mirrors as a walked one does; a crash at any
  byte or call leaves a manifest that is the old one with some prefix of the run's records; a journal counts
  up to its first damaged record.
- Remote: no deadlock, no unexpected message, one exchange at a time, termination, and equal tallies at
  both ends, for every receiver that asks at most once per entry; framing delivers exactly what was sent
  whole; a session without errors is a mirror of the list, strays that could not be removed apart, and
  both peers end with its tally.
- Verifier: a clean report if and only if the trees agree; every line of a report is true, and every
  difference has its line. After a clean run it is clean exactly when what the run left alone already agreed
  to the nanosecond.
- Throttle: the token-bucket bound between any two writes.

## Where the code differs from what one would expect

Where a member is named, it proves what is said, with the exact condition or a law that holds for all
inputs; the last two items are remarks on the code.

- The counters do not satisfy "copied + updated + skipped + errors = entries" when a deletion fails,
  since `errors` counts failed deletions too. The laws that hold for every uncancelled run take the failed
  deletions out of `errors` and put them beside `deleted` (`Phases.ApplyReal`). The short form holds in every
  run with no confirmed deletion, and fails in every run that is to delete something that cannot be
  unlinked (`Sync.SyncTree`, `Sync.FailedDeletionIsCounted`).
- A hard link's target is unlinked before the rename, so a run stopped, or failing, between the two calls
  leaves the target absent, neither old nor new. A link always shows old or new exactly if nothing was at
  its target (`LinkPhase.LinkIsOldOrNew`; `LinkPhase.OldNewOrGone` says when it shows neither).
- A link is made under the predictable name `.ripsync-tmp-<name>.<process>`, which is first removed and then
  moved away. A source file of that name beside a link that is placed is copied and then lost, and a run in
  which no call fails reports no error (`Sync.LinkTakesFile`). What is lost is exactly the source paths of
  such names, save links placed later (`Partition.LostExactly`); the source is all there if and only if that
  is nothing (`Sync.LacksNothing`), and then the mirror theorems hold. It can be read off the plan. A
  directory of such a name makes the link an error.
- The index looks paths up, and a lookup follows links on its way; the walk does not. A directory that was
  recorded, then moved away and linked back, has its files skipped by an index plan and lost when the link
  is replaced, with no error (`Index.LinkedBackIsSkipped`, `Cached.LinkedBackIsLost`). A cached Skip is the
  walk's exactly where no link is on the way (`Index.IndexSkipIsWalkSkip`).
- A run that deletes need not converge: a deletion stamps its directory after the times were restored, and
  directories that lost an entry are the only ones this can happen to (`Mirror.Converges`,
  `Mirror.DeletionStampsParent`, both equivalences). Nor does a source with setuid or setgid bits, which
  `set_mode` strips (`Mirror.ReplanSkips`, an equivalence).
- The manifest records the length `stat` reports for a link or directory, the walk records zero, so an
  indexed link with a non-empty target is replaced on every run, and an indexed directory is redone
  unless its reported length is zero (`Index.IndexedLinkIsRedone`, `Index.IndexedDirIsRedone`, both
  equivalences).
- An index plan with hard links can split a group: a first member the manifest does not know is copied
  afresh while its duplicate is skipped (`Index.IndexCanSplitGroup`; `Cached.IndexKeepsGroups` says exactly
  when, and `Mirror.HardLinkTopology` that a split plan leaves a split group). A live-walk plan never does
  (`Mirror.WalkPlanKeepsGroups`).
- The planner compares whole seconds and the verifier nanoseconds, so a run can leave a file alone that
  the verification after it then reports (`Confirm.CleanRunVerifies`, an equivalence).
- The verifier filters `.ripsync` from the destination's walk only, so a source that has one never
  verifies (`Verify.HiddenSourceNeverVerifies`).
- The receiver removes what is at a link's path before it checks the link's target, so a refused link
  still costs the destination what it had there (`Receiver.WriteLink`).
- The receiver's delete loop does not spare `.ripsync`, and a removal that fails is no error, so a session
  can report none and leave strays. Its path set is sure to be the list's exactly if the destination had no
  stray: then every finished session without errors has it (`Remote.RunReceiver`), and a stray that cannot
  be unlinked survives every session (`Sessions.StraySurvives`, `Sessions.StrayGoesUnreported`). With strays
  it holds if nothing failed, or if the tally's deletions are as many as the strays (`Remote.DeleteStrays`).
- `transport.rs` announces a 4 GiB cap and then a 256 MiB one; the constant is 256 MiB.
- `bwlimit` values below one byte per second truncate to rate 0, for which the wait is undefined; the
  throttle's constructor asks for a rate of at least one.

## Model

| member | source | states |
|---|---|---|
| Checksum.Slide | crates/ripsync-core/src/checksum.rs:13-24 | sliding a window by one byte changes the exact byte sum and the exact position-weighted sum by the closed-form amounts that `roll` computes |
| Checksum.WeakOfThree | crates/ripsync-core/src/checksum.rs:13-24 | the bytes 1, 2, 3 have checksum 0x000a0006: the plain sum below, the position-weighted sum above |
| Checksum.ChunkStep | crates/ripsync-core/src/checksum.rs:75-118 | one eight-way unrolled iteration in wrapping 32-bit arithmetic adds exactly the next eight terms of the two defining sums, for every window up to 2^32 - 1 bytes |
| Checksum.ByteStep | crates/ripsync-core/src/checksum.rs:120-128 | one iteration of the remainder loop adds exactly the next term of both sums |
| Checksum.RollSums | crates/ripsync-core/src/checksum.rs:137-145 | the two wrapped updates of `roll` take the wrapped sums of a window to the wrapped sums of the window one byte further on |
| Checksum.UnrolledSums | crates/ripsync-core/src/checksum.rs:64-131 | the unrolled loop and its remainder equal the position-weighted definition modulo 2^32, for every window length up to `u32::MAX` |
| Checksum.RollingChecksum.constructor | crates/ripsync-core/src/checksum.rs:64-131 | a fresh checksum satisfies the class invariant: both accumulators are the defining sums of its window |
| Checksum.RollingChecksum.Roll | crates/ripsync-core/src/checksum.rs:137-145 | `roll` keeps the invariant for the slid window, so any number of rolls equals a fresh checksum |
| Checksum.RollingChecksum.Value | crates/ripsync-core/src/checksum.rs:149-151 | the packed value is the definition `a + b * 65536` with both sums reduced modulo 65536 |
| Checksum.RollAcross | crates/ripsync-core/src/checksum.rs:133-151 | rolling from the first window to the last gives the checksum of the last window by definition |
| DeltaEngine.BlockCount | crates/ripsync-core/src/delta.rs:123-131 | chunk `i` exists exactly when it starts inside the buffer |
| DeltaEngine.ComputeSignature | crates/ripsync-core/src/delta.rs:120-132 | for every base and block size: the saturated block size, and chunk by chunk the strong hash and saturated length; for every block size that fits its 32-bit field also the definitional checksum, so the whole signature by definition, the short last chunk included |
| DeltaEngine.FirstMatchIsFirst | crates/ripsync-core/src/delta.rs:165-179 | the reference search returns the first block with equal checksum, length and hash, and nothing exactly when there is none |
| DeltaEngine.BucketIsExact | crates/ripsync-core/src/delta.rs:155-162 | the index bucket of a checksum lists, in order, all blocks that carry it and no others |
| DeltaEngine.Lookup.constructor | crates/ripsync-core/src/delta.rs:155-162 | after the filling loop every block is indexed under its own checksum |
| DeltaEngine.Lookup.FindBlock | crates/ripsync-core/src/delta.rs:165-179 | the bucket loop with its lazily cached strong hash returns what scanning every block in order would return |
| DeltaEngine.SlideToMatch | crates/ripsync-core/src/delta.rs:213-235 | sliding with the O(1) roll stops at the first window that a fresh checksum and a full scan would match, and skips none |
| DeltaEngine.ScanToCopy | crates/ripsync-core/src/delta.rs:217-235 | one turn emits the pending run and the copy the greedy matcher emits next and jumps one block, or finds that only the tail is left |
| DeltaEngine.ScanWindows | crates/ripsync-core/src/delta.rs:213-236 | the window loop emits exactly the operations of the plain greedy matcher |
| DeltaEngine.EncodeWithSignature | crates/ripsync-core/src/delta.rs:187-251 | the encoder, fast paths, empty-signature case and short tail included, equals the greedy matcher that hashes every window afresh and scans every block |
| DeltaEngine.OversizedFindsNothing | crates/ripsync-core/src/delta.rs:167-172 | a remainder too long for the 32-bit length field matches no block, whatever its truncated checksum |
| DeltaEngine.FirstBadCopy | crates/ripsync-core/src/delta.rs:276-283 | operations mean something if and only if no copy starts at or past the end of the base, block zero of an empty base allowed; otherwise the first such copy is named |
| DeltaEngine.Apply | crates/ripsync-core/src/delta.rs:269-290 | `apply` returns the concatenated meaning of the operations and succeeds if and only if no copy starts at or past the end of the base, block zero of an empty base allowed; otherwise it fails with the index of the first that does |
| DeltaProofs.MatchIsBlock | crates/ripsync-core/src/delta.rs:165-179 | a match names a real block of the window's length, and of the window's bytes unless a hash collides |
| DeltaProofs.AppliesToExactLength | crates/ripsync-core/src/delta.rs:187-290 | with no assumption on the hash, applying a self-produced delta succeeds with exactly as many bytes as the new buffer, and literal bytes plus copied block lengths add up to that |
| DeltaProofs.RoundTrip | crates/ripsync-core/src/delta.rs:187-290 | for all buffers and valid block sizes, apply after encode is the identity, if no window of the new buffer collides with a block of the old one |
| DeltaProofs.MissMeansAbsent | crates/ripsync-core/src/delta.rs:154-179 | a lookup that finds nothing proves that no full block equals the window |
| DeltaProofs.EncodingMissesNothing | crates/ripsync-core/src/delta.rs:213-248 | no position inside any literal run of an encoding starts a window equal to a full block of the base |
| DeltaProofs.SelfEncodingIsAllCopies | crates/ripsync-core/src/delta.rs:213-248 | a buffer encoded against itself contains no literal byte, for every block size, short last block included |
| DeltaProofs.EncodeAndApply | crates/ripsync-core/src/delta.rs:259-290 | the fast forms composed: the result has the new buffer's length, and is the new buffer if no hash collides |
| Trees.SortedWalkIsParentsFirst | crates/ripsync-core/src/walk.rs:151-152 | sorting a walk by path, component by component, puts parents before children and lists no path twice |
| Plan.FirstNamedIsFirst | crates/ripsync-core/src/plan.rs:286-299 | the group representative is the first listed file of its inode |
| Plan.EnforceHardlinkActions | crates/ripsync-core/src/plan.rs:282-300 | the in-place pass with its map leaves every action alone except duplicates whose destination identity is not that of the group's first member, which become Update |
| Plan.RetainWalks | crates/ripsync-core/src/plan.rs:172-195 | dropping the metadata directory from a walk gives a walk of the tree without it, empty exactly when that tree is empty |
| Plan.ClassifyAll | crates/ripsync-core/src/plan.rs:201-218 | every entry gets the action of its classification with the hard-link rule on top |
| Plan.PlannedExactly | crates/ripsync-core/src/plan.rs:201-218 | with hard links a later name of a file that is not where its first name is gets Update; otherwise what is not there gets Copy, what agrees in kind, link target, mode, second and length or hash gets Skip, and all else Update |
| Plan.ExtrasArePlanned | crates/ripsync-core/src/plan.rs:220-233 | the sorted deletions are exactly the destination paths the source lacks, each with its kind, none before a path below it |
| Plan.CollectDeletions | crates/ripsync-core/src/plan.rs:222-232 | the collection loop and descending sort give the destination entries absent from the source in reverse walk order |
| Plan.BuildPlan | crates/ripsync-core/src/plan.rs:156-236 | a walk that failed or was cancelled gives its own error; deletions asked of a source with no visible entry give `EmptySource` before the destination's walk is looked at; otherwise there is a plan, the specified one of the two visible trees, and one that deletes has at least one action |
| Steps.PlaceProgress | crates/ripsync-core/src/apply.rs:531-568 | putting a file or link in place, whatever it replaces with whatever was below, keeps every path accounted for |
| Steps.DirProgress | crates/ripsync-core/src/apply.rs:365-418 | making or adjusting a directory keeps every path accounted for |
| Steps.RemoveProgress | crates/ripsync-core/src/apply.rs:442-462 | removing a path the source lacks, with all or part of what is below it, touches no source path and nothing the tool keeps for itself |
| Steps.TakeProgress | crates/ripsync-core/src/apply.rs:907-908 | taking the name of a source file or link costs that path and keeps every other accounted for |
| Steps.MtimeProgress | crates/ripsync-core/src/apply.rs:310-315 | restoring a directory time keeps every path accounted for |
| Steps.ReadyInSource | crates/ripsync-core/src/apply.rs:253-291 | once a source path's parent directory is settled, the path can be created without passing through a missing or symlinked parent |
| Destination.Destination.CreateDirectory | crates/ripsync-core/src/apply.rs:365-418 | ends in exactly one count, an update exactly if something was there (a link aside, which is followed); on success the path is a directory of the stripped source mode and everything outside it is as before up to directory times |
| Destination.Destination.Replace | crates/ripsync-core/src/apply.rs:554-567 | on success exactly the new object is at the path, nothing is below it, and all else is unchanged, whether a file, link or directory was there; a new object with an identity of its own, or the object that has it, keeps identities coherent |
| Destination.Destination.CopyFileAtomic | crates/ripsync-core/src/apply.rs:584-606 | counts the planned action and the bytes, or one error; on success the path holds an inode no live object had, with the source's bytes, stripped mode and time; identities stay coherent unless the call went astray |
| Destination.Destination.CreateHardlink | crates/ripsync-core/src/apply.rs:858-883 | counts the planned action, or one error; on success the path is another name of the object the group's first member has at that moment |
| Destination.Destination.CreateSymlink | crates/ripsync-core/src/apply.rs:886-936 | counts the planned action, or one error; on success the path is a link with the source's target, its time unless setting it failed unreported, and whatever had the name of the link's temporary is gone |
| Destination.Destination.FreeTmpName | crates/ripsync-core/src/apply.rs:907-908 | the name a link is made under is taken from whatever has it, with nothing else touched; only a failed call or a directory of that name prevents it |
| Destination.Destination.HasSymlinkAncestor | crates/ripsync-core/src/apply.rs:998-1011 | true exactly when some strict ancestor is a symbolic link or gone |
| Destination.Destination.DeleteEntry | crates/ripsync-core/src/apply.rs:1018-1044 | reports success only if nothing is left at or below the path, failure only if a system call failed or the path changed kind, and never changes anything outside it, links among the ancestors included |
| Destination.Destination.NothingAt | crates/ripsync-core/src/apply.rs:1023-1030 | in a closed tree nothing can be at or below a path that is absent or behind a symbolic link, so doing nothing counts as deleted |
| Jobs.JobsOfEntry | crates/ripsync-core/src/apply.rs:206-239 | the job recorded for a path is that of the one entry naming it |
| Jobs.PlanJobsFit | crates/ripsync-core/src/apply.rs:206-239 | what partitioning asks of every path suits the trees planned for: kept paths exist with the source's kind and links lead to a group's first member that is itself no link |
| Jobs.DeliverOne | crates/ripsync-core/src/apply.rs:253-308 | delivering one more path keeps every earlier delivery valid, links written before copies excepted, which the phase order rules out |
| Partition.Distribute | crates/ripsync-core/src/apply.rs:199-239 | the partition loop with its first-member map produces exactly the specified work lists and counts each skipped entry once |
| Partition.WorkIsComplete | crates/ripsync-core/src/apply.rs:199-239 | every source path with work to do is on exactly the list its job calls for, and directories are listed parents first |
| Partition.LostExactly | crates/ripsync-core/src/apply.rs:294-307 | the source paths a run loses are exactly those under whose name a link that is placed is made, save links that are placed after that one |
| Apply.TaskReady | crates/ripsync-core/src/apply.rs:253-291 | when the directory phase is over, every source path's parent is really a directory |
| Apply.PlacingLeavesAlone | crates/ripsync-core/src/apply.rs:531-568 | putting something at a source path that is not to be left alone disturbs no bystander: no old path the source lacks or the plan skips, unless it is below a source file or link, is borrowed as a temporary's name, or is at or below a confirmed deletion |
| Apply.MakingLeavesAlone | crates/ripsync-core/src/apply.rs:365-418 | nor does making a directory |
| Apply.BorrowingLeavesAlone | crates/ripsync-core/src/apply.rs:907-908 | nor does taking the name of a temporary |
| Apply.SweepingLeavesAlone | crates/ripsync-core/src/apply.rs:442-462 | nor does a confirmed deletion |
| Apply.PlacedOnTrack | crates/ripsync-core/src/apply.rs:531-568 | placing what a job asks for keeps both invariants of the run |
| Apply.FirstIsInPlace | crates/ripsync-core/src/apply.rs:290-291 | when the copies are done the first member of every hard-link group is there and final |
| Apply.DoDirectory | crates/ripsync-core/src/apply.rs:353-358 | one directory of a batch keeps the run on course whether or not it fails, and is counted once; without errors it counts as a copy where there was nothing and as an update where there was something other than a link |
| Apply.FoundAsBefore | crates/ripsync-core/src/apply.rs:365-376 | before its turn a source path is there, and a symlink, exactly if it was in the old destination |
| Apply.DoFile | crates/ripsync-core/src/apply.rs:643-663 | one copy keeps the run on course whether or not it fails, and is counted once; without errors the planned action and the file's length are counted, and nothing else |
| Apply.DoLink | crates/ripsync-core/src/apply.rs:757-773 | one hard link keeps the run on course whether or not it fails, and is counted once; without errors exactly the planned action is counted |
| Apply.DoSymlink | crates/ripsync-core/src/apply.rs:294-307 | one symbolic link keeps the run on course whether or not it fails, and is counted once; exactly the source path that has its temporary's name joins what is lost, and the link itself no longer is; without errors exactly the planned action is counted |
| Phases.BatchEnd | crates/ripsync-core/src/apply.rs:348-352 | a batch holds directories of one depth and ends at the first of another |
| Phases.BatchParentsSettled | crates/ripsync-core/src/apply.rs:345-361 | the parents of all directories of a depth batch were settled by earlier batches, so the batch can run in any order |
| Phases.CreateBatch | crates/ripsync-core/src/apply.rs:353-358 | a batch processed in any order handles each directory once and leaves all of them written unless something failed or was cancelled; without errors the batch adds what its directories are worth, in whatever order |
| Phases.CreateDirectories | crates/ripsync-core/src/apply.rs:335-363 | after the phase every source directory is settled |
| Phases.CopyFiles | crates/ripsync-core/src/apply.rs:631-667 | after the phase every planned copy is written, in any order within a chunk, and every entry was counted once |
| Phases.ChunkDone | crates/ripsync-core/src/apply.rs:643-663 | a chunk done in any order leaves all its files written and adds what they are worth to what was counted before |
| Phases.CopyHardlinks | crates/ripsync-core/src/apply.rs:750-776 | after the phase every duplicate is linked, and every entry was counted once |
| Phases.PlaceSymlinks | crates/ripsync-core/src/apply.rs:294-308 | after the phase every planned link is in place, and every entry was counted once |
| Tally.TakeOne | crates/ripsync-core/src/apply.rs:353-358 | what a set of tasks adds to the counts does not depend on which of them is done first |
| Tally.BatchTotal | crates/ripsync-core/src/apply.rs:353-358 | a batch done in any order adds to the counts what it adds in list order |
| Tally.ListAddsUp | crates/ripsync-core/src/apply.rs:206-239 | each work list adds what the plan says of the entries put on it |
| Tally.PhasesAddUp | crates/ripsync-core/src/apply.rs:206-239 | the three lists of files, links and symlinks together add one copy for each such entry planned as a copy, one update for each planned as an update, and the bytes of the files neither skipped nor linked |
| Tally.RunIsCounted | crates/ripsync-core/src/apply.rs:199-332 | a run whose phases added what their lists are worth has counted the plan: skips exactly, every entry once, at least the planned copies and updates with the new and the old directories, and exactly the bytes of the files copied |
| Tally.CountsAreExact | crates/ripsync-core/src/apply.rs:103-107 | unless a directory is made in place of a symlink, `copied` is exactly the files and links planned as copies with the directories that were new, and `updated` those planned as updates with the directories that were there |
| Phases.RestoreTimes | crates/ripsync-core/src/apply.rs:310-315 | in an otherwise silent run every listed directory ends with its source time, although restoring runs over directories whose contents changed |
| Phases.RunDeletions | crates/ripsync-core/src/apply.rs:442-462 | whatever fails, no source path is touched and every deletion ends as deleted or as one missed error, one of a path that cannot be unlinked always as missed; without errors no planned deletion is left and what is left changed only where a directory lost an entry |
| Phases.OneMoreLoser | crates/ripsync-core/src/apply.rs:442-462 | each removal changes, outside what it removes, nothing but the directory that held it |
| Phases.ApplyReal | crates/ripsync-core/src/apply.rs:184-332 | stops early only if cancelled; for any failures copied + updated + skipped + errors is entries plus missed deletions and deleted plus missed is the confirmed deletions, and a confirmed deletion of a path that cannot be unlinked is missed; if no entry failed no call went astray; without errors the run is finished: everything written, delivered and deleted, every directory time restored save where a directory lost an entry, and exactly the paths `LostExactly` names are lost; errors are reported only if some system call failed or a directory has a temporary's name; without errors the counts are the plan's; and whatever fails, as long as no call goes astray, every bystander stays as it was, so a run that is not to delete removes nothing the source lacks save what is in the way |
| Mirror.FinalObject | crates/ripsync-core/src/apply.rs:184-332 | after a clean run each source path holds what was written there, or, exactly if it was to be kept, what was there before |
| Mirror.MirrorsPaths | crates/ripsync-core/src/apply.rs:184-332 | after a clean run with deletions the paths outside the metadata directory are exactly the source's, each of its kind, through every change of kind |
| Mirror.MirrorsTargets | crates/ripsync-core/src/apply.rs:886-936 | after a clean run every link has the source's target, links left alone included |
| Mirror.MirrorsContents | crates/ripsync-core/src/apply.rs:584-606 | with no assumption every file the classifier finds different arrives with the source's bytes, stripped mode and time (with hard links: if no name of the same file is left alone); files left alone, and links to them, equal the source's if a skip on that one path can be trusted |
| Mirror.EntryServed | crates/ripsync-core/src/apply.rs:184-332 | with no assumption every planned entry is as it was if skipped, and otherwise a directory of the stripped mode, a link to the source's target, a fresh copy, or another name of its group's first member |
| Mirror.ChecksumEarnsTrust | crates/ripsync-core/src/plan.rs:115-121 | in checksum mode that trust needs only that no path has equal hashes and different bytes on the two sides |
| Plan.SkipReadsEntries | crates/ripsync-core/src/plan.rs:106-126 | a path on both sides is left alone exactly if the two walked entries agree in kind, link target, mode, whole-second time and length, hashes taking the place of lengths in checksum mode, and is never planned as a copy |
| Mirror.DuplicateFollowsFirst | crates/ripsync-core/src/plan.rs:282-300 | unless the plan splits groups, every file is its group's first, is linked to that first member, or is left alone beside it on the same destination inode |
| Mirror.WalkPlanKeepsGroups | crates/ripsync-core/src/plan.rs:282-300 | a live-walk plan never leaves a duplicate alone without its group's first member, whose destination identity it then shares |
| Mirror.HardLinkTopology | crates/ripsync-core/src/plan.rs:282-300 | after a clean run with hard links any two names of one source file share one destination inode if and only if the plan splits no group |
| Mirror.SplitStaysSplit | crates/ripsync-core/src/plan.rs:282-300 | a group the plan splits ends split: the first member is a fresh copy, which shares no identity with what was left alone |
| Mirror.ReplanSkips | crates/ripsync-core/src/meta.rs:284-290 | after a clean run, with or without deletions, planning again leaves a path alone exactly when it was kept, is a link, or has no setuid or setgid bit, which `set_mode` strips, and, for a directory, still shows the source's second |
| Mirror.Converges | crates/ripsync-core/src/apply.rs:310-315 | the same for every entry with the hard-link rule on top, after any clean run; a directory can fail to show the source's second only if it lost an entry to a deletion |
| Sync.AllConverge | crates/ripsync-core/src/apply.rs:310-315 | so it holds of all entries of a finished run at once |
| Mirror.DeletionStampsParent | crates/ripsync-core/src/apply.rs:317-321 | one removal leaves its directory a Skip exactly when the clock's second equals the source's time |
| Sync.PlanIgnoresHidden | crates/ripsync-core/src/plan.rs:195-218 | a plan made against the destination without its metadata directory is a plan for the whole destination |
| Sync.FinishedMirrors | crates/ripsync-core/src/apply.rs:122-332 | for every plan that skips only what the classifier accepts: every entry served, nothing missing, the exact path set after deletions, targets, contents of files found different with no assumption and of skipped ones as far as each skip is trusted, the metadata directory kept, and groups kept exactly if the plan splits none |
| Sync.FinishedGuarantees | crates/ripsync-core/src/apply.rs:122-332 | a finished run of a live-walk plan has all of the above, and keeps hard-link groups of a coherent destination |
| Sync.FinishedLacks | crates/ripsync-core/src/apply.rs:294-307 | of the source exactly the lost paths are not there after a run without errors, all others are, each of its kind |
| Sync.LacksNothing | crates/ripsync-core/src/apply.rs:294-307 | so nothing of the source is missing if and only if nothing was lost |
| Sync.FileIsTaken | crates/ripsync-core/src/apply.rs:898-908 | a source path that is no link and has the name of a placed link's temporary is lost |
| Sync.LinkTakesFile | crates/ripsync-core/src/apply.rs:898-908 | the input: a link new to the destination beside a source file of its temporary's name; no run without errors has that very file in the end, and a run in which no call failed, and no directory was in the way, reports no error |
| Sync.ApplyCareful | crates/ripsync-core/src/apply.rs:138-332 | applying any such plan, wherever it came from: entries and confirmed deletions counted once each under any failures, identities and unremovable paths kept; without errors exactly the lost paths are missing, and if none is, everything `FinishedMirrors` lists holds; no bystander is touched under any failures without stray calls, and without errors the counts are the plan's |
| Sync.ApplyPlan | crates/ripsync-core/src/apply.rs:138-180 | applying a live-walk plan: the same, hard-link groups kept, and exactly the entries at rest are left alone by the next plan, after runs that delete as well; no bystander is touched under any failures without stray calls, and without errors the counts are the plan's |
| Sync.SyncTree | crates/ripsync-core/src/plan.rs:156-236 | one local run from the outcomes of two walks: planning errors touch nothing, and a deleting call on a source with no visible entry changes nothing whatever else happens; otherwise, under any failures, copied + updated + skipped + failed entries is the entries, deleted + missed is the confirmed deletions, bystanders stay unless a call goes astray, the short law copied + updated + skipped + errors = entries holds in every run without confirmed deletions and fails in every run that was to delete what cannot be unlinked; without errors all guarantees hold, the counts are the plan's, the next plan is known exactly, and a run that deletes leaves something outside the metadata directory; the resulting tree is again one the theorem applies to; where no call can fail and nobody can cancel, a run that was planned comes to its end and reports no error, unless a directory has a temporary's name |
| Sync.StraysStay | crates/ripsync-core/src/apply.rs:318-321 | without confirmed deletions every destination path the source lacks is still there as it was, directory times apart, unless it is below a source path that is no directory or has a placed link's temporary name |
| Sync.SkippedStay | crates/ripsync-core/src/apply.rs:206-239 | whatever fails, a source path that is skipped stays as it was, unless a placed link's temporary takes its name |
| Sync.SomethingIsLeft | crates/ripsync-core/src/plan.rs:174-177 | a mirror of a source that is not empty is not empty outside the metadata directory |
| Sync.PinnedStrayIsCounted | crates/ripsync-core/src/apply.rs:442-462 | every finished deleting run over a stray path that cannot be unlinked counts more outcomes than entries |
| Sync.FailedDeletionIsCounted | crates/ripsync-core/src/apply.rs:442-462 | for one file on both sides and one stray that cannot be unlinked, every finished run counts more than one outcome for the one entry |
| Sync.SecondRunChangesNothing | crates/ripsync-core/src/apply.rs:184-332 | after a clean run of a source without stripped bits and without deletions, a second run leaves every source path as it was, directory times apart |
| Confirm.CleanRunAgrees | crates/ripsync-core/src/verify.rs:118-168 | after a clean run, deletions included, source and destination agree for the verifier exactly when nothing written carries a setuid or setgid bit, every kept file or link already agreed to the nanosecond and the byte, and directories that lost an entry show the source's time |
| Confirm.CleanRunVerifies | crates/ripsync-core/src/verify.rs:212-326 | so the verifier's report after such a run is clean exactly then: the planner compares whole seconds, the verifier exact times |
| FilePhase.StepKeepsInv | crates/ripsync-core/src/apply.rs:531-606 | every system call of every copy in flight keeps the state of all copies |
| FilePhase.RunKeepsInv | crates/ripsync-core/src/apply.rs:631-667 | so does every interleaving of any number of copies, failures included, up to any moment |
| FilePhase.OldOrNew | crates/ripsync-core/src/apply.rs:531-606 | at every moment of every run of the copy phase a copy's target that was no directory shows its complete old node (or absence) or the complete new content, mode and time |
| FilePhase.DoneMeansNew | crates/ripsync-core/src/apply.rs:531-606 | a copy that ran to its end shows the complete new file whatever else is in flight |
| FilePhase.BystandersKeep | crates/ripsync-core/src/apply.rs:631-667 | paths that are no target, no temporary and below no target keep their nodes throughout, the times of directories apart |
| LinkPhase.LinkStepKeepsInv | crates/ripsync-core/src/apply.rs:858-883 | every call of the hard-link phase keeps the state of all links: each target by its stage, each first member untouched |
| LinkPhase.LinkRunKeepsInv | crates/ripsync-core/src/apply.rs:750-776 | so does every run of the phase, failures included, up to any moment |
| LinkPhase.OldNewOrGone | crates/ripsync-core/src/apply.rs:866-882 | a link's target is absent exactly between its removal and the rename, after that rename failed, or if it never was there and is not yet placed; otherwise it shows its old object, directory times apart, or the first member's once placed |
| LinkPhase.TargetCanVanish | crates/ripsync-core/src/apply.rs:866-882 | the window is real: among any planned links, each whose target exists has a run that stops with that target gone |
| LinkPhase.LinkIsOldOrNew | crates/ripsync-core/src/apply.rs:866-882 | a link's target shows old or new at every moment of every run if and only if nothing was there before |
| CallPlans.TasksInOrder | crates/ripsync-core/src/apply.rs:206-239 | copies and links are handed out in walk order, so no task names the path of an earlier one or one above it |
| CallPlans.CopiesArePlanned | crates/ripsync-core/src/apply.rs:206-239 | the copies of every valid run, with temporary names nobody uses, meet what the copy phase asks: targets all different and none above another |
| CallPlans.CopyShowsOldOrNew | crates/ripsync-core/src/apply.rs:531-606 | so in every interleaving of every real run each copied file shows its old node or the source's, mode stripped |
| CallPlans.LinksArePlanned | crates/ripsync-core/src/apply.rs:290-291 | once the copies are done the links of every valid run meet what the link phase asks: every first member is a file in place, at or below no target |
| CallPlans.RunLinkIsOldOrNew | crates/ripsync-core/src/apply.rs:866-882 | the same equivalence for every link of every real run once its copies are done |
| Index.IndexSkipIsWalkSkip | crates/ripsync-core/src/index.rs:323-401 | whenever the manifest classifier says Skip, the live-walk classifier says Skip if and only if no link is on the way to the path, and Copy otherwise; in checksum mode given that recorded hashes are those of the live content |
| Index.SkipNeedsBoth | crates/ripsync-core/src/index.rs:323-401 | Copy is planned exactly for what is not recorded; Skip only where record, source and what is seen agree in kind, mode, exact time and length, the recorded identity is the one seen, and with checksums the recorded hash is the source's |
| Index.LinkedBackIsSkipped | crates/ripsync-core/src/index.rs:371-401 | the input: a directory recorded with a file, then moved away and linked back; the index finds the file through the link and skips it, the walk would copy it |
| Index.IndexPlanSkipsLess | crates/ripsync-core/src/plan.rs:241-278 | with the hard-link rule on top, what an index plan leaves alone a walk plan leaves alone if and only if no link is on the way to the path or, for a duplicate, to its first member |
| Index.PlanFromManifest | crates/ripsync-core/src/plan.rs:241-278 | the index plan classifies every entry against the manifest and what looking it up yields, links on the way followed, and then enforces hard links in place on the identities looked up |
| Index.IndexDuplicateFollowsFirst | crates/ripsync-core/src/plan.rs:255-261 | a duplicate an index plan leaves alone has its group's first member left alone exactly if the manifest records both alike, on identities as looked up; otherwise the first is copied afresh and the duplicate stays on the old inode |
| Index.IndexCanSplitGroup | crates/ripsync-core/src/plan.rs:255-261 | two names of one file on both sides, the manifest knowing only the second: an index plan copies the first and skips the second |
| Index.FreshFileRecord | crates/ripsync-core/src/index.rs:122-149 | a file recorded as the destination has it is skipped next time exactly if both sides agree in length, mode, exact time and, with checksums, hash |
| Index.RecordIsMadeFrom | crates/ripsync-core/src/index.rs:122-149 | a record shows the inode and time that looking the path up yielded, links on the way followed, its length unless a directory, and for a file its content hash; where a link stands in a file's place the hash is of what reading through it yields |
| Index.PersistKeepsSourced | crates/ripsync-core/src/index.rs:229-254 | adding a run's records, all or part, keeps every record made of some destination state of the history |
| Index.HistoryJustifies | crates/ripsync-core/src/index.rs:122-149 | over any history of runs recorded hashes match live content, if a file that shows an earlier moment's inode, length and time was that file and is unchanged |
| Index.IndexedLinkIsRedone | crates/ripsync-core/src/index.rs:358-363 | a link fresh in the index and unchanged since is left alone exactly if its target is empty, because a walk records length zero and the manifest what `stat` says |
| Index.IndexedDirIsRedone | crates/ripsync-core/src/index.rs:358-363 | a directory fresh in the index and unchanged since is left alone exactly on systems that report length zero for it |
| Journal.ReplayJournal | crates/ripsync-core/src/index.rs:170-202 | the reading loop equals folding the parsed records up to the first that is cut, corrupt or undecodable |
| Journal.ParseRecord | crates/ripsync-core/src/index.rs:267-276 | a printed record parses back to its delta and leaves the rest |
| Journal.ReplayReads | crates/ripsync-core/src/index.rs:170-202 | replaying any bytes at all folds exactly the leading records, each with its length, a payload that hashes to its stored sum and decodes, up to the first place where none stands |
| Journal.CorruptStops | crates/ripsync-core/src/index.rs:182-187 | a record whose payload does not hash to its stored sum ends the replay; exactly the records before it count |
| Journal.ParseTorn | crates/ripsync-core/src/index.rs:176-187 | a record cut at any byte parses as no record |
| Journal.ReplaySerialized | crates/ripsync-core/src/index.rs:170-202 | replaying printed records folds the deltas in order and goes on with whatever follows |
| Journal.ReplayTruncated | crates/ripsync-core/src/index.rs:170-202 | a journal cut at any byte replays exactly the records wholly inside what is kept, neither fewer nor more |
| Journal.FoldIsLastWord | crates/ripsync-core/src/index.rs:191-198 | folding deltas is last writer wins, path by path |
| Journal.FoldTwice | crates/ripsync-core/src/index.rs:301-319 | replaying a journal over a manifest that already absorbed it changes nothing |
| Store.ReplayPartial | crates/ripsync-core/src/index.rs:256-279 | whatever part of an append reached the disk, replay sees exactly the whole records |
| Store.PartialIsPart | crates/ripsync-core/src/index.rs:256-279 | part of an append is no longer than the whole, and all of it is the whole |
| Store.AbsorbedTwice | crates/ripsync-core/src/index.rs:301-319 | a new snapshot beside the journal it absorbed loads as itself |
| Store.Store.HoldsLoads | crates/ripsync-core/src/index.rs:154-168 | a snapshot and a complete journal load as the snapshot with the journal folded over it |
| Store.OtherVersions | crates/ripsync-core/src/index.rs:163-168 | a snapshot loads if and only if its format version is 3 |
| Store.Store.WriteRecord | crates/ripsync-core/src/index.rs:271-274 | the three writes of a record leave, at any crash, a prefix of that record on the journal |
| Store.Store.AppendRecords | crates/ripsync-core/src/index.rs:266-276 | at any crash the journal is the old one, some whole records, and part of the next; a record too large for its length field ends the append with only whole records |
| Store.Store.Append | crates/ripsync-core/src/index.rs:256-279 | as above with the empty case, creation and the final sync; a crash means that the power lasted for fewer bytes and calls than the append takes |
| Store.Store.SaveSnapshot | crates/ripsync-core/src/index.rs:301-319 | at any crash snapshot and journal are both old, or the snapshot is new and the journal old, or the snapshot is new and the journal gone; completion is the last; a crash means that the power did not last for its bytes and two calls |
| Persist.FromDestination | crates/ripsync-core/src/index.rs:209-222 | the initial manifest is the fold of one record per planned entry, skipped ones included, and fails exactly if one cannot be read back |
| Persist.FirstManifest | crates/ripsync-core/src/index.rs:209-222 | for a plan that names no path twice the first manifest maps exactly the planned paths, skipped ones included, each to the record made of it |
| Persist.RecordChanges | crates/ripsync-core/src/index.rs:233-249 | the two loops keep the in-memory manifest equal to the loaded one with the collected deltas folded in, and record a removal only for paths still listed |
| Persist.RecordedManifest | crates/ripsync-core/src/index.rs:229-254 | after a run the manifest has what the run changed as the destination has it now, nothing it deleted, and everything else as before |
| Persist.RunKeepsSourced | crates/ripsync-core/src/index.rs:229-254 | every prefix of a run's deltas keeps the manifest made of past destination states |
| Persist.Compact | crates/ripsync-core/src/index.rs:250-252 | compaction holds the same manifest at every crash point |
| Persist.PersistFirst | crates/ripsync-core/src/index.rs:229-232 | a first recording that crashes leaves nothing to load or the complete manifest; completed, the complete one; it ends early only at a crash or an unreadable entry; the manifest it completes is the one `FirstManifest` describes; it is refused if and only if some planned entry cannot be read back |
| Persist.PersistChanges | crates/ripsync-core/src/index.rs:229-254 | for a crash after any byte or call, load returns the old manifest with some prefix of the run's deltas applied; completion has all of them; unless it crashed, the store is ready for the next run; it stops only at the crash or when a record cannot be made; when it completes, every path is recorded as `RecordedManifest` says, and the journal is gone if it was over 64 MiB or a tenth of the snapshot, and otherwise the old one with the run's records; a crash or refusal has its cause in the power left, a record that cannot be made or one that does not fit |
| Persist.PersistNext | crates/ripsync-core/src/index.rs:229-254 | one more run of a history: whatever the next load finds was made of a destination some run so far left, and unless it crashed the store is ready again |
| Persist.PersistHistory | crates/ripsync-core/src/index.rs:229-254 | runs persisted one after another, the last perhaps crashing: every record the next load finds was made of a destination some run left |
| Cached.HistoryIsNeverBolder | crates/ripsync-core/src/index.rs:323-401 | records made of past destinations let a plan skip what the live walk would not exactly where a link is on the way; in checksum mode if unchanged inode, length and time mean unchanged content |
| Cached.PlanAfterHistory | crates/ripsync-core/src/plan.rs:178-184 | after any history of runs, each recorded as far as it got before a crash, whatever the store then loads gives a plan whose skips are the live walk's exactly where no link is on the way; the plan is the one the loaded manifest gives, entry by entry |
| Cached.UnlinkedIsNeverBolder | crates/ripsync-core/src/plan.rs:178-184 | if no source path is behind a link of the destination, every skip of such a plan is a skip of the live walk |
| Cached.IndexKeepsGroups | crates/ripsync-core/src/plan.rs:255-261 | where no source path is behind a link, an index plan splits no hard-link group exactly when the manifest records every skipped duplicate and its first member alike |
| Cached.SyncFromIndex | crates/ripsync-core/src/plan.rs:178-184 | where no source path is behind a link, a run planned from the index conserves counts and, without errors, mirrors the source like a walked one, hard-link groups kept exactly if the plan splits none; no bystander is touched under any failures without stray calls, and without errors the counts are the plan's; its plan is the manifest's, entry by entry, and deletes nothing |
| Cached.LinkedBackIsLost | crates/ripsync-core/src/apply.rs:199-239 | the moved and linked-back directory, planned and applied: only the directory is to be made, and once it is, nothing has failed and the skipped file is not there |
| Framing.Writer.SendMsg | crates/ripsync-core/src/net/transport.rs:30-40 | refuses a payload exactly if it is above the cap and then writes nothing; otherwise writes the frame or, when the stream breaks, a prefix of it |
| Framing.Writer.SendAll | crates/ripsync-core/src/net/transport.rs:30-40 | consecutive sends leave the frames of the messages sent whole and at most part of one more |
| Framing.Reader.Read | crates/ripsync-core/src/net/transport.rs:147-168 | takes some of the available bytes and loses or reorders none; returns nothing only when nothing was wanted or the stream is over |
| Framing.Reader.RecvMsg | crates/ripsync-core/src/net/transport.rs:48-60 | the result is a function of the bytes of the stream, however they are split and whenever they arrive |
| Framing.Reader.RecvAll | crates/ripsync-core/src/net/transport.rs:48-60 | receiving repeatedly yields the parsed messages of the stream and its ending |
| Framing.ParseSent | crates/ripsync-core/src/net/transport.rs:30-60 | a sent frame is received as its message, the rest of the stream untouched |
| Framing.ParseCut | crates/ripsync-core/src/net/transport.rs:48-60 | a stream cut anywhere inside a frame ends in an error, never in a message |
| Framing.CapIsShared | crates/ripsync-core/src/net/transport.rs:30-60 | the receiver refuses exactly the payload lengths the sender refuses |
| Framing.FrameBytes | crates/ripsync-core/src/net/transport.rs:30-40 | a frame is the payload's length in four bytes, the low one first, four zeros, and the payload; exactly the payloads up to 256 MiB are sent |
| Framing.MessagesOf | crates/ripsync-core/src/net/transport.rs:30-60 | whole frames and an unparsable rest give exactly those messages, in order, and then the error of the rest |
| Framing.Exchange | crates/ripsync-core/src/net/transport.rs:125-168 | for any messages, any break-off point and any fragmentation, the reader gets exactly the messages sent whole, in order, then an error; all of them if the writer had room and no message was above the cap |
| Net.GreetsSameVersion | crates/ripsync-core/src/net/mod.rs:42-97 | the eleven raw greeting bytes are accepted exactly by a responder of the same version |
| Net.GreetsNothingElse | crates/ripsync-core/src/net/mod.rs:79-97 | of all byte strings exactly the seven magic letters followed by the responder's version, high byte first, are accepted |
| Protocol.SenderActs | crates/ripsync-core/src/net/sender.rs:48-95 | every move of the sender keeps the relation between the two roles and what is under way |
| Protocol.ReceiverActs | crates/ripsync-core/src/net/receiver.rs:45-59 | every move of the receiver keeps it |
| Protocol.HandshakeActs | crates/ripsync-core/src/net/mod.rs:36-106 | every move of the handshake keeps the invariant, up to the responder playing before its acknowledgement has arrived |
| Protocol.StepKeepsInv | crates/ripsync-core/src/net/mod.rs:36-166 | so does every step of either peer, cancellations and lost peers included |
| Protocol.NoConfusion | crates/ripsync-core/src/net/mod.rs:48-105 | in no reachable state has a peer met a message it did not expect |
| Protocol.RolesAreComplementary | crates/ripsync-core/src/net/mod.rs:115-166 | in every reachable state the peers play opposite roles, those the initiator chose, under the options it sent |
| Protocol.OneExchangeAtATime | crates/ripsync-core/src/net/sender.rs:69-95 | in every reachable state after the list is complete at most one message is under way or being answered |
| Protocol.TallyIsOutcome | crates/ripsync-core/src/net/receiver.rs:213-215 | a peer that ends with a tally ends with that of the one possible session, whatever befell the other |
| Protocol.SomeoneCanAct | crates/ripsync-core/src/net/proto.rs:5-11 | in every state of the invariant some peer can move until both are over, for channels with room for as little as one message |
| Protocol.NeverBothWaiting | crates/ripsync-core/src/net/proto.rs:5-11 | in no reachable state do both peers wait on empty channels |
| Protocol.StuckMeansOver | crates/ripsync-core/src/net/mod.rs:36-166 | when nobody can move both peers are over, and if none failed both hold the session's tally, or both refused because the versions differ |
| Protocol.StepLightens | crates/ripsync-core/src/net/mod.rs:36-166 | every step decreases a measure that is bounded by the length of the list |
| Protocol.SessionIsSafe | crates/ripsync-core/src/net/mod.rs:36-166 | every run is at most 10 n + 14 steps for n entries, confuses nobody and ends in agreement unless it is cut short |
| Receiver.Serve | crates/ripsync-core/src/net/sender.rs:73-86 | the sender's answer is the whole file, packed if agreed, or the reference encoding against the signature, or not-found |
| Receiver.Fetch | crates/ripsync-core/src/net/receiver.rs:221-249 | bytes that arrive are the source's, by whole file or by delta, given that unpacking inverts packing and no strong hash collides; at most one request is made |
| Receiver.EnsureDir | crates/ripsync-core/src/net/receiver.rs:86-93 | on success the path is a directory and what was below it stays; its mode is the stripped source mode and its time the source's, each if asked for and no call failed |
| Receiver.ClimbsByComponents | crates/ripsync-core/src/net/receiver.rs:117-122 | a link target is refused if and only if it is absolute or one of its components, cut at every slash, is `..` |
| Receiver.WriteLink | crates/ripsync-core/src/net/receiver.rs:99-138 | a climbing or absolute target is always refused, but only after what was there has gone; on success exactly the link is there |
| Receiver.WriteAtomic | crates/ripsync-core/src/net/receiver.rs:302-331 | on success exactly a fresh file with the given bytes, mode and time is at the path, a directory there having been removed |
| Receiver.RemoveVictim | crates/ripsync-core/src/net/receiver.rs:196-203 | a removal that succeeds leaves nothing at or below the path, one that fails nothing new there; a victim already gone changes nothing unless a link leads elsewhere; what cannot be unlinked stays |
| Remote.CollectList | crates/ripsync-core/src/net/receiver.rs:45-59 | the collecting loop returns the entries up to the end of the list and fails on anything else |
| Remote.EntriesExactly | crates/ripsync-core/src/net/receiver.rs:45-59 | a list is read if and only if the stream starts with exactly its entries and then the end of the list |
| Remote.ListRoundTrip | crates/ripsync-core/src/net/sender.rs:50-67 | the list arrives as it was sent, whatever follows it |
| Remote.StreamList | crates/ripsync-core/src/net/sender.rs:50-67 | the sending loop emits the walked entries in order and then the end of the list |
| Remote.EntryReady | crates/ripsync-core/src/net/receiver.rs:72-96 | because parents are listed first, every entry's parent is really a directory when its turn comes |
| Remote.PlacedOnTrack | crates/ripsync-core/src/net/receiver.rs:144-186 | bringing a file or link over keeps every path accounted for and everything brought so far as listed |
| Remote.BringDir | crates/ripsync-core/src/net/receiver.rs:86-98 | one listed directory, counted once and on course whether or not it fails |
| Remote.BringLink | crates/ripsync-core/src/net/receiver.rs:99-143 | one listed link, counted once and on course whether or not it fails |
| Remote.BringFile | crates/ripsync-core/src/net/receiver.rs:144-186 | one listed file, counted once and on course whether or not it fails; at most one request; a file that comes over was asked for exactly once, by delta exactly if whole files are not asked for and a file was there |
| Remote.BringEntry | crates/ripsync-core/src/net/receiver.rs:72-187 | one listed entry of any kind ends in exactly one count; without errors it is brought over or was unchanged; a path with a `..` in it is one error and touches nothing; a file is asked for unless it was refused or has the source's length and exact time |
| Remote.OneMoreRequested | crates/ripsync-core/src/net/receiver.rs:72-187 | the requests of a session stay, entry by entry, exactly those of the files neither refused nor alike in length and exact time |
| Remote.OneMoreTallied | crates/ripsync-core/src/net/receiver.rs:262-280 | the tally of a session without errors stays, entry by entry, the number of new entries, of replaced ones, of unchanged files, and the bytes of the files brought over |
| Remote.BringAll | crates/ripsync-core/src/net/receiver.rs:72-187 | for any failures of single entries copied + updated + skipped + errors equals the number of listed entries; if all are unchanged files nothing can become an error |
| Remote.VictimIsOpen | crates/ripsync-core/src/net/receiver.rs:196-203 | where no link is listed over a directory, no victim of the delete loop is behind a link, although the loop has no guard |
| Remote.DeleteStrays | crates/ripsync-core/src/net/receiver.rs:189-211 | failed removals are not errors and show only as fewer deletions; whatever fails, what was brought over stays, nothing new appears and what cannot be unlinked stays; if nothing failed, or as many were deleted as there were victims, none is left |
| Remote.ReceivedMeansEqual | crates/ripsync-core/src/net/receiver.rs:145-157 | with checksums, or if equal length and time mean equal bytes, every listed file has the source's bytes |
| Remote.NothingElseLeft | crates/ripsync-core/src/net/receiver.rs:189-211 | once the victims are gone the receiver's path set is exactly the list |
| Remote.OnlyStraysBeside | crates/ripsync-core/src/net/receiver.rs:189-211 | beside the list only strays of the old destination can be there, however the removals went |
| Remote.UnlistedStay | crates/ripsync-core/src/net/receiver.rs:189-211 | where deletion was not asked for, a destination path the list lacks is still there as it was, directory times apart, unless it is below a listed file or link |
| Remote.EndsMirrored | crates/ripsync-core/src/net/receiver.rs:33-216 | a session on course to its end without errors is a mirror of the list, its bystanders untouched |
| Remote.AtRestAfterwards | crates/ripsync-core/src/net/receiver.rs:145-157 | after a session that kept times and failed nowhere, every listed file is unchanged for the next session over that list without checksums |
| Remote.RunReceiver | crates/ripsync-core/src/net/receiver.rs:33-216 | every uncancelled session counts each listed entry once, makes no more requests than entries, and reports the tally it returns; it is cut short only by cancellation or a lost connection; an error means that something failed before the deletions, or an entry was refused; without errors the list is there and beside it at most strays: none if there were none, or if deletions were asked for and all are in the tally or nothing failed; a stray that cannot be unlinked is always still there; nothing is deleted unless that was asked for, unchanged files and, without deletions, unlisted paths are left as they were under any failures without stray calls, and a finished session asked for exactly the files it had to; without errors its tally is entry by entry what happened; if no call failed every mode and time asked for is the source's; nothing fails, breaks or is cancelled that cannot be |
| Remote.Transfer | crates/ripsync-core/src/net/receiver.rs:33-216 | the same from the two walks, with the list streamed by the sender's loop |
| Sessions.StraySurvives | crates/ripsync-core/src/net/receiver.rs:189-211 | a stray that cannot be unlinked survives every session, so the path set is not the list's, whatever the session reports |
| Sessions.StrayGoesUnreported | crates/ripsync-core/src/net/receiver.rs:189-211 | for one unchanged file and one such stray, every finished session that was to delete reports no error and leaves the stray |
| Sessions.AsksNothing | crates/ripsync-core/src/net/receiver.rs:145-187 | so that next session asks the sender for nothing |
| Sessions.RunFollows | crates/ripsync-core/src/net/receiver.rs:218-249 | over any channels and interleaving, the receiving peer has had exactly the recorded answers so far and waits for the recorded request's |
| Sessions.RecordSettles | crates/ripsync-core/src/net/receiver.rs:33-216 | every run of the two peers over a recorded exchange is bounded and unconfused, and unless a peer is cut off both end with the recorded tally, or both refuse |
| Sessions.Converse | crates/ripsync-core/src/net/receiver.rs:33-216 | file work and protocol together: when a transfer ends, every channel run of its exchange gives both peers the tally of that very transfer, and without errors the destination is the mirror the tally stands for; requests, counts and bystanders as in `Transfer` |
| Verify.CompareIsExact | crates/ripsync-core/src/verify.rs:118-168 | an entry compares clean exactly when the path is there and agrees in kind, mode, exact time, content, target and each attribute asked for, if no hash collides |
| Verify.CompareAll | crates/ripsync-core/src/verify.rs:259-280 | the comparison loop reports the first difference of every entry, in order, or fails as the first unreadable file does |
| Findings.DifferencesListed | crates/ripsync-core/src/verify.rs:259-280 | the comparison pass has one line for every entry that compares as different, with what was found, in walk order, and no other |
| Verify.CompareLinks | crates/ripsync-core/src/verify.rs:281-307 | the group pass reports exactly the files whose destination identity is not that of the first member seen |
| Findings.LinkDifferencesListed | crates/ripsync-core/src/verify.rs:281-307 | the hard-link pass has one line for every file off its group's first identity, in walk order, and no other |
| Verify.LinksAreExact | crates/ripsync-core/src/verify.rs:281-307 | it reports nothing exactly when all names of each source file are names of one destination object |
| Verify.SurplusMeansExtra | crates/ripsync-core/src/verify.rs:308-323 | the last pass reports nothing exactly when every destination path is a source path |
| Findings.SurplusListed | crates/ripsync-core/src/verify.rs:308-323 | the last pass has one line for every destination path the source lacks, in walk order, and no other |
| Verify.CleanMeansAgree | crates/ripsync-core/src/verify.rs:212-326 | a clean report in `All` mode if and only if the trees agree: equal path sets outside the destination's metadata directory, agreement at every path, and hard-link groups mapped to single objects when asked for |
| Verify.VerifyAll | crates/ripsync-core/src/verify.rs:212-326 | the imperative verifier returns that report, or fails only if cancelled or as the first unreadable file does; so its mismatches are empty if and only if the trees agree |
| Findings.ReportLists | crates/ripsync-core/src/verify.rs:212-326 | a report is three lists of lines in walk order: one line for each source path that is not there or does not agree, if no hash collides; with hard links one for each file that is there on another identity than the first name of it that is there; one for each extra path |
| Findings.ReportFails | crates/ripsync-core/src/verify.rs:118-168 | a verification fails if and only if two files alike in all that is compared before their contents cannot both be read, and then with the first such path |
| Findings.FirstDifference | crates/ripsync-core/src/verify.rs:118-168 | the detail of a line is the first difference in the order kind, mode, time, owner, group, content, allocation or target, attributes |
| Verify.ChangedIsExact | crates/ripsync-core/src/verify.rs:233-257 | in `Changed` mode the comparison is clean exactly when every changed entry, as looked up, is there and agrees |
| Verify.ChangedLinksAreExact | crates/ripsync-core/src/verify.rs:281-307 | with hard links `Changed` mode reports no link exactly when all names of each source file, changed or not, are, as looked up, names of one destination object |
| Findings.ChangedLists | crates/ripsync-core/src/verify.rs:233-307 | in `Changed` mode there is one line for each changed entry that, as looked up, is not there or does not agree, and with hard links one for each planned file off its group's first identity |
| Findings.ChangedFails | crates/ripsync-core/src/verify.rs:233-280 | in `Changed` mode a verification fails if and only if such files are among the changed entries, with the first of them |
| Verify.ReportIsGenuine | crates/ripsync-core/src/verify.rs:118-326 | every single line of a report names a difference that is there, whatever the hash does |
| Verify.Run | crates/ripsync-core/src/verify.rs:212-326 | the three modes: nothing checked; every changed entry agrees and, with hard links, all groups hold, in what looking the paths up yields; or full agreement of the walked trees; its mismatches are the report the `Findings` lemmas list, and it fails only if cancelled or as that report does |
| Verify.SeenAsWalked | crates/ripsync-core/src/verify.rs:85-115 | where no source path is behind a link of the destination, looking up and walking come to the same |
| Verify.HiddenSourceNeverVerifies | crates/ripsync-core/src/verify.rs:228-242 | a source with a metadata directory of its own never verifies, because only the destination's walk is filtered |
| Throttle.Throttle.Write | crates/ripsync/src/remote.rs:300-313 | each inner write starts with a positive allowance and the bucket afterwards is the refilled one less what the stream took; a write that finds tokens does not wait |
| Throttle.AllowanceIsPositive | crates/ripsync/src/remote.rs:300-306 | for rates of at least one, a monotone clock and sleeps no shorter than asked, the allowance is positive and at most one second's worth when the inner write starts |
| Throttle.IdleRefills | crates/ripsync/src/remote.rs:285-291 | the bucket is full exactly when the time since the last write is worth what it lacks, an idle second always enough for one not overdrawn |
| Throttle.WaitsForOneToken | crates/ripsync/src/remote.rs:300-306 | a write that finds tokens goes ahead at once; one that finds none, and sleeps as long as it asks to, wakes with exactly one |
| Throttle.RateIsBounded | crates/ripsync/src/remote.rs:285-312 | between any two writes the stream takes strictly less than the rate times one second plus the time between their replenishes |
| Throttle.WriteAll | crates/ripsync/src/remote.rs:300-313 | any sequence of writes leaves the bucket the specification computes |

## Left out

- Temporary names in the tree of `Destination`: a failed copy or link may leave one behind; `FilePhase` and `LinkPhase` have them.
- Symbolic links call by call: their temporary's removal and their replacement are two steps of `Destination`, and no old-or-new claim is made for them.
- The effect of calls through symlinked or missing parents: arbitrary in the model; containment checks there can only turn such a call into an error.
- Dry runs, events and reporters, thread pools, the `io_uring` back end, and the copy ladder, which is one step that fills a temporary with the source's bytes or fails.
- Ownership, access-control lists, extended attributes and fsync while applying; the verifier does compare those it is asked to.
- Plan.ClassifyAll: does not model files that cannot be read while planning in checksum mode, which the code treats as differing; every path can be hashed here.
- Entries that are no file, directory or link.
- Filters: the theorems are for the empty filter.
- Phases.ApplyReal: does not model a destination root that cannot be made or resolved, which ends the run before anything is counted.
- Phases.RestoreTimes: says nothing of a run in which setting a time failed unreported, because the code ignores that failure.
- DeltaEngine.ComputeSignature: does not say what checksum a chunk longer than 32 bits can count gets, nor model the square root in `block_size_for`; any block size is allowed locally and any size in the documented bounds remotely.
- Journal.ReplaySerialized: takes serialization as a function, although bincode writes a hash map in arbitrary order; no property depends on the order.
- Persist.PersistChanges: asks for a journal of complete records, since `append` does not cut off a torn record left by an earlier crash; a stale journal beside an unloadable snapshot is left out for the same reason.
- Store.Store.SaveSnapshot: does not model the random temporary name, the metadata directory's permissions, or errors other than stopping.
- Index plans with deletions: `build_plan` never takes the index path when deletions are requested.
- Protocol.SessionIsSafe: takes the receiver's decisions and the sender's answers as functions of what each has been told; the file work behind them is in `Remote`, whose bound of one request per entry is the one the protocol asks for.
- Remote.RunReceiver: claims nothing where a directory is listed over a file or link, or a link over a directory, since the receiver does not replace a file by a directory and deletes through links; a file listed over a directory is covered.
- Receiver.EnsureDir: claims a directory's time only at that moment; it moves as contents arrive, and the session theorem does not claim it.
- Framing.Reader.Read: condition variables and locks are not modelled; pieces arrive at arbitrary moments instead.
- Throttle.RateIsBounded: uses exact reals, so floating-point rounding is not modelled.
- Pause and resume in `RunControl`: a cancellation at any checkpoint stands for it.
- The command line, configuration, watch mode, terminal interface, ssh process and benchmarks.
