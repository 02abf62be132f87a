# ChippyTea engine: verified model

This project models the parts of the ChippyTea engine (`core/src`) that delete, compare and
reward, and proves what they promise. It is checked with `dafny verify dfyconfig.toml`.

**Guarded removal.** The engine deletes a reviewed directory tree while other processes may
rename, replace, link or write inside it. `FileSystem` is the kernel: inodes, directories and
link counts, with one clock tick per change. `Removal` states what the tree walk and the
capture, check, unlink protocol of a leaf do as functions on the whole state; the class
`RemovalContext` does it by updating fields, against those functions. Before every kernel call
other processes get a turn, which may replace the file system by any other one that leaves the
*names inside the guarded directories* alone; each turn also says whether the user cancelled and
whether the next call fails. `RemovalSafety` and `RemovalRuns` prove what holds of every run,
`RemovalQuiet` and `RemovalTheorems` what an undisturbed run achieves on a tree of any shape with
any alias pattern, `RemovalMoments` what is on disk at every moment of such a run, `RemovalCancel`
what a removal leaves that is only cancelled, `RemovalStops` exactly when a step of it is refused,
and `RemovalPlaces` that the walk takes at most the staged name from its directory. `LinkClosure` is
the hard-link evidence the removal starts from, and `RecoveryDirectory` the creation of the private
directory leaves are captured into.

**The operation around it.** `CleanupRun` (in `Execute`) follows one request from the preflight to
the receipt: manifest transaction, exclusive rename to the stage name, second measurement, then
Trash or removal, accounting, and erasing the rows. Most of its methods say twice what they do:
what holds whatever other processes do, and, for an undisturbed call (`turns == []`), exactly when
they succeed. Its history records every change of the file system together with the rows committed
at that moment, so a statement about the history is a statement about every crash point.
`ReviewedTrees` and `CleanupTheorems` put all of it together for a tree as it is on disk: measured,
staged, removed, and receipted. `Restore` is the way back from the Trash, as a function on the whole
state and a class that refines it; `RestoreStops` says exactly when it succeeds, whatever others do.
`Store` holds the tables both write, with the windows and the reward ledger; `Accounting` the
arithmetic behind a credit.

**Duplicates.** `Pipeline` states the level-by-level answer and proves it equal to naive byte
comparison; `ExactComparison`, `Buckets` and `DuplicateAnalysis` are the loops that compute it,
with their read budget. An item carries the bytes its reads yield and its two digests; digests
may collide in any way, equal bytes only have equal digests. Per phase an item is steady, cannot
be opened, is found changed when it is validated again, or was cut off at some byte. The staged copy
of a duplicate and the file that is kept are compared by the same code before anything goes to the
Trash.

**Docker responses and running applications.** `Utf8`, `ChunkedCoding`, `DockerResponse` and
`DockerTransport` decode the bytes of a response strictly, `DockerWire` writes responses out and
proves that they are read; `Activity` collects the identifiers of running applications and decides
the cache gate.

## Assumptions

- The names in the new recovery directory are left alone by other processes (they may still write,
  link or restamp the inodes). If another directory was opened in its place, what is said of the
  removal needs *that* one left alone, which `Sheltered` says. Statements about *where the item is*
  also need the item's own directory left alone; they say so with `in guarded`.
- The kernel gives the new recovery directory a key that no manifest row has, and the item's
  directory is not inside the item. A path component contains no slash.
- Hashes are symbolic: the recovery name keeps the text it would hash, a fingerprint is the
  multiset of the metadata it digests.
- Native Trash touches no other name in the item's directory, and if it reports success the staged
  name is gone. In the directory it reports it adds the reported name, over none, and touches no
  other name there. Any exclusive rename of the staged item into another directory is such a Trash
  (`Execute.RenamingIsTrash`).
- A directory descriptor is its key. The database is atomic per statement or transaction and may
  fail at any of them.

## Model

| member | source | states |
|---|---|---|
| RemovalSafety.RenameMoves | core/src/cleanup.rs:666-688 | An exclusive rename moves the object to the new name; the two directories gain and lose exactly these names |
| RemovalSafety.SettleRuns | core/src/cleanup.rs:613-633 | After an unlink a hard-link group follows its inode by exactly that one link, or nothing is recorded and the failure is past the boundary |
| RemovalSafety.RenameIsSafe | core/src/cleanup.rs:666-688 | An exclusive rename overwrites no name, loses no directory contents and no link |
| RemovalSafety.LeafRuns | core/src/cleanup.rs:519-663 | However a leaf's removal ends, whatever others do: success unlinked the reviewed inode; before the unlink a failure puts the captured inode back under its name, and leaves it under its recovery name only if the call after the last turn failed, or its directory is gone or on another device, or its name is taken; after the unlink the name is counted and private bytes become unknown |
| RemovalRuns.RemoveWalks | core/src/cleanup.rs:444-517 | Every run of the walk takes only safe steps, unlinks only inodes that match their row, loses no captured leaf (it leaves at most one behind, under its row's recovery name and only if its own name could not be given back, or put it back under its own name), and each hard-link group accounts for exactly the aliases removed |
| RemovalCancel.LeafCancelled | core/src/cleanup.rs:519-663 | If nobody interferes and no call fails, however the user cancels: a leaf is unlinked and recorded, or every directory has exactly the names it had |
| RemovalCancel.WalkCancelled | core/src/cleanup.rs:444-663 | The same for the whole walk: no leaf stays in the recovery directory, no name is added or moved, and only names of unlinked leaves and removed directories go |
| RemovalTheorems.AnyRemovalIsSafe | core/src/cleanup.rs:444-663 | From the start of a removal: every unlinked name had its row and inode, every engine step and every recovery name is accounted for at every moment, `files` counts the regular names, and exhausted groups lost exactly their reviewed number of aliases |
| RemovalTheorems.InterferenceIsGeneral | core/src/cleanup.rs:410-431 | The interference covered includes renaming, unlinking, creating and rewriting anywhere outside the guarded directories |
| RemovalTheorems.LeafNameIdentifies | core/src/cleanup.rs:355-364 | A recovery name leads back to one relative path |
| RemovalTheorems.JoinedInjective | core/src/cleanup.rs:355-364 | The hashed text of a path determines the path |
| RemovalQuiet.LeafQuiet | core/src/cleanup.rs:519-663 | Undisturbed, one leaf is captured, checked, unlinked and counted, its group following the engine's own change of time and links |
| RemovalQuiet.TreeQuiet | core/src/cleanup.rs:444-517 | Undisturbed, a whole subtree goes and nothing beside it moves, by induction on its shape |
| RemovalTheorems.CountedOnce | core/src/cleanup.rs:585-627 | The private bytes of distinct inodes are summed once each, independent of names, aliases and order |
| RemovalTheorems.PathsCount | core/src/cleanup.rs:74-77 | A fitting tree has as many distinct manifest paths as entries, so progress advances once per row |
| RemovalTheorems.UndisturbedRemoval | core/src/cleanup.rs:444-633 | On a closed tree of any shape and alias pattern the removal succeeds, every group is exhausted, the tree is gone and nothing else moved, and files, private bytes and progress are exactly right |
| RemovalMoments.TreeMoments | core/src/cleanup.rs:444-663 | At every moment of the undisturbed removal of any subtree some number of its entries is gone, the rest is in place, and the next one is in place or is the one leaf in the recovery directory; beside it no name changes |
| RemovalMoments.PathsResolve | core/src/cleanup.rs:444-517 | As long as an entry and all entries after it are in place, following its row's path from the stage name leads to its object |
| RemovalMoments.EntriesPaths | core/src/cleanup.rs:74-77 | The entries in removal order are the rows: every path of the tree, as many as the tree has entries |
| RemovalMoments.EveryMoment | core/src/cleanup.rs:1129-1136 | At every moment of the undisturbed removal of a closed reviewed tree each row's path leads to the row's object until that entry is taken, and the recovery directory is empty or holds exactly one leaf, under its row's recovery name and with its row's object |
| RemovalStops.CaptureNeeds | core/src/cleanup.rs:527-535 | A leaf is captured if and only if nobody cancelled at the two checkpoints before it, the rename did not fail and could be done, and a hard-linked leaf is still what was compared |
| RemovalStops.QueryNeeds | core/src/accounting.rs:255-315 | The private bytes asked by name are those of the inode under it, if and only if they can be told and nothing else about it but its allocation differs from what was looked at |
| RemovalStops.InspectNeeds | core/src/cleanup.rs:538-594 | The checks on a captured leaf pass if and only if it is this user's, changed by nothing but its capture and no placeholder, nobody cancelled, no call failed, and a file that is opened did not change meanwhile |
| RemovalStops.FinishNeeds | core/src/cleanup.rs:595-633 | The captured name is unlinked if and only if nobody cancelled, it is still what was checked and can be unlinked, and neither call failed |
| RemovalStops.LeafNeeds | core/src/cleanup.rs:519-633 | A leaf is gone only if none of the four checkpoints met a cancellation and no call on the way failed, and success on a hard link also needs the look after the unlink |
| RemovalStops.EnterNeeds | core/src/cleanup.rs:445-456 | After a cancellation, or if the look at an entry fails, it is left as it is |
| RemovalStops.RefusesEntry | core/src/cleanup.rs:444-517 | Without any change: no row, not the reviewed object as reviewed, a special file, or a link count the closure does not know |
| RemovalStops.OpenNeeds | core/src/cleanup.rs:475-489 | A directory is entered if and only if its open did not fail and found the reviewed object |
| RemovalStops.CloseNeeds | core/src/cleanup.rs:498-508 | A directory is removed if and only if nobody cancelled, it is still the reviewed object and can be removed, and neither call failed |
| RemovalPlaces.StageOnly | core/src/cleanup.rs:444-517 | The walk takes at most the staged item's own name from its directory, and takes it if it succeeds |
| RecoveryDirectory.OpensAheadExactly | core/src/cleanup.rs:319-353 | Whatever other processes do between making and opening the recovery directory, every name in the accepted one has a row, if and only if the item's directory is left alone |
| RecoveryDirectory.DivertedIsAccepted | core/src/cleanup.rs:319-353 | A name pointed elsewhere before the first look passes every check, and the accepted directory holds a name without a row |
| RecoveryDirectory.AcceptsExactly | core/src/cleanup.rs:319-353 | A directory is accepted if and only if the name led to it at the look and at the open, its mode is what was seen, it is this user's, and its permissions are exactly this user's three |
| RecoveryDirectory.OpensMade | core/src/cleanup.rs:319-353 | In a directory left alone the accepted recovery directory is the one that was made, and empty |
| RecoveryDirectory.RowsKeptExactly | core/src/cleanup.rs:1062-1083 | Whichever directory was opened, every name in it has a row at every moment of the removal exactly if it had one when the removal started |
| RemovalEngine.RemovalContext.constructor | core/src/cleanup.rs:1062-1076 | A context starts with nothing removed and the closure's groups |
| RemovalEngine.RemovalContext.RenameExclusive | core/src/cleanup.rs:666-688 | One exclusive rename after a turn of the others, or no change |
| RemovalEngine.RemovalContext.Inspect | core/src/cleanup.rs:549-598 | The checks on a captured leaf up to the last phase before its unlink |
| RemovalEngine.RemovalContext.Finish | core/src/cleanup.rs:599-633 | Last identity check, unlink, and what follows it |
| RemovalEngine.RemovalContext.CommitUnlink | core/src/cleanup.rs:604-612 | The count and the progress move with the unlink, before any later check |
| RemovalEngine.RemovalContext.Settle | core/src/cleanup.rs:613-627 | A group follows its inode only by the engine's own unlink; private bytes are counted at the last link |
| RemovalEngine.RemovalContext.RemoveLeaf | core/src/cleanup.rs:519-663 | The whole capture protocol refines its specification |
| RemovalEngine.RemovalContext.Remove | core/src/cleanup.rs:444-517 | The recursive walk refines its specification |
| RemovalEngine.RemovalContext.RemoveEach | core/src/cleanup.rs:194-231 | Visiting what directory iteration yields refines its specification |
| RemovalEngine.RemovalContext.CloseDirectory | core/src/cleanup.rs:500-517 | A directory is removed only if it is still the reviewed one, and empty |
| LinkClosure.RegularLinkClosure.Observe | core/src/safety.rs:2180-2238 | The groups track exactly the multi-link files seen and how often; a refusal is final |
| LinkClosure.RegularLinkClosure.IntoClosed | core/src/safety.rs:2240-2243 | Groups come out only if every one was seen under all its names |
| LinkClosure.MeasureLinks | core/src/safety.rs:2180-2243 | On an unchanging measurement the closure succeeds if and only if the measurement is closed and within the identity limit |
| Accounting.AmbientGrowth | core/src/accounting.rs:143-167 | The loop computes the larger projection of the two sample pairs, or refuses unordered samples |
| Accounting.CeilingIsLeast | core/src/accounting.rs:155-162 | The ceiling quotient is the least integer with r * elapsed >= growth * interval |
| Accounting.AmbientIsLeast | core/src/accounting.rs:143-167 | The reserve is the least one covering both pairs, or saturated only because a 64- or 128-bit value overflowed |
| Accounting.ReserveIsLeast | core/src/accounting.rs:143-181 | The reserve is the least one that covers all four sample pairs from the first sample to the last, or the greatest 64-bit value if that is less or 128 bits overflow |
| Accounting.ObservedIsLeast | core/src/accounting.rs:131-178 | What is observed is the smallest difference of a later and an earlier sample, none if there is a loss, and the closing value is the smallest later sample |
| Accounting.RecoveryBudget | core/src/accounting.rs:169-183 | A budget exists exactly for ordered observations with timed samples |
| Accounting.CreditNeedsDeletion | core/src/accounting.rs:464-505 | Nonzero credit needs a finished permanent removal, known private bytes, and an observation |
| Accounting.CreditIsGreatest | core/src/accounting.rs:139-183 | On the six samples: bytes are within the credit if and only if they are none, or the operation is a finished permanent removal with known private bytes, the samples surround it, and the bytes are within the private and the reported ones and were recovered beyond the reserve whichever earlier and later sample are compared |
| Accounting.CreditIsSound | core/src/accounting.rs:139-183 | If the background grew no faster than some measured pair, the credit never exceeds the bytes really freed |
| Store.SplittingEarnsTheSame | core/src/accounting.rs:546-560 | Over every history of credits, coins and remainder are those of the total, however it was split |
| Store.AllocationBalances | core/src/accounting.rs:541-575 | One allocation keeps credited = sum of allocations, remainder = credited mod coin size, coins = credited div coin size |
| Store.MarkingKeepsCoins | core/src/store.rs:1788-1812 | Collecting changes which coins are collected, not how many there are |
| Store.Store.Begin | core/src/accounting.rs:424-443 | A window opens exactly if an observation exists and its domain has no open window |
| Store.Store.Allocate | core/src/accounting.rs:519-580 | All tables change together or none; a window gives out once, within its observation, its private bound and the reported bytes |
| Store.Store.SupportedCredit | core/src/accounting.rs:464-505 | The loop-free guard computes the credit and notes the observed bytes |
| Store.Store.Finish | core/src/accounting.rs:445-462 | The bound check never rejects a credit computed here: it fails only for a window no longer open, the tables, or the database |
| Store.Store.Collect | core/src/store.rs:1788-1812 | One transaction: every earned coin enters the wallet once, or nothing changes |
| Store.Store.Reconcile | core/src/store.rs:469-516 | Row by row, then the windows, and a database error stops it there: every row is as it was or interrupted; if it completes every operation has ended, what had ended before is unchanged, what had not is interrupted and not restorable, and no window is open |
| Store.Store.Prepare | core/src/store.rs:1852-1870 | The operation's row exists before anything else happens |
| Store.Store.FinishOperation | core/src/store.rs:1872-1893 | The receipt and the final state are stored together |
| Store.Store.CommitManifest | core/src/cleanup.rs:857-884 | The rows and the ancestors are committed together, and never over earlier ones |
| Execute.StagedHasRows | core/src/cleanup.rs:930-949 | If the staged item has the reviewed fingerprint, every entry in it has its row, exact but for the root's change time |
| Execute.CrashIsRecoverable | core/src/cleanup.rs:1129-1136 | At every moment a captured leaf has a committed row and its name leads to that row only; a staged item has its rows |
| Execute.ItemIsInOnePlace | core/src/cleanup.rs:887-973 | The item has its original name or the stage name or neither, never both, and no other name beside it moved |
| Execute.RemovalKeeps | core/src/cleanup.rs:1062-1083 | A removal run extends the history safely, keeps the placement, and if not stopped leaves the recovery directory empty |
| Execute.AliasesRemoved | core/src/cleanup.rs:293-301 | Exhausted groups mean every multi-link file lost exactly its reviewed number of names |
| Execute.VerifiedOnce | core/src/cleanup.rs:274-291 | The evidence determines the hard-link groups |
| Execute.RemovesExactly | core/src/cleanup.rs:1046-1127 | Whether an undisturbed removal succeeds does not depend on how the evidence was found |
| Execute.ClosedTreeGoes | core/src/cleanup.rs:1046-1084 | Undisturbed, the permanent branch removes every closed reviewed tree, and the recovery directory after it |
| Execute.RenamingIsTrash | core/src/cleanup.rs:1001-1013 | Moving the staged item under a free name of any other directory is within what native Trash is allowed here, whichever directories are guarded |
| Execute.CleanupRun.constructor | core/src/cleanup.rs:780-850 | An operation starts with the item in place and nothing done |
| Execute.CleanupRun.Preflight | core/src/cleanup.rs:795-821 | The preflight changes nothing; undisturbed it passes exactly if the name holds the reviewed object on the authorized device |
| Execute.CleanupRun.Insert | core/src/cleanup.rs:820-851 | The operation has its row before anything else is done; undisturbed, exactly if the identifier is new |
| Execute.CleanupRun.Revalidate | core/src/cleanup.rs:865-883 | Undisturbed it passes exactly if the measurement is complete, has distinct paths and the reviewed contents, and the name still holds the reviewed object |
| Execute.CleanupRun.Prepare | core/src/cleanup.rs:853-900 | All rows are committed or none; undisturbed, exactly if the revalidation passes and the tables are free of this operation |
| Execute.CleanupRun.Stage | core/src/cleanup.rs:911-921 | The exclusive rename to the stage name, with the rows already there; undisturbed, exactly if the stage name is free |
| Execute.CleanupRun.PutBack | core/src/cleanup.rs:969-972 | The exclusive rename back of what the call meets, or no change if it failed, the name is taken or the stage name holds nothing |
| Execute.CleanupRun.CompareCopy | core/src/cleanup.rs:947-963 | The staged copy passes only if the retained file has its bytes, within the read budget; uninterrupted, if and only if |
| Execute.CleanupRun.LookAtStaged | core/src/cleanup.rs:922-946 | The operation is marked, and the staged item is the reviewed object with the reviewed contents; undisturbed, if and only if |
| Execute.CleanupRun.VerifyStaged | core/src/cleanup.rs:922-965 | Evidence is returned only for a staged item with the reviewed contents, closed hard links and a retained file with exactly its bytes, and undisturbed it is returned for every such item |
| Execute.CleanupRun.LookInTrash | core/src/cleanup.rs:1014-1021 | An identity is returned only for the reviewed object at the place native Trash reported; undisturbed, if and only if |
| Execute.CleanupRun.ValidateKeeper | core/src/duplicates.rs:960-965 | The retained file passes exactly if it was neither changed nor cut off, by the same validation as an input |
| Execute.CleanupRun.TrashStaged | core/src/cleanup.rs:994-1022 | Success only if the retained file is still valid, the item left the directory and the returned place holds the reviewed object; native Trash may add its name to a guarded directory and take the staged name, nothing else there; undisturbed, if and only if, and then the file system is what native Trash left |
| Execute.CleanupRun.TrashItem | core/src/cleanup.rs:992-1045 | A trashed receipt is restorable and stores the object's identity; after a failure the item has its own name again exactly if the rename back could be done and did not fail, and with nobody interfering the rename met the staged item or what native Trash left |
| Execute.CleanupRun.MakeDirectory | core/src/cleanup.rs:319-324 | `mkdirat`: a new empty directory under the recovery name, or no change |
| Execute.CleanupRun.MakeRecovery | core/src/cleanup.rs:319-353 | The directory opened is accepted only by the checks the source makes, by some interference of `Creates`; it is the one that was made if the item's directory is left alone; undisturbed it is accepted exactly if it can be made private |
| Execute.CleanupRun.RunRemoval | core/src/cleanup.rs:1062-1083 | Refines the removal from its start state with the directory that was opened; success means the item is gone, nothing is left captured in the made directory, and all aliases were removed if the opened one was left alone |
| Execute.CleanupRun.RemoveStaged | core/src/cleanup.rs:1062-1084 | Clean means item and recovery directory are gone; undisturbed, exactly if the walk completes, every group is exhausted and the recovery directory can go |
| Execute.CleanupRun.DropRecovery | core/src/cleanup.rs:366-381 | The recovery directory goes only while it is the same one, and empty; undisturbed, if and only if |
| Execute.CleanupRun.OpenWindow | core/src/cleanup.rs:1057 | A window opens without touching anything else, or there is none |
| Execute.CleanupRun.CloseWindow | core/src/cleanup.rs:1104-1118 | A finished accounting files the receipt with a credit within what was counted; undisturbed and storable, the computed one |
| Execute.CleanupRun.Account | core/src/cleanup.rs:1104-1126 | A failed or missing accounting files the receipt without credit; a credit needs known private bytes and a finished permanent removal, and undisturbed it is the computed one |
| Execute.CleanupRun.RemoveAndAccount | core/src/cleanup.rs:1057-1127 | The window, the walk and the accounting: undisturbed, removed exactly if the walk completes, every group is exhausted and the recovery directory can go; a finished removal whose window can be opened and whose credit the tables take gets exactly the computed credit |
| Execute.CleanupRun.RemovePermanently | core/src/cleanup.rs:1046-1127 | A removed receipt means item and recovery directory are gone, any other leaves one of them; undisturbed it is removed exactly if the recovery directory can be made, the walk completes, every group is exhausted and the directory can go |
| Execute.CleanupRun.GiveUp | core/src/cleanup.rs:887-990 | A cancelled or skipped operation earns nothing, and a staged item has its own name again exactly if the rename back could be done and did not fail; with nobody interfering it could |
| Execute.CleanupRun.Secure | core/src/cleanup.rs:911-990 | Undisturbed the item is staged with its evidence exactly if it can be staged, is the reviewed object and has the reviewed contents; otherwise it is put back, and with nobody interfering every directory has its original names, however the user cancels |
| Execute.CleanupRun.Act | core/src/cleanup.rs:992-1127 | Undisturbed, Trash and removal succeed exactly under their own conditions, and never as each other |
| Execute.CleanupRun.Discard | core/src/cleanup.rs:1128-1136 | Rows are erased only with a finished outcome |
| Execute.CleanupRun.Erase | core/src/cleanup.rs:1131-1136 | Rows are erased only when nothing is left that they describe |
| Execute.CleanupRun.Complete | core/src/cleanup.rs:992-1141 | Trash or removal and what is discarded after it: rows are erased exactly for a finished outcome; undisturbed, success exactly under the branch's own conditions, and a trashed item is where native Trash put it |
| Execute.CleanupRun.Carry | core/src/cleanup.rs:911-1141 | Staging and the branch after it: everything `Perform` promises, from the uncancelled operation on |
| Execute.CleanupRun.Perform | core/src/cleanup.rs:902-1141 | Everything after the manifest: rows are kept unless the item was removed or trashed, and only a staged item with the reviewed contents ever leaves |
| Execute.CleanupRun.Proceed | core/src/cleanup.rs:853-1141 | Everything after the operation has its row: without a committed manifest nothing changes, with one it ends as `Perform` says |
| Execute.CleanupRun.Execute | core/src/cleanup.rs:780-1141 | On every exit: the receipt agrees with where the item is, an unauthorized request changes nothing, the first change is justified, every engine change is safe if others leave the opened recovery directory alone, and only a finished removal of the reviewed contents is credited, at most the private bytes counted; every moment is write-ahead unless the recovery name was pointed elsewhere before it was opened, which cannot be in a directory left alone; an item that was not trashed or removed has its own name again unless the rename back failed or could not be done, and with nobody interfering every directory has its original names however the user cancels; undisturbed it gets a receipt, trashes or removes if and only if every condition for that holds, and a removal the ledger can take is paid exactly the computed credit |
| ReviewedTrees.DistinctMeasure | core/src/cleanup.rs:865-878 | The measurement of a tree has no path twice |
| ReviewedTrees.CopiesAreNames | core/src/safety.rs:2180-2238 | A file is measured exactly once for every name it has in the tree |
| ReviewedTrees.ClosedMeasure | core/src/safety.rs:2180-2243 | The measurement of a tree that holds all links of its files is closed and consistent |
| ReviewedTrees.RestampedSame | core/src/cleanup.rs:930-949 | A tree whose root was restamped by the staging rename has the same fingerprint |
| CleanupTheorems.ReviewedTreeGoes | core/src/cleanup.rs:780-1141 | For a reviewed tree on disk that holds all links of its files, with free names, every condition of an undisturbed permanent cleanup holds |
| CleanupTheorems.CutShort | core/src/cleanup.rs:1046-1084 | The same for every reviewed tree on disk: whenever its undisturbed removal is cut short, the rows say where every entry is |
| CleanupTheorems.TreeEnds | core/src/cleanup.rs:1046-1127 | Where an undisturbed removal of a reviewed tree ends, in terms of the file system it started in: the item's name and every directory of the tree are gone, every other name and every inode outside the tree is as it was, and files, private bytes and progress are those of the tree |
| CleanupTheorems.RemoveReviewedTree | core/src/cleanup.rs:780-1141 | With nobody interfering, a permanent cleanup of any such tree ends removed, every reviewed alias is unlinked, its rows are erased, nothing of the tree is left and nothing else moved; files, private bytes and progress are exactly those of the tree, and the credit is the computed one if its window can be opened and the tables take it, within the known private bytes in any case |
| Restore.CheckWaits | core/src/cleanup.rs:1143-1206 | Without interference the checks pass exactly when the item is restorable and waits where it was left; passing always means authorized, unchanged ancestors, the same object and the reviewed contents |
| RestoreStops.CheckNeeds | core/src/cleanup.rs:1143-1206 | Whatever others do, the checks pass if and only if the row is a restorable trashed one, the location and its recorded ancestors are authorized, no call failed, nobody cancelled around the measurement, and at the look the item was where it was left, with its contents |
| RestoreStops.MoveNeeds | core/src/cleanup.rs:1216-1229 | The item is moved back if and only if nobody cancelled, neither call failed, it still was exactly what the checks saw, and its place was free on the same device |
| RestoreStops.RestoresExactly | core/src/cleanup.rs:1143-1244 | A restore succeeds if and only if its row was read, the checks pass, and between two stored updates of the row the item seen then is moved |
| Restore.CheckDrift | core/src/cleanup.rs:1188-1197 | Undisturbed, a restorable item passes the checks exactly if it has the stored identity, or is a directory of which only the change time moved |
| Restore.MoveMoves | core/src/cleanup.rs:1216-1229 | One exclusive rename of the object just observed, or no change |
| Restore.AttemptEnds | core/src/cleanup.rs:1143-1244 | Every exit: success moves the trashed object back over no name, without credit, and ends restorability; a refusal before the move changes no file and no receipt; undisturbed it succeeds if and only if the operation is ready |
| Restore.UndoneByTurn | core/src/cleanup.rs:1211-1239 | Whether a stored `restoring` mark is left behind is decided before the call: it is taken back exactly if the turn met by the second update has no fault |
| Restore.BackTurnIsComing | core/src/cleanup.rs:1211-1239 | That turn is the eleventh, twelfth or thirteenth of those to come |
| Restore.TrashedAgain | core/src/cleanup.rs:1211-1239 | After a refusal before the move the row is as it was, and restorable after a restart, exactly if no `restoring` mark was stored or the coming turn met by the second update has no fault; undisturbed, always |
| Restore.MarkLeftBehind | core/src/cleanup.rs:1232-1239 | Any restorable item can be refused with the mark left behind, and a restart then makes it unrestorable |
| Restore.OnlyOnce | core/src/cleanup.rs:1146-1148 | What is not restorable is refused |
| Restore.RestoreRun.Examine | core/src/cleanup.rs:1143-1206 | The checks refine `Check` |
| Restore.RestoreRun.MoveBack | core/src/cleanup.rs:1216-1229 | The move refines `Move` |
| Restore.RestoreRun.Note | core/src/cleanup.rs:1212-1239 | One update of the operation's state refines `Mark` |
| Restore.RestoreRun.Restore | core/src/cleanup.rs:1143-1244 | The run refines `Attempt`, the restore as a function on the whole state |
| Restore.TrashThenRestore | core/src/cleanup.rs:991-1244 | Trash then restore: with the item's and the Trash directory left alone by others, exactly the original names again with the same object, no credit, and a second restore is refused; with nobody interfering the item is back if and only if Trash takes it and the authorization, the ancestors, the contents and its free place are there, and then each of the two directories that is guarded has exactly its original names |
| Restore.TrashReturns | core/src/cleanup.rs:1212-1226 | Whatever native Trash did within its bounds, the move back undoes it in both directories |
| Restore.RestoreTwice | core/src/cleanup.rs:1143-1244 | A restore of what Trash left, and another after it: the first keeps the receipt but for outcome and restorability and completes the original names, the second is refused; undisturbed the first succeeds exactly if the restore's own conditions hold |
| Restore.RenamedTrashWorks | core/src/cleanup.rs:991-1045 | A Trash that moves the staged item under a free name of another directory is accepted, and the move back is possible |
| Restore.BothLeftAlone | core/src/cleanup.rs:991-1244 | All conditions of both claims about Trash and restore hold together for a file trashed into a guarded directory |
| Restore.TrashFirst | core/src/cleanup.rs:991-1045 | A finished Trash leaves a restorable row with the object's identity and the recorded ancestors, and exactly the item's name gone; undisturbed, the file system is what native Trash left |
| Restore.Undoing | core/src/cleanup.rs:1143-1244 | A quiet restore of an undisturbed Trash succeeds exactly if the authorization, the ancestors, the contents and the free place are there |
| Restore.NamesAreBack | core/src/cleanup.rs:1212-1226 | The move back completes the names of the original directory |
| Grouping.GroupMembers | core/src/duplicates.rs:284-296 | Grouping yields exactly the group of every item |
| Grouping.GroupingIsUnique | core/src/duplicates.rs:472-476 | A list of groups is the grouping if and only if it has every item's whole group, in input order, ordered by first member |
| Buckets.MakeBuckets | core/src/duplicates.rs:282-296 | The linear search builds the size buckets in order of first appearance |
| Buckets.StableGroups | core/src/duplicates.rs:472-476 | The digest map, sorted by first ordinal, is the grouping in order of first appearance |
| Pipeline.AnswerIsNaive | core/src/duplicates.rs:297-426 | The pipeline's groups are exactly the eligible sets of usable copies with equal device and bytes, whatever the digests collide on and however early groups are pruned |
| Pipeline.SteadyAnswer | core/src/duplicates.rs:297-426 | When no file misbehaves the groups are the naive (device, bytes) classes with two members, not all keeper-only |
| Pipeline.AnswerDisjoint | core/src/duplicates.rs:413-424 | No input is in two groups and every group is worth offering |
| ExactComparison.WorkState.Checkpoint | core/src/duplicates.rs:121-129 | A checkpoint stops exactly for the cancellation or the deadline it meets |
| ExactComparison.WorkState.Validate | core/src/duplicates.rs:731-758 | Validation stops for a cancellation, and refuses exactly a file found changed or cut off |
| ExactComparison.WorkState.Reserve | core/src/duplicates.rs:131-142 | Reserving never passes the limit and charges exactly the bytes asked for |
| ExactComparison.WorkState.ReadFilled | core/src/duplicates.rs:689-718 | However short the reads are, a filled buffer is the chunk; a file that ends early is refused with its reservation still charged in full, and the signals are looked at before the chunk and before each read |
| ExactComparison.WorkState.Open | core/src/duplicates.rs:760-783 | One more input is open if it succeeds and none if it fails; inputs open and closed are counted, and never more than sixteen are open |
| ExactComparison.BatchBound | core/src/duplicates.rs:645-662 | A batch costs at most all its files, and exactly that if they are equal |
| ExactComparison.CostBound | core/src/duplicates.rs:561-598 | n equal files of size s cost exactly (n-1 + ceil((n-1)/15)) * s; arbitrary ones at most s times the anchors' work |
| ExactComparison.SteadyIsComparable | core/src/duplicates.rs:619-632 | A group of steady files of one size and distinct identities passes every comparison check |
| ExactComparison.CompareChunk | core/src/duplicates.rs:645-662 | One chunk marks exactly the peers that differ in it |
| ExactComparison.CompareBatch | core/src/duplicates.rs:645-662 | With early stops, the peers still marked equal are exactly those with the reference's bytes, at the exact cost |
| ExactComparison.ExactBatch | core/src/duplicates.rs:602-678 | A batch is decided exactly, or refused because a file is unsafe, stopped, or over budget |
| ExactComparison.Batches | core/src/duplicates.rs:569-593 | All batches against one reference give its class and the mismatches in input order |
| ExactComparison.ExactClasses | core/src/duplicates.rs:550-600 | The result is the byte-equality partition at its exact cost; unstopped, it is returned if and only if all files are comparable and the budget suffices |
| ExactComparison.VerifyStaged | core/src/duplicates.rs:870-954 | A staged copy passes only if both inputs are valid, independent, and the retained file has exactly its bytes; unstopped and within budget, if and only if; only the retained file stays open |
| DuplicateAnalysis.ValidateInputs | core/src/duplicates.rs:201-225 | Accepts exactly at most 500 valid inputs with distinct identities and paths |
| DuplicateAnalysis.SampleDigest | core/src/duplicates.rs:478-509 | Three windows at most, within the reservation; unsafe only for a file that is |
| DuplicateAnalysis.FullDigest | core/src/duplicates.rs:511-535 | Every byte once, within the reservation; unsafe only for a file that is |
| DuplicateAnalysis.Finalize | core/src/duplicates.rs:680-687 | Passes exactly if every member is still steady |
| DuplicateAnalysis.LeftOut | core/src/duplicates.rs:227-426 | What the levels of the pipeline leave out is exactly what fails in a phase it reaches: revalidation; sampling in an eligible size bucket; hashing in an eligible sample group; or any member's comparison or finalization in an eligible hash group |
| DuplicateAnalysis.Analysis.MarkSkipped | core/src/duplicates.rs:465-470 | Exactly this input is marked besides those that were, and the counter counts distinct skipped inputs |
| DuplicateAnalysis.BadGroupIsUnusable | core/src/duplicates.rs:381-400 | One unsafe member makes every member of its hash group unusable |
| DuplicateAnalysis.Analysis.HashGroup | core/src/duplicates.rs:354-424 | One hash group adds its eligible byte classes, or skips exactly its members, or stops |
| DuplicateAnalysis.Analysis.SampleGroup | core/src/duplicates.rs:326-353 | One sample group adds exactly what its hash groups yield and skips exactly what fails in it, or part of that when stopped |
| DuplicateAnalysis.Analysis.BucketGroup | core/src/duplicates.rs:298-325 | One size bucket adds exactly what its sample groups yield and skips exactly what fails in it, or part of that when stopped |
| DuplicateAnalysis.Analysis.Run | core/src/duplicates.rs:227-426 | A complete run gives the whole answer and skips exactly what is left out, a stopped one does so for the buckets it has finished; with budget and no signal it completes |
| DuplicateAnalysis.PrefixOfAnswer | core/src/duplicates.rs:429-454 | Every prefix of the answer is disjoint, eligible, and free of unusable inputs |
| DuplicateAnalysis.Analyze | core/src/duplicates.rs:227-454 | Stopped or complete: disjoint eligible groups without skipped inputs, a true skip count, reads within the limit, `cancelled` and `limited` only for a signal met or a spent read limit, and complete only if no cancellation was met at the two checkpoints of each input; complete: exactly what naive comparison would offer, and skipped is exactly what fails in a phase it reaches; stopped: the same for the buckets already done |
| ChunkedCoding.EncodedDecodes | core/src/docker_read.rs:490-528 | Any split of a body within the limit into chunks whose sizes are printed in hexadecimal decodes to the body |
| ChunkedCoding.DecodedIsEncoded | core/src/docker_read.rs:490-528 | Any accepted input is such an encoding, to its last byte |
| ChunkedCoding.DecodesExactly | core/src/docker_read.rs:490-528 | Both directions together, with the decoded bytes |
| ChunkedCoding.SizeExactly | core/src/docker_read.rs:496-507 | A size line is read as `n` if and only if it is `n` printed in hexadecimal, in either case, after any zeros, in at most sixteen digits |
| ChunkedCoding.NextChunk | core/src/docker_read.rs:494-526 | One turn of the loop takes exactly one well-formed chunk, the end, or refuses |
| ChunkedCoding.DecodeChunked | core/src/docker_read.rs:490-528 | The loop terminates and accepts exactly the encodings of bodies of at most 64 KiB |
| Utf8.DecodesEncoded | core/src/docker_read.rs:414-416 | Decoding undoes encoding, for every text |
| Utf8.EncodesDecoded | core/src/docker_read.rs:414-416 | Only encodings decode: no overlong form, no surrogate, no stray byte |
| DockerResponse.SplitJoin | core/src/docker_read.rs:414-418 | Splitting header text undoes joining its lines |
| DockerResponse.JoinSplit | core/src/docker_read.rs:414-418 | The lines of any text have no break in them, and joined again are the text |
| DockerResponse.DecimalExactly | core/src/docker_read.rs:451-462 | Digits are read as `n` if and only if they are `n` printed in decimal, after any zeros |
| DockerResponse.WellFormedExactly | core/src/docker_read.rs:434-447 | A header line has a name, of token characters only, before its first colon; any other is refused |
| DockerResponse.AddsExactly | core/src/docker_read.rs:434-473 | The header lines are taken exactly if each is well formed, each length is a length, nothing is content-coded, and no field repeats |
| DockerResponse.HeadExactly | core/src/docker_read.rs:414-488 | A head is read exactly from a status line with three digits, well-formed fields, one content type, and one of a length or `chunked`; it reports what is in them |
| DockerResponse.FirstBlank | core/src/docker_read.rs:386-390 | With no header line empty, the first blank line in the bytes is the one that ends the head |
| DockerResponse.MessageRead | core/src/docker_read.rs:386-412 | A message is split where its head ends, and its lines are read as they were written |
| DockerResponse.ResponseExactly | core/src/docker_read.rs:386-412 | Bytes deliver a payload if and only if they are a message with such a head, status 200 and JSON, whose length or whose chunks carry exactly the payload |
| DockerResponse.ParseHeaders | core/src/docker_read.rs:414-488 | The loop over header lines refines the fold over them, with every refusal |
| DockerResponse.FramingSwaps | core/src/docker_read.rs:451-486 | Replacing a length line by a chunked line, among any other lines, changes the framing and nothing else, or both heads are refused |
| DockerResponse.FormsAgree | core/src/docker_read.rs:386-412 | The bytes of a body sent with Content-Length and of the same body sent in any chunks are received alike, whatever the status line and the other (nonempty) header lines |
| DockerResponse.ParseResponse | core/src/docker_read.rs:386-412 | A payload is delivered exactly for the bytes of a message with a good head, status 200 and JSON, whose one framing carries it with nothing left over |
| DockerWire.LengthForm | core/src/docker_read.rs:386-412 | The bytes of `HTTP/1.1 200 OK`, a JSON content type, the length in decimal and any body within the limit deliver exactly that body |
| DockerWire.PrintedForm | core/src/docker_read.rs:386-412 | The bytes of the same head with `Transfer-Encoding: chunked`, and any cut of a body into nonempty chunks with their sizes printed in hexadecimal, deliver exactly that body |
| DockerWire.FieldRead | core/src/docker_read.rs:434-448 | A field written as a name of token characters, a colon, and a value with any white space around it is read as that name and value |
| DockerWire.TrimExactly | core/src/docker_read.rs:448 | Trimming removes the Unicode white space around a value and nothing else |
| DockerTransport.ReadResponse | core/src/docker_read.rs:308-333 | The response is everything received up to the close and at most 64 KiB, or nothing |
| DockerTransport.WriteAll | core/src/docker_read.rs:285-306 | What was sent is the prefix the socket took before its first failure, and success means it took everything |
| DockerTransport.UnusedWithinLogical | core/src/docker_read.rs:551-558 | The unused total is part of the logical total |
| DockerTransport.Accumulate | core/src/docker_read.rs:530-574 | Totals exist exactly for at most 256 valid records with distinct IDs whose sum fits, and are the true sums |
| DockerTransport.RecordExactly | core/src/docker_read.rs:541-549 | A record is valid if and only if its ID and type have between one and 512 or 128 bytes and no control character, and its description at most 4096 bytes and no NUL |
| Activity.AppNames | core/src/activity.rs:447-449 | Split at its last dot, a name is an application's if and only if `app` in any case follows it and something precedes it |
| Activity.IdentifierBytes | core/src/activity.rs:464-473 | An identifier is kept if and only if it is none of nothing, `.` and `..`, and its bytes are at most 1024 with no NUL and no slash among them |
| Activity.InUseExactly | core/src/activity.rs:307-310 | A location is in use if and only if a process works at it or below it or its program is there |
| Activity.OwnerExactly | core/src/activity.rs:410-418 | The owner runs if and only if one identifier is the known owner's or the location's last component |
| Activity.LessOrders | core/src/activity.rs:436-460 | The order in which bundles are read is a strict total order |
| Activity.Insert | core/src/activity.rs:455 | Inserting keeps the set sorted and adds exactly one element |
| Activity.AddBundles | core/src/activity.rs:445-458 | Exactly the enclosing application directories of one executable are added, if they fit |
| Activity.GatherBundles | core/src/activity.rs:432-458 | The directories of all executables, or a refusal for a bound, a relative path or a cancellation |
| Activity.Collect | core/src/activity.rs:427-478 | The valid identifiers of exactly the enclosing application directories, each read once and in order; no read when a bound is exceeded; unstopped it succeeds if and only if everything is within bounds and readable; a success asked for a cancellation once at each end, once for every executable and every directory around it, and before and after each reading, and met none |
| Activity.Snapshot.BlockedFor | core/src/activity.rs:307-423 | The cache gate is open only if every running application's identifier could be read and none owns the location; uncancelled, exactly if nothing uses the location and that holds, whether the identifiers were collected before or now |

## Findings

| property | input | exactly when it holds |
|---|---|---|
| Every name in the recovery directory has a committed row at every moment | `mkdirat` (core/src/cleanup.rs:322) returns no descriptor. Before the first look at the name another process points it at a directory of the same user with mode 0700 and a name in it; `create` accepts that directory: `RecoveryDirectory.DivertedIsAccepted` | In every run exactly if the item's directory is left alone by others: `RecoveryDirectory.OpensAheadExactly`; in one run exactly if the directory that was opened has only names with rows: `RecoveryDirectory.RowsKeptExactly`. No overwriting, no lost contents, only reviewed inodes unlinked and the alias count hold for whichever directory was opened, if others leave it alone: `Execute.CleanupRun.Execute` |
| A refused restore leaves the operation restorable | The checks pass, the user cancels before the move, and the update back to `trashed` (core/src/cleanup.rs:1233-1236) fails; the row stays `restoring` and the next start interrupts it: `Restore.MarkLeftBehind` | Exactly if no `restoring` mark is stored or the coming turn met by the second update has no fault; always when undisturbed: `Restore.TrashedAgain` |

## Left out

- Preflight policy: scope, eligibility, kinds and evidence are inputs of the request; `scanner.rs` decides them.
- Measurement traversal: a measurement is any list of entries; symbolic-link targets are not part of an entry here.
- Directory sizes and link counts: the model changes neither when entries come and go.
- Contents of files are not part of the file system: the bytes of a staged copy and of the retained file come with the request.
- Execute.CleanupRun.ValidateKeeper: what the last validation finds, just before the Trash, comes with the request.
- ExactComparison.ExactBatch: a read error that leaves the file's metadata unchanged is not modelled; a file that cannot be read at a byte was cut off there, so validation always finds it.
- Cancellation is asked anew at every checkpoint, so runs in which the flag is cleared again are covered as well.
- Progress callbacks and their throttling, phases, titles and messages.
- Window identifiers and storage domains come from outside, and so does the mount point's available space.
- Store.Store.Allocate: the total of credited bytes is unbounded, where SQLite's 64-bit integer would overflow.
- Private allocation queries, their buffers and `parse_private_metadata`: their answers are part of an inode.
- Candidate rows: discarding one is a database call that may fail, without a table behind it.
- ExactComparison.WorkState.Open: what makes a file unopenable or changed is not modelled, only when that is noticed.
- Digest and sample contents: the three windows are read and charged, the hash is any function of the bytes.
- JSON parsing: the records of a response are values here.
- Socket creation, peer checks, polling and descriptor flags in `docker_read.rs`.
- Activity.Snapshot.BlockedFor: the tables of executable names that write a cache are one input, `writer`.
- Snapshot capture, its age limit, process listing and property-list parsing in `activity.rs`.
- Scanning, discovery, recommendations, routes, `editor_review.rs`, the Swift application, the site and the benchmarks.
