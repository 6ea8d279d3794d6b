# Parvane: a verified model of the protocol's core

Parvane is a messenger whose devices keep shared containers (a planner, cloud drives) in step through a
server that sees only sealed operations. This project models in Dafny the parts of it that are hard to get
right, and proves what they are for. Each module follows one source file or one component; methods stand
where the source changes state, loops where it loops, and each is tied to a function that the theorems are
about.

## The replicated journal

`Lww` is the merged state: registers (object and field) in which the cell with the greatest stamp wins; its join
laws are the ground for everything else. `Guard` is the Lamport clock that refuses stamps too far ahead.
`Access` is the hash-chained log of grants folded into who may write in which epoch. `Journal` says what one entry
of the server's log does to a device, and what a retry, a snapshot and a local edit do. On these stand

- `Convergence`, `Timely`, `LateKeys`, `EachOperation`: the outcome of ingestion does not depend on how the journal
  arrives. With knowledge unchanged, or with every key there in time, the container is the same in every respect and for
  every clock. With keys that come late, cursor and merged state are the same, and the clock refuses nothing, exactly under
  a condition on the stamps of each epoch, which also decides operation by operation. `LateGrants`: exactly when an entry of
  the grant log learned late leaves a trace;
- `GrantLog`, `Rights`: what the log itself says - who stands in it at which level, who may write in which epoch, which
  entry may follow, which key share to believe - is what the fold says; and whatever a page, a retry or a snapshot holds,
  exactly what is somebody's right by the log is merged;
- `Accounting`, `DeviceLives`: each operation the cursor passed is applied, waiting or rejected, exactly one of these, over
  any life, attaching and restarts included; and each applied was its author's right by a log the device held then;
- `Snapshots`, `SnapshotRuns`, `SnapshotBounds`: snapshot plus tail is at or above full replay, and equal to it once the
  author's edits are in the journal, also when keys, grants and edits come before and after the snapshot; exactly when
  the clock and the epoch floor that a snapshot leaves out matter, and when a snapshot is taken at all;
- `Ingestion`, `Cloud`, `CloudClient`, `Planner`: the loops and the two clients. Their class invariants say that the
  access of every container is the replay of its stored log and that the waiting keys stay within their limits; saving
  and restoring is proved to lose nothing, exactly if the key ring fits the access.

## The other cores

`MediaSlots`, `RetireProgress`: callbacks against retiring threads, any number of threads and any nesting; that a retire
is safe, and exactly when it can end. `Varint`, `Wire`, `Codec`,
`Padding`: number and field encoding, the streaming frame decoder, the search for an exact padding. `DeliveryKey`,
`TokenStock`, `AnonPlanner`: delivery rights. `JniUtf`: UTF-16 and UTF-8. `History`: the order in which messages are
shown. `Sections`: plan queries answered from a published view. `Linking`: device linking against an arbitrary server.
`TgBot`: the limits of the Telegram bot.

## What is assumed

- Hashes are injective, signatures are a flag, an operation opens only under the key it was sealed with.
- The map from signing keys to their owners is a parameter that only grows: a key keeps its person and device, and
  further addresses of a person may become known (`KnowsMore`).
- A grant to a group covers nobody, as the client resolves groups. Of a message to a peer only matters whether it can
  be built.
- Clocks, random delays, fresh keys and the answers of servers are parameters.
- Any number of polls run on both devices of a linking. The devices' maps are protected by their lock, so a lock section
  is one step. A wrapped challenge opens only if one of the account's devices made it for that offer.
- A replace or undo may throw before or after it changed the plan. The provider of the plan makes operations of all edits
  it was handed before its state is taken over.

## Where the source does not keep a promise

Each of these has a lemma with a concrete input or an exact condition.

- The planner's restore loop (`client_planner.rs:519-527`) ends exactly for saved clocks that leave room for one more
  addition (`Guard.RestoreEndsIffThereIsRoom`). Above that it stalls; the cloud raises the clock directly.
- A key that comes late can make the clock refuse, for good, an operation that one pass applies
  (`Convergence.LateKeyCanLoseAnOperation`). It refuses none, however keys come, exactly if the operations of each epoch
  pass by themselves (`LateKeys.NoScheduleRefusesIff`; for a single operation, `EachOperation.NoScheduleRefusesItIff`); then
  late keys leave no trace (`LateKeys.Converges`).
- A grant entry learned after operations were passed leaves the device apart from one that knew it
  (`LateGrants.LateRotationDiverges`), exactly if it turns the verdict on one of them (`LateGrants.LateEntryIff`).
- A snapshot carries neither the epoch floor nor a clock beyond its stamps (`Snapshots.SnapshotForgetsTheEpochFloor`,
  `Snapshots.HiddenClockLosesAnOperation`); exactly when that matters: `SnapshotBounds.ForgottenFloorIff`,
  `SnapshotBounds.SnapshotServesIff`. The limit on its stamps counts operations while a clock may rise for each stamp:
  `SnapshotBounds.ManyStampsSnapshotIsRefused`, `SnapshotBounds.SnapshotAcceptedIff`.
- Attaching over a fork of equal length, or a planner attaching to a shorter log, keeps a key of an unknown epoch, which
  the next restart drops: `CloudClient.ForkOfEqualLengthLosesAKey`, `Planner.ShorterAnswerLosesAKey`. Nothing is lost exactly
  if each key is of an epoch the answered log knows (`CloudClient.AttachedComesBackIff`, `Planner.AttachedPlannerComesBackIff`).
- Padding stops at 8192 bytes only where a target is missed; an exact hit may be longer, exactly under the condition of
  `Padding.WithinLimitIff`: not with buckets of up to 4098 bytes (`Padding.SmallBucketsKeepTheLimit`), always with those
  beyond 8201 for the empty request (`Padding.LargeBucketsExceedTheLimit`).
- The bot's reader takes a message that is cut between fields or within the bytes of one, and only such:
  `Wire.CutIsReadIff`.
- A refused `plan` can leave a connection that the host was never told to open: `AnonPlanner.FailedPlanLeavesPhantomIff`.
- At the last 64-bit generation a rotation leaves peers with an old key: `DeliveryKey.RotationLiesIff`.
- A handle retired twice is not safe (`MediaSlots.TwoRetiresOfOneHandle`); the callers retire each once. Two objects
  retired from each other's callbacks wait for ever (`RetireProgress.CrossedRetiresWaitForEver`); a retire can end exactly
  if there is no such circle (`RetireProgress.RetireCanEndIffNotDeadlocked`).
- A replace or undo that throws leaves the edit counter up for good, so that all later queries take the slow way
  (`Sections.AfterALeakEveryQueryAsks`).
- An edit from the notes and an accepted offer are not counted, and a later query can miss them: in the view, and an offer,
  which goes by way of the provider, even through the queue (`Sections.QuietEditCanBeMissed`,
  `Sections.OfferCanBeMissedByTheQueue`). Exactly which answers miss them: `Sections.AnswerShowsIff`; what a query would have to
  check: `Sections.LookMissesNothingIff`.
- On the old device of a linking the poll of an earlier generation goes on beside the next one's. Then a device can get two
  codes, and a code from a key that was not pinned with the offer (`Linking.TwoGenerationsShowTwoCodes`,
  `Linking.UnpinnedKeyIsShown`). One code an offer holds exactly if each code shown is a repetition or the first, from a pinned
  key (`Linking.OneCodePerOfferIff`), which the source could check where it takes the key and where it notes the code as shown
  (`Linking.SeenIsExact`, `Linking.StillPinnedIsProper`).
- On the new device of a linking a poll that outlives its offer can have the next offer's grant opened under a code that
  nobody saw for its key (`Linking.StalePollOpensAnUnseenGrant`). Noting a challenge is safe exactly if the poll's key is
  still the offer's, which the source could check where it notes it (`Linking.NotingIsSafeIffKeyIsPresent`).

## Model

| member | source | states |
|---|---|---|
| Lww.MergeState | backend/protocol/src/domain/planner.rs:902-952 | merging a whole state register by register, in whatever order they are visited, gives the join of the two states |
| Lww.HoldsIsUnique | backend/protocol/src/domain.rs:873-897 | a state is determined by the set of writes it came from: order and repetition leave no trace |
| Lww.PutAllHolds | backend/protocol/src/domain.rs:887-897 | after any list of writes each register holds the greatest cell ever written to it, and no register appears that nobody wrote |
| Lww.LaterWriteStays | backend/protocol/src/domain.rs:876-897 | of two writes to a register the one with the later stamp stays, of one moment that of the later device, of one stamp a deletion, then the greater value; in either order the other leaves no trace |
| Lww.BeforeIsLexicographic | backend/protocol/src/domain.rs:876-885 | device names and values are ordered as words are |
| Lww.JoinHolds | backend/protocol/src/domain.rs:900-904 | the join of two states holds the writes of both |
| Lww.OrderOfWritesIsFree | conformance/README.md:1481-1483 | two lists of the same writes, in any order and with any repetitions, take a state to the same state |
| Lww.JoinCommutes | backend/protocol/src/domain.rs:900-904 | merging is commutative |
| Lww.JoinAssociates | backend/protocol/src/domain.rs:900-904 | merging is associative |
| Lww.JoinRepeatsFreely | backend/protocol/src/domain.rs:900-904 | merging the same state again changes nothing |
| Lww.JoinIsLeastUpperBound | backend/protocol/src/domain.rs:900-904 | the join is above both states and below every state that is above both |
| Lww.PutAllIsMonotone | backend/protocol/src/domain.rs:889-897 | a device that is ahead stays ahead after both take the same writes |
| Lww.PutAllStaysBelow | backend/protocol/src/domain.rs:889-897 | writes that a bound already covers do not carry a state beyond that bound |
| Guard.AheadAcceptsMore | backend/protocol/src/domain.rs:845-851 | a clock that is ahead accepts every operation a slower one accepts and stays ahead, also after a refusal that raised it part of the way |
| Guard.AcceptedRaisesExactly | backend/protocol/src/domain/planner.rs:1137-1142 | after an accepted operation the clock is no less than any of its stamps and is either what it was or one of them |
| Guard.EveryOrderPassesIffEachPassesFirst | backend/protocol/src/domain.rs:845-851 | a set of operations passes the clock in every order if and only if each of them would pass it first |
| Guard.OrderCanDecide | backend/protocol/src/domain.rs:845-851 | two operations that pass in one order and not in the other |
| Guard.TrailIsAStaircase | backend/protocol/src/client_planner.rs:519-527 | the restore loop climbs one jump a step and ends on the saved clock, never past it |
| Guard.TrailStalls | backend/protocol/src/client_planner.rs:519-527 | for a saved clock within one jump of the largest 64-bit number the loop comes to rest below it for ever |
| Guard.RestoreEndsIffThereIsRoom | backend/protocol/src/client_planner.rs:519-527 | the restore loop reaches the saved clock if and only if the saved clock leaves room for one addition |
| Guard.RestoreBySteps | backend/protocol/src/client_planner.rs:519-527 | the loop ends exactly at the saved clock, where the direct raise of the cloud ends, in at most the saved clock over a jump, rounded up |
| Access.ReplayOneMore | backend/protocol/src/domain.rs:545-551 | the access of a log with one more entry is one more step of the fold, errors included |
| Access.ReplayShape | backend/protocol/src/domain.rs:545-551 | the chain of hashes of a replayed access spells out the genesis and the log entry by entry; its epoch is at least one and at most one per entry, and no writers or boundaries belong to later epochs |
| Access.SameHeadSameLog | backend/protocol/src/domain.rs:558-562 | a head hash names one genesis and one log, so that two devices with one head share their whole history |
| Access.AcceptedMatchesHead | backend/protocol/src/domain.rs:771-791 | an accepted key share names an entry of our own chain, and one of the sender's addresses administers the container |
| Access.AcceptedSharerHoldsAPrefix | backend/protocol/src/domain.rs:756-791 | a key is accepted only from a sharer whose whole log is a prefix of ours, of the same genesis |
| Access.AcceptShare | backend/protocol/src/domain.rs:756-791 | an accepted share gives its own key under its own epoch, which is between one and that of the access |
| Access.FullReplayWithMoreAuthors | backend/protocol/src/domain.rs:545-551 | a log that replayed replays to the same access when more devices, or more addresses of their owners, are known |
| Access.WithinBoundaryAfter | backend/protocol/src/domain.rs:720-722 | after an entry an operation is within the boundaries if and only if it was and the entry does not cut it off |
| Access.VerdictMovesIff | backend/protocol/src/domain.rs:724-738 | an entry turns an accepted operation into a refused one if and only if it cuts it off, and a refused one into an accepted one if and only if it admits its author to that epoch |
| Access.BoundaryHoldsForever | backend/protocol/src/domain.rs:720-738 | what an epoch change cut off no extension of the log ever accepts |
| Access.RevokeShutsOut | backend/protocol/src/domain.rs:664-698 | a revocation opens an epoch in which the removed user has no level and cannot write, and changes nobody else's level |
| Access.RevokedStaysOut | backend/protocol/src/domain.rs:585-591 | nor can they in any later epoch of any extension that does not grant to them again |
| Access.LeaveShutsOut | backend/protocol/src/domain.rs:619-641 | who leaves has no level any more; nobody else's level changes, and the rights in the epochs so far stay |
| Access.LeftStaysOut | backend/protocol/src/domain.rs:619-641 | nor can they write in any epoch after the one they left in, in any extension of the log that does not grant to them again |
| GrantLog.LevelIsWhatTheLogSays | backend/protocol/src/domain.rs:564-582 | a user has a level if and only if they own the container, or were given that level by an entry of the log that no later entry about them follows; the epoch is one more than the revocations and rotations |
| GrantLog.WriterIsWhatTheLogSays | backend/protocol/src/domain.rs:585-591 | a user could write in an epoch if and only if they own the container, or a grant to write was given in that epoch or standing when it began |
| GrantLog.BoundaryIsWhatTheLogSays | backend/protocol/src/domain.rs:720-722 | an operation is within the boundaries if and only if no entry that began a later epoch declared one before it |
| GrantLog.EntryIsAcceptedIff | backend/protocol/src/domain.rs:600-698 | an entry is accepted after a log if and only if a known device signed it at the head, and it is the departure of somebody standing by themselves, or a rotation, revocation of somebody standing, or grant by somebody who administers, for the right epoch |
| GrantLog.LogIsValidIff | backend/protocol/src/domain.rs:545-551 | a log replays if and only if a device of its owner founded it and each entry might follow those before it |
| GrantLog.ShareIsJudged | backend/protocol/src/domain.rs:756-791 | a share is accepted, under its own epoch and with its own key, if and only if it comes from somebody who administers, on a beginning of this log, for an epoch there has been; and it is left for later if and only if only the log is not known to lead there |
| GrantLog.SharedKeyArrives | backend/protocol/src/domain.rs:740-791 | a key handed out on any beginning of our log by somebody who administers now is accepted with exactly its epoch and key |
| Rights.ChecksOutIff | backend/protocol/src/domain.rs:702-738 | the check of an operation succeeds if and only if it is authentic, its signer is known, some address of theirs could write in its epoch by the log, and no boundary cuts it off; it stops if and only if the epoch is yet to come |
| Rights.StopsIff | backend/protocol/src/client_cloud.rs:420-431 | a page stops at an operation if and only if its signer is unknown in strict intake, or else its epoch is yet to come |
| Rights.WritesAre | backend/protocol/src/client_cloud.rs:382-389 | what an operation writes are the registers of its valid changes, while the stamps of all its changes are checked |
| Rights.RestoresIff | backend/protocol/src/client_cloud.rs:837-856 | a saved container comes back if and only if its log is valid and its state bears stamps, and then as it was saved, the epoch floor forgotten |
| Rights.ValidCountIs | backend/protocol/src/client_cloud.rs:382-389 | an operation counts as many changes as it has valid ones |
| Rights.MergedIff | backend/protocol/src/client_cloud.rs:420-451 | at its turn an operation is merged if and only if it is so, its epoch is not behind, its key is here and the one it was sealed with, its stamps and files are the author's own, and the clock takes them; otherwise the state stays |
| Rights.PageWritesRightfully | backend/protocol/src/client_cloud.rs:414-463 | whatever a page holds: each register it changes holds a write of an operation of the page whose author had the right to it by the log, and none is lowered |
| Rights.RetryWritesRightfully | backend/protocol/src/client_cloud.rs:391-406 | the same of the operations that waited |
| Rights.RightfulIsMerged | backend/protocol/src/client_cloud.rs:414-463 | a rightful operation that a page brings in order and that opens at its turn is in the state the page leaves |
| Rights.RightfulIsMergedLater | backend/protocol/src/client_cloud.rs:391-406 | the same of one that waited, at its turn in the queue |
| Rights.SnapshotIsTakenIff | backend/protocol/src/domain/planner.rs:1123-1134 | a snapshot is taken if and only if its author could write there by the log, its key is here and the one it was sealed with, and its stamps are within the limit |
| Convergence.IngestFrame | backend/protocol/src/client_cloud.rs:414-463 | a page touches neither grants, access, keys nor the snapshot cursor |
| Convergence.PageAfterPages | backend/protocol/src/client_cloud.rs:420-423 | after any stretch was taken in, a page that leaves no gap leaves the whole container that one longer stretch would have left |
| Convergence.CutsDoNotMatter | backend/protocol/src/client_cloud.rs:414-463 | with knowledge unchanged, any cutting, overlapping and repeating leaves the very container - clock and queue included - of a single page; no condition on the clock |
| Convergence.StrictNeedsNoForesight | backend/protocol/src/client_cloud.rs:424-430 | a strict page takes in only operations whose verdict survives learning any further authors |
| Convergence.LateKeyCanLoseAnOperation | backend/protocol/src/client_cloud.rs:391-406 | a concrete journal in which a late key makes the clock refuse an operation that one pass applies |
| Convergence.LateGrantKeepsVerdictIff | backend/protocol/src/domain.rs:702-738 | the exact condition on one verdict: the entry neither cuts the operation off nor lets its author in |
| Timely.ConvergesWithKeysInTime | backend/protocol/src/client_cloud.rs:391-463 | if no operation ever waited for its key, every run of pages, stops and learning ends in exactly the container of one pass, clock and epoch floor included, whatever the clock |
| Timely.WalkWithMore | backend/protocol/src/client_cloud.rs:391-463 | knowledge that changes no verdict, and keys nothing waited for, would have made no difference had they come earlier |
| LateKeys.PageAlong | backend/protocol/src/client_cloud.rs:414-463 | a page without gaps moves the device along its course: cursor, epoch floor, waiting queue and merged writes are those of the stretch taken in, and the clock refuses none of it |
| LateKeys.LearnAlong | backend/protocol/src/client_cloud.rs:391-406 | learning grants, authors or keys and retrying what waited leaves the device at its place: what the new keys open is merged, exactly the rest keeps waiting, and the clock refuses none of it |
| LateKeys.EditAlong | backend/protocol/src/client_planner.rs:345-355 | a local edit adds its writes, stamped with the next tick, and nothing else |
| LateKeys.RunAlong | backend/protocol/src/client_cloud.rs:391-463 | the same over every fair run of pages, stops, learning and edits |
| LateKeys.Converges | backend/protocol/src/client_cloud.rs:391-463 | any pages with overlaps, any stops, any learning of grants, authors and keys, any local edits: at the end of the journal with nothing waiting, cursor and floor are those of one pass with everything known and the state is that pass's together with the edits, if the operations of each epoch pass the clock by themselves |
| LateKeys.NoScheduleRefusesIff | backend/protocol/src/client_cloud.rs:391-463 | the clock refuses no operation in any order of keys, pages and stops if and only if those of each epoch, with those whose keys were there from the start, pass it in the order of the journal |
| LateKeys.SamePlaceSameWrites | backend/protocol/src/client_cloud.rs:391-463 | two devices at the end of one course, nothing waiting, have the same cursor and floor and differ by their edits alone |
| EachOperation.NoScheduleRefusesItIff | backend/protocol/src/client_cloud.rs:391-463 | the same for each operation by itself, whatever becomes of the others: no order of keys, pages, stops and edits makes the clock refuse it if and only if it passes after those before it of its own epoch and of the epochs known from the start |
| EachOperation.LearnOnWay | backend/protocol/src/client_cloud.rs:391-406 | a retry with new keys opens those of an epoch that were waiting with a clock no lower than they make alone, so it takes the one in question, whichever others were refused |
| LateGrants.TurnsIff | backend/protocol/src/domain.rs:702-738 | for every operation that could be judged, whatever its signature or container: the verdict moves exactly if the entry turns it, and then to its opposite |
| LateGrants.UnturnedIsEarly | backend/protocol/src/client_cloud.rs:355-380 | an entry that turns nothing behind the cursor leaves no trace of having come late: container for container the device is the one that knew it |
| LateGrants.LateEntryIff | backend/protocol/src/client_cloud.rs:355-463 | cursor and state after a late entry are those of a device that knew it from the start if and only if it turns no operation behind the cursor that the order of epochs would let pass, for operations that leave a mark of their own |
| LateGrants.LateRotationDiverges | backend/protocol/src/client_cloud.rs:355-463 | a real rotation with a boundary, learned after an operation beyond it was taken in: same cursor, nothing waiting, different state |
| Accounting.LifeBalances | backend/protocol/src/client_cloud.rs:414-491 | over any sequence of pages, retries, merges, edits, learning: the operations passed are those applied, waiting or rejected, each once, and the state holds the writes of the applied ones, the snapshots and the edits and nothing else |
| Accounting.ExactlyOneFate | backend/protocol/src/client_cloud.rs:414-463 | in every reachable state an operation the cursor passed is in exactly one of applied, waiting and rejected |
| Accounting.EpochsNeverGoBack | backend/protocol/src/client_cloud.rs:432-438 | the epochs of accepted operations never decrease along the journal |
| Accounting.PageTakesNext | backend/protocol/src/client_cloud.rs:420-423 | a page moves the cursor over the next operations of the journal, none skipped, none twice |
| Accounting.TakenIsWhatLiesBehind | backend/protocol/src/client_cloud.rs:414-463 | over any life without snapshots the operations passed are exactly those at or below the cursor |
| Accounting.StopStaysShort | backend/protocol/src/client_cloud.rs:426-456 | a stop leaves the cursor below an operation of the page that still cannot be taken, and reports that there is more |
| Accounting.ReportTells | backend/protocol/src/client_cloud.rs:414-463 | the report of a page gives the cursor, the number of changes merged, the epoch of the last operation that had to wait, if any, and whether and why the page was not taken in to its end |
| Accounting.MergeMoves | backend/protocol/src/client_cloud.rs:466-491 | a refused snapshot changes nothing; a taken one joins its state and raises the clock to its stamps; cursors come up to it unless it broke off, and never fall |
| Accounting.EditWins | backend/protocol/src/client_planner.rs:345-355 | after a local edit each register it wrote holds its fresh stamp, whatever was seen before, and the others are as they were; a refused edit leaves the state alone |
| Accounting.StampingKeepsValues | backend/protocol/src/client_planner.rs:345-355 | stamping an edit changes stamps alone: the same registers and values in the same order |
| DeviceLives.AppliedWasRightful | backend/protocol/src/client_cloud.rs:355-463 | over any life of pages, retries, attaching, restarts, snapshots and edits, every operation applied was its author's right by a grant log the device held when it judged it |
| DeviceLives.AttachingIsAnEvent | backend/protocol/src/client_cloud.rs:281-316 | what the cloud's attaching leaves of a container is the event the accounts balance over |
| DeviceLives.PlannerAttachingIsAnEvent | backend/protocol/src/client_planner.rs:167-199 | and so is what the planner's attaching leaves |
| DeviceLives.AttachingLosesNothing | backend/protocol/src/client_cloud.rs:301-316 | every operation that waited when a device attached still waits, was applied, or was rejected |
| DeviceLives.UnlockingIsLearning | backend/protocol/src/client_cloud.rs:326-350 | going through the waiting keys is the event of learning them |
| DeviceLives.RestartingIsAnEvent | backend/protocol/src/client_cloud.rs:820-856 | a restart is the event that forgets the epoch floor, and nothing else but keys |
| Snapshots.CleanOperationKeepsClockShown | backend/protocol/src/domain/planner.rs:1137-1142 | operations whose changes are all valid leave no gap between the clock and the stamps a snapshot shows |
| Snapshots.ClockGrowsByJumps | backend/protocol/src/domain/planner.rs:1123-1134 | with one stamp an operation the clock rises by at most a jump per place of the cursor |
| Snapshots.OneStampSnapshotsAreAccepted | backend/protocol/src/domain/planner.rs:1123-1134 | so every snapshot of such a device is within what any other device's clock accepts |
| Snapshots.HiddenClockLosesAnOperation | backend/protocol/src/client_planner.rs:376-391 | where the author's clock is beyond its stamps, the device that started from the snapshot can refuse an operation full replay merges |
| Snapshots.SnapshotForgetsTheEpochFloor | backend/protocol/src/client_cloud.rs:466-491 | an operation of an older epoch right after a snapshot is merged by the device that started there and refused by full replay |
| Snapshots.SnapshotPlusTailIsAbove | backend/protocol/src/client_planner.rs:376-391 | with knowledge unchanged, a device that merges a snapshot and takes in the later operations ends at or above full replay with the same cursor, if its merged clock is no less than that of full replay |
| Snapshots.SnapshotPlusTailEqualsReplay | backend/protocol/src/client_planner.rs:322-342 | and equal to it, once the author's edits are in the journal, for every receiver whose state was below |
| Snapshots.SnapshotForLaggingDevice | backend/protocol/src/client_planner.rs:322-342 | in particular for one that had taken in a part of the journal itself |
| Snapshots.LifeStaysAhead | backend/protocol/src/client_planner.rs:275-355 | with knowledge unchanged, a device that takes in a stretch of the journal and edits in between stays at or above one that only takes it in |
| SnapshotRuns.SnapshotRunEqualsReplay | backend/protocol/src/client_planner.rs:275-391 | author and receiver take in pages, learn grants, authors and keys, wait for keys and edit, before and after: at the end the receiver has the cursor of full replay, its state together with both devices' edits, and just its state once those are in the journal |
| SnapshotBounds.MergesAsMuchIff | backend/protocol/src/domain.rs:845-851 | for every tail one device merges all that another at the same place merges if and only if its clock reaches as far |
| SnapshotBounds.SnapshotServesIff | backend/protocol/src/client_planner.rs:322-342 | a receiver merges whatever full replay merges, in every tail, if and only if the greater of its clock and the snapshot's greatest stamp reaches as far as the clock of full replay |
| SnapshotBounds.ForgottenFloorIff | backend/protocol/src/client_cloud.rs:432-438 | the forgotten epoch floor changes what passes of a tail if and only if an operation that checks out, of an epoch left behind, comes before any of the present one |
| SnapshotBounds.SnapshotAcceptedIff | backend/protocol/src/domain/planner.rs:1123-1134 | a snapshot otherwise in order is taken if and only if its greatest stamp is within the limit |
| SnapshotBounds.ClockGrowsBySteps | backend/protocol/src/domain/planner.rs:1123-1142 | a clock rises by at most a jump for each different stamp of the operations taken in |
| SnapshotBounds.FewStampsAreWithinTheLimit | backend/protocol/src/domain/planner.rs:1123-1134 | with no more different stamps than places of the journal behind the cursor every receiver's limit is kept |
| SnapshotBounds.ManyStampsSnapshotIsRefused | backend/protocol/src/domain/planner.rs:1123-1134 | at every place of the journal far enough for a snapshot, one operation with one stamp more than there are places is taken in, the snapshot is due, and a new device refuses it |
| Ingestion.CheckStamps | backend/protocol/src/domain/cloud.rs:680-685 | the loop over the stamps of an operation, with what was raised before a refusal staying raised |
| Ingestion.MergeChanges | backend/protocol/src/domain/planner.rs:887-899 | the loop over the changes merges the valid ones, skips the others and counts |
| Ingestion.OpenOne | backend/protocol/src/client_cloud.rs:382-388 | decrypting, decoding, stamp checks and merging come to the opening the fold uses, and the count reported is that of the changes merged |
| Ingestion.TakePage | backend/protocol/src/client_cloud.rs:414-463 | the ingestion loop leaves the container and the report of the page fold that convergence and accounting are proved about |
| Ingestion.RetryWaiting | backend/protocol/src/client_cloud.rs:391-406 | the retry loop leaves the container of the fold over the waiting operations |
| Ingestion.RetryLeavesOnlyKeyless | backend/protocol/src/client_cloud.rs:391-406 | after a retry only operations without a key wait, and only queue, clock and state changed |
| Ingestion.PageKeepsFaith | backend/protocol/src/client_cloud.rs:414-463 | taking in a page keeps the access equal to the replay of the stored log, and every stored stamp sound |
| Ingestion.RingOfSaved | backend/protocol/src/client_cloud.rs:820-835 | saving and loading the key ring keeps exactly the keys of the epochs the access knows |
| Ingestion.RestoreCloud | backend/protocol/src/client_cloud.rs:837-856 | restoring recomputes the access by replay and fails if the stored log does not replay |
| Ingestion.RestorePlanner | backend/protocol/src/client_planner.rs:506-531 | the same with the clock restored in steps, for every saved clock on which the steps end |
| Ingestion.RestoreUndoesPersistIffKeysFit | backend/protocol/src/client_cloud.rs:820-856 | saving and restoring gives back the container - no key, grant or waiting operation lost, only the epoch floor - if and only if the ring holds no key of an epoch the access does not know |
| Cloud.GiveAccess | backend/protocol/src/client_cloud.rs:598-667 | succeeds exactly when the caller may grant and the messages can be built, and then the user has the level asked for and nobody else another; on any failure the container is as before; an editor made a reader cannot write in the epoch that begins with it |
| Cloud.ChangeEpoch | backend/protocol/src/client_cloud.rs:690-705 | succeeds exactly for an administrator holding the present key; levels stay, those who hold the right write in the new epoch, its key is new, its boundary at the cursor |
| Cloud.TakeAway | backend/protocol/src/client_cloud.rs:671-687 | succeeds exactly if an administrator removes someone with a grant; the member has no level and is out from the new epoch on, all others keep theirs |
| Cloud.NamesAre | backend/protocol/src/client_rename.rs:95-99 | the addresses of a person are the present one and all its aliases |
| Cloud.MyNameIs | backend/protocol/src/client_rename.rs:102-110 | the address a person acts under is the first of theirs that owns the container or stands in its log, and the present one only if none does |
| CloudClient.TakenGrantsReplay | backend/protocol/src/client_cloud.rs:355-378 | whatever a server sends, the stored log grows by entries that replay on it and the epoch does not go down |
| CloudClient.GrantsCatchUp | backend/protocol/src/client_cloud.rs:355-378 | a page of the grant log that overlaps ours and continues it brings us to its end |
| CloudClient.GrantsAreTakenIff | backend/protocol/src/client_cloud.rs:361-376 | an entry is taken if and only if it may follow our log; one that does not link is passed over, the planner passes over any other too, the cloud stops at it |
| CloudClient.IngestEntries | backend/protocol/src/client_cloud.rs:361-376 | the loop over the entries: those that do not link are skipped, a failing one ends it and keeps those before |
| CloudClient.KeptIsUndecided | backend/protocol/src/client_cloud.rs:335-349 | a share stays in the queue if and only if its container is not here, or it comes from somebody who administers on a log that ours has not come to |
| CloudClient.RingHoldsTheLatest | backend/protocol/src/client_cloud.rs:340-345 | each slot of the ring holds the key of the last accepted share for its epoch, as it was sent, or what it held if there is none |
| CloudClient.RingHoldsTrusted | backend/protocol/src/client_cloud.rs:326-334 | the same of one's own exported keys |
| CloudClient.KeptIsUnusable | backend/protocol/src/client_cloud.rs:326-334 | exactly those of them stay that no container here can use yet |
| CloudClient.UnlockedKeepsFaith | backend/protocol/src/client_cloud.rs:326-350 | going through the waiting keys keeps access, log and ring in order; exactly the operations without a key wait on, in order, the others were tried and wrote what was rightful; cursors and floor stay, the clock is not set back, no slot is emptied |
| CloudClient.AbsorbingKeepsFaith | backend/protocol/src/client_cloud.rs:326-350 | the three passes over waiting keys together do that for every container, within the limits of the queue |
| CloudClient.KeptWithinQuota | backend/protocol/src/client_cloud.rs:20-23 | going through the queue keeps every sender and all strangers within their limits |
| CloudClient.QueuedWithinQuota | backend/protocol/src/client_cloud.rs:734-758 | a share is queued if and only if its sender and all strangers stay within their limits |
| CloudClient.ExtendingLogKeepsKeys | backend/protocol/src/client_cloud.rs:281-316 | attaching to a server log that extends ours keeps every key within the epochs of the access |
| CloudClient.ForkOfEqualLengthLosesAKey | backend/protocol/src/client_cloud.rs:298-312 | attaching to a different log of the same length can leave a key that the next restart drops |
| CloudClient.ExtendedIsFaithful | backend/protocol/src/client_cloud.rs:598-705 | a grant, rotation or revocation keeps the access equal to the replay of the stored log |
| CloudClient.RestartLosesNothing | backend/protocol/src/client.rs:3812-3841 | a saved and restarted client has every container back as it was, epoch floors forgotten, even if it meanwhile knows more devices |
| CloudClient.Client.IngestSync | backend/protocol/src/client_cloud.rs:414-463 | one container moves by the page fold, which changes its registers to writes that were their authors' right by the log alone; the others do not move; the client stays in order |
| CloudClient.Client.IngestSnapshot | backend/protocol/src/client_cloud.rs:466-491 | one container moves by the checked merge that raises the clock last, the others do not; the client stays in order |
| CloudClient.Client.IngestGrants | backend/protocol/src/client_cloud.rs:355-380 | grants are caught up, then the waiting keys gone through; nothing changes when device logs are missing |
| CloudClient.Client.AbsorbPendingKeys | backend/protocol/src/client_cloud.rs:326-350 | every container takes the waiting keys it accepts, the queues keep exactly the rest |
| CloudClient.Client.AcceptKey | backend/protocol/src/client_cloud.rs:734-775 | a share is ignored, queued within the limits, refused, or accepted: then the slot of its epoch holds its key, all others are as they were, and what waited is retried |
| CloudClient.Client.Create | backend/protocol/src/client_cloud.rs:251-275 | a new container in its first epoch, the others untouched |
| CloudClient.Client.Attach | backend/protocol/src/client_cloud.rs:281-316 | genesis, log and access become the server's; the cursors stay, the clock is not set back, no key goes, exactly the operations without a key wait on in their order, and the others wrote only what was rightful; a longer log of our own is kept; key rings in order stay so if and only if each key of the container is of an epoch the answered log knows |
| CloudClient.AttachedComesBackIff | backend/protocol/src/client_cloud.rs:281-316 | the container attached, with the keys that waited, comes back whole from the next restart if and only if each of its keys was of an epoch between one and that of the replayed answer |
| CloudClient.Client.Forget | backend/protocol/src/client_cloud.rs:319-323 | the container goes with exactly the keys waiting for it |
| CloudClient.WithoutIs | backend/protocol/src/client_cloud.rs:319-323 | of both queues exactly what is for that container goes |
| CloudClient.Client.GrantAccess | backend/protocol/src/client_cloud.rs:598-639 | exactly when a grant succeeds; then the user has the level asked for and nobody else another; a failure changes nothing at all |
| CloudClient.Client.RotateKey | backend/protocol/src/client_cloud.rs:690-705 | exactly when a rotation succeeds, and the epoch change it makes |
| CloudClient.Client.RevokeAccess | backend/protocol/src/client_cloud.rs:671-687 | exactly when a revocation succeeds; the removed user is out of every epoch from then on, and nobody else's level changes |
| CloudClient.Client.RequestSnapshot | backend/protocol/src/client_cloud.rs:531-546 | a snapshot is written only when due, with nothing waiting, and is the whole state at the cursor |
| CloudClient.Client.Save | backend/protocol/src/client_cloud.rs:820-835 | every container is saved |
| CloudClient.Client.Restored | backend/protocol/src/client_cloud.rs:837-856 | a restarted client holds the containers that restore, in order |
| Planner.ShorterAnswerLosesAKey | backend/protocol/src/client_planner.rs:167-199 | the planner attaches to a shorter log than its own and then loses the key of its newest epoch on restart |
| Planner.OpenedKeepsFaith | backend/protocol/src/client_planner.rs:204-228 | going through the waiting keys keeps the planner in order and leaves waiting only what has no key |
| Planner.Client.Create | backend/protocol/src/client_planner.rs:137-162 | a planner is created once, in its first epoch |
| Planner.Client.IngestSync | backend/protocol/src/client_planner.rs:275-319 | the planner moves by the page fold that never stops for unknown authors, and takes only writes that were their authors' right by the log |
| Planner.Client.IngestSnapshot | backend/protocol/src/client_planner.rs:322-342 | the planner moves by the checked merge that raises the clock first |
| Planner.Client.PrepareLocal | backend/protocol/src/client_planner.rs:345-355 | a local edit: one fresh stamp, merged at once; a refused edit moves only the clock |
| Planner.Client.IngestGrants | backend/protocol/src/client_planner.rs:230-242 | entries that do not apply are passed over, then the waiting keys gone through |
| Planner.Client.AbsorbPendingKeys | backend/protocol/src/client_planner.rs:204-228 | the planner takes the waiting keys it accepts; the queues keep those that cannot be judged |
| Planner.Client.Attach | backend/protocol/src/client_planner.rs:167-199 | exactly when attaching succeeds; that the cursors stay, the clock is not set back, no key goes and exactly the operations without a key wait on; and that the key ring is in order afterwards if and only if each key is of an epoch the answered log knows |
| Planner.AttachedPlannerComesBackIff | backend/protocol/src/client_planner.rs:167-199 | the same of the planner and its restart |
| Planner.Client.AcceptKey | backend/protocol/src/client_planner.rs:413-442 | a share is ignored, queued, refused, or accepted: then the slot of its epoch holds its key, all others are as they were, and what waited is retried |
| Planner.SentWaitsIff | backend/protocol/src/client_planner.rs:216-226 | a share stays in the planner's queue if and only if it comes from somebody who administers on a log that ours has not come to |
| Planner.OwnWaitsIff | backend/protocol/src/client_planner.rs:204-215 | an exported key stays if and only if it is for this container and of an epoch not known yet |
| Planner.RingHoldsSent | backend/protocol/src/client_planner.rs:216-226 | each slot of the planner's ring holds the key of the last accepted share for its epoch, or what it held |
| Planner.RingHoldsOwn | backend/protocol/src/client_planner.rs:204-215 | the same of one's own exported keys |
| Planner.Client.RotateOnRevoke | backend/protocol/src/client_planner.rs:446-460 | a new epoch and key, or nothing when the present key is missing, or an error that changes nothing |
| Planner.Client.RequestSnapshot | backend/protocol/src/client_planner.rs:376-391 | a snapshot is written only when due, with nothing waiting, and is the whole state at the cursor |
| Planner.Client.Restart | backend/protocol/src/client_planner.rs:486-531 | saving and restoring loses nothing but the epoch floor, for every saved clock on which the restore ends |
| MediaSlots.StepKeepsInv | android/jni/media_slots.h:27-66 | every step of every thread keeps: each object's counter is the number of its unfinished callbacks over all threads, handles are never reused, each thread's list is its stack of running callbacks |
| MediaSlots.RunKeepsInv | android/jni/media_slots.h:27-66 | so does every run, with any number of threads, nested callbacks and retires from inside callbacks |
| MediaSlots.StepKeepsCounts | android/jni/media_slots.h:54-60 | a callback that finishes after its object is gone touches no other object's counter |
| MediaSlots.WaitEndsIff | android/jni/media_slots.h:33-36 | a waiting retire may end if and only if no other thread is inside a callback of its object, whatever its own thread is nested in |
| MediaSlots.RetireIsSafe | android/jni/media_slots.h:27-38 | if each handle is retired once, then from the end of the retire on no other thread is ever inside a callback of that object |
| MediaSlots.GoneForGood | android/jni/media_slots.h:42-48 | an object that is gone is never entered again |
| MediaSlots.OthersOnlyLeave | android/jni/media_slots.h:27-60 | while a retire waits, the others' unfinished callbacks on its object never increase and each that leaves lowers them by one |
| MediaSlots.OthersOnlyLeaveOver | android/jni/media_slots.h:27-60 | the same over any run of the other threads |
| MediaSlots.TwoRetiresOfOneHandle | android/jni/media_slots.h:27-38 | a run in which a handle is retired twice and one retire ends while another thread is inside |
| MediaSlots.Registry.AddObject | android/jni/media_slots.h:19-24 | the object comes in under a handle never used before, uncounted and alive |
| MediaSlots.Registry.EnterCallback | android/jni/media_slots.h:42-50 | the callback is counted exactly if the object is there and not being retired |
| MediaSlots.Registry.MarkDead | android/jni/media_slots.h:27-32 | no new callback finds the object; there is something to wait for exactly if it was there |
| RetireProgress.RetireCanEndIffNotDeadlocked | android/jni/media_slots.h:27-66 | a waiting retire can be brought to its end by steps of the other threads if and only if its thread is in no set of threads of which each waits for an object another one is inside of |
| RetireProgress.RetireEndsIfNoOtherWaits | android/jni/media_slots.h:27-66 | in particular if no other thread inside the object waits in a retire itself |
| RetireProgress.CrossedRetiresWaitForEver | android/jni/media_slots.h:33-36 | a run from the start, each handle retired once, to two threads that wait for each other, after which no step is left to anyone |
| Varint.ReadUndoesEncode | backend/infra/telegram-bot/parvane_tg_bot.py:150-185 | reading undoes encoding, whatever bytes follow, for every number that fits the allowed length |
| Varint.ReadOfPrefix | backend/protocol/src/codec.rs:138-152 | a reader that lacks the end of an encoding asks for more and never errs |
| Varint.SizeIs | backend/protocol/src/codec.rs:110-116 | an encoding takes at most k bytes if and only if the number is below 128 to the k |
| Varint.BytesOfEncoded | backend/protocol/src/codec.rs:110-116 | the bytes of an encoding: seven bits each, the lowest first, all but the last marked |
| Varint.ReadTooLong | backend/protocol/src/codec.rs:138-152 | a number of more bytes than the reader may use is refused |
| Varint.WriteVarint | backend/infra/telegram-bot/parvane_tg_bot.py:150-160 | the bot's encoder writes the encoding of its argument reduced to 64 bits |
| Varint.ReadBytes | backend/infra/telegram-bot/parvane_tg_bot.py:175-185 | the byte-by-byte loop reads what the recursive reader reads |
| Wire.Fields | backend/infra/telegram-bot/parvane_tg_bot.py:188-208 | the reader's loop reads what the field-by-field reader reads |
| Wire.FixedIsRead | backend/infra/telegram-bot/parvane_tg_bot.py:188-208 | fixed fields of eight or four bytes are read over with their length |
| Wire.OtherKindsAreRefused | backend/infra/telegram-bot/parvane_tg_bot.py:188-208 | a field of any other kind is refused, and only such for its kind |
| Wire.ReadFieldUndoesEncode | backend/infra/telegram-bot/parvane_tg_bot.py:163-172 | a field that was written is read back, and the reader moves by its length |
| Wire.ReadingUndoesWriting | backend/infra/telegram-bot/parvane_tg_bot.py:163-208 | a message that was written is read back field by field |
| Wire.CutWithinField | backend/infra/telegram-bot/parvane_tg_bot.py:188-208 | a message cut within a field is reported as too short, unless a field of bytes keeps its length: then that field is read shorter, and last |
| Wire.CutBetweenFields | backend/infra/telegram-bot/parvane_tg_bot.py:188-208 | a message cut between two fields is read as the fields before |
| Wire.CutIsReadIff | backend/infra/telegram-bot/parvane_tg_bot.py:188-208 | a cut message is read without an error if and only if the cut is between two fields or within the bytes of one; every other cut is reported |
| Codec.PeekOfStream | backend/protocol/src/codec.rs:138-152 | on the beginning of any stream of frames the length prefix is never refused, unknown only for at most three bytes, and is that of the next frame |
| Codec.LengthIsRefusedIff | backend/protocol/src/codec.rs:138-152 | any length at the head of the buffer is refused if and only if it is beyond the largest frame |
| Codec.TakeOfStream | backend/protocol/src/codec.rs:155-163 | a complete frame at the head of the buffer is the next frame sent, and the rest is the rest of the stream |
| Codec.DecodingFollowsTheStream | backend/protocol/src/codec.rs:119-164 | under every interleaving of pushes and takes the decoder gives out the frames in order, once each, and holds the bytes still owed |
| Codec.DecodingUndoesFraming | backend/protocol/src/codec.rs:110-164 | no error for pieces of at most the largest frame and two bytes; once all has arrived and been taken, all frames are out and the buffer is empty |
| Codec.PushFailsIff | backend/protocol/src/codec.rs:129-136 | a piece of a valid stream is refused if and only if the buffer would pass its limit while the length is still unknown |
| Codec.LargerPiecesCanFail | backend/protocol/src/codec.rs:129-136 | the bound on the pieces is exact |
| Codec.DrainedBufferIsBounded | backend/protocol/src/codec.rs:129-163 | a caller that drains before each push holds less than a frame, its prefix and a piece |
| Codec.TcpDecoder.Push | backend/protocol/src/codec.rs:129-136 | takes the bytes, or refuses them and changes nothing, as the stream theorem's push does |
| Codec.TcpDecoder.PeekLen | backend/protocol/src/codec.rs:138-152 | the loop over the prefix bytes decides as the stream theorem's reader does |
| Codec.TcpDecoder.NextFrame | backend/protocol/src/codec.rs:155-163 | gives out the next frame if it is all there, as the stream theorem's take does |
| Padding.PaddedLength | backend/protocol/src/codec.rs:68-82 | the length of the padded frame, both length prefixes accounted for |
| Padding.PaddedGrows | backend/protocol/src/codec.rs:76-88 | it grows strictly, and by at least the padding and two bytes |
| Padding.Search | backend/protocol/src/codec.rs:76-88 | the descending search finds the padding for a target whenever one exists, and only then |
| Padding.EncodeRequestPadded | backend/protocol/src/codec.rs:68-93 | the result is a frame of this request with the padding that reaches the first reachable one of the two next multiples |
| Padding.OneOfTwoBucketsFits | backend/protocol/src/codec.rs:68-93 | of the next two multiples of 1024 one is reachable, across every jump of both length prefixes |
| Padding.BucketsOf1024 | backend/protocol/src/codec.rs:68-93 | with buckets of 1024 the frame is always a multiple of 1024, never beyond the second, and its padding within the schema's limit |
| Padding.PaddingChangesNothingElse | proto/parvane/core/v2/frame.proto:84-101 | a reader of the padded frame finds the request's own fields |
| Padding.OnlyThePaddingField | proto/parvane/core/v2/frame.proto:84-101 | and differs from the original only in a padding field of zeros |
| Padding.WithinLimitIff | backend/protocol/src/codec.rs:68-96 | the padding keeps to the limit if and only if the multiple it goes up to is no longer than the frame with as much padding as allowed |
| Padding.SmallBucketsKeepTheLimit | backend/protocol/src/codec.rs:68-96 | buckets up to half the limit and two more never exceed it, whatever the request |
| Padding.LargeBucketsExceedTheLimit | backend/protocol/src/codec.rs:89-96 | buckets beyond 8201 bytes exceed it for the empty request whenever they pad it at all |
| DeliveryKey.NoShareNeededMeansPresentKey | backend/protocol/src/access.rs:64-122 | over every run without saturation, whoever needs no share was last given the present key |
| DeliveryKey.NoShareNeededIff | backend/protocol/src/access.rs:64-122 | a peer needs no share exactly from the moment it was given the key until the key changes or the peer is forgotten |
| DeliveryKey.StepIs | backend/protocol/src/access.rs:64-122 | a rotation takes the next generation and keeps the recipients not excluded; a sent key is adopted exactly for a later generation within 1024; nothing else moves key or generation |
| DeliveryKey.GenerationIsBounded | backend/protocol/src/access.rs:33-35 | a step raises the generation by at most 1024 and never lowers it |
| DeliveryKey.NewKeyStaysHonest | backend/protocol/src/access.rs:64-122 | from a new key on that holds for every run of fewer than 2^54 steps |
| DeliveryKey.RotationLiesIff | backend/protocol/src/access.rs:104-112 | a rotation leaves a peer with an old key and no need if and only if the generation is the last one and the peer was up to date and not excluded |
| DeliveryKey.OwnDeliveryKey.RotateKey | backend/protocol/src/access.rs:104-112 | new key, next generation; those returned are exactly the earlier recipients not excluded |
| DeliveryKey.OwnDeliveryKey.AdoptKey | backend/protocol/src/access.rs:114-122 | adopted exactly for a key of the right length and a later generation within the jump; else nothing changes |
| TokenStock.NextRefillIsTomorrow | backend/protocol/src/access.rs:136-139 | the next refill falls into the first six hours of the next day |
| TokenStock.AtMostOneBatchADay | backend/protocol/src/access.rs:213-227 | for any clock readings and delays the days of the batches strictly increase |
| TokenStock.Stock.Prune | backend/protocol/src/access.rs:176-179 | exactly the tokens that last stay, in order; the others are on record as expired |
| TokenStock.Stock.RetainKeys | backend/protocol/src/access.rs:182-185 | exactly the tokens of listed keys stay, in order; the others are on record as retired |
| TokenStock.Stock.Take | backend/protocol/src/access.rs:200-206 | one of those that expire first among those that last, none only if none lasts, and the rest of the stock stays |
| TokenStock.RunKeepsAccounts | backend/protocol/src/access.rs:154-237 | over every run of receiving, putting back, pruning, retiring and taking: what came in is in stock or left, each token as often as it came, and each that left was spent while it lasted, expired, or lost its key |
| TokenStock.SpentWasReceived | backend/protocol/src/access.rs:154-237 | over every run from the empty stock a token is spent at most as often as it was received or put back unsent, those in stock not counted |
| AnonPlanner.OneRecipientPerRequest | backend/protocol/src/access.rs:283-301 | a delivery is for a user if and only if it has envelopes and all are for that user |
| AnonPlanner.OtherRequests | backend/protocol/src/access.rs:283-301 | an envelope for a group is for that group; what does not decode or names nobody is refused with its reason; only other requests are for everyone |
| AnonPlanner.Planner.AssignConn | backend/protocol/src/access.rs:311-328 | reuses the first fitting connection or opens one with a new number, as in the run theorems |
| AnonPlanner.Planner.Plan | backend/protocol/src/access.rs:330-332 | the requests assigned in turn; after a refusal those before it stay assigned |
| AnonPlanner.Planner.Closed | backend/protocol/src/access.rs:342-344 | exactly that connection goes |
| AnonPlanner.RunKeepsSound | backend/protocol/src/access.rs:303-349 | over every run each use is by the recipient the connection was opened for, within the series, and after its opening |
| AnonPlanner.OneConnectionOneRecipient | backend/protocol/src/access.rs:303-349 | two assignments with one connection are for one target, never a public one; a connection is answered as open only if it was handed out and neither closed nor expired since |
| AnonPlanner.FailedPlanLeavesPhantomIff | backend/protocol/src/access.rs:330-332 | a plan that is refused leaves a connection nobody was told to open if and only if the recipient had none and is among the requests before the refused one |
| AnonPlanner.Planner.Expired | backend/protocol/src/access.rs:335-340 | exactly the connections still in their series stay, and exactly the others are reported |
| JniUtf.FromJava | android/jni/jni_utf.h:16-38 | the loop over the units writes the encodings of their scalar values |
| JniUtf.ToJava | android/jni/jni_utf.h:40-56 | the loop ends on any bytes, reads none beyond the end and gives the units of the specification |
| JniUtf.AllUtf8IsWellFormed | android/jni/jni_utf.h:32-35 | what is written is well-formed by the syntax of section 4 of RFC 3629 |
| JniUtf.ScalarsRepair | android/jni/jni_utf.h:23-31 | the scalar values read are those of the string with each unpaired surrogate replaced |
| JniUtf.JavaStringsComeBackRepaired | android/jni/jni_utf.h:16-56 | to UTF-8 and back changes exactly the unpaired surrogates |
| JniUtf.BytesComeBackIffWellFormed | android/jni/jni_utf.h:16-56 | bytes survive the way to Java and back if and only if they are well-formed |
| History.PlaceByTime | android/jni/jni_history.cpp:317-335 | the method - early return, walk from the end, insertion - gives the placed list |
| History.PlacedIsPermutation | android/jni/jni_history.cpp:317-335 | no row is lost or doubled |
| History.EachIndexOnce | android/jni/jni_history.cpp:317-335 | as places in the list, too |
| History.PlacedIsClose | android/jni/jni_history.cpp:317-335 | no row exceeds the time of the next by more than the window |
| History.OnlyTheFarOlderMove | android/jni/jni_history.cpp:317-335 | two rows change their order only if the earlier-listed one is more than the window newer |
| History.UnmovedIffClose | android/jni/jni_history.cpp:317-335 | the list comes out as it is if and only if it was close already |
| History.NothingToMove | android/jni/jni_history.cpp:320-323 | the early return agrees with the insertion loop |
| History.PlacingTwiceIsPlacingOnce | android/jni/jni_history.cpp:317-335 | placing again changes nothing |
| History.OrderOfArrivalDoesNotMatter | android/jni/jni_history.cpp:904-925 | a batch and a replay from the store show the same list, whatever order the operations came in |
| Sections.StepKeepsInv | android/jni/jni_sections.cpp:1221-1251 | every step keeps: the counter is the number of edits counted and not through plus those leaked; each edit queued is in exactly one of the queue, the worker, the provider, the plan and the failed ones; the view lacks only counted edits under way |
| Sections.ZeroMeansAllSeen | android/jni/jni_sections.cpp:1347-1355 | a zero counter means that every counted edit queued so far is in the view or failed |
| Sections.EveryAnswerReflectsTheEditsBeforeIt | android/jni/jni_sections.cpp:1333-1407 | over every run, by the view or through the queue, an answer shows a counted edit queued before its query read the counter exactly if the edit does not fail; the counter is never below the edits outstanding |
| Sections.AnswerShowsIff | android/jni/jni_sections.cpp:1333-1407 | over every run, for every kind of edit: an answer from the view shows an edit if and only if the view was stored between its application (an offer: its return from the provider) and the look; an answer through the queue shows each edit queued before that does not fail, an offer if and only if it has come back |
| Sections.LookMissesNothingIff | android/jni/jni_sections.cpp:1347-1358 | a look at the view misses no edit that is not counted if and only if none is waiting, under way or with the provider, and the plan beyond the view holds counted ones alone |
| Sections.QuietEditCanBeMissed | android/jni/jni_sections.cpp:1347-1358 | a run in which an edit from the notes is in the plan and a later query does not see it |
| Sections.OfferCanBeMissedByTheQueue | android/jni/jni_sections.cpp:1376-1398 | a run in which an accepted offer is with the provider and a later query is answered without it, although through the queue |
| Sections.Hub.LoadCounter | android/jni/jni_sections.cpp:1347 | the query may look at the view exactly if the counter is zero |
| Sections.Hub.LookAtView | android/jni/jni_sections.cpp:1348-1358 | an answer from the view, or none if nothing is published |
| Sections.AfterALeakEveryQueryAsks | android/jni/jni_sections.cpp:1232-1250 | once a replace or undo threw, before or after the plan changed, or an edit was not reached, no query looks at the view that reads the counter afterwards |
| Linking.OneCodePerOffer | android/jni/jni_account.cpp:249-376 | over every run of any number of polls, declines, grants and resets in which each code is shown properly: a device gets at most one code between its disappearances, from a key pinned with the commitment it matches, a challenge made here serves one code, and a grant goes only to the key whose code was shown and not declined |
| Linking.OneCodePerOfferIff | android/jni/jni_account.cpp:249-433 | against any server, with any number of polls of any generations under way: over the whole run each device has at most one code between its disappearances, from a pinned key, if and only if each code is a repetition or the first one and from a key pinned with the offer |
| Linking.StepIsRightIff | android/jni/jni_account.cpp:353-360 | at any point of any such run, a step keeps to that if and only if it shows no code or shows it properly |
| Linking.SeenIsExact | android/jni/jni_account.cpp:298-308 | for a key made here, whether it is pinned with the offer is exactly what the poll could see where it took the key out of the map |
| Linking.StillPinnedIsProper | android/jni/jni_account.cpp:353-358 | a first code is proper if, where the source notes it as shown, the key is still in the map with the commitment of the offer |
| Linking.TwoGenerationsShowTwoCodes | android/jni/jni_account.cpp:505-535 | a run from nothing: a poll outlives a reset, the poll of the next generation takes up another offer of the device, and both show a code without a disappearance in between |
| Linking.UnpinnedKeyIsShown | android/jni/jni_account.cpp:296-358 | a run from nothing: a poll took a key for one commitment, a second poll pins another, and the first shows a code from a key that was never pinned with it |
| Linking.RunKeepsInv | android/jni/jni_account.cpp:249-433 | every run of any number of polls, declines, grants and resets keeps: each challenge key is on record as pinned with the noted commitment, the key of each poll is on record with its offer if the poll saw so, and with another if it did not, a key made here is pinned with one offer, and what a grant is sealed to is the key shown |
| Linking.SkippedIff | android/jni/jni_account.cpp:215-226 | over every run a poll passes over an offer, without a trace, if and only if its device was declined for that very commitment and neither a disappearance nor a reset nor another refusal came since |
| Linking.CheckedAtOnceIsProper | android/jni/jni_account.cpp:336-360 | the check lets an offer through exactly for the pinned commitment, its key and no second key; for a poll that saw its key pinned the code is then proper unless something comes before it is shown |
| Linking.WhatIsForgotten | android/jni/jni_account.cpp:215-294 | exactly what a grant, a refusal, a disappearance and a reset forget of a device, and that they touch no other |
| Linking.PollsTouchTheirOwn | android/jni/jni_account.cpp:296-360 | a poll changes only what is known of the device of its offer |
| Linking.ShownCanBeGranted | android/jni/jni_account.cpp:353-376 | once its code has been shown and while the challenge is there, a device can be granted, to the key shown and under that challenge |
| Linking.OldDevice.DropGoneOffers | android/jni/jni_account.cpp:276-294 | exactly the offers that are gone are forgotten, with the windows to close |
| Linking.OldDevice.LookAt | android/jni/jni_account.cpp:296-308 | a declined offer is skipped, a new commitment voids the challenge |
| Linking.OldDevice.CheckOffer | android/jni/jni_account.cpp:336-351 | a code may be shown exactly for the pinned commitment, its key, and no second key |
| Linking.OldDevice.NoteShown | android/jni/jni_account.cpp:352-360 | the code is shown only the first time |
| Linking.OldDevice.DeclineOffer | android/jni/jni_account.cpp:215-226 | the pinned commitment is noted as declined, and challenge, pin and revealed key go |
| Linking.OldDevice.ForGrant | android/jni/jni_account.cpp:364-376 | a grant is possible exactly with a challenge and a shown key |
| Linking.OfferBeginsAndEnds | android/jni/jni_account.cpp:117-183 | an offer begins with its key alone, and is over when it is withdrawn, reset or granted, the first two leaving nothing of it |
| Linking.NothingShownUntilTheNextOffer | android/jni/jni_account.cpp:117-183 | once it is over no code is shown and no poll begins until a new offer is made |
| Linking.NewDevice.ReadForPoll | android/jni/jni_account.cpp:121-130 | what the poll will go by |
| Linking.NewDevice.NoteChallenge | android/jni/jni_account.cpp:156-173 | challenge and code are noted together unless the offer is over |
| Linking.NewDevice.TakeGrant | android/jni/jni_account.cpp:174-182 | a grant is opened exactly under the challenge the poll goes by |
| Linking.OpenedUnderTheShownCode | android/jni/jni_account.cpp:117-209 | over every run, with any number of polls under way: if challenges are noted for the present key only, each grant is opened with a key and under a challenge whose code was shown |
| Linking.NotingIsSafeIffKeyIsPresent | android/jni/jni_account.cpp:156-173 | at any point of any such run, a poll may note whatever challenge the server sends without a later grant going unseen if and only if its key is the present offer's |
| Linking.StalePollOpensAnUnseenGrant | android/jni/jni_account.cpp:121-183 | a run in which an offer is withdrawn and made anew under a poll, and the grant of the second is opened while the only code shown is for the key of the first |
| Linking.OneCodeOneGrant | android/jni/jni_account.cpp:117-209 | if moreover a challenge is noted once only, each offer has one code, and each grant is under the code of its own offer |
| Linking.AfterKeepsSound | android/jni/jni_account.cpp:156-173 | the challenge of an offer then never changes once set, and the code shown is that of its key and challenge |
| Linking.RevealGoesRightIff | android/jni/jni_account.cpp:156-173 | noting a challenge keeps to one code an offer, for the present key, if and only if the poll's key is present and no challenge was noted before |
| TgBot.KeyReplies.KeyReplyAllowed | backend/infra/telegram-bot/parvane_tg_bot.py:386-400 | allowed exactly if the user was asked lately and fewer than six replies of all passed ever were within the last minute, though only recent times are remembered |
| TgBot.KeyReplies.NoteAsked | backend/infra/telegram-bot/parvane_tg_bot.py:325-334 | the ask is remembered, and the record of replies stays right |
| TgBot.RecentOfRecent | backend/infra/telegram-bot/parvane_tg_bot.py:386-400 | forgetting what is too old now forgets nothing that counts later |
| TgBot.StillSpaced | backend/infra/telegram-bot/parvane_tg_bot.py:386-400 | in no window of a minute were more than six replies passed on |
| TgBot.Waiting.Purge | backend/infra/telegram-bot/parvane_tg_bot.py:455-458 | exactly the requests younger than their lifetime stay |
| TgBot.LiveAre | backend/infra/telegram-bot/parvane_tg_bot.py:455-458 | a request stays if and only if it is within its lifetime |
| TgBot.Waiting.AddRequest | backend/infra/telegram-bot/parvane_tg_bot.py:501-507 | at most one oldest request of this user and then at most one oldest of all give way, each only at its limit; the new one is added |

## Left out

- LateKeys.Converges: a grant or author learned late is required not to change the verdict on operations already passed; `LateGrants` has what comes of it otherwise, for one entry and with the keys at hand.
- EachOperation.NoScheduleRefusesItIff: says which operations no schedule refuses, not which ones every schedule refuses, nor when two different fates leave the same state.
- LateGrants.LateEntryIff: one late entry, with keys in hand and nothing waiting; the states differ for operations that leave a register of their own; where a later write covers all that an operation wrote, its verdict cannot show.
- Snapshots.SnapshotPlusTailIsAbove: knowledge does not change during the author's life; `SnapshotRuns` has lives in which it does.
- Snapshots.SnapshotPlusTailEqualsReplay: as above, and for operations that neither the clock nor the epoch order refuses.
- SnapshotRuns.SnapshotRunEqualsReplay: under the condition of `LateKeys` on the clocks, and if no operation of an old epoch comes first after the snapshot; `SnapshotBounds` says exactly when that is needed.
- Snapshots.SnapshotForLaggingDevice: knowledge does not change while the device takes in its part.
- Snapshots.LifeStaysAhead: the same for the lives it compares.
- Accounting.TakenIsWhatLiesBehind: for lives without a merged snapshot, which moves the cursor over operations it never saw.
- Planner.Client.Restart: demands a saved clock on which the restore loop ends; elsewhere the source does not return.
- Linking.OneCodePerOffer: requires that codes are shown properly, which the source does not check; `Linking.OneCodePerOfferIff` says that this is exactly what is needed.
- Linking.OpenedUnderTheShownCode: requires that challenges are noted for the present key, which the source does not check; `Linking.NotingIsSafeIffKeyIsPresent` says that this is exactly what is needed.
- Linking.OneCodeOneGrant: requires moreover that a challenge is noted once for an offer; `Linking.RevealGoesRightIff` likewise.
- Sections.AnswerShowsIff: no account switch, which clears the view; a query that gives up after its timeout has no answer; an edit stays in the plan once it is there, though another device may undo it, an undo takes back what it undoes, and the provider may refuse it.
- Padding.LargeBucketsExceedTheLimit: about the empty request; `Padding.WithinLimitIff` decides every other.
- MediaSlots.RetireIsSafe: each handle is retired once, as its only caller does.
- That the scheduler runs every thread: a retire is shown to be able to end, not when it does.
- The object behind a handle of `media_slots.h` and its null check; the condition variable, of which only the awaited condition is modelled.
- The fields of tasks, events, nodes and their limits: a change is valid or not, and writes registers. The cloud's tree - parents, cycles, names - and its stamping of batches are not part of this model; a file's uploader is.
- Cloud tombstones that expire after 90 days: a snapshot here is the whole state.
- Size limits of operations and snapshots, which are a flag where they matter; sealing, hashing and the JSON of saved state.
- Sharing keys with one's own devices and with members, `cloud_leave`, export and import of keys, the loop that rotates all containers after a device is revoked: they send messages and call the members modelled here.
- Parts of the journal's source that only read: sizes, JSON for the interface, lists of containers.
- Grants to groups, and the group journal.
- 64-bit overflow of times, of the delay added to a refill, of connection numbers, and of a length plus a bucket near the word size.
- Locks of `TokenStock` and `AnonPlanner`, which their host holds; low-stock and batch-size hints.
- Files, sockets, the receipts queue and its durability, read marks and deletions in the history; ids of messages are numbers here.
- Recovery through Telegram, the key bundle and the contents of a linking grant.
- The bot's test for the look of a recovery key, the choice among several open requests, its network calls, and the grouping of fields by number.
