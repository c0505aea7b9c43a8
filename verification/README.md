# A verified model of crm-bisync

crm-bisync keeps records of two peers (CRMs, billing systems) in step. It polls each peer from a
watermark, receives webhooks, recognises its own echoes, finds the counterpart of a record, resolves
what changed on both sides, and writes the result through an idempotency cache, a per-record lock and a
rate limiter, on top of a crash-safe file store. This project models those protocols in Dafny and proves
what each of them promises over every input, every interleaving and every run.

| module | component | main theorems |
|---|---|---|
| `Watermark` | poll, submit, commit, advance | `NoRecordIsSkipped`, `QuietCycleHandlesEverything`, `CommitIsSafeIff` |
| `FileStore`, `LineCodec` | append-only log, snapshot rename, recovery | `FileRefinesMem`, `AcknowledgedPutSurvives`, `CommandCrash`, `TornTail`, `RecoveryIsIdempotent` |
| `Reconcile`, `RetryLoop`, `HalfWrites`, `StuckPairs`, `Conflict` | a linked pair: resolve, write, record | `LoopStops`, `LoopStopsUnderFailures`, `LeftWritesUnboundedIff`, `LoopEndsInTheMerge`, `ResolutionMeans`, `NoSilentlyLostEdit`, `FieldLevelIsThreeWayMerge` |
| `CreatePath`, `DeletePath`, `Idem` | creating and deleting a counterpart | `CreatesAreSpaced`, `EchoNeverCreatesBack`, `DropOnlyAfterDelete`, `RelinkIsSafeIff` |
| `KeyedMutex`, `WorkQueue` | per-record lock, queue, retries | `LockIsExclusiveAndLeavesNothing`, `WorkIsConserved`, `OutcomesDecide` |
| `Identity` | key and owner index | `MatchIff`; `Resolver.Candidates` equals a full scan |
| `Store`, `OverlayStore` | memory store, dry-run overlay | `StepMirrorsIff`, `OverlayIsFlatCopy` |
| `Origin`, `RateLimit` | echo log, token bucket | `OwnWriteIsRecognised`, `VerdictIgnoresSweeps`, `QuotaIsKept`, `NobodyWaitsLonger` |
| `Mapping`, `Digest`, `Ordering` | dotted paths, digests, sorting | `RoundTripIff`, `DecodeInvertsEncode`, `SnapshotHashDecidesFields` |

How the model reads the code:

- A SHA-256 digest is its own preimage, so two digests are equal exactly when the hashed bytes are. A
  joined key such as `connector NUL kind NUL id` is a tuple.
- A value is a canonical value: numbers and times carry the text the program renders them to.
- Time is an integer number of units, or a real number of seconds in the token bucket; the clock, random
  draws and peers' answers are parameters or steps of a run.
- Code that works by changing fields is a class whose methods are proved against a function on values; the
  theorems over runs are about those functions. A protocol between workers, peers and crashes is a state
  machine whose steps are the points at which another party can interleave.
- The file store's line encoding is any codec that round-trips and writes no newline;
  `LineCodec.SoundCodecExists` exhibits one.

Where the code does not meet what its comments or design suggest, the model follows the code, and the
exact condition is proved:

- An expiry at the Unix epoch is written to the log as "no expiry", and one that does not fit 64 bits of
  nanoseconds as some other instant; the file store and the memory store differ on these expiries and on no
  others (`FileStore.CommandMatchesMemIff`).
- `Stop` releases the handles of tasks nobody processed, although its comment calls the watermark safe; a
  commit that follows moves the mark over them (`Watermark.CommitAfterStopSkips`). Whether a commit is safe
  is decided by the poll's own unhandled records alone (`Watermark.CommitIsSafeIff`).
- Deleting locks on the reference and every other task on the identity fingerprint, so a link made anew
  before the drop, or between its two row deletions, is removed (`DeletePath.RelinkedDropRemovesLiveLink`,
  `DeletePath.RelinkedSecondRowIsLost`; exact condition in `DeletePath.RelinkIsSafeIff`).
- Reconciling with a counterpart that is gone drops the link and also the record's own index entry. If the
  response of the create that follows is lost, the echo creates a second source record
  (`CreatePath.DeletionLetsEchoCreateBack`); and a source record that was deleted is made again by an event of
  its copy (`CreatePath.DeletedSourceIsCreatedBack`). The exact condition is `CreatePath.EchoCreatesIff`.
- A per-field decision that writes both sides and fails on the second is not retried as decided: the left
  side may then look unchanged and be overwritten (`HalfWrites.HalfWriteFlipsTheWinner`; exact condition in
  `HalfWrites.HalfWriteKeepsTheDecisionIff`).
- An overlay entry that expires lets a live base entry show through (`OverlayStore.ReadsAgreeIff`), and a
  sweep then forgets it was written (`OverlayStore.StepMirrorsIff`).
- While the right side keeps failing, a null the left side already holds can be sent to it once per key
  lifetime, without limit (`HalfWrites.NullsWithoutLimit`; exact condition on the pair in
  `StuckPairs.LeftWritesUnboundedIff`, and never when the right side has every mapped field).
- A per-field policy sends null for a field its winner lacks, a whole-record policy leaves it out
  (`Conflict.PerFieldPushesNull`).
- Mapped paths round-trip for all canonical values exactly when none is a dotted prefix of another
  (`Mapping.RoundTripIff`); the mapper's own validation does not ask for that.

`dafny verify dfyconfig.toml` checks the whole project.

## Model

| member | source | states |
|---|---|---|
| Watermark.NoRecordIsSkipped | internal/engine/poll.go:44-137 | over every run of edits (each stamped at most the overlap below the highest stamp shown), deletions, overlapping polls, webhooks, retries, commits, crashes and stops (a stopped engine commits nothing before it restarts), every current version nobody has handled is in what the next poll reads, and the mark never moves back |
| Watermark.StepKeepsInv | internal/engine/poll.go:44-137 | each single step keeps the protocol's invariant and never lowers the mark |
| Watermark.CommitStep | internal/engine/poll.go:128-137 | once all tasks of a poll are over, its commit steps over nothing that is pending |
| Watermark.InitialInv | internal/watermark/watermark.go:53-61 | an empty engine satisfies the invariant, whatever the overlap |
| Watermark.QuietCycleHandlesEverything | internal/engine/poll.go:181-196 | if nobody edits between a read and its commit, everything current at the commit has been handled, whatever else happened in between |
| Watermark.CommitIsSafeIff | internal/engine/poll.go:128-137 | stopped or not, a commit keeps every unhandled version readable if and only if none that its own poll read lies further below the new mark than the overlap; an engine that was not stopped always meets this |
| Watermark.TwoEditsAreMade | internal/engine/poll.go:44-117 | two edits from an engine that knows nothing, inside the invariant |
| Watermark.ReadThenSubmitThenStop | internal/engine/queue.go:172-187 | from there a read, a submit and a stop that releases two unprocessed handles |
| Watermark.ReadThenStopThenSubmit | internal/engine/queue.go:68-81 | a poll submitted after the stop has its handles released at once, which is the same state |
| Watermark.CommitAfterStopSkips | internal/engine/queue.go:172-187 | the commit after that stop loses a version: unhandled, and not read again |
| Watermark.LateStampIsNeverRead | internal/watermark/watermark.go:86-92 | a version stamped further back than the overlap is read by no poll after any run, unless the record is edited again |
| Watermark.ReadPages | internal/engine/poll.go:44-117 | the events are, page by page and in page order, exactly the changed records and then the deletions each page lists, as many as all pages report together; the mark is the largest stamp among the records; the poll fails exactly when a page cannot be fetched, or when another page is announced after the page bound |
| Watermark.LastPage | internal/engine/poll.go:62-117 | the page the loop stops at: missing, one too many, or the last, completing the result |
| Watermark.PageInOrder | internal/engine/poll.go:72-102 | each page's records and then its deletions stand at the position the pages before it add up to |
| Watermark.NoneIsDropped | internal/engine/poll.go:72-102 | a change is among the events if and only if some page read lists it, as a record or as a deletion |
| Watermark.PageHighest | internal/engine/poll.go:72-93 | the running maximum over a page's stamps, missing stamps not counting |
| Watermark.Overlap | internal/watermark/watermark.go:64-78 | the overlap configured, or two minutes; for a peer with coarse timestamps at least five |
| Watermark.Advanced | internal/watermark/watermark.go:108-126 | the mark never moves back and never past the page's largest stamp or the clock, and it reaches the earlier of the two |
| Watermark.Highest | internal/watermark/watermark.go:131-142 | the largest non-zero stamp, zero when there is none |
| Watermark.Tracker.constructor | internal/watermark/watermark.go:53-61 | no marks yet |
| Watermark.Tracker.Since | internal/watermark/watermark.go:86-92 | the mark less the overlap, which is five minutes for a peer nobody configured and at least that for a coarse one; nothing before the first poll |
| Watermark.Tracker.Advance | internal/watermark/watermark.go:108-126 | this pair's mark becomes the larger of itself and the earlier of the stamp and the clock; every other mark is untouched |
| Watermark.Tracker.Reset | internal/watermark/watermark.go:156-158 | forgets one mark only |
| FileStore.FileRefinesMem | internal/store/file.go:87-490 | over any run of commands, crashes at any byte and reopens, the store holds what a memory store that never crashed holds after the same finished commands and, for each interrupted one, all, nothing, or some of a sweep's removals |
| FileStore.AcknowledgedPutSurvives | internal/store/file.go:87-490 | once a put has been acknowledged its entry is there after any run of commands, crashes at any byte and reopens in which nobody writes the key again or sweeps after its expiry, and a get answers with it exactly until it expires |
| FileStore.AcknowledgedRemovalSurvives | internal/store/file.go:364-404 | once a delete or a take has been acknowledged, the key stays gone through any such run until somebody puts it again |
| FileStore.SweepKeepsTheUnexpired | internal/store/file.go:456-490 | what a sweep logs leaves exactly the entries that do not expire or expire later, unchanged |
| FileStore.CommandCrash | internal/store/file.go:221-315 | wherever Put, Delete, Take, Sweep or compaction is cut, recovery yields the state after a prefix of that command's log operations, and all of them at the last disk state |
| FileStore.CompactCrash | internal/store/file.go:256-315 | in all four windows of a compaction, including the new snapshot with the full old log, recovery yields the live data |
| FileStore.CommandCompletes | internal/store/file.go:221-315 | a finished command leaves memory equal to what recovery would rebuild, with no loose end in the log |
| FileStore.CommandMatchesMemIff | internal/store/file.go:203-239 | a finished command changes the data as the memory store would if and only if it is not a Put whose expiry is the Unix epoch or does not fit 64 bits of nanoseconds |
| FileStore.ExpiryRoundTripsIff | internal/store/file.go:345-361 | an expiry written as 64-bit nanoseconds reads back as itself if and only if it is none, or neither zero nor out of range |
| FileStore.ReplayTwiceIsOnce | internal/store/file.go:156-218 | replaying a log on top of its own result changes nothing |
| FileStore.LastOperationDecides | internal/store/file.go:203-218 | after a replay each key holds what the last operation on it says, or what was there before |
| FileStore.TornTail | internal/store/file.go:156-198 | every byte-prefix of a written log reads back as its longest run of whole records, and the good length is exactly their length |
| FileStore.ParseTruncated | internal/store/file.go:156-198 | cutting any log to its good bytes keeps every record and leaves nothing more to cut |
| FileStore.RecoveryIsIdempotent | internal/store/file.go:127-198 | for any disk, recovery leaves a clean log, and recovering again changes neither data nor disk |
| FileStore.SnapshotRoundTrip | internal/store/file.go:127-150 | loading the snapshot that was written gives back the data |
| FileStore.FreshStoreConsistent | internal/store/file.go:87-123 | an empty directory is a sound start |
| FileStore.ReplayLog | internal/store/file.go:156-198 | the line-by-line loop applies exactly the readable records and counts exactly their bytes |
| FileStore.LoadSnapshot | internal/store/file.go:127-150 | the loop over the snapshot, in any order, rebuilds its data |
| FileStore.File.Open | internal/store/file.go:87-123 | memory is the recovered data and the disk is truncated to the readable records |
| FileStore.File.Append | internal/store/file.go:221-239 | one more line on disk, passing through every byte-prefix of it |
| FileStore.File.WriteSnapshot | internal/store/file.go:256-315 | snapshot replaced, log emptied, passing through the four compaction states in order |
| FileStore.File.Mutate | internal/store/file.go:248-253 | one operation appended, applied, and compacted when due, through exactly the modelled disk states |
| FileStore.File.Get | internal/store/file.go:331-342 | some value if and only if the key is stored with it and does not expire or expires later; an error once closed |
| FileStore.File.Put | internal/store/file.go:345-361 | the state after the command and the disk states on the way; nothing changes once closed |
| FileStore.File.Delete | internal/store/file.go:364-379 | the state after the command and the disk states on the way; nothing changes once closed |
| FileStore.File.Take | internal/store/file.go:382-404 | the same answer as a get, and the key is removed whether or not it had expired |
| FileStore.File.Sweep | internal/store/file.go:456-490 | keeps exactly the entries that do not expire or expire later, logs one removal for each other, and counts them |
| FileStore.File.RemoveEach | internal/store/file.go:456-490 | the removal loop appends and applies one removal per key |
| FileStore.File.Dead | internal/store/file.go:456-490 | collects each expired key once |
| FileStore.File.Compact | internal/store/file.go:514-521 | data unchanged, log folded into the snapshot |
| FileStore.File.Close | internal/store/file.go:493-510 | closing leaves the disk as it is |
| LineCodec.SoundCodecExists | internal/store/file.go:221-239 | a line encoding exists that round-trips every log record and never writes a newline |
| Store.ListRows | internal/store/mem.go:96-125 | the live rows in key order, cut at the limit when there is one |
| Store.ListingUnique | internal/store/mem.go:96-125 | a collection has one listing, so equal contents list equally |
| Store.ListingInOrder | internal/store/mem.go:96-125 | a listing is strictly ascending, holds only entries of the view, and leaves a key out only for a smaller positive limit, and then only keys that come after those listed |
| Store.Mem.constructor | internal/store/mem.go:21-26 | empty and open |
| Store.Mem.Get | internal/store/mem.go:29-40 | some value if and only if the key is stored with it and does not expire or expires later |
| Store.Mem.Put | internal/store/mem.go:43-64 | that key is set, every other is kept |
| Store.Mem.Delete | internal/store/mem.go:67-75 | that key is gone, every other is kept |
| Store.Mem.Take | internal/store/mem.go:78-93 | the same answer as a get, and the key is gone even if it had expired |
| Store.Mem.List | internal/store/mem.go:96-125 | in ascending key order, entries of the collection that do not expire or expire later: all of them, or as many as the limit allows, the rest coming after |
| Store.Mem.Len | internal/store/mem.go:128-142 | how many keys of the collection are stored with no expiry or a later one |
| Store.Mem.Sweep | internal/store/mem.go:145-161 | keeps exactly the entries that do not expire or expire later, and counts the others |
| OverlayStore.StepRefinesIff | internal/store/overlay.go:43-169 | a step through the overlay keeps agreeing with a flat copy at all later times if and only if it is not a write that expires while the base still has a live entry |
| OverlayStore.StepMirrorsIff | internal/store/overlay.go:43-169 | the layers go on meaning what the flat copy holds through every command, unless a sweep comes upon an entry that has expired over a live base entry, and then they do not |
| OverlayStore.ReadsAgreeIff | internal/store/overlay.go:43-64 | at any later time all reads agree if and only if no overlay entry has expired over a live base entry by then |
| OverlayStore.RunRefines | internal/store/overlay.go:43-169 | over any run in which no sweep comes upon such an entry the layers mean what the flat copy holds, and the base is unchanged |
| OverlayStore.OverlayIsFlatCopy | internal/store/overlay.go:43-156 | a whole dry run: base untouched; at any time from its end on, reads agree if and only if nothing is exposed at that time, and then collections and listings are equal too |
| OverlayStore.ReadsLastWord | internal/store/mem.go:29-93 | after any run on a plain store a reader finds the entry last put, or the one from before the run, unless it was removed since or has expired |
| OverlayStore.DryRunReadsLastWord | internal/store/overlay.go:43-156 | the same through the layers after a dry run, as long as nothing it wrote has expired over a live base entry |
| OverlayStore.ThroughMembers | internal/store/overlay.go:53-64 | what shows for a key, on the stored entries: the own one until it expires, then the base's until that expires, unless the key was deleted |
| OverlayStore.ListsShown | internal/store/overlay.go:105-147 | an unlimited listing has a row for exactly what shows |
| OverlayStore.UncoveredPutShowsBase | internal/store/overlay.go:53-64 | a short-lived write over a permanent base entry expires and the base shows again |
| OverlayStore.ReplacedPutIsFine | internal/store/overlay.go:67-75 | the same write replaced before it expires exposes nothing, ever |
| OverlayStore.Overlay.constructor | internal/store/overlay.go:35-41 | an empty layer over the base |
| OverlayStore.Overlay.Get | internal/store/overlay.go:46-64 | own entry until it expires, then tombstone, then the base's entry until that expires |
| OverlayStore.Overlay.Put | internal/store/overlay.go:67-75 | own layer set, tombstone lifted, base untouched |
| OverlayStore.Overlay.Delete | internal/store/overlay.go:78-86 | tombstone set, base untouched |
| OverlayStore.Overlay.Take | internal/store/overlay.go:89-102 | the visible value, and nothing is visible afterwards |
| OverlayStore.Overlay.Unhidden | internal/store/overlay.go:105-147 | the base rows without a tombstone |
| OverlayStore.Overlay.List | internal/store/overlay.go:105-147 | the listing of what shows through both layers, and without a limit a row for all of it |
| OverlayStore.Overlay.Sweep | internal/store/overlay.go:162-169 | sweeps the own layer only |
| Conflict.NoSilentlyLostEdit | internal/conflict/conflict.go:236-436 | for every input and policy table, a field a side edited is overwritten only if both sides changed and that field's policy names the other side, outright or by a clock gap beyond the tolerance |
| Conflict.EscalationWritesNothing | internal/conflict/conflict.go:236-310 | an escalation carries no values to write |
| Conflict.FieldLevelIsThreeWayMerge | internal/conflict/conflict.go:443-510 | escalates if and only if some field was edited on both sides to different values; otherwise the two writes are disjoint and leave both sides with the pointwise three-way merge |
| Conflict.ResolutionMeans | internal/conflict/conflict.go:236-510 | for every input and policy table: a person is asked if and only if both sides moved and some mapped field they disagree about is undecidable (review, clocks within the tolerance, or field level without a base or edited on both sides); otherwise each such field ends up on both sides with the value of the side that moved alone or that its policy names, and no other field changes |
| Conflict.WinnerIsCopied | internal/conflict/conflict.go:279-342 | left_wins, right_wins, and newest_wins beyond the tolerance send every mapped value of the side they prefer to the other, and nothing back |
| Conflict.PreferredField | internal/conflict/conflict.go:279-342 | the preferred side keeps its field and the other then holds the same value |
| Conflict.OnlyMoverField | internal/conflict/conflict.go:257-273 | when only one side moved, the other then holds its mapped values |
| Conflict.PolicySays | internal/conflict/conflict.go:345-436 | what one field's policy decides, from who edited it and when |
| Conflict.UnchangedMeansNoFieldMoved | internal/conflict/conflict.go:157-174 | a side counts as changed if and only if it never synced or some mapped field differs from its base |
| Conflict.NoDiffsIff | internal/conflict/conflict.go:528-548 | the diff is empty if and only if the sides agree on every mapped field |
| Conflict.DiffFor | internal/conflict/conflict.go:528-548 | a field has one diff entry if and only if it is mapped and differs |
| Conflict.EqualIsEquality | internal/conflict/conflict.go:552-555 | comparing digests of two values compares the values |
| Conflict.PerFieldPushesNull | internal/conflict/conflict.go:345-420 | what a per-field and a whole-record policy send for a field the winner lacks |
| Conflict.Diff | internal/conflict/conflict.go:528-548 | the loop collects the differing fields in field order |
| Conflict.PickInto | internal/conflict/conflict.go:559-567 | exactly the named fields that are present |
| Conflict.Settle | internal/conflict/conflict.go:345-420 | the loop collects what each side still needs, and the fields nobody can decide |
| Reconcile.LoopStops | internal/engine/pipeline.go:240-370 | with no more edits, no key committed for the pair before, nothing lost and no half-written pair, any run of events from either side, recognised as echoes or not, with answered failures and keys outliving their lifetime, lands at most one upsert per side; a clean event settles the pair, an escalated pair is never written |
| RetryLoop.LoopStopsUnderFailures | internal/engine/pipeline.go:240-370 | with any answered failures, lost responses and crashes before a landed write or the snapshots are recorded: at most one upsert on the right, plus one for each loss, and on the left at most one more than the pending fields, plus one for each loss and each time keys lapsed |
| RetryLoop.CleanRunClears | internal/engine/pipeline.go:240-370 | such a run that ends in an event handled without a fault ends settled or escalated |
| RetryLoop.PresentIsBounded | internal/engine/pipeline.go:240-370 | if the right side has every mapped field, the left side never gets more upserts than it has fields to receive, whatever fails, gets lost or lapses |
| StuckPairs.LeftWritesUnboundedIff | internal/engine/pipeline.go:422-440 | over answered failures and lapsing keys, left upserts are unbounded if and only if the pair itself is one that decides to write both sides, does not restore the left snapshot by the left half, empties no withdrawn field, and sends the left side a null, at once or when the clock turns against a newest_wins field |
| StuckPairs.OtherwiseBounded | internal/engine/pipeline.go:378-510 | and otherwise the left side gets at most one more upsert than it has fields to receive |
| StuckPairs.GetsStuckIff | internal/engine/pipeline.go:328-354 | some run gets the pair stuck if and only if that condition holds of it |
| StuckPairs.HalfSendsOnly | internal/engine/pipeline.go:328-354 | a half-written pair meets the condition only if the pair it came from did |
| RetryLoop.UnboundedIffStuck | internal/engine/pipeline.go:422-440 | left upserts are unbounded if and only if some run gets the pair stuck |
| RetryLoop.UnstuckIsBounded | internal/engine/pipeline.go:378-510 | a run that is never stuck lands at most one more left upsert than there are pending fields |
| RetryLoop.StuckForever | internal/engine/pipeline.go:422-440 | from a stuck pair, for any n, a run that lands exactly n more left upserts |
| RetryLoop.LandingCounts | internal/engine/pipeline.go:378-510 | a left write that lands leaves fewer fields to send, or is the first since its state was last on record |
| Reconcile.FreshIsUnderway | internal/engine/pipeline.go:240-273 | any pair with no key committed before is a start for these theorems |
| Reconcile.ReplayChangesNothing | internal/engine/pipeline.go:422-440 | in such a run a key committed before, on either side, can only be that of a write that changes nothing, so skipping the call is right |
| Reconcile.LandingUnderway | internal/engine/pipeline.go:378-510 | a write that lands keeps every recorded state of both sides true, whether its own key is recorded or not |
| Reconcile.WrittenProgress | internal/engine/pipeline.go:328-370 | whatever is on record, two writes end settled with both values in place, or cut short with neither snapshot recorded, and with the right side untouched unless something was lost |
| Reconcile.DecisionSends | internal/conflict/conflict.go:236-310 | every decision sends each side only values of the other, for mapped fields, and no field to both |
| Reconcile.EventProgress | internal/engine/pipeline.go:240-370 | every event settles the pair or leaves it under way; a clean one settles or escalates |
| Reconcile.EventMeans | internal/engine/pipeline.go:240-370 | an event without a fault changes nothing when it is an echo or the pair is for a person to decide; otherwise both records hold, field by field, what the policies say, and both snapshots are taken |
| Reconcile.WinnerReachesTheOtherSide | internal/engine/pipeline.go:311-370 | both sides edited under a whole-record policy: after the event the other side holds every mapped value of the preferred one, which is as it was |
| Reconcile.OnlyEditReachesTheOtherSide | internal/engine/pipeline.go:311-370 | one side edited: after the event the other holds every mapped value of it, whatever the policy |
| Reconcile.StatesMean | internal/engine/pipeline.go:250-309 | the resolver sees each side's values and time, with the stored snapshot as its base |
| Reconcile.MovedMeansChanged | internal/conflict/conflict.go:157-159 | a side counts as moved if and only if it has no snapshot or differs from it in a mapped field |
| RetryLoop.LoopEndsInTheMerge | internal/engine/pipeline.go:328-370 | under field-level resolution, whatever fails or gets lost on the way, a run that ends in a clean event leaves both peers settled with the three-way merge of what they held |
| Reconcile.QuiescentForever | internal/engine/pipeline.go:240-370 | once both snapshots equal what the peers hold, no run of events changes anything |
| Reconcile.AppliedOnce | internal/engine/pipeline.go:328-370 | one resolution lands completely or not at all, unless the second of two writes fails |
| Reconcile.KeysOfTheTwoDirectionsDiffer | internal/idem/idem.go:59-74 | a write to the left never shares a key with a write to the right |
| HalfWrites.HalfWriteFlipsTheWinner | internal/engine/pipeline.go:328-354 | when the first of two writes restores the left snapshot and the second fails, the retry copies the whole right side over the left |
| HalfWrites.HalfWriteKeepsTheDecisionIff | internal/engine/pipeline.go:328-354 | the retry changes nothing more on the left if and only if: where the half that landed restored the left snapshot, the right side agrees with it on every field it has; otherwise the clock has not turned against a newest_wins field decided for the left, or a field the right side had withdrawn makes the retry escalate |
| HalfWrites.HalfWriteExample | internal/engine/pipeline.go:328-354 | a concrete pair whose left_wins field is overwritten that way |
| HalfWrites.NullsWithoutLimit | internal/engine/pipeline.go:422-440 | a concrete stuck pair: for every n a run that lands n more nulls on the left |
| Reconcile.LinkedPair.constructor | internal/engine/pipeline.go:240-273 | a pair in any state |
| Reconcile.LinkedPair.WriteTo | internal/engine/pipeline.go:378-510 | nothing to say and replayed keys make no call; otherwise the peer overlays the values and the key is committed, an answered failure changes nothing, and a lost response leaves the values without the key |
| Reconcile.LinkedPair.Land | internal/engine/pipeline.go:462-480 | one upsert on that side |
| Reconcile.LinkedPair.CommitPair | internal/engine/pipeline.go:526-556 | both snapshots are recorded |
| Reconcile.LinkedPair.Carry | internal/engine/pipeline.go:328-370 | left write, right write, then both snapshots, stopping at the first failure |
| Reconcile.LinkedPair.Handle | internal/engine/pipeline.go:240-370 | both states compared, resolved, and carried out unless escalated |
| CreatePath.CreatesAreSpaced | internal/engine/pipeline.go:208-237 | over any interleaving of repeated events, echoes, refusals, lost responses, deletions on either side, polls and crashes, upserts that may have landed under one create key, the source record's or that of a create sent back, began at least a cache lifetime apart |
| CreatePath.StepGuarded | internal/engine/pipeline.go:378-510 | each step keeps a live mark over every upsert that may have landed within the lifetime |
| CreatePath.EchoNeverCreatesBack | internal/engine/pipeline.go:126-174 | in a sync with any number of other records being indexed, linked and dropped, no echo, recognised or not, sends a create to the source side, unless something is deleted |
| CreatePath.EchoCreatesIff | internal/engine/pipeline.go:143-174 | whenever the source record's key is its own on its side, an echo sends a create to the source side if and only if the create's own idempotency key is free and either no counterpart is found and the policy is not to skip, or the counterpart found, by link or by key, is gone from its peer |
| CreatePath.ConfiguredDistinguishes | internal/idem/idem.go:59-74 | creates made for different records have different keys |
| CreatePath.DeletionUnindexesSource | internal/engine/pipeline.go:644-663 | after the far copy is gone, the next source event drops the link and the source's own index entry and creates again |
| CreatePath.DeletionLetsEchoCreateBack | internal/engine/pipeline.go:240-273 | if that create's response is lost, the echo creates a second source record, whatever other records there are |
| CreatePath.EchoCreatesBackFromNothing | internal/engine/pipeline.go:240-273 | the same as one run from an engine that knows nothing |
| CreatePath.DeletedSourceIsCreatedBack | internal/engine/pipeline.go:286-297 | a run from nothing: the source record is deleted, and before that is noticed an event of its linked copy creates it again |
| CreatePath.FreshStart | internal/engine/pipeline.go:208-237 | a record never seen before, in a sync with any others, satisfies every invariant above |
| CreatePath.CreateKeyIsOwn | internal/idem/idem.go:59-74 | two creates of a sync share a key if and only if they are made for the same record, into the same peer, with the same mapped values |
| CreatePath.Creator.constructor | internal/engine/pipeline.go:208-237 | the engine over a given index, cache and far peer, with an empty run behind it |
| CreatePath.Creator.Process | internal/engine/pipeline.go:143-174 | a counterpart that exists is linked under both ends and both are indexed, unless both are copies; one that is gone is unlinked and made anew; a create goes out if and only if one is due and its key is free, a result on record is linked instead, an open intent waits |
| CreatePath.EventIsAnswered | internal/engine/pipeline.go:143-174 | the same for the machine's step, for every state of the link table, the index and the marks |
| CreatePath.DecidedMeans | internal/identity/identity.go:242-285 | who counts as the counterpart: the other end of the link, or else the only indexed record across that shares a key |
| CreatePath.CallsIff | internal/engine/pipeline.go:208-237 | an event sends a create if and only if the record must be created and its key is free |
| CreatePath.Creator.Route | internal/engine/pipeline.go:143-174 | index, resolve and pursue, exactly as that step says |
| CreatePath.Creator.Pursue | internal/engine/pipeline.go:286-297 | create; or record the pair with a counterpart that exists; or unlink one that is gone and create |
| CreatePath.Creator.Begin | internal/engine/pipeline.go:422-440 | a result on record is paired without a call, an open intent waits, otherwise an intent is left and the call goes out |
| CreatePath.Creator.Settle | internal/engine/pipeline.go:470-509 | a landed upsert is there, on record and linked under both ends; a refused one leaves no mark; a lost one leaves the intent |
| CreatePath.Creator.Accept | internal/engine/pipeline.go:470-509 | the peer now holds the record; the cache and the link table say so |
| CreatePath.Creator.Join | internal/engine/pipeline.go:526-556 | the link under both ends and both records indexed, marks untouched |
| CreatePath.Creator.Record | internal/engine/pipeline.go:492-509 | commit to the cache, then link and index both records |
| CreatePath.Creator.CommitPair | internal/engine/pipeline.go:526-556 | the link under both ends, both records indexed |
| CreatePath.Creator.DropLink | internal/engine/pipeline.go:644-663 | the source's link rows gone, neither record indexed |
| DeletePath.Deleter.constructor | internal/engine/pipeline.go:564-579 | a worker in any state of the machine |
| DeletePath.Deleter.ProcessDelete | internal/engine/pipeline.go:564-641 | every deletion is a run of the machine; a linked peer is deleted unless that is on file, both rows go exactly when it was or is now, and a failed call leaves the rows and an open intent |
| DeletePath.Deleter.Propagate | internal/engine/pipeline.go:602-641 | the same from the mark on |
| DeletePath.Deleter.ClaimAgain | internal/engine/pipeline.go:613-622 | the mark is taken afresh once the stale one is cleared |
| DeletePath.NamesIff | internal/engine/pipeline.go:574-588 | the counterpart is the other end of the row that names the record |
| DeletePath.Deleter.PeerFor | internal/engine/pipeline.go:574-588 | the other end of the record's link, if any |
| DeletePath.Deleter.Claim | internal/engine/pipeline.go:602-622 | a stale intent is cleared and taken afresh; only a result on record skips the call |
| DeletePath.Deleter.Call | internal/engine/pipeline.go:623-634 | a failed call leaves the intent, a successful one is committed |
| DeletePath.Deleter.DropLink | internal/engine/pipeline.go:644-663 | both rows of the link the record has now are removed |
| DeletePath.DropOnlyAfterDelete | internal/engine/pipeline.go:564-641 | with any number of workers, failures, retries and crashes anywhere, a link is dropped only after the delete call for the peer that was read succeeded under that pair's key |
| DeletePath.ReclaimKeepsInv | internal/engine/pipeline.go:602-641 | after an in-flight mark was cleared, the second Begin always proceeds to the call |
| DeletePath.DropsTheDeletedPair | internal/engine/pipeline.go:644-663 | however records are linked meanwhile, as long as none is given another counterpart while its deletion may still remove its row, every removed row is the deleted peer's own or names exactly that peer |
| DeletePath.RelinkIsSafeIff | internal/engine/pipeline.go:564-663 | linking two records is safe for every harmless continuation if and only if it gives neither of them another counterpart than a deletion under way has read and may still drop, up to the second row |
| DeletePath.RelinkedDropRemovesLiveLink | internal/engine/pipeline.go:644-663 | a run from an empty engine: a link made between the delete and the drop is removed though its peer was not deleted |
| DeletePath.RelinkedSecondRowIsLost | internal/store/typed.go:87-92 | a run from an empty engine: a link made between the two row deletions loses one row and leaves the other dangling |
| DeletePath.FreshInv | internal/engine/pipeline.go:564-579 | an empty engine satisfies every invariant above |
| DeletePath.DeleteKeyDistinguishes | internal/idem/idem.go:59-74 | deletions of different pairs have different keys |
| Idem.Cache.constructor | internal/idem/idem.go:92-100 | the given lifetime, or an hour; no marks |
| Idem.Cache.Begin | internal/idem/idem.go:108-126 | replays a live result, refuses a live intent, otherwise leaves an intent for one lifetime |
| Idem.Cache.Commit | internal/idem/idem.go:129-136 | the result replaces the intent for a fresh lifetime |
| Idem.Cache.Abandon | internal/idem/idem.go:144-146 | the mark is gone |
| Idem.Cache.Lookup | internal/idem/idem.go:149-155 | reads a live result, never an intent |
| Idem.MarksLastOneLifetime | internal/idem/idem.go:92-155 | a committed result is replayed, and an intent rechecked, for exactly one lifetime; then, or once abandoned, the key is free; a begin that does not proceed changes nothing; no other key is touched |
| KeyedMutex.LockIsExclusiveAndLeavesNothing | internal/engine/queue.go:189-235 | after any interleaving of any number of threads, two threads never hold one key, and both maps are empty when all threads are out |
| KeyedMutex.FreeKeyCanBeTaken | internal/engine/queue.go:189-235 | after any interleaving a thread that waits for a key can take it if and only if no thread holds that key |
| KeyedMutex.RunKeepsInv | internal/engine/queue.go:189-235 | the count of a key is the number of threads waiting, holding or releasing it, and all of them refer to the one registered mutex |
| KeyedMutex.Locks.constructor | internal/engine/queue.go:204-206 | an empty registry |
| KeyedMutex.Locks.Register | internal/engine/queue.go:209-217 | the key's mutex, made if missing, and one more user |
| KeyedMutex.Locks.Unregister | internal/engine/queue.go:221-234 | one user fewer, and both entries go with the last |
| WorkQueue.WorkIsConserved | internal/engine/queue.go:68-151 | under any interleaving of submissions and workers each task is ready, delayed, running or done and only one of these, the depth counts the first three, each is processed at most the allowed number of times, and each finished one succeeded or has exactly one dead letter |
| WorkQueue.OutcomesDecide | internal/engine/run.go:57-89 | in any run from an empty queue a task counts as a success if and only if it was processed successfully, is a dead letter if and only if it failed for good or as often as allowed, is never processed more often, and is not released before |
| WorkQueue.OldestIsTaken | internal/engine/queue.go:91-117 | the longest waiting ready task is taken, or else the retry due first, and nothing that is not due |
| WorkQueue.RetryMeans | internal/engine/run.go:75-84 | a retryable failure with attempts left waits out its backoff with one attempt more, still counted and its handle still open |
| WorkQueue.EndMeans | internal/engine/run.go:57-89 | any other outcome ends the task, as a success or as a dead letter |
| WorkQueue.PromotesExactlyTheDue | internal/engine/queue.go:91-103 | on an ordered list the front part that is moved is exactly what is due |
| WorkQueue.InsertKeepsOrder | internal/engine/queue.go:137-151 | requeueing keeps the waiting tasks ordered by time |
| WorkQueue.InsertIsStable | internal/engine/queue.go:137-151 | a requeued task goes behind everything due no later than it and in front of everything due later, and nothing else moves |
| WorkQueue.PassBurnsFuel | internal/engine/run.go:57-89 | whatever a pass comes to, the attempts left in the queue decrease |
| WorkQueue.OnePass | internal/engine/run.go:57-89 | taking, processing and settling one task keeps the queue sound and touches no other task |
| WorkQueue.Engine.constructor | internal/engine/queue.go:57-65 | an empty, sound queue |
| WorkQueue.Engine.Push | internal/engine/queue.go:68-81 | at the end of the ready list and counted, or released at once when closed |
| WorkQueue.Engine.Promote | internal/engine/queue.go:91-103 | the loop moves the due front part |
| WorkQueue.Engine.NextTask | internal/engine/queue.go:106-117 | the first ready task after promotion, now running |
| WorkQueue.Engine.Complete | internal/engine/queue.go:120-134 | one task fewer in the depth, its handle released |
| WorkQueue.Engine.Requeue | internal/engine/queue.go:137-151 | back among the waiting tasks, in time order |
| WorkQueue.Engine.Settle | internal/engine/run.go:57-89 | success, dead letter or retry, as the outcome and the attempts say |
| WorkQueue.Engine.Drain | internal/engine/run.go:43-54 | terminates whatever the outcomes; nothing is ready or due afterwards, no task is lost, and whatever ended did so as processing it came to |
| WorkQueue.Engine.Close | internal/engine/queue.go:172-187 | everything queued is released unprocessed and the depth is zeroed |
| WorkQueue.Backoff | internal/engine/run.go:97-118 | a draw from a window that starts at a quarter of a second and doubles up to half a minute, at least a tenth of a second, or the peer's hint when that is longer |
| Identity.Resolver.Candidates | internal/identity/identity.go:297-329 | duplicate-free, ordered by remote id, and exactly the peer records whose last-indexed values share a key: neither null nor empty and reading alike |
| Identity.MatchIff | internal/identity/identity.go:118-162 | a record is found if and only if it is on the peer, of the kind, and some configured key identifies both, on the values themselves |
| Identity.StringsMatchIff | internal/identity/identity.go:297-329 | records whose keys are strings match if and only if some key has the same non-empty string in both |
| Identity.SameKeyCases | internal/identity/identity.go:118-120 | which values identify the same thing: equal non-empty strings, numbers or flags, a number and the string of its digits; never a null or an empty string |
| Identity.Resolver.Resolve | internal/identity/identity.go:242-285 | the other end of the link; else the only record that shares a key, if there is exactly one; else, with none, a create unless the policy is to skip, and with several what the policy says |
| Identity.Resolver.Index | internal/identity/identity.go:132-162 | both stored indexes agree with each other and with the new values |
| Identity.Resolver.Deindex | internal/identity/identity.go:165-167 | the record is forgotten and both indexes still agree |
| Identity.Resolver.constructor | internal/identity/identity.go:92-97 | nothing indexed |
| Identity.Resolver.ReleaseKeys | internal/identity/identity.go:169-184 | the record leaves every entry its owner row names |
| Identity.Resolver.FileUnder | internal/identity/identity.go:132-162 | the loop files the record under exactly its non-empty keys |
| Identity.Resolver.AddRef | internal/identity/identity.go:186-201 | one membership added, entries stay ordered and duplicate-free |
| Identity.Resolver.RemoveRef | internal/identity/identity.go:203-219 | one membership removed, empty entries deleted |
| Identity.Resolver.ScanAgrees | internal/identity/identity.go:297-329 | index lookup and full scan find the same records |
| Identity.Resolver.PutLink | internal/store/typed.go:62-71 | a row under each end, older rows of other records kept |
| Identity.Resolver.DeleteLink | internal/store/typed.go:87-92 | both rows gone |
| Origin.ClassifyFollowsHistory | internal/origin/origin.go:109-174 | echo if and only if the latest record or query of that payload is a record inside the window; else near miss if and only if any write to the record is; else foreign |
| Origin.OwnWriteIsRecognised | internal/origin/origin.go:98-174 | whatever else is recorded, asked or swept in between, the first inbound change with the payload of a write is an echo if and only if it arrives within the window configured for the connector, or five minutes |
| Origin.SecondChangeIsNoEcho | internal/origin/origin.go:141-174 | after the first answer another change with that payload is no echo until the payload is written again |
| Origin.ForeignIff | internal/origin/origin.go:160-187 | what is no echo is a near miss if and only if some write to the record is still within the window |
| Origin.LogHoldsHistory | internal/origin/origin.go:109-196 | which entries the log still shows, as a function of its history |
| Origin.VerdictIgnoresSweeps | internal/origin/origin.go:189-196 | removing all sweeps from a history never changes a verdict |
| Origin.EchoesNeverOutnumberRecords | internal/origin/origin.go:150-174 | per payload, echoes plus the entry on file are at most the records |
| Origin.Suppressor.constructor | internal/origin/origin.go:90-95 | an empty log |
| Origin.Suppressor.Record | internal/origin/origin.go:109-134 | both the payload and the record entry, alive for the window |
| Origin.Suppressor.Classify | internal/origin/origin.go:150-181 | the verdict, with the payload entry consumed and the counters moved |
| Origin.Suppressor.Sweep | internal/origin/origin.go:189-196 | only expired entries go |
| RateLimit.QuotaIsKept | internal/ratelimit/ratelimit.go:94-165 | in every run under a monotone clock, grants asked for from s on and released by e number at most burst + configured * (e - s) |
| RateLimit.NobodyWaitsLonger | internal/ratelimit/ratelimit.go:94-165 | the other direction: in any run without a rejection the n-th grant is released as soon as the block is over and its token is earned, at the rate there was or a better one |
| RateLimit.AllowsIff | internal/ratelimit/ratelimit.go:153-165 | an immediate request is granted if and only if no block is in force and a whole token is there, counting what was earned since |
| RateLimit.RejectionEmptiesTheBucket | internal/ratelimit/ratelimit.go:171-202 | after a rejection an immediate request is granted if and only if the wait is over and a whole token has been earned at the halved rate |
| RateLimit.StepCosts | internal/ratelimit/ratelimit.go:94-218 | a call that is no rejection costs at most the token it grants and never slows the bucket down |
| RateLimit.GrantsAreBounded | internal/ratelimit/ratelimit.go:94-218 | the same from any state that meets the budget |
| RateLimit.RejectionIsHonoured | internal/ratelimit/ratelimit.go:171-202 | every grant after a rejection is released no earlier than the rejection asked for, and the rate stays between an eighth of the configured rate and all of it |
| RateLimit.BlockIsHonoured | internal/ratelimit/ratelimit.go:111-165 | no later grant is released before the bucket's block ends |
| RateLimit.StepValid | internal/ratelimit/ratelimit.go:94-218 | every call keeps the rate within its bounds and never shortens a block |
| RateLimit.RecoversWithinTwoHundred | internal/ratelimit/ratelimit.go:205-218 | from any permitted rate and any running count two hundred successes in a row restore the configured rate |
| RateLimit.OneRecovery | internal/ratelimit/ratelimit.go:205-218 | twenty successes earn exactly one step of a quarter |
| RateLimit.ThreeRejectionsReachTheFloor | internal/ratelimit/ratelimit.go:171-202 | three rejections, whatever wait they ask for, bring any permitted rate to its floor |
| RateLimit.Limiter.constructor | internal/ratelimit/ratelimit.go:73-91 | a full, unblocked bucket with the configured rate and burst, or one a second and one |
| RateLimit.Limiter.Refill | internal/ratelimit/ratelimit.go:94-104 | earns for the time elapsed, up to the burst |
| RateLimit.Limiter.Reserve | internal/ratelimit/ratelimit.go:111-141 | takes a token, possibly into debt, and answers the longer of block and debt |
| RateLimit.Limiter.Allow | internal/ratelimit/ratelimit.go:153-165 | takes a token only if unblocked and available |
| RateLimit.Limiter.Reject | internal/ratelimit/ratelimit.go:171-202 | halves the rate to the floor, empties the bucket, extends the block |
| RateLimit.Limiter.Success | internal/ratelimit/ratelimit.go:205-218 | counts towards recovery below the configured rate |
| Mapping.RoundTripIff | internal/mapping/mapping.go:267-308 | rendering and reading back gives the writable restriction of every fixed canonical value if and only if no written path is a dotted prefix of another mapped one |
| Mapping.RendersAtItsPath | internal/mapping/mapping.go:295-308 | a rendered record holds, at each field's own path on that side, the value supplied if the field's direction writes there, and otherwise nothing |
| Mapping.RendersNothingElse | internal/mapping/mapping.go:295-308 | every name at its top is the first of a written path |
| Mapping.ReadsAtItsPath | internal/mapping/mapping.go:267-288 | reading yields, for each field, what lies at its own path on that side through its own transform, and nothing where nothing lies |
| Mapping.GetPathFinds | internal/mapping/mapping.go:359-388 | a name equal to the whole path wins, then walking it |
| Mapping.JoinInvertsSplit | internal/mapping/mapping.go:359-407 | splitting a path loses nothing and keeps the order |
| Mapping.ApartRoundTrips | internal/mapping/mapping.go:267-308 | the direction callers rely on, for any field list and depth |
| Mapping.ComparablePathsCollide | internal/mapping/mapping.go:390-407 | for any two paths in each other's way, values that do not round-trip |
| Mapping.WalkSetSame | internal/mapping/mapping.go:359-407 | a path reads what was just set there |
| Mapping.WalkSetOther | internal/mapping/mapping.go:359-407 | setting one path changes no incomparable one |
| Mapping.SplitFacts | internal/mapping/mapping.go:359-407 | splitting at dots: never empty, no dots left, the path itself when it has none |
| Mapping.Narrow | internal/mapping/mapping.go:86-109 | writes into a side if and only if both directions do; none or an equal one leaves the sync's, a bidirectional sync takes the field's, and only opposite ones are refused |
| Mapping.NewMapper | internal/mapping/mapping.go:177-235 | succeeds if and only if there are fields, each is named, addressed on both sides, has a known transform and a possible direction, and no name comes twice; the mapper then has every field as specified, with its direction narrowed |
| Mapping.FromCanonical | internal/mapping/mapping.go:295-308 | the loop renders exactly the supplied fields this side accepts |
| Mapping.ToCanonical | internal/mapping/mapping.go:267-288 | the loop reads every present path through its transform, and fails on an unknown one |
| Digest.DecodeInvertsEncode | internal/model/record.go:73-79 | length-prefixed concatenation has a decoder, whatever the parts contain |
| Digest.IdemKeyInjective | internal/idem/idem.go:59-74 | two writes share a key if and only if all seven parts agree |
| Digest.SnapshotHashDecidesFields | internal/model/record.go:55-71 | equal digests if and only if every named field is absent in both or renders equally in both |
| Digest.SnapshotHashIgnoresNameOrder | internal/model/record.go:55-71 | the order in which names are listed does not matter |
| Digest.FeedSnapshot | internal/model/record.go:55-71 | the loop that feeds the hash writer produces that digest |
| Digest.CanonicalValueInjective | internal/model/record.go:84-107 | renderings of different canonical values differ, and none looks like an absent field |
| Digest.ChunkRoundTrip | internal/model/record.go:73-79 | one length-prefixed chunk is recovered from in front of anything |
| Ordering.SortSorted | internal/model/record.go:55-71 | sorting orders by key |
| Ordering.LessIff | internal/store/mem.go:96-125 | the order is that of the first difference, a proper prefix coming first |
| Ordering.SortIgnoresOrder | internal/model/record.go:55-71 | the sorted list depends on the names only, not their order |

## Left out

- The command line, reports, driver, configuration checks and doctor: rendering, wiring and flat lists of easy checks.
- Webhook HTTP handling and signature checks: input/output and cryptography. A webhook appears as a step that submits a task.
- JSON bytes and SHA-256: the log codec is any sound one, the snapshot file is a value that a rename replaces whole, a digest is its preimage.
- Offset paging under concurrent edits: one poll reads an atomic snapshot of the peer.
- Float rounding, nanosecond truncation, logging, statistics and the distribution of the random jitter.
- What a transform does to a string, beyond being a function; NormalizeDomain is not idempotent, so round trips quantify over values a transform leaves alone.
- Plan output against a later real run. The overlay it runs on is modelled.
- Cancellation of contexts, and dead-letter writes that fail: a task ends handled.
- Stale event bodies: events carry the record as the peer holds it now.
- One-way syncs in `Reconcile`; the pair is bidirectional with every mapped field writable on both sides.
- Several syncs over the same connector and kind: marks, links and key owners are not keyed by sync, so the model has one.
- Task pointers: tasks in `WorkQueue` are values with an id, so sharing one task between queue and caller is not captured.
- `setPath` writing nested maps in place: the model rebuilds them as values, so aliasing between nested maps is not captured.
- File.List and File.Len: the same functions of the live data as the memory store's. Overlay.Len is the length of an unlimited listing.
- FileStore.File.Append: a failed append is a crash; the store does not carry on after it, although the code returns the error and may.
- Index and Deindex interrupted half-way: each is atomic.
- StuckPairs.LeftWritesUnboundedIff: answered failures and lapsing keys; with lost responses an update is sent again as often as they are lost, which `RetryLoop.LoopStopsUnderFailures` counts.
- Reconcile.LinkedPair.WriteTo: leaves out in-flight marks, which an update with a known target clears and takes again, and origin tags; `CreatePath` and `Origin` model those.
- Reconcile.LinkedPair.CommitPair: records the two snapshots; the link row and the index updates are `Identity`'s.
- CreatePath.Creator.Process: the source record and its copies hold the payload, so reconciling them ends in recording the pair, and reconciling a copy with some other record it is linked to is that record's business; `Reconcile` models the general case.
- CreatePath.Creator.Route: the same branch is collapsed.
- CreatePath.Creator.CommitPair: leaves out the snapshots, which no create decision reads.
- CreatePath.Creator.DropLink: leaves out the snapshots as well.
- DeletePath.Deleter.DropLink: the two link rows only; forgetting index entries and snapshots afterwards decides nothing here.
- WorkQueue.Engine.Settle: leaves out the branch for a cancelled context.
- CreatePath.CreatesAreSpaced: for one source record with a fixed payload; the origin log's verdict on an echo is a free choice, so the result does not depend on it.
