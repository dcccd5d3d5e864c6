# Verified models of the background jobs

The jobs under `src/jobs` are small concurrent protocols over version-checked rows: every write is a
compare-and-set on `version`, several replicas run at once, any run can stop between two writes, and every
retry has to converge. This project models the ones whose properties are hard to see in any single
function, and proves those properties for every input, every run or every reachable state.

Two forms are used. A protocol that interleaves (rotation steps with row writers, queue workers, reminder
replicas, export replicas, scheduling messages) is a state machine: an `Action` datatype, a function
`Apply` in which one action is one round trip to a store, and `Run` over any sequence of actions; an
action that is not enabled changes nothing. Work that is a loop over state of its own (paging, purging,
re-encrypting, filing, charging, booking, reminding, the DKIM steps) is imperative, proved against a
specification.

| file | models |
|---|---|
| `Keyset.dfy`, `StableSort.dfy`, `Occurrences.dfy` | paging by offset and by keyset, the sort by a number, what an expansion of occurrences promises |
| `ConfigEnvelopes.dfy`, `ReencryptionPass.dfy` | sealed values, the row lens, one re-encryption pass and the recount |
| `KeyRotation.dfy`, `KeyRotationSafety.dfy`, `KeyRotationTheorems.dfy`, `KeyRotationLateWriter.dfy`, `KeyRotationCompletes.dfy` | the rotation of configuration keys: machine, invariant, theorems over runs, what a late save loses, a rotation nothing disturbs |
| `IngestLease.dfy`, `IngestDue.dfy` | the claim, lease and retry protocol of a queued entry; which entries a run works on |
| `IngestFiling.dfy`, `QuotaCharge.dfy` | re-executable filing; charging the quota once |
| `ResourceBooking.dfy` | the conflict search, the requested occurrences, the booking decision |
| `ItipSequence.dfy` | a calendar copy under invitations, replies and change requests |
| `ReminderRun.dfy`, `ReminderTheorems.dfy`, `ReminderClaims.dfy` | what a reminder run claims, when that is a plain scan's claims; who sends it |
| `ExportLease.dfy` | export attempts and the ledger of owed attestations |
| `DkimRotation.dfy`, `DkimPromises.dfy` | the timed rotation of a domain's DKIM key, and what every history of it keeps |
| `QuarantinePurge.dfy` | the purge that pages over the list it deletes from |

## What holds, and what does not

- **Key rotation.** Over every run from rest, with row writers and administrators acting between any two
  writes and crashes anywhere, a secret that could be opened still opens to what its last writer saved, and
  no key leaves the ring while an envelope uses it, but for late saves: one under a key the recount under way
  is to remove, in a row it is past, while it has counted none of those keys. What a writer saves is safe
  whatever follows if and only if the save is not late (`SaveKeptIff`); a save under the active key never is.
  `LateWriterLosesSecret` is a whole rotation from rest with a late save. The branches that fail a rotation
  for want of a recorded or active key are never taken: the only way to `failed` is a keyring that can't be
  parsed.
  Undisturbed, a rotation from rest ends done with everything that can be read under the new key and no other
  key in the ring but those something still uses (`RotationCompletes`).
- **Quota.** That no retry charges twice is false as the code stands: a marker write that fails followed by
  a refund that fails (or is never reached) leaves a charge without a marker, and the next attempt charges
  again (`ChargedTwice`); the comment at that write says its failure hands the charge back. `BalancedIff`
  and `ChargedOnce` give the exact condition: none of three faults.
- **Booking.** The 60-day chunks are one expansion of the horizon exactly when every occurrence outlives
  the start of its chunk; an occurrence of no length at a chunk boundary is in no chunk
  (`BoundaryOccurrenceMissed`). A series whose `until` lies before the first requested start is dropped
  unread. So an accepted request double books a booking exactly when that booking is such a series and one of
  its occurrences still runs when the requested window begins (`DoubleBookedIff`); in
  `LastOccurrenceDoubleBooked` a decision accepts one. A conflict is with a time the resource is taken
  exactly when the occurrence in the way was not moved by an override row that goes unread: one for an original
  time over a day before the window that itself lies outside it (`ConflictIsBusyIff`, `DeclineIsRightIff`). No
  occurrence of at most a day is; `LongOccurrenceMovedAway` is a request declined although the resource is free.
- **Reminders.** That an occurrence is notified at most once per kind of alarm is false as the code stands. A
  claim won on a row read again carries its version over to the run's first copy of the row, with the start and
  the other marker as first read; the start alarm is then claimed from that copy, and the compare-and-set goes
  through. So an event nobody moved can get its start alarm twice (`CarriedVersionSendsTwice`; `FirstRunsOverlap`
  shows two runs with those alarms due). The exact conditions: a series moves forward if and only if no claim is
  won while the row's own marker already covers its start (`SeriesSentOnce`), and a single event is notified for
  the start it has, and after another one only, if and only if no claim is won for a start the row no longer has
  or its marker holds (`SingleSentRight`). Reminders, claimed first, never repeat this way
  (`RemindersSentOnce`). A wrong win follows only from a win on a row read again that goes astray: for a
  start the event no longer has, or a reminder's over a start alarm the copy knows nothing of
  (`NoneAstrayIsRight`), and every such win leads to a wrong notification if its turn goes on
  (`AstrayGoesWrong`). Over all runs of a process each claims what a plain scan would, as long as every edit an earlier claim was
  won over is harmless (`RunsArePlain`); what is remembered after a run is true exactly then (`StaysTrueIff`), and
  `EditHidesAlarm` is two runs the second of which misses an alarm. Override rows are read up to 1000 a
  series; the claims are the plain scan's exactly when no unread one stands for the occurrence claimed
  (`FoundIsPlainIff`, `UnreadOverrideClaimed`).
- **Exports.** An abandoned attempt goes back to pending or fails by its count alone (`ReclaimDecides`), and one
  replica that sees a pending request through leaves its bundle named and what it could record attested
  (`ExportCompletes`).
- **DKIM.** Signing switches, and the old selector goes, exactly when the log says it may (`SwitchesIff`,
  `RetiresIff`); a compromised key is replaced and gone in one run that nothing goes wrong in
  (`CompromisedInOneRun`). An absent answer, or six hours without one, restarts the grace only if the write that says so
  goes through. Such a lookup lies between the beginning of a grace and a switch exactly when its write
  failed (`LiesBetweenIff`); `LostWriteKeepsGrace` is a history with one.
- **Invitations.** Only the highest revision has to carry a title, times and a rule for the copy to end
  with them; the time zone and the organizer are set when the copy is created and never after. An
  invitation that loses the race to create the copy is given up on, even the higher revision
  (`HigherRevisionLost`).

## Model

| member | source | states |
|---|---|---|
| `Keyset.KeysetPass` | src/jobs/ConfigKeyRotationJob.ts:522-541 | keyset paging over a table others change visits each row at most once, only rows that were there, and when complete every row that stayed throughout |
| `Keyset.PageCovers` | src/jobs/CalendarReminderJob.ts:214-243 | a page leaves out nothing up to its last row, and nothing at all unless it is full |
| `Keyset.SortedUnique` | src/jobs/ConfigKeyRotationJob.ts:528-530 | a set of rows has one listing in the paging order |
| `OffsetPages.PagesJoin` | src/jobs/ScanQueueJob.ts:3147-3160 | offset pages read so far are a prefix of the sorted rows, and a short page ends them |
| `ConfigEnvelopes.Replace` | src/dns/DnsProviderEnvelopeSource.ts:28-37 | the loop over replacements exchanges exactly the named fields of the row and ignores foreign paths |
| `ConfigEnvelopes.ReadsBackReplaced` | src/dns/DnsProviderEnvelopeSource.ts:24-37 | lens law: reading the envelopes of a replaced row gives the old ones with exactly the replacements exchanged |
| `ConfigEnvelopes.PlainNotReplaced` | src/jobs/ConfigKeyRotationJob.ts:550-577 | re-encryption never names a plain value for replacement |
| `ConfigEnvelopes.ReencryptedExactly` | src/jobs/ConfigKeyRotationJob.ts:544-585 | a re-encrypted row has exactly the envelopes bound to their place that the cipher re-seals under the target moved to it, everything else as it was, and every plaintext the same |
| `ReencryptionPass.ResealRefs` | src/jobs/ConfigKeyRotationJob.ts:548-577 | the loop over a row's envelopes keeps the counts balanced for both ends: the row saved, and the row left as read |
| `ReencryptionPass.SaveRow` | src/jobs/ConfigKeyRotationJob.ts:578-598 | each envelope of a row is counted once, under the key it has after the save or the failed save |
| `ReencryptionPass.RowIsDone` | src/jobs/ConfigKeyRotationJob.ts:555-580 | a row needs no change exactly when each of its envelopes is under the target, bound elsewhere or not re-sealed by the cipher, and a saved row is like that |
| `ReencryptionPass.Pass.ReencryptRow` | src/jobs/ConfigKeyRotationJob.ts:544-598 | one version-checked update per row, its counts, and when the pass stops being complete |
| `ReencryptionPass.Pass.ReencryptPage` | src/jobs/ConfigKeyRotationJob.ts:531-533 | a page extends what the pass has counted and re-sealed by exactly its rows |
| `ReencryptionPass.Pass.ReencryptAll` | src/jobs/ConfigKeyRotationJob.ts:522-541 | whatever decrypts and saves fail, no secret changes and the counts are the envelopes per key when the pass ends; it is complete if no save fails, and a complete pass leaves every readable envelope under the target |
| `ReencryptionPass.CountEnvelopes` | src/jobs/ConfigKeyRotationJob.ts:601-622 | the recount counts every envelope of every row exactly once |
| `ReencryptionPass.UsedKeyCounted` | src/jobs/ConfigKeyRotationJob.ts:604-613 | a key has a positive count exactly when some envelope uses it |
| `KeyRotation.CountPageCovers` | src/jobs/ConfigKeyRotationJob.ts:607-614 | counting a page lowers no count and covers every envelope of the page |
| `KeyRotationSafety.Keeps` | src/jobs/ConfigKeyRotationJob.ts:268-681 | every action of the step, the writers and the administrator keeps the rotation's invariant, however writers seal |
| `KeyRotationSafety.SeenIff` | src/jobs/ConfigKeyRotationJob.ts:601-665 | an action leaves an envelope the recount overlooked exactly when it is a late save there |
| `KeyRotationSafety.RecountedKeysUnused` | src/jobs/ConfigKeyRotationJob.ts:645-662 | at the end of a recount that found no removable key in use, nothing stored uses one but what it overlooked |
| `KeyRotationSafety.OnlyRetireRemoves` | src/jobs/ConfigKeyRotationJob.ts:335-343 | only the end of a recount takes a key out of the ring, one that is not active and that neither the last pass nor the recount counted |
| `KeyRotationSafety.NoSeenKeyLeaves` | src/jobs/ConfigKeyRotationJob.ts:641-665 | the key of an envelope no recount overlooked stays in the ring, whatever the next action |
| `KeyRotationTheorems.UntouchedSecretKept` | src/jobs/ConfigKeyRotationJob.ts:451-681 | over every run, a secret no writer touched still opens to the same plaintext, whatever writers do to other rows |
| `KeyRotationTheorems.LastSaveKept` | src/jobs/ConfigKeyRotationJob.ts:544-665 | what a writer saves at any point of a run, but for a late save, opens to what it saved until the row's next writer |
| `KeyRotationLateWriter.LateSaveLost` | src/jobs/ConfigKeyRotationJob.ts:642-665 | wherever a run comes to a late save, some continuation that leaves the row alone removes the key of what was saved |
| `KeyRotationLateWriter.SaveKeptIff` | src/jobs/ConfigKeyRotationJob.ts:544-665 | what a writer saves stays readable over every continuation that leaves the row alone if and only if the save is not late |
| `KeyRotationLateWriter.ActiveIsNotLate` | src/jobs/ConfigKeyRotationJob.ts:638-641 | a save under the active key is never late |
| `KeyRotationTheorems.UsedKeyStays` | src/jobs/ConfigKeyRotationJob.ts:625-665 | at any point of any run the key of a stored envelope stays in the ring, unless a save at its place was late |
| `KeyRotationTheorems.RemovableIffUnused` | src/jobs/ConfigKeyRotationJob.ts:638-641 | with the counts of a pass over all rows, the removable keys are exactly the keys of the ring other than the active one that no envelope uses |
| `KeyRotationTheorems.RotationIsOrderly` | src/jobs/ConfigKeyRotationJob.ts:346-448 | in every reachable state the active key is in the ring and at most one key was added; phases take documented edges; the active key changes only with every live copy listing the new one, or by force |
| `KeyRotationTheorems.EdgeOfStep` | src/jobs/ConfigKeyRotationJob.ts:268-281 | each action takes one of the documented phase edges, with the action that may take it |
| `KeyRotationTheorems.PassWaits` | src/jobs/ConfigKeyRotationJob.ts:451-478 | a pass begins only once every live copy, at least one, and this one encrypt with the new key |
| `KeyRotationTheorems.RetiringWaits` | src/jobs/ConfigKeyRotationJob.ts:486-505 | retiring follows only a pass over all rows with every change saved; going back only a key found in use; done only a written ring or nothing to remove |
| `KeyRotationTheorems.StepDecides` | src/jobs/ConfigKeyRotationJob.ts:423-505 | what each step decides, both ways: activation and the pass on the copies being ready, retiring on a complete pass, going back on a key found in use, failing on an unreadable ring |
| `KeyRotationTheorems.StepsStartOver` | src/jobs/ConfigKeyRotationJob.ts:284-343 | a step that crashes, waits or loses its race ends with nothing changed but the row's version, and the next starts from the row as it is |
| `KeyRotationTheorems.AdministratorActs` | src/routes/BaseConfigKeyRoute.ts:237-340 | a rotation begins exactly when none is under way, the old key is reported compromised exactly while one is, and activation is forced exactly while it is waited for |
| `KeyRotationTheorems.DoneLeavesNoUnusedKey` | src/jobs/ConfigKeyRotationJob.ts:625-665 | whenever a run takes a rotation from retiring to done, every key left in the ring is the active one or was counted by the last pass |
| `KeyRotationCompletes.RotationCompletes` | src/jobs/ConfigKeyRotationJob.ts:268-681 | from any state at rest an undisturbed rotation ends done: the new key active, every envelope that can be re-sealed under it, and the ring exactly that key and the old ones still in use |
| `KeyRotationTheorems.PassRowCounts` | src/jobs/ConfigKeyRotationJob.ts:544-598 | in the running rotation too, each row read is counted once as it is left, and keeps the pass complete only if nothing in it is left to re-seal |
| `KeyRotationTheorems.NewKeyIsCounted` | src/jobs/ConfigKeyRotationJob.ts:346-382 | a key enters the ring only as the one key the rotation adds, however often the step crashes |
| `KeyRotationLateWriter.LateWriterLosesSecret` | src/jobs/ConfigKeyRotationJob.ts:642-662 | counterexample, a whole rotation from rest: a writer sealing under the old key after its page was recounted loses its secret |
| `IngestLease.AttemptsBounded` | src/jobs/ScanQueueJob.ts:736-769 | over every run attempts are claims granted less claims handed back, never above the maximum; no two workers hold one version; a dead letter has used every attempt |
| `IngestLease.ClosedIsFinal` | src/jobs/ScanQueueJob.ts:796-827 | a delivered or dead-lettered entry is never written again |
| `IngestLease.OnlyTheHolderWrites` | src/jobs/ScanQueueJob.ts:736-827 | the entry is written exactly when a worker acts on the version it found due or holds, with the attempts, retry time and lease each write leaves |
| `IngestLease.DueAgain` | src/jobs/ScanQueueJob.ts:695-711 | any entry that is not closed is found by a due query exactly from a known time on, and a closed one never |
| `IngestLease.DueIsTaken` | src/jobs/ScanQueueJob.ts:736-769 | in every reachable state the next worker to look takes a due entry up as one attempt more, or parks it when none is left, and leaves one that is not due alone |
| `IngestLease.BackoffDoubles` | src/jobs/ScanQueueJob.ts:804-808 | the first failure waits for the backoff and each later one for twice as long |
| `IngestDue.DueIsFound` | src/jobs/ScanQueueJob.ts:698-710 | an entry is due exactly when one of the four queries finds it, and only one does |
| `IngestDue.FindDueEntries` | src/jobs/ScanQueueJob.ts:695-727 | four bounded queries merged, sorted and cut are the oldest due entries, none twice, whatever changes between the queries |
| `IngestDue.CutKeepsOldest` | src/jobs/ScanQueueJob.ts:725-726 | cutting the merged pages to the batch leaves out only entries no older than the batch |
| `IngestFiling.StepsAreWanted` | src/jobs/ScanQueueJob.ts:1004-1090 | an uninterrupted attempt makes sure of exactly the rows the verdict, rules and quota call for |
| `IngestFiling.UninterruptedLeaves` | src/jobs/ScanQueueJob.ts:1300-1532 | it leaves each of those rows once and nothing else |
| `IngestFiling.WantedByVerdict` | src/jobs/ScanQueueJob.ts:1033-1097 | which rows each verdict calls for: no rule runs on junk, a deleting rule files only its copies and is charged nothing, a quarantined or control message is not filed |
| `IngestFiling.Store.ProcessEntry` | src/jobs/ScanQueueJob.ts:962-1097 | an attempt cut off anywhere leaves the store as some prefix of the uninterrupted attempt would, and one with two round trips a row and two more gets through |
| `IngestFiling.Store.DeliverMessage` | src/jobs/ScanQueueJob.ts:1270-1532 | the same for filing: the message, its attachments, the rule copies, or the quarantine over quota |
| `IngestFiling.Store.AttachRows` | src/jobs/ScanQueueJob.ts:2136-2158 | attachment rows by position, each found or made |
| `IngestFiling.Store.Attempts` | src/jobs/ScanQueueJob.ts:942-1097 | over any attempts, each cut off anywhere, no uid has a second row and every row is wanted; a successful one leaves exactly the rows of an uninterrupted attempt |
| `QuotaCharge.Entry.Attempt` | src/jobs/ScanQueueJob.ts:1068-1077 | one attempt with its faults amounts to the specified change of charge, marker and message |
| `QuotaCharge.Entry.RefundUnfiled` | src/jobs/ScanQueueJob.ts:1566-1587 | a failed attempt hands back its charge unless the message is filed or something fails |
| `QuotaCharge.BalancedIff` | src/jobs/ScanQueueJob.ts:1358-1369 | an attempt keeps charge, marker and message in step exactly when it meets none of three faults |
| `QuotaCharge.SoundAttemptFiles` | src/jobs/ScanQueueJob.ts:1300-1369 | an attempt nothing goes wrong in leaves the message filed and charged once, whatever earlier attempts left |
| `QuotaCharge.UnfiledIsNotCharged` | src/jobs/ScanQueueJob.ts:1340-1369 | an attempt that files nothing, for want of room or with its charge handed back, leaves nothing charged |
| `QuotaCharge.ChargedOnce` | src/jobs/ScanQueueJob.ts:1358-1369 | over any attempts the books stay balanced throughout if and only if none meets one of the faults |
| `QuotaCharge.FiledStaysCharged` | src/jobs/ScanQueueJob.ts:1300-1358 | a filed message stays charged once whatever later attempts run into |
| `QuotaCharge.ChargedTwice` | src/jobs/ScanQueueJob.ts:1361-1369 | counterexample: a failed marker write and a failed refund charge a message twice |
| `BookingConflicts.NoIsNo` | src/jobs/ScanQueueJob.ts:3110-3144 | the search says no only if nothing requested overlaps any occurrence of the booking |
| `BookingConflicts.YesIsYes` | src/jobs/ScanQueueJob.ts:3110-3144 | it says yes only if some requested occurrence overlaps one |
| `BookingConflicts.UnknownIsCutOff` | src/jobs/ScanQueueJob.ts:3126-3129 | it can't tell only if the span of a single requested occurrence was truncated |
| `Occurrences.OverlapIsShared` | src/jobs/ScanQueueJob.ts:3137-3143 | two occurrences overlap exactly when they share a moment |
| `RequestedOccurrences.ExpandRequest` | src/jobs/ScanQueueJob.ts:2993-3020 | the chunks put together by start hold exactly the covered occurrences of the series |
| `RequestedOccurrences.ChunksAreTheHorizon` | src/jobs/ScanQueueJob.ts:2994-3020 | the chunks equal one expansion over the horizon exactly when every occurrence outlives the start of its chunk, as every occurrence of positive length does |
| `RequestedOccurrences.BoundaryOccurrenceMissed` | src/jobs/ScanQueueJob.ts:2998-3006 | counterexample: a call of the chunk loop that returns nothing, though the series has an occurrence, of no length, at a chunk boundary |
| `ResourceBooking.CollectRequested` | src/jobs/ScanQueueJob.ts:2993-3034 | what is checked is the covered occurrences and the live overrides inside the horizon, by start |
| `ResourceBooking.ReadBookingPages` | src/jobs/ScanQueueJob.ts:3147-3160 | every matching row, or nothing exactly when there are as many as the pages hold |
| `ResourceBooking.ReadCandidates` | src/jobs/ScanQueueJob.ts:3048-3074 | the rows compared with are those overlapping the window and the masters still running; the rows consulted are those overlapping it and the override rows from the look-back on |
| `ResourceBooking.ReadsMissNothing` | src/jobs/ScanQueueJob.ts:3048-3074 | a booking the request would double book is compared with it, unless it is a series dropped unread |
| `ResourceBooking.BusyIsConsidered` | src/jobs/ScanQueueJob.ts:3081-3089 | nothing left out of a booking's expansion is a time it is busy |
| `ResourceBooking.ConsideredIsBusyIff` | src/jobs/ScanQueueJob.ts:3054-3059 | an occurrence compared is a time the booking is busy if and only if no override row that goes unread moved it away |
| `ResourceBooking.CheckCandidates` | src/jobs/ScanQueueJob.ts:3076-3100 | no answer means no row compared with is in the way; a conflict means one is; can't tell means a single occurrence's span was truncated |
| `ResourceBooking.DecideResourceBooking` | src/jobs/ScanQueueJob.ts:2970-3100 | declined for length and distance exactly, in minutes and days; otherwise accepted only if nothing compared is in the way of anything asked for, declined for a conflict only if something is, or there was too much to check |
| `ResourceBooking.DoubleBookedIff` | src/jobs/ScanQueueJob.ts:3069-3074 | an accepted request double books a booking if and only if it is a series dropped unread, by its `until` and its first instance, with an occurrence still running when the window begins |
| `ResourceBooking.OnlyDroppedDoubleBooked` | src/jobs/ScanQueueJob.ts:3048-3074 | an accepted request overlaps no busy time of any other booking but one dropped unread |
| `ResourceBooking.ClearIfNoneRunsIn` | src/jobs/ScanQueueJob.ts:3069-3074 | where no series dropped unread runs into the window, an accepted request overlaps nothing at all |
| `ResourceBooking.ConflictIsBusyIff` | src/jobs/ScanQueueJob.ts:3081-3096 | what blocks a request is a time the resource is taken if and only if no override row that goes unread moved it away |
| `ResourceBooking.ShortConflictIsBusy` | src/jobs/ScanQueueJob.ts:3054-3059 | so every conflict with an occurrence no longer than the look-back is real |
| `ResourceBooking.DeclineIsRightIff` | src/jobs/ScanQueueJob.ts:3081-3096 | a booking compared would be double booked if and only if something that blocks the request was not moved away unread |
| `ResourceBooking.LastOccurrenceDoubleBooked` | src/jobs/ScanQueueJob.ts:3069-3074 | counterexample: a call of the decision that accepts a request in the middle of a series' last occurrence |
| `ResourceBooking.LongOccurrenceMovedAway` | src/jobs/ScanQueueJob.ts:3054-3059 | counterexample: a call that declines for a conflict with a long occurrence an override moved away |
| `ItipSequence.MutateRaises` | src/jobs/ScanQueueJob.ts:2921-2951 | an applied invitation raises the sequence to its own, a reply keeps it and changes only its sender's answer, a change request adds one |
| `ItipSequence.RevisionIsApplied` | src/jobs/ScanQueueJob.ts:2919-2951 | an invitation is applied exactly when it is newer: field by field what it says, or its default, and the title, times and rule it does not name kept |
| `ItipSequence.FirstInviteCreates` | src/jobs/ScanQueueJob.ts:2866-2911 | the first invitation makes the copy, field by field, empty, now and in UTC where it names nothing |
| `ItipSequence.ReplyIsApplied` | src/jobs/ScanQueueJob.ts:3226-3257 | a reply is applied exactly when it is to this revision or a newer one, and changes its sender's answer only |
| `ItipSequence.TurnApplies` | src/jobs/ScanQueueJob.ts:2703-2730 | a message worked off undisturbed leaves exactly what it makes of the copy |
| `ItipSequence.LostRaceIsRetried` | src/jobs/ScanQueueJob.ts:2703-2730 | a patch that loses its race is made anew of the row as it is then, and given up on at the third try |
| `ItipSequence.SequenceNeverDecreases` | src/jobs/ScanQueueJob.ts:2703-2730 | under any interleaving with retries the stored sequence never decreases, and the time zone and organizer never change |
| `ItipSequence.HighestRevisionWins` | src/jobs/ScanQueueJob.ts:2799-2951 | invitations and replies in any interleaving leave the copy of the highest revision, unless that one was given up on |
| `ItipSequence.InAnyOrder` | src/jobs/ScanQueueJob.ts:2819-2822 | invitations processed one after another in any order leave the highest revision's copy |
| `ItipSequence.ChangeRespectsPermissions` | src/jobs/ScanQueueJob.ts:3284-3382 | a change request is applied only as the organizer's own row allows, to no newer copy, within the guest limits, with no guest added twice, and asks again only after a new time |
| `ItipSequence.ChangeIsApplied` | src/jobs/ScanQueueJob.ts:3284-3382 | a change request is applied if and only if a guest who saw this copy asks for something and all of it is allowed; then its title, place, text, times and guests reach the row and nothing else changes |
| `ItipSequence.SenderIsListed` | src/jobs/ScanQueueJob.ts:3303-3308 | who may ask: whoever the first entry with the address does not show as the organizer |
| `ItipSequence.HigherRevisionLost` | src/jobs/ScanQueueJob.ts:2653-2664 | counterexample: of two invitations that find no copy the second to create it is given up on, though the higher revision |
| `ReminderRun.ReadKeyset` | src/jobs/CalendarReminderJob.ts:214-243 | every row up to the first that starts too late |
| `ReminderRun.ReadCandidates` | src/jobs/CalendarReminderJob.ts:142-182 | the two bounded queries and the `until` skip, each row once |
| `ReminderRun.DueIsCandidate` | src/jobs/CalendarReminderJob.ts:143-182 | every alarm due in the window is on a candidate row |
| `ReminderRun.SingleAlarms` | src/jobs/CalendarReminderJob.ts:262-277 | the alarms of a single event by its lead: a reminder that long before, and one at the start unless the lead is zero or it takes whole days |
| `ReminderRun.ClaimIsDue` | src/jobs/CalendarReminderJob.ts:280-336 | an event's turn claims an alarm exactly when it is the latest due by the overrides read and nothing remembered skips it |
| `ReminderTheorems.QuietUntilThen` | src/jobs/CalendarReminderJob.ts:309-320 | no alarm fires between the window and the time remembered to look again |
| `ReminderTheorems.RememberedUntilNext` | src/jobs/CalendarReminderJob.ts:284-320 | a series is remembered exactly when it was expanded and nothing of it fires in the window, until its next alarm or for the whole look-ahead |
| `ReminderTheorems.NothingHidden` | src/jobs/CalendarReminderJob.ts:284-291 | what is remembered, while true of the version it names, hides no alarm that is due |
| `ReminderTheorems.StaysTrueIff` | src/jobs/CalendarReminderJob.ts:388-396 | after a run what is remembered is true if and only if no edit a reminder was won over gives the event an alarm at its start before the time remembered |
| `ReminderTheorems.ClaimsArePlain` | src/jobs/CalendarReminderJob.ts:133-204 | where what is remembered is true and the override reads fit, one run claims an alarm exactly when a plain scan of every row does |
| `ReminderTheorems.TrueInTurn` | src/jobs/CalendarReminderJob.ts:133-204 | over consecutive runs what is remembered is true as long as the edits earlier claims were won over were harmless |
| `ReminderTheorems.RunsArePlain` | src/jobs/CalendarReminderJob.ts:133-204 | in any sequence of runs from a new process the windows abut, and each run's claims are a plain scan's as long as the edits before it were harmless |
| `ReminderTheorems.Runs` | src/jobs/CalendarReminderJob.ts:133-204 | the same of the job itself, run over and over |
| `ReminderTheorems.UneditedRunsArePlain` | src/jobs/CalendarReminderJob.ts:388-396 | where claims leave events as they were read, every run's claims are a plain scan's |
| `ReminderTheorems.FoundIsPlainIff` | src/jobs/CalendarReminderJob.ts:322-330 | consulting the override rows one read finds gives the plain scan exactly when no unread one stands for an occurrence otherwise claimed |
| `ReminderRun.Job.ProcessKind` | src/jobs/CalendarReminderJob.ts:280-338 | the latest due start is claimed unless what is remembered of the version passed in skips it, and when to look again is noted exactly when a series has nothing due |
| `ReminderRun.Job.ProcessEvent` | src/jobs/CalendarReminderJob.ts:262-277 | both alarms of an event, the second against the version the first one's claim left, whatever it was written to |
| `ReminderRun.Job.Run` | src/jobs/CalendarReminderJob.ts:133-204 | a run claims exactly the alarms due, by the overrides read, in the window that abuts the last one, but for those skipped by what is remembered, and remembers exactly what its turns note |
| `ReminderTheorems.AllOverridesRead` | src/jobs/CalendarReminderJob.ts:325-329 | up to its limit the read finds every override row of the event's mailbox |
| `ReminderTheorems.UnreadOverrideClaimed` | src/jobs/CalendarReminderJob.ts:325-329 | counterexample: with one override row more, a run claims the alarm of an occurrence that was moved away |
| `ReminderTheorems.EditHidesAlarm` | src/jobs/CalendarReminderJob.ts:388-396 | counterexample: two runs, the second of which misses an alarm because the first remembered an edited event by its old series |
| `ReminderClaims.SeriesSentOnce` | src/jobs/CalendarReminderJob.ts:359-405 | over all runs, races and edits each notification of a kind is for a later occurrence of the series than the one before if and only if no claim is won while the row's own marker already covers its start |
| `ReminderClaims.NeverTwiceInARow` | src/jobs/CalendarReminderJob.ts:359-405 | no start of a single event is sent twice without another in between if and only if no claim is won for the start the row's marker holds |
| `ReminderClaims.SingleSentRight` | src/jobs/CalendarReminderJob.ts:359-405 | every notification of a single event is for the start it has then, and not for that of the one before, if and only if no claim is won for a start the row no longer has or its marker holds |
| `ReminderClaims.RemindersSentOnce` | src/jobs/CalendarReminderJob.ts:262-277 | the first kind of a turn: a series is never reminded of a start twice, a single event never in a row |
| `ReminderClaims.FirstTryIsRight` | src/jobs/CalendarReminderJob.ts:375-405 | a claim won on its first try is right unless an earlier claim of the turn was won on a row read again; one won on a row read again never repeats the marker |
| `ReminderClaims.FirstWinIsCurrent` | src/jobs/CalendarReminderJob.ts:388-395 | a claim won on its first try leaves the turn with the row as it is |
| `ReminderClaims.LostClaimEnds` | src/jobs/CalendarReminderJob.ts:377-404 | a claim for a start sent already, or after a second lost race, sends nothing and leaves the turn to go on |
| `ReminderClaims.NoneAstrayIsRight` | src/jobs/CalendarReminderJob.ts:375-405 | every notification of both kinds is right in a run without a win on a row read again that is for a start no longer had, or a reminder's over a start alarm the turn's copy does not know |
| `ReminderClaims.AstrayGoesWrong` | src/jobs/CalendarReminderJob.ts:388-395 | wherever a run comes to such a win, a notification is wrong at once or once the same turn goes on to its start alarm |
| `ReminderClaims.SingleSentOncePerStart` | src/jobs/CalendarReminderJob.ts:359-405 | without a wrong win a single event has at most one notification for each start it is given, and no start more than the times it was given |
| `ReminderClaims.FirstWrongWin` | src/jobs/CalendarReminderJob.ts:375-405 | the first wrong win of a run notifies a start more often than it was given exactly if that start had its notifications |
| `ReminderClaims.OutdatedSendsAgain` | src/jobs/CalendarReminderJob.ts:375-405 | after a win for a start no longer had, if the current start had its notifications, some continuation notifies it once too often |
| `ReminderClaims.UnmovedSentOnce` | src/jobs/CalendarReminderJob.ts:359-405 | a single event never moved is notified at most once of a kind if and only if no claim is won for the start the row's marker holds; so at most once by the reminder |
| `ReminderClaims.CarriedVersionSendsTwice` | src/jobs/CalendarReminderJob.ts:388-395 | counterexample: an event never moved, single or a series, whose start alarm is sent twice |
| `ReminderTheorems.FirstRunsOverlap` | src/jobs/CalendarReminderJob.ts:133-204 | two first runs of the job, a second apart under the default settings, both claim a start alarm, only the earlier the reminder, as that counterexample needs |
| `ReminderClaims.StaleReplicaSendsAgain` | src/jobs/CalendarReminderJob.ts:377-404 | counterexample: a stale replica sends an old start again |
| `ExportLease.ReadyIsAccountedFor` | src/jobs/MatterExportJob.ts:357-399 | in every reachable state attempts are bounded, a ready request names the complete bundle of its last attempt, each mailbox in it is attested or owed, and nothing is attested before |
| `ExportLease.OutcomeIsFinal` | src/jobs/DataExportJob.ts:265-349 | ready and failed are final and no other run touches the bundle of a ready request |
| `ExportLease.OwedUntilAttested` | src/jobs/MatterExportJob.ts:415-495 | a replica that lost the request writes nothing to it, and a mailbox leaves the owed list only once attested |
| `ExportLease.StrikeOffKeepsLedger` | src/jobs/MatterExportJob.ts:451-465 | a strike-off takes only attested mailboxes off the list |
| `ExportLease.Keeps` | src/jobs/MatterExportJob.ts:268-397 | claim, renewal, reclaim, bundle, attestation and death keep the export's invariant |
| `ExportLease.ReclaimDecides` | src/jobs/MatterExportJob.ts:268-305 | in every reachable state an abandoned attempt that is taken back fails if it was the last allowed and otherwise is pending again, its attempts and bundles as they were |
| `ExportLease.ReclaimedIsClaimed` | src/jobs/MatterExportJob.ts:284-290 | an abandoned request with attempts left is claimed again as one attempt more |
| `ExportLease.ExportCompletes` | src/jobs/MatterExportJob.ts:328-465 | in every reachable state a pending request one replica sees through ends ready with the bundle of its next attempt, attested as far as entries could be recorded and owing exactly the rest |
| `ExportLease.OwedIsTakenUp` | src/jobs/MatterExportJob.ts:415-495 | what a ready request owes is attested by the next replica to take it up, but for what it can't record |
| `ExportLease.BrokenOffIsCleared` | src/jobs/MatterExportJob.ts:357-399 | an attempt that breaks off removes what it stored and marks the request failed |
| `ExportLease.RefusedFails` | src/jobs/MatterExportJob.ts:328-333 | a request whose matter is gone fails without an attempt |
| `ExportLease.RenewalKeeps` | src/jobs/MatterExportJob.ts:301-314 | a renewal keeps the request for its holder, and sends a replica that lost it to undo what it stored |
| `DkimRotation.Replica.LookUp` | src/jobs/DkimRotationJob.ts:247-303 | every answer is logged; a live one begins the grace or, once it has passed, switches; an absent one or six unanswered hours take it back; a failed save changes nothing |
| `DkimRotation.Replica.Advance` | src/jobs/DkimRotationJob.ts:186-201 | one transition of every phase, the memory of unanswered lookups cleared outside pending, with the row and the log it leaves |
| `DkimPromises.KeyComesFirst` | src/jobs/DkimRotationJob.ts:237-247 | a rotation begins without a key and with no unanswered lookup remembered, and looks nothing up until it has a key |
| `DkimPromises.GoesOnIff` | src/jobs/DkimRotationJob.ts:170-184 | another transition follows exactly where one went on with the rotation |
| `DkimRotation.Replica.AdvanceDomain` | src/jobs/DkimRotationJob.ts:170-184 | the loop is a run: transitions for as long as another may follow, at most five |
| `DkimPromises.EveryHistoryKeepsPromises` | src/jobs/DkimRotationJob.ts:186-352 | over every sequence of answers, acknowledgements and administrator's writes the row says what the log says, signing switches only as promised and the old selector goes only after the acknowledgement and the overlap |
| `DkimPromises.SwitchIsSafe` | src/jobs/DkimRotationJob.ts:237-303 | a switch is on a live lookup, at least the grace after the one that began it, with no absent answer and no six unanswered hours in between but those whose write failed |
| `DkimPromises.SwitchesIff` | src/jobs/DkimRotationJob.ts:277-303 | over every history a lookup switches signing if and only if the record is live, the write goes through and the grace by the log has lasted, or need not for a compromised key |
| `DkimPromises.OverlapIsExact` | src/jobs/DkimRotationJob.ts:305-317 | over every history the old selector is to go exactly the overlap after the acknowledgement, or at once if compromised by then |
| `DkimPromises.RetiresIff` | src/jobs/DkimRotationJob.ts:343-352 | over every history the old selector goes if and only if that time has come and the write goes through |
| `DkimPromises.CompromisedInOneRun` | src/jobs/DkimRotationJob.ts:170-352 | a compromised key is replaced, acknowledged and retired in one run of five transitions that go well |
| `DkimPromises.RotatesInTime` | src/jobs/DkimRotationJob.ts:170-352 | any other rotation switches the grace after its record is found and retires the old selector the overlap after that |
| `DkimPromises.AdminActs` | src/routes/BaseDomainRoute.ts:905-973 | over every history a cancel leaves the selector that was to be replaced signing, and a report makes the rotation a compromised one, at once where signing has moved |
| `DkimPromises.LiesBetweenIff` | src/jobs/DkimRotationJob.ts:264-276 | a lookup that takes a grace back lies between its beginning and the switch exactly when its write failed |
| `DkimPromises.GraceKeptIff` | src/jobs/DkimRotationJob.ts:264-276 | over any lookups a grace survives exactly if none that takes it back is recorded |
| `DkimPromises.GoneIffTakesBack` | src/jobs/DkimRotationJob.ts:249-266 | while a grace runs the replica takes the record for gone exactly when the log says so: absent, or six hours from the first unanswered lookup |
| `DkimPromises.StepHolds` | src/jobs/DkimRotationJob.ts:186-352 | every transition keeps the promises and the agreement of row, memory and log |
| `DkimPromises.AdminHolds` | src/routes/BaseDomainRoute.ts:905-973 | so do "rotate now", a report of a compromised key and a cancel |
| `DkimPromises.LostWriteKeepsGrace` | src/jobs/DkimRotationJob.ts:267-274 | counterexample: an absent answer that can't be written, and a switch 47 hours later |
| `QuarantinePurge.PageFromSkipped` | src/jobs/QuarantineRetentionJob.ts:238-246 | the page holding position `skipped`, without what comes before it, continues exactly there |
| `QuarantinePurge.LeftIs` | src/jobs/QuarantineRetentionJob.ts:247-258 | deleting rows by identity leaves the failed rows, then everything not visited |
| `QuarantinePurge.PageIsNext` | src/jobs/QuarantineRetentionJob.ts:238-246 | a page read past the failed rows holds exactly the next unvisited rows, in order |
| `QuarantinePurge.Table.PurgePage` | src/jobs/QuarantineRetentionJob.ts:247-258 | trying the rows of a page as it was read, each deleted by its identity, visits the next rows of the initial list |
| `QuarantinePurge.Table.PurgeSorted` | src/jobs/QuarantineRetentionJob.ts:227-264 | each row tried at most once and in order; stops at the shortest prefix with `batchSize` successes or at the end; leaves the failed rows, then the unvisited ones |

## Left out

- Cryptography, DKIM and TXT parsing, MIME and iCalendar parsing, sanitizing, scan engines and mail transport: outcomes of these are parameters; an envelope is its key, its context and its plaintext.
- Databases, Redis, blob stores and dependency injection: a table is a map, an update a compare-and-set, a derived uid an injective constructor.
- Logging, audit text, push payloads, folder counts, search indexing, zero-access sealing of titles and bodies.
- The rotation's console fields (`lastError`, `waitingFor`, dates, `previousKids`, the listed unreadable rows): writing them only bumps the state row's version.
- A rotation step that goes on after its lock expired, and a row uid used again after its row was deleted.
- `processInline`, and the erasure policy beyond the entry being handed back with its attempt undone.
- A lease lapsing between an update and its re-read, a commit that reports failure, and two workers racing on one quota marker.
- Zero-access entries in the due queries, which no background run picks up.
- Filing when a user moves or deletes rows or folders between two attempts, or when the verdict, the rules or the quota outcome changes between them.
- A booking table that changes while the three reads go over it, and override rows that carry a rule.
- The sender, organizer and DKIM checks before a scheduling message is applied, resource answers in the attendee list, cancellations, and re-creation after a deletion.
- Reminder runs under a clock that goes back, leads above the maximum, truncated expansions, row versions that go back, the order of the bounded override read (any order is modelled as by uid), an alarm lost because processing its event threw, and an event turned from a single one into a series or back between a claim and its retry.
- When a DKIM rotation is due and which selector it mints, key generation beyond its outcome, a restart that forgets since when lookups went unanswered, and several replicas at once.
- DNS provider validation, desired state, credentials, handshakes, multipart uploads, event clipping, the small cleanup jobs, routes, migrations and `scripts/cldr`: mostly table checks or single-loop facts that would only add easy members.
- ResourceBooking.DecideResourceBooking: does not exclude that a series dropped unread is double booked, because the source accepts it; `DoubleBookedIff` says exactly when.
