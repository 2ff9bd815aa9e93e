# Verification model of Perfect Match QMS

This project models the parts of Perfect Match QMS whose behaviour is hardest to see from the code, and proves what
they keep. Everything is Dafny; `dafny verify dfyconfig.toml` checks all of it.

- **Recovery points** (`Manifests`, `Words`, `RecoveryPoint`, `Publication`, `Packing`, `Unpacking`, `RoundTrip`,
  `Transfer`, `Readers`, `RejectedPacks`): packing, publishing with roll-back under injected failures, verifying,
  unpacking and transferring encrypted archives. A directory is a map from names to files. `VerifiedPoints`,
  `PackedPoints`, `RestoredPoints` and `TransferredPoints` state what each command accepts and writes in the terms of
  the published format.
- **Retention** (`Retention`, `RetentionRuns`, `Survivors`): which recovery points a run deletes, over repeated,
  interrupted and reordered runs, on a real calendar (`Calendar`, `Instants`).
- **The backup scheduler** (`Schedule`, `RunStatus`, `Health`, `RecoveryPointObjective`, `InstanceLock`): slots, the
  status file as a fold over runs, the health check over arbitrary histories, the six-hour objective over endless
  schedules, and every interleaving of schedulers on one lock.
- **ISO 9001 seeding** (`Definitions`, `PackSeeding`, `PackConvergence`, `PackReruns`, `SeededRecords`,
  `FreshInstallation`, `StrayPacks`, `PackStore`, `ReferenceMapping`): idempotent creation of packs, areas, lines,
  activities and mappings, and convergence of activity scopes.
- **Workflows and their event log** (`EventLog`, `StateTable`, `Documents`, `DocumentRuns`, `DocumentRules`,
  `DocumentCascade`, `DocumentChains`, `DocumentRegister`, `RevisionNames`, `Capas`, `CapaRuns`, `CapaRules`,
  `CapaCabinet`, `Audits`, `AuditRuns`, `AuditRules`, `AuditOffice`): state machines over linked records, their
  invariants in every reachable state, what each action asks and writes, and the replay of their events.
- **Calibration** (`Calibration`, `CalibrationAcceptance`, `CalibrationRules`, `CalibrationFixture`): roll-up, status by
  date, acceptance of several events at once, and the rolling fixtures of the demonstration data.
- **Activity access** (`ActivityAccess`): the grouped filter, pages and counts against a rule for one activity.

What the source updates in place is a class whose methods are proved against a specification function on values
(`Publication.Target`, `RetentionRuns.Repository`, `RunStatus.Scheduler`, `PackStore.Records`,
`ReferenceMapping.MappingTable`, `DocumentRegister.Register`, `StateTable.Ledger`, `AuditOffice.Office`,
`CapaCabinet.Cabinet`, `Calibration.Instrument`); the properties are proved about those functions. A raised error is a
refused result, and because an error rolls back the surrounding transaction the state is then what it was.

Where the code differs from what one would expect of it, the model follows the code and states exactly when it does
what is expected:

- A failed publication takes back what it published, but not a link whose staged name could not be removed, nor files
  after a failed flush (`Publication.FailureRestoresExactly`).
- A pack that is refused because the third file's staged name could not be removed was visible until its roll-back took
  the second file away (`Readers.RefusedButSeen`).
- Packing does not check three things verification needs (`RoundTrip.PackedVerifiesExactly`); three packs that succeed
  and are refused are in `RejectedPacks.PackedButRejected`.
- Month arithmetic is monotone on dates but not on instants (`Instants.ShiftMonthsReorders`).
- Without flock a rejected scheduler discards the holder's key (`InstanceLock.LocalSetIsSafeExactlyWhenSettled`).
- A draft pack that holds an area or control of its own is activated by its first seed and refuses every later one
  (`PackReruns.RerunExactly`, and a concrete one in `StrayPacks.StrayPackRefusesRerun`).
- A due-soon fixture needs a reminder window at least as long as its interval (`CalibrationFixture.DemonstrationFixtures`).
- A revision action given one record twice would break its chain of events (`DocumentRuns.ChainsNeedDistinctRecords`).
- Activating a revision changes its document's state without an event of the document
  (`DocumentChains.ReachableChainsExactly`).
- A finding whose draft nonconformity is deleted can be reopened again (`AuditRuns.ReopenedTwice`).
- Accepting a passing calibration event puts equipment back in service although an assessment is open, which returning
  it to service would refuse (`CalibrationAcceptance.GuardBrokenExactly`).

## Model

| member | source | states |
|---|---|---|
| Calendar.AddMonthsShifts | tools/backup/m29_backup.py:550-555 | Adding n months gives a valid date whose month index moved by exactly n; the day stays, or shrinks to the last day of the month. |
| Calendar.AddMonthsMonotone | tools/backup/m29_backup.py:550-555 | Adding months never reorders two dates. |
| Calendar.AddMonthsCollide | tools/backup/m29_backup.py:550-555 | Two different dates land on one exactly when they share a month and both reach past the end of the target month. |
| Calendar.TwelveMonths | tools/backup/m29_backup.py:558-563 | Twelve months ahead is 365 or 366 days ahead, for every date including 29 February. |
| Calendar.AddMonthsLater | addons/pm_qms_calibration/models/equipment.py:233-239 | One month or more ahead is strictly later, whatever the clamping. |
| Instants.ShiftMonthsOrder | tools/backup/m29_backup.py:550-555 | On instants the order survives exactly unless two dates clamp onto one day and the earlier instant has the later time of day. |
| Instants.ShiftMonthsReorders | tools/backup/m29_backup.py:550-555 | A concrete pair of instants whose twelve-month deadlines come in the opposite order. |
| Instants.AtRoundTrip | tools/backup/m29_backup.py:550-555 | A date and a time of day make an instant that has exactly them. |
| Retention.DeadlinesOrdered | tools/backup/m29_backup.py:558-563 | For one creation time the intraday deadline comes before the daily one and that before the monthly one. |
| Manifests.CheckComponents | tools/backup/m29_backup.py:254-270 | The loop that collects component names accepts exactly the lists whose entries are well formed, safe, allowed and without duplicates. |
| Manifests.InnerOfOuter | tools/backup/m29_backup.py:218-279 | Dropping the archive entry of an accepted outer manifest leaves an accepted inner one. |
| Manifests.AcceptedKnown | tools/backup/m29_backup.py:218-279 | The schema is closed: nothing in an accepted manifest, however deep, has a key of its own. |
| Words.ChecksumLine | tools/backup/m29_backup.py:376-378 | The checksum line splits back into its digest and name exactly when the name holds no white space. |
| VerifiedPoints.AcceptedExactly | tools/backup/m29_backup.py:218-279 | A manifest is accepted exactly when it is a document of the published format, every key, word, order of times and component name spelled out. |
| VerifiedPoints.VerifiedExactly | tools/backup/m29_backup.py:368-382 | A point verifies with a manifest exactly when that is what its manifest file reads as, it has the published format, the sidecar splits into the archive's own digest and name, and the manifest's archive entry has that name, that digest and the archive's size. |
| RecoveryPoint.VerifiedIsComplete | tools/backup/m29_backup.py:368-382 | Verification accepts only when archive, manifest and checksum are all present and the manifest is one the validator accepts; on what the three agree is VerifiedPoints.VerifiedExactly. |
| RecoveryPoint.VerifyIsLocal | tools/backup/m29_backup.py:368-382 | The verdict depends on the three files of the point and nothing else in the directory. |
| Publication.PublishLands | tools/backup/m29_backup.py:290-298 | The publication loop, with any script of link, unlink and flush failures, ends where its first fault says. |
| Publication.FailureRestoresExactly | tools/backup/m29_backup.py:360-363 | A failed publication restores the directory exactly when its first fault refuses the link; otherwise files stay behind. |
| Publication.OutlivedLink | tools/backup/m29_backup.py:290-298 | A concrete failed publication that leaves its file behind: the link stands and the staged name cannot be removed. |
| Publication.TraceStates | tools/backup/m29_backup.py:354-363 | Every directory a publication and its roll-back pass through, one by one, read off the first fault. |
| Publication.TraceEnds | tools/backup/m29_backup.py:354-363 | The last of those directories is the one the publication leaves. |
| Publication.TogetherAtLastLink | tools/backup/m29_backup.py:290-363 | A publication shows all its names in one state only, the one the link of its last file makes if it stands; no state before it and none of a roll-back does. |
| Publication.Target.AtomicPublish | tools/backup/m29_backup.py:290-298 | Publishing one file in place: the name is created, or nothing changes and an error is returned; a link may outlive its staged name. |
| Publication.Target.PublishAll | tools/backup/m29_backup.py:354-363 | Publishing a list in place, and taking it back on a refusal, does what the specification function says and passes through the states of the trace and no others. |
| Packing.OrderLeavesNoTrace | tools/backup/m29_backup.py:196-215 | Packing the same components in another order stages the same bytes. |
| Packing.Pack | tools/backup/m29_backup.py:301-365 | The whole pack command on a directory updated in place agrees with its specification, refusals of paths and roll-back included, and passes through the states of its trace. |
| RoundTrip.PackedVerifiesExactly | tools/backup/m29_backup.py:301-382 | A packed point verifies exactly when the quiesce window ended by the creation time, the name ends in .tar.age and holds no white space. |
| RoundTrip.PackSucceedsExactly | tools/backup/m29_backup.py:301-365 | Packing succeeds exactly when its own checks pass, the encryption succeeds and no publication step fails. |
| PackedPoints.PacksExactly | tools/backup/m29_backup.py:144-365 | Packing succeeds exactly when the arguments name outputs under the contract that are not there yet, packable and insensitive components apart from outputs and recipient, a known class, the pinned tool, a named source and a window in order, when the payload encrypts, and no publication step fails. |
| PackedPoints.PackedExactly | tools/backup/m29_backup.py:160-358 | A packed point says what the arguments said: each key of both manifests, every component's name, digest and size in the order of the names, the payload's entries, the archive's own entry and the checksum line; three files are added and none changed. |
| PackedPoints.SensitiveExactly | tools/backup/m29_backup.py:144-157 | A source is refused exactly when a directory on its way reads secrets or .ssh, or its name identity, identity.age or private.key, in any mix of cases, the Kelvin sign for k included. |
| RejectedPacks.PackedButRejected | tools/backup/m29_backup.py:301-382 | Concrete packs that succeed and whose points verification refuses: point.tar, a name with a space, a window that ends after the creation time; with none of the three it accepts. |
| RoundTrip.PackedPayload | tools/backup/m29_backup.py:394-447 | The payload pack encrypted passes payload validation and gives back every component. |
| RoundTrip.PackThenUnpack | tools/backup/m29_backup.py:301-483 | Pack, then unpack with the matching identity, restores exactly the input components plus manifest.json. |
| Unpacking.AcceptedPayloadIsTheManifest | tools/backup/m29_backup.py:394-447 | For an arbitrary payload, acceptance means the output is exactly the manifest's members, each with its size and digest. |
| Unpacking.ValidatePayload | tools/backup/m29_backup.py:394-447 | The copying loop computes exactly the specified extraction or refusal. |
| RestoredPoints.UnpacksExactly | tools/backup/m29_backup.py:394-483 | Unpacking restores some files exactly when the point verifies, its source is the expected one, the destination is vacant, and the archive decrypts to a tar of regular files, none twice: the inner manifest and exactly the listed components, each of its size and digest; the files are those members. |
| Readers.PackIsAllOrNothing | tools/backup/m29_backup.py:301-365 | Of all the directories pack passes through, roll-back included, verification can accept the point in the one after the third link only, and that is where an undisturbed pack ends; the point is there at the end exactly when pack could go ahead and nothing failed or only the last flush did. |
| Readers.RefusedButSeen | tools/backup/m29_backup.py:290-365 | A pack that reports a refusal was visible in between exactly when it could go ahead and the third file's staged name could not be removed; the next state is incomplete again. |
| Transfer.PackFailureRestores | tools/backup/m29_backup.py:354-365 | What pack leaves after a failure, and exactly when that is the old directory. |
| Transfer.TransferNeverReplaces | tools/backup/m29_backup.py:507-547 | Whatever fails, every file that was at the destination is still there, unchanged. |
| Transfer.TransferDelivers | tools/backup/m29_backup.py:507-547 | After a successful transfer each file is at the destination with the digest of the source. |
| Transfer.TransferTwice | tools/backup/m29_backup.py:519-547 | A second transfer publishes nothing. |
| Transfer.DeliverFailureRestores | tools/backup/m29_backup.py:528-545 | A failed delivery leaves the destination as it was, exactly unless publication began and its first fault left a link or failed a flush. |
| Transfer.TransferredVerifies | tools/backup/m29_backup.py:507-547 | The transferred point verifies as its source does, unless one of its three files and the source's are different texts with one digest. |
| Transfer.PublishMissing | tools/backup/m29_backup.py:528-545 | The loop that skips present files and takes back its own on a refusal does what the specification says and passes through the states of its trace and no others. |
| Transfer.TransferTo | tools/backup/m29_backup.py:507-547 | The transfer command on a destination updated in place, with the refusal of the source directory itself, agrees with its specification and its trace. |
| TransferredPoints.TransfersExactly | tools/backup/m29_backup.py:507-547 | A transfer succeeds exactly when the point verifies, the destination is another directory where nothing of its names differs, and all is there already or every copy is true and no publication of a missing file fails; it reports which, and adds the missing files only. |
| Readers.TransferIsAllOrNothing | tools/backup/m29_backup.py:507-547 | When the point is not at the destination yet, verification there can accept it in one of the states passed through only, the one the link of the last missing file makes, and that is where an undisturbed transfer ends. |
| Retention.NewestSurvives | tools/backup/m29_backup.py:589-607 | Each source with a live point keeps one that no live point of the source outranks; that this is the newest by date is Survivors.RunKeepsNewest. |
| Survivors.RunKeepsNewest | tools/backup/m29_backup.py:589-607 | After a run, for every source that has a point that verifies and is not of the future, the one of the latest creation time, of the last manifest name among several, still verifies. |
| Survivors.ExpiredExactly | tools/backup/m29_backup.py:558-563 | A point is past its deadline exactly when more than seven days, thirty days or twelve calendar months have passed, by its class. |
| Survivors.DeletedExactly | tools/backup/m29_backup.py:566-607 | A point is deleted exactly when it verifies, is past its deadline and is not the newest of its source; then none of its three files is left. |
| Survivors.NothingElseDeleted | tools/backup/m29_backup.py:600-607 | A run removes nothing but the files of such points. |
| Retention.VerdictAfterDelete | tools/backup/m29_backup.py:589-607 | Deleting points leaves the verdict on every other point as it was and makes the deleted ones unreadable. |
| Retention.RetainedAfterDelete | tools/backup/m29_backup.py:566-609 | After any partial deletion by an earlier run, a later run removes exactly the doomed points still there. |
| Retention.RetentionConfluent | tools/backup/m29_backup.py:566-609 | A run at t1 and then at t2 leaves exactly what one run at t2 leaves, future-dated points included. |
| Retention.RunsCollapse | tools/backup/m29_backup.py:566-609 | Any non-decreasing sequence of runs leaves what its last run alone leaves. |
| RetentionRuns.InterruptionSafe | tools/backup/m29_backup.py:600-607 | After any prefix of the deletions a point is untouched, or it is doomed, already without its manifest, and outranked by a complete newer point of its source that no run deletes. |
| RetentionRuns.PrefixDeletes | tools/backup/m29_backup.py:600-607 | However far a run gets it has deleted files of doomed points only, each point losing its manifest first. |
| RetentionRuns.NewestStaysComplete | tools/backup/m29_backup.py:600-607 | However far a run gets, the point of each source that none outranks keeps its three files; RetentionRuns.PrefixKeepsNewest says that it is the newest by date. |
| RetentionRuns.InterruptedRunHeals | tools/backup/m29_backup.py:566-609 | A later full run after an interrupted one leaves what it would have left, plus the orphans of at most one point. |
| RetentionRuns.OrphansOfOne | tools/backup/m29_backup.py:598-606 | What an interrupted run leaves without a manifest belongs to one point: its archive and checksum at most. |
| RetentionRuns.NoNewEscapes | tools/backup/m29_backup.py:566-609 | Deleting points never makes a later run fail on an unreadable manifest. |
| RetentionRuns.FullPlanRetains | tools/backup/m29_backup.py:570-607 | The outcome does not depend on the order the directory was scanned in. |
| RetentionRuns.PickNewest | tools/backup/m29_backup.py:589-596 | The loop over the records picks for each source the one that no other outranks. |
| RetentionRuns.KeepRule | tools/backup/m29_backup.py:595-599 | The rule of the deletion loop dooms exactly the points past their deadline that a newer one outranks. |
| RetentionRuns.Repository.Scan | tools/backup/m29_backup.py:570-588 | Scanning in place collects exactly the verified, not future-dated points. |
| RetentionRuns.Repository.Delete | tools/backup/m29_backup.py:595-607 | The deletion loop in place, with an injected stop, removes the stated prefix of the plan. |
| RetentionRuns.RunRetention | tools/backup/m29_backup.py:566-609 | A whole run: nothing when a manifest cannot be read, nothing but a report without apply, else the plan up to the failure; either way every source keeps its newest point by date. |
| Schedule.NextSlotIsLeast | tools/backup/m29_scheduler.py:155-162 | The next run is the least slot strictly after its argument, at most four hours later. |
| Schedule.NextScheduledRun | tools/backup/m29_scheduler.py:155-162 | The search over the listed hours, with its fall-back to the next midnight, returns that slot. |
| Schedule.SlotsAreFourHoursApart | tools/backup/m29_scheduler.py:155-162 | Following the next-run rule from a slot gives slots exactly four hours apart. |
| RunStatus.StatusReflectsHistory | tools/backup/m29_scheduler.py:313-372 | After any history of runs the status file says exactly what the recorded runs say: trailing failures, last success, codes, retention verdict. |
| Health.ExitExactly | tools/backup/m29_scheduler.py:313-372 | The exit of an invocation: an error before anything is recorded; 1 for an error of the scheduler or a malformed result; 2 for any other error; 0 when backup and retention both succeeded. |
| Health.RecordsExactly | tools/backup/m29_scheduler.py:313-372 | What a run records: which error, or none, and how far retention got; an invocation that does not begin leaves the file alone. |
| Health.GoodExactly | tools/backup/m29_scheduler.py:313-372 | A recorded run counts as a success exactly when its tier is known, the lock was free, its backup result is sound and retention passed. |
| Health.HealthOfFile | tools/backup/m29_scheduler.py:383-404 | The verdict on any file: missing, unreadable, invalid or future times first, then a failed last run whatever the age, then the age against six hours in whole seconds. |
| Health.HealthReflectsHistory | tools/backup/m29_scheduler.py:313-404 | Over arbitrary histories health is missing when no run succeeded, failed when the last run did not, and otherwise healthy exactly while the last consistency point is younger than six hours and a second. |
| Health.FailureIsReported | tools/backup/m29_scheduler.py:313-404 | After any history with a success, one failed run makes health say so, whatever the age of the last point. |
| RunStatus.Scheduler.RunOnce | tools/backup/m29_scheduler.py:313-372 | One run updating the status record in place is one step of that fold, and the monitoring copy follows the file. |
| RecoveryPointObjective.AlwaysHealthy | tools/backup/m29_scheduler.py:383-404 | If each slot's run starts and finishes within its limits, and slot, jitter and duration fit in six hours and a second, health says HEALTHY at every moment after the first run, whatever readable file came before; an unreadable one makes every check raise. |
| RecoveryPointObjective.RunsNeverOverlap | tools/backup/m29_scheduler.py:143-162 | Within the limits consecutive runs never overlap, and each file names the slot of the next run. |
| RecoveryPointObjective.DesignedLimits | tools/backup/m29_scheduler.py:143-162 | With the largest timer jitter and all the working time the objective leaves, health is always HEALTHY, runs never overlap and each file names the slot of the next run. |
| RecoveryPointObjective.BoundIsExact | tools/backup/m29_scheduler.py:383-404 | Beyond six hours and a second some schedule within its limits is STALE before its second run ends, whatever readable file came before. |
| InstanceLock.FlockIsSafe | tools/backup/m29_scheduler.py:212-240 | In every interleaving the flock branch has at most one scheduler inside, and the status file is what the recorded runs, one after the other, make of it. |
| InstanceLock.EntersExactly | tools/backup/m29_scheduler.py:213-240 | With flock, in every interleaving, an attempt enters exactly when nobody is inside and is rejected otherwise, touching nothing else. |
| InstanceLock.LeavesExactly | tools/backup/m29_scheduler.py:213-240 | Leaving and crashing alike free the lock of the one inside and of no one else; handles that are not inside leave without a trace. |
| InstanceLock.ReadsAndWrites | tools/backup/m29_scheduler.py:313-372 | The one inside reads the file once and records one run against what it read, or nothing. |
| InstanceLock.InterleavedStatusReflectsHistory | tools/backup/m29_scheduler.py:212-372 | However schedulers interleave on a new instance, the status file reflects the runs they recorded. |
| InstanceLock.RejectedLeavesNoTrace | tools/backup/m29_scheduler.py:226-240 | Deleting every step of a contender that was kept out changes neither lock, status, history nor any other scheduler. |
| InstanceLock.LocalSetIsSafeExactlyWhenSettled | tools/backup/m29_scheduler.py:221-236 | Without flock the lock stays safe for schedulers that only try a free lock exactly when no rejected contender is about to discard the key and every holder's key is in place. |
| InstanceLock.AttemptOnTakenKey | tools/backup/m29_scheduler.py:221-236 | One attempt on a taken key is enough to unsettle that lock. |
| InstanceLock.TwoInside | tools/backup/m29_scheduler.py:221-236 | A concrete interleaving without flock that ends with two schedulers inside. |
| InstanceLock.LostUpdate | tools/backup/m29_scheduler.py:221-240 | Continued, it records two failed runs as one. |
| Definitions.AllPresent | addons/pm_qms_iso9001/hooks.py:1066-1080 | Ensuring a list of definitions leaves each with exactly one record as defined, and every record found before keeps its number. |
| Definitions.OnlyWantedAdded | addons/pm_qms_iso9001/hooks.py:982-1001 | Only wanted records are added, after those that were there, and none when creating is not allowed. |
| Definitions.NothingToDo | addons/pm_qms_iso9001/hooks.py:1066-1080 | Once everything wanted is there, ensuring it again changes nothing. |
| PackSeeding.StructureWellFormed | addons/pm_qms_iso9001/hooks.py:946-1034 | Ensuring a pack's structure leaves every area and line referring to records that exist. |
| PackConvergence.StructureSettles | addons/pm_qms_iso9001/hooks.py:946-1034 | An ensured pack has all its areas and lines as defined, is no longer a draft, and keeps what was there before. |
| PackConvergence.SettledAgain | addons/pm_qms_iso9001/hooks.py:977-1007 | Ensuring a settled pack again changes nothing, or fails exactly when it no longer matches its blueprint. |
| PackConvergence.TasksEffect | addons/pm_qms_iso9001/hooks.py:1056-1111 | A list of activities to ensure: each exists once with the last scope it was given, and no other scope changes. |
| PackReruns.SeedConverges | addons/pm_qms_iso9001/hooks.py:1243-1303 | From any scopes, shared activities end with both packs, revised ones with the first, replacements with the second, and each pack has exactly one activity a position. |
| SeededRecords.SeedWritesTexts | addons/pm_qms_iso9001/hooks.py:1243-1303 | After a seed every position 1 to 37 has one activity with its authored text under the control its blueprint names; the seven replaced positions have one more with the revised text; both under the control the amendment names. |
| SeededRecords.SeedFillsPacks | addons/pm_qms_iso9001/hooks.py:946-1034 | After a seed each of the packs 1.0 and 1.1 is there once under its name, no draft, with an area for every phase and a line for every item, under its control, in the area of its phase, ten apart in the order of the items. |
| SeededRecords.FilesExactly | addons/pm_qms_iso9001/hooks.py:918-1240 | The content files are accepted exactly when each pack has 13 phases P01 to P13 and 37 items without repetition, the amendment follows the positions with seven replacements spelled out, and there is a text for each key and no other. |
| PackReruns.SeedIgnoresScopes | addons/pm_qms_iso9001/hooks.py:1083-1088 | Whether a seed succeeds and the records it leaves do not depend on the scopes it starts from. |
| PackReruns.SecondRun | addons/pm_qms_iso9001/hooks.py:1243-1303 | A second run creates nothing and ends in the same store, or fails when a pack does not match its blueprint. |
| PackReruns.RerunExactly | addons/pm_qms_iso9001/hooks.py:977-1007 | The second run succeeds exactly when, before the first, neither pack held an area or control its blueprint lacks. |
| FreshInstallation.UnfilledSeedSucceeds | addons/pm_qms_iso9001/hooks.py:1243-1303 | With the controls there and neither pack filled, the first seed succeeds, and every later one exactly when the draft packs held nothing their blueprints lack. |
| StrayPacks.StrayAreaRefusesRerun | addons/pm_qms_iso9001/hooks.py:977-1007 | A draft first pack with an area of its own is seeded once and refused ever after. |
| StrayPacks.StrayPackRefusesRerun | addons/pm_qms_iso9001/hooks.py:977-1007 | A concrete store and concrete inputs for which exactly this happens. |
| PackReruns.NewPackHasNoStrays | addons/pm_qms_iso9001/hooks.py:946-1034 | A pack that does not exist yet holds none. |
| FreshInstallation.FreshSeedSucceeds | addons/pm_qms_iso9001/hooks.py:1243-1303 | A fresh installation that has the controls, with blueprints that agree on shared activities, is seeded without an error, and a second time without a change. |
| PackStore.Records.EnsurePackStructure | addons/pm_qms_iso9001/hooks.py:946-1034 | The loops over phases and items, updating the store in place, do what the specification says. |
| PackStore.Records.EnsureActivity | addons/pm_qms_iso9001/hooks.py:1056-1088 | Finding or creating one activity and writing its scopes in place does what the specification says. |
| PackStore.Records.SeedImplementation | addons/pm_qms_iso9001/hooks.py:1243-1303 | The whole seed in place: everything, or the store as it was. |
| ReferenceMapping.CountDetectsDuplicates | addons/pm_qms_iso9001/hooks.py:295-306 | For an accepted blueprint the final count agrees exactly when no reference is mapped twice. |
| ReferenceMapping.AcceptedExactly | addons/pm_qms_iso9001/hooks.py:282-321 | The 2026 blueprint is accepted exactly when codes and references are unique, every control has an area of the list and its texts, and the inventory is the listed references. |
| ReferenceMapping.SeedLeavesAreas | addons/pm_qms_iso9001/hooks.py:324-380 | After a seed the pack and the profile are there, drafts still, and every area under its name, ten apart in the order of the list. |
| ReferenceMapping.SeedLeavesControls | addons/pm_qms_iso9001/hooks.py:381-540 | After a seed every control has its own record, its line at its place in its area, its activity, its evidence definitions numbered from one and a draft mapping for each of its references. |
| ReferenceMapping.EachReferenceMappedOnce | addons/pm_qms_iso9001/hooks.py:295-306 | If it agrees, each inventory reference belongs to exactly one (control, reference) pair. |
| ReferenceMapping.SeedMapsEachReferenceOnce | addons/pm_qms_iso9001/hooks.py:511-539 | After a successful seed each inventory reference has one blueprint row, plus the stale rows the profile already had. |
| ReferenceMapping.SeedDefinesEachOnce | addons/pm_qms_iso9001/hooks.py:309-540 | A successful seed leaves the pack, every area, the profile and every control, line, activity, evidence definition and mapping once, as defined; it adds nothing else, and a second one changes nothing. |
| ReferenceMapping.MappingTable.SeedMappings | addons/pm_qms_iso9001/hooks.py:309-540 | The whole 2026 seed, its nested loops updating the records in place, does what the specification says, or leaves everything as it was. |
| EventLog.ReplayEntries | addons/pm_qms_core/models/event.py:63-96 | A batch of events moves a record's chain by nothing, by one step, or breaks it when the record is listed twice. |
| EventLog.ReplayBroken | addons/pm_qms_core/models/event.py:63-96 | A chain that does not lead to the record's state never recovers: the next event starts from the state. |
| DocumentRuns.ReachableIsConsistent | addons/pm_qms_documents/models/document_revision.py:48-170 | In every reachable library each active revision is its document's current one, signed-off revisions have approver and effective date, and every revision's events lead from draft to its state. |
| DocumentRuns.OneActiveRevision | addons/pm_qms_documents/models/document_revision.py:48-59 | So a document never has two active revisions. |
| DocumentRuns.ActivationSucceeds | addons/pm_qms_documents/models/document_revision.py:120-157 | Activation never trips the uniqueness constraint: it supersedes the other active revisions first. |
| DocumentRuns.BatchActivates | addons/pm_qms_documents/models/document_revision.py:120-157 | After a batch exactly the last revision listed of each document is active and current; what it outdates is superseded. |
| DocumentRuns.BatchFailsExactly | addons/pm_qms_documents/models/document_revision.py:122-124 | A batch of distinct revisions fails exactly when an entry is neither approved, nor active without an earlier entry of its document. |
| DocumentRuns.ChainsNeedDistinctRecords | addons/pm_qms_documents/models/document_revision.py:65-118 | A batch write keeps the event chains exactly when no record is listed twice. |
| DocumentRuns.RepeatBreaksChain | addons/pm_qms_documents/models/document_revision.py:65-81 | A concrete draft revision submitted twice in one call: its events no longer lead to its state. |
| DocumentRuns.SupersededIsTerminal | addons/pm_qms_documents/models/document_revision.py:65-175 | No action on any list of records changes a superseded revision. |
| DocumentRuns.MoveExactly | addons/pm_qms_documents/models/document_revision.py:65-118 | A move changes exactly the listed revisions in a source state; an approval signs them; nothing else about any revision changes. |
| DocumentRules.MovesWritten | addons/pm_qms_documents/models/document_revision.py:65-175 | Submitting, approving, rejecting or superseding revisions asks for a manager alone; it takes the listed ones in a state it starts from, in order; each gets its state, its approver where it is approved, and one event of its kind; nothing else changes. |
| DocumentRules.ActivationWritten | addons/pm_qms_documents/models/document_revision.py:120-157 | One activation, field by field: asked of an approved or active revision by a manager; the revision active and effective today or when it was, its document active, current and not archived, the revision it replaces superseded, and the events of both. |
| DocumentRules.BatchInTurn | addons/pm_qms_documents/models/document_revision.py:120-157 | Activating a list is activating one after the other, and a failure undoes all. |
| DocumentRules.RevisionCreated | addons/pm_qms_documents/models/document_revision.py:43-46 | A new revision is a draft under the next id, and fails exactly when its document is unknown or has its label. |
| DocumentRules.RevisionsDeleted | addons/pm_qms_documents/models/document_revision.py:172-175 | Revisions are deleted exactly when all are drafts, and no others with them. |
| DocumentRuns.ApplyKeeps | addons/pm_qms_documents/models/document.py:110-189 | Each revision and document action keeps the invariants and only adds to the log. |
| DocumentRuns.DocumentActivatesNewest | addons/pm_qms_documents/models/document.py:152-158 | Activating a document makes its newest approved or active revision current, and fails only if it has none. |
| DocumentRules.DocumentActivation | addons/pm_qms_documents/models/document.py:152-158 | Activating a document is activating the approved or active revision of the latest date, of the highest id on that date; it fails when there is none. |
| DocumentRules.DocumentsInTurn | addons/pm_qms_documents/models/document.py:152-158 | Activating several documents is activating one after the other, and a failure undoes all. |
| DocumentCascade.DocumentsMoved | addons/pm_qms_documents/models/document.py:110-150 | Submitting, approving or rejecting documents in full: their states and one event each; with them their drafts, or what is under review, newest first, one event each; nothing else. |
| DocumentCascade.ObsoleteWritten | addons/pm_qms_documents/models/document.py:160-171 | Making documents obsolete archives them, with one event each, and leaves their revisions. |
| DocumentRuns.NextRevisionIsFree | addons/pm_qms_documents/models/document.py:173-189 | Creating the next revision never meets the unique-name constraint. |
| DocumentRules.NextRevisionWritten | addons/pm_qms_documents/models/document.py:173-197 | The next revision is a new one of today; its label has two digits or more and is one more than the greatest numeral among the labels, or than their count when there is none. |
| DocumentRegister.Register.MoveRevisions | addons/pm_qms_documents/models/document_revision.py:65-118 | The batch write followed by one event a record, in place, does what the specification says. |
| DocumentRegister.Register.Activate | addons/pm_qms_documents/models/document_revision.py:120-157 | The activation loop in place: all turns, or the register as it was. |
| DocumentRegister.Register.ActivateDocuments | addons/pm_qms_documents/models/document.py:152-158 | The same for the document-level action. |
| DocumentRegister.Register.MoveDocuments | addons/pm_qms_documents/models/document.py:110-150 | Submitting, approving and rejecting documents in place: the states at once, then each document's event and its revisions. |
| DocumentChains.DocumentChainExactly | addons/pm_qms_documents/models/document.py:110-171 | Document by document: its events tell its state after an action exactly when they did before and the action neither activates it while it is not active nor lists it twice for a change of state. |
| DocumentChains.LibraryChainsExactly | addons/pm_qms_documents/models/document.py:110-171 | With every chain in order an action keeps them all exactly when it breaks none of them, read off the library before the call. |
| DocumentChains.ReachableChainsExactly | addons/pm_qms_documents/models/document.py:110-171 | Over all runs: a document's events lead to its state exactly when no step carried out activated it while it was not active or listed it twice for a change of state. |
| DocumentChains.ActiveIsUntold | addons/pm_qms_documents/models/document_revision.py:120-157 | In every reachable library an active document's events do not tell that it is. |
| DocumentChains.SilentActivation | addons/pm_qms_documents/models/document_revision.py:120-157 | A concrete activation after which a document is active while its events end in approved. |
| RevisionNames.NextIsFresh | addons/pm_qms_documents/models/document.py:191-197 | For any labels, numeric or not, the next label is new and its number lies above every numeric one. |
| RevisionNames.AutomaticLabels | addons/pm_qms_documents/models/document.py:191-197 | Automatic labels count up from 01, padded to two digits. |
| CapaRuns.ReachableFileOk | addons/pm_qms_capa/models/capa.py:235-415 | In every reachable state every CAPA is sound and its events replay to its state; it is closed only from effective. |
| CapaRuns.ReachableStructure | addons/pm_qms_capa/models/capa.py:367-385 | Zero or four Is / Is Not rows, distinct Why slots in 1..5, and in analysis the full structure of the CAPA's method. |
| CapaRuns.InitializeCompletes | addons/pm_qms_capa/models/capa.py:367-385 | Initialization never fails its own integrity checks, only adds slots, and completes the structure. |
| CapaRuns.FourRows | addons/pm_qms_capa/models/capa_is_is_not.py:77-89 | Rows that pass the integrity check are exactly four, one a dimension. |
| CapaRuns.WhysCompleted | addons/pm_qms_capa/models/capa_why.py:34-53 | Adding the missing slots gives five distinct ones with their prompts. |
| CapaRules.WhysAdded | addons/pm_qms_capa/models/capa.py:367-375 | Initializing a 5 Why analysis adds the missing slots in ascending order, each with its own question, unanswered, and nothing else. |
| CapaRules.RowsAdded | addons/pm_qms_capa/models/capa.py:376-385 | Initializing an Is / Is Not analysis adds the missing dimensions in their order, blank, and nothing else. |
| CapaRules.ReachablePrompts | addons/pm_qms_capa/models/capa_why.py:8-32 | In every reachable state each Why slot asks its own of five spelled-out questions. |
| CapaRuns.StartExactly | addons/pm_qms_capa/models/capa.py:253-258 | Starting analysis fails exactly without permission, a record or its prerequisites. |
| CapaRuns.FiveWhyExactly | addons/pm_qms_capa/models/capa.py:405-415 | The 5 Why check accepts exactly a full set of five slots whose answered ones are a non-empty prefix 1..k. |
| CapaRuns.LockedAfterDraft | addons/pm_qms_capa/models/capa.py:331-360 | After draft no action changes a CAPA's method or provenance, or deletes it. |
| CapaRuns.WorkflowExactly | addons/pm_qms_capa/models/capa.py:235-329 | A workflow action succeeds exactly for a manager and CAPAs that meet its guard, whatever state they are in unless it closes them, and takes those to its goal and no others. |
| CapaRules.AnalysisExactly | addons/pm_qms_capa/models/capa.py:401-436 | What a completed analysis is, slot by slot: five numbered answers without a gap, confirmed causes with basis and rationale, four full rows, or the other method named. |
| CapaRules.ActionsWritten | addons/pm_qms_capa/models/capa.py:235-329 | Each workflow action by its rule, its state and its kind of event: it succeeds exactly for a manager and CAPAs that meet the rule, logs one event each, and changes nothing else but missing slots. |
| CapaRules.DraftEdits | addons/pm_qms_capa/models/capa.py:331-365 | Method and a new source can be written on drafts only, a source must fit its type, and only drafts can be deleted. |
| CapaRules.OpenEdits | addons/pm_qms_capa/models/capa.py:331-360 | Conclusions can be written before implementation or after cancelling; answers and rows before implementation. |
| CapaRules.EditsExactly | addons/pm_qms_capa/models/capa.py:331-360 | Each edit changes the fields it names, of one CAPA, and neither states nor events. |
| CapaRules.AddsAndRemoves | addons/pm_qms_capa/models/capa.py:362-365 | A new CAPA is a draft without slots under the next number; a deletion removes the listed ones alone. |
| CapaRuns.LogGrows | addons/pm_qms_core/models/event.py:40-44 | No CAPA action removes or changes an event. |
| CapaCabinet.Cabinet.InitializeWhys | addons/pm_qms_capa/models/capa.py:369-375 | Collecting and creating the missing slots in place does what the specification says. |
| CapaCabinet.Cabinet.StartAnalysis | addons/pm_qms_capa/models/capa.py:253-258 | The check-and-initialize loop and the transition in place: all of it, or nothing. |
| StateTable.TurnsSound | addons/pm_qms_capa/models/capa.py:235-251 | A transition loop keeps every record's chain of events. |
| StateTable.TurnsSucceedExactly | addons/pm_qms_audit/models/audit.py:225-250 | With a table that forbids staying, a batch succeeds exactly for distinct records that may all move. |
| StateTable.TurnsLog | addons/pm_qms_capa/models/capa.py:235-251 | A transition of any list of records logs one change a record, in order, from the state it was in. |
| StateTable.Ledger.Transition | addons/pm_qms_audit/models/audit.py:235-250 | The transition loop in place: every turn, or states and log as they were. |
| AuditRuns.ReachableBooksOk | addons/pm_qms_audit/models/audit.py:150-288 | In every reachable state logs replay, audits are on their path, and findings keep their bounds. |
| AuditRuns.CompletedAuditsPath | addons/pm_qms_audit/models/audit.py:225-278 | A completed audit's events, without the independence remarks, are exactly the five-step path. |
| AuditRuns.AuditBatchExactly | addons/pm_qms_audit/models/audit.py:225-250 | A batch of audits moves exactly for a manager, distinct records and listed moves. |
| AuditRuns.FindingBatchExactly | addons/pm_qms_audit/models/audit_finding.py:137-161 | The same for findings. |
| AuditRuns.AuditWorkflowExactly | addons/pm_qms_audit/models/audit.py:201-278 | An audit transition succeeds exactly for a manager, distinct audits in a listed state, and its requirements met, and moves those and no others; starting to report on no audits asks for nothing and changes nothing. |
| AuditRuns.FindingWorkflowExactly | addons/pm_qms_audit/models/audit_finding.py:137-188 | The same for findings, with closing notes where it closes. |
| AuditRules.AuditsWritten | addons/pm_qms_audit/models/audit.py:201-278 | Each audit transition by a spelled-out table of moves, its requirements, the dates it sets and its kind of event: when it succeeds, and everything it writes. |
| AuditRules.FindingsWritten | addons/pm_qms_audit/models/audit_finding.py:137-188 | The same for findings, from a spelled-out table of moves. |
| AuditRules.RaiseExactly | addons/pm_qms_audit/models/audit_finding.py:190-228 | A nonconformity is created exactly by a manager from an issued finding classified so, with a process and without one yet; it is a draft, and the finding moves to action required from wherever it was. |
| AuditRules.IndependenceWritten | addons/pm_qms_audit/models/audit.py:150-199 | Recording independence sets what is required and confirmed on the listed audits and adds a remark each with what was said before. |
| AuditRules.AuditsDeleted | addons/pm_qms_audit/models/audit.py:285-288 | Audits are deleted exactly when all are drafts without findings. |
| AuditRules.FindingChanged | addons/pm_qms_audit/models/audit_finding.py:107-111 | A finding may have a severity exactly when it is a nonconformity; a change of classification is logged. |
| AuditRules.FindingAdded | addons/pm_qms_audit/models/audit_finding.py:79-87 | A new finding belongs to a known audit, has a severity only as a nonconformity, and starts as a draft without one created from it. |
| AuditRules.FindingsDeleted | addons/pm_qms_audit/models/audit_finding.py:254-257 | Findings are deleted exactly when none was issued, and no others with them. |
| AuditRules.NcrExactly | addons/pm_qms_ncr/models/nonconformity.py:264-267 | A nonconformity can be deleted as a draft only; neither its deletion nor its opening moves the finding or writes an event. |
| AuditRules.AuditEdits | addons/pm_qms_audit/models/audit.py:130-136 | An audit is created or edited exactly when its dates are in order; it starts as a draft. |
| AuditRules.IndependenceExactly | addons/pm_qms_audit/models/audit.py:150-199 | Both records of independence ask for a manager; the override also for notes on every audit. |
| AuditRuns.ReopenedAtMostOnce | addons/pm_qms_audit/models/audit_finding.py:190-228 | While none of its nonconformities is deleted a finding leaves a closed or cancelled state at most once, and then it has one. |
| AuditRuns.ReopenedByNonconformities | addons/pm_qms_audit/models/audit_finding.py:190-228 | In every run a finding is reopened at most as often as nonconformities were created from it, which are those deleted and the one it has; its events replay to its state. |
| AuditRuns.ReopenedTwice | addons/pm_qms_ncr/models/nonconformity.py:264-267 | A concrete finding reopened twice, its draft nonconformity deleted in between. |
| AuditRuns.LogsGrow | addons/pm_qms_core/models/event.py:40-44 | No audit or finding action removes or changes an event. |
| AuditOffice.Office.MarkReady | addons/pm_qms_audit/models/audit.py:255-257 | The ready check and transition in place do what the specification says. |
| AuditOffice.Office.Complete | addons/pm_qms_audit/models/audit.py:273-275 | The completion check and transition in place do what the specification says. |
| AuditOffice.Office.RecordIndependence | addons/pm_qms_audit/models/audit.py:150-172 | The write and its remarks in place do what the specification says. |
| AuditOffice.Office.RaiseNcr | addons/pm_qms_audit/models/audit_finding.py:190-228 | Creating a nonconformity in place records it as a draft and moves the finding to action required. |
| Calibration.LatestIsGreatest | addons/pm_qms_calibration/models/equipment.py:165-173 | The roll-up picks the accepted passing event that is last by date and then number, and none exactly when there is none. |
| Calibration.AddInterval | addons/pm_qms_calibration/models/equipment.py:233-239 | For a frequency of at least one the next due day is strictly later; how far is Calibration.AddIntervalExactly. |
| Calibration.AddIntervalExactly | addons/pm_qms_calibration/models/equipment.py:233-239 | Days lead exactly that many days ahead, months move the month index by their number, years move the year and keep the month; the day stays, or is the last of a shorter month. |
| CalibrationRules.StatusExactly | addons/pm_qms_calibration/models/equipment.py:165-192 | The status on a day: by lifecycle first, then whether calibration is required, then the due date of the accepted good event of the latest day and number: overdue, due, due soon within the window, or current. |
| Calibration.FilledDueIsLater | addons/pm_qms_calibration/models/calibration_event.py:144-145 | The due date an acceptance fills in never breaks the date constraint. |
| Calibration.AcceptFailsExactly | addons/pm_qms_calibration/models/calibration_event.py:137-148 | Accepting a set of events fails exactly without a manager, or when some event has no date or misses its due date in locked accepted history. |
| Calibration.RunSound | addons/pm_qms_calibration/models/calibration_event.py:105-165 | In every run of actions dates are ordered, accepted events have their date, and failed ones an assessment of their own. |
| Calibration.ReturnRefusedExactly | addons/pm_qms_calibration/models/equipment.py:259-267 | Return to service is refused exactly without a manager or with an open assessment; its second check never fires. |
| Calibration.ExposureIsLatest | addons/pm_qms_calibration/models/calibration_event.py:167-192 | The exposure of a failed event starts at the last passing event accepted up to its date, if there is one. |
| Calibration.Instrument.Accept | addons/pm_qms_calibration/models/calibration_event.py:137-160 | Acceptance of a set of events on the record in place, its three passes in turn, does what the specification says and keeps it sound; an error restores the record. |
| CalibrationAcceptance.AcceptedEvents | addons/pm_qms_calibration/models/calibration_event.py:137-160 | Every event of the set is accepted with its due date filled in, failed ones get an assessment of their own, and other events and earlier assessments stay as they were. |
| CalibrationAcceptance.DueDatesFilled | addons/pm_qms_calibration/models/calibration_event.py:144-145 | A good event of required equipment that had no due date is due a whole interval after its calibration; every other event when it was. |
| CalibrationRules.AcceptSucceeds | addons/pm_qms_calibration/models/calibration_event.py:137-148 | Accepting asks for a manager and a calibration date on every event, and for an administrator where it fills in a date of an event accepted before. |
| CalibrationRules.EventsAccepted | addons/pm_qms_calibration/models/calibration_event.py:137-160 | Each event of the list field by field: its state, its due date by the calendar, its assessment; no other event changes. |
| CalibrationRules.LifecycleAfter | addons/pm_qms_calibration/models/calibration_event.py:149-158 | Quarantine when the last event of the list failed, else service; retired equipment stays retired when no event failed. |
| CalibrationRules.AssessmentsOpened | addons/pm_qms_calibration/models/calibration_event.py:167-192 | An acceptance opens one assessment for each failed event that has none, open, from the last good event accepted up to its date to its own date, and no others; each such event is linked to its first. |
| CalibrationRules.StepsWritten | addons/pm_qms_calibration/models/calibration_event.py:124-166 | Starting, submitting and cancelling: who may, and what changes. |
| CalibrationRules.CreateWritten | addons/pm_qms_calibration/models/calibration_event.py:82-118 | A new event is a draft and needs its dates in order. |
| CalibrationRules.EditWritten | addons/pm_qms_calibration/models/calibration_event.py:106-118 | An event that is not accepted can be edited as long as its dates stay in order, and nothing else changes. |
| CalibrationRules.LifecycleWritten | addons/pm_qms_calibration/models/equipment.py:245-269 | Marking out, quarantine and return to service: who may, when, and what changes. |
| CalibrationAcceptance.LastDecides | addons/pm_qms_calibration/models/calibration_event.py:149-158 | The last event of the set decides whether the equipment ends in service or quarantined; it stays retired exactly when all pass. |
| CalibrationAcceptance.OpenAfter | addons/pm_qms_calibration/models/calibration_event.py:167-192 | After an acceptance an assessment is open exactly when one was before or a failed event had none. |
| CalibrationAcceptance.GuardBrokenExactly | addons/pm_qms_calibration/models/equipment.py:259-267 | Equipment in service never has an open assessment, except after an acceptance whose last event passes while an assessment is open or a failed event of the set needs one; no other action breaks that rule. |
| CalibrationAcceptance.OrderDecides | addons/pm_qms_calibration/models/calibration_event.py:149-158 | A concrete failed and passing event: accepted in this order the equipment is in service with its assessment open, in the other it is quarantined. |
| CalibrationAcceptance.NewestAcceptedIsShown | addons/pm_qms_calibration/models/calibration_event.py:137-158 | The latest passing event, accepted before or in this set, is what the roll-up then shows. |
| CalibrationFixture.RenewalIsNewer | deployment/demo/seed_demo.py:261-267 | With a suitable fixture a status that is off means a period later than the last certificate, and renewing restores the status. |
| CalibrationFixture.FixtureHolds | deployment/demo/seed_demo.py:270-295 | On any ordered sequence of seed days a suitable fixture has its status every day and never raises. |
| CalibrationFixture.NeverRaisesExactlyWhenSuitable | deployment/demo/seed_demo.py:270-295 | A fixture never raises, whatever the days, exactly when cadence, interval and window fit. |
| CalibrationFixture.DemonstrationFixtures | deployment/demo/seed_demo.py:1374-1383 | The due-soon fixture is safe exactly for a window of 18 days or more, the current one exactly for less than 180. |
| CalibrationFixture.SeedFixture | deployment/demo/seed_demo.py:250-295 | One fixture's part of a seed run on the record in place: done, or the record as it was. |
| ActivityAccess.QmsAccessible | addons/pm_qms_app/models/mail_activity.py:9-38 | The filter that groups activities by document equals the order-preserving filter by one activity's own rule. |
| ActivityAccess.AccessibleExactly | addons/pm_qms_app/models/mail_activity.py:9-38 | An activity is accessible exactly when its model is outside the QMS, or its document exists and may be accessed for the operation. |
| ActivityAccess.Search | addons/pm_qms_app/models/mail_activity.py:67-74 | A page is that slice of the accessible list. |
| ActivityAccess.SearchCount | addons/pm_qms_app/models/mail_activity.py:76-79 | The count is the length of the first page. |
| ActivityAccess.PagesConcatenate | addons/pm_qms_app/models/mail_activity.py:67-74 | Consecutive pages of any size concatenate to the whole accessible list. |
| ActivityAccess.CheckAccess | addons/pm_qms_app/models/mail_activity.py:40-60 | The check adds exactly the activities the document boundary forbids, in order. |
| ActivityAccess.FoundIsReadable | addons/pm_qms_app/models/mail_activity.py:40-74 | Nothing a search returns is forbidden by the check. |

## Left out

- Python's own limits: dates outside years 1 to 9999, text that is not UTF-8, digits beyond ASCII, and JSON numbers that compare equal across types (`1`, `1.0`, `true`).
- Encryption, hashing, JSON text and tar are functions given to the model; what is assumed of them is `RecoveryPoint.Lawful` and `RecoveryPoint.KeyPair`; nothing is assumed about collisions of digests.
- RoundTrip.PackSucceedsExactly: an archive named `payload.tar` would be encrypted onto the staged plain archive it is read from; what the encryption tool does then is not modelled.
- Packing.Pack: arguments come resolved, each component with its name, its path and what is there; splitting `NAME=PATH`, following symbolic links and creating the output directory are not modelled. The refused words in component names are left out because no allowed name holds one.
- `age` as a subprocess, its version check, file modes and disk-full errors while staging: a link, unlink or flush that fails during publication is modelled, other input and output errors are not.
- Transfer.TransferTo: whether the destination is the source directory is an input; creating the destination and a copy that changes while it is read are not modelled.
- Publication.Target.AtomicPublish: a crash of the machine between two system calls is not modelled, only errors the calls return; so flushes matter by failing, not by what survives a power loss.
- Command lines, printing, `verify` and `deep_verify` as commands, and `schedule_semantics` beyond its numbers.
- The default runners of the scheduler (shell scripts); a run's backup and retention outcomes are inputs of the model.
- InstanceLock.LocalSetIsSafeExactlyWhenSettled: one process with many threads; several processes without flock share no key at all.
- Definitions of packs, areas, lines, controls and activities are compared as one value each; company, archived records, external identifiers and the evidence crosswalk are not modelled, nor is the parsing of the content files.
- PackSeeding: definition keys are the two numbered families and everything else, so that keys of a family differ exactly when their numbers do; the content checkpoints of authored activities are left out.
- ReferenceMapping: a record refers to its control, area, pack and profile by code; the other texts of a definition are one text, and records of other packs, profiles and companies are not in the tables.
- Writes to records other than through the modelled actions: administrator corrections of accepted calibration history, direct writes to current pointers, independence flags other than by an edit, deletion of documents, nonconformities linked to a finding other than by creating them from it.
- Documents: the events of documents and of revisions are two logs, so the order between the two kinds is lost; attachments, acknowledgments, effective and review dates other than the one activation sets.
- Lists of records given to revision actions are taken as record sets: each record once. `DocumentRuns.ChainsNeedDistinctRecords` says exactly what happens otherwise.
- Capas: company and organization of linked records, attachments, action records beyond their status, effectiveness dates and reviewers; texts count as filled in or not.
- Audits: plan lines, planned dates, evidence links and their alignment checks, ordinary edits of details other than those the workflow looks at.
- Calibration: starting, submitting and cancelling several events at once, sets of events of different equipment, measurement lines, attachments, due activities, the states of an impact assessment beyond open or not.
- CalibrationFixture: renewal codes are taken to differ for different days, which their eight-digit dates do from year 1000 on; other writers of the same equipment between seed runs.
- ActivityAccess: the document filter is a function of one document and one operation, so it decides each document by itself; record rules of the ordinary search are its input.
- Audits, findings and CAPA transitions other than those modelled in place (`AuditOffice`, `CapaCabinet`) are stated as functions over the same table that `StateTable.Ledger.Transition` updates in place.
- Complaints, supplier issues, 8D, dashboards, risk and training models, the methodology normalizer and the repository's release tools: unguarded transitions, counters and reporting.
