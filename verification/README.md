# AutoKeyboardLayot: a verified model

AutoKeyboardLayot converts words typed in the wrong keyboard layout. Around that it keeps an
inventory of signed language packages, an installer with a background worker, a configuration
file that several windows may edit at once, and a set of watchdogs. This project models the parts
of it that carry state, history or arithmetic, and proves what they promise.

- **Package inventory.** Immutable inventories move by import, install from a plan, removal and
  rollback. A guard that shares no code with those operations re-derives what a legal successor
  is. Guard and operations are proved to fit each other; safety is proved over every run the guard
  accepts, restarts included; the saved state is proved to be small enough, unambiguous, and
  inverted by loading it through a reader of JSON; and what a selection accepts is proved to agree
  with what staging accepts later.
- **Installer.** Session, worker, thread and command loop are one state machine in which the
  thread may end, fail or panic between any two commands. Session and worker never disagree, with
  one exact exception: an install whose thread panics leaves the session installing for good. A
  request made on another page than the one that is open changes nothing, and every install that runs
  was confirmed on the review of what it installs. A helper that closes waits for one thread and cuts
  no install off.
- **Probe.** A client, a one-slot queue, providers that may hang, reply channels and the clock
  interleave freely. Answers are never misattributed or reused, their age is bounded from the
  stamp and from the submission, an answer that is there and fresh is handed out, and a provider is
  replaced only after its queue was full long enough with no sign of life.
- **Configuration.** Which files are read, as which document, and how the others are refused; writing
  them and reading them back; the rules in them; and the three-way merge of an edited configuration into one that changed meanwhile: when its laws hold, when they
  fail, and that it always yields a valid document.
- **Detector and layout model.** The early-return loops against a counting rule, the binding of
  languages to keyboard profiles, the model file with its parser, scoring from n-gram rows to
  probabilities in floating point, and the table-driven CRC-32 (section 8 of RFC 1952).
- **Localization and limits.** The registry of catalogs, locale lookup, message templates, and the
  two sliding windows with the contained worker loop.

Where the source changes an object in place there is a class with methods, proved against
functions on values; where it loops there is a method with a loop, proved against a function or a
property. The lemmas are about those functions. In particular the methods of the classes
`InstallerSession` and `InstallerWorker` make exactly the transitions of the session and helper
models over which the results for whole runs are stated.

The functions themselves are held to their meaning by the modules whose names end in `Outcomes`, by
`DetectorResults` and by `ConfigurationFiles`: they state what an operation does in terms of its inputs
alone, each success and each refusal, without the functions that compute it.

## How it is organised

| file | about |
|---|---|
| `Wrappers.dfy`, `Strings.dfy` | options and results; ordered keys, splitting, trimming, numbers as text |
| `PackageInventory.dfy`, `InventoryGuard.dfy`, `InventoryStaging.dfy` | the inventory, the guard, and that staged inventories pass it |
| `InventoryOutcomes.dfy`, `GuardOutcomes.dfy` | what each way of staging, and the guard, comes to: every success and every refusal |
| `InventoryHistory.dfy`, `InventoryLifetime.dfy` | whole runs, and whole lives with restarts |
| `StateFormat.dfy`, `JsonReader.dfy`, `InventoryPersistence.dfy`, `RestoreOutcomes.dfy` | the saved bytes, a reader for them, loading them, and which states are restored |
| `PackageCatalog.dfy`, `PackageInstall.dfy`, `SelectionOutcomes.dfy` | signed catalogs, selection, agreement with staging, and which documents and selections are accepted |
| `InstallerSession.dfy`, `InstallerHelper.dfy` | the session, and session with worker and command loop |
| `BoundedProbe.dfy`, `ProbePromises.dfy` | the probe, and who may still answer it |
| `BackendRules.dfy`, `RuleOutcomes.dfy` | the rules, and what their lines give |
| `ConfigurationText.dfy`, `ConfigurationRoundTrip.dfy` | the file and its round trip |
| `ConfigurationOutcomes.dfy`, `ConfigurationFiles.dfy` | which lines and files are read, and as what |
| `ConfigurationMerge.dfy`, `ConfigurationMergeLaws.dfy`, `ConfigurationMergeResults.dfy` | the merge |
| `InputBindings.dfy`, `Detector.dfy`, `DetectorResults.dfy` | profiles, detection, and which target wins |
| `LayoutModel.dfy`, `Crc32.dfy` | the model file and n-grams, the checksum |
| `FloatNumbers.dfy`, `LayoutScoring.dfy`, `LayoutProbabilities.dfy` | floating point, the logits, the probabilities |
| `Localization.dfy`, `LocalizationOutcomes.dfy`, `MessageFormat.dfy` | catalogs, what they and requests come to, templates |
| `SlidingWindows.dfy` | rate limit, fault window, contained loop |

`dafny verify dfyconfig.toml` checks the whole project.

## What is assumed

- A package or catalog handed to the inventory is already authenticated. Digests and packages are
  opaque values with equality; nothing assumes that a hash is injective.
- `DecoderOk`: a JSON decoder reads back what the store can write: text without quotes, backslashes
  and control characters, and format 1 or 2. `JsonReader` is a reader of compact JSON that does
  (`InventoryLifetime.JsonReaderDecodes`); with it nothing about decoding is assumed
  (`InventoryLifetime.SavedIsRestored`).
- `LowerOk`: lowercasing is idempotent, neither introduces nor moves blanks, quotes, separators and
  characters forbidden in paths, and keeps trimmed text trimmed. `BackendRules.AsciiLowerOk` gives
  an instance.
- `FormatsOk`: a stored dictionary row, pack id or profile normalizes to itself and reads as one
  row; settings are rows with distinct keys that are read in any order and ignore keys they do not
  know. `HotkeyRows` and `RowByRow`: the hotkey is three of those rows, and settings are checked row
  by row with the hotkey's rows taken together. `ConfigurationMergeResults.PremisesCanBeMet` gives
  an instance of all of them.
- Times given to the sliding windows do not decrease, and a profile descriptor belongs to the pack
  that carries it (`Owned`).
- `TrimsLowered`: lowercased patterns stay lowercased when their outer blanks go.
- `RoundingOk`, `ExponentialOk`: rounding keeps the order and what is representable, and is exact on
  multiples of a sixteenth up to 16; the exponential of numbers up to zero lies between zero and one,
  in order, and is one at zero. `FloatNumbers.BoundedIsOk` gives an instance that overflows.

## Where the code and its description differ

- *Age of a probe's answer* (`src/bounded_probe.rs:153-154`): an answer is meant to be younger than
  `max_age`. The age is counted from a stamp taken after the request was queued. What a caller may
  rely on, counted from the submission, is `max_age` plus the time between the accepted `try_send`
  and the stamp (`BoundedProbe.AgeFromSubmission`). That limit is reached
  (`BoundedProbe.LateHandOut`, `BoundedProbe.StampMayLag`), so `max_age` alone bounds the age exactly
  when that time is zero (`BoundedProbe.BoundFromSubmission`).
- *Cancelling* (`src/installer_worker.rs:115-120`): a panicked worker is meant to free the session.
  The session refuses to cancel an install, so after a panicked install it stays installing, and
  every further request but a poll or the request to close is refused; closing lets the helper leave
  at once (`InstallerHelper.PanickedInstallIsFinal`). Such a run exists
  (`InstallerHelper.InstallMayPanic`).
- *Rules in the file* (`src/backend_rules.rs:158-174`): a pattern is meant to lose its quotes and
  blanks. Blanks between nested quotes survive, and such a configuration cannot be saved
  (`ConfigurationRoundTrip.SaveAndLoad`; such files load by `ConfigurationRoundTrip.LoadedButRefused`).
- *Merging rules* (`src/configuration.rs:472-476`, `src/configuration.rs:775-782`): what only one side
  changed is meant to be taken over as it is. The merge takes rules apart into trimmed rows, so a
  loaded rule whose pattern carries outer blanks comes out trimmed, with no conflict reported
  (`ConfigurationMergeResults.PatternIsTrimmed`); a pattern of blanks alone makes all merged rules
  unreadable, and the draft's are kept (`ConfigurationMergeResults.BlankPatternConflicts`).
  `ConfigurationMergeResults.MergeLaws` says exactly when the laws hold.

## Model

| member | source | states |
|---|---|---|
| PackageInventory.AddPackagesInPlace | src/package_inventory.rs:206-240 | the loop over offered packages equals adding them one by one: base, repeated, older or differing packages are refused, an upgrade records its predecessor as rollback target |
| PackageInventory.RemoveInPlace | src/package_inventory.rs:191-205 | removal drops exactly the named packages and their rollback targets and keeps every high-water mark |
| PackageInventory.ValidMeans | src/package_inventory.rs:242-285 | validation passes exactly when packages, marks and total size are within their limits, the history is in order, and no two packages claim the same interface name; the number of rollback targets never decides |
| PackageInventory.SnapshotBuildsIff | src/package_inventory.rs:275-285 | the catalog snapshot can be built exactly when no two packages claim the same interface name, in whatever order they are added |
| InventoryGuard.CheckSuccessor | src/package_inventory.rs:400-458 | the guard's loops compute its verdict: unchanged state only at the same generation, otherwise the next generation, re-derived rollback targets, monotone marks, kept repository and checkpoint, and validity |
| InventoryGuard.DeriveTargets | src/package_inventory.rs:409-428 | the loop that derives rollback targets from two inventories, or the first package that changed illegally |
| InventoryGuard.CheckMarks | src/package_inventory.rs:432-440 | no high-water receipt may vanish, drop, or change at one revision |
| InventoryGuard.GuardAcceptsIff | src/package_inventory.rs:400-458 | the guard accepts exactly the unchanged state and the legal changes, stated over receipts, targets, marks, repository and checkpoint without the guard's own functions |
| GuardOutcomes.GuardOutcome | src/package_inventory.rs:400-458 | which refusal a change meets: a wrong generation, the first illegal move in the order of ids, targets other than the implied ones, the first illegal mark, another repository, an older or different catalog, and last what its validity says |
| GuardOutcomes.ValidityIs | src/package_inventory.rs:242-257 | validation refuses size first, then an unsound history, then ambiguous names, and nothing else |
| InventoryGuard.AddAllChanges | src/package_inventory.rs:206-240 | adding packages changes exactly the listed ones, each to its own receipt, mark and target |
| InventoryStaging.CandidateLegal | src/package_inventory.rs:110-240 | what import, plan, removal and rollback build is a legal change of history and catalog, with exactly the rollback targets the guard derives |
| InventoryStaging.GuardAcceptsStaged | src/package_inventory.rs:110-272 | every inventory an operation returns is accepted by the guard |
| InventoryStaging.StageKeepsWf | src/package_inventory.rs:110-272 | every operation keeps the working invariant |
| InventoryStaging.RemovedValid | src/package_inventory.rs:191-204 | removing packages from a valid inventory leaves a valid one |
| InventoryOutcomes.AddingOutcome | src/package_inventory.rs:206-240 | adding packages is refused exactly for the first that is the base, repeated, older than its mark or different at it, each as what it is; else all are added |
| InventoryOutcomes.ImportOutcome | src/package_inventory.rs:136-146 | an import comes to that, with at most 63 packages, and then to a candidate that is too large, ambiguous, unchanged, one generation on, or beyond the last |
| InventoryOutcomes.RollbackOutcome | src/package_inventory.rs:110-126 | a rollback succeeds exactly with the package recorded below the installed one, and changes only that package |
| InventoryOutcomes.RemovalOutcome | src/package_inventory.rs:191-205 | a removal takes exactly the named packages with their targets, and is refused only for more than 64 names, the base, or at the last generation |
| InventoryOutcomes.PlanCheckpointOutcome | src/package_inventory.rs:163-174 | a plan that is otherwise in order is refused as a rollback exactly when its revision is below the accepted one, as a conflict exactly when it is equal with another digest, and never for a higher one |
| InventoryOutcomes.PlanHeadOutcome | src/package_inventory.rs:147-174 | before its packages a plan is refused for its window, its count, another repository or its checkpoint, in this order |
| InventoryOutcomes.PinsOutcome | src/package_inventory.rs:175-181 | the first pin that does not meet the first package with its identifier decides, as missing, not current, incompatible or mismatched |
| InventoryOutcomes.PlanOutcome | src/package_inventory.rs:147-189 | a plan in order comes to its first unmet pin, its first bad package, or the added packages with its repository and checkpoint |
| InventoryHistory.MarksNeverDrop | src/package_inventory.rs:432-440 | along any accepted run a high-water revision never drops and its receipt never changes at one revision |
| InventoryHistory.InstallsLandOnMark | src/package_inventory.rs:400-497 | a newly installed, reinstalled or upgraded package sits exactly at its high-water mark |
| InventoryHistory.DropUndoesTheLastUpgrade | src/package_inventory.rs:409-431 | an installed revision drops only onto the receipt installed right before the upgrade still in place |
| InventoryHistory.NoSecondDropWithoutRise | src/package_inventory.rs:409-431 | between two drops of a package it rose |
| InventoryHistory.CatalogNeverOlder | src/package_inventory.rs:441-450 | along any accepted run, as long as the source of the catalog is not forgotten, the repository stays, the catalog's revision never drops, and at one revision it is the same document |
| InventoryLifetime.LifetimeIsRun | src/package_inventory.rs:307-458 | a life with restarts is a run of the four results above, so they hold over restarts |
| InventoryLifetime.DropsOverRestarts | src/package_inventory.rs:307-458 | over restarts too a package drops only onto the receipt from right before the upgrade still in place, and only changes move packages |
| InventoryLifetime.CatalogOverRestarts | src/package_inventory.rs:344-390 | the same over restarts, between any that no longer trust the catalog's signer |
| InventoryLifetime.AlwaysWf | src/package_inventory.rs:110-390 | every inventory reached by operations and restarts from the empty one satisfies the working invariant |
| InventoryLifetime.EveryStepHolds | src/package_inventory.rs:307-458 | in every such life each change passes the guard, each state can be saved, and each restart finds the saved state, less exactly its repository and checkpoint when their signer is no longer trusted |
| InventoryLifetime.JsonReaderDecodes | src/package_inventory.rs:508-512 | an ordinary reader of JSON reads back every document the store can write |
| InventoryLifetime.SavedIsRestored | src/package_inventory.rs:307-390 | through that reader, restoring what was saved gives the inventory back, less exactly repository and checkpoint when their signer is not trusted |
| JsonReader.ValueReadsBack | src/package_inventory.rs:307-340 | the cited lines write the state; this project's own reader of compact JSON gives every written value back, for every nesting, and stops right behind it |
| JsonReader.DecodeReadsBack | src/package_inventory.rs:575-626 | the cited lines are the records; every document the store can write is read back by that reader with their field names, optional fields and refusal of unknown ones |
| JsonReader.FieldsInAnyOrder | src/package_inventory.rs:575-626 | the order of the fields of the records does not matter to what is read |
| StateFormat.RenderInjective | src/package_inventory.rs:307-340 | two documents with the same bytes are the same document |
| StateFormat.SameBytesSameState | src/package_inventory.rs:307-340 | two coherent inventories with the same saved bytes are the same state, so formats 1 and 2 are told apart by their targets |
| StateFormat.StateAlwaysFits | src/package_inventory.rs:17-19 | at the largest counts and numbers the saved state is below 262144 bytes, so saving is never refused for size |
| InventoryPersistence.ReadRows | src/package_inventory.rs:508-574 | the loop over receipt rows equals parsing them one by one, refusing repeats and malformed rows |
| InventoryPersistence.ParseInvertsDocument | src/package_inventory.rs:508-574 | parsing the document of an inventory gives its generation, receipts, marks, targets and source |
| InventoryPersistence.RestoreKeepsWf | src/package_inventory.rs:344-390 | whatever bytes are restored, the result satisfies the working invariant |
| InventoryPersistence.RestoreInvertsStateBytes | src/package_inventory.rs:307-390 | restoring what was saved gives the inventory back when the checkpoint's signer is trusted, and otherwise exactly without repository and checkpoint |
| RestoreOutcomes.StateIff | src/package_inventory.rs:508-574 | a document is read as a state exactly when its format fits its targets, its lists are short enough, every row is a receipt of its own identifier, the total fits, the history is sound, generation zero is empty, and repository and checkpoint come together |
| RestoreOutcomes.InstalledOutcome | src/package_inventory.rs:543-556 | the first installed row that is malformed, repeated, or takes the total above its limit decides, each as what it is |
| RestoreOutcomes.StateRefusals | src/package_inventory.rs:508-574 | which refusal a document meets, rule after rule |
| RestoreOutcomes.RestoreStateOutcome | src/package_inventory.rs:344-390 | a state is restored with exactly its packages, in any order, and keeps repository and checkpoint exactly when their signer is trusted; missing, extra, repeated and changed packages are refused |
| RestoreOutcomes.RestoreOutcome | src/package_inventory.rs:344-390 | whatever is restored is a state that the bytes stand for, put together with its packages, and valid |
| PackageCatalog.RepositoryIdStable | src/package_catalog.rs:454-462 | normalizing a repository name is idempotent |
| PackageCatalog.SelectLoop | src/package_catalog.rs:410-443 | the selection loop takes the pins of the chosen ids in order, or refuses the first missing or incompatible one or the first that exceeds the size limit |
| SelectionOutcomes.RepositoryIdIs | src/package_catalog.rs:446-462 | a repository name is an owner and a name of up to 100 letters, digits, `-`, `_` and `.` with one slash between, in lower case |
| SelectionOutcomes.PinIs | src/package_catalog.rs:343-392 | the pin of an entry, field by field, and exactly which entries have one |
| SelectionOutcomes.VerifyOutcome | src/package_catalog.rs:280-400 | a document is accepted exactly when format, revision, repository, window, order after the accepted catalog, count and entries are as they should be, and gives exactly the pins of its entries |
| SelectionOutcomes.VerifyRefusals | src/package_catalog.rs:280-400 | which refusal a document meets, rule after rule |
| SelectionOutcomes.SelectPlanOutcome | src/package_catalog.rs:410-443 | what is asked for is planned exactly when all of it is there, runs here and is small enough together; else the first identifier that stops it says why |
| SelectionOutcomes.SelectOutcome | src/package_install.rs:205-255 | a selection is accepted exactly when, besides, it is not empty, goes back behind no mark and leaves at most 63 packages; the plan lists exactly its pins |
| SelectionOutcomes.SelectRefusals | src/package_install.rs:205-255 | which refusal a selection meets once its document is verified |
| PackageInstall.SelectionSound | src/package_install.rs:205-255 | a selected plan has distinct pins, none going back behind its mark, at most 63 packages with the installed ones, and a checkpoint that is no older than the accepted one and the same document at its revision |
| PackageInstall.PackagesAreThePins | src/package_install.rs:297-339 | as many distinct packages as pins, each matching some pin, are exactly the pins (pigeonhole) |
| PackageInstall.PinsPass | src/package_inventory.rs:175-181 | matching packages pass the plan's own check of its pins |
| PackageInstall.StagingAgreesWithSelection | src/package_inventory.rs:147-189 | staging a selected plan with its packages can only be refused for size, a clash of names, or the last generation |
| PackageInstall.PreflightAgrees | src/package_install.rs:205-255 | whatever selection accepted, staging on the same snapshot adds every package or is refused for one of those three reasons, each with its exact condition |
| PackageInstall.PreflightAgreesAfterAccept | src/package_install.rs:288-346 | the same after the catalog's checkpoint was committed first, as the download does |
| InstallerSession.TicketsIncrease | src/installer_session.rs:109-128 | over any run of calls later tickets are larger |
| InstallerSession.InstallWasApproved | src/installer_session.rs:168-227 | an install begins only for a ticket issued by a download approval and answered by a completed download, with nothing in between, and hands out what that download prepared |
| InstallerSession.InstallsAtMostOnce | src/installer_session.rs:215-227 | no ticket begins two installs |
| InstallerSession.SelectionOrigin | src/installer_session.rs:82-166 | what is shown for selection was brought in by a checked catalog, a new one, or an edit or a replacement on the page that is open, and has been shown ever since |
| InstallerSession.InstallerSession.Next | src/installer_session.rs:109-115 | a new ticket is the next generation, or refused at the last one |
| InstallerHelper.AlwaysAgree | src/installer_worker.rs:31-133 | in every state the command loop and the end of the helper can reach, session and worker agree: one live thread at most, in the slot, for the ticket of the session's phase |
| InstallerHelper.AtMostOneLiveThread | src/installer_worker.rs:81-98 | there are never two live worker threads |
| InstallerHelper.ResultsAreNeverStale | src/installer_worker.rs:102-122 | the result of a worker that was not cancelled is delivered as it is, never refused as stale |
| InstallerHelper.CancelledIsNeverDelivered | src/installer_worker.rs:102-133 | a cancelled worker stays cancelled, nothing of its result reaches the session, and it was never an install |
| InstallerHelper.WaitingPhasesHaveTheirWorker | src/installer_helper_windows.rs:261-475 | a phase that waits for work has its worker, except exactly after a panicked install |
| InstallerHelper.OtherViewsAreRefused | src/installer_helper_windows.rs:348-411 | a selection, download or install asked for on another page than the one that is open changes nothing and is refused |
| InstallerHelper.SelectOnItsPage | src/installer_helper_windows.rs:348-355 | on the open page a selection replaces it, under a new view |
| InstallerHelper.DownloadOfItsPage | src/installer_helper_windows.rs:356-392 | on the open page a confirmed download starts under a new view, and without a selection none does |
| InstallerHelper.InstallOfItsReview | src/installer_helper_windows.rs:393-411 | on the open review, without a worker and with the store, a confirmation begins the install of exactly that review |
| InstallerHelper.BusyOrWithoutStore | src/installer_helper_windows.rs:303-411 | while a thread is retained, or without the store where it is needed, nothing begins and nothing changes |
| InstallerHelper.CancelOutcome | src/installer_worker.rs:126-133 | a cancellation is refused during an install; else it empties the session under a new view and marks what is still running |
| InstallerHelper.NoThreadNoWork | src/installer_worker.rs:31-98 | without a thread from the system nothing runs and no phase waits for it |
| InstallerHelper.OneViewOnePage | src/installer_helper_windows.rs:303-475 | over any run a view names one page: whenever it is shown, it shows the same selection or review |
| InstallerHelper.InstallsWhatWasShown | src/installer_helper_windows.rs:393-411 | every install that ever runs was confirmed on the very review of what it installs |
| InstallerHelper.PanickedInstallIsFinal | src/installer_worker.rs:117-120 | after a panicked install nothing of session and worker ever changes, every request but a poll or closing is refused, and a helper that closes may leave at once |
| InstallerHelper.InstallMayPanic | src/installer_worker.rs:102-122 | for every selection and prepared download there is a run, from the start and through both approvals, that ends with the session installing and no worker |
| InstallerHelper.GenerationsNeverRunOut | src/installer_helper_windows.rs:303-475 | within 4096 requests no call is refused for want of generations |
| InstallerHelper.ClosingStartsNothing | src/installer_helper_windows.rs:478-482 | once the helper closes no thread is started any more, and once it may leave it stays so |
| InstallerHelper.ClosingWaitsForOneThread | src/installer_helper_windows.rs:478-482 | a closing helper waits only for cancelled work or an install under way, which is never cut off; when that thread has ended the next poll lets it leave |
| InstallerHelper.InstallerWorker.PollWork | src/installer_worker.rs:102-122 | the method makes the model's transition, delivering, discarding or waiting |
| BoundedProbe.OutsideKeeps | src/bounded_probe.rs:33-59 | no interleaving of providers, their ends and the clock breaks the attribution of requests and answers, refills a queue or undoes a computation |
| BoundedProbe.BoundedProbe.TrySend | src/bounded_probe.rs:174-187 | a request is queued, or refused because the slot is full or the provider is gone, and only queueing shows life |
| BoundedProbe.BoundedProbe.ReplaceIfStuck | src/bounded_probe.rs:134-151 | a replacement needs respawns left and a queue seen full long enough ago with no sign of life since; otherwise the state is kept |
| BoundedProbe.BoundedProbe.Submit | src/bounded_probe.rs:171-203 | a request is accepted, refused as busy, or refused as disconnected exactly as the queue stands, after a replacement never as busy; at most one replacement; the stamp is the time of submission exactly when the clock stood still between the accepted request and the stamp |
| BoundedProbe.BoundedProbe.Await | src/bounded_probe.rs:204-226 | an answer is handed out exactly when it had arrived and was younger than `max_age` when checked, expired exactly when it had arrived and was not, disconnected exactly when none had and none can, a timeout exactly when none had yet; a timeout keeps the request pending and every other outcome ends it |
| BoundedProbe.BoundedProbe.QueryResult | src/bounded_probe.rs:159-226 | under every interleaving a pending request of the same key that is still fresh is awaited and not sent again, otherwise one new request is sent; what had arrived decides the outcome; an answer was computed for exactly the queried key, for a request this probe submitted, is younger than `max_age` plus the lag of its stamp, and is handed out once; every replacement is justified |
| BoundedProbe.HealingReplaced | src/bounded_probe.rs:134-151 | replacing keeps respawns plus remaining constant and the history of replacements justified |
| BoundedProbe.DeliverOnce | src/bounded_probe.rs:210-226 | handing out one more answer keeps every request answered at most once |
| BoundedProbe.AgeFromSubmission | src/bounded_probe.rs:198-222 | every answer handed out is younger than `max_age` plus the lag of its stamp, counted from its submission |
| BoundedProbe.StampMayLag | src/bounded_probe.rs:198-203 | a run from a fresh probe that hands out, 14 after its submission, an answer under a bound of 5 |
| BoundedProbe.LateHandOut | src/bounded_probe.rs:171-222 | for every lag and bound a run of the probe hands out an answer that reaches that limit |
| BoundedProbe.BoundFromSubmission | src/bounded_probe.rs:198-222 | all answers handed out with a given lag of the stamp keep the bound counted from submission exactly when that lag is zero |
| ProbePromises.AlwaysPromised | src/bounded_probe.rs:33-59 | over any run of probe and providers a reply channel is open exactly while one living provider holds its request, and then empty |
| ProbePromises.OpenWhileAnswerable | src/bounded_probe.rs:204-226 | a wait that ends without an answer is a timeout exactly if a living provider may still answer, and a disconnection exactly if none can |
| BackendRules.FromLines | src/backend_rules.rs:72-122 | the loop over rule lines computes the rules, or the first refused line with its reason |
| BackendRules.ParsedIsOk | src/backend_rules.rs:72-122 | every parsed pattern is lowercased, free of forbidden characters, `=` and `/`, and does not start with `#` |
| BackendRules.RoundTrip | src/backend_rules.rs:72-147 | the text of rules reads back as the same rules exactly when no pattern starts or ends with a blank |
| BackendRules.NestedQuotesAreLost | src/backend_rules.rs:158-174 | every stored pattern is read as it is from a row that nests it in quotes, and its text reads back exactly when it carries no outer blanks |
| RuleOutcomes.PatternIff | src/backend_rules.rs:158-174 | the pattern of a text is what is left inside blanks and quotes, twice over, if that is the catch-all or a path without forbidden characters, in lower case with backslashes |
| RuleOutcomes.RowIff | src/backend_rules.rs:72-104 | a line is idle, gives one rule, or is refused as one thing, each exactly when it should be |
| RuleOutcomes.RulesOutcome | src/backend_rules.rs:72-122 | rules are read exactly when no line is refused and none repeats an earlier pattern; the result is what the lines give, and else the first such line is reported |
| ConfigurationText.FromText | src/configuration.rs:160-360 | the loop over the lines computes the document, or the first refusal with its line |
| ConfigurationOutcomes.LinesOutcome | src/configuration.rs:160-310 | which lines of a file are refused and as what, given the lines before them; without any, what was collected is what the lines say, section by section |
| ConfigurationFiles.VersionOutcome | src/configuration.rs:311-333 | which versions a file may give with the sections it has |
| ConfigurationFiles.EntriesOutcome | src/configuration.rs:784-816 | lists hold the stored form of each row once and in order, or the first row without one is reported |
| ConfigurationFiles.ProcessIff | src/configuration.rs:818-838 | a program goes by what follows the last slash of its path, in lower case, if that can stand in a row |
| ConfigurationFiles.DefaultsAre | src/configuration.rs:350-357 | a file without rules has the seven built-in ones |
| ConfigurationFiles.FileOutcome | src/configuration.rs:160-360 | a file is read as a document exactly when its version fits and every part of the document is what its section gives; else the first part that is not read decides, and an entry in both lists last |
| ConfigurationRoundTrip.ReadIsWellFormed | src/configuration.rs:604-647 | whatever text is read, the document is canonical: stored entries, sorted lists without repeats, disjoint word lists, a stable interface language, at most 64 profiles |
| ConfigurationRoundTrip.UiOfFile | src/configuration.rs:285-293 | the interface language of a file is the locale its row names in normal form, English when it names none, the system's when it is empty or says so or there is no row |
| ConfigurationRoundTrip.UiFormIff | src/localization.rs:76-82 | a value is kept as it is exactly when it is `system` or a locale in normal form |
| ConfigurationRoundTrip.ProcessEntryOk | src/configuration.rs:818-838 | a stored program name is stored as itself and reads back as a row of its own |
| ConfigurationRoundTrip.BeforeRulesRun | src/configuration.rs:425-446 | reading what was written collects every part before the rules as it was |
| ConfigurationRoundTrip.WrittenReadsBack | src/configuration.rs:425-457 | a canonical document whose patterns carry no outer blanks is read back from its text |
| ConfigurationRoundTrip.SaveAndLoad | src/configuration.rs:425-457 | saving a canonical document succeeds and loads back to it exactly when no rule pattern carries outer blanks; otherwise it is refused |
| ConfigurationRoundTrip.LoadedCanBeSaved | src/configuration.rs:160-457 | a loaded document can be saved exactly under that condition |
| ConfigurationRoundTrip.LoadedButRefused | src/configuration.rs:160-457 | whatever else a file holds, with such a nested rule it loads as a canonical document, and when the pattern carries outer blanks that is refused on saving |
| ConfigurationMerge.MergeMaps | src/configuration.rs:684-708 | the loop over all names computes the merged values and appends the conflicting names in order |
| ConfigurationMerge.ConflictKeepsDraft | src/configuration.rs:666-708 | a name conflicts exactly when both sides changed it differently, and then keeps the draft's value |
| ConfigurationMerge.MergeMapSymmetric | src/configuration.rs:684-708 | without conflicts merging names does not depend on which side is the draft |
| ConfigurationMerge.EntrySurvives | src/configuration.rs:712-721 | merged lists are sorted without repeats, and an entry survives exactly when two of "in the draft", "in the configuration", "not in the base" hold |
| ConfigurationMerge.DoublyPlaced | src/configuration.rs:553-572 | an entry ends up in both lists only when draft and configuration put it into different lists and the base had it in none |
| ConfigurationMerge.Repair | src/configuration.rs:553-572 | the loop over doubly placed entries removes each from exactly one list |
| ConfigurationMerge.RepairSeparates | src/configuration.rs:553-572 | after the repair no entry is in both lists, and nothing else moved |
| ConfigurationMerge.Merge | src/configuration.rs:476-577 | the whole merge, with the conflicts in the order the source reports them |
| ConfigurationMergeLaws.SettingsMerge | src/configuration.rs:727-764 | the rows written for merged settings give every key its merged value, and all three hotkey keys come from one side |
| ConfigurationMergeLaws.RulesMerge | src/configuration.rs:504-530 | rules merge trimmed pattern by trimmed pattern, the catch-all among them; the merge is read back as those rules exactly when no merged pattern is blank, and a pattern that starts with `#` once trimmed is lost |
| ConfigurationMergeLaws.TrimmedRulesMerge | src/configuration.rs:504-530 | rules without outer blanks merge pattern by pattern and always parse back |
| ConfigurationMergeResults.MergeLaws | src/configuration.rs:472-577 | merging an unchanged draft gives the configuration, an unchanged configuration gives the draft, and equal changes give that change, each without conflicts, exactly when no rule pattern of the result carries outer blanks |
| ConfigurationMergeResults.UnchangedSides | src/configuration.rs:472-577 | in those three cases everything but the rules always comes out as it is, and the rules as they are read again |
| ConfigurationMergeResults.RulesAgainAre | src/configuration.rs:775-782 | rules are read again as their trimmed form, and not at all when a pattern is all blanks |
| ConfigurationMergeResults.PatternIsTrimmed | src/configuration.rs:472-577 | a file that loads and is merged into an unchanged draft without a conflict, with another pattern than it had |
| ConfigurationMergeResults.BlankPatternConflicts | src/configuration.rs:472-577 | a file that loads and whose merge into an unchanged draft keeps the draft's rules and reports a conflict |
| ConfigurationMergeResults.MergeSymmetric | src/configuration.rs:476-577 | a merge without conflicts is the same document whichever side is the draft |
| ConfigurationMergeResults.MergeIsValid | src/configuration.rs:472-577 | from a valid draft and a valid configuration the merge is a valid document, whatever the base and the conflicts; it can be saved and loads back as itself exactly when the merged rules were read or the draft could be saved |
| ConfigurationMergeResults.ListsAfterMerge | src/configuration.rs:476-577 | where each word ends up: by two votes of three, and when voted into both lists, in the draft's |
| ConfigurationMergeResults.ProfilesRefused | src/configuration.rs:519-524 | merged profiles are refused as a whole exactly when there are more than 64 |
| ConfigurationMergeResults.SettingsNeverRefused | src/configuration.rs:513-518 | merged settings are never refused as a whole, and are the merged values with one side's hotkey |
| ConfigurationMergeResults.PremisesCanBeMet | src/configuration.rs:476-577 | formats and a document that meet every premise of the results |
| ConfigurationMergeResults.SomeFileIsRefused | src/configuration.rs:160-457 | a concrete file that loads and whose document is refused when saved |
| InputBindings.BindingsAreCollisionFree | src/detector.rs:101-144 | no two bound languages share a profile, for any registry and any choices |
| InputBindings.CountProfiles | src/detector.rs:108-124 | the counting loop counts, for each profile, the languages that claim it |
| InputBindings.BindAll | src/detector.rs:101-144 | the binding loops bind exactly the languages that are the only claimant of a supported profile |
| InputBindings.BindingIff | src/detector.rs:101-144 | a language is bound to a profile exactly when its pack has a model and lists it, the choice between its profiles is made, no other language wants it, and there is an adapter for it |
| InputBindings.LanguageForProfile | src/detector.rs:224-230 | a profile leads to a language exactly when that language is its only eligible user |
| InputBindings.ProfileLeadsBack | src/detector.rs:209-230 | the profile of an eligible language leads back to that language |
| Detector.ResolveCandidates | src/detector.rs:711-744 | the resolved readings are one per automatic target: the supplied one first, else the transposed word |
| Detector.DetectLoop | src/detector.rs:541-610 | the early-return loop decides as the counting rule: nothing for two dictionary or two statistical targets, else the dictionary one, else the statistical one |
| Detector.LetterLoop | src/detector.rs:616-672 | for one letter the loop finds the only target, and nothing when there are two |
| Detector.DetectMappedCandidates | src/detector.rs:492-610 | detection as a whole is the counting verdict |
| Detector.OrderDoesNotMatter | src/detector.rs:492-610 | with one reading per language the order of the readings does not matter |
| DetectorResults.VerdictIff | src/detector.rs:492-610 | which target a word is given, over its readings, their scores and dictionaries: the one qualifying target in a dictionary, else the one qualifying target, if there is exactly one |
| DetectorResults.ListedTargetWins | src/detector.rs:541-610 | a single qualifying target in its dictionary wins over one that only scores |
| DetectorResults.UnlistedTargetIsAlone | src/detector.rs:541-610 | a target in no list is given only when no target in a list qualifies, and no other does |
| DetectorResults.WordDetectionsAreJustified | src/detector.rs:492-610 | every detected word was no accepted and known word and no known letter core, and its target reaches both thresholds |
| DetectorResults.LetterVerdictIff | src/detector.rs:616-672 | which target one letter is given |
| DetectorResults.ReadingIs | src/detector.rs:711-744 | the reading of a target is the one supplied for it, else the transposed keys |
| Detector.DetectionsAreEligible | src/detector.rs:492-672 | a detection goes from an eligible layout to a different eligible one, for a word that is not excluded |
| LayoutModel.Parse | src/layout_model.rs:90-168 | a model is yielded exactly when the bytes are its file: every file of a model with tables of the announced sizes, finite values and distinct known languages is accepted, and nothing else; another version is told apart |
| LayoutModel.LanguagesRead | src/layout_model.rs:102-112 | languages that were read have identifiers that the bytes spell out, and none is repeated |
| LayoutModel.TableWritten | src/layout_model.rs:142-147 | the table read from written scales and rows is those scales and rows |
| LayoutModel.DenseIff | src/layout_model.rs:148-151 | the dense layers that are read are exactly those whose finite values the bytes hold |
| LayoutModel.Reader.Take | src/layout_model.rs:56-67 | a slice of the announced length is taken exactly when it is there |
| LayoutModel.NgramIds | src/layout_model.rs:273-299 | the nested loops hash the first allowed windows, short ones first, the marks left out, and give rows of the table |
| LayoutModel.AllWindowsIff | src/layout_model.rs:273-299 | the windows are exactly the parts of the marked word of at most the allowed length, but for a mark alone |
| LayoutScoring.FillMean | src/layout_model.rs:208-223 | adding scaled rows slot by slot in floating point and dividing leaves the mean of the rows, and zeros behind it |
| LayoutScoring.FillDense | src/layout_model.rs:224-232 | the slots behind the mean are the flags, the one-hot layout and the context, each slot inside the buffer |
| LayoutScoring.FindContext | src/layout_model.rs:193-199 | the context weighs each language by halves for each step back, over the last languages only |
| LayoutScoring.FillHidden | src/layout_model.rs:233-237 | each hidden unit is the rectified floating-point sum over its own slice of the weights |
| LayoutScoring.FindLogits | src/layout_model.rs:200-244 | reusing the two buffers for every reading gives each reading its own logit, and the lowest to layouts without one |
| FloatNumbers.BitsMean | src/layout_model.rs:77-83 | the value of 32 bits by sign, exponent and fraction, infinities and no-numbers included |
| FloatNumbers.InfiniteProduct | src/layout_model.rs:205-244 | products with an infinity have the sign of the product and are no number for zero |
| FloatNumbers.InfiniteQuotient | src/layout_model.rs:218-223 | quotients with an infinity or by zero |
| LayoutProbabilities.TotalInRange | src/layout_model.rs:255-266 | the total the shares are divided by is finite and at least one, so the refusal of another total never happens |
| LayoutProbabilities.Softmax | src/layout_model.rs:255-270 | the loops compute the shares, or refuse exactly when the total cannot be divided by |
| LayoutProbabilities.SharesAreProbabilities | src/layout_model.rs:255-270 | each share lies between zero and one, is zero without a reading, never is the smaller one for the larger logit, and for the largest is at least a sixteenth |
| LayoutProbabilities.Probabilities | src/layout_model.rs:182-271 | there are probabilities exactly when each layout has a place, the typed one a reading, and no logit of a reading overflowed; and they are the shares of the logits |
| LayoutProbabilities.OverflowIsRefused | src/layout_model.rs:245-254 | a model with finite tables, and candidates for it, whose logit overflows, so that there are no probabilities |
| Crc32.BuildTable | src/layout_model.rs:319-337 | the nested loops fill the table with eight shifts of each byte |
| Crc32.ShiftsLinear | src/layout_model.rs:319-337 | eight shifts are linear over exclusive or |
| Crc32.UpdateFeeds | src/layout_model.rs:340-344 | one table lookup feeds exactly the eight bits of a byte into the bit-serial register |
| Crc32.Crc | src/layout_model.rs:340-344 | for every byte sequence the table-driven checksum is the bit-serial one of the reflected polynomial 0xEDB88320 |
| Crc32.KnownEntries | src/layout_model.rs:319-337 | entries 1 and 128 of the table are those that the code in section 8 of RFC 1952 computes, the latter the polynomial itself |
| Localization.NormalizedIsStable | src/localization.rs:142-157 | a normalized locale is valid and normalizes to itself |
| LocalizationOutcomes.IdentifierIff | src/localization.rs:142-157 | an identifier is a language of two to eight letters and subtags of one to eight letters and digits, joined by dashes, 63 characters at most |
| LocalizationOutcomes.ScriptIff | src/localization.rs:159-164 | the script of an identifier is its second part when that has four letters |
| LocalizationOutcomes.ParseOutcome | src/localization.rs:194-252 | a catalog is accepted exactly when format, locale, direction and each alias are as they should be, and comes out in lower case and otherwise unchanged |
| LocalizationOutcomes.ParseRefusals | src/localization.rs:194-252 | which refusal a catalog meets, rule after rule |
| LocalizationOutcomes.AddOutcome | src/localization.rs:336-361 | a catalog is refused for a reserved name, then for one that is taken; else every name of it leads to it and no other name changes |
| Localization.AddKeepsOwnership | src/localization.rs:336-361 | adding a catalog is all or nothing and keeps locale and alias names disjoint, each owned by one catalog |
| Localization.BuildSucceedsIff | src/localization.rs:336-361 | a registry can be built from catalogs exactly when they are admissible and claim no name twice |
| Localization.AddCommutes | src/localization.rs:336-361 | two catalogs can be added in one order exactly when in the other, with the same registry |
| Localization.BuildIgnoresOrder | src/localization.rs:336-361 | building succeeds in one order exactly when in every order, with the same registry |
| Localization.LookupStaysInLanguage | src/localization.rs:483-512 | a lookup by name finds a catalog of that primary language, and of that script if the name has one |
| Localization.PrefixBelongs | src/localization.rs:483-512 | a prefix that may be looked up keeps the requested language and script |
| Localization.CatalogRegistry.AddCatalog | src/localization.rs:336-361 | the method adds the parsed catalog to both maps, or refuses it and changes nothing |
| Localization.CatalogRegistry.Select | src/localization.rs:483-512 | the loop from long to short prefixes finds the longest allowed match, else English |
| LocalizationOutcomes.SelectOutcome | src/localization.rs:483-512 | a request finds the catalog of its longest shortening that is registered and keeps its script, and none exactly when it is no identifier or there is no such one |
| MessageFormat.Placeholders | src/localization.rs:166-192 | the loop collects the names of the placeholders, or refuses exactly the texts that are no template |
| MessageFormat.RefusedIffNoTemplate | src/localization.rs:166-192 | a text is a template exactly when it is written from plain text and named placeholders |
| MessageFormat.SourceHasParts | src/localization.rs:166-192 | however a template is written, it is taken apart into parts with the same names and the same filling |
| MessageFormat.Format | src/localization.rs:563-590 | formatting meets only placeholders that have arguments, and yields the filled template or the right refusal, the size limit exactly |
| MessageFormat.FormatFills | src/localization.rs:563-590 | formatting a template replaces its placeholders |
| MessageFormat.FormatOutcome | src/localization.rs:563-590 | the arguments must name exactly the placeholders, each once; then the filled template is given up to 64 KiB |
| MessageFormat.SuppliedIff | src/localization.rs:563-590 | arguments are taken by name exactly when none is named twice |
| SlidingWindows.RateLimit.TryTake | src/rate_limit.rs:25-39 | a use is granted exactly when fewer than `max` of all past grants are younger than `per` |
| SlidingWindows.WindowHoldsAtMostMax | src/rate_limit.rs:25-39 | any half-open window of length `per` holds at most `max` grants |
| SlidingWindows.FaultWindow.Record | src/panic_guard.rs:58-69 | a fault trips exactly when at least `limit` of all faults lie within the window |
| SlidingWindows.EvictedRemembers | src/panic_guard.rs:58-69 | what the queue forgets can never count again |
| SlidingWindows.RunContained | src/panic_guard.rs:85-111 | every event is processed once and in order and repaired after a panic, the loop ends at the stop flag or exactly at the first fault too many, and the busy flag is set and cleared once for each event |
| SlidingWindows.ProcessGuarded | src/panic_guard.rs:20-33 | the guard clears the flag whichever way its block is left; in the loop itself the panic is caught inside that block |

## Left out

- Ed25519 signatures, SHA-256, escapes and blanks in JSON, FST dictionaries and Unicode tables: abstract values and functions, under the assumptions above.
- `dictionary_snapshot` and `required_artifacts` of the inventory: read-only projections that add only easy members.
- The package store, locks, files, downloads, URLs, process handles, windows and sound: input and output. A download is a result that the model is given.
- Inventories are values: the source clones one and edits the clone, so in-place edits of a shared inventory do not arise. Its loops are methods on local maps.
- PackageInstall.PreflightAgreesAfterAccept: the download loop, its cancellation checks and the store's commit are not modelled; a commit is taken to store exactly the staged inventory, and a download to yield packages that match their pins.
- Configuration documents are values: `canonicalize_and_validate` edits a document in place, and here returns the edited one. The text is a sequence of lines; the byte order mark and the joining of lines are not modelled, nor are the lossy and legacy readers and the editor lists.
- The rows of settings, dictionaries, pack ids and profiles: abstract, with the contracts stated above; the hotkey's key names and the single settings are not modelled.
- `BackendRules::resolve`: a lookup of the full path, then the name, then the catch-all; one-branch facts.
- InstallerHelper.AlwaysAgree: the wording of replies, publishing of pages and request decoding are not modelled; a command carries what its decoding yields, and whether the store is available.
- BoundedProbe.BoundedProbe.QueryResult: how long `recv_timeout` waits is not modelled; a timeout may come at any moment at which no answer is there, so the results hold for every wait.
- BoundedProbe.BoundedProbe.ReplaceIfStuck: the abandoned provider's thread is not forced to end; it may end at any step.
- Detector: scores are an uninterpreted order, so their numeric values, ties between equal scores of different readings beyond that order, and the layout model's own decisions are not modelled; likewise edge punctuation and contractions are inputs.
- LayoutModel.Parse: floats are their bits, and a finite value is told by its exponent. `from_utf8` and `Language::from_id` are one partial function of the bytes.
- LayoutProbabilities.Probabilities: the sign of zeros is not modelled, and that the exponential keeps the order is assumed of the library.
- SlidingWindows.RunContained: what processing and repair do to the state are functions; a repair that panics leaves some state like any other.
- Message checks of a catalog other than placeholders, directory loading and the picker: file handling and finite tables. A catalog's message verdict is an input of `Localization.ParseCatalog`.
- MessageFormat.Format: a text is its bytes, so lengths are byte lengths.
- Overflow of a package's revision beyond 64 bits is excluded by its type; the generation counter's limit is modelled.
