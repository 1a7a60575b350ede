# L4 Tools: a verified model of the release and update chain

This project models, in Dafny, the crash-tolerant protocols by which L4 Tools releases are published, routed, installed
and recovered on a terminal, together with three smaller services of the same repository, and proves what every run of
them keeps.

- **Bootstrap journal** (`BootstrapHistory`, `BootstrapReplay`, `BootstrapScripts`, `BootstrapDrivers`). A plan registers,
  activates, commits, rolls back or aborts four Windows services. The only durable memory is a journal of typed records,
  folded back into a history of flags, sets of services and process epochs. The drivers read that history and append
  records; they may be abandoned after any append. The guards of the drivers and the guards of the replay are written
  separately, and the main theorem is that they agree on every run.
- **Catalog** (`CatalogModel`, `RouteSearch`, `CatalogRouting`, `CatalogBuild`). The signed catalog of releases and admitted
  transitions, its validator, the two routers (C with a parent array and a fixed queue, Python with a queue of whole
  paths), and the builder of the next catalog.
- **Publication** (`PublicationProtocol`, `PublicationSafety`, `PublicationHistory`, `PublicationGuards`, `TrialRoutes`,
  `CatalogPublisher`). The publisher's
  protected floor, its pending plan, the write-once archive and the two-object public pair, with private trial
  reservations drawing on the same revision counter. A run is a sequence of single durable writes and may stop after any.
- **Communication recovery** (`CommunicationRecovery`, `CommunicationMonitor`, `CommunicationPlan`). The one-shot recovery
  executor with its phase budget, the deadline monitor driven by two clocks, and the binary plan format.
- **Terminal floor** (`CatalogFloor`). The hash-chained, append-only anti-rollback file.
- **Smaller cores** (`MediaArchive`, `MediaRestore`, `ContactRelay`, `CameraCadence`). Archive, purge and restore of media telemetry; the
  contact form's sliding-window limiter; the frame rate estimator.
- `StoreBytes` holds the fixed-width little-endian numbers the binary formats share, `Interruption` what a process that
  dies after some of its steps leaves behind.

Conventions. The four-bit masks of the C structures are sets of service indices. Service manager, file system, clocks,
callbacks and the network are nondeterministic choices, tapes or parameters. A crash keeps a prefix of the writes of a
call. A signature identifies the bytes it was made for and a digest identifies what it was computed from; where a format
contains a hash, the hash is an arbitrary function to 32 bytes. Imperative sources are methods or classes; each is tied by
its postcondition to a function, and the theorems are lemmas about that function over all runs.

Results worth knowing, besides the positive theorems:

- The replay guards alone are weaker than the drivers' discipline: `BootstrapScripts.ReplayGuardsAreNotEnough` gives a
  record sequence the replay accepts after which no abort can end, and `BootstrapScripts.AbortPossibleExactlyWhen` the
  exact condition.
- The two routers differ, and `CatalogRouting.RoutersAgreeExactlyWhen` states exactly when: only the C router checks the
  platform, so they disagree exactly for a malformed architecture or profile when the wanted release is the installed one.
- A new publication completes exactly when the write-once places it needs are free or hold the same bytes
  (`PublicationHistory.PublishesExactlyWhen`): a different plan that was cut off after archiving the same revision blocks
  it (`PublicationHistory.CutPublicationBlocksAnother`).
- A trial that was cut off after creating its directory blocks every new trial, itself included, until a publication
  takes its revision (`PublicationHistory.CutTrialBlocksTrials`, `BlockedAdmitsNoNewTrial`, `TrialsStayBlocked`);
  `PublicationHistory.TrialAdmittedExactlyWhen` states when a trial is admitted.
- Once a pending publication has expired, nothing is written any more (`PublicationHistory.ExpiredPendingIsStuck`).
- A media batch can be restored through its manifest exactly when the manifest is not marked failed
  (`MediaRestore.RestoreExactlyWhen`); a run that raises after purging leaves records no restore reaches
  (`MediaRestore.RaisedPurgeCannotBeRestored`). A reused batch id keeps exactly what is hot or in another batch
  (`MediaArchive.ReusedIdKeepsExactly`), and a restore limit of zero restores one record (`MediaRestore.LimitIsKept`).
- A contact submission that ends after its hour releases the request id a later one holds
  (`ContactRelay.LateEndingReleasesAnother`); otherwise a request id is held exactly as long as it should be
  (`ContactRelay.HeldExactlyWhen`).

## Model

| member | source | states |
|---|---|---|
| `BootstrapHistory.ParseWrite` | tools/l4common/bootstrap_history.c:9-13 | a record written for an event of a plan is parsed back as that event of that plan |
| `BootstrapHistory.WriteParse` | tools/l4common/bootstrap_history.c:9-13 | a record that is read as a phase is exactly the record a driver writes for it |
| `BootstrapHistory.RegistrationRecords` | tools/l4common/bootstrap_services.c:15 | the kind and the bytes of each registration record; the bytes of a number are given by StoreBytes.Put32Bytes and Put64Bytes |
| `BootstrapHistory.ActivationRecords` | tools/l4common/bootstrap_services.c:153-156 | the same for start, process, ready and stop records |
| `BootstrapHistory.WholeRecords` | tools/l4common/bootstrap_services.c:35 | the same for the records of a plan as a whole |
| `BootstrapHistory.TypeRecords` | tools/l4common/bootstrap_services.c:292-297 | the same for start type records |
| `StoreBytes.Put32Bytes` | tools/l4common/journal.c:15-17 | a 32-bit number is four bytes, least significant first |
| `StoreBytes.Put64Bytes` | tools/l4common/journal.c:16-18 | a 64-bit number is its low and then its high half |
| `BootstrapHistory.ReplayAccepted` | tools/l4common/bootstrap_history.c:15-38 | every history a replay accepts satisfies the invariant the guards imply together (ready services were started and have an epoch, stops cover everything above, local deployment started nothing, ...) |
| `BootstrapHistory.TerminalOutcomes` | tools/l4common/bootstrap_history.c:15-37 | for every readable journal at most one of committed, locally deployed and aborted holds; committed rests on four registered, ready, epoch-recorded services with all start types done; locally deployed means nothing was ever started |
| `BootstrapHistory.TerminalIsFinal` | tools/l4common/bootstrap_history.c:15 | after a terminal state one more record of that plan makes the journal unreadable for ever |
| `BootstrapHistory.ReplayReadsOwnRecords` | tools/l4common/bootstrap_history.c:9-14 | the replay of a plan depends only on that plan's own records |
| `BootstrapHistory.ReplayWritten` | tools/l4common/bootstrap_history.c:7-41 | replaying a journal extended by a plan's own events is running those events on its history |
| `BootstrapHistory.ReplayOtherPlan` | tools/l4common/bootstrap_history.c:14 | records of another plan leave a plan's history as it was |
| `BootstrapHistory.EpochsAreFixed` | tools/l4common/bootstrap_history.c:16-27 | once rollback or commit has begun a recorded process epoch never changes, over any accepted continuation |
| `BootstrapHistory.InstallationIsFrozen` | tools/l4common/bootstrap_history.c:16-22 | once a rollback or a commit has begun nothing is created, registered, started or made ready any more, and a rollback touches nothing of a commit |
| `BootstrapHistory.UndoOnlyInRollback` | tools/l4common/bootstrap_history.c:28-38 | services are stopped and deleted, and a plan ends aborted, only after a rollback has begun |
| `BootstrapHistory.StopsFormASuffix` | tools/l4common/bootstrap_history.c:28-29 | in every readable journal the confirmed stops cover a top-down suffix of the services |
| `BootstrapReplay.PhaseHistory.PhaseRecord` | tools/l4common/bootstrap_history.c:7-40 | the C callback refuses exactly the records the specification refuses and otherwise updates the history to the specified one |
| `BootstrapReplay.ReadHistory` | tools/l4common/bootstrap_history.c:41 | reading the whole journal yields exactly the specified replay |
| `BootstrapScripts.EveryJournalIsReadable` | tools/l4common/bootstrap_services.c:36-444 | every journal built by any sequence of register, activate, commit, local commit, rollback and abort calls on any plans, each abandoned after any append, is accepted by the replay of every plan |
| `BootstrapScripts.AbortedMeansStopped` | tools/l4common/bootstrap_services.c:383-444 | in every driver-written journal an aborted plan has, for each service it started, a confirmed stop with a recorded process epoch, and is neither committed nor deployed |
| `BootstrapScripts.ScriptSafe` | tools/l4common/bootstrap_services.c:65-444 | every prefix of every driver's script is permitted by the replay and keeps the drivers' own invariant (a service being stopped that was started has a recorded pid) |
| `BootstrapScripts.StopOneSafe` | tools/l4common/bootstrap_services.c:383-431 | the events of one managed stop are accepted in order and confirm the stop |
| `BootstrapScripts.RollbackScriptSafe` | tools/l4common/bootstrap_services.c:102-115 | every prefix of a rollback is safe and a rollback that deleted everything in time ends aborted |
| `BootstrapScripts.RegisterExactlyWhen` | tools/l4common/bootstrap_services.c:65-72 | an uninterrupted registration registers everything with the supervisor's crash profile unless the plan is past it, and then changes nothing |
| `BootstrapScripts.ActivateExactlyWhen` | tools/l4common/bootstrap_services.c:190-240 | an uninterrupted activation makes everything ready with the observed epochs exactly when the plan is registered and not past it |
| `BootstrapScripts.CommitExactlyWhen` | tools/l4common/bootstrap_services.c:269-305 | an uninterrupted commit ends committed exactly when the plan is ready, not deployed locally and not being rolled back, also when it resumes |
| `BootstrapScripts.LocalCommitExactlyWhen` | tools/l4common/bootstrap_services.c:312-336 | an uninterrupted local commit deploys exactly a registered plan that never started anything and is not past it |
| `BootstrapScripts.RollbackExactlyWhen` | tools/l4common/bootstrap_services.c:102-115 | an uninterrupted rollback ends aborted exactly when nothing started is left unstopped and everything was deleted in time |
| `BootstrapScripts.AbortExactlyWhen` | tools/l4common/bootstrap_services.c:383-444 | an uninterrupted abort ends aborted exactly when every observation is accounted for by the history (a running process is started and unrecorded or the recorded one, a stopped one was recorded or never started), everything was deleted and the deadline was kept |
| `BootstrapScripts.AbortStopsOnlyRecordedProcesses` | tools/l4common/bootstrap_services.c:400 | an abort that ends aborted stopped no process but the recorded ones |
| `BootstrapScripts.OnlyStoppedServicesAreDeleted` | tools/l4common/bootstrap_services.c:110 | no driver records the deletion of a service it started before the stop of that service is confirmed |
| `BootstrapScripts.RegistrationInFull` | tools/l4common/bootstrap_services.c:36-72 | the records of a registration, written out |
| `BootstrapScripts.ActivationInFull` | tools/l4common/bootstrap_services.c:165-237 | the records of an activation, written out |
| `BootstrapScripts.TypesInFull` | tools/l4common/bootstrap_services.c:285-300 | the start type records of a commit, written out |
| `BootstrapScripts.ReplayGuardsAreNotEnough` | tools/l4common/bootstrap_history.c:23-29 | records the replay accepts although no driver writes them lead to a state in which a managed stop of a started service is refused whatever is observed: by the driver when nothing runs, by the replay of its first record when something does |
| `BootstrapScripts.StuckScript` | tools/l4common/bootstrap_services.c:102-115 | for a plan in such a state no driver call ever writes the record that ends an abort |
| `BootstrapScripts.AbortPossibleExactlyWhen` | tools/l4common/bootstrap_services.c:383-444 | from every history the replay accepts some abort can still end aborted exactly when no started service without a recorded process is being stopped |
| `BootstrapDrivers.Journal.RegisterServices` | tools/l4common/bootstrap_services.c:65-72 | register appends a prefix of its script to the journal; success means the re-read history has all four services registered |
| `BootstrapDrivers.Journal.ActivateServices` | tools/l4common/bootstrap_services.c:190-240 | activate appends a prefix of its script; success means all services ready with exactly the observed epochs |
| `BootstrapDrivers.Journal.CommitServices` | tools/l4common/bootstrap_services.c:269-305 | commit appends a prefix of its script; success means the journal reads as committed |
| `BootstrapDrivers.Journal.LocalCommitServices` | tools/l4common/bootstrap_services.c:312-336 | local commit appends a prefix of its script; success means the journal reads as locally deployed |
| `BootstrapDrivers.Journal.RollbackUntil` | tools/l4common/bootstrap_services.c:102-115 | rollback appends a prefix of its script and reports success only when the journal reads as aborted |
| `BootstrapDrivers.Journal.RollbackServices` | tools/l4common/bootstrap_services.c:116-122 | the rollback call is one step of a session and succeeds only when aborted |
| `BootstrapDrivers.Journal.StopService` | tools/l4common/bootstrap_services.c:383-431 | a stop writes identity and intent before asking for it; it writes nothing when identity cannot be established |
| `BootstrapDrivers.Journal.AbortServices` | tools/l4common/bootstrap_services.c:432-444 | abort is one step of a session (a prefix of begin, top-down stops, rollback), re-reading the history before each stop, and succeeds only when aborted |
| `CatalogModel.ValidateCatalog` | l4release/catalog.py:46-100 | the validator with its dictionary and set accepts exactly the well-formed, current catalogs: unique versions, known endpoints, unrevoked stable, unique transitions, times in range |
| `CatalogModel.WellFormedInFigures` | l4release/catalog.py:57-99 | a well-formed catalog in figures: positive 64-bit revision, times up to the year 9999, 1 to 24 releases of distinct versions, at most 24 transitions between known distinct releases with distinct identities, and a stable pointer that is a listed unrevoked release |
| `CatalogModel.VersionExactlyWhen` | tools/l4common/catalog.c:18-20 | a version is exactly three canonical numbers up to 65535 separated by dots |
| `RouteSearch.QueueBound` | tools/l4common/catalog.c:74-77 | the breadth-first queue never holds more entries than there are releases |
| `RouteSearch.RouteAt` | tools/l4common/catalog.c:76 | the path of a target is final as soon as the target is discovered, so the early exit is sound |
| `RouteSearch.NoRoute` | tools/l4common/catalog.c:78 | a search that expanded all it discovered without the target proves there is no route |
| `CatalogRouting.SearchNative` | tools/l4common/catalog.c:74-78 | the array search ends with the parents of the abstract search and finds the target exactly when a route exists |
| `CatalogRouting.WalkBack` | tools/l4common/catalog.c:78-80 | the backwards reconstruction terminates within the release count and spells the discovered path |
| `CatalogRouting.RouteNative` | tools/l4common/catalog.c:69-81 | the C router returns the specified route, and fails exactly when the platform is malformed or there is none |
| `CatalogRouting.SearchDocument` | l4release/catalog.py:151-168 | the queue of whole paths with its visited set returns the abstract search's path |
| `CatalogRouting.RouteDocument` | l4release/catalog.py:140-168 | the Python router returns the same specified route |
| `CatalogRouting.RoutesAreSound` | l4release/catalog.py:150-168 | a route is a chain of admitted transitions of that architecture and profile from the installed to the wanted release, and no release after the start is revoked |
| `CatalogRouting.RoutesAreCompleteAndShortest` | l4release/catalog.py:150-168 | whenever any admitted chain reaches the wanted release a route is found, and none is shorter |
| `CatalogRouting.RoutersAgreeExactlyWhen` | tools/l4common/catalog.c:69-81 | the two routers return the same release list and fail together, except exactly for a malformed platform when the wanted release is the installed one |
| `CatalogRouting.RoutersDiffer` | tools/l4common/catalog.c:71 | a concrete well-formed catalog on which the Python router answers and the C router refuses |
| `CatalogBuild.Build` | l4release/catalog_publisher.py:134-251 | the builder's loops compute exactly the specified reports and document, or refuse |
| `CatalogBuild.BuiltContents` | l4release/catalog_publisher.py:194-240 | the whole content of a built catalog: both endpoints at their published root digests, everything of the base and nothing else; the reports' transitions and nothing else; the next revision, seven days, and a stable pointer that only a promotion moves |
| `CatalogBuild.NextDocumentExactlyWhen` | l4release/catalog_publisher.py:194-225 | a document is made exactly when known releases keep their roots, the target is not revoked, and the transitions are new, or for a promotion already admitted with a stable pointer that moves |
| `CatalogBuild.BuiltFromGoodReports` | l4release/catalog_publisher.py:146-193 | every report of a built catalog is sealed, fresh, for one pair of releases at their published roots, on a platform of its own |
| `CatalogBuild.FreshFor` | l4release/catalog_evidence.py:221-229 | a report is fresh for fourteen days after a run of at most one day |
| `CatalogBuild.BaseIsKept` | l4release/catalog_publisher.py:194-240 | the next catalog keeps every base release with its digest and revoked flag and every transition, admits every report's transition, and its revision exceeds the base and every reservation |
| `CatalogBuild.BuiltIsSorted` | l4release/catalog_publisher.py:234-237 | every catalog the publisher builds lists its releases and transitions in order |
| `CatalogBuild.TextLeExactlyWhen` | l4release/catalog_publisher.py:235-237 | text is ordered by its first difference, a prefix before what it begins |
| `CatalogBuild.PromotionOnlyMovesStable` | l4release/catalog_publisher.py:206-240 | a promotion changes only the stable pointer, the revision and the times; the lists are the same sequences when the base lists were in order, and the same multisets otherwise |
| `CatalogBuild.RoutesSurvive` | l4release/catalog_publisher.py:194-240 | whatever could be reached on the base can be reached on the next catalog in no more hops |
| `PublicationSafety.AdmitRebuilds` | l4release/catalog_publisher.py:319-378 | an admitted plan is exactly what rebuilding from the retained or public base gives, and while one is pending it is that one |
| `PublicationSafety.AnnounceSafe` | l4release/catalog_publisher.py:398-430 | writing the pending floor keeps the invariant: it passes its loader, does not go back and everything needed to resume is staged |
| `PublicationSafety.SwitchSafe` | l4release/catalog_publisher.py:437-475 | replacing the two halves and then the floor is safe at every write and ends published |
| `PublicationSafety.FreshRunSafe` | l4release/catalog_publisher.py:319-475 | every write of a run that announces a new publication keeps the invariant, and the run ends published when every write-once place was available |
| `PublicationSafety.ResumedRunSafe` | l4release/catalog_publisher.py:324-346 | a run that resumes the pending plan only switches, is safe at every write and ends published |
| `PublicationHistory.TrialSafe` | l4release/acceptance_pipeline.py:393-426 | every write of a trial run keeps the invariant; a reservation takes a revision no one used |
| `PublicationHistory.EveryHistoryIsSafe` | l4release/catalog_publisher.py:55-132 | over every interleaving of publications and trials, each cut off anywhere: in every durable state the floor passes its loader and each half of the pair is old or new; floor revision and time never decrease; no revision is ever bound to two different catalogs, publicly or in a reservation |
| `PublicationHistory.EveryHistoryFromNothingIsSafe` | l4release/catalog_publisher.py:55-132 | the same for every history that starts with an empty registry and no protected state |
| `PublicationHistory.OnlyThePendingPlanProceeds` | l4release/catalog_publisher.py:113-116 | while a publication is pending every trial and every other plan is refused without a write |
| `PublicationGuards.BaseStandsExactlyWhen` | l4release/catalog_publisher.py:110-132 | on any state a base is accepted exactly when nothing is pending, the pair is whole, authentic and neither rolled back nor changed below the floor, and the clock has not gone back |
| `PublicationGuards.TamperedPairStopsEverything` | l4release/catalog_publisher.py:95-132 | a public pair that does not stand stops every publication and every trial |
| `PublicationGuards.UnknownHalfStopsEverything` | l4release/catalog_publisher.py:370-377 | with a publication pending, a public half that is neither old nor new stops everything |
| `PublicationGuards.BrokenReservationStopsEverything` | l4release/acceptance_trial.py:26-72 | a reservation whose trial directory does not hold exactly its signed plan and catalog stops everything |
| `PublicationGuards.UnreadableFloorStopsEverything` | l4release/catalog_publisher.py:55-93 | a floor that does not pass its loader stops everything |
| `PublicationGuards.LoaderInFigures` | l4release/catalog_publisher.py:76-92 | what the loader accepts, with every figure written out |
| `PublicationGuards.EvidenceComesFirst` | l4release/catalog_publisher.py:382-397 | wherever a publication run is cut off, nothing but evidence is written before all its evidence is there |
| `PublicationHistory.ResumesExactlyWhen` | l4release/catalog_publisher.py:324-378 | the pending plan is admitted again exactly when the clock is not below the floor, its reports are fresh and its catalog has not expired |
| `PublicationHistory.RerunCompletes` | l4release/catalog_publisher.py:319-475 | an announced publication, whatever runs came between, is completed by the same plan on the same inputs: both halves new, floor at the new catalog, nothing pending |
| `PublicationHistory.ExpiredPendingIsStuck` | l4release/catalog_publisher.py:324-365 | once a pending plan's catalog has expired no run of any plan and no trial writes anything any more |
| `PublicationHistory.PublishesExactlyWhen` | l4release/catalog_publisher.py:260-269 | an admitted new publication completes exactly when every write-once place it needs is free or holds the same bytes; otherwise floor and pair stay |
| `PublicationHistory.CutPublicationBlocksAnother` | l4release/catalog_publisher.py:382-397 | two different plans for one state claim the same revision; cutting the first off once its catalog is archived leaves the second admitted but unpublishable, its run changing neither floor nor pair |
| `PublicationHistory.PlannedIsAdmitted` | l4release/catalog_publisher.py:253-258 | a plan is admitted on the state it was made for exactly when its checkpoint is clean and it is still fresh and unexpired |
| `PublicationHistory.TrialAdmittedExactlyWhen` | l4release/acceptance_pipeline.py:209-257 | a trial is admitted exactly when nothing is pending, it is clean, valid and in scope, and either it holds the reservation itself or it has the next unused revision, whose directory does not exist yet |
| `PublicationHistory.PlannedTrialIsAdmitted` | l4release/acceptance_pipeline.py:139-207 | a planned trial is admitted on the state it was planned for exactly when it is clean and valid and its directory is not taken |
| `TrialRoutes.PlannedTrialOffersItsHop` | l4release/acceptance_pipeline.py:139-207 | the catalog of a planned trial lists its two endpoints at their published roots, has no stable release, expires after a day, and routes exactly from source to target and not back |
| `TrialRoutes.AdmittedTrialOffersItsHop` | l4release/acceptance_pipeline.py:209-257 | and so does the catalog of every trial that is admitted as new |
| `TrialRoutes.AdmittedTrialIsCurrent` | l4release/acceptance_pipeline.py:209-257 | every admitted trial, resumed ones included, has the published roots of two different releases, this host's platform, the clean source checkpoint of now and a catalog in force |
| `PublicationHistory.CutTrialBlocksTrials` | l4release/acceptance_pipeline.py:398-418 | a trial cut off after its directory was made and before its reservation leaves a state whose next unused revision has a directory, without holding the reservation itself |
| `PublicationHistory.BlockedAdmitsNoNewTrial` | l4release/acceptance_pipeline.py:398-399 | in such a state only a trial that already holds the reservation is admitted |
| `PublicationHistory.TrialsStayBlocked` | l4release/acceptance_pipeline.py:393-426 | in such a state any sequence of trial runs changes nothing |
| `CatalogPublisher.Publisher.MakePlan` | l4release/catalog_publisher.py:253-258 | planning returns exactly the specified plan or refuses |
| `CatalogPublisher.Publisher.Review` | l4release/catalog_publisher.py:271-380 | everything checked before the first write is exactly the specified admission |
| `CatalogPublisher.Publisher.Publish` | l4release/catalog_publisher.py:271-476 | a publication run leaves a prefix of its script behind, all of it unless it died, keeps the invariant and reports success only when published |
| `CatalogPublisher.Publisher.RunTrial` | l4release/acceptance_pipeline.py:379-426 | a trial run leaves a prefix of its script behind and keeps the invariant |
| `CommunicationRecovery.BeforeAll` | tools/l4common/communication_recovery.c:5-10 | the phases a run opens sum up to exactly what the budget check adds |
| `CommunicationRecovery.BudgetInFigures` | tools/l4common/communication_recovery.c:4-10 | a budget is valid exactly when six phases have 100 to 300000 ms, the broker start has 300000 ms, and the total covers their sum, verification and channel check twice, within an hour |
| `CommunicationRecovery.Opening` | tools/l4common/communication_recovery.c:27-29 | opening a phase keeps the run's invariant; with callbacks that keep their time its deadline is never cut off by the total |
| `CommunicationRecovery.Calling` | tools/l4common/communication_recovery.c:24-33 | a callback is given the exact remaining time, without narrowing loss under any clock that does not go back, and is checked afterwards |
| `CommunicationRecovery.Guard` | tools/l4common/communication_recovery.c:47-54 | a guarded callback fails on a late return or a refusal and otherwise moves the run one planned callback further |
| `CommunicationRecovery.Steps` | tools/l4common/communication_recovery.c:55-65 | the ten steps run in order; verified means ten completed, unconfirmed means exactly nine |
| `CommunicationRecovery.Execute` | tools/l4common/communication_recovery.c:44-68 | in every run callbacks are a prefix of the planned order; unlock happens exactly once, last, and exactly when the lock was taken; verified, completed and error agree; under a well-paced clock no phase is cut, the run ends within the total, and it is verified exactly when every callback returned true |
| `CommunicationRecovery.Attempt.Recover` | tools/l4common/communication_recovery.c:34-68 | unusable input and a call before the deadline leave the attempt unspent and call nothing; a spent attempt runs nothing; otherwise exactly one run is made |
| `CommunicationRecovery.CheckState` | tools/l4common/communication_recovery.c:16-23 | the one-pass owner check accepts exactly the valid markers |
| `CommunicationRecovery.BrokerGetsItsFullTime` | tools/l4common/communication_recovery.c:55-59 | in a well-paced run the broker start is given the full 300000 ms and the probe exactly what the start left |
| `CommunicationRecovery.EveryCallbackGetsItsBudget` | tools/l4common/communication_recovery.c:46-61 | in a well-paced run every callback is given its own budget in full, less what earlier callbacks of the same budget used |
| `CommunicationMonitor.Armed` | tools/l4common/communication_monitor.c:72-74 | the monotonic end is the deadline rounded up to milliseconds after now, refused exactly when it would not fit in 64 bits |
| `CommunicationMonitor.Run` | tools/l4common/communication_monitor.c:36-61 | the loop ends in the first round with a verdict, terminates under any wall clock and a tick count that lags by any bounded amount, and every wait is between 1 and 100 ms |
| `CommunicationMonitor.EndsExactlyWhen` | tools/l4common/communication_monitor.c:40-58 | what ends a run, exactly, for each of the seven endings |
| `CommunicationMonitor.GoesOnExactlyWhen` | tools/l4common/communication_monitor.c:40-58 | and exactly when a round goes on |
| `CommunicationMonitor.MarkerMayArriveLate` | tools/l4common/communication_monitor.c:42-48 | a monitor started before the marker waits for it and invokes the executor if it arrives before the run ends |
| `CommunicationMonitor.NeverArmedDoesNothing` | tools/l4common/communication_monitor.c:45-48 | without the marker nothing is ever done |
| `CommunicationMonitor.WaitIsTight` | tools/l4common/communication_monitor.c:53-57 | a wait is 100 ms, or what is left to the deadline rounded up, or what is left to the grace end, and no shorter or longer |
| `CommunicationMonitor.InvokedOnlyAtDeadline` | tools/l4common/communication_monitor.c:42-49 | the executor is invoked only on a wall-clock reading at or past the deadline, with the marker seen in that round and no foreign state before |
| `CommunicationMonitor.SeenStays` | tools/l4common/communication_monitor.c:42-43 | once seen, the marker was seen in every later round |
| `CommunicationMonitor.RunIsBounded` | tools/l4common/communication_monitor.c:50-59 | whatever the wall clock does, the number of rounds is bounded by the grace end plus the lag of the tick count |
| `CommunicationMonitor.EndsInTime` | tools/l4common/communication_monitor.c:53-58 | with exact waits the last round starts before the monotonic end plus 100 ms |
| `CommunicationMonitor.HeldClockFails` | tools/l4common/communication_monitor.c:25-35 | a wall clock held below the deadline ends the run with a time skew |
| `CommunicationMonitor.HonestClockInvokes` | tools/l4common/communication_monitor.c:25-49 | a wall clock that reaches the deadline by the tick bound invokes the executor when nothing interferes |
| `CatalogFloor.ReadFloor` | tools/l4common/catalog_floor.c:18-33 | the reading loop computes exactly the specified state or refusal |
| `CatalogFloor.AcceptedFilesAreChains` | tools/l4common/catalog_floor.c:18-33 | a file is accepted exactly when it is the header and the chained frames of a lawful sequence of entries, and reads as the last of them |
| `CatalogFloor.FrameLayout` | tools/l4common/catalog_floor.c:67-69 | every entry adds its fields and the hash of the fields followed by the previous link |
| `CatalogFloor.HeaderLayout` | tools/l4common/catalog_floor.c:63 | the bytes of a file without entries |
| `CatalogFloor.AcceptedSizes` | tools/l4common/catalog_floor.c:8-22 | the sizes of accepted files |
| `CatalogFloor.LawfulNeverGoesBack` | tools/l4common/catalog_floor.c:28-31 | in every accepted file revision and time never decrease and a revision has one digest |
| `CatalogFloor.FollowsExactlyWhen` | tools/l4common/catalog_floor.c:28-29 | an entry may follow exactly when it has a newer revision, or the same one with the same digest, at no earlier time |
| `CatalogFloor.TornFrame` | tools/l4common/catalog_floor.c:22 | a partly written frame makes every later read refuse |
| `CatalogFloor.FloorFile.Create` | tools/l4common/catalog_floor.c:64 | a new file is readable exactly when its whole header arrived |
| `CatalogFloor.FloorFile.Accept` | tools/l4common/catalog_floor.c:45-74 | accepting moves the log as specified (a repeat at the same revision and time adds nothing), never rewrites earlier bytes, and succeeds exactly for admissible offers when the write arrives |
| `CatalogFloor.HistoryNeverGoesBack` | tools/l4common/catalog_floor.c:45-74 | over every history of accepts the last accepted triple is what stands, a later accepted call never has a smaller revision, an earlier time or another digest for the same revision |
| `CatalogFloor.DamageIsFinal` | tools/l4common/catalog_floor.c:18-33 | after damage no call is accepted any more |
| `CommunicationPlan.DecodeEncode` | tools/l4common/communication_plan.c:81-112 | decoding the encoding of a valid plan within the size limit gives the plan back |
| `CommunicationPlan.EncodeDecode` | tools/l4common/communication_plan.c:81-112 | every accepted byte string is the encoding of the valid plan it decodes to |
| `CommunicationPlan.PlanAtEncoded` | tools/l4common/communication_plan.c:81-112 | the fixed offsets and the moving cursor of the reader find every part where the writer put it |
| `CommunicationPlan.TimesLayout` | tools/l4common/communication_plan.c:85-86 | the byte positions of magic, size, operation and times |
| `CommunicationPlan.EpochsLayout` | tools/l4common/communication_plan.c:87-88 | of the process epochs and the operation digest |
| `CommunicationPlan.BudgetLayout` | tools/l4common/communication_plan.c:88-89 | of the budget |
| `CommunicationPlan.RefsLayout` | tools/l4common/communication_plan.c:90-91 | of the references and sizes |
| `CommunicationPlan.ConsoleLayout` | tools/l4common/communication_plan.c:92-95 | of the console, the variable parts and the hash |
| `CommunicationPlan.CheckPlan` | tools/l4common/communication_plan.c:50-80 | the validity check with its loops accepts exactly the valid plans |
| `CommunicationPlan.ConfigExactlyWhen` | tools/l4common/communication_plan.c:12-18 | a broker file record passes exactly when it is two ones, four lengths, the fixed path, two contents of at most 65536 bytes and a descriptor of 20 to 4096 bytes, with nothing left over |
| `CommunicationPlan.CheckRefs` | tools/l4common/communication_plan.c:54-55 | the nested loop accepts exactly five distinct, non-zero references below the plan's sequence |
| `CommunicationPlan.Encode` | tools/l4common/communication_plan.c:81-96 | encoding succeeds exactly for valid plans within the limit and fills the buffer with the specified bytes |
| `CommunicationPlan.Take` | tools/l4common/communication_plan.c:106-107 | a variable part is taken exactly when it fits before the hash, so the unsigned subtraction never wraps |
| `CommunicationPlan.TakeParts` | tools/l4common/communication_plan.c:104-111 | the cursor succeeds exactly when the parts fill the space between fixed part and hash |
| `CommunicationPlan.Decode` | tools/l4common/communication_plan.c:97-112 | decoding computes the specified plan or refusal for every byte string |
| `MediaArchive.FetchIsExact` | l4media/archive/store.py:349-407 | a fetch is exactly the rows of the month, by time and then by row id |
| `MediaArchive.FetchedExactlyWhen` | l4media/archive/store.py:349-407 | a record is fetched exactly when it is in a row of that month |
| `MediaArchive.RunConserves` | l4media/archive/pipeline.py:141-272 | with a fresh batch id, wherever a run dies or fails: every record gone from the hot store is in the promoted batch; other months, summaries and other batches are untouched |
| `MediaArchive.RunCompletes` | l4media/archive/pipeline.py:232-272 | a complete purging run empties the month and leaves one purged batch with all of it and the exact count |
| `MediaArchive.DryRunCompletes` | l4media/archive/pipeline.py:245-254 | a complete run without a purge leaves the tables alone and one verified batch |
| `MediaArchive.TooRecentDoesNothing` | l4media/archive/guards.py:95-111 | a month that ended less than three full months ago is not touched at all |
| `MediaArchive.RecentMonthsStayHot` | l4media/archive/guards.py:79-113 | records of the current and the three previous months are never touched by any run, whatever its batch id |
| `MediaArchive.NothingIsLost` | l4media/archive/pipeline.py:141-272 | over every history of ingests and runs with fresh ids, each cut off or failing anywhere, a known record stays in the hot store or a batch file unless an ingest with its record id replaced it |
| `MediaArchive.ChunksDeleteAll` | l4media/archive/store.py:409-456 | deleting chunk by chunk deletes exactly the rows of the month |
| `MediaArchive.ChunksAreBounded` | l4media/archive/store.py:421-454 | no single deletion covers more than a thousand rows |
| `MediaArchive.IngestIsKnown` | l4media/archive/store.py:125-195 | an ingested record is hot, in its month |
| `MediaArchive.ReusedIdKeepsExactly` | l4media/archive/pipeline.py:232-236 | with a batch id in use, from the first effect on and wherever the run stops, exactly the records that were hot or in another batch are still known; what only the old batch held is lost |
| `MediaRestore.RestoreGivesBack` | l4media/archive/restore.py:115-177 | restoring a fetched month into an empty store and fetching it again gives the records in the same order, each reduced to the fixed keys; they are the same exactly when every payload has just those keys |
| `MediaRestore.SampleComesBack` | l4media/archive/restore.py:133-156 | a stream sample with its ten payload fields comes back unchanged |
| `MediaRestore.QualityEventComesBack` | l4media/archive/restore.py:157-170 | a quality event with its three payload fields comes back unchanged |
| `MediaRestore.RestoreFile` | l4media/archive/restore.py:115-180 | the line loop adds the leading valid records of a wanted type up to the limit and stops at the first invalid one |
| `MediaRestore.RestoreBatch` | l4media/archive/restore.py:115-185 | both files are restored in order, the limit counting over both; an invalid record ends the restore with what was added so far |
| `MediaRestore.RestoresEverything` | l4media/archive/restore.py:115-192 | a restore of everything succeeds exactly when every envelope is valid, and then adds and counts all records of the files the manifest names |
| `MediaRestore.LimitIsKept` | l4media/archive/restore.py:179-182 | a limit is kept, except that a limit of zero still restores one record |
| `MediaRestore.TotalIsLimited` | l4media/archive/restore.py:179-182 | the limit counts over both files |
| `MediaRestore.UnwantedAddsNothing` | l4media/archive/restore.py:129-131 | records of a type that was not asked for are never added |
| `MediaRestore.RestoreExactlyWhen` | l4media/archive/pipeline.py:274-325 | restoring a promoted batch through its manifest into an empty store gives back the whole month exactly when the manifest's state is not failed; a failed manifest gives back nothing |
| `MediaRestore.RaisedPurgeCannotBeRestored` | l4media/archive/pipeline.py:274-325 | a run that raises after purging a month's samples leaves them in no table, in the batch's file, and out of reach of a restore through the manifest |
| `MediaArchive.Pipeline.PurgeTable` | l4media/archive/store.py:409-456 | the purge loop makes exactly the specified deletions, a part of them when it dies or raises, and counts them |
| `MediaArchive.Pipeline.RunArchive` | l4media/archive/pipeline.py:85-325 | whatever a run leaves behind is what the script, cut off there, leaves behind, with a failed manifest when it raised |
| `ContactRelay.Relay.Begin` | l4desk-landing/contact/server.py:136-165 | a submission is admitted exactly when its request id is not held and all three buckets have room over their full histories; anything else leaves the history as it was; a repeat gets the reply of the submission that holds the id exactly when address and e-mail agree |
| `ContactRelay.Relay.Complete` | l4desk-landing/contact/server.py:207-209 | the reply is kept under the time of admission and the invariant holds |
| `ContactRelay.Relay.Release` | l4desk-landing/contact/server.py:210-213 | a failure releases the request id and the invariant holds |
| `ContactRelay.QuotasHold` | l4desk-landing/contact/server.py:155-164 | in every reachable history each bucket admits at most its quota in every window of its period |
| `ContactRelay.QuotasInFigures` | l4desk-landing/contact/server.py:155-164 | at most three in ten minutes per address, three a day per e-mail address, a hundred a day in all |
| `ContactRelay.RoomInFigures` | l4desk-landing/contact/server.py:155-162 | and room in the same figures |
| `ContactRelay.SecondNeedsAFailure` | l4desk-landing/contact/server.py:138-146 | when every submission ends within its hour, the first second admission of a request id within the hour comes after a failure of the first |
| `ContactRelay.HeldExactlyWhen` | l4desk-landing/contact/server.py:138-165 | when every submission ends within its hour, a request id is held exactly when its latest admission is younger than an hour and has not failed |
| `ContactRelay.LateEndingReleasesAnother` | l4desk-landing/contact/server.py:206-213 | run on the relay: a submission that ends after its hour, confirmed or not, frees the request id a second one holds, and a third is admitted while the second is on its way |
| `CameraCadence.AtMostOneRate` | contracts/camera-cadence-proposal/verify.py:5-15 | for every timestamp sequence at most one frame rate is returned |
| `CameraCadence.ReturnedExactlyWhen` | contracts/camera-cadence-proposal/verify.py:5-15 | a rate is returned exactly when the timestamps are usable and it fits |
| `CameraCadence.ReturnedInFigures` | contracts/camera-cadence-proposal/verify.py:5-15 | the same with every figure written out |
| `CameraCadence.ExactSpacingIsRecognised` | contracts/camera-cadence-proposal/verify.py:5-15 | exact spacing of 90000 / f ticks over a long enough span returns exactly f |

## Left out

- Windows service manager calls, access control, file fences, process handles and job objects: they appear only as nondeterministic answers; `access.c`, `active_updater.c`, `child_probe.c`, `communication_worker.c` and `communication_boot.c` are almost entirely such calls.
- Cryptography: signatures and SHA-256 are not modelled; collisions and forgeries are outside the model.
- Transport, retries and timeouts of the registry, and writers of the registry other than the publisher: the publisher's re-reads of objects it has just read or written are not repeated in the model because they could only detect another writer.
- JSON, ZIP, gzip and SQLite internals: documents are parsed values, archives are sequences of records, tables are sequences of rows.
- `tools/l4common/journal_codec.c`: the plan text codec of the bootstrap journal would repeat the cursor argument of the communication plan.
- Deployment scripts, landing pages, database schemas, other contract fixtures: no hard property.
- CatalogModel.ValidateCatalog: the schema number, the key identity and the exact field sets of the JSON objects are not modelled; a catalog value has exactly its fields and one owner.
- CatalogBuild.Build: of an acceptance report the endpoints, their root digests, the architecture and the times are modelled; everything in it that depends on neither the clock nor the published endpoints is one flag. An endpoint's identity is its root digest; the inventory digest is not a separate value.
- CommunicationMonitor.Run: assumes that waits last as long as asked for, up to a bounded lag of the tick count over the whole run; a tick count that stops for ever is not covered. EndsInTime assumes exact waits.
- CommunicationRecovery.Execute: the callbacks' own work and the last-error code they set are a tape; the order of the three reads inside one check is kept, the thread-local error variable is not.
- CommunicationPlan.CheckPlan: what Windows and the switch decoder say about service switches and security descriptors is a parameter.
- CommunicationPlan.Encode: the fixed part is stored group after group from front to back; the source stores the same fields at the same offsets in another order.
- CatalogFloor.FloorFile.Accept: a short write is a prefix of the intended bytes; a write that stores other bytes is not modelled. Offers have a positive revision, as the parsed catalog guarantees.
- PublicationHistory.TrialAdmittedExactlyWhen: an endpoint's identity is its root digest, the platform facts are one value, and the two operation ids of a trial plan are part of the run id.
- PublicationHistory.RerunCompletes: covers a publication that was announced; one that was cut off earlier is covered by PublishesExactlyWhen.
- MediaRestore.RestoreGivesBack: envelope fields other than id and time are one opaque value, so the replacement of a missing session id by an empty string is not modelled; the envelope check of a restore is a parameter; restoring to a JSON lines file and the per-type counters are left out.
- MediaArchive.Pipeline.RunArchive: volume, stream and verification guards appear as an exception that may be raised before any effect; staging directories are not part of the state because nothing reads them.
- ContactRelay.HeldExactlyWhen: assumes that submissions end at most once and within their hour, which the source's timeouts give; LateEndingReleasesAnother shows what happens otherwise. SecondNeedsAFailure has the same assumption.
- ContactRelay.Relay.Begin: form validation, the CAPTCHA and the mail provider are outside; e-mail addresses are taken in lower case; submissions enter in clock order.
