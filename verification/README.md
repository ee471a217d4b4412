# WorkBuddy Buddy: verified model

The desktop pet derives one status from hook events, a durable reporter tells it to a control plane, the control plane
keeps a presence ledger, scores it daily and streams public Office revisions. This project models that path and proves
what it keeps. `dafny verify dfyconfig.toml` checks all of it.

Each part has the same shape: functions on values say what one step does, classes and methods with loops do it the way
the program does and are proved equal to those functions, and lemmas say what the steps mean over whole runs.

- **Reporting protocol** (`EdgeWire`, `IngestTables`, `StoreInvariant`, `ReportingRuns`, `IngestStore`, `ReporterSteps`,
  `EdgeReporter`, `Protocol`, `ReporterLoop`). One server transaction holds the instance's row locks, so it is one step;
  the client can crash between any two durable writes; the network loses, duplicates and delays. A run starts from one
  completed enrollment, with one process per data directory and boot ids that are never reused.
- **Presence ledger and daily scores** (`PresenceLedger`, `LedgerRefinement`, `PresenceMeaning`, `Scoring`, `IslandMerge`, `Settlement`,
  `OfficeDays`, `OfficeTick`). Ingest, sweeper and settlement share one monotone clock. That is needed: with a clock
  behind a lease that was already swept, a report that begins a boot or changes the activity is rolled back, and any
  other renews a lease under which no interval is open (`LedgerRefinement.BehindSweep`).
- **Status machine** (`StatusMachine`, `StatusHistory`, `StatusMeaning`). The pruned machine is compared with the
  unpruned list of events. Thinking, review and done share one display priority and ties in time fall to map order, so a
  snapshot is proved to be in the set of maximal entries.
- **Sprite components** (`DisjointSets`, `PixelPaths`, `ConnectedRuns`, `ComponentFrames`).
- **Public revisions** (`RevisionLog`, `MountConsent`, `StreamPump`, `OfficePage`). The stream holds a shared lock on its
  Office from reading a page until the page is written; the browser page tells late answers from current ones by a
  generation number.
- **Canonical JSON** (`JsonText`, `CanonicalJson`, `SigningBytes`). String escapes follow section 7 of RFC 8259.
- **Rate limits and spool** (`RateLimits`, `RateForgetting`, `PublicRateLimiter`, `IngressRateLimiter`, `Spool`).

## Where the code does not do what one would expect

- The pet documentation promises the display order failed, waiting, working, review, thinking, done, idle. The code gives
  thinking, review and done one priority and lets the latest win; the model follows the code, shows the difference
  (`StatusMeaning.DocumentedOrderFails`) and when there is none (`StatusMeaning.DocumentedOrder`). The documented times to
  live hold for working, review and failed only (`StatusMeaning.DocumentedTimes`).
- The reporting loop can forget the latest state: when its envelope does not reach the outbox and a heartbeat of the same
  turn is acknowledged, the mark that the state still has to be sent is cleared (`ReporterLoop.LatestStateCanBeForgotten`);
  `ReporterLoop.TurnDelivers` says for which inputs.
- The public rate limiter's cleanup can be noticed: a refused call brings an existing idle bucket up to date but does not
  store a new one, so a later window may start at another time than without the cleanup
  (`RateForgetting.CleanupChangesADecision`, `RateForgetting.ForgettingShows`). The ingress limiter has no such case
  (`IngressRateLimiter.IngressForgettingIsInvisible`).
- The spool tailer takes a file whose metadata cannot be read for an empty one and applies its lines again
  (`Spool.LineAppliedTwice`); `Spool.EveryLineOnce` says exactly when that happens.
- The two canonical JSON implementations order keys outside the Basic Multilingual Plane differently
  (`CanonicalJson.SupplementaryKeysDiffer`); no envelope has such keys (`SigningBytes.ClientSignsWhatServerVerifies`).
- The client can report thinking and review, which the server's schema lists with no activity. In every run such a report stays in the
  outbox, and nothing is reported after it (`Protocol.UnlistedStateBlocks`, `Protocol.PromptBlocks`).

## Model

| member | source | states |
|---|---|---|
| `EdgeWire.SchemaMeaning` | contracts/protocol-policy.v1.json:36-70 | a report is schema-valid exactly when it has 1 to 64 events, a first sequence in the safe range, and for every transition one of the eight listed display/activity pairs and a supported pet |
| `EdgeWire.AssertIntrinsicSemantics` | apps/control-plane/src/platform/contracts/edge-report-validator.ts:115-175 | passes exactly the batches whose sequences are contiguous from first_sequence within the safe range and whose kind fits the endpoint; a gap or an overlap is reported at the first offending event with the sequence expected there |
| `StoreInvariant.LateBatch` | apps/control-plane/src/modules/presence/application/ingest-edge-report.ts:236-301 | in a well-formed store a batch below the expected sequence is an exact replay (answered with the stored acknowledgement) exactly when a stored receipt has that very payload, else a conflict when its range is taken or an accepted sequence differs, else an overlap; the "internally inconsistent" branch cannot be reached |
| `StoreInvariant.CommitValid` | apps/control-plane/src/modules/presence/application/ingest-edge-report.ts:311-471 | for any accepted batch the write phase cannot roll back, keeps the boots one chain with generations 1..n, keeps the receipts and fingerprints of the current boot tiling exactly [1, next_sequence), and leaves the ledger that the longer list of accepted reports implies |
| `StoreInvariant.OnlyTheCurrentIsFenced` | apps/control-plane/src/modules/presence/application/ingest-edge-report.ts:743-848 | a rollover fences the boot that was current, at the receive time, keeps every other boot row and its fence, and adds one successor that is not fenced |
| `StoreInvariant.IngestRefuses` | apps/control-plane/src/modules/presence/application/ingest-edge-report.ts:184-309 | a report that is not accepted changes no row and is never answered with the internal error |
| `StoreInvariant.IngestAccepts` | apps/control-plane/src/modules/presence/application/ingest-edge-report.ts:311-471 | an accepted report is answered with the acknowledgement of its own last sequence and its lease, in a store that is again well formed |
| `StoreInvariant.IngestValid` | apps/control-plane/src/modules/presence/application/ingest-edge-report.ts:156-471 | for any client and any prepared report: the store stays well formed, refusals and replays change nothing, the internal error is unreachable |
| `StoreInvariant.ExpireValid` | apps/control-plane/src/modules/presence/application/expire-leases.ts:65-155 | the sweeper never fails, touches only the presence row and its interval, and keeps the store well formed |
| `ReportingRuns.RunValid` | apps/control-plane/src/modules/presence/application/ingest-edge-report.ts:156-471 | every run of any deliveries and sweeps on one monotone clock keeps the whole store invariant |
| `ReportingRuns.AtMostOnce` | apps/control-plane/src/modules/presence/application/ingest-edge-report.ts:236-309 | in every run, from any client, an event of one boot and sequence takes effect at most once |
| `ReportingRuns.Redelivery` | apps/control-plane/src/modules/presence/application/ingest-edge-report.ts:243-257 | delivering an accepted report again changes nothing: the answer is the original acknowledgement while its boot is current and stale_boot once it is fenced |
| `ReportingRuns.GapNamesTheNext` | apps/control-plane/src/modules/presence/application/ingest-edge-report.ts:236-309 | a batch of the current boot is accepted, late or a gap as it starts at, before or after the sequence following the last accepted one, and the answers name that sequence |
| `ReportingRuns.ReceiveTimesNeverFall` | apps/control-plane/src/modules/presence/application/ingest-edge-report.ts:311-318 | even when the database clock runs backwards a report is dated no earlier than the one before, and its acknowledgement carries exactly that time, its lease, its boot and its last sequence |
| `ReportingRuns.SweepsErasable` | apps/control-plane/src/modules/presence/application/expire-leases.ts:65-155 | leaving every sweep out of a run changes no accepted report and no row but those of the ledger |
| `ReportingRuns.SweeperTimingInvisible` | apps/control-plane/src/modules/presence/application/expire-leases.ts:109-139 | what the ledger says about any instant is the same with and without the sweeper, whenever it runs |
| `IngestStore.Store.IngestReport` | apps/control-plane/src/modules/presence/application/ingest-edge-report.ts:120-152 | the row-by-row transaction, classification and rollback included, equals the ingest function the lemmas are about |
| `IngestStore.Store.ClassifyReport` | apps/control-plane/src/modules/presence/application/ingest-edge-report.ts:172-309 | the checks on head and boot row, in the order the transaction makes them, give the classification the lemmas are about |
| `IngestStore.Store.ClassifyLateReport` | apps/control-plane/src/modules/presence/application/ingest-edge-report.ts:243-300 | the receipt and fingerprint comparisons of a late batch tell replay, conflict and overlap apart as that classification does |
| `IngestStore.Store.ApplyBatch` | apps/control-plane/src/modules/presence/application/ingest-edge-report.ts:929-1008 | the loop over a batch equals the fold of its events: one open, close or neither per event, and the snapshot the last event leaves |
| `IngestStore.Store.FencePreviousBootAndPresence` | apps/control-plane/src/modules/presence/application/ingest-edge-report.ts:743-784 | closes the open interval at the lease end or the receive time, drops the presence row and scrubs the replay material of the fenced boot |
| `IngestStore.Store.CreateBootAndAdvanceHead` | apps/control-plane/src/modules/presence/application/ingest-edge-report.ts:819-847 | inserts the successor and swings the head only if it still stands at the named predecessor and generation |
| `IngestStore.Store.ExpireOneLease` | apps/control-plane/src/modules/presence/application/expire-leases.ts:65-155 | one sweeper transaction equals the expiry function, and does nothing unless the lease is due and still open |
| `PresenceLedger.CoverIsMembership` | apps/control-plane/src/modules/presence/application/ingest-edge-report.ts:1060-1108 | looking an instant up in the ledger finds exactly the interval that covers it, and never two |
| `LedgerRefinement.RecordRefines` | apps/control-plane/src/modules/presence/application/ingest-edge-report.ts:314-431 | recording a report cannot fail, changes nothing before it, and from it on the activity covers one lease; across state changes, expiry, seamless and broken rollovers, heartbeats and multi-event batches |
| `LedgerRefinement.SweepRefines` | apps/control-plane/src/modules/presence/application/expire-leases.ts:109-139 | closing an expired lease leaves the ledger refining the same list of reports |
| `LedgerRefinement.LedgerIsTheLog` | apps/control-plane/src/modules/presence/application/ingest-edge-report.ts:314-431 | for every instant t and activity a: an interval labelled a covers t exactly when t lies in [r_i, min(r_{i+1}, r_i + ttl)) of an accepted report after which the latest activity is a; no two intervals cover t |
| `LedgerRefinement.OneOpenInterval` | apps/control-plane/src/modules/presence/application/ingest-edge-report.ts:321-409 | exactly one interval is open while the lease is, none otherwise; an idle one starts at eligible_since; every declared check of the two tables holds |
| `LedgerRefinement.BehindSweep` | apps/control-plane/src/modules/presence/application/ingest-edge-report.ts:311-431 | with a clock behind a lease that was already swept, a report is rolled back exactly when it begins a boot or changes the activity; any other renews the lease with no interval open |
| `PresenceMeaning.PresenceIsTheLog` | apps/control-plane/src/modules/presence/application/ingest-edge-report.ts:929-1084 | in every run the presence row shows display, activity, pet and state sequence of the last accepted transition, and the agent its pet; displaySince and activitySince are the times of the reports that began the current run of that display and of that activity, both starting over where a boot finds no live presence to take over |
| `PresenceMeaning.TransitionSays` | apps/control-plane/src/modules/presence/application/ingest-edge-report.ts:1015-1046 | one transition keeps that true of the row, told from the list of transitions alone |
| `EdgeReporter.EdgeReporter.Load` | crates/edge/src/lib.rs:198-250 | a reload continues the envelope in the outbox, or opens a successor of the last accepted boot at sequence 1 |
| `EdgeReporter.EdgeReporter.CreatePending` | crates/edge/src/lib.rs:337-363 | at most one envelope is pending, and it is on disk before it can be sent |
| `EdgeReporter.EdgeReporter.AcceptAck` | crates/edge/src/lib.rs:365-403 | the field and file updates of an acknowledgement, with every storage fault between them, the superseded connection and the rotation after 256 events |
| `EdgeReporter.EdgeReporter.PublishState` | crates/edge/src/lib.rs:281-297 | flush, then report the state unless it was what got flushed, as one function of the reporter, the disk and the network answers |
| `EdgeReporter.EdgeReporter.SendHeartbeat` | crates/edge/src/lib.rs:299-312 | sends nothing before the boot is established, retries what is pending first, and otherwise creates one heartbeat |
| `ReporterSteps.PublishedStateWasAcknowledged` | crates/edge/src/lib.rs:281-297 | a successful publish means that an envelope carrying exactly that state was acknowledged, that nothing is pending in memory or on disk, and that only a rotation asks for the state again |
| `ReporterSteps.EndpointFits` | crates/edge/src/lib.rs:264-270 | a report goes to the heartbeat endpoint exactly when that endpoint's own check lets it pass |
| `Protocol.MoveValid` | crates/edge/src/lib.rs:198-403 | every step of client, network or server (create, send, lose, duplicate, delay, serve, sweep, receive with any storage fault, crash, reload) keeps client and server in step |
| `Protocol.EveryRun` | crates/edge/src/lib.rs:198-403 | the system invariant holds in every run from a completed enrollment |
| `Protocol.EffectsInCreationOrder` | crates/edge/src/lib.rs:337-403 | in every run what took effect on the server is everything the client created, in order and once each, or everything but the envelope still in its outbox; no boot outgrows 256 events |
| `Protocol.LiveEnvelopeIsNeverRefused` | apps/control-plane/src/modules/presence/application/ingest-edge-report.ts:184-309 | in every run the envelope in the outbox, however late and however often it arrives, is acknowledged unless the schema or the generation range forbids it, and is never answered with stale_boot, sequence_gap, sequence_overlap or sequence_conflict |
| `Protocol.AcknowledgementsMatch` | crates/edge/src/lib.rs:365-378 | in every run an acknowledgement that reaches the client matches its pending envelope |
| `Protocol.RecoversFromLoss` | crates/edge/src/lib.rs:198-403 | in every run, whatever was lost: after a crash and the loss of every message about the outbox, a restart and one undisturbed exchange deliver it, and then everything ever created has taken effect, in order and once each |
| `Protocol.UnlistedStateBlocks` | contracts/protocol-policy.v1.json:36-70 | in every run a state written to the outbox is acknowledged when it arrives exactly when the policy lists its display with its activity (generations left); when it does not, the outbox, what was created and what took effect never change again |
| `Protocol.PromptBlocks` | crates/edge/src/protocol.rs:162-184 | the first prompt after enrollment, thinking and active, is such a state |
| `ReporterLoop.TurnDelivers` | src-tauri/src/edge.rs:148-254 | a turn of the reporting loop keeps "nothing left to send means the latest state was acknowledged" exactly when its inputs are not those of a timeout turn in which the server was not told the latest state, no envelope of it gets into the outbox (another one is still there, the write fails, or the pet is unsupported), and the heartbeat's own acknowledgement arrives before the boot is full |
| `ReporterLoop.LatestStateArrives` | src-tauri/src/edge.rs:148-254 | in every run without such inputs, the latest state has been acknowledged whenever the loop thinks it has |
| `ReporterLoop.ReloadTakesTheNewConnection` | src-tauri/src/edge.rs:197-213 | after a reload the reporter, and whatever it writes from then on, belongs to the connection found on disk |
| `ReporterLoop.LatestStateCanBeForgotten` | src-tauri/src/edge.rs:148-254 | from the loop's start: Working and then Done without answers, and a timeout turn whose heartbeat is answered, end with nothing marked for sending and the server told Working |
| `ReporterLoop.ReporterLoop.OnTimeout` | src-tauri/src/edge.rs:213-250 | the timeout branch over the loop variables and the reporter object equals the turn function |
| `ReporterLoop.ReporterLoop.OnChange` | src-tauri/src/edge.rs:167-196 | the snapshot and pet branches equal the turn function |
| `ReporterLoop.ReporterLoop.OnReload` | src-tauri/src/edge.rs:197-212 | the reload branch: a new reporter from the rewritten files, and one attempt to publish |
| `StatusMachine.Machine.Advance` | crates/core/src/lib.rs:437-467 | the loop over the sessions, in any order, decays every entry, opens or clears the eligible interval and forgets idle sessions, as the step function says |
| `StatusMachine.Machine.PruneIdle` | crates/core/src/lib.rs:472-484 | forgets exactly the sessions that show Idle and keeps the latest time one of them turned Idle |
| `StatusMachine.Machine.ApplyAt` | crates/core/src/lib.rs:294-353 | one event at a receive time that never runs backwards, as the step function says |
| `StatusMachine.Machine.Snapshot` | crates/core/src/lib.rs:357-422 | the display is in the set of maximal (priority, since) entries and the blocker is a maximal one, in whatever order the map is walked |
| `StatusMachine.StagesByMinutes` | crates/core/src/lib.rs:516-528 | the idle stages begin at 15, 25, 35 and 60 minutes |
| `StatusMachine.HookMeanings` | crates/core/src/lib.rs:301-320 | what each hook says of its session |
| `StatusMachine.NotificationMeaning` | crates/core/src/lib.rs:569-580 | errors and failures first, then permissions, approvals and inputs, then idle prompts, which show waiting but count as idle; anything else says nothing |
| `StatusMachine.CaseDoesNotMatter` | crates/core/src/lib.rs:569-571 | kinds that differ in the case of ASCII letters mean the same |
| `StatusHistory.EndOfMeaning` | crates/core/src/lib.rs:490-513 | an event holds until the earlier of its expiry and the next event of its session |
| `StatusHistory.LiveMeaning` | crates/core/src/lib.rs:490-513 | it is live exactly while it is its session's latest, shows something and is within its time to live, the last millisecond included |
| `StatusHistory.AdvanceReflects` | crates/core/src/lib.rs:437-484 | letting time pass keeps the pruned machine equal to what the unpruned history says; on the way no saturating addition saturates |
| `StatusHistory.InsertReflects` | crates/core/src/lib.rs:325-353 | one more event keeps the pruned machine equal to what the longer history says |
| `StatusHistory.PlayReflects` | crates/core/src/lib.rs:294-353 | in every run, with any receive times, the pruned machine is what the whole history says |
| `StatusMeaning.StatusIsTheHistory` | crates/core/src/lib.rs:357-422 | at any later time a snapshot is blocked exactly when some session's latest event blocks within its time to live, else eligible since the latest end of any block or since the first event; the display is a highest-priority latest live event, else Idle since the last run-out |
| `StatusMeaning.SnapshotIsTheGravest` | crates/core/src/lib.rs:357-422 | with a live failed event the snapshot is failed since the latest such event, else waiting since the latest waiting one, else active since the latest active one; the display goes by failed, waiting, working, and then the latest of thinking, review and done |
| `StatusMeaning.AdvanceIsInvisible` | crates/core/src/lib.rs:437-467 | pruning early is invisible: with or without it a later snapshot has the same activity, both since values, idle stage and display priority |
| `StatusMeaning.AdvanceTwice` | crates/core/src/lib.rs:437-484 | advancing twice is advancing once to the later time |
| `StatusMeaning.InformationIsInvisible` | crates/core/src/lib.rs:569-580 | an informational notification changes nothing that any later snapshot shows |
| `StatusMeaning.DocumentedOrder` | crates/core/src/lib.rs:97-107 | the displayed state is certain to follow the documented order exactly when some live session is failed, waiting or working, or one of the highest documented rank spoke after every live one of a lower rank |
| `StatusMeaning.DocumentedTimes` | crates/core/src/lib.rs:52-66 | the latest event stays three minutes when working or review, an hour when failed and two minutes otherwise; that is what the pet documentation says exactly for working, review and failed |
| `StatusMeaning.DocumentedOrderFails` | crates/core/src/lib.rs:97-107 | a prompt in one session and a later stop in another: the machine shows done where the documentation promises thinking |
| `Scoring.AssertNonOverlapping` | apps/control-plane/src/modules/public-office/domain/scoring.ts:237-257 | comparing each interval with the previous non-empty one finds an overlap exactly when any two intervals share an instant |
| `Scoring.ScoreCandidate` | apps/control-plane/src/modules/public-office/domain/scoring.ts:127-165 | refuses exactly bad timestamps, reversed intervals and overlaps, and otherwise returns the sum and the latest reach over the intervals as given, in any order; the two range errors on sums never fire |
| `Scoring.RefusedIntervals` | apps/control-plane/src/modules/public-office/domain/scoring.ts:80-125 | one interval is reversed only when it ends before it starts, and out of range only for a negative or unsafe time; the error for an unsafe reach never occurs |
| `Scoring.TotalIsBounded` | apps/control-plane/src/modules/public-office/domain/scoring.ts:144-149 | disjoint intervals never score more seconds than have passed, so no total is unsafe |
| `Scoring.SortIsFaithful` | apps/control-plane/src/modules/public-office/domain/scoring.ts:135-140 | sorting by start and end changes neither overlap nor totals |
| `Scoring.SplittingNeverPays` | apps/control-plane/src/modules/public-office/domain/scoring.ts:77-125 | cutting an interval in two never raises a candidate's score |
| `IslandMerge.PassGroups` | apps/control-plane/src/modules/public-office/application/office-leaderboard-query.ts:92-139 | one pass over the sorted rows computes the window functions' islands: every row lies in the island of its id, whose start and end are the MIN and MAX of the rows with that id |
| `IslandMerge.IslandsAreSeparate` | apps/control-plane/src/modules/public-office/application/office-leaderboard-query.ts:102-139 | the islands are in order, pairwise disjoint and of positive length |
| `IslandMerge.IslandsCoverTheSame` | apps/control-plane/src/modules/public-office/application/office-leaderboard-query.ts:92-139 | merging neither loses nor adds an instant |
| `IslandMerge.SeparateRowsStay` | apps/control-plane/src/modules/public-office/application/office-leaderboard-query.ts:102-111 | rows that overlap nowhere, touching ones included, are their own islands |
| `IslandMerge.QueryAgreesWithScoring` | apps/control-plane/src/modules/public-office/application/office-leaderboard-query.ts:140-162 | the query's seconds and reached-at are what the scoring rules give on its islands, which pass every check of those rules |
| `Settlement.RunKeeps` | apps/control-plane/src/modules/presence/application/ingest-edge-report.ts:311-431 | once the clock has reached an instant, no run of reports and sweeps changes any interval before it or adds one |
| `Settlement.FiltersAreRedundant` | apps/control-plane/src/modules/public-office/application/office-leaderboard-query.ts:82-85 | the coarse conditions of the join never drop a row that the final filter would keep |
| `Settlement.MountRowsMeaning` | apps/control-plane/src/modules/public-office/application/office-leaderboard-query.ts:37-91 | an instant is in one of a mount's rows exactly when an idle interval of some instance of its agent covers it, a consent interval holds it, an occurrence is open at it, and it lies before the instant asked about |
| `Settlement.RowsAreSettled` | apps/control-plane/src/modules/public-office/application/office-leaderboard-query.ts:37-91 | the filtered rows as of that instant, and the score, of a mount with any number of instances are the same in every later state |
| `OfficeDays.RankingIsComplete` | apps/control-plane/src/modules/public-office/application/office-leaderboard-query.ts:149-175 | the ranking holds exactly the mounts with a positive score, each ahead of all that follow |
| `OfficeDays.RankingOrder` | apps/control-plane/src/modules/public-office/application/office-leaderboard-query.ts:163-175 | more seconds first, then the earlier time at which they were reached, then the smaller agent id |
| `OfficeDays.WinnerIsBest` | apps/control-plane/src/modules/public-office/application/office-leaderboard-query.ts:171-175 | the winner is ahead of every other mount; there is none only when nobody scored |
| `OfficeDays.StandingIsScored` | apps/control-plane/src/modules/public-office/application/office-leaderboard-query.ts:87-162 | whatever ledgers, consents and occurrences: the rows of a mount are clipped, its islands pass every check of the scoring rules, and its place in the ranking carries their score |
| `OfficeDays.OutcomeIsScored` | apps/control-plane/src/modules/public-office/application/settle-office-days.ts:57-90 | a settled winner carries the score of its own islands as of the close, and without a winner every mount scored nothing |
| `OfficeDays.DayCounts` | apps/control-plane/src/modules/public-office/application/office-leaderboard-query.ts:60-91 | the instants a day's standings are made of are those at which some instance is idle, the mount consents and one of that date's occurrences is open |
| `OfficeDays.OccurrencesAreOfTheDate` | apps/control-plane/src/modules/public-office/application/office-leaderboard-query.ts:74 | a day's occurrences are those of the schedule rows of its date |
| `OfficeDays.DayClosesLast` | apps/control-plane/src/modules/public-office/application/settle-office-days.ts:26-46 | a finished day closes with the last of its occurrences and carries the version all its rows have |
| `OfficeDays.DueMeans` | apps/control-plane/src/modules/public-office/application/settle-office-days.ts:26-46 | a day is due exactly when it is not settled, has rows, all of them are over and one schedule version made them |
| `OfficeDays.SettledDayStands` | apps/control-plane/src/modules/public-office/application/settle-office-days.ts:26-56 | with consent and schedule fixed, a day computed once the clock has reached its close is computed the same in every later state of every instance |
| `OfficeDays.OfficeDayResults.SettleDue` | apps/control-plane/src/modules/public-office/application/settle-office-days.ts:17-112 | settles the earliest due days up to the limit, each with the winner as of its close, and never rewrites a settled day |
| `OfficeTick.PublicOffice.TickOne` | apps/control-plane/src/modules/public-office/application/tick-public-offices.ts:61-118 | settlement and revision are committed together or not at all, and only when the projection is old enough and somebody may watch |
| `OfficeTick.TicksAreSpaced` | apps/control-plane/src/modules/public-office/application/tick-public-offices.ts:86-95 | after a tick at one time, whatever else is recorded, no later tick advances before one interval has passed |
| `OfficeTick.DueAfterTheInterval` | apps/control-plane/src/modules/public-office/application/tick-public-offices.ts:86-95 | with somebody able to watch a tick is due from one interval after the projection on, and never before |
| `DisjointSets.HalvedKeepsPartition` | tools/repack_sprites.py:46-50 | path halving changes no representative and no rank |
| `DisjointSets.UnionJoinsTwoClasses` | tools/repack_sprites.py:52-61 | after a union two elements are together exactly when they were, or when the union joined their classes |
| `DisjointSets.LinkedKeepsWeight` | tools/repack_sprites.py:57-61 | a root of rank k keeps at least 2^k members |
| `DisjointSets.DepthIsLogarithmic` | tools/repack_sprites.py:46-61 | no element is further from its representative than the logarithm of the number of elements |
| `DisjointSets.UnionFind.Find` | tools/repack_sprites.py:46-50 | the halving loop terminates, returns the representative and keeps the partition |
| `DisjointSets.UnionFind.Unite` | tools/repack_sprites.py:52-61 | merges exactly the two classes |
| `PixelPaths.RunsAreMaximal` | tools/repack_sprites.py:64-69 | padding, differencing and pairing starts with ends yields exactly the maximal runs of set pixels, in order and never adjacent |
| `ConnectedRuns.SweepRow` | tools/repack_sprites.py:79-86 | the two-pointer sweep of one row against the one above leaves every touching pair in one class and joins only connected runs |
| `ConnectedRuns.LabelRuns` | tools/repack_sprites.py:72-92 | lists all maximal runs of the mask with classes that are sound and complete for contact |
| `ConnectedRuns.ClassesAreComponents` | tools/repack_sprites.py:64-92 | for every mask, two set pixels end in one class exactly when an 8-neighbour path of set pixels joins them |
| `ComponentFrames.HalvingIsExact` | tools/repack_sprites.py:135 | the halving in x_sum never truncates: it is the sum of the x coordinates |
| `ComponentFrames.AreaCounts` | tools/repack_sprites.py:131-134 | the area of a class is its number of pixels |
| `ComponentFrames.ClassPixelsAreAComponent` | tools/repack_sprites.py:131-136 | the pixels summed for a class are exactly the component of any of its pixels |
| `ComponentFrames.AreasAddUp` | tools/repack_sprites.py:131-134 | the areas of all components add up to the number of set pixels |
| `ComponentFrames.SearchFindsTheCell` | tools/repack_sprites.py:114-117 | a centroid inside the grid falls into the cell whose boundaries enclose it |
| `ComponentFrames.FrameHoldsTheCentroid` | tools/repack_sprites.py:114-117 | the frame's row is the one whose y boundaries enclose the centroid, its column the one whose x boundaries do |
| `ComponentFrames.FrameIsClamped` | tools/repack_sprites.py:114-117 | a centroid outside the grid goes to the nearest row and column |
| `ComponentFrames.RoundingIsHarmless` | tools/repack_sprites.py:114-117 | a quotient rounded by less than 1/area, and exact on integers, falls into the same cell as the exact one |
| `ComponentFrames.WholeComponentsMove` | tools/repack_sprites.py:146-152 | every run of a kept component is in its component's frame and in no other, and a run of a dropped one in none |
| `ComponentFrames.ComponentAssignments` | tools/repack_sprites.py:120-152 | keeps exactly the components of at least the minimum area, with the frame of their exact centroid, and groups their runs by frame |
| `ComponentFrames.LargestComponent` | tools/align_sprite_frames.py:60-77 | returns the pixel count and tight bounding box of a component no other exceeds, and of several equal ones the one whose first pixel comes before all pixels of the others; an error exactly when no pixel is set |
| `ComponentFrames.TranslateFrame` | tools/align_sprite_frames.py:87-105 | every pixel of the result is the moved pixel or blank; an error exactly when nothing would stay |
| `RevisionLog.OfficeRevisions.RecordRevision` | apps/control-plane/src/modules/public-office/application/public-office-projector.ts:144-292 | the writes inside the savepoint, undone on any failure, equal the record function |
| `RevisionLog.RecordValid` | apps/control-plane/src/modules/public-office/application/public-office-projector.ts:153-253 | a record advances the revision by one, fails only at the range end or when the snapshot cannot be built, and keeps the log exactly the revisions in (minimum, revision] with non-decreasing times |
| `RevisionLog.RetainValid` | apps/control-plane/src/modules/public-office/application/retain-office-revisions.ts:56-118 | trimming only raises the minimum, never up to the current revision |
| `RevisionLog.RetainKeepsTheAllowance` | apps/control-plane/src/modules/public-office/application/retain-office-revisions.ts:76-116 | with nothing left to publish exactly the allowed number of revisions stays |
| `RevisionLog.RetainStopsAtPending` | apps/control-plane/src/modules/public-office/application/retain-office-revisions.ts:76-116 | trimming goes no further than the allowance, never up to a revision still to be published, and stops short only there |
| `RevisionLog.OfficeRevisions.RetainOne` | apps/control-plane/src/modules/public-office/application/retain-office-revisions.ts:56-121 | the trimming transaction equals the retain function and reports whether it raised the minimum |
| `RevisionLog.PageIsNext` | apps/control-plane/src/modules/public-office/application/public-office-reader.ts:231-290 | a page is the contiguous run of logged revisions right after the cursor, within limit and byte budget and as long as they allow, empty only when not behind; a gap exactly below the minimum |
| `RevisionLog.PageFitsTheBudget` | apps/control-plane/src/modules/public-office/application/public-office-reader.ts:250-272 | a page of more than one event holds at most a mebibyte, and when it ends early one more event would have been too much |
| `RevisionLog.RefusedPages` | apps/control-plane/src/modules/public-office/application/public-office-reader.ts:231-249 | no projection is not found; a cursor below the minimum is a gap that names the current revision and the minimum |
| `RevisionLog.RunValid` | apps/control-plane/src/modules/public-office/application/public-office-projector.ts:144-292 | in every run of records and trims the log stays exact and neither revision nor minimum falls |
| `RevisionLog.EveryRunIsExact` | apps/control-plane/src/modules/public-office/application/public-office-projector.ts:144-292 | from an Office with nothing to replay, in every run the replayable rows are exactly those in (minimum, revision] |
| `RevisionLog.LoweredHistoryIsGone` | apps/control-plane/src/modules/public-office/application/public-office-projector.ts:255-269 | after a privacy-lowering revision r no page served to any cursor in any later state holds a revision below r |
| `RevisionLog.SnapshotIsACursor` | apps/control-plane/src/modules/public-office/application/public-office-reader.ts:93-124 | streaming on from the snapshot's revision never starts with a gap |
| `RevisionLog.PagesCatchUp` | apps/control-plane/src/modules/public-office/application/public-office-reader.ts:250-272 | following pages always gets closer to the current revision |
| `MountConsent.StatisticsFollowConsent` | apps/control-plane/src/modules/public-office/application/change-mount-consent.ts:87-111 | flipping the statistics consent keeps the intervals disjoint with one open exactly while opted in, changes no earlier instant, and from then on the mount qualifies exactly while opted in |
| `MountConsent.WithdrawalIsNotReplayed` | apps/control-plane/src/modules/public-office/application/change-mount-consent.ts:126-146 | whenever a change turns any one of the three consents off, no stream can ever read the log back past it |
| `MountConsent.GrantingKeepsTheLog` | apps/control-plane/src/modules/public-office/application/change-mount-consent.ts:126-146 | whenever it turns none off, the minimum and every logged revision stay; a change of nothing records nothing |
| `MountConsent.FlagsAreAsRequested` | apps/control-plane/src/modules/public-office/application/change-mount-consent.ts:68-72 | each flag becomes what the request says of it and stays when it says nothing |
| `MountConsent.RequestIsAnswered` | apps/control-plane/src/modules/public-office/application/change-mount-consent.ts:30-159 | a request without a value is rejected, one that asks for nothing new or meets an inactive mount changes nothing, and one that cannot be recorded or flipped is rolled back |
| `MountConsent.RefusedFlips` | apps/control-plane/src/modules/public-office/application/change-mount-consent.ts:87-111 | the table refuses to end an interval before its start, and to start one while another holds some later instant |
| `MountConsent.Mount.ChangeConsent` | apps/control-plane/src/modules/public-office/application/change-mount-consent.ts:30-159 | the transaction over mount and Office, with its rollback, equals the change function |
| `StreamPump.NoLostWakeUp` | apps/control-plane/src/modules/public-office/application/public-office-routes.ts:222-281 | in every interleaving of pump, notifications, timer, backpressure and Office changes the frames are cursor+1, cursor+2, ..., and an open stream with no pump running has sent every revision it was notified of |
| `StreamPump.ClosesForAReason` | apps/control-plane/src/modules/public-office/application/public-office-routes.ts:183-281 | an open stream is closed only by its client, a failed read, a full socket, or because its cursor lies ahead of the Office or its next revision was withdrawn |
| `StreamPump.ResyncMeansGap` | apps/control-plane/src/modules/public-office/application/public-office-routes.ts:199-243 | the client is told to resynchronise only when its next revision was really withdrawn |
| `StreamPump.FramesAreCurrent` | apps/control-plane/src/modules/public-office/application/public-office-routes.ts:233-261 | every frame is of a revision not withdrawn at the moment it is written |
| `StreamPump.NoFrameFromBeforeAWithdrawal` | apps/control-plane/src/modules/public-office/application/public-office-routes.ts:233-261 | after a withdrawal at revision r is committed no frame below r is ever written, because the page is written under the shared lock |
| `StreamPump.EveryTripGetsCloser` | apps/control-plane/src/modules/public-office/application/public-office-routes.ts:230-270 | between notifications every trip round the loop closes the stream, ends with everything sent, or shortens the distance to the current revision |
| `StreamPump.PublicStream.QueueAll` | apps/control-plane/src/modules/public-office/application/public-office-routes.ts:244-251 | the loop over a page equals the queueing function, stopping at backpressure or closing |
| `StreamPump.PublicStream.PageArrived` | apps/control-plane/src/modules/public-office/application/public-office-routes.ts:237-258 | what an arrived page does to the closure variables |
| `StreamPump.PublicStream.Notified` | apps/control-plane/src/modules/public-office/application/public-office-routes.ts:278-281 | a notification is remembered, and starts the pump only if none is running |
| `OfficePage.ShownNeverGoesBack` | apps/control-plane/public/office.js:128-232 | in every interleaving of refreshes, late answers, events of old and new streams, errors and retries the page never shows an older revision than it already did, nor one the server does not have |
| `OfficePage.MoveKeeps` | apps/control-plane/public/office.js:128-232 | one step keeps the invariant that while the current request is in flight no stream is accepted and nothing newer than its answer is shown |
| `OfficePage.PageStarts` | apps/control-plane/public/office.js:67-108 | the page with its first request sent is such a state |
| `OfficePage.StreamMovesByOne` | apps/control-plane/public/office.js:199-219 | apart from snapshots, only an event of the current stream changes what is shown, and by exactly one revision |
| `OfficePage.EventIsNotLost` | apps/control-plane/public/office.js:199-219 | what the current stream tells is shown, or a request sent since is in flight that will bring at least as much; other streams change nothing |
| `OfficePage.NeverStuck` | apps/control-plane/public/office.js:128-265 | in every interleaving the page has an open stream, its current request in flight or a running retry timer, or waits for coming back online |
| `OfficePage.OfficePage.RefreshSnapshot` | apps/control-plane/public/office.js:128-132 | starts a new generation and drops the stream |
| `OfficePage.OfficePage.SnapshotArrived` | apps/control-plane/public/office.js:134-153 | an answer of an older generation changes nothing; a current one replaces what is shown and opens a stream after it |
| `OfficePage.OfficePage.EventArrived` | apps/control-plane/public/office.js:199-219 | an event extends, is ignored, or refreshes, over the page variables |
| `OfficePage.OfficePage.FetchFailed` | apps/control-plane/public/office.js:143-152 | a failed fetch of the current generation drops the stream and starts the retry timer; an older one does nothing |
| `OfficePage.OfficePage.StreamFailed` | apps/control-plane/public/office.js:226-231 | the same for an error of the current stream |
| `JsonText.PrintIsUnique` | apps/control-plane/src/modules/presence/domain/canonical-json.ts:3-17 | the printed text of a value, followed by anything that may follow it, determines the value (string escapes per section 7 of RFC 8259) |
| `JsonText.EscapeForms` | apps/control-plane/src/modules/presence/domain/canonical-json.ts:3-17 | quotation mark, backslash and five control characters have two-character escapes, other controls six, the rest none, and an independent reader reads each back |
| `JsonText.SampleTexts` | apps/control-plane/src/modules/presence/domain/canonical-json.ts:3-17 | the texts of two arrays with every kind of value but a string |
| `CanonicalJson.CanonicalIffSame` | apps/control-plane/src/modules/presence/domain/canonical-json.ts:3-17 | two values have the same canonical text exactly when they are equal with object members reordered |
| `CanonicalJson.MembersAreInOrder` | apps/control-plane/src/modules/presence/domain/canonical-json.ts:8-16 | a canonical object has the members of the object, each with its canonical value, and of any two the key that is a proper prefix or has the earlier character at the first difference comes first: by code point in Rust, in JavaScript with supplementary characters before those from E000 on |
| `CanonicalJson.TwoKeyText` | apps/control-plane/src/modules/presence/domain/canonical-json.ts:3-17 | the text of an object with two keys given in the wrong order |
| `CanonicalJson.RuntimesAgree` | crates/edge/src/protocol.rs:128-160 | server and client print a value alike exactly when no object orders two of its keys differently by UTF-16 units and by code points |
| `CanonicalJson.SupplementaryKeysDiffer` | apps/control-plane/src/modules/presence/domain/canonical-json.ts:8-9 | a well-formed object whose two canonical texts differ |
| `SigningBytes.SigningPayloadDetermines` | apps/control-plane/src/modules/presence/domain/edge-signature.ts:11-19 | two envelopes have the same signing payload exactly when they differ at most in their signature |
| `SigningBytes.EnvelopeIsRead` | contracts/schemas/edge-report-envelope.v1.schema.json:8-90 | reading a report's members by the wire's names gives back the envelope |
| `SigningBytes.PayloadIsUnsigned` | contracts/edge-report-signing.v1.md:9-27 | the signed text is the domain and the canonical text of all members but the signature |
| `SigningBytes.EnvelopeTextDetermines` | apps/control-plane/src/modules/presence/application/ingest-edge-report.ts:251-257 | two envelopes have the same canonical text exactly when they are equal, so replay comparison is envelope comparison |
| `SigningBytes.ClientSignsWhatServerVerifies` | crates/edge/src/protocol.rs:121-160 | for every envelope the client signs the text the server verifies |
| `RateLimits.SlotsAlwaysExact` | apps/control-plane/src/modules/public-office/application/public-rate-limiter.ts:41-119 | in every run of calls, cleanups and releases of granted streams from empty tables, every slot count equals the granted, unreleased streams of its key and is within its limit, and every open stream holds a slot in both buckets, so that the clamp at zero never acts |
| `RateLimits.TakeDecides` | apps/control-plane/src/modules/public-office/application/public-rate-limiter.ts:41-103 | a call is allowed exactly when neither of the buckets it meets, a new one when its minute is over, is full; the answer names the fewest seconds until the minute of the full one, or of both, is over |
| `RateForgetting.TakeIsAlike` | apps/control-plane/src/modules/public-office/application/public-rate-limiter.ts:41-103 | one call decides the same with and without earlier cleanups, and leaves the tables alike unless it is refused after one of its buckets was forgotten |
| `RateForgetting.ForgettingIsInvisible` | apps/control-plane/src/modules/public-office/application/public-rate-limiter.ts:105-119 | a run from empty tables in time order, with a cleanup at every 256th call, is decided as by a limiter that never cleans up, unless a call of it is refused for whose key a 256th call had found a bucket without a stream and untouched for more than two windows, with no allowed call since |
| `RateForgetting.ForgettingShows` | apps/control-plane/src/modules/public-office/application/public-rate-limiter.ts:53-119 | after the first such refusal, a stated continuation of the run, its own cleanups and releases included, ends in a call that is refused and would be allowed without cleanups |
| `RateForgetting.CleanupChangesADecision` | apps/control-plane/src/modules/public-office/application/public-rate-limiter.ts:105-119 | a concrete run from empty tables in which the cleanup of the 256th call changes a later decision |
| `PublicRateLimiter.BucketTable.TakeFrom` | apps/control-plane/src/modules/public-office/application/public-rate-limiter.ts:41-103 | the shared bucket objects, updated in place, show the take function, and a granted stream holds the very objects in the table |
| `PublicRateLimiter.StreamGrant.Release` | apps/control-plane/src/modules/public-office/application/public-rate-limiter.ts:93-101 | any grant the limiter gave out may be released, at any later time and any number of times: the first frees its slots, without meeting the clamp, through the objects it holds, and the limiter stays valid |
| `PublicRateLimiter.PublicRateLimiter.TakeStream` | apps/control-plane/src/modules/public-office/application/public-rate-limiter.ts:141-154 | both tables, the call counter and the decision are those of the limiter's step; a grant joins the open ones, all of which keep holding the table's own buckets |
| `PublicRateLimiter.PublicRateLimiter.TakeSnapshot` | apps/control-plane/src/modules/public-office/application/public-rate-limiter.ts:122-140 | the same for snapshots, with the open streams untouched |
| `PublicRateLimiter.PublicRateLimiter.CleanUp` | apps/control-plane/src/modules/public-office/application/public-rate-limiter.ts:105-119 | every 256th call of either kind forgets the idle buckets of both tables, and never one that an open stream holds |
| `IngressRateLimiter.IngressForgettingIsInvisible` | apps/control-plane/src/modules/presence/application/edge-ingress-rate-limiter.ts:23-63 | every attempt is decided as by a limiter that never cleans up, wherever the cleanups fall |
| `IngressRateLimiter.NineHundredAMinute` | apps/control-plane/src/modules/presence/application/edge-ingress-rate-limiter.ts:23-63 | from an empty table, wherever the cleanups fall, an attempt is allowed exactly when fewer than 900 of its address were allowed in the minute it falls into |
| `IngressRateLimiter.RetryNamesTheRest` | apps/control-plane/src/modules/presence/application/edge-ingress-rate-limiter.ts:40-63 | the answer names the fewest seconds until that minute is over |
| `IngressRateLimiter.EdgeIngressRateLimiter.TakeOne` | apps/control-plane/src/modules/presence/application/edge-ingress-rate-limiter.ts:24-63 | every 512th call cleans up first; the table and the decision are those of the step function |
| `Spool.Consume` | crates/watch/src/lib.rs:97-120 | applies exactly the complete, non-empty lines in order and returns the length up to the last newline |
| `Spool.EveryLineOnce` | crates/watch/src/lib.rs:125-151 | however appends, and ticks that cannot open, measure or read the file, fall: the lines applied are exactly the newline-terminated lines of the file, once each and in order, exactly when the file was not read again after its length could not be learnt once a line had been applied; the offset is zero or just after a newline |
| `Spool.LineAppliedTwice` | crates/watch/src/lib.rs:133-143 | a file of one line and a second tick without metadata: the line is applied twice |
| `Spool.Watcher.ReadAvailable` | crates/watch/src/lib.rs:125-151 | one tick over the file that is there, a replaced or shortened one being read from its start |

## Left out

- Signatures, hashes and key storage: a verified report is an input, SHA-256 is taken as injective by comparing payloads, and token digests are opaque numbers.
- PostgreSQL, Fastify, HTTP and SQL text: tables are sequences and maps, a locked transaction is one step, a lost answer is no answer.
- Row locks themselves, deadlocks and the order in which waiting transactions proceed.
- Authorization, credentials and agent rows checked inside ingest: their refusals change nothing and end before the modelled part.
- UUID normalisation: ids are compared as given.
- The Office revisions that ingest and the lease sweeper append inside their transactions: `RevisionLog` takes any sequence of records, so theirs are among them.
- The registration of pet ids: the supported list is a constant.
- Re-pairing during a run: a superseded connection is an outcome of `EdgeReporter.EdgeReporter.AcceptAck`, but enrollment is outside the runs of `Protocol`, and so is the one exit that returns before the rotation test.
- Liveness of reporting: no run is required to deliver anything.
- IngestStore.Store.IngestReport: a throw inside the transaction is modelled as restoring the rows, not as a database rollback.
- Time zones and daylight saving: schedule occurrences are given intervals with a local date.
- Numeric oddities of JavaScript (NaN, fractions): times and counts are integers, and the safe range is checked where the code checks it.
- Identifier checks of `scoreCandidate` and the duplicate-agent check of `rankLeaderboardCandidates`: single conditions; ranking is modelled on the query, which the settlement uses.
- The leaderboard's page of 500 rows: settlement asks for the first row only.
- OfficeDays.SettledDayStands: keeps consent, schedule and the set of mounts fixed, because changing them is meant to change a recomputation.
- Snapshot assembly (rooms, members, posters, awards): the content of a revision is opaque, with a size; a failure to build it is an input.
- Rows of the revision log written before the projection format existed are kept but only as never replayed.
- View-token checks and expiry of the stream: they close it like a disconnect.
- The keepalive text, the fallback timer's period, and the drain timeout: the timer may fire and the drain may fail at any time.
- ComponentFrames.ComponentAssignments: the centroid is the exact quotient, where the program divides in floating point; `RoundingIsHarmless` covers any quotient nearer than one over the area, and that a double is that near is not proved.
- Boundary detection, resampling, atlas and icon building: floating-point image processing.
- The tool-name heuristic: whether a tool is read-only is part of the event.
- Lower-casing beyond ASCII in notification kinds: none of the words looked for can be created or destroyed by it.
- Spool.EveryLineOnce: assumes one file that is only appended to; a file cut and regrown past the offset between two ticks under the same identity cannot be told apart by the code either.
- Decoding and parsing of a spool line: a function from lines to events, any such function.
- Strings with lone surrogates, which JavaScript strings may hold, and JSON numbers other than integers, and the UTF-8 bytes of the text: the envelopes carry integers, and UTF-8 encodes one text in one way.
- What the browser page shows beyond its revision, its backoff delays (`apps/control-plane/public/office.js`), and its leaving the page.
- Windows, tray, placement, installers, pairing and token rotation.
