# A verified model of the store intelligence pipeline

The repository turns camera observations into events, and events into visitor sessions, funnels, alerts and shelf
states. This project models its stateful engines and the joints between them in Dafny and proves properties of every
input, every run or every interleaving.

Each engine is modelled twice. A small reference machine describes one visitor, one cell, one (track, region) pair or
one client alone; the laws are proved about it. The program's own form, loops over shared maps, queues and lists, is
written as classes and methods and proved to do for everybody at once what the reference does for each alone.

Lemmas switch automatic induction off, so that every proof is the one that is written.

- **Funnel** (`FunnelModel`, `FunnelTheorems`, `FunnelSessions`, `FunnelAggregator`, `FunnelPos`, `SessionMetrics`): one loop over
  an event stream with active, completed and recently exited sessions on the heap. The reference reads the stages off the
  log of rows a session absorbed; `FunnelSessions` tells sessions and logs from a visitor's rows alone.
- **Shelf consensus** (`ConsensusModel`, `TemporalConsensus`): streak counters and a ring of ten observations against the
  whole history of a cell.
- **Alert indexes** (`AlertStore`, `AlertLives`, `AlertRepository`): four redundant indexes against a scan of all alerts, and the
  life of an alert told from the operations.
- **Ingest** (`IngestModel`, `IngestTheorems`, `IngestService`): a step system of any number of clients that look up,
  insert, record and commit or abort in any interleaving.
- **Sessions and re-identification** (`SessionModel`, `SessionTheorems`, `SessionVisits`, `SessionRecords`, `SessionDwell`,
  `SessionEngine`, `ReidGallery`, `VisitorPipeline`, `VisitorCensus`, `ReentryIdentity`): two stores that only the order of
  calls in the frame loop keeps apart. Visits and records are told from the signals that reached a session. Sessions are objects that move from one table to the other; a Python dictionary is a list of bindings in
  insertion order (`OrderedMaps`).
- **Zones, queues, lines** (`ZoneModel`, `ZoneTheorems`, `ZoneEvents`, `ZoneTables`, `ZoneTracking`, `QueueModel`,
  `QueueTracking`, `Crossing`, `EntryExitModel`, `EntryExitTheorems`, `SharedDisplacement`, `EntryExitDetector`,
  `CrossingGroups`): machines per (track, region) over frames, and the plane geometry of
  entry lines over exact reals. `Tracks` holds what they share.
- **Identity and emission** (`EventIdentity`, `EventStreams`, `EmittedEvents`, `EmitterModel`, `Emitter`): the names ids are
  made from, and the deduplicating, batching emitter.
- **The whole run** (`StorePipeline`, `ReentryWitness`): one video through the engines, re-identification, sessions and the
  emitter, and a video for which that goes wrong.
- **Planogram** (`PlanogramModel`, `GridDetector`, `CellStates`, `CellReports`, `StableSort`): grouping, sorting and validating a grid,
  and comparing it cell by cell.
- **Challenge format** (`ChallengeFormat`): the conversion to and from the external event format.

## Where the code differs from what one would expect

- `compute_session_metrics` documents unique visitors as those with an ENTRY; the code also counts visitors known from a
  REENTRY alone. The model follows the code.
- `FullPipelineRunner.run` reports as unique visitors the number of sessions, so a visitor who comes back counts again
  (`OnePersonCountsThrice`; `ReportCountsVisitorsExactly` says when the number is right).
- Dismissing an alert that is not open can hide another alert of the cell (`DismissingConfirmedDuplicates`;
  `DismissAgreesIff` says exactly when).
- With three confirming frames an alert can be suppressed for a whole run (`ThreeConfirmSuppression`).
- An observation that is no verdict can raise an alert again that was already raised (`UnknownRaisesAgain`;
  `RepeatsExactly` says exactly when).
- Swapping the end points of a line does not in general swap entries and exits (`SwappedLine` says exactly when).
- Lines are not independent: a small move towards one line silences the lines after it
  (`DoorBehindWallLosesEntry`; `HeldBackExactly` says exactly when).
- A track that crosses in, out and in again within one frame can raise two re-entry events with the same id, of which the
  emitter drops one (`RunLosesAnEvent`). Otherwise ids never repeat (`EmittedDifferExactly`, `GuardedLogDiffers`), and with
  at most two lines it cannot happen (`TwoLinesAreSafe`).
- Ids do not separate stores and cameras whose names contain colons (`ColonsConfuseStores`; `SourcesConfusedExactly` says when).
- A batch that spans midnight is filed under its first day (`BatchAcrossDaysMisfiles`), so a run is filed by day exactly
  when no batch does (`RunFiledByDayExactly`).
- An empty zone name makes the format conversion not idempotent (`NormalisingIsIdempotent`).
- The dwell carried into a resumed session is lost, whatever happens next (`CarriedDwellIsLost`).
- When there are sales, they replace the purchases read off the sessions, and a visitor who walks up to the desk past the
  queue makes PURCHASE exceed BILLING_QUEUE (`PurchaseWithoutQueue`). `PurchaseWithinExactly` says when no list of sales
  can do that, for BILLING_QUEUE and for any earlier stage.
- In `app/funnel.py` the second look at `recently_exited` in the REENTRY branch can never find a session within the
  window, because the first look would have resumed it; the model has one look.

## Model

| member | source | states |
|---|---|---|
| FunnelAggregator.AggregateFunnelSessions | app/funnel.py:97-254 | the imperative aggregation over shared active, completed and recently-exited collections gives the reference funnel, in which every visitor is aggregated alone and a session is only its log of rows |
| FunnelAggregator.Aggregator.CloseSession | app/funnel.py:118-123 | closing moves a session from active to completed and remembers its exit; every visitor is still shown as its own machine |
| FunnelAggregator.Aggregator.ResumeSession | app/funnel.py:125-137 | resuming takes the session out of completed and recently exited and back into active, counting one merge |
| FunnelAggregator.Aggregator.TryResumeReentry | app/funnel.py:139-146 | a session is resumed exactly when the visitor has an exit within the window |
| FunnelAggregator.Aggregator.StartSession | app/funnel.py:148-156 | a new session with ENTRY reached, for a visitor without an active one |
| FunnelAggregator.Aggregator.ProcessRow | app/funnel.py:168-237 | one row advances the machine of the visitor it is routed to and no other |
| FunnelAggregator.FunnelSession.MarkStage | app/funnel.py:81-87 | a stage is added exactly when all earlier ones are reached |
| FunnelAggregator.FunnelSession.ForceMark | app/funnel.py:90-94 | a stage and all earlier ones are added |
| FunnelModel.ReachedGrows | app/funnel.py:209-235 | the stages read off a longer log are those the marking rules add, so marking needs no memory beyond the reached set |
| FunnelModel.ReachedIsPrefix | app/funnel.py:81-94 | the reached set of every session is a non-empty prefix of the stage order; PURCHASE means zone event, billing join and checkout event were seen in this order |
| FunnelTheorems.VisitorsDecideFunnel | app/funnel.py:97-254 | two streams in which every visitor sees the same rows have the same funnel |
| FunnelTheorems.SwapRows | app/funnel.py:97-254 | swapping neighbouring rows of different visitors, or a staff row, changes nothing |
| FunnelTheorems.SubStreamAlone | app/funnel.py:97-254 | running one visitor's sub-stream alone gives that visitor's term of every sum |
| FunnelTheorems.CoversStep | app/funnel.py:139-156 | a run with a wider window stays at least as much inside as one with a narrower window, with no more sessions |
| FunnelTheorems.WindowMonotone | app/funnel.py:139-156 | on chronological streams a wider re-entry window never gives more sessions |
| FunnelTheorems.WindowCollapse | app/funnel.py:175-213 | with a window as long as the stream, sessions are the visitors who arrived |
| FunnelTheorems.StageCountsDescend | app/funnel.py:239-254 | session_count = ENTRY >= ZONE_VISIT >= BILLING_QUEUE >= PURCHASE for every stream |
| FunnelSessions.RunTold | app/funnel.py:97-254 | told from a visitor's rows alone: a session runs after an arrival, or a row within the window of the last EXIT that found one running, until the next EXIT; how many sessions there were and how many returns were merged; and the log of each, the rows absorbed from its start to the next |
| FunnelSessions.ExitEndsSession | app/funnel.py:204-207 | no session of a visitor runs after an EXIT row |
| FunnelSessions.StartsExactly | app/funnel.py:118-156 | a session starts exactly at an arrival without a running session that is the visitor's first, or comes more than the window after the last closing EXIT |
| FunnelSessions.FunnelTold | app/funnel.py:239-254 | session_count, reentry_merged and every stage count of a whole stream are the totals over visitors of what their rows tell |
| FunnelSessions.ComesAgain | app/funnel.py:118-207 | whoever comes, leaves and comes again has one session or two, one merge or none, as the window has passed or not |
| FunnelSessions.RowsAccounted | app/funnel.py:175-207 | every row is a staff row or goes to exactly one visitor |
| FunnelSessions.TracksTold | app/funnel.py:65-78 | rows that carry nothing but a track belong together exactly if it is the same track |
| FunnelSessions.PurchaseStageMeans | app/funnel.py:209-235 | PURCHASE means that a zone row, a join of the billing queue and a row of the checkout zone were absorbed in this order |
| FunnelPos.BillingLastSeen | app/funnel.py:257-281 | the latest time each visitor was seen at the checkout zone or joining the billing queue |
| FunnelPos.SeenMeans | app/funnel.py:257-281 | the visitors seen at billing are those with a zone row of the checkout zone or a join of the billing queue |
| FunnelPos.LastTimeMeans | app/funnel.py:257-281 | the time kept for a visitor is that of the last row that shows the visitor at billing |
| FunnelPos.ConvertedVisitorsFromPos | app/pos.py:98-122 | exactly the visitors whose latest sight at billing some transaction follows within the window |
| FunnelPos.GetFunnelCounts | app/funnel.py:358-397 | nothing is reported without sessions; with transactions the converted visitors replace the purchases |
| FunnelPos.PurchaseWithinExactly | app/funnel.py:381-397 | whatever the transactions, the purchases stay within a stage's count exactly when there is no session or no more visitors were seen at billing than that count |
| FunnelPos.PurchaseWithoutQueue | app/funnel.py:381-397 | a visitor who walks up to the desk past the queue, and one sale: one purchase, nobody in the billing queue |
| SessionMetrics.ComputeSessions | app/metrics.py:151-179 | every visitor's record in the session table is that of its own rows, whatever other visitors do in between |
| SessionMetrics.RecordedVisitors | app/metrics.py:160-164 | a visitor has a record exactly after an ENTRY or REENTRY |
| SessionMetrics.RecordsTold | app/metrics.py:151-179 | each record tells what the visitor's own rows show since the latest ENTRY, or without one since the first REENTRY: when it came, whether it left or was at the checkout, the queues it joined and left |
| SessionMetrics.UniqueVisitors | app/metrics.py:181-182 | unique_visitors counts the visitors who arrived |
| SessionMetrics.FunnelAgreesWithMetrics | app/metrics.py:151-182 | with a long enough window and named re-entries the funnel and the plain counter agree |
| ConsensusModel.CounterIsRun | edge/inventory/retail_shelf_monitoring/usecases/temporal_consensus.py:42-53 | the consecutive-frame counters are the lengths of the trailing runs of the whole history |
| ConsensusModel.OscillatingMeans | edge/inventory/retail_shelf_monitoring/usecases/temporal_consensus.py:57-64 | the bounded history oscillates exactly when all three verdicts occur among the last five |
| ConsensusModel.RaiseExactly | edge/inventory/retail_shelf_monitoring/usecases/temporal_consensus.py:113-152 | an alert is raised exactly at the n_confirm-th frame of a run of a settled cell |
| ConsensusModel.OneRaisePerRun | edge/inventory/retail_shelf_monitoring/usecases/temporal_consensus.py:113-152 | two alerts of one kind for a cell are separated by another state |
| ConsensusModel.LongConfirmNeverSuppressed | edge/inventory/retail_shelf_monitoring/usecases/temporal_consensus.py:57-72 | with n_confirm of 4 or more the oscillation test never suppresses an alert |
| ConsensusModel.LongConfirmAlwaysRaises | edge/inventory/retail_shelf_monitoring/usecases/temporal_consensus.py:113-152 | then every run that is long enough does raise its alert |
| ConsensusModel.ThreeConfirmSuppression | edge/inventory/retail_shelf_monitoring/usecases/temporal_consensus.py:57-72 | with n_confirm of 3 the alert is raised unless the two preceding observations are one each of the other two states |
| ConsensusModel.RepeatsExactly | edge/inventory/retail_shelf_monitoring/usecases/temporal_consensus.py:42-72 | while no other verdict comes in between, an alert is raised again exactly by an observation in a settled window whose predecessor is not that state, or that finds the counter still where it was: states that are not verdicts leave the counters alone |
| ConsensusModel.UnknownRaisesAgain | edge/inventory/retail_shelf_monitoring/usecases/temporal_consensus.py:54-55 | three empty observations and an unknown one raise the alert twice |
| ConsensusModel.ClearExactly | edge/inventory/retail_shelf_monitoring/usecases/temporal_consensus.py:154-181 | a clear is emitted exactly when the whole history ends in n_confirm equal alert states and exactly n_clear OK, and never when the two do not fit into the ring |
| ConsensusModel.NoClearsAfterNothing | edge/inventory/retail_shelf_monitoring/usecases/temporal_consensus.py:154-181 | set to clear after no OK frames at all, the tracker never clears: the slice of the history is empty |
| ConsensusModel.OneClearPerOkRun | edge/inventory/retail_shelf_monitoring/usecases/temporal_consensus.py:154-181 | two clears of a cell are separated by an observation other than OK |
| TemporalConsensus.CellTemporalState.Update | edge/inventory/retail_shelf_monitoring/usecases/temporal_consensus.py:32-55 | counters, ring and current state stay those of the whole history |
| TemporalConsensus.TemporalConsensusManager.UpdateCellStates | edge/inventory/retail_shelf_monitoring/usecases/temporal_consensus.py:91-194 | a frame appends one observation per update and emits the alerts and clears of the reference rule |
| TemporalConsensus.TemporalConsensusManager.CleanupStaleStates | edge/inventory/retail_shelf_monitoring/usecases/temporal_consensus.py:196-204 | exactly the cells not updated within the timeout are forgotten |
| TemporalConsensus.EmissionsPerCell | edge/inventory/retail_shelf_monitoring/usecases/temporal_consensus.py:91-194 | for every cell, whatever it was before, the alerts and clears emitted are those of its own history, however the updates of cells are mixed |
| TemporalConsensus.AlertsNamed | edge/inventory/retail_shelf_monitoring/usecases/temporal_consensus.py:91-152 | every alert emitted names the shelf, row, item and products of the update that raised it, and the length of the run |
| TemporalConsensus.TrackShelves | edge/inventory/retail_shelf_monitoring/usecases/temporal_consensus.py:91-204 | over any frames of any shelves, and through all timeouts, every cell's history, time of update, alerts and clears are those of the cell watched alone |
| AlertRepository.RedisAlertRepository.Create | edge/inventory/retail_shelf_monitoring/adaptors/repositories/redis_alert_repository.py:24-47 | all four indexes are set for a new alert |
| AlertRepository.RedisAlertRepository.GetActiveAlerts | edge/inventory/retail_shelf_monitoring/adaptors/repositories/redis_alert_repository.py:62-82 | the open alerts of the chosen index, each once |
| AlertRepository.RedisAlertRepository.Update | edge/inventory/retail_shelf_monitoring/adaptors/repositories/redis_alert_repository.py:107-125 | a known alert is written back with its indexes; an unknown one is an error that changes nothing |
| AlertRepository.RedisAlertRepository.ConfirmAlert | edge/inventory/retail_shelf_monitoring/adaptors/repositories/redis_alert_repository.py:127-150 | the alert is marked and taken out of the active set; its shelf entry and cell pointer stay |
| AlertRepository.RedisAlertRepository.DismissAlert | edge/inventory/retail_shelf_monitoring/adaptors/repositories/redis_alert_repository.py:152-179 | the alert is marked and taken out of the active set and the cell pointer is deleted |
| AlertRepository.AlertGenerationUseCase.GenerateAlert | edge/inventory/retail_shelf_monitoring/usecases/alert_generation.py:21-61 | the open alert of the cell is refreshed or a new one opened; index agreement is kept |
| AlertRepository.AlertGenerationUseCase.ClearCellAlerts | edge/inventory/retail_shelf_monitoring/usecases/alert_generation.py:63-70 | the open alert of a cell is dismissed: with agreeing indexes the cell has no open alert afterwards and they still agree |
| AlertStore.DismissAgreesIff | edge/inventory/retail_shelf_monitoring/adaptors/repositories/redis_alert_repository.py:152-179 | dismissing keeps the indexes in agreement exactly when it takes no other open alert's cell pointer away |
| AlertStore.RunAgreesIff | edge/inventory/retail_shelf_monitoring/adaptors/repositories/redis_alert_repository.py:24-179 | over every run the indexes agree in all states exactly when every dismissal is safe |
| AlertStore.QueriesAreScans | edge/inventory/retail_shelf_monitoring/adaptors/repositories/redis_alert_repository.py:62-82 | both active-alert queries equal a filtered scan of all alerts |
| AlertStore.NoShelfIsAllShelves | edge/inventory/retail_shelf_monitoring/adaptors/repositories/redis_alert_repository.py:62-68 | an empty shelf name asks for the alerts of all shelves |
| AlertStore.OneOpenPerCell | edge/inventory/retail_shelf_monitoring/adaptors/repositories/redis_alert_repository.py:84-105 | a cell has at most one open alert, the one its pointer names |
| AlertLives.ClearedExactly | edge/inventory/retail_shelf_monitoring/usecases/alert_generation.py:63-70 | clearing a cell dismisses its open alert at the given time and leaves confirmed alerts and those of other cells as they are: afterwards the cell has no open alert |
| AlertLives.GeneratedExactly | edge/inventory/retail_shelf_monitoring/usecases/alert_generation.py:21-61 | generating refreshes time, frame count and evidence of the cell's open alert, or opens one that says what the request says; no other alert changes |
| AlertLives.FoundAfterwards | edge/inventory/retail_shelf_monitoring/adaptors/repositories/redis_alert_repository.py:84-179 | a confirmed alert is still found by its cell, a dismissed one is not |
| AlertLives.LivesTold | edge/inventory/retail_shelf_monitoring/usecases/alert_generation.py:21-93 | over every run with safe dismissals an alert is open exactly if some operation opened it and no confirmation, dismissal or clear of its cell came since, and it says what the requests for its cell said since then |
| AlertLives.ClearedUntilGenerated | edge/inventory/retail_shelf_monitoring/usecases/alert_generation.py:21-70 | after a clear a cell has no open alert until one is generated for it again |
| AlertLives.ConfirmedExactly | edge/inventory/retail_shelf_monitoring/adaptors/repositories/redis_alert_repository.py:127-150 | over every such run an alert is confirmed exactly if some operation confirmed it, and names who did so last and when |
| AlertStore.DismissingConfirmedDuplicates | edge/inventory/retail_shelf_monitoring/adaptors/repositories/redis_alert_repository.py:152-179 | five operations after which a cell has two open alerts: dismissing a confirmed alert hides the open one |
| IngestTheorems.StepKeeps | app/ingestion.py:110-183 | every step of every client keeps the invariant of the system |
| IngestTheorems.ExactlyOnce | app/ingestion.py:110-183 | in every state of every interleaving ids are stored once, the accepted counts add up to the stored rows, and every row was requested |
| IngestTheorems.ResponsesAccount | app/ingestion.py:197-203 | every successful response has accepted + duplicates + rejected = batch size, and all its valid events are stored |
| IngestTheorems.RowsGrow | app/repositories.py:35-76 | stored rows are never changed or removed |
| IngestTheorems.ReplayAcceptsNothing | app/ingestion.py:134-160 | a client whose ids are all stored when it looks them up accepts nothing |
| IngestTheorems.ReusedBatchIdNeverResponds | app/repositories.py:78-98 | a client that reuses a recorded batch id never gets a success response |
| IngestTheorems.GivingUpStoresNothing | app/repositories.py:35-98 | until it has answered, a request can fail at any point, and then nothing of it is stored |
| IngestTheorems.UndisturbedFinishes | app/ingestion.py:110-203 | a request whose batch id is free gets its answer when no other client holds uncommitted rows |
| IngestModel.FirstOccurrencesExactly | app/ingestion.py:66-79 | of several events with one id the first is kept, and the order is that of the batch |
| IngestService.SplitInBatchDuplicates | app/ingestion.py:66-79 | the first occurrence of every id is kept, in order |
| IngestService.PartitionForInsert | app/ingestion.py:82-94 | the unique events are split into unknown and stored ones |
| IngestService.ValidateAll | app/ingestion.py:121-136 | malformed elements are set aside without touching their siblings |
| IngestService.Ingest | app/ingestion.py:110-203 | one request, with other clients committing between its lookup and its insert, adds exactly its missing ids or changes nothing |
| SessionTheorems.RunKeeps | pipeline/session.py:236-516 | after every run: sessions filed under their visitor with at most one open visit per zone, completed ones sealed, visitors and sequence numbers one-to-one over all sessions on record, the completed queue the tail of all completions, and no session lost |
| SessionTheorems.ClosedIsSealed | pipeline/session.py:472-498 | a completed session is closed, ended when last seen, and its dwell is the sum over its visits |
| SessionTheorems.CompleteKeeps | pipeline/session.py:482-498 | completing a session keeps the invariant |
| SessionTheorems.ResumeKeeps | pipeline/session.py:276-316 | resuming keeps the invariant: a number is reused only by the visitor it belongs to |
| SessionTheorems.EntryKeeps | pipeline/session.py:323-352 | an entry keeps the invariant: a new visitor gets a new number |
| SessionTheorems.CleanupExactly | pipeline/session.py:500-516 | exactly the sessions idle for longer than the timeout are ended |
| SessionTheorems.RunRecent | pipeline/session.py:236-252 | after every chronological run each active session was last seen within the timeout of the latest event |
| SessionTheorems.CompletionsAreFinal | pipeline/session.py:482-498 | over a whole run completions are only ever added to the record |
| SessionTheorems.ClosingBalances | pipeline/session.py:254-266 | closing all leaves nothing active, and entries plus re-entries are completions plus replaced sessions |
| SessionVisits.VisitAppend | pipeline/session.py:376-452 | a zone signal changes exactly the visit it reaches: its dwell is the maximum of 0 and the dwells of the ZONE_DWELL and ZONE_EXIT signals that reached it, its count the number of those ZONE_DWELLs, its end the first exit from its zone |
| SessionVisits.ClosingTold | pipeline/session.py:472-480 | closing leaves ended visits as they are; a visit still open ends now, with the reported dwell, or with the elapsed time if none was reported |
| SessionRecords.ActiveTold | pipeline/session.py:236-452 | after every run each active session is what its signals tell: when it started, on which track, when it was last seen, and each visit with zone, number, entry, end and dwell, in terms of the list of signals |
| SessionRecords.ActiveExactly | pipeline/session.py:236-252 | after an event a visitor is active exactly if the event gave it a session, or it was, within the timeout, and the event is not its exit |
| SessionRecords.FinishedTold | pipeline/session.py:482-516 | every session ever completed was ended by an event, as timed out if idle for longer than the timeout and as completed if it was its exit, and records at that time what the events up to then tell |
| SessionRecords.ClosingRecords | pipeline/session.py:254-266 | closing all at the end records each active session as the events tell it, and nothing else |
| SessionRecords.OutcomeMeans | pipeline/session.py:236-252 | handling an event returns the session it is about, as it then is in the table or, after an exit, as the last one completed; nothing exactly when it is about no session |
| SessionRecords.ConcernsExactly | pipeline/session.py:454-470 | an event is about the active visitor its person's track leads to, or without one the visitor its own track leads to |
| SessionRecords.TracksHandled | pipeline/session.py:276-470 | what a re-entry, a zone enter and an exit make of the mapping of a track |
| SessionRecords.TrimExactly | pipeline/session.py:518-529 | too many mappings: exactly those without an active session go, then the oldest until the bound is met |
| SessionRecords.EntryIsFound | pipeline/session.py:323-352 | an entry under a track that was not mapped is found by it however many mappings there are |
| SessionDwell.RunsForget | pipeline/session.py:236-516 | states that differ only in the totals of sessions in use still do so after any run |
| SessionDwell.CarriedDwellIsLost | pipeline/session.py:276-316 | whatever happens after a visitor is resumed, the completions are those of a run in which no dwell was carried; a completed total includes the carried dwell only if that is zero |
| SessionEngines.SessionEngine.ProcessEvent | pipeline/session.py:236-252 | the engine, changing session objects in place, does what the model says and keeps its invariant; the objects completed before keep their contents |
| SessionEngines.SessionEngine.ProcessEvents | pipeline/session.py:227-234 | however a run goes on, no handler reaches a session object that was completed before |
| SessionEngines.InvSeparate | pipeline/session.py:482-498 | no object is both in the active table and among the completed ones |
| SessionEngines.SessionEngine.CleanupStale | pipeline/session.py:500-516 | stale sessions are collected and then ended in the order of the table |
| SessionEngines.SessionEngine.CompleteSession | pipeline/session.py:482-498 | the same object is closed in place and moves from the active table to the completed queue |
| SessionEngines.SessionEngine.ResumeVisitor | pipeline/session.py:276-316 | tables after a re-entry, with or without an earlier session on record |
| SessionEngines.SessionEngine.TrimTrackMappings | pipeline/session.py:518-529 | too many mappings: those without an active session go, then the oldest |
| SessionEngines.ActiveZoneVisit | pipeline/session.py:89-93 | the latest open visit of a zone, if there is one |
| SessionEngines.CloseOpenZoneVisits | pipeline/session.py:472-480 | all open visits are closed and the dwell summed |
| SessionEngines.CloseVisitsTwice | pipeline/session.py:362-363 | closing visits again on completion changes nothing |
| ReidGallery.LightweightReID.RegisterExit | pipeline/reid.py:200-243 | the gallery is pruned and the appearance added when there is one |
| ReidGallery.LightweightReID.MatchReentry | pipeline/reid.py:245-300 | the running best of the loop is the match of the reference search over the pruned gallery |
| ReidGallery.LightweightReID.Forget | pipeline/reid.py:302-307 | all records of a visitor are removed |
| ReidGallery.SearchFindsFirstBest | pipeline/reid.py:268-289 | the search finds the earliest of the most confident records within the window and above the threshold, and nothing only if there is none |
| ReidGallery.ScoreIsWeighted | pipeline/reid.py:192-198 | the combined score is the weighted mean of the two scores, their plain mean without weights, and lies between them |
| ReidGallery.MatchMeans | pipeline/reid.py:245-300 | a match names a record within the time window and at or above the threshold, its gap and its score raised to the floor; without a match no record is within these limits |
| ReidGallery.FreshExactly | pipeline/reid.py:309-314 | pruning keeps exactly the records no older than the timeout, in their order |
| ReidGallery.RegisterExactly | pipeline/reid.py:200-243 | an exit with an appearance comes last after the newest unexpired records; without one nothing is added |
| VisitorPipeline.MatchIsFirstBest | pipeline/reid.py:245-300 | a match is the earliest of the most confident eligible records; without a match none was eligible |
| ReidGallery.FirstBestUnique | pipeline/reid.py:268-289 | that record is unique, so the result is determined |
| ReidGallery.RegisterKeeps | pipeline/reid.py:200-243 | registering adds at most that visitor and keeps one record per visitor |
| ReidGallery.RemoveKeeps | pipeline/reid.py:302-307 | removing takes out exactly that visitor |
| VisitorPipeline.StoresStayApart | pipeline/orchestrator.py:192-219 | after every run nobody in the gallery has an active session, each visitor has at most one record there, and entries + re-entries = active + all completions |
| VisitorPipeline.StepKeeps | pipeline/orchestrator.py:192-219 | one event keeps the joint invariant of the two stores |
| VisitorPipeline.ResumeStepKeeps | pipeline/orchestrator.py:197-215 | a matched visitor is forgotten and resumed without replacing a live session |
| VisitorPipeline.PlainKeeps | pipeline/orchestrator.py:217-224 | an exit is registered only after its session ended, so nobody is in both stores |
| VisitorPipeline.EmittedExactly | pipeline/reid.py:436-467 | an event goes on as it is, or as a re-entry with the entry's time and track: then it is an entry with a box, and somebody in the gallery is within the limits |
| VisitorPipeline.RecordsFrom | pipeline/orchestrator.py:192-227 | whatever the gallery holds after an event it held before, or it is the exit that this event reports, with a box and an appearance, of a visitor who was active |
| VisitorPipeline.UniqueVisitorsCountsSessions | pipeline/orchestrator.py:232-253 | the reported number of unique visitors is entries plus re-entries, up to the bound of the queue |
| VisitorCensus.RunCensus | pipeline/session.py:268-352 | the visitors admitted so far are those with an active or completed session, one for each entry |
| VisitorCensus.ReportCountsVisitorsExactly | pipeline/orchestrator.py:232-253 | over a whole run there are as many different visitors as entries; the reported number is that exactly when nobody came back, or beyond the bound of the queue when that bound is the number of entries |
| VisitorPipeline.FullPipelineRunner.ProcessRaw | pipeline/orchestrator.py:192-227 | engine and gallery objects together do the model's step |
| VisitorPipeline.FullPipelineRunner.CheckReentry | pipeline/reid.py:436-467 | a match is forgotten by the gallery before the session hears of it |
| VisitorPipeline.FullPipelineRunner.Run | pipeline/orchestrator.py:176-253 | all frames and the final closing; the reported number is that of all completions, up to the bound |
| ReentryIdentity.StepTells | pipeline/session.py:454-470 | a track leads to a session that started with that track |
| ReentryIdentity.StaysInside | pipeline/orchestrator.py:192-227 | only an exit of the track a visitor came with puts the visitor back into the gallery |
| EmittedEvents.ReturningTwiceNeedsExit | pipeline/orchestrator.py:192-227 | two re-entries of a visitor with one track have an exit of that track between them |
| ReentryWitness.AnEventIsLost | pipeline/reid.py:352-360 | a store with three lines and a video of three frames, all settings usual: whatever run is made of it, its log has two re-entries of one name and the emitter drops the second |
| ReentryWitness.RunLosesAnEvent | pipeline/orchestrator.py:112-253 | the run itself: six events are raised and fewer are written |
| ReentryWitness.OnePersonCountsThrice | pipeline/orchestrator.py:247-253 | for the same video one visitor is seen and three unique visitors are reported |
| ZoneTheorems.HistoryAgrees | pipeline/zones.py:284-377 | after every run a session is live iff the history has exactly one open visit, the last, with its number and entry frame; visits are numbered 1, 2, 3, ... and do not overlap |
| ZoneTheorems.LiveExactlyInside | pipeline/zones.py:440-475 | after a frame that shows the track it has a session iff it is inside |
| ZoneTheorems.GraceExactly | pipeline/zones.py:477-492 | a session survives exactly the grace frames of being unseen and ends in the next one |
| ZoneTheorems.RunSplits | pipeline/zones.py:422-494 | a run can be split at any frame, so the grace law holds from any point of a run on |
| ZoneTheorems.EventLanguage | pipeline/zones.py:284-420 | the events of a pair are (ENTER DWELL* EXIT)* with an optional open tail, one number per visit |
| ZoneTheorems.StepEvents | pipeline/zones.py:422-494 | a frame gives a pair at most one event of each kind, with its own number |
| ZoneTheorems.DwellBound | pipeline/zones.py:379-420 | a visit that has lasted for T, finished or still open, has at most 1 + floor((T - threshold) / interval) dwells, none if T is below the threshold |
| ZoneTheorems.DwellCountsAreEvents | pipeline/zones.py:405-407 | the dwell count of a visit is the number of dwell events emitted for it |
| ZoneEvents.LiveExactly | pipeline/zones.py:422-494 | after every run a session is live exactly while some frame showed the track inside and only frames within the grace have missed it since; it knows how many and which frame was the last |
| ZoneEvents.NextEvents | pipeline/zones.py:284-420 | one frame more adds exactly the events that the sights and the events so far call for: an enter when a stay begins, an exit with time and reason when it ends, and a dwell at the threshold and whenever an interval has passed since the last |
| ZoneEvents.RunTimed | pipeline/zones.py:337-420 | in every run each number is entered once, and each event reports the time since the enter with its number |
| ZoneEvents.ReportedTime | pipeline/zones.py:346-365 | each ZONE_EXIT and ZONE_DWELL carries max(0, time of its frame - time of the frame of the ZONE_ENTER with its number) |
| ZoneEvents.ReportedFrames | pipeline/zones.py:346-365 | at a frame rate that is the number of frames between the two events |
| ZoneEvents.ExitReasons | pipeline/zones.py:466-492 | an exit is put down to occlusion exactly when its frame does not show the track, and to leaving exactly when it shows it outside |
| ZoneTables.UpdateZoneSeen | pipeline/zones.py:152-156 | changing the latest open visit in a track's list of all zones is the change that zone sees |
| ZoneTables.UpdateZoneUnseen | pipeline/zones.py:152-156 | and other zones see nothing |
| ZoneTracking.ZoneTrackingEngine.StartSession | pipeline/zones.py:284-335 | session, history and counter of one pair change, no other pair does |
| ZoneTracking.ZoneTrackingEngine.EndSession | pipeline/zones.py:337-377 | the session ends and its open visit is closed, no other pair changes |
| ZoneTracking.ZoneTrackingEngine.MaybeEmitDwell | pipeline/zones.py:379-420 | a dwell is emitted at the threshold first and then per interval |
| ZoneTracking.ZoneTrackingEngine.MissUnseen | pipeline/zones.py:477-486 | sessions of unseen tracks miss one more frame; those beyond the grace are returned |
| ZoneTracking.ZoneTrackingEngine.ProcessFrame | pipeline/zones.py:422-494 | every (track, zone) pair takes exactly the step its sight calls for, with exactly that step's events |
| ZoneTracking.TrackVideo | pipeline/zones.py:422-494 | over a whole video every pair lives its own run: tracks and zones never disturb each other |
| ZoneTracking.SessionsExactlyInside | pipeline/zones.py:434-475 | after a frame a visible track has a session for exactly the zones that contain its centroid |
| QueueModel.EventsAreEdges | pipeline/queue_tracking.py:145-200 | membership is the last sight of the track; joins and leaves are its rising and falling edges |
| QueueModel.JoinLeaveAlternate | pipeline/queue_tracking.py:145-200 | JOIN and LEAVE alternate, numbered 1, 2, 3, ..., a leave with its join's number |
| QueueModel.QueueEventsReported | pipeline/queue_tracking.py:145-200 | each frame adds exactly the event the sights so far call for: a join with the depth, a leave with the time since the latest join |
| QueueModel.VanishingNeverLeaves | pipeline/queue_tracking.py:145-200 | a track that vanishes inside a queue never leaves it |
| QueueModel.DepthSpaced | pipeline/queue_tracking.py:202-229 | depth reports are at least an interval apart |
| QueueModel.DepthCovers | pipeline/queue_tracking.py:202-229 | no frame is an interval past the latest report |
| QueueTracking.QueueTrackingEngine.ProcessFrame | pipeline/queue_tracking.py:137-231 | every pair makes the moves its sight calls for; due depth reports follow, one per queue in order |
| QueueTracking.QueueTrackingEngine.DepthForQueue | pipeline/queue_tracking.py:233-241 | the depth is the number of visitors inside |
| QueueTracking.DepthCounts | pipeline/queue_tracking.py:233-241 | the depth is the number of places in the list of tracks whose centroid lies in the queue |
| QueueTracking.TrackQueues | pipeline/queue_tracking.py:137-231 | over a whole video every pair lives its own run and every queue is reported at the same frames |
| Crossing.MoveIsDepthChange | pipeline/entry_exit.py:133-162 | for lines of length at least 1e-6 the normal part of a move is the change of signed depth per unit of length |
| Crossing.ClassifyExactly | pipeline/entry_exit.py:194-223 | ENTRY exactly from strictly outside to strictly inside, EXIT the reverse, when the line is passed and the move is not negligible |
| Crossing.ReversedMove | pipeline/entry_exit.py:194-223 | going back is the opposite crossing |
| Crossing.SwappedLine | pipeline/entry_exit.py:133-162 | swapping the end points flips ENTRY and EXIT exactly when the layout's word does not decide the side; otherwise nothing changes |
| Crossing.ClearMove | pipeline/entry_exit.py:186-223 | between points clear of a line of at most 2000 only the sides matter |
| Crossing.ClearPath | pipeline/entry_exit.py:194-223 | along a path clear of the line crossings alternate and entries minus exits is the change of side |
| EntryExitTheorems.RunIsLawful | pipeline/entry_exit.py:296-377 | every fired crossing is a raw one, fires of a direction are a cooldown apart, and any two are debounce sightings apart |
| EntryExitTheorems.FiresExactly | pipeline/entry_exit.py:296-377 | a sighting fires exactly when it is a raw crossing with enough movement, the pair has not fired yet or was seen on one side for the debounce since, and the direction has not fired within the cooldown |
| EntryExitTheorems.NothingLostExactly | pipeline/entry_exit.py:296-377 | for any settings all raw crossings fire exactly when each is due after those before it |
| EntryExitTheorems.ClearTrackLosesNothing | pipeline/entry_exit.py:326-377 | a track that keeps clear of the line loses no crossing exactly when its crossings are spaced by the debounce in sightings and, per direction, by the cooldown in frames |
| EntryExitTheorems.SpacedTrackTellsSides | pipeline/entry_exit.py:326-377 | then, with any cooldown and debounce, fired entries minus exits is the change of side |
| SharedDisplacement.HeldBackExactly | pipeline/entry_exit.py:335-351 | a line among others fires what it would fire alone exactly when, wherever it alone would fire, the visitor also moved enough towards each line listed before it |
| SharedDisplacement.DoorBehindWallLosesEntry | pipeline/entry_exit.py:335-351 | two lines and two sightings, with the default settings, where the second line alone fires an entry and behind the first line fires nothing |
| EntryExitDetectors.EntryExitDetector.ProcessLine | pipeline/entry_exit.py:340-387 | state and crossing of one pair after one sighting |
| EntryExitDetectors.EntryExitDetector.ProcessVisitor | pipeline/entry_exit.py:335-387 | each line of a visitor continues its own run; other visitors are untouched |
| EntryExitDetectors.DetectCrossings | pipeline/entry_exit.py:326-388 | over a whole video every pair's crossings are those of its own run |
| CrossingGroups.ApplyGroupCrossings | pipeline/entry_exit.py:393-425 | the crossings of a frame go on line by line, the lines in the order they were first crossed |
| CrossingGroups.RegroupedKeepsPairs | pipeline/entry_exit.py:393-425 | no pair's crossings change their order |
| CrossingGroups.RegroupedIsRearrangement | pipeline/entry_exit.py:393-425 | and none is lost or doubled |
| EventIdentity.NameInjective | schemas/events.py:69-80 | for one store and camera the name tells type, track, frame and subtype, whatever the subtype contains |
| EventIdentity.StoreAndCameraTold | schemas/events.py:69-80 | stores and cameras without a colon are told as well |
| EventIdentity.SourcesConfusedExactly | schemas/events.py:69-80 | two sources share the names of their events exactly when store:camera is the same text |
| EventIdentity.NamesTellIdents | schemas/events.py:69-80 | the subtypes of all engines tell region and number |
| EventStreams.IdentsNeverRepeat | schemas/events.py:69-80 | in every interleaving of what the zone, queue and crossing engines raise over a video no two events have the same identity |
| EmittedEvents.EmittedDifferExactly | pipeline/orchestrator.py:192-231 | with re-entries in place of matched entries, the identities of the log are all different exactly when no frame holds two re-entries of one visitor with one track |
| EmittedEvents.RawTells | pipeline/orchestrator.py:187-205 | what goes on to the sessions has the type, track, time, zone and number that the event is named by |
| EmittedEvents.GuardedLogDiffers | pipeline/orchestrator.py:192-231 | they are all different if no track goes in, out and in again within a frame |
| EmittedEvents.TwoLinesAreSafe | pipeline/entry_exit.py:335-387 | with at most two lines no track does |
| EmittedEvents.DedupDropsNothingExactly | pipeline/emit.py:214-217 | while all ids are remembered, deduplication drops no valid event of the log exactly when nobody returns twice with one track in one frame |
| StorePipeline.WatchFrame | pipeline/orchestrator.py:187-190 | the events of a frame, line crossings first, then zones, then queues: each pair and queue goes on with its own run |
| StorePipeline.HandleFrame | pipeline/orchestrator.py:192-231 | re-identification, sessions and emitter take them in order |
| StorePipeline.RunVideo | pipeline/orchestrator.py:167-253 | a whole video: each engine keeps its promise about its part of the log, no two raw events share an identity, frames are in order, and the emitter has written what it takes of the log |
| StorePipeline.TwoLinesLoseNothing | pipeline/emit.py:200-224 | with at most two lines every valid event of a video is written, re-entries included |
| EventStreams.ZoneRunDiffers | pipeline/zones.py:257-265 | no two events of a zone pair have the same id |
| EventStreams.CrossingsRise | pipeline/entry_exit.py:441-449 | crossings of a pair come in rising frames |
| Emitter.EventDedupStore.Add | pipeline/emit.py:92-105 | a key is rejected exactly when it is among the newest max_keys accepted ones |
| Emitter.StructuredEventEmitter.Emit | pipeline/emit.py:200-224 | an event is taken exactly when valid and not a recent repetition; flushed batches followed by the buffer are the events taken, and the buffer stays below the batch size |
| Emitter.StructuredEventEmitter.EmitMany | pipeline/emit.py:226-237 | a batch with an invalid event is refused as a whole |
| Emitter.StructuredEventEmitter.Flush | pipeline/emit.py:239-270 | the whole buffer goes to the file of the day of its first event |
| Emitter.EmitRun | pipeline/emit.py:200-274 | after a run and closing, the events taken are in the logs in batches of the limit, and the logs are by day exactly when every event is on the day its batch started |
| EmitterModel.TakenRepeats | pipeline/emit.py:92-105 | two taken events with the same id are more than max_keys apart |
| EmitterModel.RefusedExactly | pipeline/emit.py:200-224 | an event is refused exactly if it is not valid, or one with its id is among the last max_keys taken |
| EmitterModel.TakenExactly | pipeline/emit.py:200-224 | the events not refused when they come are taken, in their order |
| EmitterModel.ShortRunsTakeEachIdOnce | pipeline/emit.py:92-105 | while no more events than keys are seen, each id is taken exactly once |
| EmitterModel.DifferentIdsAreTaken | pipeline/emit.py:214-224 | valid events with different ids are all taken |
| EmitterModel.FiledByDayExactly | pipeline/emit.py:239-263 | each log holds exactly its day's events if and only if no batch spans midnight |
| EmitterModel.RunFiledByDayExactly | pipeline/emit.py:220-246 | cut into batches of the limit, a run is filed by day exactly when every event taken is on the day of the event its batch started with |
| PlanogramModel.MadeRowIsValid | edge/inventory/retail_shelf_monitoring/entities/planogram.py:31-40 | what the row validator lets through is numbered and in order |
| PlanogramModel.OrderedRowPasses | edge/inventory/retail_shelf_monitoring/entities/planogram.py:31-40 | items numbered in order pass unchanged unless the row lies above the image |
| PlanogramModel.OrderedGridPasses | edge/inventory/retail_shelf_monitoring/entities/planogram.py:51-60 | rows numbered in order pass unchanged |
| PlanogramModel.MatchIsSameSku | edge/inventory/retail_shelf_monitoring/usecases/grid/grid_detector.py:137-147 | a match is aligned with a detected item of the expected product |
| PlanogramModel.MatchesKeepOrder | edge/inventory/retail_shelf_monitoring/usecases/grid/grid_detector.py:137-147 | matches are a common subsequence of both rows |
| PlanogramModel.GridCount | edge/inventory/retail_shelf_monitoring/usecases/grid/grid_detector.py:181-263 | every cell of a grid is found on exactly once |
| PlanogramModel.PicksPartition | edge/inventory/retail_shelf_monitoring/usecases/grid/grid_detector.py:124-179 | sorting findings into matches, mismatches and missing loses and doubles none |
| GridDetection.GroupedExactly | edge/inventory/retail_shelf_monitoring/usecases/grid/clustering.py:47-56 | a cluster is exactly the items with its label, in order; noise has none |
| GridDetection.GroupedKeeps | edge/inventory/retail_shelf_monitoring/usecases/grid/clustering.py:47-61 | grouping keeps every item that is not noise exactly once |
| GridDetection.ToItemsOrdered | edge/inventory/retail_shelf_monitoring/usecases/grid/grid_detector.py:50-65 | numbering after sorting by the raw left edge survives clamping |
| GridDetection.DetectedIsValid | edge/inventory/retail_shelf_monitoring/usecases/grid/grid_detector.py:46-74 | a detected grid satisfies the validators, which never refuse it |
| GridDetection.DetectedKeepsAll | edge/inventory/retail_shelf_monitoring/usecases/grid/grid_detector.py:31-80 | every detection that is not noise is in the grid exactly once |
| GridDetection.DetectsUnlessNoise | edge/inventory/retail_shelf_monitoring/usecases/grid/grid_detector.py:34-44 | with centres inside the image detection fails on noise alone |
| GridDetection.MeanOfEdges | edge/inventory/retail_shelf_monitoring/usecases/grid/clustering.py:59-62 | the height of a row is the mean of the upper and lower edges of all its boxes |
| CellStates.GridDetector.ClusterByY | edge/inventory/retail_shelf_monitoring/usecases/grid/clustering.py:31-69 | clusters by label, in the order of their mean height |
| CellStates.GridDetector.DetectGrid | edge/inventory/retail_shelf_monitoring/usecases/grid/grid_detector.py:31-80 | the grid of the reference detection, or nothing where the program raises an error |
| CellStates.GridDetector.MatchRows | edge/inventory/retail_shelf_monitoring/usecases/grid/grid_detector.py:124-179 | the three lists are the verdicts of the covering steps, sorted by kind |
| CellStates.GridDetector.MatchGrids | edge/inventory/retail_shelf_monitoring/usecases/grid/grid_detector.py:181-263 | rows are compared rank by rank; what has no counterpart is missing |
| CellStates.ComputeCellStates | edge/inventory/retail_shelf_monitoring/usecases/cell_state_computation.py:24-141 | states and counts are those of the comparison, on every return path |
| CellStates.EveryCellReportedOnce | edge/inventory/retail_shelf_monitoring/usecases/cell_state_computation.py:50-113 | each planogram cell is reported exactly once and the counts add up to total_cells |
| CellReports.ReportsTold | edge/inventory/retail_shelf_monitoring/usecases/cell_state_computation.py:59-105 | each report names a planogram cell and its product and says what the covering step of the matcher shows: OK with the expected product aligned, MISPLACED with the aligned item's product and track, else EMPTY without a product; the number of reports in each state is its count |
| CellReports.NothingIsEmpty | edge/inventory/retail_shelf_monitoring/usecases/cell_state_computation.py:115-141 | with nothing detected every cell is reported empty |
| CellReports.ConsideredExactly | edge/inventory/retail_shelf_monitoring/usecases/cell_state_computation.py:38-48 | exactly the detections at or above the threshold are compared, in their order, under their product or else their class |
| StableSort.SortedByIsSorted | edge/inventory/retail_shelf_monitoring/usecases/grid/clustering.py:58-61 | sorting by a key gives an ordered rearrangement |
| StableSort.SortedByOfOrdered | edge/inventory/retail_shelf_monitoring/entities/planogram.py:32-40 | sorting what is ordered changes nothing |
| ChallengeFormat.NormalisedExactly | schemas/challenge_events.py:107-187 | importing and exporting rewrites visitor, type, offset, zone and product zone, and nothing else |
| ChallengeFormat.MillisecondsExact | schemas/challenge_events.py:118-164 | milliseconds survive the way through seconds |
| ChallengeFormat.CatalogueRoundTrip | schemas/challenge_events.py:29-60 | a catalogue name is read as its type and written back as itself |
| ChallengeFormat.NamesMean | schemas/challenge_events.py:29-47 | what each accepted type name means, in any capitalisation |
| ChallengeFormat.AliasesMean | schemas/challenge_events.py:44-45 | the two aliases that are no catalogue name in other letters |
| ChallengeFormat.ImportMeans | schemas/challenge_events.py:107-145 | an imported event is its visitor's, with the track the visitor is named after; abandonment is what the event itself says; seconds are exact |
| ChallengeFormat.ExportMeans | schemas/challenge_events.py:148-187 | who a visitor is called, which milliseconds are written and which of the two session numbers |
| ChallengeFormat.QueueDepthIsReadAsEntry | schemas/challenge_events.py:29-48 | queue depth is not in the table and is read as an entry |
| ChallengeFormat.NormalisingIsIdempotent | schemas/challenge_events.py:107-187 | importing and exporting twice is the same as once, exactly when no empty zone name leaks into the product zone |
| ChallengeFormat.NormalisingKeepsCanonical | schemas/challenge_events.py:107-187 | exactly the canonical events are left as they are |
| ChallengeFormat.NormalisedIsCanonical | schemas/challenge_events.py:107-187 | what comes out is canonical unless an empty zone name leaked |

## Left out

- Detection, tracking, image features, homography, clustering and sequence matching: their results are inputs, or
  functions known by a contract (labels for every item; steps that go through both sequences). A clustering that itself
  raises an error is not modelled; `match_grids` treats it like noise alone.
- `SortTracker`, `VisitorTrack` and `TrackHistoryStore`: their numerics are floating point and their bookkeeping has few
  branches.
- Loading transactions from their file, conversion percentages, drop-off and confidence of the funnel response, and the
  rates, converted and abandoned counts of the metrics: arithmetic on the proved counts.
- An alert refreshed with zero consecutive frames is stored as it is and refused when it is next read; here it is read like
  any other. The tracker sends zero only if it is set to confirm after zero frames.
- The tracker reads the clock at every update and again for the cleanup; here a frame has one time.
- The id and size that a group crossing adds to its events; the regrouping itself is modelled.
- The placeholder re-entry context of the session engine, which nothing reads, and the list of recent crossings kept for
  overlays.
- Reading, throttling and dropping frames; times, boxes and appearances are functions of the event they belong to.
- Staff areas, confidences, boxes, calibration names and other fields that are copied into events.
- The random part of ids: visitor ids come from a supply that never repeats, and equal ids mean equal names.
- Visitor sessions and funnel sessions are objects. The zone visits inside a visitor session, and the sessions and visits of
  the zone engine, are values in their lists and tables: nothing else refers to them, so no aliasing is captured there.
- Zone events of tracks that time out in the same frame are emitted in an order that the model leaves open.
- Duplicate track ids within a frame and duplicate region ids in a layout: the tracker and the layout provide unique ones.
- Reading back stored rows, the 503 answer of an ingest without a database, Redis and JSON errors, `delete_index`.
- Reading a track number out of a visitor id, and letters outside ASCII in event type names.
- Times without an offset, and floating point rounding of seconds and of plane geometry: reals are exact.
- Anonymous visitors are named by their time in microseconds instead of Python's text of a float.
- Replay of logs, dashboards, routers, settings, overlays, summaries and serialisation.
