# NOVA-RTL evidence pipeline: a verified model

NOVA-RTL turns the output of EDA tools into evidence that can be replayed and signed. This
project models the parts of it that decide what counts as evidence, and proves what they
promise. SHA-256, canonical JSON and zstd are abstract functions; injectivity is assumed only
where a contract says so. Timestamps do not appear, metrics are reals, and exceptions are
`Result` values.

| modules | part of the system |
|---|---|
| `Store`, `StoreRuns`, `ArtifactStores` | content-addressed store: concurrent writers and readers, one system call at a time, with faults and crashes; and the class that one process uses |
| `Tables`, `Ledger`, `Replay`, `Freeze` | SQLite tables under arbitrary statements and triggers, the ledger class on top, replay, the signed prefix and the two-rename freeze |
| `Techmap` | the ASAP7 technology map as a compiler, and the count-based area |
| `Calibrate` | doubling, halving and bisecting for a workload scale within a sample budget |
| `Graph`, `GraphTheorems`, `GraphNames`, `GraphPaths`, `GraphEdges`, `GraphRecords`, `GraphOrder`, `GraphOutcome`, `GraphSamples` | the evidence graph builder: what it builds, and for which inputs |
| `Cascade`, `Aggregation` | gate cascade with its journal, fail-closed view aggregation |
| `ClockNames`, `Clocks`, `ClockDocuments`, `ClockAudit`, `Binding` | clock topology documents, their validators and audits; SDC binding audit |
| `JsonPointer`, `Summary`, `Vcd`, `Text`, `Prelude` | scanners and shared vocabulary |

`dafny verify dfyconfig.toml` checks everything.

## Where the code does less than it promises

Each of these is proved with a concrete input or an exact condition.

- The event table is append-only except through its implicit rowid: an INSERT OR REPLACE that
  reuses a rowid removes another event, since delete triggers do not fire for replaced rows
  and no guard looks at the rowid (`Tables.ReusedRowidLosesAnEvent`). One row keeps all events
  exactly when it does not do that (`Tables.InsertEventKeeps`), a history exactly when no row
  it commits does (`Tables.HistoryGrowsIff`). `append_event` never does, so ledgers written
  through it are safe.
- A freeze interrupted between its two renames leaves a lone frozen ledger that no later freeze
  removes or completes (`Freeze.TornExactlyBetweenRenames`, `Freeze.TornForever`). A reader
  whose two file probes enclose those renames gets the error for torn snapshots although the
  freeze succeeds (`Freeze.SeparateProbesNeverMix`); it never gets a mixed pair.
- The count-based area looks up all four cell types, so a mapped design that lacks one of them
  raises instead of counting zero (`Techmap.ReportedAreaIsExact`, `Techmap.ReportWithoutNandRaises`).
- Inputs that pass every contract can fail to build because an edge would join a node to
  itself: a path that lists one node twice in a row (one name twice, or two objects with one
  object ID), a path that names itself at an end, or a connection from an object to itself.
  `GraphOutcome.ValidatedBuildSucceedsIff` says exactly when such inputs build and that these
  are then the error; `GraphSamples.SomeInputsBuild`, `SharedObjectIdSampleFails` and
  `SelfConnectionSampleFails` have the inputs.
- A mapped object may carry the name of another record's node ("clock:clk_a"): the source map
  never produces such names, its contract allows them. Names lead to their nodes exactly when
  that does not happen (`GraphNames.NamesMeanTheirNodes`). Where it does, the later call holds
  the name: an object hides a source span, every other record hides an object
  (`GraphNames.WhoHoldsTakenName`; `GraphSamples.ClockNameMisleads` and `SomeNamesMislead` have
  the input).
- A path without a violation gets a violation edge all the same if a mapped object is named like
  its violation node, and exactly then (`GraphPaths.ViolationsAreMarked`).
- From the default start twelve samples reach every scale up to 128, then only every 4th up to
  256, every 16th up to 512, and so on. Calibration passes exactly when one of those is in range
  (`Calibrate.DefaultCalibrationIff`); with 129 as the only one in range it fails
  (`Calibrate.Hit129CanBeMissed`).

## Model

| member | source | states |
|---|---|---|
| Store.PublishedNeverChanges | src/nova_rtl/artifacts/store.py:63-113 | from any starting directory and under any interleaving of writers, readers, failing system calls and crashes, published bytes never change, no digest path is renamed onto twice, and none that already held a file is renamed onto at all |
| Store.ApplyKeepsInv | src/nova_rtl/artifacts/store.py:63-113 | every single system call, fault or crash of any process keeps the whole publication invariant (lock ownership, complete temp files before rename, temp files private to their owner) and touches only what that process may touch |
| Store.RunKeepsInv | src/nova_rtl/artifacts/store.py:63-113 | the invariant holds in every reachable state and published content is only ever added to |
| Store.RenamingKeepsInv | src/nova_rtl/artifacts/store.py:94-110 | the rename publishes exactly the bytes of the call, sealed, onto a path that held no file, and keeps the invariant |
| StoreRuns.CleanStaysClean | src/nova_rtl/artifacts/store.py:80-113 | from a clean store every reachable path is absent or holds bytes that hash to its digest |
| StoreRuns.IntegrityMeansCollision | src/nova_rtl/artifacts/store.py:88-92 | on a clean store `put_bytes` fails with an integrity error only if different bytes with the same digest already sit at the path |
| StoreRuns.DurableRead | src/nova_rtl/artifacts/store.py:185-212 | once some `put_bytes(data)` has returned, every `open_verified` of its reference that starts later returns `data` (or bytes of equal length and digest), never missing or corrupt, and an operating-system error only if a system call of that very reader fails |
| StoreRuns.DriveToReturn | src/nova_rtl/artifacts/store.py:80-113 | from any reachable state a writer not waiting for a held lock can return and free its lock within nine of its own system calls, namely when its temp name is fresh and one write takes all bytes; it then publishes unless it had already failed or foreign bytes hold its path |
| ArtifactStores.BlobPathSpec | src/nova_rtl/artifacts/store.py:166-183 | a reference resolves exactly when URI and sha256 field spell the same 64-digit hex digest, which is then the path |
| ArtifactStores.ReturnedRefResolves | src/nova_rtl/artifacts/store.py:143-164 | the reference returned by `put_bytes`, renamed to any semantic role, resolves to the published path |
| ArtifactStores.ReturnedRefOpens | src/nova_rtl/artifacts/store.py:185-197 | under any role name the returned reference opens as exactly the stored bytes |
| ArtifactStores.ReaderAnswers | src/nova_rtl/artifacts/store.py:185-212 | in any state of the store a reader that starts and is not disturbed answers what `open_verified` returns |
| ArtifactStores.ArtifactStore.OpenVerified | src/nova_rtl/artifacts/store.py:185-212 | succeeds exactly when both identities of the reference spell a digest whose file has that digest and the size of the reference, and returns its bytes; missing exactly when that path has no file; an integrity error for everything else |
| ArtifactStores.ArtifactStore.PutBytes | src/nova_rtl/artifacts/store.py:63-125 | each call, whatever system calls fail, is a run of the step machine; other digests and existing content are untouched, a new file is complete and sealed, no temp file stays unless unlinking fails, it succeeds when nothing fails, and the reference it returns opens as the stored bytes - as `data` itself if the path was free |
| ArtifactStores.ArtifactStore.WriteTemp | src/nova_rtl/artifacts/store.py:94-105 | partial writes accumulate to exactly the data, or stop when the disk is full |
| Tables.GuardMeans | src/nova_rtl/artifacts/ledger.py:285-300 | the append guard with its MAX query refuses exactly a known event ID or a sequence that is not above all of its run |
| Tables.InsertEventKeeps | src/nova_rtl/artifacts/ledger.py:250-257 | an accepted event row keeps IDs unique and per-run sequences strictly increasing; all earlier events survive if and only if the statement does not, under REPLACE, name a rowid in use |
| Tables.InsertRecordKeeps | src/nova_rtl/artifacts/ledger.py:262-325 | an accepted record row is only ever appended, with a larger index than all before, whatever the conflict policy |
| Tables.HistoryKeeps | src/nova_rtl/artifacts/ledger.py:248-349 | over any history of transactions of INSERT (all conflict policies, many rows), UPDATE, DELETE and sqlite_sequence writes: unique IDs, strictly increasing sequences and indices, records never lost; events never lost unless a committed row displaces one |
| Tables.HistoryGrowsIff | src/nova_rtl/artifacts/ledger.py:248-349 | row by row, no event is ever lost or moved exactly when no row that the history commits displaces one; undone statements and uncommitted transactions do not count |
| Tables.ReusedRowidLosesAnEvent | src/nova_rtl/artifacts/ledger.py:250-257 | a concrete INSERT OR REPLACE with a reused rowid removes another run's event although every trigger is in place |
| Ledger.DecodeInvertsEncode | src/nova_rtl/artifacts/ledger.py:207-232 | decoding accepts exactly the canonical bytes of a value under their own hash |
| Ledger.ReadsIffAuthentic | src/nova_rtl/artifacts/ledger.py:154-164 | an event row is readable exactly when it is what appending some event stores |
| Ledger.ReadAllFailsOnForeignRows | src/nova_rtl/artifacts/ledger.py:138-164 | reading a run fails exactly when one of its rows was not stored by an append |
| Ledger.SortedReadIsAcceptanceOrder | src/nova_rtl/artifacts/ledger.py:138-191 | on every reachable ledger both sorted reads list a run in the order of acceptance |
| Ledger.ReadReturnsAppended | src/nova_rtl/artifacts/ledger.py:138-164 | what was appended for a run is what `iter_events` returns, in order |
| Ledger.LaterReadsExtend | src/nova_rtl/artifacts/ledger.py:138-164 | after any further SQL that displaces no event, a read of the run extends every earlier read, or fails |
| Ledger.ReadRecordInvertsStore | src/nova_rtl/artifacts/ledger.py:185-191 | a record row reads back exactly as the record it was stored for |
| Ledger.RunIdsSpec | src/nova_rtl/artifacts/ledger.py:193-205 | the listed runs are exactly those with events, once each, sorted |
| Ledger.AcceptedByTriggers | src/nova_rtl/artifacts/ledger.py:66-95 | whatever passes the checks of `append_event` passes the triggers too |
| Ledger.ExperimentLedger.AppendEvent | src/nova_rtl/artifacts/ledger.py:59-99 | exact conditions of success and of each error, exhausted rowids included; a refused append changes nothing, an accepted one adds exactly the canonical row; the trigger is never the one to refuse |
| Ledger.ExperimentLedger.AppendRecord | src/nova_rtl/artifacts/ledger.py:101-136 | exact conditions of success and of each error, exhausted indices included; an accepted record gets an index above all others and above sqlite_sequence |
| Ledger.ExperimentLedger.IterEvents | src/nova_rtl/artifacts/ledger.py:138-164 | yields the decoded rows in sequence order up to the first foreign row, where it fails |
| Replay.SelectRunIdSpec | src/nova_rtl/artifacts/replay.py:75-86 | a run is selected only if it has events and, without a request, only if it is the only one |
| Replay.SelectRunErrors | src/nova_rtl/artifacts/replay.py:75-86 | each error of the selection holds exactly when a requested run has no events, when there are none at all, or when two runs have some and none is requested |
| Replay.CheckEvents | src/nova_rtl/artifacts/replay.py:52-57 | the loop passes exactly strictly increasing events whose payloads all verify |
| Replay.ReplayRun | src/nova_rtl/artifacts/replay.py:34-58 | returns the selected run's events in acceptance order; on reachable ledgers the ordering error and the empty-run error cannot occur |
| Replay.SelectPrefixSpec | src/nova_rtl/baseline/signoff.py:96-121 | selection succeeds exactly when something is signed and every signed hash occurs, and is then the list-prefix ending at the last signed event |
| Replay.LaterUnsignedEventsIgnored | src/nova_rtl/baseline/signoff.py:96-121 | later events with unsigned payload hashes never change the selection |
| Replay.SelectPrefixIdempotent | src/nova_rtl/baseline/signoff.py:96-121 | selecting from the selection returns it |
| Freeze.CopyPrefix | src/nova_rtl/baseline/signoff.py:376-382 | appending a replayed prefix to an empty ledger is never refused and stores exactly the prefix |
| Freeze.SnapshotReplaysPrefix | src/nova_rtl/baseline/signoff.py:376-382 | the snapshot ledger replays, without naming a run, to exactly the frozen prefix |
| Freeze.ReplayIsOneRun | src/nova_rtl/artifacts/replay.py:47-58 | every replay of a reachable ledger is fit to be frozen |
| Freeze.SelectedPrefixIsOneRun | src/nova_rtl/baseline/signoff.py:364-368 | the selected prefix of a replay is nonempty and fit to be copied |
| Freeze.ResolutionNeverMixes | src/nova_rtl/baseline/signoff.py:76-93 | at any moment of any run of freezes, faults, crashes and live appends, paths resolve to live/live or to a frozen pair whose ledger is exactly the signed prefix for its index, or to an error |
| Freeze.SeparateProbesNeverMix | src/nova_rtl/baseline/signoff.py:84-93 | the same with anything happening between the probe of the index and the probe of the ledger: frozen paths hold one matching pair for ever, live paths are chosen only if nothing was frozen |
| Freeze.LiveFilesGoOn | src/nova_rtl/baseline/signoff.py:76-93 | none of this rests on idle live files: in any state the live ledger can grow to any longer one of its run and the live index change to any other |
| Freeze.FrozenForever | src/nova_rtl/baseline/signoff.py:333-401 | once both frozen files exist nothing alters them |
| Freeze.FreezeReturnsFrozenPair | src/nova_rtl/baseline/signoff.py:333-401 | whatever happened before, a freeze that returns a pair returns the frozen one, with its ledger the signed prefix for its index; never the live files |
| Freeze.FreezingAgainReturnsThePair | src/nova_rtl/baseline/signoff.py:337-340 | freezing a frozen run returns the frozen pair with its first step, however the live files have changed |
| Freeze.TornExactlyBetweenRenames | src/nova_rtl/baseline/signoff.py:393-401 | an interruption leaves a lone frozen ledger if and only if it falls between the two renames |
| Freeze.TornForever | src/nova_rtl/baseline/signoff.py:337-340 | a lone frozen ledger is never removed or completed: every later resolution and freeze fails |
| Freeze.UndisturbedFreeze | src/nova_rtl/baseline/signoff.py:333-401 | an undisturbed first freeze publishes the twelve required stages of the live index with the ledger up to the last of their events, if and only if all twelve are indexed and their events recorded; each failure has its own error |
| Techmap.TemplateCorrect | src/nova_rtl/baseline/execution.py:381-417 | each template computes its gate and disturbs only its output and its own local wires |
| Techmap.MapPreservesMeaning | src/nova_rtl/baseline/execution.py:381-417 | expanding any ordered netlist keeps the value of every original wire under every assignment |
| Techmap.MapOrdered | src/nova_rtl/baseline/execution.py:381-417 | the expansion of an ordered netlist is ordered: fresh local wires never clash |
| Techmap.MappedSolutionSolvesGates | src/nova_rtl/baseline/execution.py:381-417 | any solution of the expanded equations, even of a netlist with loops, solves the gates |
| Techmap.GateSolutionExtends | src/nova_rtl/baseline/execution.py:381-417 | every solution of the gates, loops included, extends to the expansion |
| Techmap.MapPreservesTraces | src/nova_rtl/baseline/execution.py:381-417 | with flops as cut points the clocked traces of the original wires agree |
| Techmap.CaptureSpec | src/nova_rtl/baseline/execution.py:381-417 | at a clock edge each flop takes the value at its own input |
| Techmap.MapCellCounts | src/nova_rtl/baseline/execution.py:381-417 | 1/1/2/3/4/4 cells per gate, inverters and NANDs counted apart |
| Techmap.CountsCoverAll | src/nova_rtl/adapters/yosys.py:132-136 | the four counts of a mapped netlist cover all its cells |
| Techmap.StatLinesRoundTrip | src/nova_rtl/adapters/yosys.py:123-131 | the inventory read from the statistics lines is the count of each cell type |
| Techmap.InventoryIs | src/nova_rtl/adapters/yosys.py:123-131 | in any report the last line without an area column holds for its cell type; other lines do not count |
| Techmap.StatisticsIff | src/nova_rtl/adapters/yosys.py:101-142 | for any report: succeeds exactly with a register, counts that add up to the total, and all four cell types; the area is then the counts times the four library areas |
| Techmap.LibraryAreas | src/nova_rtl/adapters/yosys.py:117-122 | the sum over individual cells in terms of the four library areas |
| Techmap.ReportedAreaIsExact | src/nova_rtl/adapters/yosys.py:116-142 | the count-based area is the sum over individual cells exactly when all four cell types occur and there is a register; otherwise the parser raises |
| Techmap.ReportWithoutNandRaises | src/nova_rtl/adapters/yosys.py:137 | a concrete mapped design without a NAND makes the area lookup raise |
| Techmap.MappedDesignArea | src/nova_rtl/adapters/yosys.py:116-142 | the area of a mapped gate netlist with its flops is the sum of its template areas and flop areas |
| Calibrate.CalibrateWithMeasurement | src/nova_rtl/benchmark/calibrate.py:150-181 | the sampling loop computes the search specification for every measurement and budget |
| Calibrate.CalibrationIsTrustworthy | src/nova_rtl/benchmark/calibrate.py:150-181 | for any measurement: sampled scales positive and pairwise distinct, the report passes its own validator, it passes exactly when a sample is in range and then selects such a scale, and each other error exhibits a measurement that names another scale or is not monotonic |
| Calibrate.NextScaleIsFresh | src/nova_rtl/benchmark/calibrate.py:117-147 | a proposed scale is positive and not yet tried |
| Calibrate.NearestSpec | src/nova_rtl/benchmark/calibrate.py:131-139 | inside a bracket the untried scale nearest to the midpoint is chosen |
| Calibrate.BracketProbesMidpoint | src/nova_rtl/benchmark/calibrate.py:126-139 | for a nondecreasing measurement the probe is the true midpoint of the open bracket |
| Calibrate.DoublingProbesTwice | src/nova_rtl/benchmark/calibrate.py:140-142 | while everything is below the target the next scale is twice the largest |
| Calibrate.HalvingProbesHalf | src/nova_rtl/benchmark/calibrate.py:143-147 | while everything is above the target the next scale is half the smallest |
| Calibrate.PhaseSteps | src/nova_rtl/benchmark/calibrate.py:117-147 | every search state of a nondecreasing measurement is doubling, halving or a bracket, and each miss leads to another such state |
| Calibrate.StopMeansNothingInRange | src/nova_rtl/benchmark/calibrate.py:117-147 | no further scale without a hit means that no positive scale is in range |
| Calibrate.MonotoneCalibration | src/nova_rtl/benchmark/calibrate.py:126-137 | for a nondecreasing measurement the non-monotonicity error cannot occur and a stop before the budget is conclusive |
| Calibrate.ProbesLogarithmic | src/nova_rtl/benchmark/calibrate.py:131-139 | bisection of a gap of width 2^m needs at most m probes |
| Calibrate.CalibrationBudget | src/nova_rtl/benchmark/calibrate.py:117-181 | sample bounds of the whole search: k doublings and at most k+1 bisections above the start, logarithmically many below it |
| Calibrate.DefaultCalibrationPasses | src/nova_rtl/contracts/benchmark.py:117 | started at the default scale 4, every target whose smallest in-range scale is at most 128 passes within twelve samples |
| Calibrate.PassesIffReachable | src/nova_rtl/benchmark/calibrate.py:117-181 | for every start, target and budget, a nondecreasing calibration passes exactly when one of the scales it can reach by doubling, halving and bisecting is in range |
| Calibrate.DefaultReach | src/nova_rtl/benchmark/calibrate.py:117-147 | from scale 4, twelve samples reach every scale up to 128, then every 4th up to 256, every 16th up to 512, and so on up to 8192 |
| Calibrate.DefaultCalibrationIff | src/nova_rtl/benchmark/calibrate.py:150-181 | the default calibration passes exactly when a scale of that grid is in range |
| Calibrate.Hit129CanBeMissed | src/nova_rtl/benchmark/calibrate.py:150-181 | with 129 as the only in-range scale the twelve samples run out |
| Calibrate.HitsSpec | src/nova_rtl/contracts/benchmark.py:530-541 | the validator's in-range membership test |
| Calibrate.FirstInRangeSpec | src/nova_rtl/benchmark/calibrate.py:86-95 | the selected scale is the first sampled one in range |
| Cascade.AttemptsSpec | src/nova_rtl/evaluation/cascade.py:183-205 | the attempted gates are those up to and including the first non-pass; each is reported with the very assessment its runner returned, or as an infrastructure error that names the failure |
| Cascade.EvaluationIsSound | src/nova_rtl/evaluation/cascade.py:111-124 | for all runners the result passes its own validator, says PASS exactly when all nine runners answer PASS for their own gate, and holds the candidate, the assessments and the hash of every event in order |
| Cascade.JournalAt | src/nova_rtl/evaluation/cascade.py:131-163 | the n-th event belongs to gate n/2, alternates start and terminal, and carries that gate's assessment |
| Cascade.JournalIsWellFormed | src/nova_rtl/evaluation/cascade.py:86-98 | every journal event passes its validator, is numbered by its place, belongs to its candidate and gate, and ends the gate with the kind that its status calls for |
| Cascade.JournalReplays | src/nova_rtl/evaluation/cascade.py:183-205 | any prefix of the journal replays to the assessments completed by then |
| Cascade.EvaluationCascade.RunGate | src/nova_rtl/evaluation/cascade.py:188-199 | a runner that raises or answers for another gate becomes an infrastructure error of that gate without stages and with one diagnostic; any other assessment is passed on unchanged |
| Cascade.EvaluationCascade.Evaluate | src/nova_rtl/evaluation/cascade.py:180-222 | the sink receives the full journal, or exactly the prefix it accepts before it raises, and only the corresponding runners are called |
| Aggregation.AggregateRequiredViews | src/nova_rtl/analysis_views/aggregation.py:65-230 | the nested loops compute the declarative aggregate for every input, errors included |
| Aggregation.AggregateIffComplete | src/nova_rtl/analysis_views/aggregation.py:71-201 | it returns exactly when the required views are distinct, include setup and hold, every mandated stage is present, labelled, measured and bound to its contract, all under one identity and one power activity |
| Aggregation.AggregateIsWorstPair | src/nova_rtl/analysis_views/aggregation.py:202-230 | each reported slack is the smallest over all required view-stage pairs, with the TNS of that same pair, and power the largest |
| Aggregation.AggregateIsMeasured | src/nova_rtl/analysis_views/aggregation.py:131-230 | on the metrics themselves: the reported setup WNS bounds the setup WNS of every required setup stage and is measured, with its own TNS, at the stage it names; hold and power likewise; power is reported exactly if required |
| Aggregation.WorstViewIsWorstPair | src/nova_rtl/analysis_views/aggregation.py:184-209 | choosing per view and then among views equals choosing among all pairs, first of ties included |
| Aggregation.WorstSpec | src/nova_rtl/analysis_views/aggregation.py:184 | the chosen reading is minimal, and strictly below everything before it |
| Aggregation.PerViewTable | src/nova_rtl/analysis_views/aggregation.py:185-192 | the per-view table has exactly the required views, each with its own worst reading |
| Aggregation.PerViewIsMeasured | src/nova_rtl/analysis_views/aggregation.py:131-192 | each required view shows the worst number of its own check over its own stages, and the stage it was measured at |
| Aggregation.ErrorsExplain | src/nova_rtl/analysis_views/aggregation.py:71-201 | every error names a requirement that some required stage does not meet, or identities or activities that differ |
| Aggregation.OnlyRequiredStagesMatter | src/nova_rtl/analysis_views/aggregation.py:71 | views that are not required and extra stages never affect the outcome |
| Graph.BuildGraph | src/nova_rtl/evidence/graph.py:225-747 | filling the dictionaries in loops yields exactly the specified node table and edge set, or the specified error |
| Graph.GraphBuilder.AddNodes | src/nova_rtl/evidence/graph.py:231-267 | adding nodes one by one leaves the last entry per identifier and per semantic name |
| Graph.GraphBuilder.AddEdges | src/nova_rtl/evidence/graph.py:558-584 | adding edges stops at the first failing lookup or self-referential edge |
| Graph.BuildNeighbors | src/nova_rtl/evidence/graph.py:473-480 | filling the neighbour table edge by edge gives every object its neighbours |
| Graph.NeighborIff | src/nova_rtl/evidence/graph.py:473-480 | two objects are neighbours exactly when some connection joins them, whichever way it runs |
| GraphTheorems.EdgesAreRequested | src/nova_rtl/evidence/graph.py:558-584 | an edge is in the document exactly when some request asks for it |
| GraphTheorems.NoDanglingEdge | src/nova_rtl/evidence/graph.py:80-96 | for all inputs a returned graph has no dangling and no self-referential edge |
| GraphEdges.EdgesAreCalledFor | src/nova_rtl/evidence/graph.py:587-732 | for all inputs that build, the edges are exactly those that some record calls for, with kind, direction and role |
| GraphEdges.EdgesByKind | src/nova_rtl/evidence/graph.py:587-732 | with unique IDs and disjoint names, on nodes: GENERATED_FROM runs from child clock to parent clock, CLOCKED_BY from a path to its launch and capture clock in that role, and so on for CONTAINS, MAPS_TO, CONNECTS, DATA_DEPENDENCY, IN_ANALYSIS_VIEW, MEMBER_OF_PATH_GROUP, RESOLVES_CONSTRAINT and PHYSICALLY_NEAR |
| GraphEdges.ClockNameLeads | src/nova_rtl/evidence/graph.py:435-471 | a clock name leads to the node of the master or generated clock with that ID |
| GraphRecords.NodesAreRecords | src/nova_rtl/evidence/graph.py:268-555 | the nodes are exactly those of the records, and each carries its record and the place of it in the sorted artifact |
| GraphRecords.ObjectKindIff | src/nova_rtl/evidence/graph.py:318-323 | a flip-flop becomes a register, any other cell of no module of the design an expression, everything else keeps its kind |
| GraphRecords.MatchingIff | src/nova_rtl/evidence/graph.py:166-179 | an endpoint stands for the objects below it by name or alias, and only if there are none, for those with an alias that shares its leaf name |
| GraphRecords.ErrorsExplain | src/nova_rtl/evidence/graph.py:182-222 | every error of the builder says what is the case: an unknown view, span or name, a path ID twice, an unmapped or missing object, an endpoint without objects, or an edge from a node to itself |
| GraphNames.AddsFrom | src/nova_rtl/evidence/graph.py:268-555 | every node comes from an input record and carries the identity that record gives |
| GraphNames.NamesMeanTheirNodes | src/nova_rtl/evidence/graph.py:265-266 | with unique IDs, every semantic name leads to the node added under it, although later calls overwrite earlier ones, if and only if no mapped object takes the name of another record |
| GraphNames.WhoHoldsTakenName | src/nova_rtl/evidence/graph.py:265-266 | of an object and another record under one name, the object holds it against a source span and loses it to everything else |
| GraphNames.ApartNamesAreDisjoint | src/nova_rtl/evidence/source_map.py:706 | names with the prefixes that the source map gives never collide |
| GraphPaths.PathIsWalkable | src/nova_rtl/evidence/graph.py:686-697 | every path can be walked: LAUNCHES, a chain of TIMING_ARC, CAPTURES along its object sequence |
| GraphPaths.ArcsAreConsecutive | src/nova_rtl/evidence/graph.py:696-697 | a TIMING_ARC joins two consecutive objects of some path, and nothing else does |
| GraphPaths.RepeatedObjectRefused | src/nova_rtl/evidence/models.py:305-312 | a path that lists one node twice in a row, under one name or two, makes the whole build fail |
| GraphPaths.ViolationsAreMarked | src/nova_rtl/evidence/graph.py:538-556 | a path with negative slack has exactly one violation edge, to its violation node; any other path has one exactly when a mapped object is named like its violation |
| GraphPaths.CrossingIsProtected | src/nova_rtl/evidence/graph.py:635-684 | both endpoints of every crossing resolve, and each matched object and all its connectivity neighbours get their protection edges |
| GraphOutcome.BuildSucceedsIff | src/nova_rtl/evidence/graph.py:558-747 | with unique IDs and disjoint names the build succeeds exactly when the path checks hold, every name looked up is known, each crossing endpoint stands for an object, and no lookup ends at the node it started from; self-referential edges alone give their own error |
| GraphOutcome.ValidatedBuildSucceedsIff | src/nova_rtl/evidence/models.py:305-312 | for inputs that pass their contracts: exactly when paths and crossings find what they look up and no connection and no step of a path joins a node to itself |
| GraphSamples.SomeInputsBuild | src/nova_rtl/evidence/graph.py:686-697 | concrete inputs that build, and that fail with the error for self-referential edges once their path repeats an object |
| GraphSamples.SharedObjectIdSampleFails | src/nova_rtl/evidence/source_map.py:114-122 | two objects with one object ID, next to each other on a path, fail the build |
| GraphSamples.SelfConnectionSampleFails | src/nova_rtl/evidence/source_map.py:85-90 | a connection from an object to itself fails the build, whatever the paths |
| GraphSamples.ClockNameMisleads | src/nova_rtl/evidence/graph.py:265-266 | an object named like a clock: inputs that pass their contracts, and its name leads to the clock |
| GraphOrder.DocumentIgnoresOrder | src/nova_rtl/evidence/graph.py:225-747 | listing clocks, lineage, crossings and paths in another order gives the identical document |
| ClockNames.ClockNameInjective | src/nova_rtl/benchmark/generator.py:165 | no two pairs of domain and ratio share a generated clock name, whatever the domains are called |
| ClockNames.ClockNameIsEntityId | src/nova_rtl/benchmark/constraints.py:68 | a generated name is a valid entity ID exactly when it is at most 96 characters long |
| Clocks.SlotNamesDistinct | src/nova_rtl/benchmark/constraints.py:66-84 | all generated clock names of a configuration are distinct |
| Clocks.SlotMasters | src/nova_rtl/contracts/benchmark.py:173-179 | each master clock gets exactly one generated clock per ratio |
| Clocks.ExpectationAt | src/nova_rtl/benchmark/generator.py:158-201 | domain by domain and ratio by ratio: name, domain, master, ratio, consumer, and an even waveform exactly for an even ratio |
| Clocks.CountPerMaster | src/nova_rtl/contracts/benchmark.py:173-179 | the counting loop counts, and refuses unknown masters |
| Clocks.CheckExpectations | src/nova_rtl/contracts/benchmark.py:157-183 | the validator loop decides the declared consistency of expectations |
| Clocks.BuildExpectations | src/nova_rtl/benchmark/generator.py:158-201 | the nested loops list one expectation per domain and ratio in order |
| Clocks.ExpectationsValidIff | src/nova_rtl/contracts/benchmark.py:157-183 | for a valid configuration the expectations pass their validator exactly when the names fit |
| ClockDocuments.ClockConstraints | src/nova_rtl/benchmark/constraints.py:51-84 | the nested loops build the clock constraints, or a KeyError for an unknown master clock |
| ClockDocuments.RenderConstraints | src/nova_rtl/benchmark/constraints.py:193-240 | exact outcome of building the contract: unknown clock, identity mismatch, validation failure or the contract |
| ClockDocuments.CheckInventory | src/nova_rtl/contracts/analysis.py:267-309 | the validator loop decides the declared completeness of a clock inventory |
| ClockDocuments.ContractValidIff | src/nova_rtl/contracts/benchmark.py:267-295 | for a valid configuration over the known clocks the SDC contract passes its validator exactly when names fit |
| ClockDocuments.InventoryValidIff | src/nova_rtl/contracts/analysis.py:267-309 | for a valid configuration over the known clocks the inventory passes its validator exactly when names fit |
| ClockDocuments.DocumentsListTheSameClocks | src/nova_rtl/benchmark/generator.py:426-490 | expectations, contract and inventory list the same clocks in the same order |
| ClockDocuments.DocumentsValidIff | src/nova_rtl/contracts/benchmark.py:267-295 | all three documents are valid together exactly when the derived names fit |
| ClockDocuments.SdcWaveformIsInventoryWaveform | src/nova_rtl/benchmark/constraints.py:69 | divide-by and edge list both describe period rT with a fall at T*((r+1)//2); the edge list names rising master edges only |
| ClockDocuments.EverySlotAgrees | src/nova_rtl/benchmark/generator.py:443-463 | clock by clock, contract and inventory agree in name, domain, master, ratio and waveform |
| ClockDocuments.ContractAt | src/nova_rtl/benchmark/constraints.py:51-84 | every master and generated clock constraint, field by field, and each master in an asynchronous group of its own |
| ClockDocuments.ExceptionAt | src/nova_rtl/benchmark/constraints.py:154-191 | each reviewed exception runs from exactly the clocks generated for a domain, in the order of the ratios, to the master clock they come from |
| ClockDocuments.InventoryAt | src/nova_rtl/benchmark/generator.py:426-490 | every inventory entry, field by field, and a lineage that runs from master to generated clock |
| ClockDocuments.LookUpIsIdentity | src/nova_rtl/benchmark/generator.py:442 | with unique IDs the lookup through the dictionary changes nothing |
| ClockAudit.StagePassesIff | src/nova_rtl/constraints/clocks.py:50-106 | a compilation boundary passes exactly when it shows every expected clock, nothing else and nothing twice |
| ClockAudit.ConstructSucceedsIff | src/nova_rtl/constraints/clocks.py:109-159 | the inventory is sealed exactly when both stages pass, and is then the expectation, sorted |
| ClockAudit.ErrorsExplain | src/nova_rtl/constraints/clocks.py:50-159 | every error says what is the case: wrong stages, other clocks or properties than expected, other ancestors, or a malformed candidate ID |
| ClockAudit.ConstructIgnoresOrder | src/nova_rtl/constraints/clocks.py:125-145 | the outcome does not depend on the order of observation |
| ClockAudit.ConstructIsIdempotent | src/nova_rtl/constraints/clocks.py:109-159 | sealing against the sealed inventory returns it |
| ClockAudit.CanonicalValid | src/nova_rtl/contracts/analysis.py:267-309 | sorting a valid inventory leaves it valid |
| Binding.AuditSucceedsIff | src/nova_rtl/constraints/binding.py:53-173 | the audit succeeds exactly on a sound input, its ID and hash formats included, that agrees with its baseline; then timed and excepted endpoints split the sequential ones and their counts add up |
| Binding.ManifestStates | src/nova_rtl/constraints/binding.py:109-175 | the manifest holds the identities of the input, the expected commands in their order with a binding of each resolution, and how many endpoints are sequential, timed and excepted |
| Binding.ErrorsExplain | src/nova_rtl/constraints/binding.py:53-158 | every error says what is the case; a validation error, that the manifest would not pass its validators |
| Binding.AuditOutputIsValid | src/nova_rtl/contracts/verification.py:33-108 | what the audit returns passes the validators and the ID and hash formats of manifest, commands and coverage |
| Binding.AuditIgnoresOrder | src/nova_rtl/constraints/binding.py:87-122 | the outcome, errors included, does not depend on the order of commands and endpoints nor on order or repetition of resolved objects |
| Binding.OwnOutputIsBaseline | src/nova_rtl/constraints/binding.py:129-158 | an audited manifest is accepted as the baseline of its own input |
| Binding.AcceptanceIsTransitive | src/nova_rtl/constraints/binding.py:129-158 | acceptance against audited baselines chains |
| Binding.MatchesMeansSameIntent | src/nova_rtl/constraints/binding.py:129-158 | comparison with an audited baseline accepts exactly the same commands on the same objects, view names, file and counts, as long as no two command texts share a hash |
| JsonPointer.IsRfc6901 | src/nova_rtl/contracts/base.py:142-156 | the index-stepping scan accepts exactly the grammar of section 3 of RFC 6901 |
| JsonPointer.PointerIffScan | src/nova_rtl/contracts/base.py:148-155 | the declarative grammar and the scan condition coincide |
| JsonPointer.AcceptedIffPrinted | src/nova_rtl/contracts/base.py:142-156 | a string is accepted exactly when it is the escaped printing of a token list, and then of exactly one |
| JsonPointer.TokensInvertsRender | src/nova_rtl/contracts/base.py:142-156 | decoding by section 4 of RFC 6901 undoes printing for every token list |
| JsonPointer.RenderInvertsTokens | src/nova_rtl/contracts/base.py:142-156 | printing undoes decoding for every accepted pointer |
| Summary.SummaryFields | src/nova_rtl/adapters/base.py:222-255 | the section scan computes the specified field map or error |
| Summary.SummarySucceedsIff | src/nova_rtl/adapters/base.py:222-255 | it succeeds exactly when both markers are there with lines between them, every nonblank one a well-formed field with a key of its own; the map then has exactly those fields, and each error has its condition |
| Summary.FieldsSpec | src/nova_rtl/adapters/base.py:239-255 | the loop collects exactly the fields of the nonblank lines |
| Summary.ParseLineIff | src/nova_rtl/adapters/base.py:241-253 | a line is a field exactly when something other than spaces stands on both sides of its first colon |
| Summary.SummaryInvertsPrinting | src/nova_rtl/baseline/execution.py:471-491 | reading undoes printing for any nonempty list of trimmed fields with distinct colon-free keys, behind arbitrary other output: the map has exactly these keys and values |
| Vcd.CanonicalizeVcd | src/nova_rtl/benchmark/power.py:63-80 | the line loop computes the canonical text |
| Vcd.CanonicalizesItems | src/nova_rtl/benchmark/power.py:68-79 | plain lines keep their order and lose trailing whitespace only; every date section, closed or not, becomes the same three lines |
| Vcd.EveryDumpHasItems | src/nova_rtl/benchmark/power.py:66-79 | every list of lines is made of plain lines and date sections |
| Vcd.DatesDoNotMatter | src/nova_rtl/benchmark/power.py:68-79 | dumps that differ only inside date sections come out equal |
| Vcd.CanonicalIsIdempotent | src/nova_rtl/benchmark/power.py:63-80 | canonicalizing twice is canonicalizing once |

## Left out

- Store: directory creation, symbolic links and other non-regular files at a blob path, which `_verify_path` refuses, media type and classification metadata, and loss of unsynced data on power failure; a crash here ends processes, not the disk.
- StoreRuns.DriveToReturn: other schedules of short writes and clashing temp names need more system calls; the bound is for one schedule that every state allows.
- Store: that a temp file survives its owner's crash is modelled, its later cleanup is not, because the source has none.
- SQLite internals: storage classes other than those declared, NULLs, busy timeouts, and VACUUM; transactions are serialised and a failed `INSERT ... DEFAULT` never occurs.
- Ledger: the decode loop of `iter_records` has the shape of the one of `iter_events`; only its rows and its order are modelled.
- Replay: the schema registry behind payload verification is one abstract test per event.
- Freeze.CopyPrefix: a ledger has at most 2^63 - 1 rows, which is SQLite's own limit.
- Freeze: two freezes of one run at the same time; the source does not lock the freeze.
- Freeze: index fields other than stage references and the event of the last update; their hash is computed from them.
- Techmap: flop mapping, `dfflibmap` and all of Yosys; the report is modelled as its parsed lines, not as text matched by regular expressions.
- Calibrate: measuring with Yosys, publishing the report and validating the selected scale.
- Cascade: hashes are abstract functions of event and result bodies, so that they match is by construction.
- Aggregation: finite-float validation; a metric is a real or absent.
- Graph: hashing, serialisation, compression and publication of the document; the identity and candidate checks of `_validated_inputs`, which compare fields of separately validated records.
- Graph: `Graph.BuildNeighbors` is proved against the relation that the specification uses instead of being called by it.
- GraphOrder.DocumentIgnoresOrder: spans, mapped objects, connectivity edges and views are not relisted, because their validators allow one order only.
- Clock documents: content hashes, the SDC text itself, delay values and selector lists that are constants.
- Clocks: divider ratios are naturals; negative ones are refused by the same test as 0 and 1.
- Binding: selectors, which the audit ignores, and the formats of the hashes that it computes itself; malformed command and object IDs, which the input contract already refuses, are refused here when the commands are bound.
- Vcd and Summary: decoding of bytes to text.
- `cdc/inventory.py`, `evaluation/metrics.py`, `evaluation/feasibility.py`, `contracts/migrations.py` and the flat contracts: they would add easier versions of what is here.
- Subprocesses, resource limits, Git, the CLI and the orchestrator are not part of this model.
