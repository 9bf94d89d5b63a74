/** The baseline freeze (src/nova_rtl/baseline/signoff.py): copying the signed event prefix
    into a fresh ledger, and publishing ledger and index by two renames. */
module Freeze {
  import opened Prelude
  import opened Tables
  import opened Ledger
  import opened Replay

  // ------------------------------------------------------------------ snapshot ledger

  /** What the prefix of one replayed run looks like. */
  ghost predicate OneRun(events: seq<Event>) {
    && Increasing(events)
    && (forall e :: e in events ==> e.sequence <= MAX_INTEGER && e.runId == events[0].runId)
    && (forall i, j :: 0 <= i < j < |events| ==> events[i].eventId != events[j].eventId)
  }

  lemma NextIsNew(c: Codec<Event>, rows: seq<EventRow>, events: seq<Event>, i: nat)
    requires OneRun(events) && i < |events| && Stores(c, rows, events[..i])
    ensures !EventTaken(rows, events[i]) && !Late(rows, events[i])
  {
    forall r | r in rows ensures r.eventId != events[i].eventId && r.sequence < events[i].sequence {
      var k :| 0 <= k < |rows| && rows[k] == r;
      assert rows[k] == EventRowOf(c, events[..i][k], rows[k].rowid) && events[..i][k] == events[k];
    }
  }

  lemma DenseIsNotFull(es: seq<EventRow>, spare: int)
    requires Dense(es) && |es| < MAX_INTEGER
    ensures !RowidsFull(es, spare)
  {
  }

  /** Appending a replayed prefix to an empty ledger is never refused, as long as the
      ledger's row numbers last, and stores exactly the prefix. */
  method CopyPrefix(eventCodec: Codec<Event>, recordCodec: Codec<Record>, prefix: seq<Event>, spare: Integer)
    returns (snapshot: ExperimentLedger, r: Result<(), LedgerError>)
    requires OneRun(prefix) && |prefix| <= MAX_INTEGER
    ensures r.Ok? && fresh(snapshot) && snapshot.eventCodec == eventCodec
    ensures DbOk(snapshot.db) && Stores(eventCodec, snapshot.db.events, prefix)
  {
    snapshot := new ExperimentLedger(eventCodec, recordCodec, false, Db([], [], 0));
    r := Ok(());
    var i := 0;
    while i < |prefix|
      invariant 0 <= i <= |prefix| && r.Ok? && fresh(snapshot)
      invariant snapshot.eventCodec == eventCodec && !snapshot.readOnly
      invariant DbOk(snapshot.db) && Dense(snapshot.db.events)
      invariant Stores(eventCodec, snapshot.db.events, prefix[..i])
    {
      NextIsNew(eventCodec, snapshot.db.events, prefix, i);
      DenseIsNotFull(snapshot.db.events, spare);
      assert prefix[i] in prefix;
      r := snapshot.AppendEvent(prefix[i], spare);
      assert prefix[..i + 1] == prefix[..i] + [prefix[i]];
      i := i + 1;
    }
    assert prefix[..i] == prefix;
  }

  lemma {:induction false} EventsOfOneRun(events: seq<Event>, run: string)
    requires forall e :: e in events ==> e.runId == run
    ensures EventsOf(events, run) == events
  {
    if events != [] {
      EventsOfOneRun(events[1..], run);
      assert events == [events[0]] + events[1..];
    }
  }

  /** The snapshot replays to exactly the frozen prefix, so to the same digest, without
      naming a run. */
  lemma SnapshotReplaysPrefix(c: Codec<Event>, db: Db, prefix: seq<Event>)
    requires Sound(c) && DbOk(db) && OneRun(prefix) && prefix != [] && Stores(c, db.events, prefix)
    ensures SelectRunId(RunIds(db.events), None) == Ok(prefix[0].runId)
    ensures RunEvents(c, db.events, prefix[0].runId) == Ok(prefix)
  {
    var run := prefix[0].runId;
    ReadReturnsAppended(c, db, prefix, run);
    EventsOfOneRun(prefix, run);
    assert db.events[0] in db.events && db.events[0].runId == run;
    forall e | e in db.events ensures e.runId == run {
      var i :| 0 <= i < |db.events| && db.events[i] == e;
      assert prefix[i] in prefix;
    }
    SelectRunIdSpec(db.events, None, run);
  }

  /** A replayed run's selected prefix is fit to be copied. */
  lemma SelectedPrefixIsOneRun(events: seq<Event>, required: set<string>)
    requires OneRun(events) && SelectPrefix(events, required).Ok?
    ensures OneRun(SelectPrefix(events, required).value)
    ensures SelectPrefix(events, required).value != []
  {
    var k := SelectionLength(events, required);
    PrefixIsOneRun(events, k);
  }

  lemma PrefixIsOneRun(events: seq<Event>, k: nat)
    requires OneRun(events) && k <= |events|
    ensures OneRun(events[..k])
  {
    IncreasingPrefix(events, k);
    var prefix := events[..k];
    forall e | e in prefix ensures e in events {}
  }

  /** Every replay of a reachable ledger is fit to be frozen. */
  lemma ReplayIsOneRun(c: Codec<Event>, db: Db, run: string)
    requires Sound(c) && DbOk(db) && RunEvents(c, db.events, run).Ok?
    ensures OneRun(RunEvents(c, db.events, run).value)
  {
    var events := RunEvents(c, db.events, run).value;
    ReachableReplay(c, db, run);
    SortedReadIsAcceptanceOrder(db, run);
    RowsOfKeepsOrder(db.events, run);
    var rows := RowsOf(db.events, run);
    ReadAllFailsOnForeignRows(c, rows);
    forall i | 0 <= i < |events|
      ensures rows[i] in db.events && rows[i].runId == run && rows[i] == EventRowOf(c, events[i], rows[i].rowid)
    {
      assert rows[i] in rows;
    }
    forall i, j | 0 <= i < j < |events| ensures events[i].eventId != events[j].eventId {
      var a :| 0 <= a < |db.events| && db.events[a] == rows[i];
      var b :| 0 <= b < |db.events| && db.events[b] == rows[j];
      assert a != b;
    }
  }

  // ------------------------------------------------------------ the two-rename commit

  const REQUIRED_STAGES: set<string> := {
    "stage_yosys", "stage_binding", "stage_clock", "stage_cdc", "stage_formal_preflight", "stage_simulation",
    "stage_eqy_smoke", "stage_sby_cdc_properties", "stage_opensta_asap7_setup", "stage_opensta_asap7_hold",
    "stage_openroad_asap7_setup", "stage_openroad_asap7_hold"}

  /** A run index: the payload hash of each stage, and the event it was last updated by. */
  datatype Index = Index(stages: map<string, string>, updatedBy: Option<Event>)

  datatype View = View(index: Index, ledger: seq<Event>)

  datatype FreezeError = Torn | MissingSnapshot | MissingStages | NoPrefix | OsFailure

  /** What a freeze is about to publish. */
  datatype Plan = Plan(prefix: seq<Event>, index: Index)

  datatype Phase =
    | Idle
    | Checking
    | ReadingIndex
    | ReadingLedger(stages: map<string, string>)
    | Copying(plan: Plan, copied: nat)
    | WritingIndex(plan: Plan)
    | RenamingLedger(plan: Plan)
    | RenamingIndex(plan: Plan)
    | Confirming
    | Returned(result: Result<View, FreezeError>)

  /** The run directory and its one freezer. Temporary files have random names that nothing
      else reads, so they need no place here. */
  datatype Dir = Dir(liveIndex: Index, live: seq<Event>, index: Option<Index>, ledger: Option<seq<Event>>, freezer: Phase)

  datatype Move = Append(event: Event) | UpdateIndex(next: Index) | StartFreeze | Step | Fault | Crash

  /** `_m2_evidence_paths`, returning what the two paths lead to. */
  function Resolve(d: Dir, requireFrozen: bool): Result<View, FreezeError> {
    if d.index.Some? != d.ledger.Some? then Err(Torn)
    else if d.index.Some? then Ok(View(d.index.value, d.ledger.value))
    else if requireFrozen then Err(MissingSnapshot)
    else Ok(View(d.liveIndex, d.live))
  }

  function Hashes(stages: map<string, string>): set<string> { stages.Values }

  /** The signed stages of an index, which the projection keeps. */
  function SignedStages(stages: map<string, string>): map<string, string> {
    map s | s in stages && s in REQUIRED_STAGES :: stages[s]
  }

  function PlanFor(stages: map<string, string>, live: seq<Event>): Option<Plan> {
    match SelectPrefix(live, Hashes(stages))
    case Err(_) => None
    case Ok(prefix) => if prefix == [] then None else Some(Plan(prefix, Index(stages, Some(prefix[|prefix| - 1]))))
  }

  /** The next action of `_freeze_m2_evidence`. */
  function FreezerStep(d: Dir): Dir {
    match d.freezer
    case Idle => d
    case Checking =>
      d.(freezer := if d.index.Some? || d.ledger.Some? then Returned(Resolve(d, true)) else ReadingIndex)
    case ReadingIndex =>
      d.(freezer := if !(REQUIRED_STAGES <= d.liveIndex.stages.Keys) then Returned(Err(MissingStages))
                    else ReadingLedger(SignedStages(d.liveIndex.stages)))
    case ReadingLedger(stages) =>
      var plan := PlanFor(stages, d.live);
      d.(freezer := if plan.None? then Returned(Err(NoPrefix)) else Copying(plan.value, 0))
    case Copying(plan, n) => d.(freezer := if n < |plan.prefix| then Copying(plan, n + 1) else WritingIndex(plan))
    case WritingIndex(plan) => d.(freezer := RenamingLedger(plan))
    case RenamingLedger(plan) => d.(ledger := Some(plan.prefix), freezer := RenamingIndex(plan))
    case RenamingIndex(plan) => d.(index := Some(plan.index), freezer := Confirming)
    case Confirming => d.(freezer := Returned(Resolve(d, true)))
    case Returned(_) => d
  }

  function Do(d: Dir, m: Move): Dir {
    match m
    case Append(e) =>
      if |d.live| == 0 || (e.runId == d.live[0].runId && e.sequence > d.live[|d.live| - 1].sequence
                           && forall x :: x in d.live ==> x.eventId != e.eventId)
      then (if e.sequence <= MAX_INTEGER then d.(live := d.live + [e]) else d)
      else d
    case UpdateIndex(next) => d.(liveIndex := next)
    case StartFreeze => if d.freezer.Idle? || d.freezer.Returned? then d.(freezer := Checking) else d
    case Step => FreezerStep(d)
    case Fault => if d.freezer.Idle? || d.freezer.Returned? then d else d.(freezer := Returned(Err(OsFailure)))
    case Crash => d.(freezer := Idle)
  }

  function DoAll(d: Dir, moves: seq<Move>): Dir
    decreases moves
  {
    if moves == [] then d else DoAll(Do(d, moves[0]), moves[1..])
  }

  /** The ledger holds the payload hash of every stage, and ends with one of them. */
  ghost predicate Signs(ledger: seq<Event>, stages: map<string, string>) {
    && ledger != []
    && (forall s :: s in stages ==> HasArtifact(ledger, stages[s]))
    && exists s :: s in stages && stages[s] == ledger[|ledger| - 1].artifact
  }

  /** An index and a ledger that belong together: the index lists exactly the signed stages,
      and the ledger is exactly the signed prefix for them. */
  ghost predicate Matching(index: Index, ledger: seq<Event>, live: seq<Event>) {
    && index.stages.Keys == REQUIRED_STAGES
    && ledger != [] && ledger <= live
    && SelectPrefix(ledger, Hashes(index.stages)) == Ok(ledger) && Signs(ledger, index.stages)
    && index.updatedBy == Some(ledger[|ledger| - 1])
  }

  ghost predicate PhaseFits(d: Dir) {
    match d.freezer
    case ReadingIndex => d.index.None? && d.ledger.None?
    case ReadingLedger(stages) => d.index.None? && d.ledger.None? && stages.Keys == REQUIRED_STAGES
    case Copying(plan, _) => d.index.None? && d.ledger.None? && Matching(plan.index, plan.prefix, d.live)
    case WritingIndex(plan) => d.index.None? && d.ledger.None? && Matching(plan.index, plan.prefix, d.live)
    case RenamingLedger(plan) => d.index.None? && d.ledger.None? && Matching(plan.index, plan.prefix, d.live)
    case RenamingIndex(plan) => d.index.None? && d.ledger == Some(plan.prefix) && Matching(plan.index, plan.prefix, d.live)
    case Confirming => d.index.Some?
    case Returned(result) => ReturnFits(d, result)
    case _ => true
  }

  /** A freeze returns the frozen pair itself, or the error for a torn snapshot if there is
      one; it never reports a missing snapshot. */
  predicate ReturnFits(d: Dir, result: Result<View, FreezeError>) {
    match result
    case Ok(view) => d.index == Some(view.index) && d.ledger == Some(view.ledger)
    case Err(e) => e != MissingSnapshot && (e == Torn ==> d.index.None? && d.ledger.Some?)
  }

  /** No freeze is between its first check and its last rename, or one has just failed. */
  predicate Halted(phase: Phase) {
    phase.Idle? || phase.Checking? || phase == Returned(Err(Torn)) || phase == Returned(Err(OsFailure))
  }

  /** The ledger is published, the index is not, and no live freeze is about to do it. */
  predicate Stuck(d: Dir) { d.index.None? && d.ledger.Some? && Halted(d.freezer) }

  ghost predicate DirOk(d: Dir) {
    && OneRun(d.live)
    && (d.index.None? && d.ledger.Some? ==> d.freezer.RenamingIndex? || Halted(d.freezer))
    && (d.index.Some? ==> d.ledger.Some? && Matching(d.index.value, d.ledger.value, d.live))
    && PhaseFits(d)
  }

  /** A run directory before its first freeze. */
  ghost predicate FreshDir(d: Dir) {
    d.index.None? && d.ledger.None? && d.freezer.Idle? && OneRun(d.live)
  }

  lemma PlanMatches(stages: map<string, string>, live: seq<Event>)
    requires OneRun(live) && stages.Keys == REQUIRED_STAGES && PlanFor(stages, live).Some?
    ensures Matching(PlanFor(stages, live).value.index, PlanFor(stages, live).value.prefix, live)
  {
    SelectPrefixSpec(live, Hashes(stages));
    SelectPrefixIdempotent(live, Hashes(stages));
    PrefixSigns(live, stages);
  }

  /** What the selection for some stages covers, stage by stage. */
  lemma PrefixSigns(live: seq<Event>, stages: map<string, string>)
    requires Increasing(live) && SelectPrefix(live, Hashes(stages)).Ok?
    ensures Signs(SelectPrefix(live, Hashes(stages)).value, stages)
  {
    var prefix := SelectedHolds(live, stages.Values);
    assert forall s :: s in stages ==> stages[s] in stages.Values;
  }

  lemma SelectedHolds(live: seq<Event>, required: set<string>) returns (prefix: seq<Event>)
    requires Increasing(live) && SelectPrefix(live, required).Ok?
    ensures prefix == SelectPrefix(live, required).value && prefix != [] && prefix[|prefix| - 1].artifact in required
    ensures forall h :: h in required ==> HasArtifact(prefix, h)
  {
    var k := SelectionLength(live, required);
    AllSignedWithin(live, required, k);
    prefix := live[..k];
  }

  lemma AppendKeepsOneRun(live: seq<Event>, e: Event)
    requires OneRun(live) && e.sequence <= MAX_INTEGER
    requires |live| == 0 || (e.runId == live[0].runId && e.sequence > live[|live| - 1].sequence
                             && forall x :: x in live ==> x.eventId != e.eventId)
    ensures OneRun(live + [e])
  {
    var all := live + [e];
    forall i, j | 0 <= i < j < |all| ensures all[i].sequence < all[j].sequence && all[i].eventId != all[j].eventId {
      assert all[i] == live[i] && live[i] in live;
    }
  }

  lemma AppendKeepsDirOk(d: Dir, live: seq<Event>)
    requires DirOk(d) && OneRun(live) && d.live <= live
    ensures DirOk(d.(live := live))
  {
  }

  lemma StepKeepsDirOk(d: Dir)
    requires DirOk(d)
    ensures DirOk(FreezerStep(d))
  {
    match d.freezer
    case ReadingLedger(stages) => if PlanFor(stages, d.live).Some? { PlanMatches(stages, d.live); }
    case Checking => LookKeepsDirOk(d);
    case Confirming => LookKeepsDirOk(d);
    case RenamingLedger(_) => RenameKeepsDirOk(d);
    case RenamingIndex(_) => RenameKeepsDirOk(d);
    case _ =>
  }

  lemma LookKeepsDirOk(d: Dir)
    requires DirOk(d) && (d.freezer.Checking? || d.freezer.Confirming?)
    ensures DirOk(FreezerStep(d))
  {
  }

  lemma RenameKeepsDirOk(d: Dir)
    requires DirOk(d) && (d.freezer.RenamingLedger? || d.freezer.RenamingIndex?)
    ensures DirOk(FreezerStep(d))
  {
  }

  lemma DoKeepsDirOk(d: Dir, m: Move)
    requires DirOk(d)
    ensures DirOk(Do(d, m))
  {
    match m
    case Append(e) =>
      if Do(d, m) != d {
        AppendKeepsOneRun(d.live, e);
        AppendKeepsDirOk(d, d.live + [e]);
      }
    case Step => StepKeepsDirOk(d);
    case _ => OtherKeepsDirOk(d, m);
  }

  lemma OtherKeepsDirOk(d: Dir, m: Move)
    requires DirOk(d) && !m.Append? && !m.Step?
    ensures DirOk(Do(d, m))
  {
  }

  lemma {:induction false} DoAllKeepsDirOk(d: Dir, moves: seq<Move>)
    requires DirOk(d)
    ensures DirOk(DoAll(d, moves))
    decreases moves
  {
    if moves != [] {
      DoKeepsDirOk(d, moves[0]);
      DoAllKeepsDirOk(Do(d, moves[0]), moves[1..]);
    }
  }

  /** Whatever frozen files there are and whatever a freeze is doing, the live ledger can grow
      to any longer one of the same run, and the live index can change to any other. */
  lemma {:induction false} LiveFilesGoOn(d: Dir, index: Index, later: seq<Event>) returns (moves: seq<Move>)
    requires OneRun(d.live + later)
    ensures DoAll(d, moves) == d.(liveIndex := index, live := d.live + later)
    decreases later
  {
    if later == [] {
      moves := [UpdateIndex(index)];
      assert d.live + later == d.live && moves[1..] == [];
    } else {
      var e, all := later[0], d.live + later;
      AppendIsAllowed(d.live, later);
      assert d.live + [e] + later[1..] == all;
      moves := LiveFilesGoOn(Do(d, Append(e)), index, later[1..]);
      moves := [Append(e)] + moves;
    }
  }

  lemma AppendIsAllowed(live: seq<Event>, later: seq<Event>)
    requires OneRun(live + later) && later != []
    ensures later[0].sequence <= MAX_INTEGER && forall x :: x in live ==> x.eventId != later[0].eventId
    ensures |live| == 0 || (later[0].runId == live[0].runId && later[0].sequence > live[|live| - 1].sequence)
  {
    var all := live + later;
    assert all[|live|] == later[0] && all[|live|] in all;
    assert forall k :: 0 <= k < |live| ==> all[k] == live[k];
  }

  /** Whenever anybody looks, with a freeze anywhere in flight or dead, the resolved pair is
      live index with live ledger or frozen index with frozen ledger, and a frozen ledger is
      exactly the signed prefix for its own index. */
  lemma ResolutionNeverMixes(start: Dir, moves: seq<Move>, requireFrozen: bool)
    requires FreshDir(start)
    ensures var d := DoAll(start, moves);
            match Resolve(d, requireFrozen)
            case Ok(view) =>
              || (!requireFrozen && view == View(d.liveIndex, d.live) && d.index.None? && d.ledger.None?)
              || (d.index == Some(view.index) && d.ledger == Some(view.ledger) && Matching(view.index, view.ledger, d.live))
            case Err(e) =>
              || (e == Torn && d.index.None? && d.ledger.Some?)
              || (e == MissingSnapshot && requireFrozen && d.index.None? && d.ledger.None?)
  {
    DoAllKeepsDirOk(start, moves);
  }

  lemma FrozenStep(d: Dir, m: Move)
    requires d.index.Some? && PhaseFits(d)
    ensures Do(d, m).index == d.index && Do(d, m).ledger == d.ledger
  {
  }

  /** Whatever happened before, a freeze that returns a pair returns the frozen one: never
      the live files, and never a pair that does not match. */
  lemma FreezeReturnsFrozenPair(start: Dir, moves: seq<Move>)
    requires FreshDir(start)
    ensures var d := DoAll(start, moves);
            d.freezer.Returned? ==>
              match d.freezer.result
              case Ok(view) =>
                d.index == Some(view.index) && d.ledger == Some(view.ledger) && Matching(view.index, view.ledger, d.live)
              case Err(e) => e != MissingSnapshot && (e == Torn ==> d.index.None? && d.ledger.Some?)
  {
    DoAllKeepsDirOk(start, moves);
  }

  predicate Undisturbed(moves: seq<Move>) { forall m :: m in moves ==> !m.Fault? && !m.Crash? }

  lemma AgainStep(d: Dir, m: Move)
    requires d.index.Some? && d.ledger.Some? && !m.Fault? && !m.Crash?
    requires d.freezer.Checking? || d.freezer == Returned(Ok(View(d.index.value, d.ledger.value)))
    ensures var d' := Do(d, m);
            && d'.index == d.index && d'.ledger == d.ledger
            && (d'.freezer.Checking? || d'.freezer == Returned(Ok(View(d.index.value, d.ledger.value))))
            && (m.Step? || (d.freezer.Returned? && !m.StartFreeze?) ==> d'.freezer.Returned?)
  {
  }

  /** A freeze of a run that is already frozen returns the frozen pair, with its first step
      and however the live files have changed. */
  lemma {:induction false} FreezingAgainReturnsThePair(d: Dir, moves: seq<Move>)
    requires d.index.Some? && d.ledger.Some? && Undisturbed(moves)
    requires d.freezer.Checking? || d.freezer == Returned(Ok(View(d.index.value, d.ledger.value)))
    ensures var d' := DoAll(d, moves);
            && (d'.freezer.Checking? || d'.freezer == Returned(Ok(View(d.index.value, d.ledger.value))))
            && ((d.freezer.Returned? || Step in moves) && StartFreeze !in moves ==> d'.freezer.Returned?)
    decreases moves
  {
    if moves != [] {
      assert moves == [moves[0]] + moves[1..];
      AgainStep(d, moves[0]);
      FreezingAgainReturnsThePair(Do(d, moves[0]), moves[1..]);
    }
  }

  /** Once both files exist no freeze, fault, crash or later event alters them. */
  lemma {:induction false} FrozenForever(d: Dir, moves: seq<Move>)
    requires DirOk(d) && d.index.Some?
    ensures DoAll(d, moves).index == d.index && DoAll(d, moves).ledger == d.ledger
    decreases moves
  {
    if moves != [] {
      FrozenStep(d, moves[0]);
      DoKeepsDirOk(d, moves[0]);
      FrozenForever(Do(d, moves[0]), moves[1..]);
    }
  }

  // ------------------------------------------------------------------ two separate probes

  datatype Pair = Live | Frozen

  /** `_m2_evidence_paths` with its probes of the two files at two moments. */
  function ResolvePaths(indexThere: bool, ledgerThere: bool, requireFrozen: bool): Result<Pair, FreezeError> {
    if indexThere != ledgerThere then Err(Torn)
    else if indexThere then Ok(Frozen)
    else if requireFrozen then Err(MissingSnapshot)
    else Ok(Live)
  }

  lemma LedgerStep(d: Dir, m: Move)
    ensures d.ledger.Some? ==> Do(d, m).ledger.Some?
  {
  }

  lemma {:induction false} LedgerStays(d: Dir, moves: seq<Move>)
    requires d.ledger.Some?
    ensures DoAll(d, moves).ledger.Some?
    decreases moves
  {
    if moves != [] {
      LedgerStep(d, moves[0]);
      LedgerStays(Do(d, moves[0]), moves[1..]);
    }
  }

  /** A probe of the index, anything at all, and then a probe of the ledger still never mix
      the pairs: frozen paths hold the matching pair then and for ever, live paths are chosen
      only if no frozen file was there at the first probe. The only new outcome is an error
      while a freeze publishes in between. */
  lemma SeparateProbesNeverMix(start: Dir, before: seq<Move>, between: seq<Move>, after: seq<Move>, requireFrozen: bool)
    requires FreshDir(start)
    ensures var d1 := DoAll(start, before); var d2 := DoAll(d1, between); var d3 := DoAll(d2, after);
            match ResolvePaths(d1.index.Some?, d2.ledger.Some?, requireFrozen)
            case Ok(Frozen) =>
              d1.index.Some? && d3.index == d1.index && d3.ledger == d1.ledger == d2.ledger && d3.ledger.Some?
              && Matching(d3.index.value, d3.ledger.value, d3.live)
            case Ok(Live) => !requireFrozen && d1.index.None? && d1.ledger.None? && d2.index.None? && d2.ledger.None?
            case Err(e) =>
              || (e == Torn && d1.index.None? && d2.ledger.Some?)
              || (e == MissingSnapshot && requireFrozen && d1.index.None? && d1.ledger.None? && d2.index.None? && d2.ledger.None?)
  {
    var d1 := DoAll(start, before);
    var d2 := DoAll(d1, between);
    DoAllKeepsDirOk(start, before);
    DoAllKeepsDirOk(d1, between);
    DoAllKeepsDirOk(d2, after);
    if d1.index.Some? {
      FrozenForever(d1, between);
      FrozenForever(d2, after);
    } else if d1.ledger.Some? {
      LedgerStays(d1, between);
    }
  }

  /** The freeze has found no frozen file and published none. */
  predicate Preparing(phase: Phase) {
    phase.ReadingIndex? || phase.ReadingLedger? || phase.Copying? || phase.WritingIndex? || phase.RenamingLedger?
  }

  /** Which frozen files exist in which phase. */
  predicate Shaped(d: Dir) {
    && (d.index.None? && d.ledger.Some? ==> d.freezer.RenamingIndex? || Halted(d.freezer))
    && (d.index.Some? ==> d.ledger.Some?)
    && (Preparing(d.freezer) ==> d.index.None? && d.ledger.None?)
    && (d.freezer.RenamingIndex? ==> d.index.None? && d.ledger.Some?)
    && (d.freezer.Confirming? ==> d.index.Some?)
  }

  lemma DirIsShaped(d: Dir)
    requires DirOk(d)
    ensures Shaped(d)
  {
  }

  lemma ShapedTear(d: Dir, m: Move)
    requires Shaped(d) && !Stuck(d)
    ensures Stuck(Do(d, m)) <==> (m.Fault? || m.Crash?) && d.freezer.RenamingIndex?
  {
  }

  /** Interrupting a freeze tears the snapshot exactly between its two renames. */
  lemma TornExactlyBetweenRenames(d: Dir, m: Move)
    requires DirOk(d) && !Stuck(d)
    ensures Stuck(Do(d, m)) <==> (m.Fault? || m.Crash?) && d.freezer.RenamingIndex?
  {
    DirIsShaped(d);
    ShapedTear(d, m);
  }

  lemma StuckStep(d: Dir, m: Move)
    requires Stuck(d)
    ensures Stuck(Do(d, m)) && Do(d, m).ledger == d.ledger
  {
  }

  /** A torn snapshot stays torn: no path of the source removes or completes the lone
      ledger, so every later resolution reports it and no later freeze succeeds. */
  lemma {:induction false} TornForever(d: Dir, moves: seq<Move>, requireFrozen: bool)
    requires Stuck(d)
    ensures var d' := DoAll(d, moves);
            Stuck(d') && d'.ledger == d.ledger && Resolve(d', requireFrozen) == Err(Torn)
    decreases moves
  {
    if moves != [] {
      StuckStep(d, moves[0]);
      TornForever(Do(d, moves[0]), moves[1..], requireFrozen);
    }
  }

  // ------------------------------------------------------------------------ completion

  function Remaining(phase: Phase): nat {
    match phase
    case Idle => 0
    case Checking => 0
    case ReadingIndex => 0
    case ReadingLedger(_) => 0
    case Copying(plan, n) => 4 + (if n < |plan.prefix| then |plan.prefix| - n else 0)
    case WritingIndex(_) => 3
    case RenamingLedger(_) => 2
    case RenamingIndex(_) => 1
    case Confirming => 0
    case Returned(_) => 0
  }

  function PlanOf(phase: Phase): Option<Plan> {
    match phase
    case Copying(plan, _) => Some(plan)
    case WritingIndex(plan) => Some(plan)
    case RenamingLedger(plan) => Some(plan)
    case RenamingIndex(plan) => Some(plan)
    case _ => None
  }

  lemma PublishingStep(d: Dir)
    requires PlanOf(d.freezer).Some? && (d.freezer.RenamingIndex? ==> d.ledger == Some(PlanOf(d.freezer).value.prefix))
    ensures var d' := FreezerStep(d);
            && Remaining(d'.freezer) == Remaining(d.freezer) - 1
            && (if d.freezer.RenamingIndex? then d'.freezer.Confirming? && d'.index == Some(PlanOf(d.freezer).value.index)
                                                 && d'.ledger == Some(PlanOf(d.freezer).value.prefix)
                else PlanOf(d'.freezer) == PlanOf(d.freezer))
  {
  }

  function Steps(n: nat): seq<Move> { if n == 0 then [] else [Step] + Steps(n - 1) }

  lemma {:induction false} PublishingCompletes(d: Dir)
    requires DirOk(d) && PlanOf(d.freezer).Some?
    ensures var plan := PlanOf(d.freezer).value;
            DoAll(d, Steps(Remaining(d.freezer) + 1)).freezer == Returned(Ok(View(plan.index, plan.prefix)))
    decreases Remaining(d.freezer)
  {
    var n := Remaining(d.freezer);
    var d1 := FreezerStep(d);
    PublishingStep(d);
    DoKeepsDirOk(d, Step);
    if d.freezer.RenamingIndex? {
      TwoSteps(d);
    } else {
      MoreSteps(d, n);
      PublishingCompletes(d1);
    }
  }

  /** The checks of a first freeze, up to reading the live ledger. */
  lemma FirstChecks(d: Dir, n: nat)
    requires DirOk(d) && d.freezer.Checking? && d.index.None? && d.ledger.None?
    ensures var d2 := d.(freezer := if REQUIRED_STAGES <= d.liveIndex.stages.Keys then ReadingLedger(SignedStages(d.liveIndex.stages))
                                    else Returned(Err(MissingStages)));
            DirOk(d2) && DoAll(d, Steps(n + 2)) == DoAll(d2, Steps(n))
  {
    var d1 := FreezerStep(d);
    StepKeepsDirOk(d);
    StepKeepsDirOk(d1);
    MoreSteps(d, n + 1);
    MoreSteps(d1, n);
  }

  /** From there the freeze ends with its plan, or with an error if there is none. */
  lemma PlanPublished(d: Dir, stages: map<string, string>) returns (n: nat)
    requires DirOk(d) && d.freezer == ReadingLedger(stages)
    ensures var end := DoAll(d, Steps(n));
            && end.freezer.Returned?
            && (if PlanFor(stages, d.live).Some? then end.freezer.result.Ok? else end.freezer.result == Err(NoPrefix))
            && (end.freezer.result.Ok? ==>
                  && end.freezer.result.value.index == PlanFor(stages, d.live).value.index
                  && end.freezer.result.value.ledger == PlanFor(stages, d.live).value.prefix)
  {
    var d1 := FreezerStep(d);
    StepKeepsDirOk(d);
    n := if d1.freezer.Returned? then 1 else 1 + Remaining(d1.freezer) + 1;
    MoreSteps(d, n - 1);
    if !d1.freezer.Returned? { PublishingCompletes(d1); }
  }

  /** The events of all these stages are in the ledger. */
  predicate Recorded(stages: map<string, string>, live: seq<Event>) {
    forall s :: s in stages ==> HasArtifact(live, stages[s])
  }

  /** These stages with the part of the ledger up to the last of their events, and no more. */
  ghost predicate Projects(view: View, stages: map<string, string>, live: seq<Event>) {
    && view.index.stages == stages
    && view.ledger <= live && Signs(view.ledger, stages)
    && view.index.updatedBy == Some(view.ledger[|view.ledger| - 1])
    && forall k, s :: |view.ledger| <= k < |live| && s in stages ==> live[k].artifact != stages[s]
  }

  lemma PlanSpec(stages: map<string, string>, live: seq<Event>)
    requires OneRun(live) && stages.Keys == REQUIRED_STAGES
    ensures PlanFor(stages, live).Some? <==> Recorded(stages, live)
    ensures PlanFor(stages, live).Some? ==>
              Projects(View(PlanFor(stages, live).value.index, PlanFor(stages, live).value.prefix), stages, live)
  {
    SelectPrefixSpec(live, stages.Values);
    RecordedIsSigned(stages, live);
    assert stages["stage_yosys"] in stages.Values;
    if PlanFor(stages, live).Some? {
      PrefixSigns(live, stages);
      NoneSignedLater(stages, live, |PlanFor(stages, live).value.prefix|);
    }
  }

  lemma RecordedIsSigned(stages: map<string, string>, live: seq<Event>)
    ensures Recorded(stages, live) <==> AllSigned(live, stages.Values)
  {
    assert forall s :: s in stages ==> stages[s] in stages.Values;
  }

  lemma NoneSignedLater(stages: map<string, string>, live: seq<Event>, n: nat)
    requires SignedUpTo(live, stages.Values, n)
    ensures forall k, s :: n <= k < |live| && s in stages ==> live[k].artifact != stages[s]
  {
    assert forall s :: s in stages ==> stages[s] in stages.Values;
  }

  /** The freeze has returned: with these stages and their events if those are recorded,
      and with an error otherwise. */
  ghost predicate Concluded(phase: Phase, stages: map<string, string>, live: seq<Event>) {
    && phase.Returned?
    && if Recorded(stages, live) then phase.result.Ok? && Projects(phase.result.value, stages, live)
       else phase.result == Err(NoPrefix)
  }

  lemma FreezeEnds(d: Dir, stages: map<string, string>) returns (n: nat)
    requires DirOk(d) && d.freezer == ReadingLedger(stages)
    ensures Concluded(DoAll(d, Steps(n)).freezer, stages, d.live)
  {
    PlanSpec(stages, d.live);
    n := PlanPublished(d, stages);
  }

  /** A first freeze that nothing disturbs looks at the twelve required stages of the live
      index and at nothing else of it. If one is missing it says so; otherwise it publishes
      them with their signed prefix, if and only if their events are recorded. */
  lemma UndisturbedFreeze(d: Dir) returns (n: nat, stages: map<string, string>)
    requires DirOk(d) && d.freezer.Checking? && d.index.None? && d.ledger.None?
    ensures stages == map s | s in d.liveIndex.stages && s in REQUIRED_STAGES :: d.liveIndex.stages[s]
    ensures if REQUIRED_STAGES <= d.liveIndex.stages.Keys then Concluded(DoAll(d, Steps(n)).freezer, stages, d.live)
            else DoAll(d, Steps(n)).freezer == Returned(Err(MissingStages))
  {
    FirstChecks(d, 0);
    stages := SignedStages(d.liveIndex.stages);
    n := 2;
    if REQUIRED_STAGES <= d.liveIndex.stages.Keys {
      n := FreezeEnds(d.(freezer := ReadingLedger(stages)), stages);
      FirstChecks(d, n);
      n := n + 2;
    }
  }

  lemma MoreSteps(d: Dir, n: nat)
    ensures DoAll(d, Steps(n + 1)) == DoAll(FreezerStep(d), Steps(n))
  {
    assert Steps(n + 1)[0] == Step && Steps(n + 1)[1..] == Steps(n);
  }

  lemma TwoSteps(d: Dir)
    ensures DoAll(d, Steps(2)) == FreezerStep(FreezerStep(d))
  {
    MoreSteps(d, 1);
    MoreSteps(FreezerStep(d), 0);
  }
}
