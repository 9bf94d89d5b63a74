/** Offline replay (src/nova_rtl/artifacts/replay.py) and the signed event prefix that the
    baseline freeze keeps (src/nova_rtl/baseline/signoff.py). */
module Replay {
  import opened Prelude
  import opened Tables
  import opened Ledger

  datatype ReplayError =
    | UnknownRun | NoRuns | ManyRuns | NoStore | NoEvents | LedgerFailed(error: LedgerError) | NotIncreasing | BadPayload

  /** `_select_run_id`. */
  function SelectRunId(available: seq<string>, requested: Option<string>): Result<string, ReplayError> {
    if requested.Some? then (if requested.value in available then Ok(requested.value) else Err(UnknownRun))
    else if available == [] then Err(NoRuns)
    else if |available| > 1 then Err(ManyRuns)
    else Ok(available[0])
  }

  /** A run is selected only if it has events, and without a request only if it is the one
      run that has any. */
  lemma SelectRunIdSpec(es: seq<EventRow>, requested: Option<string>, run: string)
    ensures SelectRunId(RunIds(es), requested) == Ok(run) <==>
            && (exists e :: e in es && e.runId == run)
            && (requested == Some(run) || (requested.None? && forall e :: e in es ==> e.runId == run))
  {
    var ids := RunIds(es);
    RunIdsSpec(es);
    assert forall i :: 0 <= i < |ids| ==> ids[i] in ids;
    assert run in ids <==> exists e :: e in es && e.runId == run;
    if requested.None? && |ids| > 1 {
      assert ids[0] in ids && ids[1] in ids && ids[0] != ids[1];
      var a :| a in es && a.runId == ids[0];
      var b :| b in es && b.runId == ids[1];
      assert a.runId != b.runId;
    }
    if requested.None? && |ids| == 1 {
      assert forall e :: e in es ==> e.runId in ids;
      assert forall r :: r in ids ==> r == ids[0];
    }
  }

  /** The errors of the selection: a requested run without events, no events at all, or
      events of two runs and no request. */
  lemma SelectRunErrors(es: seq<EventRow>, requested: Option<string>)
    ensures SelectRunId(RunIds(es), requested) == Err(UnknownRun) <==>
            requested.Some? && forall e :: e in es ==> e.runId != requested.value
    ensures SelectRunId(RunIds(es), requested) == Err(NoRuns) <==> requested.None? && es == []
    ensures SelectRunId(RunIds(es), requested) == Err(ManyRuns) <==>
            requested.None? && exists a, b :: a in es && b in es && a.runId != b.runId
  {
    var ids := RunIds(es);
    RunIdsSpec(es);
    if es != [] { assert es[0] in es && es[0].runId in ids; }
    if ids != [] { assert ids[0] in ids; }
    if |ids| > 1 {
      assert ids[0] in ids && ids[1] in ids && ids[0] != ids[1];
      var a :| a in es && a.runId == ids[0];
      var b :| b in es && b.runId == ids[1];
      assert a.runId != b.runId;
    } else if |ids| == 1 {
      assert forall r :: r in ids ==> r == ids[0];
      assert forall e :: e in es ==> e.runId in ids;
    }
  }

  /** The payload artifact of the event opens, and its bytes are a canonical document of
      the schema and version the event declares. */
  type PayloadCheck = Event -> bool

  ghost predicate Increasing(events: seq<Event>) {
    forall i, j :: 0 <= i < j < |events| ==> events[i].sequence < events[j].sequence
  }

  /** The loop of `replay_run` over the events read. */
  method CheckEvents(events: seq<Event>, payloadOk: PayloadCheck) returns (failure: Option<ReplayError>)
    ensures failure.None? <==> Increasing(events) && forall e :: e in events ==> payloadOk(e)
    ensures failure == Some(NotIncreasing) ==> !Increasing(events)
    ensures failure == Some(BadPayload) ==> exists e :: e in events && !payloadOk(e)
    ensures failure.Some? ==> failure.value in {NotIncreasing, BadPayload}
  {
    var previous: Option<int> := None;
    var i := 0;
    while i < |events|
      invariant 0 <= i <= |events|
      invariant previous == if i == 0 then None else Some(events[i - 1].sequence)
      invariant forall k :: 0 <= k < i ==> payloadOk(events[k])
      invariant forall j, k :: 0 <= j < k < i ==> events[j].sequence < events[k].sequence
    {
      if previous.Some? && events[i].sequence <= previous.value { return Some(NotIncreasing); }
      previous := Some(events[i].sequence);
      if !payloadOk(events[i]) { return Some(BadPayload); }
      i := i + 1;
    }
    failure := None;
  }

  /** The events of this run, if all their rows are authentic. */
  function RunEvents(c: Codec<Event>, es: seq<EventRow>, run: string): Result<seq<Event>, LedgerError> {
    ReadAll(c, SelectEvents(es, run))
  }

  lemma ReachableReplay(c: Codec<Event>, db: Db, run: string)
    requires Sound(c) && DbOk(db) && RunEvents(c, db.events, run).Ok?
    ensures Increasing(RunEvents(c, db.events, run).value)
    ensures RunEvents(c, db.events, run).value == [] <==> forall e :: e in db.events ==> e.runId != run
  {
    SortedReadIsAcceptanceOrder(db, run);
    RowsOfKeepsOrder(db.events, run);
    var rows := RowsOf(db.events, run);
    ReadAllFailsOnForeignRows(c, rows);
    if rows != [] { assert rows[0] in rows; }
  }

  /** `replay_run` on a ledger that has its artifact store attached or not. On every
      reachable ledger it returns the selected run's events in acceptance order if and only
      if their rows are authentic and their payloads verify: the other two errors of the
      source cannot occur. */
  method ReplayRun(ledger: ExperimentLedger, requested: Option<string>, hasStore: bool, payloadOk: PayloadCheck)
    returns (r: Result<seq<Event>, ReplayError>)
    requires Sound(ledger.eventCodec)
    ensures var run := SelectRunId(RunIds(ledger.db.events), requested);
            if run.Err? then r == Err(run.error)
            else if !hasStore then r == Err(NoStore)
            else
              var events := RunEvents(ledger.eventCodec, ledger.db.events, run.value);
              if events.Err? then r == Err(LedgerFailed(Integrity))
              else
                && (r.Ok? ==> r.value == events.value)
                && (DbOk(ledger.db) ==> if forall e :: e in events.value ==> payloadOk(e) then r.Ok? else r == Err(BadPayload))
  {
    var run := SelectRunId(RunIds(ledger.db.events), requested);
    if run.Err? { return Err(run.error); }
    if !hasStore { return Err(NoStore); }
    var events, failure := ledger.IterEvents(run.value);
    if failure.Some? { return Err(LedgerFailed(failure.value)); }
    if DbOk(ledger.db) {
      ReachableReplay(ledger.eventCodec, ledger.db, run.value);
      SelectRunIdSpec(ledger.db.events, requested, run.value);
    }
    if events == [] { return Err(NoEvents); }
    var problem := CheckEvents(events, payloadOk);
    r := if problem.Some? then Err(problem.value) else Ok(events);
  }

  // -------------------------------------------------------------------- signed prefix

  datatype SignoffError = Incomplete | Unordered

  function ArtifactsIn(events: seq<Event>, required: set<string>): set<string> {
    set e | e in events && e.artifact in required :: e.artifact
  }

  /** The largest sequence of a signed event. */
  function Boundary(events: seq<Event>, required: set<string>): Option<nat> {
    if events == [] then None
    else
      var rest := Boundary(events[1..], required);
      if events[0].artifact !in required then rest
      else if rest.Some? && rest.value >= events[0].sequence then rest
      else Some(events[0].sequence)
  }

  function UpTo(events: seq<Event>, boundary: nat): seq<Event> {
    if events == [] then []
    else (if events[0].sequence <= boundary then [events[0]] else []) + UpTo(events[1..], boundary)
  }

  predicate SequencesSorted(events: seq<Event>) {
    forall i, j :: 0 <= i < j < |events| ==> events[i].sequence <= events[j].sequence
  }

  /** `_select_m2_event_prefix`; `required` are the values of the signed stage hashes. */
  function SelectPrefix(events: seq<Event>, required: set<string>): Result<seq<Event>, SignoffError> {
    var boundary := Boundary(events, required);
    if ArtifactsIn(events, required) != required || boundary.None? then Err(Incomplete)
    else
      var prefix := UpTo(events, boundary.value);
      if prefix == [] || !SequencesSorted(prefix) then Err(Unordered) else Ok(prefix)
  }

  lemma {:induction false} BoundarySpec(events: seq<Event>, required: set<string>)
    ensures var b := Boundary(events, required);
            && (b.None? <==> forall e :: e in events ==> e.artifact !in required)
            && (b.Some? ==> (exists e :: e in events && e.artifact in required && e.sequence == b.value)
                            && forall e :: e in events && e.artifact in required ==> e.sequence <= b.value)
  {
    if events != [] {
      BoundarySpec(events[1..], required);
      assert events == [events[0]] + events[1..];
      assert events[0] in events && forall e :: e in events[1..] ==> e in events;
    }
  }

  lemma {:induction false} UpToNothing(events: seq<Event>, boundary: nat)
    requires forall e :: e in events ==> e.sequence > boundary
    ensures UpTo(events, boundary) == []
  {
    if events != [] { UpToNothing(events[1..], boundary); }
  }

  lemma {:induction false} UpToIsPrefix(events: seq<Event>, k: nat)
    requires Increasing(events)
    requires k < |events|
    ensures UpTo(events, events[k].sequence) == events[..k + 1]
  {
    if k == 0 {
      UpToNothing(events[1..], events[0].sequence);
      assert events[..1] == [events[0]];
    } else {
      UpToIsPrefix(events[1..], k - 1);
      assert events[1..][..k] == events[1..k + 1];
      assert events[..k + 1] == [events[0]] + events[1..k + 1];
    }
  }

  /** A cut point of the replay: signed events end exactly there. */
  ghost predicate SignedUpTo(events: seq<Event>, required: set<string>, k: nat) {
    && 0 < k <= |events| && events[k - 1].artifact in required
    && forall i :: k <= i < |events| ==> events[i].artifact !in required
  }

  predicate HasArtifact(events: seq<Event>, h: string) { exists e :: e in events && e.artifact == h }

  /** Every signed hash is the payload hash of some event. */
  predicate AllSigned(events: seq<Event>, required: set<string>) {
    forall h :: h in required ==> HasArtifact(events, h)
  }

  lemma ArtifactsInSpec(events: seq<Event>, required: set<string>)
    ensures ArtifactsIn(events, required) == required <==> AllSigned(events, required)
  {
    var found := ArtifactsIn(events, required);
    forall h | h in required ensures h in found <==> HasArtifact(events, h) {
      if HasArtifact(events, h) {
        var e :| e in events && e.artifact == h;
        assert e.artifact in found;
      }
    }
  }

  lemma LastSigned(events: seq<Event>, required: set<string>) returns (k: nat)
    requires Increasing(events) && Boundary(events, required).Some?
    ensures SignedUpTo(events, required, k)
    ensures UpTo(events, Boundary(events, required).value) == events[..k]
    ensures SequencesSorted(events[..k])
  {
    BoundarySpec(events, required);
    var b := Boundary(events, required).value;
    var last :| last in events && last.artifact in required && last.sequence == b;
    var i :| 0 <= i < |events| && events[i] == last;
    UpToIsPrefix(events, i);
    k := i + 1;
  }

  /** On a replay the selection succeeds exactly when something is signed and every signed
      hash occurs; then it is the list-prefix that ends at the last signed event, so the
      shortest one that holds every signed event. */
  lemma SelectPrefixSpec(events: seq<Event>, required: set<string>)
    requires Increasing(events)
    ensures SelectPrefix(events, required).Ok? <==> required != {} && AllSigned(events, required)
    ensures SelectPrefix(events, required).Ok? ==>
            var prefix := SelectPrefix(events, required).value;
            prefix <= events && SignedUpTo(events, required, |prefix|)
    ensures SelectPrefix(events, required).Err? ==> SelectPrefix(events, required).error == Incomplete
  {
    ArtifactsInSpec(events, required);
    BoundarySpec(events, required);
    if Boundary(events, required).Some? {
      var k := LastSigned(events, required);
    } else {
      forall h | h in required ensures !HasArtifact(events, h) {}
    }
  }

  lemma SignedUpToUnique(events: seq<Event>, required: set<string>, j: nat, k: nat)
    requires SignedUpTo(events, required, j) && SignedUpTo(events, required, k)
    ensures j == k
  {
  }

  lemma AllSignedGrows(events: seq<Event>, all: seq<Event>, required: set<string>)
    requires AllSigned(events, required) && events <= all
    ensures AllSigned(all, required)
  {
    forall h | h in required ensures HasArtifact(all, h) {
      assert HasArtifact(events, h);
      var e :| e in events && e.artifact == h;
      assert e in all;
    }
  }

  /** The selection described by its length alone. */
  lemma SelectionLength(events: seq<Event>, required: set<string>) returns (k: nat)
    requires Increasing(events) && SelectPrefix(events, required).Ok?
    ensures required != {} && AllSigned(events, required) && SignedUpTo(events, required, k)
    ensures SelectPrefix(events, required).value == events[..k]
  {
    SelectPrefixSpec(events, required);
    k := |SelectPrefix(events, required).value|;
  }

  lemma SelectionIs(events: seq<Event>, required: set<string>, k: nat)
    requires Increasing(events) && required != {} && AllSigned(events, required) && SignedUpTo(events, required, k)
    ensures SelectPrefix(events, required) == Ok(events[..k])
  {
    SelectPrefixSpec(events, required);
    var prefix := SelectPrefix(events, required).value;
    SignedUpToUnique(events, required, k, |prefix|);
    assert prefix == events[..|prefix|];
  }

  lemma SignedLonger(events: seq<Event>, later: seq<Event>, required: set<string>, k: nat)
    requires SignedUpTo(events, required, k) && forall e :: e in later ==> e.artifact !in required
    ensures SignedUpTo(events + later, required, k)
  {
  }

  lemma IncreasingPrefix(events: seq<Event>, k: nat)
    requires Increasing(events) && k <= |events|
    ensures Increasing(events[..k])
  {
  }

  lemma LongerSelectionIs(events: seq<Event>, later: seq<Event>, required: set<string>, k: nat)
    requires Increasing(events + later) && required != {} && AllSigned(events, required) && SignedUpTo(events, required, k)
    requires forall e :: e in later ==> e.artifact !in required
    ensures SelectPrefix(events + later, required) == Ok(events[..k])
  {
    AllSignedGrows(events, events + later, required);
    SignedLonger(events, later, required, k);
    SelectionIs(events + later, required, k);
    assert (events + later)[..k] == events[..k];
  }

  /** Whatever unsigned events a run records later, the selection stays the same. */
  lemma LaterUnsignedEventsIgnored(events: seq<Event>, later: seq<Event>, required: set<string>)
    requires Increasing(events + later) && SelectPrefix(events, required).Ok?
    requires forall e :: e in later ==> e.artifact !in required
    ensures SelectPrefix(events + later, required) == SelectPrefix(events, required)
  {
    IncreasingPrefix(events + later, |events|);
    assert (events + later)[..|events|] == events;
    var k := SelectionLength(events, required);
    LongerSelectionIs(events, later, required, k);
  }

  /** Selecting from the selection changes nothing. */
  lemma SelectPrefixIdempotent(events: seq<Event>, required: set<string>)
    requires Increasing(events) && SelectPrefix(events, required).Ok?
    ensures var prefix := SelectPrefix(events, required).value;
            Increasing(prefix) && SelectPrefix(prefix, required) == Ok(prefix)
  {
    var k := SelectionLength(events, required);
    IncreasingPrefix(events, k);
    AllSignedWithin(events, required, k);
    SignedUpToItself(events, required, k);
    WholeSelection(events[..k], required);
  }

  lemma SignedUpToItself(events: seq<Event>, required: set<string>, k: nat)
    requires SignedUpTo(events, required, k)
    ensures SignedUpTo(events[..k], required, |events[..k]|)
  {
  }

  lemma WholeSelection(prefix: seq<Event>, required: set<string>)
    requires Increasing(prefix) && required != {} && AllSigned(prefix, required) && SignedUpTo(prefix, required, |prefix|)
    ensures SelectPrefix(prefix, required) == Ok(prefix)
  {
    SelectionIs(prefix, required, |prefix|);
    assert prefix[..|prefix|] == prefix;
  }

  lemma AllSignedWithin(events: seq<Event>, required: set<string>, k: nat)
    requires AllSigned(events, required) && SignedUpTo(events, required, k)
    ensures AllSigned(events[..k], required)
  {
    forall h | h in required ensures HasArtifact(events[..k], h) {
      assert HasArtifact(events, h);
      var e :| e in events && e.artifact == h;
      var i :| 0 <= i < |events| && events[i] == e;
      assert events[..k][i] == e;
    }
  }
}
