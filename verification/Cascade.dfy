/** The ordered gate cascade and its replayable journal
    (src/nova_rtl/evaluation/cascade.py). */
module Cascade {
  import opened Prelude
  import opened Text

  const GATES: seq<string> := ["0", "0.5", "1", "2", "3", "4", "5", "6", "7"]

  const GATE_NAMES: map<string, string> := map[
    "0" := "PROPOSAL_POLICY", "0.5" := "TRANSFORM_FEASIBILITY", "1" := "SOURCE_PARSE",
    "2" := "STRUCTURAL_INVARIANTS", "3" := "FAST_SYNTHESIS", "4" := "STRICT_FORMAL",
    "5" := "FULL_STA", "6" := "OPENROAD_PHYSICAL", "7" := "FINAL_REPROOF"]

  datatype Status = PASS | FAIL | INCONCLUSIVE | INFRASTRUCTURE_ERROR

  datatype RawAssessment = Assessment(gateId: string, status: Status, stages: seq<string>, diagnostics: seq<string>)

  /** The validators of `GateAssessment`. */
  ghost predicate ValidAssessment(a: RawAssessment) {
    && a.gateId in GATES
    && Distinct(a.stages) && Distinct(a.diagnostics)
    && (a.status != PASS ==> a.diagnostics != [])
  }

  type GateAssessment = a: RawAssessment | ValidAssessment(a) ghost witness Assessment("0", PASS, [], [])

  datatype EventType = GATE_STARTED | GATE_COMPLETED | GATE_FAILED | GATE_INCONCLUSIVE | GATE_INFRASTRUCTURE_ERROR

  /** Everything of an event but its own hash. */
  datatype EventBody = EventBody(candidateId: string, sequence: int, gateId: string, gateName: string,
                                 eventType: EventType, status: Option<Status>, stages: seq<string>, diagnostics: seq<string>)

  datatype GateEvent = GateEvent(body: EventBody, eventHash: string)

  /** The canonical hashes of an event body and of a result body. */
  type EventHash = EventBody -> string
  type ResultHash = ResultBody -> string

  /** The validator of `GateEvent`. */
  predicate ValidEvent(hash: EventHash, e: GateEvent) {
    && e.body.sequence >= 0
    && e.body.gateId in GATE_NAMES && e.body.gateName == GATE_NAMES[e.body.gateId]
    && (if e.body.eventType == GATE_STARTED then e.body.status == None && e.body.stages == [] && e.body.diagnostics == []
        else e.body.status.Some?)
    && e.eventHash == hash(e.body)
  }

  datatype ResultBody = ResultBody(candidateId: string, status: Status, terminalGate: string,
                                   assessments: seq<RawAssessment>, eventHashes: seq<string>)

  datatype EvaluationResult = EvaluationResult(body: ResultBody, resultHash: string)

  function GateIds(assessments: seq<RawAssessment>): seq<string> {
    seq(|assessments|, i requires 0 <= i < |assessments| => assessments[i].gateId)
  }

  /** The validator of `EvaluationResult`. */
  predicate ValidResult(hash: ResultHash, r: EvaluationResult) {
    var attempted := GateIds(r.body.assessments);
    && attempted <= GATES
    && attempted != [] && attempted[|attempted| - 1] == r.body.terminalGate
    && r.body.status == r.body.assessments[|attempted| - 1].status
    && (r.body.status == PASS ==> attempted == GATES)
    && r.resultHash == hash(r.body)
  }

  /** What calling a gate runner leads to. */
  datatype RunnerOutcome = Returns(assessment: GateAssessment) | Raises(errorType: string)

  type Runners = string -> RunnerOutcome

  datatype CascadeError = SinkFailed

  function RunnerError(gate: string, errorType: string): RawAssessment {
    Assessment(gate, INFRASTRUCTURE_ERROR, [], ["GATE_RUNNER_" + Upper(errorType)])
  }

  /** The try block around a runner. */
  function Assess(runners: Runners, gate: string): RawAssessment {
    match runners(gate)
    case Raises(errorType) => RunnerError(gate, errorType)
    case Returns(a) => if a.gateId != gate then RunnerError(gate, "EvaluationCascadeError") else a
  }

  function TerminalType(status: Status): EventType {
    match status
    case PASS => GATE_COMPLETED
    case FAIL => GATE_FAILED
    case INCONCLUSIVE => GATE_INCONCLUSIVE
    case INFRASTRUCTURE_ERROR => GATE_INFRASTRUCTURE_ERROR
  }

  function NameOf(gate: string): string {
    if gate in GATE_NAMES then GATE_NAMES[gate] else ""
  }

  /** `_event`. */
  function Event(hash: EventHash, candidate: string, sequence: int, gate: string, a: Option<RawAssessment>): GateEvent {
    var body :=
      match a
      case None => EventBody(candidate, sequence, gate, NameOf(gate), GATE_STARTED, None, [], [])
      case Some(x) => EventBody(candidate, sequence, gate, NameOf(gate), TerminalType(x.status), Some(x.status), x.stages, x.diagnostics);
    GateEvent(body, hash(body))
  }

  // --------------------------------------------------------------------- specification

  /** The assessments of these gates in order: stop behind the first non-pass. */
  function Attempts(runners: Runners, gates: seq<string>): seq<RawAssessment> {
    if gates == [] then []
    else
      var a := Assess(runners, gates[0]);
      [a] + (if a.status == PASS then Attempts(runners, gates[1..]) else [])
  }

  /** The journal of these assessments when numbering starts at `sequence`. */
  function Journal(hash: EventHash, candidate: string, assessments: seq<RawAssessment>, sequence: int): seq<GateEvent>
    decreases assessments
  {
    if assessments == [] then []
    else
      var a := assessments[0];
      [Event(hash, candidate, sequence, a.gateId, None), Event(hash, candidate, sequence + 1, a.gateId, Some(a))]
      + Journal(hash, candidate, assessments[1..], sequence + 2)
  }

  function ResultOf(hash: ResultHash, candidate: string, assessments: seq<RawAssessment>, events: seq<GateEvent>): EvaluationResult
    requires assessments != []
  {
    var last := assessments[|assessments| - 1];
    var hashes := seq(|events|, i requires 0 <= i < |events| => events[i].eventHash);
    var body := ResultBody(candidate, last.status, last.gateId, assessments, hashes);
    EvaluationResult(body, hash(body))
  }

  /** Replays a journal: each terminal event is one assessment. */
  function Rebuild(events: seq<GateEvent>): seq<RawAssessment> {
    FlatMap(Rebuilt, events)
  }

  function Rebuilt(event: GateEvent): seq<RawAssessment> {
    var b := event.body;
    if b.status.Some? then [Assessment(b.gateId, b.status.value, b.stages, b.diagnostics)] else []
  }

  /** The assessment of a gate whose runner failed: an infrastructure error, without stages
      and with the error's name as its one diagnostic. */
  predicate Broken(gate: string, errorType: string, a: RawAssessment) {
    && a.gateId == gate && a.status == INFRASTRUCTURE_ERROR && a.stages == []
    && |a.diagnostics| == 1 && a.diagnostics[0] == "GATE_RUNNER_" + Upper(errorType)
  }

  /** The assessment is the very one that the runner returned for its own gate; a runner that
      raises or answers for another gate is broken. */
  predicate Reports(runners: Runners, gate: string, a: RawAssessment) {
    match runners(gate)
    case Raises(errorType) => Broken(gate, errorType, a)
    case Returns(own) => if own.gateId == gate then a == own else Broken(gate, "EvaluationCascadeError", a)
  }

  /** The runner answers for its own gate, and the answer is PASS. */
  predicate Passes(runners: Runners, gate: string) {
    runners(gate).Returns? && runners(gate).assessment.gateId == gate && runners(gate).assessment.status == PASS
  }

  /** The gates attempted are those before the first non-pass and that one; nothing after
      it ran, whatever its runner would have done. Each is reported as its runner answered. */
  lemma {:induction false} AttemptsSpec(runners: Runners, gates: seq<string>)
    ensures var done := Attempts(runners, gates);
            && |done| <= |gates| && (gates != [] ==> done != [])
            && (forall k :: 0 <= k < |done| ==> done[k] == Assess(runners, gates[k]) && Reports(runners, gates[k], done[k]))
            && (forall k :: 0 <= k < |done| - 1 ==> done[k].status == PASS)
            && (|done| < |gates| ==> done[|done| - 1].status != PASS)
  {
    if gates != [] && Assess(runners, gates[0]).status == PASS {
      AttemptsSpec(runners, gates[1..]);
    }
  }

  lemma AssessIsValid(runners: Runners, gate: string)
    requires gate in GATES
    ensures ValidAssessment(Assess(runners, gate)) && Assess(runners, gate).gateId == gate
  {
  }

  lemma PassIffAllPass(runners: Runners, gates: seq<string>)
    requires gates != []
    ensures var done := Attempts(runners, gates);
            done != [] && (done[|done| - 1].status == PASS <==> forall g :: g in gates ==> Passes(runners, g))
  {
    var done := Attempts(runners, gates);
    AttemptsSpec(runners, gates);
    var k := |done| - 1;
    assert done[k] == Assess(runners, gates[k]) && gates[k] in gates;
    if done[k].status == PASS {
      forall g | g in gates ensures Passes(runners, g) {
        var j :| 0 <= j < |gates| && gates[j] == g;
        assert Reports(runners, gates[j], done[j]);
      }
    }
  }

  lemma AttemptedInOrder(runners: Runners, gates: seq<string>)
    requires forall g :: g in gates ==> g in GATES
    ensures var done := Attempts(runners, gates);
            && |done| <= |gates| && GateIds(done) == gates[..|done|]
            && (forall a :: a in done ==> ValidAssessment(a))
  {
    var done := Attempts(runners, gates);
    AttemptsSpec(runners, gates);
    forall k | 0 <= k < |done| ensures done[k].gateId == gates[k] && ValidAssessment(done[k]) {
      assert gates[k] in gates;
      AssessIsValid(runners, gates[k]);
    }
  }

  /** Whatever the runners do - raise, or answer for another gate - the nine gates are
      attempted in order up to the first non-pass, the result passes its own validator, and
      it says PASS exactly when all nine runners answer PASS for their own gate. It holds the
      candidate, the assessments and the hash of every event in order. */
  lemma EvaluationIsSound(hash: ResultHash, candidate: string, runners: Runners, events: seq<GateEvent>)
    ensures Attempts(runners, GATES) != []
    ensures ValidResult(hash, ResultOf(hash, candidate, Attempts(runners, GATES), events))
    ensures ResultOf(hash, candidate, Attempts(runners, GATES), events).body.status == PASS <==>
            forall g :: g in GATES ==> Passes(runners, g)
    ensures var body := ResultOf(hash, candidate, Attempts(runners, GATES), events).body;
            && body.candidateId == candidate && body.assessments == Attempts(runners, GATES)
            && |body.eventHashes| == |events|
            && forall k :: 0 <= k < |events| ==> body.eventHashes[k] == events[k].eventHash
  {
    PassIffAllPass(runners, GATES);
    AttemptedInOrder(runners, GATES);
    AttemptsSpec(runners, GATES);
  }

  lemma EventIsValid(hash: EventHash, candidate: string, sequence: nat, gate: string, a: Option<RawAssessment>)
    requires gate in GATES
    ensures ValidEvent(hash, Event(hash, candidate, sequence, gate, a))
  {
  }

  lemma {:induction false} JournalLength(hash: EventHash, candidate: string, done: seq<RawAssessment>, sequence: int)
    ensures |Journal(hash, candidate, done, sequence)| == 2 * |done|
    decreases done
  {
    if done != [] { JournalLength(hash, candidate, done[1..], sequence + 2); }
  }

  /** The n-th event of a journal: events number consecutively, starts and terminals
      alternate, each pair belongs to one gate, and a terminal carries its assessment. */
  lemma {:induction false} JournalAt(hash: EventHash, candidate: string, done: seq<RawAssessment>, sequence: int, n: nat)
    requires n < 2 * |done|
    ensures |Journal(hash, candidate, done, sequence)| == 2 * |done|
    ensures var a := done[n / 2];
            Journal(hash, candidate, done, sequence)[n]
              == Event(hash, candidate, sequence + n, a.gateId, if n % 2 == 0 then None else Some(a))
    decreases done
  {
    JournalLength(hash, candidate, done, sequence);
    if n < 2 {
      JournalHead(hash, candidate, done, sequence);
    } else {
      JournalAt(hash, candidate, done[1..], sequence + 2, n - 2);
      JournalTail(hash, candidate, done, sequence, n);
      assert (n - 2) / 2 == n / 2 - 1 && (n - 2) % 2 == n % 2;
    }
  }

  lemma JournalHead(hash: EventHash, candidate: string, done: seq<RawAssessment>, sequence: int)
    requires done != []
    ensures var j := Journal(hash, candidate, done, sequence);
            && |j| >= 2 && j[0] == Event(hash, candidate, sequence, done[0].gateId, None)
            && j[1] == Event(hash, candidate, sequence + 1, done[0].gateId, Some(done[0]))
  {
  }

  lemma JournalTail(hash: EventHash, candidate: string, done: seq<RawAssessment>, sequence: int, n: nat)
    requires 2 <= n < 2 * |done|
    ensures |Journal(hash, candidate, done, sequence)| == 2 * |done|
    ensures |Journal(hash, candidate, done[1..], sequence + 2)| == 2 * |done| - 2
    ensures Journal(hash, candidate, done, sequence)[n] == Journal(hash, candidate, done[1..], sequence + 2)[n - 2]
  {
    JournalLength(hash, candidate, done, sequence);
    JournalLength(hash, candidate, done[1..], sequence + 2);
  }

  /** The kind of event that ends a gate of this status. */
  predicate Ends(kind: EventType, status: Status) {
    && (kind == GATE_COMPLETED <==> status == PASS) && (kind == GATE_FAILED <==> status == FAIL)
    && (kind == GATE_INCONCLUSIVE <==> status == INCONCLUSIVE)
    && (kind == GATE_INFRASTRUCTURE_ERROR <==> status == INFRASTRUCTURE_ERROR)
  }

  /** Every event of an evaluation's journal passes its validator and carries its candidate,
      its gate, and its own place in the journal as sequence number; even ones start a gate,
      odd ones end it with the kind that its status calls for. */
  lemma JournalIsWellFormed(hash: EventHash, candidate: string, runners: Runners, n: nat)
    requires n < |Journal(hash, candidate, Attempts(runners, GATES), 0)|
    ensures var e := Journal(hash, candidate, Attempts(runners, GATES), 0)[n];
            && ValidEvent(hash, e) && e.body.sequence == n && (e.body.eventType == GATE_STARTED <==> n % 2 == 0)
            && e.body.candidateId == candidate && n / 2 < |GATES| && e.body.gateId == GATES[n / 2]
            && (n % 2 == 1 ==> e.body.status.Some? && Ends(e.body.eventType, e.body.status.value))
  {
    var done := Attempts(runners, GATES);
    AttemptedInOrder(runners, GATES);
    JournalLength(hash, candidate, done, 0);
    JournalAt(hash, candidate, done, 0, n);
    assert done[n / 2].gateId == GateIds(done)[n / 2] == GATES[n / 2];
    assert done[n / 2] in done;
    EventIsValid(hash, candidate, n, done[n / 2].gateId, if n % 2 == 0 then None else Some(done[n / 2]));
  }

  /** A journal of at least one gate is its first pair of events and the journal of the rest. */
  lemma JournalSplits(hash: EventHash, candidate: string, done: seq<RawAssessment>, sequence: int)
    requires done != []
    ensures var j := Journal(hash, candidate, done, sequence);
            && |j| >= 2 && j == [j[0], j[1]] + Journal(hash, candidate, done[1..], sequence + 2)
            && Rebuild([j[0]]) == [] && Rebuild([j[0], j[1]]) == [done[0]]
  {
    var j := Journal(hash, candidate, done, sequence);
    JournalHead(hash, candidate, done, sequence);
    assert j == [j[0], j[1]] + Journal(hash, candidate, done[1..], sequence + 2);
    PairRebuilds(j[0], j[1], done[0]);
  }

  lemma PrefixSplits<T>(j: seq<T>, x: T, y: T, rest: seq<T>, n: nat)
    requires j == [x, y] + rest && 2 <= n <= |j|
    ensures j[..n] == [x, y] + rest[..n - 2]
  {
  }

  lemma DropSplits<T>(done: seq<T>, n: nat, k: nat)
    requires 2 <= n && n / 2 <= |done| && k == (n - 2) / 2
    ensures k < |done| && done[..n / 2] == [done[0]] + done[1..][..k]
  {
    assert n / 2 == 1 + k;
  }

  /** Any prefix of the journal replays to the assessments completed by then; the whole
      journal to all of them. */
  lemma {:induction false} JournalReplays(hash: EventHash, candidate: string, done: seq<RawAssessment>, sequence: int, n: nat)
    requires n <= |Journal(hash, candidate, done, sequence)|
    ensures n / 2 <= |done| && Rebuild(Journal(hash, candidate, done, sequence)[..n]) == done[..n / 2]
    decreases done
  {
    JournalLength(hash, candidate, done, sequence);
    var j := Journal(hash, candidate, done, sequence);
    if n == 0 {
      assert j[..0] == [];
    } else {
      JournalSplits(hash, candidate, done, sequence);
      if n == 1 {
        assert j[..1] == [j[0]];
      } else {
        var rest := Journal(hash, candidate, done[1..], sequence + 2);
        JournalReplays(hash, candidate, done[1..], sequence + 2, n - 2);
        PrefixSplits(j, j[0], j[1], rest, n);
        FlatMapConcat(Rebuilt, [j[0], j[1]], rest[..n - 2]);
        DropSplits(done, n, (n - 2) / 2);
      }
    }
  }

  lemma PairRebuilds(start: GateEvent, end: GateEvent, a: RawAssessment)
    requires start.body.status.None? && end.body.status == Some(a.status)
    requires end.body.gateId == a.gateId && end.body.stages == a.stages && end.body.diagnostics == a.diagnostics
    ensures Rebuild([start]) == [] && Rebuild([start, end]) == [a]
  {
    assert [start, end][1..] == [end] && [end][1..] == [] && [start][1..] == [];
    assert FlatMap(Rebuilt, [end]) == [a];
  }

  // ------------------------------------------------------------------------ evaluation

  function Pair(hash: EventHash, candidate: string, sequence: nat, gate: string, a: RawAssessment): seq<GateEvent> {
    [Event(hash, candidate, sequence, gate, None), Event(hash, candidate, sequence + 1, gate, Some(a))]
  }

  lemma JournalPair(hash: EventHash, candidate: string, done: seq<RawAssessment>, i: nat, room: nat)
    requires i < |done| && room <= 2
    ensures var full := Journal(hash, candidate, done, 0);
            && |full| == 2 * |done|
            && full[2 * i..2 * i + room] == Pair(hash, candidate, 2 * i, done[i].gateId, done[i])[..room]
  {
    JournalLength(hash, candidate, done, 0);
    JournalTwo(hash, candidate, done, i);
    TwoFrom(Journal(hash, candidate, done, 0), 2 * i, room);
  }

  lemma TwoFrom<T>(s: seq<T>, n: nat, room: nat)
    requires n + 2 <= |s| && room <= 2
    ensures s[n..n + room] == [s[n], s[n + 1]][..room]
  {
  }

  lemma JournalTwo(hash: EventHash, candidate: string, done: seq<RawAssessment>, i: nat)
    requires i < |done|
    ensures var full := Journal(hash, candidate, done, 0);
            |full| == 2 * |done| && [full[2 * i], full[2 * i + 1]] == Pair(hash, candidate, 2 * i, done[i].gateId, done[i])
  {
    JournalStart(hash, candidate, done, i, 2 * i);
    JournalEnd(hash, candidate, done, i, 2 * i + 1);
  }

  lemma JournalStart(hash: EventHash, candidate: string, done: seq<RawAssessment>, i: nat, n: nat)
    requires i < |done| && n == 2 * i
    ensures |Journal(hash, candidate, done, 0)| == 2 * |done|
    ensures Journal(hash, candidate, done, 0)[n] == Event(hash, candidate, n, done[i].gateId, None)
  {
    assert n / 2 == i && n % 2 == 0;
    JournalAt(hash, candidate, done, 0, n);
  }

  lemma JournalEnd(hash: EventHash, candidate: string, done: seq<RawAssessment>, i: nat, n: nat)
    requires i < |done| && n == 2 * i + 1
    ensures |Journal(hash, candidate, done, 0)| == 2 * |done|
    ensures Journal(hash, candidate, done, 0)[n] == Event(hash, candidate, n, done[i].gateId, Some(done[i]))
  {
    assert n / 2 == i && n % 2 == 1;
    JournalAt(hash, candidate, done, 0, n);
  }

  lemma AppendNext<T>(base: seq<T>, all: seq<T>, n: nat, m: nat)
    requires n <= m <= |all|
    ensures all[..n] + all[n..m] == all[..m]
    ensures base + all[..n] + all[n..m] == base + all[..m]
  {
  }

  /** What one evaluation sent to its sink and which runners it called: everything if the
      sink took it all, else as far as the sink went along. */
  ghost predicate Evaluated(runners: Runners, hash: EventHash, candidate: string, gates: seq<string>, capacity: nat,
                            sent: seq<GateEvent>, calls: seq<string>, ok: bool)
  {
    var done := Attempts(runners, gates);
    var full := Journal(hash, candidate, done, 0);
    && |done| <= |gates|
    && ok == (capacity >= |full|)
    && (if ok then sent == full && calls == gates[..|done|]
        else sent == full[..capacity] && (capacity + 1) / 2 <= |gates| && calls == gates[..(capacity + 1) / 2])
  }

  class EvaluationCascade {
    const runners: Runners
    const eventHash: EventHash
    const resultHash: ResultHash

    /** What the sink has accepted, over all evaluations. */
    var journal: seq<GateEvent>

    /** The gates whose runners were called. */
    ghost var called: seq<string>

    constructor (runners: Runners, eventHash: EventHash, resultHash: ResultHash)
      ensures this.runners == runners && this.eventHash == eventHash && this.resultHash == resultHash
      ensures journal == [] && called == []
    {
      this.runners, this.eventHash, this.resultHash := runners, eventHash, resultHash;
      journal, called := [], [];
    }

    /** The try block: call the runner and turn its failures into an assessment. */
    method RunGate(gate: string) returns (a: RawAssessment)
      modifies this`called
      ensures a == Assess(runners, gate) && a.gateId == gate && called == old(called) + [gate]
      ensures Reports(runners, gate, a)
    {
      called := called + [gate];
      match runners(gate)
      case Raises(errorType) => a := RunnerError(gate, errorType);
      case Returns(returned) =>
        a := if returned.gateId != gate then RunnerError(gate, "EvaluationCascadeError") else returned;
    }

    /** One turn of the loop: announce, run, report. The sink has room for `room` events. */
    method AttemptGate(candidate: string, sequence: nat, gate: string, room: nat)
      returns (a: RawAssessment, events: seq<GateEvent>, ok: bool)
      modifies this
      ensures var pair := Pair(eventHash, candidate, sequence, gate, Assess(runners, gate));
              && ok == (room >= 2)
              && (ok ==> events == pair[..2] && a == Assess(runners, gate))
              && journal == old(journal) + pair[..if room < 2 then room else 2]
              && called == old(called) + (if room >= 1 then [gate] else [])
    {
      var started := Event(eventHash, candidate, sequence, gate, None);
      a, events, ok := Assess(runners, gate), [started], false;
      if room < 1 { return; }
      journal := journal + [started];
      a := RunGate(gate);
      var terminal := Event(eventHash, candidate, sequence + 1, gate, Some(a));
      events := events + [terminal];
      if room < 2 { return; }
      journal := journal + [terminal];
      ok := true;
    }

    /** The same turn, seen as progress along the full journal. */
    method AttemptNext(candidate: string, gates: seq<string>, i: nat, capacity: nat,
                       ghost done: seq<RawAssessment>, ghost sent: seq<GateEvent>, ghost calls: seq<string>)
      returns (a: RawAssessment, events: seq<GateEvent>, ok: bool)
      requires i < |done| <= |gates| && done[i] == Assess(runners, gates[i]) && 2 * i <= capacity
      requires |Journal(eventHash, candidate, done, 0)| == 2 * |done|
      requires journal == sent + Journal(eventHash, candidate, done, 0)[..2 * i] && called == calls + gates[..i]
      modifies this
      ensures var full := Journal(eventHash, candidate, done, 0);
              && ok == (capacity >= 2 * i + 2)
              && (ok ==> a == done[i] && full[..2 * i] + events == full[..2 * i + 2])
              && journal == sent + full[..if ok then 2 * i + 2 else capacity]
              && called == calls + gates[..if ok then i + 1 else (capacity + 1) / 2]
    {
      ghost var full := Journal(eventHash, candidate, done, 0);
      ghost var room := if capacity - 2 * i < 2 then capacity - 2 * i else 2;
      ghost var ran := if capacity == 2 * i then i else i + 1;
      JournalPair(eventHash, candidate, done, i, room);
      AppendNext(sent, full, 2 * i, 2 * i + room);
      AppendNext(calls, gates, i, ran);
      a, events, ok := AttemptGate(candidate, 2 * i, gates[i], capacity - 2 * i);
      assert !ok ==> ran == (capacity + 1) / 2;
    }

    /** Where the loop of `evaluate` stands in front of its i-th gate. */
    ghost predicate Standing(candidate: string, gates: seq<string>, i: nat, capacity: nat, stopped: bool,
                             assessments: seq<RawAssessment>, events: seq<GateEvent>, sent: seq<GateEvent>, calls: seq<string>)
      reads this
    {
      var done := Attempts(runners, gates);
      var full := Journal(eventHash, candidate, done, 0);
      && i <= |done| <= |gates| && |full| == 2 * |done| && 2 * i <= capacity
      && (if stopped then i == |done| else i == |done| ==> i == |gates|)
      && assessments == done[..i] && events == full[..2 * i]
      && journal == sent + full[..2 * i] && called == calls + gates[..i]
    }

    method Turn(candidate: string, gates: seq<string>, i: nat, capacity: nat, assessments: seq<RawAssessment>,
                events: seq<GateEvent>, ghost sent: seq<GateEvent>, ghost calls: seq<string>)
      returns (a: RawAssessment, pair: seq<GateEvent>, ok: bool)
      requires i < |gates| && Standing(candidate, gates, i, capacity, false, assessments, events, sent, calls)
      modifies this
      ensures ok ==> Standing(candidate, gates, i + 1, capacity, a.status != PASS, assessments + [a], events + pair, sent, calls)
      ensures !ok ==> var full := Journal(eventHash, candidate, Attempts(runners, gates), 0);
                      && capacity < |full| && (capacity + 1) / 2 <= |gates|
                      && journal == sent + full[..capacity] && called == calls + gates[..(capacity + 1) / 2]
    {
      ghost var done := Attempts(runners, gates);
      AttemptsSpec(runners, gates);
      a, pair, ok := AttemptNext(candidate, gates, i, capacity, done, sent, calls);
      assert ok ==> done[..i] + [a] == done[..i + 1];
    }

    /** The loop of `evaluate` over these gates. */
    method RunGates(candidate: string, gates: seq<string>, capacity: nat)
      returns (assessments: seq<RawAssessment>, events: seq<GateEvent>, ok: bool,
               ghost sent: seq<GateEvent>, ghost calls: seq<string>)
      modifies this
      ensures journal == old(journal) + sent && called == old(called) + calls
      ensures Evaluated(runners, eventHash, candidate, gates, capacity, sent, calls, ok)
      ensures ok ==> assessments == Attempts(runners, gates) && events == Journal(eventHash, candidate, assessments, 0)
    {
      ghost var done := Attempts(runners, gates);
      ghost var full := Journal(eventHash, candidate, done, 0);
      AttemptsSpec(runners, gates);
      JournalLength(eventHash, candidate, done, 0);
      assessments, events, ok := [], [], true;
      assert Standing(candidate, gates, 0, capacity, false, assessments, events, old(journal), old(called));
      var i, stopped := 0, false;
      while i < |gates| && !stopped
        invariant Standing(candidate, gates, i, capacity, stopped, assessments, events, old(journal), old(called))
        decreases |gates| - i
      {
        var a, pair;
        a, pair, ok := Turn(candidate, gates, i, capacity, assessments, events, old(journal), old(called));
        if !ok {
          sent, calls := full[..capacity], gates[..(capacity + 1) / 2];
          return;
        }
        assessments, events, stopped := assessments + [a], events + pair, a.status != PASS;
        i := i + 1;
      }
      ok, sent, calls := true, full, gates[..|done|];
    }

    /** `evaluate`, with a sink that raises when it is offered one event more than
        `capacity`. The ghost results are what this call sent and which runners it called. */
    method Evaluate(candidate: string, capacity: nat)
      returns (r: Result<EvaluationResult, CascadeError>, ghost sent: seq<GateEvent>, ghost calls: seq<string>)
      modifies this
      ensures journal == old(journal) + sent && called == old(called) + calls
      ensures Evaluated(runners, eventHash, candidate, GATES, capacity, sent, calls, r.Ok?)
      ensures r.Ok? ==> var done := Attempts(runners, GATES);
                        done != [] && r.value == ResultOf(resultHash, candidate, done, Journal(eventHash, candidate, done, 0))
      ensures r.Err? ==> r.error == SinkFailed
    {
      AttemptsSpec(runners, GATES);
      var assessments, events, ok;
      assessments, events, ok, sent, calls := RunGates(candidate, GATES, capacity);
      r := if ok then Ok(ResultOf(resultHash, candidate, assessments, events)) else Err(SinkFailed);
    }
  }
}
