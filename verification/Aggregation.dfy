/** Fail-closed aggregation over the required analysis views
    (src/nova_rtl/analysis_views/aggregation.py). */
module Aggregation {
  import opened Prelude

  datatype Check = SETUP | HOLD | POWER

  datatype Contract = Contract(viewId: string, check: Check, required: bool, sdcHash: string, stages: seq<string>)

  /** The field constraints of `AnalysisViewContract` that aggregation relies on. */
  ghost predicate ValidContract(c: Contract) { c.stages != [] && Distinct(c.stages) }

  datatype Status = PASS | FAIL | INCONCLUSIVE | INFRASTRUCTURE_ERROR

  datatype Inputs = Inputs(analysisView: Option<string>, constraints: Option<string>, rtl: Option<string>,
                           design: Option<string>, platform: Option<string>, binding: Option<string>, activity: Option<string>)

  datatype Metrics = Metrics(setupWns: Option<real>, setupTns: Option<real>, holdWns: Option<real>, holdTns: Option<real>,
                             power: Option<real>)

  datatype StageResult = StageResult(viewId: Option<string>, stage: string, status: Status, diagnostics: seq<string>,
                                     runId: string, candidateId: string, inputs: Inputs, metrics: Metrics)

  /** What a caller may have put under a stage name. */
  datatype Entry = Typed(result: StageResult) | Untyped

  type Results = map<string, map<string, Entry>>

  datatype Error =
    | DuplicateViews | NoSetupView | NoHoldView | MissingView | MissingStage | NotTyped | ViewLabel | StageLabel
    | NotMeasured | IdentityMismatch | IncompleteIdentity | NoActivity | NoPower | NoWns | NoTns | EmptyView | MixedIdentity | MixedActivity

  datatype Envelope = Envelope(run: string, candidate: string, rtl: string, design: string, platform: string, binding: string)

  /** One measured number of one required stage of one required view: a slack with its TNS,
      or a power. */
  datatype Reading = Reading(viewId: string, stage: string, value: real, tns: Option<real>)

  datatype PerView = PerView(check: Check, reading: Reading)

  datatype Aggregate = Aggregate(candidateId: string, setup: Reading, hold: Reading, power: Option<Reading>,
                                 perView: map<string, PerView>)

  /** The canonical hash of a contract. */
  type ViewHash = Contract -> string

  const VIOLATION_CODES := {"TIMING_SETUP_VIOLATION", "TIMING_HOLD_VIOLATION", "PHYSICAL_TIMING_VIOLATION"}

  /** `is_complete_measured_timing_violation`. */
  predicate MeasuredViolation(r: StageResult) {
    && r.status == FAIL
    && r.stage in {"OPENSTA_FULL", "OPENROAD_PHYSICAL"}
    && r.diagnostics != [] && forall d :: d in r.diagnostics ==> d in VIOLATION_CODES
  }

  // --------------------------------------------------------------------- specification

  function EnvelopeOf(r: StageResult): Option<Envelope> {
    var i := r.inputs;
    if i.rtl.None? || i.design.None? || i.platform.None? || i.binding.None? then None
    else Some(Envelope(r.runId, r.candidateId, i.rtl.value, i.design.value, i.platform.value, i.binding.value))
  }

  /** Why the entry under this stage name is unacceptable, in the order of the tests. */
  function StageProblem(hash: ViewHash, c: Contract, entries: map<string, Entry>, stage: string): Option<Error> {
    if stage !in entries then Some(MissingStage)
    else if entries[stage].Untyped? then Some(NotTyped)
    else
      var r := entries[stage].result;
      if r.viewId != Some(c.viewId) then Some(ViewLabel)
      else if r.stage != stage then Some(StageLabel)
      else if r.status != PASS && !MeasuredViolation(r) then Some(NotMeasured)
      else if r.inputs.analysisView != Some(hash(c)) || r.inputs.constraints != Some(c.sdcHash) then Some(IdentityMismatch)
      else if EnvelopeOf(r).None? then Some(IncompleteIdentity)
      else None
  }

  /** Why the number itself is missing. */
  function ReadingProblem(c: Contract, r: StageResult): Option<Error> {
    match c.check
    case POWER => if r.inputs.activity.None? then Some(NoActivity) else if r.metrics.power.None? then Some(NoPower) else None
    case SETUP => if r.metrics.setupWns.None? then Some(NoWns) else if r.metrics.setupTns.None? then Some(NoTns) else None
    case HOLD => if r.metrics.holdWns.None? then Some(NoWns) else if r.metrics.holdTns.None? then Some(NoTns) else None
  }

  function ReadingOf(c: Contract, r: StageResult, stage: string): Reading
    requires ReadingProblem(c, r).None?
  {
    match c.check
    case POWER => Reading(c.viewId, stage, r.metrics.power.value, None)
    case SETUP => Reading(c.viewId, stage, r.metrics.setupWns.value, r.metrics.setupTns)
    case HOLD => Reading(c.viewId, stage, r.metrics.holdWns.value, r.metrics.holdTns)
  }

  /** First problem among these stages. */
  function StagesProblem(hash: ViewHash, c: Contract, entries: map<string, Entry>, stages: seq<string>): Option<Error> {
    if stages == [] then None
    else
      var p := StageProblem(hash, c, entries, stages[0]);
      if p.Some? then p else StagesProblem(hash, c, entries, stages[1..])
  }

  predicate Clear(hash: ViewHash, c: Contract, entries: map<string, Entry>, stages: seq<string>) {
    forall s :: s in stages ==> StageProblem(hash, c, entries, s).None?
  }

  lemma {:induction false} StagesProblemSpec(hash: ViewHash, c: Contract, entries: map<string, Entry>, stages: seq<string>)
    ensures StagesProblem(hash, c, entries, stages).None? <==> Clear(hash, c, entries, stages)
  {
    if stages != [] {
      StagesProblemSpec(hash, c, entries, stages[1..]);
      assert stages == [stages[0]] + stages[1..];
    }
  }

  function ReadingsProblem(c: Contract, entries: map<string, Entry>, stages: seq<string>): Option<Error>
    requires forall s :: s in stages ==> s in entries && entries[s].Typed?
  {
    if stages == [] then None
    else
      var p := ReadingProblem(c, entries[stages[0]].result);
      if p.Some? then p else ReadingsProblem(c, entries, stages[1..])
  }

  /** The readings of these stages, in order. */
  function Readings(c: Contract, entries: map<string, Entry>, stages: seq<string>): seq<Reading> {
    if stages == [] then []
    else
      var s := stages[0];
      (if s in entries && entries[s].Typed? && ReadingProblem(c, entries[s].result).None?
       then [ReadingOf(c, entries[s].result, s)] else [])
      + Readings(c, entries, stages[1..])
  }

  /** Slack is worse when smaller, power when larger. */
  function Badness(check: Check, r: Reading): real { if check == POWER then -r.value else r.value }

  /** The worst reading; the first one when several are equally bad. */
  function Worst(check: Check, rs: seq<Reading>): Reading
    requires rs != []
  {
    if |rs| == 1 then rs[0]
    else
      var rest := Worst(check, rs[1..]);
      if Badness(check, rs[0]) <= Badness(check, rest) then rs[0] else rest
  }

  lemma {:induction false} WorstSpec(check: Check, rs: seq<Reading>) returns (k: nat)
    requires rs != []
    ensures k < |rs| && rs[k] == Worst(check, rs)
    ensures forall j :: 0 <= j < |rs| ==> Badness(check, rs[k]) <= Badness(check, rs[j])
    ensures forall j :: 0 <= j < k ==> Badness(check, rs[k]) < Badness(check, rs[j])
  {
    if |rs| == 1 {
      k := 0;
    } else {
      var i := WorstSpec(check, rs[1..]);
      assert forall j :: 1 <= j < |rs| ==> rs[j] == rs[1..][j - 1];
      k := if Badness(check, rs[0]) <= Badness(check, rs[1..][i]) then 0 else i + 1;
    }
  }

  /** The worst of a concatenation is the worst of the two worsts. */
  lemma {:induction false} WorstConcat(check: Check, a: seq<Reading>, b: seq<Reading>)
    requires a != [] && b != []
    ensures Worst(check, a + b) == Worst(check, [Worst(check, a), Worst(check, b)])
  {
    if |a| == 1 {
      assert a + b == [a[0]] + b && (a + b)[1..] == b;
      assert [a[0], Worst(check, b)][1..] == [Worst(check, b)];
    } else {
      WorstConcat(check, a[1..], b);
      assert (a + b)[1..] == a[1..] + b;
      var x, y, z := a[0], Worst(check, a[1..]), Worst(check, b);
      assert [y, z][1..] == [z] && [x, z][1..] == [z];
    }
  }

  /** The result of one required view, or the first problem. */
  function ViewOf(hash: ViewHash, c: Contract, results: Results): Result<seq<Reading>, Error> {
    if c.viewId !in results then Err(MissingView)
    else
      var entries := results[c.viewId];
      var p := StagesProblem(hash, c, entries, c.stages);
      if p.Some? then Err(p.value)
      else
        StagesProblemSpec(hash, c, entries, c.stages);
        var q := ReadingsProblem(c, entries, c.stages);
        if q.Some? then Err(q.value) else Ok(Readings(c, entries, c.stages))
  }

  function RequiredOf(contracts: seq<Contract>): seq<Contract> {
    if contracts == [] then []
    else (if contracts[0].required then [contracts[0]] else []) + RequiredOf(contracts[1..])
  }

  function ViewIds(required: seq<Contract>): seq<string> {
    seq(|required|, i requires 0 <= i < |required| => required[i].viewId)
  }

  predicate Repeats(ids: seq<string>) { exists i, j :: 0 <= i < j < |ids| && ids[i] == ids[j] }

  predicate HasCheck(required: seq<Contract>, check: Check) { exists c :: c in required && c.check == check }

  function ViewResult(hash: ViewHash, c: Contract, results: Results): Result<PerView, Error> {
    match ViewOf(hash, c, results)
    case Err(e) => Err(e)
    case Ok(readings) => if readings == [] then Err(EmptyView) else Ok(PerView(c.check, Worst(c.check, readings)))
  }

  function ContractEnvelopes(c: Contract, results: Results): set<Envelope> {
    if c.viewId in results then StageEnvelopes(results[c.viewId], c.stages) else {}
  }

  function ContractActivities(c: Contract, results: Results): set<string> {
    if c.check == POWER && c.viewId in results then StageActivities(results[c.viewId], c.stages) else {}
  }

  /** The per-view results in order, or the first problem. */
  function Views(hash: ViewHash, required: seq<Contract>, results: Results): Result<seq<PerView>, Error> {
    if required == [] then Ok([])
    else
      match ViewResult(hash, required[0], results)
      case Err(e) => Err(e)
      case Ok(view) =>
        match Views(hash, required[1..], results)
        case Err(e) => Err(e)
        case Ok(rest) => Ok([view] + rest)
  }

  function StageEnvelopes(entries: map<string, Entry>, stages: seq<string>): set<Envelope> {
    if stages == [] then {}
    else
      (if stages[0] in entries && entries[stages[0]].Typed? && EnvelopeOf(entries[stages[0]].result).Some?
       then {EnvelopeOf(entries[stages[0]].result).value} else {})
      + StageEnvelopes(entries, stages[1..])
  }

  function Envelopes(required: seq<Contract>, results: Results): set<Envelope> {
    if required == [] then {}
    else ContractEnvelopes(required[0], results) + Envelopes(required[1..], results)
  }

  function StageActivities(entries: map<string, Entry>, stages: seq<string>): set<string> {
    if stages == [] then {}
    else
      (if stages[0] in entries && entries[stages[0]].Typed? && entries[stages[0]].result.inputs.activity.Some?
       then {entries[stages[0]].result.inputs.activity.value} else {})
      + StageActivities(entries, stages[1..])
  }

  function Activities(required: seq<Contract>, results: Results): set<string> {
    if required == [] then {}
    else ContractActivities(required[0], results) + Activities(required[1..], results)
  }

  /** The readings of the views of one check. */
  function Pick(check: Check, views: seq<PerView>): seq<Reading> {
    if views == [] then []
    else (if views[0].check == check then [views[0].reading] else []) + Pick(check, views[1..])
  }

  function ByView(views: seq<PerView>): map<string, PerView> {
    if views == [] then map[]
    else ByView(views[..|views| - 1])[views[|views| - 1].reading.viewId := views[|views| - 1]]
  }

  /** What one pass of the loop collects, in one value. */
  datatype Collected = Collected(views: seq<PerView>, envelopes: set<Envelope>, activities: set<string>)

  function Conclude(col: Collected): Result<Aggregate, Error> {
    var setups, holds, powers := Pick(SETUP, col.views), Pick(HOLD, col.views), Pick(POWER, col.views);
    if |col.envelopes| != 1 then Err(MixedIdentity)
    else if |col.activities| > 1 then Err(MixedActivity)
    else if setups == [] then Err(NoSetupView)
    else if holds == [] then Err(NoHoldView)
    else
      var e := TheOne(col.envelopes);
      Ok(Aggregate(e.candidate, Worst(SETUP, setups), Worst(HOLD, holds),
                   if powers == [] then None else Some(Worst(POWER, powers)), ByView(col.views)))
  }

  lemma SingletonUnique<T>(s: set<T>)
    requires |s| == 1
    ensures exists x :: x in s
    ensures forall x, y :: x in s && y in s ==> x == y
  {
    var x :| x in s;
    assert |s - {x}| == 0;
    forall y | y in s ensures y == x { assert y !in s - {x}; }
  }

  function TheOne(s: set<Envelope>): (e: Envelope)
    requires |s| == 1
    ensures s == {e}
  {
    SingletonUnique(s);
    var e :| e in s;
    e
  }

  /** `aggregate_required_views`, as a function of its inputs. */
  function AggregateOf(hash: ViewHash, results: Results, contracts: seq<Contract>): Result<Aggregate, Error> {
    var required := RequiredOf(contracts);
    if Repeats(ViewIds(required)) then Err(DuplicateViews)
    else if !HasCheck(required, SETUP) then Err(NoSetupView)
    else if !HasCheck(required, HOLD) then Err(NoHoldView)
    else
      match Views(hash, required, results)
      case Err(e) => Err(e)
      case Ok(views) => Conclude(Collected(views, Envelopes(required, results), Activities(required, results)))
  }

  // ------------------------------------------------------------------------- the loops

  /** The stage loop: every test in turn, collecting the identity envelopes. */
  method CheckStages(hash: ViewHash, c: Contract, entries: map<string, Entry>, before: set<Envelope>)
    returns (problem: Option<Error>, envelopes: set<Envelope>)
    ensures problem == StagesProblem(hash, c, entries, c.stages)
    ensures problem.None? ==> envelopes == before + StageEnvelopes(entries, c.stages)
  {
    problem, envelopes := None, before;
    var i := 0;
    while i < |c.stages|
      invariant 0 <= i <= |c.stages|
      invariant StagesProblem(hash, c, entries, c.stages) == StagesProblem(hash, c, entries, c.stages[i..])
      invariant before + StageEnvelopes(entries, c.stages) == envelopes + StageEnvelopes(entries, c.stages[i..])
    {
      var stage := c.stages[i];
      assert c.stages[i..][0] == stage && c.stages[i..][1..] == c.stages[i + 1..];
      if stage !in entries { return Some(MissingStage), envelopes; }
      if entries[stage].Untyped? { return Some(NotTyped), envelopes; }
      var r := entries[stage].result;
      if r.viewId != Some(c.viewId) { return Some(ViewLabel), envelopes; }
      if r.stage != stage { return Some(StageLabel), envelopes; }
      if r.status != PASS && !MeasuredViolation(r) { return Some(NotMeasured), envelopes; }
      if r.inputs.analysisView != Some(hash(c)) || r.inputs.constraints != Some(c.sdcHash) {
        return Some(IdentityMismatch), envelopes;
      }
      var envelope := EnvelopeOf(r);
      if envelope.None? { return Some(IncompleteIdentity), envelopes; }
      envelopes := envelopes + {envelope.value};
      i := i + 1;
    }
  }

  /** What the stages from here on add to the readings and activities collected so far. */
  ghost predicate Remaining(c: Contract, entries: map<string, Entry>, before: set<string>, stages: seq<string>,
                            measured: seq<Reading>, activities: set<string>, rest: seq<string>)
    requires forall s :: s in stages + rest ==> s in entries && entries[s].Typed?
  {
    && ReadingsProblem(c, entries, stages) == ReadingsProblem(c, entries, rest)
    && Readings(c, entries, stages) == measured + Readings(c, entries, rest)
    && (if c.check == POWER then before + StageActivities(entries, stages) == activities + StageActivities(entries, rest)
        else activities == before)
  }

  lemma MeasureStep(c: Contract, entries: map<string, Entry>, before: set<string>, stages: seq<string>,
                    measured: seq<Reading>, activities: set<string>, rest: seq<string>)
    requires forall s :: s in stages + rest ==> s in entries && entries[s].Typed?
    requires rest != [] && Remaining(c, entries, before, stages, measured, activities, rest)
    requires ReadingProblem(c, entries[rest[0]].result).None?
    ensures var r := entries[rest[0]].result;
            Remaining(c, entries, before, stages, measured + [ReadingOf(c, r, rest[0])],
                      activities + (if c.check == POWER then {r.inputs.activity.value} else {}), rest[1..])
  {
    var r := entries[rest[0]].result;
    assert Readings(c, entries, rest) == [ReadingOf(c, r, rest[0])] + Readings(c, entries, rest[1..]);
    if c.check == POWER {
      assert StageActivities(entries, rest) == {r.inputs.activity.value} + StageActivities(entries, rest[1..]);
    }
  }

  /** The measuring loop over the checked stages. */
  method MeasureStages(c: Contract, entries: map<string, Entry>, before: set<string>)
    returns (problem: Option<Error>, measured: seq<Reading>, activities: set<string>)
    requires forall s :: s in c.stages ==> s in entries && entries[s].Typed?
    ensures problem == ReadingsProblem(c, entries, c.stages)
    ensures problem.None? ==>
              && measured == Readings(c, entries, c.stages)
              && activities == before + (if c.check == POWER then StageActivities(entries, c.stages) else {})
  {
    problem, measured, activities := None, [], before;
    var i := 0;
    while i < |c.stages|
      invariant 0 <= i <= |c.stages|
      invariant Remaining(c, entries, before, c.stages, measured, activities, c.stages[i..])
    {
      var stage := c.stages[i];
      assert c.stages[i..][0] == stage && c.stages[i..][1..] == c.stages[i + 1..];
      var r := entries[stage].result;
      if ReadingProblem(c, r).Some? { return ReadingProblem(c, r), measured, activities; }
      MeasureStep(c, entries, before, c.stages, measured, activities, c.stages[i..]);
      if c.check == POWER { activities := activities + {r.inputs.activity.value}; }
      measured := measured + [ReadingOf(c, r, stage)];
      i := i + 1;
    }
  }

  function Prepend(done: seq<PerView>, rest: Result<seq<PerView>, Error>): Result<seq<PerView>, Error> {
    if rest.Err? then rest else Ok(done + rest.value)
  }

  /** One turn of the contract loop. */
  method CollectView(hash: ViewHash, c: Contract, results: Results, envelopes0: set<Envelope>, activities0: set<string>)
    returns (r: Result<PerView, Error>, envelopes: set<Envelope>, activities: set<string>)
    ensures r == ViewResult(hash, c, results)
    ensures r.Ok? ==> envelopes == envelopes0 + ContractEnvelopes(c, results)
                      && activities == activities0 + ContractActivities(c, results)
  {
    envelopes, activities := envelopes0, activities0;
    if c.viewId !in results { return Err(MissingView), envelopes, activities; }
    var entries := results[c.viewId];
    var problem, measured;
    problem, envelopes := CheckStages(hash, c, entries, envelopes);
    if problem.Some? { return Err(problem.value), envelopes, activities; }
    StagesProblemSpec(hash, c, entries, c.stages);
    problem, measured, activities := MeasureStages(c, entries, activities);
    if problem.Some? { return Err(problem.value), envelopes, activities; }
    if measured == [] { return Err(EmptyView), envelopes, activities; }
    r := Ok(PerView(c.check, Worst(c.check, measured)));
  }

  lemma ViewsStep(hash: ViewHash, required: seq<Contract>, results: Results, i: nat, views: seq<PerView>)
    requires i < |required|
    ensures var v := ViewResult(hash, required[i], results);
            Prepend(views, Views(hash, required[i..], results))
              == if v.Err? then Err(v.error) else Prepend(views + [v.value], Views(hash, required[i + 1..], results))
    ensures Envelopes(required[i..], results) == ContractEnvelopes(required[i], results) + Envelopes(required[i + 1..], results)
    ensures Activities(required[i..], results) == ContractActivities(required[i], results) + Activities(required[i + 1..], results)
  {
    var rest := required[i..];
    assert rest[0] == required[i] && rest[1..] == required[i + 1..];
    var v := ViewResult(hash, required[i], results);
    var tail := Views(hash, required[i + 1..], results);
    if v.Ok? && tail.Ok? { assert views + ([v.value] + tail.value) == views + [v.value] + tail.value; }
  }

  /** The loop over the required contracts. */
  method CollectViews(hash: ViewHash, required: seq<Contract>, results: Results)
    returns (problem: Option<Error>, views: seq<PerView>, envelopes: set<Envelope>, activities: set<string>)
    ensures Views(hash, required, results) == if problem.Some? then Err(problem.value) else Ok(views)
    ensures problem.None? ==> envelopes == Envelopes(required, results) && activities == Activities(required, results)
  {
    problem, envelopes, activities, views := None, {}, {}, [];
    var i := 0;
    assert required[0..] == required;
    ghost var all := Views(hash, required, results);
    assert Prepend([], all) == all by { if all.Ok? { assert [] + all.value == all.value; } }
    while i < |required|
      invariant 0 <= i <= |required|
      invariant all == Prepend(views, Views(hash, required[i..], results))
      invariant Envelopes(required, results) == envelopes + Envelopes(required[i..], results)
      invariant Activities(required, results) == activities + Activities(required[i..], results)
    {
      ViewsStep(hash, required, results, i, views);
      var view;
      view, envelopes, activities := CollectView(hash, required[i], results, envelopes, activities);
      if view.Err? {
        problem := Some(view.error);
        return;
      }
      views := views + [view.value];
      i := i + 1;
    }
    assert required[i..] == [] && views + [] == views;
  }

  method AggregateRequiredViews(hash: ViewHash, results: Results, contracts: seq<Contract>) returns (r: Result<Aggregate, Error>)
    ensures r == AggregateOf(hash, results, contracts)
  {
    var required := RequiredOf(contracts);
    if Repeats(ViewIds(required)) { return Err(DuplicateViews); }
    if !HasCheck(required, SETUP) { return Err(NoSetupView); }
    if !HasCheck(required, HOLD) { return Err(NoHoldView); }
    var problem, views, envelopes, activities := CollectViews(hash, required, results);
    if problem.Some? { return Err(problem.value); }
    r := Conclude(Collected(views, envelopes, activities));
  }

  // --------------------------------------------------------------------- main theorems

  /** All readings of one check over every required view and stage, in order. */
  function AllReadings(check: Check, required: seq<Contract>, results: Results): seq<Reading> {
    if required == [] then []
    else
      (if required[0].check == check && required[0].viewId in results
       then Readings(required[0], results[required[0].viewId], required[0].stages) else [])
      + AllReadings(check, required[1..], results)
  }

  lemma CombineWorst(check: Check, here: seq<Reading>, rest: seq<Reading>, chosen: seq<Reading>)
    requires here != [] && (chosen == [] <==> rest == [])
    requires chosen != [] ==> Worst(check, chosen) == Worst(check, rest)
    ensures Worst(check, [Worst(check, here)] + chosen) == Worst(check, here + rest)
  {
    var first := [Worst(check, here)];
    if rest == [] {
      assert here + rest == here && first + chosen == first;
    } else {
      WorstConcat(check, here, rest);
      WorstConcat(check, first, chosen);
    }
  }

  lemma PickCons(check: Check, view: PerView, rest: seq<PerView>)
    ensures Pick(check, [view] + rest) == (if view.check == check then [view.reading] + Pick(check, rest) else Pick(check, rest))
  {
    assert ([view] + rest)[1..] == rest;
  }

  lemma AllReadingsCons(check: Check, required: seq<Contract>, results: Results)
    requires required != [] && required[0].viewId in results
    ensures var c := required[0];
            AllReadings(check, required, results)
              == if c.check == check then Readings(c, results[c.viewId], c.stages) + AllReadings(check, required[1..], results)
                 else AllReadings(check, required[1..], results)
  {
  }

  lemma ViewsCons(hash: ViewHash, required: seq<Contract>, results: Results) returns (readings: seq<Reading>)
    requires required != [] && Views(hash, required, results).Ok?
    ensures var c := required[0];
            && Views(hash, required[1..], results).Ok? && c.viewId in results
            && readings == Readings(c, results[c.viewId], c.stages) && readings != []
            && Views(hash, required, results).value
               == [PerView(c.check, Worst(c.check, readings))] + Views(hash, required[1..], results).value
  {
    readings := ViewOf(hash, required[0], results).value;
  }

  /** Choosing per view and then among views is choosing among all view-stage pairs. */
  lemma {:induction false} WorstViewIsWorstPair(hash: ViewHash, check: Check, required: seq<Contract>, results: Results)
    requires Views(hash, required, results).Ok?
    ensures var chosen := Pick(check, Views(hash, required, results).value);
            var all := AllReadings(check, required, results);
            && (chosen == [] <==> all == []) && (chosen == [] <==> !HasCheck(required, check))
            && (chosen != [] ==> Worst(check, chosen) == Worst(check, all))
  {
    if required != [] {
      var c := required[0];
      var here := ViewsCons(hash, required, results);
      var rest := Views(hash, required[1..], results).value;
      WorstViewIsWorstPair(hash, check, required[1..], results);
      PickCons(check, PerView(c.check, Worst(c.check, here)), rest);
      AllReadingsCons(check, required, results);
      assert required == [c] + required[1..];
      if c.check == check {
        CombineWorst(check, here, AllReadings(check, required[1..], results), Pick(check, rest));
      }
    }
  }

  /** When aggregation returns, each reported slack is the smallest of its check over all
      required view-stage pairs, with the TNS measured at that pair (the first such pair in
      contract and stage order), and the power the largest, if any power view is required. */
  lemma AggregateIsWorstPair(hash: ViewHash, results: Results, contracts: seq<Contract>)
    requires AggregateOf(hash, results, contracts).Ok?
    ensures var a := AggregateOf(hash, results, contracts).value;
            var required := RequiredOf(contracts);
            var setups := AllReadings(SETUP, required, results);
            var holds := AllReadings(HOLD, required, results);
            var powers := AllReadings(POWER, required, results);
            && setups != [] && a.setup == Worst(SETUP, setups)
            && holds != [] && a.hold == Worst(HOLD, holds)
            && a.power == (if powers == [] then None else Some(Worst(POWER, powers)))
            && (powers == [] <==> !HasCheck(required, POWER))
  {
    var required := RequiredOf(contracts);
    WorstViewIsWorstPair(hash, SETUP, required, results);
    WorstViewIsWorstPair(hash, HOLD, required, results);
    WorstViewIsWorstPair(hash, POWER, required, results);
  }

  /** There is a typed result under this stage of this view. */
  predicate Has(results: Results, view: string, stage: string) {
    view in results && stage in results[view] && results[view][stage].Typed?
  }

  /** The stage ended well, or failed on nothing but measured timing. */
  predicate Ended(r: StageResult) {
    r.status == PASS ||
    (r.status == FAIL && (r.stage == "OPENSTA_FULL" || r.stage == "OPENROAD_PHYSICAL") && |r.diagnostics| > 0
     && forall k :: 0 <= k < |r.diagnostics| ==>
          || r.diagnostics[k] == "TIMING_SETUP_VIOLATION" || r.diagnostics[k] == "TIMING_HOLD_VIOLATION"
          || r.diagnostics[k] == "PHYSICAL_TIMING_VIOLATION")
  }

  /** The result belongs to the contract's view, and says what it was made from. */
  predicate Identified(hash: ViewHash, c: Contract, i: Inputs) {
    && i.analysisView == Some(hash(c)) && i.constraints == Some(c.sdcHash)
    && i.rtl.Some? && i.design.Some? && i.platform.Some? && i.binding.Some?
  }

  /** The numbers of the contract's check are there. */
  predicate Metered(check: Check, i: Inputs, m: Metrics) {
    && (check == SETUP ==> m.setupWns.Some? && m.setupTns.Some?)
    && (check == HOLD ==> m.holdWns.Some? && m.holdTns.Some?)
    && (check == POWER ==> i.activity.Some? && m.power.Some?)
  }

  /** A required stage of a required view is present, labelled, measured and identified. */
  predicate Present(hash: ViewHash, c: Contract, results: Results, stage: string) {
    && Has(results, c.viewId, stage)
    && var r := results[c.viewId][stage].result;
       && r.viewId == Some(c.viewId) && r.stage == stage && Ended(r)
       && Identified(hash, c, r.inputs) && Metered(c.check, r.inputs, r.metrics)
  }

  lemma EndedMeans(r: StageResult)
    ensures Ended(r) <==> r.status == PASS || MeasuredViolation(r)
  {
    assert forall k :: 0 <= k < |r.diagnostics| ==> r.diagnostics[k] in r.diagnostics;
  }

  /** The tests in their order pass exactly when every requirement is met. */
  lemma PresentMeans(hash: ViewHash, c: Contract, results: Results, stage: string)
    ensures Present(hash, c, results, stage) <==>
            && c.viewId in results && StageProblem(hash, c, results[c.viewId], stage).None?
            && ReadingProblem(c, results[c.viewId][stage].result).None?
  {
    if Has(results, c.viewId, stage) { EndedMeans(results[c.viewId][stage].result); }
  }

  lemma {:induction false} ReadingsProblemSpec(c: Contract, entries: map<string, Entry>, stages: seq<string>)
    requires forall s :: s in stages ==> s in entries && entries[s].Typed?
    ensures ReadingsProblem(c, entries, stages).None? <==> forall s :: s in stages ==> ReadingProblem(c, entries[s].result).None?
    ensures ReadingsProblem(c, entries, stages).None? ==> |Readings(c, entries, stages)| == |stages|
  {
    if stages != [] {
      assert stages == [stages[0]] + stages[1..];
      ReadingsProblemSpec(c, entries, stages[1..]);
    }
  }

  lemma ViewResultSpec(hash: ViewHash, c: Contract, results: Results)
    requires c.stages != []
    ensures ViewResult(hash, c, results).Ok? <==> forall s :: s in c.stages ==> Present(hash, c, results, s)
  {
    forall s ensures Present(hash, c, results, s) <==>
                       && c.viewId in results && StageProblem(hash, c, results[c.viewId], s).None?
                       && ReadingProblem(c, results[c.viewId][s].result).None?
    {
      PresentMeans(hash, c, results, s);
    }
    if c.viewId in results {
      var entries := results[c.viewId];
      StagesProblemSpec(hash, c, entries, c.stages);
      if Clear(hash, c, entries, c.stages) { ReadingsProblemSpec(c, entries, c.stages); }
    } else {
      assert c.stages[0] in c.stages;
    }
  }

  lemma {:induction false} ViewsSpec(hash: ViewHash, required: seq<Contract>, results: Results)
    requires forall c :: c in required ==> c.stages != []
    ensures Views(hash, required, results).Ok? <==>
            forall c :: c in required ==> forall s :: s in c.stages ==> Present(hash, c, results, s)
  {
    if required != [] {
      assert required == [required[0]] + required[1..];
      ViewResultSpec(hash, required[0], results);
      ViewsSpec(hash, required[1..], results);
    }
  }

  /** The identity of the result under this stage of this view. */
  function EnvelopeAt(c: Contract, results: Results, s: string): Option<Envelope> {
    if c.viewId in results && s in results[c.viewId] && results[c.viewId][s].Typed?
    then EnvelopeOf(results[c.viewId][s].result) else None
  }

  function ActivityAt(c: Contract, results: Results, s: string): Option<string> {
    if c.viewId in results && s in results[c.viewId] && results[c.viewId][s].Typed?
    then results[c.viewId][s].result.inputs.activity else None
  }

  lemma {:induction false} StageEnvelopesSpec(c: Contract, results: Results, stages: seq<string>)
    requires c.viewId in results
    ensures forall e :: e in StageEnvelopes(results[c.viewId], stages) <==> exists s :: s in stages && EnvelopeAt(c, results, s) == Some(e)
  {
    if stages != [] {
      assert stages == [stages[0]] + stages[1..];
      StageEnvelopesSpec(c, results, stages[1..]);
      assert stages[0] in stages && forall s :: s in stages[1..] ==> s in stages;
    }
  }

  lemma {:induction false} StageActivitiesSpec(c: Contract, results: Results, stages: seq<string>)
    requires c.viewId in results
    ensures forall h :: h in StageActivities(results[c.viewId], stages) <==> exists s :: s in stages && ActivityAt(c, results, s) == Some(h)
  {
    if stages != [] {
      assert stages == [stages[0]] + stages[1..];
      StageActivitiesSpec(c, results, stages[1..]);
      assert stages[0] in stages && forall s :: s in stages[1..] ==> s in stages;
    }
  }

  lemma {:induction false} EnvelopesSpec(required: seq<Contract>, results: Results)
    ensures forall e :: e in Envelopes(required, results) <==>
              exists c, s :: c in required && s in c.stages && EnvelopeAt(c, results, s) == Some(e)
  {
    if required != [] {
      var c := required[0];
      assert required == [c] + required[1..];
      EnvelopesSpec(required[1..], results);
      if c.viewId in results { StageEnvelopesSpec(c, results, c.stages); }
      forall e | e in ContractEnvelopes(c, results)
        ensures exists c, s :: c in required && s in c.stages && EnvelopeAt(c, results, s) == Some(e)
      {
        var s :| s in c.stages && EnvelopeAt(c, results, s) == Some(e);
        assert c in required;
      }
      forall e | e in Envelopes(required[1..], results)
        ensures exists c, s :: c in required && s in c.stages && EnvelopeAt(c, results, s) == Some(e)
      {
        var d, s :| d in required[1..] && s in d.stages && EnvelopeAt(d, results, s) == Some(e);
        assert d in required;
      }
    }
  }

  lemma {:induction false} ActivitiesSpec(required: seq<Contract>, results: Results)
    ensures forall h :: h in Activities(required, results) <==>
              exists c, s :: c in required && c.check == POWER && s in c.stages && ActivityAt(c, results, s) == Some(h)
  {
    if required != [] {
      var c := required[0];
      assert required == [c] + required[1..];
      ActivitiesSpec(required[1..], results);
      if c.viewId in results { StageActivitiesSpec(c, results, c.stages); }
      forall h | h in ContractActivities(c, results)
        ensures exists c, s :: c in required && c.check == POWER && s in c.stages && ActivityAt(c, results, s) == Some(h)
      {
        var s :| s in c.stages && ActivityAt(c, results, s) == Some(h);
        assert c in required;
      }
      forall h | h in Activities(required[1..], results)
        ensures exists c, s :: c in required && c.check == POWER && s in c.stages && ActivityAt(c, results, s) == Some(h)
      {
        var d, s :| d in required[1..] && d.check == POWER && s in d.stages && ActivityAt(d, results, s) == Some(h);
        assert d in required;
      }
    }
  }

  predicate Carries(r: StageResult, e: Envelope) {
    && r.runId == e.run && r.candidateId == e.candidate && r.inputs.rtl == Some(e.rtl) && r.inputs.design == Some(e.design)
    && r.inputs.platform == Some(e.platform) && r.inputs.binding == Some(e.binding)
  }

  predicate CarriesAt(results: Results, view: string, stage: string, e: Envelope) {
    Has(results, view, stage) && Carries(results[view][stage].result, e)
  }

  /** Every required result carries this one identity: run, candidate and four input hashes. */
  ghost predicate OneIdentity(required: seq<Contract>, results: Results, e: Envelope) {
    forall c, s :: c in required && s in c.stages ==> CarriesAt(results, c.viewId, s, e)
  }

  /** No two required power results name different activities. */
  ghost predicate OneActivity(required: seq<Contract>, results: Results) {
    forall c, s, d, u :: c in required && d in required && c.check == POWER && d.check == POWER && s in c.stages && u in d.stages
      ==> ActivityAt(c, results, s) == ActivityAt(d, results, u)
  }

  lemma SizeOne<T>(s: set<T>, x: T)
    requires x in s && forall y :: y in s ==> y == x
    ensures |s| == 1
  {
    assert s == {x};
  }

  lemma AtMostOne<T(!new)>(s: set<T>)
    ensures |s| <= 1 <==> forall x, y :: x in s && y in s ==> x == y
  {
    if |s| == 1 {
      SingletonUnique(s);
    } else if |s| > 1 {
      var x :| x in s;
      assert |s - {x}| > 0;
      var y :| y in s - {x};
      assert y in s && x != y;
    } else {
      assert s == {};
    }
  }

  lemma {:induction false} RequiredOfSpec(contracts: seq<Contract>)
    ensures forall c :: c in RequiredOf(contracts) <==> c in contracts && c.required
  {
    if contracts != [] {
      RequiredOfSpec(contracts[1..]);
      assert contracts == [contracts[0]] + contracts[1..];
    }
  }

  lemma IdentityIff(required: seq<Contract>, results: Results)
    requires required != [] && forall c :: c in required ==> c.stages != []
    requires forall c, s :: c in required && s in c.stages ==> EnvelopeAt(c, results, s).Some?
    ensures |Envelopes(required, results)| == 1 <==> exists e :: OneIdentity(required, results, e)
    ensures |Envelopes(required, results)| == 1 ==> OneIdentity(required, results, TheOne(Envelopes(required, results)))
  {
    var es := Envelopes(required, results);
    EnvelopesSpec(required, results);
    var c0 := required[0];
    assert c0 in required && c0.stages[0] in c0.stages;
    if |es| == 1 {
      var e := TheOne(es);
      forall c, s | c in required && s in c.stages ensures CarriesAt(results, c.viewId, s, e) {
        assert EnvelopeAt(c, results, s).value in es;
        assert EnvelopeAt(c, results, s) == Some(e);
      }
      assert OneIdentity(required, results, e);
    }
    if e :| OneIdentity(required, results, e) {
      forall c, s | c in required && s in c.stages ensures EnvelopeAt(c, results, s) == Some(e) {
        assert CarriesAt(results, c.viewId, s, e);
      }
      assert EnvelopeAt(c0, results, c0.stages[0]) == Some(e);
      SizeOne(es, e);
    }
  }

  lemma ActivityIff(required: seq<Contract>, results: Results)
    requires forall c, s :: c in required && c.check == POWER && s in c.stages ==> ActivityAt(c, results, s).Some?
    ensures |Activities(required, results)| <= 1 <==> OneActivity(required, results)
  {
    var as_ := Activities(required, results);
    ActivitiesSpec(required, results);
    AtMostOne(as_);
    if |as_| <= 1 {
      forall c, s, d, u | c in required && d in required && c.check == POWER && d.check == POWER && s in c.stages && u in d.stages
        ensures ActivityAt(c, results, s) == ActivityAt(d, results, u)
      {
        assert ActivityAt(c, results, s).value in as_ && ActivityAt(d, results, u).value in as_;
      }
    }
  }

  /** Every mandated stage of every required view is there. */
  ghost predicate Complete(hash: ViewHash, required: seq<Contract>, results: Results) {
    forall c :: c in required ==> forall s :: s in c.stages ==> Present(hash, c, results, s)
  }

  lemma CompleteHasIdentities(hash: ViewHash, required: seq<Contract>, results: Results)
    requires Complete(hash, required, results)
    ensures forall c, s :: c in required && s in c.stages ==> EnvelopeAt(c, results, s).Some?
    ensures forall c, s :: c in required && c.check == POWER && s in c.stages ==> ActivityAt(c, results, s).Some?
  {
    forall c, s | c in required && s in c.stages
      ensures EnvelopeAt(c, results, s).Some? && (c.check == POWER ==> ActivityAt(c, results, s).Some?)
    {
      assert Present(hash, c, results, s);
    }
  }

  lemma ConcludeIff(hash: ViewHash, required: seq<Contract>, results: Results)
    requires Views(hash, required, results).Ok? && HasCheck(required, SETUP) && HasCheck(required, HOLD)
    ensures Conclude(Collected(Views(hash, required, results).value, Envelopes(required, results), Activities(required, results))).Ok?
            <==> |Envelopes(required, results)| == 1 && |Activities(required, results)| <= 1
  {
    WorstViewIsWorstPair(hash, SETUP, required, results);
    WorstViewIsWorstPair(hash, HOLD, required, results);
  }

  /** Aggregation returns exactly when the required views are distinct and include a setup
      and a hold view, every mandated stage of each is present, labelled, measured and bound
      to its contract, all share one identity, and all power results one activity. */
  lemma AggregateIffComplete(hash: ViewHash, results: Results, contracts: seq<Contract>)
    requires forall c :: c in contracts ==> ValidContract(c)
    ensures var required := RequiredOf(contracts);
            AggregateOf(hash, results, contracts).Ok? <==>
              && !Repeats(ViewIds(required)) && HasCheck(required, SETUP) && HasCheck(required, HOLD)
              && Complete(hash, required, results)
              && (exists e :: OneIdentity(required, results, e))
              && OneActivity(required, results)
    ensures AggregateOf(hash, results, contracts).Ok? ==>
              exists e :: OneIdentity(RequiredOf(contracts), results, e)
                          && AggregateOf(hash, results, contracts).value.candidateId == e.candidate
  {
    var required := RequiredOf(contracts);
    RequiredOfSpec(contracts);
    ViewsSpec(hash, required, results);
    if HasCheck(required, SETUP) && HasCheck(required, HOLD) && Complete(hash, required, results) {
      CompleteHasIdentities(hash, required, results);
      IdentityIff(required, results);
      ActivityIff(required, results);
      ConcludeIff(hash, required, results);
    }
  }

  lemma {:induction false} ViewsAt(hash: ViewHash, required: seq<Contract>, results: Results, i: nat)
    requires Views(hash, required, results).Ok? && i < |required|
    ensures var views := Views(hash, required, results).value;
            |views| == |required| && ViewResult(hash, required[i], results) == Ok(views[i])
  {
    var rest := ViewsCons(hash, required, results);
    if i > 0 {
      ViewsAt(hash, required[1..], results, i - 1);
    } else if |required| > 1 {
      ViewsAt(hash, required[1..], results, 0);
    }
  }

  lemma {:induction false} ReadingsViewId(c: Contract, entries: map<string, Entry>, stages: seq<string>)
    ensures forall r :: r in Readings(c, entries, stages) ==> r.viewId == c.viewId
  {
    if stages != [] { ReadingsViewId(c, entries, stages[1..]); }
  }

  lemma ViewResultViewId(hash: ViewHash, c: Contract, results: Results)
    requires ViewResult(hash, c, results).Ok?
    ensures ViewResult(hash, c, results).value.reading.viewId == c.viewId
  {
    var readings := ViewOf(hash, c, results).value;
    ReadingsViewId(c, results[c.viewId], c.stages);
    var k := WorstSpec(c.check, readings);
    assert readings[k] in readings;
  }

  lemma {:induction false} ByViewSpec(views: seq<PerView>)
    requires forall i, j :: 0 <= i < j < |views| ==> views[i].reading.viewId != views[j].reading.viewId
    ensures forall id :: id in ByView(views) <==> exists i :: 0 <= i < |views| && views[i].reading.viewId == id
    ensures forall i :: 0 <= i < |views| ==> views[i].reading.viewId in ByView(views) && ByView(views)[views[i].reading.viewId] == views[i]
  {
    if views != [] { ByViewSpec(views[..|views| - 1]); }
  }

  lemma TableOfViews(hash: ViewHash, required: seq<Contract>, results: Results, views: seq<PerView>)
    requires |views| == |required|
    requires forall i :: 0 <= i < |views| ==> ViewResult(hash, required[i], results) == Ok(views[i])
    requires forall i :: 0 <= i < |views| ==> views[i].reading.viewId == required[i].viewId
    requires forall i, j :: 0 <= i < j < |views| ==> required[i].viewId != required[j].viewId
    ensures forall id :: id in ByView(views) <==> exists c :: c in required && c.viewId == id
    ensures forall c :: c in required ==> c.viewId in ByView(views) && ViewResult(hash, c, results) == Ok(ByView(views)[c.viewId])
  {
    ByViewSpec(views);
    forall id | id in ByView(views) ensures exists c :: c in required && c.viewId == id {
      var i :| 0 <= i < |views| && views[i].reading.viewId == id;
      assert required[i] in required;
    }
    forall c | c in required ensures c.viewId in ByView(views) && ViewResult(hash, c, results) == Ok(ByView(views)[c.viewId]) {
      var i :| 0 <= i < |required| && required[i] == c;
      assert views[i].reading.viewId == c.viewId;
    }
  }

  /** The per-view table has exactly the required views, each with its own worst reading. */
  lemma PerViewTable(hash: ViewHash, results: Results, contracts: seq<Contract>)
    requires AggregateOf(hash, results, contracts).Ok?
    ensures var table := AggregateOf(hash, results, contracts).value.perView;
            var required := RequiredOf(contracts);
            && (forall id :: id in table <==> exists c :: c in required && c.viewId == id)
            && (forall c :: c in required ==> c.viewId in table && ViewResult(hash, c, results) == Ok(table[c.viewId]))
  {
    var required := RequiredOf(contracts);
    var views := Views(hash, required, results).value;
    var ids := ViewIds(required);
    forall i | 0 <= i < |required|
      ensures |views| == |required| && ViewResult(hash, required[i], results) == Ok(views[i])
              && views[i].reading.viewId == required[i].viewId
    {
      ViewsAt(hash, required, results, i);
      ViewResultViewId(hash, required[i], results);
    }
    assert |views| == |required| by { if |required| > 0 { ViewsAt(hash, required, results, 0); } }
    forall i, j | 0 <= i < j < |views| ensures required[i].viewId != required[j].viewId {
      assert ids[i] != ids[j];
    }
    TableOfViews(hash, required, results, views);
  }

  // -------------------------------------------------------------- the numbers themselves

  /** The reading is what the metrics of the stage that it names say. */
  predicate IsMeasured(results: Results, check: Check, r: Reading) {
    && Has(results, r.viewId, r.stage)
    && var m := results[r.viewId][r.stage].result.metrics;
       match check
       case SETUP => m.setupWns == Some(r.value) && m.setupTns == r.tns && r.tns.Some?
       case HOLD => m.holdWns == Some(r.value) && m.holdTns == r.tns && r.tns.Some?
       case POWER => m.power == Some(r.value) && r.tns.None?
  }

  /** What is measured at this stage is there, and no worse than `value`. */
  predicate NoWorse(results: Results, check: Check, view: string, stage: string, value: real) {
    && Has(results, view, stage)
    && var m := results[view][stage].result.metrics;
       match check
       case SETUP => m.setupWns.Some? && value <= m.setupWns.value
       case HOLD => m.holdWns.Some? && value <= m.holdWns.value
       case POWER => m.power.Some? && value >= m.power.value
  }

  /** The reading is measured at a required stage of this check, and none is worse. */
  ghost predicate WorstMeasured(required: seq<Contract>, results: Results, check: Check, r: Reading) {
    && (exists c :: c in required && c.check == check && c.viewId == r.viewId && r.stage in c.stages)
    && IsMeasured(results, check, r)
    && forall c, s :: c in required && c.check == check && s in c.stages ==> NoWorse(results, check, c.viewId, s, r.value)
  }

  lemma {:induction false} ReadingsAre(c: Contract, results: Results, stages: seq<string>)
    requires c.viewId in results
    ensures forall r :: r in Readings(c, results[c.viewId], stages) ==>
              r.viewId == c.viewId && r.stage in stages && IsMeasured(results, c.check, r)
    ensures forall s :: s in stages && Has(results, c.viewId, s) && ReadingProblem(c, results[c.viewId][s].result).None? ==>
              exists r :: r in Readings(c, results[c.viewId], stages) && r.stage == s
  {
    if stages != [] {
      var s := stages[0];
      ReadingsAre(c, results, stages[1..]);
      assert stages == [s] + stages[1..];
      if Has(results, c.viewId, s) && ReadingProblem(c, results[c.viewId][s].result).None? {
        var first := ReadingOf(c, results[c.viewId][s].result, s);
        assert IsMeasured(results, c.check, first) && first in Readings(c, results[c.viewId], stages);
      }
    }
  }

  /** All readings of a check, pair by pair. */
  lemma {:induction false} AllReadingsAre(check: Check, required: seq<Contract>, results: Results)
    ensures forall r :: r in AllReadings(check, required, results) ==>
              && IsMeasured(results, check, r)
              && exists c :: c in required && c.check == check && c.viewId == r.viewId && r.stage in c.stages
    ensures forall c, s :: c in required && c.check == check && s in c.stages
                           && Has(results, c.viewId, s) && ReadingProblem(c, results[c.viewId][s].result).None? ==>
              exists r :: r in AllReadings(check, required, results) && r.viewId == c.viewId && r.stage == s
  {
    if required != [] {
      var first := required[0];
      AllReadingsAre(check, required[1..], results);
      assert required == [first] + required[1..];
      if first.check == check && first.viewId in results { ReadingsAre(first, results, first.stages); }
    }
  }

  lemma ViewOkPresent(hash: ViewHash, c: Contract, results: Results)
    requires ViewResult(hash, c, results).Ok?
    ensures forall s :: s in c.stages ==> Present(hash, c, results, s)
  {
    var entries := results[c.viewId];
    StagesProblemSpec(hash, c, entries, c.stages);
    ReadingsProblemSpec(c, entries, c.stages);
    forall s | s in c.stages ensures Present(hash, c, results, s) { PresentMeans(hash, c, results, s); }
  }

  lemma {:induction false} ViewsOkPresent(hash: ViewHash, required: seq<Contract>, results: Results)
    requires Views(hash, required, results).Ok?
    ensures Complete(hash, required, results)
  {
    if required != [] {
      ViewOkPresent(hash, required[0], results);
      ViewsOkPresent(hash, required[1..], results);
      assert required == [required[0]] + required[1..];
    }
  }

  lemma WorstIsWorstMeasured(hash: ViewHash, check: Check, required: seq<Contract>, results: Results)
    requires Complete(hash, required, results) && AllReadings(check, required, results) != []
    ensures WorstMeasured(required, results, check, Worst(check, AllReadings(check, required, results)))
  {
    var all := AllReadings(check, required, results);
    AllReadingsAre(check, required, results);
    var k := WorstSpec(check, all);
    assert all[k] in all;
    forall c, s | c in required && c.check == check && s in c.stages ensures NoWorse(results, check, c.viewId, s, all[k].value) {
      PresentMeans(hash, c, results, s);
      var r :| r in all && r.viewId == c.viewId && r.stage == s;
      var j :| 0 <= j < |all| && all[j] == r;
      assert IsMeasured(results, check, r) && Badness(check, all[k]) <= Badness(check, all[j]);
    }
  }

  /** On the metrics themselves: the reported setup WNS is a lower bound of the setup WNS of
      every required setup stage and measured, with its own TNS, at the stage it names; hold
      likewise; the reported power is an upper bound, measured likewise, and reported exactly
      if a power view is required. */
  lemma AggregateIsMeasured(hash: ViewHash, results: Results, contracts: seq<Contract>)
    requires AggregateOf(hash, results, contracts).Ok?
    ensures var a := AggregateOf(hash, results, contracts).value;
            var required := RequiredOf(contracts);
            && WorstMeasured(required, results, SETUP, a.setup) && WorstMeasured(required, results, HOLD, a.hold)
            && (a.power.Some? ==> WorstMeasured(required, results, POWER, a.power.value))
            && (a.power.Some? <==> exists c :: c in required && c.check == POWER)
  {
    var required := RequiredOf(contracts);
    AggregateIsWorstPair(hash, results, contracts);
    ViewsOkPresent(hash, required, results);
    WorstIsWorstMeasured(hash, SETUP, required, results);
    WorstIsWorstMeasured(hash, HOLD, required, results);
    if AllReadings(POWER, required, results) != [] { WorstIsWorstMeasured(hash, POWER, required, results); }
  }

  lemma ViewIsMeasured(hash: ViewHash, c: Contract, results: Results)
    requires ViewResult(hash, c, results).Ok?
    ensures var v := ViewResult(hash, c, results).value;
            v.check == c.check && v.reading.viewId == c.viewId && WorstMeasured([c], results, c.check, v.reading)
  {
    var one := ViewsCons(hash, [c], results);
    assert [c][1..] == [] && Readings(c, results[c.viewId], c.stages) + [] == Readings(c, results[c.viewId], c.stages);
    AllReadingsCons(c.check, [c], results);
    ViewOkPresent(hash, c, results);
    ViewResultViewId(hash, c, results);
    WorstIsWorstMeasured(hash, c.check, [c], results);
  }

  /** The per-view table on the metrics: each required view shows the worst number of its own
      check over its own stages, and the stage that it was measured at. */
  lemma PerViewIsMeasured(hash: ViewHash, results: Results, contracts: seq<Contract>)
    requires AggregateOf(hash, results, contracts).Ok?
    ensures var table := AggregateOf(hash, results, contracts).value.perView;
            && (forall id :: id in table <==> exists c :: c in contracts && c.required && c.viewId == id)
            && (forall c :: c in contracts && c.required ==>
                  && c.viewId in table && table[c.viewId].check == c.check && table[c.viewId].reading.viewId == c.viewId
                  && WorstMeasured([c], results, c.check, table[c.viewId].reading))
  {
    PerViewTable(hash, results, contracts);
    RequiredOfSpec(contracts);
    forall c | c in RequiredOf(contracts) && ViewResult(hash, c, results).Ok?
      ensures var v := ViewResult(hash, c, results).value;
              v.check == c.check && v.reading.viewId == c.viewId && WorstMeasured([c], results, c.check, v.reading)
    {
      ViewIsMeasured(hash, c, results);
    }
  }

  // ------------------------------------------------------------------------- the errors

  /** The requirement that the error names is not met at this stage of this contract. */
  predicate Unmet(e: Error, hash: ViewHash, c: Contract, results: Results, stage: string) {
    match e
    case MissingView => c.viewId !in results
    case MissingStage => c.viewId in results && stage !in results[c.viewId]
    case NotTyped => c.viewId in results && stage in results[c.viewId] && results[c.viewId][stage].Untyped?
    case _ => Has(results, c.viewId, stage) && UnmetBy(e, hash, c, results[c.viewId][stage].result, stage)
  }

  predicate UnmetBy(e: Error, hash: ViewHash, c: Contract, r: StageResult, stage: string) {
    match e
    case ViewLabel => r.viewId != Some(c.viewId)
    case StageLabel => r.stage != stage
    case NotMeasured => !Ended(r)
    case IdentityMismatch => r.inputs.analysisView != Some(hash(c)) || r.inputs.constraints != Some(c.sdcHash)
    case IncompleteIdentity => r.inputs.rtl.None? || r.inputs.design.None? || r.inputs.platform.None? || r.inputs.binding.None?
    case NoActivity => c.check == POWER && r.inputs.activity.None?
    case NoPower => c.check == POWER && r.metrics.power.None?
    case NoWns => (c.check == SETUP && r.metrics.setupWns.None?) || (c.check == HOLD && r.metrics.holdWns.None?)
    case NoTns => (c.check == SETUP && r.metrics.setupTns.None?) || (c.check == HOLD && r.metrics.holdTns.None?)
    case _ => false
  }

  ghost predicate SomewhereUnmet(e: Error, hash: ViewHash, required: seq<Contract>, results: Results) {
    exists c, s :: c in required && s in c.stages && Unmet(e, hash, c, results, s)
  }

  /** What the error says is the case. */
  ghost predicate Explains(e: Error, hash: ViewHash, required: seq<Contract>, results: Results) {
    match e
    case DuplicateViews => exists i, j :: 0 <= i < j < |required| && required[i].viewId == required[j].viewId
    case NoSetupView => forall c :: c in required ==> c.check != SETUP
    case NoHoldView => forall c :: c in required ==> c.check != HOLD
    case EmptyView => false
    case MixedIdentity => Complete(hash, required, results) && !exists e :: OneIdentity(required, results, e)
    case MixedActivity => Complete(hash, required, results) && !OneActivity(required, results)
    case _ => SomewhereUnmet(e, hash, required, results)
  }

  lemma {:induction false} StagesProblemUnmet(hash: ViewHash, c: Contract, results: Results, stages: seq<string>)
    requires c.viewId in results && StagesProblem(hash, c, results[c.viewId], stages).Some?
    ensures exists s :: s in stages && Unmet(StagesProblem(hash, c, results[c.viewId], stages).value, hash, c, results, s)
  {
    var p := StageProblem(hash, c, results[c.viewId], stages[0]);
    if p.Some? {
      if Has(results, c.viewId, stages[0]) { EndedMeans(results[c.viewId][stages[0]].result); }
      assert Unmet(p.value, hash, c, results, stages[0]);
    } else {
      StagesProblemUnmet(hash, c, results, stages[1..]);
      var s :| s in stages[1..] && Unmet(StagesProblem(hash, c, results[c.viewId], stages).value, hash, c, results, s);
      assert s in stages;
    }
  }

  lemma {:induction false} ReadingsProblemUnmet(hash: ViewHash, c: Contract, results: Results, stages: seq<string>)
    requires c.viewId in results && forall s :: s in stages ==> s in results[c.viewId] && results[c.viewId][s].Typed?
    requires ReadingsProblem(c, results[c.viewId], stages).Some?
    ensures exists s :: s in stages && Unmet(ReadingsProblem(c, results[c.viewId], stages).value, hash, c, results, s)
  {
    var p := ReadingProblem(c, results[c.viewId][stages[0]].result);
    if p.Some? {
      assert Unmet(p.value, hash, c, results, stages[0]);
    } else {
      ReadingsProblemUnmet(hash, c, results, stages[1..]);
      var s :| s in stages[1..] && Unmet(ReadingsProblem(c, results[c.viewId], stages).value, hash, c, results, s);
      assert s in stages;
    }
  }

  lemma ViewUnmet(hash: ViewHash, c: Contract, results: Results)
    requires c.stages != [] && ViewResult(hash, c, results).Err?
    ensures exists s :: s in c.stages && Unmet(ViewResult(hash, c, results).error, hash, c, results, s)
    ensures UnmetKind(ViewResult(hash, c, results).error)
  {
    if c.viewId !in results {
      assert c.stages[0] in c.stages && Unmet(MissingView, hash, c, results, c.stages[0]);
    } else if StagesProblem(hash, c, results[c.viewId], c.stages).Some? {
      StagesProblemUnmet(hash, c, results, c.stages);
    } else {
      StagesProblemSpec(hash, c, results[c.viewId], c.stages);
      ReadingsProblemSpec(c, results[c.viewId], c.stages);
      ReadingsProblemUnmet(hash, c, results, c.stages);
    }
  }

  /** The errors that one stage can cause. */
  predicate UnmetKind(e: Error) {
    e !in {DuplicateViews, NoSetupView, NoHoldView, EmptyView, MixedIdentity, MixedActivity}
  }

  lemma {:induction false} ViewsUnmet(hash: ViewHash, required: seq<Contract>, results: Results)
    requires (forall c :: c in required ==> c.stages != []) && Views(hash, required, results).Err?
    ensures UnmetKind(Views(hash, required, results).error) && SomewhereUnmet(Views(hash, required, results).error, hash, required, results)
  {
    var c := required[0];
    if ViewResult(hash, c, results).Err? {
      ViewUnmet(hash, c, results);
      assert c in required;
    } else {
      ViewsUnmet(hash, required[1..], results);
      var e := Views(hash, required, results).error;
      var d, s :| d in required[1..] && s in d.stages && Unmet(e, hash, d, results, s);
      assert d in required;
    }
  }

  /** Every error names a requirement that is not met; a view without stages is none of them. */
  lemma ErrorsExplain(hash: ViewHash, results: Results, contracts: seq<Contract>)
    requires forall c :: c in contracts ==> ValidContract(c)
    requires AggregateOf(hash, results, contracts).Err?
    ensures Explains(AggregateOf(hash, results, contracts).error, hash, RequiredOf(contracts), results)
  {
    var required := RequiredOf(contracts);
    RequiredOfSpec(contracts);
    if Repeats(ViewIds(required)) {
      var i, j :| 0 <= i < j < |required| && ViewIds(required)[i] == ViewIds(required)[j];
      assert required[i].viewId == required[j].viewId;
    } else if HasCheck(required, SETUP) && HasCheck(required, HOLD) {
      if Views(hash, required, results).Err? {
        ViewsUnmet(hash, required, results);
      } else {
        ViewsOkPresent(hash, required, results);
        CompleteHasIdentities(hash, required, results);
        IdentityIff(required, results);
        ActivityIff(required, results);
        WorstViewIsWorstPair(hash, SETUP, required, results);
        WorstViewIsWorstPair(hash, HOLD, required, results);
      }
    }
  }

  // ---------------------------------------------------------------------- irrelevance

  /** The two result tables hold the same entries under this contract's stages. */
  predicate Agree(c: Contract, a: Results, b: Results) {
    && (c.viewId in a <==> c.viewId in b)
    && (c.viewId in a ==> forall s :: s in c.stages ==>
          (s in a[c.viewId] <==> s in b[c.viewId]) && (s in a[c.viewId] ==> a[c.viewId][s] == b[c.viewId][s]))
  }

  lemma {:induction false} StagesAgree(hash: ViewHash, c: Contract, x: map<string, Entry>, y: map<string, Entry>, stages: seq<string>)
    requires forall s :: s in stages ==> (s in x <==> s in y) && (s in x ==> x[s] == y[s])
    ensures StagesProblem(hash, c, x, stages) == StagesProblem(hash, c, y, stages)
    ensures Readings(c, x, stages) == Readings(c, y, stages)
    ensures StageEnvelopes(x, stages) == StageEnvelopes(y, stages)
    ensures StageActivities(x, stages) == StageActivities(y, stages)
  {
    if stages != [] {
      assert stages == [stages[0]] + stages[1..];
      StagesAgree(hash, c, x, y, stages[1..]);
    }
  }

  lemma {:induction false} ReadingsProblemAgree(c: Contract, x: map<string, Entry>, y: map<string, Entry>, stages: seq<string>)
    requires forall s :: s in stages ==> s in x && s in y && x[s] == y[s] && x[s].Typed?
    ensures ReadingsProblem(c, x, stages) == ReadingsProblem(c, y, stages)
  {
    if stages != [] {
      assert stages == [stages[0]] + stages[1..];
      ReadingsProblemAgree(c, x, y, stages[1..]);
    }
  }

  lemma ViewAgrees(hash: ViewHash, c: Contract, a: Results, b: Results)
    requires Agree(c, a, b)
    ensures ViewResult(hash, c, a) == ViewResult(hash, c, b)
    ensures ContractEnvelopes(c, a) == ContractEnvelopes(c, b)
    ensures ContractActivities(c, a) == ContractActivities(c, b)
  {
    if c.viewId in a {
      var x, y := a[c.viewId], b[c.viewId];
      StagesAgree(hash, c, x, y, c.stages);
      if StagesProblem(hash, c, x, c.stages).None? {
        StagesProblemSpec(hash, c, x, c.stages);
        StagesProblemSpec(hash, c, y, c.stages);
        ReadingsProblemAgree(c, x, y, c.stages);
      }
    }
  }

  lemma {:induction false} ViewsAgree(hash: ViewHash, required: seq<Contract>, a: Results, b: Results)
    requires forall c :: c in required ==> Agree(c, a, b)
    ensures Views(hash, required, a) == Views(hash, required, b)
    ensures Envelopes(required, a) == Envelopes(required, b)
    ensures Activities(required, a) == Activities(required, b)
  {
    if required != [] {
      assert required == [required[0]] + required[1..];
      ViewAgrees(hash, required[0], a, b);
      ViewsAgree(hash, required[1..], a, b);
    }
  }

  /** Views that are not required, extra views and extra stages cannot affect the result,
      error included: only the required stages of the required views are looked at. */
  lemma OnlyRequiredStagesMatter(hash: ViewHash, a: Results, b: Results, contracts: seq<Contract>, others: seq<Contract>)
    requires RequiredOf(contracts) == RequiredOf(others)
    requires forall c :: c in RequiredOf(contracts) ==> Agree(c, a, b)
    ensures AggregateOf(hash, a, contracts) == AggregateOf(hash, b, others)
  {
    ViewsAgree(hash, RequiredOf(contracts), a, b);
  }
}
