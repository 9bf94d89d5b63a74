/** The bounded search for a workload scale whose mapped cell count lies in the
    target range (src/nova_rtl/benchmark/calibrate.py). */
module Calibrate {
  import opened Prelude

  const MAX_CALIBRATION_SAMPLES := 12

  datatype Target = Target(minimum: int, maximum: int) {
    ghost predicate Valid() { 0 < minimum <= maximum }
  }

  datatype Sample = Sample(scale: int, cells: int)

  datatype Status = Pass | TargetNotReached | BudgetExhausted

  datatype Report = Report(target: Target, samples: seq<Sample>, selected: Option<int>, status: Status)

  datatype CalibrationError =
    | NoTarget
    | BadBudget
    | WrongScaleIdentity
    | NotMonotonic
    | InvalidReport
    | NoScaleFound(report: Report)

  type Measurement = int -> Sample

  predicate Below(t: Target, s: Sample) { s.cells < t.minimum }
  predicate Above(t: Target, s: Sample) { s.cells > t.maximum }
  predicate InRange(t: Target, s: Sample) { t.minimum <= s.cells <= t.maximum }

  function Scales(samples: seq<Sample>): set<int> { set s | s in samples :: s.scale }

  predicate DistinctScales(samples: seq<Sample>) { |Scales(samples)| == |samples| }

  predicate Hits(t: Target, samples: seq<Sample>, scale: int) {
    samples != [] && ((InRange(t, samples[0]) && samples[0].scale == scale) || Hits(t, samples[1..], scale))
  }

  /** The validator of `CalibrationReport` (src/nova_rtl/contracts/benchmark.py). */
  predicate ReportValid(r: Report) {
    && 0 < |r.samples| <= MAX_CALIBRATION_SAMPLES
    && (forall s <- r.samples :: s.scale > 0)
    && DistinctScales(r.samples)
    && (if r.status.Pass?
        then r.selected.Some? && Hits(r.target, r.samples, r.selected.value)
        else r.selected.None?)
  }

  lemma ScalesGrow(samples: seq<Sample>, last: Sample)
    ensures Scales(samples + [last]) == Scales(samples) + {last.scale}
  {
    var more := samples + [last];
    assert last in more;
    assert forall s :: s in more <==> s in samples || s == last;
  }

  lemma {:induction false} ScaleCount(samples: seq<Sample>)
    ensures |Scales(samples)| <= |samples|
  {
    if samples != [] {
      var front, last := samples[..|samples| - 1], samples[|samples| - 1];
      assert samples == front + [last];
      ScaleCount(front);
      ScalesGrow(front, last);
    }
  }

  /** The count test of the validator means pairwise distinct. */
  lemma {:induction false} DistinctScalesSpec(samples: seq<Sample>)
    ensures DistinctScales(samples) <==>
            forall i, j :: 0 <= i < j < |samples| ==> samples[i].scale != samples[j].scale
  {
    if samples != [] {
      var front, last := samples[..|samples| - 1], samples[|samples| - 1];
      assert samples == front + [last];
      DistinctScalesSpec(front);
      ScaleCount(front);
      ScalesGrow(front, last);
      assert forall i :: 0 <= i < |front| ==> samples[i] == front[i];
      assert last.scale in Scales(front) <==> exists i :: 0 <= i < |front| && front[i].scale == last.scale;
    }
  }

  lemma {:induction false} HitsSpec(t: Target, samples: seq<Sample>, scale: int)
    ensures Hits(t, samples, scale) <==> exists s <- samples :: InRange(t, s) && s.scale == scale
  {
    if samples != [] {
      HitsSpec(t, samples[1..], scale);
      assert samples[0] in samples;
    }
  }

  function FirstInRange(t: Target, samples: seq<Sample>): (r: Option<int>) {
    if samples == [] then None
    else if InRange(t, samples[0]) then Some(samples[0].scale)
    else FirstInRange(t, samples[1..])
  }

  lemma {:induction false} FirstInRangeSpec(t: Target, samples: seq<Sample>)
    ensures FirstInRange(t, samples).None? <==> forall s <- samples :: !InRange(t, s)
    ensures FirstInRange(t, samples).Some? ==> Hits(t, samples, FirstInRange(t, samples).value)
  {
    if samples != [] {
      assert samples[0] in samples;
      FirstInRangeSpec(t, samples[1..]);
    }
  }

  /** A hit at the end of a sequence of misses is the one selected. */
  lemma {:induction false} FirstInRangeLast(t: Target, samples: seq<Sample>, last: Sample)
    requires (forall s <- samples :: !InRange(t, s)) && InRange(t, last)
    ensures FirstInRange(t, samples + [last]) == Some(last.scale)
    ensures Hits(t, samples + [last], last.scale)
  {
    var more := samples + [last];
    if samples != [] {
      assert samples[0] in samples;
      assert more[1..] == samples[1..] + [last];
      FirstInRangeLast(t, samples[1..], last);
    }
  }

  function BuildReport(t: Target, samples: seq<Sample>, exhausted: bool): Result<Report, CalibrationError> {
    var selected := FirstInRange(t, samples);
    var status := if selected.Some? then Pass else if exhausted then BudgetExhausted else TargetNotReached;
    var report := Report(t, samples, selected, status);
    if ReportValid(report) then Ok(report) else Err(InvalidReport)
  }

  datatype Side = Low | High

  predicate Missed(t: Target, s: Sample, side: Side) {
    if side.Low? then Below(t, s) else Above(t, s)
  }

  /** The samples that missed the target on one side. */
  function Misses(t: Target, samples: seq<Sample>, side: Side): seq<Sample> {
    if samples == [] then []
    else (if Missed(t, samples[0], side) then [samples[0]] else []) + Misses(t, samples[1..], side)
  }

  lemma {:induction false} MissesSpec(t: Target, samples: seq<Sample>, side: Side)
    ensures forall s :: s in Misses(t, samples, side) <==> s in samples && Missed(t, s, side)
  {
    if samples != [] { MissesSpec(t, samples[1..], side); }
  }

  function MaxScale(samples: seq<Sample>): int
    requires samples != []
  {
    var first := samples[0].scale;
    if |samples| == 1 then first
    else var rest := MaxScale(samples[1..]); if rest > first then rest else first
  }

  function MinScale(samples: seq<Sample>): int
    requires samples != []
  {
    var first := samples[0].scale;
    if |samples| == 1 then first
    else var rest := MinScale(samples[1..]); if rest < first then rest else first
  }

  lemma {:induction false} ExtremeScales(samples: seq<Sample>)
    requires samples != []
    ensures exists s <- samples :: s.scale == MaxScale(samples)
    ensures exists s <- samples :: s.scale == MinScale(samples)
    ensures forall s <- samples :: MinScale(samples) <= s.scale <= MaxScale(samples)
  {
    assert samples[0] in samples;
    if |samples| > 1 {
      ExtremeScales(samples[1..]);
      var s :| s in samples[1..] && s.scale == MaxScale(samples[1..]);
      var s' :| s' in samples[1..] && s'.scale == MinScale(samples[1..]);
      assert s in samples && s' in samples;
    }
  }

  function Distance(a: int, b: int): int { if a < b then b - a else a - b }

  /** The untried scale in `[from, high)` with the least (distance to `mid`, scale). */
  function Nearest(from: int, high: int, mid: int, tried: set<int>): (r: Option<int>)
    decreases high - from
  {
    if from >= high then None
    else
      var later := Nearest(from + 1, high, mid, tried);
      if from in tried then later
      else if later.Some? && Distance(later.value, mid) < Distance(from, mid) then later
      else Some(from)
  }

  lemma {:induction false} NearestSpec(from: int, high: int, mid: int, tried: set<int>)
    ensures var r := Nearest(from, high, mid, tried);
            && (r.None? <==> forall x | from <= x < high :: x in tried)
            && (r.Some? ==> from <= r.value < high && r.value !in tried)
            && (r.Some? ==> forall x | from <= x < high && x !in tried ::
                     Distance(r.value, mid) < Distance(x, mid)
                     || (Distance(r.value, mid) == Distance(x, mid) && r.value <= x))
    decreases high - from
  {
    if from < high { NearestSpec(from + 1, high, mid, tried); }
  }

  /** `_next_scale` once samples lie on both sides of the target. */
  function NextInBracket(low: int, high: int, tried: set<int>): Result<Option<int>, CalibrationError> {
    if low > high then Err(NotMonotonic)
    else Ok(Nearest(low + 1, high, (low + high) / 2, tried))
  }

  function Untried(candidate: int, tried: set<int>): Option<int> {
    if candidate in tried then None else Some(candidate)
  }

  /** `_next_scale`; its caller always passes at least one sample. */
  function NextScale(samples: seq<Sample>, t: Target): (r: Result<Option<int>, CalibrationError>)
    requires samples != []
  {
    var tried := Scales(samples);
    var below := Misses(t, samples, Low);
    var above := Misses(t, samples, High);
    var latest := samples[|samples| - 1].scale;
    if below != [] && above != [] then NextInBracket(MaxScale(below), MinScale(above), tried)
    else if below != [] then Ok(Untried(latest * 2, tried))
    else if above != [] then Ok(Untried(if latest / 2 < 1 then 1 else latest / 2, tried))
    else Ok(None)
  }

  /** A proposed scale is positive and has never been sampled. */
  lemma NextScaleIsFresh(samples: seq<Sample>, t: Target)
    requires samples != [] && forall s <- samples :: s.scale > 0
    ensures var r := NextScale(samples, t);
            r.Ok? && r.value.Some? ==> r.value.value > 0 && r.value.value !in Scales(samples)
  {
    assert samples[|samples| - 1] in samples;
    MissesSpec(t, samples, Low);
    var below, above := Misses(t, samples, Low), Misses(t, samples, High);
    if below != [] && above != [] {
      var low, high := MaxScale(below), MinScale(above);
      ExtremeScales(below);
      NearestSpec(low + 1, high, (low + high) / 2, Scales(samples));
    }
  }

  /** The loop of `calibrate_with_measurement` as a recursion on what it has sampled. */
  function Search(samples: seq<Sample>, next: Option<int>, t: Target, measure: Measurement, budget: nat)
    : Result<Report, CalibrationError>
    decreases budget - |samples|
  {
    if next.None? || |samples| >= budget then
      match BuildReport(t, samples, true)
      case Ok(report) => Err(NoScaleFound(report))
      case Err(e) => Err(e)
    else
      var sample := measure(next.value);
      if sample.scale != next.value then Err(WrongScaleIdentity)
      else
        match BuildReport(t, samples + [sample], false)
        case Err(e) => Err(e)
        case Ok(report) =>
          if report.status.Pass? then Ok(report)
          else
            match NextScale(samples + [sample], t)
            case Err(e) => Err(e)
            case Ok(following) => Search(samples + [sample], following, t, measure, budget)
  }

  method CalibrateWithMeasurement(baseScale: int, target: Option<Target>, measure: Measurement, maxSamples: int)
    returns (r: Result<Report, CalibrationError>)
    ensures target.None? ==> r == Err(NoTarget)
    ensures target.Some? && !(1 <= maxSamples <= MAX_CALIBRATION_SAMPLES) ==> r == Err(BadBudget)
    ensures target.Some? && 1 <= maxSamples <= MAX_CALIBRATION_SAMPLES ==>
              r == Search([], Some(baseScale), target.value, measure, maxSamples)
  {
    if target.None? { return Err(NoTarget); }
    if !(1 <= maxSamples <= MAX_CALIBRATION_SAMPLES) { return Err(BadBudget); }
    var t := target.value;
    var samples: seq<Sample> := [];
    var next := Some(baseScale);
    while next.Some? && |samples| < maxSamples
      invariant |samples| <= maxSamples
      invariant Search(samples, next, t, measure, maxSamples)
             == Search([], Some(baseScale), t, measure, maxSamples)
      decreases maxSamples - |samples|
    {
      var sample := measure(next.value);
      if sample.scale != next.value { return Err(WrongScaleIdentity); }
      samples := samples + [sample];
      var report := BuildReport(t, samples, false);
      if report.Err? || report.value.status.Pass? { return report; }
      var following := NextScale(samples, t);
      if following.Err? { return Err(following.error); }
      next := following.value;
    }
    var final := BuildReport(t, samples, true);
    if final.Err? { return Err(final.error); }
    return Err(NoScaleFound(final.value));
  }

  // ------------------------------------------------------------------ one iteration

  /** What the loop keeps whatever is measured: no hit so far and only fresh scales. */
  ghost predicate Searching(samples: seq<Sample>, next: Option<int>, t: Target) {
    && DistinctScales(samples)
    && (forall s <- samples :: s.scale > 0 && !InRange(t, s))
    && (next.Some? ==> next.value > 0)
    && (next.Some? ==> next.value !in Scales(samples))
    && (samples == [] ==> next.Some?)
  }

  ghost function AfterMiss(samples: seq<Sample>, t: Target, measure: Measurement, budget: nat): Result<Report, CalibrationError>
    requires samples != []
  {
    var following := NextScale(samples, t);
    if following.Err? then Err(following.error) else Search(samples, following.value, t, measure, budget)
  }

  /** One iteration whose sample is out of range. */
  lemma MissStep(samples: seq<Sample>, next: int, t: Target, measure: Measurement, budget: nat)
    requires Searching(samples, Some(next), t) && |samples| < budget <= MAX_CALIBRATION_SAMPLES
    requires measure(next).scale == next && !InRange(t, measure(next))
    ensures var more := samples + [measure(next)];
            && DistinctScales(more) && (forall s <- more :: s.scale > 0 && !InRange(t, s))
            && Search(samples, Some(next), t, measure, budget) == AfterMiss(more, t, measure, budget)
  {
    var more := samples + [measure(next)];
    ScalesGrow(samples, measure(next));
    FirstInRangeSpec(t, more);
    assert BuildReport(t, more, false) == Ok(Report(t, more, None, TargetNotReached));
  }

  /** One iteration whose sample is in range ends the search. */
  lemma HitStep(samples: seq<Sample>, next: int, t: Target, measure: Measurement, budget: nat)
    requires Searching(samples, Some(next), t) && |samples| < budget <= MAX_CALIBRATION_SAMPLES
    requires measure(next).scale == next && InRange(t, measure(next))
    ensures var more := samples + [measure(next)];
            && DistinctScales(more)
            && Search(samples, Some(next), t, measure, budget) == Ok(Report(t, more, Some(next), Pass))
            && ReportValid(Report(t, more, Some(next), Pass))
  {
    var more := samples + [measure(next)];
    ScalesGrow(samples, measure(next));
    FirstInRangeLast(t, samples, measure(next));
    assert BuildReport(t, more, false) == Ok(Report(t, more, Some(next), Pass));
  }

  /** A search with nothing left to sample reports what it saw. */
  lemma StopStep(samples: seq<Sample>, next: Option<int>, t: Target, measure: Measurement, budget: nat)
    requires DistinctScales(samples) && 0 < |samples| <= budget <= MAX_CALIBRATION_SAMPLES
    requires forall s <- samples :: s.scale > 0 && !InRange(t, s)
    requires next.None? || |samples| == budget
    ensures Search(samples, next, t, measure, budget)
         == Err(NoScaleFound(Report(t, samples, None, BudgetExhausted)))
    ensures ReportValid(Report(t, samples, None, BudgetExhausted))
  {
    FirstInRangeSpec(t, samples);
    assert BuildReport(t, samples, true) == Ok(Report(t, samples, None, BudgetExhausted));
  }

  // ---------------------------------------------------------------- any measurement

  ghost function Outcome(r: Result<Report, CalibrationError>): Option<Report> {
    if r.Ok? then Some(r.value) else if r.error.NoScaleFound? then Some(r.error.report) else None
  }

  /** What a caller may rely on about a result of the search. */
  ghost predicate Trustworthy(r: Result<Report, CalibrationError>, t: Target, measure: Measurement, budget: nat) {
    && r != Err(InvalidReport)
    && (Outcome(r).Some? ==>
          && ReportValid(Outcome(r).value)
          && |Outcome(r).value.samples| <= budget
          && (forall s <- Outcome(r).value.samples :: s == measure(s.scale))
          && (r.Ok? <==> exists s <- Outcome(r).value.samples :: InRange(t, s))
          && Outcome(r).value.target == t
          && Outcome(r).value.status == (if r.Ok? then Pass else BudgetExhausted))
    && (r.Ok? ==> r.value.selected.Some? && InRange(t, measure(r.value.selected.value)))
    && (r == Err(WrongScaleIdentity) ==> Dishonest(measure))
    && (r == Err(NotMonotonic) ==> Inverted(t, measure))
  }

  /** Some scale is reported as another one. */
  ghost predicate Dishonest(measure: Measurement) { exists x :: measure(x).scale != x }

  /** A smaller scale has more cells than the target allows, a larger one fewer. */
  ghost predicate Inverted(t: Target, measure: Measurement) {
    exists x, y :: x < y && Above(t, measure(x)) && Below(t, measure(y))
  }

  lemma OverlapIsInverted(samples: seq<Sample>, t: Target, measure: Measurement)
    requires samples != [] && NextScale(samples, t).Err? && forall s <- samples :: s == measure(s.scale)
    ensures NextScale(samples, t) == Err(NotMonotonic) && Inverted(t, measure)
  {
    var below, above := Misses(t, samples, Low), Misses(t, samples, High);
    MissesSpec(t, samples, Low);
    MissesSpec(t, samples, High);
    ExtremeScales(below);
    ExtremeScales(above);
    var b :| b in below && b.scale == MaxScale(below);
    var a :| a in above && a.scale == MinScale(above);
    assert Above(t, measure(a.scale)) && Below(t, measure(b.scale));
  }

  lemma {:induction false} SearchIsTrustworthy(samples: seq<Sample>, next: Option<int>, t: Target, measure: Measurement, budget: nat)
    requires Searching(samples, next, t) && 1 <= budget <= MAX_CALIBRATION_SAMPLES && |samples| <= budget
    requires forall s <- samples :: s == measure(s.scale)
    ensures Trustworthy(Search(samples, next, t, measure, budget), t, measure, budget)
    decreases budget - |samples|
  {
    if next.None? || |samples| == budget {
      StopStep(samples, next, t, measure, budget);
    } else if measure(next.value).scale == next.value {
      var more := samples + [measure(next.value)];
      if InRange(t, measure(next.value)) {
        HitStep(samples, next.value, t, measure, budget);
        assert measure(next.value) in more;
      } else {
        MissStep(samples, next.value, t, measure, budget);
        NextScaleIsFresh(more, t);
        if NextScale(more, t).Ok? {
          SearchIsTrustworthy(more, NextScale(more, t).value, t, measure, budget);
        } else {
          OverlapIsInverted(more, t, measure);
        }
      }
    }
  }

  /** For any measurement at all: a report the search hands out meets its own validator
      (so its scales are positive, pairwise distinct and at most twelve), every sample
      in it is what was measured at its scale, the search passes exactly when one of
      them is in range, and then selects a scale that is. Building a report never raises;
      the two other errors mean that a measurement named another scale than it was asked
      for, or that more cells were measured at a smaller scale than at a larger one. */
  lemma CalibrationIsTrustworthy(baseScale: int, t: Target, measure: Measurement, budget: nat)
    requires baseScale > 0 && 1 <= budget <= MAX_CALIBRATION_SAMPLES
    ensures Trustworthy(Search([], Some(baseScale), t, measure, budget), t, measure, budget)
    ensures var r := Outcome(Search([], Some(baseScale), t, measure, budget));
            r.Some? ==> forall i, j :: 0 <= i < j < |r.value.samples| ==> r.value.samples[i].scale != r.value.samples[j].scale
  {
    var r := Outcome(Search([], Some(baseScale), t, measure, budget));
    SearchIsTrustworthy([], Some(baseScale), t, measure, budget);
    if r.Some? { DistinctScalesSpec(r.value.samples); }
  }

  // ------------------------------------------------------------------------- phases

  ghost predicate BelowAt(samples: seq<Sample>, t: Target, scale: int) {
    exists s <- samples :: Below(t, s) && s.scale == scale
  }

  ghost predicate AboveAt(samples: seq<Sample>, t: Target, scale: int) {
    exists s <- samples :: Above(t, s) && s.scale == scale
  }

  ghost predicate Bracket(samples: seq<Sample>, t: Target, low: int, high: int) {
    && (forall s <- samples :: !InRange(t, s))
    && BelowAt(samples, t, low) && AboveAt(samples, t, high)
    && (forall s <- samples :: Below(t, s) ==> s.scale <= low)
    && (forall s <- samples :: Above(t, s) ==> high <= s.scale)
    && 0 < low < high
  }

  ghost predicate Doubling(samples: seq<Sample>, t: Target, latest: int) {
    && samples != [] && samples[|samples| - 1].scale == latest > 0
    && forall s <- samples :: Below(t, s) && s.scale <= latest
  }

  ghost predicate Halving(samples: seq<Sample>, t: Target, latest: int) {
    && samples != [] && samples[|samples| - 1].scale == latest > 0
    && forall s <- samples :: Above(t, s) && latest <= s.scale
  }

  lemma BracketEnds(samples: seq<Sample>, t: Target, low: int, high: int)
    requires Bracket(samples, t, low, high)
    ensures var below := Misses(t, samples, Low); below != [] && MaxScale(below) == low
    ensures var above := Misses(t, samples, High); above != [] && MinScale(above) == high
  {
    var below, above := Misses(t, samples, Low), Misses(t, samples, High);
    MissesSpec(t, samples, Low);
    MissesSpec(t, samples, High);
    var l :| l in samples && Below(t, l) && l.scale == low;
    var h :| h in samples && Above(t, h) && h.scale == high;
    assert l in below && h in above;
    ExtremeScales(below);
    ExtremeScales(above);
  }

  lemma BracketProbes(samples: seq<Sample>, t: Target, low: int, high: int)
    requires Bracket(samples, t, low, high)
    ensures samples != []
    ensures NextScale(samples, t) == Ok(Nearest(low + 1, high, (low + high) / 2, Scales(samples)))
  {
    BracketEnds(samples, t, low, high);
  }

  lemma NearestIsMidpoint(low: int, high: int, tried: set<int>)
    requires low < high && forall x :: low < x < high ==> x !in tried
    ensures Nearest(low + 1, high, (low + high) / 2, tried)
         == if high - low >= 2 then Some((low + high) / 2) else None
  {
    var mid := (low + high) / 2;
    var r := Nearest(low + 1, high, mid, tried);
    NearestSpec(low + 1, high, mid, tried);
    if high - low >= 2 {
      assert low + 1 <= mid < high && mid !in tried;
      assert Distance(mid, mid) == 0;
    }
  }

  /** No sample can lie strictly inside the bracket, so the candidate nearest to the
      midpoint is the midpoint itself, and each half is strictly smaller. */
  lemma BracketProbesMidpoint(samples: seq<Sample>, t: Target, low: int, high: int)
    requires t.Valid() && Bracket(samples, t, low, high)
    ensures samples != []
    ensures NextScale(samples, t) == Ok(if high - low >= 2 then Some((low + high) / 2) else None)
    ensures forall x :: low < x < high ==> x !in Scales(samples)
    ensures high - low >= 2 ==> var mid := (low + high) / 2;
              low < mid < high && 2 * (mid - low) <= high - low && 2 * (high - mid) <= high - low + 1
  {
    forall x | low < x < high ensures x !in Scales(samples) {}
    BracketProbes(samples, t, low, high);
    NearestIsMidpoint(low, high, Scales(samples));
  }

  lemma {:induction false} NoMisses(t: Target, samples: seq<Sample>, side: Side)
    requires forall s <- samples :: !Missed(t, s, side)
    ensures Misses(t, samples, side) == []
  {
    if samples != [] {
      assert samples[0] in samples;
      NoMisses(t, samples[1..], side);
    }
  }

  lemma DoublingProbesTwice(samples: seq<Sample>, t: Target, latest: int)
    requires t.Valid() && Doubling(samples, t, latest)
    ensures NextScale(samples, t) == Ok(Some(2 * latest))
  {
    assert samples[0] in samples;
    MissesSpec(t, samples, Low);
    assert samples[0] in Misses(t, samples, Low);
    NoMisses(t, samples, High);
  }

  lemma HalvingProbesHalf(samples: seq<Sample>, t: Target, latest: int)
    requires t.Valid() && Halving(samples, t, latest)
    ensures NextScale(samples, t) == Ok(if latest == 1 then None else Some(latest / 2))
  {
    assert samples[0] in samples && samples[|samples| - 1] in samples;
    MissesSpec(t, samples, High);
    assert samples[0] in Misses(t, samples, High);
    NoMisses(t, samples, Low);
  }

  // -------------------------------------------------------- nondecreasing measurement

  ghost predicate Honest(measure: Measurement) {
    forall x :: x > 0 ==> measure(x).scale == x
  }

  ghost predicate Nondecreasing(measure: Measurement) {
    forall x, y :: 0 < x <= y ==> measure(x).cells <= measure(y).cells
  }

  /** `samples` are distinct observations of `measure`, all out of range. */
  ghost predicate Observed(samples: seq<Sample>, t: Target, measure: Measurement) {
    DistinctScales(samples) && forall s <- samples :: s.scale > 0 && s == measure(s.scale) && !InRange(t, s)
  }

  /** The next probe either ends the search or extends what has been observed. */
  lemma Advance(samples: seq<Sample>, next: int, t: Target, measure: Measurement, budget: nat)
    requires Honest(measure) && Observed(samples, t, measure)
    requires samples != [] && NextScale(samples, t) == Ok(Some(next))
    requires |samples| < budget <= MAX_CALIBRATION_SAMPLES
    ensures var more := samples + [measure(next)];
            if InRange(t, measure(next)) then AfterMiss(samples, t, measure, budget).Ok?
            else Observed(more, t, measure)
                 && AfterMiss(samples, t, measure, budget) == AfterMiss(more, t, measure, budget)
  {
    NextScaleIsFresh(samples, t);
    if InRange(t, measure(next)) {
      HitStep(samples, next, t, measure, budget);
    } else {
      MissStep(samples, next, t, measure, budget);
    }
  }

  ghost predicate Phase(samples: seq<Sample>, t: Target) {
    || (exists low, high :: Bracket(samples, t, low, high))
    || (exists latest :: Doubling(samples, t, latest))
    || (exists latest :: Halving(samples, t, latest))
  }

  lemma FirstPhase(t: Target, sample: Sample)
    requires t.Valid() && !InRange(t, sample) && sample.scale > 0
    ensures Below(t, sample) ==> Doubling([sample], t, sample.scale)
    ensures Above(t, sample) ==> Halving([sample], t, sample.scale)
    ensures Phase([sample], t)
  {
    assert Doubling([sample], t, sample.scale) || Halving([sample], t, sample.scale);
  }

  lemma BracketSteps(samples: seq<Sample>, t: Target, low: int, high: int, sample: Sample)
    requires t.Valid() && Bracket(samples, t, low, high)
    requires low < sample.scale < high && !InRange(t, sample)
    ensures Below(t, sample) ==> Bracket(samples + [sample], t, sample.scale, high)
    ensures Above(t, sample) ==> Bracket(samples + [sample], t, low, sample.scale)
  {
    var more := samples + [sample];
    assert sample in more;
    var l :| l in samples && Below(t, l) && l.scale == low;
    var h :| h in samples && Above(t, h) && h.scale == high;
    assert l in more && h in more;
  }

  lemma DoublingSteps(samples: seq<Sample>, t: Target, latest: int, sample: Sample)
    requires t.Valid() && Doubling(samples, t, latest)
    requires sample.scale == 2 * latest && !InRange(t, sample)
    ensures Below(t, sample) ==> Doubling(samples + [sample], t, sample.scale)
    ensures Above(t, sample) ==> Bracket(samples + [sample], t, latest, sample.scale)
  {
    var more := samples + [sample];
    assert sample in more && samples[|samples| - 1] in more;
    assert samples[|samples| - 1] in samples;
  }

  lemma HalvingSteps(samples: seq<Sample>, t: Target, latest: int, sample: Sample)
    requires t.Valid() && Halving(samples, t, latest) && latest > 1
    requires sample.scale == latest / 2 && !InRange(t, sample)
    ensures Above(t, sample) ==> Halving(samples + [sample], t, sample.scale)
    ensures Below(t, sample) ==> Bracket(samples + [sample], t, sample.scale, latest)
  {
    var more := samples + [sample];
    assert sample in more && samples[|samples| - 1] in more;
    assert samples[|samples| - 1] in samples;
  }

  /** In a phase the proposal never contradicts monotonicity, and one more
      out-of-range sample leads to a phase again. */
  lemma PhaseSteps(samples: seq<Sample>, t: Target, measure: Measurement)
    requires t.Valid() && Honest(measure) && samples != [] && Phase(samples, t)
    ensures var r := NextScale(samples, t);
            && r.Ok?
            && (r.value.Some? && !InRange(t, measure(r.value.value))
                ==> Phase(samples + [measure(r.value.value)], t))
  {
    if low, high :| Bracket(samples, t, low, high) {
      BracketProbesMidpoint(samples, t, low, high);
      var mid := (low + high) / 2;
      if high - low >= 2 && !InRange(t, measure(mid)) {
        BracketSteps(samples, t, low, high, measure(mid));
      }
    } else if latest :| Doubling(samples, t, latest) {
      DoublingProbesTwice(samples, t, latest);
      if !InRange(t, measure(2 * latest)) {
        DoublingSteps(samples, t, latest, measure(2 * latest));
      }
    } else {
      var latest :| Halving(samples, t, latest);
      HalvingProbesHalf(samples, t, latest);
      if latest != 1 && !InRange(t, measure(latest / 2)) {
        HalvingSteps(samples, t, latest, measure(latest / 2));
      }
    }
  }

  /** The search stops early only when it has proved that nothing is in range. */
  lemma StopMeansNothingInRange(samples: seq<Sample>, t: Target, measure: Measurement, x: int)
    requires x > 0 && t.Valid() && Honest(measure) && Nondecreasing(measure) && Observed(samples, t, measure)
    requires samples != [] && Phase(samples, t) && NextScale(samples, t) == Ok(None)
    ensures !InRange(t, measure(x))
  {
    if low, high :| Bracket(samples, t, low, high) {
      BracketProbesMidpoint(samples, t, low, high);
      var l :| l in samples && Below(t, l) && l.scale == low;
      var h :| h in samples && Above(t, h) && h.scale == high;
      assert x <= low || high <= x;
    } else if latest :| Doubling(samples, t, latest) {
      DoublingProbesTwice(samples, t, latest);
    } else {
      var latest :| Halving(samples, t, latest);
      HalvingProbesHalf(samples, t, latest);
      assert samples[|samples| - 1] in samples;
    }
  }

  ghost predicate Conclusive(r: Result<Report, CalibrationError>, t: Target, measure: Measurement, budget: nat) {
    && Outcome(r).Some?
    && (r.Err? && |Outcome(r).value.samples| < budget ==> forall x :: x > 0 ==> !InRange(t, measure(x)))
  }

  lemma {:induction false} MonotoneSearch(samples: seq<Sample>, t: Target, measure: Measurement, budget: nat)
    requires t.Valid() && Honest(measure) && Nondecreasing(measure) && Observed(samples, t, measure)
    requires 1 <= |samples| <= budget <= MAX_CALIBRATION_SAMPLES && Phase(samples, t)
    ensures Conclusive(AfterMiss(samples, t, measure, budget), t, measure, budget)
    decreases budget - |samples|
  {
    PhaseSteps(samples, t, measure);
    var next := NextScale(samples, t).value;
    if next.None? || |samples| == budget {
      StopStep(samples, next, t, measure, budget);
      if next.None? {
        forall x | x > 0 ensures !InRange(t, measure(x)) {
          StopMeansNothingInRange(samples, t, measure, x);
        }
      }
    } else {
      Advance(samples, next.value, t, measure, budget);
      if !InRange(t, measure(next.value)) {
        MonotoneSearch(samples + [measure(next.value)], t, measure, budget);
      }
    }
  }

  /** The first probe of a search. */
  lemma FirstStep(baseScale: int, t: Target, measure: Measurement, budget: nat)
    requires baseScale > 0 && t.Valid() && Honest(measure) && 1 <= budget <= MAX_CALIBRATION_SAMPLES
    ensures var first := measure(baseScale);
            if InRange(t, first) then Search([], Some(baseScale), t, measure, budget).Ok?
            else Observed([first], t, measure) && Phase([first], t)
                 && Search([], Some(baseScale), t, measure, budget) == AfterMiss([first], t, measure, budget)
  {
    var first := measure(baseScale);
    assert [] + [first] == [first];
    if InRange(t, first) {
      HitStep([], baseScale, t, measure, budget);
    } else {
      MissStep([], baseScale, t, measure, budget);
      FirstPhase(t, first);
    }
  }

  /** For a nondecreasing measurement the non-monotonicity error is unreachable, and a
      search that gives up before its budget proves that no positive scale is in range. */
  lemma MonotoneCalibration(baseScale: int, t: Target, measure: Measurement, budget: nat)
    requires baseScale > 0 && t.Valid() && Honest(measure) && Nondecreasing(measure)
    requires 1 <= budget <= MAX_CALIBRATION_SAMPLES
    ensures Conclusive(Search([], Some(baseScale), t, measure, budget), t, measure, budget)
  {
    FirstStep(baseScale, t, measure, budget);
    if !InRange(t, measure(baseScale)) {
      MonotoneSearch([measure(baseScale)], t, measure, budget);
    }
  }

  // -------------------------------------------------------------------- sample budget

  function Pow2(n: nat): (r: nat)
    ensures r > 0
  {
    if n == 0 then 1 else 2 * Pow2(n - 1)
  }

  /** Every miss lies on its own side of `hit`. */
  ghost predicate Separates(hit: int, t: Target, measure: Measurement) {
    forall x :: x > 0 ==> (Below(t, measure(x)) ==> x < hit) && (Above(t, measure(x)) ==> hit < x)
  }

  lemma HitSeparates(hit: int, t: Target, measure: Measurement)
    requires hit > 0 && t.Valid() && Nondecreasing(measure) && InRange(t, measure(hit))
    ensures Separates(hit, t, measure)
  {
    forall x | x > 0 ensures (Below(t, measure(x)) ==> x < hit) && (Above(t, measure(x)) ==> hit < x) {
      assert x <= hit ==> measure(x).cells <= measure(hit).cells;
      assert hit <= x ==> measure(hit).cells <= measure(x).cells;
    }
  }

  lemma HitInsideBracket(samples: seq<Sample>, t: Target, measure: Measurement, low: int, high: int, hit: int)
    requires t.Valid() && Separates(hit, t, measure) && Observed(samples, t, measure)
    requires Bracket(samples, t, low, high)
    ensures low < hit < high
  {
    var l :| l in samples && Below(t, l) && l.scale == low;
    var h :| h in samples && Above(t, h) && h.scale == high;
  }

  /** How many midpoints close a bracket of the given width. */
  function Probes(width: int): nat
    decreases width
  {
    if width <= 1 then 0 else 1 + Probes((width + 1) / 2)
  }

  lemma {:induction false} ProbesMonotone(a: int, b: int)
    requires a <= b
    ensures Probes(a) <= Probes(b)
    decreases b
  {
    if a > 1 { ProbesMonotone((a + 1) / 2, (b + 1) / 2); }
  }

  lemma {:induction false} ProbesLogarithmic(width: int, m: nat)
    requires width <= Pow2(m)
    ensures Probes(width) <= m
    decreases m
  {
    if width > 1 { ProbesLogarithmic((width + 1) / 2, m - 1); }
  }

  lemma HalvesNeedLess(low: int, high: int)
    requires high - low >= 2
    ensures var mid := (low + high) / 2;
            Probes(mid - low) < Probes(high - low) && Probes(high - mid) < Probes(high - low)
  {
    var mid := (low + high) / 2;
    ProbesMonotone(mid - low, (high - low + 1) / 2);
    ProbesMonotone(high - mid, (high - low + 1) / 2);
  }

  lemma Redoubled(latest: int, hit: int, k: nat)
    requires 0 < latest < hit <= latest * Pow2(k)
    ensures k > 0 && hit <= (2 * latest) * Pow2(k - 1)
  {
    if k > 0 { assert latest * Pow2(k) == (2 * latest) * Pow2(k - 1); }
  }

  lemma ProbeMisses(samples: seq<Sample>, t: Target, measure: Measurement, budget: nat, low: int, high: int, mid: int)
    requires t.Valid() && Honest(measure) && Observed(samples, t, measure) && |samples| < budget <= MAX_CALIBRATION_SAMPLES
    requires Bracket(samples, t, low, high) && high - low >= 2 && mid == (low + high) / 2 && !InRange(t, measure(mid))
    ensures var more := samples + [measure(mid)];
            && Observed(more, t, measure)
            && (if Below(t, measure(mid)) then Bracket(more, t, mid, high) else Bracket(more, t, low, mid))
    ensures samples != [] && AfterMiss(samples, t, measure, budget) == AfterMiss(samples + [measure(mid)], t, measure, budget)
  {
    BracketProbesMidpoint(samples, t, low, high);
    Advance(samples, mid, t, measure, budget);
    BracketSteps(samples, t, low, high, measure(mid));
  }

  lemma ProbeHits(samples: seq<Sample>, t: Target, measure: Measurement, budget: nat, low: int, high: int, mid: int)
    requires t.Valid() && Honest(measure) && Observed(samples, t, measure) && |samples| < budget <= MAX_CALIBRATION_SAMPLES
    requires Bracket(samples, t, low, high) && high - low >= 2 && mid == (low + high) / 2 && InRange(t, measure(mid))
    ensures samples != [] && AfterMiss(samples, t, measure, budget).Ok?
  {
    BracketProbesMidpoint(samples, t, low, high);
    Advance(samples, mid, t, measure, budget);
  }

  lemma ProbesPositive(width: int)
    requires width >= 2
    ensures Probes(width) >= 1
  {
  }

  lemma HalfNeedsLess(low: int, high: int, low': int, high': int)
    requires high - low >= 2
    requires var mid := (low + high) / 2; (low' == mid && high' == high) || (low' == low && high' == mid)
    ensures Probes(high' - low') + 1 <= Probes(high - low) && 0 <= high' - low' < high - low
  {
    HalvesNeedLess(low, high);
  }

  /** A missed midpoint leaves one half of the bracket. */
  lemma Bisected(samples: seq<Sample>, t: Target, measure: Measurement, budget: nat, low: int, high: int, mid: int)
    returns (more: seq<Sample>, low': int, high': int)
    requires t.Valid() && Honest(measure) && Observed(samples, t, measure) && |samples| < budget <= MAX_CALIBRATION_SAMPLES
    requires Bracket(samples, t, low, high) && high - low >= 2 && mid == (low + high) / 2 && !InRange(t, measure(mid))
    ensures |more| == |samples| + 1 && samples != [] && Observed(more, t, measure) && Bracket(more, t, low', high')
    ensures if Below(t, measure(mid)) then low' == mid && high' == high else low' == low && high' == mid
    ensures AfterMiss(samples, t, measure, budget) == AfterMiss(more, t, measure, budget)
  {
    ProbeMisses(samples, t, measure, budget, low, high, mid);
    more := samples + [measure(mid)];
    low', high' := if Below(t, measure(mid)) then mid else low, if Below(t, measure(mid)) then high else mid;
  }

  /** A bracket around a hit is searched within its number of probes. */
  lemma {:induction false} BisectionBound(samples: seq<Sample>, t: Target, measure: Measurement, budget: nat,
                       low: int, high: int, hit: int)
    requires t.Valid() && Honest(measure) && Separates(hit, t, measure) && Observed(samples, t, measure)
    requires Bracket(samples, t, low, high)
    requires |samples| + Probes(high - low) <= budget <= MAX_CALIBRATION_SAMPLES
    ensures samples != [] && AfterMiss(samples, t, measure, budget).Ok?
    decreases high - low
  {
    HitInsideBracket(samples, t, measure, low, high, hit);
    ProbesPositive(high - low);
    var mid := (low + high) / 2;
    if InRange(t, measure(mid)) {
      ProbeHits(samples, t, measure, budget, low, high, mid);
    } else {
      var more, low', high' := Bisected(samples, t, measure, budget, low, high, mid);
      HalfNeedsLess(low, high, low', high');
      BisectionBound(more, t, measure, budget, low', high', hit);
    }
  }

  lemma DoublingStep(samples: seq<Sample>, t: Target, measure: Measurement, budget: nat, latest: int)
    returns (more: seq<Sample>)
    requires t.Valid() && Honest(measure) && Observed(samples, t, measure)
    requires Doubling(samples, t, latest) && |samples| < budget <= MAX_CALIBRATION_SAMPLES
    ensures |more| == |samples| + 1
    ensures AfterMiss(samples, t, measure, budget).Ok?
            || (Observed(more, t, measure)
                && (Doubling(more, t, 2 * latest) || Bracket(more, t, latest, 2 * latest))
                && AfterMiss(samples, t, measure, budget) == AfterMiss(more, t, measure, budget))
  {
    DoublingProbesTwice(samples, t, latest);
    more := samples + [measure(2 * latest)];
    Advance(samples, 2 * latest, t, measure, budget);
    if !InRange(t, measure(2 * latest)) { DoublingSteps(samples, t, latest, measure(2 * latest)); }
  }

  /** Doubling from `latest` towards a hit at most k doublings away. */
  lemma {:induction false} DoublingBound(samples: seq<Sample>, t: Target, measure: Measurement, budget: nat,
                      latest: int, hit: int, k: nat, j: nat)
    requires t.Valid() && Honest(measure) && Separates(hit, t, measure) && Observed(samples, t, measure)
    requires Doubling(samples, t, latest) && hit <= latest * Pow2(k) && latest <= Pow2(j)
    requires |samples| + 2 * k + j - 1 <= budget <= MAX_CALIBRATION_SAMPLES
    ensures AfterMiss(samples, t, measure, budget).Ok?
    decreases k
  {
    assert latest < hit by { assert samples[|samples| - 1] in samples; }
    Redoubled(latest, hit, k);
    var more := DoublingStep(samples, t, measure, budget, latest);
    if !AfterMiss(samples, t, measure, budget).Ok? {
      if Doubling(more, t, 2 * latest) {
        DoublingBound(more, t, measure, budget, 2 * latest, hit, k - 1, j + 1);
      } else {
        ProbesLogarithmic(latest, j);
        BisectionBound(more, t, measure, budget, latest, 2 * latest, hit);
      }
    }
  }

  lemma Halved(latest: int, j: nat)
    requires 1 < latest <= Pow2(j)
    ensures j > 0 && latest / 2 <= Pow2(j - 1) && Probes(latest - latest / 2) <= j - 1
  {
    ProbesLogarithmic(latest - latest / 2, j - 1);
  }

  lemma HalvingStep(samples: seq<Sample>, t: Target, measure: Measurement, budget: nat, latest: int)
    returns (more: seq<Sample>)
    requires t.Valid() && Honest(measure) && Observed(samples, t, measure)
    requires Halving(samples, t, latest) && latest > 1 && |samples| < budget <= MAX_CALIBRATION_SAMPLES
    ensures |more| == |samples| + 1
    ensures AfterMiss(samples, t, measure, budget).Ok?
            || (Observed(more, t, measure)
                && (Halving(more, t, latest / 2) || Bracket(more, t, latest / 2, latest))
                && AfterMiss(samples, t, measure, budget) == AfterMiss(more, t, measure, budget))
  {
    HalvingProbesHalf(samples, t, latest);
    more := samples + [measure(latest / 2)];
    Advance(samples, latest / 2, t, measure, budget);
    if !InRange(t, measure(latest / 2)) { HalvingSteps(samples, t, latest, measure(latest / 2)); }
  }

  /** Halving from `latest`, which is at most 2^j, towards a smaller hit. */
  lemma {:induction false} HalvingBound(samples: seq<Sample>, t: Target, measure: Measurement, budget: nat,
                     latest: int, hit: int, j: nat)
    requires hit > 0 && t.Valid() && Honest(measure) && Separates(hit, t, measure) && Observed(samples, t, measure)
    requires Halving(samples, t, latest) && latest <= Pow2(j)
    requires |samples| + j <= budget <= MAX_CALIBRATION_SAMPLES
    ensures AfterMiss(samples, t, measure, budget).Ok?
    decreases j
  {
    assert hit < latest by { assert samples[|samples| - 1] in samples; }
    Halved(latest, j);
    var more := HalvingStep(samples, t, measure, budget, latest);
    if !AfterMiss(samples, t, measure, budget).Ok? {
      if Halving(more, t, latest / 2) {
        HalvingBound(more, t, measure, budget, latest / 2, hit, j - 1);
      } else {
        BisectionBound(more, t, measure, budget, latest / 2, latest, hit);
      }
    }
  }

  /** Started at a scale of at most 2^j, the search finds any target that some scale
      within k doublings of the start hits, in 2k + j samples (j + 1 when k is 0). */
  lemma CalibrationBudget(baseScale: int, t: Target, measure: Measurement, budget: nat, hit: int, k: nat, j: nat)
    requires baseScale > 0 && hit > 0 && t.Valid() && Honest(measure) && Nondecreasing(measure)
    requires InRange(t, measure(hit)) && hit <= baseScale * Pow2(k) && baseScale <= Pow2(j)
    requires (if k == 0 then j + 1 else 2 * k + j) <= budget <= MAX_CALIBRATION_SAMPLES && budget >= 1
    ensures Search([], Some(baseScale), t, measure, budget).Ok?
  {
    FirstStep(baseScale, t, measure, budget);
    if !InRange(t, measure(baseScale)) {
      FirstPhase(t, measure(baseScale));
      HitSeparates(hit, t, measure);
      AfterFirst(baseScale, t, measure, budget, hit, k, j);
    }
  }

  lemma AfterFirst(baseScale: int, t: Target, measure: Measurement, budget: nat, hit: int, k: nat, j: nat)
    requires baseScale > 0 && hit > 0 && t.Valid() && Honest(measure) && Separates(hit, t, measure)
    requires Observed([measure(baseScale)], t, measure)
    requires Doubling([measure(baseScale)], t, baseScale) || Halving([measure(baseScale)], t, baseScale)
    requires hit <= baseScale * Pow2(k) && baseScale <= Pow2(j)
    requires (if k == 0 then j + 1 else 2 * k + j) <= budget <= MAX_CALIBRATION_SAMPLES
    ensures AfterMiss([measure(baseScale)], t, measure, budget).Ok?
  {
    var first := [measure(baseScale)];
    if Doubling(first, t, baseScale) {
      assert baseScale < hit by { assert first[0] in first; }
      Redoubled(baseScale, hit, k);
      DoublingBound(first, t, measure, budget, baseScale, hit, k, j);
    } else {
      HalvingBound(first, t, measure, budget, baseScale, hit, j);
    }
  }

  /** With the default scale 4 and the full budget, every target hit at or below scale
      128 is found. */
  lemma DefaultCalibrationPasses(t: Target, measure: Measurement, hit: int)
    requires hit > 0 && t.Valid() && Honest(measure) && Nondecreasing(measure)
    requires InRange(t, measure(hit)) && hit <= 128
    ensures Search([], Some(4), t, measure, MAX_CALIBRATION_SAMPLES).Ok?
  {
    assert Pow2(2) == 4;
    assert Pow2(5) == 32 by { assert Pow2(3) == 8; }
    CalibrationBudget(4, t, measure, MAX_CALIBRATION_SAMPLES, hit, 5, 2);
  }

  // ---------------------------------------------------------- exactly what can be reached

  /** x is one of the midpoints that r bisections of this bracket can probe. */
  predicate InGrid(low: int, high: int, r: nat, x: int)
    decreases r
  {
    r > 0 && high - low >= 2 &&
    var mid := (low + high) / 2;
    x == mid || (x < mid && InGrid(low, mid, r - 1, x)) || (x > mid && InGrid(mid, high, r - 1, x))
  }

  /** x is a scale that r samples after `latest` can probe while everything is below. */
  predicate ByDoubling(latest: int, r: nat, x: int)
    decreases r
  {
    r > 0 &&
    (x == 2 * latest || (x < 2 * latest && InGrid(latest, 2 * latest, r - 1, x)) || (x > 2 * latest && ByDoubling(2 * latest, r - 1, x)))
  }

  predicate ByHalving(latest: int, r: nat, x: int)
    decreases r
  {
    r > 0 && latest > 1 &&
    (x == latest / 2 || (x > latest / 2 && InGrid(latest / 2, latest, r - 1, x)) || (x < latest / 2 && ByHalving(latest / 2, r - 1, x)))
  }

  /** x is a scale that the search can probe from this start within its budget. */
  predicate Reaches(baseScale: int, budget: nat, x: int) {
    budget > 0 && (x == baseScale || (x > baseScale && ByDoubling(baseScale, budget - 1, x))
                   || (x < baseScale && ByHalving(baseScale, budget - 1, x)))
  }

  lemma {:induction false} GridInside(low: int, high: int, r: nat, x: int)
    requires InGrid(low, high, r, x)
    ensures low < x < high
    decreases r
  {
    var mid := (low + high) / 2;
    if x < mid { GridInside(low, mid, r - 1, x); } else if x > mid { GridInside(mid, high, r - 1, x); }
  }

  lemma {:induction false} HalvingReachIsPositive(latest: int, r: nat, x: int)
    requires ByHalving(latest, r, x) && latest > 0
    ensures x > 0
    decreases r
  {
    if x < latest / 2 { HalvingReachIsPositive(latest / 2, r - 1, x); }
  }

  lemma ReachIsPositive(baseScale: int, budget: nat, x: int)
    requires baseScale > 0 && Reaches(baseScale, budget, x)
    ensures x > 0
  {
    if x < baseScale { HalvingReachIsPositive(baseScale, budget - 1, x); }
  }

  /** A search with its budget used up, or with nothing between its bracket, has failed. */
  lemma BracketExhausted(samples: seq<Sample>, t: Target, measure: Measurement, budget: nat, low: int, high: int)
    requires t.Valid() && Observed(samples, t, measure) && Bracket(samples, t, low, high)
    requires |samples| <= budget <= MAX_CALIBRATION_SAMPLES && (|samples| == budget || high - low < 2)
    ensures samples != [] && AfterMiss(samples, t, measure, budget).Err?
  {
    BracketProbesMidpoint(samples, t, low, high);
    StopStep(samples, NextScale(samples, t).value, t, measure, budget);
  }

  /** The half of a bracket that holds a scale which is not its midpoint. */
  lemma GridHalf(low: int, high: int, r: nat, x: int, mid: int, below: bool, low': int, high': int)
    requires InGrid(low, high, r, x) && mid == (low + high) / 2 && (if below then mid < x else x < mid)
    requires if below then low' == mid && high' == high else low' == low && high' == mid
    ensures r > 0 && InGrid(low', high', r - 1, x)
  {
  }

  lemma Sides(t: Target, measure: Measurement, x: int, mid: int)
    requires Separates(x, t, measure) && mid > 0 && !InRange(t, measure(mid))
    ensures if Below(t, measure(mid)) then mid < x else x < mid
  {
  }

  lemma {:induction false} GridFinds(samples: seq<Sample>, t: Target, measure: Measurement, budget: nat, low: int, high: int, x: int)
    requires t.Valid() && Honest(measure) && Separates(x, t, measure) && InRange(t, measure(x)) && Observed(samples, t, measure)
    requires Bracket(samples, t, low, high) && |samples| <= budget <= MAX_CALIBRATION_SAMPLES
    requires InGrid(low, high, budget - |samples|, x)
    ensures samples != [] && AfterMiss(samples, t, measure, budget).Ok?
    decreases budget - |samples|
  {
    var mid := (low + high) / 2;
    if InRange(t, measure(mid)) {
      ProbeHits(samples, t, measure, budget, low, high, mid);
    } else {
      Sides(t, measure, x, mid);
      var more, low', high' := Bisected(samples, t, measure, budget, low, high, mid);
      GridHalf(low, high, budget - |samples|, x, mid, Below(t, measure(mid)), low', high');
      GridFinds(more, t, measure, budget, low', high', x);
    }
  }

  lemma {:induction false} GridFound(samples: seq<Sample>, t: Target, measure: Measurement, budget: nat, low: int, high: int)
    returns (x: int)
    requires t.Valid() && Honest(measure) && Observed(samples, t, measure)
    requires Bracket(samples, t, low, high) && |samples| <= budget <= MAX_CALIBRATION_SAMPLES
    requires samples != [] && AfterMiss(samples, t, measure, budget).Ok?
    ensures InGrid(low, high, budget - |samples|, x) && InRange(t, measure(x))
    decreases budget - |samples|
  {
    if |samples| == budget || high - low < 2 { BracketExhausted(samples, t, measure, budget, low, high); }
    var mid := (low + high) / 2;
    if InRange(t, measure(mid)) {
      x := mid;
    } else {
      var more, low', high' := Bisected(samples, t, measure, budget, low, high, mid);
      x := GridFound(more, t, measure, budget, low', high');
      GridInside(low', high', budget - |more|, x);
    }
  }

  lemma PhaseExhausted(samples: seq<Sample>, t: Target, measure: Measurement, budget: nat)
    requires t.Valid() && Honest(measure) && Observed(samples, t, measure) && samples != [] && Phase(samples, t)
    requires |samples| <= budget <= MAX_CALIBRATION_SAMPLES && (|samples| == budget || NextScale(samples, t) == Ok(None))
    ensures AfterMiss(samples, t, measure, budget).Err?
  {
    PhaseSteps(samples, t, measure);
    StopStep(samples, NextScale(samples, t).value, t, measure, budget);
  }

  lemma DoubleHits(samples: seq<Sample>, t: Target, measure: Measurement, budget: nat, latest: int)
    requires t.Valid() && Honest(measure) && Observed(samples, t, measure) && |samples| < budget <= MAX_CALIBRATION_SAMPLES
    requires Doubling(samples, t, latest) && InRange(t, measure(2 * latest))
    ensures samples != [] && AfterMiss(samples, t, measure, budget).Ok?
  {
    DoublingProbesTwice(samples, t, latest);
    Advance(samples, 2 * latest, t, measure, budget);
  }

  lemma DoubleMisses(samples: seq<Sample>, t: Target, measure: Measurement, budget: nat, latest: int) returns (more: seq<Sample>)
    requires t.Valid() && Honest(measure) && Observed(samples, t, measure) && |samples| < budget <= MAX_CALIBRATION_SAMPLES
    requires Doubling(samples, t, latest) && !InRange(t, measure(2 * latest))
    ensures |more| == |samples| + 1 && samples != [] && Observed(more, t, measure)
    ensures if Below(t, measure(2 * latest)) then Doubling(more, t, 2 * latest) else Bracket(more, t, latest, 2 * latest)
    ensures AfterMiss(samples, t, measure, budget) == AfterMiss(more, t, measure, budget)
  {
    DoublingProbesTwice(samples, t, latest);
    Advance(samples, 2 * latest, t, measure, budget);
    DoublingSteps(samples, t, latest, measure(2 * latest));
    more := samples + [measure(2 * latest)];
  }

  lemma {:induction false} DoublingFinds(samples: seq<Sample>, t: Target, measure: Measurement, budget: nat, latest: int, x: int)
    requires t.Valid() && Honest(measure) && Separates(x, t, measure) && InRange(t, measure(x)) && Observed(samples, t, measure)
    requires Doubling(samples, t, latest) && |samples| <= budget <= MAX_CALIBRATION_SAMPLES
    requires ByDoubling(latest, budget - |samples|, x)
    ensures samples != [] && AfterMiss(samples, t, measure, budget).Ok?
    decreases budget - |samples|
  {
    if InRange(t, measure(2 * latest)) {
      DoubleHits(samples, t, measure, budget, latest);
    } else {
      var more := DoubleMisses(samples, t, measure, budget, latest);
      if Below(t, measure(2 * latest)) {
        DoublingFinds(more, t, measure, budget, 2 * latest, x);
      } else {
        GridFinds(more, t, measure, budget, latest, 2 * latest, x);
      }
    }
  }

  lemma TwiceIsReached(latest: int, r: nat)
    requires r > 0
    ensures ByDoubling(latest, r, 2 * latest)
  {
  }

  lemma DoublingReachGrows(latest: int, r: nat, x: int)
    requires latest > 0 && ((ByDoubling(2 * latest, r, x) && x > 2 * latest) || InGrid(latest, 2 * latest, r, x))
    ensures x > latest && ByDoubling(latest, r + 1, x)
  {
    if InGrid(latest, 2 * latest, r, x) { GridInside(latest, 2 * latest, r, x); }
  }

  lemma {:induction false} DoublingFound(samples: seq<Sample>, t: Target, measure: Measurement, budget: nat, latest: int, r: nat)
    returns (x: int)
    requires t.Valid() && Honest(measure) && Observed(samples, t, measure)
    requires Doubling(samples, t, latest) && |samples| + r == budget <= MAX_CALIBRATION_SAMPLES
    requires samples != [] && AfterMiss(samples, t, measure, budget).Ok?
    ensures x > latest && ByDoubling(latest, r, x) && InRange(t, measure(x))
    decreases r, 0
  {
    if |samples| == budget { PhaseExhausted(samples, t, measure, budget); }
    if InRange(t, measure(2 * latest)) {
      TwiceIsReached(latest, r);
      return 2 * latest;
    }
    var more := DoubleMisses(samples, t, measure, budget, latest);
    x := DoublingFoundNext(more, t, measure, budget, latest, r);
  }

  lemma {:induction false} DoublingFoundNext(more: seq<Sample>, t: Target, measure: Measurement, budget: nat, latest: int, r: nat)
    returns (x: int)
    requires t.Valid() && Honest(measure) && Observed(more, t, measure) && |more| <= budget <= MAX_CALIBRATION_SAMPLES && latest > 0
    requires Doubling(more, t, 2 * latest) || Bracket(more, t, latest, 2 * latest)
    requires more != [] && AfterMiss(more, t, measure, budget).Ok?
    requires r > 0 && |more| + (r - 1) == budget
    ensures x > latest && ByDoubling(latest, r, x) && InRange(t, measure(x))
    decreases r - 1, 1
  {
    if Doubling(more, t, 2 * latest) {
      x := DoublingFound(more, t, measure, budget, 2 * latest, r - 1);
    } else {
      x := GridFound(more, t, measure, budget, latest, 2 * latest);
    }
    DoublingReachGrows(latest, r - 1, x);
  }

  lemma HalfHits(samples: seq<Sample>, t: Target, measure: Measurement, budget: nat, latest: int)
    requires t.Valid() && Honest(measure) && Observed(samples, t, measure) && |samples| < budget <= MAX_CALIBRATION_SAMPLES
    requires Halving(samples, t, latest) && latest > 1 && InRange(t, measure(latest / 2))
    ensures samples != [] && AfterMiss(samples, t, measure, budget).Ok?
  {
    HalvingProbesHalf(samples, t, latest);
    Advance(samples, latest / 2, t, measure, budget);
  }

  lemma HalfMisses(samples: seq<Sample>, t: Target, measure: Measurement, budget: nat, latest: int) returns (more: seq<Sample>)
    requires t.Valid() && Honest(measure) && Observed(samples, t, measure) && |samples| < budget <= MAX_CALIBRATION_SAMPLES
    requires Halving(samples, t, latest) && latest > 1 && !InRange(t, measure(latest / 2))
    ensures |more| == |samples| + 1 && samples != [] && Observed(more, t, measure)
    ensures if Above(t, measure(latest / 2)) then Halving(more, t, latest / 2) else Bracket(more, t, latest / 2, latest)
    ensures AfterMiss(samples, t, measure, budget) == AfterMiss(more, t, measure, budget)
  {
    HalvingProbesHalf(samples, t, latest);
    Advance(samples, latest / 2, t, measure, budget);
    HalvingSteps(samples, t, latest, measure(latest / 2));
    more := samples + [measure(latest / 2)];
  }

  lemma {:induction false} HalvingFinds(samples: seq<Sample>, t: Target, measure: Measurement, budget: nat, latest: int, x: int)
    requires t.Valid() && Honest(measure) && Separates(x, t, measure) && InRange(t, measure(x)) && Observed(samples, t, measure)
    requires Halving(samples, t, latest) && |samples| <= budget <= MAX_CALIBRATION_SAMPLES
    requires ByHalving(latest, budget - |samples|, x)
    ensures samples != [] && AfterMiss(samples, t, measure, budget).Ok?
    decreases budget - |samples|
  {
    if InRange(t, measure(latest / 2)) {
      HalfHits(samples, t, measure, budget, latest);
    } else {
      var more := HalfMisses(samples, t, measure, budget, latest);
      if Above(t, measure(latest / 2)) {
        HalvingFinds(more, t, measure, budget, latest / 2, x);
      } else {
        GridFinds(more, t, measure, budget, latest / 2, latest, x);
      }
    }
  }

  lemma HalfIsReached(latest: int, r: nat)
    requires r > 0 && latest > 1
    ensures ByHalving(latest, r, latest / 2)
  {
  }

  lemma HalvingReachGrows(latest: int, r: nat, x: int)
    requires latest > 1 && ((ByHalving(latest / 2, r, x) && x < latest / 2) || InGrid(latest / 2, latest, r, x))
    ensures x < latest && ByHalving(latest, r + 1, x)
  {
    if InGrid(latest / 2, latest, r, x) { GridInside(latest / 2, latest, r, x); }
  }

  lemma HalvingGoesOn(samples: seq<Sample>, t: Target, measure: Measurement, budget: nat, latest: int)
    requires t.Valid() && Honest(measure) && Observed(samples, t, measure)
    requires Halving(samples, t, latest) && |samples| <= budget <= MAX_CALIBRATION_SAMPLES
    requires samples != [] && AfterMiss(samples, t, measure, budget).Ok?
    ensures |samples| < budget && latest > 1
  {
    HalvingProbesHalf(samples, t, latest);
    if |samples| == budget || latest == 1 { PhaseExhausted(samples, t, measure, budget); }
  }

  lemma {:induction false} HalvingFound(samples: seq<Sample>, t: Target, measure: Measurement, budget: nat, latest: int, r: nat)
    returns (x: int)
    requires t.Valid() && Honest(measure) && Observed(samples, t, measure)
    requires Halving(samples, t, latest) && |samples| + r == budget <= MAX_CALIBRATION_SAMPLES
    requires samples != [] && AfterMiss(samples, t, measure, budget).Ok?
    ensures x < latest && ByHalving(latest, r, x) && InRange(t, measure(x))
    decreases r, 0
  {
    HalvingGoesOn(samples, t, measure, budget, latest);
    if InRange(t, measure(latest / 2)) {
      HalfIsReached(latest, r);
      return latest / 2;
    }
    var more := HalfMisses(samples, t, measure, budget, latest);
    x := HalvingFoundNext(more, t, measure, budget, latest, r);
  }

  lemma {:induction false} HalvingFoundNext(more: seq<Sample>, t: Target, measure: Measurement, budget: nat, latest: int, r: nat)
    returns (x: int)
    requires t.Valid() && Honest(measure) && Observed(more, t, measure) && |more| <= budget <= MAX_CALIBRATION_SAMPLES && latest > 1
    requires Halving(more, t, latest / 2) || Bracket(more, t, latest / 2, latest)
    requires more != [] && AfterMiss(more, t, measure, budget).Ok?
    requires r > 0 && |more| + (r - 1) == budget
    ensures x < latest && ByHalving(latest, r, x) && InRange(t, measure(x))
    decreases r - 1, 1
  {
    if Halving(more, t, latest / 2) {
      x := HalvingFound(more, t, measure, budget, latest / 2, r - 1);
    } else {
      x := GridFound(more, t, measure, budget, latest / 2, latest);
    }
    HalvingReachGrows(latest, r - 1, x);
  }

  lemma ReachFinds(baseScale: int, t: Target, measure: Measurement, budget: nat, x: int)
    requires baseScale > 0 && t.Valid() && Honest(measure) && Nondecreasing(measure) && budget <= MAX_CALIBRATION_SAMPLES
    requires Reaches(baseScale, budget, x) && InRange(t, measure(x))
    ensures Search([], Some(baseScale), t, measure, budget).Ok?
  {
    ReachIsPositive(baseScale, budget, x);
    HitSeparates(x, t, measure);
    FirstStep(baseScale, t, measure, budget);
    var first := measure(baseScale);
    if !InRange(t, first) {
      FirstPhase(t, first);
      if Below(t, first) {
        DoublingFinds([first], t, measure, budget, baseScale, x);
      } else {
        HalvingFinds([first], t, measure, budget, baseScale, x);
      }
    }
  }

  lemma FoundAfterFirst(baseScale: int, t: Target, measure: Measurement, budget: nat) returns (x: int)
    requires baseScale > 0 && t.Valid() && Honest(measure) && 1 <= budget <= MAX_CALIBRATION_SAMPLES
    requires Observed([measure(baseScale)], t, measure) && AfterMiss([measure(baseScale)], t, measure, budget).Ok?
    ensures Reaches(baseScale, budget, x) && InRange(t, measure(x))
  {
    var first := [measure(baseScale)];
    assert first[0] in first;
    FirstPhase(t, first[0]);
    if Below(t, first[0]) {
      x := DoublingFound(first, t, measure, budget, baseScale, budget - 1);
    } else {
      x := HalvingFound(first, t, measure, budget, baseScale, budget - 1);
    }
  }

  lemma ReachFound(baseScale: int, t: Target, measure: Measurement, budget: nat) returns (x: int)
    requires baseScale > 0 && t.Valid() && Honest(measure) && 1 <= budget <= MAX_CALIBRATION_SAMPLES
    requires Search([], Some(baseScale), t, measure, budget).Ok?
    ensures Reaches(baseScale, budget, x) && InRange(t, measure(x))
  {
    FirstStep(baseScale, t, measure, budget);
    if InRange(t, measure(baseScale)) {
      x := baseScale;
    } else {
      x := FoundAfterFirst(baseScale, t, measure, budget);
    }
  }

  /** The calibration of a nondecreasing measurement passes exactly when one of the scales it
      can reach is in range: for every start, every target and every budget. */
  lemma PassesIffReachable(baseScale: int, t: Target, measure: Measurement, budget: nat)
    requires baseScale > 0 && t.Valid() && Honest(measure) && Nondecreasing(measure)
    requires 1 <= budget <= MAX_CALIBRATION_SAMPLES
    ensures Search([], Some(baseScale), t, measure, budget).Ok? <==> exists x :: Reaches(baseScale, budget, x) && InRange(t, measure(x))
  {
    if Search([], Some(baseScale), t, measure, budget).Ok? {
      var x := ReachFound(baseScale, t, measure, budget);
    }
    forall x | Reaches(baseScale, budget, x) && InRange(t, measure(x)) ensures Search([], Some(baseScale), t, measure, budget).Ok? {
      ReachFinds(baseScale, t, measure, budget, x);
    }
  }

  // -------------------------------------------------------------------- the default start

  /** How far apart the scales are that twelve samples from scale 4 can reach. */
  function GridStep(x: int): int {
    if x <= 128 then 1 else if x <= 256 then 4 else if x <= 512 then 16 else if x <= 1024 then 64 else if x <= 2048 then 256
    else if x <= 4096 then 1024 else 4096
  }

  predicate OnGrid(x: int) { 0 < x <= 8192 && x % GridStep(x) == 0 }

  lemma {:induction false} AllInside(low: int, high: int, r: nat, x: int)
    requires low < x < high <= low + Pow2(r)
    ensures InGrid(low, high, r, x)
    decreases r
  {
    var mid := (low + high) / 2;
    if x < mid { AllInside(low, mid, r - 1, x); } else if x > mid { AllInside(mid, high, r - 1, x); }
  }

  ghost predicate Multiple(y: int, step: int) { exists c: int :: y == step * c }

  lemma MultipleShift(y: int, step: int, c: int)
    ensures Multiple(y, step) <==> Multiple(y - step * c, step)
  {
    if d: int :| y == step * d { assert y - step * c == step * (d - c); }
    if d: int :| y - step * c == step * d { assert y == step * (d + c); }
  }

  lemma NoMultipleBetween(y: int, step: int)
    requires 0 < y < step
    ensures !Multiple(y, step)
  {
    forall c: int ensures y != step * c {
      if c >= 1 { assert step * c >= step; } else { assert step * c <= 0; }
    }
  }

  /** Bisecting a bracket of step * 2^r reaches exactly the multiples of the step. */
  lemma {:induction false} GridIs(low: int, step: int, r: nat, x: int)
    requires step > 0 && low < x < low + step * Pow2(r)
    ensures InGrid(low, low + step * Pow2(r), r, x) <==> Multiple(x - low, step)
    decreases r
  {
    if r == 0 {
      NoMultipleBetween(x - low, step);
    } else {
      var half := step * Pow2(r - 1);
      assert step * Pow2(r) == half + half && half >= 1 by { assert Pow2(r) == 2 * Pow2(r - 1); }
      var mid := low + half;
      MultipleShift(x - low, step, Pow2(r - 1));
      assert x - low - step * Pow2(r - 1) == x - mid;
      if x < mid {
        GridIs(low, step, r - 1, x);
      } else if x > mid {
        GridIs(mid, step, r - 1, x);
      } else {
        assert x - low == step * Pow2(r - 1);
      }
    }
  }

  lemma Powers()
    ensures Pow2(2) == 4 && Pow2(3) == 8 && Pow2(4) == 16 && Pow2(5) == 32 && Pow2(6) == 64 && Pow2(7) == 128
    ensures Pow2(8) == 256 && Pow2(9) == 512 && Pow2(10) == 1024 && Pow2(11) == 2048 && Pow2(12) == 4096 && Pow2(13) == 8192
  {
    assert Pow2(4) == 16;
    assert Pow2(6) == 64;
    assert Pow2(8) == 256;
    assert Pow2(10) == 1024;
    assert Pow2(12) == 4096;
  }

  /** Between two powers, from the lower of which on r probes are left. */
  lemma Octave(low: int, step: int, r: nat, x: int)
    requires step > 0 && low == step * Pow2(r) && low < x < 2 * low
    ensures InGrid(low, 2 * low, r, x) <==> Multiple(x, step)
  {
    GridIs(low, step, r, x);
    MultipleShift(x, step, Pow2(r));
  }

  lemma OctaveOf(i: nat, x: int)
    requires 2 <= i <= 12 && Pow2(i) < x < 2 * Pow2(i)
    ensures InGrid(Pow2(i), 2 * Pow2(i), 12 - i, x) <==> x % GridStep(x) == 0
  {
    Powers();
    if i <= 6 {
      PowersGrow(i, 12 - i);
      PowersGrow(i, 6);
      AllInside(Pow2(i), 2 * Pow2(i), 12 - i, x);
    } else if i == 7 { Octave(128, 4, 5, x); } else if i == 8 { Octave(256, 16, 4, x); } else if i == 9 { Octave(512, 64, 3, x); }
    else if i == 10 { Octave(1024, 256, 2, x); } else if i == 11 { Octave(2048, 1024, 1, x); } else { Octave(4096, 4096, 0, x); }
    if i >= 7 { MultipleMod(x, GridStep(x)); }
  }

  lemma MultipleMod(x: int, step: int)
    requires step > 0
    ensures Multiple(x, step) <==> x % step == 0
  {
    assert x == step * (x / step) + x % step;
    if c: int :| x == step * c { NoRemainder(step, c); }
  }

  lemma NoRemainder(step: int, c: int)
    requires step > 0
    ensures (step * c) % step == 0
  {
    var q, m := (step * c) / step, (step * c) % step;
    assert step * c == step * q + m && 0 <= m < step;
    assert step * (c - q) == m;
    if m > 0 { NoMultipleBetween(m, step); assert Multiple(m, step); }
  }

  lemma {:induction false} PowersGrow(a: nat, b: nat)
    requires a <= b
    ensures Pow2(a) <= Pow2(b)
    decreases b
  {
    if a < b { PowersGrow(a, b - 1); }
  }

  lemma PowerOnGrid(i: nat)
    requires 2 <= i <= 13
    ensures OnGrid(Pow2(i))
  {
    Powers();
    PowersGrow(i, 13);
    if i <= 7 { PowersGrow(i, 7); }
  }

  lemma {:induction false} DoublingReach(i: nat, x: int)
    requires 2 <= i <= 13 && x > Pow2(i)
    ensures ByDoubling(Pow2(i), 13 - i, x) <==> OnGrid(x)
    decreases 13 - i
  {
    Powers();
    if i < 13 {
      var next := Pow2(i + 1);
      assert next == 2 * Pow2(i);
      PowersGrow(i + 1, 13);
      if x == next {
        PowerOnGrid(i + 1);
      } else if x < next {
        OctaveOf(i, x);
      } else {
        DoublingReach(i + 1, x);
      }
    }
  }

  /** From scale 4, twelve samples reach every scale up to 128 and then every 4th up to 256,
      every 16th up to 512, and so on up to 8192. */
  lemma DefaultReach(x: int)
    ensures Reaches(4, MAX_CALIBRATION_SAMPLES, x) <==> OnGrid(x)
  {
    Powers();
    if x > 4 {
      DoublingReach(2, x);
    } else if 0 < x < 4 {
      assert ByHalving(2, 10, 1) && ByHalving(4, 11, 1) && ByHalving(4, 11, 2);
      assert InGrid(2, 4, 10, 3) && ByHalving(4, 11, 3);
    } else if x <= 0 && Reaches(4, MAX_CALIBRATION_SAMPLES, x) {
      ReachIsPositive(4, MAX_CALIBRATION_SAMPLES, x);
    }
  }

  /** The default calibration of a nondecreasing measurement passes exactly when a scale of
      that grid is in range. */
  lemma DefaultCalibrationIff(t: Target, measure: Measurement)
    requires t.Valid() && Honest(measure) && Nondecreasing(measure)
    ensures Search([], Some(4), t, measure, MAX_CALIBRATION_SAMPLES).Ok? <==> exists x :: OnGrid(x) && InRange(t, measure(x))
  {
    PassesIffReachable(4, t, measure, MAX_CALIBRATION_SAMPLES);
    forall x ensures Reaches(4, MAX_CALIBRATION_SAMPLES, x) <==> OnGrid(x) { DefaultReach(x); }
  }

  /** Only scale 129 hits the target of exactly two cells. */
  function Only129(scale: int): Sample {
    Sample(scale, if scale < 129 then 1 else if scale == 129 then 2 else 3)
  }

  /** A target hit at 129 alone is missed by the default calibration, so 128 is the
      largest scale that `DefaultCalibrationPasses` can promise. */
  lemma Hit129CanBeMissed()
    ensures Honest(Only129) && Nondecreasing(Only129) && InRange(Target(2, 2), Only129(129))
    ensures Search([], Some(4), Target(2, 2), Only129, MAX_CALIBRATION_SAMPLES).Err?
  {
    DefaultCalibrationIff(Target(2, 2), Only129);
    forall x | OnGrid(x) ensures !InRange(Target(2, 2), Only129(x)) { MissedByGrid(x); }
  }

  lemma MissedByGrid(x: int)
    requires OnGrid(x)
    ensures !InRange(Target(2, 2), Only129(x))
  {
    assert !OnGrid(129);
  }
}
