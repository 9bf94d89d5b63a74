/** The clock topology of a benchmark configuration, and its expectations. */
module Clocks {
  import opened Prelude
  import opened ClockNames

  datatype Domain = Domain(id: string, clock: string)

  /** A ratio below zero fails `ValidConfig` like 0 and 1 do. */
  datatype Config = Config(profile: string, domains: seq<Domain>, perMaster: int, ratios: seq<nat>)

  function DomainId(d: Domain): string { d.id }
  function DomainClock(d: Domain): string { d.clock }

  /** `BenchmarkConfig`. */
  predicate ValidConfig(c: Config) {
    && |c.domains| == 5
    && NoRepeats(MapSeq(DomainId, c.domains)) && NoRepeats(MapSeq(DomainClock, c.domains))
    && (forall d :: d in c.domains ==> EntityId(d.id) && EntityId(d.clock))
    && EntityId(c.profile)
    && NoRepeats(c.ratios) && (forall r :: r in c.ratios ==> r > 1)
    && c.perMaster > 0 && c.perMaster == |c.ratios|
  }

  /** `master_periods`. */
  function MasterPeriods(c: Config): map<string, real> {
    if c.profile == "full"
    then map["clk_ingress" := 5.0, "clk_schedule" := 5.0, "clk_dma" := 5.0, "clk_compute" := 5.0, "clk_control" := 5.0]
    else map["clk_ingress" := 10.0, "clk_schedule" := 14.0, "clk_dma" := 18.0, "clk_compute" := 22.0, "clk_control" := 26.0]
  }

  const KNOWN_CLOCKS: set<string> := {"clk_ingress", "clk_schedule", "clk_dma", "clk_compute", "clk_control"}

  // ----------------------------------------------------------------------------- slots

  /** One generated clock of the topology: a domain and the k-th ratio. */
  datatype Slot = Slot(domain: Domain, index: nat, ratio: nat)

  function Row(d: Domain, ratios: seq<nat>, k: nat): seq<Slot>
    requires k <= |ratios|
    decreases |ratios| - k
  {
    if k == |ratios| then [] else [Slot(d, k, ratios[k])] + Row(d, ratios, k + 1)
  }

  /** The order in which every builder visits the generated clocks. */
  function Slots(domains: seq<Domain>, ratios: seq<nat>): seq<Slot> {
    if domains == [] then [] else Row(domains[0], ratios, 0) + Slots(domains[1..], ratios)
  }

  function SlotName(s: Slot): string { ClockName(s.domain.id, s.ratio) }
  function SlotMaster(s: Slot): string { s.domain.clock }

  lemma {:induction false} RowSpec(d: Domain, ratios: seq<nat>, k: nat)
    requires k <= |ratios|
    ensures |Row(d, ratios, k)| == |ratios| - k
    ensures forall i :: 0 <= i < |ratios| - k ==> Row(d, ratios, k)[i] == Slot(d, k + i, ratios[k + i])
    decreases |ratios| - k
  {
    if k < |ratios| { RowSpec(d, ratios, k + 1); }
  }

  lemma {:induction false} SlotsLength(domains: seq<Domain>, ratios: seq<nat>)
    ensures |Slots(domains, ratios)| == |domains| * |ratios|
  {
    if domains != [] {
      RowSpec(domains[0], ratios, 0);
      SlotsLength(domains[1..], ratios);
      var n := |domains[1..]|;
      assert (n + 1) * |ratios| == |ratios| + n * |ratios|;
    }
  }

  lemma Offset(n: nat, i: nat, k: nat, m: nat)
    requires i < m && k < n
    ensures i * n + k < m * n
    ensures (i + 1) * n + k == n + (i * n + k)
  {
    assert (i + 1) * n <= m * n;
    assert (i + 1) * n == i * n + n;
  }

  /** The k-th ratio of the i-th domain comes where the nested loops put it. */
  lemma {:induction false} SlotAt(domains: seq<Domain>, ratios: seq<nat>, i: nat, k: nat)
    requires i < |domains| && k < |ratios|
    ensures |Slots(domains, ratios)| == |domains| * |ratios| && i * |ratios| + k < |Slots(domains, ratios)|
    ensures Slots(domains, ratios)[i * |ratios| + k] == Slot(domains[i], k, ratios[k])
  {
    var n := |ratios|;
    SlotsLength(domains, ratios);
    Offset(n, i, k, |domains|);
    RowSpec(domains[0], ratios, 0);
    if i > 0 {
      SlotAt(domains[1..], ratios, i - 1, k);
      Offset(n, i - 1, k, |domains|);
    }
  }

  predicate SlotOf(s: Slot, domains: seq<Domain>, ratios: seq<nat>) {
    s.domain in domains && s.index < |ratios| && s.ratio == ratios[s.index]
  }

  lemma {:induction false} SlotsSpec(domains: seq<Domain>, ratios: seq<nat>)
    ensures forall s :: s in Slots(domains, ratios) <==> SlotOf(s, domains, ratios)
  {
    if domains != [] {
      var row, rest := Row(domains[0], ratios, 0), Slots(domains[1..], ratios);
      RowSpec(domains[0], ratios, 0);
      SlotsSpec(domains[1..], ratios);
      assert domains == [domains[0]] + domains[1..];
      forall s ensures s in row + rest <==> SlotOf(s, domains, ratios) {
        if SlotOf(s, domains, ratios) && s.domain == domains[0] { assert row[s.index] == s; }
      }
    }
  }

  lemma {:induction false} SlotNamesDistinct(domains: seq<Domain>, ratios: seq<nat>)
    requires Distinct(MapSeq(DomainId, domains)) && Distinct(ratios)
    ensures Distinct(MapSeq(SlotName, Slots(domains, ratios)))
  {
    if domains != [] {
      var row, rest := Row(domains[0], ratios, 0), Slots(domains[1..], ratios);
      var ids := MapSeq(DomainId, domains);
      MapAt(DomainId, domains);
      MapAt(DomainId, domains[1..]);
      SlotNamesDistinct(domains[1..], ratios);
      SlotsSpec(domains[1..], ratios);
      RowSpec(domains[0], ratios, 0);
      MapConcat(SlotName, row, rest);
      MapAt(SlotName, row);
      MapAt(SlotName, rest);
      var a, b := MapSeq(SlotName, row), MapSeq(SlotName, rest);
      forall i, j | 0 <= i < j < |a| ensures a[i] != a[j] {
        if a[i] == a[j] { ClockNameInjective(row[i].domain.id, row[i].ratio, row[j].domain.id, row[j].ratio); }
      }
      forall i, j | 0 <= i < |a| && 0 <= j < |b| ensures a[i] != b[j] {
        assert rest[j] in rest;
        var m :| 0 <= m < |domains[1..]| && domains[1..][m] == rest[j].domain;
        assert ids[0] != ids[m + 1];
        if a[i] == b[j] { ClockNameInjective(row[i].domain.id, row[i].ratio, rest[j].domain.id, rest[j].ratio); }
      }
    }
  }

  lemma {:induction false} CountSame(column: seq<string>, x: string, m: string)
    requires forall y :: y in column ==> y == x
    ensures multiset(column)[m] == if m == x then |column| else 0
  {
    if column != [] {
      assert column == [column[0]] + column[1..] && column[0] in column;
      forall y | y in column[1..] ensures y == x { assert y in column; }
      CountSame(column[1..], x, m);
    }
  }

  lemma RowMasters(d: Domain, ratios: seq<nat>, m: string)
    ensures multiset(MapSeq(SlotMaster, Row(d, ratios, 0)))[m] == if m == d.clock then |ratios| else 0
  {
    var row := Row(d, ratios, 0);
    RowSpec(d, ratios, 0);
    MapAt(SlotMaster, row);
    CountSame(MapSeq(SlotMaster, row), d.clock, m);
  }

  /** Each master clock gets exactly one generated clock per ratio. */
  lemma {:induction false} SlotMasters(domains: seq<Domain>, ratios: seq<nat>, m: string)
    requires Distinct(MapSeq(DomainClock, domains))
    ensures multiset(MapSeq(SlotMaster, Slots(domains, ratios)))[m] == if m in MapSeq(DomainClock, domains) then |ratios| else 0
  {
    if domains != [] {
      var row, rest := Row(domains[0], ratios, 0), Slots(domains[1..], ratios);
      var clocks := MapSeq(DomainClock, domains);
      MapAt(DomainClock, domains);
      MapAt(DomainClock, domains[1..]);
      assert clocks == [domains[0].clock] + MapSeq(DomainClock, domains[1..]);
      SlotMasters(domains[1..], ratios, m);
      RowMasters(domains[0], ratios, m);
      MapConcat(SlotMaster, row, rest);
    }
  }

  // ----------------------------------------------------------------------- expectations

  datatype Wave = EVEN_50_PERCENT | ODD_ALTERNATING_DUTY

  datatype Expected = Expected(clockId: string, domainId: string, masterId: string, ratio: nat, wave: Wave, consumer: string)

  datatype Expectations = Expectations(masterIds: seq<string>, generated: seq<Expected>, masters: int, perMaster: int, total: int)

  function Subsystem(domain: string): string { if domain == "schedule" then "u_schedule" else "u_" + domain }

  function ExpectedFor(s: Slot): Expected {
    Expected(SlotName(s), s.domain.id, s.domain.clock, s.ratio,
             if s.ratio % 2 == 0 then EVEN_50_PERCENT else ODD_ALTERNATING_DUTY,
             Subsystem(s.domain.id) + ".u_domain.gen_consumers[" + Decimal(s.index) + "].u_consumer")
  }

  function ExpectedId(e: Expected): string { e.clockId }
  function ExpectedMaster(e: Expected): string { e.masterId }

  /** All numbers of the per-master table are `n`: Python's `set(counts.values()) == {n}`. */
  predicate UniformCounts(masters: seq<string>, column: seq<string>, n: int) {
    masters != [] && forall m :: m in masters ==> multiset(column)[m] == n
  }

  predicate AllIds(ids: seq<string>) { forall id :: id in ids ==> EntityId(id) }

  /** `BenchmarkExpectations`. */
  predicate ValidExpectations(e: Expectations) {
    && e.masters > 0 && e.perMaster > 0 && e.total > 0
    && AllIds(MapSeq(ExpectedId, e.generated))
    && NoRepeats(e.masterIds) && |e.masterIds| == e.masters
    && NoRepeats(MapSeq(ExpectedId, e.generated)) && |e.generated| == e.total
    && e.masters * e.perMaster == e.total
    && Uniform(e.masterIds, MapSeq(ExpectedMaster, e.generated), e.perMaster)
  }

  /** The counting loop of the validators: how often each master is named, or nothing when
      some generated clock names a master that is not in the table. */
  method CountPerMaster(masters: seq<string>, column: seq<string>) returns (counts: Option<map<string, int>>)
    ensures counts.Some? <==> forall m :: m in column ==> m in masters
    ensures counts.Some? ==> counts.value.Keys == SetOf(masters) && forall m :: m in masters ==> counts.value[m] == multiset(column)[m]
  {
    var table := map m | m in masters :: 0;
    var i := 0;
    while i < |column|
      invariant 0 <= i <= |column| && table.Keys == SetOf(masters)
      invariant forall k :: 0 <= k < i ==> column[k] in masters
      invariant forall m :: m in masters ==> table[m] == multiset(column[..i])[m]
    {
      if column[i] !in table { return None; }
      assert column[..i + 1] == column[..i] + [column[i]];
      table := table[column[i] := table[column[i]] + 1];
      i := i + 1;
    }
    assert column[..i] == column;
    counts := Some(table);
  }

  /** Every generated clock names a listed master, and each master is named `n` times. */
  predicate Uniform(masters: seq<string>, column: seq<string>, n: int) {
    (forall m :: m in column ==> m in masters) && UniformCounts(masters, column, n)
  }

  method CheckUniform(masters: seq<string>, column: seq<string>, n: int) returns (ok: bool)
    ensures ok <==> Uniform(masters, column, n)
  {
    var counts := CountPerMaster(masters, column);
    if counts.None? || masters == [] { return false; }
    ok := forall m :: m in masters ==> counts.value[m] == n;
  }

  method CheckExpectations(e: Expectations) returns (ok: bool)
    ensures ok <==> ValidExpectations(e)
  {
    if !(e.masters > 0 && e.perMaster > 0 && e.total > 0) { return false; }
    if !AllIds(MapSeq(ExpectedId, e.generated)) { return false; }
    if !NoRepeats(e.masterIds) || |e.masterIds| != e.masters { return false; }
    if !NoRepeats(MapSeq(ExpectedId, e.generated)) || |e.generated| != e.total { return false; }
    if e.masters * e.perMaster != e.total { return false; }
    ok := CheckUniform(e.masterIds, MapSeq(ExpectedMaster, e.generated), e.perMaster);
  }

  function ExpectationsOf(c: Config): Expectations {
    Expectations(MapSeq(DomainClock, c.domains), MapSeq(ExpectedFor, Slots(c.domains, c.ratios)),
                 |c.domains|, c.perMaster, |Slots(c.domains, c.ratios)|)
  }

  lemma SlotsUpTo(domains: seq<Domain>, ratios: seq<nat>, i: nat)
    requires i < |domains|
    ensures Slots(domains[..i + 1], ratios) == Slots(domains[..i], ratios) + Row(domains[i], ratios, 0)
    decreases i
  {
    if i == 0 {
      assert domains[..1][1..] == [];
      assert Slots(domains[..1], ratios) == Row(domains[0], ratios, 0) + Slots([], ratios);
    } else {
      SlotsUpTo(domains[1..], ratios, i - 1);
      assert domains[..i + 1][1..] == domains[1..][..i] && domains[..i][1..] == domains[1..][..i - 1];
    }
  }

  /** An expectation named after domain and ratio, of that domain and its own master clock,
      with an even waveform exactly for an even ratio, and a consumer in the subsystem. */
  predicate Expects(e: Expected, d: Domain, k: nat, ratio: nat) {
    && e.clockId == "gclk_" + d.id + "_div_" + Padded(ratio) && e.domainId == d.id && e.masterId == d.clock
    && e.ratio == ratio && (e.wave == EVEN_50_PERCENT <==> ratio % 2 == 0)
    && e.consumer == "u_" + d.id + ".u_domain.gen_consumers[" + Decimal(k) + "].u_consumer"
  }

  lemma OneExpected(s: Slot)
    ensures Expects(ExpectedFor(s), s.domain, s.index, s.ratio)
  {
    assert Subsystem(s.domain.id) == "u_" + s.domain.id;
  }

  /** The expectations hold one entry for each domain and ratio, domain by domain. */
  lemma ExpectationAt(c: Config, i: nat, k: nat) returns (n: nat)
    requires i < |c.domains| && k < |c.ratios|
    ensures n == i * |c.ratios| + k
    ensures var e := ExpectationsOf(c);
            && |e.generated| == |c.domains| * |c.ratios| == e.total && n < |e.generated|
            && Expects(e.generated[n], c.domains[i], k, c.ratios[k])
            && |e.masterIds| == |c.domains| == e.masters && e.masterIds[i] == c.domains[i].clock && e.perMaster == c.perMaster
  {
    n := i * |c.ratios| + k;
    SlotAt(c.domains, c.ratios, i, k);
    MapAt(ExpectedFor, Slots(c.domains, c.ratios));
    MapAt(DomainClock, c.domains);
    OneExpected(Slot(c.domains[i], k, c.ratios[k]));
  }

  /** The nested loops of `_build_expectations`. */
  method BuildExpectations(c: Config) returns (e: Expectations)
    ensures e == ExpectationsOf(c)
    ensures forall g :: g in e.generated ==> (g.wave == EVEN_50_PERCENT <==> g.ratio % 2 == 0)
  {
    var generated: seq<Expected> := [];
    var i := 0;
    while i < |c.domains|
      invariant 0 <= i <= |c.domains|
      invariant generated == MapSeq(ExpectedFor, Slots(c.domains[..i], c.ratios))
    {
      SlotsUpTo(c.domains, c.ratios, i);
      MapConcat(ExpectedFor, Slots(c.domains[..i], c.ratios), Row(c.domains[i], c.ratios, 0));
      var added := BuildExpectationRow(c.domains[i], c.ratios);
      generated := generated + added;
      i := i + 1;
    }
    assert c.domains[..i] == c.domains;
    MapAt(ExpectedFor, Slots(c.domains, c.ratios));
    e := Expectations(MapSeq(DomainClock, c.domains), generated, |c.domains|, c.perMaster, |generated|);
  }

  lemma RowStep(d: Domain, ratios: seq<nat>, k: nat, done: seq<Expected>)
    requires k < |ratios|
    ensures done + MapSeq(ExpectedFor, Row(d, ratios, k))
         == done + [ExpectedFor(Slot(d, k, ratios[k]))] + MapSeq(ExpectedFor, Row(d, ratios, k + 1))
  {
    assert Row(d, ratios, k)[1..] == Row(d, ratios, k + 1);
  }

  /** Its inner loop over the ratios of one domain. */
  method BuildExpectationRow(d: Domain, ratios: seq<nat>) returns (row: seq<Expected>)
    ensures row == MapSeq(ExpectedFor, Row(d, ratios, 0))
  {
    row := [];
    var k := 0;
    while k < |ratios|
      invariant 0 <= k <= |ratios|
      invariant MapSeq(ExpectedFor, Row(d, ratios, 0)) == row + MapSeq(ExpectedFor, Row(d, ratios, k))
    {
      var ratio := ratios[k];
      var name := PREFIX + d.id + INFIX + Padded(ratio);
      var wave := if ratio % 2 == 0 then EVEN_50_PERCENT else ODD_ALTERNATING_DUTY;
      var consumer := Subsystem(d.id) + ".u_domain.gen_consumers[" + Decimal(k) + "].u_consumer";
      var expected := Expected(name, d.id, d.clock, ratio, wave, consumer);
      assert expected == ExpectedFor(Slot(d, k, ratio));
      RowStep(d, ratios, k, row);
      row := row + [expected];
      k := k + 1;
    }
  }

  /** The generated names fit the length limit of an EntityId. */
  predicate ClockNamesFit(c: Config) {
    forall s :: s in Slots(c.domains, c.ratios) ==> |SlotName(s)| <= 96
  }

  lemma ConfigFacts(c: Config)
    requires ValidConfig(c)
    ensures Distinct(MapSeq(DomainId, c.domains)) && Distinct(MapSeq(DomainClock, c.domains)) && Distinct(c.ratios)
    ensures |Slots(c.domains, c.ratios)| == 5 * c.perMaster
    ensures Distinct(MapSeq(SlotName, Slots(c.domains, c.ratios)))
    ensures |MapSeq(DomainClock, c.domains)| == 5
  {
    NoRepeatsSpec(MapSeq(DomainId, c.domains));
    NoRepeatsSpec(MapSeq(DomainClock, c.domains));
    NoRepeatsSpec(c.ratios);
    SlotsLength(c.domains, c.ratios);
    SlotNamesDistinct(c.domains, c.ratios);
    MapAt(DomainClock, c.domains);
  }

  /** The master column of the slots is uniform. */
  lemma SlotsUniform(c: Config)
    requires ValidConfig(c)
    ensures Uniform(MapSeq(DomainClock, c.domains), MapSeq(SlotMaster, Slots(c.domains, c.ratios)), c.perMaster)
  {
    var clocks, column := MapSeq(DomainClock, c.domains), MapSeq(SlotMaster, Slots(c.domains, c.ratios));
    ConfigFacts(c);
    forall m ensures multiset(column)[m] == if m in clocks then |c.ratios| else 0 { SlotMasters(c.domains, c.ratios, m); }
    forall m | m in column ensures m in clocks { assert m in multiset(column); }
  }

  lemma ExpectedColumns(slots: seq<Slot>)
    ensures MapSeq(ExpectedId, MapSeq(ExpectedFor, slots)) == MapSeq(SlotName, slots)
    ensures MapSeq(ExpectedMaster, MapSeq(ExpectedFor, slots)) == MapSeq(SlotMaster, slots)
  {
    MapAt(ExpectedFor, slots);
    MapAt(ExpectedId, MapSeq(ExpectedFor, slots));
    MapAt(ExpectedMaster, MapSeq(ExpectedFor, slots));
    MapAt(SlotName, slots);
    MapAt(SlotMaster, slots);
  }

  lemma SlotNamesAreIds(c: Config)
    requires ValidConfig(c)
    ensures ClockNamesFit(c) <==> AllIds(MapSeq(SlotName, Slots(c.domains, c.ratios)))
  {
    var slots := Slots(c.domains, c.ratios);
    SlotsSpec(c.domains, c.ratios);
    MapAt(SlotName, slots);
    var names := MapSeq(SlotName, slots);
    forall i | 0 <= i < |slots| ensures EntityId(names[i]) <==> |SlotName(slots[i])| <= 96 {
      assert slots[i] in slots;
      ClockNameIsEntityId(slots[i].domain.id, slots[i].ratio);
    }
    assert forall i :: 0 <= i < |slots| ==> slots[i] in slots && names[i] in names;
  }

  /** The expectations built from a valid configuration pass their validator exactly when
      the generated names fit. */
  lemma ExpectationsValidIff(c: Config)
    requires ValidConfig(c)
    ensures ValidExpectations(ExpectationsOf(c)) <==> ClockNamesFit(c)
  {
    var slots := Slots(c.domains, c.ratios);
    ConfigFacts(c);
    SlotsUniform(c);
    ExpectedColumns(slots);
    SlotNamesAreIds(c);
    NoRepeatsSpec(MapSeq(DomainClock, c.domains));
    NoRepeatsSpec(MapSeq(SlotName, slots));
    MapAt(ExpectedFor, slots);
  }
}
