/** SDC contract and clock inventory of a configuration, with their validators. */
module ClockDocuments {
  import opened Prelude
  import opened ClockNames
  import opened Clocks

  datatype BuildError = KeyError | IdentityMismatch | ValidationFailed

  // ------------------------------------------------------------------------ SDC contract

  datatype MasterConstraint = MasterConstraint(clockId: string, domainId: string, selector: string,
                                               period: real, rise: real, fall: real)

  datatype Mode = EVEN_DIVIDE_BY | ODD_EDGE_LIST

  datatype GeneratedConstraint = GeneratedConstraint(clockId: string, domainId: string, masterId: string, source: string,
                                                     target: string, divideBy: nat, mode: Mode, edges: seq<nat>)

  datatype Exception = Exception(id: string, from: string, to: string)

  datatype Contract = Contract(masters: seq<MasterConstraint>, generated: seq<GeneratedConstraint>, groups: seq<seq<string>>,
                               inputClock: string, outputClock: string, exceptions: seq<Exception>)

  function Ports(clock: string): string { "[get_ports " + clock + "]" }

  function PeriodOf(periods: map<string, real>, clock: string): real {
    if clock in periods then periods[clock] else 0.0
  }

  function MasterFor(periods: map<string, real>): Domain -> MasterConstraint {
    (d: Domain) => MasterConstraint(d.clock, d.id, Ports(d.clock), PeriodOf(periods, d.clock), 0.0, PeriodOf(periods, d.clock) / 2.0)
  }

  function EdgesFor(ratio: nat): seq<nat> {
    if ratio % 2 == 0 then [] else [1, ratio + 2, 2 * ratio + 1]
  }

  function GeneratedFor(s: Slot): GeneratedConstraint {
    GeneratedConstraint(SlotName(s), s.domain.id, s.domain.clock, Ports(s.domain.clock),
                        "[get_nets " + s.domain.id + "_generated_clocks[" + Decimal(s.index) + "]]",
                        s.ratio, if s.ratio % 2 == 0 then EVEN_DIVIDE_BY else ODD_EDGE_LIST, EdgesFor(s.ratio))
  }

  function MasterConstraintId(m: MasterConstraint): string { m.clockId }
  function GeneratedConstraintId(g: GeneratedConstraint): string { g.clockId }
  function GeneratedConstraintMaster(g: GeneratedConstraint): string { g.masterId }
  function ExceptionId(e: Exception): string { e.id }
  function Singleton(id: string): seq<string> { [id] }

  predicate ValidMasterConstraint(m: MasterConstraint) {
    EntityId(m.clockId) && EntityId(m.domainId) && m.period > 0.0 && 0.0 <= m.rise < m.fall <= m.period
  }

  predicate ValidGeneratedConstraint(g: GeneratedConstraint) {
    && EntityId(g.clockId) && g.divideBy > 0
    && (if g.divideBy % 2 == 0 then g.mode == EVEN_DIVIDE_BY && g.edges == []
        else g.mode == ODD_EDGE_LIST && g.edges == [1, g.divideBy + 2, 2 * g.divideBy + 1])
  }

  /** `BenchmarkConstraintContract`. Comparing the sorted groups with the sorted singletons
      is comparing them as multisets. */
  predicate ValidContract(k: Contract) {
    var masterIds := MapSeq(MasterConstraintId, k.masters);
    && |k.masters| == 5
    && (forall m :: m in k.masters ==> ValidMasterConstraint(m))
    && (forall g :: g in k.generated ==> ValidGeneratedConstraint(g))
    && NoRepeats(masterIds) && NoRepeats(MapSeq(GeneratedConstraintId, k.generated))
    && multiset(k.groups) == multiset(MapSeq(Singleton, masterIds))
    && (forall m :: m in MapSeq(GeneratedConstraintMaster, k.generated) ==> m in masterIds)
    && k.inputClock in masterIds && k.outputClock in masterIds
    && NoRepeats(MapSeq(ExceptionId, k.exceptions)) && AllIds(MapSeq(ExceptionId, k.exceptions))
  }

  function Join(names: seq<string>): string {
    if names == [] then "" else if |names| == 1 then names[0] else names[0] + " " + Join(names[1..])
  }

  function NamesUnder(generated: seq<GeneratedConstraint>, master: string): seq<string> {
    if generated == [] then []
    else (if generated[0].masterId == master then [generated[0].clockId] else []) + NamesUnder(generated[1..], master)
  }

  function CrossingFor(generated: seq<GeneratedConstraint>): MasterConstraint -> Exception {
    (m: MasterConstraint) =>
      Exception("generated_to_master_" + m.domainId, "[get_clocks {" + Join(NamesUnder(generated, m.clockId)) + "}]",
                "[get_clocks " + m.clockId + "]")
  }

  /** `_reviewed_exceptions`. */
  function ReviewedExceptions(masters: seq<MasterConstraint>, generated: seq<GeneratedConstraint>): seq<Exception> {
    [Exception("async_reset_assertion", "[get_ports rst_n]", "[all_registers]")] + MapSeq(CrossingFor(generated), masters)
  }

  function ContractOf(c: Config): Contract {
    var masters := MapSeq(MasterFor(MasterPeriods(c)), c.domains);
    var generated := MapSeq(GeneratedFor, Slots(c.domains, c.ratios));
    Contract(masters, generated, MapSeq(Singleton, MapSeq(MasterConstraintId, masters)), "clk_ingress", "clk_control",
             ReviewedExceptions(masters, generated))
  }

  /** Every domain's clock has a period. */
  predicate Known(c: Config) { forall d :: d in c.domains ==> d.clock in MasterPeriods(c) }

  /** The loops of `_clock_constraints`. */
  method ClockConstraints(c: Config) returns (r: Result<(seq<MasterConstraint>, seq<GeneratedConstraint>), BuildError>)
    ensures r == if Known(c) then Ok((ContractOf(c).masters, ContractOf(c).generated)) else Err(KeyError)
  {
    if exists d :: d in c.domains && d.clock !in MasterPeriods(c) { return Err(KeyError); }
    var masters := MapSeq(MasterFor(MasterPeriods(c)), c.domains);
    var generated: seq<GeneratedConstraint> := [];
    var i := 0;
    while i < |c.domains|
      invariant 0 <= i <= |c.domains|
      invariant generated == MapSeq(GeneratedFor, Slots(c.domains[..i], c.ratios))
    {
      SlotsUpTo(c.domains, c.ratios, i);
      MapConcat(GeneratedFor, Slots(c.domains[..i], c.ratios), Row(c.domains[i], c.ratios, 0));
      var added := ConstraintRow(c.domains[i], c.ratios);
      generated := generated + added;
      i := i + 1;
    }
    assert c.domains[..i] == c.domains;
    r := Ok((masters, generated));
  }

  method ConstraintRow(d: Domain, ratios: seq<nat>) returns (row: seq<GeneratedConstraint>)
    ensures row == MapSeq(GeneratedFor, Row(d, ratios, 0))
  {
    row := [];
    var k := 0;
    while k < |ratios|
      invariant 0 <= k <= |ratios|
      invariant MapSeq(GeneratedFor, Row(d, ratios, 0)) == row + MapSeq(GeneratedFor, Row(d, ratios, k))
    {
      row := row + [GeneratedFor(Slot(d, k, ratios[k]))];
      k := k + 1;
    }
  }

  /** `render_constraints` without the SDC text. */
  method RenderConstraints(c: Config, e: Expectations) returns (r: Result<Contract, BuildError>)
    ensures r == if !Known(c) then Err(KeyError)
                 else if MapSeq(GeneratedConstraintId, ContractOf(c).generated) != MapSeq(ExpectedId, e.generated) then Err(IdentityMismatch)
                 else if !ValidContract(ContractOf(c)) then Err(ValidationFailed)
                 else Ok(ContractOf(c))
  {
    var clocks := ClockConstraints(c);
    if clocks.Err? { return Err(clocks.error); }
    var (masters, generated) := clocks.value;
    if MapSeq(GeneratedConstraintId, generated) != MapSeq(ExpectedId, e.generated) { return Err(IdentityMismatch); }
    var contract := Contract(masters, generated, MapSeq(Singleton, MapSeq(MasterConstraintId, masters)),
                             "clk_ingress", "clk_control", ReviewedExceptions(masters, generated));
    r := if ValidContract(contract) then Ok(contract) else Err(ValidationFailed);
  }

  lemma ConstraintColumns(slots: seq<Slot>)
    ensures MapSeq(GeneratedConstraintId, MapSeq(GeneratedFor, slots)) == MapSeq(SlotName, slots)
    ensures MapSeq(GeneratedConstraintMaster, MapSeq(GeneratedFor, slots)) == MapSeq(SlotMaster, slots)
  {
    MapAt(GeneratedFor, slots);
    MapAt(GeneratedConstraintId, MapSeq(GeneratedFor, slots));
    MapAt(GeneratedConstraintMaster, MapSeq(GeneratedFor, slots));
    MapAt(SlotName, slots);
    MapAt(SlotMaster, slots);
  }

  lemma MasterColumns(c: Config)
    ensures MapSeq(MasterConstraintId, ContractOf(c).masters) == MapSeq(DomainClock, c.domains)
    ensures |ContractOf(c).masters| == |c.domains|
    ensures forall i :: 0 <= i < |c.domains| ==> ContractOf(c).masters[i] == MasterFor(MasterPeriods(c))(c.domains[i])
  {
    var masters := MapSeq(MasterFor(MasterPeriods(c)), c.domains);
    MapAt(MasterFor(MasterPeriods(c)), c.domains);
    MapAt(MasterConstraintId, masters);
    MapAt(DomainClock, c.domains);
  }

  lemma SubsetOfSameSize<T>(a: set<T>, b: set<T>)
    requires a <= b && |a| == |b|
    ensures a == b
  {
    assert |b - a| == 0 by { assert b == a + (b - a); }
  }

  lemma PeriodsKnown(c: Config)
    ensures MasterPeriods(c).Keys == KNOWN_CLOCKS && |KNOWN_CLOCKS| == 5
    ensures forall k :: k in MasterPeriods(c) ==> MasterPeriods(c)[k] > 0.0
  {
  }

  /** In the full profile all master clocks run at the one short period; otherwise each is 4 ns
      slower than the one before, from 10 ns on. */
  lemma PeriodSteps(c: Config)
    ensures var p := MasterPeriods(c);
            if c.profile == "full" then forall k :: k in p ==> p[k] == 5.0
            else p["clk_ingress"] == 10.0 && p["clk_schedule"] == p["clk_ingress"] + 4.0 && p["clk_dma"] == p["clk_schedule"] + 4.0
                 && p["clk_compute"] == p["clk_dma"] + 4.0 && p["clk_control"] == p["clk_compute"] + 4.0
  {
  }

  /** Five distinct known clocks are all of them, so the two I/O clocks are declared. */
  lemma AllKnownClocksUsed(c: Config)
    requires ValidConfig(c) && Known(c)
    ensures SetOf(MapSeq(DomainClock, c.domains)) == KNOWN_CLOCKS
  {
    var clocks := MapSeq(DomainClock, c.domains);
    PeriodsKnown(c);
    MapAt(DomainClock, c.domains);
    forall k | k in SetOf(clocks) ensures k in KNOWN_CLOCKS {
      var i :| 0 <= i < |clocks| && clocks[i] == k;
      assert c.domains[i] in c.domains;
    }
    SubsetOfSameSize(SetOf(clocks), KNOWN_CLOCKS);
  }

  lemma MastersValid(c: Config)
    requires ValidConfig(c) && Known(c)
    ensures forall m :: m in ContractOf(c).masters ==> ValidMasterConstraint(m)
  {
    MasterColumns(c);
    PeriodsKnown(c);
    forall i | 0 <= i < |c.domains| ensures ValidMasterConstraint(ContractOf(c).masters[i]) {
      assert c.domains[i] in c.domains;
    }
  }

  lemma OneGeneratedValid(s: Slot)
    requires s.ratio > 1
    ensures ValidGeneratedConstraint(GeneratedFor(s)) <==> EntityId(SlotName(s))
  {
  }

  lemma GeneratedValidIff(slots: seq<Slot>)
    requires forall s :: s in slots ==> s.ratio > 1
    ensures (forall g :: g in MapSeq(GeneratedFor, slots) ==> ValidGeneratedConstraint(g)) <==> AllIds(MapSeq(SlotName, slots))
  {
    var gs, names := MapSeq(GeneratedFor, slots), MapSeq(SlotName, slots);
    MapAt(GeneratedFor, slots);
    MapAt(SlotName, slots);
    forall i | 0 <= i < |slots|
      ensures gs[i] in gs && names[i] in names && (ValidGeneratedConstraint(gs[i]) <==> EntityId(names[i]))
    {
      assert slots[i] in slots;
      OneGeneratedValid(slots[i]);
    }
  }

  const CROSSING := "generated_to_master_"

  lemma CrossingIdValid(domain: string)
    requires EntityId(domain)
    ensures EntityId(CROSSING + domain) <==> |domain| <= 76
  {
    var id := CROSSING + domain;
    assert id[0] == CROSSING[0];
    forall ch | ch in id ensures IdChar(ch) {
      if ch in CROSSING { assert IdChar(ch); } else { assert ch in domain; }
    }
  }

  lemma ExceptionIdsAt(c: Config)
    ensures var ids := MapSeq(ExceptionId, ContractOf(c).exceptions);
            |ids| == |c.domains| + 1 && ids[0] == "async_reset_assertion"
            && forall i :: 0 <= i < |c.domains| ==> ids[i + 1] == CROSSING + c.domains[i].id
  {
    var k := ContractOf(c);
    MasterColumns(c);
    MapAt(CrossingFor(k.generated), k.masters);
    MapAt(ExceptionId, k.exceptions);
  }

  predicate DomainsFit(c: Config) { forall d :: d in c.domains ==> |d.id| <= 76 }

  lemma CrossingHead(domain: string)
    ensures (CROSSING + domain)[0] == 'g' && (CROSSING + domain)[|CROSSING|..] == domain
  {
    assert CROSSING[0] == 'g';
  }

  lemma CrossingsDistinct(ids: seq<string>, domains: seq<string>)
    requires |ids| == |domains| + 1 && ids[0] == "async_reset_assertion" && Distinct(domains)
    requires forall i :: 0 <= i < |domains| ==> ids[i + 1] == CROSSING + domains[i]
    ensures Distinct(ids)
  {
    forall i, j | 0 <= i < j < |ids| ensures ids[i] != ids[j] {
      CrossingHead(domains[j - 1]);
      if i == 0 {
        assert ids[0][0] == 'a';
      } else {
        CrossingHead(domains[i - 1]);
        assert domains[i - 1] != domains[j - 1];
      }
    }
  }

  lemma CrossingsAreIds(ids: seq<string>, domains: seq<string>)
    requires |ids| == |domains| + 1 && ids[0] == "async_reset_assertion"
    requires forall i :: 0 <= i < |domains| ==> ids[i + 1] == CROSSING + domains[i] && EntityId(domains[i])
    ensures AllIds(ids) <==> forall i :: 0 <= i < |domains| ==> |domains[i]| <= 76
  {
    assert EntityId("async_reset_assertion");
    forall k | 0 <= k < |ids| ensures EntityId(ids[k]) <==> k == 0 || |domains[k - 1]| <= 76 {
      if k > 0 { CrossingIdValid(domains[k - 1]); }
    }
    assert forall k :: 0 <= k < |ids| ==> ids[k] in ids;
    if AllIds(ids) {
      forall i | 0 <= i < |domains| ensures |domains[i]| <= 76 { assert EntityId(ids[i + 1]); }
    }
  }

  lemma ExceptionsValidIff(c: Config)
    requires ValidConfig(c)
    ensures var ids := MapSeq(ExceptionId, ContractOf(c).exceptions);
            NoRepeats(ids) && (AllIds(ids) <==> DomainsFit(c))
  {
    var ids, domains := MapSeq(ExceptionId, ContractOf(c).exceptions), MapSeq(DomainId, c.domains);
    ExceptionIdsAt(c);
    ConfigFacts(c);
    MapAt(DomainId, c.domains);
    CrossingsDistinct(ids, domains);
    NoRepeatsSpec(ids);
    assert forall i :: 0 <= i < |domains| ==> c.domains[i] in c.domains;
    CrossingsAreIds(ids, domains);
    assert DomainsFit(c) <==> forall i :: 0 <= i < |domains| ==> |domains[i]| <= 76;
  }

  /** For a valid configuration over the five known clocks, the contract passes its
      validator exactly when the derived names fit the length limit of an EntityId. */
  lemma ContractValidIff(c: Config)
    requires ValidConfig(c) && Known(c)
    ensures ValidContract(ContractOf(c)) <==> ClockNamesFit(c) && DomainsFit(c)
  {
    var slots := Slots(c.domains, c.ratios);
    ConfigFacts(c);
    SlotsUniform(c);
    ConstraintColumns(slots);
    MasterColumns(c);
    MastersValid(c);
    SlotsSpec(c.domains, c.ratios);
    forall s | s in slots ensures s.ratio > 1 { assert s.ratio in c.ratios; }
    GeneratedValidIff(slots);
    SlotNamesAreIds(c);
    NoRepeatsSpec(MapSeq(SlotName, slots));
    NoRepeatsSpec(MapSeq(DomainClock, c.domains));
    AllKnownClocksUsed(c);
    assert "clk_ingress" in KNOWN_CLOCKS && "clk_control" in KNOWN_CLOCKS;
    ExceptionsValidIff(c);
  }

  // ----------------------------------------------------------------- what the contract says

  /** A master clock on the port of its name, high for the first half of its period. */
  predicate Constrains(m: MasterConstraint, d: Domain, period: real) {
    && m.clockId == d.clock && m.domainId == d.id && m.selector == "[get_ports " + d.clock + "]"
    && m.period == period && m.rise == 0.0 && m.fall == period / 2.0
  }

  /** A generated clock named after domain and ratio, from the port of its master to the
      k-th net of its domain's bank. */
  predicate Generates(g: GeneratedConstraint, d: Domain, k: nat, ratio: nat) {
    && g.clockId == "gclk_" + d.id + "_div_" + Padded(ratio) && g.domainId == d.id && g.masterId == d.clock
    && g.source == "[get_ports " + d.clock + "]"
    && g.target == "[get_nets " + d.id + "_generated_clocks[" + Decimal(k) + "]]"
    && g.divideBy == ratio
  }

  /** Domain by domain and ratio by ratio, the contract constrains the clocks of the
      configuration, with each master in an asynchronous group of its own. */
  lemma ContractAt(c: Config, i: nat, k: nat) returns (n: nat)
    requires i < |c.domains| && k < |c.ratios| && Known(c)
    ensures var t := ContractOf(c);
            && |t.masters| == |t.groups| == |c.domains| && |t.generated| == |c.domains| * |c.ratios|
            && c.domains[i].clock in MasterPeriods(c)
            && Constrains(t.masters[i], c.domains[i], MasterPeriods(c)[c.domains[i].clock])
            && t.groups[i] == [c.domains[i].clock]
            && n == i * |c.ratios| + k && n < |t.generated| && Generates(t.generated[n], c.domains[i], k, c.ratios[k])
  {
    n := i * |c.ratios| + k;
    SlotAt(c.domains, c.ratios, i, k);
    MapAt(GeneratedFor, Slots(c.domains, c.ratios));
    MasterColumns(c);
    MapAt(Singleton, MapSeq(MasterConstraintId, ContractOf(c).masters));
    MapAt(DomainClock, c.domains);
    assert c.domains[i] in c.domains;
  }

  function RatioName(d: Domain): nat -> string { (ratio: nat) => ClockName(d.id, ratio) }

  lemma {:induction false} NamesUnderConcat(a: seq<GeneratedConstraint>, b: seq<GeneratedConstraint>, master: string)
    ensures NamesUnder(a + b, master) == NamesUnder(a, master) + NamesUnder(b, master)
  {
    if a == [] { assert a + b == b; } else {
      assert (a + b)[1..] == a[1..] + b;
      NamesUnderConcat(a[1..], b, master);
    }
  }

  lemma {:induction false} RowNamesUnder(d: Domain, ratios: seq<nat>, k: nat, master: string)
    requires k <= |ratios|
    ensures NamesUnder(MapSeq(GeneratedFor, Row(d, ratios, k)), master) == if master == d.clock then MapSeq(RatioName(d), ratios[k..]) else []
    decreases |ratios| - k
  {
    if k < |ratios| {
      var slot, rest := Slot(d, k, ratios[k]), Row(d, ratios, k + 1);
      RowNamesUnder(d, ratios, k + 1, master);
      assert Row(d, ratios, k)[1..] == rest;
      assert MapSeq(GeneratedFor, Row(d, ratios, k))[1..] == MapSeq(GeneratedFor, rest);
      assert ratios[k..][0] == ratios[k] && ratios[k..][1..] == ratios[k + 1..];
    }
  }

  /** Under a master clock come the clocks generated from it and no others: one per ratio, in
      the order of the ratios. */
  lemma {:induction false} SlotNamesUnder(domains: seq<Domain>, ratios: seq<nat>, i: nat)
    requires Distinct(MapSeq(DomainClock, domains)) && i < |domains|
    ensures NamesUnder(MapSeq(GeneratedFor, Slots(domains, ratios)), domains[i].clock) == MapSeq(RatioName(domains[i]), ratios)
    decreases domains
  {
    FirstNamesUnder(domains, ratios, domains[i].clock);
    MapAt(DomainClock, domains);
    MapAt(DomainClock, domains[1..]);
    if i > 0 {
      assert MapSeq(DomainClock, domains)[0] != MapSeq(DomainClock, domains)[i];
      SlotNamesUnder(domains[1..], ratios, i - 1);
    } else {
      ForeignNamesUnder(domains[1..], ratios, domains[0].clock);
    }
  }

  lemma FirstNamesUnder(domains: seq<Domain>, ratios: seq<nat>, master: string)
    requires domains != []
    ensures NamesUnder(MapSeq(GeneratedFor, Slots(domains, ratios)), master)
              == (if master == domains[0].clock then MapSeq(RatioName(domains[0]), ratios) else [])
                 + NamesUnder(MapSeq(GeneratedFor, Slots(domains[1..], ratios)), master)
  {
    var row, rest := Row(domains[0], ratios, 0), Slots(domains[1..], ratios);
    MapConcat(GeneratedFor, row, rest);
    NamesUnderConcat(MapSeq(GeneratedFor, row), MapSeq(GeneratedFor, rest), master);
    RowNamesUnder(domains[0], ratios, 0, master);
    assert ratios[0..] == ratios;
  }

  lemma {:induction false} ForeignNamesUnder(domains: seq<Domain>, ratios: seq<nat>, master: string)
    requires forall j :: 0 <= j < |domains| ==> domains[j].clock != master
    ensures NamesUnder(MapSeq(GeneratedFor, Slots(domains, ratios)), master) == []
    decreases domains
  {
    if domains != [] {
      FirstNamesUnder(domains, ratios, master);
      ForeignNamesUnder(domains[1..], ratios, master);
    }
  }

  /** The reviewed exceptions: the reset port to all registers, and for each domain from
      exactly the clocks generated for it to the master clock that they come from. */
  lemma ExceptionAt(c: Config, i: nat)
    requires ValidConfig(c) && i < |c.domains|
    ensures var es, d := ContractOf(c).exceptions, c.domains[i];
            && |es| == |c.domains| + 1
            && es[0] == Exception("async_reset_assertion", "[get_ports rst_n]", "[all_registers]")
            && es[i + 1] == Exception("generated_to_master_" + d.id,
                                      "[get_clocks {" + Join(MapSeq(RatioName(d), c.ratios)) + "}]",
                                      "[get_clocks " + d.clock + "]")
  {
    var k := ContractOf(c);
    MasterColumns(c);
    ConfigFacts(c);
    SlotNamesUnder(c.domains, c.ratios, i);
    MapAt(CrossingFor(k.generated), k.masters);
    assert k.masters[i].clockId == c.domains[i].clock && k.masters[i].domainId == c.domains[i].id;
  }

  // -------------------------------------------------------------------- clock inventory

  datatype MasterEntry = MasterEntry(clockId: string, domainId: string, source: string, period: real,
                                     rise: real, fall: real, consumers: int)

  datatype GeneratedEntry = GeneratedEntry(clockId: string, domainId: string, masterId: string, source: string,
                                           multiplyBy: int, divideBy: int, rise: real, fall: real, consumers: int)

  datatype Edge = Edge(parent: string, child: string)

  datatype Inventory = Inventory(candidateId: string, perMaster: int, masters: seq<MasterEntry>, generated: seq<GeneratedEntry>,
                                 edges: seq<Edge>, synchronous: seq<(string, string)>)

  function MasterEntryId(m: MasterEntry): string { m.clockId }
  function GeneratedEntryId(g: GeneratedEntry): string { g.clockId }
  function GeneratedEntryMaster(g: GeneratedEntry): string { g.masterId }
  function LineageOf(g: GeneratedEntry): Edge { Edge(g.masterId, g.clockId) }

  predicate ValidMasterEntry(m: MasterEntry) {
    EntityId(m.clockId) && EntityId(m.domainId) && m.source != "" && m.period > 0.0 && 0.0 <= m.rise < m.fall <= m.period && m.consumers > 0
  }

  predicate ValidGeneratedEntry(g: GeneratedEntry) {
    EntityId(g.clockId) && EntityId(g.domainId) && EntityId(g.masterId) && g.source != "" && g.multiplyBy > 0 && g.divideBy > 0
    && 0.0 <= g.rise < g.fall && g.consumers > 0
  }

  /** `ClockInventory`. */
  predicate ValidInventory(v: Inventory) {
    var masterIds, generatedIds := MapSeq(MasterEntryId, v.masters), MapSeq(GeneratedEntryId, v.generated);
    && EntityId(v.candidateId) && v.perMaster > 0
    && (forall m :: m in v.masters ==> ValidMasterEntry(m)) && (forall g :: g in v.generated ==> ValidGeneratedEntry(g))
    && |v.masters| == 5
    && NoRepeats(masterIds) && NoRepeats(generatedIds) && SetOf(masterIds) * SetOf(generatedIds) == {}
    && v.synchronous == []
    && |v.generated| == 5 * v.perMaster
    && Uniform(masterIds, MapSeq(GeneratedEntryMaster, v.generated), v.perMaster)
    && NoRepeats(v.edges) && SetOf(v.edges) == SetOf(MapSeq(LineageOf, v.generated))
  }

  method CheckInventory(v: Inventory) returns (ok: bool)
    ensures ok <==> ValidInventory(v)
  {
    var masterIds, generatedIds := MapSeq(MasterEntryId, v.masters), MapSeq(GeneratedEntryId, v.generated);
    if !EntityId(v.candidateId) || v.perMaster <= 0 { return false; }
    if exists m :: m in v.masters && !ValidMasterEntry(m) { return false; }
    if exists g :: g in v.generated && !ValidGeneratedEntry(g) { return false; }
    if |v.masters| != 5 { return false; }
    if !NoRepeats(masterIds) || !NoRepeats(generatedIds) || SetOf(masterIds) * SetOf(generatedIds) != {} { return false; }
    if v.synchronous != [] || |v.generated| != 5 * v.perMaster { return false; }
    var uniform := CheckUniform(masterIds, MapSeq(GeneratedEntryMaster, v.generated), v.perMaster);
    if !uniform { return false; }
    ok := NoRepeats(v.edges) && SetOf(v.edges) == SetOf(MapSeq(LineageOf, v.generated));
  }

  function MasterEntryFor(periods: map<string, real>): Domain -> MasterEntry {
    (d: Domain) =>
      MasterEntry(d.clock, d.id, "nebula_top/" + d.clock, PeriodOf(periods, d.clock), 0.0, PeriodOf(periods, d.clock) / 2.0, 3)
  }

  /** The format specification 02d. */
  function TwoDigits(n: nat): string { if n < 10 then "0" + Decimal(n) else Decimal(n) }

  lemma TwoDigitsSpec(n: nat)
    ensures |TwoDigits(n)| >= 2 && (forall c :: c in TwoDigits(n) ==> IsDigit(c)) && Value(TwoDigits(n)) == n
    ensures if n < 100 then |TwoDigits(n)| == 2 else TwoDigits(n)[0] != '0'
  {
    DecimalSpec(n);
    LeadingZero(Decimal(n));
  }

  function GeneratedEntryAt(periods: map<string, real>, e: Expected): GeneratedEntry {
    GeneratedEntry(e.clockId, e.domainId, e.masterId,
                   "nebula_top/u_" + e.domainId + "_dividers/gen_div_" + TwoDigits(e.ratio) + "/u_divider/generated_clock",
                   1, e.ratio, 0.0, PeriodOf(periods, e.masterId) * ((e.ratio + 1) / 2) as real, 1)
  }

  function GeneratedEntryFor(periods: map<string, real>): Expected -> GeneratedEntry {
    (e: Expected) => GeneratedEntryAt(periods, e)
  }

  function LookUp(table: map<string, Expected>): Expected -> Expected {
    (e: Expected) => if e.clockId in table then table[e.clockId] else e
  }

  /** `_build_clock_inventory`, for known clocks; it looks its entries up by clock ID. */
  function InventoryOf(c: Config, e: Expectations): Inventory {
    var found := MapSeq(LookUp(ById(ExpectedId, e.generated)), e.generated);
    var generated := MapSeq(GeneratedEntryFor(MasterPeriods(c)), found);
    Inventory("benchmark_" + c.profile, c.perMaster, MapSeq(MasterEntryFor(MasterPeriods(c)), c.domains), generated,
              MapSeq(LineageOf, generated), [])
  }

  /** With unique IDs the round through the dictionary changes nothing. */
  lemma LookUpIsIdentity(es: seq<Expected>)
    requires Distinct(MapSeq(ExpectedId, es))
    ensures MapSeq(LookUp(ById(ExpectedId, es)), es) == es
  {
    ByIdFinds(ExpectedId, es);
    MapAt(LookUp(ById(ExpectedId, es)), es);
    assert forall i :: 0 <= i < |es| ==> es[i] in es;
  }

  /** The generated entries of the inventory, slot by slot. */
  function EntryAt(periods: map<string, real>, s: Slot): GeneratedEntry { GeneratedEntryAt(periods, ExpectedFor(s)) }

  function EntryFor(periods: map<string, real>): Slot -> GeneratedEntry { (s: Slot) => EntryAt(periods, s) }

  lemma EntriesCompose(periods: map<string, real>, slots: seq<Slot>)
    ensures MapSeq(GeneratedEntryFor(periods), MapSeq(ExpectedFor, slots)) == MapSeq(EntryFor(periods), slots)
  {
    MapAt(ExpectedFor, slots);
    MapAt(GeneratedEntryFor(periods), MapSeq(ExpectedFor, slots));
    MapAt(EntryFor(periods), slots);
  }

  lemma EntriesAre(c: Config)
    requires ValidConfig(c)
    ensures InventoryOf(c, ExpectationsOf(c)).generated == MapSeq(EntryFor(MasterPeriods(c)), Slots(c.domains, c.ratios))
  {
    var slots := Slots(c.domains, c.ratios);
    ConfigFacts(c);
    ExpectedColumns(slots);
    LookUpIsIdentity(MapSeq(ExpectedFor, slots));
    EntriesCompose(MasterPeriods(c), slots);
  }

  lemma EntryColumns(periods: map<string, real>, slots: seq<Slot>)
    ensures MapSeq(GeneratedEntryId, MapSeq(EntryFor(periods), slots)) == MapSeq(SlotName, slots)
    ensures MapSeq(GeneratedEntryMaster, MapSeq(EntryFor(periods), slots)) == MapSeq(SlotMaster, slots)
  {
    MapAt(EntryFor(periods), slots);
    MapAt(GeneratedEntryId, MapSeq(EntryFor(periods), slots));
    MapAt(GeneratedEntryMaster, MapSeq(EntryFor(periods), slots));
    MapAt(SlotName, slots);
    MapAt(SlotMaster, slots);
  }

  lemma MasterEntryColumns(c: Config)
    ensures var masters := InventoryOf(c, ExpectationsOf(c)).masters;
            && MapSeq(MasterEntryId, masters) == MapSeq(DomainClock, c.domains) && |masters| == |c.domains|
            && forall i :: 0 <= i < |c.domains| ==> masters[i] == MasterEntryFor(MasterPeriods(c))(c.domains[i])
  {
    var masters := MapSeq(MasterEntryFor(MasterPeriods(c)), c.domains);
    MapAt(MasterEntryFor(MasterPeriods(c)), c.domains);
    MapAt(MasterEntryId, masters);
    MapAt(DomainClock, c.domains);
  }

  lemma ProductPositive(x: real, n: nat)
    requires x > 0.0 && n > 0
    ensures x * n as real > 0.0
  {
  }

  lemma OneEntryValid(periods: map<string, real>, s: Slot)
    requires s.domain.clock in periods && periods[s.domain.clock] > 0.0 && s.ratio > 1
    requires EntityId(s.domain.id) && EntityId(s.domain.clock)
    ensures ValidGeneratedEntry(EntryAt(periods, s)) <==> EntityId(SlotName(s))
  {
    ProductPositive(periods[s.domain.clock], (s.ratio + 1) / 2);
    var e := EntryAt(periods, s);
    assert e.fall == periods[s.domain.clock] * ((s.ratio + 1) / 2) as real;
    assert |e.source| > 0;
  }

  lemma EntriesValidIff(c: Config)
    requires ValidConfig(c) && Known(c)
    ensures (forall g :: g in MapSeq(EntryFor(MasterPeriods(c)), Slots(c.domains, c.ratios)) ==> ValidGeneratedEntry(g)) <==> ClockNamesFit(c)
  {
    var slots := Slots(c.domains, c.ratios);
    var gs, names := MapSeq(EntryFor(MasterPeriods(c)), slots), MapSeq(SlotName, slots);
    PeriodsKnown(c);
    SlotsSpec(c.domains, c.ratios);
    SlotNamesAreIds(c);
    MapAt(SlotName, slots);
    MapAt(EntryFor(MasterPeriods(c)), slots);
    forall i | 0 <= i < |slots|
      ensures gs[i] in gs && names[i] in names && (ValidGeneratedEntry(gs[i]) <==> EntityId(names[i]))
    {
      assert slots[i] in slots && slots[i].ratio in c.ratios;
      OneEntryValid(MasterPeriods(c), slots[i]);
    }
  }

  lemma MasterEntriesValid(c: Config)
    requires ValidConfig(c) && Known(c)
    ensures forall m :: m in InventoryOf(c, ExpectationsOf(c)).masters ==> ValidMasterEntry(m)
  {
    MasterEntryColumns(c);
    PeriodsKnown(c);
    forall i | 0 <= i < |c.domains| ensures ValidMasterEntry(InventoryOf(c, ExpectationsOf(c)).masters[i]) {
      assert c.domains[i] in c.domains;
    }
  }

  lemma KnownStartWithC()
    ensures forall k :: k in KNOWN_CLOCKS ==> |k| > 0 && k[0] == 'c'
  {
  }

  lemma SlotNameStart(s: Slot)
    ensures |SlotName(s)| > 0 && SlotName(s)[0] == 'g'
  {
    assert PREFIX[0] == 'g';
  }

  /** Generated names start with g, the known master clocks with c. */
  lemma NamesApart(c: Config)
    requires ValidConfig(c) && Known(c)
    ensures SetOf(MapSeq(DomainClock, c.domains)) * SetOf(MapSeq(SlotName, Slots(c.domains, c.ratios))) == {}
  {
    var slots := Slots(c.domains, c.ratios);
    AllKnownClocksUsed(c);
    KnownStartWithC();
    MapAt(SlotName, slots);
    forall n | n in SetOf(MapSeq(SlotName, slots)) ensures n !in KNOWN_CLOCKS {
      var i :| 0 <= i < |slots| && MapSeq(SlotName, slots)[i] == n;
      SlotNameStart(slots[i]);
    }
  }

  lemma EdgesDistinct(gs: seq<GeneratedEntry>)
    requires Distinct(MapSeq(GeneratedEntryId, gs))
    ensures NoRepeats(MapSeq(LineageOf, gs))
  {
    MapAt(GeneratedEntryId, gs);
    MapAt(LineageOf, gs);
    var ids, edges := MapSeq(GeneratedEntryId, gs), MapSeq(LineageOf, gs);
    forall i, j | 0 <= i < j < |edges| ensures edges[i] != edges[j] { assert ids[i] != ids[j]; }
    NoRepeatsSpec(edges);
  }

  const CANDIDATE := "benchmark_"

  lemma CandidateIdValid(profile: string)
    requires EntityId(profile)
    ensures EntityId(CANDIDATE + profile) <==> |profile| <= 86
  {
    var id := CANDIDATE + profile;
    assert id[0] == CANDIDATE[0];
    forall ch | ch in id ensures IdChar(ch) {
      if ch in CANDIDATE { assert IdChar(ch); } else { assert ch in profile; }
    }
  }

  /** For a valid configuration over the five known clocks, the inventory passes its
      validator exactly when its derived names fit. */
  lemma InventoryValidIff(c: Config)
    requires ValidConfig(c) && Known(c)
    ensures ValidInventory(InventoryOf(c, ExpectationsOf(c))) <==> ClockNamesFit(c) && |c.profile| <= 86
  {
    var slots := Slots(c.domains, c.ratios);
    EntriesAre(c);
    EntryColumns(MasterPeriods(c), slots);
    MapAt(EntryFor(MasterPeriods(c)), slots);
    MasterEntryColumns(c);
    ConfigFacts(c);
    SlotsUniform(c);
    EntriesValidIff(c);
    MasterEntriesValid(c);
    NamesApart(c);
    NoRepeatsSpec(MapSeq(SlotName, slots));
    NoRepeatsSpec(MapSeq(DomainClock, c.domains));
    EdgesDistinct(MapSeq(EntryFor(MasterPeriods(c)), slots));
    CandidateIdValid(c.profile);
  }

  /** An inventory entry with the instance path of its divider, one consumer, and a fall
      after the rounded-up half of its master periods. */
  predicate Enters(g: GeneratedEntry, d: Domain, ratio: nat, period: real) {
    && g.clockId == "gclk_" + d.id + "_div_" + Padded(ratio) && g.domainId == d.id && g.masterId == d.clock
    && g.source == "nebula_top/u_" + d.id + "_dividers/gen_div_" + TwoDigits(ratio) + "/u_divider/generated_clock"
    && g.multiplyBy == 1 && g.divideBy == ratio && g.consumers == 1
    && g.rise == 0.0 && g.fall == period * ((ratio + 1) / 2) as real
  }

  predicate EntersMaster(m: MasterEntry, d: Domain, period: real) {
    && m.clockId == d.clock && m.domainId == d.id && m.source == "nebula_top/" + d.clock
    && m.period == period && m.rise == 0.0 && m.fall == period / 2.0 && m.consumers == 3
  }

  lemma OneEntry(periods: map<string, real>, s: Slot)
    requires s.domain.clock in periods
    ensures Enters(EntryAt(periods, s), s.domain, s.ratio, periods[s.domain.clock])
    ensures LineageOf(EntryAt(periods, s)) == Edge(s.domain.clock, SlotName(s))
  {
  }

  /** The inventory enters the same clocks in the same places, and its lineage runs from each
      master clock as the parent to each of its generated clocks as the child. */
  lemma InventoryAt(c: Config, i: nat, k: nat) returns (n: nat)
    requires ValidConfig(c) && Known(c) && i < |c.domains| && k < |c.ratios|
    ensures n == i * |c.ratios| + k && c.domains[i].clock in MasterPeriods(c)
    ensures var v, d := InventoryOf(c, ExpectationsOf(c)), c.domains[i];
            && |v.masters| == |c.domains| && EntersMaster(v.masters[i], d, MasterPeriods(c)[d.clock])
            && |v.generated| == |v.edges| == |c.domains| * |c.ratios| && n < |v.generated|
            && Enters(v.generated[n], d, c.ratios[k], MasterPeriods(c)[d.clock])
            && v.edges[n].parent == d.clock && v.edges[n].child == v.generated[n].clockId
    ensures var v := InventoryOf(c, ExpectationsOf(c));
            v.candidateId == "benchmark_" + c.profile && v.perMaster == c.perMaster && v.synchronous == []
  {
    n := i * |c.ratios| + k;
    SlotAt(c.domains, c.ratios, i, k);
    EntriesAre(c);
    EntryPlaced(MasterPeriods(c), Slots(c.domains, c.ratios), n);
    MasterEntered(c, i);
    OneEntry(MasterPeriods(c), Slot(c.domains[i], k, c.ratios[k]));
  }

  lemma MasterEntered(c: Config, i: nat)
    requires Known(c) && i < |c.domains|
    ensures c.domains[i].clock in MasterPeriods(c)
    ensures var masters := InventoryOf(c, ExpectationsOf(c)).masters;
            |masters| == |c.domains| && EntersMaster(masters[i], c.domains[i], MasterPeriods(c)[c.domains[i].clock])
  {
    MasterEntryColumns(c);
    assert c.domains[i] in c.domains;
  }

  lemma EntryPlaced(periods: map<string, real>, slots: seq<Slot>, n: nat)
    requires n < |slots|
    ensures var entries := MapSeq(EntryFor(periods), slots);
            && |entries| == |MapSeq(LineageOf, entries)| == |slots|
            && entries[n] == EntryAt(periods, slots[n]) && MapSeq(LineageOf, entries)[n] == LineageOf(EntryAt(periods, slots[n]))
  {
    MapAt(EntryFor(periods), slots);
    MapAt(LineageOf, MapSeq(EntryFor(periods), slots));
  }

  // -------------------------------------------------------------------------- waveforms

  /** When the k-th edge of a master clock with 50% duty comes; odd edges rise. */
  function EdgeTime(period: real, k: nat): real { (k as real - 1.0) * period / 2.0 }

  predicate Rising(k: nat) { k % 2 == 1 }

  /** What an SDC constraint describes: the first rise and fall, and the period. */
  datatype Waveform = Waveform(rise: real, fall: real, period: real)

  function SdcWaveform(g: GeneratedConstraint, period: real): Waveform
    requires ValidGeneratedConstraint(g)
  {
    if g.mode == EVEN_DIVIDE_BY
    then Waveform(0.0, period * g.divideBy as real / 2.0, period * g.divideBy as real)
    else Waveform(EdgeTime(period, g.edges[0]), EdgeTime(period, g.edges[1]), EdgeTime(period, g.edges[2]))
  }

  lemma HalfUp(r: nat, period: real)
    ensures r % 2 == 0 ==> period * r as real / 2.0 == period * ((r + 1) / 2) as real
    ensures r % 2 == 1 ==> EdgeTime(period, r + 2) == period * ((r + 1) / 2) as real
    ensures EdgeTime(period, 2 * r + 1) == period * r as real
  {
    var h := (r + 1) / 2;
    if r % 2 == 0 {
      assert r == 2 * h;
      assert r as real == 2.0 * h as real;
    } else {
      assert r + 1 == 2 * h;
      assert (r + 2) as real - 1.0 == 2.0 * h as real;
    }
    assert (2 * r + 1) as real - 1.0 == 2.0 * r as real;
  }

  function NominalWaveform(ratio: nat, period: real): Waveform {
    Waveform(0.0, period * ((ratio + 1) / 2) as real, period * ratio as real)
  }

  lemma EvenWaveform(s: Slot, period: real)
    requires s.ratio % 2 == 0 && ValidGeneratedConstraint(GeneratedFor(s))
    ensures SdcWaveform(GeneratedFor(s), period) == NominalWaveform(s.ratio, period)
  {
    HalfUp(s.ratio, period);
  }

  function EdgeWaveform(edges: seq<nat>, period: real): Waveform
    requires |edges| == 3
  {
    Waveform(EdgeTime(period, edges[0]), EdgeTime(period, edges[1]), EdgeTime(period, edges[2]))
  }

  lemma OddEdgesNominal(r: nat, period: real)
    requires r % 2 == 1
    ensures EdgeWaveform([1, r + 2, 2 * r + 1], period) == NominalWaveform(r, period)
  {
    FirstEdge(period);
    HalfUp(r, period);
  }

  lemma OddWaveform(s: Slot, period: real)
    requires s.ratio % 2 == 1 && ValidGeneratedConstraint(GeneratedFor(s))
    ensures SdcWaveform(GeneratedFor(s), period) == EdgeWaveform([1, s.ratio + 2, 2 * s.ratio + 1], period)
  {
  }

  lemma OddEdgesRise(r: nat)
    requires r % 2 == 1
    ensures Rising(1) && Rising(r + 2) && Rising(2 * r + 1)
  {
  }

  lemma FirstEdge(period: real)
    ensures EdgeTime(period, 1) == 0.0
  {
    assert (1 as real - 1.0) == 0.0;
  }

  lemma EdgesRise(r: nat)
    ensures forall k :: k in EdgesFor(r) ==> Rising(k)
  {
    if r % 2 == 1 { OddEdgesRise(r); }
  }

  lemma SdcIsNominal(s: Slot, period: real)
    requires ValidGeneratedConstraint(GeneratedFor(s))
    ensures SdcWaveform(GeneratedFor(s), period) == NominalWaveform(s.ratio, period)
  {
    if s.ratio % 2 == 0 {
      EvenWaveform(s, period);
    } else {
      OddWaveform(s, period);
      OddEdgesNominal(s.ratio, period);
    }
  }

  predicate Proper(w: Waveform) { w.rise < w.fall < w.period }

  lemma NominalIsProper(r: nat, period: real)
    requires r > 1 && period > 0.0
    ensures Proper(NominalWaveform(r, period))
  {
    var h, g := (r + 1) / 2, r / 2;
    var fall, end := period * h as real, period * r as real;
    assert r == h + g && h > 0 && g > 0;
    ProductPositive(period, h);
    ProductPositive(period, g);
    assert r as real == h as real + g as real;
    assert end == fall + period * g as real;
    assert NominalWaveform(r, period) == Waveform(0.0, fall, end);
  }

  /** Divide-by for even ratios and the edge list for odd ones describe one clock: it rises
      with the master, falls after ceil(r/2) master periods - exactly where the inventory
      says - and repeats after r of them; the edge list names rising master edges only. */
  lemma SdcWaveformIsInventoryWaveform(s: Slot, period: real)
    requires s.ratio > 1 && period > 0.0 && ValidGeneratedConstraint(GeneratedFor(s))
    ensures SdcWaveform(GeneratedFor(s), period) == NominalWaveform(s.ratio, period)
    ensures Proper(NominalWaveform(s.ratio, period))
    ensures forall k :: k in GeneratedFor(s).edges ==> Rising(k)
  {
    SdcIsNominal(s, period);
    NominalIsProper(s.ratio, period);
    EdgesRise(s.ratio);
  }

  /** What an inventory entry describes. */
  function EntryWaveform(v: GeneratedEntry, period: real): Waveform {
    Waveform(v.rise, v.fall, period * v.divideBy as real)
  }

  /** What contract and inventory say about one slot agrees. */
  predicate SlotAgrees(periods: map<string, real>, s: Slot) {
    var g, v := GeneratedFor(s), EntryAt(periods, s);
    && ValidGeneratedConstraint(g) && g.masterId in periods
    && (g.clockId, g.domainId, g.masterId, g.divideBy) == (v.clockId, v.domainId, v.masterId, v.divideBy)
    && SdcWaveform(g, periods[g.masterId]) == EntryWaveform(v, periods[g.masterId])
  }

  lemma EntryIsNominal(periods: map<string, real>, s: Slot)
    requires s.domain.clock in periods
    ensures EntryWaveform(EntryAt(periods, s), periods[s.domain.clock]) == NominalWaveform(s.ratio, periods[s.domain.clock])
  {
  }

  lemma SlotFields(periods: map<string, real>, s: Slot)
    ensures var g, v := GeneratedFor(s), EntryAt(periods, s);
            && g.masterId == s.domain.clock
            && (g.clockId, g.domainId, g.masterId, g.divideBy) == (v.clockId, v.domainId, v.masterId, v.divideBy)
  {
  }

  lemma OneSlotAgrees(periods: map<string, real>, s: Slot)
    requires s.domain.clock in periods && periods[s.domain.clock] > 0.0 && s.ratio > 1
    requires ValidGeneratedConstraint(GeneratedFor(s))
    ensures SlotAgrees(periods, s)
  {
    SlotFields(periods, s);
    SdcWaveformIsInventoryWaveform(s, periods[s.domain.clock]);
    EntryIsNominal(periods, s);
  }

  /** Clock by clock, the SDC contract and the inventory name the same domain, master and
      ratio and describe the same waveform. */
  lemma EverySlotAgrees(c: Config)
    requires ValidConfig(c) && Known(c) && ClockNamesFit(c)
    ensures forall s :: s in Slots(c.domains, c.ratios) ==> SlotAgrees(MasterPeriods(c), s)
  {
    var slots := Slots(c.domains, c.ratios);
    SlotsSpec(c.domains, c.ratios);
    PeriodsKnown(c);
    forall s | s in slots ensures SlotAgrees(MasterPeriods(c), s) {
      assert s.ratio in c.ratios;
      ClockNameIsEntityId(s.domain.id, s.ratio);
      OneGeneratedValid(s);
      OneSlotAgrees(MasterPeriods(c), s);
    }
  }

  /** The three documents of a valid configuration over the known clocks list the same
      clocks in the same order: each is the list of slots, seen through its own entry. */
  lemma DocumentsListTheSameClocks(c: Config)
    requires ValidConfig(c) && Known(c)
    ensures var e, k, slots := ExpectationsOf(c), ContractOf(c), Slots(c.domains, c.ratios);
            var v := InventoryOf(c, e);
            && MapSeq(ExpectedId, e.generated) == MapSeq(GeneratedConstraintId, k.generated) == MapSeq(GeneratedEntryId, v.generated)
            && e.masterIds == MapSeq(MasterConstraintId, k.masters) == MapSeq(MasterEntryId, v.masters)
            && k.generated == MapSeq(GeneratedFor, slots) && v.generated == MapSeq(EntryFor(MasterPeriods(c)), slots)
  {
    var slots := Slots(c.domains, c.ratios);
    ExpectedColumns(slots);
    ConstraintColumns(slots);
    MasterColumns(c);
    EntriesAre(c);
    EntryColumns(MasterPeriods(c), slots);
    MasterEntryColumns(c);
  }

  /** All three pass their validators exactly when the derived names fit. */
  lemma DocumentsValidIff(c: Config)
    requires ValidConfig(c) && Known(c)
    ensures ValidExpectations(ExpectationsOf(c)) && ValidContract(ContractOf(c)) && ValidInventory(InventoryOf(c, ExpectationsOf(c)))
            <==> ClockNamesFit(c) && DomainsFit(c) && |c.profile| <= 86
  {
    ExpectationsValidIff(c);
    ContractValidIff(c);
    InventoryValidIff(c);
  }
}
