/** `construct_clock_inventory` (src/nova_rtl/constraints/clocks.py). */
module ClockAudit {
  import opened Prelude
  import opened ClockNames
  import opened Clocks
  import opened ClockDocuments

  datatype Observed = Observed(clockId: string, domainId: string, ancestors: seq<string>, source: string,
                               multiplyBy: int, divideBy: int, rise: real, fall: real, consumers: int)

  datatype Stage = POST_ELABORATION | POST_SYNTHESIS

  datatype Observation = Observation(stage: Stage, masters: seq<MasterEntry>, generated: seq<Observed>)

  datatype Error = CLOCK_STAGE_INVALID | CLOCK_INVENTORY_MISMATCH | GENERATED_CLOCK_ANCESTRY_INVALID | VALIDATION

  function ObservedId(o: Observed): string { o.clockId }

  predicate MasterLe(a: MasterEntry, b: MasterEntry) { StrLe(a.clockId, b.clockId) }
  predicate GeneratedLe(a: GeneratedEntry, b: GeneratedEntry) { StrLe(a.clockId, b.clockId) }
  predicate ObservedLe(a: Observed, b: Observed) { StrLe(a.clockId, b.clockId) }

  /** What a faithful observation of this clock looks like. */
  function Seen(g: GeneratedEntry): Observed {
    Observed(g.clockId, g.domainId, [g.masterId], g.source, g.multiplyBy, g.divideBy, g.rise, g.fall, g.consumers)
  }

  /** The entry that is sealed for an observed clock, whose ancestry has been checked. */
  function Sealed(o: Observed): GeneratedEntry {
    GeneratedEntry(o.clockId, o.domainId, if o.ancestors == [] then "" else o.ancestors[0], o.source,
                   o.multiplyBy, o.divideBy, o.rise, o.fall, o.consumers)
  }

  /** The loop over the expected generated clocks. */
  function GeneratedProblem(gs: seq<GeneratedEntry>, seen: map<string, Observed>): Option<Error>
    requires forall g :: g in gs ==> g.clockId in seen
  {
    if gs == [] then None
    else
      var o := seen[gs[0].clockId];
      if o.ancestors != [gs[0].masterId] then Some(GENERATED_CLOCK_ANCESTRY_INVALID)
      else if (o.domainId, o.source, o.multiplyBy, o.divideBy, o.rise, o.fall, o.consumers)
              != (gs[0].domainId, gs[0].source, gs[0].multiplyBy, gs[0].divideBy, gs[0].rise, gs[0].fall, gs[0].consumers)
      then Some(CLOCK_INVENTORY_MISMATCH)
      else GeneratedProblem(gs[1..], seen)
  }

  predicate MastersDiffer(observed: seq<MasterEntry>, expected: seq<MasterEntry>) {
    var em, om := ById(MasterEntryId, expected), ById(MasterEntryId, observed);
    |om| != |observed| || om.Keys != em.Keys || exists k :: k in em && om[k] != em[k]
  }

  function GeneratedStageProblem(os: seq<Observed>, gs: seq<GeneratedEntry>): Option<Error>
    requires Distinct(MapSeq(GeneratedEntryId, gs))
  {
    var eg, og := ById(GeneratedEntryId, gs), ById(ObservedId, os);
    if |og| != |os| || og.Keys != eg.Keys then Some(CLOCK_INVENTORY_MISMATCH)
    else
      ByIdFinds(GeneratedEntryId, gs);
      GeneratedProblem(gs, og)
  }

  /** `_validate_stage`. */
  function StageProblem(o: Observation, expected: Inventory): Option<Error>
    requires ValidInventory(expected)
  {
    if MastersDiffer(o.masters, expected.masters) then Some(CLOCK_INVENTORY_MISMATCH)
    else
      NoRepeatsSpec(MapSeq(GeneratedEntryId, expected.generated));
      GeneratedStageProblem(o.generated, expected.generated)
  }

  function SealFrom(candidate: string, expected: Inventory, synthesis: Observation): Inventory {
    var generated := MapSeq(Sealed, SortBy(synthesis.generated, ObservedLe));
    Inventory(candidate, expected.perMaster, SortBy(synthesis.masters, MasterLe), generated, MapSeq(LineageOf, generated), [])
  }

  /** `construct_clock_inventory`. */
  function Construct(candidate: string, expected: Inventory, elaboration: Observation, synthesis: Observation): Result<Inventory, Error>
    requires ValidInventory(expected)
  {
    if elaboration.stage != POST_ELABORATION || synthesis.stage != POST_SYNTHESIS then Err(CLOCK_STAGE_INVALID)
    else if StageProblem(elaboration, expected).Some? then Err(StageProblem(elaboration, expected).value)
    else if StageProblem(synthesis, expected).Some? then Err(StageProblem(synthesis, expected).value)
    else
      var v := SealFrom(candidate, expected, synthesis);
      if ValidInventory(v) then Ok(v) else Err(VALIDATION)
  }

  // ------------------------------------------------------------------ what a stage shows

  /** Exactly the expected clocks, in any order. */
  ghost predicate Shows(o: Observation, expected: Inventory) {
    && multiset(o.masters) == multiset(expected.masters)
    && multiset(o.generated) == multiset(MapSeq(Seen, expected.generated))
  }

  lemma SameTableRearranged<T(!new)>(key: T -> string, a: seq<T>, b: seq<T>)
    requires Distinct(MapSeq(key, a)) && Distinct(MapSeq(key, b)) && ById(key, a) == ById(key, b)
    ensures multiset(a) == multiset(b)
  {
    SubTable(key, a, b);
    SubTable(key, b, a);
    KeysDistinct(key, a);
    KeysDistinct(key, b);
    DistinctSameValues(a, b);
  }

  lemma KeysDistinct<T>(key: T -> string, a: seq<T>)
    requires Distinct(MapSeq(key, a))
    ensures Distinct(a)
  {
    MapAt(key, a);
  }

  lemma SubTable<T(!new)>(key: T -> string, a: seq<T>, b: seq<T>)
    requires Distinct(MapSeq(key, a)) && Distinct(MapSeq(key, b)) && ById(key, a) == ById(key, b)
    ensures SetOf(a) <= SetOf(b)
  {
    ByIdFinds(key, a);
    ByIdFinds(key, b);
    ByIdKeys(key, b);
    MapAt(key, b);
    forall x | x in a ensures x in b {
      assert key(x) in SetOf(MapSeq(key, b));
      var i :| 0 <= i < |b| && MapSeq(key, b)[i] == key(x);
      assert b[i] in b;
    }
  }

  lemma TableSize<T>(key: T -> string, xs: seq<T>)
    ensures |ById(key, xs)| == |xs| <==> Distinct(MapSeq(key, xs))
  {
    ByIdKeys(key, xs);
    MapAt(key, xs);
    NoRepeatsSpec(MapSeq(key, xs));
    assert |ById(key, xs)| == |ById(key, xs).Keys|;
  }

  lemma MastersShown(ms: seq<MasterEntry>, expected: seq<MasterEntry>)
    requires Distinct(MapSeq(MasterEntryId, expected))
    ensures !MastersDiffer(ms, expected) <==> multiset(ms) == multiset(expected)
  {
    var em, om := ById(MasterEntryId, expected), ById(MasterEntryId, ms);
    TableSize(MasterEntryId, ms);
    if multiset(ms) == multiset(expected) {
      MapRearranged(MasterEntryId, ms, expected);
      DistinctRearranged(MapSeq(MasterEntryId, ms), MapSeq(MasterEntryId, expected));
      RearrangedSameTable(MasterEntryId, ms, expected);
    } else if Distinct(MapSeq(MasterEntryId, ms)) && om == em {
      SameTableRearranged(MasterEntryId, ms, expected);
    }
  }

  lemma {:induction false} GeneratedProblemSpec(gs: seq<GeneratedEntry>, seen: map<string, Observed>)
    requires forall g :: g in gs ==> g.clockId in seen && seen[g.clockId].clockId == g.clockId
    ensures GeneratedProblem(gs, seen).None? <==> forall g :: g in gs ==> seen[g.clockId] == Seen(g)
  {
    if gs != [] {
      assert gs == [gs[0]] + gs[1..];
      GeneratedProblemSpec(gs[1..], seen);
    }
  }

  lemma SeenColumn(gs: seq<GeneratedEntry>)
    ensures MapSeq(ObservedId, MapSeq(Seen, gs)) == MapSeq(GeneratedEntryId, gs)
  {
    MapAt(Seen, gs);
    MapAt(ObservedId, MapSeq(Seen, gs));
    MapAt(GeneratedEntryId, gs);
  }

  lemma TableKeysOwn(os: seq<Observed>)
    requires Distinct(MapSeq(ObservedId, os))
    ensures forall k :: k in ById(ObservedId, os) ==> ById(ObservedId, os)[k].clockId == k
  {
    ByIdFinds(ObservedId, os);
    ByIdKeys(ObservedId, os);
    MapAt(ObservedId, os);
    forall k | k in ById(ObservedId, os) ensures ById(ObservedId, os)[k].clockId == k {
      assert k in SetOf(MapSeq(ObservedId, os));
      var i :| 0 <= i < |os| && MapSeq(ObservedId, os)[i] == k;
      assert os[i] in os;
    }
  }

  lemma SeenTable(gs: seq<GeneratedEntry>)
    requires Distinct(MapSeq(GeneratedEntryId, gs))
    ensures Distinct(MapSeq(ObservedId, MapSeq(Seen, gs)))
    ensures ById(ObservedId, MapSeq(Seen, gs)).Keys == ById(GeneratedEntryId, gs).Keys
    ensures forall g :: g in gs ==> g.clockId in ById(ObservedId, MapSeq(Seen, gs)) && ById(ObservedId, MapSeq(Seen, gs))[g.clockId] == Seen(g)
  {
    SeenColumn(gs);
    ByIdKeys(ObservedId, MapSeq(Seen, gs));
    ByIdKeys(GeneratedEntryId, gs);
    ByIdFinds(ObservedId, MapSeq(Seen, gs));
    MapAt(Seen, gs);
    forall g | g in gs ensures Seen(g) in MapSeq(Seen, gs) {
      var i :| 0 <= i < |gs| && gs[i] == g;
      assert MapSeq(Seen, gs)[i] == Seen(g);
    }
  }

  lemma GeneratedShown(os: seq<Observed>, gs: seq<GeneratedEntry>)
    requires Distinct(MapSeq(GeneratedEntryId, gs)) && Distinct(MapSeq(ObservedId, os))
    requires ById(ObservedId, os).Keys == ById(GeneratedEntryId, gs).Keys
    ensures forall g :: g in gs ==> g.clockId in ById(ObservedId, os)
    ensures GeneratedProblem(gs, ById(ObservedId, os)).None? <==> multiset(os) == multiset(MapSeq(Seen, gs))
  {
    var seen, ideal := ById(ObservedId, os), ById(ObservedId, MapSeq(Seen, gs));
    ByIdFinds(GeneratedEntryId, gs);
    TableKeysOwn(os);
    GeneratedProblemSpec(gs, seen);
    SeenTable(gs);
    if GeneratedProblem(gs, seen).None? {
      ByIdKeys(GeneratedEntryId, gs);
      MapAt(GeneratedEntryId, gs);
      forall k | k in seen ensures seen[k] == ideal[k] {
        assert k in SetOf(MapSeq(GeneratedEntryId, gs));
        var i :| 0 <= i < |gs| && MapSeq(GeneratedEntryId, gs)[i] == k;
        assert gs[i] in gs;
      }
      SameTableRearranged(ObservedId, os, MapSeq(Seen, gs));
    }
    if multiset(os) == multiset(MapSeq(Seen, gs)) { RearrangedSameTable(ObservedId, os, MapSeq(Seen, gs)); }
  }

  lemma InventoryDistinct(v: Inventory)
    requires ValidInventory(v)
    ensures Distinct(MapSeq(MasterEntryId, v.masters)) && Distinct(MapSeq(GeneratedEntryId, v.generated))
  {
    NoRepeatsSpec(MapSeq(MasterEntryId, v.masters));
    NoRepeatsSpec(MapSeq(GeneratedEntryId, v.generated));
  }

  lemma GeneratedStageIff(os: seq<Observed>, gs: seq<GeneratedEntry>)
    requires Distinct(MapSeq(GeneratedEntryId, gs))
    ensures GeneratedStageProblem(os, gs).None? <==> multiset(os) == multiset(MapSeq(Seen, gs))
  {
    TableSize(ObservedId, os);
    if multiset(os) == multiset(MapSeq(Seen, gs)) {
      SeenTable(gs);
      MapRearranged(ObservedId, os, MapSeq(Seen, gs));
      DistinctRearranged(MapSeq(ObservedId, os), MapSeq(ObservedId, MapSeq(Seen, gs)));
      RearrangedSameTable(ObservedId, os, MapSeq(Seen, gs));
    }
    if Distinct(MapSeq(ObservedId, os)) && ById(ObservedId, os).Keys == ById(GeneratedEntryId, gs).Keys {
      GeneratedShown(os, gs);
    }
  }

  /** A stage passes exactly when it shows every expected master as it is and every expected
      generated clock under its one master, nothing else, and nothing twice. */
  lemma StagePassesIff(o: Observation, expected: Inventory)
    requires ValidInventory(expected)
    ensures StageProblem(o, expected).None? <==> Shows(o, expected)
  {
    InventoryDistinct(expected);
    MastersShown(o.masters, expected.masters);
    GeneratedStageIff(o.generated, expected.generated);
  }

  // ------------------------------------------------------------------- what is returned

  lemma OrdersArePreorders()
    ensures Preorder(MasterLe) && Preorder(GeneratedLe) && Preorder(ObservedLe)
  {
    StrLePreorder();
  }

  /** The expected inventory under another candidate, with its lists sorted by clock ID. */
  function Canonical(candidate: string, v: Inventory): Inventory {
    var generated := SortBy(v.generated, GeneratedLe);
    Inventory(candidate, v.perMaster, SortBy(v.masters, MasterLe), generated, MapSeq(LineageOf, generated), [])
  }

  lemma SealedUndoesSeen(gs: seq<GeneratedEntry>)
    ensures MapSeq(Sealed, MapSeq(Seen, gs)) == gs
  {
    MapAt(Seen, gs);
    MapAt(Sealed, MapSeq(Seen, gs));
  }

  lemma SealedSorted(os: seq<Observed>)
    ensures Sorted(MapSeq(Sealed, SortBy(os, ObservedLe)), GeneratedLe)
    ensures multiset(MapSeq(Sealed, SortBy(os, ObservedLe))) == multiset(MapSeq(Sealed, os))
  {
    var sorted := SortBy(os, ObservedLe);
    OrdersArePreorders();
    SortByCorrect(os, ObservedLe);
    MapRearranged(Sealed, sorted, os);
    MapAt(Sealed, sorted);
  }

  lemma MastersNoTies(ms: seq<MasterEntry>)
    requires Distinct(MapSeq(MasterEntryId, ms))
    ensures NoTies(ms, MasterLe)
  {
    MapAt(MasterEntryId, ms);
    forall a, b | a in ms && b in ms && MasterLe(a, b) && MasterLe(b, a) ensures a == b {
      StrLeAntisymmetric(a.clockId, b.clockId);
      var i :| 0 <= i < |ms| && ms[i] == a;
      var j :| 0 <= j < |ms| && ms[j] == b;
      assert MapSeq(MasterEntryId, ms)[i] == MapSeq(MasterEntryId, ms)[j];
    }
  }

  lemma GeneratedNoTies(gs: seq<GeneratedEntry>)
    requires Distinct(MapSeq(GeneratedEntryId, gs))
    ensures NoTies(gs, GeneratedLe)
  {
    MapAt(GeneratedEntryId, gs);
    forall a, b | a in gs && b in gs && GeneratedLe(a, b) && GeneratedLe(b, a) ensures a == b {
      StrLeAntisymmetric(a.clockId, b.clockId);
      var i :| 0 <= i < |gs| && gs[i] == a;
      var j :| 0 <= j < |gs| && gs[j] == b;
      assert MapSeq(GeneratedEntryId, gs)[i] == MapSeq(GeneratedEntryId, gs)[j];
    }
  }

  /** What is sealed is the expectation itself, sorted - whatever order was observed. */
  lemma SealsTheExpectation(candidate: string, expected: Inventory, synthesis: Observation)
    requires ValidInventory(expected) && Shows(synthesis, expected)
    ensures SealFrom(candidate, expected, synthesis) == Canonical(candidate, expected)
  {
    var gs, os := expected.generated, synthesis.generated;
    InventoryDistinct(expected);
    OrdersArePreorders();
    MastersNoTies(expected.masters);
    SortByOrderFree(expected.masters, synthesis.masters, MasterLe);
    SealedSorted(os);
    MapRearranged(Sealed, os, MapSeq(Seen, gs));
    SealedUndoesSeen(gs);
    SortByCorrect(gs, GeneratedLe);
    var sealed := MapSeq(Sealed, SortBy(os, ObservedLe));
    GeneratedNoTies(gs);
    SameElements(SortBy(gs, GeneratedLe), gs);
    SortedUnique(SortBy(gs, GeneratedLe), sealed, GeneratedLe);
  }

  lemma LineageSorted(v: Inventory)
    ensures SetOf(MapSeq(LineageOf, SortBy(v.generated, GeneratedLe))) == SetOf(MapSeq(LineageOf, v.generated))
    ensures SetOf(MapSeq(GeneratedEntryId, SortBy(v.generated, GeneratedLe))) == SetOf(MapSeq(GeneratedEntryId, v.generated))
    ensures multiset(MapSeq(GeneratedEntryMaster, SortBy(v.generated, GeneratedLe))) == multiset(MapSeq(GeneratedEntryMaster, v.generated))
    ensures multiset(SortBy(v.generated, GeneratedLe)) == multiset(v.generated)
    ensures Distinct(MapSeq(GeneratedEntryId, v.generated)) ==> Distinct(MapSeq(GeneratedEntryId, SortBy(v.generated, GeneratedLe)))
  {
    var gs := SortBy(v.generated, GeneratedLe);
    OrdersArePreorders();
    SortByCorrect(v.generated, GeneratedLe);
    MapRearranged(LineageOf, gs, v.generated);
    MapRearranged(GeneratedEntryId, gs, v.generated);
    MapRearranged(GeneratedEntryMaster, gs, v.generated);
    SameElements(MapSeq(LineageOf, gs), MapSeq(LineageOf, v.generated));
    SameElements(MapSeq(GeneratedEntryId, gs), MapSeq(GeneratedEntryId, v.generated));
    DistinctRearranged(MapSeq(GeneratedEntryId, gs), MapSeq(GeneratedEntryId, v.generated));
  }

  lemma MastersSorted(v: Inventory)
    ensures multiset(SortBy(v.masters, MasterLe)) == multiset(v.masters)
    ensures SetOf(MapSeq(MasterEntryId, SortBy(v.masters, MasterLe))) == SetOf(MapSeq(MasterEntryId, v.masters))
    ensures Distinct(MapSeq(MasterEntryId, v.masters)) ==> Distinct(MapSeq(MasterEntryId, SortBy(v.masters, MasterLe)))
  {
    var ms := SortBy(v.masters, MasterLe);
    OrdersArePreorders();
    SortByCorrect(v.masters, MasterLe);
    MapRearranged(MasterEntryId, ms, v.masters);
    SameElements(MapSeq(MasterEntryId, ms), MapSeq(MasterEntryId, v.masters));
    DistinctRearranged(MapSeq(MasterEntryId, ms), MapSeq(MasterEntryId, v.masters));
  }

  lemma UniformRearranged(a: seq<string>, x: seq<string>, b: seq<string>, y: seq<string>, n: int)
    requires SetOf(a) == SetOf(b) && multiset(x) == multiset(y) && Uniform(a, x, n)
    ensures Uniform(b, y, n)
  {
    SameElements(x, y);
    SetOfEmpty(a);
    SetOfEmpty(b);
    assert forall m :: m in a <==> m in SetOf(a);
    assert forall m :: m in b <==> m in SetOf(b);
  }

  /** Sorting a valid inventory leaves it valid. */
  lemma CanonicalValid(candidate: string, v: Inventory)
    requires ValidInventory(v)
    ensures ValidInventory(Canonical(candidate, v)) <==> EntityId(candidate)
  {
    var c := Canonical(candidate, v);
    InventoryDistinct(v);
    LineageSorted(v);
    MastersSorted(v);
    SameElements(c.masters, v.masters);
    SameElements(c.generated, v.generated);
    UniformRearranged(MapSeq(MasterEntryId, v.masters), MapSeq(GeneratedEntryMaster, v.generated),
                      MapSeq(MasterEntryId, c.masters), MapSeq(GeneratedEntryMaster, c.generated), v.perMaster);
    NoRepeatsSpec(MapSeq(MasterEntryId, c.masters));
    NoRepeatsSpec(MapSeq(GeneratedEntryId, c.generated));
    EdgesDistinct(c.generated);
  }

  /** The inventory is sealed exactly when the two stages are what they claim and both show
      the expected clocks, and then it is the expectation, sorted, under this candidate. */
  lemma ConstructSucceedsIff(candidate: string, expected: Inventory, elaboration: Observation, synthesis: Observation)
    requires ValidInventory(expected)
    ensures var r := Construct(candidate, expected, elaboration, synthesis);
            && (r.Ok? <==> elaboration.stage == POST_ELABORATION && synthesis.stage == POST_SYNTHESIS
                           && Shows(elaboration, expected) && Shows(synthesis, expected) && EntityId(candidate))
            && (r.Ok? ==> r.value == Canonical(candidate, expected))
  {
    StagePassesIff(elaboration, expected);
    StagePassesIff(synthesis, expected);
    if Shows(synthesis, expected) {
      SealsTheExpectation(candidate, expected, synthesis);
      CanonicalValid(candidate, expected);
    }
  }

  // ------------------------------------------------------------------------- the errors

  /** An observed clock claims ancestors other than its one expected master. */
  ghost predicate Misbred(o: Observation, expected: Inventory) {
    exists x, g :: x in o.generated && g in expected.generated && x.clockId == g.clockId && x.ancestors != [g.masterId]
  }

  predicate FieldsDiffer(x: Observed, g: GeneratedEntry) {
    x.domainId != g.domainId || x.source != g.source || x.multiplyBy != g.multiplyBy || x.divideBy != g.divideBy
    || x.rise != g.rise || x.fall != g.fall || x.consumers != g.consumers
  }

  /** Other clocks than the expected ones, or the expected ones with other properties. */
  ghost predicate Mismatched(o: Observation, expected: Inventory) {
    || multiset(o.masters) != multiset(expected.masters)
    || multiset(MapSeq(ObservedId, o.generated)) != multiset(MapSeq(GeneratedEntryId, expected.generated))
    || exists x, g :: x in o.generated && g in expected.generated && x.clockId == g.clockId && FieldsDiffer(x, g)
  }

  lemma {:induction false} GeneratedProblemMeans(gs: seq<GeneratedEntry>, seen: map<string, Observed>)
    requires forall g :: g in gs ==> g.clockId in seen
    ensures GeneratedProblem(gs, seen).Some? ==>
              exists g :: g in gs && match GeneratedProblem(gs, seen).value
                                     case GENERATED_CLOCK_ANCESTRY_INVALID => seen[g.clockId].ancestors != [g.masterId]
                                     case CLOCK_INVENTORY_MISMATCH => FieldsDiffer(seen[g.clockId], g)
                                     case _ => false
  {
    if gs != [] {
      assert gs == [gs[0]] + gs[1..] && gs[0] in gs;
      GeneratedProblemMeans(gs[1..], seen);
    }
  }

  lemma StageProblemMeans(o: Observation, expected: Inventory)
    requires ValidInventory(expected) && StageProblem(o, expected).Some?
    ensures match StageProblem(o, expected).value
            case GENERATED_CLOCK_ANCESTRY_INVALID => Misbred(o, expected)
            case CLOCK_INVENTORY_MISMATCH => Mismatched(o, expected)
            case _ => false
  {
    InventoryDistinct(expected);
    MastersShown(o.masters, expected.masters);
    if !MastersDiffer(o.masters, expected.masters) { GeneratedStageMeans(o.generated, expected.generated); }
  }

  lemma GeneratedStageMeans(os: seq<Observed>, gs: seq<GeneratedEntry>)
    requires Distinct(MapSeq(GeneratedEntryId, gs)) && GeneratedStageProblem(os, gs).Some?
    ensures match GeneratedStageProblem(os, gs).value
            case GENERATED_CLOCK_ANCESTRY_INVALID =>
              exists x, g :: x in os && g in gs && x.clockId == g.clockId && x.ancestors != [g.masterId]
            case CLOCK_INVENTORY_MISMATCH =>
              || multiset(MapSeq(ObservedId, os)) != multiset(MapSeq(GeneratedEntryId, gs))
              || exists x, g :: x in os && g in gs && x.clockId == g.clockId && FieldsDiffer(x, g)
            case _ => false
  {
    var eg, og := ById(GeneratedEntryId, gs), ById(ObservedId, os);
    TableSize(ObservedId, os);
    if |og| != |os| || og.Keys != eg.Keys {
      IdsDiffer(os, gs);
    } else {
      ByIdFinds(GeneratedEntryId, gs);
      TableKeysOwn(os);
      ByIdHolds(ObservedId, os);
      GeneratedProblemMeans(gs, og);
    }
  }

  lemma IdsDiffer(os: seq<Observed>, gs: seq<GeneratedEntry>)
    requires Distinct(MapSeq(GeneratedEntryId, gs))
    requires !Distinct(MapSeq(ObservedId, os)) || ById(ObservedId, os).Keys != ById(GeneratedEntryId, gs).Keys
    ensures multiset(MapSeq(ObservedId, os)) != multiset(MapSeq(GeneratedEntryId, gs))
  {
    var a, b := MapSeq(ObservedId, os), MapSeq(GeneratedEntryId, gs);
    if multiset(a) == multiset(b) {
      DistinctRearranged(a, b);
      SameElements(a, b);
      ByIdKeys(ObservedId, os);
      ByIdKeys(GeneratedEntryId, gs);
    }
  }

  /** What each error of the audit says is the case: the stages are not what they claim, one
      of them shows other clocks or other ancestors, or the candidate ID has a bad format. */
  lemma ErrorsExplain(candidate: string, expected: Inventory, elaboration: Observation, synthesis: Observation)
    requires ValidInventory(expected) && Construct(candidate, expected, elaboration, synthesis).Err?
    ensures var wrong := elaboration.stage != POST_ELABORATION || synthesis.stage != POST_SYNTHESIS;
            match Construct(candidate, expected, elaboration, synthesis).error
            case CLOCK_STAGE_INVALID => wrong
            case CLOCK_INVENTORY_MISMATCH => !wrong && (Mismatched(elaboration, expected) || Mismatched(synthesis, expected))
            case GENERATED_CLOCK_ANCESTRY_INVALID => !wrong && (Misbred(elaboration, expected) || Misbred(synthesis, expected))
            case VALIDATION => !wrong && Shows(elaboration, expected) && Shows(synthesis, expected) && !EntityId(candidate)
  {
    StagePassesIff(elaboration, expected);
    StagePassesIff(synthesis, expected);
    if StageProblem(elaboration, expected).Some? {
      StageProblemMeans(elaboration, expected);
    } else if StageProblem(synthesis, expected).Some? {
      StageProblemMeans(synthesis, expected);
    } else {
      SealsTheExpectation(candidate, expected, synthesis);
      CanonicalValid(candidate, expected);
    }
  }

  lemma StageIgnoresOrder(o: Observation, p: Observation, expected: Inventory)
    requires ValidInventory(expected) && multiset(o.masters) == multiset(p.masters) && multiset(o.generated) == multiset(p.generated)
    ensures StageProblem(o, expected) == StageProblem(p, expected)
  {
    InventoryDistinct(expected);
    MastersShown(o.masters, expected.masters);
    MastersShown(p.masters, expected.masters);
    TableSize(ObservedId, o.generated);
    TableSize(ObservedId, p.generated);
    MapRearranged(ObservedId, o.generated, p.generated);
    DistinctRearranged(MapSeq(ObservedId, o.generated), MapSeq(ObservedId, p.generated));
    if Distinct(MapSeq(ObservedId, o.generated)) { RearrangedSameTable(ObservedId, o.generated, p.generated); }
  }

  /** The outcome does not depend on the order in which the tools reported the clocks. */
  lemma ConstructIgnoresOrder(candidate: string, expected: Inventory, e: Observation, s: Observation, e': Observation, s': Observation)
    requires ValidInventory(expected) && e.stage == e'.stage && s.stage == s'.stage
    requires multiset(e.masters) == multiset(e'.masters) && multiset(e.generated) == multiset(e'.generated)
    requires multiset(s.masters) == multiset(s'.masters) && multiset(s.generated) == multiset(s'.generated)
    ensures Construct(candidate, expected, e, s) == Construct(candidate, expected, e', s')
  {
    StageIgnoresOrder(e, e', expected);
    StageIgnoresOrder(s, s', expected);
    if StageProblem(s, expected).None? { SealIgnoresOrder(candidate, expected, s, s'); }
  }

  lemma SealIgnoresOrder(candidate: string, expected: Inventory, s: Observation, s': Observation)
    requires ValidInventory(expected) && StageProblem(s, expected).None? && StageProblem(s', expected).None?
    ensures SealFrom(candidate, expected, s) == SealFrom(candidate, expected, s')
  {
    StagePassesIff(s, expected);
    StagePassesIff(s', expected);
    SealsTheExpectation(candidate, expected, s);
    SealsTheExpectation(candidate, expected, s');
  }

  /** Sealing against what was sealed gives the same inventory again. */
  lemma ConstructIsIdempotent(candidate: string, expected: Inventory, elaboration: Observation, synthesis: Observation)
    requires ValidInventory(expected) && Construct(candidate, expected, elaboration, synthesis).Ok?
    ensures var v := Construct(candidate, expected, elaboration, synthesis).value;
            ValidInventory(v) && Construct(candidate, v, elaboration, synthesis) == Ok(v)
  {
    var v := Canonical(candidate, expected);
    ConstructSucceedsIff(candidate, expected, elaboration, synthesis);
    CanonicalValid(candidate, expected);
    LineageSorted(expected);
    MastersSorted(expected);
    MapRearranged(Seen, v.generated, expected.generated);
    ConstructSucceedsIff(candidate, v, elaboration, synthesis);
    OrdersArePreorders();
    SortByCorrect(expected.masters, MasterLe);
    SortByCorrect(expected.generated, GeneratedLe);
    SortByFixpoint(v.masters, MasterLe);
    SortByFixpoint(v.generated, GeneratedLe);
  }
}
