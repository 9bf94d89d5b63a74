/** Which nodes the evidence graph has (src/nova_rtl/evidence/graph.py), where each comes
    from, and that a semantic name leads to the node that was added under it although later
    calls of `add_node` overwrite earlier ones. */
module GraphNames {
  import opened Prelude
  import opened Graph
  import opened GraphTheorems

  // ------------------------------------------------------------------- node by node spec

  /** The call of `add_node` that this content stands for, if it belongs to these inputs. */
  predicate From(i: Inputs, a: NodeAdd) {
    match a.content
    case OfSpan(s, _) => s in i.spans && a.id == NodeId(SOURCE_SPAN, Plain(s.id)) && a.name == "source:" + s.id
    case OfModule(owner, kind) =>
      (exists m :: m in i.objects && m.owner == owner && m.moduleType == kind)
      && a.id == NodeId(MODULE, Hashed("module", [kind, owner])) && a.name == "module:" + owner + ":" + kind
    case OfObject(m, _) => m in i.objects && a.id == ObjectId(m, Types(i)) && a.name == m.name
    case OfNet(net, n) =>
      (exists c :: c in i.connections && c.net == net) && n == multiset(MapSeq(NetOf, i.connections))[net]
      && a.id == NodeId(NET, Plain(net)) && a.name == "net:" + net
    case OfConstraint(h) =>
      h == i.bindingHash && a.id == NodeId(CONSTRAINT_BINDING, Hashed("constraint_binding", [h])) && a.name == "constraint:resolved_binding"
    case OfView(v) => v in i.views && a.id == NodeId(ANALYSIS_VIEW, Plain(v.id)) && a.name == "view:" + v.id
    case OfRegion(v) =>
      v in i.views && a.id == NodeId(PHYSICAL_REGION, Hashed("physical_region", [v.id, v.physicalHash])) && a.name == "physical:" + v.id
    case OfDomain(d) =>
      ((exists m :: m in i.masters && m.domain == d) || (exists g :: g in i.generated && g.domain == d))
      && a.id == NodeId(CLOCK_DOMAIN, Plain(d)) && a.name == "domain:" + d
    case OfMaster(m) => m in i.masters && a.id == NodeId(CLOCK, Plain(m.id)) && a.name == "clock:" + m.id
    case OfGenerated(g) => g in i.generated && a.id == NodeId(GENERATED_CLOCK, Plain(g.id)) && a.name == "clock:" + g.id
    case OfCrossing(c) => c in i.crossings && a.id == NodeId(CDC_STRUCTURE, Plain(c.id)) && a.name == "cdc:" + c.id
    case OfGroup(g) =>
      (exists p :: p in i.paths && p.group == g) && a.id == NodeId(PATH_GROUP, Hashed("path_group", [g])) && a.name == "path_group:" + g
    case OfPath(p, _) => p in i.paths && a.id == NodeId(TIMING_PATH, Plain(p.id)) && a.name == "path:" + p.id
    case OfViolation(p, _) =>
      p in i.paths && p.slack < 0.0 && a.id == NodeId(VIOLATION, HashedSlack(p.id, p.slack)) && a.name == "violation:" + p.id
  }

  lemma {:induction false} SpanAddsFrom(i: Inputs, spans: seq<Span>, k: nat)
    requires forall s :: s in spans ==> s in i.spans
    ensures forall a :: a in SpanAdds(spans, k) ==> a.content.OfSpan? && From(i, a)
    ensures forall s :: s in spans ==> exists a :: a in SpanAdds(spans, k) && a.content.OfSpan? && a.content.span == s
  {
    if spans != [] {
      SpanAddsFrom(i, spans[1..], k + 1);
      assert spans == [spans[0]] + spans[1..];
      var first := SpanAdds(spans, k)[0];
      assert first in SpanAdds(spans, k) && first.content.span == spans[0];
      forall s | s in spans[1..] ensures exists a :: a in SpanAdds(spans, k) && a.content.OfSpan? && a.content.span == s {
        var a :| a in SpanAdds(spans[1..], k + 1) && a.content.OfSpan? && a.content.span == s;
        assert a in SpanAdds(spans, k);
      }
    }
  }

  lemma {:induction false} ModuleAddsFrom(i: Inputs, objects: seq<Mapped>, met: set<(string, string)>)
    requires forall m :: m in objects ==> m in i.objects
    ensures forall a :: a in ModuleAdds(objects, met) ==> a.content.OfModule? && From(i, a)
  {
    if objects != [] {
      var key := (objects[0].owner, objects[0].moduleType);
      assert objects == [objects[0]] + objects[1..];
      ModuleAddsFrom(i, objects[1..], if key in met then met else met + {key});
    }
  }

  lemma {:induction false} ObjectAddsFrom(i: Inputs, objects: seq<Mapped>, k: nat)
    requires forall m :: m in objects ==> m in i.objects
    ensures forall a :: a in ObjectAdds(objects, Types(i), k) ==> a.content.OfObject? && From(i, a)
    ensures forall m :: m in objects ==> exists a :: a in ObjectAdds(objects, Types(i), k) && a.content.OfObject? && a.content.mapped == m
  {
    if objects != [] {
      ObjectAddsFrom(i, objects[1..], k + 1);
      assert objects == [objects[0]] + objects[1..];
      var adds := ObjectAdds(objects, Types(i), k);
      assert adds[0] in adds && adds[0].content.mapped == objects[0];
      forall m | m in objects[1..] ensures exists a :: a in adds && a.content.OfObject? && a.content.mapped == m {
        var a :| a in ObjectAdds(objects[1..], Types(i), k + 1) && a.content.OfObject? && a.content.mapped == m;
        assert a in adds;
      }
    }
  }

  lemma OnePathFrom(i: Inputs, p: Path, k: nat)
    requires p in i.paths
    ensures From(i, NodeAdd(PathNode(p), "path:" + p.id, OfPath(p, k)))
    ensures p.slack < 0.0 ==> From(i, NodeAdd(ViolationNode(p), "violation:" + p.id, OfViolation(p, k)))
  {
  }

  lemma {:induction false} PathAddsFrom(i: Inputs, paths: seq<Path>, k: nat)
    requires forall p :: p in paths ==> p in i.paths
    ensures forall a :: a in PathAdds(paths, k) ==> From(i, a)
  {
    if paths != [] {
      OnePathFrom(i, paths[0], k);
      PathAddsFrom(i, paths[1..], k + 1);
    }
  }

  lemma {:induction false} PathAddFor(paths: seq<Path>, k: nat, p: Path) returns (a: NodeAdd)
    requires p in paths
    ensures a in PathAdds(paths, k) && a.content.OfPath? && a.id == PathNode(p) && a.name == "path:" + p.id
  {
    assert paths == [paths[0]] + paths[1..];
    if p == paths[0] { a := PathAdds(paths, k)[0]; } else { a := PathAddFor(paths[1..], k + 1, p); }
  }

  predicate AllFrom(i: Inputs, adds: seq<NodeAdd>) { forall a :: a in adds ==> From(i, a) }

  lemma BothFrom(i: Inputs, x: seq<NodeAdd>, y: seq<NodeAdd>)
    requires AllFrom(i, x) && AllFrom(i, y)
    ensures AllFrom(i, x + y)
  {
  }

  lemma NetAddsFrom(i: Inputs)
    ensures AllFrom(i, MapSeq(NetAdd(i.connections), SortedOf(Nets(i))))
  {
    SortedOfSpec(Nets(i));
    InMapSeq(NetAdd(i.connections), SortedOf(Nets(i)));
    forall a | a in MapSeq(NetAdd(i.connections), SortedOf(Nets(i))) ensures From(i, a) {
      var n :| n in SortedOf(Nets(i)) && NetAdd(i.connections)(n) == a;
      assert n in SetOf(SortedOf(Nets(i)));
    }
  }

  lemma ViewAddsFrom(i: Inputs)
    ensures AllFrom(i, FlatMap(ViewAdds, i.views))
  {
    InFlatMap(ViewAdds, i.views);
  }

  lemma DomainAddsFrom(i: Inputs)
    ensures AllFrom(i, MapSeq(DomainAdd, SortedOf(Domains(i))))
  {
    SortedOfSpec(Domains(i));
    InMapSeq(DomainAdd, SortedOf(Domains(i)));
    forall a | a in MapSeq(DomainAdd, SortedOf(Domains(i))) ensures From(i, a) {
      var d :| d in SortedOf(Domains(i)) && DomainAdd(d) == a;
      assert d in SetOf(SortedOf(Domains(i)));
    }
  }

  lemma MasterAddsFrom(i: Inputs)
    ensures AllFrom(i, MapSeq(MasterAdd, i.masters))
  {
    InMapSeq(MasterAdd, i.masters);
  }

  lemma GeneratedAddsFrom(i: Inputs)
    ensures AllFrom(i, MapSeq(GeneratedAdd, i.generated))
  {
    InMapSeq(GeneratedAdd, i.generated);
  }

  lemma CrossingAddsFrom(i: Inputs)
    ensures AllFrom(i, MapSeq(CrossingAdd, i.crossings))
  {
    InMapSeq(CrossingAdd, i.crossings);
  }

  lemma GroupAddsFrom(i: Inputs)
    ensures AllFrom(i, MapSeq(GroupAdd, SortedOf(Groups(i))))
  {
    SortedOfSpec(Groups(i));
    InMapSeq(GroupAdd, SortedOf(Groups(i)));
    forall a | a in MapSeq(GroupAdd, SortedOf(Groups(i))) ensures From(i, a) {
      var g :| g in SortedOf(Groups(i)) && GroupAdd(g) == a;
      assert g in SetOf(SortedOf(Groups(i)));
    }
  }

  lemma StructureAddsFrom(i: Inputs)
    ensures AllFrom(i, StructureAdds(i))
  {
    SortedMembers(i);
    SpanAddsFrom(i, SortBy(i.spans, SpanLe), 0);
    ModuleAddsFrom(i, Ordered(i), {});
    ObjectAddsFrom(i, Ordered(i), 0);
    NetAddsFrom(i);
    ViewAddsFrom(i);
    var spans, modules := SpanAdds(SortBy(i.spans, SpanLe), 0), ModuleAdds(Ordered(i), {});
    var objects, nets := ObjectAdds(Ordered(i), Types(i), 0), MapSeq(NetAdd(i.connections), SortedOf(Nets(i)));
    var constraint := [NodeAdd(ConstraintId(i.bindingHash), "constraint:resolved_binding", OfConstraint(i.bindingHash))];
    BothFrom(i, spans, modules);
    BothFrom(i, spans + modules, objects);
    BothFrom(i, spans + modules + objects, nets);
    BothFrom(i, spans + modules + objects + nets, constraint);
    BothFrom(i, spans + modules + objects + nets + constraint, FlatMap(ViewAdds, i.views));
  }

  /** Every node comes from a record of the inputs, with the identity that record gives. */
  lemma AddsFrom(i: Inputs)
    ensures AllFrom(i, Adds(i))
  {
    StructureAddsFrom(i);
    DomainAddsFrom(i);
    MasterAddsFrom(i);
    GeneratedAddsFrom(i);
    BothFrom(i, MapSeq(DomainAdd, SortedOf(Domains(i))), MapSeq(MasterAdd, i.masters));
    BothFrom(i, MapSeq(DomainAdd, SortedOf(Domains(i))) + MapSeq(MasterAdd, i.masters), MapSeq(GeneratedAdd, i.generated));
    CrossingAddsFrom(i);
    GroupAddsFrom(i);
    SortedMembers(i);
    PathAddsFrom(i, OrderedPaths(i), 0);
    BothFrom(i, MapSeq(CrossingAdd, i.crossings), MapSeq(GroupAdd, SortedOf(Groups(i))));
    BothFrom(i, MapSeq(CrossingAdd, i.crossings) + MapSeq(GroupAdd, SortedOf(Groups(i))), PathAdds(OrderedPaths(i), 0));
    BothFrom(i, StructureAdds(i), ClockAdds(i));
    BothFrom(i, StructureAdds(i) + ClockAdds(i), TimingAdds(i));
  }

  // -------------------------------------------------------------------- meaning of names

  /** What the validators of the inputs and of the path collection demand. */
  ghost predicate UniqueIds(i: Inputs) {
    && (forall a, b :: a in i.objects && b in i.objects && a.name == b.name ==> a == b)
    && (forall a, b :: a in i.views && b in i.views && a.id == b.id ==> a == b)
    && (forall a, b :: a in i.paths && b in i.paths && a.id == b.id ==> a == b)
    && (forall a, b :: a in i.masters && b in i.generated ==> a.id != b.id)
  }

  /** The part before the first colon. */
  function Tag(s: string): string { if s == "" || s[0] == ':' then "" else [s[0]] + Tag(s[1..]) }

  /** Which kind of name starts this way; 0 for the names of mapped objects. */
  function Family(tag: string): nat {
    if tag == "source" then 1 else if tag == "module" then 2 else if tag == "net" then 3
    else if tag == "constraint" then 4 else if tag == "view" then 5 else if tag == "physical" then 6
    else if tag == "domain" then 7 else if tag == "clock" then 8 else if tag == "cdc" then 9
    else if tag == "path_group" then 10 else if tag == "path" then 11 else if tag == "violation" then 12 else 0
  }

  /** No mapped object carries the name under which another record's node is added. */
  ghost predicate Disjoint(i: Inputs) {
    forall m, a :: m in i.objects && a in Adds(i) && a.name == m.name && !a.content.OfModule? ==> a.content.OfObject?
  }

  /** A condition on the names alone: no mapped object's name starts like one of another
      family. The source map names objects cell, pin and port; its contract allows any name. */
  predicate ApartNames(i: Inputs) { forall m :: m in i.objects ==> Family(Tag(m.name)) == 0 }

  lemma {:induction false} TagOf(tag: string, rest: string)
    requires ':' !in tag
    ensures Tag(tag + ":" + rest) == tag && AfterColon(tag + ":" + rest) == rest
  {
    if tag != "" {
      var s := tag + ":" + rest;
      assert s[1..] == tag[1..] + ":" + rest;
      assert tag == [tag[0]] + tag[1..] && tag[0] in tag;
      TagOf(tag[1..], rest);
      assert ':' in s by { assert s[|tag|] == ':'; }
    } else {
      assert ("" + ":" + rest)[1..] == rest;
      assert ("" + ":" + rest)[0] == ':';
    }
  }

  /** The family of the node that this content stands for, and what its name says after
      the colon. */
  function FamilyOf(c: Content): nat {
    match c
    case OfSpan(_, _) => 1
    case OfModule(_, _) => 2
    case OfObject(_, _) => 0
    case OfNet(_, _) => 3
    case OfConstraint(_) => 4
    case OfView(_) => 5
    case OfRegion(_) => 6
    case OfDomain(_) => 7
    case OfMaster(_) => 8
    case OfGenerated(_) => 8
    case OfCrossing(_) => 9
    case OfGroup(_) => 10
    case OfPath(_, _) => 11
    case OfViolation(_, _) => 12
  }

  function KeyOf(c: Content): string {
    match c
    case OfSpan(s, _) => s.id
    case OfModule(owner, kind) => owner + ":" + kind
    case OfObject(m, _) => m.name
    case OfNet(net, _) => net
    case OfConstraint(_) => "resolved_binding"
    case OfView(v) => v.id
    case OfRegion(v) => v.id
    case OfDomain(d) => d
    case OfMaster(m) => m.id
    case OfGenerated(g) => g.id
    case OfCrossing(x) => x.id
    case OfGroup(g) => g
    case OfPath(p, _) => p.id
    case OfViolation(p, _) => p.id
  }

  function TagFor(family: nat): string {
    if family == 1 then "source" else if family == 2 then "module" else if family == 3 then "net"
    else if family == 4 then "constraint" else if family == 5 then "view" else if family == 6 then "physical"
    else if family == 7 then "domain" else if family == 8 then "clock" else if family == 9 then "cdc"
    else if family == 10 then "path_group" else if family == 11 then "path" else "violation"
  }

  lemma TagForSpec(family: nat)
    requires 1 <= family <= 12
    ensures Family(TagFor(family)) == family && ':' !in TagFor(family)
  {
  }

  lemma StructureName(i: Inputs, a: NodeAdd)
    requires From(i, a) && 1 <= FamilyOf(a.content) <= 4
    ensures a.name == TagFor(FamilyOf(a.content)) + ":" + KeyOf(a.content)
  {
  }

  lemma ViewName(i: Inputs, a: NodeAdd)
    requires From(i, a) && 5 <= FamilyOf(a.content) <= 8
    ensures a.name == TagFor(FamilyOf(a.content)) + ":" + KeyOf(a.content)
  {
  }

  lemma TimingName(i: Inputs, a: NodeAdd)
    requires From(i, a) && 9 <= FamilyOf(a.content)
    ensures a.name == TagFor(FamilyOf(a.content)) + ":" + KeyOf(a.content)
  {
  }

  lemma FamilyOfName(i: Inputs, a: NodeAdd)
    requires From(i, a) && !a.content.OfObject?
    ensures Family(Tag(a.name)) == FamilyOf(a.content) && AfterColon(a.name) == KeyOf(a.content)
  {
    if FamilyOf(a.content) <= 4 { StructureName(i, a); } else if FamilyOf(a.content) <= 8 { ViewName(i, a); } else { TimingName(i, a); }
    TagForSpec(FamilyOf(a.content));
    TagOf(TagFor(FamilyOf(a.content)), KeyOf(a.content));
  }

  lemma SameKeySameId(i: Inputs, a: NodeAdd, b: NodeAdd)
    requires From(i, a) && From(i, b) && UniqueIds(i)
    requires FamilyOf(a.content) == FamilyOf(b.content) != 2 && KeyOf(a.content) == KeyOf(b.content)
    ensures a.id == b.id
  {
  }

  lemma SameNameSameId(i: Inputs, a: NodeAdd, b: NodeAdd)
    requires UniqueIds(i) && Disjoint(i) && a in Adds(i) && b in Adds(i)
    requires a.name == b.name && !a.content.OfModule? && !b.content.OfModule?
    ensures a.id == b.id
  {
    AddsFrom(i);
    assert From(i, a) && From(i, b);
    if a.content.OfObject? || b.content.OfObject? {
      assert a.content.OfObject? && b.content.OfObject?;
    } else {
      FamilyOfName(i, a);
      FamilyOfName(i, b);
      SameKeySameId(i, a, b);
    }
  }

  // ---------------------------------------------------------------- the last call wins

  predicate NoObjects(adds: seq<NodeAdd>) { forall a :: a in adds ==> !a.content.OfObject? }

  predicate OnlyObjects(adds: seq<NodeAdd>) { forall a :: a in adds ==> a.content.OfObject? }

  /** Neither spans, modules nor mapped objects. */
  predicate NoStructure(adds: seq<NodeAdd>) {
    forall a :: a in adds ==> !a.content.OfModule? && !a.content.OfObject? && !a.content.OfSpan?
  }

  /** The calls of `add_node` before those for the mapped objects, and those after them. */
  function EarlyAdds(i: Inputs): seq<NodeAdd> { SpanAdds(SortBy(i.spans, SpanLe), 0) + ModuleAdds(Ordered(i), {}) }

  function MiddleAdds(i: Inputs): seq<NodeAdd> { ObjectAdds(Ordered(i), Types(i), 0) }

  function NetworkAdds(i: Inputs): seq<NodeAdd> {
    MapSeq(NetAdd(i.connections), SortedOf(Nets(i)))
    + [NodeAdd(ConstraintId(i.bindingHash), "constraint:resolved_binding", OfConstraint(i.bindingHash))]
    + FlatMap(ViewAdds, i.views)
  }

  function LateAdds(i: Inputs): seq<NodeAdd> { NetworkAdds(i) + ClockAdds(i) + TimingAdds(i) }

  lemma AddsSplit(i: Inputs)
    ensures Adds(i) == EarlyAdds(i) + (MiddleAdds(i) + LateAdds(i))
    ensures Adds(i) == (EarlyAdds(i) + MiddleAdds(i)) + LateAdds(i)
  {
    StructureSplits(SpanAdds(SortBy(i.spans, SpanLe), 0), ModuleAdds(Ordered(i), {}), MiddleAdds(i),
                    MapSeq(NetAdd(i.connections), SortedOf(Nets(i))),
                    [NodeAdd(ConstraintId(i.bindingHash), "constraint:resolved_binding", OfConstraint(i.bindingHash))],
                    FlatMap(ViewAdds, i.views));
    TailSplits(EarlyAdds(i) + MiddleAdds(i), NetworkAdds(i), ClockAdds(i), TimingAdds(i));
    assert EarlyAdds(i) + (MiddleAdds(i) + LateAdds(i)) == (EarlyAdds(i) + MiddleAdds(i)) + LateAdds(i);
  }

  lemma StructureSplits(a: seq<NodeAdd>, b: seq<NodeAdd>, c: seq<NodeAdd>, d: seq<NodeAdd>, e: seq<NodeAdd>, f: seq<NodeAdd>)
    ensures a + b + c + d + e + f == ((a + b) + c) + (d + e + f)
  {
  }

  lemma TailSplits(a: seq<NodeAdd>, b: seq<NodeAdd>, c: seq<NodeAdd>, d: seq<NodeAdd>)
    ensures (a + b) + c + d == a + (b + c + d)
  {
  }

  lemma NoStructureBoth(x: seq<NodeAdd>, y: seq<NodeAdd>)
    requires NoStructure(x) && NoStructure(y)
    ensures NoStructure(x + y)
  {
  }

  lemma {:induction false} PathAddsNoStructure(paths: seq<Path>, k: nat)
    ensures NoStructure(PathAdds(paths, k))
  {
    if paths != [] { PathAddsNoStructure(paths[1..], k + 1); }
  }

  lemma {:induction false} ObjectAddsOnly(objects: seq<Mapped>, types: set<string>, k: nat)
    ensures OnlyObjects(ObjectAdds(objects, types, k))
  {
    if objects != [] { ObjectAddsOnly(objects[1..], types, k + 1); }
  }

  lemma {:induction false} SpanAddsNoObjects(spans: seq<Span>, k: nat)
    ensures NoObjects(SpanAdds(spans, k))
  {
    if spans != [] { SpanAddsNoObjects(spans[1..], k + 1); }
  }

  lemma {:induction false} ModuleAddsNoObjects(objects: seq<Mapped>, met: set<(string, string)>)
    ensures NoObjects(ModuleAdds(objects, met))
  {
    if objects != [] {
      var key := (objects[0].owner, objects[0].moduleType);
      ModuleAddsNoObjects(objects[1..], if key in met then met else met + {key});
    }
  }

  lemma NetworkNoStructure(i: Inputs)
    ensures NoStructure(NetworkAdds(i))
  {
    var nets := MapSeq(NetAdd(i.connections), SortedOf(Nets(i)));
    var constraint := [NodeAdd(ConstraintId(i.bindingHash), "constraint:resolved_binding", OfConstraint(i.bindingHash))];
    InMapSeq(NetAdd(i.connections), SortedOf(Nets(i)));
    InFlatMap(ViewAdds, i.views);
    NoStructureBoth(nets, constraint);
    NoStructureBoth(nets + constraint, FlatMap(ViewAdds, i.views));
  }

  lemma ClocksNoStructure(i: Inputs)
    ensures NoStructure(ClockAdds(i))
  {
    var domains, masters := MapSeq(DomainAdd, SortedOf(Domains(i))), MapSeq(MasterAdd, i.masters);
    InMapSeq(DomainAdd, SortedOf(Domains(i)));
    InMapSeq(MasterAdd, i.masters);
    InMapSeq(GeneratedAdd, i.generated);
    NoStructureBoth(domains, masters);
    NoStructureBoth(domains + masters, MapSeq(GeneratedAdd, i.generated));
  }

  lemma TimingNoStructure(i: Inputs)
    ensures NoStructure(TimingAdds(i))
  {
    var crossings, groups := MapSeq(CrossingAdd, i.crossings), MapSeq(GroupAdd, SortedOf(Groups(i)));
    InMapSeq(CrossingAdd, i.crossings);
    InMapSeq(GroupAdd, SortedOf(Groups(i)));
    PathAddsNoStructure(OrderedPaths(i), 0);
    NoStructureBoth(crossings, groups);
    NoStructureBoth(crossings + groups, PathAdds(OrderedPaths(i), 0));
  }

  /** Mapped objects are added after spans and modules, and everything else after them. */
  lemma SectionsOf(i: Inputs)
    ensures NoObjects(EarlyAdds(i)) && OnlyObjects(MiddleAdds(i)) && NoStructure(LateAdds(i))
  {
    SpanAddsNoObjects(SortBy(i.spans, SpanLe), 0);
    ModuleAddsNoObjects(Ordered(i), {});
    ObjectAddsOnly(Ordered(i), Types(i), 0);
    NetworkNoStructure(i);
    ClocksNoStructure(i);
    TimingNoStructure(i);
    NoStructureBoth(NetworkAdds(i), ClockAdds(i));
    NoStructureBoth(NetworkAdds(i) + ClockAdds(i), TimingAdds(i));
  }

  /** Of several calls under one name the last one holds it. */
  lemma LateWins(early: seq<NodeAdd>, late: seq<NodeAdd>, a: NodeAdd)
    requires a in late
    ensures a.name in ById(AddName, early + late) && ById(AddName, early + late)[a.name] in late
    ensures ById(AddName, early + late)[a.name].name == a.name
  {
    ByIdConcat(AddName, early, late);
    ByIdHolds(AddName, late);
    assert AddName(a) in ById(AddName, late);
  }

  /** The call of `add_node` whose node a semantic name leads to. */
  function HolderOf(i: Inputs, name: string): (a: NodeAdd)
    requires name in NamesOf(Adds(i))
    ensures a in Adds(i) && a.name == name && a.id == NamesOf(Adds(i))[name]
  {
    NamesAreLast(Adds(i));
    ByIdHolds(AddName, Adds(i));
    ById(AddName, Adds(i))[name]
  }

  lemma AddedNameKnown(i: Inputs, a: NodeAdd)
    requires a in Adds(i)
    ensures a.name in NamesOf(Adds(i))
  {
    NamesAreLast(Adds(i));
    ByIdHolds(AddName, Adds(i));
    assert AddName(a) in ById(AddName, Adds(i));
  }

  /** A mapped object's name is held by an object or by something added after the objects. */
  lemma ObjectNameHolder(i: Inputs, a: NodeAdd)
    requires a in Adds(i) && a.content.OfObject?
    ensures a.name in NamesOf(Adds(i)) && !HolderOf(i, a.name).content.OfModule? && !HolderOf(i, a.name).content.OfSpan?
  {
    AddedNameKnown(i, a);
    AddsSplit(i);
    SectionsOf(i);
    assert a in MiddleAdds(i) + LateAdds(i);
    LateWins(EarlyAdds(i), MiddleAdds(i) + LateAdds(i), a);
  }

  /** The name of something added after the objects is held by such a thing. */
  lemma LateNameHolder(i: Inputs, a: NodeAdd)
    requires a in Adds(i) && !a.content.OfObject? && !a.content.OfModule? && !a.content.OfSpan?
    ensures a.name in NamesOf(Adds(i))
    ensures var b := HolderOf(i, a.name).content; !b.OfObject? && !b.OfModule? && !b.OfSpan?
  {
    AddedNameKnown(i, a);
    AddsSplit(i);
    SectionsOf(i);
    EarlyKinds(i);
    assert a in LateAdds(i);
    LateWins(EarlyAdds(i) + MiddleAdds(i), LateAdds(i), a);
  }

  lemma EarlyKinds(i: Inputs)
    ensures forall a :: a in EarlyAdds(i) ==> a.content.OfSpan? || a.content.OfModule?
  {
    SortedMembers(i);
    SpanAddsFrom(i, SortBy(i.spans, SpanLe), 0);
    ModuleAddsFrom(i, Ordered(i), {});
  }

  lemma HolderIsNoModule(i: Inputs, a: NodeAdd)
    requires a in Adds(i) && !a.content.OfModule?
    ensures a.name in NamesOf(Adds(i)) && !HolderOf(i, a.name).content.OfModule?
  {
    AddsFrom(i);
    AddedNameKnown(i, a);
    if a.content.OfObject? {
      ObjectNameHolder(i, a);
    } else {
      FamilyOfName(i, a);
      var b := HolderOf(i, a.name);
      assert From(i, b);
      if b.content.OfModule? { FamilyOfName(i, b); }
    }
  }

  /** Looking a semantic name up gives the node that was added under it - spans, objects,
      nets, views, clocks, domains, crossings, groups, paths and violations alike. */
  ghost predicate NamesMeanNodes(i: Inputs) {
    forall a :: a in Adds(i) && !a.content.OfModule? ==> a.name in NamesOf(Adds(i)) && NamesOf(Adds(i))[a.name] == a.id
  }

  /** Although later calls overwrite earlier ones, names mean their nodes exactly when no
      mapped object takes the name of another record. */
  lemma NamesMeanTheirNodes(i: Inputs)
    requires UniqueIds(i)
    ensures NamesMeanNodes(i) <==> Disjoint(i)
  {
    if Disjoint(i) {
      forall a | a in Adds(i) && !a.content.OfModule? ensures a.name in NamesOf(Adds(i)) && NamesOf(Adds(i))[a.name] == a.id {
        HolderIsNoModule(i, a);
        SameNameSameId(i, a, HolderOf(i, a.name));
      }
    } else {
      var m, a :| m in i.objects && a in Adds(i) && a.name == m.name && !a.content.OfModule? && !a.content.OfObject?;
      TakenNameMisleads(i, m, a);
    }
  }

  lemma ObjectAdded(i: Inputs, m: Mapped) returns (a: NodeAdd)
    requires m in i.objects
    ensures a in Adds(i) && a.content.OfObject? && a.name == m.name && a.id == ObjectId(m, Types(i))
  {
    SortedMembers(i);
    ObjectAddsFrom(i, Ordered(i), 0);
    a :| a in ObjectAdds(Ordered(i), Types(i), 0) && a.content.OfObject? && a.content.mapped == m;
    assert a in StructureAdds(i);
  }

  /** Two records under one name cannot both be found. */
  lemma TakenNameMisleads(i: Inputs, m: Mapped, a: NodeAdd)
    requires m in i.objects && a in Adds(i) && a.name == m.name && !a.content.OfModule? && !a.content.OfObject?
    ensures a.id != ObjectId(m, Types(i)) && !NamesMeanNodes(i)
  {
    AddsFrom(i);
    assert From(i, a);
    var b := ObjectAdded(i, m);
  }

  /** Which of the two is found: a mapped object hides a source span of its name, and every
      other record hides a mapped object of its name. */
  lemma WhoHoldsTakenName(i: Inputs, m: Mapped, a: NodeAdd)
    requires UniqueIds(i) && m in i.objects && a in Adds(i) && a.name == m.name && !a.content.OfModule? && !a.content.OfObject?
    ensures m.name in NamesOf(Adds(i))
    ensures NamesOf(Adds(i))[m.name] == if a.content.OfSpan? then ObjectId(m, Types(i)) else a.id
  {
    AddsFrom(i);
    assert From(i, a);
    FamilyOfName(i, a);
    var o := ObjectAdded(i, m);
    ObjectNameHolder(i, o);
    var b := HolderOf(i, m.name);
    assert From(i, b);
    if !a.content.OfSpan? { LateNameHolder(i, a); }
    if !b.content.OfObject? {
      FamilyOfName(i, b);
      SameKeySameId(i, a, b);
    }
  }

  /** Names of separate families are disjoint. */
  lemma ApartNamesAreDisjoint(i: Inputs)
    requires ApartNames(i)
    ensures Disjoint(i)
  {
    AddsFrom(i);
    forall m, a | m in i.objects && a in Adds(i) && a.name == m.name && !a.content.OfModule? ensures a.content.OfObject? {
      if !a.content.OfObject? { FamilyOfName(i, a); }
    }
  }
}
