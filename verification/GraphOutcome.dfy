/** When building the evidence graph succeeds (src/nova_rtl/evidence/graph.py), exactly and for
    all inputs: each section of edges passes if and only if the names that it looks up are known
    and lead to two different nodes. The parts are put together for inputs with unique IDs and
    disjoint names, and then restated for inputs that pass their contracts. */
module GraphOutcome {
  import opened Prelude
  import opened Graph
  import opened GraphTheorems
  import opened GraphNames
  import opened GraphPaths

  // ---------------------------------------------------------------------- passing requests

  /** The call adds its edge; with `loops`, one that joins a node to itself may fail. */
  predicate Passes(names: map<string, NodeId>, r: Request, loops: bool) {
    Attempt(names, r).Ok? || (loops && Attempt(names, r) == Err(SelfEdge))
  }

  predicate AllPass(names: map<string, NodeId>, rs: seq<Request>, loops: bool) {
    forall r :: r in rs ==> Passes(names, r, loops)
  }

  /** Both names are known, and lead to two nodes unless `loops`. */
  predicate Meets(names: map<string, NodeId>, a: string, b: string, loops: bool) {
    a in names && b in names && (loops || names[a] != names[b])
  }

  lemma AllPassBoth(names: map<string, NodeId>, x: seq<Request>, y: seq<Request>, loops: bool)
    ensures AllPass(names, x + y, loops) <==> AllPass(names, x, loops) && AllPass(names, y, loops)
  {
    assert forall r :: r in x + y <==> r in x || r in y;
  }

  lemma AllPassFlat<T(!new)>(names: map<string, NodeId>, f: T -> seq<Request>, xs: seq<T>, loops: bool)
    ensures AllPass(names, FlatMap(f, xs), loops) <==> forall x :: x in xs ==> AllPass(names, f(x), loops)
  {
    InFlatMap(f, xs);
  }

  lemma AllPassMap<T(!new)>(names: map<string, NodeId>, f: T -> Request, xs: seq<T>, loops: bool)
    ensures AllPass(names, MapSeq(f, xs), loops) <==> forall x :: x in xs ==> Passes(names, f(x), loops)
  {
    InMapSeq(f, xs);
  }

  lemma LinkPasses(names: map<string, NodeId>, kind: EdgeKind, a: string, b: string, role: string, loops: bool)
    ensures Passes(names, Link(kind, Named(a), Named(b), role), loops) <==> Meets(names, a, b, loops)
  {
  }

  // ---------------------------------------------------------------------- record by record

  predicate ObjectMeets(names: map<string, NodeId>, m: Mapped, loops: bool) {
    forall s :: s in m.spans ==> Meets(names, m.name, "source:" + s, loops)
  }

  lemma SpanSection(names: map<string, NodeId>, me: string, spans: seq<string>, loops: bool)
    ensures AllPass(names, MapSeq(SpanLink(Named(me)), spans), loops) <==>
            forall s :: s in spans ==> Meets(names, me, "source:" + s, loops)
  {
    AllPassMap(names, SpanLink(Named(me)), spans, loops);
    forall s | s in spans ensures Passes(names, SpanLink(Named(me))(s), loops) <==> Meets(names, me, "source:" + s, loops) {
      LinkPasses(names, MAPS_TO, me, "source:" + s, "", loops);
    }
  }

  lemma ObjectSection(names: map<string, NodeId>, m: Mapped, loops: bool)
    requires m.name in names && names[m.name] != ModuleId(m.owner, m.moduleType)
    ensures AllPass(names, ObjectLinks(m), loops) <==> ObjectMeets(names, m, loops)
  {
    var head := [Simple(CONTAINS, Known(ModuleId(m.owner, m.moduleType)), Named(m.name))];
    AllPassBoth(names, head, MapSeq(SpanLink(Named(m.name)), m.spans), loops);
    SpanSection(names, m.name, m.spans, loops);
  }

  predicate ConnectionMeets(names: map<string, NodeId>, c: Connection, loops: bool) {
    && Meets(names, c.source, "net:" + c.net, loops) && Meets(names, "net:" + c.net, c.destination, loops)
    && Meets(names, c.source, c.destination, loops)
  }

  lemma ConnectionSection(names: map<string, NodeId>, c: Connection, loops: bool)
    ensures AllPass(names, ConnectionLinks(c), loops) <==> ConnectionMeets(names, c, loops)
  {
    var links := ConnectionLinks(c);
    LinkPasses(names, CONNECTS, c.source, "net:" + c.net, "", loops);
    LinkPasses(names, CONNECTS, "net:" + c.net, c.destination, "", loops);
    LinkPasses(names, DATA_DEPENDENCY, c.source, c.destination, "", loops);
    assert links[0] in links && links[1] in links && links[2] in links;
  }

  predicate LineageMeets(names: map<string, NodeId>, l: Lineage, loops: bool) {
    Meets(names, "clock:" + l.child, "clock:" + l.parent, loops)
  }

  lemma LineageSection(names: map<string, NodeId>, l: Lineage, loops: bool)
    ensures Passes(names, LineageLink(l), loops) <==> LineageMeets(names, l, loops)
  {
    LinkPasses(names, GENERATED_FROM, "clock:" + l.child, "clock:" + l.parent, "", loops);
  }

  predicate ClockNamed(names: map<string, NodeId>, id: string, domain: string) {
    "clock:" + id in names && names["clock:" + id] != DomainNode(domain)
  }

  lemma ClockSection(names: map<string, NodeId>, id: string, domain: string, loops: bool)
    requires ClockNamed(names, id, domain)
    ensures Passes(names, Simple(CONTAINS, Known(DomainNode(domain)), Named("clock:" + id)), loops)
  {
  }

  predicate ViewNamed(names: map<string, NodeId>, v: View) {
    && "view:" + v.id in names && names["view:" + v.id] == ViewId(v)
    && "physical:" + v.id in names && names["physical:" + v.id] == RegionId(v)
  }

  lemma ViewSection(names: map<string, NodeId>, hash: string, v: View, loops: bool)
    requires ViewNamed(names, v)
    ensures AllPass(names, ViewLinks(hash)(v), loops)
  {
  }

  /** An endpoint stands for some object, and the neighbours of those it stands for are known. */
  predicate EndpointMeets(i: Inputs, names: map<string, NodeId>, crossing: string, endpoint: string, loops: bool) {
    var matching := Matching(Ordered(i), endpoint);
    && matching != []
    && forall m, n :: m in matching && n in Neighbors(i.connections, m.name) ==> Meets(names, n, "cdc:" + crossing, loops)
  }

  lemma NearSection(names: map<string, NodeId>, crossing: string, role: string, near: set<string>, loops: bool)
    ensures AllPass(names, MapSeq(NearLink(crossing, role), SortedOf(near)), loops) <==>
            forall n :: n in near ==> Meets(names, n, "cdc:" + crossing, loops)
  {
    SortedOfSpec(near);
    assert forall n :: n in SortedOf(near) <==> n in SetOf(SortedOf(near));
    AllPassMap(names, NearLink(crossing, role), SortedOf(near), loops);
    forall n ensures Passes(names, NearLink(crossing, role)(n), loops) <==> Meets(names, n, "cdc:" + crossing, loops) {
      LinkPasses(names, NEAR_PROTECTED_BOUNDARY, n, "cdc:" + crossing, role, loops);
    }
  }

  lemma MatchedSection(names: map<string, NodeId>, connections: seq<Connection>, crossing: string, role: string, m: Mapped, loops: bool)
    requires Meets(names, m.name, "cdc:" + crossing, false)
    ensures AllPass(names, MatchedLinks(connections, crossing, role)(m), loops) <==>
            forall n :: n in Neighbors(connections, m.name) ==> Meets(names, n, "cdc:" + crossing, loops)
  {
    var near := Neighbors(connections, m.name);
    var head := [Link(CROSSES_DOMAIN, Named(m.name), Named("cdc:" + crossing), role),
                 Simple(PROTECTED_BY, Named(m.name), Named("cdc:" + crossing))];
    AllPassBoth(names, head, MapSeq(NearLink(crossing, role), SortedOf(near)), loops);
    NearSection(names, crossing, role, near, loops);
  }

  lemma EndpointSection(i: Inputs, names: map<string, NodeId>, crossing: string, role: string, endpoint: string, loops: bool)
    requires forall m :: m in i.objects ==> Meets(names, m.name, "cdc:" + crossing, false)
    ensures AllPass(names, EndpointLinks(i, crossing, role, endpoint), loops) <==> EndpointMeets(i, names, crossing, endpoint, loops)
  {
    var matching, f := Matching(Ordered(i), endpoint), MatchedLinks(i.connections, crossing, role);
    MatchingAreObjects(i, endpoint);
    if matching == [] {
      assert Reject(UnresolvedEndpoint) in EndpointLinks(i, crossing, role, endpoint);
    } else {
      AllPassFlat(names, f, matching, loops);
      forall m | m in matching
        ensures AllPass(names, f(m), loops) <==> forall n :: n in Neighbors(i.connections, m.name) ==> Meets(names, n, "cdc:" + crossing, loops)
      {
        MatchedSection(names, i.connections, crossing, role, m, loops);
      }
    }
  }

  predicate CrossingMeets(i: Inputs, names: map<string, NodeId>, c: Crossing, loops: bool) {
    EndpointMeets(i, names, c.id, c.source, loops) && EndpointMeets(i, names, c.id, c.destination, loops)
  }

  lemma CrossingSection(i: Inputs, names: map<string, NodeId>, c: Crossing, loops: bool)
    requires forall m :: m in i.objects ==> Meets(names, m.name, "cdc:" + c.id, false)
    ensures AllPass(names, CrossingLinks(i)(c), loops) <==> CrossingMeets(i, names, c, loops)
  {
    EndpointSection(i, names, c.id, "source", c.source, loops);
    EndpointSection(i, names, c.id, "destination", c.destination, loops);
    AllPassBoth(names, EndpointLinks(i, c.id, "source", c.source), EndpointLinks(i, c.id, "destination", c.destination), loops);
  }

  // ------------------------------------------------------------------------- path by path

  /** The objects and clocks of a path are known, and no edge along it joins a node to
      itself unless `loops`. */
  predicate PathMeets(names: map<string, NodeId>, p: Path, loops: bool) {
    && p.objects != [] && (forall n :: n in p.objects ==> n in names)
    && Meets(names, "path:" + p.id, p.objects[0], loops) && Meets(names, "path:" + p.id, p.objects[|p.objects| - 1], loops)
    && (forall k :: 0 <= k < |p.objects| - 1 ==> Meets(names, p.objects[k], p.objects[k + 1], loops))
    && "clock:" + p.launch in names && "clock:" + p.capture in names
  }

  /** The names a path's other edges lead to, where they are known at all. */
  predicate PathNamed(names: map<string, NodeId>, p: Path) {
    && "path:" + p.id in names && names["path:" + p.id] == PathNode(p)
    && "view:" + p.view in names && names["view:" + p.view] != PathNode(p)
    && (forall c :: c in {p.launch, p.capture} && "clock:" + c in names ==> names["clock:" + c] != PathNode(p))
    && ("violation:" + p.id in names ==> names["violation:" + p.id] != PathNode(p))
    && forall s :: s in p.spans ==> "source:" + s in names && names["source:" + s] != PathNode(p)
  }

  lemma ArcSection(names: map<string, NodeId>, objects: seq<string>, loops: bool)
    ensures AllPass(names, Arcs(objects), loops) <==>
            forall k :: 0 <= k < |objects| - 1 ==> Meets(names, objects[k], objects[k + 1], loops)
  {
    var arcs := Arcs(objects);
    ArcsSpec(objects);
    forall k | 0 <= k < |objects| - 1
      ensures arcs[k] in arcs && (Passes(names, arcs[k], loops) <==> Meets(names, objects[k], objects[k + 1], loops))
    {
      LinkPasses(names, TIMING_ARC, objects[k], objects[k + 1], "", loops);
    }
    if forall k :: 0 <= k < |objects| - 1 ==> Meets(names, objects[k], objects[k + 1], loops) {
      forall r | r in arcs ensures Passes(names, r, loops) {
        var k :| 0 <= k < |arcs| && arcs[k] == r;
      }
    }
  }

  lemma EndsSection(names: map<string, NodeId>, p: Path, loops: bool)
    requires p.objects != []
    ensures AllPass(names, PathEnds(p), loops) <==>
            && Meets(names, "path:" + p.id, p.objects[0], loops) && Meets(names, "path:" + p.id, p.objects[|p.objects| - 1], loops)
  {
    var ends := PathEnds(p);
    LinkPasses(names, LAUNCHES, "path:" + p.id, p.objects[0], "", loops);
    LinkPasses(names, CAPTURES, "path:" + p.id, p.objects[|p.objects| - 1], "", loops);
    assert ends[0] in ends && ends[1] in ends;
  }

  lemma RolesSection(names: map<string, NodeId>, p: Path, loops: bool)
    requires PathNamed(names, p)
    ensures AllPass(names, PathRoles(p), loops) <==> "clock:" + p.launch in names && "clock:" + p.capture in names
  {
    var roles := PathRoles(p);
    LinkPasses(names, CLOCKED_BY, "path:" + p.id, "clock:" + p.launch, "launch", loops);
    LinkPasses(names, CLOCKED_BY, "path:" + p.id, "clock:" + p.capture, "capture", loops);
    LinkPasses(names, IN_ANALYSIS_VIEW, "path:" + p.id, "view:" + p.view, "", loops);
    assert roles[0] in roles && roles[1] in roles;
    assert Passes(names, roles[3], loops);
  }

  lemma ViolationSection(names: map<string, NodeId>, p: Path, loops: bool)
    requires PathNamed(names, p)
    ensures AllPass(names, PathViolation(names, p), loops)
  {
    LinkPasses(names, HAS_VIOLATION, "path:" + p.id, "violation:" + p.id, "", loops);
  }

  lemma PathSpansSection(names: map<string, NodeId>, p: Path, loops: bool)
    requires PathNamed(names, p)
    ensures AllPass(names, MapSeq(SpanLink(Me(p)), p.spans), loops)
  {
    SpanSection(names, "path:" + p.id, p.spans, loops);
  }

  lemma FivePass(names: map<string, NodeId>, a: seq<Request>, b: seq<Request>, c: seq<Request>, d: seq<Request>, e: seq<Request>, loops: bool)
    ensures AllPass(names, a + b + c + d + e, loops) <==>
            AllPass(names, a, loops) && AllPass(names, b, loops) && AllPass(names, c, loops) && AllPass(names, d, loops) && AllPass(names, e, loops)
  {
    AllPassBoth(names, a, b, loops);
    AllPassBoth(names, a + b, c, loops);
    AllPassBoth(names, a + b + c, d, loops);
    AllPassBoth(names, a + b + c + d, e, loops);
  }

  lemma PathSection(names: map<string, NodeId>, p: Path, loops: bool)
    requires PathNamed(names, p)
    ensures AllPass(names, LinksOfPath(names, p), loops) <==> PathMeets(names, p, loops)
  {
    if (exists n :: n in p.objects && n !in names) || p.objects == [] {
      assert LinksOfPath(names, p)[0].Reject? && LinksOfPath(names, p)[0] in LinksOfPath(names, p);
    } else {
      EndsSection(names, p, loops);
      ArcSection(names, p.objects, loops);
      RolesSection(names, p, loops);
      ViolationSection(names, p, loops);
      PathSpansSection(names, p, loops);
      FivePass(names, PathEnds(p), Arcs(p.objects), PathRoles(p), PathViolation(names, p), MapSeq(SpanLink(Me(p)), p.spans), loops);
    }
  }

  // ------------------------------------------------------------------------- all requests

  /** What the names of the records lead to. */
  ghost predicate Grounded(i: Inputs, names: map<string, NodeId>) {
    && (forall m :: m in i.objects ==> m.name in names && names[m.name] == ObjectId(m, Types(i)))
    && (forall m :: m in i.masters ==> ClockNamed(names, m.id, m.domain))
    && (forall g :: g in i.generated ==> ClockNamed(names, g.id, g.domain))
    && (forall v :: v in i.views ==> ViewNamed(names, v))
    && (forall c :: c in i.crossings ==> "cdc:" + c.id in names && names["cdc:" + c.id] == CrossingNode(c))
    && (forall p :: p in i.paths ==> PathNamed(names, p))
  }

  /** The records whose edges depend on what other records their names lead to. */
  ghost predicate Fits(i: Inputs, names: map<string, NodeId>, loops: bool) {
    && (forall m :: m in i.objects ==> ObjectMeets(names, m, loops))
    && (forall c :: c in i.connections ==> ConnectionMeets(names, c, loops))
    && (forall l :: l in i.lineage ==> LineageMeets(names, l, loops))
    && (forall c :: c in i.crossings ==> CrossingMeets(i, names, c, loops))
    && (forall p :: p in i.paths ==> PathMeets(names, p, loops))
  }

  lemma ObjectsPass(i: Inputs, names: map<string, NodeId>, loops: bool)
    requires Grounded(i, names)
    ensures AllPass(names, FlatMap(ObjectLinks, Ordered(i)), loops) <==> forall m :: m in i.objects ==> ObjectMeets(names, m, loops)
  {
    SortedMembers(i);
    AllPassFlat(names, ObjectLinks, Ordered(i), loops);
    forall m | m in i.objects ensures AllPass(names, ObjectLinks(m), loops) <==> ObjectMeets(names, m, loops) {
      ObjectSection(names, m, loops);
    }
  }

  lemma ConnectionsPass(i: Inputs, names: map<string, NodeId>, loops: bool)
    ensures AllPass(names, FlatMap(ConnectionLinks, i.connections), loops) <==>
            forall c :: c in i.connections ==> ConnectionMeets(names, c, loops)
  {
    AllPassFlat(names, ConnectionLinks, i.connections, loops);
    forall c | c in i.connections ensures AllPass(names, ConnectionLinks(c), loops) <==> ConnectionMeets(names, c, loops) {
      ConnectionSection(names, c, loops);
    }
  }

  lemma LineagePass(i: Inputs, names: map<string, NodeId>, loops: bool)
    ensures AllPass(names, MapSeq(LineageLink, i.lineage), loops) <==> forall l :: l in i.lineage ==> LineageMeets(names, l, loops)
  {
    AllPassMap(names, LineageLink, i.lineage, loops);
    forall l | l in i.lineage ensures Passes(names, LineageLink(l), loops) <==> LineageMeets(names, l, loops) {
      LineageSection(names, l, loops);
    }
  }

  lemma ClocksPass(i: Inputs, names: map<string, NodeId>, loops: bool)
    requires Grounded(i, names)
    ensures AllPass(names, MapSeq(MasterLink, i.masters), loops) && AllPass(names, MapSeq(GeneratedLink, i.generated), loops)
  {
    AllPassMap(names, MasterLink, i.masters, loops);
    AllPassMap(names, GeneratedLink, i.generated, loops);
    forall m | m in i.masters ensures Passes(names, MasterLink(m), loops) { ClockSection(names, m.id, m.domain, loops); }
    forall g | g in i.generated ensures Passes(names, GeneratedLink(g), loops) { ClockSection(names, g.id, g.domain, loops); }
  }

  lemma ViewsPass(i: Inputs, names: map<string, NodeId>, loops: bool)
    requires Grounded(i, names)
    ensures AllPass(names, FlatMap(ViewLinks(i.bindingHash), i.views), loops)
  {
    AllPassFlat(names, ViewLinks(i.bindingHash), i.views, loops);
    forall v | v in i.views ensures AllPass(names, ViewLinks(i.bindingHash)(v), loops) { ViewSection(names, i.bindingHash, v, loops); }
  }

  lemma CrossingsPass(i: Inputs, names: map<string, NodeId>, loops: bool)
    requires Grounded(i, names)
    ensures AllPass(names, FlatMap(CrossingLinks(i), i.crossings), loops) <==>
            forall c :: c in i.crossings ==> CrossingMeets(i, names, c, loops)
  {
    AllPassFlat(names, CrossingLinks(i), i.crossings, loops);
    forall c | c in i.crossings ensures AllPass(names, CrossingLinks(i)(c), loops) <==> CrossingMeets(i, names, c, loops) {
      CrossingSection(i, names, c, loops);
    }
  }

  lemma PathsPass(i: Inputs, names: map<string, NodeId>, loops: bool)
    requires Grounded(i, names)
    ensures AllPass(names, FlatMap(PathLinks(names), OrderedPaths(i)), loops) <==>
            forall p :: p in i.paths ==> PathMeets(names, p, loops)
  {
    SortedMembers(i);
    AllPassFlat(names, PathLinks(names), OrderedPaths(i), loops);
    forall p | p in i.paths ensures AllPass(names, PathLinks(names)(p), loops) <==> PathMeets(names, p, loops) {
      PathSection(names, p, loops);
    }
  }

  lemma EightPass(names: map<string, NodeId>, a: seq<Request>, b: seq<Request>, c: seq<Request>, d: seq<Request>, e: seq<Request>,
                  f: seq<Request>, g: seq<Request>, h: seq<Request>, loops: bool)
    ensures AllPass(names, (a + b + c + d + e + f + g) + h, loops) <==>
            && AllPass(names, a, loops) && AllPass(names, b, loops) && AllPass(names, c, loops) && AllPass(names, d, loops)
            && AllPass(names, e, loops) && AllPass(names, f, loops) && AllPass(names, g, loops) && AllPass(names, h, loops)
  {
    FivePass(names, a, b, c, d, e, loops);
    AllPassBoth(names, a + b + c + d + e, f, loops);
    AllPassBoth(names, a + b + c + d + e + f, g, loops);
    AllPassBoth(names, a + b + c + d + e + f + g, h, loops);
  }

  lemma SectionsPass(i: Inputs, names: map<string, NodeId>, loops: bool)
    ensures AllPass(names, Requests(i, names), loops) <==>
            && AllPass(names, FlatMap(ObjectLinks, Ordered(i)), loops) && AllPass(names, FlatMap(ConnectionLinks, i.connections), loops)
            && AllPass(names, MapSeq(LineageLink, i.lineage), loops) && AllPass(names, MapSeq(MasterLink, i.masters), loops)
            && AllPass(names, MapSeq(GeneratedLink, i.generated), loops)
            && AllPass(names, FlatMap(ViewLinks(i.bindingHash), i.views), loops)
            && AllPass(names, FlatMap(CrossingLinks(i), i.crossings), loops)
            && AllPass(names, FlatMap(PathLinks(names), OrderedPaths(i)), loops)
  {
    EightPass(names, FlatMap(ObjectLinks, Ordered(i)), FlatMap(ConnectionLinks, i.connections),
              MapSeq(LineageLink, i.lineage), MapSeq(MasterLink, i.masters), MapSeq(GeneratedLink, i.generated),
              FlatMap(ViewLinks(i.bindingHash), i.views), FlatMap(CrossingLinks(i), i.crossings),
              FlatMap(PathLinks(names), OrderedPaths(i)), loops);
  }

  lemma RequestsPassIff(i: Inputs, names: map<string, NodeId>, loops: bool)
    requires Grounded(i, names)
    ensures AllPass(names, Requests(i, names), loops) <==> Fits(i, names, loops)
  {
    SectionsPass(i, names, loops);
    ObjectsPass(i, names, loops);
    ConnectionsPass(i, names, loops);
    LineagePass(i, names, loops);
    ClocksPass(i, names, loops);
    ViewsPass(i, names, loops);
    CrossingsPass(i, names, loops);
    PathsPass(i, names, loops);
  }

  // ----------------------------------------------------------------- what the names lead to

  /** The checks of `_validated_inputs` and `_path_collection` on the paths. */
  predicate PathsChecked(i: Inputs) {
    && (forall p :: p in i.paths ==> HasView(i, p.view) && forall s :: s in p.spans ==> HasSpan(i, s))
    && NoRepeats(MapSeq(PathId, i.paths))
  }

  lemma {:induction false} PathProblemIff(i: Inputs, paths: seq<Path>)
    ensures PathProblem(i, paths).None? <==> forall p :: p in paths ==> HasView(i, p.view) && forall s :: s in p.spans ==> HasSpan(i, s)
  {
    if paths != [] {
      PathProblemIff(i, paths[1..]);
      assert paths == [paths[0]] + paths[1..];
    }
  }

  lemma ClockNodesNamed(i: Inputs)
    requires UniqueIds(i) && Disjoint(i)
    ensures forall m :: m in i.masters ==> "clock:" + m.id in Names(i) && Names(i)["clock:" + m.id] == NodeId(CLOCK, Plain(m.id))
    ensures forall g :: g in i.generated ==>
              "clock:" + g.id in Names(i) && Names(i)["clock:" + g.id] == NodeId(GENERATED_CLOCK, Plain(g.id))
  {
    InMapSeq(MasterAdd, i.masters);
    InMapSeq(GeneratedAdd, i.generated);
    forall m | m in i.masters
      ensures "clock:" + m.id in Names(i) && Names(i)["clock:" + m.id] == NodeId(CLOCK, Plain(m.id))
    {
      assert MasterAdd(m) in ClockAdds(i);
      NamedAs(i, MasterAdd(m));
    }
    forall g | g in i.generated
      ensures "clock:" + g.id in Names(i) && Names(i)["clock:" + g.id] == NodeId(GENERATED_CLOCK, Plain(g.id))
    {
      assert GeneratedAdd(g) in ClockAdds(i);
      NamedAs(i, GeneratedAdd(g));
    }
  }

  lemma ViewNodesNamed(i: Inputs, v: View)
    requires UniqueIds(i) && Disjoint(i) && v in i.views
    ensures ViewNamed(Names(i), v)
  {
    InFlatMap(ViewAdds, i.views);
    var a, b := ViewAdds(v)[0], ViewAdds(v)[1];
    assert a in ViewAdds(v) && b in ViewAdds(v);
    assert a in StructureAdds(i) && b in StructureAdds(i);
    NamedAs(i, a);
    NamedAs(i, b);
  }

  lemma SpanNodeNamed(i: Inputs, id: string)
    requires UniqueIds(i) && Disjoint(i) && HasSpan(i, id)
    ensures "source:" + id in Names(i) && Names(i)["source:" + id] == NodeId(SOURCE_SPAN, Plain(id))
  {
    var s :| s in i.spans && s.id == id;
    SortedMembers(i);
    SpanAddsFrom(i, SortBy(i.spans, SpanLe), 0);
    var a :| a in SpanAdds(SortBy(i.spans, SpanLe), 0) && a.content.OfSpan? && a.content.span == s;
    assert a in StructureAdds(i);
    NamedAs(i, a);
  }

  lemma NetNodeNamed(i: Inputs, c: Connection)
    requires UniqueIds(i) && Disjoint(i) && c in i.connections
    ensures "net:" + c.net in Names(i) && Names(i)["net:" + c.net] == NodeId(NET, Plain(c.net))
  {
    assert c.net in Nets(i);
    MappedNameAdded(NetAdd(i.connections), Nets(i), c.net);
    var a := NetAdd(i.connections)(c.net);
    assert a in StructureAdds(i);
    NamedAs(i, a);
  }

  lemma PathKindIsPath(i: Inputs, a: NodeAdd)
    requires From(i, a) && a.id.kind.TIMING_PATH?
    ensures a.content.OfPath? && a.name == "path:" + a.content.path.id
  {
  }

  lemma TagIsNotPath(tag: string, rest: string, id: string)
    requires ':' !in tag && tag != "path"
    ensures tag + ":" + rest != "path:" + id
  {
    TagOf(tag, rest);
    TagOf("path", id);
    assert "path:" + id == "path" + ":" + id;
  }

  /** Only a name that says so leads to a timing path. */
  lemma PathNodeHolder(i: Inputs, name: string, tag: string, rest: string)
    requires ':' !in tag && tag != "path" && name == tag + ":" + rest && name in Names(i)
    ensures !Names(i)[name].kind.TIMING_PATH?
  {
    var a := HolderOf(i, name);
    AddsFrom(i);
    assert From(i, a);
    if a.id.kind.TIMING_PATH? {
      PathKindIsPath(i, a);
      TagIsNotPath(tag, rest, a.content.path.id);
    }
  }

  lemma PathRecordNamed(i: Inputs, p: Path)
    requires UniqueIds(i) && Disjoint(i) && PathsChecked(i) && p in i.paths
    ensures PathNamed(Names(i), p)
  {
    PathNodeNamed(i, p);
    var v :| v in i.views && v.id == p.view;
    ViewNodesNamed(i, v);
    forall s | s in p.spans ensures "source:" + s in Names(i) && Names(i)["source:" + s] != PathNode(p) { SpanNodeNamed(i, s); }
    forall c | c in {p.launch, p.capture} && "clock:" + c in Names(i) ensures Names(i)["clock:" + c] != PathNode(p) {
      assert "clock:" + c == "clock" + ":" + c;
      PathNodeHolder(i, "clock:" + c, "clock", c);
    }
    assert "violation:" + p.id == "violation" + ":" + p.id;
    if "violation:" + p.id in Names(i) { PathNodeHolder(i, "violation:" + p.id, "violation", p.id); }
  }

  lemma RecordsGrounded(i: Inputs)
    requires UniqueIds(i) && Disjoint(i) && PathsChecked(i)
    ensures Grounded(i, Names(i))
  {
    ClockNodesNamed(i);
    forall m | m in i.objects ensures m.name in Names(i) && Names(i)[m.name] == ObjectId(m, Types(i)) { ObjectNodeNamed(i, m); }
    forall v | v in i.views ensures ViewNamed(Names(i), v) { ViewNodesNamed(i, v); }
    forall c | c in i.crossings ensures "cdc:" + c.id in Names(i) && Names(i)["cdc:" + c.id] == CrossingNode(c) {
      CrossingNodeNamed(i, c);
    }
    forall p | p in i.paths ensures PathNamed(Names(i), p) { PathRecordNamed(i, p); }
  }

  // ---------------------------------------------------------------------------- the outcome

  /** What a sequence of calls leads to, read off the calls one by one. */
  lemma {:induction false} ProcessOutcome(names: map<string, NodeId>, rs: seq<Request>, edges: set<Edge>)
    ensures Process(names, rs, edges).Ok? <==> AllPass(names, rs, false)
    ensures AllPass(names, rs, true) && !AllPass(names, rs, false) ==> Process(names, rs, edges) == Err(SelfEdge)
    decreases rs
  {
    if rs != [] {
      assert rs == [rs[0]] + rs[1..];
      AllPassBoth(names, [rs[0]], rs[1..], true);
      AllPassBoth(names, [rs[0]], rs[1..], false);
      assert Passes(names, rs[0], true) <==> AllPass(names, [rs[0]], true);
      assert Passes(names, rs[0], false) <==> AllPass(names, [rs[0]], false);
      if Attempt(names, rs[0]).Ok? { ProcessOutcome(names, rs[1..], edges + {Attempt(names, rs[0]).value}); }
    }
  }

  lemma BuildOutcome(i: Inputs)
    ensures BuildOf(i).Ok? <==> PathsChecked(i) && AllPass(Names(i), Requests(i, Names(i)), false)
    ensures PathsChecked(i) && AllPass(Names(i), Requests(i, Names(i)), true) && !AllPass(Names(i), Requests(i, Names(i)), false) ==>
            BuildOf(i) == Err(SelfEdge)
  {
    PathProblemIff(i, i.paths);
    ProcessOutcome(Names(i), Requests(i, Names(i)), {});
  }

  /** The build succeeds exactly when the path checks hold, every name that a record looks up
      is known, each crossing endpoint stands for an object, and none of these lookups ends
      where it started. When self-referential edges are all that is wrong, it says so. */
  lemma BuildSucceedsIff(i: Inputs)
    requires UniqueIds(i) && Disjoint(i)
    ensures BuildOf(i).Ok? <==> PathsChecked(i) && Fits(i, Names(i), false)
    ensures PathsChecked(i) && Fits(i, Names(i), true) && !Fits(i, Names(i), false) ==> BuildOf(i) == Err(SelfEdge)
  {
    BuildOutcome(i);
    if PathsChecked(i) {
      RecordsGrounded(i);
      RequestsPassIff(i, Names(i), true);
      RequestsPassIff(i, Names(i), false);
    }
  }

  // ------------------------------------------------------- inputs that pass their contracts

  /** What the contracts of the source map and of the clock inventory guarantee. */
  ghost predicate Validated(i: Inputs) {
    && UniqueIds(i)
    && (forall m, s :: m in i.objects && s in m.spans ==> HasSpan(i, s))
    && (forall c :: c in i.connections ==> ObjectNamed(i, c.source) && ObjectNamed(i, c.destination))
    && (forall l :: l in i.lineage ==> MasterNamed(i, l.parent) && GeneratedNamed(i, l.child))
  }

  predicate ObjectNamed(i: Inputs, name: string) { exists m :: m in i.objects && m.name == name }
  predicate MasterNamed(i: Inputs, id: string) { exists m :: m in i.masters && m.id == id }
  predicate GeneratedNamed(i: Inputs, id: string) { exists g :: g in i.generated && g.id == id }

  predicate EndpointsMatched(i: Inputs, c: Crossing) {
    Matching(Ordered(i), c.source) != [] && Matching(Ordered(i), c.destination) != []
  }

  predicate PathKnown(names: map<string, NodeId>, p: Path) {
    p.objects != [] && (forall n :: n in p.objects ==> n in names) && "clock:" + p.launch in names && "clock:" + p.capture in names
  }

  /** Everything that the builder looks up for crossings and paths is there. */
  ghost predicate Complete(i: Inputs, names: map<string, NodeId>) {
    && PathsChecked(i)
    && (forall c :: c in i.crossings ==> EndpointsMatched(i, c))
    && (forall p :: p in i.paths ==> PathKnown(names, p))
  }

  /** Two consecutive objects of the path, or the path and one of its ends, are one node. */
  predicate PathLoops(names: map<string, NodeId>, p: Path) {
    p.objects != [] &&
    (|| SameNode(names, "path:" + p.id, p.objects[0]) || SameNode(names, "path:" + p.id, p.objects[|p.objects| - 1])
     || exists k :: 0 <= k < |p.objects| - 1 && SameNode(names, p.objects[k], p.objects[k + 1]))
  }

  /** Some connection or some step of a path joins a node to itself. */
  ghost predicate Loops(i: Inputs, names: map<string, NodeId>) {
    || (exists c :: c in i.connections && SameNode(names, c.source, c.destination))
    || (exists p :: p in i.paths && PathLoops(names, p))
  }

  lemma ValidatedObject(i: Inputs, m: Mapped, loops: bool)
    requires Validated(i) && Disjoint(i) && m in i.objects
    ensures ObjectMeets(Names(i), m, loops)
  {
    ObjectNodeNamed(i, m);
    forall s | s in m.spans ensures Meets(Names(i), m.name, "source:" + s, loops) { SpanNodeNamed(i, s); }
  }

  lemma ObjectNameKind(i: Inputs, name: string)
    requires Validated(i) && Disjoint(i) && ObjectNamed(i, name)
    ensures name in Names(i)
    ensures var kind := Names(i)[name].kind; kind.REGISTER? || kind.EXPRESSION? || kind.MAPPED?
  {
    var m :| m in i.objects && m.name == name;
    ObjectNodeNamed(i, m);
  }

  lemma ValidatedConnection(i: Inputs, c: Connection, loops: bool)
    requires Validated(i) && Disjoint(i) && c in i.connections
    ensures ConnectionMeets(Names(i), c, loops) <==> loops || !SameNode(Names(i), c.source, c.destination)
  {
    ObjectNameKind(i, c.source);
    ObjectNameKind(i, c.destination);
    NetNodeNamed(i, c);
  }

  lemma ValidatedLineage(i: Inputs, l: Lineage, loops: bool)
    requires Validated(i) && Disjoint(i) && l in i.lineage
    ensures LineageMeets(Names(i), l, loops)
  {
    ClockNodesNamed(i);
    var m :| m in i.masters && m.id == l.parent;
    var g :| g in i.generated && g.id == l.child;
  }

  lemma NeighborIsObject(i: Inputs, name: string, n: string)
    requires Validated(i) && n in Neighbors(i.connections, name)
    ensures ObjectNamed(i, n)
  {
    NeighborIff(i.connections, name, n);
    var c :| c in i.connections && Joins(c, name, n);
  }

  lemma ValidatedEndpoint(i: Inputs, c: Crossing, endpoint: string, loops: bool)
    requires Validated(i) && Disjoint(i) && c in i.crossings
    ensures EndpointMeets(i, Names(i), c.id, endpoint, loops) <==> Matching(Ordered(i), endpoint) != []
  {
    CrossingNodeNamed(i, c);
    forall m, n | m in Matching(Ordered(i), endpoint) && n in Neighbors(i.connections, m.name)
      ensures Meets(Names(i), n, "cdc:" + c.id, loops)
    {
      NeighborIsObject(i, m.name, n);
      ObjectNameKind(i, n);
    }
  }

  lemma PathMeetsIff(names: map<string, NodeId>, p: Path)
    requires "path:" + p.id in names
    ensures PathMeets(names, p, true) <==> PathKnown(names, p)
    ensures PathMeets(names, p, false) <==> PathKnown(names, p) && !PathLoops(names, p)
  {
  }

  /** What is left of the conditions on validated inputs. */
  ghost predicate Reduced(i: Inputs, names: map<string, NodeId>, loops: bool) {
    && (forall m :: m in i.objects ==> ObjectMeets(names, m, loops))
    && (forall l :: l in i.lineage ==> LineageMeets(names, l, loops))
    && (forall c :: c in i.connections ==> (ConnectionMeets(names, c, loops) <==> loops || !SameNode(names, c.source, c.destination)))
    && (forall c :: c in i.crossings ==> (CrossingMeets(i, names, c, loops) <==> EndpointsMatched(i, c)))
    && (forall p :: p in i.paths ==> (PathMeets(names, p, loops) <==> PathKnown(names, p) && (loops || !PathLoops(names, p))))
  }

  lemma ReducedFits(i: Inputs, names: map<string, NodeId>, loops: bool)
    requires Reduced(i, names, loops)
    ensures PathsChecked(i) && Fits(i, names, loops) <==> Complete(i, names) && (loops || !Loops(i, names))
  {
  }

  lemma ValidatedReduces(i: Inputs, loops: bool)
    requires Validated(i) && Disjoint(i)
    ensures Reduced(i, Names(i), loops)
  {
    forall m | m in i.objects ensures ObjectMeets(Names(i), m, loops) { ValidatedObject(i, m, loops); }
    forall c | c in i.connections ensures ConnectionMeets(Names(i), c, loops) <==> loops || !SameNode(Names(i), c.source, c.destination) {
      ValidatedConnection(i, c, loops);
    }
    forall l | l in i.lineage ensures LineageMeets(Names(i), l, loops) { ValidatedLineage(i, l, loops); }
    forall c | c in i.crossings ensures CrossingMeets(i, Names(i), c, loops) <==> EndpointsMatched(i, c) {
      ValidatedEndpoint(i, c, c.source, loops);
      ValidatedEndpoint(i, c, c.destination, loops);
    }
    forall p | p in i.paths
      ensures PathMeets(Names(i), p, loops) <==> PathKnown(Names(i), p) && (loops || !PathLoops(Names(i), p))
    {
      PathNodeNamed(i, p);
      PathMeetsIff(Names(i), p);
    }
  }

  /** For inputs that pass their contracts the build succeeds exactly when the path checks
      hold, path objects and clocks are known and crossing endpoints matched, and no
      connection and no step of a path joins a node to itself; when the latter is all that is
      wrong, the build fails with the error for self-referential edges. */
  lemma ValidatedBuildSucceedsIff(i: Inputs)
    requires Validated(i) && Disjoint(i)
    ensures BuildOf(i).Ok? <==> Complete(i, Names(i)) && !Loops(i, Names(i))
    ensures Complete(i, Names(i)) && Loops(i, Names(i)) ==> BuildOf(i) == Err(SelfEdge)
  {
    BuildSucceedsIff(i);
    ValidatedReduces(i, true);
    ValidatedReduces(i, false);
    ReducedFits(i, Names(i), true);
    ReducedFits(i, Names(i), false);
  }
}
