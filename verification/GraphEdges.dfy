/** Which nodes and edges a built evidence graph has (src/nova_rtl/evidence/graph.py), record by
    record and in both directions: every edge of the document is one that some record calls
    for, with its kind, its direction and its role, and every one called for is there; and the
    names that these edges are looked up by lead to the nodes of their records. */
module GraphEdges {
  import opened Prelude
  import opened Text
  import opened Graph
  import opened GraphTheorems
  import opened GraphNames
  import opened GraphPaths

  // ------------------------------------------------------------------ edges of one record

  predicate Leads(names: map<string, NodeId>, name: string, node: NodeId) { name in names && names[name] == node }

  predicate Joined(names: map<string, NodeId>, a: string, b: string, e: Edge) { Leads(names, a, e.source) && Leads(names, b, e.target) }

  /** A module contains its objects, and an object maps to its source spans. */
  ghost predicate ObjectEdge(names: map<string, NodeId>, m: Mapped, e: Edge) {
    e.role == "" &&
    ((e.kind == CONTAINS && e.source == NodeId(MODULE, Hashed("module", [m.moduleType, m.owner])) && Leads(names, m.name, e.target))
     || (e.kind == MAPS_TO && exists s :: s in m.spans && Joined(names, m.name, "source:" + s, e)))
  }

  /** The source drives the net, the net drives the destination, and the destination depends
      on the source. */
  predicate ConnectionEdge(names: map<string, NodeId>, c: Connection, e: Edge) {
    e.role == "" &&
    ((e.kind == CONNECTS && Joined(names, c.source, "net:" + c.net, e))
     || (e.kind == CONNECTS && Joined(names, "net:" + c.net, c.destination, e))
     || (e.kind == DATA_DEPENDENCY && Joined(names, c.source, c.destination, e)))
  }

  /** The child clock is generated from the parent clock. */
  predicate LineageEdge(names: map<string, NodeId>, l: Lineage, e: Edge) {
    e.role == "" && e.kind == GENERATED_FROM && Joined(names, "clock:" + l.child, "clock:" + l.parent, e)
  }

  /** A clock domain contains its clocks. */
  predicate DomainEdge(names: map<string, NodeId>, domain: string, clock: string, e: Edge) {
    e.role == "" && e.kind == CONTAINS && e.source == NodeId(CLOCK_DOMAIN, Plain(domain)) && Leads(names, "clock:" + clock, e.target)
  }

  /** A view resolves the constraint binding, and its region is near it. */
  predicate ViewEdge(names: map<string, NodeId>, bindingHash: string, v: View, e: Edge) {
    e.role == "" && Leads(names, "view:" + v.id, e.source) &&
    ((e.kind == RESOLVES_CONSTRAINT && e.target == NodeId(CONSTRAINT_BINDING, Hashed("constraint_binding", [bindingHash])))
     || (e.kind == PHYSICALLY_NEAR && Leads(names, "physical:" + v.id, e.target)))
  }

  /** An object that an endpoint stands for crosses in the endpoint's role and is protected;
      the objects connected to it are near the boundary, in the same role. */
  ghost predicate MatchedEdgeFor(names: map<string, NodeId>, connections: seq<Connection>, c: Crossing, role: string, m: Mapped, e: Edge) {
    Leads(names, "cdc:" + c.id, e.target) &&
    ((e.kind == CROSSES_DOMAIN && e.role == role && Leads(names, m.name, e.source))
     || (e.kind == PROTECTED_BY && e.role == "" && Leads(names, m.name, e.source))
     || (e.kind == NEAR_PROTECTED_BOUNDARY && e.role == role && exists n :: Linked(connections, m.name, n) && Leads(names, n, e.source)))
  }

  ghost predicate CrossingEdge(i: Inputs, names: map<string, NodeId>, c: Crossing, e: Edge) {
    || (exists m :: m in Matching(Ordered(i), c.source) && MatchedEdgeFor(names, i.connections, c, "source", m, e))
    || (exists m :: m in Matching(Ordered(i), c.destination) && MatchedEdgeFor(names, i.connections, c, "destination", m, e))
  }

  /** The object sequence of a path: launched at its first object, an arc from each object to
      the next, captured at its last. */
  ghost predicate SequenceEdge(names: map<string, NodeId>, p: Path, e: Edge) {
    e.role == "" && p.objects != [] &&
    ((e.kind == LAUNCHES && Joined(names, "path:" + p.id, p.objects[0], e))
     || (e.kind == CAPTURES && Joined(names, "path:" + p.id, p.objects[|p.objects| - 1], e))
     || (e.kind == TIMING_ARC && exists k :: 0 <= k < |p.objects| - 1 && Joined(names, p.objects[k], p.objects[k + 1], e)))
  }

  /** What else a path is tied to: its two clocks by role, its view, its group, its violation
      if that name is known, and its source spans. */
  ghost predicate TieEdge(names: map<string, NodeId>, p: Path, e: Edge) {
    Leads(names, "path:" + p.id, e.source) &&
    ((e.kind == CLOCKED_BY && e.role == "launch" && Leads(names, "clock:" + p.launch, e.target))
     || (e.kind == CLOCKED_BY && e.role == "capture" && Leads(names, "clock:" + p.capture, e.target))
     || (e.kind == IN_ANALYSIS_VIEW && e.role == "" && Leads(names, "view:" + p.view, e.target))
     || (e.kind == MEMBER_OF_PATH_GROUP && e.role == "" && e.target == NodeId(PATH_GROUP, Hashed("path_group", [p.group])))
     || (e.kind == HAS_VIOLATION && e.role == "" && Leads(names, "violation:" + p.id, e.target))
     || (e.kind == MAPS_TO && e.role == "" && exists s :: s in p.spans && Leads(names, "source:" + s, e.target)))
  }

  /** Some record of the inputs calls for the edge. */
  ghost predicate CalledFor(i: Inputs, names: map<string, NodeId>, e: Edge) {
    || (exists m :: m in i.objects && ObjectEdge(names, m, e))
    || (exists c :: c in i.connections && ConnectionEdge(names, c, e))
    || (exists l :: l in i.lineage && LineageEdge(names, l, e))
    || (exists m :: m in i.masters && DomainEdge(names, m.domain, m.id, e))
    || (exists g :: g in i.generated && DomainEdge(names, g.domain, g.id, e))
    || (exists v :: v in i.views && ViewEdge(names, i.bindingHash, v, e))
    || (exists c :: c in i.crossings && CrossingEdge(i, names, c, e))
    || (exists p :: p in i.paths && (SequenceEdge(names, p, e) || TieEdge(names, p, e)))
  }

  // ------------------------------------------------------------- what one request asks for

  predicate Asks(names: map<string, NodeId>, r: Request, e: Edge) {
    r.Link? && r.kind == e.kind && r.role == e.role && Find(names, r.source) == Some(e.source) && Find(names, r.target) == Some(e.target)
  }

  ghost predicate Asked(names: map<string, NodeId>, rs: seq<Request>, e: Edge) { exists r :: r in rs && Asks(names, r, e) }

  lemma AskedBoth(names: map<string, NodeId>, x: seq<Request>, y: seq<Request>, e: Edge)
    ensures Asked(names, x + y, e) <==> Asked(names, x, e) || Asked(names, y, e)
  {
    assert forall r :: r in x + y <==> r in x || r in y;
  }

  lemma AskedOne(names: map<string, NodeId>, r: Request, e: Edge)
    ensures Asked(names, [r], e) <==> Asks(names, r, e)
  {
    assert r in [r];
  }

  lemma SpansAsked(names: map<string, NodeId>, me: string, spans: seq<string>, e: Edge)
    ensures Asked(names, MapSeq(SpanLink(Named(me)), spans), e) <==>
            e.kind == MAPS_TO && e.role == "" && exists s :: s in spans && Joined(names, me, "source:" + s, e)
  {
    var f := SpanLink(Named(me));
    InMapSeq(f, spans);
    if Asked(names, MapSeq(f, spans), e) {
      var r :| r in MapSeq(f, spans) && Asks(names, r, e);
      var s :| s in spans && f(s) == r;
      assert Joined(names, me, "source:" + s, e);
    }
    if e.kind == MAPS_TO && e.role == "" && exists s :: s in spans && Joined(names, me, "source:" + s, e) {
      var s :| s in spans && Joined(names, me, "source:" + s, e);
      assert f(s) in MapSeq(f, spans) && Asks(names, f(s), e);
    }
  }

  lemma ObjectAsked(names: map<string, NodeId>, m: Mapped, e: Edge)
    ensures Asked(names, ObjectLinks(m), e) <==> ObjectEdge(names, m, e)
  {
    var first := Simple(CONTAINS, Known(ModuleId(m.owner, m.moduleType)), Named(m.name));
    AskedBoth(names, [first], MapSeq(SpanLink(Named(m.name)), m.spans), e);
    AskedOne(names, first, e);
    SpansAsked(names, m.name, m.spans, e);
  }

  lemma ConnectionAsked(names: map<string, NodeId>, c: Connection, e: Edge)
    ensures Asked(names, ConnectionLinks(c), e) <==> ConnectionEdge(names, c, e)
  {
    var links := ConnectionLinks(c);
    assert links == [links[0]] + [links[1]] + [links[2]];
    AskedBoth(names, [links[0]] + [links[1]], [links[2]], e);
    AskedBoth(names, [links[0]], [links[1]], e);
    AskedOne(names, links[0], e);
    AskedOne(names, links[1], e);
    AskedOne(names, links[2], e);
  }

  lemma ClockAsked(names: map<string, NodeId>, l: Lineage, m: Master, g: Generated, e: Edge)
    ensures Asks(names, LineageLink(l), e) <==> LineageEdge(names, l, e)
    ensures Asks(names, MasterLink(m), e) <==> DomainEdge(names, m.domain, m.id, e)
    ensures Asks(names, GeneratedLink(g), e) <==> DomainEdge(names, g.domain, g.id, e)
  {
  }

  lemma ViewAsked(names: map<string, NodeId>, bindingHash: string, v: View, e: Edge)
    ensures Asked(names, ViewLinks(bindingHash)(v), e) <==> ViewEdge(names, bindingHash, v, e)
  {
    var links := ViewLinks(bindingHash)(v);
    assert links == [links[0]] + [links[1]];
    AskedBoth(names, [links[0]], [links[1]], e);
    AskedOne(names, links[0], e);
    AskedOne(names, links[1], e);
  }

  lemma NearAsked(names: map<string, NodeId>, connections: seq<Connection>, crossing: string, role: string, name: string, e: Edge)
    ensures Asked(names, MapSeq(NearLink(crossing, role), SortedOf(Neighbors(connections, name))), e) <==>
            e.kind == NEAR_PROTECTED_BOUNDARY && e.role == role
            && exists n :: Linked(connections, name, n) && Joined(names, n, "cdc:" + crossing, e)
  {
    var f, near := NearLink(crossing, role), SortedOf(Neighbors(connections, name));
    InMapSeq(f, near);
    SortedOfSpec(Neighbors(connections, name));
    forall n ensures n in near <==> Linked(connections, name, n) {
      NeighborIff(connections, name, n);
      assert n in near <==> n in SetOf(near);
    }
    if Asked(names, MapSeq(f, near), e) {
      var r :| r in MapSeq(f, near) && Asks(names, r, e);
      var n :| n in near && f(n) == r;
      assert Joined(names, n, "cdc:" + crossing, e);
    }
    if e.kind == NEAR_PROTECTED_BOUNDARY && e.role == role && exists n :: Linked(connections, name, n) && Joined(names, n, "cdc:" + crossing, e) {
      var n :| Linked(connections, name, n) && Joined(names, n, "cdc:" + crossing, e);
      assert f(n) in MapSeq(f, near) && Asks(names, f(n), e);
    }
  }

  lemma MatchedAsked(names: map<string, NodeId>, connections: seq<Connection>, c: Crossing, role: string, m: Mapped, e: Edge)
    ensures Asked(names, MatchedLinks(connections, c.id, role)(m), e) <==> MatchedEdgeFor(names, connections, c, role, m, e)
  {
    var crosses := Link(CROSSES_DOMAIN, Named(m.name), Named("cdc:" + c.id), role);
    var protects := Simple(PROTECTED_BY, Named(m.name), Named("cdc:" + c.id));
    assert [crosses, protects] == [crosses] + [protects];
    AskedBoth(names, [crosses, protects], MapSeq(NearLink(c.id, role), SortedOf(Neighbors(connections, m.name))), e);
    AskedBoth(names, [crosses], [protects], e);
    AskedOne(names, crosses, e);
    AskedOne(names, protects, e);
    NearAsked(names, connections, c.id, role, m.name, e);
  }

  lemma EndpointAsked(i: Inputs, names: map<string, NodeId>, c: Crossing, role: string, endpoint: string, e: Edge)
    ensures Asked(names, EndpointLinks(i, c.id, role, endpoint), e) <==>
            exists m :: m in Matching(Ordered(i), endpoint) && MatchedEdgeFor(names, i.connections, c, role, m, e)
  {
    var matching, f := Matching(Ordered(i), endpoint), MatchedLinks(i.connections, c.id, role);
    InFlatMap(f, matching);
    forall m ensures Asked(names, f(m), e) <==> MatchedEdgeFor(names, i.connections, c, role, m, e) {
      MatchedAsked(names, i.connections, c, role, m, e);
    }
    FlatAsked(names, f, matching, e);
  }

  lemma FlatAsked<T(!new)>(names: map<string, NodeId>, f: T -> seq<Request>, xs: seq<T>, e: Edge)
    ensures Asked(names, FlatMap(f, xs), e) <==> exists x :: x in xs && Asked(names, f(x), e)
  {
    InFlatMap(f, xs);
  }

  lemma CrossingAsked(i: Inputs, names: map<string, NodeId>, c: Crossing, e: Edge)
    ensures Asked(names, CrossingLinks(i)(c), e) <==> CrossingEdge(i, names, c, e)
  {
    EndpointAsked(i, names, c, "source", c.source, e);
    EndpointAsked(i, names, c, "destination", c.destination, e);
    AskedBoth(names, EndpointLinks(i, c.id, "source", c.source), EndpointLinks(i, c.id, "destination", c.destination), e);
  }

  lemma ArcsAsked(names: map<string, NodeId>, objects: seq<string>, e: Edge)
    ensures Asked(names, Arcs(objects), e) <==>
            e.kind == TIMING_ARC && e.role == "" && exists k :: 0 <= k < |objects| - 1 && Joined(names, objects[k], objects[k + 1], e)
  {
    ArcsSpec(objects);
    var arcs := Arcs(objects);
    forall k | 0 <= k < |arcs|
      ensures Asks(names, arcs[k], e) <==> e.kind == TIMING_ARC && e.role == "" && Joined(names, objects[k], objects[k + 1], e)
    {
    }
    if Asked(names, arcs, e) {
      var r :| r in arcs && Asks(names, r, e);
      var k :| 0 <= k < |arcs| && arcs[k] == r;
      assert Joined(names, objects[k], objects[k + 1], e);
    }
    if e.kind == TIMING_ARC && e.role == "" && exists k :: 0 <= k < |objects| - 1 && Joined(names, objects[k], objects[k + 1], e) {
      var k :| 0 <= k < |objects| - 1 && Joined(names, objects[k], objects[k + 1], e);
      assert arcs[k] in arcs && Asks(names, arcs[k], e);
    }
  }

  lemma SequenceAsked(names: map<string, NodeId>, p: Path, e: Edge)
    requires p.objects != []
    ensures Asked(names, PathEnds(p) + Arcs(p.objects), e) <==> SequenceEdge(names, p, e)
  {
    var ends := PathEnds(p);
    assert ends == [ends[0]] + [ends[1]];
    AskedBoth(names, ends, Arcs(p.objects), e);
    AskedBoth(names, [ends[0]], [ends[1]], e);
    AskedOne(names, ends[0], e);
    AskedOne(names, ends[1], e);
    ArcsAsked(names, p.objects, e);
  }

  /** The four ties that every path has. */
  predicate RoleEdge(names: map<string, NodeId>, p: Path, e: Edge) {
    Leads(names, "path:" + p.id, e.source) &&
    ((e.kind == CLOCKED_BY && e.role == "launch" && Leads(names, "clock:" + p.launch, e.target))
     || (e.kind == CLOCKED_BY && e.role == "capture" && Leads(names, "clock:" + p.capture, e.target))
     || (e.kind == IN_ANALYSIS_VIEW && e.role == "" && Leads(names, "view:" + p.view, e.target))
     || (e.kind == MEMBER_OF_PATH_GROUP && e.role == "" && e.target == NodeId(PATH_GROUP, Hashed("path_group", [p.group]))))
  }

  lemma RolesAsked(names: map<string, NodeId>, p: Path, e: Edge)
    ensures Asked(names, PathRoles(p), e) <==> RoleEdge(names, p, e)
  {
    var roles := PathRoles(p);
    assert roles == ([roles[0]] + [roles[1]]) + ([roles[2]] + [roles[3]]);
    AskedBoth(names, [roles[0]] + [roles[1]], [roles[2]] + [roles[3]], e);
    AskedBoth(names, [roles[0]], [roles[1]], e);
    AskedBoth(names, [roles[2]], [roles[3]], e);
    AskedOne(names, roles[0], e);
    AskedOne(names, roles[1], e);
    AskedOne(names, roles[2], e);
    AskedOne(names, roles[3], e);
  }

  lemma ViolationAsked(names: map<string, NodeId>, p: Path, e: Edge)
    ensures Asked(names, PathViolation(names, p), e) <==>
            e.kind == HAS_VIOLATION && e.role == "" && Joined(names, "path:" + p.id, "violation:" + p.id, e)
  {
    if "violation:" + p.id in names { AskedOne(names, Simple(HAS_VIOLATION, Me(p), Named("violation:" + p.id)), e); }
  }

  lemma TieParts(names: map<string, NodeId>, p: Path, e: Edge)
    ensures TieEdge(names, p, e) <==>
            || RoleEdge(names, p, e)
            || (e.kind == HAS_VIOLATION && e.role == "" && Joined(names, "path:" + p.id, "violation:" + p.id, e))
            || (e.kind == MAPS_TO && e.role == "" && exists s :: s in p.spans && Joined(names, "path:" + p.id, "source:" + s, e))
  {
    forall s ensures Joined(names, "path:" + p.id, "source:" + s, e) <==> Leads(names, "path:" + p.id, e.source) && Leads(names, "source:" + s, e.target) {}
  }

  lemma PathAsked(names: map<string, NodeId>, p: Path, e: Edge)
    requires p.objects != [] && forall n :: n in p.objects ==> n in names
    ensures Asked(names, LinksOfPath(names, p), e) <==> SequenceEdge(names, p, e) || TieEdge(names, p, e)
  {
    var sequence, roles, violation := PathEnds(p) + Arcs(p.objects), PathRoles(p), PathViolation(names, p);
    var spans := MapSeq(SpanLink(Me(p)), p.spans);
    assert LinksOfPath(names, p) == sequence + roles + violation + spans;
    AskedBoth(names, sequence + roles + violation, spans, e);
    AskedBoth(names, sequence + roles, violation, e);
    AskedBoth(names, sequence, roles, e);
    SequenceAsked(names, p, e);
    RolesAsked(names, p, e);
    ViolationAsked(names, p, e);
    SpansAsked(names, "path:" + p.id, p.spans, e);
    TieParts(names, p, e);
  }

  // ----------------------------------------------------------------------- all requests

  lemma MapAsked<T(!new)>(names: map<string, NodeId>, f: T -> Request, xs: seq<T>, e: Edge)
    ensures Asked(names, MapSeq(f, xs), e) <==> exists x :: x in xs && Asks(names, f(x), e)
  {
    InMapSeq(f, xs);
  }

  lemma StructureAsked(i: Inputs, names: map<string, NodeId>, e: Edge)
    ensures Asked(names, FlatMap(ObjectLinks, Ordered(i)), e) <==> exists m :: m in i.objects && ObjectEdge(names, m, e)
    ensures Asked(names, FlatMap(ConnectionLinks, i.connections), e) <==> exists c :: c in i.connections && ConnectionEdge(names, c, e)
  {
    SortedMembers(i);
    FlatAsked(names, ObjectLinks, Ordered(i), e);
    FlatAsked(names, ConnectionLinks, i.connections, e);
    forall m ensures Asked(names, ObjectLinks(m), e) <==> ObjectEdge(names, m, e) { ObjectAsked(names, m, e); }
    forall c ensures Asked(names, ConnectionLinks(c), e) <==> ConnectionEdge(names, c, e) { ConnectionAsked(names, c, e); }
  }

  lemma ClocksAsked(i: Inputs, names: map<string, NodeId>, e: Edge)
    ensures Asked(names, MapSeq(LineageLink, i.lineage), e) <==> exists l :: l in i.lineage && LineageEdge(names, l, e)
    ensures Asked(names, MapSeq(MasterLink, i.masters), e) <==> exists m :: m in i.masters && DomainEdge(names, m.domain, m.id, e)
    ensures Asked(names, MapSeq(GeneratedLink, i.generated), e) <==> exists g :: g in i.generated && DomainEdge(names, g.domain, g.id, e)
  {
    MapAsked(names, LineageLink, i.lineage, e);
    MapAsked(names, MasterLink, i.masters, e);
    MapAsked(names, GeneratedLink, i.generated, e);
    forall l, m, g ensures (Asks(names, LineageLink(l), e) <==> LineageEdge(names, l, e))
                           && (Asks(names, MasterLink(m), e) <==> DomainEdge(names, m.domain, m.id, e))
                           && (Asks(names, GeneratedLink(g), e) <==> DomainEdge(names, g.domain, g.id, e))
    {
      ClockAsked(names, l, m, g, e);
    }
  }

  lemma ViewsAsked(i: Inputs, names: map<string, NodeId>, e: Edge)
    ensures Asked(names, FlatMap(ViewLinks(i.bindingHash), i.views), e) <==> exists v :: v in i.views && ViewEdge(names, i.bindingHash, v, e)
  {
    FlatAsked(names, ViewLinks(i.bindingHash), i.views, e);
    forall v ensures Asked(names, ViewLinks(i.bindingHash)(v), e) <==> ViewEdge(names, i.bindingHash, v, e) {
      ViewAsked(names, i.bindingHash, v, e);
    }
  }

  lemma CrossingsAsked(i: Inputs, names: map<string, NodeId>, e: Edge)
    ensures Asked(names, FlatMap(CrossingLinks(i), i.crossings), e) <==> exists c :: c in i.crossings && CrossingEdge(i, names, c, e)
  {
    FlatAsked(names, CrossingLinks(i), i.crossings, e);
    forall c ensures Asked(names, CrossingLinks(i)(c), e) <==> CrossingEdge(i, names, c, e) { CrossingAsked(i, names, c, e); }
  }

  lemma PathsAsked(i: Inputs, names: map<string, NodeId>, e: Edge)
    requires forall p :: p in i.paths ==> p.objects != [] && forall n :: n in p.objects ==> n in names
    ensures Asked(names, FlatMap(PathLinks(names), OrderedPaths(i)), e) <==>
            exists p :: p in i.paths && (SequenceEdge(names, p, e) || TieEdge(names, p, e))
  {
    SortedMembers(i);
    FlatAsked(names, PathLinks(names), OrderedPaths(i), e);
    forall p | p in i.paths ensures Asked(names, PathLinks(names)(p), e) <==> SequenceEdge(names, p, e) || TieEdge(names, p, e) {
      PathAsked(names, p, e);
    }
  }

  lemma SevenAsked(names: map<string, NodeId>, a: seq<Request>, b: seq<Request>, c: seq<Request>, d: seq<Request>,
                   f: seq<Request>, g: seq<Request>, h: seq<Request>, e: Edge)
    ensures Asked(names, a + b + c + d + f + g + h, e) <==>
            || Asked(names, a, e) || Asked(names, b, e) || Asked(names, c, e) || Asked(names, d, e)
            || Asked(names, f, e) || Asked(names, g, e) || Asked(names, h, e)
  {
    AskedBoth(names, a, b, e);
    AskedBoth(names, a + b, c, e);
    AskedBoth(names, a + b + c, d, e);
    AskedBoth(names, a + b + c + d, f, e);
    AskedBoth(names, a + b + c + d + f, g, e);
    AskedBoth(names, a + b + c + d + f + g, h, e);
  }

  lemma RequestsAsk(i: Inputs, names: map<string, NodeId>, e: Edge)
    requires forall p :: p in i.paths ==> p.objects != [] && forall n :: n in p.objects ==> n in names
    ensures Asked(names, Requests(i, names), e) <==> CalledFor(i, names, e)
  {
    StructureAsked(i, names, e);
    ClocksAsked(i, names, e);
    ViewsAsked(i, names, e);
    CrossingsAsked(i, names, e);
    PathsAsked(i, names, e);
    SevenAsked(names, FlatMap(ObjectLinks, Ordered(i)), FlatMap(ConnectionLinks, i.connections),
               MapSeq(LineageLink, i.lineage), MapSeq(MasterLink, i.masters), MapSeq(GeneratedLink, i.generated),
               FlatMap(ViewLinks(i.bindingHash), i.views), FlatMap(CrossingLinks(i), i.crossings), e);
    AskedBoth(names, FrontRequests(i), FlatMap(PathLinks(names), OrderedPaths(i)), e);
  }

  lemma AsksIsYields(names: map<string, NodeId>, rs: seq<Request>, e: Edge)
    requires forall r :: r in rs ==> Attempt(names, r).Ok?
    ensures Asked(names, rs, e) <==> Yields(names, rs, e)
  {
    forall r | r in rs ensures Asks(names, r, e) <==> Attempt(names, r) == Ok(e) {}
  }

  /** The edges of a built graph are exactly those that some record calls for. */
  lemma EdgesAreCalledFor(i: Inputs)
    requires BuildOf(i).Ok?
    ensures forall e :: e in BuildOf(i).value.edges <==> CalledFor(i, Names(i), e)
  {
    EdgesAreRequested(i);
    BuiltGraphGrantsAll(i);
    forall p | p in i.paths ensures p.objects != [] && forall n :: n in p.objects ==> n in Names(i) {
      PathAccepted(i, Names(i), BuildOf(i).value.edges, p);
    }
    forall e ensures e in BuildOf(i).value.edges <==> CalledFor(i, Names(i), e) {
      RequestsAsk(i, Names(i), e);
      AsksIsYields(Names(i), Requests(i, Names(i)), e);
    }
  }

  // ------------------------------------------------------------------ what the names mean

  lemma SpanNamed(i: Inputs, s: Span)
    requires UniqueIds(i) && Disjoint(i) && s in i.spans
    ensures Leads(Names(i), "source:" + s.id, NodeId(SOURCE_SPAN, Plain(s.id)))
  {
    SortedMembers(i);
    SpanAddsFrom(i, SortBy(i.spans, SpanLe), 0);
    var a :| a in SpanAdds(SortBy(i.spans, SpanLe), 0) && a.content.OfSpan? && a.content.span == s;
    assert a in StructureAdds(i);
    assert From(i, a);
    NamedAs(i, a);
  }

  lemma NetNamed(i: Inputs, c: Connection)
    requires UniqueIds(i) && Disjoint(i) && c in i.connections
    ensures Leads(Names(i), "net:" + c.net, NodeId(NET, Plain(c.net)))
  {
    assert c.net in Nets(i);
    MappedNameAdded(NetAdd(i.connections), Nets(i), c.net);
    assert NetAdd(i.connections)(c.net) in StructureAdds(i);
    NamedAs(i, NetAdd(i.connections)(c.net));
  }

  lemma ViewNamed(i: Inputs, v: View)
    requires UniqueIds(i) && Disjoint(i) && v in i.views
    ensures Leads(Names(i), "view:" + v.id, NodeId(ANALYSIS_VIEW, Plain(v.id)))
    ensures Leads(Names(i), "physical:" + v.id, NodeId(PHYSICAL_REGION, Hashed("physical_region", [v.id, v.physicalHash])))
  {
    InFlatMap(ViewAdds, i.views);
    var adds := ViewAdds(v);
    assert adds[0] in adds && adds[1] in adds;
    assert adds[0] in StructureAdds(i) && adds[1] in StructureAdds(i);
    NamedAs(i, adds[0]);
    NamedAs(i, adds[1]);
  }

  lemma MasterNamed(i: Inputs, m: Master)
    requires UniqueIds(i) && Disjoint(i) && m in i.masters
    ensures Leads(Names(i), "clock:" + m.id, NodeId(CLOCK, Plain(m.id)))
  {
    InMapSeq(MasterAdd, i.masters);
    assert MasterAdd(m) in ClockAdds(i);
    NamedAs(i, MasterAdd(m));
  }

  lemma GeneratedNamed(i: Inputs, g: Generated)
    requires UniqueIds(i) && Disjoint(i) && g in i.generated
    ensures Leads(Names(i), "clock:" + g.id, NodeId(GENERATED_CLOCK, Plain(g.id)))
  {
    InMapSeq(GeneratedAdd, i.generated);
    assert GeneratedAdd(g) in ClockAdds(i);
    NamedAs(i, GeneratedAdd(g));
  }

  /** The node of the clock with this ID: of the master or the generated clock, or of an
      object that is named like it if there is no such clock. */
  ghost predicate ClockNode(i: Inputs, id: string, node: NodeId) {
    || (node == NodeId(CLOCK, Plain(id)) && exists m :: m in i.masters && m.id == id)
    || (node == NodeId(GENERATED_CLOCK, Plain(id)) && exists g :: g in i.generated && g.id == id)
    || (exists m :: m in i.objects && m.name == "clock:" + id && node == ObjectId(m, Types(i)))
  }

  lemma ClockHolder(i: Inputs, a: NodeAdd, id: string)
    requires From(i, a) && a.name == "clock:" + id
    ensures ClockNode(i, id, a.id)
  {
    if !a.content.OfObject? {
      ClockFamily(i, a, id);
      if a.content.OfMaster? { assert a.content.master in i.masters; } else { assert a.content.generated in i.generated; }
    } else {
      assert a.content.mapped in i.objects;
    }
  }

  lemma ClockFamily(i: Inputs, a: NodeAdd, id: string)
    requires From(i, a) && a.name == "clock:" + id && !a.content.OfObject?
    ensures FamilyOf(a.content) == 8 && KeyOf(a.content) == id
  {
    FamilyOfName(i, a);
    ClockTag(id);
  }

  lemma ClockTag(id: string)
    ensures Family(Tag("clock:" + id)) == 8 && AfterColon("clock:" + id) == id
  {
    TagForSpec(8);
    TagOf("clock", id);
    assert "clock:" + id == "clock" + ":" + id;
  }

  lemma ClockNameLeads(i: Inputs, id: string, node: NodeId)
    requires UniqueIds(i) && Disjoint(i)
    ensures Leads(Names(i), "clock:" + id, node) <==> ClockNode(i, id, node)
  {
    AddsFrom(i);
    if Leads(Names(i), "clock:" + id, node) { ClockHolder(i, HolderOf(i, "clock:" + id), id); }
    if ClockNode(i, id, node) { ClockNodeNamed(i, id, node); }
  }

  lemma ClockNodeNamed(i: Inputs, id: string, node: NodeId)
    requires UniqueIds(i) && Disjoint(i) && ClockNode(i, id, node)
    ensures Leads(Names(i), "clock:" + id, node)
  {
    if node == NodeId(CLOCK, Plain(id)) && exists m :: m in i.masters && m.id == id {
      var m :| m in i.masters && m.id == id;
      MasterNamed(i, m);
    } else if node == NodeId(GENERATED_CLOCK, Plain(id)) && exists g :: g in i.generated && g.id == id {
      var g :| g in i.generated && g.id == id;
      GeneratedNamed(i, g);
    } else {
      var m :| m in i.objects && m.name == "clock:" + id && node == ObjectId(m, Types(i));
      ObjectNodeNamed(i, m);
    }
  }

  // -------------------------------------------------------------------- kind by kind

  lemma {:induction false} SpanIsKnown(i: Inputs, paths: seq<Path>, p: Path, s: string)
    requires PathProblem(i, paths).None? && p in paths && s in p.spans
    ensures HasSpan(i, s)
  {
    assert paths == [paths[0]] + paths[1..];
    if p != paths[0] { SpanIsKnown(i, paths[1..], p, s); }
  }

  lemma {:induction false} ViewIsKnown(i: Inputs, paths: seq<Path>, p: Path)
    requires PathProblem(i, paths).None? && p in paths
    ensures HasView(i, p.view)
  {
    assert paths == [paths[0]] + paths[1..];
    if p != paths[0] { ViewIsKnown(i, paths[1..], p); }
  }

  // The identities of these records' nodes, written out.
  function PathNodeOf(p: Path): NodeId { NodeId(TIMING_PATH, Plain(p.id)) }
  function SpanId(s: string): NodeId { NodeId(SOURCE_SPAN, Plain(s)) }
  function NetId(net: string): NodeId { NodeId(NET, Plain(net)) }
  function ViewNode(id: string): NodeId { NodeId(ANALYSIS_VIEW, Plain(id)) }
  function RegionOf(v: View): NodeId { NodeId(PHYSICAL_REGION, Hashed("physical_region", [v.id, v.physicalHash])) }

  /** The names of these records lead to their nodes. */
  ghost predicate Resolved(i: Inputs, names: map<string, NodeId>) {
    && (forall m :: m in i.objects ==> Leads(names, m.name, ObjectId(m, Types(i))))
    && (forall c :: c in i.connections ==> Leads(names, "net:" + c.net, NetId(c.net)))
    && (forall v :: v in i.views ==> Leads(names, "view:" + v.id, ViewNode(v.id)) && Leads(names, "physical:" + v.id, RegionOf(v)))
    && (forall m :: m in i.masters ==> Leads(names, "clock:" + m.id, NodeId(CLOCK, Plain(m.id))))
    && (forall g :: g in i.generated ==> Leads(names, "clock:" + g.id, NodeId(GENERATED_CLOCK, Plain(g.id))))
    && (forall p :: p in i.paths ==> Leads(names, "path:" + p.id, PathNodeOf(p)) && Leads(names, "view:" + p.view, ViewNode(p.view)))
    && (forall p, s :: p in i.paths && s in p.spans ==> Leads(names, "source:" + s, SpanId(s)))
    && (forall id, node :: Leads(names, "clock:" + id, node) <==> ClockNode(i, id, node))
  }

  lemma PathResolved(i: Inputs, p: Path)
    requires BuildOf(i).Ok? && UniqueIds(i) && Disjoint(i) && p in i.paths
    ensures Leads(Names(i), "path:" + p.id, PathNodeOf(p)) && Leads(Names(i), "view:" + p.view, ViewNode(p.view))
    ensures forall s :: s in p.spans ==> Leads(Names(i), "source:" + s, SpanId(s))
  {
    PathNodeNamed(i, p);
    ViewIsKnown(i, i.paths, p);
    var v :| v in i.views && v.id == p.view;
    ViewNamed(i, v);
    forall s | s in p.spans ensures Leads(Names(i), "source:" + s, SpanId(s)) {
      SpanIsKnown(i, i.paths, p, s);
      var span :| span in i.spans && span.id == s;
      SpanNamed(i, span);
    }
  }

  /** In a built graph with unique IDs and disjoint names all of them do. */
  lemma BuiltIsResolved(i: Inputs)
    requires BuildOf(i).Ok? && UniqueIds(i) && Disjoint(i)
    ensures Resolved(i, Names(i))
  {
    forall m | m in i.objects ensures Leads(Names(i), m.name, ObjectId(m, Types(i))) { ObjectNodeNamed(i, m); }
    forall c | c in i.connections ensures Leads(Names(i), "net:" + c.net, NetId(c.net)) { NetNamed(i, c); }
    forall v | v in i.views ensures Leads(Names(i), "view:" + v.id, ViewNode(v.id)) && Leads(Names(i), "physical:" + v.id, RegionOf(v)) {
      ViewNamed(i, v);
    }
    forall m | m in i.masters ensures Leads(Names(i), "clock:" + m.id, NodeId(CLOCK, Plain(m.id))) { MasterNamed(i, m); }
    forall g | g in i.generated ensures Leads(Names(i), "clock:" + g.id, NodeId(GENERATED_CLOCK, Plain(g.id))) { GeneratedNamed(i, g); }
    forall p | p in i.paths
      ensures Leads(Names(i), "path:" + p.id, PathNodeOf(p)) && Leads(Names(i), "view:" + p.view, ViewNode(p.view))
              && forall s :: s in p.spans ==> Leads(Names(i), "source:" + s, SpanId(s))
    {
      PathResolved(i, p);
    }
    forall id, node ensures Leads(Names(i), "clock:" + id, node) <==> ClockNode(i, id, node) { ClockNameLeads(i, id, node); }
  }

  /** Which records can call for an edge of this kind. */
  lemma RecordsOfKind(i: Inputs, names: map<string, NodeId>, e: Edge)
    ensures e.kind == CONTAINS ==>
              (CalledFor(i, names, e) <==> || (exists m :: m in i.objects && ObjectEdge(names, m, e))
                                           || (exists m :: m in i.masters && DomainEdge(names, m.domain, m.id, e))
                                           || (exists g :: g in i.generated && DomainEdge(names, g.domain, g.id, e)))
    ensures e.kind == MAPS_TO ==>
              (CalledFor(i, names, e) <==> || (exists m :: m in i.objects && ObjectEdge(names, m, e))
                                           || (exists p :: p in i.paths && TieEdge(names, p, e)))
    ensures e.kind == CONNECTS || e.kind == DATA_DEPENDENCY ==>
              (CalledFor(i, names, e) <==> exists c :: c in i.connections && ConnectionEdge(names, c, e))
    ensures e.kind == GENERATED_FROM ==>
              (CalledFor(i, names, e) <==> exists l :: l in i.lineage && LineageEdge(names, l, e))
    ensures e.kind == CLOCKED_BY || e.kind == IN_ANALYSIS_VIEW || e.kind == MEMBER_OF_PATH_GROUP ==>
              (CalledFor(i, names, e) <==> exists p :: p in i.paths && TieEdge(names, p, e))
    ensures e.kind == RESOLVES_CONSTRAINT || e.kind == PHYSICALLY_NEAR ==>
              (CalledFor(i, names, e) <==> exists v :: v in i.views && ViewEdge(names, i.bindingHash, v, e))
  {
  }

  // The edge is one of its kind that this record gives.

  predicate InModule(i: Inputs, m: Mapped, e: Edge) {
    e.source == NodeId(MODULE, Hashed("module", [m.moduleType, m.owner])) && e.target == ObjectId(m, Types(i))
  }

  predicate InDomain(domain: string, clock: NodeId, e: Edge) {
    e.source == NodeId(CLOCK_DOMAIN, Plain(domain)) && e.target == clock
  }

  ghost predicate ObjectMaps(i: Inputs, names: map<string, NodeId>, m: Mapped, e: Edge) {
    e.source == ObjectId(m, Types(i)) && exists s :: s in m.spans && Leads(names, "source:" + s, e.target)
  }

  ghost predicate PathMaps(p: Path, e: Edge) {
    e.source == PathNodeOf(p) && exists s :: s in p.spans && e.target == SpanId(s)
  }

  predicate OverNet(names: map<string, NodeId>, c: Connection, e: Edge) {
    || (Leads(names, c.source, e.source) && e.target == NetId(c.net))
    || (e.source == NetId(c.net) && Leads(names, c.destination, e.target))
  }

  ghost predicate FromParent(i: Inputs, l: Lineage, e: Edge) { ClockNode(i, l.child, e.source) && ClockNode(i, l.parent, e.target) }

  ghost predicate ByClock(i: Inputs, p: Path, e: Edge) {
    e.source == PathNodeOf(p) &&
    ((e.role == "launch" && ClockNode(i, p.launch, e.target)) || (e.role == "capture" && ClockNode(i, p.capture, e.target)))
  }

  predicate InView(p: Path, e: Edge) { e.source == PathNodeOf(p) && e.target == ViewNode(p.view) }

  predicate InGroup(p: Path, e: Edge) { e.source == PathNodeOf(p) && e.target == NodeId(PATH_GROUP, Hashed("path_group", [p.group])) }

  predicate Resolves(bindingHash: string, v: View, e: Edge) {
    e.source == ViewNode(v.id) && e.target == NodeId(CONSTRAINT_BINDING, Hashed("constraint_binding", [bindingHash]))
  }

  predicate NearRegion(v: View, e: Edge) { e.source == ViewNode(v.id) && e.target == RegionOf(v) }

  /** The edges of these kinds, on nodes. CONTAINS: module to object, domain to clock.
      MAPS_TO: object or path to span. CONNECTS: source to net, net to destination.
      DATA_DEPENDENCY: source to destination. GENERATED_FROM: child clock to parent clock.
      CLOCKED_BY: path to its launch and capture clock, in that role. IN_ANALYSIS_VIEW and
      MEMBER_OF_PATH_GROUP: path to view and group. RESOLVES_CONSTRAINT: view to the
      constraint binding. PHYSICALLY_NEAR: view to its region. */
  ghost predicate GivenByRecord(i: Inputs, names: map<string, NodeId>, e: Edge) {
    match e.kind
    case CONTAINS =>
      e.role == "" && ((exists m :: m in i.objects && InModule(i, m, e))
                       || (exists m :: m in i.masters && InDomain(m.domain, NodeId(CLOCK, Plain(m.id)), e))
                       || (exists g :: g in i.generated && InDomain(g.domain, NodeId(GENERATED_CLOCK, Plain(g.id)), e)))
    case MAPS_TO =>
      e.role == "" && ((exists m :: m in i.objects && ObjectMaps(i, names, m, e)) || (exists p :: p in i.paths && PathMaps(p, e)))
    case CONNECTS => e.role == "" && exists c :: c in i.connections && OverNet(names, c, e)
    case DATA_DEPENDENCY => e.role == "" && exists c :: c in i.connections && Joined(names, c.source, c.destination, e)
    case GENERATED_FROM => e.role == "" && exists l :: l in i.lineage && FromParent(i, l, e)
    case CLOCKED_BY => exists p :: p in i.paths && ByClock(i, p, e)
    case IN_ANALYSIS_VIEW => e.role == "" && exists p :: p in i.paths && InView(p, e)
    case MEMBER_OF_PATH_GROUP => e.role == "" && exists p :: p in i.paths && InGroup(p, e)
    case RESOLVES_CONSTRAINT => e.role == "" && exists v :: v in i.views && Resolves(i.bindingHash, v, e)
    case PHYSICALLY_NEAR => e.role == "" && exists v :: v in i.views && NearRegion(v, e)
    case _ => CalledFor(i, names, e)
  }

  lemma StructureGiven(i: Inputs, names: map<string, NodeId>, e: Edge)
    requires Resolved(i, names) && (e.kind == CONTAINS || e.kind == CONNECTS || e.kind == DATA_DEPENDENCY)
    ensures CalledFor(i, names, e) <==> GivenByRecord(i, names, e)
  {
    RecordsOfKind(i, names, e);
    forall m | m in i.objects && e.kind == CONTAINS ensures ObjectEdge(names, m, e) <==> e.role == "" && InModule(i, m, e) {}
    forall c | c in i.connections ensures e.kind == CONNECTS ==> (ConnectionEdge(names, c, e) <==> e.role == "" && OverNet(names, c, e)) {}
  }

  lemma MapsGiven(i: Inputs, names: map<string, NodeId>, e: Edge)
    requires Resolved(i, names) && e.kind == MAPS_TO
    ensures CalledFor(i, names, e) <==> GivenByRecord(i, names, e)
  {
    RecordsOfKind(i, names, e);
    forall m | m in i.objects ensures ObjectEdge(names, m, e) <==> e.role == "" && ObjectMaps(i, names, m, e) {
      forall s ensures Joined(names, m.name, "source:" + s, e) <==> e.source == ObjectId(m, Types(i)) && Leads(names, "source:" + s, e.target) {}
    }
    forall p | p in i.paths ensures TieEdge(names, p, e) <==> e.role == "" && PathMaps(p, e) {}
  }

  lemma TiesGiven(i: Inputs, names: map<string, NodeId>, e: Edge)
    requires Resolved(i, names) && (e.kind == CLOCKED_BY || e.kind == IN_ANALYSIS_VIEW || e.kind == MEMBER_OF_PATH_GROUP)
    ensures CalledFor(i, names, e) <==> GivenByRecord(i, names, e)
  {
    RecordsOfKind(i, names, e);
    forall p | p in i.paths
      ensures e.kind == CLOCKED_BY ==> (TieEdge(names, p, e) <==> ByClock(i, p, e))
      ensures e.kind == IN_ANALYSIS_VIEW ==> (TieEdge(names, p, e) <==> e.role == "" && InView(p, e))
      ensures e.kind == MEMBER_OF_PATH_GROUP ==> (TieEdge(names, p, e) <==> e.role == "" && InGroup(p, e))
    {
    }
  }

  lemma ClocksAndViewsGiven(i: Inputs, names: map<string, NodeId>, e: Edge)
    requires Resolved(i, names) && (e.kind == GENERATED_FROM || e.kind == RESOLVES_CONSTRAINT || e.kind == PHYSICALLY_NEAR)
    ensures CalledFor(i, names, e) <==> GivenByRecord(i, names, e)
  {
    RecordsOfKind(i, names, e);
    forall l | l in i.lineage ensures e.kind == GENERATED_FROM ==> (LineageEdge(names, l, e) <==> e.role == "" && FromParent(i, l, e)) {}
    forall v | v in i.views
      ensures e.kind == RESOLVES_CONSTRAINT ==> (ViewEdge(names, i.bindingHash, v, e) <==> e.role == "" && Resolves(i.bindingHash, v, e))
      ensures e.kind == PHYSICALLY_NEAR ==> (ViewEdge(names, i.bindingHash, v, e) <==> e.role == "" && NearRegion(v, e))
    {
    }
  }

  lemma Given(i: Inputs, names: map<string, NodeId>, e: Edge)
    requires Resolved(i, names)
    ensures CalledFor(i, names, e) <==> GivenByRecord(i, names, e)
  {
    match e.kind
    case CONTAINS => StructureGiven(i, names, e);
    case CONNECTS => StructureGiven(i, names, e);
    case DATA_DEPENDENCY => StructureGiven(i, names, e);
    case MAPS_TO => MapsGiven(i, names, e);
    case CLOCKED_BY => TiesGiven(i, names, e);
    case IN_ANALYSIS_VIEW => TiesGiven(i, names, e);
    case MEMBER_OF_PATH_GROUP => TiesGiven(i, names, e);
    case GENERATED_FROM => ClocksAndViewsGiven(i, names, e);
    case RESOLVES_CONSTRAINT => ClocksAndViewsGiven(i, names, e);
    case PHYSICALLY_NEAR => ClocksAndViewsGiven(i, names, e);
    case _ =>
  }

  /** Kind by kind and node by node, the edges of a built graph are exactly those that its
      records give. */
  lemma EdgesByKind(i: Inputs)
    requires BuildOf(i).Ok? && UniqueIds(i) && Disjoint(i)
    ensures forall e :: e in BuildOf(i).value.edges <==> GivenByRecord(i, Names(i), e)
  {
    EdgesAreCalledFor(i);
    BuiltIsResolved(i);
    forall e ensures CalledFor(i, Names(i), e) <==> GivenByRecord(i, Names(i), e) { Given(i, Names(i), e); }
  }
}
