/** What the edges of a built evidence graph mean (src/nova_rtl/evidence/graph.py): critical
    paths can be walked, violations are marked, and clock-domain crossings are protected
    together with their neighbours. */
module GraphPaths {
  import opened Prelude
  import opened Graph
  import opened GraphTheorems
  import opened GraphNames

  function Names(i: Inputs): map<string, NodeId> { NamesOf(Adds(i)) }

  lemma NamedAs(i: Inputs, a: NodeAdd)
    requires UniqueIds(i) && Disjoint(i) && a in Adds(i) && !a.content.OfModule?
    ensures a.name in Names(i) && Names(i)[a.name] == a.id
  {
    NamesMeanTheirNodes(i);
  }

  lemma PathAdded(i: Inputs, p: Path) returns (a: NodeAdd)
    requires p in i.paths
    ensures a in Adds(i) && a.content.OfPath? && a.id == PathNode(p) && a.name == "path:" + p.id
  {
    SortedMembers(i);
    a := PathAddFor(OrderedPaths(i), 0, p);
    assert a in TimingAdds(i);
  }

  lemma PathNodeNamed(i: Inputs, p: Path)
    requires UniqueIds(i) && Disjoint(i) && p in i.paths
    ensures "path:" + p.id in Names(i) && Names(i)["path:" + p.id] == PathNode(p)
  {
    var a := PathAdded(i, p);
    NamedAs(i, a);
  }

  lemma ObjectNodeNamed(i: Inputs, m: Mapped)
    requires UniqueIds(i) && Disjoint(i) && m in i.objects
    ensures m.name in Names(i) && Names(i)[m.name] == ObjectId(m, Types(i))
  {
    var a := ObjectAdded(i, m);
    NamedAs(i, a);
  }

  lemma CrossingNodeNamed(i: Inputs, c: Crossing)
    requires UniqueIds(i) && Disjoint(i) && c in i.crossings
    ensures "cdc:" + c.id in Names(i) && Names(i)["cdc:" + c.id] == CrossingNode(c)
  {
    InMapSeq(CrossingAdd, i.crossings);
    assert CrossingAdd(c) in TimingAdds(i);
    NamedAs(i, CrossingAdd(c));
  }

  // --------------------------------------------------------------------------- paths

  /** The call succeeds and its edge is there. */
  predicate Granted(names: map<string, NodeId>, edges: set<Edge>, r: Request) {
    Attempt(names, r).Ok? && Attempt(names, r).value in edges
  }

  ghost predicate AllGranted(i: Inputs, names: map<string, NodeId>, edges: set<Edge>) {
    forall r :: r in Requests(i, names) ==> Granted(names, edges, r)
  }

  lemma BuiltGraphGrantsAll(i: Inputs)
    requires BuildOf(i).Ok?
    ensures AllGranted(i, Names(i), BuildOf(i).value.edges)
  {
    EdgesAreRequested(i);
    forall r | r in Requests(i, Names(i)) ensures Granted(Names(i), BuildOf(i).value.edges, r) {
      assert Yields(Names(i), Requests(i, Names(i)), Attempt(Names(i), r).value);
    }
  }

  lemma PathRequested(i: Inputs, names: map<string, NodeId>, p: Path, r: Request)
    requires p in i.paths && r in LinksOfPath(names, p)
    ensures r in Requests(i, names)
  {
    SortedMembers(i);
    InFlatMap(PathLinks(names), OrderedPaths(i));
    assert r in PathLinks(names)(p);
  }

  lemma PathAccepted(i: Inputs, names: map<string, NodeId>, edges: set<Edge>, p: Path)
    requires AllGranted(i, names, edges) && p in i.paths
    ensures p.objects != [] && forall n :: n in p.objects ==> n in names
  {
    if (exists n :: n in p.objects && n !in names) || p.objects == [] {
      var r := LinksOfPath(names, p)[0];
      PathRequested(i, names, p, r);
    }
  }

  /** Launch edge, timing arcs and capture edge along the object sequence. */
  predicate Walkable(names: map<string, NodeId>, edges: set<Edge>, p: Path) {
    && p.objects != [] && (forall n :: n in p.objects ==> n in names)
    && Edge(LAUNCHES, PathNode(p), names[p.objects[0]], "") in edges
    && Edge(CAPTURES, PathNode(p), names[p.objects[|p.objects| - 1]], "") in edges
    && forall k :: 0 <= k < |p.objects| - 1 ==> Edge(TIMING_ARC, names[p.objects[k]], names[p.objects[k + 1]], "") in edges
  }

  lemma GrantedPathIsWalkable(names: map<string, NodeId>, edges: set<Edge>, p: Path)
    requires p.objects != [] && forall n :: n in p.objects ==> n in names
    requires "path:" + p.id in names && names["path:" + p.id] == PathNode(p)
    requires forall r :: r in PathEnds(p) + Arcs(p.objects) ==> Granted(names, edges, r)
    ensures Walkable(names, edges, p)
  {
    var ends, arcs := PathEnds(p), Arcs(p.objects);
    assert ends[0] in ends + arcs && ends[1] in ends + arcs;
    ArcsSpec(p.objects);
    forall k | 0 <= k < |p.objects| - 1
      ensures Edge(TIMING_ARC, names[p.objects[k]], names[p.objects[k + 1]], "") in edges
    {
      assert arcs[k] in ends + arcs;
    }
  }

  /** Every path of a built graph can be walked: launch edge to its first object, a timing
      arc from each object to the next, and a capture edge to its last. */
  lemma PathIsWalkable(i: Inputs, p: Path)
    requires BuildOf(i).Ok? && p in i.paths && UniqueIds(i) && Disjoint(i)
    ensures Walkable(Names(i), BuildOf(i).value.edges, p)
  {
    BuiltGraphGrantsAll(i);
    PathNodeNamed(i, p);
    AcceptedPathIsWalkable(i, Names(i), BuildOf(i).value.edges, p);
  }

  lemma AcceptedPathIsWalkable(i: Inputs, names: map<string, NodeId>, edges: set<Edge>, p: Path)
    requires AllGranted(i, names, edges) && p in i.paths
    requires "path:" + p.id in names && names["path:" + p.id] == PathNode(p)
    ensures Walkable(names, edges, p)
  {
    PathAccepted(i, names, edges, p);
    forall r | r in PathEnds(p) + Arcs(p.objects) ensures Granted(names, edges, r) { PathRequested(i, names, p, r); }
    GrantedPathIsWalkable(names, edges, p);
  }

  predicate NotPathOnly(r: Request) { r.Link? ==> !PathOnly(r.kind) }

  lemma ObjectLinksAreNotPathOnly(m: Mapped)
    ensures forall r :: r in ObjectLinks(m) ==> NotPathOnly(r)
  {
    SpanLinksNamed(Named(m.name), m.spans);
  }

  lemma CrossingLinksAreNotPathOnly(i: Inputs, c: Crossing)
    ensures forall r :: r in CrossingLinks(i)(c) ==> NotPathOnly(r)
  {
    EndpointLinksNamed(i, c.id, "source", c.source);
    EndpointLinksNamed(i, c.id, "destination", c.destination);
  }

  predicate ArcOf(r: Request, p: Path, k: nat) {
    k + 1 < |p.objects| && r == Simple(TIMING_ARC, Named(p.objects[k]), Named(p.objects[k + 1]))
  }

  lemma PathLinksArcs(names: map<string, NodeId>, p: Path, r: Request)
    requires r in LinksOfPath(names, p) && r.Link? && r.kind == TIMING_ARC
    ensures exists k :: ArcOf(r, p, k)
  {
    PathRequest(names, p, r);
    ArcsAre(p.objects);
    var k :| 0 <= k < |p.objects| - 1 && r == Simple(TIMING_ARC, Named(p.objects[k]), Named(p.objects[k + 1]));
    assert ArcOf(r, p, k);
  }

  lemma PathLinksViolation(names: map<string, NodeId>, p: Path, r: Request)
    requires r in LinksOfPath(names, p) && r.Link? && r.kind == HAS_VIOLATION
    ensures "violation:" + p.id in names && r == Simple(HAS_VIOLATION, Me(p), Named("violation:" + p.id))
  {
    PathRequest(names, p, r);
    ArcsAre(p.objects);
  }

  predicate NoPathLinks(rs: seq<Request>) { forall r :: r in rs ==> NotPathOnly(r) }

  lemma BothNoPathLinks(x: seq<Request>, y: seq<Request>)
    requires NoPathLinks(x) && NoPathLinks(y)
    ensures NoPathLinks(x + y)
  {
  }

  lemma {:induction false} FlatMapNoPathLinks<T>(f: T -> seq<Request>, xs: seq<T>)
    requires forall x :: x in xs ==> NoPathLinks(f(x))
    ensures NoPathLinks(FlatMap(f, xs))
  {
    if xs != [] { FlatMapNoPathLinks(f, xs[1..]); }
  }

  lemma ClockLinksNoPathLinks(i: Inputs)
    ensures NoPathLinks(MapSeq(LineageLink, i.lineage)) && NoPathLinks(MapSeq(MasterLink, i.masters)) && NoPathLinks(MapSeq(GeneratedLink, i.generated))
  {
    MapAt(LineageLink, i.lineage);
    MapAt(MasterLink, i.masters);
    MapAt(GeneratedLink, i.generated);
  }

  lemma ObjectsNoPathLinks(i: Inputs)
    ensures NoPathLinks(FlatMap(ObjectLinks, Ordered(i)))
  {
    forall m | m in Ordered(i) ensures NoPathLinks(ObjectLinks(m)) { ObjectLinksAreNotPathOnly(m); }
    FlatMapNoPathLinks(ObjectLinks, Ordered(i));
  }

  lemma ConnectionsNoPathLinks(i: Inputs)
    ensures NoPathLinks(FlatMap(ConnectionLinks, i.connections))
  {
    FlatMapNoPathLinks(ConnectionLinks, i.connections);
  }

  lemma ViewsNoPathLinks(i: Inputs)
    ensures NoPathLinks(FlatMap(ViewLinks(i.bindingHash), i.views))
  {
    FlatMapNoPathLinks(ViewLinks(i.bindingHash), i.views);
  }

  lemma CrossingsNoPathLinks(i: Inputs)
    ensures NoPathLinks(FlatMap(CrossingLinks(i), i.crossings))
  {
    forall x | x in i.crossings ensures NoPathLinks(CrossingLinks(i)(x)) { CrossingLinksAreNotPathOnly(i, x); }
    FlatMapNoPathLinks(CrossingLinks(i), i.crossings);
  }

  lemma SevenNoPathLinks(a: seq<Request>, b: seq<Request>, c: seq<Request>, d: seq<Request>, e: seq<Request>, f: seq<Request>, g: seq<Request>)
    requires NoPathLinks(a) && NoPathLinks(b) && NoPathLinks(c) && NoPathLinks(d) && NoPathLinks(e) && NoPathLinks(f) && NoPathLinks(g)
    ensures NoPathLinks(a + b + c + d + e + f + g)
  {
    BothNoPathLinks(a, b);
    BothNoPathLinks(a + b, c);
    BothNoPathLinks(a + b + c, d);
    BothNoPathLinks(a + b + c + d, e);
    BothNoPathLinks(a + b + c + d + e, f);
    BothNoPathLinks(a + b + c + d + e + f, g);
  }

  lemma FrontNoPathLinks(i: Inputs)
    ensures NoPathLinks(FrontRequests(i))
  {
    ObjectsNoPathLinks(i);
    ConnectionsNoPathLinks(i);
    ClockLinksNoPathLinks(i);
    ViewsNoPathLinks(i);
    CrossingsNoPathLinks(i);
    SevenNoPathLinks(FlatMap(ObjectLinks, Ordered(i)), FlatMap(ConnectionLinks, i.connections),
                     MapSeq(LineageLink, i.lineage), MapSeq(MasterLink, i.masters), MapSeq(GeneratedLink, i.generated),
                     FlatMap(ViewLinks(i.bindingHash), i.views), FlatMap(CrossingLinks(i), i.crossings));
  }

  lemma OnlyPathsRequest(i: Inputs, names: map<string, NodeId>, r: Request) returns (p: Path)
    requires r in Requests(i, names) && !NotPathOnly(r)
    ensures p in i.paths && r in LinksOfPath(names, p)
  {
    FrontNoPathLinks(i);
    SortedMembers(i);
    InFlatMap(PathLinks(names), OrderedPaths(i));
    p :| p in OrderedPaths(i) && r in PathLinks(names)(p);
  }

  /** A timing arc joins two consecutive objects of some path, and nothing else does. */
  lemma ArcsAreConsecutive(i: Inputs, e: Edge) returns (p: Path, k: nat)
    requires BuildOf(i).Ok? && e in BuildOf(i).value.edges && e.kind == TIMING_ARC
    ensures p in i.paths && k + 1 < |p.objects| && p.objects[k] in Names(i) && p.objects[k + 1] in Names(i)
    ensures e == Edge(TIMING_ARC, Names(i)[p.objects[k]], Names(i)[p.objects[k + 1]], "")
  {
    var r := RequestOf(i, e);
    KindOfAttempt(Names(i), r, e);
    p := OnlyPathsRequest(i, Names(i), r);
    PathLinksArcs(Names(i), p, r);
    k :| ArcOf(r, p, k);
    ArcEnds(Names(i), r, e, p, k);
  }

  lemma RequestOf(i: Inputs, e: Edge) returns (r: Request)
    requires BuildOf(i).Ok? && e in BuildOf(i).value.edges
    ensures r in Requests(i, Names(i)) && Attempt(Names(i), r) == Ok(e)
  {
    EdgesAreRequested(i);
    assert Yields(Names(i), Requests(i, Names(i)), e);
    r := YieldedBy(Names(i), Requests(i, Names(i)), e);
  }

  lemma YieldedBy(names: map<string, NodeId>, rs: seq<Request>, e: Edge) returns (r: Request)
    requires Yields(names, rs, e)
    ensures r in rs && Attempt(names, r) == Ok(e)
  {
    r :| r in rs && Attempt(names, r) == Ok(e);
  }

  lemma KindOfAttempt(names: map<string, NodeId>, r: Request, e: Edge)
    requires Attempt(names, r) == Ok(e)
    ensures r.Link? && r.kind == e.kind
  {
  }

  lemma ArcEnds(names: map<string, NodeId>, r: Request, e: Edge, p: Path, k: nat)
    requires Attempt(names, r) == Ok(e) && ArcOf(r, p, k)
    ensures p.objects[k] in names && p.objects[k + 1] in names
    ensures e == Edge(TIMING_ARC, names[p.objects[k]], names[p.objects[k + 1]], "")
  {
  }

  /** Two names that lead to one node, as a repeated name does. */
  predicate SameNode(names: map<string, NodeId>, a: string, b: string) {
    a == b || (a in names && b in names && names[a] == names[b])
  }

  /** A path that lists one node twice in a row, under one name or two, is refused: the arc
      between them would be self-referential. */
  lemma RepeatedObjectRefused(i: Inputs, p: Path, k: nat)
    requires p in i.paths && k + 1 < |p.objects| && SameNode(Names(i), p.objects[k], p.objects[k + 1])
    ensures BuildOf(i).Err?
  {
    if BuildOf(i).Ok? {
      BuiltGraphGrantsAll(i);
      RepeatedArcIsDenied(i, Names(i), BuildOf(i).value.edges, p, k);
    }
  }

  lemma RepeatedArcIsDenied(i: Inputs, names: map<string, NodeId>, edges: set<Edge>, p: Path, k: nat)
    requires p in i.paths && k + 1 < |p.objects| && SameNode(names, p.objects[k], p.objects[k + 1])
    ensures !AllGranted(i, names, edges)
  {
    if AllGranted(i, names, edges) {
      PathAccepted(i, names, edges, p);
      ArcsSpec(p.objects);
      var r := Arcs(p.objects)[k];
      assert r in LinksOfPath(names, p);
      PathRequested(i, names, p, r);
    }
  }

  lemma {:induction false} ViolationAdded(paths: seq<Path>, k: nat, p: Path) returns (a: NodeAdd)
    requires p in paths && p.slack < 0.0
    ensures a in PathAdds(paths, k) && a.id == ViolationNode(p) && a.name == "violation:" + p.id && a.content.OfViolation?
  {
    assert paths == [paths[0]] + paths[1..];
    if p == paths[0] { a := PathAdds(paths, k)[1]; } else { a := ViolationAdded(paths[1..], k + 1, p); }
  }

  lemma SlowPathNamed(i: Inputs, p: Path)
    requires UniqueIds(i) && Disjoint(i) && p in i.paths && p.slack < 0.0
    ensures "violation:" + p.id in Names(i) && Names(i)["violation:" + p.id] == ViolationNode(p)
  {
    SortedMembers(i);
    var a := ViolationAdded(OrderedPaths(i), 0, p);
    assert a in TimingAdds(i);
    NamedAs(i, a);
  }

  predicate ViolationObject(i: Inputs, p: Path) { exists m :: m in i.objects && m.name == "violation:" + p.id }

  lemma ViolationHolder(i: Inputs, a: NodeAdd, p: Path)
    requires UniqueIds(i) && p in i.paths && From(i, a) && a.name == "violation:" + p.id
    ensures a.content.OfObject? || p.slack < 0.0
  {
    if !a.content.OfObject? {
      FamilyOfName(i, a);
      ViolationTag(p.id);
      assert FamilyOf(a.content) == 12;
    }
  }

  lemma ViolationTag(id: string)
    ensures Family(Tag("violation:" + id)) == 12 && AfterColon("violation:" + id) == id
  {
    TagForSpec(12);
    TagOf("violation", id);
    assert "violation:" + id == "violation" + ":" + id;
  }

  /** The name of a path's violation is known if the slack is negative, or if a mapped object
      carries it. */
  lemma ViolationNameIff(i: Inputs, p: Path)
    requires UniqueIds(i) && Disjoint(i) && p in i.paths
    ensures "violation:" + p.id in Names(i) <==> p.slack < 0.0 || ViolationObject(i, p)
    ensures p.slack < 0.0 ==> Names(i)["violation:" + p.id] == ViolationNode(p)
  {
    AddsFrom(i);
    if p.slack < 0.0 {
      SlowPathNamed(i, p);
    } else if "violation:" + p.id in Names(i) {
      ViolationHolder(i, HolderOf(i, "violation:" + p.id), p);
    }
    if m :| m in i.objects && m.name == "violation:" + p.id { ObjectNodeNamed(i, m); }
  }

  predicate ViolationEdge(e: Edge, p: Path) { e.kind == HAS_VIOLATION && e.source == PathNode(p) }

  lemma ViolationEdgeOrigin(i: Inputs, e: Edge, p: Path)
    requires BuildOf(i).Ok? && UniqueIds(i) && Disjoint(i) && p in i.paths
    requires e in BuildOf(i).value.edges && ViolationEdge(e, p)
    ensures "violation:" + p.id in Names(i) && e == Edge(HAS_VIOLATION, PathNode(p), Names(i)["violation:" + p.id], "")
  {
    var r := RequestOf(i, e);
    KindOfAttempt(Names(i), r, e);
    var q := OnlyPathsRequest(i, Names(i), r);
    PathLinksViolation(Names(i), q, r);
    PathNodeNamed(i, q);
    ViolationEnds(Names(i), r, e, p, q);
  }

  lemma ViolationEnds(names: map<string, NodeId>, r: Request, e: Edge, p: Path, q: Path)
    requires Attempt(names, r) == Ok(e) && r == Simple(HAS_VIOLATION, Me(q), Named("violation:" + q.id))
    requires "path:" + q.id in names && names["path:" + q.id] == PathNode(q) && e.source == PathNode(p)
    ensures p.id == q.id && "violation:" + p.id in names
    ensures e == Edge(HAS_VIOLATION, PathNode(p), names["violation:" + p.id], "")
  {
  }

  lemma ViolationGranted(names: map<string, NodeId>, edges: set<Edge>, p: Path)
    requires "path:" + p.id in names && names["path:" + p.id] == PathNode(p)
    requires forall r :: r in PathViolation(names, p) ==> Granted(names, edges, r)
    ensures "violation:" + p.id in names ==> Edge(HAS_VIOLATION, PathNode(p), names["violation:" + p.id], "") in edges
  {
    if "violation:" + p.id in names {
      assert Simple(HAS_VIOLATION, Me(p), Named("violation:" + p.id)) in PathViolation(names, p);
    }
  }

  lemma AcceptedViolation(i: Inputs, names: map<string, NodeId>, edges: set<Edge>, p: Path)
    requires AllGranted(i, names, edges) && p in i.paths
    requires "path:" + p.id in names && names["path:" + p.id] == PathNode(p)
    ensures "violation:" + p.id in names ==> Edge(HAS_VIOLATION, PathNode(p), names["violation:" + p.id], "") in edges
  {
    PathAccepted(i, names, edges, p);
    forall r | r in PathViolation(names, p) ensures Granted(names, edges, r) { PathRequested(i, names, p, r); }
    ViolationGranted(names, edges, p);
  }

  /** The violation edges of a path are exactly the one to what its violation's name leads to. */
  lemma ViolationEdgesOf(i: Inputs, p: Path)
    requires BuildOf(i).Ok? && p in i.paths && UniqueIds(i) && Disjoint(i)
    ensures forall e :: e in BuildOf(i).value.edges && ViolationEdge(e, p) <==>
              "violation:" + p.id in Names(i) && e == Edge(HAS_VIOLATION, PathNode(p), Names(i)["violation:" + p.id], "")
  {
    PathNodeNamed(i, p);
    BuiltGraphGrantsAll(i);
    AcceptedViolation(i, Names(i), BuildOf(i).value.edges, p);
    forall e | e in BuildOf(i).value.edges && ViolationEdge(e, p)
      ensures "violation:" + p.id in Names(i) && e == Edge(HAS_VIOLATION, PathNode(p), Names(i)["violation:" + p.id], "")
    {
      ViolationEdgeOrigin(i, e, p);
    }
  }

  /** A path with negative slack has one violation edge, to its violation node; another path
      has one exactly when a mapped object is named like its violation. */
  lemma ViolationsAreMarked(i: Inputs, p: Path)
    requires BuildOf(i).Ok? && p in i.paths && UniqueIds(i) && Disjoint(i)
    ensures p.slack < 0.0 ==>
            forall e :: e in BuildOf(i).value.edges && ViolationEdge(e, p) <==> e == Edge(HAS_VIOLATION, PathNode(p), ViolationNode(p), "")
    ensures p.slack >= 0.0 ==>
            ((exists e :: e in BuildOf(i).value.edges && ViolationEdge(e, p)) <==> ViolationObject(i, p))
  {
    ViolationNameIff(i, p);
    ViolationEdgesOf(i, p);
    MarkedEdges(Names(i), BuildOf(i).value.edges, p);
  }

  lemma MarkedEdges(names: map<string, NodeId>, edges: set<Edge>, p: Path)
    requires forall e :: e in edges && ViolationEdge(e, p) <==>
               "violation:" + p.id in names && e == Edge(HAS_VIOLATION, PathNode(p), names["violation:" + p.id], "")
    ensures (exists e :: e in edges && ViolationEdge(e, p)) <==> "violation:" + p.id in names
  {
    if "violation:" + p.id in names {
      var e := Edge(HAS_VIOLATION, PathNode(p), names["violation:" + p.id], "");
      assert e in edges && ViolationEdge(e, p);
    }
  }

  // ------------------------------------------------------------------------- crossings

  function EndpointOf(c: Crossing, role: string): string { if role == "source" then c.source else c.destination }

  predicate IsRole(role: string) { role == "source" || role == "destination" }

  lemma CrossingRequested(i: Inputs, names: map<string, NodeId>, c: Crossing, role: string, r: Request)
    requires c in i.crossings && IsRole(role) && r in EndpointLinks(i, c.id, role, EndpointOf(c, role))
    ensures r in Requests(i, names)
  {
    InFlatMap(CrossingLinks(i), i.crossings);
    assert r in CrossingLinks(i)(c);
  }

  lemma MatchedRequested(i: Inputs, c: Crossing, role: string, m: Mapped, r: Request)
    requires m in Matching(Ordered(i), EndpointOf(c, role)) && r in MatchedLinks(i.connections, c.id, role)(m)
    ensures r in EndpointLinks(i, c.id, role, EndpointOf(c, role))
  {
    InFlatMap(MatchedLinks(i.connections, c.id, role), Matching(Ordered(i), EndpointOf(c, role)));
  }

  lemma MatchingAreObjects(i: Inputs, endpoint: string)
    ensures forall m :: m in Matching(Ordered(i), endpoint) ==> m in i.objects
  {
    SortedMembers(i);
    InFilter(DirectMatch(endpoint), Ordered(i));
    InFilter(LeafMatch(endpoint), Ordered(i));
  }

  /** The object crosses into this protected structure, together with its neighbours. */
  predicate Protected(names: map<string, NodeId>, edges: set<Edge>, m: Mapped, node: NodeId, c: Crossing, role: string, near: set<string>) {
    && Edge(CROSSES_DOMAIN, node, CrossingNode(c), role) in edges
    && Edge(PROTECTED_BY, node, CrossingNode(c), "") in edges
    && forall n :: n in near ==> n in names && Edge(NEAR_PROTECTED_BOUNDARY, names[n], CrossingNode(c), role) in edges
  }

  lemma GrantedObjectIsProtected(names: map<string, NodeId>, edges: set<Edge>, m: Mapped, node: NodeId, c: Crossing, role: string,
                                 near: set<string>)
    requires m.name in names && names[m.name] == node
    requires "cdc:" + c.id in names && names["cdc:" + c.id] == CrossingNode(c)
    requires Granted(names, edges, Link(CROSSES_DOMAIN, Named(m.name), Named("cdc:" + c.id), role))
    requires Granted(names, edges, Simple(PROTECTED_BY, Named(m.name), Named("cdc:" + c.id)))
    requires forall n :: n in near ==> Granted(names, edges, NearLink(c.id, role)(n))
    ensures Protected(names, edges, m, node, c, role, near)
  {
    forall n | n in near ensures n in names && Edge(NEAR_PROTECTED_BOUNDARY, names[n], CrossingNode(c), role) in edges {
      assert Granted(names, edges, NearLink(c.id, role)(n));
    }
  }

  lemma ObjectProtected(i: Inputs, edges: set<Edge>, c: Crossing, role: string, m: Mapped)
    requires AllGranted(i, Names(i), edges) && c in i.crossings && IsRole(role) && UniqueIds(i) && Disjoint(i)
    requires m in i.objects && m in Matching(Ordered(i), EndpointOf(c, role))
    ensures Protected(Names(i), edges, m, ObjectId(m, Types(i)), c, role, Neighbors(i.connections, m.name))
  {
    CrossingNodeNamed(i, c);
    ObjectNodeNamed(i, m);
    AcceptedObjectIsProtected(i, Names(i), edges, c, role, m, ObjectId(m, Types(i)));
  }

  lemma AcceptedObjectIsProtected(i: Inputs, names: map<string, NodeId>, edges: set<Edge>, c: Crossing, role: string,
                                  m: Mapped, node: NodeId)
    requires AllGranted(i, names, edges) && c in i.crossings && IsRole(role) && m in Matching(Ordered(i), EndpointOf(c, role))
    requires m.name in names && names[m.name] == node
    requires "cdc:" + c.id in names && names["cdc:" + c.id] == CrossingNode(c)
    ensures Protected(names, edges, m, node, c, role, Neighbors(i.connections, m.name))
  {
    var near := Neighbors(i.connections, m.name);
    MatchedHead(i.connections, c, role, m);
    MatchedEdge(i, names, edges, c, role, m, Link(CROSSES_DOMAIN, Named(m.name), Named("cdc:" + c.id), role));
    MatchedEdge(i, names, edges, c, role, m, Simple(PROTECTED_BY, Named(m.name), Named("cdc:" + c.id)));
    forall n | n in near ensures Granted(names, edges, NearLink(c.id, role)(n)) {
      NearRequested(i, c, role, m, n);
      MatchedEdge(i, names, edges, c, role, m, NearLink(c.id, role)(n));
    }
    GrantedObjectIsProtected(names, edges, m, node, c, role, near);
  }

  lemma MatchedHead(connections: seq<Connection>, c: Crossing, role: string, m: Mapped)
    ensures var links := MatchedLinks(connections, c.id, role)(m);
            && Link(CROSSES_DOMAIN, Named(m.name), Named("cdc:" + c.id), role) in links
            && Simple(PROTECTED_BY, Named(m.name), Named("cdc:" + c.id)) in links
  {
  }

  /** Both endpoints of every crossing are resolved, and every object an endpoint stands for
      crosses into the protected structure together with all its connectivity neighbours. */
  lemma CrossingIsProtected(i: Inputs, c: Crossing, role: string)
    requires BuildOf(i).Ok? && c in i.crossings && IsRole(role) && UniqueIds(i) && Disjoint(i)
    ensures Matching(Ordered(i), EndpointOf(c, role)) != []
    ensures forall m :: m in Matching(Ordered(i), EndpointOf(c, role)) ==>
              Protected(Names(i), BuildOf(i).value.edges, m, ObjectId(m, Types(i)), c, role, Neighbors(i.connections, m.name))
  {
    BuiltGraphGrantsAll(i);
    EndpointResolved(i, Names(i), BuildOf(i).value.edges, c, role);
    MatchingAreObjects(i, EndpointOf(c, role));
    forall m | m in Matching(Ordered(i), EndpointOf(c, role))
      ensures Protected(Names(i), BuildOf(i).value.edges, m, ObjectId(m, Types(i)), c, role, Neighbors(i.connections, m.name))
    {
      ObjectProtected(i, BuildOf(i).value.edges, c, role, m);
    }
  }

  lemma EndpointResolved(i: Inputs, names: map<string, NodeId>, edges: set<Edge>, c: Crossing, role: string)
    requires AllGranted(i, names, edges) && c in i.crossings && IsRole(role)
    ensures Matching(Ordered(i), EndpointOf(c, role)) != []
  {
    if Matching(Ordered(i), EndpointOf(c, role)) == [] {
      CrossingRequested(i, names, c, role, Reject(UnresolvedEndpoint));
    }
  }

  lemma NearRequested(i: Inputs, c: Crossing, role: string, m: Mapped, n: string)
    requires n in Neighbors(i.connections, m.name)
    ensures NearLink(c.id, role)(n) in MatchedLinks(i.connections, c.id, role)(m)
  {
    SortedOfSpec(Neighbors(i.connections, m.name));
    InMapSeq(NearLink(c.id, role), SortedOf(Neighbors(i.connections, m.name)));
    assert n in SetOf(SortedOf(Neighbors(i.connections, m.name)));
  }

  lemma MatchedEdge(i: Inputs, names: map<string, NodeId>, edges: set<Edge>, c: Crossing, role: string, m: Mapped, r: Request)
    requires AllGranted(i, names, edges) && c in i.crossings && IsRole(role)
    requires m in Matching(Ordered(i), EndpointOf(c, role)) && r in MatchedLinks(i.connections, c.id, role)(m)
    ensures Granted(names, edges, r)
  {
    MatchedRequested(i, c, role, m, r);
    CrossingRequested(i, names, c, role, r);
  }
}
