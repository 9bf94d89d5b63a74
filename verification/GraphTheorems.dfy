/** What every evidence graph that the builder returns satisfies (src/nova_rtl/evidence/graph.py):
    its edges are exactly those that some call of `add_edge` asks for, and no edge dangles,
    because each end that a request looks up is a node which `add_node` was called for. */
module GraphTheorems {
  import opened Prelude
  import opened Graph

  // ------------------------------------------------------------------- edges, declaratively

  ghost predicate Yields(names: map<string, NodeId>, rs: seq<Request>, e: Edge) {
    exists r :: r in rs && Attempt(names, r) == Ok(e)
  }

  lemma {:induction false} ProcessSpec(names: map<string, NodeId>, rs: seq<Request>, edges: set<Edge>)
    ensures Process(names, rs, edges).Ok? <==> forall r :: r in rs ==> Attempt(names, r).Ok?
    ensures Process(names, rs, edges).Ok? ==>
              forall e :: e in Process(names, rs, edges).value <==> e in edges || Yields(names, rs, e)
    decreases rs
  {
    if rs != [] {
      var first := Attempt(names, rs[0]);
      assert rs == [rs[0]] + rs[1..];
      if first.Ok? {
        ProcessSpec(names, rs[1..], edges + {first.value});
        forall e ensures Yields(names, rs, e) <==> e == first.value || Yields(names, rs[1..], e) {
          if Yields(names, rs, e) {
            var r :| r in rs && Attempt(names, r) == Ok(e);
            if r != rs[0] { assert r in rs[1..]; }
          }
          if Yields(names, rs[1..], e) {
            var r :| r in rs[1..] && Attempt(names, r) == Ok(e);
            assert r in rs;
          }
          if e == first.value { assert rs[0] in rs; }
        }
      }
    }
  }

  /** An edge is in the document exactly when some request asks for it. */
  lemma EdgesAreRequested(i: Inputs)
    requires BuildOf(i).Ok?
    ensures forall e :: e in BuildOf(i).value.edges <==> Yields(NamesOf(Adds(i)), Requests(i, NamesOf(Adds(i))), e)
    ensures forall r :: r in Requests(i, NamesOf(Adds(i))) ==> Attempt(NamesOf(Adds(i)), r).Ok?
  {
    ProcessSpec(NamesOf(Adds(i)), Requests(i, NamesOf(Adds(i))), {});
  }

  // ---------------------------------------------------------------------- no dangling edge

  lemma NamesPointToNodes(adds: seq<NodeAdd>)
    ensures forall n :: n in NamesOf(adds) ==> NamesOf(adds)[n] in NodesOf(adds)
    ensures forall a :: a in adds ==> a.id in NodesOf(adds) && a.name in NamesOf(adds)
  {
    ByIdHolds(AddName, adds);
    ByIdHolds(AddId, adds);
    NamesAreLast(adds);
    NodesAreLast(adds);
    forall a | a in adds ensures a.id in NodesOf(adds) && a.name in NamesOf(adds) {
      assert AddId(a) in ById(AddId, adds) && AddName(a) in ById(AddName, adds);
    }
    forall n | n in NamesOf(adds) ensures NamesOf(adds)[n] in NodesOf(adds) {
      assert ById(AddName, adds)[n] in adds;
    }
  }

  predicate HasNode(adds: seq<NodeAdd>, id: NodeId) { exists a :: a in adds && a.id == id }

  lemma {:induction false} ModuleAdded(objects: seq<Mapped>, met: set<(string, string)>, m: Mapped)
    requires m in objects && (m.owner, m.moduleType) !in met
    ensures HasNode(ModuleAdds(objects, met), ModuleId(m.owner, m.moduleType))
  {
    var key := (objects[0].owner, objects[0].moduleType);
    assert objects == [objects[0]] + objects[1..];
    if (m.owner, m.moduleType) == key {
      assert ModuleAdds(objects, met)[0].id == ModuleId(m.owner, m.moduleType);
    } else {
      var met' := if key in met then met else met + {key};
      ModuleAdded(objects[1..], met', m);
      var a :| a in ModuleAdds(objects[1..], met') && a.id == ModuleId(m.owner, m.moduleType);
      assert a in ModuleAdds(objects, met);
    }
  }

  lemma SortedMembers(i: Inputs)
    ensures forall m :: m in Ordered(i) <==> m in i.objects
    ensures forall p :: p in OrderedPaths(i) <==> p in i.paths
    ensures forall s :: s in SortBy(i.spans, SpanLe) <==> s in i.spans
  {
    StrLePreorder();
    assert Preorder(MappedLe) && Preorder(PathLe) && Preorder(SpanLe);
    SortByCorrect(i.objects, MappedLe);
    SortByCorrect(i.paths, PathLe);
    SortByCorrect(i.spans, SpanLe);
    SameElements(Ordered(i), i.objects);
    SameElements(OrderedPaths(i), i.paths);
    SameElements(SortBy(i.spans, SpanLe), i.spans);
  }

  lemma MappedNameAdded(f: string -> NodeAdd, names: set<string>, name: string)
    requires name in names
    ensures f(name) in MapSeq(f, SortedOf(names))
  {
    SortedOfSpec(names);
    InMapSeq(f, SortedOf(names));
    assert name in SetOf(SortedOf(names));
  }

  lemma AddedNode(adds: seq<NodeAdd>, a: NodeAdd)
    requires a in adds
    ensures HasNode(adds, a.id)
  {
  }

  /** The nodes that links name directly are all added. */
  lemma DirectNodes(i: Inputs)
    ensures forall m :: m in i.objects ==> HasNode(Adds(i), ModuleId(m.owner, m.moduleType))
    ensures HasNode(Adds(i), ConstraintId(i.bindingHash))
    ensures forall d :: d in Domains(i) ==> HasNode(Adds(i), DomainNode(d))
    ensures forall g :: g in Groups(i) ==> HasNode(Adds(i), GroupNode(g))
  {
    SortedMembers(i);
    forall m | m in i.objects ensures HasNode(Adds(i), ModuleId(m.owner, m.moduleType)) {
      ModuleAdded(Ordered(i), {}, m);
      var a :| a in ModuleAdds(Ordered(i), {}) && a.id == ModuleId(m.owner, m.moduleType);
      assert a in StructureAdds(i);
      AddedNode(Adds(i), a);
    }
    var constraint := NodeAdd(ConstraintId(i.bindingHash), "constraint:resolved_binding", OfConstraint(i.bindingHash));
    assert constraint in StructureAdds(i);
    AddedNode(Adds(i), constraint);
    forall d | d in Domains(i) ensures HasNode(Adds(i), DomainNode(d)) {
      MappedNameAdded(DomainAdd, Domains(i), d);
      assert DomainAdd(d) in ClockAdds(i);
      AddedNode(Adds(i), DomainAdd(d));
    }
    forall g | g in Groups(i) ensures HasNode(Adds(i), GroupNode(g)) {
      MappedNameAdded(GroupAdd, Groups(i), g);
      assert GroupAdd(g) in TimingAdds(i);
      AddedNode(Adds(i), GroupAdd(g));
    }
  }

  predicate EndKnown(adds: seq<NodeAdd>, e: End) { e.Known? ==> HasNode(adds, e.id) }

  predicate EndsKnown(adds: seq<NodeAdd>, r: Request) { r.Link? ==> EndKnown(adds, r.source) && EndKnown(adds, r.target) }

  lemma SpanLinksNamed(me: End, spans: seq<string>)
    ensures forall r :: r in MapSeq(SpanLink(me), spans) ==> exists s :: s in spans && r == Simple(MAPS_TO, me, Named("source:" + s))
  {
    InMapSeq(SpanLink(me), spans);
  }

  lemma ObjectLinksKnown(i: Inputs, m: Mapped)
    requires m in i.objects
    ensures forall r :: r in ObjectLinks(m) ==> EndsKnown(Adds(i), r)
  {
    DirectNodes(i);
    SpanLinksNamed(Named(m.name), m.spans);
  }

  lemma {:induction false} ArcsSpec(objects: seq<string>)
    ensures |Arcs(objects)| == if objects == [] then 0 else |objects| - 1
    ensures forall k :: 0 <= k < |objects| - 1 ==> Arcs(objects)[k] == Simple(TIMING_ARC, Named(objects[k]), Named(objects[k + 1]))
  {
    if |objects| >= 2 { ArcsSpec(objects[1..]); }
  }

  lemma ArcsAre(objects: seq<string>)
    ensures forall r :: r in Arcs(objects) <==>
              exists k :: 0 <= k < |objects| - 1 && r == Simple(TIMING_ARC, Named(objects[k]), Named(objects[k + 1]))
  {
    ArcsSpec(objects);
    forall r ensures r in Arcs(objects) <==>
                       exists k :: 0 <= k < |objects| - 1 && r == Simple(TIMING_ARC, Named(objects[k]), Named(objects[k + 1]))
    {
      if r in Arcs(objects) {
        var k :| 0 <= k < |Arcs(objects)| && Arcs(objects)[k] == r;
        assert 0 <= k < |objects| - 1;
      }
      if k :| 0 <= k < |objects| - 1 && r == Simple(TIMING_ARC, Named(objects[k]), Named(objects[k + 1])) {
        assert Arcs(objects)[k] == r;
      }
    }
  }

  lemma PathRequest(names: map<string, NodeId>, p: Path, r: Request)
    requires r in LinksOfPath(names, p)
    ensures || r.Reject?
            || (p.objects != [] && r in PathEnds(p)) || r in Arcs(p.objects) || r in PathRoles(p) || r in PathViolation(names, p)
            || (exists s :: s in p.spans && r == Simple(MAPS_TO, Me(p), Named("source:" + s)))
  {
    SpanLinksNamed(Me(p), p.spans);
  }

  lemma PathLinksKnown(i: Inputs, names: map<string, NodeId>, p: Path, r: Request)
    requires p in i.paths && r in LinksOfPath(names, p)
    ensures EndsKnown(Adds(i), r)
  {
    GroupAdded(i, p);
    ArcsAre(p.objects);
    PathRequest(names, p, r);
  }

  lemma GroupAdded(i: Inputs, p: Path)
    requires p in i.paths
    ensures HasNode(Adds(i), GroupNode(p.group))
  {
    DirectNodes(i);
    assert p.group in Groups(i);
  }

  /** The kinds of edge that only timing paths ask for. */
  predicate PathOnly(kind: EdgeKind) { kind == TIMING_ARC || kind == HAS_VIOLATION }

  lemma MatchedLinksNamed(connections: seq<Connection>, crossing: string, role: string, m: Mapped)
    ensures forall r :: r in MatchedLinks(connections, crossing, role)(m) ==>
              r.Link? && r.source.Named? && r.target.Named? && !PathOnly(r.kind)
  {
    InMapSeq(NearLink(crossing, role), SortedOf(Neighbors(connections, m.name)));
  }

  lemma EndpointLinksNamed(i: Inputs, crossing: string, role: string, endpoint: string)
    ensures forall r :: r in EndpointLinks(i, crossing, role, endpoint) ==>
              r == Reject(UnresolvedEndpoint) || (r.Link? && r.source.Named? && r.target.Named? && !PathOnly(r.kind))
  {
    var f := MatchedLinks(i.connections, crossing, role);
    var matching := Matching(Ordered(i), endpoint);
    InFlatMap(f, matching);
    forall m | m in matching
      ensures forall r :: r in f(m) ==> r.Link? && r.source.Named? && r.target.Named? && !PathOnly(r.kind)
    {
      MatchedLinksNamed(i.connections, crossing, role, m);
    }
  }

  lemma FrontRequestFrom(i: Inputs, r: Request)
    requires r in FrontRequests(i)
    ensures || (exists m :: m in i.objects && r in ObjectLinks(m))
            || (exists c :: c in i.connections && r in ConnectionLinks(c))
            || (exists l :: l in i.lineage && r == LineageLink(l))
            || (exists m :: m in i.masters && r == MasterLink(m))
            || (exists g :: g in i.generated && r == GeneratedLink(g))
            || (exists v :: v in i.views && r in ViewLinks(i.bindingHash)(v))
            || (exists c :: c in i.crossings && r in CrossingLinks(i)(c))
  {
    SortedMembers(i);
    InFlatMap(ObjectLinks, Ordered(i));
    InFlatMap(ConnectionLinks, i.connections);
    InMapSeq(LineageLink, i.lineage);
    InMapSeq(MasterLink, i.masters);
    InMapSeq(GeneratedLink, i.generated);
    InFlatMap(ViewLinks(i.bindingHash), i.views);
    InFlatMap(CrossingLinks(i), i.crossings);
  }

  /** The sections of the request list. */
  lemma RequestFrom(i: Inputs, names: map<string, NodeId>, r: Request)
    requires r in Requests(i, names)
    ensures || (exists m :: m in i.objects && r in ObjectLinks(m))
            || (exists c :: c in i.connections && r in ConnectionLinks(c))
            || (exists l :: l in i.lineage && r == LineageLink(l))
            || (exists m :: m in i.masters && r == MasterLink(m))
            || (exists g :: g in i.generated && r == GeneratedLink(g))
            || (exists v :: v in i.views && r in ViewLinks(i.bindingHash)(v))
            || (exists c :: c in i.crossings && r in CrossingLinks(i)(c))
            || (exists p :: p in i.paths && r in PathLinks(names)(p))
  {
    if r in FrontRequests(i) {
      FrontRequestFrom(i, r);
    } else {
      SortedMembers(i);
      InFlatMap(PathLinks(names), OrderedPaths(i));
    }
  }

  lemma CrossingLinksKnown(i: Inputs, c: Crossing, r: Request)
    requires r in CrossingLinks(i)(c)
    ensures EndsKnown(Adds(i), r)
  {
    EndpointLinksNamed(i, c.id, "source", c.source);
    EndpointLinksNamed(i, c.id, "destination", c.destination);
  }

  lemma ClockLinksKnown(i: Inputs, r: Request)
    requires (exists m :: m in i.masters && r == MasterLink(m)) || (exists g :: g in i.generated && r == GeneratedLink(g))
    ensures EndsKnown(Adds(i), r)
  {
    DirectNodes(i);
    if m :| m in i.masters && r == MasterLink(m) {
      assert m.domain in Domains(i);
    } else {
      var g :| g in i.generated && r == GeneratedLink(g);
      assert g.domain in Domains(i);
    }
  }

  lemma ViewLinksKnown(i: Inputs, v: View, r: Request)
    requires r in ViewLinks(i.bindingHash)(v)
    ensures EndsKnown(Adds(i), r)
  {
    DirectNodes(i);
  }

  lemma ConnectionLinksKnown(i: Inputs, c: Connection, r: Request)
    requires r in ConnectionLinks(c)
    ensures EndsKnown(Adds(i), r)
  {
  }

  lemma RequestEndsKnown(i: Inputs, names: map<string, NodeId>, r: Request)
    requires r in Requests(i, names)
    ensures EndsKnown(Adds(i), r)
  {
    if r in FrontRequests(i) {
      FrontEndsKnown(i, r);
    } else {
      SortedMembers(i);
      InFlatMap(PathLinks(names), OrderedPaths(i));
      var p :| p in OrderedPaths(i) && r in PathLinks(names)(p);
      PathLinksKnown(i, names, p, r);
    }
  }

  lemma FrontEndsKnown(i: Inputs, r: Request)
    requires r in FrontRequests(i)
    ensures EndsKnown(Adds(i), r)
  {
    FrontRequestFrom(i, r);
    if m :| m in i.objects && r in ObjectLinks(m) {
      ObjectLinksKnown(i, m);
    } else if c :| c in i.connections && r in ConnectionLinks(c) {
      ConnectionLinksKnown(i, c, r);
    } else if v :| v in i.views && r in ViewLinks(i.bindingHash)(v) {
      ViewLinksKnown(i, v, r);
    } else if c :| c in i.crossings && r in CrossingLinks(i)(c) {
      CrossingLinksKnown(i, c, r);
    } else if l :| l in i.lineage && r == LineageLink(l) {
    } else {
      ClockLinksKnown(i, r);
    }
  }

  lemma FoundIsNode(adds: seq<NodeAdd>, e: End)
    requires EndKnown(adds, e) && Find(NamesOf(adds), e).Some?
    ensures Find(NamesOf(adds), e).value in NodesOf(adds)
  {
    NamesPointToNodes(adds);
  }

  lemma YieldedEdgeEnds(i: Inputs, names: map<string, NodeId>, e: Edge)
    requires names == NamesOf(Adds(i)) && Yields(names, Requests(i, names), e)
    ensures e.source in NodesOf(Adds(i)) && e.target in NodesOf(Adds(i)) && e.source != e.target
  {
    var r :| r in Requests(i, names) && Attempt(names, r) == Ok(e);
    RequestEndsKnown(i, names, r);
    FoundIsNode(Adds(i), r.source);
    FoundIsNode(Adds(i), r.target);
  }

  /** Whatever the inputs, a graph that is returned has no dangling edge and no edge from a
      node to itself. */
  lemma NoDanglingEdge(i: Inputs)
    requires BuildOf(i).Ok?
    ensures var d := BuildOf(i).value;
            forall e :: e in d.edges ==> e.source in d.nodes && e.target in d.nodes && e.source != e.target
  {
    var d := BuildOf(i).value;
    EdgesAreRequested(i);
    forall e | e in d.edges ensures e.source in d.nodes && e.target in d.nodes && e.source != e.target {
      YieldedEdgeEnds(i, NamesOf(Adds(i)), e);
    }
  }
}
