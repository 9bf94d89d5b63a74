/** How the evidence graph follows its inputs (src/nova_rtl/evidence/graph.py): its nodes are
    exactly the nodes of the records, each with the place of its record in the sorted artifact;
    what kind of node an object becomes; which objects the endpoint of a crossing stands for,
    described on the names themselves; and what each error of the builder says is the case. */
module GraphRecords {
  import opened Prelude
  import opened Text
  import opened Graph
  import opened GraphTheorems
  import opened GraphNames
  import opened GraphPaths
  import opened GraphEdges

  // ------------------------------------------------------------------------- positions

  /** The index in a content is where its record stands in the sorted artifact. */
  predicate Placed(i: Inputs, c: Content) {
    match c
    case OfSpan(s, k) => k < |SortBy(i.spans, SpanLe)| && SortBy(i.spans, SpanLe)[k] == s
    case OfObject(m, k) => k < |Ordered(i)| && Ordered(i)[k] == m
    case OfPath(p, k) => k < |OrderedPaths(i)| && OrderedPaths(i)[k] == p
    case OfViolation(p, k) => k < |OrderedPaths(i)| && OrderedPaths(i)[k] == p
    case _ => true
  }

  predicate AllPlaced(i: Inputs, adds: seq<NodeAdd>) { forall a :: a in adds ==> Placed(i, a.content) }

  lemma {:induction false} SpansPlaced(i: Inputs, k: nat)
    requires k <= |SortBy(i.spans, SpanLe)|
    ensures AllPlaced(i, SpanAdds(SortBy(i.spans, SpanLe)[k..], k))
    decreases |SortBy(i.spans, SpanLe)| - k
  {
    var sorted := SortBy(i.spans, SpanLe);
    if k < |sorted| {
      SpansPlaced(i, k + 1);
      assert sorted[k..][1..] == sorted[k + 1..];
    }
  }

  lemma {:induction false} ObjectsPlaced(i: Inputs, types: set<string>, k: nat)
    requires k <= |Ordered(i)|
    ensures AllPlaced(i, ObjectAdds(Ordered(i)[k..], types, k))
    decreases |Ordered(i)| - k
  {
    if k < |Ordered(i)| {
      ObjectsPlaced(i, types, k + 1);
      assert Ordered(i)[k..][1..] == Ordered(i)[k + 1..];
    }
  }

  lemma {:induction false} PathsPlaced(i: Inputs, k: nat)
    requires k <= |OrderedPaths(i)|
    ensures AllPlaced(i, PathAdds(OrderedPaths(i)[k..], k))
    decreases |OrderedPaths(i)| - k
  {
    if k < |OrderedPaths(i)| {
      PathsPlaced(i, k + 1);
      assert OrderedPaths(i)[k..][1..] == OrderedPaths(i)[k + 1..];
    }
  }

  lemma BothPlaced(i: Inputs, x: seq<NodeAdd>, y: seq<NodeAdd>)
    requires AllPlaced(i, x) && AllPlaced(i, y)
    ensures AllPlaced(i, x + y)
  {
  }

  /** Contents without an index. */
  predicate Unplaced(adds: seq<NodeAdd>) {
    forall a :: a in adds ==> !a.content.OfSpan? && !a.content.OfObject? && !a.content.OfPath? && !a.content.OfViolation?
  }

  lemma ModulesUnplaced(i: Inputs)
    ensures Unplaced(ModuleAdds(Ordered(i), {}))
  {
    SortedMembers(i);
    ModuleAddsFrom(i, Ordered(i), {});
  }

  lemma NetworkUnplaced(i: Inputs)
    ensures Unplaced(NetworkAdds(i))
  {
    InMapSeq(NetAdd(i.connections), SortedOf(Nets(i)));
    InFlatMap(ViewAdds, i.views);
  }

  lemma ClocksUnplaced(i: Inputs)
    ensures Unplaced(ClockAdds(i))
  {
    InMapSeq(DomainAdd, SortedOf(Domains(i)));
    InMapSeq(MasterAdd, i.masters);
    InMapSeq(GeneratedAdd, i.generated);
  }

  lemma CrossingsUnplaced(i: Inputs)
    ensures Unplaced(MapSeq(CrossingAdd, i.crossings) + MapSeq(GroupAdd, SortedOf(Groups(i))))
  {
    InMapSeq(CrossingAdd, i.crossings);
    InMapSeq(GroupAdd, SortedOf(Groups(i)));
  }

  lemma UnplacedPlaced(i: Inputs, adds: seq<NodeAdd>)
    requires Unplaced(adds)
    ensures AllPlaced(i, adds)
  {
  }

  lemma OthersPlaced(i: Inputs)
    ensures AllPlaced(i, ModuleAdds(Ordered(i), {})) && AllPlaced(i, NetworkAdds(i)) && AllPlaced(i, ClockAdds(i))
    ensures AllPlaced(i, MapSeq(CrossingAdd, i.crossings) + MapSeq(GroupAdd, SortedOf(Groups(i))))
  {
    ModulesUnplaced(i);
    NetworkUnplaced(i);
    ClocksUnplaced(i);
    CrossingsUnplaced(i);
    UnplacedPlaced(i, ModuleAdds(Ordered(i), {}));
    UnplacedPlaced(i, NetworkAdds(i));
    UnplacedPlaced(i, ClockAdds(i));
    UnplacedPlaced(i, MapSeq(CrossingAdd, i.crossings) + MapSeq(GroupAdd, SortedOf(Groups(i))));
  }

  lemma AddsPlaced(i: Inputs)
    ensures AllPlaced(i, Adds(i))
  {
    var spans, paths := SortBy(i.spans, SpanLe), OrderedPaths(i);
    assert spans[0..] == spans && Ordered(i)[0..] == Ordered(i) && paths[0..] == paths;
    SpansPlaced(i, 0);
    ObjectsPlaced(i, Types(i), 0);
    PathsPlaced(i, 0);
    OthersPlaced(i);
    AddsSplit(i);
    BothPlaced(i, SpanAdds(spans, 0), ModuleAdds(Ordered(i), {}));
    BothPlaced(i, EarlyAdds(i), MiddleAdds(i));
    BothPlaced(i, MapSeq(CrossingAdd, i.crossings) + MapSeq(GroupAdd, SortedOf(Groups(i))), PathAdds(paths, 0));
    BothPlaced(i, NetworkAdds(i), ClockAdds(i));
    BothPlaced(i, NetworkAdds(i) + ClockAdds(i), TimingAdds(i));
    BothPlaced(i, EarlyAdds(i) + MiddleAdds(i), LateAdds(i));
  }

  // ----------------------------------------------------------------------------- nodes

  /** The nodes that the records of the inputs stand for. */
  ghost predicate RecordNode(i: Inputs, id: NodeId) {
    || (exists s :: s in i.spans && id == NodeId(SOURCE_SPAN, Plain(s.id)))
    || (exists m :: m in i.objects && id == NodeId(MODULE, Hashed("module", [m.moduleType, m.owner])))
    || (exists m :: m in i.objects && id == ObjectId(m, Types(i)))
    || (exists c :: c in i.connections && id == NodeId(NET, Plain(c.net)))
    || id == NodeId(CONSTRAINT_BINDING, Hashed("constraint_binding", [i.bindingHash]))
    || (exists v :: v in i.views && (id == ViewNode(v.id) || id == RegionOf(v)))
    || (exists m :: m in i.masters && (id == NodeId(CLOCK_DOMAIN, Plain(m.domain)) || id == NodeId(CLOCK, Plain(m.id))))
    || (exists g :: g in i.generated && (id == NodeId(CLOCK_DOMAIN, Plain(g.domain)) || id == NodeId(GENERATED_CLOCK, Plain(g.id))))
    || (exists c :: c in i.crossings && id == NodeId(CDC_STRUCTURE, Plain(c.id)))
    || (exists p :: p in i.paths && (id == NodeId(PATH_GROUP, Hashed("path_group", [p.group])) || id == NodeId(TIMING_PATH, Plain(p.id))))
    || (exists p :: p in i.paths && p.slack < 0.0 && id == NodeId(VIOLATION, HashedSlack(p.id, p.slack)))
  }

  lemma FromIsRecord(i: Inputs, a: NodeAdd)
    requires From(i, a)
    ensures RecordNode(i, a.id)
  {
  }

  lemma AddHasNode(i: Inputs, a: NodeAdd)
    requires a in Adds(i)
    ensures HasNode(Adds(i), a.id)
  {
  }

  lemma StructureHasNodes(i: Inputs)
    ensures forall s :: s in i.spans ==> HasNode(Adds(i), NodeId(SOURCE_SPAN, Plain(s.id)))
    ensures forall m :: m in i.objects ==> HasNode(Adds(i), ObjectId(m, Types(i)))
    ensures forall c :: c in i.connections ==> HasNode(Adds(i), NodeId(NET, Plain(c.net)))
    ensures forall v :: v in i.views ==> HasNode(Adds(i), ViewNode(v.id)) && HasNode(Adds(i), RegionOf(v))
  {
    SortedMembers(i);
    SpanAddsFrom(i, SortBy(i.spans, SpanLe), 0);
    forall s | s in i.spans ensures HasNode(Adds(i), NodeId(SOURCE_SPAN, Plain(s.id))) {
      var a :| a in SpanAdds(SortBy(i.spans, SpanLe), 0) && a.content.OfSpan? && a.content.span == s;
      assert From(i, a) && a in StructureAdds(i);
      AddHasNode(i, a);
    }
    forall m | m in i.objects ensures HasNode(Adds(i), ObjectId(m, Types(i))) {
      var a := ObjectAdded(i, m);
      AddHasNode(i, a);
    }
    forall c | c in i.connections ensures HasNode(Adds(i), NodeId(NET, Plain(c.net))) {
      MappedNameAdded(NetAdd(i.connections), Nets(i), c.net);
      assert NetAdd(i.connections)(c.net) in StructureAdds(i);
      AddHasNode(i, NetAdd(i.connections)(c.net));
    }
    InFlatMap(ViewAdds, i.views);
    forall v | v in i.views ensures HasNode(Adds(i), ViewNode(v.id)) && HasNode(Adds(i), RegionOf(v)) {
      var adds := ViewAdds(v);
      assert adds[0] in adds && adds[1] in adds && adds[0] in StructureAdds(i) && adds[1] in StructureAdds(i);
      AddHasNode(i, adds[0]);
      AddHasNode(i, adds[1]);
    }
  }

  lemma TimingHasNodes(i: Inputs)
    ensures forall m :: m in i.masters ==> HasNode(Adds(i), NodeId(CLOCK, Plain(m.id)))
    ensures forall g :: g in i.generated ==> HasNode(Adds(i), NodeId(GENERATED_CLOCK, Plain(g.id)))
    ensures forall c :: c in i.crossings ==> HasNode(Adds(i), NodeId(CDC_STRUCTURE, Plain(c.id)))
    ensures forall p :: p in i.paths ==> HasNode(Adds(i), NodeId(TIMING_PATH, Plain(p.id)))
    ensures forall p :: p in i.paths && p.slack < 0.0 ==> HasNode(Adds(i), NodeId(VIOLATION, HashedSlack(p.id, p.slack)))
  {
    SortedMembers(i);
    InMapSeq(MasterAdd, i.masters);
    InMapSeq(GeneratedAdd, i.generated);
    InMapSeq(CrossingAdd, i.crossings);
    forall m | m in i.masters ensures HasNode(Adds(i), NodeId(CLOCK, Plain(m.id))) {
      assert MasterAdd(m) in ClockAdds(i);
      AddHasNode(i, MasterAdd(m));
    }
    forall g | g in i.generated ensures HasNode(Adds(i), NodeId(GENERATED_CLOCK, Plain(g.id))) {
      assert GeneratedAdd(g) in ClockAdds(i);
      AddHasNode(i, GeneratedAdd(g));
    }
    forall c | c in i.crossings ensures HasNode(Adds(i), NodeId(CDC_STRUCTURE, Plain(c.id))) {
      assert CrossingAdd(c) in TimingAdds(i);
      AddHasNode(i, CrossingAdd(c));
    }
    forall p | p in i.paths ensures HasNode(Adds(i), NodeId(TIMING_PATH, Plain(p.id))) {
      var a := PathAdded(i, p);
      AddHasNode(i, a);
    }
    forall p | p in i.paths && p.slack < 0.0 ensures HasNode(Adds(i), NodeId(VIOLATION, HashedSlack(p.id, p.slack))) {
      var a := ViolationAdded(OrderedPaths(i), 0, p);
      assert a in TimingAdds(i);
      AddHasNode(i, a);
    }
  }

  lemma RecordsHaveNodes(i: Inputs, id: NodeId)
    requires RecordNode(i, id)
    ensures HasNode(Adds(i), id)
  {
    DirectNodes(i);
    StructureHasNodes(i);
    TimingHasNodes(i);
    forall m | m in i.masters ensures m.domain in Domains(i) {}
    forall g | g in i.generated ensures g.domain in Domains(i) {}
    forall p | p in i.paths ensures p.group in Groups(i) {}
  }

  /** This content is that of a record with this node, in its place. */
  ghost predicate Carries(i: Inputs, id: NodeId, c: Content) {
    Placed(i, c) && exists name :: From(i, NodeAdd(id, name, c))
  }

  lemma AddCarries(i: Inputs, a: NodeAdd)
    requires From(i, a) && Placed(i, a.content)
    ensures RecordNode(i, a.id) && Carries(i, a.id, a.content)
  {
    FromIsRecord(i, a);
    assert a == NodeAdd(a.id, a.name, a.content);
  }

  lemma TableCarries(i: Inputs, adds: seq<NodeAdd>, id: NodeId)
    requires AllFrom(i, adds) && AllPlaced(i, adds) && id in NodesOf(adds)
    ensures RecordNode(i, id) && Carries(i, id, NodesOf(adds)[id])
  {
    NodesAreLast(adds);
    ByIdHolds(AddId, adds);
    AddCarries(i, ById(AddId, adds)[id]);
  }

  lemma NodeInTable(adds: seq<NodeAdd>, id: NodeId)
    requires HasNode(adds, id)
    ensures id in NodesOf(adds)
  {
    NamesPointToNodes(adds);
  }

  /** The nodes of a built graph are exactly those of its records: spans, modules, objects,
      nets, the constraint binding, views and their regions, domains, clocks, crossings, path
      groups, paths, and a violation for each path with negative slack. What a node carries is
      a record that has this node, and where it stands in the sorted artifact. */
  lemma NodesAreRecords(i: Inputs)
    requires BuildOf(i).Ok?
    ensures forall id :: id in BuildOf(i).value.nodes <==> RecordNode(i, id)
    ensures forall id :: id in BuildOf(i).value.nodes ==> Carries(i, id, BuildOf(i).value.nodes[id])
  {
    AddsFrom(i);
    AddsPlaced(i);
    forall id | id in NodesOf(Adds(i)) ensures RecordNode(i, id) && Carries(i, id, NodesOf(Adds(i))[id]) { TableCarries(i, Adds(i), id); }
    forall id | RecordNode(i, id) ensures id in NodesOf(Adds(i)) {
      RecordsHaveNodes(i, id);
      NodeInTable(Adds(i), id);
    }
  }

  // ------------------------------------------------------------------------ object kinds

  /** The text occurs in the other one. */
  ghost predicate Occurs(part: string, s: string) { exists k :: 0 <= k <= |s| && part <= s[k..] }

  lemma {:induction false} ContainsIff(s: string, part: string)
    ensures Contains(s, part) <==> Occurs(part, s)
  {
    assert s[0..] == s;
    if s != "" {
      ContainsIff(s[1..], part);
      assert forall k :: 1 <= k <= |s| ==> s[1..][k - 1..] == s[k..];
      assert forall k :: 0 <= k <= |s[1..]| ==> s[1..][k..] == s[k + 1..];
    }
  }

  /** The cell is a flip-flop of its library. */
  ghost predicate IsFlop(m: Mapped) { m.kind == CELL && m.cellType.Some? && Occurs("DFF", Upper(m.cellType.value)) }

  /** The cell is an instance of a module of the design. */
  predicate IsInstance(i: Inputs, m: Mapped) { exists o :: o in i.objects && m.cellType == Some(o.moduleType) }

  /** A flip-flop becomes a register, any other cell of no module of the design an
      expression, and everything else keeps its kind; the object ID is the identity. */
  lemma ObjectKindIff(i: Inputs, m: Mapped)
    requires m in i.objects
    ensures var id := ObjectId(m, Types(i));
            && id.semantic == Plain(m.objectId)
            && (id.kind == REGISTER <==> IsFlop(m))
            && (id.kind == EXPRESSION <==> m.kind == CELL && !IsFlop(m) && !IsInstance(i, m))
            && (id.kind == MAPPED(m.kind) <==> !(m.kind == CELL && (IsFlop(m) || !IsInstance(i, m))))
  {
    ContainsIff(Upper(if m.cellType.Some? then m.cellType.value else ""), "DFF");
    assert m.cellType.Some? ==> (m.cellType.value in Types(i) <==> IsInstance(i, m));
    assert Upper("") == "" && !Contains("", "DFF");
  }

  // ----------------------------------------------------------------- crossing endpoints

  /** What follows the first colon, or everything if there is none. */
  ghost predicate Tail(s: string, t: string) {
    (':' !in s && t == s) || exists k :: 0 <= k < |s| && s[k] == ':' && ':' !in s[..k] && t == s[k + 1..]
  }

  /** What comes before the first bracket, or everything if there is none. */
  predicate Base(s: string, b: string) { b <= s && '[' !in b && (|b| == |s| || s[|b|] == '[') }

  /** What follows the last slash, or everything if there is none. */
  ghost predicate Leaf(s: string, l: string) {
    exists k :: 0 <= k <= |s| && l == s[k..] && '/' !in l && (k == 0 || s[k - 1] == '/')
  }

  lemma TailCons(s: string, t: string)
    requires s != "" && s[0] != ':' && ':' in s[1..] && Tail(s[1..], t)
    ensures Tail(s, t)
  {
    var k :| 0 <= k < |s[1..]| && s[1..][k] == ':' && ':' !in s[1..][..k] && t == s[1..][k + 1..];
    assert s[..k + 1] == [s[0]] + s[1..][..k] && s[k + 2..] == s[1..][k + 1..];
    assert s[k + 1] == ':' && ':' !in s[..k + 1];
  }

  lemma {:induction false} AfterColonIs(s: string)
    ensures Tail(s, AfterColon(s))
  {
    if ':' in s {
      if s[0] == ':' {
        assert ':' !in s[..0] && AfterColon(s) == s[1..];
      } else {
        AfterColonIs(s[1..]);
        assert s == [s[0]] + s[1..];
        TailCons(s, AfterColon(s[1..]));
      }
    }
  }

  lemma TailUnique(s: string, t: string, u: string)
    requires Tail(s, t) && Tail(s, u)
    ensures t == u
  {
    if ':' in s {
      var j :| 0 <= j < |s| && s[j] == ':' && ':' !in s[..j] && t == s[j + 1..];
      var k :| 0 <= k < |s| && s[k] == ':' && ':' !in s[..k] && u == s[k + 1..];
      forall x | 0 <= x < j ensures s[x] != ':' { assert s[..j][x] in s[..j]; }
      forall x | 0 <= x < k ensures s[x] != ':' { assert s[..k][x] in s[..k]; }
    }
  }

  lemma {:induction false} BeforeBracketIs(s: string)
    ensures Base(s, BeforeBracket(s))
  {
    if s != "" && s[0] != '[' { BeforeBracketIs(s[1..]); }
  }

  lemma BaseUnique(s: string, a: string, b: string)
    requires Base(s, a) && Base(s, b)
    ensures a == b
  {
    assert s[..|a|] == a && s[..|b|] == b;
    forall x | 0 <= x < |a| ensures s[x] != '[' { assert s[x] == a[x] && a[x] in a; }
    forall x | 0 <= x < |b| ensures s[x] != '[' { assert s[x] == b[x] && b[x] in b; }
  }

  lemma LeafCons(s: string, l: string)
    requires '/' in s && Leaf(s[1..], l)
    ensures Leaf(s, l)
  {
    var k :| 0 <= k <= |s[1..]| && l == s[1..][k..] && '/' !in l && (k == 0 || s[1..][k - 1] == '/');
    assert s[k + 1..] == s[1..][k..] && s == [s[0]] + s[1..];
    assert k == 0 ==> s[0] == '/' by { if k == 0 { assert l == s[1..]; } }
  }

  lemma {:induction false} LastPartIs(s: string)
    ensures Leaf(s, LastPart(s))
  {
    if '/' !in s {
      assert s == s[0..];
    } else {
      LastPartIs(s[1..]);
      LeafCons(s, LastPart(s[1..]));
    }
  }

  lemma LeafUnique(s: string, a: string, b: string)
    requires Leaf(s, a) && Leaf(s, b)
    ensures a == b
  {
    var j :| 0 <= j <= |s| && a == s[j..] && '/' !in a && (j == 0 || s[j - 1] == '/');
    var k :| 0 <= k <= |s| && b == s[k..] && '/' !in b && (k == 0 || s[k - 1] == '/');
    forall x | j <= x < |s| ensures s[x] != '/' { assert s[x] == a[x - j] && a[x - j] in a; }
    forall x | k <= x < |s| ensures s[x] != '/' { assert s[x] == b[x - k] && b[x - k] in b; }
  }

  /** Without kind prefix and bit select, the name is the endpoint or lies below it. */
  ghost predicate LiesBelow(name: string, endpoint: string) {
    exists n, b, e :: Tail(name, n) && Base(n, b) && Tail(endpoint, e) && (b == e || e + "/" <= b)
  }

  /** Without kind prefix, bit select and hierarchy, name and endpoint are the same. */
  ghost predicate SharesLeaf(name: string, endpoint: string) {
    exists n, b, e, l :: Tail(name, n) && Base(n, b) && Tail(endpoint, e) && Leaf(b, l) && Leaf(e, l)
  }

  /** The parts of name and endpoint that are compared, and no others. */
  lemma ComparedParts(name: string, endpoint: string)
    ensures var n, e := AfterColon(name), AfterColon(endpoint);
            Tail(name, n) && Base(n, BeforeBracket(n)) && Tail(endpoint, e)
    ensures forall n, b, e :: Tail(name, n) && Base(n, b) && Tail(endpoint, e) ==>
              n == AfterColon(name) && b == BeforeBracket(n) && e == AfterColon(endpoint)
  {
    AfterColonIs(name);
    AfterColonIs(endpoint);
    BeforeBracketIs(AfterColon(name));
    forall n, b, e | Tail(name, n) && Base(n, b) && Tail(endpoint, e)
      ensures n == AfterColon(name) && b == BeforeBracket(n) && e == AfterColon(endpoint)
    {
      TailUnique(name, n, AfterColon(name));
      TailUnique(endpoint, e, AfterColon(endpoint));
      BaseUnique(n, b, BeforeBracket(n));
    }
  }

  lemma MatchesIff(name: string, endpoint: string)
    ensures MatchesStructural(name, endpoint) <==> LiesBelow(name, endpoint)
    ensures MatchesLeaf(name, endpoint) <==> SharesLeaf(name, endpoint)
  {
    var e := AfterColon(endpoint);
    var b := BeforeBracket(AfterColon(name));
    ComparedParts(name, endpoint);
    LastPartIs(b);
    LastPartIs(e);
    forall l | Leaf(b, l) ensures l == LastPart(b) { LeafUnique(b, LastPart(b), l); }
    forall l | Leaf(e, l) ensures l == LastPart(e) { LeafUnique(e, LastPart(e), l); }
  }

  ghost predicate StandsBelow(m: Mapped, endpoint: string) {
    LiesBelow(m.name, endpoint) || exists a :: a in m.aliases && LiesBelow(a, endpoint)
  }

  /** The objects an endpoint stands for: those that lie below it by name or alias, and only
      if there are none, those with an alias that shares its leaf name. */
  lemma MatchingIff(i: Inputs, endpoint: string, m: Mapped)
    ensures m in Matching(Ordered(i), endpoint) <==>
            m in i.objects &&
            (StandsBelow(m, endpoint)
             || ((forall o :: o in i.objects ==> !StandsBelow(o, endpoint)) && exists a :: a in m.aliases && SharesLeaf(a, endpoint)))
  {
    SortedMembers(i);
    InFilter(DirectMatch(endpoint), Ordered(i));
    InFilter(LeafMatch(endpoint), Ordered(i));
    forall o: Mapped ensures DirectMatch(endpoint)(o) <==> StandsBelow(o, endpoint) {
      MatchesIff(o.name, endpoint);
      forall a | a in o.aliases ensures MatchesStructural(a, endpoint) <==> LiesBelow(a, endpoint) { MatchesIff(a, endpoint); }
    }
    forall a ensures MatchesLeaf(a, endpoint) <==> SharesLeaf(a, endpoint) { MatchesIff(a, endpoint); }
    var direct := Filter(DirectMatch(endpoint), Ordered(i));
    if direct != [] { assert direct[0] in direct; }
  }

  // ------------------------------------------------------------------------- the errors

  /** A name that some record looks up is not known. */
  ghost predicate NameMissing(i: Inputs, names: map<string, NodeId>) {
    || (exists m, s :: m in i.objects && s in m.spans && "source:" + s !in names)
    || (exists c :: c in i.connections && (c.source !in names || c.destination !in names))
    || (exists l :: l in i.lineage && ("clock:" + l.child !in names || "clock:" + l.parent !in names))
    || (exists p :: p in i.paths && ("clock:" + p.launch !in names || "clock:" + p.capture !in names))
  }

  /** An edge that some record calls for would join a node to itself. */
  ghost predicate LoopCalledFor(i: Inputs, names: map<string, NodeId>) {
    exists e :: CalledFor(i, names, e) && e.source == e.target
  }

  /** What the error says is the case. */
  ghost predicate Explains(i: Inputs, names: map<string, NodeId>, error: GraphError) {
    match error
    case UnknownView => exists p :: p in i.paths && forall v :: v in i.views ==> v.id != p.view
    case UnknownSpan => exists p, s :: p in i.paths && s in p.spans && forall x :: x in i.spans ==> x.id != s
    case DuplicatePath => exists j, k :: 0 <= j < k < |i.paths| && i.paths[j].id == i.paths[k].id
    case UnmappedObject => exists p, n :: p in i.paths && n in p.objects && n !in names
    case EmptyPath => exists p :: p in i.paths && p.objects == []
    case UnresolvedEndpoint => exists c :: c in i.crossings && (Matching(Ordered(i), c.source) == [] || Matching(Ordered(i), c.destination) == [])
    case KeyError => NameMissing(i, names)
    case SelfEdge => LoopCalledFor(i, names)
  }

  lemma {:induction false} PathProblemMeans(i: Inputs, paths: seq<Path>)
    requires PathProblem(i, paths).Some? && forall p :: p in paths ==> p in i.paths
    ensures PathProblem(i, paths).value in {UnknownView, UnknownSpan} && Explains(i, Names(i), PathProblem(i, paths).value)
  {
    var p := paths[0];
    assert p in paths;
    if HasView(i, p.view) && !(exists s :: s in p.spans && !HasSpan(i, s)) {
      PathProblemMeans(i, paths[1..]);
    } else if HasView(i, p.view) {
      var s :| s in p.spans && !HasSpan(i, s);
    }
  }

  lemma {:induction false} ProcessFails(names: map<string, NodeId>, rs: seq<Request>, edges: set<Edge>) returns (r: Request)
    requires Process(names, rs, edges).Err?
    ensures r in rs && Attempt(names, r) == Err(Process(names, rs, edges).error)
    decreases rs
  {
    if Attempt(names, rs[0]).Err? {
      r := rs[0];
    } else {
      r := ProcessFails(names, rs[1..], edges + {Attempt(names, rs[0]).value});
    }
  }

  lemma ObjectLinksLink(m: Mapped)
    ensures forall r :: r in ObjectLinks(m) ==> r.Link?
  {
    SpanLinksNamed(Named(m.name), m.spans);
  }

  /** Only crossings and paths are refused outright. */
  lemma RejectFrom(i: Inputs, names: map<string, NodeId>, r: Request)
    requires r in Requests(i, names) && r.Reject?
    ensures (exists c :: c in i.crossings && r in CrossingLinks(i)(c)) || (exists p :: p in i.paths && r in PathLinks(names)(p))
  {
    RequestFrom(i, names, r);
    forall m ensures r !in ObjectLinks(m) { ObjectLinksLink(m); }
  }

  lemma CrossingRejects(i: Inputs, names: map<string, NodeId>, c: Crossing, error: GraphError)
    requires c in i.crossings && Reject(error) in CrossingLinks(i)(c)
    ensures Explains(i, names, error)
  {
    EndpointRejects(i, c.id, "source", c.source, error);
    EndpointRejects(i, c.id, "destination", c.destination, error);
  }

  lemma RejectMeans(i: Inputs, names: map<string, NodeId>, error: GraphError)
    requires Reject(error) in Requests(i, names)
    ensures Explains(i, names, error)
  {
    var r := Reject(error);
    RejectFrom(i, names, r);
    if c :| c in i.crossings && r in CrossingLinks(i)(c) {
      CrossingRejects(i, names, c, error);
    } else {
      var p :| p in i.paths && r in PathLinks(names)(p);
      PathRejects(names, p, error);
    }
  }

  lemma EndpointRejects(i: Inputs, crossing: string, role: string, endpoint: string, error: GraphError)
    ensures Reject(error) in EndpointLinks(i, crossing, role, endpoint) ==>
              error == UnresolvedEndpoint && Matching(Ordered(i), endpoint) == []
  {
    EndpointLinksNamed(i, crossing, role, endpoint);
    if Matching(Ordered(i), endpoint) != [] {
      var f := MatchedLinks(i.connections, crossing, role);
      InFlatMap(f, Matching(Ordered(i), endpoint));
      forall m | m in Matching(Ordered(i), endpoint) ensures Reject(error) !in f(m) { MatchedLinksNamed(i.connections, crossing, role, m); }
    }
  }

  lemma PathRejects(names: map<string, NodeId>, p: Path, error: GraphError)
    requires Reject(error) in LinksOfPath(names, p)
    ensures || (error == UnmappedObject && exists n :: n in p.objects && n !in names)
            || (error == EmptyPath && p.objects == [])
  {
    if p.objects != [] && forall n :: n in p.objects ==> n in names {
      ArcsAre(p.objects);
      SpanLinksNamed(Me(p), p.spans);
    }
  }

  predicate Missing(names: map<string, NodeId>, e: End) { Find(names, e).None? }

  /** The names of the records themselves are all known. */
  ghost predicate OwnNames(i: Inputs, names: map<string, NodeId>) {
    && (forall m :: m in i.objects ==> m.name in names)
    && (forall c :: c in i.connections ==> "net:" + c.net in names)
    && (forall v :: v in i.views ==> "view:" + v.id in names && "physical:" + v.id in names)
    && (forall m :: m in i.masters ==> "clock:" + m.id in names)
    && (forall g :: g in i.generated ==> "clock:" + g.id in names)
    && (forall c :: c in i.crossings ==> "cdc:" + c.id in names)
    && (forall p :: p in i.paths ==> "path:" + p.id in names && "view:" + p.view in names)
    && (forall p, s :: p in i.paths && s in p.spans ==> "source:" + s in names)
  }

  lemma AddKnown(i: Inputs, a: NodeAdd)
    requires a in Adds(i)
    ensures a.name in Names(i)
  {
    NamesPointToNodes(Adds(i));
  }

  lemma SpanKnown(i: Inputs, s: Span)
    requires s in i.spans
    ensures "source:" + s.id in Names(i)
  {
    SortedMembers(i);
    SpanAddsFrom(i, SortBy(i.spans, SpanLe), 0);
    var a :| a in SpanAdds(SortBy(i.spans, SpanLe), 0) && a.content.OfSpan? && a.content.span == s;
    assert From(i, a) && a in StructureAdds(i);
    AddKnown(i, a);
  }

  lemma ViewKnown(i: Inputs, v: View)
    requires v in i.views
    ensures "view:" + v.id in Names(i) && "physical:" + v.id in Names(i)
  {
    InFlatMap(ViewAdds, i.views);
    var adds := ViewAdds(v);
    assert adds[0] in adds && adds[1] in adds && adds[0] in StructureAdds(i) && adds[1] in StructureAdds(i);
    AddKnown(i, adds[0]);
    AddKnown(i, adds[1]);
  }

  lemma PathsKnown(i: Inputs, p: Path)
    requires PathProblem(i, i.paths).None? && p in i.paths
    ensures "path:" + p.id in Names(i) && "view:" + p.view in Names(i)
    ensures forall s :: s in p.spans ==> "source:" + s in Names(i)
  {
    var a := PathAdded(i, p);
    AddKnown(i, a);
    ViewIsKnown(i, i.paths, p);
    var v :| v in i.views && v.id == p.view;
    ViewKnown(i, v);
    forall s | s in p.spans ensures "source:" + s in Names(i) {
      SpanIsKnown(i, i.paths, p, s);
      var span :| span in i.spans && span.id == s;
      SpanKnown(i, span);
    }
  }

  lemma ClocksKnown(i: Inputs)
    ensures forall m :: m in i.masters ==> "clock:" + m.id in Names(i)
    ensures forall g :: g in i.generated ==> "clock:" + g.id in Names(i)
    ensures forall c :: c in i.crossings ==> "cdc:" + c.id in Names(i)
  {
    InMapSeq(MasterAdd, i.masters);
    InMapSeq(GeneratedAdd, i.generated);
    InMapSeq(CrossingAdd, i.crossings);
    forall m | m in i.masters ensures "clock:" + m.id in Names(i) {
      assert MasterAdd(m) in ClockAdds(i);
      AddKnown(i, MasterAdd(m));
    }
    forall g | g in i.generated ensures "clock:" + g.id in Names(i) {
      assert GeneratedAdd(g) in ClockAdds(i);
      AddKnown(i, GeneratedAdd(g));
    }
    forall c | c in i.crossings ensures "cdc:" + c.id in Names(i) {
      assert CrossingAdd(c) in TimingAdds(i);
      AddKnown(i, CrossingAdd(c));
    }
  }

  lemma NetKnown(i: Inputs, c: Connection)
    requires c in i.connections
    ensures "net:" + c.net in Names(i)
  {
    MappedNameAdded(NetAdd(i.connections), Nets(i), c.net);
    assert NetAdd(i.connections)(c.net) in StructureAdds(i);
    AddKnown(i, NetAdd(i.connections)(c.net));
  }

  lemma OwnNamesKnown(i: Inputs)
    requires PathProblem(i, i.paths).None?
    ensures OwnNames(i, Names(i))
  {
    ClocksKnown(i);
    forall m | m in i.objects ensures m.name in Names(i) {
      var a := ObjectAdded(i, m);
      AddKnown(i, a);
    }
    forall c | c in i.connections ensures "net:" + c.net in Names(i) { NetKnown(i, c); }
    forall v | v in i.views ensures "view:" + v.id in Names(i) && "physical:" + v.id in Names(i) { ViewKnown(i, v); }
    forall p | p in i.paths
      ensures "path:" + p.id in Names(i) && "view:" + p.view in Names(i) && forall s :: s in p.spans ==> "source:" + s in Names(i)
    {
      PathsKnown(i, p);
    }
  }

  predicate Dangling(names: map<string, NodeId>, r: Request) { r.Link? && (Missing(names, r.source) || Missing(names, r.target)) }

  lemma ObjectDangles(i: Inputs, names: map<string, NodeId>, m: Mapped, r: Request)
    requires OwnNames(i, names) && m in i.objects && r in ObjectLinks(m) && Dangling(names, r)
    ensures NameMissing(i, names)
  {
    SpanLinksNamed(Named(m.name), m.spans);
  }

  lemma CrossingDangles(i: Inputs, names: map<string, NodeId>, c: Crossing, r: Request)
    requires OwnNames(i, names) && c in i.crossings && r in CrossingLinks(i)(c) && Dangling(names, r)
    ensures NameMissing(i, names)
  {
    if r in EndpointLinks(i, c.id, "source", c.source) {
      EndpointDangles(i, names, c, "source", c.source, r);
    } else {
      EndpointDangles(i, names, c, "destination", c.destination, r);
    }
  }

  lemma EndpointDangles(i: Inputs, names: map<string, NodeId>, c: Crossing, role: string, endpoint: string, r: Request)
    requires OwnNames(i, names) && c in i.crossings && r in EndpointLinks(i, c.id, role, endpoint) && Dangling(names, r)
    ensures NameMissing(i, names)
  {
    var f := MatchedLinks(i.connections, c.id, role);
    MatchingAreObjects(i, endpoint);
    InFlatMap(f, Matching(Ordered(i), endpoint));
    var m :| m in Matching(Ordered(i), endpoint) && r in f(m);
    MatchedDangles(i, names, c, role, m, r);
  }

  lemma MatchedDangles(i: Inputs, names: map<string, NodeId>, c: Crossing, role: string, m: Mapped, r: Request)
    requires OwnNames(i, names) && c in i.crossings && m in i.objects
    requires r in MatchedLinks(i.connections, c.id, role)(m) && Dangling(names, r)
    ensures NameMissing(i, names)
  {
    var near := SortedOf(Neighbors(i.connections, m.name));
    InMapSeq(NearLink(c.id, role), near);
    if n :| n in near && r == NearLink(c.id, role)(n) {
      SortedOfSpec(Neighbors(i.connections, m.name));
      assert n in SetOf(near);
      NeighborIff(i.connections, m.name, n);
      var x :| x in i.connections && Joins(x, m.name, n);
    }
  }

  lemma PathDangles(i: Inputs, names: map<string, NodeId>, p: Path, r: Request)
    requires OwnNames(i, names) && p in i.paths && r in LinksOfPath(names, p) && Dangling(names, r)
    ensures NameMissing(i, names)
  {
    PathRequest(names, p, r);
    ArcsAre(p.objects);
  }

  lemma OtherDangles(i: Inputs, names: map<string, NodeId>, r: Request)
    requires OwnNames(i, names) && Dangling(names, r)
    requires || (exists c :: c in i.connections && r in ConnectionLinks(c)) || (exists l :: l in i.lineage && r == LineageLink(l))
             || (exists m :: m in i.masters && r == MasterLink(m)) || (exists g :: g in i.generated && r == GeneratedLink(g))
             || (exists v :: v in i.views && r in ViewLinks(i.bindingHash)(v))
    ensures NameMissing(i, names)
  {
  }

  lemma DanglingMeans(i: Inputs, names: map<string, NodeId>, r: Request)
    requires OwnNames(i, names) && r in Requests(i, names) && Dangling(names, r)
    ensures NameMissing(i, names)
  {
    RequestFrom(i, names, r);
    if m :| m in i.objects && r in ObjectLinks(m) {
      ObjectDangles(i, names, m, r);
    } else if c :| c in i.crossings && r in CrossingLinks(i)(c) {
      CrossingDangles(i, names, c, r);
    } else if p :| p in i.paths && r in PathLinks(names)(p) {
      PathDangles(i, names, p, r);
    } else {
      OtherDangles(i, names, r);
    }
  }

  lemma StructureLoopMeans(i: Inputs, names: map<string, NodeId>, r: Request, e: Edge)
    requires Asks(names, r, e)
    requires (exists m :: m in i.objects && r in ObjectLinks(m)) || (exists c :: c in i.connections && r in ConnectionLinks(c))
    ensures CalledFor(i, names, e)
  {
    if m :| m in i.objects && r in ObjectLinks(m) {
      ObjectAsked(names, m, e);
    } else {
      var c :| c in i.connections && r in ConnectionLinks(c);
      ConnectionAsked(names, c, e);
    }
  }

  lemma ViewLoopMeans(i: Inputs, names: map<string, NodeId>, v: View, r: Request, e: Edge)
    requires Asks(names, r, e) && v in i.views && r in ViewLinks(i.bindingHash)(v)
    ensures CalledFor(i, names, e)
  {
    ViewAsked(names, i.bindingHash, v, e);
  }

  lemma CrossingLoopMeans(i: Inputs, names: map<string, NodeId>, c: Crossing, r: Request, e: Edge)
    requires Asks(names, r, e) && c in i.crossings && r in CrossingLinks(i)(c)
    ensures CalledFor(i, names, e)
  {
    CrossingAsked(i, names, c, e);
  }

  lemma PathLoopMeans(i: Inputs, names: map<string, NodeId>, p: Path, r: Request, e: Edge)
    requires Asks(names, r, e) && p in i.paths && r in PathLinks(names)(p)
    ensures CalledFor(i, names, e)
  {
    assert p.objects != [] && forall n :: n in p.objects ==> n in names;
    PathAsked(names, p, e);
  }

  /** A request that would join a node to itself is for an edge that a record calls for. */
  lemma LoopMeans(i: Inputs, names: map<string, NodeId>, r: Request, e: Edge)
    requires r in Requests(i, names) && Asks(names, r, e)
    ensures CalledFor(i, names, e)
  {
    RequestFrom(i, names, r);
    if (exists m :: m in i.objects && r in ObjectLinks(m)) || (exists c :: c in i.connections && r in ConnectionLinks(c)) {
      StructureLoopMeans(i, names, r, e);
    } else if v :| v in i.views && r in ViewLinks(i.bindingHash)(v) {
      ViewLoopMeans(i, names, v, r, e);
    } else if c :| c in i.crossings && r in CrossingLinks(i)(c) {
      CrossingLoopMeans(i, names, c, r, e);
    } else if p :| p in i.paths && r in PathLinks(names)(p) {
      PathLoopMeans(i, names, p, r, e);
    } else {
      ClockLoopMeans(i, names, r, e);
    }
  }

  lemma ClockLoopMeans(i: Inputs, names: map<string, NodeId>, r: Request, e: Edge)
    requires Asks(names, r, e)
    requires || (exists l :: l in i.lineage && r == LineageLink(l)) || (exists m :: m in i.masters && r == MasterLink(m))
             || (exists g :: g in i.generated && r == GeneratedLink(g))
    ensures CalledFor(i, names, e)
  {
    if l :| l in i.lineage && r == LineageLink(l) {
      assert LineageEdge(names, l, e);
    } else if m :| m in i.masters && r == MasterLink(m) {
      assert DomainEdge(names, m.domain, m.id, e);
    } else {
      var g :| g in i.generated && r == GeneratedLink(g);
      assert DomainEdge(names, g.domain, g.id, e);
    }
  }

  lemma RequestFails(i: Inputs, r: Request, error: GraphError)
    requires PathProblem(i, i.paths).None? && r in Requests(i, Names(i)) && Attempt(Names(i), r) == Err(error)
    ensures Explains(i, Names(i), error)
  {
    if r.Reject? {
      RejectMeans(i, Names(i), error);
    } else if error == KeyError {
      OwnNamesKnown(i);
      DanglingMeans(i, Names(i), r);
    } else {
      var e := Edge(r.kind, Find(Names(i), r.source).value, Find(Names(i), r.target).value, r.role);
      LoopMeans(i, Names(i), r, e);
    }
  }

  /** Whatever the inputs, an error of the builder says what is the case. */
  lemma ErrorsExplain(i: Inputs)
    requires BuildOf(i).Err?
    ensures Explains(i, Names(i), BuildOf(i).error)
  {
    if PathProblem(i, i.paths).Some? {
      PathProblemMeans(i, i.paths);
    } else if !NoRepeats(MapSeq(Graph.PathId, i.paths)) {
      NoRepeatsSpec(MapSeq(Graph.PathId, i.paths));
      MapAt(Graph.PathId, i.paths);
    } else {
      var r := ProcessFails(Names(i), Requests(i, Names(i)), {});
      RequestFails(i, r, BuildOf(i).error);
    }
  }
}
