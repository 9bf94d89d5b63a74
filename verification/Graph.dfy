/** The evidence graph builder (src/nova_rtl/evidence/graph.py). SHA-256 identifiers are
    modelled by what they are computed from, so as if hashing were injective. */
module Graph {
  import opened Prelude
  import opened Text

  // ----------------------------------------------------------------------------- inputs

  datatype Span = Span(id: string, detail: string)

  datatype ObjectKind = CELL | PIN | PORT

  datatype Mapped = Mapped(objectId: string, name: string, kind: ObjectKind, owner: string, moduleType: string,
                           cellType: Option<string>, spans: seq<string>, aliases: seq<string>, detail: string)

  datatype Connection = Connection(net: string, source: string, destination: string)

  datatype View = View(id: string, physicalHash: string, detail: string)

  datatype Master = Master(id: string, domain: string, detail: string)

  datatype Generated = Generated(id: string, domain: string, master: string, detail: string)

  datatype Lineage = Lineage(parent: string, child: string)

  datatype Crossing = Crossing(id: string, source: string, destination: string, detail: string)

  datatype Path = Path(id: string, group: string, view: string, launch: string, capture: string, objects: seq<string>,
                       spans: seq<string>, slack: real, detail: string)

  datatype Inputs = Inputs(spans: seq<Span>, objects: seq<Mapped>, connections: seq<Connection>, bindingHash: string,
                           views: seq<View>, masters: seq<Master>, generated: seq<Generated>, lineage: seq<Lineage>,
                           crossings: seq<Crossing>, paths: seq<Path>)

  // -------------------------------------------------------------------- nodes and edges

  datatype NodeKind =
    | SOURCE_SPAN | MODULE | REGISTER | EXPRESSION | MAPPED(kind: ObjectKind) | NET | CONSTRAINT_BINDING | ANALYSIS_VIEW
    | PHYSICAL_REGION | CLOCK_DOMAIN | CLOCK | GENERATED_CLOCK | CDC_STRUCTURE | PATH_GROUP | TIMING_PATH | VIOLATION

  /** A semantic identity: given, or hashed from its parts. */
  datatype SemanticId = Plain(id: string) | Hashed(prefix: string, parts: seq<string>) | HashedSlack(path: string, slack: real)

  datatype NodeId = NodeId(kind: NodeKind, semantic: SemanticId)

  /** The record, and where it has one the index in its artifact, that fix a node. */
  datatype Content =
    | OfSpan(span: Span, index: nat)
    | OfModule(owner: string, moduleType: string)
    | OfObject(mapped: Mapped, index: nat)
    | OfNet(net: string, connections: nat)
    | OfConstraint(bindingHash: string)
    | OfView(view: View)
    | OfRegion(view: View)
    | OfDomain(domain: string)
    | OfMaster(master: Master)
    | OfGenerated(generated: Generated)
    | OfCrossing(crossing: Crossing)
    | OfGroup(group: string)
    | OfPath(path: Path, index: nat)
    | OfViolation(path: Path, index: nat)

  datatype EdgeKind =
    | CONTAINS | MAPS_TO | CONNECTS | DATA_DEPENDENCY | TIMING_ARC | LAUNCHES | CAPTURES | CLOCKED_BY | GENERATED_FROM
    | CROSSES_DOMAIN | PROTECTED_BY | NEAR_PROTECTED_BOUNDARY | IN_ANALYSIS_VIEW | MEMBER_OF_PATH_GROUP | HAS_VIOLATION
    | RESOLVES_CONSTRAINT | PHYSICALLY_NEAR

  /** An edge is fixed by what its identifier is hashed from. */
  datatype Edge = Edge(kind: EdgeKind, source: NodeId, target: NodeId, role: string)

  datatype GraphError = UnknownView | UnknownSpan | DuplicatePath | KeyError | SelfEdge | UnresolvedEndpoint | UnmappedObject | EmptyPath

  datatype Document = Document(nodes: map<NodeId, Content>, edges: set<Edge>)

  /** One call of `add_node`. */
  datatype NodeAdd = NodeAdd(id: NodeId, name: string, content: Content)

  function AddId(a: NodeAdd): NodeId { a.id }
  function AddName(a: NodeAdd): string { a.name }

  /** One call of `add_edge`, its ends still as the program looks them up; or the error
      raised in its place. */
  datatype End = Named(name: string) | Known(id: NodeId)
  datatype Request = Link(kind: EdgeKind, source: End, target: End, role: string) | Reject(error: GraphError)

  // -------------------------------------------------------------------------- add_node

  predicate SpanLe(a: Span, b: Span) { StrLe(a.id, b.id) }
  predicate MappedLe(a: Mapped, b: Mapped) { StrLe(a.name, b.name) }
  predicate PathLe(a: Path, b: Path) { StrLe(a.id, b.id) }

  function SpanAdds(spans: seq<Span>, k: nat): seq<NodeAdd> {
    if spans == [] then []
    else [NodeAdd(NodeId(SOURCE_SPAN, Plain(spans[0].id)), "source:" + spans[0].id, OfSpan(spans[0], k))] + SpanAdds(spans[1..], k + 1)
  }

  function ModuleId(owner: string, moduleType: string): NodeId { NodeId(MODULE, Hashed("module", [moduleType, owner])) }

  /** A module node for each owner and type not met before. */
  function ModuleAdds(objects: seq<Mapped>, met: set<(string, string)>): seq<NodeAdd> {
    if objects == [] then []
    else
      var (owner, moduleType) := (objects[0].owner, objects[0].moduleType);
      if (owner, moduleType) in met then ModuleAdds(objects[1..], met)
      else
        [NodeAdd(ModuleId(owner, moduleType), "module:" + owner + ":" + moduleType, OfModule(owner, moduleType))]
        + ModuleAdds(objects[1..], met + {(owner, moduleType)})
  }

  predicate Contains(s: string, part: string) {
    part <= s || (s != "" && Contains(s[1..], part))
  }

  function ObjectNodeKind(m: Mapped, types: set<string>): NodeKind {
    if m.kind == CELL && Contains(Upper(if m.cellType.Some? then m.cellType.value else ""), "DFF") then REGISTER
    else if m.kind == CELL && (m.cellType.None? || m.cellType.value !in types) then EXPRESSION
    else MAPPED(m.kind)
  }

  function ObjectId(m: Mapped, types: set<string>): NodeId { NodeId(ObjectNodeKind(m, types), Plain(m.objectId)) }

  function ObjectAdds(objects: seq<Mapped>, types: set<string>, k: nat): seq<NodeAdd> {
    if objects == [] then []
    else [NodeAdd(ObjectId(objects[0], types), objects[0].name, OfObject(objects[0], k))] + ObjectAdds(objects[1..], types, k + 1)
  }

  function NetOf(c: Connection): string { c.net }

  function NetAdd(connections: seq<Connection>): string -> NodeAdd {
    (net: string) => NodeAdd(NodeId(NET, Plain(net)), "net:" + net, OfNet(net, multiset(MapSeq(NetOf, connections))[net]))
  }

  function ConstraintId(bindingHash: string): NodeId { NodeId(CONSTRAINT_BINDING, Hashed("constraint_binding", [bindingHash])) }

  function ViewId(v: View): NodeId { NodeId(ANALYSIS_VIEW, Plain(v.id)) }
  function RegionId(v: View): NodeId { NodeId(PHYSICAL_REGION, Hashed("physical_region", [v.id, v.physicalHash])) }

  function ViewAdds(v: View): seq<NodeAdd> {
    [NodeAdd(ViewId(v), "view:" + v.id, OfView(v)), NodeAdd(RegionId(v), "physical:" + v.id, OfRegion(v))]
  }

  function DomainNode(domain: string): NodeId { NodeId(CLOCK_DOMAIN, Plain(domain)) }
  function DomainAdd(domain: string): NodeAdd { NodeAdd(DomainNode(domain), "domain:" + domain, OfDomain(domain)) }

  function MasterAdd(m: Master): NodeAdd { NodeAdd(NodeId(CLOCK, Plain(m.id)), "clock:" + m.id, OfMaster(m)) }

  function GeneratedAdd(g: Generated): NodeAdd { NodeAdd(NodeId(GENERATED_CLOCK, Plain(g.id)), "clock:" + g.id, OfGenerated(g)) }

  function CrossingNode(c: Crossing): NodeId { NodeId(CDC_STRUCTURE, Plain(c.id)) }
  function CrossingAdd(c: Crossing): NodeAdd { NodeAdd(CrossingNode(c), "cdc:" + c.id, OfCrossing(c)) }

  function GroupNode(group: string): NodeId { NodeId(PATH_GROUP, Hashed("path_group", [group])) }
  function GroupAdd(group: string): NodeAdd { NodeAdd(GroupNode(group), "path_group:" + group, OfGroup(group)) }

  function PathNode(p: Path): NodeId { NodeId(TIMING_PATH, Plain(p.id)) }
  function ViolationNode(p: Path): NodeId { NodeId(VIOLATION, HashedSlack(p.id, p.slack)) }

  function PathAdds(paths: seq<Path>, k: nat): seq<NodeAdd> {
    if paths == [] then []
    else
      [NodeAdd(PathNode(paths[0]), "path:" + paths[0].id, OfPath(paths[0], k))]
      + (if paths[0].slack < 0.0 then [NodeAdd(ViolationNode(paths[0]), "violation:" + paths[0].id, OfViolation(paths[0], k))] else [])
      + PathAdds(paths[1..], k + 1)
  }

  function Nets(i: Inputs): set<string> { set c | c in i.connections :: c.net }
  function Types(i: Inputs): set<string> { set m | m in i.objects :: m.moduleType }
  function Domains(i: Inputs): set<string> { (set m | m in i.masters :: m.domain) + (set g | g in i.generated :: g.domain) }
  function Groups(i: Inputs): set<string> { set p | p in i.paths :: p.group }

  function Ordered(i: Inputs): seq<Mapped> { SortBy(i.objects, MappedLe) }
  function OrderedPaths(i: Inputs): seq<Path> { SortBy(i.paths, PathLe) }

  /** The part that does not depend on clocks, crossings or paths. */
  function StructureAdds(i: Inputs): seq<NodeAdd> {
    SpanAdds(SortBy(i.spans, SpanLe), 0) + ModuleAdds(Ordered(i), {}) + ObjectAdds(Ordered(i), Types(i), 0)
    + MapSeq(NetAdd(i.connections), SortedOf(Nets(i)))
    + [NodeAdd(ConstraintId(i.bindingHash), "constraint:resolved_binding", OfConstraint(i.bindingHash))]
    + FlatMap(ViewAdds, i.views)
  }

  function ClockAdds(i: Inputs): seq<NodeAdd> {
    MapSeq(DomainAdd, SortedOf(Domains(i))) + MapSeq(MasterAdd, i.masters) + MapSeq(GeneratedAdd, i.generated)
  }

  function TimingAdds(i: Inputs): seq<NodeAdd> {
    MapSeq(CrossingAdd, i.crossings) + MapSeq(GroupAdd, SortedOf(Groups(i))) + PathAdds(OrderedPaths(i), 0)
  }

  function Adds(i: Inputs): seq<NodeAdd> { StructureAdds(i) + ClockAdds(i) + TimingAdds(i) }

  /** The dictionary `nodes` after these calls. */
  function NodesOf(adds: seq<NodeAdd>): map<NodeId, Content> {
    if adds == [] then map[]
    else
      var last := adds[|adds| - 1];
      NodesOf(adds[..|adds| - 1])[last.id := last.content]
  }

  /** The dictionary `semantic_nodes` after these calls. */
  function NamesOf(adds: seq<NodeAdd>): map<string, NodeId> {
    if adds == [] then map[]
    else
      var last := adds[|adds| - 1];
      NamesOf(adds[..|adds| - 1])[last.name := last.id]
  }

  /** Both dictionaries hold the last call under each key. */
  lemma {:induction false} NodesAreLast(adds: seq<NodeAdd>)
    ensures NodesOf(adds).Keys == ById(AddId, adds).Keys
    ensures forall id :: id in NodesOf(adds) ==> NodesOf(adds)[id] == ById(AddId, adds)[id].content
  {
    if adds != [] { NodesAreLast(adds[..|adds| - 1]); }
  }

  lemma {:induction false} NamesAreLast(adds: seq<NodeAdd>)
    ensures NamesOf(adds).Keys == ById(AddName, adds).Keys
    ensures forall name :: name in NamesOf(adds) ==> NamesOf(adds)[name] == ById(AddName, adds)[name].id
  {
    if adds != [] { NamesAreLast(adds[..|adds| - 1]); }
  }

  // -------------------------------------------------------------------------- add_edge

  function Simple(kind: EdgeKind, source: End, target: End): Request { Link(kind, source, target, "") }

  function SpanLink(source: End): string -> Request {
    (span: string) => Simple(MAPS_TO, source, Named("source:" + span))
  }

  function ObjectLinks(m: Mapped): seq<Request> {
    [Simple(CONTAINS, Known(ModuleId(m.owner, m.moduleType)), Named(m.name))] + MapSeq(SpanLink(Named(m.name)), m.spans)
  }

  function ConnectionLinks(c: Connection): seq<Request> {
    [Simple(CONNECTS, Named(c.source), Named("net:" + c.net)),
     Simple(CONNECTS, Named("net:" + c.net), Named(c.destination)),
     Simple(DATA_DEPENDENCY, Named(c.source), Named(c.destination))]
  }

  function LineageLink(l: Lineage): Request { Simple(GENERATED_FROM, Named("clock:" + l.child), Named("clock:" + l.parent)) }
  function MasterLink(m: Master): Request { Simple(CONTAINS, Known(DomainNode(m.domain)), Named("clock:" + m.id)) }
  function GeneratedLink(g: Generated): Request { Simple(CONTAINS, Known(DomainNode(g.domain)), Named("clock:" + g.id)) }

  function ViewLinks(bindingHash: string): View -> seq<Request> {
    (v: View) => [Simple(RESOLVES_CONSTRAINT, Named("view:" + v.id), Known(ConstraintId(bindingHash))),
                  Simple(PHYSICALLY_NEAR, Named("view:" + v.id), Named("physical:" + v.id))]
  }

  /** split(":", maxsplit=1)[-1]. */
  function AfterColon(s: string): string { if ':' !in s then s else if s[0] == ':' then s[1..] else AfterColon(s[1..]) }

  /** split("[", maxsplit=1)[0]. */
  function BeforeBracket(s: string): string { if s == "" || s[0] == '[' then "" else [s[0]] + BeforeBracket(s[1..]) }

  /** rsplit("/", maxsplit=1)[-1]. */
  function LastPart(s: string): string { if '/' !in s then s else LastPart(s[1..]) }

  predicate MatchesStructural(name: string, endpoint: string) {
    var base, end := BeforeBracket(AfterColon(name)), AfterColon(endpoint);
    base == end || end + "/" <= base
  }

  predicate MatchesLeaf(name: string, endpoint: string) {
    LastPart(BeforeBracket(AfterColon(name))) == LastPart(AfterColon(endpoint))
  }

  function DirectMatch(endpoint: string): Mapped -> bool {
    (m: Mapped) => MatchesStructural(m.name, endpoint) || exists a :: a in m.aliases && MatchesStructural(a, endpoint)
  }

  function LeafMatch(endpoint: string): Mapped -> bool {
    (m: Mapped) => exists a :: a in m.aliases && MatchesLeaf(a, endpoint)
  }

  /** The objects an endpoint stands for: structural matches, else matches by leaf name. */
  function Matching(objects: seq<Mapped>, endpoint: string): seq<Mapped> {
    var direct := Filter(DirectMatch(endpoint), objects);
    if direct != [] then direct else Filter(LeafMatch(endpoint), objects)
  }

  /** The objects connected to this one, in either direction. */
  function Neighbors(connections: seq<Connection>, name: string): set<string> {
    if connections == [] then {}
    else
      var last := connections[|connections| - 1];
      Neighbors(connections[..|connections| - 1], name)
      + (if last.source == name then {last.destination} else {})
      + (if last.destination == name then {last.source} else {})
  }

  predicate Joins(c: Connection, a: string, b: string) {
    (c.source == a && c.destination == b) || (c.source == b && c.destination == a)
  }

  ghost predicate Linked(connections: seq<Connection>, a: string, b: string) {
    exists c :: c in connections && Joins(c, a, b)
  }

  lemma LinkedSnoc(front: seq<Connection>, last: Connection, a: string, b: string)
    ensures Linked(front + [last], a, b) <==> Linked(front, a, b) || Joins(last, a, b)
  {
    var all := front + [last];
    if Linked(all, a, b) {
      var c :| c in all && Joins(c, a, b);
      assert c in front || c == last;
    }
    if Linked(front, a, b) {
      var c :| c in front && Joins(c, a, b);
      assert c in all;
    }
    if Joins(last, a, b) { assert last in all; }
  }

  /** Neighbours are exactly the objects some connection joins, whichever way it runs. */
  lemma {:induction false} NeighborIff(connections: seq<Connection>, a: string, b: string)
    ensures b in Neighbors(connections, a) <==> Linked(connections, a, b)
  {
    if connections != [] {
      var front, last := connections[..|connections| - 1], connections[|connections| - 1];
      assert connections == front + [last];
      NeighborIff(front, a, b);
      LinkedSnoc(front, last, a, b);
    }
  }

  function NearLink(crossing: string, role: string): string -> Request {
    (neighbor: string) => Link(NEAR_PROTECTED_BOUNDARY, Named(neighbor), Named("cdc:" + crossing), role)
  }

  function MatchedLinks(connections: seq<Connection>, crossing: string, role: string): Mapped -> seq<Request> {
    (m: Mapped) =>
      [Link(CROSSES_DOMAIN, Named(m.name), Named("cdc:" + crossing), role), Simple(PROTECTED_BY, Named(m.name), Named("cdc:" + crossing))]
      + MapSeq(NearLink(crossing, role), SortedOf(Neighbors(connections, m.name)))
  }

  function EndpointLinks(i: Inputs, crossing: string, role: string, endpoint: string): seq<Request> {
    var matching := Matching(Ordered(i), endpoint);
    if matching == [] then [Reject(UnresolvedEndpoint)] else FlatMap(MatchedLinks(i.connections, crossing, role), matching)
  }

  function CrossingLinks(i: Inputs): Crossing -> seq<Request> {
    (c: Crossing) => EndpointLinks(i, c.id, "source", c.source) + EndpointLinks(i, c.id, "destination", c.destination)
  }

  function Arcs(objects: seq<string>): seq<Request> {
    if |objects| < 2 then [] else [Simple(TIMING_ARC, Named(objects[0]), Named(objects[1]))] + Arcs(objects[1..])
  }

  function Me(p: Path): End { Named("path:" + p.id) }

  function PathEnds(p: Path): seq<Request>
    requires p.objects != []
  {
    [Simple(LAUNCHES, Me(p), Named(p.objects[0])), Simple(CAPTURES, Me(p), Named(p.objects[|p.objects| - 1]))]
  }

  function PathRoles(p: Path): seq<Request> {
    [Link(CLOCKED_BY, Me(p), Named("clock:" + p.launch), "launch"), Link(CLOCKED_BY, Me(p), Named("clock:" + p.capture), "capture"),
     Simple(IN_ANALYSIS_VIEW, Me(p), Named("view:" + p.view)), Simple(MEMBER_OF_PATH_GROUP, Me(p), Known(GroupNode(p.group)))]
  }

  function PathViolation(names: map<string, NodeId>, p: Path): seq<Request> {
    if "violation:" + p.id in names then [Simple(HAS_VIOLATION, Me(p), Named("violation:" + p.id))] else []
  }

  function LinksOfPath(names: map<string, NodeId>, p: Path): seq<Request> {
    if exists n :: n in p.objects && n !in names then [Reject(UnmappedObject)]
    else if p.objects == [] then [Reject(EmptyPath)]
    else PathEnds(p) + Arcs(p.objects) + PathRoles(p) + PathViolation(names, p) + MapSeq(SpanLink(Me(p)), p.spans)
  }

  function PathLinks(names: map<string, NodeId>): Path -> seq<Request> { (p: Path) => LinksOfPath(names, p) }

  /** The calls of `add_edge` before those for the paths. */
  function FrontRequests(i: Inputs): seq<Request> {
    FlatMap(ObjectLinks, Ordered(i)) + FlatMap(ConnectionLinks, i.connections)
    + MapSeq(LineageLink, i.lineage) + MapSeq(MasterLink, i.masters) + MapSeq(GeneratedLink, i.generated)
    + FlatMap(ViewLinks(i.bindingHash), i.views) + FlatMap(CrossingLinks(i), i.crossings)
  }

  /** All calls of `add_edge`, in order. */
  function Requests(i: Inputs, names: map<string, NodeId>): seq<Request> {
    FrontRequests(i) + FlatMap(PathLinks(names), OrderedPaths(i))
  }

  function Find(names: map<string, NodeId>, e: End): Option<NodeId> {
    match e
    case Known(id) => Some(id)
    case Named(name) => if name in names then Some(names[name]) else None
  }

  /** What one call leads to. */
  function Attempt(names: map<string, NodeId>, r: Request): Result<Edge, GraphError> {
    match r
    case Reject(error) => Err(error)
    case Link(kind, source, target, role) =>
      var (s, t) := (Find(names, source), Find(names, target));
      if s.None? || t.None? then Err(KeyError)
      else if s.value == t.value then Err(SelfEdge)
      else Ok(Edge(kind, s.value, t.value, role))
  }

  function Process(names: map<string, NodeId>, rs: seq<Request>, edges: set<Edge>): Result<set<Edge>, GraphError>
    decreases rs
  {
    if rs == [] then Ok(edges)
    else
      match Attempt(names, rs[0])
      case Err(e) => Err(e)
      case Ok(edge) => Process(names, rs[1..], edges + {edge})
  }

  // ---------------------------------------------------------------------------- build

  predicate HasView(i: Inputs, id: string) { exists v :: v in i.views && v.id == id }

  predicate HasSpan(i: Inputs, id: string) { exists s :: s in i.spans && s.id == id }

  /** The path checks of `_validated_inputs`, then the uniqueness that `_path_collection`
      demands of the sorted records. */
  function PathProblem(i: Inputs, paths: seq<Path>): Option<GraphError> {
    if paths == [] then None
    else if !HasView(i, paths[0].view) then Some(UnknownView)
    else if exists s :: s in paths[0].spans && !HasSpan(i, s) then Some(UnknownSpan)
    else PathProblem(i, paths[1..])
  }

  function PathId(p: Path): string { p.id }

  function BuildOf(i: Inputs): Result<Document, GraphError> {
    var problem := PathProblem(i, i.paths);
    if problem.Some? then Err(problem.value)
    else if !NoRepeats(MapSeq(PathId, i.paths)) then Err(DuplicatePath)
    else
      match Process(NamesOf(Adds(i)), Requests(i, NamesOf(Adds(i))), {})
      case Err(e) => Err(e)
      case Ok(edges) => Ok(Document(NodesOf(Adds(i)), edges))
  }

  class GraphBuilder {
    var nodes: map<NodeId, Content>
    var names: map<string, NodeId>
    var edges: set<Edge>

    constructor ()
      ensures nodes == NodesOf([]) && names == NamesOf([]) && edges == {}
    {
      nodes, names, edges := map[], map[], {};
    }

    method AddNode(a: NodeAdd)
      modifies this
      ensures nodes == old(nodes)[a.id := a.content] && names == old(names)[a.name := a.id] && edges == old(edges)
    {
      nodes := nodes[a.id := a.content];
      names := names[a.name := a.id];
    }

    method AddNodes(adds: seq<NodeAdd>, ghost before: seq<NodeAdd>)
      requires nodes == NodesOf(before) && names == NamesOf(before)
      modifies this
      ensures nodes == NodesOf(before + adds) && names == NamesOf(before + adds) && edges == old(edges)
    {
      var k := 0;
      assert before + adds[..0] == before;
      while k < |adds|
        invariant 0 <= k <= |adds| && edges == old(edges)
        invariant nodes == NodesOf(before + adds[..k]) && names == NamesOf(before + adds[..k])
      {
        TablesSnoc(before + adds[..k], adds[k]);
        assert before + adds[..k + 1] == (before + adds[..k]) + [adds[k]];
        AddNode(adds[k]);
        k := k + 1;
      }
      assert adds[..k] == adds;
    }

    /** `add_edge`: the edge validator refuses a self-referential edge. */
    method AddEdge(r: Request) returns (failure: Option<GraphError>)
      modifies this`edges
      ensures failure.None? ==> Attempt(names, r).Ok? && edges == old(edges) + {Attempt(names, r).value}
      ensures failure.Some? ==> Attempt(names, r) == Err(failure.value) && edges == old(edges)
    {
      match r
      case Reject(error) => return Some(error);
      case Link(kind, source, target, role) =>
        var s, t := Find(names, source), Find(names, target);
        if s.None? || t.None? { return Some(KeyError); }
        if s.value == t.value { return Some(SelfEdge); }
        edges := edges + {Edge(kind, s.value, t.value, role)};
        failure := None;
    }

    method AddEdges(rs: seq<Request>) returns (failure: Option<GraphError>)
      modifies this`edges
      ensures Process(names, rs, old(edges)) == if failure.Some? then Err(failure.value) else Ok(edges)
    {
      var k := 0;
      assert rs[0..] == rs;
      while k < |rs|
        invariant 0 <= k <= |rs| && Process(names, rs, old(edges)) == Process(names, rs[k..], edges)
      {
        assert rs[k..][0] == rs[k] && rs[k..][1..] == rs[k + 1..];
        failure := AddEdge(rs[k]);
        if failure.Some? { return; }
        k := k + 1;
      }
      failure := None;
    }
  }

  lemma TablesSnoc(adds: seq<NodeAdd>, a: NodeAdd)
    ensures NodesOf(adds + [a]) == NodesOf(adds)[a.id := a.content]
    ensures NamesOf(adds + [a]) == NamesOf(adds)[a.name := a.id]
  {
    assert (adds + [a])[..|adds|] == adds;
  }

  /** `_build_document` behind its input checks. */
  method BuildGraph(i: Inputs) returns (r: Result<Document, GraphError>)
    ensures r == BuildOf(i)
  {
    var problem := PathProblem(i, i.paths);
    if problem.Some? { return Err(problem.value); }
    if !NoRepeats(MapSeq(PathId, i.paths)) { return Err(DuplicatePath); }
    var builder := new GraphBuilder();
    builder.AddNodes(Adds(i), []);
    assert [] + Adds(i) == Adds(i);
    var failure := builder.AddEdges(Requests(i, builder.names));
    r := if failure.Some? then Err(failure.value) else Ok(Document(builder.nodes, builder.edges));
  }

  function LookUp(table: map<string, set<string>>, name: string): set<string> { if name in table then table[name] else {} }

  lemma NeighborsSnoc(connections: seq<Connection>, c: Connection, name: string)
    ensures Neighbors(connections + [c], name)
              == Neighbors(connections, name) + (if c.source == name then {c.destination} else {})
                 + (if c.destination == name then {c.source} else {})
  {
    assert (connections + [c])[..|connections|] == connections;
  }

  function WithBoth(table: map<string, set<string>>, c: Connection): map<string, set<string>> {
    var once := table[c.source := LookUp(table, c.source) + {c.destination}];
    once[c.destination := LookUp(once, c.destination) + {c.source}]
  }

  lemma BothLookedUp(table: map<string, set<string>>, c: Connection, name: string)
    ensures LookUp(WithBoth(table, c), name)
              == LookUp(table, name) + (if c.source == name then {c.destination} else {})
                 + (if c.destination == name then {c.source} else {})
  {
  }

  /** The loop that fills `connectivity_neighbors`. */
  method BuildNeighbors(connections: seq<Connection>) returns (table: map<string, set<string>>)
    ensures forall n :: LookUp(table, n) == Neighbors(connections, n)
  {
    table := map[];
    var k := 0;
    while k < |connections|
      invariant 0 <= k <= |connections|
      invariant forall n :: LookUp(table, n) == Neighbors(connections[..k], n)
    {
      var c := connections[k];
      ghost var before := table;
      table := table[c.source := LookUp(table, c.source) + {c.destination}];
      table := table[c.destination := LookUp(table, c.destination) + {c.source}];
      assert table == WithBoth(before, c);
      forall n ensures LookUp(table, n) == Neighbors(connections[..k + 1], n) {
        assert connections[..k + 1] == connections[..k] + [c];
        NeighborsSnoc(connections[..k], c, n);
        BothLookedUp(before, c, n);
        assert LookUp(before, n) == Neighbors(connections[..k], n);
      }
      k := k + 1;
    }
    assert connections[..k] == connections;
  }
}
