/** The evidence graph (src/nova_rtl/evidence/graph.py) does not depend on the order in
    which clocks, lineage edges, crossings and critical paths are listed: the dictionaries
    agree section by section, and the calls of `add_edge` agree as sets. */
module GraphOrder {
  import opened Prelude
  import opened Graph
  import opened GraphTheorems

  function MasterId(m: Master): string { m.id }
  function GeneratedId(g: Generated): string { g.id }
  function CrossingId(c: Crossing): string { c.id }

  /** Unique IDs, as the validators of the clock and crossing inventories demand. */
  ghost predicate UniqueClocks(i: Inputs) {
    && Distinct(MapSeq(MasterId, i.masters)) && Distinct(MapSeq(GeneratedId, i.generated)) && Distinct(MapSeq(CrossingId, i.crossings))
  }

  /** The same records, listed in another order. */
  ghost predicate Relisted(i: Inputs, j: Inputs) {
    && i.spans == j.spans && i.objects == j.objects && i.connections == j.connections
    && i.bindingHash == j.bindingHash && i.views == j.views
    && multiset(i.masters) == multiset(j.masters) && multiset(i.generated) == multiset(j.generated)
    && multiset(i.lineage) == multiset(j.lineage) && multiset(i.crossings) == multiset(j.crossings)
    && multiset(i.paths) == multiset(j.paths)
  }

  // --------------------------------------------------------------------- input checks

  predicate PathFine(i: Inputs, p: Path) { HasView(i, p.view) && forall s :: s in p.spans ==> HasSpan(i, s) }

  lemma {:induction false} PathProblemNone(i: Inputs, paths: seq<Path>)
    ensures PathProblem(i, paths).None? <==> forall p :: p in paths ==> PathFine(i, p)
  {
    if paths != [] {
      var rest := paths[1..];
      PathProblemNone(i, rest);
      assert paths == [paths[0]] + rest && paths[0] in paths;
      assert forall p :: p in rest ==> p in paths;
      assert PathProblem(i, paths).None? <==> PathFine(i, paths[0]) && PathProblem(i, rest).None?;
    }
  }

  lemma ChecksRelisted(i: Inputs, j: Inputs)
    requires Relisted(i, j)
    ensures PathProblem(i, i.paths).None? <==> PathProblem(j, j.paths).None?
    ensures NoRepeats(MapSeq(PathId, i.paths)) <==> NoRepeats(MapSeq(PathId, j.paths))
  {
    SameElements(i.paths, j.paths);
    PathProblemNone(i, i.paths);
    PathProblemNone(j, j.paths);
    assert forall p :: PathFine(i, p) <==> PathFine(j, p);
    MapRearranged(PathId, i.paths, j.paths);
    DistinctRearranged(MapSeq(PathId, i.paths), MapSeq(PathId, j.paths));
    NoRepeatsSpec(MapSeq(PathId, i.paths));
    NoRepeatsSpec(MapSeq(PathId, j.paths));
  }

  lemma PathsNoTies(paths: seq<Path>)
    requires NoRepeats(MapSeq(PathId, paths))
    ensures NoTies(paths, PathLe) && Preorder(PathLe)
  {
    StrLePreorder();
    NoRepeatsSpec(MapSeq(PathId, paths));
    MapAt(PathId, paths);
    forall a, b | a in paths && b in paths && PathLe(a, b) && PathLe(b, a) ensures a == b {
      StrLeAntisymmetric(a.id, b.id);
      var x :| 0 <= x < |paths| && paths[x] == a;
      var y :| 0 <= y < |paths| && paths[y] == b;
      assert MapSeq(PathId, paths)[x] == MapSeq(PathId, paths)[y];
    }
  }

  lemma PathsRelisted(i: Inputs, j: Inputs)
    requires Relisted(i, j) && NoRepeats(MapSeq(PathId, i.paths))
    ensures OrderedPaths(i) == OrderedPaths(j) && Groups(i) == Groups(j) && Domains(i) == Domains(j)
  {
    PathsNoTies(i.paths);
    SortByOrderFree(i.paths, j.paths, PathLe);
    SameElements(i.paths, j.paths);
    SameElements(i.masters, j.masters);
    SameElements(i.generated, j.generated);
  }

  // --------------------------------------------------------------------------- tables

  lemma SectionRelisted<K(!new), T(!new)>(key: NodeAdd -> K, f: T -> NodeAdd, a: seq<T>, b: seq<T>)
    requires multiset(a) == multiset(b) && Distinct(MapSeq(key, MapSeq(f, a)))
    ensures ById(key, MapSeq(f, a)) == ById(key, MapSeq(f, b))
  {
    MapRearranged(f, a, b);
    MapRearranged(key, MapSeq(f, a), MapSeq(f, b));
    DistinctRearranged(MapSeq(key, MapSeq(f, a)), MapSeq(key, MapSeq(f, b)));
    RearrangedSameTable(key, MapSeq(f, a), MapSeq(f, b));
  }

  lemma MasterKeys(ms: seq<Master>)
    requires Distinct(MapSeq(MasterId, ms))
    ensures Distinct(MapSeq(AddId, MapSeq(MasterAdd, ms))) && Distinct(MapSeq(AddName, MapSeq(MasterAdd, ms)))
  {
    MapAt(MasterId, ms);
    MapAt(MasterAdd, ms);
    var adds := MapSeq(MasterAdd, ms);
    MapAt(AddId, adds);
    MapAt(AddName, adds);
    forall x, y | 0 <= x < y < |ms| ensures MapSeq(AddId, adds)[x] != MapSeq(AddId, adds)[y] && MapSeq(AddName, adds)[x] != MapSeq(AddName, adds)[y] {
      assert MapSeq(MasterId, ms)[x] != MapSeq(MasterId, ms)[y];
      SuffixesDiffer("clock:", ms[x].id, ms[y].id);
    }
  }

  lemma SuffixesDiffer(prefix: string, a: string, b: string)
    requires a != b
    ensures prefix + a != prefix + b
  {
    assert (prefix + a)[|prefix|..] == a && (prefix + b)[|prefix|..] == b;
  }

  lemma GeneratedKeys(gs: seq<Generated>)
    requires Distinct(MapSeq(GeneratedId, gs))
    ensures Distinct(MapSeq(AddId, MapSeq(GeneratedAdd, gs))) && Distinct(MapSeq(AddName, MapSeq(GeneratedAdd, gs)))
  {
    MapAt(GeneratedId, gs);
    MapAt(GeneratedAdd, gs);
    var adds := MapSeq(GeneratedAdd, gs);
    MapAt(AddId, adds);
    MapAt(AddName, adds);
    forall x, y | 0 <= x < y < |gs| ensures MapSeq(AddId, adds)[x] != MapSeq(AddId, adds)[y] && MapSeq(AddName, adds)[x] != MapSeq(AddName, adds)[y] {
      assert MapSeq(GeneratedId, gs)[x] != MapSeq(GeneratedId, gs)[y];
      SuffixesDiffer("clock:", gs[x].id, gs[y].id);
    }
  }

  lemma CrossingKeys(cs: seq<Crossing>)
    requires Distinct(MapSeq(CrossingId, cs))
    ensures Distinct(MapSeq(AddId, MapSeq(CrossingAdd, cs))) && Distinct(MapSeq(AddName, MapSeq(CrossingAdd, cs)))
  {
    MapAt(CrossingId, cs);
    MapAt(CrossingAdd, cs);
    var adds := MapSeq(CrossingAdd, cs);
    MapAt(AddId, adds);
    MapAt(AddName, adds);
    forall x, y | 0 <= x < y < |cs| ensures MapSeq(AddId, adds)[x] != MapSeq(AddId, adds)[y] && MapSeq(AddName, adds)[x] != MapSeq(AddName, adds)[y] {
      assert MapSeq(CrossingId, cs)[x] != MapSeq(CrossingId, cs)[y];
      SuffixesDiffer("cdc:", cs[x].id, cs[y].id);
    }
  }

  /** A table of all calls is put together from the tables of the sections. */
  lemma TableBySections<K>(key: NodeAdd -> K, i: Inputs)
    ensures ById(key, Adds(i)) == ById(key, StructureAdds(i))
              + (ById(key, MapSeq(DomainAdd, SortedOf(Domains(i)))) + ById(key, MapSeq(MasterAdd, i.masters))
                 + ById(key, MapSeq(GeneratedAdd, i.generated)))
              + (ById(key, MapSeq(CrossingAdd, i.crossings)) + ById(key, MapSeq(GroupAdd, SortedOf(Groups(i))))
                 + ById(key, PathAdds(OrderedPaths(i), 0)))
  {
    var d, m, g := MapSeq(DomainAdd, SortedOf(Domains(i))), MapSeq(MasterAdd, i.masters), MapSeq(GeneratedAdd, i.generated);
    var c, u, p := MapSeq(CrossingAdd, i.crossings), MapSeq(GroupAdd, SortedOf(Groups(i))), PathAdds(OrderedPaths(i), 0);
    ByIdConcat(key, d, m);
    ByIdConcat(key, d + m, g);
    ByIdConcat(key, c, u);
    ByIdConcat(key, c + u, p);
    ByIdConcat(key, StructureAdds(i), ClockAdds(i));
    ByIdConcat(key, StructureAdds(i) + ClockAdds(i), TimingAdds(i));
  }

  lemma TablesRelisted(i: Inputs, j: Inputs)
    requires Relisted(i, j) && UniqueClocks(i) && NoRepeats(MapSeq(PathId, i.paths))
    ensures ById(AddId, Adds(i)) == ById(AddId, Adds(j)) && ById(AddName, Adds(i)) == ById(AddName, Adds(j))
  {
    PathsRelisted(i, j);
    assert StructureAdds(i) == StructureAdds(j);
    MasterKeys(i.masters);
    GeneratedKeys(i.generated);
    CrossingKeys(i.crossings);
    TableBySections(AddId, i);
    TableBySections(AddId, j);
    SectionRelisted(AddId, MasterAdd, i.masters, j.masters);
    SectionRelisted(AddId, GeneratedAdd, i.generated, j.generated);
    SectionRelisted(AddId, CrossingAdd, i.crossings, j.crossings);
    TableBySections(AddName, i);
    TableBySections(AddName, j);
    SectionRelisted(AddName, MasterAdd, i.masters, j.masters);
    SectionRelisted(AddName, GeneratedAdd, i.generated, j.generated);
    SectionRelisted(AddName, CrossingAdd, i.crossings, j.crossings);
  }

  // ------------------------------------------------------------------------- requests

  lemma MappedRelisted<T(!new)>(f: T -> Request, a: seq<T>, b: seq<T>)
    requires multiset(a) == multiset(b)
    ensures SetOf(MapSeq(f, a)) == SetOf(MapSeq(f, b))
  {
    MapRearranged(f, a, b);
    SameElements(MapSeq(f, a), MapSeq(f, b));
  }

  lemma CrossingsRelisted(i: Inputs, j: Inputs)
    requires Relisted(i, j)
    ensures SetOf(FlatMap(CrossingLinks(i), i.crossings)) == SetOf(FlatMap(CrossingLinks(j), j.crossings))
  {
    SameElements(i.crossings, j.crossings);
    InFlatMap(CrossingLinks(i), i.crossings);
    InFlatMap(CrossingLinks(j), j.crossings);
    assert Ordered(i) == Ordered(j);
    assert forall c :: CrossingLinks(i)(c) == CrossingLinks(j)(c);
  }

  lemma RequestsRelisted(i: Inputs, j: Inputs, names: map<string, NodeId>)
    requires Relisted(i, j) && NoRepeats(MapSeq(PathId, i.paths))
    ensures SetOf(Requests(i, names)) == SetOf(Requests(j, names))
  {
    PathsRelisted(i, j);
    MappedRelisted(LineageLink, i.lineage, j.lineage);
    MappedRelisted(MasterLink, i.masters, j.masters);
    MappedRelisted(GeneratedLink, i.generated, j.generated);
    CrossingsRelisted(i, j);
    assert FlatMap(ObjectLinks, Ordered(i)) == FlatMap(ObjectLinks, Ordered(j));
    RequestSets(i, names);
    RequestSets(j, names);
  }

  lemma SetOfConcat<T>(a: seq<T>, b: seq<T>)
    ensures SetOf(a + b) == SetOf(a) + SetOf(b)
  {
  }

  lemma RequestSets(i: Inputs, names: map<string, NodeId>)
    ensures SetOf(Requests(i, names)) ==
            SetOf(FlatMap(ObjectLinks, Ordered(i))) + SetOf(FlatMap(ConnectionLinks, i.connections))
            + SetOf(MapSeq(LineageLink, i.lineage)) + SetOf(MapSeq(MasterLink, i.masters)) + SetOf(MapSeq(GeneratedLink, i.generated))
            + SetOf(FlatMap(ViewLinks(i.bindingHash), i.views)) + SetOf(FlatMap(CrossingLinks(i), i.crossings))
            + SetOf(FlatMap(PathLinks(names), OrderedPaths(i)))
  {
    var a, b := FlatMap(ObjectLinks, Ordered(i)), FlatMap(ConnectionLinks, i.connections);
    var c, d, e := MapSeq(LineageLink, i.lineage), MapSeq(MasterLink, i.masters), MapSeq(GeneratedLink, i.generated);
    var f, g := FlatMap(ViewLinks(i.bindingHash), i.views), FlatMap(CrossingLinks(i), i.crossings);
    SetOfConcat(a, b);
    SetOfConcat(a + b, c);
    SetOfConcat(a + b + c, d);
    SetOfConcat(a + b + c + d, e);
    SetOfConcat(a + b + c + d + e, f);
    SetOfConcat(a + b + c + d + e + f, g);
    SetOfConcat(FrontRequests(i), FlatMap(PathLinks(names), OrderedPaths(i)));
  }

  lemma ProcessBySet(names: map<string, NodeId>, a: seq<Request>, b: seq<Request>)
    requires SetOf(a) == SetOf(b) && Process(names, a, {}).Ok?
    ensures Process(names, b, {}) == Process(names, a, {})
  {
    ProcessSpec(names, a, {});
    ProcessSpec(names, b, {});
    assert forall r :: r in a <==> r in SetOf(a);
    assert forall r :: r in b <==> r in SetOf(b);
    forall e ensures Yields(names, a, e) <==> Yields(names, b, e) {}
    var x, y := Process(names, a, {}).value, Process(names, b, {}).value;
    assert x == y;
  }

  lemma BuiltFrom(i: Inputs)
    requires BuildOf(i).Ok?
    ensures PathProblem(i, i.paths).None? && NoRepeats(MapSeq(PathId, i.paths))
    ensures Process(NamesOf(Adds(i)), Requests(i, NamesOf(Adds(i))), {}).Ok?
    ensures BuildOf(i).value == Document(NodesOf(Adds(i)), Process(NamesOf(Adds(i)), Requests(i, NamesOf(Adds(i))), {}).value)
  {
  }

  lemma BuildsTo(i: Inputs, names: map<string, NodeId>, edges: set<Edge>)
    requires PathProblem(i, i.paths).None? && NoRepeats(MapSeq(PathId, i.paths))
    requires names == NamesOf(Adds(i)) && Process(names, Requests(i, names), {}) == Ok(edges)
    ensures BuildOf(i) == Ok(Document(NodesOf(Adds(i)), edges))
  {
  }

  lemma SameTablesSameMaps(a: seq<NodeAdd>, b: seq<NodeAdd>)
    requires ById(AddId, a) == ById(AddId, b) && ById(AddName, a) == ById(AddName, b)
    ensures NodesOf(a) == NodesOf(b) && NamesOf(a) == NamesOf(b)
  {
    NodesAreLast(a);
    NodesAreLast(b);
    NamesAreLast(a);
    NamesAreLast(b);
    assert NodesOf(a).Keys == NodesOf(b).Keys && NamesOf(a).Keys == NamesOf(b).Keys;
  }

  /** Relisting clocks, lineage, crossings and paths gives the identical document. */
  lemma DocumentIgnoresOrder(i: Inputs, j: Inputs)
    requires Relisted(i, j) && UniqueClocks(i) && BuildOf(i).Ok?
    ensures BuildOf(j) == BuildOf(i)
  {
    BuiltFrom(i);
    ChecksRelisted(i, j);
    TablesRelisted(i, j);
    SameTablesSameMaps(Adds(i), Adds(j));
    var names := NamesOf(Adds(i));
    RequestsRelisted(i, j, names);
    ProcessBySet(names, Requests(i, names), Requests(j, names));
    BuildsTo(j, names, Process(names, Requests(i, names), {}).value);
  }
}
