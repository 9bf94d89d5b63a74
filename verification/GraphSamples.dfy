/** Small evidence graph inputs that pass every contract, and their outcome: two cells, one path
    and optional connections build, and fail as soon as the path steps from a cell to itself
    or to one with the same object ID, or a connection starts where it ends; and a cell that is named like
    a clock is not what its name leads to. */
module GraphSamples {
  import opened Prelude
  import opened Graph
  import opened GraphTheorems
  import opened GraphNames
  import opened GraphPaths
  import opened GraphOutcome

  /** The strings of a sample: two cells, a span, a view, a path and a few clocks. */
  datatype Words = Words(first: string, second: string, firstId: string, secondId: string, span: string, view: string,
                         path: string, master: string, generated: string, domains: seq<string>, other: string)

  function MasterOf(w: Words): string -> Master { (d: string) => Master(w.master + d, d, w.other) }
  function GeneratedOf(w: Words): string -> Generated { (d: string) => Generated(w.generated + d, d, w.master + d, w.other) }
  function LineageFor(w: Words): string -> Lineage { (d: string) => Lineage(w.master + d, w.generated + d) }

  function Cell(w: Words, id: string, name: string): Mapped { Mapped(id, name, CELL, w.other, w.other, None, [w.span], [], w.other) }
  function First(w: Words): Mapped { Cell(w, w.firstId, w.first) }
  function Second(w: Words): Mapped { Cell(w, w.secondId, w.second) }

  function PathOver(w: Words, listed: seq<string>): Path
    requires w.domains != []
  {
    Path(w.path, w.other, w.view, w.master + w.domains[0], w.generated + w.domains[0], listed, [w.span], 1.0, w.other)
  }

  /** Two cells, the given connections between them and one path along the listed names. */
  function Sample(w: Words, listed: seq<string>, connections: seq<Connection>): Inputs
    requires w.domains != []
  {
    Inputs([Span(w.span, w.other)], [First(w), Second(w)], connections, w.other, [View(w.view, w.other, w.other)],
           MapSeq(MasterOf(w), w.domains), MapSeq(GeneratedOf(w), w.domains), MapSeq(LineageFor(w), w.domains),
           [], [PathOver(w, listed)])
  }

  predicate Good(w: Words) {
    && w.first != w.second && w.domains != []
    && w.master != "" && w.generated != "" && w.master[0] != w.generated[0]
  }

  predicate Ordinary(w: Words) { Good(w) && Family(Tag(w.first)) == 0 && Family(Tag(w.second)) == 0 }

  predicate Listed(w: Words, listed: seq<string>, cs: seq<Connection>) {
    && listed != [] && (forall n :: n in listed ==> n == w.first || n == w.second)
    && forall c :: c in cs ==> (c.source == w.first || c.source == w.second) && (c.destination == w.first || c.destination == w.second)
  }

  lemma SampleClocks(w: Words, i: Inputs)
    requires Good(w) && i.masters == MapSeq(MasterOf(w), w.domains) && i.generated == MapSeq(GeneratedOf(w), w.domains)
    requires i.lineage == MapSeq(LineageFor(w), w.domains)
    ensures forall a, b :: a in i.masters && b in i.generated ==> a.id != b.id
    ensures forall l :: l in i.lineage ==> MasterNamed(i, l.parent) && GeneratedNamed(i, l.child)
    ensures MasterNamed(i, w.master + w.domains[0]) && GeneratedNamed(i, w.generated + w.domains[0])
  {
    InMapSeq(MasterOf(w), w.domains);
    InMapSeq(GeneratedOf(w), w.domains);
    InMapSeq(LineageFor(w), w.domains);
    forall a, b | a in i.masters && b in i.generated ensures a.id != b.id {
      assert a.id[0] == w.master[0] && b.id[0] == w.generated[0];
    }
    forall d | d in w.domains ensures MasterNamed(i, w.master + d) && GeneratedNamed(i, w.generated + d) {
      assert MasterOf(w)(d) in i.masters && GeneratedOf(w)(d) in i.generated;
    }
  }

  lemma SampleValidated(w: Words, listed: seq<string>, cs: seq<Connection>)
    requires Good(w) && Listed(w, listed, cs)
    ensures Validated(Sample(w, listed, cs))
  {
    var i := Sample(w, listed, cs);
    SampleClocks(w, i);
    assert Span(w.span, w.other) in i.spans;
    assert First(w) in i.objects && Second(w) in i.objects;
    assert HasSpan(i, w.span) && ObjectNamed(i, w.first) && ObjectNamed(i, w.second);
  }

  lemma SampleDisjoint(w: Words, listed: seq<string>, cs: seq<Connection>)
    requires Ordinary(w)
    ensures Disjoint(Sample(w, listed, cs))
  {
    ApartNamesAreDisjoint(Sample(w, listed, cs));
  }

  // -------------------------------------------------------------------------- two cells

  /** Validated inputs with two cells and one path over them. */
  ghost predicate TwoCells(i: Inputs, x: Mapped, y: Mapped, p: Path) {
    && Validated(i) && Disjoint(i) && i.objects == [x, y] && i.crossings == [] && i.paths == [p]
    && HasView(i, p.view) && (forall s :: s in p.spans ==> HasSpan(i, s))
    && MasterNamed(i, p.launch) && GeneratedNamed(i, p.capture)
    && p.objects != [] && forall n :: n in p.objects ==> n == x.name || n == y.name
  }

  lemma SampleIsTwoCells(w: Words, listed: seq<string>, cs: seq<Connection>)
    requires Ordinary(w) && Listed(w, listed, cs)
    ensures TwoCells(Sample(w, listed, cs), First(w), Second(w), PathOver(w, listed))
  {
    var i := Sample(w, listed, cs);
    SampleValidated(w, listed, cs);
    SampleDisjoint(w, listed, cs);
    SampleClocks(w, i);
    assert View(w.view, w.other, w.other) in i.views && Span(w.span, w.other) in i.spans;
  }

  /** Whether two of the cells' names lead to one node. */
  predicate OneCell(i: Inputs, x: Mapped, y: Mapped, a: string, b: string) {
    a == b || ObjectId(x, Types(i)) == ObjectId(y, Types(i))
  }

  predicate CellLoops(i: Inputs, x: Mapped, y: Mapped, p: Path) {
    || (exists c :: c in i.connections && OneCell(i, x, y, c.source, c.destination))
    || (exists k :: 0 <= k < |p.objects| - 1 && OneCell(i, x, y, p.objects[k], p.objects[k + 1]))
  }

  lemma CellsNamed(i: Inputs, x: Mapped, y: Mapped, p: Path)
    requires TwoCells(i, x, y, p)
    ensures x.name in Names(i) && Names(i)[x.name] == ObjectId(x, Types(i))
    ensures y.name in Names(i) && Names(i)[y.name] == ObjectId(y, Types(i))
    ensures "path:" + p.id in Names(i) && Names(i)["path:" + p.id] == PathNode(p)
  {
    assert x in i.objects && y in i.objects && p in i.paths;
    ObjectNodeNamed(i, x);
    ObjectNodeNamed(i, y);
    PathNodeNamed(i, p);
  }

  lemma TwoCellsChecked(i: Inputs, x: Mapped, y: Mapped, p: Path)
    requires TwoCells(i, x, y, p)
    ensures PathsChecked(i)
  {
    assert MapSeq(PathId, i.paths) == [p.id];
    NoRepeatsSpec([p.id]);
  }

  lemma CompleteIf(i: Inputs, names: map<string, NodeId>, x: Mapped, y: Mapped, p: Path)
    requires PathsChecked(i) && i.crossings == [] && i.paths == [p]
    requires p.objects != [] && forall n :: n in p.objects ==> n == x.name || n == y.name
    requires x.name in names && y.name in names && "clock:" + p.launch in names && "clock:" + p.capture in names
    ensures Complete(i, names)
  {
    assert PathKnown(names, p);
  }

  lemma TwoCellsComplete(i: Inputs, x: Mapped, y: Mapped, p: Path)
    requires TwoCells(i, x, y, p)
    ensures Complete(i, Names(i))
  {
    TwoCellsChecked(i, x, y, p);
    CellsNamed(i, x, y, p);
    PathClocksNamed(i, p);
    CompleteIf(i, Names(i), x, y, p);
  }

  lemma PathClocksNamed(i: Inputs, p: Path)
    requires UniqueIds(i) && Disjoint(i) && MasterNamed(i, p.launch) && GeneratedNamed(i, p.capture)
    ensures "clock:" + p.launch in Names(i) && "clock:" + p.capture in Names(i)
  {
    ClockNodesNamed(i);
    var m :| m in i.masters && m.id == p.launch;
    var g :| g in i.generated && g.id == p.capture;
  }

  lemma CellsApart(i: Inputs, names: map<string, NodeId>, x: Mapped, y: Mapped, a: string, b: string)
    requires (a == x.name || a == y.name) && (b == x.name || b == y.name)
    requires x.name in names && names[x.name] == ObjectId(x, Types(i)) && y.name in names && names[y.name] == ObjectId(y, Types(i))
    requires x.name == y.name ==> x == y
    ensures SameNode(names, a, b) <==> OneCell(i, x, y, a, b)
  {
  }

  lemma CellIsNoPath(i: Inputs, names: map<string, NodeId>, m: Mapped, p: Path)
    requires m.name in names && names[m.name] == ObjectId(m, Types(i))
    requires "path:" + p.id in names && names["path:" + p.id] == PathNode(p)
    ensures !SameNode(names, "path:" + p.id, m.name)
  {
  }

  lemma LoopsAre(i: Inputs, names: map<string, NodeId>, x: Mapped, y: Mapped, p: Path)
    requires i.paths == [p] && p.objects != [] && forall n :: n in p.objects ==> n == x.name || n == y.name
    requires forall c :: c in i.connections ==> (c.source == x.name || c.source == y.name) && (c.destination == x.name || c.destination == y.name)
    requires x.name in names && names[x.name] == ObjectId(x, Types(i)) && y.name in names && names[y.name] == ObjectId(y, Types(i))
    requires "path:" + p.id in names && names["path:" + p.id] == PathNode(p) && (x.name == y.name ==> x == y)
    ensures Loops(i, names) <==> CellLoops(i, x, y, p)
  {
    CellIsNoPath(i, names, x, p);
    CellIsNoPath(i, names, y, p);
    forall k | 0 <= k < |p.objects| - 1
      ensures SameNode(names, p.objects[k], p.objects[k + 1]) <==> OneCell(i, x, y, p.objects[k], p.objects[k + 1])
    {
      assert p.objects[k] in p.objects && p.objects[k + 1] in p.objects;
      CellsApart(i, names, x, y, p.objects[k], p.objects[k + 1]);
    }
    forall c | c in i.connections ensures SameNode(names, c.source, c.destination) <==> OneCell(i, x, y, c.source, c.destination) {
      CellsApart(i, names, x, y, c.source, c.destination);
    }
    assert p.objects[0] in p.objects && p.objects[|p.objects| - 1] in p.objects;
    assert PathLoops(names, p) <==> exists k :: 0 <= k < |p.objects| - 1 && OneCell(i, x, y, p.objects[k], p.objects[k + 1]);
    assert p in i.paths;
  }

  lemma TwoCellLoops(i: Inputs, x: Mapped, y: Mapped, p: Path)
    requires TwoCells(i, x, y, p)
    ensures Loops(i, Names(i)) <==> CellLoops(i, x, y, p)
  {
    CellsNamed(i, x, y, p);
    assert x in i.objects && y in i.objects;
    LoopsAre(i, Names(i), x, y, p);
  }

  /** Such inputs build unless some edge joins a node to itself, and then they say so. */
  lemma TwoCellOutcome(i: Inputs, x: Mapped, y: Mapped, p: Path)
    requires TwoCells(i, x, y, p)
    ensures if CellLoops(i, x, y, p) then BuildOf(i) == Err(SelfEdge) else BuildOf(i).Ok?
  {
    TwoCellsComplete(i, x, y, p);
    TwoCellLoops(i, x, y, p);
    ValidatedBuildSucceedsIff(i);
  }

  // ---------------------------------------------------------------------------- samples

  function Through(w: Words): Connection { Connection(w.other, w.first, w.second) }
  function Back(w: Words): Connection { Connection(w.other, w.first, w.first) }

  /** A path from one cell to another over a connection between them builds. */
  lemma OrdinarySampleBuilds(w: Words)
    requires Ordinary(w) && w.firstId != w.secondId
    ensures BuildOf(Sample(w, [w.first, w.second], [Through(w)])).Ok?
  {
    var listed, cs := [w.first, w.second], [Through(w)];
    SampleIsTwoCells(w, listed, cs);
    TwoCellOutcome(Sample(w, listed, cs), First(w), Second(w), PathOver(w, listed));
  }

  /** The same inputs fail when the path lists its first cell twice; nothing else is wrong
      with them. */
  lemma RepeatedObjectSampleFails(w: Words)
    requires Ordinary(w) && w.firstId != w.secondId
    ensures BuildOf(Sample(w, [w.first, w.first, w.second], [Through(w)])) == Err(SelfEdge)
  {
    var listed, cs := [w.first, w.first, w.second], [Through(w)];
    SampleIsTwoCells(w, listed, cs);
    assert OneCell(Sample(w, listed, cs), First(w), Second(w), listed[0], listed[1]);
    TwoCellOutcome(Sample(w, listed, cs), First(w), Second(w), PathOver(w, listed));
  }

  /** They fail as well when the two cells share an object ID, so that both names lead to
      one node. */
  lemma SharedObjectIdSampleFails(w: Words)
    requires Ordinary(w) && w.firstId == w.secondId
    ensures BuildOf(Sample(w, [w.first, w.second], [])) == Err(SelfEdge)
  {
    var listed := [w.first, w.second];
    SampleIsTwoCells(w, listed, []);
    assert OneCell(Sample(w, listed, []), First(w), Second(w), listed[0], listed[1]);
    TwoCellOutcome(Sample(w, listed, []), First(w), Second(w), PathOver(w, listed));
  }

  /** And when a cell is connected to itself, whatever the path. */
  lemma SelfConnectionSampleFails(w: Words)
    requires Ordinary(w) && w.firstId != w.secondId
    ensures BuildOf(Sample(w, [w.first], [Back(w)])) == Err(SelfEdge)
  {
    var cs := [Back(w)];
    SampleIsTwoCells(w, [w.first], cs);
    assert cs[0] in cs && OneCell(Sample(w, [w.first], cs), First(w), Second(w), cs[0].source, cs[0].destination);
    TwoCellOutcome(Sample(w, [w.first], cs), First(w), Second(w), PathOver(w, [w.first]));
  }

  /** A cell named like a clock of the same inputs: its name leads to the clock. */
  lemma ClockNameMisleads(w: Words)
    requires Good(w) && w.second == "clock:" + (w.master + w.domains[0])
    ensures var i := Sample(w, [w.first], []);
            && Validated(i) && !NamesMeanNodes(i)
            && w.second in Names(i) && Names(i)[w.second] == NodeId(CLOCK, Plain(w.master + w.domains[0]))
            && Names(i)[w.second] != ObjectId(Second(w), Types(i))
  {
    var i := Sample(w, [w.first], []);
    SampleValidated(w, [w.first], []);
    InMapSeq(MasterOf(w), w.domains);
    InMapSeq(MasterAdd, i.masters);
    var a := MasterAdd(MasterOf(w)(w.domains[0]));
    assert MasterOf(w)(w.domains[0]) in i.masters;
    assert a in ClockAdds(i) && Second(w) in i.objects;
    WhoHoldsTakenName(i, Second(w), a);
    TakenNameMisleads(i, Second(w), a);
  }

  lemma CellNames(rest: string, other: string)
    requires rest != other
    ensures Family(Tag("cell:" + rest)) == 0 && Family(Tag("cell:" + other)) == 0 && "cell:" + rest != "cell:" + other
  {
    TagOf("cell", rest);
    TagOf("cell", other);
    assert "cell" + ":" + rest == "cell:" + rest && "cell" + ":" + other == "cell:" + other;
    assert ("cell:" + rest)[5..] == rest && ("cell:" + other)[5..] == other;
  }

  /** Words that the contracts accept: five masters with a generated clock each. */
  lemma SomeWords(a: string, b: string, idA: string, idB: string) returns (w: Words)
    requires a != b
    ensures Ordinary(w) && w.first == "cell:" + a && w.second == "cell:" + b && w.firstId == idA && w.secondId == idB
    ensures |w.domains| == 5
  {
    CellNames(a, b);
    w := Words("cell:" + a, "cell:" + b, idA, idB, "span_a", "view_a", "path_a", "clk_", "gen_", ["dom_a", "dom_b", "dom_c", "dom_d", "dom_e"], "top");
  }

  /** There are inputs that build, and that fail once their path repeats an object. */
  lemma SomeInputsBuild() returns (w: Words)
    ensures Ordinary(w) && BuildOf(Sample(w, [w.first, w.second], [Through(w)])).Ok?
    ensures BuildOf(Sample(w, [w.first, w.first, w.second], [Through(w)])) == Err(SelfEdge)
  {
    assert "a"[0] != "b"[0];
    w := SomeWords("a", "b", "cell_a", "cell_b");
    assert "cell_a"[5] != "cell_b"[5];
    OrdinarySampleBuilds(w);
    RepeatedObjectSampleFails(w);
  }

  /** There are inputs whose contracts hold and one of whose names leads to another record. */
  lemma SomeNamesMislead() returns (w: Words, i: Inputs)
    ensures Good(w) && i == Sample(w, [w.first], []) && Validated(i) && !NamesMeanNodes(i)
  {
    w := Words("cell:a", "clock:" + ("clk_" + "dom_a"), "cell_a", "cell_b", "span_a", "view_a", "path_a",
               "clk_", "gen_", ["dom_a", "dom_b", "dom_c", "dom_d", "dom_e"], "top");
    assert w.first[1] == 'e' && w.second[1] == 'l';
    ClockNameMisleads(w);
    i := Sample(w, [w.first], []);
  }
}
