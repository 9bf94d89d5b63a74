/** The SDC selector binding audit (src/nova_rtl/constraints/binding.py) and the validators
    of what it returns (src/nova_rtl/contracts/verification.py). */
module Binding {
  import opened Prelude
  import ClockNames

  datatype Resolution = Resolution(commandId: string, normalized: string, selectors: seq<string>, objects: seq<string>)

  datatype Command = Command(commandId: string, normalizedHash: string, objects: seq<string>, objectSetHash: string)

  datatype Coverage = Coverage(total: nat, timed: nat, excepted: nat, unresolved: nat)

  datatype Comparison = EQUIVALENT | APPROVED_SEMANTIC_REMAP | FORBIDDEN_DELTA

  datatype ManifestBody = ManifestBody(manifestId: string, candidateId: string, sdcHash: string, netlistHash: string,
                                       viewIds: seq<string>, commands: seq<Command>, coverage: Coverage,
                                       comparison: Comparison, mappings: seq<string>)

  datatype Manifest = Manifest(body: ManifestBody, bindingHash: string)

  /** The canonical hashes involved. */
  datatype Hashes = Hashes(command: string -> string, objects: seq<string> -> string, manifest: ManifestBody -> string)

  datatype Input = Input(manifestId: string, candidateId: string, sdcHash: string, netlistHash: string,
                         views: map<string, string>, expectedViews: map<string, string>,
                         expectedCommands: seq<string>, resolutions: seq<Resolution>,
                         sequential: seq<string>, timed: seq<string>, excepted: seq<string>)

  datatype Error =
    | ANALYSIS_VIEW_HASH_MISMATCH
    | CONSTRAINT_COMMAND_IDENTITY_INVALID
    | CONSTRAINT_COMMAND_INVENTORY_INCOMPLETE
    | CONSTRAINT_SELECTOR_UNRESOLVED
    | CONSTRAINT_ENDPOINT_COVERAGE_INCOMPLETE
    | CONSTRAINT_BINDING_FORBIDDEN_DELTA
    | VALIDATION

  // ------------------------------------------------------------------------ validators

  predicate EntityId(s: string) { ClockNames.EntityId(s) }

  /** The pattern ^sha256:[0-9a-f]{64}$. */
  predicate HashRef(s: string) {
    |s| == 71 && s[..7] == "sha256:" && forall c :: c in s[7..] ==> '0' <= c <= '9' || 'a' <= c <= 'f'
  }

  predicate ValidCommand(h: Hashes, c: Command) {
    && EntityId(c.commandId) && (forall o :: o in c.objects ==> o != "")
    && c.objects != [] && SortBy(c.objects, StrLe) == c.objects && NoRepeats(c.objects)
    && c.objectSetHash == h.objects(c.objects)
  }

  predicate ValidCoverage(c: Coverage) { c.unresolved == 0 && c.timed + c.excepted == c.total }

  function CommandId(c: Command): string { c.commandId }

  predicate ValidManifest(h: Hashes, m: Manifest) {
    var b := m.body;
    && EntityId(b.manifestId) && EntityId(b.candidateId) && HashRef(b.sdcHash) && HashRef(b.netlistHash)
    && (forall v :: v in b.viewIds ==> EntityId(v)) && (forall v :: v in b.mappings ==> EntityId(v))
    && b.viewIds != [] && SortBy(b.viewIds, StrLe) == b.viewIds && NoRepeats(b.viewIds)
    && SortBy(b.mappings, StrLe) == b.mappings && NoRepeats(b.mappings)
    && b.commands != [] && (forall c :: c in b.commands ==> ValidCommand(h, c))
    && NoRepeats(MapSeq(CommandId, b.commands))
    && ValidCoverage(b.coverage)
    && (b.comparison == EQUIVALENT ==> b.mappings == [])
    && (b.comparison == APPROVED_SEMANTIC_REMAP ==> b.mappings != [])
    && m.bindingHash == h.manifest(b)
  }

  // ----------------------------------------------------------------------------- audit

  /** What the audit takes from a resolution: the command and its set of objects. */
  datatype Shape = Shape(commandId: string, normalized: string, objects: set<string>)

  function ShapeOf(r: Resolution): Shape { Shape(r.commandId, r.normalized, SetOf(r.objects)) }

  function ShapeId(s: Shape): string { s.commandId }

  function Shapes(rs: seq<Resolution>): seq<Shape> { MapSeq(ShapeOf, rs) }

  function Ids(rs: seq<Resolution>): seq<string> { MapSeq(ShapeId, Shapes(rs)) }

  function Bind(h: Hashes, s: Shape): Command {
    Command(s.commandId, h.command(s.normalized), SortedOf(s.objects), h.objects(SortedOf(s.objects)))
  }

  function Binder(h: Hashes): Shape -> Command { s => Bind(h, s) }

  predicate IdLe(a: Command, b: Command) { StrLe(a.commandId, b.commandId) }

  predicate ResolutionLe(a: Resolution, b: Resolution) { StrLe(a.commandId, b.commandId) }

  /** Timed and excepted endpoints split the sequential ones, without repeats anywhere. */
  predicate Covers(sequential: seq<string>, timed: seq<string>, excepted: seq<string>) {
    && NoRepeats(sequential) && NoRepeats(timed) && NoRepeats(excepted)
    && SetOf(timed) * SetOf(excepted) == {}
    && SetOf(timed) <= SetOf(sequential) && SetOf(excepted) <= SetOf(sequential)
    && SetOf(timed) + SetOf(excepted) == SetOf(sequential)
  }

  /** The commands that the audit binds, in the order of their identities. */
  function Bound(h: Hashes, i: Input): seq<Command> { MapSeq(Binder(h), Shapes(SortBy(i.resolutions, ResolutionLe))) }

  function CoverageOf(i: Input): Coverage {
    Coverage(|SetOf(i.sequential)|, |SetOf(i.timed)|, |SetOf(i.excepted)|, 0)
  }

  function ResultFor(h: Hashes, i: Input): Manifest {
    var body := ManifestBody(i.manifestId, i.candidateId, i.sdcHash, i.netlistHash, SortedOf(i.views.Keys),
                             Bound(h, i), CoverageOf(i), EQUIVALENT, []);
    Manifest(body, h.manifest(body))
  }

  /** The formats that the contract of a bound command demands. */
  predicate CommandsFit(rs: seq<Resolution>) {
    forall r :: r in rs ==> EntityId(r.commandId) && forall o :: o in r.objects ==> o != ""
  }

  /** The formats that the contract of the manifest demands. */
  predicate NamesFit(i: Input) {
    && EntityId(i.manifestId) && EntityId(i.candidateId) && HashRef(i.sdcHash) && HashRef(i.netlistHash)
    && forall v :: v in i.views ==> EntityId(v)
  }

  predicate Matches(h: Hashes, i: Input, baseline: Manifest) {
    && baseline.body.sdcHash == i.sdcHash
    && baseline.body.viewIds == SortedOf(i.views.Keys)
    && baseline.body.commands == Bound(h, i)
    && baseline.body.coverage == CoverageOf(i)
  }

  /** The tests on the input alone, up to the construction of the bound commands. */
  function InputProblem(i: Input): Option<Error> {
    var ids := Ids(i.resolutions);
    if i.views == map[] || i.views != i.expectedViews then Some(ANALYSIS_VIEW_HASH_MISMATCH)
    else if i.expectedCommands == [] || SortBy(i.expectedCommands, StrLe) != i.expectedCommands
            || !NoRepeats(i.expectedCommands)
    then Some(CONSTRAINT_COMMAND_IDENTITY_INVALID)
    else if !NoRepeats(ids) then Some(CONSTRAINT_COMMAND_IDENTITY_INVALID)
    else if SetOf(ids) != SetOf(i.expectedCommands) then Some(CONSTRAINT_COMMAND_INVENTORY_INCOMPLETE)
    else if HasEmpty(i.resolutions) then Some(CONSTRAINT_SELECTOR_UNRESOLVED)
    else if !Covers(i.sequential, i.timed, i.excepted) then Some(CONSTRAINT_ENDPOINT_COVERAGE_INCOMPLETE)
    else if !CommandsFit(i.resolutions) then Some(VALIDATION)
    else None
  }

  /** `audit_constraint_binding`. */
  function Audit(h: Hashes, i: Input, baseline: Option<Manifest>): Result<Manifest, Error> {
    var problem := InputProblem(i);
    if problem.Some? then Err(problem.value)
    else if baseline.Some? && !Matches(h, i, baseline.value) then Err(CONSTRAINT_BINDING_FORBIDDEN_DELTA)
    else if !NamesFit(i) then Err(VALIDATION)
    else Ok(ResultFor(h, i))
  }

  /** The sequential endpoints, listed once each, are the timed ones and the excepted ones;
      no endpoint is both. */
  ghost predicate Splits(sequential: seq<string>, timed: seq<string>, excepted: seq<string>) {
    && Distinct(sequential) && Distinct(timed) && Distinct(excepted)
    && (forall e :: e in timed ==> e !in excepted)
    && (forall e :: e in sequential <==> e in timed || e in excepted)
  }

  lemma CoversMeans(sequential: seq<string>, timed: seq<string>, excepted: seq<string>)
    ensures Covers(sequential, timed, excepted) <==> Splits(sequential, timed, excepted)
  {
    NoRepeatsSpec(sequential);
    NoRepeatsSpec(timed);
    NoRepeatsSpec(excepted);
    var a, b, c := SetOf(sequential), SetOf(timed), SetOf(excepted);
    assert forall e :: (e in a <==> e in sequential) && (e in b <==> e in timed) && (e in c <==> e in excepted);
    if Splits(sequential, timed, excepted) { assert b * c == {} && b + c == a; }
    assert forall e :: (e in b * c <==> e in b && e in c) && (e in b + c <==> e in b || e in c);
  }

  /** Everything but the comparison with a baseline. */
  ghost predicate Sound(i: Input) {
    && i.views != map[] && i.views == i.expectedViews
    && i.expectedCommands != [] && Sorted(i.expectedCommands, StrLe) && Distinct(i.expectedCommands)
    && Distinct(Ids(i.resolutions)) && SetOf(Ids(i.resolutions)) == SetOf(i.expectedCommands)
    && (forall r :: r in i.resolutions ==> r.objects != [])
    && Splits(i.sequential, i.timed, i.excepted)
    && CommandsFit(i.resolutions) && NamesFit(i)
  }

  lemma CoversSpec(sequential: seq<string>, timed: seq<string>, excepted: seq<string>)
    requires Covers(sequential, timed, excepted)
    ensures |timed| + |excepted| == |sequential|
    ensures forall e :: e in sequential <==> (e in timed) != (e in excepted)
  {
    assert |SetOf(timed) + SetOf(excepted)| == |SetOf(timed)| + |SetOf(excepted)|;
    forall e ensures e in sequential <==> (e in timed) != (e in excepted) {
      assert e in sequential <==> e in SetOf(sequential);
      assert e in timed <==> e in SetOf(timed);
      assert e in excepted <==> e in SetOf(excepted);
      assert !(e in SetOf(timed) * SetOf(excepted));
    }
  }

  /** The audit succeeds exactly on a sound input that agrees with its baseline, if it has
      one, and then returns the one manifest for that input. */
  lemma AuditSucceedsIff(h: Hashes, i: Input, baseline: Option<Manifest>)
    ensures Audit(h, i, baseline).Ok? <==> Sound(i) && (baseline.Some? ==> Matches(h, i, baseline.value))
    ensures Audit(h, i, baseline).Ok? ==> Audit(h, i, baseline).value == ResultFor(h, i)
    ensures Audit(h, i, baseline).Ok? ==>
              && |i.timed| + |i.excepted| == |i.sequential|
              && forall e :: e in i.sequential <==> (e in i.timed) != (e in i.excepted)
  {
    SoundIff(i);
    if Covers(i.sequential, i.timed, i.excepted) { CoversSpec(i.sequential, i.timed, i.excepted); }
  }

  lemma SoundIff(i: Input)
    ensures Sound(i) <==> InputProblem(i).None? && NamesFit(i)
  {
    SortedIffFixed(i.expectedCommands);
    NoRepeatsSpec(i.expectedCommands);
    NoRepeatsSpec(Ids(i.resolutions));
    CoversMeans(i.sequential, i.timed, i.excepted);
  }

  // ---------------------------------------------------------------- order independence

  lemma ResolutionPreorder()
    ensures Preorder(ResolutionLe)
  {
    StrLePreorder();
  }

  lemma IdPreorder()
    ensures Preorder(IdLe)
  {
    StrLePreorder();
  }

  /** The bound commands are the bindings of the shapes, in the order of their identities. */
  lemma BoundSpec(h: Hashes, i: Input)
    ensures multiset(Bound(h, i)) == multiset(MapSeq(Binder(h), Shapes(i.resolutions)))
    ensures Sorted(Bound(h, i), IdLe)
  {
    var rs, sorted := i.resolutions, SortBy(i.resolutions, ResolutionLe);
    ResolutionPreorder();
    SortByCorrect(rs, ResolutionLe);
    MapRearranged(ShapeOf, sorted, rs);
    MapRearranged(Binder(h), Shapes(sorted), Shapes(rs));
    MapAt(ShapeOf, sorted);
    MapAt(Binder(h), Shapes(sorted));
  }

  lemma DistinctIdsNoTies(h: Hashes, shapes: seq<Shape>)
    requires Distinct(MapSeq(ShapeId, shapes))
    ensures NoTies(MapSeq(Binder(h), shapes), IdLe)
  {
    var ids, cs := MapSeq(ShapeId, shapes), MapSeq(Binder(h), shapes);
    MapAt(ShapeId, shapes);
    MapAt(Binder(h), shapes);
    forall a, b | a in cs && b in cs && IdLe(a, b) && IdLe(b, a) ensures a == b {
      StrLeAntisymmetric(a.commandId, b.commandId);
      var j :| 0 <= j < |cs| && cs[j] == a;
      var k :| 0 <= k < |cs| && cs[k] == b;
      assert ids[j] == ids[k];
    }
  }

  /** Two inputs that differ only in the order of commands and endpoints and in the order
      and repetition of resolved objects (and in the selectors, which the audit ignores). */
  ghost predicate Rearranged(i: Input, j: Input) {
    && i.(resolutions := [], sequential := [], timed := [], excepted := [])
       == j.(resolutions := [], sequential := [], timed := [], excepted := [])
    && multiset(Shapes(i.resolutions)) == multiset(Shapes(j.resolutions))
    && multiset(i.sequential) == multiset(j.sequential)
    && multiset(i.timed) == multiset(j.timed)
    && multiset(i.excepted) == multiset(j.excepted)
  }

  lemma RearrangedIds(i: Input, j: Input)
    requires Rearranged(i, j)
    ensures NoRepeats(Ids(i.resolutions)) == NoRepeats(Ids(j.resolutions))
    ensures SetOf(Ids(i.resolutions)) == SetOf(Ids(j.resolutions))
  {
    MapRearranged(ShapeId, Shapes(i.resolutions), Shapes(j.resolutions));
    SameElements(Ids(i.resolutions), Ids(j.resolutions));
    DistinctRearranged(Ids(i.resolutions), Ids(j.resolutions));
    NoRepeatsSpec(Ids(i.resolutions));
    NoRepeatsSpec(Ids(j.resolutions));
  }

  predicate HasEmpty(rs: seq<Resolution>) { exists r :: r in rs && r.objects == [] }

  lemma HasEmptyByShapes(rs: seq<Resolution>)
    ensures HasEmpty(rs) <==> exists s :: s in Shapes(rs) && s.objects == {}
  {
    MapAt(ShapeOf, rs);
    forall r | r in rs && r.objects == [] ensures exists s :: s in Shapes(rs) && s.objects == {} {
      var k :| 0 <= k < |rs| && rs[k] == r;
      assert Shapes(rs)[k].objects == {};
    }
    forall s | s in Shapes(rs) && s.objects == {} ensures HasEmpty(rs) {
      var k :| 0 <= k < |rs| && Shapes(rs)[k] == s;
      SetOfEmpty(rs[k].objects);
      assert rs[k] in rs;
    }
  }

  lemma CommandsFitByShapes(rs: seq<Resolution>)
    ensures CommandsFit(rs) <==> forall s :: s in Shapes(rs) ==> EntityId(s.commandId) && forall o :: o in s.objects ==> o != ""
  {
    MapAt(ShapeOf, rs);
    forall s | s in Shapes(rs) && CommandsFit(rs) ensures EntityId(s.commandId) && forall o :: o in s.objects ==> o != "" {
      var k :| 0 <= k < |rs| && Shapes(rs)[k] == s;
      assert rs[k] in rs;
    }
    forall r | r in rs ensures ShapeOf(r) in Shapes(rs) {
      var k :| 0 <= k < |rs| && rs[k] == r;
      assert Shapes(rs)[k] == ShapeOf(r);
    }
    forall r, o | r in rs && o in r.objects ensures o in ShapeOf(r).objects {}
  }

  lemma RearrangedCovers(i: Input, j: Input)
    requires Rearranged(i, j)
    ensures Covers(i.sequential, i.timed, i.excepted) == Covers(j.sequential, j.timed, j.excepted)
    ensures CoverageOf(i) == CoverageOf(j)
  {
    SameElements(i.sequential, j.sequential);
    SameElements(i.timed, j.timed);
    SameElements(i.excepted, j.excepted);
  }

  lemma RearrangedBound(h: Hashes, i: Input, j: Input)
    requires Rearranged(i, j) && NoRepeats(Ids(i.resolutions))
    ensures Bound(h, i) == Bound(h, j)
  {
    BoundSpec(h, i);
    BoundSpec(h, j);
    MapRearranged(Binder(h), Shapes(i.resolutions), Shapes(j.resolutions));
    NoRepeatsSpec(Ids(i.resolutions));
    DistinctIdsNoTies(h, Shapes(i.resolutions));
    SameElements(Bound(h, i), MapSeq(Binder(h), Shapes(i.resolutions)));
    IdPreorder();
    SortedUnique(Bound(h, i), Bound(h, j), IdLe);
  }

  lemma RearrangedCommands(i: Input, j: Input)
    requires Rearranged(i, j)
    ensures HasEmpty(i.resolutions) == HasEmpty(j.resolutions) && CommandsFit(i.resolutions) == CommandsFit(j.resolutions)
    ensures NamesFit(i) == NamesFit(j)
  {
    HasEmptyByShapes(i.resolutions);
    HasEmptyByShapes(j.resolutions);
    CommandsFitByShapes(i.resolutions);
    CommandsFitByShapes(j.resolutions);
    SameElements(Shapes(i.resolutions), Shapes(j.resolutions));
  }

  lemma RearrangedProblem(i: Input, j: Input)
    requires Rearranged(i, j)
    ensures InputProblem(i) == InputProblem(j)
  {
    RearrangedIds(i, j);
    RearrangedCommands(i, j);
    RearrangedCovers(i, j);
  }

  /** The outcome - manifest or error - does not depend on how the commands, the endpoints
      and the resolved objects are listed. */
  lemma AuditIgnoresOrder(h: Hashes, i: Input, j: Input, baseline: Option<Manifest>)
    requires Rearranged(i, j)
    ensures Audit(h, i, baseline) == Audit(h, j, baseline)
  {
    RearrangedProblem(i, j);
    RearrangedCommands(i, j);
    RearrangedCovers(i, j);
    if InputProblem(i).None? { RearrangedBound(h, i, j); }
  }

  // ------------------------------------------------------------------ what it guarantees

  lemma BoundIds(h: Hashes, i: Input)
    ensures multiset(MapSeq(CommandId, Bound(h, i))) == multiset(Ids(i.resolutions))
  {
    var sorted := SortBy(i.resolutions, ResolutionLe);
    var shapes := Shapes(sorted);
    ResolutionPreorder();
    SortByCorrect(i.resolutions, ResolutionLe);
    MapRearranged(ShapeOf, sorted, i.resolutions);
    MapRearranged(ShapeId, shapes, Shapes(i.resolutions));
    MapAt(Binder(h), shapes);
    MapAt(ShapeId, shapes);
    MapAt(CommandId, Bound(h, i));
    assert MapSeq(CommandId, Bound(h, i)) == MapSeq(ShapeId, shapes);
  }

  lemma BindIsValid(h: Hashes, s: Shape)
    requires s.objects != {} && EntityId(s.commandId) && forall o :: o in s.objects ==> o != ""
    ensures ValidCommand(h, Bind(h, s))
  {
    var objects := SortedOf(s.objects);
    assert forall o :: o in objects <==> o in SetOf(objects);
    SortedOfSpec(s.objects);
    SortedIffFixed(objects);
    NoRepeatsSpec(objects);
  }

  lemma BoundIsValid(h: Hashes, i: Input)
    requires Sound(i)
    ensures forall c :: c in Bound(h, i) ==> ValidCommand(h, c)
    ensures Bound(h, i) != [] && NoRepeats(MapSeq(CommandId, Bound(h, i)))
  {
    var shapes := Shapes(i.resolutions);
    BoundSpec(h, i);
    SameElements(Bound(h, i), MapSeq(Binder(h), shapes));
    HasEmptyByShapes(i.resolutions);
    CommandsFitByShapes(i.resolutions);
    MapAt(Binder(h), shapes);
    forall c | c in Bound(h, i) ensures ValidCommand(h, c) {
      var k :| 0 <= k < |shapes| && MapSeq(Binder(h), shapes)[k] == c;
      assert shapes[k] in shapes;
      BindIsValid(h, shapes[k]);
    }
    BoundIds(h, i);
    DistinctRearranged(MapSeq(CommandId, Bound(h, i)), Ids(i.resolutions));
    NoRepeatsSpec(MapSeq(CommandId, Bound(h, i)));
    assert i.expectedCommands[0] in SetOf(i.expectedCommands);
    SameElements(MapSeq(CommandId, Bound(h, i)), Ids(i.resolutions));
  }

  /** What the audit returns passes every validator of the manifest, its commands and its
      coverage: none of them can fail after the audit's own tests. */
  lemma AuditOutputIsValid(h: Hashes, i: Input, baseline: Option<Manifest>)
    requires Audit(h, i, baseline).Ok?
    ensures ValidManifest(h, Audit(h, i, baseline).value)
  {
    AuditSucceedsIff(h, i, baseline);
    BoundIsValid(h, i);
    SortedOfSpec(i.views.Keys);
    SortedIffFixed(SortedOf(i.views.Keys));
    NoRepeatsSpec(SortedOf(i.views.Keys));
    NoRepeatsSpec(i.sequential);
    NoRepeatsSpec(i.timed);
    NoRepeatsSpec(i.excepted);
    assert i.views.Keys != {} by { assert i.views != map[]; }
    SetOfEmpty(SortedOf(i.views.Keys));
    assert forall v :: v in SortedOf(i.views.Keys) <==> v in SetOf(SortedOf(i.views.Keys));
    SortedIffFixed([]);
  }

  /** The command that binds this resolution: its hashed text on its objects, sorted. */
  ghost predicate Binds(h: Hashes, r: Resolution, c: Command) {
    && c.commandId == r.commandId && c.normalizedHash == h.command(r.normalized)
    && Sorted(c.objects, StrLe) && Distinct(c.objects) && (forall o :: o in c.objects <==> o in r.objects)
    && c.objectSetHash == h.objects(c.objects)
  }

  lemma BoundBinds(h: Hashes, i: Input)
    ensures forall r :: r in i.resolutions ==> exists c :: c in Bound(h, i) && Binds(h, r, c)
  {
    var shapes := Shapes(i.resolutions);
    BoundSpec(h, i);
    SameElements(Bound(h, i), MapSeq(Binder(h), shapes));
    MapAt(ShapeOf, i.resolutions);
    MapAt(Binder(h), shapes);
    forall r | r in i.resolutions ensures exists c :: c in Bound(h, i) && Binds(h, r, c) {
      var k :| 0 <= k < |i.resolutions| && i.resolutions[k] == r;
      var c := MapSeq(Binder(h), shapes)[k];
      SortedOfSpec(SetOf(r.objects));
      assert forall o :: o in c.objects <==> o in SetOf(c.objects);
      assert c in Bound(h, i) && Binds(h, r, c);
    }
  }

  /** The manifest lists exactly the expected commands, in their order. */
  lemma BoundInventory(h: Hashes, i: Input)
    requires Sound(i)
    ensures MapSeq(CommandId, Bound(h, i)) == i.expectedCommands
  {
    var ids := MapSeq(CommandId, Bound(h, i));
    BoundSpec(h, i);
    BoundIds(h, i);
    DistinctRearranged(ids, Ids(i.resolutions));
    SameElements(ids, Ids(i.resolutions));
    DistinctSameValues(ids, i.expectedCommands);
    MapAt(CommandId, Bound(h, i));
    StrLePreorder();
    forall a, b | StrLe(a, b) && StrLe(b, a) ensures a == b { StrLeAntisymmetric(a, b); }
    SortedUnique(ids, i.expectedCommands, StrLe);
  }

  /** What the manifest says: the identities of the input, its view names, a binding of each
      resolution under the expected commands in their order, and how many endpoints are
      sequential, timed and excepted. */
  lemma ManifestStates(h: Hashes, i: Input, baseline: Option<Manifest>)
    requires Audit(h, i, baseline).Ok?
    ensures var m := Audit(h, i, baseline).value; var b := m.body;
            && b.manifestId == i.manifestId && b.candidateId == i.candidateId
            && b.sdcHash == i.sdcHash && b.netlistHash == i.netlistHash
            && Sorted(b.viewIds, StrLe) && Distinct(b.viewIds) && (forall v :: v in b.viewIds <==> v in i.views)
            && MapSeq(CommandId, b.commands) == i.expectedCommands
            && (forall r :: r in i.resolutions ==> exists c :: c in b.commands && Binds(h, r, c))
            && b.coverage.total == |i.sequential| && b.coverage.timed == |i.timed|
            && b.coverage.excepted == |i.excepted| && b.coverage.unresolved == 0
            && b.comparison == EQUIVALENT && b.mappings == [] && m.bindingHash == h.manifest(b)
  {
    AuditSucceedsIff(h, i, baseline);
    BoundBinds(h, i);
    BoundInventory(h, i);
    SortedOfSpec(i.views.Keys);
    assert forall v :: v in SortedOf(i.views.Keys) <==> v in SetOf(SortedOf(i.views.Keys));
    NoRepeatsSpec(i.sequential);
    NoRepeatsSpec(i.timed);
    NoRepeatsSpec(i.excepted);
  }

  lemma BadFormatsInvalid(h: Hashes, i: Input)
    requires !CommandsFit(i.resolutions) || !NamesFit(i)
    ensures !ValidManifest(h, ResultFor(h, i))
  {
    if !CommandsFit(i.resolutions) {
      BadCommandInvalid(h, i);
    } else {
      SortedOfSpec(i.views.Keys);
      assert forall v :: v in SortedOf(i.views.Keys) <==> v in SetOf(SortedOf(i.views.Keys));
    }
  }

  lemma BadCommandInvalid(h: Hashes, i: Input)
    requires !CommandsFit(i.resolutions)
    ensures exists c :: c in Bound(h, i) && !ValidCommand(h, c)
  {
    BoundBinds(h, i);
    var r :| r in i.resolutions && !(EntityId(r.commandId) && forall o :: o in r.objects ==> o != "");
    var c :| c in Bound(h, i) && Binds(h, r, c);
    assert !ValidCommand(h, c);
  }

  /** What each error of the audit says is the case. */
  ghost predicate Explains(e: Error, h: Hashes, i: Input, baseline: Option<Manifest>) {
    match e
    case ANALYSIS_VIEW_HASH_MISMATCH => i.views == map[] || i.views != i.expectedViews
    case CONSTRAINT_COMMAND_IDENTITY_INVALID =>
      || i.expectedCommands == [] || !Sorted(i.expectedCommands, StrLe) || !Distinct(i.expectedCommands)
      || exists j, k :: 0 <= j < k < |i.resolutions| && i.resolutions[j].commandId == i.resolutions[k].commandId
    case CONSTRAINT_COMMAND_INVENTORY_INCOMPLETE =>
      || (exists r :: r in i.resolutions && r.commandId !in i.expectedCommands)
      || (exists id :: id in i.expectedCommands && forall r :: r in i.resolutions ==> r.commandId != id)
    case CONSTRAINT_SELECTOR_UNRESOLVED => exists r :: r in i.resolutions && r.objects == []
    case CONSTRAINT_ENDPOINT_COVERAGE_INCOMPLETE => !Splits(i.sequential, i.timed, i.excepted)
    case CONSTRAINT_BINDING_FORBIDDEN_DELTA =>
      baseline.Some? &&
      var own, locked := ResultFor(h, i).body, baseline.value.body;
      own.sdcHash != locked.sdcHash || own.viewIds != locked.viewIds || own.commands != locked.commands
      || own.coverage != locked.coverage
    case VALIDATION => !ValidManifest(h, ResultFor(h, i))
  }

  lemma ResolutionIds(rs: seq<Resolution>)
    ensures |Ids(rs)| == |rs| && forall k :: 0 <= k < |rs| ==> Ids(rs)[k] == rs[k].commandId
  {
    MapAt(ShapeOf, rs);
    MapAt(ShapeId, Shapes(rs));
  }

  lemma InventoryDiffers(rs: seq<Resolution>, expected: seq<string>)
    requires SetOf(Ids(rs)) != SetOf(expected)
    ensures || (exists r :: r in rs && r.commandId !in expected)
            || (exists id :: id in expected && forall r :: r in rs ==> r.commandId != id)
  {
    ResolutionIds(rs);
    if id :| id in SetOf(Ids(rs)) && id !in SetOf(expected) {
      var k :| 0 <= k < |rs| && Ids(rs)[k] == id;
      assert rs[k] in rs && rs[k].commandId !in expected;
    } else {
      var id :| id in SetOf(expected) && id !in SetOf(Ids(rs));
      assert id in expected;
      forall r | r in rs ensures r.commandId != id {
        var k :| 0 <= k < |rs| && rs[k] == r;
        assert Ids(rs)[k] in Ids(rs);
      }
    }
  }

  lemma IdsRepeat(rs: seq<Resolution>)
    requires !NoRepeats(Ids(rs))
    ensures exists j, k :: 0 <= j < k < |rs| && rs[j].commandId == rs[k].commandId
  {
    ResolutionIds(rs);
    NoRepeatsSpec(Ids(rs));
    var j, k :| 0 <= j < k < |rs| && Ids(rs)[j] == Ids(rs)[k];
    assert rs[j].commandId == rs[k].commandId;
  }

  /** The test that failed. */
  predicate Failed(e: Error, h: Hashes, i: Input, baseline: Option<Manifest>) {
    match e
    case ANALYSIS_VIEW_HASH_MISMATCH => i.views == map[] || i.views != i.expectedViews
    case CONSTRAINT_COMMAND_IDENTITY_INVALID =>
      || i.expectedCommands == [] || SortBy(i.expectedCommands, StrLe) != i.expectedCommands || !NoRepeats(i.expectedCommands)
      || !NoRepeats(Ids(i.resolutions))
    case CONSTRAINT_COMMAND_INVENTORY_INCOMPLETE => SetOf(Ids(i.resolutions)) != SetOf(i.expectedCommands)
    case CONSTRAINT_SELECTOR_UNRESOLVED => HasEmpty(i.resolutions)
    case CONSTRAINT_ENDPOINT_COVERAGE_INCOMPLETE => !Covers(i.sequential, i.timed, i.excepted)
    case CONSTRAINT_BINDING_FORBIDDEN_DELTA => baseline.Some? && !Matches(h, i, baseline.value)
    case VALIDATION => !CommandsFit(i.resolutions) || !NamesFit(i)
  }

  lemma ErrorsFail(h: Hashes, i: Input, baseline: Option<Manifest>)
    requires Audit(h, i, baseline).Err?
    ensures Failed(Audit(h, i, baseline).error, h, i, baseline)
  {
  }

  lemma FailureExplains(e: Error, h: Hashes, i: Input, baseline: Option<Manifest>)
    requires Failed(e, h, i, baseline)
    ensures Explains(e, h, i, baseline)
  {
    match e
    case CONSTRAINT_COMMAND_IDENTITY_INVALID =>
      SortedIffFixed(i.expectedCommands);
      NoRepeatsSpec(i.expectedCommands);
      if !NoRepeats(Ids(i.resolutions)) { IdsRepeat(i.resolutions); }
    case CONSTRAINT_COMMAND_INVENTORY_INCOMPLETE => InventoryDiffers(i.resolutions, i.expectedCommands);
    case CONSTRAINT_ENDPOINT_COVERAGE_INCOMPLETE => CoversMeans(i.sequential, i.timed, i.excepted);
    case VALIDATION => BadFormatsInvalid(h, i);
    case _ =>
  }

  lemma ErrorsExplain(h: Hashes, i: Input, baseline: Option<Manifest>)
    requires Audit(h, i, baseline).Err?
    ensures Explains(Audit(h, i, baseline).error, h, i, baseline)
  {
    ErrorsFail(h, i, baseline);
    FailureExplains(Audit(h, i, baseline).error, h, i, baseline);
  }

  /** An audited manifest is accepted as the baseline of the very input it came from. */
  lemma OwnOutputIsBaseline(h: Hashes, i: Input, baseline: Option<Manifest>)
    requires Audit(h, i, baseline).Ok?
    ensures Audit(h, i, Some(Audit(h, i, baseline).value)) == Audit(h, i, baseline)
  {
    AuditSucceedsIff(h, i, baseline);
    AuditSucceedsIff(h, i, Some(ResultFor(h, i)));
  }

  /** Acceptance chains: whatever passes against an output that itself passed against some
      baseline passes against that baseline too. */
  lemma AcceptanceIsTransitive(h: Hashes, i: Input, j: Input, baseline: Manifest)
    requires Audit(h, i, Some(baseline)).Ok?
    requires Audit(h, j, Some(Audit(h, i, Some(baseline)).value)).Ok?
    ensures Audit(h, j, Some(baseline)) == Audit(h, j, Some(Audit(h, i, Some(baseline)).value))
  {
    AuditSucceedsIff(h, i, Some(baseline));
    AuditSucceedsIff(h, j, Some(ResultFor(h, i)));
    AuditSucceedsIff(h, j, Some(baseline));
  }

  /** The intent of an input: which command text applies to which objects. */
  ghost function Intent(i: Input): set<Shape> { SetOf(Shapes(i.resolutions)) }

  lemma BoundByIntent(h: Hashes, i: Input, j: Input)
    requires Sound(i) && Sound(j) && Intent(i) == Intent(j)
    ensures Bound(h, i) == Bound(h, j)
  {
    DistinctIdsDistinctShapes(Shapes(i.resolutions));
    DistinctIdsDistinctShapes(Shapes(j.resolutions));
    DistinctSameValues(Shapes(i.resolutions), Shapes(j.resolutions));
    var k := i.(resolutions := j.resolutions);
    NoRepeatsSpec(Ids(i.resolutions));
    RearrangedBound(h, i, k);
  }

  lemma DistinctIdsDistinctShapes(shapes: seq<Shape>)
    requires Distinct(MapSeq(ShapeId, shapes))
    ensures Distinct(shapes)
  {
    MapAt(ShapeId, shapes);
  }

  lemma IntentByBound(h: Hashes, i: Input, j: Input)
    requires Bound(h, i) == Bound(h, j)
    requires forall a, b :: h.command(a) == h.command(b) ==> a == b
    ensures Intent(i) <= Intent(j)
  {
    BoundSpec(h, i);
    BoundSpec(h, j);
    var a, b := Shapes(i.resolutions), Shapes(j.resolutions);
    SameElements(MapSeq(Binder(h), a), MapSeq(Binder(h), b));
    MapAt(Binder(h), a);
    MapAt(Binder(h), b);
    forall s | s in Intent(i) ensures s in Intent(j) {
      var k :| 0 <= k < |a| && a[k] == s;
      assert MapSeq(Binder(h), a)[k] in MapSeq(Binder(h), b);
      var m :| 0 <= m < |b| && MapSeq(Binder(h), b)[m] == Bind(h, s);
      SortedOfSpec(s.objects);
      SortedOfSpec(b[m].objects);
      assert b[m] == s && b[m] in b;
    }
  }

  /** Against another audited input the comparison accepts exactly the same intent - same
      constraint file, same view names, same commands on the same objects, same endpoint
      counts - as long as no two command texts share a hash. */
  lemma MatchesMeansSameIntent(h: Hashes, i: Input, j: Input)
    requires Sound(i) && Sound(j)
    requires forall a, b :: h.command(a) == h.command(b) ==> a == b
    ensures Matches(h, i, ResultFor(h, j)) <==>
            i.sdcHash == j.sdcHash && i.views.Keys == j.views.Keys && Intent(i) == Intent(j) && CoverageOf(i) == CoverageOf(j)
  {
    SortedOfSpec(i.views.Keys);
    SortedOfSpec(j.views.Keys);
    if Bound(h, i) == Bound(h, j) {
      IntentByBound(h, i, j);
      IntentByBound(h, j, i);
    }
    if Intent(i) == Intent(j) { BoundByIntent(h, i, j); }
  }
}
