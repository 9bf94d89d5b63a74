/** `_asap7_techmap` (src/nova_rtl/baseline/execution.py) as a small compiler. */
module Techmap {
  import opened Prelude

  type Wire = nat

  datatype Gate =
    | Not(a: Wire, y: Wire)
    | Nand(a: Wire, b: Wire, y: Wire)
    | And(a: Wire, b: Wire, y: Wire)
    | Or(a: Wire, b: Wire, y: Wire)
    | Xor(a: Wire, b: Wire, y: Wire)
    | Mux(a: Wire, b: Wire, s: Wire, y: Wire)

  datatype CellType = Inv | Nand2 | DffAsrHqn | DffHqn

  /** A combinational library cell; `b` is unused by an inverter. */
  datatype Cell = InvCell(a: Wire, y: Wire) | NandCell(a: Wire, b: Wire, y: Wire)

  /** Wire values; a wire nobody drives reads low. */
  type Env = map<Wire, bool>

  function Read(env: Env, w: Wire): bool { w in env && env[w] }

  function GateValue(g: Gate, env: Env): bool {
    match g
    case Not(a, _) => !Read(env, a)
    case Nand(a, b, _) => !(Read(env, a) && Read(env, b))
    case And(a, b, _) => Read(env, a) && Read(env, b)
    case Or(a, b, _) => Read(env, a) || Read(env, b)
    case Xor(a, b, _) => Read(env, a) != Read(env, b)
    case Mux(a, b, s, _) => if Read(env, s) then Read(env, b) else Read(env, a)
  }

  function CellValue(c: Cell, env: Env): bool {
    match c
    case InvCell(a, _) => !Read(env, a)
    case NandCell(a, b, _) => !(Read(env, a) && Read(env, b))
  }

  /** Evaluation in list order, which for a topologically ordered netlist is its meaning. */
  function EvalGates(gates: seq<Gate>, env: Env): Env {
    if gates == [] then env
    else EvalGates(gates[1..], env[gates[0].y := GateValue(gates[0], env)])
  }

  function Drive(c: Cell, env: Env): Env { env[c.y := CellValue(c, env)] }

  function EvalCells(cells: seq<Cell>, env: Env): Env {
    if cells == [] then env else EvalCells(cells[1..], Drive(cells[0], env))
  }

  lemma {:induction false} EvalCellsConcat(p: seq<Cell>, q: seq<Cell>, env: Env)
    ensures EvalCells(p + q, env) == EvalCells(q, EvalCells(p, env))
  {
    if p == [] {
      assert p + q == q;
    } else {
      assert (p + q)[1..] == p[1..] + q;
      EvalCellsConcat(p[1..], q, Drive(p[0], env));
    }
  }

  lemma EvalShort(c0: Cell, c1: Cell, c2: Cell, c3: Cell, env: Env)
    ensures EvalCells([c0], env) == Drive(c0, env)
    ensures EvalCells([c0, c1], env) == Drive(c1, Drive(c0, env))
    ensures EvalCells([c0, c1, c2], env) == Drive(c2, Drive(c1, Drive(c0, env)))
    ensures EvalCells([c0, c1, c2, c3], env) == Drive(c3, Drive(c2, Drive(c1, Drive(c0, env))))
  {
    forall c, e: Env ensures EvalCells([c], e) == Drive(c, e) { assert [c][1..] == []; }
    assert [c0, c1] == [c0] + [c1] && [c0, c1, c2] == [c0, c1] + [c2] && [c0, c1, c2, c3] == [c0, c1, c2] + [c3];
    EvalCellsConcat([c0], [c1], env);
    EvalCellsConcat([c0, c1], [c2], env);
    EvalCellsConcat([c0, c1, c2], [c3], env);
  }

  // ---------------------------------------------------------------- the technology map

  /** How many wires the template of a gate declares. */
  function LocalWires(g: Gate): nat {
    match g
    case Not(_, _) => 0
    case Nand(_, _, _) => 0
    case And(_, _, _) => 1
    case Or(_, _, _) => 2
    case Xor(_, _, _) => 3
    case Mux(_, _, _, _) => 3
  }

  /** The template of `_asap7_techmap` for one gate, its local wires numbered from `n`. */
  function Template(g: Gate, n: Wire): seq<Cell> {
    match g
    case Not(a, y) => [InvCell(a, y)]
    case Nand(a, b, y) => [NandCell(a, b, y)]
    case And(a, b, y) => [NandCell(a, b, n), InvCell(n, y)]
    case Or(a, b, y) => [InvCell(a, n), InvCell(b, n + 1), NandCell(n, n + 1, y)]
    case Xor(a, b, y) =>
      [NandCell(a, b, n), NandCell(a, n, n + 1), NandCell(b, n, n + 2), NandCell(n + 1, n + 2, y)]
    case Mux(a, b, s, y) =>
      [InvCell(s, n), NandCell(a, n, n + 1), NandCell(b, s, n + 2), NandCell(n + 1, n + 2, y)]
  }

  /** The local wires that a template with `k` of them numbers from `n`. */
  function Locals(n: Wire, k: nat): set<Wire> {
    if k == 0 then {} else Locals(n, k - 1) + {n + k - 1}
  }

  lemma {:induction false} LocalsRange(n: Wire, k: nat)
    ensures forall w :: w in Locals(n, k) <==> n <= w < n + k
  {
    if k > 0 { LocalsRange(n, k - 1); }
  }

  /** Expands every gate, allocating local wires from `next` upwards. */
  function Map(gates: seq<Gate>, next: Wire): seq<Cell> {
    if gates == [] then []
    else Template(gates[0], next) + Map(gates[1..], next + LocalWires(gates[0]))
  }

  function Sources(g: Gate): set<Wire> {
    match g
    case Not(a, _) => {a}
    case Nand(a, b, _) => {a, b}
    case And(a, b, _) => {a, b}
    case Or(a, b, _) => {a, b}
    case Xor(a, b, _) => {a, b}
    case Mux(a, b, s, _) => {a, b, s}
  }

  function Pins(g: Gate): set<Wire> { Sources(g) + {g.y} }

  ghost predicate Below(gates: seq<Gate>, bound: Wire) {
    forall g, w :: g in gates && w in Pins(g) ==> w < bound
  }

  /** The two environments give every wire below `bound` the same value. */
  ghost predicate Agree(x: Env, y: Env, bound: Wire) {
    forall w: nat :: w < bound ==> Read(x, w) == Read(y, w)
  }

  lemma WideTemplateCorrect(g: Gate, n: Wire, env: Env, w: Wire)
    requires (g.Xor? || g.Mux?) && forall p :: p in Pins(g) ==> p < n
    ensures Read(EvalCells(Template(g, n), env), g.y) == GateValue(g, env)
    ensures w < n && w != g.y ==> Read(EvalCells(Template(g, n), env), w) == Read(env, w)
  {
    var t := Template(g, n);
    assert g.y in Pins(g) && g.a in Pins(g) && g.b in Pins(g);
    if g.Mux? { assert g.s in Pins(g); }
    EvalShort(t[0], t[1], t[2], t[3], env);
  }

  /** One template computes its gate and disturbs no wire but the gate's output and
      its own locals. */
  lemma TemplateCorrect(g: Gate, n: Wire, env: Env, w: Wire)
    requires forall p :: p in Pins(g) ==> p < n
    ensures Read(EvalCells(Template(g, n), env), g.y) == GateValue(g, env)
    ensures w < n && w != g.y ==> Read(EvalCells(Template(g, n), env), w) == Read(env, w)
  {
    var t := Template(g, n);
    assert g.y in Pins(g) && g.a in Pins(g);
    if !g.Not? { assert g.b in Pins(g); }
    match g
    case Not(_, _) => EvalShort(t[0], t[0], t[0], t[0], env);
    case Nand(_, _, _) => EvalShort(t[0], t[0], t[0], t[0], env);
    case And(_, _, _) => EvalShort(t[0], t[1], t[1], t[1], env);
    case Or(_, _, _) => EvalShort(t[0], t[1], t[2], t[2], env);
    case _ => WideTemplateCorrect(g, n, env, w);
  }

  lemma GateValueAgrees(g: Gate, x: Env, y: Env, bound: Wire)
    requires Agree(x, y, bound) && forall p :: p in Pins(g) ==> p < bound
    ensures GateValue(g, x) == GateValue(g, y)
  {
    match g
    case Not(a, _) => assert a in Pins(g);
    case Nand(a, b, _) => assert a in Pins(g) && b in Pins(g);
    case And(a, b, _) => assert a in Pins(g) && b in Pins(g);
    case Or(a, b, _) => assert a in Pins(g) && b in Pins(g);
    case Xor(a, b, _) => assert a in Pins(g) && b in Pins(g);
    case Mux(a, b, s, _) => assert a in Pins(g) && b in Pins(g) && s in Pins(g);
  }

  /** The map preserves meaning: from environments that agree on the original wires,
      the generic netlist and its expansion leave every original wire with the same value. */
  lemma {:induction false} MapPreservesMeaning(gates: seq<Gate>, bound: Wire, next: Wire, x: Env, y: Env)
    requires Below(gates, bound) && bound <= next && Agree(x, y, bound)
    ensures Agree(EvalGates(gates, x), EvalCells(Map(gates, next), y), bound)
  {
    if gates != [] {
      var g, t := gates[0], Template(gates[0], next);
      var x', y' := x[g.y := GateValue(g, x)], EvalCells(t, y);
      GateValueAgrees(g, x, y, bound);
      forall w: nat | w < bound ensures Read(x', w) == Read(y', w) {
        TemplateCorrect(g, next, y, w);
      }
      MapPreservesMeaning(gates[1..], bound, next + LocalWires(g), x', y');
      EvalCellsConcat(t, Map(gates[1..], next + LocalWires(g)), y);
    }
  }

  // ---------------------------------------------------------------- structural soundness

  /** Each wire has at most one driver and is driven before it is read. */
  predicate Ordered(gates: seq<Gate>, sources: set<Wire>) {
    gates == [] ||
    (Sources(gates[0]) <= sources && gates[0].y !in sources
     && Ordered(gates[1..], sources + {gates[0].y}))
  }

  function Inputs(c: Cell): set<Wire> {
    match c
    case InvCell(a, _) => {a}
    case NandCell(a, b, _) => {a, b}
  }

  predicate OrderedCells(cells: seq<Cell>, sources: set<Wire>) {
    cells == [] ||
    (Inputs(cells[0]) <= sources && cells[0].y !in sources
     && OrderedCells(cells[1..], sources + {cells[0].y}))
  }

  lemma {:induction false} OrderedCellsConcat(p: seq<Cell>, q: seq<Cell>, sources: set<Wire>)
    requires OrderedCells(p, sources)
    requires OrderedCells(q, sources + Outputs(p))
    ensures OrderedCells(p + q, sources)
  {
    if p == [] {
      assert p + q == q && sources + Outputs(p) == sources;
    } else {
      assert (p + q)[1..] == p[1..] + q;
      assert sources + Outputs(p) == (sources + {p[0].y}) + Outputs(p[1..]);
      OrderedCellsConcat(p[1..], q, sources + {p[0].y});
    }
  }

  function Outputs(cells: seq<Cell>): set<Wire> {
    if cells == [] then {} else {cells[0].y} + Outputs(cells[1..])
  }

  lemma TemplateOrdered(g: Gate, n: Wire, sources: set<Wire>)
    requires Sources(g) <= sources && g.y !in sources && g.y < n
    requires forall w :: w in sources ==> w < n
    ensures OrderedCells(Template(g, n), sources)
    ensures Outputs(Template(g, n)) == {g.y} + Locals(n, LocalWires(g))
  {
    var t := Template(g, n);
    assert g.y in Pins(g) && g.a in Pins(g);
    if !g.Not? { assert g.b in Pins(g); }
    if g.Mux? { assert g.s in Pins(g); }
    OrderedShort(t, sources);
    assert Locals(n, 1) == {n} && Locals(n, 2) == {n, n + 1} && Locals(n, 3) == {n, n + 1, n + 2};
  }

  /** `OrderedCells` and `Outputs` of a template-sized list, unrolled. */
  lemma OrderedShort(t: seq<Cell>, sources: set<Wire>)
    requires 1 <= |t| <= 4
    ensures OrderedCells(t, sources) <==>
            && Inputs(t[0]) <= sources && t[0].y !in sources
            && (|t| > 1 ==> Inputs(t[1]) <= sources + {t[0].y} && t[1].y !in sources + {t[0].y})
            && (|t| > 2 ==> Inputs(t[2]) <= sources + {t[0].y, t[1].y} && t[2].y !in sources + {t[0].y, t[1].y})
            && (|t| > 3 ==> Inputs(t[3]) <= sources + {t[0].y, t[1].y, t[2].y}
                            && t[3].y !in sources + {t[0].y, t[1].y, t[2].y})
    ensures |t| == 1 ==> Outputs(t) == {t[0].y}
    ensures |t| == 2 ==> Outputs(t) == {t[0].y, t[1].y}
    ensures |t| == 3 ==> Outputs(t) == {t[0].y, t[1].y, t[2].y}
    ensures |t| == 4 ==> Outputs(t) == {t[0].y, t[1].y, t[2].y, t[3].y}
  {
    var s1 := sources + {t[0].y};
    assert OrderedCells(t, sources) <==> Inputs(t[0]) <= sources && t[0].y !in sources && OrderedCells(t[1..], s1);
    if |t| > 1 {
      var s2 := s1 + {t[1].y};
      assert s2 == sources + {t[0].y, t[1].y};
      assert t[1..][1..] == t[2..];
      assert OrderedCells(t[1..], s1) <==> Inputs(t[1]) <= s1 && t[1].y !in s1 && OrderedCells(t[2..], s2);
      if |t| > 2 {
        var s3 := s2 + {t[2].y};
        assert s3 == sources + {t[0].y, t[1].y, t[2].y};
        assert t[2..][1..] == t[3..];
        assert OrderedCells(t[2..], s2) <==> Inputs(t[2]) <= s2 && t[2].y !in s2 && OrderedCells(t[3..], s3);
        if |t| > 3 { assert t[3..][1..] == []; }
      }
    }
  }

  /** Expansion of an ordered netlist is ordered: local wires never clash with an
      original wire or with each other, and nothing is driven twice. */
  lemma {:induction false} MapOrdered(gates: seq<Gate>, bound: Wire, next: Wire, sources: set<Wire>, locals: set<Wire>)
    requires Ordered(gates, sources) && Below(gates, bound) && bound <= next
    requires (forall w :: w in sources ==> w < bound) && (forall w :: w in locals ==> bound <= w < next)
    ensures OrderedCells(Map(gates, next), sources + locals)
  {
    if gates != [] {
      var g := gates[0];
      var n' := next + LocalWires(g);
      var more := Locals(next, LocalWires(g));
      assert g.y in Pins(g);
      LocalsRange(next, LocalWires(g));
      TemplateOrdered(g, next, sources + locals);
      MapOrdered(gates[1..], bound, n', sources + {g.y}, locals + more);
      assert (sources + {g.y}) + (locals + more) == (sources + locals) + Outputs(Template(g, next));
      OrderedCellsConcat(Template(g, next), Map(gates[1..], n'), sources + locals);
    }
  }

  // ------------------------------------------------------- meaning as a set of equations

  /** Every gate equation holds: no order of evaluation is assumed. */
  ghost predicate SolvesGates(gates: seq<Gate>, env: Env) {
    forall g <- gates :: Read(env, g.y) == GateValue(g, env)
  }

  ghost predicate SolvesCells(cells: seq<Cell>, env: Env) {
    forall c <- cells :: Read(env, c.y) == CellValue(c, env)
  }

  lemma SolvesBoth(p: seq<Cell>, q: seq<Cell>, env: Env)
    ensures SolvesCells(p + q, env) <==> SolvesCells(p, env) && SolvesCells(q, env)
  {
    assert forall c :: c in p + q <==> c in p || c in q;
  }

  /** Any solution of the expansion, even of a netlist with loops, solves the gates. */
  lemma {:induction false} MappedSolutionSolvesGates(gates: seq<Gate>, next: Wire, env: Env)
    requires SolvesCells(Map(gates, next), env)
    ensures SolvesGates(gates, env)
  {
    if gates != [] {
      var n' := next + LocalWires(gates[0]);
      SolvesBoth(Template(gates[0], next), Map(gates[1..], n'), env);
      MappedSolutionSolvesGates(gates[1..], n', env);
      TemplateEquations(gates[0], next, env);
    }
  }

  lemma TemplateEquations(g: Gate, n: Wire, env: Env)
    requires SolvesCells(Template(g, n), env)
    ensures Read(env, g.y) == GateValue(g, env)
  {
    var t := Template(g, n);
    assert forall i :: 0 <= i < |t| ==> t[i] in t;
    if |t| > 1 { assert t[0].y == n; }
    if |t| > 2 { assert t[1].y == n + 1; }
    if |t| > 3 { assert t[2].y == n + 2; }
    assert t[|t| - 1].y == g.y;
  }

  /** Values for the local wires of one template. */
  function SettleOne(g: Gate, n: Wire, env: Env): Env {
    var t := Template(g, n);
    EvalCells(t[..|t| - 1], env)
  }

  /** Values for the local wires of the expansion, read off a solution of the gates. */
  function Settle(gates: seq<Gate>, next: Wire, env: Env): Env {
    if gates == [] then env
    else Settle(gates[1..], next + LocalWires(gates[0]), SettleOne(gates[0], next, env))
  }

  lemma AgreeChain(x: Env, xBound: Wire, y: Env, z: Env, bound: Wire)
    requires Agree(x, y, xBound) && Agree(y, z, bound) && bound <= xBound
    ensures Agree(x, z, bound)
  {
  }

  lemma GatesStaySolved(gates: seq<Gate>, bound: Wire, env: Env, mid: Env)
    requires Below(gates, bound) && Agree(env, mid, bound) && SolvesGates(gates, env)
    ensures SolvesGates(gates, mid)
  {
    forall h | h in gates ensures Read(mid, h.y) == GateValue(h, mid) {
      assert h.y in Pins(h);
      GateValueAgrees(h, env, mid, bound);
    }
  }

  /** Conversely every solution of the gates, even of a netlist with loops, extends to
      a solution of the expansion that changes no original wire. */
  lemma {:induction false} GateSolutionExtends(gates: seq<Gate>, bound: Wire, next: Wire, env: Env)
    requires Below(gates, bound) && bound <= next && SolvesGates(gates, env)
    ensures var full := Settle(gates, next, env);
            SolvesCells(Map(gates, next), full) && Agree(full, env, next)
  {
    if gates != [] {
      RestStaysSolved(gates, bound, next, env);
      var n', mid := next + LocalWires(gates[0]), SettleOne(gates[0], next, env);
      GateSolutionExtends(gates[1..], bound, n', mid);
      TemplateExtends(gates[0], next, env, Settle(gates[1..], n', mid), Map(gates[1..], n'));
      Unfold(gates, next, env);
    }
  }

  ghost predicate SettlesAt(g: Gate, n: Wire, env: Env) {
    (forall p :: p in Pins(g) ==> p < n) && Read(env, g.y) == GateValue(g, env)
  }

  lemma RestStaysSolved(gates: seq<Gate>, bound: Wire, next: Wire, env: Env)
    requires gates != [] && Below(gates, bound) && bound <= next && SolvesGates(gates, env)
    ensures SolvesGates(gates[1..], SettleOne(gates[0], next, env)) && Below(gates[1..], bound)
    ensures SettlesAt(gates[0], next, env)
  {
    LocalsSettle(gates[0], next, env);
    GatesStaySolved(gates[1..], bound, env, SettleOne(gates[0], next, env));
  }

  lemma Unfold(gates: seq<Gate>, next: Wire, env: Env)
    requires gates != []
    ensures var n' := next + LocalWires(gates[0]);
            && Settle(gates, next, env) == Settle(gates[1..], n', SettleOne(gates[0], next, env))
            && Map(gates, next) == Template(gates[0], next) + Map(gates[1..], n')
  {
  }

  lemma TemplateExtends(g: Gate, n: Wire, env: Env, full: Env, rest: seq<Cell>)
    requires SettlesAt(g, n, env)
    requires SolvesCells(rest, full) && Agree(full, SettleOne(g, n, env), n + LocalWires(g))
    ensures SolvesCells(Template(g, n) + rest, full) && Agree(full, env, n)
  {
    var mid := SettleOne(g, n, env);
    LocalsSettle(g, n, env);
    TemplateStaysSolved(g, n, mid, full);
    SolvesBoth(Template(g, n), rest, full);
    AgreeChain(full, n + LocalWires(g), mid, env, n);
  }

  lemma TemplateStaysSolved(g: Gate, n: Wire, mid: Env, full: Env)
    requires (forall p :: p in Pins(g) ==> p < n) && SolvesCells(Template(g, n), mid)
    requires Agree(full, mid, n + LocalWires(g))
    ensures SolvesCells(Template(g, n), full)
  {
    forall c | c in Template(g, n) ensures Read(full, c.y) == CellValue(c, full) {
      TemplatePinsBelow(g, n, c);
      CellValueAgrees(c, mid, full);
    }
  }

  lemma TemplatePinsBelow(g: Gate, n: Wire, c: Cell)
    requires c in Template(g, n) && forall p :: p in Pins(g) ==> p < n
    ensures c.y < n + LocalWires(g) && forall w :: w in Inputs(c) ==> w < n + LocalWires(g)
  {
    assert g.y in Pins(g) && g.a in Pins(g);
    if !g.Not? { assert g.b in Pins(g); }
    if g.Mux? { assert g.s in Pins(g); }
  }

  lemma CellValueAgrees(c: Cell, x: Env, y: Env)
    requires forall w :: w in Inputs(c) ==> Read(x, w) == Read(y, w)
    ensures CellValue(c, x) == CellValue(c, y)
  {
    if c.NandCell? { assert c.b in Inputs(c); }
    assert c.a in Inputs(c);
  }

  /** Evaluating an ordered list of cells solves it and leaves undriven wires alone. */
  lemma {:induction false} OrderedEvaluationSolves(cells: seq<Cell>, sources: set<Wire>, env: Env)
    requires OrderedCells(cells, sources)
    ensures SolvesCells(cells, EvalCells(cells, env))
    ensures forall w :: w in sources ==> Read(EvalCells(cells, env), w) == Read(env, w)
    ensures forall w :: w !in Outputs(cells) ==> Read(EvalCells(cells, env), w) == Read(env, w)
  {
    if cells != [] {
      var c := cells[0];
      var full := EvalCells(cells, env);
      OrderedEvaluationSolves(cells[1..], sources + {c.y}, Drive(c, env));
      forall w | w in Inputs(c) ensures Read(full, w) == Read(env, w) {}
      CellValueAgrees(c, env, full);
      assert [c] + cells[1..] == cells;
      SolvesBoth([c], cells[1..], full);
    }
  }

  /** Driving the locals of one template makes all its equations hold. */
  lemma LocalsSettle(g: Gate, n: Wire, env: Env)
    requires (forall p :: p in Pins(g) ==> p < n) && Read(env, g.y) == GateValue(g, env)
    ensures SolvesCells(Template(g, n), SettleOne(g, n, env)) && Agree(SettleOne(g, n, env), env, n)
  {
    var t := Template(g, n);
    var u, last := t[..|t| - 1], t[|t| - 1];
    var mid := EvalCells(u, env);
    LocalsOrdered(g, n);
    OrderedEvaluationSolves(u, Pins(g), env);
    assert t == u + [last];
    TemplateCorrect(g, n, env, g.y);
    EvalCellsConcat(u, [last], env);
    EvalShort(last, last, last, last, mid);
    SolvesBoth(u, [last], mid);
  }

  /** The cells of a template before the last drive exactly the locals, in order. */
  lemma LocalsOrdered(g: Gate, n: Wire)
    requires forall p :: p in Pins(g) ==> p < n
    ensures var t := Template(g, n); var u := t[..|t| - 1];
            && t[|t| - 1].y == g.y && OrderedCells(u, Pins(g)) && forall w :: w in Outputs(u) ==> w >= n
  {
    var t := Template(g, n);
    var u := t[..|t| - 1];
    if |u| > 0 { OrderedShort(u, Pins(g)); }
  }

  // ------------------------------------------------------------------- clocked designs

  /** A flop is left alone by the map; its output is a source, its input a sink. */
  datatype Flop = Flop(kind: CellType, d: Wire, q: Wire)

  /** What each flop will hold after the next clock edge. */
  function Capture(flops: seq<Flop>, env: Env): Env {
    if flops == [] then map[] else Capture(flops[1..], env)[flops[0].q := Read(env, flops[0].d)]
  }

  /** Each flop, if no two drive one wire, captures the value at its own input. */
  lemma {:induction false} CaptureSpec(flops: seq<Flop>, env: Env)
    requires forall i, j :: 0 <= i < j < |flops| ==> flops[i].q != flops[j].q
    ensures forall f <- flops :: f.q in Capture(flops, env) && Capture(flops, env)[f.q] == Read(env, f.d)
    ensures forall w :: w in Capture(flops, env) ==> exists f <- flops :: f.q == w
  {
    if flops != [] {
      CaptureSpec(flops[1..], env);
      assert flops == [flops[0]] + flops[1..] && flops[0] in flops;
      forall f | f in flops[1..] ensures f.q != flops[0].q {
        var k :| 0 <= k < |flops[1..]| && flops[1..][k] == f;
        assert flops[k + 1] == f;
      }
    }
  }

  /** Wire values in every cycle, from a register state and one input per cycle. */
  function GateTrace(gates: seq<Gate>, flops: seq<Flop>, state: Env, inputs: seq<Env>): seq<Env>
    decreases inputs
  {
    if inputs == [] then []
    else
      var now := EvalGates(gates, inputs[0] + state);
      [now] + GateTrace(gates, flops, Capture(flops, now), inputs[1..])
  }

  function CellTrace(cells: seq<Cell>, flops: seq<Flop>, state: Env, inputs: seq<Env>): seq<Env>
    decreases inputs
  {
    if inputs == [] then []
    else
      var now := EvalCells(cells, inputs[0] + state);
      [now] + CellTrace(cells, flops, Capture(flops, now), inputs[1..])
  }

  lemma {:induction false} CaptureAgrees(flops: seq<Flop>, x: Env, y: Env, bound: Wire)
    requires Agree(x, y, bound) && forall f <- flops :: f.d < bound
    ensures Capture(flops, x) == Capture(flops, y)
  {
    if flops != [] {
      assert flops[0] in flops;
      CaptureAgrees(flops[1..], x, y, bound);
    }
  }

  /** Mapping changes no original wire in any cycle of any run. */
  lemma {:induction false} MapPreservesTraces(gates: seq<Gate>, flops: seq<Flop>, bound: Wire, state: Env, inputs: seq<Env>)
    requires Below(gates, bound) && forall f <- flops :: f.d < bound
    ensures var before := GateTrace(gates, flops, state, inputs);
            var after := CellTrace(Map(gates, bound), flops, state, inputs);
            |before| == |after| == |inputs| && forall i :: 0 <= i < |inputs| ==> Agree(before[i], after[i], bound)
    decreases inputs
  {
    if inputs != [] {
      var x := EvalGates(gates, inputs[0] + state);
      var y := EvalCells(Map(gates, bound), inputs[0] + state);
      MapPreservesMeaning(gates, bound, bound, inputs[0] + state, inputs[0] + state);
      CaptureAgrees(flops, x, y, bound);
      MapPreservesTraces(gates, flops, bound, Capture(flops, x), inputs[1..]);
    }
  }

  // ---------------------------------------------------------------------- cells and area

  function TypeOf(c: Cell): CellType { if c.InvCell? then Inv else Nand2 }

  function CountOf(types: seq<CellType>, t: CellType): nat {
    if types == [] then 0 else (if types[0] == t then 1 else 0) + CountOf(types[1..], t)
  }

  function Types(cells: seq<Cell>): seq<CellType> { seq(|cells|, i requires 0 <= i < |cells| => TypeOf(cells[i])) }

  /** Cells and inverters per gate. */
  function CellsPerGate(g: Gate): (nat, nat) {
    match g
    case Not(_, _) => (1, 1)
    case Nand(_, _, _) => (1, 0)
    case And(_, _, _) => (2, 1)
    case Or(_, _, _) => (3, 2)
    case Xor(_, _, _) => (4, 0)
    case Mux(_, _, _, _) => (4, 1)
  }

  function TotalCells(gates: seq<Gate>): (nat, nat) {
    if gates == [] then (0, 0)
    else
      var here, rest := CellsPerGate(gates[0]), TotalCells(gates[1..]);
      (here.0 + rest.0, here.1 + rest.1)
  }

  lemma {:induction false} CountOfConcat(a: seq<CellType>, b: seq<CellType>, t: CellType)
    ensures CountOf(a + b, t) == CountOf(a, t) + CountOf(b, t)
  {
    if a == [] { assert a + b == b; } else {
      assert (a + b)[1..] == a[1..] + b;
      CountOfConcat(a[1..], b, t);
    }
  }

  /** The expansion holds exactly the cells its gates account for: 1, 1, 2, 3, 4 and 4
      per NOT, NAND, AND, OR, XOR and MUX, of which 1, 0, 1, 2, 0 and 1 are inverters. */
  lemma {:induction false} MapCellCounts(gates: seq<Gate>, next: Wire)
    ensures |Map(gates, next)| == TotalCells(gates).0
    ensures CountOf(Types(Map(gates, next)), Inv) == TotalCells(gates).1
    ensures CountOf(Types(Map(gates, next)), Nand2) == TotalCells(gates).0 - TotalCells(gates).1
  {
    if gates != [] {
      var t, rest := Template(gates[0], next), Map(gates[1..], next + LocalWires(gates[0]));
      MapCellCounts(gates[1..], next + LocalWires(gates[0]));
      assert Types(t + rest) == Types(t) + Types(rest);
      CountOfConcat(Types(t), Types(rest), Inv);
      CountOfConcat(Types(t), Types(rest), Nand2);
      TemplateCounts(gates[0], next);
    }
  }

  lemma TemplateCounts(g: Gate, n: Wire)
    ensures |Template(g, n)| == CellsPerGate(g).0
    ensures CountOf(Types(Template(g, n)), Inv) == CellsPerGate(g).1
    ensures CountOf(Types(Template(g, n)), Nand2) == CellsPerGate(g).0 - CellsPerGate(g).1
  {
    var types := Types(Template(g, n));
    match g
    case Not(_, _) => CountShort(Inv, Inv, Inv, Inv); assert types == [Inv];
    case Nand(_, _, _) => CountShort(Nand2, Inv, Inv, Inv); assert types == [Nand2];
    case And(_, _, _) => CountShort(Nand2, Inv, Inv, Inv); assert types == [Nand2, Inv];
    case Or(_, _, _) => CountShort(Inv, Inv, Nand2, Inv); assert types == [Inv, Inv, Nand2];
    case Xor(_, _, _) => CountShort(Nand2, Nand2, Nand2, Nand2); assert types == [Nand2, Nand2, Nand2, Nand2];
    case Mux(_, _, _, _) => CountShort(Inv, Nand2, Nand2, Nand2); assert types == [Inv, Nand2, Nand2, Nand2];
  }

  function One(t: CellType, u: CellType): nat { if t == u then 1 else 0 }

  lemma CountShort(a: CellType, b: CellType, c: CellType, d: CellType)
    ensures forall t :: CountOf([a], t) == One(a, t)
    ensures forall t :: CountOf([a, b], t) == One(a, t) + One(b, t)
    ensures forall t :: CountOf([a, b, c], t) == One(a, t) + One(b, t) + One(c, t)
    ensures forall t :: CountOf([a, b, c, d], t) == One(a, t) + One(b, t) + One(c, t) + One(d, t)
  {
    assert [a] == [a] + [] && [a, b] == [a] + [b] && [a, b, c] == [a, b] + [c] && [a, b, c, d] == [a, b, c] + [d];
    forall t: CellType
      ensures CountOf([a], t) == One(a, t) && CountOf([a, b], t) == One(a, t) + One(b, t)
      ensures CountOf([a, b, c], t) == One(a, t) + One(b, t) + One(c, t)
      ensures CountOf([a, b, c, d], t) == One(a, t) + One(b, t) + One(c, t) + One(d, t)
    {
      CountOfConcat([a], [b], t);
      CountOfConcat([a, b], [c], t);
      CountOfConcat([a, b, c], [d], t);
    }
  }

  function AreaOf(t: CellType): real {
    match t
    case DffAsrHqn => 0.37908
    case DffHqn => 0.2916
    case Inv => 0.04374
    case Nand2 => 0.08748
  }

  function SumOfAreas(types: seq<CellType>): real {
    if types == [] then 0.0 else AreaOf(types[0]) + SumOfAreas(types[1..])
  }

  // ----------------------------------------------------------- count-based area report

  datatype ReportedCell = Known(cell: CellType) | OtherFlop | OtherCell

  /** A line of the synthesis summary; only lines without an area column feed the inventory. */
  datatype ReportLine = ReportLine(count: nat, cell: ReportedCell, hasArea: bool)

  datatype ReportError = MissingSection | KeyError

  datatype Statistics = Statistics(cells: nat, area: real, registers: nat)

  predicate IsFlop(c: ReportedCell) { c.OtherFlop? || c == Known(DffAsrHqn) || c == Known(DffHqn) }

  function Registers(lines: seq<ReportLine>): nat {
    if lines == [] then 0 else (if IsFlop(lines[0].cell) then lines[0].count else 0) + Registers(lines[1..])
  }

  /** The dictionary of counts; a repeated cell type keeps its last line. */
  function Inventory(lines: seq<ReportLine>): map<CellType, nat> {
    if lines == [] then map[]
    else
      var last := lines[|lines| - 1];
      var before := Inventory(lines[..|lines| - 1]);
      if last.cell.Known? && !last.hasArea then before[last.cell.cell := last.count] else before
  }

  function CountIn(inventory: map<CellType, nat>, t: CellType): nat {
    if t in inventory then inventory[t] else 0
  }

  function Covered(inventory: map<CellType, nat>): nat {
    CountIn(inventory, DffAsrHqn) + CountIn(inventory, DffHqn) + CountIn(inventory, Inv) + CountIn(inventory, Nand2)
  }

  function CountedArea(inventory: map<CellType, nat>): real
    requires {DffAsrHqn, DffHqn, Inv, Nand2} <= inventory.Keys
  {
    AreaTotal(inventory[DffAsrHqn], inventory[DffHqn], inventory[Inv], inventory[Nand2])
  }

  function AreaTotal(asr: nat, dff: nat, inv: nat, nand: nat): real {
    asr as real * AreaOf(DffAsrHqn) + dff as real * AreaOf(DffHqn)
    + inv as real * AreaOf(Inv) + nand as real * AreaOf(Nand2)
  }

  /** The count-based branch of `_native_mapped_statistics`: the area table is summed by
      looking every one of its four cell types up in the inventory. */
  function NativeStatistics(total: nat, lines: seq<ReportLine>): Result<Statistics, ReportError> {
    var inventory := Inventory(lines);
    if Registers(lines) == 0 then Err(MissingSection)
    else if Covered(inventory) != total then Err(MissingSection)
    else if !({DffAsrHqn, DffHqn, Inv, Nand2} <= inventory.Keys) then Err(KeyError)
    else Ok(Statistics(total, CountedArea(inventory), Registers(lines)))
  }

  /** The summary printed for a netlist: one line per cell type that occurs. */
  function StatLines(types: seq<CellType>): seq<ReportLine> {
    StatLine(types, DffAsrHqn) + StatLine(types, DffHqn) + StatLine(types, Inv) + StatLine(types, Nand2)
  }

  function StatLine(types: seq<CellType>, t: CellType): seq<ReportLine> {
    if CountOf(types, t) == 0 then [] else [ReportLine(CountOf(types, t), Known(t), false)]
  }

  lemma {:induction false} CountsCoverAll(types: seq<CellType>)
    ensures |types| == CountOf(types, DffAsrHqn) + CountOf(types, DffHqn) + CountOf(types, Inv) + CountOf(types, Nand2)
    ensures SumOfAreas(types) == AreaTotal(CountOf(types, DffAsrHqn), CountOf(types, DffHqn),
                                           CountOf(types, Inv), CountOf(types, Nand2))
  {
    if types != [] { CountsCoverAll(types[1..]); }
  }

  /** The line counts cells of this type in the inventory. */
  predicate Counts(line: ReportLine, t: CellType) { line.cell == Known(t) && !line.hasArea }

  /** The last line that counts a cell type is the one that holds. */
  lemma {:induction false} InventoryIs(lines: seq<ReportLine>, t: CellType)
    ensures t in Inventory(lines) <==> exists k :: 0 <= k < |lines| && Counts(lines[k], t)
    ensures t in Inventory(lines) ==>
              exists k :: 0 <= k < |lines| && Counts(lines[k], t) && Inventory(lines)[t] == lines[k].count
                          && forall j :: k < j < |lines| ==> !Counts(lines[j], t)
  {
    if lines != [] {
      var front, last := lines[..|lines| - 1], lines[|lines| - 1];
      InventoryIs(front, t);
      assert forall k :: 0 <= k < |front| ==> lines[k] == front[k];
      if Counts(last, t) { assert lines[|lines| - 1] == last; }
    }
  }

  /** The registers are counted over every flip-flop line, of the library or not. */
  lemma {:induction false} RegistersOccur(lines: seq<ReportLine>)
    ensures Registers(lines) > 0 <==>
            exists l <- lines :: l.count > 0 && (l.cell == OtherFlop || l.cell == Known(DffAsrHqn) || l.cell == Known(DffHqn))
  {
    if lines != [] {
      assert lines == [lines[0]] + lines[1..] && lines[0] in lines;
      RegistersOccur(lines[1..]);
    }
  }

  /** What the parser makes of any report: it needs a register, counts that add up to the
      total, and all four cell types; the area is then the counts times the library areas. */
  lemma StatisticsIff(total: nat, lines: seq<ReportLine>)
    ensures var r := NativeStatistics(total, lines);
            var inventory := Inventory(lines);
            var complete := Registers(lines) > 0 && total == CountIn(inventory, DffAsrHqn) + CountIn(inventory, DffHqn)
                                                              + CountIn(inventory, Inv) + CountIn(inventory, Nand2);
            && (r == Err(MissingSection) <==> !complete)
            && (r.Ok? <==> complete && DffAsrHqn in inventory && DffHqn in inventory && Inv in inventory && Nand2 in inventory)
            && (r.Err? && complete ==> r.error == KeyError)
            && (r.Ok? ==> && r.value.cells == total && r.value.registers == Registers(lines)
                          && r.value.area == inventory[DffAsrHqn] as real * 0.37908 + inventory[DffHqn] as real * 0.2916
                                             + inventory[Inv] as real * 0.04374 + inventory[Nand2] as real * 0.08748)
  {
  }

  /** The sum over the individual cells, on the library areas. */
  lemma LibraryAreas(types: seq<CellType>)
    ensures SumOfAreas(types) == CountOf(types, DffAsrHqn) as real * 0.37908 + CountOf(types, DffHqn) as real * 0.2916
                                 + CountOf(types, Inv) as real * 0.04374 + CountOf(types, Nand2) as real * 0.08748
  {
    CountsCoverAll(types);
  }

  lemma InventoryAppend(lines: seq<ReportLine>, types: seq<CellType>, t: CellType)
    ensures Inventory(lines + StatLine(types, t)) == WithCount(Inventory(lines), types, t)
    ensures Registers(lines + StatLine(types, t)) == Registers(lines) + (if IsFlop(Known(t)) then CountOf(types, t) else 0)
  {
    var line := StatLine(types, t);
    if line == [] {
      assert lines + line == lines;
    } else {
      assert (lines + line)[..|lines + line| - 1] == lines;
      RegistersAppend(lines, line[0]);
    }
  }

  lemma {:induction false} RegistersAppend(lines: seq<ReportLine>, line: ReportLine)
    ensures Registers(lines + [line]) == Registers(lines) + (if IsFlop(line.cell) then line.count else 0)
  {
    if lines != [] {
      assert (lines + [line])[1..] == lines[1..] + [line];
      RegistersAppend(lines[1..], line);
    }
  }

  function WithCount(inventory: map<CellType, nat>, types: seq<CellType>, t: CellType): map<CellType, nat> {
    if CountOf(types, t) == 0 then inventory else inventory[t := CountOf(types, t)]
  }

  ghost predicate Recovers(inventory: map<CellType, nat>, types: seq<CellType>, t: CellType) {
    (t in inventory <==> CountOf(types, t) > 0) && CountIn(inventory, t) == CountOf(types, t)
  }

  ghost predicate RecoversAll(inventory: map<CellType, nat>, types: seq<CellType>) {
    && Recovers(inventory, types, DffAsrHqn) && Recovers(inventory, types, DffHqn)
    && Recovers(inventory, types, Inv) && Recovers(inventory, types, Nand2)
  }

  function AllCounts(types: seq<CellType>): map<CellType, nat> {
    WithCount(WithCount(WithCount(WithCount(map[], types, DffAsrHqn), types, DffHqn), types, Inv), types, Nand2)
  }

  lemma PrintedInventory(types: seq<CellType>)
    ensures Inventory(StatLines(types)) == AllCounts(types)
    ensures Registers(StatLines(types)) == CountOf(types, DffAsrHqn) + CountOf(types, DffHqn)
  {
    var l1 := StatLine(types, DffAsrHqn);
    var l2 := l1 + StatLine(types, DffHqn);
    var l3 := l2 + StatLine(types, Inv);
    assert [] + l1 == l1;
    InventoryAppend([], types, DffAsrHqn);
    InventoryAppend(l1, types, DffHqn);
    InventoryAppend(l2, types, Inv);
    InventoryAppend(l3, types, Nand2);
    assert StatLines(types) == l3 + StatLine(types, Nand2);
  }

  /** Reading back a printed summary recovers the counts. */
  lemma StatLinesRoundTrip(types: seq<CellType>)
    ensures RecoversAll(Inventory(StatLines(types)), types)
    ensures Registers(StatLines(types)) == CountOf(types, DffAsrHqn) + CountOf(types, DffHqn)
  {
    PrintedInventory(types);
    assert RecoversAll(AllCounts(types), types);
  }

  ghost function ExactStatistics(types: seq<CellType>): Result<Statistics, ReportError> {
    var flops := CountOf(types, DffAsrHqn) + CountOf(types, DffHqn);
    if flops == 0 then Err(MissingSection)
    else if forall t: CellType :: CountOf(types, t) > 0 then Ok(Statistics(|types|, SumOfAreas(types), flops))
    else Err(KeyError)
  }

  lemma StatisticsFromCounts(lines: seq<ReportLine>, types: seq<CellType>)
    requires RecoversAll(Inventory(lines), types)
    requires Registers(lines) == CountOf(types, DffAsrHqn) + CountOf(types, DffHqn)
    ensures NativeStatistics(|types|, lines) == ExactStatistics(types)
  {
    CountsCoverAll(types);
    assert Covered(Inventory(lines)) == |types|;
    assert {DffAsrHqn, DffHqn, Inv, Nand2} <= Inventory(lines).Keys <==> forall t: CellType :: CountOf(types, t) > 0;
  }

  /** What the parser makes of the printed summary of any netlist. With all four cell
      types present it returns the sum of the areas of the individual cells. A netlist
      with flops that lacks one of the four types raises KeyError although its counts
      are complete. */
  lemma ReportedAreaIsExact(types: seq<CellType>)
    ensures NativeStatistics(|types|, StatLines(types)) == ExactStatistics(types)
  {
    StatLinesRoundTrip(types);
    StatisticsFromCounts(StatLines(types), types);
  }

  /** The smallest such netlist: one flop and one inverter. */
  lemma ReportWithoutNandRaises()
    ensures NativeStatistics(2, StatLines([DffHqn, Inv])) == Err(KeyError)
  {
    ReportedAreaIsExact([DffHqn, Inv]);
    assert CountOf([DffHqn, Inv], DffHqn) == 1 by { assert [DffHqn, Inv][1..] == [Inv]; }
    assert CountOf([DffHqn, Inv], DffAsrHqn) == 0 by { assert [DffHqn, Inv][1..] == [Inv]; }
  }

  /** From generic gates to the reported area: a mapped design whose flops have both
      library types and whose gates need both cell types is reported with the area that
      the per-gate cell counts predict. */
  lemma MappedDesignArea(gates: seq<Gate>, next: Wire, flops: seq<CellType>)
    requires CountOf(flops, DffAsrHqn) > 0 && CountOf(flops, DffHqn) > 0
    requires CountOf(flops, Inv) == 0 && CountOf(flops, Nand2) == 0
    requires 0 < TotalCells(gates).1 < TotalCells(gates).0
    ensures var types := Types(Map(gates, next)) + flops;
            var inverters := TotalCells(gates).1;
            NativeStatistics(|types|, StatLines(types)) ==
            Ok(Statistics(TotalCells(gates).0 + |flops|,
                          AreaTotal(0, 0, inverters, TotalCells(gates).0 - inverters) + SumOfAreas(flops),
                          |flops|))
  {
    var cells := Types(Map(gates, next));
    var types := cells + flops;
    MapCellCounts(gates, next);
    CountOfConcat(cells, flops, DffAsrHqn);
    CountOfConcat(cells, flops, DffHqn);
    CountOfConcat(cells, flops, Inv);
    CountOfConcat(cells, flops, Nand2);
    NoFlopsMapped(Map(gates, next));
    ReportedAreaIsExact(types);
    MappedDesignSums(cells, flops);
  }

  lemma MappedDesignSums(cells: seq<CellType>, flops: seq<CellType>)
    requires CountOf(flops, Inv) == 0 && CountOf(flops, Nand2) == 0
    requires CountOf(cells, DffAsrHqn) == 0 && CountOf(cells, DffHqn) == 0
    ensures SumOfAreas(cells + flops)
         == AreaTotal(0, 0, CountOf(cells, Inv), CountOf(cells, Nand2)) + SumOfAreas(flops)
    ensures |flops| == CountOf(flops, DffAsrHqn) + CountOf(flops, DffHqn)
  {
    CountsCoverAll(cells);
    CountsCoverAll(flops);
    SumOfAreasConcat(cells, flops);
  }

  lemma {:induction false} SumOfAreasConcat(a: seq<CellType>, b: seq<CellType>)
    ensures SumOfAreas(a + b) == SumOfAreas(a) + SumOfAreas(b)
  {
    if a == [] { assert a + b == b; } else {
      assert (a + b)[1..] == a[1..] + b;
      SumOfAreasConcat(a[1..], b);
    }
  }

  lemma {:induction false} NoFlopsMapped(cells: seq<Cell>)
    ensures CountOf(Types(cells), DffAsrHqn) == 0 && CountOf(Types(cells), DffHqn) == 0
  {
    if cells != [] {
      assert Types(cells)[1..] == Types(cells[1..]);
      NoFlopsMapped(cells[1..]);
    }
  }
}
