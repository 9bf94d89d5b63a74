/** `_canonicalize_vcd` (src/nova_rtl/benchmark/power.py): waveform dumps without the
    simulator's wall-clock date. */
module Vcd {
  import opened Prelude
  import opened Text

  const DATE := "$date"
  const BODY := "  NOVA_DETERMINISTIC"
  const END := "$end"

  /** What one line contributes, inside a date section or not. */
  function Emit(line: string, skipping: bool): seq<string> {
    if Strip(line) == DATE then [DATE, BODY, END] else if skipping then [] else [StripRight(line)]
  }

  function StillSkipping(line: string, skipping: bool): bool {
    Strip(line) == DATE || (skipping && Strip(line) != END)
  }

  /** The lines that come out from here on. */
  function Canon(lines: seq<string>, skipping: bool): seq<string> {
    if lines == [] then []
    else Emit(lines[0], skipping) + Canon(lines[1..], StillSkipping(lines[0], skipping))
  }

  /** "\n".join(lines) + "\n". */
  function Joined(lines: seq<string>): string { if lines == [] then "\n" else Printed(lines) }

  function Canonical(content: string): string { Joined(Canon(SplitLines(content), false)) }

  method CanonicalizeVcd(content: string) returns (r: string)
    ensures r == Canonical(content)
  {
    var lines := SplitLines(content);
    var canonical: seq<string>, skipping := [], false;
    var i := 0;
    assert lines[0..] == lines;
    while i < |lines|
      invariant 0 <= i <= |lines|
      invariant Canon(lines, false) == canonical + Canon(lines[i..], skipping)
    {
      var line := lines[i];
      CanonStep(lines, i, canonical, skipping);
      var stripped := Strip(line);
      i := i + 1;
      if stripped == DATE {
        canonical, skipping := canonical + [DATE, BODY, END], true;
        continue;
      }
      if skipping {
        if stripped == END { skipping := false; }
        continue;
      }
      canonical := canonical + [StripRight(line)];
    }
    assert canonical + [] == canonical;
    r := Joined(canonical);
  }

  lemma CanonStep(lines: seq<string>, i: nat, done: seq<string>, skipping: bool)
    requires i < |lines|
    ensures done + Canon(lines[i..], skipping)
              == done + Emit(lines[i], skipping) + Canon(lines[i + 1..], StillSkipping(lines[i], skipping))
    ensures done + [] == done
  {
    assert lines[i..][0] == lines[i] && lines[i..][1..] == lines[i + 1..];
  }

  // ------------------------------------------------------------------- what a dump is

  /** A dump as the reader of its date sections sees it: lines outside them, and sections
      made of their opening line, their body and their closing line, if they have one. */
  datatype Item = Plain(line: string) | Section(opening: string, body: seq<string>, closing: Option<string>)

  predicate Marker(line: string) { Strip(line) == DATE || Strip(line) == END }

  predicate ValidItem(item: Item) {
    match item
    case Plain(line) => Strip(line) != DATE
    case Section(opening, body, closing) =>
      && Strip(opening) == DATE && (forall l :: l in body ==> !Marker(l))
      && (closing.Some? ==> Strip(closing.value) == END)
  }

  /** A section without a closing line runs into the next section or the end of the dump. */
  predicate Valid(items: seq<Item>) {
    items == [] ||
    (ValidItem(items[0]) && Valid(items[1..])
     && (items[0].Section? && items[0].closing.None? ==> |items| == 1 || items[1].Section?))
  }

  function Lines(item: Item): seq<string> {
    match item
    case Plain(line) => [line]
    case Section(opening, body, closing) => [opening] + body + (if closing.Some? then [closing.value] else [])
  }

  function Flatten(items: seq<Item>): seq<string> {
    if items == [] then [] else Lines(items[0]) + Flatten(items[1..])
  }

  /** What each item becomes. */
  function Cleaned(item: Item): Item {
    match item
    case Plain(line) => Plain(StripRight(line))
    case Section(_, _, _) => Section(DATE, [BODY], Some(END))
  }

  function CleanedAll(items: seq<Item>): seq<Item> {
    if items == [] then [] else [Cleaned(items[0])] + CleanedAll(items[1..])
  }

  function BodyLength(lines: seq<string>): (n: nat)
    ensures n <= |lines| && (forall i :: 0 <= i < n ==> !Marker(lines[i])) && (n < |lines| ==> Marker(lines[n]))
  {
    if lines == [] || Marker(lines[0]) then 0 else 1 + BodyLength(lines[1..])
  }

  /** The first item and the number of lines it takes. */
  function Head(lines: seq<string>): (r: (Item, nat))
    requires lines != []
    ensures 1 <= r.1 <= |lines|
  {
    if Strip(lines[0]) != DATE then (Plain(lines[0]), 1)
    else
      var n := 1 + BodyLength(lines[1..]);
      if n < |lines| && Strip(lines[n]) == END then (Section(lines[0], lines[1..n], Some(lines[n])), n + 1)
      else (Section(lines[0], lines[1..n], None), n)
  }

  function Items(lines: seq<string>): seq<Item>
    decreases |lines|
  {
    if lines == [] then [] else [Head(lines).0] + Items(lines[Head(lines).1..])
  }

  lemma HeadSpec(lines: seq<string>)
    requires lines != []
    ensures var (item, k) := Head(lines);
            && ValidItem(item) && Lines(item) == lines[..k]
            && (item.Section? && item.closing.None? ==> k == |lines| || Strip(lines[k]) == DATE)
  {
    if Strip(lines[0]) == DATE {
      var n := 1 + BodyLength(lines[1..]);
      forall l | l in lines[1..n] ensures !Marker(l) {
        var i :| 0 <= i < n - 1 && lines[1..n][i] == l;
        assert lines[1..][i] == l;
      }
      if n < |lines| {
        assert lines[1..][n - 1] == lines[n];
        assert lines[..n + 1] == [lines[0]] + lines[1..n] + [lines[n]];
      }
      assert lines[..n] == [lines[0]] + lines[1..n] + [];
    }
  }

  lemma ValidCons(item: Item, items: seq<Item>)
    requires ValidItem(item) && Valid(items)
    requires item.Section? && item.closing.None? ==> items == [] || items[0].Section?
    ensures Valid([item] + items) && Flatten([item] + items) == Lines(item) + Flatten(items)
  {
    assert ([item] + items)[1..] == items;
  }

  /** Every dump is such a list of items. */
  lemma {:induction false} EveryDumpHasItems(lines: seq<string>)
    ensures Valid(Items(lines)) && Flatten(Items(lines)) == lines
    decreases |lines|
  {
    if lines != [] {
      var k := Head(lines).1;
      EveryDumpHasItems(lines[k..]);
      HeadThenRest(lines, k, Items(lines[k..]));
    }
  }

  lemma HeadThenRest(lines: seq<string>, k: nat, rest: seq<Item>)
    requires lines != [] && k == Head(lines).1 && Valid(rest) && Flatten(rest) == lines[k..]
    ensures Valid([Head(lines).0] + rest) && Flatten([Head(lines).0] + rest) == lines
  {
    var item := Head(lines).0;
    HeadSpec(lines);
    assert lines == lines[..k] + lines[k..];
    if item.Section? && item.closing.None? && rest != [] { HeadOfFlat(rest); }
    ValidCons(item, rest);
  }

  /** The first line of a nonempty list of items tells what its first item is. */
  lemma HeadOfFlat(items: seq<Item>)
    requires items != [] && Valid(items)
    ensures Flatten(items) != [] && (Strip(Flatten(items)[0]) == DATE <==> items[0].Section?)
  {
  }

  // --------------------------------------------------------------------- main theorems

  lemma {:induction false} CanonBody(body: seq<string>, rest: seq<string>)
    requires forall l :: l in body ==> !Marker(l)
    ensures Canon(body + rest, true) == Canon(rest, true)
  {
    if body == [] {
      assert body + rest == rest;
    } else {
      assert (body + rest)[1..] == body[1..] + rest && body[0] in body;
      CanonBody(body[1..], rest);
      assert [] + Canon(body[1..] + rest, true) == Canon(body[1..] + rest, true);
    }
  }

  lemma CanonCons(line: string, rest: seq<string>, skipping: bool)
    ensures Canon([line] + rest, skipping) == Emit(line, skipping) + Canon(rest, StillSkipping(line, skipping))
  {
    assert ([line] + rest)[1..] == rest;
  }

  lemma CanonSection(s: Item, rest: seq<string>, skipping: bool)
    requires s.Section? && ValidItem(s)
    ensures Canon(Lines(s) + rest, skipping) == [DATE, BODY, END] + Canon(rest, s.closing.None?)
  {
    var tail := (if s.closing.Some? then [s.closing.value] else []) + rest;
    assert Lines(s) + rest == [s.opening] + (s.body + tail);
    CanonCons(s.opening, s.body + tail, skipping);
    CanonBody(s.body, tail);
    CanonClosing(s.closing, rest);
  }

  lemma CanonClosing(closing: Option<string>, rest: seq<string>)
    requires closing.Some? ==> Strip(closing.value) == END
    ensures Canon((if closing.Some? then [closing.value] else []) + rest, true) == Canon(rest, closing.None?)
  {
    if closing.Some? {
      CanonCons(closing.value, rest, true);
    } else {
      assert [] + rest == rest;
    }
  }

  /** The whole function, item by item: plain lines lose trailing whitespace only and keep
      their order, and each date section becomes the same three lines, whatever its body and
      whether or not it is closed. */
  lemma {:induction false} CanonicalizesItems(items: seq<Item>, skipping: bool)
    requires Valid(items) && (skipping ==> items == [] || items[0].Section?)
    ensures Canon(Flatten(items), skipping) == Flatten(CleanedAll(items))
  {
    if items != [] {
      var rest := Flatten(items[1..]);
      match items[0] {
        case Plain(line) =>
          CanonCons(line, rest, false);
          CanonicalizesItems(items[1..], false);
        case Section(_, _, closing) =>
          CanonSection(items[0], rest, skipping);
          CanonicalizesItems(items[1..], closing.None?);
          assert Lines(Cleaned(items[0])) == [DATE, BODY, END];
      }
    }
  }

  /** Two dumps with the same plain lines around the same sections come out equal, whatever
      stands inside the sections. */
  predicate SameButDates(a: seq<Item>, b: seq<Item>) {
    |a| == |b| && forall i :: 0 <= i < |a| ==> a[i] == b[i] || (a[i].Section? && b[i].Section?)
  }

  lemma {:induction false} DatesDoNotMatter(a: seq<Item>, b: seq<Item>)
    requires Valid(a) && Valid(b) && SameButDates(a, b)
    ensures Canon(Flatten(a), false) == Canon(Flatten(b), false)
  {
    CanonicalizesItems(a, false);
    CanonicalizesItems(b, false);
    SameCleaned(a, b);
  }

  lemma {:induction false} SameCleaned(a: seq<Item>, b: seq<Item>)
    requires SameButDates(a, b)
    ensures CleanedAll(a) == CleanedAll(b)
  {
    if a != [] { SameCleaned(a[1..], b[1..]); }
  }

  lemma ConstantsStrip()
    ensures Strip(DATE) == DATE && Strip(END) == END && Strip(BODY) == "NOVA_DETERMINISTIC"
  {
    assert StripLeft(BODY) == StripLeft(BODY[1..]) == StripLeft(BODY[1..][1..]);
    assert BODY[1..][1..] == "NOVA_DETERMINISTIC";
  }

  lemma {:induction false} CleanedIsValidAndFixed(items: seq<Item>)
    requires Valid(items)
    ensures Valid(CleanedAll(items)) && CleanedAll(CleanedAll(items)) == CleanedAll(items)
  {
    if items != [] {
      CleanedIsValidAndFixed(items[1..]);
      ConstantsStrip();
      if items[0].Plain? { StripStripRight(items[0].line); }
      assert CleanedAll(items)[1..] == CleanedAll(items[1..]);
    }
  }

  lemma CleanedItemOneLine(item: Item)
    requires item.Plain? ==> OneLine(item.line)
    ensures forall l :: l in Lines(Cleaned(item)) ==> OneLine(l)
  {
    if item.Plain? {
      StripStripRight(item.line);
    } else {
      assert OneLine(DATE) && OneLine(BODY) && OneLine(END);
    }
  }

  lemma {:induction false} CleanedOneLine(items: seq<Item>)
    requires forall l :: l in Flatten(items) ==> OneLine(l)
    ensures forall l :: l in Flatten(CleanedAll(items)) ==> OneLine(l)
  {
    if items != [] {
      var here, rest := Lines(items[0]), Flatten(items[1..]);
      assert Flatten(items) == here + rest;
      forall l | l in rest ensures OneLine(l) { assert l in here + rest; }
      CleanedOneLine(items[1..]);
      if items[0].Plain? { assert items[0].line in here + rest; }
      CleanedItemOneLine(items[0]);
      var clean := [Cleaned(items[0])] + CleanedAll(items[1..]);
      assert clean[1..] == CleanedAll(items[1..]);
      assert Flatten(clean) == Lines(Cleaned(items[0])) + Flatten(CleanedAll(items[1..]));
    }
  }

  /** Canonicalizing twice is canonicalizing once, for every text. */
  lemma CanonicalIsIdempotent(content: string)
    ensures Canonical(Canonical(content)) == Canonical(content)
  {
    var lines := SplitLines(content);
    var items := Items(lines);
    var clean := CleanedAll(items);
    EveryDumpHasItems(lines);
    SplitLinesOneLine(content);
    CanonicalizesItems(items, false);
    CleanedIsValidAndFixed(items);
    CanonicalizesItems(clean, false);
    CleanedOneLine(items);
    var out := Flatten(clean);
    if out == [] {
      assert SplitLines("\n") == [""];
      assert Canon([""], false) == [""];
      assert Printed([""]) == "\n";
    } else {
      SplitInvertsPrinted(out);
    }
  }
}
