/** `summary_fields` (src/nova_rtl/adapters/base.py) and what it reads back. */
module Summary {
  import opened Prelude
  import opened Text

  datatype ReportError = MissingSection | MalformedReport

  /** Index of the first occurrence at or after `from`. */
  function IndexFrom<T(==)>(s: seq<T>, x: T, from: nat): Option<nat>
    decreases |s| - from
  {
    if from >= |s| then None else if s[from] == x then Some(from) else IndexFrom(s, x, from + 1)
  }

  lemma {:induction false} IndexFromSpec<T>(s: seq<T>, x: T, from: nat)
    ensures var i := IndexFrom(s, x, from);
            && (i.None? ==> forall k :: from <= k < |s| ==> s[k] != x)
            && (i.Some? ==> from <= i.value < |s| && s[i.value] == x && forall k :: from <= k < i.value ==> s[k] != x)
    decreases |s| - from
  {
    if from < |s| && s[from] != x { IndexFromSpec(s, x, from + 1); }
  }

  datatype Field = Field(key: string, value: string)

  /** A line as a field: both sides of its first colon, stripped and nonempty. */
  function ParseLine(line: string): Option<Field> {
    var colon := IndexFrom(line, ':', 0);
    if colon.None? then None
    else
      IndexFromSpec(line, ':', 0);
      var key, value := Strip(line[..colon.value]), Strip(line[colon.value + 1..]);
      if key == "" || value == "" then None else Some(Field(key, value))
  }

  /** A line is a field exactly when it has a colon with something but spaces on both sides of
      the first one; the field is what is left there without the outer spaces. */
  lemma ParseLineIff(line: string, f: Field)
    ensures ParseLine(line) == Some(f) <==>
            exists k :: 0 <= k < |line| && line[k] == ':' && ':' !in line[..k]
                        && Strip(line[..k]) == f.key != "" && Strip(line[k + 1..]) == f.value != ""
    ensures ParseLine(line).None? <==>
            forall k :: 0 <= k < |line| && line[k] == ':' && ':' !in line[..k] ==> AllSpace(line[..k]) || AllSpace(line[k + 1..])
  {
    var colon := IndexFrom(line, ':', 0);
    IndexFromSpec(line, ':', 0);
    if colon.Some? {
      StripEmptyIff(line[..colon.value]);
      StripEmptyIff(line[colon.value + 1..]);
      assert ':' !in line[..colon.value];
      forall k | 0 <= k < |line| && line[k] == ':' && ':' !in line[..k] ensures k == colon.value {
        forall x | 0 <= x < k ensures line[x] != ':' { assert line[..k][x] in line[..k]; }
      }
    }
  }

  predicate Blank(line: string) { Strip(line) == "" }

  lemma BlankIff(line: string)
    ensures Blank(line) <==> AllSpace(line)
  {
    StripEmptyIff(line);
  }

  /** The field loop from here on. */
  function Fields(lines: seq<string>, fields: map<string, string>): Result<map<string, string>, ReportError>
    decreases lines
  {
    if lines == [] then Ok(fields)
    else if Blank(lines[0]) then Fields(lines[1..], fields)
    else
      match ParseLine(lines[0])
      case None => Err(MalformedReport)
      case Some(f) =>
        if f.key in fields then Err(MalformedReport) else Fields(lines[1..], fields[f.key := f.value])
  }

  function SummaryOf(text: string, start: string, end: string): Result<map<string, string>, ReportError> {
    var lines := SplitLines(text);
    var first := IndexFrom(lines, start, 0);
    if first.None? then Err(MissingSection)
    else
      var last := IndexFrom(lines, end, first.value + 1);
      if last.None? || last.value <= first.value + 1 then Err(MissingSection)
      else
        IndexFromSpec(lines, end, first.value + 1);
        Fields(lines[first.value + 1..last.value], map[])
  }

  method SummaryFields(text: string, start: string, end: string) returns (r: Result<map<string, string>, ReportError>)
    ensures r == SummaryOf(text, start, end)
  {
    var lines := SplitLines(text);
    var first := IndexFrom(lines, start, 0);
    if first.None? { return Err(MissingSection); }
    var last := IndexFrom(lines, end, first.value + 1);
    if last.None? { return Err(MissingSection); }
    if last.value <= first.value + 1 { return Err(MissingSection); }
    IndexFromSpec(lines, end, first.value + 1);
    var section := lines[first.value + 1..last.value];
    var fields: map<string, string> := map[];
    var i := 0;
    assert section[0..] == section;
    while i < |section|
      invariant 0 <= i <= |section|
      invariant Fields(section, map[]) == Fields(section[i..], fields)
    {
      var line := section[i];
      assert section[i..][0] == line && section[i..][1..] == section[i + 1..];
      i := i + 1;
      if Blank(line) { continue; }
      var colon := IndexFrom(line, ':', 0);
      if colon.None? { return Err(MalformedReport); }
      IndexFromSpec(line, ':', 0);
      var key, value := Strip(line[..colon.value]), Strip(line[colon.value + 1..]);
      if key == "" || value == "" || key in fields { return Err(MalformedReport); }
      fields := fields[key := value];
    }
    r := Ok(fields);
  }

  // ------------------------------------------------------------------- what it accepts

  /** The fields of the nonblank lines in order, if every one of them is a field. */
  function Content(lines: seq<string>): Option<seq<Field>> {
    if lines == [] then Some([])
    else
      var rest := Content(lines[1..]);
      if Blank(lines[0]) then rest
      else if ParseLine(lines[0]).None? || rest.None? then None
      else Some([ParseLine(lines[0]).value] + rest.value)
  }

  predicate FreshKeys(fs: seq<Field>, fields: map<string, string>) {
    && (forall i :: 0 <= i < |fs| ==> fs[i].key !in fields)
    && (forall i, j :: 0 <= i < j < |fs| ==> fs[i].key != fs[j].key)
  }

  function AddAll(fs: seq<Field>, fields: map<string, string>): map<string, string> {
    if fs == [] then fields else AddAll(fs[1..], fields[fs[0].key := fs[0].value])
  }

  /** The loop succeeds exactly when every nonblank line is a field with a key of its own,
      and then it has collected all of them. */
  lemma {:induction false} FieldsSpec(lines: seq<string>, fields: map<string, string>)
    ensures var c := Content(lines);
            Fields(lines, fields)
              == if c.Some? && FreshKeys(c.value, fields) then Ok(AddAll(c.value, fields)) else Err(MalformedReport)
    decreases lines
  {
    if lines != [] {
      if Blank(lines[0]) {
        FieldsSpec(lines[1..], fields);
      } else if ParseLine(lines[0]).Some? {
        var f := ParseLine(lines[0]).value;
        FieldsSpec(lines[1..], fields[f.key := f.value]);
        var c := Content(lines[1..]);
        if c.Some? { FreshKeysCons(f, c.value, fields); }
      }
    }
  }

  lemma FreshKeysCons(f: Field, fs: seq<Field>, fields: map<string, string>)
    ensures FreshKeys([f] + fs, fields) <==> f.key !in fields && FreshKeys(fs, fields[f.key := f.value])
    ensures AddAll([f] + fs, fields) == AddAll(fs, fields[f.key := f.value])
  {
    var all := [f] + fs;
    assert all[1..] == fs && all[0] == f;
    forall i | 0 <= i < |fs| ensures all[i + 1] == fs[i] {}
  }

  lemma {:induction false} AddAllSpec(fs: seq<Field>, fields: map<string, string>)
    requires FreshKeys(fs, fields)
    ensures forall i :: 0 <= i < |fs| ==> fs[i].key in AddAll(fs, fields) && AddAll(fs, fields)[fs[i].key] == fs[i].value
    ensures forall k :: k in fields ==> k in AddAll(fs, fields) && AddAll(fs, fields)[k] == fields[k]
    ensures forall k :: k in AddAll(fs, fields) ==> k in fields || exists i :: 0 <= i < |fs| && fs[i].key == k
  {
    if fs != [] {
      var next := fields[fs[0].key := fs[0].value];
      assert fs == [fs[0]] + fs[1..];
      FreshKeysCons(fs[0], fs[1..], fields);
      AddAllSpec(fs[1..], next);
      forall k | k in AddAll(fs, fields) ensures k in fields || exists i :: 0 <= i < |fs| && fs[i].key == k {
        if k !in next {
          var i :| 0 <= i < |fs[1..]| && fs[1..][i].key == k;
          assert fs[i + 1].key == k;
        }
      }
    }
  }

  /** Exactly the listed keys, each with its own value. */
  ghost predicate HoldsExactly(table: map<string, string>, fs: seq<Field>) {
    && (forall f :: f in fs ==> f.key in table && table[f.key] == f.value)
    && (forall k :: k in table ==> exists f :: f in fs && f.key == k)
  }

  lemma AddedExactly(fs: seq<Field>)
    requires FreshKeys(fs, map[])
    ensures HoldsExactly(AddAll(fs, map[]), fs)
  {
    AddAllSpec(fs, map[]);
    forall k | k in AddAll(fs, map[]) ensures exists f :: f in fs && f.key == k {
      var i :| 0 <= i < |fs| && fs[i].key == k;
      assert fs[i] in fs;
    }
  }

  lemma {:induction false} ContentSpec(lines: seq<string>)
    ensures Content(lines).Some? <==> forall l :: l in lines ==> Blank(l) || ParseLine(l).Some?
    ensures Content(lines).Some? ==>
              forall f :: f in Content(lines).value <==> exists l :: l in lines && !Blank(l) && ParseLine(l) == Some(f)
  {
    if lines != [] {
      ContentSpec(lines[1..]);
      assert lines == [lines[0]] + lines[1..];
      assert lines[0] in lines && forall l :: l in lines[1..] ==> l in lines;
    }
  }

  /** The lines between the first start marker and the first end marker behind it. */
  function Section(lines: seq<string>, start: string, end: string): Option<seq<string>> {
    var first := IndexFrom(lines, start, 0);
    if first.None? then None
    else
      IndexFromSpec(lines, start, 0);
      var last := IndexFrom(lines, end, first.value + 1);
      if last.None? then None
      else
        IndexFromSpec(lines, end, first.value + 1);
        Some(lines[first.value + 1..last.value])
  }

  lemma SummaryBySection(text: string, start: string, end: string)
    ensures var section := Section(SplitLines(text), start, end);
            SummaryOf(text, start, end)
              == if section.None? || section.value == [] then Err(MissingSection) else Fields(section.value, map[])
  {
    var lines := SplitLines(text);
    var first := IndexFrom(lines, start, 0);
    if first.Some? { IndexFromSpec(lines, end, first.value + 1); }
  }

  /** Parsing succeeds exactly when both markers are there with something between them,
      every nonblank line between them is a well-formed field, and no key repeats; the result
      then has exactly these fields. It fails for the section or else for its contents. */
  lemma SummarySucceedsIff(text: string, start: string, end: string)
    ensures var section := Section(SplitLines(text), start, end);
            SummaryOf(text, start, end).Ok? <==>
              && section.Some? && section.value != []
              && (forall l :: l in section.value ==> Blank(l) || ParseLine(l).Some?)
              && Content(section.value).Some? && FreshKeys(Content(section.value).value, map[])
    ensures var section := Section(SplitLines(text), start, end);
            SummaryOf(text, start, end).Ok? ==> HoldsExactly(SummaryOf(text, start, end).value, Content(section.value).value)
    ensures var section := Section(SplitLines(text), start, end);
            SummaryOf(text, start, end).Err? ==>
              SummaryOf(text, start, end).error == if section.None? || section.value == [] then MissingSection else MalformedReport
  {
    var section := Section(SplitLines(text), start, end);
    SummaryBySection(text, start, end);
    if section.Some? {
      FieldsSpec(section.value, map[]);
      ContentSpec(section.value);
      if SummaryOf(text, start, end).Ok? { AddedExactly(Content(section.value).value); }
    }
  }

  // ------------------------------------------------------------------------ round trip

  predicate Trimmed(s: string) { s != "" && !IsSpace(s[0]) && !IsSpace(s[|s| - 1]) }

  predicate Printable(f: Field) {
    Trimmed(f.key) && Trimmed(f.value) && ':' !in f.key && OneLine(f.key) && OneLine(f.value)
  }

  function FieldLine(f: Field): string { f.key + ": " + f.value }

  lemma {:induction false} StripKeeps(s: string, i: nat)
    requires i < |s| && !IsSpace(s[i])
    ensures Strip(s) != ""
  {
    StripLeftKeeps(s, i);
    var left := StripLeft(s);
    StripRightKeeps(left);
  }

  lemma {:induction false} StripLeftKeeps(s: string, i: nat)
    requires i < |s| && !IsSpace(s[i])
    ensures StripLeft(s) != "" && !IsSpace(StripLeft(s)[0])
  {
    if IsSpace(s[0]) { StripLeftKeeps(s[1..], i - 1); }
  }

  lemma {:induction false} StripRightKeeps(s: string)
    requires s != "" && !IsSpace(s[0])
    ensures StripRight(s) != ""
  {
    if IsSpace(s[|s| - 1]) { StripRightKeeps(s[..|s| - 1]); }
  }

  lemma IndexFromIs<T>(s: seq<T>, x: T, from: nat, k: nat)
    requires from <= k < |s| && s[k] == x && forall i :: from <= i < k ==> s[i] != x
    ensures IndexFrom(s, x, from) == Some(k)
  {
    IndexFromSpec(s, x, from);
  }

  lemma StripSpaced(value: string)
    requires Trimmed(value)
    ensures Strip(" " + value) == value
  {
    assert (" " + value)[1..] == value;
    assert StripLeft(" " + value) == value;
  }

  lemma ColonOfFieldLine(f: Field)
    requires ':' !in f.key
    ensures var line, k := FieldLine(f), |f.key|;
            && |line| > k && line[k] == ':' && line[..k] == f.key && line[k + 1..] == " " + f.value
            && IndexFrom(line, ':', 0) == Some(k)
  {
    var line, k := FieldLine(f), |f.key|;
    assert line[..k] == f.key && line[k + 1..] == " " + f.value;
    assert forall i :: 0 <= i < k ==> line[i] == f.key[i] && f.key[i] in f.key;
    IndexFromIs(line, ':', 0, k);
  }

  lemma FieldLineIsOneLine(f: Field)
    requires OneLine(f.key) && OneLine(f.value)
    ensures OneLine(FieldLine(f))
  {
  }

  /** A printed field is a nonblank line that parses to the field. */
  lemma FieldLineParses(f: Field)
    requires Printable(f)
    ensures !Blank(FieldLine(f)) && ParseLine(FieldLine(f)) == Some(f) && OneLine(FieldLine(f))
  {
    ColonOfFieldLine(f);
    FieldLineIsOneLine(f);
    StripKeeps(FieldLine(f), |f.key|);
    StripSpaced(f.value);
  }

  function FieldLines(fs: seq<Field>): seq<string> {
    if fs == [] then [] else [FieldLine(fs[0])] + FieldLines(fs[1..])
  }

  lemma {:induction false} ContentOfFieldLines(fs: seq<Field>)
    requires forall f :: f in fs ==> Printable(f)
    ensures Content(FieldLines(fs)) == Some(fs)
  {
    if fs != [] {
      FieldLineParses(fs[0]);
      ContentOfFieldLines(fs[1..]);
      assert fs == [fs[0]] + fs[1..];
    }
  }

  lemma {:induction false} FieldLinesApart(fs: seq<Field>, end: string)
    requires (forall f :: f in fs ==> Printable(f)) && ':' !in end
    ensures forall l :: l in FieldLines(fs) ==> OneLine(l) && l != end
  {
    if fs != [] {
      FieldLineParses(fs[0]);
      assert FieldLine(fs[0])[|fs[0].key|] == ':';
      FieldLinesApart(fs[1..], end);
    }
  }

  lemma PrintedSection(before: seq<string>, start: string, body: seq<string>, end: string, after: seq<string>)
    requires forall l :: l in before + [start, end] + after ==> OneLine(l)
    requires start !in before && body != [] && forall l :: l in body ==> OneLine(l) && l != end
    ensures SummaryOf(Printed(before + [start] + body + [end] + after), start, end) == Fields(body, map[])
  {
    var lines := before + [start] + body + [end] + after;
    forall l | l in lines ensures OneLine(l) {
      assert l in body || l in before + [start, end] + after;
    }
    SplitInvertsPrinted(lines);
    FramedSection(before, start, body, end, after);
    SummaryBySection(Printed(lines), start, end);
  }

  lemma FramedSection(before: seq<string>, start: string, body: seq<string>, end: string, after: seq<string>)
    requires start !in before && end !in body
    ensures Section(before + [start] + body + [end] + after, start, end) == Some(body)
  {
    var lines := before + [start] + body + [end] + after;
    var m, n := |before|, |before| + 1 + |body|;
    assert lines[m] == start && lines[n] == end && lines[m + 1..n] == body;
    assert forall i :: 0 <= i < m ==> lines[i] == before[i] && before[i] in before;
    assert forall i :: m + 1 <= i < n ==> lines[i] == body[i - m - 1] && body[i - m - 1] in body;
    IndexFromIs(lines, start, 0, m);
    IndexFromIs(lines, end, m + 1, n);
  }

  /** Reading undoes printing: any nonempty list of trimmed fields with distinct colon-free
      keys, framed by the markers behind arbitrary other output, reads back as that map. */
  lemma SummaryInvertsPrinting(before: seq<string>, start: string, fs: seq<Field>, end: string, after: seq<string>)
    requires forall l :: l in before + [start, end] + after ==> OneLine(l)
    requires start !in before && ':' !in end
    requires fs != [] && (forall f :: f in fs ==> Printable(f)) && FreshKeys(fs, map[])
    ensures var r := SummaryOf(Printed(before + [start] + FieldLines(fs) + [end] + after), start, end);
            r.Ok? && HoldsExactly(r.value, fs)
  {
    var body := FieldLines(fs);
    FieldLinesApart(fs, end);
    PrintedSection(before, start, body, end, after);
    ContentOfFieldLines(fs);
    FieldsSpec(body, map[]);
    AddedExactly(fs);
  }
}
