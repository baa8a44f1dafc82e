/** Reading a report back: the text cut into lines, each `[...]` line
    opening a section whose `key=value` lines run up to the next blank line.
    This is the inverse the report format is designed for; it recovers every
    section exactly when no header, key or value carries a line feed and no
    key carries `=`. */
module Reader {
  import opened Text
  import opened Outline

  /** A section as read back: the text between the brackets and its lines. */
  datatype Entry = Entry(header: string, fields: seq<Field>)

  /** The entries a reader should recover from a rendering of `secs`. */
  function Entries(secs: seq<Section>): (es: seq<Entry>)
    ensures |es| == |secs|
    ensures forall i :: 0 <= i < |secs| ==> es[i] == Entry(Header(secs[i]), secs[i].fields)
  {
    if |secs| == 0 then [] else [Entry(Header(secs[0]), secs[0].fields)] + Entries(secs[1..])
  }

  predicate IsHeaderLine(line: string) {
    |line| >= 2 && line[0] == '[' && line[|line| - 1] == ']'
  }

  /** A field line cut at its first `=`; a line without one is all key. */
  function ReadField(line: string): (f: Field)
    ensures '=' !in f.key
    ensures '=' in line ==> line == f.key + "=" + f.value
    ensures '=' !in line ==> f == Field(line, "")
  {
    if |line| == 0 then Field("", "")
    else if line[0] == '=' then Field("", line[1..])
    else
      var f := ReadField(line[1..]);
      assert line == [line[0]] + line[1..];
      Field([line[0]] + f.key, f.value)
  }

  /** The field lines up to the first blank line, and the lines from there. */
  function FieldBlock(lines: seq<string>): (block: (seq<Field>, seq<string>))
    ensures |block.1| <= |lines|
  {
    if |lines| == 0 || lines[0] == "" then ([], lines)
    else
      var (fs, rest) := FieldBlock(lines[1..]);
      ([ReadField(lines[0])] + fs, rest)
  }

  /** The entries of a list of lines: blank lines and stray lines before a
      header are skipped. */
  function ParseLines(lines: seq<string>): seq<Entry>
    decreases |lines|
  {
    if |lines| == 0 then []
    else if IsHeaderLine(lines[0]) then
      var block := FieldBlock(lines[1..]);
      [Entry(lines[0][1..|lines[0]| - 1], block.0)] + ParseLines(block.1)
    else ParseLines(lines[1..])
  }

  /** The entries of a report text. */
  function Parse(text: string): seq<Entry> {
    ParseLines(Split(text, '\n'))
  }

  // ---------------------------------------------------------------------
  // When reading succeeds

  /** A field whose line reads back as itself. */
  predicate ReadableField(f: Field) {
    '\n' !in f.key && '=' !in f.key && '\n' !in f.value
  }

  /** A section whose header and lines read back as themselves. */
  predicate ReadableSection(s: Section) {
    '\n' !in Header(s) && forall j :: 0 <= j < |s.fields| ==> ReadableField(s.fields[j])
  }

  predicate Readable(secs: seq<Section>) {
    forall i :: 0 <= i < |secs| ==> ReadableSection(secs[i])
  }

  function FieldLine(f: Field): string {
    f.key + "=" + f.value
  }

  function FieldLines(fs: seq<Field>): seq<string> {
    if |fs| == 0 then [] else [FieldLine(fs[0])] + FieldLines(fs[1..])
  }

  /** The lines of a section's text: header, fields, and the blank line its
      final line feed leaves before whatever follows. */
  function SectionLines(s: Section): seq<string> {
    ["[" + Header(s) + "]"] + FieldLines(s.fields) + [""]
  }

  function Lines(secs: seq<Section>): seq<string> {
    if |secs| == 0 then [] else SectionLines(secs[0]) + Lines(secs[1..])
  }

  /** A field's line reads back as the field. */
  lemma ReadFieldLine(f: Field)
    requires '=' !in f.key
    ensures ReadField(FieldLine(f)) == f
  {
    var g := ReadField(FieldLine(f));
    assert '=' in FieldLine(f) by {
      assert FieldLine(f)[|f.key|] == '=';
    }
    assert FieldLine(f) == g.key + "=" + g.value;
    FirstEquals(f.key, f.value, g.key, g.value);
  }

  /** Two cuts of one line at an `=` that neither key contains are the same cut. */
  lemma FirstEquals(k1: string, v1: string, k2: string, v2: string)
    requires '=' !in k1 && '=' !in k2
    requires k1 + "=" + v1 == k2 + "=" + v2
    ensures k1 == k2 && v1 == v2
  {
    var line := k1 + "=" + v1;
    FirstEqualsAt(k1, v1);
    FirstEqualsAt(k2, v2);
    assert |k1| == |k2|;
    assert k1 == line[..|k1|] == k2;
    assert v1 == line[|k1| + 1..] == v2;
  }

  /** In a field line the first `=` is the one after the key. */
  lemma FirstEqualsAt(k: string, v: string)
    requires '=' !in k
    ensures (k + "=" + v)[|k|] == '='
    ensures forall i :: 0 <= i < |k| ==> (k + "=" + v)[i] == k[i] != '='
  {
  }

  /** Cutting the text of some fields followed by `rest` into lines gives the
      fields' lines, then the lines of `rest`. */
  lemma {:induction false} SplitFieldsText(fs: seq<Field>, rest: string)
    requires forall j :: 0 <= j < |fs| ==> ReadableField(fs[j])
    ensures Split(FieldsText(fs) + rest, '\n') == FieldLines(fs) + Split(rest, '\n')
    decreases |fs|
  {
    if |fs| > 0 {
      var line := FieldLine(fs[0]);
      assert ReadableField(fs[0]);
      assert '\n' !in line;
      SplitFieldsText(fs[1..], rest);
      assert FieldsText(fs) + rest == line + ['\n'] + (FieldsText(fs[1..]) + rest);
      SplitAround(line, '\n', FieldsText(fs[1..]) + rest);
      SplitWithoutSeparator(line, '\n');
      assert Split(FieldsText(fs) + rest, '\n') == [line] + (FieldLines(fs[1..]) + Split(rest, '\n'));
      assert FieldLines(fs) == [line] + FieldLines(fs[1..]);
    } else {
      assert FieldsText(fs) + rest == rest;
    }
  }

  /** Cutting a section's text followed by `rest` into lines gives the
      header line and the field lines, then the lines of `rest`. */
  lemma SplitSectionText(s: Section, rest: string)
    requires ReadableSection(s)
    ensures Split(SectionText(s) + rest, '\n')
         == ["[" + Header(s) + "]"] + FieldLines(s.fields) + Split(rest, '\n')
  {
    var head := "[" + Header(s) + "]";
    assert '\n' !in head;
    assert SectionText(s) + rest == head + ['\n'] + (FieldsText(s.fields) + rest);
    SplitAround(head, '\n', FieldsText(s.fields) + rest);
    SplitWithoutSeparator(head, '\n');
    SplitFieldsText(s.fields, rest);
  }

  /** Cutting a rendering of `s` then `rest` into lines gives the lines of
      `s`, then those of the rendering of `rest`. */
  lemma SplitRenderCons(s: Section, rest: seq<Section>)
    requires ReadableSection(s) && |rest| >= 1
    ensures Split(Render([s] + rest), '\n') == SectionLines(s) + Split(Render(rest), '\n')
  {
    var r := Render(rest);
    assert Render([s] + rest) == SectionText(s) + ("\n" + r) by {
      RenderAppend([s], rest);
      assert Render([s]) == SectionText(s);
    }
    assert Split("\n" + r, '\n') == [""] + Split(r, '\n') by {
      assert "\n" + r == "" + ['\n'] + r;
      SplitAround("", '\n', r);
    }
    SplitSectionText(s, "\n" + r);
  }

  /** Cutting a rendering into lines gives each section's lines in turn. */
  lemma {:induction false} SplitRender(secs: seq<Section>)
    requires |secs| >= 1 && Readable(secs)
    ensures Split(Render(secs), '\n') == Lines(secs)
    decreases |secs|
  {
    var s := secs[0];
    assert ReadableSection(s);
    if |secs| == 1 {
      assert Render(secs) == SectionText(s) + "";
      SplitSectionText(s, "");
      assert Lines(secs[1..]) == [];
    } else {
      var rest := secs[1..];
      assert secs == [s] + rest;
      SplitRenderCons(s, rest);
      SplitRender(rest);
    }
  }

  /** The field block of a section's lines is its fields, and it stops at
      the blank line. */
  lemma {:induction false} FieldBlockOfLines(fs: seq<Field>, more: seq<string>)
    requires forall j :: 0 <= j < |fs| ==> ReadableField(fs[j])
    ensures FieldBlock(FieldLines(fs) + [""] + more) == (fs, [""] + more)
    decreases |fs|
  {
    var lines := FieldLines(fs) + [""] + more;
    if |fs| == 0 {
      assert lines == [""] + more;
    } else {
      assert ReadableField(fs[0]);
      assert lines[0] == FieldLine(fs[0]);
      assert FieldLine(fs[0])[|fs[0].key|] == '=';
      assert lines[1..] == FieldLines(fs[1..]) + [""] + more;
      FieldBlockOfLines(fs[1..], more);
      ReadFieldLine(fs[0]);
      assert fs == [fs[0]] + fs[1..];
    }
  }

  /** Reading a section's lines followed by `more` gives the section's
      entry, then the entries of `more`. */
  lemma ParseLinesCons(s: Section, more: seq<string>)
    requires ReadableSection(s)
    ensures ParseLines(SectionLines(s) + more) == [Entry(Header(s), s.fields)] + ParseLines(more)
  {
    var head := "[" + Header(s) + "]";
    var lines := SectionLines(s) + more;
    assert lines == [head] + (FieldLines(s.fields) + [""] + more);
    assert IsHeaderLine(head) && head[1..|head| - 1] == Header(s);
    FieldBlockOfLines(s.fields, more);
    assert ([""] + more)[1..] == more;
  }

  /** Reading the lines of readable sections gives their entries back. */
  lemma {:induction false} ParseLinesOfLines(secs: seq<Section>)
    requires Readable(secs)
    ensures ParseLines(Lines(secs)) == Entries(secs)
    decreases |secs|
  {
    if |secs| > 0 {
      assert ReadableSection(secs[0]);
      ParseLinesCons(secs[0], Lines(secs[1..]));
      ParseLinesOfLines(secs[1..]);
    }
  }

  /** Reading a rendering of readable sections gives back every section's
      header and lines, in order. */
  lemma ParseRender(secs: seq<Section>)
    requires Readable(secs)
    ensures Parse(Render(secs)) == Entries(secs)
  {
    if |secs| == 0 {
      assert Render(secs) == "";
    } else {
      SplitRender(secs);
      ParseLinesOfLines(secs);
    }
  }

  /** The lines of a one-field section whose value holds one line feed. */
  lemma LinesWithLineFeed(s: Section, k: string, a: string, b: string)
    requires '\n' !in Header(s) && '\n' !in k && '\n' !in a && '\n' !in b
    requires s.fields == [Field(k, a + "\n" + b)]
    ensures Split(Render([s]), '\n') == ["[" + Header(s) + "]", k + "=" + a, b, ""]
  {
    var head := "[" + Header(s) + "]";
    var first := k + "=" + a;
    assert '\n' !in first;
    assert Render([s]) == SectionText(s);
    assert FieldsText(s.fields) == k + "=" + (a + "\n" + b) + "\n" + FieldsText([]);
    assert SectionText(s) == head + ['\n'] + (first + ['\n'] + (b + ['\n'] + ""));
    SplitAround(head, '\n', first + ['\n'] + (b + ['\n'] + ""));
    SplitAround(first, '\n', b + ['\n'] + "");
    SplitAround(b, '\n', "");
    SplitWithoutSeparator(head, '\n');
    SplitWithoutSeparator(first, '\n');
    SplitWithoutSeparator(b, '\n');
  }

  /** A value holding a line feed does not survive: the part after the line
      feed is read as a line of its own, so the reader sees one field more
      than was written and a truncated value. This is why the converter
      collapses line feeds in multi-line values before printing them. */
  lemma LineFeedInValueSplitsField(s: Section, k: string, a: string, b: string)
    requires '\n' !in Header(s)
    requires ReadableField(Field(k, a)) && b != "" && '\n' !in b && '=' !in b
    requires s.fields == [Field(k, a + "\n" + b)]
    ensures Parse(Render([s])) == [Entry(Header(s), [Field(k, a), Field(b, "")])]
    ensures Parse(Render([s])) != Entries([s])
  {
    var head := "[" + Header(s) + "]";
    var lines := [head, k + "=" + a, b, ""];
    LinesWithLineFeed(s, k, a, b);
    ReadFieldLine(Field(k, a));
    assert FieldBlock(lines[1..][1..][1..]) == ([], [""]);
    assert ReadField(b) == Field(b, "");
    assert FieldBlock(lines[1..][1..]).0 == [Field(b, "")] + [];
    assert FieldBlock(lines[1..][1..]).1 == [""];
    assert FieldBlock(lines[1..]).0 == [Field(k, a)] + [Field(b, "")];
    assert FieldBlock(lines[1..]).1 == [""];
    assert IsHeaderLine(head) && head[1..|head| - 1] == Header(s);
    assert ParseLines([""]) == [];
    assert Parse(Render([s])) == ParseLines(lines);
    var block := FieldBlock(lines[1..]);
    assert block.0 == [Field(k, a), Field(b, "")] && block.1 == [""];
    assert lines[0] == head;
    assert ParseLines(lines) == [Entry(head[1..|head| - 1], block.0)] + ParseLines(block.1);
    assert Entries([s])[0].fields == [Field(k, a + "\n" + b)];
  }
}
