/** The structure of the report: an ordered sequence of named sections, each
    an ordered list of `key=value` fields, and its INI-like rendering. */
module Outline {
  import opened Wrappers
  import opened Seqs
  import opened Text

  /** One `key=value` line. */
  datatype Field = Field(key: string, value: string)

  /** A candidate line: a key and the optional value it would print. */
  datatype Slot = Slot(key: string, value: Option<string>)

  function Keys(fs: seq<Field>): seq<string> {
    seq(|fs|, i requires 0 <= i < |fs| => fs[i].key)
  }

  function SlotKeys(slots: seq<Slot>): seq<string> {
    seq(|slots|, i requires 0 <= i < |slots| => slots[i].key)
  }

  /** The values printed under `key`, in order. */
  function Values(fs: seq<Field>, key: string): seq<string> {
    if |fs| == 0 then []
    else (if fs[0].key == key then [fs[0].value] else []) + Values(fs[1..], key)
  }

  /** No value for `None`, one value for `Some(v)`. */
  function AsSeq(o: Option<string>): seq<string> {
    match o
    case None => []
    case Some(v) => [v]
  }

  predicate DistinctKeys(slots: seq<Slot>) {
    forall i, j :: 0 <= i < j < |slots| ==> slots[i].key != slots[j].key
  }

  /** The lines a list of candidate lines prints: a field for each slot whose
      value is present, none for an absent one. Every printed field comes from
      a present slot, and every present slot is printed. */
  function Present(slots: seq<Slot>): seq<Field>
  {
    if |slots| == 0 then []
    else
      var head := match slots[0].value
        case None => []
        case Some(v) => [Field(slots[0].key, v)];
      head + Present(slots[1..])
  }

  lemma {:induction false} ValuesAppend(a: seq<Field>, b: seq<Field>, key: string)
    ensures Values(a + b, key) == Values(a, key) + Values(b, key)
    decreases |a|
  {
    if |a| > 0 {
      assert (a + b)[1..] == a[1..] + b;
      ValuesAppend(a[1..], b, key);
    } else {
      assert a + b == b;
    }
  }

  /** Slots that are all unbound print nothing. */
  lemma {:induction false} PresentNothing(slots: seq<Slot>)
    requires forall i :: 0 <= i < |slots| ==> slots[i].value.None?
    ensures Present(slots) == []
    decreases |slots|
  {
    if |slots| > 0 {
      PresentNothing(slots[1..]);
    }
  }

  /** A key that no slot carries is never printed. */
  lemma {:induction false} PresentOmitsForeignKey(slots: seq<Slot>, key: string)
    requires forall i :: 0 <= i < |slots| ==> slots[i].key != key
    ensures Values(Present(slots), key) == []
    decreases |slots|
  {
    if |slots| > 0 {
      PresentOmitsForeignKey(slots[1..], key);
      var fs := Present(slots);
      var head := match slots[0].value
        case None => []
        case Some(v) => [Field(slots[0].key, v)];
      assert fs == head + Present(slots[1..]);
      ValuesAppend(head, Present(slots[1..]), key);
    }
  }

  /** With distinct keys, the key of slot `i` is printed exactly once with the
      slot's value when the value is present, and not at all otherwise. */
  lemma {:induction false} PresentValues(slots: seq<Slot>, i: nat)
    requires DistinctKeys(slots)
    requires i < |slots|
    ensures Values(Present(slots), slots[i].key) == AsSeq(slots[i].value)
    decreases |slots|
  {
    var key := slots[i].key;
    var head := match slots[0].value
      case None => []
      case Some(v) => [Field(slots[0].key, v)];
    assert Present(slots) == head + Present(slots[1..]);
    ValuesAppend(head, Present(slots[1..]), key);
    if i == 0 {
      PresentOmitsForeignKey(slots[1..], key);
    } else {
      PresentValues(slots[1..], i - 1);
    }
  }

  /** The printed keys appear in the order of their slots. */
  lemma {:induction false} PresentKeepsOrder(slots: seq<Slot>)
    ensures Subseq(Keys(Present(slots)), SlotKeys(slots))
    decreases |slots|
  {
    if |slots| > 0 {
      PresentKeepsOrder(slots[1..]);
      var rest := Present(slots[1..]);
      assert SlotKeys(slots) == [slots[0].key] + SlotKeys(slots[1..]);
      match slots[0].value
      case None =>
        assert Present(slots) == rest;
        SubseqWeaken(Keys(rest), SlotKeys(slots[1..]), slots[0].key);
      case Some(v) =>
        assert Present(slots) == [Field(slots[0].key, v)] + rest;
        assert Keys(Present(slots)) == [slots[0].key] + Keys(rest);
        SubseqCons(Keys(rest), slots[0].key, SlotKeys(slots[1..]));
    }
  }

  predicate Distinct(ks: seq<string>) {
    forall i, j :: 0 <= i < j < |ks| ==> ks[i] != ks[j]
  }

  /** Slots listed in an order without repeats have distinct keys. */
  lemma DistinctSlots(slots: seq<Slot>, order: seq<string>)
    requires SlotKeys(slots) == order && Distinct(order)
    ensures DistinctKeys(slots)
  {
    forall i, j | 0 <= i < j < |slots|
      ensures slots[i].key != slots[j].key
    {
      assert slots[i].key == order[i] && slots[j].key == order[j];
    }
  }

  /** A list of candidate lines whose keys are `order`, all distinct, prints
      the key `order[i]` exactly when slot `i` holds a value, prints no other
      key, and prints its keys in the order of `order`. */
  lemma PresentSpec(slots: seq<Slot>, order: seq<string>)
    requires SlotKeys(slots) == order && Distinct(order)
    ensures forall i :: 0 <= i < |slots| ==> Values(Present(slots), order[i]) == AsSeq(slots[i].value)
    ensures forall k :: k !in order ==> Values(Present(slots), k) == []
    ensures Subseq(Keys(Present(slots)), order)
  {
    assert forall i :: 0 <= i < |slots| ==> slots[i].key == order[i];
    assert DistinctKeys(slots);
    forall i | 0 <= i < |slots|
      ensures Values(Present(slots), order[i]) == AsSeq(slots[i].value)
    {
      PresentValues(slots, i);
    }
    forall k | k !in order
      ensures Values(Present(slots), k) == []
    {
      PresentOmitsForeignKey(slots, k);
    }
    PresentKeepsOrder(slots);
  }

  /** What a section is about; the header of a section is its kind's tag
      followed by the section's subject (empty for the single sections). */
  datatype Kind =
    | Metadata | Editor | Editors | Maker | Makers | Glance
    | Class | ClassNl | Property | PropertyNl

  function Tag(k: Kind): string {
    match k
    case Metadata => "metadata"
    case Editor => "editor:"
    case Editors => "editors"
    case Maker => "maker:"
    case Makers => "makers"
    case Glance => "glance"
    case Class => "class:"
    case ClassNl => "class_nl:"
    case Property => "property:"
    case PropertyNl => "property_nl:"
  }

  /** The position of a kind in the report's fixed section order. */
  function Rank(k: Kind): nat {
    match k
    case Metadata => 0
    case Editor => 1
    case Editors => 2
    case Maker => 3
    case Makers => 4
    case Glance => 5
    case Class => 6
    case ClassNl => 7
    case Property => 8
    case PropertyNl => 9
  }

  datatype Section = Section(kind: Kind, subject: string, fields: seq<Field>)

  function Header(s: Section): string {
    Tag(s.kind) + s.subject
  }

  function FieldsText(fs: seq<Field>): string {
    if |fs| == 0 then ""
    else fs[0].key + "=" + fs[0].value + "\n" + FieldsText(fs[1..])
  }

  function SectionText(s: Section): string {
    "[" + Header(s) + "]\n" + FieldsText(s.fields)
  }

  function Texts(secs: seq<Section>): seq<string> {
    seq(|secs|, i requires 0 <= i < |secs| => SectionText(secs[i]))
  }

  /** The report text: section texts separated by one line feed. Since every
      section text ends with a line feed, each header after the first is
      preceded by a blank line. */
  function Render(secs: seq<Section>): string {
    Join(Texts(secs), "\n")
  }

  /** Rendering two non-empty runs of sections puts a line feed between them:
      the second run starts on a fresh line after a blank one. */
  lemma RenderAppend(a: seq<Section>, b: seq<Section>)
    requires |a| >= 1 && |b| >= 1
    ensures Render(a + b) == Render(a) + "\n" + Render(b)
  {
    assert Texts(a + b) == Texts(a) + Texts(b);
    JoinAppend(Texts(a), Texts(b), "\n");
  }

  /** The text of a report starts with the text of its first section. */
  lemma RenderStartsWithFirst(secs: seq<Section>)
    requires |secs| >= 1
    ensures SectionText(secs[0]) <= Render(secs)
  {
    if |secs| > 1 {
      assert secs == [secs[0]] + secs[1..];
      RenderAppend([secs[0]], secs[1..]);
      assert Render([secs[0]]) == SectionText(secs[0]);
    }
  }

  /** The sections of kind `k`, in order. */
  function OfKind(secs: seq<Section>, k: Kind): seq<Section> {
    if |secs| == 0 then []
    else (if secs[0].kind == k then [secs[0]] else []) + OfKind(secs[1..], k)
  }

  predicate AllOfKind(secs: seq<Section>, k: Kind) {
    forall i :: 0 <= i < |secs| ==> secs[i].kind == k
  }

  /** The sections appear in the fixed order of their kinds. */
  predicate InOrder(secs: seq<Section>) {
    forall i, j :: 0 <= i < j < |secs| ==> Rank(secs[i].kind) <= Rank(secs[j].kind)
  }

  predicate RanksFrom(secs: seq<Section>, r: nat) {
    forall i :: 0 <= i < |secs| ==> r <= Rank(secs[i].kind)
  }

  lemma {:induction false} OfKindAppend(a: seq<Section>, b: seq<Section>, k: Kind)
    ensures OfKind(a + b, k) == OfKind(a, k) + OfKind(b, k)
    decreases |a|
  {
    if |a| == 0 {
      assert a + b == b;
    } else {
      var head := if a[0].kind == k then [a[0]] else [];
      assert (a + b)[0] == a[0] && (a + b)[1..] == a[1..] + b;
      assert OfKind(a + b, k) == head + OfKind(a[1..] + b, k);
      OfKindAppend(a[1..], b, k);
      assert OfKind(a, k) == head + OfKind(a[1..], k);
    }
  }

  /** A run of sections of one kind is all of that kind and none of any other. */
  lemma {:induction false} OfKindUniform(secs: seq<Section>, k: Kind, k': Kind)
    requires AllOfKind(secs, k)
    ensures OfKind(secs, k') == if k == k' then secs else []
    decreases |secs|
  {
    if |secs| > 0 {
      OfKindUniform(secs[1..], k, k');
      assert secs == [secs[0]] + secs[1..];
    }
  }

  /** Putting a run of one kind before sections of no lower rank keeps the
      order. */
  lemma PrependRun(run: seq<Section>, k: Kind, rest: seq<Section>)
    requires AllOfKind(run, k) && InOrder(rest) && RanksFrom(rest, Rank(k))
    ensures InOrder(run + rest) && RanksFrom(run + rest, Rank(k))
  {
    var all := run + rest;
    forall i, j | 0 <= i < j < |all|
      ensures Rank(all[i].kind) <= Rank(all[j].kind)
    {
      if j < |run| {
        assert all[i] == run[i] && all[j] == run[j];
      } else if i < |run| {
        assert all[i] == run[i] && all[j] == rest[j - |run|];
      } else {
        assert all[i] == rest[i - |run|] && all[j] == rest[j - |run|];
      }
    }
  }

  /** Every section text ends with a line feed. */
  lemma SectionTextEndsLine(s: Section)
    ensures |SectionText(s)| > 0 && SectionText(s)[|SectionText(s)| - 1] == '\n'
  {
    FieldsTextEndsLine(s.fields);
  }

  lemma {:induction false} FieldsTextEndsLine(fs: seq<Field>)
    ensures |FieldsText(fs)| == 0 || FieldsText(fs)[|FieldsText(fs)| - 1] == '\n'
    decreases |fs|
  {
    if |fs| > 0 {
      FieldsTextEndsLine(fs[1..]);
    }
  }

  /** Section `i` of a rendering, for `i > 0`, starts on a fresh line right
      after a blank one: the text before it ends with a line feed, then comes
      one more line feed, then its header line. */
  lemma RenderAt(secs: seq<Section>, i: nat)
    requires 0 < i < |secs|
    ensures Render(secs) == Render(secs[..i]) + "\n" + Render(secs[i..])
    ensures |Render(secs[..i])| > 0 && Render(secs[..i])[|Render(secs[..i])| - 1] == '\n'
    ensures Render(secs[..i]) + "\n[" + Header(secs[i]) + "]\n" <= Render(secs)
  {
    assert secs == secs[..i] + secs[i..];
    RenderAppend(secs[..i], secs[i..]);
    RenderOpens(secs[i..]);
    RenderEndsWithLast(secs[..i]);
    var before := Render(secs[..i]);
    var rest := Render(secs[i..]);
    var head := "[" + Header(secs[i]) + "]\n";
    assert rest == head + rest[|head|..];
    assert Render(secs) == before + "\n" + head + rest[|head|..];
    assert before + "\n[" + Header(secs[i]) + "]\n" == before + "\n" + head;
  }

  /** A rendering starts with its first section's header line. */
  lemma RenderOpens(secs: seq<Section>)
    requires |secs| >= 1
    ensures "[" + Header(secs[0]) + "]\n" <= Render(secs)
  {
    RenderStartsWithFirst(secs);
    var t := SectionText(secs[0]);
    assert t == "[" + Header(secs[0]) + "]\n" + FieldsText(secs[0].fields);
  }

  /** A rendering ends with the text of its last section. */
  lemma {:induction false} RenderEndsWithLast(secs: seq<Section>)
    requires |secs| >= 1
    ensures |Render(secs)| > 0 && Render(secs)[|Render(secs)| - 1] == '\n'
    decreases |secs|
  {
    SectionTextEndsLine(secs[|secs| - 1]);
    if |secs| == 1 {
      assert Render(secs) == SectionText(secs[0]);
    } else {
      var init := secs[..|secs| - 1];
      assert secs == init + [secs[|secs| - 1]];
      RenderAppend(init, [secs[|secs| - 1]]);
      assert Render([secs[|secs| - 1]]) == SectionText(secs[|secs| - 1]);
    }
  }
}
