/** The whole conversion: the sections of every query, in the converter's
    fixed order, rendered as one text. */
module Conversion {
  import opened Wrappers
  import opened Seqs
  import opened Text
  import opened Rows
  import opened Outline
  import opened Report

  /** The order in which the converter writes its kinds of section. */
  const KindOrder: seq<Kind> :=
    [Metadata, Editor, Editors, Maker, Makers, Glance, Class, ClassNl, Property, PropertyNl]

  /** The runs of sections the converter writes, one per entry of
      `KindOrder`: `[metadata]`, the editors and their summary, the makers
      and their summary, `[glance]`, then the class and property details,
      English before Dutch. */
  function Runs(q: QueryResults, glance: Section): (runs: seq<seq<Section>>)
    ensures |runs| == |KindOrder|
    ensures runs[0] == [MetadataSection(q.header)] && runs[5] == [glance]
  {
    [[MetadataSection(q.header)],
     EntitySections(q.editors, Editor, PersonOf, PersonSlotsFor(EditorRole)),
     Summary(q.editors, EditorRole),
     EntitySections(q.makers, Maker, PersonOf, PersonSlotsFor(MakerRole)),
     Summary(q.makers, MakerRole),
     [glance],
     ClassSections(q.classDetails, Class),
     ClassSections(q.classDetailsNl, ClassNl),
     PropertySections(q.propertyDetails, Property),
     PropertySections(q.propertyDetailsNl, PropertyNl)]
  }

  /** All sections of the report, the glance pass first since it alone can
      abort the conversion. */
  function Sections(q: QueryResults): Result<seq<Section>, ReportError> {
    var glance :- GlanceSection(q.classes, q.classesNl, q.properties, q.propertiesNl);
    Success(Concat(Runs(q, glance)))
  }

  /** The text the converter returns, or the error that aborts it. */
  function Convert(q: QueryResults): Result<string, ReportError> {
    var secs :- Sections(q);
    Success(Render(secs))
  }

  /** Every row of the four summary passes whose resource is bound has its
      label bound. */
  predicate LabelsComplete(q: QueryResults) {
    LabelsBound(q.classes) && LabelsBound(q.classesNl)
      && LabelsBound(q.properties) && LabelsBound(q.propertiesNl)
  }

  /** The conversion fails only on an unbound label in a summary pass, and
      then names the first such list in print order. */
  lemma ConvertSucceedsIff(q: QueryResults)
    ensures Sections(q).Success? <==> LabelsComplete(q)
    ensures Convert(q).Success? <==> LabelsComplete(q)
    ensures Convert(q).Failure? ==> Convert(q).error == UnboundLabel(
      if !LabelsBound(q.classes) then "classes"
      else if !LabelsBound(q.classesNl) then "classes_nl"
      else if !LabelsBound(q.properties) then "properties"
      else "properties_nl")
  {
    GlanceSectionSpec(q.classes, q.classesNl, q.properties, q.propertiesNl);
  }

  /** Every section an entity-section run produces has the run's kind. */
  lemma EntityRunKind<R>(rows: seq<R>, kind: Kind, subject: R -> Option<string>, slots: R -> seq<Slot>)
    ensures AllOfKind(EntitySections(rows, kind, subject, slots), kind)
  {
    EntitySectionsSpec(rows, kind, subject, slots);
  }

  /** Runs of sections laid end to end. */
  function Concat(runs: seq<seq<Section>>): seq<Section> {
    if |runs| == 0 then [] else runs[0] + Concat(runs[1..])
  }

  /** Kinds listed with consecutive ranks from `r`, hence each at most once. */
  predicate Ascending(kinds: seq<Kind>, r: nat) {
    forall i :: 0 <= i < |kinds| ==> Rank(kinds[i]) == r + i
  }

  /** Each run holds only sections of its own kind. */
  predicate RunsOfKinds(runs: seq<seq<Section>>, kinds: seq<Kind>) {
    |runs| == |kinds| && forall i :: 0 <= i < |runs| ==> AllOfKind(runs[i], kinds[i])
  }

  /** A kind that no run carries has no section in the concatenation. */
  lemma {:induction false} OfKindConcatAbsent(runs: seq<seq<Section>>, kinds: seq<Kind>, k: Kind)
    requires RunsOfKinds(runs, kinds)
    requires forall i :: 0 <= i < |kinds| ==> kinds[i] != k
    ensures OfKind(Concat(runs), k) == []
    decreases |runs|
  {
    if |runs| > 0 {
      OfKindAppend(runs[0], Concat(runs[1..]), k);
      OfKindUniform(runs[0], kinds[0], k);
      OfKindConcatAbsent(runs[1..], kinds[1..], k);
    }
  }

  /** The sections of one kind in a concatenation are exactly that kind's run. */
  lemma {:induction false} OfKindConcat(runs: seq<seq<Section>>, kinds: seq<Kind>, r: nat, i: nat)
    requires RunsOfKinds(runs, kinds) && Ascending(kinds, r) && i < |runs|
    ensures OfKind(Concat(runs), kinds[i]) == runs[i]
    decreases i
  {
    var k := kinds[i];
    OfKindAppend(runs[0], Concat(runs[1..]), k);
    OfKindUniform(runs[0], kinds[0], k);
    if i == 0 {
      assert forall j :: 0 <= j < |kinds[1..]| ==> Rank(kinds[1..][j]) > Rank(k);
      OfKindConcatAbsent(runs[1..], kinds[1..], k);
    } else {
      assert Rank(kinds[0]) < Rank(k);
      OfKindConcat(runs[1..], kinds[1..], r + 1, i - 1);
    }
  }

  /** Runs of ascending kinds concatenate to sections in rank order. */
  lemma {:induction false} ConcatOrdered(runs: seq<seq<Section>>, kinds: seq<Kind>, r: nat)
    requires RunsOfKinds(runs, kinds) && Ascending(kinds, r) && |runs| > 0
    ensures InOrder(Concat(runs)) && RanksFrom(Concat(runs), Rank(kinds[0]))
    decreases |runs|
  {
    if |runs| == 1 {
      assert Concat(runs) == runs[0];
    } else {
      ConcatOrdered(runs[1..], kinds[1..], r + 1);
      assert Rank(kinds[0]) < Rank(kinds[1]);
      PrependRun(runs[0], kinds[0], Concat(runs[1..]));
    }
  }

  /** `KindOrder` lists every kind once, by rank. */
  lemma KindOrderAscending()
    ensures Ascending(KindOrder, 0)
  {
    forall i | 0 <= i < |KindOrder|
      ensures Rank(KindOrder[i]) == i
    {
      match i
      case 0 => case 1 => case 2 => case 3 => case 4 =>
      case 5 => case 6 => case 7 => case 8 => case 9 =>
    }
  }

  /** A summary run holds summary sections only. */
  lemma SummaryRunKind(rows: seq<PersonRow>, role: Role)
    ensures AllOfKind(Summary(rows, role), SummaryKind(role))
  {
  }

  /** Ten runs, each of the kind at its place in `KindOrder`. */
  lemma TenRunsOfKinds(r0: seq<Section>, r1: seq<Section>, r2: seq<Section>, r3: seq<Section>,
                       r4: seq<Section>, r5: seq<Section>, r6: seq<Section>, r7: seq<Section>,
                       r8: seq<Section>, r9: seq<Section>)
    requires AllOfKind(r0, Metadata) && AllOfKind(r1, Editor) && AllOfKind(r2, Editors)
    requires AllOfKind(r3, Maker) && AllOfKind(r4, Makers) && AllOfKind(r5, Glance)
    requires AllOfKind(r6, Class) && AllOfKind(r7, ClassNl)
    requires AllOfKind(r8, Property) && AllOfKind(r9, PropertyNl)
    ensures RunsOfKinds([r0, r1, r2, r3, r4, r5, r6, r7, r8, r9], KindOrder)
  {
    var runs := [r0, r1, r2, r3, r4, r5, r6, r7, r8, r9];
    forall i | 0 <= i < |runs|
      ensures AllOfKind(runs[i], KindOrder[i])
    {
      match i
      case 0 => case 1 => case 2 => case 3 => case 4 =>
      case 5 => case 6 => case 7 => case 8 => case 9 =>
    }
  }

  /** The converter's runs each hold their own kind only. */
  lemma RunsHaveKinds(q: QueryResults, glance: Section)
    requires glance.kind == Glance
    ensures RunsOfKinds(Runs(q, glance), KindOrder)
  {
    EntityRunKind(q.editors, Editor, PersonOf, PersonSlotsFor(EditorRole));
    SummaryRunKind(q.editors, EditorRole);
    EntityRunKind(q.makers, Maker, PersonOf, PersonSlotsFor(MakerRole));
    SummaryRunKind(q.makers, MakerRole);
    EntityRunKind(q.classDetails, Class, ClassOf, ClassSlots);
    EntityRunKind(q.classDetailsNl, ClassNl, ClassOf, ClassSlots);
    EntityRunKind(q.propertyDetails, Property, PropertyOf, PropertySlots);
    EntityRunKind(q.propertyDetailsNl, PropertyNl, PropertyOf, PropertySlots);
    TenRunsOfKinds(
      [MetadataSection(q.header)],
      EntitySections(q.editors, Editor, PersonOf, PersonSlotsFor(EditorRole)),
      Summary(q.editors, EditorRole),
      EntitySections(q.makers, Maker, PersonOf, PersonSlotsFor(MakerRole)),
      Summary(q.makers, MakerRole),
      [glance],
      ClassSections(q.classDetails, Class),
      ClassSections(q.classDetailsNl, ClassNl),
      PropertySections(q.propertyDetails, Property),
      PropertySections(q.propertyDetailsNl, PropertyNl));
  }

  /** The report's sections come in the fixed kind order. */
  lemma SectionsOrdered(q: QueryResults)
    requires LabelsComplete(q)
    ensures Sections(q).Success? && InOrder(Sections(q).value)
  {
    ConvertSucceedsIff(q);
    var glance := GlanceSection(q.classes, q.classesNl, q.properties, q.propertiesNl).value;
    GlanceSectionSpec(q.classes, q.classesNl, q.properties, q.propertiesNl);
    RunsHaveKinds(q, glance);
    KindOrderAscending();
    ConcatOrdered(Runs(q, glance), KindOrder, 0);
  }

  /** The report's sections of the `i`-th kind are exactly the run the
      converter writes for that kind. */
  lemma SectionsOfKind(q: QueryResults, i: nat)
    requires LabelsComplete(q) && i < |KindOrder|
    ensures Sections(q).Success? && OfKind(Sections(q).value, KindOrder[i])
         == Runs(q, GlanceSection(q.classes, q.classesNl, q.properties, q.propertiesNl).value)[i]
  {
    ConvertSucceedsIff(q);
    var glance := GlanceSection(q.classes, q.classesNl, q.properties, q.propertiesNl).value;
    GlanceSectionSpec(q.classes, q.classesNl, q.properties, q.propertiesNl);
    RunsHaveKinds(q, glance);
    KindOrderAscending();
    OfKindConcat(Runs(q, glance), KindOrder, 0, i);
  }

  /** The report opens with `[metadata]`, holds exactly one `[metadata]` and
      one `[glance]` section, and keeps its sections in the fixed order. */
  lemma SectionsFrame(q: QueryResults)
    requires LabelsComplete(q)
    ensures Sections(q).Success? &&
      var secs := Sections(q).value;
      && |secs| > 0 && secs[0] == MetadataSection(q.header)
      && InOrder(secs)
      && OfKind(secs, Metadata) == [MetadataSection(q.header)]
      && OfKind(secs, Glance) == [GlanceSection(q.classes, q.classesNl, q.properties, q.propertiesNl).value]
  {
    ConvertSucceedsIff(q);
    var glance := GlanceSection(q.classes, q.classesNl, q.properties, q.propertiesNl).value;
    var runs := Runs(q, glance);
    SectionsOrdered(q);
    SectionsOfKind(q, 0);
    SectionsOfKind(q, 5);
    assert Concat(runs) == runs[0] + Concat(runs[1..]);
  }

  /** Per kind, the person sections of the report: one `[editor:...]` per row
      with the editor bound and an `[editors]` summary only when there is one,
      the same for makers. */
  lemma SectionsPersons(q: QueryResults)
    requires LabelsComplete(q)
    ensures Sections(q).Success? &&
      var secs := Sections(q).value;
      && OfKind(secs, Editor) == EntitySections(q.editors, Editor, PersonOf, PersonSlotsFor(EditorRole))
      && OfKind(secs, Editors) == Summary(q.editors, EditorRole)
      && OfKind(secs, Maker) == EntitySections(q.makers, Maker, PersonOf, PersonSlotsFor(MakerRole))
      && OfKind(secs, Makers) == Summary(q.makers, MakerRole)
  {
    ConvertSucceedsIff(q);
    SectionsOfKind(q, 1);
    SectionsOfKind(q, 2);
    SectionsOfKind(q, 3);
    SectionsOfKind(q, 4);
  }

  /** Per kind, the detail sections of the report: one per class or property
      row with its resource bound, in row order, English and Dutch apart. */
  lemma SectionsDetails(q: QueryResults)
    requires LabelsComplete(q)
    ensures Sections(q).Success? &&
      var secs := Sections(q).value;
      && OfKind(secs, Class) == ClassSections(q.classDetails, Class)
      && OfKind(secs, ClassNl) == ClassSections(q.classDetailsNl, ClassNl)
      && OfKind(secs, Property) == PropertySections(q.propertyDetails, Property)
      && OfKind(secs, PropertyNl) == PropertySections(q.propertyDetailsNl, PropertyNl)
  {
    ConvertSucceedsIff(q);
    SectionsOfKind(q, 6);
    SectionsOfKind(q, 7);
    SectionsOfKind(q, 8);
    SectionsOfKind(q, 9);
  }

  // ---------------------------------------------------------------------
  // The text

  /** The report text opens with the `[metadata]` header and the whole
      metadata section. */
  lemma ConvertStartsWithMetadata(q: QueryResults)
    requires LabelsComplete(q)
    ensures Convert(q).Success? && "[metadata]\n" <= Convert(q).value
    ensures SectionText(MetadataSection(q.header)) <= Convert(q).value
  {
    ConvertSucceedsIff(q);
    SectionsFrame(q);
    var secs := Sections(q).value;
    assert Convert(q).value == Render(secs);
    RenderStartsWithFirst(secs);
    RenderOpens(secs);
    assert Header(secs[0]) == "metadata";
  }

  /** Every section after the first starts on a new line after a blank
      line: the text up to it ends with a newline, and is followed by
      another newline and the section's bracketed header. */
  lemma ConvertSectionBreak(q: QueryResults, i: nat)
    requires Convert(q).Success? && 0 < i < |Sections(q).value|
    ensures var secs := Sections(q).value;
      var before := Render(secs[..i]);
      && |before| > 0 && before[|before| - 1] == '\n'
      && before + "\n[" + Header(secs[i]) + "]\n" <= Convert(q).value
  {
    var secs := Sections(q).value;
    assert Convert(q).value == Render(secs);
    RenderAt(secs, i);
  }
}
