/** The converter's output read back: when the values it prints verbatim hold
    no line feed, every section it writes is recovered by the reader. The
    rewritten values (abstract, comment, usage note) need no such condition,
    which is what the rewrite is for. */
module ReadBack {
  import opened Wrappers
  import opened Seqs
  import opened Text
  import opened Rows
  import opened Outline
  import opened Report
  import opened Conversion
  import opened Reader

  /** An unbound value, or a bound one without line feeds. */
  predicate OneLine(o: Option<string>) {
    o.Some? ==> '\n' !in o.value
  }

  /** The values a header row prints verbatim. The abstract is rewritten, so
      it is free to span lines. */
  predicate HeaderOneLine(r: HeaderRow) {
    && OneLine(r.ontology) && OneLine(r.prefix) && OneLine(r.pUri)
    && OneLine(r.labelText) && OneLine(r.title) && OneLine(r.issued)
    && OneLine(r.modified) && OneLine(r.rights)
    && OneLine(r.mname) && OneLine(r.mhomepage) && OneLine(r.mmbox)
  }

  predicate PersonOneLine(r: PersonRow) {
    && OneLine(r.person) && OneLine(r.mname) && OneLine(r.mhomepage) && OneLine(r.mmbox)
    && OneLine(r.aName) && OneLine(r.ahomepage)
  }

  predicate GlanceOneLine(r: GlanceRow) {
    OneLine(r.resource) && OneLine(r.labelText)
  }

  /** The values a class row prints verbatim; comment and usage note are
      rewritten. */
  predicate ClassOneLine(r: ClassRow) {
    && OneLine(r.resource) && OneLine(r.labelText) && OneLine(r.identifier)
    && OneLine(r.definedBy) && OneLine(r.describedBy)
  }

  predicate PropertyOneLine(r: PropertyRow) {
    && OneLine(r.resource) && OneLine(r.labelText) && OneLine(r.identifier)
    && OneLine(r.domain) && OneLine(r.range)
    && OneLine(r.definedBy) && OneLine(r.describedBy)
  }

  predicate GlanceRowsOneLine(rows: seq<GlanceRow>) {
    forall i :: 0 <= i < |rows| ==> GlanceOneLine(rows[i])
  }

  /** Every value the converter prints verbatim fits on one line. */
  predicate QueryOneLine(q: QueryResults) {
    && (forall i :: 0 <= i < |q.header| ==> HeaderOneLine(q.header[i]))
    && (forall i :: 0 <= i < |q.editors| ==> PersonOneLine(q.editors[i]))
    && (forall i :: 0 <= i < |q.makers| ==> PersonOneLine(q.makers[i]))
    && GlanceRowsOneLine(q.classes) && GlanceRowsOneLine(q.classesNl)
    && GlanceRowsOneLine(q.properties) && GlanceRowsOneLine(q.propertiesNl)
    && (forall i :: 0 <= i < |q.classDetails| ==> ClassOneLine(q.classDetails[i]))
    && (forall i :: 0 <= i < |q.classDetailsNl| ==> ClassOneLine(q.classDetailsNl[i]))
    && (forall i :: 0 <= i < |q.propertyDetails| ==> PropertyOneLine(q.propertyDetails[i]))
    && (forall i :: 0 <= i < |q.propertyDetailsNl| ==> PropertyOneLine(q.propertyDetailsNl[i]))
  }

  predicate FieldsReadable(fs: seq<Field>) {
    forall j :: 0 <= j < |fs| ==> ReadableField(fs[j])
  }

  /** A candidate line whose key reads back and whose value fits on one line. */
  predicate SlotReadable(s: Slot) {
    '\n' !in s.key && '=' !in s.key && OneLine(s.value)
  }

  // ---------------------------------------------------------------------
  // Generic steps

  lemma {:induction false} PresentReadable(slots: seq<Slot>)
    requires forall i :: 0 <= i < |slots| ==> SlotReadable(slots[i])
    ensures FieldsReadable(Present(slots))
    decreases |slots|
  {
    if |slots| > 0 {
      PresentReadable(slots[1..]);
    }
  }

  /** A join of one-line parts with a one-line separator is one line. */
  lemma {:induction false} JoinOneLine(xs: seq<string>, sep: string)
    requires '\n' !in sep
    requires forall i :: 0 <= i < |xs| ==> '\n' !in xs[i]
    ensures '\n' !in Join(xs, sep)
    decreases |xs|
  {
    if |xs| > 1 {
      JoinOneLine(xs[1..], sep);
    }
  }

  lemma {:induction false} ConcatReadable(runs: seq<seq<Section>>)
    requires forall i :: 0 <= i < |runs| ==> Readable(runs[i])
    ensures Readable(Concat(runs))
    decreases |runs|
  {
    if |runs| > 0 {
      ConcatReadable(runs[1..]);
      var all := Concat(runs);
      assert all == runs[0] + Concat(runs[1..]);
      forall k | 0 <= k < |all|
        ensures ReadableSection(all[k])
      {
        if k < |runs[0]| {
          assert all[k] == runs[0][k];
        } else {
          assert all[k] == Concat(runs[1..])[k - |runs[0]|];
        }
      }
    }
  }

  /** Entity sections read back when their tag, every bound subject and every
      bound row's lines do. */
  lemma {:induction false} EntityReadable<R>(rows: seq<R>, kind: Kind, subject: R -> Option<string>,
                                            slots: R -> seq<Slot>)
    requires '\n' !in Tag(kind)
    requires forall i :: 0 <= i < |rows| && subject(rows[i]).Some? ==>
      '\n' !in subject(rows[i]).value && FieldsReadable(Present(slots(rows[i])))
    ensures Readable(EntitySections(rows, kind, subject, slots))
    decreases |rows|
  {
    if |rows| > 0 {
      EntityReadable(rows[1..], kind, subject, slots);
      var rest := EntitySections(rows[1..], kind, subject, slots);
      match subject(rows[0])
      case Some(id) =>
        var s := Section(kind, id, Present(slots(rows[0])));
        assert EntitySections(rows, kind, subject, slots) == [s] + rest;
        assert ReadableSection(s);
      case None =>
    }
  }

  // ---------------------------------------------------------------------
  // The lines of each kind of row

  predicate KeysReadable(ks: seq<string>) {
    forall i :: 0 <= i < |ks| ==> '\n' !in ks[i] && '=' !in ks[i]
  }

  /** Candidate lines whose keys read back and whose values fit on one line
      print lines that read back. */
  lemma SlotsReadable(slots: seq<Slot>, order: seq<string>)
    requires SlotKeys(slots) == order && KeysReadable(order)
    requires forall i :: 0 <= i < |slots| ==> OneLine(slots[i].value)
    ensures FieldsReadable(Present(slots))
  {
    forall i | 0 <= i < |slots|
      ensures SlotReadable(slots[i])
    {
      assert slots[i].key == order[i];
    }
    PresentReadable(slots);
  }

  lemma MetadataKeysReadable()
    ensures KeysReadable(MetadataOrder)
  {
  }

  lemma PersonKeysReadable(role: Role)
    ensures KeysReadable(PersonOrder(role))
  {
  }

  lemma ClassKeysReadable()
    ensures KeysReadable(ClassOrder)
  {
  }

  lemma PropertyKeysReadable()
    ensures KeysReadable(PropertyOrder)
  {
  }

  lemma MetadataLinesReadable(r: HeaderRow)
    requires HeaderOneLine(r)
    ensures FieldsReadable(MetadataLines(r))
  {
    var slots := MetadataSlots(r);
    MetadataKeysReadable();
    assert SlotKeys(slots) == MetadataOrder;
    SlotsReadable(slots, MetadataOrder);
  }

  lemma {:induction false} MetadataFieldsReadable(rows: seq<HeaderRow>)
    requires forall i :: 0 <= i < |rows| ==> HeaderOneLine(rows[i])
    ensures FieldsReadable(MetadataFields(rows))
    decreases |rows|
  {
    if |rows| > 0 {
      MetadataLinesReadable(rows[0]);
      MetadataFieldsReadable(rows[1..]);
      var a := MetadataLines(rows[0]);
      var b := MetadataFields(rows[1..]);
      assert MetadataFields(rows) == a + b;
      forall j | 0 <= j < |a + b|
        ensures ReadableField((a + b)[j])
      {
        if j < |a| {
          assert (a + b)[j] == a[j];
        } else {
          assert (a + b)[j] == b[j - |a|];
        }
      }
    }
  }

  lemma PersonLinesReadable(r: PersonRow, role: Role)
    requires PersonOneLine(r)
    ensures FieldsReadable(Present(PersonSlots(r, role)))
  {
    var slots := PersonSlots(r, role);
    PersonKeysReadable(role);
    assert SlotKeys(slots) == PersonOrder(role);
    SlotsReadable(slots, PersonOrder(role));
  }

  lemma ClassLinesReadable(r: ClassRow)
    requires ClassOneLine(r)
    ensures FieldsReadable(Present(ClassSlots(r)))
  {
    var slots := ClassSlots(r);
    ClassKeysReadable();
    assert SlotKeys(slots) == ClassOrder;
    SlotsReadable(slots, ClassOrder);
  }

  lemma PropertyLinesReadable(r: PropertyRow)
    requires PropertyOneLine(r)
    ensures FieldsReadable(Present(PropertySlots(r)))
  {
    var slots := PropertySlots(r);
    PropertyKeysReadable();
    assert SlotKeys(slots) == PropertyOrder;
    SlotsReadable(slots, PropertyOrder);
  }

  // ---------------------------------------------------------------------
  // The sections

  lemma TagsOneLine()
    ensures forall k: Kind :: '\n' !in Tag(k)
  {
    forall k: Kind
      ensures '\n' !in Tag(k)
    {
      match k
      case Metadata => case Editor => case Editors => case Maker => case Makers =>
      case Glance => case Class => case ClassNl => case Property => case PropertyNl =>
    }
  }

  lemma FieldsReadableAppend(a: seq<Field>, b: seq<Field>)
    requires FieldsReadable(a) && FieldsReadable(b)
    ensures FieldsReadable(a + b)
  {
    forall j | 0 <= j < |a + b|
      ensures ReadableField((a + b)[j])
    {
      if j < |a| {
        assert (a + b)[j] == a[j];
      } else {
        assert (a + b)[j] == b[j - |a|];
      }
    }
  }

  /** The kept rows' subjects fit on one line when every row's subject
      does. */
  lemma SubjectsOneLine<R>(rows: seq<R>, subject: R -> Option<string>)
    requires forall i :: 0 <= i < |rows| ==> OneLine(subject(rows[i]))
    ensures forall i :: 0 <= i < |Subjects(rows, subject)| ==> '\n' !in Subjects(rows, subject)[i]
  {
    var ids := Subjects(rows, subject);
    var b := Bound(rows, subject);
    BoundSound(rows, subject);
    forall i | 0 <= i < |ids|
      ensures '\n' !in ids[i]
    {
      assert subject(b[i]) == Some(ids[i]);
      var j :| 0 <= j < |rows| && rows[j] == b[i];
      assert OneLine(subject(rows[j]));
    }
  }

  lemma PersonEntitiesReadable(rows: seq<PersonRow>, role: Role)
    requires forall i :: 0 <= i < |rows| ==> PersonOneLine(rows[i])
    ensures Readable(EntitySections(rows, EntityKind(role), PersonOf, PersonSlotsFor(role)))
  {
    TagsOneLine();
    forall i | 0 <= i < |rows| && PersonOf(rows[i]).Some?
      ensures '\n' !in PersonOf(rows[i]).value
      ensures FieldsReadable(Present(PersonSlotsFor(role)(rows[i])))
    {
      PersonLinesReadable(rows[i], role);
    }
    EntityReadable(rows, EntityKind(role), PersonOf, PersonSlotsFor(role));
  }

  lemma SummaryReadable(rows: seq<PersonRow>, role: Role)
    requires forall i :: 0 <= i < |rows| ==> PersonOneLine(rows[i])
    ensures Readable(Summary(rows, role))
  {
    var ids := Subjects(rows, PersonOf);
    if |ids| > 0 {
      TagsOneLine();
      SubjectsOneLine(rows, PersonOf);
      JoinOneLine(ids, ",");
      var s := Section(SummaryKind(role), "", [Field("list", Join(ids, ","))]);
      assert Summary(rows, role) == [s];
      assert ReadableField(s.fields[0]);
      assert ReadableSection(s);
    }
  }

  lemma ClassSectionsReadable(rows: seq<ClassRow>, kind: Kind)
    requires forall i :: 0 <= i < |rows| ==> ClassOneLine(rows[i])
    ensures Readable(ClassSections(rows, kind))
  {
    TagsOneLine();
    forall i | 0 <= i < |rows| && ClassOf(rows[i]).Some?
      ensures '\n' !in ClassOf(rows[i]).value
      ensures FieldsReadable(Present(ClassSlots(rows[i])))
    {
      ClassLinesReadable(rows[i]);
    }
    EntityReadable(rows, kind, ClassOf, ClassSlots);
  }

  lemma PropertySectionsReadable(rows: seq<PropertyRow>, kind: Kind)
    requires forall i :: 0 <= i < |rows| ==> PropertyOneLine(rows[i])
    ensures Readable(PropertySections(rows, kind))
  {
    TagsOneLine();
    forall i | 0 <= i < |rows| && PropertyOf(rows[i]).Some?
      ensures '\n' !in PropertyOf(rows[i]).value
      ensures FieldsReadable(Present(PropertySlots(rows[i])))
    {
      PropertyLinesReadable(rows[i]);
    }
    EntityReadable(rows, kind, PropertyOf, PropertySlots);
  }

  /** A summary pass over one-line rows prints one-line lists. */
  lemma GlancePassReadable(rows: seq<GlanceRow>, labelKey: string, uriKey: string)
    requires LabelsBound(rows) && GlanceRowsOneLine(rows)
    requires KeysReadable([labelKey, uriKey])
    ensures GlancePass(rows, labelKey, uriKey).Success?
    ensures FieldsReadable(GlancePass(rows, labelKey, uriKey).value)
  {
    GlancePassSpec(rows, labelKey, uriKey);
    GlanceListsSpec(rows);
    BoundSound(rows, ResourceOf);
    var lists := GlanceLists(rows);
    var labels := AllBound(lists.0).value;
    var b := Bound(rows, ResourceOf);
    forall i | 0 <= i < |labels|
      ensures '\n' !in labels[i]
    {
      assert lists.0[i] == Some(labels[i]);
      assert b[i] == GlanceRow(Some(lists.1[i]), lists.0[i]);
      var j :| 0 <= j < |rows| && rows[j] == b[i];
      assert GlanceOneLine(rows[j]);
    }
    JoinOneLine(labels, ",");
    forall i | 0 <= i < |rows|
      ensures OneLine(ResourceOf(rows[i]))
    {
      assert GlanceOneLine(rows[i]);
    }
    SubjectsOneLine(rows, ResourceOf);
    JoinOneLine(Subjects(rows, ResourceOf), ",");
    assert labelKey == [labelKey, uriKey][0] && uriKey == [labelKey, uriKey][1];
  }

  lemma GlanceKeysReadable()
    ensures KeysReadable(GlanceOrder)
  {
  }

  lemma GlanceSectionReadable(q: QueryResults)
    requires LabelsComplete(q) && QueryOneLine(q)
    ensures GlanceSection(q.classes, q.classesNl, q.properties, q.propertiesNl).Success?
    ensures ReadableSection(GlanceSection(q.classes, q.classesNl, q.properties, q.propertiesNl).value)
  {
    GlanceKeysReadable();
    assert KeysReadable([GlanceOrder[0], GlanceOrder[1]]);
    assert KeysReadable([GlanceOrder[2], GlanceOrder[3]]);
    assert KeysReadable([GlanceOrder[4], GlanceOrder[5]]);
    assert KeysReadable([GlanceOrder[6], GlanceOrder[7]]);
    GlancePassReadable(q.classes, "classes", "class_uris");
    GlancePassReadable(q.classesNl, "classes_nl", "class_uris_nl");
    GlancePassReadable(q.properties, "properties", "prop_uris");
    GlancePassReadable(q.propertiesNl, "properties_nl", "prop_uris_nl");
    var p0 := GlancePass(q.classes, "classes", "class_uris").value;
    var p1 := GlancePass(q.classesNl, "classes_nl", "class_uris_nl").value;
    var p2 := GlancePass(q.properties, "properties", "prop_uris").value;
    var p3 := GlancePass(q.propertiesNl, "properties_nl", "prop_uris_nl").value;
    FieldsReadableAppend(p0, p1);
    FieldsReadableAppend(p0 + p1, p2);
    FieldsReadableAppend(p0 + p1 + p2, p3);
    TagsOneLine();
    assert Header(Section(Glance, "", [])) == Tag(Glance);
  }

  lemma MetadataSectionReadable(header: seq<HeaderRow>)
    requires forall i :: 0 <= i < |header| ==> HeaderOneLine(header[i])
    ensures ReadableSection(MetadataSection(header))
  {
    MetadataFieldsReadable(header);
    TagsOneLine();
    assert Header(MetadataSection(header)) == Tag(Metadata);
  }

  /** Ten runs of readable sections laid end to end are readable. */
  lemma TenRunsReadable(r0: seq<Section>, r1: seq<Section>, r2: seq<Section>, r3: seq<Section>,
                        r4: seq<Section>, r5: seq<Section>, r6: seq<Section>, r7: seq<Section>,
                        r8: seq<Section>, r9: seq<Section>)
    requires Readable(r0) && Readable(r1) && Readable(r2) && Readable(r3) && Readable(r4)
    requires Readable(r5) && Readable(r6) && Readable(r7) && Readable(r8) && Readable(r9)
    ensures Readable(Concat([r0, r1, r2, r3, r4, r5, r6, r7, r8, r9]))
  {
    var runs := [r0, r1, r2, r3, r4, r5, r6, r7, r8, r9];
    forall i | 0 <= i < |runs|
      ensures Readable(runs[i])
    {
      match i
      case 0 => case 1 => case 2 => case 3 => case 4 =>
      case 5 => case 6 => case 7 => case 8 => case 9 =>
    }
    ConcatReadable(runs);
  }

  /** The converter's runs read back when the glance section and every
      verbatim value do. */
  lemma RunsReadable(q: QueryResults, glance: Section)
    requires ReadableSection(glance) && QueryOneLine(q)
    ensures Readable(Concat(Runs(q, glance)))
  {
    assert Readable([glance]);
    MetadataSectionReadable(q.header);
    assert Readable([MetadataSection(q.header)]);
    PersonEntitiesReadable(q.editors, EditorRole);
    SummaryReadable(q.editors, EditorRole);
    PersonEntitiesReadable(q.makers, MakerRole);
    SummaryReadable(q.makers, MakerRole);
    ClassSectionsReadable(q.classDetails, Class);
    ClassSectionsReadable(q.classDetailsNl, ClassNl);
    PropertySectionsReadable(q.propertyDetails, Property);
    PropertySectionsReadable(q.propertyDetailsNl, PropertyNl);
    TenRunsReadable(
      [MetadataSection(q.header)],
      EntitySections(q.editors, Editor, PersonOf, PersonSlotsFor(EditorRole)),
      Summary(q.editors, EditorRole),
      EntitySections(q.makers, Maker, PersonOf, PersonSlotsFor(MakerRole)),
      Summary(q.makers, MakerRole),
      [glance],
      ClassSections(q.classDetails, Class),
      ClassSections(q.classDetailsNl, ClassNl),
      PropertySections(q.propertyDetails, Property),
      PropertySections(q.propertyDetailsNl, PropertyNl));
  }

  /** When every bound glance row has a label and every value the converter
      prints verbatim fits on one line, reading the converter's text back
      recovers each of its sections, header and lines, in order. Abstracts,
      comments and usage notes may span lines: the rewrite makes them fit. */
  lemma ConvertReadsBack(q: QueryResults)
    requires LabelsComplete(q) && QueryOneLine(q)
    ensures Convert(q).Success?
    ensures Parse(Convert(q).value) == Entries(Sections(q).value)
  {
    ConvertSucceedsIff(q);
    GlanceSectionReadable(q);
    var glance := GlanceSection(q.classes, q.classesNl, q.properties, q.propertiesNl).value;
    RunsReadable(q, glance);
    var secs := Sections(q).value;
    assert secs == Concat(Runs(q, glance));
    ParseRender(secs);
  }
}
