/** The report serialiser: turns the rows of every query into the sections of
    the report, in the converter's fixed order, and renders them as text. */
module Report {
  import opened Wrappers
  import opened Seqs
  import opened Text
  import opened Rows
  import opened Outline

  /** How Python's `"%s" % value` prints a value: an unbound one as `None`. */
  function Show(o: Option<string>): (s: string)
    ensures o.Some? ==> s == o.value
    ensures o.None? ==> s == "None"
  {
    match o
    case Some(v) => v
    case None => "None"
  }

  /** `v`, but only when `guard` is bound: the mediator lines depend on ?m
      and the affiliation lines on ?affiliation. */
  function When(guard: Option<string>, v: Option<string>): (r: Option<string>)
    ensures r.Some? <==> guard.Some? && v.Some?
    ensures r.Some? ==> r == v
  {
    if guard.Some? then v else None
  }

  /** A long literal with its line feeds turned into spaces. */
  function Collapsed(o: Option<string>): (r: Option<string>)
    ensures r.Some? <==> o.Some?
    ensures r.Some? ==> '\n' !in r.value && |r.value| == |o.value|
  {
    MapOption(o, ReplaceNewlines)
  }

  // ---------------------------------------------------------------------
  // [metadata]

  /** The candidate lines of one header row, in print order. The attribution
      variables are queried but have no line. */
  function MetadataSlots(r: HeaderRow): seq<Slot> {
    [ Slot("uri", r.ontology),
      Slot("prefix", r.prefix),
      Slot("prefUri", r.pUri),
      Slot("label", r.labelText),
      Slot("title", r.title),
      Slot("abstract", Collapsed(r.abstractText)),
      Slot("issued", r.issued),
      Slot("modified", r.modified),
      Slot("rights", r.rights),
      Slot("mname", When(r.mediator, r.mname)),
      Slot("mhomepage", When(r.mediator, r.mhomepage)),
      Slot("mmbox", When(r.mediator, r.mmbox)) ]
  }

  /** The lines printed for one header row. */
  function MetadataLines(r: HeaderRow): seq<Field> {
    Present(MetadataSlots(r))
  }

  /** The lines of every header row, one row after the other, all under the
      single `[metadata]` header. */
  function MetadataFields(rows: seq<HeaderRow>): seq<Field> {
    if |rows| == 0 then []
    else MetadataLines(rows[0]) + MetadataFields(rows[1..])
  }

  function MetadataSection(rows: seq<HeaderRow>): Section {
    Section(Metadata, "", MetadataFields(rows))
  }

  /** Header rows written one after the other: the lines of two runs of rows
      are the lines of the first run followed by those of the second. */
  lemma {:induction false} MetadataFieldsAppend(a: seq<HeaderRow>, b: seq<HeaderRow>)
    ensures MetadataFields(a + b) == MetadataFields(a) + MetadataFields(b)
    decreases |a|
  {
    if |a| == 0 {
      assert a + b == b;
    } else {
      assert (a + b)[0] == a[0] && (a + b)[1..] == a[1..] + b;
      MetadataFieldsAppend(a[1..], b);
    }
  }

  /** The `[metadata]` section is headed `metadata`; it has no lines without a
      header row, and exactly the lines of the row when there is one. */
  lemma MetadataSectionSpec(header: seq<HeaderRow>)
    ensures var s := MetadataSection(header);
      && Header(s) == "metadata"
      && (|header| == 0 ==> s.fields == [])
      && (|header| == 1 ==> s.fields == MetadataLines(header[0]))
  {
    if |header| == 1 {
      assert header[1..] == [];
      assert MetadataFields(header) == MetadataLines(header[0]) + MetadataFields([]);
    }
  }

  /** The fixed order of the metadata keys. */
  const MetadataOrder: seq<string> :=
    ["uri", "prefix", "prefUri", "label", "title", "abstract", "issued",
     "modified", "rights", "mname", "mhomepage", "mmbox"]

  lemma MetadataOrderDistinct()
    ensures Distinct(MetadataOrder)
  {
  }

  /** The metadata lines by position in `MetadataOrder`. */
  lemma MetadataLinesAt(r: HeaderRow)
    ensures Values(MetadataLines(r), MetadataOrder[0]) == AsSeq(MetadataSlots(r)[0].value)
    ensures Values(MetadataLines(r), MetadataOrder[1]) == AsSeq(MetadataSlots(r)[1].value)
    ensures Values(MetadataLines(r), MetadataOrder[2]) == AsSeq(MetadataSlots(r)[2].value)
    ensures Values(MetadataLines(r), MetadataOrder[3]) == AsSeq(MetadataSlots(r)[3].value)
    ensures Values(MetadataLines(r), MetadataOrder[4]) == AsSeq(MetadataSlots(r)[4].value)
    ensures Values(MetadataLines(r), MetadataOrder[5]) == AsSeq(MetadataSlots(r)[5].value)
    ensures Values(MetadataLines(r), MetadataOrder[6]) == AsSeq(MetadataSlots(r)[6].value)
    ensures Values(MetadataLines(r), MetadataOrder[7]) == AsSeq(MetadataSlots(r)[7].value)
    ensures Values(MetadataLines(r), MetadataOrder[8]) == AsSeq(MetadataSlots(r)[8].value)
    ensures Values(MetadataLines(r), MetadataOrder[9]) == AsSeq(MetadataSlots(r)[9].value)
    ensures Values(MetadataLines(r), MetadataOrder[10]) == AsSeq(MetadataSlots(r)[10].value)
    ensures Values(MetadataLines(r), MetadataOrder[11]) == AsSeq(MetadataSlots(r)[11].value)
  {
    var slots := MetadataSlots(r);
    assert SlotKeys(slots) == MetadataOrder;
    MetadataOrderDistinct();
    DistinctSlots(slots, MetadataOrder);
    PresentValues(slots, 0);
    PresentValues(slots, 1);
    PresentValues(slots, 2);
    PresentValues(slots, 3);
    PresentValues(slots, 4);
    PresentValues(slots, 5);
    PresentValues(slots, 6);
    PresentValues(slots, 7);
    PresentValues(slots, 8);
    PresentValues(slots, 9);
    PresentValues(slots, 10);
    PresentValues(slots, 11);
  }

  /** The attribution variables are queried but never printed. */
  lemma MetadataOmitsAttribution(r: HeaderRow)
    ensures Values(MetadataLines(r), "attribution") == []
    ensures Values(MetadataLines(r), "attributionUrl") == []
  {
    var slots := MetadataSlots(r);
    assert Values(Present(slots), "attribution") == [] by {
      assert forall i :: 0 <= i < |slots| ==> slots[i].key != "attribution";
      PresentOmitsForeignKey(slots, "attribution");
    }
    assert Values(Present(slots), "attributionUrl") == [] by {
      assert forall i :: 0 <= i < |slots| ==> slots[i].key != "attributionUrl";
      PresentOmitsForeignKey(slots, "attributionUrl");
    }
  }

  /** For one header row: each key is printed exactly once when its variable
      is bound and not at all otherwise; the abstract has its line feeds
      replaced; the mediator lines need ?m bound; the attribution variables
      are never printed; the keys come in the fixed order. */
  lemma MetadataRowSpec(r: HeaderRow)
    ensures var fs := MetadataLines(r);
      && Values(fs, "uri") == AsSeq(r.ontology)
      && Values(fs, "prefix") == AsSeq(r.prefix)
      && Values(fs, "prefUri") == AsSeq(r.pUri)
      && Values(fs, "label") == AsSeq(r.labelText)
      && Values(fs, "title") == AsSeq(r.title)
      && Values(fs, "abstract") ==
           (if r.abstractText.Some? then [ReplaceNewlines(r.abstractText.value)] else [])
      && Values(fs, "issued") == AsSeq(r.issued)
      && Values(fs, "modified") == AsSeq(r.modified)
      && Values(fs, "rights") == AsSeq(r.rights)
      && Values(fs, "mname") == (if r.mediator.Some? then AsSeq(r.mname) else [])
      && Values(fs, "mhomepage") == (if r.mediator.Some? then AsSeq(r.mhomepage) else [])
      && Values(fs, "mmbox") == (if r.mediator.Some? then AsSeq(r.mmbox) else [])
      && Values(fs, "attribution") == []
      && Values(fs, "attributionUrl") == []
      && Subseq(Keys(fs), MetadataOrder)
  {
    MetadataLinesAt(r);
    MetadataOmitsAttribution(r);
    PresentKeepsOrder(MetadataSlots(r));
    assert SlotKeys(MetadataSlots(r)) == MetadataOrder;
  }

  // ---------------------------------------------------------------------
  // Sections keyed by a resource: one per row whose subject is bound

  /** The rows whose subject variable is bound, in row order. */
  function Bound<R>(rows: seq<R>, subject: R -> Option<string>): seq<R> {
    Filter(rows, BoundTest(subject))
  }

  function BoundTest<R>(subject: R -> Option<string>): R -> bool {
    r => subject(r).Some?
  }

  /** `Bound` unrolled by one row. */
  lemma BoundCons<R>(rows: seq<R>, subject: R -> Option<string>)
    requires |rows| > 0
    ensures Bound(rows, subject) ==
      (if subject(rows[0]).Some? then [rows[0]] else []) + Bound(rows[1..], subject)
  {
  }

  /** The rows kept are rows of the input with their subject bound, in
      input order. */
  lemma BoundSound<R>(rows: seq<R>, subject: R -> Option<string>)
    ensures var b := Bound(rows, subject);
      && (forall i :: 0 <= i < |b| ==> b[i] in rows && subject(b[i]).Some?)
      && Subseq(b, rows)
  {
    var b := Bound(rows, subject);
    forall i | 0 <= i < |b|
      ensures b[i] in rows && subject(b[i]).Some?
    {
      assert b[i] in b;
      assert BoundTest(subject)(b[i]);
    }
    FilterIsSubseq(rows, BoundTest(subject));
  }

  /** The bound rows of two runs of rows are those of the first run followed
      by those of the second; a single row is kept exactly when its subject is
      bound. Together these determine `Bound`, each row counted as often as
      it occurs. */
  lemma BoundAppend<R>(a: seq<R>, b: seq<R>, subject: R -> Option<string>)
    ensures Bound(a + b, subject) == Bound(a, subject) + Bound(b, subject)
    ensures forall r :: Bound([r], subject) == if subject(r).Some? then [r] else []
  {
    FilterAppend(a, b, BoundTest(subject));
    forall r
      ensures Bound([r], subject) == if subject(r).Some? then [r] else []
    {
      assert [r][1..] == [];
    }
  }

  /** The row at index `i`, when bound, is kept at the position that counts
      the bound rows before it. */
  lemma BoundAt<R>(rows: seq<R>, subject: R -> Option<string>, i: nat)
    requires i < |rows| && subject(rows[i]).Some?
    ensures |Bound(rows[..i], subject)| < |Bound(rows, subject)|
    ensures Bound(rows, subject)[|Bound(rows[..i], subject)|] == rows[i]
  {
    assert rows == rows[..i] + rows[i..];
    BoundAppend(rows[..i], rows[i..], subject);
    BoundCons(rows[i..], subject);
  }

  /** No row with its subject bound is dropped. */
  lemma BoundComplete<R>(rows: seq<R>, subject: R -> Option<string>, i: nat)
    requires i < |rows| && subject(rows[i]).Some?
    ensures rows[i] in Bound(rows, subject)
  {
    assert BoundTest(subject)(rows[i]);
  }

  /** The bound subjects, in row order, duplicates included: the list the
      converter builds with `append`. */
  function Subjects<R>(rows: seq<R>, subject: R -> Option<string>): (ids: seq<string>)
    ensures |ids| == |Bound(rows, subject)|
    ensures forall i :: 0 <= i < |ids| ==> subject(Bound(rows, subject)[i]) == Some(ids[i])
  {
    if |rows| == 0 then []
    else match subject(rows[0])
      case Some(id) => [id] + Subjects(rows[1..], subject)
      case None => Subjects(rows[1..], subject)
  }

  /** One section of kind `kind` per row whose subject is bound, in row order,
      headed by the subject and holding the row's present lines. */
  function EntitySections<R>(rows: seq<R>, kind: Kind, subject: R -> Option<string>,
                             slots: R -> seq<Slot>): seq<Section>
  {
    if |rows| == 0 then []
    else match subject(rows[0])
      case Some(id) =>
        [Section(kind, id, Present(slots(rows[0])))] + EntitySections(rows[1..], kind, subject, slots)
      case None => EntitySections(rows[1..], kind, subject, slots)
  }

  /** The i-th entity section belongs to the i-th row with its subject bound:
      it has the run's kind, that row's subject as header and that row's
      present lines. */
  lemma {:induction false} EntitySectionsSpec<R>(rows: seq<R>, kind: Kind, subject: R -> Option<string>,
                                                slots: R -> seq<Slot>)
    ensures var secs := EntitySections(rows, kind, subject, slots);
      && |secs| == |Bound(rows, subject)|
      && forall i :: 0 <= i < |secs| ==>
           var row := Bound(rows, subject)[i];
           && secs[i].kind == kind
           && subject(row) == Some(secs[i].subject)
           && secs[i].fields == Present(slots(row))
    decreases |rows|
  {
    if |rows| > 0 {
      BoundCons(rows, subject);
      EntitySectionsSpec(rows[1..], kind, subject, slots);
    }
  }

  /** The subjects that head a run of sections. */
  function SectionSubjects(secs: seq<Section>): seq<string> {
    seq(|secs|, i requires 0 <= i < |secs| => secs[i].subject)
  }

  // ---------------------------------------------------------------------
  // [editor:...], [editors], [maker:...], [makers]

  datatype Role = EditorRole | MakerRole

  function EntityKind(role: Role): Kind {
    match role
    case EditorRole => Editor
    case MakerRole => Maker
  }

  function SummaryKind(role: Role): Kind {
    match role
    case EditorRole => Editors
    case MakerRole => Makers
  }

  /** The affiliation name key is spelled differently for the two roles. */
  function AffiliationNameKey(role: Role): string {
    match role
    case EditorRole => "aName"
    case MakerRole => "aname"
  }

  function PersonOf(r: PersonRow): Option<string> {
    r.person
  }

  /** The candidate lines of one person row. When ?affiliation is bound both
      affiliation lines are printed, whatever their own variables hold. */
  function PersonSlots(r: PersonRow, role: Role): seq<Slot> {
    [ Slot("mname", r.mname),
      Slot("mhomepage", r.mhomepage),
      Slot("mmbox", r.mmbox),
      Slot(AffiliationNameKey(role), When(r.affiliation, Some(Show(r.aName)))),
      Slot("ahomepage", When(r.affiliation, Some(Show(r.ahomepage)))) ]
  }

  function PersonSlotsFor(role: Role): PersonRow -> seq<Slot> {
    r => PersonSlots(r, role)
  }

  function PersonOrder(role: Role): seq<string> {
    ["mname", "mhomepage", "mmbox", AffiliationNameKey(role), "ahomepage"]
  }

  /** The summary section: the comma-joined bound persons, or nothing when
      there are none. */
  function Summary(rows: seq<PersonRow>, role: Role): seq<Section> {
    var ids := Subjects(rows, PersonOf);
    if |ids| == 0 then []
    else [Section(SummaryKind(role), "", [Field("list", Join(ids, ","))])]
  }

  function PersonSections(rows: seq<PersonRow>, role: Role): seq<Section> {
    EntitySections(rows, EntityKind(role), PersonOf, PersonSlotsFor(role)) + Summary(rows, role)
  }

  lemma PersonOrderDistinct(role: Role)
    ensures Distinct(PersonOrder(role))
  {
  }

  /** The person lines by position in `PersonOrder`. */
  lemma PersonLinesAt(r: PersonRow, role: Role)
    ensures Values(Present(PersonSlots(r, role)), PersonOrder(role)[0]) == AsSeq(PersonSlots(r, role)[0].value)
    ensures Values(Present(PersonSlots(r, role)), PersonOrder(role)[1]) == AsSeq(PersonSlots(r, role)[1].value)
    ensures Values(Present(PersonSlots(r, role)), PersonOrder(role)[2]) == AsSeq(PersonSlots(r, role)[2].value)
    ensures Values(Present(PersonSlots(r, role)), PersonOrder(role)[3]) == AsSeq(PersonSlots(r, role)[3].value)
    ensures Values(Present(PersonSlots(r, role)), PersonOrder(role)[4]) == AsSeq(PersonSlots(r, role)[4].value)
  {
    var slots := PersonSlots(r, role);
    assert SlotKeys(slots) == PersonOrder(role);
    PersonOrderDistinct(role);
    DistinctSlots(slots, PersonOrder(role));
    PresentValues(slots, 0);
    PresentValues(slots, 1);
    PresentValues(slots, 2);
    PresentValues(slots, 3);
    PresentValues(slots, 4);
  }

  /** For one person row: the contact lines appear exactly when bound; when
      ?affiliation is bound both the affiliation name (`aName` for editors,
      `aname` for makers) and `ahomepage` are printed, an unbound value as
      `None`; otherwise neither is; the other spelling never appears; the
      keys come in the fixed order. */
  lemma PersonRowSpec(r: PersonRow, role: Role)
    ensures var fs := Present(PersonSlots(r, role));
      && Values(fs, "mname") == AsSeq(r.mname)
      && Values(fs, "mhomepage") == AsSeq(r.mhomepage)
      && Values(fs, "mmbox") == AsSeq(r.mmbox)
      && Values(fs, AffiliationNameKey(role)) == (if r.affiliation.Some? then [Show(r.aName)] else [])
      && Values(fs, "ahomepage") == (if r.affiliation.Some? then [Show(r.ahomepage)] else [])
      && Values(fs, if role == EditorRole then "aname" else "aName") == []
      && Subseq(Keys(fs), PersonOrder(role))
  {
    var slots := PersonSlots(r, role);
    PersonLinesAt(r, role);
    assert Values(Present(slots), if role == EditorRole then "aname" else "aName") == [] by {
      var other := if role == EditorRole then "aname" else "aName";
      assert forall i :: 0 <= i < |slots| ==> slots[i].key != other;
      PresentOmitsForeignKey(slots, other);
    }
    PresentKeepsOrder(slots);
    assert SlotKeys(slots) == PersonOrder(role);
  }

  /** The person sections: one entity section per row with the person bound,
      in row order, then the summary exactly when there is at least one, whose
      list is the comma-join of the entity sections' subjects, in order and
      with duplicates. */
  lemma {:induction false} PersonSectionsSpec(rows: seq<PersonRow>, role: Role)
    ensures var entities := EntitySections(rows, EntityKind(role), PersonOf, PersonSlotsFor(role));
      && (|entities| == 0 <==> forall i :: 0 <= i < |rows| ==> rows[i].person.None?)
      && PersonSections(rows, role) == entities +
           (if |entities| == 0 then []
            else [Section(SummaryKind(role), "", [Field("list", Join(SectionSubjects(entities), ","))])])
  {
    var entities := EntitySections(rows, EntityKind(role), PersonOf, PersonSlotsFor(role));
    EntitySectionsSpec(rows, EntityKind(role), PersonOf, PersonSlotsFor(role));
    var ids := Subjects(rows, PersonOf);
    var b := Bound(rows, PersonOf);
    assert SectionSubjects(entities) == ids by {
      forall i | 0 <= i < |ids|
        ensures SectionSubjects(entities)[i] == ids[i]
      {
        assert PersonOf(b[i]) == Some(ids[i]);
      }
    }
    if |entities| != 0 {
      BoundSound(rows, PersonOf);
      var j :| 0 <= j < |rows| && rows[j] == b[0];
      assert rows[j].person.Some?;
    } else {
      forall i | 0 <= i < |rows|
        ensures rows[i].person.None?
      {
        if rows[i].person.Some? {
          BoundComplete(rows, PersonOf, i);
        }
      }
    }
  }

  // ---------------------------------------------------------------------
  // [glance]

  /** The one way the conversion fails: joining a summary list that holds an
      unbound label raises an error, and no report is produced. `key` names
      the first such list in print order. */
  datatype ReportError = UnboundLabel(key: string)

  function ResourceOf(r: GlanceRow): Option<string> {
    r.resource
  }

  /** The label list and the URI list of one summary pass, grown together
      from the rows whose resource is bound. */
  function GlanceLists(rows: seq<GlanceRow>): (seq<Option<string>>, seq<string>) {
    if |rows| == 0 then ([], [])
    else
      var (labels, uris) := GlanceLists(rows[1..]);
      match rows[0].resource
      case Some(uri) => ([rows[0].labelText] + labels, [uri] + uris)
      case None => (labels, uris)
  }

  /** The two lists have equal length, and their i-th entries are the label
      and the resource of the i-th row whose resource is bound. */
  lemma {:induction false} GlanceListsSpec(rows: seq<GlanceRow>)
    ensures var lists := GlanceLists(rows);
      && |lists.0| == |lists.1| == |Bound(rows, ResourceOf)|
      && forall i :: 0 <= i < |lists.1| ==>
           Bound(rows, ResourceOf)[i] == GlanceRow(Some(lists.1[i]), lists.0[i])
    decreases |rows|
  {
    if |rows| > 0 {
      GlanceListsSpec(rows[1..]);
      BoundCons(rows, ResourceOf);
      if rows[0].resource.Some? {
        assert rows[0] == GlanceRow(Some(rows[0].resource.value), rows[0].labelText);
      }
    }
  }

  /** The labels, provided every one of them is bound. */
  function AllBound(labels: seq<Option<string>>): (r: Option<seq<string>>)
    ensures r.Some? <==> forall i :: 0 <= i < |labels| ==> labels[i].Some?
    ensures r.Some? ==> |r.value| == |labels|
    ensures r.Some? ==> forall i :: 0 <= i < |labels| ==> labels[i] == Some(r.value[i])
  {
    if |labels| == 0 then Some([])
    else match (labels[0], AllBound(labels[1..]))
      case (Some(l), Some(ls)) => Some([l] + ls)
      case _ => None
  }

  /** The comma-joined label list printed under `key`, or the error when a
      label is unbound. */
  function JoinLabels(labels: seq<Option<string>>, key: string): (r: Result<string, ReportError>)
    ensures r.Success? <==> forall i :: 0 <= i < |labels| ==> labels[i].Some?
    ensures r.Failure? ==> r.error == UnboundLabel(key)
    ensures r.Success? ==> r.value == Join(AllBound(labels).value, ",")
  {
    match AllBound(labels)
    case Some(ls) => Success(Join(ls, ","))
    case None => Failure(UnboundLabel(key))
  }

  /** Every row of a summary pass whose resource is bound also has its label
      bound. */
  predicate LabelsBound(rows: seq<GlanceRow>) {
    forall i :: 0 <= i < |rows| && rows[i].resource.Some? ==> rows[i].labelText.Some?
  }

  /** The two lines of one summary pass: its comma-joined labels under
      `labelKey` and its comma-joined URIs under `uriKey`, both printed even
      when empty. */
  function GlancePass(rows: seq<GlanceRow>, labelKey: string, uriKey: string): Result<seq<Field>, ReportError> {
    var lists := GlanceLists(rows);
    var labels :- JoinLabels(lists.0, labelKey);
    Success([Field(labelKey, labels), Field(uriKey, Join(lists.1, ","))])
  }

  /** The `[glance]` section: the lines of the four summary passes. */
  function GlanceSection(classes: seq<GlanceRow>, classesNl: seq<GlanceRow>,
                         properties: seq<GlanceRow>, propertiesNl: seq<GlanceRow>): Result<Section, ReportError>
  {
    var classLines :- GlancePass(classes, "classes", "class_uris");
    var classLinesNl :- GlancePass(classesNl, "classes_nl", "class_uris_nl");
    var propLines :- GlancePass(properties, "properties", "prop_uris");
    var propLinesNl :- GlancePass(propertiesNl, "properties_nl", "prop_uris_nl");
    Success(Section(Glance, "", classLines + classLinesNl + propLines + propLinesNl))
  }

  const GlanceOrder: seq<string> :=
    ["classes", "class_uris", "classes_nl", "class_uris_nl",
     "properties", "prop_uris", "properties_nl", "prop_uris_nl"]

  /** A pass's labels are all bound exactly when every bound row has one. */
  lemma GlanceListsBound(rows: seq<GlanceRow>)
    ensures AllBound(GlanceLists(rows).0).Some? <==> LabelsBound(rows)
  {
    GlanceListsSpec(rows);
    var lists := GlanceLists(rows);
    var b := Bound(rows, ResourceOf);
    if LabelsBound(rows) {
      forall i | 0 <= i < |lists.0|
        ensures lists.0[i].Some?
      {
        assert b[i] == GlanceRow(Some(lists.1[i]), lists.0[i]);
        assert b[i] in rows;
      }
    } else {
      var j :| 0 <= j < |rows| && rows[j].resource.Some? && rows[j].labelText.None?;
      BoundComplete(rows, ResourceOf, j);
      var k :| 0 <= k < |b| && b[k] == rows[j];
      assert b[k] == GlanceRow(Some(lists.1[k]), lists.0[k]);
      assert 0 <= k < |lists.0| && !(lists.0[k].Some?);
      assert !(forall i :: 0 <= i < |lists.0| ==> lists.0[i].Some?);
    }
  }

  /** The URI list of a pass is the list of bound resources. */
  lemma UrisAreSubjects(rows: seq<GlanceRow>)
    ensures GlanceLists(rows).1 == Subjects(rows, ResourceOf)
  {
    GlanceListsSpec(rows);
    var uris := GlanceLists(rows).1;
    var ids := Subjects(rows, ResourceOf);
    var b := Bound(rows, ResourceOf);
    forall i | 0 <= i < |uris|
      ensures uris[i] == ids[i]
    {
      assert b[i].resource == Some(uris[i]);
      assert ResourceOf(b[i]) == Some(ids[i]);
    }
  }

  /** One summary pass succeeds exactly when every bound row has a label; it
      then prints the label list and the URI list, the URI list being the
      bound resources in row order and the label list their labels. */
  lemma GlancePassSpec(rows: seq<GlanceRow>, labelKey: string, uriKey: string)
    ensures var p := GlancePass(rows, labelKey, uriKey);
      && (p.Success? <==> LabelsBound(rows))
      && (p.Failure? ==> p.error == UnboundLabel(labelKey))
      && (p.Success? ==> p.value == [
            Field(labelKey, Join(AllBound(GlanceLists(rows).0).value, ",")),
            Field(uriKey, Join(Subjects(rows, ResourceOf), ","))])
  {
    GlanceListsBound(rows);
    UrisAreSubjects(rows);
  }

  /** The summary section exists exactly when every bound summary row has a
      label, and it then holds the eight keys in the fixed order; when it
      fails, the error names the first list, in print order, that holds an
      unbound label. */
  lemma GlanceSectionSpec(classes: seq<GlanceRow>, classesNl: seq<GlanceRow>,
                          properties: seq<GlanceRow>, propertiesNl: seq<GlanceRow>)
    ensures var g := GlanceSection(classes, classesNl, properties, propertiesNl);
      && (g.Success? <==>
            LabelsBound(classes) && LabelsBound(classesNl) && LabelsBound(properties) && LabelsBound(propertiesNl))
      && (g.Failure? ==> g.error == UnboundLabel(
            if !LabelsBound(classes) then "classes"
            else if !LabelsBound(classesNl) then "classes_nl"
            else if !LabelsBound(properties) then "properties"
            else "properties_nl"))
      && (g.Success? ==>
            && g.value.kind == Glance && g.value.subject == ""
            && Keys(g.value.fields) == GlanceOrder)
  {
    GlancePassSpec(classes, "classes", "class_uris");
    GlancePassSpec(classesNl, "classes_nl", "class_uris_nl");
    GlancePassSpec(properties, "properties", "prop_uris");
    GlancePassSpec(propertiesNl, "properties_nl", "prop_uris_nl");
  }

  // ---------------------------------------------------------------------
  // [class:...], [class_nl:...], [property:...], [property_nl:...]

  function ClassOf(r: ClassRow): Option<string> {
    r.resource
  }

  function PropertyOf(r: PropertyRow): Option<string> {
    r.resource
  }

  /** The candidate lines of one class row; comment and usage note have their
      line feeds replaced, every other value is printed verbatim. */
  function ClassSlots(r: ClassRow): seq<Slot> {
    [ Slot("label", r.labelText),
      Slot("identifier", r.identifier),
      Slot("comment", Collapsed(r.comment)),
      Slot("usageNote", Collapsed(r.usageNote)),
      Slot("definedBy", r.definedBy),
      Slot("describedBy", r.describedBy) ]
  }

  /** The candidate lines of one property row: as for a class, with domain
      and range after the identifier. */
  function PropertySlots(r: PropertyRow): seq<Slot> {
    [ Slot("label", r.labelText),
      Slot("identifier", r.identifier),
      Slot("domain", r.domain),
      Slot("range", r.range),
      Slot("comment", Collapsed(r.comment)),
      Slot("usageNote", Collapsed(r.usageNote)),
      Slot("definedBy", r.definedBy),
      Slot("describedBy", r.describedBy) ]
  }

  const ClassOrder: seq<string> :=
    ["label", "identifier", "comment", "usageNote", "definedBy", "describedBy"]

  const PropertyOrder: seq<string> :=
    ["label", "identifier", "domain", "range", "comment", "usageNote", "definedBy", "describedBy"]

  function ClassSections(rows: seq<ClassRow>, kind: Kind): seq<Section> {
    EntitySections(rows, kind, ClassOf, ClassSlots)
  }

  function PropertySections(rows: seq<PropertyRow>, kind: Kind): seq<Section> {
    EntitySections(rows, kind, PropertyOf, PropertySlots)
  }

  lemma ClassOrderDistinct()
    ensures Distinct(ClassOrder)
  {
  }

  lemma PropertyOrderDistinct()
    ensures Distinct(PropertyOrder)
  {
  }

  /** The class lines by position in `ClassOrder`. */
  lemma ClassLinesAt(r: ClassRow)
    ensures Values(Present(ClassSlots(r)), ClassOrder[0]) == AsSeq(ClassSlots(r)[0].value)
    ensures Values(Present(ClassSlots(r)), ClassOrder[1]) == AsSeq(ClassSlots(r)[1].value)
    ensures Values(Present(ClassSlots(r)), ClassOrder[2]) == AsSeq(ClassSlots(r)[2].value)
    ensures Values(Present(ClassSlots(r)), ClassOrder[3]) == AsSeq(ClassSlots(r)[3].value)
    ensures Values(Present(ClassSlots(r)), ClassOrder[4]) == AsSeq(ClassSlots(r)[4].value)
    ensures Values(Present(ClassSlots(r)), ClassOrder[5]) == AsSeq(ClassSlots(r)[5].value)
  {
    var slots := ClassSlots(r);
    assert SlotKeys(slots) == ClassOrder;
    ClassOrderDistinct();
    DistinctSlots(slots, ClassOrder);
    PresentValues(slots, 0);
    PresentValues(slots, 1);
    PresentValues(slots, 2);
    PresentValues(slots, 3);
    PresentValues(slots, 4);
    PresentValues(slots, 5);
  }

  /** For one class row: every key is printed exactly once when its variable
      is bound and not at all otherwise, comment and usage note with their
      line feeds replaced, label and the others verbatim; no domain or range
      line; the keys come in the fixed order. */
  lemma ClassRowSpec(r: ClassRow)
    ensures var fs := Present(ClassSlots(r));
      && Values(fs, "label") == AsSeq(r.labelText)
      && Values(fs, "identifier") == AsSeq(r.identifier)
      && Values(fs, "comment") == (if r.comment.Some? then [ReplaceNewlines(r.comment.value)] else [])
      && Values(fs, "usageNote") == (if r.usageNote.Some? then [ReplaceNewlines(r.usageNote.value)] else [])
      && Values(fs, "definedBy") == AsSeq(r.definedBy)
      && Values(fs, "describedBy") == AsSeq(r.describedBy)
      && Values(fs, "domain") == [] && Values(fs, "range") == []
      && Subseq(Keys(fs), ClassOrder)
  {
    var slots := ClassSlots(r);
    ClassLinesAt(r);
    assert Values(Present(slots), "domain") == [] by {
      assert forall i :: 0 <= i < |slots| ==> slots[i].key != "domain";
      PresentOmitsForeignKey(slots, "domain");
    }
    assert Values(Present(slots), "range") == [] by {
      assert forall i :: 0 <= i < |slots| ==> slots[i].key != "range";
      PresentOmitsForeignKey(slots, "range");
    }
    PresentKeepsOrder(slots);
    assert SlotKeys(slots) == ClassOrder;
  }

  /** The property lines by position in `PropertyOrder`. */
  lemma PropertyLinesAt(r: PropertyRow)
    ensures Values(Present(PropertySlots(r)), PropertyOrder[0]) == AsSeq(PropertySlots(r)[0].value)
    ensures Values(Present(PropertySlots(r)), PropertyOrder[1]) == AsSeq(PropertySlots(r)[1].value)
    ensures Values(Present(PropertySlots(r)), PropertyOrder[2]) == AsSeq(PropertySlots(r)[2].value)
    ensures Values(Present(PropertySlots(r)), PropertyOrder[3]) == AsSeq(PropertySlots(r)[3].value)
    ensures Values(Present(PropertySlots(r)), PropertyOrder[4]) == AsSeq(PropertySlots(r)[4].value)
    ensures Values(Present(PropertySlots(r)), PropertyOrder[5]) == AsSeq(PropertySlots(r)[5].value)
    ensures Values(Present(PropertySlots(r)), PropertyOrder[6]) == AsSeq(PropertySlots(r)[6].value)
    ensures Values(Present(PropertySlots(r)), PropertyOrder[7]) == AsSeq(PropertySlots(r)[7].value)
  {
    var slots := PropertySlots(r);
    assert SlotKeys(slots) == PropertyOrder;
    PropertyOrderDistinct();
    DistinctSlots(slots, PropertyOrder);
    PresentValues(slots, 0);
    PresentValues(slots, 1);
    PresentValues(slots, 2);
    PresentValues(slots, 3);
    PresentValues(slots, 4);
    PresentValues(slots, 5);
    PresentValues(slots, 6);
    PresentValues(slots, 7);
  }

  /** For one property row: as for a class, plus `domain` and `range` lines
      exactly when bound, between the identifier and the comment. */
  lemma PropertyRowSpec(r: PropertyRow)
    ensures var fs := Present(PropertySlots(r));
      && Values(fs, "label") == AsSeq(r.labelText)
      && Values(fs, "identifier") == AsSeq(r.identifier)
      && Values(fs, "domain") == AsSeq(r.domain)
      && Values(fs, "range") == AsSeq(r.range)
      && Values(fs, "comment") == (if r.comment.Some? then [ReplaceNewlines(r.comment.value)] else [])
      && Values(fs, "usageNote") == (if r.usageNote.Some? then [ReplaceNewlines(r.usageNote.value)] else [])
      && Values(fs, "definedBy") == AsSeq(r.definedBy)
      && Values(fs, "describedBy") == AsSeq(r.describedBy)
      && Subseq(Keys(fs), PropertyOrder)
  {
    PropertyLinesAt(r);
    PresentKeepsOrder(PropertySlots(r));
    assert SlotKeys(PropertySlots(r)) == PropertyOrder;
  }
}
