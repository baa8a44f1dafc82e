/** Worked examples: whole conversions of small, fixed query results. */
module Scenarios {
  import opened Wrappers
  import opened Text
  import opened Rows
  import opened Outline
  import opened Report
  import opened Conversion

  /** The `[glance]` lines of a document with no classes and no properties:
      all eight keys, each with an empty list. */
  const EmptyGlance: seq<Field> :=
    [Field("classes", ""), Field("class_uris", ""), Field("classes_nl", ""), Field("class_uris_nl", ""),
     Field("properties", ""), Field("prop_uris", ""), Field("properties_nl", ""), Field("prop_uris_nl", "")]

  /** A summary pass over no rows prints both of its keys with empty lists. */
  lemma GlancePassEmpty(labelKey: string, uriKey: string)
    ensures GlancePass([], labelKey, uriKey) == Success([Field(labelKey, ""), Field(uriKey, "")])
  {
    assert GlanceLists([]) == ([], []);
    assert AllBound([]) == Some([]);
  }

  /** With no classes and no properties the `[glance]` section is still
      printed, with every list empty. */
  lemma GlanceEmpty()
    ensures GlanceSection([], [], [], []) == Success(Section(Glance, "", EmptyGlance))
  {
    GlancePassEmpty("classes", "class_uris");
    GlancePassEmpty("classes_nl", "class_uris_nl");
    GlancePassEmpty("properties", "prop_uris");
    GlancePassEmpty("properties_nl", "prop_uris_nl");
    assert [Field("classes", ""), Field("class_uris", "")] + [Field("classes_nl", ""), Field("class_uris_nl", "")]
      + [Field("properties", ""), Field("prop_uris", "")] + [Field("properties_nl", ""), Field("prop_uris_nl", "")]
      == EmptyGlance;
  }

  /** A document with an ontology resource but no editors, makers, classes
      or properties gives exactly two sections: `[metadata]` and an empty
      `[glance]`. */
  lemma HeaderOnly(header: seq<HeaderRow>)
    ensures Sections(QueryResults(header, [], [], [], [], [], [], [], [], [], []))
      == Success([MetadataSection(header), Section(Glance, "", EmptyGlance)])
  {
    GlanceEmpty();
    var q := QueryResults(header, [], [], [], [], [], [], [], [], [], []);
    var glance := Section(Glance, "", EmptyGlance);
    var runs := Runs(q, glance);
    assert Summary([], EditorRole) == [];
    assert Summary([], MakerRole) == [];
    assert runs == [[MetadataSection(header)], [], [], [], [], [glance], [], [], [], []];
    ConcatTwo(runs, MetadataSection(header), glance);
  }

  /** Ten runs, all empty but the metadata and glance runs. */
  lemma ConcatTwo(runs: seq<seq<Section>>, meta: Section, glance: Section)
    requires runs == [[meta], [], [], [], [], [glance], [], [], [], []]
    ensures Concat(runs) == [meta, glance]
  {
    assert Concat(runs[10..]) == [];
    assert Concat(runs[9..]) == [];
    assert Concat(runs[8..]) == [];
    assert Concat(runs[7..]) == [];
    assert Concat(runs[6..]) == [];
    assert Concat(runs[5..]) == [glance];
    assert Concat(runs[4..]) == [glance];
    assert Concat(runs[3..]) == [glance];
    assert Concat(runs[2..]) == [glance];
    assert Concat(runs[1..]) == [glance];
  }

  /** A header row binding only the ontology resource and its title. */
  function TitledOntology(uri: string, title: string): HeaderRow {
    HeaderRow(Some(uri), None, None, None, None, None, None, None, None, None,
              Some(title), None, None, None, None)
  }

  /** Such a row prints exactly its `uri=` and `title=` lines. */
  lemma TitledOntologyLines(uri: string, title: string)
    ensures MetadataFields([TitledOntology(uri, title)]) == [Field("uri", uri), Field("title", title)]
  {
    var h := TitledOntology(uri, title);
    var slots := MetadataSlots(h);
    assert Present(slots[5..]) == [] by {
      PresentNothing(slots[5..]);
    }
    assert Present(slots[4..]) == [Field("title", title)];
    assert Present(slots[3..]) == [Field("title", title)];
    assert Present(slots[2..]) == [Field("title", title)];
    assert Present(slots[1..]) == [Field("title", title)];
    assert slots[0..] == slots;
    assert [h][1..] == [];
    assert MetadataFields([h]) == MetadataLines(h) + MetadataFields([]);
  }

  /** A document with only an ontology resource and its title: the metadata
      is one `uri=` and one `title=` line, and the report goes on with the
      empty `[glance]` section. */
  lemma TitleOnly(uri: string, title: string)
    ensures Sections(QueryResults([TitledOntology(uri, title)], [], [], [], [], [], [], [], [], [], []))
      == Success([Section(Metadata, "", [Field("uri", uri), Field("title", title)]),
                  Section(Glance, "", EmptyGlance)])
  {
    HeaderOnly([TitledOntology(uri, title)]);
    TitledOntologyLines(uri, title);
  }

  /** A summary pass over one row with both resource and label bound lists
      that label and that URI. */
  lemma GlancePassOne(uri: string, name: string, labelKey: string, uriKey: string)
    ensures GlancePass([GlanceRow(Some(uri), Some(name))], labelKey, uriKey)
      == Success([Field(labelKey, name), Field(uriKey, uri)])
  {
    var rows := [GlanceRow(Some(uri), Some(name))];
    assert rows[1..] == [];
    assert GlanceLists(rows[1..]) == ([], []);
    assert GlanceLists(rows).0 == [Some(name)] + [];
    assert GlanceLists(rows).1 == [uri] + [];
    var labels := [Some(name)];
    assert AllBound(labels[1..]) == Some([]);
    assert AllBound(labels).value == [name] + [];
    assert Join([uri], ",") == uri;
    assert Join([name], ",") == name;
  }

  /** A class row with only resource, label and a one-line comment bound
      gives one section with its `label=` and `comment=` lines. */
  lemma CommentedClassSection(uri: string, name: string, comment: string)
    requires '\n' !in comment
    ensures ClassSections([ClassRow(Some(uri), Some(name), None, Some(comment), None, None, None)], Class)
      == [Section(Class, uri, [Field("label", name), Field("comment", comment)])]
  {
    var c := ClassRow(Some(uri), Some(name), None, Some(comment), None, None, None);
    NewlineFreeUnchanged(comment);
    var slots := ClassSlots(c);
    assert slots[2] == Slot("comment", Some(comment));
    assert Present(slots[6..]) == [];
    assert Present(slots[5..]) == [];
    assert Present(slots[4..]) == [];
    assert Present(slots[3..]) == [];
    assert Present(slots[2..]) == [Field("comment", comment)];
    assert Present(slots[1..]) == [Field("comment", comment)];
    assert Present(slots) == [Field("label", name), Field("comment", comment)];
    var rows := [c];
    assert rows[1..] == [];
    assert EntitySections(rows[1..], Class, ClassOf, ClassSlots) == [];
    assert EntitySections(rows, Class, ClassOf, ClassSlots) == [Section(Class, uri, Present(slots))] + [];
  }

  /** A document whose one class has an English label and comment and no
      Dutch label. */
  function OneClass(uri: string, name: string, comment: string): QueryResults {
    QueryResults([], [], [],
      [GlanceRow(Some(uri), Some(name))], [], [], [],
      [ClassRow(Some(uri), Some(name), None, Some(comment), None, None, None)], [],
      [], [])
  }

  /** The class is listed by label and URI in `[glance]`, gets one
      `[class:<uri>]` section holding its label and comment, and no
      `[class_nl:...]` section. */
  lemma OneClassReport(uri: string, name: string, comment: string)
    requires '\n' !in comment
    ensures Sections(OneClass(uri, name, comment)).Success?
    ensures var secs := Sections(OneClass(uri, name, comment)).value;
      && |OfKind(secs, Glance)| == 1 && |OfKind(secs, Glance)[0].fields| >= 2
      && OfKind(secs, Glance)[0].fields[..2] == [Field("classes", name), Field("class_uris", uri)]
      && OfKind(secs, Class) == [Section(Class, uri, [Field("label", name), Field("comment", comment)])]
      && OfKind(secs, ClassNl) == []
  {
    var q := OneClass(uri, name, comment);
    GlancePassOne(uri, name, "classes", "class_uris");
    GlancePassEmpty("classes_nl", "class_uris_nl");
    GlancePassEmpty("properties", "prop_uris");
    GlancePassEmpty("properties_nl", "prop_uris_nl");
    var glance := GlanceSection(q.classes, q.classesNl, q.properties, q.propertiesNl).value;
    assert glance.fields[..2] == [Field("classes", name), Field("class_uris", uri)];
    SectionsFrame(q);
    SectionsDetails(q);
    CommentedClassSection(uri, name, comment);
  }
}
