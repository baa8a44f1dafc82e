/** The result rows of the pattern queries the converter runs. Each query
    shape has its own row type; every query variable is an optional value,
    `None` when the query left it unbound. Bound values are opaque strings
    (whatever the graph term renders as). The variables ?label and ?abstract
    become the fields `labelText` and `abstractText`, since `label` and
    `abstract` are Dafny keywords. */
module Rows {
  import opened Wrappers

  /** A row of the ontology header query (variables ?v, ?prefix, ?pUri,
      ?label, ?abstract, ?attribution, ?attributionUrl, ?issued, ?modified,
      ?rights, ?title and the mediator ?m with ?mhomepage, ?mmbox, ?mname). */
  datatype HeaderRow = HeaderRow(
    ontology: Option<string>,
    prefix: Option<string>,
    pUri: Option<string>,
    labelText: Option<string>,
    abstractText: Option<string>,
    attribution: Option<string>,
    attributionUrl: Option<string>,
    issued: Option<string>,
    modified: Option<string>,
    rights: Option<string>,
    title: Option<string>,
    mediator: Option<string>,
    mhomepage: Option<string>,
    mmbox: Option<string>,
    mname: Option<string>)

  /** A row of the editor query (person ?e) or of the maker query (person ?m),
      with the affiliation group ?affiliation, ?ahomepage, ?aName and the
      contact fields ?mhomepage, ?mmbox, ?mname. */
  datatype PersonRow = PersonRow(
    person: Option<string>,
    affiliation: Option<string>,
    ahomepage: Option<string>,
    aName: Option<string>,
    mhomepage: Option<string>,
    mmbox: Option<string>,
    mname: Option<string>)

  /** A row of a summary query: a class (?class) or property (?p) with its
      label (?label) in one language. */
  datatype GlanceRow = GlanceRow(resource: Option<string>, labelText: Option<string>)

  /** A row of a class detail query (?class and its annotations). */
  datatype ClassRow = ClassRow(
    resource: Option<string>,
    labelText: Option<string>,
    identifier: Option<string>,
    comment: Option<string>,
    usageNote: Option<string>,
    definedBy: Option<string>,
    describedBy: Option<string>)

  /** A row of a property detail query (?p, its annotations, ?domain, ?range). */
  datatype PropertyRow = PropertyRow(
    resource: Option<string>,
    labelText: Option<string>,
    identifier: Option<string>,
    comment: Option<string>,
    domain: Option<string>,
    range: Option<string>,
    usageNote: Option<string>,
    definedBy: Option<string>,
    describedBy: Option<string>)

  /** The rows of every query, in the order the converter runs them; `Nl`
      marks the passes filtered on the Dutch language tag, the others use the
      English one. */
  datatype QueryResults = QueryResults(
    header: seq<HeaderRow>,
    editors: seq<PersonRow>,
    makers: seq<PersonRow>,
    classes: seq<GlanceRow>,
    classesNl: seq<GlanceRow>,
    properties: seq<GlanceRow>,
    propertiesNl: seq<GlanceRow>,
    classDetails: seq<ClassRow>,
    classDetailsNl: seq<ClassRow>,
    propertyDetails: seq<PropertyRow>,
    propertyDetailsNl: seq<PropertyRow>)
}
