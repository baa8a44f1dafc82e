# Vocabulary report serialiser

This project models the report writer of `convert` in `specgen/extractvoc.py`.
The converter runs a series of pattern queries over an ontology graph. It then
writes their result rows as an INI-like text report that the specification
generator reads. The sections come in this order:

1. `[metadata]`, with the ontology header fields;
2. one `[editor:<uri>]` per editor row, then an `[editors]` list;
3. the same for makers;
4. `[glance]`, with the comma-joined label and URI lists of the classes and
   properties in English and in Dutch;
5. one `[class:…]` / `[class_nl:…]` section per class detail row;
6. one `[property:…]` / `[property_nl:…]` section per property detail row.

A field line `key=value` is written only when its query variable is bound.
Line feeds in abstracts, comments and usage notes are replaced by spaces
before they are written.

The query rows are inputs. There is one datatype per query shape (`Rows`),
and every query variable is an `Option<string>`. The model builds the report
as a sequence of sections (`Outline.Section`: kind, subject, fields), and
`Outline.Render` turns that sequence into text. Rendering joins the section
texts with one line feed. Every section text ends with a line feed, so every
header after the first is preceded by a blank line, which is the `"\n["` the
converter writes.

The modules follow the converter's stages:

- `Wrappers`, `Seqs`: option/result types and subsequences.
- `Text`: the line-feed rewrite and comma joining, with the splitting that
  inverts it.
- `Outline`: fields, candidate lines (`Slot`), sections, section kinds and
  their order, and rendering.
- `Rows`: the query rows.
- `Report`: one stage per section kind.
- `Conversion`: the whole report (`Sections`, `Convert`) and its structure.
- `Reader`: a line-by-line reader for the report format, defined here. It
  states what the format preserves: a rendering whose values hold no line
  feed reads back section by section and line by line.
- `ReadBack`: which query results give such a rendering, so that the text
  the converter returns reads back as the sections it built.
- `Scenarios`: small worked reports.

Some behaviours of the code are kept as written:

- When `?affiliation` is bound but `?aName` or `?ahomepage` is not, Python's
  `"%s" % None` prints `None`. `Report.Show` models that.
- The affiliation name key is `aName` for editors and `aname` for makers.
- Joining a glance list that holds an unbound label raises an error. The
  whole conversion then produces no text, which is modelled as
  `Failure(UnboundLabel(key))`, where `key` names the first such list in
  print order.
- Several header rows are written one after the other under the single
  `[metadata]` header. The model does not require at most one header row,
  because `LIMIT 1` belongs to the query.

The converter always writes `[glance]` with its eight keys, even when every
list is empty, so a document with only an ontology resource still yields a
`[glance]` section after `[metadata]` (`Scenarios.HeaderOnly`,
`Scenarios.TitleOnly`).

## Model

| member | source | states |
|---|---|---|
| Text.ReplaceNewlines | specgen/extractvoc.py:84 | the rewrite keeps the length, turns each line feed into one space, leaves every other character unchanged, and leaves no line feed |
| Text.ReplaceNewlinesIdempotent | specgen/extractvoc.py:274 | rewriting an already rewritten value changes nothing |
| Text.NewlineFreeUnchanged | specgen/extractvoc.py:276 | a value without line feeds is written verbatim by the rewrite |
| Text.SplitJoin | specgen/extractvoc.py:131 | splitting a comma-joined list at commas gives the list back when no element contains a comma and the list is non-empty |
| Text.JoinSplit | specgen/extractvoc.py:163 | joining the comma-separated parts of any text gives the text back, so the join is onto every text |
| Text.CommaInValueIsAmbiguous | specgen/extractvoc.py:184 | a label holding a comma is read back from the joined list as two labels |
| Text.Join | specgen/extractvoc.py:131 | `','.join`: the elements with the separator between neighbours; specified by `Text.SplitJoin` and `Text.JoinSplit` |
| Outline.PresentValues | specgen/extractvoc.py:73-97 | with distinct keys, a candidate line's key is written exactly once with its value when the value is bound, and never when it is unbound |
| Outline.PresentOmitsForeignKey | specgen/extractvoc.py:73-97 | a key that no candidate line carries is never written |
| Outline.PresentKeepsOrder | specgen/extractvoc.py:73-97 | the written keys keep the order of the candidate lines |
| Outline.PresentNothing | specgen/extractvoc.py:73-97 | when every variable is unbound, a section gets no field lines |
| Outline.PresentSpec | specgen/extractvoc.py:266-280 | for candidate lines in a repeat-free key order: key i is written iff slot i is bound, with its value; no other key is written; keys keep the order |
| Outline.RenderAppend | specgen/extractvoc.py:118 | rendering two runs of sections puts exactly one extra line feed between them |
| Outline.RenderStartsWithFirst | specgen/extractvoc.py:70 | the text starts with the whole text of the first section |
| Outline.RenderOpens | specgen/extractvoc.py:70 | the text starts with the first section's bracketed header and a line feed |
| Outline.RenderAt | specgen/extractvoc.py:118 | before every section after the first, the text so far ends with a line feed and is followed by a blank line and the bracketed header |
| Outline.OfKindAppend | specgen/extractvoc.py:70-387 | the sections of one kind in two appended runs are those of the first run followed by those of the second |
| Outline.OfKindUniform | specgen/extractvoc.py:266-268 | a run written by one loop holds only that loop's kind |
| Outline.PrependRun | specgen/extractvoc.py:70-387 | writing a run of one kind before sections of no lower rank keeps the fixed kind order |
| Outline.SectionTextEndsLine | specgen/extractvoc.py:118-127 | every section text is non-empty and ends with a line feed |
| Outline.Present | specgen/extractvoc.py:73-97 | the `if row[..] is not None` guards: the field lines of the bound candidates, in order; specified by `Outline.PresentValues`, `Outline.PresentOmitsForeignKey`, `Outline.PresentKeepsOrder`, `Outline.PresentSpec` |
| Outline.Render | specgen/extractvoc.py:118 | the report text built by `result +=`, with each header after the first opened by `"\n["`; specified by `Outline.RenderAppend`, `Outline.RenderAt`, `Outline.RenderOpens`, `Reader.ParseRender` |
| Report.When | specgen/extractvoc.py:91-97 | a mediator line is written iff both `?m` and its own value are bound, and then with that value; the affiliation lines use the same guard with an always-present value (`Some(Show(..))`), so they follow `?affiliation` alone (see `Report.PersonRowSpec`) |
| Report.Collapsed | specgen/extractvoc.py:84 | a long literal is written iff bound, with the same length and no line feed |
| Report.MetadataSlots | specgen/extractvoc.py:72-97 | the twelve candidate lines of one header row in print order; specified by `Report.MetadataRowSpec` |
| Report.MetadataSectionSpec | specgen/extractvoc.py:70-97 | the section is headed `metadata`; with no header row it has no lines, with one row exactly that row's lines |
| Report.MetadataFieldsAppend | specgen/extractvoc.py:72-97 | the lines of several header rows are the lines of each row, one row after the other |
| Report.MetadataRowSpec | specgen/extractvoc.py:72-97 | for one header row: each of the twelve keys is written exactly when bound, the abstract rewritten; the mediator lines need ?m; the attribution variables are never written; the keys keep the fixed order |
| Report.MetadataOmitsAttribution | specgen/extractvoc.py:56-97 | the queried ?attribution and ?attributionUrl never get a line |
| Report.BoundSound | specgen/extractvoc.py:115-116 | the rows that get a section are rows of the input with the subject bound, in input order |
| Report.BoundComplete | specgen/extractvoc.py:147-148 | no row with its subject bound is skipped |
| Report.Bound | specgen/extractvoc.py:115-116 | the rows a loop writes a section for (`if row[..] is not None`); specified by `Report.BoundSound`, `Report.BoundComplete`, `Report.BoundAppend`, `Report.BoundAt` |
| Report.BoundAppend | specgen/extractvoc.py:115-117 | the written rows of two runs of rows are those of the first run then those of the second; a single row is written once when its subject is bound and not at all otherwise |
| Report.BoundAt | specgen/extractvoc.py:147-150 | the bound row at input position i is written at the position given by the number of bound rows before it, so every bound row is written exactly once and in place |
| Report.EntitySections | specgen/extractvoc.py:115-127 | one section per bound row, headed by its subject, holding its written lines; specified by `Report.EntitySectionsSpec` |
| Report.PersonSlots | specgen/extractvoc.py:119-127 | the five candidate lines of one editor or maker row; specified by `Report.PersonRowSpec` |
| Report.Summary | specgen/extractvoc.py:129-131 | the `[editors]`/`[makers]` section with `list=`, written only when a row had the person bound; specified by `Report.PersonSectionsSpec` |
| Report.Subjects | specgen/extractvoc.py:117 | the appended list holds the subject of the i-th bound row at position i, duplicates kept |
| Report.EntitySectionsSpec | specgen/extractvoc.py:266-280 | section i is headed by the subject of the i-th bound row and holds that row's written lines; there is one section per bound row |
| Report.PersonRowSpec | specgen/extractvoc.py:119-159 | for one editor or maker row: contact lines exactly when bound; with ?affiliation bound both the affiliation name (`aName` for editors, `aname` for makers) and `ahomepage` are written, an unbound value as `None`; without it neither; the other spelling never; the keys keep the fixed order |
| Report.PersonSectionsSpec | specgen/extractvoc.py:113-131 | the person sections are the entity sections followed by the summary; the summary is absent iff no row has the person bound; its `list=` is the comma-join of the entity sections' subjects in order |
| Report.GlanceListsSpec | specgen/extractvoc.py:176-182 | the label list and the URI list have equal length, and their i-th entries are the label and the resource of the same (i-th bound) row |
| Report.GlanceLists | specgen/extractvoc.py:176-182 | the label and URI lists a summary pass collects; specified by `Report.GlanceListsSpec`, `Report.GlanceListsBound`, `Report.UrisAreSubjects` |
| Report.GlancePass | specgen/extractvoc.py:176-186 | one summary pass: its label and URI lines, or the join error; specified by `Report.GlancePassSpec` |
| Report.GlanceSection | specgen/extractvoc.py:165-249 | the `[glance]` section from the four passes; specified by `Report.GlanceSectionSpec` |
| Report.AllBound | specgen/extractvoc.py:184 | the labels can be joined iff every one is bound, and then the joined labels are exactly the bound values |
| Report.JoinLabels | specgen/extractvoc.py:184 | joining fails iff a label is unbound, naming the list; otherwise it is the comma-join of the labels |
| Report.GlanceListsBound | specgen/extractvoc.py:179-184 | a pass's labels are all bound iff every row with a bound resource has a label |
| Report.UrisAreSubjects | specgen/extractvoc.py:179-186 | the URI list is the bound resources in row order |
| Report.GlancePassSpec | specgen/extractvoc.py:176-186 | a pass succeeds iff every bound row has a label; it then writes the label list and the URI list, both even when empty; a failure names the label key |
| Report.GlanceSectionSpec | specgen/extractvoc.py:165-249 | the glance section exists iff all four passes have their labels; it has the eight keys in the fixed order; a failure names the first failing list in print order |
| Report.ClassRowSpec | specgen/extractvoc.py:266-312 | for one class row: each key written exactly when bound; comment and usage note rewritten, the others verbatim; no domain or range; the keys keep the fixed order |
| Report.PropertyRowSpec | specgen/extractvoc.py:331-387 | for one property row: as for a class, plus `domain` and `range` when bound, between identifier and comment |
| Report.ClassSlots | specgen/extractvoc.py:269-280 | the six candidate lines of one class row in print order; specified by `Report.ClassRowSpec` |
| Report.PropertySlots | specgen/extractvoc.py:333-349 | the eight candidate lines of one property row in print order; specified by `Report.PropertyRowSpec` |
| Conversion.ConvertSucceedsIff | specgen/extractvoc.py:184-247 | the conversion yields sections and text iff every bound glance row has a label (`LabelsComplete`); a failure names the first failing list in print order |
| Conversion.Sections | specgen/extractvoc.py:70-387 | the report as a list of sections, or the error that aborts it; specified by `Conversion.SectionsOrdered`, `Conversion.SectionsOfKind`, `Conversion.SectionsFrame`, `Conversion.SectionsPersons`, `Conversion.SectionsDetails` |
| Conversion.Convert | specgen/extractvoc.py:70-387 | the text `convert` returns; specified by `Conversion.ConvertSucceedsIff`, `Conversion.ConvertStartsWithMetadata`, `Conversion.ConvertSectionBreak`, `ReadBack.ConvertReadsBack` |
| Conversion.EntityRunKind | specgen/extractvoc.py:297-299 | every section of a detail or person loop has that loop's kind |
| Conversion.OfKindConcat | specgen/extractvoc.py:70-387 | in runs laid end to end with ascending kinds, the sections of the i-th kind are exactly the i-th run |
| Conversion.ConcatOrdered | specgen/extractvoc.py:70-387 | runs laid end to end with ascending kinds keep the fixed kind order |
| Conversion.SectionsOrdered | specgen/extractvoc.py:70-387 | the report's sections come in the order metadata, editor*, editors?, maker*, makers?, glance, class*, class_nl*, property*, property_nl* |
| Conversion.SectionsOfKind | specgen/extractvoc.py:70-387 | the report's sections of each kind are exactly the run the converter writes for that kind |
| Conversion.SectionsFrame | specgen/extractvoc.py:70-165 | the report opens with `[metadata]`, holds exactly one metadata and one glance section, and is in kind order |
| Conversion.SectionsPersons | specgen/extractvoc.py:113-163 | the editor, editors, maker and makers sections of the report are the person loops' sections and summaries |
| Conversion.SectionsDetails | specgen/extractvoc.py:266-387 | the class, class_nl, property and property_nl sections of the report are one per bound detail row, in row order |
| Conversion.ConvertStartsWithMetadata | specgen/extractvoc.py:70-97 | the text starts with `[metadata]` and a line feed, and with the whole metadata section |
| Conversion.ConvertSectionBreak | specgen/extractvoc.py:118 | every section header after the first is preceded by a blank line: the text before it ends with a line feed and is followed by `"\n["` |
| Reader.ParseRender | specgen/extractvoc.py:70-387 | a rendering whose headers, keys and values hold no line feed (and whose keys no `=`) reads back as every section's header and fields, in order |
| Reader.LineFeedInValueSplitsField | specgen/extractvoc.py:84 | a value holding a line feed does not read back: the reader sees a truncated value and an extra line, which is why the converter rewrites line feeds |
| ReadBack.GlancePassReadable | specgen/extractvoc.py:176-186 | a successful summary pass whose labels and URIs hold no line feed writes lines that read back |
| ReadBack.RunsReadable | specgen/extractvoc.py:70-387 | when no value the converter prints verbatim (all but abstracts, comments and usage notes) holds a line feed, the ten runs of sections around a readable `[glance]` section read back |
| ReadBack.ConvertReadsBack | specgen/extractvoc.py:70-387 | under the same condition and with every glance label bound, the returned text reads back as exactly the sections the converter built, header by header and line by line; the rewrite at lines 84, 274 and 276 is what makes abstracts, comments and usage notes safe |
| Scenarios.GlanceEmpty | specgen/extractvoc.py:165-249 | with no summary rows, the glance section holds the eight keys with empty values |
| Scenarios.HeaderOnly | specgen/extractvoc.py:70-249 | with only header rows, the report is the metadata section followed by the empty glance section |
| Scenarios.TitleOnly | specgen/extractvoc.py:70-97 | an ontology with only a URI and a title gives `uri=` and `title=` under `[metadata]`, then the empty glance section |
| Scenarios.GlancePassOne | specgen/extractvoc.py:179-186 | one class with label and URI gives those two as the pass's lists |
| Scenarios.CommentedClassSection | specgen/extractvoc.py:266-280 | a class row with label and comment gives a `[class:uri]` section with `label=` and `comment=` only |
| Scenarios.OneClassReport | specgen/extractvoc.py:165-312 | a single English class with a label and a comment appears in `classes=`/`class_uris=` and as one `[class:…]` section, with no `[class_nl:…]` section |

## Left out

- Graph loading and format detection (specgen/extractvoc.py:37-43): file I/O and a foreign parser.
- Query evaluation: DISTINCT, OPTIONAL, UNION, the language filters, `LIMIT 1` and the query text itself. The rows of each query are inputs. So properties that come from the queries are not modelled. Examples: a class without a same-language comment has no detail row but may still have a glance row; the affiliation group binds its three variables together; labels in the glance queries are always bound; `owl:DatatypePoperty` is misspelt in the query text.
- The `PREFIXES` constant (specgen/extractvoc.py:12-33): query text only.
- `print(result)` (specgen/extractvoc.py:389): a console side effect; only the returned text is modelled.
- How graph terms print under `%s`: every bound value is an opaque string.
- Report.GlanceSectionSpec: states the glance keys and their order, and the failure cases. The values are stated per pass by Report.GlancePassSpec, not restated here.
- Conversion.ConvertSectionBreak: states the blank line before each header through `Render` of the section list. It does not spell out a text offset for each header.
- Reader: the reader is a model of the consumer of the format, not code of this repository. It splits lines only at line feeds, not at carriage returns.
