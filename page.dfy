/** The whole page: title and heading, the embedded dependency graph, one
    section per named type in table order, and the footer. The two entry
    files of the tool build the same page and differ only where `Flavor`
    says: avdoc/__main__.py (`Avdoc`) renders doc strings as markdown and
    credits the package, avdoc.py (`Avrodoc`) passes doc strings through. */
module Page {
  import opened Wrappers
  import opened AvroModel
  import opened SpecUrls
  import opened Markup
  import opened TypeRender
  import opened Sections
  import opened Edges

  datatype Flavor =
    | Avdoc(markdown: string -> string, packageVersion: string)
    | Avrodoc

  /** The version string of avdoc.py. */
  const LegacyVersion := "0.0.1"

  function Style(fl: Flavor): DocStyle {
    match fl
    case Avdoc(md, _) => Markdown(md)
    case Avrodoc => Passthrough
  }

  function TitleSuffix(fl: Flavor): string {
    if fl.Avdoc? then " (avdoc)" else " (Avrodoc)"
  }

  /** The document title: the schema title when one is given (non-empty),
      otherwise the file name, followed by the tool's suffix. */
  function PageTitle(fl: Flavor, schemaTitle: string, filename: string): string {
    (if schemaTitle != "" then schemaTitle else filename) + TitleSuffix(fl)
  }

  /** The page heading: the schema title when given, else the page title. */
  function Heading(fl: Flavor, schemaTitle: string, filename: string): string {
    if schemaTitle != "" then schemaTitle else PageTitle(fl, schemaTitle, filename)
  }

  /** The moment of generation, given by the caller (the source reads the
      clock): as displayed and in ISO form. */
  datatype Clock = Clock(display: string, iso: string)

  datatype Paragraph = Paragraph(id: Option<string>, content: seq<Inline>)

  /** The footer: file name, the version line only when a version is given,
      generation time, credits. */
  function Footer(fl: Flavor, filename: string, version: string, now: Clock): seq<Paragraph> {
    var ids := fl.Avdoc?;
    var fileLine := Paragraph(if ids then Some("schema-filename") else None, [Text("Schema filename: "), Code(filename)]);
    var versionLine := Paragraph(if ids then Some("schema-version") else None, [Text("Schema version: "), Code(version)]);
    var timeLine := Paragraph(if ids then Some("generation-time") else None, [Text("\U{23F2} "), Time(now.display, now.iso)]);
    var credits := match fl
      case Avdoc(_, v) =>
        Paragraph(Some("credits"), [
          Text("\U{2692} generated by "),
          Link("avdoc", "https://pypi.org/project/avdoc/"),
          Text(" version " + v + " "),
          Text("\U{00A9} Ben Jeffrey 2023. Released under the "),
          Link("AGPL", "https://www.gnu.org/licenses/agpl-3.0.html"),
          Text(".")])
      case Avrodoc =>
        Paragraph(None, [Text("\U{2692} avrodoc.py version " + LegacyVersion)]);
    [fileLine] + (if version != "" then [versionLine] else []) + [timeLine, credits]
  }

  datatype Document = Document(
    title: string,
    heading: string,
    graphCaption: string,
    graphSvg: string,
    sections: seq<Section>,
    footer: seq<Paragraph>)

  /** The outcome of rendering each entry's section, in table order. */
  function SectionResults(t: Table, style: DocStyle): seq<Result<Section>> {
    seq(|t|, i requires 0 <= i < |t| => SectionOf(t[i].1, style))
  }

  /** generate_html. */
  function GeneratePage(t: Table, svg: string, filename: string, schemaTitle: string,
                        version: string, now: Clock, fl: Flavor): Result<Document>
  {
    var sections :- AllOk(SectionResults(t, Style(fl)));
    Ok(Document(PageTitle(fl, schemaTitle, filename), Heading(fl, schemaTitle, filename),
                "reference graph", svg, sections, Footer(fl, filename, version, now)))
  }

  // ---------------------------------------------------------------------
  // generate_html as the source runs it, and the pipeline around it.

  method GenerateHtml(t: Table, svg: string, filename: string, schemaTitle: string,
                      version: string, now: Clock, fl: Flavor) returns (r: Result<Document>)
    ensures r == GeneratePage(t, svg, filename, schemaTitle, version, now, fl)
  {
    var title := PageTitle(fl, schemaTitle, filename);
    var heading := if schemaTitle != "" then schemaTitle else title;
    var sections := SectionsHtml(t, Style(fl));
    if sections.Err? {
      return Err(sections.key);
    }
    r := Ok(Document(title, heading, "reference graph", svg, sections.value, Footer(fl, filename, version, now)));
  }

  /** The loop of generate_html over the name table: one section per
      entry, in table order; the first entry that fails aborts it. */
  method SectionsHtml(t: Table, style: DocStyle) returns (r: Result<seq<Section>>)
    ensures r == AllOk(SectionResults(t, style))
  {
    ghost var rs := SectionResults(t, style);
    var sections: seq<Section> := [];
    for i := 0 to |t|
      invariant |sections| == i
      invariant forall k :: 0 <= k < i ==> rs[k] == Ok(sections[k])
    {
      var s := SectionAt(t, style, i);
      if s.Err? {
        AllOkFirstErr(rs, i);
        return Err(s.key);
      }
      sections := sections + [s.value];
    }
    AllOkValues(rs, sections);
    r := Ok(sections);
  }

  /** One step of that loop: the section of entry `i`. */
  method SectionAt(t: Table, style: DocStyle, i: nat) returns (s: Result<Section>)
    requires i < |t|
    ensures s == SectionResults(t, style)[i]
  {
    s := NamedSchemaHtml(t[i].1, style);
  }

  /** The tool's run on a parsed table: build the graph, lay it out (the
      layout engine is given as `layout`), then build the page. */
  method Run(t: Table, layout: Graph -> string, filename: string, schemaTitle: string,
             version: string, now: Clock, fl: Flavor) returns (r: Result<Document>)
    ensures r == GeneratePage(t, layout(GraphOf(t)), filename, schemaTitle, version, now, fl)
  {
    var g := DrawGraph(t);
    var svg := layout(g);
    r := GenerateHtml(t, svg, filename, schemaTitle, version, now, fl);
  }

  // ---------------------------------------------------------------------
  // What the page says.

  /** One section per table entry, in table order, each anchored at its
      entry's key (in a well-formed table). */
  lemma PageSections(t: Table, svg: string, filename: string, schemaTitle: string,
                     version: string, now: Clock, fl: Flavor)
    requires WellFormed(t)
    requires GeneratePage(t, svg, filename, schemaTitle, version, now, fl).Ok?
    ensures var p := GeneratePage(t, svg, filename, schemaTitle, version, now, fl).value;
      |p.sections| == |t| &&
      forall i :: 0 <= i < |t| ==> p.sections[i].id == t[i].0 && SectionOf(t[i].1, Style(fl)) == Ok(p.sections[i])
  {
    var rs := SectionResults(t, Style(fl));
    var sections := GeneratePage(t, svg, filename, schemaTitle, version, now, fl).value.sections;
    assert sections == AllOk(rs).value;
    forall i | 0 <= i < |t|
      ensures rs[i].Ok? && rs[i].value.id == t[i].0
    {
      assert rs[i] == SectionOf(t[i].1, Style(fl));
    }
  }

  /** The page is produced exactly when every section renders; its title,
      heading and footer are those of the flavour, and the laid-out graph
      is embedded unchanged. */
  lemma PageParts(t: Table, svg: string, filename: string, schemaTitle: string,
                  version: string, now: Clock, fl: Flavor)
    ensures var r := GeneratePage(t, svg, filename, schemaTitle, version, now, fl);
      (r.Ok? <==> AllOk(SectionResults(t, Style(fl))).Ok?) &&
      (r.Ok? ==>
        r.value.title == PageTitle(fl, schemaTitle, filename) &&
        r.value.heading == Heading(fl, schemaTitle, filename) &&
        r.value.graphSvg == svg &&
        r.value.footer == Footer(fl, filename, version, now))
  {
  }

  /** Generation is all or nothing: the page is produced exactly when the
      table holds no error record and every field type of every record
      renders, and a failure names a key the URL table lacks. */
  lemma PageOkIff(t: Table, svg: string, filename: string, schemaTitle: string,
                  version: string, now: Clock, fl: Flavor)
    ensures GeneratePage(t, svg, filename, schemaTitle, version, now, fl).Ok? <==>
      forall i :: 0 <= i < |t| && t[i].1.kind.Record? ==>
        !t[i].1.kind.isError &&
        forall j :: 0 <= j < |t[i].1.kind.fields| ==> LogicalsKnown(t[i].1.kind.fields[j].fieldType)
    ensures GeneratePage(t, svg, filename, schemaTitle, version, now, fl).Err? ==>
      GeneratePage(t, svg, filename, schemaTitle, version, now, fl).key !in UrlTable
  {
    var rs := SectionResults(t, Style(fl));
    forall i | 0 <= i < |t|
      ensures rs[i].Ok? <==>
        (t[i].1.kind.Record? ==> !t[i].1.kind.isError && forall j :: 0 <= j < |t[i].1.kind.fields| ==> LogicalsKnown(t[i].1.kind.fields[j].fieldType))
      ensures rs[i].Err? ==> rs[i].key !in UrlTable
    {
      SectionOkIff(t[i].1, Style(fl));
    }
  }

  /** Title and heading: the schema title when given, else the file name,
      with the tool's suffix; the heading drops the suffix only when a title
      is given. */
  lemma TitleRule(fl: Flavor, schemaTitle: string, filename: string)
    ensures schemaTitle != "" ==> PageTitle(fl, schemaTitle, filename) == schemaTitle + TitleSuffix(fl) &&
                                  Heading(fl, schemaTitle, filename) == schemaTitle
    ensures schemaTitle == "" ==> PageTitle(fl, schemaTitle, filename) == filename + TitleSuffix(fl) &&
                                  Heading(fl, schemaTitle, filename) == filename + TitleSuffix(fl)
  {
  }

  /** avdoc.py: the title suffix is " (Avrodoc)", doc strings are shown
      unchanged (no markdown), and the credits line names avrodoc.py 0.0.1. */
  lemma LegacyFlavor(schemaTitle: string, filename: string, doc: string, version: string, now: Clock)
    ensures PageTitle(Avrodoc, schemaTitle, filename) ==
      (if schemaTitle != "" then schemaTitle else filename) + " (Avrodoc)"
    ensures doc != "" ==> DocBlock(Some(doc), Style(Avrodoc)) == Text(doc)
    ensures var f := Footer(Avrodoc, filename, version, now);
      f[|f| - 1] == Paragraph(None, [Text("\U{2692} avrodoc.py version 0.0.1")])
  {
    assert "\U{2692} avrodoc.py version " + LegacyVersion == "\U{2692} avrodoc.py version 0.0.1";
  }

  /** avdoc/__main__.py: the title suffix is " (avdoc)", doc strings go
      through markdown and are inserted as raw HTML, and the credits line,
      last in the footer, shows the package version. */
  lemma PackageFlavor(md: string -> string, v: string, schemaTitle: string, filename: string,
                      doc: string, version: string, now: Clock)
    ensures PageTitle(Avdoc(md, v), schemaTitle, filename) ==
      (if schemaTitle != "" then schemaTitle else filename) + " (avdoc)"
    ensures doc != "" ==> DocBlock(Some(doc), Style(Avdoc(md, v))) == Raw(md(doc))
    ensures var f := Footer(Avdoc(md, v), filename, version, now);
      f[|f| - 1].id == Some("credits") && f[|f| - 1].content[2] == Text(" version " + v + " ")
  {
  }

  /** The footer always names the schema file first; a version line appears,
      second, exactly when a version string is given; the generation time
      and the credits close it. */
  lemma FooterShape(fl: Flavor, filename: string, version: string, now: Clock)
    ensures var f := Footer(fl, filename, version, now);
      |f| == (if version != "" then 4 else 3) &&
      f[0].content == [Text("Schema filename: "), Code(filename)] &&
      (version != "" ==> f[1].content == [Text("Schema version: "), Code(version)]) &&
      f[|f| - 2].content[1] == Time(now.display, now.iso)
    ensures (exists i :: 0 <= i < |Footer(fl, filename, version, now)| &&
               Footer(fl, filename, version, now)[i].content[0] == Text("Schema version: ")) <==> version != ""
  {
    var f := Footer(fl, filename, version, now);
    if version == "" {
      assert forall i :: 0 <= i < |f| ==> f[i].content[0] != Text("Schema version: ");
    } else {
      assert f[1].content[0] == Text("Schema version: ");
    }
  }
}
