/** One documentation section per named type: its title, its doc string,
    and a body that depends on its kind (enum symbols, a table of record
    fields, or the byte size of a fixed type). */
module Sections {
  import opened Wrappers
  import opened AvroModel
  import opened SpecUrls
  import opened Markup
  import opened Decimal
  import opened TypeRender

  /** How a present doc string is shown: converted by a markdown renderer
      (given as a parameter; its output is inserted as HTML) or passed
      through as plain text. */
  datatype DocStyle = Markdown(toHtml: string -> string) | Passthrough

  /** The doc block: the placeholder "missing", in italics, when the doc
      string is absent or empty; otherwise the doc string as `style` shows
      it. */
  function DocBlock(doc: Option<string>, style: DocStyle): Inline {
    if doc.None? || doc.value == "" then Emph("missing")
    else
      match style
      case Markdown(toHtml) => Raw(toHtml(doc.value))
      case Passthrough => Text(doc.value)
  }

  /** The default cell: empty with no default, the marker "null" for an
      explicit null, and otherwise the value as shown. */
  function DefaultCell(d: Default): Inline {
    match d
    case Absent => Text("")
    case Null => Samp("null")
    case Given(shown) => Text(shown)
  }

  /** Anchor id of a field: the record's full name, a dot, the field name. */
  function FieldId(schemaName: string, fieldName: string): string {
    schemaName + "." + fieldName
  }

  /** The field-name cell: a link that is also its own anchor. */
  datatype NameAnchor = NameAnchor(name: string, id: string, href: string)

  datatype FieldRow = FieldRow(nameCell: NameAnchor, docCell: Inline, typeCell: Inline, defaultCell: Inline)

  datatype TableRow = HeaderRow(columns: seq<string>) | Row(row: FieldRow)

  const HeaderColumns := ["name", "doc", "type", "default"]

  /** field_html, once the type cell has been rendered. */
  function RowWith(f: Field, schemaName: string, style: DocStyle, typeCell: Inline): FieldRow {
    var id := FieldId(schemaName, f.name);
    FieldRow(NameAnchor(f.name, id, "#" + id), DocBlock(f.doc, style), typeCell, DefaultCell(f.default))
  }

  /** field_html: one row of a record's field table. It fails only when the
      type cell does. */
  function FieldHtml(f: Field, schemaName: string, style: DocStyle): Result<FieldRow> {
    var typeCell :- RenderType(f.fieldType);
    Ok(RowWith(f, schemaName, style, typeCell))
  }

  datatype Body =
    | Symbols(caption: string, items: seq<Inline>)
    | FieldTable(rows: seq<TableRow>)
    | SizeNote(sentence: string)

  /** A section: anchored at `id`, titled by a link to itself and a link to
      the specification entry of its kind. */
  datatype Section = Section(id: string, title: Inline, kindLink: Inline, doc: Inline, body: Body)

  function FieldRows(fields: seq<Field>, schemaName: string, style: DocStyle): Result<seq<FieldRow>> {
    AllOk(seq(|fields|, i requires 0 <= i < |fields| => FieldHtml(fields[i], schemaName, style)))
  }

  function SymbolItems(symbols: seq<string>): seq<Inline> {
    seq(|symbols|, i requires 0 <= i < |symbols| => Samp(symbols[i]))
  }

  function FixedSentence(size: nat): string {
    "Fixed type " + DecimalString(size) + " bytes in size."
  }

  function Framed(rows: seq<FieldRow>): seq<TableRow> {
    [HeaderRow(HeaderColumns)] + seq(|rows|, i requires 0 <= i < |rows| => Row(rows[i])) + [HeaderRow(HeaderColumns)]
  }

  /** named_schema_html. */
  function SectionOf(nt: NamedType, style: DocStyle): Result<Section> {
    var kind := KindName(nt.kind);
    var kindUrl :- SpecUrl(kind);
    var body :- match nt.kind
      case Enum(symbols) => Ok(Symbols("One of:", SymbolItems(symbols)))
      case Record(fields, _) =>
        var rows :- FieldRows(fields, nt.fullname, style);
        Ok(FieldTable(Framed(rows)))
      case Fixed(size) => Ok(SizeNote(FixedSentence(size)));
    Ok(Section(nt.fullname, Link(nt.fullname, "#" + nt.fullname),
               Link(kind, kindUrl), DocBlock(nt.doc, style), body))
  }

  // ---------------------------------------------------------------------
  // named_schema_html as the source runs it: list items and table rows
  // appended one by one.

  method NamedSchemaHtml(nt: NamedType, style: DocStyle) returns (r: Result<Section>)
    ensures r == SectionOf(nt, style)
  {
    var kind := KindName(nt.kind);
    var kindUrl := SpecUrl(kind);
    if kindUrl.Err? {
      return Err(kindUrl.key);
    }
    var body: Body;
    match nt.kind {
      case Enum(symbols) =>
        var items: seq<Inline> := [];
        for i := 0 to |symbols|
          invariant items == SymbolItems(symbols[..i])
        {
          items := items + [Samp(symbols[i])];
        }
        assert symbols[..|symbols|] == symbols;
        body := Symbols("One of:", items);
      case Record(fields, _) =>
        var rows := FieldTableHtml(fields, nt.fullname, style);
        if rows.Err? {
          return Err(rows.key);
        }
        body := FieldTable(rows.value);
      case Fixed(size) =>
        body := SizeNote(FixedSentence(size));
    }
    r := Ok(Section(nt.fullname, Link(nt.fullname, "#" + nt.fullname),
                    Link(kind, kindUrl.value), DocBlock(nt.doc, style), body));
  }

  /** field_html as the source runs it: the type cell first, which may
      fail, then the row around it. */
  method FieldRowHtml(f: Field, schemaName: string, style: DocStyle) returns (r: Result<FieldRow>)
    ensures r == FieldHtml(f, schemaName, style)
  {
    var typeCell := FieldTypeHtml(f.fieldType);
    if typeCell.Err? {
      return Err(typeCell.key);
    }
    r := Ok(RowWith(f, schemaName, style, typeCell.value));
  }

  /** The table of a record section: a header row, one row per field
      appended in field order, and the header row again; the first field
      whose type cannot be rendered aborts it. */
  method FieldTableHtml(fields: seq<Field>, schemaName: string, style: DocStyle) returns (r: Result<seq<TableRow>>)
    ensures r.Ok? <==> FieldRows(fields, schemaName, style).Ok?
    ensures r.Ok? ==> r.value == Framed(FieldRows(fields, schemaName, style).value)
    ensures r.Err? ==> r.key == FieldRows(fields, schemaName, style).key
  {
    var rows: seq<TableRow> := [HeaderRow(HeaderColumns)];
    ghost var done: seq<FieldRow> := [];
    ghost var rs := seq(|fields|, k requires 0 <= k < |fields| => FieldHtml(fields[k], schemaName, style));
    for i := 0 to |fields|
      invariant |done| == i
      invariant forall k :: 0 <= k < i ==> rs[k] == Ok(done[k])
      invariant |rows| == i + 1 && rows[0] == HeaderRow(HeaderColumns)
      invariant forall k :: 0 <= k < i ==> rows[k + 1] == Row(done[k])
    {
      var row := FieldRowHtml(fields[i], schemaName, style);
      assert rs[i] == row;
      if row.Err? {
        AllOkFirstErr(rs, i);
        return Err(row.key);
      }
      done := done + [row.value];
      rows := rows + [Row(row.value)];
    }
    rows := rows + [HeaderRow(HeaderColumns)];
    AllOkValues(rs, done);
    FramedEq(done, rows);
    r := Ok(rows);
  }

  // ---------------------------------------------------------------------
  // What a section says.

  /** What field_html promises: a row exactly when the field's type
      renders, and a failure carrying a logical type name the URL table
      lacks. The row is anchored at `record.field`; it shows the field
      name; its doc cell is "missing" exactly when the field has no doc
      string (or an empty one), the markdown conversion of the doc string
      inserted as raw HTML under markdown, and the doc string as given
      without it; its type cell is the type's rendering; its default cell
      is "null" exactly for an explicit null, the declared value as shown,
      or empty when there is no default. */
  lemma FieldRowShape(f: Field, schemaName: string, style: DocStyle)
    ensures FieldHtml(f, schemaName, style).Ok? <==> LogicalsKnown(f.fieldType)
    ensures FieldHtml(f, schemaName, style).Err? ==> FieldHtml(f, schemaName, style).key !in UrlTable
    ensures FieldHtml(f, schemaName, style).Ok? ==>
      var row := FieldHtml(f, schemaName, style).value;
      row.nameCell == NameAnchor(f.name, schemaName + "." + f.name, "#" + schemaName + "." + f.name) &&
      (row.docCell == Emph("missing") <==> f.doc.None? || f.doc.value == "") &&
      (f.doc.Some? && f.doc.value != "" && style.Passthrough? ==> row.docCell == Text(f.doc.value)) &&
      (f.doc.Some? && f.doc.value != "" && style.Markdown? ==> row.docCell == Raw(style.toHtml(f.doc.value))) &&
      RenderType(f.fieldType) == Ok(row.typeCell) &&
      (row.defaultCell == Samp("null") <==> f.default.Null?) &&
      (f.default.Given? ==> row.defaultCell == Text(f.default.shown)) &&
      (f.default.Absent? ==> row.defaultCell == Text(""))
  {
    RenderOkIff(f.fieldType);
    DocBlockCases(f.doc, style);
    DefaultCellCases(f.default);
  }

  /** The doc block shows "missing" exactly when the doc string is absent
      or empty; a present doc string is never blanked: under markdown it is
      converted and inserted as raw HTML, without markdown it is shown
      unchanged. */
  lemma DocBlockCases(doc: Option<string>, style: DocStyle)
    ensures DocBlock(doc, style) == Emph("missing") <==> doc.None? || doc.value == ""
    ensures doc.Some? && doc.value != "" && style.Passthrough? ==> DocBlock(doc, style) == Text(doc.value)
    ensures doc.Some? && doc.value != "" && style.Markdown? ==> DocBlock(doc, style) == Raw(style.toHtml(doc.value))
  {
  }

  /** The default cell is tri-state: "null" marks exactly an explicit null;
      a declared value, falsy or not (0, false, ""), is shown as is; no
      default gives an empty cell. */
  lemma DefaultCellCases(d: Default)
    ensures DefaultCell(d) == Samp("null") <==> d.Null?
    ensures d.Given? ==> DefaultCell(d) == Text(d.shown)
    ensures d.Absent? ==> DefaultCell(d) == Text("")
    ensures DefaultCell(Given("0")) != DefaultCell(Absent) && DefaultCell(Given("0")) != DefaultCell(Null)
  {
  }

  /** A section renders exactly when its kind has a specification link (an
      error record has none) and every field type of a record renders; enum
      and fixed sections always render. An error record fails on its kind,
      before any field is looked at. A failure carries a name the URL table
      lacks. */
  lemma SectionOkIff(nt: NamedType, style: DocStyle)
    ensures SectionOf(nt, style).Ok? <==>
      !(nt.kind.Record? && nt.kind.isError) &&
      (nt.kind.Record? ==> forall i :: 0 <= i < |nt.kind.fields| ==> LogicalsKnown(nt.kind.fields[i].fieldType))
    ensures nt.kind.Record? && nt.kind.isError ==> SectionOf(nt, style) == Err("error")
    ensures SectionOf(nt, style).Err? ==> SectionOf(nt, style).key !in UrlTable
  {
    KindsResolve();
    if nt.kind.Record? {
      FieldRowsOkIff(nt.kind.fields, nt.fullname, style);
    }
  }

  /** A record's rows render exactly when every field type does; a failure
      carries a logical type name the URL table lacks. */
  lemma FieldRowsOkIff(fields: seq<Field>, schemaName: string, style: DocStyle)
    ensures FieldRows(fields, schemaName, style).Ok? <==>
      forall i :: 0 <= i < |fields| ==> LogicalsKnown(fields[i].fieldType)
    ensures FieldRows(fields, schemaName, style).Err? ==> FieldRows(fields, schemaName, style).key !in UrlTable
  {
    var rs := seq(|fields|, i requires 0 <= i < |fields| => FieldHtml(fields[i], schemaName, style));
    forall i | 0 <= i < |fields|
      ensures rs[i].Ok? <==> LogicalsKnown(fields[i].fieldType)
      ensures rs[i].Err? ==> rs[i].key !in UrlTable
    {
      FieldRowShape(fields[i], schemaName, style);
    }
  }

  /** The rows of a record's table: the header, one row per field in
      order, the header again. */
  lemma FramedRows(fields: seq<Field>, schemaName: string, style: DocStyle)
    requires FieldRows(fields, schemaName, style).Ok?
    ensures var rows := Framed(FieldRows(fields, schemaName, style).value);
      |rows| == |fields| + 2 &&
      rows[0] == HeaderRow(HeaderColumns) && rows[|rows| - 1] == HeaderRow(HeaderColumns) &&
      forall i :: 0 <= i < |fields| ==>
        rows[i + 1].Row? && FieldHtml(fields[i], schemaName, style) == Ok(rows[i + 1].row)
  {
    var rs := seq(|fields|, i requires 0 <= i < |fields| => FieldHtml(fields[i], schemaName, style));
    FramedResults(rs);
    assert forall i :: 0 <= i < |fields| ==> rs[i] == FieldHtml(fields[i], schemaName, style);
  }

  /** Framing the values of a successful run of row results. */
  lemma FramedResults(rs: seq<Result<FieldRow>>)
    requires AllOk(rs).Ok?
    ensures var rows := Framed(AllOk(rs).value);
      |rows| == |rs| + 2 &&
      rows[0] == HeaderRow(HeaderColumns) && rows[|rows| - 1] == HeaderRow(HeaderColumns) &&
      forall i :: 0 <= i < |rs| ==> rows[i + 1].Row? && rs[i] == Ok(rows[i + 1].row)
  {
    FramedAt(AllOk(rs).value);
  }

  /** The table a loop has built row by row is the framed table. */
  lemma FramedEq(done: seq<FieldRow>, rows: seq<TableRow>)
    requires |rows| == |done| + 2 && rows[0] == HeaderRow(HeaderColumns) && rows[|rows| - 1] == HeaderRow(HeaderColumns)
    requires forall k :: 0 <= k < |done| ==> rows[k + 1] == Row(done[k])
    ensures rows == Framed(done)
  {
    FramedAt(done);
  }

  /** A framed table: the header, the rows in order, the header again. */
  lemma FramedAt(rows: seq<FieldRow>)
    ensures var f := Framed(rows);
      |f| == |rows| + 2 && f[0] == HeaderRow(HeaderColumns) && f[|f| - 1] == HeaderRow(HeaderColumns) &&
      forall i :: 0 <= i < |rows| ==> f[i + 1] == Row(rows[i])
  {
    var f := Framed(rows);
    var mid := seq(|rows|, i requires 0 <= i < |rows| => Row(rows[i]));
    assert f == [HeaderRow(HeaderColumns)] + mid + [HeaderRow(HeaderColumns)];
    forall i | 0 <= i < |rows|
      ensures f[i + 1] == Row(rows[i])
    {
      assert f[i + 1] == mid[i];
    }
  }

  /** The shape of a rendered section: anchored at the type's full name,
      titled by a link to that anchor and by the specification link of its
      kind; an enum lists each symbol once, in order; a record has one row
      per field, in order, between two identical header rows; a fixed type
      states its size in decimal. */
  lemma SectionShape(nt: NamedType, style: DocStyle)
    requires SectionOf(nt, style).Ok?
    ensures var s := SectionOf(nt, style).value;
      s.id == nt.fullname &&
      s.title == Link(nt.fullname, "#" + nt.fullname) &&
      s.kindLink == Link(KindName(nt.kind), UrlTable[KindName(nt.kind)]) &&
      s.doc == DocBlock(nt.doc, style)
    ensures nt.kind.Enum? ==> var b := SectionOf(nt, style).value.body;
      b.Symbols? && |b.items| == |nt.kind.symbols| &&
      forall i :: 0 <= i < |b.items| ==> b.items[i] == Samp(nt.kind.symbols[i])
    ensures nt.kind.Record? ==> var b := SectionOf(nt, style).value.body;
      var fields := nt.kind.fields;
      b.FieldTable? && |b.rows| == |fields| + 2 &&
      b.rows[0] == HeaderRow(HeaderColumns) && b.rows[|b.rows| - 1] == HeaderRow(HeaderColumns) &&
      forall i :: 0 <= i < |fields| ==>
        b.rows[i + 1].Row? && FieldHtml(fields[i], nt.fullname, style) == Ok(b.rows[i + 1].row)
    ensures nt.kind.Fixed? ==> var b := SectionOf(nt, style).value.body;
      b.SizeNote? && b.sentence == "Fixed type " + DecimalString(nt.kind.size) + " bytes in size." &&
      DecimalValue(DecimalString(nt.kind.size)) == nt.kind.size
  {
    match nt.kind
    case Record(fields, _) =>
      FramedRows(fields, nt.fullname, style);
    case Fixed(size) =>
      DecimalRoundTrip(size);
    case Enum(_) =>
  }
}
