# avdoc, modelled in Dafny

avdoc turns an Avro schema file (`.avsc`) into a single HTML page. The page has:

- a title and a heading;
- a dependency graph of the named types, drawn by Graphviz;
- one section per named type (record, enum or fixed). Each section shows the
  type's doc string and a body. For an enum the body lists the symbols. For a
  record it is a table of fields: name anchor, doc, rendered type, default. For
  a fixed type it states the size.

The repository has two entry files that do the same work:

- `avdoc/__main__.py`, the package. It renders doc strings as markdown and
  credits the package in the footer.
- `avdoc.py`, the older script. It shows doc strings unchanged, uses the title
  suffix " (Avrodoc)", and ends the footer with its own version line.

The model states the shared logic once and passes their differences as a
`Flavor` value (`Page.Avdoc(markdown, packageVersion)` or `Page.Avrodoc`).
The markdown converter is a function parameter.

The modules follow the program:

| file | module | models |
|---|---|---|
| wrappers.dfy | `Wrappers` | `Option`, `Result`. A Python `KeyError` is `Err(key)`. `AllOk` is a recursive function: it runs steps in order and stops at the first failure. The loops of the source are methods proved equal to it. |
| avro_model.dfy | `AvroModel` | The part of the Avro library's types that the renderer reads: field types, fields, defaults, named kinds, and the ordered name table. |
| spec_urls.dfy | `SpecUrls` | `avro_type_specification_url`: the 16-entry table of links into the Avro 1.11.1 specification. |
| decimal.dfy | `Decimal` | How Python writes a size in decimal in an f-string. |
| markup.dfy | `Markup` | The inline content the HTML library builds, as a tree. |
| type_render.dfy | `TypeRender` | `field_type_html` |
| sections.dfy | `Sections` | `field_html` and `named_schema_html` |
| edges.dfy | `Edges` | `get_edges` and the edge and node collection of `draw_graph` |
| page.dfy | `Page` | `generate_html`, the two flavours, and the run from name table to page |

Where the source builds a result step by step, the model has a method with a loop:

- `get_edges` appends to a list;
- `draw_graph` extends a list;
- the HTML builders append children to an element;
- `generate_html` adds one section per table entry.

Each such method is proved equal to a specification function, and the
properties are proved about those functions. `avro_type_specification_url`
is a pure expression, so it is modelled as a function only. `field_html` has
no loop of its own. It calls `field_type_html`, so it is both a method
(`Sections.FieldRowHtml`) and the function that specifies it
(`Sections.FieldHtml`).

Behaviour the model keeps from the code:

- A type is tried as named before it is tried as logical. A fixed decimal
  therefore renders as a link to its own anchor, and it is never looked up in
  the URL table.
- A map falls into the catch-all case. It shows "map", and its value type is
  never rendered. An unknown logical type inside a map's values therefore does
  not make rendering fail.
- A failed URL lookup aborts the whole page. The failure is the first one
  reached in table order, field order and branch order.
- A record declared with the Avro type `error` is a record to the library.
  Its kind `"error"` is missing from the URL table, so its section fails
  before any field is rendered (`Sections.SectionOkIff`). Its edges are still
  collected (`Edges.SchemaEdges` matches every record).
- The edge list handed to the graph is not deduplicated. Self-edges are kept.
- The version line appears only for a non-empty version. The title falls back
  to the file name when the schema title is empty or absent.

## Model

| member | source | states |
|---|---|---|
| Wrappers.AllOk | avdoc/__main__.py:166-167 | Running steps in order succeeds exactly when every step does. On success it gives each step's value in order. On failure it gives the failure of the first failing step, and every earlier step succeeded. The loops over branches (lines 96-99) and sections (lines 232-233) abort the same way. |
| Wrappers.AllOkFirstErr | avdoc/__main__.py:95-99 | If step i fails and every step before it succeeds, the whole run fails with step i's key. |
| SpecUrls.SpecUrl | avdoc/__main__.py:47-65 | The lookup succeeds exactly for names in the table. It returns that name's entry. Any other name is a failed lookup carrying the name (`KeyError`). |
| SpecUrls.TableShape | avdoc/__main__.py:48-65 | The table holds exactly 16 keys: the ten logical type names and the six kinds. |
| SpecUrls.KindsResolve | avdoc/__main__.py:89-145 | The kind keys the renderer looks up (array and union at lines 89 and 94; record, enum and fixed from the schema's type at line 145) always resolve. "error" does not. |
| Decimal.DecimalString | avdoc/__main__.py:177 | The size is written with at least one digit and only digits, and with no leading zero unless the size is 0. |
| Decimal.DecimalRoundTrip | avdoc/__main__.py:177 | Reading the written size back gives the size. |
| TypeRender.RenderType | avdoc/__main__.py:81-110 | Every successful rendering is one span, as `field_type_html` returns one `span`. |
| TypeRender.FieldTypeHtml | avdoc/__main__.py:81-110 | The recursive method appends the span's children one by one, and a failed lookup aborts it. It returns exactly `RenderType(s)`: the same children, or the same first failure. |
| TypeRender.RenderOkIff | avdoc/__main__.py:101-102 | Rendering fails exactly when a logical type it reaches is missing from the URL table. The failure then carries such a name. |
| TypeRender.ArrayShape | avdoc/__main__.py:88-92 | An array renders exactly when its item type does. It renders as the "array" link, "[", the item type's own rendering, and "]". Otherwise it fails as its item type does. |
| TypeRender.BranchesHtml | avdoc/__main__.py:96-99 | The loop over a union's branches writes each branch's rendering in order, with a bar before every branch but the first. It succeeds exactly when every branch renders, and then gives `Separated` of the renderings. Otherwise it gives the first branch failure. |
| TypeRender.UnionChildren | avdoc/__main__.py:93-100 | A union's children are the "union" link, "[", the branch renderings in order with bars between them, and "]". Each branch rendering is that branch's own `RenderType`. |
| TypeRender.UnionShape | avdoc/__main__.py:93-100 | A union of K >= 1 branches has 2K+2 children. Child 2+2i is branch i's rendering, in declaration order, and child 3+2i is a bar for i < K-1. The first two children are the "union" link and "[", and the last is "]". |
| TypeRender.UnionBars | avdoc/__main__.py:96-98 | A union of K >= 1 branches has exactly K-1 bar separators among its children. A nested union's bars stay inside its own span. |
| TypeRender.SeparatedBars | avdoc/__main__.py:96-98 | Bars written before every part but the first give exactly K-1 bars for K parts, when no part is itself a bar. |
| TypeRender.SeparatedAt | avdoc/__main__.py:95-98 | K parts give 2K-1 entries. Even positions hold the parts in order, and odd positions hold bars. |
| TypeRender.LeafCases | avdoc/__main__.py:85-105 | A named type links to "#" + fullname, even when it carries an unknown logical type. A logical type links to its table entry, or fails with its name. A map shows "map". A primitive shows its bare type name. The older file, avdoc.py lines 64-93, does the same. |
| Sections.FieldRowShape | avdoc/__main__.py:113-132 | A field's row is produced exactly when its type renders, and a failure names a key the URL table lacks. The name cell shows the field name and is anchored at `record.field` with href `#record.field`. The doc cell is "missing" exactly when the field has no doc string or an empty one, under markdown it holds the converted doc string as raw HTML, and without markdown it shows the doc string as given. The type cell is the type's rendering. The default cell is "null" exactly for an explicit null, shows a declared value as is, and is empty when there is no default. |
| Sections.DocBlockCases | avdoc/__main__.py:115-118 | The doc cell is "missing" in italics exactly when the doc string is absent or empty. Under markdown a present doc string is converted and inserted as raw HTML. Without markdown it is shown unchanged. The older file, avdoc.py lines 98-99, does the same. |
| Sections.DefaultCellCases | avdoc/__main__.py:119-123 | The default cell is "null" exactly for an explicit null. A declared value is shown as is, so "0" is neither blank nor "null". No default gives an empty cell. |
| Sections.FieldRowHtml | avdoc/__main__.py:113-132 | The method renders the type cell first, which may fail, and then builds the row. It returns exactly `FieldHtml(f, ...)`. |
| Sections.FieldTableHtml | avdoc/__main__.py:157-174 | The loop builds the field table row by row. It succeeds exactly when every field row does, and then gives the header, one row per field in order, and the header again. Otherwise it gives the first field failure. |
| Sections.FramedRows | avdoc/__main__.py:157-174 | A record table has two more rows than the record has fields. Its first and last rows are the header, and row i+1 is field i's `FieldHtml`. |
| Sections.FieldRowsOkIff | avdoc/__main__.py:166-167 | A record's rows all render exactly when every field type renders. A failure names a key the URL table lacks. |
| Sections.NamedSchemaHtml | avdoc/__main__.py:135-178 | The method appends enum items and table rows one by one. It returns exactly `SectionOf(nt, style)`, including the same first failure. |
| Sections.SectionOkIff | avdoc/__main__.py:135-178 | A section renders exactly when its kind has a specification link and every field type of a record renders. Enum and fixed sections always render. An error record fails with "error". Every failure names a key the URL table lacks. |
| Sections.SectionShape | avdoc/__main__.py:141-177 | The section id is the full name. The title links to "#" + full name, and the kind links to its specification entry. An enum lists each symbol once, in order. A record has one row per field, in order, between two identical header rows. A fixed type states its size in decimal, and the size reads back. The older file, avdoc.py lines 116-158, does the same. |
| Edges.GetEdges | avdoc/__main__.py:254-271 | The loop over fields returns exactly `SchemaEdges(nt)`. |
| Edges.AppendFieldEdges | avdoc/__main__.py:259-270 | One field appends exactly its one-level references, paired with the record's name, to the edge list. |
| Edges.DirectRefsCases | avdoc/__main__.py:260-265 | A named field type gives exactly its own full name. An array gives a reference exactly when its item type is named, so nested arrays and unions give none. Map, logical and primitive field types give none. |
| Edges.NamedBranchNamesMembers | avdoc/__main__.py:266-270 | A union references exactly the full names of its named branches. |
| Edges.NamedBranchNamesAppend | avdoc/__main__.py:267-270 | Union branches contribute in branch order, because the filter distributes over concatenation. |
| Edges.AllNamedUnion | avdoc/__main__.py:266-270 | A union of K named branches gives K references, one per branch in branch order, with repeats kept. |
| Edges.FieldsEdgesAppend | avdoc/__main__.py:258-270 | Edges follow field declaration order. The edges of a split field list are the edges of each part, concatenated, with no deduplication. |
| Edges.FieldsEdgesMembers | avdoc/__main__.py:257-270 | An edge is produced exactly when its source is the record and its target is a one-level reference of one of its fields. |
| Edges.SchemaEdgesMembers | avdoc/__main__.py:254-271 | Enum and fixed types give no edges. A record's edges are exactly its fields' one-level references, each paired with the record's full name. The older file, avdoc.py lines 223-240, does the same. |
| Edges.SelfEdgesKept | avdoc/__main__.py:258-261 | A record R with two fields of type R gives the edge (R, R) twice. |
| Edges.DrawGraph | avdoc/__main__.py:274-283 | The method extends the edge list entry by entry and adds one node per key. It returns exactly `GraphOf(t)`. |
| Edges.AllEdgesAppend | avdoc/__main__.py:276-278 | The graph's edges are the per-entry edge lists concatenated in table order. |
| Edges.AllEdgesMembers | avdoc/__main__.py:276-278 | An edge is in the graph exactly when it is an edge of some table entry. |
| Edges.GraphShape | avdoc/__main__.py:275-283 | The nodes are exactly the table's keys, in order, each with href "#" + key. In a well-formed table, every edge's source is a node. The older file, avdoc.py lines 244-252, does the same. |
| Page.PageParts | avdoc/__main__.py:181-251 | The page is produced exactly when every section renders. Its title and heading follow `PageTitle` and `Heading`, the laid-out graph is embedded unchanged, and the footer is `Footer`. |
| Page.GenerateHtml | avdoc/__main__.py:181-251 | The method renders one section per table entry in a loop. It returns exactly `GeneratePage(...)`, including the first failure. |
| Page.SectionsHtml | avdoc/__main__.py:232-233 | The loop over the name table gives one section per entry in table order, or the first entry's failure. It returns exactly `AllOk` of the per-entry results. |
| Page.Run | avdoc/__main__.py:293-304 | A run draws the graph, lays it out, and builds the page from the layout of `GraphOf(t)`. |
| Page.PageSections | avdoc/__main__.py:232-233 | A well-formed table gives one section per entry, in table order. Each section's id is its entry's key, and each section is that entry's `SectionOf`. The older file, avdoc.py lines 211-212, does the same. |
| Page.PageOkIff | avdoc/__main__.py:181-251 | The page is produced exactly when the table holds no error record and every record field's type renders. A failure names a key the URL table lacks. |
| Page.TitleRule | avdoc/__main__.py:190-228 | The title is the schema title when given, otherwise the file name, followed by the suffix. The heading is the schema title when given, otherwise the title. |
| Page.LegacyFlavor | avdoc.py:170-219 | In the older file the title is `(schema title or file name) + " (Avrodoc)"`. A non-empty doc string is shown unchanged, and the footer ends with "avrodoc.py version 0.0.1". |
| Page.PackageFlavor | avdoc/__main__.py:116-250 | In the package the title is `(schema title or file name) + " (avdoc)"` (line 190). A non-empty doc string goes through markdown and is inserted as raw HTML (lines 116-118). The last footer paragraph has id "credits" and shows " version " + the package version (lines 244-250). |
| Page.FooterShape | avdoc/__main__.py:234-250 | The footer starts with the file name. A version line appears, second, exactly when the version is non-empty. The generation time comes next-to-last. The older file, avdoc.py lines 213-219, does the same. |

## Left out

- Parsing the schema (`parse`: JSON decoding and the Avro library's building and validation of the name table). The model starts from the name table, an ordered sequence of (full name, named type). The library's guarantees (each key is its type's full name, and no key repeats) are the predicate `AvroModel.WellFormed`. Only the lemmas that need these guarantees require it.
- The markdown conversion (`mistune.html`). It is a function parameter of `Sections.DocStyle.Markdown`, and its output is inserted as raw HTML.
- Graph layout and drawing (pygraphviz `layout` and `draw`, the byte buffer), and the rewrite of the SVG width. The layout is a function parameter of `Page.Run`, applied to the graph the model builds.
- Edges.Graph is the node and edge lists handed to pygraphviz (`add_node`, `add_edge`), not the drawn graph. Whether the library merges repeated edges when it draws them is not modelled.
- HTML serialisation by dominate: element tags, attributes such as CSS classes and `scope`, the head (meta, stylesheet and style block), the `<!DOCTYPE html>` prefix, and escaping. The model produces the content tree (`Markup.Inline`, `Sections.Section`, `Page.Document`), not HTML text.
- The static headings "doc" and "fields" inside a section. They are constant text that nothing depends on.
- The clock (`datetime.now`) and its formatting. The displayed and ISO forms of the generation time are a parameter (`Page.Clock`).
- The package's `__version__`. For avdoc/__main__.py it is a parameter of `Page.Avdoc`. For avdoc.py it is the constant 0.0.1.
- The command line (argparse), reading the file, printing the page, and logging setup.
- AvroModel.Default: how dominate converts a non-string default value (a number, a list, a JSON object) to text is not modelled. A declared default is given by the text it is shown as. A declared empty string therefore shows the same empty cell as no default.
- Page.PageTitle: Python treats an absent schema title and an empty one alike (`schema_title or filename`). The model has only the string, with "" standing for both. The schema version is handled the same way.
- Schema kinds the renderer only reaches through its catch-all (Avro protocol request types, for example) are left out. So is the library's behaviour for unknown logical type names; a logical type whose name the table lacks is kept, to show the failure path.
