/** The part of the Avro schema library's type model that the renderer reads:
    field types, fields, the three named kinds and the ordered table of named
    types keyed by full name. Building and validating the table (parsing the
    JSON text) is the library's job and is not part of this model. */
module AvroModel {
  import opened Wrappers

  /** A field type, as the renderer sees it. A named type (record, enum,
      fixed) is known by its full name; a fixed type that also carries a
      logical type (a fixed decimal) is both named and logical, and
      `namedLogical` records that second face. */
  datatype Schema =
    | Named(fullname: string, namedLogical: Option<string>)
    | Array(items: Schema)
    | Map(values: Schema)
    | Union(branches: seq<Schema>)
    | Logical(logicalType: string, underlying: string)
    | Primitive(typeName: string)

  /** The default of a field: none declared, declared as JSON null, or a
      declared value, given here by the text it is shown as. */
  datatype Default = Absent | Null | Given(shown: string)

  datatype Field = Field(name: string, doc: Option<string>, fieldType: Schema, default: Default)

  /** The three named kinds. A record declared with the type `error` is a
      record to the library, with `isError` set. */
  datatype Kind =
    | Record(fields: seq<Field>, isError: bool)
    | Enum(symbols: seq<string>)
    | Fixed(size: nat)

  datatype NamedType = NamedType(fullname: string, doc: Option<string>, kind: Kind)

  /** The library's name table: full name to named type, in insertion order. */
  type Table = seq<(string, NamedType)>

  /** The `type` attribute of a named schema. */
  function KindName(k: Kind): string {
    match k
    case Record(_, isError) => if isError then "error" else "record"
    case Enum(_) => "enum"
    case Fixed(_) => "fixed"
  }

  function Keys(t: Table): seq<string> {
    seq(|t|, i requires 0 <= i < |t| => t[i].0)
  }

  /** What the library guarantees of its table: each entry is keyed by the
      full name of its type, and no key occurs twice. */
  predicate WellFormed(t: Table) {
    (forall i :: 0 <= i < |t| ==> t[i].0 == t[i].1.fullname) &&
    (forall i, j :: 0 <= i < j < |t| ==> t[i].0 != t[j].0)
  }
}
