/** The fixed table of links into the Avro 1.11.1 specification, keyed by
    logical type name or schema kind, and the lookup that fails on any other
    key. */
module SpecUrls {
  import opened Wrappers

  /** Every entry links to an anchor of the Avro 1.11.1 specification. */
  const Spec := "https://avro.apache.org/docs/1.11.1/specification/#"

  const UrlTable: map<string, string> := map[
    "decimal" := Spec + "decimal",
    "uuid" := Spec + "uuid",
    "date" := Spec + "date",
    "time-millis" := Spec + "time-millisecond-precision",
    "time-micros" := Spec + "time-microsecond-precision",
    "timestamp-millis" := Spec + "timestamp-millisecond-precision",
    "timestamp-micros" := Spec + "timestamp-microsecond-precision",
    "local-timestamp-millis" := Spec + "local-timestamp-millisecond-precision",
    "local-timestamp-micros" := Spec + "local-timestamp-microsecond-precision",
    "duration" := Spec + "duration",
    "record" := Spec + "schema-record",
    "enum" := Spec + "enums",
    "array" := Spec + "arrays",
    "map" := Spec + "maps",
    "union" := Spec + "unions",
    "fixed" := Spec + "fixed"
  ]

  /** The specification link for a logical type name or kind; a name the
      table does not hold is a failed lookup carrying that name. */
  function SpecUrl(name: string): (r: Result<string>)
    ensures r.Ok? <==> name in UrlTable
    ensures r.Ok? ==> r.value == UrlTable[name]
    ensures r.Err? ==> r.key == name
  {
    if name in UrlTable then Ok(UrlTable[name]) else Err(name)
  }

  /** The table's keys: the ten logical type names and the six kinds. */
  lemma TableShape()
    ensures UrlTable.Keys == {"decimal", "uuid", "date", "time-millis", "time-micros",
                              "timestamp-millis", "timestamp-micros", "local-timestamp-millis",
                              "local-timestamp-micros", "duration", "record", "enum", "array",
                              "map", "union", "fixed"}
  {
  }

  /** The kinds the renderer itself looks up resolve: the three named kinds
      (section headers) and the two composite kinds (type cells). The kind
      of an error record, "error", does not. */
  lemma KindsResolve()
    ensures SpecUrl("record").Ok? && SpecUrl("enum").Ok? && SpecUrl("fixed").Ok?
    ensures SpecUrl("array").Ok? && SpecUrl("union").Ok?
    ensures SpecUrl("error") == Err("error")
  {
  }
}
