/** MongoDB documents as the fraud detector and the query agent see them:
    maps from field names to string values or BSON null, and a database as
    a map from collection names to document sequences. */
module Records {
  import opened Text

  /** A field value: a string, or BSON null (Python `None`). */
  datatype Value = Str(s: string) | Null

  type Doc = map<string, Value>

  /** `doc.get(key, default)` */
  function Get(doc: Doc, key: string, default: Value): (v: Value)
    ensures key in doc ==> v == doc[key]
    ensures key !in doc ==> v == default
  {
    if key in doc then doc[key] else default
  }

  /** `doc.get(key, '')`, the form used for almost every field. */
  function Field(doc: Doc, key: string): Value {
    Get(doc, key, Str(""))
  }

  /** Python truthiness of a field value: a non-empty string. */
  predicate Truthy(v: Value) {
    v.Str? && |v.s| > 0
  }

  /** `str(v)`, as an f-string renders it. */
  function Render(v: Value): string {
    if v.Str? then v.s else "None"
  }

  datatype Database = Database(collections: map<string, seq<Doc>>)

  /** `list(db[name].find({}))`: a collection that does not exist reads as
      empty. */
  function Collection(db: Database, name: string): seq<Doc> {
    if name in db.collections then db.collections[name] else []
  }

  /** `name in db.list_collection_names()` */
  predicate HasCollection(db: Database, name: string) {
    name in db.collections
  }

  const Returns: string := "DEVOLUCAO"
  const Cancellations: string := "CANCELAMENTO"
  const Adjustments: string := "AJUSTES ESTOQUE"
}
