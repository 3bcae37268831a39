/** The JSON-like documents that request bodies arrive as and that the
    document store keeps. */
module Documents {

  /** One JSON value, plus the store's own identifier type. */
  datatype Value =
    | Text(s: string)
    | Integer(i: int)
    | Number(r: real)
    | Boolean(b: bool)
    | Null
    | ObjectId(id: nat)

  /** A document is a mapping from field names to values. */
  type Document = map<string, Value>

  /** The field under which the store keeps a document's identifier. */
  const IdKey := "_id"

  /** The document without its storage identifier (Python's `d.pop("_id", None)`). */
  function WithoutId(d: Document): (r: Document)
    ensures IdKey !in r
    ensures r.Keys == d.Keys - {IdKey}
    ensures forall k :: k in r ==> r[k] == d[k]
  {
    d - {IdKey}
  }
}
