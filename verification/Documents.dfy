/** LangChain's `Document` as the ingestion code uses it: page text plus a
    metadata dictionary, and the content-hash lookup that deduplication keys on. */
module Documents {
  import opened Wrappers

  /** A metadata value. The loaders store strings (paths, URLs, hashes,
      timestamps, titles) and integers (`content_length`, page numbers);
      `Null` stands for Python's `None`. */
  datatype Value = Str(s: string) | Int(i: int) | Null

  /** Python truthiness of a metadata value: empty strings, zero and `None`
      are falsy. */
  predicate Truthy(v: Value) {
    match v
    case Str(s) => s != ""
    case Int(i) => i != 0
    case Null => false
  }

  type Metadata = map<string, Value>

  /** `page_content` and `metadata` of a LangChain document. */
  datatype Document = Document(content: string, metadata: Metadata)

  const ContentHashKey: string := "content_hash"

  /** The key deduplication uses: `doc.metadata.get("content_hash")` when it is
      truthy, and `None` when it is missing or falsy. */
  function HashKey(d: Document): (h: Option<Value>)
    ensures h.Some? <==> ContentHashKey in d.metadata && Truthy(d.metadata[ContentHashKey])
    ensures h.Some? ==> h.value == d.metadata[ContentHashKey] && Truthy(h.value)
  {
    if ContentHashKey in d.metadata && Truthy(d.metadata[ContentHashKey]) then
      Some(d.metadata[ContentHashKey])
    else
      None
  }
}
