/** A retrieved passage: LangChain's `Document`, with its text and the
    string-valued part of its metadata. */
module Documents {

  datatype Doc = Doc(content: string, metadata: map<string, string>)

  /** `d.metadata.get(key)` read as a Python truth value: a missing key and an
      empty string both give `""`. */
  function Meta(d: Doc, key: string): (v: string)
    ensures v != "" ==> key in d.metadata && v == d.metadata[key]
    ensures key in d.metadata ==> v == d.metadata[key]
  {
    if key in d.metadata then d.metadata[key] else ""
  }
}
