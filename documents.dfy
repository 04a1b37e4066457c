/**
 * LangChain's `Document`, shared by the QA engine, the vector store and the
 * document processor: page text plus a metadata dictionary that the
 * processing steps update in place.
 */
module Documents {
  /** A metadata value: a `str`, an `int`, `None`, or anything else. */
  datatype MetaValue = MStr(s: string) | MInt(i: int) | MNone | MOther

  type Metadata = map<string, MetaValue>

  /** `metadata.get(key, default)`. */
  function Get(m: Metadata, key: string, default: MetaValue): (v: MetaValue)
    ensures key in m ==> v == m[key]
    ensures key !in m ==> v == default
  {
    if key in m then m[key] else default
  }

  class Document {
    var pageContent: string
    var metadata: Metadata

    constructor (pageContent: string, metadata: Metadata)
      ensures this.pageContent == pageContent && this.metadata == metadata
    {
      this.pageContent := pageContent;
      this.metadata := metadata;
    }
  }
}
