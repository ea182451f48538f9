/** The values the pipeline passes around: LangChain documents with their
    metadata dictionary, chat turns, per-video summary records, the model
    configuration and the metadata.json record a session directory holds. */
module Records {
  import opened Wrappers

  /** A LangChain Document: page content plus a string-to-string metadata
      dictionary (the pipeline only ever stores "source" and "type"). */
  datatype Document = Document(content: string, meta: map<string, string>)

  /** `doc.metadata.get(key, default)`. */
  function MetaGet(d: Document, key: string, default: string): (r: string)
    ensures key in d.meta ==> r == d.meta[key]
    ensures key !in d.meta ==> r == default
  {
    if key in d.meta then d.meta[key] else default
  }

  /** `doc.metadata.get("source", "")`. */
  function Source(d: Document): string {
    MetaGet(d, "source", "")
  }

  /** The metadata dictionary `{"source": url, "type": kind}`. */
  function SourceMeta(url: string, kind: string): (m: map<string, string>)
    ensures "source" in m && m["source"] == url
    ensures "type" in m && m["type"] == kind
  {
    map["source" := url, "type" := kind]
  }

  /** One exchange of the chat: `[user, assistant]`. */
  datatype Turn = Turn(user: string, assistant: string)

  /** `{"video_url": url, "summary": text}`. */
  datatype SummaryRecord = SummaryRecord(videoUrl: string, summary: string)

  /** The model_config dictionary the engine hands to the session manager. */
  datatype ModelConfig = ModelConfig(modelName: string, chunkSize: int, chunkOverlap: int)

  /** The content of a session's metadata.json. `videoUrls` and `language`
      may be absent from files written by older versions; an empty
      `documents` list stands for a missing or empty "documents" key, which
      the loader treats alike. */
  datatype Metadata = Metadata(
    sessionId: string,
    persistName: string,
    createdAt: string,
    modelName: string,
    chunkSize: int,
    chunkOverlap: int,
    videoUrl: string,
    videoUrls: Option<seq<string>>,
    contentType: string,
    summary: string,
    summaries: seq<SummaryRecord>,
    documentContent: string,
    documents: seq<Document>,
    chatHistory: seq<Turn>,
    language: Option<string>)

  /** What a session directory's metadata.json holds: a record, or a file
      json.load cannot read. */
  datatype MetaFile = Parsed(meta: Metadata) | Corrupt

  /** `[doc.metadata.get("source", "") for doc in docs]`. */
  function Sources(docs: seq<Document>): (urls: seq<string>)
    ensures |urls| == |docs|
    ensures forall i :: 0 <= i < |docs| ==> urls[i] == Source(docs[i])
  {
    seq(|docs|, i requires 0 <= i < |docs| => Source(docs[i]))
  }

  /** The list of document contents. */
  function Contents(docs: seq<Document>): (texts: seq<string>)
    ensures |texts| == |docs|
    ensures forall i :: 0 <= i < |docs| ==> texts[i] == docs[i].content
  {
    seq(|docs|, i requires 0 <= i < |docs| => docs[i].content)
  }
}
