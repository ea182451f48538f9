/** The session store: one directory per session name, holding a
    metadata.json record and a Chroma index. The directory tree becomes three
    fields of a SessionManager object; the index of a session is the sequence
    of chunks added to it; the text splitter is an oracle, and the embedding
    and vector-store calls that can fail are boolean parameters. */
module Sessions {
  import opened Wrappers
  import opened Text
  import opened Records

  /** RecursiveCharacterTextSplitter.split_documents with the given chunk
      size and overlap. */
  type Splitter = (seq<Document>, int, int) -> seq<Document>

  /* ------------------------------------------------------ record builders */

  /** video_urls lists the source of each stored document, in order. */
  predicate Aligned(m: Metadata) {
    && m.videoUrls.Some?
    && |m.videoUrls.value| == |m.documents|
    && forall i :: 0 <= i < |m.documents| ==> m.videoUrls.value[i] == Source(m.documents[i])
  }

  /** `documents or [document]`. */
  function SavedDocuments(document: Document, documents: seq<Document>): (docs: seq<Document>)
    ensures docs != []
    ensures documents != [] ==> docs == documents
  {
    if documents == [] then [document] else documents
  }

  /** The record save_session writes. */
  function NewMetadata(
    name: string, createdAt: string, config: ModelConfig, document: Document, documents: seq<Document>,
    summary: string, summaries: seq<SummaryRecord>, history: seq<Turn>, language: string)
    : (m: Metadata)
    ensures Aligned(m)
    ensures m.documents == SavedDocuments(document, documents)
    ensures m.videoUrl == Source(m.documents[0])
    ensures m.sessionId == name && m.persistName == name && m.createdAt == createdAt
    ensures m.language == Some(NormalizeLanguage(language, "zh"))
    ensures m.documentContent == document.content && m.contentType == MetaGet(document, "type", "")
    ensures m.summary == summary && m.summaries == summaries && m.chatHistory == history
  {
    var docs := SavedDocuments(document, documents);
    var urls := Sources(docs);
    Metadata(
      name, name, createdAt, config.modelName, config.chunkSize, config.chunkOverlap,
      urls[0], Some(urls), MetaGet(document, "type", ""), summary, summaries,
      document.content, docs, history, Some(NormalizeLanguage(language, "zh")))
  }

  /** The record append_to_session writes over `m`. The language is stored
      as given, without normalisation. */
  function AppendMetadata(
    m: Metadata, documents: seq<Document>, combinedSummary: string, combinedDocument: Document,
    summaries: seq<SummaryRecord>, history: seq<Turn>, language: string)
    : (r: Metadata)
    ensures Aligned(r)
    ensures r.documents == documents
    ensures r.sessionId == m.sessionId && r.persistName == m.persistName && r.createdAt == m.createdAt
    ensures r.modelName == m.modelName && r.chunkSize == m.chunkSize && r.chunkOverlap == m.chunkOverlap
    ensures documents != [] ==> r.videoUrl == Source(documents[0])
    ensures documents == [] ==> r.videoUrl == m.videoUrl
    ensures r.contentType == MetaGet(combinedDocument, "type", m.contentType)
    ensures r.summary == combinedSummary && r.summaries == summaries && r.chatHistory == history
    ensures r.documentContent == combinedDocument.content && r.language == Some(language)
  {
    var urls := Sources(documents);
    m.(documents := documents,
       documentContent := combinedDocument.content,
       contentType := MetaGet(combinedDocument, "type", m.contentType),
       summary := combinedSummary,
       summaries := summaries,
       chatHistory := history,
       language := Some(language),
       videoUrls := Some(urls),
       videoUrl := if urls != [] then urls[0] else m.videoUrl)
  }

  /** What load_session returns. */
  datatype LoadedSession = LoadedSession(
    document: Document,
    summary: string,
    retriever: seq<Document>,
    metadata: Metadata,
    chatHistory: seq<Turn>,
    documents: seq<Document>,
    summaries: seq<SummaryRecord>,
    videoUrls: seq<string>)

  /** The single document rebuilt from a record that stores none. */
  function LegacyDocument(m: Metadata): Document {
    Document(m.documentContent, SourceMeta(m.videoUrl, m.contentType))
  }

  /** The documents load_session rebuilds: the stored ones, in order, or the
      legacy document when there are none. */
  function LoadedDocuments(m: Metadata): (docs: seq<Document>)
    ensures docs != []
    ensures m.documents != [] ==> docs == m.documents
    ensures m.documents == [] ==> docs == [LegacyDocument(m)]
  {
    if m.documents != [] then m.documents else [LegacyDocument(m)]
  }

  /** load_session's result for a readable record and an index. */
  function LoadView(m: Metadata, chunks: seq<Document>): (s: LoadedSession)
    ensures s.documents == LoadedDocuments(m) && s.document == s.documents[0]
    ensures s.videoUrls == (if m.videoUrls.Some? then m.videoUrls.value else [m.videoUrl])
    ensures s.summary == m.summary && s.chatHistory == m.chatHistory && s.summaries == m.summaries
    ensures s.retriever == chunks && s.metadata == m
  {
    var docs := LoadedDocuments(m);
    LoadedSession(docs[0], m.summary, chunks, m, m.chatHistory, docs, m.summaries,
      if m.videoUrls.Some? then m.videoUrls.value else [m.videoUrl])
  }

  /** load_session over a store: None when the directory or its metadata is
      missing, the metadata cannot be read, or the embedding client cannot be
      built; a missing index loads as an empty one. */
  function LoadFrom(
    dirs: set<string>, metadata: map<string, MetaFile>, index: map<string, seq<Document>>,
    name: string, vectorOk: bool)
    : (r: Option<LoadedSession>)
    ensures r.Some? <==> name in dirs && name in metadata && metadata[name].Parsed? && vectorOk
    ensures r.Some? ==> r.value.metadata == metadata[name].meta
    ensures r.Some? ==> r.value.retriever == (if name in index then index[name] else [])
  {
    if name !in dirs || name !in metadata || metadata[name].Corrupt? || !vectorOk then None
    else Some(LoadView(metadata[name].meta, if name in index then index[name] else []))
  }

  /** A record written by save_session loads back with its documents in
      order, the first as `document`, and video_urls aligned with them. */
  lemma SaveThenLoadView(
    name: string, createdAt: string, config: ModelConfig, document: Document, documents: seq<Document>,
    summary: string, summaries: seq<SummaryRecord>, history: seq<Turn>, language: string, chunks: seq<Document>)
    ensures var s := LoadView(NewMetadata(name, createdAt, config, document, documents, summary, summaries, history, language), chunks);
      && s.documents == SavedDocuments(document, documents)
      && s.document == (if documents == [] then document else documents[0])
      && s.videoUrls == Sources(s.documents)
      && s.summary == summary && s.summaries == summaries && s.chatHistory == history
  {
  }

  /** Loading an aligned record with documents gives video_urls aligned with
      the loaded documents. */
  lemma LoadKeepsAlignment(m: Metadata, chunks: seq<Document>)
    requires Aligned(m) && m.documents != []
    ensures LoadView(m, chunks).videoUrls == Sources(LoadView(m, chunks).documents)
  {
  }

  /** Appending an empty document list stores `documents: []` and
      `video_urls: []`; the next load then rebuilds the legacy document
      while video_urls stays empty, so the two lists no longer align. */
  lemma EmptyAppendBreaksAlignment(
    m: Metadata, combinedSummary: string, combinedDocument: Document,
    summaries: seq<SummaryRecord>, history: seq<Turn>, language: string, chunks: seq<Document>)
    ensures var s := LoadView(AppendMetadata(m, [], combinedSummary, combinedDocument, summaries, history, language), chunks);
      |s.documents| == 1 && s.videoUrls == []
  {
  }

  /** A record without documents (written by an older version) loads as one
      document carrying its content, URL and content type. */
  lemma LegacyLoad(m: Metadata, chunks: seq<Document>)
    requires m.documents == []
    ensures var s := LoadView(m, chunks);
      && s.documents == [s.document]
      && s.document.content == m.documentContent
      && Source(s.document) == m.videoUrl
      && MetaGet(s.document, "type", "") == m.contentType
  {
  }

  /* -------------------------------------------------------------- listing */

  /** One entry of list_sessions. */
  datatype Listing = Listing(name: string, createdAt: string, videoUrl: string, modelName: string, contentType: string)

  function ListingOf(name: string, m: Metadata): Listing {
    Listing(name, m.createdAt, m.videoUrl, m.modelName, m.contentType)
  }

  /** Newest first: no entry's created_at is smaller than a later one's. */
  predicate NewestFirst(s: seq<Listing>) {
    forall i, j :: 0 <= i < j < |s| ==> !Less(s[i].createdAt, s[j].createdAt)
  }

  /** Inserting x before the first entry strictly older than it. */
  function InsertNewestFirst(x: Listing, s: seq<Listing>): (r: seq<Listing>)
    ensures multiset(r) == multiset(s) + multiset{x}
  {
    if s == [] then [x]
    else if Less(s[0].createdAt, x.createdAt) then [x] + s
    else
      assert s == [s[0]] + s[1..];
      [s[0]] + InsertNewestFirst(x, s[1..])
  }

  lemma {:induction false} InsertKeepsNewestFirst(x: Listing, s: seq<Listing>)
    requires NewestFirst(s)
    ensures NewestFirst(InsertNewestFirst(x, s))
  {
    if s != [] {
      if Less(s[0].createdAt, x.createdAt) {
        forall j | 0 <= j < |s|
          ensures !Less(x.createdAt, s[j].createdAt)
        {
          if Less(x.createdAt, s[j].createdAt) {
            LessTransitive(s[0].createdAt, x.createdAt, s[j].createdAt);
            if j == 0 {
              LessIrreflexive(s[0].createdAt);
            }
          }
        }
        ConsNewestFirst(x, s);
      } else {
        InsertKeepsNewestFirst(x, s[1..]);
        var r := InsertNewestFirst(x, s[1..]);
        forall j | 0 <= j < |r|
          ensures !Less(s[0].createdAt, r[j].createdAt)
        {
          assert r[j] in multiset(r);
          if r[j] != x {
            assert r[j] in multiset(s[1..]);
            var k :| 0 <= k < |s[1..]| && s[1..][k] == r[j];
            assert s[k + 1] == r[j];
          }
        }
        ConsNewestFirst(s[0], r);
      }
    }
  }

  /** Putting an entry no older than any other in front keeps the order. */
  lemma ConsNewestFirst(x: Listing, s: seq<Listing>)
    requires NewestFirst(s)
    requires forall j :: 0 <= j < |s| ==> !Less(x.createdAt, s[j].createdAt)
    ensures NewestFirst([x] + s)
  {
    var out := [x] + s;
    forall i, j | 0 <= i < j < |out|
      ensures !Less(out[i].createdAt, out[j].createdAt)
    {
      assert out[j] == s[j - 1];
      if i > 0 {
        assert out[i] == s[i - 1];
      }
    }
  }

  /** `sessions.sort(key=created_at, reverse=True)`. */
  function SortNewestFirst(s: seq<Listing>): (r: seq<Listing>)
    ensures multiset(r) == multiset(s)
  {
    if s == [] then []
    else
      assert s == [s[0]] + s[1..];
      InsertNewestFirst(s[0], SortNewestFirst(s[1..]))
  }

  lemma {:induction false} SortIsNewestFirst(s: seq<Listing>)
    ensures NewestFirst(SortNewestFirst(s))
  {
    if s != [] {
      SortIsNewestFirst(s[1..]);
      InsertKeepsNewestFirst(s[0], SortNewestFirst(s[1..]));
    }
  }

  /** Sorting keeps every entry and adds none. */
  lemma SortKeepsEntries(s: seq<Listing>)
    ensures |SortNewestFirst(s)| == |s|
    ensures forall e :: e in SortNewestFirst(s) <==> e in s
  {
    var r := SortNewestFirst(s);
    assert |r| == |multiset(r)| == |multiset(s)| == |s|;
    forall e
      ensures e in r <==> e in s
    {
      assert e in r <==> e in multiset(r);
      assert e in s <==> e in multiset(s);
    }
  }

  /* ------------------------------------------------------------ the store */

  /** Deleting a key and then writing it is the same as overwriting it. */
  lemma RemoveThenPut<K, V>(m: map<K, V>, k: K, v: V)
    ensures (m - {k})[k := v] == m[k := v]
  {
  }

  class SessionManager {
    /** Session directories under the storage directory. */
    var dirs: set<string>
    /** The metadata.json of each directory that has one. */
    var metadata: map<string, MetaFile>
    /** The chunks in each directory's Chroma index. */
    var index: map<string, seq<Document>>

    ghost predicate Valid()
      reads this
    {
      metadata.Keys <= dirs && index.Keys <= dirs
    }

    /** A manager over a storage directory that may already hold sessions. */
    constructor (dirs0: set<string>, metadata0: map<string, MetaFile>, index0: map<string, seq<Document>>)
      requires metadata0.Keys <= dirs0 && index0.Keys <= dirs0
      ensures Valid()
      ensures dirs == dirs0 && metadata == metadata0 && index == index0
    {
      dirs, metadata, index := dirs0, metadata0, index0;
    }

    /** save_session: the session directory is replaced wholesale, the
        metadata written, then the index built; if building the index fails
        the call returns None and the metadata stays on disk without an
        index. `freshId` stands for uuid4() and `createdAt` for the clock. */
    method Save(
      document: Document, summary: string, config: ModelConfig, persistName: Option<string>, freshId: string,
      history: seq<Turn>, language: string, documents: seq<Document>, summaries: seq<SummaryRecord>,
      createdAt: string, split: Splitter, embedOk: bool)
      returns (r: Option<string>)
      requires Valid()
      modifies this
      ensures Valid()
      ensures var name := persistName.GetOr(freshId);
        && dirs == old(dirs) + {name}
        && metadata == old(metadata)[name := Parsed(NewMetadata(name, createdAt, config, document, documents, summary, summaries, history, language))]
        && (embedOk ==> r == Some(name) && index == old(index)[name := split(SavedDocuments(document, documents), config.chunkSize, config.chunkOverlap)])
        && (!embedOk ==> r == None && index == old(index) - {name})
    {
      var name := if persistName.Some? then persistName.value else freshId;
      // rmtree, then mkdir
      metadata := metadata - {name};
      index := index - {name};
      dirs := dirs + {name};
      var docs := SavedDocuments(document, documents);
      var record := NewMetadata(name, createdAt, config, document, documents, summary, summaries, history, language);
      metadata := metadata[name := Parsed(record)];
      RemoveThenPut(old(metadata), name, Parsed(record));
      if !embedOk {
        return None;
      }
      var chunks := split(docs, config.chunkSize, config.chunkOverlap);
      index := index[name := chunks];
      RemoveThenPut(old(index), name, chunks);
      r := Some(name);
    }

    /** load_session; nothing changes. */
    method Load(name: string, vectorOk: bool) returns (r: Option<LoadedSession>)
      ensures r == LoadFrom(dirs, metadata, index, name, vectorOk)
    {
      if name !in dirs || name !in metadata {
        return None;
      }
      var file := metadata[name];
      if file.Corrupt? || !vectorOk {
        return None;
      }
      var chunks := if name in index then index[name] else [];
      r := Some(LoadView(file.meta, chunks));
    }

    /** list_sessions: every directory with a metadata.json, newest first;
        [] as soon as one of them cannot be read. */
    method List() returns (entries: seq<Listing>)
      requires Valid()
      ensures (exists n :: n in metadata && metadata[n].Corrupt?) ==> entries == []
      ensures (forall n :: n in metadata ==> metadata[n].Parsed?) ==>
        && NewestFirst(entries)
        && |entries| == |metadata|
        && (forall n :: n in metadata ==> ListingOf(n, metadata[n].meta) in entries)
        && (forall e :: e in entries ==> e.name in metadata && e == ListingOf(e.name, metadata[e.name].meta))
    {
      var remaining := metadata.Keys;
      var found: seq<Listing> := [];
      while remaining != {}
        invariant remaining <= metadata.Keys
        invariant |found| + |remaining| == |metadata.Keys|
        invariant forall n :: n in metadata.Keys - remaining ==> metadata[n].Parsed? && ListingOf(n, metadata[n].meta) in found
        invariant forall e :: e in found ==> e.name in metadata.Keys - remaining && metadata[e.name].Parsed? && e == ListingOf(e.name, metadata[e.name].meta)
        decreases |remaining|
      {
        var n :| n in remaining;
        var file := metadata[n];
        if file.Corrupt? {
          return [];
        }
        found := found + [ListingOf(n, file.meta)];
        remaining := remaining - {n};
      }
      entries := SortNewestFirst(found);
      SortIsNewestFirst(found);
      SortKeepsEntries(found);
    }

    /** delete_session: true exactly when the directory existed; only that
        name is removed. */
    method Delete(name: string) returns (ok: bool)
      requires Valid()
      modifies this
      ensures Valid()
      ensures ok <==> name in old(dirs)
      ensures dirs == old(dirs) - {name}
      ensures metadata == old(metadata) - {name} && index == old(index) - {name}
    {
      ok := name in dirs;
      if ok {
        dirs := dirs - {name};
        metadata := metadata - {name};
        index := index - {name};
      }
    }

    /** update_chat_history: rewrites chat_history and nothing else; false
        when the metadata is missing or unreadable. */
    method UpdateChatHistory(name: string, history: seq<Turn>) returns (ok: bool)
      requires Valid()
      modifies this
      ensures Valid()
      ensures ok <==> name in old(metadata) && old(metadata)[name].Parsed?
      ensures ok ==> metadata == old(metadata)[name := Parsed(old(metadata)[name].meta.(chatHistory := history))]
      ensures !ok ==> metadata == old(metadata)
      ensures dirs == old(dirs) && index == old(index)
    {
      if name !in metadata || metadata[name].Corrupt? {
        return false;
      }
      var m := metadata[name].meta;
      metadata := metadata[name := Parsed(m.(chatHistory := history))];
      ok := true;
    }

    /** append_to_session: the metadata is rewritten first; then the chunks
        of the new documents alone are added to the index. When there are
        chunks to add and the embedding call fails, the result is false but
        the metadata has already been rewritten. */
    method Append(
      name: string, documents: seq<Document>, newDocuments: seq<Document>, summaries: seq<SummaryRecord>,
      combinedSummary: string, combinedDocument: Document, history: seq<Turn>, language: string,
      config: ModelConfig, split: Splitter, embedOk: bool)
      returns (ok: bool)
      requires Valid()
      modifies this
      ensures Valid()
      ensures dirs == old(dirs)
      ensures name !in old(metadata) || old(metadata)[name].Corrupt? ==>
        !ok && unchanged(this)
      ensures name in old(metadata) && old(metadata)[name].Parsed? ==>
        var newChunks := split(newDocuments, config.chunkSize, config.chunkOverlap);
        var before := if name in old(index) then old(index)[name] else [];
        && metadata == old(metadata)[name := Parsed(AppendMetadata(old(metadata)[name].meta, documents,
             combinedSummary, combinedDocument, summaries, history, language))]
        && (ok <==> newChunks == [] || embedOk)
        && (newChunks != [] && embedOk ==> index == old(index)[name := before + newChunks])
        && (newChunks == [] || !embedOk ==> index == old(index))
    {
      if name !in metadata || metadata[name].Corrupt? {
        return false;
      }
      var m := metadata[name].meta;
      metadata := metadata[name := Parsed(AppendMetadata(m, documents, combinedSummary, combinedDocument, summaries, history, language))];
      var newChunks := split(newDocuments, config.chunkSize, config.chunkOverlap);
      if newChunks != [] {
        if !embedOk {
          return false;
        }
        var before := if name in index then index[name] else [];
        index := index[name := before + newChunks];
      }
      ok := true;
    }
  }

  /** A failed save still leaves a loadable session: its metadata is on disk
      and its index is empty. */
  lemma FailedSaveStillLoads(
    dirs: set<string>, metadata: map<string, MetaFile>, index: map<string, seq<Document>>,
    name: string, record: Metadata)
    ensures var s := LoadFrom(dirs + {name}, metadata[name := Parsed(record)], index - {name}, name, true);
      s.Some? && s.value.retriever == [] && s.value.metadata == record
  {
  }

  /** A successful save followed by a load returns the saved documents and
      the chunks just built. */
  lemma SaveThenLoad(
    dirs: set<string>, metadata: map<string, MetaFile>, index: map<string, seq<Document>>,
    name: string, createdAt: string, config: ModelConfig, document: Document, documents: seq<Document>,
    summary: string, summaries: seq<SummaryRecord>, history: seq<Turn>, language: string, chunks: seq<Document>)
    ensures var record := NewMetadata(name, createdAt, config, document, documents, summary, summaries, history, language);
      var s := LoadFrom(dirs + {name}, metadata[name := Parsed(record)], index[name := chunks], name, true);
      && s.Some?
      && s.value.documents == SavedDocuments(document, documents)
      && s.value.videoUrls == Sources(s.value.documents)
      && s.value.retriever == chunks
  {
    SaveThenLoadView(name, createdAt, config, document, documents, summary, summaries, history, language, chunks);
  }
}
