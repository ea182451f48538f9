/** The RAG engine: its model settings and language, the conversion of the
    chat history into chat messages, and the way processing a video, loading
    a session and appending a video to a session assemble the session the
    interface holds. The outside world (yt-dlp, Whisper, the chat model, the
    embedding service) is one value of type World. */
module Engine {
  import opened Wrappers
  import opened Text
  import opened Records
  import opened Transcript
  import opened Summarizer
  import opened Sessions
  import opened FileUtils

  /** The outcomes the outside world gives for a URL. `memoryIndexOk` is
      whether the in-memory index of process_video can be built,
      `storeIndexOk` whether save_session can build its index, `vectorOk`
      whether load_session can open one. */
  datatype World = World(
    subtitles: string -> Option<string>,
    audio: string -> AudioOutcome,
    llm: ChatModel,
    llmReady: bool,
    split: Splitter,
    memoryIndexOk: bool,
    storeIndexOk: bool,
    vectorOk: bool)

  /** The session dictionary handed to the interface. */
  datatype Session = Session(
    document: Option<Document>,
    documents: seq<Document>,
    summary: string,
    summaries: seq<SummaryRecord>,
    videoUrls: seq<string>,
    chatHistory: seq<Turn>,
    retriever: seq<Document>,
    metadata: Option<Metadata>,
    sessionName: string,
    language: string)

  /** The ValueErrors the engine raises, and the content errors it passes
      on. */
  datatype EngineError =
    | NoActiveSession
    | ContentUnavailable(reason: ContentError)
    | IndexBuildFailed
    | LoadAfterSaveFailed
    | PersistNameMissing
    | AppendFailed
    | ReloadFailed
    | NoSessionData
    | MissingDocument

  /** A chat message. */
  datatype Message = Human(content: string) | Ai(content: string)

  /* ------------------------------------------------------- chat history */

  predicate IsSystemTurn(user: string) {
    user == "System" || user == "system"
  }

  /** The messages of one `[user, assistant]` pair. */
  function TurnMessages(t: Turn): (ms: seq<Message>)
    ensures |ms| == (if t.user != [] && !IsSystemTurn(t.user) then 1 else 0) + (if t.assistant != [] then 1 else 0)
    ensures |ms| == 2 ==> ms[0].Human? && ms[1].Ai?
    ensures forall k :: 0 <= k < |ms| ==> ms[k].content != []
    ensures forall k :: 0 <= k < |ms| ==> ms[k].Human? ==> ms[k].content == t.user && !IsSystemTurn(t.user)
    ensures forall k :: 0 <= k < |ms| ==> ms[k].Ai? ==> ms[k].content == t.assistant
  {
    (if t.user != [] && !IsSystemTurn(t.user) then [Human(t.user)] else [])
    + (if t.assistant != [] then [Ai(t.assistant)] else [])
  }

  /** `_format_history` as a function of the history. */
  function HistoryMessages(h: seq<Turn>): (ms: seq<Message>)
    ensures |ms| <= 2 * |h|
    ensures forall k :: 0 <= k < |ms| ==> ms[k].content != []
    ensures forall k :: 0 <= k < |ms| ==> ms[k].Human? ==> !IsSystemTurn(ms[k].content)
  {
    if h == [] then []
    else HistoryMessages(h[..|h| - 1]) + TurnMessages(h[|h| - 1])
  }

  /** Order is preserved: the messages of a history are those of its first
      part followed by those of the rest. */
  lemma {:induction false} HistoryMessagesAppend(a: seq<Turn>, b: seq<Turn>)
    ensures HistoryMessages(a + b) == HistoryMessages(a) + HistoryMessages(b)
    decreases |b|
  {
    if b == [] {
      assert a + b == a;
    } else {
      var b' := b[..|b| - 1];
      assert (a + b)[..|a + b| - 1] == a + b';
      assert (a + b)[|a + b| - 1] == b[|b| - 1];
      HistoryMessagesAppend(a, b');
    }
  }

  /** Every turn's messages appear in the converted history: its user text
      when it is non-empty and not "System"/"system", and its non-empty
      assistant reply. */
  lemma {:induction false} HistoryEmits(h: seq<Turn>, i: nat)
    requires i < |h|
    ensures h[i].user != [] && !IsSystemTurn(h[i].user) ==> Human(h[i].user) in HistoryMessages(h)
    ensures h[i].assistant != [] ==> Ai(h[i].assistant) in HistoryMessages(h)
    decreases |h|
  {
    var front := h[..|h| - 1];
    var tm := TurnMessages(h[|h| - 1]);
    assert HistoryMessages(h) == HistoryMessages(front) + tm;
    if i < |h| - 1 {
      assert front[i] == h[i];
      HistoryEmits(front, i);
    } else {
      if h[i].user != [] && !IsSystemTurn(h[i].user) {
        assert tm[0] == Human(h[i].user);
      }
      if h[i].assistant != [] {
        assert tm[|tm| - 1] == Ai(h[i].assistant);
      }
    }
  }

  /** A turn whose user text is empty or "System"/"system" contributes at
      most the assistant reply. */
  lemma SystemTurnsDropUser(h: seq<Turn>, t: Turn)
    requires t.user == [] || IsSystemTurn(t.user)
    ensures HistoryMessages(h + [t]) == HistoryMessages(h) + (if t.assistant != [] then [Ai(t.assistant)] else [])
  {
    assert (h + [t])[..|h|] == h;
  }

  /* ------------------------------------------------ session assembly */

  /** `session.get("documents") or [session.get("document")]`, without None. */
  function ExistingDocuments(s: Session): (docs: seq<Document>)
    ensures s.documents != [] ==> docs == s.documents
    ensures s.documents == [] && s.document.Some? ==> docs == [s.document.value]
    ensures s.documents == [] && s.document.None? ==> docs == []
  {
    if s.documents != [] then s.documents
    else if s.document.Some? then [s.document.value]
    else []
  }

  const SummaryDivider: string := "\n\n" + Repeat('-', 50) + "\n\n"

  /** The combined summary: the old one, a rule of 50 '-' between blank
      lines, then the new one; just the new one when there was none. */
  function CombineSummaries(previous: string, latest: string): (r: string)
    ensures previous == [] ==> r == latest
    ensures previous != [] ==>
      && |r| == |previous| + 54 + |latest|
      && r[..|previous|] == previous
      && r[|previous|..|previous| + 2] == "\n\n"
      && (forall k :: |previous| + 2 <= k < |previous| + 52 ==> r[k] == '-')
      && r[|previous| + 52..|previous| + 54] == "\n\n"
    ensures |r| >= |latest| && r[|r| - |latest|..] == latest
  {
    if previous != [] then
      DividerShape();
      var r := previous + SummaryDivider + latest;
      assert r[|previous|..|previous| + 54] == SummaryDivider;
      r
    else latest
  }

  /** The divider: a blank line, 50 '-', a blank line. */
  lemma DividerShape()
    ensures |SummaryDivider| == 54
    ensures SummaryDivider[..2] == "\n\n" && SummaryDivider[52..] == "\n\n"
    ensures forall k :: 2 <= k < 52 ==> SummaryDivider[k] == '-'
  {
  }

  /** `"\n\n".join(doc.page_content for doc in documents)`. */
  function CombinedContent(docs: seq<Document>): string {
    Join(Contents(docs), "\n\n")
  }

  /** Appending a document appends its text after a blank line. */
  lemma CombinedContentAppend(docs: seq<Document>, d: Document)
    ensures CombinedContent(docs + [d]) ==
      if docs == [] then d.content else CombinedContent(docs) + "\n\n" + d.content
  {
    assert Contents(docs + [d]) == Contents(docs) + [d.content];
    JoinAppend(Contents(docs), d.content, "\n\n");
  }

  /** The document standing for the whole session: the joined texts, the
      first known URL (else the new one) as source, type "combined". */
  function CombinedDocument(docs: seq<Document>, videoUrls: seq<string>, url: string): (d: Document)
    ensures d.content == CombinedContent(docs)
    ensures videoUrls != [] ==> Source(d) == videoUrls[0]
    ensures videoUrls == [] ==> Source(d) == url
    ensures MetaGet(d, "type", "") == "combined"
  {
    Document(CombinedContent(docs), SourceMeta(if videoUrls != [] then videoUrls[0] else url, "combined"))
  }

  /** `session_name or metadata.persist_name`, None when both are empty. */
  function PersistNameOf(s: Session): (r: Option<string>)
    ensures r.Some? ==> r.value != []
    ensures s.sessionName != [] ==> r == Some(s.sessionName)
    ensures r.None? <==> s.sessionName == [] && (s.metadata.None? || s.metadata.value.persistName == [])
  {
    if s.sessionName != [] then Some(s.sessionName)
    else if s.metadata.Some? && s.metadata.value.persistName != [] then Some(s.metadata.value.persistName)
    else None
  }

  /** video_urls with the new URL appended when it is not already there. */
  function WithUrl(urls: seq<string>, url: string): (r: seq<string>)
    ensures url in r
    ensures |r| >= |urls| && r[..|urls|] == urls
    ensures url in urls ==> r == urls
    ensures url !in urls ==> r == urls + [url]
  {
    if url in urls then urls else urls + [url]
  }

  /** The session load_session hands back. */
  function FromLoaded(l: LoadedSession, name: string, language: string): (s: Session)
    ensures s.document == Some(l.document) && s.documents == l.documents
    ensures s.videoUrls == l.videoUrls && s.metadata == Some(l.metadata)
    ensures s.sessionName == name && s.language == language
  {
    Session(Some(l.document), l.documents, l.summary, l.summaries, l.videoUrls, l.chatHistory,
      l.retriever, Some(l.metadata), name, language)
  }

  /** The report language: the explicit argument, else the stored language,
      else the engine's, else "en"; then lower-cased, with anything but "zh"
      and "en" read as "en". */
  function ReportLanguage(explicit: string, stored: string, engineLanguage: string): (r: string)
    ensures r == "zh" || r == "en"
    ensures explicit != [] ==> r == NormalizeLanguage(explicit, "en")
    ensures explicit == [] && stored != [] ==> r == NormalizeLanguage(stored, "en")
    ensures explicit == [] && stored == [] ==> r == NormalizeLanguage(engineLanguage, "en")
  {
    var pick := if explicit != [] then explicit else if stored != [] then stored else engineLanguage;
    NormalizeLanguage(pick, "en")
  }

  /** The checks of generate_analysis_report before it delegates: the
      session must be present and hold a document. */
  function AnalysisLanguage(explicit: string, session: Option<Session>, engineLanguage: string): (r: Result<string, EngineError>)
    ensures session.None? ==> r == Err(NoSessionData)
    ensures session.Some? && session.value.document.None? ==> r == Err(MissingDocument)
    ensures r.Ok? ==> r.value == "zh" || r.value == "en"
    ensures session.Some? && session.value.document.Some? ==>
      var m := session.value.metadata;
      r == Ok(ReportLanguage(explicit, if m.Some? && m.value.language.Some? then m.value.language.value else [], engineLanguage))
  {
    if session.None? then Err(NoSessionData)
    else if session.value.document.None? then Err(MissingDocument)
    else
      var m := session.value.metadata;
      var stored := if m.Some? && m.value.language.Some? then m.value.language.value else [];
      Ok(ReportLanguage(explicit, stored, engineLanguage))
  }

  /* ----------------------------------------------------------- the engine */

  class YouTubeRag {
    var modelName: string
    var chunkSize: int
    var chunkOverlap: int
    var language: string
    /** The model name the content processor was built with; load_session
        changes `modelName` but not this one, so summaries always use it. */
    const processorModel: string
    const store: SessionManager

    ghost predicate Valid()
      reads this, store
    {
      store.Valid()
    }

    /** `__init__`: the language is lower-cased, "zh" when empty, and "en"
        for anything other than "zh" and "en". */
    constructor (chunkSize0: int, chunkOverlap0: int, modelName0: string, language0: string, store0: SessionManager)
      requires store0.Valid()
      ensures Valid()
      ensures chunkSize == chunkSize0 && chunkOverlap == chunkOverlap0 && modelName == modelName0
      ensures processorModel == modelName0
      ensures language == NormalizeLanguage(language0, "zh") && store == store0
    {
      chunkSize, chunkOverlap, modelName := chunkSize0, chunkOverlap0, modelName0;
      processorModel := modelName0;
      language := NormalizeLanguage(language0, "zh");
      store := store0;
    }

    function Config(): ModelConfig
      reads this
    {
      ModelConfig(modelName, chunkSize, chunkOverlap)
    }

    /** `_format_history`. */
    method FormatHistory(h: seq<Turn>) returns (messages: seq<Message>)
      ensures messages == HistoryMessages(h)
    {
      if h == [] {
        return [];
      }
      messages := [];
      for i := 0 to |h|
        invariant messages == HistoryMessages(h[..i])
      {
        assert h[..i + 1][..i] == h[..i];
        if h[i].user != [] && !IsSystemTurn(h[i].user) {
          messages := messages + [Human(h[i].user)];
        }
        if h[i].assistant != [] {
          messages := messages + [Ai(h[i].assistant)];
        }
      }
      assert h[..|h|] == h;
    }

    /** `load_session`: on success the model name, chunk settings and
        language are copied from the metadata (the language only when the
        record has one); on failure nothing changes. */
    method LoadSession(name: string, vectorOk: bool) returns (r: Option<Session>)
      requires Valid()
      modifies this
      ensures Valid()
      ensures var l := LoadFrom(store.dirs, store.metadata, store.index, name, vectorOk);
        && (l.None? ==> r.None? && unchanged(this))
        && (l.Some? ==>
              && modelName == l.value.metadata.modelName
              && chunkSize == l.value.metadata.chunkSize
              && chunkOverlap == l.value.metadata.chunkOverlap
              && language == l.value.metadata.language.GetOr(old(language))
              && r == Some(FromLoaded(l.value, name, language)))
    {
      var loaded := store.Load(name, vectorOk);
      if loaded.None? {
        return None;
      }
      var m := loaded.value.metadata;
      modelName := m.modelName;
      chunkSize := m.chunkSize;
      chunkOverlap := m.chunkOverlap;
      language := if m.language.Some? then m.language.value else language;
      r := Some(FromLoaded(loaded.value, name, language));
    }

    /** The end of process_video, once the document and its summary exist:
        the session is saved under the video id of the URL and loaded back,
        and the returned session holds just this video. */
    method SaveAndReload(document: Document, summary: string, url: string, w: World, freshId: string, now: string)
      returns (r: Result<Session, EngineError>)
      requires Valid()
      modifies this, store
      ensures Valid()
      ensures var id := ExtractVideoId(url);
        var summaries := [SummaryRecord(url, summary)];
        var record := NewMetadata(id, now, old(Config()), document, [document], summary, summaries, [], old(language));
        var chunks := w.split([document], old(chunkSize), old(chunkOverlap));
        && store.dirs == old(store.dirs) + {id}
        && store.metadata == old(store.metadata)[id := Parsed(record)]
        && (w.storeIndexOk ==> store.index == old(store.index)[id := chunks])
        && (!w.storeIndexOk ==> store.index == old(store.index) - {id})
        && (r.Ok? <==> w.storeIndexOk && w.vectorOk)
        && (r.Err? ==> r == Err(LoadAfterSaveFailed) && unchanged(this))
        && (r.Ok? ==>
              && modelName == old(modelName) && chunkSize == old(chunkSize) && chunkOverlap == old(chunkOverlap)
              && language == NormalizeLanguage(old(language), "zh")
              && r.value == Session(Some(document), [document], summary, summaries, [url], [], chunks,
                   Some(record), id, language))
    {
      var summaries := [SummaryRecord(url, summary)];
      var videoId := ExtractVideoId(url);
      ghost var record := NewMetadata(videoId, now, Config(), document, [document], summary, summaries, [], language);
      ghost var chunks := w.split([document], chunkSize, chunkOverlap);
      var saved := store.Save(document, summary, Config(), Some(videoId), freshId, [], language, [document],
        summaries, now, w.split, w.storeIndexOk);
      if saved.None? {
        // load_session(None) raises inside its own handler and returns None
        return Err(LoadAfterSaveFailed);
      }
      var loaded := LoadSession(saved.value, w.vectorOk);
      if loaded.None? {
        return Err(LoadAfterSaveFailed);
      }
      r := Ok(loaded.value.(sessionName := saved.value, chatHistory := [], language := language,
        summary := summary, summaries := summaries, documents := [document], document := Some(document),
        videoUrls := [url]));
    }

    /** `process_video`: content and in-memory index failures leave the
        engine and the store as they were; otherwise the summary, written by
        the content processor's model in the engine's language, is saved and
        reloaded as SaveAndReload states. */
    method ProcessVideo(url: string, allowTranscription: bool, w: World, freshId: string, now: string)
      returns (r: Result<Session, EngineError>)
      requires Valid()
      modifies this, store
      ensures Valid()
      ensures var c := GetVideoContent(url, allowTranscription, w.subtitles(url), w.audio(url));
        && (c.Err? ==> r == Err(ContentUnavailable(c.error)) && unchanged(this, store))
        && (c.Ok? && !w.memoryIndexOk ==> r == Err(IndexBuildFailed) && unchanged(this, store))
      ensures var c := GetVideoContent(url, allowTranscription, w.subtitles(url), w.audio(url));
        c.Ok? && w.memoryIndexOk ==>
          var id := ExtractVideoId(url);
          var summary := Summarize(w.llm, w.llmReady, c.value.content, old(language), processorModel).summary;
          var summaries := [SummaryRecord(url, summary)];
          var record := NewMetadata(id, now, old(Config()), c.value, [c.value], summary, summaries, [], old(language));
          var chunks := w.split([c.value], old(chunkSize), old(chunkOverlap));
          && store.dirs == old(store.dirs) + {id}
          && store.metadata == old(store.metadata)[id := Parsed(record)]
          && (w.storeIndexOk ==> store.index == old(store.index)[id := chunks])
          && (!w.storeIndexOk ==> store.index == old(store.index) - {id})
          && (r.Ok? <==> w.storeIndexOk && w.vectorOk)
          && (r.Err? ==> r == Err(LoadAfterSaveFailed) && unchanged(this))
          && (r.Ok? ==>
                && modelName == old(modelName) && chunkSize == old(chunkSize) && chunkOverlap == old(chunkOverlap)
                && language == NormalizeLanguage(old(language), "zh")
                && r.value == Session(Some(c.value), [c.value], summary, summaries, [url], [], chunks,
                     Some(record), id, language))
    {
      var content := GetVideoContent(url, allowTranscription, w.subtitles(url), w.audio(url));
      if content.Err? {
        return Err(ContentUnavailable(content.error));
      }
      var document := content.value;
      var summary, _ := GenerateSummary(w.llm, w.llmReady, document, language, processorModel);
      if !w.memoryIndexOk {
        return Err(IndexBuildFailed);
      }
      r := SaveAndReload(document, summary, url, w, freshId, now);
    }

    /** The end of add_video_to_session, once the new document, its summary
        and the session's name are known: the store is updated (metadata
        first, then the index), the session reloaded, and the engine takes
        over the session's stored model settings. */
    method AppendAndReload(s: Session, name: string, document: Document, summary: string, url: string, w: World)
      returns (r: Result<(Session, string), EngineError>)
      requires Valid()
      modifies this, store
      ensures Valid()
      ensures var docs := ExistingDocuments(s) + [document];
        var summaries := s.summaries + [SummaryRecord(url, summary)];
        var newChunks := w.split([document], old(chunkSize), old(chunkOverlap));
        var before := if name in old(store.index) then old(store.index)[name] else [];
        && store.dirs == old(store.dirs)
        && (name !in old(store.metadata) || old(store.metadata)[name].Corrupt? ==>
              r == Err(AppendFailed) && unchanged(this, store))
        && (name in old(store.metadata) && old(store.metadata)[name].Parsed? ==>
              var m := old(store.metadata)[name].meta;
              var combinedDocument := CombinedDocument(docs, s.videoUrls, url);
              var record := AppendMetadata(m, docs, CombineSummaries(s.summary, summary), combinedDocument,
                summaries, s.chatHistory, old(language));
              && store.metadata == old(store.metadata)[name := Parsed(record)]
              && (newChunks != [] && w.storeIndexOk ==> store.index == old(store.index)[name := before + newChunks])
              && (newChunks == [] || !w.storeIndexOk ==> store.index == old(store.index))
              && (newChunks != [] && !w.storeIndexOk ==> r == Err(AppendFailed))
              && ((newChunks == [] || w.storeIndexOk) && !w.vectorOk ==> r == Err(ReloadFailed))
              && (r.Ok? <==> (newChunks == [] || w.storeIndexOk) && w.vectorOk)
              && (r.Err? ==> unchanged(this))
              && (r.Ok? ==>
                    && modelName == m.modelName && chunkSize == m.chunkSize && chunkOverlap == m.chunkOverlap
                    && language == old(language)
                    && r.value.1 == summary
                    && r.value.0 == Session(Some(combinedDocument), docs, CombineSummaries(s.summary, summary),
                         summaries, WithUrl(Sources(docs), url), s.chatHistory, before + newChunks,
                         Some(record), name, old(language))))
    {
      var documents := ExistingDocuments(s) + [document];
      var summaries := s.summaries + [SummaryRecord(url, summary)];
      var combinedSummary := CombineSummaries(s.summary, summary);
      var combinedDocument := CombinedDocument(documents, s.videoUrls, url);
      ghost var lang0 := language;
      var ok := store.Append(name, documents, [document], summaries, combinedSummary, combinedDocument,
        s.chatHistory, language, Config(), w.split, w.storeIndexOk);
      if !ok {
        return Err(AppendFailed);
      }
      var refreshed := LoadSession(name, w.vectorOk);
      if refreshed.None? {
        return Err(ReloadFailed);
      }
      ghost var record := store.metadata[name].meta;
      assert record.documents == documents && Aligned(record);
      assert record.videoUrls.value == Sources(documents);
      var result := refreshed.value.(sessionName := name, chatHistory := s.chatHistory, summary := combinedSummary,
        summaries := summaries, documents := documents, document := Some(combinedDocument),
        videoUrls := WithUrl(refreshed.value.videoUrls, url));
      r := Ok((result, summary));
    }

    /** `add_video_to_session`: without a session, without content or
        without a name to persist under, nothing changes; otherwise the
        summary, written by the content processor's model in the engine's
        language, is appended as AppendAndReload states. */
    method AddVideoToSession(session: Option<Session>, url: string, allowTranscription: bool, w: World)
      returns (r: Result<(Session, string), EngineError>)
      requires Valid()
      modifies this, store
      ensures Valid()
      ensures session.None? ==> r == Err(NoActiveSession) && unchanged(this, store)
      ensures var c := GetVideoContent(url, allowTranscription, w.subtitles(url), w.audio(url));
        && (session.Some? && c.Err? ==> r == Err(ContentUnavailable(c.error)) && unchanged(this, store))
        && (session.Some? && c.Ok? && PersistNameOf(session.value).None? ==>
              r == Err(PersistNameMissing) && unchanged(this, store))
      ensures var c := GetVideoContent(url, allowTranscription, w.subtitles(url), w.audio(url));
        session.Some? && c.Ok? && PersistNameOf(session.value).Some? ==>
          var s := session.value;
          var name := PersistNameOf(s).value;
          var latest := Summarize(w.llm, w.llmReady, c.value.content, old(language), processorModel).summary;
          var docs := ExistingDocuments(s) + [c.value];
          var summaries := s.summaries + [SummaryRecord(url, latest)];
          var newChunks := w.split([c.value], old(chunkSize), old(chunkOverlap));
          var before := if name in old(store.index) then old(store.index)[name] else [];
          && store.dirs == old(store.dirs)
          && (name !in old(store.metadata) || old(store.metadata)[name].Corrupt? ==>
                r == Err(AppendFailed) && unchanged(this, store))
          && (name in old(store.metadata) && old(store.metadata)[name].Parsed? ==>
                var m := old(store.metadata)[name].meta;
                var combinedDocument := CombinedDocument(docs, s.videoUrls, url);
                var record := AppendMetadata(m, docs, CombineSummaries(s.summary, latest), combinedDocument,
                  summaries, s.chatHistory, old(language));
                && store.metadata == old(store.metadata)[name := Parsed(record)]
                && (newChunks != [] && w.storeIndexOk ==> store.index == old(store.index)[name := before + newChunks])
                && (newChunks == [] || !w.storeIndexOk ==> store.index == old(store.index))
                && (newChunks != [] && !w.storeIndexOk ==> r == Err(AppendFailed))
                && ((newChunks == [] || w.storeIndexOk) && !w.vectorOk ==> r == Err(ReloadFailed))
                && (r.Ok? <==> (newChunks == [] || w.storeIndexOk) && w.vectorOk)
                && (r.Err? ==> unchanged(this)))
      ensures r.Ok? ==>
          var c := GetVideoContent(url, allowTranscription, w.subtitles(url), w.audio(url));
          var s := session.value;
          var name := PersistNameOf(s).value;
          var m := old(store.metadata)[name].meta;
          var latest := Summarize(w.llm, w.llmReady, c.value.content, old(language), processorModel).summary;
          var docs := ExistingDocuments(s) + [c.value];
          var summaries := s.summaries + [SummaryRecord(url, latest)];
          var newChunks := w.split([c.value], old(chunkSize), old(chunkOverlap));
          var before := if name in old(store.index) then old(store.index)[name] else [];
          var combinedDocument := CombinedDocument(docs, s.videoUrls, url);
          var record := AppendMetadata(m, docs, CombineSummaries(s.summary, latest), combinedDocument,
            summaries, s.chatHistory, old(language));
          && c.Ok? && PersistNameOf(s).Some? && name in old(store.metadata) && old(store.metadata)[name].Parsed?
          && modelName == m.modelName && chunkSize == m.chunkSize && chunkOverlap == m.chunkOverlap
          && language == old(language)
          && r.value.1 == latest
          && r.value.0 == Session(Some(combinedDocument), docs, CombineSummaries(s.summary, latest),
               summaries, WithUrl(Sources(docs), url), s.chatHistory, before + newChunks,
               Some(record), name, old(language))
    {
      if session.None? {
        return Err(NoActiveSession);
      }
      var s := session.value;
      var content := GetVideoContent(url, allowTranscription, w.subtitles(url), w.audio(url));
      if content.Err? {
        return Err(ContentUnavailable(content.error));
      }
      var document := content.value;
      var summary, _ := GenerateSummary(w.llm, w.llmReady, document, language, processorModel);
      assert summary == Summarize(w.llm, w.llmReady, document.content, language, processorModel).summary;
      var persistName := PersistNameOf(s);
      if persistName.None? {
        return Err(PersistNameMissing);
      }
      r := AppendAndReload(s, persistName.value, document, summary, url, w);
    }
  }

  /** Every URL that is neither a watch URL nor a short URL is saved under
      the same session name, "unknown", so processing one replaces the
      session of another. */
  lemma UnrecognisedUrlsShareSession(u1: string, u2: string)
    requires !Contains(u1, WatchMarker) && !Contains(u1, ShortMarker)
    requires !Contains(u2, WatchMarker) && !Contains(u2, ShortMarker)
    ensures ExtractVideoId(u1) == ExtractVideoId(u2) == "unknown"
  {
  }
}
