/** How the content processor obtains a transcript and turns it into a
    summary: subtitles first, audio transcription as the fallback, then a
    direct or chunked request to the chat model, degrading to a partial
    summary and finally to a fixed message. The chat model, yt-dlp and
    Whisper are oracles: the model is a function from the request to its
    reply, None when the call raises. */
module Summarizer {
  import opened Wrappers
  import opened Text
  import opened Utf8
  import opened Transcript
  import opened Records

  /* ------------------------------------------------------ acquiring text */

  /** How the audio fallback ends: a Whisper transcript, a yt-dlp download
      that exits non-zero (with its stderr and stdout), or a Whisper call
      that raises. */
  datatype AudioOutcome =
    | Transcribed(raw: string)
    | DownloadFailed(stderr: string, stdout: string)
    | WhisperFailed

  /** Why no document could be produced. */
  datatype ContentError =
    | NoSubtitlesNoTranscription
    | AudioDownloadFailed(details: string)
    | TranscriptionFailed

  const MaxStoredBytes: nat := 500000

  /** The details quoted when the audio download fails: the stripped stderr,
      else the stripped stdout, cut to 500 characters, else "unknown error". */
  function DownloadDetails(stderr: string, stdout: string): (r: string)
    ensures 0 < |r| <= 500
    ensures Strip(stderr) != [] ==> StartsWith(Strip(stderr), r)
    ensures Strip(stderr) == [] && Strip(stdout) != [] ==> StartsWith(Strip(stdout), r)
    ensures Strip(stderr) == [] && Strip(stdout) == [] ==> r == "unknown error"
    ensures var m := if Strip(stderr) != [] then Strip(stderr) else Strip(stdout);
      m != [] ==> |r| == (if |m| <= 500 then |m| else 500)
  {
    var err := Strip(stderr);
    Snippet(if err != [] then err else Strip(stdout))
  }

  /** `error_msg[:500] if error_msg else "unknown error"`. */
  function Snippet(msg: string): (r: string)
    ensures 0 < |r| <= 500
    ensures msg != [] ==> StartsWith(msg, r) && |r| == (if |msg| <= 500 then |msg| else 500)
    ensures msg == [] ==> r == "unknown error"
  {
    if msg == [] then "unknown error"
    else if |msg| <= 500 then
      assert msg[..|msg|] == msg;
      msg
    else
      assert msg[..500][..500] == msg[..500];
      msg[..500]
  }

  /** `get_video_content`: `subtitles` is what `_get_subtitles` read from the
      first subtitle file yt-dlp wrote (None when there was none or the
      attempt raised); `audio` is consulted only when transcription is
      needed. */
  function GetVideoContent(url: string, allowTranscription: bool, subtitles: Option<string>, audio: AudioOutcome)
    : (r: Result<Document, ContentError>)
    ensures subtitles.Some? && Sanitize(subtitles.value, MaxStoredBytes) != [] ==>
      r == Ok(Document(Sanitize(subtitles.value, MaxStoredBytes), SourceMeta(url, "subtitles")))
    ensures r.Ok? ==> Source(r.value) == url && "type" in r.value.meta
    ensures r.Ok? ==> r.value.meta["type"] == "subtitles" || (r.value.meta["type"] == "transcription" && allowTranscription)
    ensures r.Ok? ==> Size(r.value.content) <= MaxStoredBytes
  {
    var content := if subtitles.Some? then Sanitize(subtitles.value, MaxStoredBytes) else [];
    if content != [] then Ok(Document(content, SourceMeta(url, "subtitles")))
    else if !allowTranscription then Err(NoSubtitlesNoTranscription)
    else match audio
      case Transcribed(raw) => Ok(Document(Sanitize(raw, MaxStoredBytes), SourceMeta(url, "transcription")))
      case DownloadFailed(stderr, stdout) => Err(AudioDownloadFailed(DownloadDetails(stderr, stdout)))
      case WhisperFailed => Err(TranscriptionFailed)
  }

  /** Usable subtitles decide the outcome: transcription is never attempted,
      so the audio outcome does not matter. */
  lemma SubtitlesWin(url: string, allow: bool, raw: string, a1: AudioOutcome, a2: AudioOutcome)
    requires Sanitize(raw, MaxStoredBytes) != []
    ensures GetVideoContent(url, allow, Some(raw), a1) == GetVideoContent(url, allow, Some(raw), a2)
    ensures GetVideoContent(url, allow, Some(raw), a1).Ok?
  {
  }

  /** Without usable subtitles and with transcription disallowed the call
      raises; with it allowed, a transcript always yields a "transcription"
      document, even an empty one. */
  lemma NoSubtitlesFallback(url: string, allow: bool, subtitles: Option<string>, audio: AudioOutcome)
    requires subtitles.None? || Sanitize(subtitles.value, MaxStoredBytes) == []
    ensures !allow ==> GetVideoContent(url, allow, subtitles, audio) == Err(NoSubtitlesNoTranscription)
    ensures allow && audio.Transcribed? ==>
      GetVideoContent(url, allow, subtitles, audio)
        == Ok(Document(Sanitize(audio.raw, MaxStoredBytes), SourceMeta(url, "transcription")))
  {
  }

  /* ------------------------------------------------------------ requests */

  /** The four prompts `generate_summary` can send, each with the text it
      carries and the normalised language ("zh" or "en"). */
  datatype Request =
    | DirectSummary(transcript: string, language: string)
    | ChunkSummary(chunk: string, language: string)
    | FinalSummary(combined: string, language: string)
    | PartialSummary(excerpt: string, language: string)

  /** The chat model: the reply content, or None when the call raises. */
  type ChatModel = Request -> Option<string>

  /** The per-model token ceilings of `generate_summary`. */
  const ModelLimits: map<string, nat> := map[
    "gpt-5-mini" := 100000,
    "gpt-4o-mini" := 100000,
    "gpt-4o" := 100000,
    "gpt-4-turbo" := 100000,
    "gpt-4" := 6000,
    "gpt-3.5-turbo" := 12000]

  /** `model_limits.get(model_name, 6000)`. */
  function ModelCeiling(model: string): (n: nat)
    ensures model in ModelLimits ==> n == ModelLimits[model]
    ensures model !in ModelLimits ==> n == 6000
    ensures n == 6000 || n == 12000 || n == 100000
  {
    if model in ModelLimits then ModelLimits[model] else 6000
  }

  const ChunkReplyCap: nat := 1500

  /** A chunk reply, stripped and cut to 1500 characters plus "...". */
  function CapChunkReply(reply: string): (r: string)
    ensures |r| <= ChunkReplyCap + 3
    ensures |Strip(reply)| <= ChunkReplyCap ==> r == Strip(reply)
    ensures |Strip(reply)| > ChunkReplyCap ==>
      StartsWith(r, Strip(reply)[..ChunkReplyCap]) && |r| == ChunkReplyCap + 3 && r[ChunkReplyCap..] == "..."
  {
    var s := Strip(reply);
    if |s| > ChunkReplyCap then s[..ChunkReplyCap] + "..." else s
  }

  const ChunkNote: string := "\n\n(Chunk summaries truncated for final synthesis due to length.)"
  const CombinedNote: string := "\n\n(Combined summary truncated to keep request small.)"
  const CombinedCap: nat := 10000

  /** The text sent for final synthesis: the chunk summaries joined by blank
      lines, cut to twice the ceiling when its estimate exceeds the ceiling,
      then cut to 10000 characters. */
  function CombineForSynthesis(summaries: seq<string>, maxTokens: nat): (r: string)
    ensures |r| <= CombinedCap + |CombinedNote|
    ensures var joined := Join(summaries, "\n\n");
      EstimateTokens(joined) <= maxTokens && |joined| <= CombinedCap ==> r == joined
  {
    var joined := Join(summaries, "\n\n");
    var first := if EstimateTokens(joined) > maxTokens then joined[..2 * maxTokens] + ChunkNote else joined;
    if |first| > CombinedCap then first[..CombinedCap] + CombinedNote else first
  }

  /** Whatever the chunk summaries, the synthesis request begins with their
      joined text, up to the first cut. */
  lemma CombineKeepsPrefix(summaries: seq<string>, maxTokens: nat)
    ensures var joined := Join(summaries, "\n\n");
      var r := CombineForSynthesis(summaries, maxTokens);
      var k := if |joined| < 2 * maxTokens then |joined| else 2 * maxTokens;
      var keep := if k < CombinedCap then k else CombinedCap;
      keep <= |r| && r[..keep] == joined[..keep]
  {
    var joined := Join(summaries, "\n\n");
    if EstimateTokens(joined) > maxTokens {
      var first := joined[..2 * maxTokens] + ChunkNote;
      assert first[..2 * maxTokens] == joined[..2 * maxTokens];
    }
  }

  /* --------------------------------------------------- the summary flow */

  /** The outcome of a run: the summary returned and the requests sent, in
      order. */
  datatype Outcome = Outcome(summary: string, sent: seq<Request>)

  /** The per-chunk loop: the capped replies when every call succeeds, None
      as soon as one raises; with the requests sent so far. */
  function ChunkReplies(llm: ChatModel, chunks: seq<string>, lang: string): (r: (Option<seq<string>>, seq<Request>))
    ensures r.0.Some? ==> |r.0.value| == |chunks| && |r.1| == |chunks|
    ensures r.0.None? ==> 0 < |r.1| <= |chunks|
  {
    if chunks == [] then (Some([]), [])
    else
      var req := ChunkSummary(chunks[0], lang);
      match llm(req)
      case None => (None, [req])
      case Some(c) =>
        var rest := ChunkReplies(llm, chunks[1..], lang);
        (if rest.0.None? then None else Some([CapChunkReply(c)] + rest.0.value), [req] + rest.1)
  }

  /** The k-th request carries the k-th chunk, and every reply kept is
      capped at 1500 characters plus "...". */
  lemma {:induction false} ChunkRepliesShape(llm: ChatModel, chunks: seq<string>, lang: string)
    ensures var r := ChunkReplies(llm, chunks, lang);
      && (forall k :: 0 <= k < |r.1| ==> r.1[k] == ChunkSummary(chunks[k], lang))
      && (r.0.Some? ==> forall k :: 0 <= k < |r.0.value| ==> |r.0.value[k]| <= ChunkReplyCap + 3)
  {
    if chunks != [] {
      var req := ChunkSummary(chunks[0], lang);
      if llm(req).Some? {
        ChunkRepliesShape(llm, chunks[1..], lang);
        var rest := ChunkReplies(llm, chunks[1..], lang);
        var r := ChunkReplies(llm, chunks, lang);
        assert r.1 == [req] + rest.1;
        forall k | 0 <= k < |r.1|
          ensures r.1[k] == ChunkSummary(chunks[k], lang)
        {
          if k > 0 { assert r.1[k] == rest.1[k - 1] && chunks[k] == chunks[1..][k - 1]; }
        }
        if r.0.Some? {
          var replies := r.0.value;
          assert replies == [CapChunkReply(llm(req).value)] + rest.0.value;
          forall k | 0 <= k < |replies|
            ensures |replies[k]| <= ChunkReplyCap + 3
          {
            if k > 0 { assert replies[k] == rest.0.value[k - 1]; }
          }
        }
      }
    }
  }

  /** The loop stops at the first failing call: when it gives up, the last
      request sent is the only one the model refused. */
  lemma {:induction false} ChunkRepliesStop(llm: ChatModel, chunks: seq<string>, lang: string)
    ensures var r := ChunkReplies(llm, chunks, lang);
      r.0.None? ==> llm(r.1[|r.1| - 1]).None? && forall k :: 0 <= k < |r.1| - 1 ==> llm(r.1[k]).Some?
  {
    if chunks != [] {
      var req := ChunkSummary(chunks[0], lang);
      if llm(req).Some? {
        ChunkRepliesStop(llm, chunks[1..], lang);
        var rest := ChunkReplies(llm, chunks[1..], lang);
        var r := ChunkReplies(llm, chunks, lang);
        if r.0.None? {
          assert r.1 == [req] + rest.1;
          assert r.1[|r.1| - 1] == rest.1[|rest.1| - 1];
          forall k | 0 <= k < |r.1| - 1
            ensures llm(r.1[k]).Some?
          {
            if k > 0 { assert r.1[k] == rest.1[k - 1]; }
          }
        }
      }
    }
  }

  /** When the loop completes, every call succeeded and the k-th reply kept
      is the k-th reply received, stripped and capped. */
  lemma {:induction false} ChunkRepliesKept(llm: ChatModel, chunks: seq<string>, lang: string)
    ensures var r := ChunkReplies(llm, chunks, lang);
      r.0.Some? ==> forall k :: 0 <= k < |chunks| ==>
        llm(r.1[k]).Some? && r.0.value[k] == CapChunkReply(llm(r.1[k]).value)
  {
    if chunks != [] {
      var req := ChunkSummary(chunks[0], lang);
      if llm(req).Some? {
        ChunkRepliesKept(llm, chunks[1..], lang);
        var rest := ChunkReplies(llm, chunks[1..], lang);
        var r := ChunkReplies(llm, chunks, lang);
        if r.0.Some? {
          assert r.1 == [req] + rest.1;
          assert r.0.value == [CapChunkReply(llm(req).value)] + rest.0.value;
          forall k | 0 <= k < |chunks|
            ensures llm(r.1[k]).Some? && r.0.value[k] == CapChunkReply(llm(r.1[k]).value)
          {
            if k > 0 { assert r.1[k] == rest.1[k - 1] && r.0.value[k] == rest.0.value[k - 1]; }
          }
        }
      }
    }
  }

  /** The main attempt on the (possibly truncated) text: one direct request
      when the estimate is within the ceiling, otherwise one request per
      chunk and a final synthesis request. */
  function FullAttempt(llm: ChatModel, text: string, lang: string, ceiling: nat): (Option<string>, seq<Request>) {
    if EstimateTokens(text) <= ceiling then
      var req := DirectSummary(text, lang);
      (llm(req), [req])
    else
      var replies := ChunkReplies(llm, Chunks(text, ceiling), lang);
      if replies.0.None? then (None, replies.1)
      else
        var req := FinalSummary(CombineForSynthesis(replies.0.value, ceiling), lang);
        (llm(req), replies.1 + [req])
  }

  const EmptyTranscriptMessage: string := "\U{26A0}\U{FE0F} Transcript contains no usable text / 转录内容为空"
  const UnableMessage: string := "\U{274C} Unable to generate summary due to text length limitations / 由于文本长度限制无法生成摘要"
  const PartialPrefix: string := "\U{26A0}\U{FE0F} Partial Summary (video too long) / 部分摘要（视频过长）:\n\n"
  const TruncationNotice: string := "\n\n\U{26A0}\U{FE0F} Note: Transcript truncated to first ~0.5MB to avoid API limits."
  const MaxRequestBytes: nat := 500000
  const PartialChars: nat := 2000

  /** The text the main attempt works on: the cleaned transcript, cut to
      500000 UTF-8 bytes. */
  function RequestText(cleaned: string): (t: string)
    ensures Size(t) <= MaxRequestBytes
    ensures StartsWithChars(cleaned, t)
    ensures Size(cleaned) <= MaxRequestBytes ==> t == cleaned
  {
    if Size(cleaned) > MaxRequestBytes then TruncateToBytes(cleaned, MaxRequestBytes) else cleaned
  }

  /** The notice appended to every model-written summary. */
  function Notice(cleaned: string): string {
    if Size(cleaned) > MaxRequestBytes then TruncationNotice else ""
  }

  /** `cleaned_text[:2000]`. */
  function Excerpt(cleaned: string): (e: string)
    ensures |e| <= PartialChars && StartsWith(cleaned, e)
    ensures |e| == (if |cleaned| <= PartialChars then |cleaned| else PartialChars)
  {
    if |cleaned| <= PartialChars then cleaned else cleaned[..PartialChars]
  }

  /** `generate_summary`. `llmReady` is false when constructing the chat
      client raises; the handler then fails too, because `cleaned_text` is
      not yet bound, and the fixed message is returned. */
  function Summarize(llm: ChatModel, llmReady: bool, content: string, language: string, model: string): Outcome {
    if !llmReady then Outcome(UnableMessage, [])
    else
      var cleaned := Clean(content);
      if cleaned == [] then Outcome(EmptyTranscriptMessage, [])
      else
        var lang := NormalizeLanguage(language, "en");
        var full := FullAttempt(llm, RequestText(cleaned), lang, ModelCeiling(model));
        if full.0.Some? then Outcome(full.0.value + Notice(cleaned), full.1)
        else
          var req := PartialSummary(Excerpt(cleaned), lang);
          match llm(req)
          case Some(c) => Outcome(PartialPrefix + c + Notice(cleaned), full.1 + [req])
          case None => Outcome(UnableMessage, full.1 + [req])
  }

  /* ------------------------------------------------------------ the loop */

  /** The outcome of the chunk loop once the first i chunks have been
      answered with the capped replies `done`. */
  function ResumeReplies(done: seq<string>, sentSoFar: seq<Request>, rest: (Option<seq<string>>, seq<Request>))
    : (Option<seq<string>>, seq<Request>)
  {
    (if rest.0.None? then None else Some(done + rest.0.value), sentSoFar + rest.1)
  }

  lemma ChunkRepliesStep(llm: ChatModel, chunks: seq<string>, i: nat, lang: string)
    requires i < |chunks|
    ensures var req := ChunkSummary(chunks[i], lang);
      ChunkReplies(llm, chunks[i..], lang) ==
        match llm(req)
        case None => (None, [req])
        case Some(c) => ResumeReplies([CapChunkReply(c)], [req], ChunkReplies(llm, chunks[i + 1..], lang))
  {
    assert chunks[i..][0] == chunks[i] && chunks[i..][1..] == chunks[i + 1..];
  }

  lemma ResumeAssoc(a: seq<string>, sa: seq<Request>, b: seq<string>, sb: seq<Request>, rest: (Option<seq<string>>, seq<Request>))
    ensures ResumeReplies(a, sa, ResumeReplies(b, sb, rest)) == ResumeReplies(a + b, sa + sb, rest)
  {
    if rest.0.Some? {
      assert a + (b + rest.0.value) == (a + b) + rest.0.value;
    }
    assert sa + (sb + rest.1) == (sa + sb) + rest.1;
  }

  /** The chunk loop of `generate_summary`: each chunk is sent in turn and
      its capped reply appended; the first failing call ends the loop. */
  method SummarizeChunks(llm: ChatModel, chunks: seq<string>, lang: string) returns (replies: Option<seq<string>>, sent: seq<Request>)
    ensures (replies, sent) == ChunkReplies(llm, chunks, lang)
  {
    var done: seq<string> := [];
    sent := [];
    var i := 0;
    assert chunks[0..] == chunks;
    var whole := ChunkReplies(llm, chunks, lang);
    assert whole.1 == [] + whole.1;
    assert whole.0.Some? ==> whole.0.value == [] + whole.0.value;
    while i < |chunks|
      invariant 0 <= i <= |chunks|
      invariant ChunkReplies(llm, chunks, lang) == ResumeReplies(done, sent, ChunkReplies(llm, chunks[i..], lang))
    {
      var req := ChunkSummary(chunks[i], lang);
      ChunkRepliesStep(llm, chunks, i, lang);
      var reply := llm(req);
      if reply.None? {
        return None, sent + [req];
      }
      ResumeAssoc(done, sent, [CapChunkReply(reply.value)], [req], ChunkReplies(llm, chunks[i + 1..], lang));
      done := done + [CapChunkReply(reply.value)];
      sent := sent + [req];
      i := i + 1;
    }
    assert chunks[i..] == [];
    assert done + [] == done && sent + [] == sent;
    replies := Some(done);
  }

  /** `generate_summary` as the sequence of steps the source takes. */
  method GenerateSummary(llm: ChatModel, llmReady: bool, document: Document, language: string, model: string)
    returns (summary: string, sent: seq<Request>)
    ensures Outcome(summary, sent) == Summarize(llm, llmReady, document.content, language, model)
  {
    sent := [];
    if !llmReady {
      return UnableMessage, [];
    }
    var cleaned := CleanSubtitleText(document.content);
    if cleaned == [] {
      return EmptyTranscriptMessage, [];
    }
    var text := cleaned;
    var notice := "";
    if Size(cleaned) > MaxRequestBytes {
      text := TruncateToBytes(cleaned, MaxRequestBytes);
      notice := TruncationNotice;
    }
    var ceiling := ModelCeiling(model);
    var lang := NormalizeLanguage(language, "en");
    var reply: Option<string>;
    if EstimateTokens(text) <= ceiling {
      var req := DirectSummary(text, lang);
      reply := llm(req);
      sent := [req];
    } else {
      var chunks := ChunkTextForSummary(text, ceiling);
      var replies;
      replies, sent := SummarizeChunks(llm, chunks, lang);
      if replies.Some? {
        var req := FinalSummary(CombineForSynthesis(replies.value, ceiling), lang);
        reply := llm(req);
        sent := sent + [req];
      } else {
        reply := None;
      }
    }
    if reply.Some? {
      return reply.value + notice, sent;
    }
    var req := PartialSummary(Excerpt(cleaned), lang);
    sent := sent + [req];
    var partial := llm(req);
    if partial.Some? {
      summary := PartialPrefix + partial.value + notice;
    } else {
      summary := UnableMessage;
    }
  }

  /* ----------------------------------------------------------- properties */

  /** The three tiers: with a transcript to work on, a model that answers the
      main attempt gives its reply plus the notice; failing that, a model
      that answers the retry gives the partial prefix, its reply and the
      notice; failing both, the fixed message. */
  lemma SummaryTiers(llm: ChatModel, content: string, language: string, model: string)
    requires Clean(content) != []
    ensures var cleaned := Clean(content);
      var lang := NormalizeLanguage(language, "en");
      var full := FullAttempt(llm, RequestText(cleaned), lang, ModelCeiling(model));
      var o := Summarize(llm, true, content, language, model);
      && (full.0.Some? ==> o.summary == full.0.value + Notice(cleaned))
      && (full.0.None? && llm(PartialSummary(Excerpt(cleaned), lang)).Some? ==>
            o.summary == PartialPrefix + llm(PartialSummary(Excerpt(cleaned), lang)).value + Notice(cleaned))
      && (full.0.None? && llm(PartialSummary(Excerpt(cleaned), lang)).None? ==> o.summary == UnableMessage)
  {
  }

  /** Nothing is sent, and a fixed text returned, when the client cannot be
      built or the cleaned transcript is empty. */
  lemma NoRequestWithoutText(llm: ChatModel, llmReady: bool, content: string, language: string, model: string)
    requires !llmReady || Clean(content) == []
    ensures Summarize(llm, llmReady, content, language, model).sent == []
    ensures !llmReady ==> Summarize(llm, llmReady, content, language, model).summary == UnableMessage
    ensures llmReady ==> Summarize(llm, llmReady, content, language, model).summary == EmptyTranscriptMessage
  {
  }

  /** The first request is the direct one exactly when the estimate of the
      (truncated) text is within the model's ceiling. */
  lemma DirectIffWithinCeiling(llm: ChatModel, content: string, language: string, model: string)
    requires Clean(content) != []
    ensures var o := Summarize(llm, true, content, language, model);
      |o.sent| > 0 &&
      (o.sent[0].DirectSummary? <==> EstimateTokens(RequestText(Clean(content))) <= ModelCeiling(model))
  {
    var text := RequestText(Clean(content));
    var ceiling := ModelCeiling(model);
    var lang := NormalizeLanguage(language, "en");
    var full := FullAttempt(llm, text, lang, ceiling);
    SummarizeSent(llm, content, language, model);
    if EstimateTokens(text) > ceiling {
      var replies := ChunkReplies(llm, Chunks(text, ceiling), lang);
      ChunkRepliesShape(llm, Chunks(text, ceiling), lang);
      assert |full.1| > 0 ==> !full.1[0].DirectSummary?;
    }
  }

  /** The limit each kind of request respects: a direct transcript fits in
      500000 bytes and in the ceiling, a chunk in MaxChars(ceiling)
      characters, the synthesis text in 10000 characters plus a note, the
      retry excerpt in 2000 characters. */
  predicate WithinLimits(req: Request, ceiling: nat) {
    match req
    case DirectSummary(t, _) => Size(t) <= MaxRequestBytes && EstimateTokens(t) <= ceiling
    case ChunkSummary(c, _) => |c| <= MaxChars(ceiling)
    case FinalSummary(c, _) => |c| <= CombinedCap + |CombinedNote|
    case PartialSummary(e, _) => |e| <= PartialChars
  }

  /** The requests of the main attempt respect their limits, and none of
      them is the retry. */
  lemma FullAttemptBounded(llm: ChatModel, text: string, lang: string, ceiling: nat)
    requires Size(text) <= MaxRequestBytes
    ensures var sent := FullAttempt(llm, text, lang, ceiling).1;
      forall k :: 0 <= k < |sent| ==> WithinLimits(sent[k], ceiling) && !sent[k].PartialSummary?
  {
    if EstimateTokens(text) > ceiling {
      ChunksBounded(text, ceiling);
      var chunks := Chunks(text, ceiling);
      var replies := ChunkReplies(llm, chunks, lang);
      ChunkRepliesShape(llm, chunks, lang);
      var sent := FullAttempt(llm, text, lang, ceiling).1;
      if replies.0.Some? {
        var req := FinalSummary(CombineForSynthesis(replies.0.value, ceiling), lang);
        assert sent == replies.1 + [req];
        assert forall k :: 0 <= k < |sent| ==> sent[k] == if k < |replies.1| then replies.1[k] else req;
      }
    }
  }

  /** The requests of a run with text to summarise: those of the main
      attempt, then the retry when the main attempt fails. */
  lemma SummarizeSent(llm: ChatModel, content: string, language: string, model: string)
    requires Clean(content) != []
    ensures var lang := NormalizeLanguage(language, "en");
      var full := FullAttempt(llm, RequestText(Clean(content)), lang, ModelCeiling(model));
      Summarize(llm, true, content, language, model).sent
        == if full.0.Some? then full.1 else full.1 + [PartialSummary(Excerpt(Clean(content)), lang)]
  {
  }

  /** Every request of a run respects its limit, and the retry, if any, is
      the last request. */
  lemma RequestsBounded(llm: ChatModel, llmReady: bool, content: string, language: string, model: string)
    ensures var o := Summarize(llm, llmReady, content, language, model);
      forall k :: 0 <= k < |o.sent| ==>
        WithinLimits(o.sent[k], ModelCeiling(model)) && (o.sent[k].PartialSummary? ==> k == |o.sent| - 1)
  {
    if llmReady && Clean(content) != [] {
      var cleaned := Clean(content);
      var lang := NormalizeLanguage(language, "en");
      var ceiling := ModelCeiling(model);
      var full := FullAttempt(llm, RequestText(cleaned), lang, ceiling);
      FullAttemptBounded(llm, RequestText(cleaned), lang, ceiling);
      SummarizeSent(llm, content, language, model);
      var sent := Summarize(llm, llmReady, content, language, model).sent;
      if full.0.None? {
        var req := PartialSummary(Excerpt(cleaned), lang);
        assert forall k :: 0 <= k < |sent| ==> sent[k] == if k < |full.1| then full.1[k] else req;
      }
    }
  }
}
