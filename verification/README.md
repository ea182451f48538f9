# YouTube RAG system — a Dafny model of its core

The YouTube RAG system turns a YouTube video into a question-answering
session. It obtains the transcript: the video's subtitles first, and an
audio transcription through yt-dlp and Whisper as the fallback. It cleans
the subtitle markup and summarises the text with a chat model, either
directly or chunk by chunk. It stores each session (metadata.json plus a
Chroma vector index) under a session name. Sessions can later be loaded,
listed, deleted and extended with further videos. A playlist script feeds
a whole playlist into one session.

This project models in Dafny:

- the transcript text pipeline of `ContentProcessor`;
- the session store `SessionManager`;
- the session assembly of the `YouTubeRAG` engine;
- the file and validation utilities;
- the playlist ingester.

It then proves what these components promise.

The outside world is represented by values:

- The chat model is a function from a request to `Option<string>`, where `None` means the call raised.
- The results yt-dlp and Whisper produce for a URL are parameters.
- The text splitter is a function.
- Whether each embedding or vector-store call succeeds is a boolean.
- The storage directory is a set of session names with two maps: name to metadata.json, and name to the chunks in the index.
- The clock and uuid4 are parameters.

Modules, one per file:

- `Wrappers`: Option and Result.
- `Text`: Python's `strip`, `splitlines`, `lower`, `in`, `split`, `join` and string ordering.
- `Utf8`: UTF-8 encoding (RFC 3629, section 3) and decoding with `errors='ignore'`.
- `Records`: documents, metadata records and chat turns.
- `Transcript`: the token estimate, the subtitle cleaner, storage sanitising and the summary chunker.
- `Summarizer`: content acquisition and `generate_summary`.
- `Sessions`: the `SessionManager` class and the record builders and loaders it uses.
- `Engine`: the `YouTubeRag` class.
- `FileUtils`, `Validators`, `PlaylistIngest`.

Methods that mirror the source's loops are proved equal to the
specification functions: `CleanSubtitleText`, `ChunkTextForSummary`,
`SummarizeChunks`, `GenerateSummary`, `FormatHistory`, `NormalizeEntries`
and `IngestAll`. The lemmas then state the properties of those functions.

The state-changing methods of `SessionManager` and `YouTubeRag` state their
whole new state instead. Each store map is given as an update of its old
value, and the engine's settings are given too. Every error case says
which of the world's outcomes causes it and what it leaves behind.

## Model

| member | source | states |
|---|---|---|
| Transcript.EstimateTokens | src/youtube_rag_system/core/content_processor.py:310-312 | the estimate n satisfies 3n <= len(text) < 3n + 3, i.e. it is len(text) // 3 |
| Transcript.EstimateMonotone | src/youtube_rag_system/core/content_processor.py:310-312 | appending text never lowers the estimate |
| Transcript.StripTags | src/youtube_rag_system/core/content_processor.py:369 | removing `<...>` tags never lengthens a line and introduces no character that was not in it |
| Transcript.StripTagsTagFree | src/youtube_rag_system/core/content_processor.py:369 | after the substitution every `<` is either directly followed by `>` (the empty `<>` the pattern does not match) or by no `>` at all, so no tag is left |
| Transcript.StripTagsWithoutGt | src/youtube_rag_system/core/content_processor.py:369 | a line without `>` is left unchanged by the substitution |
| Transcript.StripTagsPlain | src/youtube_rag_system/core/content_processor.py:369 | text without `<` passes through the substitution unchanged, whatever follows it |
| Transcript.StripTagsTag | src/youtube_rag_system/core/content_processor.py:369 | a tag `<t>` whose body t is non-empty and holds no `>` is removed whole, and the substitution goes on after it |
| Transcript.StripTagsPeel | src/youtube_rag_system/core/content_processor.py:369 | on `x<t>u`, with x free of `<` and t a non-empty `>`-free tag body, the substitution keeps x, drops the tag and continues on u, so text around tags survives on lines that contain `>` |
| Transcript.CleanLine | src/youtube_rag_system/core/content_processor.py:357-372 | a kept line is non-empty, has no surrounding whitespace, holds no tag and no line break |
| Transcript.CleanLineDrops | src/youtube_rag_system/core/content_processor.py:358-366 | blank lines, lines starting with WEBVTT or NOTE, cue-timing lines containing `-->`, and cue numbers of 1 to 4 digits are dropped |
| Transcript.CleanLineKeepsProse | src/youtube_rag_system/core/content_processor.py:357-372 | a line that is neither dropped nor contains `>` is kept, only stripped |
| Transcript.CleanedLinesClean | src/youtube_rag_system/core/content_processor.py:356-371 | every kept line is a clean line: non-empty, stripped and tag-free |
| Transcript.CleanedLinesAppend | src/youtube_rag_system/core/content_processor.py:357-371 | cleaning works line by line: it distributes over concatenation of the input lines, so input order is kept |
| Transcript.CleanLines | src/youtube_rag_system/core/content_processor.py:351-373 | splitting the cleaned text into lines gives exactly the kept input lines, in input order, each one clean |
| Transcript.CleanProseText | src/youtube_rag_system/core/content_processor.py:351-373 | text made of prose lines (stripped, non-empty, no markup, no cue markers) comes back unchanged |
| Transcript.CleanTwiceDiffers | src/youtube_rag_system/core/content_processor.py:362-370 | cleaning is not idempotent: for every cue number d (one to four ASCII digits), `<b>d</b>` cleans to d, and d then cleans to the empty text, because tags are removed after the cue-number test |
| Transcript.CleanSubtitleText | src/youtube_rag_system/core/content_processor.py:351-373 | the loop that appends kept lines returns exactly the cleaned text; empty input is returned as it is |
| Transcript.Sanitize | src/youtube_rag_system/core/content_processor.py:375-389 | "" for empty input or input that cleans to nothing; the cleaned text when its UTF-8 size is within the budget; otherwise a character prefix of it within the budget that misses the budget by less than 4 bytes, because only a partial trailing character is dropped |
| Utf8.DecodeTruncated | src/youtube_rag_system/core/content_processor.py:387-388 | decoding the first n bytes of an encoding with errors='ignore' gives the longest character prefix whose encoding fits in n bytes |
| Utf8.DecodeEncode | src/youtube_rag_system/core/content_processor.py:387-388 | decoding an encoding with errors='ignore' returns the text unchanged |
| Utf8.FitLengthProperties | src/youtube_rag_system/core/content_processor.py:387-388 | the kept prefix fits the budget, one more character would not fit, and less than 4 bytes of budget are left unused |
| Utf8.TruncateToBytes | src/youtube_rag_system/core/content_processor.py:162-166 | the result is a character prefix within the byte budget, the whole text when it fits, and otherwise the longest prefix that fits |
| Transcript.MaxChars | src/youtube_rag_system/core/content_processor.py:322-323 | the chunk width is max(1000, ⌊3·ceiling/4⌋): at least 1000, and equal to ⌊3·ceiling/4⌋ exactly when that is at least 1000 |
| Transcript.HardSplit | src/youtube_rag_system/core/content_processor.py:336-339 | an over-long line becomes consecutive non-empty slices of at most max_chars characters that concatenate back to the line |
| Transcript.ShortTextIsOneChunk | src/youtube_rag_system/core/content_processor.py:316-319 | a text whose estimate is within the ceiling is returned as the single chunk [text] |
| Transcript.ChunksBounded | src/youtube_rag_system/core/content_processor.py:321-349 | for a text over the ceiling every chunk is at most max_chars characters long |
| Transcript.ChunksKeepText | src/youtube_rag_system/core/content_processor.py:325-349 | deleting the newlines from the chunks, in order, gives the concatenation of the input lines: nothing is lost or reordered |
| Transcript.AppendSlices | src/youtube_rag_system/core/content_processor.py:337-338 | the slicing loop appends exactly the hard-split pieces of the line |
| Transcript.ChunkLines | src/youtube_rag_system/core/content_processor.py:325-349 | the accumulating loop over the lines computes the chunk list of the specification |
| Transcript.ChunkTextForSummary | src/youtube_rag_system/core/content_processor.py:314-349 | `_chunk_text_for_summary` returns exactly the chunks of the specification |
| Summarizer.DownloadDetails | src/youtube_rag_system/core/content_processor.py:125-128 | the error snippet is a prefix of the stripped stderr, else of the stripped stdout, of length min(length, 500), else "unknown error"; it is never empty |
| Summarizer.Snippet | src/youtube_rag_system/core/content_processor.py:128 | a non-empty message gives its prefix of min(length, 500) characters; an empty one gives "unknown error" |
| Summarizer.GetVideoContent | src/youtube_rag_system/core/content_processor.py:29-51 | a document carries the URL as source and type "subtitles", or type "transcription" only when transcription is allowed, with content within 500000 UTF-8 bytes; subtitles that sanitise to non-empty text win |
| Summarizer.SubtitlesWin | src/youtube_rag_system/core/content_processor.py:36-41 | with usable subtitles the audio outcome is irrelevant and the call succeeds |
| Summarizer.NoSubtitlesFallback | src/youtube_rag_system/core/content_processor.py:43-51 | without usable subtitles, a disallowed transcription is an error and a Whisper transcript becomes a "transcription" document of the sanitised text |
| Summarizer.ModelCeiling | src/youtube_rag_system/core/content_processor.py:171-180 | the token ceiling is the table value for a known model and 6000 otherwise; it is always 6000, 12000 or 100000 |
| Summarizer.CapChunkReply | src/youtube_rag_system/core/content_processor.py:235-239 | a chunk reply is stripped; when longer than 1500 characters it becomes its first 1500 characters followed by "...", 1503 characters in all |
| Summarizer.CombineForSynthesis | src/youtube_rag_system/core/content_processor.py:242-250 | the synthesis text is at most 10000 characters plus the fixed note, and it is the joined chunk summaries themselves when these are within both limits |
| Summarizer.CombineKeepsPrefix | src/youtube_rag_system/core/content_processor.py:242-250 | the synthesis text begins with the joined chunk summaries up to the first cut (2·ceiling or 10000 characters) |
| Summarizer.ChunkReplies | src/youtube_rag_system/core/content_processor.py:230-240 | the loop stops at the first failed call: on success one reply and one request per chunk, otherwise at least one and at most one request per chunk |
| Summarizer.ChunkRepliesShape | src/youtube_rag_system/core/content_processor.py:230-240 | the k-th request sent is the chunk request for the k-th chunk, and every kept reply is at most 1500 characters plus "..." |
| Summarizer.ChunkRepliesStop | src/youtube_rag_system/core/content_processor.py:232-240 | when the loop gives up, the last request sent is the one the model refused and every earlier one was answered |
| Summarizer.ChunkRepliesKept | src/youtube_rag_system/core/content_processor.py:232-240 | when the loop completes, every call was answered and the k-th kept reply is the k-th answer, stripped and capped |
| Summarizer.RequestText | src/youtube_rag_system/core/content_processor.py:158-166 | the text sent fits in 500000 UTF-8 bytes, is a character prefix of the cleaned text, and is the cleaned text when that fits |
| Summarizer.Excerpt | src/youtube_rag_system/core/content_processor.py:279 | the retry text is the prefix of the cleaned text of exactly min(length, 2000) characters |
| Summarizer.SummarizeChunks | src/youtube_rag_system/core/content_processor.py:230-240 | the per-chunk loop returns exactly the replies and requests of the specification |
| Summarizer.GenerateSummary | src/youtube_rag_system/core/content_processor.py:142-308 | `generate_summary` returns the summary, and sends the requests, of the specification function Summarize |
| Summarizer.SummaryTiers | src/youtube_rag_system/core/content_processor.py:182-308 | for non-empty cleaned text: the full attempt's reply plus the truncation notice; else the partial prefix, the retry reply and the notice; else the fixed failure message. The notice is present exactly when the cleaned text exceeds 500000 bytes |
| Summarizer.NoRequestWithoutText | src/youtube_rag_system/core/content_processor.py:146-156 | nothing is sent when the client cannot be built (fixed failure message) or the cleaned text is empty (fixed warning) |
| Summarizer.DirectIffWithinCeiling | src/youtube_rag_system/core/content_processor.py:171-213 | the first request is the direct one exactly when the estimate of the text sent is within the model's ceiling |
| Summarizer.FullAttemptBounded | src/youtube_rag_system/core/content_processor.py:190-271 | in the main attempt a direct transcript fits in 500000 bytes and the ceiling, each chunk in max_chars, the synthesis text in 10000 characters plus a note, and no retry is sent |
| Summarizer.RequestsBounded | src/youtube_rag_system/core/content_processor.py:142-308 | every request of a run respects its limit, and the 2000-character retry, if any, is the last request |
| Sessions.SavedDocuments | src/youtube_rag_system/core/session_manager.py:56 | the saved documents are `documents`, or `[document]` when that list is empty; never empty |
| Sessions.NewMetadata | src/youtube_rag_system/core/session_manager.py:52-82 | the record written by save_session: video_urls aligned with the saved documents, video_url their first source, the language normalised to zh/en with "zh" as default, and every other field from the arguments |
| Sessions.AppendMetadata | src/youtube_rag_system/core/session_manager.py:251-268 | the record rewritten by append_to_session: documents, content, type, summaries, history and language replaced, video_urls aligned with the documents, video_url moved only when there are documents, creation time and model settings untouched |
| Sessions.LoadedDocuments | src/youtube_rag_system/core/session_manager.py:115-134 | the stored documents in order, or one legacy document when there are none |
| Sessions.LoadView | src/youtube_rag_system/core/session_manager.py:115-151 | the loaded session: documents, the first as `document`, the stored video_urls (or [video_url]), summary, summaries, history and the index chunks |
| Sessions.LoadFrom | src/youtube_rag_system/core/session_manager.py:99-155 | a load succeeds exactly when the directory and a readable metadata.json exist and the vector store opens; it then returns that record and the session's index |
| Sessions.SaveThenLoadView | src/youtube_rag_system/core/session_manager.py:52-82 | a saved record loads back with its documents in order, the first as `document`, video_urls aligned with them and the summaries and history as saved |
| Sessions.LoadKeepsAlignment | src/youtube_rag_system/core/session_manager.py:115-151 | an aligned record with documents loads with video_urls aligned to the loaded documents |
| Sessions.EmptyAppendBreaksAlignment | src/youtube_rag_system/core/session_manager.py:259-268 | appending an empty document list stores empty video_urls; the next load rebuilds one legacy document, so the two lists no longer align |
| Sessions.LegacyLoad | src/youtube_rag_system/core/session_manager.py:124-134 | a record without documents loads as one document built from document_content, video_url and content_type |
| Sessions.InsertNewestFirst | src/youtube_rag_system/core/session_manager.py:182 | inserting into the listing keeps every entry and adds exactly the new one |
| Sessions.InsertKeepsNewestFirst | src/youtube_rag_system/core/session_manager.py:182 | inserting into a list sorted by created_at descending keeps it sorted |
| Sessions.SortNewestFirst | src/youtube_rag_system/core/session_manager.py:182 | sorting is a permutation of the listing |
| Sessions.SortIsNewestFirst | src/youtube_rag_system/core/session_manager.py:182 | the sorted listing is in created_at order, newest first |
| Sessions.SortKeepsEntries | src/youtube_rag_system/core/session_manager.py:182 | sorting keeps the length and exactly the same entries |
| Sessions.SessionManager.constructor | src/youtube_rag_system/core/session_manager.py:21-24 | the store starts from the given directories, metadata files and indexes |
| Sessions.SessionManager.Save | src/youtube_rag_system/core/session_manager.py:26-97 | the session named persist_name, or a fresh id, is replaced wholesale: directory created, new record written, then the index built; a failed index build returns None and leaves the record without an index |
| Sessions.SessionManager.Load | src/youtube_rag_system/core/session_manager.py:99-155 | returns LoadFrom of the current store and changes nothing |
| Sessions.SessionManager.List | src/youtube_rag_system/core/session_manager.py:157-184 | one entry per session with a metadata.json, newest first, each listing that session's record; [] when any metadata.json cannot be read |
| Sessions.SessionManager.Delete | src/youtube_rag_system/core/session_manager.py:186-203 | true exactly when the session existed; only that name leaves the directories, the metadata and the index |
| Sessions.SessionManager.UpdateChatHistory | src/youtube_rag_system/core/session_manager.py:205-227 | replaces chat_history of a readable record and nothing else; false and no change when the metadata is missing or unreadable |
| Sessions.SessionManager.Append | src/youtube_rag_system/core/session_manager.py:229-296 | the record is rewritten first, then only the new documents' chunks are added to the index; a failed embedding returns false with the record already rewritten; a missing or unreadable record changes nothing |
| Sessions.FailedSaveStillLoads | src/youtube_rag_system/core/session_manager.py:84-97 | a save whose index build fails still leaves a session that loads, with an empty index |
| Sessions.SaveThenLoad | src/youtube_rag_system/core/session_manager.py:26-155 | a successful save followed by a load returns the saved documents, aligned video_urls and the chunks just built |
| Engine.TurnMessages | src/youtube_rag_system/core/rag_engine.py:143-147 | a turn gives one human message exactly when its user text is non-empty and not a system turn, and one AI message exactly when its reply is non-empty; with both, the human message comes first |
| Engine.HistoryMessages | src/youtube_rag_system/core/rag_engine.py:138-148 | at most two messages per turn, none empty, and no human message from a system turn |
| Engine.HistoryEmits | src/youtube_rag_system/core/rag_engine.py:142-147 | every non-empty, non-system user text of the history appears as a human message, and every non-empty reply as an AI message |
| Engine.HistoryMessagesAppend | src/youtube_rag_system/core/rag_engine.py:142-147 | the conversion works turn by turn and keeps the order of the history |
| Engine.SystemTurnsDropUser | src/youtube_rag_system/core/rag_engine.py:144-145 | a "System"/"system" turn contributes only its reply |
| Engine.YouTubeRag.FormatHistory | src/youtube_rag_system/core/rag_engine.py:138-148 | the loop returns exactly the messages of the history |
| Engine.YouTubeRag.constructor | src/youtube_rag_system/core/rag_engine.py:22-37 | the engine keeps the model settings, fixes the content processor's model name to the given one, and normalises its language to zh/en with "zh" as default |
| Text.NormalizeLanguage | src/youtube_rag_system/core/rag_engine.py:29-31 | the language is "zh" exactly when the lower-cased value (or the default for an empty one) is "zh", and "en" otherwise |
| Engine.ExistingDocuments | src/youtube_rag_system/core/rag_engine.py:239-244 | the session's documents, or its single document when the list is empty, or nothing |
| Engine.CombineSummaries | src/youtube_rag_system/core/rag_engine.py:250-253 | the new summary alone when there is no previous one; otherwise the previous summary, "\n\n", 50 '-', "\n\n" and the new summary, character by character |
| Engine.DividerShape | src/youtube_rag_system/core/rag_engine.py:252 | the divider is 54 characters: a blank line, 50 '-', a blank line |
| Engine.CombinedContentAppend | src/youtube_rag_system/core/rag_engine.py:255 | adding a document extends the combined content by a blank line and its text |
| Engine.CombinedDocument | src/youtube_rag_system/core/rag_engine.py:255-263 | the combined document holds the joined contents, type "combined", and as source the first existing URL or else the new URL |
| Engine.PersistNameOf | src/youtube_rag_system/core/rag_engine.py:265-273 | the session name, else the metadata's persist_name; missing exactly when both are empty |
| Engine.WithUrl | src/youtube_rag_system/core/rag_engine.py:302-306 | the returned video_urls contain the new URL, keep the reloaded list as prefix and add the URL only when missing |
| Engine.FromLoaded | src/youtube_rag_system/core/rag_engine.py:203-220 | the engine's session carries the loaded documents, URLs and metadata under the given name |
| Engine.ReportLanguage | src/youtube_rag_system/core/rag_engine.py:156-167 | the report language is the explicit argument, else the stored one, else the engine's, normalised to zh/en |
| Engine.AnalysisLanguage | src/youtube_rag_system/core/rag_engine.py:150-167 | no session data and a missing document are errors; a session with a document gives the report language of the explicit argument, the stored language and the engine's, which is zh or en |
| Engine.YouTubeRag.LoadSession | src/youtube_rag_system/core/rag_engine.py:203-220 | on success the model name, chunk settings and language are copied from the metadata (language kept when absent); on failure nothing changes; the content processor's model name is never touched |
| Engine.YouTubeRag.SaveAndReload | src/youtube_rag_system/core/rag_engine.py:68-109 | the store gains the video id's directory and its new record, and its index when the index build succeeds (otherwise the id loses its index); the call succeeds exactly when the index build and the reload succeed; a failure leaves the engine unchanged; success keeps the model settings and returns the session of just this video with the record and the chunks |
| Engine.YouTubeRag.ProcessVideo | src/youtube_rag_system/core/rag_engine.py:44-109 | content errors and a failed in-memory index change nothing; otherwise the summary by the content processor's model in the engine's language is saved and reloaded as SaveAndReload states |
| Engine.YouTubeRag.AppendAndReload | src/youtube_rag_system/core/rag_engine.py:242-311 | a missing or unreadable record fails and changes nothing; otherwise the record is rewritten, the new chunks are added when embedding succeeds, a failed embedding fails with the record rewritten, a failed reload fails; success adopts the session's stored model settings and returns the combined session |
| Engine.YouTubeRag.AddVideoToSession | src/youtube_rag_system/core/rag_engine.py:234-311 | no session, no content or no persist name are errors that change nothing; otherwise the summary by the content processor's model is appended as AppendAndReload states, and on success the new document goes last, summaries and texts are combined, history is kept and video_urls contain the new URL |
| Engine.UnrecognisedUrlsShareSession | src/youtube_rag_system/utils/file_utils.py:21-25 | any two URLs that are neither watch nor short URLs get the same session name, "unknown" |
| FileUtils.ExtractVideoId | src/youtube_rag_system/utils/file_utils.py:10-25 | for a watch URL the id holds no "&" and no "v="; for a short URL no "?"; otherwise it is "unknown" |
| FileUtils.ShortUrlRoundTrip | src/youtube_rag_system/utils/file_utils.py:23-24 | an id without "?" is recovered from its youtu.be URL |
| FileUtils.WatchUrlRoundTrip | src/youtube_rag_system/utils/file_utils.py:21-22 | an id without "&" and without "v=" is recovered from its `https://www.youtube.com/watch?v=` URL |
| FileUtils.WatchUrlTailRoundTrip | src/youtube_rag_system/utils/file_utils.py:21-22 | the same id is recovered when further query parameters follow it after "&" (`watch?v=ID&t=1`), whatever they hold |
| FileUtils.EmptyWatchId | src/youtube_rag_system/utils/file_utils.py:21-22 | a watch URL that ends at "v=" gives the empty id |
| FileUtils.SavedText | src/youtube_rag_system/utils/file_utils.py:42-46 | with a header, the written text is the header, "\n", 50 '=', "\n\n" and the content, character by character; without one, just the content |
| FileUtils.SaveTextFile | src/youtube_rag_system/utils/file_utils.py:28-49 | when the write succeeds the file name is returned and the file holds exactly the saved text, other files untouched; when it raises, None and no file changes |
| Validators.ApiKeyRejects | src/youtube_rag_system/utils/validators.py:9-22 | every key of at most 20 characters and every key not starting with "sk-" is rejected; any other key is accepted, so the emptiness test never decides |
| Validators.AnyMatchIff | src/youtube_rag_system/utils/validators.py:46 | `any` over the patterns holds exactly when some pattern matches |
| Validators.YoutubeUrlIff | src/youtube_rag_system/utils/validators.py:25-46 | a URL is accepted exactly when it starts with one of the watch, short, embed or /v/ prefixes followed by a word or hyphen character; "" is rejected |
| Validators.MatchExtends | src/youtube_rag_system/utils/validators.py:39-46 | a pattern matched at the start still matches after text is appended |
| Validators.AcceptedExtends | src/youtube_rag_system/utils/validators.py:46 | acceptance is closed under appending any suffix |
| Validators.AcceptedIsHttp | src/youtube_rag_system/utils/validators.py:39-44 | every accepted URL starts with "http://" or "https://" |
| Validators.WatchUrlAccepted | src/youtube_rag_system/utils/validators.py:40 | `https://www.youtube.com/watch?v=` followed by any id whose first character is a word character or "-" is accepted |
| Validators.SchemelessRejected | src/youtube_rag_system/utils/validators.py:39-46 | a URL that does not start with "h" is rejected |
| PlaylistIngest.NormalizeUrl | scripts/playlist_ingest.py:53-54 | a non-empty value not starting with "http" gets the watch prefix; every non-empty result starts with "http"; "" stays "" |
| PlaylistIngest.NormalizeEntry | scripts/playlist_ingest.py:49-62 | the URL is url, else webpage_url, normalised; a missing title becomes "(untitled)"; the id is copied |
| PlaylistIngest.NormalizeAll | scripts/playlist_ingest.py:48-62 | at most one entry per raw entry |
| PlaylistIngest.NormalizeAllAppend | scripts/playlist_ingest.py:48-62 | normalising distributes over concatenation, so the raw entries' order is kept |
| PlaylistIngest.NormalizeAllSingle | scripts/playlist_ingest.py:49-62 | one raw entry gives exactly its normalised entry, a falsy one nothing |
| PlaylistIngest.NormalizeAllShape | scripts/playlist_ingest.py:48-62 | every normalised entry has a title, and its URL, when present, starts with "http" |
| PlaylistIngest.WithUrls | scripts/playlist_ingest.py:64 | the filter keeps only entries with a URL, each one from the input |
| PlaylistIngest.WithUrlsAppend | scripts/playlist_ingest.py:64 | the filter distributes over concatenation, so order is kept |
| PlaylistIngest.WithUrlsKeeps | scripts/playlist_ingest.py:64 | every entry with a URL survives the filter |
| PlaylistIngest.FetchEntries | scripts/playlist_ingest.py:28-68 | missing info is an error; no entries gives the top-level record when it has a webpage URL and an error otherwise; else the normalised entries with URLs, an error when none remain; a result is never empty |
| PlaylistIngest.FetchKeepsUsable | scripts/playlist_ingest.py:48-68 | every normalised entry with a URL is in the result |
| PlaylistIngest.NormalizeEntries | scripts/playlist_ingest.py:48-62 | the appending loop computes the normalised entries |
| PlaylistIngest.FetchPlaylistEntries | scripts/playlist_ingest.py:28-68 | the fetch returns exactly the result of the specification |
| PlaylistIngest.SliceFrom | scripts/playlist_ingest.py:73 | Python's `entries[start:]` for a non-negative start |
| PlaylistIngest.SliceTo | scripts/playlist_ingest.py:75 | Python's `selected[:limit]` for a non-negative limit |
| PlaylistIngest.IterLimitedWindow | scripts/playlist_ingest.py:71-76 | the window is the contiguous run of min(limit, max(0, len - start)) entries from start, or everything from start without a limit |
| PlaylistIngest.ClampStart | scripts/playlist_ingest.py:173-177 | the start index is clamped to zero from below |
| PlaylistIngest.NegativeLimit | scripts/playlist_ingest.py:71-76 | a negative limit keeps the window's prefix that drops that many entries from its end |
| PlaylistIngest.IngestAll | scripts/playlist_ingest.py:195-245 | the loop over the entries ends in the state of the specification function Run |
| PlaylistIngest.RunAccounts | scripts/playlist_ingest.py:195-245 | each entry is processed or failed at most once; without skipping or stopping, every entry is processed or failed |
| PlaylistIngest.RunProcessedHaveUrls | scripts/playlist_ingest.py:195-245 | processed entries all have a URL, and the set of known URLs only grows |
| PlaylistIngest.SkipLeavesStateAlone | scripts/playlist_ingest.py:202-229 | an entry with a URL is skipped, with the state unchanged, when skip-existing is set, a session exists and its URL is known; otherwise it is counted once, as processed or failed; a successful ingestion records it as processed; a failed ingestion, or a first ingestion returning no name, records it as failed and stops exactly when stop-on-error is set |

## Left out

- Subprocesses and services are outcomes given as parameters: yt-dlp and its temporary directories, Whisper, the chat model, OpenAI embeddings, Chroma and the text splitter. The internals of `_get_subtitles` and `_transcribe_audio` are not modelled. Only their results are: the subtitle text (None when no file was written or anything raised) and the audio outcome.
- Prompt texts, temperatures and completion-token settings are not modelled. A request carries only the text it sends and the normalised language.
- Status callbacks and all user-facing progress messages are left out. They have no effect on the results.
- JSON serialisation and the filesystem are modelled as maps. Keys that the source reads with a default (video_urls, language, documents) are optional. All other keys are assumed to be present in a readable metadata.json.
- datetime.now() and uuid4() are parameters.
- Session names are opaque keys. In the source, a name of "" (the id of a watch URL ending at "v=") addresses the storage root itself, so save_session would remove every stored session. The model does not represent this.
- `ContentProcessor.save_summary`, `save_original_text` and `generate_analysis_report` are not modelled. They only build a file name and header, or a prompt, around `save_text_file` and the chat model. The same holds for the saved-files list of `process_video` and the per-video file writes of the playlist script.
- `YouTubeRAG.create_qa_chain`, `ask_question`, the pass-through wrappers `save_session`, `list_sessions`, `delete_session` and `update_chat_history`, and the API-key check in the constructor are not modelled. They are retrieval-chain calls, direct delegation to the session manager, or an environment lookup.
- The playlist script's argument parsing, `parser.error` exits, path setup and summary printing are not modelled. Its loop is modelled with ingestion as an oracle that stands for process_video or add_video_to_session.
- Transcript.CleanLine: Python's `\d` also matches non-ASCII digits. The model recognises only ASCII digits as cue numbers.
- Validators.YoutubeUrlIff: Python's `\w` also matches non-ASCII letters and digits. The model takes `[A-Za-z0-9_-]` as the id characters.
- Text.NormalizeLanguage: `lower()` is modelled on ASCII letters only. This is exact for the zh/en decision, because a value lowering to "zh" must consist of ASCII letters.
- Transcript.MaxChars: `int(max_tokens * 0.75)` is computed as `(3 * max_tokens) / 4`. The two agree for every ceiling in the model table.
- Sessions.SessionManager.List: the order of sessions with equal created_at strings is left open. The source keeps them in directory-listing order, which the model does not represent.
- FileUtils.SaveTextFile: a write that raises after the file was opened leaves an empty or partly written file in the source. The model leaves the files unchanged on failure.
- Sessions.SessionManager.Save: the model-config defaults of `model_config.get` are not modelled, because the engine always passes all three keys.
