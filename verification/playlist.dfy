/** The playlist ingester: the flat entry list yt-dlp returns is normalised
    and filtered, a start/limit window is taken with Python slice semantics,
    and the main loop ingests each video into one session, skipping URLs the
    session already holds when asked to. Extraction and ingestion are
    oracles. */
module PlaylistIngest {
  import opened Wrappers
  import opened Text

  /* ------------------------------------------------------------ entries */

  /** One flat entry as yt-dlp reports it; "" stands for a missing or empty
      field. */
  datatype RawEntry = RawEntry(id: Option<string>, title: string, url: string, webpageUrl: string)

  /** What extract_info returns: its entries (None for a falsy entry) and
      the fields of the top-level record. */
  datatype PlaylistInfo = PlaylistInfo(
    entries: seq<Option<RawEntry>>, id: Option<string>, title: string, url: string, webpageUrl: string)

  /** A normalised entry. */
  datatype Entry = Entry(id: Option<string>, title: string, url: string)

  datatype FetchError = NoMetadata | NoVideos | NoUsableUrls

  const WatchPrefix: string := "https://www.youtube.com/watch?v="

  /** A bare video id becomes a watch URL; a URL starting with "http" and
      the empty string are kept. */
  function NormalizeUrl(raw: string): (u: string)
    ensures u == [] <==> raw == []
    ensures u != [] ==> StartsWith(u, "http")
    ensures StartsWith(raw, "http") ==> u == raw
    ensures raw != [] && !StartsWith(raw, "http") ==> u == WatchPrefix + raw
  {
    if raw != [] && !StartsWith(raw, "http") then
      assert WatchPrefix[..4] == "http";
      assert (WatchPrefix + raw)[..4] == WatchPrefix[..4];
      WatchPrefix + raw
    else raw
  }

  /** The entry the loop of fetch_playlist_entries appends: the url, else
      the webpage_url, normalised; a missing title becomes "(untitled)". */
  function NormalizeEntry(e: RawEntry): (r: Entry)
    ensures r.id == e.id && r.title != []
    ensures e.title != [] ==> r.title == e.title
    ensures r.url == NormalizeUrl(if e.url != [] then e.url else e.webpageUrl)
  {
    Entry(e.id, if e.title == [] then "(untitled)" else e.title,
      NormalizeUrl(if e.url != [] then e.url else e.webpageUrl))
  }

  /** The normalised list, falsy entries skipped, in order. */
  function NormalizeAll(entries: seq<Option<RawEntry>>): (r: seq<Entry>)
    ensures |r| <= |entries|
  {
    if entries == [] then []
    else
      var last := entries[|entries| - 1];
      NormalizeAll(entries[..|entries| - 1]) + (if last.Some? then [NormalizeEntry(last.value)] else [])
  }

  /** `[item for item in normalized if item["url"]]`. */
  function WithUrls(entries: seq<Entry>): (r: seq<Entry>)
    ensures |r| <= |entries|
    ensures forall k :: 0 <= k < |r| ==> r[k].url != [] && r[k] in entries
  {
    if entries == [] then []
    else (if entries[0].url != [] then [entries[0]] else []) + WithUrls(entries[1..])
  }

  /** Filtering keeps every entry that has a URL, in order: it distributes
      over concatenation. */
  lemma {:induction false} WithUrlsAppend(a: seq<Entry>, b: seq<Entry>)
    ensures WithUrls(a + b) == WithUrls(a) + WithUrls(b)
  {
    if a == [] {
      assert a + b == b;
    } else {
      assert (a + b)[0] == a[0] && (a + b)[1..] == a[1..] + b;
      WithUrlsAppend(a[1..], b);
      var h := if a[0].url != [] then [a[0]] else [];
      var x, y := WithUrls(a[1..]), WithUrls(b);
      assert WithUrls(a + b) == h + (x + y);
      assert WithUrls(a) == h + x;
      ConcatAssoc(h, x, y);
    }
  }

  lemma {:induction false} WithUrlsKeeps(entries: seq<Entry>, e: Entry)
    requires e in entries && e.url != []
    ensures e in WithUrls(entries)
  {
    if entries[0] != e {
      WithUrlsKeeps(entries[1..], e);
    }
  }

  /** Normalising distributes over concatenation, so the order of the raw
      entries is kept. */
  lemma {:induction false} NormalizeAllAppend(a: seq<Option<RawEntry>>, b: seq<Option<RawEntry>>)
    ensures NormalizeAll(a + b) == NormalizeAll(a) + NormalizeAll(b)
    decreases |b|
  {
    if b == [] {
      assert a + b == a;
    } else {
      var c := b[..|b| - 1];
      assert (a + b)[..|a + b| - 1] == a + c && (a + b)[|a + b| - 1] == b[|b| - 1];
      NormalizeAllAppend(a, c);
      var tail := if b[|b| - 1].Some? then [NormalizeEntry(b[|b| - 1].value)] else [];
      assert NormalizeAll(b) == NormalizeAll(c) + tail;
      ConcatAssoc(NormalizeAll(a), NormalizeAll(c), tail);
    }
  }

  /** One raw entry gives its normalised entry; a falsy one is skipped. */
  lemma NormalizeAllSingle(x: Option<RawEntry>)
    ensures x.Some? ==> NormalizeAll([x]) == [NormalizeEntry(x.value)]
    ensures x.None? ==> NormalizeAll([x]) == []
  {
    assert [x][..0] == [];
  }

  /** Every normalised entry has a title and, when it has a URL, one that
      starts with "http". */
  lemma {:induction false} NormalizeAllShape(entries: seq<Option<RawEntry>>)
    ensures forall k :: 0 <= k < |NormalizeAll(entries)| ==>
      NormalizeAll(entries)[k].title != [] && (NormalizeAll(entries)[k].url != [] ==> StartsWith(NormalizeAll(entries)[k].url, "http"))
  {
    if entries != [] {
      NormalizeAllShape(entries[..|entries| - 1]);
    }
  }

  /** `fetch_playlist_entries` after extraction: None stands for missing
      metadata. Without entries, the top-level record itself is the single
      item, unnormalised, provided it has a webpage_url. */
  function FetchEntries(info: Option<PlaylistInfo>): (r: Result<seq<Entry>, FetchError>)
    ensures info.None? ==> r == Err(NoMetadata)
    ensures info.Some? && info.value.entries == [] ==>
      (r.Ok? <==> info.value.webpageUrl != [])
      && (r.Ok? ==> r.value == [Entry(info.value.id, info.value.title, info.value.url)])
    ensures info.Some? && info.value.entries != [] && r.Ok? ==>
      forall k :: 0 <= k < |r.value| ==>
        r.value[k].url != [] && StartsWith(r.value[k].url, "http") && r.value[k].title != []
    ensures r.Ok? ==> r.value != []
  {
    if info.None? then Err(NoMetadata)
    else if info.value.entries == [] then
      if info.value.webpageUrl != [] then Ok([Entry(info.value.id, info.value.title, info.value.url)])
      else Err(NoVideos)
    else
      var normalized := NormalizeAll(info.value.entries);
      NormalizeAllShape(info.value.entries);
      var filtered := WithUrls(normalized);
      if filtered == [] then Err(NoUsableUrls) else Ok(filtered)
  }

  /** Every normalised entry with a URL is returned. */
  lemma FetchKeepsUsable(info: PlaylistInfo, e: Entry)
    requires info.entries != [] && e in NormalizeAll(info.entries) && e.url != []
    ensures FetchEntries(Some(info)).Ok? && e in FetchEntries(Some(info)).value
  {
    WithUrlsKeeps(NormalizeAll(info.entries), e);
  }

  /** The normalisation loop of fetch_playlist_entries. */
  method NormalizeEntries(entries: seq<Option<RawEntry>>) returns (normalized: seq<Entry>)
    ensures normalized == NormalizeAll(entries)
  {
    normalized := [];
    for i := 0 to |entries|
      invariant normalized == NormalizeAll(entries[..i])
    {
      assert entries[..i + 1][..i] == entries[..i];
      if entries[i].None? {
        continue;
      }
      normalized := normalized + [NormalizeEntry(entries[i].value)];
    }
    assert entries[..|entries|] == entries;
  }

  /** fetch_playlist_entries as the source runs it. */
  method FetchPlaylistEntries(info: Option<PlaylistInfo>) returns (r: Result<seq<Entry>, FetchError>)
    ensures r == FetchEntries(info)
  {
    if info.None? {
      return Err(NoMetadata);
    }
    if info.value.entries == [] {
      if info.value.webpageUrl != [] {
        return Ok([Entry(info.value.id, info.value.title, info.value.url)]);
      }
      return Err(NoVideos);
    }
    var normalized := NormalizeEntries(info.value.entries);
    var filtered := WithUrls(normalized);
    if filtered == [] {
      return Err(NoUsableUrls);
    }
    r := Ok(filtered);
  }

  /* ----------------------------------------------------------- windowing */

  /** Python's `s[start:]`, negative start counting from the end. */
  function SliceFrom<T>(s: seq<T>, start: int): (r: seq<T>)
    ensures 0 <= start <= |s| ==> r == s[start..]
    ensures start > |s| ==> r == []
  {
    if start >= 0 then (if start <= |s| then s[start..] else [])
    else if |s| + start >= 0 then s[|s| + start..] else s
  }

  /** Python's `s[:stop]`, negative stop counting from the end. */
  function SliceTo<T>(s: seq<T>, stop: int): (r: seq<T>)
    ensures 0 <= stop <= |s| ==> r == s[..stop]
    ensures stop > |s| ==> r == s
  {
    if stop >= 0 then (if stop <= |s| then s[..stop] else s)
    else if |s| + stop >= 0 then s[..|s| + stop] else []
  }

  /** `iter_limited`. */
  function IterLimited<T>(entries: seq<T>, start: int, limit: Option<int>): seq<T> {
    var selected := SliceFrom(entries, start);
    if limit.Some? then SliceTo(selected, limit.value) else selected
  }

  function Min(a: int, b: int): int { if a <= b then a else b }
  function Max(a: int, b: int): int { if a >= b then a else b }

  /** For a non-negative start and limit the window is the contiguous run
      of min(limit, max(0, len - start)) entries beginning at start; without
      a limit it is everything from start on. */
  lemma IterLimitedWindow<T>(entries: seq<T>, start: nat, limit: Option<nat>)
    ensures var r := IterLimited(entries, start, if limit.Some? then Some(limit.value as int) else None);
      && |r| == (if limit.Some? then Min(limit.value, Max(0, |entries| - start)) else Max(0, |entries| - start))
      && (start <= |entries| ==> r == entries[start..start + |r|])
  {
  }

  /** The start index main passes: `max(start_index, 0)`. */
  function ClampStart(startIndex: int): (s: nat)
    ensures startIndex >= 0 ==> s == startIndex
    ensures startIndex < 0 ==> s == 0
  {
    if startIndex < 0 then 0 else startIndex
  }

  /** A negative --max-videos is passed through unclamped and drops that
      many entries from the end of the window. */
  lemma NegativeLimit<T>(entries: seq<T>, start: int, limit: int)
    requires limit < 0
    ensures var window := SliceFrom(entries, ClampStart(start));
      var r := IterLimited(entries, ClampStart(start), Some(limit));
      |r| == Max(0, |window| + limit) && r == window[..|r|]
  {
  }

  /* --------------------------------------------------------- the main loop */

  /** What a successful ingestion reports: the session name and the
      session's video_urls. */
  datatype Ingested = Ingested(sessionName: string, videoUrls: seq<string>)

  /** Ingesting a URL: process_video when there is no session yet (second
      argument false), add_video_to_session otherwise; None when it raises. */
  type Ingestor = (string, bool) -> Option<Ingested>

  /** The loop variables of main. */
  datatype LoopState = LoopState(
    haveSession: bool, sessionName: string, known: set<string>, processed: seq<Entry>, failed: seq<Entry>)

  /** The state before the loop, after loading the named session when one
      was given (Some of its video_urls). */
  function InitialState(sessionName: string, loaded: Option<seq<string>>): LoopState {
    LoopState(loaded.Some?, sessionName, if loaded.Some? then set u | u in loaded.value else {}, [], [])
  }

  /** `args.skip_existing and session_data and video_url in known_urls`. */
  predicate ShouldSkip(skipExisting: bool, haveSession: bool, url: string, known: set<string>) {
    skipExisting && haveSession && url in known
  }

  /** One iteration: the new state and whether the loop stops. */
  function Step(st: LoopState, e: Entry, ingest: Ingestor, skipExisting: bool, stopOnError: bool): (LoopState, bool) {
    if e.url == [] then (st.(failed := st.failed + [e]), false)
    else if ShouldSkip(skipExisting, st.haveSession, e.url, st.known) then (st, false)
    else match ingest(e.url, st.haveSession)
      case None => (st.(failed := st.failed + [e]), stopOnError)
      case Some(res) =>
        if !st.haveSession && res.sessionName == [] then
          // the session now exists, but the missing name counts as a failure
          (st.(haveSession := true, sessionName := res.sessionName, failed := st.failed + [e]), stopOnError)
        else
          var urls := set u | u in res.videoUrls;
          var name := if st.haveSession then st.sessionName else res.sessionName;
          (st.(haveSession := true, sessionName := name, known := st.known + urls, processed := st.processed + [e]), false)
  }

  /** The loop of main over the remaining entries. */
  function Run(entries: seq<Entry>, st: LoopState, ingest: Ingestor, skipExisting: bool, stopOnError: bool): LoopState
    decreases |entries|
  {
    if entries == [] then st
    else
      var (next, stop) := Step(st, entries[0], ingest, skipExisting, stopOnError);
      if stop then next else Run(entries[1..], next, ingest, skipExisting, stopOnError)
  }

  lemma RunUnfold(entries: seq<Entry>, i: nat, st: LoopState, ingest: Ingestor, skipExisting: bool, stopOnError: bool)
    requires i < |entries|
    ensures var (next, stop) := Step(st, entries[i], ingest, skipExisting, stopOnError);
      Run(entries[i..], st, ingest, skipExisting, stopOnError)
        == if stop then next else Run(entries[i + 1..], next, ingest, skipExisting, stopOnError)
  {
    assert entries[i..][0] == entries[i] && entries[i..][1..] == entries[i + 1..];
  }

  /** The ingestion loop of main. */
  method IngestAll(entries: seq<Entry>, init: LoopState, ingest: Ingestor, skipExisting: bool, stopOnError: bool)
    returns (st: LoopState)
    ensures st == Run(entries, init, ingest, skipExisting, stopOnError)
  {
    st := init;
    var i := 0;
    while i < |entries|
      invariant 0 <= i <= |entries|
      invariant Run(entries, init, ingest, skipExisting, stopOnError) == Run(entries[i..], st, ingest, skipExisting, stopOnError)
    {
      var e := entries[i];
      RunUnfold(entries, i, st, ingest, skipExisting, stopOnError);
      if e.url == [] {
        st := st.(failed := st.failed + [e]);
        i := i + 1;
        continue;
      }
      if ShouldSkip(skipExisting, st.haveSession, e.url, st.known) {
        i := i + 1;
        continue;
      }
      var result := ingest(e.url, st.haveSession);
      if result.None? {
        st := st.(failed := st.failed + [e]);
        if stopOnError {
          return;
        }
        i := i + 1;
        continue;
      }
      var res := result.value;
      if !st.haveSession {
        st := st.(haveSession := true, sessionName := res.sessionName);
        if res.sessionName == [] {
          st := st.(failed := st.failed + [e]);
          if stopOnError {
            return;
          }
          i := i + 1;
          continue;
        }
      }
      var urls := set u | u in res.videoUrls;
      st := st.(known := st.known + urls, processed := st.processed + [e]);
      i := i + 1;
    }
  }

  /** Each entry is processed, failed or skipped at most once; with neither
      skipping nor stopping, every entry is processed or failed. */
  lemma {:induction false} RunAccounts(entries: seq<Entry>, st: LoopState, ingest: Ingestor, skipExisting: bool, stopOnError: bool)
    ensures var fin := Run(entries, st, ingest, skipExisting, stopOnError);
      |fin.processed| + |fin.failed| <= |st.processed| + |st.failed| + |entries|
    ensures var fin := Run(entries, st, ingest, skipExisting, stopOnError);
      !skipExisting && !stopOnError ==> |fin.processed| + |fin.failed| == |st.processed| + |st.failed| + |entries|
    decreases |entries|
  {
    if entries != [] {
      var (next, stop) := Step(st, entries[0], ingest, skipExisting, stopOnError);
      if !stop {
        RunAccounts(entries[1..], next, ingest, skipExisting, stopOnError);
      }
    }
  }

  /** Processed entries all have a URL, and the known set only grows. */
  lemma {:induction false} RunProcessedHaveUrls(entries: seq<Entry>, st: LoopState, ingest: Ingestor, skipExisting: bool, stopOnError: bool)
    requires forall k :: 0 <= k < |st.processed| ==> st.processed[k].url != []
    ensures var fin := Run(entries, st, ingest, skipExisting, stopOnError);
      (forall k :: 0 <= k < |fin.processed| ==> fin.processed[k].url != []) && st.known <= fin.known
    decreases |entries|
  {
    if entries != [] {
      var (next, stop) := Step(st, entries[0], ingest, skipExisting, stopOnError);
      if !stop {
        RunProcessedHaveUrls(entries[1..], next, ingest, skipExisting, stopOnError);
      }
    }
  }

  /** An entry is skipped without an ingestion attempt exactly when
      skip-existing is set, a session exists and its URL is already known. */
  lemma SkipLeavesStateAlone(st: LoopState, e: Entry, ingest: Ingestor, skipExisting: bool, stopOnError: bool)
    requires e.url != []
    ensures ShouldSkip(skipExisting, st.haveSession, e.url, st.known) ==> Step(st, e, ingest, skipExisting, stopOnError) == (st, false)
    ensures !ShouldSkip(skipExisting, st.haveSession, e.url, st.known) ==>
      var next := Step(st, e, ingest, skipExisting, stopOnError).0;
      |next.processed| + |next.failed| == |st.processed| + |st.failed| + 1
    ensures !ShouldSkip(skipExisting, st.haveSession, e.url, st.known) && ingest(e.url, st.haveSession).Some? && (st.haveSession || ingest(e.url, st.haveSession).value.sessionName != []) ==>
      Step(st, e, ingest, skipExisting, stopOnError).0.processed == st.processed + [e]
    ensures !ShouldSkip(skipExisting, st.haveSession, e.url, st.known) && ingest(e.url, st.haveSession).None? ==>
      var (next, stop) := Step(st, e, ingest, skipExisting, stopOnError);
      next.processed == st.processed && next.failed == st.failed + [e] && stop == stopOnError
    ensures && !ShouldSkip(skipExisting, st.haveSession, e.url, st.known) && ingest(e.url, st.haveSession).Some?
            && !st.haveSession && ingest(e.url, st.haveSession).value.sessionName == [] ==>
      var (next, stop) := Step(st, e, ingest, skipExisting, stopOnError);
      next.haveSession && next.processed == st.processed && next.failed == st.failed + [e] && stop == stopOnError
  {
  }
}
