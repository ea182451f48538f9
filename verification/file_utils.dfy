/** The file helpers: the video id derived from a YouTube URL, which names
    the session a processed video is saved under, and the text
    save_text_file writes. */
module FileUtils {
  import opened Wrappers
  import opened Text

  const WatchMarker: string := "youtube.com/watch?v="
  const ShortMarker: string := "youtu.be/"

  /** `extract_video_id`: for a watch URL, the text after the first "v=" up
      to the next "v=" or "&"; for a short URL, the text after "youtu.be/" up
      to the next "youtu.be/" or "?"; otherwise "unknown". Total on every
      string. */
  function ExtractVideoId(url: string): (id: string)
    ensures Contains(url, WatchMarker) ==> !Contains(id, "&") && !Contains(id, "v=")
    ensures !Contains(url, WatchMarker) && Contains(url, ShortMarker) ==> !Contains(id, "?")
    ensures !Contains(url, WatchMarker) && !Contains(url, ShortMarker) ==> id == "unknown"
  {
    if Contains(url, WatchMarker) then
      WatchMarkerHasV(url);
      var field := SecondField(url, "v=");
      BeforeFirstExcludes(field, "&");
      BeforeFirstExcludes(url[IndexOf(url, "v=").value + 2..], "v=");
      PatternInPrefix(field, BeforeFirst(field, "&"), "v=");
      BeforeFirst(field, "&")
    else if Contains(url, ShortMarker) then
      var field := SecondField(url, ShortMarker);
      BeforeFirstExcludes(field, "?");
      BeforeFirst(field, "?")
    else "unknown"
  }

  /** "v=" occurs wherever the watch marker does. */
  lemma WatchMarkerHasV(url: string)
    requires Contains(url, WatchMarker)
    ensures Contains(url, "v=")
  {
    var k := IndexOf(url, WatchMarker).value;
    assert url[k + 18..k + 20] == url[k..k + 20][18..20] == "v=";
    assert OccursAt(url, "v=", k + 18);
  }

  /** A pattern found in a prefix is found in the whole string. */
  lemma PatternInPrefix(s: string, p: string, pat: string)
    requires StartsWith(s, p)
    ensures Contains(p, pat) ==> Contains(s, pat)
  {
    if Contains(p, pat) {
      var k := IndexOf(p, pat).value;
      assert p[k..k + |pat|] == s[k..k + |pat|];
      assert OccursAt(s, pat, k);
    }
  }

  predicate NoChar(s: string, c: char) {
    forall j :: 0 <= j < |s| ==> s[j] != c
  }

  /** A string without the character c contains no pattern that has one. */
  lemma NoCharNoPattern(s: string, c: char, pat: string, j: nat)
    requires NoChar(s, c) && j < |pat| && pat[j] == c
    ensures !Contains(s, pat)
  {
  }

  /** A short URL gives back the id it was built from, when the id holds
      neither '?' nor the short-URL marker. */
  lemma ShortUrlRoundTrip(id: string)
    requires NoChar(id, '?') && !Contains(id, ShortMarker)
    ensures ExtractVideoId("https://youtu.be/" + id) == id
  {
    var prefix := "https://youtu.be/";
    var url := prefix + id;
    assert NoChar(url, '?') by {
      forall j | 0 <= j < |url|
        ensures url[j] != '?'
      {
        if j >= |prefix| {
          assert url[j] == id[j - |prefix|];
        }
      }
    }
    NoCharNoPattern(url, '?', WatchMarker, 17);
    assert OccursAt(url, ShortMarker, 8);
    forall j | 0 <= j < 8
      ensures !OccursAt(url, ShortMarker, j)
    {
      assert url[j..j + |ShortMarker|][0] == url[j] && url[j] != 'y';
    }
    assert IndexOf(url, ShortMarker) == Some(8);
    assert url[8 + |ShortMarker|..] == id;
    NoCharNoPattern(id, '?', "?", 0);
    BeforeFirstWhole(id, ShortMarker);
    BeforeFirstWhole(id, "?");
  }

  const WatchPrefix: string := "https://www.youtube.com/watch?v="

  /** The watch marker sits at 12 in the watch prefix, and the prefix's only
      'v' is the one of its closing "v=". */
  lemma WatchPrefixShape()
    ensures |WatchPrefix| == 32 && OccursAt(WatchPrefix, WatchMarker, 12)
    ensures WatchPrefix[30..] == "v="
    ensures forall j :: 0 <= j < 30 ==> WatchPrefix[j] != 'v'
  {
  }

  /** In a watch URL the first "v=" is the one closing the prefix, so the id
      field starts right after it. */
  lemma WatchPrefixFind(rest: string)
    ensures Contains(WatchPrefix + rest, WatchMarker)
    ensures IndexOf(WatchPrefix + rest, "v=") == Some(30)
    ensures (WatchPrefix + rest)[32..] == rest
  {
    var url := WatchPrefix + rest;
    WatchPrefixShape();
    assert url[12..32] == WatchPrefix[12..32];
    assert OccursAt(url, WatchMarker, 12);
    assert url[30..32] == "v=";
    forall j | 0 <= j < 30
      ensures !OccursAt(url, "v=", j)
    {
      assert url[j..j + 2][0] == url[j] == WatchPrefix[j];
    }
    IndexOfFirst(url, "v=", 30);
  }

  /** A watch URL gives back the id it was built from, when the id holds
      neither '&' nor "v="; in particular a URL ending at "v=" gives the
      empty id. */
  lemma WatchUrlRoundTrip(id: string)
    requires NoChar(id, '&') && !Contains(id, "v=")
    ensures ExtractVideoId(WatchPrefix + id) == id
  {
    WatchPrefixFind(id);
    BeforeFirstWhole(id, "v=");
    NoCharNoPattern(id, '&', "&", 0);
    BeforeFirstWhole(id, "&");
  }

  /** "v=" cannot start inside an id free of it, nor at its last character
      or at the '&' after it. */
  lemma NoMarkerBeforeAmp(id: string, tail: string, j: nat)
    requires !Contains(id, "v=") && j <= |id|
    ensures !OccursAt(id + "&" + tail, "v=", j)
  {
    var after := id + "&" + tail;
    if j + 2 <= |after| {
      var w := after[j..j + 2];
      if j + 2 <= |id| {
        assert w == id[j..j + 2];
        assert !OccursAt(id, "v=", j);
      } else if j + 1 == |id| {
        assert w[1] == after[j + 1] == '&';
      } else {
        assert w[0] == after[j] == '&';
      }
    }
  }

  /** The same id is recovered when further query parameters follow it
      (`watch?v=ID&t=1`), whatever they hold. */
  lemma WatchUrlTailRoundTrip(id: string, tail: string)
    requires NoChar(id, '&') && !Contains(id, "v=")
    ensures ExtractVideoId(WatchPrefix + (id + "&" + tail)) == id
  {
    var after := id + "&" + tail;
    WatchPrefixFind(after);
    assert after[|id|] == '&';
    forall j | 0 <= j < |id| + 1
      ensures !OccursAt(after, "v=", j)
    {
      NoMarkerBeforeAmp(id, tail, j);
    }
    BeforeFirstLong(after, "v=", |id| + 1);
    var field := BeforeFirst(after, "v=");
    assert field[|id|] == '&';
    assert OccursAt(field, "&", |id|);
    forall j | 0 <= j < |id|
      ensures !OccursAt(field, "&", j)
    {
      assert field[j..j + 1][0] == after[j] == id[j];
    }
    IndexOfFirst(field, "&", |id|);
    assert field[..|id|] == after[..|id|] == id;
  }

  /** An empty id: a watch URL whose "v=" is followed by nothing. */
  lemma EmptyWatchId()
    ensures ExtractVideoId(WatchPrefix) == ""
  {
    WatchUrlRoundTrip("");
    assert WatchPrefix + "" == WatchPrefix;
  }

  const SeparatorLine: string := Repeat('=', 50)

  /** The text save_text_file writes: a non-empty header, a newline, a rule
      of 50 '=' and a blank line before the content; otherwise the content
      alone. */
  function SavedText(content: string, header: string): (text: string)
    ensures header == [] ==> text == content
    ensures header != [] ==>
      && |text| == |header| + 53 + |content|
      && text[..|header|] == header
      && text[|header|] == '\n'
      && (forall k :: |header| + 1 <= k < |header| + 51 ==> text[k] == '=')
      && text[|header| + 51..|header| + 53] == "\n\n"
    ensures |text| >= |content| && text[|text| - |content|..] == content
  {
    if header != [] then header + "\n" + SeparatorLine + "\n\n" + content else content
  }

  /** save_text_file over the files on disk: when the write succeeds the
      file holds exactly the saved text, the other files are untouched and
      the file name is returned; when it raises, None and nothing changes. */
  function SaveTextFile(files: map<string, string>, content: string, filename: string, header: string, writeOk: bool)
    : (r: (Option<string>, map<string, string>))
    ensures r.0.Some? <==> writeOk
    ensures r.0.Some? ==> r.0.value == filename
    ensures writeOk ==> r.1.Keys == files.Keys + {filename} && r.1[filename] == SavedText(content, header)
    ensures writeOk ==> forall f :: f in files && f != filename ==> r.1[f] == files[f]
    ensures !writeOk ==> r.1 == files
  {
    if writeOk then (Some(filename), files[filename := SavedText(content, header)]) else (None, files)
  }
}
