/** The transcript text pipeline of the content processor: the token
    estimate, the subtitle cleaner that strips WebVTT/SRT scaffolding (the
    header, NOTE blocks and `-->` cue timings of the W3C WebVTT syntax, SRT
    cue numbers, inline markup), the byte-budget sanitiser and the greedy
    line-accumulating chunker used for long transcripts. */
module Transcript {
  import opened Wrappers
  import opened Text
  import opened Utf8

  /* ---------------------------------------------------------------- tokens */

  /** `len(text) // 3`: a rough count of model tokens. */
  function EstimateTokens(text: string): (n: nat)
    ensures 3 * n <= |text| < 3 * n + 3
  {
    |text| / 3
  }

  /** The estimate grows with the text: appending never lowers it. */
  lemma EstimateMonotone(a: string, b: string)
    ensures EstimateTokens(a) <= EstimateTokens(a + b)
  {
    var na, nab := EstimateTokens(a), EstimateTokens(a + b);
    assert 3 * na <= |a| <= |a + b| < 3 * nab + 3;
  }

  /* -------------------------------------------------------------- cleaning */

  predicate IsAsciiDigit(c: char) {
    '0' <= c <= '9'
  }

  /** `re.match(r'^\d{1,4}$', s)` on a stripped line: an SRT cue number. */
  predicate IsCueIndex(s: string) {
    1 <= |s| <= 4 && forall j :: 0 <= j < |s| ==> IsAsciiDigit(s[j])
  }

  /** The position of the first '>' at or after k. */
  function NextGt(s: string, k: nat): (r: Option<nat>)
    decreases |s| - k
    ensures r.Some? ==> k <= r.value < |s| && s[r.value] == '>'
    ensures r.Some? ==> forall j :: k <= j < r.value ==> s[j] != '>'
    ensures r.None? ==> forall j :: k <= j < |s| ==> s[j] != '>'
  {
    if k >= |s| then None
    else if s[k] == '>' then Some(k)
    else NextGt(s, k + 1)
  }

  predicate HasNoGt(s: string) {
    forall j :: 0 <= j < |s| ==> s[j] != '>'
  }

  /** No `<...>` tag is left: every '<' is either followed directly by '>'
      (the empty `<>` the pattern `<[^>]+>` does not match) or by no '>' at
      all. */
  predicate TagFree(s: string) {
    forall i :: 0 <= i < |s| && s[i] == '<' ==>
      (i + 1 < |s| && s[i + 1] == '>') || HasNoGt(s[i + 1..])
  }

  /** `re.sub(r'<[^>]+>', '', s)`: scanning left to right, a '<' whose next
      '>' comes at least two positions later starts a tag, and the tag up to
      and including that '>' is removed. */
  function StripTags(s: string): (r: string)
    decreases |s|
    ensures |r| <= |s|
    ensures forall k :: 0 <= k < |r| ==> r[k] in s
  {
    if s == [] then []
    else if s[0] == '<' && NextGt(s, 1).Some? && NextGt(s, 1).value > 1 then
      var rest := StripTags(s[NextGt(s, 1).value + 1..]);
      assert forall k :: 0 <= k < |rest| ==> rest[k] in s;
      rest
    else
      var rest := StripTags(s[1..]);
      assert forall k :: 0 <= k < |rest| ==> rest[k] in s;
      [s[0]] + rest
  }

  lemma {:induction false} StripTagsWithoutGt(s: string)
    requires HasNoGt(s)
    ensures StripTags(s) == s
  {
    if s != [] {
      assert NextGt(s, 1).None?;
      StripTagsWithoutGt(s[1..]);
    }
  }

  /** After the substitution no tag is left in the line. */
  lemma {:induction false} StripTagsTagFree(s: string)
    ensures TagFree(StripTags(s))
  {
    if s != [] {
      if s[0] == '<' && NextGt(s, 1).Some? && NextGt(s, 1).value > 1 {
        StripTagsTagFree(s[NextGt(s, 1).value + 1..]);
      } else {
        var rest := StripTags(s[1..]);
        var r := [s[0]] + rest;
        assert r == StripTags(s);
        StripTagsTagFree(s[1..]);
        if s[0] == '<' {
          match NextGt(s, 1)
          case None =>
            assert HasNoGt(s[1..]);
            StripTagsWithoutGt(s[1..]);
            assert rest == s[1..];
            assert r[1..] == rest;
          case Some(j) =>
            assert j == 1 && s[1] == '>';
            assert rest != [] && rest[0] == '>';
        }
        forall i | 0 <= i < |r| && r[i] == '<'
          ensures (i + 1 < |r| && r[i + 1] == '>') || HasNoGt(r[i + 1..])
        {
          if i > 0 {
            assert rest[i - 1] == '<';
            assert r[i + 1..] == rest[i..];
          }
        }
      }
    }
  }

  /** A slice of a tag-free string is tag-free. */
  lemma TagFreeSlice(s: string, a: nat, n: nat)
    requires TagFree(s) && a + n <= |s|
    ensures TagFree(s[a..][..n])
  {
    var t := s[a..][..n];
    forall i | 0 <= i < |t| && t[i] == '<'
      ensures (i + 1 < |t| && t[i + 1] == '>') || HasNoGt(t[i + 1..])
    {
      assert s[a + i] == '<';
      if !(i + 1 < |t| && t[i + 1] == '>') {
        if a + i + 1 < |s| && s[a + i + 1] == '>' {
          assert i + 1 == |t|;
        } else {
          var sTail, tTail := s[a + i + 1..], t[i + 1..];
          assert HasNoGt(sTail);
          forall j | 0 <= j < |tTail|
            ensures tTail[j] != '>'
          {
            assert tTail[j] == sTail[j];
          }
        }
      }
    }
  }

  /** A line the cleaner can emit. */
  predicate IsCleanLine(l: string) {
    l != [] && IsStripped(l) && TagFree(l)
  }

  /** Stripping keeps a tag-free line tag-free and a line without breaks
      without breaks. */
  lemma StripKeeps(u: string)
    ensures TagFree(u) ==> TagFree(Strip(u))
    ensures NoLineBreak(u) ==> NoLineBreak(Strip(u))
  {
    if TagFree(u) {
      StripKeepsTagFree(u);
    }
    if NoLineBreak(u) {
      StripKeepsNoLineBreak(u);
    }
  }

  lemma StripKeepsTagFree(u: string)
    requires TagFree(u)
    ensures TagFree(Strip(u))
  {
    var t := TrimLeft(u);
    var r := TrimRight(t);
    assert Strip(u) == r;
    assert r == u[|u| - |t|..][..|r|];
    TagFreeSlice(u, |u| - |t|, |r|);
  }

  lemma StripTagsKeepsNoLineBreak(s: string)
    requires NoLineBreak(s)
    ensures NoLineBreak(StripTags(s))
  {
    var r := StripTags(s);
    forall k | 0 <= k < |r|
      ensures !IsLineBreak(r[k])
    {
      assert r[k] in s;
    }
  }

  lemma TagStripFacts(line: string)
    ensures TagFree(Strip(StripTags(Strip(line))))
    ensures NoLineBreak(line) ==> NoLineBreak(Strip(StripTags(Strip(line))))
  {
    var st := Strip(line);
    StripTagsTagFree(st);
    StripKeeps(StripTags(st));
    if NoLineBreak(line) {
      StripKeeps(line);
      StripTagsKeepsNoLineBreak(st);
    }
  }

  /** What becomes of one subtitle line: None when the line is dropped. */
  function CleanLine(line: string): (r: Option<string>)
    ensures r.Some? ==> IsCleanLine(r.value)
    ensures r.Some? && NoLineBreak(line) ==> NoLineBreak(r.value)
  {
    var st := Strip(line);
    if st == [] then None
    else if StartsWith(st, "WEBVTT") || StartsWith(st, "NOTE") then None
    else if Contains(st, "-->") then None
    else if IsCueIndex(st) then None
    else
      var t := Strip(StripTags(st));
      TagStripFacts(line);
      if t == [] then None else Some(t)
  }

  /** The drop rules: blank lines, WebVTT header and NOTE lines, cue timings
      and cue numbers disappear. */
  lemma CleanLineDrops(line: string)
    ensures var st := Strip(line);
      (|| st == [] || StartsWith(st, "WEBVTT") || StartsWith(st, "NOTE")
       || Contains(st, "-->") || IsCueIndex(st)) ==> CleanLine(line).None?
  {
  }

  /** A line of plain prose (no markup, not a cue) is kept, only stripped. */
  lemma CleanLineKeepsProse(line: string)
    requires HasNoGt(Strip(line)) && Strip(line) != []
    requires !StartsWith(Strip(line), "WEBVTT") && !StartsWith(Strip(line), "NOTE")
    requires !Contains(Strip(line), "-->") && !IsCueIndex(Strip(line))
    ensures CleanLine(line) == Some(Strip(line))
  {
    var st := Strip(line);
    StripTagsWithoutGt(st);
    StripIdempotent(st);
  }

  lemma StripIdempotent(s: string)
    requires IsStripped(s)
    ensures Strip(s) == s
  {
    if s != [] {
      assert !AllSpace(s) by { assert !IsSpace(s[0]); }
      assert TrimLeft(s) == s;
      assert TrimRight(s) == s;
    }
  }

  /** The kept lines, in input order. */
  function CleanedLines(lines: seq<string>): (r: seq<string>)
    ensures |r| <= |lines|
  {
    if lines == [] then []
    else
      var rest := CleanedLines(lines[1..]);
      var kept := CleanLine(lines[0]);
      if kept.None? then rest else [kept.value] + rest
  }

  /** Every kept line is a clean line. */
  lemma {:induction false} CleanedLinesClean(lines: seq<string>)
    ensures forall k :: 0 <= k < |CleanedLines(lines)| ==> IsCleanLine(CleanedLines(lines)[k])
  {
    if lines != [] {
      CleanedLinesClean(lines[1..]);
      var rest := CleanedLines(lines[1..]);
      var kept := CleanLine(lines[0]);
      if kept.Some? {
        var r := [kept.value] + rest;
        forall k | 0 <= k < |r|
          ensures IsCleanLine(r[k])
        {
          if k > 0 { assert r[k] == rest[k - 1]; }
        }
      }
    }
  }

  lemma {:induction false} CleanedLinesNoBreak(lines: seq<string>)
    requires forall k :: 0 <= k < |lines| ==> NoLineBreak(lines[k])
    ensures forall k :: 0 <= k < |CleanedLines(lines)| ==> NoLineBreak(CleanedLines(lines)[k])
  {
    if lines != [] {
      var rest := CleanedLines(lines[1..]);
      var kept := CleanLine(lines[0]);
      assert NoLineBreak(lines[0]);
      CleanedLinesNoBreak(lines[1..]);
      if kept.Some? {
        assert NoLineBreak(kept.value);
        var r := [kept.value] + rest;
        assert r == CleanedLines(lines);
        forall k | 0 <= k < |r|
          ensures NoLineBreak(r[k])
        {
          if k > 0 { assert r[k] == rest[k - 1]; }
        }
      }
    }
  }

  /** Cleaning works line by line: it distributes over concatenation. */
  lemma {:induction false} CleanedLinesAppend(a: seq<string>, b: seq<string>)
    ensures CleanedLines(a + b) == CleanedLines(a) + CleanedLines(b)
  {
    if a == [] {
      assert a + b == b;
    } else {
      assert (a + b)[1..] == a[1..] + b;
      CleanedLinesAppend(a[1..], b);
    }
  }

  lemma CleanedLinesStep(lines: seq<string>, i: nat)
    requires i < |lines|
    ensures CleanedLines(lines[..i + 1]) ==
      CleanedLines(lines[..i]) + (if CleanLine(lines[i]).None? then [] else [CleanLine(lines[i]).value])
  {
    var a, x := lines[..i], lines[i];
    assert lines[..i + 1] == a + [x];
    CleanedLinesAppend(a, [x]);
    CleanedLinesSingle(x);
  }

  lemma CleanedLinesSingle(x: string)
    ensures CleanedLines([x]) == if CleanLine(x).None? then [] else [CleanLine(x).value]
  {
    assert [x][1..] == [];
  }

  /** `_clean_subtitle_text`: empty text is returned as it is, otherwise the
      kept lines are joined with "\n". */
  function Clean(text: string): string {
    if text == [] then text else Join(CleanedLines(SplitLines(text)), "\n")
  }

  /** Reading the cleaned text back line by line gives exactly the kept lines:
      each non-empty, stripped, tag-free, in input order. */
  lemma CleanLines(text: string)
    ensures SplitLines(Clean(text)) == CleanedLines(SplitLines(text))
    ensures forall k :: 0 <= k < |SplitLines(Clean(text))| ==> IsCleanLine(SplitLines(Clean(text))[k])
  {
    if text != [] {
      CleanedLinesNoBreak(SplitLines(text));
      CleanedLinesClean(SplitLines(text));
      SplitLinesOfJoin(CleanedLines(SplitLines(text)));
    }
  }

  /** Cleaned text is a fixed point of the line rules for prose: text made of
      prose lines (non-empty, stripped, without '>', no markers) comes back
      unchanged. */
  lemma {:induction false} CleanedProse(lines: seq<string>)
    requires forall k :: 0 <= k < |lines| ==> IsProse(lines[k])
    ensures CleanedLines(lines) == lines
  {
    if lines != [] {
      CleanedProse(lines[1..]);
      ProseKept(lines[0]);
      CleanedLinesCons(lines[0], lines[1..]);
      assert lines == [lines[0]] + lines[1..];
    }
  }

  /** One step of the cleaning loop. */
  lemma CleanedLinesCons(l: string, rest: seq<string>)
    ensures CleanedLines([l] + rest)
      == (if CleanLine(l).None? then CleanedLines(rest) else [CleanLine(l).value] + CleanedLines(rest))
  {
    assert ([l] + rest)[1..] == rest;
  }

  /** A prose line is kept as it is. */
  lemma ProseKept(l: string)
    requires IsProse(l)
    ensures CleanLine(l) == Some(l)
  {
    StripIdempotent(l);
    CleanLineKeepsProse(l);
  }

  predicate IsProse(l: string) {
    && l != [] && IsStripped(l) && HasNoGt(l) && NoLineBreak(l)
    && !StartsWith(l, "WEBVTT") && !StartsWith(l, "NOTE")
    && !Contains(l, "-->") && !IsCueIndex(l)
  }

  lemma CleanProseText(lines: seq<string>)
    requires forall k :: 0 <= k < |lines| ==> IsProse(lines[k])
    ensures Clean(Join(lines, "\n")) == Join(lines, "\n")
  {
    SplitLinesOfJoin(lines);
    CleanedProse(lines);
  }

  /** The loop of `_clean_subtitle_text`, appending each kept line. */
  method CleanSubtitleText(text: string) returns (r: string)
    ensures r == Clean(text)
  {
    if text == [] {
      return text;
    }
    var lines := SplitLines(text);
    var cleaned: seq<string> := [];
    var i := 0;
    while i < |lines|
      invariant 0 <= i <= |lines|
      invariant cleaned == CleanedLines(lines[..i])
    {
      var kept := CleanLine(lines[i]);
      CleanedLinesStep(lines, i);
      if kept.Some? {
        cleaned := cleaned + [kept.value];
      }
      i := i + 1;
    }
    assert lines[..i] == lines;
    r := Join(cleaned, "\n");
  }

  /** Text without '<' passes through the substitution unchanged. */
  lemma {:induction false} StripTagsPlain(x: string, t: string)
    requires forall j :: 0 <= j < |x| ==> x[j] != '<'
    ensures StripTags(x + t) == x + StripTags(t)
  {
    if x != [] {
      var y := x[1..];
      assert (x + t)[0] == x[0] && x[0] != '<' && (x + t)[1..] == y + t;
      StripTagsPlain(y, t);
      assert StripTags(x + t) == [x[0]] + (y + StripTags(t));
      AppendAssoc([x[0]], y, StripTags(t));
      assert [x[0]] + y == x;
    } else {
      assert x + t == t;
    }
  }

  /** The search for '>' stops at the first one. */
  lemma {:induction false} NextGtFirst(s: string, k: nat, j: nat)
    requires k <= j < |s| && s[j] == '>'
    requires forall i :: k <= i < j ==> s[i] != '>'
    ensures NextGt(s, k) == Some(j)
    decreases j - k
  {
    if k < j {
      NextGtFirst(s, k + 1, j);
    }
  }

  /** A tag `<t>` with a non-empty, '>'-free body is removed whole. */
  lemma StripTagsTag(t: string, u: string)
    requires t != [] && HasNoGt(t)
    ensures StripTags("<" + t + ">" + u) == StripTags(u)
  {
    var s := "<" + t + ">" + u;
    forall i | 1 <= i < |t| + 1
      ensures s[i] != '>'
    {
      assert s[i] == t[i - 1];
    }
    NextGtFirst(s, 1, |t| + 1);
    assert s[|t| + 2..] == u;
  }

  /** The substitution keeps the text before a tag, drops the tag and goes on
      after it. */
  lemma StripTagsPeel(x: string, t: string, u: string)
    requires forall j :: 0 <= j < |x| ==> x[j] != '<'
    requires t != [] && HasNoGt(t)
    ensures StripTags(x + ("<" + t + ">" + u)) == x + StripTags(u)
  {
    StripTagsPlain(x, "<" + t + ">" + u);
    StripTagsTag(t, u);
  }

  /** A cue number wrapped in `<b>...</b>` loses its tags. */
  lemma StripTagsOfBoldCue(d: string)
    requires IsCueIndex(d)
    ensures StripTags("<b>" + d + "</b>") == d
  {
    var s := "<b>" + d + "</b>";
    assert s[1] == 'b' && s[2] == '>';
    assert NextGt(s, 1) == Some(2);
    assert s[3..] == d + "</b>";
    StripTagsPlain(d, "</b>");
    var c := "</b>";
    assert NextGt(c, 1) == Some(3) by { assert c[1] != '>' && c[2] != '>' && c[3] == '>'; }
    assert c[4..] == [];
  }

  /** A cue number is a clean line, so stripping leaves it alone. */
  lemma StripCue(d: string)
    requires IsCueIndex(d)
    ensures Strip(d) == d && NoLineBreak(d)
  {
    assert !IsSpace(d[0]) && !IsSpace(d[|d| - 1]);
    StripIdempotent(d);
  }

  /** A cue number wrapped in `<b>...</b>` passes every drop rule and is
      kept without its tags. */
  lemma CleanLineBoldCue(d: string)
    requires IsCueIndex(d)
    ensures CleanLine("<b>" + d + "</b>") == Some(d)
  {
    var s := "<b>" + d + "</b>";
    assert s[0] == '<' && s[|s| - 1] == '>';
    StripIdempotent(s);
    assert forall j :: 0 <= j < |s| ==> s[j] != '-' by {
      forall j | 0 <= j < |s|
        ensures s[j] != '-'
      {
        if 3 <= j < 3 + |d| { assert s[j] == d[j - 3]; }
      }
    }
    forall k: nat
      ensures !OccursAt(s, "-->", k)
    {
      if k + 3 <= |s| { assert s[k..k + 3][0] == s[k]; }
    }
    assert !Contains(s, "-->");
    assert !IsCueIndex(s) by { assert !IsAsciiDigit(s[0]); }
    assert !StartsWith(s, "WEBVTT") by { assert |s| < 6 || s[..6][0] == '<'; }
    assert !StartsWith(s, "NOTE") by { assert s[..4][0] == '<'; }
    StripTagsOfBoldCue(d);
    StripCue(d);
  }

  /** A cue number wrapped in `<b>...</b>` cleans to the bare number. */
  lemma CleanBoldCue(d: string)
    requires IsCueIndex(d)
    ensures Clean("<b>" + d + "</b>") == d
  {
    var s := "<b>" + d + "</b>";
    assert NoLineBreak(s) by {
      forall j | 0 <= j < |s|
        ensures !IsLineBreak(s[j])
      {
        if 3 <= j < 3 + |d| { assert s[j] == d[j - 3]; }
      }
    }
    SplitLinesSingle(s);
    CleanLineBoldCue(d);
    CleanedLinesSingle(s);
  }

  /** A bare cue number cleans to the empty text. */
  lemma CleanCue(d: string)
    requires IsCueIndex(d)
    ensures Clean(d) == ""
  {
    StripCue(d);
    SplitLinesSingle(d);
    CleanedLinesSingle(d);
  }

  /** Cleaning is not idempotent: a cue number wrapped in markup survives
      the first pass, because the tags are removed after the cue-number
      test, and is dropped by the second. The summariser cleans text that
      was already cleaned when it was stored. */
  lemma CleanTwiceDiffers(d: string)
    requires IsCueIndex(d)
    ensures Clean("<b>" + d + "</b>") == d
    ensures Clean(Clean("<b>" + d + "</b>")) == ""
  {
    CleanBoldCue(d);
    CleanCue(d);
  }

  /* ------------------------------------------------------------ sanitising */

  /** `_sanitize_text_for_storage`: clean, then cut the UTF-8 encoding at
      maxBytes and decode ignoring the broken tail. */
  function Sanitize(text: string, maxBytes: nat): (r: string)
    ensures text == [] || Clean(text) == [] ==> r == []
    ensures Size(Clean(text)) <= maxBytes ==> r == Clean(text)
    ensures StartsWithChars(Clean(text), r) && Size(r) <= maxBytes
    ensures Size(Clean(text)) > maxBytes ==>
      |r| < |Clean(text)| && maxBytes - Size(r) < 4 && maxBytes < Size(Clean(text)[..|r| + 1])
  {
    if text == [] then []
    else
      var cleaned := Clean(text);
      if cleaned == [] then []
      else if Size(cleaned) <= maxBytes then cleaned
      else TruncateToBytes(cleaned, maxBytes)
  }

  /* -------------------------------------------------------------- chunking */

  /** `max(1000, int(max_tokens * 0.75))`, with the float product written as
      `(3 * max_tokens) / 4`; both agree on every ceiling the summariser uses,
      and every negative or small argument gives 1000 either way. */
  function MaxChars(maxTokens: int): (m: nat)
    ensures m >= 1000
    ensures m > 1000 ==> 4 * m <= 3 * maxTokens < 4 * m + 4
    ensures 3 * maxTokens >= 4000 ==> 4 * m <= 3 * maxTokens < 4 * m + 4
  {
    var q := (3 * maxTokens) / 4;
    if q < 1000 then 1000 else q
  }

  /** `line[i:i + m]` for i in range(0, len(line), m). */
  function HardSplit(line: string, m: nat): (pieces: seq<string>)
    requires m > 0
    decreases |line|
    ensures forall k :: 0 <= k < |pieces| ==> 0 < |pieces[k]| <= m
    ensures Concat(pieces) == line
  {
    if line == [] then []
    else if |line| <= m then
      assert Concat([line]) == line + Concat([]);
      [line]
    else
      var rest := HardSplit(line[m..], m);
      assert line == line[..m] + line[m..];
      [line[..m]] + rest
  }

  /** The characters of the lines plus one newline each: `current_len`. */
  function Footprint(cur: seq<string>): nat {
    if cur == [] then 0 else |cur[0]| + 1 + Footprint(cur[1..])
  }

  /** `'\n'.join(current_chunk)` when the chunk is not empty. */
  function Flush(cur: seq<string>): seq<string> {
    if cur == [] then [] else [Join(cur, "\n")]
  }

  /** The greedy loop of `_chunk_text_for_summary` over the remaining lines,
      given the chunk under construction and its length. */
  function ChunkFrom(lines: seq<string>, m: nat, cur: seq<string>, curLen: nat): seq<string>
    requires m > 0
    decreases |lines|
  {
    if lines == [] then Flush(cur)
    else
      var line := lines[0];
      var len := |line| + 1;
      if curLen + len > m then
        if len >= m then Flush(cur) + HardSplit(line, m) + ChunkFrom(lines[1..], m, [], 0)
        else Flush(cur) + ChunkFrom(lines[1..], m, [line], len)
      else ChunkFrom(lines[1..], m, cur + [line], curLen + len)
  }

  /** The chunks `_chunk_text_for_summary(text, max_tokens)` returns. */
  function Chunks(text: string, maxTokens: int): seq<string> {
    if EstimateTokens(text) <= maxTokens then [text]
    else ChunkFrom(SplitLines(text), MaxChars(maxTokens), [], 0)
  }

  lemma ShortTextIsOneChunk(text: string, maxTokens: int)
    requires EstimateTokens(text) <= maxTokens
    ensures Chunks(text, maxTokens) == [text]
  {
  }

  lemma {:induction false} FootprintAppend(cur: seq<string>, line: string)
    ensures Footprint(cur + [line]) == Footprint(cur) + |line| + 1
  {
    if cur == [] {
      assert cur + [line] == [line];
    } else {
      assert (cur + [line])[1..] == cur[1..] + [line];
      FootprintAppend(cur[1..], line);
    }
  }

  lemma {:induction false} JoinLength(cur: seq<string>)
    requires cur != []
    ensures |Join(cur, "\n")| + 1 == Footprint(cur)
  {
    if |cur| > 1 {
      JoinLength(cur[1..]);
    }
  }

  /** Every chunk of the greedy loop fits in m characters. */
  lemma {:induction false} ChunkFromBound(lines: seq<string>, m: nat, cur: seq<string>, curLen: nat)
    requires m > 0
    requires curLen == Footprint(cur) && curLen <= m
    ensures forall k :: 0 <= k < |ChunkFrom(lines, m, cur, curLen)| ==> |ChunkFrom(lines, m, cur, curLen)[k]| <= m
  {
    if cur != [] {
      JoinLength(cur);
    }
    if lines != [] {
      var line := lines[0];
      var len := |line| + 1;
      if curLen + len > m {
        if len >= m {
          ChunkFromBound(lines[1..], m, [], 0);
        } else {
          assert Footprint([line]) == len by { assert [line][1..] == []; }
          ChunkFromBound(lines[1..], m, [line], len);
        }
      } else {
        FootprintAppend(cur, line);
        ChunkFromBound(lines[1..], m, cur + [line], curLen + len);
      }
    }
  }

  /** When the estimate exceeds the ceiling, no chunk is longer than
      `MaxChars(maxTokens)`. */
  lemma ChunksBounded(text: string, maxTokens: int)
    requires EstimateTokens(text) > maxTokens
    ensures forall k :: 0 <= k < |Chunks(text, maxTokens)| ==> |Chunks(text, maxTokens)[k]| <= MaxChars(maxTokens)
  {
    ChunkFromBound(SplitLines(text), MaxChars(maxTokens), [], 0);
  }

  /** The text with its '\n' characters removed. */
  function DropNewlines(s: string): (r: string)
    ensures |r| <= |s|
  {
    if s == [] then [] else (if s[0] == '\n' then [] else [s[0]]) + DropNewlines(s[1..])
  }

  lemma {:induction false} DropNewlinesAppend(a: string, b: string)
    ensures DropNewlines(a + b) == DropNewlines(a) + DropNewlines(b)
  {
    if a == [] {
      assert a + b == b;
    } else {
      assert (a + b)[1..] == a[1..] + b;
      DropNewlinesAppend(a[1..], b);
    }
  }

  lemma {:induction false} DropNewlinesNoBreak(s: string)
    requires NoLineBreak(s)
    ensures DropNewlines(s) == s
  {
    if s != [] {
      assert !IsLineBreak(s[0]);
      DropNewlinesNoBreak(s[1..]);
    }
  }

  lemma {:induction false} DropNewlinesJoin(cur: seq<string>)
    requires forall k :: 0 <= k < |cur| ==> NoLineBreak(cur[k])
    ensures DropNewlines(Join(cur, "\n")) == Concat(cur)
  {
    if |cur| == 1 {
      DropNewlinesNoBreak(cur[0]);
      assert Concat(cur) == cur[0] + Concat([]);
    } else if |cur| > 1 {
      DropNewlinesJoin(cur[1..]);
      DropNewlinesNoBreak(cur[0]);
      DropNewlinesAppend(cur[0], "\n" + Join(cur[1..], "\n"));
      DropNewlinesAppend("\n", Join(cur[1..], "\n"));
      assert cur[0] + "\n" + Join(cur[1..], "\n") == cur[0] + ("\n" + Join(cur[1..], "\n"));
    }
  }

  lemma DropNewlinesConcat(a: seq<string>, b: seq<string>)
    ensures DropNewlines(Concat(a + b)) == DropNewlines(Concat(a)) + DropNewlines(Concat(b))
  {
    ConcatAppend(a, b);
    DropNewlinesAppend(Concat(a), Concat(b));
  }

  lemma ConcatSingle(x: string)
    ensures Concat([x]) == x
  {
    assert [x][1..] == [];
  }

  lemma FlushKeepsText(cur: seq<string>)
    requires forall k :: 0 <= k < |cur| ==> NoLineBreak(cur[k])
    ensures DropNewlines(Concat(Flush(cur))) == Concat(cur)
  {
    if cur != [] {
      DropNewlinesJoin(cur);
      ConcatSingle(Join(cur, "\n"));
    }
  }

  lemma HardCaseKeepsText(flushed: seq<string>, pieces: seq<string>, tail: seq<string>, before: string, line: string, after: string)
    requires DropNewlines(Concat(flushed)) == before
    requires Concat(pieces) == line && NoLineBreak(line)
    requires DropNewlines(Concat(tail)) == after
    ensures DropNewlines(Concat(flushed + pieces + tail)) == before + (line + after)
  {
    DropNewlinesNoBreak(line);
    DropNewlinesConcat(flushed, pieces);
    DropNewlinesConcat(flushed + pieces, tail);
    AppendAssoc(before, line, after);
  }

  lemma AppendAssoc(a: string, b: string, c: string)
    ensures (a + b) + c == a + (b + c)
  {
  }

  lemma FlushCaseKeepsText(flushed: seq<string>, tail: seq<string>, before: string, line: string, after: string)
    requires DropNewlines(Concat(flushed)) == before
    requires DropNewlines(Concat(tail)) == Concat([line]) + after
    ensures DropNewlines(Concat(flushed + tail)) == before + (line + after)
  {
    DropNewlinesConcat(flushed, tail);
    ConcatSingle(line);
  }

  lemma ExtendCaseKeepsText(cur: seq<string>, line: string, after: string, total: string)
    requires total == Concat(cur + [line]) + after
    ensures total == Concat(cur) + (line + after)
  {
    ConcatAppend(cur, [line]);
    ConcatSingle(line);
  }

  /** Nothing is lost or reordered: without the '\n' separators the chunks
      spell the chunk under construction followed by all remaining lines. */
  lemma {:induction false} ChunkFromKeepsText(lines: seq<string>, m: nat, cur: seq<string>, curLen: nat)
    requires m > 0
    requires forall k :: 0 <= k < |lines| ==> NoLineBreak(lines[k])
    requires forall k :: 0 <= k < |cur| ==> NoLineBreak(cur[k])
    ensures DropNewlines(Concat(ChunkFrom(lines, m, cur, curLen))) == Concat(cur) + Concat(lines)
  {
    FlushKeepsText(cur);
    if lines != [] {
      var len := |lines[0]| + 1;
      if curLen + len > m {
        if len >= m {
          ChunkFromKeepsText(lines[1..], m, [], 0);
          HardBranchKeepsText(lines, m, cur, curLen);
        } else {
          ChunkFromKeepsText(lines[1..], m, [lines[0]], len);
          FlushBranchKeepsText(lines, m, cur, curLen);
        }
      } else {
        ChunkFromKeepsText(lines[1..], m, cur + [lines[0]], curLen + len);
        ExtendBranchKeepsText(lines, m, cur, curLen);
      }
    }
  }

  lemma HardBranchKeepsText(lines: seq<string>, m: nat, cur: seq<string>, curLen: nat)
    requires m > 0 && lines != [] && NoLineBreak(lines[0])
    requires curLen + |lines[0]| + 1 > m && |lines[0]| + 1 >= m
    requires DropNewlines(Concat(Flush(cur))) == Concat(cur)
    requires DropNewlines(Concat(ChunkFrom(lines[1..], m, [], 0))) == Concat(lines[1..])
    ensures DropNewlines(Concat(ChunkFrom(lines, m, cur, curLen))) == Concat(cur) + Concat(lines)
  {
    var line := lines[0];
    HardCaseKeepsText(Flush(cur), HardSplit(line, m), ChunkFrom(lines[1..], m, [], 0), Concat(cur), line, Concat(lines[1..]));
  }

  lemma FlushBranchKeepsText(lines: seq<string>, m: nat, cur: seq<string>, curLen: nat)
    requires m > 0 && lines != []
    requires curLen + |lines[0]| + 1 > m && |lines[0]| + 1 < m
    requires DropNewlines(Concat(Flush(cur))) == Concat(cur)
    requires DropNewlines(Concat(ChunkFrom(lines[1..], m, [lines[0]], |lines[0]| + 1))) == Concat([lines[0]]) + Concat(lines[1..])
    ensures DropNewlines(Concat(ChunkFrom(lines, m, cur, curLen))) == Concat(cur) + Concat(lines)
  {
    var line := lines[0];
    FlushCaseKeepsText(Flush(cur), ChunkFrom(lines[1..], m, [line], |line| + 1), Concat(cur), line, Concat(lines[1..]));
  }

  lemma ExtendBranchKeepsText(lines: seq<string>, m: nat, cur: seq<string>, curLen: nat)
    requires m > 0 && lines != []
    requires curLen + |lines[0]| + 1 <= m
    requires DropNewlines(Concat(ChunkFrom(lines[1..], m, cur + [lines[0]], curLen + |lines[0]| + 1))) == Concat(cur + [lines[0]]) + Concat(lines[1..])
    ensures DropNewlines(Concat(ChunkFrom(lines, m, cur, curLen))) == Concat(cur) + Concat(lines)
  {
    var line := lines[0];
    ExtendCaseKeepsText(cur, line, Concat(lines[1..]), DropNewlines(Concat(ChunkFrom(lines[1..], m, cur + [line], curLen + |line| + 1))));
  }

  /** The chunker loses and reorders nothing: deleting the '\n' separators
      from the chunks gives the input lines run together. */
  lemma ChunksKeepText(text: string, maxTokens: int)
    requires EstimateTokens(text) > maxTokens
    ensures DropNewlines(Concat(Chunks(text, maxTokens))) == Concat(SplitLines(text))
  {
    ChunkFromKeepsText(SplitLines(text), MaxChars(maxTokens), [], 0);
  }

  /** The steps of the greedy loop, unfolded at position i: a line that
      does not fit and is too long on its own, one that does not fit, one
      that fits. */
  lemma ChunkFromHardStep(lines: seq<string>, i: nat, m: nat, cur: seq<string>, curLen: nat, done: seq<string>)
    requires m > 0 && i < |lines|
    requires curLen + |lines[i]| + 1 > m && |lines[i]| + 1 >= m
    ensures done + ChunkFrom(lines[i..], m, cur, curLen)
      == ((done + Flush(cur)) + HardSplit(lines[i], m)) + ChunkFrom(lines[i + 1..], m, [], 0)
  {
    assert lines[i..][0] == lines[i] && lines[i..][1..] == lines[i + 1..];
  }

  lemma ChunkFromFlushStep(lines: seq<string>, i: nat, m: nat, cur: seq<string>, curLen: nat, done: seq<string>)
    requires m > 0 && i < |lines|
    requires curLen + |lines[i]| + 1 > m && |lines[i]| + 1 < m
    ensures done + ChunkFrom(lines[i..], m, cur, curLen)
      == (done + Flush(cur)) + ChunkFrom(lines[i + 1..], m, [lines[i]], |lines[i]| + 1)
  {
    assert lines[i..][0] == lines[i] && lines[i..][1..] == lines[i + 1..];
  }

  lemma ChunkFromExtendStep(lines: seq<string>, i: nat, m: nat, cur: seq<string>, curLen: nat)
    requires m > 0 && i < |lines|
    requires curLen + |lines[i]| + 1 <= m
    ensures ChunkFrom(lines[i..], m, cur, curLen)
      == ChunkFrom(lines[i + 1..], m, cur + [lines[i]], curLen + |lines[i]| + 1)
  {
    assert lines[i..][0] == lines[i] && lines[i..][1..] == lines[i + 1..];
  }

  /** One slice of the inner loop: `line[pos:pos + m]`. */
  lemma HardSplitStep(line: string, pos: nat, m: nat)
    requires m > 0 && pos < |line|
    ensures var end := if pos + m < |line| then pos + m else |line|;
      HardSplit(line[pos..], m) == [line[pos..end]] + HardSplit(line[end..], m)
  {
    var end := if pos + m < |line| then pos + m else |line|;
    if pos + m < |line| {
      assert line[pos..][..m] == line[pos..end];
      assert line[pos..][m..] == line[end..];
    } else {
      assert line[pos..] == line[pos..end];
      assert line[end..] == [];
    }
  }

  /** The inner loop of `_chunk_text_for_summary`: appends
      `line[pos:pos + m]` for pos in range(0, len(line), m). */
  method AppendSlices(chunks: seq<string>, line: string, m: nat) returns (out: seq<string>)
    requires m > 0
    ensures out == chunks + HardSplit(line, m)
  {
    out := chunks;
    var pos := 0;
    while pos < |line|
      invariant 0 <= pos <= |line|
      invariant out + HardSplit(line[pos..], m) == chunks + HardSplit(line, m)
    {
      var end := if pos + m < |line| then pos + m else |line|;
      HardSplitStep(line, pos, m);
      out := out + [line[pos..end]];
      pos := end;
    }
    assert line[pos..] == [];
  }

  /** `_chunk_text_for_summary`, with its loop over the lines and its inner
      loop cutting an over-long line into slices. */
  method ChunkTextForSummary(text: string, maxTokens: int) returns (chunks: seq<string>)
    ensures chunks == Chunks(text, maxTokens)
  {
    if EstimateTokens(text) <= maxTokens {
      return [text];
    }
    chunks := ChunkLines(SplitLines(text), MaxChars(maxTokens));
  }

  /** The greedy loop over the lines of a text too long for one request. */
  method ChunkLines(lines: seq<string>, m: nat) returns (chunks: seq<string>)
    requires m > 0
    ensures chunks == ChunkFrom(lines, m, [], 0)
  {
    chunks := [];
    var cur: seq<string> := [];
    var curLen: nat := 0;
    var i := 0;
    while i < |lines|
      invariant 0 <= i <= |lines|
      invariant chunks + ChunkFrom(lines[i..], m, cur, curLen) == ChunkFrom(lines, m, [], 0)
    {
      var line := lines[i];
      var len := |line| + 1;
      if curLen + len > m {
        if len >= m {
          ChunkFromHardStep(lines, i, m, cur, curLen, chunks);
          chunks := AppendSlices(chunks + Flush(cur), line, m);
          cur, curLen := [], 0;
        } else {
          ChunkFromFlushStep(lines, i, m, cur, curLen, chunks);
          chunks := chunks + Flush(cur);
          cur, curLen := [line], len;
        }
      } else {
        ChunkFromExtendStep(lines, i, m, cur, curLen);
        cur, curLen := cur + [line], curLen + len;
      }
      i := i + 1;
    }
    assert lines[i..] == [];
    chunks := chunks + Flush(cur);
  }
}
