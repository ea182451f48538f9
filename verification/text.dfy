/** String operations with the meaning Python gives them: str.strip(),
    str.splitlines(), str.startswith(), the `in` test, str.find(), str.join()
    and the ASCII part of str.lower(). Python strings are sequences of code
    points, modelled as Dafny strings (sequences of Unicode scalar values). */
module Text {
  import opened Wrappers

  /** The characters str.isspace() accepts; str.strip() with no argument
      removes exactly these from both ends. */
  predicate IsSpace(c: char) {
    || c == ' ' || c == '\t' || c == '\n' || c == '\r' || c == '\U{B}' || c == '\U{C}'
    || ('\U{1C}' <= c <= '\U{1F}')
    || c == '\U{85}' || c == '\U{A0}' || c == '\U{1680}'
    || ('\U{2000}' <= c <= '\U{200A}')
    || c == '\U{2028}' || c == '\U{2029}' || c == '\U{202F}' || c == '\U{205F}' || c == '\U{3000}'
  }

  /** The line boundaries of str.splitlines(); "\r\n" counts as one boundary. */
  predicate IsLineBreak(c: char) {
    || c == '\n' || c == '\r' || c == '\U{B}' || c == '\U{C}'
    || c == '\U{1C}' || c == '\U{1D}' || c == '\U{1E}'
    || c == '\U{85}' || c == '\U{2028}' || c == '\U{2029}'
  }

  predicate NoLineBreak(s: string) {
    forall j :: 0 <= j < |s| ==> !IsLineBreak(s[j])
  }

  predicate AllSpace(s: string) {
    forall j :: 0 <= j < |s| ==> IsSpace(s[j])
  }

  /** Neither end of `s` is whitespace (vacuous for the empty string). */
  predicate IsStripped(s: string) {
    s == [] || (!IsSpace(s[0]) && !IsSpace(s[|s| - 1]))
  }

  function TrimLeft(s: string): (r: string)
    ensures |r| <= |s| && r == s[|s| - |r|..]
    ensures r == [] || !IsSpace(r[0])
    ensures r == [] <==> AllSpace(s)
  {
    if s != [] && IsSpace(s[0]) then TrimLeft(s[1..]) else s
  }

  function TrimRight(s: string): (r: string)
    ensures |r| <= |s| && r == s[..|r|]
    ensures r == [] || !IsSpace(r[|r| - 1])
    ensures r == [] <==> AllSpace(s)
  {
    if s != [] && IsSpace(s[|s| - 1]) then TrimRight(s[..|s| - 1]) else s
  }

  /** str.strip(): the longest slice of `s` with no whitespace at either end. */
  function Strip(s: string): (r: string)
    ensures IsStripped(r)
    ensures r == [] <==> AllSpace(s)
    ensures IsSliceOf(r, s)
  {
    var t := TrimLeft(s);
    var r := TrimRight(t);
    var i := |s| - |t|;
    assert 0 <= i <= |s| - |r| && r == s[i..][..|r|];
    r
  }

  /** r is a contiguous piece of s. */
  ghost predicate IsSliceOf(r: string, s: string) {
    exists i :: 0 <= i <= |s| - |r| && r == s[i..][..|r|]
  }

  lemma StripKeepsNoLineBreak(s: string)
    requires NoLineBreak(s)
    ensures NoLineBreak(Strip(s))
  {
  }

  predicate StartsWith(s: string, prefix: string) {
    |prefix| <= |s| && s[..|prefix|] == prefix
  }

  predicate OccursAt(s: string, pat: string, k: nat) {
    k + |pat| <= |s| && s[k..k + |pat|] == pat
  }

  /** str.find(pat, k) as an Option: the first occurrence at or after k. */
  function IndexOfFrom(s: string, pat: string, k: nat): (r: Option<nat>)
    decreases |s| - k
    ensures r.Some? ==> k <= r.value && OccursAt(s, pat, r.value)
    ensures r.Some? ==> forall j :: k <= j < r.value ==> !OccursAt(s, pat, j)
    ensures r.None? ==> forall j :: k <= j ==> !OccursAt(s, pat, j)
  {
    if k + |pat| > |s| then None
    else if s[k..k + |pat|] == pat then Some(k)
    else IndexOfFrom(s, pat, k + 1)
  }

  function IndexOf(s: string, pat: string): Option<nat> {
    IndexOfFrom(s, pat, 0)
  }

  /** Python's `pat in s`. */
  predicate Contains(s: string, pat: string) {
    IndexOf(s, pat).Some?
  }

  /** The first occurrence is the one with none before it. */
  lemma IndexOfFirst(s: string, pat: string, k: nat)
    requires OccursAt(s, pat, k)
    requires forall j :: 0 <= j < k ==> !OccursAt(s, pat, j)
    ensures IndexOf(s, pat) == Some(k)
  {
  }

  lemma ContainsIff(s: string, pat: string)
    ensures Contains(s, pat) <==> exists k :: OccursAt(s, pat, k)
  {
  }

  /** s.split(sep)[0]: everything before the first occurrence of sep. */
  function BeforeFirst(s: string, sep: string): (r: string)
    ensures StartsWith(s, r)
  {
    match IndexOf(s, sep)
    case None => s
    case Some(j) => s[..j]
  }

  /** The piece before the first separator holds no separator. */
  lemma BeforeFirstExcludes(s: string, sep: string)
    requires sep != []
    ensures !Contains(BeforeFirst(s, sep), sep)
  {
    var r := BeforeFirst(s, sep);
    if Contains(r, sep) {
      var k := IndexOf(r, sep).value;
      assert r[k..k + |sep|] == s[k..k + |sep|];
      assert OccursAt(s, sep, k);
    }
  }

  /** A string with no occurrence of the separator is its own first piece. */
  lemma BeforeFirstWhole(s: string, sep: string)
    requires !Contains(s, sep)
    ensures BeforeFirst(s, sep) == s
  {
  }

  lemma ConcatAssoc<T>(a: seq<T>, b: seq<T>, c: seq<T>)
    ensures (a + b) + c == a + (b + c)
  {
  }

  /** The first piece keeps at least the first n characters when sep does
      not start before n. */
  lemma BeforeFirstLong(s: string, sep: string, n: nat)
    requires n <= |s|
    requires forall j :: 0 <= j < n ==> !OccursAt(s, sep, j)
    ensures n <= |BeforeFirst(s, sep)| && BeforeFirst(s, sep)[..n] == s[..n]
  {
  }

  /** s.split(sep)[1], defined when sep occurs in s: the text between the
      first and the second occurrence of sep (or the end of s). */
  function SecondField(s: string, sep: string): string
    requires Contains(s, sep)
  {
    var i := IndexOf(s, sep).value;
    BeforeFirst(s[i + |sep|..], sep)
  }

  /** sep.join(parts). */
  function Join(parts: seq<string>, sep: string): string {
    if |parts| == 0 then []
    else if |parts| == 1 then parts[0]
    else parts[0] + sep + Join(parts[1..], sep)
  }

  /** ''.join(parts). */
  function Concat(parts: seq<string>): string {
    if parts == [] then [] else parts[0] + Concat(parts[1..])
  }

  lemma {:induction false} ConcatAppend(a: seq<string>, b: seq<string>)
    ensures Concat(a + b) == Concat(a) + Concat(b)
  {
    if a == [] {
      assert a + b == b;
    } else {
      assert (a + b)[1..] == a[1..] + b;
      ConcatAppend(a[1..], b);
    }
  }

  lemma {:induction false} JoinAppend(parts: seq<string>, x: string, sep: string)
    ensures Join(parts + [x], sep) == if parts == [] then x else Join(parts, sep) + sep + x
  {
    if |parts| > 1 {
      assert (parts + [x])[1..] == parts[1..] + [x];
      JoinAppend(parts[1..], x, sep);
    } else if |parts| == 1 {
      assert (parts + [x])[1..] == [x];
    }
  }

  function Repeat(c: char, n: nat): (r: string)
    ensures |r| == n && forall j :: 0 <= j < n ==> r[j] == c
  {
    seq(n, _ => c)
  }

  function LowerChar(c: char): char {
    if 'A' <= c <= 'Z' then (c as int + 32) as char else c
  }

  /** str.lower() restricted to ASCII letters. */
  function Lower(s: string): (r: string)
    ensures |r| == |s|
  {
    seq(|s|, j requires 0 <= j < |s| => LowerChar(s[j]))
  }

  /** `(lang or default).lower()`, then every value other than "zh" and "en"
      becomes "en"; the same rule appears in the summariser, the session
      manager and the engine, each with its own default. */
  function NormalizeLanguage(lang: string, default: string): (r: string)
    ensures r == "zh" || r == "en"
    ensures r == "zh" <==> Lower(if lang == [] then default else lang) == "zh"
  {
    var l := Lower(if lang == [] then default else lang);
    if l == "zh" || l == "en" then l else "en"
  }

  /** The first boundary of str.splitlines() at or after k. */
  function FirstBreak(s: string, k: nat): (r: Option<nat>)
    decreases |s| - k
    ensures r.Some? ==> k <= r.value < |s| && IsLineBreak(s[r.value])
    ensures r.Some? ==> forall j :: k <= j < r.value ==> !IsLineBreak(s[j])
    ensures r.None? ==> forall j :: k <= j < |s| ==> !IsLineBreak(s[j])
  {
    if k >= |s| then None
    else if IsLineBreak(s[k]) then Some(k)
    else FirstBreak(s, k + 1)
  }

  /** str.splitlines(): lines without their terminators; a final terminator
      does not start an extra empty line and "" has no lines at all. */
  function SplitLines(s: string): (lines: seq<string>)
    decreases |s|
    ensures forall k :: 0 <= k < |lines| ==> NoLineBreak(lines[k])
  {
    if s == [] then []
    else match FirstBreak(s, 0)
      case None => [s]
      case Some(i) =>
        var w := if s[i] == '\r' && i + 1 < |s| && s[i + 1] == '\n' then 2 else 1;
        [s[..i]] + SplitLines(s[i + w..])
  }

  /** A non-empty text without boundaries is a single line. */
  lemma SplitLinesSingle(s: string)
    requires s != [] && NoLineBreak(s)
    ensures SplitLines(s) == [s]
  {
    match FirstBreak(s, 0)
    case None =>
    case Some(i) =>
      assert false;
  }

  /** Joining non-empty lines with "\n" and splitting again gives the lines
      back: the text a line filter writes can be read as exactly its lines. */
  lemma {:induction false} SplitLinesOfJoin(lines: seq<string>)
    requires forall k :: 0 <= k < |lines| ==> lines[k] != [] && NoLineBreak(lines[k])
    ensures SplitLines(Join(lines, "\n")) == lines
  {
    if |lines| == 0 {
    } else if |lines| == 1 {
      assert FirstBreak(lines[0], 0).None?;
    } else {
      var l := lines[0];
      var rest := Join(lines[1..], "\n");
      var s := l + "\n" + rest;
      assert Join(lines, "\n") == s;
      assert s[|l|] == '\n';
      assert forall j :: 0 <= j < |l| ==> s[j] == l[j];
      assert IsLineBreak(s[|l|]);
      assert forall j :: 0 <= j < |l| ==> !IsLineBreak(s[j]);
      assert FirstBreak(s, 0) == Some(|l|);
      assert s[..|l|] == l;
      assert s[|l| + 1..] == rest;
      SplitLinesOfJoin(lines[1..]);
    }
  }

  /** Python's `a < b` on str: lexicographic by code point, a proper prefix
      sorting first. */
  predicate Less(a: string, b: string) {
    if b == [] then false
    else if a == [] then true
    else if a[0] != b[0] then a[0] < b[0]
    else Less(a[1..], b[1..])
  }

  lemma {:induction false} LessTransitive(a: string, b: string, c: string)
    requires Less(a, b) && Less(b, c)
    ensures Less(a, c)
  {
    if a != [] && a[0] == b[0] && b[0] == c[0] {
      LessTransitive(a[1..], b[1..], c[1..]);
    }
  }

  lemma {:induction false} LessIrreflexive(a: string)
    ensures !Less(a, a)
  {
    if a != [] {
      LessIrreflexive(a[1..]);
    }
  }
}
