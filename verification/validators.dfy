/** The input checks: the shape of an OpenAI API key and of a YouTube video
    URL. Python's re.match anchors a pattern at the start of the string only,
    so a URL is accepted when some pattern matches a prefix of it. */
module Validators {
  import opened Text

  /** `validate_api_key`. */
  predicate ValidApiKey(key: string) {
    key != [] && StartsWith(key, "sk-") && |key| > 20
  }

  /** Every key of 20 characters or fewer is rejected, and so is every key
      not starting with "sk-"; the separate emptiness test never decides
      anything, since the two other tests alone accept a key. */
  lemma ApiKeyRejects(key: string)
    ensures |key| <= 20 ==> !ValidApiKey(key)
    ensures !StartsWith(key, "sk-") ==> !ValidApiKey(key)
    ensures StartsWith(key, "sk-") && |key| > 20 ==> ValidApiKey(key)
  {
  }

  /** The fixed parts of the four patterns after the scheme, with the
      optional "www." written out. */
  const Hosts: seq<string> := [
    "youtube.com/watch?v=", "www.youtube.com/watch?v=",
    "youtu.be/",
    "youtube.com/embed/", "www.youtube.com/embed/",
    "youtube.com/v/", "www.youtube.com/v/"]

  /** `https?://` in front of each host path. */
  function WithSchemes(hosts: seq<string>): (ps: seq<string>)
    ensures |ps| == 2 * |hosts|
  {
    if hosts == [] then [] else ["http://" + hosts[0], "https://" + hosts[0]] + WithSchemes(hosts[1..])
  }

  /** Host path j appears after "http://" at position 2j and after
      "https://" at position 2j + 1. */
  lemma {:induction false} WithSchemesAt(hosts: seq<string>, j: nat)
    requires j < |hosts|
    ensures WithSchemes(hosts)[2 * j] == "http://" + hosts[j]
    ensures WithSchemes(hosts)[2 * j + 1] == "https://" + hosts[j]
  {
    if j > 0 {
      WithSchemesAt(hosts[1..], j - 1);
      assert hosts[1..][j - 1] == hosts[j];
    }
  }

  /** The fourteen prefixes a URL may start with. */
  const UrlPrefixes: seq<string> := WithSchemes(Hosts)

  /** `[\w-]` with `\w` taken as the ASCII word characters. */
  predicate IsIdChar(c: char) {
    ('a' <= c <= 'z') || ('A' <= c <= 'Z') || ('0' <= c <= '9') || c == '_' || c == '-'
  }

  /** `re.match(prefix + r'[\w-]+', url)`: the prefix, then at least one
      id character. */
  predicate MatchesPattern(url: string, prefix: string) {
    StartsWith(url, prefix) && |url| > |prefix| && IsIdChar(url[|prefix|])
  }

  /** `any(re.match(p, url) for p in patterns)`, pattern by pattern. */
  predicate AnyMatch(url: string, prefixes: seq<string>) {
    prefixes != [] && (MatchesPattern(url, prefixes[0]) || AnyMatch(url, prefixes[1..]))
  }

  /** `validate_youtube_url`. */
  predicate ValidYoutubeUrl(url: string) {
    url != [] && AnyMatch(url, UrlPrefixes)
  }

  lemma {:induction false} AnyMatchIff(url: string, prefixes: seq<string>)
    ensures AnyMatch(url, prefixes) <==> exists k :: 0 <= k < |prefixes| && MatchesPattern(url, prefixes[k])
  {
    if prefixes != [] {
      AnyMatchIff(url, prefixes[1..]);
      if MatchesPattern(url, prefixes[0]) {
      } else if exists k :: 0 <= k < |prefixes| && MatchesPattern(url, prefixes[k]) {
        var k :| 0 <= k < |prefixes| && MatchesPattern(url, prefixes[k]);
        assert prefixes[1..][k - 1] == prefixes[k];
      }
    }
  }

  /** A URL is accepted exactly when one of the fourteen prefixes starts it
      and an id character follows; the empty URL never is. */
  lemma YoutubeUrlIff(url: string)
    ensures ValidYoutubeUrl(url) <==> exists k :: 0 <= k < |UrlPrefixes| && MatchesPattern(url, UrlPrefixes[k])
    ensures !ValidYoutubeUrl("")
  {
    AnyMatchIff(url, UrlPrefixes);
  }

  lemma MatchExtends(url: string, prefix: string, suffix: string)
    requires MatchesPattern(url, prefix)
    ensures MatchesPattern(url + suffix, prefix)
  {
    assert (url + suffix)[..|prefix|] == url[..|prefix|];
    assert (url + suffix)[|prefix|] == url[|prefix|];
  }

  /** Acceptance is closed under appending: matching is anchored only at the
      start, so a query string or anything else may follow an accepted URL. */
  lemma AcceptedExtends(url: string, suffix: string)
    requires ValidYoutubeUrl(url)
    ensures ValidYoutubeUrl(url + suffix)
  {
    YoutubeUrlIff(url);
    var k :| 0 <= k < |UrlPrefixes| && MatchesPattern(url, UrlPrefixes[k]);
    MatchExtends(url, UrlPrefixes[k], suffix);
    YoutubeUrlIff(url + suffix);
  }

  /** Every accepted URL starts with "http://" or "https://". */
  lemma AcceptedIsHttp(url: string)
    requires ValidYoutubeUrl(url)
    ensures StartsWith(url, "http://") || StartsWith(url, "https://")
  {
    YoutubeUrlIff(url);
    var k :| 0 <= k < |UrlPrefixes| && MatchesPattern(url, UrlPrefixes[k]);
    var j := k / 2;
    WithSchemesAt(Hosts, j);
    var scheme := if k == 2 * j then "http://" else "https://";
    assert UrlPrefixes[k] == scheme + Hosts[j];
    assert url[..|scheme|] == UrlPrefixes[k][..|scheme|];
  }

  lemma WatchPrefixListed()
    ensures UrlPrefixes[3] == "https://www.youtube.com/watch?v="
  {
    WithSchemesAt(Hosts, 1);
  }

  /** A watch URL followed by an id is accepted. */
  lemma WatchUrlAccepted(id: string)
    requires id != [] && IsIdChar(id[0])
    ensures ValidYoutubeUrl("https://www.youtube.com/watch?v=" + id)
  {
    WatchPrefixListed();
    var p := UrlPrefixes[3];
    var url := p + id;
    assert url[..|p|] == p && url[|p|] == id[0];
    assert MatchesPattern(url, UrlPrefixes[3]);
    YoutubeUrlIff(url);
  }

  /** A URL written without its scheme ("www.youtube.com/...") is
      rejected. */
  lemma SchemelessRejected(url: string)
    requires url == [] || url[0] != 'h'
    ensures !ValidYoutubeUrl(url)
  {
    if url != [] {
      assert |url| >= 7 ==> url[..7][0] == url[0];
      assert |url| >= 8 ==> url[..8][0] == url[0];
    }
    if ValidYoutubeUrl(url) {
      AcceptedIsHttp(url);
      assert false;
    }
  }
}
