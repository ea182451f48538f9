/** UTF-8 as RFC 3629 section 3 defines it, at the level of bytes: the
    encoder Python's str.encode('utf-8') applies, a decoder with the
    behaviour of bytes.decode('utf-8', errors='ignore') (ill-formed bytes
    are skipped), and the theorem the transcript truncation relies on:
    decoding a byte prefix of an encoded string gives back a character
    prefix of that string, never a split character. */
module Utf8 {
  import opened Wrappers

  type Byte = b: int | 0 <= b < 256

  /** The 1 to 4 bytes RFC 3629 assigns to one scalar value. */
  function EncodeChar(c: char): (bs: seq<Byte>)
    ensures 1 <= |bs| <= 4
  {
    var cp := c as int;
    var q1 := cp / 64;
    var q2 := q1 / 64;
    var q3 := q2 / 64;
    if cp < 0x80 then [cp]
    else if cp < 0x800 then [0xC0 + q1, 0x80 + cp % 64]
    else if cp < 0x10000 then [0xE0 + q2, 0x80 + q1 % 64, 0x80 + cp % 64]
    else [0xF0 + q3, 0x80 + q2 % 64, 0x80 + q1 % 64, 0x80 + cp % 64]
  }

  /** str.encode('utf-8'). */
  function Encode(s: string): seq<Byte> {
    if s == [] then [] else EncodeChar(s[0]) + Encode(s[1..])
  }

  /** The number of bytes str.encode('utf-8') produces. */
  function Size(s: string): nat {
    |Encode(s)|
  }

  predicate IsContinuation(b: Byte) {
    0x80 <= b < 0xC0
  }

  /** The length of the sequence a lead byte announces, 0 for a byte that
      cannot start a character (a continuation byte, 0xC0, 0xC1, 0xF5..0xFF). */
  function LeadWidth(b: Byte): nat {
    if b < 0x80 then 1
    else if 0xC2 <= b < 0xE0 then 2
    else if 0xE0 <= b < 0xF0 then 3
    else if 0xF0 <= b < 0xF5 then 4
    else 0
  }

  /** The character at the front of bs and its width, or None when the front
      bytes are not a well-formed sequence (truncated, overlong, a surrogate,
      or beyond U+10FFFF). */
  function DecodeOne(bs: seq<Byte>): (r: Option<(char, nat)>)
    requires |bs| > 0
    ensures r.Some? ==> 1 <= r.value.1 <= |bs|
  {
    var n := LeadWidth(bs[0]);
    if n == 0 || |bs| < n then None
    else if n >= 2 && !IsContinuation(bs[1]) then None
    else if n >= 3 && !IsContinuation(bs[2]) then None
    else if n == 4 && !IsContinuation(bs[3]) then None
    else if n == 1 then Some((bs[0] as char, 1))
    else
      var cp := Assemble(bs[..n]);
      if n == 2 then Some((cp as char, 2))
      else if n == 3 && (cp < 0x800 || (0xD800 <= cp < 0xE000)) then None
      else if n == 3 then Some((cp as char, 3))
      else if cp < 0x10000 || cp > 0x10FFFF then None
      else Some((cp as char, 4))
  }

  /** The scalar value a well-formed multi-byte sequence carries: the payload
      bits of the lead byte followed by six bits from each continuation byte. */
  function Assemble(bs: seq<Byte>): (cp: int)
    requires 2 <= |bs| <= 4 && LeadWidth(bs[0]) == |bs|
    requires forall k :: 1 <= k < |bs| ==> IsContinuation(bs[k])
    ensures |bs| == 2 ==> 0x80 <= cp < 0x800
    ensures |bs| == 3 ==> 0 <= cp < 0x10000
    ensures |bs| == 4 ==> 0 <= cp
  {
    var b0: int := bs[0];
    assert IsContinuation(bs[1]);
    var p1: int := (bs[1] as int) - 0x80;
    if |bs| == 2 then
      var hi := b0 - 0xC0;
      assert 2 <= hi < 32 && 0 <= p1 < 64;
      hi * 64 + p1
    else
      assert IsContinuation(bs[2]);
      var p2: int := (bs[2] as int) - 0x80;
      if |bs| == 3 then
        var lead := b0 - 0xE0;
        assert 0 <= lead < 16;
        var hi := lead * 64 + p1;
        assert 0 <= hi < 1024 && 0 <= p2 < 64;
        hi * 64 + p2
      else
        assert IsContinuation(bs[3]);
        var p3: int := (bs[3] as int) - 0x80;
        var lead := b0 - 0xF0;
        assert 0 <= lead < 5;
        var mid := lead * 64 + p1;
        assert 0 <= mid;
        var hi := mid * 64 + p2;
        assert 0 <= hi && 0 <= p3;
        hi * 64 + p3
  }

  /** bytes.decode('utf-8', errors='ignore'): well-formed sequences become
      characters, every byte that cannot begin one is dropped. */
  function DecodeIgnore(bs: seq<Byte>): string
    decreases |bs|
  {
    if bs == [] then []
    else match DecodeOne(bs)
      case Some((c, n)) => [c] + DecodeIgnore(bs[n..])
      case None => DecodeIgnore(bs[1..])
  }

  lemma DecodeOneOfEncoded(c: char, rest: seq<Byte>)
    ensures DecodeOne(EncodeChar(c) + rest) == Some((c, |EncodeChar(c)|))
  {
    var e := EncodeChar(c);
    var bs := e + rest;
    if |e| > 1 {
      assert bs[..|e|] == e;
      AssembleEncoded(c);
    }
  }

  lemma AssembleEncoded(c: char)
    requires |EncodeChar(c)| > 1
    ensures LeadWidth(EncodeChar(c)[0]) == |EncodeChar(c)|
    ensures forall k :: 1 <= k < |EncodeChar(c)| ==> IsContinuation(EncodeChar(c)[k])
    ensures Assemble(EncodeChar(c)) == c as int
  {
    var cp := c as int;
    var q1 := cp / 64;
    var q2 := q1 / 64;
    assert cp == q1 * 64 + cp % 64;
    assert q1 == q2 * 64 + q1 % 64;
    assert q2 == (q2 / 64) * 64 + q2 % 64;
  }

  lemma {:induction false} EncodeAppend(a: string, b: string)
    ensures Encode(a + b) == Encode(a) + Encode(b)
  {
    if a != [] {
      assert (a + b)[1..] == a[1..] + b;
      EncodeAppend(a[1..], b);
    } else {
      assert a + b == b;
    }
  }

  /** Round trip: decoding the encoding of a string gives the string back,
      whatever bytes follow it. */
  lemma {:induction false} DecodeOfEncodedPrefix(a: string, rest: seq<Byte>)
    ensures DecodeIgnore(Encode(a) + rest) == a + DecodeIgnore(rest)
  {
    if a != [] {
      var e := EncodeChar(a[0]);
      assert Encode(a) + rest == e + (Encode(a[1..]) + rest);
      DecodeOneOfEncoded(a[0], Encode(a[1..]) + rest);
      assert (e + (Encode(a[1..]) + rest))[|e|..] == Encode(a[1..]) + rest;
      DecodeOfEncodedPrefix(a[1..], rest);
    } else {
      assert Encode(a) + rest == rest;
    }
  }

  lemma DecodeEncode(s: string)
    ensures DecodeIgnore(Encode(s)) == s
  {
    DecodeOfEncodedPrefix(s, []);
    assert Encode(s) + [] == Encode(s);
  }

  lemma {:induction false} DecodeContinuations(bs: seq<Byte>)
    requires forall k :: 0 <= k < |bs| ==> IsContinuation(bs[k])
    ensures DecodeIgnore(bs) == []
  {
    if bs != [] {
      assert DecodeOne(bs).None?;
      DecodeContinuations(bs[1..]);
    }
  }

  /** A proper, non-empty prefix of one character's bytes decodes to nothing:
      errors='ignore' drops the incomplete sequence whole. */
  lemma DecodePartialChar(c: char, k: nat)
    requires 0 < k < |EncodeChar(c)|
    ensures DecodeIgnore(EncodeChar(c)[..k]) == []
  {
    var bs := EncodeChar(c)[..k];
    assert LeadWidth(bs[0]) == |EncodeChar(c)|;
    assert DecodeOne(bs).None?;
    DecodeContinuations(bs[1..]);
  }

  /** The number of leading characters of s whose encoding fits in budget
      bytes. */
  function FitLength(s: string, budget: nat): (k: nat)
    ensures k <= |s|
  {
    if s == [] then 0
    else if |EncodeChar(s[0])| <= budget then 1 + FitLength(s[1..], budget - |EncodeChar(s[0])|)
    else 0
  }

  lemma {:induction false} FitLengthProperties(s: string, budget: nat)
    ensures Size(s[..FitLength(s, budget)]) <= budget
    ensures FitLength(s, budget) < |s| ==> budget < Size(s[..FitLength(s, budget) + 1])
    ensures FitLength(s, budget) < |s| ==> budget - Size(s[..FitLength(s, budget)]) < 4
  {
    var k := FitLength(s, budget);
    if s != [] {
      var w := |EncodeChar(s[0])|;
      if w <= budget {
        FitLengthProperties(s[1..], budget - w);
        assert s[..k] == [s[0]] + s[1..][..k - 1];
        assert Encode(s[..k]) == EncodeChar(s[0]) + Encode(s[1..][..k - 1]);
        if k < |s| {
          assert s[..k + 1] == [s[0]] + s[1..][..k];
          assert Encode(s[..k + 1]) == EncodeChar(s[0]) + Encode(s[1..][..k]);
        }
      } else {
        assert s[..1] == [s[0]];
        assert Encode(s[..1]) == EncodeChar(s[0]) + Encode([]);
      }
    }
  }

  lemma FitLengthWhole(s: string, budget: nat)
    ensures FitLength(s, budget) == |s| ==> Size(s) <= budget
  {
    FitLengthProperties(s, budget);
    assert s[..|s|] == s;
  }

  /** A whole encoded character in front of any bytes decodes to itself. */
  lemma DecodeAfterChar(c: char, rest: seq<Byte>)
    ensures DecodeIgnore(EncodeChar(c) + rest) == [c] + DecodeIgnore(rest)
  {
    var e := EncodeChar(c);
    DecodeOneOfEncoded(c, rest);
    assert (e + rest)[|e|..] == rest;
  }

  /** Truncating the encoding of s to n bytes and decoding with
      errors='ignore' yields the longest character prefix of s that fits in
      n bytes. */
  lemma {:induction false} DecodeTruncated(s: string, n: nat)
    requires n <= Size(s)
    ensures DecodeIgnore(Encode(s)[..n]) == s[..FitLength(s, n)]
  {
    if s != [] {
      var e := EncodeChar(s[0]);
      if |e| <= n {
        DecodeTruncated(s[1..], n - |e|);
        DecodeTruncatedWhole(s, n);
      } else if n > 0 {
        DecodeTruncatedPartial(s, n);
      }
    }
  }

  lemma PrefixOfAppend<T>(a: seq<T>, b: seq<T>, n: nat)
    requires |a| <= n <= |a| + |b|
    ensures (a + b)[..n] == a + b[..n - |a|]
  {
  }

  lemma ConsPrefix<T>(s: seq<T>, k: nat)
    requires k < |s|
    ensures s[..k + 1] == [s[0]] + s[1..][..k]
  {
  }

  /** The first character fits: it is decoded, then the rest. */
  lemma DecodeTruncatedWhole(s: string, n: nat)
    requires s != [] && |EncodeChar(s[0])| <= n <= Size(s)
    requires DecodeIgnore(Encode(s[1..])[..n - |EncodeChar(s[0])|])
      == s[1..][..FitLength(s[1..], n - |EncodeChar(s[0])|)]
    ensures DecodeIgnore(Encode(s)[..n]) == s[..FitLength(s, n)]
  {
    var e := EncodeChar(s[0]);
    var tail := Encode(s[1..])[..n - |e|];
    PrefixOfAppend(e, Encode(s[1..]), n);
    DecodeAfterChar(s[0], tail);
    ConsPrefix(s, FitLength(s[1..], n - |e|));
  }

  /** The first character does not fit: its partial bytes decode to
      nothing. */
  lemma DecodeTruncatedPartial(s: string, n: nat)
    requires s != [] && 0 < n < |EncodeChar(s[0])|
    ensures DecodeIgnore(Encode(s)[..n]) == s[..FitLength(s, n)]
  {
    var e := EncodeChar(s[0]);
    assert Encode(s)[..n] == e[..n];
    DecodePartialChar(s[0], n);
  }

  /** `s.encode('utf-8')[:n].decode('utf-8', errors='ignore')` keeps whole
      characters only: the result is a prefix of s whose encoding fits in n
      bytes, and it stops short of n only by the bytes of one dropped
      character (fewer than 4). */
  function TruncateToBytes(s: string, n: nat): (r: string)
    ensures StartsWithChars(s, r)
    ensures Size(r) <= n
    ensures Size(s) <= n ==> r == s
    ensures Size(s) > n ==> |r| < |s| && n < Size(s[..|r| + 1]) && n - Size(r) < 4
  {
    var bs := Encode(s);
    if |bs| <= n then
      DecodeEncode(s);
      assert bs[..|bs|] == bs;
      DecodeIgnore(bs)
    else
      DecodeTruncated(s, n);
      FitLengthProperties(s, n);
      FitLengthWhole(s, n);
      DecodeIgnore(bs[..n])
  }

  predicate StartsWithChars(s: string, prefix: string) {
    |prefix| <= |s| && s[..|prefix|] == prefix
  }
}
