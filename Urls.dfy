/** URL validation, platform classification and sanitising, as
    `validate_url`, `determine_platform` and `sanitize_url` do them. The
    three scripts carry identical copies of the first two. */
module Urls {
  import opened Text

  datatype Platform = YouTube | Bilibili | Unsupported

  // ---------------------------------------------------------------------
  // The language each regular expression accepts under `re.match`
  // (anchored at the start only).

  /** `(https?\:\/\/)?` */
  predicate IsScheme(p: string) {
    p == "" || p == "http://" || p == "https://"
  }

  /** `(www\.youtube\.com|youtu\.?be)`: the optional dot makes `youtube`
      a host of its own. */
  predicate IsYouTubeHost(h: string) {
    h == "www.youtube.com" || h == "youtu.be" || h == "youtube"
  }

  predicate NoNewline(t: string) {
    forall k :: 0 <= k < |t| ==> t[k] != '\n'
  }

  /** `.+$`: one or more characters other than a newline, then the end of
      the string, where `$` also matches just before one final newline. */
  predicate YouTubeTail(t: string) {
    (|t| > 0 && NoNewline(t))
    || (|t| > 1 && t[|t| - 1] == '\n' && NoNewline(t[..|t| - 1]))
  }

  predicate IsAsciiAlnum(c: char) {
    ('0' <= c <= '9') || ('A' <= c <= 'Z') || ('a' <= c <= 'z')
  }

  /** What the YouTube pattern requires after the scheme: a host, a slash
      and a tail. */
  ghost predicate YouTubeHostPath(r: string) {
    exists host, tail :: IsYouTubeHost(host) && YouTubeTail(tail) && r == host + "/" + tail
  }

  /** The strings the YouTube pattern matches. */
  ghost predicate YouTubeShape(s: string) {
    exists scheme, r :: IsScheme(scheme) && YouTubeHostPath(r) && s == scheme + r
  }

  const BilibiliStem := "www.bilibili.com/video/BV"

  /** The strings the Bilibili pattern matches: the stem, one ASCII letter
      or digit, then anything at all (the pattern has no end anchor). */
  ghost predicate BilibiliShape(s: string) {
    exists scheme, rest ::
      IsScheme(scheme) && |rest| > 0 && IsAsciiAlnum(rest[0])
      && s == scheme + (BilibiliStem + rest)
  }

  // ---------------------------------------------------------------------
  // The matchers, scanning left to right as the regex engine does.

  /** Consumes the optional scheme; an `http` not followed by `://` or
      `s://` is left alone, because no host begins with `h`. */
  function StripScheme(s: string): (r: string)
    ensures exists p :: IsScheme(p) && s == p + r
  {
    if "https://" <= s then
      assert s == "https://" + s[8..];
      s[8..]
    else if "http://" <= s then
      assert s == "http://" + s[7..];
      s[7..]
    else
      assert s == "" + s;
      s
  }

  /** The host alternatives, tried in the pattern's order, then the tail. */
  function MatchYouTubeHost(r: string): bool {
    if "www.youtube.com/" <= r then YouTubeTail(r[16..])
    else if "youtu.be/" <= r then YouTubeTail(r[9..])
    else if "youtube/" <= r then YouTubeTail(r[8..])
    else false
  }

  function MatchYouTube(s: string): bool {
    MatchYouTubeHost(StripScheme(s))
  }

  function MatchBilibili(s: string): bool {
    var r := StripScheme(s);
    BilibiliStem <= r && |r| > 25 && IsAsciiAlnum(r[25])
  }

  /** If the scheme can be read off, the matcher sees exactly what follows it. */
  lemma StripSchemeOf(p: string, r: string)
    requires IsScheme(p)
    requires |r| > 0 && r[0] != 'h'
    ensures StripScheme(p + r) == r
  {
    if p == "" {
      assert p + r == r;
      assert !("https://" <= r) && !("http://" <= r);
    } else if p == "http://" {
      assert (p + r)[4] == ':';
      assert (p + r)[7..] == r;
    } else {
      assert (p + r)[8..] == r;
    }
  }

  /** After a YouTube host and its slash, the matcher checks the tail only. */
  lemma MatchYouTubeHostOf(host: string, tail: string)
    requires IsYouTubeHost(host)
    ensures MatchYouTubeHost(host + "/" + tail) == YouTubeTail(tail)
  {
    var r := host + "/" + tail;
    if host == "www.youtube.com" {
      assert r[16..] == tail;
    } else if host == "youtu.be" {
      assert r[0] == 'y';
      assert r[9..] == tail;
    } else {
      assert r[5] == 'b' && r[0] == 'y';
      assert r[8..] == tail;
    }
  }

  /** The YouTube matcher accepts every string of the pattern's language. */
  lemma MatchYouTubeComplete(scheme: string, host: string, tail: string)
    requires IsScheme(scheme) && IsYouTubeHost(host) && YouTubeTail(tail)
    ensures MatchYouTube(scheme + (host + "/" + tail))
  {
    StripSchemeOf(scheme, host + "/" + tail);
    MatchYouTubeHostOf(host, tail);
  }

  /** After the scheme, a string the host matcher accepts has the shape. */
  lemma MatchYouTubeHostSound(r: string)
    requires MatchYouTubeHost(r)
    ensures YouTubeHostPath(r)
  {
    if "www.youtube.com/" <= r {
      SplitAtPrefix("www.youtube.com" + "/", r);
    } else if "youtu.be/" <= r {
      SplitAtPrefix("youtu.be" + "/", r);
    } else {
      SplitAtPrefix("youtube" + "/", r);
    }
  }

  /** Every string the YouTube matcher accepts is in the pattern's language. */
  lemma MatchYouTubeSound(s: string)
    requires MatchYouTube(s)
    ensures YouTubeShape(s)
  {
    var r := StripScheme(s);
    var p :| IsScheme(p) && s == p + r;
    MatchYouTubeHostSound(r);
  }

  /** The YouTube matcher accepts exactly the language of the pattern. */
  lemma MatchYouTubeExact(s: string)
    ensures MatchYouTube(s) <==> YouTubeShape(s)
  {
    if YouTubeShape(s) {
      var scheme, r :| IsScheme(scheme) && YouTubeHostPath(r) && s == scheme + r;
      var host, tail :| IsYouTubeHost(host) && YouTubeTail(tail) && r == host + "/" + tail;
      MatchYouTubeComplete(scheme, host, tail);
    }
    if MatchYouTube(s) {
      MatchYouTubeSound(s);
    }
  }

  /** The Bilibili matcher accepts exactly the language of the pattern. */
  lemma {:induction false} MatchBilibiliExact(s: string)
    ensures MatchBilibili(s) <==> BilibiliShape(s)
  {
    if BilibiliShape(s) {
      var scheme, rest :|
        IsScheme(scheme) && |rest| > 0 && IsAsciiAlnum(rest[0])
        && s == scheme + (BilibiliStem + rest);
      var r := BilibiliStem + rest;
      StripSchemeOf(scheme, r);
      assert r[25] == rest[0];
    }
    if MatchBilibili(s) {
      var r := StripScheme(s);
      var p :| IsScheme(p) && s == p + r;
      SplitAtPrefix(BilibiliStem, r);
    }
  }

  /** `validate_url`: the YouTube pattern, else the Bilibili pattern. */
  function ValidUrl(url: string): bool {
    MatchYouTube(url) || MatchBilibili(url)
  }

  /** `validate_url` accepts exactly the union of the two patterns' languages. */
  lemma ValidUrlExact(url: string)
    ensures ValidUrl(url) <==> YouTubeShape(url) || BilibiliShape(url)
  {
    MatchYouTubeExact(url);
    MatchBilibiliExact(url);
  }

  /** After the scheme, a string starting with `y` or `b` does not start
      with the Bilibili stem. */
  lemma NotBilibiliAfterScheme(scheme: string, r: string)
    requires IsScheme(scheme) && |r| > 0 && (r[0] == 'y' || r[0] == 'b')
    ensures !MatchBilibili(scheme + r)
  {
    StripSchemeOf(scheme, r);
  }

  /** The YouTube pattern rejects `youtube.com` without `www.`. */
  lemma YouTubeWithoutWwwRejected(scheme: string, path: string)
    requires IsScheme(scheme)
    ensures !MatchYouTube(scheme + ("youtube.com/" + path))
  {
    var y := "youtube.com/" + path;
    StripSchemeOf(scheme, y);
    assert y[7] == '.' && y[5] == 'b' && y[0] == 'y';
  }

  /** After the scheme, a string starting with `b` matches no YouTube host. */
  lemma NotYouTubeAfterScheme(scheme: string, r: string)
    requires IsScheme(scheme) && |r| > 0 && r[0] == 'b'
    ensures !MatchYouTube(scheme + r)
  {
    StripSchemeOf(scheme, r);
  }

  /** A YouTube address without `www.` is rejected, and so is a Bilibili one. */
  lemma WithoutWwwRejected(scheme: string, path: string)
    requires IsScheme(scheme)
    ensures !ValidUrl(scheme + ("youtube.com/" + path))
    ensures !ValidUrl(scheme + ("bilibili.com/video/BV" + path))
  {
    YouTubeWithoutWwwRejected(scheme, path);
    NotBilibiliAfterScheme(scheme, "youtube.com/" + path);
    NotYouTubeAfterScheme(scheme, "bilibili.com/video/BV" + path);
    NotBilibiliAfterScheme(scheme, "bilibili.com/video/BV" + path);
  }

  /** The empty string is not a valid URL. */
  lemma EmptyUrlInvalid()
    ensures !ValidUrl("")
  {
  }

  /** Validation needs one letter or digit after `BV`, nothing more. */
  lemma BilibiliAcceptsAnySuffix(scheme: string, c: char, rest: string)
    requires IsScheme(scheme) && IsAsciiAlnum(c)
    ensures ValidUrl(scheme + BilibiliStem + [c] + rest)
  {
    var r := BilibiliStem + [c] + rest;
    assert scheme + BilibiliStem + [c] + rest == scheme + r;
    StripSchemeOf(scheme, r);
    assert r[25] == c;
  }

  // ---------------------------------------------------------------------
  // Classification.

  /** `determine_platform`: substring tests, the YouTube ones first. */
  function DeterminePlatform(url: string): Platform {
    if Contains(url, "youtube.com") || Contains(url, "youtu.be") then YouTube
    else if Contains(url, "bilibili.com") then Bilibili
    else Unsupported
  }

  /** The classification in terms of occurrences: YouTube when a YouTube
      host name occurs anywhere (even beside `bilibili.com`), Bilibili when
      only `bilibili.com` occurs, Unsupported when none does. */
  lemma DeterminePlatformExact(url: string)
    ensures DeterminePlatform(url) == YouTube <==>
      (exists i :: OccursAt(url, "youtube.com", i)) || (exists i :: OccursAt(url, "youtu.be", i))
    ensures DeterminePlatform(url) == Bilibili <==>
      && (forall i :: !OccursAt(url, "youtube.com", i))
      && (forall i :: !OccursAt(url, "youtu.be", i))
      && (exists i :: OccursAt(url, "bilibili.com", i))
    ensures DeterminePlatform(url) == Unsupported <==>
      && (forall i :: !OccursAt(url, "youtube.com", i))
      && (forall i :: !OccursAt(url, "youtu.be", i))
      && (forall i :: !OccursAt(url, "bilibili.com", i))
  {
    ContainsIff(url, "youtube.com");
    ContainsIff(url, "youtu.be");
    ContainsIff(url, "bilibili.com");
  }

  /** Every URL that passes the Bilibili pattern gets a downloader: it is
      classified Bilibili, or YouTube when a YouTube host also occurs in it. */
  lemma {:induction false} BilibiliShapeIsSupported(url: string)
    requires BilibiliShape(url)
    ensures DeterminePlatform(url) != Unsupported
  {
    var scheme, rest :|
      IsScheme(scheme) && |rest| > 0 && IsAsciiAlnum(rest[0])
      && url == scheme + (BilibiliStem + rest);
    ContainsInSecond(scheme, BilibiliStem + rest, "bilibili.com", 4);
  }

  /** A URL that passes validation is classified YouTube or Bilibili unless
      it has the bare `youtube` host. */
  lemma {:induction false} ValidUrlSupportedUnlessBareHost(url: string)
    requires ValidUrl(url)
    ensures DeterminePlatform(url) != Unsupported
         || exists scheme, tail :: IsScheme(scheme) && YouTubeTail(tail) && url == scheme + ("youtube" + "/" + tail)
  {
    ValidUrlExact(url);
    if BilibiliShape(url) {
      BilibiliShapeIsSupported(url);
    } else {
      var scheme, r :| IsScheme(scheme) && YouTubeHostPath(r) && url == scheme + r;
      var host, tail :| IsYouTubeHost(host) && YouTubeTail(tail) && r == host + "/" + tail;
      if host != "youtube" {
        DottedYouTubeHostClassified(scheme, host, tail);
      }
    }
  }

  /** A URL without a dot contains none of the three host names. */
  lemma DotlessUnsupported(url: string)
    requires '.' !in url
    ensures DeterminePlatform(url) == Unsupported
  {
    ContainedCharOccurs(url, "youtube.com", 7);
    ContainedCharOccurs(url, "youtu.be", 5);
    ContainedCharOccurs(url, "bilibili.com", 8);
  }

  /** The case exists: with the bare `youtube` host and a tail without a
      dot (`https://youtube/abc`), a URL is valid and unsupported. */
  lemma BareYouTubeHostUnsupported(scheme: string, tail: string)
    requires IsScheme(scheme) && YouTubeTail(tail) && '.' !in tail
    ensures ValidUrl(scheme + ("youtube" + "/" + tail))
    ensures DeterminePlatform(scheme + ("youtube" + "/" + tail)) == Unsupported
  {
    MatchYouTubeComplete(scheme, "youtube", tail);
    CharNotInConcat("youtube" + "/", tail, '.');
    CharNotInConcat(scheme, "youtube" + "/" + tail, '.');
    DotlessUnsupported(scheme + ("youtube" + "/" + tail));
  }

  /** A URL whose host name is `www.youtube.com` or `youtu.be` is
      classified YouTube, whatever its scheme and tail. */
  lemma DottedYouTubeHostClassified(scheme: string, host: string, tail: string)
    requires host == "www.youtube.com" || host == "youtu.be"
    ensures DeterminePlatform(scheme + (host + "/" + tail)) == YouTube
  {
    if host == "www.youtube.com" {
      ContainsInHost(scheme, host, "www.", "youtube.com", tail);
    } else {
      ContainsInHost(scheme, host, "", "youtu.be", tail);
    }
  }

  // ---------------------------------------------------------------------
  // Sanitising.

  /** Index of the first `c` in `s`. */
  function FirstIndex(s: string, c: char): (i: nat)
    requires c in s
    ensures i < |s| && s[i] == c && c !in s[..i]
  {
    if s[0] == c then 0
    else
      var i := FirstIndex(s[1..], c);
      assert s[..i + 1] == [s[0]] + s[1..][..i];
      i + 1
  }

  /** `sanitize_url`: `url.split("?")[0]`, the part before the first `?`. */
  function SanitizeUrl(url: string): (r: string)
    ensures '?' !in r
    ensures r <= url
    ensures '?' !in url ==> r == url
    ensures |r| < |url| ==> url[|r|] == '?'
  {
    if '?' in url then url[..FirstIndex(url, '?')] else url
  }

  /** Sanitising is idempotent. */
  lemma SanitizeIdempotent(url: string)
    ensures SanitizeUrl(SanitizeUrl(url)) == SanitizeUrl(url)
  {
  }
}
