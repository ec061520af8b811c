/** The `yt-dlp` argument lists the three scripts build, and a reader of
    such lists that plays yt-dlp's part: it says which settings a list
    passes, so each builder can be checked against what it means. */
module Commands {
  import opened Text
  import opened Urls
  import opened Wrappers

  const YouTubeFormat := "bestvideo[height<=1080]+bestaudio/best"
  const BilibiliFormat := "bv[height<=1080]+ba/best"
  const OutputTemplate := "%(title)s.%(ext)s"

  /** The `-f` selector of each supported platform. */
  function FormatFor(p: Platform): string
    requires p != Unsupported
  {
    if p == YouTube then YouTubeFormat else BilibiliFormat
  }

  /** The nine leading words every command shares. */
  function CommandHead(format: string, cookie: string, dir: string): seq<string> {
    ["yt-dlp", "--cookies", cookie, "-f", format, "--merge-output-format", "mp4",
     "-o", JoinPath(dir, OutputTemplate)]
  }

  /** `playlist_end and playlist_end != "-1"`. */
  predicate PlaylistEndGiven(playlistEnd: string) {
    playlistEnd != "" && playlistEnd != "-1"
  }

  /** The command of `download_videos` in the retrying variant, list literal
      and then `append`/`extend`: YouTube may end in `--yes-playlist`,
      Bilibili has `--all-subs` before the URL and may end in
      `--playlist-end N`. */
  function FinalCheckCommand(p: Platform, cookie: string, dir: string, url: string,
                             wholePlaylist: bool, playlistEnd: string): (c: seq<string>)
    requires p != Unsupported
    ensures 10 <= |c| && c[..9] == CommandHead(FormatFor(p), cookie, dir)
    ensures p == YouTube ==>
      |c| == (if wholePlaylist then 11 else 10) && c[9] == url
      && (wholePlaylist ==> c[10] == "--yes-playlist")
    ensures p == Bilibili ==>
      |c| == (if PlaylistEndGiven(playlistEnd) then 13 else 11)
      && c[9] == "--all-subs" && c[10] == url
      && (PlaylistEndGiven(playlistEnd) ==> c[11] == "--playlist-end" && c[12] == playlistEnd)
  {
    var head := CommandHead(FormatFor(p), cookie, dir);
    if p == YouTube then
      var c := head + [url];
      if wholePlaylist then c + ["--yes-playlist"] else c
    else
      var c := head + ["--all-subs", url];
      if PlaylistEndGiven(playlistEnd) then c + ["--playlist-end", playlistEnd] else c
  }

  /** The command of the batch and single-URL variants: `--verbose` just
      before the URL, no playlist options. */
  function VerboseCommand(p: Platform, cookie: string, dir: string, url: string): (c: seq<string>)
    requires p != Unsupported
    ensures |c| == 11 && c[..9] == CommandHead(FormatFor(p), cookie, dir)
    ensures c[9] == "--verbose" && c[10] == url
  {
    CommandHead(FormatFor(p), cookie, dir) + ["--verbose", url]
  }

  /** The Bilibili command of the retrying variant ignores the playlist box. */
  lemma BilibiliIgnoresPlaylistBox(cookie: string, dir: string, url: string, playlistEnd: string)
    ensures FinalCheckCommand(Bilibili, cookie, dir, url, true, playlistEnd)
         == FinalCheckCommand(Bilibili, cookie, dir, url, false, playlistEnd)
  {
  }

  /** The two verbose commands differ in the `-f` selector and nowhere else. */
  lemma VerboseCommandsDifferOnlyInFormat(cookie: string, dir: string, url: string)
    ensures var y, b := VerboseCommand(YouTube, cookie, dir, url), VerboseCommand(Bilibili, cookie, dir, url);
      |y| == |b| && y[4] != b[4] && forall i :: 0 <= i < |y| && i != 4 ==> y[i] == b[i]
  {
  }

  // ---------------------------------------------------------------------
  // Reading a command back.

  /** What a command asks of yt-dlp: option values, switches, and URLs. */
  datatype Settings = Settings(options: map<string, string>, switches: set<string>, urls: seq<string>)

  /** The options of these commands that take the following word as value. */
  predicate TakesValue(word: string) {
    word == "--cookies" || word == "-f" || word == "--merge-output-format"
    || word == "-o" || word == "--playlist-end"
  }

  predicate LooksLikeOption(word: string) {
    |word| > 0 && word[0] == '-'
  }

  /** Reads words left to right: a value-taking option consumes the next
      word whatever it is, another word starting with `-` is a switch, and
      any other word is a URL. An option left without value is an error. */
  function ReadFrom(words: seq<string>, acc: Settings): Option<Settings>
    decreases |words|
  {
    if words == [] then Some(acc)
    else if TakesValue(words[0]) then
      if |words| < 2 then None
      else ReadFrom(words[2..], acc.(options := acc.options[words[0] := words[1]]))
    else if LooksLikeOption(words[0]) then
      ReadFrom(words[1..], acc.(switches := acc.switches + {words[0]}))
    else
      ReadFrom(words[1..], acc.(urls := acc.urls + [words[0]]))
  }

  /** The settings a command line passes to the program it names first. */
  function ReadCommand(c: seq<string>): Option<Settings> {
    if c == [] then None else ReadFrom(c[1..], Settings(map[], {}, []))
  }

  /** The options every command passes. */
  function HeadOptions(format: string, cookie: string, dir: string): map<string, string> {
    map["--cookies" := cookie, "-f" := format, "--merge-output-format" := "mp4",
        "-o" := JoinPath(dir, OutputTemplate)]
  }

  lemma ReadValueStep(k: string, v: string, rest: seq<string>, acc: Settings)
    requires TakesValue(k)
    ensures ReadFrom([k, v] + rest, acc) == ReadFrom(rest, acc.(options := acc.options[k := v]))
  {
    assert ([k, v] + rest)[2..] == rest;
  }

  lemma ReadSwitchStep(w: string, rest: seq<string>, acc: Settings)
    requires !TakesValue(w) && LooksLikeOption(w)
    ensures ReadFrom([w] + rest, acc) == ReadFrom(rest, acc.(switches := acc.switches + {w}))
  {
    assert ([w] + rest)[1..] == rest;
  }

  lemma ReadUrlStep(w: string, rest: seq<string>, acc: Settings)
    requires !TakesValue(w) && !LooksLikeOption(w)
    ensures ReadFrom([w] + rest, acc) == ReadFrom(rest, acc.(urls := acc.urls + [w]))
  {
    assert ([w] + rest)[1..] == rest;
  }

  /** Reading the shared head leaves the four options in place, whatever
      the cookie path (even one that looks like an option). */
  lemma ReadHead(format: string, cookie: string, dir: string, rest: seq<string>)
    ensures ReadCommand(CommandHead(format, cookie, dir) + rest)
         == ReadFrom(rest, Settings(HeadOptions(format, cookie, dir), {}, []))
  {
    var o := JoinPath(dir, OutputTemplate);
    var r3 := ["-o", o] + rest;
    var r2 := ["--merge-output-format", "mp4"] + r3;
    var r1 := ["-f", format] + r2;
    var r0 := ["--cookies", cookie] + r1;
    assert (CommandHead(format, cookie, dir) + rest)[1..] == r0;
    var s0 := Settings(map[], {}, []);
    ReadValueStep("--cookies", cookie, r1, s0);
    var s1 := s0.(options := s0.options["--cookies" := cookie]);
    ReadValueStep("-f", format, r2, s1);
    var s2 := s1.(options := s1.options["-f" := format]);
    ReadValueStep("--merge-output-format", "mp4", r3, s2);
    var s3 := s2.(options := s2.options["--merge-output-format" := "mp4"]);
    ReadValueStep("-o", o, rest, s3);
    assert s3.options["-o" := o] == HeadOptions(format, cookie, dir);
  }

  /** The URL of a command is never mistaken for an option. */
  lemma ValidUrlNotOption(url: string)
    requires ValidUrl(url)
    ensures !LooksLikeOption(url) && !TakesValue(url)
  {
    var r := StripScheme(url);
    if r != url {
      assert url[0] == 'h';
    } else if !MatchBilibili(url) {
      assert url[0] == r[0];
    }
  }

  lemma ReadEnd(acc: Settings)
    ensures ReadFrom([], acc) == Some(acc)
  {
  }

  /** The retrying variant's YouTube command passes the chosen settings,
      the URL as its one URL, and `--yes-playlist` exactly when the
      playlist box is ticked. */
  lemma YouTubeCommandReadsBack(cookie: string, dir: string, url: string, wholePlaylist: bool, playlistEnd: string)
    requires ValidUrl(url)
    ensures ReadCommand(FinalCheckCommand(YouTube, cookie, dir, url, wholePlaylist, playlistEnd))
         == Some(Settings(HeadOptions(YouTubeFormat, cookie, dir),
                          if wholePlaylist then {"--yes-playlist"} else {}, [url]))
  {
    ValidUrlNotOption(url);
    YouTubeCommandWordsReadBack(cookie, dir, url, wholePlaylist, playlistEnd);
  }

  /** The same for any URL the reader cannot take for an option. */
  lemma YouTubeCommandWordsReadBack(cookie: string, dir: string, url: string, wholePlaylist: bool, playlistEnd: string)
    requires !LooksLikeOption(url) && !TakesValue(url)
    ensures ReadCommand(FinalCheckCommand(YouTube, cookie, dir, url, wholePlaylist, playlistEnd))
         == Some(Settings(HeadOptions(YouTubeFormat, cookie, dir),
                          if wholePlaylist then {"--yes-playlist"} else {}, [url]))
  {
    var c := FinalCheckCommand(YouTube, cookie, dir, url, wholePlaylist, playlistEnd);
    var tail: seq<string> := if wholePlaylist then ["--yes-playlist"] else [];
    var head := CommandHead(YouTubeFormat, cookie, dir);
    assert c == head + ([url] + tail);
    ReadHead(YouTubeFormat, cookie, dir, [url] + tail);
    var s0 := Settings(HeadOptions(YouTubeFormat, cookie, dir), {}, []);
    ReadUrlStep(url, tail, s0);
    var s1 := s0.(urls := s0.urls + [url]);
    assert ReadCommand(c) == ReadFrom(tail, s1);
    if wholePlaylist {
      assert tail == ["--yes-playlist"] + [];
      ReadSwitchStep("--yes-playlist", [], s1);
      var s2 := s1.(switches := s1.switches + {"--yes-playlist"});
      ReadEnd(s2);
      assert s2 == Settings(HeadOptions(YouTubeFormat, cookie, dir), {"--yes-playlist"}, [url]);
    } else {
      ReadEnd(s1);
      assert s1 == Settings(HeadOptions(YouTubeFormat, cookie, dir), {}, [url]);
    }
  }

  /** The words `extend` adds to a Bilibili command. */
  function PlaylistEndWords(playlistEnd: string): seq<string> {
    if PlaylistEndGiven(playlistEnd) then ["--playlist-end", playlistEnd] else []
  }

  lemma BilibiliCommandSplit(cookie: string, dir: string, url: string, wholePlaylist: bool, playlistEnd: string)
    ensures FinalCheckCommand(Bilibili, cookie, dir, url, wholePlaylist, playlistEnd)
         == CommandHead(BilibiliFormat, cookie, dir) + (["--all-subs"] + ([url] + PlaylistEndWords(playlistEnd)))
  {
  }

  lemma ReadPlaylistEnd(acc: Settings, playlistEnd: string)
    ensures ReadFrom(PlaylistEndWords(playlistEnd), acc)
         == Some(if PlaylistEndGiven(playlistEnd) then acc.(options := acc.options["--playlist-end" := playlistEnd]) else acc)
  {
    if PlaylistEndGiven(playlistEnd) {
      assert PlaylistEndWords(playlistEnd) == ["--playlist-end", playlistEnd] + [];
      ReadValueStep("--playlist-end", playlistEnd, [], acc);
    }
  }

  /** The retrying variant's Bilibili command passes the chosen settings,
      `--all-subs` as its one switch, the URL as its one URL, and
      `--playlist-end` exactly when an end is given. */
  lemma BilibiliCommandReadsBack(cookie: string, dir: string, url: string, wholePlaylist: bool, playlistEnd: string)
    requires ValidUrl(url)
    ensures ReadCommand(FinalCheckCommand(Bilibili, cookie, dir, url, wholePlaylist, playlistEnd))
         == Some(Settings(if PlaylistEndGiven(playlistEnd)
                          then HeadOptions(BilibiliFormat, cookie, dir)["--playlist-end" := playlistEnd]
                          else HeadOptions(BilibiliFormat, cookie, dir),
                          {"--all-subs"}, [url]))
  {
    ValidUrlNotOption(url);
    BilibiliCommandWordsReadBack(cookie, dir, url, wholePlaylist, playlistEnd);
  }

  /** The same for any URL the reader cannot take for an option. */
  lemma BilibiliCommandWordsReadBack(cookie: string, dir: string, url: string, wholePlaylist: bool, playlistEnd: string)
    requires !LooksLikeOption(url) && !TakesValue(url)
    ensures ReadCommand(FinalCheckCommand(Bilibili, cookie, dir, url, wholePlaylist, playlistEnd))
         == Some(Settings(if PlaylistEndGiven(playlistEnd)
                          then HeadOptions(BilibiliFormat, cookie, dir)["--playlist-end" := playlistEnd]
                          else HeadOptions(BilibiliFormat, cookie, dir),
                          {"--all-subs"}, [url]))
  {
    var tail := PlaylistEndWords(playlistEnd);
    BilibiliCommandSplit(cookie, dir, url, wholePlaylist, playlistEnd);
    ReadHead(BilibiliFormat, cookie, dir, ["--all-subs"] + ([url] + tail));
    var s0 := Settings(HeadOptions(BilibiliFormat, cookie, dir), {}, []);
    ReadSwitchStep("--all-subs", [url] + tail, s0);
    var s1 := s0.(switches := s0.switches + {"--all-subs"});
    ReadUrlStep(url, tail, s1);
    var s2 := s1.(urls := s1.urls + [url]);
    assert s2 == Settings(HeadOptions(BilibiliFormat, cookie, dir), {"--all-subs"}, [url]);
    ReadPlaylistEnd(s2, playlistEnd);
  }

  /** The verbose variants' command passes the chosen settings, the URL,
      and `--verbose` as its only switch. */
  lemma VerboseCommandReadsBack(p: Platform, cookie: string, dir: string, url: string)
    requires p != Unsupported && ValidUrl(url)
    ensures ReadCommand(VerboseCommand(p, cookie, dir, url))
         == Some(Settings(HeadOptions(FormatFor(p), cookie, dir), {"--verbose"}, [url]))
  {
    ValidUrlNotOption(url);
    VerboseCommandWordsReadBack(p, cookie, dir, url);
  }

  /** The same for any URL the reader cannot take for an option. */
  lemma VerboseCommandWordsReadBack(p: Platform, cookie: string, dir: string, url: string)
    requires p != Unsupported && !LooksLikeOption(url) && !TakesValue(url)
    ensures ReadCommand(VerboseCommand(p, cookie, dir, url))
         == Some(Settings(HeadOptions(FormatFor(p), cookie, dir), {"--verbose"}, [url]))
  {
    var c := VerboseCommand(p, cookie, dir, url);
    var head := CommandHead(FormatFor(p), cookie, dir);
    var tail: seq<string> := [];
    assert c == head + (["--verbose"] + ([url] + tail));
    ReadHead(FormatFor(p), cookie, dir, ["--verbose"] + ([url] + tail));
    var s0 := Settings(HeadOptions(FormatFor(p), cookie, dir), {}, []);
    ReadSwitchStep("--verbose", [url] + tail, s0);
    var s1 := s0.(switches := s0.switches + {"--verbose"});
    ReadUrlStep(url, tail, s1);
    var s2 := s1.(urls := s1.urls + [url]);
    ReadEnd(s2);
    assert s2 == Settings(HeadOptions(FormatFor(p), cookie, dir), {"--verbose"}, [url]);
  }
}
