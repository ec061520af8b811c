# yt-dlp desktop front-ends: a verified model of the download core

The repository holds three near-identical tkinter programs that wrap the
`yt-dlp` downloader for YouTube and Bilibili:

- `src/yt_bli_gui_pi_add_final_check.py`, the retrying variant: one URL,
  playlist options, and up to three launches of `yt-dlp` until one exits
  with code 0;
- `yt_bli_gui_pi.py`, the batch variant: a list of URLs, from a file or the
  URL field, checked as a whole and downloaded one after another with a
  progress bar;
- `yt_bli_gui_clear.py`, the single-URL variant: one launch, a log file
  started afresh, and a message box at the end.

With the widgets stripped away, each program validates URLs with two
regular expressions, classifies them by substring, builds a `yt-dlp`
argument list, runs it, and copies the child's output to a log file and to
the log panel. The batch and single-URL variants also move the progress bar
on `[download]` lines; the retrying variant never touches it. This project
models that core in Dafny and proves what it does.

Modules:

- `Text`: `str.strip` (with Python's `isspace` set), the `in` substring
  test, `str(int)`, `' '.join` and `os.path.join` (POSIX rules).
- `Urls`: `validate_url`, `determine_platform` and `sanitize_url`. The
  languages of the two patterns under `re.match` are written out as
  predicates, and the greedy matchers are proved to accept exactly them.
  The three files carry identical copies of `validate_url` and
  `determine_platform` (`yt_bli_gui_pi.py:8-18`, `yt_bli_gui_clear.py:9-20`);
  one model serves all three.
- `Progress`: `parse_progress` as a leftmost search for `\d+(\.\d+)?%`,
  proved against the pattern's language. The value is an exact `real`.
  Also the line gate of the download loops and the bar's value after a run
  of lines. The two copies in `yt_bli_gui_pi.py:38-42` and
  `yt_bli_gui_clear.py:37-41` are identical to the first.
- `Commands`: the argument lists of the three variants, and a reader that
  plays yt-dlp's part. It turns an argument list back into the options,
  switches and URLs it passes, so each builder is checked against what it
  means.
- `Desktop`: the state a download worker changes, as a class `Window`:
  the GUI window together with the disk and the child processes it
  starts. Its fields are the log panel, the progress value, the message boxes
  shown, the files and directories on disk, and the commands handed to
  `Popen`. Its methods are the primitives the scripts use on that state.
- `Sequences`: order-preserving containment ("every log line is in the
  panel, in order").
- `FinalCheck`, `Batch`, `Single`: the worker of each variant, as a method
  on `Window` proved against specification functions of the inputs, with
  lemmas about those functions.

The child process is an input. An `Attempt` is either `Exited(lines, code)`
or `LaunchFailed(error)`. The retrying variant takes `run(k)` for its k-th
launch. The batch variant takes `run(i)` for the URL at position `i`. The
single-URL variant takes one `Attempt`. Widget reads are parameters: the
text fields as typed, and the playlist check box as a `bool`.

Three details of the code that the model keeps:

- the YouTube pattern needs `www.youtube.com`, `youtu.be` or a bare
  `youtube` host, so `youtube.com/...` is rejected;
- `yt_bli_gui_clear.py` opens its log with `"w"`, not for appending;
- `sanitize_url` is defined but never called.

## Model

| member | source | states |
|---|---|---|
| Text.StripLeft | src/yt_bli_gui_pi_add_final_check.py:72-76 | the result is a suffix of the input; everything removed before it is white space; it does not start with white space |
| Text.StripRight | src/yt_bli_gui_pi_add_final_check.py:72-76 | the result is a prefix of the input; everything removed after it is white space; it does not end with white space |
| Text.Strip | src/yt_bli_gui_pi_add_final_check.py:72-76 | `str.strip()` neither starts nor ends with white space |
| Text.StripInfix | src/yt_bli_gui_pi_add_final_check.py:72-76 | the strip is the infix of the input that has only white space on either side of it |
| Text.StripIdempotent | yt_bli_gui_pi.py:58 | stripping twice is stripping once |
| Text.StripOfStripped | yt_bli_gui_pi.py:58 | a string with no white space at either end is its own strip |
| Text.StripEmptyIff | yt_bli_gui_pi.py:58 | a line strips to `""` (and is dropped) exactly when it is all white space |
| Text.ContainsIff | src/yt_bli_gui_pi_add_final_check.py:14-19 | `sub in s` holds exactly when `sub` occurs in `s` at some index |
| Text.NatToString | src/yt_bli_gui_pi_add_final_check.py:63 | `str(n)` is a non-empty string of decimal digits with no leading zero |
| Text.NatToStringRoundTrip | src/yt_bli_gui_pi_add_final_check.py:63 | reading the digits of `str(n)` back gives `n` |
| Text.IntToString | src/yt_bli_gui_pi_add_final_check.py:66 | `str(i)` is non-empty and starts with `-` exactly when `i` is negative |
| Text.Join | src/yt_bli_gui_pi_add_final_check.py:121 | `' '.join` of one word is that word; a non-empty join starts with its first word |
| Text.JoinPath | src/yt_bli_gui_pi_add_final_check.py:91 | `os.path.join(a, b)` ends with `b`; for a relative `b` it starts with `a`, and it is `a + "/" + b` when `a` is non-empty and does not end in `/` |
| Urls.StripScheme | src/yt_bli_gui_pi_add_final_check.py:10 | the input is an optional `http://`/`https://` followed by the result |
| Urls.StripSchemeOf | src/yt_bli_gui_pi_add_final_check.py:10 | after a scheme, a remainder that does not start with `h` is exactly what the host matcher sees |
| Urls.MatchYouTubeHostOf | src/yt_bli_gui_pi_add_final_check.py:10 | after any of the three YouTube hosts and `/`, the match depends on the tail only |
| Urls.MatchYouTubeComplete | src/yt_bli_gui_pi_add_final_check.py:10 | every scheme + host + `/` + tail of the YouTube pattern's language is matched |
| Urls.MatchYouTubeSound | src/yt_bli_gui_pi_add_final_check.py:10 | every string the YouTube matcher accepts has the pattern's shape |
| Urls.MatchYouTubeExact | src/yt_bli_gui_pi_add_final_check.py:10 | the YouTube matcher accepts exactly the pattern's language (`$` allowing one final newline) |
| Urls.MatchBilibiliExact | src/yt_bli_gui_pi_add_final_check.py:11 | the Bilibili matcher accepts exactly scheme + `www.bilibili.com/video/BV` + one ASCII letter or digit + any suffix |
| Urls.ValidUrlExact | src/yt_bli_gui_pi_add_final_check.py:9-12 | `validate_url` accepts exactly the union of the two patterns' languages |
| Urls.NotBilibiliAfterScheme | src/yt_bli_gui_pi_add_final_check.py:11 | after a scheme, a string starting with `y` or `b` fails the Bilibili pattern |
| Urls.YouTubeWithoutWwwRejected | src/yt_bli_gui_pi_add_final_check.py:10 | `youtube.com/...` without `www.` fails the YouTube pattern, whatever the scheme |
| Urls.NotYouTubeAfterScheme | src/yt_bli_gui_pi_add_final_check.py:10 | after a scheme, a string starting with `b` fails the YouTube pattern |
| Urls.WithoutWwwRejected | src/yt_bli_gui_pi_add_final_check.py:9-12 | `youtube.com/...` and `bilibili.com/video/BV...` without `www.` are invalid |
| Urls.EmptyUrlInvalid | yt_bli_gui_clear.py:52-54 | the empty URL is invalid, so clearing the field gives the invalid-URL error |
| Urls.BilibiliAcceptsAnySuffix | src/yt_bli_gui_pi_add_final_check.py:11 | one letter or digit after `BV` validates, whatever follows (no end anchor) |
| Urls.DeterminePlatformExact | src/yt_bli_gui_pi_add_final_check.py:14-19 | YouTube iff `youtube.com` or `youtu.be` occurs (even beside `bilibili.com`); Bilibili iff only `bilibili.com` occurs; Unsupported iff none does |
| Urls.BilibiliShapeIsSupported | src/yt_bli_gui_pi_add_final_check.py:14-19 | a URL of the Bilibili pattern is never classified Unsupported |
| Urls.ValidUrlSupportedUnlessBareHost | src/yt_bli_gui_pi_add_final_check.py:82-119 | a valid URL is classified YouTube or Bilibili unless it has the bare `youtube` host |
| Urls.DotlessUnsupported | src/yt_bli_gui_pi_add_final_check.py:14-19 | a URL without a dot is Unsupported |
| Urls.BareYouTubeHostUnsupported | src/yt_bli_gui_pi_add_final_check.py:117-119 | `scheme + "youtube/" + tail` without a dot (`https://youtube/abc`) is valid and Unsupported, so it reaches the unsupported branch |
| Urls.DottedYouTubeHostClassified | src/yt_bli_gui_pi_add_final_check.py:14-16 | a URL with host `www.youtube.com` or `youtu.be` is classified YouTube |
| Urls.FirstIndex | src/yt_bli_gui_pi_add_final_check.py:23-24 | the index of the first `c`: it holds `c` and nothing before it does |
| Urls.SanitizeUrl | src/yt_bli_gui_pi_add_final_check.py:21-25 | the result has no `?`, is a prefix of the input, is the input when it has no `?`, and is followed in the input by `?` when shorter |
| Urls.SanitizeIdempotent | src/yt_bli_gui_pi_add_final_check.py:21-25 | sanitising twice is sanitising once |
| Progress.DigitRunEnd | src/yt_bli_gui_pi_add_final_check.py:40 | the end of the maximal run of digits from `i` |
| Progress.DigitRunEndIs | src/yt_bli_gui_pi_add_final_check.py:40 | any maximal digit run from `i` ends where `DigitRunEnd` says |
| Progress.MatchEndAt | src/yt_bli_gui_pi_add_final_check.py:40 | a `%` position it returns ends a match of the pattern starting at `i` |
| Progress.MatchEndAtComplete | src/yt_bli_gui_pi_add_final_check.py:40 | every match starting at `i` is the one the greedy matcher returns |
| Progress.MatchEndAtExact | src/yt_bli_gui_pi_add_final_check.py:40 | the pattern matches from `i` to `k` exactly when the greedy matcher returns `k` |
| Progress.SearchFrom | src/yt_bli_gui_pi_add_final_check.py:40 | `re.search` from `i`: the first start with a match, and no match starts before it; none at all when it returns nothing |
| Progress.LeftmostUnique | src/yt_bli_gui_pi_add_final_check.py:40 | the leftmost match is unique |
| Progress.ParseProgress | src/yt_bli_gui_pi_add_final_check.py:39-43 | a value exactly when the pattern matches, and then the value of the leftmost match's number |
| Progress.ParseProgressNoneIff | src/yt_bli_gui_pi_add_final_check.py:39-43 | `None` exactly when no digit is immediately followed by `%` |
| Progress.FirstNumberReported | src/yt_bli_gui_pi_add_final_check.py:39-43 | a line whose first digit starts a number followed by `%` reports that number, whatever follows |
| Progress.DecimalValueExample | src/yt_bli_gui_pi_add_final_check.py:42 | the number text `42.5` has the value 42.5 |
| Progress.DownloadLineExample | yt_bli_gui_pi.py:111-115 | `[download]  42.5%...` reports 42.5 |
| Progress.PercentTestRedundant | yt_bli_gui_pi.py:111-113 | a line that parses has a `%` in it, so the `"%" in line` test adds nothing |
| Progress.DigitPercentContainsPercent | yt_bli_gui_pi.py:111 | a line with a digit followed by `%` contains `%` |
| Progress.GatedProgressIff | yt_bli_gui_pi.py:111-115 | a line moves the bar exactly when it contains `[download]` and a digit immediately followed by `%` |
| Progress.ProgressAfterStep | yt_bli_gui_pi.py:108-118 | one more line changes the bar only when it passes the gate, and then to its value |
| Progress.ProgressUnchangedWithoutGated | yt_bli_gui_pi.py:111-115 | lines that pass no gate leave the bar where it was |
| Progress.ProgressTakesLastGated | yt_bli_gui_clear.py:100-104 | otherwise the bar shows the value of the last line that passes |
| Commands.FinalCheckCommand | src/yt_bli_gui_pi_add_final_check.py:94-116 | the common nine-word head; YouTube: the URL tenth, then `--yes-playlist` iff the box is ticked; Bilibili: `--all-subs` then the URL, then `--playlist-end N` iff N is given and not `-1` |
| Commands.VerboseCommand | yt_bli_gui_pi.py:77-96 | the common head, then `--verbose` and the URL, eleven words |
| Commands.BilibiliIgnoresPlaylistBox | src/yt_bli_gui_pi_add_final_check.py:105-116 | the Bilibili command is the same whether the playlist box is ticked or not |
| Commands.VerboseCommandsDifferOnlyInFormat | yt_bli_gui_clear.py:65-84 | the YouTube and Bilibili commands differ in the `-f` value and nowhere else |
| Commands.ReadHead | src/yt_bli_gui_pi_add_final_check.py:95-100 | the head passes the cookie file, the format, `mp4` and the output template, whatever the cookie path looks like |
| Commands.ValidUrlNotOption | src/yt_bli_gui_pi_add_final_check.py:9-12 | a valid URL never starts with `-`, so yt-dlp cannot take it for an option |
| Commands.YouTubeCommandReadsBack | src/yt_bli_gui_pi_add_final_check.py:94-104 | for a valid URL the YouTube command passes the four options, the URL as its only URL, and `--yes-playlist` as its only switch iff the box is ticked |
| Commands.YouTubeCommandWordsReadBack | src/yt_bli_gui_pi_add_final_check.py:95-104 | the same for any URL that does not look like an option |
| Commands.BilibiliCommandSplit | src/yt_bli_gui_pi_add_final_check.py:106-116 | the Bilibili command is the head, `--all-subs`, the URL, then the playlist-end words |
| Commands.ReadPlaylistEnd | src/yt_bli_gui_pi_add_final_check.py:115-116 | the extension sets `--playlist-end` exactly when an end is given |
| Commands.BilibiliCommandReadsBack | src/yt_bli_gui_pi_add_final_check.py:105-116 | for a valid URL the Bilibili command passes the four options, plus `--playlist-end` iff given, `--all-subs` as its only switch, and the URL as its only URL |
| Commands.BilibiliCommandWordsReadBack | src/yt_bli_gui_pi_add_final_check.py:106-116 | the same for any URL that does not look like an option |
| Commands.VerboseCommandReadsBack | yt_bli_gui_pi.py:77-96 | for a valid URL the verbose command passes the four options with the platform's format, `--verbose` as its only switch, and the URL |
| Commands.VerboseCommandWordsReadBack | yt_bli_gui_clear.py:65-84 | the same for any URL that does not look like an option |
| Desktop.Window.Say | yt_bli_gui_pi.py:98 | `log_text.insert` appends one string to the panel and changes nothing else |
| Desktop.Window.Show | yt_bli_gui_pi.py:55 | a message box is recorded after the earlier ones, nothing else changes |
| Desktop.Window.SetProgress | yt_bli_gui_pi.py:114 | the progress value becomes `v`, nothing else changes |
| Desktop.Window.EnsureDirectory | yt_bli_gui_pi.py:69-70 | succeeds iff the path is not blank; a missing path is added to the directories |
| Desktop.Window.OpenLog | yt_bli_gui_pi.py:105 | `"a"` keeps an existing file, `"w"` empties it; either creates a missing one |
| Desktop.Window.WriteLine | yt_bli_gui_pi.py:109 | the line is appended to the open file |
| Desktop.Window.Launch | yt_bli_gui_pi.py:106 | the command is recorded as launched |
| Desktop.Window.Relay | src/yt_bli_gui_pi_add_final_check.py:54-57 | every output line goes to the log file and to the panel, in order; the bar does not move |
| Desktop.Window.RelayWithProgress | yt_bli_gui_pi.py:108-118 | as `Relay`, and the bar ends at the value the gated lines give it |
| FinalCheck.Repeat | src/yt_bli_gui_pi_add_final_check.py:53 | `n` launches of the same command |
| FinalCheck.TryOnce | src/yt_bli_gui_pi_add_final_check.py:52-67 | one attempt: succeeds iff exit code 0; launches once; logs the output; the panel gets the output and `Attempt k+1/limit` after a failed exit, or the error notice with the old count after a launch exception |
| FinalCheck.RetryDownload | src/yt_bli_gui_pi_add_final_check.py:49-68 | result, launches, panel and log are those of the retry trace from attempt 0 |
| FinalCheck.AttemptsBounded | src/yt_bli_gui_pi_add_final_check.py:50-51 | at most `retry_limit` launches, none when it is not positive |
| FinalCheck.NoAttemptWithoutLimit | src/yt_bli_gui_pi_add_final_check.py:51 | with `retry_limit <= 0`: no launch, no line, result False |
| FinalCheck.SucceedsIff | src/yt_bli_gui_pi_add_final_check.py:59-60 | True exactly when one of the first `retry_limit` launches exits with code 0 |
| FinalCheck.StopsAtFirstSuccess | src/yt_bli_gui_pi_add_final_check.py:58-60 | the loop stops right after the first launch that exits with 0 |
| FinalCheck.ExhaustsLimit | src/yt_bli_gui_pi_add_final_check.py:61-68 | with no success, exactly `retry_limit` launches and result False; a launch exception uses up an attempt |
| FinalCheck.OnlyMadeAttemptsMatter | src/yt_bli_gui_pi_add_final_check.py:51-53 | runs that agree on the launches actually made give the same trace |
| FinalCheck.LogWithinPanel | src/yt_bli_gui_pi_add_final_check.py:54-57 | every logged line is in the panel, in the same order |
| FinalCheck.RetryThenSuccess | src/yt_bli_gui_pi_add_final_check.py:61-63 | a failed exit then a success: two launches, both outputs logged, `Retrying download... Attempt 1/3` between them |
| FinalCheck.LaunchErrorThenSuccess | src/yt_bli_gui_pi_add_final_check.py:65-67 | a launch exception then a success: the error is reported under count 0 with no retry notice |
| FinalCheck.DownloadVideos | src/yt_bli_gui_pi_add_final_check.py:70-130 | each outcome and its exact condition; the error boxes, panel lines, directory, launches and log file of each; the progress bar never moves |
| FinalCheck.RunRetries | src/yt_bli_gui_pi_add_final_check.py:121-128 | the command notice, the retry trace and the final notice in the panel; the trace's log appended to the log file |
| Batch.UrlListMembers | yt_bli_gui_pi.py:57-58 | a string is listed exactly when it is the non-empty strip of some line |
| Batch.UrlListEntriesStripped | yt_bli_gui_pi.py:58 | every entry is non-empty and its own strip |
| Batch.UrlListAppend | yt_bli_gui_pi.py:58 | the list of two pieces of a file is the first's list then the second's: file order is kept |
| Batch.UrlListIdempotent | yt_bli_gui_pi.py:58 | reading a file that holds the list gives the list again |
| Batch.BlankLinesGiveNoUrls | yt_bli_gui_pi.py:58 | a file of blank lines gives no URL |
| Batch.BlankFieldsRejected | yt_bli_gui_pi.py:59-64 | with both fields blank the list is `[""]`, which fails the pre-check |
| Batch.FileOverridesField | yt_bli_gui_pi.py:53-60 | a URL file given makes the URL field irrelevant, and its lines give the list |
| Batch.Jobs | yt_bli_gui_pi.py:74-99 | one job per URL, in order, each the skip or the download that URL calls for |
| Batch.BatchAfter | yt_bli_gui_pi.py:105-118 | after any number of URLs, every logged line is in the panel, in order |
| Batch.LaunchesAreCommands | yt_bli_gui_pi.py:74-128 | the launches are the download jobs' commands, whatever the earlier launches did |
| Batch.LaunchesIgnoreOutcomes | yt_bli_gui_pi.py:101-128 | a failure or exception stops no later launch, and nothing is retried |
| Batch.CommandsPerSupportedUrl | yt_bli_gui_pi.py:74-99 | one command per supported URL, in list order, each the verbose command of that URL |
| Batch.LaunchesPerSupportedUrl | yt_bli_gui_pi.py:74-106 | the whole loop launches exactly one verbose command per supported URL, in list order |
| Batch.SkipOnlyNotes | yt_bli_gui_pi.py:97-99 | an unsupported URL adds its notice to the panel and changes nothing else |
| Batch.JobLogWithinPanel | yt_bli_gui_pi.py:101-125 | one URL's logged lines are in its panel lines, in order |
| Batch.ProgressAfterDownload | yt_bli_gui_pi.py:121-128 | after exit code 0 the bar is 100; after a launch exception it is 0 |
| Batch.ProgressAfterFailure | yt_bli_gui_pi.py:111-125 | a skip leaves the bar alone, and so does a failed exit that printed no gated line |
| Batch.DownloadOne | yt_bli_gui_pi.py:75-128 | one URL's panel lines, launches, progress and log lines are those of its job |
| Batch.RunJob | yt_bli_gui_pi.py:101-128 | the `try` block: announce, append to the log, launch, relay, and report completion, failure or the exception |
| Batch.DownloadVideos | yt_bli_gui_pi.py:48-128 | each outcome and its exact condition; a rejected list runs nothing; otherwise the state is that of the loop over the chosen list |
| Batch.DownloadAll | yt_bli_gui_pi.py:74-128 | the loop's panel, launches, progress and log file are the batch effect of the whole list |
| Single.RunDownload | yt_bli_gui_clear.py:89-118 | the notices, then the log holds exactly this run's output; the bar is 100, 0 or the gated value; the closing message box |
| Single.DownloadVideo | yt_bli_gui_clear.py:49-118 | each outcome and its exact condition; an invalid URL is rejected before any directory, command or launch; an unsupported one shows its error and launches nothing |

## Left out

- The tkinter widgets, the layout, the file dialogs, `clear_logs` and the
  main loop are left out. They are user interface; the fields are
  parameters and the widget writes are the `Window` fields.
- `threading.Thread` is not modelled: each worker is one sequential call.
- `subprocess.Popen`, `process.wait` and yt-dlp itself are not modelled.
  They are foreign code; their observable result is the `Attempt`
  parameter.
- `time.sleep(5)` between retries is left out, because it changes no state.
- An exception raised in the middle of the output stream is not modelled,
  and neither are failures of `open`, of `log_file.write` or of `makedirs`
  on a non-blank path. A launch either raises at once or runs to its exit.
  So the retrying variant's `Error during download` branch
  (`src/yt_bli_gui_pi_add_final_check.py:129-130`) is not reachable in the
  model.
- `EnsureDirectory` adds only the named path; the real `os.makedirs`
  also creates missing parent directories. `os.path.join` follows POSIX
  rules; Windows paths are not modelled.
- `float()` is not modelled: the progress value is the exact decimal
  value. Only ASCII digits count for `\d`; other Unicode digits are not
  modelled.
- `if log_text:` in `yt_bli_gui_clear.py` is taken as always true, because a
  created widget is always truthy.
- A file's content is the sequence of strings written to it. The batch
  variant reads its URL file as a sequence of lines.
