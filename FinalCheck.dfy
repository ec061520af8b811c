/** The retrying variant (`src/yt_bli_gui_pi_add_final_check.py`): one URL,
    playlist options, and up to three launches of `yt-dlp` until one exits
    with code 0. The outcome of the k-th launch (counting from 0) is the
    parameter `run(k)`. */
module FinalCheck {
  import opened Text
  import opened Urls
  import opened Commands
  import opened Desktop
  import opened Sequences

  /** The default `retry_limit`, the one `download_videos` uses. */
  const RetryLimit := 3

  predicate Succeeds(a: Attempt) {
    a.Exited? && a.code == 0
  }

  /** The panel line after a failed exit; `attempt` is the new count. */
  function RetryNotice(attempt: int, limit: int): string {
    "Retrying download... Attempt " + IntToString(attempt) + "/" + IntToString(limit) + "\n"
  }

  /** The panel line after a launch exception; `attempt` is the old count. */
  function ErrorNotice(attempt: int, error: string): string {
    "Error during retry attempt " + IntToString(attempt) + ": " + error + "\n"
  }

  // ---------------------------------------------------------------------
  // One pass of the loop body, and what `retry_download` does once the
  // counter has reached `k`.

  /** What one attempt inserts into the panel: the output lines, then the
      retry notice with the increased count if the exit code is not 0; or,
      for a launch exception, the error notice with the current count. */
  function AttemptPanel(a: Attempt, k: nat, limit: int): seq<string> {
    match a
    case LaunchFailed(e) => [ErrorNotice(k, e)]
    case Exited(out, code) => if code == 0 then out else out + [RetryNotice(k + 1, limit)]
  }

  /** What one attempt writes to the log file: its output lines. */
  function AttemptLog(a: Attempt): seq<string> {
    if a.Exited? then a.output else []
  }

  /** What `retry_download` still does once its counter has reached `k`:
      the launches it makes, its result, and the lines it inserts into the
      panel and writes to the log file. */
  datatype Trace = Trace(launches: nat, succeeded: bool, panel: seq<string>, log: seq<string>)

  function RetryFrom(run: nat -> Attempt, limit: int, k: nat): Trace
    decreases limit - k
  {
    if k >= limit then Trace(0, false, [], [])
    else
      var a := run(k);
      if Succeeds(a) then Trace(1, true, AttemptPanel(a, k, limit), AttemptLog(a))
      else
        var t := RetryFrom(run, limit, k + 1);
        Trace(1 + t.launches, t.succeeded, AttemptPanel(a, k, limit) + t.panel, AttemptLog(a) + t.log)
  }

  /** `n` copies of `command`: the launches of `n` attempts. */
  function Repeat(command: seq<string>, n: nat): (r: seq<seq<string>>)
    ensures |r| == n && forall i :: 0 <= i < n ==> r[i] == command
  {
    if n == 0 then [] else Repeat(command, n - 1) + [command]
  }

  /** The `try` block of the loop for the attempt with count `k`: launch,
      relay the output, and report a failure; the caller then counts the
      attempt. */
  method TryOnce(w: Window, command: seq<string>, a: Attempt, logPath: string, k: nat, limit: int)
    returns (succeeded: bool)
    requires logPath in w.files
    modifies w
    ensures succeeded == Succeeds(a)
    ensures w.launched == old(w.launched) + [command]
    ensures w.panel == old(w.panel) + AttemptPanel(a, k, limit)
    ensures w.files == old(w.files)[logPath := old(w.files)[logPath] + AttemptLog(a)]
    ensures w.progress == old(w.progress) && w.alerts == old(w.alerts) && w.dirs == old(w.dirs)
  {
    w.Launch(command);
    match a
    case Exited(out, code) =>
      w.Relay(logPath, out);
      if code == 0 {
        return true;
      }
      w.Say(RetryNotice(k + 1, limit));
      return false;
    case LaunchFailed(e) =>
      w.Say(ErrorNotice(k, e));
      assert old(w.files)[logPath := old(w.files)[logPath] + []] == old(w.files) by {
        assert old(w.files)[logPath] + [] == old(w.files)[logPath];
      }
      return false;
  }

  /** After logging `log` and showing `said`, with the counter at `k`, the
      rest of the loop completes the trace `whole`. */
  ghost predicate Resumes(run: nat -> Attempt, limit: int, k: nat, log: seq<string>, said: seq<string>, whole: Trace) {
    var t := RetryFrom(run, limit, k);
    log + t.log == whole.log && said + t.panel == whole.panel
    && k + t.launches == whole.launches && t.succeeded == whole.succeeded
  }

  lemma ResumeAfterFailure(run: nat -> Attempt, limit: int, k: nat, log: seq<string>, said: seq<string>, whole: Trace)
    requires k < limit && !Succeeds(run(k)) && Resumes(run, limit, k, log, said, whole)
    ensures Resumes(run, limit, k + 1, log + AttemptLog(run(k)), said + AttemptPanel(run(k), k, limit), whole)
  {
    var t := RetryFrom(run, limit, k + 1);
    ConcatAssoc(log, AttemptLog(run(k)), t.log);
    ConcatAssoc(said, AttemptPanel(run(k), k, limit), t.panel);
  }

  lemma ResumeAtSuccess(run: nat -> Attempt, limit: int, k: nat, log: seq<string>, said: seq<string>, whole: Trace)
    requires k < limit && Succeeds(run(k)) && Resumes(run, limit, k, log, said, whole)
    ensures whole == Trace(k + 1, true, said + AttemptPanel(run(k), k, limit), log + AttemptLog(run(k)))
  {
  }

  lemma ResumeAtEnd(run: nat -> Attempt, limit: int, k: nat, log: seq<string>, said: seq<string>, whole: Trace)
    requires limit <= k && Resumes(run, limit, k, log, said, whole)
    ensures whole == Trace(k, false, said, log)
  {
    assert log + [] == log && said + [] == said;
  }

  /** `retry_download(command, log_file, retry_limit)`, with `log_file` the
      file at `logPath`. */
  method RetryDownload(w: Window, command: seq<string>, run: nat -> Attempt, logPath: string, retryLimit: int)
    returns (ok: bool)
    requires logPath in w.files
    modifies w
    ensures ok == RetryFrom(run, retryLimit, 0).succeeded
    ensures w.launched == old(w.launched) + Repeat(command, RetryFrom(run, retryLimit, 0).launches)
    ensures w.panel == old(w.panel) + RetryFrom(run, retryLimit, 0).panel
    ensures w.files == old(w.files)[logPath := old(w.files)[logPath] + RetryFrom(run, retryLimit, 0).log]
    ensures w.progress == old(w.progress) && w.alerts == old(w.alerts) && w.dirs == old(w.dirs)
  {
    ghost var whole := RetryFrom(run, retryLimit, 0);
    ghost var start := w.files[logPath];
    ghost var log: seq<string> := [];
    ghost var said: seq<string> := [];
    assert w.files == old(w.files)[logPath := start + log] by { assert start + log == start; }
    assert w.panel == old(w.panel) + said;
    var attempt: nat := 0;
    while attempt < retryLimit
      invariant w.files == old(w.files)[logPath := start + log]
      invariant w.panel == old(w.panel) + said
      invariant w.launched == old(w.launched) + Repeat(command, attempt)
      invariant Resumes(run, retryLimit, attempt, log, said, whole)
      invariant w.progress == old(w.progress) && w.alerts == old(w.alerts) && w.dirs == old(w.dirs)
      decreases retryLimit - attempt
    {
      var a := run(attempt);
      var succeeded := TryOnce(w, command, a, logPath, attempt, retryLimit);
      OverwriteTwice(old(w.files), logPath, start + log, start + log + AttemptLog(a));
      ConcatAssoc(start, log, AttemptLog(a));
      ConcatAssoc(old(w.panel), said, AttemptPanel(a, attempt, retryLimit));
      ConcatAssoc(old(w.launched), Repeat(command, attempt), [command]);
      if succeeded {
        ResumeAtSuccess(run, retryLimit, attempt, log, said, whole);
        return true;
      }
      ResumeAfterFailure(run, retryLimit, attempt, log, said, whole);
      log, said := log + AttemptLog(a), said + AttemptPanel(a, attempt, retryLimit);
      attempt := attempt + 1;
    }
    ResumeAtEnd(run, retryLimit, attempt, log, said, whole);
    return false;
  }

  // ---------------------------------------------------------------------
  // Properties of the retry loop.

  /** At most `retry_limit` launches, and none when it is not positive. */
  lemma {:induction false} AttemptsBounded(run: nat -> Attempt, limit: int, k: nat)
    ensures RetryFrom(run, limit, k).launches <= if limit <= k then 0 else limit - k
    decreases limit - k
  {
    if k < limit && !Succeeds(run(k)) {
      AttemptsBounded(run, limit, k + 1);
    }
  }

  /** With `retry_limit <= 0` nothing is launched, logged or shown, and the
      result is False. */
  lemma NoAttemptWithoutLimit(run: nat -> Attempt, limit: int)
    requires limit <= 0
    ensures RetryFrom(run, limit, 0) == Trace(0, false, [], [])
  {
  }

  /** The result is True exactly when one of the first `retry_limit`
      launches exits with code 0. */
  lemma {:induction false} SucceedsIff(run: nat -> Attempt, limit: int, k: nat)
    ensures RetryFrom(run, limit, k).succeeded <==> exists j :: k <= j < limit && Succeeds(run(j))
    decreases limit - k
  {
    if k < limit {
      if Succeeds(run(k)) {
        assert k <= k < limit && Succeeds(run(k));
      } else {
        SucceedsIff(run, limit, k + 1);
        assert forall j :: k <= j < limit && Succeeds(run(j)) ==> k + 1 <= j;
      }
    }
  }

  /** The loop stops right after the first launch that exits with code 0. */
  lemma {:induction false} StopsAtFirstSuccess(run: nat -> Attempt, limit: int, k: nat, j: nat)
    requires k <= j < limit && Succeeds(run(j))
    requires forall i :: k <= i < j ==> !Succeeds(run(i))
    ensures RetryFrom(run, limit, k).launches == j - k + 1 && RetryFrom(run, limit, k).succeeded
    decreases j - k
  {
    if k < j {
      StopsAtFirstSuccess(run, limit, k + 1, j);
    }
  }

  /** When no launch in the limit succeeds, all `retry_limit` are made and
      the result is False. */
  lemma {:induction false} ExhaustsLimit(run: nat -> Attempt, limit: int, k: nat)
    requires forall i :: k <= i < limit ==> !Succeeds(run(i))
    ensures RetryFrom(run, limit, k).launches == (if limit <= k then 0 else limit - k)
    ensures !RetryFrom(run, limit, k).succeeded
    decreases limit - k
  {
    if k < limit {
      ExhaustsLimit(run, limit, k + 1);
    }
  }

  /** Only the launches actually made matter: two runs that agree on them
      behave the same. */
  lemma {:induction false} OnlyMadeAttemptsMatter(run: nat -> Attempt, run': nat -> Attempt, limit: int, k: nat)
    requires forall i :: k <= i < k + RetryFrom(run, limit, k).launches ==> run(i) == run'(i)
    ensures RetryFrom(run', limit, k) == RetryFrom(run, limit, k)
    decreases limit - k
  {
    if k < limit {
      assert run(k) == run'(k);
      if !Succeeds(run(k)) {
        OnlyMadeAttemptsMatter(run, run', limit, k + 1);
      }
    }
  }

  /** Every line written to the log file is also in the panel, in the same
      order; the panel only adds the notices. */
  lemma {:induction false} LogWithinPanel(run: nat -> Attempt, limit: int, k: nat)
    ensures IsSubsequence(RetryFrom(run, limit, k).log, RetryFrom(run, limit, k).panel)
    decreases limit - k
  {
    if k < limit {
      var a := run(k);
      if a.Exited? {
        SubsequencePrefix(a.output, if a.code == 0 then [] else [RetryNotice(k + 1, limit)]);
        assert a.output + [] == a.output;
      }
      if !Succeeds(a) {
        LogWithinPanel(run, limit, k + 1);
        var t := RetryFrom(run, limit, k + 1);
        SubsequenceConcat(AttemptLog(a), AttemptPanel(a, k, limit), t.log, t.panel);
      }
    }
  }

  /** A failed exit and then a success: both runs' lines are logged, and
      between them the panel shows `Retrying download... Attempt 1/3`. */
  lemma RetryThenSuccess(run: nat -> Attempt, out0: seq<string>, code0: int, out1: seq<string>)
    requires run(0) == Exited(out0, code0) && code0 != 0 && run(1) == Exited(out1, 0)
    ensures RetryFrom(run, RetryLimit, 0)
         == Trace(2, true, out0 + ["Retrying download... Attempt 1/3\n"] + out1, out0 + out1)
  {
    assert RetryNotice(1, 3) == "Retrying download... Attempt 1/3\n";
  }

  /** A launch exception and then a success: the exception is reported
      under the old count 0, with no retry notice. */
  lemma LaunchErrorThenSuccess(run: nat -> Attempt, e: string, out1: seq<string>)
    requires run(0) == LaunchFailed(e) && run(1) == Exited(out1, 0)
    ensures RetryFrom(run, RetryLimit, 0) == Trace(2, true, [ErrorNotice(0, e)] + out1, out1)
    ensures ErrorNotice(0, e) == "Error during retry attempt 0: " + e + "\n"
  {
    assert IntToString(0) == "0";
    assert "Error during retry attempt " + "0" + ": " == "Error during retry attempt 0: ";
    assert [] + out1 == out1;
  }

  // ---------------------------------------------------------------------
  // `download_videos`.

  datatype Outcome =
    | MissingUrl            // empty URL field: error box
    | InvalidUrl            // URL rejected by `validate_url`: error box
    | DirectoryError        // blank download path: `os.makedirs("")` raises and the worker dies
    | UnsupportedPlatform   // valid URL that `determine_platform` cannot place
    | Completed             // a launch exited with code 0
    | FailedAfterRetries    // every launch failed

  const LogName := "download_log.txt"

  /** `download_videos()`, the fields given as they were typed. */
  method DownloadVideos(w: Window, urlField: string, cookieField: string, pathField: string,
                        wholePlaylist: bool, playlistEndField: string, run: nat -> Attempt)
    returns (outcome: Outcome)
    modifies w
    ensures var url, dir := Strip(urlField), Strip(pathField);
      && (outcome == MissingUrl <==> url == "")
      && (outcome == InvalidUrl <==> url != "" && !ValidUrl(url))
      && (outcome == DirectoryError <==> ValidUrl(url) && dir == "")
      && (outcome == UnsupportedPlatform <==> ValidUrl(url) && dir != "" && DeterminePlatform(url) == Unsupported)
      && (outcome == Completed <==> ValidUrl(url) && dir != "" && DeterminePlatform(url) != Unsupported
                                    && RetryFrom(run, RetryLimit, 0).succeeded)
    ensures outcome == MissingUrl ==>
      w.alerts == old(w.alerts) + [ShowError("Error", "Please provide a video URL.")]
    ensures outcome == InvalidUrl ==>
      w.alerts == old(w.alerts) + [ShowError("Error", "Invalid video URL.")]
    ensures outcome in {MissingUrl, InvalidUrl} ==>
      w.panel == old(w.panel) && w.dirs == old(w.dirs)
    ensures outcome !in {MissingUrl, InvalidUrl} ==> w.alerts == old(w.alerts)
    ensures outcome !in {MissingUrl, InvalidUrl, DirectoryError} ==>
      w.dirs == (if old(w.Exists(Strip(pathField))) then old(w.dirs) else old(w.dirs) + {Strip(pathField)})
    ensures outcome == DirectoryError ==>
      w.panel == old(w.panel) + ["URL input received: " + Strip(urlField) + "\n"] && w.dirs == old(w.dirs)
    ensures outcome == UnsupportedPlatform ==>
      w.panel == old(w.panel) + ["URL input received: " + Strip(urlField) + "\n"]
                              + ["Unsupported platform for URL: " + Strip(urlField) + "\n"]
    ensures outcome !in {Completed, FailedAfterRetries} ==>
      w.launched == old(w.launched) && w.files == old(w.files)
    ensures outcome in {Completed, FailedAfterRetries} ==>
      var url, dir := Strip(urlField), Strip(pathField);
      var command := FinalCheckCommand(DeterminePlatform(url), Strip(cookieField), dir, url,
                                       wholePlaylist, Strip(playlistEndField));
      var logPath := JoinPath(dir, LogName);
      && w.launched == old(w.launched) + Repeat(command, RetryFrom(run, RetryLimit, 0).launches)
      && w.panel == old(w.panel) + ["URL input received: " + url + "\n"]
                                 + ["Generated command: " + Join(command) + "\n"]
                                 + RetryFrom(run, RetryLimit, 0).panel
                                 + [if outcome == Completed then "Download completed for " + url + "\n"
                                    else "Download failed for " + url + " after multiple attempts\n"]
      && w.files == Appended(old(w.files), logPath, RetryFrom(run, RetryLimit, 0).log)
    ensures w.progress == old(w.progress)
  {
    var url := Strip(urlField);
    var cookie := Strip(cookieField);
    var dir := Strip(pathField);
    var playlistEnd := Strip(playlistEndField);
    if url == "" {
      EmptyUrlInvalid();
      w.Show(ShowError("Error", "Please provide a video URL."));
      return MissingUrl;
    }
    if !ValidUrl(url) {
      w.Show(ShowError("Error", "Invalid video URL."));
      return InvalidUrl;
    }
    w.Say("URL input received: " + url + "\n");
    var made := w.EnsureDirectory(dir);
    if !made {
      return DirectoryError;
    }
    var logPath := JoinPath(dir, LogName);
    var platform := DeterminePlatform(url);
    if platform == Unsupported {
      w.Say("Unsupported platform for URL: " + url + "\n");
      return UnsupportedPlatform;
    }
    var command := FinalCheckCommand(platform, cookie, dir, url, wholePlaylist, playlistEnd);
    var success := RunRetries(w, command, url, logPath, run);
    outcome := if success then Completed else FailedAfterRetries;
  }

  /** The end of `download_videos` once the command is built: announce it,
      open the log file for appending, retry, and report. */
  method RunRetries(w: Window, command: seq<string>, url: string, logPath: string, run: nat -> Attempt)
    returns (success: bool)
    modifies w
    ensures var t := RetryFrom(run, RetryLimit, 0);
      && success == t.succeeded
      && w.launched == old(w.launched) + Repeat(command, t.launches)
      && w.panel == old(w.panel) + ["Generated command: " + Join(command) + "\n"] + t.panel
                                 + [if success then "Download completed for " + url + "\n"
                                    else "Download failed for " + url + " after multiple attempts\n"]
      && w.files == Appended(old(w.files), logPath, t.log)
      && w.progress == old(w.progress) && w.alerts == old(w.alerts) && w.dirs == old(w.dirs)
  {
    w.Say("Generated command: " + Join(command) + "\n");
    w.OpenLog(logPath, false);
    ghost var base := w.files[logPath];
    success := RetryDownload(w, command, run, logPath, RetryLimit);
    OverwriteTwice(old(w.files), logPath, base, base + RetryFrom(run, RetryLimit, 0).log);
    if success {
      w.Say("Download completed for " + url + "\n");
    } else {
      w.Say("Download failed for " + url + " after multiple attempts\n");
    }
  }
}
