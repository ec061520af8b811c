/** The batch variant (`yt_bli_gui_pi.py`): a list of URLs, read from a
    file or taken from the URL field, is checked as a whole and then
    downloaded one URL at a time, with one launch of `yt-dlp` per supported
    URL and no retry. The outcome of the launch for the URL at position `i`
    of the list is the parameter `run(i)`. */
module Batch {
  import opened Text
  import opened Urls
  import opened Commands
  import opened Progress
  import opened Desktop
  import opened Sequences

  // ---------------------------------------------------------------------
  // The URL list.

  /** The list comprehension over the lines of the URL file: each line
      stripped, blank ones dropped, file order kept. */
  function UrlList(lines: seq<string>): seq<string>
    decreases |lines|
  {
    if lines == [] then []
    else (if Strip(lines[0]) == "" then [] else [Strip(lines[0])]) + UrlList(lines[1..])
  }

  /** A string is in the list exactly when it is the stripped form of some
      line and not empty. */
  lemma {:induction false} UrlListMembers(lines: seq<string>, x: string)
    ensures x in UrlList(lines) <==> x != "" && exists j :: 0 <= j < |lines| && Strip(lines[j]) == x
    decreases |lines|
  {
    if lines != [] {
      var s, tail := Strip(lines[0]), UrlList(lines[1..]);
      UrlListMembers(lines[1..], x);
      assert UrlList(lines) == (if s == "" then [] else [s]) + tail;
      assert x in UrlList(lines) <==> (s != "" && x == s) || x in tail;
      if x in tail {
        var j :| 0 <= j < |lines[1..]| && Strip(lines[1..][j]) == x;
        assert Strip(lines[j + 1]) == x;
      }
      if x != "" && exists j :: 0 <= j < |lines| && Strip(lines[j]) == x {
        var j :| 0 <= j < |lines| && Strip(lines[j]) == x;
        assert j == 0 || Strip(lines[1..][j - 1]) == x;
      }
    }
  }

  /** Every entry is non-empty and has nothing left to strip. */
  lemma UrlListEntriesStripped(lines: seq<string>)
    ensures forall i :: 0 <= i < |UrlList(lines)| ==> UrlList(lines)[i] != "" && Strip(UrlList(lines)[i]) == UrlList(lines)[i]
  {
    forall i | 0 <= i < |UrlList(lines)|
      ensures UrlList(lines)[i] != "" && Strip(UrlList(lines)[i]) == UrlList(lines)[i]
    {
      UrlListEntryStripped(lines, i);
    }
  }

  lemma {:induction false} UrlListEntryStripped(lines: seq<string>, i: nat)
    requires i < |UrlList(lines)|
    ensures UrlList(lines)[i] != "" && Strip(UrlList(lines)[i]) == UrlList(lines)[i]
    decreases |lines|
  {
    var tail, s := UrlList(lines[1..]), Strip(lines[0]);
    var x := UrlList(lines)[i];
    if s == "" {
      assert UrlList(lines) == tail;
      UrlListEntryStripped(lines[1..], i);
    } else if i == 0 {
      assert x == s;
      StripIdempotent(lines[0]);
    } else {
      assert x == tail[i - 1];
      UrlListEntryStripped(lines[1..], i - 1);
    }
  }

  /** The list of two pieces of a file is the list of the first followed by
      the list of the second: the order of the file is kept. */
  lemma {:induction false} UrlListAppend(a: seq<string>, b: seq<string>)
    ensures UrlList(a + b) == UrlList(a) + UrlList(b)
    decreases |a|
  {
    if a == [] {
      assert a + b == b;
    } else {
      assert (a + b)[0] == a[0];
      assert (a + b)[1..] == a[1..] + b;
      UrlListAppend(a[1..], b);
      var head := if Strip(a[0]) == "" then [] else [Strip(a[0])];
      ConcatAssoc(head, UrlList(a[1..]), UrlList(b));
    }
  }

  /** Reading back a file that holds the list gives the list again. */
  lemma {:induction false} UrlListIdempotent(lines: seq<string>)
    ensures UrlList(UrlList(lines)) == UrlList(lines)
    decreases |lines|
  {
    if lines != [] {
      UrlListIdempotent(lines[1..]);
      var s := Strip(lines[0]);
      var head := if s == "" then [] else [s];
      UrlListAppend(head, UrlList(lines[1..]));
      if s != "" {
        StripIdempotent(lines[0]);
        assert [s][1..] == [];
      }
    }
  }

  /** A file of blank lines gives the empty list. */
  lemma {:induction false} BlankLinesGiveNoUrls(lines: seq<string>)
    requires forall j :: 0 <= j < |lines| ==> AllSpace(lines[j])
    ensures UrlList(lines) == []
    decreases |lines|
  {
    if lines != [] {
      StripEmptyIff(lines[0]);
      BlankLinesGiveNoUrls(lines[1..]);
    }
  }

  /** The URLs to process: those of the URL file when its field is not
      blank, otherwise the single URL field, stripped. */
  function ChosenUrls(urlField: string, fileField: string, files: map<string, seq<string>>): seq<string> {
    var f := Strip(fileField);
    if f == "" then [Strip(urlField)]
    else if f in files then UrlList(files[f])
    else []
  }

  /** `all(validate_url(url) for url in urls)`. */
  predicate AllValid(urls: seq<string>) {
    forall i :: 0 <= i < |urls| ==> ValidUrl(urls[i])
  }

  /** With both fields blank the list is `[""]`, which fails validation. */
  lemma BlankFieldsRejected(urlField: string, fileField: string, files: map<string, seq<string>>)
    requires Strip(urlField) == "" && Strip(fileField) == ""
    ensures ChosenUrls(urlField, fileField, files) == [""]
    ensures !AllValid(ChosenUrls(urlField, fileField, files))
  {
    EmptyUrlInvalid();
    assert [""][0] == "";
  }

  /** A URL file given overrides the URL field. */
  lemma FileOverridesField(urlField: string, urlField': string, fileField: string, files: map<string, seq<string>>)
    requires Strip(fileField) != ""
    ensures ChosenUrls(urlField, fileField, files) == ChosenUrls(urlField', fileField, files)
    ensures Strip(fileField) in files ==> ChosenUrls(urlField, fileField, files) == UrlList(files[Strip(fileField)])
  {
  }

  // ---------------------------------------------------------------------
  // One URL of the loop.

  /** What the loop does with one URL: skip it, or download it with its
      command. */
  datatype Job = Skip(url: string) | Download(url: string, command: seq<string>)

  function JobFor(url: string, cookie: string, dir: string): Job {
    var p := DeterminePlatform(url);
    if p == Unsupported then Skip(url) else Download(url, VerboseCommand(p, cookie, dir, url))
  }

  function Jobs(urls: seq<string>, cookie: string, dir: string): (jobs: seq<Job>)
    ensures |jobs| == |urls| && forall i :: 0 <= i < |urls| ==> jobs[i] == JobFor(urls[i], cookie, dir)
  {
    seq(|urls|, i requires 0 <= i < |urls| => JobFor(urls[i], cookie, dir))
  }

  /** The panel lines for a job: the skip notice; or the command and start
      notices, then the report of the launch. */
  function JobPanel(job: Job, a: Attempt): seq<string> {
    match job
    case Skip(url) => ["Unsupported platform for URL: " + url + "\n"]
    case Download(url, command) => Preamble(command, url) + Report(url, a)
  }

  function Preamble(command: seq<string>, url: string): seq<string> {
    ["Generated command: " + Join(command) + "\n", "Starting download for " + url + "...\n"]
  }

  /** The exception report, or the output lines and then the completion or
      failure notice. */
  function Report(url: string, a: Attempt): seq<string> {
    match a
    case LaunchFailed(e) => ["An error occurred while downloading " + url + ": " + e + "\n"]
    case Exited(out, code) =>
      out + [if code == 0 then "Download completed for " + url + "\n" else "Download failed for " + url + "\n"]
  }

  /** The lines a job writes to the log file. */
  function JobLog(job: Job, a: Attempt): seq<string> {
    if job.Download? && a.Exited? then a.output else []
  }

  /** The commands a job launches: one for a download, none for a skip. */
  function JobLaunches(job: Job): seq<seq<string>> {
    if job.Download? then [job.command] else []
  }

  /** The progress value after a job, having been `v` before. */
  function JobProgress(v: real, job: Job, a: Attempt): real {
    if job.Skip? then v
    else
      match a
      case LaunchFailed(_) => 0.0
      case Exited(out, code) => if code == 0 then 100.0 else ProgressAfter(v, out)
  }

  // ---------------------------------------------------------------------
  // The whole loop.

  /** What the first `n` jobs of the loop do together. */
  datatype Effect = Effect(panel: seq<string>, log: seq<string>, launched: seq<seq<string>>, progress: real)

  function BatchAfter(jobs: seq<Job>, run: nat -> Attempt, v: real, n: nat): (e: Effect)
    requires n <= |jobs|
    ensures LogInPanel(e)
  {
    if n == 0 then Effect([], [], [], v)
    else
      var e := BatchAfter(jobs, run, v, n - 1);
      ThenLogWithinPanel(e, jobs[n - 1], run(n - 1));
      Then(e, jobs[n - 1], run(n - 1))
  }

  /** The effect `e` followed by a job whose launch had the outcome `a`. */
  function Then(e: Effect, job: Job, a: Attempt): Effect {
    Effect(e.panel + JobPanel(job, a), e.log + JobLog(job, a),
           e.launched + JobLaunches(job), JobProgress(e.progress, job, a))
  }

  /** The commands of the download jobs, in order. */
  function JobCommands(jobs: seq<Job>): seq<seq<string>> {
    if jobs == [] then [] else JobCommands(jobs[..|jobs| - 1]) + JobLaunches(jobs[|jobs| - 1])
  }

  /** The launches are the commands of the download jobs, whatever the
      earlier launches did: a failure stops nothing and nothing is
      retried. */
  lemma {:induction false} LaunchesAreCommands(jobs: seq<Job>, run: nat -> Attempt, v: real, n: nat)
    requires n <= |jobs|
    ensures BatchAfter(jobs, run, v, n).launched == JobCommands(jobs[..n])
  {
    if n > 0 {
      var e := BatchAfter(jobs, run, v, n - 1);
      LaunchesAreCommands(jobs, run, v, n - 1);
      assert jobs[..n][..n - 1] == jobs[..n - 1];
      assert JobCommands(jobs[..n]) == JobCommands(jobs[..n - 1]) + JobLaunches(jobs[n - 1]);
      assert BatchAfter(jobs, run, v, n) == Then(e, jobs[n - 1], run(n - 1));
    }
  }

  /** So the launches do not depend on what the child processes do. */
  lemma LaunchesIgnoreOutcomes(jobs: seq<Job>, run: nat -> Attempt, run': nat -> Attempt, v: real, v': real, n: nat)
    requires n <= |jobs|
    ensures BatchAfter(jobs, run, v, n).launched == BatchAfter(jobs, run', v', n).launched
  {
    LaunchesAreCommands(jobs, run, v, n);
    LaunchesAreCommands(jobs, run', v', n);
  }

  /** The supported URLs among `urls`, in order. */
  function Supported(urls: seq<string>): seq<string> {
    if urls == [] then []
    else Supported(urls[..|urls| - 1])
         + (if DeterminePlatform(urls[|urls| - 1]) == Unsupported then [] else [urls[|urls| - 1]])
  }

  /** The commands of a URL list's jobs: one per supported URL, in list
      order, with `--verbose` and that URL at the end. */
  lemma {:induction false} CommandsPerSupportedUrl(urls: seq<string>, cookie: string, dir: string)
    ensures var c, s := JobCommands(Jobs(urls, cookie, dir)), Supported(urls);
      |c| == |s| && forall j :: 0 <= j < |s| ==>
        DeterminePlatform(s[j]) != Unsupported && c[j] == VerboseCommand(DeterminePlatform(s[j]), cookie, dir, s[j])
    decreases |urls|
  {
    if urls != [] {
      var n := |urls|;
      var jobs := Jobs(urls, cookie, dir);
      CommandsPerSupportedUrl(urls[..n - 1], cookie, dir);
      assert jobs[..n - 1] == Jobs(urls[..n - 1], cookie, dir);
    }
  }

  /** The launches of a whole URL list: one per supported URL, in list
      order, each the verbose command for that URL. */
  lemma LaunchesPerSupportedUrl(urls: seq<string>, run: nat -> Attempt, cookie: string, dir: string, v: real)
    ensures var l, s := BatchAfter(Jobs(urls, cookie, dir), run, v, |urls|).launched, Supported(urls);
      |l| == |s| && forall j :: 0 <= j < |s| ==>
        DeterminePlatform(s[j]) != Unsupported && l[j] == VerboseCommand(DeterminePlatform(s[j]), cookie, dir, s[j])
  {
    var jobs := Jobs(urls, cookie, dir);
    LaunchesAreCommands(jobs, run, v, |urls|);
    assert jobs[..|urls|] == jobs;
    CommandsPerSupportedUrl(urls, cookie, dir);
  }

  /** An unsupported URL only adds its skip notice. */
  lemma SkipOnlyNotes(jobs: seq<Job>, run: nat -> Attempt, v: real, n: nat)
    requires n < |jobs| && jobs[n].Skip?
    ensures var e, e' := BatchAfter(jobs, run, v, n), BatchAfter(jobs, run, v, n + 1);
      e' == e.(panel := e.panel + ["Unsupported platform for URL: " + jobs[n].url + "\n"])
  {
    var e := BatchAfter(jobs, run, v, n);
    assert e.log + [] == e.log && e.launched + [] == e.launched;
  }

  /** Every line of `e`'s log is in its panel, in the same order. */
  predicate LogInPanel(e: Effect) {
    IsSubsequence(e.log, e.panel)
  }

  lemma ThenLogWithinPanel(e: Effect, job: Job, a: Attempt)
    ensures LogInPanel(e) ==> LogInPanel(Then(e, job, a))
  {
    if LogInPanel(e) {
      JobLogWithinPanel(job, a);
      SubsequenceConcat(e.log, e.panel, JobLog(job, a), JobPanel(job, a));
    }
  }

  lemma JobLogWithinPanel(job: Job, a: Attempt)
    ensures IsSubsequence(JobLog(job, a), JobPanel(job, a))
  {
    if job.Download? && a.Exited? {
      var last := if a.code == 0 then "Download completed for " + job.url + "\n" else "Download failed for " + job.url + "\n";
      SubsequencePrefix(a.output, [last]);
      SubsequenceSkip(a.output, Preamble(job.command, job.url), a.output + [last]);
    }
  }

  /** After a download that exits with code 0 the bar is full; after one
      whose launch raises it is empty. */
  lemma ProgressAfterDownload(jobs: seq<Job>, run: nat -> Attempt, v: real, n: nat)
    requires n < |jobs| && jobs[n].Download?
    ensures run(n).Exited? && run(n).code == 0 ==> BatchAfter(jobs, run, v, n + 1).progress == 100.0
    ensures run(n).LaunchFailed? ==> BatchAfter(jobs, run, v, n + 1).progress == 0.0
  {
  }

  /** A skip leaves the bar alone, and so does a failed download that
      printed no progress line. */
  lemma ProgressAfterFailure(jobs: seq<Job>, run: nat -> Attempt, v: real, n: nat)
    requires n < |jobs|
    requires jobs[n].Skip? || (run(n).Exited? && run(n).code != 0)
    ensures var before, after := BatchAfter(jobs, run, v, n).progress, BatchAfter(jobs, run, v, n + 1).progress;
      && (jobs[n].Skip? ==> after == before)
      && (jobs[n].Download? && (forall j :: 0 <= j < |run(n).output| ==> GatedProgress(run(n).output[j]).None?)
          ==> after == before)
  {
    var before := BatchAfter(jobs, run, v, n).progress;
    if jobs[n].Download? && forall j :: 0 <= j < |run(n).output| ==> GatedProgress(run(n).output[j]).None? {
      ProgressUnchangedWithoutGated(before, run(n).output);
    }
  }

  // ---------------------------------------------------------------------
  // `download_videos`.

  datatype Outcome =
    | MissingUrlFile       // URL file field names no existing path: error box
    | UrlFileIsDirectory   // it names a directory: `open` raises and the worker dies
    | Rejected             // empty list or an invalid URL: error box
    | DirectoryError       // blank download path: `os.makedirs("")` raises and the worker dies
    | Processed            // the loop ran over the whole list

  const LogName := "download_log.txt"

  /** The body of the loop for one URL, with `logPath` the log file. */
  method DownloadOne(w: Window, url: string, a: Attempt, cookie: string, dir: string, logPath: string, ghost job: Job)
    requires job == JobFor(url, cookie, dir)
    modifies w
    ensures w.panel == old(w.panel) + JobPanel(job, a)
      && w.launched == old(w.launched) + JobLaunches(job)
      && w.progress == JobProgress(old(w.progress), job, a)
      && w.files == if job.Skip? then old(w.files) else Appended(old(w.files), logPath, JobLog(job, a))
    ensures w.alerts == old(w.alerts) && w.dirs == old(w.dirs)
  {
    var platform := DeterminePlatform(url);
    if platform == Unsupported {
      assert job == Skip(url);
      w.Say("Unsupported platform for URL: " + url + "\n");
      return;
    }
    var command := VerboseCommand(platform, cookie, dir, url);
    assert job == Download(url, command);
    RunJob(w, url, command, logPath, a);
  }

  /** The `try` block for a supported URL: announce, open the log for
      appending, launch, relay the output, and report. */
  method RunJob(w: Window, url: string, command: seq<string>, logPath: string, a: Attempt)
    modifies w
    ensures var job := Download(url, command);
      && w.panel == old(w.panel) + JobPanel(job, a)
      && w.launched == old(w.launched) + JobLaunches(job)
      && w.progress == JobProgress(old(w.progress), job, a)
      && w.files == Appended(old(w.files), logPath, JobLog(job, a))
    ensures w.alerts == old(w.alerts) && w.dirs == old(w.dirs)
  {
    w.Say("Generated command: " + Join(command) + "\n");
    w.Say("Starting download for " + url + "...\n");
    ghost var panel1 := w.panel;
    assert panel1 == old(w.panel) + Preamble(command, url) by {
      ConcatAssoc(old(w.panel), ["Generated command: " + Join(command) + "\n"], ["Starting download for " + url + "...\n"]);
    }
    ghost var base := if logPath in w.files then w.files[logPath] else [];
    w.OpenLog(logPath, false);
    w.Launch(command);
    match a
    case LaunchFailed(e) =>
      w.SetProgress(0.0);
      w.Say("An error occurred while downloading " + url + ": " + e + "\n");
      assert base + [] == base;
      ConcatAssoc(old(w.panel), Preamble(command, url), Report(url, a));
    case Exited(out, code) =>
      w.RelayWithProgress(logPath, out);
      OverwriteTwice(old(w.files), logPath, base, base + out);
      var last := if code == 0 then "Download completed for " + url + "\n" else "Download failed for " + url + "\n";
      if code == 0 {
        w.SetProgress(100.0);
      }
      w.Say(last);
      ConcatAssoc(panel1, out, [last]);
      ConcatAssoc(old(w.panel), Preamble(command, url), out + [last]);
  }

  /** `download_videos()`, the fields given as they were typed. */
  method DownloadVideos(w: Window, urlField: string, fileField: string, cookieField: string, pathField: string,
                        run: nat -> Attempt)
    returns (outcome: Outcome)
    modifies w
    ensures var f := Strip(fileField);
      var urls := ChosenUrls(urlField, fileField, old(w.files));
      var listed := f == "" || f in old(w.files);
      && (outcome == MissingUrlFile <==> f != "" && !old(w.Exists(f)))
      && (outcome == UrlFileIsDirectory <==> f != "" && old(w.Exists(f)) && f !in old(w.files))
      && (outcome == Rejected <==> listed && (urls == [] || !AllValid(urls)))
      && (outcome == DirectoryError <==> listed && urls != [] && AllValid(urls) && Strip(pathField) == "")
    ensures outcome == MissingUrlFile ==> w.alerts == old(w.alerts) + [ShowError("Error", "The URL file does not exist.")]
    ensures outcome == Rejected ==> w.alerts == old(w.alerts) + [ShowError("Error", "Please provide valid video URLs.")]
    ensures outcome !in {MissingUrlFile, Rejected} ==> w.alerts == old(w.alerts)
    ensures outcome != Processed ==>
      w.panel == old(w.panel) && w.launched == old(w.launched) && w.files == old(w.files)
      && w.progress == old(w.progress) && w.dirs == old(w.dirs)
    ensures outcome == Processed ==>
      var urls, dir := ChosenUrls(urlField, fileField, old(w.files)), Strip(pathField);
      var e := BatchAfter(Jobs(urls, Strip(cookieField), dir), run, old(w.progress), |urls|);
      && w.panel == old(w.panel) + e.panel
      && w.launched == old(w.launched) + e.launched
      && w.progress == e.progress
      && w.files == (if e.launched == [] then old(w.files) else Appended(old(w.files), JoinPath(dir, LogName), e.log))
      && w.dirs == (if old(w.Exists(dir)) then old(w.dirs) else old(w.dirs) + {dir})
  {
    var urlFile := Strip(fileField);
    var urls: seq<string>;
    if urlFile != "" {
      if !w.Exists(urlFile) {
        w.Show(ShowError("Error", "The URL file does not exist."));
        return MissingUrlFile;
      }
      if urlFile !in w.files {
        return UrlFileIsDirectory;
      }
      urls := UrlList(w.files[urlFile]);
    } else {
      urls := [Strip(urlField)];
    }
    if urls == [] || !AllValid(urls) {
      w.Show(ShowError("Error", "Please provide valid video URLs."));
      return Rejected;
    }
    var cookie := Strip(cookieField);
    var dir := Strip(pathField);
    var made := w.EnsureDirectory(dir);
    if !made {
      return DirectoryError;
    }
    DownloadAll(w, urls, run, cookie, dir, JoinPath(dir, LogName));
    return Processed;
  }

  /** The `for url in urls` loop, with `logPath` the log file. */
  method DownloadAll(w: Window, urls: seq<string>, run: nat -> Attempt, cookie: string, dir: string, logPath: string)
    modifies w
    ensures var e := BatchAfter(Jobs(urls, cookie, dir), run, old(w.progress), |urls|);
      && w.panel == old(w.panel) + e.panel
      && w.launched == old(w.launched) + e.launched
      && w.progress == e.progress
      && w.files == (if e.launched == [] then old(w.files) else Appended(old(w.files), logPath, e.log))
    ensures w.alerts == old(w.alerts) && w.dirs == old(w.dirs)
  {
    ghost var jobs := Jobs(urls, cookie, dir);
    ghost var e := Effect([], [], [], old(w.progress));
    for i := 0 to |urls|
      invariant e == BatchAfter(jobs, run, old(w.progress), i)
      invariant w.panel == old(w.panel) + e.panel
        && w.launched == old(w.launched) + e.launched
        && w.progress == e.progress
        && w.files == (if e.launched == [] then old(w.files) else Appended(old(w.files), logPath, e.log))
        && (e.launched == [] ==> e.log == [])
      invariant w.alerts == old(w.alerts) && w.dirs == old(w.dirs)
    {
      ghost var job := jobs[i];
      DownloadOne(w, urls[i], run(i), cookie, dir, logPath, job);
      ConcatAssoc(old(w.panel), e.panel, JobPanel(job, run(i)));
      ConcatAssoc(old(w.launched), e.launched, JobLaunches(job));
      FilesStep(old(w.files), logPath, e, job, run(i));
      e := Then(e, job, run(i));
    }
  }

  /** How the files after the first jobs and after one more are related. */
  lemma FilesStep(m: map<string, seq<string>>, logPath: string, e: Effect, job: Job, a: Attempt)
    requires e.launched == [] ==> e.log == []
    ensures var f0 := if e.launched == [] then m else Appended(m, logPath, e.log);
      var f1 := if job.Skip? then f0 else Appended(f0, logPath, JobLog(job, a));
      var launched, log := e.launched + JobLaunches(job), e.log + JobLog(job, a);
      && f1 == (if launched == [] then m else Appended(m, logPath, log))
      && (launched == [] ==> log == [])
  {
    if job.Skip? {
      assert e.launched + [] == e.launched && e.log + [] == e.log;
    } else {
      assert |e.launched + JobLaunches(job)| > 0;
      if e.launched == [] {
        assert [] + JobLog(job, a) == JobLog(job, a);
      } else {
        AppendedTwice(m, logPath, e.log, JobLog(job, a));
      }
    }
  }

  lemma AppendedTwice(m: map<string, seq<string>>, path: string, a: seq<string>, b: seq<string>)
    ensures Appended(Appended(m, path, a), path, b) == Appended(m, path, a + b)
  {
    var base := if path in m then m[path] else [];
    ConcatAssoc(base, a, b);
  }
}
