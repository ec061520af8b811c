/** The single-URL variant (`yt_bli_gui_clear.py`): one URL, one launch of
    `yt-dlp`, a log file started afresh, and a message box at the end. The
    outcome of the launch is the parameter `a`. */
module Single {
  import opened Text
  import opened Urls
  import opened Commands
  import opened Progress
  import opened Desktop

  datatype Outcome =
    | InvalidUrl            // empty URL, or one `validate_url` rejects: error box
    | DirectoryError        // blank download path: `os.makedirs("")` raises and the worker dies
    | UnsupportedPlatform   // valid URL that `determine_platform` cannot place: error box
    | Downloaded            // the launch exited with code 0: success box
    | DownloadFailed        // it exited with another code: error box
    | LaunchError           // `Popen` raised: error box

  const LogName := "download_log.txt"

  /** The message box that ends a run whose launch had the outcome `a`. */
  function FinalAlert(a: Attempt, dir: string, logPath: string): Alert {
    match a
    case LaunchFailed(e) => ShowError("Error", "An error occurred: " + e)
    case Exited(_, code) =>
      if code == 0 then ShowInfo("Success", "Video downloaded successfully to " + dir + "\nLog saved at " + logPath)
      else ShowError("Error", "Download failed. Check the log file at " + logPath + " for details.")
  }

  /** The `try` block: announce the command, start the log file afresh,
      launch, relay the output, and report. */
  method RunDownload(w: Window, command: seq<string>, dir: string, logPath: string, a: Attempt)
    modifies w
    ensures var out := if a.Exited? then a.output else [];
      && w.launched == old(w.launched) + [command]
      && w.panel == old(w.panel) + ["Generated command: " + Join(command) + "\n"] + ["Starting download...\n"] + out
      && w.files == old(w.files)[logPath := out]
      && w.progress == (match a
                        case LaunchFailed(_) => 0.0
                        case Exited(_, code) => if code == 0 then 100.0 else ProgressAfter(old(w.progress), out))
      && w.alerts == old(w.alerts) + [FinalAlert(a, dir, logPath)]
      && w.dirs == old(w.dirs)
  {
    w.Say("Generated command: " + Join(command) + "\n");
    w.Say("Starting download...\n");
    w.OpenLog(logPath, true);
    w.Launch(command);
    match a
    case LaunchFailed(e) =>
      w.SetProgress(0.0);
      w.Show(ShowError("Error", "An error occurred: " + e));
      assert w.panel == w.panel + [];
    case Exited(out, code) =>
      w.RelayWithProgress(logPath, out);
      OverwriteTwice(old(w.files), logPath, [], [] + out);
      assert [] + out == out;
      if code == 0 {
        w.SetProgress(100.0);
        w.Show(ShowInfo("Success", "Video downloaded successfully to " + dir + "\nLog saved at " + logPath));
      } else {
        w.Show(ShowError("Error", "Download failed. Check the log file at " + logPath + " for details."));
      }
  }

  /** `download_video()`, the fields given as they were typed. */
  method DownloadVideo(w: Window, urlField: string, cookieField: string, pathField: string, a: Attempt)
    returns (outcome: Outcome)
    modifies w
    ensures var url, dir := Strip(urlField), Strip(pathField);
      var supported := ValidUrl(url) && dir != "" && DeterminePlatform(url) != Unsupported;
      && (outcome == InvalidUrl <==> !ValidUrl(url))
      && (outcome == DirectoryError <==> ValidUrl(url) && dir == "")
      && (outcome == UnsupportedPlatform <==> ValidUrl(url) && dir != "" && DeterminePlatform(url) == Unsupported)
      && (outcome == Downloaded <==> supported && a.Exited? && a.code == 0)
      && (outcome == DownloadFailed <==> supported && a.Exited? && a.code != 0)
      && (outcome == LaunchError <==> supported && a.LaunchFailed?)
    ensures outcome in {InvalidUrl, DirectoryError} ==> w.dirs == old(w.dirs)
    ensures outcome !in {InvalidUrl, DirectoryError} ==>
      w.dirs == (if old(w.Exists(Strip(pathField))) then old(w.dirs) else old(w.dirs) + {Strip(pathField)})
    ensures outcome in {InvalidUrl, DirectoryError, UnsupportedPlatform} ==>
      w.panel == old(w.panel) && w.launched == old(w.launched) && w.files == old(w.files)
      && w.progress == old(w.progress)
    ensures outcome == InvalidUrl ==>
      w.alerts == old(w.alerts) + [ShowError("Error", "Please provide a valid YouTube or Bilibili video URL.")]
    ensures outcome == DirectoryError ==> w.alerts == old(w.alerts)
    ensures outcome == UnsupportedPlatform ==> w.alerts == old(w.alerts) + [ShowError("Error", "Unsupported platform.")]
    ensures outcome in {Downloaded, DownloadFailed, LaunchError} ==>
      var url, dir := Strip(urlField), Strip(pathField);
      var command := VerboseCommand(DeterminePlatform(url), Strip(cookieField), dir, url);
      var logPath := JoinPath(dir, LogName);
      var out := if a.Exited? then a.output else [];
      && w.launched == old(w.launched) + [command]
      && w.panel == old(w.panel) + ["Generated command: " + Join(command) + "\n"] + ["Starting download...\n"] + out
      && w.files == old(w.files)[logPath := out]
      && w.progress == (match a
                        case LaunchFailed(_) => 0.0
                        case Exited(_, code) => if code == 0 then 100.0 else ProgressAfter(old(w.progress), out))
      && w.alerts == old(w.alerts) + [FinalAlert(a, dir, logPath)]
  {
    var url := Strip(urlField);
    EmptyUrlInvalid();
    if url == "" || !ValidUrl(url) {
      w.Show(ShowError("Error", "Please provide a valid YouTube or Bilibili video URL."));
      return InvalidUrl;
    }
    var platform := DeterminePlatform(url);
    var cookie := Strip(cookieField);
    var dir := Strip(pathField);
    var made := w.EnsureDirectory(dir);
    if !made {
      return DirectoryError;
    }
    var logPath := JoinPath(dir, LogName);
    if platform == Unsupported {
      w.Show(ShowError("Error", "Unsupported platform."));
      return UnsupportedPlatform;
    }
    RunDownload(w, VerboseCommand(platform, cookie, dir, url), dir, logPath, a);
    outcome := match a
      case LaunchFailed(_) => LaunchError
      case Exited(_, code) => if code == 0 then Downloaded else DownloadFailed;
  }
}
