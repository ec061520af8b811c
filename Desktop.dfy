/** The state the download workers change: the log panel, the progress
    bar, the message boxes shown, the text files and directories on disk,
    and the commands handed to the child process. Each primitive that the
    scripts use on this state is a method here. */
module Desktop {
  import opened Text
  import opened Progress

  /** What one launch of `yt-dlp` does: it prints its lines and exits with a
      code, or `Popen` itself raises (the string is the exception's text). */
  datatype Attempt = Exited(output: seq<string>, code: int) | LaunchFailed(error: string)

  /** A `messagebox.showerror` or `messagebox.showinfo` call. */
  datatype Alert = ShowError(title: string, message: string) | ShowInfo(title: string, message: string)

  /** The files after `open(path, "a")` (which creates a missing file) and
      writing `lines` to it. */
  function Appended(files: map<string, seq<string>>, path: string, lines: seq<string>): map<string, seq<string>> {
    files[path := (if path in files then files[path] else []) + lines]
  }

  lemma OverwriteTwice(m: map<string, seq<string>>, k: string, v1: seq<string>, v2: seq<string>)
    ensures m[k := v1][k := v2] == m[k := v2]
  {
  }

  /** The program's window together with what its worker reaches beyond
      it: the widgets it writes to, the file system, and the record of the
      child processes it starts. */
  class Window {
    /** The strings inserted at the end of the log panel, in order. */
    var panel: seq<string>
    /** `progress_bar["value"]`. */
    var progress: real
    /** The message boxes shown, in order. */
    var alerts: seq<Alert>
    /** Text files by path, each as the lines written to it. */
    var files: map<string, seq<string>>
    /** Existing directories by path. */
    var dirs: set<string>
    /** The commands handed to `subprocess.Popen`, in order. */
    var launched: seq<seq<string>>

    constructor (files0: map<string, seq<string>>, dirs0: set<string>)
      ensures panel == [] && progress == 0.0 && alerts == [] && launched == []
      ensures files == files0 && dirs == dirs0
    {
      panel, progress, alerts, launched := [], 0.0, [], [];
      files, dirs := files0, dirs0;
    }

    /** `os.path.exists(p)`: the empty path never exists. */
    predicate Exists(p: string)
      reads this
    {
      p != "" && (p in files || p in dirs)
    }

    /** `log_text.insert(tk.END, msg)`. */
    method Say(msg: string)
      modifies this
      ensures panel == old(panel) + [msg]
      ensures progress == old(progress) && alerts == old(alerts) && files == old(files)
      ensures dirs == old(dirs) && launched == old(launched)
    {
      panel := panel + [msg];
    }

    /** A message box. */
    method Show(a: Alert)
      modifies this
      ensures alerts == old(alerts) + [a]
      ensures panel == old(panel) && progress == old(progress) && files == old(files)
      ensures dirs == old(dirs) && launched == old(launched)
    {
      alerts := alerts + [a];
    }

    /** `progress_bar["value"] = v`. */
    method SetProgress(v: real)
      modifies this
      ensures progress == v
      ensures panel == old(panel) && alerts == old(alerts) && files == old(files)
      ensures dirs == old(dirs) && launched == old(launched)
    {
      progress := v;
    }

    /** `if not os.path.exists(p): os.makedirs(p)`. Only the empty path makes
        `makedirs` raise; any other missing path is created. */
    method EnsureDirectory(p: string) returns (ok: bool)
      modifies this
      ensures ok <==> p != ""
      ensures dirs == if old(Exists(p)) || p == "" then old(dirs) else old(dirs) + {p}
      ensures panel == old(panel) && progress == old(progress) && alerts == old(alerts)
      ensures files == old(files) && launched == old(launched)
    {
      if !Exists(p) {
        if p == "" {
          return false;
        }
        dirs := dirs + {p};
      }
      return true;
    }

    /** `open(path, "a")` (keeps what is there) or `open(path, "w")`
        (starts the file afresh); either creates a missing file. */
    method OpenLog(path: string, truncate: bool)
      modifies this
      ensures files == old(files)[path := if truncate || path !in old(files) then [] else old(files)[path]]
      ensures path in files
      ensures panel == old(panel) && progress == old(progress) && alerts == old(alerts)
      ensures dirs == old(dirs) && launched == old(launched)
    {
      if truncate || path !in files {
        files := files[path := []];
      }
    }

    /** `log_file.write(line)` on a file opened by `OpenLog`. */
    method WriteLine(path: string, line: string)
      requires path in files
      modifies this
      ensures files == old(files)[path := old(files)[path] + [line]]
      ensures panel == old(panel) && progress == old(progress) && alerts == old(alerts)
      ensures dirs == old(dirs) && launched == old(launched)
    {
      files := files[path := files[path] + [line]];
    }

    /** `subprocess.Popen(command, ...)`: the command is handed over. */
    method Launch(command: seq<string>)
      modifies this
      ensures launched == old(launched) + [command]
      ensures panel == old(panel) && progress == old(progress) && alerts == old(alerts)
      ensures files == old(files) && dirs == old(dirs)
    {
      launched := launched + [command];
    }

    /** The line loop of the retrying variant: each output line is written
        to the log file and inserted into the panel. */
    method Relay(path: string, lines: seq<string>)
      requires path in files
      modifies this
      ensures files == old(files)[path := old(files)[path] + lines]
      ensures panel == old(panel) + lines
      ensures progress == old(progress) && alerts == old(alerts)
      ensures dirs == old(dirs) && launched == old(launched)
    {
      ghost var start := files[path];
      assert files[path := start + lines[..0]] == files by { assert start + lines[..0] == start; }
      var i := 0;
      while i < |lines|
        invariant 0 <= i <= |lines|
        invariant files == old(files)[path := start + lines[..i]]
        invariant panel == old(panel) + lines[..i]
        invariant progress == old(progress) && alerts == old(alerts)
        invariant dirs == old(dirs) && launched == old(launched)
      {
        assert start + lines[..i + 1] == start + lines[..i] + [lines[i]];
        WriteLine(path, lines[i]);
        Say(lines[i]);
        i := i + 1;
      }
      assert lines[..i] == lines;
    }

    /** The line loop of the other two variants: as `Relay`, and a line
        with `[download]` and `%` in it for which `parse_progress` finds a
        number moves the bar to that number. */
    method RelayWithProgress(path: string, lines: seq<string>)
      requires path in files
      modifies this
      ensures files == old(files)[path := old(files)[path] + lines]
      ensures panel == old(panel) + lines
      ensures progress == ProgressAfter(old(progress), lines)
      ensures alerts == old(alerts) && dirs == old(dirs) && launched == old(launched)
    {
      ghost var start := files[path];
      assert files[path := start + lines[..0]] == files by { assert start + lines[..0] == start; }
      var i := 0;
      while i < |lines|
        invariant 0 <= i <= |lines|
        invariant files == old(files)[path := start + lines[..i]]
        invariant panel == old(panel) + lines[..i]
        invariant progress == ProgressAfter(old(progress), lines[..i])
        invariant alerts == old(alerts) && dirs == old(dirs) && launched == old(launched)
      {
        var line := lines[i];
        assert start + lines[..i + 1] == start + lines[..i] + [line];
        ProgressAfterStep(old(progress), lines, i);
        WriteLine(path, line);
        var v := GatedProgress(line);
        if v.Some? {
          SetProgress(v.value);
        }
        Say(line);
        i := i + 1;
      }
      assert lines[..i] == lines;
    }
  }
}
