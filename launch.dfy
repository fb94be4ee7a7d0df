/**
 * The backend's launch decisions (src-tauri/src/launch.rs): sorting the paths
 * the app was started or dropped with into files and folders, picking the
 * launch mode, and the queues of paths waiting for a window to pick them up.
 *
 * The filesystem is a function from a path to what it names. A `PathBuf`
 * built from a UTF-8 string converts back to the same string, so a kept path
 * is the argument itself.
 */
module Launch {
  import opened Common

  /** What `exists`, `is_file` and `is_dir` report for a path. */
  datatype PathKind = Missing | FileKind | DirKind | OtherKind

  datatype LaunchMode = EmptyLaunch | FileLaunch | FilesLaunch | FolderLaunch

  /** `LaunchContext`: the mode, the single path for "file"/"folder", the list for "files". */
  datatype LaunchContext = LaunchContext(mode: LaunchMode, path: Option<string>, paths: seq<string>)

  /** Rust's `char::is_whitespace`: the Unicode White_Space property. */
  predicate IsRustWhitespace(c: char)
  {
    ('\t' <= c <= '\r') || c == ' ' || c == '\U{0085}' || c == '\U{00A0}' || c == '\U{1680}'
    || ('\U{2000}' <= c <= '\U{200A}') || c == '\U{2028}' || c == '\U{2029}' || c == '\U{202F}'
    || c == '\U{205F}' || c == '\U{3000}'
  }

  /** `raw.trim().is_empty()`. */
  predicate IsBlank(s: string)
  {
    forall i :: 0 <= i < |s| ==> IsRustWhitespace(s[i])
  }

  /** The non-blank arguments that `fs` reports as `kind`, in order. */
  function KeptOfKind(paths: seq<string>, fs: string -> PathKind, kind: PathKind): (r: seq<string>)
    ensures forall x :: x in r <==> x in paths && !IsBlank(x) && fs(x) == kind
  {
    KeepMembers(paths, fs, kind);
    Keep(paths, fs, kind)
  }

  /** The filter loop of both commands, one argument at a time from the front. */
  function Keep(paths: seq<string>, fs: string -> PathKind, kind: PathKind): seq<string>
  {
    if paths == [] then []
    else
      var last := paths[|paths| - 1];
      Keep(paths[..|paths| - 1], fs, kind) + (if !IsBlank(last) && fs(last) == kind then [last] else [])
  }

  lemma {:induction false} KeepMembers(paths: seq<string>, fs: string -> PathKind, kind: PathKind)
    ensures forall x :: x in Keep(paths, fs, kind) <==> x in paths && !IsBlank(x) && fs(x) == kind
    decreases |paths|
  {
    if paths != [] {
      var last := paths[|paths| - 1];
      KeepMembers(paths[..|paths| - 1], fs, kind);
      assert paths == paths[..|paths| - 1] + [last];
    }
  }

  /** The decision shared by both commands once the files and folders are known. */
  function Decide(files: seq<string>, folders: seq<string>): LaunchContext
  {
    if files == [] && |folders| == 1 then LaunchContext(FolderLaunch, Some(folders[0]), [])
    else if |files| >= 2 then LaunchContext(FilesLaunch, None, files)
    else if |files| == 1 then LaunchContext(FileLaunch, Some(files[0]), [])
    else LaunchContext(EmptyLaunch, None, [])
  }

  /** `categorize_paths`, as a function of the paths and the filesystem. */
  function CategorizePathsSpec(paths: seq<string>, fs: string -> PathKind): LaunchContext
  {
    Decide(KeptOfKind(paths, fs, FileKind), KeptOfKind(paths, fs, DirKind))
  }

  /** `categorize_paths`. */
  method CategorizePaths(paths: seq<string>, fs: string -> PathKind) returns (ctx: LaunchContext)
    ensures ctx == CategorizePathsSpec(paths, fs)
  {
    var files: seq<string> := [];
    var folders: seq<string> := [];
    for i := 0 to |paths|
      invariant files == KeptOfKind(paths[..i], fs, FileKind)
      invariant folders == KeptOfKind(paths[..i], fs, DirKind)
    {
      assert paths[..i + 1][..i] == paths[..i];
      var raw := paths[i];
      if IsBlank(raw) {
        continue;
      }
      var kind := fs(raw);
      if kind == Missing {
        continue;
      }
      if kind == FileKind {
        files := files + [raw];
      } else if kind == DirKind {
        folders := folders + [raw];
      }
    }
    assert paths[..|paths|] == paths;
    if files == [] && |folders| == 1 {
      return LaunchContext(FolderLaunch, Some(folders[0]), []);
    }
    if |files| >= 2 {
      return LaunchContext(FilesLaunch, None, files);
    }
    if |files| == 1 {
      return LaunchContext(FileLaunch, Some(files[0]), []);
    }
    return LaunchContext(EmptyLaunch, None, []);
  }

  /**
   * The categoriser's cases: one folder and no file opens the folder; two or
   * more files open all of them in order, whatever folders there are; exactly
   * one file opens it even beside folders; anything else is empty. Every path
   * it reports is a non-blank argument of the reported kind.
   */
  lemma CategorizePathsFacts(paths: seq<string>, fs: string -> PathKind)
    ensures var ctx := CategorizePathsSpec(paths, fs);
            var files := KeptOfKind(paths, fs, FileKind);
            var folders := KeptOfKind(paths, fs, DirKind);
            (ctx.mode == FolderLaunch <==> files == [] && |folders| == 1)
            && (ctx.mode == FolderLaunch ==> ctx.path == Some(folders[0]) && ctx.paths == [])
            && (ctx.mode == FilesLaunch <==> |files| >= 2)
            && (ctx.mode == FilesLaunch ==> ctx.paths == files && ctx.path == None)
            && (ctx.mode == FileLaunch <==> |files| == 1)
            && (ctx.mode == FileLaunch ==> ctx.path == Some(files[0]))
            && (ctx.mode == EmptyLaunch <==> files == [] && |folders| != 1)
            && (ctx.path.Some? ==> ctx.path.value in paths && !IsBlank(ctx.path.value))
            && (forall x :: x in ctx.paths ==> x in paths && !IsBlank(x) && fs(x) == FileKind)
  {
  }

  /** Blank and missing arguments never matter: removing one leaves the result unchanged. */
  lemma {:induction false} CategorizeIgnoresUnusable(a: seq<string>, x: string, b: seq<string>, fs: string -> PathKind)
    requires IsBlank(x) || fs(x) == Missing || fs(x) == OtherKind
    ensures CategorizePathsSpec(a + [x] + b, fs) == CategorizePathsSpec(a + b, fs)
  {
    KeptSkips(a, x, b, fs, FileKind);
    KeptSkips(a, x, b, fs, DirKind);
  }

  lemma {:induction false} KeptSkips(a: seq<string>, x: string, b: seq<string>, fs: string -> PathKind, kind: PathKind)
    requires kind != Missing && kind != OtherKind
    requires IsBlank(x) || fs(x) == Missing || fs(x) == OtherKind
    ensures Keep(a + [x] + b, fs, kind) == Keep(a + b, fs, kind)
  {
    KeepAppend(a + [x], b, fs, kind);
    KeepAppend(a, [x], fs, kind);
    KeepAppend(a, b, fs, kind);
    assert [x][..0] == [];
  }

  /** Keeping distributes over concatenation. */
  lemma {:induction false} KeepAppend(p: seq<string>, q: seq<string>, fs: string -> PathKind, kind: PathKind)
    ensures Keep(p + q, fs, kind) == Keep(p, fs, kind) + Keep(q, fs, kind)
    decreases |q|
  {
    var w := p + q;
    if q == [] {
      assert w == p;
    } else {
      var init := q[..|q| - 1];
      KeepAppend(p, init, fs, kind);
      assert w[..|w| - 1] == p + init && w[|w| - 1] == q[|q| - 1];
    }
  }

  /** An argument that `get_launch_context` looks at: one not starting with `--`. */
  predicate IsCandidate(arg: string)
  {
    !(|arg| >= 2 && arg[..2] == "--")
  }

  /** The first candidate argument that is a directory. */
  function FirstFolder(args: seq<string>, fs: string -> PathKind): (r: Option<string>)
    ensures r.Some? ==> r.value in args && IsCandidate(r.value) && fs(r.value) == DirKind
    ensures r.None? ==> forall x :: x in args && IsCandidate(x) ==> fs(x) != DirKind
  {
    if args == [] then None
    else if IsCandidate(args[0]) && fs(args[0]) == DirKind then Some(args[0])
    else FirstFolder(args[1..], fs)
  }

  /** The candidate arguments that are files, in order. */
  function LaunchFiles(args: seq<string>, fs: string -> PathKind): (r: seq<string>)
    ensures forall x :: x in r <==> x in args && IsCandidate(x) && fs(x) == FileKind
  {
    if args == [] then []
    else
      var last := args[|args| - 1];
      assert args == args[..|args| - 1] + [last];
      LaunchFiles(args[..|args| - 1], fs) + (if IsCandidate(last) && fs(last) == FileKind then [last] else [])
  }

  /** `get_launch_context` over the arguments after the program name. */
  function GetLaunchContextSpec(args: seq<string>, fs: string -> PathKind): LaunchContext
  {
    var folder := FirstFolder(args, fs);
    var files := LaunchFiles(args, fs);
    if folder.Some? then LaunchContext(FolderLaunch, folder, [])
    else if |files| >= 2 then LaunchContext(FilesLaunch, None, files)
    else if |files| == 1 then LaunchContext(FileLaunch, Some(files[0]), [])
    else LaunchContext(EmptyLaunch, None, [])
  }

  /** `get_launch_context`: one pass over the arguments, remembering the first folder. */
  method GetLaunchContext(args: seq<string>, fs: string -> PathKind) returns (ctx: LaunchContext)
    ensures ctx == GetLaunchContextSpec(args, fs)
  {
    var files: seq<string> := [];
    var folder: Option<string> := None;
    for i := 0 to |args|
      invariant files == LaunchFiles(args[..i], fs)
      invariant folder == FirstFolder(args[..i], fs)
    {
      LaunchStep(args, i, fs);
      var arg := args[i];
      if !IsCandidate(arg) {
        continue;
      }
      var kind := fs(arg);
      if kind == Missing {
        continue;
      }
      if kind == FileKind {
        files := files + [arg];
      } else if kind == DirKind && folder.None? {
        folder := Some(arg);
      }
    }
    assert args[..|args|] == args;
    if folder.Some? {
      return LaunchContext(FolderLaunch, folder, []);
    }
    if |files| >= 2 {
      return LaunchContext(FilesLaunch, None, files);
    }
    if |files| == 1 {
      return LaunchContext(FileLaunch, Some(files[0]), []);
    }
    return LaunchContext(EmptyLaunch, None, []);
  }

  /** How one more argument changes the files and the first folder. */
  lemma LaunchStep(args: seq<string>, i: nat, fs: string -> PathKind)
    requires i < |args|
    ensures var x := args[i];
            LaunchFiles(args[..i + 1], fs) == LaunchFiles(args[..i], fs) + (if IsCandidate(x) && fs(x) == FileKind then [x] else [])
            && FirstFolder(args[..i + 1], fs)
               == if FirstFolder(args[..i], fs).Some? then FirstFolder(args[..i], fs)
                  else if IsCandidate(x) && fs(x) == DirKind then Some(x) else None
  {
    assert args[..i + 1][..i] == args[..i];
    assert args[..i + 1] == args[..i] + [args[i]];
    FirstFolderExtend(args[..i], args[i], fs);
  }

  /** The first folder of a longer list is the first of the shorter one, or else the new argument. */
  lemma {:induction false} FirstFolderExtend(args: seq<string>, x: string, fs: string -> PathKind)
    ensures FirstFolder(args + [x], fs)
            == if FirstFolder(args, fs).Some? then FirstFolder(args, fs)
               else if IsCandidate(x) && fs(x) == DirKind then Some(x) else None
  {
    if args != [] {
      assert (args + [x])[1..] == args[1..] + [x];
      FirstFolderExtend(args[1..], x, fs);
    }
  }

  /**
   * A candidate folder anywhere among the arguments makes the launch open the
   * first such folder, whatever files come with it; without one, the files
   * decide as in the categoriser.
   */
  lemma GetLaunchContextFacts(args: seq<string>, fs: string -> PathKind, k: nat)
    requires k < |args| && IsCandidate(args[k]) && fs(args[k]) == DirKind
    ensures var ctx := GetLaunchContextSpec(args, fs);
            ctx.mode == FolderLaunch && ctx.path == FirstFolder(args, fs)
            && exists j :: 0 <= j <= k && ctx.path == Some(args[j])
  {
    FirstFolderBefore(args, fs, k);
  }

  lemma {:induction false} FirstFolderBefore(args: seq<string>, fs: string -> PathKind, k: nat)
    requires k < |args| && IsCandidate(args[k]) && fs(args[k]) == DirKind
    ensures exists j :: 0 <= j <= k && FirstFolder(args, fs) == Some(args[j])
  {
    if IsCandidate(args[0]) && fs(args[0]) == DirKind {
      assert FirstFolder(args, fs) == Some(args[0]);
    } else {
      FirstFolderBefore(args[1..], fs, k - 1);
      var j :| 0 <= j <= k - 1 && FirstFolder(args[1..], fs) == Some(args[1..][j]);
      assert FirstFolder(args, fs) == Some(args[j + 1]);
    }
  }

  /** Without a folder, `get_launch_context` decides on the files like the categoriser. */
  lemma LaunchWithoutFolder(args: seq<string>, fs: string -> PathKind)
    requires FirstFolder(args, fs).None?
    ensures var ctx := GetLaunchContextSpec(args, fs);
            var files := LaunchFiles(args, fs);
            ctx == Decide(files, [])
            && (ctx.mode == FilesLaunch <==> |files| >= 2)
            && (ctx.mode == FileLaunch <==> |files| == 1)
            && (ctx.mode == EmptyLaunch <==> files == [])
  {
  }

  /** The two queues of `PendingOpenPaths` as a value. */
  datatype Queues = Queues(byWindow: map<string, seq<string>>, global: seq<string>)

  /** The queued paths of one window, empty when it has none. */
  function WindowQueue(q: Queues, windowLabel: string): seq<string>
  {
    if windowLabel in q.byWindow then q.byWindow[windowLabel] else []
  }

  function QueueGlobalSpec(q: Queues, paths: seq<string>): Queues
  {
    q.(global := q.global + paths)
  }

  function QueueForWindowSpec(q: Queues, windowLabel: string, paths: seq<string>): Queues
  {
    q.(byWindow := q.byWindow[windowLabel := WindowQueue(q, windowLabel) + paths])
  }

  function ClearForWindowSpec(q: Queues, windowLabel: string): Queues
  {
    q.(byWindow := q.byWindow - {windowLabel})
  }

  /** `take_pending_open_paths`: what is drained, and the queues afterwards. */
  function TakePendingSpec(q: Queues, windowLabel: string): (Queues, seq<string>)
  {
    (Queues(q.byWindow - {windowLabel}, []), WindowQueue(q, windowLabel) + q.global)
  }

  /**
   * Taking drains this window's paths first, then the global ones; afterwards
   * this window's queue and the global queue are empty, so a second take gets
   * nothing, and the other windows' queues are untouched.
   */
  lemma TakePendingFacts(q: Queues, windowLabel: string)
    ensures var (q1, drained) := TakePendingSpec(q, windowLabel);
            drained == WindowQueue(q, windowLabel) + q.global
            && WindowQueue(q1, windowLabel) == [] && q1.global == []
            && TakePendingSpec(q1, windowLabel).1 == []
            && forall w :: w != windowLabel ==> WindowQueue(q1, w) == WindowQueue(q, w)
  {
  }

  /** Paths queued for a window come out of that window's take, after what was already queued. */
  lemma QueueThenTake(q: Queues, windowLabel: string, paths: seq<string>, other: string)
    ensures TakePendingSpec(QueueForWindowSpec(q, windowLabel, paths), windowLabel).1 == WindowQueue(q, windowLabel) + paths + q.global
    ensures other != windowLabel ==> TakePendingSpec(QueueForWindowSpec(q, windowLabel, paths), other).1 == WindowQueue(q, other) + q.global
    ensures TakePendingSpec(QueueGlobalSpec(q, paths), other).1 == WindowQueue(q, other) + q.global + paths
  {
  }

  /** The paths `open_paths_in_new_window` keeps: non-blank, existing files or folders. */
  function OpenablePaths(paths: seq<string>, fs: string -> PathKind): (r: seq<string>)
    ensures forall x :: x in r <==> x in paths && !IsBlank(x) && (fs(x) == FileKind || fs(x) == DirKind)
  {
    if paths == [] then []
    else
      var last := paths[|paths| - 1];
      assert paths == paths[..|paths| - 1] + [last];
      OpenablePaths(paths[..|paths| - 1], fs) + (if !IsBlank(last) && (fs(last) == FileKind || fs(last) == DirKind) then [last] else [])
  }

  /**
   * `open_paths_in_new_window` with the windowLabel the new window gets and the
   * outcome of building it (`None` on success): nothing happens for no usable
   * path; otherwise the paths are queued for the windowLabel, and taken out again
   * when the window cannot be built.
   */
  function OpenInNewWindowSpec(q: Queues, paths: seq<string>, fs: string -> PathKind, windowLabel: string, buildError: Option<string>): (Queues, Result<()>)
  {
    var open := OpenablePaths(paths, fs);
    if open == [] then (q, Ok(()))
    else
      var queued := QueueForWindowSpec(q, windowLabel, open);
      if buildError.Some? then (ClearForWindowSpec(queued, windowLabel), Err(buildError.value))
      else (queued, Ok(()))
  }

  /**
   * A window that could not be built leaves no queue behind: with a fresh
   * windowLabel the queues are as before; a built window finds exactly the usable
   * paths waiting for it.
   */
  lemma OpenInNewWindowFacts(q: Queues, paths: seq<string>, fs: string -> PathKind, windowLabel: string, buildError: Option<string>)
    requires windowLabel !in q.byWindow
    ensures var (q1, res) := OpenInNewWindowSpec(q, paths, fs, windowLabel, buildError);
            (buildError.Some? ==> q1 == q && (res.Err? <==> OpenablePaths(paths, fs) != []))
            && (buildError.None? ==> res.Ok? && TakePendingSpec(q1, windowLabel).1 == OpenablePaths(paths, fs) + q.global)
  {
    var open := OpenablePaths(paths, fs);
    var queued := QueueForWindowSpec(q, windowLabel, open);
    if open != [] {
      if buildError.Some? {
        var m := queued.byWindow - {windowLabel};
        assert m.Keys == q.byWindow.Keys;
        assert m == q.byWindow;
      } else {
        assert WindowQueue(queued, windowLabel) == open;
      }
    }
  }

  /** The shared `PendingOpenPaths` state; lock failures are not modelled. */
  class PendingOpenPaths {
    var byWindow: map<string, seq<string>>
    var global: seq<string>

    function View(): Queues
      reads this
    {
      Queues(byWindow, global)
    }

    constructor ()
      ensures View() == Queues(map[], [])
    {
      byWindow := map[];
      global := [];
    }

    /** `queue_open_paths`. */
    method QueueOpenPaths(paths: seq<string>)
      modifies this
      ensures View() == QueueGlobalSpec(old(View()), paths)
    {
      global := global + paths;
    }

    /** `queue_open_paths_for_window`. */
    method QueueOpenPathsForWindow(windowLabel: string, paths: seq<string>)
      modifies this
      ensures View() == QueueForWindowSpec(old(View()), windowLabel, paths)
    {
      var current := if windowLabel in byWindow then byWindow[windowLabel] else [];
      byWindow := byWindow[windowLabel := current + paths];
    }

    /** `clear_pending_open_paths_for_window`. */
    method ClearPendingOpenPathsForWindow(windowLabel: string)
      modifies this
      ensures View() == ClearForWindowSpec(old(View()), windowLabel)
    {
      byWindow := byWindow - {windowLabel};
    }

    /** `take_pending_open_paths` for the window with this windowLabel. */
    method TakePendingOpenPaths(windowLabel: string) returns (drained: seq<string>)
      modifies this
      ensures (View(), drained) == TakePendingSpec(old(View()), windowLabel)
    {
      var mine := if windowLabel in byWindow then byWindow[windowLabel] else [];
      byWindow := byWindow - {windowLabel};
      drained := mine + global;
      global := [];
    }

    /** `open_paths_in_new_window`; `windowLabel` is the one `next_window_label` hands out. */
    method OpenPathsInNewWindow(paths: seq<string>, fs: string -> PathKind, windowLabel: string, buildError: Option<string>) returns (res: Result<()>)
      modifies this
      ensures (View(), res) == OpenInNewWindowSpec(old(View()), paths, fs, windowLabel, buildError)
    {
      var open: seq<string> := [];
      for i := 0 to |paths|
        invariant open == OpenablePaths(paths[..i], fs)
      {
        assert paths[..i + 1][..i] == paths[..i];
        var raw := paths[i];
        if !IsBlank(raw) && (fs(raw) == FileKind || fs(raw) == DirKind) {
          open := open + [raw];
        }
      }
      assert paths[..|paths|] == paths;
      if open == [] {
        return Ok(());
      }
      QueueOpenPathsForWindow(windowLabel, open);
      if buildError.Some? {
        ClearPendingOpenPathsForWindow(windowLabel);
        return Err(buildError.value);
      }
      return Ok(());
    }
  }
}
