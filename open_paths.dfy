/**
 * Routing of paths handed to the app by the operating system, by a drop on
 * the window, or at start-up (src/app/open-paths-controller.js).
 *
 * The operations the router hands paths to (opening one file, several files,
 * a folder, a new window) are returned as actions; their effect on the state
 * is modelled where those operations are. The backend commands it invokes are
 * the functions of the `Launch` module, or outcomes passed in for calls whose
 * result depends on state held elsewhere. `Date.now()` is a parameter.
 */
module OpenPaths {
  import opened Common
  import opened Strs
  import opened Session
  import opened PathInput
  import opened Launch

  /** Within this many milliseconds a repeated OS open of the same paths is dropped. */
  const DuplicateWindowMs: int := 2000

  /** The deduper's remembered open: the joined paths and when they were accepted. */
  datatype DedupeState = DedupeState(signature: string, timestamp: int)

  const InitialDedupe: DedupeState := DedupeState("", 0)

  /** `paths.join("\n")`. */
  function Signature(paths: seq<string>): string
  {
    Join(paths, "\n")
  }

  /** `shouldSkipDuplicateOsOpenForDeduper`: whether to skip, and the deduper afterwards. */
  function DedupeStep(s: DedupeState, paths: seq<string>, now: int): (bool, DedupeState)
  {
    var sig := Signature(paths);
    if s.signature == sig && now - s.timestamp < DuplicateWindowMs then (true, s)
    else (false, DedupeState(sig, now))
  }

  /**
   * A skip happens exactly for the same joined paths inside the window, and
   * leaves the deduper as it was; anything else is accepted and remembered
   * with its time.
   */
  lemma DedupeStepFacts(s: DedupeState, paths: seq<string>, now: int)
    ensures var (skip, s1) := DedupeStep(s, paths, now);
            (skip <==> s.signature == Signature(paths) && now - s.timestamp < DuplicateWindowMs)
            && (skip ==> s1 == s)
            && (!skip ==> s1 == DedupeState(Signature(paths), now))
  {
  }

  /** Feeding the same paths at each of the given times: which were skipped, and the deduper at the end. */
  function DedupeRun(s: DedupeState, paths: seq<string>, times: seq<int>): (seq<bool>, DedupeState)
    decreases |times|
  {
    if times == [] then ([], s)
    else
      var (skip, s1) := DedupeStep(s, paths, times[0]);
      var (rest, s2) := DedupeRun(s1, paths, times[1..]);
      ([skip] + rest, s2)
  }

  /**
   * The window is not extended by skipped repeats: once paths are accepted at
   * `t0`, every repeat before `t0 + 2000` is skipped however many came
   * before it, and the deduper still holds `t0`.
   */
  lemma {:induction false} DedupeWindowNotExtended(paths: seq<string>, t0: int, times: seq<int>)
    requires forall k :: 0 <= k < |times| ==> times[k] - t0 < DuplicateWindowMs
    ensures var (skips, s) := DedupeRun(DedupeState(Signature(paths), t0), paths, times);
            s == DedupeState(Signature(paths), t0) && |skips| == |times|
            && forall k :: 0 <= k < |skips| ==> skips[k]
  {
    if times != [] {
      DedupeWindowNotExtended(paths, t0, times[1..]);
    }
  }

  /** After the window, the repeat is accepted again however recently it was last skipped. */
  lemma DedupeAfterWindow(paths: seq<string>, t0: int, t1: int, t2: int)
    requires t1 - t0 < DuplicateWindowMs <= t2 - t0
    ensures var (skip1, s1) := DedupeStep(DedupeState(Signature(paths), t0), paths, t1);
            var (skip2, s2) := DedupeStep(s1, paths, t2);
            skip1 && !skip2 && s2 == DedupeState(Signature(paths), t2)
  {
  }

  /** Joining a list with the separator and splitting it again gives the list back, when no item holds the separator. */
  lemma {:induction false} SplitJoin(parts: seq<string>, sep: char)
    requires |parts| >= 1 && forall k :: 0 <= k < |parts| ==> sep !in parts[k]
    ensures Split(Join(parts, [sep]), sep) == parts
  {
    if |parts| == 1 {
      SplitNoSep(parts[0], sep);
    } else {
      SplitJoin(parts[1..], sep);
      SplitFirst(parts[0], sep, Join(parts[1..], [sep]));
      assert Join(parts, [sep]) == parts[0] + [sep] + Join(parts[1..], [sep]);
    }
  }

  /**
   * Two path lists share a signature only when they are the same list, as
   * long as no path holds a line break; with one, different lists collide.
   */
  lemma SignatureFacts(p: seq<string>, q: seq<string>)
    requires |p| >= 1 && |q| >= 1
    requires forall k :: 0 <= k < |p| ==> '\n' !in p[k]
    requires forall k :: 0 <= k < |q| ==> '\n' !in q[k]
    ensures Signature(p) == Signature(q) <==> p == q
    ensures Signature(["a\nb"]) == Signature(["a", "b"])
  {
    if Signature(p) == Signature(q) {
      SplitJoin(p, '\n');
      SplitJoin(q, '\n');
    }
  }

  /** The object `shouldSkipDuplicateOsOpen` consults and updates. */
  class Deduper {
    var signature: string
    var timestamp: int

    function View(): DedupeState
      reads this
    {
      DedupeState(signature, timestamp)
    }

    constructor ()
      ensures View() == InitialDedupe
    {
      signature := "";
      timestamp := 0;
    }

    /** `shouldSkipDuplicateOsOpenForDeduper`. */
    method ShouldSkipDuplicateOsOpen(paths: seq<string>, now: int) returns (skip: bool)
      modifies this
      ensures (skip, View()) == DedupeStep(old(View()), paths, now)
    {
      var sig := Signature(paths);
      if signature == sig && now - timestamp < DuplicateWindowMs {
        return true;
      }
      signature := sig;
      timestamp := now;
      return false;
    }
  }

  /** Where `handleOsOpenFiles` sends the paths. */
  datatype OsOpenAction =
    | OsIgnored
    | SendToNewWindow(paths: seq<string>)
    | OpenMultiple(paths: seq<string>)
    | OpenIntoTabs(path: string)
    | OpenSingle(path: string)

  /** `handleOsOpenFiles`: the action and the deduper afterwards. */
  function HandleOsOpenSpec(mode: AppMode, s: DedupeState, raw: Option<seq<Option<string>>>, now: int): (OsOpenAction, DedupeState)
  {
    var normalized := NormalizeIncomingPaths(raw);
    if normalized == [] then (OsIgnored, s)
    else
      var (skip, s1) := DedupeStep(s, normalized, now);
      if skip then (OsIgnored, s1)
      else if mode == FolderMode then (SendToNewWindow(normalized), s1)
      else if |normalized| >= 2 then (OpenMultiple(normalized), s1)
      else if mode == FileMode || mode == FilesMode then (OpenIntoTabs(normalized[0]), s1)
      else (OpenSingle(normalized[0]), s1)
  }

  /** `handleOsOpenFiles`. */
  method HandleOsOpenFiles(d: Deduper, mode: AppMode, raw: Option<seq<Option<string>>>, now: int) returns (action: OsOpenAction)
    modifies d
    ensures (action, d.View()) == HandleOsOpenSpec(mode, old(d.View()), raw, now)
  {
    var normalized := NormalizeIncomingPaths(raw);
    if |normalized| == 0 {
      return OsIgnored;
    }
    var skip := d.ShouldSkipDuplicateOsOpen(normalized, now);
    if skip {
      return OsIgnored;
    }
    if mode == FolderMode {
      return SendToNewWindow(normalized);
    }
    if |normalized| >= 2 {
      return OpenMultiple(normalized);
    }
    if mode == FileMode || mode == FilesMode {
      return OpenIntoTabs(normalized[0]);
    }
    return OpenSingle(normalized[0]);
  }

  /**
   * The routes of an OS open: nothing usable or a repeat is ignored without a
   * trace; a folder window always hands the paths to a new window; otherwise
   * two or more paths open together, and one path opens into tabs when a file
   * is shown, or on its own when nothing is.
   */
  lemma HandleOsOpenFacts(mode: AppMode, s: DedupeState, raw: Option<seq<Option<string>>>, now: int)
    ensures var (action, s1) := HandleOsOpenSpec(mode, s, raw, now);
            var n := NormalizeIncomingPaths(raw);
            var skip := DedupeStep(s, n, now).0;
            (action == OsIgnored <==> n == [] || skip)
            && (action == OsIgnored ==> s1 == s)
            && (action.SendToNewWindow? <==> n != [] && !skip && mode == FolderMode)
            && (action.OpenMultiple? <==> n != [] && !skip && mode != FolderMode && |n| >= 2)
            && (action.OpenIntoTabs? <==> |n| == 1 && !skip && (mode == FileMode || mode == FilesMode))
            && (action.OpenSingle? <==> |n| == 1 && !skip && mode == EmptyMode)
            && ((action.SendToNewWindow? || action.OpenMultiple?) ==> action.paths == n)
            && ((action.OpenIntoTabs? || action.OpenSingle?) ==> [action.path] == n)
  {
  }

  /**
   * The same OS open arriving twice within the window is acted on once: after
   * an open that was acted on, the repeat is ignored and leaves the deduper
   * as it was.
   */
  lemma HandleOsOpenTwice(mode: AppMode, s: DedupeState, raw: Option<seq<Option<string>>>, now1: int, now2: int)
    requires now2 - now1 < DuplicateWindowMs
    ensures var (a1, s1) := HandleOsOpenSpec(mode, s, raw, now1);
            var (a2, s2) := HandleOsOpenSpec(mode, s1, raw, now2);
            (a1 != OsIgnored || NormalizeIncomingPaths(raw) == []) ==> a2 == OsIgnored && s2 == s1
  {
  }

  /** What `handleDroppedPaths` does with a drop. */
  datatype DropAction =
    | DropIgnored
    | DropOpenFolder(path: string)
    | DropOpenMultiple(paths: seq<string>)
    | DropOpenSingleFromUi(path: string)
    | DropStatus(message: string, isError: bool)

  const NothingDroppedMessage: string := "No supported files were dropped"

  /**
   * `handleDroppedPaths`: the normalized paths go to the `categorize_paths`
   * command; `ipcError` is the rejection of that call, if it failed.
   */
  function HandleDroppedSpec(raw: Option<seq<Option<string>>>, fs: string -> PathKind, ipcError: Option<string>): DropAction
  {
    var normalized := NormalizeIncomingPaths(raw);
    if normalized == [] then DropIgnored
    else if ipcError.Some? then DropStatus(ipcError.value, true)
    else
      var launch := CategorizePathsSpec(normalized, fs);
      if launch.mode == FolderLaunch && Truthy(launch.path) then DropOpenFolder(launch.path.value)
      else if launch.mode == FilesLaunch && |launch.paths| >= 2 then DropOpenMultiple(launch.paths)
      else if launch.mode == FileLaunch && Truthy(launch.path) then DropOpenSingleFromUi(launch.path.value)
      else DropStatus(NothingDroppedMessage, false)
  }

  /** `handleDroppedPaths`. */
  method HandleDroppedPaths(raw: Option<seq<Option<string>>>, fs: string -> PathKind, ipcError: Option<string>) returns (action: DropAction)
    ensures action == HandleDroppedSpec(raw, fs, ipcError)
  {
    var normalized := NormalizeIncomingPaths(raw);
    if |normalized| == 0 {
      return DropIgnored;
    }
    if ipcError.Some? {
      return DropStatus(ipcError.value, true);
    }
    var launch := CategorizePaths(normalized, fs);
    if launch.mode == FolderLaunch && Truthy(launch.path) {
      return DropOpenFolder(launch.path.value);
    }
    if launch.mode == FilesLaunch && |launch.paths| >= 2 {
      return DropOpenMultiple(launch.paths);
    }
    if launch.mode == FileLaunch && Truthy(launch.path) {
      return DropOpenSingleFromUi(launch.path.value);
    }
    return DropStatus(NothingDroppedMessage, false);
  }

  /** A blank path cannot be a kept one, so a kept path is never empty. */
  lemma KeptNonEmpty(paths: seq<string>, fs: string -> PathKind, kind: PathKind, x: string)
    requires x in KeptOfKind(paths, fs, kind)
    ensures x != ""
  {
    assert !IsBlank(x);
  }

  /**
   * A drop in terms of the dropped files and folders: a lone folder opens it,
   * two or more files open together (folders beside them ignored), a single
   * file opens from the UI, and anything else only reports that nothing
   * supported was dropped.
   */
  lemma HandleDroppedFacts(raw: Option<seq<Option<string>>>, fs: string -> PathKind)
    ensures var n := NormalizeIncomingPaths(raw);
            var files := KeptOfKind(n, fs, FileKind);
            var folders := KeptOfKind(n, fs, DirKind);
            var action := HandleDroppedSpec(raw, fs, None);
            (n == [] ==> action == DropIgnored)
            && (n != [] && files == [] && |folders| == 1 ==> action == DropOpenFolder(folders[0]))
            && (n != [] && |files| >= 2 ==> action == DropOpenMultiple(files))
            && (n != [] && |files| == 1 ==> action == DropOpenSingleFromUi(files[0]))
            && (n != [] && files == [] && |folders| != 1 ==> action == DropStatus(NothingDroppedMessage, false))
  {
    var n := NormalizeIncomingPaths(raw);
    var files := KeptOfKind(n, fs, FileKind);
    var folders := KeptOfKind(n, fs, DirKind);
    CategorizePathsFacts(n, fs);
    if files == [] && |folders| == 1 {
      KeptNonEmpty(n, fs, DirKind, folders[0]);
    }
    if |files| == 1 {
      KeptNonEmpty(n, fs, FileKind, files[0]);
    }
  }

  /** `drainPendingOpenPaths` given what `take_pending_open_paths` returned: whether anything was pending, and the OS-open handling of it. */
  function DrainSpec(mode: AppMode, s: DedupeState, pending: seq<string>, now: int): (bool, OsOpenAction, DedupeState)
  {
    if pending == [] then (false, OsIgnored, s)
    else
      var (action, s1) := HandleOsOpenSpec(mode, s, Some(AsElements(pending)), now);
      (true, action, s1)
  }

  /** `drainPendingOpenPaths`. */
  method DrainPendingOpenPaths(d: Deduper, mode: AppMode, pending: seq<string>, now: int) returns (drained: bool, action: OsOpenAction)
    modifies d
    ensures (drained, action, d.View()) == DrainSpec(mode, old(d.View()), pending, now)
  {
    if |pending| == 0 {
      return false, OsIgnored;
    }
    action := HandleOsOpenFiles(d, mode, Some(AsElements(pending)), now);
    return true, action;
  }

  /** How `bootstrap` ends. */
  datatype BootOutcome =
    | BootDrained(firstCheck: bool, action: OsOpenAction)
    | BootOpenFile(path: string)
    | BootOpenMultiple(paths: seq<string>)
    | BootOpenFolder(path: string)
    /** Nothing was opened: the window is rendered, after reporting the error if a call failed. */
    | BootIdle(error: Option<string>)

  /**
   * `bootstrap`, given the results of its backend calls in order: the first
   * pending-path take, the launch context, and the second take after the pause.
   */
  function BootstrapSpec(mode: AppMode, s: DedupeState, first: Result<seq<string>>, now1: int,
                         launch: Result<LaunchContext>, second: Result<seq<string>>, now2: int): (BootOutcome, DedupeState)
  {
    if first.Err? then (BootIdle(Some(first.message)), s)
    else
      var (drained1, a1, s1) := DrainSpec(mode, s, first.value, now1);
      if drained1 then (BootDrained(true, a1), s1)
      else if launch.Err? then (BootIdle(Some(launch.message)), s)
      else
        var ctx := launch.value;
        if ctx.mode == FileLaunch && Truthy(ctx.path) then (BootOpenFile(ctx.path.value), s)
        else if ctx.mode == FilesLaunch && |ctx.paths| >= 2 then (BootOpenMultiple(ctx.paths), s)
        else if ctx.mode == FolderLaunch && Truthy(ctx.path) then (BootOpenFolder(ctx.path.value), s)
        else if second.Err? then (BootIdle(Some(second.message)), s)
        else
          var (drained2, a2, s2) := DrainSpec(mode, s, second.value, now2);
          if drained2 then (BootDrained(false, a2), s2)
          else (BootIdle(None), s)
  }

  /** `bootstrap`. */
  method Bootstrap(d: Deduper, mode: AppMode, first: Result<seq<string>>, now1: int,
                   launch: Result<LaunchContext>, second: Result<seq<string>>, now2: int) returns (outcome: BootOutcome)
    modifies d
    ensures (outcome, d.View()) == BootstrapSpec(mode, old(d.View()), first, now1, launch, second, now2)
  {
    if first.Err? {
      return BootIdle(Some(first.message));
    }
    var drained, action := DrainPendingOpenPaths(d, mode, first.value, now1);
    if drained {
      return BootDrained(true, action);
    }
    if launch.Err? {
      return BootIdle(Some(launch.message));
    }
    var ctx := launch.value;
    if ctx.mode == FileLaunch && Truthy(ctx.path) {
      return BootOpenFile(ctx.path.value);
    }
    if ctx.mode == FilesLaunch && |ctx.paths| >= 2 {
      return BootOpenMultiple(ctx.paths);
    }
    if ctx.mode == FolderLaunch && Truthy(ctx.path) {
      return BootOpenFolder(ctx.path.value);
    }
    if second.Err? {
      return BootIdle(Some(second.message));
    }
    drained, action := DrainPendingOpenPaths(d, mode, second.value, now2);
    if drained {
      return BootDrained(false, action);
    }
    return BootIdle(None);
  }

  /**
   * Pending OS paths win over the launch context; the launch context is used
   * only when nothing was pending; the queue is looked at a second time only
   * when the launch context opened nothing, and the window is rendered by
   * `bootstrap` itself only when nothing at all was opened.
   */
  lemma BootstrapFacts(mode: AppMode, s: DedupeState, first: Result<seq<string>>, now1: int,
                       launch: Result<LaunchContext>, second: Result<seq<string>>, now2: int)
    ensures var (outcome, s1) := BootstrapSpec(mode, s, first, now1, launch, second, now2);
            (first.Ok? && first.value != [] ==>
               outcome == BootDrained(true, HandleOsOpenSpec(mode, s, Some(AsElements(first.value)), now1).0))
            && (outcome.BootOpenFile? || outcome.BootOpenMultiple? || outcome.BootOpenFolder? ==>
                  first == Ok([]) && launch.Ok? && s1 == s)
            && (outcome.BootDrained? && !outcome.firstCheck ==>
                  first == Ok([]) && launch.Ok? && second.Ok? && second.value != []
                  && outcome.action == HandleOsOpenSpec(mode, s, Some(AsElements(second.value)), now2).0)
            && (outcome == BootIdle(None) <==>
                  first == Ok([]) && launch.Ok? && second == Ok([])
                  && !(launch.value.mode == FileLaunch && Truthy(launch.value.path))
                  && !(launch.value.mode == FilesLaunch && |launch.value.paths| >= 2)
                  && !(launch.value.mode == FolderLaunch && Truthy(launch.value.path)))
  {
  }

  /**
   * The launch contexts the backend produces are always acted on: a non-empty
   * launch context opens exactly what it names, so `bootstrap` checks the
   * queue a second time only after an empty one. The empty path names nothing
   * on any filesystem.
   */
  lemma BootstrapUsesLaunchContext(mode: AppMode, s: DedupeState, args: seq<string>, fs: string -> PathKind,
                                   second: Result<seq<string>>, now1: int, now2: int)
    requires fs("") == Missing
    ensures var ctx := GetLaunchContextSpec(args, fs);
            var (outcome, _) := BootstrapSpec(mode, s, Ok([]), now1, Ok(ctx), second, now2);
            (ctx.mode == FileLaunch ==> outcome == BootOpenFile(ctx.path.value))
            && (ctx.mode == FilesLaunch ==> outcome == BootOpenMultiple(ctx.paths))
            && (ctx.mode == FolderLaunch ==> outcome == BootOpenFolder(ctx.path.value))
  {
    var ctx := GetLaunchContextSpec(args, fs);
    if ctx.mode == FileLaunch {
      assert ctx.path.value == LaunchFiles(args, fs)[0];
      assert ctx.path.value != "" by {
        assert IsCandidate(ctx.path.value) && fs(ctx.path.value) == FileKind;
      }
    }
    if ctx.mode == FolderLaunch {
      assert ctx.path.value != "" by {
        assert IsCandidate(ctx.path.value) && fs(ctx.path.value) == DirKind;
      }
    }
  }
}
