/**
 * The sidebar's and the drop overlay's small decisions (src/ui-behavior.js):
 * how a single file opened from the UI is routed, which sidebar row is
 * selected, what a single click on a sidebar file does, and when a drag over
 * the window is the window's own document.
 *
 * The open-files count is `state.openFiles.length`, so a natural number.
 */
module UiBehavior {
  import opened Common
  import opened Session

  /** The result of `getSingleFileUiOpenMode`. */
  datatype OpenMode = FolderTabs | Tabs | Single

  /** `getSingleFileUiOpenMode`. */
  function GetSingleFileUiOpenMode(mode: AppMode): (r: OpenMode)
    ensures r == FolderTabs <==> mode == FolderMode
    ensures r == Tabs <==> (mode == FileMode || mode == FilesMode)
    ensures r == Single <==> mode == EmptyMode
  {
    match mode
    case FolderMode => FolderTabs
    case FileMode => Tabs
    case FilesMode => Tabs
    case EmptyMode => Single
  }

  /** `entries.some((entry) => entry?.path === activePath)`. */
  predicate HasEntryPath(entries: seq<Entry>, path: string)
  {
    exists k :: 0 <= k < |entries| && entries[k].path == path
  }

  /**
   * `getSidebarSelectedPath`; `entries` is `None` when it is not an array.
   * The selection is the active path only in folder mode, when that path is
   * non-empty and is one of the folder's entries.
   */
  function GetSidebarSelectedPath(mode: AppMode, activePath: Option<string>, entries: Option<seq<Entry>>): (r: Option<string>)
    ensures r.Some? <==> mode == FolderMode && Truthy(activePath) && entries.Some? && HasEntryPath(entries.value, activePath.value)
    ensures r.Some? ==> r == activePath
  {
    if mode != FolderMode || !Truthy(activePath) then None
    else if entries.None? || !HasEntryPath(entries.value, activePath.value) then None
    else activePath
  }

  /** `shouldSidebarSingleClickOpenAsTab`. */
  predicate ShouldSidebarSingleClickOpenAsTab(mode: AppMode, openFilesCount: nat)
  {
    mode == FolderMode && openFilesCount >= 2
  }

  /** `shouldSidebarSingleClickIgnoreSamePath`. */
  predicate ShouldSidebarSingleClickIgnoreSamePath(mode: AppMode, openFilesCount: nat, activePath: Option<string>, nextPath: Option<string>)
  {
    mode == FolderMode && openFilesCount < 2 && Truthy(activePath) && activePath == nextPath
  }

  /** `shouldCapturePreviousSingleFolderFile`. */
  predicate ShouldCapturePreviousSingleFolderFile(mode: AppMode, openFilesCount: nat, activePath: Option<string>, nextPath: Option<string>)
  {
    mode == FolderMode && openFilesCount == 0 && Truthy(activePath) && activePath != nextPath
  }

  /** `shouldCollapseHiddenSingleTabForSidebarOpen`. */
  predicate ShouldCollapseHiddenSingleTabForSidebarOpen(mode: AppMode, openFilesCount: nat)
  {
    mode == FolderMode && openFilesCount == 1
  }

  /**
   * `shouldSuppressDropOverlayForSelfHover`; `paths` is `None` when it is not
   * an array, and an element is `None` when it is not a string.
   */
  predicate ShouldSuppressDropOverlayForSelfHover(paths: Option<seq<Option<string>>>, activePath: Option<string>, rootPath: Option<string>)
  {
    paths.Some? && |paths.value| == 1 && Truthy(paths.value[0])
    && (paths.value[0] == activePath || paths.value[0] == rootPath)
  }

  /**
   * Five of the six pairs of single-click predicates exclude each other.
   * The sixth pair, "ignore the same path" and "collapse the hidden single
   * tab", holds together exactly when one file is open in a folder and the
   * click is on the active path. In folder mode with some file open, a click
   * opens as a tab or collapses the hidden tab.
   */
  lemma SingleClickRoutesExclusive(mode: AppMode, n: nat, activePath: Option<string>, nextPath: Option<string>)
    ensures !(ShouldSidebarSingleClickIgnoreSamePath(mode, n, activePath, nextPath) && ShouldSidebarSingleClickOpenAsTab(mode, n))
    ensures !(ShouldCapturePreviousSingleFolderFile(mode, n, activePath, nextPath) && ShouldSidebarSingleClickIgnoreSamePath(mode, n, activePath, nextPath))
    ensures !(ShouldCapturePreviousSingleFolderFile(mode, n, activePath, nextPath) && ShouldSidebarSingleClickOpenAsTab(mode, n))
    ensures !(ShouldCollapseHiddenSingleTabForSidebarOpen(mode, n) && ShouldSidebarSingleClickOpenAsTab(mode, n))
    ensures !(ShouldCollapseHiddenSingleTabForSidebarOpen(mode, n) && ShouldCapturePreviousSingleFolderFile(mode, n, activePath, nextPath))
    ensures mode == FolderMode ==>
              (ShouldSidebarSingleClickOpenAsTab(mode, n) || ShouldCollapseHiddenSingleTabForSidebarOpen(mode, n) || n == 0)
    ensures ShouldSidebarSingleClickIgnoreSamePath(mode, n, activePath, nextPath) && ShouldCollapseHiddenSingleTabForSidebarOpen(mode, n)
            <==> mode == FolderMode && n == 1 && Truthy(activePath) && activePath == nextPath
  {
  }

  /** Capturing the previous file happens exactly when there are no tabs and a different active file is shown. */
  lemma CaptureIffNoTabsAndOtherFile(mode: AppMode, n: nat, activePath: Option<string>, nextPath: Option<string>)
    requires mode == FolderMode && n == 0 && Truthy(activePath)
    ensures ShouldCapturePreviousSingleFolderFile(mode, n, activePath, nextPath) != ShouldSidebarSingleClickIgnoreSamePath(mode, n, activePath, nextPath)
  {
  }

  /** The overlay is suppressed only for one non-empty path that is the open file or the open folder. */
  lemma SuppressDropOverlayFacts(paths: Option<seq<Option<string>>>, activePath: Option<string>, rootPath: Option<string>)
    ensures ShouldSuppressDropOverlayForSelfHover(paths, activePath, rootPath) ==>
              var p := paths.value[0];
              |paths.value| == 1 && p.Some? && p.value != "" && (p == activePath || p == rootPath)
    ensures paths.Some? && |paths.value| != 1 ==> !ShouldSuppressDropOverlayForSelfHover(paths, activePath, rootPath)
    ensures !Truthy(activePath) && !Truthy(rootPath) ==> !ShouldSuppressDropOverlayForSelfHover(paths, activePath, rootPath)
  {
  }
}
