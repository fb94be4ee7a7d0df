/**
 * The files controller (src/files/controller.js): opening a folder, opening
 * one of its entries, refreshing the entry list when the folder changes on
 * disk, and routing a single file opened from the UI.
 *
 * Every backend call is an outcome parameter: `listed` for
 * `list_project_entries`, `read` for `read_text_file`, and `chosen` and
 * `saveOk` for the save that runs first (see `EditorController.SaveNow`).
 * The folder watch is best effort and changes no state, so it is not
 * modelled.
 */
module FilesController {
  import opened Common
  import opened Session
  import SidebarTree
  import UiBehavior
  import EditorController
  import TabController
  import FileOpen

  // ---------------------------------------------------------------------------
  // didProjectEntriesChange
  // ---------------------------------------------------------------------------

  /**
   * `didProjectEntriesChange`, a loop with early returns; `None` stands for an
   * argument that is not an array. Entries are compared by path and relative
   * path, which is all an entry holds, so the lists differ exactly when they
   * are not equal: in particular a copy of the same list is no change.
   */
  method DidProjectEntriesChange(previous: Option<seq<Entry>>, next: Option<seq<Entry>>) returns (changed: bool)
    ensures changed <==> previous.None? || next.None? || previous.value != next.value
  {
    if previous.None? || next.None? {
      return true;
    }
    var prev, nxt := previous.value, next.value;
    if |prev| != |nxt| {
      return true;
    }
    for i := 0 to |prev|
      invariant prev[..i] == nxt[..i]
    {
      if prev[i].path != nxt[i].path || prev[i].relPath != nxt[i].relPath {
        return true;
      }
      assert prev[..i + 1] == prev[..i] + [prev[i]] && nxt[..i + 1] == nxt[..i] + [nxt[i]];
    }
    assert prev == prev[..|prev|] && nxt == nxt[..|nxt|];
    return false;
  }

  // ---------------------------------------------------------------------------
  // refreshOpenFolderEntries
  // ---------------------------------------------------------------------------

  /** The collapsed folders that still exist among the new entries' folders. */
  function KeptCollapsed(collapsed: set<string>, entries: seq<Entry>): set<string>
  {
    set f | f in collapsed && f in SidebarTree.CollectFolderPathsSpec(entries)
  }

  /**
   * `refreshOpenFolderEntries` for one listing: only an open folder is
   * refreshed; a failed listing only reports; an unchanged listing changes
   * nothing; otherwise the entries are replaced, collapsed folders that are
   * gone are forgotten, and the sidebar tree is marked for redrawing.
   */
  function RefreshSpec(v: StateView, listed: Result<seq<Entry>>): StateView
  {
    if v.mode != FolderMode || !Truthy(v.rootPath) then v
    else if listed.Err? || listed.value == v.entries then v
    else v.(entries := listed.value,
            collapsedFolders := KeptCollapsed(v.collapsedFolders, listed.value),
            sidebarTreeDirty := true)
  }

  /**
   * A refresh that lists the same entries modifies nothing; a changed one
   * keeps exactly the collapsed folders that are still folders of the new
   * entries, and leaves the documents alone.
   */
  lemma RefreshFacts(v: StateView, listed: Result<seq<Entry>>)
    ensures listed.Ok? && listed.value == v.entries ==> RefreshSpec(v, listed) == v
    ensures var w := RefreshSpec(v, listed);
            v.mode == FolderMode && Truthy(v.rootPath) && listed.Ok? && listed.value != v.entries ==>
              w.entries == listed.value && w.sidebarTreeDirty
              && (forall f :: f in w.collapsedFolders <==>
                    f in v.collapsedFolders
                    && exists k :: 0 <= k < |listed.value| && f in SidebarTree.EntryFolders(listed.value[k]))
              && w.buf == v.buf && w.openFiles == v.openFiles && w.activeTabIndex == v.activeTabIndex
  {
    if listed.Ok? {
      SidebarTree.CollectFolderPathsFacts(listed.value);
    }
  }

  /** Refreshing twice with the same listing is the same as refreshing once. */
  lemma RefreshIdempotent(v: StateView, listed: Result<seq<Entry>>)
    ensures RefreshSpec(RefreshSpec(v, listed), listed) == RefreshSpec(v, listed)
  {
  }

  /** `refreshOpenFolderEntries`, one listing at a time. */
  method RefreshOpenFolderEntries(st: AppState, listed: Result<seq<Entry>>)
    modifies st
    ensures st.View() == RefreshSpec(old(st.View()), listed)
  {
    if st.mode != FolderMode || !Truthy(st.rootPath) {
      return;
    }
    if listed.Err? {
      return;
    }
    var entries := listed.value;
    var changed := DidProjectEntriesChange(Some(st.entries), Some(entries));
    if !changed {
      return;
    }
    st.entries := entries;
    var validFolderPaths := SidebarTree.CollectFolderPaths(entries);
    st.collapsedFolders := set f | f in st.collapsedFolders && f in validFolderPaths;
    st.sidebarTreeDirty := true;
  }

  // ---------------------------------------------------------------------------
  // openEntry and openFolder
  // ---------------------------------------------------------------------------

  /** `openEntry`: a read file becomes the buffer, markdown in preview; a failed read only reports. */
  function OpenEntrySpec(v: StateView, read: Result<Payload>): StateView
  {
    if read.Err? then v else ApplyFilePayloadSpec(v, read.value, ApplyOptions(false, false))
  }

  /** `openEntry`. */
  method OpenEntry(st: AppState, read: Result<Payload>)
    modifies st
    ensures st.View() == OpenEntrySpec(old(st.View()), read)
  {
    if read.Ok? {
      st.ApplyFilePayload(read.value, ApplyOptions(false, false));
    }
  }

  /** `entries.some((entry) => entry.path === previous) ? previous : entries[0].path`. */
  function ReopenPath(entries: seq<Entry>, previous: Option<string>): (r: string)
    requires |entries| > 0
  {
    if previous.Some? && UiBehavior.HasEntryPath(entries, previous.value) then previous.value else entries[0].path
  }

  /** The previous file is reopened exactly when it is among the entries; otherwise the first entry is. */
  lemma ReopenPathFacts(entries: seq<Entry>, previous: Option<string>)
    requires |entries| > 0
    ensures var r := ReopenPath(entries, previous);
            (exists k :: 0 <= k < |entries| && entries[k].path == r)
            && (previous.Some? && (exists k :: 0 <= k < |entries| && entries[k].path == previous.value) <==> Some(r) == previous)
            && (Some(r) != previous ==> r == entries[0].path)
  {
    assert entries[0].path == entries[0].path;
  }

  /** The folder state `openFolder` sets once the listing arrives: every folder collapsed, no tabs, the sidebar shown. */
  function EnterFolder(v: StateView, path: string, entries: seq<Entry>): StateView
  {
    v.(mode := FolderMode, rootPath := Some(path), entries := entries,
       collapsedFolders := SidebarTree.CollectFolderPathsSpec(entries), sidebarTreeDirty := true,
       sidebarVisible := true, openFiles := [], activeTabIndex := 0)
  }

  /**
   * `openFolder`: save, list the folder, enter it, then open the previous
   * file if the folder has it, else its first entry; an empty folder clears
   * the buffer. A failed listing leaves the window as the save left it.
   * `readFile` gives the outcome of `read_text_file` for each path.
   */
  function OpenFolderSpec(v: StateView, path: string, listed: Result<seq<Entry>>, readFile: string -> Result<Payload>,
                          chosen: Option<string>, saveOk: bool): StateView
  {
    if path == "" then v
    else
      var w := EditorController.SaveNowSpec(v, chosen, saveOk);
      if listed.Err? then w
      else
        var u := EnterFolder(w, path, listed.value);
        if |listed.value| > 0 then OpenEntrySpec(u, readFile(ReopenPath(listed.value, w.buf.activePath)))
        else ClearSpec(u)
  }

  /**
   * A listed folder is open with no tabs, index 0, the sidebar visible and
   * every folder path collapsed; it shows the file it reopened, the previous
   * one when the folder has it and else the first entry, or nothing for an
   * empty folder.
   */
  lemma OpenFolderFacts(v: StateView, path: string, listed: Result<seq<Entry>>, readFile: string -> Result<Payload>,
                        chosen: Option<string>, saveOk: bool)
    requires path != "" && listed.Ok?
    ensures var w := OpenFolderSpec(v, path, listed, readFile, chosen, saveOk);
            w.mode == FolderMode && w.rootPath == Some(path) && w.entries == listed.value && w.sidebarVisible
            && w.openFiles == [] && w.activeTabIndex == 0
            && w.collapsedFolders == SidebarTree.CollectFolderPathsSpec(listed.value)
            && (|listed.value| == 0 ==> w.buf == EmptyBuffer)
    ensures var previous := EditorController.SaveNowSpec(v, chosen, saveOk).buf.activePath;
            var w := OpenFolderSpec(v, path, listed, readFile, chosen, saveOk);
            |listed.value| > 0 ==>
              var p := ReopenPath(listed.value, previous);
              (readFile(p).Ok? ==> w.buf.activePath == Some(readFile(p).value.path) && !w.buf.isDirty)
              && (previous.Some? && UiBehavior.HasEntryPath(listed.value, previous.value) ==> Some(p) == previous)
              && (previous.None? || !UiBehavior.HasEntryPath(listed.value, previous.value) ==> p == listed.value[0].path)
  {
  }

  /** `openFolder`. */
  method OpenFolder(st: AppState, path: string, listed: Result<seq<Entry>>, readFile: string -> Result<Payload>,
                    chosen: Option<string>, saveOk: bool)
    modifies st
    ensures st.View() == OpenFolderSpec(old(st.View()), path, listed, readFile, chosen, saveOk)
  {
    if path == "" {
      return;
    }
    EditorController.SaveNow(st, chosen, saveOk);
    if listed.Err? {
      return;
    }
    var entries := listed.value;
    var previous := st.buf.activePath;
    var folders := SidebarTree.CollectFolderPaths(entries);
    EnterFolderState(st, path, entries, folders);
    if |entries| > 0 {
      var nextPath := ReopenPath(entries, previous);
      OpenEntry(st, readFile(nextPath));
    } else {
      st.ClearActiveFile();
    }
  }

  /** The assignments of `openFolder` once the listing arrives. */
  method EnterFolderState(st: AppState, path: string, entries: seq<Entry>, folders: set<string>)
    requires folders == SidebarTree.CollectFolderPathsSpec(entries)
    modifies st
    ensures st.View() == EnterFolder(old(st.View()), path, entries)
  {
    st.mode, st.rootPath, st.entries := FolderMode, Some(path), entries;
    st.collapsedFolders, st.sidebarTreeDirty, st.sidebarVisible := folders, true, true;
    st.SetTabs([], 0);
  }

  // ---------------------------------------------------------------------------
  // openFolderEntryInTabs and openSingleFileFromUi
  // ---------------------------------------------------------------------------

  /**
   * The single folder file wrapped as a tab, writable, without scroll
   * offsets (the record has no `scrollState`).
   */
  function WrappedActiveFile(v: StateView): Tab
  {
    Tab(v.buf.activePath, v.buf.content, v.buf.activeKind, true, v.buf.isDirty, v.buf.markdownViewMode,
        ScrollState(NonFinite, NonFinite))
  }

  /**
   * `openFolderEntryInTabs`: in a folder, open as a tab when tabs exist;
   * with no file shown open the entry as the single file; ignore the file
   * already shown; otherwise make the shown file the first tab and open the
   * new one beside it.
   */
  function OpenFolderEntryInTabsSpec(v: StateView, path: string, read: Result<Payload>): StateView
  {
    if path == "" || v.mode != FolderMode then v
    else if HasTabSession(v) then TabController.OpenFileAsTabSpec(v, path, read)
    else if !Truthy(v.buf.activePath) then OpenEntrySpec(v, read)
    else if v.buf.activePath == Some(path) then v
    else TabController.OpenFileAsTabSpec(v.(openFiles := [WrappedActiveFile(v)], activeTabIndex := 0), path, read)
  }

  /**
   * Opening the file already shown changes nothing. Opening another with no
   * tabs keeps the shown file, text and offsets included, as tab 0 and
   * shows the new one as tab 1.
   */
  lemma OpenFolderEntryInTabsFacts(v: StateView, path: string, read: Result<Payload>)
    ensures !HasTabSession(v) && Truthy(v.buf.activePath) && v.buf.activePath == Some(path) ==>
              OpenFolderEntryInTabsSpec(v, path, read) == v
    ensures v.mode == FolderMode && !HasTabSession(v) && Truthy(v.buf.activePath) && v.buf.activePath != Some(path)
            && path != "" && read.Ok? ==>
              var w := OpenFolderEntryInTabsSpec(v, path, read);
              |w.openFiles| == 2 && w.activeTabIndex == 1
              && w.openFiles[0].path == v.buf.activePath && w.openFiles[0].content == v.buf.content
              && w.openFiles[0].isDirty == v.buf.isDirty
              && w.openFiles[0].scrollState == NormalizeScroll(ScrollState(v.buf.editorScrollTop, v.buf.previewScrollTop))
              && w.openFiles[1] == TabController.BuildTabFromPayload(read.value)
              && w.buf.content == read.value.content
  {
    if v.mode == FolderMode && !HasTabSession(v) && Truthy(v.buf.activePath) && v.buf.activePath != Some(path)
       && path != "" && read.Ok? {
      var u := v.(openFiles := [WrappedActiveFile(v)], activeTabIndex := 0);
      assert TabController.FindTab(u.openFiles, path).None?;
      FlushFacts(u);
    }
  }

  /** `openFolderEntryInTabs`. */
  method OpenFolderEntryInTabs(st: AppState, path: string, read: Result<Payload>)
    modifies st
    ensures st.View() == OpenFolderEntryInTabsSpec(old(st.View()), path, read)
  {
    if path == "" || st.mode != FolderMode {
      return;
    }
    if |st.openFiles| > 0 {
      TabController.OpenFileAsTab(st, path, read);
      return;
    }
    if !Truthy(st.buf.activePath) {
      OpenEntry(st, read);
      return;
    }
    if st.buf.activePath == Some(path) {
      return;
    }
    st.SetTabs([WrappedActiveFile(st.View())], 0);
    TabController.OpenFileAsTab(st, path, read);
  }

  /** `openSingleFileFromUi`: route by `getSingleFileUiOpenMode`. */
  function OpenSingleFileFromUiSpec(v: StateView, path: string, read: Result<Payload>,
                                    chosen: Option<string>, saveOk: bool): StateView
  {
    if path == "" then v
    else match UiBehavior.GetSingleFileUiOpenMode(v.mode)
      case FolderTabs => OpenFolderEntryInTabsSpec(v, path, read)
      case Tabs => TabController.OpenFileInTabsSpec(v, path, read, chosen, saveOk)
      case Single => FileOpen.OpenFileSpec(v, path, read, chosen, saveOk)
  }

  /**
   * A file opened from the UI never leaves folder mode and never drops the
   * open tabs of a tab window; an empty window opens it as its single file.
   */
  lemma OpenSingleFileFromUiFacts(v: StateView, path: string, read: Result<Payload>,
                                  chosen: Option<string>, saveOk: bool)
    requires path != ""
    ensures v.mode == FolderMode ==> OpenSingleFileFromUiSpec(v, path, read, chosen, saveOk).mode == FolderMode
    ensures v.mode == EmptyMode ==>
              OpenSingleFileFromUiSpec(v, path, read, chosen, saveOk) == FileOpen.OpenFileSpec(v, path, read, chosen, saveOk)
    ensures v.mode == FilesMode ==>
              OpenSingleFileFromUiSpec(v, path, read, chosen, saveOk) == TabController.OpenFileAsTabSpec(v, path, read)
  {
    if v.mode == FolderMode {
      FromUiKeepsFolder(v, path, read, chosen, saveOk);
    } else if v.mode == EmptyMode {
      FromUiInEmpty(v, path, read, chosen, saveOk);
    } else if v.mode == FilesMode {
      FromUiInFiles(v, path, read, chosen, saveOk);
    }
  }

  lemma FromUiKeepsFolder(v: StateView, path: string, read: Result<Payload>, chosen: Option<string>, saveOk: bool)
    requires path != "" && v.mode == FolderMode
    ensures OpenSingleFileFromUiSpec(v, path, read, chosen, saveOk).mode == FolderMode
  {
    TabController.OpenFileAsTabKeepsMode(v, path, read);
    TabController.OpenFileAsTabKeepsMode(v.(openFiles := [WrappedActiveFile(v)], activeTabIndex := 0), path, read);
  }

  lemma FromUiInEmpty(v: StateView, path: string, read: Result<Payload>, chosen: Option<string>, saveOk: bool)
    requires path != "" && v.mode == EmptyMode
    ensures OpenSingleFileFromUiSpec(v, path, read, chosen, saveOk) == FileOpen.OpenFileSpec(v, path, read, chosen, saveOk)
  {
  }

  lemma FromUiInFiles(v: StateView, path: string, read: Result<Payload>, chosen: Option<string>, saveOk: bool)
    requires path != "" && v.mode == FilesMode
    ensures OpenSingleFileFromUiSpec(v, path, read, chosen, saveOk) == TabController.OpenFileAsTabSpec(v, path, read)
  {
  }

  /** `openSingleFileFromUi`. */
  method OpenSingleFileFromUi(st: AppState, path: string, read: Result<Payload>, chosen: Option<string>, saveOk: bool)
    modifies st
    ensures st.View() == OpenSingleFileFromUiSpec(old(st.View()), path, read, chosen, saveOk)
  {
    if path == "" {
      return;
    }
    var openMode := UiBehavior.GetSingleFileUiOpenMode(st.mode);
    if openMode == UiBehavior.FolderTabs {
      OpenFolderEntryInTabs(st, path, read);
      return;
    }
    if openMode == UiBehavior.Tabs {
      TabController.OpenFileInTabs(st, path, read, chosen, saveOk);
      return;
    }
    FileOpen.OpenFile(st, path, read, chosen, saveOk);
  }
}
