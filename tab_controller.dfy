/**
 * The tab controller: opening files as tabs, creating an untitled tab,
 * switching, reordering and closing tabs, and closing the active document.
 *
 * Backend calls are parameters: `read` is what `read_text_file` gave,
 * `outcomes` one such outcome per requested path, and `chosen`/`saveOk` the
 * outcomes of the save that runs first (see `EditorController.SaveNow`).
 */
module TabController {
  import opened Common
  import opened Session
  import EditorController
  import FileOpen

  /** `buildTabFromPayload`. */
  function BuildTabFromPayload(p: Payload): Tab
  {
    Tab(Some(p.path), p.content, Some(p.kind), p.writable, false,
        if p.kind == Markdown then Preview else Edit, ZeroScroll())
  }

  /**
   * A freshly read tab is clean and scrolled to the top, previews markdown
   * and edits anything else; a titled one is a normal tab, so handing it to
   * another window gives it back unchanged.
   */
  lemma BuildTabFacts(p: Payload)
    ensures var t := BuildTabFromPayload(p);
            t.path == Some(p.path) && t.content == p.content && t.kind == Some(p.kind) && t.writable == p.writable
            && !t.isDirty && t.scrollState == ZeroScroll()
            && (t.markdownViewMode == Preview <==> p.kind == Markdown)
    ensures p.path != "" ==> NormalizeTransferTab(Some(ToRaw(BuildTabFromPayload(p)))) == Some(BuildTabFromPayload(p))
  {
    NormalizeOpenTab(BuildTabFromPayload(p));
  }

  /** The payloads that were read, in order. */
  function LoadedPayloads(outcomes: seq<Result<Payload>>): (r: seq<Payload>)
    ensures |r| <= |outcomes|
  {
    if outcomes == [] then []
    else
      var init := LoadedPayloads(outcomes[..|outcomes| - 1]);
      var last := outcomes[|outcomes| - 1];
      if last.Ok? then init + [last.value] else init
  }

  function BuildTabs(ps: seq<Payload>): (r: seq<Tab>)
    ensures |r| == |ps|
    ensures forall k :: 0 <= k < |ps| ==> r[k] == BuildTabFromPayload(ps[k])
  {
    seq(|ps|, k requires 0 <= k < |ps| => BuildTabFromPayload(ps[k]))
  }

  /** Every successful read, and nothing else, is loaded: a failure in between only drops its own file. */
  lemma {:induction false} LoadedPayloadsFacts(outcomes: seq<Result<Payload>>)
    ensures forall p :: p in LoadedPayloads(outcomes) <==> Ok(p) in outcomes
    ensures (forall k :: 0 <= k < |outcomes| ==> outcomes[k].Ok?) ==>
              |LoadedPayloads(outcomes)| == |outcomes|
              && forall k :: 0 <= k < |outcomes| ==> LoadedPayloads(outcomes)[k] == outcomes[k].value
    decreases |outcomes|
  {
    if outcomes != [] {
      var init := outcomes[..|outcomes| - 1];
      LoadedPayloadsFacts(init);
      assert outcomes == init + [outcomes[|outcomes| - 1]];
      if forall k :: 0 <= k < |outcomes| ==> outcomes[k].Ok? {
        assert forall k :: 0 <= k < |init| ==> init[k].Ok? by {
          forall k | 0 <= k < |init| ensures init[k].Ok? {
            assert init[k] == outcomes[k];
          }
        }
      }
    }
  }

  /** `openMultipleFiles`: save, read every path, then show one file, or several as tabs. */
  function OpenMultipleFilesSpec(v: StateView, outcomes: seq<Result<Payload>>, chosen: Option<string>, saveOk: bool): StateView
  {
    var w := EditorController.SaveNowSpec(v, chosen, saveOk);
    var loaded := LoadedPayloads(outcomes);
    if |loaded| == 0 then w
    else if |loaded| == 1 then
      ApplyFilePayloadSpec(ResetWorkspace(w, FileMode).(openFiles := []), loaded[0], ApplyOptions(false, false))
    else SyncSpec(ResetWorkspace(w, FilesMode).(openFiles := BuildTabs(loaded), activeTabIndex := 0))
  }

  /**
   * With two or more files read the window holds exactly those files as
   * tabs, the first one active and loaded in the buffer; with one it shows
   * that file alone.
   */
  lemma OpenMultipleFilesFacts(v: StateView, outcomes: seq<Result<Payload>>, chosen: Option<string>, saveOk: bool)
    ensures var n := |LoadedPayloads(outcomes)|;
            var w := OpenMultipleFilesSpec(v, outcomes, chosen, saveOk);
            (n >= 2 ==> w.mode == FilesMode && w.openFiles == BuildTabs(LoadedPayloads(outcomes)) && w.activeTabIndex == 0
                        && w.buf.activePath == Some(LoadedPayloads(outcomes)[0].path) && Consistent(w))
            && (n == 1 ==> w.mode == FileMode && w.openFiles == [] && w.buf.activePath == Some(LoadedPayloads(outcomes)[0].path))
            && (n == 0 ==> w == EditorController.SaveNowSpec(v, chosen, saveOk))
  {
  }

  /** `findIndex(f => f.path === path)`. */
  function FindTab(tabs: seq<Tab>, path: string): (r: Option<nat>)
    ensures r.Some? ==> r.value < |tabs| && tabs[r.value].path == Some(path)
                        && forall j :: 0 <= j < r.value ==> tabs[j].path != Some(path)
    ensures r.None? ==> forall j :: 0 <= j < |tabs| ==> tabs[j].path != Some(path)
  {
    if tabs == [] then None
    else if tabs[0].path == Some(path) then Some(0)
    else
      var r := FindTab(tabs[1..], path);
      if r.Some? then Some(r.value + 1) else None
  }

  /** `openFileAsTab`: activate the tab already showing `path`, or read it into a new last tab. */
  function OpenFileAsTabSpec(v: StateView, path: string, read: Result<Payload>): StateView
  {
    if path == "" then v
    else
      var existing := FindTab(v.openFiles, path);
      if existing.Some? then SyncSpec(FlushSpec(v).(activeTabIndex := existing.value))
      else if read.Err? then v
      else
        var w := FlushSpec(v);
        SyncSpec(w.(openFiles := w.openFiles + [BuildTabFromPayload(read.value)], activeTabIndex := |w.openFiles|))
  }

  /** Opening a file as a tab leaves the window's mode alone. */
  lemma OpenFileAsTabKeepsMode(v: StateView, path: string, read: Result<Payload>)
    ensures OpenFileAsTabSpec(v, path, read).mode == v.mode
  {
    FlushFacts(v);
  }

  /**
   * Opening a path that has a tab activates its first tab and adds none;
   * otherwise a successful read appends one tab and activates it. Either way
   * the buffer then shows the active tab.
   */
  lemma OpenFileAsTabFacts(v: StateView, path: string, read: Result<Payload>)
    requires path != ""
    ensures var w := OpenFileAsTabSpec(v, path, read);
            var existing := FindTab(v.openFiles, path);
            (existing.Some? ==>
               |w.openFiles| == |v.openFiles| && w.activeTabIndex == existing.value
               && w.buf.activePath == Some(path) && Consistent(w))
            && (existing.None? && read.Ok? ==>
                  |w.openFiles| == |v.openFiles| + 1 && w.activeTabIndex == |v.openFiles|
                  && w.openFiles[|v.openFiles|] == BuildTabFromPayload(read.value)
                  && w.buf.content == read.value.content && Consistent(w))
            && (existing.None? && read.Err? ==> w == v)
  {
    FlushFacts(v);
  }

  /**
   * `openFileInTabs`: in tab mode open as a tab; without a current file fall
   * back to `openFile`; otherwise turn the current file and the new one into
   * two tabs, the new one active.
   */
  function OpenFileInTabsSpec(v: StateView, path: string, read: Result<Payload>, chosen: Option<string>, saveOk: bool): StateView
  {
    if path == "" then v
    else if v.mode == FilesMode then OpenFileAsTabSpec(v, path, read)
    else if v.mode != FileMode || !Truthy(v.buf.activePath) then FileOpen.OpenFileSpec(v, path, read, chosen, saveOk)
    else if v.buf.activePath == Some(path) then v
    else
      var w := EditorController.SaveNowSpec(v, chosen, saveOk);
      if read.Err? then w
      else
        SyncSpec(ResetWorkspace(w, FilesMode).(openFiles := [CurrentTab(w), BuildTabFromPayload(read.value)],
                                               activeTabIndex := 1))
  }

  /**
   * From a single file, opening another file keeps the current one, text
   * and offsets included, as the first of two tabs and shows the new one.
   */
  lemma OpenFileInTabsFromFile(v: StateView, path: string, p: Payload, chosen: Option<string>, saveOk: bool)
    requires path != "" && v.mode == FileMode && Truthy(v.buf.activePath) && v.buf.activePath != Some(path)
    ensures var w := OpenFileInTabsSpec(v, path, Ok(p), chosen, saveOk);
            var saved := EditorController.SaveNowSpec(v, chosen, saveOk);
            w.mode == FilesMode && |w.openFiles| == 2 && w.activeTabIndex == 1
            && w.openFiles[0] == CurrentTab(saved) && w.openFiles[0].content == v.buf.content
            && w.openFiles[0].scrollState == ScrollState(v.buf.editorScrollTop, v.buf.previewScrollTop)
            && w.openFiles[1] == BuildTabFromPayload(p) && w.buf.activePath == Some(p.path)
  {
    EditorController.SaveNowFacts(v, chosen, saveOk);
  }

  /** The tab `createNewTab` appends. */
  function UntitledTab(): Tab
  {
    Tab(None, "", Some(Text), true, false, Edit, ZeroScroll())
  }

  /** A lone file shown without tabs becomes the first tab. */
  function WrapLoneFile(w: StateView): StateView
  {
    if (w.mode == FileMode || w.mode == EmptyMode) && Truthy(w.buf.activePath) && |w.openFiles| == 0
    then w.(openFiles := [CurrentTab(w)]) else w
  }

  /** The untitled tab appended and made active. */
  function AppendUntitled(w: StateView): StateView
  {
    w.(openFiles := w.openFiles + [UntitledTab()], activeTabIndex := |w.openFiles|)
  }

  /** A file or empty window turns into a tab window. */
  function EnterTabMode(w: StateView): StateView
  {
    if w.mode == FileMode || w.mode == EmptyMode then w.(mode := FilesMode) else w
  }

  /** `createNewTab`. */
  function CreateNewTabSpec(v: StateView): StateView
  {
    SyncSpec(EnterTabMode(AppendUntitled(WrapLoneFile(FlushSpec(v)))))
  }

  /** Loading the untitled tab gives an empty, clean text buffer in edit mode, scrolled to the top. */
  lemma SyncUntitled(x: StateView)
    requires HasActiveTab(x) && x.openFiles[x.activeTabIndex] == UntitledTab()
    ensures SyncSpec(x) == x.(buf := Buffer(None, Some(Text), "", false, Edit, Finite(0.0), Finite(0.0), false, false))
  {
  }

  /**
   * A new tab is an untitled, empty text tab placed last and made active;
   * a lone file is first kept as tab 0 with its text and offsets; a file or
   * empty window turns into a tab window; the earlier tabs are kept.
   */
  lemma CreateNewTabFacts(v: StateView)
    ensures var w := CreateNewTabSpec(v);
            var wrap := (v.mode == FileMode || v.mode == EmptyMode) && Truthy(v.buf.activePath) && |v.openFiles| == 0;
            |w.openFiles| == |v.openFiles| + (if wrap then 2 else 1)
            && w.activeTabIndex == |w.openFiles| - 1 && w.openFiles[|w.openFiles| - 1] == UntitledTab()
            && w.buf == Buffer(None, Some(Text), "", false, Edit, Finite(0.0), Finite(0.0), false, false)
            && (v.mode == FileMode || v.mode == EmptyMode ==> w.mode == FilesMode)
            && (v.mode == FilesMode || v.mode == FolderMode ==> w.mode == v.mode)
            && (wrap ==> w.openFiles[0] == CurrentTab(v))
            && (forall j :: 0 <= j < |v.openFiles| && j != v.activeTabIndex ==> w.openFiles[j] == v.openFiles[j])
  {
    FlushFacts(v);
    var w := FlushSpec(v);
    var m := EnterTabMode(AppendUntitled(WrapLoneFile(w)));
    assert |WrapLoneFile(w).openFiles| == |v.openFiles| + (if WrapLoneFile(w) == w then 0 else 1);
    SyncUntitled(m);
  }

  /** `switchTab`. */
  function SwitchTabSpec(v: StateView, i: int): StateView
  {
    if i == v.activeTabIndex then v else SyncSpec(FlushSpec(v).(activeTabIndex := i))
  }

  /**
   * Switching away and back again loses nothing: the buffer returns as it
   * was (bar the anchor and the pending autosave) and the tabs hold the
   * flushed buffer.
   */
  lemma SwitchTabRoundTrip(v: StateView, i: int)
    requires HasActiveTab(v) && Consistent(v) && 0 <= i < |v.openFiles| && i != v.activeTabIndex
    requires v.buf.editorScrollTop.Finite? && v.buf.previewScrollTop.Finite?
    requires FiniteScroll(v.openFiles[i].scrollState)
    ensures SwitchTabSpec(SwitchTabSpec(v, i), v.activeTabIndex) == FlushSpec(v).(buf := Settled(v.buf))
  {
    var j := v.activeTabIndex;
    var f := FlushSpec(v);
    var x := f.(activeTabIndex := i);
    assert x.openFiles[i] == v.openFiles[i];
    FlushAfterSync(x);
    var u := SyncSpec(x);
    assert u.(activeTabIndex := j) == f.(buf := u.buf);
    SyncIgnoresBuf(f, u.buf);
    SyncAfterFlush(v);
  }

  /** Flushing straight after a sync writes back what was loaded, when the tab's offsets are finite. */
  lemma FlushAfterSync(x: StateView)
    requires HasActiveTab(x) && FiniteScroll(x.openFiles[x.activeTabIndex].scrollState)
    ensures FlushSpec(SyncSpec(x)) == SyncSpec(x)
  {
    var y := SyncSpec(x);
    var t := x.openFiles[x.activeTabIndex];
    assert FlushedTab(y) == t;
    assert y.openFiles[x.activeTabIndex := t] == y.openFiles;
  }

  /** Sync replaces the whole buffer, so the buffer it starts from does not matter. */
  lemma SyncIgnoresBuf(x: StateView, b: Buffer)
    requires HasActiveTab(x)
    ensures SyncSpec(x.(buf := b)) == SyncSpec(x)
  {
  }

  /** Syncing straight after a flush gives back the buffer, settled, when it matches the tab and its offsets are finite. */
  lemma SyncAfterFlush(v: StateView)
    requires HasActiveTab(v) && Consistent(v)
    requires v.buf.editorScrollTop.Finite? && v.buf.previewScrollTop.Finite?
    ensures SyncSpec(FlushSpec(v)) == FlushSpec(v).(buf := Settled(v.buf))
  {
    assert FlushSpec(v).openFiles[v.activeTabIndex] == FlushedTab(v);
  }

  /** Switching to a tab shows it: the buffer is the target tab's, and the other tabs are untouched. */
  lemma SwitchTabFacts(v: StateView, i: int)
    requires 0 <= i < |v.openFiles| && i != v.activeTabIndex
    ensures var w := SwitchTabSpec(v, i);
            w.activeTabIndex == i && |w.openFiles| == |v.openFiles| && Consistent(w)
            && w.buf.content == v.openFiles[i].content && w.buf.activePath == v.openFiles[i].path
            && (forall j :: 0 <= j < |v.openFiles| && j != v.activeTabIndex ==> w.openFiles[j] == v.openFiles[j])
  {
    FlushFacts(v);
  }

  /** The tab list after `splice(from, 1)` and `splice(to, 0, tab)`. */
  function Moved(tabs: seq<Tab>, from: nat, to: nat): (r: seq<Tab>)
    requires from < |tabs| && to < |tabs|
    ensures |r| == |tabs|
  {
    var rest := tabs[..from] + tabs[from + 1..];
    rest[..to] + [tabs[from]] + rest[to..]
  }

  /** Where each tab lands: the moved one at `to`, those in between shifted by one toward `from`. */
  lemma MovedAt(tabs: seq<Tab>, from: nat, to: nat, k: nat)
    requires from < |tabs| && to < |tabs| && k < |tabs|
    ensures Moved(tabs, from, to)[k] ==
              if k == to then tabs[from]
              else if from < to && from <= k < to then tabs[k + 1]
              else if to < from && to < k <= from then tabs[k - 1]
              else tabs[k]
  {
  }

  /** Moving is a permutation. */
  lemma MovedPermutes(tabs: seq<Tab>, from: nat, to: nat)
    requires from < |tabs| && to < |tabs|
    ensures multiset(Moved(tabs, from, to)) == multiset(tabs)
  {
    var rest := tabs[..from] + tabs[from + 1..];
    assert tabs == tabs[..from] + [tabs[from]] + tabs[from + 1..];
    assert multiset(tabs) == multiset(tabs[..from]) + multiset{tabs[from]} + multiset(tabs[from + 1..]);
    assert multiset(rest) == multiset(tabs[..from]) + multiset(tabs[from + 1..]);
    assert rest == rest[..to] + rest[to..];
    assert multiset(rest) == multiset(rest[..to]) + multiset(rest[to..]);
    assert Moved(tabs, from, to) == rest[..to] + [tabs[from]] + rest[to..];
    assert multiset(Moved(tabs, from, to)) == multiset(rest[..to]) + multiset{tabs[from]} + multiset(rest[to..]);
    assert multiset(Moved(tabs, from, to)) == multiset(rest) + multiset{tabs[from]};
    assert multiset(tabs) == multiset(rest) + multiset{tabs[from]};
  }

  /** The active index after a move, chosen to follow the active tab. */
  function MovedIndex(active: int, from: nat, to: nat): int
  {
    if active == from then to
    else if from < active && to >= active then active - 1
    else if from > active && to <= active then active + 1
    else active
  }

  /** `moveTab`. */
  function MoveTabSpec(v: StateView, from: nat, to: nat): StateView
    requires from < |v.openFiles| && to < |v.openFiles|
  {
    if from == to then v
    else v.(openFiles := Moved(v.openFiles, from, to), activeTabIndex := MovedIndex(v.activeTabIndex, from, to))
  }

  /**
   * Moving a tab keeps the same tabs (a permutation), puts the moved tab at
   * `to`, and leaves the same tab active; moving a tab onto itself does nothing.
   */
  lemma MoveTabKeepsActive(v: StateView, from: nat, to: nat)
    requires from < |v.openFiles| && to < |v.openFiles|
    ensures var w := MoveTabSpec(v, from, to);
            multiset(w.openFiles) == multiset(v.openFiles) && w.buf == v.buf
            && w.openFiles[to] == v.openFiles[from]
            && (HasActiveTab(v) ==> HasActiveTab(w) && w.openFiles[w.activeTabIndex] == v.openFiles[v.activeTabIndex])
    ensures from == to ==> MoveTabSpec(v, from, to) == v
  {
    MovedPermutes(v.openFiles, from, to);
    MovedAt(v.openFiles, from, to, to);
    if HasActiveTab(v) && from != to {
      MovedAt(v.openFiles, from, to, MovedIndex(v.activeTabIndex, from, to));
    }
  }

  /**
   * The save `closeTab` runs first when the closed tab is titled and active:
   * `saveNow` on the buffer. A titled, dirty, writable tab that is not active
   * is written in the background instead (`CloseTabWrite`).
   */
  function SaveBeforeClose(v: StateView, i: int, chosen: Option<string>, saveOk: bool): StateView
    requires 0 <= i < |v.openFiles|
  {
    if v.openFiles[i].path.Some? && i == v.activeTabIndex then EditorController.SaveNowSpec(v, chosen, saveOk) else v
  }

  /** Removing one element shifts a later one down by one place and leaves an earlier one where it is. */
  lemma RemoveOther<T>(s: seq<T>, i: int, a: int)
    requires 0 <= i < |s| && 0 <= a < |s| && a != i
    ensures var r := s[..i] + s[i + 1..];
            var idx := if i < a then a - 1 else a;
            |r| == |s| - 1 && 0 <= idx < |r| && r[idx] == s[a]
  {
  }

  /**
   * Closing a tab other than the active one does not run `saveNow`: the
   * state is untouched, and any write goes out as `CloseTabWrite`.
   */
  lemma SaveSkipped(v: StateView, i: int, chosen: Option<string>, saveOk: bool)
    requires 0 <= i < |v.openFiles| && i != v.activeTabIndex
    ensures SaveBeforeClose(v, i, chosen, saveOk) == v
  {
  }

  /** The rest of `closeTab` as written: remove tab `i`, empty the session or clamp the index, then sync. */
  function RemoveTab(v: StateView, i: int): StateView
  {
    if !(0 <= i < |v.openFiles|) then v
    else
      var files := v.openFiles[..i] + v.openFiles[i + 1..];
      if |files| == 0 then CloseSession(v)
      else SyncSpec(v.(openFiles := files, activeTabIndex := if v.activeTabIndex >= |files| then |files| - 1 else v.activeTabIndex))
  }

  /** The `write_text_file` request `closeTab` sends for the tab it closes. */
  datatype WriteRequest = WriteRequest(path: string, content: string)

  /**
   * The background write of `closeTab`: a titled tab other than the active
   * one, dirty and writable, is written out with its stored text before it
   * is removed. A failed write only sets the status line, so the state after
   * the close does not depend on its outcome.
   */
  function CloseTabWrite(v: StateView, i: int): Option<WriteRequest>
  {
    if !(0 <= i < |v.openFiles|) then None
    else
      var t := v.openFiles[i];
      if t.path.Some? && i != v.activeTabIndex && t.isDirty && t.writable then Some(WriteRequest(t.path.value, t.content))
      else None
  }

  /**
   * `closeTab` writes exactly a titled, dirty, writable tab that is not the
   * active one, and writes its path and stored text; it never both writes in
   * the background and runs `saveNow`, and a background write leaves the
   * state to the removal alone.
   */
  lemma CloseTabWriteFacts(v: StateView, i: int, chosen: Option<string>, saveOk: bool)
    ensures CloseTabWrite(v, i).Some? <==>
              0 <= i < |v.openFiles| && v.openFiles[i].path.Some? && i != v.activeTabIndex
              && v.openFiles[i].isDirty && v.openFiles[i].writable
    ensures CloseTabWrite(v, i).Some? ==>
              CloseTabWrite(v, i).value == WriteRequest(v.openFiles[i].path.value, v.openFiles[i].content)
              && SaveBeforeClose(v, i, chosen, saveOk) == v
              && CloseTabSpec(v, i, chosen, saveOk) == RemoveTab(v, i)
  {
  }

  /** `closeTab` as written: save, remove, clamp the index, sync. */
  function CloseTabSpec(v: StateView, i: int, chosen: Option<string>, saveOk: bool): StateView
  {
    if !(0 <= i < |v.openFiles|) then v else RemoveTab(SaveBeforeClose(v, i, chosen, saveOk), i)
  }

  /** The tabs other than `i` stay, in order; removing the only tab leaves an empty session. */
  lemma RemoveTabFacts(v: StateView, i: int)
    requires 0 <= i < |v.openFiles|
    ensures var w := RemoveTab(v, i);
            |w.openFiles| == |v.openFiles| - 1
            && (forall j :: 0 <= j < i ==> w.openFiles[j] == v.openFiles[j])
            && (forall j :: i < j < |v.openFiles| ==> w.openFiles[j - 1] == v.openFiles[j])
            && (|v.openFiles| == 1 ==>
                  w.activeTabIndex == 0 && w.buf == EmptyBuffer
                  && w.mode == (if v.mode == FolderMode then FolderMode else EmptyMode))
  {
  }

  /**
   * Closing removes exactly that tab and keeps the others in order; closing
   * the last tab leaves an empty session; a missing index changes nothing.
   */
  lemma CloseTabFacts(v: StateView, i: int, chosen: Option<string>, saveOk: bool)
    ensures !(0 <= i < |v.openFiles|) ==> CloseTabSpec(v, i, chosen, saveOk) == v
    ensures 0 <= i < |v.openFiles| ==>
              var w := CloseTabSpec(v, i, chosen, saveOk);
              |w.openFiles| == |v.openFiles| - 1
              && (forall j :: 0 <= j < i && j != v.activeTabIndex ==> w.openFiles[j] == v.openFiles[j])
              && (forall j :: i < j < |v.openFiles| && j != v.activeTabIndex ==> w.openFiles[j - 1] == v.openFiles[j])
              && (|v.openFiles| == 1 ==>
                    w.activeTabIndex == 0 && w.buf == EmptyBuffer
                    && w.mode == (if v.mode == FolderMode then FolderMode else EmptyMode))
  {
    if 0 <= i < |v.openFiles| {
      EditorController.SaveNowFacts(v, chosen, saveOk);
      var s := SaveBeforeClose(v, i, chosen, saveOk);
      assert |s.openFiles| == |v.openFiles| && s.mode == v.mode;
      assert forall j :: 0 <= j < |v.openFiles| && j != v.activeTabIndex ==> s.openFiles[j] == v.openFiles[j];
      RemoveTabFacts(s, i);
    }
  }

  /**
   * Closing a tab to the left of the active one, with a tab to its right,
   * activates a different tab: the index is not shifted, so the tab after
   * the previously active one slides into its place.
   */
  lemma CloseTabActivatesNeighbour(v: StateView, i: nat, chosen: Option<string>, saveOk: bool)
    requires i < v.activeTabIndex < |v.openFiles| - 1
    ensures var w := CloseTabSpec(v, i, chosen, saveOk);
            w.activeTabIndex == v.activeTabIndex && w.openFiles[w.activeTabIndex] == v.openFiles[v.activeTabIndex + 1]
  {
  }

  /**
   * Closing another tab throws the buffer's unsaved text away: nothing is
   * flushed, sync reloads the active tab's stored text, and no tab holds
   * the edits.
   */
  lemma CloseTabDropsEdits(v: StateView, i: int, chosen: Option<string>, saveOk: bool)
    requires 0 <= i < |v.openFiles| && HasActiveTab(v) && i != v.activeTabIndex
    requires forall j :: 0 <= j < |v.openFiles| ==> v.openFiles[j].content != v.buf.content
    ensures var w := CloseTabSpec(v, i, chosen, saveOk);
            w.buf.content != v.buf.content && forall j :: 0 <= j < |w.openFiles| ==> w.openFiles[j].content != v.buf.content
  {
    SaveSkipped(v, i, chosen, saveOk);
    var files := v.openFiles[..i] + v.openFiles[i + 1..];
    var idx := if v.activeTabIndex >= |files| then |files| - 1 else v.activeTabIndex;
    var x := v.(openFiles := files, activeTabIndex := idx);
    var w := CloseTabSpec(v, i, chosen, saveOk);
    assert w == SyncSpec(x);
    forall j | 0 <= j < |files| ensures files[j].content != v.buf.content {
      if j < i {
        assert files[j] == v.openFiles[j];
      } else {
        assert files[j] == v.openFiles[j + 1];
      }
    }
    assert |files| == |v.openFiles| - 1;
    assert HasActiveTab(x);
    SyncFacts(x);
  }

  /** A concrete instance: tabs A, B, C with B active; closing A makes C active. */
  lemma CloseTabExample(a: Tab, b: Tab, c: Tab, v: StateView)
    requires a.path.Some? && b != c
    requires v.openFiles == [a, b, c] && v.activeTabIndex == 1
    ensures CloseTabSpec(v, 0, None, true).openFiles[CloseTabSpec(v, 0, None, true).activeTabIndex] == c
    ensures v.openFiles[v.activeTabIndex] == b
  {
  }

  /**
   * `closeTab` as evidently intended: the buffer flushed into the active tab
   * first, and the index shifted down when a tab to its left closes, so the
   * same tab stays active.
   */
  function CloseTabFixed(v: StateView, i: int, chosen: Option<string>, saveOk: bool): StateView
  {
    if !(0 <= i < |v.openFiles|) then v else RemoveTabFixed(FlushSpec(SaveBeforeClose(v, i, chosen, saveOk)), i)
  }

  /** Removing tab `i` while following the active tab: the index moves down when a tab to its left goes. */
  function RemoveTabFixed(v: StateView, i: int): StateView
  {
    if !(0 <= i < |v.openFiles|) then v
    else
      var files := v.openFiles[..i] + v.openFiles[i + 1..];
      if |files| == 0 then CloseSession(v)
      else
        var idx := if i < v.activeTabIndex then v.activeTabIndex - 1
                   else if v.activeTabIndex >= |files| then |files| - 1
                   else v.activeTabIndex;
        SyncSpec(v.(openFiles := files, activeTabIndex := idx))
  }

  /**
   * Closing another tab with the corrected close keeps the same tab active
   * holding the buffer's text, and the buffer itself unchanged.
   */
  lemma CloseTabFixedKeepsActive(v: StateView, i: int, chosen: Option<string>, saveOk: bool)
    requires 0 <= i < |v.openFiles| && HasActiveTab(v) && i != v.activeTabIndex
    ensures var w := CloseTabFixed(v, i, chosen, saveOk);
            |w.openFiles| == |v.openFiles| - 1 && HasActiveTab(w)
            && w.openFiles[w.activeTabIndex] == FlushedTab(v)
            && w.buf.content == v.buf.content && w.buf.isDirty == v.buf.isDirty
            && w.buf.markdownViewMode == v.buf.markdownViewMode
  {
    SaveSkipped(v, i, chosen, saveOk);
    FlushFacts(v);
    var f := FlushSpec(v);
    RemoveOther(f.openFiles, i, v.activeTabIndex);
    RemoveOtherTab(f, i);
  }

  /** Closing a tab other than the active one, with the corrected removal, loads the same tab again. */
  lemma RemoveOtherTab(f: StateView, i: int)
    requires 0 <= i < |f.openFiles| && HasActiveTab(f) && i != f.activeTabIndex
    ensures var w := RemoveTabFixed(f, i);
            var a := f.activeTabIndex;
            var idx := if i < a then a - 1 else a;
            |w.openFiles| == |f.openFiles| - 1 && w.activeTabIndex == idx
            && w.openFiles == f.openFiles[..i] + f.openFiles[i + 1..]
            && HasActiveTab(w) && w.openFiles[idx] == f.openFiles[a]
            && w.buf.content == f.openFiles[a].content && w.buf.isDirty == f.openFiles[a].isDirty
            && w.buf.markdownViewMode == f.openFiles[a].markdownViewMode
  {
    var a := f.activeTabIndex;
    var files := f.openFiles[..i] + f.openFiles[i + 1..];
    var idx := if i < a then a - 1 else a;
    RemoveOther(f.openFiles, i, a);
    var x := f.(openFiles := files, activeTabIndex := idx);
    assert RemoveTabFixed(f, i) == SyncSpec(x);
    SyncFacts(x);
  }

  /** Closing the active tab itself behaves the same in both versions. */
  lemma CloseActiveTabAgrees(v: StateView, chosen: Option<string>, saveOk: bool)
    requires HasActiveTab(v)
    ensures CloseTabFixed(v, v.activeTabIndex, chosen, saveOk) == CloseTabSpec(v, v.activeTabIndex, chosen, saveOk)
  {
    var i := v.activeTabIndex;
    EditorController.SaveNowFacts(v, chosen, saveOk);
    var w := SaveBeforeClose(v, i, chosen, saveOk);
    assert |w.openFiles| == |v.openFiles| && w.activeTabIndex == i;
    RemoveActiveAgrees(w);
  }

  /** Once the active tab itself goes, flushing it first makes no difference. */
  lemma RemoveActiveAgrees(w: StateView)
    requires HasActiveTab(w)
    ensures RemoveTabFixed(FlushSpec(w), w.activeTabIndex) == RemoveTab(w, w.activeTabIndex)
  {
    var i := w.activeTabIndex;
    var f := FlushSpec(w);
    assert f.openFiles[..i] == w.openFiles[..i];
    assert f.openFiles[i + 1..] == w.openFiles[i + 1..];
  }

  /** `closeSingleActiveFile`. */
  function CloseSingleActiveFileSpec(v: StateView, chosen: Option<string>, saveOk: bool): StateView
  {
    if !Truthy(v.buf.activePath) then v
    else CloseSession(EditorController.SaveNowSpec(v, chosen, saveOk))
  }

  /** What `closeActiveFileOrWindow` does. */
  datatype CloseAction = ClosedTab | ClosedFile | ClosedWindow

  /** `closeActiveFileOrWindow`: close the active tab, else the single file, else the window. */
  function CloseActiveFileOrWindowSpec(v: StateView, chosen: Option<string>, saveOk: bool): (StateView, CloseAction)
  {
    if HasTabSession(v) then (CloseTabSpec(v, v.activeTabIndex, chosen, saveOk), ClosedTab)
    else if Truthy(v.buf.activePath) then (CloseSingleActiveFileSpec(v, chosen, saveOk), ClosedFile)
    else (v, ClosedWindow)
  }

  /**
   * Closing the active document removes one tab when there are tabs, and
   * otherwise empties the window; the window itself closes only when nothing
   * is open.
   */
  lemma CloseActiveFileOrWindowFacts(v: StateView, chosen: Option<string>, saveOk: bool)
    ensures var (w, act) := CloseActiveFileOrWindowSpec(v, chosen, saveOk);
            (act == ClosedWindow <==> !HasTabSession(v) && !Truthy(v.buf.activePath))
            && (act == ClosedWindow ==> w == v)
            && (act == ClosedFile ==> w.openFiles == [] && w.buf == EmptyBuffer)
            && (act == ClosedTab && HasActiveTab(v) ==> |w.openFiles| == |v.openFiles| - 1)
  {
    if HasTabSession(v) {
      CloseTabFacts(v, v.activeTabIndex, chosen, saveOk);
    }
  }

  /** `openMultipleFiles`. */
  method OpenMultipleFiles(st: AppState, outcomes: seq<Result<Payload>>, chosen: Option<string>, saveOk: bool)
    modifies st
    ensures st.View() == OpenMultipleFilesSpec(old(st.View()), outcomes, chosen, saveOk)
  {
    EditorController.SaveNow(st, chosen, saveOk);
    var loaded: seq<Tab> := [];
    var payloads: seq<Payload> := [];
    var i := 0;
    while i < |outcomes|
      invariant 0 <= i <= |outcomes|
      invariant payloads == LoadedPayloads(outcomes[..i])
      invariant loaded == BuildTabs(payloads)
    {
      assert outcomes[..i + 1][..i] == outcomes[..i];
      if outcomes[i].Ok? {
        payloads := payloads + [outcomes[i].value];
        loaded := loaded + [BuildTabFromPayload(outcomes[i].value)];
      }
      i := i + 1;
    }
    assert outcomes[..|outcomes|] == outcomes;
    if |loaded| == 0 {
      return;
    }
    if |loaded| == 1 {
      st.ResetWorkspaceTo(FileMode);
      st.SetTabs([], st.activeTabIndex);
      st.ApplyFilePayload(payloads[0], ApplyOptions(false, false));
      return;
    }
    st.ResetWorkspaceTo(FilesMode);
    st.SetTabs(loaded, 0);
    st.SyncActiveTabToState();
  }

  /** `openFileAsTab`. */
  method OpenFileAsTab(st: AppState, path: string, read: Result<Payload>)
    modifies st
    ensures st.View() == OpenFileAsTabSpec(old(st.View()), path, read)
  {
    if path == "" {
      return;
    }
    var existing := FindTab(st.openFiles, path);
    if existing.Some? {
      st.FlushToActiveTab();
      ghost var w := st.View();
      st.activeTabIndex := existing.value;
      assert st.View() == w.(activeTabIndex := existing.value);
      st.SyncActiveTabToState();
      return;
    }
    if read.Err? {
      return;
    }
    var tab := BuildTabFromPayload(read.value);
    st.FlushToActiveTab();
    ghost var w := st.View();
    st.openFiles := st.openFiles + [tab];
    st.activeTabIndex := |st.openFiles| - 1;
    assert st.View() == w.(openFiles := w.openFiles + [tab], activeTabIndex := |w.openFiles|);
    st.SyncActiveTabToState();
  }

  /** `openFileInTabs`. */
  method OpenFileInTabs(st: AppState, path: string, read: Result<Payload>, chosen: Option<string>, saveOk: bool)
    modifies st
    ensures st.View() == OpenFileInTabsSpec(old(st.View()), path, read, chosen, saveOk)
  {
    if path == "" {
      return;
    }
    if st.mode == FilesMode {
      OpenFileAsTab(st, path, read);
      return;
    }
    if st.mode != FileMode || !Truthy(st.buf.activePath) {
      FileOpen.OpenFile(st, path, read, chosen, saveOk);
      return;
    }
    if st.buf.activePath == Some(path) {
      return;
    }
    EditorController.SaveNow(st, chosen, saveOk);
    if read.Err? {
      return;
    }
    var currentTab := CurrentTab(st.View());
    var nextTab := BuildTabFromPayload(read.value);
    st.ResetWorkspaceTo(FilesMode);
    st.SetTabs([currentTab, nextTab], 1);
    st.SyncActiveTabToState();
  }

  /** `createNewTab`. */
  method CreateNewTab(st: AppState)
    modifies st
    ensures st.View() == CreateNewTabSpec(old(st.View()))
  {
    st.FlushToActiveTab();
    ghost var w := st.View();
    if (st.mode == FileMode || st.mode == EmptyMode) && Truthy(st.buf.activePath) && |st.openFiles| == 0 {
      st.openFiles := [CurrentTab(st.View())];
    }
    assert st.View() == WrapLoneFile(w);
    w := st.View();
    st.openFiles := st.openFiles + [UntitledTab()];
    st.activeTabIndex := |st.openFiles| - 1;
    assert st.View() == AppendUntitled(w);
    w := st.View();
    if st.mode == FileMode || st.mode == EmptyMode {
      st.mode := FilesMode;
    }
    assert st.View() == EnterTabMode(w);
    st.SyncActiveTabToState();
  }

  /** `switchTab`. */
  method SwitchTab(st: AppState, index: int)
    modifies st
    ensures st.View() == SwitchTabSpec(old(st.View()), index)
  {
    if index == st.activeTabIndex {
      return;
    }
    st.FlushToActiveTab();
    st.activeTabIndex := index;
    st.SyncActiveTabToState();
  }

  /** `moveTab`, for indices of existing tabs. */
  method MoveTab(st: AppState, fromIndex: nat, toIndex: nat)
    requires fromIndex < |st.openFiles| && toIndex < |st.openFiles|
    modifies st
    ensures st.View() == MoveTabSpec(old(st.View()), fromIndex, toIndex)
  {
    if fromIndex == toIndex {
      return;
    }
    var tab := st.openFiles[fromIndex];
    st.openFiles := st.openFiles[..fromIndex] + st.openFiles[fromIndex + 1..];
    st.openFiles := st.openFiles[..toIndex] + [tab] + st.openFiles[toIndex..];
    var active := st.activeTabIndex;
    if active == fromIndex {
      st.activeTabIndex := toIndex;
    } else if fromIndex < active && toIndex >= active {
      st.activeTabIndex := active - 1;
    } else if fromIndex > active && toIndex <= active {
      st.activeTabIndex := active + 1;
    }
  }

  /** `closeTab`, as written. */
  method CloseTab(st: AppState, index: int, chosen: Option<string>, saveOk: bool) returns (write: Option<WriteRequest>)
    modifies st
    ensures st.View() == CloseTabSpec(old(st.View()), index, chosen, saveOk)
    ensures write == CloseTabWrite(old(st.View()), index)
  {
    write := None;
    if !(0 <= index < |st.openFiles|) {
      return;
    }
    var tab := st.openFiles[index];
    if tab.path.Some? && index == st.activeTabIndex {
      EditorController.SaveNow(st, chosen, saveOk);
    } else if tab.path.Some? && tab.isDirty && tab.writable {
      write := Some(WriteRequest(tab.path.value, tab.content));
    }
    RemoveTabAt(st, index);
  }

  /** Removes tab `index`, then empties the session or clamps the index and syncs. */
  method RemoveTabAt(st: AppState, index: int)
    modifies st
    ensures st.View() == RemoveTab(old(st.View()), index)
  {
    if !(0 <= index < |st.openFiles|) {
      return;
    }
    var files := st.openFiles[..index] + st.openFiles[index + 1..];
    if |files| == 0 {
      st.CloseAll();
      return;
    }
    st.SetTabs(files, if st.activeTabIndex >= |files| then |files| - 1 else st.activeTabIndex);
    st.SyncActiveTabToState();
  }

  /** `closeSingleActiveFile`. */
  method CloseSingleActiveFile(st: AppState, chosen: Option<string>, saveOk: bool)
    modifies st
    ensures st.View() == CloseSingleActiveFileSpec(old(st.View()), chosen, saveOk)
  {
    if !Truthy(st.buf.activePath) {
      return;
    }
    EditorController.SaveNow(st, chosen, saveOk);
    st.CloseAll();
  }

  /** `closeActiveFileOrWindow`: reports whether it asked for the window to close. */
  method CloseActiveFileOrWindow(st: AppState, chosen: Option<string>, saveOk: bool) returns (act: CloseAction)
    modifies st
    ensures (st.View(), act) == CloseActiveFileOrWindowSpec(old(st.View()), chosen, saveOk)
  {
    if |st.openFiles| > 0 {
      var _ := CloseTab(st, st.activeTabIndex, chosen, saveOk);
      return ClosedTab;
    }
    if Truthy(st.buf.activePath) {
      CloseSingleActiveFile(st, chosen, saveOk);
      return ClosedFile;
    }
    return ClosedWindow;
  }
}
