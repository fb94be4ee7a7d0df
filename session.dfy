/**
 * The editor window's document session: one working buffer (the active
 * file's path, kind, text, dirty flag, markdown view mode and scroll
 * offsets) and, when several documents are open, a list of tab records with
 * an active index. Flush copies the buffer into the active tab, sync copies
 * the active tab into the buffer.
 *
 * `AppState` is the shared mutable `state` object; `StateView` is a snapshot
 * of its fields, on which the operations are specified and the lemmas are
 * stated.
 */
module Session {
  import opened Common

  datatype Kind = Markdown | Text
  datatype ViewMode = Edit | Preview

  /** The window's mode: nothing open, one file, several files as tabs, or a folder. */
  datatype AppMode = EmptyMode | FileMode | FilesMode | FolderMode

  datatype ScrollState = ScrollState(editorScrollTop: Num, previewScrollTop: Num)

  /** A tab record. An untitled tab has no path; `kind` is `None` only when copied from a buffer without a kind. */
  datatype Tab = Tab(path: Option<string>, content: string, kind: Option<Kind>, writable: bool,
                     isDirty: bool, markdownViewMode: ViewMode, scrollState: ScrollState)

  /** What the backend's `read_text_file` returns. */
  datatype Payload = Payload(path: string, content: string, kind: Kind, writable: bool)

  /** A file of an open folder: its absolute path and its path relative to the folder. */
  datatype Entry = Entry(path: string, relPath: string)

  /**
   * A tab as received from another window, before any checking. A field
   * that is absent or of the wrong type is `None`; a missing scroll offset is
   * `NonFinite`; `isDirty` is already its truthiness.
   */
  datatype RawTab = RawTab(path: Option<string>, content: Option<string>, kind: Option<string>,
                           writable: Option<bool>, isDirty: bool, markdownViewMode: Option<string>,
                           scrollState: ScrollState)

  /**
   * Options of `applyFilePayloadToState`: whether `defaultMarkdownMode` is
   * exactly `"edit"`, and whether `preserveMarkdownMode` is exactly `true`.
   */
  datatype ApplyOptions = ApplyOptions(defaultEdit: bool, preserve: bool)

  datatype SnapshotKind = TabsSnapshot | SingleSnapshot | NoSnapshot

  /** The result of `snapshotAllOpenTabsForTransfer`. */
  datatype Snapshot = Snapshot(kind: SnapshotKind, tabs: seq<Tab>, singlePath: Option<string>)

  /**
   * The working buffer: the active document's path, kind, text, dirty flag
   * and markdown view mode, its editor and preview scroll offsets, whether a
   * markdown scroll anchor is held and whether an autosave timer is pending.
   */
  datatype Buffer = Buffer(
    activePath: Option<string>, activeKind: Option<Kind>, content: string, isDirty: bool,
    markdownViewMode: ViewMode, editorScrollTop: Num, previewScrollTop: Num,
    hasScrollAnchor: bool, saveTimerPending: bool)

  datatype StateView = StateView(
    mode: AppMode, sidebarVisible: bool, rootPath: Option<string>, entries: seq<Entry>,
    collapsedFolders: set<string>, sidebarTreeDirty: bool,
    openFiles: seq<Tab>, activeTabIndex: int, buf: Buffer,
    isSaving: bool, fileScrollMemory: map<string, ScrollState>)

  /** The buffer with nothing open. */
  const EmptyBuffer := Buffer(None, None, "", false, Preview, Finite(0.0), Finite(0.0), false, false)

  /** The state a window starts in. */
  const InitialView := StateView(EmptyMode, false, None, [], {}, true, [], 0, EmptyBuffer, false, map[])

  /** JavaScript truthiness of a path that may be null: present and not empty. */
  predicate Truthy(p: Option<string>)
  {
    p.Some? && p.value != ""
  }

  /** `hasTabSession`. */
  predicate HasTabSession(v: StateView)
  {
    |v.openFiles| > 0
  }

  /** `state.openFiles[state.activeTabIndex]` is a tab. */
  predicate HasActiveTab(v: StateView)
  {
    0 <= v.activeTabIndex < |v.openFiles|
  }

  function ZeroScroll(): ScrollState
  {
    ScrollState(Finite(0.0), Finite(0.0))
  }

  predicate FiniteScroll(s: ScrollState)
  {
    s.editorScrollTop.Finite? && s.previewScrollTop.Finite?
  }

  /** Each offset kept when finite, else 0. */
  function NormalizeScroll(s: ScrollState): (r: ScrollState)
    ensures FiniteScroll(r)
    ensures FiniteScroll(s) ==> r == s
  {
    ScrollState(NormalizeNum(s.editorScrollTop), NormalizeNum(s.previewScrollTop))
  }

  /** `applyFilePayloadToState`. */
  function ApplyFilePayloadSpec(v: StateView, p: Payload, o: ApplyOptions): StateView
  {
    var keep := o.preserve && v.buf.activeKind == Some(Markdown) && v.buf.activePath == Some(p.path);
    v.(buf := Buffer(Some(p.path), Some(p.kind), p.content, false,
                     if p.kind == Markdown then (if keep then v.buf.markdownViewMode else if o.defaultEdit then Edit else Preview)
                     else Edit,
                     Finite(0.0), Finite(0.0), false, false))
  }

  /**
   * After a payload is applied the buffer holds it, clean and scrolled to the
   * top; a non-markdown document is in edit mode, and a markdown document
   * keeps its previous mode exactly when preservation was asked for and the
   * same markdown path is reloaded, else takes the default mode.
   */
  lemma ApplyFilePayloadFacts(v: StateView, p: Payload, o: ApplyOptions)
    ensures var w := ApplyFilePayloadSpec(v, p, o);
            w.buf.activePath == Some(p.path) && w.buf.activeKind == Some(p.kind) && w.buf.content == p.content
            && !w.buf.isDirty && w.buf.editorScrollTop == Finite(0.0) && w.buf.previewScrollTop == Finite(0.0)
            && !w.buf.hasScrollAnchor && !w.buf.saveTimerPending
            && w.openFiles == v.openFiles && w.activeTabIndex == v.activeTabIndex && w.mode == v.mode
            && (p.kind != Markdown ==> w.buf.markdownViewMode == Edit)
            && ((p.kind == Markdown && o.preserve && v.buf.activeKind == Some(Markdown) && v.buf.activePath == Some(p.path))
                  ==> w.buf.markdownViewMode == v.buf.markdownViewMode)
            && ((p.kind == Markdown && !(o.preserve && v.buf.activeKind == Some(Markdown) && v.buf.activePath == Some(p.path)))
                  ==> (w.buf.markdownViewMode == Edit <==> o.defaultEdit))
  {
  }

  /** The buffer with the scroll anchor dropped and no autosave pending. */
  function Settled(b: Buffer): Buffer
  {
    b.(hasScrollAnchor := false, saveTimerPending := false)
  }

  /** `clearActiveFileInState`. */
  function ClearSpec(v: StateView): StateView
  {
    v.(buf := EmptyBuffer)
  }

  /**
   * Leaving folder mode for a file or tab mode: the sidebar hidden, no root,
   * no entries, and the sidebar tree marked for re-rendering.
   */
  function ResetWorkspace(v: StateView, m: AppMode): StateView
  {
    v.(mode := m, sidebarVisible := false, rootPath := None, entries := [], sidebarTreeDirty := true)
  }

  /**
   * Everything closed: no tabs, index 0, the buffer cleared, and the window
   * empty unless it shows a folder.
   */
  function CloseSession(v: StateView): (w: StateView)
    ensures w.openFiles == [] && w.activeTabIndex == 0 && w.buf == EmptyBuffer
    ensures w.mode == (if v.mode == FolderMode then FolderMode else EmptyMode)
    ensures w.entries == v.entries && w.rootPath == v.rootPath && w.isSaving == v.isSaving
  {
    var w := ClearSpec(v.(openFiles := [], activeTabIndex := 0));
    if w.mode != FolderMode then w.(mode := EmptyMode, sidebarTreeDirty := true) else w
  }

  /** The buffer wrapped as a writable tab, offsets as they are. */
  function CurrentTab(v: StateView): Tab
  {
    Tab(v.buf.activePath, v.buf.content, v.buf.activeKind, true, v.buf.isDirty, v.buf.markdownViewMode,
        ScrollState(v.buf.editorScrollTop, v.buf.previewScrollTop))
  }

  /** The active tab as flush rewrites it: the buffer's text, dirty flag, mode and finite scroll offsets. */
  function FlushedTab(v: StateView): Tab
    requires HasActiveTab(v)
  {
    v.openFiles[v.activeTabIndex].(content := v.buf.content, isDirty := v.buf.isDirty,
                                    markdownViewMode := v.buf.markdownViewMode,
                                    scrollState := NormalizeScroll(ScrollState(v.buf.editorScrollTop, v.buf.previewScrollTop)))
  }

  /** `flushStateToActiveTabInState`. */
  function FlushSpec(v: StateView): StateView
  {
    if !HasTabSession(v) then v
    else if !HasActiveTab(v) then v
    else v.(openFiles := v.openFiles[v.activeTabIndex := FlushedTab(v)])
  }

  /**
   * Flush is a no-op without an active tab; otherwise it rewrites only the
   * active tab's text, dirty flag, mode and scroll state (non-finite offsets
   * stored as 0), and nothing else in the window.
   */
  lemma FlushFacts(v: StateView)
    ensures !HasActiveTab(v) ==> FlushSpec(v) == v
    ensures var w := FlushSpec(v);
            w.(openFiles := v.openFiles) == v && |w.openFiles| == |v.openFiles|
            && (forall j :: 0 <= j < |v.openFiles| && j != v.activeTabIndex ==> w.openFiles[j] == v.openFiles[j])
    ensures HasActiveTab(v) ==>
              var t := FlushSpec(v).openFiles[v.activeTabIndex];
              var old_t := v.openFiles[v.activeTabIndex];
              t.path == old_t.path && t.kind == old_t.kind && t.writable == old_t.writable
              && t.content == v.buf.content && t.isDirty == v.buf.isDirty && t.markdownViewMode == v.buf.markdownViewMode
              && t.scrollState.editorScrollTop == Finite(FiniteOr0(v.buf.editorScrollTop))
              && t.scrollState.previewScrollTop == Finite(FiniteOr0(v.buf.previewScrollTop))
  {
  }

  /** `syncActiveTabToStateFromTabs`. */
  function SyncSpec(v: StateView): StateView
  {
    if !HasTabSession(v) then v
    else if !HasActiveTab(v) then v
    else
      var t := v.openFiles[v.activeTabIndex];
      v.(buf := Buffer(t.path, t.kind, t.content, t.isDirty, t.markdownViewMode,
                       NormalizeNum(t.scrollState.editorScrollTop), NormalizeNum(t.scrollState.previewScrollTop),
                       false, false))
  }

  /**
   * Sync loads the active tab into the buffer (non-finite offsets read as 0),
   * drops the scroll anchor and the pending autosave, and changes no tab.
   */
  lemma SyncFacts(v: StateView)
    ensures !HasActiveTab(v) ==> SyncSpec(v) == v
    ensures SyncSpec(v).openFiles == v.openFiles && SyncSpec(v).activeTabIndex == v.activeTabIndex
    ensures HasActiveTab(v) ==>
              var w := SyncSpec(v);
              var t := v.openFiles[v.activeTabIndex];
              w.buf.activePath == t.path && w.buf.activeKind == t.kind && w.buf.content == t.content
              && w.buf.isDirty == t.isDirty && w.buf.markdownViewMode == t.markdownViewMode
              && w.buf.editorScrollTop == Finite(FiniteOr0(t.scrollState.editorScrollTop))
              && w.buf.previewScrollTop == Finite(FiniteOr0(t.scrollState.previewScrollTop))
              && !w.buf.hasScrollAnchor && !w.buf.saveTimerPending
  {
  }

  /** The buffer is the active tab's: same path and kind. */
  predicate Consistent(v: StateView)
  {
    HasActiveTab(v) ==>
      v.openFiles[v.activeTabIndex].path == v.buf.activePath && v.openFiles[v.activeTabIndex].kind == v.buf.activeKind
  }

  /** Sync makes the buffer consistent with the active tab, and flush keeps it so. */
  lemma ConsistentKept(v: StateView)
    ensures Consistent(SyncSpec(v))
    ensures Consistent(v) ==> Consistent(FlushSpec(v))
  {
  }

  /**
   * Flush then sync gives back the buffer's text, dirty flag, mode and finite
   * offsets; with a consistent buffer and finite offsets the whole window is
   * as before, save for the anchor and the pending autosave.
   */
  lemma FlushSyncRoundTrip(v: StateView)
    requires HasActiveTab(v)
    ensures var w := SyncSpec(FlushSpec(v));
            w.buf.content == v.buf.content && w.buf.isDirty == v.buf.isDirty && w.buf.markdownViewMode == v.buf.markdownViewMode
            && (v.buf.editorScrollTop.Finite? ==> w.buf.editorScrollTop == v.buf.editorScrollTop)
            && (v.buf.previewScrollTop.Finite? ==> w.buf.previewScrollTop == v.buf.previewScrollTop)
    ensures Consistent(v) && v.buf.editorScrollTop.Finite? && v.buf.previewScrollTop.Finite? ==>
              SyncSpec(FlushSpec(v)) == FlushSpec(v).(buf := Settled(v.buf))
              && SyncSpec(FlushSpec(v)).(openFiles := v.openFiles) == v.(buf := Settled(v.buf))
  {
    var w := SyncSpec(FlushSpec(v));
    assert FlushSpec(v).openFiles[v.activeTabIndex] == FlushedTab(v);
  }

  /**
   * Sync then flush leaves every tab as it was when the active tab's offsets
   * are finite: what sync loads is exactly what flush stores back.
   */
  lemma SyncFlushRoundTrip(v: StateView)
    requires HasActiveTab(v) ==> FiniteScroll(v.openFiles[v.activeTabIndex].scrollState)
    ensures FlushSpec(SyncSpec(v)).openFiles == v.openFiles
  {
    if HasActiveTab(v) {
      var t := v.openFiles[v.activeTabIndex];
      assert FlushedTab(SyncSpec(v)) == t;
    }
  }

  function KindName(k: Option<Kind>): Option<string>
  {
    match k
    case None => None
    case Some(Markdown) => Some("markdown")
    case Some(Text) => Some("text")
  }

  function ModeName(m: ViewMode): string
  {
    if m == Edit then "edit" else "preview"
  }

  /** `normalizeTransferTab`: `None` for a missing tab or a path that is not a non-empty string. */
  function NormalizeTransferTab(raw: Option<RawTab>): Option<Tab>
  {
    if raw.None? || raw.value.path.None? || raw.value.path.value == "" then None
    else
      var t := raw.value;
      var kind := if t.kind == Some("markdown") then Markdown else Text;
      Some(Tab(t.path, if t.content.Some? then t.content.value else "", Some(kind),
               t.writable != Some(false), t.isDirty,
               if kind == Markdown && t.markdownViewMode == Some("edit") then Edit
               else if kind == Markdown then Preview else Edit,
               NormalizeScroll(t.scrollState)))
  }

  /** A tab that normalization gives back unchanged. */
  predicate IsNormalTab(t: Tab)
  {
    Truthy(t.path) && t.kind.Some? && (t.kind == Some(Text) ==> t.markdownViewMode == Edit)
    && FiniteScroll(t.scrollState)
  }

  /**
   * A normalized tab has a non-empty path, a kind, a writable flag that is
   * false only when the sender said exactly `false`, edit mode for text,
   * edit mode for markdown only when the sender asked for it, and finite
   * offsets.
   */
  lemma NormalizeTransferTabFacts(raw: Option<RawTab>)
    ensures var r := NormalizeTransferTab(raw);
            (r.None? <==> raw.None? || !Truthy(raw.value.path))
            && (r.Some? ==>
                  IsNormalTab(r.value) && r.value.path == raw.value.path
                  && (r.value.kind == Some(Markdown) <==> raw.value.kind == Some("markdown"))
                  && (r.value.writable <==> raw.value.writable != Some(false))
                  && (r.value.kind == Some(Markdown) ==>
                        (r.value.markdownViewMode == Edit <==> raw.value.markdownViewMode == Some("edit"))))
  {
  }

  /** A tab record as it is handed to `normalizeTransferTab`. */
  function ToRaw(t: Tab): RawTab
  {
    RawTab(t.path, Some(t.content), KindName(t.kind), Some(t.writable), t.isDirty,
           Some(ModeName(t.markdownViewMode)), t.scrollState)
  }

  /**
   * Normalizing an open tab drops it exactly when it is untitled (no path or
   * an empty one), and gives back a normal tab unchanged.
   */
  lemma NormalizeOpenTab(t: Tab)
    ensures NormalizeTransferTab(Some(ToRaw(t))).None? <==> !Truthy(t.path)
    ensures IsNormalTab(t) ==> NormalizeTransferTab(Some(ToRaw(t))) == Some(t)
  {
  }

  /** Normalizing is idempotent: a normalized tab passes through again unchanged. */
  lemma NormalizeIdempotent(raw: Option<RawTab>)
    ensures var r := NormalizeTransferTab(raw);
            r.Some? ==> NormalizeTransferTab(Some(ToRaw(r.value))) == r
  {
    var r := NormalizeTransferTab(raw);
    if r.Some? {
      NormalizeTransferTabFacts(raw);
      NormalizeOpenTab(r.value);
    }
  }

  /** `tabs.map(normalizeTransferTab).filter(Boolean)`. */
  function NormalizeAll(tabs: seq<Option<RawTab>>): (r: seq<Tab>)
    ensures |r| <= |tabs|
  {
    if tabs == [] then []
    else
      var rest := NormalizeAll(tabs[1..]);
      var h := NormalizeTransferTab(tabs[0]);
      if h.Some? then [h.value] + rest else rest
  }

  /** The number of entries that normalize to a tab. */
  function CountNormal(tabs: seq<Option<RawTab>>): nat
  {
    if tabs == [] then 0
    else (if NormalizeTransferTab(tabs[0]).Some? then 1 else 0) + CountNormal(tabs[1..])
  }

  /**
   * Mapping and filtering keeps exactly the entries that normalize, in
   * order, each normalized, and all of them normal tabs.
   */
  lemma {:induction false} NormalizeAllFacts(tabs: seq<Option<RawTab>>)
    ensures |NormalizeAll(tabs)| == CountNormal(tabs)
    ensures forall k :: 0 <= k < |NormalizeAll(tabs)| ==> IsNormalTab(NormalizeAll(tabs)[k])
    ensures (forall k :: 0 <= k < |tabs| ==> NormalizeTransferTab(tabs[k]).Some?) ==>
              |NormalizeAll(tabs)| == |tabs|
              && forall k :: 0 <= k < |tabs| ==> Some(NormalizeAll(tabs)[k]) == NormalizeTransferTab(tabs[k])
  {
    if tabs != [] {
      NormalizeAllFacts(tabs[1..]);
      NormalizeTransferTabFacts(tabs[0]);
      var rest := NormalizeAll(tabs[1..]);
      if NormalizeTransferTab(tabs[0]).Some? {
        assert NormalizeAll(tabs) == [NormalizeTransferTab(tabs[0]).value] + rest;
        forall k | 0 <= k < |NormalizeAll(tabs)|
          ensures IsNormalTab(NormalizeAll(tabs)[k])
        {
          if k > 0 {
            assert NormalizeAll(tabs)[k] == rest[k - 1];
          }
        }
        if forall k :: 0 <= k < |tabs| ==> NormalizeTransferTab(tabs[k]).Some? {
          assert forall k :: 0 <= k < |tabs[1..]| ==> NormalizeTransferTab(tabs[1..][k]).Some? by {
            forall k | 0 <= k < |tabs[1..]| ensures NormalizeTransferTab(tabs[1..][k]).Some? {
              assert tabs[1..][k] == tabs[k + 1];
            }
          }
          forall k | 0 <= k < |tabs|
            ensures Some(NormalizeAll(tabs)[k]) == NormalizeTransferTab(tabs[k])
          {
            if k > 0 {
              assert tabs[1..][k - 1] == tabs[k];
            }
          }
        }
      } else {
        assert !(forall k :: 0 <= k < |tabs| ==> NormalizeTransferTab(tabs[k]).Some?) by {
          assert NormalizeTransferTab(tabs[0]).None?;
        }
      }
    }
  }

  /** The open tabs as they are offered for transfer. */
  function RawTabs(tabs: seq<Tab>): (r: seq<Option<RawTab>>)
    ensures |r| == |tabs|
    ensures forall k :: 0 <= k < |tabs| ==> r[k] == Some(ToRaw(tabs[k]))
  {
    seq(|tabs|, k requires 0 <= k < |tabs| => Some(ToRaw(tabs[k])))
  }

  /** `snapshotActiveFileAsTransferTab`. */
  function SnapshotActiveSpec(v: StateView): Option<Tab>
  {
    if !Truthy(v.buf.activePath) || v.buf.activeKind.None? then None
    else NormalizeTransferTab(Some(RawTab(v.buf.activePath, Some(v.buf.content), KindName(v.buf.activeKind), Some(true),
                                          v.buf.isDirty, Some(ModeName(v.buf.markdownViewMode)),
                                          NormalizeScroll(ScrollState(v.buf.editorScrollTop, v.buf.previewScrollTop)))))
  }

  /**
   * The lone active file snapshots to a writable tab holding the buffer,
   * and only when a path and a kind are set.
   */
  lemma SnapshotActiveFacts(v: StateView)
    ensures SnapshotActiveSpec(v).Some? <==> Truthy(v.buf.activePath) && v.buf.activeKind.Some?
    ensures SnapshotActiveSpec(v).Some? ==>
              var t := SnapshotActiveSpec(v).value;
              t.path == v.buf.activePath && t.kind == v.buf.activeKind && t.content == v.buf.content
              && t.writable && t.isDirty == v.buf.isDirty && IsNormalTab(t)
              && t.scrollState == NormalizeScroll(ScrollState(v.buf.editorScrollTop, v.buf.previewScrollTop))
              && (v.buf.activeKind == Some(Markdown) ==> t.markdownViewMode == v.buf.markdownViewMode)
  {
  }

  /** `snapshotAllOpenTabsForTransfer`, taken on the state after its own flush. */
  function SnapshotAllSpec(v: StateView): Snapshot
  {
    var w := FlushSpec(v);
    if HasTabSession(w) then Snapshot(TabsSnapshot, NormalizeAll(RawTabs(w.openFiles)), None)
    else
      var t := SnapshotActiveSpec(w);
      if t.None? then Snapshot(NoSnapshot, [], None)
      else Snapshot(SingleSnapshot, [t.value], t.value.path)
  }

  /**
   * The three outcomes of a transfer snapshot: the titled tabs (with the
   * buffer flushed into the active one) and no single path; or the lone
   * active file and its path; or nothing.
   */
  lemma SnapshotAllFacts(v: StateView)
    ensures var s := SnapshotAllSpec(v);
            (s.kind == TabsSnapshot <==> HasTabSession(v))
            && (s.kind == TabsSnapshot ==>
                  s.singlePath.None? && s.tabs == NormalizeAll(RawTabs(FlushSpec(v).openFiles)))
            && (s.kind == SingleSnapshot ==>
                  !HasTabSession(v) && |s.tabs| == 1 && s.singlePath == v.buf.activePath && Truthy(v.buf.activePath)
                  && s.tabs[0].content == v.buf.content)
            && (s.kind == NoSnapshot ==>
                  s.tabs == [] && s.singlePath.None? && (!Truthy(v.buf.activePath) || v.buf.activeKind.None?))
  {
    SnapshotActiveFacts(v);
  }

  /**
   * With every tab titled and the active tab consistent, the transfer
   * snapshot holds every tab, the active one carrying the buffer's text.
   */
  lemma SnapshotCarriesBuffer(v: StateView)
    requires HasActiveTab(v)
    requires forall k :: 0 <= k < |v.openFiles| ==> Truthy(v.openFiles[k].path)
    ensures |SnapshotAllSpec(v).tabs| == |v.openFiles|
    ensures SnapshotAllSpec(v).tabs[v.activeTabIndex].content == v.buf.content
    ensures SnapshotAllSpec(v).tabs[v.activeTabIndex].isDirty == v.buf.isDirty
  {
    var w := FlushSpec(v);
    var raws := RawTabs(w.openFiles);
    forall k | 0 <= k < |raws|
      ensures NormalizeTransferTab(raws[k]).Some?
    {
      assert w.openFiles[k].path == v.openFiles[k].path;
      NormalizeOpenTab(w.openFiles[k]);
    }
    NormalizeAllFacts(raws);
    assert Some(NormalizeAll(raws)[v.activeTabIndex]) == NormalizeTransferTab(raws[v.activeTabIndex]);
  }

  /** The window's shared state object. */
  class AppState {
    var mode: AppMode
    var sidebarVisible: bool
    var rootPath: Option<string>
    var entries: seq<Entry>
    var collapsedFolders: set<string>
    var sidebarTreeDirty: bool
    var openFiles: seq<Tab>
    var activeTabIndex: int
    var buf: Buffer
    var isSaving: bool
    var fileScrollMemory: map<string, ScrollState>

    function View(): StateView
      reads this
    {
      StateView(mode, sidebarVisible, rootPath, entries, collapsedFolders, sidebarTreeDirty,
                openFiles, activeTabIndex, buf, isSaving, fileScrollMemory)
    }

    /** `createRuntimeState`. */
    constructor ()
      ensures View() == InitialView
    {
      mode := EmptyMode;
      sidebarVisible := false;
      rootPath := None;
      entries := [];
      collapsedFolders := {};
      sidebarTreeDirty := true;
      openFiles := [];
      activeTabIndex := 0;
      buf := EmptyBuffer;
      isSaving := false;
      fileScrollMemory := map[];
    }

    /** `applyFilePayloadToState`. */
    method ApplyFilePayload(p: Payload, o: ApplyOptions)
      modifies this
      ensures View() == ApplyFilePayloadSpec(old(View()), p, o)
    {
      var previousPath, previousKind, previousMode := buf.activePath, buf.activeKind, buf.markdownViewMode;
      var viewMode := Edit;
      if p.kind == Markdown {
        var keep := o.preserve && previousKind == Some(Markdown) && previousPath == Some(p.path);
        viewMode := if keep then previousMode else if o.defaultEdit then Edit else Preview;
      }
      buf := Buffer(Some(p.path), Some(p.kind), p.content, false, viewMode, Finite(0.0), Finite(0.0), false, false);
    }

    /** `clearActiveFileInState`. */
    method ClearActiveFile()
      modifies this
      ensures View() == ClearSpec(old(View()))
    {
      buf := EmptyBuffer;
    }

    /** `flushStateToActiveTabInState`. */
    method FlushToActiveTab()
      modifies this
      ensures View() == FlushSpec(old(View()))
    {
      if |openFiles| == 0 {
        return;
      }
      if !(0 <= activeTabIndex < |openFiles|) {
        return;
      }
      var tab := openFiles[activeTabIndex];
      tab := tab.(content := buf.content, isDirty := buf.isDirty, markdownViewMode := buf.markdownViewMode,
                  scrollState := ScrollState(NormalizeNum(buf.editorScrollTop), NormalizeNum(buf.previewScrollTop)));
      openFiles := openFiles[activeTabIndex := tab];
    }

    /** `syncActiveTabToStateFromTabs`. */
    method SyncActiveTabToState()
      modifies this
      ensures View() == SyncSpec(old(View()))
    {
      if |openFiles| == 0 {
        return;
      }
      if !(0 <= activeTabIndex < |openFiles|) {
        return;
      }
      var tab := openFiles[activeTabIndex];
      buf := Buffer(tab.path, tab.kind, tab.content, tab.isDirty, tab.markdownViewMode,
                    NormalizeNum(tab.scrollState.editorScrollTop), NormalizeNum(tab.scrollState.previewScrollTop),
                    false, false);
    }

    /** The workspace fields every mode switch resets: no folder, no sidebar, the tree to be redrawn. */
    method ResetWorkspaceTo(m: AppMode)
      modifies this
      ensures View() == ResetWorkspace(old(View()), m)
    {
      mode := m;
      sidebarVisible := false;
      rootPath := None;
      entries := [];
      sidebarTreeDirty := true;
    }

    /** Replaces the tab list and the active index together. */
    method SetTabs(files: seq<Tab>, index: int)
      modifies this
      ensures View() == old(View()).(openFiles := files, activeTabIndex := index)
    {
      openFiles := files;
      activeTabIndex := index;
    }

    /** The tail every close path shares: no tabs, the buffer cleared, an empty window unless a folder is shown. */
    method CloseAll()
      modifies this
      ensures View() == CloseSession(old(View()))
    {
      SetTabs([], 0);
      ClearActiveFile();
      if mode != FolderMode {
        mode := EmptyMode;
        sidebarTreeDirty := true;
      }
    }

    /** `snapshotAllOpenTabsForTransfer`: flushes, then snapshots. */
    method SnapshotAllOpenTabsForTransfer() returns (s: Snapshot)
      modifies this
      ensures View() == FlushSpec(old(View()))
      ensures s == SnapshotAllSpec(old(View()))
    {
      FlushToActiveTab();
      if |openFiles| > 0 {
        return Snapshot(TabsSnapshot, NormalizeAll(RawTabs(openFiles)), None);
      }
      var t := SnapshotActiveSpec(View());
      if t.None? {
        return Snapshot(NoSnapshot, [], None);
      }
      return Snapshot(SingleSnapshot, [t.value], t.value.path);
    }
  }
}
