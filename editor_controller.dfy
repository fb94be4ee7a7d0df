/**
 * The editor controller: whether the buffer may be edited, the menu state,
 * the markdown edit/preview toggle, the sidebar toggle, and saving (to the
 * active path, or through a "Save As" dialog for an untitled tab).
 *
 * The dialog's answer and the outcome of the backend write are parameters:
 * `chosen` is the path picked in the dialog (`None` when it was cancelled,
 * failed or gave an empty answer) and `writeOk` whether `write_text_file`
 * succeeded.
 */
module EditorController {
  import opened Common
  import opened Strs
  import opened Session

  /** The active tab exists and is untitled, and no path is active. */
  predicate IsUntitledActive(v: StateView)
  {
    !Truthy(v.buf.activePath) && HasTabSession(v) && HasActiveTab(v) && v.openFiles[v.activeTabIndex].path.None?
  }

  /** `isEditableState`. */
  predicate IsEditableState(v: StateView)
  {
    if !Truthy(v.buf.activePath) && !IsUntitledActive(v) then false
    else if v.buf.activeKind == Some(Markdown) then v.buf.markdownViewMode == Edit
    else true
  }

  /**
   * Nothing is editable without an active path unless the active tab is
   * untitled; markdown only in edit mode; anything else once active.
   */
  lemma IsEditableFacts(v: StateView)
    ensures !Truthy(v.buf.activePath) && !IsUntitledActive(v) ==> !IsEditableState(v)
    ensures (Truthy(v.buf.activePath) || IsUntitledActive(v)) ==>
              (IsEditableState(v) <==> (v.buf.activeKind == Some(Markdown) ==> v.buf.markdownViewMode == Edit))
  {
  }

  datatype MenuState = MenuState(canToggleSidebar: bool, canToggleMarkdownMode: bool)

  /** `buildMenuStatePayload`. */
  function BuildMenuStatePayload(v: StateView): MenuState
  {
    MenuState(v.mode == FolderMode, v.buf.activeKind == Some(Markdown))
  }

  /** The menu offers each toggle exactly when using it would change the window. */
  lemma MenuOffersToggles(v: StateView, chosen: Option<string>, writeOk: bool)
    ensures BuildMenuStatePayload(v).canToggleSidebar <==> ToggleSidebarSpec(v) != v
    ensures BuildMenuStatePayload(v).canToggleMarkdownMode <==> ToggleMarkdownModeSpec(v, chosen, writeOk) != v
  {
    if v.buf.activeKind == Some(Markdown) {
      ToggleOnce(v, chosen, writeOk);
    }
  }

  /** `shouldAutosaveOnToggle`. */
  predicate ShouldAutosaveOnToggle(v: StateView)
  {
    Truthy(v.buf.activePath) && v.buf.isDirty
  }

  /** The file kind given to a path picked in "Save As": markdown exactly for a last `.`-piece `md` or `markdown`, in any case. */
  function SavedKind(path: string): Kind
  {
    var pieces := Split(path, '.');
    var ext := ToLower(pieces[|pieces| - 1]);
    if ext == "md" || ext == "markdown" then Markdown else Text
  }

  /** The extension is taken after the last dot and compared without case; a name without a dot is its own extension. */
  lemma SavedKindExamples()
    ensures SavedKind("a.MD") == Markdown
    ensures SavedKind("a.md.c") == Text
    ensures SavedKind("md") == Markdown
  {
    UpperCaseExtension();
    LastPieceExtension();
    NoDotExtension();
  }

  lemma UpperCaseExtension()
    ensures SavedKind("a.MD") == Markdown
  {
    SplitNoSep("MD", '.');
    SplitFirst("a", '.', "MD");
    assert "a.MD" == "a" + ['.'] + "MD";
    assert ToLower("MD") == "md";
  }

  lemma LastPieceExtension()
    ensures SavedKind("a.md.c") == Text
  {
    SplitNoSep("c", '.');
    SplitFirst("md", '.', "c");
    SplitFirst("a", '.', "md.c");
    assert "md.c" == "md" + ['.'] + "c";
    assert "a.md.c" == "a" + ['.'] + "md.c";
    assert ToLower("c") == "c";
  }

  lemma NoDotExtension()
    ensures SavedKind("md") == Markdown
  {
    SplitNoSep("md", '.');
    assert ToLower("md") == "md";
  }

  /** `saveAsUntitled`. */
  function SaveAsUntitledSpec(v: StateView, chosen: Option<string>, writeOk: bool): StateView
  {
    if !Truthy(chosen) || !writeOk then v
    else
      var kind := SavedKind(chosen.value);
      var b := v.buf.(activePath := chosen, isDirty := false, activeKind := Some(kind));
      if !HasActiveTab(v) then v.(buf := b)
      else
        var tab := v.openFiles[v.activeTabIndex];
        var tab' := tab.(path := chosen, kind := Some(kind), isDirty := false, content := v.buf.content,
                         markdownViewMode := if kind == Markdown then Preview else tab.markdownViewMode);
        v.(openFiles := v.openFiles[v.activeTabIndex := tab'],
           buf := if kind == Markdown then b.(markdownViewMode := Preview) else b)
  }

  /** `saveNow`, with the write (or the dialog and the write) as one step. */
  function SaveNowSpec(v: StateView, chosen: Option<string>, writeOk: bool): StateView
  {
    if v.isSaving then v
    else if IsUntitledActive(v) && v.buf.isDirty then SaveAsUntitledSpec(v, chosen, writeOk)
    else if !Truthy(v.buf.activePath) || !v.buf.isDirty || !IsEditableState(v) then v
    else if !writeOk then v
    else
      var w := v.(buf := v.buf.(isDirty := false));
      if HasTabSession(v) && HasActiveTab(v) then
        var tab := v.openFiles[v.activeTabIndex];
        w.(openFiles := v.openFiles[v.activeTabIndex := tab.(isDirty := false, content := v.buf.content)])
      else w
  }

  /**
   * A save does nothing while another is running, or when the write fails;
   * a successful save of an editable, dirty, titled buffer cleans it and
   * mirrors its text into the active tab; a save never touches other tabs,
   * the tab count, the active index or the window mode.
   */
  lemma SaveNowFacts(v: StateView, chosen: Option<string>, writeOk: bool)
    ensures v.isSaving || !writeOk ==> SaveNowSpec(v, chosen, writeOk) == v
    ensures !v.buf.isDirty ==> SaveNowSpec(v, chosen, writeOk) == v
    ensures var w := SaveNowSpec(v, chosen, writeOk);
            |w.openFiles| == |v.openFiles| && w.activeTabIndex == v.activeTabIndex && w.mode == v.mode
            && w.isSaving == v.isSaving && w.buf.content == v.buf.content
            && forall j :: 0 <= j < |v.openFiles| && j != v.activeTabIndex ==> w.openFiles[j] == v.openFiles[j]
    ensures !v.isSaving && writeOk && Truthy(v.buf.activePath) && v.buf.isDirty && IsEditableState(v) ==>
              var w := SaveNowSpec(v, chosen, writeOk);
              !w.buf.isDirty && w.buf.activePath == v.buf.activePath
              && (HasActiveTab(v) ==>
                    w.openFiles[v.activeTabIndex].content == v.buf.content && !w.openFiles[v.activeTabIndex].isDirty)
  {
  }

  /**
   * "Save As" for an untitled tab: on success the buffer and the tab take the
   * chosen path, the kind its extension gives and the buffer's text; a
   * markdown file then opens in preview.
   */
  lemma SaveAsUntitledFacts(v: StateView, chosen: Option<string>)
    requires !v.isSaving && IsUntitledActive(v) && v.buf.isDirty && Truthy(chosen)
    ensures var w := SaveNowSpec(v, chosen, true);
            var t := w.openFiles[v.activeTabIndex];
            w.buf.activePath == chosen && !w.buf.isDirty && w.buf.activeKind == Some(SavedKind(chosen.value))
            && t.path == chosen && t.kind == w.buf.activeKind && t.content == v.buf.content && !t.isDirty
            && (SavedKind(chosen.value) == Markdown ==> w.buf.markdownViewMode == Preview && t.markdownViewMode == Preview)
  {
  }

  /** Saving keeps the buffer consistent with the active tab: "Save As" renames both. */
  lemma SaveKeepsConsistent(v: StateView, chosen: Option<string>, writeOk: bool)
    requires Consistent(v)
    ensures Consistent(SaveNowSpec(v, chosen, writeOk))
  {
  }

  /** `saveNow`. */
  method SaveNow(st: AppState, chosen: Option<string>, writeOk: bool)
    modifies st
    ensures st.View() == SaveNowSpec(old(st.View()), chosen, writeOk)
  {
    if st.isSaving {
      return;
    }
    var isUntitled := IsUntitledActive(st.View());
    if isUntitled && st.buf.isDirty {
      SaveAsUntitled(st, chosen, writeOk);
      return;
    }
    if !Truthy(st.buf.activePath) || !st.buf.isDirty || !IsEditableState(st.View()) {
      return;
    }
    st.isSaving := true;
    if writeOk {
      st.buf := st.buf.(isDirty := false);
      if |st.openFiles| > 0 && 0 <= st.activeTabIndex < |st.openFiles| {
        var tab := st.openFiles[st.activeTabIndex];
        st.openFiles := st.openFiles[st.activeTabIndex := tab.(isDirty := false, content := st.buf.content)];
      }
    }
    st.isSaving := false;
  }

  /** `saveAsUntitled`. */
  method SaveAsUntitled(st: AppState, chosen: Option<string>, writeOk: bool)
    requires !st.isSaving
    modifies st
    ensures st.View() == SaveAsUntitledSpec(old(st.View()), chosen, writeOk)
  {
    if !Truthy(chosen) {
      return;
    }
    st.isSaving := true;
    if writeOk {
      var kind := SavedKind(chosen.value);
      st.buf := st.buf.(activePath := chosen, isDirty := false, activeKind := Some(kind));
      if 0 <= st.activeTabIndex < |st.openFiles| {
        var tab := st.openFiles[st.activeTabIndex];
        tab := tab.(path := chosen, kind := Some(kind), isDirty := false, content := st.buf.content);
        if kind == Markdown {
          tab := tab.(markdownViewMode := Preview);
          st.buf := st.buf.(markdownViewMode := Preview);
        }
        st.openFiles := st.openFiles[st.activeTabIndex := tab];
      }
    }
    st.isSaving := false;
  }

  function Flip(m: ViewMode): ViewMode
  {
    if m == Preview then Edit else Preview
  }

  /** `toggleMarkdownMode` (without the scroll hooks around it): flip the mode, then save if a titled buffer is dirty. */
  function ToggleMarkdownModeSpec(v: StateView, chosen: Option<string>, writeOk: bool): StateView
  {
    if v.buf.activeKind != Some(Markdown) then v
    else
      var w := v.(buf := v.buf.(markdownViewMode := Flip(v.buf.markdownViewMode)));
      if ShouldAutosaveOnToggle(w) then SaveNowSpec(w, chosen, writeOk) else w
  }

  /**
   * The toggle changes the window exactly when the menu offers it (a
   * markdown document); it then flips the view mode and touches no tab
   * other than the active one; toggling twice restores the mode.
   */
  lemma ToggleMarkdownModeFacts(v: StateView, chosen: Option<string>, writeOk: bool)
    ensures !BuildMenuStatePayload(v).canToggleMarkdownMode ==> ToggleMarkdownModeSpec(v, chosen, writeOk) == v
    ensures BuildMenuStatePayload(v).canToggleMarkdownMode ==>
              var w := ToggleMarkdownModeSpec(v, chosen, writeOk);
              w.buf.markdownViewMode == Flip(v.buf.markdownViewMode) && w.buf.activeKind == Some(Markdown)
              && w.buf.content == v.buf.content && w.buf.activePath == v.buf.activePath
              && ToggleMarkdownModeSpec(w, chosen, writeOk).buf.markdownViewMode == v.buf.markdownViewMode
  {
    if v.buf.activeKind == Some(Markdown) {
      ToggleOnce(v, chosen, writeOk);
      ToggleOnce(ToggleMarkdownModeSpec(v, chosen, writeOk), chosen, writeOk);
      FlipFlip(v.buf.markdownViewMode);
    }
  }

  /**
   * The toggle writes only through its autosave: a buffer that is clean or
   * has no path just flips its mode, and the tabs change only when the
   * autosave condition holds.
   */
  lemma AutosaveOnToggleFacts(v: StateView, chosen: Option<string>, writeOk: bool)
    ensures v.buf.activeKind == Some(Markdown) && !(Truthy(v.buf.activePath) && v.buf.isDirty) ==>
              ToggleMarkdownModeSpec(v, chosen, writeOk) == v.(buf := v.buf.(markdownViewMode := Flip(v.buf.markdownViewMode)))
    ensures ToggleMarkdownModeSpec(v, chosen, writeOk).openFiles != v.openFiles ==> ShouldAutosaveOnToggle(v)
  {
  }

  /** One toggle of a markdown buffer flips the mode and keeps the document shown. */
  lemma ToggleOnce(v: StateView, chosen: Option<string>, writeOk: bool)
    requires v.buf.activeKind == Some(Markdown)
    ensures var w := ToggleMarkdownModeSpec(v, chosen, writeOk);
            w.buf.markdownViewMode == Flip(v.buf.markdownViewMode) && w.buf.activeKind == Some(Markdown)
            && w.buf.content == v.buf.content && w.buf.activePath == v.buf.activePath
  {
    var u := v.(buf := v.buf.(markdownViewMode := Flip(v.buf.markdownViewMode)));
    if ShouldAutosaveOnToggle(u) {
      TitledSaveKeepsBuffer(u, chosen, writeOk);
    }
  }

  /** Saving a titled buffer changes at most its dirty flag. */
  lemma TitledSaveKeepsBuffer(v: StateView, chosen: Option<string>, writeOk: bool)
    requires Truthy(v.buf.activePath)
    ensures SaveNowSpec(v, chosen, writeOk).buf == v.buf.(isDirty := SaveNowSpec(v, chosen, writeOk).buf.isDirty)
  {
    assert !IsUntitledActive(v);
  }

  lemma FlipFlip(m: ViewMode)
    ensures Flip(Flip(m)) == m
  {
  }

  /** `toggleMarkdownMode`: returns the `focusEditor` flag it renders with, or `None` when it does nothing. */
  method ToggleMarkdownMode(st: AppState, chosen: Option<string>, writeOk: bool) returns (focusEditor: Option<bool>)
    modifies st
    ensures st.View() == ToggleMarkdownModeSpec(old(st.View()), chosen, writeOk)
    ensures focusEditor.None? <==> old(st.buf.activeKind) != Some(Markdown)
    ensures focusEditor.Some? ==> (focusEditor.value <==> !(old(st.buf.markdownViewMode) == Preview))
  {
    if st.buf.activeKind != Some(Markdown) {
      return None;
    }
    var previousMode := st.buf.markdownViewMode;
    st.buf := st.buf.(markdownViewMode := if st.buf.markdownViewMode == Preview then Edit else Preview);
    if Truthy(st.buf.activePath) && st.buf.isDirty {
      SaveNow(st, chosen, writeOk);
    }
    var disableEditorFocus := previousMode == Preview && st.buf.markdownViewMode == Edit;
    return Some(!disableEditorFocus);
  }

  /**
   * The toggle's autosave never writes when leaving edit mode: the mode is
   * flipped to preview first, and a markdown buffer in preview is not
   * editable, so the save returns at once and the edits stay unsaved.
   */
  lemma ToggleLeavingEditKeepsDirty(v: StateView, chosen: Option<string>)
    requires v.buf.activeKind == Some(Markdown) && v.buf.markdownViewMode == Edit
    requires Truthy(v.buf.activePath) && v.buf.isDirty && !v.isSaving
    ensures IsEditableState(v)
    ensures ToggleMarkdownModeSpec(v, chosen, true).buf.isDirty
    ensures ToggleMarkdownModeSpec(v, chosen, true).buf.markdownViewMode == Preview
  {
  }

  /** The toggle with its autosave taken before the mode flips, while the buffer is still editable. */
  function ToggleMarkdownModeFixed(v: StateView, chosen: Option<string>, writeOk: bool): StateView
  {
    if v.buf.activeKind != Some(Markdown) then v
    else
      var w := if ShouldAutosaveOnToggle(v) then SaveNowSpec(v, chosen, writeOk) else v;
      w.(buf := w.buf.(markdownViewMode := Flip(w.buf.markdownViewMode)))
  }

  /**
   * Saving before the flip writes the edits when leaving edit mode, and
   * flips the mode just the same.
   */
  lemma ToggleFixedSavesLeavingEdit(v: StateView, chosen: Option<string>)
    requires v.buf.activeKind == Some(Markdown) && v.buf.markdownViewMode == Edit
    requires Truthy(v.buf.activePath) && v.buf.isDirty && !v.isSaving
    ensures !ToggleMarkdownModeFixed(v, chosen, true).buf.isDirty
    ensures ToggleMarkdownModeFixed(v, chosen, true).buf.markdownViewMode == Preview
    ensures HasActiveTab(v) ==> ToggleMarkdownModeFixed(v, chosen, true).openFiles[v.activeTabIndex].content == v.buf.content
  {
    SaveNowFacts(v, chosen, true);
  }

  /** `toggleSidebarVisibility`. */
  function ToggleSidebarSpec(v: StateView): StateView
  {
    if v.mode != FolderMode then v else v.(sidebarVisible := !v.sidebarVisible)
  }

  /** The sidebar toggle acts exactly when the menu offers it, and undoes itself. */
  lemma ToggleSidebarFacts(v: StateView)
    ensures ToggleSidebarSpec(v) != v <==> BuildMenuStatePayload(v).canToggleSidebar
    ensures ToggleSidebarSpec(ToggleSidebarSpec(v)) == v
  {
  }

  method ToggleSidebarVisibility(st: AppState)
    modifies st
    ensures st.View() == ToggleSidebarSpec(old(st.View()))
  {
    if st.mode != FolderMode {
      return;
    }
    st.sidebarVisible := !st.sidebarVisible;
  }
}
