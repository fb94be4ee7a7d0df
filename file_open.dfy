/**
 * Opening one file as the window's only document (`openFile` of the files
 * controller): the tab controller falls back to it, and the folder and
 * path-routing code call it directly.
 *
 * The outcome of `read_text_file` is the parameter `read`; `chosen` and
 * `saveOk` are the outcomes of the save that runs first (see
 * `EditorController.SaveNow`).
 */
module FileOpen {
  import opened Common
  import opened Session
  import EditorController

  /** `openFile`: save, then replace the whole session by the file read, in file mode. */
  function OpenFileSpec(v: StateView, path: string, read: Result<Payload>, chosen: Option<string>, saveOk: bool): StateView
  {
    if path == "" then v
    else
      var w := EditorController.SaveNowSpec(v, chosen, saveOk);
      if read.Err? then w
      else ApplyFilePayloadSpec(ResetWorkspace(w, FileMode).(openFiles := [], activeTabIndex := 0),
                                read.value, ApplyOptions(false, false))
  }

  /**
   * A file that was read becomes the single document, clean, at the top, in
   * file mode with no tabs and no folder; a markdown file opens in preview.
   * A failed read leaves the window as the save left it.
   */
  lemma OpenFileFacts(v: StateView, path: string, read: Result<Payload>, chosen: Option<string>, saveOk: bool)
    ensures path == "" ==> OpenFileSpec(v, path, read, chosen, saveOk) == v
    ensures path != "" && read.Err? ==>
              OpenFileSpec(v, path, read, chosen, saveOk) == EditorController.SaveNowSpec(v, chosen, saveOk)
    ensures path != "" && read.Ok? ==>
              var w := OpenFileSpec(v, path, read, chosen, saveOk);
              w.mode == FileMode && w.openFiles == [] && w.activeTabIndex == 0 && w.rootPath.None?
              && !w.sidebarVisible && w.entries == []
              && w.buf.activePath == Some(read.value.path) && w.buf.content == read.value.content
              && !w.buf.isDirty && w.buf.editorScrollTop == Finite(0.0)
              && (w.buf.markdownViewMode == Preview <==> read.value.kind == Markdown)
  {
  }

  /** `openFile`. */
  method OpenFile(st: AppState, path: string, read: Result<Payload>, chosen: Option<string>, saveOk: bool)
    modifies st
    ensures st.View() == OpenFileSpec(old(st.View()), path, read, chosen, saveOk)
  {
    if path == "" {
      return;
    }
    EditorController.SaveNow(st, chosen, saveOk);
    if read.Err? {
      return;
    }
    st.ResetWorkspaceTo(FileMode);
    st.SetTabs([], 0);
    st.ApplyFilePayload(read.value, ApplyOptions(false, false));
  }
}
