/**
 * The scroll synchronisation controller: it records the editor's and the
 * preview's offsets into the window state while capture is allowed,
 * remembers per-file offsets when the window shows a single file, carries
 * an anchor across a markdown mode toggle, and restores the visible pane
 * on the frame after a render.
 *
 * The page's two panes are the `Panes` record the controller holds; the
 * animation frame is a one-slot flag fired by `RunFrame`.
 */
module ScrollSync {
  import opened Common
  import opened Strs
  import opened Session
  import opened ScrollMath
  import TextAnchor

  /** The gate that stops scroll events from being recorded, and who closed it. */
  datatype Gate = Gate(blocked: bool, reason: Option<string>)

  const ContextSwitch: string := "context-switch"
  const FilePayloadSwitch: string := "file-payload-switch"
  const RenderRestore: string := "render-restore"

  /** `blockScrollCapture(reason)`. */
  function BlockGate(reason: string): Gate
  {
    Gate(true, Some(reason))
  }

  /** `unblockScrollCapture(reason)`: only the closer's own reason, or no reason at all, reopens the gate. */
  function UnblockGate(g: Gate, reason: Option<string>): Gate
  {
    if !g.blocked then g
    else if Truthy(reason) && Truthy(g.reason) && g.reason != reason then g
    else Gate(false, None)
  }

  /**
   * Unblocking leaves the gate as it was exactly when it is open or was
   * closed for another (named) reason, and otherwise opens it; a gate is
   * always reopened by its own reason or by no reason, and a restore frame
   * does not reopen a gate closed for a context switch.
   */
  lemma UnblockFacts(g: Gate, reason: Option<string>)
    ensures UnblockGate(g, reason) == g || UnblockGate(g, reason) == Gate(false, None)
    ensures g.blocked ==>
              (UnblockGate(g, reason).blocked <==> Truthy(reason) && Truthy(g.reason) && g.reason != reason)
    ensures !UnblockGate(g, None).blocked
    ensures forall r: string :: r != "" ==> !UnblockGate(BlockGate(r), Some(r)).blocked
    ensures UnblockGate(BlockGate(ContextSwitch), Some(RenderRestore)).blocked
  {
  }

  /** What `rememberActiveFileScroll` stores: both offsets, a missing one as 0. */
  function Remembered(b: Buffer): ScrollState
  {
    ScrollState(NormalizeNum(b.editorScrollTop), NormalizeNum(b.previewScrollTop))
  }

  /** `rememberActiveFileScroll`: only for a titled single file, and only under its own path. */
  function RememberSpec(v: StateView): StateView
  {
    if !Truthy(v.buf.activePath) || HasTabSession(v) then v
    else v.(fileScrollMemory := v.fileScrollMemory[v.buf.activePath.value := Remembered(v.buf)])
  }

  /**
   * Remembering writes one entry, under the active path, and only when a
   * path is active and there is no tab session; nothing else changes.
   */
  lemma RememberFacts(v: StateView)
    ensures var w := RememberSpec(v);
            w.(fileScrollMemory := v.fileScrollMemory) == v
            && (Truthy(v.buf.activePath) && !HasTabSession(v) ==>
                  w.fileScrollMemory == v.fileScrollMemory[v.buf.activePath.value := Remembered(v.buf)])
            && (!Truthy(v.buf.activePath) || HasTabSession(v) ==> w == v)
            && forall p :: p in v.fileScrollMemory && Some(p) != v.buf.activePath ==>
                             p in w.fileScrollMemory && w.fileScrollMemory[p] == v.fileScrollMemory[p]
  {
  }

  /** A remembered offset as `loadFileScroll` reads it: non-finite or missing gives 0. */
  function Recalled(entry: Option<ScrollState>): ScrollState
  {
    if entry.None? then ZeroScroll()
    else NormalizeScroll(entry.value)
  }

  /** `loadFileScroll(path)`. */
  function LoadFileScrollSpec(v: StateView, path: Option<string>): StateView
  {
    var entry := if Truthy(path) && path.value in v.fileScrollMemory then Some(v.fileScrollMemory[path.value]) else None;
    var s := Recalled(entry);
    v.(buf := v.buf.(editorScrollTop := s.editorScrollTop, previewScrollTop := s.previewScrollTop, hasScrollAnchor := false))
  }

  /** The page's panes as the controller sees them. */
  datatype Panes = Panes(editor: Viewport, lineHeight: real, preview: Viewport, previewBlocks: seq<PreviewBlock>, caretText: string)

  /** The anchor taken before a markdown mode toggle. */
  datatype ToggleAnchor = ToggleAnchor(fromMode: ViewMode, sourceLine: Option<int>, lineFraction: real, ratio: real,
                                       textSnippet: string, sourceScrollTop: real)

  /** The controller's own state. */
  datatype SyncView = SyncView(gate: Gate, anchor: Option<ToggleAnchor>, frame: bool, suppress: bool, panes: Panes)

  /** `setEditorScrollTop`/`setPreviewScrollTop`: non-finite reads as 0, negative is raised to 0. */
  function ScrollValue(value: Num): (r: Num)
    ensures r.Finite? && r.value >= 0.0
    ensures value.Finite? && value.value >= 0.0 ==> r == value
  {
    Finite(Max(0.0, FiniteOr0(value)))
  }

  /** `onEditorScroll`. */
  function OnEditorScrollSpec(c: SyncView, v: StateView): StateView
  {
    if c.gate.blocked then v
    else RememberSpec(v.(buf := v.buf.(editorScrollTop := ScrollValue(Finite(c.panes.editor.scrollTop)))))
  }

  /** `onPreviewScroll`. */
  function OnPreviewScrollSpec(c: SyncView, v: StateView): StateView
  {
    if c.gate.blocked then v
    else RememberSpec(v.(buf := v.buf.(previewScrollTop := ScrollValue(Finite(c.panes.preview.scrollTop)))))
  }

  /**
   * While the gate is closed a scroll event changes nothing; otherwise the
   * pane's offset (never negative) becomes the active offset and is
   * remembered for a single file.
   */
  lemma OnScrollFacts(c: SyncView, v: StateView)
    ensures c.gate.blocked ==> OnEditorScrollSpec(c, v) == v && OnPreviewScrollSpec(c, v) == v
    ensures !c.gate.blocked ==>
              var w := OnEditorScrollSpec(c, v);
              w.buf.editorScrollTop == Finite(Max(0.0, c.panes.editor.scrollTop))
              && w.buf.previewScrollTop == v.buf.previewScrollTop && w.openFiles == v.openFiles
              && (Truthy(v.buf.activePath) && !HasTabSession(v) ==>
                    w.fileScrollMemory[v.buf.activePath.value].editorScrollTop == w.buf.editorScrollTop)
    ensures !c.gate.blocked ==>
              var w := OnPreviewScrollSpec(c, v);
              w.buf.previewScrollTop == Finite(Max(0.0, c.panes.preview.scrollTop))
              && w.buf.editorScrollTop == v.buf.editorScrollTop && w.openFiles == v.openFiles
              && (Truthy(v.buf.activePath) && !HasTabSession(v) ==>
                    w.fileScrollMemory[v.buf.activePath.value].previewScrollTop == w.buf.previewScrollTop)
  {
  }

  /** `beforeContextReplace`: forget every file's offsets and skip the next remember. */
  function BeforeContextReplaceSpec(c: SyncView, v: StateView): (SyncView, StateView)
  {
    (c.(suppress := true, gate := BlockGate(ContextSwitch)), v.(fileScrollMemory := map[]))
  }

  /** `beforeApplyFilePayload`. */
  function BeforeApplySpec(c: SyncView, v: StateView): (SyncView, StateView)
  {
    (c.(gate := BlockGate(FilePayloadSwitch)), if !HasTabSession(v) && !c.suppress then RememberSpec(v) else v)
  }

  /** `afterApplyFilePayload(path)`. */
  function AfterApplySpec(c: SyncView, v: StateView, path: Option<string>): (SyncView, StateView)
  {
    (c.(suppress := false), if !HasTabSession(v) then LoadFileScrollSpec(v, path) else v)
  }

  /** `afterContextCleared`. */
  function AfterContextClearedSpec(c: SyncView, v: StateView): (SyncView, StateView)
  {
    (c.(suppress := false, gate := UnblockGate(c.gate, None)), v.(fileScrollMemory := map[]))
  }

  /** Showing payload `p` in a single-file window: the hooks around `applyFilePayloadToState`. */
  function SwitchFile(c: SyncView, v: StateView, p: Payload, o: ApplyOptions): (SyncView, StateView)
  {
    var (c1, v1) := BeforeApplySpec(c, v);
    AfterApplySpec(c1, ApplyFilePayloadSpec(v1, p, o), Some(p.path))
  }

  /**
   * In a single-file window, showing another file records the old file's
   * offsets under its path and gives the new file its own remembered
   * offsets, or the top when it has none: it never inherits the old
   * file's offsets.
   */
  lemma SwitchFileFacts(c: SyncView, v: StateView, p: Payload, o: ApplyOptions)
    requires !HasTabSession(v) && Truthy(v.buf.activePath) && !c.suppress
    ensures var (c2, w) := SwitchFile(c, v, p, o);
            var mem := v.fileScrollMemory[v.buf.activePath.value := Remembered(v.buf)];
            w.fileScrollMemory == mem
            && ScrollState(w.buf.editorScrollTop, w.buf.previewScrollTop)
               == Recalled(if p.path != "" && p.path in mem then Some(mem[p.path]) else None)
            && (p.path !in mem ==> w.buf.editorScrollTop == Finite(0.0) && w.buf.previewScrollTop == Finite(0.0))
            && w.buf.activePath == Some(p.path) && !c2.suppress && c2.gate == BlockGate(FilePayloadSwitch)
  {
  }

  /**
   * Going from file A to file B and back to A restores A's offsets, even
   * when B was scrolled in between: B's offsets are kept under B's own path.
   */
  lemma FileScrollRoundTrip(c: SyncView, v: StateView, pb: Payload, pa: Payload, o: ApplyOptions, scrolled: Buffer)
    requires !HasTabSession(v) && Truthy(v.buf.activePath) && !c.suppress
    requires pa.path == v.buf.activePath.value && pb.path != pa.path && pb.path != ""
    ensures var (c1, v1) := SwitchFile(c, v, pb, o);
            var (c2, v2) := SwitchFile(c1, v1.(buf := scrolled.(activePath := Some(pb.path))), pa, o);
            v2.buf.editorScrollTop == NormalizeNum(v.buf.editorScrollTop)
            && v2.buf.previewScrollTop == NormalizeNum(v.buf.previewScrollTop)
  {
    var (c1, v1) := SwitchFile(c, v, pb, o);
    SwitchFileFacts(c, v, pb, o);
    var u := v1.(buf := scrolled.(activePath := Some(pb.path)));
    SwitchFileFacts(c1, u, pa, o);
    var mem2 := u.fileScrollMemory[pb.path := Remembered(u.buf)];
    assert mem2[pa.path] == Remembered(v.buf);
  }

  /**
   * After the window's context is replaced, the next file shown starts at
   * the top and nothing is remembered for the file that was shown before.
   */
  lemma ContextReplaceForgets(c: SyncView, v: StateView, p: Payload, o: ApplyOptions)
    requires !HasTabSession(v)
    ensures var (c1, v1) := BeforeContextReplaceSpec(c, v);
            var (c2, w) := SwitchFile(c1, v1, p, o);
            w.fileScrollMemory == map[] && w.buf.editorScrollTop == Finite(0.0)
            && w.buf.previewScrollTop == Finite(0.0) && !c2.suppress
  {
  }

  /** How an alignment chose its target. */
  datatype AlignMethod = SnippetPreviewBlock | SourceLineFallback | ExactTextSourceSearch | SnippetSourceSearch | RatioFallback

  /** What `alignPreviewToEditAnchor`/`alignEditToPreviewAnchor` report. */
  datatype AlignResult = AlignResult(toMode: ViewMode, how: AlignMethod, target: real)

  /** An anchor's source line as a number: a missing line is not finite. */
  function LineNum(line: Option<int>): Num
  {
    if line.Some? then Finite(line.value as real) else NonFinite
  }

  /** The fractional part as JavaScript's `x % 1` gives it: the sign follows `x`. */
  function JsFraction(x: real): (r: real)
    ensures x >= 0.0 ==> 0.0 <= r < 1.0
  {
    if x >= 0.0 then x - x.Floor as real else x + (-x).Floor as real
  }

  /** The window's controller instance. */
  class Controller {
    const st: AppState
    var gate: Gate
    var anchor: Option<ToggleAnchor>
    var frame: bool
    var suppress: bool
    var panes: Panes

    function View(): SyncView
      reads this
    {
      SyncView(gate, anchor, frame, suppress, panes)
    }

    constructor (state: AppState, initial: Panes)
      ensures st == state && View() == SyncView(Gate(false, None), None, false, false, initial)
    {
      st := state;
      gate := Gate(false, None);
      anchor := None;
      frame := false;
      suppress := false;
      panes := initial;
    }

    /** `blockScrollCapture`, also the `beforeRenderRestore` hook with the render-restore reason. */
    method BlockScrollCapture(reason: string)
      modifies this
      ensures View() == old(View()).(gate := BlockGate(reason))
    {
      gate := BlockGate(reason);
    }

    /** `unblockScrollCapture`. */
    method UnblockScrollCapture(reason: Option<string>)
      modifies this
      ensures View() == old(View()).(gate := UnblockGate(old(gate), reason))
    {
      if !gate.blocked {
        return;
      }
      if Truthy(reason) && Truthy(gate.reason) && gate.reason != reason {
        return;
      }
      gate := Gate(false, None);
    }

    /** `rememberActiveFileScroll`. */
    method RememberActiveFileScroll()
      modifies st
      ensures st.View() == RememberSpec(old(st.View()))
    {
      if !Truthy(st.buf.activePath) || |st.openFiles| > 0 {
        return;
      }
      st.fileScrollMemory := st.fileScrollMemory[st.buf.activePath.value := Remembered(st.buf)];
    }

    /** `loadFileScroll`. */
    method LoadFileScroll(path: Option<string>)
      modifies st
      ensures st.View() == LoadFileScrollSpec(old(st.View()), path)
    {
      var entry := if Truthy(path) && path.value in st.fileScrollMemory then Some(st.fileScrollMemory[path.value]) else None;
      var s := Recalled(entry);
      st.buf := st.buf.(editorScrollTop := s.editorScrollTop, previewScrollTop := s.previewScrollTop, hasScrollAnchor := false);
    }

    /** `onEditorScroll`. */
    method OnEditorScroll()
      modifies st
      ensures st.View() == OnEditorScrollSpec(View(), old(st.View()))
    {
      if gate.blocked {
        return;
      }
      st.buf := st.buf.(editorScrollTop := ScrollValue(Finite(panes.editor.scrollTop)));
      RememberActiveFileScroll();
    }

    /** `onPreviewScroll`. */
    method OnPreviewScroll()
      modifies st
      ensures st.View() == OnPreviewScrollSpec(View(), old(st.View()))
    {
      if gate.blocked {
        return;
      }
      st.buf := st.buf.(previewScrollTop := ScrollValue(Finite(panes.preview.scrollTop)));
      RememberActiveFileScroll();
    }

    /** `beforeContextReplace`. */
    method BeforeContextReplace()
      modifies this, st
      ensures (View(), st.View()) == BeforeContextReplaceSpec(old(View()), old(st.View()))
    {
      suppress := true;
      BlockScrollCapture(ContextSwitch);
      st.fileScrollMemory := map[];
    }

    /** `beforeApplyFilePayload`. */
    method BeforeApplyFilePayload()
      modifies this, st
      ensures (View(), st.View()) == BeforeApplySpec(old(View()), old(st.View()))
    {
      BlockScrollCapture(FilePayloadSwitch);
      if |st.openFiles| == 0 && !suppress {
        RememberActiveFileScroll();
      }
    }

    /** `afterApplyFilePayload`. */
    method AfterApplyFilePayload(path: Option<string>)
      modifies this, st
      ensures (View(), st.View()) == AfterApplySpec(old(View()), old(st.View()), path)
    {
      suppress := false;
      if |st.openFiles| == 0 {
        LoadFileScroll(path);
      }
    }

    /** `afterContextCleared`. */
    method AfterContextCleared()
      modifies this, st
      ensures (View(), st.View()) == AfterContextClearedSpec(old(View()), old(st.View()))
    {
      suppress := false;
      UnblockScrollCapture(None);
      st.fileScrollMemory := map[];
    }

    /** `captureMarkdownToggleAnchor`: where the visible pane is, before a mode toggle. */
    method CaptureMarkdownToggleAnchor()
      modifies this
      ensures View() == old(View()).(anchor := anchor)
      ensures st.buf.activeKind != Some(Markdown) || !Truthy(st.buf.activePath) ==> anchor.None?
      ensures st.buf.activeKind == Some(Markdown) && Truthy(st.buf.activePath) && st.buf.markdownViewMode == Preview ==>
                anchor.Some? && anchor.value.fromMode == Preview && anchor.value.sourceScrollTop == panes.preview.scrollTop
                && |anchor.value.textSnippet| <= TextAnchor.PreviewSnippetLength
                && anchor.value.ratio == GetScrollRatio(Finite(panes.preview.scrollTop), Finite(GetMaxScrollTop(Some(panes.preview))))
      ensures st.buf.activeKind == Some(Markdown) && Truthy(st.buf.activePath) && st.buf.markdownViewMode == Preview ==>
                var blocks := panes.previewBlocks;
                var top := panes.preview.scrollTop;
                anchor.Some?
                && (|blocks| == 0 ==> anchor.value.sourceLine.None? && anchor.value.lineFraction == 0.0)
                && (|blocks| > 0 ==>
                      var p := AnchorInBlock(blocks[TopBlockIndex(blocks, top)], top);
                      anchor.value.sourceLine == Some(p.0) && anchor.value.lineFraction == p.1)
                && (panes.caretText != "" ==> anchor.value.textSnippet == TextAnchor.Prefix(panes.caretText, TextAnchor.PreviewSnippetLength))
                && (panes.caretText == "" && |blocks| == 0 ==> anchor.value.textSnippet == "")
                && (panes.caretText == "" && |blocks| > 0 ==>
                      anchor.value.textSnippet == TextAnchor.Prefix(blocks[TopBlockIndex(blocks, top)].text, TextAnchor.PreviewSnippetLength))
      ensures st.buf.activeKind == Some(Markdown) && Truthy(st.buf.activePath) && st.buf.markdownViewMode == Edit ==>
                var top := panes.editor.scrollTop;
                var lineValue := if panes.lineHeight > 0.0 then top / panes.lineHeight else 0.0;
                anchor == Some(ToggleAnchor(Edit, Some(lineValue.Floor + 1), JsFraction(lineValue),
                                            GetScrollRatio(Finite(top), Finite(GetMaxScrollTop(Some(panes.editor)))),
                                            TextAnchor.GetEditorTopTextSnippet(st.buf.content, top, panes.lineHeight), top))
    {
      if st.buf.activeKind != Some(Markdown) || !Truthy(st.buf.activePath) {
        anchor := None;
        return;
      }
      if st.buf.markdownViewMode == Preview {
        var a := GetPreviewAnchor(panes.previewBlocks, panes.preview);
        var snippet := TextAnchor.GetPreviewTopTextSnippet(panes.caretText, panes.previewBlocks, panes.preview.scrollTop);
        anchor := Some(ToggleAnchor(Preview, a.sourceLine, a.lineFraction, a.ratio, snippet, panes.preview.scrollTop));
        return;
      }
      var maxScrollTop := GetMaxScrollTop(Some(panes.editor));
      var top := panes.editor.scrollTop;
      var lineValue := if panes.lineHeight > 0.0 then top / panes.lineHeight else 0.0;
      anchor := Some(ToggleAnchor(Edit, Some(lineValue.Floor + 1), JsFraction(lineValue),
                                  GetScrollRatio(Finite(top), Finite(maxScrollTop)),
                                  TextAnchor.GetEditorTopTextSnippet(st.buf.content, top, panes.lineHeight), top));
    }

    /**
     * `alignPreviewToEditAnchor`: the top of the block that best matches the
     * anchor's text, else the offset interpolated from its source line.
     */
    method AlignPreviewToEditAnchor(a: ToggleAnchor) returns (r: AlignResult)
      modifies st
      ensures st.View() == old(st.View()).(buf := old(st.buf).(previewScrollTop := Finite(r.target)))
      ensures r.toMode == Preview && (r.how == SnippetPreviewBlock || r.how == SourceLineFallback)
      ensures 0.0 <= r.target <= GetMaxScrollTop(Some(panes.preview))
      ensures r.how == SourceLineFallback ==>
                r.target == ComputePreviewScrollTop(panes.previewBlocks, LineNum(a.sourceLine), Finite(a.lineFraction),
                                                    Finite(a.ratio), GetMaxScrollTop(Some(panes.preview)))
      ensures var needle := TextAnchor.NormalizeSearchText(a.textSnippet);
              r.how == SnippetPreviewBlock <==>
                |panes.previewBlocks| > 0 && |needle| >= TextAnchor.MinSnippetLength
                && exists k :: 0 <= k < |panes.previewBlocks| && TextAnchor.BlockOffset(panes.previewBlocks, k, needle).Some?
      ensures r.how == SnippetPreviewBlock ==>
                exists k :: 0 <= k < |panes.previewBlocks|
                            && TextAnchor.IsBestBlock(panes.previewBlocks, k, TextAnchor.NormalizeSearchText(a.textSnippet))
                            && r.target == Clamp(Finite(panes.previewBlocks[k].top), 0.0, GetMaxScrollTop(Some(panes.preview)))
    {
      var blocks := panes.previewBlocks;
      var maxScrollTop := GetMaxScrollTop(Some(panes.preview));
      var matched := TextAnchor.FindPreviewBlockBySnippet(blocks, a.textSnippet);
      var target: real;
      if matched.Some? {
        target := Clamp(Finite(blocks[matched.value].top), 0.0, maxScrollTop);
        r := AlignResult(Preview, SnippetPreviewBlock, target);
      } else {
        target := ComputePreviewScrollTop(blocks, LineNum(a.sourceLine), Finite(a.lineFraction), Finite(a.ratio), maxScrollTop);
        r := AlignResult(Preview, SourceLineFallback, target);
      }
      st.buf := st.buf.(previewScrollTop := ScrollValue(Finite(target)));
    }

    /**
     * `alignEditToPreviewAnchor`: the line of the anchor text's first exact
     * occurrence in the source, else the first three-line window holding it,
     * else the anchor's source line when it came from the preview and the
     * scroll ratio when it came from the editor.
     */
    method AlignEditToPreviewAnchor(a: ToggleAnchor) returns (r: AlignResult)
      modifies st
      ensures st.View() == old(st.View()).(buf := old(st.buf).(editorScrollTop := Finite(r.target)))
      ensures r.toMode == Edit
      ensures r.how == ExactTextSourceSearch || r.how == SnippetSourceSearch || r.how == SourceLineFallback || r.how == RatioFallback
      ensures 0.0 <= r.target <= GetMaxScrollTop(Some(panes.editor))
      ensures var content := old(st.buf.content);
              var exact := TextAnchor.FindSourceIndexBySnippet(content, a.textSnippet);
              var maxScrollTop := GetMaxScrollTop(Some(panes.editor));
              (r.how == ExactTextSourceSearch <==> exact.Some?)
              && (exact.Some? ==>
                    r.target == ComputeEditorScrollTop(Finite((1 + CountChar(content[..IMin(exact.value, |content|)], '\n')) as real),
                                                       Finite(0.0), Finite(panes.lineHeight), Finite(a.ratio), maxScrollTop))
              && (r.how == RatioFallback <==> exact.None? && r.how != SnippetSourceSearch && a.fromMode != Preview)
              && (r.how == RatioFallback ==> r.target == ScrollTopFromRatio(Finite(a.ratio), Finite(maxScrollTop)))
              && (r.how == SourceLineFallback ==>
                    a.fromMode == Preview
                    && r.target == ComputeEditorScrollTop(LineNum(a.sourceLine), Finite(a.lineFraction), Finite(panes.lineHeight),
                                                          Finite(a.ratio), maxScrollTop))
              && (r.how == SnippetSourceSearch ==>
                    exact.None? && |TextAnchor.NormalizeSearchText(a.textSnippet)| >= TextAnchor.MinSnippetLength
                    && exists i :: 0 <= i < |Split(content, '\n')|
                                   && TextAnchor.WindowMatches(Split(content, '\n'), i, TextAnchor.NormalizeSearchText(a.textSnippet))
                                   && (forall j :: 0 <= j < i ==>
                                         !TextAnchor.WindowMatches(Split(content, '\n'), j, TextAnchor.NormalizeSearchText(a.textSnippet)))
                                   && r.target == ComputeEditorScrollTop(Finite((i + 1) as real), Finite(0.0), Finite(panes.lineHeight),
                                                                         Finite(a.ratio), maxScrollTop))
              && (r.how != SnippetSourceSearch && exact.None? && |TextAnchor.NormalizeSearchText(a.textSnippet)| >= TextAnchor.MinSnippetLength ==>
                    forall i :: 0 <= i < |Split(content, '\n')| ==>
                                  !TextAnchor.WindowMatches(Split(content, '\n'), i, TextAnchor.NormalizeSearchText(a.textSnippet)))
    {
      var maxScrollTop := GetMaxScrollTop(Some(panes.editor));
      var content := st.buf.content;
      var rawIndex := TextAnchor.FindSourceIndexBySnippet(content, a.textSnippet);
      var rawLine := TextAnchor.SourceIndexToLineNumber(content, if rawIndex.Some? then Some(rawIndex.value as int) else None);
      var target: real;
      if rawLine.Some? {
        target := ComputeEditorScrollTop(Finite(rawLine.value as real), Finite(0.0), Finite(panes.lineHeight), Finite(a.ratio), maxScrollTop);
        r := AlignResult(Edit, ExactTextSourceSearch, target);
      } else {
        var matchedLine := TextAnchor.FindSourceLineBySnippet(content, a.textSnippet);
        if matchedLine.Some? {
          target := ComputeEditorScrollTop(Finite(matchedLine.value as real), Finite(0.0), Finite(panes.lineHeight), Finite(a.ratio), maxScrollTop);
          r := AlignResult(Edit, SnippetSourceSearch, target);
        } else {
          target := ComputeEditorScrollTop(LineNum(a.sourceLine), Finite(a.lineFraction), Finite(panes.lineHeight), Finite(a.ratio), maxScrollTop);
          if a.fromMode != Preview {
            target := ScrollTopFromRatio(Finite(a.ratio), Finite(maxScrollTop));
          }
          r := AlignResult(Edit, if a.fromMode == Preview then SourceLineFallback else RatioFallback, target);
        }
      }
      st.buf := st.buf.(editorScrollTop := ScrollValue(Finite(target)));
    }

    /** `applyPendingToggleAlignment`: consumes the anchor and aligns the pane the toggle switched to. */
    method ApplyPendingToggleAlignment() returns (r: Option<AlignResult>)
      modifies this, st
      ensures gate == old(gate) && frame == old(frame) && suppress == old(suppress) && panes == old(panes)
      ensures old(anchor).None? || st.buf.activeKind != Some(Markdown) ==>
                r.None? && anchor == old(anchor) && st.View() == old(st.View())
      ensures old(anchor).Some? && st.buf.activeKind == Some(Markdown) ==>
                r.Some? && anchor.None? && r.value.toMode == st.buf.markdownViewMode
                && st.View() == old(st.View()).(buf := st.buf)
                && (r.value.toMode == Preview ==>
                      st.buf == old(st.buf).(previewScrollTop := Finite(r.value.target))
                      && 0.0 <= r.value.target <= GetMaxScrollTop(Some(panes.preview)))
                && (r.value.toMode == Edit ==>
                      st.buf == old(st.buf).(editorScrollTop := Finite(r.value.target))
                      && 0.0 <= r.value.target <= GetMaxScrollTop(Some(panes.editor)))
    {
      if anchor.None? || st.buf.activeKind != Some(Markdown) {
        return None;
      }
      var a := anchor.value;
      anchor := None;
      var result: AlignResult;
      if st.buf.markdownViewMode == Preview {
        result := AlignPreviewToEditAnchor(a);
      } else {
        result := AlignEditToPreviewAnchor(a);
      }
      return Some(result);
    }

    /** `scheduleRestoreAfterRender`: close the gate and keep one restore frame pending, replacing any earlier one. */
    method ScheduleRestoreAfterRender()
      modifies this
      ensures !Truthy(st.buf.activePath) ==> View() == old(View())
      ensures Truthy(st.buf.activePath) ==> View() == old(View()).(gate := BlockGate(RenderRestore), frame := true)
    {
      if !Truthy(st.buf.activePath) {
        return;
      }
      BlockScrollCapture(RenderRestore);
      frame := true;
    }

    /**
     * The pending restore frame, if any: apply a pending toggle alignment,
     * put the visible pane at the active offset, and reopen the gate
     * unless someone else closed it meanwhile.
     */
    method RunFrame() returns (aligned: Option<AlignResult>)
      modifies this, st
      ensures !old(frame) ==> View() == old(View()) && st.View() == old(st.View()) && aligned.None?
      ensures old(frame) ==>
                !frame && suppress == old(suppress) && gate == UnblockGate(old(gate), Some(RenderRestore))
                && (old(anchor).Some? && st.buf.activeKind == Some(Markdown) <==> aligned.Some?)
                && (aligned.Some? ==> anchor.None?)
      ensures old(frame) && st.buf.activeKind == Some(Markdown) && st.buf.markdownViewMode == Preview ==>
                panes == old(panes).(preview := old(panes).preview.(scrollTop := Clamp(st.buf.previewScrollTop, 0.0, GetMaxScrollTop(Some(old(panes).preview)))))
                && (aligned.Some? ==> panes.preview.scrollTop == aligned.value.target)
      ensures old(frame) && !(st.buf.activeKind == Some(Markdown) && st.buf.markdownViewMode == Preview) ==>
                panes == old(panes).(editor := old(panes).editor.(scrollTop := Clamp(st.buf.editorScrollTop, 0.0, GetMaxScrollTop(Some(old(panes).editor)))))
                && (aligned.Some? ==> panes.editor.scrollTop == aligned.value.target)
    {
      if !frame {
        return None;
      }
      frame := false;
      aligned := ApplyPendingToggleAlignment();
      if st.buf.activeKind == Some(Markdown) && st.buf.markdownViewMode == Preview {
        var top := Clamp(st.buf.previewScrollTop, 0.0, GetMaxScrollTop(Some(panes.preview)));
        panes := panes.(preview := panes.preview.(scrollTop := top));
      } else {
        var top := Clamp(st.buf.editorScrollTop, 0.0, GetMaxScrollTop(Some(panes.editor)));
        panes := panes.(editor := panes.editor.(scrollTop := top));
      }
      UnblockScrollCapture(Some(RenderRestore));
    }
  }
}
