/**
 * Moving tabs between windows. The source window snapshots its tabs and
 * records the request as pending; the target normalizes what it receives,
 * appends it to its own tabs and reports how many it accepted; the source
 * empties itself only when every tab it sent was accepted.
 *
 * The backend routing calls are described by `Outbound` values the
 * handlers return, and their success is a parameter.
 */
module Transfer {
  import opened Common
  import opened Session

  /** `shouldAutoCloseEmptyWindowAfterTransfer`. */
  predicate ShouldAutoClose(v: StateView)
  {
    v.mode != FolderMode && !HasTabSession(v) && !Truthy(v.buf.activePath)
  }

  /** A window closes itself after a transfer exactly when it shows no folder, no tab and no file. */
  lemma ShouldAutoCloseFacts(v: StateView)
    ensures ShouldAutoClose(v) <==> v.mode != FolderMode && v.openFiles == [] && (v.buf.activePath.None? || v.buf.activePath == Some(""))
    ensures ShouldAutoClose(v) ==> ShouldAutoClose(v.(buf := EmptyBuffer))
  {
  }

  /** The tabs a window already has, as `applyTransferredTabsToCurrentWindow` collects them after its flush. */
  function ExistingTabs(w: StateView): seq<Tab>
  {
    if HasTabSession(w) then NormalizeAll(RawTabs(w.openFiles))
    else
      var t := SnapshotActiveSpec(w);
      if t.Some? then [t.value] else []
  }

  /** `applyTransferredTabsToCurrentWindow`: the new state and the number of tabs accepted. */
  function ApplyTransferredSpec(v: StateView, incoming: seq<Option<RawTab>>): (StateView, nat)
  {
    var normalized := NormalizeAll(incoming);
    if |normalized| == 0 then (v, 0)
    else
      var f := FlushSpec(v);
      var existing := ExistingTabs(f);
      var combined := existing + normalized;
      var g := if f.mode != FolderMode then ResetWorkspace(f, FilesMode) else f;
      (SyncSpec(g.(openFiles := combined, activeTabIndex := IMin(|existing|, |combined| - 1))), |normalized|)
  }

  /** The count is the number of incoming tabs that normalize; with none the window is untouched. */
  lemma ApplyTransferredCount(v: StateView, incoming: seq<Option<RawTab>>)
    ensures ApplyTransferredSpec(v, incoming).1 == CountNormal(incoming)
    ensures CountNormal(incoming) == 0 ==> ApplyTransferredSpec(v, incoming).0 == v
  {
    NormalizeAllFacts(incoming);
  }

  /**
   * With at least one tab accepted, the tabs are the window's own titled
   * tabs (or its lone file) followed by the incoming ones, all of them
   * titled; the first incoming tab is active and shown; a folder window
   * stays a folder window while any other becomes a tab window.
   */
  lemma ApplyTransferredFacts(v: StateView, incoming: seq<Option<RawTab>>)
    requires |NormalizeAll(incoming)| > 0
    ensures var w := ApplyTransferredSpec(v, incoming).0;
            var existing := ExistingTabs(FlushSpec(v));
            w.openFiles == existing + NormalizeAll(incoming)
            && w.activeTabIndex == |existing|
            && w.openFiles[w.activeTabIndex] == NormalizeAll(incoming)[0]
            && w.buf.activePath == NormalizeAll(incoming)[0].path
            && (v.mode == FolderMode ==> w.mode == FolderMode && w.rootPath == v.rootPath)
            && (v.mode != FolderMode ==> w.mode == FilesMode && !w.sidebarVisible && w.rootPath.None?)
  {
    NormalizeAllFacts(incoming);
  }

  /** Every tab a window holds after accepting a transfer is titled and normal. */
  lemma ApplyTransferredNormal(v: StateView, incoming: seq<Option<RawTab>>)
    ensures var w := ApplyTransferredSpec(v, incoming).0;
            CountNormal(incoming) > 0 ==> forall k :: 0 <= k < |w.openFiles| ==> IsNormalTab(w.openFiles[k])
  {
    NormalizeAllFacts(incoming);
    var normalized := NormalizeAll(incoming);
    if |normalized| > 0 {
      var f := FlushSpec(v);
      var existing := ExistingTabs(f);
      ExistingTabsNormal(f);
      var combined := existing + normalized;
      forall k | 0 <= k < |combined|
        ensures IsNormalTab(combined[k])
      {
        if k >= |existing| {
          assert combined[k] == normalized[k - |existing|];
        }
      }
      ApplyTransferredFacts(v, incoming);
    }
  }

  /** What a window already holds, gathered for a transfer, is made of normal tabs. */
  lemma ExistingTabsNormal(w: StateView)
    ensures forall k :: 0 <= k < |ExistingTabs(w)| ==> IsNormalTab(ExistingTabs(w)[k])
  {
    if HasTabSession(w) {
      NormalizeAllFacts(RawTabs(w.openFiles));
    } else {
      SnapshotActiveFacts(w);
    }
  }

  /**
   * Untitled tabs do not survive a transfer into their window: when the
   * window has an untitled tab, it ends up with fewer tabs than it had plus
   * those accepted.
   */
  lemma ApplyTransferredDropsUntitled(v: StateView, incoming: seq<Option<RawTab>>, k: nat)
    requires k < |v.openFiles| && !Truthy(v.openFiles[k].path) && CountNormal(incoming) > 0
    ensures |ApplyTransferredSpec(v, incoming).0.openFiles| < |v.openFiles| + CountNormal(incoming)
  {
    NormalizeAllFacts(incoming);
    var f := FlushSpec(v);
    var raws := RawTabs(f.openFiles);
    assert f.openFiles[k].path == v.openFiles[k].path;
    NormalizeOpenTab(f.openFiles[k]);
    CountNormalDrops(raws, k);
    NormalizeAllFacts(raws);
  }

  /** An entry that does not normalize is not counted. */
  lemma {:induction false} CountNormalDrops(tabs: seq<Option<RawTab>>, k: nat)
    requires k < |tabs| && NormalizeTransferTab(tabs[k]).None?
    ensures CountNormal(tabs) < |tabs|
  {
    CountNormalBound(tabs[1..]);
    if k > 0 {
      assert tabs[1..][k - 1] == tabs[k];
      CountNormalDrops(tabs[1..], k - 1);
    }
  }

  lemma {:induction false} CountNormalBound(tabs: seq<Option<RawTab>>)
    ensures CountNormal(tabs) <= |tabs|
  {
    if tabs != [] {
      CountNormalBound(tabs[1..]);
    }
  }

  /** Normal tabs pass through normalization unchanged, all of them, in order. */
  lemma NormalizeAllOfNormal(tabs: seq<Tab>)
    requires forall k :: 0 <= k < |tabs| ==> IsNormalTab(tabs[k])
    ensures NormalizeAll(RawTabs(tabs)) == tabs
  {
    var raws := RawTabs(tabs);
    forall k | 0 <= k < |raws|
      ensures NormalizeTransferTab(raws[k]) == Some(tabs[k])
    {
      NormalizeOpenTab(tabs[k]);
    }
    NormalizeAllFacts(raws);
  }

  /** What the source window remembers about a request it sent. */
  datatype Pending = Pending(kind: SnapshotKind, tabCount: nat, singlePath: Option<string>)

  /** A backend call a handler makes: the tabs to route, a result to report, or a request to close the window. */
  datatype Outbound =
    | NoCall
    | RouteTabs(source: string, target: string, requestId: string, tabs: seq<Tab>)
    | RouteResult(source: string, target: string, requestId: string, acceptedCount: nat)

  /** `sendTabTransferResultToSource`: nothing is sent without this window's label, the source or the request. */
  function SendResult(windowLabel: Option<string>, sourceLabel: Option<string>, requestId: Option<string>, accepted: nat): (r: Outbound)
    ensures r.RouteResult? <==> Truthy(windowLabel) && Truthy(sourceLabel) && Truthy(requestId)
    ensures r.RouteResult? ==> r.source == sourceLabel.value && r.target == windowLabel.value
                               && r.requestId == requestId.value && r.acceptedCount == accepted
  {
    if !Truthy(windowLabel) || !Truthy(sourceLabel) || !Truthy(requestId) then NoCall
    else RouteResult(sourceLabel.value, windowLabel.value, requestId.value, accepted)
  }

  /** `finalizeOutgoingTabTransfer`, on the window state. */
  function FinalizeSpec(v: StateView, p: Pending): StateView
  {
    if p.kind == TabsSnapshot then CloseSession(v)
    else if p.kind == SingleSnapshot && !HasTabSession(v) && (!Truthy(p.singlePath) || v.buf.activePath == p.singlePath) then
      var w := ClearSpec(v);
      if w.mode != FolderMode then w.(mode := EmptyMode, sidebarTreeDirty := true) else w
    else v
  }

  /**
   * Finalizing a tab transfer empties the window; finalizing a single-file
   * transfer clears the file only while that file is still the one shown;
   * afterwards a window that shows nothing asks to be closed.
   */
  lemma FinalizeFacts(v: StateView, p: Pending)
    ensures p.kind == TabsSnapshot ==>
              var w := FinalizeSpec(v, p);
              w.openFiles == [] && w.activeTabIndex == 0 && w.buf == EmptyBuffer
              && (v.mode != FolderMode <==> ShouldAutoClose(w))
    ensures p.kind == SingleSnapshot && !HasTabSession(v) && v.buf.activePath == p.singlePath ==>
              FinalizeSpec(v, p).buf == EmptyBuffer && (v.mode != FolderMode ==> FinalizeSpec(v, p).mode == EmptyMode)
    ensures p.kind == SingleSnapshot && Truthy(p.singlePath) && v.buf.activePath != p.singlePath ==> FinalizeSpec(v, p) == v
    ensures p.kind == NoSnapshot ==> FinalizeSpec(v, p) == v
  {
  }

  /** The transfer bookkeeping of one window: its label and the requests it is waiting on. */
  class TransferController {
    const windowLabel: Option<string>
    var pending: map<string, Pending>

    constructor (name: Option<string>)
      ensures windowLabel == name && pending == map[]
    {
      windowLabel := name;
      pending := map[];
    }

    /** `applyTransferredTabsToCurrentWindow`. */
    static method ApplyTransferred(st: AppState, incoming: seq<Option<RawTab>>) returns (accepted: nat)
      modifies st
      ensures (st.View(), accepted) == ApplyTransferredSpec(old(st.View()), incoming)
    {
      var normalized := NormalizeAll(incoming);
      if |normalized| == 0 {
        return 0;
      }
      st.FlushToActiveTab();
      var existing := ExistingTabs(st.View());
      var combined := existing + normalized;
      if st.mode != FolderMode {
        st.ResetWorkspaceTo(FilesMode);
      }
      st.SetTabs(combined, IMin(|existing|, |combined| - 1));
      st.SyncActiveTabToState();
      return |normalized|;
    }

    /**
     * `handleRequestExportAllTabs`: when asked to send every tab to another
     * window, snapshot them (flushing the buffer) and, with something to
     * send, record the request as pending until the routing call fails.
     */
    method HandleRequestExportAllTabs(st: AppState, requestId: Option<string>, targetLabel: Option<string>, routeOk: bool)
      returns (call: Outbound)
      modifies this, st
      ensures var v := old(st.View());
              var s := SnapshotAllSpec(v);
              if !Truthy(requestId) || !Truthy(targetLabel) || !Truthy(windowLabel) || targetLabel == windowLabel then
                st.View() == v && pending == old(pending) && call == NoCall
              else
                st.View() == FlushSpec(v)
                && (|s.tabs| == 0 ==>
                      pending == old(pending) && call == SendResult(windowLabel, windowLabel, requestId, 0))
                && (|s.tabs| > 0 ==>
                      call == RouteTabs(windowLabel.value, targetLabel.value, requestId.value, s.tabs)
                      && pending == if routeOk then old(pending)[requestId.value := Pending(s.kind, |s.tabs|, s.singlePath)]
                                    else old(pending) - {requestId.value})
    {
      if !Truthy(requestId) || !Truthy(targetLabel) || !Truthy(windowLabel) || targetLabel == windowLabel {
        return NoCall;
      }
      var snapshot := st.SnapshotAllOpenTabsForTransfer();
      if |snapshot.tabs| == 0 {
        return SendResult(windowLabel, windowLabel, requestId, 0);
      }
      pending := pending[requestId.value := Pending(snapshot.kind, |snapshot.tabs|, snapshot.singlePath)];
      call := RouteTabs(windowLabel.value, targetLabel.value, requestId.value, snapshot.tabs);
      if !routeOk {
        pending := pending - {requestId.value};
      }
    }

    /** `handleReceiveTransferredTabs`: take the tabs in, then report how many were accepted. */
    method HandleReceiveTransferredTabs(st: AppState, requestId: Option<string>, sourceLabel: Option<string>,
                                        tabs: Option<seq<Option<RawTab>>>) returns (call: Outbound)
      modifies st
      ensures var incoming := if tabs.Some? then tabs.value else [];
              if !Truthy(requestId) || !Truthy(sourceLabel) then st.View() == old(st.View()) && call == NoCall
              else
                var (w, n) := ApplyTransferredSpec(old(st.View()), incoming);
                st.View() == w && call == SendResult(windowLabel, sourceLabel, requestId, n)
    {
      var incoming := if tabs.Some? then tabs.value else [];
      if !Truthy(requestId) || !Truthy(sourceLabel) {
        return NoCall;
      }
      var accepted := ApplyTransferred(st, incoming);
      return SendResult(windowLabel, sourceLabel, requestId, accepted);
    }

    /**
     * `handleTabTransferResult`: a known request is forgotten whatever the
     * result; the window empties itself only when every tab it sent was
     * accepted, and then reports whether it should close.
     */
    method HandleTabTransferResult(st: AppState, requestId: Option<string>, acceptedCount: Num) returns (closeWindow: bool)
      modifies this, st
      ensures !Truthy(requestId) || requestId.value !in old(pending) ==>
                pending == old(pending) && st.View() == old(st.View()) && !closeWindow
      ensures Truthy(requestId) && requestId.value in old(pending) ==>
                var p := old(pending)[requestId.value];
                var n := FiniteOr0(acceptedCount);
                pending == old(pending) - {requestId.value}
                && (n <= 0.0 || n != p.tabCount as real ==> st.View() == old(st.View()) && !closeWindow)
                && (n > 0.0 && n == p.tabCount as real ==>
                      st.View() == FinalizeSpec(old(st.View()), p) && closeWindow == ShouldAutoClose(st.View()))
    {
      if !Truthy(requestId) || requestId.value !in pending {
        return false;
      }
      var p := pending[requestId.value];
      pending := pending - {requestId.value};
      var n := FiniteOr0(acceptedCount);
      if n <= 0.0 || n != p.tabCount as real {
        return false;
      }
      closeWindow := FinalizeOutgoing(st, p);
    }

    /** `finalizeOutgoingTabTransfer`. */
    static method FinalizeOutgoing(st: AppState, p: Pending) returns (closeWindow: bool)
      modifies st
      ensures st.View() == FinalizeSpec(old(st.View()), p)
      ensures closeWindow == ShouldAutoClose(st.View())
    {
      if p.kind == TabsSnapshot {
        st.CloseAll();
      } else if p.kind == SingleSnapshot {
        if |st.openFiles| == 0 && (!Truthy(p.singlePath) || st.buf.activePath == p.singlePath) {
          st.ClearActiveFile();
          if st.mode != FolderMode {
            st.mode := EmptyMode;
            st.sidebarTreeDirty := true;
          }
        }
      }
      closeWindow := ShouldAutoClose(st.View());
    }
  }

  /**
   * A whole transfer of a tab window whose tabs are all titled: the target
   * accepts every tab, ends with its own tabs followed by the source's
   * (the source's active tab carrying its buffer) and shows the first of
   * them; the matching result then empties the source window.
   */
  lemma TransferRoundTrip(src: StateView, dst: StateView, p: Pending)
    requires HasActiveTab(src)
    requires forall k :: 0 <= k < |src.openFiles| ==> Truthy(src.openFiles[k].path)
    requires p == Pending(SnapshotAllSpec(src).kind, |SnapshotAllSpec(src).tabs|, SnapshotAllSpec(src).singlePath)
    ensures var sent := SnapshotAllSpec(src).tabs;
            var (w, n) := ApplyTransferredSpec(dst, RawTabs(sent));
            n == |src.openFiles| && n == p.tabCount
            && w.openFiles == ExistingTabs(FlushSpec(dst)) + sent
            && w.openFiles[|ExistingTabs(FlushSpec(dst))| + src.activeTabIndex].content == src.buf.content
    ensures var after := FinalizeSpec(FlushSpec(src), p);
            after.openFiles == [] && after.buf == EmptyBuffer
  {
    var sent := SnapshotAllSpec(src).tabs;
    SnapshotCarriesBuffer(src);
    SnapshotAllFacts(src);
    NormalizeAllFacts(RawTabs(FlushSpec(src).openFiles));
    NormalizeAllOfNormal(sent);
    NormalizeAllFacts(RawTabs(sent));
    ApplyTransferredCount(dst, RawTabs(sent));
    ApplyTransferredFacts(dst, RawTabs(sent));
  }
}
