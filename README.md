# Teex core, modelled in Dafny

Teex is a desktop editor for markdown and plain text, built with Tauri. Its
front end (JavaScript) keeps one shared runtime state per window:
- the active document buffer;
- the open tabs and the active tab index;
- the window mode (`empty`, `file`, `files` or `folder`);
- the project folder's entries.

Controllers change that state: tabs, files, editor, transfer between windows,
scroll synchronisation and OS open requests. Pure helpers do the following:
- split markdown into source-ranged blocks;
- map scroll offsets between the editor and the preview;
- build the sidebar tree;
- decide the UI routing.

The back end (Rust) handles four things:
- it parses the command line;
- it decides how the app was launched;
- it queues paths that OS "open" events deliver to windows;
- it classifies files by extension, decodes `file://` URLs from Apple Events
  and checks where the command-line tool is installed.

This project models that core and proves properties of the model:
- The shared state is a class (`Session.AppState`), and the scroll-sync
  controller, the transfer controller, the OS-open deduper and the pending-open
  queues are classes too. Each method is specified by a function over a value
  view of the state, `View()`. The lemmas are stated over those functions.
- Loops in the source are loops here, each with invariants that tie it to a
  specification function. Examples are the block segmenter, the path
  categoriser, the argument parser and the URL decoder.
- Awaited back-end calls (`invoke`), clocks and the file system become
  parameters. A read's result is a `Result`, a clock is a number, and the file
  system is a function from path to kind.
- JavaScript numbers are `Num = Finite(real) | NonFinite`, because the core
  only ever asks whether a number is finite.

Modules, one per source file or concern:

| module | file | models |
|---|---|---|
| `Common`, `Strs` | common.dfy, strings.dfy | shared option/result types; the JavaScript string operations the core uses |
| `Session` | session.dfy | src/tabs/session.js and the runtime state |
| `TabController` | tab_controller.dfy | src/tabs/controller.js |
| `FileOpen`, `FilesController` | file_open.dfy, files_controller.dfy | src/files/controller.js |
| `EditorController` | editor_controller.dfy | src/ui/editor-controller.js |
| `Transfer` | transfer.dfy | src/tabs/transfer-controller.js |
| `ScrollMath`, `TextAnchor`, `ScrollSync` | scroll_math.dfy, text_anchor.dfy, scroll_sync.dfy | src/ui/scroll-math.js, scroll-text-anchor.js, scroll-sync.js |
| `MarkdownBlocks` | markdown_blocks.dfy | src/ui/markdown-renderer.js |
| `SidebarTree` | sidebar_tree.dfy | src/sidebar/tree.js |
| `UiBehavior` | ui_behavior.dfy | src/ui-behavior.js |
| `PathInput`, `AppUtils`, `OpenPaths` | path_input.dfy, app_utils.dfy, open_paths.dfy | src/path-input.js, src/app-utils.js, src/app/open-paths-controller.js |
| `StartupArgs` | startup_args.dfy | `parse_startup_action` in src-tauri/src/main.rs |
| `Launch` | launch.dfy | src-tauri/src/launch.rs |
| `RustPath`, `PathUtils` | rust_path.dfy, path_utils.dfy | the parts of `std::path::Path` the back end relies on; src-tauri/src/path_utils.rs |
| `FileUrl` | file_url.dfy | `file_url_to_path` in src-tauri/src/apple_events.rs |
| `CliInstall` | cli_install.dfy | the path checks in src-tauri/src/cli_install.rs |

Where the tests and the code disagree, the model follows the code:
- `tests/tabs/session.test.mjs:78` expects the `edit` mode to be kept without
  `preserveMarkdownMode`. The code keeps the previous mode only when
  preservation is asked for (`Session.ApplyFilePayloadFacts`).
- The markdown renderer tests expect `data-src-line` on checkboxes and nested
  lists. The code produces neither.
- `tests/app/open-paths-controller.test.mjs:36-66` expects `bootstrap` to call
  `createNewTab` on an empty launch. `createOpenPathsController` takes no
  `createNewTab` (src/app/open-paths-controller.js:14-26), and `bootstrap`
  (lines 130-164) ends by rendering an empty window without creating a tab
  (`OpenPaths.Bootstrap`; `OpenPaths.BootstrapFacts` states that an empty
  launch with nothing pending ends in `BootIdle(None)`, which opens nothing).

## Model

| member | source | states |
|---|---|---|
| Session.NormalizeScroll | src/tabs/session.js:103-110 | both offsets of a normalized scroll state are finite, and a finite state is left as it is |
| Session.ApplyFilePayloadFacts | src/tabs/session.js:5-31 | after a payload is applied, the buffer holds its path, kind and text. It is clean and scrolled to the top, with no anchor and no pending autosave. Tabs and window mode are untouched. A non-markdown document is in edit mode. A markdown document keeps its previous mode exactly when preservation was asked for and the same markdown path is reloaded; otherwise it is in edit mode exactly when the default asks for edit |
| Session.AppState.constructor | src/app/runtime-state.js:16-62 | the runtime state starts empty: no tabs, no document, empty mode |
| Session.AppState.ApplyFilePayload | src/tabs/session.js:5-31 | the new state is `ApplyFilePayloadSpec` of the old one, whose consequences `ApplyFilePayloadFacts` states |
| Session.AppState.ClearActiveFile | src/tabs/session.js:33-44 | the buffer is reset: no path or kind, empty clean text in preview mode, offsets 0, no anchor, no pending autosave; nothing else changes |
| Session.FlushFacts | src/tabs/session.js:46-61 | flush does nothing without an active tab. Otherwise it rewrites only the active tab's text, dirty flag, mode and scroll state, storing non-finite offsets as 0. Every other tab and every other field is unchanged |
| Session.AppState.FlushToActiveTab | src/tabs/session.js:46-61 | the new state is `FlushSpec` of the old one |
| Session.SyncFacts | src/tabs/session.js:63-85 | sync does nothing without an active tab. Otherwise it loads that tab into the buffer, reading non-finite offsets as 0, and drops the scroll anchor and the pending autosave. No tab changes |
| Session.AppState.SyncActiveTabToState | src/tabs/session.js:63-85 | the new state is `SyncSpec` of the old one |
| Session.ConsistentKept | src/tabs/session.js:46-85 | after a sync the buffer agrees with the active tab, and a flush keeps that agreement |
| Session.FlushSyncRoundTrip | src/tabs/session.js:46-85 | a flush then a sync gives back the buffer's text, dirty flag, mode and finite offsets. For a consistent buffer with finite offsets the whole window is as before, except the anchor and the pending autosave |
| Session.SyncFlushRoundTrip | src/tabs/session.js:46-85 | a sync then a flush leaves every tab as it was, when the active tab's offsets are finite |
| Session.NormalizeTransferTabFacts | src/tabs/session.js:87-112 | a raw tab is dropped exactly when it is missing or its path is not a non-empty string. A kept tab is a normal tab with the same path. It is markdown exactly when the sender said `markdown`, and writable unless the sender said exactly `false`. A markdown tab is in edit mode exactly when the sender asked for edit |
| Session.NormalizeOpenTab | src/tabs/session.js:87-112 | an open tab is dropped exactly when it is untitled, and a normal tab passes through unchanged |
| Session.NormalizeIdempotent | src/tabs/session.js:87-112 | normalizing an already normalized tab gives it back unchanged |
| Session.NormalizeAllFacts | src/tabs/session.js:139 | map-then-filter keeps as many tabs as normalize, all of them normal tabs. When every tab normalizes, it keeps each of them in order |
| Session.SnapshotActiveFacts | src/tabs/session.js:114-131 | a lone active file snapshots exactly when it has a path and a kind. The snapshot is a writable normal tab with the buffer's path, kind, text and dirty flag, finite offsets, and the buffer's mode for markdown |
| Session.SnapshotAllFacts | src/tabs/session.js:133-158 | the snapshot takes one of three forms. With tabs open it holds the normalized tabs after the flush and no single path. Without tabs it holds the lone active file and its path. Otherwise it is empty |
| Session.SnapshotCarriesBuffer | src/tabs/session.js:133-142 | when every tab is titled, the snapshot holds every tab, and the active one carries the buffer's text and dirty flag |
| Session.AppState.SnapshotAllOpenTabsForTransfer | src/tabs/session.js:133-158 | the state is flushed, and the result is the snapshot of the old state |
| Session.CloseSession | src/tabs/controller.js:264-274 | closing everything leaves no tabs, index 0 and a cleared buffer. The window becomes empty unless it shows a folder. Entries, root and saving flag are kept |
| TabController.BuildTabFacts | src/tabs/controller.js:1-14 | a freshly read tab is clean and scrolled to the top. It previews exactly when it is markdown. A titled one survives transfer normalization unchanged |
| TabController.LoadedPayloadsFacts | src/tabs/controller.js:43-51 | every successful read is loaded, and nothing else: a failure drops only its own file. When all reads succeed, all payloads are loaded in order |
| TabController.OpenMultipleFilesFacts | src/tabs/controller.js:40-87 | with two or more files read, the window becomes a tab window holding exactly those tabs, the first active and loaded into the buffer. With one file read it shows that file alone. With none it only saves |
| TabController.OpenMultipleFiles | src/tabs/controller.js:40-87 | the new state is `OpenMultipleFilesSpec` of the old one |
| TabController.FindTab | src/tabs/controller.js:94 | the result is the first tab with that path, and none means no tab has it |
| TabController.OpenFileAsTabFacts | src/tabs/controller.js:89-117 | a path that already has a tab activates its first tab and adds none. Otherwise a successful read appends one tab and activates it, and a failed read changes nothing. Either way the buffer then shows the active tab |
| TabController.OpenFileAsTab | src/tabs/controller.js:89-117 | the new state is `OpenFileAsTabSpec` of the old one |
| TabController.OpenFileInTabsFromFile | src/tabs/controller.js:129-170 | from a single file, opening another one keeps the current file as tab 0, text and offsets included. The new file becomes tab 1 and is shown |
| TabController.OpenFileInTabs | src/tabs/controller.js:119-171 | the new state is `OpenFileInTabsSpec` of the old one |
| TabController.CreateNewTabFacts | src/tabs/controller.js:173-210 | the new tab is an untitled, empty, clean text tab in edit mode, placed last and made active. A lone file is first kept as tab 0. A file or empty window becomes a tab window. The other earlier tabs are kept |
| TabController.CreateNewTab | src/tabs/controller.js:173-210 | the new state is `CreateNewTabSpec` of the old one |
| TabController.SwitchTabFacts | src/tabs/controller.js:212-221 | after a switch the buffer is the target tab's and the target is active. No tab other than the previously active one changes |
| TabController.SwitchTabRoundTrip | src/tabs/controller.js:212-221 | switching away and back restores the buffer, except the anchor and the pending autosave, and leaves the tabs holding the flushed buffer |
| TabController.SwitchTab | src/tabs/controller.js:212-221 | the new state is `SwitchTabSpec` of the old one |
| TabController.MovedAt | src/tabs/controller.js:227-228 | after the two splices the moved tab sits at `to`, the tabs in between shift by one toward `from`, and the others stay |
| TabController.MovedPermutes | src/tabs/controller.js:227-228 | moving is a permutation of the tabs |
| TabController.MoveTabKeepsActive | src/tabs/controller.js:223-242 | moving keeps the same multiset of tabs and puts the moved one at `to`. The same tab stays active. Moving a tab onto itself changes nothing |
| TabController.MoveTab | src/tabs/controller.js:223-242 | the new state is `MoveTabSpec` of the old one |
| TabController.RemoveTabFacts | src/tabs/controller.js:262-280 | removing a tab keeps the others in order. Removing the only tab empties the session |
| TabController.RemoveTabAt | src/tabs/controller.js:262-282 | the new state is `RemoveTab` of the old one |
| TabController.CloseTabFacts | src/tabs/controller.js:244-283 | closing removes exactly that tab and keeps the others in order. Closing the last tab empties the session, and a missing index changes nothing |
| TabController.CloseTab | src/tabs/controller.js:244-283 | the new state is `CloseTabSpec` of the old one, the code as written, and the returned `write_text_file` request is `CloseTabWrite` of the old state |
| TabController.CloseTabWriteFacts | src/tabs/controller.js:250-260 | `closeTab` writes the closed tab in the background exactly when it is titled, dirty, writable and not active, and it sends that tab's path and stored text. Such a close never runs `saveNow`, and since a failed write only sets the status, the state after it is the plain removal of the tab |
| TabController.CloseTabActivatesNeighbour | src/tabs/controller.js:262-280 | closing a tab left of the active one, when a tab lies to its right, activates the tab after the previously active one |
| TabController.CloseTabDropsEdits | src/tabs/controller.js:262-280 | closing another tab throws the buffer's unsaved text away: no tab and not the buffer keeps it |
| TabController.CloseTabExample | src/tabs/controller.js:262-280 | with tabs A, B, C and B active, closing A makes C active |
| TabController.CloseTabFixedKeepsActive | src/tabs/controller.js:244-283 | the corrected close keeps the same tab active, holding the buffer's text, and keeps the buffer's text, dirty flag and mode |
| TabController.CloseActiveTabAgrees | src/tabs/controller.js:244-283 | for the active tab itself, the corrected close and the code agree |
| TabController.RemoveActiveAgrees | src/tabs/controller.js:262-282 | once the active tab itself is removed, flushing it first makes no difference |
| TabController.CloseSingleActiveFile | src/tabs/controller.js:285-304 | the new state is `CloseSingleActiveFileSpec` of the old one |
| TabController.CloseActiveFileOrWindowFacts | src/tabs/controller.js:306-320 | the window is asked to close exactly when there are no tabs and no active file, and then nothing changes. Closing a lone file empties the buffer. Closing a tab removes exactly one |
| TabController.CloseActiveFileOrWindow | src/tabs/controller.js:306-320 | the new state and the action are `CloseActiveFileOrWindowSpec` of the old state |
| EditorController.IsEditableFacts | src/ui/editor-controller.js:1-13 | nothing is editable without an active path, unless the active tab is untitled. Otherwise markdown is editable exactly in edit mode, and anything else always is |
| EditorController.SavedKindExamples | src/ui/editor-controller.js:135 | the kind after "Save As" comes from the text after the last dot, compared without case: `a.MD` is markdown, `a.md.c` is text, and a name without a dot is its own extension |
| EditorController.SaveNowFacts | src/ui/editor-controller.js:76-114 | a save does nothing while another save runs, when the write fails, or when the buffer is clean. A successful save of an editable, dirty, titled buffer cleans it and mirrors its text into the active tab. No save touches other tabs, the tab count, the active index or the window mode |
| EditorController.SaveAsUntitledFacts | src/ui/editor-controller.js:116-160 | a successful "Save As" of an untitled tab gives the buffer and the tab the chosen path, the kind its extension gives, the buffer's text and a clean flag. A markdown file then shows in preview |
| EditorController.SaveKeepsConsistent | src/ui/editor-controller.js:76-160 | a save keeps the buffer consistent with the active tab; "Save As" renames both |
| EditorController.SaveNow | src/ui/editor-controller.js:76-114 | the new state is `SaveNowSpec` of the old one |
| EditorController.SaveAsUntitled | src/ui/editor-controller.js:116-160 | the new state is `SaveAsUntitledSpec` of the old one |
| EditorController.ToggleMarkdownModeFacts | src/ui/editor-controller.js:15-65 | the toggle changes the window exactly when the menu offers it, that is for a markdown document. It then flips the view mode, keeps the path and the text, and a second toggle restores the mode |
| EditorController.ToggleMarkdownMode | src/ui/editor-controller.js:45-65 | the new state is `ToggleMarkdownModeSpec` of the old one. It renders with editor focus exactly when the old mode was not preview, and does nothing for a non-markdown document |
| EditorController.ToggleLeavingEditKeepsDirty | src/ui/editor-controller.js:45-65 | when leaving edit mode with unsaved edits, the toggle's autosave never writes: the edits stay dirty while the mode becomes preview |
| EditorController.ToggleFixedSavesLeavingEdit | src/ui/editor-controller.js:45-65 | the corrected toggle saves before flipping: the buffer is clean, the active tab holds the text, and the mode is preview |
| EditorController.ToggleSidebarFacts | src/ui/editor-controller.js:15-74 | the sidebar toggle changes the window exactly when the menu offers it, and toggling twice is the identity |
| EditorController.MenuOffersToggles | src/ui/editor-controller.js:15-20 | `buildMenuStatePayload` offers the sidebar toggle exactly when toggling the sidebar would change the window, and the markdown toggle exactly when toggling the mode would |
| EditorController.AutosaveOnToggleFacts | src/ui/editor-controller.js:22-24 | `shouldAutosaveOnToggle` is the toggle's only way to write: a markdown buffer that is clean or has no path just flips its mode, and the toggle changes the tabs only when the buffer has a path and is dirty |
| EditorController.ToggleSidebarVisibility | src/ui/editor-controller.js:67-74 | the new state is `ToggleSidebarSpec` of the old one |
| FileOpen.OpenFileFacts | src/files/controller.js:106-131 | an empty path does nothing. A failed read leaves the window as the save left it. A file that was read becomes the single clean document at the top, in file mode, with no tabs and no folder, previewing exactly when it is markdown |
| FileOpen.OpenFile | src/files/controller.js:106-131 | the new state is `OpenFileSpec` of the old one |
| FilesController.DidProjectEntriesChange | src/files/controller.js:4-22 | the loop reports a change exactly when either argument is not a list or the lists differ, so a copy of the same list is no change |
| FilesController.RefreshFacts | src/files/controller.js:63-104 | a listing equal to the current entries changes nothing. A changed listing in folder mode replaces the entries, marks the tree dirty, and keeps exactly the collapsed folders that are still folders of the new entries. The documents are left alone |
| FilesController.RefreshIdempotent | src/files/controller.js:63-104 | refreshing twice with the same listing is the same as refreshing once |
| FilesController.RefreshOpenFolderEntries | src/files/controller.js:63-104 | the new state is `RefreshSpec` of the old one |
| FilesController.OpenEntry | src/files/controller.js:191-201 | the new state is `OpenEntrySpec` of the old one |
| FilesController.ReopenPathFacts | src/files/controller.js:173-177 | the file reopened is always an entry. It is the previous file exactly when the folder has it, and otherwise the first entry |
| FilesController.OpenFolderFacts | src/files/controller.js:153-189 | a listed folder is open with no tabs, index 0, the sidebar visible and every folder path collapsed. It shows the reopened file (the previous one when the folder has it, else the first entry), or nothing for an empty folder |
| FilesController.OpenFolder | src/files/controller.js:153-189 | the new state is `OpenFolderSpec` of the old one |
| FilesController.EnterFolderState | src/files/controller.js:163-170 | the new state is `EnterFolder` of the old one |
| FilesController.OpenFolderEntryInTabsFacts | src/files/controller.js:203-233 | opening the file already shown changes nothing. Opening another file with no tabs keeps the shown file as tab 0, with its text, dirty flag and finite offsets, and shows the new one as tab 1 |
| FilesController.OpenFolderEntryInTabs | src/files/controller.js:203-233 | the new state is `OpenFolderEntryInTabsSpec` of the old one |
| FilesController.OpenSingleFileFromUiFacts | src/files/controller.js:133-151 | a file opened from the UI never leaves folder mode. It opens as a tab in a tab window, and as the single file in an empty window |
| FilesController.OpenSingleFileFromUi | src/files/controller.js:133-151 | the new state is `OpenSingleFileFromUiSpec` of the old one |
| Transfer.ShouldAutoCloseFacts | src/tabs/transfer-controller.js:1-3 | a window closes itself after a transfer exactly when it shows no folder, no tab and no file, and clearing its buffer keeps that so |
| Transfer.ApplyTransferredCount | src/tabs/transfer-controller.js:21-57 | the count reported is the number of incoming tabs that normalize. With none, the window is untouched |
| Transfer.ApplyTransferredFacts | src/tabs/transfer-controller.js:21-57 | with at least one tab accepted, the tabs become the window's own titled tabs (or its lone file) followed by the incoming ones. The first incoming tab is active and shown. A folder window stays a folder window, and any other becomes a tab window without sidebar or root |
| Transfer.ApplyTransferredNormal | src/tabs/transfer-controller.js:21-57 | every tab a window holds after accepting a transfer is a normal, titled tab |
| Transfer.ExistingTabsNormal | src/tabs/transfer-controller.js:29-38 | what a window already holds, gathered for a transfer, is made of normal tabs |
| Transfer.ApplyTransferredDropsUntitled | src/tabs/transfer-controller.js:29-31 | an untitled tab does not survive a transfer into its window: the window ends with fewer tabs than it had plus those accepted |
| Transfer.CountNormalDrops | src/tabs/transfer-controller.js:22 | an incoming entry that does not normalize is not counted |
| Transfer.NormalizeAllOfNormal | src/tabs/transfer-controller.js:30 | normal tabs pass through map-and-filter unchanged, all of them, in order |
| Transfer.SendResult | src/tabs/transfer-controller.js:59-70 | a result is routed exactly when this window's label, the source label and the request id are all present. It then carries them and the accepted count |
| Transfer.FinalizeFacts | src/tabs/transfer-controller.js:137-164 | finalizing a tab transfer empties the window, which then asks to close exactly when it shows no folder. A single-file transfer clears the file only while that file is still the one shown. Anything else changes nothing |
| Transfer.TransferController.constructor | src/tabs/transfer-controller.js:5-20 | a controller starts with its window label and no pending transfers |
| Transfer.TransferController.HandleRequestExportAllTabs | src/tabs/transfer-controller.js:72-106 | a request lacking an id, a target or a label, or aimed at this window, changes nothing. Otherwise the buffer is flushed. With nothing to send, a zero result goes back to this window. With something to send, the tabs are routed to the target, and the request stays pending unless routing failed |
| Transfer.TransferController.HandleReceiveTransferredTabs | src/tabs/transfer-controller.js:108-135 | a payload lacking an id or a source changes nothing. Otherwise the window takes the tabs in as `ApplyTransferredSpec` says and reports the accepted count to the source |
| Transfer.TransferController.HandleTabTransferResult | src/tabs/transfer-controller.js:166-190 | an unknown request changes nothing. A known one is forgotten whatever the result. The window is finalized only when every tab it sent was accepted, and then it reports whether to close |
| Transfer.TransferRoundTrip | src/tabs/transfer-controller.js:21-190 | in a whole transfer of a tab window whose tabs are all titled, the target accepts every tab. It ends with its own tabs followed by the source's, the source's active tab carrying its buffer. The matching result empties the source window |
| ScrollMath.Clamp | src/ui/scroll-math.js:1-6 | a non-finite value gives the lower bound. With ordered bounds the result lies between them, and a value already between them is returned as is |
| ScrollMath.ClampMonotone | src/ui/scroll-math.js:1-6 | clamping is monotone in the value |
| ScrollMath.GetMaxScrollTop | src/ui/scroll-math.js:8-13 | the maximum offset is never negative: 0 without an element or when the content fits, else the scroll height less the client height |
| ScrollMath.GetScrollRatio | src/ui/scroll-math.js:15-20 | the ratio lies in [0, 1]. It is 0 without a positive finite maximum, is the offset's share of the maximum for an in-range offset, and is 1 at or past the end |
| ScrollMath.ScrollTopFromRatio | src/ui/scroll-math.js:22-27 | the offset lies in [0, max]. It is 0 without a positive finite maximum, is the max at ratio 1 or more, and is ratio times max inside [0, 1] |
| ScrollMath.RatioRoundTrip | src/ui/scroll-math.js:15-27 | a ratio in [0, 1] survives the trip through an offset |
| ScrollMath.OffsetRoundTrip | src/ui/scroll-math.js:15-27 | an in-range offset survives the trip through a ratio |
| ScrollMath.BlockOfNode | src/ui/scroll-math.js:39-60 | a block's start defaults to 1, and its end to the start, never below it. Its height is at least 1, and its top and text are the node's |
| ScrollMath.GetPreviewBlocks | src/ui/scroll-math.js:44-60 | the loop yields one well-formed block per node, in order |
| ScrollMath.BlockForLineChoice | src/ui/scroll-math.js:62-78 | the block chosen for a line is the first holding it before a block that starts after it; else the last block starting at or before the line; else the first block |
| ScrollMath.BlockForLine | src/ui/scroll-math.js:62-78 | there is no block exactly when there are no blocks, and otherwise an index in range |
| ScrollMath.FindBlockForSourceLine | src/ui/scroll-math.js:62-78 | the loop returns the block `BlockForLine` chooses |
| ScrollMath.RelativeLines | src/ui/scroll-math.js:96-97 | the position within a block is a share in [0, 1] |
| ScrollMath.OffsetInBlock | src/ui/scroll-math.js:96-98 | the unclamped preview offset lies within the block |
| ScrollMath.OffsetInBlockMonotone | src/ui/scroll-math.js:96-98 | inside one block a later source line never maps to a smaller offset |
| ScrollMath.ComputePreviewScrollTop | src/ui/scroll-math.js:80-100 | the result lies in [0, max]. Without blocks or a finite line it falls back to the ratio. Otherwise an in-range offset within the chosen block is returned as is |
| ScrollMath.PreviewScrollTopExample | src/ui/scroll-math.js:80-100 | line 10.5 in a block spanning lines 6-15 at 120..420 maps to offset 255 |
| ScrollMath.ComputeEditorScrollTop | src/ui/scroll-math.js:102-115 | the result lies in [0, max]. Without a finite line or a positive line height it falls back to the ratio. Otherwise line n starts (n - 1) line heights down, clamped to the max |
| ScrollMath.LeadingAbove | src/ui/scroll-math.js:127-132 | the count covers exactly the leading blocks whose top is at or above the offset |
| ScrollMath.TopBlockIndex | src/ui/scroll-math.js:126-132 | the top block is the last of the leading blocks starting at or above the offset, or the first block when none does |
| ScrollMath.FindTopBlock | src/ui/scroll-math.js:126-132 | the loop with its early `break` picks `TopBlockIndex` |
| ScrollMath.AnchorInBlock | src/ui/scroll-math.js:134-138 | the anchor's line lies within the block's span and its fraction in [0, 1). Line offset plus fraction equals the clamped offset's share of the block times the span |
| ScrollMath.GetPreviewAnchor | src/ui/scroll-math.js:117-140 | the ratio is the preview's scroll ratio. Without blocks there is no line and the fraction is 0. Otherwise the anchor is taken in the top block |
| ScrollMath.AnchorOffsetRoundTrip | src/ui/scroll-math.js:96-138 | anchor and offset are inverse inside a block: mapping the anchor back gives the offset it was taken at |
| TextAnchor.NormalizeOutput | src/ui/scroll-text-anchor.js:3-8 | normalized search text is lower-case, single-spaced and trimmed, and no longer than its input |
| TextAnchor.NormalizeIdempotent | src/ui/scroll-text-anchor.js:3-8 | normalizing twice is normalizing once |
| TextAnchor.FindSourceIndexBySnippet | src/ui/scroll-text-anchor.js:142-155 | the result is the first literal occurrence of the trimmed snippet. There is none for a trimmed snippet under 8 characters, and none only when the snippet occurs nowhere |
| TextAnchor.SourceIndexToLineNumber | src/ui/scroll-text-anchor.js:157-169 | the loop gives one more than the number of newlines before the index, clamped to the text, and nothing for a missing or negative index |
| TextAnchor.FindSourceLineBySnippet | src/ui/scroll-text-anchor.js:171-186 | the result is the 1-based number of the first line whose three-line window holds the normalized snippet. There is none for a short snippet, and none only when no window holds it |
| TextAnchor.FindPreviewBlockBySnippet | src/ui/scroll-text-anchor.js:188-209 | among the blocks whose normalized text holds the snippet, the result matches at the least offset, the earliest on ties. There is none without blocks, for a short snippet, or only when no block matches |
| TextAnchor.BestBlockUnique | src/ui/scroll-text-anchor.js:188-209 | at most one block matches at the least offset and is the earliest on ties, so that rule determines the block |
| TextAnchor.TopLineIndex | src/ui/scroll-text-anchor.js:137 | the top line index is never past the offset: index times the line height (at least 1) is at most the offset |
| TextAnchor.GetEditorTopTextSnippet | src/ui/scroll-text-anchor.js:131-140 | the snippet is at most 80 characters of the normalized three lines from the editor's top line, and empty for an empty document |
| TextAnchor.GetPreviewTopTextSnippet | src/ui/scroll-text-anchor.js:110-129 | the snippet is at most 120 characters: the text at the caret position when there is any, else the text of the block at the top edge |
| ScrollSync.UnblockFacts | src/ui/scroll-sync.js:35-49 | unblocking keeps the gate, or opens it. A closed gate stays closed exactly when both reasons are named and differ. No reason always opens it, and a gate's own reason reopens it. A render restore does not reopen a gate closed for a context switch |
| ScrollSync.RememberFacts | src/ui/scroll-sync.js:59-67 | remembering writes one entry, under the active path, and only when a path is active and there are no tabs. Every other entry and every other field is unchanged |
| ScrollSync.ScrollValue | src/ui/scroll-sync.js:51-57 | a stored offset is finite and not negative, and a finite non-negative value is stored as it is |
| ScrollSync.OnScrollFacts | src/ui/scroll-sync.js:110-130 | while the gate is closed a scroll event changes nothing. Otherwise the pane's offset, never negative, becomes the active offset, the other pane's offset and the tabs are kept, and a single file remembers it |
| ScrollSync.SwitchFileFacts | src/ui/scroll-sync.js:59-98 | in a single-file window, showing another file records the old file's offsets under its path. The new file gets its own remembered offsets, or the top when it has none, and never inherits the old file's |
| ScrollSync.FileScrollRoundTrip | src/ui/scroll-sync.js:59-98 | going from file A to file B and back restores A's offsets, however B was scrolled in between |
| ScrollSync.ContextReplaceForgets | src/ui/scroll-sync.js:76-98 | after the context is replaced, the memory is empty and the next file shown starts at the top |
| ScrollSync.JsFraction | src/ui/scroll-sync.js:155 | `x % 1` of a non-negative number lies in [0, 1) |
| ScrollSync.Controller.constructor | src/ui/scroll-sync.js:26-33 | a controller starts with the gate open, no anchor, no pending frame and no suppression |
| ScrollSync.Controller.BlockScrollCapture | src/ui/scroll-sync.js:35-38 | the gate closes with the given reason and nothing else changes |
| ScrollSync.Controller.UnblockScrollCapture | src/ui/scroll-sync.js:40-49 | the gate becomes `UnblockGate` of the old gate and nothing else changes |
| ScrollSync.Controller.RememberActiveFileScroll | src/ui/scroll-sync.js:59-67 | the new state is `RememberSpec` of the old one |
| ScrollSync.Controller.LoadFileScroll | src/ui/scroll-sync.js:69-74 | the new state is `LoadFileScrollSpec` of the old one |
| ScrollSync.Controller.OnEditorScroll | src/ui/scroll-sync.js:110-119 | the new state is `OnEditorScrollSpec` of the old one |
| ScrollSync.Controller.OnPreviewScroll | src/ui/scroll-sync.js:121-130 | the new state is `OnPreviewScrollSpec` of the old one |
| ScrollSync.Controller.BeforeContextReplace | src/ui/scroll-sync.js:80-84 | controller and state become `BeforeContextReplaceSpec` of the old ones |
| ScrollSync.Controller.BeforeApplyFilePayload | src/ui/scroll-sync.js:86-91 | controller and state become `BeforeApplySpec` of the old ones |
| ScrollSync.Controller.AfterApplyFilePayload | src/ui/scroll-sync.js:93-98 | controller and state become `AfterApplySpec` of the old ones |
| ScrollSync.Controller.AfterContextCleared | src/ui/scroll-sync.js:100-104 | controller and state become `AfterContextClearedSpec` of the old ones |
| ScrollSync.Controller.CaptureMarkdownToggleAnchor | src/ui/scroll-sync.js:132-164 | there is no anchor unless a markdown file is shown. From preview, the anchor records the preview offset and its ratio. It also records `getPreviewAnchor`'s line and fraction inside the top block (none and 0 without blocks). Its snippet is the caret text cut to 120 characters, else `""` without blocks, else the top block's text cut to 120. From edit, it records the editor line (floor of offset over line height, plus 1), the fraction, the ratio and the editor snippet |
| ScrollSync.Controller.AlignPreviewToEditAnchor | src/ui/scroll-sync.js:166-205 | the preview offset lies in [0, max] and is the only state that changes. The snippet is used exactly when there are blocks, the normalized snippet has at least 8 characters and some block holds it. The offset is then the clamped top of the block holding it at the least offset, the earliest on ties. Otherwise it is the offset computed from the anchor's source line |
| ScrollSync.Controller.AlignEditToPreviewAnchor | src/ui/scroll-sync.js:207-281 | the editor offset lies in [0, max] and is the only state that changes. The method is one of the four edit methods. It goes to the line of the snippet's first exact occurrence exactly when there is one. Failing that, it goes to the first three-line window that holds the normalized snippet, at fraction 0, when there is one. Failing that, it goes to the anchor's source line when the anchor came from the preview, and otherwise to the ratio |
| ScrollSync.Controller.ApplyPendingToggleAlignment | src/ui/scroll-sync.js:283-295 | without an anchor or a markdown file nothing changes. Otherwise the anchor is consumed and only the pane the toggle switched to moves, to an offset within [0, max] |
| ScrollSync.Controller.ScheduleRestoreAfterRender | src/ui/scroll-sync.js:297-302 | without an active path nothing changes. Otherwise the gate closes for a render restore and one frame is pending, replacing any earlier one |
| ScrollSync.Controller.RunFrame | src/ui/scroll-sync.js:303-323 | without a pending frame nothing changes. The frame applies a pending alignment exactly when there is an anchor for a markdown file. It puts the visible pane at the active offset, clamped, and reopens the gate unless another reason closed it |
| MarkdownBlocks.NormalizeNewlinesFacts | src/ui/markdown-renderer.js:62 | normalizing line endings only deletes carriage returns, and leaves text without any carriage return unchanged |
| MarkdownBlocks.SplitTableRow | src/ui/markdown-renderer.js:31-38 | a row always splits into at least one cell |
| MarkdownBlocks.DelimiterRowCells | src/ui/markdown-renderer.js:21-38 | the second line of a table start matches the delimiter pattern exactly when `splitTableRow` cuts it into at least two cells, each of them a dash cell |
| MarkdownBlocks.ScanFacts | src/ui/markdown-renderer.js:81-169 | an inner loop stops at the end of the maximal run of lines that satisfy its condition |
| MarkdownBlocks.Turn | src/ui/markdown-renderer.js:67-171 | a turn of the main loop never moves backwards, and it stops at most one line past the end. The corrected turn always advances |
| MarkdownBlocks.TurnStalls | src/ui/markdown-renderer.js:40-170 | the loop as written fails to advance exactly on a line, not a table start, that begins with three backticks without opening a fence, or has the heading prefix without being a heading |
| MarkdownBlocks.TurnStallExamples | src/ui/markdown-renderer.js:165-170 | the lines `## `, `` ```c++ `` and ```` ```` ```` each stall the loop as written |
| MarkdownBlocks.CorrectedTurnAgrees | src/ui/markdown-renderer.js:165-170 | wherever the loop as written advances, the corrected loop takes the same turn |
| MarkdownBlocks.StepFacts | src/ui/markdown-renderer.js:67-171 | a turn pushes no block exactly on a blank line. A block starts at the turn's line (1-based) and ends where the next turn starts, inside the text. Only an unterminated fence ends past the last line |
| MarkdownBlocks.SegmentPlaced | src/ui/markdown-renderer.js:67-171 | every emitted block is well placed and starts after the line the scan started from. Only the last block can reach past the end |
| MarkdownBlocks.SegmentOrdered | src/ui/markdown-renderer.js:67-171 | the emitted source ranges are disjoint and strictly increasing |
| MarkdownBlocks.SegmentCovers | src/ui/markdown-renderer.js:67-171 | every non-blank line lies inside the source range of some emitted block |
| MarkdownBlocks.RenderBlocks | src/ui/markdown-renderer.js:61-174 | the loop (corrected paragraph turn) emits exactly the block list of the turn-by-turn specification of the split lines |
| MarkdownBlocks.NextBlock | src/ui/markdown-renderer.js:68-170 | one iteration, inner loops included, computes exactly the corrected turn |
| MarkdownBlocks.ScanLines | src/ui/markdown-renderer.js:81-169 | each inner `while` loop stops where the scan specification stops |
| MarkdownBlocks.EscapeHtmlEachOnce | src/ui/markdown-renderer.js:1-8 | the chain of five `replaceAll`s escapes every character exactly once, because `&` goes first |
| MarkdownBlocks.EscapeHtmlRoundTrip | src/ui/markdown-renderer.js:1-12 | escaped text decodes back to the original, and holds no `<`, `>`, `"` or `'` |
| MarkdownBlocks.NatToStringValue | src/ui/markdown-renderer.js:17 | the printed line number reads back as the same number |
| MarkdownBlocks.WithSourceRangeFacts | src/ui/markdown-renderer.js:14-19 | HTML with a leading tag gets the two line attributes inserted right after the whole tag name, and nothing else changes. HTML without a leading tag is returned unchanged |
| SidebarTree.NonEmptyFacts | src/sidebar/tree.js:7 | `filter(Boolean)` keeps exactly the non-empty strings of its input, and keeps an input with no empty string whole |
| SidebarTree.NonEmptyAppend | src/sidebar/tree.js:7 | filtering a concatenation filters each part, so the kept strings keep their input order |
| SidebarTree.PartsFacts | src/sidebar/tree.js:7 | every segment of a relative path is non-empty and has no slash |
| SidebarTree.ChildKeyInjective | src/sidebar/tree.js:15 | two folder paths built from segments are equal only for the same parent path and the same name |
| SidebarTree.CollectFolderPathsFacts | src/sidebar/tree.js:37-52 | the collected set is exactly the joins of each entry's first `j` segments, for every `j` short of the last. A single-segment path contributes nothing |
| SidebarTree.CollectFolderPaths | src/sidebar/tree.js:37-52 | the nested loops build exactly the set of the folder-path specification |
| SidebarTree.LeafKeyCollected | src/sidebar/tree.js:12-52 | the folder an entry is filed under is the root or one of the paths `collectFolderPaths` reports for it |
| SidebarTree.BuildTreeFacts | src/sidebar/tree.js:3-35 | the built tree is linked, and its folders are the root plus exactly the paths `collectFolderPaths` returns. Each folder holds, in entry order, exactly the entries whose segments before the last lead to it, named by their last segment. Entries without a non-empty segment are skipped |
| SidebarTree.BuildEntryTree | src/sidebar/tree.js:3-35 | the entry loop builds exactly the tree of the specification |
| SidebarTree.PlaceEntry | src/sidebar/tree.js:12-31 | one pass of the loop body (walk down creating folders, then add the file) is exactly one insertion step of the specification |
| SidebarTree.NameLeTotal | src/sidebar/tree.js:55-56 | the name order compares any two names |
| SidebarTree.NameLeTrans | src/sidebar/tree.js:55-56 | the name order is transitive |
| SidebarTree.SortByFacts | src/sidebar/tree.js:55-56 | sorting orders by name, and is a permutation: every element kept, each as often |
| SidebarTree.RenderNodeShape | src/sidebar/tree.js:54-74 | the rows of a node start at its depth and never jump more than one level deeper. A folder is followed by its own contents only when it is expanded, and `aria-expanded` is true exactly for folders not in the collapsed set. A file row is followed only by a sibling file or a shallower row |
| SidebarTree.CollapsedHidesContents | src/sidebar/tree.js:61-66 | a collapsed folder's toggle is marked not expanded, and the row after it is no deeper: none of its contents is drawn |
| SidebarTree.FilesLast | src/sidebar/tree.js:60-71 | after a file row, every row down to the next shallower one is a file at the same depth: at each level, folders come before files |
| SidebarTree.RenderTreeHtml | src/sidebar/tree.js:54-74 | the loops over sorted folders (recursing into expanded ones) and sorted files emit exactly the rows of the rendering specification |
| SidebarTree.RenderFolderToggle | src/sidebar/tree.js:61-66 | the folder-loop body emits the toggle, then the folder's contents unless it is collapsed, as the specification does |
| SidebarTree.RenderFileItems | src/sidebar/tree.js:69-71 | the file loop emits one file row per file, in order, at the given depth |
| UiBehavior.GetSingleFileUiOpenMode | src/ui-behavior.js:1-11 | folder mode gives `folderTabs`, file and files modes give `tabs`, every other mode gives `single`, each as an iff |
| UiBehavior.GetSidebarSelectedPath | src/ui-behavior.js:13-23 | there is a selection exactly in folder mode, with a non-empty active path that is one of the entries' paths, and then it is the active path |
| UiBehavior.SingleClickRoutesExclusive | src/ui-behavior.js:25-49 | five of the six pairs of single-click predicates (ignore the same path, open as a tab, capture the previous file, collapse the hidden tab) exclude each other; ignore and collapse both hold exactly when one file is open in a folder and the click is on the active path. In folder mode with some files open, a click opens as a tab or collapses the hidden tab |
| UiBehavior.CaptureIffNoTabsAndOtherFile | src/ui-behavior.js:29-45 | in folder mode with no tabs and an active path, a click captures the previous file exactly when it does not ignore the same path |
| UiBehavior.SuppressDropOverlayFacts | src/ui-behavior.js:51-66 | the overlay is suppressed only for a single non-empty dragged path that is the open file or the open folder, never for another count of paths, and never when neither is set |
| PathInput.FirstIndex | src/path-input.js:6 | the position is where the value first occurs |
| PathInput.UsablePathsFacts | src/path-input.js:6 | the filter keeps exactly the strings that are not blank once trimmed |
| PathInput.DedupFacts | src/path-input.js:6 | `[...new Set(…)]` keeps each value once and every value, ordered by where each first occurs |
| PathInput.DedupOfDistinct | src/path-input.js:6 | a list without repeats is its own de-duplication |
| PathInput.NormalizeIncomingPathsFacts | src/path-input.js:1-7 | a non-array gives nothing. Otherwise the result has no repeats and no blank strings, holds exactly the usable string elements, and keeps their order of first occurrence |
| PathInput.NormalizeIdempotent | src/path-input.js:1-7 | normalizing an already normalized list changes nothing |
| PathInput.HasFileDragDataFacts | src/path-input.js:25-32 | a drag carries files exactly when one of its types is `Files`, and carries none without a type list. Adding types adds files exactly when one of the added types is `Files`, in either order |
| PathInput.ExtractDragDropPaths | src/path-input.js:9-23 | a missing payload gives nothing. An array payload, or a payload with a `paths` array, gives the normalized paths, and any other payload gives nothing |
| AppUtils.ForwardSlashes | src/app-utils.js:2 | each backslash becomes a slash and every other character is kept, at its position |
| AppUtils.SplitLast | src/app-utils.js:3-4 | the last piece of a split is the text after the last separator |
| AppUtils.BaseNameFacts | src/app-utils.js:1-5 | the base name is a suffix of the path. It is the whole path exactly when the path is empty, ends with a separator, or has none. Otherwise it is the non-empty text after the last `/` or `\` |
| AppUtils.Clamp | src/app-utils.js:7-9 | the result is at most the maximum, at least the minimum when the bounds are ordered, the value itself when it is within them, and the maximum when the bounds cross |
| AppUtils.ClampAgreesOnFinite | src/app-utils.js:7-9 | on finite numbers it agrees with the guarded clamp of the scroll code |
| OpenPaths.DedupeStepFacts | src/app/open-paths-controller.js:3-12 | a repeat is skipped exactly when it has the same joined signature and arrives within 2000 ms. A skip leaves the deduper as it was, and an accepted open records its signature and time |
| OpenPaths.DedupeWindowNotExtended | src/app/open-paths-controller.js:3-12 | skipped repeats do not extend the window: every repeat before 2000 ms after the accepted open is skipped, and the deduper keeps the accepted time |
| OpenPaths.DedupeAfterWindow | src/app/open-paths-controller.js:3-12 | after the window, the repeat is accepted again, however recently it was skipped |
| OpenPaths.SplitJoin | src/app/open-paths-controller.js:4 | joining with a separator that no item holds, then splitting, gives the list back |
| OpenPaths.SignatureFacts | src/app/open-paths-controller.js:4 | two path lists without line breaks share a signature exactly when they are the same list. A path holding a line break collides with another list |
| OpenPaths.Deduper.constructor | src/app/runtime-state.js:53-56 | a deduper starts with an empty signature and time 0 |
| OpenPaths.Deduper.ShouldSkipDuplicateOsOpen | src/app/open-paths-controller.js:3-12 | the answer and the new fields are the dedupe step of the old fields |
| OpenPaths.HandleOsOpenFiles | src/app/open-paths-controller.js:37-67 | the action and the new deduper state are those of the OS-open specification |
| OpenPaths.HandleOsOpenFacts | src/app/open-paths-controller.js:37-67 | an open is ignored, leaving the deduper unchanged, exactly when nothing usable is left or it is a repeat. A folder window sends the paths to a new window. Otherwise two or more paths open together, and one path opens into tabs in file or files mode, or on its own in an empty window. Each action carries the normalized paths |
| OpenPaths.HandleOsOpenTwice | src/app/open-paths-controller.js:37-67 | the same OS open arriving twice within the window is acted on at most once: the repeat is ignored and leaves the deduper as it was |
| OpenPaths.HandleDroppedPaths | src/app/open-paths-controller.js:69-100 | the action is that of the drop specification |
| OpenPaths.KeptNonEmpty | src/app/open-paths-controller.js:69-100 | a kept path is never empty |
| OpenPaths.HandleDroppedFacts | src/app/open-paths-controller.js:69-100 | with nothing usable the drop is ignored. A lone folder without files opens the folder, two or more files open together, and a single file opens from the UI. Anything else reports that nothing supported was dropped |
| OpenPaths.DrainPendingOpenPaths | src/app/open-paths-controller.js:102-110 | the result and the new deduper state are those of the drain specification |
| OpenPaths.Bootstrap | src/app/open-paths-controller.js:130-164 | the outcome and the new deduper state are those of the bootstrap specification |
| OpenPaths.BootstrapFacts | src/app/open-paths-controller.js:130-164 | pending OS paths win over the launch context, which is used only when nothing was pending. The queue is checked a second time only when the launch context opened nothing, and `bootstrap` renders the window itself only when nothing at all was opened |
| OpenPaths.BootstrapUsesLaunchContext | src/app/open-paths-controller.js:130-164 | a launch context the backend builds from arguments opens exactly the file, files or folder it names |
| StartupArgs.FirstUnknownFlag | src-tauri/src/main.rs:57-72 | the reported flag is an argument that starts with `-` and is not `--wait`. There is none only when every such argument is `--wait` |
| StartupArgs.WithoutWait | src-tauri/src/main.rs:57-72 | the kept arguments are exactly those that are not `--wait`, and there are no more of them than arguments |
| StartupArgs.ParseStartupAction | src-tauri/src/main.rs:43-76 | the help scan, the `install-skill` check and the argument loop compute exactly the startup-action specification |
| StartupArgs.UnknownFlagAt | src-tauri/src/main.rs:57-72 | when the loop stops at an unknown flag, that flag is the first unknown flag of the whole list |
| StartupArgs.ParseStartupActionFacts | src-tauri/src/main.rs:43-76 | help wins wherever it appears, and `install-skill` is accepted only alone. A usage error other than `install-skill`'s names an unknown flag of the arguments. A launch waits exactly when some argument is `--wait`, and passes the other arguments in order, none of them a flag. No arguments launch without waiting |
| StartupArgs.PlainArgumentsLaunch | src-tauri/src/main.rs:43-76 | plain arguments launch the app with exactly those arguments, and a `--wait` anywhere among them only adds waiting |
| Launch.KeptOfKind | src-tauri/src/launch.rs:92-142 | the kept paths are exactly the non-blank arguments of the given kind |
| Launch.CategorizePaths | src-tauri/src/launch.rs:92-142 | the loop over the paths computes exactly the categoriser specification |
| Launch.CategorizePathsFacts | src-tauri/src/launch.rs:92-142 | one folder and no file opens that folder. Two or more files open all of them in order, whatever folders there are. Exactly one file opens it, even beside folders. Anything else is empty. Every reported path is a non-blank argument of the reported kind |
| Launch.CategorizeIgnoresUnusable | src-tauri/src/launch.rs:92-142 | removing a blank, missing or special argument leaves the result unchanged |
| Launch.FirstFolder | src-tauri/src/launch.rs:36-89 | the first folder is a candidate argument that is a directory, and there is none only when no candidate is one |
| Launch.LaunchFiles | src-tauri/src/launch.rs:36-89 | the files are exactly the candidate arguments that are files |
| Launch.GetLaunchContext | src-tauri/src/launch.rs:36-89 | the pass over the arguments computes exactly the launch-context specification |
| Launch.GetLaunchContextFacts | src-tauri/src/launch.rs:36-89 | a candidate folder anywhere makes the launch open the first such folder, at or before it, whatever files come with it |
| Launch.LaunchWithoutFolder | src-tauri/src/launch.rs:36-89 | without a folder, two or more files open them all, one file opens it, and no file gives the empty context |
| Launch.TakePendingFacts | src-tauri/src/launch.rs:145-161 | a take returns this window's paths, then the global ones. Afterwards both queues are empty, so a second take gets nothing, and other windows' queues are untouched |
| Launch.QueueThenTake | src-tauri/src/launch.rs:11-161 | paths queued for a window come out of that window's take, after what was already queued, and not out of another window's take. Globally queued paths come out of any window's take, last |
| Launch.OpenablePaths | src-tauri/src/launch.rs:164-188 | the forwarded paths are exactly the non-blank arguments that are existing files or folders |
| Launch.OpenInNewWindowFacts | src-tauri/src/launch.rs:164-188 | a window that cannot be built leaves the queues as they were, and is an error only when there was something to open. A built window finds exactly the openable paths waiting for it |
| Launch.PendingOpenPaths.constructor | src-tauri/src/launch.rs:11-33 | the queues start empty |
| Launch.PendingOpenPaths.QueueOpenPaths | src-tauri/src/launch.rs:11-16 | the new queues are the old ones with the paths appended to the global queue |
| Launch.PendingOpenPaths.QueueOpenPathsForWindow | src-tauri/src/launch.rs:18-26 | the new queues are the old ones with the paths appended to that window's queue |
| Launch.PendingOpenPaths.ClearPendingOpenPathsForWindow | src-tauri/src/launch.rs:28-33 | the new queues are the old ones without that window's queue |
| Launch.PendingOpenPaths.TakePendingOpenPaths | src-tauri/src/launch.rs:145-161 | the drained paths and the new queues are those of the take specification |
| Launch.PendingOpenPaths.OpenPathsInNewWindow | src-tauri/src/launch.rs:164-188 | the new queues and the result are those of the open-in-new-window specification |
| RustPath.NormalParts | src-tauri/src/path_utils.rs:23-62 | the kept pieces are pieces of the input, none of them empty or `.` |
| RustPath.Join | src-tauri/src/cli_install.rs:133-145 | `join` of a name adds the name and at most one slash |
| RustPath.FileName | src-tauri/src/path_utils.rs:23-62 | a file name is a non-empty component without a slash, and is not `.` or `..` |
| RustPath.LastDot | src-tauri/src/path_utils.rs:23-62 | the position holds the last dot of the name, and there is none only when the name has no dot |
| RustPath.ExtensionFacts | src-tauri/src/path_utils.rs:23-62 | an extension is the text after the name's last dot, and that dot is not the first character. A name with a dot after its first character always has one |
| RustPath.FileNameOfName | src-tauri/src/path_utils.rs:23-62 | a plain relative name is its own file name |
| RustPath.JoinComponents | src-tauri/src/cli_install.rs:133-145 | joining a normal name adds exactly that one component |
| RustPath.JoinDistinct | src-tauri/src/cli_install.rs:133-145 | two different names joined to the same base are different paths |
| PathUtils.ShouldTraverseFacts | src-tauri/src/path_utils.rs:3-13 | every file is visited. A directory is entered exactly when its name is UTF-8, does not start with a dot, and is none of `.git`, `node_modules`, `target`, `dist`, `build` |
| PathUtils.FileKind | src-tauri/src/path_utils.rs:15-21 | the kind is markdown exactly when the path is markdown, and text otherwise |
| PathUtils.MarkdownIsTextLike | src-tauri/src/path_utils.rs:23-62 | every markdown file is text-like, and a path without an extension is neither |
| PathUtils.ExtensionCaseInsensitive | src-tauri/src/path_utils.rs:23-62 | `stem.ext` is markdown (or text-like) exactly when the same name with the extension in any other case is |
| PathUtils.NameWithExtension | src-tauri/src/path_utils.rs:23-62 | a stem, a dot and an extension form a file name with exactly that extension |
| PathUtils.NoExtension | src-tauri/src/path_utils.rs:23-62 | a name without a dot has no extension, so it is neither markdown nor text |
| FileUrl.HexValue | src-tauri/src/apple_events.rs:139-140 | a hexadecimal digit's value is below 16 |
| FileUrl.Decode | src-tauri/src/apple_events.rs:137-149 | decoding never lengthens the bytes |
| FileUrl.FileUrlToPath | src-tauri/src/apple_events.rs:132-151 | the loop computes exactly the decoding specification: no path without the `file://` prefix, and none when the decoded bytes are not UTF-8 |
| FileUrl.DecodeWithoutPercent | src-tauri/src/apple_events.rs:137-149 | bytes without a `%` decode to themselves |
| FileUrl.FileUrlToPathFacts | src-tauri/src/apple_events.rs:132-151 | a URL without the prefix gives no path. A UTF-8 URL with no `%` after the prefix gives the text after the prefix |
| FileUrl.DecodeEncode | src-tauri/src/apple_events.rs:137-149 | decoding undoes percent-encoding of any bytes, `%` included |
| FileUrl.SinglePassExample | src-tauri/src/apple_events.rs:137-149 | `%2541` decodes to `%41`: a decoded `%` does not start another escape |
| FileUrl.PlusSignExample | src-tauri/src/apple_events.rs:139-140 | `%+F` decodes to the byte 0x0F, because the radix parser accepts a leading `+` |
| FileUrl.LiteralPercent | src-tauri/src/apple_events.rs:137-149 | a `%` too close to the end, or before bytes that do not parse, is copied as it is |
| CliInstall.VolumesComponents | src-tauri/src/cli_install.rs:117-121 | `/Volumes/` has the components root and `Volumes` |
| CliInstall.EnsureCliSourcePathIsStableFacts | src-tauri/src/cli_install.rs:116-131 | an executable is refused as on the installer image exactly when its first components are the root and `Volumes`. It is refused as translocated exactly when it is not on the image and holds `/AppTranslocation/`. Every other path is accepted |
| CliInstall.UnderVolumes | src-tauri/src/cli_install.rs:117 | `starts_with("/Volumes/")` compares the first two components, not the text |
| CliInstall.PreferredCliInstallDirFacts | src-tauri/src/cli_install.rs:133-145 | the link goes into `~/bin` exactly when that directory is on `PATH`, and otherwise into `~/.local/bin`. Either way it is a directory inside the home directory |
| CliInstall.SplitJoined | src-tauri/src/cli_install.rs:147-151 | a `PATH` of entries joined with `:` splits back into exactly those entries |
| CliInstall.PathContainsListed | src-tauri/src/cli_install.rs:147-151 | a directory is on such a `PATH` exactly when one entry is the same path |
| CliInstall.ExactEntryMatch | src-tauri/src/cli_install.rs:147-151 | entries match by whole path: a sibling whose name only begins with the wanted one does not match, while the same directory with a trailing slash does |
| CliInstall.TrailingSlash | src-tauri/src/cli_install.rs:147-151 | a trailing slash does not change a non-empty path's components |
| Session.AppState.CloseAll | src/tabs/controller.js:264-274 | the new state is the close-everything state of the old one |
| Strs.ToLowerFacts | src/ui/scroll-text-anchor.js:5 | lower-casing keeps the length and the white-space positions, leaves no upper-case letter, and changes nothing in text without one |
| Strs.CollapseFacts | src/ui/scroll-text-anchor.js:6 | each run of white-space becomes one space: the result is collapsed, empty exactly when the input is, and keeps a non-space first or last character. It adds no upper case |
| Strs.TrimStartFacts | src/ui/scroll-text-anchor.js:7 | `trimStart` removes exactly the leading white-space |
| Strs.TrimEndFacts | src/ui/scroll-text-anchor.js:7 | `trimEnd` removes exactly the trailing white-space |
| Strs.TrimFacts | src/ui/scroll-text-anchor.js:7 | `trim` leaves an infix of its input with no white-space at either end |
| Strs.Split | src/ui/markdown-renderer.js:63 | `split` on one character is never empty, and no piece holds the separator |
| Strs.JoinSplit | src/ui/markdown-renderer.js:63 | splitting loses nothing: joining the pieces back with the separator gives the input |
| Strs.IndexOfFacts | src/ui/scroll-text-anchor.js:149 | `indexOf` gives the least position where the needle occurs, and none exactly when it occurs nowhere |

## Left out

- DOM reads and writes are left out: element geometry, `textContent`, the caret and TreeWalker helpers, and `getEditorLineHeight`. Blocks, nodes and viewports are plain records passed in, and HTML output is abstracted to rows and blocks.
- `renderInline` and the HTML markup of each block are left out: the regex substitutions for code, emphasis and links. The block loop, `escapeHtml` and `withSourceRange` are modelled.
- Awaited calls are atomic steps whose outcomes are parameters: `invoke`, file reads and writes, dialogs. Interleavings across an `await` are not modelled, nor the refresh coalescing through `refreshInFlight`/`pendingRefresh` in src/files/controller.js, nor the sidebar's `openPromise`.
- Timers are left out: `requestAnimationFrame` is one pending frame that `RunFrame` carries out, `setTimeout` is not modelled, and `Date.now()` is a parameter. The polling of `startPendingOpenPathPoller` is not modelled; each drain it performs is `DrainPendingOpenPaths`.
- The texts of status messages built from IPC errors are not modelled. The error paths themselves are.
- JavaScript numbers are reals, with every non-finite value one `NonFinite` case. IEEE-754 rounding is not reproduced.
- SidebarTree.NameLe: `localeCompare` is approximated by comparing character codes.
- Strs.ToLower: `toLowerCase` is modelled on ASCII letters only.
- TextAnchor.FindSourceIndexBySnippet: the 8-character minimum and the returned index count Unicode characters, not the UTF-16 code units of JavaScript's `length` and `indexOf`. A snippet of four characters outside the Basic Multilingual Plane is 8 code units, so the source searches for it and the model does not.
- TextAnchor.FindSourceLineBySnippet: the 8-character minimum counts Unicode characters, not UTF-16 code units.
- TextAnchor.FindPreviewBlockBySnippet: the 8-character minimum and the offsets it compares count Unicode characters, not UTF-16 code units.
- TextAnchor.GetEditorTopTextSnippet: the 80-character cut counts Unicode characters. `slice(0, 80)` counts UTF-16 code units and can split a surrogate pair; `Prefix` cannot.
- TextAnchor.GetPreviewTopTextSnippet: the 120-character cut counts Unicode characters. `slice(0, 120)` counts UTF-16 code units and can split a surrogate pair; `Prefix` cannot.
- SidebarTree.RenderTreeHtml: the tree is a value. The in-place sort of `node.files` is the sorted list the rendering uses, not a mutation of the tree.
- ScrollMath.GetPreviewBlocks: the nodes are taken in document order, and the sort by `offsetTop` is left out.
- TabController.MoveTab: requires both indices to be in range. The source calls it only with indices of existing tabs, and `splice` with other indices is not modelled.
- Non-UTF-8 file names are modelled only where the source tests for them (`should_traverse`). Elsewhere paths are text.
- Poisoned locks, the folder watcher and the Rust `Mutex` statics are left out. The pending-open queues are one object.
- `next_window_label` and `build_new_window` are left out: the window label and the build outcome are parameters of `OpenPathsInNewWindow`.
- Paths follow Unix rules only (`/` separators, no prefixes). `env::split_paths` is a split on `:`.
- CliInstall.PreferredCliInstallDir: `PATH` is read once, as a parameter; the source reads it once per check.
- `install_cli_symlink` and the rest of src-tauri/src/cli_install.rs are not modelled, since they create directories and links on disk. The same goes for the Objective-C calls in src-tauri/src/apple_events.rs, and for `should_run_in_process`, `launch_app_detached` and `install_skill` in src-tauri/src/main.rs.
- `path_to_string` is the identity, because paths are text here.
- src/main.js is not part of this model. It holds DOM glue and older variants of the helpers modelled here.
- The examples of specific file names in the Rust tests are covered only by the general lemmas. For instance, an executable under `/Applications` is accepted by `CliInstall.EnsureCliSourcePathIsStableFacts`.

## Findings

| source | as written | input that shows it | evidently intended | confidence | as-written member | corrected member |
|---|---|---|---|---|---|---|
| src/tabs/controller.js:277-280 | after removing a tab to the left of the active one, `activeTabIndex` is only clamped | tabs A, B, C with B active; close A | B stays active (the index moves down by one) | not executed | TabController.CloseTabExample | TabController.CloseTabFixedKeepsActive |
| src/tabs/controller.js:262-281 | closing another tab syncs the buffer from the stored active tab without flushing it first | a dirty buffer with edits not yet flushed; close any other tab | the edits are kept in the active tab and the buffer | not executed | TabController.CloseTabDropsEdits | TabController.CloseTabFixedKeepsActive |
| src/ui/editor-controller.js:50-54 | the mode flips to preview before `saveNow`, and a markdown buffer in preview is not editable, so the save returns at once | a dirty markdown file with a path, in edit mode; toggle | the edits are saved when leaving edit mode | not executed | EditorController.ToggleLeavingEditKeepsDirty | EditorController.ToggleFixedSavesLeavingEdit |
| src/ui/markdown-renderer.js:40-170 | a line that `startsSpecialBlock` accepts but no branch takes is never consumed, so the loop pushes empty paragraphs forever | `## `, `` ```c++ ``, ```` ```` ```` | the line becomes a one-line paragraph and rendering goes on | not executed | MarkdownBlocks.TurnStallExamples | MarkdownBlocks.CorrectedTurnAgrees |
