# Solidity AI IDE — a verified model of its workspace logic

The system is a browser IDE for Solidity contracts. It has:

- a file explorer;
- tabbed editing with a line-number gutter and a cursor status bar;
- uploads of files and folders;
- breadcrumbs;
- a gas panel and a format action;
- an AI panel that documents a contract and reports its vulnerabilities.

This project models the logic behind those views and proves its properties:

- **The workspace store** (`useIDEStore`). This is one object that holds the files, the explorer tree, the open tabs, the active tab and active file ids, the two settings records and the panel flags.
  - It is modelled as the class `UseIdeStore.Store` with those fields.
  - Every action is a method. It changes the fields the action's `set` call names, and no others.
  - Its contract ties the new state to a pure reducer over `IdeStore.StoreState` (module `IdeStore`).
  - Module `IdeStoreActions` proves what each reducer does and what it keeps.
  - Module `IdeStoreCoherence` proves two invariants. First, tabs point at existing files and have distinct ids. Second, the active file is the file of the active tab. It also proves which actions keep those invariants.
- **`buildFileTree`** (module `FileTree`, properties in `FileTreeProps`).
  - The loops fill a map from folder path to the children pushed into that folder, plus the root list.
  - The object graph the source builds by reference is read off that map afterwards.
  - The four copies of the function inside the store differ only in whether `.keep` markers are skipped. A flag covers that difference.
- **The explorer** (module `FileExplorer`).
  - The recursive search filter.
  - The `folder-` id convention.
  - The name handling of the create and rename handlers.
  - The expanded-folder map.
- **The AI service** (module `GeminiService`).
  - Code-fence stripping.
  - The retry loop with its back-off schedule, over an abstract operation.
  - Reading the retry delay from an error's details.
  - The parser and formatter of the vulnerability report.
- **The AI panel** (module `AIPanel`).
  - The report line classifier.
  - The comment generation and apply actions.
- **Small views** (modules `CodeEditor`, `FloatingActionMenu`, `UploadPanel`, `BreadcrumbNavigation`, `EditorTabs`, `GasEstimationPanel`).
  - In the code editor: cursor line and column, the Tab splice, and the gutter.
  - The format action's indentation rule.
  - The three upload paths.
  - The breadcrumbs.
  - The pinned and unpinned tab groups.
  - The gas colour bands and the gas total.

Supporting modules:

- `JsString` states the JavaScript string operations the source relies on: `trim`, `split`, `join`, `indexOf`/`includes`, the first-match `replace`, `lastIndexOf`, `toLowerCase`, `repeat`, and integer printing and parsing.
- `Seqs` holds `filter`, `map` and `find`.
- `IdeTypes` mirrors the `SolidityFile`, `FileNode`, `Tab` and settings types. It also defines JavaScript truthiness of optional strings: `""` is falsy.
- `Optional` holds the option type.

Identifiers that the source draws from `generateId` or `Date.now()` are parameters of the actions that use them, so every action is deterministic.

## Model

| member | source | states |
|---|---|---|
| UseIdeStore.Store.constructor | src/store/ideStore.ts:168-215 | The store starts in the initial state: two starter files at the root, the tree built from them, one open tab on the first file (active), the default editor and AI settings, sidebar open, AI and settings panels closed, not generating. |
| UseIdeStore.Store.SetFiles | src/store/ideStore.ts:293-296 | Replacing the files also replaces the tree with the one built from the new files; nothing else changes. |
| UseIdeStore.Store.CreateFile | src/store/ideStore.ts:217-298 | The new state is the createFile reducer of the old one: one file appended under the createFile name rule, the tree rebuilt; tabs and active ids unchanged. |
| UseIdeStore.Store.UploadFile | src/store/ideStore.ts:300-391 | The new state is the uploadFile reducer: the file appended under the `.sol` rule, the tree rebuilt, a new tab appended and made active with its file. |
| UseIdeStore.Store.UploadFilesWithFolders | src/store/ideStore.ts:393-489 | The records are built (one file and one tab per upload, in order) and the new state is the reducer applied to them. |
| UseIdeStore.UploadRecords | src/store/ideStore.ts:397-418 | The record-building loop yields exactly one file record and one tab record per upload, in upload order. |
| UseIdeStore.Store.AddUploaded | src/store/ideStore.ts:478-488 | The `set` of uploadFilesWithFolders: files and tabs appended, the tree rebuilt, the first new tab active when there is one. |
| UseIdeStore.Store.DeleteFile | src/store/ideStore.ts:491-506 | The new state is the deleteFile reducer (see IdeStoreActions.DeleteFile*). |
| UseIdeStore.Store.RenameFile | src/store/ideStore.ts:508-521 | The new state is the renameFile reducer: the file with that id, every top-level file-tree node whose file id is that id, and every tab of that file take the `.sol`-suffixed name; nested tree nodes, other entries and the rest of the state are unchanged. |
| UseIdeStore.Store.UpdateFileContent | src/store/ideStore.ts:523-529 | The new state is the updateFileContent reducer. |
| UseIdeStore.Store.SaveFile | src/store/ideStore.ts:595-601 | The new state is the saveFile reducer. |
| UseIdeStore.Store.OpenFile | src/store/ideStore.ts:531-547 | The new state is the openFile reducer, with `tabId` the generated id of a tab it may add. |
| UseIdeStore.Store.CloseTab | src/store/ideStore.ts:549-565 | The new state is the closeTab reducer. |
| UseIdeStore.Store.SetActiveTab | src/store/ideStore.ts:567-573 | An existing tab becomes active together with its file; an unknown tab id changes nothing. |
| UseIdeStore.Store.UpdateTabProperty | src/store/ideStore.ts:575-581 | The tabs with that id get the one property set; nothing else changes. |
| UseIdeStore.Store.ToggleSidebar | src/store/ideStore.ts:583 | The sidebar flag flips (see IdeStoreActions.TogglesFlip). |
| UseIdeStore.Store.ToggleAIPanel | src/store/ideStore.ts:584 | The AI panel flag flips. |
| UseIdeStore.Store.ToggleSettings | src/store/ideStore.ts:585 | The settings panel flag flips. |
| UseIdeStore.Store.SetIsGenerating | src/store/ideStore.ts:593 | Only the generating flag is set. |
| UseIdeStore.Store.UpdateEditorSettings | src/store/ideStore.ts:587-588 | The editor settings are merged with the patch, field by field; nothing else changes. |
| UseIdeStore.Store.UpdateAISettings | src/store/ideStore.ts:590-591 | The AI settings are merged with the patch; nothing else changes. |
| UseIdeStore.Store.DeleteFolder | src/store/ideStore.ts:614-690 | The new state is the deleteFolder reducer, the tree rebuilt without the `.keep` skip. |
| UseIdeStore.Store.RenameFolder | src/store/ideStore.ts:692-766 | The new state is the renameFolder reducer, with the parent path as given. |
| UseIdeStore.Store.GetActiveFile | src/store/ideStore.ts:603-606 | The result is a stored file carrying the active file id; it is null only when there is no active id or no file carries it. |
| UseIdeStore.Store.GetFolderContents | src/store/ideStore.ts:791-794 | The result holds only stored files whose folder path is exactly the one asked for, and every such file. |
| UseIdeStore.Store.GetFilesByFolder | src/store/ideStore.ts:796-807 | The grouping loop yields the grouping function (see IdeStoreActions.FilesByFolderGroups). |
| IdeStore.ContractName | src/store/ideStore.ts:226 | The template's contract name never contains `/`. |
| IdeStoreActions.SolNameShape | src/store/ideStore.ts:302 | The upload/rename name ends in `.sol`, starts with the given name, and equals it exactly when the given name already ends in `.sol`. |
| IdeStoreActions.SolNameIdempotent | src/store/ideStore.ts:509 | Applying the `.sol` rule twice is applying it once. |
| IdeStoreActions.CreateFileNameShape | src/store/ideStore.ts:220 | createFile's name ends in `.sol` unless it contains `.keep`, and is the given name exactly when that ends in `.sol` or contains `.keep`. |
| IdeStoreActions.CreateFileNameIsSolName | src/store/ideStore.ts:220 | Outside the `.keep` exception, createFile's rule and the upload rule agree. |
| IdeStoreActions.ContractNameOfPlainName | src/store/ideStore.ts:226 | `base.sol` with no `/` and no `.sol` inside `base` gets the contract name `base`; other dots stay, so `Token.v2.sol` gives `Token.v2`. |
| IdeStoreActions.NewContractSourceShape | src/store/ideStore.ts:226 | The template is the licence line, the pragma, and an empty contract with the file's contract name. |
| IdeStoreActions.CreateFileAppends | src/store/ideStore.ts:217-298 | One unmodified file is appended with the id and createFile name; empty content becomes the template; an empty folder path becomes absent; tabs and active ids stay. |
| IdeStoreActions.UploadFileAppends | src/store/ideStore.ts:300-391 | The file is appended under the `.sol` rule, and a tab showing it by that name is appended and, with its file, made active. |
| IdeStoreActions.UploadedRecords | src/store/ideStore.ts:397-418 | One file and one tab per upload, in order; tab i shows file i under the same `.sol` name. |
| IdeStoreActions.UploadFilesAppend | src/store/ideStore.ts:478-488 | The new files and tabs follow the old ones in upload order, and both branches of the tab update agree. |
| IdeStoreActions.UploadFilesActive | src/store/ideStore.ts:478-488 | The first upload's file id becomes the active file id when it is non-empty, and its tab id the active tab id when that is non-empty. An empty first id, or nothing uploaded, keeps the old active id, as `||` does. |
| IdeStoreActions.UploadNothing | src/store/ideStore.ts:393-489 | An empty upload only rebuilds the tree. |
| IdeStoreActions.OpenFileUnknown | src/store/ideStore.ts:531-534 | An id no file has leaves the state unchanged. |
| IdeStoreActions.OpenFileAlreadyOpen | src/store/ideStore.ts:535-539 | When a tab already shows the file, the first such tab becomes active with the file and no tab is added. |
| IdeStoreActions.OpenFileNewTab | src/store/ideStore.ts:540-546 | Otherwise exactly one tab, named like the file, is appended and becomes active with the file. |
| IdeStoreActions.CloseTabRemoves | src/store/ideStore.ts:549-565 | The new tabs are the old ones without those of that id, in their old order, with every other tab kept at its multiplicity; only the tabs and the active ids change. Closing an id no tab has keeps the tabs. With distinct ids, closing the tab at i leaves the tabs before it followed by those after it. |
| IdeStoreActions.CloseTabActive | src/store/ideStore.ts:552-563 | Closing an inactive tab keeps the active tab; in every case the active file is the active tab's file, or null. |
| IdeStoreActions.CloseActiveTab | src/store/ideStore.ts:552-558 | Closing the active tab at index i activates the remaining tab at index max(0, i−1), or nothing when it was the only tab. |
| IdeStoreActions.DeleteFileForgets | src/store/ideStore.ts:491-506 | Afterwards no file, tab, top-level tree node or active file id refers to the deleted id. |
| IdeStoreActions.DeleteFileKeepsOthers | src/store/ideStore.ts:491-506 | Every other file and tab stays, with its multiplicity; flags and settings stay. |
| IdeStoreActions.DeleteFileTopLevelOnly | src/store/ideStore.ts:497 | Only root-level tree entries are filtered: folder nodes stay as they were, children included. |
| IdeStoreActions.DeleteFileActiveTab | src/store/ideStore.ts:494-503 | The active tab stays unless it showed the file; then it is the first remaining tab, or null. |
| IdeStoreActions.UpdateFileContentEffect | src/store/ideStore.ts:523-529 | The files with that id get the content and `isModified` true; every other file and the rest of the state stay. |
| IdeStoreActions.SaveFileEffect | src/store/ideStore.ts:595-601 | The files with that id get `isModified` false with content untouched; nothing else changes. |
| IdeStoreActions.SaveAfterUpdate | src/store/ideStore.ts:523-529 | Saving after an edit keeps the edited content and clears the modified flag. |
| IdeStoreActions.SaveFileIdempotent | src/store/ideStore.ts:595-601 | Saving twice is saving once. |
| IdeStoreActions.DeleteFolderEmpties | src/store/ideStore.ts:616-619 | No file whose folder path equals the path or starts with `path/` remains. |
| IdeStoreActions.DeleteFolderExactly | src/store/ideStore.ts:616-623 | With distinct file ids, exactly the files of the folder and below are removed; the others stay in order. |
| IdeStoreActions.DeleteFolderTabs | src/store/ideStore.ts:614-690 | The remaining tabs are exactly the old tabs whose file lies outside the folder, in their old order; the active tab is the first remaining tab showing the new active file (null when that tab id is empty), and null when no remaining tab shows it or no file is active. |
| IdeStoreActions.DeleteFolderActiveFile | src/store/ideStore.ts:625-627 | The active file stays unless it was deleted; then it is the first remaining file, or null. |
| IdeStoreActions.RenameFolderMoves | src/store/ideStore.ts:694-706 | Exactly the files of the folder and below are moved to the new prefix, each keeping its path suffix; nothing else about any file changes. |
| IdeStoreActions.FilesByFolderGroups | src/store/ideStore.ts:796-807 | There is a key for every folder path (or `root`) some file has, and no other; under it are exactly that key's files, in order. |
| IdeStoreActions.FolderContentsIsGroup | src/store/ideStore.ts:791-807 | For every path other than `""` and `root`, getFolderContents of the path is that path's group in getFilesByFolder, or empty. Those two paths are where the queries differ. |
| IdeStoreActions.EditorMergeLaws | src/store/ideStore.ts:587-588 | The spread merge: an empty patch is the identity, a repeated patch is idempotent, and two merges equal one merge of the combined patch. |
| IdeStoreActions.AIMergeLaws | src/store/ideStore.ts:590-591 | The same three laws for the AI settings merge. |
| IdeStoreActions.SettingsOnly | src/store/ideStore.ts:587-591 | Each settings action changes its own record and nothing else. |
| IdeStoreActions.TogglesFlip | src/store/ideStore.ts:583-585 | Each toggle flips its own flag and nothing else; toggling twice restores the state. |
| IdeStoreActions.InitialTree | src/store/ideStore.ts:168-192 | The literal initial tree is the tree buildFileTree gives the two starter files. |
| IdeStoreActions.TwoRootFiles | src/store/ideStore.ts:233-291 | Two files without folder paths that are not markers become two root file nodes, in order. |
| IdeStoreCoherence.InitialCoherent | src/store/ideStore.ts:168-215 | The initial state is coherent: tabs show existing files, tab ids are distinct, and the active file is the active tab's file. |
| IdeStoreCoherence.CreateFileCoherent | src/store/ideStore.ts:217-298 | createFile keeps a coherent state coherent. |
| IdeStoreCoherence.UploadFileCoherent | src/store/ideStore.ts:300-391 | uploadFile with a fresh tab id keeps coherence: the new active tab shows the new active file. |
| IdeStoreCoherence.UploadFilesCoherent | src/store/ideStore.ts:393-489 | uploadFilesWithFolders with fresh, distinct ids keeps coherence. |
| IdeStoreCoherence.DeleteFileCoherent | src/store/ideStore.ts:491-506 | deleteFile keeps coherence. |
| IdeStoreCoherence.RenameFileCoherent | src/store/ideStore.ts:508-521 | renameFile keeps coherence. |
| IdeStoreCoherence.UpdateFileContentCoherent | src/store/ideStore.ts:523-529 | updateFileContent keeps coherence. |
| IdeStoreCoherence.SaveFileCoherent | src/store/ideStore.ts:595-601 | saveFile keeps coherence. |
| IdeStoreCoherence.RenameFolderCoherent | src/store/ideStore.ts:692-766 | renameFolder keeps coherence. |
| IdeStoreCoherence.PanelsCoherent | src/store/ideStore.ts:583-593 | Toggles, the generating flag and the settings merges keep coherence. |
| IdeStoreCoherence.OpenFileCoherent | src/store/ideStore.ts:531-547 | openFile with a fresh, non-empty tab id keeps coherence. |
| IdeStoreCoherence.CloseTabCoherent | src/store/ideStore.ts:549-565 | closeTab keeps coherence. |
| IdeStoreCoherence.SetActiveTabCoherent | src/store/ideStore.ts:567-573 | setActiveTab keeps coherence. |
| IdeStoreCoherence.UpdateTabPropertyCoherent | src/store/ideStore.ts:575-581 | Setting a tab's name, pin or group keeps coherence. |
| IdeStoreCoherence.DeleteFolderTabsValid | src/store/ideStore.ts:614-690 | deleteFolder keeps every tab on an existing file and the tab ids distinct. |
| IdeStoreCoherence.DeleteFolderCanLeaveActiveFileWithoutTab | src/store/ideStore.ts:625-687 | There is a coherent state from which deleteFolder gives a non-null active file with a null active tab. |
| IdeStoreCoherence.ActiveFileFound | src/store/ideStore.ts:603-606 | In a coherent state getActiveFile finds a file whenever there is an active file id. |
| FileTree.PathParts | src/store/ideStore.ts:243-244 | The path segments are non-empty and contain no `/`. |
| FileTree.PlaceFile | src/store/ideStore.ts:242-286 | The loop body for one file yields the specification's layout after that file: its folder prefixes created once each, then its node pushed, unless it is a skipped marker. |
| FileTree.BuildFileTree | src/store/ideStore.ts:233-291 | The built tree is the tree of the layout the specification fold gives for the files. |
| FileTreeProps.FoldersArePrefixes | src/store/ideStore.ts:242-264 | A folder exists for a path exactly when it is a non-empty prefix of some file's folder segments. |
| FileTreeProps.FolderPushedOnce | src/store/ideStore.ts:249-262 | Each folder is pushed exactly once, into its parent prefix's list, or into the root list at depth 0. |
| FileTreeProps.FolderOnlyUnderParent | src/store/ideStore.ts:249-262 | A folder entry appears only in its parent prefix's list, and only for an existing folder. |
| FileTreeProps.FolderNamedBySegment | src/store/ideStore.ts:247-251 | A folder node is named by the last segment of its path. |
| FileTreeProps.FolderParentExists | src/store/ideStore.ts:254-259 | The parent of every nested folder exists. |
| FileTreeProps.FilesPlaced | src/store/ideStore.ts:266-286 | The file nodes of each list are exactly the non-skipped files whose full folder path names that list, in input order. |
| FileTreeProps.FileLeafOnce | src/store/ideStore.ts:266-286 | When no other file has its id, a file that is not skipped has exactly one node, carrying its id, in its own location's list and none in any other. |
| FileTreeProps.NoLeafFor | src/store/ideStore.ts:271-286 | No file node carries an id no file has. |
| FileExplorer.FilterNodes | src/components/ide/FileExplorer.tsx:144-167 | What `filterNodes` returns, sibling by sibling. |
| FileExplorer.FilterNodesConcat | src/components/ide/FileExplorer.tsx:145-166 | Filtering distributes over concatenation, so survivors keep their relative order. |
| FileExplorer.FileSurvives | src/components/ide/FileExplorer.tsx:144-167 | A file node survives exactly when it is not named `.keep` and its name contains the query case-insensitively (or the query is empty), and then unchanged. |
| FileExplorer.FolderSurvives | src/components/ide/FileExplorer.tsx:151-160 | A folder survives exactly when it has a children array and its name matches or some child survives; it then carries the filtered children. |
| FileExplorer.EmptyQueryKeepsFiles | src/components/ide/FileExplorer.tsx:151-163 | With an empty query every non-`.keep` file in the list is kept. |
| FileExplorer.FilterFixedIff | src/components/ide/FileExplorer.tsx:144-167 | The lists the filter leaves unchanged are exactly those in its output shape, so filtering twice is filtering once. |
| FileExplorer.FolderIdRoundTrip | src/components/ide/FileExplorer.tsx:236 | Stripping `folder-` from the store's folder id recovers the path. |
| FileExplorer.PlainPathParts | src/components/ide/FileExplorer.tsx:76-78 | A path of non-empty segments joins back from the segments buildFileTree splits it into. |
| FileExplorer.NewFolderInTree | src/components/ide/FileExplorer.tsx:76-93 | The marker handleCreateFolder creates makes its path a folder of the rebuilt tree, whose id is the key the explorer marks expanded. |
| FileExplorer.Toggled | src/components/ide/FileExplorer.tsx:117-122 | The toggled key reads as the negation of its old reading (a missing key reads false); every other key reads as before. |
| FileExplorer.ToggleTwice | src/components/ide/FileExplorer.tsx:117-122 | Toggling a key twice leaves every reading as it was. |
| FileExplorer.RenameUnchanged | src/components/ide/FileExplorer.tsx:104-115 | Starting a rename of `base.sol` and confirming it unchanged gives back the name `base.sol`. |
| FileExplorer.Explorer.constructor | src/components/ide/FileExplorer.tsx:44-55 | The explorer starts closed, with empty texts and no folder expanded. |
| FileExplorer.Explorer.Visible | src/components/ide/FileExplorer.tsx:144-167 | The rendered tree is the store's tree filtered by the search text, which is in the filter's output shape: no `.keep` file, every file and every childless folder matching the query. |
| FileExplorer.Explorer.HandleCreateFile | src/components/ide/FileExplorer.tsx:57-63 | A blank text changes nothing. Otherwise the store creates a root file from the trimmed text and the box closes. In the panel only the new-file text and its flag change: the search text, the rename box and the folder boxes stay. |
| FileExplorer.Explorer.HandleCreateFileInFolder | src/components/ide/FileExplorer.tsx:65-72 | The same inside the given folder, with the success toast `File created in folder`. In the panel only the in-folder text and its flag change. A blank text changes nothing and raises no toast. |
| FileExplorer.Explorer.HandleCreateFolder | src/components/ide/FileExplorer.tsx:74-95 | A blank name changes nothing and raises no toast. Otherwise a `.keep` marker is created at `parent/name` (or `name`) and `folder-` plus that path is marked expanded. The success toast quotes the name as typed, untrimmed. In the panel only the folder text, its flag, the parent path and the expanded folders change. |
| FileExplorer.Explorer.StartRename | src/components/ide/FileExplorer.tsx:112-115 | The rename box shows the name with its first `.sol` removed; only the rename box and the edited id change. |
| FileExplorer.Explorer.HandleRename | src/components/ide/FileExplorer.tsx:104-110 | A blank text changes nothing. Otherwise the store renames the file to the trimmed text and the rename box closes. In the panel only the rename box and the edited id change. |
| FileExplorer.Explorer.ToggleFolder | src/components/ide/FileExplorer.tsx:117-122 | Exactly the one key flips; nothing else in the panel changes. |
| JsString.TrimEmptyIff | src/components/ide/FileExplorer.tsx:58 | A text trims to empty exactly when it is all white space, which is when the handlers ignore it. |
| GeminiService.OpeningLengthSpec | src/services/geminiService.ts:57 | Only a text starting with three backticks loses anything to the opening pattern, and then everything up to the first non-space character after the optional tag. |
| GeminiService.TagLengthMatches | src/services/geminiService.ts:57 | The tag taken is one of solidity, sol, javascript, typescript, matched case-insensitively, trying the alternatives in order. |
| GeminiService.ClosingFromSpec | src/services/geminiService.ts:58 | The closing search finds the leftmost position where an optional newline, three backticks and only white space to the end start. |
| GeminiService.CleanCodeResponse | src/services/geminiService.ts:54-60 | The cleaned text is trimmed and no longer than the response. |
| GeminiService.CleanIsInfix | src/services/geminiService.ts:54-60 | Cleaning only cuts text off both ends. |
| GeminiService.CleanWithoutFences | src/services/geminiService.ts:54-60 | A response without fences is only trimmed. |
| GeminiService.FencedRoundTrip | src/services/geminiService.ts:54-60 | A trimmed body in a fenced block, with no tag or any accepted tag, comes back unchanged. |
| GeminiService.CleanTakesOneFence | src/services/geminiService.ts:57-58 | At most one fence is removed from each end: a doubly fenced body keeps its inner fence. |
| GeminiService.BackOff | src/services/geminiService.ts:77-78 | The wait is positive; without a server delay it is 1000 × 2^(attempt−1). |
| GeminiService.WithRetry | src/services/geminiService.ts:63-99 | The loop's run is the recursive retry specification from attempt 1. |
| GeminiService.RetrySettles | src/services/geminiService.ts:69-96 | Every run stops at the first success, at the first failure that is not about quota, or at the third call, with the back-off waited after each earlier quota failure. |
| GeminiService.RetryBounded | src/services/geminiService.ts:63-99 | The operation is called at most MAX_RETRIES (3) times, with one wait between consecutive calls. |
| GeminiService.QuotaSchedule | src/services/geminiService.ts:77-90 | Three quota failures without retry information wait 1000 then 2000 ms and then throw the quota error. |
| GeminiService.NonQuotaImmediate | src/services/geminiService.ts:93-94 | A first failure that is not about quota is rethrown at once, after one call. |
| GeminiService.DetailDelay | src/services/geminiService.ts:40-42 | A usable detail's delay is a whole number of seconds in milliseconds. |
| GeminiService.RetryDelay | src/services/geminiService.ts:33-51 | There is a delay exactly when some detail is a RetryInfo entry whose delay holds a digit run; it is a multiple of 1000. |
| GeminiService.RetryDelaySkips | src/services/geminiService.ts:37-45 | A detail that is not usable is passed over. |
| GeminiService.GetRetryDelayFromError | src/services/geminiService.ts:33-51 | The loop returns the delay of the first usable detail, or null. |
| GeminiService.ParseFieldLine | src/services/geminiService.ts:328-341 | A line `key:rest` sets the field named by the trimmed, lower-cased key to the trimmed rest, colons inside it kept; other fields stay. |
| GeminiService.SetFieldOf | src/services/geminiService.ts:334-339 | Setting a known field gives it the value and keeps the other five; a name outside the six sets nothing. |
| GeminiService.ParseFieldNoColon | src/services/geminiService.ts:329-330 | A line without a colon sets nothing. |
| GeminiService.UnknownFieldIgnored | src/services/geminiService.ts:328-341 | A line `key:rest` whose trimmed, lower-cased key names none of the six fields changes nothing. |
| GeminiService.LaterFieldWins | src/services/geminiService.ts:328-341 | For each of the six field names (location, type, severity, description, fix, comment), the last line naming it decides its value and leaves the other five as earlier lines set them. |
| GeminiService.ParseBlock | src/services/geminiService.ts:317-341 | The line loop yields the fields of the block's non-blank lines. |
| GeminiService.AppendedKeepsHead | src/services/geminiService.ts:316-351 | Appending to the report never changes what came before. |
| GeminiService.ReportNothingIff | src/services/geminiService.ts:301-310 | The report is exactly the fixed message when the response mentions it, is shorter than 20 characters, or has no non-blank block. |
| GeminiService.ReportOpensWithHeader | src/services/geminiService.ts:312-314 | Otherwise the report opens with the title, the count of all non-blank blocks, and a rule of 60 `=`. |
| GeminiService.EntryShape | src/services/geminiService.ts:343-350 | A block prints only when it has a type or a location; its entry then starts with the line `<index + 1>. **<type>** [<severity>]`, the type defaulting to `Unknown Vulnerability` and the severity to `Unknown`, and the entry is exactly that line, then `   Location: <location>`, `   Issue: <description>`, `   Fix: <fix>` and `   <comment>`, each only when its field is set, then a rule of 60 `-`. |
| GeminiService.SilentBlocks | src/services/geminiService.ts:312-351 | When no block has a type or a location the report is the header alone. |
| GeminiService.FormatEntry | src/services/geminiService.ts:343-350 | The appends for one block build its entry text. |
| GeminiService.AppendEntries | src/services/geminiService.ts:316-351 | The block loop appends every block's entry in order. |
| GeminiService.FormatVulnerabilities | src/services/geminiService.ts:298-353 | The formatter's output is the report function of the response. |
| AIPanel.RenderedKinds | src/components/ide/AIPanel.tsx:382 | The view has one more row than the report has newlines, one per `\n`-separated line, each classified on its own. |
| AIPanel.ClassifyFirstMatch | src/components/ide/AIPanel.tsx:388-421 | A reformulation of the classifier as a first match: the kind is that of the first of the six rules that matches the trimmed line. |
| AIPanel.RuleOfIff | src/components/ide/AIPanel.tsx:409 | A separator is five or more copies of one character. |
| AIPanel.NumberedIff | src/components/ide/AIPanel.tsx:395 | An item line starts with a non-empty digit run followed by a dot. |
| AIPanel.ClassifyBlankIff | src/components/ide/AIPanel.tsx:414 | A line renders blank exactly when it is all white space. |
| AIPanel.ClassifyTrimmed | src/components/ide/AIPanel.tsx:388-421 | Surrounding white space never changes a line's kind. |
| AIPanel.ShortRuleIsText | src/components/ide/AIPanel.tsx:409 | Four equal signs are too few for a separator and render as text. |
| AIPanel.TitleIsHeading | src/components/ide/AIPanel.tsx:388 | The formatter's title line renders as the heading. |
| AIPanel.RulesAreDividers | src/components/ide/AIPanel.tsx:409 | The formatter's rules of 60 `=` and 60 `-` render as separators. |
| AIPanel.FieldLineIsDetail | src/components/ide/AIPanel.tsx:402 | A printed Location, Issue or Fix line renders as a detail line. |
| AIPanel.ItemLineIsItem | src/components/ide/AIPanel.tsx:395 | The first line of a printed entry renders as an item. |
| AIPanel.GenerationFailureDefault | src/components/ide/AIPanel.tsx:87-100 | An error without a message falls back to `Failed to generate comments`, which does not mention the quota, so that text itself is the error toast. |
| AIPanel.ScanFailureDefault | src/components/ide/AIPanel.tsx:73-83 | An error without a message falls back to `Unknown error`, which mentions neither an overload nor 503, so the scan raises its fixed error toast. |
| AIPanel.Panel.constructor | src/components/ide/AIPanel.tsx:38-42 | The panel starts with no comments, no report, and the comments tab. |
| AIPanel.Panel.GenerateComments | src/components/ide/AIPanel.tsx:46-106 | Without an active file only an error toast is raised. Otherwise the store ends as it began with the generating flag cleared, the comments are the reply whatever the scan did, and the report and toasts follow each reply's outcome. |
| AIPanel.AppliedToast | src/components/ide/AIPanel.tsx:111-120 | The apply toast is a success toast, and its text is `Comments applied to current file` exactly when the output mode is same-file. |
| AIPanel.Panel.ApplyComments | src/components/ide/AIPanel.tsx:108-121 | Without comments or an active file nothing changes and no toast is raised. Same-file mode replaces the active file's content and raises `Comments applied to current file`. Otherwise a root file named `base_commented.sol` is created and the toast `Created <that name> with documentation` is raised. |
| AIPanel.CommentedNameKept | src/components/ide/AIPanel.tsx:116-118 | The commented name ends in `.sol`, so createFile keeps it as given. |
| AIPanel.CommentedNameOfSol | src/components/ide/AIPanel.tsx:116-117 | For `base.sol` with no other `.sol`, the name is `base_commented.sol`. |
| CodeEditor.BeforeCaret | src/components/ide/CodeEditor.tsx:52 | The text before the caret is the content's prefix up to the clamped position. |
| CodeEditor.CursorLineCountsNewlines | src/components/ide/CodeEditor.tsx:52-54 | The line is one more than the number of newlines before the caret. |
| CodeEditor.CursorColumnSinceNewline | src/components/ide/CodeEditor.tsx:52-55 | The column is one more than the number of characters after the last newline before the caret. |
| CodeEditor.CursorAtStart | src/components/ide/CodeEditor.tsx:49-55 | Position 0 is line 1, column 1. |
| CodeEditor.GutterRows | src/components/ide/CodeEditor.tsx:99-109 | The gutter has one row per piece of `content.split('\n')`: one more than the content has newlines, so at least one. |
| CodeEditor.CursorWithinGutter | src/components/ide/CodeEditor.tsx:99-109 | The cursor line is always a gutter row, so exactly one row is highlighted. |
| CodeEditor.TabSpliceShape | src/components/ide/CodeEditor.tsx:36-38 | The splice keeps the text before the selection and after it, with the spaces between, and changes the length by the tab size minus the selection length. |
| CodeEditor.CaretAfterTab | src/components/ide/CodeEditor.tsx:36-43 | The caret after the spaces stays on its line, `tabSize` columns to the right of the selection start. |
| CodeEditor.Editor.constructor | src/components/ide/CodeEditor.tsx:15-16 | The status bar starts at line 1, column 1. |
| CodeEditor.Editor.HandleChange | src/components/ide/CodeEditor.tsx:25-29 | With an active file id the typed text becomes that file's content; otherwise nothing changes. |
| CodeEditor.Editor.HandleKeyDown | src/components/ide/CodeEditor.tsx:31-47 | Tab with an active file id writes the splice and returns the caret `start + tabSize`; other keys, or a negative tab size, change nothing. |
| CodeEditor.Editor.HandleCursorChange | src/components/ide/CodeEditor.tsx:49-56 | The status bar shows the caret's line and column as counted above; the store is untouched. |
| FloatingActionMenu.FormatLineShape | src/components/ide/FloatingActionMenu.tsx:61-64 | A formatted line starts with a run of exactly 2·⌊L/2⌋ plain spaces, for L the line's leading white-space run; it ends in a non-space unless the line is blank, and it trims to what the line trims to. |
| FloatingActionMenu.BlankLineKeepsSpaces | src/components/ide/FloatingActionMenu.tsx:61-64 | An all-white-space line of length L becomes 2·⌊L/2⌋ spaces, not an empty line. |
| FloatingActionMenu.FormatLineIdempotent | src/components/ide/FloatingActionMenu.tsx:61-64 | Formatting a formatted line changes nothing. |
| FloatingActionMenu.FormatLineNoNewline | src/components/ide/FloatingActionMenu.tsx:61-64 | A line without a newline stays without one. |
| FloatingActionMenu.LinesOfFormat | src/components/ide/FloatingActionMenu.tsx:58-66 | The formatted content has exactly the original's lines, each formatted, so the line count is kept. |
| FloatingActionMenu.FormatIdempotent | src/components/ide/FloatingActionMenu.tsx:58-66 | Formatting twice is formatting once. |
| FloatingActionMenu.FormatActiveFile | src/components/ide/FloatingActionMenu.tsx:55-73 | Without an active file nothing changes and no toast is raised. Otherwise the store's updateFileContent writes the formatted content to the active file, and the untyped toast titled `Code formatted` is raised. |
| UploadPanel.PickedFileRecord | src/components/ide/UploadPanel.tsx:72-96 | The record follows the picker's relative path when it is set, else the full path; a file with neither and a plain name is uploaded under its name with no folder. |
| UploadPanel.FileNameHasNoSlash | src/components/ide/UploadPanel.tsx:73-74 | The file name is the last `/` segment and contains no `/`. |
| UploadPanel.PathRoundTrip | src/components/ide/UploadPanel.tsx:73-80 | When the path holds a `/`, the folder path, a `/` and the file name give the path back. |
| UploadPanel.PathWithoutSlash | src/components/ide/UploadPanel.tsx:73-80 | A path without `/` is the file name, with no folder. |
| UploadPanel.RecordOfPath | src/components/ide/UploadPanel.tsx:73-96 | The pushed record carries the file name, the text, and a folder that rejoins with the name to the path, or no folder (also for an empty leading segment). |
| UploadPanel.FileUploadToastIff | src/components/ide/UploadPanel.tsx:20-50 | The single upload reports success exactly when the first file is a `.sol` file read to a non-empty text. |
| UploadPanel.HandleFileUpload | src/components/ide/UploadPanel.tsx:20-50 | Only the first file counts. A non-`.sol` name, a read error or an empty text raises its own error toast and leaves the store unchanged. Otherwise the file is uploaded to the root and a success toast names it. |
| UploadPanel.FolderRecordsSpec | src/components/ide/UploadPanel.tsx:64-98 | The folder loop's records are those of the `.sol` files in order, or a failure when any of them could not be read. |
| UploadPanel.CollectFolder | src/components/ide/UploadPanel.tsx:61-97 | The loop over the picked files records each `.sol` file in order and returns exactly FolderRecords of the pick: None on the first read failure, otherwise the records, which FolderRecordsSpec shows are those of the `.sol` files in input order. |
| UploadPanel.HandleFolderUpload | src/components/ide/UploadPanel.tsx:52-114 | No files: nothing. A read failure: the error toast, store unchanged. No `.sol` file: the no-files error, store unchanged. Otherwise one upload of all records in input order and a toast with their count. |
| UploadPanel.DropRecordsSpec | src/components/ide/UploadPanel.tsx:155-178 | The drop loop makes one record per `.sol` entry, named by the last segment of its path. |
| UploadPanel.UploadDropped | src/components/ide/UploadPanel.tsx:155-184 | The dropped `.sol` files are uploaded together with a count toast, or the error toast is raised with the store unchanged. |
| UploadPanel.HandleDrop | src/components/ide/UploadPanel.tsx:128-185 | A drop without entries is a single-file upload of the plain files. Otherwise no `.sol` entry raises the no-files error with the store unchanged, and the rest is as UploadDropped. |
| BreadcrumbNavigation.FolderPartsClean | src/components/ide/BreadcrumbNavigation.tsx:19 | The folder segments are non-empty and free of `/`; a path without `/` is one segment. |
| BreadcrumbNavigation.BreadcrumbsShape | src/components/ide/BreadcrumbNavigation.tsx:12-37 | The first crumb is `Solidity IDE`. With no active file it is the only crumb and the last. With a file there are 2 + segments crumbs: root, the segments in order, the file name; exactly the file's crumb and the last segment's are last. |
| BreadcrumbNavigation.BuildBreadcrumbs | src/components/ide/BreadcrumbNavigation.tsx:9-37 | The pushes and the in-place flag build the breadcrumbs of the store's active file. |
| BreadcrumbNavigation.ChevronCount | src/components/ide/BreadcrumbNavigation.tsx:52-54 | There is one chevron fewer than crumbs (a count only; ChevronAfter says which crumbs carry one). |
| EditorTabs.RenderedOnce | src/components/ide/EditorTabs.tsx:10-70 | Every open tab is drawn exactly once, the pinned group first; each group is a filter of the tabs, so it keeps their order. |
| EditorTabs.DividerIff | src/components/ide/EditorTabs.tsx:15 | The divider is drawn exactly when some tab is pinned and some is not. |
| EditorTabs.NoFilesOpenIff | src/components/ide/EditorTabs.tsx:72-76 | The placeholder shows exactly when nothing is drawn. |
| EditorTabs.TogglePinFlips | src/components/ide/EditorTabs.tsx:40 | The pin button flips the pinned flag of its own tab; tabs with other ids and the rest of the store stay. |
| EditorTabs.TogglePinTwice | src/components/ide/EditorTabs.tsx:40 | Pressing the pin button twice puts the tab back in its group. |
| GasEstimationPanel.BandOf | src/components/ide/GasEstimationPanel.tsx:23-28 | The bands are the ranges at most 30000, (30000, 50000], (50000, 100000] and above 100000. |
| GasEstimationPanel.ClassesFollowBand | src/components/ide/GasEstimationPanel.tsx:23-92 | The text class and the bar colour are both functions of the band. |
| GasEstimationPanel.SameClassIffSameBand | src/components/ide/GasEstimationPanel.tsx:23-92 | Two figures share a text class exactly when they share a bar colour, which is exactly when they share a band. |
| GasEstimationPanel.Boundaries | src/components/ide/GasEstimationPanel.tsx:23-28 | 100000 is warning, 50000 is yellow and 30000 is success; one more gas is each next band up. |
| GasEstimationPanel.BandMonotone | src/components/ide/GasEstimationPanel.tsx:23-28 | More gas never gives a lower band. |
| GasEstimationPanel.TotalConcat | src/components/ide/GasEstimationPanel.tsx:19-21 | The total splits over a concatenation of estimates. |
| GasEstimationPanel.TotalPermutation | src/components/ide/GasEstimationPanel.tsx:19-21 | The total does not depend on the order of the estimates. |
| GasEstimationPanel.TotalBoundsEach | src/components/ide/GasEstimationPanel.tsx:19-21 | With non-negative estimates the total is at least each one. |
| GasEstimationPanel.PanelViewSpec | src/components/ide/GasEstimationPanel.tsx:48-100 | The message shows exactly when there are no estimates. Otherwise the total is the sum, coloured by its band, with one row per function, in order, whose text and bar share the band of its figure. |

## Left out

- Network and SDK calls. The prompts, the model routing and `setTimeout` are left out. The AI operation is an abstract attempt number → outcome function, and a comment or scan reply is a parameter.
- `isQuotaError` inspects `JSON.stringify` of the error. Its result is an abstract flag of each failed attempt.
- The error's `details` are given as already-decoded records. The `try`/`catch` around their reading is not modelled.
- `parseInt` is modelled on digit runs, with no floating-point overflow.
- `getParentFolderPath`, `exportFolderAsZip`, `exportAllFilesAsZip`, and `processFileSystemEntries`/`getFileSystemEntries` are left out: the zip and file-system helpers are not part of this model. The parent path is a parameter of renameFolder. The entries a drop yields are a parameter of the drop handler, with their count.
- `createFolder` only logs to the console, so it is not modelled.
- The `persist` layer, `localStorage`, the `Date` timestamps and the randomness of `generateId` are left out. Generated ids are parameters, and timestamps are not part of the file records.
- FileReader, clipboard, download and share are I/O and are left out. A file's read is given as its outcome, a text or an error.
- Toasts are values returned by the handlers, not calls. Their `description` and `duration` options are not modelled. The untyped `toast({title})` is the `Plain` kind.
- `getFilesByFolder` builds a plain JavaScript object, `Record<string, SolidityFile[]>`. IdeStore.FilesByFolder models it as a Dafny `map`. So the hazards of a folder path that names an inherited object key, such as `__proto__` or `constructor`, are not modelled: the map treats every key alike.
- `updateTabProperty` takes a key and a `value: any`. The model types the value per property (IdeStore.TabProperty), so `undefined`, a value of the wrong type and an unknown key are not modelled.
- Loading, dragging and panel-closing flags of the views are not modelled.
- The template texts of the two starter files are parameters of the store's constructor. The createFile template is modelled literally.
- The AI panel's bold and code HTML rewriting of report lines is a regular-expression replace for display and is not modelled. Its line classification is.
- The gas bar width, a floating-point percentage, is left out. So are `toLocaleString` grouping and `toFixed`. Gas figures are integers.
- The analysis engine is not part of this model: the tokenizer, linter, gas estimator and `formatSolidity`. Neither are the panels that only show its output, the minimap, and the layout, theme, settings and toolbar views.
- `toLowerCase` and the regular expression's `i` flag are modelled on ASCII letters only. String lengths count characters, not UTF-16 code units.
- IdeStoreCoherence.DeleteFolderTabsValid: deleteFolder is proved to keep tabs valid but not full coherence. It can leave an active file that no tab shows; IdeStoreCoherence.DeleteFolderCanLeaveActiveFileWithoutTab exhibits such a state.
- IdeStoreCoherence.UpdateTabPropertyCoherent covers only the name, pin and group properties. Setting a tab's id or file id through updateTabProperty can break coherence.
- IdeStoreCoherence.UploadFileCoherent, IdeStoreCoherence.OpenFileCoherent and IdeStoreCoherence.UploadFilesCoherent require the generated ids to be fresh, as `generateId` makes them with high probability but not with certainty.
- FileTreeProps.FileLeafOnce requires that no other file shares the file's id, which the store's generated ids give.
- EditorTabs.TogglePinTwice states that the tab returns to its group, not that the stored flag is the original value. The first press stores a boolean where the tab may have had none.
