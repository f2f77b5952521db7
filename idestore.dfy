/**
  The workspace store's actions as the state updates they hand to `set`.

  Each function takes the state before the action and the action's arguments
  and returns the whole state after it; fields an action does not mention are
  carried over unchanged.  Ids the source draws from `generateId` are
  arguments, and `getParentFolderPath(oldPath)` (from a utility module that is
  not part of this model) is passed to `RenameFolder` as its result.
*/
module IdeStore {
  import opened Optional
  import opened JsString
  import opened Seqs
  import opened IdeTypes
  import opened FileTree

  /** The store's state: the files, the explorer tree, the tabs and the UI flags. */
  datatype StoreState = StoreState(
    files: seq<SolidityFile>,
    fileTree: seq<FileNode>,
    openTabs: seq<Tab>,
    activeTabId: Option<string>,
    activeFileId: Option<string>,
    editorSettings: EditorSettings,
    aiSettings: AICommentSettings,
    isSidebarOpen: bool,
    isAIPanelOpen: bool,
    isSettingsOpen: bool,
    isGenerating: bool)

  const DEFAULT_EDITOR_SETTINGS := EditorSettings(Dark, 14, 4, false, true, true)

  const DEFAULT_AI_SETTINGS := AICommentSettings(SameFile, NatSpec, true, true, true, false, "english")

  /** The state before anything is done: two root files, the first one open in a tab.
      The two Solidity template texts are parameters. */
  function Initial(simpleStorageSource: string, tokenSource: string): StoreState {
    StoreState(
      [SolidityFile("file-1", "SimpleStorage.sol", simpleStorageSource, false, None),
       SolidityFile("file-2", "MyToken.sol", tokenSource, false, None)],
      [FileNode("file-1", "SimpleStorage.sol", FileKind, NoChildren, Some("file-1")),
       FileNode("file-2", "MyToken.sol", FileKind, NoChildren, Some("file-2"))],
      [Tab("tab-1", "file-1", "SimpleStorage.sol", None, None)],
      Some("tab-1"), Some("file-1"),
      DEFAULT_EDITOR_SETTINGS, DEFAULT_AI_SETTINGS,
      true, false, false, false)
  }

  // ---------------------------------------------------------------- file names

  /** createFile's name rule: `.sol` is appended unless the name already ends in
      `.sol` or contains `.keep` (a folder marker). */
  function CreateFileName(name: string): string {
    if Contains(name, ".keep") || EndsWith(name, ".sol") then name else name + ".sol"
  }

  /** The name rule of uploadFile, uploadFilesWithFolders and renameFile: `.sol` is
      appended unless the name already ends in it. */
  function SolName(name: string): string {
    if EndsWith(name, ".sol") then name else name + ".sol"
  }

  /** In `base.sol` with no `.sol` inside `base`, the first `.sol` is the extension: `.` stands
      only at the start of `.sol`, so no match can straddle the join. */
  lemma SolOnlyAtEnd(base: string)
    requires !Contains(base, ".sol")
    ensures IndexOf(base + ".sol", ".sol") == |base|
  {
    var s := base + ".sol";
    assert OccursAt(s, ".sol", |base|);
    forall j | 0 <= j < |base| ensures !OccursAt(s, ".sol", j) {
      if OccursAt(s, ".sol", j) {
        if j + 4 <= |base| {
          assert s[j..j + 4] == base[j..j + 4];
          assert OccursAt(base, ".sol", j);
        } else {
          OccursAtChar(s, ".sol", j, |base| - j);
          assert false;
        }
      }
    }
  }

  /** The contract name of createFile's template:
      `name.replace('.sol', '').split('/').pop()`. */
  function ContractName(name: string): (r: string)
    ensures '/' !in r
  {
    var pieces := Split(ReplaceFirst(name, ".sol", ""), "/");
    SplitPiecesFree(ReplaceFirst(name, ".sol", ""), '/');
    Last(pieces)
  }

  /** The text createFile puts before and after the contract name of a new file. */
  const CONTRACT_HEADER := "// SPDX-License-Identifier: MIT\npragma solidity ^0.8.19;\n\ncontract "
  const CONTRACT_TAIL := " {\n    \n}"

  /** The content createFile gives a file created without content. */
  function NewContractSource(name: string): string {
    CONTRACT_HEADER + ContractName(name) + CONTRACT_TAIL
  }

  // ---------------------------------------------------------------- lookups

  /** A file with this id exists. */
  predicate HasFile(files: seq<SolidityFile>, id: string) {
    exists j :: 0 <= j < |files| && files[j].id == id
  }

  /** `files.find(f => f.id === id)`. */
  function FileWithId(files: seq<SolidityFile>, id: string): Option<SolidityFile> {
    Find(files, (f: SolidityFile) => f.id == id)
  }

  /** `tabs.find(t => t.id === tabId)`. */
  function TabWithId(tabs: seq<Tab>, tabId: string): Option<Tab> {
    Find(tabs, (t: Tab) => t.id == tabId)
  }

  /** `tabs.find(t => t.fileId === fileId)`. */
  function TabShowing(tabs: seq<Tab>, fileId: string): Option<Tab> {
    Find(tabs, (t: Tab) => t.fileId == fileId)
  }

  /** `tabs.find(t => t.id === tabId)?.fileId`. */
  function FileOfTab(tabs: seq<Tab>, tabId: string): Option<string> {
    match TabWithId(tabs, tabId)
    case Some(t) => Some(t.fileId)
    case None => None
  }

  /** The active file the store derives from an active tab:
      `active ? tabs.find(t => t.id === active)?.fileId || null : null`. */
  function ActiveFileOf(tabs: seq<Tab>, active: Option<string>): Option<string> {
    if !Truthy(active) then None
    else
      match FileOfTab(tabs, active.value)
      case Some(f) => OrAbsent(f)
      case None => None
  }

  /** `tabs.find(t => t.fileId === fileId)?.id || null`, for a possibly null file id. */
  function TabOfFile(tabs: seq<Tab>, fileId: Option<string>): Option<string> {
    if fileId.None? then None
    else
      match TabShowing(tabs, fileId.value)
      case Some(t) => OrAbsent(t.id)
      case None => None
  }

  /** `getActiveFile()`: the first file whose id is the active file id. */
  function ActiveFile(s: StoreState): Option<SolidityFile> {
    if s.activeFileId.None? then None
    else FileWithId(s.files, s.activeFileId.value)
  }

  /** `getFolderContents(folderPath)`: the files whose folder path is exactly that one. */
  function FolderContents(s: StoreState, folderPath: string): seq<SolidityFile> {
    Filter(s.files, (f: SolidityFile) => f.folderPath == Some(folderPath))
  }

  /** The key getFilesByFolder files a file under: its folder path, or `root`. */
  function GroupKey(f: SolidityFile): string {
    if Truthy(f.folderPath) then f.folderPath.value else "root"
  }

  /** The object getFilesByFolder builds: each file in turn is appended to the list
      under its key, which is created empty on first use. */
  function FilesByFolder(files: seq<SolidityFile>): map<string, seq<SolidityFile>> {
    if files == [] then map[]
    else
      var g := FilesByFolder(files[..|files| - 1]);
      var f := files[|files| - 1];
      var k := GroupKey(f);
      g[k := (if k in g then g[k] else []) + [f]]
  }

  // ---------------------------------------------------------------- file actions

  /** createFile(name, content, folderPath); an omitted content or folder path is `""`. */
  function CreateFile(s: StoreState, id: string, name: string, content: string, folderPath: string): StoreState {
    var newFile := SolidityFile(id, CreateFileName(name),
      if content != "" then content else NewContractSource(name), false, OrAbsent(folderPath));
    var files := s.files + [newFile];
    s.(files := files, fileTree := TreeOf(files, true))
  }

  /** uploadFile(name, content, folderPath): the file is added and opened in a new tab. */
  function UploadFile(s: StoreState, id: string, tabId: string, name: string, content: string, folderPath: string): StoreState {
    var fileName := SolName(name);
    var files := s.files + [SolidityFile(id, fileName, content, false, OrAbsent(folderPath))];
    s.(files := files, fileTree := TreeOf(files, true),
       openTabs := s.openTabs + [Tab(tabId, id, fileName, None, None)],
       activeTabId := Some(tabId), activeFileId := Some(id))
  }

  /** One element of uploadFilesWithFolders' argument. */
  datatype Upload = Upload(name: string, content: string, folderPath: Option<string>)

  /** The file record uploadFilesWithFolders makes for one upload. */
  function UploadedFile(u: Upload, id: string): SolidityFile {
    SolidityFile(id, SolName(u.name), u.content, false, OrAbsent(OrEmpty(u.folderPath)))
  }

  /** The tab record uploadFilesWithFolders makes for one upload. */
  function UploadedTab(u: Upload, id: string, tabId: string): Tab {
    Tab(tabId, id, SolName(u.name), None, None)
  }

  function UploadedFiles(us: seq<Upload>, ids: seq<string>): (r: seq<SolidityFile>)
    requires |ids| == |us|
    ensures |r| == |us|
    ensures forall i :: 0 <= i < |us| ==> r[i] == UploadedFile(us[i], ids[i])
  {
    seq(|us|, i requires 0 <= i < |us| => UploadedFile(us[i], ids[i]))
  }

  function UploadedTabs(us: seq<Upload>, ids: seq<string>, tabIds: seq<string>): (r: seq<Tab>)
    requires |ids| == |us| && |tabIds| == |us|
    ensures |r| == |us|
    ensures forall i :: 0 <= i < |us| ==> r[i] == UploadedTab(us[i], ids[i], tabIds[i])
  {
    seq(|us|, i requires 0 <= i < |us| => UploadedTab(us[i], ids[i], tabIds[i]))
  }

  /** The `set` of uploadFilesWithFolders, given the records its loop built. */
  function UploadFilesWithFolders(s: StoreState, newFiles: seq<SolidityFile>, newTabs: seq<Tab>): StoreState {
    var files := s.files + newFiles;
    s.(files := files, fileTree := TreeOf(files, true),
       openTabs := if |s.openTabs| == 0 then newTabs else s.openTabs + newTabs,
       activeTabId := OrElse(if |newTabs| > 0 then Some(newTabs[0].id) else None, s.activeTabId),
       activeFileId := OrElse(if |newFiles| > 0 then Some(newFiles[0].id) else None, s.activeFileId))
  }

  function FilesWithout(files: seq<SolidityFile>, id: string): seq<SolidityFile> {
    Filter(files, (f: SolidityFile) => f.id != id)
  }

  function TabsWithoutFile(tabs: seq<Tab>, id: string): seq<Tab> {
    Filter(tabs, (t: Tab) => t.fileId != id)
  }

  /** `fileTree.filter(f => f.fileId !== id)`: only the top-level nodes are looked at. */
  function NodesWithoutFile(nodes: seq<FileNode>, id: string): seq<FileNode> {
    Filter(nodes, (n: FileNode) => n.fileId != Some(id))
  }

  /** deleteFile's new active tab: the first remaining tab if the active tab showed
      the deleted file, else the old active tab. */
  function ActiveTabAfterDelete(tabs: seq<Tab>, newTabs: seq<Tab>, active: Option<string>, id: string): Option<string> {
    if Truthy(active) && FileOfTab(tabs, active.value) == Some(id)
    then (if |newTabs| > 0 then OrAbsent(newTabs[0].id) else None)
    else active
  }

  /** deleteFile(id). */
  function DeleteFile(s: StoreState, id: string): StoreState {
    var newTabs := TabsWithoutFile(s.openTabs, id);
    var newActiveTabId := ActiveTabAfterDelete(s.openTabs, newTabs, s.activeTabId, id);
    s.(files := FilesWithout(s.files, id),
       fileTree := NodesWithoutFile(s.fileTree, id),
       openTabs := newTabs,
       activeTabId := newActiveTabId,
       activeFileId := ActiveFileOf(newTabs, newActiveTabId))
  }

  function RenamedFile(f: SolidityFile, id: string, fileName: string): SolidityFile {
    if f.id == id then f.(name := fileName) else f
  }

  function RenamedNode(n: FileNode, id: string, fileName: string): FileNode {
    if n.fileId == Some(id) then n.(name := fileName) else n
  }

  function RenamedTab(t: Tab, id: string, fileName: string): Tab {
    if t.fileId == id then t.(fileName := fileName) else t
  }

  function RenameInFiles(files: seq<SolidityFile>, id: string, fileName: string): seq<SolidityFile> {
    Map(files, (f: SolidityFile) => RenamedFile(f, id, fileName))
  }

  /** Only the top-level nodes are looked at. */
  function RenameInTree(nodes: seq<FileNode>, id: string, fileName: string): seq<FileNode> {
    Map(nodes, (n: FileNode) => RenamedNode(n, id, fileName))
  }

  function RenameInTabs(tabs: seq<Tab>, id: string, fileName: string): seq<Tab> {
    Map(tabs, (t: Tab) => RenamedTab(t, id, fileName))
  }

  /** renameFile(id, newName). */
  function RenameFile(s: StoreState, id: string, newName: string): StoreState {
    var fileName := SolName(newName);
    s.(files := RenameInFiles(s.files, id, fileName),
       fileTree := RenameInTree(s.fileTree, id, fileName),
       openTabs := RenameInTabs(s.openTabs, id, fileName))
  }

  function WithContent(f: SolidityFile, id: string, content: string): SolidityFile {
    if f.id == id then f.(content := content, isModified := true) else f
  }

  function SetContent(files: seq<SolidityFile>, id: string, content: string): seq<SolidityFile> {
    Map(files, (f: SolidityFile) => WithContent(f, id, content))
  }

  /** updateFileContent(id, content). */
  function UpdateFileContent(s: StoreState, id: string, content: string): StoreState {
    s.(files := SetContent(s.files, id, content))
  }

  function Saved(f: SolidityFile, id: string): SolidityFile {
    if f.id == id then f.(isModified := false) else f
  }

  function SetSaved(files: seq<SolidityFile>, id: string): seq<SolidityFile> {
    Map(files, (f: SolidityFile) => Saved(f, id))
  }

  /** saveFile(id). */
  function SaveFile(s: StoreState, id: string): StoreState {
    s.(files := SetSaved(s.files, id))
  }

  // ---------------------------------------------------------------- tab actions

  /** openFile(id); `tabId` is the id generated for a new tab. */
  function OpenFile(s: StoreState, id: string, tabId: string): StoreState {
    match FileWithId(s.files, id)
    case None => s
    case Some(file) =>
      match TabShowing(s.openTabs, id)
      case Some(existing) => s.(activeTabId := Some(existing.id), activeFileId := Some(id))
      case None =>
        s.(openTabs := s.openTabs + [Tab(tabId, id, file.name, None, None)],
           activeTabId := Some(tabId), activeFileId := Some(id))
  }

  /** `Math.max(0, i - 1)`. */
  function NeighbourIndex(i: int): nat {
    if i - 1 > 0 then i - 1 else 0
  }

  /** `tabs.findIndex(t => t.id === tabId)`. */
  function TabIndex(tabs: seq<Tab>, tabId: string): int {
    FindIndex(tabs, (t: Tab) => t.id == tabId)
  }

  function TabsWithoutId(tabs: seq<Tab>, tabId: string): seq<Tab> {
    Filter(tabs, (t: Tab) => t.id != tabId)
  }

  /** closeTab's new active tab: if the closed tab was active, the remaining tab at
      `max(0, index - 1)`, else the old active tab. */
  function ActiveTabAfterClose(tabs: seq<Tab>, newTabs: seq<Tab>, active: Option<string>, tabId: string): Option<string> {
    var j := NeighbourIndex(TabIndex(tabs, tabId));
    if active == Some(tabId)
    then (if j < |newTabs| then OrAbsent(newTabs[j].id) else None)
    else active
  }

  /** closeTab(tabId). */
  function CloseTab(s: StoreState, tabId: string): StoreState {
    var newTabs := TabsWithoutId(s.openTabs, tabId);
    var newActiveTabId := ActiveTabAfterClose(s.openTabs, newTabs, s.activeTabId, tabId);
    s.(openTabs := newTabs, activeTabId := newActiveTabId,
       activeFileId := ActiveFileOf(newTabs, newActiveTabId))
  }

  /** setActiveTab(tabId): only a tab that exists becomes active. */
  function SetActiveTab(s: StoreState, tabId: string): StoreState {
    match TabWithId(s.openTabs, tabId)
    case Some(t) => s.(activeTabId := Some(tabId), activeFileId := Some(t.fileId))
    case None => s
  }

  /** The `[property]: value` part of updateTabProperty: one property of a tab with its new value. */
  datatype TabProperty =
    | TabIdValue(id: string)
    | FileIdValue(fileId: string)
    | FileNameValue(fileName: string)
    | PinnedValue(isPinned: Option<bool>)
    | GroupValue(group: Option<string>)

  function WithProperty(t: Tab, p: TabProperty): Tab {
    match p
    case TabIdValue(v) => t.(id := v)
    case FileIdValue(v) => t.(fileId := v)
    case FileNameValue(v) => t.(fileName := v)
    case PinnedValue(v) => t.(isPinned := v)
    case GroupValue(v) => t.(group := v)
  }

  function TabUpdated(t: Tab, tabId: string, p: TabProperty): Tab {
    if t.id == tabId then WithProperty(t, p) else t
  }

  function UpdateTabs(tabs: seq<Tab>, tabId: string, p: TabProperty): seq<Tab> {
    Map(tabs, (t: Tab) => TabUpdated(t, tabId, p))
  }

  /** updateTabProperty(tabId, property, value). */
  function UpdateTabProperty(s: StoreState, tabId: string, p: TabProperty): StoreState {
    s.(openTabs := UpdateTabs(s.openTabs, tabId, p))
  }

  // ---------------------------------------------------------------- panels and settings

  function ToggleSidebar(s: StoreState): StoreState {
    s.(isSidebarOpen := !s.isSidebarOpen)
  }

  function ToggleAIPanel(s: StoreState): StoreState {
    s.(isAIPanelOpen := !s.isAIPanelOpen)
  }

  function ToggleSettings(s: StoreState): StoreState {
    s.(isSettingsOpen := !s.isSettingsOpen)
  }

  function SetIsGenerating(s: StoreState, value: bool): StoreState {
    s.(isGenerating := value)
  }

  /** A `Partial<EditorSettings>`: the keys present and their values. */
  datatype EditorSettingsPatch = EditorSettingsPatch(
    theme: Option<Theme>,
    fontSize: Option<int>,
    tabSize: Option<int>,
    wordWrap: Option<bool>,
    lineNumbers: Option<bool>,
    autoSave: Option<bool>)

  /** A `Partial<AICommentSettings>`. */
  datatype AISettingsPatch = AISettingsPatch(
    outputMode: Option<OutputMode>,
    commentStyle: Option<CommentStyle>,
    includeParamDocs: Option<bool>,
    includeReturnDocs: Option<bool>,
    includeDevNotes: Option<bool>,
    scanVulnerabilities: Option<bool>,
    language: Option<string>)

  /** The value of one key after a spread: the patch's if present, else the old one. */
  function Pick<T>(patch: Option<T>, old_: T): T {
    if patch.Some? then patch.value else old_
  }

  /** `{ ...settings, ...patch }`. */
  function MergeEditorSettings(e: EditorSettings, p: EditorSettingsPatch): EditorSettings {
    EditorSettings(Pick(p.theme, e.theme), Pick(p.fontSize, e.fontSize), Pick(p.tabSize, e.tabSize),
      Pick(p.wordWrap, e.wordWrap), Pick(p.lineNumbers, e.lineNumbers), Pick(p.autoSave, e.autoSave))
  }

  /** `{ ...settings, ...patch }`. */
  function MergeAISettings(a: AICommentSettings, p: AISettingsPatch): AICommentSettings {
    AICommentSettings(Pick(p.outputMode, a.outputMode), Pick(p.commentStyle, a.commentStyle),
      Pick(p.includeParamDocs, a.includeParamDocs), Pick(p.includeReturnDocs, a.includeReturnDocs),
      Pick(p.includeDevNotes, a.includeDevNotes), Pick(p.scanVulnerabilities, a.scanVulnerabilities),
      Pick(p.language, a.language))
  }

  function UpdateEditorSettings(s: StoreState, p: EditorSettingsPatch): StoreState {
    s.(editorSettings := MergeEditorSettings(s.editorSettings, p))
  }

  function UpdateAISettings(s: StoreState, p: AISettingsPatch): StoreState {
    s.(aiSettings := MergeAISettings(s.aiSettings, p))
  }

  // ---------------------------------------------------------------- folder actions

  /** deleteFolder's and renameFolder's membership test on a file's folder path. */
  predicate UnderFolder(f: SolidityFile, path: string) {
    var p := OrEmpty(f.folderPath);
    p == path || StartsWith(p, path + "/")
  }

  /** The ids of the files deleteFolder deletes. */
  function FolderFileIds(files: seq<SolidityFile>, path: string): set<string> {
    set i | 0 <= i < |files| && UnderFolder(files[i], path) :: files[i].id
  }

  function FilesOutside(files: seq<SolidityFile>, ids: set<string>): seq<SolidityFile> {
    Filter(files, (f: SolidityFile) => f.id !in ids)
  }

  function TabsOutside(tabs: seq<Tab>, ids: set<string>): seq<Tab> {
    Filter(tabs, (t: Tab) => t.fileId !in ids)
  }

  /** deleteFolder's new active file: the first remaining file if the active file was
      deleted, else the old active file. */
  function ActiveFileAfterFolderDelete(active: Option<string>, ids: set<string>, newFiles: seq<SolidityFile>): Option<string> {
    if Truthy(active) && active.value in ids
    then (if |newFiles| > 0 then OrAbsent(newFiles[0].id) else None)
    else active
  }

  /** deleteFolder(folderPath).  Every file sharing an id with a file of the folder goes too. */
  function DeleteFolder(s: StoreState, path: string): StoreState {
    var ids := FolderFileIds(s.files, path);
    var newTabs := TabsOutside(s.openTabs, ids);
    var newFiles := FilesOutside(s.files, ids);
    var newActiveFileId := ActiveFileAfterFolderDelete(s.activeFileId, ids, newFiles);
    s.(files := newFiles, fileTree := TreeOf(newFiles, false), openTabs := newTabs,
       activeFileId := newActiveFileId, activeTabId := TabOfFile(newTabs, newActiveFileId))
  }

  /** The path renameFolder moves a folder to. */
  function RenamedPath(parentPath: Option<string>, newName: string): string {
    if Truthy(parentPath) then parentPath.value + "/" + newName else newName
  }

  /** One file under renameFolder: the folder itself is replaced by the new path and
      the part after the old prefix is kept. */
  function MovedFile(f: SolidityFile, oldPath: string, newPath: string): SolidityFile {
    var p := OrEmpty(f.folderPath);
    if p == oldPath then f.(folderPath := Some(newPath))
    else if StartsWith(p, oldPath + "/") then f.(folderPath := Some(newPath + "/" + p[|oldPath| + 1..]))
    else f
  }

  function MoveFiles(files: seq<SolidityFile>, oldPath: string, newPath: string): seq<SolidityFile> {
    Map(files, (f: SolidityFile) => MovedFile(f, oldPath, newPath))
  }

  /** renameFolder(oldPath, newName); `parentPath` is `getParentFolderPath(oldPath)`. */
  function RenameFolder(s: StoreState, oldPath: string, newName: string, parentPath: Option<string>): StoreState {
    var newPath := RenamedPath(parentPath, newName);
    var newFiles := MoveFiles(s.files, oldPath, newPath);
    s.(files := newFiles, fileTree := TreeOf(newFiles, false))
  }
}
