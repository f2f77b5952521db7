/**
  The store object `useIDEStore`: its fields are replaced action by action.
  Each method updates the fields the source's `set` call names, and its
  postcondition ties the new state to the corresponding update in `IdeStore`
  applied to the old state, so every field it does not name is left alone.
  The explorer tree is rebuilt by running `BuildFileTree` (in `SetFiles`).
*/
module UseIdeStore {
  import opened Optional
  import opened JsString
  import opened Seqs
  import opened IdeTypes
  import opened FileTree
  import opened IdeStore

  class Store {
    var files: seq<SolidityFile>
    var fileTree: seq<FileNode>
    var openTabs: seq<Tab>
    var activeTabId: Option<string>
    var activeFileId: Option<string>
    var editorSettings: EditorSettings
    var aiSettings: AICommentSettings
    var isSidebarOpen: bool
    var isAIPanelOpen: bool
    var isSettingsOpen: bool
    var isGenerating: bool

    /** The store's fields as one value. */
    function State(): StoreState
      reads this
    {
      StoreState(files, fileTree, openTabs, activeTabId, activeFileId, editorSettings, aiSettings,
        isSidebarOpen, isAIPanelOpen, isSettingsOpen, isGenerating)
    }

    constructor (simpleStorageSource: string, tokenSource: string)
      ensures State() == Initial(simpleStorageSource, tokenSource)
    {
      files := [SolidityFile("file-1", "SimpleStorage.sol", simpleStorageSource, false, None),
                SolidityFile("file-2", "MyToken.sol", tokenSource, false, None)];
      fileTree := [FileNode("file-1", "SimpleStorage.sol", FileKind, NoChildren, Some("file-1")),
                   FileNode("file-2", "MyToken.sol", FileKind, NoChildren, Some("file-2"))];
      openTabs := [Tab("tab-1", "file-1", "SimpleStorage.sol", None, None)];
      activeTabId := Some("tab-1");
      activeFileId := Some("file-1");
      editorSettings := DEFAULT_EDITOR_SETTINGS;
      aiSettings := DEFAULT_AI_SETTINGS;
      isSidebarOpen := true;
      isAIPanelOpen := false;
      isSettingsOpen := false;
      isGenerating := false;
    }

    /** Replace the file list and rebuild the explorer tree from it. */
    method SetFiles(newFiles: seq<SolidityFile>, skipKeep: bool)
      modifies this
      ensures State() == old(State()).(files := newFiles, fileTree := TreeOf(newFiles, skipKeep))
    {
      var tree := BuildFileTree(newFiles, skipKeep);
      files, fileTree := newFiles, tree;
    }

    method CreateFile(id: string, name: string, content: string, folderPath: string)
      modifies this
      ensures State() == IdeStore.CreateFile(old(State()), id, name, content, folderPath)
    {
      var fileName := CreateFileName(name);
      var newFile := SolidityFile(id, fileName,
        if content != "" then content else NewContractSource(name), false, OrAbsent(folderPath));
      var newFiles := files + [newFile];
      SetFiles(newFiles, true);
    }

    method UploadFile(id: string, tabId: string, name: string, content: string, folderPath: string)
      modifies this
      ensures State() == IdeStore.UploadFile(old(State()), id, tabId, name, content, folderPath)
    {
      var fileName := SolName(name);
      var newFiles := files + [SolidityFile(id, fileName, content, false, OrAbsent(folderPath))];
      SetFiles(newFiles, true);
      openTabs := openTabs + [Tab(tabId, id, fileName, None, None)];
      activeTabId, activeFileId := Some(tabId), Some(id);
    }

    /** uploadFilesWithFolders: one generated file id and tab id per upload.  The
        records are built first, then handed to the state update. */
    method UploadFilesWithFolders(uploads: seq<Upload>, fileIds: seq<string>, tabIds: seq<string>)
      requires |fileIds| == |uploads| && |tabIds| == |uploads|
      modifies this
      ensures State() == IdeStore.UploadFilesWithFolders(old(State()),
        UploadedFiles(uploads, fileIds), UploadedTabs(uploads, fileIds, tabIds))
    {
      var newFileRecords, newTabRecords := UploadRecords(uploads, fileIds, tabIds);
      AddUploaded(newFileRecords, newTabRecords);
    }

    /** The `set` call of uploadFilesWithFolders. */
    method AddUploaded(newFileRecords: seq<SolidityFile>, newTabRecords: seq<Tab>)
      modifies this
      ensures State() == IdeStore.UploadFilesWithFolders(old(State()), newFileRecords, newTabRecords)
    {
      var allFiles := files + newFileRecords;
      var tabs := if |openTabs| == 0 then newTabRecords else openTabs + newTabRecords;
      var tabId := OrElse(if |newTabRecords| > 0 then Some(newTabRecords[0].id) else None, activeTabId);
      var fileId := OrElse(if |newFileRecords| > 0 then Some(newFileRecords[0].id) else None, activeFileId);
      SetFiles(allFiles, true);
      openTabs, activeTabId, activeFileId := tabs, tabId, fileId;
    }

    method DeleteFile(id: string)
      modifies this
      ensures State() == IdeStore.DeleteFile(old(State()), id)
    {
      var newTabs := TabsWithoutFile(openTabs, id);
      var newActiveTabId := ActiveTabAfterDelete(openTabs, newTabs, activeTabId, id);
      files := FilesWithout(files, id);
      fileTree := NodesWithoutFile(fileTree, id);
      openTabs := newTabs;
      activeTabId := newActiveTabId;
      activeFileId := ActiveFileOf(newTabs, newActiveTabId);
    }

    method RenameFile(id: string, newName: string)
      modifies this
      ensures State() == IdeStore.RenameFile(old(State()), id, newName)
    {
      var fileName := SolName(newName);
      files := RenameInFiles(files, id, fileName);
      fileTree := RenameInTree(fileTree, id, fileName);
      openTabs := RenameInTabs(openTabs, id, fileName);
    }

    method UpdateFileContent(id: string, content: string)
      modifies this
      ensures State() == IdeStore.UpdateFileContent(old(State()), id, content)
    {
      files := SetContent(files, id, content);
    }

    method SaveFile(id: string)
      modifies this
      ensures State() == IdeStore.SaveFile(old(State()), id)
    {
      files := SetSaved(files, id);
    }

    method OpenFile(id: string, tabId: string)
      modifies this
      ensures State() == IdeStore.OpenFile(old(State()), id, tabId)
    {
      var file := FileWithId(files, id);
      if file.None? {
        return;
      }
      var existingTab := TabShowing(openTabs, id);
      if existingTab.Some? {
        activeTabId, activeFileId := Some(existingTab.value.id), Some(id);
      } else {
        openTabs := openTabs + [Tab(tabId, id, file.value.name, None, None)];
        activeTabId, activeFileId := Some(tabId), Some(id);
      }
    }

    method CloseTab(tabId: string)
      modifies this
      ensures State() == IdeStore.CloseTab(old(State()), tabId)
    {
      var tabIndex := TabIndex(openTabs, tabId);
      var newTabs := TabsWithoutId(openTabs, tabId);
      var newActiveTabId := activeTabId;
      if activeTabId == Some(tabId) {
        var j := NeighbourIndex(tabIndex);
        newActiveTabId := if j < |newTabs| then OrAbsent(newTabs[j].id) else None;
      }
      openTabs := newTabs;
      activeTabId := newActiveTabId;
      activeFileId := ActiveFileOf(newTabs, newActiveTabId);
    }

    method SetActiveTab(tabId: string)
      modifies this
      ensures State() == IdeStore.SetActiveTab(old(State()), tabId)
    {
      var tab := TabWithId(openTabs, tabId);
      if tab.Some? {
        activeTabId, activeFileId := Some(tabId), Some(tab.value.fileId);
      }
    }

    method UpdateTabProperty(tabId: string, p: TabProperty)
      modifies this
      ensures State() == IdeStore.UpdateTabProperty(old(State()), tabId, p)
    {
      openTabs := UpdateTabs(openTabs, tabId, p);
    }

    method ToggleSidebar()
      modifies this
      ensures State() == IdeStore.ToggleSidebar(old(State()))
    {
      isSidebarOpen := !isSidebarOpen;
    }

    method ToggleAIPanel()
      modifies this
      ensures State() == IdeStore.ToggleAIPanel(old(State()))
    {
      isAIPanelOpen := !isAIPanelOpen;
    }

    method ToggleSettings()
      modifies this
      ensures State() == IdeStore.ToggleSettings(old(State()))
    {
      isSettingsOpen := !isSettingsOpen;
    }

    method SetIsGenerating(value: bool)
      modifies this
      ensures State() == IdeStore.SetIsGenerating(old(State()), value)
    {
      isGenerating := value;
    }

    method UpdateEditorSettings(p: EditorSettingsPatch)
      modifies this
      ensures State() == IdeStore.UpdateEditorSettings(old(State()), p)
    {
      editorSettings := MergeEditorSettings(editorSettings, p);
    }

    method UpdateAISettings(p: AISettingsPatch)
      modifies this
      ensures State() == IdeStore.UpdateAISettings(old(State()), p)
    {
      aiSettings := MergeAISettings(aiSettings, p);
    }

    method DeleteFolder(folderPath: string)
      modifies this
      ensures State() == IdeStore.DeleteFolder(old(State()), folderPath)
    {
      var ids := FolderFileIds(files, folderPath);
      var newTabs := TabsOutside(openTabs, ids);
      var newFiles := FilesOutside(files, ids);
      var newActiveFileId := ActiveFileAfterFolderDelete(activeFileId, ids, newFiles);
      SetFiles(newFiles, false);
      openTabs := newTabs;
      activeFileId := newActiveFileId;
      activeTabId := TabOfFile(newTabs, newActiveFileId);
    }

    /** `parentPath` is what `getParentFolderPath(oldPath)` returns. */
    method RenameFolder(oldPath: string, newName: string, parentPath: Option<string>)
      modifies this
      ensures State() == IdeStore.RenameFolder(old(State()), oldPath, newName, parentPath)
    {
      var newPath := RenamedPath(parentPath, newName);
      var newFiles := MoveFiles(files, oldPath, newPath);
      SetFiles(newFiles, false);
    }

    /** getActiveFile(): the first file carrying the active file id, if any. */
    function GetActiveFile(): (r: Option<SolidityFile>)
      reads this
      ensures r.Some? ==> r.value in files && activeFileId == Some(r.value.id)
      ensures r.None? ==> activeFileId.None? || !HasFile(files, activeFileId.value)
    {
      ActiveFile(State())
    }

    /** getFolderContents(folderPath): the files stored with exactly that folder path, in order. */
    function GetFolderContents(folderPath: string): (r: seq<SolidityFile>)
      reads this
      ensures forall i :: 0 <= i < |r| ==> r[i] in files && r[i].folderPath == Some(folderPath)
      ensures forall i :: 0 <= i < |files| && files[i].folderPath == Some(folderPath) ==> files[i] in r
    {
      FolderContents(State(), folderPath)
    }

    /** getFilesByFolder(): the `forEach` that files every file under its group key. */
    method GetFilesByFolder() returns (grouped: map<string, seq<SolidityFile>>)
      ensures grouped == FilesByFolder(files)
    {
      grouped := map[];
      var i := 0;
      while i < |files|
        invariant 0 <= i <= |files|
        invariant grouped == FilesByFolder(files[..i])
      {
        var file := files[i];
        var folder := GroupKey(file);
        var bucket := if folder in grouped then grouped[folder] else [];
        assert files[..i + 1][..i] == files[..i];
        grouped := grouped[folder := bucket + [file]];
        i := i + 1;
      }
      assert files[..i] == files;
    }
  }

  /** The `forEach` of uploadFilesWithFolders that pushes one file record and one tab
      record per upload. */
  method UploadRecords(uploads: seq<Upload>, fileIds: seq<string>, tabIds: seq<string>)
    returns (newFileRecords: seq<SolidityFile>, newTabRecords: seq<Tab>)
    requires |fileIds| == |uploads| && |tabIds| == |uploads|
    ensures newFileRecords == UploadedFiles(uploads, fileIds)
    ensures newTabRecords == UploadedTabs(uploads, fileIds, tabIds)
  {
    newFileRecords, newTabRecords := [], [];
    var i := 0;
    while i < |uploads|
      invariant 0 <= i <= |uploads|
      invariant |newFileRecords| == i && |newTabRecords| == i
      invariant forall j :: 0 <= j < i ==> newFileRecords[j] == UploadedFile(uploads[j], fileIds[j])
      invariant forall j :: 0 <= j < i ==> newTabRecords[j] == UploadedTab(uploads[j], fileIds[j], tabIds[j])
    {
      var u := uploads[i];
      var fileName := SolName(u.name);
      newFileRecords := newFileRecords + [SolidityFile(fileIds[i], fileName, u.content, false, OrAbsent(OrEmpty(u.folderPath)))];
      newTabRecords := newTabRecords + [Tab(tabIds[i], fileIds[i], fileName, None, None)];
      i := i + 1;
    }
  }
}
