/**
  The consistency of tabs, files and active ids that the workspace store's
  actions keep: every tab shows an existing file, ids are non-empty, tab ids
  are distinct, and the active file is the file of the active tab.  Generated
  ids are fresh and non-empty.  deleteFolder keeps the first three but can
  leave an active file without a tab.
*/
module IdeStoreCoherence {
  import opened Optional
  import opened JsString
  import opened Seqs
  import opened IdeTypes
  import opened FileTree
  import opened IdeStore

  // ---------------------------------------------------------------- lookups

  predicate TabIdsDistinct(tabs: seq<Tab>) {
    forall i, j :: 0 <= i < j < |tabs| ==> tabs[i].id != tabs[j].id
  }

  /** With distinct tab ids, looking a tab up by its id finds that tab. */
  lemma TabWithIdAt(tabs: seq<Tab>, i: nat)
    requires TabIdsDistinct(tabs) && i < |tabs|
    ensures TabWithId(tabs, tabs[i].id) == Some(tabs[i])
  {
    var k := FindIndex(tabs, (t: Tab) => t.id == tabs[i].id);
    assert k >= 0 && k <= i;
  }

  /** The active file the store derives from a non-empty tab id is that tab's file. */
  lemma ActiveFileOfAt(tabs: seq<Tab>, i: nat)
    requires TabIdsDistinct(tabs) && i < |tabs| && tabs[i].id != "" && tabs[i].fileId != ""
    ensures ActiveFileOf(tabs, Some(tabs[i].id)) == Some(tabs[i].fileId)
  {
    TabWithIdAt(tabs, i);
  }

  /** Whatever tab the active file is derived from, that tab exists and shows it. */
  lemma ActiveFileOfSome(tabs: seq<Tab>, active: Option<string>)
    ensures ActiveFileOf(tabs, active).Some? ==>
      exists i :: 0 <= i < |tabs| && Some(tabs[i].id) == active && Some(tabs[i].fileId) == ActiveFileOf(tabs, active)
  {
    if ActiveFileOf(tabs, active).Some? {
      var k := FindIndex(tabs, (t: Tab) => t.id == active.value);
      assert tabs[k].id == active.value;
    }
  }

  /** A file that exists still exists once more files are appended. */
  lemma HasFileAppend(files: seq<SolidityFile>, more: seq<SolidityFile>, id: string)
    requires HasFile(files, id)
    ensures HasFile(files + more, id)
  {
    var j :| 0 <= j < |files| && files[j].id == id;
    assert (files + more)[j] == files[j];
  }

  /** Changing files without changing their ids keeps the same ids present. */
  lemma HasFileSameIds(files: seq<SolidityFile>, files': seq<SolidityFile>, id: string)
    requires |files'| == |files| && forall i :: 0 <= i < |files| ==> files'[i].id == files[i].id
    ensures HasFile(files', id) <==> HasFile(files, id)
  {
    if HasFile(files, id) {
      var j :| 0 <= j < |files| && files[j].id == id;
      assert files'[j].id == id;
    }
  }

  // ---------------------------------------------------------------- consistency

  /** Every tab shows an existing file, file and tab ids are non-empty and tab ids are distinct. */
  predicate ValidTabs(files: seq<SolidityFile>, tabs: seq<Tab>) {
    (forall i :: 0 <= i < |files| ==> files[i].id != "")
    && (forall i :: 0 <= i < |tabs| ==> tabs[i].id != "" && HasFile(files, tabs[i].fileId))
    && TabIdsDistinct(tabs)
  }

  predicate TabsValid(s: StoreState) {
    ValidTabs(s.files, s.openTabs)
  }

  /** On top of that, the active file is the file of the active tab, as the store derives it. */
  predicate Coherent(s: StoreState) {
    TabsValid(s) && s.activeFileId == ActiveFileOf(s.openTabs, s.activeTabId)
  }

  /** A tab of a valid state shows a file with a non-empty id. */
  lemma TabFileNonEmpty(s: StoreState, i: nat)
    requires TabsValid(s) && i < |s.openTabs|
    ensures s.openTabs[i].fileId != ""
  {
    var j :| 0 <= j < |s.files| && s.files[j].id == s.openTabs[i].fileId;
  }

  lemma InitialCoherent(simpleStorageSource: string, tokenSource: string)
    ensures Coherent(Initial(simpleStorageSource, tokenSource))
  {
    var s := Initial(simpleStorageSource, tokenSource);
    assert s.files[0].id == "file-1";
    ActiveFileOfAt(s.openTabs, 0);
  }

  // ---------------------------------------------------------------- consistency kept by the file actions

  lemma CreateFileCoherent(s: StoreState, id: string, name: string, content: string, folderPath: string)
    requires Coherent(s) && id != ""
    ensures Coherent(CreateFile(s, id, name, content, folderPath))
  {
    var r := CreateFile(s, id, name, content, folderPath);
    forall i | 0 <= i < |r.openTabs| ensures HasFile(r.files, r.openTabs[i].fileId) {
      HasFileAppend(s.files, r.files[|s.files|..], s.openTabs[i].fileId);
      assert s.files + r.files[|s.files|..] == r.files;
    }
  }

  /** uploadFile opens the new file in a tab of its own, so the new active tab shows
      the new active file; `tabId` is a fresh id. */
  lemma UploadFileCoherent(s: StoreState, id: string, tabId: string, name: string, content: string, folderPath: string)
    requires Coherent(s) && id != "" && tabId != ""
    requires forall i :: 0 <= i < |s.openTabs| ==> s.openTabs[i].id != tabId
    ensures Coherent(UploadFile(s, id, tabId, name, content, folderPath))
  {
    var fileName := SolName(name);
    var f := SolidityFile(id, fileName, content, false, OrAbsent(folderPath));
    var t := Tab(tabId, id, fileName, None, None);
    AppendFileTabValid(s.files, s.openTabs, f, t);
    ActiveFileOfAt(s.openTabs + [t], |s.openTabs|);
  }

  /** A new file with a non-empty id, opened in a tab with a fresh non-empty id, keeps the tabs valid. */
  lemma AppendFileTabValid(files: seq<SolidityFile>, tabs: seq<Tab>, f: SolidityFile, t: Tab)
    requires ValidTabs(files, tabs) && f.id != "" && t.id != "" && t.fileId == f.id
    requires forall i :: 0 <= i < |tabs| ==> tabs[i].id != t.id
    ensures ValidTabs(files + [f], tabs + [t])
  {
    var files' := files + [f];
    forall i | 0 <= i < |tabs| ensures HasFile(files', tabs[i].fileId) {
      HasFileAppend(files, [f], tabs[i].fileId);
    }
    assert files'[|files|] == f;
    AppendTabValid(files', tabs, t);
  }

  /** A file list with the file of each id removed keeps every other file. */
  lemma HasFileWithout(files: seq<SolidityFile>, id: string, other: string)
    requires HasFile(files, other) && other != id
    ensures HasFile(FilesWithout(files, id), other)
  {
    var j :| 0 <= j < |files| && files[j].id == other;
    var r := FilesWithout(files, id);
    assert files[j] in r;
    var k :| 0 <= k < |r| && r[k] == files[j];
  }

  /** Filtering tabs keeps their ids distinct. */
  lemma {:induction false} DistinctFilter(tabs: seq<Tab>, p: Tab -> bool)
    requires TabIdsDistinct(tabs)
    ensures TabIdsDistinct(Filter(tabs, p))
  {
    if tabs != [] {
      var rest := tabs[1..];
      DistinctFilter(rest, p);
      if p(tabs[0]) {
        FirstIdUnique(tabs, Filter(rest, p));
      }
    }
  }

  /** The first tab's id is not among those of a selection of the other tabs. */
  lemma FirstIdUnique(tabs: seq<Tab>, t: seq<Tab>)
    requires TabIdsDistinct(tabs) && |tabs| > 0 && TabIdsDistinct(t)
    requires forall j :: 0 <= j < |t| ==> t[j] in tabs[1..]
    ensures TabIdsDistinct([tabs[0]] + t)
  {
    forall j | 0 <= j < |t| ensures t[j].id != tabs[0].id {
      var k :| 0 <= k < |tabs[1..]| && tabs[1..][k] == t[j];
      assert tabs[k + 1] == t[j];
    }
    var r := [tabs[0]] + t;
    forall i, j | 0 <= i < j < |r| ensures r[i].id != r[j].id {
      assert r[j] == t[j - 1];
      if i > 0 {
        assert r[i] == t[i - 1];
      }
    }
  }

  lemma DeleteFileCoherent(s: StoreState, id: string)
    requires TabsValid(s)
    ensures Coherent(DeleteFile(s, id))
  {
    var r := DeleteFile(s, id);
    forall i | 0 <= i < |r.files| ensures r.files[i].id != "" {
      assert r.files[i] in s.files;
    }
    forall i | 0 <= i < |r.openTabs| ensures r.openTabs[i].id != "" && HasFile(r.files, r.openTabs[i].fileId) {
      var t := r.openTabs[i];
      var k :| 0 <= k < |s.openTabs| && s.openTabs[k] == t;
      HasFileWithout(s.files, id, t.fileId);
    }
    DistinctFilter(s.openTabs, (t: Tab) => t.fileId != id);
  }

  /** The active file derived from tabs depends only on their ids and file ids. */
  lemma ActiveFileOfSameIds(tabs: seq<Tab>, tabs': seq<Tab>, active: Option<string>)
    requires |tabs'| == |tabs|
    requires forall i :: 0 <= i < |tabs| ==> tabs'[i].id == tabs[i].id && tabs'[i].fileId == tabs[i].fileId
    ensures ActiveFileOf(tabs', active) == ActiveFileOf(tabs, active)
  {
    if active.Some? {
      FindIndexSame(tabs, (t: Tab) => t.id == active.value, tabs', (t: Tab) => t.id == active.value);
    }
  }

  /** An update that keeps the tabs and the active ids and changes files without
      changing their ids keeps a coherent state coherent. */
  lemma SameIdsCoherent(s: StoreState, r: StoreState)
    requires Coherent(s)
    requires r.openTabs == s.openTabs && r.activeTabId == s.activeTabId && r.activeFileId == s.activeFileId
    requires |r.files| == |s.files| && forall i :: 0 <= i < |s.files| ==> r.files[i].id == s.files[i].id
    ensures Coherent(r)
  {
    forall i | 0 <= i < |r.openTabs| ensures HasFile(r.files, r.openTabs[i].fileId) {
      HasFileSameIds(s.files, r.files, r.openTabs[i].fileId);
    }
  }

  /** The map-style file updates keep every file's id where it was. */
  lemma FileUpdatesKeepIds(files: seq<SolidityFile>, id: string, x: string, oldPath: string, newPath: string)
    ensures |RenameInFiles(files, id, x)| == |files| && forall i :: 0 <= i < |files| ==> RenameInFiles(files, id, x)[i].id == files[i].id
    ensures |SetContent(files, id, x)| == |files| && forall i :: 0 <= i < |files| ==> SetContent(files, id, x)[i].id == files[i].id
    ensures |SetSaved(files, id)| == |files| && forall i :: 0 <= i < |files| ==> SetSaved(files, id)[i].id == files[i].id
    ensures |MoveFiles(files, oldPath, newPath)| == |files| && forall i :: 0 <= i < |files| ==> MoveFiles(files, oldPath, newPath)[i].id == files[i].id
  {
  }

  /** Renaming a file's tabs, or setting a tab's name, pin or group, keeps every tab's
      id and file id where they were. */
  lemma TabUpdatesKeepIds(tabs: seq<Tab>, id: string, fileName: string, tabId: string, p: TabProperty)
    requires p.FileNameValue? || p.PinnedValue? || p.GroupValue?
    ensures |RenameInTabs(tabs, id, fileName)| == |tabs|
    ensures forall i :: 0 <= i < |tabs| ==>
      RenameInTabs(tabs, id, fileName)[i].id == tabs[i].id && RenameInTabs(tabs, id, fileName)[i].fileId == tabs[i].fileId
    ensures |UpdateTabs(tabs, tabId, p)| == |tabs|
    ensures forall i :: 0 <= i < |tabs| ==>
      UpdateTabs(tabs, tabId, p)[i].id == tabs[i].id && UpdateTabs(tabs, tabId, p)[i].fileId == tabs[i].fileId
  {
  }

  /** Tabs with the same ids and file ids as those of a valid state are valid in its place. */
  lemma SameTabIdsCoherent(s: StoreState, tabs: seq<Tab>)
    requires Coherent(s)
    requires |tabs| == |s.openTabs|
    requires forall i :: 0 <= i < |tabs| ==> tabs[i].id == s.openTabs[i].id && tabs[i].fileId == s.openTabs[i].fileId
    ensures Coherent(s.(openTabs := tabs))
  {
    ActiveFileOfSameIds(s.openTabs, tabs, s.activeTabId);
    assert TabIdsDistinct(tabs);
  }

  lemma RenameFileCoherent(s: StoreState, id: string, newName: string)
    requires Coherent(s)
    ensures Coherent(RenameFile(s, id, newName))
  {
    var r := RenameFile(s, id, newName);
    FileUpdatesKeepIds(s.files, id, SolName(newName), "", "");
    TabUpdatesKeepIds(s.openTabs, id, SolName(newName), "", PinnedValue(None));
    var m := s.(files := r.files);
    SameIdsCoherent(s, m);
    SameTabIdsCoherent(m, r.openTabs);
    assert r == m.(openTabs := r.openTabs, fileTree := r.fileTree);
  }

  lemma UpdateFileContentCoherent(s: StoreState, id: string, content: string)
    requires Coherent(s)
    ensures Coherent(UpdateFileContent(s, id, content))
  {
    FileUpdatesKeepIds(s.files, id, content, "", "");
    SameIdsCoherent(s, UpdateFileContent(s, id, content));
  }

  lemma SaveFileCoherent(s: StoreState, id: string)
    requires Coherent(s)
    ensures Coherent(SaveFile(s, id))
  {
    FileUpdatesKeepIds(s.files, id, "", "", "");
    SameIdsCoherent(s, SaveFile(s, id));
  }

  lemma RenameFolderCoherent(s: StoreState, oldPath: string, newName: string, parentPath: Option<string>)
    requires Coherent(s)
    ensures Coherent(RenameFolder(s, oldPath, newName, parentPath))
  {
    FileUpdatesKeepIds(s.files, "", "", oldPath, RenamedPath(parentPath, newName));
    SameIdsCoherent(s, RenameFolder(s, oldPath, newName, parentPath));
  }

  /** The panel toggles and the settings leave tabs and files alone. */
  lemma PanelsCoherent(s: StoreState, value: bool, e: EditorSettingsPatch, a: AISettingsPatch)
    requires Coherent(s)
    ensures Coherent(ToggleSidebar(s)) && Coherent(ToggleAIPanel(s)) && Coherent(ToggleSettings(s))
    ensures Coherent(SetIsGenerating(s, value))
    ensures Coherent(UpdateEditorSettings(s, e)) && Coherent(UpdateAISettings(s, a))
  {
  }

  // ---------------------------------------------------------------- consistency kept by the tab actions

  /** openFile with a fresh, non-empty id for a new tab. */
  lemma OpenFileCoherent(s: StoreState, id: string, tabId: string)
    requires Coherent(s) && tabId != ""
    requires forall i :: 0 <= i < |s.openTabs| ==> s.openTabs[i].id != tabId
    ensures Coherent(OpenFile(s, id, tabId))
  {
    if FileWithId(s.files, id).Some? {
      if TabShowing(s.openTabs, id).Some? {
        OpenFileExistingCoherent(s, id);
      } else {
        OpenFileNewCoherent(s, id, tabId);
      }
    }
  }

  lemma OpenFileExistingCoherent(s: StoreState, id: string)
    requires Coherent(s) && TabShowing(s.openTabs, id).Some?
    ensures Coherent(s.(activeTabId := Some(TabShowing(s.openTabs, id).value.id), activeFileId := Some(id)))
  {
    var j := FindIndex(s.openTabs, (t: Tab) => t.fileId == id);
    TabFileNonEmpty(s, j);
    ActiveFileOfAt(s.openTabs, j);
  }

  lemma OpenFileNewCoherent(s: StoreState, id: string, tabId: string)
    requires Coherent(s) && tabId != "" && FileWithId(s.files, id).Some?
    requires forall i :: 0 <= i < |s.openTabs| ==> s.openTabs[i].id != tabId
    ensures var tabs := s.openTabs + [Tab(tabId, id, FileWithId(s.files, id).value.name, None, None)];
      Coherent(s.(openTabs := tabs, activeTabId := Some(tabId), activeFileId := Some(id)))
  {
    var k := FindIndex(s.files, (f: SolidityFile) => f.id == id);
    assert s.files[k].id == id != "";
    var t := Tab(tabId, id, FileWithId(s.files, id).value.name, None, None);
    AppendTabValid(s.files, s.openTabs, t);
    ActiveFileOfAt(s.openTabs + [t], |s.openTabs|);
  }

  /** A new tab on an existing file, with a fresh non-empty id, keeps the tabs valid. */
  lemma AppendTabValid(files: seq<SolidityFile>, tabs: seq<Tab>, t: Tab)
    requires ValidTabs(files, tabs) && t.id != "" && HasFile(files, t.fileId)
    requires forall i :: 0 <= i < |tabs| ==> tabs[i].id != t.id
    ensures ValidTabs(files, tabs + [t])
  {
    var tabs' := tabs + [t];
    forall i, j | 0 <= i < j < |tabs'| ensures tabs'[i].id != tabs'[j].id {
      assert tabs'[i] == tabs[i];
    }
  }

  lemma CloseTabCoherent(s: StoreState, tabId: string)
    requires TabsValid(s)
    ensures Coherent(CloseTab(s, tabId))
  {
    DistinctFilter(s.openTabs, (t: Tab) => t.id != tabId);
  }

  lemma SetActiveTabCoherent(s: StoreState, tabId: string)
    requires Coherent(s)
    ensures Coherent(SetActiveTab(s, tabId))
  {
    if TabWithId(s.openTabs, tabId).Some? {
      var j := FindIndex(s.openTabs, (t: Tab) => t.id == tabId);
      TabFileNonEmpty(s, j);
      ActiveFileOfAt(s.openTabs, j);
    }
  }

  /** Setting a tab's name, pin or group keeps the state coherent; setting its id or
      file id can break that and is not covered. */
  lemma UpdateTabPropertyCoherent(s: StoreState, tabId: string, p: TabProperty)
    requires Coherent(s) && (p.FileNameValue? || p.PinnedValue? || p.GroupValue?)
    ensures Coherent(UpdateTabProperty(s, tabId, p))
  {
    TabUpdatesKeepIds(s.openTabs, "", "", tabId, p);
    SameTabIdsCoherent(s, UpdateTabs(s.openTabs, tabId, p));
  }

  // ---------------------------------------------------------------- uploads and folders

  /** What uploadFilesWithFolders needs of its generated ids: non-empty, and the tab ids
      distinct and new. */
  predicate FreshUploadIds(s: StoreState, ids: seq<string>, tabIds: seq<string>) {
    (forall i :: 0 <= i < |ids| ==> ids[i] != "")
    && (forall i :: 0 <= i < |tabIds| ==> tabIds[i] != "")
    && (forall i, j :: 0 <= i < j < |tabIds| ==> tabIds[i] != tabIds[j])
    && (forall i, j :: 0 <= i < |s.openTabs| && 0 <= j < |tabIds| ==> s.openTabs[i].id != tabIds[j])
  }

  lemma UploadFilesCoherent(s: StoreState, us: seq<Upload>, ids: seq<string>, tabIds: seq<string>)
    requires |ids| == |us| && |tabIds| == |us|
    requires Coherent(s) && FreshUploadIds(s, ids, tabIds)
    ensures Coherent(UploadFilesWithFolders(s, UploadedFiles(us, ids), UploadedTabs(us, ids, tabIds)))
  {
    var fs, ts := UploadedFiles(us, ids), UploadedTabs(us, ids, tabIds);
    var r := UploadFilesWithFolders(s, fs, ts);
    assert r.openTabs == s.openTabs + ts by {
      if |s.openTabs| == 0 {
        assert s.openTabs + ts == ts;
      }
    }
    UploadedTabsValid(s, us, ids, tabIds);
    if |us| > 0 {
      ActiveFileOfAt(s.openTabs + ts, |s.openTabs|);
    } else {
      assert s.openTabs + ts == s.openTabs;
    }
  }

  lemma UploadedTabsValid(s: StoreState, us: seq<Upload>, ids: seq<string>, tabIds: seq<string>)
    requires |ids| == |us| && |tabIds| == |us|
    requires TabsValid(s) && FreshUploadIds(s, ids, tabIds)
    ensures TabsValid(s.(files := s.files + UploadedFiles(us, ids), openTabs := s.openTabs + UploadedTabs(us, ids, tabIds)))
  {
    var fs, ts := UploadedFiles(us, ids), UploadedTabs(us, ids, tabIds);
    AppendedTabsValid(s.files, s.openTabs, fs, ts);
  }

  /** Appending files with their own tabs, one tab per file, keeps the tabs valid when the
      new ids are non-empty and the new tab ids distinct and unused. */
  lemma AppendedTabsValid(files: seq<SolidityFile>, tabs: seq<Tab>, fs: seq<SolidityFile>, ts: seq<Tab>)
    requires ValidTabs(files, tabs)
    requires |ts| == |fs| && TabIdsDistinct(ts)
    requires forall i :: 0 <= i < |fs| ==> fs[i].id != "" && ts[i].id != "" && ts[i].fileId == fs[i].id
    requires forall i, j :: 0 <= i < |tabs| && 0 <= j < |ts| ==> tabs[i].id != ts[j].id
    ensures ValidTabs(files + fs, tabs + ts)
  {
    var files', tabs' := files + fs, tabs + ts;
    var n, m := |files|, |tabs|;
    forall i | 0 <= i < |tabs'| ensures tabs'[i].id != "" && HasFile(files', tabs'[i].fileId) {
      if i < m {
        assert tabs'[i] == tabs[i];
        HasFileAppend(files, fs, tabs[i].fileId);
      } else {
        assert tabs'[i] == ts[i - m];
        assert files'[n + i - m] == fs[i - m];
      }
    }
    forall i, j | 0 <= i < j < |tabs'| ensures tabs'[i].id != tabs'[j].id {
      if i >= m {
        assert tabs'[i] == ts[i - m] && tabs'[j] == ts[j - m];
      } else if j >= m {
        assert tabs'[i] == tabs[i] && tabs'[j] == ts[j - m];
      } else {
        assert tabs'[i] == tabs[i] && tabs'[j] == tabs[j];
      }
    }
    forall i | 0 <= i < |files'| ensures files'[i].id != "" {
      if i >= n {
        assert files'[i] == fs[i - n];
      } else {
        assert files'[i] == files[i];
      }
    }
  }

  lemma HasFileOutside(files: seq<SolidityFile>, ids: set<string>, other: string)
    requires HasFile(files, other) && other !in ids
    ensures HasFile(FilesOutside(files, ids), other)
  {
    var j :| 0 <= j < |files| && files[j].id == other;
    var r := FilesOutside(files, ids);
    assert files[j] in r;
    var k :| 0 <= k < |r| && r[k] == files[j];
  }

  /** deleteFolder keeps every tab on an existing file and the tab ids distinct. */
  lemma DeleteFolderTabsValid(s: StoreState, path: string)
    requires TabsValid(s)
    ensures TabsValid(DeleteFolder(s, path))
  {
    var ids := FolderFileIds(s.files, path);
    var files, tabs := FilesOutside(s.files, ids), TabsOutside(s.openTabs, ids);
    forall i | 0 <= i < |files| ensures files[i].id != "" {
      assert files[i] in s.files;
    }
    forall i | 0 <= i < |tabs| ensures tabs[i].id != "" && HasFile(files, tabs[i].fileId) {
      var k :| 0 <= k < |s.openTabs| && s.openTabs[k] == tabs[i];
      HasFileOutside(s.files, ids, tabs[i].fileId);
    }
    DistinctFilter(s.openTabs, (t: Tab) => t.fileId !in ids);
  }

  /** A state where deleteFolder leaves an active file that no tab shows: the active file
      moves to the first remaining file even when it has no tab. */
  function FolderExample(): StoreState {
    var a := SolidityFile("a", "A.sol", "", false, Some("x"));
    var b := SolidityFile("b", "B.sol", "", false, None);
    Initial("", "").(files := [a, b], openTabs := [Tab("t", "a", "A.sol", None, None)],
                     activeTabId := Some("t"), activeFileId := Some("a"))
  }

  lemma FolderExampleDeletes(files: seq<SolidityFile>)
    requires files == FolderExample().files
    ensures FolderFileIds(files, "x") == {"a"}
    ensures FilesOutside(files, {"a"}) == [files[1]]
  {
    assert UnderFolder(files[0], "x");
    assert !StartsWith("", "x/");
    assert !UnderFolder(files[1], "x");
    var p := (f: SolidityFile) => f.id !in {"a"};
    assert Filter(files[1..], p) == [files[1]] + Filter(files[2..], p);
  }

  lemma FolderExampleCoherent()
    ensures Coherent(FolderExample())
  {
    var s := FolderExample();
    ActiveFileOfAt(s.openTabs, 0);
    assert HasFile(s.files, "a") by {
      assert s.files[0].id == "a";
    }
  }

  lemma DeleteFolderCanLeaveActiveFileWithoutTab()
    ensures Coherent(FolderExample())
    ensures var r := DeleteFolder(FolderExample(), "x");
      r.activeFileId == Some("b") && r.activeTabId.None? && !Coherent(r)
  {
    var s := FolderExample();
    FolderExampleCoherent();
    FolderExampleDeletes(s.files);
    var ids := FolderFileIds(s.files, "x");
    var tabs := TabsOutside(s.openTabs, ids);
    var files := FilesOutside(s.files, ids);
    FilterNone(s.openTabs, (t: Tab) => t.fileId !in ids);
    assert tabs == [];
    var active := ActiveFileAfterFolderDelete(s.activeFileId, ids, files);
    assert active == Some("b");
    DeleteFolderParts(s, "x");
  }

  /** deleteFolder's tabs, active file and active tab, each from its own part of the computation. */
  lemma DeleteFolderParts(s: StoreState, path: string)
    ensures var ids := FolderFileIds(s.files, path);
      var r := DeleteFolder(s, path); var tabs := TabsOutside(s.openTabs, ids);
      var active := ActiveFileAfterFolderDelete(s.activeFileId, ids, FilesOutside(s.files, ids));
      r.openTabs == tabs && r.activeFileId == active && r.activeTabId == TabOfFile(tabs, active)
  {
  }

  /** In a coherent state getActiveFile finds the active file whenever there is one. */
  lemma ActiveFileFound(s: StoreState)
    requires Coherent(s) && s.activeFileId.Some?
    ensures ActiveFile(s).Some? && ActiveFile(s).value in s.files && ActiveFile(s).value.id == s.activeFileId.value
  {
    ActiveFileOfSome(s.openTabs, s.activeTabId);
  }
}
