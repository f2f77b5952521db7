/**
  What each action of the workspace store does, proved about the state updates
  in `IdeStore`: the file-name rules, the three cases of openFile, which tab closeTab removes and
  which it activates, what deleteFile forgets, what deleteFolder removes and
  renameFolder moves, the modified flag, the uploads and the settings merges.
*/
module IdeStoreActions {
  import opened Optional
  import opened JsString
  import opened Seqs
  import opened IdeTypes
  import opened FileTree
  import opened IdeStore

  // ---------------------------------------------------------------- file names

  /** The upload and rename rule always yields a `.sol` name that starts with the
      given one, and leaves the name alone exactly when it already ends in `.sol`. */
  lemma SolNameShape(name: string)
    ensures EndsWith(SolName(name), ".sol") && StartsWith(SolName(name), name)
    ensures |SolName(name)| <= |name| + 4
    ensures SolName(name) == name <==> EndsWith(name, ".sol")
  {
    if !EndsWith(name, ".sol") {
      var r := name + ".sol";
      assert r[|r| - 4..] == ".sol";
      assert r[..|name|] == name;
    }
  }

  lemma SolNameIdempotent(name: string)
    ensures SolName(SolName(name)) == SolName(name)
  {
    SolNameShape(name);
  }

  /** createFile's rule: the result ends in `.sol` unless the name is a `.keep` marker,
      and the name is kept exactly when it ends in `.sol` or contains `.keep`. */
  lemma CreateFileNameShape(name: string)
    ensures EndsWith(CreateFileName(name), ".sol") || Contains(name, ".keep")
    ensures StartsWith(CreateFileName(name), name) && |CreateFileName(name)| <= |name| + 4
    ensures CreateFileName(name) == name <==> (EndsWith(name, ".sol") || Contains(name, ".keep"))
  {
    SolNameShape(name);
  }

  /** Only the `.keep` exception tells the createFile rule from the upload rule. */
  lemma CreateFileNameIsSolName(name: string)
    ensures !Contains(name, ".keep") ==> CreateFileName(name) == SolName(name)
    ensures Contains(name, ".keep") ==> CreateFileName(name) == name
  {
  }

  /** The template's contract is named after the file: `Token.sol` gives `Token`, and
      `Token.v2.sol` gives `Token.v2`. */
  lemma ContractNameOfPlainName(base: string)
    requires !Contains(base, ".sol") && '/' !in base
    ensures ContractName(base + ".sol") == base
  {
    var s := base + ".sol";
    SolOnlyAtEnd(base);
    assert s[..|base|] == base;
    assert s[|base| + 4..] == "";
    assert ReplaceFirst(s, ".sol", "") == base;
    SplitWithout(base, '/');
  }

  // ---------------------------------------------------------------- openFile

  /** An id no file has changes nothing. */
  lemma OpenFileUnknown(s: StoreState, id: string, tabId: string)
    requires !HasFile(s.files, id)
    ensures OpenFile(s, id, tabId) == s
  {
  }

  /** A file that already has a tab: the first tab showing it becomes active and no tab is added. */
  lemma OpenFileAlreadyOpen(s: StoreState, id: string, tabId: string, j: nat)
    requires HasFile(s.files, id) && j < |s.openTabs| && s.openTabs[j].fileId == id
    ensures var r := OpenFile(s, id, tabId);
      r.(activeTabId := s.activeTabId, activeFileId := s.activeFileId) == s
      && r.activeFileId == Some(id)
      && exists k :: 0 <= k <= j && s.openTabs[k].fileId == id && r.activeTabId == Some(s.openTabs[k].id)
                    && forall m :: 0 <= m < k ==> s.openTabs[m].fileId != id
  {
    var k := FindIndex(s.openTabs, (t: Tab) => t.fileId == id);
    assert 0 <= k <= j;
  }

  /** A file without a tab: exactly one tab for it, named like the file, is appended and
      becomes active. */
  lemma OpenFileNewTab(s: StoreState, id: string, tabId: string)
    requires HasFile(s.files, id) && forall j :: 0 <= j < |s.openTabs| ==> s.openTabs[j].fileId != id
    ensures var r := OpenFile(s, id, tabId);
      var n := |s.openTabs|;
      r.(openTabs := s.openTabs, activeTabId := s.activeTabId, activeFileId := s.activeFileId) == s
      && |r.openTabs| == n + 1 && r.openTabs[..n] == s.openTabs
      && r.openTabs[n].id == tabId && r.openTabs[n].fileId == id
      && r.openTabs[n].isPinned.None? && r.openTabs[n].group.None?
      && (exists k :: 0 <= k < |s.files| && s.files[k].id == id && r.openTabs[n].fileName == s.files[k].name)
      && r.activeTabId == Some(tabId) && r.activeFileId == Some(id)
  {
    var k := FindIndex(s.files, (f: SolidityFile) => f.id == id);
    assert s.files[k].id == id;
    var r := OpenFile(s, id, tabId);
    assert r.openTabs == s.openTabs + [Tab(tabId, id, s.files[k].name, None, None)];
    assert r.openTabs[..|s.openTabs|] == s.openTabs;
  }

  // ---------------------------------------------------------------- closeTab

  /** closeTab takes out every tab with that id and no other, the rest in their old order, and
      only the tabs and the active ids change. Closing an id no tab has keeps the tabs; with
      distinct ids, closing the tab at i leaves the tabs before it followed by those after it. */
  lemma CloseTabRemoves(s: StoreState, tabId: string)
    ensures var r := CloseTab(s, tabId);
      r.(openTabs := s.openTabs, activeTabId := s.activeTabId, activeFileId := s.activeFileId) == s
      && r.openTabs == Filter(s.openTabs, (t: Tab) => t.id != tabId)
      && forall t :: multiset(r.openTabs)[t] == if t.id == tabId then 0 else multiset(s.openTabs)[t]
    ensures (forall k :: 0 <= k < |s.openTabs| ==> s.openTabs[k].id != tabId) ==>
      CloseTab(s, tabId).openTabs == s.openTabs
    ensures forall i :: (0 <= i < |s.openTabs| && s.openTabs[i].id == tabId
                         && forall a, b :: 0 <= a < b < |s.openTabs| ==> s.openTabs[a].id != s.openTabs[b].id)
                        ==> CloseTab(s, tabId).openTabs == s.openTabs[..i] + s.openTabs[i + 1..]
  {
    var tabs := TabsWithoutId(s.openTabs, tabId);
    assert CloseTab(s, tabId).openTabs == tabs;
    TabsWithoutCount(s.openTabs, tabId);
    TabsWithoutOrder(s.openTabs, tabId);
  }

  /** Every tab with the id is dropped and every other one kept, with its multiplicity. */
  lemma TabsWithoutCount(tabs: seq<Tab>, tabId: string)
    ensures forall t :: multiset(TabsWithoutId(tabs, tabId))[t] == if t.id == tabId then 0 else multiset(tabs)[t]
  {
    forall t {
      FilterCount(tabs, (t: Tab) => t.id != tabId, t);
    }
  }

  /** Dropping an id no tab has keeps the tabs; with distinct ids, dropping the id of the tab at i
      leaves the tabs around it. */
  lemma TabsWithoutOrder(tabs: seq<Tab>, tabId: string)
    ensures (forall k :: 0 <= k < |tabs| ==> tabs[k].id != tabId) ==> TabsWithoutId(tabs, tabId) == tabs
    ensures forall i :: (0 <= i < |tabs| && tabs[i].id == tabId
                         && forall a, b :: 0 <= a < b < |tabs| ==> tabs[a].id != tabs[b].id)
                        ==> TabsWithoutId(tabs, tabId) == tabs[..i] + tabs[i + 1..]
  {
    if forall k :: 0 <= k < |tabs| ==> tabs[k].id != tabId {
      KeepOthers(tabs, tabId);
    }
    forall i | (0 <= i < |tabs| && tabs[i].id == tabId
                && forall a, b :: 0 <= a < b < |tabs| ==> tabs[a].id != tabs[b].id)
      ensures TabsWithoutId(tabs, tabId) == tabs[..i] + tabs[i + 1..]
    {
      TabsWithoutAt(tabs, i);
    }
  }

  /** Closing a tab that is not active keeps the active tab; in every case the active file
      becomes the file of the active tab, or null. */
  lemma CloseTabActive(s: StoreState, tabId: string)
    ensures var r := CloseTab(s, tabId);
      (s.activeTabId != Some(tabId) ==> r.activeTabId == s.activeTabId)
      && r.activeFileId == ActiveFileOf(r.openTabs, r.activeTabId)
  {
  }

  /** With distinct tab ids, removing the tab at i leaves the tabs before and after it. */
  lemma TabsWithoutAt(tabs: seq<Tab>, i: nat)
    requires i < |tabs| && forall a, b :: 0 <= a < b < |tabs| ==> tabs[a].id != tabs[b].id
    ensures TabsWithoutId(tabs, tabs[i].id) == tabs[..i] + tabs[i + 1..]
  {
    var tabId := tabs[i].id;
    var before, rest, after := tabs[..i], tabs[i..], tabs[i + 1..];
    assert tabs == before + rest;
    assert rest == [tabs[i]] + after;
    forall j | 0 <= j < |before| ensures before[j].id != tabId {
      assert before[j] == tabs[j];
    }
    forall j | 0 <= j < |after| ensures after[j].id != tabId {
      assert after[j] == tabs[i + 1 + j];
    }
    TabsWithoutConcat(before, rest, tabId);
    assert TabsWithoutId(rest, tabId) == TabsWithoutId(after, tabId);
    KeepOthers(before, tabId);
    KeepOthers(after, tabId);
  }

  lemma TabsWithoutConcat(a: seq<Tab>, b: seq<Tab>, tabId: string)
    ensures TabsWithoutId(a + b, tabId) == TabsWithoutId(a, tabId) + TabsWithoutId(b, tabId)
  {
    FilterConcat(a, b, (t: Tab) => t.id != tabId);
  }

  lemma KeepOthers(tabs: seq<Tab>, tabId: string)
    requires forall j :: 0 <= j < |tabs| ==> tabs[j].id != tabId
    ensures TabsWithoutId(tabs, tabId) == tabs
  {
    FilterKeepsAll(tabs, (t: Tab) => t.id != tabId);
  }

  /** Closing the active tab at index i activates its left neighbour, or the tab that
      follows when it was the first, or nothing when it was the only one. */
  lemma CloseActiveTab(s: StoreState, i: nat)
    requires i < |s.openTabs| && forall a, b :: 0 <= a < b < |s.openTabs| ==> s.openTabs[a].id != s.openTabs[b].id
    requires s.activeTabId == Some(s.openTabs[i].id)
    ensures CloseTab(s, s.openTabs[i].id).activeTabId ==
      if i > 0 then OrAbsent(s.openTabs[i - 1].id)
      else if |s.openTabs| > 1 then OrAbsent(s.openTabs[1].id)
      else None
  {
    CloseNeighbour(s.openTabs, i);
  }

  lemma CloseNeighbour(tabs: seq<Tab>, i: nat)
    requires i < |tabs| && forall a, b :: 0 <= a < b < |tabs| ==> tabs[a].id != tabs[b].id
    ensures var tabId := tabs[i].id;
      ActiveTabAfterClose(tabs, TabsWithoutId(tabs, tabId), Some(tabId), tabId) ==
        if i > 0 then OrAbsent(tabs[i - 1].id)
        else if |tabs| > 1 then OrAbsent(tabs[1].id)
        else None
  {
    var tabId := tabs[i].id;
    TabsWithoutAt(tabs, i);
    var rest := tabs[..i] + tabs[i + 1..];
    assert TabIndex(tabs, tabId) == i;
    assert |rest| == |tabs| - 1;
    if i > 0 {
      assert rest[i - 1] == tabs[i - 1];
    } else if |tabs| > 1 {
      assert rest[0] == tabs[1];
    }
  }

  // ---------------------------------------------------------------- deleteFile

  /** After deleteFile no file, tab, top-level node or active file refers to the id. */
  lemma DeleteFileForgets(s: StoreState, id: string)
    ensures var r := DeleteFile(s, id);
      !HasFile(r.files, id)
      && (forall i :: 0 <= i < |r.openTabs| ==> r.openTabs[i].fileId != id)
      && (forall i :: 0 <= i < |r.fileTree| ==> r.fileTree[i].fileId != Some(id))
      && r.activeFileId != Some(id)
  {
    var r := DeleteFile(s, id);
    if r.activeFileId.Some? {
      var k := FindIndex(r.openTabs, (t: Tab) => t.id == r.activeTabId.value);
      assert r.openTabs[k].fileId != id;
    }
  }

  /** Every other file and tab stays, as often as it was there, and the flags and
      settings are unchanged. */
  lemma DeleteFileKeepsOthers(s: StoreState, id: string)
    ensures var r := DeleteFile(s, id);
      r.(files := s.files, fileTree := s.fileTree, openTabs := s.openTabs,
         activeTabId := s.activeTabId, activeFileId := s.activeFileId) == s
      && (forall f :: multiset(r.files)[f] == if f.id == id then 0 else multiset(s.files)[f])
      && (forall t :: multiset(r.openTabs)[t] == if t.fileId == id then 0 else multiset(s.openTabs)[t])
  {
    forall f {
      FilterCount(s.files, (f: SolidityFile) => f.id != id, f);
    }
    forall t {
      FilterCount(s.openTabs, (t: Tab) => t.fileId != id, t);
    }
  }

  /** Only the top level of the explorer tree is filtered: a folder node stays exactly as it
      was, children included, even when the deleted file's node is among them. */
  lemma DeleteFileTopLevelOnly(s: StoreState, id: string, i: nat)
    requires i < |s.fileTree| && s.fileTree[i].fileId.None?
    ensures s.fileTree[i] in DeleteFile(s, id).fileTree
  {
  }

  /** The active tab is kept unless it showed the deleted file; then it is the first tab
      not showing that file, or null. */
  lemma DeleteFileActiveTab(s: StoreState, id: string)
    ensures var r := DeleteFile(s, id);
      var shown := Truthy(s.activeTabId) && FileOfTab(s.openTabs, s.activeTabId.value) == Some(id);
      var k := FindIndex(s.openTabs, (t: Tab) => t.fileId != id);
      (!shown ==> r.activeTabId == s.activeTabId)
      && (shown ==> r.activeTabId == if k < 0 then None else OrAbsent(s.openTabs[k].id))
  {
    FilterFirst(s.openTabs, (t: Tab) => t.fileId != id);
  }

  // ---------------------------------------------------------------- content and the modified flag

  /** updateFileContent gives the files with that id the new content and marks them
      modified; every other file, and the rest of the state, stays. */
  lemma UpdateFileContentEffect(s: StoreState, id: string, content: string)
    ensures var r := UpdateFileContent(s, id, content);
      r.(files := s.files) == s && |r.files| == |s.files|
      && forall i :: 0 <= i < |s.files| ==>
        if s.files[i].id == id
        then r.files[i].content == content && r.files[i].isModified
             && r.files[i].(content := s.files[i].content, isModified := s.files[i].isModified) == s.files[i]
        else r.files[i] == s.files[i]
  {
  }

  /** saveFile clears the modified flag of the files with that id and leaves every content alone. */
  lemma SaveFileEffect(s: StoreState, id: string)
    ensures var r := SaveFile(s, id);
      r.(files := s.files) == s && |r.files| == |s.files|
      && forall i :: 0 <= i < |s.files| ==>
        r.files[i].content == s.files[i].content
        && if s.files[i].id == id
           then !r.files[i].isModified && r.files[i].(isModified := s.files[i].isModified) == s.files[i]
           else r.files[i] == s.files[i]
  {
  }

  /** Saving after an edit keeps the edit and leaves the file unmodified. */
  lemma SaveAfterUpdate(s: StoreState, id: string, content: string)
    ensures var r := SaveFile(UpdateFileContent(s, id, content), id);
      r.(files := s.files) == s && |r.files| == |s.files|
      && forall i :: 0 <= i < |s.files| ==>
        r.files[i] == if s.files[i].id == id then s.files[i].(content := content, isModified := false) else s.files[i]
  {
  }

  lemma SaveFileIdempotent(s: StoreState, id: string)
    ensures SaveFile(SaveFile(s, id), id) == SaveFile(s, id)
  {
    var once, twice := SaveFile(s, id), SaveFile(SaveFile(s, id), id);
    assert twice.files == once.files;
  }

  // ---------------------------------------------------------------- deleteFolder and renameFolder

  predicate FileIdsDistinct(files: seq<SolidityFile>) {
    forall i, j :: 0 <= i < j < |files| ==> files[i].id != files[j].id
  }

  /** No file of the folder, or under it, is left. */
  lemma DeleteFolderEmpties(s: StoreState, path: string)
    ensures var r := DeleteFolder(s, path);
      forall i :: 0 <= i < |r.files| ==> !UnderFolder(r.files[i], path) && r.files[i] in s.files
  {
    var r := DeleteFolder(s, path);
    forall i | 0 <= i < |r.files| ensures !UnderFolder(r.files[i], path) {
      var k :| 0 <= k < |s.files| && s.files[k] == r.files[i];
    }
  }

  /** With distinct file ids, deleteFolder removes exactly the files of the folder and under it. */
  lemma DeleteFolderExactly(s: StoreState, path: string)
    requires FileIdsDistinct(s.files)
    ensures var r := DeleteFolder(s, path);
      forall i :: 0 <= i < |s.files| ==> (s.files[i] in r.files <==> !UnderFolder(s.files[i], path))
  {
    var r := DeleteFolder(s, path);
    var ids := FolderFileIds(s.files, path);
    forall i | 0 <= i < |s.files| ensures s.files[i] in r.files <==> !UnderFolder(s.files[i], path) {
      if !UnderFolder(s.files[i], path) {
        assert s.files[i].id !in ids;
      }
    }
  }

  /** The tabs that stay are exactly the old tabs of files outside the folder, in their old order;
      the active tab is the first remaining tab showing the new active file (null when its id is
      empty), and null when no remaining tab shows it or there is no active file. */
  lemma DeleteFolderTabs(s: StoreState, path: string)
    ensures var r := DeleteFolder(s, path);
      var ids := FolderFileIds(s.files, path);
      r.openTabs == Filter(s.openTabs, (t: Tab) => t.fileId !in ids)
      && (forall j :: 0 <= j < |r.openTabs| ==> r.openTabs[j] in s.openTabs && r.openTabs[j].fileId !in ids)
      && (forall i :: 0 <= i < |s.openTabs| && s.openTabs[i].fileId !in ids ==> s.openTabs[i] in r.openTabs)
      && FirstTabRule(r.openTabs, r.activeFileId, r.activeTabId)
  {
    var ids := FolderFileIds(s.files, path);
    var tabs := TabsOutside(s.openTabs, ids);
    var active := ActiveFileAfterFolderDelete(s.activeFileId, ids, FilesOutside(s.files, ids));
    var r := DeleteFolder(s, path);
    assert r.openTabs == tabs && r.activeFileId == active && r.activeTabId == TabOfFile(tabs, active);
    TabOfFileFirst(tabs, active);
  }

  /** The active tab follows the active file by the first-tab rule: null without an active file
      or without a tab showing it, else the id of the first tab showing it (null when empty). */
  predicate FirstTabRule(tabs: seq<Tab>, activeFile: Option<string>, activeTab: Option<string>) {
    (activeFile.None? ==> activeTab.None?)
    && (activeFile.Some? && (forall j :: 0 <= j < |tabs| ==> tabs[j].fileId != activeFile.value) ==> activeTab.None?)
    && (forall j :: (0 <= j < |tabs| && activeFile == Some(tabs[j].fileId)
                     && (forall k :: 0 <= k < j ==> tabs[k].fileId != tabs[j].fileId))
          ==> activeTab == OrAbsent(tabs[j].id))
  }

  /** `tabs.find(t => t.fileId === fileId)?.id || null` keeps the first-tab rule. */
  lemma TabOfFileFirst(tabs: seq<Tab>, fileId: Option<string>)
    ensures FirstTabRule(tabs, fileId, TabOfFile(tabs, fileId))
  {
    if fileId.Some? {
      FirstShowing(tabs, fileId.value);
    }
  }

  /** `tabs.find(t => t.fileId === id)` is the first tab showing the file, if there is one. */
  lemma FirstShowing(tabs: seq<Tab>, id: string)
    ensures TabShowing(tabs, id).None? <==> forall j :: 0 <= j < |tabs| ==> tabs[j].fileId != id
    ensures forall j :: (0 <= j < |tabs| && tabs[j].fileId == id
                         && (forall k :: 0 <= k < j ==> tabs[k].fileId != id))
                        ==> TabShowing(tabs, id) == Some(tabs[j])
  {
    var k := FindIndex(tabs, (t: Tab) => t.fileId == id);
    forall j | 0 <= j < |tabs| && tabs[j].fileId == id && (forall i :: 0 <= i < j ==> tabs[i].fileId != id)
      ensures TabShowing(tabs, id) == Some(tabs[j])
    {
      assert k >= 0 && k == j;
    }
    if TabShowing(tabs, id).None? {
      assert k < 0;
    }
  }

  /** The active file stays unless it was deleted; then it is the first remaining file, or null. */
  lemma DeleteFolderActiveFile(s: StoreState, path: string)
    ensures var r := DeleteFolder(s, path);
      var ids := FolderFileIds(s.files, path);
      (s.activeFileId.Some? && s.activeFileId.value !in ids ==> r.activeFileId == s.activeFileId)
      && (Truthy(s.activeFileId) && s.activeFileId.value in ids ==>
            r.activeFileId == if |r.files| > 0 then OrAbsent(r.files[0].id) else None)
  {
  }

  /** renameFolder moves exactly the files of the folder and under it, keeping the part of
      each path after the old prefix; nothing about a file but its folder path changes. */
  lemma RenameFolderMoves(s: StoreState, oldPath: string, newName: string, parentPath: Option<string>)
    ensures var r := RenameFolder(s, oldPath, newName, parentPath);
      var newPath := RenamedPath(parentPath, newName);
      r.(files := s.files, fileTree := s.fileTree) == s && |r.files| == |s.files|
      && forall i :: 0 <= i < |s.files| ==>
        var f, g := s.files[i], r.files[i];
        g.(folderPath := f.folderPath) == f
        && (UnderFolder(f, oldPath) ==>
              g.folderPath == Some(newPath + OrEmpty(f.folderPath)[|oldPath|..]) && UnderFolder(g, newPath))
        && (!UnderFolder(f, oldPath) ==> g == f)
  {
    var r := RenameFolder(s, oldPath, newName, parentPath);
    var newPath := RenamedPath(parentPath, newName);
    forall i | 0 <= i < |s.files| && UnderFolder(s.files[i], oldPath)
      ensures r.files[i].folderPath == Some(newPath + OrEmpty(s.files[i].folderPath)[|oldPath|..])
      ensures UnderFolder(r.files[i], newPath)
    {
      MovedPath(s.files[i], oldPath, newPath);
    }
  }

  lemma MovedPath(f: SolidityFile, oldPath: string, newPath: string)
    requires UnderFolder(f, oldPath)
    ensures var g := MovedFile(f, oldPath, newPath);
      g.folderPath == Some(newPath + OrEmpty(f.folderPath)[|oldPath|..]) && UnderFolder(g, newPath)
  {
    var p := OrEmpty(f.folderPath);
    var q := newPath + p[|oldPath|..];
    if p == oldPath {
      assert p[|oldPath|..] == "";
      assert q == newPath;
    } else {
      assert p[..|oldPath| + 1] == oldPath + "/";
      assert p[|oldPath|] == '/';
      assert p[|oldPath|..] == "/" + p[|oldPath| + 1..];
      assert q == newPath + "/" + p[|oldPath| + 1..];
      assert q[..|newPath| + 1] == newPath + "/";
    }
  }

  // ---------------------------------------------------------------- createFile and the uploads

  /** createFile appends one unmodified file with the id and the createFile name; an
      empty content is replaced by the contract template, and an empty folder path is none. */
  lemma CreateFileAppends(s: StoreState, id: string, name: string, content: string, folderPath: string)
    ensures var r := CreateFile(s, id, name, content, folderPath);
      var n := |s.files|;
      r.(files := s.files, fileTree := s.fileTree) == s
      && |r.files| == n + 1 && r.files[..n] == s.files
      && r.files[n].id == id && r.files[n].name == CreateFileName(name) && !r.files[n].isModified
      && r.files[n].content == (if content != "" then content else NewContractSource(name))
      && r.files[n].folderPath == (if folderPath == "" then None else Some(folderPath))
  {
    var r := CreateFile(s, id, name, content, folderPath);
    assert r.files[..|s.files|] == s.files;
  }

  /** The template createFile fills an empty file with: the licence line, the pragma, and an
      empty contract named after the file. */
  lemma NewContractSourceShape(name: string)
    ensures var t := NewContractSource(name);
      var header := "// SPDX-License-Identifier: MIT\npragma solidity ^0.8.19;\n\ncontract ";
      StartsWith(t, header) && t[|header|..|header| + |ContractName(name)|] == ContractName(name)
      && EndsWith(t, " {\n    \n}")
  {
    var t := NewContractSource(name);
    var header := "// SPDX-License-Identifier: MIT\npragma solidity ^0.8.19;\n\ncontract ";
    var c := ContractName(name);
    var tail := " {\n    \n}";
    assert t == header + c + tail;
    assert t[..|header|] == header;
    assert t[|header|..|header| + |c|] == c;
    assert t[|t| - |tail|..] == tail;
  }

  /** uploadFile appends the file under the upload name rule and opens it in a new active tab. */
  lemma UploadFileAppends(s: StoreState, id: string, tabId: string, name: string, content: string, folderPath: string)
    ensures var r := UploadFile(s, id, tabId, name, content, folderPath);
      var n, m := |s.files|, |s.openTabs|;
      r.(files := s.files, fileTree := s.fileTree, openTabs := s.openTabs,
         activeTabId := s.activeTabId, activeFileId := s.activeFileId) == s
      && |r.files| == n + 1 && r.files[..n] == s.files
      && r.files[n] == SolidityFile(id, SolName(name), content, false, if folderPath == "" then None else Some(folderPath))
      && |r.openTabs| == m + 1 && r.openTabs[..m] == s.openTabs
      && r.openTabs[m].id == tabId && r.openTabs[m].fileId == id && r.openTabs[m].fileName == r.files[n].name
      && r.activeTabId == Some(tabId) && r.activeFileId == Some(id)
  {
    var r := UploadFile(s, id, tabId, name, content, folderPath);
    assert r.files[..|s.files|] == s.files;
    assert r.openTabs[..|s.openTabs|] == s.openTabs;
  }

  /** The records uploadFilesWithFolders makes: one file and one tab per upload, in order,
      each tab showing its file under the same `.sol` name. */
  lemma UploadedRecords(us: seq<Upload>, ids: seq<string>, tabIds: seq<string>)
    requires |ids| == |us| && |tabIds| == |us|
    ensures var fs, ts := UploadedFiles(us, ids), UploadedTabs(us, ids, tabIds);
      forall i :: 0 <= i < |us| ==>
        fs[i].id == ids[i] && fs[i].content == us[i].content && !fs[i].isModified
        && EndsWith(fs[i].name, ".sol") && StartsWith(fs[i].name, us[i].name)
        && ts[i].id == tabIds[i] && ts[i].fileId == ids[i] && ts[i].fileName == fs[i].name
  {
    forall i | 0 <= i < |us| ensures EndsWith(SolName(us[i].name), ".sol") && StartsWith(SolName(us[i].name), us[i].name) {
      SolNameShape(us[i].name);
    }
  }

  /** The uploaded files and tabs go after the existing ones, in upload order; the two
      branches of the tab update agree. */
  lemma UploadFilesAppend(s: StoreState, fs: seq<SolidityFile>, ts: seq<Tab>)
    ensures var r := UploadFilesWithFolders(s, fs, ts);
      r.files == s.files + fs && r.openTabs == s.openTabs + ts
  {
    if |s.openTabs| == 0 {
      assert s.openTabs + ts == ts;
    }
  }

  /** The first upload's file becomes the active file when its id is non-empty, and its tab the
      active tab when the tab id is non-empty; an empty first id, or nothing uploaded, keeps the
      old active id, as `||` does. */
  lemma UploadFilesActive(s: StoreState, us: seq<Upload>, ids: seq<string>, tabIds: seq<string>)
    requires |ids| == |us| && |tabIds| == |us|
    ensures var r := UploadFilesWithFolders(s, UploadedFiles(us, ids), UploadedTabs(us, ids, tabIds));
      (|us| > 0 && ids[0] != "" ==> r.activeFileId == Some(ids[0]))
      && (|us| > 0 && tabIds[0] != "" ==> r.activeTabId == Some(tabIds[0]))
      && (|us| > 0 && ids[0] == "" ==> r.activeFileId == s.activeFileId)
      && (|us| > 0 && tabIds[0] == "" ==> r.activeTabId == s.activeTabId)
      && (|us| == 0 ==> r.activeFileId == s.activeFileId && r.activeTabId == s.activeTabId)
  {
  }

  /** Uploading nothing only rebuilds the tree. */
  lemma UploadNothing(s: StoreState)
    ensures UploadFilesWithFolders(s, [], []) == s.(fileTree := TreeOf(s.files, true))
  {
    assert s.files + [] == s.files;
  }

  // ---------------------------------------------------------------- the grouping queries

  /** The test getFilesByFolder files under key k. */
  function KeyIs(k: string): SolidityFile -> bool {
    (f: SolidityFile) => GroupKey(f) == k
  }

  /** getFilesByFolder has a key for each folder path (or `root`) some file has, and under it
      exactly the files with that key, in their order. */
  lemma FilesByFolderGroups(files: seq<SolidityFile>)
    ensures forall k :: k in FilesByFolder(files) <==> exists i :: 0 <= i < |files| && GroupKey(files[i]) == k
    ensures forall k :: k in FilesByFolder(files) ==> FilesByFolder(files)[k] == Filter(files, KeyIs(k))
  {
    FilesByFolderKeys(files);
    forall k | k in FilesByFolder(files) ensures FilesByFolder(files)[k] == Filter(files, KeyIs(k)) {
      FilesByFolderGroup(files, k);
    }
  }

  lemma {:induction false} FilesByFolderKeys(files: seq<SolidityFile>)
    ensures forall k :: k in FilesByFolder(files) <==> exists i :: 0 <= i < |files| && GroupKey(files[i]) == k
    decreases |files|
  {
    if files != [] {
      var init := files[..|files| - 1];
      FilesByFolderKeys(init);
      forall k | exists i :: 0 <= i < |files| && GroupKey(files[i]) == k ensures k in FilesByFolder(files) {
        var i :| 0 <= i < |files| && GroupKey(files[i]) == k;
        if i < |init| {
          assert init[i] == files[i];
        }
      }
      forall k | k in FilesByFolder(init) ensures exists i :: 0 <= i < |files| && GroupKey(files[i]) == k {
        var i :| 0 <= i < |init| && GroupKey(init[i]) == k;
        assert files[i] == init[i];
      }
    }
  }

  lemma {:induction false} FilesByFolderGroup(files: seq<SolidityFile>, k: string)
    requires k in FilesByFolder(files)
    ensures FilesByFolder(files)[k] == Filter(files, KeyIs(k))
    decreases |files|
  {
    var init, f := files[..|files| - 1], files[|files| - 1];
    assert files == init + [f];
    FilterConcat(init, [f], KeyIs(k));
    if k in FilesByFolder(init) {
      FilesByFolderGroup(init, k);
    } else {
      FilesByFolderKeys(init);
      FilterNone(init, KeyIs(k));
    }
  }

  /** getFolderContents of a folder path is that path's group in getFilesByFolder, or nothing. */
  lemma FolderContentsIsGroup(s: StoreState, folderPath: string)
    requires folderPath != "" && folderPath != "root"
    ensures var g := FilesByFolder(s.files);
      FolderContents(s, folderPath) == if folderPath in g then g[folderPath] else []
  {
    FilesByFolderGroups(s.files);
    FilterSame(s.files, (f: SolidityFile) => f.folderPath == Some(folderPath), KeyIs(folderPath));
    if folderPath !in FilesByFolder(s.files) {
      FilterNone(s.files, KeyIs(folderPath));
    }
  }

  // ---------------------------------------------------------------- settings

  /** The patch with no keys. */
  const NoEditorChange := EditorSettingsPatch(None, None, None, None, None, None)

  const NoAIChange := AISettingsPatch(None, None, None, None, None, None, None)

  /** One patch after another: a key of the later one wins. */
  function ThenEditor(p: EditorSettingsPatch, q: EditorSettingsPatch): EditorSettingsPatch {
    EditorSettingsPatch(
      if q.theme.Some? then q.theme else p.theme,
      if q.fontSize.Some? then q.fontSize else p.fontSize,
      if q.tabSize.Some? then q.tabSize else p.tabSize,
      if q.wordWrap.Some? then q.wordWrap else p.wordWrap,
      if q.lineNumbers.Some? then q.lineNumbers else p.lineNumbers,
      if q.autoSave.Some? then q.autoSave else p.autoSave)
  }

  function ThenAI(p: AISettingsPatch, q: AISettingsPatch): AISettingsPatch {
    AISettingsPatch(
      if q.outputMode.Some? then q.outputMode else p.outputMode,
      if q.commentStyle.Some? then q.commentStyle else p.commentStyle,
      if q.includeParamDocs.Some? then q.includeParamDocs else p.includeParamDocs,
      if q.includeReturnDocs.Some? then q.includeReturnDocs else p.includeReturnDocs,
      if q.includeDevNotes.Some? then q.includeDevNotes else p.includeDevNotes,
      if q.scanVulnerabilities.Some? then q.scanVulnerabilities else p.scanVulnerabilities,
      if q.language.Some? then q.language else p.language)
  }

  /** The spread merge: an empty patch changes nothing, a patch applied twice is applied once,
      and two merges are one merge of the combined patch. */
  lemma EditorMergeLaws(e: EditorSettings, p: EditorSettingsPatch, q: EditorSettingsPatch)
    ensures MergeEditorSettings(e, NoEditorChange) == e
    ensures MergeEditorSettings(MergeEditorSettings(e, p), p) == MergeEditorSettings(e, p)
    ensures MergeEditorSettings(MergeEditorSettings(e, p), q) == MergeEditorSettings(e, ThenEditor(p, q))
  {
  }

  lemma AIMergeLaws(a: AICommentSettings, p: AISettingsPatch, q: AISettingsPatch)
    ensures MergeAISettings(a, NoAIChange) == a
    ensures MergeAISettings(MergeAISettings(a, p), p) == MergeAISettings(a, p)
    ensures MergeAISettings(MergeAISettings(a, p), q) == MergeAISettings(a, ThenAI(p, q))
  {
  }

  /** The settings actions change their own record and nothing else. */
  lemma SettingsOnly(s: StoreState, e: EditorSettingsPatch, a: AISettingsPatch)
    ensures UpdateEditorSettings(s, e).(editorSettings := s.editorSettings) == s
    ensures UpdateAISettings(s, a).(aiSettings := s.aiSettings) == s
  {
  }

  /** Each toggle flips its own flag, twice is no change, and nothing else moves. */
  lemma TogglesFlip(s: StoreState)
    ensures ToggleSidebar(s).isSidebarOpen == !s.isSidebarOpen && ToggleSidebar(ToggleSidebar(s)) == s
    ensures ToggleAIPanel(s).isAIPanelOpen == !s.isAIPanelOpen && ToggleAIPanel(ToggleAIPanel(s)) == s
    ensures ToggleSettings(s).isSettingsOpen == !s.isSettingsOpen && ToggleSettings(ToggleSettings(s)) == s
    ensures ToggleSidebar(s).(isSidebarOpen := s.isSidebarOpen) == s
    ensures ToggleAIPanel(s).(isAIPanelOpen := s.isAIPanelOpen) == s
    ensures ToggleSettings(s).(isSettingsOpen := s.isSettingsOpen) == s
  {
  }

  // ---------------------------------------------------------------- the initial state

  /** The literal tree of the initial state is the one buildFileTree gives its files. */
  lemma InitialTree(simpleStorageSource: string, tokenSource: string)
    ensures Initial(simpleStorageSource, tokenSource).fileTree == TreeOf(Initial(simpleStorageSource, tokenSource).files, true)
  {
    var files := Initial(simpleStorageSource, tokenSource).files;
    InitialNamesNoKeep();
    TwoRootFiles(files[0], files[1]);
    assert files == [files[0], files[1]];
  }

  /** Two files without folder paths become two root file nodes, in order. */
  lemma TwoRootFiles(f1: SolidityFile, f2: SolidityFile)
    requires f1.folderPath.None? && f2.folderPath.None?
    requires !Contains(f1.name, ".keep") && !Contains(f2.name, ".keep")
    ensures TreeOf([f1, f2], true) ==
      [FileNode(f1.id, f1.name, FileKind, NoChildren, Some(f1.id)), FileNode(f2.id, f2.name, FileKind, NoChildren, Some(f2.id))]
  {
    var l1 := Layout(map[], [FileLeaf(f1.id, f1.name)]);
    AddRootFile(Layout(map[], []), f1, true);
    assert [f1][..0] == [];
    assert LayoutOf([f1], true) == l1;
    AddRootFile(l1, f2, true);
    assert [f1, f2][..1] == [f1];
    assert LayoutOf([f1, f2], true) == Layout(map[], [FileLeaf(f1.id, f1.name), FileLeaf(f2.id, f2.name)]);
  }

  /** A file without a folder path that is not skipped goes to the end of the root list. */
  lemma AddRootFile(l: Layout, f: SolidityFile, skipKeep: bool)
    requires f.folderPath.None? && !Skipped(f, skipKeep)
    ensures AddFile(l, f, skipKeep) == Layout(l.folders, l.roots + [FileLeaf(f.id, f.name)])
  {
    assert PathParts(f.folderPath) == [];
  }

  /** Neither starter file is a `.keep` marker. */
  lemma InitialNamesNoKeep()
    ensures !Contains("SimpleStorage.sol", ".keep") && !Contains("MyToken.sol", ".keep")
  {
    assert "SimpleStorage.sol" == "SimpleStorage" + ".sol";
    assert "MyToken.sol" == "MyToken" + ".sol";
    SolNameNoKeep("SimpleStorage");
    SolNameNoKeep("MyToken");
  }

  /** A dot-free base name with `.sol` after it is no `.keep` marker. */
  lemma SolNameNoKeep(base: string)
    requires '.' !in base
    ensures !Contains(base + ".sol", ".keep")
  {
    var name := base + ".sol";
    if Contains(name, ".keep") {
      var i := IndexOf(name, ".keep");
      OccursAtChar(name, ".keep", i, 0);
    }
  }
}
