/**
  The file explorer panel: its search filter over the store's file tree, the
  `folder-` id convention shared with buildFileTree, and the handlers that turn
  what the user typed into store actions (create a file, a folder or a file in
  a folder, rename a file, open or close a folder).
*/
module FileExplorer {
  import opened Optional
  import opened JsString
  import opened IdeTypes
  import opened FileTree
  import FileTreeProps
  import IdeStore
  import opened UseIdeStore

  // ---------------------------------------------------------------- search filter

  /** The search test: an empty query matches everything, otherwise the name must
      contain the query, both lower-cased. */
  predicate Matches(name: string, query: string) {
    query == "" || Contains(Lower(name), Lower(query))
  }

  /** What the filter lets through, at every depth: files that are not `.keep`
      markers and match, and folders that have a `children` array holding only such
      nodes and that either match or keep some child. */
  predicate ShownNode(n: FileNode, query: string)
    decreases n, 1
  {
    match n.kind
    case FileKind => n.name != ".keep" && Matches(n.name, query)
    case FolderKind =>
      n.children.ChildList?
      && (Matches(n.name, query) || |n.children.nodes| > 0)
      && Shown(n.children.nodes, query)
  }

  predicate Shown(nodes: seq<FileNode>, query: string)
    decreases nodes, 0
  {
    forall i :: 0 <= i < |nodes| ==> ShownNode(nodes[i], query)
  }

  /** What the `reduce` callback of `filterNodes` pushes for one node: nothing, or the
      node itself, a kept folder carrying its filtered children. */
  function Kept(n: FileNode, query: string): (r: seq<FileNode>)
    ensures |r| <= 1
    ensures Shown(r, query)
    decreases n, 1
  {
    if n.kind == FileKind && n.name == ".keep" then []
    else if n.kind == FolderKind && n.children.ChildList? then
      var kids := FilterNodes(n.children.nodes, query);
      if Matches(n.name, query) || |kids| > 0 then [n.(children := ChildList(kids))] else []
    else if n.kind == FileKind && Matches(n.name, query) then [n]
    else []
  }

  /** `filterNodes`: the siblings' contributions in their order. */
  function FilterNodes(nodes: seq<FileNode>, query: string): (r: seq<FileNode>)
    ensures |r| <= |nodes|
    ensures Shown(r, query)
    decreases nodes, 0
  {
    if nodes == [] then []
    else
      var here, rest := Kept(nodes[0], query), FilterNodes(nodes[1..], query);
      ShownConcat(here, rest, query);
      here + rest
  }

  lemma ShownConcat(a: seq<FileNode>, b: seq<FileNode>, query: string)
    requires Shown(a, query) && Shown(b, query)
    ensures Shown(a + b, query)
  {
    forall i | 0 <= i < |a + b| ensures ShownNode((a + b)[i], query) {
      if i < |a| {
        assert (a + b)[i] == a[i];
      } else {
        assert (a + b)[i] == b[i - |a|];
      }
    }
  }

  /** Filtering distributes over concatenation: survivors keep their relative order. */
  lemma {:induction false} FilterNodesConcat(a: seq<FileNode>, b: seq<FileNode>, query: string)
    ensures FilterNodes(a + b, query) == FilterNodes(a, query) + FilterNodes(b, query)
    decreases |a|
  {
    if a == [] {
      assert a + b == b;
    } else {
      assert (a + b)[0] == a[0];
      assert (a + b)[1..] == a[1..] + b;
      FilterNodesConcat(a[1..], b, query);
    }
  }

  /** A one-node list filters to what that node contributes. */
  lemma FilterSingle(n: FileNode, query: string)
    ensures FilterNodes([n], query) == Kept(n, query)
  {
    assert [n][1..] == [];
  }

  /** A file node survives exactly when it is not a `.keep` marker and matches, and
      then unchanged. */
  lemma FileSurvives(n: FileNode, query: string)
    requires n.kind == FileKind
    ensures FilterNodes([n], query) == if n.name != ".keep" && Matches(n.name, query) then [n] else []
  {
    FilterSingle(n, query);
  }

  /** A folder survives exactly when it has a `children` array and its name matches or
      one of its children survives; it then carries the filtered children. */
  lemma FolderSurvives(n: FileNode, query: string)
    requires n.kind == FolderKind
    ensures |FilterNodes([n], query)| <= 1
    ensures |FilterNodes([n], query)| == 1 <==>
      n.children.ChildList? && (Matches(n.name, query) || FilterNodes(n.children.nodes, query) != [])
    ensures |FilterNodes([n], query)| == 1 ==>
      FilterNodes([n], query)[0] == n.(children := ChildList(FilterNodes(n.children.nodes, query)))
  {
    FilterSingle(n, query);
  }

  /** With an empty query every file that is not a marker stays in the list. */
  lemma {:induction false} EmptyQueryKeepsFiles(nodes: seq<FileNode>)
    ensures forall i :: 0 <= i < |nodes| && nodes[i].kind == FileKind && nodes[i].name != ".keep"
                        ==> nodes[i] in FilterNodes(nodes, "")
  {
    if nodes != [] {
      EmptyQueryKeepsFiles(nodes[1..]);
      forall i | 1 <= i < |nodes| ensures nodes[i] == nodes[1..][i - 1] {
      }
    }
  }

  /** A node in the filter's output shape contributes itself. */
  lemma {:induction false} ShownNodeFixed(n: FileNode, query: string)
    requires ShownNode(n, query)
    ensures Kept(n, query) == [n]
    decreases n, 1
  {
    if n.kind == FolderKind {
      ShownFixed(n.children.nodes, query);
      assert n.(children := ChildList(n.children.nodes)) == n;
    }
  }

  /** A list in the filter's output shape is left as it is. */
  lemma {:induction false} ShownFixed(nodes: seq<FileNode>, query: string)
    requires Shown(nodes, query)
    ensures FilterNodes(nodes, query) == nodes
    decreases nodes, 0
  {
    if nodes != [] {
      assert Shown(nodes[1..], query) by {
        forall i | 0 <= i < |nodes[1..]| ensures nodes[1..][i] == nodes[i + 1] {
        }
      }
      ShownFixed(nodes[1..], query);
      ShownNodeFixed(nodes[0], query);
    }
  }

  /** The lists the filter leaves alone are exactly those in its output shape, so
      filtering twice is filtering once. */
  lemma FilterFixedIff(nodes: seq<FileNode>, query: string)
    ensures FilterNodes(nodes, query) == nodes <==> Shown(nodes, query)
    ensures FilterNodes(FilterNodes(nodes, query), query) == FilterNodes(nodes, query)
  {
    if Shown(nodes, query) {
      ShownFixed(nodes, query);
    }
    ShownFixed(FilterNodes(nodes, query), query);
  }

  // ---------------------------------------------------------------- folder ids and paths

  /** The folder path a folder node's id encodes (`node.id.replace('folder-', '')`). */
  function FolderPathOfId(id: string): string {
    ReplaceFirst(id, "folder-", "")
  }

  /** The path handleCreateFolder gives a new folder: under the folder it was started
      in, if any, else at the root. */
  function NewFolderPath(parent: string, name: string): string {
    if parent != "" then parent + "/" + Trim(name) else Trim(name)
  }

  /** Stripping `folder-` from the store's folder node id gives the path back. */
  lemma FolderIdRoundTrip(path: string)
    ensures FolderPathOfId(FolderId(path)) == path
  {
    ReplaceFirstAtStart("folder-", path);
  }

  /** A path buildFileTree keeps as it is: non-empty segments between its slashes. */
  predicate PlainPath(path: string) {
    var parts := Split(path, "/");
    path != "" && forall i :: 0 <= i < |parts| ==> parts[i] != ""
  }

  lemma {:induction false} NonEmptyKeeps(xs: seq<string>)
    requires forall i :: 0 <= i < |xs| ==> xs[i] != ""
    ensures NonEmpty(xs) == xs
  {
    if xs != [] {
      NonEmptyKeeps(xs[1..]);
    }
  }

  /** The segments of a plain path join back to it. */
  lemma PlainPathParts(path: string)
    requires PlainPath(path)
    ensures Join(PathParts(Some(path)), "/") == path
  {
    NonEmptyKeeps(Split(path, "/"));
    JoinSplit(path, "/");
  }

  /** The `.keep` marker handleCreateFolder creates makes its path a folder of the
      rebuilt tree, so the key the explorer marks expanded is that folder's node id. */
  lemma NewFolderInTree(files: seq<SolidityFile>, marker: SolidityFile)
    requires marker.folderPath.Some? && PlainPath(marker.folderPath.value)
    ensures marker.folderPath.value in LayoutOf(files + [marker], true).folders
    ensures FolderPathOfId(FolderId(marker.folderPath.value)) == marker.folderPath.value
  {
    var path := marker.folderPath.value;
    var parts := PathParts(marker.folderPath);
    PlainPathParts(path);
    assert parts[..|parts|] == parts;
    PrefixSetHasAll(parts, |parts|);
    var all := files + [marker];
    assert all[..|all| - 1] == files;
    FileTreeProps.FoldersArePrefixes(all, true);
    FolderIdRoundTrip(path);
  }

  lemma PrefixSetHasAll(parts: seq<string>, n: nat)
    requires 0 < n <= |parts|
    ensures Join(parts[..n], "/") in FileTreeProps.PrefixSet(parts, n)
  {
  }

  // ---------------------------------------------------------------- expanded folders

  /** `expandedFolders[key]`, with a missing key read as closed. */
  predicate IsExpanded(m: map<string, bool>, key: string) {
    key in m && m[key]
  }

  /** toggleFolder's new map: the key is set to the negation of its old reading. */
  function Toggled(m: map<string, bool>, key: string): (r: map<string, bool>)
    ensures r.Keys == m.Keys + {key}
    ensures IsExpanded(r, key) == !IsExpanded(m, key)
    ensures forall k :: k in m && k != key ==> r[k] == m[k]
  {
    m[key := !IsExpanded(m, key)]
  }

  /** Toggling a folder twice leaves every folder open or closed as before. */
  lemma ToggleTwice(m: map<string, bool>, key: string)
    ensures forall k :: IsExpanded(Toggled(Toggled(m, key), key), k) == IsExpanded(m, k)
  {
  }

  // ---------------------------------------------------------------- names

  /** The text startRename puts in the rename box: the first `.sol` removed. */
  function RenameText(name: string): string {
    ReplaceFirst(name, ".sol", "")
  }

  /** Starting a rename of `base.sol` and confirming it unchanged keeps the name: the
      box shows `base`, and renameFile appends `.sol` again. */
  lemma RenameUnchanged(base: string)
    requires base != "" && IsTrimmed(base) && !Contains(base, ".sol")
    ensures RenameText(base + ".sol") == base
    ensures Trim(RenameText(base + ".sol")) == base
    ensures IdeStore.SolName(base) == base + ".sol"
  {
    IdeStore.SolOnlyAtEnd(base);
    var s := base + ".sol";
    assert s[..|base|] == base && s[|base| + 4..] == [];
    TrimPadded([], base, []);
    assert [] + base + [] == base;
    assert EndsWith(base, ".sol") ==> OccursAt(base, ".sol", |base| - 4);
  }

  // ---------------------------------------------------------------- the panel

  /** The explorer's React state, and the store it acts on. */
  class Explorer {
    const store: Store
    var expandedFolders: map<string, bool>
    var newFileName: string
    var isCreating: bool
    var newFolderName: string
    var isCreatingFolder: bool
    var creatingFolderInPath: string
    var newFileInFolderName: string
    var isCreatingFileInFolder: Option<string>
    var editingId: Option<string>
    var editingName: string
    var searchQuery: string

    constructor (store: Store)
      ensures this.store == store
      ensures expandedFolders == map[] && newFileName == "" && !isCreating
      ensures newFolderName == "" && !isCreatingFolder && creatingFolderInPath == ""
      ensures newFileInFolderName == "" && isCreatingFileInFolder.None?
      ensures editingId.None? && editingName == "" && searchQuery == ""
    {
      this.store := store;
      expandedFolders := map[];
      newFileName, isCreating := "", false;
      newFolderName, isCreatingFolder, creatingFolderInPath := "", false, "";
      newFileInFolderName, isCreatingFileInFolder := "", None;
      editingId, editingName, searchQuery := None, "", "";
    }

    /** The tree the panel renders. */
    function Visible(): (r: seq<FileNode>)
      reads this, store
      ensures Shown(r, searchQuery)
    {
      FilterNodes(store.fileTree, searchQuery)
    }

    /** handleCreateFile: a new root file named by the trimmed text, if it is not blank; only
        the new-file box and its flag change in the panel. */
    method HandleCreateFile(id: string)
      modifies this`newFileName, this`isCreating, store
      ensures Trim(old(newFileName)) != "" ==>
        store.State() == IdeStore.CreateFile(old(store.State()), id, Trim(old(newFileName)), "", "")
        && newFileName == "" && !isCreating
        && expandedFolders == old(expandedFolders) && editingName == old(editingName)
      ensures Trim(old(newFileName)) == "" ==> unchanged(this) && store.State() == old(store.State())
    {
      ghost var before := store.State();
      var name := Trim(newFileName);
      if name != "" {
        store.CreateFile(id, name, "", "");
        ghost var created := store.State();
        assert created == IdeStore.CreateFile(before, id, name, "", "");
        FileCreated();
        assert store.State() == created;
      }
    }

    /** The explorer's own state once a root-level file has been created. */
    method FileCreated()
      modifies this`newFileName, this`isCreating
      ensures newFileName == "" && !isCreating
    {
      newFileName := "";
      isCreating := false;
    }

    /** handleCreateFileInFolder: the same inside the folder at `folderPath`, reported by a
        success toast; only the in-folder box and its flag change in the panel. */
    method HandleCreateFileInFolder(folderPath: string, id: string) returns (toast: Option<Toast>)
      modifies this`newFileInFolderName, this`isCreatingFileInFolder, store
      ensures Trim(old(newFileInFolderName)) != "" ==>
        store.State() == IdeStore.CreateFile(old(store.State()), id, Trim(old(newFileInFolderName)), "", folderPath)
        && newFileInFolderName == "" && isCreatingFileInFolder.None?
        && expandedFolders == old(expandedFolders) && newFileName == old(newFileName)
        && toast == Some(Success("File created in folder"))
      ensures Trim(old(newFileInFolderName)) == "" ==>
        unchanged(this) && store.State() == old(store.State()) && toast.None?
    {
      ghost var before := store.State();
      var name := Trim(newFileInFolderName);
      if name != "" {
        store.CreateFile(id, name, "", folderPath);
        ghost var created := store.State();
        assert created == IdeStore.CreateFile(before, id, name, "", folderPath);
        FileInFolderCreated();
        assert store.State() == created;
        toast := Some(Success("File created in folder"));
      } else {
        toast := None;
      }
    }

    /** The explorer's own state once a file inside a folder has been created. */
    method FileInFolderCreated()
      modifies this`newFileInFolderName, this`isCreatingFileInFolder
      ensures newFileInFolderName == "" && isCreatingFileInFolder.None?
    {
      newFileInFolderName := "";
      isCreatingFileInFolder := None;
    }

    /** The toast of a created folder; it quotes the box's text as typed, untrimmed. */
    function FolderToast(typed: string): (t: Toast)
      ensures t.Success? && |t.text| == 8 + |typed| + 9
      ensures t.text[..8] == "Folder \"" && t.text[8..8 + |typed|] == typed
      ensures t.text[8 + |typed|..] == "\" created"
    {
      Success("Folder \"" + typed + "\" created")
    }

    /** handleCreateFolder: a `.keep` marker in the new folder's path, and that folder
        marked expanded, reported by a success toast; only the folder box, its flag, the
        parent path and the expanded folders change in the panel. */
    method HandleCreateFolder(id: string) returns (toast: Option<Toast>)
      modifies this`expandedFolders, this`newFolderName, this`isCreatingFolder, this`creatingFolderInPath, store
      ensures Trim(old(newFolderName)) != "" ==>
        var path := NewFolderPath(old(creatingFolderInPath), old(newFolderName));
        store.State() == IdeStore.CreateFile(old(store.State()), id, ".keep", "", path)
        && expandedFolders == old(expandedFolders)[FolderId(path) := true]
        && newFolderName == "" && !isCreatingFolder && creatingFolderInPath == ""
        && toast == Some(FolderToast(old(newFolderName)))
      ensures Trim(old(newFolderName)) == "" ==>
        unchanged(this) && store.State() == old(store.State()) && toast.None?
    {
      toast := None;
      var typed := newFolderName;
      var name := Trim(newFolderName);
      if name != "" {
        var path := if creatingFolderInPath != "" then creatingFolderInPath + "/" + name else name;
        store.CreateFile(id, ".keep", "", path);
        ghost var created := store.State();
        FolderCreated(path);
        assert store.State() == created;
        toast := Some(FolderToast(typed));
      }
    }

    /** The explorer's own state once a folder at `path` has been created. */
    method FolderCreated(path: string)
      modifies this`expandedFolders, this`newFolderName, this`isCreatingFolder, this`creatingFolderInPath
      ensures expandedFolders == old(expandedFolders)[FolderId(path) := true]
      ensures newFolderName == "" && !isCreatingFolder && creatingFolderInPath == ""
    {
      expandedFolders := expandedFolders[FolderId(path) := true];
      newFolderName := "";
      isCreatingFolder := false;
      creatingFolderInPath := "";
    }

    /** startRename: the box shows the name without its first `.sol`; only the rename box
        and the id being edited change. */
    method StartRename(id: string, currentName: string)
      modifies this`editingId, this`editingName
      ensures editingId == Some(id) && editingName == RenameText(currentName)
      ensures expandedFolders == old(expandedFolders) && newFileName == old(newFileName)
      ensures newFolderName == old(newFolderName) && searchQuery == old(searchQuery)
    {
      editingId := Some(id);
      editingName := ReplaceFirst(currentName, ".sol", "");
    }

    /** handleRename: the file gets the trimmed text as its new name, if it is not blank;
        only the rename box and the id being edited change in the panel. */
    method HandleRename(id: string)
      modifies this`editingId, this`editingName, store
      ensures Trim(old(editingName)) != "" ==>
        store.State() == IdeStore.RenameFile(old(store.State()), id, Trim(old(editingName)))
        && editingId.None? && editingName == ""
        && expandedFolders == old(expandedFolders) && newFileName == old(newFileName)
      ensures Trim(old(editingName)) == "" ==> unchanged(this) && store.State() == old(store.State())
    {
      var name := Trim(editingName);
      if name != "" {
        store.RenameFile(id, name);
        editingId := None;
        editingName := "";
      }
    }

    /** toggleFolder: only the expanded folders change. */
    method ToggleFolder(folderId: string)
      modifies this`expandedFolders
      ensures expandedFolders == Toggled(old(expandedFolders), folderId)
      ensures editingId == old(editingId) && editingName == old(editingName)
      ensures newFileName == old(newFileName) && newFolderName == old(newFolderName)
      ensures searchQuery == old(searchQuery)
    {
      expandedFolders := expandedFolders[folderId := !(folderId in expandedFolders && expandedFolders[folderId])];
    }
  }
}
