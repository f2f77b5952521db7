/**
  The store's `buildFileTree`: from the flat `folderPath` strings of the files
  it builds one folder node per distinct path prefix and hangs every file node
  under the folder of its full path (or at the root).

  The source keeps a map from path to folder node and pushes node references
  into `rootNodes` and into the `children` arrays of folder nodes.  Here a
  folder node is named by its path, so the map sends each path to the entries
  pushed into that folder's `children`, and an entry is either a reference to
  a folder (by path) or a file node.  `Resolve` reads the resulting object
  graph off as the `FileNode` tree the source returns.
*/
module FileTree {
  import opened Optional
  import opened JsString
  import opened IdeTypes

  /** What was pushed into a `children` array or `rootNodes`. */
  datatype Entry = FolderRef(key: string, name: string) | FileLeaf(id: string, name: string)

  /** The folder map and the root list while the tree is being built. */
  datatype Layout = Layout(folders: map<string, seq<Entry>>, roots: seq<Entry>)

  /** Where an entry can be pushed: the root list or the children of the folder at a path. */
  datatype Loc = Root | InFolder(key: string)

  /** The list at a location; a folder that was never created has none. */
  function ListAt(l: Layout, loc: Loc): seq<Entry> {
    match loc
    case Root => l.roots
    case InFolder(k) => if k in l.folders then l.folders[k] else []
  }

  /** Path segments as buildFileTree uses them: non-empty and free of `/`. */
  predicate Segments(parts: seq<string>) {
    forall i :: 0 <= i < |parts| ==> parts[i] != "" && '/' !in parts[i]
  }

  /** `path ? path.split('/').filter(p => p) : []` for `path = file.folderPath || ''`. */
  function PathParts(folderPath: Option<string>): (r: seq<string>)
    ensures Segments(r)
  {
    var path := OrEmpty(folderPath);
    if path == "" then []
    else
      SplitPiecesFree(path, '/');
      NonEmpty(Split(path, "/"))
  }

  /** Whether the file is skipped as a folder marker; only some copies of buildFileTree skip. */
  predicate Skipped(f: SolidityFile, skipKeep: bool) {
    skipKeep && Contains(f.name, ".keep")
  }

  /** Step `k` of the inner loop: make sure the folder for the first k+1 segments exists. */
  function AddPrefix(l: Layout, parts: seq<string>, k: nat): Layout
    requires k < |parts|
  {
    var key := Join(parts[..k + 1], "/");
    if key in l.folders then l
    else
      var node := FolderRef(key, parts[k]);
      var folders := l.folders[key := []];
      if k == 0 then Layout(folders, l.roots + [node])
      else
        var parent := Join(parts[..k], "/");
        if parent in folders then Layout(folders[parent := folders[parent] + [node]], l.roots)
        else Layout(folders, l.roots)
  }

  /** The first n steps of the inner loop. */
  function AddPrefixes(l: Layout, parts: seq<string>, n: nat): Layout
    requires n <= |parts|
  {
    if n == 0 then l else AddPrefix(AddPrefixes(l, parts, n - 1), parts, n - 1)
  }

  /** One iteration of the outer loop: the folders of the file's path, then its file node. */
  function AddFile(l: Layout, f: SolidityFile, skipKeep: bool): Layout {
    var parts := PathParts(f.folderPath);
    var l1 := AddPrefixes(l, parts, |parts|);
    if Skipped(f, skipKeep) then l1
    else
      var leaf := FileLeaf(f.id, f.name);
      if |parts| > 0 then
        var key := Join(parts, "/");
        if key in l1.folders then Layout(l1.folders[key := l1.folders[key] + [leaf]], l1.roots)
        else l1
      else Layout(l1.folders, l1.roots + [leaf])
  }

  /** The folder map and root list after the outer loop has seen `files`. */
  function LayoutOf(files: seq<SolidityFile>, skipKeep: bool): Layout {
    if files == [] then Layout(map[], [])
    else AddFile(LayoutOf(files[..|files| - 1], skipKeep), files[|files| - 1], skipKeep)
  }

  /** One more file through the outer loop. */
  lemma LayoutOfStep(files: seq<SolidityFile>, i: nat, skipKeep: bool)
    requires i < |files|
    ensures LayoutOf(files[..i + 1], skipKeep) == AddFile(LayoutOf(files[..i], skipKeep), files[i], skipKeep)
  {
    assert files[..i + 1][..i] == files[..i];
  }

  /** The node id of the folder at a path. */
  function FolderId(path: string): string {
    "folder-" + path
  }

  /** The node an entry denotes; a folder's children are read from its pushed entries. */
  function ResolveEntry(m: map<string, seq<Entry>>, e: Entry): (r: FileNode)
    ensures e.FolderRef? ==> r.kind == FolderKind && r.id == FolderId(e.key) && r.name == e.name
                              && r.children.ChildList? && r.fileId.None?
    ensures e.FileLeaf? ==> r.kind == FileKind && r.id == e.id && r.fileId == Some(e.id)
                             && r.name == e.name && r.children.NoChildren?
    decreases m.Keys, 0, 0
  {
    match e
    case FileLeaf(id, name) => FileNode(id, name, FileKind, NoChildren, Some(id))
    case FolderRef(key, name) =>
      var kids := if key in m then ResolveList(m - {key}, m[key]) else [];
      FileNode(FolderId(key), name, FolderKind, ChildList(kids), None)
  }

  function ResolveList(m: map<string, seq<Entry>>, es: seq<Entry>): (r: seq<FileNode>)
    ensures |r| == |es|
    ensures forall i :: 0 <= i < |es| ==> r[i] == ResolveEntry(m, es[i])
    decreases m.Keys, 1, |es|
  {
    if es == [] then [] else [ResolveEntry(m, es[0])] + ResolveList(m, es[1..])
  }

  /** The tree buildFileTree returns. */
  function TreeOf(files: seq<SolidityFile>, skipKeep: bool): seq<FileNode> {
    var l := LayoutOf(files, skipKeep);
    ResolveList(l.folders, l.roots)
  }

  /** The `files.forEach` callback of buildFileTree: create the folders of one file's
      path, then push its file node. */
  method PlaceFile(folders0: map<string, seq<Entry>>, roots0: seq<Entry>, file: SolidityFile, skipKeep: bool)
    returns (folders: map<string, seq<Entry>>, roots: seq<Entry>)
    ensures Layout(folders, roots) == AddFile(Layout(folders0, roots0), file, skipKeep)
  {
    folders, roots := folders0, roots0;
    var path := OrEmpty(file.folderPath);
    var parts := if path != "" then NonEmpty(Split(path, "/")) else [];
    assert parts == PathParts(file.folderPath);
    var current := "";
    var j := 0;
    while j < |parts|
      invariant 0 <= j <= |parts|
      invariant Layout(folders, roots) == AddPrefixes(Layout(folders0, roots0), parts, j)
      invariant current == Join(parts[..j], "/")
    {
      var part := parts[j];
      JoinPrefixStep(parts, j, "/");
      if j > 0 {
        JoinNonEmpty(parts[..j], "/");
      }
      ghost var prev := Layout(folders, roots);
      current := if current != "" then current + "/" + part else part;
      if current !in folders {
        var node := FolderRef(current, part);
        folders := folders[current := []];
        if j == 0 {
          roots := roots + [node];
        } else {
          var parentPath := Join(parts[..j], "/");
          if parentPath in folders {
            folders := folders[parentPath := folders[parentPath] + [node]];
          }
        }
      }
      assert Layout(folders, roots) == AddPrefix(prev, parts, j);
      j := j + 1;
    }
    if !(skipKeep && Contains(file.name, ".keep")) {
      var leaf := FileLeaf(file.id, file.name);
      if |parts| > 0 {
        var fullPath := Join(parts, "/");
        assert parts[..|parts|] == parts;
        if fullPath in folders {
          folders := folders[fullPath := folders[fullPath] + [leaf]];
        }
      } else {
        roots := roots + [leaf];
      }
    }
  }

  /** `buildFileTree(files)`: the loop over the files, each placed by `PlaceFile`. */
  method BuildFileTree(files: seq<SolidityFile>, skipKeep: bool) returns (tree: seq<FileNode>)
    ensures tree == TreeOf(files, skipKeep)
  {
    var folders: map<string, seq<Entry>> := map[];
    var roots: seq<Entry> := [];
    var i := 0;
    while i < |files|
      invariant 0 <= i <= |files|
      invariant Layout(folders, roots) == LayoutOf(files[..i], skipKeep)
    {
      folders, roots := PlaceFile(folders, roots, files[i], skipKeep);
      LayoutOfStep(files, i, skipKeep);
      i := i + 1;
    }
    assert files[..|files|] == files;
    tree := ResolveList(folders, roots);
  }
}
