/**
  What buildFileTree promises about the folder map and child lists it fills:
  the folder map holds exactly the path prefixes of the files' folder paths,
  each folder is pushed exactly once, into the list of its parent prefix (the
  root list for a one-segment prefix), under its last segment as name, and the
  file nodes of each list are exactly the files whose full folder path names
  that list, in input order.
*/
module FileTreeProps {
  import opened Optional
  import opened JsString
  import opened IdeTypes
  import opened FileTree

  /** The folder paths of the folder entries of a list, in order. */
  function RefKeys(es: seq<Entry>): seq<string> {
    if es == [] then []
    else RefKeys(es[..|es| - 1]) + (if es[|es| - 1].FolderRef? then [es[|es| - 1].key] else [])
  }

  /** The file entries of a list, in order. */
  function Leaves(es: seq<Entry>): seq<Entry> {
    if es == [] then []
    else Leaves(es[..|es| - 1]) + (if es[|es| - 1].FileLeaf? then [es[|es| - 1]] else [])
  }

  lemma EntriesSnoc(es: seq<Entry>, e: Entry)
    ensures RefKeys(es + [e]) == RefKeys(es) + (if e.FolderRef? then [e.key] else [])
    ensures Leaves(es + [e]) == Leaves(es) + (if e.FileLeaf? then [e] else [])
  {
    assert (es + [e])[..|es|] == es;
  }

  lemma {:induction false} RefKeyEntry(es: seq<Entry>, c: string) returns (e: Entry)
    requires c in RefKeys(es)
    ensures e in es && e.FolderRef? && e.key == c
    decreases |es|
  {
    var init, last := es[..|es| - 1], es[|es| - 1];
    assert es == init + [last];
    if c in RefKeys(init) {
      e := RefKeyEntry(init, c);
    } else {
      e := last;
    }
  }

  /** Where the folder for a path belongs: the root list, or the folder of the
      path up to its last `/`. */
  function ParentLoc(c: string): Loc {
    var i := LastIndexOf(c, '/');
    if i < 0 then Root else InFolder(c[..i])
  }

  /** The segment after the last `/`: the folder node's `name`. */
  function LastSegment(c: string): string {
    c[LastIndexOf(c, '/') + 1..]
  }

  lemma LastIndexOfAbsent(s: string, c: char)
    requires c !in s
    ensures LastIndexOf(s, c) == -1
  {
  }

  /** The folder for the first k+1 segments belongs under the folder for the first k,
      and is named by segment k. */
  lemma PrefixShape(parts: seq<string>, k: nat)
    requires Segments(parts) && k < |parts|
    ensures LastSegment(Join(parts[..k + 1], "/")) == parts[k]
    ensures ParentLoc(Join(parts[..k + 1], "/"))
            == if k == 0 then Root else InFolder(Join(parts[..k], "/"))
  {
    JoinPrefixStep(parts, k, "/");
    LastIndexOfAbsent(parts[k], '/');
    if k > 0 {
      var p := Join(parts[..k], "/");
      var key := p + "/" + parts[k];
      LastIndexOfConcat(p + "/", parts[k], '/');
      assert LastIndexOf(p + "/", '/') == |p|;
      assert key[..|p|] == p;
      assert key[|p| + 1..] == parts[k];
    }
  }

  /** Every folder entry sits in its parent's list, names its last segment, and its
      folder exists. */
  ghost predicate Placed(l: Layout) {
    forall loc, e :: e in ListAt(l, loc) && e.FolderRef? ==>
      e.key in l.folders && ParentLoc(e.key) == loc && e.name == LastSegment(e.key)
  }

  /** How many times the folder at path c was pushed into the list of its parent. */
  function RefCount(l: Layout, c: string): nat {
    multiset(RefKeys(ListAt(l, ParentLoc(c))))[c]
  }

  /** Every existing folder is pushed exactly once into its parent's list. */
  ghost predicate UniqueRefs(l: Layout) {
    forall c {:trigger RefCount(l, c)} :: c in l.folders ==> RefCount(l, c) == 1
  }

  lemma RefKeysPlaced(l: Layout)
    ensures Placed(l) ==> forall loc, c :: c in RefKeys(ListAt(l, loc)) ==> c in l.folders && ParentLoc(c) == loc
  {
    if Placed(l) {
      forall loc, c | c in RefKeys(ListAt(l, loc)) ensures c in l.folders && ParentLoc(c) == loc {
        var e := RefKeyEntry(ListAt(l, loc), c);
      }
    }
  }

  /** The paths of the folders created for the first n segments. */
  function PrefixSet(parts: seq<string>, n: nat): set<string>
    requires n <= |parts|
  {
    if n == 0 then {} else PrefixSet(parts, n - 1) + {Join(parts[..n], "/")}
  }

  function FilePrefixes(f: SolidityFile): set<string> {
    var parts := PathParts(f.folderPath);
    PrefixSet(parts, |parts|)
  }

  /** Every prefix of every file's folder path. */
  function AllPrefixes(files: seq<SolidityFile>): set<string> {
    if files == [] then {} else AllPrefixes(files[..|files| - 1]) + FilePrefixes(files[|files| - 1])
  }

  /** The list a file's node is pushed into: its full folder path, or the root. */
  function LocOf(f: SolidityFile): Loc {
    var parts := PathParts(f.folderPath);
    if parts == [] then Root else InFolder(Join(parts, "/"))
  }

  /** The file nodes that belong in the list at loc, in input order. */
  function FileLeaves(files: seq<SolidityFile>, loc: Loc, skipKeep: bool): seq<Entry> {
    if files == [] then []
    else
      var f := files[|files| - 1];
      FileLeaves(files[..|files| - 1], loc, skipKeep)
        + (if !Skipped(f, skipKeep) && LocOf(f) == loc then [FileLeaf(f.id, f.name)] else [])
  }

  /** l' is l with entry e pushed onto the list at p. */
  ghost predicate Pushed(l: Layout, l': Layout, p: Loc, e: Entry) {
    forall loc :: ListAt(l', loc) == ListAt(l, loc) + (if loc == p then [e] else [])
  }

  lemma PushedLists(l: Layout, l': Layout, p: Loc, e: Entry)
    requires Pushed(l, l', p, e)
    ensures forall loc :: (RefKeys(ListAt(l', loc))
      == RefKeys(ListAt(l, loc)) + (if loc == p && e.FolderRef? then [e.key] else []))
    ensures forall loc :: (Leaves(ListAt(l', loc))
      == Leaves(ListAt(l, loc)) + (if loc == p && e.FileLeaf? then [e] else []))
  {
    forall loc ensures RefKeys(ListAt(l', loc))
      == RefKeys(ListAt(l, loc)) + (if loc == p && e.FolderRef? then [e.key] else [])
      && Leaves(ListAt(l', loc)) == Leaves(ListAt(l, loc)) + (if loc == p && e.FileLeaf? then [e] else [])
    {
      var old_, new_ := ListAt(l, loc), ListAt(l', loc);
      if loc == p {
        assert new_ == old_ + [e];
        EntriesSnoc(old_, e);
      } else {
        assert new_ == old_;
      }
    }
  }

  /** Pushing an entry that is a file, or a new folder into its parent's list, keeps
      every folder entry placed. */
  lemma PushedPlaced(l: Layout, l': Layout, p: Loc, e: Entry)
    requires Placed(l) && Pushed(l, l', p, e)
    requires l.folders.Keys <= l'.folders.Keys
    requires e.FolderRef? ==> e.key in l'.folders && ParentLoc(e.key) == p && e.name == LastSegment(e.key)
    ensures Placed(l')
  {
    forall loc, x | x in ListAt(l', loc) && x.FolderRef?
      ensures x.key in l'.folders && ParentLoc(x.key) == loc && x.name == LastSegment(x.key)
    {
      if !(x == e && loc == p) {
        assert x in ListAt(l, loc);
      }
    }
  }

  /** Pushing a new folder into its parent's list keeps every folder pushed once. */
  lemma PushFolder(l: Layout, l': Layout, node: Entry)
    requires Placed(l) && UniqueRefs(l)
    requires node.FolderRef? && node.key !in l.folders && node.name == LastSegment(node.key)
    requires l'.folders.Keys == l.folders.Keys + {node.key}
    requires Pushed(l, l', ParentLoc(node.key), node)
    ensures Placed(l') && UniqueRefs(l')
    ensures forall loc :: Leaves(ListAt(l', loc)) == Leaves(ListAt(l, loc))
  {
    PushedLists(l, l', ParentLoc(node.key), node);
    PushedPlaced(l, l', ParentLoc(node.key), node);
    RefKeysPlaced(l);
    forall c | c in l'.folders ensures RefCount(l', c) == 1 {
      if c == node.key {
        assert c !in RefKeys(ListAt(l, ParentLoc(c)));
      } else {
        assert RefCount(l, c) == 1;
      }
    }
  }

  /** Pushing a file entry into a list keeps the layout well placed. */
  lemma PushLeaf(l: Layout, l': Layout, leaf: Entry, at: Loc)
    requires Placed(l) && UniqueRefs(l)
    requires leaf.FileLeaf?
    requires l'.folders.Keys == l.folders.Keys
    requires Pushed(l, l', at, leaf)
    ensures Placed(l') && UniqueRefs(l')
    ensures forall loc :: Leaves(ListAt(l', loc)) == Leaves(ListAt(l, loc)) + (if loc == at then [leaf] else [])
  {
    PushedLists(l, l', at, leaf);
    PushedPlaced(l, l', at, leaf);
    forall c | c in l'.folders ensures RefCount(l', c) == 1 {
      assert RefCount(l, c) == 1;
    }
  }

  /** The lists after one step of the inner loop that creates a folder. */
  lemma AddPrefixLists(l: Layout, parts: seq<string>, k: nat, loc: Loc)
    requires Segments(parts) && k < |parts|
    requires Join(parts[..k + 1], "/") !in l.folders
    requires k > 0 ==> Join(parts[..k], "/") in l.folders
    ensures var key := Join(parts[..k + 1], "/");
      ListAt(AddPrefix(l, parts, k), loc)
        == ListAt(l, loc) + (if loc == ParentLoc(key) then [FolderRef(key, parts[k])] else [])
  {
    var key := Join(parts[..k + 1], "/");
    PrefixShape(parts, k);
    if k > 0 {
      JoinPrefixStep(parts, k, "/");
      assert Join(parts[..k], "/") != key;
    }
  }

  lemma AddPrefixStep(l: Layout, parts: seq<string>, k: nat)
    requires Segments(parts) && k < |parts|
    requires Placed(l) && UniqueRefs(l)
    requires k > 0 ==> Join(parts[..k], "/") in l.folders
    ensures AddPrefix(l, parts, k).folders.Keys == l.folders.Keys + {Join(parts[..k + 1], "/")}
    ensures Placed(AddPrefix(l, parts, k)) && UniqueRefs(AddPrefix(l, parts, k))
    ensures forall loc :: Leaves(ListAt(AddPrefix(l, parts, k), loc)) == Leaves(ListAt(l, loc))
  {
    var key := Join(parts[..k + 1], "/");
    if key !in l.folders {
      PrefixShape(parts, k);
      forall loc
        ensures ListAt(AddPrefix(l, parts, k), loc)
          == ListAt(l, loc) + (if loc == ParentLoc(key) then [FolderRef(key, parts[k])] else [])
      {
        AddPrefixLists(l, parts, k, loc);
      }
      PushFolder(l, AddPrefix(l, parts, k), FolderRef(key, parts[k]));
    }
  }

  lemma {:induction false} AddPrefixesStep(l: Layout, parts: seq<string>, n: nat)
    requires Segments(parts) && n <= |parts|
    requires Placed(l) && UniqueRefs(l)
    ensures AddPrefixes(l, parts, n).folders.Keys == l.folders.Keys + PrefixSet(parts, n)
    ensures Placed(AddPrefixes(l, parts, n)) && UniqueRefs(AddPrefixes(l, parts, n))
    ensures forall loc :: Leaves(ListAt(AddPrefixes(l, parts, n), loc)) == Leaves(ListAt(l, loc))
  {
    if n == 0 {
      assert AddPrefixes(l, parts, n) == l;
    } else {
      var k := n - 1;
      AddPrefixesStep(l, parts, k);
      var lk := AddPrefixes(l, parts, k);
      AddPrefixStep(lk, parts, k);
      assert AddPrefixes(l, parts, n) == AddPrefix(lk, parts, k);
    }
  }

  lemma AddFileStep(l: Layout, f: SolidityFile, skipKeep: bool)
    requires Placed(l) && UniqueRefs(l)
    ensures AddFile(l, f, skipKeep).folders.Keys == l.folders.Keys + FilePrefixes(f)
    ensures Placed(AddFile(l, f, skipKeep)) && UniqueRefs(AddFile(l, f, skipKeep))
    ensures forall loc :: (Leaves(ListAt(AddFile(l, f, skipKeep), loc))
      == Leaves(ListAt(l, loc)) + (if !Skipped(f, skipKeep) && LocOf(f) == loc then [FileLeaf(f.id, f.name)] else []))
  {
    var parts := PathParts(f.folderPath);
    AddPrefixesStep(l, parts, |parts|);
    var l1 := AddPrefixes(l, parts, |parts|);
    var l' := AddFile(l, f, skipKeep);
    if !Skipped(f, skipKeep) {
      var leaf := FileLeaf(f.id, f.name);
      if |parts| > 0 {
        assert parts[..|parts|] == parts;
      }
      forall loc ensures ListAt(l', loc) == ListAt(l1, loc) + (if loc == LocOf(f) then [leaf] else []) {
      }
      PushLeaf(l1, l', leaf, LocOf(f));
    }
  }

  /** The invariant of buildFileTree's loop over the files. */
  lemma {:induction false} LayoutInvariant(files: seq<SolidityFile>, skipKeep: bool)
    ensures LayoutOf(files, skipKeep).folders.Keys == AllPrefixes(files)
    ensures Placed(LayoutOf(files, skipKeep)) && UniqueRefs(LayoutOf(files, skipKeep))
    ensures forall loc :: Leaves(ListAt(LayoutOf(files, skipKeep), loc)) == FileLeaves(files, loc, skipKeep)
  {
    if files != [] {
      var init, f := files[..|files| - 1], files[|files| - 1];
      LayoutInvariant(init, skipKeep);
      AddFileStep(LayoutOf(init, skipKeep), f, skipKeep);
    }
  }

  /** buildFileTree creates a folder for exactly the distinct prefixes of the files'
      folder paths. */
  lemma FoldersArePrefixes(files: seq<SolidityFile>, skipKeep: bool)
    ensures LayoutOf(files, skipKeep).folders.Keys == AllPrefixes(files)
  {
    LayoutInvariant(files, skipKeep);
  }

  /** Each folder is pushed exactly once into the list of its parent prefix (the root
      list for a one-segment prefix). */
  lemma FolderPushedOnce(files: seq<SolidityFile>, skipKeep: bool)
    ensures forall c :: c in LayoutOf(files, skipKeep).folders ==> RefCount(LayoutOf(files, skipKeep), c) == 1
  {
    LayoutInvariant(files, skipKeep);
  }

  /** A folder entry appears only in the list of its parent prefix, and only for a
      folder that exists. */
  lemma FolderOnlyUnderParent(files: seq<SolidityFile>, skipKeep: bool, loc: Loc, c: string)
    requires c in RefKeys(ListAt(LayoutOf(files, skipKeep), loc))
    ensures c in LayoutOf(files, skipKeep).folders && ParentLoc(c) == loc
  {
    LayoutPlaced(files, skipKeep);
    RefKeysPlaced(LayoutOf(files, skipKeep));
  }

  lemma LayoutPlaced(files: seq<SolidityFile>, skipKeep: bool)
    ensures Placed(LayoutOf(files, skipKeep))
  {
    LayoutInvariant(files, skipKeep);
  }

  /** A folder node is named by the last segment of its path. */
  lemma FolderNamedBySegment(files: seq<SolidityFile>, skipKeep: bool)
    ensures forall loc, e :: e in ListAt(LayoutOf(files, skipKeep), loc) && e.FolderRef? ==>
      e.name == LastSegment(e.key)
  {
    LayoutInvariant(files, skipKeep);
  }

  /** The parent of every folder exists, so every folder hangs off the root list. */
  lemma FolderParentExists(files: seq<SolidityFile>, skipKeep: bool, c: string)
    requires c in LayoutOf(files, skipKeep).folders
    ensures ParentLoc(c).InFolder? ==> ParentLoc(c).key in LayoutOf(files, skipKeep).folders
  {
    LayoutInvariant(files, skipKeep);
    var l := LayoutOf(files, skipKeep);
    assert RefCount(l, c) == 1;
    assert c in multiset(RefKeys(ListAt(l, ParentLoc(c))));
  }

  /** The file nodes of every list are exactly the files, skipped markers aside, whose
      full folder path names that list, in input order. */
  lemma FilesPlaced(files: seq<SolidityFile>, skipKeep: bool)
    ensures forall loc :: Leaves(ListAt(LayoutOf(files, skipKeep), loc)) == FileLeaves(files, loc, skipKeep)
  {
    LayoutInvariant(files, skipKeep);
  }

  /** No other file has the id of file i, as the store's generated ids make sure. */
  predicate UniqueId(files: seq<SolidityFile>, i: nat)
    requires i < |files|
  {
    forall j :: 0 <= j < |files| && j != i ==> files[j].id != files[i].id
  }

  /** A file that is not skipped has its node in the list of its own location and
      in no other list, when no other file has its id. */
  lemma {:induction false} FileLeafOnce(files: seq<SolidityFile>, skipKeep: bool, i: nat, loc: Loc)
    requires i < |files| && UniqueId(files, i)
    ensures multiset(FileLeaves(files, loc, skipKeep))[FileLeaf(files[i].id, files[i].name)]
      == if Belongs(files[i], loc, skipKeep) then 1 else 0
    decreases |files|
  {
    var f := files[i];
    var x := FileLeaf(f.id, f.name);
    var init := files[..|files| - 1];
    var g := files[|files| - 1];
    var tail := FileLeavesLast(files, loc, skipKeep);
    if i == |files| - 1 {
      NoLeafFor(init, f.id, loc, skipKeep);
      assert multiset(FileLeaves(init, loc, skipKeep))[x] == 0;
    } else {
      assert init[i] == f;
      assert UniqueId(init, i) by {
        forall j | 0 <= j < |init| && j != i ensures init[j].id != init[i].id {
          assert init[j] == files[j];
        }
      }
      FileLeafOnce(init, skipKeep, i, loc);
      assert g.id != f.id by {
        assert files[|files| - 1] == g;
      }
      assert multiset(tail)[x] == 0;
    }
  }

  /** Whether a file's node belongs in the list at loc. */
  predicate Belongs(f: SolidityFile, loc: Loc, skipKeep: bool) {
    !Skipped(f, skipKeep) && LocOf(f) == loc
  }

  /** The leaf list of a location split into the earlier files' leaves and the last file's. */
  lemma FileLeavesLast(files: seq<SolidityFile>, loc: Loc, skipKeep: bool) returns (tail: seq<Entry>)
    requires files != []
    ensures var g := files[|files| - 1];
      tail == if Belongs(g, loc, skipKeep) then [FileLeaf(g.id, g.name)] else []
    ensures multiset(FileLeaves(files, loc, skipKeep))
      == multiset(FileLeaves(files[..|files| - 1], loc, skipKeep)) + multiset(tail)
  {
    var g := files[|files| - 1];
    tail := if Belongs(g, loc, skipKeep) then [FileLeaf(g.id, g.name)] else [];
    assert FileLeaves(files, loc, skipKeep) == FileLeaves(files[..|files| - 1], loc, skipKeep) + tail;
  }

  /** No node in the leaf lists carries an id that no file has. */
  lemma {:induction false} NoLeafFor(files: seq<SolidityFile>, id: string, loc: Loc, skipKeep: bool)
    requires forall a :: 0 <= a < |files| ==> files[a].id != id
    ensures forall e :: e in FileLeaves(files, loc, skipKeep) ==> e.FileLeaf? && e.id != id
    decreases |files|
  {
    if files != [] {
      NoLeafFor(files[..|files| - 1], id, loc, skipKeep);
    }
  }

}
