/**
  The breadcrumb bar above the editor: the IDE's name, then the active file's
  folders, then its name, with a chevron between consecutive crumbs.
*/
module BreadcrumbNavigation {
  import opened Optional
  import opened JsString
  import opened Seqs
  import opened IdeTypes
  import IdeStore
  import opened UseIdeStore

  datatype Crumb = Crumb(title: string, href: string, isLast: bool)

  const ROOT_TITLE := "Solidity IDE"

  predicate NonEmpty(part: string) {
    part != ""
  }

  /** `folderPath.split('/').filter(Boolean)` when the folder path is truthy, else nothing. */
  function FolderParts(folderPath: Option<string>): seq<string> {
    if Truthy(folderPath) then Filter(Split(folderPath.value, "/"), NonEmpty) else []
  }

  /** One crumb per folder segment; the last segment's crumb is flagged as last. */
  function FolderCrumbs(parts: seq<string>): seq<Crumb> {
    seq(|parts|, i requires 0 <= i < |parts| => Crumb(parts[i], "#", i == |parts| - 1))
  }

  /** The breadcrumbs for the active file, if any. */
  function Breadcrumbs(file: Option<SolidityFile>): seq<Crumb> {
    match file
    case None => [Crumb(ROOT_TITLE, "#", true)]
    case Some(f) => [Crumb(ROOT_TITLE, "#", false)] + FolderCrumbs(FolderParts(f.folderPath)) + [Crumb(f.name, "#", true)]
  }

  /** The folder segments are non-empty and free of `/`; a folder path without `/` is one segment. */
  lemma FolderPartsClean(folderPath: Option<string>)
    ensures forall k :: 0 <= k < |FolderParts(folderPath)| ==>
      FolderParts(folderPath)[k] != "" && '/' !in FolderParts(folderPath)[k]
    ensures Truthy(folderPath) && '/' !in folderPath.value ==> FolderParts(folderPath) == [folderPath.value]
  {
    if Truthy(folderPath) {
      SplitPiecesFree(folderPath.value, '/');
      if '/' !in folderPath.value {
        SplitWithout(folderPath.value, '/');
        assert Split(folderPath.value, "/") == [folderPath.value];
        assert Split(folderPath.value, "/")[1..] == [];
      }
    }
  }

  /** The first crumb is always the IDE's name. With no active file it is the only crumb and
      is the last one. With a file there are two more crumbs than folder segments: the segments
      in order, then the file name; exactly the file's crumb and the last segment's are last. */
  lemma BreadcrumbsShape(file: Option<SolidityFile>)
    ensures var c := Breadcrumbs(file);
      |c| >= 1 && c[0].title == ROOT_TITLE
      && (file.None? ==> |c| == 1 && c[0].isLast)
      && (file.Some? ==>
            var parts := FolderParts(file.value.folderPath);
            |c| == 2 + |parts|
            && (forall k :: 0 <= k < |parts| ==> c[k + 1].title == parts[k])
            && c[|c| - 1].title == file.value.name
            && (forall i :: 0 <= i < |c| ==> (c[i].isLast <==> i == |c| - 1 || (parts != [] && i == |c| - 2))))
  {
    if file.Some? {
      var f := file.value;
      FramedShape(FolderParts(f.folderPath), Crumb(ROOT_TITLE, "#", false), Crumb(f.name, "#", true));
    }
  }

  /** The folder crumbs between a first crumb that is not last and a last crumb that is. */
  lemma FramedShape(parts: seq<string>, first: Crumb, last: Crumb)
    requires !first.isLast && last.isLast
    ensures var c := [first] + FolderCrumbs(parts) + [last];
      |c| == 2 + |parts| && c[0] == first && c[|c| - 1] == last
      && (forall k :: 0 <= k < |parts| ==> c[k + 1].title == parts[k])
      && (forall i :: 0 <= i < |c| ==> (c[i].isLast <==> i == |c| - 1 || (parts != [] && i == |c| - 2)))
  {
    var mid := FolderCrumbs(parts);
    var c := [first] + mid + [last];
    forall i | 0 <= i < |c| ensures c[i] == if i == 0 then first else if i == |c| - 1 then last else mid[i - 1] {
      if 0 < i < |c| - 1 {
        assert c[i] == (([first] + mid) + [last])[i] == ([first] + mid)[i];
      }
    }
    forall i | 0 <= i < |c| ensures c[i].isLast <==> i == |c| - 1 || (parts != [] && i == |c| - 2) {
      if 0 < i < |c| - 1 {
        assert c[i] == mid[i - 1];
        assert mid[i - 1].isLast <==> i - 1 == |parts| - 1;
      }
    }
  }

  /** Builds the breadcrumbs as the component does: the root crumb first, one crumb pushed per
      folder segment, the file's crumb pushed last, or the root crumb flagged as last in place. */
  method BuildBreadcrumbs(store: Store) returns (breadcrumbs: seq<Crumb>)
    ensures breadcrumbs == Breadcrumbs(IdeStore.ActiveFile(store.State()))
  {
    breadcrumbs := [Crumb(ROOT_TITLE, "#", false)];
    var activeFile := IdeStore.ActiveFile(store.State());
    if activeFile.Some? {
      var f := activeFile.value;
      if Truthy(f.folderPath) {
        var folderParts := Filter(Split(f.folderPath.value, "/"), NonEmpty);
        var index := 0;
        while index < |folderParts|
          invariant 0 <= index <= |folderParts|
          invariant breadcrumbs == [Crumb(ROOT_TITLE, "#", false)] + FolderCrumbs(folderParts)[..index]
        {
          breadcrumbs := breadcrumbs + [Crumb(folderParts[index], "#", index == |folderParts| - 1)];
          index := index + 1;
        }
        assert FolderCrumbs(folderParts)[..index] == FolderCrumbs(folderParts);
      }
      breadcrumbs := breadcrumbs + [Crumb(f.name, "#", true)];
    } else {
      breadcrumbs := breadcrumbs[0 := breadcrumbs[0].(isLast := true)];
    }
  }

  /** Whether the crumb at `index` is followed by a chevron. */
  predicate ChevronAfter(crumbs: seq<Crumb>, index: nat) {
    index < |crumbs| - 1
  }

  /** The number of chevrons drawn from `index` on. */
  function ChevronsFrom(crumbs: seq<Crumb>, index: nat): nat
    decreases |crumbs| - index
  {
    if index >= |crumbs| then 0
    else (if ChevronAfter(crumbs, index) then 1 else 0) + ChevronsFrom(crumbs, index + 1)
  }

  /** From any crumb on, every crumb but the last is followed by a chevron. This only counts the
      chevrons; which crumbs carry one is ChevronAfter itself. */
  lemma {:induction false} ChevronsFromCount(crumbs: seq<Crumb>, index: nat)
    requires index < |crumbs|
    ensures ChevronsFrom(crumbs, index) == |crumbs| - 1 - index
    decreases |crumbs| - index
  {
    if index + 1 < |crumbs| {
      ChevronsFromCount(crumbs, index + 1);
    }
  }

  /** One chevron fewer than crumbs. */
  lemma ChevronCount(file: Option<SolidityFile>)
    ensures ChevronsFrom(Breadcrumbs(file), 0) == |Breadcrumbs(file)| - 1
  {
    BreadcrumbsShape(file);
    ChevronsFromCount(Breadcrumbs(file), 0);
  }
}
