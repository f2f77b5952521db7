/**
  The upload panel: a single `.sol` file picked or dropped, a whole folder
  picked, or a tree of entries dropped. Each `.sol` file's path is split into
  its file name and folder path and handed to the store. What the browser
  supplies (the picked files, what each one reads as, the dropped entries) is
  given as parameters, and so are the ids the store would generate.
*/
module UploadPanel {
  import opened Optional
  import opened JsString
  import opened Seqs
  import opened IdeTypes
  import IdeStore
  import opened UseIdeStore

  /** What a FileReader delivers for a file: its text, or an error. */
  datatype ReadResult = Read(text: string) | ReadError

  /** A file from a file input; the two optional paths are those browsers set for folder picks. */
  datatype PickedFile = PickedFile(
    name: string,
    webkitRelativePath: Option<string>,
    fullPath: Option<string>,
    content: ReadResult)

  /** An entry of a drop, with the path it was found under. */
  datatype DroppedFile = DroppedFile(path: string, file: PickedFile)

  predicate IsSol(f: PickedFile) {
    EndsWith(f.name, ".sol")
  }

  predicate IsDroppedSol(d: DroppedFile) {
    IsSol(d.file)
  }

  // ---------------------------------------------------------------- paths

  /** `webkitRelativePath || fullPath || name`. */
  function PathSource(f: PickedFile): (path: string)
    ensures Truthy(f.webkitRelativePath) ==> path == f.webkitRelativePath.value
    ensures !Truthy(f.webkitRelativePath) && Truthy(f.fullPath) ==> path == f.fullPath.value
    ensures !Truthy(f.webkitRelativePath) && !Truthy(f.fullPath) ==> path == f.name
  {
    if Truthy(f.webkitRelativePath) then f.webkitRelativePath.value
    else if Truthy(f.fullPath) then f.fullPath.value
    else f.name
  }

  /** The last `/` segment of a path. */
  function FileNameOf(path: string): string {
    Last(Split(path, "/"))
  }

  /** The segments before the last, joined by `/` (`""` for a path without `/`). */
  function FolderOf(path: string): string {
    var parts := Split(path, "/");
    if |parts| > 1 then Join(parts[..|parts| - 1], "/") else ""
  }

  /** The record uploaded for a path: its file name, and its folder path unless that is empty. */
  function RecordOf(path: string, text: string): IdeStore.Upload {
    IdeStore.Upload(FileNameOf(path), text, OrAbsent(FolderOf(path)))
  }

  /** The record of a picked file follows its relative path when the picker gave one, else its
      full path; a file that has neither, with a plain name, is uploaded under that name with no
      folder. */
  lemma PickedFileRecord(f: PickedFile, text: string)
    ensures Truthy(f.webkitRelativePath) ==>
      RecordOf(PathSource(f), text) == RecordOf(f.webkitRelativePath.value, text)
    ensures !Truthy(f.webkitRelativePath) && Truthy(f.fullPath) ==>
      RecordOf(PathSource(f), text) == RecordOf(f.fullPath.value, text)
    ensures !Truthy(f.webkitRelativePath) && !Truthy(f.fullPath) && '/' !in f.name ==>
      RecordOf(PathSource(f), text) == IdeStore.Upload(f.name, text, None)
  {
    if !Truthy(f.webkitRelativePath) && !Truthy(f.fullPath) && '/' !in f.name {
      RecordOfPath(f.name, text);
    }
  }

  /** The file name never holds a `/`. */
  lemma FileNameHasNoSlash(path: string)
    ensures '/' !in FileNameOf(path)
  {
    SplitPiecesFree(path, '/');
    var parts := Split(path, "/");
    assert Last(parts) in parts;
  }

  /** A path with a `/` is its folder path, a `/` and its file name. */
  lemma PathRoundTrip(path: string)
    requires '/' in path
    ensures FolderOf(path) + "/" + FileNameOf(path) == path
  {
    var parts := Split(path, "/");
    var n := |parts|;
    SplitCount(path, '/');
    assert multiset(path)['/'] > 0;
    JoinPrefixStep(parts, n - 1, "/");
    assert parts[..n] == parts;
    JoinSplit(path, "/");
  }

  /** A path without a `/` is all file name, with no folder path. */
  lemma PathWithoutSlash(path: string)
    requires '/' !in path
    ensures FileNameOf(path) == path && FolderOf(path) == "" && RecordOf(path, "").folderPath.None?
  {
    SplitWithout(path, '/');
  }

  /** There is a folder part exactly when the path has a `/`. */
  lemma FolderPartIff(path: string)
    ensures |Split(path, "/")| > 1 <==> '/' in path
  {
    SplitCount(path, '/');
  }

  /** The record of a path names a file without `/`; when it has a folder path, the two
      joined by `/` give back the path, and when it has none the path has no non-empty folder
      part (a leading `/` alone, as in `/a.sol`, leaves the folder path empty and so absent). */
  lemma RecordOfPath(path: string, text: string)
    ensures var r := RecordOf(path, text);
      '/' !in r.name && r.content == text
      && (r.folderPath.Some? ==> r.folderPath.value + "/" + r.name == path)
      && ('/' !in path ==> r.folderPath.None? && r.name == path)
  {
    FileNameHasNoSlash(path);
    FolderPartIff(path);
    if '/' in path {
      PathRoundTrip(path);
    } else {
      PathWithoutSlash(path);
    }
  }

  // ---------------------------------------------------------------- single file

  const INVALID_TYPE := "Invalid file type. Please upload a .sol file."

  /** The first picked file is a non-empty `.sol` text, so it is uploaded. */
  predicate Uploadable(files: seq<PickedFile>) {
    files != [] && IsSol(files[0]) && files[0].content.Read? && files[0].content.text != ""
  }

  /** The toast of handleFileUpload: nothing for an empty pick, an error for a wrong
      extension, a failed read or empty content, and a success naming the file otherwise. */
  function FileUploadToast(files: seq<PickedFile>): Option<Toast> {
    if files == [] then None
    else if !IsSol(files[0]) then Some(Error(INVALID_TYPE))
    else match files[0].content
      case ReadError => Some(Error("Error reading file."))
      case Read(text) =>
        if text == "" then Some(Error("Failed to read file content."))
        else Some(Success("File \"" + files[0].name + "\" uploaded successfully!"))
  }

  /** The toast is a success exactly when a file is uploaded. */
  lemma FileUploadToastIff(files: seq<PickedFile>)
    ensures (FileUploadToast(files).Some? && FileUploadToast(files).value.Success?) <==> Uploadable(files)
  {
  }

  /** handleFileUpload: only the first file counts; it must end in `.sol` and read as
      non-empty text, and is then uploaded at the root, opened and announced. */
  method HandleFileUpload(store: Store, files: seq<PickedFile>, id: string, tabId: string)
    returns (toast: Option<Toast>)
    modifies store
    ensures toast == FileUploadToast(files)
    ensures Uploadable(files) ==>
      store.State() == IdeStore.UploadFile(old(store.State()), id, tabId, files[0].name, files[0].content.text, "")
    ensures !Uploadable(files) ==> store.State() == old(store.State())
  {
    if files == [] {
      return None;
    }
    var file := files[0];
    if !IsSol(file) {
      return Some(Error(INVALID_TYPE));
    }
    match file.content {
      case ReadError =>
        toast := Some(Error("Error reading file."));
      case Read(text) =>
        if text != "" {
          store.UploadFile(id, tabId, file.name, text, "");
          toast := Some(Success("File \"" + file.name + "\" uploaded successfully!"));
        } else {
          toast := Some(Error("Failed to read file content."));
        }
    }
  }

  // ---------------------------------------------------------------- folder pick

  /** One step of the upload loops: a read error ends them, text adds a record. */
  function Step(acc: Option<seq<IdeStore.Upload>>, path: string, content: ReadResult): Option<seq<IdeStore.Upload>> {
    match acc
    case None => None
    case Some(rs) =>
      match content
      case ReadError => None
      case Read(text) => Some(rs + [RecordOf(path, text)])
  }

  /** The records the folder loop collects over `files`, or None when a `.sol` file fails to read. */
  function FolderRecords(files: seq<PickedFile>): (r: Option<seq<IdeStore.Upload>>)
    ensures r.Some? ==> |r.value| <= |files|
    decreases |files|
  {
    if files == [] then Some([])
    else
      var f := files[|files| - 1];
      var acc := FolderRecords(files[..|files| - 1]);
      if IsSol(f) then Step(acc, PathSource(f), f.content) else acc
  }

  /** The record of a `.sol` file that read as text. */
  function FileRecord(f: PickedFile): IdeStore.Upload {
    RecordOf(PathSource(f), match f.content case Read(text) => text case ReadError => "")
  }

  predicate AllRead(fs: seq<PickedFile>) {
    forall k :: 0 <= k < |fs| ==> fs[k].content.Read?
  }

  lemma AllReadSnoc(fs: seq<PickedFile>, f: PickedFile)
    ensures AllRead(fs + [f]) <==> AllRead(fs) && f.content.Read?
  {
    if AllRead(fs) && f.content.Read? {
      forall k | 0 <= k < |fs + [f]| ensures (fs + [f])[k].content.Read? {
        if k < |fs| { assert (fs + [f])[k] == fs[k]; }
      }
    }
    if AllRead(fs + [f]) {
      assert (fs + [f])[|fs|] == f;
      forall k | 0 <= k < |fs| ensures fs[k].content.Read? {
        assert (fs + [f])[k] == fs[k];
      }
    }
  }

  /** What the folder loop has collected after a run of `.sol` files. */
  function SolRecords(sol: seq<PickedFile>): Option<seq<IdeStore.Upload>> {
    if AllRead(sol) then Some(Map(sol, FileRecord)) else None
  }

  lemma SolRecordsStep(sol: seq<PickedFile>, f: PickedFile)
    ensures Step(SolRecords(sol), PathSource(f), f.content) == SolRecords(sol + [f])
  {
    AllReadSnoc(sol, f);
    if AllRead(sol) && f.content.Read? {
      MapConcat(sol, [f], FileRecord);
      assert Map([f], FileRecord) == [FileRecord(f)];
    }
  }

  /** The folder loop succeeds exactly when every `.sol` file reads, and then uploads one
      record per `.sol` file, in the input's order, and none for any other file. */
  lemma {:induction false} FolderRecordsSpec(files: seq<PickedFile>)
    ensures FolderRecords(files) == SolRecords(Filter(files, IsSol))
    decreases |files|
  {
    if files != [] {
      var init, f := files[..|files| - 1], files[|files| - 1];
      var acc := FolderRecords(init);
      assert FolderRecords(files) == if IsSol(f) then Step(acc, PathSource(f), f.content) else acc;
      FolderRecordsSpec(init);
      var sol := Filter(init, IsSol);
      assert acc == SolRecords(sol);
      assert Filter(files, IsSol) == sol + Filter([f], IsSol) by {
        assert files == init + [f];
        FilterConcat(init, [f], IsSol);
      }
      if IsSol(f) {
        assert Filter([f], IsSol) == [f];
        SolRecordsStep(sol, f);
      } else {
        assert Filter([f], IsSol) == [];
        assert sol + [] == sol;
      }
    }
  }

  /** Once a read has failed, later files do not matter. */
  lemma {:induction false} FolderFailureStays(files: seq<PickedFile>, i: nat)
    requires i <= |files| && FolderRecords(files[..i]).None?
    ensures FolderRecords(files).None?
    decreases |files| - i
  {
    if i < |files| {
      assert files[..i + 1][..i] == files[..i];
      FolderFailureStays(files, i + 1);
    } else {
      assert files[..i] == files;
    }
  }

  function UploadedToast(count: nat, what: string): Toast {
    Success("Uploaded " + NatToString(count) + " " + what + (if count > 1 then "s" else "") + " with folder structure!")
  }

  /** handleFolderUpload: every `.sol` file of the pick is read and recorded; a read failure
      aborts before the store is touched; otherwise the records go to the store in one call. */
  method HandleFolderUpload(store: Store, files: seq<PickedFile>, fileIds: seq<string>, tabIds: seq<string>)
    returns (toast: Option<Toast>)
    requires |fileIds| >= |files| && |tabIds| >= |files|
    modifies store
    ensures files == [] ==> toast.None? && store.State() == old(store.State())
    ensures files != [] && FolderRecords(files).None? ==>
      toast == Some(Error("Error uploading folder. Please try again.")) && store.State() == old(store.State())
    ensures files != [] && FolderRecords(files) == Some([]) ==>
      toast == Some(Error("No .sol files found in the selected folder.")) && store.State() == old(store.State())
    ensures files != [] && FolderRecords(files).Some? && FolderRecords(files).value != [] ==>
      var rs := FolderRecords(files).value;
      toast == Some(UploadedToast(|rs|, "Solidity file"))
      && store.State() == IdeStore.UploadFilesWithFolders(old(store.State()),
           IdeStore.UploadedFiles(rs, fileIds[..|rs|]), IdeStore.UploadedTabs(rs, fileIds[..|rs|], tabIds[..|rs|]))
  {
    if files == [] {
      return None;
    }
    var records := CollectFolder(files);
    if records.None? {
      return Some(Error("Error uploading folder. Please try again."));
    }
    var filesToUpload := records.value;
    if |filesToUpload| == 0 {
      return Some(Error("No .sol files found in the selected folder."));
    }
    var n := |filesToUpload|;
    store.UploadFilesWithFolders(filesToUpload, fileIds[..n], tabIds[..n]);
    toast := Some(UploadedToast(n, "Solidity file"));
  }

  /** The loop of handleFolderUpload over the picked files: each `.sol` file is read and
      recorded in order, and the first read failure ends the loop with None. */
  method CollectFolder(files: seq<PickedFile>) returns (records: Option<seq<IdeStore.Upload>>)
    ensures records == FolderRecords(files)
  {
    var filesToUpload: seq<IdeStore.Upload> := [];
    var i := 0;
    while i < |files|
      invariant 0 <= i <= |files|
      invariant FolderRecords(files[..i]) == Some(filesToUpload)
    {
      var file := files[i];
      assert FolderRecords(files[..i + 1]) ==
        if IsSol(file) then Step(FolderRecords(files[..i]), PathSource(file), file.content)
        else FolderRecords(files[..i]) by {
        assert files[..i + 1][..i] == files[..i];
      }
      if IsSol(file) {
        var filePath := PathSource(file);
        match file.content {
          case ReadError =>
            FolderFailureStays(files, i + 1);
            return None;
          case Read(content) =>
            filesToUpload := filesToUpload + [RecordOf(filePath, content)];
        }
      }
      i := i + 1;
    }
    assert files[..i] == files;
    records := Some(filesToUpload);
  }

  // ---------------------------------------------------------------- drop

  /** The records the drop loop collects over the dropped `.sol` files, or None on a read error. */
  function DropRecords(sol: seq<DroppedFile>): (r: Option<seq<IdeStore.Upload>>)
    ensures r.Some? ==> |r.value| == |sol|
    decreases |sol|
  {
    if sol == [] then Some([])
    else
      var d := sol[|sol| - 1];
      Step(DropRecords(sol[..|sol| - 1]), d.path, d.file.content)
  }

  lemma {:induction false} DropFailureStays(sol: seq<DroppedFile>, i: nat)
    requires i <= |sol| && DropRecords(sol[..i]).None?
    ensures DropRecords(sol).None?
    decreases |sol| - i
  {
    if i < |sol| {
      assert sol[..i + 1][..i] == sol[..i];
      DropFailureStays(sol, i + 1);
    } else {
      assert sol[..i] == sol;
    }
  }

  /** A successful drop loop has one record per dropped `.sol` file, each named by the
      last segment of its path. */
  lemma {:induction false} DropRecordsSpec(sol: seq<DroppedFile>)
    requires DropRecords(sol).Some?
    ensures forall k :: 0 <= k < |sol| ==> DropRecords(sol).value[k].name == FileNameOf(sol[k].path)
    decreases |sol|
  {
    if sol != [] {
      DropRecordsSpec(sol[..|sol| - 1]);
    }
  }

  function DroppedSol(dropped: seq<DroppedFile>): seq<DroppedFile> {
    Filter(dropped, IsDroppedSol)
  }

  /** The loop of handleDrop over the dropped `.sol` files: each is read and recorded under
      its dropped path; a read failure aborts before the store is touched; otherwise the
      records go to the store in one call. */
  method UploadDropped(store: Store, solFiles: seq<DroppedFile>, fileIds: seq<string>, tabIds: seq<string>)
    returns (toast: Toast)
    requires |fileIds| >= |solFiles| && |tabIds| >= |solFiles|
    modifies store
    ensures DropRecords(solFiles).None? ==>
      toast == Error("Error uploading files. Please try again.") && store.State() == old(store.State())
    ensures DropRecords(solFiles).Some? ==>
      var rs := DropRecords(solFiles).value;
      toast == UploadedToast(|solFiles|, "file")
      && store.State() == IdeStore.UploadFilesWithFolders(old(store.State()),
           IdeStore.UploadedFiles(rs, fileIds[..|rs|]), IdeStore.UploadedTabs(rs, fileIds[..|rs|], tabIds[..|rs|]))
  {
    var filesToUpload: seq<IdeStore.Upload> := [];
    var i := 0;
    while i < |solFiles|
      invariant 0 <= i <= |solFiles|
      invariant DropRecords(solFiles[..i]) == Some(filesToUpload)
    {
      var d := solFiles[i];
      assert solFiles[..i + 1][..i] == solFiles[..i];
      match d.file.content {
        case ReadError =>
          DropFailureStays(solFiles, i + 1);
          return Error("Error uploading files. Please try again.");
        case Read(content) =>
          filesToUpload := filesToUpload + [RecordOf(d.path, content)];
      }
      i := i + 1;
    }
    assert solFiles[..i] == solFiles;
    var n := |filesToUpload|;
    store.UploadFilesWithFolders(filesToUpload, fileIds[..n], tabIds[..n]);
    toast := UploadedToast(|solFiles|, "file");
  }

  /** handleDrop, given the number of file-system entries found in the drop, the files they
      yield and the drop's plain file list. Without entries it is a single-file upload; otherwise
      only the `.sol` files among those found are uploaded, and there must be one. */
  method HandleDrop(store: Store, entryCount: nat, dropped: seq<DroppedFile>, plainFiles: seq<PickedFile>,
                    id: string, tabId: string, fileIds: seq<string>, tabIds: seq<string>)
    returns (toast: Option<Toast>)
    requires |fileIds| >= |dropped| && |tabIds| >= |dropped|
    modifies store
    ensures entryCount == 0 ==> toast == FileUploadToast(plainFiles)
    ensures entryCount == 0 && Uploadable(plainFiles) ==>
      store.State() == IdeStore.UploadFile(old(store.State()), id, tabId, plainFiles[0].name, plainFiles[0].content.text, "")
    ensures entryCount == 0 && !Uploadable(plainFiles) ==> store.State() == old(store.State())
    ensures entryCount > 0 && DroppedSol(dropped) == [] ==>
      toast == Some(Error("No .sol files found in the dropped items.")) && store.State() == old(store.State())
    ensures entryCount > 0 && DroppedSol(dropped) != [] && DropRecords(DroppedSol(dropped)).None? ==>
      toast == Some(Error("Error uploading files. Please try again.")) && store.State() == old(store.State())
    ensures entryCount > 0 && DroppedSol(dropped) != [] && DropRecords(DroppedSol(dropped)).Some? ==>
      var rs := DropRecords(DroppedSol(dropped)).value;
      toast == Some(UploadedToast(|rs|, "file"))
      && store.State() == IdeStore.UploadFilesWithFolders(old(store.State()),
           IdeStore.UploadedFiles(rs, fileIds[..|rs|]), IdeStore.UploadedTabs(rs, fileIds[..|rs|], tabIds[..|rs|]))
  {
    if entryCount == 0 {
      toast := HandleFileUpload(store, plainFiles, id, tabId);
      return;
    }
    var solFiles := DroppedSol(dropped);
    if |solFiles| == 0 {
      return Some(Error("No .sol files found in the dropped items."));
    }
    var t := UploadDropped(store, solFiles, fileIds, tabIds);
    toast := Some(t);
  }
}
