/**
  The records the editor keeps in its workspace store: Solidity files, the
  file-tree nodes shown by the explorer, editor tabs and the two settings
  records, plus JavaScript's truthiness of the optional strings they carry.
*/
module IdeTypes {
  import opened Optional

  /** A source file; `folderPath` is absent for a file at the workspace root.
      (The creation and update timestamps are not modelled.) */
  datatype SolidityFile = SolidityFile(
    id: string,
    name: string,
    content: string,
    isModified: bool,
    folderPath: Option<string>)

  /** The `type` tag of a tree node. */
  datatype NodeKind = FileKind | FolderKind

  /** A node of the explorer tree: folders carry `children`, files carry `fileId`. */
  datatype FileNode = FileNode(
    id: string,
    name: string,
    kind: NodeKind,
    children: Children,
    fileId: Option<string>)

  /** The optional `children` array of a node. */
  datatype Children = NoChildren | ChildList(nodes: seq<FileNode>)

  datatype Theme = Dark | Light

  datatype EditorSettings = EditorSettings(
    theme: Theme,
    fontSize: int,
    tabSize: int,
    wordWrap: bool,
    lineNumbers: bool,
    autoSave: bool)

  datatype OutputMode = SameFile | SeparateFile

  datatype CommentStyle = NatSpec | Inline | Both

  datatype AICommentSettings = AICommentSettings(
    outputMode: OutputMode,
    commentStyle: CommentStyle,
    includeParamDocs: bool,
    includeReturnDocs: bool,
    includeDevNotes: bool,
    scanVulnerabilities: bool,
    language: string)

  /** An editor tab showing one file. */
  datatype Tab = Tab(
    id: string,
    fileId: string,
    fileName: string,
    isPinned: Option<bool>,
    group: Option<string>)

  /** A toast notification of the given kind. */
  /** A toast by its kind and title; `Plain` is the untyped `toast({title})`. */
  datatype Toast = Success(text: string) | Warning(text: string) | Error(text: string) | Plain(text: string)

  /** JavaScript truthiness of an optional string: absent and `""` are falsy. */
  predicate Truthy(s: Option<string>) {
    s.Some? && s.value != ""
  }

  /** `s || ''`. */
  function OrEmpty(s: Option<string>): (r: string)
    ensures Truthy(s) <==> r != ""
    ensures r != "" ==> s == Some(r)
  {
    if Truthy(s) then s.value else ""
  }

  /** `s || undefined` (and `s || null`): a falsy string becomes absent. */
  function OrAbsent(s: string): (r: Option<string>)
    ensures r.None? <==> s == ""
    ensures r.Some? ==> r.value == s
  {
    if s == "" then None else Some(s)
  }

  /** `x || y` on optional strings. */
  function OrElse(x: Option<string>, y: Option<string>): (r: Option<string>)
    ensures Truthy(x) ==> r == x
    ensures !Truthy(x) ==> r == y
  {
    if Truthy(x) then x else y
  }

  /** Truthiness of an optional flag (`tab.isPinned`). */
  predicate IsTrue(b: Option<bool>) {
    b == Some(true)
  }
}
