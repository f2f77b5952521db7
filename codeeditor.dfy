/**
  The code editor: the cursor position it reports (line and column of the
  caret offset), the Tab key's splice of spaces into the content, and the
  gutter of line numbers. The caret offsets come from the text area and are
  parameters here.
*/
module CodeEditor {
  import opened Optional
  import opened JsString
  import opened IdeTypes
  import IdeStore
  import opened UseIdeStore

  /** `s.substring(a, b)`: both ends clamped to `[0, |s|]`, then swapped when out of order. */
  function Substring(s: string, a: int, b: int): (r: string)
    ensures 0 <= a <= b <= |s| ==> r == s[a..b]
    ensures |r| <= |s|
  {
    var x, y := Clamp(a, |s|), Clamp(b, |s|);
    if x <= y then s[x..y] else s[y..x]
  }

  function Clamp(x: int, n: nat): (r: nat)
    ensures r <= n
    ensures 0 <= x <= n ==> r == x
  {
    if x < 0 then 0 else if x > n then n else x
  }

  /** The text before the caret: `content.substring(0, pos)`, a prefix of the content. */
  function BeforeCaret(content: string, pos: int): (r: string)
    ensures r == content[..Clamp(pos, |content|)]
  {
    Substring(content, 0, pos)
  }

  /** The line the status bar shows: how many `\n`-separated lines the text before the caret has. */
  function CursorLine(content: string, pos: int): nat {
    |Split(BeforeCaret(content, pos), "\n")|
  }

  /** The column the status bar shows: one more than the length of the last of those lines. */
  function CursorColumn(content: string, pos: int): nat {
    |Last(Split(BeforeCaret(content, pos), "\n"))| + 1
  }

  /** The line is one more than the number of newlines before the caret. */
  lemma CursorLineCountsNewlines(content: string, pos: int)
    ensures CursorLine(content, pos) == 1 + multiset(BeforeCaret(content, pos))['\n']
  {
    SplitCount(BeforeCaret(content, pos), '\n');
  }

  /** The column is one more than the number of characters since the last newline before the caret. */
  lemma CursorColumnSinceNewline(content: string, pos: int)
    ensures var before := BeforeCaret(content, pos);
      CursorColumn(content, pos) == |before| - (LastIndexOf(before, '\n') + 1) + 1
  {
    SplitLast(BeforeCaret(content, pos), '\n');
  }

  /** At the very start the cursor is at line 1, column 1. */
  lemma CursorAtStart(content: string)
    ensures CursorLine(content, 0) == 1 && CursorColumn(content, 0) == 1
  {
    CursorLineCountsNewlines(content, 0);
    CursorColumnSinceNewline(content, 0);
  }

  /** The gutter: one number per `\n`-separated line of the content, at least one. */
  function GutterRows(content: string): (n: nat)
    ensures n == multiset(content)['\n'] + 1
  {
    SplitCount(content, '\n');
    |Split(content, "\n")|
  }

  /** The cursor line is always one of the gutter's rows, so exactly one row is highlighted. */
  lemma CursorWithinGutter(content: string, pos: int)
    ensures 1 <= CursorLine(content, pos) <= GutterRows(content)
  {
    var k := Clamp(pos, |content|);
    CursorLineCountsNewlines(content, pos);
    assert content == content[..k] + content[k..];
    assert multiset(content) == multiset(content[..k]) + multiset(content[k..]);
  }

  /** The Tab key's new content: the selection replaced by `tabSize` spaces. */
  function TabSplice(content: string, start: int, end: int, tabSize: nat): string {
    Substring(content, 0, start) + Repeat(' ', tabSize) + Substring(content, end, |content|)
  }

  /** For a selection inside the content, the text before and after it is kept, the spaces
      go in between, and the length changes by `tabSize` minus the selection's length. */
  lemma TabSpliceShape(content: string, start: int, end: int, tabSize: nat)
    requires 0 <= start <= end <= |content|
    ensures var r := TabSplice(content, start, end, tabSize);
      |r| == |content| - (end - start) + tabSize
      && r[..start] == content[..start]
      && r[start..start + tabSize] == Repeat(' ', tabSize)
      && r[start + tabSize..] == content[end..]
  {
  }

  /** The caret placed after the spaces stays on its line and moves right by `tabSize` columns. */
  lemma CaretAfterTab(content: string, start: int, end: int, tabSize: nat)
    requires 0 <= start <= end <= |content|
    ensures var r := TabSplice(content, start, end, tabSize);
      CursorLine(r, start + tabSize) == CursorLine(content, start)
      && CursorColumn(r, start + tabSize) == CursorColumn(content, start) + tabSize
  {
    var r := TabSplice(content, start, end, tabSize);
    var spaces := Repeat(' ', tabSize);
    var before := content[..start];
    assert BeforeCaret(r, start + tabSize) == before + spaces;
    assert '\n' !in spaces;
    assert multiset(before + spaces) == multiset(before) + multiset(spaces);
    assert multiset(spaces)['\n'] == 0;
    CursorLineCountsNewlines(r, start + tabSize);
    CursorLineCountsNewlines(content, start);
    CursorColumnSinceNewline(r, start + tabSize);
    CursorColumnSinceNewline(content, start);
    LastIndexOfConcat(before, spaces, '\n');
    assert LastIndexOf(spaces, '\n') == -1;
  }

  /** The editor's own state (the cursor shown in the status bar), over the shared store. */
  class Editor {
    const store: Store
    var cursorLine: nat
    var cursorCol: nat

    constructor (store: Store)
      ensures this.store == store && cursorLine == 1 && cursorCol == 1
    {
      this.store := store;
      cursorLine, cursorCol := 1, 1;
    }

    /** `activeFile?.content || ''`. */
    function Content(): string
      reads store
    {
      match IdeStore.ActiveFile(store.State())
      case Some(f) => f.content
      case None => ""
    }

    /** handleChange: the typed text becomes the active file's content, if there is an active file id. */
    method HandleChange(value: string)
      modifies store
      ensures Truthy(old(store.activeFileId)) ==>
        store.State() == IdeStore.UpdateFileContent(old(store.State()), old(store.activeFileId).value, value)
      ensures !Truthy(old(store.activeFileId)) ==> store.State() == old(store.State())
    {
      if Truthy(store.activeFileId) {
        store.UpdateFileContent(store.activeFileId.value, value);
      }
    }

    /** handleKeyDown: Tab replaces the selection by the configured number of spaces and
        returns where the caret goes. A negative tab size makes `repeat` throw, and then
        nothing happens; so does any other key. */
    method HandleKeyDown(key: string, start: int, end: int) returns (caret: Option<int>)
      modifies store
      ensures var tabSize := old(store.editorSettings.tabSize);
        if key == "Tab" && tabSize >= 0 && Truthy(old(store.activeFileId)) then
          store.State() == IdeStore.UpdateFileContent(old(store.State()), old(store.activeFileId).value,
            TabSplice(old(Content()), start, end, tabSize))
          && caret == Some(start + tabSize)
        else store.State() == old(store.State()) && caret.None?
    {
      caret := None;
      var tabSize := store.editorSettings.tabSize;
      if key != "Tab" || tabSize < 0 {
        return;
      }
      var newValue := TabSplice(Content(), start, end, tabSize);
      if Truthy(store.activeFileId) {
        store.UpdateFileContent(store.activeFileId.value, newValue);
        caret := Some(start + tabSize);
      }
    }

    /** handleCursorChange: the status bar shows the caret's line (one more than the newlines
        before it) and column (one more than the characters since the last of them). */
    method HandleCursorChange(pos: int)
      modifies this
      ensures var before := BeforeCaret(Content(), pos);
        cursorLine == 1 + multiset(before)['\n']
        && cursorCol == |before| - (LastIndexOf(before, '\n') + 1) + 1
    {
      var before := BeforeCaret(Content(), pos);
      var lines := Split(before, "\n");
      cursorLine := |lines|;
      cursorCol := |lines[|lines| - 1]| + 1;
      CursorLineCountsNewlines(Content(), pos);
      CursorColumnSinceNewline(Content(), pos);
    }
  }
}
