/**
  The floating menu's "Format Code" action: every line of the active file is
  re-indented to an even number of spaces (half its leading white-space run,
  rounded down, times two) and trimmed. The copy, download and share actions
  only perform I/O and are not part of this model.
*/
module FloatingActionMenu {
  import opened Optional
  import opened JsString
  import opened Seqs
  import opened IdeTypes
  import IdeStore
  import opened UseIdeStore

  /** The indentation a line gets: two spaces per two characters of its leading
      white space (a tab counts as one character). */
  function Indent(line: string): string {
    Repeat(' ', 2 * (LeadingSpaces(line) / 2))
  }

  function FormatLine(line: string): string {
    Indent(line) + Trim(line)
  }

  /** The whole content, formatted line by line. */
  function Format(content: string): string {
    Join(Map(Split(content, "\n"), FormatLine), "\n")
  }

  /** A formatted line starts with an even number of plain spaces, ends without white space
      unless it is blank, and trims to what the original line trims to. */
  lemma FormatLineShape(line: string)
    ensures var r := FormatLine(line); var k := LeadingSpaces(r);
      k % 2 == 0 && k == 2 * (LeadingSpaces(line) / 2)
      && r[..k] == Repeat(' ', k)
      && (Trim(line) != "" ==> !IsSpace(r[|r| - 1]))
      && Trim(r) == Trim(line)
  {
    PaddedLeading(Indent(line), Trim(line));
    PaddedTrim(Indent(line), Trim(line));
  }

  /** White space put before a trimmed string is exactly its leading run. */
  lemma PaddedLeading(sp: string, t: string)
    requires AllSpace(sp) && IsTrimmed(t)
    ensures LeadingSpaces(sp + t) == |sp| && (sp + t)[..|sp|] == sp
  {
    LeadingOfPadded(sp, t);
    assert t != "" ==> !IsSpace(t[0]);
    assert (sp + t)[..|sp|] == sp;
  }

  /** Trimming white space put before a trimmed string gives the string back; it still ends
      where the string does. */
  lemma PaddedTrim(sp: string, t: string)
    requires AllSpace(sp) && IsTrimmed(t)
    ensures Trim(sp + t) == t
    ensures t != "" ==> (sp + t)[|sp + t| - 1] == t[|t| - 1]
  {
    TrimPadded(sp, t, []);
    assert sp + t + [] == sp + t;
  }

  /** A line of white space only keeps an even run of spaces, not the empty string. */
  lemma BlankLineKeepsSpaces(line: string)
    requires AllSpace(line)
    ensures FormatLine(line) == Repeat(' ', 2 * (|line| / 2))
  {
    LeadingOfPadded(line, []);
    assert line + [] == line;
    TrimEmptyIff(line);
  }

  /** Formatting a formatted line changes nothing. */
  lemma FormatLineIdempotent(line: string)
    ensures FormatLine(FormatLine(line)) == FormatLine(line)
  {
    FormatLineShape(line);
  }

  /** A line without a newline is formatted into one without a newline. */
  lemma FormatLineNoNewline(line: string)
    requires '\n' !in line
    ensures '\n' !in FormatLine(line)
  {
    var i, j := TrimInfix(line);
    assert forall c :: c in line[i..j] ==> c in line;
  }

  /** The formatted content has exactly the original's lines, each one formatted. */
  lemma LinesOfFormat(content: string)
    ensures Split(Format(content), "\n") == Map(Split(content, "\n"), FormatLine)
    ensures |Split(Format(content), "\n")| == |Split(content, "\n")|
  {
    var lines := Split(content, "\n");
    var out := Map(lines, FormatLine);
    SplitPiecesFree(content, '\n');
    forall x | x in out ensures '\n' !in x {
      var i :| 0 <= i < |out| && out[i] == x;
      FormatLineNoNewline(lines[i]);
    }
    SplitJoin(out, '\n');
  }

  /** Formatting twice is formatting once. */
  lemma FormatIdempotent(content: string)
    ensures Format(Format(content)) == Format(content)
  {
    var out := Map(Split(content, "\n"), FormatLine);
    LinesOfFormat(content);
    forall i | 0 <= i < |out| ensures FormatLine(out[i]) == out[i] {
      FormatLineIdempotent(Split(content, "\n")[i]);
    }
    assert Map(out, FormatLine) == out;
  }

  /** The format action: the active file's content is replaced by its formatted form and a
      `Code formatted` toast is raised; without an active file nothing happens. */
  method FormatActiveFile(store: Store) returns (toast: Option<Toast>)
    modifies store
    ensures old(IdeStore.ActiveFile(store.State())).None? ==> store.State() == old(store.State()) && toast.None?
    ensures old(IdeStore.ActiveFile(store.State())).Some? ==>
      var f := old(IdeStore.ActiveFile(store.State())).value;
      store.State() == IdeStore.UpdateFileContent(old(store.State()), f.id, Format(f.content))
      && toast == Some(Plain("Code formatted"))
  {
    toast := None;
    var file := IdeStore.ActiveFile(store.State());
    if file.Some? {
      store.UpdateFileContent(file.value.id, Format(file.value.content));
      toast := Some(Plain("Code formatted"));
    }
  }
}
