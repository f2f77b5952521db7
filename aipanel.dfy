/**
  The AI side panel: how it renders a vulnerability report line by line, what
  a generation run leaves in the panel and the store, and where "apply" puts the
  generated comments. The two service calls are given as their replies.
*/
module AIPanel {
  import opened Optional
  import opened JsString
  import opened Seqs
  import opened IdeTypes
  import IdeStore
  import opened UseIdeStore
  import GeminiService

  // ---------------------------------------------------------------- report lines

  /** How the report view renders one line. */
  datatype LineKind =
    | Heading   // the report title
    | Item      // a numbered vulnerability
    | Detail    // a Location/Issue/Fix line, indented
    | Divider   // a horizontal rule
    | Blank     // an empty line
    | Text      // anything else

  /** `/^[\d]+\./`: a run of at least one digit, then a dot. */
  predicate Numbered(t: string) {
    var k := DigitRun(t);
    0 < k < |t| && t[k] == '.'
  }

  predicate DetailLabel(t: string) {
    StartsWith(t, "Location:") || StartsWith(t, "Issue:") || StartsWith(t, "Fix:")
  }

  /** `/^c{5,}$/` for one character c. */
  predicate RuleOf(t: string, c: char) {
    |t| >= 5 && forall i :: 0 <= i < |t| ==> t[i] == c
  }

  predicate Separator(t: string) {
    RuleOf(t, '=') || RuleOf(t, '-')
  }

  /** The kind of a trimmed report line. */
  function Kind(t: string): LineKind {
    if StartsWith(t, GeminiService.REPORT_TITLE) then Heading
    else if Numbered(t) then Item
    else if DetailLabel(t) then Detail
    else if Separator(t) then Divider
    else if t == "" then Blank
    else Text
  }

  /** The kind of a report line, decided on the trimmed line. */
  function Classify(line: string): LineKind {
    Kind(Trim(line))
  }

  /** The report view: one rendered row per `\n`-separated line. */
  function RenderedKinds(report: string): (r: seq<LineKind>)
    ensures |r| == |Split(report, "\n")| >= 1
    ensures |r| == multiset(report)['\n'] + 1
    ensures forall i :: 0 <= i < |r| ==> r[i] == Classify(Split(report, "\n")[i])
  {
    SplitCount(report, '\n');
    Map(Split(report, "\n"), Classify)
  }

  // The same rules written as an ordered list of tests, the first that holds winning.

  function Tests(t: string): seq<bool> {
    [StartsWith(t, GeminiService.REPORT_TITLE), Numbered(t), DetailLabel(t), Separator(t), t == ""]
  }

  const RULE_KINDS: seq<LineKind> := [Heading, Item, Detail, Divider, Blank]

  function FirstMatch(tests: seq<bool>): LineKind
    requires |tests| == |RULE_KINDS|
  {
    var i := FindIndex(tests, (b: bool) => b);
    if i < 0 then Text else RULE_KINDS[i]
  }

  /** The classifier picks the kind of the first rule that matches the trimmed line. */
  lemma ClassifyFirstMatch(line: string)
    ensures Classify(line) == FirstMatch(Tests(Trim(line)))
  {
    KindFirstMatch(Trim(line));
  }

  /** A reformulation of Kind's chain of tests as the first match over the rule tests. */
  lemma KindFirstMatch(t: string)
    ensures Kind(t) == FirstMatch(Tests(t))
  {
    var tests := Tests(t);
    var p := (b: bool) => b;
    assert tests[1..][1..][1..][1..][1..] == [];
    assert FindIndex(tests, p) == (if tests[0] then 0 else if tests[1] then 1 else if tests[2] then 2
      else if tests[3] then 3 else if tests[4] then 4 else -1);
  }

  /** A character repeated at least five times is a rule, and every rule is one. */
  lemma RuleOfIff(t: string, c: char)
    ensures RuleOf(t, c) <==> |t| >= 5 && t == Repeat(c, |t|)
  {
    if RuleOf(t, c) {
      assert t == Repeat(c, |t|);
    }
  }

  /** The regular expression `/^[\d]+\./`: some non-empty digit prefix followed by a dot. */
  lemma NumberedIff(t: string)
    ensures Numbered(t) <==> exists k :: 0 < k < |t| && AllDigits(t[..k]) && t[k] == '.'
  {
    var m := DigitRun(t);
    if Numbered(t) {
      assert AllDigits(t[..m]) && t[m] == '.';
    }
    forall k | 0 < k < |t| && AllDigits(t[..k]) && t[k] == '.' ensures Numbered(t) {
      DigitRunIs(t, k);
    }
  }

  /** The digit run ends at the first non-digit. */
  lemma {:induction false} DigitRunIs(t: string, k: nat)
    requires k < |t| && AllDigits(t[..k]) && !IsDigit(t[k])
    ensures DigitRun(t) == k
  {
    if k > 0 {
      assert t[..k][0] == t[0];
      assert t[1..][..k - 1] == t[..k][1..];
      DigitRunIs(t[1..], k - 1);
    }
  }

  /** A line is rendered blank exactly when it is all white space. */
  lemma ClassifyBlankIff(line: string)
    ensures Classify(line) == Blank <==> AllSpace(line)
  {
    TrimEmptyIff(line);
    KindOfEmpty();
  }

  lemma KindOfEmpty()
    ensures Kind("") == Blank
  {
    assert DigitRun("") == 0;
  }

  /** Surrounding white space never changes how a line is rendered. */
  lemma ClassifyTrimmed(line: string)
    ensures Classify(Trim(line)) == Classify(line)
  {
    TrimIdempotent(line);
  }

  /** Four equal signs are too few for a rule: such a line is plain text. */
  lemma ShortRuleIsText()
    ensures Classify("====") == Text
  {
    TrimOfTrimmed("====");
    NotHeadingNorItem("====");
    assert !DetailLabel("====") by {
      assert "===="[..4] == "====";
    }
  }

  /** A line that starts with a non-digit other than 'S' is neither a heading nor an item. */
  lemma NotHeadingNorItem(t: string)
    requires |t| > 0 && !IsDigit(t[0]) && t[0] != 'S'
    ensures !StartsWith(t, GeminiService.REPORT_TITLE) && !Numbered(t)
  {
    var n := |GeminiService.REPORT_TITLE|;
    assert n <= |t| ==> t[..n][0] == t[0];
  }

  /** A trimmed line is its own trim. */
  lemma TrimOfTrimmed(t: string)
    requires IsTrimmed(t)
    ensures Trim(t) == t
  {
    TrimPadded([], t, []);
    assert [] + t + [] == t;
  }

  /** The formatter's title line renders as the heading. */
  lemma TitleIsHeading()
    ensures Classify(GeminiService.REPORT_TITLE) == Heading
  {
    TrimOfTrimmed(GeminiService.REPORT_TITLE);
  }

  /** The formatter's rules of 60 equal signs and of 60 dashes render as dividers. */
  lemma RulesAreDividers()
    ensures Classify(Repeat('=', GeminiService.RULE_WIDTH)) == Divider
    ensures Classify(Repeat('-', GeminiService.RULE_WIDTH)) == Divider
  {
    RuleIsDivider('=');
    RuleIsDivider('-');
  }

  lemma RuleIsDivider(c: char)
    requires c == '=' || c == '-'
    ensures Classify(Repeat(c, GeminiService.RULE_WIDTH)) == Divider
  {
    var r := Repeat(c, GeminiService.RULE_WIDTH);
    TrimOfTrimmed(r);
    RuleKind(r, c);
  }

  /** A rule of '=' or '-' characters is a divider once trimmed. */
  lemma RuleKind(r: string, c: char)
    requires c == '=' || c == '-'
    requires RuleOf(r, c)
    ensures Kind(r) == Divider
  {
    NotHeadingNorItem(r);
    assert r[..4][0] == c;
  }

  /** The line of a reported field (`   Location: …`, `   Issue: …`, `   Fix: …`)
      renders as a detail line, whatever its value. */
  lemma FieldLineIsDetail(prefix: string, v: string)
    requires prefix == "Location: " || prefix == "Issue: " || prefix == "Fix: "
    requires v != "" && IsTrimmed(v)
    ensures Classify(GeminiService.FieldLine(prefix, Some(v))) == Detail
  {
    var t := prefix + v;
    assert Trim(GeminiService.FieldLine(prefix, Some(v))) == t by {
      assert GeminiService.FieldLine(prefix, Some(v)) == "   " + t + "\n";
      assert IsTrimmed(t) by {
        assert t[|t| - 1] == v[|v| - 1];
      }
      TrimPadded("   ", t, "\n");
    }
    DetailKind(prefix, v);
  }

  lemma DetailKind(prefix: string, v: string)
    requires prefix == "Location: " || prefix == "Issue: " || prefix == "Fix: "
    ensures Kind(prefix + v) == Detail
  {
    var t := prefix + v;
    NotHeadingNorItem(t);
    assert t[..|prefix| - 1] == prefix[..|prefix| - 1];
  }

  /** The first line of a reported item (`N. **type** [severity]`) renders as an item. */
  lemma ItemLineIsItem(index: nat, v: GeminiService.Vulnerability)
    ensures Classify(GeminiService.ItemLine(index, v)) == Item
  {
    var d := NatToString(index + 1);
    var rest := ". **" + GeminiService.OrDefault(v.kind, "Unknown Vulnerability") + "** ["
      + GeminiService.OrDefault(v.severity, "Unknown") + "]";
    assert Trim(GeminiService.ItemLine(index, v)) == d + rest by {
      var t := d + rest;
      assert GeminiService.ItemLine(index, v) == [] + t + "\n";
      assert IsTrimmed(t) by {
        assert t[0] == d[0] && t[|t| - 1] == ']';
      }
      TrimPadded([], t, "\n");
    }
    ItemKind(d, rest);
  }

  /** Digits, then a dot: an item, since no digit starts the title. */
  lemma ItemKind(d: string, rest: string)
    requires |d| > 0 && AllDigits(d) && |rest| > 0 && rest[0] == '.'
    ensures Kind(d + rest) == Item
  {
    var t := d + rest;
    assert t[..|d|] == d && t[|d|] == '.';
    NumberedIff(t);
    var n := |GeminiService.REPORT_TITLE|;
    assert n <= |t| ==> t[..n][0] == t[0];
  }

  // ---------------------------------------------------------------- the panel

  datatype PanelTab = CommentsTab | VulnerabilitiesTab

  /** What one service call ended with: its text, or an error with its message
      (absent when what was thrown is not an `Error`). */
  datatype Reply = Answered(text: string) | Failed(message: Option<string>)

  const QUOTA_TOAST := "API quota exceeded. Please upgrade your plan or try again later."
  const SCAN_FAILED_TOAST := "Vulnerability scan failed, but comments were generated successfully"
  const SCAN_OVERLOADED_TOAST := "Vulnerability scan temporarily unavailable - model is overloaded. Try again in a moment."

  /** `error instanceof Error ? error.message : d`. */
  function MessageOr(message: Option<string>, d: string): string {
    if message.Some? then message.value else d
  }

  /** The toast for a failed comment generation: the quota advice when the message
      mentions the quota, the message itself otherwise. */
  function GenerationFailure(message: Option<string>): (r: Toast)
    ensures r.Error?
    ensures var m := MessageOr(message, "Failed to generate comments");
      (Contains(m, "quota") ==> r.text == QUOTA_TOAST) && (!Contains(m, "quota") ==> r.text == m)
  {
    var m := MessageOr(message, "Failed to generate comments");
    if Contains(m, "quota") then Error(QUOTA_TOAST) else Error(m)
  }

  /** The toast for a failed scan: a warning when the model is overloaded, an error otherwise. */
  function ScanFailure(message: Option<string>): (r: Toast)
    ensures r.Warning? <==> Contains(MessageOr(message, "Unknown error"), "overloaded")
                            || Contains(MessageOr(message, "Unknown error"), "503")
    ensures r.Error? ==> r.text == SCAN_FAILED_TOAST
  {
    var m := MessageOr(message, "Unknown error");
    if !Contains(m, "overloaded") && !Contains(m, "503") then Error(SCAN_FAILED_TOAST)
    else Warning(SCAN_OVERLOADED_TOAST)
  }

  /** An error without a message gets the fallback text, which does not mention the quota, so
      generation shows `Failed to generate comments`. */
  lemma GenerationFailureDefault()
    ensures GenerationFailure(None) == Error("Failed to generate comments")
  {
    NotContained("Failed to generate comments", "quota", 0);
  }

  /** An error without a message gets the fallback text `Unknown error`, which mentions neither an
      overload nor 503, so the scan shows its fixed error. */
  lemma ScanFailureDefault()
    ensures ScanFailure(None) == Error(SCAN_FAILED_TOAST)
  {
    NotContained("Unknown error", "overloaded", 1);
    NotContained("Unknown error", "503", 0);
  }

  /** A text missing one of the pattern's characters does not contain the pattern. */
  lemma NotContained(s: string, p: string, k: nat)
    requires k < |p| && p[k] !in s
    ensures !Contains(s, p)
  {
    ContainsIff(s, p);
    if Contains(s, p) {
      var i :| OccursAt(s, p, i);
      OccursAtChar(s, p, i, k);
      assert false;
    }
  }

  /** The scan's part of a successful generation: the report and the toasts it raises. */
  function ScanPart(scanEnabled: bool, scan: Reply): (string, seq<Toast>) {
    if !scanEnabled then ("", [])
    else match scan
      case Answered(report) => (report, [])
      case Failed(message) => ("", [ScanFailure(message)])
  }

  /** The panel's own state (React `useState`), over the shared store. */
  class Panel {
    const store: Store
    var generatedComments: string
    var vulnerabilityReport: string
    var activeTab: PanelTab

    constructor (store: Store)
      ensures this.store == store
      ensures generatedComments == "" && vulnerabilityReport == "" && activeTab == CommentsTab
    {
      this.store := store;
      generatedComments, vulnerabilityReport, activeTab := "", "", CommentsTab;
    }

    /** `files.find(f => f.id === activeFileId)`: the file the panel works on. */
    function ActiveFile(): Option<SolidityFile>
      reads store
    {
      IdeStore.ActiveFile(store.State())
    }

    /** generateComments, with the replies of the comment service and of the scan. Without an
        active file it only raises an error. Otherwise the store ends as it began (the
        generating flag is cleared at the end), the comments are the comment reply's text
        whatever the scan did, and the report is the scan's text when the scan was asked for
        and answered. */
    method GenerateComments(comments: Reply, scan: Reply) returns (toasts: seq<Toast>)
      modifies this, store
      ensures old(ActiveFile()).None? ==>
        toasts == [Error("No file selected")] && unchanged(this) && store.State() == old(store.State())
      ensures old(ActiveFile()).Some? ==> store.State() == old(store.State()).(isGenerating := false)
      ensures old(ActiveFile()).Some? && comments.Answered? ==>
        var (report, scanToasts) := ScanPart(old(store.aiSettings.scanVulnerabilities), scan);
        generatedComments == comments.text && vulnerabilityReport == report && activeTab == CommentsTab
        && toasts == scanToasts + [Success("Analysis complete!")]
      ensures old(ActiveFile()).Some? && comments.Failed? ==>
        generatedComments == "" && vulnerabilityReport == "" && activeTab == old(activeTab)
        && toasts == [GenerationFailure(comments.message)]
    {
      if ActiveFile().None? {
        toasts := [Error("No file selected")];
        return;
      }
      var scanEnabled := store.aiSettings.scanVulnerabilities;
      store.SetIsGenerating(true);
      generatedComments := "";
      vulnerabilityReport := "";
      toasts := [];
      match comments {
        case Answered(text) =>
          generatedComments := text;
          activeTab := CommentsTab;
          if scanEnabled {
            match scan {
              case Answered(report) =>
                vulnerabilityReport := report;
              case Failed(message) =>
                toasts := toasts + [ScanFailure(message)];
            }
          }
          toasts := toasts + [Success("Analysis complete!")];
        case Failed(message) =>
          toasts := toasts + [GenerationFailure(message)];
      }
      store.SetIsGenerating(false);
    }

    /** applyComments: writes the generated comments into the active file, or into a new
        root file named after it, and says which in a success toast; without comments or an
        active file it does nothing. */
    method ApplyComments(id: string) returns (toast: Option<Toast>)
      modifies store
      ensures generatedComments == "" || old(ActiveFile()).None? ==>
        store.State() == old(store.State()) && toast.None?
      ensures generatedComments != "" && old(ActiveFile()).Some? ==>
        store.State() == ApplyTo(old(store.State()), old(ActiveFile()).value, generatedComments, id)
        && toast == Some(AppliedToast(old(store.State()), old(ActiveFile()).value))
    {
      var file := ActiveFile();
      if generatedComments == "" || file.None? {
        return None;
      }
      toast := Some(AppliedToast(store.State(), file.value));
      if store.aiSettings.outputMode == SameFile {
        store.UpdateFileContent(file.value.id, generatedComments);
      } else {
        store.CreateFile(id, CommentedName(file.value.name), generatedComments, "");
      }
    }
  }

  /** The toast of applied comments: the file itself in same-file mode, else the new file's name. */
  function AppliedToast(s: IdeStore.StoreState, file: SolidityFile): (t: Toast)
    ensures t.Success?
    ensures s.aiSettings.outputMode == SameFile <==> t.text == "Comments applied to current file"
  {
    if s.aiSettings.outputMode == SameFile then Success("Comments applied to current file")
    else Success("Created " + CommentedName(file.name) + " with documentation")
  }

  /** The name of the separate documented file: the first `.sol` removed, `_commented.sol` added. */
  function CommentedName(name: string): string {
    ReplaceFirst(name, ".sol", "") + "_commented.sol"
  }

  /** Where the comments go: the file itself in same-file mode, else a new root file. */
  function ApplyTo(s: IdeStore.StoreState, file: SolidityFile, comments: string, id: string): IdeStore.StoreState {
    if s.aiSettings.outputMode == SameFile then IdeStore.UpdateFileContent(s, file.id, comments)
    else IdeStore.CreateFile(s, id, CommentedName(file.name), comments, "")
  }

  /** The documented file's name ends in `.sol`, so the store keeps it as given. */
  lemma CommentedNameKept(name: string)
    ensures EndsWith(CommentedName(name), ".sol")
    ensures IdeStore.CreateFileName(CommentedName(name)) == CommentedName(name)
  {
    var r := CommentedName(name);
    assert r[|r| - 4..] == ".sol";
  }

  /** For a name whose only `.sol` is its extension, the extension is replaced by `_commented.sol`. */
  lemma CommentedNameOfSol(base: string)
    requires !Contains(base, ".sol")
    ensures CommentedName(base + ".sol") == base + "_commented.sol"
  {
    var s := base + ".sol";
    IdeStore.SolOnlyAtEnd(base);
    assert IndexOf(s, ".sol") == |base|;
    assert s[..|base|] == base && s[|base| + 4..] == [];
  }
}
