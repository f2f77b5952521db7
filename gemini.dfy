/**
  The text handling of the AI service: stripping markdown code fences from a
  model response (`cleanCodeResponse`), the retry schedule around one model
  call (`withRetry`), the delay a quota error may carry
  (`getRetryDelayFromError`) and the vulnerability report built from a scan
  response (the formatter of `detectVulnerabilities`).
*/
module GeminiService {
  import opened Optional
  import opened Seqs
  import opened JsString
  import opened IdeTypes

  // ---------------------------------------------------------------- cleanCodeResponse

  const FENCE := "```"

  /** The alternatives of the optional language tag of an opening fence, in the order the pattern tries them. */
  const LANGUAGE_TAGS: seq<string> := ["solidity", "sol", "javascript", "typescript"]

  /** s starts with the tag t, ignoring ASCII case (the `i` flag). */
  predicate TagAt(s: string, t: string) {
    |t| <= |s| && forall i :: 0 <= i < |t| ==> LowerChar(s[i]) == t[i]
  }

  /** Length of the tag the opening pattern takes at the start of s: the first
      alternative that matches, or none. */
  function TagLength(s: string): (n: nat)
    ensures n <= |s|
  {
    if TagAt(s, "solidity") then 8
    else if TagAt(s, "sol") then 3
    else if TagAt(s, "javascript") then 10
    else if TagAt(s, "typescript") then 10
    else 0
  }

  /** What the tag length measures: one of the alternatives, in the text's own case. */
  lemma TagLengthMatches(s: string)
    ensures var n := TagLength(s);
      n == 0 || exists j :: 0 <= j < |LANGUAGE_TAGS| && n == |LANGUAGE_TAGS[j]| && TagAt(s, LANGUAGE_TAGS[j])
  {
    if TagAt(s, "solidity") {
      assert LANGUAGE_TAGS[0] == "solidity";
    } else if TagAt(s, "sol") {
      assert LANGUAGE_TAGS[1] == "sol";
    } else if TagAt(s, "javascript") {
      assert LANGUAGE_TAGS[2] == "javascript";
    } else if TagAt(s, "typescript") {
      assert LANGUAGE_TAGS[3] == "typescript";
    }
  }

  /** Length of what the opening pattern removes: three backticks, an optional
      tag, and the white-space run after it (which takes in the optional newline). */
  function OpeningLength(s: string): (n: nat)
    ensures n <= |s|
  {
    if StartsWith(s, FENCE) then
      var t := 3 + TagLength(s[3..]);
      t + LeadingSpaces(s[t..])
    else 0
  }

  /** Only a text opening with a fence loses anything, and then up to its first non-space character. */
  lemma OpeningLengthSpec(s: string)
    ensures OpeningLength(s) > 0 <==> StartsWith(s, FENCE)
    ensures OpeningLength(s) > 0 ==> OpeningLength(s) == |s| || !IsSpace(s[OpeningLength(s)])
  {
    if StartsWith(s, FENCE) {
      var t := 3 + TagLength(s[3..]);
      var k := LeadingSpaces(s[t..]);
      assert k < |s[t..]| ==> s[t..][k] == s[t + k];
    }
  }

  /** The closing pattern matches at p: an optional newline, three backticks, then only white space to the end. */
  predicate ClosingAt(s: string, p: int) {
    (OccursAt(s, FENCE, p) && AllSpace(s[p + 3..]))
    || (0 <= p < |s| && s[p] == '\n' && OccursAt(s, FENCE, p + 1) && AllSpace(s[p + 4..]))
  }

  /** The leftmost position at or after `from` where the closing pattern matches, or -1. */
  function ClosingFrom(s: string, from: nat): (r: int)
    ensures r == -1 || from <= r <= |s|
    decreases |s| - from
  {
    if from + 3 > |s| then -1
    else if ClosingAt(s, from) then from
    else ClosingFrom(s, from + 1)
  }

  /** The search finds the leftmost match of the closing pattern. */
  lemma {:induction false} ClosingFromSpec(s: string, from: nat)
    ensures var r := ClosingFrom(s, from);
      (r == -1 || ClosingAt(s, r)) && forall p :: from <= p && (r == -1 || p < r) ==> !ClosingAt(s, p)
    decreases |s| - from
  {
    if from + 3 <= |s| && !ClosingAt(s, from) {
      ClosingFromSpec(s, from + 1);
    }
  }

  /** A match with none before it, from `from` on, is the one the search finds. */
  lemma {:induction false} ClosingFromFirst(s: string, from: nat, q: nat)
    requires from <= q && ClosingAt(s, q)
    requires forall p :: from <= p < q ==> !ClosingAt(s, p)
    ensures ClosingFrom(s, from) == q
    decreases q - from
  {
    if from < q {
      ClosingFromFirst(s, from + 1, q);
    }
  }

  /** The first `replace`: the opening fence, if any, removed. */
  function StripOpening(text: string): (r: string)
    ensures |r| <= |text|
  {
    text[OpeningLength(text)..]
  }

  /** The second `replace`: the closing fence, if any, removed. */
  function StripClosing(s: string): (r: string)
    ensures |r| <= |s|
  {
    var p := ClosingFrom(s, 0);
    if p < 0 then s else s[..p]
  }

  /** `cleanCodeResponse`: both replacements, then `trim`. */
  function CleanCodeResponse(text: string): (r: string)
    ensures IsTrimmed(r)
    ensures |r| <= |text|
  {
    Trim(StripClosing(StripOpening(text)))
  }

  /** Cleaning only cuts text off both ends: the result is an infix of the response. */
  lemma CleanIsInfix(text: string)
    ensures exists i, j :: 0 <= i <= j <= |text| && CleanCodeResponse(text) == text[i..j]
  {
    var n := OpeningLength(text);
    var cut := StripClosing(StripOpening(text));
    var m := |cut|;
    assert cut == text[n..n + m];
    var i, j := TrimInfix(cut);
    InfixOfInfix(text, cut, CleanCodeResponse(text), n, m, i, j);
  }

  lemma InfixOfInfix(text: string, cut: string, r: string, n: nat, m: nat, i: nat, j: nat)
    requires n + m <= |text| && cut == text[n..n + m] && i <= j <= m && r == cut[i..j]
    ensures r == text[n + i..n + j]
  {
    forall k | 0 <= k < j - i ensures r[k] == text[n + i..n + j][k] {
      assert r[k] == cut[i + k] == text[n + i + k];
    }
  }

  /** A response without fences is only trimmed. */
  lemma CleanWithoutFences(text: string)
    requires !StartsWith(text, FENCE)
    requires forall p :: !ClosingAt(text, p)
    ensures CleanCodeResponse(text) == Trim(text)
  {
    OpeningLengthSpec(text);
    ClosingFromSpec(text, 0);
    assert text[0..] == text;
  }

  /** The text a model answers with when it puts `b` in one fenced block tagged `tag`. */
  function Fenced(tag: string, b: string): string
  {
    FENCE + (tag + ("\n" + (b + ("\n" + FENCE))))
  }

  /** A tag is not matched where one of its characters differs. */
  lemma NotTagAt(s: string, t: string, i: nat)
    requires i < |t| && i < |s| && LowerChar(s[i]) != t[i]
    ensures !TagAt(s, t)
  {
  }

  /** The tag of a fence followed by a newline is read back exactly. */
  lemma TagOfFenceLine(tag: string, rest: string)
    requires tag == "" || tag in LANGUAGE_TAGS
    requires |rest| > 0 && rest[0] == '\n'
    ensures TagLength(tag + rest) == |tag|
  {
    var s := tag + rest;
    assert s[|tag|] == '\n';
    assert TagAt(s, tag) by {
      forall i | 0 <= i < |tag| ensures LowerChar(s[i]) == tag[i] {
        assert s[i] == tag[i];
      }
    }
    if tag == "" {
      NotTagAt(s, "solidity", 0);
      NotTagAt(s, "sol", 0);
      NotTagAt(s, "javascript", 0);
      NotTagAt(s, "typescript", 0);
    } else if tag == "sol" {
      NotTagAt(s, "solidity", 3);
    } else if tag == "javascript" {
      assert s[0] == 'j';
      NotTagAt(s, "solidity", 0);
      NotTagAt(s, "sol", 0);
    } else if tag == "typescript" {
      assert s[0] == 't';
      NotTagAt(s, "solidity", 0);
      NotTagAt(s, "sol", 0);
      NotTagAt(s, "javascript", 0);
    }
  }

  /** The only closing fence of `b + "\n```"` starts at the newline: every earlier
      candidate is followed by the final backtick, which is no white space. */
  lemma ClosingOfFenced(b: string)
    ensures ClosingFrom(b + ("\n" + FENCE), 0) == |b|
  {
    var x := b + ("\n" + FENCE);
    FenceLineCloses(b);
    assert |x| == |b| + 4 && x[|x| - 1] == '`';
    NoClosingBeforeLastLine(x);
    ClosingFromFirst(x, 0, |b|);
  }

  /** A fence on a line of its own at the end closes. */
  lemma FenceLineCloses(b: string)
    ensures ClosingAt(b + ("\n" + FENCE), |b|)
  {
    var x := b + ("\n" + FENCE);
    assert x[|b|] == '\n' && x[|b| + 1..|b| + 4] == FENCE;
    assert x[|b| + 4..] == [];
  }

  /** In a string ending in a non-space character, no closing fence starts before its last four characters. */
  lemma NoClosingBeforeLastLine(x: string)
    requires |x| >= 4 && !IsSpace(x[|x| - 1])
    ensures forall p :: 0 <= p < |x| - 4 ==> !ClosingAt(x, p)
  {
    forall p | 0 <= p < |x| - 4 ensures !ClosingAt(x, p) {
      NotAllSpaceBeforeEnd(x, p + 3);
      NotAllSpaceBeforeEnd(x, p + 4);
    }
  }

  /** A string ending in a non-space character has no all-space suffix from k on, for k inside it. */
  lemma NotAllSpaceBeforeEnd(x: string, k: nat)
    requires k < |x| && !IsSpace(x[|x| - 1])
    ensures !AllSpace(x[k..])
  {
    assert x[k..][|x| - 1 - k] == x[|x| - 1];
  }

  /** An opening fence with a recognised tag loses the fence, the tag and the white space after it. */
  lemma StripOpeningTagged(tag: string, after: string)
    requires TagLength(tag + after) == |tag|
    ensures StripOpening(FENCE + (tag + after)) == after[LeadingSpaces(after)..]
  {
    var text := FENCE + (tag + after);
    assert StartsWith(text, FENCE) && text[3..] == tag + after;
    assert text[3 + |tag|..] == after;
    var n := OpeningLength(text);
    assert n == 3 + |tag| + LeadingSpaces(after);
    assert text[n..] == after[LeadingSpaces(after)..];
  }

  /** After the tag, the newline that ends the fence line goes, and the body's own first
      line stays; an empty body leaves the closing line's newline to go as well. */
  lemma AfterFenceLine(b: string)
    requires IsTrimmed(b)
    ensures var after := "\n" + (b + ("\n" + FENCE));
      after[LeadingSpaces(after)..] == if b == [] then FENCE else b + ("\n" + FENCE)
  {
    var rest := b + ("\n" + FENCE);
    var after := "\n" + rest;
    LeadingOfPadded("\n", rest);
    if b == [] {
      assert rest == "\n" + FENCE;
      LeadingOfPadded("\n", FENCE);
      assert LeadingSpaces(after) == 2;
      assert after[2..] == FENCE;
    } else {
      assert rest[0] == b[0];
      assert LeadingSpaces(after) == 1;
      assert after[1..] == rest;
    }
  }

  /** The opening fence of a fenced block, its tag and the newline after it come off together. */
  lemma StripOpeningFenced(tag: string, b: string)
    requires tag == "" || tag in LANGUAGE_TAGS
    requires IsTrimmed(b)
    ensures StripOpening(Fenced(tag, b)) == if b == [] then FENCE else b + ("\n" + FENCE)
  {
    var after := "\n" + (b + ("\n" + FENCE));
    assert TagLength(tag + after) == |tag| by {
      assert (tag + after)[|tag|] == '\n';
      TagOfFenceLine(tag, after);
    }
    StripOpeningTagged(tag, after);
    AfterFenceLine(b);
  }

  /** The closing fence after a newline comes off with that newline. */
  lemma StripClosingFenced(b: string)
    ensures StripClosing(b + ("\n" + FENCE)) == b
  {
    ClosingOfFenced(b);
    DropAppend(b, "\n" + FENCE);
  }

  /** A body in a fenced block, with any accepted tag, comes back unchanged. */
  lemma FencedRoundTrip(tag: string, b: string)
    requires tag == "" || tag in LANGUAGE_TAGS
    requires IsTrimmed(b)
    ensures CleanCodeResponse(Fenced(tag, b)) == b
  {
    StripOpeningFenced(tag, b);
    if b == [] {
      assert ClosingAt(FENCE, 0);
      assert StripClosing(FENCE) == [];
    } else {
      StripClosingFenced(b);
      TrimPadded([], b, []);
      assert [] + b + [] == b;
    }
  }

  /** Only one fence is taken off each end: a doubly fenced body keeps its inner fences. */
  lemma CleanTakesOneFence(b: string)
    requires IsTrimmed(b)
    ensures CleanCodeResponse(Fenced("", Fenced("", b))) == Fenced("", b)
  {
    var inner := Fenced("", b);
    assert inner[0] == '`' && inner[|inner| - 1] == '`';
    FencedRoundTrip("", inner);
  }

  // ---------------------------------------------------------------- withRetry

  const MAX_RETRIES: nat := 3
  const INITIAL_RETRY_DELAY: nat := 1000

  /** What one call of the wrapped operation did: returned a value, or threw an
      error that `isQuotaError` classifies as `quota` and from which
      `getRetryDelayFromError` reads `retryDelay` milliseconds. */
  datatype Outcome<T> = Success(value: T) | Failure(quota: bool, retryDelay: Option<nat>)

  /** What withRetry throws: its own quota error, or the error of the given attempt. */
  datatype RetryError = QuotaExceeded | Rethrown(attempt: nat)

  datatype Settled<T> = Returned(value: T) | Thrown(error: RetryError)

  /** A whole run: how it settled, how many calls it made and the waits between them. */
  datatype Run<T> = Run(result: Settled<T>, calls: nat, waits: seq<nat>)

  function Pow2(n: nat): (r: nat)
    ensures r >= 1
  {
    if n == 0 then 1 else 2 * Pow2(n - 1)
  }

  /** The wait after a quota failure of `attempt`: the server's delay when it is
      present and not 0 (a falsy 0 falls through), else exponential back-off. */
  function BackOff(retryDelay: Option<nat>, attempt: nat): (ms: nat)
    requires attempt >= 1
    ensures ms > 0
    ensures retryDelay.None? ==> ms == INITIAL_RETRY_DELAY * Pow2(attempt - 1)
  {
    if retryDelay.Some? && retryDelay.value != 0 then retryDelay.value
    else INITIAL_RETRY_DELAY * Pow2(attempt - 1)
  }

  /** The run of withRetry from `attempt` on, where `fn(k)` is what the k-th call does. */
  function RetryFrom<T>(fn: nat -> Outcome<T>, attempt: nat): (run: Run<T>)
    requires 1 <= attempt <= MAX_RETRIES
    decreases MAX_RETRIES - attempt
  {
    match fn(attempt)
    case Success(v) => Run(Returned(v), attempt, [])
    case Failure(quota, rd) =>
      if !quota then Run(Thrown(Rethrown(attempt)), attempt, [])
      else if attempt < MAX_RETRIES then
        var rest := RetryFrom(fn, attempt + 1);
        Run(rest.result, rest.calls, [BackOff(rd, attempt)] + rest.waits)
      else Run(Thrown(QuotaExceeded), attempt, [])
  }

  /** The calls from `attempt` to `calls - 1` were quota failures; the last call settled the run. */
  ghost predicate SettledAt<T>(fn: nat -> Outcome<T>, attempt: nat, run: Run<T>)
    requires attempt >= 1
  {
    && attempt <= run.calls <= MAX_RETRIES
    && |run.waits| == run.calls - attempt
    && (forall k :: attempt <= k < run.calls ==>
          fn(k).Failure? && fn(k).quota && run.waits[k - attempt] == BackOff(fn(k).retryDelay, k))
    && match fn(run.calls)
       case Success(v) => run.result == Returned(v)
       case Failure(quota, _) =>
         if quota then run.calls == MAX_RETRIES && run.result == Thrown(QuotaExceeded)
         else run.result == Thrown(Rethrown(run.calls))
  }

  /** Every run stops at the first call that succeeds or fails without a quota
      error, or at the third call, waiting the back-off after each quota failure. */
  lemma {:induction false} RetrySettles<T>(fn: nat -> Outcome<T>, attempt: nat)
    requires 1 <= attempt <= MAX_RETRIES
    ensures SettledAt(fn, attempt, RetryFrom(fn, attempt))
    decreases MAX_RETRIES - attempt
  {
    var run := RetryFrom(fn, attempt);
    if fn(attempt).Failure? && fn(attempt).quota && attempt < MAX_RETRIES {
      var rest := RetryFrom(fn, attempt + 1);
      RetrySettles(fn, attempt + 1);
      assert run.waits == [BackOff(fn(attempt).retryDelay, attempt)] + rest.waits;
      forall k | attempt <= k < run.calls
        ensures fn(k).Failure? && fn(k).quota && run.waits[k - attempt] == BackOff(fn(k).retryDelay, k)
      {
        if k > attempt {
          assert run.waits[k - attempt] == rest.waits[k - (attempt + 1)];
        }
      }
    }
  }

  /** The operation is called at most MAX_RETRIES times, with one wait between consecutive calls. */
  lemma RetryBounded<T>(fn: nat -> Outcome<T>)
    ensures 1 <= RetryFrom(fn, 1).calls <= MAX_RETRIES
    ensures |RetryFrom(fn, 1).waits| == RetryFrom(fn, 1).calls - 1
  {
    RetrySettles(fn, 1);
  }

  /** Quota failures without retry information wait 1000 then 2000 ms, and the third throws the quota error. */
  lemma QuotaSchedule<T>(fn: nat -> Outcome<T>)
    requires forall k :: 1 <= k <= MAX_RETRIES ==> fn(k) == Failure(true, None)
    ensures RetryFrom(fn, 1) == Run(Thrown(QuotaExceeded), 3, [1000, 2000])
  {
    assert fn(1) == Failure(true, None) && fn(2) == Failure(true, None) && fn(3) == Failure(true, None);
    assert Pow2(1) == 2;
  }

  /** A first failure that is not about quota is thrown at once, with no second call. */
  lemma NonQuotaImmediate<T>(fn: nat -> Outcome<T>)
    requires fn(1).Failure? && !fn(1).quota
    ensures RetryFrom(fn, 1) == Run(Thrown(Rethrown(1)), 1, [])
  {
  }

  /** `withRetry`: up to MAX_RETRIES attempts, sleeping the back-off after each quota failure. */
  method WithRetry<T>(fn: nat -> Outcome<T>) returns (run: Run<T>)
    ensures run == RetryFrom(fn, 1)
  {
    var waits: seq<nat> := [];
    var lastError: nat := 0;
    var attempt := 1;
    while attempt <= MAX_RETRIES
      invariant 1 <= attempt <= MAX_RETRIES
      invariant RetryFrom(fn, 1) == var rest := RetryFrom(fn, attempt); Run(rest.result, rest.calls, waits + rest.waits)
      decreases MAX_RETRIES - attempt
    {
      var outcome := fn(attempt);
      if outcome.Success? {
        return Run(Returned(outcome.value), attempt, waits);
      }
      lastError := attempt;
      if outcome.quota {
        var delayMs := BackOff(outcome.retryDelay, attempt);
        if attempt < MAX_RETRIES {
          waits := waits + [delayMs];
          attempt := attempt + 1;
          continue;
        } else {
          return Run(Thrown(QuotaExceeded), attempt, waits);
        }
      }
      return Run(Thrown(Rethrown(attempt)), attempt, waits);
    }
    run := Run(Thrown(Rethrown(lastError)), lastError, waits);
  }

  // ---------------------------------------------------------------- getRetryDelayFromError

  /** One entry of an error's `details` array: its `@type` when that is a string,
      and `String(retryDelay)` when `retryDelay` is truthy. */
  datatype ErrorDetail = ErrorDetail(typeName: Option<string>, retryDelay: Option<string>)

  /** A detail the loop takes its delay from: a RetryInfo entry whose delay text holds a digit. */
  predicate Usable(d: ErrorDetail) {
    d.typeName.Some? && Contains(d.typeName.value, "RetryInfo")
    && d.retryDelay.Some? && FirstDigits(d.retryDelay.value).Some?
  }

  /** The delay of a usable detail: its first digit run, parsed, in milliseconds. */
  function DetailDelay(d: ErrorDetail): (ms: nat)
    requires Usable(d)
    ensures ms % 1000 == 0
  {
    ParseDigits(FirstDigits(d.retryDelay.value).value) * 1000
  }

  /** The delay of the first usable detail, or null. */
  function RetryDelay(details: Option<seq<ErrorDetail>>): (r: Option<nat>)
    ensures r.Some? <==> details.Some? && exists i :: 0 <= i < |details.value| && Usable(details.value[i])
    ensures r.Some? ==> r.value % 1000 == 0
  {
    if details.None? then None
    else
      var k := FindIndex(details.value, Usable);
      if k < 0 then None else Some(DetailDelay(details.value[k]))
  }

  /** A detail that is not a RetryInfo entry with digits is passed over. */
  lemma RetryDelaySkips(d: ErrorDetail, ds: seq<ErrorDetail>)
    requires !Usable(d)
    ensures RetryDelay(Some([d] + ds)) == RetryDelay(Some(ds))
  {
    var k := FindIndex([d] + ds, Usable);
    var k' := FindIndex(ds, Usable);
    if k' >= 0 {
      assert ([d] + ds)[k' + 1] == ds[k'];
    }
    if k >= 1 {
      assert ([d] + ds)[k] == ds[k - 1];
    }
  }

  /** `getRetryDelayFromError` on the error's `details` (None when absent or not an array). */
  method GetRetryDelayFromError(details: Option<seq<ErrorDetail>>) returns (r: Option<nat>)
    ensures r == RetryDelay(details)
  {
    if details.Some? {
      var ds := details.value;
      for i := 0 to |ds|
        invariant forall j :: 0 <= j < i ==> !Usable(ds[j])
      {
        var detail := ds[i];
        if detail.typeName.Some? && Contains(detail.typeName.value, "RetryInfo") && detail.retryDelay.Some? {
          var digits := FirstDigits(detail.retryDelay.value);
          if digits.Some? {
            return Some(ParseDigits(digits.value) * 1000);
          }
        }
      }
    }
    return None;
  }

  // ---------------------------------------------------------------- the vulnerability report

  const NO_VULNERABILITIES := "No vulnerabilities detected!"
  const NO_VULNERABILITIES_PHRASE := "No vulnerabilities detected"
  const VULNERABILITY_MARKER := "[VULNERABILITY]"
  const REPORT_TITLE := "SECURITY AUDIT REPORT"
  const RULE_WIDTH: nat := 60

  /** The fields a block may set; `kind` is the `type` field. */
  datatype Vulnerability = Vulnerability(
    location: Option<string>, kind: Option<string>, severity: Option<string>,
    description: Option<string>, fix: Option<string>, comment: Option<string>)

  const NO_FIELDS := Vulnerability(None, None, None, None, None, None)

  predicate NonBlank(line: string) {
    Trim(line) != ""
  }

  /** The effect of one block line on the fields read so far: text before the first
      colon names the field (trimmed, lower-cased), the rest re-joined with colons,
      trimmed, is its value. */
  function ParseField(v: Vulnerability, line: string): Vulnerability {
    var parts := Split(line, ":");
    var key := parts[0];
    if key != "" && |parts| > 1 then
      SetField(v, Lower(Trim(key)), Trim(Join(parts[1..], ":")))
    else v
  }

  /** The fields with the one a name selects set to the value; an unknown name sets nothing. */
  function SetField(v: Vulnerability, name: string, value: string): Vulnerability {
    if name == "location" then v.(location := Some(value))
    else if name == "type" then v.(kind := Some(value))
    else if name == "severity" then v.(severity := Some(value))
    else if name == "description" then v.(description := Some(value))
    else if name == "fix" then v.(fix := Some(value))
    else if name == "comment" then v.(comment := Some(value))
    else v
  }

  /** The fields after reading the given lines in order. */
  function ParseFields(lines: seq<string>): Vulnerability {
    if lines == [] then NO_FIELDS
    else ParseField(ParseFields(lines[..|lines| - 1]), lines[|lines| - 1])
  }

  /** The non-blank lines of a block. */
  function BlockLines(block: string): seq<string> {
    Filter(Split(block, "\n"), NonBlank)
  }

  /** The value a field takes from a line `key + ":" + rest`, with colons inside rest kept. */
  lemma ParseFieldLine(v: Vulnerability, key: string, rest: string)
    requires ':' !in key
    ensures ParseField(v, key + ":" + rest) == SetField(v, Lower(Trim(key)), Trim(rest))
  {
    var line := key + ":" + rest;
    OccursCharIff(line, ':', |key|);
    forall j | 0 <= j < |key| ensures !OccursAt(line, ":", j) {
      assert line[j] == key[j];
      OccursCharIff(line, ':', j);
    }
    assert IndexOf(line, ":") == |key|;
    assert line[..|key|] == key && line[|key| + 1..] == rest;
    var parts := Split(line, ":");
    assert parts[1..] == Split(rest, ":");
    JoinSplit(rest, ":");
  }

  /** A line without a colon sets nothing. */
  lemma ParseFieldNoColon(v: Vulnerability, line: string)
    requires ':' !in line
    ensures ParseField(v, line) == v
  {
    SplitWithout(line, ':');
  }

  /** The names a block line may give before its first colon. */
  const FIELD_NAMES: set<string> := {"location", "type", "severity", "description", "fix", "comment"}

  /** The field a name selects; `type` selects the vulnerability's kind. */
  function FieldOf(v: Vulnerability, name: string): (r: Option<string>)
    ensures name !in FIELD_NAMES ==> r.None?
  {
    if name == "location" then v.location
    else if name == "type" then v.kind
    else if name == "severity" then v.severity
    else if name == "description" then v.description
    else if name == "fix" then v.fix
    else if name == "comment" then v.comment
    else None
  }

  /** Setting a known field gives it the value and keeps the other five; setting an unknown
      one keeps all six. */
  lemma SetFieldOf(v: Vulnerability, name: string, value: string)
    ensures name in FIELD_NAMES ==> FieldOf(SetField(v, name, value), name) == Some(value)
    ensures name !in FIELD_NAMES ==> SetField(v, name, value) == v
    ensures forall other :: other in FIELD_NAMES && other != name ==>
      FieldOf(SetField(v, name, value), other) == FieldOf(v, other)
  {
  }

  /** The last line naming a field decides its value, and leaves the other five fields as the
      earlier lines set them. */
  lemma LaterFieldWins(lines: seq<string>, key: string, rest: string)
    requires ':' !in key && Lower(Trim(key)) in FIELD_NAMES
    ensures FieldOf(ParseFields(lines + [key + ":" + rest]), Lower(Trim(key))) == Some(Trim(rest))
    ensures forall name :: name in FIELD_NAMES && name != Lower(Trim(key)) ==>
      FieldOf(ParseFields(lines + [key + ":" + rest]), name) == FieldOf(ParseFields(lines), name)
  {
    var all := lines + [key + ":" + rest];
    assert all[..|all| - 1] == lines;
    ParseFieldLine(ParseFields(lines), key, rest);
    SetFieldOf(ParseFields(lines), Lower(Trim(key)), Trim(rest));
  }

  /** A line naming no known field changes nothing. */
  lemma UnknownFieldIgnored(lines: seq<string>, key: string, rest: string)
    requires ':' !in key && Lower(Trim(key)) !in FIELD_NAMES
    ensures ParseFields(lines + [key + ":" + rest]) == ParseFields(lines)
  {
    var all := lines + [key + ":" + rest];
    assert all[..|all| - 1] == lines;
    ParseFieldLine(ParseFields(lines), key, rest);
    SetFieldOf(ParseFields(lines), Lower(Trim(key)), Trim(rest));
  }

  /** `fields.x || fallback`. */
  function OrDefault(x: Option<string>, fallback: string): (r: string)
    ensures Truthy(x) ==> r == x.value
    ensures !Truthy(x) ==> r == fallback
  {
    if Truthy(x) then x.value else fallback
  }

  /** The printed line of a field that is set, or nothing. */
  function FieldLine(prefix: string, x: Option<string>): (r: string)
    ensures Truthy(x) ==> r == "   " + prefix + x.value + "\n"
    ensures !Truthy(x) ==> r == ""
  {
    if Truthy(x) then "   " + prefix + x.value + "\n" else ""
  }

  /** The item line of the block at `index`: its number, type and severity. */
  function ItemLine(index: nat, v: Vulnerability): string {
    NatToString(index + 1) + ". **" + OrDefault(v.kind, "Unknown Vulnerability") + "** ["
      + OrDefault(v.severity, "Unknown") + "]\n"
  }

  /** The dashed rule closing an item. */
  const ITEM_RULE := "\n" + Repeat('-', RULE_WIDTH) + "\n\n"

  /** What the block at `index` adds to the report: nothing unless it has a type or a location. */
  function Entry(index: nat, v: Vulnerability): string {
    if Truthy(v.kind) || Truthy(v.location) then
      ItemLine(index, v) + FieldLine("Location: ", v.location) + FieldLine("Issue: ", v.description)
        + FieldLine("Fix: ", v.fix) + FieldLine("", v.comment) + ITEM_RULE
    else ""
  }

  /** The report's first three lines, counting every non-blank block. */
  function ReportHeader(count: nat): string {
    REPORT_TITLE + "\n" + "Found " + NatToString(count) + " potential vulnerability(ies)\n"
      + Repeat('=', RULE_WIDTH) + "\n\n"
  }

  /** `head` with the given parts appended one after another, as `+=` does. */
  function Appended(head: string, parts: seq<string>): string {
    if parts == [] then head else Appended(head, parts[..|parts| - 1]) + parts[|parts| - 1]
  }

  /** Appending never touches what came before. */
  lemma {:induction false} AppendedKeepsHead(head: string, parts: seq<string>)
    ensures StartsWith(Appended(head, parts), head)
  {
    if parts != [] {
      var init := parts[..|parts| - 1];
      AppendedKeepsHead(head, init);
      var e := Appended(head, init);
      assert (e + parts[|parts| - 1])[..|head|] == e[..|head|];
    }
  }

  /** Appended parts that are all empty add nothing. */
  lemma {:induction false} AppendedEmpty(head: string, parts: seq<string>)
    requires forall i :: 0 <= i < |parts| ==> parts[i] == ""
    ensures Appended(head, parts) == head
  {
    if parts != [] {
      AppendedEmpty(head, parts[..|parts| - 1]);
    }
  }

  /** The text each block contributes, by index. */
  function EntryTexts(blocks: seq<string>): (r: seq<string>)
    ensures |r| == |blocks|
    ensures forall i :: 0 <= i < |blocks| ==> r[i] == Entry(i, ParseFields(BlockLines(blocks[i])))
  {
    seq(|blocks|, i requires 0 <= i < |blocks| => Entry(i, ParseFields(BlockLines(blocks[i]))))
  }

  /** The non-blank pieces of the response between `[VULNERABILITY]` markers. */
  function Blocks(text: string): seq<string> {
    Filter(Split(text, VULNERABILITY_MARKER), NonBlank)
  }

  predicate ReportsNothing(text: string) {
    Contains(text, NO_VULNERABILITIES_PHRASE) || |text| < 20 || |Blocks(text)| == 0
  }

  /** The report detectVulnerabilities returns for a cleaned response. */
  function Report(text: string): string {
    if ReportsNothing(text) then NO_VULNERABILITIES
    else
      var blocks := Blocks(text);
      Appended(ReportHeader(|blocks|), EntryTexts(blocks))
  }

  /** The report is the fixed message exactly when the response says so, is
      shorter than 20 characters, or has no non-blank block. */
  lemma ReportNothingIff(text: string)
    ensures Report(text) == NO_VULNERABILITIES <==> ReportsNothing(text)
  {
    if !ReportsNothing(text) {
      ReportOpensWithHeader(text);
      var h := ReportHeader(|Blocks(text)|);
      assert Report(text)[0] == h[0] == 'S';
    }
  }

  /** Otherwise the report opens with the header, whose count includes blocks that print nothing. */
  lemma ReportOpensWithHeader(text: string)
    requires !ReportsNothing(text)
    ensures StartsWith(Report(text), ReportHeader(|Blocks(text)|))
  {
    var blocks := Blocks(text);
    AppendedKeepsHead(ReportHeader(|blocks|), EntryTexts(blocks));
  }

  /** A block prints only when it has a type or a location. Then it opens with its number,
      which is its index plus one (so numbers skip over silent blocks), then its type in bold or
      `Unknown Vulnerability`, then its severity in brackets or `Unknown`. The Location, Issue,
      Fix and comment lines follow in that order, each only when its field is set, and the
      dashed rule closes the entry. */
  lemma EntryShape(index: nat, v: Vulnerability)
    ensures Entry(index, v) == "" <==> !Truthy(v.kind) && !Truthy(v.location)
    ensures Entry(index, v) != "" ==>
      var kind := if Truthy(v.kind) then v.kind.value else "Unknown Vulnerability";
      var severity := if Truthy(v.severity) then v.severity.value else "Unknown";
      var head := NatToString(index + 1) + ". **" + kind + "** [" + severity + "]\n";
      StartsWith(Entry(index, v), head) && EndsWith(Entry(index, v), ITEM_RULE)
      && (Truthy(v.location) ==> StartsWith(Entry(index, v), head + ("   Location: " + v.location.value + "\n")))
  ensures Entry(index, v) != "" ==>
    Entry(index, v) == ItemLine(index, v)
      + (if Truthy(v.location) then "   Location: " + v.location.value + "\n" else "")
      + (if Truthy(v.description) then "   Issue: " + v.description.value + "\n" else "")
      + (if Truthy(v.fix) then "   Fix: " + v.fix.value + "\n" else "")
      + (if Truthy(v.comment) then "   " + v.comment.value + "\n" else "")
      + ITEM_RULE
  {
    if Entry(index, v) != "" {
      ItemLineText(index, v);
      EntryFrame(index, v);
      if Truthy(v.location) {
        LocationLineText(v.location.value);
      }
      assert "   " + "Issue: " == "   Issue: ";
      assert "   " + "Fix: " == "   Fix: ";
      assert "   " + "" == "   ";
    }
  }

  /** A printed entry opens with its item line, then its location line, and closes with the rule. */
  lemma EntryFrame(index: nat, v: Vulnerability)
    requires Entry(index, v) != ""
    ensures StartsWith(Entry(index, v), ItemLine(index, v)) && EndsWith(Entry(index, v), ITEM_RULE)
    ensures StartsWith(Entry(index, v), ItemLine(index, v) + FieldLine("Location: ", v.location))
  {
    var head := ItemLine(index, v);
    var x1 := head + FieldLine("Location: ", v.location);
    var x2 := x1 + FieldLine("Issue: ", v.description);
    var x3 := x2 + FieldLine("Fix: ", v.fix);
    var x4 := x3 + FieldLine("", v.comment);
    assert Entry(index, v) == x4 + ITEM_RULE;
    ConcatEnds(head, FieldLine("Location: ", v.location));
    ConcatEnds(x4, ITEM_RULE);
    PrefixKept(x1, FieldLine("Issue: ", v.description), head);
    PrefixKept(x2, FieldLine("Fix: ", v.fix), head);
    PrefixKept(x3, FieldLine("", v.comment), head);
    PrefixKept(x4, ITEM_RULE, head);
    PrefixKept(x1, FieldLine("Issue: ", v.description), x1);
    PrefixKept(x2, FieldLine("Fix: ", v.fix), x1);
    PrefixKept(x3, FieldLine("", v.comment), x1);
    PrefixKept(x4, ITEM_RULE, x1);
  }

  /** The location line of a set location, written out. */
  lemma LocationLineText(location: string)
    requires location != ""
    ensures FieldLine("Location: ", Some(location)) == "   Location: " + location + "\n"
  {
    assert "   " + "Location: " == "   Location: ";
  }

  /** Appending keeps a prefix. */
  lemma PrefixKept(x: string, y: string, p: string)
    requires StartsWith(x, p) || x == p
    ensures StartsWith(x + y, p)
  {
    assert (x + y)[..|p|] == x[..|p|];
  }

  /** The item line with its defaults written out. */
  lemma ItemLineText(index: nat, v: Vulnerability)
    ensures ItemLine(index, v) == NatToString(index + 1) + ". **"
      + (if Truthy(v.kind) then v.kind.value else "Unknown Vulnerability") + "** ["
      + (if Truthy(v.severity) then v.severity.value else "Unknown") + "]\n"
  {
  }

  /** A concatenation starts with its first part, then its second part follows; it ends with
      its second part. */
  lemma ConcatEnds(a: string, b: string)
    ensures StartsWith(a + b, a) && (a + b)[|a|..] == b && EndsWith(a + b, b)
  {
    assert (a + b)[..|a|] == a;
    assert (a + b)[|a + b| - |b|..] == b;
  }

  /** When no block has a type or a location, the report is the header alone. */
  lemma SilentBlocks(text: string)
    requires !ReportsNothing(text)
    requires forall b :: b in Blocks(text) ==>
      var v := ParseFields(BlockLines(b)); !Truthy(v.kind) && !Truthy(v.location)
    ensures Report(text) == ReportHeader(|Blocks(text)|)
  {
    var blocks := Blocks(text);
    var texts := EntryTexts(blocks);
    forall i | 0 <= i < |texts| ensures texts[i] == "" {
      assert blocks[i] in blocks;
      EntryShape(i, ParseFields(BlockLines(blocks[i])));
    }
    AppendedEmpty(ReportHeader(|blocks|), texts);
  }

  /** The fields of one block, read line by line (the inner `forEach`). */
  method ParseBlock(block: string) returns (v: Vulnerability)
    ensures v == ParseFields(BlockLines(block))
  {
    var lines := BlockLines(block);
    v := NO_FIELDS;
    for i := 0 to |lines|
      invariant v == ParseFields(lines[..i])
    {
      assert lines[..i + 1][..i] == lines[..i];
      v := ParseField(v, lines[i]);
    }
    assert lines[..|lines|] == lines;
  }

  /** The report formatter of detectVulnerabilities, appending to the output block by block. */
  method FormatVulnerabilities(responseText: string) returns (out: string)
    ensures out == Report(responseText)
  {
    if Contains(responseText, NO_VULNERABILITIES_PHRASE) || |responseText| < 20 {
      return NO_VULNERABILITIES;
    }
    var blocks := Blocks(responseText);
    if |blocks| == 0 {
      return NO_VULNERABILITIES;
    }
    out := REPORT_TITLE + "\n";
    out := out + "Found " + NatToString(|blocks|) + " potential vulnerability(ies)\n";
    out := out + Repeat('=', RULE_WIDTH) + "\n\n";
    out := AppendEntries(out, blocks);
  }

  /** The `forEach` over the blocks: each one's entry appended to `head`. */
  method AppendEntries(head: string, blocks: seq<string>) returns (out: string)
    ensures out == Appended(head, EntryTexts(blocks))
  {
    out := head;
    for index := 0 to |blocks|
      invariant out == Appended(head, EntryTexts(blocks)[..index])
    {
      var v := ParseBlock(blocks[index]);
      var item := FormatEntry(index, v);
      assert EntryTexts(blocks)[..index + 1][..index] == EntryTexts(blocks)[..index];
      out := out + item;
    }
    assert EntryTexts(blocks)[..|blocks|] == EntryTexts(blocks);
  }

  /** The text one block appends to the report, field line by field line. */
  method FormatEntry(index: nat, v: Vulnerability) returns (item: string)
    ensures item == Entry(index, v)
  {
    item := "";
    if Truthy(v.kind) || Truthy(v.location) {
      item := ItemLine(index, v);
      item := item + FieldLine("Location: ", v.location);
      item := item + FieldLine("Issue: ", v.description);
      item := item + FieldLine("Fix: ", v.fix);
      item := item + FieldLine("", v.comment);
      item := item + ITEM_RULE;
    }
  }
}
