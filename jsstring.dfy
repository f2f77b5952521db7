/**
  The JavaScript string operations the editor's code relies on, stated over
  Dafny strings (sequences of characters): `trim`, `startsWith`, `endsWith`,
  `includes`, `indexOf`, `replace` with a string pattern, `split` with a
  non-empty separator, `join`, ASCII `toLowerCase`, `repeat`, decimal
  rendering of integers and the `\d+` digit run.
*/
module JsString {
  import opened Optional

  /** The code points JavaScript's `trim` removes and `\s` matches
      (WhiteSpace and LineTerminator of ECMAScript). */
  predicate IsSpace(c: char) {
    c == ' ' || c == '\t' || c == '\n' || c == '\r' || c == '\U{000B}' || c == '\U{000C}'
    || c == '\U{00A0}' || c == '\U{1680}' || ('\U{2000}' <= c <= '\U{200A}')
    || c == '\U{2028}' || c == '\U{2029}' || c == '\U{202F}' || c == '\U{205F}'
    || c == '\U{3000}' || c == '\U{FEFF}'
  }

  predicate AllSpace(s: string) {
    forall i :: 0 <= i < |s| ==> IsSpace(s[i])
  }

  /** A string that `trim` leaves alone: it neither starts nor ends with white space. */
  predicate IsTrimmed(s: string) {
    s == [] || (!IsSpace(s[0]) && !IsSpace(s[|s| - 1]))
  }

  /** Length of the leading white-space run (what `/^(\s*)/` captures). */
  function LeadingSpaces(s: string): (k: nat)
    ensures k <= |s|
    ensures AllSpace(s[..k])
    ensures k == |s| || !IsSpace(s[k])
  {
    if s == [] || !IsSpace(s[0]) then 0
    else
      var k := LeadingSpaces(s[1..]);
      assert s[1..][..k] == s[1..k + 1];
      1 + k
  }

  /** Length of the trailing white-space run. */
  function TrailingSpaces(s: string): (k: nat)
    ensures k <= |s|
    ensures AllSpace(s[|s| - k..])
    ensures k == |s| || !IsSpace(s[|s| - k - 1])
  {
    if s == [] || !IsSpace(s[|s| - 1]) then 0
    else
      var k := TrailingSpaces(s[..|s| - 1]);
      assert s[..|s| - 1][|s| - 1 - k..] == s[|s| - 1 - k..|s| - 1];
      1 + k
  }

  /** `s.trim()`: the infix left after removing white space at both ends. */
  function Trim(s: string): (r: string)
    ensures IsTrimmed(r)
    ensures |r| <= |s|
  {
    var a := LeadingSpaces(s);
    var rest := s[a..];
    rest[..|rest| - TrailingSpaces(rest)]
  }

  /** Trim keeps an infix of its argument. */
  lemma TrimInfix(s: string) returns (i: nat, j: nat)
    ensures i <= j <= |s| && Trim(s) == s[i..j]
  {
    var a := LeadingSpaces(s);
    var rest := s[a..];
    i, j := a, a + (|rest| - TrailingSpaces(rest));
    SliceOfSlice(s, a, |rest| - TrailingSpaces(rest));
  }

  /** A prefix of a suffix is an infix. */
  lemma SliceOfSlice(s: string, a: nat, n: nat)
    requires a + n <= |s|
    ensures s[a..][..n] == s[a..a + n]
  {
  }

  /** Trim leaves nothing exactly of an all-space string. */
  lemma TrimEmptyIff(s: string)
    ensures Trim(s) == "" <==> AllSpace(s)
  {
    var k := LeadingSpaces(s);
    var rest := s[k..];
    var t := TrailingSpaces(rest);
    if Trim(s) == "" {
      assert t == |rest|;
      assert rest[|rest| - t..] == rest;
      assert k == |s|;
      forall i | 0 <= i < |s| ensures IsSpace(s[i]) {
        assert s[..k][i] == s[i];
      }
    }
    if AllSpace(s) {
      assert k == |s|;
      assert rest == [];
    }
  }

  /** Padding a trimmed string with white space on both sides and trimming gives it back. */
  lemma TrimPadded(a: string, t: string, b: string)
    requires AllSpace(a) && AllSpace(b) && IsTrimmed(t)
    ensures Trim(a + t + b) == t
  {
    var s := a + t + b;
    assert s == a + (t + b);
    LeadingOfPadded(a, t + b);
    if t == [] {
      assert t + b == b + [];
      LeadingOfPadded(b, []);
      assert LeadingSpaces(s) == |s|;
      assert s[LeadingSpaces(s)..] == [];
    } else {
      assert LeadingSpaces(t + b) == 0;
      assert s[|a|..] == t + b;
      TrailingOfPadded(t, b);
      assert (t + b)[..|t + b| - |b|] == t;
    }
  }

  lemma LeadingOfPadded(a: string, u: string)
    requires AllSpace(a)
    ensures LeadingSpaces(a + u) == |a| + LeadingSpaces(u)
    decreases |a|
  {
    if a != [] {
      assert (a + u)[1..] == a[1..] + u;
      LeadingOfPadded(a[1..], u);
    } else {
      assert a + u == u;
    }
  }

  lemma TrailingOfPadded(t: string, b: string)
    requires AllSpace(b) && t != [] && !IsSpace(t[|t| - 1])
    ensures TrailingSpaces(t + b) == |b|
    decreases |b|
  {
    if b != [] {
      assert (t + b)[..|t + b| - 1] == t + b[..|b| - 1];
      TrailingOfPadded(t, b[..|b| - 1]);
    } else {
      assert t + b == t;
    }
  }

  /** Trimming twice is trimming once. */
  lemma TrimIdempotent(s: string)
    ensures Trim(Trim(s)) == Trim(s)
  {
    var t := Trim(s);
    TrimPadded([], t, []);
    assert [] + t + [] == t;
  }

  function StartsWith(s: string, p: string): bool {
    |p| <= |s| && s[..|p|] == p
  }

  function EndsWith(s: string, p: string): bool {
    |p| <= |s| && s[|s| - |p|..] == p
  }

  /** p occurs in s at position i. */
  predicate OccursAt(s: string, p: string, i: int) {
    0 <= i && i + |p| <= |s| && s[i..i + |p|] == p
  }

  /** Where p occurs, each of its characters is in place. */
  lemma OccursAtChar(s: string, p: string, i: int, j: nat)
    requires OccursAt(s, p, i) && j < |p|
    ensures s[i + j] == p[j]
  {
    assert s[i..i + |p|][j] == s[i + j];
  }

  /** `s.indexOf(p, from)`: the first occurrence at or after `from`, or -1. */
  function IndexOfFrom(s: string, p: string, from: nat): (r: int)
    ensures r == -1 || (from <= r && OccursAt(s, p, r))
    ensures forall j :: from <= j && (r == -1 || j < r) ==> !OccursAt(s, p, j)
    decreases |s| - from
  {
    if from + |p| > |s| then -1
    else if s[from..from + |p|] == p then from
    else IndexOfFrom(s, p, from + 1)
  }

  /** `s.indexOf(p)`. */
  function IndexOf(s: string, p: string): (r: int)
    ensures r == -1 || OccursAt(s, p, r)
    ensures forall j :: 0 <= j && (r == -1 || j < r) ==> !OccursAt(s, p, j)
  {
    IndexOfFrom(s, p, 0)
  }

  /** `s.includes(p)`. */
  function Contains(s: string, p: string): bool {
    IndexOf(s, p) >= 0
  }

  lemma ContainsIff(s: string, p: string)
    ensures Contains(s, p) <==> exists i :: OccursAt(s, p, i)
  {
  }

  lemma ContainsAtStart(p: string, s: string)
    ensures Contains(p + s, p)
  {
    assert OccursAt(p + s, p, 0);
  }

  /** A one-character pattern occurs exactly where the character does. */
  lemma OccursCharIff(s: string, c: char, i: int)
    ensures OccursAt(s, [c], i) <==> (0 <= i < |s| && s[i] == c)
  {
    if 0 <= i < |s| {
      assert s[i..i + 1] == [s[i]];
    }
  }

  lemma ContainsCharIff(s: string, c: char)
    ensures Contains(s, [c]) <==> c in s
  {
    if c in s {
      var i :| 0 <= i < |s| && s[i] == c;
      OccursCharIff(s, c, i);
    }
    if Contains(s, [c]) {
      OccursCharIff(s, c, IndexOf(s, [c]));
    }
  }

  /** `s.replace(p, r)` with a string pattern: only the first occurrence is replaced. */
  function ReplaceFirst(s: string, p: string, r: string): string {
    var i := IndexOf(s, p);
    if i < 0 then s else s[..i] + r + s[i + |p|..]
  }

  /** Replacing a pattern that the string starts with removes exactly that prefix. */
  lemma ReplaceFirstAtStart(p: string, s: string)
    ensures ReplaceFirst(p + s, p, "") == s
  {
    assert OccursAt(p + s, p, 0);
    assert (p + s)[|p|..] == s;
  }

  /** `s.split(sep)` for a non-empty separator. */
  function Split(s: string, sep: string): (r: seq<string>)
    requires |sep| > 0
    ensures |r| >= 1
    decreases |s|
  {
    var i := IndexOf(s, sep);
    if i < 0 then [s] else [s[..i]] + Split(s[i + |sep|..], sep)
  }

  /** `xs.join(sep)`. */
  function Join(xs: seq<string>, sep: string): string
    decreases |xs|
  {
    if |xs| == 0 then ""
    else if |xs| == 1 then xs[0]
    else xs[0] + sep + Join(xs[1..], sep)
  }

  lemma JoinCons(a: string, xs: seq<string>, sep: string)
    requires |xs| >= 1
    ensures Join([a] + xs, sep) == a + sep + Join(xs, sep)
  {
    assert ([a] + xs)[1..] == xs;
  }

  lemma {:induction false} JoinSnoc(xs: seq<string>, a: string, sep: string)
    requires |xs| >= 1
    ensures Join(xs + [a], sep) == Join(xs, sep) + sep + a
    decreases |xs|
  {
    var xa := xs + [a];
    if |xs| == 1 {
      assert xa[1..] == [a];
    } else {
      assert xa[1..] == xs[1..] + [a];
      JoinSnoc(xs[1..], a, sep);
      var j := Join(xs[1..], sep);
      assert Join(xa, sep) == xs[0] + sep + (j + sep + a);
      assert xs[0] + sep + (j + sep + a) == (xs[0] + sep + j) + sep + a;
    }
  }

  /** Joining one more element of a sequence onto the join of its first j elements. */
  lemma JoinPrefixStep(xs: seq<string>, j: nat, sep: string)
    requires j < |xs|
    ensures Join(xs[..j + 1], sep) == if j == 0 then xs[0] else Join(xs[..j], sep) + sep + xs[j]
  {
    if j == 0 {
      assert xs[..1] == [xs[0]];
    } else {
      assert xs[..j] + [xs[j]] == xs[..j + 1];
      JoinSnoc(xs[..j], xs[j], sep);
    }
  }

  /** Splitting and re-joining with the same separator gives the string back. */
  lemma {:induction false} JoinSplit(s: string, sep: string)
    requires |sep| > 0
    ensures Join(Split(s, sep), sep) == s
    decreases |s|
  {
    var i := IndexOf(s, sep);
    if i >= 0 {
      var head, rest := s[..i], s[i + |sep|..];
      var pieces := Split(rest, sep);
      assert Split(s, sep) == [head] + pieces;
      JoinSplit(rest, sep);
      JoinCons(head, pieces, sep);
      assert s[i..i + |sep|] == sep;
      assert s == head + sep + rest;
    }
  }

  /** The pieces of a split on one character never contain that character. */
  lemma {:induction false} SplitPiecesFree(s: string, c: char)
    ensures forall x :: x in Split(s, [c]) ==> c !in x
    decreases |s|
  {
    var i := IndexOf(s, [c]);
    if i < 0 {
      forall j | 0 <= j < |s| ensures s[j] != c { OccursCharIff(s, c, j); }
    } else {
      forall j | 0 <= j < i ensures s[j] != c { OccursCharIff(s, c, j); }
      assert c !in s[..i];
      SplitPiecesFree(s[i + 1..], c);
    }
  }

  /** Joining pieces free of the separator character and splitting again gives the pieces back. */
  lemma {:induction false} SplitJoin(xs: seq<string>, c: char)
    requires |xs| >= 1
    requires forall x :: x in xs ==> c !in x
    ensures Split(Join(xs, [c]), [c]) == xs
    decreases |xs|
  {
    if |xs| == 1 {
      ContainsCharIff(xs[0], c);
    } else {
      var a, rest := xs[0], xs[1..];
      assert a in xs;
      var tail := Join(rest, [c]);
      var s := a + [c] + tail;
      assert Join(xs, [c]) == s;
      OccursCharIff(s, c, |a|);
      forall j | 0 <= j < |a| ensures !OccursAt(s, [c], j) {
        assert s[j] == a[j];
        OccursCharIff(s, c, j);
      }
      assert IndexOf(s, [c]) == |a|;
      assert s[..|a|] == a;
      assert s[|a| + 1..] == tail;
      forall x | x in rest ensures c !in x { assert x in xs; }
      SplitJoin(rest, c);
      assert xs == [a] + rest;
    }
  }

  /** Splitting on one character yields one more piece than there are occurrences. */
  lemma {:induction false} SplitCount(s: string, c: char)
    ensures |Split(s, [c])| == multiset(s)[c] + 1
    decreases |s|
  {
    var i := IndexOf(s, [c]);
    if i < 0 {
      ContainsCharIff(s, c);
    } else {
      OccursCharIff(s, c, i);
      var a, rest := s[..i], s[i + 1..];
      assert s == a + [c] + rest;
      forall j | 0 <= j < |a| ensures a[j] != c { OccursCharIff(s, c, j); }
      assert c !in a;
      SplitCount(rest, c);
    }
  }

  /** `xs.filter(p => p)` (also `filter(Boolean)`): the non-empty strings, in order. */
  function NonEmpty(xs: seq<string>): (r: seq<string>)
    ensures forall i :: 0 <= i < |r| ==> r[i] != ""
    ensures forall x :: x in r ==> x in xs
    ensures forall x :: x in xs && x != "" ==> x in r
  {
    if xs == [] then []
    else (if xs[0] != "" then [xs[0]] else []) + NonEmpty(xs[1..])
  }

  /** A join of pieces whose first one is non-empty is non-empty. */
  lemma JoinNonEmpty(xs: seq<string>, sep: string)
    requires |xs| >= 1 && xs[0] != ""
    ensures Join(xs, sep) != ""
  {
  }

  /** Index of the last occurrence of c in s, or -1. */
  function LastIndexOf(s: string, c: char): (r: int)
    ensures -1 <= r < |s|
    ensures r >= 0 ==> s[r] == c
    ensures forall j :: r < j < |s| ==> s[j] != c
  {
    if s == [] then -1
    else if s[|s| - 1] == c then |s| - 1
    else LastIndexOf(s[..|s| - 1], c)
  }

  lemma {:induction false} LastIndexOfConcat(x: string, y: string, c: char)
    ensures LastIndexOf(x + y, c) ==
      if LastIndexOf(y, c) >= 0 then |x| + LastIndexOf(y, c) else LastIndexOf(x, c)
    decreases |y|
  {
    if y == [] {
      assert x + y == x;
    } else if y[|y| - 1] != c {
      assert (x + y)[..|x + y| - 1] == x + y[..|y| - 1];
      LastIndexOfConcat(x, y[..|y| - 1], c);
    }
  }

  lemma SplitWithout(s: string, c: char)
    requires c !in s
    ensures Split(s, [c]) == [s]
  {
    ContainsCharIff(s, c);
  }

  /** One step of a split on a character: the piece before its first occurrence, then the rest. */
  lemma SplitStep(s: string, c: char) returns (i: nat)
    requires c in s
    ensures i < |s| && s[i] == c && c !in s[..i]
    ensures Split(s, [c]) == [s[..i]] + Split(s[i + 1..], [c])
  {
    ContainsCharIff(s, c);
    i := IndexOf(s, [c]);
    OccursCharIff(s, c, i);
    forall j | 0 <= j < i ensures s[j] != c { OccursCharIff(s, c, j); }
  }

  /** The last element of a non-empty sequence (`xs.pop()`'s result). */
  function Last<T>(xs: seq<T>): T
    requires |xs| > 0
  {
    xs[|xs| - 1]
  }

  /** The last piece of a split on one character is what follows the last occurrence. */
  lemma {:induction false} SplitLast(s: string, c: char)
    ensures Last(Split(s, [c])) == s[LastIndexOf(s, c) + 1..]
    decreases |s|
  {
    if c !in s {
      SplitWithout(s, c);
      assert LastIndexOf(s, c) == -1;
    } else {
      var i := SplitStep(s, c);
      LastCons(s[..i], Split(s[i + 1..], [c]));
      SplitLast(s[i + 1..], c);
      LastIndexAfter(s, c, i);
    }
  }

  lemma LastCons<T>(x: T, xs: seq<T>)
    requires |xs| > 0
    ensures Last([x] + xs) == Last(xs)
  {
  }

  /** Where the last occurrence of c lies relative to an earlier occurrence at i. */
  lemma LastIndexAfter(s: string, c: char, i: nat)
    requires i < |s| && s[i] == c
    ensures s[LastIndexOf(s, c) + 1..] == s[i + 1..][LastIndexOf(s[i + 1..], c) + 1..]
  {
    var head, rest := s[..i + 1], s[i + 1..];
    assert head + rest == s;
    LastIndexOfConcat(head, rest, c);
    if LastIndexOf(rest, c) < 0 {
      assert head[|head| - 1] == c;
    }
  }

  /** ASCII `toLowerCase` of one character. */
  function LowerChar(c: char): char {
    if 'A' <= c <= 'Z' then (c as int - 'A' as int + 'a' as int) as char else c
  }

  /** `s.toLowerCase()`, on ASCII letters. */
  function Lower(s: string): (r: string)
    ensures |r| == |s|
    ensures forall i :: 0 <= i < |s| ==> r[i] == LowerChar(s[i])
  {
    seq(|s|, i requires 0 <= i < |s| => LowerChar(s[i]))
  }

  /** `c.repeat(n)` for a one-character string. */
  function Repeat(c: char, n: nat): (r: string)
    ensures |r| == n
    ensures forall i :: 0 <= i < n ==> r[i] == c
  {
    seq(n, _ => c)
  }

  predicate IsDigit(c: char) {
    '0' <= c <= '9'
  }

  predicate AllDigits(s: string) {
    forall i :: 0 <= i < |s| ==> IsDigit(s[i])
  }

  /** The decimal rendering of a non-negative integer, as template literals print it. */
  function NatToString(n: nat): (r: string)
    ensures |r| >= 1 && AllDigits(r)
  {
    var d := [(n % 10 + '0' as int) as char];
    if n < 10 then d else NatToString(n / 10) + d
  }

  /** `parseInt` of a run of decimal digits. */
  function ParseDigits(s: string): nat
    requires AllDigits(s)
  {
    if s == [] then 0 else 10 * ParseDigits(s[..|s| - 1]) + (s[|s| - 1] as int - '0' as int)
  }

  /** Printing a number and parsing its digits gives the number back. */
  lemma {:induction false} ParseNatToString(n: nat)
    ensures ParseDigits(NatToString(n)) == n
  {
    var r := NatToString(n);
    if n >= 10 {
      ParseNatToString(n / 10);
      assert r[..|r| - 1] == NatToString(n / 10);
    }
  }

  /** Length of the digit run at the start of s. */
  function DigitRun(s: string): (k: nat)
    ensures k <= |s| && AllDigits(s[..k])
    ensures k == |s| || !IsDigit(s[k])
  {
    if s == [] || !IsDigit(s[0]) then 0
    else
      var k := DigitRun(s[1..]);
      assert s[1..][..k] == s[1..k + 1];
      1 + k
  }

  /** `s.match(/(\d+)/)?.[1]`: the leftmost maximal run of decimal digits, if any. */
  function FirstDigits(s: string): (r: Option<string>)
    ensures r.Some? ==> |r.value| >= 1 && AllDigits(r.value)
    ensures r.None? <==> forall i :: 0 <= i < |s| ==> !IsDigit(s[i])
    decreases |s|
  {
    if s == [] then None
    else if IsDigit(s[0]) then Some(s[..DigitRun(s)])
    else
      var r := FirstDigits(s[1..]);
      assert forall i :: 1 <= i < |s| ==> s[i] == s[1..][i - 1];
      r
  }
}
