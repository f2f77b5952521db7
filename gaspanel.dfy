/**
  The gas estimation panel: the total of the per-function estimates and the
  colour band of each figure. The estimates come from an analyser that is not
  part of this model; they are given as the entries of the map it returns, in
  the map's iteration order, with integer gas figures.
*/
module GasEstimationPanel {
  import opened Seqs

  datatype GasEntry = GasEntry(funcName: string, gas: int)

  // ---------------------------------------------------------------- bands

  const DESTRUCTIVE_ABOVE := 100000
  const WARNING_ABOVE := 50000
  const YELLOW_ABOVE := 30000

  /** `getGasClass`: the text colour of a gas figure. */
  function GasClass(gas: int): string {
    if gas > DESTRUCTIVE_ABOVE then "text-destructive"
    else if gas > WARNING_ABOVE then "text-warning"
    else if gas > YELLOW_ABOVE then "text-yellow-500"
    else "text-success"
  }

  /** The colour of a function's gas bar, chosen by its own chain of comparisons. */
  function BarClass(gas: int): string {
    if gas > DESTRUCTIVE_ABOVE then "bg-destructive"
    else if gas > WARNING_ABOVE then "bg-warning"
    else if gas > YELLOW_ABOVE then "bg-yellow-500"
    else "bg-success"
  }

  /** The four bands, from lowest to highest. */
  datatype Band = Low | Medium | High | VeryHigh

  function Rank(b: Band): nat {
    match b
    case Low => 0
    case Medium => 1
    case High => 2
    case VeryHigh => 3
  }

  /** The band of a figure, by the half-open ranges (30000, 50000], (50000, 100000] and above. */
  function BandOf(gas: int): (b: Band)
    ensures b == VeryHigh <==> DESTRUCTIVE_ABOVE < gas
    ensures b == High <==> WARNING_ABOVE < gas <= DESTRUCTIVE_ABOVE
    ensures b == Medium <==> YELLOW_ABOVE < gas <= WARNING_ABOVE
    ensures b == Low <==> gas <= YELLOW_ABOVE
  {
    if gas <= YELLOW_ABOVE then Low
    else if gas <= WARNING_ABOVE then Medium
    else if gas <= DESTRUCTIVE_ABOVE then High
    else VeryHigh
  }

  /** The text class of each band. */
  function TextClassOf(b: Band): string {
    match b
    case VeryHigh => "text-destructive"
    case High => "text-warning"
    case Medium => "text-yellow-500"
    case Low => "text-success"
  }

  /** The bar colour of each band. */
  function BarClassOf(b: Band): string {
    match b
    case VeryHigh => "bg-destructive"
    case High => "bg-warning"
    case Medium => "bg-yellow-500"
    case Low => "bg-success"
  }

  /** The text class and the bar colour are both functions of the band, so they use the same thresholds. */
  lemma ClassesFollowBand(gas: int)
    ensures GasClass(gas) == TextClassOf(BandOf(gas))
    ensures BarClass(gas) == BarClassOf(BandOf(gas))
  {
  }

  /** Two figures get the same text class exactly when they get the same bar colour, which is
      exactly when they are in the same band. */
  lemma SameClassIffSameBand(g1: int, g2: int)
    ensures GasClass(g1) == GasClass(g2) <==> BandOf(g1) == BandOf(g2)
    ensures BarClass(g1) == BarClass(g2) <==> BandOf(g1) == BandOf(g2)
  {
    ClassesFollowBand(g1);
    ClassesFollowBand(g2);
    var t1, t2 := TextClassOf(BandOf(g1)), TextClassOf(BandOf(g2));
    var c1, c2 := BarClassOf(BandOf(g1)), BarClassOf(BandOf(g2));
    if BandOf(g1) != BandOf(g2) {
      assert t1 != t2 by {
        assert t1[5] != t2[5];
      }
      assert c1 != c2 by {
        assert c1[3] != c2[3];
      }
    }
  }

  /** The comparisons are strict: each threshold itself falls in the band below it. */
  lemma Boundaries()
    ensures GasClass(100000) == "text-warning" && GasClass(100001) == "text-destructive"
    ensures GasClass(50000) == "text-yellow-500" && GasClass(50001) == "text-warning"
    ensures GasClass(30000) == "text-success" && GasClass(30001) == "text-yellow-500"
  {
  }

  /** More gas never gives a lower band. */
  lemma BandMonotone(g1: int, g2: int)
    requires g1 <= g2
    ensures Rank(BandOf(g1)) <= Rank(BandOf(g2))
  {
  }

  // ---------------------------------------------------------------- total

  /** `Array.from(values()).reduce((a, b) => a + b, 0)`: the left-to-right sum. */
  function TotalGas(entries: seq<GasEntry>): int
    decreases |entries|
  {
    if entries == [] then 0 else TotalGas(entries[..|entries| - 1]) + entries[|entries| - 1].gas
  }

  /** The sum splits over a concatenation. */
  lemma {:induction false} TotalConcat(a: seq<GasEntry>, b: seq<GasEntry>)
    ensures TotalGas(a + b) == TotalGas(a) + TotalGas(b)
    decreases |b|
  {
    if b == [] {
      assert a + b == a;
    } else {
      var b' := b[..|b| - 1];
      assert (a + b)[..|a + b| - 1] == a + b';
      TotalConcat(a, b');
    }
  }

  /** Taking one entry out of the sequence takes its figure out of the total. */
  lemma TotalRemove(s: seq<GasEntry>, k: nat)
    requires k < |s|
    ensures TotalGas(s) == TotalGas(s[..k] + s[k + 1..]) + s[k].gas
  {
    var pre, post := s[..k], s[k + 1..];
    var head := s[..k + 1];
    assert s == head + post;
    TotalConcat(head, post);
    TotalConcat(pre, post);
    assert head[..|head| - 1] == pre && head[|head| - 1] == s[k];
  }

  /** The total does not depend on the order the entries are visited in. */
  lemma {:induction false} TotalPermutation(a: seq<GasEntry>, b: seq<GasEntry>)
    requires multiset(a) == multiset(b)
    ensures TotalGas(a) == TotalGas(b)
    decreases |a|
  {
    if a != [] {
      var x := a[|a| - 1];
      var a' := a[..|a| - 1];
      assert x in multiset(b);
      var k :| 0 <= k < |b| && b[k] == x;
      var b' := b[..k] + b[k + 1..];
      assert multiset(a') == multiset(b') by {
        RemoveOne(a, |a| - 1);
        RemoveOne(b, k);
        assert a[..|a| - 1] + a[|a|..] == a';
      }
      TotalPermutation(a', b');
      TotalRemove(b, k);
    } else {
      assert |multiset(b)| == 0;
    }
  }

  /** Taking one element out of a sequence takes one occurrence out of its multiset. */
  lemma RemoveOne(s: seq<GasEntry>, k: nat)
    requires k < |s|
    ensures multiset(s[..k] + s[k + 1..]) == multiset(s) - multiset{s[k]}
  {
    assert s == s[..k] + [s[k]] + s[k + 1..];
    assert multiset(s) == multiset(s[..k]) + multiset{s[k]} + multiset(s[k + 1..]);
  }

  /** With non-negative estimates the total is at least every single estimate. */
  lemma TotalBoundsEach(entries: seq<GasEntry>, k: nat)
    requires forall i :: 0 <= i < |entries| ==> entries[i].gas >= 0
    requires k < |entries|
    ensures TotalGas(entries) >= entries[k].gas
  {
    var pre, post := entries[..k], entries[k..];
    assert entries == pre + post;
    TotalConcat(pre, post);
    TotalNonNegative(pre);
    assert post == [entries[k]] + post[1..];
    TotalConcat([entries[k]], post[1..]);
    TotalNonNegative(post[1..]);
    assert [entries[k]][..0] == [];
  }

  lemma {:induction false} TotalNonNegative(entries: seq<GasEntry>)
    requires forall i :: 0 <= i < |entries| ==> entries[i].gas >= 0
    ensures TotalGas(entries) >= 0
    decreases |entries|
  {
    if entries != [] {
      TotalNonNegative(entries[..|entries| - 1]);
    }
  }

  // ---------------------------------------------------------------- panel

  datatype Row = Row(funcName: string, gas: int, textClass: string, barClass: string)

  /** What the panel shows: a message when there are no estimates, else the total and one row per function. */
  datatype View =
    | NoFunctionsFound
    | Summary(total: int, totalClass: string, rows: seq<Row>)

  function RowOf(e: GasEntry): Row {
    Row(e.funcName, e.gas, GasClass(e.gas), BarClass(e.gas))
  }

  function PanelView(entries: seq<GasEntry>): View {
    if |entries| == 0 then NoFunctionsFound
    else Summary(TotalGas(entries), GasClass(TotalGas(entries)), Map(entries, RowOf))
  }

  /** The message is shown exactly when there are no estimates; otherwise the total is the sum,
      coloured by its own band, and each function has one row, in order, whose text and bar
      share the band of its figure. */
  lemma PanelViewSpec(entries: seq<GasEntry>)
    ensures PanelView(entries).NoFunctionsFound? <==> entries == []
    ensures entries != [] ==>
      var v := PanelView(entries);
      v.total == TotalGas(entries) && v.totalClass == TextClassOf(BandOf(v.total))
      && |v.rows| == |entries|
      && forall i :: 0 <= i < |entries| ==>
           v.rows[i].funcName == entries[i].funcName && v.rows[i].gas == entries[i].gas
           && v.rows[i].textClass == TextClassOf(BandOf(entries[i].gas))
           && v.rows[i].barClass == BarClassOf(BandOf(entries[i].gas))
  {
    if entries != [] {
      ClassesFollowBand(TotalGas(entries));
      forall i | 0 <= i < |entries|
        ensures PanelView(entries).rows[i].textClass == TextClassOf(BandOf(entries[i].gas))
        ensures PanelView(entries).rows[i].barClass == BarClassOf(BandOf(entries[i].gas))
      {
        ClassesFollowBand(entries[i].gas);
      }
    }
  }
}
