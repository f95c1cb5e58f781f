/** The selection policy applied to the filtered rows when a count is given:
    the most viewed or most liked rows, or a random sample. */
module Selection {
  import opened Outcomes
  import opened Catalog

  datatype Metric = Views | Likes

  function MetricOf(row: Row, m: Metric): int {
    match m
    case Views => row.seg.views
    case Likes => row.seg.likes
  }

  /** Descending order of the metric: no row beats an earlier one. */
  predicate NonIncreasing(s: seq<Row>, m: Metric) {
    forall i, j :: 0 <= i < j < |s| ==> MetricOf(s[j], m) <= MetricOf(s[i], m)
  }

  /** Puts `x` in front of the first row it is not below. */
  function Insert(x: Row, s: seq<Row>, m: Metric): seq<Row> {
    if s == [] then [x]
    else if MetricOf(s[0], m) <= MetricOf(x, m) then [x] + s
    else [s[0]] + Insert(x, s[1..], m)
  }

  /** A row that no later row beats can head a descending sequence. */
  lemma ConsNonIncreasing(h: Row, t: seq<Row>, m: Metric)
    requires NonIncreasing(t, m)
    requires forall j :: 0 <= j < |t| ==> MetricOf(t[j], m) <= MetricOf(h, m)
    ensures NonIncreasing([h] + t, m)
  {
  }

  /** Every row of a sequence with the same rows as `s[1..]` plus `x` is at most `s[0]`,
      when `s` is descending and `x` is below `s[0]`. */
  lemma BelowHead(x: Row, s: seq<Row>, t: seq<Row>, m: Metric)
    requires NonIncreasing(s, m) && s != [] && MetricOf(x, m) < MetricOf(s[0], m)
    requires multiset(t) == multiset(s[1..]) + multiset{x}
    ensures forall j :: 0 <= j < |t| ==> MetricOf(t[j], m) <= MetricOf(s[0], m)
  {
    forall j | 0 <= j < |t|
      ensures MetricOf(t[j], m) <= MetricOf(s[0], m)
    {
      assert t[j] in multiset(t);
      if t[j] != x {
        assert t[j] in multiset(s[1..]);
        var k :| 0 <= k < |s[1..]| && s[1..][k] == t[j];
        assert s[k + 1] == t[j];
      }
    }
  }

  /** Inserting into a descending sequence keeps it descending and adds exactly `x`. */
  lemma {:induction false} InsertSpec(x: Row, s: seq<Row>, m: Metric)
    requires NonIncreasing(s, m)
    ensures NonIncreasing(Insert(x, s, m), m)
    ensures multiset(Insert(x, s, m)) == multiset(s) + multiset{x}
  {
    if s != [] && MetricOf(x, m) < MetricOf(s[0], m) {
      var tail := Insert(x, s[1..], m);
      assert NonIncreasing(s[1..], m);
      InsertSpec(x, s[1..], m);
      assert s == [s[0]] + s[1..];
      BelowHead(x, s, tail, m);
      ConsNonIncreasing(s[0], tail, m);
    }
  }

  /** `sort_values(metric, ascending=False)`. */
  function SortDescending(s: seq<Row>, m: Metric): seq<Row> {
    if s == [] then [] else Insert(s[0], SortDescending(s[1..], m), m)
  }

  /** Sorting orders the rows by descending metric and keeps every row. */
  lemma {:induction false} SortDescendingSpec(s: seq<Row>, m: Metric)
    ensures NonIncreasing(SortDescending(s, m), m)
    ensures multiset(SortDescending(s, m)) == multiset(s)
  {
    if s != [] {
      SortDescendingSpec(s[1..], m);
      InsertSpec(s[0], SortDescending(s[1..], m), m);
      assert s == [s[0]] + s[1..];
    }
  }

  /** `s[:n]`: a negative `n` drops that many rows from the end. */
  function Slice(s: seq<Row>, n: int): (r: seq<Row>)
    ensures |r| <= |s| && r == s[..|r|]
  {
    if n >= 0 then (if n <= |s| then s[..n] else s)
    else if |s| + n >= 0 then s[..|s| + n]
    else []
  }

  /** `sort_values(metric, ascending=False).iloc[:n]`. */
  function TopN(s: seq<Row>, n: int, m: Metric): seq<Row> {
    Slice(SortDescending(s, m), n)
  }

  /** The top `n` rows are as many as asked for, or as there are (a negative `n`
      drops that many from the end). */
  lemma TopNSize(s: seq<Row>, n: int, m: Metric)
    ensures n >= 0 ==> |TopN(s, n, m)| == if n <= |s| then n else |s|
    ensures n < 0 ==> |TopN(s, n, m)| == if |s| + n >= 0 then |s| + n else 0
  {
    SortDescendingSpec(s, m);
    assert |multiset(SortDescending(s, m))| == |multiset(s)|;
  }

  /** The top `n` rows are rows of the input, in descending order of the metric. */
  lemma TopNOrdered(s: seq<Row>, n: int, m: Metric)
    ensures NonIncreasing(TopN(s, n, m), m)
    ensures multiset(TopN(s, n, m)) <= multiset(s)
  {
    var sorted := SortDescending(s, m);
    SortDescendingSpec(s, m);
    var r := TopN(s, n, m);
    assert sorted == r + sorted[|r|..];
    assert multiset(sorted) == multiset(r) + multiset(sorted[|r|..]);
  }

  /** In a descending sequence, nothing after position `k` beats anything before it. */
  lemma PrefixDominates(sorted: seq<Row>, k: nat, m: Metric, x: Row, y: Row)
    requires NonIncreasing(sorted, m) && k <= |sorted|
    requires x in sorted[..k] && y in sorted[k..]
    ensures MetricOf(y, m) <= MetricOf(x, m)
  {
  }

  /** No row left out of the top `n` beats a row kept. */
  lemma TopNBest(s: seq<Row>, n: int, m: Metric, x: Row, y: Row)
    requires x in TopN(s, n, m)
    requires y in multiset(s) - multiset(TopN(s, n, m))
    ensures MetricOf(y, m) <= MetricOf(x, m)
  {
    var sorted := SortDescending(s, m);
    SortDescendingSpec(s, m);
    var r := Slice(sorted, n);
    var k := |r|;
    assert r == sorted[..k];
    assert sorted == sorted[..k] + sorted[k..];
    assert multiset(s) == multiset(r) + multiset(sorted[k..]);
    assert y in multiset(sorted[k..]);
    PrefixDominates(sorted, k, m, x, y);
  }

  /** `sel` is an admissible `sort_values(metric, ascending=False).iloc[:n]` of `s`:
      as many rows as the slice keeps, descending in the metric, drawn from `s`, and
      no row left out beats a row kept. Which of several tied rows is kept at the cut
      is left open, since the default sort is not stable. */
  predicate TopRows(sel: seq<Row>, s: seq<Row>, n: int, m: Metric) {
    && |sel| == (if n >= 0 then (if n <= |s| then n else |s|) else (if |s| + n >= 0 then |s| + n else 0))
    && NonIncreasing(sel, m)
    && multiset(sel) <= multiset(s)
    && forall x, y :: x in multiset(sel) && y in multiset(s) - multiset(sel) ==> MetricOf(y, m) <= MetricOf(x, m)
  }

  /** The model's sort gives one admissible choice of top rows. */
  lemma TopNIsTopRows(s: seq<Row>, n: int, m: Metric)
    ensures TopRows(TopN(s, n, m), s, n, m)
  {
    TopNSize(s, n, m);
    TopNOrdered(s, n, m);
    forall x, y | x in multiset(TopN(s, n, m)) && y in multiset(s) - multiset(TopN(s, n, m))
      ensures MetricOf(y, m) <= MetricOf(x, m)
    {
      TopNBest(s, n, m, x, y);
    }
  }

  /** `sample(n=n)` without replacement: `n` of the rows, each row at most as often
      as the population holds it, in an order chosen at random. */
  method Sample(s: seq<Row>, n: int) returns (r: Result<seq<Row>>)
    ensures r.Ok? <==> 0 <= n <= |s|
    ensures n < 0 ==> r == Err(NegativeSampleSize)
    ensures n > |s| ==> r == Err(SampleLargerThanPopulation)
    ensures r.Ok? ==> |r.value| == n && multiset(r.value) <= multiset(s)
  {
    if n < 0 {
      return Err(NegativeSampleSize);
    }
    if n > |s| {
      return Err(SampleLargerThanPopulation);
    }
    assert s == s[..n] + s[n..];
    assert |s[..n]| == n && multiset(s[..n]) <= multiset(s);
    var drawn :| |drawn| == n && multiset(drawn) <= multiset(s);
    return Ok(drawn);
  }

  /** `if n_examples is not None:`: all rows when no count is given, else the most viewed (checked
      first), the most liked, or a random sample. */
  method Select(s: seq<Row>, n: Option<int>, mostViewed: bool, mostLiked: bool) returns (r: Result<seq<Row>>)
    ensures n.None? ==> r == Ok(s)
    ensures n.Some? && mostViewed ==> r.Ok? && TopRows(r.value, s, n.value, Views)
    ensures n.Some? && !mostViewed && mostLiked ==> r.Ok? && TopRows(r.value, s, n.value, Likes)
    ensures n.Some? && !mostViewed && !mostLiked ==>
      && (r.Ok? <==> 0 <= n.value <= |s|)
      && (r.Ok? ==> |r.value| == n.value)
      && (r.Err? ==> r.error == if n.value < 0 then NegativeSampleSize else SampleLargerThanPopulation)
    ensures r.Ok? ==> multiset(r.value) <= multiset(s)
  {
    if n.None? {
      return Ok(s);
    }
    if mostViewed {
      TopNIsTopRows(s, n.value, Views);
      r := Ok(TopN(s, n.value, Views));
    } else if mostLiked {
      TopNIsTopRows(s, n.value, Likes);
      r := Ok(TopN(s, n.value, Likes));
    } else {
      r := Sample(s, n.value);
    }
  }
}
