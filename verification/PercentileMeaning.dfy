/** What a percentile cell says about the dated valuations, in terms of sets of rows only. */
module PercentileMeaning {
  import opened Common
  import opened Percentile

  /** The row has a valuation, and it is not 0.0. */
  ghost predicate Valued(rows: seq<Row>, k: nat) {
    k < |rows| && rows[k].value.Some? && rows[k].value.value != 0.0
  }

  /** The valued rows dated up to row i, and from the threshold on if there is one. */
  ghost function Sampled(rows: seq<Row>, from: Option<int>, i: nat): set<nat>
    requires i < |rows|
  {
    set k: nat | k < |rows| && Valued(rows, k) && rows[k].date.Key() <= rows[i].date.Key()
                 && (from.Some? ==> from.value <= rows[k].date.Key())
  }

  /** So many percent of the whole. */
  ghost predicate IsShare(percent: real, part: set<nat>, whole: set<nat>) {
    |whole| > 0 && percent == |part| as real / |whole| as real * 100.0
  }

  ghost predicate AllValued(rows: seq<Row>, sample: set<nat>) {
    forall k <- sample :: Valued(rows, k)
  }

  ghost function Above(rows: seq<Row>, sample: set<nat>): set<nat>
    requires AllValued(rows, sample)
  {
    set k <- sample | rows[k].value.value > 0.0
  }

  ghost function Below(rows: seq<Row>, sample: set<nat>): set<nat>
    requires AllValued(rows, sample)
  {
    set k <- sample | rows[k].value.value < 0.0
  }

  ghost function UpTo(rows: seq<Row>, sample: set<nat>, v: real): set<nat>
    requires AllValued(rows, sample)
  {
    set k <- sample | rows[k].value.value <= v
  }

  ghost function From(rows: seq<Row>, sample: set<nat>, v: real): set<nat>
    requires AllValued(rows, sample)
  {
    set k <- sample | rows[k].value.value >= v
  }

  /** A negative valuation ranks above all positive ones, and the higher the further below zero;
      with a negative one in the sample a positive one ranks among the positive ones only. */
  ghost predicate IsPercentile(rows: seq<Row>, sample: set<nat>, v: real, percent: real)
    requires AllValued(rows, sample)
  {
    var above, below := Above(rows, sample), Below(rows, sample);
    if v < 0.0 then IsShare(percent, above + From(rows, below, v), sample)
    else if below != {} then IsShare(percent, UpTo(rows, above, v), above)
    else IsShare(percent, UpTo(rows, sample, v), sample)
  }

  /** A window's cell is filled exactly if the row is valued and some valued row is dated at or
      before the threshold; it is the row's percentile among the valued rows since the threshold. */
  ghost predicate MeansWindow(rows: seq<Row>, years: int, i: nat, cell: Option<real>)
    requires i < |rows|
  {
    var threshold := SubtractYears(rows[i].date, years).Key();
    && (cell.Some? <==> Valued(rows, i) && ReachesBack(rows, threshold))
    && (cell.Some? ==> IsPercentile(rows, Sampled(rows, Some(threshold), i), rows[i].value.value, cell.value))
  }

  ghost predicate ReachesBack(rows: seq<Row>, threshold: int) {
    exists k: nat :: Valued(rows, k) && rows[k].date.Key() <= threshold
  }

  /** The all-history cell: the same over every valued row up to this one. */
  ghost predicate MeansHistory(rows: seq<Row>, i: nat, cell: Option<real>)
    requires i < |rows|
  {
    && (cell.Some? <==> Valued(rows, i))
    && (cell.Some? ==> IsPercentile(rows, Sampled(rows, None, i), rows[i].value.value, cell.value))
  }

  // ---------------------------------------------------------------- counting rows is counting values

  ghost function CountIf(values: seq<real>, p: real -> bool): nat {
    if values == [] then 0
    else CountIf(values[..|values| - 1], p) + (if p(values[|values| - 1]) then 1 else 0)
  }

  lemma {:induction false} CountLeIs(values: seq<real>, kind: Kind, bound: real, p: real -> bool)
    requires forall x :: p(x) <==> OfKind(kind, x) && x <= bound
    ensures CountLe(values, kind, bound) == CountIf(values, p)
  {
    if values != [] { CountLeIs(values[..|values| - 1], kind, bound, p); }
  }

  lemma {:induction false} CountIs(values: seq<real>, kind: Kind, p: real -> bool)
    requires forall x :: p(x) <==> OfKind(kind, x)
    ensures Count(values, kind) == CountIf(values, p)
  {
    if values != [] { CountIs(values[..|values| - 1], kind, p); }
  }

  lemma {:induction false} CountNegativeGeIs(values: seq<real>, bound: real, p: real -> bool)
    requires forall x :: p(x) <==> x < 0.0 && x >= bound
    ensures CountNegativeGe(values, bound) == CountIf(values, p)
  {
    if values != [] { CountNegativeGeIs(values[..|values| - 1], bound, p); }
  }

  lemma {:induction false} CountAll(values: seq<real>, p: real -> bool)
    requires forall x :: p(x)
    ensures |values| == CountIf(values, p)
  {
    if values != [] { CountAll(values[..|values| - 1], p); }
  }

  /** The sampled rows among the first `upto`. */
  ghost function Picked(rows: seq<Row>, threshold: int, upto: nat, p: real -> bool): set<nat>
    requires upto <= |rows|
  {
    set k: nat | k < upto && Valued(rows, k) && threshold <= rows[k].date.Key() && p(rows[k].value.value)
  }

  lemma {:induction false} PickedCount(rows: seq<Row>, threshold: int, upto: nat, p: real -> bool)
    requires upto <= |rows|
    ensures |Picked(rows, threshold, upto, p)| == CountIf(Window(rows, threshold, upto), p)
  {
    if upto > 0 {
      PickedCount(rows, threshold, upto - 1, p);
      var before, row := Picked(rows, threshold, upto - 1, p), rows[upto - 1];
      if Valued(rows, upto - 1) && threshold <= row.date.Key() && p(row.value.value) {
        assert Picked(rows, threshold, upto, p) == before + {upto - 1};
      } else {
        assert Picked(rows, threshold, upto, p) == before;
      }
    }
  }

  lemma {:induction false} SubsetCount(rows: seq<Row>, threshold: int, i: nat, p: real -> bool, chosen: set<nat>)
    requires Ascending(rows) && i < |rows|
    requires forall k :: k in chosen <==> k in Sampled(rows, Some(threshold), i) && p(rows[k].value.value)
    ensures |chosen| == CountIf(Window(rows, threshold, i + 1), p)
  {
    PickedCount(rows, threshold, i + 1, p);
    forall k: nat | k < |rows| ensures rows[k].date.Key() <= rows[i].date.Key() <==> k <= i {
    }
    assert chosen == Picked(rows, threshold, i + 1, p);
  }

  lemma {:induction false} SignCounts(rows: seq<Row>, threshold: int, i: nat)
    requires Ascending(rows) && i < |rows|
    ensures var values := Window(rows, threshold, i + 1);
      var sample := Sampled(rows, Some(threshold), i);
      && |sample| == |values|
      && |Above(rows, sample)| == Count(values, Positive) && |Below(rows, sample)| == Count(values, Negative)
  {
    var values, sample := Window(rows, threshold, i + 1), Sampled(rows, Some(threshold), i);
    SubsetCount(rows, threshold, i, x => true, sample);
    CountAll(values, x => true);
    SubsetCount(rows, threshold, i, x => x > 0.0, Above(rows, sample));
    CountIs(values, Positive, x => x > 0.0);
    SubsetCount(rows, threshold, i, x => x < 0.0, Below(rows, sample));
    CountIs(values, Negative, x => x < 0.0);
  }

  lemma {:induction false} RankCounts(rows: seq<Row>, threshold: int, i: nat, v: real)
    requires Ascending(rows) && i < |rows|
    ensures var values := Window(rows, threshold, i + 1);
      var sample := Sampled(rows, Some(threshold), i);
      && |From(rows, Below(rows, sample), v)| == CountNegativeGe(values, v)
      && |UpTo(rows, Above(rows, sample), v)| == CountLe(values, Positive, v)
      && |UpTo(rows, sample, v)| == CountLe(values, Every, v)
  {
    var values, sample := Window(rows, threshold, i + 1), Sampled(rows, Some(threshold), i);
    SubsetCount(rows, threshold, i, x => x < 0.0 && x >= v, From(rows, Below(rows, sample), v));
    CountNegativeGeIs(values, v, x => x < 0.0 && x >= v);
    SubsetCount(rows, threshold, i, x => x > 0.0 && x <= v, UpTo(rows, Above(rows, sample), v));
    CountLeIs(values, Positive, v, x => x > 0.0 && x <= v);
    SubsetCount(rows, threshold, i, x => x <= v, UpTo(rows, sample, v));
    CountLeIs(values, Every, v, x => x <= v);
  }

  lemma {:induction false} SignsApart(rows: seq<Row>, sample: set<nat>, v: real)
    requires AllValued(rows, sample)
    ensures |Above(rows, sample) + From(rows, Below(rows, sample), v)|
         == |Above(rows, sample)| + |From(rows, Below(rows, sample), v)|
  {
    assert Above(rows, sample) !! From(rows, Below(rows, sample), v);
  }

  lemma {:induction false} SharesAreCounts(rows: seq<Row>, sample: set<nat>, values: seq<real>, v: real)
    requires AllValued(rows, sample) && v in values && v != 0.0 && Divisible(values, v)
    requires |sample| == |values|
    requires |Above(rows, sample)| == Count(values, Positive) && |Below(rows, sample)| == Count(values, Negative)
    requires |From(rows, Below(rows, sample), v)| == CountNegativeGe(values, v)
    requires |UpTo(rows, Above(rows, sample), v)| == CountLe(values, Positive, v)
    requires |UpTo(rows, sample, v)| == CountLe(values, Every, v)
    ensures var r := PercentileFromValues(values, v);
      r.Some? && IsPercentile(rows, sample, v, r.value)
  {
    SignsApart(rows, sample, v);
  }

  /** The naive percentile of a window is the one of its rows. */
  lemma {:induction false} WindowMeans(rows: seq<Row>, threshold: int, i: nat)
    requires Ascending(rows) && i < |rows| && Valued(rows, i) && threshold <= rows[i].date.Key()
    ensures Divisible(Window(rows, threshold, i + 1), rows[i].value.value)
    ensures var r := PercentileFromValues(Window(rows, threshold, i + 1), rows[i].value.value);
      r.Some? && IsPercentile(rows, Sampled(rows, Some(threshold), i), rows[i].value.value, r.value)
  {
    var values, v := Window(rows, threshold, i + 1), rows[i].value.value;
    OwnValueInWindow(rows, threshold, i);
    PercentileRange(values, v);
    SignCounts(rows, threshold, i);
    RankCounts(rows, threshold, i, v);
    SharesAreCounts(rows, Sampled(rows, Some(threshold), i), values, v);
  }

  lemma {:induction false} FirstValidReaches(rows: seq<Row>, threshold: int)
    ensures FirstValidKey(rows).Some? && FirstValidKey(rows).value <= threshold <==> ReachesBack(rows, threshold)
  {
    if rows != [] {
      var front, last := rows[..|rows| - 1], |rows| - 1;
      FirstValidReaches(front, threshold);
      assert forall k: nat :: k < last ==> (Valued(front, k) <==> Valued(rows, k)) && front[k] == rows[k];
      if ReachesBack(front, threshold) {
        var k: nat :| Valued(front, k) && front[k].date.Key() <= threshold;
        assert Valued(rows, k) && rows[k].date.Key() <= threshold;
      }
      if Valued(rows, last) && rows[last].date.Key() <= threshold { assert ReachesBack(rows, threshold); }
      if ReachesBack(rows, threshold) {
        var k: nat :| Valued(rows, k) && rows[k].date.Key() <= threshold;
        if k < last { assert Valued(front, k) && front[k].date.Key() <= threshold; }
      }
    }
  }

  /** What every fixed-window cell says. */
  lemma {:induction false} WindowCellMeans(rows: seq<Row>, years: int, i: nat)
    requires Ascending(rows) && i < |rows| && years >= 1
    ensures MeansWindow(rows, years, i, FixedWindowCell(rows, years, i))
  {
    var threshold := SubtractYears(rows[i].date, years).Key();
    SubtractYearsMonotone(rows[i].date, rows[i].date, years);
    FirstValidReaches(rows, threshold);
    if Valued(rows, i) { WindowMeans(rows, threshold, i); }
  }
}
