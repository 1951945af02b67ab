/** Valuation percentiles of one stock and one valuation field: the naive definition, and the
    one-pass computation over Fenwick trees and evicting windows. */
module Percentile {
  import opened Common
  import opened Fenwick

  // ---------------------------------------------------------------- dates

  /** A calendar date, ordered by its key. */
  datatype Date = Date(year: int, month: int, day: int) {
    predicate Valid() {
      1 <= month <= 12 && 1 <= day <= DaysInMonth(year, month)
    }

    function Key(): int { (year * 12 + month) * 31 + day }
  }

  predicate LeapYear(year: int) {
    year % 4 == 0 && (year % 100 != 0 || year % 400 == 0)
  }

  function DaysInMonth(year: int, month: int): int {
    if month == 2 then (if LeapYear(year) then 29 else 28)
    else if month in {4, 6, 9, 11} then 30
    else 31
  }

  /** The common years. */
  lemma {:induction false} CommonYears(year: int)
    ensures !LeapYear(year) <==> year % 4 != 0 || (year % 100 == 0 && year % 400 != 0)
  {
  }

  /** The dates of the Gregorian calendar. */
  lemma {:induction false} DatesThatExist(d: Date)
    ensures d.Valid() <==>
      || (d.month in {1, 2, 3, 4, 5, 6, 7, 8, 9, 10, 11, 12} && 1 <= d.day <= 28)
      || (d.month in {1, 3, 4, 5, 6, 7, 8, 9, 10, 11, 12} && d.day in {29, 30})
      || (d.month in {1, 3, 5, 7, 8, 10, 12} && d.day == 31)
      || (d.month == 2 && d.day == 29 && LeapYear(d.year))
  {
  }

  /** Same day in an earlier year; 29 February falls back to the 28th. */
  function SubtractYears(d: Date, years: int): Date {
    var shifted := d.(year := d.year - years);
    if shifted.Valid() then shifted else shifted.(day := 28)
  }

  /** Keys order dates by year, then month, then day. */
  lemma {:induction false} KeyOrder(d: Date, e: Date)
    requires 1 <= d.month <= 12 && 1 <= d.day <= 31 && 1 <= e.month <= 12 && 1 <= e.day <= 31
    ensures d.Key() <= e.Key()
       <==> d.year < e.year || (d.year == e.year && (d.month < e.month || (d.month == e.month && d.day <= e.day)))
  {
  }

  /** The shifted date exists, and its day changes only for 29 February in a common year. */
  lemma {:induction false} SubtractYearsShape(d: Date, years: int)
    requires d.Valid()
    ensures var r := SubtractYears(d, years);
      && r.Valid() && r.year == d.year - years && r.month == d.month
      && r.day == (if d.month == 2 && d.day == 29 && !LeapYear(r.year) then 28 else d.day)
  {
  }

  lemma {:induction false} SubtractYearsMonotone(d: Date, e: Date, years: int)
    requires d.Valid() && e.Valid() && d.Key() <= e.Key() && years >= 1
    ensures SubtractYears(d, years).Valid() && SubtractYears(d, years).Key() < d.Key()
    ensures SubtractYears(d, years).Key() <= SubtractYears(e, years).Key()
  {
    SubtractYearsShape(d, years);
    SubtractYearsShape(e, years);
    KeyOrder(d, e);
    KeyOrder(d, SubtractYears(d, years));
    KeyOrder(SubtractYears(d, years), SubtractYears(e, years));
    if d.year == e.year && d.month == e.month && d.day == e.day { assert d == e; }
  }

  // ---------------------------------------------------------------- naive definition

  datatype Row = Row(date: Date, value: Option<real>)

  /** NaN and zero valuations take no part in any sample. */
  predicate IsValid(v: Option<real>) {
    v.Some? && v.value != 0.0
  }

  ghost predicate Ascending(rows: seq<Row>) {
    && (forall i :: 0 <= i < |rows| ==> rows[i].date.Valid())
    && forall i, j :: 0 <= i < j < |rows| ==> rows[i].date.Key() < rows[j].date.Key()
  }

  datatype Kind = Every | Positive | Negative

  predicate OfKind(kind: Kind, v: real) {
    match kind
    case Every => true
    case Positive => v > 0.0
    case Negative => v < 0.0
  }

  /** How many values of the kind are at most the bound. */
  function CountLe(values: seq<real>, kind: Kind, bound: real): nat {
    if values == [] then 0
    else CountLe(values[..|values| - 1], kind, bound)
         + (if OfKind(kind, values[|values| - 1]) && values[|values| - 1] <= bound then 1 else 0)
  }

  function Count(values: seq<real>, kind: Kind): nat {
    if values == [] then 0
    else Count(values[..|values| - 1], kind) + (if OfKind(kind, values[|values| - 1]) then 1 else 0)
  }

  /** How many negative values are at least the bound. */
  function CountNegativeGe(values: seq<real>, bound: real): nat {
    if values == [] then 0
    else CountNegativeGe(values[..|values| - 1], bound)
         + (if values[|values| - 1] < 0.0 && values[|values| - 1] >= bound then 1 else 0)
  }

  /** The two divisions of `PercentileFromValues` meet no zero. */
  predicate Divisible(values: seq<real>, current: real) {
    current > 0.0 && Count(values, Negative) > 0 ==> Count(values, Positive) > 0
  }

  /** `_percentile_from_values`: negative valuations rank above every positive one. */
  function PercentileFromValues(values: seq<real>, current: real): Option<real>
    requires Divisible(values, current)
  {
    if |values| == 0 then None
    else if current < 0.0 then
      Some((Count(values, Positive) + CountNegativeGe(values, current)) as real / |values| as real * 100.0)
    else if Count(values, Negative) > 0 && current > 0.0 then
      Some(CountLe(values, Positive, current) as real / Count(values, Positive) as real * 100.0)
    else Some(CountLe(values, Every, current) as real / |values| as real * 100.0)
  }

  lemma {:induction false} CountsFit(values: seq<real>, current: real)
    ensures CountLe(values, Every, current) <= |values|
    ensures CountLe(values, Positive, current) <= Count(values, Positive)
    ensures Count(values, Positive) + CountNegativeGe(values, current) <= |values|
    ensures Count(values, Positive) + Count(values, Negative) <= |values|
    ensures current in values && current > 0.0 ==> CountLe(values, Positive, current) > 0
    ensures current in values && current < 0.0 ==> CountNegativeGe(values, current) > 0
  {
    if values != [] {
      CountsFit(values[..|values| - 1], current);
    }
  }

  /** Every percentile of a sampled value is defined and lies in (0, 100]. */
  lemma {:induction false} PercentileRange(values: seq<real>, current: real)
    requires current in values && current != 0.0
    ensures Divisible(values, current)
    ensures PercentileFromValues(values, current).Some?
    ensures 0.0 < PercentileFromValues(values, current).value <= 100.0
  {
    CountsFit(values, current);
    if current < 0.0 {
      Ratio(Count(values, Positive) + CountNegativeGe(values, current), |values|);
    } else if Count(values, Negative) > 0 {
      Ratio(CountLe(values, Positive, current), Count(values, Positive));
    } else {
      EveryCoversPositive(values, current);
      Ratio(CountLe(values, Every, current), |values|);
    }
  }

  lemma {:induction false} Ratio(part: nat, whole: nat)
    requires 0 < part <= whole
    ensures 0.0 < part as real / whole as real * 100.0 <= 100.0
  {
    var q := part as real / whole as real;
    assert q * whole as real == part as real;
    assert q <= 1.0;
  }

  lemma {:induction false} EveryCoversPositive(values: seq<real>, bound: real)
    ensures CountLe(values, Positive, bound) <= CountLe(values, Every, bound)
  {
    if values != [] { EveryCoversPositive(values[..|values| - 1], bound); }
  }

  /** Values of the valid rows among the first `upto` whose date is not before the threshold. */
  function Window(rows: seq<Row>, threshold: int, upto: nat): seq<real>
    requires upto <= |rows|
  {
    if upto == 0 then []
    else
      var rest := Window(rows, threshold, upto - 1);
      var row := rows[upto - 1];
      if IsValid(row.value) && threshold <= row.date.Key() then rest + [row.value.value] else rest
  }

  /** Key of the earliest date that carries a valid value. */
  function FirstValidKey(rows: seq<Row>): Option<int> {
    if rows == [] then None
    else
      var earlier := FirstValidKey(rows[..|rows| - 1]);
      var row := rows[|rows| - 1];
      if !IsValid(row.value) then earlier
      else if earlier.Some? && earlier.value <= row.date.Key() then earlier
      else Some(row.date.Key())
  }

  lemma {:induction false} OwnValueInWindow(rows: seq<Row>, threshold: int, i: nat)
    requires i < |rows| && IsValid(rows[i].value) && threshold <= rows[i].date.Key()
    ensures rows[i].value.value in Window(rows, threshold, i + 1)
    ensures FirstValidKey(rows[..i + 1]).Some?
  {
    var w := Window(rows, threshold, i + 1);
    assert w[|w| - 1] == rows[i].value.value;
    assert rows[..i + 1][i] == rows[i];
  }

  /** One cell of a fixed-window column: empty until the history reaches back past the threshold. */
  ghost function FixedWindowCell(rows: seq<Row>, years: int, i: nat): (r: Option<real>)
    requires i < |rows| && rows[i].date.Valid() && years >= 1
  {
    var threshold := SubtractYears(rows[i].date, years).Key();
    var first := FirstValidKey(rows);
    if !IsValid(rows[i].value) || first.None? || threshold < first.value then None
    else
      SubtractYearsMonotone(rows[i].date, rows[i].date, years);
      OwnValueInWindow(rows, threshold, i);
      PercentileRange(Window(rows, threshold, i + 1), rows[i].value.value);
      PercentileFromValues(Window(rows, threshold, i + 1), rows[i].value.value)
  }

  // ---------------------------------------------------------------- rolling window

  datatype Sample = Sample(date: int, value: real, index: nat)

  ghost function Values(samples: seq<Sample>): seq<real> {
    seq(|samples|, i requires 0 <= i < |samples| => samples[i].value)
  }

  /** Samples of a kind whose value has the given position in the value table. */
  ghost function CountAt(samples: seq<Sample>, kind: Kind, index: nat): nat {
    if samples == [] then 0
    else CountAt(samples[..|samples| - 1], kind, index)
         + (if OfKind(kind, samples[|samples| - 1].value) && samples[|samples| - 1].index == index then 1 else 0)
  }

  ghost function Histogram(samples: seq<Sample>, kind: Kind, size: nat): seq<int> {
    seq(size, i requires 0 <= i < size => CountAt(samples, kind, i))
  }

  /** Adding or removing one sample moves one bar, if it is of the kind. */
  lemma {:induction false} HistogramMoves(before: seq<Sample>, after: seq<Sample>, kind: Kind, size: nat,
                                          sample: Sample, delta: int)
    requires sample.index < size
    requires forall i: nat ::
      CountAt(after, kind, i)
      == CountAt(before, kind, i) + (if OfKind(kind, sample.value) && i == sample.index then delta else 0)
    ensures var h := Histogram(before, kind, size);
      Histogram(after, kind, size)
      == if OfKind(kind, sample.value) then h[sample.index := h[sample.index] + delta] else h
  {
  }

  /** Samples of a kind among the first positions of the value table. */
  ghost function CountBelow(samples: seq<Sample>, kind: Kind, limit: int): nat {
    if samples == [] then 0
    else CountBelow(samples[..|samples| - 1], kind, limit)
         + (if OfKind(kind, samples[|samples| - 1].value) && samples[|samples| - 1].index < limit then 1 else 0)
  }

  lemma {:induction false} CountBelowStep(samples: seq<Sample>, kind: Kind, limit: nat)
    ensures CountBelow(samples, kind, limit + 1) == CountBelow(samples, kind, limit) + CountAt(samples, kind, limit)
    ensures CountBelow(samples, kind, 0) == 0
  {
    if samples != [] { CountBelowStep(samples[..|samples| - 1], kind, limit); }
  }

  lemma {:induction false} HistogramPrefix(samples: seq<Sample>, kind: Kind, size: nat, limit: nat)
    requires limit <= size
    ensures Sum(Histogram(samples, kind, size), 0, limit) == CountBelow(samples, kind, limit)
  {
    if limit > 0 {
      HistogramPrefix(samples, kind, size, limit - 1);
      CountBelowStep(samples, kind, limit - 1);
    } else {
      CountBelowStep(samples, kind, 0);
    }
  }

  lemma {:induction false} CountAtFront(samples: seq<Sample>, kind: Kind, index: nat)
    requires samples != []
    ensures CountAt(samples, kind, index)
         == CountAt(samples[1..], kind, index)
            + (if OfKind(kind, samples[0].value) && samples[0].index == index then 1 else 0)
    ensures Count(Values(samples), kind)
         == Count(Values(samples[1..]), kind) + (if OfKind(kind, samples[0].value) then 1 else 0)
  {
    var front := samples[..|samples| - 1];
    assert Values(samples)[..|samples| - 1] == Values(front);
    if |samples| > 1 {
      CountAtFront(front, kind, index);
      assert front[1..] == samples[1..][..|samples| - 2];
      assert Values(samples[1..])[..|samples| - 2] == Values(samples[1..][..|samples| - 2]);
    }
  }

  ghost predicate Sorted(table: seq<real>) {
    forall i, j :: 0 <= i < j < |table| ==> table[i] < table[j]
  }

  ghost predicate Indexed(samples: seq<Sample>, table: seq<real>) {
    forall i :: 0 <= i < |samples| ==> samples[i].index < |table| && table[samples[i].index] == samples[i].value
  }

  /** Ranks in the value table are ranks among the values. */
  lemma {:induction false} RankInvariance(samples: seq<Sample>, table: seq<real>, kind: Kind, index: nat)
    requires Sorted(table) && Indexed(samples, table) && index < |table|
    ensures CountBelow(samples, kind, index + 1) == CountLe(Values(samples), kind, table[index])
    ensures Count(Values(samples), Negative) - CountBelow(samples, Negative, index)
         == CountNegativeGe(Values(samples), table[index])
  {
    if samples != [] {
      var front := samples[..|samples| - 1];
      assert Values(samples)[..|samples| - 1] == Values(front);
      RankInvariance(front, table, kind, index);
    }
  }

  /** Drops the leading samples dated before the threshold. */
  ghost function DropBefore(samples: seq<Sample>, threshold: int): seq<Sample> {
    if samples != [] && samples[0].date < threshold then DropBefore(samples[1..], threshold) else samples
  }

  /** Date-ordered window with a Fenwick tree per sign. */
  class RollingCounts {
    const table: seq<real>
    const size: nat
    const all: FenwickTree
    const positive: FenwickTree
    const negative: FenwickTree
    ghost const footprint: set<object>
    var samples: seq<Sample>
    var totalCount: int
    var positiveCount: int
    var negativeCount: int

    ghost function Footprint(): set<object> {
      {this, all, all.tree, positive, positive.tree, negative, negative.tree}
    }

    ghost predicate Shape() {
      && all != positive && all != negative && positive != negative
      && all.tree != positive.tree && all.tree != negative.tree && positive.tree != negative.tree
      && size == (if |table| > 0 then |table| else 1)
      && Sorted(table) && footprint == Footprint()
    }

    /** The trees and counters describe exactly `seen`. */
    ghost predicate Counts(seen: seq<Sample>)
      reads Footprint()
    {
      && all.Valid() && positive.Valid() && negative.Valid()
      && all.counts == Histogram(seen, Every, size)
      && positive.counts == Histogram(seen, Positive, size)
      && negative.counts == Histogram(seen, Negative, size)
      && totalCount == |seen|
      && positiveCount == Count(Values(seen), Positive)
      && negativeCount == Count(Values(seen), Negative)
    }

    ghost predicate Valid()
      reads footprint
    {
      Shape() && Indexed(samples, table) && Counts(samples)
    }

    constructor (values: seq<real>)
      requires Sorted(values)
      ensures Valid() && fresh(footprint)
      ensures table == values && samples == []
    {
      table := values;
      size := if |values| > 0 then |values| else 1;
      var every := new FenwickTree(if |values| > 0 then |values| else 1);
      var above := new FenwickTree(if |values| > 0 then |values| else 1);
      var below := new FenwickTree(if |values| > 0 then |values| else 1);
      all, positive, negative := every, above, below;
      footprint := {this, every, every.tree, above, above.tree, below, below.tree};
      samples := [];
      totalCount, positiveCount, negativeCount := 0, 0, 0;
    }

    method Add(date: int, value: real, index: nat)
      requires Valid() && index < |table| && table[index] == value
      modifies footprint
      ensures Valid() && samples == old(samples) + [Sample(date, value, index)]
    {
      var sample := Sample(date, value, index);
      samples := samples + [sample];
      assert samples[..|samples| - 1] == old(samples);
      assert Values(samples)[..|samples| - 1] == Values(old(samples));
      AddSample(sample, 1, old(samples), samples);
    }

    method EvictBefore(threshold: int)
      requires Valid()
      modifies footprint
      ensures Valid() && samples == DropBefore(old(samples), threshold)
    {
      while samples != [] && samples[0].date < threshold
        invariant Valid()
        invariant DropBefore(samples, threshold) == DropBefore(old(samples), threshold)
        decreases |samples|
      {
        var sample := samples[0];
        ghost var before := samples;
        samples := samples[1..];
        forall kind, index: nat ensures CountAt(before, kind, index) == CountAt(samples, kind, index)
            + (if OfKind(kind, sample.value) && sample.index == index then 1 else 0)
        {
          CountAtFront(before, kind, index);
        }
        CountAtFront(before, Positive, 0);
        CountAtFront(before, Negative, 0);
        AddSample(sample, -1, before, samples);
      }
    }

    method AddSample(sample: Sample, delta: int, ghost before: seq<Sample>, ghost after: seq<Sample>)
      requires Shape() && Counts(before) && sample.index < size
      requires |after| == |before| + delta
      requires forall kind, i: nat ::
        CountAt(after, kind, i)
        == CountAt(before, kind, i) + (if OfKind(kind, sample.value) && i == sample.index then delta else 0)
      requires forall kind {:trigger Count(Values(after), kind)} :: kind != Every ==>
        Count(Values(after), kind) == Count(Values(before), kind) + (if OfKind(kind, sample.value) then delta else 0)
      modifies this`totalCount, this`positiveCount, this`negativeCount
      modifies all, all.tree, positive, positive.tree, negative, negative.tree
      ensures Counts(after)
    {
      HistogramMoves(before, after, Every, size, sample, delta);
      HistogramMoves(before, after, Positive, size, sample, delta);
      HistogramMoves(before, after, Negative, size, sample, delta);
      all.Add(sample.index, delta);
      totalCount := totalCount + delta;
      AddSigned(sample, delta);
    }

    /** The tree and the counter of the value's sign. */
    method AddSigned(sample: Sample, delta: int)
      requires Shape() && positive.Valid() && negative.Valid() && sample.index < size
      requires |positive.counts| == |negative.counts| == size
      modifies this`positiveCount, this`negativeCount, positive, positive.tree, negative, negative.tree
      ensures positive.Valid() && negative.Valid()
      ensures var c := old(positive.counts);
        if sample.value > 0.0
        then positive.counts == c[sample.index := c[sample.index] + delta]
             && positiveCount == old(positiveCount) + delta
        else positive.counts == c && positiveCount == old(positiveCount)
      ensures var c := old(negative.counts);
        if sample.value < 0.0
        then negative.counts == c[sample.index := c[sample.index] + delta]
             && negativeCount == old(negativeCount) + delta
        else negative.counts == c && negativeCount == old(negativeCount)
    {
      if sample.value > 0.0 {
        positive.Add(sample.index, delta);
        positiveCount := positiveCount + delta;
      } else if sample.value < 0.0 {
        negative.Add(sample.index, delta);
        negativeCount := negativeCount + delta;
      }
    }

    /** The three prefix sums are ranks of the value among the samples. */
    lemma {:induction false} TreeRanks(index: nat)
      requires Valid() && index < |table|
      ensures Sum(all.counts, 0, index + 1) == CountLe(Values(samples), Every, table[index])
      ensures Sum(positive.counts, 0, index + 1) == CountLe(Values(samples), Positive, table[index])
      ensures negativeCount - Sum(negative.counts, 0, index) == CountNegativeGe(Values(samples), table[index])
    {
      HistogramPrefix(samples, Every, size, index + 1);
      HistogramPrefix(samples, Positive, size, index + 1);
      HistogramPrefix(samples, Negative, size, index);
      RankInvariance(samples, table, Every, index);
      RankInvariance(samples, table, Positive, index);
    }

    method Percentile(value: real, index: nat) returns (r: Option<real>)
      requires Valid() && index < |table| && table[index] == value
      requires Divisible(Values(samples), value)
      ensures r == PercentileFromValues(Values(samples), value)
    {
      TreeRanks(index);
      if totalCount <= 0 { return None; }
      if value < 0.0 {
        var less := negative.PrefixSum(index - 1);
        var greaterEqual := negativeCount - less;
        return Some((positiveCount + greaterEqual) as real / totalCount as real * 100.0);
      }
      if negativeCount > 0 && value > 0.0 {
        var le := positive.PrefixSum(index);
        return Some(le as real / positiveCount as real * 100.0);
      }
      var le := all.PrefixSum(index);
      return Some(le as real / totalCount as real * 100.0);
    }
  }
}
