/** Full, append-only and partial runs of the valuation percentile dataset for one stock. */
module PercentileUpdate {
  import opened Common
  import opened Percentile
  import opened PercentileMeaning
  import opened FieldPercentiles

  /** Window lengths of the fixed columns, in years. */
  const WINDOW_YEARS: seq<int> := [1, 3, 5, 10]

  /** pe_ttm, pb_mrq, ps_ttm, pcf_ncf_ttm. */
  const FIELD_COUNT: nat := 4

  datatype SourceRow = SourceRow(date: Date, fields: seq<Option<real>>)

  /** All percentile columns of one field in one row. */
  datatype FieldCells = FieldCells(allHistory: Option<real>, fixed: seq<Option<real>>)

  datatype OutRow = OutRow(date: Date, fields: seq<Option<real>>, cells: seq<FieldCells>)

  /** One row per date, in date order, every field column present. */
  ghost predicate Wellformed(source: seq<SourceRow>) {
    && (forall i :: 0 <= i < |source| ==> source[i].date.Valid() && |source[i].fields| == FIELD_COUNT)
    && forall i, j :: 0 <= i < j < |source| ==> source[i].date.Key() < source[j].date.Key()
  }

  function Column(source: seq<SourceRow>, field: nat): (rows: seq<Row>)
    requires field < FIELD_COUNT && forall i :: 0 <= i < |source| ==> |source[i].fields| == FIELD_COUNT
    ensures |rows| == |source|
  {
    seq(|source|, i requires 0 <= i < |source| => Row(source[i].date, source[i].fields[field]))
  }

  // ---------------------------------------------------------------- the full computation

  /** Valid values of the first `upto` rows. */
  function History(rows: seq<Row>, upto: nat): seq<real>
    requires upto <= |rows|
  {
    if upto == 0 then []
    else if IsValid(rows[upto - 1].value) then History(rows, upto - 1) + [rows[upto - 1].value.value]
    else History(rows, upto - 1)
  }

  /** The expanding-rank form: positives rank among positives; a negative value adds its
      descending rank among negatives to the number of positives so far. */
  function ExpandingRank(seen: seq<real>, v: real): real
    requires v in seen && v != 0.0
  {
    CountsFit(seen, v);
    if v > 0.0 then CountLe(seen, Positive, v) as real / Count(seen, Positive) as real * 100.0
    else (Count(seen, Positive) + CountNegativeGe(seen, v)) as real / |seen| as real * 100.0
  }

  function ExpandingRankCell(rows: seq<Row>, i: nat): Option<real>
    requires i < |rows|
  {
    if !IsValid(rows[i].value) then None
    else
      OwnValueInHistory(rows, i);
      Some(ExpandingRank(History(rows, i + 1), rows[i].value.value))
  }

  lemma {:induction false} OwnValueInHistory(rows: seq<Row>, i: nat)
    requires i < |rows| && IsValid(rows[i].value)
    ensures rows[i].value.value in History(rows, i + 1)
  {
    var h := History(rows, i + 1);
    assert h[|h| - 1] == rows[i].value.value;
  }

  ghost function FullCells(rows: seq<Row>, i: nat): FieldCells
    requires Ascending(rows) && i < |rows|
  {
    FieldCells(ExpandingRankCell(rows, i), FixedCells(rows, i))
  }

  ghost function FixedCells(rows: seq<Row>, i: nat): seq<Option<real>>
    requires Ascending(rows) && i < |rows|
  {
    seq(|WINDOW_YEARS|, j requires 0 <= j < |WINDOW_YEARS| => FixedWindowCell(rows, WINDOW_YEARS[j], i))
  }

  ghost function FullRow(source: seq<SourceRow>, i: nat): OutRow
    requires Wellformed(source) && i < |source|
  {
    OutRow(source[i].date, source[i].fields,
           seq(FIELD_COUNT, f requires 0 <= f < FIELD_COUNT => FullCells(Column(source, f), i)))
  }

  /** `compute_valuation_percentiles` on the whole source. */
  ghost function Full(source: seq<SourceRow>): (out: seq<OutRow>)
    requires Wellformed(source)
    ensures |out| == |source|
  {
    seq(|source|, i requires 0 <= i < |source| => FullRow(source, i))
  }

  /** The four window columns of one field. */
  method WindowColumns(rows: seq<Row>) returns (columns: seq<array<Option<real>>>)
    requires Ascending(rows)
    ensures |columns| == |WINDOW_YEARS| && forall j :: 0 <= j < |columns| ==> columns[j].Length == |rows|
    ensures Filled(columns, rows, WINDOW_YEARS, |rows|)
  {
    var one := new Option<real>[|rows|](i => None);
    var three := new Option<real>[|rows|](i => None);
    var five := new Option<real>[|rows|](i => None);
    var ten := new Option<real>[|rows|](i => None);
    columns := [one, three, five, ten];
    ComputeFieldPercentiles(rows, WINDOW_YEARS, columns);
  }

  /** One row's cells, read off the columns. */
  method ReadCells(rows: seq<Row>, columns: seq<array<Option<real>>>, i: nat) returns (cells: FieldCells)
    requires Ascending(rows) && i < |rows|
    requires |columns| == |WINDOW_YEARS| && forall j :: 0 <= j < |columns| ==> columns[j].Length == |rows|
    requires Filled(columns, rows, WINDOW_YEARS, |rows|)
    ensures cells == FullCells(rows, i)
  {
    var fixed := [columns[0][i], columns[1][i], columns[2][i], columns[3][i]];
    FixedFromColumns(rows, i, columns, fixed);
    cells := FieldCells(ExpandingRankCell(rows, i), fixed);
  }

  /** The cells of one field for every row: window columns in one pass, expanding ranks beside them. */
  method ComputeField(source: seq<SourceRow>, field: nat) returns (cells: seq<FieldCells>)
    requires Wellformed(source) && field < FIELD_COUNT
    ensures |cells| == |source|
    ensures forall i :: 0 <= i < |source| ==> cells[i] == FullCells(Column(source, field), i)
  {
    var rows := Column(source, field);
    var columns := WindowColumns(rows);
    cells := [];
    for i := 0 to |rows|
      invariant |cells| == i && Filled(columns, rows, WINDOW_YEARS, |rows|)
      invariant forall k :: 0 <= k < i ==> cells[k] == FullCells(rows, k)
    {
      var row := ReadCells(rows, columns, i);
      cells := cells + [row];
    }
  }

  lemma {:induction false} FixedFromColumns(rows: seq<Row>, i: nat, columns: seq<array<Option<real>>>,
                                            fixed: seq<Option<real>>)
    requires Ascending(rows) && i < |rows| && |columns| == |fixed| == |WINDOW_YEARS|
    requires forall j :: 0 <= j < |columns| ==> columns[j].Length == |rows|
    requires Filled(columns, rows, WINDOW_YEARS, |rows|)
    requires forall j :: 0 <= j < |columns| ==> fixed[j] == columns[j][i]
    ensures fixed == FixedCells(rows, i)
  {
  }

  /** `compute_valuation_percentiles`: field by field, then row by row. */
  method ComputeValuationPercentiles(source: seq<SourceRow>) returns (out: seq<OutRow>)
    requires Wellformed(source)
    ensures out == Full(source)
  {
    var columns: seq<seq<FieldCells>> := [];
    for f := 0 to FIELD_COUNT
      invariant |columns| == f && TailColumns(source, columns, 0)
    {
      var cells := ComputeField(source, f);
      assert TailColumn(source, cells, f, 0);
      columns := columns + [cells];
    }
    out := [];
    for i := 0 to |source|
      invariant |out| == i
      invariant forall k :: 0 <= k < |out| ==> out[k] == FullRow(source, k)
    {
      var row := ReadRow(source, columns, 0, i);
      out := out + [row];
    }
  }

  /** Every percentile written lies in (0, 100]; a row has an all-history percentile exactly when
      its value is valid, and no window percentile without one. */
  lemma {:induction false} CellsInRange(rows: seq<Row>, i: nat)
    requires Ascending(rows) && i < |rows|
    ensures var c := FullCells(rows, i);
      && (c.allHistory.Some? <==> IsValid(rows[i].value))
      && (c.allHistory.Some? ==> 0.0 < c.allHistory.value <= 100.0)
      && forall j :: 0 <= j < |c.fixed| && c.fixed[j].Some? ==> c.allHistory.Some? && 0.0 < c.fixed[j].value <= 100.0
  {
    if IsValid(rows[i].value) {
      var v := rows[i].value.value;
      OwnValueInHistory(rows, i);
      var seen := History(rows, i + 1);
      CountsFit(seen, v);
      if v > 0.0 { Ratio(CountLe(seen, Positive, v), Count(seen, Positive)); }
      else { Ratio(Count(seen, Positive) + CountNegativeGe(seen, v), |seen|); }
      forall j | 0 <= j < |WINDOW_YEARS| && FixedWindowCell(rows, WINDOW_YEARS[j], i).Some?
        ensures 0.0 < FixedWindowCell(rows, WINDOW_YEARS[j], i).value <= 100.0
      {
        var threshold := SubtractYears(rows[i].date, WINDOW_YEARS[j]).Key();
        SubtractYearsMonotone(rows[i].date, rows[i].date, WINDOW_YEARS[j]);
        OwnValueInWindow(rows, threshold, i);
        PercentileRange(Window(rows, threshold, i + 1), v);
      }
    }
  }

  /** The all-history cell, and the windows of one, three, five and ten years. */
  ghost predicate MeansCells(rows: seq<Row>, i: nat, cells: FieldCells)
    requires i < |rows|
  {
    && MeansHistory(rows, i, cells.allHistory)
    && |cells.fixed| == 4
    && MeansWindow(rows, 1, i, cells.fixed[0]) && MeansWindow(rows, 3, i, cells.fixed[1])
    && MeansWindow(rows, 5, i, cells.fixed[2]) && MeansWindow(rows, 10, i, cells.fixed[3])
  }

  lemma {:induction false} HistoryCellMeans(rows: seq<Row>, i: nat)
    requires Ascending(rows) && i < |rows|
    ensures MeansHistory(rows, i, ExpandingRankCell(rows, i))
  {
    if Valued(rows, i) {
      var oldest := rows[0].date.Key();
      DateSliceIsWindow(rows, oldest, i);
      WholeWindow(rows, i + 1);
      SliceEqualsExpandingRank(rows, i);
      WindowMeans(rows, oldest, i);
      assert Sampled(rows, Some(oldest), i) == Sampled(rows, None, i);
    }
  }

  lemma {:induction false} WholeWindow(rows: seq<Row>, upto: nat)
    requires Ascending(rows) && 0 < upto <= |rows|
    ensures Window(rows, rows[0].date.Key(), upto) == History(rows, upto)
  {
    if upto > 1 { WholeWindow(rows, upto - 1); }
  }

  /** What the cells of a row say, in every run mode. */
  lemma {:induction false} CellsMean(rows: seq<Row>, i: nat)
    requires Ascending(rows) && i < |rows|
    ensures MeansCells(rows, i, FullCells(rows, i))
  {
    HistoryCellMeans(rows, i);
    WindowCellMeans(rows, 1, i);
    WindowCellMeans(rows, 3, i);
    WindowCellMeans(rows, 5, i);
    WindowCellMeans(rows, 10, i);
  }

  /** The dated values of one of the four valuation fields. */
  ghost predicate IsColumn(source: seq<SourceRow>, field: nat, rows: seq<Row>)
    requires field < 4 && forall i :: 0 <= i < |source| ==> |source[i].fields| == 4
  {
    && |rows| == |source|
    && forall i :: 0 <= i < |rows| ==> rows[i].date == source[i].date && rows[i].value == source[i].fields[field]
  }

  /** The full computation: each source row with the cells of its four fields. */
  lemma {:induction false} FullMeans(source: seq<SourceRow>, i: nat, field: nat, rows: seq<Row>)
    requires Wellformed(source) && i < |source| && field < 4 && IsColumn(source, field, rows)
    ensures var out := Full(source);
      && |out| == |source| && out[i].date == source[i].date && out[i].fields == source[i].fields
      && |out[i].cells| == 4 && MeansCells(rows, i, out[i].cells[field])
  {
    assert rows == Column(source, field);
    CellsMean(rows, i);
  }

  // ---------------------------------------------------------------- the append-only computation

  /** Valid values dated in [lo, hi], taken from the whole column. */
  function DateSlice(rows: seq<Row>, lo: Option<int>, hi: int): seq<real> {
    if rows == [] then []
    else
      var rest := DateSlice(rows[..|rows| - 1], lo, hi);
      var row := rows[|rows| - 1];
      if IsValid(row.value) && (lo.Some? ==> lo.value <= row.date.Key()) && row.date.Key() <= hi
      then rest + [row.value.value] else rest
  }

  lemma {:induction false} DateSliceIsWindow(rows: seq<Row>, threshold: int, i: nat)
    requires Ascending(rows) && i < |rows|
    ensures DateSlice(rows, Some(threshold), rows[i].date.Key()) == Window(rows, threshold, i + 1)
    ensures DateSlice(rows, None, rows[i].date.Key()) == History(rows, i + 1)
    decreases |rows|
  {
    var front := rows[..|rows| - 1];
    if i < |front| {
      DateSliceIsWindow(front, threshold, i);
      PrefixForms(rows, |front|, threshold, i + 1);
    } else if i > 0 {
      DateSliceIsWindow(front, threshold, i - 1);
      PrefixForms(rows, |front|, threshold, i);
      SliceBeyondLast(front, Some(threshold), rows[i].date.Key(), rows[i - 1].date.Key());
      SliceBeyondLast(front, None, rows[i].date.Key(), rows[i - 1].date.Key());
    }
  }

  lemma {:induction false} SliceBeyondLast(rows: seq<Row>, lo: Option<int>, hi: int, hi': int)
    requires forall i :: 0 <= i < |rows| ==> rows[i].date.Key() <= hi && rows[i].date.Key() <= hi'
    ensures DateSlice(rows, lo, hi) == DateSlice(rows, lo, hi')
  {
    if rows != [] { SliceBeyondLast(rows[..|rows| - 1], lo, hi, hi'); }
  }

  /** Windows and histories that end inside a prefix do not see what follows it. */
  lemma {:induction false} PrefixForms(rows: seq<Row>, n: nat, threshold: int, upto: nat)
    requires upto <= n <= |rows|
    ensures Window(rows[..n], threshold, upto) == Window(rows, threshold, upto)
    ensures History(rows[..n], upto) == History(rows, upto)
  {
    if upto > 0 { PrefixForms(rows, n, threshold, upto - 1); }
  }

  /** With no negative value in sight, ranking among positives is ranking among all. */
  lemma {:induction false} PositiveOnly(values: seq<real>, bound: real)
    requires forall i :: 0 <= i < |values| ==> values[i] != 0.0
    requires Count(values, Negative) == 0
    ensures CountLe(values, Every, bound) == CountLe(values, Positive, bound)
    ensures Count(values, Positive) == |values|
  {
    if values != [] { PositiveOnly(values[..|values| - 1], bound); }
  }

  lemma {:induction false} HistoryNonZero(rows: seq<Row>, upto: nat)
    requires upto <= |rows|
    ensures forall i :: 0 <= i < |History(rows, upto)| ==> History(rows, upto)[i] != 0.0
  {
    if upto > 0 { HistoryNonZero(rows, upto - 1); }
  }

  /** The three ways of getting one number agree: expanding rank and date slice ... */
  lemma {:induction false} SliceEqualsExpandingRank(rows: seq<Row>, i: nat)
    requires Ascending(rows) && i < |rows| && IsValid(rows[i].value)
    ensures var sample := DateSlice(rows, None, rows[i].date.Key());
      && Divisible(sample, rows[i].value.value)
      && PercentileFromValues(sample, rows[i].value.value) == ExpandingRankCell(rows, i)
  {
    DateSliceIsWindow(rows, 0, i);
    OwnValueInHistory(rows, i);
    var seen := History(rows, i + 1);
    var v := rows[i].value.value;
    PercentileRange(seen, v);
    HistoryNonZero(rows, i + 1);
    if v > 0.0 && Count(seen, Negative) == 0 { PositiveOnly(seen, v); }
  }

  /** ... and Fenwick window and date slice. */
  lemma {:induction false} SliceEqualsFixedWindow(rows: seq<Row>, years: int, i: nat)
    requires Ascending(rows) && i < |rows| && IsValid(rows[i].value) && years >= 1
    ensures FirstValidKey(rows).Some?
    ensures var threshold := SubtractYears(rows[i].date, years).Key();
      var sample := DateSlice(rows, Some(threshold), rows[i].date.Key());
      && Divisible(sample, rows[i].value.value)
      && FixedWindowCell(rows, years, i)
         == if FirstValidKey(rows).value <= threshold then PercentileFromValues(sample, rows[i].value.value) else None
  {
    var threshold := SubtractYears(rows[i].date, years).Key();
    SubtractYearsMonotone(rows[i].date, rows[i].date, years);
    DateSliceIsWindow(rows, threshold, i);
    OwnValueInWindow(rows, threshold, i);
    PercentileRange(Window(rows, threshold, i + 1), rows[i].value.value);
    FirstValidOfPrefix(rows, i + 1);
  }

  /** The first valid date is settled by any prefix that has one. */
  lemma {:induction false} FirstValidOfPrefix(rows: seq<Row>, n: nat)
    requires Ascending(rows) && n <= |rows| && FirstValidKey(rows[..n]).Some?
    ensures FirstValidKey(rows) == FirstValidKey(rows[..n])
    decreases |rows| - n
  {
    if n == |rows| {
      assert rows[..n] == rows;
    } else {
      assert rows[..n + 1][..n] == rows[..n];
      FirstValidBound(rows[..n], rows[n].date.Key());
      FirstValidOfPrefix(rows, n + 1);
    }
  }

  lemma {:induction false} FirstValidBound(rows: seq<Row>, bound: int)
    requires forall i :: 0 <= i < |rows| ==> rows[i].date.Key() <= bound
    ensures FirstValidKey(rows).Some? ==> FirstValidKey(rows).value <= bound
  {
    if rows != [] { FirstValidBound(rows[..|rows| - 1], bound); }
  }

  /** The windows of one appended row, each from a slice. */
  method AppendOnlyWindows(rows: seq<Row>, i: nat) returns (fixed: seq<Option<real>>)
    requires Ascending(rows) && i < |rows| && IsValid(rows[i].value)
    ensures fixed == FixedCells(rows, i)
  {
    fixed := [];
    var current := rows[i].value.value;
    for j := 0 to |WINDOW_YEARS|
      invariant |fixed| == j
      invariant forall k :: 0 <= k < j ==> fixed[k] == FixedWindowCell(rows, WINDOW_YEARS[k], i)
    {
      SliceEqualsFixedWindow(rows, WINDOW_YEARS[j], i);
      var threshold := SubtractYears(rows[i].date, WINDOW_YEARS[j]).Key();
      var cell := None;
      if FirstValidKey(rows).value <= threshold {
        cell := PercentileFromValues(DateSlice(rows, Some(threshold), rows[i].date.Key()), current);
      }
      fixed := fixed + [cell];
    }
  }

  /** One appended row. */
  method AppendOnlyCells(rows: seq<Row>, i: nat) returns (cells: FieldCells)
    requires Ascending(rows) && i < |rows|
    ensures cells == FullCells(rows, i)
  {
    var fixed: seq<Option<real>> := [];
    var allHistory := None;
    if IsValid(rows[i].value) {
      SliceEqualsExpandingRank(rows, i);
      allHistory := PercentileFromValues(DateSlice(rows, None, rows[i].date.Key()), rows[i].value.value);
      fixed := AppendOnlyWindows(rows, i);
    } else {
      fixed := seq(|WINDOW_YEARS|, j => None);
      assert fixed == FixedCells(rows, i);
    }
    cells := FieldCells(allHistory, fixed);
  }

  /** The append-only functions for one field: every row after `latest`, each from slices. */
  method AppendOnlyField(rows: seq<Row>, latest: int, start: nat) returns (cells: seq<FieldCells>)
    requires Ascending(rows) && start <= |rows|
    requires forall i :: 0 <= i < |rows| ==> (rows[i].date.Key() > latest <==> i >= start)
    ensures |cells| == |rows| - start
    ensures forall i :: 0 <= i < |cells| ==> cells[i] == FullCells(rows, start + i)
  {
    cells := [];
    for i := start to |rows|
      invariant |cells| == i - start
      invariant forall k :: 0 <= k < |cells| ==> cells[k] == FullCells(rows, start + k)
    {
      var row := AppendOnlyCells(rows, i);
      cells := cells + [row];
    }
  }

  // ---------------------------------------------------------------- causality

  lemma {:induction false} FixedCellCausality(rows: seq<Row>, n: nat, years: int, i: nat)
    requires Ascending(rows) && i < n <= |rows| && years >= 1
    ensures FixedWindowCell(rows[..n], years, i) == FixedWindowCell(rows, years, i)
  {
    PrefixForms(rows, n, SubtractYears(rows[i].date, years).Key(), i + 1);
    assert rows[..n][i] == rows[i];
    if IsValid(rows[i].value) {
      OwnValueInWindow(rows, rows[i].date.Key(), i);
      assert rows[..n][..i + 1] == rows[..i + 1];
      FirstValidOfPrefix(rows[..n], i + 1);
      FirstValidOfPrefix(rows, n);
    }
  }

  lemma {:induction false} FixedCellsCausality(rows: seq<Row>, n: nat, i: nat)
    requires Ascending(rows) && i < n <= |rows|
    ensures FixedCells(rows[..n], i) == FixedCells(rows, i)
  {
    forall j | 0 <= j < |WINDOW_YEARS| ensures FixedCells(rows[..n], i)[j] == FixedCells(rows, i)[j] {
      FixedCellCausality(rows, n, WINDOW_YEARS[j], i);
    }
  }

  lemma {:induction false} RankCausality(rows: seq<Row>, n: nat, i: nat)
    requires i < n <= |rows|
    ensures ExpandingRankCell(rows[..n], i) == ExpandingRankCell(rows, i)
  {
    PrefixForms(rows, n, 0, i + 1);
    assert rows[..n][i] == rows[i];
  }

  /** A row's percentiles depend on no later row. */
  lemma {:induction false} Causality(source: seq<SourceRow>, n: nat, i: nat)
    requires Wellformed(source) && i < n <= |source|
    ensures FullRow(source[..n], i) == FullRow(source, i)
  {
    forall f | 0 <= f < FIELD_COUNT
      ensures FullCells(Column(source[..n], f), i) == FullCells(Column(source, f), i)
    {
      var rows := Column(source, f);
      assert Column(source[..n], f) == rows[..n];
      FixedCellsCausality(rows, n, i);
      RankCausality(rows, n, i);
    }
  }

  lemma {:induction false} FullOfPrefix(source: seq<SourceRow>, n: nat)
    requires Wellformed(source) && n <= |source|
    ensures Full(source[..n]) == Full(source)[..n]
  {
    forall i | 0 <= i < n ensures Full(source[..n])[i] == Full(source)[i] {
      Causality(source, n, i);
    }
  }

  // ---------------------------------------------------------------- run modes

  datatype Mode = FullMode | Partial

  function RowsFrom(rows: seq<OutRow>, start: int): seq<OutRow> {
    if rows == [] then []
    else if rows[0].date.Key() >= start then [rows[0]] + RowsFrom(rows[1..], start)
    else RowsFrom(rows[1..], start)
  }

  function RowsBefore(rows: seq<OutRow>, start: int): seq<OutRow> {
    if rows == [] then []
    else if rows[0].date.Key() < start then [rows[0]] + RowsBefore(rows[1..], start)
    else RowsBefore(rows[1..], start)
  }

  function LatestKey(rows: seq<OutRow>): int
    requires rows != []
  {
    if |rows| == 1 then rows[0].date.Key()
    else
      var rest := LatestKey(rows[1..]);
      if rest > rows[0].date.Key() then rest else rows[0].date.Key()
  }

  /** What one run stores, given the full computation and the latest date of the source. */
  ghost function Merged(mode: Mode, start: Option<Date>, existing: seq<OutRow>, computed: seq<OutRow>,
                        sourceEnd: int): seq<OutRow> {
    var covered := mode.Partial? && start.None? && existing != [] && LatestKey(existing) >= sourceEnd;
    var selected :=
      if covered then []
      else if mode.FullMode? || (existing == [] && start.None?) then computed
      else if start.Some? then RowsFrom(computed, start.value.Key())
      else RowsFrom(computed, LatestKey(existing) + 1);
    if selected == [] then existing
    else if mode.FullMode? || existing == [] then selected
    else if start.None? then existing + selected
    else RowsBefore(existing, start.value.Key()) + selected
  }

  /** One run for one stock: what is stored afterwards. `start` is the --start date. */
  ghost function Update(mode: Mode, start: Option<Date>, existing: seq<OutRow>, source: seq<SourceRow>): seq<OutRow>
    requires Wellformed(source) && source != []
  {
    Merged(mode, start, existing, Full(source), source[|source| - 1].date.Key())
  }

  ghost predicate DateOrdered(rows: seq<OutRow>) {
    forall i, j :: 0 <= i < j < |rows| ==> rows[i].date.Key() < rows[j].date.Key()
  }

  /** How many rows are dated before the start. */
  ghost function CountBefore(source: seq<SourceRow>, start: int): (k: nat)
    ensures k <= |source|
  {
    if source == [] || source[0].date.Key() >= start then 0 else 1 + CountBefore(source[1..], start)
  }

  lemma {:induction false} CountBeforeSplits(source: seq<SourceRow>, start: int)
    requires Wellformed(source)
    ensures forall i :: 0 <= i < |source| ==> (i < CountBefore(source, start) <==> source[i].date.Key() < start)
  {
    if source != [] {
      CountBeforeSplits(source[1..], start);
      forall i | 0 <= i < |source| ensures i < CountBefore(source, start) <==> source[i].date.Key() < start {
        if i > 0 { assert source[i] == source[1..][i - 1]; }
      }
    }
  }

  lemma {:induction false} AllFrom(rows: seq<OutRow>, start: int)
    requires forall i :: 0 <= i < |rows| ==> rows[i].date.Key() >= start
    ensures RowsFrom(rows, start) == rows && RowsBefore(rows, start) == []
  {
    if rows != [] { AllFrom(rows[1..], start); }
  }

  /** On date-ordered rows both selections are slices. */
  lemma {:induction false} SelectionsAreSlices(rows: seq<OutRow>, start: int, k: nat)
    requires DateOrdered(rows) && k <= |rows|
    requires forall i :: 0 <= i < |rows| ==> (i < k <==> rows[i].date.Key() < start)
    ensures RowsFrom(rows, start) == rows[k..]
    ensures RowsBefore(rows, start) == rows[..k]
  {
    if rows != [] {
      var rest := rows[1..];
      assert forall i :: 0 <= i < |rest| ==> rest[i] == rows[i + 1];
      if k > 0 {
        SelectionsAreSlices(rest, start, k - 1);
        assert rows[..k] == [rows[0]] + rest[..k - 1] && rows[k..] == rest[k - 1..];
      } else {
        AllFrom(rows, start);
      }
    }
  }

  lemma {:induction false} LatestIsLast(rows: seq<OutRow>)
    requires DateOrdered(rows) && rows != []
    ensures LatestKey(rows) == rows[|rows| - 1].date.Key()
  {
    if |rows| > 1 { LatestIsLast(rows[1..]); }
  }

  lemma {:induction false} FullDates(source: seq<SourceRow>)
    requires Wellformed(source)
    ensures DateOrdered(Full(source))
    ensures forall i :: 0 <= i < |source| ==> Full(source)[i].date == source[i].date
  {
  }

  /** The rows from a cut date on are the tail of the full computation. */
  lemma {:induction false} TailOfFull(source: seq<SourceRow>, cut: int, start: nat, out: seq<OutRow>)
    requires Wellformed(source) && start == CountBefore(source, cut)
    requires |out| == |source| - start
    requires forall k :: 0 <= k < |out| ==> out[k] == FullRow(source, start + k)
    ensures out == RowsFrom(Full(source), cut)
  {
    FullDates(source);
    CountBeforeSplits(source, cut);
    SelectionsAreSlices(Full(source), cut, start);
    assert out == Full(source)[start..];
  }

  /** Every column of the rows from `start` on, field by field. */
  ghost predicate TailColumns(source: seq<SourceRow>, columns: seq<seq<FieldCells>>, start: nat)
    requires Wellformed(source) && start <= |source| && |columns| <= FIELD_COUNT
  {
    forall g :: 0 <= g < |columns| ==> TailColumn(source, columns[g], g, start)
  }

  ghost predicate TailColumn(source: seq<SourceRow>, column: seq<FieldCells>, field: nat, start: nat)
    requires Wellformed(source) && start <= |source| && field < FIELD_COUNT
  {
    && |column| == |source| - start
    && forall i :: 0 <= i < |column| ==> column[i] == FullCells(Column(source, field), start + i)
  }

  method AppendOnlyColumns(source: seq<SourceRow>, cut: int, start: nat) returns (columns: seq<seq<FieldCells>>)
    requires Wellformed(source) && start <= |source|
    requires forall i :: 0 <= i < |source| ==> (source[i].date.Key() > cut <==> i >= start)
    ensures |columns| == FIELD_COUNT && TailColumns(source, columns, start)
  {
    columns := [];
    for f := 0 to FIELD_COUNT
      invariant |columns| == f && TailColumns(source, columns, start)
    {
      var cells := AppendOnlyField(Column(source, f), cut, start);
      assert TailColumn(source, cells, f, start);
      columns := columns + [cells];
    }
  }

  lemma {:induction false} AssembledRow(source: seq<SourceRow>, columns: seq<seq<FieldCells>>, start: nat, i: nat,
                                        cells: seq<FieldCells>)
    requires Wellformed(source) && start <= i < |source| && |columns| == |cells| == FIELD_COUNT
    requires TailColumns(source, columns, start)
    requires forall f :: 0 <= f < FIELD_COUNT ==> i - start < |columns[f]| && cells[f] == columns[f][i - start]
    ensures OutRow(source[i].date, source[i].fields, cells) == FullRow(source, i)
  {
    forall f | 0 <= f < FIELD_COUNT ensures cells[f] == FullCells(Column(source, f), i) {
      assert TailColumn(source, columns[f], f, start);
    }
    assert cells == FullRow(source, i).cells;
  }

  /** The append-only computation of a whole frame is the tail of the full one. */
  method AppendOnly(source: seq<SourceRow>, existing: seq<OutRow>) returns (out: seq<OutRow>)
    requires Wellformed(source) && existing != []
    ensures out == RowsFrom(Full(source), LatestKey(existing) + 1)
  {
    var cut := LatestOf(existing);
    CountBeforeSplits(source, cut + 1);
    var start := 0;
    while start < |source| && source[start].date.Key() <= cut
      invariant start <= CountBefore(source, cut + 1)
    {
      start := start + 1;
    }
    var columns := AppendOnlyColumns(source, cut, start);
    out := [];
    for i := start to |source|
      invariant |out| == i - start
      invariant forall k :: 0 <= k < |out| ==> out[k] == FullRow(source, start + k)
    {
      var row := ReadRow(source, columns, start, i);
      out := out + [row];
    }
    TailOfFull(source, cut + 1, start, out);
  }

  method ReadRow(source: seq<SourceRow>, columns: seq<seq<FieldCells>>, start: nat, i: nat) returns (row: OutRow)
    requires Wellformed(source) && start <= i < |source| && |columns| == FIELD_COUNT
    requires TailColumns(source, columns, start)
    ensures row == FullRow(source, i)
  {
    forall f | 0 <= f < FIELD_COUNT ensures i - start < |columns[f]| {
      assert TailColumn(source, columns[f], f, start);
    }
    var cells := seq(FIELD_COUNT, f requires 0 <= f < FIELD_COUNT => columns[f][i - start]);
    AssembledRow(source, columns, start, i, cells);
    row := OutRow(source[i].date, source[i].fields, cells);
  }

  method LatestOf(rows: seq<OutRow>) returns (latest: int)
    requires rows != []
    ensures latest == LatestKey(rows)
  {
    latest := rows[|rows| - 1].date.Key();
    var i := |rows| - 1;
    while i > 0
      invariant 0 <= i < |rows|
      invariant latest == LatestKey(rows[i..])
    {
      i := i - 1;
      assert rows[i..][1..] == rows[i + 1..];
      if rows[i].date.Key() >= latest { latest := rows[i].date.Key(); }
    }
  }

  lemma {:induction false} MergedAppends(existing: seq<OutRow>, computed: seq<OutRow>, sourceEnd: int)
    requires existing != [] && LatestKey(existing) < sourceEnd
    ensures Merged(Partial, None, existing, computed, sourceEnd)
         == existing + RowsFrom(computed, LatestKey(existing) + 1)
  {
    assert existing + [] == existing;
  }

  lemma {:induction false} MergedWhole(existing: seq<OutRow>, later: seq<OutRow>, full: seq<OutRow>, latest: int,
                                       sourceEnd: int)
    requires existing != [] && LatestKey(existing) == latest < sourceEnd
    requires RowsFrom(full, latest + 1) == later && existing + later == full
    ensures Merged(Partial, None, existing, full, sourceEnd) == full
  {
    MergedAppends(existing, full, sourceEnd);
  }

  lemma {:induction false} PrefixLatest(full: seq<OutRow>, n: nat)
    requires DateOrdered(full) && 0 < n < |full|
    ensures LatestKey(full[..n]) == full[n - 1].date.Key() < full[|full| - 1].date.Key()
  {
    LatestIsLast(full[..n]);
  }

  lemma {:induction false} LaterRows(full: seq<OutRow>, n: nat)
    requires DateOrdered(full) && 0 < n < |full|
    ensures RowsFrom(full, full[n - 1].date.Key() + 1) == full[n..]
  {
    SelectionsAreSlices(full, full[n - 1].date.Key() + 1, n);
  }

  lemma {:induction false} LaterMerged(full: seq<OutRow>, n: nat)
    requires DateOrdered(full) && 0 < n < |full|
    ensures Merged(Partial, None, full[..n], full, full[|full| - 1].date.Key()) == full
  {
    var existing, later := full[..n], full[n..];
    assert existing + later == full;
    PrefixLatest(full, n);
    LaterRows(full, n);
    MergedWhole(existing, later, full, full[n - 1].date.Key(), full[|full| - 1].date.Key());
  }

  lemma {:induction false} CoveredMerged(full: seq<OutRow>)
    requires DateOrdered(full) && full != []
    ensures Merged(Partial, None, full, full, full[|full| - 1].date.Key()) == full
  {
    LatestIsLast(full);
  }

  lemma {:induction false} PartialMerged(full: seq<OutRow>, n: nat)
    requires DateOrdered(full) && full != [] && n <= |full|
    ensures Merged(Partial, None, full[..n], full, full[|full| - 1].date.Key()) == full
  {
    if n == |full| {
      assert full[..n] == full;
      CoveredMerged(full);
    } else if n > 0 {
      LaterMerged(full, n);
    }
  }

  /** A partial run on top of a full computation of earlier rows is the full computation now. */
  lemma {:induction false} PartialEqualsFull(source: seq<SourceRow>, n: nat)
    requires Wellformed(source) && source != [] && n <= |source|
    ensures Update(Partial, None, Full(source[..n]), source) == Full(source)
  {
    FullOfPrefix(source, n);
    FullDates(source);
    PartialMerged(Full(source), n);
  }

  /** The processing of one stock: skip, append only, or compute and select; then merge. */
  method UpdateStock(mode: Mode, start: Option<Date>, existing: seq<OutRow>, source: seq<SourceRow>)
    returns (stored: seq<OutRow>)
    requires Wellformed(source) && source != []
    ensures stored == Update(mode, start, existing, source)
  {
    var selected: seq<OutRow> := [];
    if mode.Partial? && start.None? && existing != [] && LatestKey(existing) >= source[|source| - 1].date.Key() {
      selected := [];
    } else if mode.Partial? && start.None? && existing != [] {
      selected := AppendOnly(source, existing);
    } else {
      var computed := ComputeValuationPercentiles(source);
      if mode.FullMode? || (existing == [] && start.None?) {
        selected := computed;
      } else {
        selected := RowsFrom(computed, start.value.Key());
      }
    }
    if selected == [] { return existing; }
    if mode.FullMode? || existing == [] { return selected; }
    if start.None? { return existing + selected; }
    stored := RowsBefore(existing, start.value.Key()) + selected;
  }

  /** Stored output after one partial run per delivered source. */
  ghost function DailyRuns(sources: seq<seq<SourceRow>>): seq<OutRow>
    requires forall d :: 0 <= d < |sources| ==> Wellformed(sources[d]) && sources[d] != []
  {
    if sources == [] then []
    else Update(Partial, None, DailyRuns(sources[..|sources| - 1]), sources[|sources| - 1])
  }

  /** Any sequence of daily partial runs over a growing source equals one full run at the end. */
  lemma {:induction false} DailyRunsEqualFull(sources: seq<seq<SourceRow>>)
    requires sources != []
    requires forall d :: 0 <= d < |sources| ==> Wellformed(sources[d]) && sources[d] != []
    requires forall d :: 0 <= d < |sources| - 1 ==> sources[d] <= sources[d + 1]
    ensures DailyRuns(sources) == Full(sources[|sources| - 1])
  {
    var today := sources[|sources| - 1];
    var before := sources[..|sources| - 1];
    if before == [] {
      assert today[..0] == [];
      PartialEqualsFull(today, 0);
    } else {
      DailyRunsEqualFull(before);
      var yesterday := before[|before| - 1];
      assert yesterday <= today;
      assert today[..|yesterday|] == yesterday;
      PartialEqualsFull(today, |yesterday|);
    }
  }

  lemma {:induction false} StartMerged(full: seq<OutRow>, n: nat, k: nat, start: Date, end: int)
    requires DateOrdered(full) && n <= |full| && k <= |full|
    requires forall i :: 0 <= i < |full| ==> (i < k <==> full[i].date.Key() < start.Key())
    ensures Merged(Partial, Some(start), full[..n], full, end) == full[..if k < n then k else n] + full[k..]
  {
    SelectionsAreSlices(full, start.Key(), k);
    SelectionsAreSlices(full[..n], start.Key(), if k < n then k else n);
    assert k < n ==> full[..n][..k] == full[..k];
  }

  /** A run from `start` keeps the covered rows before it and recomputes the rest. */
  lemma {:induction false} StartRunResult(source: seq<SourceRow>, n: nat, start: Date)
    requires Wellformed(source) && source != [] && n <= |source|
    ensures var k := CountBefore(source, start.Key());
      Update(Partial, Some(start), Full(source[..n]), source)
      == Full(source)[..if k < n then k else n] + Full(source)[k..]
  {
    FullOfPrefix(source, n);
    FullDates(source);
    CountBeforeSplits(source, start.Key());
    StartMerged(Full(source), n, CountBefore(source, start.Key()), start, source[|source| - 1].date.Key());
  }

  /** It yields the full computation exactly when every source row dated before `start` was
      already covered; otherwise it leaves a hole. */
  lemma {:induction false} StartRunEqualsFullIff(source: seq<SourceRow>, n: nat, start: Date)
    requires Wellformed(source) && source != [] && n <= |source|
    ensures Update(Partial, Some(start), Full(source[..n]), source) == Full(source)
       <==> CountBefore(source, start.Key()) <= n
  {
    StartRunResult(source, n, start);
    var full, k := Full(source), CountBefore(source, start.Key());
    if k <= n {
      assert full[..k] + full[k..] == full;
    } else {
      assert |full[..n] + full[k..]| < |full|;
    }
  }

  /** Partial runs only ever append: a row dated up to the latest stored date that is missing
      stays missing. */
  lemma {:induction false} HolesStay(existing: seq<OutRow>, source: seq<SourceRow>, row: OutRow)
    requires Wellformed(source) && source != [] && existing != []
    requires row !in existing && row.date.Key() <= LatestKey(existing)
    ensures row !in Update(Partial, None, existing, source)
  {
    var selected := RowsFrom(Full(source), LatestKey(existing) + 1);
    RowsFromAre(Full(source), LatestKey(existing) + 1);
  }

  ghost predicate LaterThanAll(row: OutRow, existing: seq<OutRow>) {
    forall e <- existing :: e.date.Key() < row.date.Key()
  }

  /** A full run stores the full computation whatever was stored. */
  lemma {:induction false} FullRunReplaces(start: Option<Date>, existing: seq<OutRow>, source: seq<SourceRow>)
    requires Wellformed(source) && source != []
    ensures Update(FullMode, start, existing, source) == Full(source)
  {
  }

  /** Whatever is stored, a partial run keeps it in front and appends the computed rows that are
      dated after everything stored. */
  lemma {:induction false} PartialRunAppends(existing: seq<OutRow>, source: seq<SourceRow>)
    requires Wellformed(source) && source != []
    ensures var stored := Update(Partial, None, existing, source);
      && |existing| <= |stored| && stored[..|existing|] == existing
      && forall r :: r in stored[|existing|..] <==> r in Full(source) && LaterThanAll(r, existing)
  {
    AppendsLater(existing, Full(source), source[|source| - 1].date.Key());
  }

  lemma {:induction false} AppendsLater(existing: seq<OutRow>, computed: seq<OutRow>, end: int)
    requires forall i :: 0 <= i < |computed| ==> computed[i].date.Key() <= end
    ensures var stored := Merged(Partial, None, existing, computed, end);
      && |existing| <= |stored| && stored[..|existing|] == existing
      && forall r :: r in stored[|existing|..] <==> r in computed && LaterThanAll(r, existing)
  {
    var stored := Merged(Partial, None, existing, computed, end);
    if existing == [] {
      assert stored == computed && computed[0..] == computed;
    } else {
      var later := RowsFrom(computed, LatestKey(existing) + 1);
      if LatestKey(existing) < end { MergedAppends(existing, computed, end); }
      if LatestKey(existing) >= end { NoneFrom(computed, LatestKey(existing) + 1); }
      assert stored == existing + later && stored[|existing|..] == later;
      RowsFromAre(computed, LatestKey(existing) + 1);
      LaterIs(existing);
    }
  }

  lemma {:induction false} LaterIs(existing: seq<OutRow>)
    requires existing != []
    ensures forall r: OutRow :: LaterThanAll(r, existing) <==> r.date.Key() >= LatestKey(existing) + 1
  {
    LatestIsMax(existing);
  }

  lemma {:induction false} NoneFrom(rows: seq<OutRow>, start: int)
    requires forall i :: 0 <= i < |rows| ==> rows[i].date.Key() < start
    ensures RowsFrom(rows, start) == []
  {
    if rows != [] { NoneFrom(rows[1..], start); }
  }

  lemma {:induction false} LatestIsMax(rows: seq<OutRow>)
    requires rows != []
    ensures exists r <- rows :: r.date.Key() == LatestKey(rows)
    ensures forall r <- rows :: r.date.Key() <= LatestKey(rows)
  {
    assert rows == [rows[0]] + rows[1..];
    if |rows| > 1 {
      LatestIsMax(rows[1..]);
    } else {
      assert rows[0] in rows;
    }
  }

  lemma {:induction false} RowsFromAre(rows: seq<OutRow>, start: int)
    ensures forall r :: r in RowsFrom(rows, start) <==> r in rows && r.date.Key() >= start
    ensures forall r :: r in RowsBefore(rows, start) <==> r in rows && r.date.Key() < start
  {
    if rows != [] {
      assert rows == [rows[0]] + rows[1..];
      RowsFromAre(rows[1..], start);
    }
  }

  /** Whatever is stored, a run from a start date keeps the stored rows before it and replaces the
      rest by the computed ones; if the source has no row from it on, it changes nothing. */
  lemma {:induction false} StartRunHolds(existing: seq<OutRow>, source: seq<SourceRow>, start: Date)
    requires Wellformed(source) && source != []
    ensures var stored := Update(Partial, Some(start), existing, source);
      if source[|source| - 1].date.Key() < start.Key() then stored == existing
      else forall r :: r in stored <==>
        if r.date.Key() < start.Key() then r in existing else r in Full(source)
  {
    var full, last := Full(source), |source| - 1;
    RowsFromAre(full, start.Key());
    RowsFromAre(existing, start.Key());
    assert full[last] in full;
    if source[last].date.Key() < start.Key() {
      NoneFrom(full, start.Key());
    } else {
      assert full[last] in RowsFrom(full, start.Key());
    }
  }
}
