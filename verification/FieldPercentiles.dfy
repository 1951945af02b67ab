/** One pass over a stock's rows that fills every fixed-window column of a valuation field. */
module FieldPercentiles {
  import opened Common
  import opened Percentile
  import opened PercentileMeaning

  /** Inserts into a strictly ascending table unless present. */
  function InsertValue(v: real, table: seq<real>): seq<real> {
    if table == [] then [v]
    else if table[0] == v then table
    else if v < table[0] then [v] + table
    else [table[0]] + InsertValue(v, table[1..])
  }

  /** The distinct valid values in ascending order. */
  function SortedUnique(rows: seq<Row>): seq<real> {
    if rows == [] then []
    else
      var rest := SortedUnique(rows[1..]);
      if IsValid(rows[0].value) then InsertValue(rows[0].value.value, rest) else rest
  }

  lemma {:induction false} ConsSorted(v: real, table: seq<real>)
    requires Sorted(table) && forall i :: 0 <= i < |table| ==> v < table[i]
    ensures Sorted([v] + table)
  {
  }

  lemma {:induction false} InsertValueMembers(v: real, table: seq<real>, x: real)
    ensures x in InsertValue(v, table) <==> x == v || x in table
  {
    if table != [] {
      assert table == [table[0]] + table[1..];
      InsertValueMembers(v, table[1..], x);
    }
  }

  lemma {:induction false} InsertValueSorted(v: real, table: seq<real>)
    requires Sorted(table)
    ensures Sorted(InsertValue(v, table))
  {
    if table != [] {
      if v < table[0] {
        ConsSorted(v, table);
      } else if table[0] < v {
        var rest := InsertValue(v, table[1..]);
        InsertValueSorted(v, table[1..]);
        forall i | 0 <= i < |rest| ensures table[0] < rest[i] {
          InsertValueMembers(v, table[1..], rest[i]);
        }
        ConsSorted(table[0], rest);
      }
    }
  }

  /** The table is ascending and holds exactly the valid values. */
  lemma {:induction false} SortedUniqueIs(rows: seq<Row>)
    ensures Sorted(SortedUnique(rows))
    ensures forall i :: 0 <= i < |rows| && IsValid(rows[i].value) ==> rows[i].value.value in SortedUnique(rows)
    ensures forall x :: x in SortedUnique(rows) ==> exists i :: 0 <= i < |rows| && rows[i].value == Some(x)
  {
    if rows != [] {
      var rest := SortedUnique(rows[1..]);
      SortedUniqueIs(rows[1..]);
      if IsValid(rows[0].value) { InsertValueSorted(rows[0].value.value, rest); }
      forall i | 0 <= i < |rows| && IsValid(rows[i].value) ensures rows[i].value.value in SortedUnique(rows) {
        if i > 0 { assert rows[1..][i - 1] == rows[i]; }
        if IsValid(rows[0].value) { InsertValueMembers(rows[0].value.value, rest, rows[i].value.value); }
      }
      forall x | x in SortedUnique(rows) ensures exists i :: 0 <= i < |rows| && rows[i].value == Some(x) {
        if IsValid(rows[0].value) { InsertValueMembers(rows[0].value.value, rest, x); }
        if x in rest {
          var i :| 0 <= i < |rows[1..]| && rows[1..][i].value == Some(x);
          assert rows[i + 1].value == Some(x);
        }
      }
    }
  }

  lemma {:induction false} ValuesAreValid(rows: seq<Row>, x: real)
    requires x in SortedUnique(rows)
    ensures exists i :: 0 <= i < |rows| && rows[i].value == Some(x) && IsValid(rows[i].value)
  {
    var rest := SortedUnique(rows[1..]);
    if IsValid(rows[0].value) { InsertValueMembers(rows[0].value.value, rest, x); }
    if !(IsValid(rows[0].value) && x == rows[0].value.value) {
      ValuesAreValid(rows[1..], x);
      var i :| 0 <= i < |rows[1..]| && rows[1..][i].value == Some(x) && IsValid(rows[1..][i].value);
      assert rows[i + 1] == rows[1..][i];
    }
  }

  /** Position of every valid value in the table. */
  ghost predicate Positions(rows: seq<Row>, table: seq<real>, index: map<real, nat>) {
    forall i :: 0 <= i < |rows| && IsValid(rows[i].value) ==>
      rows[i].value.value in index
      && index[rows[i].value.value] < |table| && table[index[rows[i].value.value]] == rows[i].value.value
  }

  ghost predicate AllIndexed(rows: seq<Row>, index: map<real, nat>) {
    forall i :: 0 <= i < |rows| && IsValid(rows[i].value) ==> rows[i].value.value in index
  }

  method IndexValues(table: seq<real>) returns (index: map<real, nat>)
    ensures forall x :: x in table ==> x in index && index[x] < |table| && table[index[x]] == x
  {
    index := map[];
    for k := 0 to |table|
      invariant forall x :: x in table[..k] ==> x in index && index[x] < k && table[index[x]] == x
    {
      index := index[table[k] := k];
      assert table[..k + 1] == table[..k] + [table[k]];
    }
    assert table[..|table|] == table;
  }

  /** The samples behind `Window`. */
  ghost function WindowSamples(rows: seq<Row>, index: map<real, nat>, threshold: int, upto: nat): seq<Sample>
    requires upto <= |rows|
    requires AllIndexed(rows, index)
  {
    if upto == 0 then []
    else
      var rest := WindowSamples(rows, index, threshold, upto - 1);
      var row := rows[upto - 1];
      if IsValid(row.value) && threshold <= row.date.Key()
      then rest + [Sample(row.date.Key(), row.value.value, index[row.value.value])]
      else rest
  }

  lemma {:induction false} WindowSamplesValues(rows: seq<Row>, index: map<real, nat>, threshold: int, upto: nat)
    requires upto <= |rows|
    requires AllIndexed(rows, index)
    ensures Values(WindowSamples(rows, index, threshold, upto)) == Window(rows, threshold, upto)
    ensures forall k :: 0 <= k < |WindowSamples(rows, index, threshold, upto)| ==>
      && threshold <= WindowSamples(rows, index, threshold, upto)[k].date
      && exists i :: 0 <= i < upto && rows[i].date.Key() == WindowSamples(rows, index, threshold, upto)[k].date
  {
    if upto > 0 { WindowSamplesValues(rows, index, threshold, upto - 1); }
  }

  lemma {:induction false} DropBeforeAppend(samples: seq<Sample>, s: Sample, threshold: int)
    ensures DropBefore(samples + [s], threshold)
         == if DropBefore(samples, threshold) != [] then DropBefore(samples, threshold) + [s]
            else DropBefore([s], threshold)
  {
    if samples == [] {
      assert samples + [s] == [s];
    } else {
      assert (samples + [s])[1..] == samples[1..] + [s];
      if samples[0].date < threshold { DropBeforeAppend(samples[1..], s, threshold); }
    }
  }

  /** Raising the threshold of a window is the same as evicting from its front. */
  lemma {:induction false} EvictionMovesThreshold(rows: seq<Row>, index: map<real, nat>, earlier: int, later: int,
                                                  upto: nat)
    requires Ascending(rows) && upto <= |rows| && earlier <= later
    requires AllIndexed(rows, index)
    ensures DropBefore(WindowSamples(rows, index, earlier, upto), later) == WindowSamples(rows, index, later, upto)
  {
    if upto > 0 {
      EvictionMovesThreshold(rows, index, earlier, later, upto - 1);
      var row := rows[upto - 1];
      var rest := WindowSamples(rows, index, earlier, upto - 1);
      if IsValid(row.value) && earlier <= row.date.Key() {
        var s := Sample(row.date.Key(), row.value.value, index[row.value.value]);
        DropBeforeAppend(rest, s, later);
        WindowSamplesValues(rows, index, later, upto - 1);
        var kept := WindowSamples(rows, index, later, upto - 1);
        if kept != [] {
          assert later <= kept[0].date;
        }
      }
    }
  }

  function Thresholds(date: Date, years: seq<int>): seq<int> {
    seq(|years|, j requires 0 <= j < |years| => SubtractYears(date, years[j]).Key())
  }

  /** What each window holds: samples from its threshold at row `at` up to row `upto`. */
  ghost function HeldAt(rows: seq<Row>, index: map<real, nat>, years: seq<int>, at: int, upto: nat): seq<seq<Sample>>
    requires at < |rows| && upto <= |rows| && AllIndexed(rows, index)
  {
    seq(|years|, j requires 0 <= j < |years| =>
      WindowSamples(rows, index, if at < 0 then 0 else SubtractYears(rows[at].date, years[j]).Key(), upto))
  }

  /** What the windows hold before row i. */
  ghost function HeldBefore(rows: seq<Row>, index: map<real, nat>, years: seq<int>, i: nat): seq<seq<Sample>>
    requires i <= |rows| && AllIndexed(rows, index)
  {
    HeldAt(rows, index, years, i - 1, i)
  }

  lemma {:induction false} RowEvicts(rows: seq<Row>, index: map<real, nat>, years: seq<int>, i: nat)
    requires Ascending(rows) && i < |rows| && AllIndexed(rows, index)
    requires forall j :: 0 <= j < |years| ==> years[j] >= 1
    ensures forall j :: 0 <= j < |years| ==>
      DropBefore(HeldAt(rows, index, years, i - 1, i)[j], Thresholds(rows[i].date, years)[j])
      == HeldAt(rows, index, years, i, i)[j]
  {
    if i > 0 {
      forall j | 0 <= j < |years|
        ensures DropBefore(HeldAt(rows, index, years, i - 1, i)[j], Thresholds(rows[i].date, years)[j])
             == HeldAt(rows, index, years, i, i)[j]
      {
        SubtractYearsMonotone(rows[i - 1].date, rows[i].date, years[j]);
        EvictionMovesThreshold(rows, index, SubtractYears(rows[i - 1].date, years[j]).Key(),
                               SubtractYears(rows[i].date, years[j]).Key(), i);
      }
    }
  }

  lemma {:induction false} RowAdds(rows: seq<Row>, index: map<real, nat>, years: seq<int>, i: nat)
    requires Ascending(rows) && i < |rows| && AllIndexed(rows, index)
    requires forall j :: 0 <= j < |years| ==> years[j] >= 1
    ensures forall j :: 0 <= j < |years| ==>
      HeldAt(rows, index, years, i, i + 1)[j]
      == if IsValid(rows[i].value)
         then HeldAt(rows, index, years, i, i)[j]
              + [Sample(rows[i].date.Key(), rows[i].value.value, index[rows[i].value.value])]
         else HeldAt(rows, index, years, i, i)[j]
  {
    forall j | 0 <= j < |years| ensures SubtractYears(rows[i].date, years[j]).Key() <= rows[i].date.Key() {
      SubtractYearsMonotone(rows[i].date, rows[i].date, years[j]);
    }
  }

  /** What a window holds once its own row was added yields the cell. */
  lemma {:induction false} CellFromWindow(rows: seq<Row>, index: map<real, nat>, years: int, i: nat, first: int)
    requires Ascending(rows) && i < |rows| && years >= 1 && AllIndexed(rows, index)
    requires FirstValidKey(rows) == Some(first) && IsValid(rows[i].value)
    ensures var threshold := SubtractYears(rows[i].date, years).Key();
      var kept := Values(WindowSamples(rows, index, threshold, i + 1));
      && Divisible(kept, rows[i].value.value)
      && FixedWindowCell(rows, years, i)
         == if first <= threshold then PercentileFromValues(kept, rows[i].value.value) else None
  {
    var threshold := SubtractYears(rows[i].date, years).Key();
    SubtractYearsMonotone(rows[i].date, rows[i].date, years);
    WindowSamplesValues(rows, index, threshold, i + 1);
    OwnValueInWindow(rows, threshold, i);
    PercentileRange(Window(rows, threshold, i + 1), rows[i].value.value);
  }

  lemma {:induction false} FirstValidKeyDefined(rows: seq<Row>)
    ensures FirstValidKey(rows).Some? <==> exists i :: 0 <= i < |rows| && IsValid(rows[i].value)
  {
    if rows != [] {
      var front := rows[..|rows| - 1];
      FirstValidKeyDefined(front);
      assert forall i :: 0 <= i < |front| ==> front[i] == rows[i];
    }
  }

  ghost predicate Separate(windows: seq<RollingCounts>) {
    forall j, k :: 0 <= j < |windows| && 0 <= k < |windows| && j != k ==>
      windows[j].footprint !! windows[k].footprint
  }

  ghost function FootprintOf(windows: seq<RollingCounts>): set<object> {
    set j, o | 0 <= j < |windows| && o in windows[j].footprint :: o
  }

  ghost predicate Holds(w: RollingCounts, table: seq<real>, samples: seq<Sample>)
    reads w.footprint
  {
    w.Valid() && w.table == table && w.samples == samples
  }

  ghost predicate AllHold(windows: seq<RollingCounts>, footprint: set<object>, table: seq<real>,
                          held: seq<seq<Sample>>)
    reads footprint
  {
    && |held| == |windows|
    && footprint == FootprintOf(windows)
    && forall j :: 0 <= j < |windows| ==> Holds(windows[j], table, held[j])
  }

  /** The columns carry the cells of the first i rows and nothing else. */
  ghost predicate Filled(columns: seq<array<Option<real>>>, rows: seq<Row>, years: seq<int>, i: nat)
    requires Ascending(rows) && |columns| == |years| && i <= |rows|
    requires forall j :: 0 <= j < |years| ==> years[j] >= 1
    requires forall j :: 0 <= j < |columns| ==> columns[j].Length == |rows|
    reads columns
  {
    forall j, k :: 0 <= j < |columns| && 0 <= k < |rows| ==>
      columns[j][k] == if k < i then FixedWindowCell(rows, years[j], k) else None
  }

  method EvictAll(windows: seq<RollingCounts>, table: seq<real>, thresholds: seq<int>, ghost held: seq<seq<Sample>>)
    requires |windows| == |thresholds| == |held| && Separate(windows)
    requires forall j :: 0 <= j < |windows| ==> Holds(windows[j], table, held[j])
    modifies FootprintOf(windows)
    ensures forall j :: 0 <= j < |windows| ==> Holds(windows[j], table, DropBefore(held[j], thresholds[j]))
  {
    for j := 0 to |windows|
      invariant forall k :: 0 <= k < j ==> Holds(windows[k], table, DropBefore(held[k], thresholds[k]))
      invariant forall k :: j <= k < |windows| ==> Holds(windows[k], table, held[k])
    {
      windows[j].EvictBefore(thresholds[j]);
    }
  }

  method AddAll(windows: seq<RollingCounts>, table: seq<real>, sample: Sample, ghost held: seq<seq<Sample>>,
                ghost after: seq<seq<Sample>>)
    requires |windows| == |held| == |after| && Separate(windows)
    requires sample.index < |table| && table[sample.index] == sample.value
    requires forall j :: 0 <= j < |windows| ==> Holds(windows[j], table, held[j])
    requires forall j :: 0 <= j < |windows| ==> after[j] == held[j] + [sample]
    modifies FootprintOf(windows)
    ensures forall j :: 0 <= j < |windows| ==> Holds(windows[j], table, after[j])
  {
    for j := 0 to |windows|
      invariant forall k :: 0 <= k < j ==> Holds(windows[k], table, after[k])
      invariant forall k :: j <= k < |windows| ==> Holds(windows[k], table, held[k])
    {
      windows[j].Add(sample.date, sample.value, sample.index);
    }
  }

  /** The row's percentile from every window whose threshold the history reaches. */
  method ReadAll(windows: seq<RollingCounts>, table: seq<real>, value: real, index: nat, thresholds: seq<int>,
                 first: int, ghost held: seq<seq<Sample>>)
    returns (cells: seq<Option<real>>)
    requires |windows| == |thresholds| == |held|
    requires index < |table| && table[index] == value
    requires forall j :: 0 <= j < |windows| ==>
      Holds(windows[j], table, held[j]) && Divisible(Values(held[j]), value)
    ensures |cells| == |windows|
    ensures forall j :: 0 <= j < |cells| ==>
      cells[j] == if first <= thresholds[j] then PercentileFromValues(Values(held[j]), value) else None
  {
    cells := [];
    for j := 0 to |windows|
      invariant |cells| == j
      invariant forall k :: 0 <= k < j ==>
        cells[k] == if first <= thresholds[k] then PercentileFromValues(Values(held[k]), value) else None
    {
      var cell := None;
      if first <= thresholds[j] {
        cell := windows[j].Percentile(value, index);
      }
      cells := cells + [cell];
    }
  }

  method WriteAll(columns: seq<array<Option<real>>>, ghost rows: seq<Row>, ghost years: seq<int>, i: nat,
                  cells: seq<Option<real>>)
    requires Ascending(rows) && |cells| == |columns| == |years| && i < |rows|
    requires forall j :: 0 <= j < |years| ==> years[j] >= 1
    requires forall j :: 0 <= j < |columns| ==> columns[j].Length == |rows|
    requires forall j, k :: 0 <= j < k < |columns| ==> columns[j] != columns[k]
    requires forall j :: 0 <= j < |years| ==> cells[j] == FixedWindowCell(rows, years[j], i)
    requires Filled(columns, rows, years, i)
    modifies columns
    ensures Filled(columns, rows, years, i + 1)
  {
    WriteCells(columns, |rows|, i, cells);
  }

  method WriteCells(columns: seq<array<Option<real>>>, ghost length: nat, i: nat, cells: seq<Option<real>>)
    requires |cells| == |columns| && i < length
    requires forall j :: 0 <= j < |columns| ==> columns[j].Length == length
    requires forall j, k :: 0 <= j < k < |columns| ==> columns[j] != columns[k]
    modifies columns
    ensures forall j, k :: 0 <= j < |columns| && 0 <= k < length ==>
      columns[j][k] == if k == i then cells[j] else old(columns[j][k])
  {
    for j := 0 to |columns|
      invariant forall m, k :: 0 <= m < |columns| && 0 <= k < length ==>
        columns[m][k] == if k == i && m < j then cells[m] else old(columns[m][k])
    {
      columns[j][i] := cells[j];
    }
  }

  /** Fills `columns[j][i]` with the percentile of row i over the window of years[j].
      Cells that stay unwritten keep the NaN (here `None`) the columns start with. */
  method ComputeFieldPercentiles(rows: seq<Row>, years: seq<int>, columns: seq<array<Option<real>>>)
    requires Ascending(rows) && |columns| == |years|
    requires forall j :: 0 <= j < |years| ==> years[j] >= 1
    requires forall j :: 0 <= j < |columns| ==> columns[j].Length == |rows|
    requires forall j, k :: 0 <= j < k < |columns| ==> columns[j] != columns[k]
    requires forall j, i :: 0 <= j < |columns| && 0 <= i < |rows| ==> columns[j][i] == None
    modifies columns
    ensures Filled(columns, rows, years, |rows|)
    ensures forall j, i :: 0 <= j < |columns| && 0 <= i < |rows| ==> MeansWindow(rows, years[j], i, columns[j][i])
  {
    FillField(rows, years, columns);
    forall j, i | 0 <= j < |columns| && 0 <= i < |rows| ensures MeansWindow(rows, years[j], i, columns[j][i]) {
      WindowCellMeans(rows, years[j], i);
    }
  }

  method FillField(rows: seq<Row>, years: seq<int>, columns: seq<array<Option<real>>>)
    requires Ascending(rows) && |columns| == |years|
    requires forall j :: 0 <= j < |years| ==> years[j] >= 1
    requires forall j :: 0 <= j < |columns| ==> columns[j].Length == |rows|
    requires forall j, k :: 0 <= j < k < |columns| ==> columns[j] != columns[k]
    requires forall j, i :: 0 <= j < |columns| && 0 <= i < |rows| ==> columns[j][i] == None
    modifies columns
    ensures Filled(columns, rows, years, |rows|)
  {
    var table := SortedUnique(rows);
    FirstValidKeyDefined(rows);
    SortedUniqueIs(rows);
    if table == [] { return; }
    assert table[0] in table;
    ValuesAreValid(rows, table[0]);
    var index := IndexValues(table);
    var first := FirstValidKey(rows).value;
    var windows := MakeWindows(table, |years|);
    forall j | 0 <= j < |years| ensures HeldBefore(rows, index, years, 0)[j] == [] {
      assert HeldBefore(rows, index, years, 0)[j] == WindowSamples(rows, index, 0, 0);
    }
    RunRows(windows, rows, table, index, years, first, columns, FootprintOf(windows));
  }

  method RunRows(windows: seq<RollingCounts>, rows: seq<Row>, table: seq<real>, index: map<real, nat>,
                 years: seq<int>, first: int, columns: seq<array<Option<real>>>, ghost footprint: set<object>)
    requires Ascending(rows) && AllIndexed(rows, index) && Positions(rows, table, index)
    requires forall j :: 0 <= j < |years| ==> years[j] >= 1
    requires FirstValidKey(rows) == Some(first)
    requires |windows| == |years| == |columns| && Separate(windows)
    requires AllHold(windows, footprint, table, HeldBefore(rows, index, years, 0))
    requires forall j :: 0 <= j < |columns| ==> columns[j].Length == |rows|
    requires forall j, k :: 0 <= j < k < |columns| ==> columns[j] != columns[k]
    requires forall j :: 0 <= j < |columns| ==> columns[j] as object !in footprint
    requires Filled(columns, rows, years, 0)
    modifies footprint, columns
    ensures Filled(columns, rows, years, |rows|)
  {
    for i := 0 to |rows|
      invariant AllHold(windows, footprint, table, HeldBefore(rows, index, years, i))
      invariant Filled(columns, rows, years, i)
    {
      OneRow(windows, rows, table, index, years, first, columns, i, footprint);
    }
  }

  /** One turn of the row loop: move the windows, then write the row's cells if it has any. */
  method OneRow(windows: seq<RollingCounts>, rows: seq<Row>, table: seq<real>, index: map<real, nat>,
                years: seq<int>, first: int, columns: seq<array<Option<real>>>, i: nat, ghost footprint: set<object>)
    requires Ascending(rows) && i < |rows| && AllIndexed(rows, index) && Positions(rows, table, index)
    requires forall j :: 0 <= j < |years| ==> years[j] >= 1
    requires FirstValidKey(rows) == Some(first)
    requires |windows| == |years| == |columns| && Separate(windows)
    requires AllHold(windows, footprint, table, HeldBefore(rows, index, years, i))
    requires forall j :: 0 <= j < |columns| ==> columns[j].Length == |rows|
    requires forall j, k :: 0 <= j < k < |columns| ==> columns[j] != columns[k]
    requires forall j :: 0 <= j < |columns| ==> columns[j] as object !in footprint
    requires Filled(columns, rows, years, i)
    modifies footprint, columns
    ensures AllHold(windows, footprint, table, HeldBefore(rows, index, years, i + 1))
    ensures Filled(columns, rows, years, i + 1)
  {
    var cells := AdvanceRow(windows, rows, table, index, years, first, i, footprint);
    assert Filled(columns, rows, years, i);
    if IsValid(rows[i].value) {
      WriteAll(columns, rows, years, i, cells);
    } else {
      EmptyCells(columns, rows, years, i);
    }
  }

  lemma {:induction false} EmptyCells(columns: seq<array<Option<real>>>, rows: seq<Row>, years: seq<int>, i: nat)
    requires Ascending(rows) && |columns| == |years| && i < |rows| && !IsValid(rows[i].value)
    requires forall j :: 0 <= j < |years| ==> years[j] >= 1
    requires forall j :: 0 <= j < |columns| ==> columns[j].Length == |rows|
    requires Filled(columns, rows, years, i)
    ensures Filled(columns, rows, years, i + 1)
  {
  }

  /** The window half of one turn of the row loop: evict everywhere, then add and read everywhere
      if the row is valid. */
  method AdvanceRow(windows: seq<RollingCounts>, rows: seq<Row>, table: seq<real>, index: map<real, nat>,
                    years: seq<int>, first: int, i: nat, ghost footprint: set<object>)
    returns (cells: seq<Option<real>>)
    requires Ascending(rows) && i < |rows| && AllIndexed(rows, index) && Positions(rows, table, index)
    requires forall j :: 0 <= j < |years| ==> years[j] >= 1
    requires FirstValidKey(rows) == Some(first)
    requires |windows| == |years| && Separate(windows)
    requires AllHold(windows, footprint, table, HeldAt(rows, index, years, i - 1, i))
    modifies footprint
    ensures AllHold(windows, footprint, table, HeldAt(rows, index, years, i, i + 1))
    ensures IsValid(rows[i].value) ==> |cells| == |years|
    ensures IsValid(rows[i].value) ==> forall j :: 0 <= j < |years| ==> cells[j] == FixedWindowCell(rows, years[j], i)
  {
    var thresholds := Thresholds(rows[i].date, years);
    RowEvicts(rows, index, years, i);
    RowAdds(rows, index, years, i);
    EvictAll(windows, table, thresholds, HeldAt(rows, index, years, i - 1, i));
    cells := [];
    if IsValid(rows[i].value) {
      var value := rows[i].value.value;
      AddAll(windows, table, Sample(rows[i].date.Key(), value, index[value]), HeldAt(rows, index, years, i, i),
             HeldAt(rows, index, years, i, i + 1));
      forall j | 0 <= j < |years| { CellFromWindow(rows, index, years[j], i, first); }
      cells := ReadAll(windows, table, value, index[value], thresholds, first,
                       HeldAt(rows, index, years, i, i + 1));
    }
  }

  method MakeWindows(table: seq<real>, count: nat) returns (windows: seq<RollingCounts>)
    requires Sorted(table)
    ensures |windows| == count && Separate(windows) && fresh(FootprintOf(windows))
    ensures forall j :: 0 <= j < count ==>
      Holds(windows[j], table, [])
  {
    windows := [];
    for j := 0 to count
      invariant |windows| == j && Separate(windows)
      invariant forall k :: 0 <= k < j ==> Holds(windows[k], table, []) && fresh(windows[k].footprint)
    {
      var w := new RollingCounts(table);
      windows := windows + [w];
    }
  }
}
