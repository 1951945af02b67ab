/** Keyed upserts of Parquet partitions: sort, keep the last row of each key, sort again. */
module Upsert {
  import opened Common
  import opened Sorting

  /** A row by column position; cells are any ordered values. */
  datatype Row = Row(cells: seq<int>)

  datatype Definition = Definition(sortColumns: seq<nat>, uniqueColumns: seq<nat>, partitionColumn: nat, width: nat)

  /** The columns are columns of the schema. */
  predicate Valid(d: Definition) {
    && d.uniqueColumns != []
    && (forall i :: 0 <= i < |d.sortColumns| ==> d.sortColumns[i] < d.width)
    && forall i :: 0 <= i < |d.uniqueColumns| ==> d.uniqueColumns[i] < d.width
  }

  predicate HasWidth(d: Definition, rows: seq<Row>) {
    forall i :: 0 <= i < |rows| ==> |rows[i].cells| == d.width
  }

  function Cell(r: Row, column: nat): int { if column < |r.cells| then r.cells[column] else 0 }

  function Cells(r: Row, columns: seq<nat>): (values: seq<int>)
    ensures |values| == |columns| && forall i :: 0 <= i < |columns| ==> values[i] == Cell(r, columns[i])
  {
    seq(|columns|, i requires 0 <= i < |columns| => Cell(r, columns[i]))
  }

  /** Comparison column by column. */
  predicate AtMost(a: Row, b: Row, columns: seq<nat>) {
    columns == []
    || Cell(a, columns[0]) < Cell(b, columns[0])
    || (Cell(a, columns[0]) == Cell(b, columns[0]) && AtMost(a, b, columns[1..]))
  }

  function Order(d: Definition): (Row, Row) -> bool { (a, b) => AtMost(a, b, d.sortColumns) }

  function Key(d: Definition): Row -> seq<int> { r => Cells(r, d.uniqueColumns) }

  /** The stable sort. */
  function SortFrame(d: Definition, rows: seq<Row>): seq<Row> { Sort(rows, Order(d)) }

  /** What `sort_values` may make of a frame: by several columns, or none, it is stable; by a single
      column it leaves rows that tie in no particular order. */
  ghost predicate Sorts(d: Definition, rows: seq<Row>, sorted: seq<Row>) {
    if |d.sortColumns| == 1 then Arranged(rows, sorted, Order(d)) else sorted == SortFrame(d, rows)
  }

  method SortValues(d: Definition, rows: seq<Row>) returns (sorted: seq<Row>)
    ensures Sorts(d, rows, sorted)
  {
    sorted := SortFrame(d, rows);
    OrderTotal(d);
    SortOrdered(rows, Order(d));
  }

  function Deduplicate(d: Definition, rows: seq<Row>): seq<Row> {
    if d.uniqueColumns == [] then rows else KeepLast(rows, Key(d))
  }

  /** Sort old and new rows together, keep the last of each key, sort again. */
  ghost predicate MayCombine(d: Definition, existing: seq<Row>, cleaned: seq<Row>, out: seq<Row>) {
    exists combined :: Sorts(d, existing + cleaned, combined) && Sorts(d, Deduplicate(d, combined), out)
  }

  /** The rows that an upsert may leave in a partition: one for each outcome of its three sorts. */
  ghost predicate MayLeave(d: Definition, existing: seq<Row>, incoming: seq<Row>, out: seq<Row>) {
    exists cleaned :: Sorts(d, incoming, cleaned) && MayCombine(d, existing, cleaned, out)
  }

  predicate HasKey(d: Definition, rows: seq<Row>, k: seq<int>) {
    exists j :: 0 <= j < |rows| && Key(d)(rows[j]) == k
  }

  /** `_incoming_keys_exist`. */
  predicate KeysExist(d: Definition, existing: seq<Row>, incoming: seq<Row>) {
    && existing != [] && incoming != [] && d.uniqueColumns != []
    && forall i :: 0 <= i < |incoming| ==> HasKey(d, existing, Key(d)(incoming[i]))
  }

  /** Every sort column is a unique column. */
  predicate Contained(d: Definition) {
    forall i :: 0 <= i < |d.sortColumns| ==> d.sortColumns[i] in d.uniqueColumns
  }

  /** Rows of one key that tie under a single sort column are the same row: key and sort column are all
      the columns there are. Several sort columns are sorted stably. */
  predicate Decided(d: Definition) {
    |d.sortColumns| == 1 ==>
      forall c :: 0 <= c < d.width ==> c in d.uniqueColumns || c in d.sortColumns
  }

  /** The row stored under a key, if rows have distinct keys. */
  function At(d: Definition, rows: seq<Row>, k: seq<int>): Option<Row> { LastOf(rows, Key(d), k) }

  /** Map override: an incoming row replaces the stored row of its key; of several, the last counts. */
  function Overridden(d: Definition, existing: seq<Row>, incoming: seq<Row>, k: seq<int>): Option<Row> {
    if At(d, incoming, k).Some? then At(d, incoming, k) else At(d, existing, k)
  }

  // ---------------------------------------------------------------- the order

  lemma {:induction false} AtMostTotal(a: Row, b: Row, c: Row, columns: seq<nat>)
    ensures AtMost(a, b, columns) || AtMost(b, a, columns)
    ensures AtMost(a, b, columns) && AtMost(b, c, columns) ==> AtMost(a, c, columns)
  {
    if columns != [] { AtMostTotal(a, b, c, columns[1..]); }
  }

  lemma {:induction false} OrderTotal(d: Definition)
    ensures TotalPreorder(Order(d))
  {
    forall a, b ensures Order(d)(a, b) || Order(d)(b, a) { AtMostTotal(a, b, b, d.sortColumns); }
    forall a, b, c ensures Order(d)(a, b) && Order(d)(b, c) ==> Order(d)(a, c) { AtMostTotal(a, b, c, d.sortColumns); }
  }

  lemma {:induction false} EqualCellsTie(a: Row, b: Row, columns: seq<nat>)
    requires forall i :: 0 <= i < |columns| ==> Cell(a, columns[i]) == Cell(b, columns[i])
    ensures AtMost(a, b, columns)
  {
    if columns != [] { EqualCellsTie(a, b, columns[1..]); }
  }

  /** With the sort columns among the unique ones, rows of one key tie. */
  lemma {:induction false} SameKeyTies(d: Definition, a: Row, b: Row)
    requires Contained(d) && Key(d)(a) == Key(d)(b)
    ensures Order(d)(a, b)
  {
    forall i | 0 <= i < |d.sortColumns| ensures Cell(a, d.sortColumns[i]) == Cell(b, d.sortColumns[i]) {
      var j :| 0 <= j < |d.uniqueColumns| && d.uniqueColumns[j] == d.sortColumns[i];
      assert Cells(a, d.uniqueColumns)[j] == Cells(b, d.uniqueColumns)[j];
    }
    EqualCellsTie(a, b, d.sortColumns);
  }

  // ---------------------------------------------------------------- what is stored under a key

  /** The row that wins a key in a frame: the last of those the sort puts last. */
  function Winner(d: Definition, rows: seq<Row>, k: seq<int>): Option<Row> { Greatest(rows, Order(d), Key(d), k) }

  lemma {:induction false} WinnerConcat(d: Definition, a: seq<Row>, b: seq<Row>, k: seq<int>)
    ensures var wa, wb := Winner(d, a, k), Winner(d, b, k);
      Winner(d, a + b, k)
      == if wb.None? then wa else if wa.None? then wb else if Order(d)(wa.value, wb.value) then wb else wa
  {
    OrderTotal(d);
    if a == [] {
      assert a + b == b;
    } else {
      assert (a + b)[1..] == a[1..] + b;
      WinnerConcat(d, a[1..], b, k);
    }
  }

  /** Sorting a frame changes the winner of no key. */
  lemma {:induction false} WinnerSorted(d: Definition, rows: seq<Row>, k: seq<int>)
    ensures Winner(d, SortFrame(d, rows), k) == Winner(d, rows, k)
  {
    OrderTotal(d);
    SortOrdered(rows, Order(d));
    SortKeepsOrdered(SortFrame(d, rows), Order(d));
    SortLast(rows, Order(d), Key(d), k);
    SortLast(SortFrame(d, rows), Order(d), Key(d), k);
  }

  lemma {:induction false} SortsArranges(d: Definition, rows: seq<Row>, sorted: seq<Row>)
    requires Sorts(d, rows, sorted)
    ensures Arranged(rows, sorted, Order(d))
  {
    OrderTotal(d);
    SortOrdered(rows, Order(d));
  }

  /** The stable sort is always possible. */
  lemma {:induction false} StableSorts(d: Definition, rows: seq<Row>)
    ensures Sorts(d, rows, SortFrame(d, rows))
  {
    OrderTotal(d);
    SortOrdered(rows, Order(d));
  }

  lemma {:induction false} OutcomeOf(d: Definition, existing: seq<Row>, incoming: seq<Row>, cleaned: seq<Row>,
                                     combined: seq<Row>, out: seq<Row>)
    requires Sorts(d, incoming, cleaned) && Sorts(d, existing + cleaned, combined)
    requires Sorts(d, Deduplicate(d, combined), out)
    ensures MayLeave(d, existing, incoming, out)
  {
    assert MayCombine(d, existing, cleaned, out);
  }

  lemma {:induction false} StableIsPossible(d: Definition, existing: seq<Row>, incoming: seq<Row>)
    returns (out: seq<Row>)
    ensures MayLeave(d, existing, incoming, out)
  {
    var cleaned := SortFrame(d, incoming);
    var combined := SortFrame(d, existing + cleaned);
    var kept := Deduplicate(d, combined);
    out := SortFrame(d, kept);
    StableSorts(d, incoming);
    StableSorts(d, existing + cleaned);
    StableSorts(d, kept);
    OutcomeOf(d, existing, incoming, cleaned, combined, out);
  }

  /** The row is one of the key's in the frame, and none of them sorts strictly after it. */
  predicate Tops(d: Definition, rows: seq<Row>, k: seq<int>, r: Row) {
    r in rows && Key(d)(r) == k && forall x :: x in rows && Key(d)(x) == k ==> Order(d)(x, r)
  }

  lemma {:induction false} LastTops(d: Definition, rows: seq<Row>, sorted: seq<Row>, k: seq<int>)
    requires multiset(sorted) == multiset(rows) && Ordered(sorted, Order(d))
    ensures LastOf(sorted, Key(d), k).Some? <==> exists r :: r in rows && Key(d)(r) == k
    ensures LastOf(sorted, Key(d), k).Some? ==> Tops(d, rows, k, LastOf(sorted, Key(d), k).value)
  {
    OrderTotal(d);
    LastOfIs(sorted, Key(d), k);
    LastOfOrdered(sorted, Order(d), Key(d), k);
    ArrangedMembers(rows, sorted);
  }

  /** Whatever the columns and however ties fall: an upsert stores one row per key of old and new rows
      together, in sort order, and none of its key sorts strictly after it; unless the sort is by a
      single column, it is the last of those. */
  lemma {:induction false} UpsertStoresWinners(d: Definition, existing: seq<Row>, incoming: seq<Row>, out: seq<Row>,
                                               k: seq<int>)
    requires d.uniqueColumns != [] && MayLeave(d, existing, incoming, out)
    ensures Ordered(out, Order(d)) && DistinctKeys(out, Key(d))
    ensures At(d, out, k).Some? <==> exists r :: r in existing + incoming && Key(d)(r) == k
    ensures At(d, out, k).Some? ==> Tops(d, existing + incoming, k, At(d, out, k).value)
    ensures |d.sortColumns| != 1 ==> At(d, out, k) == Winner(d, existing + incoming, k)
  {
    var cleaned :| Sorts(d, incoming, cleaned) && MayCombine(d, existing, cleaned, out);
    var combined :| Sorts(d, existing + cleaned, combined) && Sorts(d, Deduplicate(d, combined), out);
    var kept := KeepLast(combined, Key(d));
    SortsArranges(d, incoming, cleaned);
    SortsArranges(d, existing + cleaned, combined);
    SortsArranges(d, kept, out);
    KeepLastIs(combined, Key(d));
    ArrangedDistinct(kept, out, Key(d));
    ArrangedLookup(kept, out, Key(d), k);
    assert multiset(combined) == multiset(existing + incoming);
    LastTops(d, existing + incoming, combined, k);
    if |d.sortColumns| != 1 {
      OrderTotal(d);
      SortLast(existing + cleaned, Order(d), Key(d), k);
      WinnerConcat(d, existing, cleaned, k);
      WinnerConcat(d, existing, incoming, k);
      WinnerSorted(d, incoming, k);
    }
  }

  // ---------------------------------------------------------------- map override

  lemma {:induction false} TiesWinLast(d: Definition, rows: seq<Row>, k: seq<int>)
    requires Contained(d)
    ensures Winner(d, rows, k) == LastOf(rows, Key(d), k)
  {
    if rows != [] {
      TiesWinLast(d, rows[1..], k);
      LastOfIs(rows[1..], Key(d), k);
      if Key(d)(rows[0]) == k && Winner(d, rows[1..], k).Some? {
        SameKeyTies(d, rows[0], Winner(d, rows[1..], k).value);
      }
    }
  }

  /** Under a single sort column two rows of one key that tie are the same row. */
  lemma {:induction false} DecidedTies(d: Definition, a: Row, b: Row)
    requires Decided(d) && |d.sortColumns| == 1 && Key(d)(a) == Key(d)(b)
    requires |a.cells| == |b.cells| == d.width
    requires Order(d)(a, b) && Order(d)(b, a)
    ensures a == b
  {
    assert d.sortColumns == [d.sortColumns[0]];
    assert d.sortColumns[1..] == [];
    forall c | 0 <= c < d.width ensures a.cells[c] == b.cells[c] {
      if c in d.uniqueColumns {
        var j :| 0 <= j < |d.uniqueColumns| && d.uniqueColumns[j] == c;
        assert Cells(a, d.uniqueColumns)[j] == Cells(b, d.uniqueColumns)[j];
        assert Cell(a, c) == Cell(b, c);
      } else {
        assert c == d.sortColumns[0];
        assert Cell(a, c) == Cell(b, c);
      }
    }
    assert a.cells == b.cells;
  }

  /** With the sort columns among the unique ones, and ties decided, an upsert is map override. */
  lemma {:induction false} UpsertIsOverride(d: Definition, existing: seq<Row>, incoming: seq<Row>, out: seq<Row>,
                                            k: seq<int>)
    requires d.uniqueColumns != [] && Contained(d) && Decided(d)
    requires HasWidth(d, existing + incoming) && MayLeave(d, existing, incoming, out)
    ensures At(d, out, k) == Overridden(d, existing, incoming, k)
  {
    var all := existing + incoming;
    UpsertStoresWinners(d, existing, incoming, out, k);
    LastOfConcat(existing, incoming, Key(d), k);
    LastOfIs(all, Key(d), k);
    if |d.sortColumns| != 1 {
      TiesWinLast(d, all, k);
    } else if At(d, out, k).Some? {
      var a, b := At(d, out, k).value, LastOf(all, Key(d), k).value;
      SameKeyTies(d, a, b);
      SameKeyTies(d, b, a);
      DecidedTies(d, a, b);
    }
  }

  lemma {:induction false} SingleRow(d: Definition, r: Row)
    ensures Winner(d, [r], Key(d)(r)) == Some(r) && At(d, [r], Key(d)(r)) == Some(r)
    ensures KeepLast([r], Key(d)) == [r]
  {
    assert [r][1..] == [];
    assert Winner(d, [r][1..], Key(d)(r)) == None && At(d, [r][1..], Key(d)(r)) == None;
  }

  /** The stored row can outlive the incoming one. */
  ghost predicate StaleSurvives(d: Definition, stored: Row, incoming: Row) {
    exists out :: MayLeave(d, [stored], [incoming], out) && At(d, out, Key(d)(incoming)) == Some(stored)
  }

  lemma {:induction false} OneOutcome(d: Definition, existing: seq<Row>, fetched: Row, combined: seq<Row>,
                                      out: seq<Row>)
    requires |d.sortColumns| == 1 && d.uniqueColumns != []
    requires Arranged(existing + [fetched], combined, Order(d))
    requires KeepLast(combined, Key(d)) == out && Ordered(out, Order(d))
    ensures MayLeave(d, existing, [fetched], out)
  {
    OutcomeOf(d, existing, [fetched], [fetched], combined, out);
  }

  lemma {:induction false} LastOfTwo(d: Definition, a: Row, b: Row)
    requires Key(d)(a) == Key(d)(b)
    ensures KeepLast([a, b], Key(d)) == [b]
  {
    SingleRow(d, b);
    assert [a, b][1..] == [b];
  }

  /** Two rows of one key under a single sort column: the one that can come last can survive. */
  lemma {:induction false} StoredSurvives(d: Definition, stored: Row, incoming: Row)
    requires |d.sortColumns| == 1 && d.uniqueColumns != [] && Key(d)(stored) == Key(d)(incoming)
    requires Order(d)(incoming, stored)
    ensures MayLeave(d, [stored], [incoming], [stored])
  {
    LastOfTwo(d, incoming, stored);
    OneOutcome(d, [stored], incoming, [incoming, stored], [stored]);
  }

  lemma {:induction false} IncomingSurvives(d: Definition, stored: Row, incoming: Row)
    requires |d.sortColumns| == 1 && d.uniqueColumns != [] && Key(d)(stored) == Key(d)(incoming)
    requires Order(d)(stored, incoming)
    ensures MayLeave(d, [stored], [incoming], [incoming])
  {
    var both := [stored] + [incoming];
    assert both == [stored, incoming] && Ordered(both, Order(d));
    LastOfTwo(d, stored, incoming);
    OneOutcome(d, [stored], incoming, both, [incoming]);
  }

  /** Which row of a key survives: the stored one can exactly when it is the incoming one, sorts strictly
      after it, or ties with it under a single sort column. */
  lemma {:induction false} StaleWinsIff(d: Definition, stored: Row, incoming: Row)
    requires d.uniqueColumns != [] && Key(d)(stored) == Key(d)(incoming)
    ensures StaleSurvives(d, stored, incoming) <==>
      || stored == incoming
      || !Order(d)(stored, incoming)
      || (|d.sortColumns| == 1 && Order(d)(incoming, stored))
  {
    var k := Key(d)(incoming);
    OrderTotal(d);
    SingleRow(d, stored);
    SingleRow(d, incoming);
    WinnerConcat(d, [stored], [incoming], k);
    if |d.sortColumns| == 1 {
      if StaleSurvives(d, stored, incoming) {
        var out :| MayLeave(d, [stored], [incoming], out) && At(d, out, k) == Some(stored);
        UpsertStoresWinners(d, [stored], [incoming], out, k);
        assert incoming in [stored] + [incoming];
      }
      if Order(d)(incoming, stored) { StoredSurvives(d, stored, incoming); }
    } else {
      var stable := StableIsPossible(d, [stored], [incoming]);
      UpsertStoresWinners(d, [stored], [incoming], stable, k);
      if StaleSurvives(d, stored, incoming) {
        var out :| MayLeave(d, [stored], [incoming], out) && At(d, out, k) == Some(stored);
        UpsertStoresWinners(d, [stored], [incoming], out, k);
      }
    }
  }

  /** Row with a single cell different from zero. */
  function OneCell(d: Definition, column: nat, value: int): Row {
    Row(seq(d.width, i => if i == column then value else 0))
  }

  lemma {:induction false} OneCellGreater(d: Definition, column: nat, columns: seq<nat>)
    requires column in columns && column < d.width
    ensures !AtMost(OneCell(d, column, 1), OneCell(d, column, 0), columns)
  {
    if columns[0] != column {
      assert columns == [columns[0]] + columns[1..];
      OneCellGreater(d, column, columns[1..]);
    }
  }

  /** Rows that differ in one column only have the same cells in others. */
  lemma {:induction false} OneCellSameKey(d: Definition, column: nat)
    requires column !in d.uniqueColumns
    ensures Key(d)(OneCell(d, column, 1)) == Key(d)(OneCell(d, column, 0))
  {
    var a, b := OneCell(d, column, 1), OneCell(d, column, 0);
    forall i | 0 <= i < |d.uniqueColumns| ensures Cell(a, d.uniqueColumns[i]) == Cell(b, d.uniqueColumns[i]) {
      assert d.uniqueColumns[i] != column;
    }
    assert Cells(a, d.uniqueColumns) == Cells(b, d.uniqueColumns);
  }

  /** A column that decides nothing under a single sort column: rows that differ there tie. */
  lemma {:induction false} UndecidedColumn(d: Definition) returns (column: nat)
    requires Valid(d) && !Decided(d)
    ensures column < d.width
    ensures var a, b := OneCell(d, column, 1), OneCell(d, column, 0);
      && a != b && Key(d)(a) == Key(d)(b) && Order(d)(a, b) && Order(d)(b, a)
  {
    column :| 0 <= column < d.width && column !in d.uniqueColumns && column !in d.sortColumns;
    var a, b := OneCell(d, column, 1), OneCell(d, column, 0);
    assert a.cells[column] != b.cells[column];
    OneCellSameKey(d, column);
    EqualCellsTie(a, b, d.sortColumns);
    EqualCellsTie(b, a, d.sortColumns);
  }

  ghost predicate Overrides(d: Definition, existing: seq<Row>, incoming: seq<Row>, out: seq<Row>, k: seq<int>) {
    HasWidth(d, existing + incoming) && MayLeave(d, existing, incoming, out) ==>
      At(d, out, k) == Overridden(d, existing, incoming, k)
  }

  /** On every table, whatever the ties do. */
  ghost predicate AlwaysOverrides(d: Definition) {
    forall existing, incoming, out, k :: Overrides(d, existing, incoming, out, k)
  }

  lemma {:induction false} NotOverridden(d: Definition, existing: seq<Row>, incoming: seq<Row>, out: seq<Row>,
                                         k: seq<int>)
    requires HasWidth(d, existing + incoming) && MayLeave(d, existing, incoming, out)
    requires At(d, out, k) != Overridden(d, existing, incoming, k)
    ensures !AlwaysOverrides(d)
  {
    assert !Overrides(d, existing, incoming, out, k);
  }

  lemma {:induction false} StaleRowRefutes(d: Definition, stored: Row, incoming: Row, out: seq<Row>)
    requires |stored.cells| == |incoming.cells| == d.width && stored != incoming
    requires MayLeave(d, [stored], [incoming], out) && At(d, out, Key(d)(incoming)) == Some(stored)
    ensures !AlwaysOverrides(d)
  {
    var k := Key(d)(incoming);
    assert Overridden(d, [stored], [incoming], k) == Some(incoming) by { SingleRow(d, incoming); }
    NotOverridden(d, [stored], [incoming], out, k);
  }

  /** Upserts are map override on every table exactly for the definitions whose sort columns are unique
      columns, and which sort by several columns unless the key is the whole row: for any other one a
      stored row can outlive its replacement. */
  lemma {:induction false} OverrideIff(d: Definition)
    requires Valid(d)
    ensures AlwaysOverrides(d) <==> Contained(d) && Decided(d)
  {
    if Contained(d) && Decided(d) {
      forall existing, incoming, out, k ensures Overrides(d, existing, incoming, out, k) {
        if HasWidth(d, existing + incoming) && MayLeave(d, existing, incoming, out) {
          UpsertIsOverride(d, existing, incoming, out, k);
        }
      }
    } else {
      var column: nat;
      if !Contained(d) {
        var i :| 0 <= i < |d.sortColumns| && d.sortColumns[i] !in d.uniqueColumns;
        column := d.sortColumns[i];
        OneCellSameKey(d, column);
        OneCellGreater(d, column, d.sortColumns);
      } else {
        column := UndecidedColumn(d);
      }
      var stored, incoming := OneCell(d, column, 1), OneCell(d, column, 0);
      assert stored.cells[column] != incoming.cells[column];
      StaleWinsIff(d, stored, incoming);
      var out :| MayLeave(d, [stored], [incoming], out) && At(d, out, Key(d)(incoming)) == Some(stored);
      StaleRowRefutes(d, stored, incoming, out);
    }
  }

  ghost predicate SameAgain(d: Definition, existing: seq<Row>, incoming: seq<Row>, once: seq<Row>, twice: seq<Row>,
                            k: seq<int>) {
    HasWidth(d, existing + incoming) && MayLeave(d, existing, incoming, once) && MayLeave(d, once, incoming, twice)
    ==> At(d, twice, k) == At(d, once, k)
  }

  /** Writing the same rows again changes no stored row, whatever the ties do. */
  ghost predicate Idempotent(d: Definition) {
    forall existing, incoming, once, twice, k :: SameAgain(d, existing, incoming, once, twice, k)
  }

  lemma {:induction false} DecidedTwice(d: Definition, existing: seq<Row>, incoming: seq<Row>, once: seq<Row>,
                                        twice: seq<Row>, k: seq<int>)
    requires d.uniqueColumns != [] && Decided(d) && HasWidth(d, existing + incoming)
    requires MayLeave(d, existing, incoming, once) && MayLeave(d, once, incoming, twice)
    ensures At(d, twice, k) == At(d, once, k)
  {
    UpsertStoresWinners(d, existing, incoming, once, k);
    UpsertStoresWinners(d, once, incoming, twice, k);
    LastOfIs(once, Key(d), k);
    OnceMembers(d, existing, incoming, once, k);
    if |d.sortColumns| != 1 {
      OrderTotal(d);
      WinnerConcat(d, once, incoming, k);
      WinnerConcat(d, existing, incoming, k);
      WinnerOfDistinct(d, once, k);
    } else if At(d, twice, k).Some? {
      var a, b := At(d, once, k).value, At(d, twice, k).value;
      assert b in existing + incoming;
      DecidedTies(d, a, b);
    }
  }

  /** What is stored under a key comes from old and new rows. */
  lemma {:induction false} OnceMembers(d: Definition, existing: seq<Row>, incoming: seq<Row>, once: seq<Row>,
                                       k: seq<int>)
    requires d.uniqueColumns != [] && MayLeave(d, existing, incoming, once)
    ensures forall r :: r in once && Key(d)(r) == k ==> r in existing + incoming
    ensures At(d, once, k).None? ==> forall r :: r in incoming ==> Key(d)(r) != k
  {
    UpsertStoresWinners(d, existing, incoming, once, k);
    forall r | r in once && Key(d)(r) == k ensures r in existing + incoming { LastOfDistinct(once, Key(d), r); }
    LastOfIs(once, Key(d), k);
    forall r | r in incoming ensures r in existing + incoming {}
  }

  /** Under distinct keys the winner is the only row. */
  lemma {:induction false} WinnerOfDistinct(d: Definition, rows: seq<Row>, k: seq<int>)
    requires DistinctKeys(rows, Key(d))
    ensures Winner(d, rows, k) == LastOf(rows, Key(d), k)
  {
    OrderTotal(d);
    SortOrdered(rows, Order(d));
    SortLast(rows, Order(d), Key(d), k);
    ArrangedLookup(rows, SortFrame(d, rows), Key(d), k);
  }

  lemma {:induction false} ChangedAgain(d: Definition, existing: seq<Row>, incoming: seq<Row>, once: seq<Row>,
                                        twice: seq<Row>, k: seq<int>)
    requires HasWidth(d, existing + incoming)
    requires MayLeave(d, existing, incoming, once) && MayLeave(d, once, incoming, twice)
    requires At(d, twice, k) != At(d, once, k)
    ensures !Idempotent(d)
  {
    assert !SameAgain(d, existing, incoming, once, twice, k);
  }

  /** The stored row survives the first time and the incoming one the second. */
  lemma {:induction false} BothWays(d: Definition, stored: Row, incoming: Row)
    requires |d.sortColumns| == 1 && d.uniqueColumns != [] && HasWidth(d, [stored] + [incoming])
    requires Key(d)(stored) == Key(d)(incoming)
    requires Order(d)(stored, incoming) && Order(d)(incoming, stored)
    requires At(d, [stored], Key(d)(incoming)) != At(d, [incoming], Key(d)(incoming))
    ensures !Idempotent(d)
  {
    StoredSurvives(d, stored, incoming);
    IncomingSurvives(d, stored, incoming);
    ChangedAgain(d, [stored], [incoming], [stored], [incoming], Key(d)(incoming));
  }

  lemma {:induction false} TieRefutes(d: Definition, stored: Row, incoming: Row)
    requires |d.sortColumns| == 1 && d.uniqueColumns != [] && stored != incoming
    requires |stored.cells| == |incoming.cells| == d.width && Key(d)(stored) == Key(d)(incoming)
    requires Order(d)(stored, incoming) && Order(d)(incoming, stored)
    ensures !Idempotent(d)
  {
    SingleRow(d, stored);
    SingleRow(d, incoming);
    BothWays(d, stored, incoming);
  }

  /** That is so exactly where ties are decided: otherwise a stored row that outlived its replacement
      can lose to it when it comes again. */
  lemma {:induction false} UpsertTwiceIff(d: Definition)
    requires Valid(d)
    ensures Idempotent(d) <==> Decided(d)
  {
    if Decided(d) {
      forall existing, incoming, once, twice, k ensures SameAgain(d, existing, incoming, once, twice, k) {
        if HasWidth(d, existing + incoming) && MayLeave(d, existing, incoming, once)
           && MayLeave(d, once, incoming, twice)
        {
          DecidedTwice(d, existing, incoming, once, twice, k);
        }
      }
    } else {
      var column := UndecidedColumn(d);
      TieRefutes(d, OneCell(d, column, 1), OneCell(d, column, 0));
    }
  }

  /** Skipping a write whose keys all exist leaves the same keys in the partition as writing would. */
  lemma {:induction false} SkipKeepsKeys(d: Definition, existing: seq<Row>, incoming: seq<Row>, out: seq<Row>,
                                         k: seq<int>)
    requires KeysExist(d, existing, incoming) && MayLeave(d, existing, incoming, out)
    ensures At(d, existing, k).Some? <==> At(d, out, k).Some?
  {
    UpsertStoresWinners(d, existing, incoming, out, k);
    LastOfIs(existing, Key(d), k);
    if At(d, existing, k).Some? {
      assert At(d, existing, k).value in existing + incoming;
    }
    if At(d, out, k).Some? {
      var r :| r in existing + incoming && Key(d)(r) == k;
      if r !in existing {
        var i :| 0 <= i < |incoming| && incoming[i] == r;
        assert HasKey(d, existing, k);
        var j :| 0 <= j < |existing| && Key(d)(existing[j]) == k;
        assert existing[j] in existing;
      }
    }
  }

  // ---------------------------------------------------------------- the catalogue

  /** Columns by their place in the schema: date, code and adjustment of 17. */
  const AKSHARE_DAILY_BAR := Definition([1, 13, 0], [1, 0, 13], 1, 17)

  /** Report period, symbol and code of 12. */
  const AKSHARE_YYSJ_EM := Definition([0, 2, 3], [0, 2, 3], 0, 12)

  /** Calendar date, and whether it is a trading day; a single file. */
  const TRADING_CALENDAR := Definition([0], [0], 0, 2)

  /** Of the definitions that the program writes into existing rows, those with three sort columns are
      always map override; the trading calendar is not. */
  lemma {:induction false} MergedDefinitions()
    ensures AlwaysOverrides(AKSHARE_DAILY_BAR) && AlwaysOverrides(AKSHARE_YYSJ_EM)
    ensures !AlwaysOverrides(TRADING_CALENDAR) && !Idempotent(TRADING_CALENDAR)
  {
    OverrideIff(AKSHARE_DAILY_BAR);
    OverrideIff(AKSHARE_YYSJ_EM);
    OverrideIff(TRADING_CALENDAR);
    UpsertTwiceIff(TRADING_CALENDAR);
    assert 1 !in TRADING_CALENDAR.uniqueColumns && 1 !in TRADING_CALENDAR.sortColumns;
  }

  lemma {:induction false} KeepLastOfDistinct(d: Definition, rows: seq<Row>)
    requires DistinctKeys(rows, Key(d))
    ensures KeepLast(rows, Key(d)) == rows
  {
    if rows != [] {
      KeepLastOfDistinct(d, rows[1..]);
      LastOfIs(rows[1..], Key(d), Key(d)(rows[0]));
      assert rows == [rows[0]] + rows[1..];
    }
  }

  lemma {:induction false} KeepLastCons(d: Definition, first: Row, rest: seq<Row>)
    ensures KeepLast([first] + rest, Key(d))
         == if LastOf(rest, Key(d), Key(d)(first)).Some? then KeepLast(rest, Key(d))
            else [first] + KeepLast(rest, Key(d))
  {
    assert ([first] + rest)[1..] == rest;
  }

  /** A row in front of one with its key is dropped. */
  lemma {:induction false} KeepLastDrops(d: Definition, a: seq<Row>, x: Row, b: seq<Row>)
    requires DistinctKeys(a + b, Key(d)) && b != [] && Key(d)(x) == Key(d)(b[0])
    ensures KeepLast(a + [x] + b, Key(d)) == a + b
  {
    if a == [] {
      assert a + [x] + b == [x] + b && a + b == b;
      LastOfIs(b, Key(d), Key(d)(x));
      KeepLastCons(d, x, b);
      KeepLastOfDistinct(d, b);
    } else {
      var tail := a[1..];
      assert a + [x] + b == [a[0]] + (tail + [x] + b) && a + b == [a[0]] + (tail + b);
      ConsDistinct(Key(d), a[0], tail + b);
      NoneBehind(d, a[0], tail, x, b);
      KeepLastDrops(d, tail, x, b);
      KeepLastCons(d, a[0], tail + [x] + b);
    }
  }

  lemma {:induction false} NoneBehind(d: Definition, first: Row, a: seq<Row>, x: Row, b: seq<Row>)
    requires b != [] && Key(d)(x) == Key(d)(b[0])
    requires forall j :: 0 <= j < |a + b| ==> Key(d)((a + b)[j]) != Key(d)(first)
    ensures LastOf(a + [x] + b, Key(d), Key(d)(first)) == None
  {
    var all := a + [x] + b;
    LastOfIs(all, Key(d), Key(d)(first));
    assert (a + b)[|a|] == b[0];
    forall j | 0 <= j < |all| ensures Key(d)(all[j]) != Key(d)(first) {
      assert j == |a| || all[j] == (a + b)[if j < |a| then j else j - 1];
    }
  }

  /** Refetching a row that ties with the stored one of its key can leave a whole table as it was. */
  lemma {:induction false} StaleTableSurvives(d: Definition, existing: seq<Row>, i: nat, fetched: Row)
    requires |d.sortColumns| == 1 && Contained(d) && d.uniqueColumns != []
    requires Ordered(existing, Order(d)) && DistinctKeys(existing, Key(d))
    requires i < |existing| && Key(d)(fetched) == Key(d)(existing[i])
    ensures MayLeave(d, existing, [fetched], existing)
  {
    OrderTotal(d);
    SameKeyTies(d, fetched, existing[i]);
    SameKeyTies(d, existing[i], fetched);
    forall j | 0 <= j < i ensures Order(d)(existing[j], fetched) {
      assert Order(d)(existing[j], existing[i]);
    }
    forall j | i <= j < |existing| ensures Order(d)(fetched, existing[j]) {
      assert j == i || Order(d)(existing[i], existing[j]);
    }
    PutInside(existing, i, fetched, Order(d));
    var front, back := existing[..i], existing[i..];
    assert existing == front + back;
    KeepLastDrops(d, front, fetched, back);
    OneOutcome(d, existing, fetched, front + [fetched] + back, existing);
  }

  /** However long a stored calendar is and whichever of its days is fetched again: the merge can leave
      the calendar as it was. */
  lemma {:induction false} CalendarKeepsStaleDay(existing: seq<Row>, i: nat, fetched: Row)
    requires i < |existing| && Cell(fetched, 0) == Cell(existing[i], 0)
    requires forall a, b :: 0 <= a < b < |existing| ==> Cell(existing[a], 0) < Cell(existing[b], 0)
    ensures MayLeave(TRADING_CALENDAR, existing, [fetched], existing)
  {
    var d := TRADING_CALENDAR;
    assert Key(d)(fetched) == Key(d)(existing[i]);
    forall a, b | 0 <= a < b < |existing|
      ensures Order(d)(existing[a], existing[b]) && Key(d)(existing[a]) != Key(d)(existing[b])
    {
      assert Cells(existing[a], d.uniqueColumns)[0] != Cells(existing[b], d.uniqueColumns)[0];
    }
    StaleTableSurvives(d, existing, i, fetched);
  }

  // ---------------------------------------------------------------- partitions

  function PartitionOf(d: Definition, r: Row): int { Cell(r, d.partitionColumn) }

  /** The rows of one partition, in their order. */
  function Group(d: Definition, rows: seq<Row>, p: int): seq<Row> {
    if rows == [] then []
    else if PartitionOf(d, rows[0]) == p then [rows[0]] + Group(d, rows[1..], p)
    else Group(d, rows[1..], p)
  }

  lemma {:induction false} GroupMembers(d: Definition, rows: seq<Row>, p: int)
    ensures forall r :: r in Group(d, rows, p) <==> r in rows && PartitionOf(d, r) == p
    ensures |Group(d, rows, p)| <= |rows|
  {
    if rows != [] {
      GroupMembers(d, rows[1..], p);
      assert rows == [rows[0]] + rows[1..];
    }
  }

  lemma {:induction false} GroupOrdered(d: Definition, rows: seq<Row>, p: int)
    requires Ordered(rows, Order(d))
    ensures Ordered(Group(d, rows, p), Order(d))
  {
    if rows != [] {
      GroupOrdered(d, rows[1..], p);
      GroupMembers(d, rows[1..], p);
      var rest := Group(d, rows[1..], p);
      forall j | 0 <= j < |rest| ensures Order(d)(rows[0], rest[j]) {
        assert rest[j] in rows[1..];
        var m :| 0 <= m < |rows[1..]| && rows[1..][m] == rest[j];
        assert Order(d)(rows[0], rows[m + 1]);
      }
    }
  }

  lemma {:induction false} GroupOfInsert(d: Definition, x: Row, s: seq<Row>, p: int)
    requires TotalPreorder(Order(d)) && Ordered(s, Order(d))
    ensures Group(d, Insert(x, s, Order(d)), p)
         == if PartitionOf(d, x) == p then Insert(x, Group(d, s, p), Order(d)) else Group(d, s, p)
  {
    if s == [] {
      assert [x][1..] == [];
    } else if Order(d)(x, s[0]) {
      assert ([x] + s)[1..] == s;
      GroupMembers(d, s, p);
      var g := Group(d, s, p);
      if g != [] {
        assert g[0] in s;
        var j :| 0 <= j < |s| && s[j] == g[0];
        assert j == 0 || Order(d)(s[0], s[j]);
        assert Order(d)(x, g[0]);
      }
    } else {
      GroupOfInsert(d, x, s[1..], p);
      var rest := Insert(x, s[1..], Order(d));
      assert ([s[0]] + rest)[1..] == rest;
      if PartitionOf(d, s[0]) == p {
        assert Group(d, s, p)[1..] == Group(d, s[1..], p);
      } else if PartitionOf(d, x) == p {
        assert Group(d, s, p) == Group(d, s[1..], p);
      }
    }
  }

  /** Because the sort is stable, grouping a sorted frame is sorting the group. */
  lemma {:induction false} GroupOfSorted(d: Definition, rows: seq<Row>, p: int)
    ensures Group(d, SortFrame(d, rows), p) == SortFrame(d, Group(d, rows, p))
  {
    OrderTotal(d);
    if rows != [] {
      GroupOfSorted(d, rows[1..], p);
      SortOrdered(rows[1..], Order(d));
      GroupOfInsert(d, rows[0], SortFrame(d, rows[1..]), p);
      if PartitionOf(d, rows[0]) == p {
        assert Group(d, rows, p)[1..] == Group(d, rows[1..], p);
      }
    }
  }

  lemma {:induction false} GroupCounts(d: Definition, rows: seq<Row>, p: int, r: Row)
    ensures multiset(Group(d, rows, p))[r] == if PartitionOf(d, r) == p then multiset(rows)[r] else 0
  {
    if rows != [] {
      GroupCounts(d, rows[1..], p, r);
      assert rows == [rows[0]] + rows[1..];
    }
  }

  /** A group of a sorted frame is the sorted group. */
  lemma {:induction false} GroupOfSorts(d: Definition, rows: seq<Row>, cleaned: seq<Row>, p: int)
    requires Sorts(d, rows, cleaned)
    ensures Sorts(d, Group(d, rows, p), Group(d, cleaned, p))
    ensures multiset(Group(d, cleaned, p)) == multiset(Group(d, rows, p))
  {
    SortsArranges(d, rows, cleaned);
    forall r ensures multiset(Group(d, cleaned, p))[r] == multiset(Group(d, rows, p))[r] {
      GroupCounts(d, cleaned, p, r);
      GroupCounts(d, rows, p, r);
    }
    GroupOrdered(d, cleaned, p);
    if |d.sortColumns| != 1 { GroupOfSorted(d, rows, p); }
  }

  /** Sorting twice gives no more outcomes than sorting once. */
  lemma {:induction false} SortsAgain(d: Definition, rows: seq<Row>, once: seq<Row>, twice: seq<Row>)
    requires Sorts(d, rows, once)
    ensures Sorts(d, once, twice) <==> Sorts(d, rows, twice)
  {
    SortsArranges(d, rows, once);
    if |d.sortColumns| != 1 { SortKeepsOrdered(once, Order(d)); }
  }

  /** A partition can get from a grouped write exactly what it can get from a write of its own rows. */
  lemma {:induction false} GroupedEqualsPerPartition(d: Definition, existing: seq<Row>, rows: seq<Row>,
                                                     cleaned: seq<Row>, out: seq<Row>, p: int)
    requires Sorts(d, rows, cleaned)
    ensures MayLeave(d, existing, Group(d, cleaned, p), out) <==> MayLeave(d, existing, Group(d, rows, p), out)
  {
    var g, h := Group(d, rows, p), Group(d, cleaned, p);
    GroupOfSorts(d, rows, cleaned, p);
    forall sorted ensures Sorts(d, h, sorted) <==> Sorts(d, g, sorted) { SortsAgain(d, g, h, sorted); }
    if MayLeave(d, existing, h, out) {
      var c :| Sorts(d, h, c) && MayCombine(d, existing, c, out);
      assert Sorts(d, g, c);
    }
    if MayLeave(d, existing, g, out) {
      var c :| Sorts(d, g, c) && MayCombine(d, existing, c, out);
      assert Sorts(d, h, c);
    }
  }

  // ---------------------------------------------------------------- the dataset

  function RowsAt(files: map<int, seq<Row>>, p: int): seq<Row> { if p in files then files[p] else [] }

  /** A write of incoming rows may turn the rows of one partition into others. */
  ghost predicate MayWrite(d: Definition, existing: seq<Row>, incoming: seq<Row>, skipExisting: bool, out: seq<Row>) {
    if skipExisting && KeysExist(d, existing, incoming) then out == existing else MayLeave(d, existing, incoming, out)
  }

  class PartitionedDataset {
    const definition: Definition
    var files: map<int, seq<Row>>

    constructor (definition: Definition)
      ensures this.definition == definition && files == map[]
    {
      this.definition := definition;
      files := map[];
    }

    /** The frame that replaces the rows of a partition. */
    method Combine(existing: seq<Row>, cleaned: seq<Row>) returns (out: seq<Row>)
      ensures MayCombine(definition, existing, cleaned, out)
    {
      var combined := SortValues(definition, existing + cleaned);
      out := SortValues(definition, Deduplicate(definition, combined));
    }

    /** `write_dataset` in mode "merge": rows are combined only with a file that is there. */
    method WriteMerged(p: int, incoming: seq<Row>)
      modifies this
      ensures p in files && files == old(files)[p := files[p]]
      ensures if p in old(files) then MayLeave(definition, old(files)[p], incoming, files[p])
              else Sorts(definition, incoming, files[p])
    {
      var cleaned := SortValues(definition, incoming);
      var out := cleaned;
      if p in files { out := Combine(files[p], cleaned); }
      files := files[p := out];
    }

    /** `_write_dataset_upsert_partition`; nothing is written when the keys are all there. */
    method WritePartition(p: int, incoming: seq<Row>, skipExisting: bool) returns (updated: bool)
      modifies this
      ensures updated <==> !(skipExisting && KeysExist(definition, RowsAt(old(files), p), incoming))
      ensures !updated ==> files == old(files)
      ensures updated ==> p in files && files == old(files)[p := files[p]]
                          && MayLeave(definition, RowsAt(old(files), p), incoming, files[p])
    {
      var cleaned := SortValues(definition, incoming);
      var existing := RowsAt(files, p);
      SortsArranges(definition, incoming, cleaned);
      ArrangedKeysExist(definition, existing, incoming, cleaned);
      if skipExisting && KeysExist(definition, existing, cleaned) { return false; }
      var out := Combine(existing, cleaned);
      files := files[p := out];
      updated := true;
    }

    /** `_write_dataset_upsert` without a partition: every group of the sorted frame, one after the
        other; every other partition is left alone. */
    method WriteGrouped(rows: seq<Row>, skipExisting: bool)
      modifies this
      ensures GroupsWritten(definition, old(files), files, rows, skipExisting)
    {
      var cleaned := SortValues(definition, rows);
      ghost var before := files;
      var done: set<int> := {};
      for i := 0 to |cleaned|
        invariant PartitionsUpTo(definition, cleaned, i, done)
        invariant PartlyWritten(definition, before, files, rows, skipExisting, done)
      {
        var p := PartitionOf(definition, cleaned[i]);
        UpToStep(definition, cleaned, i, done);
        if p !in done {
          ghost var previous := files;
          var group := Group(definition, cleaned, p);
          var updated := WritePartition(p, group, skipExisting);
          GroupWritten(definition, RowsAt(previous, p), rows, cleaned, skipExisting, RowsAt(files, p), p);
          PartlyStep(definition, before, previous, files, rows, skipExisting, done, p);
        }
        done := done + {p};
      }
      AllGroups(definition, before, files, rows, cleaned, skipExisting, done);
    }
  }

  /** The partitions of the first n rows. */
  ghost predicate PartitionsUpTo(d: Definition, rows: seq<Row>, n: nat, done: set<int>)
    requires n <= |rows|
  {
    && (forall k :: 0 <= k < n ==> PartitionOf(d, rows[k]) in done)
    && forall p :: p in done ==> exists k :: 0 <= k < n && PartitionOf(d, rows[k]) == p
  }

  lemma {:induction false} UpToStep(d: Definition, rows: seq<Row>, n: nat, done: set<int>)
    requires n < |rows| && PartitionsUpTo(d, rows, n, done)
    ensures PartitionsUpTo(d, rows, n + 1, done + {PartitionOf(d, rows[n])})
    ensures PartitionOf(d, rows[n]) in done ==> done + {PartitionOf(d, rows[n])} == done
  {
  }

  ghost predicate PartlyWritten(d: Definition, before: map<int, seq<Row>>, files: map<int, seq<Row>>, rows: seq<Row>,
                                skipExisting: bool, done: set<int>) {
    && (forall p :: p in files <==> p in before || p in done)
    && (forall p :: p in done ==>
          MayWrite(d, RowsAt(before, p), Group(d, rows, p), skipExisting, RowsAt(files, p)))
    && (forall p :: p !in done ==> RowsAt(files, p) == RowsAt(before, p))
  }

  /** Each partition with incoming rows holds what a write of just those rows may leave; the others are
      untouched. */
  ghost predicate GroupsWritten(d: Definition, before: map<int, seq<Row>>, files: map<int, seq<Row>>, rows: seq<Row>,
                                skipExisting: bool) {
    forall p ::
      && (p in files <==> p in before || Group(d, rows, p) != [])
      && (if Group(d, rows, p) == [] then RowsAt(files, p) == RowsAt(before, p)
          else MayWrite(d, RowsAt(before, p), Group(d, rows, p), skipExisting, RowsAt(files, p)))
  }

  lemma {:induction false} GroupWritten(d: Definition, existing: seq<Row>, rows: seq<Row>, cleaned: seq<Row>,
                                        skipExisting: bool, out: seq<Row>, p: int)
    requires Sorts(d, rows, cleaned) && MayWrite(d, existing, Group(d, cleaned, p), skipExisting, out)
    ensures MayWrite(d, existing, Group(d, rows, p), skipExisting, out)
  {
    GroupedEqualsPerPartition(d, existing, rows, cleaned, out, p);
    GroupOfSorts(d, rows, cleaned, p);
    ArrangedKeysExist(d, existing, Group(d, rows, p), Group(d, cleaned, p));
  }

  lemma {:induction false} PartlyStep(d: Definition, before: map<int, seq<Row>>, files: map<int, seq<Row>>,
                                      files': map<int, seq<Row>>, rows: seq<Row>, skipExisting: bool, done: set<int>,
                                      p: int)
    requires PartlyWritten(d, before, files, rows, skipExisting, done) && p !in done
    requires p in files' && files' == files[p := files'[p]]
    requires MayWrite(d, RowsAt(files, p), Group(d, rows, p), skipExisting, RowsAt(files', p))
    ensures PartlyWritten(d, before, files', rows, skipExisting, done + {p})
  {
    assert forall q :: q != p ==> RowsAt(files', q) == RowsAt(files, q);
  }

  lemma {:induction false} AllGroups(d: Definition, before: map<int, seq<Row>>, files: map<int, seq<Row>>,
                                     rows: seq<Row>, cleaned: seq<Row>, skipExisting: bool, done: set<int>)
    requires Sorts(d, rows, cleaned)
    requires PartlyWritten(d, before, files, rows, skipExisting, done)
    requires PartitionsUpTo(d, cleaned, |cleaned|, done)
    ensures GroupsWritten(d, before, files, rows, skipExisting)
  {
    SortsArranges(d, rows, cleaned);
    ArrangedMembers(rows, cleaned);
    forall p ensures p in done <==> Group(d, rows, p) != [] { DoneIff(d, rows, cleaned, p); }
  }

  lemma {:induction false} DoneIff(d: Definition, rows: seq<Row>, cleaned: seq<Row>, p: int)
    requires forall r :: r in cleaned <==> r in rows
    ensures (exists k :: 0 <= k < |cleaned| && PartitionOf(d, cleaned[k]) == p) <==> Group(d, rows, p) != []
    ensures Group(d, rows, p) != [] <==> exists r :: r in rows && PartitionOf(d, r) == p
  {
    GroupMembers(d, rows, p);
    if Group(d, rows, p) != [] { assert Group(d, rows, p)[0] in Group(d, rows, p); }
  }

  lemma {:induction false} ArrangedKeysExist(d: Definition, existing: seq<Row>, a: seq<Row>, b: seq<Row>)
    requires multiset(b) == multiset(a)
    ensures KeysExist(d, existing, b) <==> KeysExist(d, existing, a)
  {
    ArrangedMembers(a, b);
    if KeysExist(d, existing, a) { KeysExistIn(d, existing, a, b); }
    if KeysExist(d, existing, b) { KeysExistIn(d, existing, b, a); }
  }

  lemma {:induction false} KeysExistIn(d: Definition, existing: seq<Row>, a: seq<Row>, b: seq<Row>)
    requires |a| == |b| && (forall r :: r in a <==> r in b) && KeysExist(d, existing, a)
    ensures KeysExist(d, existing, b)
  {
    forall i | 0 <= i < |b| ensures HasKey(d, existing, Key(d)(b[i])) {
      assert b[i] in a;
    }
  }
}
