/** What an upsert leaves in a partition, said of cells and columns only. */
module UpsertMeaning {
  import opened Common
  import opened Sorting
  import opened Upsert

  ghost predicate SameAt(a: Row, b: Row, column: nat) {
    column < |a.cells| && column < |b.cells| && a.cells[column] == b.cells[column]
  }

  ghost predicate LessAt(a: Row, b: Row, column: nat) {
    column < |a.cells| && column < |b.cells| && a.cells[column] < b.cells[column]
  }

  /** The rows agree in the first i columns. */
  ghost predicate SameUpTo(a: Row, b: Row, columns: seq<nat>, i: nat)
    requires i <= |columns|
  {
    forall j :: 0 <= j < i ==> SameAt(a, b, columns[j])
  }

  /** In the first column in which the rows differ, a has the smaller cell. */
  ghost predicate Precedes(a: Row, b: Row, columns: seq<nat>) {
    exists i :: 0 <= i < |columns| && LessAt(a, b, columns[i]) && SameUpTo(a, b, columns, i)
  }

  ghost predicate SameKey(d: Definition, a: Row, b: Row) { SameUpTo(a, b, d.uniqueColumns, |d.uniqueColumns|) }

  ghost predicate InOrder(d: Definition, rows: seq<Row>) {
    forall i, j :: 0 <= i < j < |rows| ==> !Precedes(rows[j], rows[i], d.sortColumns)
  }

  ghost predicate OnePerKey(d: Definition, rows: seq<Row>) {
    forall i, j :: 0 <= i < j < |rows| ==> !SameKey(d, rows[i], rows[j])
  }

  ghost predicate Covers(d: Definition, out: seq<Row>, x: Row) {
    exists r :: r in out && SameKey(d, x, r)
  }

  /** The row at position p, and no later row of its key sorts level with it or after it. */
  ghost predicate IsLastBest(d: Definition, all: seq<Row>, r: Row, p: nat) {
    && p < |all| && all[p] == r
    && forall q :: p < q < |all| && SameKey(d, all[q], r) ==> Precedes(all[q], r, d.sortColumns)
  }

  /** One of the rows, and no row of its key sorts after it; by several columns, or none, the last of
      those. */
  ghost predicate IsBest(d: Definition, all: seq<Row>, r: Row) {
    && r in all
    && (forall x :: x in all && SameKey(d, x, r) ==> !Precedes(r, x, d.sortColumns))
    && (|d.sortColumns| != 1 ==> exists p :: IsLastBest(d, all, r, p))
  }

  /** The rows in order, one of each key there was, and each the best of its key. */
  ghost predicate Leaves(d: Definition, existing: seq<Row>, incoming: seq<Row>, out: seq<Row>) {
    && InOrder(d, out) && OnePerKey(d, out)
    && (forall x :: x in existing || x in incoming ==> Covers(d, out, x))
    && forall r :: r in out ==> IsBest(d, existing + incoming, r)
  }

  // ---------------------------------------------------------------- order and keys

  lemma {:induction false} PrecedesStep(a: Row, b: Row, columns: seq<nat>)
    requires columns != []
    ensures Precedes(a, b, columns)
       <==> LessAt(a, b, columns[0]) || (SameAt(a, b, columns[0]) && Precedes(a, b, columns[1..]))
  {
    var rest := columns[1..];
    assert forall i :: 0 <= i < |rest| ==> rest[i] == columns[i + 1];
    if Precedes(a, b, columns) {
      var i :| 0 <= i < |columns| && LessAt(a, b, columns[i]) && SameUpTo(a, b, columns, i);
      if i > 0 { assert LessAt(a, b, rest[i - 1]) && SameUpTo(a, b, rest, i - 1); }
    }
    if LessAt(a, b, columns[0]) { assert SameUpTo(a, b, columns, 0); }
    if SameAt(a, b, columns[0]) && Precedes(a, b, rest) {
      var i :| 0 <= i < |rest| && LessAt(a, b, rest[i]) && SameUpTo(a, b, rest, i);
      forall j | 0 <= j < i + 1 ensures SameAt(a, b, columns[j]) {
        if j > 0 { assert SameAt(a, b, rest[j - 1]); }
      }
      assert LessAt(a, b, columns[i + 1]) && SameUpTo(a, b, columns, i + 1);
    }
  }

  /** The comparison of the sorts is the order of cells in the first column that differs. */
  lemma {:induction false} AtMostMeans(a: Row, b: Row, columns: seq<nat>)
    requires forall i :: 0 <= i < |columns| ==> columns[i] < |a.cells| && columns[i] < |b.cells|
    ensures AtMost(a, b, columns) <==> !Precedes(b, a, columns)
  {
    if columns != [] {
      PrecedesStep(b, a, columns);
      AtMostMeans(a, b, columns[1..]);
    }
  }

  lemma {:induction false} KeyMeans(d: Definition, a: Row, b: Row)
    requires Upsert.Valid(d) && |a.cells| == |b.cells| == d.width
    ensures Key(d)(a) == Key(d)(b) <==> SameKey(d, a, b)
  {
    var ka, kb := Cells(a, d.uniqueColumns), Cells(b, d.uniqueColumns);
    forall i | 0 <= i < |d.uniqueColumns| ensures ka[i] == kb[i] <==> SameAt(a, b, d.uniqueColumns[i]) {
    }
    if SameKey(d, a, b) { assert ka == kb; }
  }

  /** Rows of the schema's width. */
  ghost predicate Wide(d: Definition, rows: seq<Row>) {
    forall r :: r in rows ==> |r.cells| == d.width
  }

  lemma {:induction false} WideIs(d: Definition, rows: seq<Row>)
    ensures Wide(d, rows) <==> HasWidth(d, rows)
  {
    if HasWidth(d, rows) {
      forall r | r in rows ensures |r.cells| == d.width {
        var i :| 0 <= i < |rows| && rows[i] == r;
      }
    }
  }

  lemma {:induction false} GreatestIsLast(d: Definition, all: seq<Row>, k: seq<int>) returns (p: nat)
    requires Winner(d, all, k).Some?
    ensures p < |all| && all[p] == Winner(d, all, k).value && Key(d)(all[p]) == k
    ensures forall q :: p < q < |all| && Key(d)(all[q]) == k ==> !Order(d)(all[p], all[q])
  {
    var rest := Winner(d, all[1..], k);
    if Key(d)(all[0]) == k && (rest.None? || !Order(d)(all[0], rest.value)) {
      p := 0;
      forall q | 0 < q < |all| && Key(d)(all[q]) == k ensures !Order(d)(all[0], all[q]) {
        BelowWinner(d, all[1..], k, q - 1);
        AtMostTotal(all[0], all[q], rest.value, d.sortColumns);
      }
    } else {
      var q := GreatestIsLast(d, all[1..], k);
      p := q + 1;
      forall j | p < j < |all| && Key(d)(all[j]) == k ensures !Order(d)(all[p], all[j]) {
        assert all[1..][j - 1] == all[j];
      }
    }
  }

  lemma {:induction false} BelowWinner(d: Definition, all: seq<Row>, k: seq<int>, q: nat)
    requires q < |all| && Key(d)(all[q]) == k
    ensures Winner(d, all, k).Some? && Order(d)(all[q], Winner(d, all, k).value)
  {
    var rest := Winner(d, all[1..], k);
    AtMostTotal(all[q], all[q], all[q], d.sortColumns);
    if q > 0 {
      BelowWinner(d, all[1..], k, q - 1);
      AtMostTotal(all[0], rest.value, all[0], d.sortColumns);
      AtMostTotal(all[q], rest.value, all[0], d.sortColumns);
    } else if rest.Some? {
      AtMostTotal(all[0], rest.value, all[0], d.sortColumns);
    }
  }

  // ---------------------------------------------------------------- one partition

  lemma {:induction false} BestOf(d: Definition, existing: seq<Row>, incoming: seq<Row>, out: seq<Row>, r: Row)
    requires Upsert.Valid(d) && Wide(d, existing + incoming)
    requires MayLeave(d, existing, incoming, out) && r in out
    ensures IsBest(d, existing + incoming, r)
  {
    var all, k := existing + incoming, Key(d)(r);
    UpsertStoresWinners(d, existing, incoming, out, k);
    LastOfDistinct(out, Key(d), r);
    forall x | x in all && SameKey(d, x, r) ensures !Precedes(r, x, d.sortColumns) {
      KeyMeans(d, x, r);
      AtMostMeans(x, r, d.sortColumns);
    }
    if |d.sortColumns| != 1 {
      var p := GreatestIsLast(d, all, k);
      forall q | p < q < |all| && SameKey(d, all[q], r) ensures Precedes(all[q], r, d.sortColumns) {
        KeyMeans(d, all[q], r);
        AtMostMeans(r, all[q], d.sortColumns);
      }
      assert IsLastBest(d, all, r, p);
    }
  }

  lemma {:induction false} OutWide(d: Definition, existing: seq<Row>, incoming: seq<Row>, out: seq<Row>)
    requires Upsert.Valid(d) && Wide(d, existing + incoming) && MayLeave(d, existing, incoming, out)
    ensures Wide(d, out)
  {
    forall r | r in out ensures |r.cells| == d.width { BestOf(d, existing, incoming, out, r); }
  }

  /** What an upsert of rows into a partition leaves there. */
  lemma {:induction false} UpsertMeans(d: Definition, existing: seq<Row>, incoming: seq<Row>, out: seq<Row>)
    requires Upsert.Valid(d) && Wide(d, existing + incoming) && MayLeave(d, existing, incoming, out)
    ensures Leaves(d, existing, incoming, out)
  {
    UpsertStoresWinners(d, existing, incoming, out, []);
    OutWide(d, existing, incoming, out);
    forall i, j | 0 <= i < j < |out|
      ensures !Precedes(out[j], out[i], d.sortColumns) && !SameKey(d, out[i], out[j])
    {
      AtMostMeans(out[i], out[j], d.sortColumns);
      KeyMeans(d, out[i], out[j]);
    }
    forall x | x in existing || x in incoming ensures Covers(d, out, x) {
      assert x in existing + incoming;
      UpsertStoresWinners(d, existing, incoming, out, Key(d)(x));
      LastOfIs(out, Key(d), Key(d)(x));
      KeyMeans(d, x, At(d, out, Key(d)(x)).value);
    }
    forall r | r in out ensures IsBest(d, existing + incoming, r) { BestOf(d, existing, incoming, out, r); }
  }

  /** A frame that is only sorted keeps its rows. */
  lemma {:induction false} SortsMean(d: Definition, rows: seq<Row>, sorted: seq<Row>)
    requires Upsert.Valid(d) && Wide(d, rows) && Sorts(d, rows, sorted)
    ensures multiset(sorted) == multiset(rows) && InOrder(d, sorted)
  {
    SortsArranges(d, rows, sorted);
    ArrangedMembers(rows, sorted);
    forall i, j | 0 <= i < j < |sorted| ensures !Precedes(sorted[j], sorted[i], d.sortColumns) {
      assert sorted[i] in rows && sorted[j] in rows;
      AtMostMeans(sorted[i], sorted[j], d.sortColumns);
    }
  }

  /** Where the sort columns are unique columns and ties are decided, an incoming row replaces the stored
      one of its key, and of several the last counts. */
  ghost predicate Replaces(d: Definition, existing: seq<Row>, incoming: seq<Row>, r: Row) {
    LastOfKey(d, incoming, r) || (LastOfKey(d, existing, r) && !Covers(d, incoming, r))
  }

  ghost predicate LastOfKey(d: Definition, rows: seq<Row>, r: Row) {
    exists p :: LastAt(d, rows, r, p)
  }

  ghost predicate LastAt(d: Definition, rows: seq<Row>, r: Row, p: nat) {
    p < |rows| && rows[p] == r && forall q :: p < q < |rows| ==> !SameKey(d, r, rows[q])
  }

  lemma {:induction false} LastOfMeans(d: Definition, rows: seq<Row>, r: Row)
    requires Upsert.Valid(d) && Wide(d, rows) && LastOf(rows, Key(d), Key(d)(r)) == Some(r)
    ensures LastOfKey(d, rows, r)
  {
    var k, rest := Key(d)(r), rows[1..];
    assert rows == [rows[0]] + rest;
    if LastOf(rest, Key(d), k).Some? {
      LastOfMeans(d, rest, r);
      var p: nat :| LastAt(d, rest, r, p);
      forall q | p + 1 < q < |rows| ensures !SameKey(d, r, rows[q]) { assert rest[q - 1] == rows[q]; }
      assert LastAt(d, rows, r, p + 1);
    } else {
      LastOfIs(rest, Key(d), k);
      forall q | 0 < q < |rows| ensures !SameKey(d, r, rows[q]) {
        assert rest[q - 1] == rows[q] && rows[q] in rest && rows[q] in rows && r in rows;
        KeyMeans(d, r, rows[q]);
      }
      assert LastAt(d, rows, r, 0);
    }
  }

  lemma {:induction false} OverrideMeans(d: Definition, existing: seq<Row>, incoming: seq<Row>, out: seq<Row>, r: Row)
    requires Upsert.Valid(d) && Contained(d) && Decided(d)
    requires Wide(d, existing + incoming) && MayLeave(d, existing, incoming, out) && r in out
    ensures Replaces(d, existing, incoming, r)
  {
    var k := Key(d)(r);
    WideIs(d, existing + incoming);
    OutWide(d, existing, incoming, out);
    UpsertStoresWinners(d, existing, incoming, out, k);
    LastOfDistinct(out, Key(d), r);
    UpsertIsOverride(d, existing, incoming, out, k);
    WideParts(d, existing, incoming);
    if At(d, incoming, k).Some? {
      LastOfMeans(d, incoming, r);
    } else {
      LastOfMeans(d, existing, r);
      LastOfIs(incoming, Key(d), k);
      forall x | x in incoming ensures !SameKey(d, r, x) { KeyMeans(d, r, x); }
    }
  }

  lemma {:induction false} WideParts(d: Definition, existing: seq<Row>, incoming: seq<Row>)
    requires Wide(d, existing + incoming)
    ensures Wide(d, existing) && Wide(d, incoming)
  {
    forall r | r in existing || r in incoming ensures |r.cells| == d.width { assert r in existing + incoming; }
  }

  // ---------------------------------------------------------------- the dataset

  ghost predicate LiesIn(d: Definition, r: Row, p: int) {
    d.partitionColumn < |r.cells| && r.cells[d.partitionColumn] == p
  }

  /** The places of the rows of one partition, in ascending order. */
  ghost predicate ArePlaces(d: Definition, rows: seq<Row>, p: int, part: seq<Row>, places: seq<nat>) {
    && |places| == |part|
    && (forall i :: 0 <= i < |places| ==> places[i] < |rows| && rows[places[i]] == part[i])
    && (forall i, j :: 0 <= i < j < |places| ==> places[i] < places[j])
    && forall k: nat :: k in places <==> k < |rows| && LiesIn(d, rows[k], p)
  }

  /** The part consists of the rows of the partition, in their order. */
  ghost predicate IsPart(d: Definition, rows: seq<Row>, p: int, part: seq<Row>) {
    exists places :: ArePlaces(d, rows, p, part, places)
  }

  ghost predicate AllStored(d: Definition, existing: seq<Row>, part: seq<Row>) {
    forall x :: x in part ==> Covers(d, existing, x)
  }

  /** After a grouped write: a partition without incoming rows, or where their keys are all stored and
      such are to be skipped, is as before; any other holds what an upsert of its rows leaves. */
  ghost predicate PartWritten(d: Definition, before: map<int, seq<Row>>, files: map<int, seq<Row>>, rows: seq<Row>,
                              skipExisting: bool, p: int, part: seq<Row>) {
    var existing := if p in before then before[p] else [];
    if part == [] || (skipExisting && AllStored(d, existing, part))
    then (p in files <==> p in before) && (p in before ==> files[p] == before[p])
    else p in files && Leaves(d, existing, part, files[p])
  }

  lemma {:induction false} GroupPlaces(d: Definition, rows: seq<Row>, p: int) returns (places: seq<nat>)
    requires Wide(d, rows) && d.partitionColumn < d.width
    ensures ArePlaces(d, rows, p, Group(d, rows, p), places)
  {
    if rows == [] {
      places := [];
    } else {
      assert rows == [rows[0]] + rows[1..] && rows[0] in rows;
      var later := GroupPlaces(d, rows[1..], p);
      var moved := seq(|later|, i requires 0 <= i < |later| => later[i] + 1);
      PlacesBehind(d, rows, p, Group(d, rows[1..], p), later, moved);
      places := if PartitionOf(d, rows[0]) == p then [0] + moved else moved;
    }
  }

  lemma {:induction false} PlacesBehind(d: Definition, rows: seq<Row>, p: int, part: seq<Row>, later: seq<nat>,
                                        moved: seq<nat>)
    requires rows != [] && ArePlaces(d, rows[1..], p, part, later)
    requires |moved| == |later| && forall i :: 0 <= i < |later| ==> moved[i] == later[i] + 1
    ensures if LiesIn(d, rows[0], p) then ArePlaces(d, rows, p, [rows[0]] + part, [0] + moved)
            else ArePlaces(d, rows, p, part, moved)
  {
    MovedPlaces(later, moved);
    forall k: nat ensures k in moved <==> 0 < k < |rows| && LiesIn(d, rows[k], p) {
      if k > 0 { assert k - 1 in later <==> k - 1 < |rows[1..]| && LiesIn(d, rows[1..][k - 1], p); }
    }
    forall i | 0 <= i < |moved| ensures 0 < moved[i] < |rows| && rows[moved[i]] == part[i] {
      assert rows[1..][later[i]] == part[i];
    }
    if LiesIn(d, rows[0], p) { PlaceInFront(d, rows, p, part, moved); }
  }

  lemma {:induction false} PlaceInFront(d: Definition, rows: seq<Row>, p: int, part: seq<Row>, places: seq<nat>)
    requires rows != [] && LiesIn(d, rows[0], p) && |places| == |part|
    requires forall i :: 0 <= i < |places| ==> 0 < places[i] < |rows| && rows[places[i]] == part[i]
    requires forall i, j :: 0 <= i < j < |places| ==> places[i] < places[j]
    requires forall k: nat :: k in places <==> 0 < k < |rows| && LiesIn(d, rows[k], p)
    ensures ArePlaces(d, rows, p, [rows[0]] + part, [0] + places)
  {
    var all, front := [0] + places, [rows[0]] + part;
    assert forall i :: 0 < i < |all| ==> all[i] == places[i - 1] && front[i] == part[i - 1];
  }

  lemma {:induction false} MovedPlaces(later: seq<nat>, moved: seq<nat>)
    requires |moved| == |later| && forall i :: 0 <= i < |later| ==> moved[i] == later[i] + 1
    ensures forall k: nat :: k in moved <==> k > 0 && k - 1 in later
  {
    forall k: nat ensures k in moved <==> k > 0 && k - 1 in later {
      if k in moved {
        var i :| 0 <= i < |moved| && moved[i] == k;
        assert later[i] == k - 1;
      }
      if k > 0 && k - 1 in later {
        var i :| 0 <= i < |later| && later[i] == k - 1;
        assert moved[i] == k;
      }
    }
  }

  lemma {:induction false} KeysExistMeans(d: Definition, existing: seq<Row>, part: seq<Row>)
    requires Upsert.Valid(d) && Wide(d, existing + part) && part != []
    ensures KeysExist(d, existing, part) <==> AllStored(d, existing, part)
  {
    WideParts(d, existing, part);
    forall x, r | x in part && r in existing ensures SameKey(d, x, r) <==> Key(d)(x) == Key(d)(r) {
      KeyMeans(d, x, r);
    }
    if KeysExist(d, existing, part) {
      forall x | x in part ensures Covers(d, existing, x) {
        var i :| 0 <= i < |part| && part[i] == x;
        assert HasKey(d, existing, Key(d)(x));
        var j :| 0 <= j < |existing| && Key(d)(existing[j]) == Key(d)(x);
        assert existing[j] in existing;
      }
    }
    if AllStored(d, existing, part) {
      assert Covers(d, existing, part[0]);
      forall i | 0 <= i < |part| ensures HasKey(d, existing, Key(d)(part[i])) {
        assert Covers(d, existing, part[i]);
      }
    }
  }

  /** What a grouped write does to each partition. */
  lemma {:induction false} GroupsMean(d: Definition, before: map<int, seq<Row>>, files: map<int, seq<Row>>,
                                      rows: seq<Row>, skipExisting: bool, p: int) returns (part: seq<Row>)
    requires Upsert.Valid(d) && d.partitionColumn < d.width
    requires Wide(d, rows) && (p in before ==> Wide(d, before[p]))
    requires GroupsWritten(d, before, files, rows, skipExisting)
    ensures IsPart(d, rows, p, part) && PartWritten(d, before, files, rows, skipExisting, p, part)
  {
    part := Group(d, rows, p);
    var places := GroupPlaces(d, rows, p);
    GroupMembers(d, rows, p);
    var existing := RowsAt(before, p);
    assert Wide(d, existing + part);
    if part != [] {
      KeysExistMeans(d, existing, part);
      if MayLeave(d, existing, part, RowsAt(files, p)) { UpsertMeans(d, existing, part, RowsAt(files, p)); }
    }
  }
}
