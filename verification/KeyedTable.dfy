/** A metadata table written by delete-then-insert, and the de-duplication done before a write. */
module KeyedTable {
  datatype Row<K, V> = Row(key: K, value: V)

  /** What a reader that looks up one key sees; later rows win. */
  ghost function Contents<K, V>(rows: seq<Row<K, V>>): map<K, V> {
    if rows == [] then map[]
    else Contents(rows[..|rows| - 1])[rows[|rows| - 1].key := rows[|rows| - 1].value]
  }

  ghost predicate UniqueKeys<K, V>(rows: seq<Row<K, V>>) {
    forall i, j :: 0 <= i < j < |rows| ==> rows[i].key != rows[j].key
  }

  predicate HasKey<K(==), V>(rows: seq<Row<K, V>>, key: K) {
    exists i :: 0 <= i < |rows| && rows[i].key == key
  }

  /** DELETE ... WHERE EXISTS an incoming row with the same key. */
  function DeleteMatching<K(==), V>(table: seq<Row<K, V>>, incoming: seq<Row<K, V>>): seq<Row<K, V>> {
    if table == [] then []
    else if HasKey(incoming, table[|table| - 1].key) then DeleteMatching(table[..|table| - 1], incoming)
    else DeleteMatching(table[..|table| - 1], incoming) + [table[|table| - 1]]
  }

  /** Delete the matching rows, then insert every incoming one. */
  function Upsert<K(==), V>(table: seq<Row<K, V>>, incoming: seq<Row<K, V>>): seq<Row<K, V>> {
    DeleteMatching(table, incoming) + incoming
  }

  /** One upsert per row, in order. */
  ghost function UpsertEach<K, V>(table: seq<Row<K, V>>, rows: seq<Row<K, V>>): seq<Row<K, V>> {
    if rows == [] then table
    else Upsert(UpsertEach(table, rows[..|rows| - 1]), [rows[|rows| - 1]])
  }

  /** Writing into an insertion-ordered dictionary: a known key keeps its place. */
  function PutRow<K(==), V>(rows: seq<Row<K, V>>, row: Row<K, V>): seq<Row<K, V>> {
    if rows == [] then [row]
    else if rows[0].key == row.key then [row] + rows[1..]
    else [rows[0]] + PutRow(rows[1..], row)
  }

  /** `_dedupe_rows`: the last row of each key, at the place of its first. */
  function Dedupe<K(==), V>(rows: seq<Row<K, V>>): seq<Row<K, V>> {
    if rows == [] then [] else PutRow(Dedupe(rows[..|rows| - 1]), rows[|rows| - 1])
  }

  /** The loop form: one dictionary write per row. */
  method DedupeRows<K(==), V>(rows: seq<Row<K, V>>) returns (kept: seq<Row<K, V>>)
    ensures kept == Dedupe(rows)
  {
    if |rows| < 2 {
      if |rows| == 1 { assert Dedupe(rows[..0]) == []; assert rows == [rows[0]]; }
      return rows;
    }
    kept := [];
    for i := 0 to |rows|
      invariant kept == Dedupe(rows[..i])
    {
      assert rows[..i + 1][..i] == rows[..i];
      kept := PutRow(kept, rows[i]);
    }
    assert rows[..|rows|] == rows;
  }

  lemma {:induction false} ContentsKeys<K, V>(rows: seq<Row<K, V>>)
    ensures forall k :: k in Contents(rows) <==> exists i :: 0 <= i < |rows| && rows[i].key == k
  {
    if rows != [] {
      var front := rows[..|rows| - 1];
      ContentsKeys(front);
      assert forall i :: 0 <= i < |front| ==> front[i] == rows[i];
    }
  }

  lemma {:induction false} ContentsConcat<K, V>(a: seq<Row<K, V>>, b: seq<Row<K, V>>)
    ensures Contents(a + b) == Contents(a) + Contents(b)
  {
    if b == [] {
      assert a + b == a;
    } else {
      assert (a + b)[..|a + b| - 1] == a + b[..|b| - 1];
      ContentsConcat(a, b[..|b| - 1]);
    }
  }

  lemma {:induction false} ContentsAt<K, V>(rows: seq<Row<K, V>>, i: nat)
    requires UniqueKeys(rows) && i < |rows|
    ensures rows[i].key in Contents(rows) && Contents(rows)[rows[i].key] == rows[i].value
  {
    if i < |rows| - 1 { ContentsAt(rows[..|rows| - 1], i); }
  }

  lemma {:induction false} MapAssociative<K, V>(a: map<K, V>, b: map<K, V>, c: map<K, V>)
    ensures a + b + c == a + (b + c)
  {
  }

  lemma {:induction false} MapUnit<K, V>(a: map<K, V>)
    ensures a + map[] == a
  {
  }

  /** What stays has a key of the table and none of the incoming ones. */
  lemma {:induction false} DeleteMatchingKeys<K, V>(table: seq<Row<K, V>>, incoming: seq<Row<K, V>>)
    ensures forall r :: r in DeleteMatching(table, incoming) ==> r in table && !HasKey(incoming, r.key)
  {
    if table != [] { DeleteMatchingKeys(table[..|table| - 1], incoming); }
  }

  lemma {:induction false} DeleteMatchingUnique<K, V>(table: seq<Row<K, V>>, incoming: seq<Row<K, V>>)
    requires UniqueKeys(table)
    ensures UniqueKeys(DeleteMatching(table, incoming))
  {
    if table != [] {
      var front, last := table[..|table| - 1], table[|table| - 1];
      DeleteMatchingUnique(front, incoming);
      DeleteMatchingKeys(front, incoming);
      var rest := DeleteMatching(front, incoming);
      forall i | 0 <= i < |rest| ensures rest[i].key != last.key {
        assert rest[i] in front;
        var j :| 0 <= j < |front| && front[j] == rest[i];
        assert table[j].key != table[|table| - 1].key;
      }
    }
  }

  lemma {:induction false} DeleteMatchingContents<K, V>(table: seq<Row<K, V>>, incoming: seq<Row<K, V>>)
    ensures Contents(DeleteMatching(table, incoming)) == Contents(table) - Contents(incoming).Keys
  {
    if table != [] {
      var front, last := table[..|table| - 1], table[|table| - 1];
      DeleteMatchingContents(front, incoming);
      InContentsIff(incoming, last.key);
      var rest := DeleteMatching(front, incoming);
      assert (rest + [last])[..|rest|] == rest;
    }
  }

  lemma {:induction false} InContentsIff<K, V>(rows: seq<Row<K, V>>, k: K)
    ensures k in Contents(rows) <==> HasKey(rows, k)
  {
    ContentsKeys(rows);
  }

  /** A delete-then-insert of rows with distinct keys overrides exactly those keys. */
  lemma {:induction false} UpsertOverrides<K, V>(table: seq<Row<K, V>>, incoming: seq<Row<K, V>>)
    requires UniqueKeys(table) && UniqueKeys(incoming)
    ensures UniqueKeys(Upsert(table, incoming))
    ensures Contents(Upsert(table, incoming)) == Contents(table) + Contents(incoming)
  {
    var rest := DeleteMatching(table, incoming);
    DeleteMatchingContents(table, incoming);
    DeleteMatchingUnique(table, incoming);
    DeleteMatchingKeys(table, incoming);
    forall i, j | 0 <= i < |rest| && 0 <= j < |incoming| ensures rest[i].key != incoming[j].key {
      assert rest[i] in rest;
    }
    ContentsConcat(rest, incoming);
  }

  lemma {:induction false} UpsertEachContents<K, V>(table: seq<Row<K, V>>, rows: seq<Row<K, V>>)
    requires UniqueKeys(table)
    ensures UniqueKeys(UpsertEach(table, rows))
    ensures Contents(UpsertEach(table, rows)) == Contents(table) + Contents(rows)
  {
    if rows != [] {
      var front, last := rows[..|rows| - 1], [rows[|rows| - 1]];
      UpsertEachContents(table, front);
      UpsertOverrides(UpsertEach(table, front), last);
      ContentsConcat(front, last);
      assert front + last == rows;
      MapAssociative(Contents(table), Contents(front), Contents(last));
    }
  }

  lemma {:induction false} HasKeyCons<K, V>(row: Row<K, V>, rows: seq<Row<K, V>>, k: K)
    ensures HasKey([row] + rows, k) <==> k == row.key || HasKey(rows, k)
  {
    var all := [row] + rows;
    if HasKey(all, k) {
      var i :| 0 <= i < |all| && all[i].key == k;
      if i > 0 { assert rows[i - 1].key == k; }
    }
    if HasKey(rows, k) {
      var i :| 0 <= i < |rows| && rows[i].key == k;
      assert all[i + 1].key == k;
    }
    assert all[0].key == row.key;
  }

  lemma {:induction false} PutRowKeys<K, V>(rows: seq<Row<K, V>>, row: Row<K, V>, k: K)
    ensures HasKey(PutRow(rows, row), k) <==> HasKey(rows, k) || k == row.key
  {
    if rows == [] {
      HasKeyCons(row, [], k);
      assert [row] == [row] + [];
    } else {
      assert rows == [rows[0]] + rows[1..];
      HasKeyCons(rows[0], rows[1..], k);
      HasKeyCons(row, rows[1..], k);
      HasKeyCons(rows[0], PutRow(rows[1..], row), k);
      PutRowKeys(rows[1..], row, k);
    }
  }

  lemma {:induction false} UniqueCons<K, V>(row: Row<K, V>, rows: seq<Row<K, V>>)
    ensures UniqueKeys([row] + rows) <==> UniqueKeys(rows) && !HasKey(rows, row.key)
  {
    var all := [row] + rows;
    assert forall i :: 0 <= i < |rows| ==> all[i + 1] == rows[i];
    if UniqueKeys(all) {
      forall i | 0 <= i < |rows| ensures rows[i].key != row.key {
        assert all[0].key != all[i + 1].key;
      }
      forall i, j | 0 <= i < j < |rows| ensures rows[i].key != rows[j].key {
        assert all[i + 1].key != all[j + 1].key;
      }
    }
    if UniqueKeys(rows) && !HasKey(rows, row.key) {
      forall i, j | 0 <= i < j < |all| ensures all[i].key != all[j].key {
        assert all[j] == rows[j - 1];
        if i > 0 { assert all[i] == rows[i - 1]; }
      }
    }
  }

  lemma {:induction false} ContentsCons<K, V>(row: Row<K, V>, rows: seq<Row<K, V>>)
    ensures Contents([row] + rows) == map[row.key := row.value] + Contents(rows)
    ensures !HasKey(rows, row.key) ==> row.key !in Contents(rows)
  {
    ContentsConcat([row], rows);
    ContentsKeys(rows);
    assert Contents([row]) == map[row.key := row.value] by { assert [row][..0] == []; }
  }

  lemma {:induction false} PutRowUnique<K, V>(rows: seq<Row<K, V>>, row: Row<K, V>)
    requires UniqueKeys(rows)
    ensures UniqueKeys(PutRow(rows, row))
  {
    if rows != [] {
      var tail := rows[1..];
      assert rows == [rows[0]] + tail;
      UniqueCons(rows[0], tail);
      if rows[0].key == row.key {
        UniqueCons(row, tail);
      } else {
        PutRowUnique(tail, row);
        PutRowKeys(tail, row, rows[0].key);
        UniqueCons(rows[0], PutRow(tail, row));
      }
    }
  }

  lemma {:induction false} PutRowContents<K, V>(rows: seq<Row<K, V>>, row: Row<K, V>)
    requires UniqueKeys(rows)
    ensures Contents(PutRow(rows, row)) == Contents(rows)[row.key := row.value]
  {
    if rows == [] {
      ContentsCons(row, []);
      assert [row] == [row] + [];
    } else {
      var tail := rows[1..];
      assert rows == [rows[0]] + tail;
      UniqueCons(rows[0], tail);
      ContentsCons(rows[0], tail);
      if rows[0].key == row.key {
        ContentsCons(row, tail);
        assert PutRow(rows, row) == [row] + tail;
      } else {
        assert PutRow(rows, row) == [rows[0]] + PutRow(tail, row);
        PutRowContents(tail, row);
        ContentsCons(rows[0], PutRow(tail, row));
      }
    }
  }

  lemma {:induction false} DedupeContents<K, V>(rows: seq<Row<K, V>>)
    ensures UniqueKeys(Dedupe(rows))
    ensures Contents(Dedupe(rows)) == Contents(rows)
  {
    if rows != [] {
      DedupeContents(rows[..|rows| - 1]);
      PutRowUnique(Dedupe(rows[..|rows| - 1]), rows[|rows| - 1]);
      PutRowContents(Dedupe(rows[..|rows| - 1]), rows[|rows| - 1]);
    }
  }

  /** The first row of its key. */
  ghost predicate IsFirst<K, V>(rows: seq<Row<K, V>>, i: nat) {
    i < |rows| && forall j :: 0 <= j < i ==> rows[j].key != rows[i].key
  }

  /** The places are those of the first row of each key, in ascending order, and kept has their keys. */
  ghost predicate AtFirsts<K, V>(rows: seq<Row<K, V>>, kept: seq<Row<K, V>>, places: seq<nat>) {
    && |places| == |kept|
    && (forall i, j :: 0 <= i < j < |places| ==> places[i] < places[j])
    && (forall i :: 0 <= i < |places| ==> IsFirst(rows, places[i]) && rows[places[i]].key == kept[i].key)
  }

  lemma {:induction false} PutRowOrder<K, V>(rows: seq<Row<K, V>>, row: Row<K, V>)
    ensures var after := PutRow(rows, row);
      && |after| == |rows| + (if HasKey(rows, row.key) then 0 else 1)
      && (forall i :: 0 <= i < |rows| ==> after[i].key == rows[i].key)
      && (!HasKey(rows, row.key) ==> after[|rows|] == row)
  {
    if rows != [] {
      assert rows == [rows[0]] + rows[1..];
      HasKeyCons(rows[0], rows[1..], row.key);
      PutRowOrder(rows[1..], row);
    }
  }

  /** De-duplicating keeps each key at the place of its first row. */
  lemma {:induction false} DedupeOrder<K, V>(rows: seq<Row<K, V>>) returns (places: seq<nat>)
    ensures AtFirsts(rows, Dedupe(rows), places)
  {
    if rows == [] {
      places := [];
    } else {
      var front, last := rows[..|rows| - 1], rows[|rows| - 1];
      places := DedupeOrder(front);
      SameKeysAs(front, last.key);
      places := PutOrder(rows, front, last, Dedupe(front), places);
    }
  }

  lemma {:induction false} PutOrder<K, V>(rows: seq<Row<K, V>>, front: seq<Row<K, V>>, last: Row<K, V>,
                                          kept: seq<Row<K, V>>, before: seq<nat>)
    returns (places: seq<nat>)
    requires rows == front + [last] && AtFirsts(front, kept, before)
    requires HasKey(kept, last.key) <==> HasKey(front, last.key)
    ensures AtFirsts(rows, PutRow(kept, last), places)
  {
    forall i | 0 <= i < |before| ensures IsFirst(rows, before[i]) { assert IsFirst(front, before[i]); }
    PutRowOrder(kept, last);
    places := before;
    if !HasKey(front, last.key) {
      assert IsFirst(rows, |front|);
      places := before + [|front|];
    }
  }

  lemma {:induction false} SameKeysAs<K, V>(rows: seq<Row<K, V>>, k: K)
    ensures HasKey(Dedupe(rows), k) <==> HasKey(rows, k)
  {
    DedupeContents(rows);
    InContentsIff(rows, k);
    InContentsIff(Dedupe(rows), k);
  }

  /** The same rows, in whatever order. */
  ghost predicate SameTable<K, V>(a: seq<Row<K, V>>, b: seq<Row<K, V>>) {
    |a| == |b| && UniqueKeys(a) && UniqueKeys(b) && (forall r :: r in a ==> r in b) && (forall r :: r in b ==> r in a)
  }

  /** Tables with distinct keys and the same contents hold the same rows. */
  lemma {:induction false} SameRows<K, V>(a: seq<Row<K, V>>, b: seq<Row<K, V>>)
    requires UniqueKeys(a) && UniqueKeys(b) && Contents(a) == Contents(b)
    ensures SameTable(a, b)
  {
    forall r | r in a || r in b ensures r in a && r in b {
      SameRow(a, b, r);
      SameRow(b, a, r);
    }
    KeyCount(a);
    KeyCount(b);
  }

  lemma {:induction false} SameRow<K, V>(a: seq<Row<K, V>>, b: seq<Row<K, V>>, r: Row<K, V>)
    requires UniqueKeys(a) && UniqueKeys(b) && Contents(a) == Contents(b)
    ensures r in a ==> r in b
  {
    if r in a {
      var i :| 0 <= i < |a| && a[i] == r;
      ContentsAt(a, i);
      ContentsKeys(b);
      var j :| 0 <= j < |b| && b[j].key == r.key;
      ContentsAt(b, j);
    }
  }

  lemma {:induction false} KeyCount<K, V>(rows: seq<Row<K, V>>)
    requires UniqueKeys(rows)
    ensures |Contents(rows)| == |rows|
  {
    if rows != [] {
      var front, last := rows[..|rows| - 1], rows[|rows| - 1];
      KeyCount(front);
      ContentsKeys(front);
      assert last.key !in Contents(front);
      assert Contents(rows).Keys == Contents(front).Keys + {last.key};
      assert |Contents(rows).Keys| == |Contents(front).Keys| + 1;
    }
  }

  // ---------------------------------------------------------------- conservation

  /** Stored rows overridden by rows in flight, then by pending ones, read like the initial rows
      overridden by everything added. */
  ghost predicate Conserves<K, V>(start: seq<Row<K, V>>, added: seq<Row<K, V>>,
                                  stored: seq<Row<K, V>>, inFlight: seq<Row<K, V>>, pending: seq<Row<K, V>>) {
    && UniqueKeys(stored) && UniqueKeys(inFlight)
    && Contents(stored) + Contents(inFlight) + Contents(pending) == Contents(start) + Contents(added)
  }

  lemma {:induction false} AddConserves<K, V>(start: seq<Row<K, V>>, added: seq<Row<K, V>>, stored: seq<Row<K, V>>,
                                              inFlight: seq<Row<K, V>>, pending: seq<Row<K, V>>, extra: seq<Row<K, V>>)
    requires Conserves(start, added, stored, inFlight, pending)
    ensures Conserves(start, added + extra, stored, inFlight, pending + extra)
  {
    ContentsConcat(pending, extra);
    ContentsConcat(added, extra);
    MapAssociative(Contents(stored) + Contents(inFlight), Contents(pending), Contents(extra));
    MapAssociative(Contents(start), Contents(added), Contents(extra));
  }

  lemma {:induction false} TakeConserves<K, V>(start: seq<Row<K, V>>, added: seq<Row<K, V>>, stored: seq<Row<K, V>>,
                                               pending: seq<Row<K, V>>)
    requires Conserves(start, added, stored, [], pending)
    ensures Conserves(start, added, stored, Dedupe(pending), [])
  {
    DedupeContents(pending);
  }

  lemma {:induction false} CommitConserves<K, V>(start: seq<Row<K, V>>, added: seq<Row<K, V>>, stored: seq<Row<K, V>>,
                                                 inFlight: seq<Row<K, V>>, pending: seq<Row<K, V>>)
    requires Conserves(start, added, stored, inFlight, pending)
    ensures Conserves(start, added, Upsert(stored, inFlight), [], pending)
  {
    UpsertOverrides(stored, inFlight);
    MapUnit(Contents(Upsert(stored, inFlight)));
  }

  lemma {:induction false} RollbackConserves<K, V>(start: seq<Row<K, V>>, added: seq<Row<K, V>>, stored: seq<Row<K, V>>,
                                                   inFlight: seq<Row<K, V>>, pending: seq<Row<K, V>>)
    requires Conserves(start, added, stored, inFlight, pending)
    ensures Conserves(start, added, stored, [], inFlight + pending)
  {
    ContentsConcat(inFlight, pending);
    MapAssociative(Contents(stored), Contents(inFlight), Contents(pending));
    MapUnit(Contents(stored));
  }

  /** With nothing left outside the store, it holds the rows that one upsert per added row leaves. */
  lemma {:induction false} SettledEqualsEach<K, V>(start: seq<Row<K, V>>, added: seq<Row<K, V>>, stored: seq<Row<K, V>>)
    requires UniqueKeys(start) && Conserves(start, added, stored, [], [])
    ensures SameTable(stored, UpsertEach(start, added))
  {
    UpsertEachContents(start, added);
    SameRows(stored, UpsertEach(start, added));
  }
}
