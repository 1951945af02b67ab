/** The in-memory checkpoint index and the table scans it stands in for. */
module Checkpoints {
  import opened Common
  import opened Sorting

  datatype Row = Row(pipeline: string, dataset: string, code: string, startDate: Option<string>,
                     endDate: Option<string>, updatedAt: Option<int>, status: string)

  /** A question about one checkpoint; no start date means whatever it started from. */
  datatype Query = Query(pipeline: string, dataset: string, code: string, startDate: Option<string>, endDate: string)

  const SUCCESS: string := "success"

  function PipelineKey(r: Row): Option<Query> {
    if r.startDate.Some? && r.endDate.Some?
    then Some(Query(r.pipeline, r.dataset, r.code, r.startDate, r.endDate.value)) else None
  }

  function DateKey(r: Row): Option<Query> {
    if r.endDate.Some? then Some(Query(r.pipeline, r.dataset, r.code, None, r.endDate.value)) else None
  }

  /** By update time, missing ones in front: the index. */
  predicate NullsFirst(a: Row, b: Row) {
    a.updatedAt.None? || (b.updatedAt.Some? && a.updatedAt.value <= b.updatedAt.value)
  }

  /** By update time, missing ones at the back: the scans. */
  predicate NullsLast(a: Row, b: Row) {
    b.updatedAt.None? || (a.updatedAt.Some? && a.updatedAt.value <= b.updatedAt.value)
  }

  lemma {:induction false} OrdersTotal()
    ensures TotalPreorder(NullsFirst) && TotalPreorder(NullsLast)
  {
  }

  // ---------------------------------------------------------------- the scans

  function Matching(rows: seq<Row>, key: Row -> Option<Query>, q: Query): seq<Row> {
    if rows == [] then []
    else if key(rows[0]) == Some(q) then [rows[0]] + Matching(rows[1..], key, q)
    else Matching(rows[1..], key, q)
  }

  lemma {:induction false} MatchingMembers(rows: seq<Row>, key: Row -> Option<Query>, q: Query)
    ensures forall r :: r in Matching(rows, key, q) <==> r in rows && key(r) == Some(q)
  {
    if rows != [] {
      MatchingMembers(rows[1..], key, q);
      assert rows == [rows[0]] + rows[1..];
    }
  }

  /** The last of the sorted matching rows. */
  function LastRow(sorted: seq<Row>): Option<Row> {
    if sorted == [] then None else Some(sorted[|sorted| - 1])
  }

  /** What a scan may look at. */
  ghost predicate MayScan(rows: seq<Row>, key: Row -> Option<Query>, q: Query, found: Option<Row>) {
    exists sorted :: Arranged(Matching(rows, key, q), sorted, NullsLast) && found == LastRow(sorted)
  }

  /** The store's scan: the output file has to exist and the last matching row to say success. */
  method ScanSucceeded(rows: seq<Row>, key: Row -> Option<Query>, q: Query, outputExists: bool) returns (ok: bool)
    ensures exists found :: MayScan(rows, key, q, found)
                            && (ok <==> outputExists && found.Some? && found.value.status == "success")
  {
    OrdersTotal();
    var sorted := SortSingle(Matching(rows, key, q), NullsLast);
    ok := outputExists && sorted != [] && sorted[|sorted| - 1].status == SUCCESS;
    assert MayScan(rows, key, q, LastRow(sorted));
  }

  /** A matching row that no other one sorts strictly after. */
  ghost predicate Tops(rows: seq<Row>, le: (Row, Row) -> bool, key: Row -> Option<Query>, q: Query, r: Row) {
    r in rows && key(r) == Some(q) && forall x :: x in rows && key(x) == Some(q) ==> le(x, r)
  }

  ghost predicate AnyMatch(rows: seq<Row>, key: Row -> Option<Query>, q: Query) {
    exists r :: r in rows && key(r) == Some(q)
  }

  lemma {:induction false} LastWithOneKey(s: seq<Row>, key: Row -> Option<Query>, q: Query)
    requires forall i :: 0 <= i < |s| ==> key(s[i]) == Some(q)
    ensures LastOf(s, key, Some(q)) == LastRow(s)
  {
    if s != [] { LastWithOneKey(s[1..], key, q); }
  }

  lemma {:induction false} NoMatch(rows: seq<Row>, key: Row -> Option<Query>, q: Query)
    requires !AnyMatch(rows, key, q)
    ensures Matching(rows, key, q) == []
  {
    if rows != [] {
      assert rows[0] in rows;
      assert forall r :: r in rows[1..] ==> r in rows;
      NoMatch(rows[1..], key, q);
    }
  }

  /** A scan looks at a newest matching row, any of them if there are several; a missing time counts as
      newest. */
  lemma {:induction false} ScannedIsGreatest(rows: seq<Row>, key: Row -> Option<Query>, q: Query, found: Option<Row>)
    ensures MayScan(rows, key, q, found) <==>
      if AnyMatch(rows, key, q) then found.Some? && Tops(rows, NullsLast, key, q, found.value) else found == None
  {
    var m := Matching(rows, key, q);
    OrdersTotal();
    MatchingMembers(rows, key, q);
    if MayScan(rows, key, q, found) {
      var sorted :| Arranged(m, sorted, NullsLast) && found == LastRow(sorted);
      ArrangedMembers(m, sorted);
      if sorted != [] {
        assert found.value in sorted && found.value in m;
        forall x | x in rows && key(x) == Some(q) ensures NullsLast(x, found.value) {
          assert x in sorted;
          var i :| 0 <= i < |sorted| && sorted[i] == x;
          assert i == |sorted| - 1 || NullsLast(sorted[i], sorted[|sorted| - 1]);
        }
      } else {
        forall r ensures !(r in rows && key(r) == Some(q)) { assert r !in m; }
      }
    }
    if found.Some? && Tops(rows, NullsLast, key, q, found.value) {
      var sorted := AnyGreatestCanBeLast(m, NullsLast, key, Some(q), found.value);
      ArrangedMembers(m, sorted);
      forall i | 0 <= i < |sorted| ensures key(sorted[i]) == Some(q) { assert sorted[i] in m; }
      LastWithOneKey(sorted, key, q);
    }
    if found == None && !AnyMatch(rows, key, q) {
      NoMatch(rows, key, q);
      assert Arranged(m, m, NullsLast) && found == LastRow(m);
    }
  }

  // ---------------------------------------------------------------- the index

  /** The row whose status an index over a sorted table holds for a query. */
  function Indexed(sorted: seq<Row>, key: Row -> Option<Query>, q: Query): Option<Row> {
    LastOf(sorted, key, Some(q))
  }

  /** What an index may look at. */
  ghost predicate MayIndex(rows: seq<Row>, key: Row -> Option<Query>, q: Query, found: Option<Row>) {
    exists sorted :: Arranged(rows, sorted, NullsFirst) && found == Indexed(sorted, key, q)
  }

  /** An index looks at a newest matching row, any of them if there are several; a missing time counts
      as oldest. */
  lemma {:induction false} IndexedIsGreatest(rows: seq<Row>, key: Row -> Option<Query>, q: Query, found: Option<Row>)
    ensures MayIndex(rows, key, q, found) <==>
      if AnyMatch(rows, key, q) then found.Some? && Tops(rows, NullsFirst, key, q, found.value) else found == None
  {
    OrdersTotal();
    if MayIndex(rows, key, q, found) {
      var sorted :| Arranged(rows, sorted, NullsFirst) && found == Indexed(sorted, key, q);
      ArrangedMembers(rows, sorted);
      LastOfIs(sorted, key, Some(q));
      LastOfOrdered(sorted, NullsFirst, key, Some(q));
    }
    if found.Some? && Tops(rows, NullsFirst, key, q, found.value) {
      var sorted := AnyGreatestCanBeLast(rows, NullsFirst, key, Some(q), found.value);
    }
    if found == None && !AnyMatch(rows, key, q) {
      var sorted := Sort(rows, NullsFirst);
      SortOrdered(rows, NullsFirst);
      SortMembers(rows, NullsFirst);
      LastOfIs(sorted, key, Some(q));
      assert Arranged(rows, sorted, NullsFirst) && found == Indexed(sorted, key, q);
    }
  }

  ghost predicate Holds(statuses: map<Query, string>, sorted: seq<Row>, key: Row -> Option<Query>) {
    forall q ::
      var last := LastOf(sorted, key, Some(q));
      if q in statuses then last.Some? && last.value.status == statuses[q] else last == None
  }

  lemma {:induction false} HoldsStep(statuses: map<Query, string>, sorted: seq<Row>, r: Row, key: Row -> Option<Query>)
    requires Holds(statuses, sorted, key)
    ensures Holds(if key(r).Some? then statuses[key(r).value := r.status] else statuses, sorted + [r], key)
  {
    forall q
      ensures LastOf(sorted + [r], key, Some(q)) == if key(r) == Some(q) then Some(r) else LastOf(sorted, key, Some(q))
    {
      LastOfConcat(sorted, [r], key, Some(q));
      assert [r][1..] == [];
    }
  }

  class PipelineCheckpointLookup {
    ghost const rows: seq<Row>
    ghost var sorted: seq<Row>
    var pipelineStatus: map<Query, string>
    var dateStatus: map<Query, string>

    ghost predicate Valid()
      reads this
    {
      && Arranged(rows, sorted, NullsFirst)
      && Holds(pipelineStatus, sorted, PipelineKey)
      && Holds(dateStatus, sorted, DateKey)
    }

    constructor (checkpoints: seq<Row>)
      ensures Valid() && rows == checkpoints
    {
      rows := checkpoints;
      pipelineStatus, dateStatus := map[], map[];
      new;
      OrdersTotal();
      var work := SortSingle(checkpoints, NullsFirst);
      sorted := work;
      for i := 0 to |work|
        invariant Holds(pipelineStatus, work[..i], PipelineKey)
        invariant Holds(dateStatus, work[..i], DateKey)
        invariant sorted == work
      {
        var row := work[i];
        HoldsStep(pipelineStatus, work[..i], row, PipelineKey);
        HoldsStep(dateStatus, work[..i], row, DateKey);
        assert work[..i + 1] == work[..i] + [row];
        if row.startDate.Some? && row.endDate.Some? {
          pipelineStatus := pipelineStatus[PipelineKey(row).value := row.status];
        }
        if row.endDate.Some? {
          dateStatus := dateStatus[DateKey(row).value := row.status];
        }
      }
      assert work[..|work|] == work;
    }

    method PipelineCheckpointSucceeded(q: Query, outputExists: bool) returns (ok: bool)
      requires Valid()
      ensures var found := Indexed(sorted, PipelineKey, q);
        && MayIndex(rows, PipelineKey, q, found) && LooksAt(rows, q, true, true, found)
        && (ok <==> outputExists && found.Some? && found.value.status == "success")
    {
      LookupsMean(rows, q, true, Indexed(sorted, PipelineKey, q));
      if !outputExists { return false; }
      ok := q in pipelineStatus && pipelineStatus[q] == SUCCESS;
    }

    method CheckpointSucceededForDate(q: Query, outputExists: bool) returns (ok: bool)
      requires Valid()
      ensures var found := Indexed(sorted, DateKey, q);
        && MayIndex(rows, DateKey, q, found) && LooksAt(rows, q, false, true, found)
        && (ok <==> outputExists && found.Some? && found.value.status == "success")
    {
      LookupsMean(rows, q, false, Indexed(sorted, DateKey, q));
      if !outputExists { return false; }
      ok := q in dateStatus && dateStatus[q] == SUCCESS;
    }
  }

  // ---------------------------------------------------------------- what is looked at

  /** The row's fields are those of the query: with the start date, or whatever it started from. */
  ghost predicate AskedFor(r: Row, q: Query, byStart: bool) {
    && r.pipeline == q.pipeline && r.dataset == q.dataset && r.code == q.code && r.endDate == Some(q.endDate)
    && (if byStart then r.startDate.Some? && r.startDate == q.startDate else q.startDate.None?)
  }

  /** Row x was not updated after row r. */
  ghost predicate NotNewer(x: Row, r: Row, missingIsOldest: bool) {
    match (x.updatedAt, r.updatedAt)
    case (Some(a), Some(b)) => a <= b
    case (None, None) => true
    case (None, Some(_)) => missingIsOldest
    case (Some(_), None) => !missingIsOldest
  }

  /** A row that is asked for and than which none of those is newer; none if no row is asked for. */
  ghost predicate LooksAt(rows: seq<Row>, q: Query, byStart: bool, missingIsOldest: bool, found: Option<Row>) {
    match found
    case None => forall x :: x in rows ==> !AskedFor(x, q, byStart)
    case Some(r) =>
      && r in rows && AskedFor(r, q, byStart)
      && forall x :: x in rows && AskedFor(x, q, byStart) ==> NotNewer(x, r, missingIsOldest)
  }

  function KeyBy(byStart: bool): Row -> Option<Query> {
    if byStart then PipelineKey else DateKey
  }

  lemma {:induction false} KeyAsks(r: Row, q: Query, byStart: bool)
    ensures KeyBy(byStart)(r) == Some(q) <==> AskedFor(r, q, byStart)
  {
  }

  /** Index and scans look at a newest row that is asked for; a missing update time is the oldest for the
      index and the newest for a scan. */
  lemma {:induction false} LookupsMean(rows: seq<Row>, q: Query, byStart: bool, found: Option<Row>)
    ensures MayIndex(rows, KeyBy(byStart), q, found) <==> LooksAt(rows, q, byStart, true, found)
    ensures MayScan(rows, KeyBy(byStart), q, found) <==> LooksAt(rows, q, byStart, false, found)
  {
    forall r { KeyAsks(r, q, byStart); }
    IndexedIsGreatest(rows, KeyBy(byStart), q, found);
    ScannedIsGreatest(rows, KeyBy(byStart), q, found);
  }

  // ---------------------------------------------------------------- agreement

  ghost predicate Timed(rows: seq<Row>, key: Row -> Option<Query>, q: Query) {
    forall r :: r in rows && key(r) == Some(q) ==> r.updatedAt.Some?
  }

  ghost predicate Untimed(rows: seq<Row>, key: Row -> Option<Query>, q: Query) {
    forall r :: r in rows && key(r) == Some(q) ==> r.updatedAt.None?
  }

  /** Only one row is newest, a missing time being oldest. */
  ghost predicate OneNewest(rows: seq<Row>, key: Row -> Option<Query>, q: Query) {
    forall r, s :: Tops(rows, NullsFirst, key, q, r) && Tops(rows, NullsFirst, key, q, s) ==> r == s
  }

  /** Whatever the two sorts make of rows that tie, index and scan look at the same row. */
  ghost predicate Agree(rows: seq<Row>, key: Row -> Option<Query>, q: Query) {
    forall a, b :: MayIndex(rows, key, q, a) && MayScan(rows, key, q, b) ==> a == b
  }

  /** Among matching rows that all have a time, or none of which has, both orders are one. */
  lemma {:induction false} SameTops(rows: seq<Row>, key: Row -> Option<Query>, q: Query, r: Row)
    requires Timed(rows, key, q) || Untimed(rows, key, q)
    ensures Tops(rows, NullsFirst, key, q, r) <==> Tops(rows, NullsLast, key, q, r)
  {
  }

  /** There is always something that an index, and a scan, may look at. */
  lemma {:induction false} SomethingFound(rows: seq<Row>, key: Row -> Option<Query>, q: Query)
    returns (indexed: Option<Row>, scanned: Option<Row>)
    ensures MayIndex(rows, key, q, indexed) && MayScan(rows, key, q, scanned)
  {
    OrdersTotal();
    var sorted, m := Sort(rows, NullsFirst), Matching(rows, key, q);
    SortOrdered(rows, NullsFirst);
    indexed := Indexed(sorted, key, q);
    SortOrdered(m, NullsLast);
    scanned := LastRow(Sort(m, NullsLast));
  }

  /** Index and scan look at the same row exactly when the matching rows all have an update time, or none
      has, and only one of them is newest: a missing time counts as oldest for one and as newest for the
      other, and between equal times neither has a rule. */
  lemma {:induction false} IndexAgreesIff(rows: seq<Row>, key: Row -> Option<Query>, q: Query)
    ensures Agree(rows, key, q) <==>
      (Timed(rows, key, q) || Untimed(rows, key, q)) && OneNewest(rows, key, q)
  {
    var indexed, scanned := SomethingFound(rows, key, q);
    IndexedIsGreatest(rows, key, q, indexed);
    ScannedIsGreatest(rows, key, q, scanned);
    if !Timed(rows, key, q) && !Untimed(rows, key, q) {
      var t :| t in rows && key(t) == Some(q) && t.updatedAt.Some?;
      var u :| u in rows && key(u) == Some(q) && u.updatedAt.None?;
      assert NullsFirst(t, indexed.value) && NullsLast(u, scanned.value);
    } else if OneNewest(rows, key, q) {
      forall a, b | MayIndex(rows, key, q, a) && MayScan(rows, key, q, b) ensures a == b {
        BothTop(rows, key, q, a, b);
      }
    } else {
      var r, s :| Tops(rows, NullsFirst, key, q, r) && Tops(rows, NullsFirst, key, q, s) && r != s;
      IndexedIsGreatest(rows, key, q, Some(r));
      IndexedIsGreatest(rows, key, q, Some(s));
      assert scanned != Some(r) || scanned != Some(s);
    }
  }

  lemma {:induction false} BothTop(rows: seq<Row>, key: Row -> Option<Query>, q: Query, a: Option<Row>, b: Option<Row>)
    requires Timed(rows, key, q) || Untimed(rows, key, q)
    requires OneNewest(rows, key, q) && MayIndex(rows, key, q, a) && MayScan(rows, key, q, b)
    ensures a == b
  {
    IndexedIsGreatest(rows, key, q, a);
    ScannedIsGreatest(rows, key, q, b);
    if b.Some? { SameTops(rows, key, q, b.value); }
  }

  /** The full key under which the store replaces rows: at most one row matches, and index and scan agree. */
  lemma {:induction false} FullKeyAgrees(rows: seq<Row>, q: Query)
    requires forall i, j :: 0 <= i < j < |rows| && PipelineKey(rows[i]).Some? ==>
      PipelineKey(rows[i]) != PipelineKey(rows[j])
    ensures Agree(rows, PipelineKey, q)
  {
    forall r, s | r in rows && s in rows && PipelineKey(r) == PipelineKey(s) == Some(q) ensures r == s {
      var i, j :| 0 <= i < |rows| && 0 <= j < |rows| && rows[i] == r && rows[j] == s;
      assert i == j;
    }
    IndexAgreesIff(rows, PipelineKey, q);
  }

  /** Two runs up to one date from different start dates, the failed one without an update time: any
      index resumes, no scan does. Rows written by the program have a time; migrated ones need not. */
  lemma {:induction false} MissingTimeDisagrees(good: Row, bad: Row)
    requires DateKey(good).Some? && DateKey(bad) == DateKey(good) && good.startDate != bad.startDate
    requires good.updatedAt.Some? && bad.updatedAt.None? && good.status == SUCCESS && bad.status == "failed"
    ensures var rows, q := [good, bad], DateKey(good).value;
      && (forall found :: MayIndex(rows, DateKey, q, found) ==> found == Some(good))
      && (forall found :: MayScan(rows, DateKey, q, found) ==> found == Some(bad))
  {
    var rows, q := [good, bad], DateKey(good).value;
    assert good in rows && bad in rows;
    forall found | MayIndex(rows, DateKey, q, found) ensures found == Some(good) {
      IndexedIsGreatest(rows, DateKey, q, found);
      assert NullsFirst(good, found.value);
    }
    forall found | MayScan(rows, DateKey, q, found) ensures found == Some(bad) {
      ScannedIsGreatest(rows, DateKey, q, found);
      assert NullsLast(bad, found.value);
    }
  }

  /** With equal update times it is open for both which of the two they look at. */
  lemma {:induction false} EqualTimesOpen(good: Row, bad: Row)
    requires DateKey(good).Some? && DateKey(bad) == DateKey(good) && good.startDate != bad.startDate
    requires good.updatedAt.Some? && bad.updatedAt == good.updatedAt
    ensures var rows, q := [good, bad], DateKey(good).value;
      forall r :: r in rows ==> MayIndex(rows, DateKey, q, Some(r)) && MayScan(rows, DateKey, q, Some(r))
  {
    var rows, q := [good, bad], DateKey(good).value;
    assert good in rows;
    forall r | r in rows ensures MayIndex(rows, DateKey, q, Some(r)) && MayScan(rows, DateKey, q, Some(r)) {
      assert Tops(rows, NullsFirst, DateKey, q, r) && Tops(rows, NullsLast, DateKey, q, r);
      IndexedIsGreatest(rows, DateKey, q, Some(r));
      ScannedIsGreatest(rows, DateKey, q, Some(r));
    }
  }
}
