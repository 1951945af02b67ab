/** Batched run, status and checkpoint rows of a pipeline, flushed in one transaction while other
    threads keep adding. */
module MetadataBatch {
  import opened Common
  import opened KeyedTable

  type Run = int
  datatype StatusKey = StatusKey(dataset: string, code: string)
  datatype CheckpointKey =
    CheckpointKey(pipeline: string, dataset: string, code: string, startDate: string, endDate: string)

  /** Status and checkpoint rows carry an opaque payload next to their key. */
  type Status = Row<StatusKey, int>
  type Checkpoint = Row<CheckpointKey, int>

  datatype Rows = Rows(runs: seq<Run>, statuses: seq<Status>, checkpoints: seq<Checkpoint>)

  datatype CountBy = CountRuns | CountCheckpoints

  const EMPTY: Rows := Rows([], [], [])

  /** The batch, the rows the flushing thread took, and the stored tables. */
  datatype State = State(countBy: CountBy, pending: Rows, inFlight: Option<Rows>, stored: Rows)

  function Append(rows: Rows, run: Option<Run>, status: Option<Status>, checkpoint: Option<Checkpoint>): Rows {
    Rows(rows.runs + (if run.Some? then [run.value] else []),
         rows.statuses + (if status.Some? then [status.value] else []),
         rows.checkpoints + (if checkpoint.Some? then [checkpoint.value] else []))
  }

  /** `_pending_count` looks at one of the three lists only. */
  function PendingCount(countBy: CountBy, rows: Rows): nat {
    if countBy.CountRuns? then |rows.runs| else |rows.checkpoints|
  }

  function TakenFrom(pending: Rows): Rows {
    Rows(pending.runs, Dedupe(pending.statuses), Dedupe(pending.checkpoints))
  }

  /** One transaction: append the runs, upsert the other two. */
  function Persisted(stored: Rows, taken: Rows): Rows {
    Rows(stored.runs + taken.runs, Upsert(stored.statuses, taken.statuses),
         Upsert(stored.checkpoints, taken.checkpoints))
  }

  /** A failed transaction puts what was taken back in front. */
  function Restored(pending: Rows, taken: Rows): Rows {
    Rows(taken.runs + pending.runs, taken.statuses + pending.statuses, taken.checkpoints + pending.checkpoints)
  }

  // ---------------------------------------------------------------- interleavings

  datatype Event =
    | Add(run: Option<Run>, status: Option<Status>, checkpoint: Option<Checkpoint>)
    | Take
    | Persist(ok: bool)

  /** One atomic step. The flush lock makes a second taker wait, and nothing is persisted that
      was not taken: those events change nothing. */
  function Next(s: State, e: Event): State {
    match e
    case Add(run, status, checkpoint) => s.(pending := Append(s.pending, run, status, checkpoint))
    case Take =>
      if s.inFlight.Some? || PendingCount(s.countBy, s.pending) == 0 then s
      else s.(inFlight := Some(TakenFrom(s.pending)), pending := EMPTY)
    case Persist(ok) =>
      if s.inFlight.None? then s
      else if ok then s.(stored := Persisted(s.stored, s.inFlight.value), inFlight := None)
      else s.(pending := Restored(s.pending, s.inFlight.value), inFlight := None)
  }

  ghost function After(s: State, events: seq<Event>): State {
    if events == [] then s else Next(After(s, events[..|events| - 1]), events[|events| - 1])
  }

  ghost function RunsOf(events: seq<Event>): seq<Option<Run>> {
    seq(|events|, i requires 0 <= i < |events| => if events[i].Add? then events[i].run else None)
  }

  ghost function StatusesOf(events: seq<Event>): seq<Option<Status>> {
    seq(|events|, i requires 0 <= i < |events| => if events[i].Add? then events[i].status else None)
  }

  ghost function CheckpointsOf(events: seq<Event>): seq<Option<Checkpoint>> {
    seq(|events|, i requires 0 <= i < |events| => if events[i].Add? then events[i].checkpoint else None)
  }

  /** The values that are there, in order. */
  ghost function Present<T>(given: seq<Option<T>>): seq<T> {
    if given == [] then []
    else Present(given[..|given| - 1])
         + match given[|given| - 1] case Some(value) => [value] case None => []
  }

  /** Every row added, in add order. */
  ghost function Added(events: seq<Event>): Rows {
    Rows(Present(RunsOf(events)), Present(StatusesOf(events)), Present(CheckpointsOf(events)))
  }

  lemma {:induction false} AddedStep(events: seq<Event>, e: Event)
    ensures Added(events + [e])
         == if e.Add? then Append(Added(events), e.run, e.status, e.checkpoint) else Added(events)
  {
    var all := events + [e];
    assert RunsOf(all)[..|events|] == RunsOf(events);
    assert StatusesOf(all)[..|events|] == StatusesOf(events);
    assert CheckpointsOf(all)[..|events|] == CheckpointsOf(events);
  }

  ghost predicate Fresh(s: State) {
    s.pending == EMPTY && s.inFlight.None? && UniqueKeys(s.stored.statuses) && UniqueKeys(s.stored.checkpoints)
  }

  ghost function InFlight(s: State): Rows {
    if s.inFlight.Some? then s.inFlight.value else EMPTY
  }

  /** Stored, in flight and pending together are the initial tables plus every added row. */
  ghost predicate Conserved(start: Rows, added: Rows, s: State) {
    && s.stored.runs + InFlight(s).runs + s.pending.runs == start.runs + added.runs
    && Conserves(start.statuses, added.statuses, s.stored.statuses, InFlight(s).statuses, s.pending.statuses)
    && Conserves(start.checkpoints, added.checkpoints,
                 s.stored.checkpoints, InFlight(s).checkpoints, s.pending.checkpoints)
  }

  lemma {:induction false} AddStep(start: Rows, added: Rows, s: State, e: Event)
    requires Conserved(start, added, s) && e.Add?
    ensures Conserved(start, Append(added, e.run, e.status, e.checkpoint), Next(s, e))
  {
    var held, pending := InFlight(s), s.pending;
    var extra := if e.run.Some? then [e.run.value] else [];
    assert s.stored.runs + held.runs + (pending.runs + extra) == s.stored.runs + held.runs + pending.runs + extra;
    assert start.runs + (added.runs + extra) == start.runs + added.runs + extra;
    AddConserves(start.statuses, added.statuses, s.stored.statuses, held.statuses, pending.statuses,
                 if e.status.Some? then [e.status.value] else []);
    AddConserves(start.checkpoints, added.checkpoints, s.stored.checkpoints, held.checkpoints, pending.checkpoints,
                 if e.checkpoint.Some? then [e.checkpoint.value] else []);
  }

  lemma {:induction false} TakeStep(start: Rows, added: Rows, s: State)
    requires Conserved(start, added, s)
    ensures Conserved(start, added, Next(s, Take))
  {
    if s.inFlight.None? {
      TakeConserves(start.statuses, added.statuses, s.stored.statuses, s.pending.statuses);
      TakeConserves(start.checkpoints, added.checkpoints, s.stored.checkpoints, s.pending.checkpoints);
    }
  }

  lemma {:induction false} CommitStep(start: Rows, added: Rows, s: State)
    requires Conserved(start, added, s)
    ensures Conserved(start, added, Next(s, Persist(true)))
  {
    var held, pending := InFlight(s), s.pending;
    CommitConserves(start.statuses, added.statuses, s.stored.statuses, held.statuses, pending.statuses);
    CommitConserves(start.checkpoints, added.checkpoints, s.stored.checkpoints, held.checkpoints, pending.checkpoints);
  }

  lemma {:induction false} RollbackStep(start: Rows, added: Rows, s: State)
    requires Conserved(start, added, s)
    ensures Conserved(start, added, Next(s, Persist(false)))
  {
    var held, pending := InFlight(s), s.pending;
    assert s.stored.runs + (held.runs + pending.runs) == s.stored.runs + held.runs + pending.runs;
    RollbackConserves(start.statuses, added.statuses, s.stored.statuses, held.statuses, pending.statuses);
    RollbackConserves(start.checkpoints, added.checkpoints, s.stored.checkpoints, held.checkpoints,
                      pending.checkpoints);
  }

  /** Every step keeps the sum of what is stored, in flight and pending. */
  lemma {:induction false} StepConserves(start: Rows, added: Rows, s: State, e: Event)
    requires Conserved(start, added, s)
    ensures Conserved(start, if e.Add? then Append(added, e.run, e.status, e.checkpoint) else added, Next(s, e))
  {
    match e
    case Add(_, _, _) => AddStep(start, added, s, e);
    case Take => TakeStep(start, added, s);
    case Persist(ok) => if ok { CommitStep(start, added, s); } else { RollbackStep(start, added, s); }
  }

  /** Conservation over every interleaving of adds, flush halves and failing transactions. */
  lemma {:induction false} NothingLost(start: State, events: seq<Event>)
    requires Fresh(start)
    ensures Conserved(start.stored, Added(events), After(start, events))
  {
    if events != [] {
      var front, last := events[..|events| - 1], events[|events| - 1];
      NothingLost(start, front);
      StepConserves(start.stored, Added(front), After(start, front), last);
      AddedStep(front, last);
      assert front + [last] == events;
    }
  }

  /** The stored tables are what one write per added row would have produced. */
  ghost predicate AsIfWrittenOneByOne(start: Rows, added: Rows, stored: Rows) {
    && stored.runs == start.runs + added.runs
    && SameTable(stored.statuses, UpsertEach(start.statuses, added.statuses))
    && SameTable(stored.checkpoints, UpsertEach(start.checkpoints, added.checkpoints))
  }

  /** Once nothing is in flight or pending, batching is invisible in the store. */
  lemma {:induction false} BatchedEqualsOneByOne(start: State, events: seq<Event>)
    requires Fresh(start)
    requires After(start, events).pending == EMPTY && After(start, events).inFlight.None?
    ensures AsIfWrittenOneByOne(start.stored, Added(events), After(start, events).stored)
  {
    NothingLost(start, events);
    var s, added := After(start, events), Added(events);
    SettledEqualsEach(start.stored.statuses, added.statuses, s.stored.statuses);
    SettledEqualsEach(start.stored.checkpoints, added.checkpoints, s.stored.checkpoints);
  }

  lemma {:induction false} AfterFlush(start: State, events: seq<Event>)
    ensures After(start, events + [Take, Persist(true)]) == Next(Next(After(start, events), Take), Persist(true))
  {
    var all := events + [Take, Persist(true)];
    assert all[..|all| - 1] == events + [Take];
    assert (events + [Take])[..|events|] == events;
  }

  /** A final flush that succeeds leaves nothing behind exactly when the counted list was not
      empty or every list was: uncounted rows alone are never flushed. */
  lemma {:induction false} FinalFlushCompletesIff(start: State, events: seq<Event>)
    requires Fresh(start) && After(start, events).inFlight.None?
    ensures var s := After(start, events);
      var done := After(start, events + [Take, Persist(true)]);
      && done.inFlight.None?
      && (done.pending == Rows([], [], []) <==>
            || s.pending == Rows([], [], [])
            || match s.countBy
               case CountRuns => s.pending.runs != []
               case CountCheckpoints => s.pending.checkpoints != [])
  {
    AfterFlush(start, events);
  }

  /** With a counted row in every add, the final flush makes the store equal to one-by-one writes. */
  lemma {:induction false} FinalFlushStoresAll(start: State, events: seq<Event>)
    requires Fresh(start) && After(start, events).inFlight.None?
    requires forall i :: 0 <= i < |events| && events[i].Add? ==> Counted(start.countBy, events[i])
    ensures AsIfWrittenOneByOne(start.stored, Added(events), After(start, events + [Take, Persist(true)]).stored)
  {
    PendingNeedsCounted(start, events);
    FinalFlushCompletesIff(start, events);
    AddedIgnoresFlush(events);
    BatchedEqualsOneByOne(start, events + [Take, Persist(true)]);
  }

  predicate Counted(countBy: CountBy, e: Event)
    requires e.Add?
  {
    if countBy.CountRuns? then e.run.Some? else e.checkpoint.Some?
  }

  lemma {:induction false} AddedIgnoresFlush(events: seq<Event>)
    ensures Added(events + [Take, Persist(true)]) == Added(events)
  {
    AddedStep(events, Take);
    AddedStep(events + [Take], Persist(true));
    assert events + [Take] + [Persist(true)] == events + [Take, Persist(true)];
  }

  lemma {:induction false} PendingNeedsCounted(start: State, events: seq<Event>)
    requires Fresh(start)
    requires forall i :: 0 <= i < |events| && events[i].Add? ==> Counted(start.countBy, events[i])
    ensures var s := After(start, events);
      && s.countBy == start.countBy
      && (PendingCount(s.countBy, s.pending) > 0 || s.pending == EMPTY)
      && (s.inFlight.Some? ==> PendingCount(s.countBy, s.inFlight.value) > 0)
  {
    if events != [] {
      var front, last := events[..|events| - 1], events[|events| - 1];
      assert forall i :: 0 <= i < |front| ==> front[i] == events[i];
      PendingNeedsCounted(start, front);
      if last.Take? { DedupeKeeps(After(start, front).pending.checkpoints); }
    }
  }

  lemma {:induction false} DedupeKeeps<K, V>(rows: seq<Row<K, V>>)
    ensures rows != [] ==> Dedupe(rows) != []
  {
  }

  // ---------------------------------------------------------------- the objects

  datatype Statement =
    | InsertRuns(runs: seq<Run>)
    | DeleteStatuses(statuses: seq<Status>)
    | InsertStatuses(statuses: seq<Status>)
    | DeleteCheckpoints(checkpoints: seq<Checkpoint>)
    | InsertCheckpoints(checkpoints: seq<Checkpoint>)

  function Effect(tables: Rows, s: Statement): Rows {
    match s
    case InsertRuns(runs) => tables.(runs := tables.runs + runs)
    case DeleteStatuses(rows) => tables.(statuses := DeleteMatching(tables.statuses, rows))
    case InsertStatuses(rows) => tables.(statuses := tables.statuses + rows)
    case DeleteCheckpoints(rows) => tables.(checkpoints := DeleteMatching(tables.checkpoints, rows))
    case InsertCheckpoints(rows) => tables.(checkpoints := tables.checkpoints + rows)
  }

  /** How many statements a transaction executes: none for an empty frame. */
  function StatementCount(taken: Rows): nat {
    (if taken.runs != [] then 1 else 0) + (if taken.statuses != [] then 2 else 0)
    + (if taken.checkpoints != [] then 2 else 0)
  }

  /** Upserting nothing changes nothing. */
  lemma {:induction false} UpsertNothing<K, V>(table: seq<Row<K, V>>)
    ensures DeleteMatching(table, []) == table && Upsert(table, []) == table
  {
    if table != [] { UpsertNothing(table[..|table| - 1]); }
  }

  /** A transaction as the statements for its non-empty frames. */
  lemma {:induction false} PersistedByParts(tables: Rows, taken: Rows)
    ensures Persisted(tables, taken) == Rows(
              if taken.runs == [] then tables.runs else tables.runs + taken.runs,
              if taken.statuses == [] then tables.statuses
              else DeleteMatching(tables.statuses, taken.statuses) + taken.statuses,
              if taken.checkpoints == [] then tables.checkpoints
              else DeleteMatching(tables.checkpoints, taken.checkpoints) + taken.checkpoints)
  {
    UpsertNothing(tables.statuses);
    UpsertNothing(tables.checkpoints);
  }

  /** The DuckDB tables. Any statement, and the commit, can fail; a failed one has no effect of its own,
      those before it in the transaction have theirs in the working tables. */
  class MetadataStore {
    /** What is committed. */
    var tables: Rows
    /** What the open transaction has made of it. */
    var working: Option<Rows>
    /** Whether the n-th statement or commit fails. */
    const fails: nat -> bool
    var executed: nat

    constructor (initial: Rows, fails: nat -> bool)
      ensures tables == initial && working.None? && this.fails == fails
    {
      tables, working, executed := initial, None, 0;
      this.fails := fails;
    }

    /** None of the next statements fails. */
    ghost predicate AllSucceed(first: nat, count: nat) {
      forall i :: first <= i < first + count ==> !fails(i)
    }

    method Begin()
      requires working.None?
      modifies this`working
      ensures working == Some(tables)
    {
      working := Some(tables);
    }

    method Execute(s: Statement) returns (ok: bool)
      requires working.Some?
      modifies this`working, this`executed
      ensures ok == !fails(old(executed)) && executed == old(executed) + 1
      ensures working == if ok then Some(Effect(old(working).value, s)) else old(working)
    {
      ok := !fails(executed);
      if ok { working := Some(Effect(working.value, s)); }
      executed := executed + 1;
    }

    method Rollback()
      modifies this`working
      ensures working.None?
    {
      working := None;
    }

    /** A commit that fails leaves the transaction to be dropped with the connection. */
    method Commit() returns (ok: bool)
      requires working.Some?
      modifies this`tables, this`working, this`executed
      ensures ok == !fails(old(executed)) && executed == old(executed) + 1
      ensures working.None? && tables == if ok then old(working).value else old(tables)
    {
      ok := !fails(executed);
      if ok { tables := working.value; }
      working := None;
      executed := executed + 1;
    }

    lemma {:induction false} SucceedInTurn(first: nat, a: nat, b: nat)
      ensures AllSucceed(first, a + b) <==> AllSucceed(first, a) && AllSucceed(first + a, b)
    {
    }

    /** Two statements one after the other. */
    method ExecuteBoth(a: Statement, b: Statement) returns (ok: bool)
      requires working.Some?
      modifies this`working, this`executed
      ensures ok <==> AllSucceed(old(executed), 2)
      ensures ok ==> executed == old(executed) + 2 && working == Some(Effect(Effect(old(working).value, a), b))
      ensures working.Some?
    {
      ok := Execute(a);
      if ok { ok := Execute(b); }
    }

    method InsertAllRuns(runs: seq<Run>) returns (ok: bool)
      requires working.Some?
      modifies this`working, this`executed
      ensures var n := if runs == [] then 0 else 1;
        && (ok <==> AllSucceed(old(executed), n))
        && (ok ==> executed == old(executed) + n
                   && working == Some(if runs == [] then old(working).value
                                      else Effect(old(working).value, InsertRuns(runs))))
      ensures working.Some?
    {
      ok := true;
      if runs != [] { ok := Execute(InsertRuns(runs)); }
    }

    method ReplaceStatuses(rows: seq<Status>) returns (ok: bool)
      requires working.Some?
      modifies this`working, this`executed
      ensures var n := if rows == [] then 0 else 2;
        && (ok <==> AllSucceed(old(executed), n))
        && (ok ==> executed == old(executed) + n
                   && working == Some(if rows == [] then old(working).value
                                      else Effect(Effect(old(working).value, DeleteStatuses(rows)),
                                                  InsertStatuses(rows))))
      ensures working.Some?
    {
      ok := true;
      if rows != [] { ok := ExecuteBoth(DeleteStatuses(rows), InsertStatuses(rows)); }
    }

    method ReplaceCheckpoints(rows: seq<Checkpoint>) returns (ok: bool)
      requires working.Some?
      modifies this`working, this`executed
      ensures var n := if rows == [] then 0 else 2;
        && (ok <==> AllSucceed(old(executed), n))
        && (ok ==> executed == old(executed) + n
                   && working == Some(if rows == [] then old(working).value
                                      else Effect(Effect(old(working).value, DeleteCheckpoints(rows)),
                                                  InsertCheckpoints(rows))))
      ensures working.Some?
    {
      ok := true;
      if rows != [] { ok := ExecuteBoth(DeleteCheckpoints(rows), InsertCheckpoints(rows)); }
    }

    /** The statements inside the `try`, up to the first that fails. */
    method ExecuteAll(taken: Rows) returns (ok: bool)
      requires working.Some?
      modifies this`working, this`executed
      ensures ok <==> AllSucceed(old(executed), StatementCount(taken))
      ensures ok ==> executed == old(executed) + StatementCount(taken)
                     && working == Some(Persisted(old(working).value, taken))
      ensures working.Some?
    {
      PersistedByParts(working.value, taken);
      ghost var first := executed;
      ghost var a, b := if taken.runs == [] then 0 else 1, if taken.statuses == [] then 0 else 2;
      ghost var c := if taken.checkpoints == [] then 0 else 2;
      SucceedInTurn(first, a, b + c);
      SucceedInTurn(first + a, b, c);
      ok := InsertAllRuns(taken.runs);
      if ok { ok := ReplaceStatuses(taken.statuses); }
      if ok { ok := ReplaceCheckpoints(taken.checkpoints); }
    }

    /** Wherever a failure strikes, and whether or not one does: all three tables change together or
        not at all, and no transaction stays open. */
    method PersistUpdateMetadata(taken: Rows) returns (ok: bool)
      requires working.None?
      modifies this
      ensures tables == if ok then Persisted(old(tables), taken) else old(tables)
      ensures ok <==> taken == EMPTY || AllSucceed(old(executed), StatementCount(taken) + 1)
      ensures working.None?
    {
      if taken.runs == [] && taken.statuses == [] && taken.checkpoints == [] {
        PersistedByParts(tables, taken);
        return true;
      }
      ghost var first, count := executed, StatementCount(taken);
      assert AllSucceed(first, count + 1) <==> AllSucceed(first, count) && !fails(first + count);
      Begin();
      ok := ExecuteAll(taken);
      if !ok {
        Rollback();
        return;
      }
      ok := Commit();
    }
  }

  /** Each method is one critical section; a flush is `TakeRows` followed by `Finish`, both under
      the flush lock, with the transaction between them. */
  class PipelineMetadataBatch {
    const store: MetadataStore
    const flushSize: nat
    const countBy: CountBy
    var runRows: seq<Run>
    var statusRows: seq<Status>
    var checkpointRows: seq<Checkpoint>
    /** Rows held by the thread inside the flush lock. */
    var taken: Option<Rows>

    ghost function Abstract(): State
      reads this, store
    {
      State(countBy, Rows(runRows, statusRows, checkpointRows), taken, store.tables)
    }

    constructor (store: MetadataStore, flushSize: int, countBy: CountBy)
      ensures Abstract() == State(countBy, EMPTY, None, store.tables)
      ensures this.store == store && this.countBy == countBy
      ensures this.flushSize >= 1 && this.flushSize >= flushSize && this.flushSize in {1, flushSize}
    {
      this.store := store;
      this.flushSize := if flushSize > 1 then flushSize else 1;
      this.countBy := countBy;
      runRows, statusRows, checkpointRows, taken := [], [], [], None;
    }

    method AddRows(run: Option<Run>, status: Option<Status>, checkpoint: Option<Checkpoint>)
      returns (shouldFlush: bool)
      modifies this
      ensures Abstract() == Next(old(Abstract()), Add(run, status, checkpoint))
      ensures shouldFlush <==>
        match countBy
        case CountRuns => |runRows| >= flushSize
        case CountCheckpoints => |checkpointRows| >= flushSize
    {
      if run.Some? { runRows := runRows + [run.value]; }
      if status.Some? { statusRows := statusRows + [status.value]; }
      if checkpoint.Some? { checkpointRows := checkpointRows + [checkpoint.value]; }
      shouldFlush := (if countBy.CountRuns? then |runRows| else |checkpointRows|) >= flushSize;
    }

    method TakeRows()
      requires taken.None?
      modifies this
      ensures Abstract() == Next(old(Abstract()), Take)
    {
      if (if countBy.CountRuns? then |runRows| else |checkpointRows|) == 0 { return; }
      var statuses := DedupeRows(statusRows);
      var checkpoints := DedupeRows(checkpointRows);
      taken := Some(Rows(runRows, statuses, checkpoints));
      runRows, statusRows, checkpointRows := [], [], [];
    }

    /** The transaction decides whether this is a commit or puts the rows back. */
    method Finish() returns (raised: bool)
      requires store.working.None?
      modifies this, store
      ensures Abstract() == Next(old(Abstract()), Persist(!raised))
      ensures raised ==> old(taken).Some?
      ensures store.working.None?
    {
      raised := false;
      if taken.Some? {
        var rows := taken.value;
        var ok := store.PersistUpdateMetadata(rows);
        if !ok {
          runRows := rows.runs + runRows;
          statusRows := rows.statuses + statusRows;
          checkpointRows := rows.checkpoints + checkpointRows;
          raised := true;
        }
        taken := None;
      }
    }
  }
}
