/** The dispatcher of the Baostock daily update: one main thread submits numbered tasks to a FIFO
    pool, collects finished ones in any order, dispatches their API requests, and flushes run
    records in submission order. Workers may block on an earlier task. */
module Dispatcher {
  import opened Common
  import opened DailyWorker

  const METADATA: Dataset := "__metadata__"

  datatype Task =
    | Factor(code: Code)
    | Daily(code: Code, plans: seq<Dataset>, factor: Option<nat>)
    | Refetch(request: Request)
    | FlushMetadata

  /** What the main thread still has to do. */
  datatype Action =
    | BeginCode(code: Code, existing: Option<FactorState>)
    | SubmitFactor(code: Code)
    | SubmitDaily(code: Code, plans: seq<Dataset>)
    | SubmitFlush
    | Poll
    | Barrier

  /** Where the main thread is: between calls, or collecting a result whose requests are left. */
  datatype Pc = Idle | Collecting(requests: seq<Request>)

  datatype Config = Config(workers: nat, maxPending: nat, retain: bool) {
    predicate Valid() { workers >= 1 && maxPending >= 1 }
  }

  datatype State = State(
    script: seq<Action>, factorFuture: Option<nat>, pc: Pc, batch: seq<nat>,   // main thread
    tasks: seq<Task>, pending: set<nat>,                                       // submitted; not collected
    queue: seq<nat>, running: set<nat>, results: map<nat, TaskResult>,         // pool
    completed: map<nat, TaskResult>, nextRecord: nat, runRecords: seq<Record>, // record order
    worker: WorkerState)

  // ---------------------------------------------------------------- steps

  /** What decides a task's result besides the worker state. */
  datatype Environment = Environment(conditions: Conditions, frame: int, noFrame: bool, ok: bool)

  function Execute(cfg: Config, w: WorkerState, t: Task, e: Environment): (TaskResult, WorkerState) {
    match t
    case Factor(code) => FactorProcessed(w, cfg.retain, code, e.frame, e.noFrame, e.ok)
    case Daily(code, plans, _) =>
      var r := Initial(code, plans, FactorOf(w, code), e.conditions);
      (r, InitialState(w, code, plans, r))
    case Refetch(q) => (Refetched(q.code, PlansOf(w, q.code), q.datasets, e.conditions), Release(w, q.code))
    case FlushMetadata => (TaskResult(if e.ok then [] else [Record(METADATA, "*", false)], []), w)
  }

  datatype Label = Advance | Wait | Collect | Dispatch | Flush | StartTask | Finish(n: nat, environment: Environment)

  /** The task that a submitting action hands to the pool. */
  function TaskOf(s: State, a: Action): Option<Task> {
    match a
    case SubmitFactor(code) => Some(Factor(code))
    case SubmitDaily(code, plans) => Some(Daily(code, plans, s.factorFuture))
    case SubmitFlush => Some(FlushMetadata)
    case _ => None
  }

  ghost function Ready(s: State): set<nat> { set n | n in s.pending && n in s.results }

  /** Members of a set below a bound, in ascending order. */
  ghost function Listed(ns: set<nat>, bound: nat): seq<nat> {
    if bound == 0 then [] else Listed(ns, bound - 1) + (if bound - 1 in ns then [bound - 1] else [])
  }

  /** The submit path or the barrier has to wait for a finished future. */
  predicate MustDrain(cfg: Config, s: State) {
    && s.script != []
    && if s.script[0].Barrier? then s.pending != {}
       else TaskOf(s, s.script[0]).Some? && |s.pending| >= cfg.maxPending
  }

  ghost predicate Enabled(cfg: Config, s: State, l: Label) {
    match l
    case Advance => s.pc.Idle? && s.batch == [] && s.script != [] && !MustDrain(cfg, s)
    case Wait => s.pc.Idle? && s.batch == [] && MustDrain(cfg, s) && Ready(s) != {}
    case Collect => s.pc.Idle? && s.batch != [] && s.batch[0] in s.results
    case Dispatch => s.pc.Collecting? && s.pc.requests != [] && |s.pending| < cfg.maxPending
    case Flush => s.pc == Collecting([])
    case StartTask => s.queue != [] && |s.running| < cfg.workers
    case Finish(n, _) =>
      && n in s.running && n < |s.tasks|
      && (s.tasks[n].Daily? && s.tasks[n].factor.Some? ==> s.tasks[n].factor.value in s.results)
  }

  function Submit(s: State, t: Task): State {
    s.(tasks := s.tasks + [t], queue := s.queue + [|s.tasks|], pending := s.pending + {|s.tasks|})
  }

  /** `flush_ordered_run_records`. */
  function FlushFrom(completed: map<nat, TaskResult>, next: nat, records: seq<Record>)
    : (r: (map<nat, TaskResult>, nat, seq<Record>))
    decreases completed.Keys
  {
    if next in completed then FlushFrom(completed - {next}, next + 1, records + completed[next].records)
    else (completed, next, records)
  }

  ghost function Apply(cfg: Config, s: State, l: Label): State
    requires Enabled(cfg, s, l)
  {
    match l
    case Advance =>
      var a, rest := s.script[0], s.(script := s.script[1..]);
      (match a
       case BeginCode(code, existing) =>
         rest.(factorFuture := None,
               worker := if existing.Some? then s.worker.(factors := s.worker.factors[code := existing.value])
                         else s.worker)
       case Poll => rest.(batch := Listed(Ready(s), |s.tasks|))
       case Barrier => rest
       case SubmitFactor(_) => Submit(rest.(factorFuture := Some(|s.tasks|)), TaskOf(s, a).value)
       case SubmitDaily(_, _) => Submit(rest, TaskOf(s, a).value)
       case SubmitFlush => Submit(rest, TaskOf(s, a).value))
    case Wait => s.(batch := Listed(Ready(s), |s.tasks|))
    case Collect =>
      var n := s.batch[0];
      s.(batch := s.batch[1..], pending := s.pending - {n}, completed := s.completed[n := s.results[n]],
         pc := Collecting(s.results[n].requests))
    case Dispatch => Submit(s.(pc := Collecting(s.pc.requests[1..])), Refetch(s.pc.requests[0]))
    case Flush =>
      var (completed, next, records) := FlushFrom(s.completed, s.nextRecord, s.runRecords);
      s.(completed := completed, nextRecord := next, runRecords := records, pc := Idle)
    case StartTask => s.(queue := s.queue[1..], running := s.running + {s.queue[0]})
    case Finish(n, e) =>
      var (r, w) := Execute(cfg, s.worker, s.tasks[n], e);
      s.(running := s.running - {n}, results := s.results[n := r], worker := w)
  }

  // ---------------------------------------------------------------- invariant

  /** FIFO pool: the queue ascends, everything running was submitted before everything queued, and
      exactly the rest has a result. */
  ghost predicate PoolInv(cfg: Config, s: State) {
    && (forall i, j :: 0 <= i < j < |s.queue| ==> s.queue[i] < s.queue[j])
    && (forall i :: 0 <= i < |s.queue| ==> s.queue[i] < |s.tasks|)
    && (forall r :: r in s.running ==> r < |s.tasks|)
    && (forall r, i :: r in s.running && 0 <= i < |s.queue| ==> r < s.queue[i])
    && |s.running| <= cfg.workers
    && (forall n: nat :: n in s.results <==> n < |s.tasks| && n !in s.running && n !in s.queue)
  }

  /** Every unfinished task is pending, and pending never exceeds its bound. */
  ghost predicate PendingInv(cfg: Config, s: State) {
    && (forall n :: n in s.pending ==> n < |s.tasks|)
    && (forall n: nat :: n < |s.tasks| && n !in s.results ==> n in s.pending)
    && |s.pending| <= cfg.maxPending
  }

  ghost predicate MainInv(cfg: Config, s: State) {
    && (forall i, j :: 0 <= i < j < |s.batch| ==> s.batch[i] < s.batch[j])
    && (forall i :: 0 <= i < |s.batch| ==> s.batch[i] in s.pending && s.batch[i] in s.results)
    && (s.pc.Collecting? ==> |s.pc.requests| <= 1 && (s.pc.requests != [] ==> |s.pending| < cfg.maxPending))
    && (if s.script == [] then s.pending == {} && s.pc.Idle? else s.script[|s.script| - 1].Barrier?)
  }

  /** At most one request per result, from daily tasks only, and these wait for an earlier task. */
  ghost predicate TaskInv(s: State) {
    && (forall n :: n in s.results && n < |s.tasks| ==>
          |s.results[n].requests| <= 1 && (!s.tasks[n].Daily? ==> s.results[n].requests == []))
    && (forall n :: 0 <= n < |s.tasks| && s.tasks[n].Daily? ==> Distinct(s.tasks[n].plans))
    && (forall i :: 0 <= i < |s.script| && s.script[i].SubmitDaily? ==> Distinct(s.script[i].plans))
    && (forall n :: 0 <= n < |s.tasks| && s.tasks[n].Daily? && s.tasks[n].factor.Some? ==> s.tasks[n].factor.value < n)
    && (s.factorFuture.Some? ==> s.factorFuture.value < |s.tasks|)
  }

  ghost function Flattened(results: map<nat, TaskResult>, n: nat): seq<Record> {
    if n == 0 then []
    else Flattened(results, n - 1) + (if n - 1 in results then results[n - 1].records else [])
  }

  /** Records come out in submission order: everything before `nextRecord` is out, the collected
      rest waits in `completed`. */
  ghost predicate OrderInv(s: State) {
    && s.nextRecord <= |s.tasks|
    && (forall n: nat :: n in s.completed <==> s.nextRecord <= n < |s.tasks| && n !in s.pending)
    && (forall n: nat :: n < s.nextRecord ==> n !in s.pending)
    && (forall n :: n in s.completed ==> n in s.results && s.completed[n] == s.results[n])
    && s.runRecords == Flattened(s.results, s.nextRecord)
    && (s.pc.Idle? ==> s.nextRecord !in s.completed)
  }

  ghost predicate Inv(cfg: Config, s: State) {
    cfg.Valid() && PoolInv(cfg, s) && PendingInv(cfg, s) && MainInv(cfg, s) && TaskInv(s) && OrderInv(s)
  }

  lemma {:induction false} ListedMembers(ns: set<nat>, bound: nat)
    ensures forall n :: n in Listed(ns, bound) <==> n in ns && n < bound
    ensures forall i, j :: 0 <= i < j < |Listed(ns, bound)| ==> Listed(ns, bound)[i] < Listed(ns, bound)[j]
  {
    if bound > 0 {
      ListedMembers(ns, bound - 1);
      var front := Listed(ns, bound - 1);
      forall i | 0 <= i < |front| ensures front[i] < bound - 1 { assert front[i] in front; }
    }
  }

  lemma {:induction false} SubmitKeeps(cfg: Config, s: State, t: Task)
    requires PoolInv(cfg, s) && PendingInv(cfg, s) && |s.pending| < cfg.maxPending
    ensures PoolInv(cfg, Submit(s, t)) && PendingInv(cfg, Submit(s, t))
  {
    SubmitKeepsPool(cfg, s, t);
    assert |s.tasks| !in s.pending && |s.pending + {|s.tasks|}| == |s.pending| + 1;
  }

  lemma {:induction false} SubmitKeepsPool(cfg: Config, s: State, t: Task)
    requires PoolInv(cfg, s)
    ensures PoolInv(cfg, Submit(s, t))
  {
    var queue, n := s.queue + [|s.tasks|], |s.tasks|;
    assert forall i :: 0 <= i < |s.queue| ==> queue[i] == s.queue[i];
    assert forall m :: m in queue <==> m in s.queue || m == n;
    assert n !in s.results && n !in s.running && n !in s.queue;
  }

  lemma {:induction false} SubmitKeepsOrder(cfg: Config, s: State, t: Task)
    requires PoolInv(cfg, s) && OrderInv(s)
    ensures OrderInv(Submit(s, t))
  {
  }

  /** `s` is the state before the submission, its factor future already pointing to the new task. */
  lemma {:induction false} SubmitTaskInv(s: State, t: Task)
    requires TaskInv(s.(factorFuture := None)) && |s.tasks| !in s.results
    requires s.factorFuture.Some? ==> s.factorFuture.value <= |s.tasks|
    requires t.Daily? ==> Distinct(t.plans) && (t.factor.Some? ==> t.factor.value < |s.tasks|)
    ensures TaskInv(Submit(s, t))
  {
    var u := Submit(s, t);
    assert forall n :: 0 <= n < |s.tasks| ==> u.tasks[n] == s.tasks[n];
    assert u.tasks[|s.tasks|] == t;
  }

  lemma {:induction false} SubmitKeepsTasks(cfg: Config, s: State)
    requires PoolInv(cfg, s) && TaskInv(s) && Enabled(cfg, s, Advance) && TaskOf(s, s.script[0]).Some?
    ensures TaskInv(Apply(cfg, s, Advance))
  {
    var rest, t := SubmitShape(cfg, s);
    assert forall i :: 0 <= i < |rest.script| ==> rest.script[i] == s.script[i + 1];
    assert TaskInv(rest.(factorFuture := None));
    SubmitTaskInv(rest, t);
  }

  lemma {:induction false} SubmitKeepsMain(cfg: Config, s: State)
    requires MainInv(cfg, s) && Enabled(cfg, s, Advance) && TaskOf(s, s.script[0]).Some?
    ensures MainInv(cfg, Apply(cfg, s, Advance))
  {
    var rest := s.script[1..];
    assert rest != [] && rest[|rest| - 1] == s.script[|s.script| - 1];
  }

  lemma {:induction false} SubmitShape(cfg: Config, s: State) returns (rest: State, t: Task)
    requires Enabled(cfg, s, Advance) && TaskOf(s, s.script[0]).Some?
    ensures rest == s.(script := s.script[1..],
                       factorFuture := if s.script[0].SubmitFactor? then Some(|s.tasks|) else s.factorFuture)
    ensures t == TaskOf(s, s.script[0]).value
    ensures Apply(cfg, s, Advance) == Submit(rest, t)
  {
    rest := s.(script := s.script[1..],
               factorFuture := if s.script[0].SubmitFactor? then Some(|s.tasks|) else s.factorFuture);
    t := TaskOf(s, s.script[0]).value;
  }

  lemma {:induction false} AdvanceSubmitKeeps(cfg: Config, s: State)
    requires Inv(cfg, s) && Enabled(cfg, s, Advance) && TaskOf(s, s.script[0]).Some?
    ensures Inv(cfg, Apply(cfg, s, Advance))
  {
    var rest, t := SubmitShape(cfg, s);
    assert PoolInv(cfg, rest) && PendingInv(cfg, rest) && OrderInv(rest);
    SubmitKeeps(cfg, rest, t);
    SubmitKeepsOrder(cfg, rest, t);
    SubmitKeepsTasks(cfg, s);
    SubmitKeepsMain(cfg, s);
  }

  /** A batch consists of finished pending futures. */
  lemma {:induction false} ListedReady(s: State, batch: seq<nat>)
    requires batch == Listed(Ready(s), |s.tasks|)
    ensures forall i, j :: 0 <= i < j < |batch| ==> batch[i] < batch[j]
    ensures forall i :: 0 <= i < |batch| ==> batch[i] in s.pending && batch[i] in s.results
  {
    ListedMembers(Ready(s), |s.tasks|);
    forall i | 0 <= i < |batch| ensures batch[i] in s.pending && batch[i] in s.results { assert batch[i] in batch; }
  }

  /** Taking up a batch, with or without going on in the script. */
  lemma {:induction false} BatchKeeps(cfg: Config, s: State, t: State)
    requires Inv(cfg, s) && s.pc.Idle?
    requires t == s.(script := t.script, batch := t.batch) && t.batch == Listed(Ready(s), |s.tasks|)
    requires t.script == s.script || (|s.script| > 1 && t.script == s.script[1..])
    ensures Inv(cfg, t)
  {
    ListedReady(s, t.batch);
    assert PoolInv(cfg, t) && PendingInv(cfg, t) && OrderInv(t);
  }

  lemma {:induction false} AdvancePollKeeps(cfg: Config, s: State)
    requires Inv(cfg, s) && Enabled(cfg, s, Advance) && s.script[0].Poll?
    ensures Inv(cfg, Apply(cfg, s, Advance))
  {
    BatchKeeps(cfg, s, Apply(cfg, s, Advance));
  }

  lemma {:induction false} AdvanceOtherKeeps(cfg: Config, s: State)
    requires Inv(cfg, s) && Enabled(cfg, s, Advance) && (s.script[0].BeginCode? || s.script[0].Barrier?)
    ensures Inv(cfg, Apply(cfg, s, Advance))
  {
    var t := Apply(cfg, s, Advance);
    assert forall i :: 0 <= i < |t.script| ==> t.script[i] == s.script[i + 1];
    assert PoolInv(cfg, t) && PendingInv(cfg, t) && OrderInv(t);
  }

  lemma {:induction false} WaitKeeps(cfg: Config, s: State)
    requires Inv(cfg, s) && Enabled(cfg, s, Wait)
    ensures Inv(cfg, Apply(cfg, s, Wait))
  {
    BatchKeeps(cfg, s, Apply(cfg, s, Wait));
  }

  lemma {:induction false} CollectKeepsOrder(cfg: Config, s: State)
    requires MainInv(cfg, s) && OrderInv(s) && PendingInv(cfg, s) && Enabled(cfg, s, Collect)
    ensures OrderInv(Apply(cfg, s, Collect))
  {
    assert s.batch[0] in s.pending;
  }

  lemma {:induction false} CollectKeepsMain(cfg: Config, s: State)
    requires MainInv(cfg, s) && PendingInv(cfg, s) && TaskInv(s) && Enabled(cfg, s, Collect)
    ensures MainInv(cfg, Apply(cfg, s, Collect)) && PendingInv(cfg, Apply(cfg, s, Collect))
  {
    var t, n := Apply(cfg, s, Collect), s.batch[0];
    assert n in s.pending && n in s.results;
    assert |t.pending| == |s.pending| - 1;
    assert forall i :: 0 <= i < |t.batch| ==> t.batch[i] == s.batch[i + 1];
  }

  lemma {:induction false} CollectKeeps(cfg: Config, s: State)
    requires Inv(cfg, s) && Enabled(cfg, s, Collect)
    ensures Inv(cfg, Apply(cfg, s, Collect))
  {
    CollectKeepsOrder(cfg, s);
    CollectKeepsMain(cfg, s);
  }

  lemma {:induction false} DispatchKeepsMain(cfg: Config, s: State)
    requires MainInv(cfg, s) && Enabled(cfg, s, Dispatch)
    ensures MainInv(cfg, Apply(cfg, s, Dispatch))
  {
  }

  lemma {:induction false} DispatchKeeps(cfg: Config, s: State)
    requires Inv(cfg, s) && Enabled(cfg, s, Dispatch)
    ensures Inv(cfg, Apply(cfg, s, Dispatch))
  {
    var rest, t := s.(pc := Collecting(s.pc.requests[1..])), Refetch(s.pc.requests[0]);
    assert PoolInv(cfg, rest) && PendingInv(cfg, rest) && OrderInv(rest) && TaskInv(rest);
    SubmitKeeps(cfg, rest, t);
    SubmitKeepsOrder(cfg, rest, t);
    RefetchKeepsTasks(cfg, rest, t);
    DispatchKeepsMain(cfg, s);
  }

  lemma {:induction false} RefetchKeepsTasks(cfg: Config, s: State, t: Task)
    requires PoolInv(cfg, s) && TaskInv(s) && t.Refetch?
    ensures TaskInv(Submit(s, t))
  {
  }

  /** The flush loop hands out exactly the run of consecutive completed results. */
  lemma {:induction false} FlushKeepsOrder(s: State)
    requires OrderInv(s.(pc := Collecting([])))
    ensures var (completed, next, records) := FlushFrom(s.completed, s.nextRecord, s.runRecords);
      OrderInv(s.(completed := completed, nextRecord := next, runRecords := records, pc := Idle))
    decreases s.completed.Keys
  {
    if s.nextRecord in s.completed {
      var n := s.nextRecord;
      var t := s.(completed := s.completed - {n}, nextRecord := n + 1,
                  runRecords := s.runRecords + s.completed[n].records);
      assert OrderInv(t.(pc := Collecting([])));
      FlushKeepsOrder(t);
    }
  }

  lemma {:induction false} FlushKeeps(cfg: Config, s: State)
    requires Inv(cfg, s) && Enabled(cfg, s, Flush)
    ensures Inv(cfg, Apply(cfg, s, Flush))
  {
    FlushKeepsOrder(s);
  }

  lemma {:induction false} HeadAndTail(queue: seq<nat>)
    requires queue != []
    ensures forall n :: n in queue <==> n == queue[0] || n in queue[1..]
    ensures forall i :: 0 <= i < |queue[1..]| ==> queue[1..][i] == queue[i + 1]
  {
    assert queue == [queue[0]] + queue[1..];
  }

  lemma {:induction false} StartKeepsPool(cfg: Config, s: State)
    requires PoolInv(cfg, s) && s.queue != [] && |s.running| < cfg.workers
    ensures PoolInv(cfg, s.(queue := s.queue[1..], running := s.running + {s.queue[0]}))
  {
    HeadAndTail(s.queue);
    var queue, running := s.queue[1..], s.running + {s.queue[0]};
    forall r, i | r in running && 0 <= i < |queue| ensures r < queue[i] {
      assert queue[i] == s.queue[i + 1];
      if r != s.queue[0] { assert r in s.running; }
    }
  }

  lemma {:induction false} StartKeeps(cfg: Config, s: State)
    requires Inv(cfg, s) && Enabled(cfg, s, StartTask)
    ensures Inv(cfg, Apply(cfg, s, StartTask))
  {
    StartKeepsPool(cfg, s);
  }

  lemma {:induction false} ExecuteRequests(cfg: Config, w: WorkerState, t: Task, e: Environment)
    requires t.Daily? ==> Distinct(t.plans)
    ensures |Execute(cfg, w, t, e).0.requests| <= 1
    ensures !t.Daily? ==> Execute(cfg, w, t, e).0.requests == []
  {
    if t.Daily? { InitialAccounts(t.code, t.plans, FactorOf(w, t.code), e.conditions, t.code, ""); }
  }

  lemma {:induction false} FlattenedSame(a: map<nat, TaskResult>, b: map<nat, TaskResult>, n: nat)
    requires forall k: nat :: k < n ==> (k in a <==> k in b) && (k in a ==> a[k] == b[k])
    ensures Flattened(a, n) == Flattened(b, n)
  {
    if n > 0 { FlattenedSame(a, b, n - 1); }
  }

  lemma {:induction false} FinishKeepsPool(cfg: Config, s: State, n: nat, r: TaskResult)
    requires PoolInv(cfg, s) && PendingInv(cfg, s) && n in s.running
    ensures var t := s.(running := s.running - {n}, results := s.results[n := r]);
      PoolInv(cfg, t) && PendingInv(cfg, t)
  {
    var t := s.(running := s.running - {n}, results := s.results[n := r]);
    assert |t.running| == |s.running| - 1;
  }

  lemma {:induction false} FinishKeepsOrder(cfg: Config, s: State, n: nat, r: TaskResult)
    requires PoolInv(cfg, s) && PendingInv(cfg, s) && OrderInv(s) && n in s.running
    ensures OrderInv(s.(running := s.running - {n}, results := s.results[n := r]))
  {
    var results := s.results[n := r];
    assert n !in s.results && n in s.pending;
    FlattenedSame(s.results, results, s.nextRecord);
  }

  lemma {:induction false} FinishKeepsMain(cfg: Config, s: State, n: nat, r: TaskResult)
    requires PoolInv(cfg, s) && MainInv(cfg, s) && TaskInv(s) && n in s.running
    requires |r.requests| <= 1 && (!s.tasks[n].Daily? ==> r.requests == [])
    ensures var t := s.(running := s.running - {n}, results := s.results[n := r]);
      MainInv(cfg, t) && TaskInv(t)
  {
  }

  lemma {:induction false} FinishKeeps(cfg: Config, s: State, n: nat, e: Environment)
    requires Inv(cfg, s) && Enabled(cfg, s, Finish(n, e))
    ensures Inv(cfg, Apply(cfg, s, Finish(n, e)))
  {
    var (r, w) := Execute(cfg, s.worker, s.tasks[n], e);
    var t := s.(running := s.running - {n}, results := s.results[n := r]);
    ExecuteRequests(cfg, s.worker, s.tasks[n], e);
    FinishKeepsPool(cfg, s, n, r);
    FinishKeepsOrder(cfg, s, n, r);
    FinishKeepsMain(cfg, s, n, r);
    assert Apply(cfg, s, Finish(n, e)) == t.(worker := w);
    WorkerIrrelevant(cfg, t, w);
  }

  lemma {:induction false} WorkerIrrelevant(cfg: Config, s: State, w: WorkerState)
    requires Inv(cfg, s)
    ensures Inv(cfg, s.(worker := w))
  {
  }

  lemma {:induction false} StepKeeps(cfg: Config, s: State, l: Label)
    requires Inv(cfg, s) && Enabled(cfg, s, l)
    ensures Inv(cfg, Apply(cfg, s, l))
  {
    match l
    case Advance =>
      if TaskOf(s, s.script[0]).Some? { AdvanceSubmitKeeps(cfg, s); }
      else if s.script[0].Poll? { AdvancePollKeeps(cfg, s); }
      else { AdvanceOtherKeeps(cfg, s); }
    case Wait => WaitKeeps(cfg, s);
    case Collect => CollectKeeps(cfg, s);
    case Dispatch => DispatchKeeps(cfg, s);
    case Flush => FlushKeeps(cfg, s);
    case StartTask => StartKeeps(cfg, s);
    case Finish(n, e) => FinishKeeps(cfg, s, n, e);
  }

  // ---------------------------------------------------------------- deadlock freedom

  /** The script is done; by the invariant nothing is then pending. */
  predicate Terminal(s: State) { s.script == [] && s.pc.Idle? && s.batch == [] }

  /** Some worker step is possible whenever a pending task is unfinished. */
  lemma {:induction false} PoolProgress(cfg: Config, s: State, e: Environment)
    requires Inv(cfg, s) && exists n :: n in s.pending && n !in s.results
    ensures Enabled(cfg, s, StartTask) || exists n :: n in s.running && Enabled(cfg, s, Finish(n, e))
  {
    var least := LeastUnfinished(cfg, s, |s.tasks|);
    if least in s.running {
      assert Enabled(cfg, s, Finish(least, e));
    } else {
      assert least in s.queue;
      var i :| 0 <= i < |s.queue| && s.queue[i] == least;
      assert forall r :: r in s.running ==> r !in s.results && r < s.queue[i];
      assert s.running == {};
    }
  }

  /** The unfinished task that was submitted first. */
  ghost function LeastUnfinished(cfg: Config, s: State, n: nat): (least: nat)
    requires Inv(cfg, s) && n <= |s.tasks|
    requires exists k: nat :: k < n && k !in s.results
    ensures least < n && least !in s.results
    ensures forall k: nat :: k < least ==> k in s.results
  {
    if exists k: nat :: k < n - 1 && k !in s.results then LeastUnfinished(cfg, s, n - 1) else n - 1
  }

  /** Deadlock freedom: before the end, some step is always possible, whatever blocks. */
  lemma {:induction false} DeadlockFree(cfg: Config, s: State, e: Environment)
    requires Inv(cfg, s) && !Terminal(s)
    ensures exists l :: Enabled(cfg, s, l)
  {
    if s.pc.Collecting? {
      if s.pc.requests == [] { assert Enabled(cfg, s, Flush); } else { assert Enabled(cfg, s, Dispatch); }
    } else if s.batch != [] {
      assert Enabled(cfg, s, Collect);
    } else if !MustDrain(cfg, s) {
      assert Enabled(cfg, s, Advance);
    } else if Ready(s) != {} {
      assert Enabled(cfg, s, Wait);
    } else {
      assert s.pending != {};
      var n :| n in s.pending;
      assert n !in Ready(s);
      PoolProgress(cfg, s, e);
      if !Enabled(cfg, s, StartTask) {
        var m :| m in s.running && Enabled(cfg, s, Finish(m, e));
      }
    }
  }

  // ---------------------------------------------------------------- termination

  ghost function DailyActions(script: seq<Action>): nat {
    if script == [] then 0 else DailyActions(script[1..]) + (if script[0].SubmitDaily? then 1 else 0)
  }

  ghost function DailyPending(s: State): set<nat> {
    set n | n in s.pending && n < |s.tasks| && s.tasks[n].Daily?
  }

  /** Daily tasks whose request, if any, is still to be dispatched. */
  ghost function MayRequest(s: State): nat {
    DailyActions(s.script) + |DailyPending(s)| + (if s.pc.Collecting? then |s.pc.requests| else 0)
  }

  ghost function Rank(s: State): (nat, nat, nat, nat, nat, nat, nat) {
    (MayRequest(s), |s.script|, |s.queue|, |s.running|, |s.pending|,
     if s.batch == [] then 1 else 0, if s.pc.Collecting? then 1 else 0)
  }

  predicate Less(a: (nat, nat, nat, nat, nat, nat, nat), b: (nat, nat, nat, nat, nat, nat, nat)) {
    a.0 < b.0 || (a.0 == b.0 && (a.1 < b.1 || (a.1 == b.1 && (a.2 < b.2 || (a.2 == b.2 && (a.3 < b.3 || (a.3 == b.3
    && (a.4 < b.4 || (a.4 == b.4 && (a.5 < b.5 || (a.5 == b.5 && a.6 < b.6)))))))))))
  }

  lemma {:induction false} SubmitDailyPending(cfg: Config, s: State, t: Task)
    requires PendingInv(cfg, s)
    ensures |DailyPending(Submit(s, t))| == |DailyPending(s)| + (if t.Daily? then 1 else 0)
  {
    var u := Submit(s, t);
    if t.Daily? {
      assert DailyPending(u) == DailyPending(s) + {|s.tasks|};
    } else {
      assert DailyPending(u) == DailyPending(s);
    }
  }

  lemma {:induction false} QuietAdvanceDescends(cfg: Config, s: State)
    requires Enabled(cfg, s, Advance) && TaskOf(s, s.script[0]).None?
    ensures Less(Rank(Apply(cfg, s, Advance)), Rank(s))
  {
    var u := Apply(cfg, s, Advance);
    assert u.script == s.script[1..] && u.pending == s.pending && u.tasks == s.tasks && u.pc == s.pc;
    assert DailyPending(u) == DailyPending(s);
  }

  lemma {:induction false} SubmitDescends(cfg: Config, s: State, rest: State, t: Task)
    requires PendingInv(cfg, s) && s.script != [] && TaskOf(s, s.script[0]) == Some(t)
    requires rest.script == s.script[1..] && rest.pending == s.pending && rest.tasks == s.tasks
    requires rest.results == s.results && rest.pc == s.pc
    ensures Less(Rank(Submit(rest, t)), Rank(s))
  {
    assert DailyPending(rest) == DailyPending(s);
    SubmitDailyPending(cfg, rest, t);
    assert t.Daily? <==> s.script[0].SubmitDaily?;
  }

  lemma {:induction false} AdvanceDescends(cfg: Config, s: State)
    requires PendingInv(cfg, s) && Enabled(cfg, s, Advance)
    ensures Less(Rank(Apply(cfg, s, Advance)), Rank(s))
  {
    if TaskOf(s, s.script[0]).Some? {
      var rest, t := SubmitShape(cfg, s);
      SubmitDescends(cfg, s, rest, t);
    } else {
      QuietAdvanceDescends(cfg, s);
    }
  }

  lemma {:induction false} WaitDescends(cfg: Config, s: State)
    requires Inv(cfg, s) && Enabled(cfg, s, Wait)
    ensures Less(Rank(Apply(cfg, s, Wait)), Rank(s))
  {
    ListedMembers(Ready(s), |s.tasks|);
    var n :| n in Ready(s);
    assert n in Listed(Ready(s), |s.tasks|);
    assert DailyPending(Apply(cfg, s, Wait)) == DailyPending(s);
  }

  lemma {:induction false} CollectDescends(cfg: Config, s: State)
    requires Inv(cfg, s) && Enabled(cfg, s, Collect)
    ensures Less(Rank(Apply(cfg, s, Collect)), Rank(s))
  {
    var t, n := Apply(cfg, s, Collect), s.batch[0];
    assert n in s.pending && n in s.results && |t.pending| == |s.pending| - 1;
    if s.tasks[n].Daily? {
      assert DailyPending(t) == DailyPending(s) - {n};
      assert |DailyPending(t)| == |DailyPending(s)| - 1;
    } else {
      assert DailyPending(t) == DailyPending(s);
    }
  }

  lemma {:induction false} DispatchDescends(cfg: Config, s: State)
    requires Inv(cfg, s) && Enabled(cfg, s, Dispatch)
    ensures Less(Rank(Apply(cfg, s, Dispatch)), Rank(s))
  {
    var rest := s.(pc := Collecting(s.pc.requests[1..]));
    assert DailyPending(rest) == DailyPending(s);
    SubmitDailyPending(cfg, rest, Refetch(s.pc.requests[0]));
  }

  /** A step that leaves script, tasks, pending tasks and requests alone. */
  lemma {:induction false} SameMayRequest(s: State, t: State)
    requires t.script == s.script && t.tasks == s.tasks && t.pending == s.pending && t.pc == s.pc
    ensures MayRequest(t) == MayRequest(s)
  {
    assert DailyPending(t) == DailyPending(s);
  }

  lemma {:induction false} StartDescends(cfg: Config, s: State)
    requires Enabled(cfg, s, StartTask)
    ensures Less(Rank(Apply(cfg, s, StartTask)), Rank(s))
  {
    SameMayRequest(s, Apply(cfg, s, StartTask));
  }

  lemma {:induction false} FinishDescends(cfg: Config, s: State, n: nat, e: Environment)
    requires Enabled(cfg, s, Finish(n, e))
    ensures Less(Rank(Apply(cfg, s, Finish(n, e))), Rank(s))
  {
    var t := Apply(cfg, s, Finish(n, e));
    SameMayRequest(s, t);
    assert |t.running| == |s.running| - 1;
  }

  lemma {:induction false} FlushDescends(cfg: Config, s: State)
    requires Enabled(cfg, s, Flush)
    ensures Less(Rank(Apply(cfg, s, Flush)), Rank(s))
  {
    assert DailyPending(Apply(cfg, s, Flush)) == DailyPending(s);
  }

  /** Every step goes down in a well-founded order. */
  lemma {:induction false} StepDescends(cfg: Config, s: State, l: Label)
    requires Inv(cfg, s) && Enabled(cfg, s, l)
    ensures Less(Rank(Apply(cfg, s, l)), Rank(s))
  {
    match l
    case Advance => AdvanceDescends(cfg, s);
    case Wait => WaitDescends(cfg, s);
    case Collect => CollectDescends(cfg, s);
    case Dispatch => DispatchDescends(cfg, s);
    case Flush => FlushDescends(cfg, s);
    case StartTask => StartDescends(cfg, s);
    case Finish(n, e) => FinishDescends(cfg, s, n, e);
  }

  // ---------------------------------------------------------------- whole runs

  /** A scheduler names the next step; it may look at the state and at how many steps were taken. */
  type Scheduler = (State, nat) -> Label

  ghost predicate Obliging(cfg: Config, choose: Scheduler) {
    forall s, i :: Inv(cfg, s) && !Terminal(s) ==> Enabled(cfg, s, choose(s, i))
  }

  ghost function AnyStep(cfg: Config, s: State): Label {
    if exists l :: Enabled(cfg, s, l) then (var l :| Enabled(cfg, s, l); l) else Wait
  }

  /** There is a scheduler that never gets stuck. */
  lemma {:induction false} ObligingExists(cfg: Config, e: Environment) returns (choose: Scheduler)
    ensures Obliging(cfg, choose)
  {
    choose := (s, i) => AnyStep(cfg, s);
    forall s | Inv(cfg, s) && !Terminal(s) { DeadlockFree(cfg, s, e); }
  }

  /** The end of a run: every run has one. */
  ghost function RunToEnd(cfg: Config, s: State, choose: Scheduler, steps: nat): (end: State)
    requires Inv(cfg, s) && Obliging(cfg, choose)
    ensures Inv(cfg, end) && Terminal(end)
    decreases Rank(s).0, Rank(s).1, Rank(s).2, Rank(s).3, Rank(s).4, Rank(s).5, Rank(s).6
  {
    if Terminal(s) then s
    else
      StepKeeps(cfg, s, choose(s, steps));
      StepDescends(cfg, s, choose(s, steps));
      RunToEnd(cfg, Apply(cfg, s, choose(s, steps)), choose, steps + 1)
  }

  /** At the end every submitted task has its result, and the records of all results stand in
      submission order, each once. */
  lemma {:induction false} EndIsFlushed(cfg: Config, s: State)
    requires Inv(cfg, s) && Terminal(s)
    ensures s.pending == {} && s.completed == map[] && s.nextRecord == |s.tasks|
    ensures forall n: nat :: n < |s.tasks| ==> n in s.results
    ensures s.runRecords == Flattened(s.results, |s.tasks|)
  {
    assert s.nextRecord < |s.tasks| ==> s.nextRecord in s.completed;
  }

  // ---------------------------------------------------------------- the program

  /** One code of the main loop. */
  datatype Job = Job(code: Code, fetchFactor: bool, existing: Option<FactorState>, plans: seq<Dataset>)

  function JobScript(j: Job): seq<Action> {
    [BeginCode(j.code, j.existing)]
    + (if j.fetchFactor then [SubmitFactor(j.code)] else [])
    + (if j.plans != [] then [SubmitDaily(j.code, j.plans)] else [])
    + [Poll]
  }

  function JobsScript(jobs: seq<Job>): seq<Action> {
    if jobs == [] then [Barrier, SubmitFlush, Barrier] else JobScript(jobs[0]) + JobsScript(jobs[1..])
  }

  function Initially(jobs: seq<Job>): State {
    State(JobsScript(jobs), None, Idle, [], [], {}, [], {}, map[], map[], 0, [], WorkerState(map[], map[]))
  }

  lemma {:induction false} ScriptShape(jobs: seq<Job>)
    requires forall k :: 0 <= k < |jobs| ==> Distinct(jobs[k].plans)
    ensures |JobsScript(jobs)| >= 3 && JobsScript(jobs)[|JobsScript(jobs)| - 1].Barrier?
    ensures forall i :: 0 <= i < |JobsScript(jobs)| && JobsScript(jobs)[i].SubmitDaily? ==>
      Distinct(JobsScript(jobs)[i].plans)
  {
    if jobs != [] {
      ScriptShape(jobs[1..]);
      var head, tail := JobScript(jobs[0]), JobsScript(jobs[1..]);
      assert forall i :: 0 <= i < |head| && head[i].SubmitDaily? ==> head[i].plans == jobs[0].plans;
    }
  }

  lemma {:induction false} InitiallyInv(cfg: Config, jobs: seq<Job>)
    requires cfg.Valid() && forall k :: 0 <= k < |jobs| ==> Distinct(jobs[k].plans)
    ensures Inv(cfg, Initially(jobs))
  {
    ScriptShape(jobs);
  }
  /** The steps lead from the start to the state. */
  ghost predicate Reaches(cfg: Config, jobs: seq<Job>, steps: seq<Label>, s: State) {
    if steps == [] then s == Initially(jobs)
    else
      var earlier, last := steps[..|steps| - 1], steps[|steps| - 1];
      exists u :: Reaches(cfg, jobs, earlier, u) && LeadsTo(cfg, u, last, s)
  }

  ghost predicate LeadsTo(cfg: Config, s: State, l: Label, t: State) { Enabled(cfg, s, l) && t == Apply(cfg, s, l) }

  lemma {:induction false} ReachableKeepsInv(cfg: Config, jobs: seq<Job>, steps: seq<Label>, s: State)
    requires cfg.Valid() && forall k :: 0 <= k < |jobs| ==> Distinct(jobs[k].plans)
    requires Reaches(cfg, jobs, steps, s)
    ensures Inv(cfg, s)
  {
    if steps == [] {
      InitiallyInv(cfg, jobs);
    } else {
      var earlier, last := steps[..|steps| - 1], steps[|steps| - 1];
      var u :| Reaches(cfg, jobs, earlier, u) && LeadsTo(cfg, u, last, s);
      ReachableKeepsInv(cfg, jobs, earlier, u);
      StepKeeps(cfg, u, last);
    }
  }

  /** In every reachable state the pending tasks are within their bound, and below it while a result
      is collected that asks for a task: the submission made there never enters another drain. */
  lemma {:induction false} NoReentrantDrain(cfg: Config, jobs: seq<Job>, steps: seq<Label>, s: State)
    requires cfg.Valid() && forall k :: 0 <= k < |jobs| ==> Distinct(jobs[k].plans)
    requires Reaches(cfg, jobs, steps, s)
    ensures |s.pending| <= cfg.maxPending
    ensures s.pc.Collecting? && s.pc.requests != [] ==> |s.pc.requests| == 1 && |s.pending| < cfg.maxPending
  {
    ReachableKeepsInv(cfg, jobs, steps, s);
  }
}
