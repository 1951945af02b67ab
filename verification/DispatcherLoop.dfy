/** The main thread of the Baostock daily update as the program writes it: nested calls on shared
    variables, between steps of a pool that the threads take when they like. */
module DispatcherLoop {
  import opened Common
  import opened DailyWorker
  import opened Dispatcher
  import opened DispatcherOutcomes
  import opened DispatcherRecords

  /** The invariant of the protocol, with nothing of what the jobs owe lost or added, and every result telling
      how its task went. */
  ghost predicate Good(cfg: Config, jobs: seq<Job>, allowed: Answers, s: State) {
    && RecordInv(cfg, s)
    && Told(cfg, jobs, allowed, s)
    && forall code, dataset :: dataset != METADATA ==> Total(s, Cell(code, dataset)) == Owed(jobs, code, dataset)
  }

  lemma {:induction false} GoodStep(cfg: Config, jobs: seq<Job>, allowed: Answers, s: State, l: Label)
    requires JobsOk(cfg, jobs) && Good(cfg, jobs, allowed, s)
    requires Enabled(cfg, s, l) && (l.Finish? ==> allowed(l.environment))
    ensures Good(cfg, jobs, allowed, Apply(cfg, s, l)) && Less(Rank(Apply(cfg, s, l)), Rank(s))
  {
    StepKeepsRecords(cfg, s, l);
    StepKeepsTold(cfg, jobs, allowed, s, l);
    StepDescends(cfg, s, l);
    forall code, dataset | dataset != METADATA
      ensures Total(Apply(cfg, s, l), Cell(code, dataset)) == Owed(jobs, code, dataset)
    {
      StepKeepsCells(cfg, s, l, code, dataset);
    }
  }

  type Measure = (nat, nat, nat, nat, nat, nat, nat)

  /** What the loops need to know about the states they pass through: every step that meets an allowed
      answer keeps them good and goes down, something can finish while something is unfinished, the next
      collected future is a finished pending one, and a request being dispatched never has to wait. */
  ghost predicate Sound(cfg: Config, good: State -> bool, measure: State -> Measure, allowed: Answers) {
    && cfg.Valid()
    && (forall s, l :: good(s) && Enabled(cfg, s, l) && (l.Finish? ==> allowed(l.environment)) ==>
          good(Apply(cfg, s, l)) && Less(measure(Apply(cfg, s, l)), measure(s)))
    && (forall s :: good(s) ==> Unblocked(cfg, s) && Collectable(cfg, s))
  }

  ghost predicate CanFinish(s: State, n: nat) {
    n in s.running && n < |s.tasks|
    && (s.tasks[n].Daily? && s.tasks[n].factor.Some? ==> s.tasks[n].factor.value in s.results)
  }

  ghost predicate PoolReady(cfg: Config, s: State) {
    (s.queue != [] && |s.running| < cfg.workers) || exists n :: n in s.running && CanFinish(s, n)
  }

  ghost predicate Unblocked(cfg: Config, s: State) {
    (exists n :: n in s.pending && n !in s.results) ==> PoolReady(cfg, s)
  }

  ghost predicate Collectable(cfg: Config, s: State) {
    && (s.batch != [] ==> s.batch[0] in s.pending && s.batch[0] in s.results)
    && (s.pc.Collecting? && s.pc.requests != [] ==> |s.pending| < cfg.maxPending)
    && (forall n :: n in s.pending ==> n < |s.tasks|)
  }

  ghost function GoodFor(cfg: Config, jobs: seq<Job>, allowed: Answers): State -> bool {
    s => Good(cfg, jobs, allowed, s)
  }

  ghost function RankOf(): State -> Measure { s => Rank(s) }

  lemma {:induction false} InvUnblocked(cfg: Config, s: State, e: Environment)
    requires Inv(cfg, s)
    ensures Unblocked(cfg, s)
  {
    if exists n :: n in s.pending && n !in s.results {
      PoolProgress(cfg, s, e);
      ReadyByStep(cfg, s, e);
    }
  }

  lemma {:induction false} ReadyByStep(cfg: Config, s: State, e: Environment)
    requires Enabled(cfg, s, StartTask) || exists n :: n in s.running && Enabled(cfg, s, Finish(n, e))
    ensures PoolReady(cfg, s)
  {
    if !Enabled(cfg, s, StartTask) {
      var n :| n in s.running && Enabled(cfg, s, Finish(n, e));
      assert CanFinish(s, n);
    }
  }

  lemma {:induction false} InvCollectable(cfg: Config, s: State)
    requires MainInv(cfg, s) && PendingInv(cfg, s)
    ensures Collectable(cfg, s)
  {
  }

  /** The protocol's states are such states. */
  lemma {:induction false} ProtocolIsSound(cfg: Config, jobs: seq<Job>, allowed: Answers, e: Environment)
    requires cfg.Valid() && JobsOk(cfg, jobs)
    ensures Sound(cfg, GoodFor(cfg, jobs, allowed), RankOf(), allowed)
  {
    var good, measure := GoodFor(cfg, jobs, allowed), RankOf();
    forall s, l | good(s) && Enabled(cfg, s, l) && (l.Finish? ==> allowed(l.environment))
      ensures good(Apply(cfg, s, l)) && Less(measure(Apply(cfg, s, l)), measure(s))
    {
      GoodStep(cfg, jobs, allowed, s, l);
    }
    forall s | good(s) ensures Unblocked(cfg, s) && Collectable(cfg, s) {
      InvUnblocked(cfg, s, e);
      InvCollectable(cfg, s);
    }
  }

  /** Handing over the task that is due is a step. */
  lemma {:induction false} DueIsStep(cfg: Config, s: State, t: Task)
    requires |s.pending| < cfg.maxPending
    requires if s.pc.Idle? then s.batch == [] && s.script != [] && TaskOf(s, s.script[0]) == Some(t)
             else s.pc.requests != [] && t == Refetch(s.pc.requests[0])
    ensures if s.pc.Idle?
            then Enabled(cfg, s, Advance)
                 && Apply(cfg, s, Advance)
                    == Submit(s.(script := s.script[1..],
                                 factorFuture :=
                                   if s.script[0].SubmitFactor? then Some(|s.tasks|) else s.factorFuture), t)
            else Enabled(cfg, s, Dispatch)
                 && Apply(cfg, s, Dispatch) == Submit(s.(pc := Collecting(s.pc.requests[1..])), t)
  {
    if s.pc.Idle? { var rest, u := SubmitShape(cfg, s); }
  }

  /** The state after the task that is due is handed over. */
  lemma {:induction false} HandedOver(cfg: Config, good: State -> bool, measure: State -> Measure, allowed: Answers,
                                      s: State, t: Task)
    returns (u: State)
    requires Sound(cfg, good, measure, allowed) && good(s) && |s.pending| < cfg.maxPending
    requires if s.pc.Idle? then s.batch == [] && s.script != [] && TaskOf(s, s.script[0]) == Some(t)
             else s.pc.requests != [] && t == Refetch(s.pc.requests[0])
    ensures good(u) && Less(measure(u), measure(s))
    ensures u == s.(tasks := s.tasks + [t], queue := s.queue + [|s.tasks|], pending := s.pending + {|s.tasks|},
                    script := if s.pc.Idle? then s.script[1..] else s.script,
                    factorFuture :=
                      if s.pc.Idle? && s.script[0].SubmitFactor? then Some(|s.tasks|) else s.factorFuture,
                    pc := if s.pc.Idle? then s.pc else Collecting(s.pc.requests[1..]))
  {
    DueIsStep(cfg, s, t);
    u := Apply(cfg, s, if s.pc.Idle? then Advance else Dispatch);
  }

  lemma {:induction false} LessTransitive(a: Measure, b: Measure, c: Measure)
    requires Less(a, b) && (b == c || Less(b, c))
    ensures Less(a, c)
  {
  }

  class UpdateDaily {
    const cfg: Config
    ghost const good: State -> bool
    ghost const allowed: Answers
    ghost const measure: State -> Measure
    const environment: nat -> Environment
    var clock: nat
    // the pool
    var tasks: seq<Task>
    var queue: seq<nat>
    var running: set<nat>
    var results: map<nat, TaskResult>
    var worker: WorkerState
    // the main thread
    var pending: set<nat>
    var completedResults: map<nat, TaskResult>
    var nextRecordSequence: nat
    var runRecords: seq<Record>
    // where the main thread is
    ghost var script: seq<Action>
    ghost var factorFuture: Option<nat>
    ghost var pc: Pc
    ghost var batch: seq<nat>

    ghost function Abstract(): State
      reads this
    {
      State(script, factorFuture, pc, batch, tasks, pending, queue, running, results, completedResults,
            nextRecordSequence, runRecords, worker)
    }

    ghost predicate Valid()
      reads this
    {
      Sound(cfg, good, measure, allowed) && (forall k :: allowed(environment(k))) && good(Abstract())
    }

    ghost function Height(): Measure
      reads this
    {
      measure(Abstract())
    }

    constructor (cfg: Config, jobs: seq<Job>, environment: nat -> Environment, ghost good: State -> bool,
                 ghost measure: State -> Measure, ghost allowed: Answers)
      requires Sound(cfg, good, measure, allowed) && good(Initially(jobs))
      requires forall k :: allowed(environment(k))
      ensures Valid() && Abstract() == Initially(jobs)
      ensures this.cfg == cfg && this.good == good && this.measure == measure && this.allowed == allowed
    {
      this.cfg, this.environment, clock := cfg, environment, 0;
      this.good, this.measure, this.allowed := good, measure, allowed;
      tasks, queue, running, results, worker := [], [], {}, map[], WorkerState(map[], map[]);
      pending, completedResults, nextRecordSequence, runRecords := {}, map[], 0, [];
      script, factorFuture, pc, batch := JobsScript(jobs), None, Idle, [];
    }

    // ---------------------------------------------------------------- pool steps

    /** The thread that runs a task is past every future the task waits for. */
    predicate MayFinish(n: nat)
      reads this
    {
      n in running && n < |tasks|
      && (tasks[n].Daily? && tasks[n].factor.Some? ==> tasks[n].factor.value in results)
    }

    method StartOne()
      requires Valid() && queue != [] && |running| < cfg.workers
      modifies this`queue, this`running
      ensures Valid() && Less(Height(), old(Height()))
    {
      assert Enabled(cfg, Abstract(), StartTask);
      running, queue := running + {queue[0]}, queue[1..];
      assert Abstract() == Apply(cfg, old(Abstract()), StartTask);
    }

    method FinishOne(n: nat, e: Environment)
      requires Valid() && MayFinish(n) && allowed(e)
      modifies this`running, this`results, this`worker
      ensures Valid() && Less(Height(), old(Height()))
    {
      assert Enabled(cfg, Abstract(), Finish(n, e));
      var (result, after) := Execute(cfg, worker, tasks[n], e);
      running, results, worker := running - {n}, results[n := result], after;
      assert Abstract() == Apply(cfg, old(Abstract()), Finish(n, e));
    }

    lemma {:induction false} SomeoneReady()
      requires PoolReady(cfg, Abstract())
      ensures (queue != [] && |running| < cfg.workers) || exists n :: n in running && MayFinish(n)
    {
      ghost var s := Abstract();
      assert s.queue == queue && s.running == running && s.tasks == tasks && s.results == results;
      if !(queue != [] && |running| < cfg.workers) {
        var n :| n in s.running && CanFinish(s, n);
        assert MayFinish(n);
      }
    }

    /** Some thread starts a task or finishes one; which one is anybody's guess. */
    method PoolStep()
      requires Valid() && PoolReady(cfg, Abstract())
      modifies this`queue, this`running, this`results, this`worker, this`clock
      ensures Valid() && Less(Height(), old(Height()))
    {
      var e := environment(clock);
      ghost var s := Abstract();
      SomeoneReady();
      clock := clock + 1;
      assert Abstract() == s;
      if {
        case queue != [] && |running| < cfg.workers =>
          StartOne();
        case exists n :: n in running && MayFinish(n) =>
          var n :| n in running && MayFinish(n);
          FinishOne(n, e);
      }
    }

    /** Any number of pool steps while the main thread is elsewhere. */
    method Interleave()
      requires Valid()
      modifies this`queue, this`running, this`results, this`worker, this`clock
      ensures Valid() && (Height() == old(Height()) || Less(Height(), old(Height())))
    {
      var go := *;
      while go && ((queue != [] && |running| < cfg.workers) || exists n :: n in running && MayFinish(n))
        invariant Valid() && (Height() == old(Height()) || Less(Height(), old(Height())))
        decreases Height().0, Height().1, Height().2, Height().3, Height().4, Height().5, Height().6
      {
        ghost var before := Height();
        PoolStep();
        LessTransitive(Height(), before, old(Height()));
        go := *;
      }
    }

    /** `wait(pending, return_when=FIRST_COMPLETED)` always returns. */
    method WaitFirst()
      requires Valid() && pending != {}
      modifies this`queue, this`running, this`results, this`worker, this`clock
      ensures Valid() && (Height() == old(Height()) || Less(Height(), old(Height())))
      ensures exists n :: n in pending && n in results
    {
      while forall n :: n in pending ==> n !in results
        invariant Valid() && (Height() == old(Height()) || Less(Height(), old(Height())))
        decreases Height().0, Height().1, Height().2, Height().3, Height().4, Height().5, Height().6
      {
        assert Unblocked(cfg, Abstract());
        ghost var before := Height();
        PoolStep();
        LessTransitive(Height(), before, old(Height()));
      }
    }

    // ---------------------------------------------------------------- the nested functions

    /** The task that is due: the next one of the script, or the refetch being dispatched. */
    ghost predicate Due(t: Task)
      reads this
    {
      if pc.Idle? then batch == [] && script != [] && TaskOf(Abstract(), script[0]) == Some(t)
      else pc.requests != [] && t == Refetch(pc.requests[0])
    }

    /** `executor.submit` and its bookkeeping. */
    method Hand(t: Task) returns (future: nat)
      requires Valid() && Due(t) && |pending| < cfg.maxPending
      modifies this`tasks, this`queue, this`pending, this`script, this`factorFuture, this`pc
      ensures Valid() && Less(Height(), old(Height()))
      ensures if old(pc).Idle?
              then pc.Idle? && script == old(script)[1..]
                   && factorFuture == (if old(script)[0].SubmitFactor? then Some(future) else old(factorFuture))
              else pc == Collecting(old(pc).requests[1..]) && script == old(script) && factorFuture == old(factorFuture)
    {
      ghost var u := HandedOver(cfg, good, measure, allowed, Abstract(), t);
      future := |tasks|;
      tasks, queue, pending := tasks + [t], queue + [future], pending + {future};
      if pc.Idle? {
        factorFuture := if script[0].SubmitFactor? then Some(future) else factorFuture;
        script := script[1..];
      } else {
        pc := Collecting(pc.requests[1..]);
      }
      assert Abstract() == u;
    }

    method SubmitBackground(t: Task) returns (future: nat)
      requires Valid() && Due(t)
      modifies this
      ensures Valid() && Less(Height(), old(Height()))
      ensures if old(pc).Idle?
              then pc.Idle? && batch == [] && script == old(script)[1..]
                   && factorFuture == (if old(script)[0].SubmitFactor? then Some(future) else old(factorFuture))
              else pc == Collecting(old(pc).requests[1..]) && batch == old(batch) && script == old(script)
                   && factorFuture == old(factorFuture)
      decreases Height().0, Height().1, Height().2, Height().3, Height().4, Height().5, Height().6, 4
    {
      Interleave();
      while |pending| >= cfg.maxPending
        invariant Valid() && Due(t) && (Height() == old(Height()) || Less(Height(), old(Height())))
        invariant pc == old(pc) && batch == old(batch) && script == old(script) && factorFuture == old(factorFuture)
        decreases Height().0, Height().1, Height().2, Height().3, Height().4, Height().5, Height().6
      {
        ghost var before := Height();
        assert Collectable(cfg, Abstract());
        DrainCompleted(true);
        LessTransitive(Height(), before, old(Height()));
      }
      ghost var before := Height();
      future := Hand(t);
      LessTransitive(Height(), before, old(Height()));
    }

    method DispatchApiRequest(request: Request)
      requires Valid() && pc.Collecting? && pc.requests != [] && pc.requests[0] == request
      modifies this
      ensures Valid() && Less(Height(), old(Height()))
      ensures pc == Collecting(old(pc).requests[1..]) && batch == old(batch) && script == old(script)
      ensures factorFuture == old(factorFuture)
      decreases Height().0, Height().1, Height().2, Height().3, Height().4, Height().5, Height().6, 5
    {
      var future := SubmitBackground(Refetch(request));
    }

    /** The finished futures in the order of their sequence numbers. */
    method SortedBySequence(done: set<nat>) returns (order: seq<nat>)
      ensures order == Listed(done, |tasks|)
    {
      order := [];
      for n := 0 to |tasks|
        invariant order == Listed(done, n)
      {
        if n in done { order := order + [n]; }
      }
    }

    /** Which futures this drain collects. */
    method FinishedNow(block: bool) returns (order: seq<nat>)
      requires Valid() && pc.Idle? && batch == []
      requires if block then MustDrain(cfg, Abstract()) && exists n :: n in pending && n in results
               else script != [] && script[0].Poll?
      modifies this`batch, this`script
      ensures Valid() && Less(Height(), old(Height()))
      ensures batch == order && script == if block then old(script) else old(script)[1..]
    {
      ghost var s, l := Abstract(), if block then Wait else Advance;
      var done := set n | n in pending && n in results;
      order := SortedBySequence(done);
      assert done == Ready(s);
      if block {
        ghost var n :| n in pending && n in results;
        assert n in Ready(s);
      }
      assert Enabled(cfg, s, l);
      batch := order;
      if !block { script := script[1..]; }
      assert Abstract() == Apply(cfg, s, l);
    }

    method DrainCompleted(block: bool)
      requires Valid() && pc.Idle? && batch == []
      requires if block then MustDrain(cfg, Abstract()) else script != [] && script[0].Poll?
      modifies this
      ensures Valid() && Less(Height(), old(Height()))
      ensures pc.Idle? && batch == [] && factorFuture == old(factorFuture)
      ensures script == if block then old(script) else old(script)[1..]
      decreases Height().0, Height().1, Height().2, Height().3, Height().4, Height().5, Height().6, 3
    {
      if block { WaitFirst(); } else { Interleave(); }
      ghost var waited := Height();
      var order := FinishedNow(block);
      LessTransitive(Height(), waited, old(Height()));
      ghost var before := Height();
      CollectAll(order);
      LessTransitive(before, waited, old(Height()));
      if Height() != before { LessTransitive(Height(), before, old(Height())); }
    }

    /** The loop over the finished futures. */
    method CollectAll(order: seq<nat>)
      requires Valid() && pc.Idle? && batch == order
      modifies this
      ensures Valid() && (Height() == old(Height()) || Less(Height(), old(Height())))
      ensures pc.Idle? && batch == [] && factorFuture == old(factorFuture) && script == old(script)
      decreases Height().0, Height().1, Height().2, Height().3, Height().4, Height().5, Height().6, 3
    {
      for i := 0 to |order|
        invariant Valid() && (Height() == old(Height()) || Less(Height(), old(Height())))
        invariant pc.Idle? && batch == order[i..] && factorFuture == old(factorFuture) && script == old(script)
      {
        ghost var start := Height();
        Interleave();
        ghost var before := Height();
        CollectCompleted(order[i]);
        LessTransitive(Height(), before, start);
        LessTransitive(Height(), start, old(Height()));
      }
    }

    method CollectCompleted(n: nat)
      requires Valid() && pc.Idle? && batch != [] && batch[0] == n
      modifies this
      ensures Valid() && Less(Height(), old(Height()))
      ensures pc.Idle? && batch == old(batch)[1..] && script == old(script) && factorFuture == old(factorFuture)
      decreases Height().0, Height().1, Height().2, Height().3, Height().4, Height().5, Height().6, 2
    {
      ghost var s := Abstract();
      assert s.batch[0] in s.pending && s.batch[0] in s.results;
      assert Enabled(cfg, s, Collect);
      var result := results[n];
      pending := pending - {n};
      completedResults := completedResults[n := result];
      batch, pc := batch[1..], Collecting(result.requests);
      assert Abstract() == Apply(cfg, s, Collect);
      for k := 0 to |result.requests|
        invariant Valid() && Less(Height(), measure(s))
        invariant pc == Collecting(result.requests[k..]) && batch == old(batch)[1..]
        invariant script == old(script) && factorFuture == old(factorFuture)
      {
        DispatchApiRequest(result.requests[k]);
      }
      FlushOrderedRunRecords();
    }

    method FlushOrderedRunRecords()
      requires Valid() && pc == Collecting([])
      modifies this`completedResults, this`nextRecordSequence, this`runRecords, this`pc
      ensures Valid() && Less(Height(), old(Height())) && pc == Idle
    {
      ghost var s := Abstract();
      assert Enabled(cfg, s, Flush);
      while nextRecordSequence in completedResults
        invariant FlushFrom(completedResults, nextRecordSequence, runRecords)
               == FlushFrom(s.completed, s.nextRecord, s.runRecords)
        decreases completedResults.Keys
      {
        var result := completedResults[nextRecordSequence];
        completedResults := completedResults - {nextRecordSequence};
        runRecords := runRecords + result.records;
        nextRecordSequence := nextRecordSequence + 1;
      }
      pc := Idle;
      assert Abstract() == Apply(cfg, s, Flush);
    }

    // ---------------------------------------------------------------- the program

    /** The start of a code's turn: no factor future yet, and stored factors if none are fetched. */
    method BeginJob(code: Code, existing: Option<FactorState>)
      requires Valid() && pc.Idle? && batch == [] && script != [] && script[0] == BeginCode(code, existing)
      modifies this`worker, this`script, this`factorFuture
      ensures Valid() && script == old(script)[1..] && factorFuture == None
    {
      ghost var s := Abstract();
      assert Enabled(cfg, s, Advance);
      if existing.Some? { worker := worker.(factors := worker.factors[code := existing.value]); }
      script, factorFuture := script[1..], None;
      assert Abstract() == Apply(cfg, s, Advance);
    }

    method RunJob(job: Job, ghost rest: seq<Action>)
      requires Valid() && pc.Idle? && batch == [] && script == JobScript(job) + rest
      modifies this
      ensures Valid() && pc.Idle? && batch == [] && script == rest
    {
      ghost var afterDaily := [Poll] + rest;
      ghost var afterFactor := (if job.plans != [] then [SubmitDaily(job.code, job.plans)] else []) + afterDaily;
      assert script[1..] == (if job.fetchFactor then [SubmitFactor(job.code)] else []) + afterFactor;
      BeginJob(job.code, job.existing);
      var future := None;
      if job.fetchFactor {
        var submitted := SubmitBackground(Factor(job.code));
        future := Some(submitted);
      }
      assert script == afterFactor;
      if job.plans != [] {
        var _ := SubmitBackground(Daily(job.code, job.plans, future));
      }
      assert script == afterDaily;
      DrainCompleted(false);
    }

    /** `while pending: drain_completed(block=True)`. */
    method DrainAll(ghost rest: seq<Action>)
      requires Valid() && pc.Idle? && batch == [] && script == [Barrier] + rest
      modifies this
      ensures Valid() && pc.Idle? && batch == [] && script == rest && pending == {}
    {
      while pending != {}
        invariant Valid() && pc.Idle? && batch == [] && script == [Barrier] + rest
        decreases Height().0, Height().1, Height().2, Height().3, Height().4, Height().5, Height().6
      {
        DrainCompleted(true);
      }
      ghost var s := Abstract();
      assert Enabled(cfg, s, Advance);
      script := script[1..];
      assert Abstract() == Apply(cfg, s, Advance);
    }

    /** The body of the executor block. */
    method MainThread(jobs: seq<Job>)
      requires Valid() && Abstract() == Initially(jobs)
      modifies this
      ensures Valid() && Terminal(Abstract())
    {
      assert jobs[0..] == jobs;
      for k := 0 to |jobs|
        invariant Valid() && pc.Idle? && batch == [] && script == JobsScript(jobs[k..])
      {
        assert jobs[k..][0] == jobs[k] && jobs[k..][1..] == jobs[k + 1..];
        RunJob(jobs[k], JobsScript(jobs[k + 1..]));
      }
      assert jobs[|jobs|..] == [];
      assert script == [Barrier] + [SubmitFlush, Barrier];
      DrainAll([SubmitFlush, Barrier]);
      var _ := SubmitBackground(FlushMetadata);
      assert script == [Barrier] + [];
      DrainAll([]);
    }
  }

  lemma {:induction false} InitiallyGood(cfg: Config, jobs: seq<Job>, allowed: Answers)
    requires cfg.Valid() && JobsOk(cfg, jobs)
    ensures Good(cfg, jobs, allowed, Initially(jobs))
  {
    InitiallyRecords(cfg, jobs);
    InitiallyTold(cfg, jobs, allowed);
  }

  /** The records are exactly what the jobs owe, apart from those about the metadata flush. */
  ghost predicate RecordsAsOwed(jobs: seq<Job>, records: seq<Record>) {
    forall code, dataset :: dataset != METADATA ==> RecordCount(records, code, dataset) == Owed(jobs, code, dataset)
  }

  lemma {:induction false} GoodEnd(cfg: Config, jobs: seq<Job>, allowed: Answers, s: State) returns (met: Met)
    requires Good(cfg, jobs, allowed, s) && Terminal(s)
    ensures s.worker == WorkerState(map[], map[]) && s.pending == {} && s.completed == map[]
    ensures s.runRecords == Flattened(s.results, |s.tasks|)
    ensures RecordsAsOwed(jobs, s.runRecords)
    ensures AllMet(s.tasks, met) && RunTold(cfg.retain, jobs, allowed, s.tasks, met, s.runRecords)
  {
    met := RecordsTold(cfg, jobs, allowed, s);
    EndIsFlushed(cfg, s);
    NothingKept(cfg, s);
    forall code, dataset | dataset != METADATA
      ensures RecordCount(s.runRecords, code, dataset) == Owed(jobs, code, dataset)
    {
      FlattenedShares(s, |s.tasks|, code, dataset);
    }
  }

  /** Every task met an answer. */
  ghost predicate AllMet(tasks: seq<Task>, met: Met) { forall n :: 0 <= n < |tasks| ==> n in met }

  /** The answers that the outside gives at some time. */
  ghost function AnswersOf(environment: nat -> Environment): Answers {
    e => exists k :: e == environment(k)
  }

  /** The whole update, on its own variables and whatever the pool does in between: it ends, its run records
      hold exactly what the jobs owe, and for some answer to each of its tasks every record tells the answers
      that the tasks of its code met. */
  method RunUpdateDaily(cfg: Config, jobs: seq<Job>, environment: nat -> Environment)
    returns (runRecords: seq<Record>, ghost tasks: seq<Task>, ghost met: Met)
    requires cfg.Valid() && JobsOk(cfg, jobs)
    ensures RecordsAsOwed(jobs, runRecords)
    ensures AllMet(tasks, met) && RunTold(cfg.retain, jobs, AnswersOf(environment), tasks, met, runRecords)
  {
    ghost var allowed := AnswersOf(environment);
    ProtocolIsSound(cfg, jobs, allowed, environment(0));
    InitiallyGood(cfg, jobs, allowed);
    var u := new UpdateDaily(cfg, jobs, environment, GoodFor(cfg, jobs, allowed), RankOf(), allowed);
    u.MainThread(jobs);
    met := GoodEnd(cfg, jobs, allowed, u.Abstract());
    runRecords, tasks := u.runRecords, u.tasks;
  }
}
