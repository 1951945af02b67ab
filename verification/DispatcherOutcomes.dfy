/** What the run records of the Baostock daily update say, for every interleaving: each one tells how the
    tasks of its code went. */
module DispatcherOutcomes {
  import opened Common
  import opened DailyWorker
  import opened Dispatcher
  import opened DispatcherRecords

  /** What the outside may answer. */
  type Answers = Environment -> bool

  /** The answer that each finished task met. */
  type Met = map<nat, Environment>

  // ---------------------------------------------------------------- where things come from

  ghost predicate PlannedFor(jobs: seq<Job>, code: Code, plans: seq<Dataset>) {
    exists k :: 0 <= k < |jobs| && jobs[k].code == code && jobs[k].plans == plans
  }

  ghost predicate FetchedFor(jobs: seq<Job>, code: Code) {
    exists k :: 0 <= k < |jobs| && jobs[k].code == code && jobs[k].fetchFactor
  }

  ghost predicate BegunFor(jobs: seq<Job>, code: Code, existing: Option<FactorState>) {
    exists k :: 0 <= k < |jobs| && jobs[k].code == code && jobs[k].existing == existing
  }

  ghost predicate ActionFrom(jobs: seq<Job>, a: Action) {
    && (a.SubmitDaily? ==> PlannedFor(jobs, a.code, a.plans))
    && (a.SubmitFactor? ==> FetchedFor(jobs, a.code))
    && (a.BeginCode? ==> BegunFor(jobs, a.code, a.existing))
  }

  /** Some result asks for it. */
  ghost predicate Asked(results: map<nat, TaskResult>, q: Request) {
    exists n :: n in results && q in results[n].requests
  }

  ghost predicate TaskFrom(jobs: seq<Job>, results: map<nat, TaskResult>, t: Task) {
    match t
    case Factor(code) => FetchedFor(jobs, code)
    case Daily(code, plans, _) => PlannedFor(jobs, code, plans)
    case Refetch(q) => Asked(results, q)
    case FlushMetadata => true
  }

  // ---------------------------------------------------------------- which factors

  ghost predicate FactorTaskAt(tasks: seq<Task>, m: nat, code: Code) {
    m < |tasks| && tasks[m] == Factor(code)
  }

  /** A code has one factor task and one daily task at most. */
  ghost predicate OneEach(tasks: seq<Task>) {
    && (forall m: nat, n: nat, c :: FactorTaskAt(tasks, m, c) && FactorTaskAt(tasks, n, c) ==> m == n)
    && (forall m: nat, n: nat, c :: DailyTaskAt(tasks, m, c) && DailyTaskAt(tasks, n, c) ==> m == n)
  }

  ghost predicate DailyTaskAt(tasks: seq<Task>, n: nat, code: Code) {
    n < |tasks| && tasks[n].Daily? && tasks[n].code == code
  }

  /** What a factor task leaves: the fetched or the stored frame, and an error if there is neither. */
  ghost predicate LeftBy(e: Environment, factor: FactorState) {
    factor.frame == e.frame && (factor.error <==> !e.ok && e.noFrame)
  }

  /** What the job of a code brings along: the stored factors, or none. */
  ghost predicate Given(jobs: seq<Job>, code: Code, factor: FactorState) {
    && (forall k :: 0 <= k < |jobs| && jobs[k].code == code && jobs[k].existing.Some? ==>
          jobs[k].existing.value == factor)
    && ((forall k :: 0 <= k < |jobs| && jobs[k].code == code ==> jobs[k].existing.None?) ==>
          factor == FactorState(0, false))
  }

  ghost predicate FactorMet(tasks: seq<Task>, met: Met, code: Code) {
    exists m :: m in met && FactorTaskAt(tasks, m, code)
  }

  /** The factors that the daily task of a code works with: those that its factor task left, if they are
      kept and there is one; else the given ones. */
  ghost predicate WorksWith(retain: bool, jobs: seq<Job>, tasks: seq<Task>, met: Met, code: Code, factor: FactorState) {
    if retain && FactorMet(tasks, met, code)
    then forall m :: m in met && FactorTaskAt(tasks, m, code) ==> LeftBy(met[m], factor)
    else Given(jobs, code, factor)
  }

  // ---------------------------------------------------------------- what a result tells

  /** A record of a task that met this answer, with these factors. */
  ghost predicate Tells(t: Task, e: Environment, factor: FactorState, r: Record) {
    match t
    case Factor(code) => r == Record("baostock_cn_stock_adjustment_factor", code, e.ok)
    case Daily(code, plans, _) =>
      r.code == code && r.dataset in plans && (r.ok <==> InitialOk(plans, factor, e.conditions, r.dataset))
    case Refetch(q) => r.code == q.code && r.dataset in q.datasets && (r.ok <==> RefetchOk(e.conditions, r.dataset))
    case FlushMetadata => r == Record("__metadata__", "*", false) && !e.ok
  }

  /** A request of a daily task: for the datasets that can run with these factors. */
  ghost predicate AsksFor(t: Task, e: Environment, factor: FactorState, q: Request) {
    && t.Daily? && q.code == t.code && InitialAsks(t.plans, factor, e.conditions)
    && forall d :: d in q.datasets <==> d in t.plans && CanRun(d, factor)
  }

  ghost predicate ResultTells(t: Task, e: Environment, factor: FactorState, result: TaskResult) {
    && (forall r :: r in result.records ==> Tells(t, e, factor, r))
    && (forall q :: q in result.requests ==> AsksFor(t, e, factor, q))
    && (t.Daily? && InitialAsks(t.plans, factor, e.conditions) ==> result.requests != [])
    && (t.FlushMetadata? && !e.ok ==> result.records != [])
  }

  ghost predicate ResultTold(retain: bool, jobs: seq<Job>, tasks: seq<Task>, met: Met, n: nat, result: TaskResult)
    requires n < |tasks| && n in met
  {
    exists factor ::
      && (tasks[n].Daily? ==> WorksWith(retain, jobs, tasks, met, tasks[n].code, factor))
      && ResultTells(tasks[n], met[n], factor, result)
  }

  // ---------------------------------------------------------------- the invariant

  ghost predicate ScriptTold(jobs: seq<Job>, script: seq<Action>) {
    && (forall i :: 0 <= i < |script| ==> ActionFrom(jobs, script[i]))
    && BeginsOnce(script)
  }

  ghost predicate BeginsOnce(script: seq<Action>) {
    forall i, j :: 0 <= i < j < |script| && script[i].BeginCode? && script[j].BeginCode? ==>
      script[i].code != script[j].code
  }

  ghost predicate TasksTold(jobs: seq<Job>, s: State) {
    && (forall n :: 0 <= n < |s.tasks| ==> TaskFrom(jobs, s.results, s.tasks[n]))
    && (forall q :: q in InHand(s) ==> Asked(s.results, q))
    && OneEach(s.tasks)
  }

  ghost predicate ResultsTold(retain: bool, jobs: seq<Job>, allowed: Answers, met: Met, s: State) {
    && met.Keys == s.results.Keys
    && forall n :: n in s.results ==>
         n < |s.tasks| && allowed(met[n]) && ResultTold(retain, jobs, s.tasks, met, n, s.results[n])
  }

  ghost predicate BeginAhead(script: seq<Action>, c: Code) {
    exists j :: 0 <= j < |script| && script[j].BeginCode? && script[j].code == c
  }

  /** What the worker has for a code whose daily task is still to come. */
  ghost predicate FactorKnown(retain: bool, jobs: seq<Job>, met: Met, s: State, c: Code) {
    if BeginAhead(s.script, c) then FactorOf(s.worker, c) == FactorState(0, false)
    else WorksWith(retain, jobs, s.tasks, met, c, FactorOf(s.worker, c))
  }

  ghost predicate FactorsKnown(retain: bool, jobs: seq<Job>, met: Met, s: State) {
    forall c :: DailyToCome(s, c) ==> FactorKnown(retain, jobs, met, s, c)
  }

  ghost predicate ToldBy(cfg: Config, jobs: seq<Job>, allowed: Answers, met: Met, s: State) {
    && ScriptTold(jobs, s.script) && TasksTold(jobs, s)
    && ResultsTold(cfg.retain, jobs, allowed, met, s) && FactorsKnown(cfg.retain, jobs, met, s)
  }

  ghost predicate Told(cfg: Config, jobs: seq<Job>, allowed: Answers, s: State) {
    exists met :: ToldBy(cfg, jobs, allowed, met, s)
  }

  // ---------------------------------------------------------------- a task finishes

  lemma {:induction false} ExecuteTells(cfg: Config, w: WorkerState, t: Task, e: Environment, factor: FactorState)
    requires t.Daily? ==> factor == FactorOf(w, t.code)
    ensures ResultTells(t, e, factor, Execute(cfg, w, t, e).0)
  {
    match t
    case Factor(code) =>
    case Daily(code, plans, _) => InitialTells(code, plans, factor, e.conditions);
    case Refetch(q) => RefetchTells(q.code, PlansOf(w, q.code), q.datasets, e.conditions);
    case FlushMetadata =>
  }

  lemma {:induction false} AskedStays(before: map<nat, TaskResult>, after: map<nat, TaskResult>, q: Request)
    requires Asked(before, q) && forall n :: n in before ==> n in after && after[n] == before[n]
    ensures Asked(after, q)
  {
    var n :| n in before && q in before[n].requests;
    assert n in after && q in after[n].requests;
  }

  /** An answer to another task leaves what a finished daily task worked with. */
  lemma {:induction false} WorksWithStays(retain: bool, jobs: seq<Job>, tasks: seq<Task>, met: Met, n: nat,
                                          e: Environment, c: Code, factor: FactorState)
    requires n !in met && !FactorTaskAt(tasks, n, c) && WorksWith(retain, jobs, tasks, met, c, factor)
    ensures WorksWith(retain, jobs, tasks, met[n := e], c, factor)
  {
    var met' := met[n := e];
    assert forall m :: m in met' && FactorTaskAt(tasks, m, c) ==> m in met && met'[m] == met[m];
    if FactorMet(tasks, met, c) {
      var m :| m in met && FactorTaskAt(tasks, m, c);
      assert m in met' && FactorTaskAt(tasks, m, c);
    }
  }

  lemma {:induction false} NoMoreFactors(s: State, met: Met, k: nat, n: nat)
    requires FactorsFirst(s) && met.Keys == s.results.Keys && n !in met
    requires k in s.results && k < |s.tasks| && s.tasks[k].Daily?
    ensures !FactorTaskAt(s.tasks, n, s.tasks[k].code)
  {
    var c := s.tasks[k].code;
    assert IsDaily(s, k, c);
    if FactorTaskAt(s.tasks, n, c) { assert IsFactor(s, n, c); }
  }

  lemma {:induction false} FinishKeepsResult(cfg: Config, jobs: seq<Job>, s: State, met: Met, n: nat, e: Environment,
                                             k: nat)
    requires FactorsFirst(s) && met.Keys == s.results.Keys && n !in met
    requires k in s.results && k < |s.tasks| && ResultTold(cfg.retain, jobs, s.tasks, met, k, s.results[k])
    ensures ResultTold(cfg.retain, jobs, s.tasks, met[n := e], k, s.results[k])
  {
    var t := s.tasks[k];
    var factor :| && (t.Daily? ==> WorksWith(cfg.retain, jobs, s.tasks, met, t.code, factor))
                  && ResultTells(t, met[k], factor, s.results[k]);
    if t.Daily? {
      NoMoreFactors(s, met, k, n);
      WorksWithStays(cfg.retain, jobs, s.tasks, met, n, e, t.code, factor);
    }
    assert ResultTells(t, met[n := e][k], factor, s.results[k]);
  }

  /** The daily task that finishes worked with the factors of its own code's factor task, or the given ones. */
  lemma {:induction false} FinishNewResult(cfg: Config, jobs: seq<Job>, s: State, met: Met, n: nat, e: Environment)
    requires Inv(cfg, s) && OrderedInv(cfg, s) && Enabled(cfg, s, Finish(n, e)) && n < |s.tasks|
    requires FactorsKnown(cfg.retain, jobs, met, s) && n !in met && n !in s.results
    ensures ResultTold(cfg.retain, jobs, s.tasks, met[n := e], n, Execute(cfg, s.worker, s.tasks[n], e).0)
  {
    var t := s.tasks[n];
    var factor := if t.Daily? then FactorOf(s.worker, t.code) else FactorState(0, false);
    ExecuteTells(cfg, s.worker, t, e, factor);
    if t.Daily? {
      assert IsDaily(s, n, t.code);
      assert DailyToCome(s, t.code) && !BeginAhead(s.script, t.code);
      WorksWithStays(cfg.retain, jobs, s.tasks, met, n, e, t.code, factor);
    }
    assert ResultTells(t, met[n := e][n], factor, Execute(cfg, s.worker, t, e).0);
  }

  lemma {:induction false} OneMoreResult(retain: bool, jobs: seq<Job>, allowed: Answers, met: Met, s: State, u: State,
                                         n: nat, e: Environment, result: TaskResult)
    requires ResultsTold(retain, jobs, allowed, met, s) && allowed(e) && n < |s.tasks| && n !in s.results
    requires u.tasks == s.tasks && u.results == s.results[n := result]
    requires forall k :: k in s.results ==> ResultTold(retain, jobs, s.tasks, met[n := e], k, s.results[k])
    requires ResultTold(retain, jobs, s.tasks, met[n := e], n, result)
    ensures ResultsTold(retain, jobs, allowed, met[n := e], u)
  {
  }

  lemma {:induction false} FinishKeepsResults(cfg: Config, jobs: seq<Job>, allowed: Answers, s: State, met: Met, n: nat,
                                              e: Environment)
    requires Inv(cfg, s) && OrderedInv(cfg, s) && Enabled(cfg, s, Finish(n, e)) && allowed(e)
    requires ResultsTold(cfg.retain, jobs, allowed, met, s) && FactorsKnown(cfg.retain, jobs, met, s)
    ensures ResultsTold(cfg.retain, jobs, allowed, met[n := e], Apply(cfg, s, Finish(n, e)))
  {
    assert n !in s.results && n < |s.tasks|;
    FinishNewResult(cfg, jobs, s, met, n, e);
    forall k | k in s.results ensures ResultTold(cfg.retain, jobs, s.tasks, met[n := e], k, s.results[k]) {
      FinishKeepsResult(cfg, jobs, s, met, n, e, k);
    }
    OneMoreResult(cfg.retain, jobs, allowed, met, s, Apply(cfg, s, Finish(n, e)), n, e,
                  Execute(cfg, s.worker, s.tasks[n], e).0);
  }

  /** What the factor task of a code leaves is what its daily task will work with. */
  lemma {:induction false} OwnFactorKnown(cfg: Config, jobs: seq<Job>, s: State, met: Met, n: nat, e: Environment)
    requires PoolInv(cfg, s) && OrderedInv(cfg, s) && OneEach(s.tasks) && Enabled(cfg, s, Finish(n, e))
    requires n < |s.tasks| && s.tasks[n].Factor? && cfg.retain && met.Keys == s.results.Keys
    ensures FactorKnown(cfg.retain, jobs, met[n := e], Apply(cfg, s, Finish(n, e)), s.tasks[n].code)
  {
    var c, u, met' := s.tasks[n].code, Apply(cfg, s, Finish(n, e)), met[n := e];
    assert IsFactor(s, n, c) && FactorTaskAt(u.tasks, n, c) && n in met';
    assert !BeginAhead(u.script, c);
    assert FactorMet(u.tasks, met', c);
    assert forall m :: m in met' && FactorTaskAt(u.tasks, m, c) ==> m == n;
  }

  /** A task that finishes leaves the factors of the codes whose daily tasks are to come, but for its own. */
  lemma {:induction false} OtherFactorStays(cfg: Config, s: State, n: nat, e: Environment, c: Code)
    requires PoolInv(cfg, s) && OrderedInv(cfg, s) && OneEach(s.tasks) && Enabled(cfg, s, Finish(n, e))
    requires n < |s.tasks| && DailyToCome(Apply(cfg, s, Finish(n, e)), c)
    requires s.tasks[n] == Factor(c) ==> !cfg.retain
    ensures FactorOf(Apply(cfg, s, Finish(n, e)).worker, c) == FactorOf(s.worker, c)
  {
    var t, u := s.tasks[n], Apply(cfg, s, Finish(n, e));
    if t.Daily? && t.code == c {
      assert IsDaily(s, n, c) && DailyTaskAt(s.tasks, n, c);
      assert !DailyAhead(u.script, c);
      var k: nat :| IsDaily(u, k, c) && k !in u.results;
      assert DailyTaskAt(s.tasks, k, c);
      assert false;
    }
    if t.Refetch? && t.request.code == c {
      assert Sent(s, t.request) && LiveRequest(s, t.request);
      var d: nat :| IsDaily(s, d, c) && d in s.results;
      assert !DailyAhead(u.script, c);
      var k: nat :| IsDaily(u, k, c) && k !in u.results;
      assert DailyTaskAt(s.tasks, d, c) && DailyTaskAt(s.tasks, k, c);
      assert false;
    }
  }

  lemma {:induction false} FinishKeepsFactor(cfg: Config, jobs: seq<Job>, s: State, met: Met, n: nat, e: Environment,
                                             c: Code)
    requires Inv(cfg, s) && OrderedInv(cfg, s) && OneEach(s.tasks) && Enabled(cfg, s, Finish(n, e))
    requires met.Keys == s.results.Keys && FactorsKnown(cfg.retain, jobs, met, s)
    requires DailyToCome(Apply(cfg, s, Finish(n, e)), c)
    ensures FactorKnown(cfg.retain, jobs, met[n := e], Apply(cfg, s, Finish(n, e)), c)
  {
    var u := Apply(cfg, s, Finish(n, e));
    if s.tasks[n] == Factor(c) && cfg.retain {
      OwnFactorKnown(cfg, jobs, s, met, n, e);
    } else {
      OtherFactorStays(cfg, s, n, e, c);
      assert DailyToCome(s, c);
      if !BeginAhead(s.script, c) && cfg.retain {
        WorksWithStays(cfg.retain, jobs, s.tasks, met, n, e, c, FactorOf(s.worker, c));
      }
    }
  }

  lemma {:induction false} FinishKeepsFactors(cfg: Config, jobs: seq<Job>, s: State, met: Met, n: nat, e: Environment)
    requires Inv(cfg, s) && OrderedInv(cfg, s) && OneEach(s.tasks) && Enabled(cfg, s, Finish(n, e))
    requires met.Keys == s.results.Keys && FactorsKnown(cfg.retain, jobs, met, s)
    ensures FactorsKnown(cfg.retain, jobs, met[n := e], Apply(cfg, s, Finish(n, e)))
  {
    var u := Apply(cfg, s, Finish(n, e));
    forall c | DailyToCome(u, c) ensures FactorKnown(cfg.retain, jobs, met[n := e], u, c) {
      FinishKeepsFactor(cfg, jobs, s, met, n, e, c);
    }
  }

  lemma {:induction false} FinishKeepsTasks(cfg: Config, jobs: seq<Job>, s: State, n: nat, e: Environment)
    requires PoolInv(cfg, s) && TasksTold(jobs, s) && Enabled(cfg, s, Finish(n, e))
    ensures TasksTold(jobs, Apply(cfg, s, Finish(n, e)))
  {
    var u := Apply(cfg, s, Finish(n, e));
    forall q | Asked(s.results, q) ensures Asked(u.results, q) { AskedStays(s.results, u.results, q); }
  }

  lemma {:induction false} FinishTold(cfg: Config, jobs: seq<Job>, allowed: Answers, s: State, met: Met, n: nat,
                                      e: Environment)
    requires Inv(cfg, s) && OrderedInv(cfg, s) && ToldBy(cfg, jobs, allowed, met, s)
    requires Enabled(cfg, s, Finish(n, e)) && allowed(e)
    ensures ToldBy(cfg, jobs, allowed, met[n := e], Apply(cfg, s, Finish(n, e)))
  {
    var u := Apply(cfg, s, Finish(n, e));
    FinishKeepsResults(cfg, jobs, allowed, s, met, n, e);
    FinishKeepsTasks(cfg, jobs, s, n, e);
    FinishKeepsFactors(cfg, jobs, s, met, n, e);
  }

  // ---------------------------------------------------------------- a task is submitted

  lemma {:induction false} WorksWithOneMore(retain: bool, jobs: seq<Job>, tasks: seq<Task>, met: Met, t: Task, c: Code,
                                            factor: FactorState)
    requires |tasks| !in met && WorksWith(retain, jobs, tasks, met, c, factor)
    ensures WorksWith(retain, jobs, tasks + [t], met, c, factor)
  {
    assert forall m :: m in met ==> (FactorTaskAt(tasks + [t], m, c) <==> FactorTaskAt(tasks, m, c));
    if FactorMet(tasks, met, c) {
      var m :| m in met && FactorTaskAt(tasks, m, c);
      assert FactorTaskAt(tasks + [t], m, c);
    }
  }

  lemma {:induction false} SubmitKeepsResult(retain: bool, jobs: seq<Job>, tasks: seq<Task>, met: Met, t: Task, k: nat,
                                             result: TaskResult)
    requires |tasks| !in met && k < |tasks| && k in met && ResultTold(retain, jobs, tasks, met, k, result)
    ensures ResultTold(retain, jobs, tasks + [t], met, k, result)
  {
    var factor :| && (tasks[k].Daily? ==> WorksWith(retain, jobs, tasks, met, tasks[k].code, factor))
                  && ResultTells(tasks[k], met[k], factor, result);
    if tasks[k].Daily? { WorksWithOneMore(retain, jobs, tasks, met, t, tasks[k].code, factor); }
    assert ResultTells((tasks + [t])[k], met[k], factor, result);
  }

  /** Submitting a task, with no daily task of its code among the submitted ones, nor a factor task if it
      is one itself. */
  lemma {:induction false} SubmitTold(cfg: Config, jobs: seq<Job>, allowed: Answers, s: State, u: State, met: Met,
                                      t: Task)
    requires PoolInv(cfg, s) && ToldBy(cfg, jobs, allowed, met, s) && TaskFrom(jobs, s.results, t)
    requires u.tasks == s.tasks + [t] && u.results == s.results && u.worker == s.worker
    requires ScriptTold(jobs, u.script) && forall c :: BeginAhead(u.script, c) <==> BeginAhead(s.script, c)
    requires forall q :: q in InHand(u) ==> q in InHand(s)
    requires forall c :: DailyToCome(u, c) ==> DailyToCome(s, c)
    requires t.Daily? ==> forall n: nat :: !DailyTaskAt(s.tasks, n, t.code)
    requires t.Factor? ==> forall n: nat :: !FactorTaskAt(s.tasks, n, t.code)
    ensures ToldBy(cfg, jobs, allowed, met, u)
  {
    assert |s.tasks| !in met;
    SubmitKeepsResults(cfg.retain, jobs, allowed, met, s, u, t);
    forall c | DailyToCome(u, c) ensures FactorKnown(cfg.retain, jobs, met, u, c) {
      SubmitKeepsFactor(cfg.retain, jobs, met, s, u, t, c);
    }
    SubmitKeepsOneEach(s.tasks, t);
  }

  lemma {:induction false} SubmitKeepsResults(retain: bool, jobs: seq<Job>, allowed: Answers, met: Met, s: State,
                                              u: State, t: Task)
    requires |s.tasks| !in met && ResultsTold(retain, jobs, allowed, met, s)
    requires u.tasks == s.tasks + [t] && u.results == s.results
    ensures ResultsTold(retain, jobs, allowed, met, u)
  {
    forall k | k in u.results ensures k < |u.tasks| && ResultTold(retain, jobs, u.tasks, met, k, u.results[k]) {
      SubmitKeepsResult(retain, jobs, s.tasks, met, t, k, s.results[k]);
    }
  }

  lemma {:induction false} SubmitKeepsFactor(retain: bool, jobs: seq<Job>, met: Met, s: State, u: State, t: Task,
                                             c: Code)
    requires |s.tasks| !in met && FactorKnown(retain, jobs, met, s, c)
    requires u.tasks == s.tasks + [t] && u.worker == s.worker
    requires BeginAhead(u.script, c) <==> BeginAhead(s.script, c)
    ensures FactorKnown(retain, jobs, met, u, c)
  {
    if !BeginAhead(s.script, c) { WorksWithOneMore(retain, jobs, s.tasks, met, t, c, FactorOf(s.worker, c)); }
  }

  lemma {:induction false} SubmitKeepsOneEach(tasks: seq<Task>, t: Task)
    requires OneEach(tasks)
    requires t.Daily? ==> forall n: nat :: !DailyTaskAt(tasks, n, t.code)
    requires t.Factor? ==> forall n: nat :: !FactorTaskAt(tasks, n, t.code)
    ensures OneEach(tasks + [t])
  {
    var all := tasks + [t];
    assert forall n: nat, c :: n < |tasks| ==> (DailyTaskAt(all, n, c) <==> DailyTaskAt(tasks, n, c));
    assert forall n: nat, c :: n < |tasks| ==> (FactorTaskAt(all, n, c) <==> FactorTaskAt(tasks, n, c));
  }

  lemma {:induction false} ShorterScript(jobs: seq<Job>, script: seq<Action>, c: Code)
    requires script != [] && ScriptTold(jobs, script)
    ensures ScriptTold(jobs, script[1..])
    ensures BeginAhead(script, c) <==> (script[0].BeginCode? && script[0].code == c) || BeginAhead(script[1..], c)
    ensures script[0].BeginCode? && script[0].code == c ==> !BeginAhead(script[1..], c)
    ensures DailyAhead(script[1..], c) ==> DailyAhead(script, c)
  {
    var rest := script[1..];
    assert forall i :: 0 <= i < |rest| ==> rest[i] == script[i + 1];
    if BeginAhead(script, c) && !(script[0].BeginCode? && script[0].code == c) {
      var j :| 0 <= j < |script| && script[j].BeginCode? && script[j].code == c;
      assert rest[j - 1] == script[j];
    }
    if DailyAhead(rest, c) {
      var j :| 0 <= j < |rest| && rest[j].SubmitDaily? && rest[j].code == c;
      assert script[j + 1].SubmitDaily?;
    }
  }

  /** No task to come of a code whose daily task was not to come. */
  lemma {:induction false} AdvanceDailyToCome(cfg: Config, s: State, c: Code)
    requires Enabled(cfg, s, Advance) && DailyToCome(Apply(cfg, s, Advance), c)
    ensures DailyToCome(s, c)
  {
    var u := Apply(cfg, s, Advance);
    if DailyAhead(u.script, c) {
      var j :| 0 <= j < |u.script| && u.script[j].SubmitDaily? && u.script[j].code == c;
      assert s.script[j + 1].SubmitDaily? && s.script[j + 1].code == c;
    } else {
      var n: nat :| IsDaily(u, n, c) && n !in u.results;
      if n < |s.tasks| {
        assert IsDaily(s, n, c);
      } else {
        assert s.script[0].SubmitDaily? && s.script[0].code == c;
      }
    }
  }

  /** The task due has no predecessor of its code, but for a daily task's factor task. */
  lemma {:induction false} HeadIsNew(s: State, n: nat)
    requires TasksInOrder(s) && s.script != []
    ensures var a := s.script[0];
      && (a.SubmitDaily? || a.SubmitFactor? ==> !DailyTaskAt(s.tasks, n, a.code))
      && (a.SubmitFactor? ==> !FactorTaskAt(s.tasks, n, a.code))
  {
    var a := s.script[0];
    if a.SubmitDaily? || a.SubmitFactor? {
      assert Mentions(s.script[0], a.code);
      assert IsDaily(s, n, a.code) <==> DailyTaskAt(s.tasks, n, a.code);
      assert IsFactor(s, n, a.code) <==> FactorTaskAt(s.tasks, n, a.code);
    }
  }

  lemma {:induction false} AdvanceSubmits(cfg: Config, jobs: seq<Job>, allowed: Answers, s: State, met: Met)
    requires Inv(cfg, s) && OrderedInv(cfg, s) && ToldBy(cfg, jobs, allowed, met, s) && Enabled(cfg, s, Advance)
    requires TaskOf(s, s.script[0]).Some?
    ensures ToldBy(cfg, jobs, allowed, met, Apply(cfg, s, Advance))
  {
    var a, u, t := s.script[0], Apply(cfg, s, Advance), TaskOf(s, s.script[0]).value;
    assert ActionFrom(jobs, a);
    forall c ensures BeginAhead(u.script, c) <==> BeginAhead(s.script, c) { ShorterScript(jobs, s.script, c); }
    ShorterScript(jobs, s.script, "");
    forall c | DailyToCome(u, c) ensures DailyToCome(s, c) { AdvanceDailyToCome(cfg, s, c); }
    forall n: nat { HeadIsNew(s, n); }
    SubmitTold(cfg, jobs, allowed, s, u, met, t);
  }

  // ---------------------------------------------------------------- a code begins

  lemma {:induction false} BegunIsGiven(cfg: Config, jobs: seq<Job>, code: Code, existing: Option<FactorState>,
                                        factor: FactorState)
    requires JobsOk(cfg, jobs) && BegunFor(jobs, code, existing)
    requires factor == if existing.Some? then existing.value else FactorState(0, false)
    ensures Given(jobs, code, factor)
  {
    var k :| 0 <= k < |jobs| && jobs[k].code == code && jobs[k].existing == existing;
    assert forall i :: 0 <= i < |jobs| && jobs[i].code == code ==> i == k;
  }

  lemma {:induction false} AdvanceQuiet(cfg: Config, jobs: seq<Job>, allowed: Answers, s: State, met: Met)
    requires Inv(cfg, s) && OrderedInv(cfg, s) && ToldBy(cfg, jobs, allowed, met, s) && Enabled(cfg, s, Advance)
    requires JobsOk(cfg, jobs) && TaskOf(s, s.script[0]).None?
    ensures ToldBy(cfg, jobs, allowed, met, Apply(cfg, s, Advance))
  {
    var u := Apply(cfg, s, Advance);
    ShorterScript(jobs, s.script, "");
    assert InHand(u) == [] && u.tasks == s.tasks && u.results == s.results;
    forall c | DailyToCome(u, c) ensures FactorKnown(cfg.retain, jobs, met, u, c) {
      AdvanceDailyToCome(cfg, s, c);
      QuietKeepsFactor(cfg, jobs, s, met, c);
    }
  }

  lemma {:induction false} QuietKeepsFactor(cfg: Config, jobs: seq<Job>, s: State, met: Met, c: Code)
    requires JobsOk(cfg, jobs) && TasksInOrder(s) && ScriptTold(jobs, s.script) && Enabled(cfg, s, Advance)
    requires TaskOf(s, s.script[0]).None? && FactorKnown(cfg.retain, jobs, met, s, c)
    ensures FactorKnown(cfg.retain, jobs, met, Apply(cfg, s, Advance), c)
  {
    ShorterScript(jobs, s.script, c);
    if s.script[0].BeginCode? && s.script[0].code == c { BeginKnown(cfg, jobs, s, met, c); }
  }

  lemma {:induction false} BeginKnown(cfg: Config, jobs: seq<Job>, s: State, met: Met, c: Code)
    requires JobsOk(cfg, jobs) && TasksInOrder(s) && ScriptTold(jobs, s.script) && Enabled(cfg, s, Advance)
    requires s.script[0].BeginCode? && s.script[0].code == c && FactorOf(s.worker, c) == FactorState(0, false)
    ensures FactorKnown(cfg.retain, jobs, met, Apply(cfg, s, Advance), c)
  {
    var a, u := s.script[0], Apply(cfg, s, Advance);
    ShorterScript(jobs, s.script, c);
    assert ActionFrom(jobs, a) && Mentions(a, c);
    forall m: nat ensures !FactorTaskAt(s.tasks, m, c) {
      if FactorTaskAt(s.tasks, m, c) { assert IsFactor(s, m, c); }
    }
    BegunIsGiven(cfg, jobs, c, a.existing, FactorOf(u.worker, c));
  }

  // ---------------------------------------------------------------- every step

  lemma {:induction false} DispatchDailyToCome(cfg: Config, s: State, c: Code)
    requires Enabled(cfg, s, Dispatch) && DailyToCome(Apply(cfg, s, Dispatch), c)
    ensures DailyToCome(s, c)
  {
    var u := Apply(cfg, s, Dispatch);
    if !DailyAhead(s.script, c) {
      var n: nat :| IsDaily(u, n, c) && n !in u.results;
      assert IsDaily(s, n, c);
    }
  }

  lemma {:induction false} DispatchTold(cfg: Config, jobs: seq<Job>, allowed: Answers, s: State, met: Met)
    requires Inv(cfg, s) && ToldBy(cfg, jobs, allowed, met, s) && Enabled(cfg, s, Dispatch)
    ensures ToldBy(cfg, jobs, allowed, met, Apply(cfg, s, Dispatch))
  {
    var u, q := Apply(cfg, s, Dispatch), s.pc.requests[0];
    assert q in InHand(s);
    forall c | DailyToCome(u, c) ensures DailyToCome(s, c) { DispatchDailyToCome(cfg, s, c); }
    SubmitTold(cfg, jobs, allowed, s, u, met, Refetch(q));
  }

  /** Steps that touch neither script nor tasks nor results nor worker. */
  lemma {:induction false} QuietTold(cfg: Config, jobs: seq<Job>, allowed: Answers, s: State, u: State, met: Met)
    requires ToldBy(cfg, jobs, allowed, met, s)
    requires u.script == s.script && u.tasks == s.tasks && u.results == s.results && u.worker == s.worker
    requires forall q :: q in InHand(u) ==> Asked(s.results, q)
    ensures ToldBy(cfg, jobs, allowed, met, u)
  {
    forall c | DailyToCome(u, c) ensures FactorKnown(cfg.retain, jobs, met, u, c) {
      assert DailyToCome(s, c) by {
        if !DailyAhead(s.script, c) {
          var n: nat :| IsDaily(u, n, c) && n !in u.results;
          assert IsDaily(s, n, c);
        }
      }
      assert FactorKnown(cfg.retain, jobs, met, s, c);
    }
  }

  lemma {:induction false} AdvanceTold(cfg: Config, jobs: seq<Job>, allowed: Answers, s: State, met: Met)
    requires JobsOk(cfg, jobs) && Inv(cfg, s) && OrderedInv(cfg, s)
    requires ToldBy(cfg, jobs, allowed, met, s) && Enabled(cfg, s, Advance)
    ensures ToldBy(cfg, jobs, allowed, met, Apply(cfg, s, Advance))
  {
    if TaskOf(s, s.script[0]).Some? {
      AdvanceSubmits(cfg, jobs, allowed, s, met);
    } else {
      AdvanceQuiet(cfg, jobs, allowed, s, met);
    }
  }

  lemma {:induction false} CollectTold(cfg: Config, jobs: seq<Job>, allowed: Answers, s: State, met: Met)
    requires ToldBy(cfg, jobs, allowed, met, s) && Enabled(cfg, s, Collect)
    ensures ToldBy(cfg, jobs, allowed, met, Apply(cfg, s, Collect))
  {
    var u := Apply(cfg, s, Collect);
    forall q | q in InHand(u) ensures Asked(s.results, q) { assert q in s.results[s.batch[0]].requests; }
    QuietTold(cfg, jobs, allowed, s, u, met);
  }

  lemma {:induction false} RestTold(cfg: Config, jobs: seq<Job>, allowed: Answers, s: State, l: Label, met: Met)
    requires ToldBy(cfg, jobs, allowed, met, s) && Enabled(cfg, s, l) && (l.Wait? || l.Flush? || l.StartTask?)
    ensures ToldBy(cfg, jobs, allowed, met, Apply(cfg, s, l))
  {
    var u := Apply(cfg, s, l);
    assert forall q :: q in InHand(u) ==> q in InHand(s);
    QuietTold(cfg, jobs, allowed, s, u, met);
  }

  /** Every step keeps it, as long as the answers are allowed ones. */
  lemma {:induction false} StepKeepsTold(cfg: Config, jobs: seq<Job>, allowed: Answers, s: State, l: Label)
    requires JobsOk(cfg, jobs) && Inv(cfg, s) && OrderedInv(cfg, s)
    requires Told(cfg, jobs, allowed, s) && Enabled(cfg, s, l) && (l.Finish? ==> allowed(l.environment))
    ensures Told(cfg, jobs, allowed, Apply(cfg, s, l))
  {
    var met :| ToldBy(cfg, jobs, allowed, met, s);
    StepTold(cfg, jobs, allowed, s, l, met);
  }

  lemma {:induction false} StepTold(cfg: Config, jobs: seq<Job>, allowed: Answers, s: State, l: Label, met: Met)
    requires JobsOk(cfg, jobs) && Inv(cfg, s) && OrderedInv(cfg, s)
    requires ToldBy(cfg, jobs, allowed, met, s) && Enabled(cfg, s, l) && (l.Finish? ==> allowed(l.environment))
    ensures ToldBy(cfg, jobs, allowed, if l.Finish? then met[l.n := l.environment] else met, Apply(cfg, s, l))
  {
    match l
    case Advance => AdvanceTold(cfg, jobs, allowed, s, met);
    case Finish(n, e) => FinishTold(cfg, jobs, allowed, s, met, n, e);
    case Dispatch => DispatchTold(cfg, jobs, allowed, s, met);
    case Collect => CollectTold(cfg, jobs, allowed, s, met);
    case _ => RestTold(cfg, jobs, allowed, s, l, met);
  }

  // ---------------------------------------------------------------- the start

  lemma {:induction false} ScriptFrom(jobs: seq<Job>, all: seq<Job>)
    requires forall k :: 0 <= k < |jobs| ==> jobs[k] in all
    ensures forall i :: 0 <= i < |JobsScript(jobs)| ==> ActionFrom(all, JobsScript(jobs)[i])
  {
    if jobs != [] {
      var head, tail := JobScript(jobs[0]), JobsScript(jobs[1..]);
      ScriptFrom(jobs[1..], all);
      var k :| 0 <= k < |all| && all[k] == jobs[0];
      assert forall i :: 0 <= i < |head| ==> ActionFrom(all, head[i]);
      assert forall i :: 0 <= i < |head + tail| ==>
        (head + tail)[i] == if i < |head| then head[i] else tail[i - |head|];
    }
  }

  lemma {:induction false} JobsBeginOnce(jobs: seq<Job>)
    requires forall i, j :: 0 <= i < j < |jobs| ==> jobs[i].code != jobs[j].code
    ensures BeginsOnce(JobsScript(jobs))
  {
    if jobs != [] {
      var head, tail, script := JobScript(jobs[0]), JobsScript(jobs[1..]), JobsScript(jobs);
      JobsBeginOnce(jobs[1..]);
      ScriptFrom(jobs[1..], jobs[1..]);
      forall j | 0 <= j < |tail| && tail[j].BeginCode? ensures tail[j].code != jobs[0].code {
        assert ActionFrom(jobs[1..], tail[j]);
        var k :| 0 <= k < |jobs[1..]| && jobs[1..][k].code == tail[j].code;
        assert jobs[1..][k] == jobs[k + 1];
      }
      BeginsApart(head, tail, jobs[0].code);
    }
  }

  lemma {:induction false} BeginsApart(head: seq<Action>, tail: seq<Action>, code: Code)
    requires BeginsOnce(head) && BeginsOnce(tail)
    requires forall i :: 0 <= i < |head| && head[i].BeginCode? ==> head[i].code == code
    requires forall j :: 0 <= j < |tail| && tail[j].BeginCode? ==> tail[j].code != code
    ensures BeginsOnce(head + tail)
  {
    var all := head + tail;
    forall i, j | 0 <= i < j < |all| && all[i].BeginCode? && all[j].BeginCode? ensures all[i].code != all[j].code {
      if i >= |head| { assert all[i] == tail[i - |head|] && all[j] == tail[j - |head|]; }
    }
  }

  lemma {:induction false} InitiallyTold(cfg: Config, jobs: seq<Job>, allowed: Answers)
    requires JobsOk(cfg, jobs)
    ensures Told(cfg, jobs, allowed, Initially(jobs))
  {
    var s := Initially(jobs);
    ScriptFrom(jobs, jobs);
    JobsBeginOnce(jobs);
    forall c | DailyToCome(s, c) ensures FactorKnown(cfg.retain, jobs, map[], s, c) {
      if !BeginAhead(s.script, c) { NoJobGiven(jobs, c); }
    }
    assert ToldBy(cfg, jobs, allowed, map[], s);
  }

  lemma {:induction false} NoJobGiven(jobs: seq<Job>, c: Code)
    requires !BeginAhead(JobsScript(jobs), c)
    ensures forall k :: 0 <= k < |jobs| ==> jobs[k].code != c
  {
    forall k | 0 <= k < |jobs| ensures jobs[k].code != c {
      if jobs[k].code == c { JobBegins(jobs, k); }
    }
  }

  lemma {:induction false} JobBegins(jobs: seq<Job>, k: nat)
    requires k < |jobs|
    ensures BeginAhead(JobsScript(jobs), jobs[k].code)
  {
    var head, tail, script := JobScript(jobs[0]), JobsScript(jobs[1..]), JobsScript(jobs);
    if k == 0 {
      assert script[0] == head[0] == BeginCode(jobs[0].code, jobs[0].existing);
    } else {
      JobBegins(jobs[1..], k - 1);
      var j :| 0 <= j < |tail| && tail[j].BeginCode? && tail[j].code == jobs[k].code;
      assert script[|head| + j] == tail[j];
    }
  }

  // ---------------------------------------------------------------- the records of a run

  /** Task n wrote the record: it tells the answer the task met, a daily task's also the factors it worked
      with; and a refetch task does what a daily task of its code asked for. */
  ghost predicate WrittenBy(retain: bool, jobs: seq<Job>, tasks: seq<Task>, met: Met, n: nat, r: Record) {
    && n < |tasks| && n in met
    && exists factor ::
         && (tasks[n].Daily? ==> WorksWith(retain, jobs, tasks, met, tasks[n].code, factor))
         && Tells(tasks[n], met[n], factor, r)
  }

  /** A task is that of a job, or a flush, or a refetch that a daily task asked for. */
  ghost predicate TaskOwed(retain: bool, jobs: seq<Job>, tasks: seq<Task>, met: Met, t: Task) {
    match t
    case Factor(code) => FetchedFor(jobs, code)
    case Daily(code, plans, _) => PlannedFor(jobs, code, plans)
    case Refetch(q) => exists n :: AskedBy(retain, jobs, tasks, met, n, q)
    case FlushMetadata => true
  }

  ghost predicate AskedBy(retain: bool, jobs: seq<Job>, tasks: seq<Task>, met: Met, n: nat, q: Request) {
    && n < |tasks| && n in met
    && exists factor ::
         WorksWith(retain, jobs, tasks, met, q.code, factor) && AsksFor(tasks[n], met[n], factor, q)
  }

  ghost predicate RunTold(retain: bool, jobs: seq<Job>, allowed: Answers, tasks: seq<Task>, met: Met,
                          records: seq<Record>) {
    && OneEach(tasks)
    && (forall n :: n in met ==> n < |tasks| && allowed(met[n]))
    && (forall t :: t in tasks ==> TaskOwed(retain, jobs, tasks, met, t))
    && forall r :: r in records ==> exists n :: WrittenBy(retain, jobs, tasks, met, n, r)
  }

  lemma {:induction false} FlattenedFrom(results: map<nat, TaskResult>, n: nat, r: Record) returns (k: nat)
    requires r in Flattened(results, n)
    ensures k < n && k in results && r in results[k].records
  {
    if r in Flattened(results, n - 1) { k := FlattenedFrom(results, n - 1, r); } else { k := n - 1; }
  }

  lemma {:induction false} RecordTold(cfg: Config, jobs: seq<Job>, allowed: Answers, s: State, met: Met, k: nat,
                                      r: Record)
    requires ResultsTold(cfg.retain, jobs, allowed, met, s) && k in s.results && r in s.results[k].records
    ensures WrittenBy(cfg.retain, jobs, s.tasks, met, k, r)
  {
    assert ResultTold(cfg.retain, jobs, s.tasks, met, k, s.results[k]);
    var t := s.tasks[k];
    var factor :| && (t.Daily? ==> WorksWith(cfg.retain, jobs, s.tasks, met, t.code, factor))
                  && ResultTells(t, met[k], factor, s.results[k]);
    assert Tells(t, met[k], factor, r);
  }

  lemma {:induction false} AskedTold(cfg: Config, jobs: seq<Job>, allowed: Answers, s: State, met: Met, q: Request)
    requires ToldBy(cfg, jobs, allowed, met, s) && Asked(s.results, q)
    ensures exists n :: AskedBy(cfg.retain, jobs, s.tasks, met, n, q)
  {
    var n :| n in s.results && q in s.results[n].requests;
    var t := s.tasks[n];
    var factor :| && (t.Daily? ==> WorksWith(cfg.retain, jobs, s.tasks, met, t.code, factor))
                  && ResultTells(t, met[n], factor, s.results[n]);
    assert AsksFor(t, met[n], factor, q);
    assert AskedBy(cfg.retain, jobs, s.tasks, met, n, q);
  }

  /** In every such state, whatever the interleaving was: there is one answer for each finished task, and
      each run record tells the answers that the tasks of its code met. */
  lemma {:induction false} RecordsTold(cfg: Config, jobs: seq<Job>, allowed: Answers, s: State) returns (met: Met)
    requires Inv(cfg, s) && Told(cfg, jobs, allowed, s)
    ensures met.Keys == s.results.Keys && RunTold(cfg.retain, jobs, allowed, s.tasks, met, s.runRecords)
  {
    met :| ToldBy(cfg, jobs, allowed, met, s);
    forall r | r in s.runRecords ensures exists n :: WrittenBy(cfg.retain, jobs, s.tasks, met, n, r) {
      var k := FlattenedFrom(s.results, s.nextRecord, r);
      RecordTold(cfg, jobs, allowed, s, met, k, r);
    }
    forall t | t in s.tasks ensures TaskOwed(cfg.retain, jobs, s.tasks, met, t) {
      var k :| 0 <= k < |s.tasks| && s.tasks[k] == t;
      assert TaskFrom(jobs, s.results, s.tasks[k]);
      if t.Refetch? { AskedTold(cfg, jobs, allowed, s, met, t.request); }
    }
  }
}
