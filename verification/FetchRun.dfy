/** Running one AkShare module: every selected task ends as exactly one result or one skip,
    whatever the completion order. Tasks are named by their position. */
module FetchRun {
  import opened FetchKernel

  datatype Outcome = Fetched | Failed | CircuitOpen

  datatype Event =
    | Submit(task: nat)
    | Record(task: nat, outcome: Outcome)
    | Skip(task: nat)

  /** What happened so far, latest event outermost. */
  datatype Trace = Start | Then(past: Trace, event: Event)

  /** Submissions so far. */
  ghost function SubmitCount(trace: Trace): nat {
    if trace.Start? then 0 else SubmitCount(trace.past) + (if trace.event.Submit? then 1 else 0)
  }

  /** Tasks submitted and neither recorded nor skipped yet. */
  ghost function InFlight(trace: Trace): set<nat> {
    if trace.Start? then {}
    else if trace.event.Submit? then InFlight(trace.past) + {trace.event.task}
    else InFlight(trace.past) - {trace.event.task}
  }

  ghost function Settled(trace: Trace): set<nat> {
    if trace.Start? then {}
    else if trace.event.Submit? then Settled(trace.past)
    else Settled(trace.past) + {trace.event.task}
  }

  ghost predicate Opened(trace: Trace) {
    trace.Then? && (Opened(trace.past) || (trace.event.Record? && trace.event.outcome == CircuitOpen))
  }

  /** What a controller was told, in order: of every result so far, whether it was fetched. */
  ghost function Told(trace: Trace): seq<bool> {
    if trace.Start? then []
    else if trace.event.Record? then Told(trace.past) + [trace.event.outcome == Fetched]
    else Told(trace.past)
  }

  /** How many fetches a policy allows in flight: always all workers, or what a controller makes of the
      outcomes it is told, from the state it starts in. */
  datatype Pacing = Fixed(workers: int) | Adaptive(limits: Limits, start: Control)

  ghost predicate ValidPacing(p: Pacing) { p.Adaptive? ==> ValidControl(p.limits, p.start) }

  ghost function TargetAfter(p: Pacing, outcomes: seq<bool>): int
    requires ValidPacing(p)
  {
    if p.Fixed? then p.workers else ObserveAll(p.limits, p.start, outcomes).target
  }

  /** Every submission was made while fewer fetches were in flight than the target allowed, given the
      outcomes recorded before it. */
  ghost predicate Paced(p: Pacing, trace: Trace)
    requires ValidPacing(p)
  {
    trace.Then? ==>
      && Paced(p, trace.past)
      && (trace.event.Submit? ==> |InFlight(trace.past)| < TargetAfter(p, Told(trace.past)))
  }

  datatype Run = Run(count: nat, workers: nat, stopOnCircuitOpen: bool, outcome: nat -> Outcome)

  ghost predicate Stopped(run: Run, trace: Trace) { run.stopOnCircuitOpen && Opened(trace) }

  /** What may happen next: submissions in task order, below the worker limit and never once the
      open circuit stopped the run; one truthful result per task in flight; skips only after the
      circuit opened, and of a task in flight only if it hit the open circuit too. */
  ghost predicate LegalNext(run: Run, past: Trace, e: Event) {
    match e
    case Submit(t) =>
      && t == SubmitCount(past) < run.count && t !in Settled(past)
      && !Stopped(run, past) && |InFlight(past)| < run.workers
    case Record(t, o) => t in InFlight(past) && o == run.outcome(t) && !(Stopped(run, past) && o == CircuitOpen)
    case Skip(t) =>
      && t < run.count && t !in Settled(past) && Stopped(run, past)
      && (t in InFlight(past) ==> run.outcome(t) == CircuitOpen)
  }

  ghost predicate Legal(run: Run, trace: Trace) {
    trace.Start? || (Legal(run, trace.past) && LegalNext(run, trace.past, trace.event))
  }

  // ---------------------------------------------------------------- what legality means

  /** How often a task is settled, by a result or a skip. */
  ghost function SettleCount(trace: Trace, t: nat): nat {
    if trace.Start? then 0
    else SettleCount(trace.past, t) + (if !trace.event.Submit? && trace.event.task == t then 1 else 0)
  }

  lemma {:induction false} InFlightUnsettled(run: Run, trace: Trace)
    requires Legal(run, trace)
    ensures InFlight(trace) !! Settled(trace)
  {
    if trace.Then? { InFlightUnsettled(run, trace.past); }
  }

  /** A legal run settles no task twice. */
  lemma {:induction false} SettledOnce(run: Run, trace: Trace, t: nat)
    requires Legal(run, trace)
    ensures SettleCount(trace, t) == if t in Settled(trace) then 1 else 0
  {
    if trace.Then? {
      SettledOnce(run, trace.past, t);
      InFlightUnsettled(run, trace.past);
    }
  }

  ghost predicate PrefixOf(earlier: Trace, trace: Trace) {
    earlier == trace || (trace.Then? && PrefixOf(earlier, trace.past))
  }

  /** At no time are more fetches in flight than there are workers. */
  lemma {:induction false} InFlightBounded(run: Run, earlier: Trace, trace: Trace)
    requires Legal(run, trace) && PrefixOf(earlier, trace)
    ensures |InFlight(earlier)| <= run.workers
    decreases trace
  {
    if earlier != trace {
      InFlightBounded(run, earlier, trace.past);
    } else if trace.Then? {
      InFlightBounded(run, trace.past, trace.past);
      if !trace.event.Submit? { Smaller(InFlight(trace), InFlight(trace.past)); }
    }
  }

  lemma {:induction false} Smaller(a: set<nat>, b: set<nat>)
    requires a <= b
    ensures |a| <= |b|
  {
    if a != {} {
      var x :| x in a;
      Smaller(a - {x}, b - {x});
    }
  }

  /** No task is submitted once an open circuit stops the run. */
  lemma {:induction false} NoSubmitAfterOpen(run: Run, earlier: Trace, trace: Trace)
    requires Legal(run, trace) && PrefixOf(earlier, trace) && Stopped(run, earlier)
    ensures Stopped(run, trace) && SubmitCount(trace) == SubmitCount(earlier)
  {
    if earlier != trace { NoSubmitAfterOpen(run, earlier, trace.past); }
  }

  /** Without an open circuit nothing is skipped. */
  lemma {:induction false} NoSkipWithoutOpen(run: Run, earlier: Trace, trace: Trace)
    requires Legal(run, trace) && !Stopped(run, trace) && PrefixOf(earlier, trace)
    ensures earlier.Then? ==> !earlier.event.Skip?
  {
    if earlier != trace { NoSkipWithoutOpen(run, earlier, trace.past); }
  }

  // ---------------------------------------------------------------- the two loops

  /** The tasks before `taskIndex` are settled or pending, and nothing else is. */
  ghost predicate Balanced(run: Run, trace: Trace, taskIndex: nat, pending: set<nat>) {
    && Legal(run, trace) && taskIndex <= run.count
    && pending == InFlight(trace) && pending !! Settled(trace)
    && (forall t :: t in Settled(trace) ==> t < taskIndex)
    && (forall t :: t in pending ==> t < taskIndex)
    && (forall t: nat :: t < taskIndex ==> t in Settled(trace) || t in pending)
  }

  /** Balanced, with the task index where the loop keeps it: at the next task to submit, or at the
      end once the run is stopped. */
  ghost predicate Between(run: Run, trace: Trace, taskIndex: nat, pending: set<nat>) {
    && Balanced(run, trace, taskIndex, pending)
    && taskIndex == (if Stopped(run, trace) then run.count else SubmitCount(trace))
  }

  ghost function Remaining(count: nat, settled: set<nat>): set<nat> {
    if count == 0 then {} else Remaining(count - 1, settled) + (if count - 1 in settled then {} else {count - 1})
  }

  lemma {:induction false} RemainingIs(count: nat, settled: set<nat>)
    ensures forall t: nat :: t in Remaining(count, settled) <==> t < count && t !in settled
  {
    if count > 0 { RemainingIs(count - 1, settled); }
  }

  lemma {:induction false} RemainingShrinks(count: nat, before: set<nat>, after: set<nat>)
    requires before < after && forall t :: t in after ==> t < count
    ensures Remaining(count, after) < Remaining(count, before)
  {
    RemainingIs(count, before);
    RemainingIs(count, after);
    var t :| t in after && t !in before;
    assert t in Remaining(count, before);
  }

  /** Every task is settled. */
  ghost predicate AllSettled(run: Run, trace: Trace) {
    forall t: nat :: t in Settled(trace) <==> t < run.count
  }

  lemma {:induction false} SubmitStep(run: Run, trace: Trace, t: nat, pending: set<nat>)
    requires Between(run, trace, t, pending) && !Stopped(run, trace) && t < run.count && |pending| < run.workers
    ensures Between(run, Then(trace, Submit(t)), t + 1, pending + {t})
    ensures Settled(Then(trace, Submit(t))) == Settled(trace) && !Stopped(run, Then(trace, Submit(t)))
  {
    assert LegalNext(run, trace, Submit(t)) by { assert t !in Settled(trace); }
    SubmitBalances(run, trace, t, pending);
  }

  lemma {:induction false} SubmitBalances(run: Run, trace: Trace, t: nat, pending: set<nat>)
    requires Balanced(run, trace, t, pending) && t < run.count && LegalNext(run, trace, Submit(t))
    ensures Balanced(run, Then(trace, Submit(t)), t + 1, pending + {t})
  {
    var after := Then(trace, Submit(t));
    assert Legal(run, after) && Settled(after) == Settled(trace);
    assert t !in Settled(trace) && InFlight(after) == pending + {t};
  }

  lemma {:induction false} PacedSubmit(p: Pacing, trace: Trace, t: nat)
    requires ValidPacing(p) && Paced(p, trace) && |InFlight(trace)| < TargetAfter(p, Told(trace))
    ensures Paced(p, Then(trace, Submit(t))) && Told(Then(trace, Submit(t))) == Told(trace)
  {
  }

  lemma {:induction false} RecordStep(run: Run, trace: Trace, taskIndex: nat, pending: set<nat>, t: nat)
    requires Between(run, trace, taskIndex, pending) && t in pending
    requires !(Stopped(run, trace) && run.outcome(t) == CircuitOpen)
    ensures var after := Then(trace, Record(t, run.outcome(t)));
      && Balanced(run, after, taskIndex, pending - {t})
      && Settled(after) == Settled(trace) + {t} && SubmitCount(after) == SubmitCount(trace)
      && (Stopped(run, after) <==>
            Stopped(run, trace) || (run.stopOnCircuitOpen && run.outcome(t) == CircuitOpen))
  {
    assert LegalNext(run, trace, Record(t, run.outcome(t)));
  }

  lemma {:induction false} SkipPendingStep(run: Run, trace: Trace, taskIndex: nat, pending: set<nat>, t: nat)
    requires Between(run, trace, taskIndex, pending) && t in pending
    requires Stopped(run, trace) && run.outcome(t) == CircuitOpen
    ensures var after := Then(trace, Skip(t));
      && Between(run, after, taskIndex, pending - {t}) && Stopped(run, after)
      && Settled(after) == Settled(trace) + {t}
  {
    assert LegalNext(run, trace, Skip(t));
  }

  lemma {:induction false} SkipRestStep(run: Run, trace: Trace, t: nat, pending: set<nat>)
    requires Balanced(run, trace, t, pending) && Stopped(run, trace) && t < run.count
    ensures var after := Then(trace, Skip(t));
      && Balanced(run, after, t + 1, pending) && Stopped(run, after) && Settled(trace) <= Settled(after)
  {
    assert LegalNext(run, trace, Skip(t));
  }

  class ConcurrencyPolicy {
    const workers: nat
    const stopOnCircuitOpen: bool
    const controller: AdaptiveConcurrencyController?

    ghost predicate Valid()
      reads this, controller
    {
      workers >= 1 && (controller != null ==> controller.Valid() && controller.limits.maxWorkers <= workers)
    }

    constructor (workers: nat, stopOnCircuitOpen: bool, controller: AdaptiveConcurrencyController?)
      requires workers >= 1
      requires controller != null ==> controller.Valid() && controller.limits.maxWorkers <= workers
      ensures Valid() && this.workers == workers && this.stopOnCircuitOpen == stopOnCircuitOpen
      ensures this.controller == controller
    {
      this.workers := workers;
      this.stopOnCircuitOpen := stopOnCircuitOpen;
      this.controller := controller;
    }

    ghost function PacingNow(): (p: Pacing)
      requires Valid()
      reads this, controller
      ensures ValidPacing(p) && Follows(p, [])
    {
      if controller == null then Fixed(workers) else Adaptive(controller.limits, controller.State())
    }

    /** The controller has been told exactly these outcomes since the pacing started. */
    ghost predicate Follows(p: Pacing, outcomes: seq<bool>)
      requires ValidPacing(p)
      reads this, controller
    {
      if p.Fixed? then controller == null && workers == p.workers
      else controller != null && controller.limits == p.limits
           && controller.State() == ObserveAll(p.limits, p.start, outcomes)
    }

    function TargetWorkers(): (n: int)
      requires Valid()
      reads this, controller
      ensures 1 <= n <= workers
    {
      if controller == null then workers else controller.targetWorkers
    }

    method RecordFetchResult(success: bool, ghost p: Pacing, ghost outcomes: seq<bool>)
      requires Valid() && ValidPacing(p) && Follows(p, outcomes)
      modifies controller
      ensures Valid() && Follows(p, outcomes + [success])
    {
      assert (outcomes + [success])[..|outcomes|] == outcomes;
      if controller != null { controller.RecordFetchResult(success); }
    }
  }

  /** `submit_until_target`: pending is what was submitted and not yet collected. */
  method SubmitUntilTarget(run: Run, policy: ConcurrencyPolicy, stopSubmitting: bool, taskIndex: nat,
                           pending: set<nat>, trace: Trace, ghost p: Pacing)
    returns (taskIndex': nat, pending': set<nat>, trace': Trace)
    requires policy.Valid() && policy.workers == run.workers
    requires Between(run, trace, taskIndex, pending) && (stopSubmitting <==> Stopped(run, trace))
    requires ValidPacing(p) && Paced(p, trace) && policy.Follows(p, Told(trace))
    ensures Between(run, trace', taskIndex', pending') && (stopSubmitting <==> Stopped(run, trace'))
    ensures Settled(trace') == Settled(trace)
    ensures pending' == {} ==> taskIndex' == run.count
    ensures Paced(p, trace') && Told(trace') == Told(trace)
    ensures var target := TargetAfter(p, Told(trace));
      && |pending'| <= (if |pending| < target then target else |pending|)
      && (|pending'| >= target || taskIndex' == run.count || stopSubmitting)
  {
    taskIndex', pending', trace' := taskIndex, pending, trace;
    ghost var target := TargetAfter(p, Told(trace));
    assert policy.TargetWorkers() == target;
    while !stopSubmitting && taskIndex' < run.count && |pending'| < policy.TargetWorkers()
      invariant Between(run, trace', taskIndex', pending') && (stopSubmitting <==> Stopped(run, trace'))
      invariant Settled(trace') == Settled(trace)
      invariant Paced(p, trace') && Told(trace') == Told(trace)
      invariant |pending'| <= (if |pending| < target then target else |pending|)
      decreases run.count - taskIndex'
    {
      SubmitStep(run, trace', taskIndex', pending');
      PacedSubmit(p, trace', taskIndex');
      trace' := Then(trace', Submit(taskIndex'));
      pending' := pending' + {taskIndex'};
      taskIndex' := taskIndex' + 1;
    }
  }

  /** Skips every task that was never submitted. */
  method SkipRest(run: Run, taskIndex: nat, ghost pending: set<nat>, trace: Trace) returns (trace': Trace)
    requires Balanced(run, trace, taskIndex, pending) && Stopped(run, trace)
    ensures Balanced(run, trace', run.count, pending) && Stopped(run, trace') && Settled(trace) <= Settled(trace')
    ensures Told(trace') == Told(trace)
    ensures forall p :: ValidPacing(p) && Paced(p, trace) ==> Paced(p, trace')
  {
    trace' := trace;
    for t := taskIndex to run.count
      invariant Balanced(run, trace', t, pending) && Stopped(run, trace')
      invariant Settled(trace) <= Settled(trace') && Told(trace') == Told(trace)
      invariant forall p :: ValidPacing(p) && Paced(p, trace) ==> Paced(p, trace')
    {
      SkipRestStep(run, trace', t, pending);
      trace' := Then(trace', Skip(t));
    }
  }

  /** Collects one finished fetch: a result, or a skip if it too met the open circuit; the first
      open circuit also skips everything not yet submitted. */
  method Collect(run: Run, policy: ConcurrencyPolicy, circuitOpened: bool, task: nat, taskIndex: nat,
                 ghost pending: set<nat>, trace: Trace, ghost p: Pacing)
    returns (circuitOpened': bool, taskIndex': nat, trace': Trace)
    requires policy.Valid() && policy.stopOnCircuitOpen == run.stopOnCircuitOpen
    requires Between(run, trace, taskIndex, pending) && task in pending && (circuitOpened <==> Stopped(run, trace))
    requires ValidPacing(p) && Paced(p, trace) && policy.Follows(p, Told(trace))
    modifies policy.controller
    ensures policy.Valid() && Paced(p, trace') && policy.Follows(p, Told(trace'))
    ensures Between(run, trace', taskIndex', pending - {task}) && (circuitOpened' <==> Stopped(run, trace'))
    ensures Settled(trace) + {task} <= Settled(trace')
  {
    circuitOpened', taskIndex' := circuitOpened, taskIndex;
    var result := run.outcome(task);
    if circuitOpened && result == CircuitOpen {
      SkipPendingStep(run, trace, taskIndex, pending, task);
      trace' := Then(trace, Skip(task));
      return;
    }
    RecordStep(run, trace, taskIndex, pending, task);
    trace' := Then(trace, Record(task, result));
    policy.RecordFetchResult(result == Fetched, p, Told(trace));
    if policy.stopOnCircuitOpen && result == CircuitOpen {
      circuitOpened' := true;
      trace' := SkipRest(run, taskIndex, pending - {task}, trace');
      taskIndex' := run.count;
    }
  }

  /** `_run_concurrent_fetches`: any non-empty part of the pending fetches may finish next, and the
      finished ones are collected in any order. */
  method RunConcurrentFetches(run: Run, policy: ConcurrencyPolicy) returns (trace: Trace)
    requires policy.Valid() && policy.workers == run.workers && policy.stopOnCircuitOpen == run.stopOnCircuitOpen
    modifies policy.controller
    ensures Legal(run, trace) && AllSettled(run, trace)
    ensures Paced(old(policy.PacingNow()), trace) && policy.Follows(old(policy.PacingNow()), Told(trace))
  {
    ghost var p := policy.PacingNow();
    var taskIndex: nat, circuitOpened, pending := 0, false, {};
    trace := Start;
    taskIndex, pending, trace := SubmitUntilTarget(run, policy, circuitOpened, taskIndex, pending, trace, p);
    while pending != {}
      invariant policy.Valid() && Between(run, trace, taskIndex, pending)
      invariant circuitOpened <==> Stopped(run, trace)
      invariant pending == {} ==> taskIndex == run.count
      invariant Paced(p, trace) && policy.Follows(p, Told(trace))
      decreases Remaining(run.count, Settled(trace))
    {
      var done :| done <= pending && done != {};
      ghost var before := Settled(trace);
      while done != {}
        invariant policy.Valid() && Between(run, trace, taskIndex, pending)
        invariant circuitOpened <==> Stopped(run, trace)
        invariant done <= pending && before <= Settled(trace)
        invariant done == {} ==> before < Settled(trace)
        invariant Paced(p, trace) && policy.Follows(p, Told(trace))
        decreases done
      {
        var task :| task in done;
        done := done - {task};
        circuitOpened, taskIndex, trace := Collect(run, policy, circuitOpened, task, taskIndex, pending, trace, p);
        pending := pending - {task};
      }
      taskIndex, pending, trace := SubmitUntilTarget(run, policy, circuitOpened, taskIndex, pending, trace, p);
      RemainingShrinks(run.count, before, Settled(trace));
    }
  }

  /** The one-worker loop of `_run_module`. */
  method RunSequentialFetches(run: Run, policy: ConcurrencyPolicy) returns (trace: Trace)
    requires policy.Valid() && run.workers == 1 && policy.stopOnCircuitOpen == run.stopOnCircuitOpen
    modifies policy.controller
    ensures Legal(run, trace) && AllSettled(run, trace)
    ensures policy.Follows(old(policy.PacingNow()), Told(trace))
  {
    ghost var p := policy.PacingNow();
    trace := Start;
    for t := 0 to run.count
      invariant policy.Valid() && Between(run, trace, t, {}) && !Stopped(run, trace)
      invariant policy.Follows(p, Told(trace))
    {
      SubmitStep(run, trace, t, {});
      trace := Then(trace, Submit(t));
      var result := run.outcome(t);
      assert {} + {t} == {t} && {t} - {t} == {};
      RecordStep(run, trace, t + 1, {t}, t);
      trace := Then(trace, Record(t, result));
      policy.RecordFetchResult(result == Fetched, p, Told(trace.past));
      if policy.stopOnCircuitOpen && result == CircuitOpen {
        trace := SkipRest(run, t + 1, {}, trace);
        return;
      }
    }
  }
}
