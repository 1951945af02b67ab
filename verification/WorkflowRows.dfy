/** One turn of the daily workflow said status by status: which row a step leaves, which command it runs
    and what the outside sees of it. */
module WorkflowRows {
  import opened Common
  import opened Workflow
  import opened WorkflowSafety

  // ---------------------------------------------------------------- rows and dependencies

  /** Where the row of a step id is filed under a policy. */
  ghost function Filed(run: Run, policy: Policy, id: string): Key {
    match policy
    case ByNaturalDate => Key(NaturalDate(run.periods.natural), id)
    case ByMarketDate => Key(MarketDate(run.periods.market), id)
    case ByRunInstance => Key(RunInstance(run.periods.stamp), id)
  }

  /** The row there has one of the statuses. */
  ghost predicate RowIn(run: Run, state: State, policy: Policy, id: string, statuses: set<Status>) {
    var key := Filed(run, policy, id);
    key in state && state[key].status in statuses
  }

  /** The policy under which a dependency is looked up: its own; else that of the last step of its id; else
      the natural date. */
  ghost predicate Resolves(steps: seq<Step>, dep: Dependency, policy: Policy) {
    || dep.policy == Some(policy)
    || (dep.policy.None? && exists i :: 0 <= i < |steps| && steps[i].id == dep.step && steps[i].policy == policy
                                        && forall j :: i < j < |steps| ==> steps[j].id != dep.step)
    || (dep.policy.None? && policy == ByNaturalDate && forall i :: 0 <= i < |steps| ==> steps[i].id != dep.step)
  }

  ghost predicate DependencyIn(run: Run, state: State, dep: Dependency, statuses: set<Status>) {
    exists policy :: Resolves(run.steps, dep, policy) && RowIn(run, state, policy, dep.step, statuses)
  }

  ghost predicate Done(run: Run, state: State, dep: Dependency) {
    DependencyIn(run, state, dep, {Success, SuccessDegraded, Skipped, SkippedCheckpoint})
  }

  ghost predicate DoneCleanly(run: Run, state: State, dep: Dependency) {
    DependencyIn(run, state, dep, {Success, Skipped, SkippedCheckpoint})
  }

  // ---------------------------------------------------------------- build-derived

  /** The argument is read as an option, not as the value of a `--target` before it. */
  ghost predicate IsOption(command: seq<string>, i: nat)
    requires i < |command|
  {
    i == 0 || !IsOption(command, i - 1) || command[i - 1] != "--target"
  }

  /** The option asks for the target, with the value after it or in it. */
  ghost predicate AsksAt(command: seq<string>, target: string, i: nat)
    requires i < |command|
  {
    IsOption(command, i)
    && (|| (command[i] == "--target" && i + 1 < |command| && command[i + 1] == target)
        || command[i] == "--target=" + target)
  }

  ghost predicate Asks(command: seq<string>, target: string) {
    exists i :: 0 <= i < |command| && AsksAt(command, target, i)
  }

  /** Every target, by name or because none is named. */
  ghost predicate AsksForAll(command: seq<string>) {
    Asks(command, "all") || forall target :: !Asks(command, target)
  }

  ghost predicate LeavesOut(command: seq<string>) {
    "--exclude-target=daily_bar" in command
    || exists i :: 0 <= i < |command| - 1 && command[i] == "--exclude-target" && command[i + 1] == "daily_bar"
  }

  /** The command with the exclusion in front of the first `--no-build-duckdb-views`, or at its end. */
  ghost predicate WithExclusion(command: seq<string>, changed: seq<string>) {
    exists p :: 0 <= p <= |command| && ExcludedAt(command, changed, p)
  }

  ghost predicate ExcludedAt(command: seq<string>, changed: seq<string>, p: nat)
    requires p <= |command|
  {
    && (forall i :: 0 <= i < p ==> command[i] != "--no-build-duckdb-views")
    && (p == |command| || command[p] == "--no-build-duckdb-views")
    && changed == command[..p] + ["--exclude-target", "daily_bar"] + command[p..]
  }

  /** Without its soft dependency on the daily bars such a step must not run. */
  ghost predicate Forbidden(step: Step, dependency: string) {
    dependency == "akshare-daily-bar"
    && (|| step.id == "build-derived-daily-bar"
        || (step.id == "build-derived" && Asks(step.command, "daily_bar") && !AsksForAll(step.command)
            && !LeavesOut(step.command)))
  }

  /** Such a step runs without the daily bars. */
  ghost predicate Narrowed(step: Step, dependency: string) {
    dependency == "akshare-daily-bar" && step.id == "build-derived" && AsksForAll(step.command)
    && !LeavesOut(step.command)
  }

  // ---------------------------------------------------------------- one turn

  ghost predicate Reached(run: Run, i: nat)
    requires i < |run.steps|
  {
    run.startAt.None? || exists j :: 0 <= j <= i && run.startAt == Some(run.steps[j].id)
  }

  ghost predicate Resumed(run: Run, state: State, step: Step) {
    && run.startAt.None? && !run.force && !run.ignoreState && step.resume == SkipIfSuccess
    && RowIn(run, state, step.policy, step.id, {Success})
  }

  /** A hard dependency is not done, or a soft one that is not done forbids the step. */
  ghost predicate HeldBack(run: Run, state: State, step: Step) {
    exists j :: 0 <= j < |step.dependsOn| && !Done(run, state, step.dependsOn[j])
      && (!step.dependsOn[j].soft || Forbidden(step, step.dependsOn[j].step))
  }

  /** Some soft dependency that is not done narrows the command. */
  ghost predicate IsNarrowed(run: Run, state: State, step: Step) {
    exists j :: 0 <= j < |step.dependsOn| && step.dependsOn[j].soft && !Done(run, state, step.dependsOn[j])
      && Narrowed(step, step.dependsOn[j].step)
  }

  ghost predicate AllDoneCleanly(run: Run, state: State, step: Step) {
    forall j :: 0 <= j < |step.dependsOn| ==> DoneCleanly(run, state, step.dependsOn[j])
  }

  /** The exit code that says a step with a timeout ran into it, or could not be cleaned up after it. */
  ghost predicate TimedOut(step: Step, exit: int) { step.timed && exit == 124 }
  ghost predicate NotCleanedUp(step: Step, exit: int) { step.timed && exit == 125 }

  /** What an exit code puts into the row. */
  ghost predicate Recorded(step: Step, exit: int, unlocked: bool, clean: bool, status: Status) {
    && (status == Success <==> exit == 0 && clean)
    && (status == SuccessDegraded <==> exit == 0 && !clean)
    && (status == SkippedTimeout <==> step.optional && TimedOut(step, exit) && unlocked)
    && (status == FailedResourceLocked <==> step.optional && TimedOut(step, exit) && !unlocked)
    && (status == FailedTimeoutCleanup <==> step.optional && NotCleanedUp(step, exit))
    && (status == Skipped <==> step.optional && exit != 0 && !TimedOut(step, exit) && !NotCleanedUp(step, exit))
    && (status == Failed <==> !step.optional && exit != 0)
  }

  /** After such an exit code the run takes no further step. */
  ghost predicate EndsRun(step: Step, exit: int, unlocked: bool) {
    NotCleanedUp(step, exit) || (TimedOut(step, exit) && !unlocked)
  }

  /** A step that runs: its row says running on file before the call and holds the outcome after it. */
  ghost predicate Ran(run: Run, p: Progress, i: nat, q: Progress)
    requires i < |run.steps|
  {
    var step, exit, unlocked := run.steps[i], run.exits(i), run.unlocked(i);
    var key := Filed(run, step.policy, step.id);
    && key in q.state
    && Recorded(step, exit, unlocked, AllDoneCleanly(run, p.state, step), q.state[key].status)
    && q.state == p.state[key := Row(q.state[key].status, Some(exit))]
    && (q.stopped <==> EndsRun(step, exit, unlocked))
    && q.failed == (if p.failed.Some? then p.failed
                    else if exit != 0 && (!step.optional || EndsRun(step, exit, unlocked)) then Some(exit) else None)
    && |q.events| == |p.events| + 3 && q.events[..|p.events|] == p.events
    && q.events[|p.events|] == Write(p.state[key := Row(Running, None)])
    && q.events[|p.events| + 2] == Write(q.state)
    && var call := q.events[|p.events| + 1];
      && call.Call? && call == Call(i, key, call.command, p.state, exit)
      && if IsNarrowed(run, p.state, step) then WithExclusion(step.command, call.command)
         else call.command == step.command
  }

  /** One turn of the loop, in the order in which the cases are tried. */
  ghost predicate Turns(run: Run, p: Progress, i: nat, q: Progress)
    requires i < |run.steps|
  {
    var step := run.steps[i];
    var key := Filed(run, step.policy, step.id);
    if p.stopped then q == p
    else if !Reached(run, i) then q == p.(state := p.state[key := Row(Skipped, Some(0))], startSeen := false)
    else if Resumed(run, p.state, step) then q == p.(startSeen := true)
    else if HeldBack(run, p.state, step) then
      var state := p.state[key := Row(Blocked, Some(1))];
      q == p.(state := state, startSeen := true, events := p.events + [Write(state)])
    else Ran(run, p, i, q)
  }

  // ---------------------------------------------------------------- proofs

  lemma {:induction false} FiledIs(run: Run, policy: Policy, id: string)
    ensures Filed(run, policy, id) == Key(PeriodFor(policy, run.periods), id)
  {
  }

  lemma {:induction false} PolicyOfIs(steps: seq<Step>, id: string)
    ensures (exists i :: 0 <= i < |steps| && steps[i].id == id && steps[i].policy == PolicyOf(steps, id)
                         && forall j :: i < j < |steps| ==> steps[j].id != id)
         || (PolicyOf(steps, id) == ByNaturalDate && forall i :: 0 <= i < |steps| ==> steps[i].id != id)
  {
    if steps != [] {
      var front := steps[..|steps| - 1];
      PolicyOfIs(front, id);
      if steps[|steps| - 1].id != id {
        if i :| 0 <= i < |front| && front[i].id == id && front[i].policy == PolicyOf(front, id)
                && forall j :: i < j < |front| ==> front[j].id != id
        {
          assert steps[i] == front[i];
          assert forall j :: i < j < |front| ==> steps[j] == front[j];
        } else {
          assert forall j :: 0 <= j < |front| ==> steps[j] == front[j];
        }
      }
    }
  }

  lemma {:induction false} ResolvesIs(steps: seq<Step>, dep: Dependency, policy: Policy)
    ensures Resolves(steps, dep, policy) <==> policy == PolicyFor(steps, dep)
  {
    PolicyOfIs(steps, dep.step);
  }

  lemma {:induction false} DependencyInIs(run: Run, state: State, dep: Dependency, statuses: set<Status>)
    ensures DependencyIn(run, state, dep, statuses) <==>
      DependencyStatus(run, state, dep).Some? && DependencyStatus(run, state, dep).value in statuses
  {
    var policy := PolicyFor(run.steps, dep);
    ResolvesIs(run.steps, dep, policy);
    FiledIs(run, policy, dep.step);
    if DependencyIn(run, state, dep, statuses) {
      var other :| Resolves(run.steps, dep, other) && RowIn(run, state, other, dep.step, statuses);
      ResolvesIs(run.steps, dep, other);
    }
  }

  lemma {:induction false} DoneIs(run: Run, state: State, dep: Dependency)
    ensures Done(run, state, dep) <==> Satisfied(run, state, dep)
    ensures DoneCleanly(run, state, dep) <==> Clean(run, state, dep)
  {
    DependencyInIs(run, state, dep, {Success, SuccessDegraded, Skipped, SkippedCheckpoint});
    DependencyInIs(run, state, dep, {Success, Skipped, SkippedCheckpoint});
  }

  // ---------------------------------------------------------------- commands

  lemma {:induction false} OptionsOfRest(command: seq<string>, k: nat, i: nat)
    requires k + i < |command| && IsOption(command, k)
    ensures IsOption(command[k..], i) <==> IsOption(command, k + i)
  {
    if i > 0 { OptionsOfRest(command, k, i - 1); }
  }

  /** What is asked for is asked for by the first option or by the rest after its value. */
  lemma {:induction false} AsksOfRest(command: seq<string>, target: string, k: nat)
    requires 0 < k <= |command| && (k < |command| ==> IsOption(command, k))
    requires forall i :: 0 < i < k ==> !IsOption(command, i)
    ensures Asks(command, target) <==> AsksAt(command, target, 0) || Asks(command[k..], target)
  {
    var rest := command[k..];
    forall i: nat | i < |rest| ensures AsksAt(rest, target, i) <==> AsksAt(command, target, k + i) {
      OptionsOfRest(command, k, i);
    }
    if Asks(command, target) {
      var i :| 0 <= i < |command| && AsksAt(command, target, i);
      assert i == 0 || i >= k;
      if i >= k { assert AsksAt(rest, target, i - k); }
    }
    if Asks(rest, target) {
      var i :| 0 <= i < |rest| && AsksAt(rest, target, i);
      assert AsksAt(command, target, k + i);
    }
  }

  lemma {:induction false} TargetsAre(command: seq<string>, target: string)
    ensures target in Targets(command) <==> Asks(command, target)
    decreases |command|
  {
    if command != [] {
      if command[0] == "--target" && |command| > 1 {
        AsksOfRest(command, target, 2);
        TargetsAre(command[2..], target);
      } else {
        AsksOfRest(command, target, 1);
        TargetsAre(command[1..], target);
        if "--target=" <= command[0] { assert command[0] == "--target=" + command[0][9..]; }
      }
    }
  }

  lemma {:induction false} AllAsked(command: seq<string>)
    ensures AsksForAll(command) <==> "all" in Targets(command) || Targets(command) == []
  {
    TargetsAre(command, "all");
    forall target ensures Asks(command, target) <==> target in Targets(command) { TargetsAre(command, target); }
    if Targets(command) != [] { assert Asks(command, Targets(command)[0]); }
  }

  lemma {:induction false} LeavesOutIs(command: seq<string>)
    ensures LeavesOut(command) <==> ExcludesDailyBar(command)
  {
  }

  lemma {:induction false} ExclusionIs(command: seq<string>)
    ensures WithExclusion(command, ExcludeDailyBar(command))
  {
    if command == [] || command[0] == "--no-build-duckdb-views" {
      assert ExcludedAt(command, ExcludeDailyBar(command), 0);
    } else {
      var rest := command[1..];
      ExclusionIs(rest);
      var p :| 0 <= p <= |rest| && ExcludedAt(rest, ExcludeDailyBar(rest), p);
      ExcludedLater(command[0], rest, ExcludeDailyBar(rest), p);
      assert command == [command[0]] + rest;
    }
  }

  lemma {:induction false} ExcludedLater(first: string, rest: seq<string>, changed: seq<string>, p: nat)
    requires p <= |rest| && ExcludedAt(rest, changed, p) && first != "--no-build-duckdb-views"
    ensures ExcludedAt([first] + rest, [first] + changed, p + 1)
  {
    var command := [first] + rest;
    assert command[..p + 1] == [first] + rest[..p] && command[p + 1..] == rest[p..];
  }

  lemma {:induction false} RewriteIs(step: Step, dependency: string)
    ensures Rewritten(step, dependency).Refused? <==> Forbidden(step, dependency)
    ensures Rewritten(step, dependency).Changed? ==>
      Rewritten(step, dependency).command
      == if Narrowed(step, dependency) then ExcludeDailyBar(step.command) else step.command
    ensures Narrowed(step, dependency) ==> Rewritten(step, dependency).Changed?
  {
    TargetsAre(step.command, "daily_bar");
    AllAsked(step.command);
    LeavesOutIs(step.command);
  }

  ghost predicate NarrowedUpTo(run: Run, state: State, step: Step, n: nat)
    requires n <= |step.dependsOn|
  {
    exists j :: 0 <= j < n && step.dependsOn[j].soft && !Satisfied(run, state, step.dependsOn[j])
      && Narrowed(step, step.dependsOn[j].step)
  }

  lemma {:induction false} ScanCommand(run: Run, step: Step, state: State, n: nat)
    requires n <= |step.dependsOn|
    ensures ScanSoft(run, step, state, n).command
         == if NarrowedUpTo(run, state, step, n) then ExcludeDailyBar(step.command) else step.command
  {
    if n > 0 {
      ScanCommand(run, step, state, n - 1);
      var dep := step.dependsOn[n - 1];
      RewriteIs(step, dep.step);
      if dep.soft && !Satisfied(run, state, dep) && Narrowed(step, dep.step) {
        assert NarrowedUpTo(run, state, step, n);
      } else {
        assert NarrowedUpTo(run, state, step, n) <==> NarrowedUpTo(run, state, step, n - 1);
        if NarrowedUpTo(run, state, step, n - 1) && !Narrowed(step, dep.step) {
          NarrowedIsOne(run, step, state, n - 1, dep.step);
        }
      }
    }
  }

  /** Only one dependency narrows, so that a later change cannot undo an earlier one. */
  lemma {:induction false} NarrowedIsOne(run: Run, step: Step, state: State, n: nat, dependency: string)
    requires n <= |step.dependsOn| && NarrowedUpTo(run, state, step, n) && !Narrowed(step, dependency)
    ensures !Rewritten(step, dependency).Changed?
  {
  }

  // ---------------------------------------------------------------- turns

  lemma {:induction false} OutcomeRecords(step: Step, exit: int, unlocked: bool, degraded: bool)
    ensures var o := OutcomeOf(step, exit, unlocked, degraded);
      && Recorded(step, exit, unlocked, !degraded, o.status)
      && (o.stops <==> EndsRun(step, exit, unlocked))
      && (o.fails <==> exit != 0 && (!step.optional || EndsRun(step, exit, unlocked)))
  {
  }

  lemma {:induction false} HeldBackIs(run: Run, step: Step, state: State)
    ensures HeldBack(run, state, step)
       <==> !HardMet(run, state, step.dependsOn) || ScanSoft(run, step, state, |step.dependsOn|).refused
  {
    var deps := step.dependsOn;
    ScanRefuses(run, step, state, |deps|);
    forall j | 0 <= j < |deps|
      ensures Done(run, state, deps[j]) <==> Satisfied(run, state, deps[j])
      ensures Rewritten(step, deps[j].step).Refused? <==> Forbidden(step, deps[j].step)
    {
      DoneIs(run, state, deps[j]);
      RewriteIs(step, deps[j].step);
    }
    assert Refuses(run, state, step, |deps|) <==>
      exists j :: 0 <= j < |deps| && deps[j].soft && !Done(run, state, deps[j]) && Forbidden(step, deps[j].step);
    assert HardMet(run, state, deps) <==> forall j :: 0 <= j < |deps| && !deps[j].soft ==> Done(run, state, deps[j]);
  }

  lemma {:induction false} NarrowedIs(run: Run, step: Step, state: State)
    ensures IsNarrowed(run, state, step) <==> NarrowedUpTo(run, state, step, |step.dependsOn|)
  {
    var deps := step.dependsOn;
    forall j | 0 <= j < |deps| ensures Done(run, state, deps[j]) <==> Satisfied(run, state, deps[j]) {
      DoneIs(run, state, deps[j]);
    }
  }

  lemma {:induction false} CleanIs(run: Run, step: Step, state: State)
    ensures AllDoneCleanly(run, state, step) <==> AllClean(run, state, step.dependsOn)
  {
    var deps := step.dependsOn;
    forall j | 0 <= j < |deps| ensures DoneCleanly(run, state, deps[j]) <==> Clean(run, state, deps[j]) {
      DoneIs(run, state, deps[j]);
    }
  }

  /** How the loop decides, in the words above. */
  lemma {:induction false} DecisionIs(run: Run, step: Step, state: State, startSeen: bool)
    ensures var verdict, reached := Decide(run, step, state, startSeen), startSeen || run.startAt == Some(step.id);
      && (verdict.BeforeStart? <==> !reached)
      && (verdict.AlreadySuccessful? <==> reached && Resumed(run, state, step))
      && (verdict.Block? <==> reached && !Resumed(run, state, step) && HeldBack(run, state, step))
      && (verdict.Execute? ==>
            && (verdict.degraded <==> !AllDoneCleanly(run, state, step))
            && (if IsNarrowed(run, state, step) then WithExclusion(step.command, verdict.command)
                else verdict.command == step.command))
  {
    FiledIs(run, step.policy, step.id);
    HeldBackIs(run, step, state);
    NarrowedIs(run, step, state);
    CleanIs(run, step, state);
    ScanCommand(run, step, state, |step.dependsOn|);
    ExclusionIs(step.command);
    if Decide(run, step, state, startSeen).Execute? { ExecuteMeans(run, step, state, startSeen); }
  }

  lemma {:induction false} ExecutedRan(run: Run, p: Progress, i: nat)
    requires i < |run.steps| && !p.stopped && Decide(run, run.steps[i], p.state, p.startSeen).Execute?
    ensures Ran(run, p, i, Advance(run, p, i))
  {
    var step := run.steps[i];
    var verdict := Decide(run, step, p.state, p.startSeen);
    FiledIs(run, step.policy, step.id);
    DecisionIs(run, step, p.state, p.startSeen);
    OutcomeRecords(step, run.exits(i), run.unlocked(i), verdict.degraded);
    var q, key := Advance(run, p, i), KeyOf(run, step);
    var outcome := OutcomeOf(step, run.exits(i), run.unlocked(i), verdict.degraded);
    var more := [Write(p.state[key := Row(Running, None)]), Call(i, key, verdict.command, p.state, run.exits(i)),
                 Write(p.state[key := Row(outcome.status, Some(run.exits(i)))])];
    assert q.events == p.events + more;
    assert q.events[..|p.events|] == p.events;
    assert q.events[|p.events| + 1] == more[1] && q.events[|p.events| + 2] == more[2];
  }

  /** Every turn of every run on every file is such a turn. */
  lemma {:induction false} EveryStepTurns(run: Run, file: State, i: nat)
    requires i < |run.steps|
    ensures Turns(run, After(run, file, i), i, After(run, file, i + 1))
  {
    var p, step := After(run, file, i), run.steps[i];
    AfterStep(run, file, i + 1);
    SeenIffStarted(run, file, i);
    FiledIs(run, step.policy, step.id);
    DecisionIs(run, step, p.state, p.startSeen);
    assert Reached(run, i) <==> Started(run, i) || run.startAt == Some(step.id);
    if !p.stopped && Decide(run, step, p.state, p.startSeen).Execute? { ExecutedRan(run, p, i); }
  }

  // ---------------------------------------------------------------- the ends of a run

  ghost predicate AnyJudged(run: Run, file: State) {
    exists k :: k in file && file[k].status == Running && run.judged(k)
  }

  /** Before the first turn: exactly the running rows that are judged abandoned say so, with exit code 1,
      and the file is written exactly if there is one. */
  ghost predicate Begun(run: Run, file: State, p: Progress) {
    && p.state.Keys == file.Keys
    && (forall k :: k in file ==>
          p.state[k] == if file[k].status == Running && run.judged(k) then Row(Abandoned, Some(1)) else file[k])
    && p.events == (if AnyJudged(run, file) then [Write(p.state)] else [])
    && p.failed == None && !p.stopped && (p.startSeen <==> run.startAt == None)
  }

  lemma {:induction false} RunBegins(run: Run, file: State)
    ensures Begun(run, file, After(run, file, 0))
  {
  }

  /** A step is called exactly if the run reaches it, does not resume it and nothing holds it back. */
  lemma {:induction false} CalledExactly(run: Run, file: State, i: nat)
    requires i < |run.steps|
    ensures var p, step := After(run, file, i), run.steps[i];
      Called(RunAll(run, file).events, i)
      <==> !p.stopped && Reached(run, i) && !Resumed(run, p.state, step) && !HeldBack(run, p.state, step)
  {
    var p, step := After(run, file, i), run.steps[i];
    StepCalledIff(run, file, i);
    FiledIs(run, step.policy, step.id);
    HeldBackIs(run, step, p.state);
    ScanRefuses(run, step, p.state, |step.dependsOn|);
    assert Reached(run, i) <==> Started(run, i + 1);
  }

  /** What a hard dependency's row does to its dependents: one given up after a timeout, failed, blocked,
      abandoned or still running keeps them from being called. */
  lemma {:induction false} BadRowBlocks(run: Run, file: State, i: nat, dep: Dependency)
    requires i < |run.steps| && dep in run.steps[i].dependsOn && !dep.soft
    requires DependencyIn(run, After(run, file, i).state, dep,
      {SkippedTimeout, Failed, FailedResourceLocked, FailedTimeoutCleanup, Blocked, Abandoned, Running})
    ensures !Called(RunAll(run, file).events, i)
  {
    var step, state := run.steps[i], After(run, file, i).state;
    DependencyInIs(run, state, dep,
      {SkippedTimeout, Failed, FailedResourceLocked, FailedTimeoutCleanup, Blocked, Abandoned, Running});
    DependencyInIs(run, state, dep, {Success, SuccessDegraded, Skipped, SkippedCheckpoint});
    assert HeldBack(run, state, step);
    CalledExactly(run, file, i);
  }

  /** Done, degraded and skipped ones do not: without soft dependencies such a step is called when the run
      reaches it and does not resume it. */
  lemma {:induction false} GoodRowsRun(run: Run, file: State, i: nat)
    requires i < |run.steps| && !After(run, file, i).stopped && Reached(run, i)
    requires !Resumed(run, After(run, file, i).state, run.steps[i])
    requires forall dep :: dep in run.steps[i].dependsOn ==>
      && !dep.soft
      && DependencyIn(run, After(run, file, i).state, dep, {Success, SuccessDegraded, Skipped, SkippedCheckpoint})
    ensures Called(RunAll(run, file).events, i)
  {
    CalledExactly(run, file, i);
  }
}
