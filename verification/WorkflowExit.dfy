/** What the exit code of the daily workflow says about the rows a run leaves on file, for which
    schedules it can hide something, and how a later run recovers. */
module WorkflowExit {
  import opened Common
  import opened Workflow
  import opened WorkflowSafety
  import opened WorkflowRows

  // ---------------------------------------------------------------- exit code

  ghost predicate StatusFails(run: Run, state: State, i: nat)
    requires i < |run.steps|
  {
    StatusOf(run, state, i) in {Some(Failed), Some(FailedResourceLocked), Some(FailedTimeoutCleanup), Some(Abandoned)}
  }

  /** No scheduled step's own row is failing or blocked. */
  ghost predicate AllWell(run: Run, state: State) {
    forall i :: 0 <= i < |run.steps| ==> !StatusFails(run, state, i) && StatusOf(run, state, i) != Some(Blocked)
  }

  ghost function CodeOf(run: Run, file: State): int {
    FinalExitCode(run, RunAll(run, file).state, RunAll(run, file).failed)
  }

  ghost predicate Truthful(run: Run, file: State) {
    CodeOf(run, file) == 0 <==> AllWell(run, RunAll(run, file).state)
  }

  /** What this run recorded as the failure of a step. */
  ghost function FailureAt(run: Run, file: State, i: nat): Option<int>
    requires i < |run.steps|
  {
    var p, step := After(run, file, i), run.steps[i];
    if p.stopped then None
    else
      match Decide(run, step, p.state, p.startSeen)
      case Execute(_, degraded) =>
        if OutcomeOf(step, run.exits(i), run.unlocked(i), degraded).fails then Some(run.exits(i)) else None
      case _ => None
  }

  ghost function FirstFailure(run: Run, file: State, n: nat): Option<int>
    requires n <= |run.steps|
  {
    if n == 0 then None
    else if FirstFailure(run, file, n - 1).Some? then FirstFailure(run, file, n - 1)
    else FailureAt(run, file, n - 1)
  }

  lemma {:induction false} FailedStep(run: Run, file: State, n: nat)
    requires n < |run.steps|
    ensures var p := After(run, file, n);
      Advance(run, p, n).failed == if p.failed.Some? then p.failed else FailureAt(run, file, n)
  {
  }

  lemma {:induction false} FailedIsFirst(run: Run, file: State, n: nat)
    requires n <= |run.steps|
    ensures After(run, file, n).failed == FirstFailure(run, file, n)
  {
    if n > 0 {
      FailedIsFirst(run, file, n - 1);
      FailedStep(run, file, n - 1);
      AfterStep(run, file, n);
    }
  }

  // ---------------------------------------------------------------- ids that occur more than once

  ghost predicate SameRow(a: Step, b: Step) { a.id == b.id && a.policy == b.policy }

  lemma {:induction false} SameRowIsSameKey(run: Run, a: Step, b: Step)
    ensures SameRow(a, b) <==> KeyOf(run, a) == KeyOf(run, b)
  {
  }

  /** A step before n writes the row of step i again. */
  ghost predicate Overwritten(steps: seq<Step>, i: nat, n: nat)
    requires i < n <= |steps|
  {
    exists j :: i < j < n && SameRow(steps[i], steps[j])
  }

  /** The exit code looks at another row than that of step i. */
  ghost predicate Unreported(steps: seq<Step>, i: nat)
    requires i < |steps|
  {
    PolicyOf(steps, steps[i].id) != steps[i].policy
  }

  /** Has a dependency that, unsatisfied, keeps the step from running. */
  ghost predicate CanBlock(step: Step) {
    exists j :: 0 <= j < |step.dependsOn|
      && (!step.dependsOn[j].soft || Rewritten(step, step.dependsOn[j].step).Refused?)
  }

  /** A step whose row a later one writes again is optional. */
  ghost predicate RewrittenAreOptional(steps: seq<Step>) {
    forall i :: 0 <= i < |steps| && Overwritten(steps, i, |steps|) ==> steps[i].optional
  }

  /** And the last step of a row that the exit code does not look at never blocks. */
  ghost predicate NothingHidden(steps: seq<Step>) {
    && RewrittenAreOptional(steps)
    && forall i :: 0 <= i < |steps| && Unreported(steps, i) && !Overwritten(steps, i, |steps|) ==> !CanBlock(steps[i])
  }

  ghost predicate DistinctIds(run: Run) {
    forall i, j :: 0 <= i < j < |run.steps| ==> run.steps[i].id != run.steps[j].id
  }

  /** The row of a step is in the end that of the last step that writes it. */
  lemma {:induction false} LastOfRow(steps: seq<Step>, i: nat) returns (last: nat)
    requires i < |steps|
    ensures i <= last < |steps| && SameRow(steps[i], steps[last]) && !Overwritten(steps, last, |steps|)
    decreases |steps| - i
  {
    last := i;
    if Overwritten(steps, i, |steps|) {
      var j :| i < j < |steps| && SameRow(steps[i], steps[j]);
      last := LastOfRow(steps, j);
    }
  }

  /** The reported row of an id is the own row of its last step. */
  lemma {:induction false} LastOfId(steps: seq<Step>, i: nat) returns (last: nat)
    requires i < |steps|
    ensures i <= last < |steps| && steps[last].id == steps[i].id && !Unreported(steps, last)
  {
    var front := steps[..|steps| - 1];
    if steps[|steps| - 1].id == steps[i].id {
      last := |steps| - 1;
    } else {
      last := LastOfId(front, i);
    }
  }

  lemma {:induction false} DistinctIdsHideNothing(run: Run)
    requires DistinctIds(run)
    ensures NothingHidden(run.steps)
  {
    var steps := run.steps;
    forall i | 0 <= i < |steps| ensures !Overwritten(steps, i, |steps|) && !Unreported(steps, i) {
      var last := LastOfId(steps, i);
    }
  }

  // ---------------------------------------------------------------- what the rows say

  /** How a step that was reached without any failure so far may end. */
  ghost predicate DoneOrBlocked(step: Step, s: Option<Status>) {
    || s == Some(Success) || s == Some(SuccessDegraded) || s == Some(Skipped)
    || (s == Some(Blocked) && CanBlock(step))
    || (s == Some(SkippedTimeout) && step.optional)
  }

  /** A step touches no row but its own. */
  lemma {:induction false} OthersStay(run: Run, p: Progress, n: nat, i: nat)
    requires n < |run.steps| && i < |run.steps| && !SameRow(run.steps[i], run.steps[n])
    ensures StatusOf(run, Advance(run, p, n).state, i) == StatusOf(run, p.state, i)
  {
    SameRowIsSameKey(run, run.steps[i], run.steps[n]);
  }

  lemma {:induction false} BlockMeans(run: Run, step: Step, state: State, startSeen: bool)
    requires Decide(run, step, state, startSeen).Block?
    ensures CanBlock(step)
  {
    ScanRefuses(run, step, state, |step.dependsOn|);
  }

  /** The row a step leaves behind. */
  lemma {:induction false} LastRow(run: Run, p: Progress, i: nat)
    requires i < |run.steps|
    ensures var q := Advance(run, p, i);
      && (p.stopped ==> q == p)
      && (p.failed.Some? ==> q.failed == p.failed)
      && (q.failed != p.failed ==>
            && q.failed == Some(run.exits(i)) && run.exits(i) != 0 && StatusFails(run, q.state, i)
            && (q.stopped || !run.steps[i].optional))
      && (q.stopped ==> p.stopped || q.failed.Some?)
      && (!p.stopped && q.failed.None? ==> DoneOrBlocked(run.steps[i], StatusOf(run, q.state, i)))
  {
    if Decide(run, run.steps[i], p.state, p.startSeen).Block? {
      BlockMeans(run, run.steps[i], p.state, p.startSeen);
    }
  }

  /** Without a failure so far, every step left its row in good order or blocked, unless a later step
      has written it again. */
  ghost predicate Unfailed(run: Run, p: Progress, n: nat)
    requires n <= |run.steps|
  {
    && (p.stopped ==> p.failed.Some?)
    && (p.failed.None? ==> forall i :: 0 <= i < n ==>
          Overwritten(run.steps, i, n) || DoneOrBlocked(run.steps[i], StatusOf(run, p.state, i)))
  }

  lemma {:induction false} UnfailedStep(run: Run, p: Progress, n: nat)
    requires n < |run.steps| && Unfailed(run, p, n)
    ensures Unfailed(run, Advance(run, p, n), n + 1)
  {
    var q := Advance(run, p, n);
    LastRow(run, p, n);
    if q.failed.None? {
      forall i | 0 <= i < n
        ensures Overwritten(run.steps, i, n + 1) || DoneOrBlocked(run.steps[i], StatusOf(run, q.state, i))
      {
        if !SameRow(run.steps[i], run.steps[n]) { OthersStay(run, p, n, i); }
      }
    }
  }

  /** A recorded failure is nonzero and still stands in some row. */
  ghost predicate FailureShows(run: Run, p: Progress, n: nat)
    requires n <= |run.steps|
  {
    p.failed.Some? ==>
      && p.failed.value != 0
      && exists i :: 0 <= i < n && StatusFails(run, p.state, i) && (p.stopped || !run.steps[i].optional)
  }

  lemma {:induction false} FailureShowsStep(run: Run, p: Progress, n: nat)
    requires n < |run.steps| && RewrittenAreOptional(run.steps) && FailureShows(run, p, n)
    ensures FailureShows(run, Advance(run, p, n), n + 1)
  {
    var q := Advance(run, p, n);
    LastRow(run, p, n);
    if p.failed.Some? && !p.stopped {
      var i :| 0 <= i < n && StatusFails(run, p.state, i) && !run.steps[i].optional;
      assert !SameRow(run.steps[i], run.steps[n]) by { assert !Overwritten(run.steps, i, |run.steps|); }
      OthersStay(run, p, n, i);
      assert StatusFails(run, q.state, i);
    }
  }

  ghost function UnfailedOf(run: Run): (Progress, nat) -> bool {
    (p: Progress, n: nat) => n <= |run.steps| && Unfailed(run, p, n)
  }

  ghost function FailureShowsOf(run: Run): (Progress, nat) -> bool {
    (p: Progress, n: nat) => n <= |run.steps| && FailureShows(run, p, n)
  }

  lemma {:induction false} UnfailedKept(run: Run, file: State)
    ensures Unfailed(run, RunAll(run, file), |run.steps|)
  {
    var ok := UnfailedOf(run);
    forall p, m: nat | m < |run.steps| && ok(p, m) ensures ok(Advance(run, p, m), m + 1) { UnfailedStep(run, p, m); }
    AlongRun(run, file, ok, |run.steps|);
  }

  lemma {:induction false} FailureShowsKept(run: Run, file: State)
    requires RewrittenAreOptional(run.steps)
    ensures FailureShows(run, RunAll(run, file), |run.steps|)
  {
    var ok := FailureShowsOf(run);
    forall p, m: nat | m < |run.steps| && ok(p, m) ensures ok(Advance(run, p, m), m + 1) {
      FailureShowsStep(run, p, m);
    }
    AlongRun(run, file, ok, |run.steps|);
  }

  /** A run without a recorded failure leaves every row as the last step that writes it left it. */
  lemma {:induction false} FinalRow(run: Run, file: State, i: nat) returns (last: nat)
    requires i < |run.steps| && RunAll(run, file).failed.None?
    ensures i <= last < |run.steps| && SameRow(run.steps[i], run.steps[last])
    ensures !Overwritten(run.steps, last, |run.steps|)
    ensures StatusOf(run, RunAll(run, file).state, i) == StatusOf(run, RunAll(run, file).state, last)
    ensures DoneOrBlocked(run.steps[last], StatusOf(run, RunAll(run, file).state, last))
  {
    last := LastOfRow(run.steps, i);
    SameRowIsSameKey(run, run.steps[i], run.steps[last]);
    UnfailedKept(run, file);
  }

  lemma {:induction false} NoneFailing(run: Run, state: State, n: nat)
    requires n <= |run.steps| && forall i :: 0 <= i < |run.steps| ==> !StatusFails(run, state, i)
    ensures FirstFailing(run, state, n) == None
  {
    if n > 0 {
      NoneFailing(run, state, n - 1);
      var last := LastOfId(run.steps, n - 1);
      assert ReportedKey(run, run.steps[n - 1]) == KeyOf(run, run.steps[last]);
      assert !StatusFails(run, state, last);
    }
  }

  // ---------------------------------------------------------------- what the exit code says

  /** Of any schedule on any file: the first failure recorded by the run decides the code, and 1
      stands for steps that were only blocked. */
  lemma {:induction false} ExitCode(run: Run, file: State)
    ensures var first := FirstFailure(run, file, |run.steps|);
      CodeOf(run, file) == if first.Some? then first.value
                           else if AnyBlocked(run, RunAll(run, file).state) then 1 else 0
  {
    FailedIsFirst(run, file, |run.steps|);
    var end := RunAll(run, file);
    if end.failed.None? {
      forall i | 0 <= i < |run.steps| ensures !StatusFails(run, end.state, i) { var last := FinalRow(run, file, i); }
      NoneFailing(run, end.state, |run.steps|);
    }
  }

  /** The row that is reported for a step: the one under the policy of the last step of its id. */
  ghost predicate Reports(run: Run, state: State, i: nat, row: Row)
    requires i < |run.steps|
  {
    exists j :: i <= j < |run.steps| && run.steps[j].id == run.steps[i].id
      && FiledAs(run, state, run.steps[j], row)
      && forall k :: j < k < |run.steps| ==> run.steps[k].id != run.steps[i].id
  }

  ghost predicate FiledAs(run: Run, state: State, step: Step, row: Row) {
    Filed(run, step.policy, step.id) in state && state[Filed(run, step.policy, step.id)] == row
  }

  ghost predicate ReportedBlocked(run: Run, state: State, i: nat)
    requires i < |run.steps|
  {
    exists row :: Reports(run, state, i, row) && row.status == Blocked
  }

  ghost predicate ReportedFailing(run: Run, state: State, i: nat, code: int)
    requires i < |run.steps|
  {
    exists row :: Reports(run, state, i, row)
      && row.status in {Failed, FailedResourceLocked, FailedTimeoutCleanup, Abandoned}
      && match row.exitCode case Some(exit) => code == exit case None => code == 1
  }

  ghost predicate NoneFailingBefore(run: Run, state: State, n: nat)
    requires n <= |run.steps|
  {
    forall i, code :: 0 <= i < n ==> !ReportedFailing(run, state, i, code)
  }

  /** On any state, the search for a failing row gives the exit code of the first step whose reported row
      is failed, in one of three ways, or abandoned. */
  lemma {:induction false} FirstFailingMeans(run: Run, state: State, n: nat)
    requires n <= |run.steps|
    ensures match FirstFailing(run, state, n)
      case None => NoneFailingBefore(run, state, n)
      case Some(code) =>
        exists i :: 0 <= i < n && ReportedFailing(run, state, i, code) && NoneFailingBefore(run, state, i)
  {
    if n > 0 {
      FirstFailingMeans(run, state, n - 1);
      FailingIs(run, state, n - 1);
      var earlier, found := FirstFailing(run, state, n - 1), FirstFailing(run, state, n);
      if earlier.Some? {
        assert found == earlier;
      } else if found.Some? {
        assert ReportedFailing(run, state, n - 1, found.value);
      }
    }
  }

  lemma {:induction false} FailingIs(run: Run, state: State, i: nat)
    requires i < |run.steps|
    ensures forall code :: ReportedFailing(run, state, i, code) <==>
      var key := ReportedKey(run, run.steps[i]);
      && key in state && IsFailing(state[key].status)
      && code == (if state[key].exitCode.Some? then state[key].exitCode.value else 1)
  {
    ReportedIs(run, state, i);
    var key := ReportedKey(run, run.steps[i]);
    if key in state { assert Reports(run, state, i, state[key]); }
  }

  /** The exit code, from what the turns leave behind: the failure they recorded, or 1 for a reported row
      that is blocked, or 0. */
  lemma {:induction false} ExitCodeMeans(run: Run, file: State)
    ensures var end := After(run, file, |run.steps|);
      CodeOf(run, file) == if end.failed.Some? then end.failed.value
                           else if exists i :: 0 <= i < |run.steps| && ReportedBlocked(run, end.state, i) then 1 else 0
  {
    var end := After(run, file, |run.steps|);
    ExitCode(run, file);
    FailedIsFirst(run, file, |run.steps|);
    forall i | 0 <= i < |run.steps|
      ensures ReportedBlocked(run, end.state, i)
         <==> StatusAt(end.state, ReportedKey(run, run.steps[i])) == Some(Blocked)
    {
      ReportedIs(run, end.state, i);
    }
  }

  lemma {:induction false} ReportedIs(run: Run, state: State, i: nat)
    requires i < |run.steps|
    ensures forall row ::
      Reports(run, state, i, row)
      <==> ReportedKey(run, run.steps[i]) in state && state[ReportedKey(run, run.steps[i])] == row
  {
    var id := run.steps[i].id;
    PolicyOfIs(run.steps, id);
    var last :| 0 <= last < |run.steps| && run.steps[last].id == id
      && run.steps[last].policy == PolicyOf(run.steps, id)
      && forall k :: last < k < |run.steps| ==> run.steps[k].id != id;
    FiledIs(run, run.steps[last].policy, id);
    forall row ensures Reports(run, state, i, row) <==> FiledAs(run, state, run.steps[last], row) {
      if Reports(run, state, i, row) {
        var j :| i <= j < |run.steps| && run.steps[j].id == id && FiledAs(run, state, run.steps[j], row)
          && forall k :: j < k < |run.steps| ==> run.steps[k].id != id;
        assert j == last;
      }
    }
  }

  /** A recorded failure is told and stands in some row. */
  lemma {:induction false} FailureIsTold(run: Run, file: State)
    requires RewrittenAreOptional(run.steps) && RunAll(run, file).failed.Some?
    ensures Truthful(run, file)
  {
    FailureShowsKept(run, file);
  }

  ghost predicate SomeBlocked(run: Run, state: State) {
    exists i :: 0 <= i < |run.steps| && StatusOf(run, state, i) == Some(Blocked)
  }

  /** Without a recorded failure it is all about the blocked rows. */
  lemma {:induction false} BlocksAreTold(run: Run, file: State)
    requires RunAll(run, file).failed.None?
    ensures Truthful(run, file)
       <==> (AnyBlocked(run, RunAll(run, file).state) <==> SomeBlocked(run, RunAll(run, file).state))
  {
    var end := RunAll(run, file);
    ExitCode(run, file);
    FailedIsFirst(run, file, |run.steps|);
    forall i | 0 <= i < |run.steps| ensures !StatusFails(run, end.state, i) { var last := FinalRow(run, file, i); }
  }

  /** With no id twice, or only where nothing can be hidden: the code is 0 exactly when no scheduled
      step's final row is failing or blocked. */
  lemma {:induction false} ExitTruthful(run: Run, file: State)
    requires NothingHidden(run.steps)
    ensures Truthful(run, file)
  {
    var end := RunAll(run, file);
    if end.failed.Some? {
      FailureIsTold(run, file);
    } else {
      BlocksAreTold(run, file);
      forall i | 0 <= i < |run.steps|
        ensures StatusOf(run, end.state, i) == Some(Blocked) ==> AnyBlocked(run, end.state)
      {
        var last := FinalRow(run, file, i);
        assert !Unreported(run.steps, last) ==> ReportedKey(run, run.steps[last]) == KeyOf(run, run.steps[last]);
      }
      if AnyBlocked(run, end.state) {
        var i :| 0 <= i < |run.steps| && StatusAt(end.state, ReportedKey(run, run.steps[i])) == Some(Blocked);
        var last := LastOfId(run.steps, i);
        assert StatusOf(run, end.state, last) == Some(Blocked);
      }
    }
  }

  /** An exit code of 0 means that every scheduled step ended well: with success, skipped before the
      start step, or optional and given up. */
  lemma {:induction false} ExitZeroMeansDone(run: Run, file: State)
    requires NothingHidden(run.steps) && CodeOf(run, file) == 0
    ensures var end := RunAll(run, file);
      forall i :: 0 <= i < |run.steps| ==>
        DoneOrBlocked(run.steps[i], StatusOf(run, end.state, i)) && StatusOf(run, end.state, i) != Some(Blocked)
  {
    ExitTruthful(run, file);
    FailureShowsKept(run, file);
    forall i | 0 <= i < |run.steps| ensures DoneOrBlocked(run.steps[i], StatusOf(run, RunAll(run, file).state, i)) {
      var last := FinalRow(run, file, i);
    }
  }

  // ---------------------------------------------------------------- when it hides something

  /** The same schedule up to what depends on what. */
  ghost predicate SameUpToDependencies(a: seq<Step>, b: seq<Step>) {
    |a| == |b| && forall i :: 0 <= i < |a| ==> a[i].(dependsOn := []) == b[i].(dependsOn := [])
  }

  /** And the steps of an id agree on their policy. */
  ghost predicate NothingToHide(steps: seq<Step>) {
    RewrittenAreOptional(steps) && forall i :: 0 <= i < |steps| ==> !Unreported(steps, i)
  }

  ghost predicate AlwaysTruthful(steps: seq<Step>) {
    forall run: Run, file: State :: SameUpToDependencies(run.steps, steps) ==> Truthful(run, file)
  }

  lemma {:induction false} SamePolicyOf(a: seq<Step>, b: seq<Step>, id: string)
    requires SameUpToDependencies(a, b)
    ensures PolicyOf(a, id) == PolicyOf(b, id)
  {
    if a != [] {
      assert a[|a| - 1].(dependsOn := []) == b[|b| - 1].(dependsOn := []);
      SamePolicyOf(a[..|a| - 1], b[..|b| - 1], id);
    }
  }

  lemma {:induction false} NothingToHideHidesNothing(steps: seq<Step>, other: seq<Step>)
    requires SameUpToDependencies(other, steps) && NothingToHide(steps)
    ensures NothingHidden(other)
  {
    forall i | 0 <= i < |other|
      ensures !Unreported(other, i) && (Overwritten(other, i, |other|) ==> other[i].optional)
    {
      assert other[i].(dependsOn := []) == steps[i].(dependsOn := []);
      SamePolicyOf(other, steps, other[i].id);
      assert !Unreported(steps, i);
      if Overwritten(other, i, |other|) {
        var j :| i < j < |other| && SameRow(other[i], other[j]);
        assert other[j].(dependsOn := []) == steps[j].(dependsOn := []);
        assert SameRow(steps[i], steps[j]);
      }
    }
  }

  /** A forced run of a schedule. */
  ghost function ForcedRun(steps: seq<Step>, exits: nat -> int): Run {
    Run(steps, Periods("", "", ""), true, false, None, _ => false, exits, _ => true)
  }

  ghost function WithDependencies(steps: seq<Step>, deps: Step -> seq<Dependency>): seq<Step> {
    seq(|steps|, i requires 0 <= i < |steps| => steps[i].(dependsOn := deps(steps[i])))
  }

  lemma {:induction false} WithDependenciesIsSame(steps: seq<Step>, deps: Step -> seq<Dependency>)
    ensures SameUpToDependencies(WithDependencies(steps, deps), steps)
    ensures var other := WithDependencies(steps, deps);
      && (forall i :: 0 <= i < |steps| ==> Unreported(other, i) == Unreported(steps, i))
      && (forall i, j :: 0 <= i < |steps| && 0 <= j < |steps| ==>
            SameRow(other[i], other[j]) == SameRow(steps[i], steps[j]))
      && (forall i :: 0 <= i < |steps| ==> Overwritten(other, i, |steps|) == Overwritten(steps, i, |steps|))
  {
    var other := WithDependencies(steps, deps);
    forall i | 0 <= i < |steps| ensures Unreported(other, i) == Unreported(steps, i) {
      SamePolicyOf(other, steps, steps[i].id);
    }
    forall i | 0 <= i < |steps| ensures Overwritten(other, i, |steps|) == Overwritten(steps, i, |steps|) {
      assert forall j :: i < j < |steps| ==> SameRow(other[i], other[j]) == SameRow(steps[i], steps[j]);
    }
  }

  /** Of steps without dependencies only step i fails; its row shows that until it is written again. */
  ghost predicate OneFailure(run: Run, i: nat, p: Progress, n: nat)
    requires i < |run.steps|
  {
    && n <= |run.steps| && p.startSeen && !p.stopped && p.failed == (if i < n then Some(7) else None)
    && forall j :: 0 <= j < n ==>
         || StatusOf(run, p.state, j) == Some(Success)
         || (SameRow(run.steps[j], run.steps[i]) && i < n && !Overwritten(run.steps, i, n))
  }

  lemma {:induction false} OneFailureStep(run: Run, i: nat, p: Progress, n: nat)
    requires i < |run.steps| && n < |run.steps| && OneFailure(run, i, p, n)
    requires run.force && run.steps[n].dependsOn == [] && !run.steps[i].optional
    requires run.exits(n) == if n == i then 7 else 0
    ensures OneFailure(run, i, Advance(run, p, n), n + 1)
  {
    var q := Advance(run, p, n);
    assert Decide(run, run.steps[n], p.state, true) == Execute(run.steps[n].command, false);
    forall j | 0 <= j < n
      ensures || StatusOf(run, q.state, j) == Some(Success)
              || (SameRow(run.steps[j], run.steps[i]) && i < n + 1 && !Overwritten(run.steps, i, n + 1))
    {
      if SameRow(run.steps[j], run.steps[n]) {
        SameRowIsSameKey(run, run.steps[j], run.steps[n]);
      } else {
        OthersStay(run, p, n, j);
      }
    }
  }

  lemma {:induction false} OneFailureRun(run: Run, i: nat)
    requires i < |run.steps| && !run.steps[i].optional && run.force && run.startAt.None?
    requires forall n: nat :: n < |run.steps| ==>
      && run.steps[n].dependsOn == [] && run.exits(n) == if n == i then 7 else 0
    ensures OneFailure(run, i, RunAll(run, map[]), |run.steps|)
  {
    var ok := (p: Progress, n: nat) => OneFailure(run, i, p, n);
    forall p, m: nat | m < |run.steps| && ok(p, m) ensures ok(Advance(run, p, m), m + 1) {
      OneFailureStep(run, i, p, m);
    }
    AlongRun(run, map[], ok, |run.steps|);
  }

  /** A failing step whose row is written again without failing: every row says success, the code says 7. */
  lemma {:induction false} OverwrittenFailureHides(steps: seq<Step>, i: nat)
    requires i < |steps| && Overwritten(steps, i, |steps|) && !steps[i].optional
    ensures !AlwaysTruthful(steps)
  {
    var other := WithDependencies(steps, _ => []);
    WithDependenciesIsSame(steps, _ => []);
    var run := ForcedRun(other, k => if k == i then 7 else 0);
    OneFailureRun(run, i);
    assert AllWell(run, RunAll(run, map[]).state) && RunAll(run, map[]).failed == Some(7);
    assert !Truthful(run, map[]);
  }

  function LongerThanIds(steps: seq<Step>): (id: string)
    ensures forall i :: 0 <= i < |steps| ==> |steps[i].id| < |id|
  {
    if steps == [] then "x" else steps[0].id + LongerThanIds(steps[1..])
  }

  /** Of forced steps without failures only those that write the row of step i depend on something,
      which is not there; they are blocked and the others succeed. */
  ghost predicate OneBlockedRow(run: Run, i: nat, missing: string, p: Progress, n: nat)
    requires i < |run.steps|
  {
    && n <= |run.steps| && p.startSeen && !p.stopped && p.failed.None?
    && (forall k :: k in p.state ==> k.step != missing)
    && forall j :: 0 <= j < n ==>
         StatusOf(run, p.state, j) == Some(if SameRow(run.steps[j], run.steps[i]) then Blocked else Success)
  }

  lemma {:induction false} OneBlockedRowStep(run: Run, i: nat, missing: string, p: Progress, n: nat)
    requires i < |run.steps| && n < |run.steps| && OneBlockedRow(run, i, missing, p, n)
    requires run.force && run.exits(n) == 0 && run.steps[n].id != missing
    requires run.steps[n].dependsOn ==
             if SameRow(run.steps[n], run.steps[i]) then [Dependency(missing, None, false)] else []
    ensures OneBlockedRow(run, i, missing, Advance(run, p, n), n + 1)
  {
    var step := run.steps[n];
    if SameRow(step, run.steps[i]) {
      assert !Satisfied(run, p.state, step.dependsOn[0]);
      assert Decide(run, step, p.state, true) == Block;
    } else {
      assert Decide(run, step, p.state, true) == Execute(step.command, false);
    }
    forall j | 0 <= j < n ensures StatusOf(run, Advance(run, p, n).state, j)
        == Some(if SameRow(run.steps[j], run.steps[i]) then Blocked else Success)
    {
      if SameRow(run.steps[j], run.steps[n]) {
        SameRowIsSameKey(run, run.steps[j], run.steps[n]);
      } else {
        OthersStay(run, p, n, j);
      }
    }
  }

  /** A blocked step whose row the exit code does not look at: the code says 0. */
  lemma {:induction false} UnreportedBlockHides(steps: seq<Step>, i: nat)
    requires i < |steps| && Unreported(steps, i)
    ensures !AlwaysTruthful(steps)
  {
    var missing := LongerThanIds(steps);
    var deps := (step: Step) => if SameRow(step, steps[i]) then [Dependency(missing, None, false)] else [];
    var other := WithDependencies(steps, deps);
    WithDependenciesIsSame(steps, deps);
    var run := ForcedRun(other, _ => 0);
    var ok := (p: Progress, n: nat) => OneBlockedRow(run, i, missing, p, n);
    forall p, m: nat | m < |run.steps| && ok(p, m) ensures ok(Advance(run, p, m), m + 1) {
      OneBlockedRowStep(run, i, missing, p, m);
    }
    AlongRun(run, map[], ok, |steps|);
    var end := RunAll(run, map[]);
    assert StatusOf(run, end.state, i) == Some(Blocked);
    forall j | 0 <= j < |other| ensures StatusAt(end.state, ReportedKey(run, other[j])) == Some(Success) {
      var last := LastOfId(other, j);
      assert ReportedKey(run, other[j]) == KeyOf(run, other[last]);
      assert !SameRow(other[last], other[i]);
    }
    ReportedWell(run, end.state, |other|);
    assert !Truthful(run, map[]);
  }

  lemma {:induction false} ReportedWell(run: Run, state: State, n: nat)
    requires n <= |run.steps|
    requires forall j :: 0 <= j < |run.steps| ==> StatusAt(state, ReportedKey(run, run.steps[j])) == Some(Success)
    ensures FirstFailing(run, state, n) == None && !AnyBlocked(run, state)
  {
    if n > 0 { ReportedWell(run, state, n - 1); }
  }

  /** Whatever its steps depend on, a schedule's exit code is 0 exactly for final rows none of which is
      failing or blocked, on every file and in every run, if and only if the steps of an id agree on
      their policy and only optional ones are followed by another of their id. */
  lemma {:induction false} ExitTruthfulIff(steps: seq<Step>)
    ensures AlwaysTruthful(steps) <==> NothingToHide(steps)
  {
    if NothingToHide(steps) {
      forall run: Run, file: State | SameUpToDependencies(run.steps, steps) ensures Truthful(run, file) {
        NothingToHideHidesNothing(steps, run.steps);
        ExitTruthful(run, file);
      }
    } else {
      var i :| 0 <= i < |steps| &&
        !(!Unreported(steps, i) && (Overwritten(steps, i, |steps|) ==> steps[i].optional));
      if Unreported(steps, i) { UnreportedBlockHides(steps, i); }
      else { OverwrittenFailureHides(steps, i); }
    }
  }

  /** The worst case: two steps of one id with two policies. The first is blocked on file, the second
      succeeds, and the run exits 0. */
  lemma {:induction false} TwoPoliciesHideBlock(run: Run, a: Step, b: Step, missing: Dependency)
    requires run.steps == [a, b] && a.id == b.id && a.policy == ByNaturalDate && b.policy == ByMarketDate
    requires a.dependsOn == [missing] && !missing.soft && missing.step != a.id && b.dependsOn == []
    requires run.startAt.None? && run.exits(1) == 0
    ensures var end := RunAll(run, map[]);
      && CodeOf(run, map[]) == 0
      && StatusOf(run, end.state, 0) == Some(Blocked) && StatusOf(run, end.state, 1) == Some(Success)
      && StatusAt(FileAfter(map[], end.events), KeyOf(run, a)) == Some(Blocked)
  {
    var begin := Begin(run, map[]);
    var p := After(run, map[], 1);
    assert begin.state == map[];
    AfterStep(run, map[], 1);
    assert !Satisfied(run, map[], a.dependsOn[0]);
    assert p.state == map[KeyOf(run, a) := Row(Blocked, Some(1))] && !p.stopped && p.failed.None? && p.startSeen;
    assert RunAll(run, map[]) == Advance(run, p, 1);
    assert Decide(run, b, p.state, true) == Execute(b.command, false);
    var end := RunAll(run, map[]);
    assert ReportedKey(run, a) == ReportedKey(run, b) == KeyOf(run, b);
    ReportedWell(run, end.state, 2);
    assert end.events[|end.events| - 1] == Write(end.state);
  }

  /** Two steps with the same row: the second hides the failed row of the first, and the run exits 7
      with success as its only row. */
  lemma {:induction false} DuplicateIdsHideFailure(run: Run, a: Step, b: Step)
    requires run.steps == [a, b] && SameRow(a, b) && a.dependsOn == b.dependsOn == []
    requires !a.optional && run.startAt.None? && run.exits(0) == 7 && run.exits(1) == 0
    ensures var end := RunAll(run, map[]);
      && CodeOf(run, map[]) == 7
      && forall i :: 0 <= i < 2 ==> StatusOf(run, end.state, i) == Some(Success)
  {
    var p := After(run, map[], 1);
    assert After(run, map[], 0).state == map[];
    assert p.failed == Some(7);
    assert RunAll(run, map[]) == Advance(run, p, 1);
  }

  /** With its dependencies given, a schedule can be truthful although a row that the exit code does
      not look at can be blocked: here the reported row is blocked with it, in every run on every file. */
  lemma {:induction false} BlockedTogether(run: Run, file: State, a: Step, b: Step, dep: Dependency)
    requires run.steps == [a, b] && a.id == b.id && a.policy != b.policy
    requires a.dependsOn == b.dependsOn == [dep] && !dep.soft && dep.step != a.id
    requires a.resume == b.resume == AlwaysRun
    ensures !NothingHidden(run.steps) && Truthful(run, file)
  {
    TwoRows(run, a, b, dep);
    var end := RunAll(run, file);
    if end.failed.Some? {
      FailureIsTold(run, file);
    } else {
      AfterStep(run, file, 1);
      LastRow(run, After(run, file, 1), 1);
      BothBlocked(run, Begin(run, file), a, b, dep);
      BlocksAreTold(run, file);
    }
  }

  /** The schedule of two steps of one id: the row of the first is not looked at and can be blocked. */
  lemma {:induction false} TwoRows(run: Run, a: Step, b: Step, dep: Dependency)
    requires run.steps == [a, b] && a.id == b.id && a.policy != b.policy
    requires a.dependsOn == [dep] && !dep.soft
    ensures !NothingHidden(run.steps) && RewrittenAreOptional(run.steps)
    ensures !Overwritten(run.steps, 0, 2) && !Overwritten(run.steps, 1, 2)
    ensures forall state :: AnyBlocked(run, state) <==> StatusOf(run, state, 1) == Some(Blocked)
  {
    assert PolicyOf(run.steps, a.id) == b.policy;
    assert Unreported(run.steps, 0) && CanBlock(run.steps[0]) by { assert !a.dependsOn[0].soft; }
    assert !Overwritten(run.steps, 0, 2) && !Overwritten(run.steps, 1, 2);
    assert ReportedKey(run, a) == ReportedKey(run, b) == KeyOf(run, b);
  }

  lemma {:induction false} BlockedIff(run: Run, p: Progress, i: nat)
    requires i < |run.steps| && !p.stopped
    ensures StatusOf(run, Advance(run, p, i).state, i) == Some(Blocked)
       <==> Decide(run, run.steps[i], p.state, p.startSeen).Block?
  {
  }

  /** A step with a single dependency, a hard one, that is never resumed. */
  lemma {:induction false} BlocksIff(run: Run, step: Step, state: State, startSeen: bool, dep: Dependency)
    requires step.dependsOn == [dep] && !dep.soft && step.resume == AlwaysRun
    ensures Decide(run, step, state, startSeen).Block?
       <==> (startSeen || run.startAt == Some(step.id)) && !Satisfied(run, state, dep)
  {
    assert step.dependsOn[0] == dep;
    assert HardMet(run, state, step.dependsOn) <==> Satisfied(run, state, dep);
    ScanRefuses(run, step, state, 1);
  }

  lemma {:induction false} BothBlocked(run: Run, p: Progress, a: Step, b: Step, dep: Dependency)
    requires run.steps == [a, b] && a.id == b.id && a.policy != b.policy && !p.stopped
    requires a.dependsOn == b.dependsOn == [dep] && !dep.soft && dep.step != a.id
    requires a.resume == b.resume == AlwaysRun
    ensures var q := Advance(run, p, 0);
      var end := Advance(run, q, 1);
      !q.stopped ==>
        (StatusOf(run, end.state, 0) == Some(Blocked) <==> StatusOf(run, end.state, 1) == Some(Blocked))
  {
    var q := Advance(run, p, 0);
    if !q.stopped {
      BlockedIff(run, p, 0);
      BlockedIff(run, q, 1);
      OthersStay(run, q, 1, 0);
      BlocksIff(run, a, p.state, p.startSeen, dep);
      BlocksIff(run, b, q.state, q.startSeen, dep);
      SeenStep(run, p, 0);
      assert Satisfied(run, q.state, dep) == Satisfied(run, p.state, dep);
    }
  }

  // ---------------------------------------------------------------- recovery

  /** Dependencies point to earlier steps of the schedule, under those steps' own keys. */
  ghost predicate Backward(run: Run) {
    forall i, j :: 0 <= i < |run.steps| && 0 <= j < |run.steps[i].dependsOn| ==>
      PointsBack(run, i, run.steps[i].dependsOn[j])
  }

  ghost predicate PointsBack(run: Run, i: nat, dep: Dependency)
    requires i < |run.steps|
  {
    exists k :: 0 <= k < i && run.steps[k].id == dep.step && PolicyFor(run.steps, dep) == run.steps[k].policy
  }

  /** Every step so far ended in plain success and none failed. */
  ghost predicate AllSucceeded(run: Run, p: Progress, n: nat)
    requires n <= |run.steps|
  {
    && p.startSeen && !p.stopped && p.failed.None?
    && forall i :: 0 <= i < n ==> StatusOf(run, p.state, i) == Some(Success)
  }

  lemma {:induction false} EarlierSuccessIsClean(run: Run, p: Progress, n: nat)
    requires n < |run.steps| && Backward(run) && AllSucceeded(run, p, n)
    ensures AllClean(run, p.state, run.steps[n].dependsOn)
  {
    var deps := run.steps[n].dependsOn;
    forall j | 0 <= j < |deps| ensures Clean(run, p.state, deps[j]) {
      assert PointsBack(run, n, deps[j]);
      var k :| 0 <= k < n && run.steps[k].id == deps[j].step && PolicyFor(run.steps, deps[j]) == run.steps[k].policy;
      assert StatusOf(run, p.state, k) == Some(Success);
    }
  }

  /** Clean dependencies never block a step and never degrade it. */
  lemma {:induction false} CleanRuns(run: Run, step: Step, state: State)
    requires run.startAt.None? && AllClean(run, state, step.dependsOn)
    ensures var verdict := Decide(run, step, state, true);
      || (verdict.AlreadySuccessful? && StatusAt(state, KeyOf(run, step)) == Some(Success))
      || (verdict.Execute? && !verdict.degraded)
  {
    var deps := step.dependsOn;
    forall j | 0 <= j < |deps| ensures Satisfied(run, state, deps[j]) { assert Clean(run, state, deps[j]); }
    ScanDegrades(run, step, state, |deps|);
    assert !SoftUnmet(run, state, deps, |deps|);
    assert !UpstreamDegraded(run, state, deps);
  }

  lemma {:induction false} SuccessStep(run: Run, p: Progress, n: nat)
    requires Backward(run) && run.startAt.None? && n < |run.steps|
    requires run.exits(n) == 0 && AllSucceeded(run, p, n)
    ensures AllSucceeded(run, Advance(run, p, n), n + 1)
  {
    EarlierSuccessIsClean(run, p, n);
    CleanRuns(run, run.steps[n], p.state);
    forall i | 0 <= i < n ensures StatusOf(run, Advance(run, p, n).state, i) == StatusOf(run, p.state, i) {
      if SameRow(run.steps[i], run.steps[n]) {
        SameRowIsSameKey(run, run.steps[i], run.steps[n]);
      } else {
        OthersStay(run, p, n, i);
      }
    }
  }

  /** Whatever crashed, failed or was degraded before: a run in which every command succeeds leaves
      plain success in the row of every scheduled step. */
  lemma {:induction false} RerunRecovers(run: Run, file: State, n: nat)
    requires Backward(run) && run.startAt.None? && n <= |run.steps|
    requires forall i: nat :: run.exits(i) == 0
    ensures AllSucceeded(run, After(run, file, n), n)
  {
    if n > 0 {
      RerunRecovers(run, file, n - 1);
      SuccessStep(run, After(run, file, n - 1), n - 1);
      AfterStep(run, file, n);
    }
  }
}
