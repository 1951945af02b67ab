/** What holds of the daily workflow over whole histories of runs, each of which may crash between
    any two events, of its runner calls and of the steps it reaches. */
module WorkflowSafety {
  import opened Common
  import opened Workflow

  // ---------------------------------------------------------------- histories with crashes

  /** One run of which only the first `cut` events happened; a large cut is a run that ended. */
  datatype Launch = Launch(run: Run, cut: nat)

  /** Everything that happened, starting without a state file. */
  ghost function Past(launches: seq<Launch>): seq<Event> {
    if launches == [] then []
    else
      var past, last := Past(launches[..|launches| - 1]), launches[|launches| - 1];
      var events := RunAll(last.run, FileAfter(map[], past)).events;
      past + events[..if last.cut < |events| then last.cut else |events|]
  }

  /** What the runner returned at its latest call for a key. */
  ghost function LastExit(past: seq<Event>, key: Key): Option<int> {
    if past == [] then None
    else
      var last := past[|past| - 1];
      if last.Call? && last.key == key then Some(last.exitCode) else LastExit(past[..|past| - 1], key)
  }

  ghost predicate IsSuccess(s: Status) { s == Success || s == SuccessDegraded }

  /** Every success row goes back to a runner call under its key that returned 0, and to no later one. */
  ghost predicate Justified(state: State, past: seq<Event>) {
    forall k :: k in state && IsSuccess(state[k].status) ==> LastExit(past, k) == Some(0)
  }

  /** Failing rows carry a failing exit code. */
  ghost predicate Coded(state: State) {
    forall k :: k in state && IsFailing(state[k].status) ==> state[k].exitCode.Some? && state[k].exitCode.value != 0
  }

  ghost predicate Trusted(past: seq<Event>) {
    Justified(FileAfter(map[], past), past) && Coded(FileAfter(map[], past))
  }

  ghost predicate AllTrusted(past: seq<Event>, events: seq<Event>) {
    forall c :: 0 <= c <= |events| ==> Trusted(past + events[..c])
  }

  lemma {:induction false} LastExitAppend(past: seq<Event>, e: Event, key: Key)
    ensures LastExit(past + [e], key) == if e.Call? && e.key == key then Some(e.exitCode) else LastExit(past, key)
  {
    assert (past + [e])[..|past|] == past;
  }

  lemma {:induction false} WriteTrusted(past: seq<Event>, state: State)
    requires Justified(state, past) && Coded(state)
    ensures Trusted(past + [Write(state)]) && Justified(state, past + [Write(state)])
  {
    FileAfterAppend(map[], past, Write(state));
    forall k ensures LastExit(past + [Write(state)], k) == LastExit(past, k) {
      LastExitAppend(past, Write(state), k);
    }
  }

  /** A call keeps the file trusted because its own row says "running". */
  lemma {:induction false} CallTrusted(past: seq<Event>, e: Event)
    requires e.Call? && Trusted(past)
    requires var file := FileAfter(map[], past); e.key in file && file[e.key].status == Running
    ensures Trusted(past + [e])
  {
    FileAfterAppend(map[], past, e);
    forall k ensures k != e.key ==> LastExit(past + [e], k) == LastExit(past, k) { LastExitAppend(past, e, k); }
  }

  lemma {:induction false} AllTrustedAppend(past: seq<Event>, events: seq<Event>, e: Event)
    requires AllTrusted(past, events) && Trusted(past + events + [e])
    ensures AllTrusted(past, events + [e])
  {
    forall c | 0 <= c <= |events + [e]| ensures Trusted(past + (events + [e])[..c]) {
      if c <= |events| {
        assert (events + [e])[..c] == events[..c];
      } else {
        assert past + (events + [e])[..c] == past + events + [e];
      }
    }
  }

  /** The three events of an executed step, one after the other. */
  lemma {:induction false} ExecuteTrusted(past: seq<Event>, state: State, key: Key, call: Event, outcome: Outcome)
    returns (a: seq<Event>, b: seq<Event>, c: seq<Event>)
    requires Justified(state, past) && Coded(state)
    requires call.Call? && call.key == key
    requires IsSuccess(outcome.status) <==> call.exitCode == 0
    requires outcome.status != Abandoned
    ensures a == past + [Write(state[key := Row(Running, None)])] && Trusted(a)
    ensures b == a + [call] && Trusted(b)
    ensures c == b + [Write(state[key := Row(outcome.status, Some(call.exitCode))])] && Trusted(c)
    ensures var final := state[key := Row(outcome.status, Some(call.exitCode))];
      Justified(final, c) && Coded(final)
  {
    var started := state[key := Row(Running, None)];
    var final := state[key := Row(outcome.status, Some(call.exitCode))];
    WriteTrusted(past, started);
    FileAfterAppend(map[], past, Write(started));
    a := past + [Write(started)];
    CallTrusted(a, call);
    b := a + [call];
    forall k ensures LastExit(b, k) == if k == key then Some(call.exitCode) else LastExit(past, k) {
      LastExitAppend(a, call, k);
      LastExitAppend(past, Write(started), k);
    }
    WriteTrusted(b, final);
    c := b + [Write(final)];
  }

  lemma {:induction false} OutcomeSuccess(step: Step, exitCode: int, unlocked: bool, degraded: bool)
    ensures var o := OutcomeOf(step, exitCode, unlocked, degraded);
      (IsSuccess(o.status) <==> exitCode == 0) && o.status != Abandoned
  {
  }

  ghost predicate SafeProgress(past: seq<Event>, p: Progress) {
    Justified(p.state, past + p.events) && Coded(p.state) && AllTrusted(past, p.events)
  }

  lemma {:induction false} BeginSafe(run: Run, past: seq<Event>)
    requires Trusted(past)
    ensures SafeProgress(past, Begin(run, FileAfter(map[], past)))
  {
    var file := FileAfter(map[], past);
    var state := MarkAbandoned(run, file);
    assert Justified(state, past) && Coded(state);
    assert past + [] == past;
    assert AllTrusted(past, []);
    if AnyAbandoned(run, file) {
      WriteTrusted(past, state);
      AllTrustedAppend(past, [], Write(state));
      assert [] + [Write(state)] == [Write(state)];
    }
  }

  lemma {:induction false} ExecuteSafe(run: Run, past: seq<Event>, p: Progress, i: nat)
    requires i < |run.steps| && SafeProgress(past, p) && !p.stopped
    requires Decide(run, run.steps[i], p.state, p.startSeen).Execute?
    ensures SafeProgress(past, Advance(run, p, i))
  {
    var step := run.steps[i];
    var key, verdict := KeyOf(run, step), Decide(run, step, p.state, p.startSeen);
    var outcome := OutcomeOf(step, run.exits(i), run.unlocked(i), verdict.degraded);
    OutcomeSuccess(step, run.exits(i), run.unlocked(i), verdict.degraded);
    var call := Call(i, key, verdict.command, p.state, run.exits(i));
    var a, b, c := ExecuteTrusted(past + p.events, p.state, key, call, outcome);
    var started := Write(p.state[key := Row(Running, None)]);
    var final := Write(p.state[key := Row(outcome.status, Some(run.exits(i)))]);
    AllTrustedAppend(past, p.events, started);
    assert past + (p.events + [started]) == a;
    AllTrustedAppend(past, p.events + [started], call);
    assert past + (p.events + [started] + [call]) == b;
    AllTrustedAppend(past, p.events + [started] + [call], final);
    assert past + (p.events + [started] + [call] + [final]) == c;
  }

  lemma {:induction false} BlockSafe(run: Run, past: seq<Event>, p: Progress, i: nat)
    requires i < |run.steps| && SafeProgress(past, p) && !p.stopped
    requires !Decide(run, run.steps[i], p.state, p.startSeen).Execute?
    ensures SafeProgress(past, Advance(run, p, i))
  {
    var key := KeyOf(run, run.steps[i]);
    if Decide(run, run.steps[i], p.state, p.startSeen).Block? {
      var state := p.state[key := Row(Blocked, Some(1))];
      WriteTrusted(past + p.events, state);
      AllTrustedAppend(past, p.events, Write(state));
      assert past + (p.events + [Write(state)]) == past + p.events + [Write(state)];
    }
  }

  lemma {:induction false} RunSafe(run: Run, past: seq<Event>, n: nat)
    requires Trusted(past) && n <= |run.steps|
    ensures SafeProgress(past, After(run, FileAfter(map[], past), n))
  {
    if n == 0 {
      BeginSafe(run, past);
    } else {
      RunSafe(run, past, n - 1);
      var p := After(run, FileAfter(map[], past), n - 1);
      if !p.stopped {
        if Decide(run, run.steps[n - 1], p.state, p.startSeen).Execute? { ExecuteSafe(run, past, p, n - 1); }
        else { BlockSafe(run, past, p, n - 1); }
      }
    }
  }

  /** In every state of the file that any history of runs and crashes leaves behind, a success row
      is backed by the latest runner call for its step under its key having returned 0. */
  lemma {:induction false} CrashSafety(launches: seq<Launch>)
    ensures Trusted(Past(launches))
  {
    if launches != [] {
      var front, last := launches[..|launches| - 1], launches[|launches| - 1];
      CrashSafety(front);
      RunSafe(last.run, Past(front), |last.run.steps|);
    }
  }

  lemma {:induction false} AfterStep(run: Run, file: State, n: nat)
    requires 0 < n <= |run.steps|
    ensures After(run, file, n) == Advance(run, After(run, file, n - 1), n - 1)
  {
  }

  /** What holds at the start of a run and is kept by every step holds after any number of steps. */
  lemma {:induction false} AlongRun(run: Run, file: State, ok: (Progress, nat) -> bool, n: nat)
    requires n <= |run.steps| && ok(Begin(run, file), 0)
    requires forall p, m: nat :: m < |run.steps| && ok(p, m) ==> ok(Advance(run, p, m), m + 1)
    ensures ok(After(run, file, n), n)
  {
    if n > 0 {
      AlongRun(run, file, ok, n - 1);
      AfterStep(run, file, n);
    }
  }

  // ---------------------------------------------------------------- runner calls

  /** The k-th event is a runner call that was due: its row was put on file as running, over a state
      in which every hard dependency was satisfied, and what is recorded next follows from its exit
      code and from whether every dependency, hard or soft, was satisfied without degradation. */
  ghost predicate ProperCall(run: Run, events: seq<Event>, k: nat)
    requires k < |events| && events[k].Call?
  {
    var e := events[k];
    && e.index < |run.steps|
    && 1 <= k < |events| - 1
    && var step := run.steps[e.index];
      && e.key == KeyOf(run, step) && e.exitCode == run.exits(e.index)
      && events[k - 1] == Write(e.before[e.key := Row(Running, None)])
      && HardMet(run, e.before, step.dependsOn)
      && events[k + 1].Write? && e.key in events[k + 1].file
      && var row := events[k + 1].file[e.key];
        && events[k + 1] == Write(e.before[e.key := row])
        && row.exitCode == Some(e.exitCode)
        && (row.status == Success <==> e.exitCode == 0 && AllClean(run, e.before, step.dependsOn))
        && (row.status == SuccessDegraded <==> e.exitCode == 0 && !AllClean(run, e.before, step.dependsOn))
  }

  ghost predicate ProperCalls(run: Run, events: seq<Event>) {
    forall k :: 0 <= k < |events| && events[k].Call? ==> ProperCall(run, events, k)
  }

  ghost predicate SoftUnmet(run: Run, state: State, deps: seq<Dependency>, n: nat)
    requires n <= |deps|
  {
    exists j :: 0 <= j < n && deps[j].soft && !Satisfied(run, state, deps[j])
  }

  lemma {:induction false} ScanDegrades(run: Run, step: Step, state: State, n: nat)
    requires n <= |step.dependsOn|
    ensures var scan := ScanSoft(run, step, state, n);
      scan.refused || scan.degraded <==> SoftUnmet(run, state, step.dependsOn, n)
  {
    if n > 0 {
      ScanDegrades(run, step, state, n - 1);
      var dep := step.dependsOn[n - 1];
      if dep.soft && !Satisfied(run, state, dep) {
        assert SoftUnmet(run, state, step.dependsOn, n);
      } else {
        assert SoftUnmet(run, state, step.dependsOn, n) <==> SoftUnmet(run, state, step.dependsOn, n - 1);
      }
    }
  }

  /** A step that executes has its hard dependencies met, and its input is degraded exactly when some
      dependency is not clean. */
  lemma {:induction false} ExecuteMeans(run: Run, step: Step, state: State, startSeen: bool)
    requires Decide(run, step, state, startSeen).Execute?
    ensures HardMet(run, state, step.dependsOn)
    ensures Decide(run, step, state, startSeen).degraded <==> !AllClean(run, state, step.dependsOn)
  {
    var deps := step.dependsOn;
    ScanDegrades(run, step, state, |deps|);
    if SoftUnmet(run, state, deps, |deps|) {
      var j :| 0 <= j < |deps| && deps[j].soft && !Satisfied(run, state, deps[j]);
      assert !Clean(run, state, deps[j]);
    } else if UpstreamDegraded(run, state, deps) {
      var j :| 0 <= j < |deps| && DependencyStatus(run, state, deps[j]) == Some(SuccessDegraded);
      assert !Clean(run, state, deps[j]);
    } else {
      forall j | 0 <= j < |deps| ensures Clean(run, state, deps[j]) {
        assert Satisfied(run, state, deps[j]);
      }
    }
  }

  lemma {:induction false} ProperCallsAppend(run: Run, events: seq<Event>, more: seq<Event>)
    requires ProperCalls(run, events)
    requires forall k :: 0 <= k < |more| && more[k].Call? ==> ProperCall(run, more, k)
    ensures ProperCalls(run, events + more)
  {
    var all := events + more;
    forall k | 0 <= k < |all| && all[k].Call? ensures ProperCall(run, all, k) {
      if k < |events| {
        assert ProperCall(run, events, k);
        assert all[k] == events[k] && all[k - 1] == events[k - 1] && all[k + 1] == events[k + 1];
      } else {
        var j := k - |events|;
        assert ProperCall(run, more, j);
        assert all[k] == more[j] && all[k - 1] == more[j - 1] && all[k + 1] == more[j + 1];
      }
    }
  }

  lemma {:induction false} AdvanceCalls(run: Run, p: Progress, i: nat)
    requires i < |run.steps| && ProperCalls(run, p.events)
    ensures ProperCalls(run, Advance(run, p, i).events)
  {
    var step := run.steps[i];
    var verdict := Decide(run, step, p.state, p.startSeen);
    if !p.stopped && verdict.Block? {
      ProperCallsAppend(run, p.events, [Write(p.state[KeyOf(run, step) := Row(Blocked, Some(1))])]);
    } else if !p.stopped && verdict.Execute? {
      ExecuteMeans(run, step, p.state, p.startSeen);
      var key := KeyOf(run, step);
      var outcome := OutcomeOf(step, run.exits(i), run.unlocked(i), verdict.degraded);
      var more := [Write(p.state[key := Row(Running, None)]), Call(i, key, verdict.command, p.state, run.exits(i)),
                   Write(p.state[key := Row(outcome.status, Some(run.exits(i)))])];
      assert ProperCall(run, more, 1);
      ProperCallsAppend(run, p.events, more);
      assert Advance(run, p, i).events == p.events + more;
    }
  }

  /** Every runner call of every run is a proper one: degradation is never lost on a step that runs. */
  lemma {:induction false} CallsAreProper(run: Run, file: State, n: nat)
    requires n <= |run.steps|
    ensures ProperCalls(run, After(run, file, n).events)
  {
    var ok := (p: Progress, m: nat) => ProperCalls(run, p.events);
    forall p, m: nat | m < |run.steps| && ok(p, m) ensures ok(Advance(run, p, m), m + 1) { AdvanceCalls(run, p, m); }
    AlongRun(run, file, ok, n);
  }

  // ---------------------------------------------------------------- which steps run

  ghost function StatusOf(run: Run, state: State, i: nat): Option<Status>
    requires i < |run.steps|
  {
    StatusAt(state, KeyOf(run, run.steps[i]))
  }

  ghost predicate Called(events: seq<Event>, i: nat) {
    exists k :: 0 <= k < |events| && events[k].Call? && events[k].index == i
  }

  ghost predicate Executes(run: Run, file: State, i: nat)
    requires i < |run.steps|
  {
    var p := After(run, file, i);
    !p.stopped && Decide(run, run.steps[i], p.state, p.startSeen).Execute?
  }

  lemma {:induction false} CalledAfterAppend(events: seq<Event>, more: seq<Event>, i: nat)
    ensures Called(events + more, i) <==> Called(events, i) || Called(more, i)
  {
    var all := events + more;
    if Called(events, i) {
      var k :| 0 <= k < |events| && events[k].Call? && events[k].index == i;
      assert all[k] == events[k];
    }
    if Called(more, i) {
      var k :| 0 <= k < |more| && more[k].Call? && more[k].index == i;
      assert all[k + |events|] == more[k];
    }
  }

  lemma {:induction false} AdvanceCalled(run: Run, p: Progress, n: nat, i: nat)
    requires n < |run.steps|
    ensures Called(Advance(run, p, n).events, i)
       <==> Called(p.events, i) || (i == n && !p.stopped && Decide(run, run.steps[n], p.state, p.startSeen).Execute?)
  {
    var step := run.steps[n];
    var key, verdict := KeyOf(run, step), Decide(run, step, p.state, p.startSeen);
    if !p.stopped && verdict.Block? {
      CalledAfterAppend(p.events, [Write(p.state[key := Row(Blocked, Some(1))])], i);
    } else if !p.stopped && verdict.Execute? {
      var outcome := OutcomeOf(step, run.exits(n), run.unlocked(n), verdict.degraded);
      var more := [Write(p.state[key := Row(Running, None)]), Call(n, key, verdict.command, p.state, run.exits(n)),
                   Write(p.state[key := Row(outcome.status, Some(run.exits(n)))])];
      CalledAfterAppend(p.events, more, i);
      assert Advance(run, p, n).events == p.events + more;
      assert more[1].Call? && more[1].index == n;
    }
  }

  ghost function CalledAsExecuted(run: Run, file: State, i: nat): (Progress, nat) -> bool
    requires i < |run.steps|
  {
    (p: Progress, n: nat) =>
      n <= |run.steps| && p == After(run, file, n) && (Called(p.events, i) <==> i < n && Executes(run, file, i))
  }

  lemma {:induction false} CalledStep(run: Run, file: State, i: nat, p: Progress, n: nat)
    requires i < |run.steps| && n < |run.steps| && CalledAsExecuted(run, file, i)(p, n)
    ensures CalledAsExecuted(run, file, i)(Advance(run, p, n), n + 1)
  {
    AdvanceCalled(run, p, n, i);
    AfterStep(run, file, n + 1);
  }

  lemma {:induction false} CalledIffExecutes(run: Run, file: State, n: nat, i: nat)
    requires i < |run.steps| && n <= |run.steps|
    ensures Called(After(run, file, n).events, i) <==> i < n && Executes(run, file, i)
  {
    var ok := CalledAsExecuted(run, file, i);
    forall p, m: nat | m < |run.steps| && ok(p, m) ensures ok(Advance(run, p, m), m + 1) {
      CalledStep(run, file, i, p, m);
    }
    assert !Called(Begin(run, file).events, i) && After(run, file, 0) == Begin(run, file);
    AlongRun(run, file, ok, n);
  }

  /** The start step, if there is one, lies before position i. */
  ghost predicate Started(run: Run, i: nat)
    requires i <= |run.steps|
  {
    run.startAt.None? || exists j :: 0 <= j < i && run.startAt == Some(run.steps[j].id)
  }

  lemma {:induction false} SeenIffStarted(run: Run, file: State, n: nat)
    requires n <= |run.steps|
    ensures !After(run, file, n).stopped ==> (After(run, file, n).startSeen <==> Started(run, n))
  {
    if n > 0 {
      SeenIffStarted(run, file, n - 1);
      AfterStep(run, file, n);
      SeenStep(run, After(run, file, n - 1), n - 1);
      assert Started(run, n) <==> Started(run, n - 1) || run.startAt == Some(run.steps[n - 1].id);
    }
  }

  lemma {:induction false} SeenStep(run: Run, p: Progress, n: nat)
    requires n < |run.steps|
    ensures var q := Advance(run, p, n);
      && (p.stopped ==> q.stopped)
      && (!p.stopped ==> (q.startSeen <==> p.startSeen || run.startAt == Some(run.steps[n].id)))
  {
  }

  /** An unsatisfied soft dependency forbids this step altogether. */
  ghost predicate Refuses(run: Run, state: State, step: Step, n: nat)
    requires n <= |step.dependsOn|
  {
    exists j :: 0 <= j < n && step.dependsOn[j].soft && !Satisfied(run, state, step.dependsOn[j])
                && Rewritten(step, step.dependsOn[j].step).Refused?
  }

  lemma {:induction false} ScanRefuses(run: Run, step: Step, state: State, n: nat)
    requires n <= |step.dependsOn|
    ensures ScanSoft(run, step, state, n).refused <==> Refuses(run, state, step, n)
  {
    if n > 0 {
      ScanRefuses(run, step, state, n - 1);
      var dep := step.dependsOn[n - 1];
      if dep.soft && !Satisfied(run, state, dep) && Rewritten(step, dep.step).Refused? {
        assert Refuses(run, state, step, n);
      } else {
        assert Refuses(run, state, step, n) <==> Refuses(run, state, step, n - 1);
      }
    }
  }

  /** A run calls exactly the steps that it reaches, from the start step on, that are not resumed as
      plain successes, whose hard dependencies are satisfied and that no soft one forbids. */
  lemma {:induction false} StepCalledIff(run: Run, file: State, i: nat)
    requires i < |run.steps|
    ensures var step, p := run.steps[i], After(run, file, i);
      Called(RunAll(run, file).events, i) <==>
        && !p.stopped
        && Started(run, i + 1)
        && !(run.startAt.None? && !run.force && !run.ignoreState && step.resume.SkipIfSuccess?
             && StatusOf(run, p.state, i) == Some(Success))
        && HardMet(run, p.state, step.dependsOn)
        && !Refuses(run, p.state, step, |step.dependsOn|)
  {
    var step, p := run.steps[i], After(run, file, i);
    CalledIffExecutes(run, file, |run.steps|, i);
    SeenIffStarted(run, file, i);
    ScanRefuses(run, step, p.state, |step.dependsOn|);
    assert Started(run, i + 1) <==> Started(run, i) || run.startAt == Some(step.id);
  }
}
