/** The resumable daily workflow: which steps of a schedule run, what is recorded about them, and
    what reaches the state file in which order. */
module Workflow {
  import opened Common

  datatype Status =
    | Running | Success | SuccessDegraded | Skipped | SkippedTimeout | SkippedCheckpoint
    | Failed | FailedResourceLocked | FailedTimeoutCleanup | Blocked | Abandoned

  predicate IsSatisfied(s: Status) {
    s == Success || s == SuccessDegraded || s == Skipped || s == SkippedCheckpoint
  }

  predicate IsFailedDependency(s: Status) {
    s == Failed || s == FailedResourceLocked || s == FailedTimeoutCleanup || s == Blocked || s == Abandoned
  }

  /** Rows are filed under a period (a natural date, a market date or one run) and a step id. */
  datatype Period = NaturalDate(day: string) | MarketDate(day: string) | RunInstance(stamp: string)
  datatype Key = Key(period: Period, step: string)
  datatype Row = Row(status: Status, exitCode: Option<int>)
  type State = map<Key, Row>

  datatype Policy = ByNaturalDate | ByMarketDate | ByRunInstance
  datatype Periods = Periods(natural: string, market: string, stamp: string)
  datatype ResumePolicy = SkipIfSuccess | AlwaysRun
  datatype Dependency = Dependency(step: string, policy: Option<Policy>, soft: bool)

  datatype Step = Step(id: string, command: seq<string>, optional: bool, timed: bool, dependsOn: seq<Dependency>,
                       policy: Policy, resume: ResumePolicy)

  /** One invocation: its schedule and options, which running rows it judges abandoned, and what the
      world answers: the runner's exit code per step, and whether the databases become free after
      that step timed out. */
  datatype Run = Run(steps: seq<Step>, periods: Periods, force: bool, ignoreState: bool, startAt: Option<string>,
                     judged: Key -> bool, exits: nat -> int, unlocked: nat -> bool)

  const TIMEOUT := 124
  const TIMEOUT_CLEANUP_FAILED := 125

  // ---------------------------------------------------------------- lookups

  function PeriodFor(policy: Policy, periods: Periods): Period {
    match policy
    case ByNaturalDate => NaturalDate(periods.natural)
    case ByMarketDate => MarketDate(periods.market)
    case ByRunInstance => RunInstance(periods.stamp)
  }

  function KeyOf(run: Run, step: Step): Key { Key(PeriodFor(step.policy, run.periods), step.id) }

  /** Steps are looked up in a dictionary by id, in which the last step of an id stays; the natural
      date stands in for an unknown id. */
  function PolicyOf(steps: seq<Step>, id: string): Policy {
    if steps == [] then ByNaturalDate
    else if steps[|steps| - 1].id == id then steps[|steps| - 1].policy
    else PolicyOf(steps[..|steps| - 1], id)
  }

  /** The state key policy of a dependency: its own, or that of the step it names. */
  function PolicyFor(steps: seq<Step>, dep: Dependency): Policy {
    if dep.policy.Some? then dep.policy.value else PolicyOf(steps, dep.step)
  }

  /** `None` is the status "pending". */
  function StatusAt(state: State, key: Key): Option<Status> {
    if key in state then Some(state[key].status) else None
  }

  function DependencyStatus(run: Run, state: State, dep: Dependency): Option<Status> {
    StatusAt(state, Key(PeriodFor(PolicyFor(run.steps, dep), run.periods), dep.step))
  }

  predicate Satisfied(run: Run, state: State, dep: Dependency) {
    var s := DependencyStatus(run, state, dep);
    s.Some? && IsSatisfied(s.value)
  }

  /** Satisfied by something better than a degraded success. */
  predicate Clean(run: Run, state: State, dep: Dependency) {
    Satisfied(run, state, dep) && DependencyStatus(run, state, dep) != Some(SuccessDegraded)
  }

  predicate HardMet(run: Run, state: State, deps: seq<Dependency>) {
    forall j :: 0 <= j < |deps| && !deps[j].soft ==> Satisfied(run, state, deps[j])
  }

  predicate AllClean(run: Run, state: State, deps: seq<Dependency>) {
    forall j :: 0 <= j < |deps| ==> Clean(run, state, deps[j])
  }

  // ---------------------------------------------------------------- the build-derived command

  /** The values of every `--target`. */
  function Targets(command: seq<string>): seq<string> {
    if command == [] then []
    else if command[0] == "--target" && |command| > 1 then [command[1]] + Targets(command[2..])
    else if "--target=" <= command[0] then [command[0][9..]] + Targets(command[1..])
    else Targets(command[1..])
  }

  predicate ExcludesDailyBar(command: seq<string>) {
    exists i :: 0 <= i < |command| &&
      (command[i] == "--exclude-target=daily_bar"
       || (command[i] == "--exclude-target" && i + 1 < |command| && command[i + 1] == "daily_bar"))
  }

  /** Before the first `--no-build-duckdb-views`, or at the end. */
  function ExcludeDailyBar(command: seq<string>): seq<string> {
    if command == [] then ["--exclude-target", "daily_bar"]
    else if command[0] == "--no-build-duckdb-views" then ["--exclude-target", "daily_bar"] + command
    else [command[0]] + ExcludeDailyBar(command[1..])
  }

  /** What an unsatisfied soft dependency does to a step. */
  datatype Rewrite = Unaffected | Refused | Changed(command: seq<string>)

  function Rewritten(step: Step, dependency: string): Rewrite {
    if step.id !in {"build-derived", "build-derived-daily-bar"} || dependency != "akshare-daily-bar" then Unaffected
    else if step.id == "build-derived-daily-bar" then Refused
    else
      var found := Targets(step.command);
      var targets := if found == [] then ["all"] else found;
      if "all" !in targets && "daily_bar" !in targets then Unaffected
      else if ExcludesDailyBar(step.command) then Changed(step.command)
      else if "daily_bar" in targets && "all" !in targets then Refused
      else Changed(ExcludeDailyBar(step.command))
  }

  /** A rewritten command really leaves the daily bars out. */
  lemma {:induction false} RewrittenExcludes(step: Step, dependency: string)
    ensures Rewritten(step, dependency).Changed? ==> ExcludesDailyBar(Rewritten(step, dependency).command)
  {
    ExcludeDailyBarExcludes(step.command);
  }

  lemma {:induction false} ExcludeDailyBarExcludes(command: seq<string>)
    ensures ExcludesDailyBar(ExcludeDailyBar(command))
  {
    var out := ExcludeDailyBar(command);
    if command == [] || command[0] == "--no-build-duckdb-views" {
      assert out[0] == "--exclude-target" && out[1] == "daily_bar";
    } else {
      ExcludeDailyBarExcludes(command[1..]);
      var rest := ExcludeDailyBar(command[1..]);
      var i :| 0 <= i < |rest| &&
        (rest[i] == "--exclude-target=daily_bar"
         || (rest[i] == "--exclude-target" && i + 1 < |rest| && rest[i + 1] == "daily_bar"));
      assert out[i + 1] == rest[i];
      assert i + 1 < |rest| ==> out[i + 2] == rest[i + 1];
    }
  }

  // ---------------------------------------------------------------- one step

  /** What the soft dependencies decide: the command to run, whether to refuse, whether the input
      is degraded. */
  datatype Scan = Scan(command: seq<string>, refused: bool, degraded: bool)

  function ScanSoft(run: Run, step: Step, state: State, n: nat): Scan
    requires n <= |step.dependsOn|
  {
    if n == 0 then Scan(step.command, false, false)
    else
      var scan, dep := ScanSoft(run, step, state, n - 1), step.dependsOn[n - 1];
      if !dep.soft || Satisfied(run, state, dep) then scan
      else
        match Rewritten(step, dep.step)
        case Refused => scan.(refused := true)
        case Changed(command) => scan.(command := command, degraded := true)
        case Unaffected => scan.(degraded := true)
  }

  predicate UpstreamDegraded(run: Run, state: State, deps: seq<Dependency>) {
    exists j :: 0 <= j < |deps| && DependencyStatus(run, state, deps[j]) == Some(SuccessDegraded)
  }

  datatype Verdict = BeforeStart | AlreadySuccessful | Block | Execute(command: seq<string>, degraded: bool)

  function Decide(run: Run, step: Step, state: State, startSeen: bool): Verdict {
    if !startSeen && run.startAt != Some(step.id) then BeforeStart
    else if run.startAt.None? && !run.force && !run.ignoreState && step.resume.SkipIfSuccess?
         && StatusAt(state, KeyOf(run, step)) == Some(Success) then AlreadySuccessful
    else if !HardMet(run, state, step.dependsOn) then Block
    else
      var scan := ScanSoft(run, step, state, |step.dependsOn|);
      if scan.refused then Block
      else Execute(scan.command, scan.degraded || UpstreamDegraded(run, state, step.dependsOn))
  }

  /** How an exit code is recorded; a stop ends the whole run. */
  datatype Outcome = Outcome(status: Status, fails: bool, stops: bool)

  function OutcomeOf(step: Step, exitCode: int, unlocked: bool, degraded: bool): Outcome {
    var timedOut := exitCode == TIMEOUT && step.timed;
    if exitCode == 0 then Outcome(if degraded then SuccessDegraded else Success, false, false)
    else if exitCode == TIMEOUT_CLEANUP_FAILED && step.timed then
      Outcome(if step.optional then FailedTimeoutCleanup else Failed, true, true)
    else if timedOut && !unlocked then Outcome(if step.optional then FailedResourceLocked else Failed, true, true)
    else if step.optional then Outcome(if timedOut then SkippedTimeout else Skipped, false, false)
    else Outcome(Failed, true, false)
  }

  // ---------------------------------------------------------------- one run

  /** What the outside sees: atomic replacements of the state file, and runner calls. `before` is
      the state in memory when the step was decided. */
  datatype Event =
    | Write(file: State)
    | Call(index: nat, key: Key, command: seq<string>, before: State, exitCode: int)

  datatype Progress = Progress(state: State, startSeen: bool, failed: Option<int>, stopped: bool, events: seq<Event>)

  function MarkAbandoned(run: Run, state: State): State {
    map k | k in state :: if state[k].status == Running && run.judged(k) then Row(Abandoned, Some(1)) else state[k]
  }

  predicate AnyAbandoned(run: Run, state: State) {
    exists k :: k in state && state[k].status == Running && run.judged(k)
  }

  function Begin(run: Run, file: State): Progress {
    var state := MarkAbandoned(run, file);
    Progress(state, run.startAt.None?, None, false, if AnyAbandoned(run, file) then [Write(state)] else [])
  }

  function Advance(run: Run, p: Progress, i: nat): Progress
    requires i < |run.steps|
  {
    var step := run.steps[i];
    var key := KeyOf(run, step);
    if p.stopped then p
    else
      match Decide(run, step, p.state, p.startSeen)
      case BeforeStart => p.(state := p.state[key := Row(Skipped, Some(0))])
      case AlreadySuccessful => p.(startSeen := true)
      case Block =>
        var state := p.state[key := Row(Blocked, Some(1))];
        p.(state := state, startSeen := true, events := p.events + [Write(state)])
      case Execute(command, degraded) =>
        var exitCode := run.exits(i);
        var outcome := OutcomeOf(step, exitCode, run.unlocked(i), degraded);
        var started := p.state[key := Row(Running, None)];
        var state := p.state[key := Row(outcome.status, Some(exitCode))];
        Progress(state, true, if outcome.fails && p.failed.None? then Some(exitCode) else p.failed, outcome.stops,
                 p.events + [Write(started)] + [Call(i, key, command, p.state, exitCode)] + [Write(state)])
  }

  /** After the first n steps. */
  function After(run: Run, file: State, n: nat): Progress
    requires n <= |run.steps|
  {
    if n == 0 then Begin(run, file) else Advance(run, After(run, file, n - 1), n - 1)
  }

  function RunAll(run: Run, file: State): Progress { After(run, file, |run.steps|) }

  /** A run that stopped takes no further step. */
  lemma {:induction false} StoppedStays(run: Run, file: State, i: nat, n: nat)
    requires i <= n <= |run.steps| && After(run, file, i).stopped
    ensures After(run, file, n) == After(run, file, i)
  {
    if i < n { StoppedStays(run, file, i, n - 1); }
  }

  predicate IsFailing(s: Status) {
    s == Failed || s == FailedResourceLocked || s == FailedTimeoutCleanup || s == Abandoned
  }

  /** The row the exit code looks at for a step: rows are collected by step id, so it is the row of
      the last step with that id. */
  function ReportedKey(run: Run, step: Step): Key {
    Key(PeriodFor(PolicyOf(run.steps, step.id), run.periods), step.id)
  }

  /** Exit code of the first scheduled step whose reported row is failing. */
  function FirstFailing(run: Run, state: State, n: nat): Option<int>
    requires n <= |run.steps|
  {
    if n == 0 then None
    else
      var earlier, key := FirstFailing(run, state, n - 1), ReportedKey(run, run.steps[n - 1]);
      if earlier.Some? then earlier
      else if key in state && IsFailing(state[key].status) then
        Some(if state[key].exitCode.Some? then state[key].exitCode.value else 1)
      else None
  }

  predicate AnyBlocked(run: Run, state: State) {
    exists i :: 0 <= i < |run.steps| && StatusAt(state, ReportedKey(run, run.steps[i])) == Some(Blocked)
  }

  function FinalExitCode(run: Run, state: State, failed: Option<int>): int {
    var failing := FirstFailing(run, state, |run.steps|);
    if failed.Some? then failed.value
    else if failing.Some? then failing.value
    else if AnyBlocked(run, state) then 1
    else 0
  }

  /** The content of the state file after some events. */
  function FileAfter(file: State, events: seq<Event>): State {
    if events == [] then file
    else if events[|events| - 1].Write? then events[|events| - 1].file
    else FileAfter(file, events[..|events| - 1])
  }

  lemma {:induction false} FileAfterAppend(file: State, events: seq<Event>, e: Event)
    ensures FileAfter(file, events + [e]) == if e.Write? then e.file else FileAfter(file, events)
  {
    assert (events + [e])[..|events|] == events;
  }

  // ---------------------------------------------------------------- the program

  class StateFile {
    var content: State

    constructor ()
      ensures content == map[]
    {
      content := map[];
    }

    method Write(state: State)
      modifies this
      ensures content == state
    {
      content := state;
    }
  }

  predicate KnownStart(run: Run) {
    run.startAt.Some? ==> exists i :: 0 <= i < |run.steps| && run.steps[i].id == run.startAt.value
  }

  method BlockedDependencies(run: Run, step: Step, state: State) returns (blocked: seq<string>)
    ensures blocked == [] <==> HardMet(run, state, step.dependsOn)
  {
    blocked := [];
    for j := 0 to |step.dependsOn|
      invariant blocked == [] <==> HardMet(run, state, step.dependsOn[..j])
    {
      var dep := step.dependsOn[j];
      assert step.dependsOn[..j + 1] == step.dependsOn[..j] + [dep];
      var s := DependencyStatus(run, state, dep);
      if s.None? || IsFailedDependency(s.value) || !IsSatisfied(s.value) {
        if !dep.soft {
          blocked := blocked + [dep.step];
          assert !HardMet(run, state, step.dependsOn[..j + 1]) by { assert step.dependsOn[..j + 1][j] == dep; }
        }
      }
      assert HardMet(run, state, step.dependsOn[..j + 1]) ==> HardMet(run, state, step.dependsOn[..j]) by {
        assert forall k :: 0 <= k < j ==> step.dependsOn[..j + 1][k] == step.dependsOn[..j][k];
      }
    }
    assert step.dependsOn[..|step.dependsOn|] == step.dependsOn;
  }

  /** The part of the loop body before the runner call. */
  method DecideStep(run: Run, step: Step, state: State, startSeen: bool) returns (verdict: Verdict)
    ensures verdict == Decide(run, step, state, startSeen)
  {
    if !startSeen && run.startAt != Some(step.id) { return BeforeStart; }
    if run.startAt.None? && !run.force && !run.ignoreState && step.resume.SkipIfSuccess?
       && StatusAt(state, KeyOf(run, step)) == Some(Success)
    {
      return AlreadySuccessful;
    }
    var blockedBy := BlockedDependencies(run, step, state);
    if blockedBy != [] { return Block; }
    var upstream := false;
    for j := 0 to |step.dependsOn|
      invariant upstream <==>
        exists k :: 0 <= k < j && DependencyStatus(run, state, step.dependsOn[k]) == Some(SuccessDegraded)
    {
      if DependencyStatus(run, state, step.dependsOn[j]) == Some(SuccessDegraded) { upstream := true; }
    }
    var command, refused, degraded := step.command, false, false;
    for j := 0 to |step.dependsOn|
      invariant Scan(command, refused, degraded) == ScanSoft(run, step, state, j)
    {
      var dep := step.dependsOn[j];
      if !dep.soft || Satisfied(run, state, dep) { continue; }
      match Rewritten(step, dep.step)
      case Refused => refused := true;
      case Changed(changed) => command, degraded := changed, true;
      case Unaffected => degraded := true;
    }
    verdict := if refused then Block else Execute(command, degraded || upstream);
  }

  /** The part of the loop body around the runner call: the row says running on file before the call
      and holds its outcome on file after it. */
  method ExecuteStep(run: Run, file: StateFile, i: nat, before: State, command: seq<string>, degraded: bool,
                     ghost start: State, ghost events: seq<Event>)
    returns (state: State, outcome: Outcome, ghost events': seq<Event>)
    requires i < |run.steps| && file.content == FileAfter(start, events)
    modifies file
    ensures var key, exit := KeyOf(run, run.steps[i]), run.exits(i);
      && outcome == OutcomeOf(run.steps[i], exit, run.unlocked(i), degraded)
      && state == before[key := Row(outcome.status, Some(exit))]
      && events' == events + [Write(before[key := Row(Running, None)])] + [Call(i, key, command, before, exit)]
                    + [Write(state)]
    ensures file.content == FileAfter(start, events')
  {
    var key := KeyOf(run, run.steps[i]);
    state := before[key := Row(Running, None)];
    file.Write(state);
    var exit := run.exits(i);
    outcome := OutcomeOf(run.steps[i], exit, run.unlocked(i), degraded);
    events' := events + [Write(state)] + [Call(i, key, command, before, exit)];
    state := state[key := Row(outcome.status, Some(exit))];
    assert state == before[key := Row(outcome.status, Some(exit))];
    file.Write(state);
    FileAfterAppend(start, events', Write(state));
    events' := events' + [Write(state)];
  }

  /** `run_daily_update`; `None` stands for the error about an unknown start step. */
  method RunDailyUpdate(run: Run, file: StateFile) returns (exitCode: Option<int>, ghost events: seq<Event>)
    modifies file
    ensures exitCode.None? <==> run.startAt.Some? && run.startAt.value !in (set step <- run.steps :: step.id)
    ensures exitCode.None? ==> events == [] && file.content == old(file.content)
    ensures exitCode.Some? ==>
      var end := RunAll(run, old(file.content));
      && events == end.events
      && exitCode == Some(FinalExitCode(run, end.state, end.failed))
    ensures file.content == FileAfter(old(file.content), events)
  {
    events := [];
    if !KnownStart(run) { return None, []; }
    var state := MarkAbandoned(run, file.content);
    if AnyAbandoned(run, file.content) {
      file.Write(state);
      events := [Write(state)];
    }
    var startSeen, failed, stopped := run.startAt.None?, None, false;
    var i := 0;
    while i < |run.steps| && !stopped
      invariant i <= |run.steps|
      invariant Progress(state, startSeen, failed, stopped, events) == After(run, old(file.content), i)
      invariant file.content == FileAfter(old(file.content), events)
    {
      var step := run.steps[i];
      var key := KeyOf(run, step);
      var verdict := DecideStep(run, step, state, startSeen);
      match verdict {
        case BeforeStart =>
          state := state[key := Row(Skipped, Some(0))];
        case AlreadySuccessful =>
          startSeen := true;
        case Block =>
          startSeen := true;
          state := state[key := Row(Blocked, Some(1))];
          file.Write(state);
          FileAfterAppend(old(file.content), events, Write(state));
          events := events + [Write(state)];
        case Execute(command, degraded) =>
          startSeen := true;
          var outcome;
          state, outcome, events := ExecuteStep(run, file, i, state, command, degraded, old(file.content), events);
          if outcome.fails && failed.None? { failed := Some(run.exits(i)); }
          stopped := outcome.stops;
      }
      i := i + 1;
    }
    if stopped { StoppedStays(run, old(file.content), i, |run.steps|); }
    exitCode := Some(FinalExitCode(run, state, failed));
  }
}
