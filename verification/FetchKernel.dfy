/** The AkShare fetch kernel: adaptive concurrency, circuit-open cut-off, and one record per task. */
module FetchKernel {

  // ---------------------------------------------------------------- adaptive concurrency

  datatype Limits = Limits(maxWorkers: int, windowSize: int, failureRate: real, recovery: int, failureRun: int) {
    predicate Valid() {
      maxWorkers >= 1 && windowSize >= 1 && recovery >= 1 && failureRun >= 1
    }
  }

  datatype Control = Control(target: int, recent: seq<bool>, successes: int, failures: int)

  ghost predicate ValidControl(limits: Limits, c: Control) {
    && limits.Valid() && 1 <= c.target <= limits.maxWorkers
    && |c.recent| <= limits.windowSize && c.successes >= 0 && 0 <= c.failures < limits.failureRun
  }

  function FailureCount(recent: seq<bool>): nat {
    if recent == [] then 0 else FailureCount(recent[..|recent| - 1]) + (if recent[|recent| - 1] then 0 else 1)
  }

  /** Appending to a deque of bounded length. */
  function Push(recent: seq<bool>, windowSize: int, item: bool): seq<bool>
    requires windowSize >= 1
  {
    if |recent| < windowSize then recent + [item] else recent[1..] + [item]
  }

  function Decreased(c: Control): Control {
    c.(successes := 0, target := if c.target > 1 then c.target - 1 else c.target)
  }

  function FailureShare(recent: seq<bool>, windowSize: int): real
    requires windowSize >= 1
  {
    FailureCount(recent) as real / windowSize as real
  }

  /** The window is full and its share of failures is above the limit. */
  predicate TooManyFailures(limits: Limits, seen: seq<bool>)
    requires limits.Valid()
  {
    |seen| == limits.windowSize && FailureShare(seen, limits.windowSize) > limits.failureRate
  }

  /** The controller after one more outcome. */
  function Observe(limits: Limits, c: Control, success: bool): Control
    requires limits.Valid() && |c.recent| <= limits.windowSize
  {
    var seen := Push(c.recent, limits.windowSize, success);
    var d := if success then c.(recent := seen, successes := c.successes + 1, failures := 0)
             else c.(recent := seen, failures := c.failures + 1, successes := 0);
    if !success && d.failures >= limits.failureRun then Decreased(d).(failures := 0, recent := [])
    else if TooManyFailures(limits, seen) then Decreased(d).(recent := [])
    else if success && d.successes >= limits.recovery
    then d.(target := if d.target < limits.maxWorkers then d.target + 1 else d.target, successes := 0, recent := [])
    else d
  }

  /** Positions of the failures in a window. */
  ghost function FailuresIn(seen: seq<bool>): set<nat> { set i: nat | i < |seen| && !seen[i] }

  lemma {:induction false} FailureCountIs(seen: seq<bool>)
    ensures FailureCount(seen) == |FailuresIn(seen)|
  {
    if seen != [] {
      var front := seen[..|seen| - 1];
      FailureCountIs(front);
      assert FailuresIn(seen) == FailuresIn(front) + (if seen[|seen| - 1] then {} else {|seen| - 1});
    }
  }

  lemma {:induction false} ShareAbove(part: nat, whole: int, limit: real)
    requires whole >= 1
    ensures part as real / whole as real > limit <==> part as real > limit * whole as real
  {
    var q := part as real / whole as real;
    assert q * whole as real == part as real;
  }

  /** A full window with more failures than the limit allows. */
  ghost predicate BadWindow(limits: Limits, seen: seq<bool>) {
    |seen| == limits.windowSize && |FailuresIn(seen)| as real > limits.failureRate * limits.windowSize as real
  }

  lemma {:induction false} BadWindowIs(limits: Limits, seen: seq<bool>)
    requires limits.Valid()
    ensures TooManyFailures(limits, seen) <==> BadWindow(limits, seen)
  {
    FailureCountIs(seen);
    if |seen| == limits.windowSize { ShareAbove(|FailuresIn(seen)|, limits.windowSize, limits.failureRate); }
  }

  /** The control after an outcome, given the window with it and whether that is a bad one. */
  ghost predicate Turned(limits: Limits, c: Control, success: bool, seen: seq<bool>, bad: bool, d: Control) {
    var wins, losses := if success then c.successes + 1 else 0, if success then 0 else c.failures + 1;
    var fewer, more := if c.target == 1 then 1 else c.target - 1,
                       if c.target == limits.maxWorkers then c.target else c.target + 1;
    d == if losses >= limits.failureRun then Control(fewer, [], 0, 0)
         else if bad then Control(fewer, [], 0, losses)
         else if wins >= limits.recovery then Control(more, [], 0, 0)
         else Control(c.target, seen, wins, losses)
  }

  lemma {:induction false} ObserveTurns(limits: Limits, c: Control, success: bool, seen: seq<bool>, bad: bool)
    requires ValidControl(limits, c) && seen == Push(c.recent, limits.windowSize, success)
    requires TooManyFailures(limits, seen) == bad
    ensures Turned(limits, c, success, seen, bad, Observe(limits, c, success))
  {
  }

  /** What one outcome does, case by case: a full run of failures, too large a part of a full window, or
      a full run of successes moves the target by one inside its bounds and starts a new window;
      otherwise the outcome joins the window, whose oldest entry leaves when it is full. */
  lemma {:induction false} ObserveMeans(limits: Limits, c: Control, success: bool)
    requires ValidControl(limits, c)
    ensures var seen := (if |c.recent| == limits.windowSize then c.recent[1..] else c.recent) + [success];
      Turned(limits, c, success, seen, BadWindow(limits, seen), Observe(limits, c, success))
  {
    var seen := (if |c.recent| == limits.windowSize then c.recent[1..] else c.recent) + [success];
    assert Push(c.recent, limits.windowSize, success) == seen;
    BadWindowIs(limits, seen);
    ObserveTurns(limits, c, success, seen, BadWindow(limits, seen));
  }

  /** The target stays between one worker and the maximum whatever happens. */
  lemma {:induction false} ObserveValid(limits: Limits, c: Control, success: bool)
    requires ValidControl(limits, c)
    ensures ValidControl(limits, Observe(limits, c, success))
  {
  }

  ghost function ObserveAll(limits: Limits, c: Control, outcomes: seq<bool>): Control
    requires ValidControl(limits, c)
    ensures ValidControl(limits, ObserveAll(limits, c, outcomes))
  {
    if outcomes == [] then c
    else
      var before, last := ObserveAll(limits, c, outcomes[..|outcomes| - 1]), outcomes[|outcomes| - 1];
      ObserveValid(limits, before, last);
      Observe(limits, before, last)
  }

  ghost function Iterated<T>(step: T -> T, start: T, n: nat): T {
    if n == 0 then start else step(Iterated(step, start, n - 1))
  }

  /** What every step keeps while a counter goes up holds after any number of steps. */
  lemma {:induction false} IteratedKeeps<T(!new)>(step: T -> T, ok: (T, int) -> bool, start: T, total: int, n: nat)
    requires forall d, t :: ok(d, t) ==> ok(step(d), t + 1)
    requires ok(start, total)
    ensures ok(Iterated(step, start, n), total + n)
  {
    if n > 0 {
      IteratedKeeps(step, ok, start, total, n - 1);
      assert ok(step(Iterated(step, start, n - 1)), total + (n - 1) + 1);
    }
  }

  ghost function Stepping(limits: Limits, success: bool): Control -> Control {
    d => if ValidControl(limits, d) then Observe(limits, d, success) else d
  }

  /** After n equal outcomes. */
  ghost function AfterSame(limits: Limits, c: Control, success: bool, n: nat): Control {
    Iterated(Stepping(limits, success), c, n)
  }

  lemma {:induction false} FailureStep(limits: Limits, d: Control)
    requires ValidControl(limits, d)
    ensures var e := Observe(limits, d, false);
      && e.target <= d.target
      && (|| e.target == 1
          || (d.target != 1 && e.target == d.target && e.failures == d.failures + 1)
          || (d.target != 1 && e.target == d.target - 1 && e.failures + limits.failureRun >= d.failures + 1))
  {
  }

  /** k * unit, by addition. */
  ghost function Units(k: nat, unit: int): int {
    if k == 0 then 0 else Units(k - 1, unit) + unit
  }

  lemma {:induction false} UnitsIsProduct(k: nat, unit: int)
    ensures Units(k, unit) == k * unit
  {
    if k > 0 {
      UnitsIsProduct(k - 1, unit);
      assert k * unit == (k - 1) * unit + unit;
    }
  }

  /** `total` failures since the target was `base` have cost workers, up to a remainder. */
  ghost predicate Charged(limits: Limits, base: int, d: Control, total: int) {
    d.target <= base && (d.target == 1 || Units(base - d.target, limits.failureRun) + d.failures >= total)
  }

  lemma {:induction false} FailureCharged(limits: Limits, base: int, d: Control, e: Control, total: int)
    requires Charged(limits, base, d, total) && e.target <= d.target
    requires || e.target == 1
             || (d.target != 1 && e.target == d.target && e.failures == d.failures + 1)
             || (d.target != 1 && e.target == d.target - 1 && e.failures + limits.failureRun >= d.failures + 1)
    ensures Charged(limits, base, e, total + 1)
  {
  }

  ghost function ChargedControl(limits: Limits, base: int): (Control, int) -> bool {
    (d, total) => ValidControl(limits, d) && Charged(limits, base, d, total)
  }

  lemma {:induction false} ChargeOne(limits: Limits, base: int, d: Control, total: int)
    requires ChargedControl(limits, base)(d, total)
    ensures ChargedControl(limits, base)(Stepping(limits, false)(d), total + 1)
  {
    ObserveValid(limits, d, false);
    FailureStep(limits, d);
    FailureCharged(limits, base, d, Observe(limits, d, false), total);
  }

  lemma {:induction false} FailuresCharge(limits: Limits, c: Control, n: nat)
    requires ValidControl(limits, c)
    ensures ChargedControl(limits, c.target)(AfterSame(limits, c, false, n), c.failures + n)
  {
    var step, ok := Stepping(limits, false), ChargedControl(limits, c.target);
    forall d, t | ok(d, t) ensures ok(step(d), t + 1) { ChargeOne(limits, c.target, d, t); }
    IteratedKeeps(step, ok, c, c.failures, n);
  }

  /** Back-off: every full run of failures costs at least one worker, down to a single one. */
  lemma {:induction false} FailuresBackOff(limits: Limits, c: Control, n: nat)
    requires ValidControl(limits, c)
    ensures var d := AfterSame(limits, c, false, n);
      d.target <= c.target
      && (d.target == 1 || (c.target - d.target) * limits.failureRun + d.failures >= c.failures + n)
  {
    FailuresCharge(limits, c, n);
    UnitsIsProduct(c.target - AfterSame(limits, c, false, n).target, limits.failureRun);
  }

  lemma {:induction false} AllSuccesses(recent: seq<bool>)
    requires forall i :: 0 <= i < |recent| ==> recent[i]
    ensures FailureCount(recent) == 0
  {
    if recent != [] { AllSuccesses(recent[..|recent| - 1]); }
  }

  lemma {:induction false} CleanShare(recent: seq<bool>, windowSize: int)
    requires windowSize >= 1 && forall i :: 0 <= i < |recent| ==> recent[i]
    ensures FailureShare(recent, windowSize) == 0.0
  {
    AllSuccesses(recent);
  }

  /** No failure in the window and a success streak short of the recovery length. */
  ghost predicate Clean(limits: Limits, c: Control) {
    c.successes < limits.recovery && forall i :: 0 <= i < |c.recent| ==> c.recent[i]
  }

  lemma {:induction false} SuccessStep(limits: Limits, d: Control)
    requires ValidControl(limits, d) && limits.failureRate >= 0.0 && Clean(limits, d)
    ensures var e := Observe(limits, d, true);
      && Clean(limits, e)
      && ((e.target == d.target && e.successes == d.successes + 1)
          || (e.target == d.target == limits.maxWorkers)
          || (d.target < limits.maxWorkers && e.target == d.target + 1
              && e.successes + limits.recovery == d.successes + 1))
  {
    CleanShare(Push(d.recent, limits.windowSize, true), limits.windowSize);
  }

  /** `total` successes since the target was `base` have been turned into workers and a remainder. */
  ghost predicate Credited(limits: Limits, base: int, d: Control, total: int) {
    base <= d.target
    && (d.target == limits.maxWorkers || Units(d.target - base, limits.recovery) + d.successes == total)
  }

  lemma {:induction false} SuccessCredited(limits: Limits, base: int, d: Control, e: Control, total: int)
    requires Credited(limits, base, d, total)
    requires || (e.target == d.target && e.successes == d.successes + 1)
             || (e.target == d.target == limits.maxWorkers)
             || (d.target < limits.maxWorkers && e.target == d.target + 1
                 && e.successes + limits.recovery == d.successes + 1)
    ensures Credited(limits, base, e, total + 1)
  {
  }

  ghost function CreditedControl(limits: Limits, base: int): (Control, int) -> bool {
    (d, total) => ValidControl(limits, d) && Clean(limits, d) && Credited(limits, base, d, total)
  }

  lemma {:induction false} CreditOne(limits: Limits, base: int, d: Control, total: int)
    requires limits.failureRate >= 0.0 && CreditedControl(limits, base)(d, total)
    ensures CreditedControl(limits, base)(Stepping(limits, true)(d), total + 1)
  {
    ObserveValid(limits, d, true);
    SuccessStep(limits, d);
    SuccessCredited(limits, base, d, Observe(limits, d, true), total);
  }

  lemma {:induction false} SuccessesCredit(limits: Limits, c: Control, n: nat)
    requires ValidControl(limits, c) && limits.failureRate >= 0.0 && Clean(limits, c)
    ensures CreditedControl(limits, c.target)(AfterSame(limits, c, true, n), c.successes + n)
  {
    var step, ok := Stepping(limits, true), CreditedControl(limits, c.target);
    forall d, t | ok(d, t) ensures ok(step(d), t + 1) { CreditOne(limits, c.target, d, t); }
    IteratedKeeps(step, ok, c, c.successes, n);
  }

  /** Recovery: from a clean state, every `recovery` successes give back exactly one worker, up to
      the maximum. */
  lemma {:induction false} SuccessesRecover(limits: Limits, c: Control, n: nat)
    requires ValidControl(limits, c) && limits.failureRate >= 0.0 && Clean(limits, c)
    ensures var d := AfterSame(limits, c, true, n);
      c.target <= d.target
      && (d.target == limits.maxWorkers || (d.target - c.target) * limits.recovery + d.successes == c.successes + n)
  {
    SuccessesCredit(limits, c, n);
    UnitsIsProduct(AfterSame(limits, c, true, n).target - c.target, limits.recovery);
  }

  class AdaptiveConcurrencyController {
    const limits: Limits
    var targetWorkers: int
    var recentSuccesses: seq<bool>
    var consecutiveSuccesses: int
    var consecutiveFailures: int

    ghost function State(): Control
      reads this
    {
      Control(targetWorkers, recentSuccesses, consecutiveSuccesses, consecutiveFailures)
    }

    ghost predicate Valid()
      reads this
    {
      ValidControl(limits, State())
    }

    constructor (maxWorkers: int, windowSize: int, failureRate: real, recovery: int, failureRun: int)
      ensures Valid() && limits.failureRate == failureRate
      ensures limits.maxWorkers == if maxWorkers >= 1 then maxWorkers else 1
      ensures limits.windowSize == if windowSize >= 1 then windowSize else 1
      ensures limits.recovery == if recovery >= 1 then recovery else 1
      ensures limits.failureRun == if failureRun >= 1 then failureRun else 1
      ensures State() == Control(limits.maxWorkers, [], 0, 0)
    {
      limits := Limits(AtLeastOne(maxWorkers), AtLeastOne(windowSize), failureRate, AtLeastOne(recovery),
                       AtLeastOne(failureRun));
      targetWorkers := AtLeastOne(maxWorkers);
      recentSuccesses := [];
      consecutiveSuccesses, consecutiveFailures := 0, 0;
    }

    method RecordFetchResult(success: bool)
      requires Valid()
      modifies this
      ensures Valid() && State() == Observe(limits, old(State()), success)
    {
      ObserveValid(limits, State(), success);
      if |recentSuccesses| == limits.windowSize { recentSuccesses := recentSuccesses[1..]; }
      recentSuccesses := recentSuccesses + [success];
      assert recentSuccesses == Push(old(recentSuccesses), limits.windowSize, success);
      if success {
        consecutiveSuccesses := consecutiveSuccesses + 1;
        consecutiveFailures := 0;
      } else {
        consecutiveFailures := consecutiveFailures + 1;
        consecutiveSuccesses := 0;
      }
      if !success && consecutiveFailures >= limits.failureRun {
        Decrease();
        consecutiveFailures := 0;
        recentSuccesses := [];
        return;
      }
      var tooMany := WindowTooBad();
      if tooMany {
        Decrease();
        recentSuccesses := [];
        return;
      }
      if success && consecutiveSuccesses >= limits.recovery {
        if targetWorkers < limits.maxWorkers { targetWorkers := targetWorkers + 1; }
        consecutiveSuccesses := 0;
        recentSuccesses := [];
      }
    }

    /** The share of failures in a full window, counted. */
    method WindowTooBad() returns (tooMany: bool)
      requires limits.Valid()
      ensures tooMany == TooManyFailures(limits, recentSuccesses)
    {
      if |recentSuccesses| != limits.windowSize { return false; }
      var failures := 0;
      for i := 0 to |recentSuccesses|
        invariant failures == FailureCount(recentSuccesses[..i])
      {
        assert recentSuccesses[..i + 1][..i] == recentSuccesses[..i];
        if !recentSuccesses[i] { failures := failures + 1; }
      }
      assert recentSuccesses[..|recentSuccesses|] == recentSuccesses;
      tooMany := failures as real / limits.windowSize as real > limits.failureRate;
    }

    method Decrease()
      modifies this`targetWorkers, this`consecutiveSuccesses
      ensures consecutiveSuccesses == 0
      ensures targetWorkers == if old(targetWorkers) > 1 then old(targetWorkers) - 1 else old(targetWorkers)
    {
      consecutiveSuccesses := 0;
      if targetWorkers > 1 { targetWorkers := targetWorkers - 1; }
    }
  }

  function AtLeastOne(n: int): int { if n > 1 then n else 1 }
}
