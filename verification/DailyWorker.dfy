/** The background worker of the Baostock daily update: per-code state, the refetch decision, and
    the run records of each task. */
module DailyWorker {
  type Code = string
  type Dataset = string

  const FACTOR: Dataset := "baostock_cn_stock_adjustment_factor"
  const QFQ: Dataset := "baostock_cn_stock_daily_bar_qfq"
  const HFQ: Dataset := "baostock_cn_stock_daily_bar_hfq"

  predicate IsAdjusted(dataset: Dataset) { dataset == QFQ || dataset == HFQ }

  /** One run record; `ok` tells success from failed. */
  datatype Record = Record(dataset: Dataset, code: Code, ok: bool)

  /** Ask the main thread for the full history. `frame` is not in the request the program sends: it
      remembers the factor frame the initial pass read, so that the refetch can be compared. */
  datatype Request = Request(code: Code, datasets: seq<Dataset>, frame: int)

  datatype TaskResult = TaskResult(records: seq<Record>, requests: seq<Request>)

  /** Adjustment factors of one code: the frame, and whether neither fetch nor store had any. */
  datatype FactorState = FactorState(frame: int, error: bool)

  const NO_FACTORS: FactorState := FactorState(0, false)

  datatype WorkerState = WorkerState(factors: map<Code, FactorState>, plans: map<Code, seq<Dataset>>)

  function FactorOf(w: WorkerState, code: Code): FactorState {
    if code in w.factors then w.factors[code] else NO_FACTORS
  }

  function PlansOf(w: WorkerState, code: Code): seq<Dataset> {
    if code in w.plans then w.plans[code] else []
  }

  function Release(w: WorkerState, code: Code): WorkerState {
    WorkerState(w.factors - {code}, w.plans - {code})
  }

  /** Everything outside the worker that decides what a daily task does. */
  datatype Conditions = Conditions(
    full: bool,                    // update mode
    noFetchStart: bool,            // full mode without data fetched up front
    apiError: bool,                // the provider call failed
    refetch: bool,                 // partial mode: empty lookback or a conflict on the overlap
    raises: bool,                  // some other exception while processing
    writeFails: Dataset -> bool)   // writing this dataset raises

  // ---------------------------------------------------------------- specification

  function Failures(code: Code, plans: seq<Dataset>): seq<Record> {
    seq(|plans|, i requires 0 <= i < |plans| => Record(plans[i], code, false))
  }

  /** Per-plan outcome when each write is guarded on its own. */
  function Guarded(code: Code, plans: seq<Dataset>, fails: Dataset -> bool): seq<Record> {
    seq(|plans|, i requires 0 <= i < |plans| => Record(plans[i], code, !fails(plans[i])))
  }

  /** Plans that cannot run because the factors are missing. */
  function Barred(plans: seq<Dataset>, factor: FactorState): seq<Dataset> {
    if plans == [] then []
    else
      var front, last := Barred(plans[..|plans| - 1], factor), plans[|plans| - 1];
      if IsAdjusted(last) && factor.error then front + [last] else front
  }

  function Active(plans: seq<Dataset>, factor: FactorState): seq<Dataset> {
    if plans == [] then []
    else
      var front, last := Active(plans[..|plans| - 1], factor), plans[|plans| - 1];
      if IsAdjusted(last) && factor.error then front else front + [last]
  }

  /** `_process_daily_initial`, with an exception anywhere turned into failures of all plans. */
  function Initial(code: Code, plans: seq<Dataset>, factor: FactorState, c: Conditions): TaskResult {
    var barred, active := Failures(code, Barred(plans, factor)), Active(plans, factor);
    if c.raises then TaskResult(Failures(code, plans), [])
    else if active == [] then TaskResult(barred, [])
    else if c.full && c.noFetchStart then TaskResult(barred, [Request(code, Unique(active), factor.frame)])
    else if c.apiError then TaskResult(barred + Failures(code, active), [])
    else if c.full then TaskResult(barred + Guarded(code, active, c.writeFails), [])
    else if c.refetch then TaskResult(barred, [Request(code, Unique(active), factor.frame)])
    else if exists i :: 0 <= i < |active| && c.writeFails(active[i]) then TaskResult(Failures(code, plans), [])
    else TaskResult(barred + Guarded(code, active, c.writeFails), [])
  }

  /** `dict.fromkeys`: first occurrences in order. */
  function Unique(xs: seq<Dataset>): seq<Dataset> {
    if xs == [] then []
    else
      var front := Unique(xs[..|xs| - 1]);
      if xs[|xs| - 1] in front then front else front + [xs[|xs| - 1]]
  }

  function Requested(plans: seq<Dataset>, datasets: seq<Dataset>): seq<Dataset> {
    if plans == [] then []
    else
      var front, last := Requested(plans[..|plans| - 1], datasets), plans[|plans| - 1];
      if last in datasets then front + [last] else front
  }

  /** `process_daily_full_refetch` for the plans kept from the initial pass. */
  function Refetched(code: Code, plans: seq<Dataset>, datasets: seq<Dataset>, c: Conditions): TaskResult {
    var chosen := Requested(plans, datasets);
    TaskResult(if c.raises || c.apiError then Failures(code, chosen) else Guarded(code, chosen, c.writeFails), [])
  }

  /** A factor task: the fetched frame was stored, or the fetch or its write failed and the frame is the
      one stored before, if there was one. */
  function FactorProcessed(w: WorkerState, retain: bool, code: Code, frame: int, missing: bool, ok: bool)
    : (TaskResult, WorkerState)
  {
    (TaskResult([Record(FACTOR, code, ok)], []),
     if retain then w.(factors := w.factors[code := FactorState(frame, !ok && missing)]) else w)
  }

  function InitialState(w: WorkerState, code: Code, plans: seq<Dataset>, result: TaskResult): WorkerState {
    var kept := w.(plans := w.plans[code := plans]);
    if result.requests == [] then Release(kept, code) else kept
  }

  // ---------------------------------------------------------------- one record per planned dataset

  ghost predicate Distinct(xs: seq<Dataset>) {
    forall i, j :: 0 <= i < j < |xs| ==> xs[i] != xs[j]
  }

  ghost function Occurrences(xs: seq<Dataset>, x: Dataset): nat {
    if xs == [] then 0 else Occurrences(xs[..|xs| - 1], x) + (if xs[|xs| - 1] == x then 1 else 0)
  }

  /** Records for one dataset of one code. */
  ghost function RecordCount(records: seq<Record>, code: Code, dataset: Dataset): nat {
    if records == [] then 0
    else
      var r := records[|records| - 1];
      RecordCount(records[..|records| - 1], code, dataset) + (if r.code == code && r.dataset == dataset then 1 else 0)
  }

  lemma {:induction false} RecordCountConcat(a: seq<Record>, b: seq<Record>, code: Code, dataset: Dataset)
    ensures RecordCount(a + b, code, dataset) == RecordCount(a, code, dataset) + RecordCount(b, code, dataset)
  {
    if b == [] {
      assert a + b == a;
    } else {
      assert (a + b)[..|a + b| - 1] == a + b[..|b| - 1];
      RecordCountConcat(a, b[..|b| - 1], code, dataset);
    }
  }

  /** How often a dataset of a code is asked for again. */
  ghost function RequestCount(requests: seq<Request>, code: Code, dataset: Dataset): nat {
    if requests == [] then 0
    else
      var q := requests[|requests| - 1];
      RequestCount(requests[..|requests| - 1], code, dataset)
      + (if q.code == code then Occurrences(q.datasets, dataset) else 0)
  }

  /** A record list made plan by plan counts like the plans. */
  lemma {:induction false} PerPlanCount(records: seq<Record>, plans: seq<Dataset>, code: Code, who: Code,
                                        dataset: Dataset)
    requires |records| == |plans|
    requires forall i :: 0 <= i < |plans| ==> records[i].dataset == plans[i] && records[i].code == code
    ensures RecordCount(records, who, dataset) == if who == code then Occurrences(plans, dataset) else 0
  {
    if plans != [] { PerPlanCount(records[..|records| - 1], plans[..|plans| - 1], code, who, dataset); }
  }

  lemma {:induction false} SplitCount(plans: seq<Dataset>, factor: FactorState, dataset: Dataset)
    ensures Occurrences(Barred(plans, factor), dataset) + Occurrences(Active(plans, factor), dataset)
         == Occurrences(plans, dataset)
  {
    if plans != [] {
      var front, last := plans[..|plans| - 1], plans[|plans| - 1];
      SplitCount(front, factor, dataset);
      assert (Barred(front, factor) + [last])[..|Barred(front, factor)|] == Barred(front, factor);
      assert (Active(front, factor) + [last])[..|Active(front, factor)|] == Active(front, factor);
    }
  }

  lemma {:induction false} OccurrencesDistinct(xs: seq<Dataset>, x: Dataset)
    requires Distinct(xs)
    ensures Occurrences(xs, x) == if x in xs then 1 else 0
  {
    if xs != [] {
      OccurrencesDistinct(xs[..|xs| - 1], x);
      assert xs == xs[..|xs| - 1] + [xs[|xs| - 1]];
    }
  }

  lemma {:induction false} UniqueIsDistinct(xs: seq<Dataset>)
    ensures Distinct(Unique(xs))
    ensures forall x :: x in Unique(xs) <==> x in xs
  {
    if xs != [] {
      UniqueIsDistinct(xs[..|xs| - 1]);
      assert xs == xs[..|xs| - 1] + [xs[|xs| - 1]];
    }
  }

  lemma {:induction false} ActiveDistinct(plans: seq<Dataset>, factor: FactorState)
    requires Distinct(plans)
    ensures Distinct(Active(plans, factor))
    ensures forall x :: x in Active(plans, factor) ==> x in plans
  {
    if plans != [] {
      var front, last := plans[..|plans| - 1], plans[|plans| - 1];
      ActiveDistinct(front, factor);
      assert plans == front + [last];
      assert last !in front;
    }
  }

  lemma {:induction false} TwoPartCount(code: Code, barred: seq<Dataset>, rest: seq<Record>, active: seq<Dataset>,
                                        who: Code, dataset: Dataset)
    requires |rest| == |active|
    requires forall i :: 0 <= i < |active| ==> rest[i].dataset == active[i] && rest[i].code == code
    ensures RecordCount(Failures(code, barred) + rest, who, dataset)
         == if who == code then Occurrences(barred, dataset) + Occurrences(active, dataset) else 0
  {
    PerPlanCount(Failures(code, barred), barred, code, who, dataset);
    PerPlanCount(rest, active, code, who, dataset);
    RecordCountConcat(Failures(code, barred), rest, who, dataset);
  }

  /** What the initial pass may ask for. */
  ghost predicate FairRequest(q: Request, code: Code, plans: seq<Dataset>, factor: FactorState) {
    q.code == code && q.frame == factor.frame && Distinct(q.datasets) && forall d :: d in q.datasets ==> d in plans
  }

  /** The initial pass either records a planned dataset or asks for its refetch, once. */
  lemma {:induction false} InitialAccounts(code: Code, plans: seq<Dataset>, factor: FactorState, c: Conditions,
                                           who: Code, dataset: Dataset)
    requires Distinct(plans)
    ensures var r := Initial(code, plans, factor, c);
      && |r.requests| <= 1
      && (r.requests != [] ==> FairRequest(r.requests[0], code, plans, factor))
      && RecordCount(r.records, who, dataset) + RequestCount(r.requests, who, dataset)
         == if who == code then Occurrences(plans, dataset) else 0
  {
    var barred, active := Barred(plans, factor), Active(plans, factor);
    SplitCount(plans, factor, dataset);
    var r := Initial(code, plans, factor, c);
    if r.requests != [] {
      ActiveDistinct(plans, factor);
      UniqueIsDistinct(active);
      OccurrencesDistinct(active, dataset);
      OccurrencesDistinct(Unique(active), dataset);
      PerPlanCount(Failures(code, barred), barred, code, who, dataset);
      assert r.requests == [Request(code, Unique(active), factor.frame)];
      assert r.requests[..0] == [];
    } else if r.records == Failures(code, plans) {
      PerPlanCount(r.records, plans, code, who, dataset);
    } else if active == [] {
      PerPlanCount(r.records, barred, code, who, dataset);
    } else if c.apiError {
      TwoPartCount(code, barred, Failures(code, active), active, who, dataset);
    } else {
      TwoPartCount(code, barred, Guarded(code, active, c.writeFails), active, who, dataset);
    }
  }

  lemma {:induction false} RequestedCount(plans: seq<Dataset>, datasets: seq<Dataset>, dataset: Dataset)
    ensures Occurrences(Requested(plans, datasets), dataset)
         == if dataset in datasets then Occurrences(plans, dataset) else 0
  {
    if plans != [] {
      var front, last := plans[..|plans| - 1], plans[|plans| - 1];
      RequestedCount(front, datasets, dataset);
      assert (Requested(front, datasets) + [last])[..|Requested(front, datasets)|] == Requested(front, datasets);
    }
  }

  /** A refetch records exactly the datasets it was asked for. */
  lemma {:induction false} RefetchAccounts(code: Code, plans: seq<Dataset>, datasets: seq<Dataset>, c: Conditions,
                                           who: Code, dataset: Dataset)
    requires Distinct(plans) && Distinct(datasets) && forall d :: d in datasets ==> d in plans
    ensures var r := Refetched(code, plans, datasets, c);
      && r.requests == []
      && RecordCount(r.records, who, dataset) == if who == code then Occurrences(datasets, dataset) else 0
  {
    var chosen := Requested(plans, datasets);
    RequestedCount(plans, datasets, dataset);
    OccurrencesDistinct(plans, dataset);
    OccurrencesDistinct(datasets, dataset);
    PerPlanCount(Refetched(code, plans, datasets, c).records, chosen, code, who, dataset);
  }

  // ---------------------------------------------------------------- what the records say

  /** An adjusted dataset without factors cannot run. */
  ghost predicate CanRun(dataset: Dataset, factor: FactorState) {
    dataset in {"baostock_cn_stock_daily_bar_qfq", "baostock_cn_stock_daily_bar_hfq"} ==> !factor.error
  }

  /** When the initial pass records a dataset as a success: nothing raised, the dataset can run, the provider
      answered, and its own write went well; in partial mode every dataset that can run was written. */
  ghost predicate InitialOk(plans: seq<Dataset>, factor: FactorState, c: Conditions, dataset: Dataset) {
    && !c.raises && CanRun(dataset, factor) && !c.apiError
    && if c.full then !c.writeFails(dataset)
       else forall i :: 0 <= i < |plans| && CanRun(plans[i], factor) ==> !c.writeFails(plans[i])
  }

  /** When it asks for the full history instead. */
  ghost predicate InitialAsks(plans: seq<Dataset>, factor: FactorState, c: Conditions) {
    && !c.raises
    && (exists i :: 0 <= i < |plans| && CanRun(plans[i], factor))
    && if c.full then c.noFetchStart else !c.apiError && c.refetch
  }

  ghost predicate RefetchOk(c: Conditions, dataset: Dataset) {
    !c.raises && !c.apiError && !c.writeFails(dataset)
  }

  lemma {:induction false} ActiveAre(plans: seq<Dataset>, factor: FactorState)
    ensures forall d :: d in Active(plans, factor) <==> d in plans && CanRun(d, factor)
    ensures forall d :: d in Barred(plans, factor) <==> d in plans && !CanRun(d, factor)
  {
    if plans != [] {
      var front, last := plans[..|plans| - 1], plans[|plans| - 1];
      ActiveAre(front, factor);
      assert plans == front + [last];
    }
  }

  /** The datasets that can run are asked for, and the others recorded as failed; or every dataset is recorded,
      as a success exactly under the conditions above. */
  lemma {:induction false} InitialTells(code: Code, plans: seq<Dataset>, factor: FactorState, c: Conditions)
    ensures var r := Initial(code, plans, factor, c);
      && (forall x :: x in r.records ==>
            x.code == code && x.dataset in plans && (x.ok <==> InitialOk(plans, factor, c, x.dataset)))
      && (r.requests != [] <==> InitialAsks(plans, factor, c))
      && (forall q :: q in r.requests ==>
            && q.code == code && q.frame == factor.frame
            && forall d :: d in q.datasets <==> d in plans && CanRun(d, factor))
  {
    var barred, active := Barred(plans, factor), Active(plans, factor);
    ActiveAre(plans, factor);
    UniqueIsDistinct(active);
    FailuresTell(code, plans);
    FailuresTell(code, barred);
    FailuresTell(code, active);
    GuardedTell(code, active, c.writeFails);
    assert active != [] <==> exists i :: 0 <= i < |plans| && CanRun(plans[i], factor) by {
      if active != [] { assert active[0] in active; }
      if i :| 0 <= i < |plans| && CanRun(plans[i], factor) { assert plans[i] in active; }
    }
    if exists i :: 0 <= i < |active| && c.writeFails(active[i]) {
      var i :| 0 <= i < |active| && c.writeFails(active[i]);
      assert active[i] in active;
    } else {
      forall i | 0 <= i < |plans| && CanRun(plans[i], factor) ensures !c.writeFails(plans[i]) {
        assert plans[i] in active;
      }
    }
  }

  lemma {:induction false} FailuresTell(code: Code, plans: seq<Dataset>)
    ensures forall x :: x in Failures(code, plans) ==> x.code == code && x.dataset in plans && !x.ok
  {
  }

  lemma {:induction false} GuardedTell(code: Code, plans: seq<Dataset>, fails: Dataset -> bool)
    ensures forall x :: x in Guarded(code, plans, fails) ==>
      x.code == code && x.dataset in plans && (x.ok <==> !fails(x.dataset))
  {
  }

  lemma {:induction false} RequestedAre(plans: seq<Dataset>, datasets: seq<Dataset>)
    ensures forall d :: d in Requested(plans, datasets) <==> d in plans && d in datasets
  {
    if plans != [] {
      var front, last := plans[..|plans| - 1], plans[|plans| - 1];
      RequestedAre(front, datasets);
      assert plans == front + [last];
    }
  }

  lemma {:induction false} RefetchTells(code: Code, plans: seq<Dataset>, datasets: seq<Dataset>, c: Conditions)
    ensures forall x :: x in Refetched(code, plans, datasets, c).records ==>
      x.code == code && x.dataset in plans && x.dataset in datasets && (x.ok <==> RefetchOk(c, x.dataset))
  {
    var chosen := Requested(plans, datasets);
    RequestedAre(plans, datasets);
    FailuresTell(code, chosen);
    GuardedTell(code, chosen, c.writeFails);
  }

  // ---------------------------------------------------------------- the object

  class DailyUpdateBackgroundWorker {
    const retainFactorState: bool
    var factors: map<Code, FactorState>
    var plansByCode: map<Code, seq<Dataset>>

    ghost function State(): WorkerState
      reads this
    {
      WorkerState(factors, plansByCode)
    }

    constructor (retainFactorState: bool)
      ensures State() == WorkerState(map[], map[]) && this.retainFactorState == retainFactorState
    {
      this.retainFactorState := retainFactorState;
      factors, plansByCode := map[], map[];
    }

    method SetFactorState(code: Code, state: FactorState)
      modifies this
      ensures State() == old(State()).(factors := old(State()).factors[code := state])
    {
      factors := factors[code := state];
    }

    /** `existing` is the stored frame, `missing` that there is none or that reading it failed. */
    method ProcessFactorSuccess(code: Code, fetched: int, writeFails: bool, existing: int, missing: bool)
      returns (result: TaskResult)
      modifies this
      ensures (result, State()) == FactorProcessed(old(State()), retainFactorState, code,
                                                   if writeFails then existing else fetched, missing, !writeFails)
    {
      if writeFails {
        result := ProcessFactorFailure(code, existing, missing);
      } else {
        if retainFactorState { SetFactorState(code, FactorState(fetched, false)); }
        result := TaskResult([Record(FACTOR, code, true)], []);
      }
    }

    method ProcessFactorFailure(code: Code, existing: int, missing: bool) returns (result: TaskResult)
      modifies this
      ensures (result, State()) == FactorProcessed(old(State()), retainFactorState, code, existing, missing, false)
    {
      if retainFactorState { SetFactorState(code, FactorState(existing, missing)); }
      result := TaskResult([Record(FACTOR, code, false)], []);
    }

    /** Without a fetch, the stored factors are the code's; that there are none is no error here. */
    method UseExistingFactor(code: Code, existing: int)
      modifies this
      ensures State() == if retainFactorState
                         then old(State()).(factors := old(State()).factors[code := FactorState(existing, false)])
                         else old(State())
    {
      if retainFactorState { SetFactorState(code, FactorState(existing, false)); }
    }

    method ReleaseCodeState(code: Code)
      modifies this
      ensures State() == Release(old(State()), code)
    {
      factors := factors - {code};
      plansByCode := plansByCode - {code};
    }

    method ProcessDailyInitial(code: Code, plans: seq<Dataset>, c: Conditions) returns (result: TaskResult)
      modifies this
      ensures result == Initial(code, plans, FactorOf(old(State()), code), c)
      ensures State() == InitialState(old(State()), code, plans, result)
    {
      plansByCode := plansByCode[code := plans];
      var raised;
      result, raised := TryInitial(code, plans, c);
      if raised {
        var failures := WriteFailures(code, plans);
        result := TaskResult(failures, []);
      }
      if result.requests == [] {
        ReleaseCodeState(code);
      }
    }

    /** `_process_daily_initial`; `raised` stands for an exception, after which nothing of the
        result is kept. */
    method TryInitial(code: Code, plans: seq<Dataset>, c: Conditions) returns (result: TaskResult, raised: bool)
      ensures raised ==> Initial(code, plans, FactorOf(State(), code), c) == TaskResult(Failures(code, plans), [])
      ensures !raised ==> result == Initial(code, plans, FactorOf(State(), code), c)
    {
      result, raised := TaskResult([], []), false;
      var factor := if code in factors then factors[code] else NO_FACTORS;
      if c.raises { return result, true; }
      var records: seq<Record> := [];
      var active: seq<Dataset> := [];
      for i := 0 to |plans|
        invariant records == Failures(code, Barred(plans[..i], factor)) && active == Active(plans[..i], factor)
      {
        assert plans[..i + 1][..i] == plans[..i];
        if IsAdjusted(plans[i]) && factor.error {
          records := records + [Record(plans[i], code, false)];
        } else {
          active := active + [plans[i]];
        }
      }
      assert plans[..|plans|] == plans;
      if active == [] { return TaskResult(records, []), false; }
      if c.full {
        if c.noFetchStart {
          return TaskResult(records, [Request(code, Unique(active), factor.frame)]), false;
        }
        var written;
        if c.apiError { written := WriteFailures(code, active); }
        else { written := WriteFrames(code, active, c); }
        return TaskResult(records + written, []), false;
      }
      if c.apiError {
        var failures := WriteFailures(code, active);
        return TaskResult(records + failures, []), false;
      }
      if c.refetch {
        return TaskResult(records, [Request(code, Unique(active), factor.frame)]), false;
      }
      ghost var barred := records;
      for i := 0 to |active|
        invariant records == barred + Guarded(code, active[..i], c.writeFails)
        invariant forall k :: 0 <= k < i ==> !c.writeFails(active[k])
      {
        if c.writeFails(active[i]) { return result, true; }
        assert Guarded(code, active[..i + 1], c.writeFails)
            == Guarded(code, active[..i], c.writeFails) + [Record(active[i], code, true)];
        records := records + [Record(active[i], code, true)];
      }
      assert active[..|active|] == active;
      result := TaskResult(records, []);
    }

    method ProcessDailyFullRefetch(request: Request, c: Conditions) returns (result: TaskResult)
      modifies this
      ensures result == Refetched(request.code, PlansOf(old(State()), request.code), request.datasets, c)
      ensures State() == Release(old(State()), request.code)
    {
      var plans := if request.code in plansByCode then plansByCode[request.code] else [];
      var chosen: seq<Dataset> := [];
      for i := 0 to |plans|
        invariant chosen == Requested(plans[..i], request.datasets)
      {
        assert plans[..i + 1][..i] == plans[..i];
        if plans[i] in request.datasets { chosen := chosen + [plans[i]]; }
      }
      assert plans[..|plans|] == plans;
      var records;
      if c.raises || c.apiError { records := WriteFailures(request.code, chosen); }
      else { records := WriteFrames(request.code, chosen, c); }
      result := TaskResult(records, []);
      ReleaseCodeState(request.code);
    }

    method WriteFailures(code: Code, plans: seq<Dataset>) returns (records: seq<Record>)
      ensures records == Failures(code, plans)
    {
      records := [];
      for i := 0 to |plans|
        invariant records == Failures(code, plans[..i])
      {
        records := records + [Record(plans[i], code, false)];
      }
      assert plans[..|plans|] == plans;
    }

    method WriteFrames(code: Code, plans: seq<Dataset>, c: Conditions) returns (records: seq<Record>)
      ensures records == Guarded(code, plans, c.writeFails)
    {
      records := [];
      for i := 0 to |plans|
        invariant records == Guarded(code, plans[..i], c.writeFails)
      {
        records := records + [Record(plans[i], code, !c.writeFails(plans[i]))];
      }
      assert plans[..|plans|] == plans;
    }
  }
}
