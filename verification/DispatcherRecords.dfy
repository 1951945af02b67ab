/** What the dispatcher's runs leave behind: one run record for every planned dataset, refetches that
    find the plans and factors of their initial pass, and no per-code state. */
module DispatcherRecords {
  import opened Common
  import opened DailyWorker
  import opened Dispatcher

  // ---------------------------------------------------------------- tokens

  /** A record to come, or a daily task or its refetch that is still under way. */
  datatype Token = Cell(code: Code, dataset: Dataset) | Live(code: Code)

  ghost function RequestTokens(q: Request, k: Token): nat {
    match k
    case Cell(code, dataset) => if q.code == code then Occurrences(q.datasets, dataset) else 0
    case Live(code) => if q.code == code then 1 else 0
  }

  ghost function RequestsTokens(requests: seq<Request>, k: Token): nat {
    if requests == [] then 0 else RequestTokens(requests[0], k) + RequestsTokens(requests[1..], k)
  }

  ghost function PlanTokens(who: Code, plans: seq<Dataset>, k: Token): nat {
    match k
    case Cell(code, dataset) => if who == code then Occurrences(plans, dataset) else 0
    case Live(code) => if who == code then 1 else 0
  }

  ghost function FactorTokens(who: Code, k: Token): nat {
    if k == Cell(who, FACTOR) then 1 else 0
  }

  /** What an unfinished task still has to deliver. */
  ghost function TaskTokens(t: Task, k: Token): nat {
    match t
    case Factor(code) => FactorTokens(code, k)
    case Daily(code, plans, _) => PlanTokens(code, plans, k)
    case Refetch(q) => RequestTokens(q, k)
    case FlushMetadata => 0
  }

  ghost function ActionTokens(a: Action, k: Token): nat {
    match a
    case SubmitFactor(code) => FactorTokens(code, k)
    case SubmitDaily(code, plans) => PlanTokens(code, plans, k)
    case _ => 0
  }

  ghost function ScriptTokens(script: seq<Action>, k: Token): nat {
    if script == [] then 0 else ActionTokens(script[0], k) + ScriptTokens(script[1..], k)
  }

  ghost function RecordTokens(records: seq<Record>, k: Token): nat {
    match k
    case Cell(code, dataset) => RecordCount(records, code, dataset)
    case Live(_) => 0
  }

  /** A task's part: what it owes, or what it recorded plus its requests until they are collected. */
  ghost function Share(s: State, n: nat, k: Token): nat
    requires n < |s.tasks|
  {
    if n !in s.results then TaskTokens(s.tasks[n], k)
    else RecordTokens(s.results[n].records, k)
         + (if n in s.pending then RequestsTokens(s.results[n].requests, k) else 0)
  }

  ghost function Shares(s: State, n: nat, k: Token): nat
    requires n <= |s.tasks|
  {
    if n == 0 then 0 else Shares(s, n - 1, k) + Share(s, n - 1, k)
  }

  ghost function InHand(s: State): seq<Request> { if s.pc.Collecting? then s.pc.requests else [] }

  ghost function Total(s: State, k: Token): nat {
    ScriptTokens(s.script, k) + Shares(s, |s.tasks|, k) + RequestsTokens(InHand(s), k)
  }

  /** Two states whose tasks below n have the same shares, except that task m differs. */
  lemma {:induction false} SharesChange(s: State, t: State, n: nat, m: nat, k: Token)
    requires n <= |s.tasks| && n <= |t.tasks|
    requires forall i :: 0 <= i < n && i != m ==> Share(s, i, k) == Share(t, i, k)
    ensures m < n ==> Shares(t, n, k) + Share(s, m, k) == Shares(s, n, k) + Share(t, m, k)
    ensures m >= n ==> Shares(t, n, k) == Shares(s, n, k)
  {
    if n > 0 { SharesChange(s, t, n - 1, m, k); }
  }

  lemma {:induction false} ShareBelow(s: State, n: nat, i: nat, k: Token)
    requires i < n <= |s.tasks|
    ensures Share(s, i, k) <= Shares(s, n, k)
  {
    if i < n - 1 { ShareBelow(s, n - 1, i, k); }
  }

  lemma {:induction false} TwoSharesBelow(s: State, n: nat, i: nat, j: nat, k: Token)
    requires i < j < n <= |s.tasks|
    ensures Share(s, i, k) + Share(s, j, k) <= Shares(s, n, k)
  {
    if j < n - 1 { TwoSharesBelow(s, n - 1, i, j, k); } else { ShareBelow(s, n - 1, i, k); }
  }

  // ---------------------------------------------------------------- live requests

  /** In a finished result that is not collected. */
  ghost predicate Held(s: State, q: Request) {
    exists n :: n in s.pending && n in s.results && n < |s.tasks| && q in s.results[n].requests
  }

  /** Handed to a task that is not finished. */
  ghost predicate Sent(s: State, q: Request) {
    exists n :: 0 <= n < |s.tasks| && n !in s.results && s.tasks[n] == Refetch(q)
  }

  ghost predicate LiveRequest(s: State, q: Request) { Held(s, q) || q in InHand(s) || Sent(s, q) }

  /** The refetch will find the plans it needs, and the factors that the initial pass read. */
  ghost predicate Backed(w: WorkerState, q: Request) {
    && q.code in w.plans && Distinct(w.plans[q.code]) && Distinct(q.datasets)
    && (forall d :: d in q.datasets ==> d in w.plans[q.code])
    && FactorOf(w, q.code).frame == q.frame
  }

  ghost predicate AllBacked(s: State) { forall q :: LiveRequest(s, q) ==> Backed(s.worker, q) }

  ghost predicate AtMostOneLive(s: State) { forall c :: Total(s, Live(c)) <= 1 }

  // ---------------------------------------------------------------- the order of submissions

  predicate Mentions(a: Action, c: Code) {
    (a.BeginCode? || a.SubmitFactor? || a.SubmitDaily?) && a.code == c
  }

  /** After a code's daily task nothing mentions the code; after its factor task only the daily task
      that follows at once; and factors that are kept are followed by a daily task. */
  ghost predicate ScriptInOrder(cfg: Config, script: seq<Action>) {
    && (forall i, j :: 0 <= i < j < |script| && script[i].SubmitDaily? ==> !Mentions(script[j], script[i].code))
    && (forall i, j :: 0 <= i < j < |script| && script[i].SubmitFactor? && Mentions(script[j], script[i].code) ==>
          j == i + 1 && script[j].SubmitDaily?)
    && (forall i :: 0 <= i < |script| && script[i].SubmitFactor? && cfg.retain ==>
          i + 1 < |script| && script[i + 1].SubmitDaily? && script[i + 1].code == script[i].code)
    && (forall i :: 0 <= i < |script| && script[i].BeginCode? && script[i].existing.Some? ==>
          DailyAhead(script, script[i].code))
  }

  ghost predicate DailyAhead(script: seq<Action>, c: Code) {
    exists j :: 0 <= j < |script| && script[j].SubmitDaily? && script[j].code == c
  }

  ghost predicate IsDaily(s: State, n: nat, c: Code) {
    n < |s.tasks| && s.tasks[n].Daily? && s.tasks[n].code == c
  }

  ghost predicate IsFactor(s: State, n: nat, c: Code) {
    n < |s.tasks| && s.tasks[n].Factor? && s.tasks[n].code == c
  }

  /** What was submitted fits what is still to come. */
  ghost predicate TasksInOrder(s: State) {
    && (forall n: nat, c :: IsDaily(s, n, c) ==> forall j :: 0 <= j < |s.script| ==> !Mentions(s.script[j], c))
    && (forall m: nat, c :: IsFactor(s, m, c) ==>
          forall j :: 0 <= j < |s.script| && Mentions(s.script[j], c) ==>
            j == 0 && s.script[j].SubmitDaily? && s.factorFuture == Some(m))
    && (forall n: nat, m: nat, c :: IsDaily(s, n, c) && IsFactor(s, m, c) ==> s.tasks[n].factor == Some(m))
  }

  /** A daily task ends after the factor task of its code. */
  ghost predicate FactorsFirst(s: State) {
    forall n: nat, m: nat, c :: IsDaily(s, n, c) && n in s.results && IsFactor(s, m, c) ==> m in s.results
  }

  ghost predicate DailyDone(s: State, c: Code) { exists n: nat :: IsDaily(s, n, c) && n in s.results }

  /** Every live request comes from a finished daily task of its code. */
  ghost predicate Origins(s: State) { forall q :: LiveRequest(s, q) ==> DailyDone(s, q.code) }

  ghost predicate OrderedInv(cfg: Config, s: State) {
    ScriptInOrder(cfg, s.script) && TasksInOrder(s) && FactorsFirst(s) && Origins(s)
  }

  // ---------------------------------------------------------------- kept state

  ghost predicate DailyToCome(s: State, c: Code) {
    DailyAhead(s.script, c) || exists n: nat :: IsDaily(s, n, c) && n !in s.results
  }

  ghost predicate LiveCode(s: State, c: Code) { exists q :: LiveRequest(s, q) && q.code == c }

  /** Whatever the worker keeps for a code, some task to come will release. */
  ghost predicate KeptForReason(cfg: Config, s: State) {
    && (forall c :: c in s.worker.plans ==> LiveCode(s, c))
    && (forall c :: c in s.worker.factors ==> LiveCode(s, c) || DailyToCome(s, c))
    && (forall m: nat, c :: cfg.retain && IsFactor(s, m, c) && m !in s.results ==> DailyToCome(s, c))
  }

  ghost predicate RecordInv(cfg: Config, s: State) {
    Inv(cfg, s) && OrderedInv(cfg, s) && AllBacked(s) && AtMostOneLive(s) && KeptForReason(cfg, s)
  }

  // ---------------------------------------------------------------- submissions

  lemma {:induction false} SubmitTotals(cfg: Config, s: State, rest: State, t: Task, k: Token)
    requires PoolInv(cfg, s) && rest.tasks == s.tasks && rest.results == s.results && rest.pending == s.pending
    ensures Shares(Submit(rest, t), |s.tasks| + 1, k) == Shares(s, |s.tasks|, k) + TaskTokens(t, k)
  {
    var u := Submit(rest, t);
    SharesChange(s, u, |s.tasks|, |s.tasks|, k);
    assert |s.tasks| !in s.results;
  }

  /** A state that differs in nothing the totals look at except the script. */
  lemma {:induction false} QuietAdvanceTotals(cfg: Config, s: State, k: Token)
    requires Enabled(cfg, s, Advance) && TaskOf(s, s.script[0]).None?
    ensures Total(Apply(cfg, s, Advance), k) == Total(s, k)
  {
    var u := Apply(cfg, s, Advance);
    assert u.tasks == s.tasks && u.results == s.results && u.pending == s.pending && u.pc == s.pc;
    SharesChange(s, u, |s.tasks|, |s.tasks|, k);
    assert ActionTokens(s.script[0], k) == 0;
  }

  lemma {:induction false} AdvanceTotals(cfg: Config, s: State, k: Token)
    requires PoolInv(cfg, s) && Enabled(cfg, s, Advance)
    ensures Total(Apply(cfg, s, Advance), k) == Total(s, k)
  {
    if TaskOf(s, s.script[0]).Some? {
      var rest, t := SubmitShape(cfg, s);
      SubmitTotals(cfg, s, rest, t, k);
      assert TaskTokens(t, k) == ActionTokens(s.script[0], k);
      assert Apply(cfg, s, Advance).script == s.script[1..] && Apply(cfg, s, Advance).pc == s.pc;
    } else {
      QuietAdvanceTotals(cfg, s, k);
    }
  }

  lemma {:induction false} CollectTotals(cfg: Config, s: State, k: Token)
    requires PoolInv(cfg, s) && PendingInv(cfg, s) && MainInv(cfg, s) && Enabled(cfg, s, Collect)
    ensures Total(Apply(cfg, s, Collect), k) == Total(s, k)
  {
    var u, n := Apply(cfg, s, Collect), s.batch[0];
    assert n in s.pending && n in s.results && n < |s.tasks|;
    SharesChange(s, u, |s.tasks|, n, k);
  }

  lemma {:induction false} DispatchTotals(cfg: Config, s: State, k: Token)
    requires PoolInv(cfg, s) && Enabled(cfg, s, Dispatch)
    ensures Total(Apply(cfg, s, Dispatch), k) == Total(s, k)
  {
    var rest, t := s.(pc := Collecting(s.pc.requests[1..])), Refetch(s.pc.requests[0]);
    assert Apply(cfg, s, Dispatch) == Submit(rest, t);
    SubmitTotals(cfg, s, rest, t, k);
  }

  lemma {:induction false} QuietTotals(cfg: Config, s: State, l: Label, k: Token)
    requires Enabled(cfg, s, l) && (l.Wait? || l.Flush? || l.StartTask?)
    ensures Total(Apply(cfg, s, l), k) == Total(s, k)
  {
    SharesChange(s, Apply(cfg, s, l), |s.tasks|, |s.tasks|, k);
  }

  // ---------------------------------------------------------------- finishing

  ghost function ResultTokens(r: TaskResult, k: Token): nat {
    RecordTokens(r.records, k) + RequestsTokens(r.requests, k)
  }

  lemma {:induction false} FewRequests(requests: seq<Request>, code: Code, dataset: Dataset)
    requires |requests| <= 1
    ensures RequestsTokens(requests, Cell(code, dataset)) == RequestCount(requests, code, dataset)
  {
    if requests != [] {
      assert requests[1..] == [] && requests[..0] == [];
    }
  }

  lemma {:induction false} OneRecord(dataset: Dataset, code: Code, ok: bool, who: Code, what: Dataset)
    ensures RecordCount([Record(dataset, code, ok)], who, what) == if who == code && what == dataset then 1 else 0
  {
    assert [Record(dataset, code, ok)][..0] == [];
  }

  /** A task's result is worth what the task owed: records and requests together. */
  lemma {:induction false} ExecuteAccounts(cfg: Config, w: WorkerState, t: Task, e: Environment, code: Code,
                                           dataset: Dataset)
    requires dataset != METADATA
    requires t.Daily? ==> Distinct(t.plans)
    requires t.Refetch? ==> Backed(w, t.request)
    ensures ResultTokens(Execute(cfg, w, t, e).0, Cell(code, dataset)) == TaskTokens(t, Cell(code, dataset))
  {
    var r := Execute(cfg, w, t, e).0;
    match t
    case Factor(c) =>
      OneRecord(FACTOR, c, e.ok, code, dataset);
    case Daily(c, plans, _) =>
      InitialAccounts(c, plans, FactorOf(w, c), e.conditions, code, dataset);
      FewRequests(r.requests, code, dataset);
    case Refetch(q) =>
      RefetchAccounts(q.code, PlansOf(w, q.code), q.datasets, e.conditions, code, dataset);
    case FlushMetadata =>
      OneRecord(METADATA, "*", false, code, dataset);
  }

  lemma {:induction false} ExecuteLive(cfg: Config, w: WorkerState, t: Task, e: Environment, code: Code)
    requires t.Daily? ==> Distinct(t.plans)
    ensures ResultTokens(Execute(cfg, w, t, e).0, Live(code)) <= TaskTokens(t, Live(code))
    ensures !t.Daily? ==> Execute(cfg, w, t, e).0.requests == []
  {
    var r := Execute(cfg, w, t, e).0;
    if t.Daily? {
      InitialAccounts(t.code, t.plans, FactorOf(w, t.code), e.conditions, t.code, "");
      if r.requests != [] {
        assert r.requests[1..] == [] && RequestsTokens(r.requests[1..], Live(code)) == 0;
        assert FairRequest(r.requests[0], t.code, t.plans, FactorOf(w, t.code));
      }
    }
  }

  lemma {:induction false} FinishTotals(cfg: Config, s: State, n: nat, e: Environment, k: Token)
    requires PoolInv(cfg, s) && PendingInv(cfg, s) && Enabled(cfg, s, Finish(n, e))
    ensures Total(Apply(cfg, s, Finish(n, e)), k) + TaskTokens(s.tasks[n], k)
         == Total(s, k) + ResultTokens(Execute(cfg, s.worker, s.tasks[n], e).0, k)
  {
    var u := Apply(cfg, s, Finish(n, e));
    assert n !in s.results && n in s.pending;
    SharesChange(s, u, |s.tasks|, n, k);
  }

  /** A running refetch is a live request, so it is backed. */
  lemma {:induction false} RunningRefetchBacked(cfg: Config, s: State, n: nat)
    requires PoolInv(cfg, s) && AllBacked(s) && n in s.running && n < |s.tasks| && s.tasks[n].Refetch?
    ensures Backed(s.worker, s.tasks[n].request)
  {
    assert n !in s.results;
    assert Sent(s, s.tasks[n].request);
    assert LiveRequest(s, s.tasks[n].request);
  }

  /** No step creates or loses a record to come. */
  lemma {:induction false} StepKeepsCells(cfg: Config, s: State, l: Label, code: Code, dataset: Dataset)
    requires Inv(cfg, s) && AllBacked(s) && Enabled(cfg, s, l) && dataset != METADATA
    ensures Total(Apply(cfg, s, l), Cell(code, dataset)) == Total(s, Cell(code, dataset))
  {
    match l
    case Advance => AdvanceTotals(cfg, s, Cell(code, dataset));
    case Collect => CollectTotals(cfg, s, Cell(code, dataset));
    case Dispatch => DispatchTotals(cfg, s, Cell(code, dataset));
    case Finish(n, e) =>
      FinishTotals(cfg, s, n, e, Cell(code, dataset));
      if s.tasks[n].Refetch? { RunningRefetchBacked(cfg, s, n); }
      ExecuteAccounts(cfg, s.worker, s.tasks[n], e, code, dataset);
    case _ => QuietTotals(cfg, s, l, Cell(code, dataset));
  }

  lemma {:induction false} StepKeepsLive(cfg: Config, s: State, l: Label)
    requires Inv(cfg, s) && AtMostOneLive(s) && Enabled(cfg, s, l)
    ensures AtMostOneLive(Apply(cfg, s, l))
  {
    forall c ensures Total(Apply(cfg, s, l), Live(c)) <= 1 {
      match l
      case Advance => AdvanceTotals(cfg, s, Live(c));
      case Collect => CollectTotals(cfg, s, Live(c));
      case Dispatch => DispatchTotals(cfg, s, Live(c));
      case Finish(n, e) =>
        FinishTotals(cfg, s, n, e, Live(c));
        ExecuteLive(cfg, s.worker, s.tasks[n], e, c);
      case _ => QuietTotals(cfg, s, l, Live(c));
    }
  }

  // ---------------------------------------------------------------- where live requests move

  /** New tasks that are no refetches leave the live requests alone. */
  lemma {:induction false} LiveSame(s: State, u: State, q: Request)
    requires u.results == s.results && InHand(u) == InHand(s)
    requires forall n: nat :: n in s.results ==> n < |s.tasks| && (n in u.pending <==> n in s.pending)
    requires |u.tasks| >= |s.tasks| && forall n :: 0 <= n < |s.tasks| ==> u.tasks[n] == s.tasks[n]
    requires forall n :: |s.tasks| <= n < |u.tasks| ==> !u.tasks[n].Refetch?
    ensures LiveRequest(u, q) <==> LiveRequest(s, q)
  {
    assert Held(u, q) <==> Held(s, q);
    if Sent(s, q) {
      var n :| 0 <= n < |s.tasks| && n !in s.results && s.tasks[n] == Refetch(q);
      assert u.tasks[n] == Refetch(q);
    }
    if Sent(u, q) {
      var n :| 0 <= n < |u.tasks| && n !in u.results && u.tasks[n] == Refetch(q);
      assert n < |s.tasks|;
    }
  }

  lemma {:induction false} LiveAfterSubmit(cfg: Config, s: State, rest: State, t: Task, q: Request)
    requires PoolInv(cfg, s) && !t.Refetch?
    requires rest.tasks == s.tasks && rest.results == s.results && rest.pending == s.pending && rest.pc == s.pc
    ensures LiveRequest(Submit(rest, t), q) <==> LiveRequest(s, q)
  {
    LiveSame(s, Submit(rest, t), q);
  }

  lemma {:induction false} LiveAfterQuietAdvance(cfg: Config, s: State, q: Request)
    requires PoolInv(cfg, s) && Enabled(cfg, s, Advance) && TaskOf(s, s.script[0]).None?
    ensures LiveRequest(Apply(cfg, s, Advance), q) <==> LiveRequest(s, q)
  {
    var u := Apply(cfg, s, Advance);
    assert u.tasks == s.tasks && u.results == s.results && u.pending == s.pending && u.pc == s.pc;
    LiveSame(s, u, q);
  }

  lemma {:induction false} LiveAfterAdvance(cfg: Config, s: State, q: Request)
    requires PoolInv(cfg, s) && Enabled(cfg, s, Advance)
    ensures LiveRequest(Apply(cfg, s, Advance), q) <==> LiveRequest(s, q)
  {
    if TaskOf(s, s.script[0]).Some? {
      var rest, t := SubmitShape(cfg, s);
      LiveAfterSubmit(cfg, s, rest, t, q);
    } else {
      LiveAfterQuietAdvance(cfg, s, q);
    }
  }

  lemma {:induction false} LiveAfterCollect(cfg: Config, s: State, q: Request)
    requires PoolInv(cfg, s) && PendingInv(cfg, s) && MainInv(cfg, s) && Enabled(cfg, s, Collect)
    ensures LiveRequest(Apply(cfg, s, Collect), q) <==> LiveRequest(s, q)
  {
    var u, n := Apply(cfg, s, Collect), s.batch[0];
    assert n in s.pending && n in s.results && n < |s.tasks|;
    assert InHand(s) == [] && InHand(u) == s.results[n].requests;
    assert Sent(u, q) <==> Sent(s, q);
    if Held(s, q) {
      var m :| m in s.pending && m in s.results && m < |s.tasks| && q in s.results[m].requests;
      assert m != n ==> m in u.pending;
    }
  }

  lemma {:induction false} LiveAfterDispatch(cfg: Config, s: State, q: Request)
    requires PoolInv(cfg, s) && PendingInv(cfg, s) && MainInv(cfg, s) && Enabled(cfg, s, Dispatch)
    ensures LiveRequest(Apply(cfg, s, Dispatch), q) <==> LiveRequest(s, q)
  {
    var u, sent := Apply(cfg, s, Dispatch), s.pc.requests[0];
    assert s.pc.requests == [sent] && InHand(u) == [];
    assert u.tasks == s.tasks + [Refetch(sent)] && u.results == s.results;
    assert forall n: nat :: n in s.results ==> (n in u.pending <==> n in s.pending) && n < |s.tasks|;
    assert Held(u, q) <==> Held(s, q);
    SentAfterDispatch(s, u, sent, q);
  }

  lemma {:induction false} SentAfterDispatch(s: State, u: State, sent: Request, q: Request)
    requires u.tasks == s.tasks + [Refetch(sent)] && u.results == s.results && |s.tasks| !in s.results
    ensures Sent(u, q) <==> Sent(s, q) || q == sent
  {
    if Sent(s, q) {
      var n :| 0 <= n < |s.tasks| && n !in s.results && s.tasks[n] == Refetch(q);
      assert u.tasks[n] == Refetch(q);
    }
    if q == sent { assert u.tasks[|s.tasks|] == Refetch(q); }
    if Sent(u, q) {
      var n :| 0 <= n < |u.tasks| && n !in u.results && u.tasks[n] == Refetch(q);
      assert n < |s.tasks| || q == sent;
    }
  }

  lemma {:induction false} LiveAfterFinish(cfg: Config, s: State, n: nat, e: Environment, q: Request)
    requires PoolInv(cfg, s) && PendingInv(cfg, s) && Enabled(cfg, s, Finish(n, e))
    ensures var u := Apply(cfg, s, Finish(n, e));
      && (LiveRequest(u, q) ==> LiveRequest(s, q) || q in Execute(cfg, s.worker, s.tasks[n], e).0.requests)
      && (q in Execute(cfg, s.worker, s.tasks[n], e).0.requests ==> LiveRequest(u, q))
      && (LiveRequest(s, q) && s.tasks[n] != Refetch(q) ==> LiveRequest(u, q))
  {
    var u, r := Apply(cfg, s, Finish(n, e)), Execute(cfg, s.worker, s.tasks[n], e).0;
    assert n !in s.results && n in s.pending;
    assert u.results == s.results[n := r] && u.tasks == s.tasks && u.pending == s.pending && InHand(u) == InHand(s);
    if Held(s, q) {
      var m :| m in s.pending && m in s.results && m < |s.tasks| && q in s.results[m].requests;
      assert u.results[m] == s.results[m];
    }
    if Held(u, q) {
      var m :| m in u.pending && m in u.results && m < |u.tasks| && q in u.results[m].requests;
      assert m != n ==> u.results[m] == s.results[m];
    }
    if Sent(s, q) && s.tasks[n] != Refetch(q) {
      var m :| 0 <= m < |s.tasks| && m !in s.results && s.tasks[m] == Refetch(q);
      assert m !in u.results;
    }
    if q in r.requests { assert Held(u, q) by { assert u.results[n] == r; } }
  }

  lemma {:induction false} LiveAfterQuiet(cfg: Config, s: State, l: Label, q: Request)
    requires Enabled(cfg, s, l) && (l.Wait? || l.Flush? || l.StartTask?)
    ensures LiveRequest(Apply(cfg, s, l), q) <==> LiveRequest(s, q)
  {
    var u := Apply(cfg, s, l);
    assert u.results == s.results && u.tasks == s.tasks && u.pending == s.pending && InHand(u) == InHand(s);
  }

  /** Only a finishing task starts or ends a live request. */
  lemma {:induction false} LiveStays(cfg: Config, s: State, l: Label, q: Request)
    requires Inv(cfg, s) && Enabled(cfg, s, l) && !l.Finish?
    ensures LiveRequest(Apply(cfg, s, l), q) <==> LiveRequest(s, q)
  {
    match l
    case Advance => LiveAfterAdvance(cfg, s, q);
    case Collect => LiveAfterCollect(cfg, s, q);
    case Dispatch => LiveAfterDispatch(cfg, s, q);
    case _ => LiveAfterQuiet(cfg, s, l, q);
  }

  // ---------------------------------------------------------------- one live request per code

  lemma {:induction false} MemberTokens(requests: seq<Request>, q: Request)
    requires q in requests
    ensures RequestsTokens(requests, Live(q.code)) >= 1
  {
    assert requests == [requests[0]] + requests[1..];
    if requests[0] != q { MemberTokens(requests[1..], q); }
  }

  /** While a task with a live token of the code is unfinished, no other request of the code is live. */
  lemma {:induction false} SoleActivity(cfg: Config, s: State, n: nat, q: Request)
    requires Inv(cfg, s) && AtMostOneLive(s) && n < |s.tasks| && n !in s.results
    requires TaskTokens(s.tasks[n], Live(q.code)) == 1 && LiveRequest(s, q)
    ensures s.tasks[n] == Refetch(q) && !Held(s, q) && q !in InHand(s)
    ensures forall m :: 0 <= m < |s.tasks| && m !in s.results && s.tasks[m] == Refetch(q) ==> m == n
  {
    SoleShare(cfg, s, n, q.code);
    if q in InHand(s) { MemberTokens(InHand(s), q); }
    NotHeld(s, n, q);
    forall m | 0 <= m < |s.tasks| && m !in s.results && s.tasks[m] == Refetch(q) ensures m == n {
      assert m == n || Share(s, m, Live(q.code)) == 0;
    }
  }

  lemma {:induction false} NotHeld(s: State, n: nat, q: Request)
    requires n !in s.results
    requires forall m: nat :: m < |s.tasks| && m != n ==> Share(s, m, Live(q.code)) == 0
    ensures !Held(s, q)
  {
    forall m | m in s.pending && m in s.results && m < |s.tasks| ensures q !in s.results[m].requests {
      assert Share(s, m, Live(q.code)) == 0;
      if q in s.results[m].requests { MemberTokens(s.results[m].requests, q); }
    }
  }

  /** Where one unfinished task holds the token of a code, nothing else does. */
  lemma {:induction false} SoleShare(cfg: Config, s: State, n: nat, c: Code)
    requires Inv(cfg, s) && AtMostOneLive(s) && n < |s.tasks| && n !in s.results
    requires TaskTokens(s.tasks[n], Live(c)) == 1
    ensures RequestsTokens(InHand(s), Live(c)) == 0
    ensures forall m: nat :: m < |s.tasks| && m != n ==> Share(s, m, Live(c)) == 0
  {
    var k := Live(c);
    assert Total(s, k) <= 1;
    ShareBelow(s, |s.tasks|, n, k);
    forall m: nat | m < |s.tasks| && m != n ensures Share(s, m, k) == 0 {
      TwoSharesBelow(s, |s.tasks|, if m < n then m else n, if m < n then n else m, k);
    }
  }

  // ---------------------------------------------------------------- backing

  lemma {:induction false} OtherCodeBacked(cfg: Config, w: WorkerState, t: Task, e: Environment, q: Request)
    requires Backed(w, q)
    requires t.Factor? || t.Daily? ==> t.code != q.code
    requires t.Refetch? ==> t.request.code != q.code
    ensures Backed(Execute(cfg, w, t, e).1, q)
  {
  }

  /** A fresh request is backed by the state its daily task leaves. */
  lemma {:induction false} NewRequestBacked(cfg: Config, w: WorkerState, t: Task, e: Environment, q: Request)
    requires t.Daily? && Distinct(t.plans) && q in Execute(cfg, w, t, e).0.requests
    ensures Backed(Execute(cfg, w, t, e).1, q) && q.code == t.code
  {
    InitialAccounts(t.code, t.plans, FactorOf(w, t.code), e.conditions, t.code, "");
    var r := Execute(cfg, w, t, e).0;
    assert q == r.requests[0];
  }

  lemma {:induction false} FinishKeepsBacked(cfg: Config, s: State, n: nat, e: Environment, q: Request)
    requires Inv(cfg, s) && OrderedInv(cfg, s) && AllBacked(s) && AtMostOneLive(s) && Enabled(cfg, s, Finish(n, e))
    requires LiveRequest(Apply(cfg, s, Finish(n, e)), q)
    ensures Backed(Apply(cfg, s, Finish(n, e)).worker, q)
  {
    var t, r := s.tasks[n], Execute(cfg, s.worker, s.tasks[n], e).0;
    LiveAfterFinish(cfg, s, n, e, q);
    ExecuteLive(cfg, s.worker, t, e, q.code);
    assert n !in s.results;
    if q in r.requests {
      NewRequestBacked(cfg, s.worker, t, e, q);
    } else {
      assert Backed(s.worker, q);
      OtherCode(cfg, s, n, e, q);
      OtherCodeBacked(cfg, s.worker, t, e, q);
    }
  }

  /** A task that finishes and leaves a live request alone belongs to another code. */
  lemma {:induction false} OtherCode(cfg: Config, s: State, n: nat, e: Environment, q: Request)
    requires Inv(cfg, s) && OrderedInv(cfg, s) && AtMostOneLive(s) && Enabled(cfg, s, Finish(n, e))
    requires LiveRequest(s, q) && LiveRequest(Apply(cfg, s, Finish(n, e)), q)
    requires q !in Execute(cfg, s.worker, s.tasks[n], e).0.requests
    ensures s.tasks[n].Factor? || s.tasks[n].Daily? ==> s.tasks[n].code != q.code
    ensures s.tasks[n].Refetch? ==> s.tasks[n].request.code != q.code
  {
    var t := s.tasks[n];
    assert n !in s.results;
    assert DailyDone(s, q.code);
    var d: nat :| IsDaily(s, d, q.code) && d in s.results;
    if t.Factor? {
      assert IsFactor(s, n, t.code);
    } else if (t.Daily? && t.code == q.code) || (t.Refetch? && t.request.code == q.code) {
      SoleActivity(cfg, s, n, q);
      GoneAfterFinish(cfg, s, n, e, q);
    }
  }

  lemma {:induction false} GoneAfterFinish(cfg: Config, s: State, n: nat, e: Environment, q: Request)
    requires PoolInv(cfg, s) && PendingInv(cfg, s) && Enabled(cfg, s, Finish(n, e)) && s.tasks[n] == Refetch(q)
    requires !Held(s, q) && q !in InHand(s)
    requires forall m :: 0 <= m < |s.tasks| && m !in s.results && s.tasks[m] == Refetch(q) ==> m == n
    ensures !LiveRequest(Apply(cfg, s, Finish(n, e)), q)
  {
    var u := Apply(cfg, s, Finish(n, e));
    assert n !in s.results && n in u.results && u.results[n].requests == [];
    assert forall m :: m in u.results && m != n ==> m in s.results && u.results[m] == s.results[m];
  }

  lemma {:induction false} BeginKeepsBacked(cfg: Config, s: State, q: Request)
    requires Inv(cfg, s) && OrderedInv(cfg, s) && AllBacked(s) && Enabled(cfg, s, Advance) && LiveRequest(s, q)
    ensures Backed(Apply(cfg, s, Advance).worker, q)
  {
    assert Backed(s.worker, q) && DailyDone(s, q.code);
    var d: nat :| IsDaily(s, d, q.code) && d in s.results;
    assert !Mentions(s.script[0], q.code);
    OtherActionKeepsBacked(cfg, s, q);
  }

  lemma {:induction false} OtherActionKeepsBacked(cfg: Config, s: State, q: Request)
    requires Enabled(cfg, s, Advance) && Backed(s.worker, q) && !Mentions(s.script[0], q.code)
    ensures Backed(Apply(cfg, s, Advance).worker, q)
  {
  }

  lemma {:induction false} StepKeepsBacked(cfg: Config, s: State, l: Label)
    requires Inv(cfg, s) && OrderedInv(cfg, s) && AllBacked(s) && AtMostOneLive(s) && Enabled(cfg, s, l)
    ensures AllBacked(Apply(cfg, s, l))
  {
    var u := Apply(cfg, s, l);
    forall q | LiveRequest(u, q) ensures Backed(u.worker, q) {
      match l
      case Finish(n, e) => FinishKeepsBacked(cfg, s, n, e, q);
      case Advance =>
        LiveStays(cfg, s, l, q);
        BeginKeepsBacked(cfg, s, q);
      case _ => LiveStays(cfg, s, l, q);
    }
  }

  // ---------------------------------------------------------------- order

  lemma {:induction false} ScriptTail(cfg: Config, script: seq<Action>)
    requires script != [] && ScriptInOrder(cfg, script)
    ensures ScriptInOrder(cfg, script[1..])
  {
    var tail := script[1..];
    assert forall i :: 0 <= i < |tail| ==> tail[i] == script[i + 1];
    forall i | 0 <= i < |tail| && tail[i].BeginCode? && tail[i].existing.Some? ensures DailyAhead(tail, tail[i].code) {
      assert DailyAhead(script, script[i + 1].code);
      var j :| 0 <= j < |script| && script[j].SubmitDaily? && script[j].code == script[i + 1].code;
      assert j != 0;
      assert tail[j - 1] == script[j];
    }
    forall i | 0 <= i < |tail| && tail[i].SubmitFactor? && cfg.retain
      ensures i + 1 < |tail| && tail[i + 1].SubmitDaily? && tail[i + 1].code == tail[i].code
    {
      assert script[i + 1].SubmitFactor?;
      assert tail[i + 1] == script[i + 2];
    }
  }

  lemma {:induction false} QuietKeepsTasksInOrder(cfg: Config, s: State)
    requires ScriptInOrder(cfg, s.script) && TasksInOrder(s) && Enabled(cfg, s, Advance)
    requires TaskOf(s, s.script[0]).None?
    ensures TasksInOrder(Apply(cfg, s, Advance))
  {
    var u := Apply(cfg, s, Advance);
    assert forall j :: 0 <= j < |u.script| ==> u.script[j] == s.script[j + 1];
    assert forall n: nat, c :: (IsDaily(u, n, c) <==> IsDaily(s, n, c)) && (IsFactor(u, n, c) <==> IsFactor(s, n, c));
  }

  lemma {:induction false} SubmitKeepsTasksInOrder(cfg: Config, s: State)
    requires ScriptInOrder(cfg, s.script) && TasksInOrder(s) && Enabled(cfg, s, Advance)
    requires TaskOf(s, s.script[0]).Some?
    ensures TasksInOrder(Apply(cfg, s, Advance))
  {
    var u, a, added := Apply(cfg, s, Advance), s.script[0], |s.tasks|;
    var rest, t := SubmitShape(cfg, s);
    assert forall j :: 0 <= j < |u.script| ==> u.script[j] == s.script[j + 1];
    assert forall n: nat, c :: n < |s.tasks| ==>
      (IsDaily(u, n, c) <==> IsDaily(s, n, c)) && (IsFactor(u, n, c) <==> IsFactor(s, n, c));
    assert u.tasks[added] == t;
    forall n: nat, c | IsDaily(u, n, c) ensures forall j :: 0 <= j < |u.script| ==> !Mentions(u.script[j], c) {
      if n == added { assert a.SubmitDaily? && a.code == c; } else { assert IsDaily(s, n, c); }
    }
    forall m: nat, c | IsFactor(u, m, c)
      ensures forall j :: 0 <= j < |u.script| && Mentions(u.script[j], c) ==>
        j == 0 && u.script[j].SubmitDaily? && u.factorFuture == Some(m)
    {
      if m == added { assert a.SubmitFactor? && a.code == c; } else { assert IsFactor(s, m, c); }
    }
    forall n: nat, m: nat, c | IsDaily(u, n, c) && IsFactor(u, m, c) ensures u.tasks[n].factor == Some(m) {
      assert IsDaily(s, n, c) ==> !Mentions(a, c);
      if n == added {
        assert Mentions(a, c) && a.SubmitDaily?;
        assert m < added && IsFactor(s, m, c);
      } else if m < added {
        assert IsDaily(s, n, c) && IsFactor(s, m, c);
        assert u.tasks[n] == s.tasks[n];
      }
    }
  }

  lemma {:induction false} SubmitKeepsFactorsFirst(s: State, rest: State, t: Task)
    requires FactorsFirst(s) && |s.tasks| !in s.results
    requires rest.tasks == s.tasks && rest.results == s.results
    requires t.Factor? ==> forall n: nat :: !IsDaily(s, n, t.code)
    ensures FactorsFirst(Submit(rest, t))
  {
    var u := Submit(rest, t);
    assert u.tasks[|s.tasks|] == t && forall n :: 0 <= n < |s.tasks| ==> u.tasks[n] == s.tasks[n];
    forall n: nat, m: nat, c | IsDaily(u, n, c) && n in u.results && IsFactor(u, m, c) ensures m in u.results {
      assert IsDaily(s, n, c) && m != |s.tasks|;
      assert IsFactor(s, m, c);
    }
  }

  lemma {:induction false} AdvanceKeepsFactorsFirst(cfg: Config, s: State)
    requires PoolInv(cfg, s) && TasksInOrder(s) && FactorsFirst(s) && Enabled(cfg, s, Advance)
    ensures FactorsFirst(Apply(cfg, s, Advance))
  {
    if TaskOf(s, s.script[0]).Some? {
      var rest, t := SubmitShape(cfg, s);
      assert t.Factor? ==> Mentions(s.script[0], t.code);
      SubmitKeepsFactorsFirst(s, rest, t);
    } else {
      QuietKeepsFactorsFirst(cfg, s);
    }
  }

  lemma {:induction false} QuietKeepsFactorsFirst(cfg: Config, s: State)
    requires FactorsFirst(s) && Enabled(cfg, s, Advance) && TaskOf(s, s.script[0]).None?
    ensures FactorsFirst(Apply(cfg, s, Advance))
  {
    var u := Apply(cfg, s, Advance);
    assert u.tasks == s.tasks && u.results == s.results;
    assert forall n: nat, c :: (IsDaily(u, n, c) <==> IsDaily(s, n, c)) && (IsFactor(u, n, c) <==> IsFactor(s, n, c));
  }

  /** Steps of the main thread that add no factor or daily task. */
  lemma {:induction false} SameTasksInOrder(s: State, u: State)
    requires TasksInOrder(s) && FactorsFirst(s)
    requires u.script == s.script && u.factorFuture == s.factorFuture && u.results == s.results
    requires |u.tasks| >= |s.tasks| && forall n :: 0 <= n < |s.tasks| ==> u.tasks[n] == s.tasks[n]
    requires forall n :: |s.tasks| <= n < |u.tasks| ==> u.tasks[n].Refetch?
    ensures TasksInOrder(u) && FactorsFirst(u)
  {
    assert forall n: nat, c :: (IsDaily(u, n, c) <==> IsDaily(s, n, c)) && (IsFactor(u, n, c) <==> IsFactor(s, n, c));
  }

  lemma {:induction false} FinishKeepsTasksInOrder(cfg: Config, s: State, n: nat, e: Environment)
    requires TasksInOrder(s) && FactorsFirst(s) && Enabled(cfg, s, Finish(n, e))
    ensures TasksInOrder(Apply(cfg, s, Finish(n, e))) && FactorsFirst(Apply(cfg, s, Finish(n, e)))
  {
    var u := Apply(cfg, s, Finish(n, e));
    assert forall i: nat, c :: (IsDaily(u, i, c) <==> IsDaily(s, i, c)) && (IsFactor(u, i, c) <==> IsFactor(s, i, c));
    forall i: nat, m: nat, c | IsDaily(u, i, c) && i in u.results && IsFactor(u, m, c) ensures m in u.results {
      assert IsDaily(s, i, c) && IsFactor(s, m, c);
    }
  }

  lemma {:induction false} AdvanceGrows(cfg: Config, s: State, n: nat)
    requires Enabled(cfg, s, Advance) && n < |s.tasks|
    ensures var u := Apply(cfg, s, Advance);
      n < |u.tasks| && u.tasks[n] == s.tasks[n] && u.results == s.results
  {
    if TaskOf(s, s.script[0]).Some? { var rest, t := SubmitShape(cfg, s); }
  }

  /** Tasks and results are only ever added, and a result only by finishing. */
  lemma {:induction false} TasksGrow(cfg: Config, s: State, l: Label, n: nat)
    requires Enabled(cfg, s, l) && n < |s.tasks|
    ensures var u := Apply(cfg, s, l);
      && n < |u.tasks| && u.tasks[n] == s.tasks[n]
      && (n in u.results <==> n in s.results || (l.Finish? && l.n == n))
  {
    if l.Advance? { AdvanceGrows(cfg, s, n); }
  }

  lemma {:induction false} DoneStays(cfg: Config, s: State, l: Label, c: Code)
    requires Inv(cfg, s) && Enabled(cfg, s, l) && DailyDone(s, c)
    ensures DailyDone(Apply(cfg, s, l), c)
  {
    var n: nat :| IsDaily(s, n, c) && n in s.results;
    TasksGrow(cfg, s, l, n);
    assert IsDaily(Apply(cfg, s, l), n, c);
  }

  lemma {:induction false} StepKeepsOrigins(cfg: Config, s: State, l: Label)
    requires Inv(cfg, s) && Origins(s) && Enabled(cfg, s, l)
    ensures Origins(Apply(cfg, s, l))
  {
    var u := Apply(cfg, s, l);
    forall q | LiveRequest(u, q) ensures DailyDone(u, q.code) {
      if l.Finish? {
        LiveAfterFinish(cfg, s, l.n, l.environment, q);
        if q in Execute(cfg, s.worker, s.tasks[l.n], l.environment).0.requests {
          ExecuteLive(cfg, s.worker, s.tasks[l.n], l.environment, q.code);
          NewRequestBacked(cfg, s.worker, s.tasks[l.n], l.environment, q);
          assert IsDaily(u, l.n, q.code) && l.n in u.results;
        } else {
          DoneStays(cfg, s, l, q.code);
        }
      } else {
        LiveStays(cfg, s, l, q);
        DoneStays(cfg, s, l, q.code);
      }
    }
  }

  lemma {:induction false} AdvanceKeepsOrder(cfg: Config, s: State)
    requires Inv(cfg, s) && OrderedInv(cfg, s) && Enabled(cfg, s, Advance) && Origins(Apply(cfg, s, Advance))
    ensures OrderedInv(cfg, Apply(cfg, s, Advance))
  {
    ScriptTail(cfg, s.script);
    AdvanceKeepsFactorsFirst(cfg, s);
    if TaskOf(s, s.script[0]).Some? { SubmitKeepsTasksInOrder(cfg, s); } else { QuietKeepsTasksInOrder(cfg, s); }
  }

  lemma {:induction false} StepKeepsOrder(cfg: Config, s: State, l: Label)
    requires Inv(cfg, s) && OrderedInv(cfg, s) && Enabled(cfg, s, l)
    ensures OrderedInv(cfg, Apply(cfg, s, l))
  {
    StepKeepsOrigins(cfg, s, l);
    match l
    case Advance => AdvanceKeepsOrder(cfg, s);
    case Finish(n, e) => FinishKeepsTasksInOrder(cfg, s, n, e);
    case _ => SameTasksInOrder(s, Apply(cfg, s, l));
  }

  // ---------------------------------------------------------------- release

  lemma {:induction false} LiveCodeStays(cfg: Config, s: State, l: Label, c: Code)
    requires Inv(cfg, s) && Enabled(cfg, s, l) && !l.Finish? && LiveCode(s, c)
    ensures LiveCode(Apply(cfg, s, l), c)
  {
    var q :| LiveRequest(s, q) && q.code == c;
    LiveStays(cfg, s, l, q);
  }

  /** A daily action of the script stays there until it is submitted. */
  lemma {:induction false} AheadStays(cfg: Config, s: State, c: Code)
    requires PoolInv(cfg, s) && Enabled(cfg, s, Advance) && DailyAhead(s.script, c)
    ensures DailyToCome(Apply(cfg, s, Advance), c)
  {
    var u := Apply(cfg, s, Advance);
    var j :| 0 <= j < |s.script| && s.script[j].SubmitDaily? && s.script[j].code == c;
    if j == 0 {
      assert IsDaily(u, |s.tasks|, c) && |s.tasks| !in u.results;
    } else {
      assert u.script[j - 1] == s.script[j];
    }
  }

  /** A daily task to come stays to come until it finishes. */
  lemma {:induction false} DailyToComeStays(cfg: Config, s: State, l: Label, c: Code)
    requires Inv(cfg, s) && Enabled(cfg, s, l) && DailyToCome(s, c)
    requires l.Finish? ==> !IsDaily(s, l.n, c)
    ensures DailyToCome(Apply(cfg, s, l), c)
  {
    if DailyAhead(s.script, c) {
      if l.Advance? { AheadStays(cfg, s, c); } else { ScriptStays(cfg, s, l); }
    } else {
      var n: nat :| IsDaily(s, n, c) && n !in s.results;
      TasksGrow(cfg, s, l, n);
      assert IsDaily(Apply(cfg, s, l), n, c);
    }
  }

  lemma {:induction false} ScriptStays(cfg: Config, s: State, l: Label)
    requires Enabled(cfg, s, l) && !l.Advance?
    ensures Apply(cfg, s, l).script == s.script
  {
  }

  lemma {:induction false} FactorToCome(cfg: Config, s: State, m: nat, c: Code)
    requires ScriptInOrder(cfg, s.script) && Enabled(cfg, s, Advance) && cfg.retain
    requires IsFactor(Apply(cfg, s, Advance), m, c) && m == |s.tasks|
    ensures DailyToCome(Apply(cfg, s, Advance), c)
  {
    var u := Apply(cfg, s, Advance);
    assert s.script[0].SubmitFactor? && s.script[0].code == c;
    assert u.script[0] == s.script[1];
  }

  lemma {:induction false} MainReasonFor(cfg: Config, s: State, l: Label, c: Code)
    requires Inv(cfg, s) && OrderedInv(cfg, s) && KeptForReason(cfg, s) && Enabled(cfg, s, l) && !l.Finish?
    ensures var u := Apply(cfg, s, l);
      (c in u.worker.plans ==> LiveCode(u, c)) && (c in u.worker.factors ==> LiveCode(u, c) || DailyToCome(u, c))
  {
    var u := Apply(cfg, s, l);
    if LiveCode(s, c) { LiveCodeStays(cfg, s, l, c); }
    if DailyToCome(s, c) { DailyToComeStays(cfg, s, l, c); }
    if c in u.worker.factors && c !in s.worker.factors {
      assert l.Advance? && s.script[0].BeginCode? && s.script[0].existing.Some? && s.script[0].code == c;
      assert DailyAhead(s.script, c);
    }
  }

  lemma {:induction false} MainFactorReason(cfg: Config, s: State, l: Label, m: nat, c: Code)
    requires Inv(cfg, s) && OrderedInv(cfg, s) && KeptForReason(cfg, s) && Enabled(cfg, s, l) && !l.Finish?
    requires cfg.retain && IsFactor(Apply(cfg, s, l), m, c) && m !in Apply(cfg, s, l).results
    ensures DailyToCome(Apply(cfg, s, l), c)
  {
    if m < |s.tasks| {
      TasksGrow(cfg, s, l, m);
      assert IsFactor(s, m, c);
      DailyToComeStays(cfg, s, l, c);
    } else if l.Advance? {
      FactorToCome(cfg, s, m, c);
    }
  }

  lemma {:induction false} MainKeepsReasons(cfg: Config, s: State, l: Label)
    requires Inv(cfg, s) && OrderedInv(cfg, s) && KeptForReason(cfg, s) && Enabled(cfg, s, l) && !l.Finish?
    ensures KeptForReason(cfg, Apply(cfg, s, l))
  {
    var u := Apply(cfg, s, l);
    forall c { MainReasonFor(cfg, s, l, c); }
    forall m: nat, c | cfg.retain && IsFactor(u, m, c) && m !in u.results ensures DailyToCome(u, c) {
      MainFactorReason(cfg, s, l, m, c);
    }
  }

  lemma {:induction false} LiveCodeAfterFinish(cfg: Config, s: State, n: nat, e: Environment, c: Code)
    requires Inv(cfg, s) && Enabled(cfg, s, Finish(n, e)) && LiveCode(s, c)
    requires s.tasks[n].Refetch? ==> s.tasks[n].request.code != c
    ensures LiveCode(Apply(cfg, s, Finish(n, e)), c)
  {
    var q :| LiveRequest(s, q) && q.code == c;
    LiveAfterFinish(cfg, s, n, e, q);
  }

  /** What the worker keeps for a code after a task of that code. */
  lemma {:induction false} OwnCodeReason(cfg: Config, s: State, n: nat, e: Environment, c: Code)
    requires Inv(cfg, s) && OrderedInv(cfg, s) && KeptForReason(cfg, s) && Enabled(cfg, s, Finish(n, e))
    requires IsDaily(s, n, c) || (s.tasks[n].Refetch? && s.tasks[n].request.code == c)
    ensures var u := Apply(cfg, s, Finish(n, e));
      c in u.worker.plans || c in u.worker.factors ==> LiveCode(u, c)
  {
    var u, r := Apply(cfg, s, Finish(n, e)), Execute(cfg, s.worker, s.tasks[n], e).0;
    if s.tasks[n].Daily? && r.requests != [] {
      var q := r.requests[0];
      LiveAfterFinish(cfg, s, n, e, q);
      NewRequestBacked(cfg, s.worker, s.tasks[n], e, q);
      assert LiveRequest(u, q) && q.code == c;
    }
  }

  lemma {:induction false} FinishReasonFor(cfg: Config, s: State, n: nat, e: Environment, c: Code)
    requires Inv(cfg, s) && OrderedInv(cfg, s) && KeptForReason(cfg, s) && Enabled(cfg, s, Finish(n, e))
    ensures var u := Apply(cfg, s, Finish(n, e));
      (c in u.worker.plans ==> LiveCode(u, c)) && (c in u.worker.factors ==> LiveCode(u, c) || DailyToCome(u, c))
  {
    if IsDaily(s, n, c) || (s.tasks[n].Refetch? && s.tasks[n].request.code == c) {
      OwnCodeReason(cfg, s, n, e, c);
    } else {
      OtherCodeReason(cfg, s, n, e, c);
    }
  }

  lemma {:induction false} FinishFactorReason(cfg: Config, s: State, n: nat, e: Environment, m: nat, c: Code)
    requires Inv(cfg, s) && OrderedInv(cfg, s) && KeptForReason(cfg, s) && Enabled(cfg, s, Finish(n, e))
    requires cfg.retain && IsFactor(s, m, c) && m !in s.results && m != n
    ensures DailyToCome(Apply(cfg, s, Finish(n, e)), c)
  {
    assert DailyToCome(s, c);
    assert !IsDaily(s, n, c);
    DailyToComeStays(cfg, s, Finish(n, e), c);
  }

  lemma {:induction false} FinishKeepsReasons(cfg: Config, s: State, n: nat, e: Environment)
    requires Inv(cfg, s) && OrderedInv(cfg, s) && KeptForReason(cfg, s) && Enabled(cfg, s, Finish(n, e))
    ensures KeptForReason(cfg, Apply(cfg, s, Finish(n, e)))
  {
    var u := Apply(cfg, s, Finish(n, e));
    forall c { FinishReasonFor(cfg, s, n, e, c); }
    forall m: nat, c | cfg.retain && IsFactor(u, m, c) && m !in u.results ensures DailyToCome(u, c) {
      FinishFactorReason(cfg, s, n, e, m, c);
    }
  }

  lemma {:induction false} OtherCodeReason(cfg: Config, s: State, n: nat, e: Environment, c: Code)
    requires Inv(cfg, s) && OrderedInv(cfg, s) && KeptForReason(cfg, s) && Enabled(cfg, s, Finish(n, e))
    requires !IsDaily(s, n, c) && !(s.tasks[n].Refetch? && s.tasks[n].request.code == c)
    ensures var u := Apply(cfg, s, Finish(n, e));
      && (c in u.worker.plans ==> LiveCode(u, c))
      && (c in u.worker.factors ==> LiveCode(u, c) || DailyToCome(u, c))
  {
    OtherCodeKept(cfg, s, n, e, c);
    if LiveCode(s, c) { LiveCodeAfterFinish(cfg, s, n, e, c); }
    if DailyToCome(s, c) { DailyToComeStays(cfg, s, Finish(n, e), c); }
    assert IsFactor(s, n, c) ==> n !in s.results;
  }

  /** A task of another code keeps no plans for this one; only a factor task can keep factors. */
  lemma {:induction false} OtherCodeKept(cfg: Config, s: State, n: nat, e: Environment, c: Code)
    requires PoolInv(cfg, s) && Enabled(cfg, s, Finish(n, e))
    requires !IsDaily(s, n, c) && !(s.tasks[n].Refetch? && s.tasks[n].request.code == c)
    ensures var u := Apply(cfg, s, Finish(n, e));
      && (c in u.worker.plans ==> c in s.worker.plans)
      && (c in u.worker.factors && c !in s.worker.factors ==> IsFactor(s, n, c) && cfg.retain)
  {
  }

  /** Everything this module keeps track of is kept by every step. */
  lemma {:induction false} StepKeepsRecords(cfg: Config, s: State, l: Label)
    requires RecordInv(cfg, s) && Enabled(cfg, s, l)
    ensures RecordInv(cfg, Apply(cfg, s, l))
  {
    StepKeeps(cfg, s, l);
    StepKeepsOrder(cfg, s, l);
    StepKeepsBacked(cfg, s, l);
    StepKeepsLive(cfg, s, l);
    if l.Finish? { FinishKeepsReasons(cfg, s, l.n, l.environment); } else { MainKeepsReasons(cfg, s, l); }
  }

  // ---------------------------------------------------------------- whole runs

  /** Distinct codes, distinct plans, and factors are kept only for codes with daily plans. */
  ghost predicate JobsOk(cfg: Config, jobs: seq<Job>) {
    && (forall k :: 0 <= k < |jobs| ==> Distinct(jobs[k].plans))
    && (forall i, j :: 0 <= i < j < |jobs| ==> jobs[i].code != jobs[j].code)
    && (forall k :: 0 <= k < |jobs| && (cfg.retain || jobs[k].existing.Some?) ==> jobs[k].plans != [])
  }

  /** The records a run owes for one dataset of one code. */
  ghost function Owed(jobs: seq<Job>, code: Code, dataset: Dataset): nat {
    if jobs == [] then 0
    else Owed(jobs[1..], code, dataset)
         + (if jobs[0].code != code then 0
            else (if jobs[0].fetchFactor && dataset == FACTOR then 1 else 0) + Occurrences(jobs[0].plans, dataset))
  }

  lemma {:induction false} ScriptTokensConcat(a: seq<Action>, b: seq<Action>, k: Token)
    ensures ScriptTokens(a + b, k) == ScriptTokens(a, k) + ScriptTokens(b, k)
  {
    if a == [] {
      assert a + b == b;
    } else {
      assert (a + b)[1..] == a[1..] + b;
      ScriptTokensConcat(a[1..], b, k);
    }
  }

  lemma {:induction false} OneActionTokens(a: Action, k: Token)
    ensures ScriptTokens([a], k) == ActionTokens(a, k)
  {
    assert [a][1..] == [];
  }

  lemma {:induction false} JobTokens(j: Job, k: Token)
    ensures ScriptTokens(JobScript(j), k)
         == (if j.fetchFactor then FactorTokens(j.code, k) else 0)
            + (if j.plans != [] then PlanTokens(j.code, j.plans, k) else 0)
  {
    var a, b := [BeginCode(j.code, j.existing)], if j.fetchFactor then [SubmitFactor(j.code)] else [];
    var c := if j.plans != [] then [SubmitDaily(j.code, j.plans)] else [];
    ScriptTokensConcat(a + b + c, [Poll], k);
    ScriptTokensConcat(a + b, c, k);
    ScriptTokensConcat(a, b, k);
    OneActionTokens(a[0], k);
    OneActionTokens(Poll, k);
    if b != [] { OneActionTokens(b[0], k); }
    if c != [] { OneActionTokens(c[0], k); }
  }

  lemma {:induction false} EndTokens(k: Token)
    ensures ScriptTokens([Barrier, SubmitFlush, Barrier], k) == 0
  {
    assert [Barrier, SubmitFlush, Barrier] == [Barrier] + ([SubmitFlush] + [Barrier]);
    ScriptTokensConcat([Barrier], [SubmitFlush] + [Barrier], k);
    ScriptTokensConcat([SubmitFlush], [Barrier], k);
    OneActionTokens(Barrier, k);
    OneActionTokens(SubmitFlush, k);
  }

  lemma {:induction false} ScriptOwes(jobs: seq<Job>, code: Code, dataset: Dataset)
    ensures ScriptTokens(JobsScript(jobs), Cell(code, dataset)) == Owed(jobs, code, dataset)
  {
    if jobs == [] {
      EndTokens(Cell(code, dataset));
    } else {
      ScriptTokensConcat(JobScript(jobs[0]), JobsScript(jobs[1..]), Cell(code, dataset));
      JobTokens(jobs[0], Cell(code, dataset));
      ScriptOwes(jobs[1..], code, dataset);
    }
  }

  ghost predicate HasJob(jobs: seq<Job>, c: Code) { exists k :: 0 <= k < |jobs| && jobs[k].code == c }

  lemma {:induction false} ScriptLive(jobs: seq<Job>, c: Code)
    requires forall i, j :: 0 <= i < j < |jobs| ==> jobs[i].code != jobs[j].code
    ensures ScriptTokens(JobsScript(jobs), Live(c)) <= 1
    ensures !HasJob(jobs, c) ==> ScriptTokens(JobsScript(jobs), Live(c)) == 0
  {
    if jobs == [] {
      EndTokens(Live(c));
    } else {
      ScriptTokensConcat(JobScript(jobs[0]), JobsScript(jobs[1..]), Live(c));
      JobTokens(jobs[0], Live(c));
      assert forall k :: 0 <= k < |jobs[1..]| ==> jobs[1..][k] == jobs[k + 1];
      ScriptLive(jobs[1..], c);
      if jobs[0].code == c { assert !HasJob(jobs[1..], c); }
    }
  }

  lemma {:induction false} ScriptMentions(jobs: seq<Job>, c: Code)
    ensures (exists i :: 0 <= i < |JobsScript(jobs)| && Mentions(JobsScript(jobs)[i], c)) ==> HasJob(jobs, c)
  {
    if jobs != [] {
      var head, tail := JobScript(jobs[0]), JobsScript(jobs[1..]);
      ScriptMentions(jobs[1..], c);
      if exists i :: 0 <= i < |head + tail| && Mentions((head + tail)[i], c) {
        var i :| 0 <= i < |head + tail| && Mentions((head + tail)[i], c);
        if i < |head| {
          assert jobs[0].code == c;
        } else {
          assert Mentions(tail[i - |head|], c);
          var k :| 0 <= k < |jobs[1..]| && jobs[1..][k].code == c;
          assert jobs[k + 1].code == c;
        }
      }
    }
  }

  lemma {:induction false} JobScriptInOrder(cfg: Config, j: Job)
    requires (cfg.retain || j.existing.Some?) ==> j.plans != []
    ensures ScriptInOrder(cfg, JobScript(j))
    ensures forall i :: 0 <= i < |JobScript(j)| ==> !JobScript(j)[i].Barrier? && !JobScript(j)[i].SubmitFlush?
    ensures JobScript(j)[|JobScript(j)| - 1].Poll?
  {
    var script := JobScript(j);
    if j.plans != [] {
      assert script[if j.fetchFactor then 2 else 1] == SubmitDaily(j.code, j.plans);
      assert DailyAhead(script, j.code);
    }
  }

  lemma {:induction false} ConcatInOrder(cfg: Config, a: seq<Action>, b: seq<Action>)
    requires ScriptInOrder(cfg, a) && ScriptInOrder(cfg, b) && a != [] && !a[|a| - 1].SubmitFactor?
    requires forall i, j, c :: 0 <= i < |a| && 0 <= j < |b| && Mentions(a[i], c) ==> !Mentions(b[j], c)
    ensures ScriptInOrder(cfg, a + b)
  {
    var all := a + b;
    assert forall j :: |a| <= j < |all| ==> all[j] == b[j - |a|];
    forall i, j | 0 <= i < j < |all| && all[i].SubmitDaily? ensures !Mentions(all[j], all[i].code) {
      if i < |a| { assert Mentions(a[i], a[i].code); }
    }
    forall i, j | 0 <= i < j < |all| && all[i].SubmitFactor? && Mentions(all[j], all[i].code)
      ensures j == i + 1 && all[j].SubmitDaily?
    {
      if i < |a| { assert Mentions(a[i], a[i].code); }
    }
    forall i | 0 <= i < |all| && all[i].SubmitFactor? && cfg.retain
      ensures i + 1 < |all| && all[i + 1].SubmitDaily? && all[i + 1].code == all[i].code
    {
      if i >= |a| { assert all[i] == b[i - |a|] && i - |a| + 1 < |b|; }
    }
    forall i | 0 <= i < |all| && all[i].BeginCode? && all[i].existing.Some? ensures DailyAhead(all, all[i].code) {
      if i < |a| {
        var j :| 0 <= j < |a| && a[j].SubmitDaily? && a[j].code == a[i].code;
        assert all[j] == a[j];
      } else {
        assert all[i] == b[i - |a|];
        var j :| 0 <= j < |b| && b[j].SubmitDaily? && b[j].code == all[i].code;
        assert all[j + |a|] == b[j];
      }
    }
  }

  lemma {:induction false} JobsScriptInOrder(cfg: Config, jobs: seq<Job>)
    requires JobsOk(cfg, jobs)
    ensures ScriptInOrder(cfg, JobsScript(jobs))
  {
    if jobs != [] {
      var head, tail := JobScript(jobs[0]), JobsScript(jobs[1..]);
      assert forall k :: 0 <= k < |jobs[1..]| ==> jobs[1..][k] == jobs[k + 1];
      JobsScriptInOrder(cfg, jobs[1..]);
      JobScriptInOrder(cfg, jobs[0]);
      forall i, j, c | 0 <= i < |head| && 0 <= j < |tail| && Mentions(head[i], c) ensures !Mentions(tail[j], c) {
        ScriptMentions(jobs[1..], c);
        assert c == jobs[0].code;
        assert !HasJob(jobs[1..], c);
      }
      ConcatInOrder(cfg, head, tail);
    }
  }

  lemma {:induction false} InitiallyRecords(cfg: Config, jobs: seq<Job>)
    requires cfg.Valid() && JobsOk(cfg, jobs)
    ensures RecordInv(cfg, Initially(jobs))
    ensures forall code, dataset :: Total(Initially(jobs), Cell(code, dataset)) == Owed(jobs, code, dataset)
  {
    var s := Initially(jobs);
    InitiallyInv(cfg, jobs);
    JobsScriptInOrder(cfg, jobs);
    forall c ensures Total(s, Live(c)) <= 1 { ScriptLive(jobs, c); }
    forall code, dataset ensures Total(s, Cell(code, dataset)) == Owed(jobs, code, dataset) {
      ScriptOwes(jobs, code, dataset);
    }
  }

  /** Every run to its end keeps the invariant and what is owed, whatever the scheduler does. */
  lemma {:induction false} RunKeepsRecords(cfg: Config, s: State, choose: Scheduler, steps: nat, code: Code,
                                           dataset: Dataset)
    requires RecordInv(cfg, s) && Obliging(cfg, choose) && dataset != METADATA
    ensures var end := RunToEnd(cfg, s, choose, steps);
      RecordInv(cfg, end) && Total(end, Cell(code, dataset)) == Total(s, Cell(code, dataset))
    decreases Rank(s).0, Rank(s).1, Rank(s).2, Rank(s).3, Rank(s).4, Rank(s).5, Rank(s).6
  {
    if !Terminal(s) {
      var l := choose(s, steps);
      StepDescends(cfg, s, l);
      StepKeepsRecords(cfg, s, l);
      StepKeepsCells(cfg, s, l, code, dataset);
      RunKeepsRecords(cfg, Apply(cfg, s, l), choose, steps + 1, code, dataset);
    }
  }

  lemma {:induction false} FlattenedShares(s: State, n: nat, code: Code, dataset: Dataset)
    requires n <= |s.tasks| && s.pending == {} && forall i: nat :: i < n ==> i in s.results
    ensures RecordCount(Flattened(s.results, n), code, dataset) == Shares(s, n, Cell(code, dataset))
  {
    if n > 0 {
      FlattenedShares(s, n - 1, code, dataset);
      RecordCountConcat(Flattened(s.results, n - 1), s.results[n - 1].records, code, dataset);
    }
  }

  /** The state in which a scheduler's run over the jobs ends. */
  ghost function EndOf(cfg: Config, jobs: seq<Job>, choose: Scheduler): (end: State)
    requires cfg.Valid() && JobsOk(cfg, jobs) && Obliging(cfg, choose)
    ensures Inv(cfg, end) && Terminal(end)
  {
    InitiallyInv(cfg, jobs);
    RunToEnd(cfg, Initially(jobs), choose, 0)
  }

  /** For distinct codes and any interleaving: at the end each planned dataset of each code has exactly
      one run record, a fetched factor has one, and nothing else was recorded for a stock. */
  lemma {:induction false} OneRecordPerPlan(cfg: Config, jobs: seq<Job>, choose: Scheduler, code: Code,
                                            dataset: Dataset)
    requires cfg.Valid() && JobsOk(cfg, jobs) && Obliging(cfg, choose) && dataset != METADATA
    ensures RecordCount(EndOf(cfg, jobs, choose).runRecords, code, dataset) == Owed(jobs, code, dataset)
  {
    InitiallyRecords(cfg, jobs);
    RunKeepsRecords(cfg, Initially(jobs), choose, 0, code, dataset);
    var end := EndOf(cfg, jobs, choose);
    EndIsFlushed(cfg, end);
    FlattenedShares(end, |end.tasks|, code, dataset);
  }

  /** What is owed for a job: one record per plan, none for datasets and codes nobody planned. */
  lemma {:induction false} OwedForJob(jobs: seq<Job>, k: nat, dataset: Dataset)
    requires k < |jobs| && Distinct(jobs[k].plans) && dataset != FACTOR
    requires forall i, j :: 0 <= i < j < |jobs| ==> jobs[i].code != jobs[j].code
    ensures Owed(jobs, jobs[k].code, dataset) == if dataset in jobs[k].plans then 1 else 0
  {
    var tail := jobs[1..];
    assert forall i :: 0 <= i < |tail| ==> tail[i] == jobs[i + 1];
    if k == 0 {
      NothingOwed(tail, jobs[0].code, dataset);
      OccurrencesDistinct(jobs[0].plans, dataset);
    } else {
      OwedForJob(tail, k - 1, dataset);
      assert jobs[0].code != jobs[k].code;
    }
  }

  lemma {:induction false} NothingOwed(jobs: seq<Job>, code: Code, dataset: Dataset)
    requires forall k :: 0 <= k < |jobs| ==> jobs[k].code != code
    ensures Owed(jobs, code, dataset) == 0
  {
    if jobs != [] { NothingOwed(jobs[1..], code, dataset); }
  }

  /** At the end the worker keeps nothing for any code. */
  lemma {:induction false} StateReleased(cfg: Config, jobs: seq<Job>, choose: Scheduler)
    requires cfg.Valid() && JobsOk(cfg, jobs) && Obliging(cfg, choose)
    ensures EndOf(cfg, jobs, choose).worker == WorkerState(map[], map[])
  {
    InitiallyRecords(cfg, jobs);
    RunKeepsRecords(cfg, Initially(jobs), choose, 0, "", "");
    NothingKept(cfg, EndOf(cfg, jobs, choose));
  }

  lemma {:induction false} NothingKept(cfg: Config, s: State)
    requires RecordInv(cfg, s) && Terminal(s)
    ensures s.worker == WorkerState(map[], map[])
  {
    EndIsFlushed(cfg, s);
    forall c ensures c !in s.worker.plans && c !in s.worker.factors { NothingLive(s, c); }
    assert s.worker.plans == map[] && s.worker.factors == map[];
  }

  lemma {:induction false} NothingLive(s: State, c: Code)
    requires s.script == [] && s.pc.Idle? && s.pending == {} && forall n: nat :: n < |s.tasks| ==> n in s.results
    ensures !LiveCode(s, c) && !DailyToCome(s, c)
  {
  }

  lemma {:induction false} ReachableKeepsRecords(cfg: Config, jobs: seq<Job>, steps: seq<Label>, s: State)
    requires cfg.Valid() && JobsOk(cfg, jobs) && Reaches(cfg, jobs, steps, s)
    ensures RecordInv(cfg, s)
  {
    if steps == [] {
      InitiallyRecords(cfg, jobs);
    } else {
      var earlier, last := steps[..|steps| - 1], steps[|steps| - 1];
      var u :| Reaches(cfg, jobs, earlier, u) && LeadsTo(cfg, u, last, s);
      ReachableKeepsRecords(cfg, jobs, earlier, u);
      StepKeepsRecords(cfg, u, last);
    }
  }

  /** In every reachable state a running refetch finds the plans of its initial pass, and the factor
      frame that pass used. */
  lemma {:induction false} RefetchFindsPlans(cfg: Config, jobs: seq<Job>, steps: seq<Label>, s: State, n: nat)
    requires cfg.Valid() && JobsOk(cfg, jobs) && Reaches(cfg, jobs, steps, s)
    requires n in s.running && n < |s.tasks| && s.tasks[n].Refetch?
    ensures var q := s.tasks[n].request;
      && q.code in s.worker.plans && (forall d :: d in q.datasets ==> d in s.worker.plans[q.code])
      && FactorOf(s.worker, q.code).frame == q.frame
  {
    ReachableKeepsRecords(cfg, jobs, steps, s);
    RunningRefetchBacked(cfg, s, n);
  }
}
