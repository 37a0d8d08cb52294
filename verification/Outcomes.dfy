/** How what happened folds into a status, and what a green run guarantees. */
module Outcomes {
  import opened Differ
  import opened Executor
  import opened Gating

  /** `Unset` is the status of an outcome nobody filled in. */
  datatype DestStatus = DestSuccess | DestFailed | DestCancelled | DestSkipped | Unset

  datatype DestOutcome = DestOutcome(status: DestStatus, unavailable: bool, degraded: bool)

  datatype RunStatus = RunSuccess | RunPartial | RunFailed | RunCancelled

  predicate AllLocked(failures: seq<Failure>) {
    failures != [] && forall f :: f in failures ==> f.cause == Locked
  }

  function ClassifyDestination(r: Result, plan: Plan): DestOutcome {
    if r.shareUnreachable then DestOutcome(DestFailed, false, false)
    else if r.aborted then DestOutcome(DestFailed, false, false)
    else if plan.deletionsBlocked && r.failures != [] then DestOutcome(DestFailed, false, true)
    else if plan.deletionsBlocked then DestOutcome(DestSuccess, false, true)
    else if r.failures != [] && AllLocked(r.failures) then DestOutcome(DestSuccess, false, true)
    else if r.failures != [] then DestOutcome(DestFailed, false, false)
    else if r.deletionsSkipped then DestOutcome(DestSuccess, false, true)
    else DestOutcome(DestSuccess, false, false)
  }

  /** What one executed destination counts as. */
  function ExecutedOutcome(wasCancelled: bool, err: bool, r: Result, plan: Plan): DestOutcome {
    if wasCancelled || err then DestOutcome(DestCancelled, false, false) else ClassifyDestination(r, plan)
  }

  /** A destination is clean exactly when nothing failed, stopped or was withheld. */
  lemma CleanDestination(wasCancelled: bool, err: bool, r: Result, plan: Plan)
    ensures ExecutedOutcome(wasCancelled, err, r, plan) == DestOutcome(DestSuccess, false, false) <==>
      && !wasCancelled && !err && !r.shareUnreachable && !r.aborted && r.failures == []
      && !plan.deletionsBlocked && !r.deletionsSkipped
  {
  }

  predicate Succeeded(o: DestOutcome) { o.status == DestSuccess }
  predicate Broken(o: DestOutcome) { o.status == DestFailed || o.status == Unset }

  /** What the tally looks for in an outcome. */
  datatype Mark = Good | Bad | Skip | Stop | Degraded | Abort

  predicate Marked(o: DestOutcome, m: Mark, abortPolicy: bool) {
    match m
    case Good => Succeeded(o)
    case Bad => Broken(o)
    case Skip => o.status == DestSkipped
    case Stop => o.status == DestCancelled
    case Degraded => o.degraded
    case Abort => o.unavailable && abortPolicy
  }

  function Count(s: seq<DestOutcome>, m: Mark, abortPolicy: bool): nat {
    if s == [] then 0
    else Count(s[..|s| - 1], m, abortPolicy) + if Marked(s[|s| - 1], m, abortPolicy) then 1 else 0
  }

  lemma {:induction false} CountIsZero(s: seq<DestOutcome>, m: Mark, abortPolicy: bool)
    ensures Count(s, m, abortPolicy) == 0 <==> forall o :: o in s ==> !Marked(o, m, abortPolicy)
  {
    if s != [] {
      var rest, last := s[..|s| - 1], s[|s| - 1];
      CountIsZero(rest, m, abortPolicy);
      assert s == rest + [last];
    }
  }

  /** The run's status from its tallies. */
  function Verdict(s: seq<DestOutcome>, abortPolicy: bool): RunStatus {
    var good := Count(s, Good, abortPolicy);
    if Count(s, Abort, abortPolicy) > 0 then RunFailed
    else if Count(s, Stop, abortPolicy) > 0 && good == 0 && Count(s, Bad, abortPolicy) == 0 then RunCancelled
    else if good == 0 then RunFailed
    else if Count(s, Bad, abortPolicy) + Count(s, Skip, abortPolicy) + Count(s, Stop, abortPolicy)
            + Count(s, Degraded, abortPolicy) > 0 then RunPartial
    else RunSuccess
  }

  method ClassifyRun(outcomes: seq<DestOutcome>, abortPolicy: bool) returns (status: RunStatus)
    ensures status == Verdict(outcomes, abortPolicy)
  {
    var succeeded, failed, skipped, cancelled, degraded, aborted := 0, 0, 0, 0, 0, false;
    for i := 0 to |outcomes|
      invariant succeeded == Count(outcomes[..i], Good, abortPolicy)
      invariant failed == Count(outcomes[..i], Bad, abortPolicy)
      invariant skipped == Count(outcomes[..i], Skip, abortPolicy)
      invariant cancelled == Count(outcomes[..i], Stop, abortPolicy)
      invariant degraded == Count(outcomes[..i], Degraded, abortPolicy)
      invariant aborted <==> Count(outcomes[..i], Abort, abortPolicy) > 0
    {
      var o := outcomes[i];
      assert outcomes[..i + 1][..i] == outcomes[..i];
      if o.unavailable && abortPolicy { aborted := true; }
      if o.degraded { degraded := degraded + 1; }
      match o.status {
        case DestSuccess => succeeded := succeeded + 1;
        case DestSkipped => skipped := skipped + 1;
        case DestCancelled => cancelled := cancelled + 1;
        case _ => failed := failed + 1;
      }
    }
    assert outcomes[..|outcomes|] == outcomes;
    if aborted { return RunFailed; }
    if cancelled > 0 && succeeded == 0 && failed == 0 { return RunCancelled; }
    if succeeded == 0 { return RunFailed; }
    if failed > 0 || skipped > 0 || cancelled > 0 || degraded > 0 { return RunPartial; }
    return RunSuccess;
  }

  lemma TalliesMean(s: seq<DestOutcome>, abortPolicy: bool)
    ensures Count(s, Good, abortPolicy) == 0 <==> forall o :: o in s ==> o.status != DestSuccess
    ensures Count(s, Bad, abortPolicy) == 0 <==> forall o :: o in s ==> o.status != DestFailed && o.status != Unset
    ensures Count(s, Skip, abortPolicy) == 0 <==> forall o :: o in s ==> o.status != DestSkipped
    ensures Count(s, Stop, abortPolicy) == 0 <==> forall o :: o in s ==> o.status != DestCancelled
    ensures Count(s, Degraded, abortPolicy) == 0 <==> forall o :: o in s ==> !o.degraded
    ensures Count(s, Abort, abortPolicy) == 0 <==> forall o :: o in s ==> !(o.unavailable && abortPolicy)
  {
    CountIsZero(s, Good, abortPolicy);
    CountIsZero(s, Bad, abortPolicy);
    CountIsZero(s, Skip, abortPolicy);
    CountIsZero(s, Stop, abortPolicy);
    CountIsZero(s, Degraded, abortPolicy);
    CountIsZero(s, Abort, abortPolicy);
  }

  /** An unavailable destination, under the policy that makes that the run's end. */
  predicate MustAbort(s: seq<DestOutcome>, abortPolicy: bool) {
    exists o :: o in s && o.unavailable && abortPolicy
  }

  predicate Some(s: seq<DestOutcome>, status: DestStatus) {
    exists o :: o in s && o.status == status
  }

  /** Cancelled: some destination was, and none succeeded or failed. */
  lemma CancelledExactly(s: seq<DestOutcome>, abortPolicy: bool)
    ensures Verdict(s, abortPolicy) == RunCancelled <==>
      && !MustAbort(s, abortPolicy) && Some(s, DestCancelled)
      && !Some(s, DestSuccess) && !Some(s, DestFailed) && !Some(s, Unset)
  {
    TalliesMean(s, abortPolicy);
  }

  /** Failed: nothing succeeded and the run was not cancelled, or it had to abort. */
  lemma FailedExactly(s: seq<DestOutcome>, abortPolicy: bool)
    ensures Verdict(s, abortPolicy) == RunFailed <==>
      || MustAbort(s, abortPolicy)
      || (!Some(s, DestSuccess) && (!Some(s, DestCancelled) || Some(s, DestFailed) || Some(s, Unset)))
  {
    TalliesMean(s, abortPolicy);
  }

  /** Partial: something succeeded, and something else did not, or not cleanly. */
  lemma PartialExactly(s: seq<DestOutcome>, abortPolicy: bool)
    ensures Verdict(s, abortPolicy) == RunPartial <==>
      && !MustAbort(s, abortPolicy) && Some(s, DestSuccess)
      && exists o :: o in s && (o.status != DestSuccess || o.degraded)
  {
    TalliesMean(s, abortPolicy);
  }

  predicate OnlyLocked(r: Result) {
    forall f :: f in r.failures ==> f.cause == Locked
  }

  /** What one executed destination counts as, case by case. */
  lemma DestinationExactly(wasCancelled: bool, err: bool, r: Result, plan: Plan)
    ensures var o, whole := ExecutedOutcome(wasCancelled, err, r, plan), !wasCancelled && !err;
      var stopped := r.shareUnreachable || r.aborted;
      && !o.unavailable
      && (o.status == DestCancelled <==> wasCancelled || err)
      && (o.status == DestFailed <==> whole && (stopped || (r.failures != [] && (plan.deletionsBlocked || !OnlyLocked(r)))))
      && (o.status == DestSuccess <==> o.status != DestCancelled && o.status != DestFailed)
      && (o.degraded <==> whole && !stopped && (plan.deletionsBlocked || (if r.failures != [] then OnlyLocked(r) else r.deletionsSkipped)))
  {
  }

  /** Green means there are outcomes, and every one is a clean success. */
  lemma GreenExactly(s: seq<DestOutcome>, abortPolicy: bool)
    ensures Verdict(s, abortPolicy) == RunSuccess <==>
      s != [] && forall o :: o in s ==> Succeeded(o) && !o.degraded && !(o.unavailable && abortPolicy)
  {
    CountIsZero(s, Good, abortPolicy);
    CountIsZero(s, Bad, abortPolicy);
    CountIsZero(s, Skip, abortPolicy);
    CountIsZero(s, Stop, abortPolicy);
    CountIsZero(s, Degraded, abortPolicy);
    CountIsZero(s, Abort, abortPolicy);
    if s != [] { assert s[0] in s; }
    assert forall o :: o in s ==>
        (Succeeded(o) <==> !Marked(o, Bad, abortPolicy) && !Marked(o, Skip, abortPolicy) && !Marked(o, Stop, abortPolicy));
    assert forall o :: o in s ==> (Succeeded(o) <==> Marked(o, Good, abortPolicy));
  }

  // ---- a green run --------------------------------------------------------

  /** One destination of a run: planning ended it without success, or its plan
      was executed. */
  datatype Dest =
    | NotExecuted(ended: DestOutcome)
    | Executed(c: Config, plan: Plan, states: seq<State>, labels: seq<Label>, wasCancelled: bool)

  ghost predicate DestOk(d: Dest) {
    match d
    case NotExecuted(o) => o.status != DestSuccess
    case Executed(c, plan, states, labels, _) =>
      && Shaped(c.stages) && Run(c, states, labels) && Last(d).stage.Returned?
      && plan.actions == c.stages.All() && plan.copies == |c.stages.copies|
      && (plan.deletionsBlocked <==> plan.withheldDeletes + plan.withheldRmDirs > 0)
  }

  function Last(d: Dest): State
    requires d.Executed? && |d.states| == |d.labels| + 1
  {
    d.states[|d.labels|]
  }

  ghost function OutcomeOfDest(d: Dest): DestOutcome
    requires DestOk(d)
  {
    match d
    case NotExecuted(o) => o
    case Executed(_, plan, _, _, cancelled) =>
      ExecutedOutcome(cancelled, Last(d).stage.err, Last(d).result, plan)
  }

  /** The destination really is complete. */
  ghost predicate Complete(d: Dest) {
    && d.Executed? && |d.states| == |d.labels| + 1
    && d.plan.withheldDeletes == 0 && d.plan.withheldRmDirs == 0
    && Last(d).result.failures == [] && !Last(d).result.aborted && !Last(d).result.deletionsSkipped
    && (forall a :: a in d.c.stages.unblocks + d.c.stages.mkdirs + d.c.stages.deletes ==>
          Record(a, Done) in Last(d).log)
    && (forall a :: a in d.c.stages.copies ==>
          Record(a, Done) in Last(d).log || Record(a, Vanished) in Last(d).log)
    && (forall a :: a in d.c.stages.rmdirs ==> Logged(Last(d).log, a))
    && Last(d).result.filesCopied + Last(d).result.skipped == d.plan.copies
  }

  /** An action that was logged, and did not fail, was done or had vanished. */
  lemma LoggedIsDone(log: seq<Record>, a: Action)
    requires Logged(log, a)
    requires forall r :: r in log && r.action == a ==> !r.outcome.Failed?
    requires forall r :: r in log && r.outcome == Vanished ==> r.action.kind == Copy
    ensures Record(a, Done) in log || (a.kind == Copy && Record(a, Vanished) in log)
  {
    var o :| Record(a, o) in log;
  }

  lemma CleanIsComplete(d: Dest)
    requires DestOk(d) && OutcomeOfDest(d) == DestOutcome(DestSuccess, false, false)
    ensures Complete(d)
  {
    var c, n := d.c, |d.labels|;
    var x := d.states[n];
    CleanDestination(d.wasCancelled, x.stage.err, x.result, d.plan);
    RunIsSound(c, d.states, d.labels, n);
    OnlyCopiesVanished(c, d.states, d.labels, n);
    CopiesAccountedFor(c, d.states, d.labels, n);
    forall a | a in c.stages.unblocks + c.stages.mkdirs + c.stages.copies + c.stages.deletes
      ensures Record(a, Done) in x.log || (a.kind == Copy && Record(a, Vanished) in x.log)
    {
      assert !(Trailing(a) && a.kind == RmDir);
      LoggedIsDone(x.log, a);
    }
  }

  /** A green run is really complete, at every destination. */
  lemma GreenIsComplete(dests: seq<Dest>, outcomes: seq<DestOutcome>, abortPolicy: bool)
    requires forall d :: d in dests ==> DestOk(d)
    requires |outcomes| == |dests| && forall i :: 0 <= i < |dests| ==> outcomes[i] == OutcomeOfDest(dests[i])
    requires Verdict(outcomes, abortPolicy) == RunSuccess
    ensures forall d :: d in dests ==> Complete(d)
  {
    GreenExactly(outcomes, abortPolicy);
    forall d | d in dests ensures Complete(d) {
      var i :| 0 <= i < |dests| && dests[i] == d;
      assert outcomes[i] in outcomes;
      CleanIsComplete(d);
    }
  }
}
