/** When a run stops itself, and when it withholds its removals: exactly, by what
    it has logged. */
module Aborts {
  import opened Scans
  import opened Differ
  import opened Executor
  import opened Gating
  import opened LateRuns

  predicate FoundShareGone(r: Record) {
    r.action.kind == Copy && r.outcome == Failed(ShareGone)
  }

  /** A failure that ends the run: a copy that found the share gone, and under the
      abort policy any failed copy or trailing delete. */
  predicate EndsRun(c: Config, r: Record) {
    || FoundShareGone(r)
    || (c.onError == AbortRun && r.outcome.Failed? && !r.action.unblock && (r.action.kind == Copy || r.action.kind == Delete))
  }

  ghost predicate Stopped(c: Config, s: State) {
    && (s.aborting <==> exists r :: r in s.log && EndsRun(c, r))
    && (s.result.aborted <==> exists r :: r in s.log && EndsRun(c, r))
    && (s.result.shareUnreachable <==> exists r :: r in s.log && FoundShareGone(r))
  }

  lemma NextStopped(c: Config, s: State, o: Outcome, t: Tree)
    requires Shaped(c.stages) && HasNext(c, s) && Stopped(c, s)
    ensures Stopped(c, NextWith(c, s, o, t))
  {
    var a, u := NextAction(c, s), NextWith(c, s, o, t);
    assert a in c.stages.unblocks || a in c.stages.mkdirs || a in c.stages.rmdirs;
    assert !EndsRun(c, Record(a, o)) && !FoundShareGone(Record(a, o));
    assert forall r :: r in u.log <==> r in s.log || r == Record(a, o);
  }

  lemma FinishStopped(c: Config, s: State, k: nat, o: Outcome, t: Tree)
    requires Shaped(c.stages) && Busy(c, s, k) && Stopped(c, s)
    ensures Stopped(c, FinishWith(c, s, k, o, t))
  {
    var a, u := Work(c, s)[k], FinishWith(c, s, k, o, t);
    assert a in Work(c, s);
    assert forall r :: r in u.log <==> r in s.log || r == Record(a, o);
    assert Record(a, o) in u.log;
  }

  lemma StepStopped(c: Config, s: State, l: Label)
    requires Shaped(c.stages) && Enabled(c, s, l) && Stopped(c, s)
    ensures Stopped(c, Do(c, s, l))
  {
    match l
    case Next(r) =>
      var a := NextAction(c, s);
      NextStopped(c, s, OutcomeOf(c, s.tree, a, r), TreeAfter(c, s.tree, a, r));
    case Finish(k, r) =>
      var a := Work(c, s)[k];
      FinishStopped(c, s, k, OutcomeOf(c, s.tree, a, r), TreeAfter(c, s.tree, a, r));
    case _ => QuietStopped(c, s, l);
  }

  lemma QuietStopped(c: Config, s: State, l: Label)
    requires Enabled(c, s, l) && Stopped(c, s) && !l.Next? && !l.Finish?
    ensures Stopped(c, Do(c, s, l))
  {
    var u := Do(c, s, l);
    assert u.log == s.log && u.aborting == s.aborting && u.result.aborted == s.result.aborted;
    assert u.result.shareUnreachable == s.result.shareUnreachable;
  }

  /** At every moment of every run: it is aborting if and only if it has logged a
      failure that ends runs, and it has given up on the share if and only if a
      copy found it gone. */
  lemma {:induction false} AbortsExactly(c: Config, ws: seq<World>, events: seq<Event>, i: nat)
    requires Shaped(c.stages) && LateRun(c, ws, events) && i < |ws|
    ensures Stopped(c, ws[i].x)
    decreases i
  {
    if i > 0 {
      AbortsExactly(c, ws, events, i - 1);
      var w, e := ws[i - 1], events[i - 1];
      if e.Own? { StepStopped(c, w.x, e.l); }
    }
  }

  // ---- the gate ------------------------------------------------------------

  ghost predicate FailedBefore(s: State) {
    exists r :: r in s.log && r.outcome.Failed? && !Trailing(r.action)
  }

  predicate Plans(c: Config) { |c.stages.deletes| > 0 || |c.stages.rmdirs| > 0 }

  /** Every recorded failure is logged. */
  ghost predicate FailuresLogged(s: State) {
    s.result.failures != [] ==> exists r :: r in s.log && r.outcome.Failed?
  }

  lemma StepLogsFailures(c: Config, s: State, l: Label)
    requires Enabled(c, s, l) && FailuresLogged(s)
    ensures FailuresLogged(Do(c, s, l))
  {
    match l
    case Next(r) =>
      var a := NextAction(c, s);
      LogGrowsBy(s, Do(c, s, l), Record(a, OutcomeOf(c, s.tree, a, r)));
    case Finish(k, r) =>
      var a := Work(c, s)[k];
      LogGrowsBy(s, Do(c, s, l), Record(a, OutcomeOf(c, s.tree, a, r)));
    case _ => assert Do(c, s, l).log == s.log && Do(c, s, l).result.failures == s.result.failures;
  }

  lemma LogGrowsBy(s: State, u: State, r: Record)
    requires FailuresLogged(s) && u.log == s.log + [r]
    requires u.result.failures != s.result.failures ==> r.outcome.Failed?
    ensures FailuresLogged(u)
  {
    assert forall x :: x in s.log ==> x in u.log;
    assert r in u.log;
  }

  lemma {:induction false} RunLogsFailures(c: Config, ws: seq<World>, events: seq<Event>, i: nat)
    requires LateRun(c, ws, events) && i < |ws|
    ensures FailuresLogged(ws[i].x)
    decreases i
  {
    if i > 0 {
      RunLogsFailures(c, ws, events, i - 1);
      var w, e := ws[i - 1], events[i - 1];
      if e.Own? { StepLogsFailures(c, w.x, e.l); }
    }
  }

  /** Whether the removals were withheld is settled by the policy, by whether there
      were any, and by whether anything had failed. */
  ghost predicate Withholding(c: Config, s: State) {
    && (s.result.deletionsSkipped ==> c.deletePolicy == SkipDeletes && Plans(c) && FailedBefore(s))
    && (s.stage == Returned(false) && !s.result.deletionsSkipped ==>
          !(c.deletePolicy == SkipDeletes && Plans(c) && FailedBefore(s)))
  }

  lemma AdvanceSettles(c: Config, s: State)
    requires Enabled(c, s, Advance) && Sound(c, s) && FailuresLogged(s) && Withholding(c, s)
    ensures Withholding(c, Do(c, s, Advance))
  {
    var u := Do(c, s, Advance);
    assert u.log == s.log;
    if u.result.deletionsSkipped {
      assert s.stage.Making? || s.stage.Copying?;
      assert forall r :: r in s.log ==> !Trailing(r.action);
    }
  }

  lemma StepSettles(c: Config, s: State, l: Label)
    requires Enabled(c, s, l) && Sound(c, s) && FailuresLogged(s) && Withholding(c, s)
    ensures Withholding(c, Do(c, s, l))
  {
    if l.Advance? {
      AdvanceSettles(c, s);
    } else {
      var u := Do(c, s, l);
      assert u.result.deletionsSkipped == s.result.deletionsSkipped;
      assert !s.stage.Returned? || (u.log == s.log && u.stage == s.stage);
    }
  }

  lemma {:induction false} RunSettles(c: Config, ws: seq<World>, events: seq<Event>, i: nat)
    requires Shaped(c.stages) && LateRun(c, ws, events) && i < |ws|
    ensures Withholding(c, ws[i].x)
    decreases i
  {
    if i > 0 {
      RunSettles(c, ws, events, i - 1);
      LateRunIsSound(c, ws, events, i - 1);
      RunLogsFailures(c, ws, events, i - 1);
      var w, e := ws[i - 1], events[i - 1];
      if e.Own? { StepSettles(c, w.x, e.l); }
    }
  }

  /** A run that returns without being cancelled has withheld its removals if and
      only if the policy says so, there were any, and something before them
      had failed. */
  lemma RemovalsWithheldExactly(c: Config, ws: seq<World>, events: seq<Event>, i: nat)
    requires Shaped(c.stages) && LateRun(c, ws, events) && i < |ws| && ws[i].x.stage == Returned(false)
    ensures ws[i].x.result.deletionsSkipped <==>
      && c.deletePolicy == SkipDeletes && (c.stages.deletes != [] || c.stages.rmdirs != [])
      && exists r :: r in ws[i].x.log && r.outcome.Failed? && !Trailing(r.action)
  {
    RunSettles(c, ws, events, i);
  }

  /** Only a copy can find its source gone: the world says so, or it is not there. */
  lemma VanishedExactly(c: Config, t: Tree, a: Action, r: Answer)
    requires Possible(c, t, a, r)
    ensures OutcomeOf(c, t, a, r) == Vanished <==> a.kind == Copy && (r.Gone? || (r.Honest? && a.relPath !in c.source))
  {
  }
}
