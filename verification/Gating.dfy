/** What every run of the executor keeps: what has been logged when, that no
    removal follows a failed create, and that every copy is accounted for. */
module Gating {
  import opened Scans
  import opened Differ
  import opened Effects
  import opened Executor

  /** Every stage holds actions of its kind. */
  ghost predicate Shaped(st: Stages) {
    && (forall a :: a in st.unblocks ==> a.unblock && (a.kind == Delete || a.kind == RmDir))
    && (forall a :: a in st.mkdirs ==> !a.unblock && a.kind == MkDir)
    && (forall a :: a in st.copies ==> !a.unblock && a.kind == Copy)
    && (forall a :: a in st.deletes ==> !a.unblock && a.kind == Delete)
    && (forall a :: a in st.rmdirs ==> !a.unblock && a.kind == RmDir)
  }

  lemma StagesAreShaped(src: ScanResult, dst: ScanResult, o: Options, st: Stages)
    requires IsStages(src, dst, o, st)
    ensures Shaped(st)
  {
    assert forall a :: IsUnblock(src, dst, o, a) ==> a.unblock && (a.kind == Delete || a.kind == RmDir);
    assert forall a :: IsMkdir(src, dst, o, a) ==> !a.unblock && a.kind == MkDir;
    assert forall a :: IsCopy(src, dst, o, a) ==> !a.unblock && a.kind == Copy;
    assert forall a :: IsDelete(src, dst, o, a) ==> !a.unblock && a.kind == Delete;
    assert forall a :: IsRmdir(src, dst, o, a) ==> !a.unblock && a.kind == RmDir;
  }

  /** Part of a trailing pass, the irreversible half of a mirror. */
  predicate Trailing(a: Action) {
    !a.unblock && (a.kind == Delete || a.kind == RmDir)
  }

  ghost predicate Logged(log: seq<Record>, a: Action) {
    exists o :: Record(a, o) in log
  }

  ghost predicate AllLogged(log: seq<Record>, actions: seq<Action>) {
    forall a :: a in actions ==> Logged(log, a)
  }

  lemma LogGrows(log: seq<Record>, r: Record, actions: seq<Action>)
    ensures forall a :: Logged(log, a) ==> Logged(log + [r], a)
    ensures Logged(log + [r], r.action)
    ensures AllLogged(log, actions) ==> AllLogged(log + [r], actions)
  {
    assert r in log + [r] && r == Record(r.action, r.outcome);
    forall a | Logged(log, a) ensures Logged(log + [r], a) {
      var o :| Record(a, o) in log;
      assert Record(a, o) in log + [r];
    }
  }

  lemma LogNext(log: seq<Record>, r: Record, actions: seq<Action>, i: nat)
    requires i < |actions| && actions[i] == r.action && AllLogged(log, actions[..i])
    ensures AllLogged(log + [r], actions[..i + 1])
  {
    LogGrows(log, r, actions[..i]);
    assert actions[..i + 1] == actions[..i] + [actions[i]];
  }

  ghost predicate PoolOk(p: Pool, work: seq<Action>, log: seq<Record>, halted: bool) {
    && |p.status| == |work| && p.fed <= |work|
    && (forall k :: 0 <= k < |work| ==> (p.status[k] == Waiting <==> k >= p.fed))
    && (forall k :: 0 <= k < |work| && p.status[k] == Finished ==> Logged(log, work[k]))
    && (forall k :: 0 <= k < |work| && p.status[k] == Dropped ==> halted)
    && (!p.open ==> p.fed == |work| || halted)
  }

  /** A pool that has wound down without being halted has finished everything. */
  lemma PoolDone(p: Pool, work: seq<Action>, log: seq<Record>, halted: bool)
    requires PoolOk(p, work, log, halted) && Settled(p) && !halted
    ensures AllLogged(log, work)
  {
    forall a | a in work ensures Logged(log, a) {
      var k :| 0 <= k < |work| && work[k] == a;
      assert p.status[k] == Finished;
    }
  }

  /** Everything planned before the removals has been tried. */
  ghost predicate EarlyLogged(c: Config, s: State) {
    AllLogged(s.log, c.stages.unblocks) && AllLogged(s.log, c.stages.mkdirs) && AllLogged(s.log, c.stages.copies)
  }

  /** Which actions have been logged at which point of the run. */
  ghost predicate InOrder(c: Config, s: State) {
    match s.stage
    case Clearing(i) => i <= |c.stages.unblocks| && AllLogged(s.log, c.stages.unblocks[..i])
    case Making(i) =>
      && AllLogged(s.log, c.stages.unblocks)
      && i <= |c.stages.mkdirs| && AllLogged(s.log, c.stages.mkdirs[..i])
    case Copying(p, _) =>
      && AllLogged(s.log, c.stages.unblocks) && AllLogged(s.log, c.stages.mkdirs)
      && PoolOk(p, c.stages.copies, s.log, s.Halted())
    case Deleting(p, _) =>
      && AllLogged(s.log, c.stages.unblocks) && AllLogged(s.log, c.stages.mkdirs)
      && (s.Halted() || AllLogged(s.log, c.stages.copies))
      && PoolOk(p, c.stages.deletes, s.log, s.Halted())
    case Removing(i) =>
      && AllLogged(s.log, c.stages.unblocks) && AllLogged(s.log, c.stages.mkdirs)
      && (s.Halted() || (AllLogged(s.log, c.stages.copies) && AllLogged(s.log, c.stages.deletes)))
      && i <= |c.stages.rmdirs| && AllLogged(s.log, c.stages.rmdirs[..i])
    case Returned(err) => !err && !s.result.aborted ==>
      && EarlyLogged(c, s)
      && (!s.result.deletionsSkipped ==>
            AllLogged(s.log, c.stages.deletes) && AllLogged(s.log, c.stages.rmdirs))
  }

  /** How far a run is, and which actions it may have logged by then. */
  ghost predicate Timely(c: Config, s: State) {
    && (forall r :: r in s.log ==> r.action in c.stages.All())
    && (s.stage.Clearing? ==> forall r :: r in s.log ==> r.action.unblock)
    && (s.stage.Making? ==> forall r :: r in s.log ==> r.action.unblock || r.action.kind == MkDir)
    && (s.stage.Copying? ==> forall r :: r in s.log ==> !Trailing(r.action))
    && (s.aborting <==> s.result.aborted)
    && (s.aborting ==> !s.stage.Clearing? && !s.stage.Making?)
    && (s.result.deletionsSkipped ==> s.stage.Returned? && s.result.failures != [])
  }

  /** Nothing irreversible has been tried before its time. */
  ghost predicate Gated(c: Config, s: State) {
    && ((exists r :: r in s.log && Trailing(r.action)) ==> EarlyLogged(c, s))
    && (s.stage.Deleting? && (exists k :: 0 <= k < |s.stage.pool.status| && s.stage.pool.status[k] == Running) ==>
          EarlyLogged(c, s))
    && (c.deletePolicy == SkipDeletes && (HoldsRemovals(c, s) || exists r :: r in s.log && Trailing(r.action)) ==>
          forall r :: r in s.log && !Trailing(r.action) ==> !r.outcome.Failed?)
    && (s.result.failures == [] ==>
          forall r :: r in s.log && r.outcome.Failed? ==> Trailing(r.action) && r.action.kind == RmDir)
  }

  /** The run is in a trailing pass with something to remove. */
  predicate HoldsRemovals(c: Config, s: State) {
    (s.stage.Deleting? || s.stage.Removing?) && (|c.stages.deletes| > 0 || |c.stages.rmdirs| > 0)
  }

  lemma NextInOrder(c: Config, s: State, o: Outcome, t: Tree)
    requires HasNext(c, s) && InOrder(c, s)
    ensures InOrder(c, NextWith(c, s, o, t))
  {
    var rec := Record(NextAction(c, s), o);
    LogGrows(s.log, rec, c.stages.unblocks);
    LogGrows(s.log, rec, c.stages.mkdirs);
    LogGrows(s.log, rec, c.stages.copies);
    LogGrows(s.log, rec, c.stages.deletes);
    match s.stage {
      case Clearing(i) => LogNext(s.log, rec, c.stages.unblocks, i);
      case Making(i) => LogNext(s.log, rec, c.stages.mkdirs, i);
      case Removing(i) => LogNext(s.log, rec, c.stages.rmdirs, i);
    }
  }

  /** A worker can finish its action. */
  predicate Busy(c: Config, s: State, k: nat) {
    InPool(s) && k < |s.stage.pool.status| && k < |Work(c, s)| && s.stage.pool.status[k] == Running
  }

  lemma FinishInOrder(c: Config, s: State, k: nat, o: Outcome, t: Tree)
    requires Busy(c, s, k) && InOrder(c, s)
    ensures InOrder(c, FinishWith(c, s, k, o, t))
  {
    var rec := Record(Work(c, s)[k], o);
    LogGrows(s.log, rec, c.stages.unblocks);
    LogGrows(s.log, rec, c.stages.mkdirs);
    LogGrows(s.log, rec, c.stages.copies);
    var u := FinishWith(c, s, k, o, t);
    assert PoolOk(u.stage.pool, Work(c, s), u.log, u.Halted());
  }

  lemma StepInOrder(c: Config, s: State, l: Label)
    requires Shaped(c.stages) && Enabled(c, s, l) && InOrder(c, s) && Timely(c, s)
    ensures InOrder(c, Do(c, s, l))
  {
    match l
    case Next(r) =>
      var a := NextAction(c, s);
      NextInOrder(c, s, OutcomeOf(c, s.tree, a, r), TreeAfter(c, s.tree, a, r));
    case Finish(k, r) =>
      var a := Work(c, s)[k];
      FinishInOrder(c, s, k, OutcomeOf(c, s.tree, a, r), TreeAfter(c, s.tree, a, r));
    case Advance => AdvanceInOrder(c, s);
    case Cancel =>
    case _ => PoolInOrder(c, s, l);
  }

  lemma PoolInOrder(c: Config, s: State, l: Label)
    requires Enabled(c, s, l) && InOrder(c, s)
    requires l.Feed? || l.Close? || l.Begin? || l.Leave? || l.GiveUp?
    ensures InOrder(c, Do(c, s, l))
  {
    var u := Do(c, s, l);
    assert u.log == s.log && u.Halted() == s.Halted() && InPool(u) && u.stage.Copying? == s.stage.Copying?;
    assert PoolOk(u.stage.pool, Work(c, s), u.log, u.Halted());
  }

  lemma AdvanceInOrder(c: Config, s: State)
    requires Shaped(c.stages) && Enabled(c, s, Advance) && InOrder(c, s) && Timely(c, s)
    ensures InOrder(c, Do(c, s, Advance))
  {
    match s.stage
    case Clearing(i) =>
      assert c.stages.unblocks[..|c.stages.unblocks|] == c.stages.unblocks;
    case Making(i) =>
      assert c.stages.mkdirs[..|c.stages.mkdirs|] == c.stages.mkdirs;
    case Copying(p, _) =>
      if !s.Halted() { PoolDone(p, c.stages.copies, s.log, false); }
    case Deleting(p, _) =>
      if !s.Halted() { PoolDone(p, c.stages.deletes, s.log, false); }
    case Removing(i) =>
      assert c.stages.rmdirs[..|c.stages.rmdirs|] == c.stages.rmdirs;
    case Returned(_) =>
  }

  lemma NextTimely(c: Config, s: State, o: Outcome, t: Tree)
    requires Shaped(c.stages) && HasNext(c, s) && Timely(c, s)
    ensures Timely(c, NextWith(c, s, o, t))
  {
    var a := NextAction(c, s);
    assert a in c.stages.All();
    assert s.stage.Clearing? ==> a in c.stages.unblocks;
    assert s.stage.Making? ==> a in c.stages.mkdirs;
  }

  lemma FinishTimely(c: Config, s: State, k: nat, o: Outcome, t: Tree)
    requires Shaped(c.stages) && Busy(c, s, k) && Timely(c, s)
    ensures Timely(c, FinishWith(c, s, k, o, t))
  {
    var a := Work(c, s)[k];
    assert a in c.stages.All();
    assert s.stage.Copying? ==> a in c.stages.copies;
  }

  lemma StepTimely(c: Config, s: State, l: Label)
    requires Shaped(c.stages) && Enabled(c, s, l) && Timely(c, s)
    ensures Timely(c, Do(c, s, l))
  {
    match l
    case Next(r) =>
      var a := NextAction(c, s);
      NextTimely(c, s, OutcomeOf(c, s.tree, a, r), TreeAfter(c, s.tree, a, r));
    case Finish(k, r) =>
      var a := Work(c, s)[k];
      FinishTimely(c, s, k, OutcomeOf(c, s.tree, a, r), TreeAfter(c, s.tree, a, r));
    case Advance => AdvanceTimely(c, s);
    case _ =>
  }

  lemma AdvanceTimely(c: Config, s: State)
    requires Enabled(c, s, Advance) && Timely(c, s)
    ensures Timely(c, Do(c, s, Advance))
  {
    var u := Do(c, s, Advance);
    assert u.log == s.log && u.aborting == s.aborting && u.result.aborted == s.result.aborted;
    assert !u.stage.Clearing?;
  }

  lemma EarlyStays(c: Config, s: State, u: State)
    requires u.log == s.log || exists r :: u.log == s.log + [r]
    ensures EarlyLogged(c, s) ==> EarlyLogged(c, u)
  {
    if u.log != s.log {
      var r :| u.log == s.log + [r];
      LogGrows(s.log, r, c.stages.unblocks);
      LogGrows(s.log, r, c.stages.mkdirs);
      LogGrows(s.log, r, c.stages.copies);
    }
  }

  lemma NextGated(c: Config, s: State, o: Outcome, t: Tree)
    requires Shaped(c.stages) && HasNext(c, s) && !s.Halted() && InOrder(c, s) && Timely(c, s) && Gated(c, s)
    ensures Gated(c, NextWith(c, s, o, t))
  {
    var u := NextWith(c, s, o, t);
    var a := NextAction(c, s);
    EarlyStays(c, s, u);
    assert s.stage.Removing? <==> Trailing(a) by {
      assert a in c.stages.unblocks || a in c.stages.mkdirs || a in c.stages.rmdirs;
    }
    if s.stage.Removing? {
      assert EarlyLogged(c, s);
    } else {
      assert forall x :: x in s.log ==> !Trailing(x.action);
    }
  }

  lemma FinishGated(c: Config, s: State, k: nat, o: Outcome, t: Tree)
    requires Shaped(c.stages) && Busy(c, s, k) && InOrder(c, s) && Timely(c, s) && Gated(c, s)
    ensures Gated(c, FinishWith(c, s, k, o, t))
  {
    var u := FinishWith(c, s, k, o, t);
    var a := Work(c, s)[k];
    assert a in Work(c, s);
    EarlyStays(c, s, u);
    if s.stage.Copying? {
      assert !Trailing(a) && forall x :: x in s.log ==> !Trailing(x.action);
    } else {
      assert Trailing(a) && EarlyLogged(c, s);
      assert HoldsRemovals(c, s);
    }
  }

  lemma PoolGated(c: Config, s: State, l: Label)
    requires Shaped(c.stages) && Enabled(c, s, l) && InOrder(c, s) && Timely(c, s) && Gated(c, s)
    requires l.Feed? || l.Close? || l.Begin? || l.Leave? || l.GiveUp?
    ensures Gated(c, Do(c, s, l))
  {
    var u := Do(c, s, l);
    assert u.log == s.log && u.result == s.result && HoldsRemovals(c, u) == HoldsRemovals(c, s);
    EarlyStays(c, s, u);
    if s.stage.Deleting? && !l.Begin? {
      assert forall k :: 0 <= k < |s.stage.pool.status| && u.stage.pool.status[k] == Running ==>
          s.stage.pool.status[k] == Running;
    }
  }

  lemma StepGated(c: Config, s: State, l: Label)
    requires Shaped(c.stages) && Enabled(c, s, l) && InOrder(c, s) && Timely(c, s) && Gated(c, s)
    ensures Gated(c, Do(c, s, l))
  {
    match l
    case Next(r) =>
      var a := NextAction(c, s);
      NextGated(c, s, OutcomeOf(c, s.tree, a, r), TreeAfter(c, s.tree, a, r));
    case Finish(k, r) =>
      var a := Work(c, s)[k];
      FinishGated(c, s, k, OutcomeOf(c, s.tree, a, r), TreeAfter(c, s.tree, a, r));
    case Cancel => EarlyStays(c, s, Do(c, s, l));
    case Advance => AdvanceGated(c, s);
    case _ => PoolGated(c, s, l);
  }

  /** Moving to another stage logs nothing. */
  lemma StageGated(c: Config, s: State, u: State)
    requires Gated(c, s) && u.log == s.log && u.result.failures == s.result.failures
    requires u.stage.Deleting? ==> forall k :: 0 <= k < |u.stage.pool.status| ==> u.stage.pool.status[k] == Waiting
    requires c.deletePolicy == SkipDeletes && HoldsRemovals(c, u) ==>
      HoldsRemovals(c, s) || (s.result.failures == [] && forall r :: r in s.log ==> !Trailing(r.action))
    ensures Gated(c, u)
  {
    EarlyStays(c, s, u);
  }

  lemma AdvanceGated(c: Config, s: State)
    requires Shaped(c.stages) && Enabled(c, s, Advance) && Timely(c, s) && Gated(c, s)
    ensures Gated(c, Do(c, s, Advance))
  {
    StageGated(c, s, Do(c, s, Advance));
  }

  ghost predicate Sound(c: Config, s: State) {
    InOrder(c, s) && Timely(c, s) && Gated(c, s)
  }

  /** Every state of every run. */
  lemma {:induction false} RunIsSound(c: Config, states: seq<State>, labels: seq<Label>, i: nat)
    requires Shaped(c.stages) && Run(c, states, labels) && i < |states|
    ensures Sound(c, states[i])
    decreases i
  {
    if i > 0 {
      RunIsSound(c, states, labels, i - 1);
      StepInOrder(c, states[i - 1], labels[i - 1]);
      StepTimely(c, states[i - 1], labels[i - 1]);
      StepGated(c, states[i - 1], labels[i - 1]);
    }
  }

  /** No removal follows a failed create: if any trailing removal was tried,
      every clearing, mkdir and copy had been tried before, and under the
      default policy none of them had failed. */
  lemma RemovalsAreGated(c: Config, states: seq<State>, labels: seq<Label>, i: nat, r: Record)
    requires Shaped(c.stages) && Run(c, states, labels) && i < |states|
    requires r in states[i].log && Trailing(r.action)
    ensures forall a :: a in c.stages.unblocks + c.stages.mkdirs + c.stages.copies ==> Logged(states[i].log, a)
    ensures c.deletePolicy == SkipDeletes ==>
      forall x :: x in states[i].log && !Trailing(x.action) ==> x.outcome == Done || x.outcome == Vanished
  {
    RunIsSound(c, states, labels, i);
  }

  // ---- after a halt -------------------------------------------------------

  /** Halted before any removal began. */
  predicate Quiet(s: State) {
    && s.Halted() && (forall r :: r in s.log ==> !Trailing(r.action))
    && (s.stage.Deleting? ==>
          forall k :: 0 <= k < |s.stage.pool.status| ==> s.stage.pool.status[k] != Running)
  }

  lemma QuietStep(c: Config, s: State, l: Label, u: State)
    requires Shaped(c.stages) && Enabled(c, s, l) && Quiet(s) && u == Do(c, s, l)
    ensures Quiet(u)
  {
    if l.Finish? {
      assert s.stage.Copying? && c.stages.copies[l.k] in c.stages.copies;
    }
  }

  lemma {:induction false} QuietStays(c: Config, states: seq<State>, labels: seq<Label>, i: nat, j: nat)
    requires Shaped(c.stages) && Run(c, states, labels) && i <= j < |states| && Quiet(states[i])
    ensures Quiet(states[j])
    decreases j
  {
    if i < j {
      QuietStays(c, states, labels, i, j - 1);
      QuietStep(c, states[j - 1], labels[j - 1], states[j]);
    }
  }

  /** Under either policy, once the run is cancelled or aborts before the
      trailing passes, no removal is ever tried. */
  lemma NoRemovalAfterHalt(c: Config, states: seq<State>, labels: seq<Label>, i: nat, j: nat)
    requires Shaped(c.stages) && Run(c, states, labels) && i <= j < |states|
    requires states[i].Halted() && (states[i].stage.Clearing? || states[i].stage.Making? || states[i].stage.Copying?)
    ensures forall r :: r in states[j].log ==> !Trailing(r.action)
  {
    RunIsSound(c, states, labels, i);
    QuietStays(c, states, labels, i, j);
  }

  // ---- accounting ---------------------------------------------------------

  function CountFinished(status: seq<Status>): nat {
    if status == [] then 0
    else CountFinished(status[..|status| - 1]) + if status[|status| - 1] == Finished then 1 else 0
  }

  lemma {:induction false} CountUpdate(status: seq<Status>, k: nat, v: Status)
    requires k < |status| && status[k] != Finished
    ensures CountFinished(status[k := v]) == CountFinished(status) + if v == Finished then 1 else 0
    decreases |status|
  {
    var n := |status| - 1;
    var u := status[k := v];
    if k == n {
      assert u[..n] == status[..n];
    } else {
      CountUpdate(status[..n], k, v);
      assert u[..n] == status[..n][k := v];
    }
  }

  lemma {:induction false} CountAll(status: seq<Status>)
    requires forall k :: 0 <= k < |status| ==> status[k] == Finished
    ensures CountFinished(status) == |status|
  {
    if status != [] {
      CountAll(status[..|status| - 1]);
    }
  }

  lemma {:induction false} CountNone(status: seq<Status>)
    requires forall k :: 0 <= k < |status| ==> status[k] != Finished
    ensures CountFinished(status) == 0
  {
    if status != [] {
      CountNone(status[..|status| - 1]);
    }
  }

  function CopyFailures(f: seq<Failure>): nat {
    if f == [] then 0 else CopyFailures(f[..|f| - 1]) + if f[|f| - 1].kind == Copy then 1 else 0
  }

  /** The copies a result speaks of. */
  function Tally(r: Result): nat {
    r.filesCopied + r.skipped + CopyFailures(r.failures)
  }

  /** Copied, skipped and failed copies add up to the copies that finished. */
  ghost predicate Balanced(c: Config, s: State) {
    match s.stage
    case Clearing(_) => Tally(s.result) == 0
    case Making(_) => Tally(s.result) == 0
    case Copying(p, _) => Tally(s.result) == CountFinished(p.status)
    case Deleting(_, _) => s.Halted() || Tally(s.result) == |c.stages.copies|
    case Removing(_) => s.Halted() || Tally(s.result) == |c.stages.copies|
    case Returned(err) => err || s.aborting || Tally(s.result) == |c.stages.copies|
  }

  lemma TallyNoted(r: Result, a: Action, o: Outcome)
    requires o.Vanished? ==> a.kind == Copy
    ensures Tally(Noted(r, a, o)) == Tally(r) + if a.kind == Copy then 1 else 0
  {
    if o.Failed? {
      var x := Failure(a.relPath, a.kind, o.cause);
      assert (r.failures + [x])[..|r.failures|] == r.failures;
    }
  }

  lemma OnlyCopiesVanish(c: Config, t: Tree, a: Action, r: Answer)
    requires Possible(c, t, a, r)
    ensures OutcomeOf(c, t, a, r).Vanished? ==> a.kind == Copy
  {
  }

  lemma NextBalanced(c: Config, s: State, o: Outcome, t: Tree)
    requires Shaped(c.stages) && HasNext(c, s) && Balanced(c, s) && (o.Vanished? ==> NextAction(c, s).kind == Copy)
    ensures Balanced(c, NextWith(c, s, o, t))
  {
    var a := NextAction(c, s);
    assert a in c.stages.unblocks || a in c.stages.mkdirs || a in c.stages.rmdirs;
    TallyNoted(s.result, a, o);
  }

  lemma FinishBalanced(c: Config, s: State, k: nat, o: Outcome, t: Tree)
    requires Shaped(c.stages) && Busy(c, s, k) && Balanced(c, s) && (o.Vanished? ==> Work(c, s)[k].kind == Copy)
    ensures Balanced(c, FinishWith(c, s, k, o, t))
  {
    var a := Work(c, s)[k];
    assert a in Work(c, s);
    TallyNoted(s.result, a, o);
    CountUpdate(s.stage.pool.status, k, Finished);
  }

  lemma PoolBalanced(c: Config, s: State, l: Label)
    requires Enabled(c, s, l) && InOrder(c, s) && Balanced(c, s)
    requires l.Feed? || l.Close? || l.Begin? || l.Leave? || l.GiveUp?
    ensures Balanced(c, Do(c, s, l))
  {
    match l
    case Feed => CountUpdate(s.stage.pool.status, s.stage.pool.fed, Received);
    case Begin(k) => CountUpdate(s.stage.pool.status, k, Running);
    case Leave(k) => CountUpdate(s.stage.pool.status, k, Dropped);
    case GiveUp(k, _) => CountUpdate(s.stage.pool.status, k, Dropped);
    case Close =>
  }

  lemma AdvanceBalanced(c: Config, s: State)
    requires Enabled(c, s, Advance) && InOrder(c, s) && Timely(c, s) && Balanced(c, s)
    ensures Balanced(c, Do(c, s, Advance))
  {
    match s.stage
    case Copying(p, _) => if !s.Halted() { CountAll(p.status); }
    case Making(_) => CountNone(NewPool(|c.stages.copies|, c.workers).status);
    case _ =>
  }

  lemma StepBalanced(c: Config, s: State, l: Label)
    requires Shaped(c.stages) && Enabled(c, s, l) && InOrder(c, s) && Timely(c, s) && Balanced(c, s)
    ensures Balanced(c, Do(c, s, l))
  {
    match l
    case Next(r) =>
      var a := NextAction(c, s);
      OnlyCopiesVanish(c, s.tree, a, r);
      NextBalanced(c, s, OutcomeOf(c, s.tree, a, r), TreeAfter(c, s.tree, a, r));
    case Finish(k, r) =>
      var a := Work(c, s)[k];
      OnlyCopiesVanish(c, s.tree, a, r);
      FinishBalanced(c, s, k, OutcomeOf(c, s.tree, a, r), TreeAfter(c, s.tree, a, r));
    case Cancel =>
    case Advance => AdvanceBalanced(c, s);
    case _ => PoolBalanced(c, s, l);
  }

  lemma {:induction false} RunIsBalanced(c: Config, states: seq<State>, labels: seq<Label>, i: nat)
    requires Shaped(c.stages) && Run(c, states, labels) && i < |states|
    ensures Balanced(c, states[i])
    decreases i
  {
    if i > 0 {
      RunIsBalanced(c, states, labels, i - 1);
      RunIsSound(c, states, labels, i - 1);
      StepBalanced(c, states[i - 1], labels[i - 1]);
    }
  }

  /** For every schedule of the workers: without a cancel or an abort, every
      planned copy is counted exactly once. */
  lemma CopiesAccountedFor(c: Config, states: seq<State>, labels: seq<Label>, i: nat)
    requires Shaped(c.stages) && Run(c, states, labels) && i < |states|
    requires ((states[i].stage.Deleting? || states[i].stage.Removing?) && !states[i].Halted())
      || (states[i].stage == Returned(false) && !states[i].aborting)
    ensures Tally(states[i].result) == |c.stages.copies|
  {
    RunIsBalanced(c, states, labels, i);
  }

  lemma {:induction false} OnlyCopiesVanished(c: Config, states: seq<State>, labels: seq<Label>, i: nat)
    requires Run(c, states, labels) && i < |states|
    ensures forall r :: r in states[i].log && r.outcome == Vanished ==> r.action.kind == Copy
    decreases i
  {
    if i > 0 {
      OnlyCopiesVanished(c, states, labels, i - 1);
      var s, l := states[i - 1], labels[i - 1];
      if l.Next? { OnlyCopiesVanish(c, s.tree, NextAction(c, s), l.answer); }
      if l.Finish? { OnlyCopiesVanish(c, s.tree, Work(c, s)[l.k], l.answer); }
    }
  }

  // ---- the tree -----------------------------------------------------------

  /** A run works on the tree only through the actions of its plan. */
  lemma StepWorks(c: Config, s: State, l: Label)
    requires Enabled(c, s, l)
    ensures Works(c.stages.All(), s.tree, Do(c, s, l).tree)
  {
    match l
    case Next(r) =>
      OperationIsEffect(c, s.tree, NextAction(c, s), r);
      assert NextAction(c, s) in c.stages.All();
    case Finish(k, r) =>
      OperationIsEffect(c, s.tree, Work(c, s)[k], r);
      assert Work(c, s)[k] in c.stages.All();
    case GiveUp(k, after) =>
      assert c.stages.copies[k] in c.stages.All();
    case _ =>
  }

  function Trees(states: seq<State>): seq<Tree> {
    seq(|states|, i requires 0 <= i < |states| => states[i].tree)
  }

  lemma RunIsChurn(c: Config, states: seq<State>, labels: seq<Label>)
    requires Run(c, states, labels)
    ensures Churn(c.stages.All(), Trees(states))
  {
    forall i | 0 <= i < |labels| ensures Works(c.stages.All(), states[i].tree, states[i + 1].tree) {
      StepWorks(c, states[i], labels[i]);
    }
  }
}
