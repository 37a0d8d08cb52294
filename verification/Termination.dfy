/** Every run can go on until it returns, and cannot go on for ever. */
module Termination {
  import opened Scans
  import opened Differ
  import opened Executor
  import opened Gating
  import opened Mirroring
  import opened MirrorRuns

  // ---- a run can go on -----------------------------------------------------

  predicate Held(s: Status) { s.Received? || s.Running? }

  /** The actions that workers have in hand. */
  function CountHeld(status: seq<Status>): nat {
    if status == [] then 0
    else CountHeld(status[..|status| - 1]) + if Held(status[|status| - 1]) then 1 else 0
  }

  lemma {:induction false} HeldUpdate(status: seq<Status>, k: nat, v: Status)
    requires k < |status|
    ensures CountHeld(status[k := v]) ==
      CountHeld(status) - (if Held(status[k]) then 1 else 0) + if Held(v) then 1 else 0
    decreases |status|
  {
    var n, u := |status| - 1, status[k := v];
    if k == n {
      assert u[..n] == status[..n];
    } else {
      HeldUpdate(status[..n], k, v);
      assert u[..n] == status[..n][k := v];
    }
  }

  lemma {:induction false} SomeHeld(status: seq<Status>) returns (k: nat)
    requires CountHeld(status) > 0
    ensures k < |status| && Held(status[k])
  {
    var n := |status| - 1;
    if Held(status[n]) { return n; }
    k := SomeHeld(status[..n]);
  }

  lemma {:induction false} NoneHeld(n: nat)
    ensures CountHeld(seq(n, _ => Waiting)) == 0
  {
    if n > 0 {
      NoneHeld(n - 1);
      assert seq(n, _ => Waiting)[..n - 1] == seq(n - 1, _ => Waiting);
    }
  }

  /** Unless the run is halted, every worker is idle or has an action in hand. */
  ghost predicate Staffed(c: Config, s: State) {
    && (InPool(s) && !s.Halted() ==> s.stage.pool.idle + CountHeld(s.stage.pool.status) == c.workers)
    && (InPool(s) && s.stage.pool.open && s.stage.pool.fed < |s.stage.pool.status| ==>
          s.stage.pool.status[s.stage.pool.fed] == Waiting)
  }

  lemma FinishStaffed(c: Config, s: State, k: nat, o: Outcome, t: Tree)
    requires Busy(c, s, k) && InOrder(c, s) && Staffed(c, s)
    ensures Staffed(c, FinishWith(c, s, k, o, t))
  {
    HeldUpdate(s.stage.pool.status, k, Finished);
  }

  lemma PoolStaffed(c: Config, s: State, l: Label)
    requires Enabled(c, s, l) && InOrder(c, s) && Staffed(c, s)
    requires l.Feed? || l.Close? || l.Begin? || l.Leave? || l.GiveUp?
    ensures Staffed(c, Do(c, s, l))
  {
    var p := s.stage.pool;
    match l
    case Feed => HeldUpdate(p.status, p.fed, Received);
    case Begin(k) => HeldUpdate(p.status, k, Running);
    case _ =>
  }

  lemma AdvanceStaffed(c: Config, s: State)
    requires Enabled(c, s, Advance)
    ensures Staffed(c, Do(c, s, Advance))
  {
    NoneHeld(|c.stages.copies|);
    NoneHeld(|c.stages.deletes|);
  }

  lemma StepStaffed(c: Config, s: State, l: Label)
    requires Enabled(c, s, l) && InOrder(c, s) && Staffed(c, s)
    ensures Staffed(c, Do(c, s, l))
  {
    match l
    case Finish(k, r) =>
      var a := Work(c, s)[k];
      FinishStaffed(c, s, k, OutcomeOf(c, s.tree, a, r), TreeAfter(c, s.tree, a, r));
    case Next(_) =>
    case Cancel =>
    case Advance => AdvanceStaffed(c, s);
    case _ => PoolStaffed(c, s, l);
  }

  lemma {:induction false} RunIsStaffed(c: Config, states: seq<State>, labels: seq<Label>, i: nat)
    requires Shaped(c.stages) && Run(c, states, labels) && i < |states|
    ensures Staffed(c, states[i])
    decreases i
  {
    if i > 0 {
      RunIsStaffed(c, states, labels, i - 1);
      RunIsSound(c, states, labels, i - 1);
      StepStaffed(c, states[i - 1], labels[i - 1]);
    }
  }

  /** The worker that has this action in hand can move. */
  lemma WorkerMoves(c: Config, s: State, k: nat) returns (l: Label)
    requires InPool(s) && |s.stage.pool.status| == |Work(c, s)| && k < |s.stage.pool.status| && Held(s.stage.pool.status[k])
    ensures Enabled(c, s, l) && FaultFree(l)
  {
    if s.stage.pool.status[k] == Running {
      l := Finish(k, Honest(Work(c, s)[k].modTime));
    } else if s.Halted() {
      l := Leave(k);
    } else {
      l := Begin(k);
    }
  }

  lemma PoolMoves(c: Config, s: State) returns (l: Label)
    requires InPool(s) && InOrder(c, s) && Staffed(c, s) && 0 < c.workers
    ensures Enabled(c, s, l) && FaultFree(l)
  {
    var p := s.stage.pool;
    if p.open && (p.fed >= |p.status| || s.Halted()) {
      return Close;
    }
    if p.open && p.idle > 0 {
      return Feed;
    }
    if p.open {
      var k := SomeHeld(p.status);
      l := WorkerMoves(c, s, k);
    } else if k :| 0 <= k < |p.status| && Held(p.status[k]) {
      l := WorkerMoves(c, s, k);
    } else {
      assert Settled(p);
      l := Advance;
    }
  }

  /** At every state short of the end some step of the run's own is possible, and
      one that the world answers honestly. */
  lemma RunCanGoOn(c: Config, states: seq<State>, labels: seq<Label>, i: nat) returns (l: Label)
    requires Shaped(c.stages) && Run(c, states, labels) && i < |states| && 0 < c.workers
    requires !states[i].stage.Returned?
    ensures Enabled(c, states[i], l) && FaultFree(l)
  {
    var s := states[i];
    RunIsSound(c, states, labels, i);
    RunIsStaffed(c, states, labels, i);
    if InPool(s) {
      l := PoolMoves(c, s);
    } else if HasNext(c, s) && !s.Halted() {
      l := Next(Honest(NextAction(c, s).modTime));
    } else {
      l := Advance;
    }
  }

  // ---- but not for ever ----------------------------------------------------

  function Left(s: Status): nat {
    match s
    case Waiting => 3
    case Received => 2
    case Running => 1
    case Finished => 0
    case Dropped => 0
  }

  function LeftIn(status: seq<Status>): nat {
    if status == [] then 0 else LeftIn(status[..|status| - 1]) + Left(status[|status| - 1])
  }

  lemma {:induction false} LeftUpdate(status: seq<Status>, k: nat, v: Status)
    requires k < |status|
    ensures LeftIn(status[k := v]) == LeftIn(status) - Left(status[k]) + Left(v)
    decreases |status|
  {
    var n, u := |status| - 1, status[k := v];
    if k == n {
      assert u[..n] == status[..n];
    } else {
      LeftUpdate(status[..n], k, v);
      assert u[..n] == status[..n][k := v];
    }
  }

  lemma {:induction false} LeftAtFirst(n: nat)
    ensures LeftIn(seq(n, _ => Waiting)) == 3 * n
  {
    if n > 0 {
      LeftAtFirst(n - 1);
      assert seq(n, _ => Waiting)[..n - 1] == seq(n - 1, _ => Waiting);
    }
  }

  function PoolLeft(p: Pool): nat {
    LeftIn(p.status) + if p.open then 1 else 0
  }

  function AfterDeletes(c: Config): nat { |c.stages.rmdirs| + 1 }
  function AfterCopying(c: Config): nat { 3 * |c.stages.deletes| + 2 + AfterDeletes(c) }
  function AfterMaking(c: Config): nat { 3 * |c.stages.copies| + 2 + AfterCopying(c) }
  function AfterClearing(c: Config): nat { |c.stages.mkdirs| + 1 + AfterMaking(c) }

  function Less(n: nat, i: nat): nat { if i <= n then n - i else 0 }

  /** A bound on the steps still to come. */
  function Measure(c: Config, s: State): nat {
    match s.stage
    case Clearing(i) => Less(|c.stages.unblocks|, i) + 1 + AfterClearing(c)
    case Making(i) => Less(|c.stages.mkdirs|, i) + 1 + AfterMaking(c)
    case Copying(p, _) => PoolLeft(p) + 1 + AfterCopying(c)
    case Deleting(p, _) => PoolLeft(p) + 1 + AfterDeletes(c)
    case Removing(i) => Less(|c.stages.rmdirs|, i) + 1
    case Returned(_) => 0
  }

  lemma FinishDecreases(c: Config, s: State, k: nat, o: Outcome, t: Tree)
    requires Busy(c, s, k)
    ensures Measure(c, FinishWith(c, s, k, o, t)) < Measure(c, s)
  {
    LeftUpdate(s.stage.pool.status, k, Finished);
  }

  lemma PoolDecreases(c: Config, s: State, l: Label)
    requires Enabled(c, s, l) && Staffed(c, s) && (l.Feed? || l.Close? || l.Begin? || l.Leave? || l.GiveUp?)
    ensures Measure(c, Do(c, s, l)) < Measure(c, s)
  {
    var status := s.stage.pool.status;
    match l
    case Feed => LeftUpdate(status, s.stage.pool.fed, Received);
    case Begin(k) => LeftUpdate(status, k, Running);
    case Leave(k) => LeftUpdate(status, k, Dropped);
    case GiveUp(k, _) => LeftUpdate(status, k, Dropped);
    case Close =>
  }

  lemma PoolAtFirst(n: nat, workers: nat)
    ensures PoolLeft(NewPool(n, workers)) == 3 * n + 1
  {
    LeftAtFirst(n);
  }

  lemma GateDecreases(c: Config, s: State)
    ensures Measure(c, AfterCopies(c, s)) <= AfterCopying(c)
  {
    PoolAtFirst(|c.stages.deletes|, c.workers);
  }

  lemma AdvanceDecreases(c: Config, s: State)
    requires Enabled(c, s, Advance)
    ensures Measure(c, Do(c, s, Advance)) < Measure(c, s)
  {
    PoolAtFirst(|c.stages.copies|, c.workers);
    GateDecreases(c, s);
    var u := Do(c, s, Advance);
    match s.stage
    case Clearing(_) => assert u.stage == Making(0) || u.stage.Returned?;
    case Making(_) => assert u == AfterCopies(c, s) || u.stage.Returned? || u.stage.Copying?;
    case Copying(_, _) => assert u == AfterCopies(c, s);
    case Deleting(_, _) => assert u.stage == Removing(0);
    case Removing(_) => assert u.stage.Returned?;
  }

  lemma StepDecreases(c: Config, s: State, l: Label)
    requires Enabled(c, s, l) && Staffed(c, s) && !l.Cancel?
    ensures Measure(c, Do(c, s, l)) < Measure(c, s)
  {
    match l
    case Finish(k, r) =>
      var a := Work(c, s)[k];
      FinishDecreases(c, s, k, OutcomeOf(c, s.tree, a, r), TreeAfter(c, s.tree, a, r));
    case Advance => AdvanceDecreases(c, s);
    case Next(_) =>
    case _ => PoolDecreases(c, s, l);
  }

  /** The steps of a run other than being cancelled again. */
  function Own(labels: seq<Label>): nat {
    if labels == [] then 0 else Own(labels[..|labels| - 1]) + if labels[|labels| - 1].Cancel? then 0 else 1
  }

  /** Whatever happens, a run takes no more steps than its plan allows for. */
  lemma {:induction false} RunIsShort(c: Config, states: seq<State>, labels: seq<Label>, i: nat)
    requires Shaped(c.stages) && Run(c, states, labels) && i < |states|
    ensures Own(labels[..i]) + Measure(c, states[i]) <= |c.stages.unblocks| + 1 + AfterClearing(c)
    decreases i
  {
    if i > 0 {
      var l := labels[i - 1];
      RunIsShort(c, states, labels, i - 1);
      RunIsSound(c, states, labels, i - 1);
      RunIsStaffed(c, states, labels, i - 1);
      assert labels[..i][..i - 1] == labels[..i - 1];
      if !l.Cancel? { StepDecreases(c, states[i - 1], l); }
    }
  }

  /** A run that cannot take an honest step has returned. */
  ghost predicate AtRest(c: Config, s: State) {
    forall l :: Enabled(c, s, l) ==> !FaultFree(l)
  }

  /** Mirror correctness, in full: with workers to do the work, a fault-free run
      takes a bounded number of steps, comes to rest only by returning, and
      then the destination is the image of the source. */
  lemma MirrorArrives(s: Tree, d: Tree, o: Options, src: ScanResult, dst: ScanResult, c: Config,
                      states: seq<State>, labels: seq<Label>)
    requires Case(s, d, o, src, dst, c) && NoFullDirs(s, d) && 0 < c.workers
    requires Run(c, states, labels) && states[0].tree == d
    requires forall k :: 0 <= k < |labels| ==> FaultFree(labels[k])
    ensures |labels| <= |c.stages.unblocks| + 1 + AfterClearing(c)
    ensures AtRest(c, states[|labels|]) <==> states[|labels|].stage.Returned?
    ensures AtRest(c, states[|labels|]) ==> Image(s, d, o, c.rounding, states[|labels|].tree)
  {
    CaseDigest(s, d, o, src, dst, c);
    StagesAreShaped(src, dst, o, c.stages);
    RunIsShort(c, states, labels, |labels|);
    AllOwn(labels);
    assert labels[..|labels|] == labels;
    MirrorIsImage(s, d, o, src, dst, c, states, labels, |labels|);
    if !states[|labels|].stage.Returned? {
      var l := RunCanGoOn(c, states, labels, |labels|);
    }
  }

  lemma {:induction false} AllOwn(labels: seq<Label>)
    requires forall k :: 0 <= k < |labels| ==> FaultFree(labels[k])
    ensures Own(labels) == |labels|
  {
    if labels != [] { AllOwn(labels[..|labels| - 1]); }
  }
}
