/** Mirror correctness over runs of the executor. */
module MirrorRuns {
  import opened Paths
  import opened Scans
  import opened Differ
  import opened Effects
  import opened Executor
  import opened Gating
  import opened Mirroring

  // ---- the run ------------------------------------------------------------

  function FinishedPaths(p: Pool, work: seq<Action>): set<Path> {
    set k | 0 <= k < |work| && k < |p.status| && p.status[k] == Finished :: work[k].relPath
  }

  /** What the stage the run is in says about its progress. */
  function ProgressOf(c: Config, s: State): Progress {
    var all := Progress(PathSet(c.stages.unblocks), PathSet(c.stages.mkdirs), PathSet(c.stages.copies),
                        PathSet(c.stages.deletes), PathSet(c.stages.rmdirs));
    match s.stage
    case Clearing(i) =>
      Progress(if i <= |c.stages.unblocks| then PathSet(c.stages.unblocks[..i]) else {}, {}, {}, {}, {})
    case Making(i) =>
      Progress(all.cleared, if i <= |c.stages.mkdirs| then PathSet(c.stages.mkdirs[..i]) else {}, {}, {}, {})
    case Copying(p, _) => Progress(all.cleared, all.made, FinishedPaths(p, c.stages.copies), {}, {})
    case Deleting(p, _) => Progress(all.cleared, all.made, all.copied, FinishedPaths(p, c.stages.deletes), {})
    case Removing(i) =>
      all.(removed := if i <= |c.stages.rmdirs| then PathSet(c.stages.rmdirs[..i]) else {})
    case Returned(_) => all
  }

  /** Nothing went wrong, and the tree has the shape of the progress made. */
  ghost predicate Smooth(s: Tree, d: Tree, o: Options, c: Config, x: State) {
    && !x.Halted() && x.result.failures == [] && (forall r :: r in x.log ==> r.outcome == Done)
    && x.stage != Returned(true) && !x.result.deletionsSkipped
    && Shape(s, d, o, c.rounding, ProgressOf(c, x), x.tree)
  }

  /** Taking the next action of an ordered stage adds its path, which is new. */
  lemma NextPath(order: Order, actions: seq<Action>, i: nat)
    requires Ordered(order, actions) && i < |actions|
    ensures PathSet(actions[..i + 1]) == PathSet(actions[..i]) + {actions[i].relPath}
    ensures actions[i].relPath !in PathSet(actions[..i]) && actions[i].relPath in PathSet(actions)
  {
    assert actions[..i + 1] == actions[..i] + [actions[i]];
  }

  /** An action that has to come earlier has come earlier. */
  lemma EarlierPath(order: Order, actions: seq<Action>, i: nat, p: Path)
    requires Ordered(order, actions) && i < |actions| && p in PathSet(actions)
    requires order == ShallowFirst ==> Depth(p) < Depth(actions[i].relPath)
    requires order == DeepFirst ==> Depth(p) > Depth(actions[i].relPath)
    requires order != Lexical
    ensures p in PathSet(actions[..i])
  {
    var a :| a in actions && a.relPath == p;
    var j :| 0 <= j < |actions| && actions[j] == a;
    assert actions[..i][j] == a;
  }

  /** A sequential action that goes through. */
  lemma NextGoesThrough(c: Config, x: State, r: Answer)
    requires Enabled(c, x, Next(r)) && OutcomeOf(c, x.tree, NextAction(c, x), r) == Done
    ensures var a, u := NextAction(c, x), Do(c, x, Next(r));
      && u.tree == TreeAfter(c, x.tree, a, r) && u.stage == Bump(x.stage)
      && u.log == x.log + [Record(a, Done)] && u.cancelled == x.cancelled && u.aborting == x.aborting
      && u.result.failures == x.result.failures && u.result.deletionsSkipped == x.result.deletionsSkipped
  {
  }

  lemma ClearNext(s: Tree, d: Tree, o: Options, c: Config, x: State, r: Answer)
    requires Digest(s, d, o, c) && NoFullDirs(s, d) && Smooth(s, d, o, c, x)
    requires Enabled(c, x, Next(r)) && r.Honest? && x.stage.Clearing?
    ensures Smooth(s, d, o, c, Do(c, x, Next(r)))
  {
    var a, g := NextAction(c, x), ProgressOf(c, x);
    assert a in c.stages.unblocks;
    NextPath(DeepFirst, c.stages.unblocks, x.stage.i);
    ClearStep(s, d, o, c.rounding, g, x.tree, a.relPath);
    NextSmooth(s, d, o, c, x, r, g.(cleared := g.cleared + {a.relPath}));
  }

  lemma MakeNext(s: Tree, d: Tree, o: Options, c: Config, x: State, r: Answer)
    requires Digest(s, d, o, c) && Smooth(s, d, o, c, x) && Enabled(c, x, Next(r)) && r.Honest? && x.stage.Making?
    ensures Smooth(s, d, o, c, Do(c, x, Next(r)))
  {
    var a, i, g := NextAction(c, x), x.stage.i, ProgressOf(c, x);
    assert a in c.stages.mkdirs;
    NextPath(ShallowFirst, c.stages.mkdirs, i);
    forall p | NeedsDir(s, d, p) && IsAncestor(p, a.relPath) ensures p in g.made {
      AncestorDepth(p, a.relPath);
      EarlierPath(ShallowFirst, c.stages.mkdirs, i, p);
    }
    MakeStep(s, d, o, c.rounding, g, x.tree, a.relPath);
    NextSmooth(s, d, o, c, x, r, g.(made := g.made + {a.relPath}));
  }

  lemma RemoveNext(s: Tree, d: Tree, o: Options, c: Config, x: State, r: Answer)
    requires Digest(s, d, o, c) && Smooth(s, d, o, c, x) && Enabled(c, x, Next(r)) && r.Honest? && x.stage.Removing?
    ensures Smooth(s, d, o, c, Do(c, x, Next(r)))
  {
    var a, i, g := NextAction(c, x), x.stage.i, ProgressOf(c, x);
    assert a in c.stages.rmdirs;
    NextPath(DeepFirst, c.stages.rmdirs, i);
    InnerDirsAreGone(s, d, o, c, i);
    RemoveWorks(s, d, o, c, g, x.tree, a, r);
    NextSmooth(s, d, o, c, x, r, g.(removed := g.removed + {a.relPath}));
  }

  lemma NextSmooth(s: Tree, d: Tree, o: Options, c: Config, x: State, r: Answer, g: Progress)
    requires Smooth(s, d, o, c, x) && Enabled(c, x, Next(r)) && OutcomeOf(c, x.tree, NextAction(c, x), r) == Done
    requires g == ProgressOf(c, x.(stage := Bump(x.stage)))
    requires Shape(s, d, o, c.rounding, g, TreeAfter(c, x.tree, NextAction(c, x), r))
    ensures Smooth(s, d, o, c, Do(c, x, Next(r)))
  {
    NextGoesThrough(c, x, r);
    assert ProgressOf(c, Do(c, x, Next(r))) == g;
  }

  lemma InnerDirsAreGone(s: Tree, d: Tree, o: Options, c: Config, i: nat)
    requires Digest(s, d, o, c) && i < |c.stages.rmdirs|
    ensures forall q :: Extra(s, d, q) && d[q].Dir? && IsAncestor(c.stages.rmdirs[i].relPath, q) ==>
      q in PathSet(c.stages.rmdirs[..i])
  {
    var p := c.stages.rmdirs[i].relPath;
    forall q | Extra(s, d, q) && d[q].Dir? && IsAncestor(p, q) ensures q in PathSet(c.stages.rmdirs[..i]) {
      AncestorDepth(p, q);
      EarlierPath(DeepFirst, c.stages.rmdirs, i, q);
    }
  }

  lemma RemoveWorks(s: Tree, d: Tree, o: Options, c: Config, g: Progress, t: Tree, a: Action, r: Answer)
    requires Digest(s, d, o, c) && Shape(s, d, o, c.rounding, g, t) && r.Honest?
    requires a in c.stages.rmdirs && a.relPath !in g.removed
    requires g.deleted == PathSet(c.stages.deletes)
    requires forall q :: Extra(s, d, q) && d[q].Dir? && IsAncestor(a.relPath, q) ==> q in g.removed
    ensures OutcomeOf(c, t, a, r) == Done
    ensures Shape(s, d, o, c.rounding, g.(removed := g.removed + {a.relPath}), TreeAfter(c, t, a, r))
  {
    RemoveStep(s, d, o, c.rounding, g, t, a.relPath);
  }

  /** Finishing one action of a pool adds its path, which is new. */
  lemma FinishPath(p: Pool, work: seq<Action>, order: Order, k: nat, q: Pool)
    requires Ordered(order, work) && |p.status| == |work| && k < |work| && p.status[k] == Running
    requires q.status == p.status[k := Finished]
    ensures FinishedPaths(q, work) == FinishedPaths(p, work) + {work[k].relPath}
    ensures work[k].relPath !in FinishedPaths(p, work) && work[k].relPath in PathSet(work)
  {
    assert work[k] in work;
    forall y ensures y in FinishedPaths(q, work) <==> y in FinishedPaths(p, work) + {work[k].relPath} {
      if y in FinishedPaths(p, work) {
        var j :| 0 <= j < |work| && p.status[j] == Finished && work[j].relPath == y;
        assert q.status[j] == Finished;
      }
      assert q.status[k] == Finished;
    }
  }

  /** An action of a pool that goes through. */
  lemma FinishGoesThrough(c: Config, x: State, k: nat, r: Answer)
    requires Enabled(c, x, Finish(k, r)) && OutcomeOf(c, x.tree, Work(c, x)[k], r) == Done
    ensures var a, u := Work(c, x)[k], Do(c, x, Finish(k, r));
      && u.tree == TreeAfter(c, x.tree, a, r)
      && u.log == x.log + [Record(a, Done)] && u.cancelled == x.cancelled && u.aborting == x.aborting
      && u.result.failures == x.result.failures && u.result.deletionsSkipped == x.result.deletionsSkipped
      && InPool(u) && u.stage.Copying? == x.stage.Copying?
      && u.stage.pool.status == x.stage.pool.status[k := Finished]
  {
  }

  lemma FinishProgress(s: Tree, d: Tree, o: Options, c: Config, x: State, k: nat, r: Answer)
    requires Digest(s, d, o, c) && Enabled(c, x, Finish(k, r)) && |x.stage.pool.status| == |Work(c, x)|
    ensures var g, h, p := ProgressOf(c, x), ProgressOf(c, Do(c, x, Finish(k, r))), Work(c, x)[k].relPath;
      && p in PathSet(Work(c, x))
      && if x.stage.Copying? then h == g.(copied := g.copied + {p}) && p !in g.copied
         else h == g.(deleted := g.deleted + {p}) && p !in g.deleted
  {
    var order := if x.stage.Copying? then Lexical else DeepFirst;
    FinishPath(x.stage.pool, Work(c, x), order, k, Do(c, x, Finish(k, r)).stage.pool);
  }

  lemma CopyFinish(s: Tree, d: Tree, o: Options, c: Config, x: State, k: nat, r: Answer)
    requires Digest(s, d, o, c) && Smooth(s, d, o, c, x) && Enabled(c, x, Finish(k, r)) && r.Honest?
    requires x.stage.Copying? && |x.stage.pool.status| == |c.stages.copies|
    ensures Smooth(s, d, o, c, Do(c, x, Finish(k, r)))
  {
    var a, g := c.stages.copies[k], ProgressOf(c, x);
    assert a in c.stages.copies;
    FinishProgress(s, d, o, c, x, k, r);
    CopyStep(s, d, o, c.rounding, g, x.tree, a.relPath, r.stamp);
    FinishSmooth(s, d, o, c, x, k, r);
  }

  lemma DeleteFinish(s: Tree, d: Tree, o: Options, c: Config, x: State, k: nat, r: Answer)
    requires Digest(s, d, o, c) && Smooth(s, d, o, c, x) && Enabled(c, x, Finish(k, r)) && r.Honest?
    requires x.stage.Deleting? && |x.stage.pool.status| == |c.stages.deletes|
    ensures Smooth(s, d, o, c, Do(c, x, Finish(k, r)))
  {
    var a, g := c.stages.deletes[k], ProgressOf(c, x);
    assert a in c.stages.deletes;
    FinishProgress(s, d, o, c, x, k, r);
    DeleteWorks(s, d, o, c, g, x.tree, a, r);
    FinishSmooth(s, d, o, c, x, k, r);
  }

  lemma DeleteWorks(s: Tree, d: Tree, o: Options, c: Config, g: Progress, t: Tree, a: Action, r: Answer)
    requires Digest(s, d, o, c) && Shape(s, d, o, c.rounding, g, t) && r.Honest?
    requires a in c.stages.deletes && a.relPath !in g.deleted && g.removed == {}
    ensures OutcomeOf(c, t, a, r) == Done
    ensures Shape(s, d, o, c.rounding, g.(deleted := g.deleted + {a.relPath}), TreeAfter(c, t, a, r))
  {
    DeleteStep(s, d, o, c.rounding, g, t, a.relPath);
  }

  lemma FinishSmooth(s: Tree, d: Tree, o: Options, c: Config, x: State, k: nat, r: Answer)
    requires Smooth(s, d, o, c, x) && Enabled(c, x, Finish(k, r)) && OutcomeOf(c, x.tree, Work(c, x)[k], r) == Done
    requires Shape(s, d, o, c.rounding, ProgressOf(c, Do(c, x, Finish(k, r))), TreeAfter(c, x.tree, Work(c, x)[k], r))
    ensures Smooth(s, d, o, c, Do(c, x, Finish(k, r)))
  {
    FinishGoesThrough(c, x, k, r);
  }

  /** Moving on keeps the progress. */
  lemma AdvanceProgress(c: Config, x: State)
    requires InOrder(c, x) && Enabled(c, x, Advance) && !x.Halted() && x.result.failures == []
    ensures ProgressOf(c, Do(c, x, Advance)) == ProgressOf(c, x)
  {
    var u := Do(c, x, Advance);
    assert PathSet(c.stages.mkdirs[..0]) == {} && PathSet(c.stages.rmdirs[..0]) == {};
    assert |c.stages.copies| == 0 ==> PathSet(c.stages.copies) == {};
    assert |c.stages.deletes| == 0 ==> PathSet(c.stages.deletes) == {};
    if u.stage.Copying? { NothingFinished(u.stage.pool, c.stages.copies); }
    if u.stage.Deleting? { NothingFinished(u.stage.pool, c.stages.deletes); }
    match x.stage
    case Clearing(i) => assert c.stages.unblocks[..i] == c.stages.unblocks;
    case Making(i) => assert c.stages.mkdirs[..i] == c.stages.mkdirs;
    case Copying(p, _) => AllFinished(p, c.stages.copies, x.log);
    case Deleting(p, _) => AllFinished(p, c.stages.deletes, x.log);
    case Removing(i) => assert c.stages.rmdirs[..i] == c.stages.rmdirs;
  }

  lemma AdvanceSmooth(s: Tree, d: Tree, o: Options, c: Config, x: State)
    requires Smooth(s, d, o, c, x) && InOrder(c, x) && Enabled(c, x, Advance)
    ensures Smooth(s, d, o, c, Do(c, x, Advance))
  {
    AdvanceProgress(c, x);
  }

  lemma NothingFinished(p: Pool, work: seq<Action>)
    requires forall k :: 0 <= k < |p.status| ==> p.status[k] == Waiting
    ensures FinishedPaths(p, work) == {}
  {
  }

  lemma AllFinished(p: Pool, work: seq<Action>, log: seq<Record>)
    requires PoolOk(p, work, log, false) && Settled(p)
    ensures FinishedPaths(p, work) == PathSet(work)
  {
    forall k | 0 <= k < |work| ensures p.status[k] == Finished {
      assert p.status[k] != Waiting;
    }
    forall y ensures y in FinishedPaths(p, work) <==> y in PathSet(work) {
      if y in PathSet(work) {
        var a :| a in work && a.relPath == y;
        var k :| 0 <= k < |work| && work[k] == a;
        assert p.status[k] == Finished;
      }
    }
  }

  /** The moves of a pool that finish nothing. */
  lemma PoolSmooth(s: Tree, d: Tree, o: Options, c: Config, x: State, l: Label)
    requires Smooth(s, d, o, c, x) && InOrder(c, x) && Enabled(c, x, l)
    requires l.Feed? || l.Close? || l.Begin?
    ensures Smooth(s, d, o, c, Do(c, x, l))
  {
    var u := Do(c, x, l);
    var work := Work(c, x);
    forall k | 0 <= k < |work| ensures u.stage.pool.status[k] == Finished <==> x.stage.pool.status[k] == Finished {
    }
    assert FinishedPaths(u.stage.pool, work) == FinishedPaths(x.stage.pool, work);
    assert ProgressOf(c, u) == ProgressOf(c, x);
  }

  /** The world answers honestly, and nobody cancels. */
  predicate FaultFree(l: Label) {
    match l
    case Cancel => false
    case Next(r) => r.Honest?
    case Finish(_, r) => r.Honest?
    case _ => true
  }

  lemma StepSmooth(s: Tree, d: Tree, o: Options, c: Config, x: State, l: Label)
    requires Digest(s, d, o, c) && NoFullDirs(s, d) && Smooth(s, d, o, c, x)
    requires InOrder(c, x) && Enabled(c, x, l) && FaultFree(l)
    ensures Smooth(s, d, o, c, Do(c, x, l))
  {
    match l
    case Next(r) =>
      if x.stage.Clearing? { ClearNext(s, d, o, c, x, r); }
      else if x.stage.Making? { MakeNext(s, d, o, c, x, r); }
      else { RemoveNext(s, d, o, c, x, r); }
    case Finish(k, r) =>
      if x.stage.Copying? { CopyFinish(s, d, o, c, x, k, r); }
      else { DeleteFinish(s, d, o, c, x, k, r); }
    case Advance => AdvanceSmooth(s, d, o, c, x);
    case _ => PoolSmooth(s, d, o, c, x, l);
  }

  lemma {:induction false} RunIsSmooth(s: Tree, d: Tree, o: Options, c: Config,
                                       states: seq<State>, labels: seq<Label>, i: nat)
    requires Digest(s, d, o, c) && NoFullDirs(s, d) && Run(c, states, labels) && i < |states| && states[0].tree == d
    requires forall k :: 0 <= k < |labels| ==> FaultFree(labels[k])
    ensures Smooth(s, d, o, c, states[i])
    decreases i
  {
    if i == 0 {
      assert PathSet(c.stages.unblocks[..0]) == {};
      assert ProgressOf(c, states[0]) == Progress({}, {}, {}, {}, {});
    } else {
      RunIsSmooth(s, d, o, c, states, labels, i - 1);
      RunIsSound(c, states, labels, i - 1);
      StepSmooth(s, d, o, c, states[i - 1], labels[i - 1]);
    }
  }

  /** Mirror correctness, for every schedule of the workers: no operation meets
      a missing parent, a full directory or anything else in its way, and when
      the run returns the destination is the image of the source. */
  lemma MirrorIsImage(s: Tree, d: Tree, o: Options, src: ScanResult, dst: ScanResult, c: Config,
                      states: seq<State>, labels: seq<Label>, i: nat)
    requires Case(s, d, o, src, dst, c) && NoFullDirs(s, d)
    requires Run(c, states, labels) && i < |states| && states[0].tree == d
    requires forall k :: 0 <= k < |labels| ==> FaultFree(labels[k])
    ensures states[i].result.failures == [] && !states[i].Halted()
    ensures forall r :: r in states[i].log ==> r.outcome == Done
    ensures states[i].stage.Returned? ==> Image(s, d, o, c.rounding, states[i].tree)
  {
    CaseDigest(s, d, o, src, dst, c);
    DigestedMirrorIsImage(s, d, o, c, states, labels, i);
  }

  lemma DigestedMirrorIsImage(s: Tree, d: Tree, o: Options, c: Config,
                              states: seq<State>, labels: seq<Label>, i: nat)
    requires Digest(s, d, o, c) && NoFullDirs(s, d) && Run(c, states, labels) && i < |states| && states[0].tree == d
    requires forall k :: 0 <= k < |labels| ==> FaultFree(labels[k])
    ensures states[i].result.failures == [] && !states[i].Halted()
    ensures forall r :: r in states[i].log ==> r.outcome == Done
    ensures states[i].stage.Returned? ==> Image(s, d, o, c.rounding, states[i].tree)
  {
    RunIsSmooth(s, d, o, c, states, labels, i);
    if states[i].stage.Returned? {
      AllDoneIsImage(s, d, o, c.rounding, ProgressOf(c, states[i]), states[i].tree);
    }
  }

  // ---- and only then ------------------------------------------------------

  /** A full directory at `p`, where the source has a file: it is still there,
      still full, and its clearing has failed if it was tried. */
  ghost predicate Stuck(d: Tree, c: Config, p: Path, q: Path, x: State) {
    if x.stage.Clearing? then
      && p in x.tree && x.tree[p].Dir? && q in x.tree
      && (x.stage.i <= |c.stages.unblocks| && p in PathSet(c.stages.unblocks[..x.stage.i]) ==> x.result.failures != [])
    else x.result.failures != []
  }

  lemma NotedKeepsFailures(r: Result, a: Action, o: Outcome)
    ensures |Noted(r, a, o).failures| >= |r.failures|
  {
  }

  lemma FailuresStay(c: Config, x: State, l: Label)
    requires Enabled(c, x, l) && x.result.failures != []
    ensures Do(c, x, l).result.failures != []
  {
    match l
    case Next(r) =>
      var a := NextAction(c, x);
      NotedKeepsFailures(x.result, a, OutcomeOf(c, x.tree, a, r));
    case Finish(k, r) =>
      var a := Work(c, x)[k];
      NotedKeepsFailures(x.result, a, OutcomeOf(c, x.tree, a, r));
    case _ =>
  }

  lemma StuckNext(s: Tree, d: Tree, o: Options, c: Config, p: Path, q: Path, x: State, r: Answer)
    requires Digest(s, d, o, c) && NeedsClear(s, d, p) && !NeedsClear(s, d, q) && IsAncestor(p, q)
    requires Stuck(d, c, p, q, x) && x.stage.Clearing? && Enabled(c, x, Next(r)) && r.Honest?
    ensures Stuck(d, c, p, q, Do(c, x, Next(r)))
  {
    if x.result.failures != [] { FailuresStay(c, x, Next(r)); }
    var a, i := NextAction(c, x), x.stage.i;
    assert a in c.stages.unblocks;
    NextPath(DeepFirst, c.stages.unblocks, i);
    assert a.relPath != q;
    assert HasBeneath(x.tree, p);
    if a.relPath == p {
      assert OutcomeOf(c, x.tree, a, r) == Failed(Other);
    }
  }

  lemma StuckStep(s: Tree, d: Tree, o: Options, c: Config, p: Path, q: Path, x: State, l: Label)
    requires Digest(s, d, o, c) && NeedsClear(s, d, p) && !NeedsClear(s, d, q) && IsAncestor(p, q)
    requires Stuck(d, c, p, q, x) && InOrder(c, x) && !x.Halted() && Enabled(c, x, l) && FaultFree(l)
    ensures Stuck(d, c, p, q, Do(c, x, l))
  {
    if x.stage.Clearing? && l.Next? {
      StuckNext(s, d, o, c, p, q, x, l.answer);
    } else {
      if x.result.failures != [] { FailuresStay(c, x, l); }
      if x.stage.Clearing? && l.Advance? {
        assert c.stages.unblocks[..x.stage.i] == c.stages.unblocks;
      }
    }
  }

  /** Nobody cancels, and as long as the run is clearing nothing aborts it. */
  lemma ClearingIsNotHalted(c: Config, states: seq<State>, labels: seq<Label>, i: nat)
    requires Shaped(c.stages) && Run(c, states, labels) && i < |states|
    requires forall k :: 0 <= k < |labels| ==> FaultFree(labels[k])
    ensures !states[i].cancelled
    decreases i
  {
    if i > 0 {
      ClearingIsNotHalted(c, states, labels, i - 1);
      assert FaultFree(labels[i - 1]);
    }
  }

  lemma {:induction false} StuckStays(s: Tree, d: Tree, o: Options, c: Config, p: Path, q: Path,
                                      states: seq<State>, labels: seq<Label>, i: nat)
    requires Digest(s, d, o, c) && NeedsClear(s, d, p) && !NeedsClear(s, d, q) && IsAncestor(p, q)
    requires p in d && d[p].Dir? && q in d
    requires Run(c, states, labels) && i < |states| && states[0].tree == d
    requires forall k :: 0 <= k < |labels| ==> FaultFree(labels[k])
    ensures Stuck(d, c, p, q, states[i])
    decreases i
  {
    if i > 0 {
      StuckStays(s, d, o, c, p, q, states, labels, i - 1);
      RunIsSound(c, states, labels, i - 1);
      ClearingIsNotHalted(c, states, labels, i - 1);
      if states[i - 1].Halted() {
        FailuresStay(c, states[i - 1], labels[i - 1]);
      } else {
        StuckStep(s, d, o, c, p, q, states[i - 1], labels[i - 1]);
      }
    }
  }

  /** The condition is exact: where a full directory does stand at a source
      file's path, every run that gets past clearing has failed, however
      honest the world is. */
  lemma FullDirFailsMirror(s: Tree, d: Tree, o: Options, src: ScanResult, dst: ScanResult, c: Config,
                           states: seq<State>, labels: seq<Label>, i: nat)
    requires Case(s, d, o, src, dst, c) && !NoFullDirs(s, d)
    requires Run(c, states, labels) && i < |states| && states[0].tree == d
    requires forall k :: 0 <= k < |labels| ==> FaultFree(labels[k])
    ensures states[i].stage.Clearing? || states[i].result.failures != []
  {
    CaseDigest(s, d, o, src, dst, c);
    var p :| p in s && s[p].File? && p in d && d[p].Dir? && HasBeneath(d, p);
    var q :| q in d && IsAncestor(p, q);
    StuckStays(s, d, o, c, p, q, states, labels, i);
  }
}
