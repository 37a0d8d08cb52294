/** Which reported successes an operation that lands late can still undo. */
module LateSuccess {
  import opened Paths
  import opened Sorting
  import opened Scans
  import opened Differ
  import opened Effects
  import opened Executor
  import opened Gating
  import opened Idempotence
  import opened LateRuns

  /** A clearing at the path of this success is still in flight. */
  predicate AtRisk(w: World, b: Action) {
    !b.unblock && exists a :: a in w.pending && a.unblock && a.relPath == b.relPath
  }

  /** Every success holds, or has a clearing in flight at its path. */
  ghost predicate Secured(c: Config, w: World) {
    forall r :: r in w.x.log && r.outcome == Done ==> Holds(c, w.x.tree, r.action) || AtRisk(w, r.action)
  }

  // ---- a copy that succeeded has nothing in flight -------------------------

  /** Not finished with: neither logged nor left behind. */
  predicate Open(s: Status) { s.Waiting? || s.Received? || s.Running? }

  ghost predicate CopiesApart(c: Config, w: World) {
    && (forall a :: a in w.pending && a.kind == Copy ==> Record(a, Done) !in w.x.log && a in c.stages.copies)
    && (w.x.stage.Clearing? || w.x.stage.Making? ==> forall a :: a in w.pending ==> a.kind != Copy)
    && (w.x.stage.Copying? ==>
          && |w.x.stage.pool.status| == |c.stages.copies|
          && forall k :: 0 <= k < |c.stages.copies| && Open(w.x.stage.pool.status[k]) ==>
               !Logged(w.x.log, c.stages.copies[k]) && c.stages.copies[k] !in w.pending)
  }

  lemma NextApart(c: Config, w: World, r: Answer)
    requires Shaped(c.stages) && CopiesApart(c, w) && Enabled(c, w.x, Next(r))
    ensures CopiesApart(c, Happen(c, w, Own(Next(r))))
  {
    var a := NextAction(c, w.x);
    assert a in c.stages.unblocks || a in c.stages.mkdirs || a in c.stages.rmdirs;
    assert a.kind != Copy;
  }

  lemma FinishApart(c: Config, w: World, k: nat, r: Answer)
    requires Shaped(c.stages) && Strict(Lexical, PathOf, c.stages.copies) && CopiesApart(c, w) && Enabled(c, w.x, Finish(k, r))
    ensures CopiesApart(c, Happen(c, w, Own(Finish(k, r))))
  {
    var a, v := Work(c, w.x)[k], Happen(c, w, Own(Finish(k, r)));
    assert a in Work(c, w.x);
    var o := OutcomeOf(c, w.x.tree, a, r);
    assert v.x.log == w.x.log + [Record(a, o)] && (r.Faulty? ==> o != Done);
    if w.x.stage.Copying? {
      forall j | 0 <= j < |c.stages.copies| && Open(v.x.stage.pool.status[j])
        ensures !Logged(v.x.log, c.stages.copies[j]) && c.stages.copies[j] !in v.pending
      {
        assert PathOf(c.stages.copies[j]) != PathOf(c.stages.copies[k]);
      }
    }
  }

  lemma GiveUpApart(c: Config, w: World, k: nat, after: Tree)
    requires Shaped(c.stages) && Strict(Lexical, PathOf, c.stages.copies) && CopiesApart(c, w) && Enabled(c, w.x, GiveUp(k, after))
    ensures CopiesApart(c, Happen(c, w, Own(GiveUp(k, after))))
  {
    var a, v := c.stages.copies[k], Happen(c, w, Own(GiveUp(k, after)));
    assert a in c.stages.copies && !Logged(w.x.log, a);
    forall j | 0 <= j < |c.stages.copies| && Open(v.x.stage.pool.status[j])
      ensures !Logged(v.x.log, c.stages.copies[j]) && c.stages.copies[j] !in v.pending
    {
      assert PathOf(c.stages.copies[j]) != PathOf(c.stages.copies[k]);
    }
  }

  lemma AdvanceApart(c: Config, w: World)
    requires Shaped(c.stages) && Timely(c, w.x) && CopiesApart(c, w) && Enabled(c, w.x, Advance)
    ensures CopiesApart(c, Happen(c, w, Own(Advance)))
  {
    var v := Happen(c, w, Own(Advance));
    if v.x.stage.Copying? {
      assert w.x.stage.Making? && v.x.log == w.x.log && v.pending == w.pending;
      forall k | 0 <= k < |c.stages.copies| ensures !Logged(w.x.log, c.stages.copies[k]) {
        assert c.stages.copies[k] in c.stages.copies;
      }
    }
  }

  lemma PoolApart(c: Config, w: World, l: Label)
    requires CopiesApart(c, w) && InOrder(c, w.x) && Enabled(c, w.x, l)
    requires l.Cancel? || l.Feed? || l.Close? || l.Begin? || l.Leave?
    ensures CopiesApart(c, Happen(c, w, Own(l)))
  {
    var v := Happen(c, w, Own(l));
    assert v.x.log == w.x.log && v.pending == w.pending;
    if w.x.stage.Copying? {
      assert forall k :: 0 <= k < |c.stages.copies| && Open(v.x.stage.pool.status[k]) ==> Open(w.x.stage.pool.status[k]);
    }
  }

  lemma OwnApart(c: Config, w: World, l: Label)
    requires Shaped(c.stages) && Strict(Lexical, PathOf, c.stages.copies) && Sound(c, w.x) && CopiesApart(c, w)
    requires Enabled(c, w.x, l)
    ensures CopiesApart(c, Happen(c, w, Own(l)))
  {
    match l
    case Next(r) => NextApart(c, w, r);
    case Finish(k, r) => FinishApart(c, w, k, r);
    case GiveUp(k, after) => GiveUpApart(c, w, k, after);
    case Advance => AdvanceApart(c, w);
    case _ => PoolApart(c, w, l);
  }

  // ---- what can be undone, and what not ------------------------------------

  /** An effect of a planned action leaves every success secured. */
  lemma EffectSecures(d: Tree, o: Options, prune: Path -> bool, src: ScanResult, dst: ScanResult, c: Config,
                      w: World, a: Action, u: Tree, b: Action)
    requires Planned(d, o, prune, src, dst, c) && TreeOk(w.x.tree) && a in c.stages.All() && b in c.stages.All()
    requires CanBecome(w.x.tree, a, u) && (Holds(c, w.x.tree, b) || AtRisk(w, b))
    requires a == b ==> b.kind != Copy
    requires a.unblock && a.relPath == b.relPath && !b.unblock ==> a in w.pending
    ensures Holds(c, u, b) || AtRisk(w, b)
  {
    if !AtRisk(w, b) { HoldsStays(d, o, prune, src, dst, c, w.x.tree, a, u, b); }
  }

  lemma OperationSecures(d: Tree, o: Options, prune: Path -> bool, src: ScanResult, dst: ScanResult, c: Config,
                         w: World, a: Action, r: Answer, more: set<Action>)
    requires Planned(d, o, prune, src, dst, c) && TreeOk(w.x.tree) && Timely(c, w.x) && Secured(c, w)
    requires a in c.stages.All() && Possible(c, w.x.tree, a, r)
    requires a in c.stages.unblocks ==> w.x.stage.Clearing?
    requires a in c.stages.copies ==> !Logged(w.x.log, a)
    ensures forall b :: b in w.x.log + [Record(a, OutcomeOf(c, w.x.tree, a, r))] && b.outcome == Done ==>
      Holds(c, TreeAfter(c, w.x.tree, a, r), b.action) || AtRisk(w.(pending := w.pending + more), b.action)
  {
    var u, v := TreeAfter(c, w.x.tree, a, r), w.(pending := w.pending + more);
    OperationIsEffect(c, w.x.tree, a, r);
    if OutcomeOf(c, w.x.tree, a, r) == Done {
      NotTheRoot(d, o, prune, src, dst, c, a);
      DoneHolds(c, w.x.tree, a, r);
    }
    forall b | b in w.x.log && b.outcome == Done ensures Holds(c, u, b.action) || AtRisk(v, b.action) {
      assert b == Record(b.action, b.outcome);
      StaysInTurn(d, o, prune, src, dst, c, w.x, a, b.action);
      EffectSecures(d, o, prune, src, dst, c, w, a, u, b.action);
    }
  }

  lemma NextSecures(d: Tree, o: Options, prune: Path -> bool, src: ScanResult, dst: ScanResult, c: Config,
                    w: World, r: Answer)
    requires Planned(d, o, prune, src, dst, c) && TreeOk(w.x.tree) && Timely(c, w.x) && Secured(c, w)
    requires Enabled(c, w.x, Next(r))
    ensures Secured(c, Happen(c, w, Own(Next(r))))
  {
    StagesAreShaped(src, dst, o, c.stages);
    var a := NextAction(c, w.x);
    assert a in c.stages.unblocks || a in c.stages.mkdirs || a in c.stages.rmdirs;
    assert a in c.stages.All();
    OperationSecures(d, o, prune, src, dst, c, w, a, r, LeftBehind(c, w.x, Next(r)));
  }

  lemma FinishSecures(d: Tree, o: Options, prune: Path -> bool, src: ScanResult, dst: ScanResult, c: Config,
                      w: World, k: nat, r: Answer)
    requires Planned(d, o, prune, src, dst, c) && TreeOk(w.x.tree) && Timely(c, w.x) && Secured(c, w) && CopiesApart(c, w)
    requires Enabled(c, w.x, Finish(k, r))
    ensures Secured(c, Happen(c, w, Own(Finish(k, r))))
  {
    StagesAreShaped(src, dst, o, c.stages);
    var a := Work(c, w.x)[k];
    assert a in Work(c, w.x) && a in c.stages.All();
    OperationSecures(d, o, prune, src, dst, c, w, a, r, LeftBehind(c, w.x, Finish(k, r)));
  }

  /** What is left behind, or lands, at no success's own path but a clearing's. */
  lemma StraySecures(d: Tree, o: Options, prune: Path -> bool, src: ScanResult, dst: ScanResult, c: Config,
                     w: World, a: Action, after: Tree, v: World)
    requires Planned(d, o, prune, src, dst, c) && TreeOk(w.x.tree) && Timely(c, w.x) && Secured(c, w)
    requires a in c.stages.All() && CanBecome(w.x.tree, a, after) && (a.kind == Copy ==> Record(a, Done) !in w.x.log)
    requires a.unblock ==> a in w.pending
    requires v.x.tree == after && v.x.log == w.x.log && w.pending <= v.pending
    ensures Secured(c, v)
  {
    forall r | r in v.x.log && r.outcome == Done ensures Holds(c, after, r.action) || AtRisk(v, r.action) {
      assert r == Record(r.action, Done);
      EffectSecures(d, o, prune, src, dst, c, w, a, after, r.action);
    }
  }

  lemma GiveUpSecures(d: Tree, o: Options, prune: Path -> bool, src: ScanResult, dst: ScanResult, c: Config,
                      w: World, k: nat, after: Tree)
    requires Planned(d, o, prune, src, dst, c) && TreeOk(w.x.tree) && Timely(c, w.x) && Secured(c, w) && CopiesApart(c, w)
    requires Enabled(c, w.x, GiveUp(k, after))
    ensures Secured(c, Happen(c, w, Own(GiveUp(k, after))))
  {
    StagesAreShaped(src, dst, o, c.stages);
    var a := c.stages.copies[k];
    assert a in c.stages.copies && a in c.stages.All() && !Logged(w.x.log, a);
    StraySecures(d, o, prune, src, dst, c, w, a, after, Happen(c, w, Own(GiveUp(k, after))));
  }

  lemma PoolSecures(c: Config, w: World, l: Label)
    requires Secured(c, w) && Enabled(c, w.x, l) && !l.Next? && !l.Finish? && !l.GiveUp?
    ensures Secured(c, Happen(c, w, Own(l)))
  {
    var v := Happen(c, w, Own(l));
    assert v.x.tree == w.x.tree && v.x.log == w.x.log && v.pending == w.pending;
  }

  lemma StepSecures(d: Tree, o: Options, prune: Path -> bool, src: ScanResult, dst: ScanResult, c: Config,
                    w: World, e: Event)
    requires Planned(d, o, prune, src, dst, c) && TreeOk(w.x.tree) && Timely(c, w.x) && Secured(c, w)
    requires CopiesApart(c, w) && FromPlan(c, w) && CanHappen(c, w, e)
    ensures Secured(c, Happen(c, w, e))
  {
    match e
    case Lands(a, after) => StraySecures(d, o, prune, src, dst, c, w, a, after, Happen(c, w, e));
    case Own(l) =>
      match l
      case Next(r) => NextSecures(d, o, prune, src, dst, c, w, r);
      case Finish(k, r) => FinishSecures(d, o, prune, src, dst, c, w, k, r);
      case GiveUp(k, after) => GiveUpSecures(d, o, prune, src, dst, c, w, k, after);
      case _ => PoolSecures(c, w, l);
  }

  lemma {:induction false} RunApart(c: Config, ws: seq<World>, events: seq<Event>, i: nat)
    requires Shaped(c.stages) && Strict(Lexical, PathOf, c.stages.copies) && LateRun(c, ws, events) && i < |ws|
    ensures CopiesApart(c, ws[i])
    decreases i
  {
    if i > 0 {
      RunApart(c, ws, events, i - 1);
      LateRunIsSound(c, ws, events, i - 1);
      var w, e := ws[i - 1], events[i - 1];
      if e.Own? { OwnApart(c, w, e.l); }
    }
  }

  lemma {:induction false} RunFrames(d: Tree, o: Options, prune: Path -> bool, src: ScanResult, dst: ScanResult,
                                     c: Config, ws: seq<World>, events: seq<Event>, i: nat)
    requires Planned(d, o, prune, src, dst, c) && LateRun(c, ws, events) && ws[0].x.tree == d && i < |ws|
    ensures TreeOk(ws[i].x.tree) && Framed(src, dst, o, d, ws[i].x.tree)
    decreases i
  {
    if i > 0 {
      RunFrames(d, o, prune, src, dst, c, ws, events, i - 1);
      LateStepFrames(d, o, prune, src, dst, c, ws, events, i - 1);
    }
  }

  /** At every step of every run, however late its operations land, every reported
      success holds, unless a clearing of its path was reported as failed. */
  lemma {:induction false} SuccessesHold(d: Tree, o: Options, prune: Path -> bool, src: ScanResult, dst: ScanResult,
                                         c: Config, ws: seq<World>, events: seq<Event>, i: nat)
    requires Planned(d, o, prune, src, dst, c) && LateRun(c, ws, events) && ws[0].x.tree == d && i < |ws|
    ensures Secured(c, ws[i])
    decreases i
  {
    if i > 0 {
      var w, e := ws[i - 1], events[i - 1];
      SuccessesHold(d, o, prune, src, dst, c, ws, events, i - 1);
      WorldOf(d, o, prune, src, dst, c, ws, events, i - 1);
      assert CanHappen(c, w, e) && ws[i] == Happen(c, w, e);
      StepSecures(d, o, prune, src, dst, c, w, e);
    }
  }

  /** What else is known of every moment of such a run. */
  lemma WorldOf(d: Tree, o: Options, prune: Path -> bool, src: ScanResult, dst: ScanResult,
                c: Config, ws: seq<World>, events: seq<Event>, i: nat)
    requires Planned(d, o, prune, src, dst, c) && LateRun(c, ws, events) && ws[0].x.tree == d && i < |ws|
    ensures TreeOk(ws[i].x.tree) && FromPlan(c, ws[i]) && Timely(c, ws[i].x) && CopiesApart(c, ws[i])
  {
    StagesAreShaped(src, dst, o, c.stages);
    RunFrames(d, o, prune, src, dst, c, ws, events, i);
    RunApart(c, ws, events, i);
    LateRunIsSound(c, ws, events, i);
    PendingIsPlanned(c, ws, events, i);
  }

  lemma LateStepFrames(d: Tree, o: Options, prune: Path -> bool, src: ScanResult, dst: ScanResult,
                       c: Config, ws: seq<World>, events: seq<Event>, k: nat)
    requires Planned(d, o, prune, src, dst, c) && LateRun(c, ws, events) && k < |events|
    requires TreeOk(ws[k].x.tree) && Framed(src, dst, o, d, ws[k].x.tree)
    ensures TreeOk(ws[k + 1].x.tree) && Framed(src, dst, o, d, ws[k + 1].x.tree)
  {
    LateStepWorks(c, ws, events, k);
    var t, u := ws[k].x.tree, ws[k + 1].x.tree;
    if u != t {
      var a :| a in c.stages.All() && CanBecome(t, a, u);
      EffectKeepsTree(t, a, u);
      FrameStep(d, o, prune, src, dst, c, t, a, u);
    }
  }

  /** Some effect still in flight would undo this success. */
  ghost predicate CanBeUndone(c: Config, w: World, b: Action) {
    exists a, after :: CanHappen(c, w, Lands(a, after)) && !Holds(c, after, b)
  }

  lemma ClearingRemoves(src: ScanResult, dst: ScanResult, o: Options, c: Config, t: Tree, a: Action, after: Tree, b: Action)
    requires IsStages(src, dst, o, c.stages) && a in c.stages.All() && a.unblock && a.relPath == b.relPath
    requires CanBecome(t, a, after) && Holds(c, t, b) && !Holds(c, after, b)
    ensures Removable(t, b.relPath)
  {
    ActionMeaning(src, dst, o, c.stages, a);
  }

  lemma RemovalStays(d: Tree, o: Options, prune: Path -> bool, src: ScanResult, dst: ScanResult, c: Config,
                     t: Tree, a: Action, after: Tree, b: Action)
    requires Planned(d, o, prune, src, dst, c) && a in c.stages.All() && b in c.stages.All() && CanBecome(t, a, after)
    requires Holds(c, t, b) && b.kind != Copy && b.kind != MkDir
    ensures Holds(c, after, b)
  {
    if !b.unblock { RemovalHoldsStays(d, o, prune, src, dst, c, t, a, after, b); }
  }

  lemma OnlyAtRisk(d: Tree, o: Options, prune: Path -> bool, src: ScanResult, dst: ScanResult, c: Config,
                   w: World, a: Action, after: Tree, b: Action)
    requires Planned(d, o, prune, src, dst, c) && TreeOk(w.x.tree) && b in c.stages.All() && Holds(c, w.x.tree, b)
    requires a in w.pending && a in c.stages.All() && CanBecome(w.x.tree, a, after) && (a == b ==> b.kind != Copy)
    requires !Holds(c, after, b)
    ensures AtRisk(w, b) && Removable(w.x.tree, b.relPath) && (b.kind == Copy || b.kind == MkDir)
  {
    if b.kind != Copy && b.kind != MkDir { RemovalStays(d, o, prune, src, dst, c, w.x.tree, a, after, b); }
    if !(a.unblock && a.relPath == b.relPath && !b.unblock) {
      HoldsStays(d, o, prune, src, dst, c, w.x.tree, a, after, b);
    }
    ClearingRemoves(src, dst, o, c, w.x.tree, a, after, b);
  }

  lemma AtRiskCanBeUndone(src: ScanResult, dst: ScanResult, o: Options, c: Config, w: World, b: Action)
    requires IsStages(src, dst, o, c.stages) && FromPlan(c, w)
    requires AtRisk(w, b) && Removable(w.x.tree, b.relPath) && (b.kind == Copy || b.kind == MkDir)
    ensures CanBeUndone(c, w, b)
  {
    var a :| a in w.pending && a.unblock && a.relPath == b.relPath;
    var after := w.x.tree - {a.relPath};
    ActionMeaning(src, dst, o, c.stages, a);
    assert CanHappen(c, w, Lands(a, after)) && !Holds(c, after, b);
  }

  /** Exactly which success the next thing to land can undo: a copy with a clearing
      in flight at its path, or a directory with one and nothing in it. */
  lemma UndoneExactly(d: Tree, o: Options, prune: Path -> bool, src: ScanResult, dst: ScanResult,
                      c: Config, ws: seq<World>, events: seq<Event>, i: nat, b: Action)
    requires Planned(d, o, prune, src, dst, c) && LateRun(c, ws, events) && ws[0].x.tree == d && i < |ws|
    requires Record(b, Done) in ws[i].x.log && Holds(c, ws[i].x.tree, b)
    ensures CanBeUndone(c, ws[i], b) <==>
      AtRisk(ws[i], b) && (b.kind == Copy || b.kind == MkDir) && Removable(ws[i].x.tree, b.relPath)
  {
    var w := ws[i];
    KnownOf(d, o, prune, src, dst, c, ws, events, i, b);
    if a, after :| CanHappen(c, w, Lands(a, after)) && !Holds(c, after, b) {
      OnlyAtRisk(d, o, prune, src, dst, c, w, a, after, b);
    }
    if AtRisk(w, b) && (b.kind == Copy || b.kind == MkDir) && Removable(w.x.tree, b.relPath) {
      AtRiskCanBeUndone(src, dst, o, c, w, b);
    }
  }

  lemma KnownOf(d: Tree, o: Options, prune: Path -> bool, src: ScanResult, dst: ScanResult,
                c: Config, ws: seq<World>, events: seq<Event>, i: nat, b: Action)
    requires Planned(d, o, prune, src, dst, c) && LateRun(c, ws, events) && ws[0].x.tree == d && i < |ws|
    requires Record(b, Done) in ws[i].x.log
    ensures TreeOk(ws[i].x.tree) && FromPlan(c, ws[i]) && b in c.stages.All()
    ensures b in ws[i].pending ==> b.kind != Copy
  {
    WorldOf(d, o, prune, src, dst, c, ws, events, i);
    assert Record(b, Done).action == b;
  }

  // ---- a clean run has nothing to fear -------------------------------------

  lemma {:induction false} ClearingsLeftBehindFailed(c: Config, ws: seq<World>, events: seq<Event>, i: nat)
    requires Shaped(c.stages) && LateRun(c, ws, events) && i < |ws|
    ensures (exists a :: a in ws[i].pending && a.unblock) ==> ws[i].x.result.failures != []
    decreases i
  {
    if i > 0 {
      ClearingsLeftBehindFailed(c, ws, events, i - 1);
      var w, e := ws[i - 1], events[i - 1];
      if e.Own? { OwnRecordsFailure(c, w.x, e.l); }
    }
  }

  lemma NextRecordsFailure(c: Config, x: State, r: Answer)
    requires Shaped(c.stages) && Enabled(c, x, Next(r))
    ensures x.result.failures != [] ==> Do(c, x, Next(r)).result.failures != []
    ensures r.Faulty? && NextAction(c, x).unblock ==> Do(c, x, Next(r)).result.failures != []
  {
    var a := NextAction(c, x);
    assert x.stage.Removing? ==> a in c.stages.rmdirs;
  }

  lemma FinishRecordsFailure(c: Config, x: State, k: nat, r: Answer)
    requires Shaped(c.stages) && Enabled(c, x, Finish(k, r))
    ensures x.result.failures != [] ==> Do(c, x, Finish(k, r)).result.failures != []
    ensures !Work(c, x)[k].unblock
  {
    assert Work(c, x)[k] in Work(c, x);
  }

  lemma OwnRecordsFailure(c: Config, x: State, l: Label)
    requires Shaped(c.stages) && Enabled(c, x, l)
    ensures x.result.failures != [] ==> Do(c, x, l).result.failures != []
    ensures (exists a :: a in LeftBehind(c, x, l) && a.unblock) ==> Do(c, x, l).result.failures != []
  {
    match l
    case Next(r) => NextRecordsFailure(c, x, r);
    case Finish(k, r) => FinishRecordsFailure(c, x, k, r);
    case GiveUp(k, _) => assert c.stages.copies[k] in c.stages.copies;
    case _ =>
  }

  /** As long as no failure is recorded, every reported success holds and nothing
      that lands can undo it. */
  lemma CleanSuccessesHold(d: Tree, o: Options, prune: Path -> bool, src: ScanResult, dst: ScanResult,
                           c: Config, ws: seq<World>, events: seq<Event>, i: nat, b: Action)
    requires Planned(d, o, prune, src, dst, c) && LateRun(c, ws, events) && ws[0].x.tree == d && i < |ws|
    requires ws[i].x.result.failures == [] && Record(b, Done) in ws[i].x.log
    ensures Holds(c, ws[i].x.tree, b) && !CanBeUndone(c, ws[i], b)
  {
    StagesAreShaped(src, dst, o, c.stages);
    ClearingsLeftBehindFailed(c, ws, events, i);
    SuccessesHold(d, o, prune, src, dst, c, ws, events, i);
    assert Record(b, Done).action == b;
    UndoneExactly(d, o, prune, src, dst, c, ws, events, i, b);
  }

  /** And when every action has been reported done without a failure, planning again
      finds nothing to do, whatever lands. */
  lemma CleanSecondPlanIsEmpty(d: Tree, o: Options, prune: Path -> bool, src: ScanResult, dst: ScanResult,
                               c: Config, ws: seq<World>, events: seq<Event>, again: ScanResult, second: Stages)
    requires Planned(d, o, prune, src, dst, c) && LateRun(c, ws, events) && ws[0].x.tree == d
    requires ws[|events|].x.result.failures == []
    requires forall a :: a in c.stages.All() ==> Record(a, Done) in ws[|events|].x.log
    requires IsScan(ws[|events|].x.tree, NO_FAULTS, prune, again) && IsStages(src, again, o, second)
    ensures second.All() == []
  {
    var t := ws[|events|].x.tree;
    RunFrames(d, o, prune, src, dst, c, ws, events, |events|);
    forall a | a in c.stages.All() ensures Holds(c, t, a) {
      CleanSuccessesHold(d, o, prune, src, dst, c, ws, events, |events|, a);
    }
    AccomplishedIsSettled(d, o, prune, src, dst, c, t, again, second);
  }
}
