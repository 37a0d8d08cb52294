/** The copy stage under every schedule of its workers: each copy's fate is
    settled by the tree the stage started with, whatever the order. */
module Schedules {
  import opened Paths
  import opened Scans
  import opened Differ
  import opened Effects
  import opened Executor
  import opened Gating
  import opened Mirroring
  import opened LateRuns

  /** Distinct files, none beneath another. */
  ghost predicate Antichain(c: Config) {
    && (forall a :: a in c.stages.copies ==> a.kind == Copy)
    && (forall i, j :: 0 <= i < j < |c.stages.copies| ==> c.stages.copies[i].relPath != c.stages.copies[j].relPath)
    && (forall a, b :: a in c.stages.copies && b in c.stages.copies ==> !IsAncestor(a.relPath, b.relPath))
  }

  lemma PlansAreAntichains(src: ScanResult, dst: ScanResult, o: Options, c: Config)
    requires ScanOk(src) && IsStages(src, dst, o, c.stages)
    ensures Antichain(c)
  {
    StrictIsOrdered(Lexical, c.stages.copies);
    forall a, b | a in c.stages.copies && b in c.stages.copies ensures !IsAncestor(a.relPath, b.relPath) {
      assert IsCopy(src, dst, o, a) && IsCopy(src, dst, o, b);
    }
    forall a | a in c.stages.copies ensures a.kind == Copy { assert IsCopy(src, dst, o, a); }
  }

  ghost predicate Same(t: Tree, u: Tree, p: Path) {
    (p in t <==> p in u) && (p in t ==> t[p] == u[p])
  }

  /** How a copy ends if the stage starts from this tree and nothing fails. */
  ghost function Fate(c: Config, base: Tree, a: Action): Outcome {
    if a.relPath !in c.source then Vanished
    else if c.source[a.relPath].File? && Publishable(base, a.relPath) then Done
    else Failed(Other)
  }

  ghost predicate Stamped(c: Config, t: Tree, a: Action) {
    && a.relPath in c.source && c.source[a.relPath].File? && a.relPath in t && t[a.relPath].File?
    && t[a.relPath].data == c.source[a.relPath].data
    && (a.modTime != ZERO_TIME ==> Near(t[a.relPath].mtime, a.modTime, c.rounding))
  }

  /** No copy to this path has finished. */
  ghost predicate Untouched(p: Pool, copies: seq<Action>, q: Path) {
    forall k :: 0 <= k < |p.status| && k < |copies| && copies[k].relPath == q ==> p.status[k] != Finished
  }

  /** Where each copy stands: untouched until it finishes, and then as its fate
      says. Nothing else has changed. */
  ghost predicate Fated(c: Config, x: State) {
    x.stage.Copying? ==>
      var p, base := x.stage.pool, x.stage.base;
      && |p.status| == |c.stages.copies|
      && (forall q :: Untouched(p, c.stages.copies, q) ==> Same(x.tree, base, q))
      && forall k :: 0 <= k < |p.status| && p.status[k] == Finished ==> Settles(c, x, k)
  }

  ghost predicate Settles(c: Config, x: State, k: nat)
    requires x.stage.Copying? && k < |c.stages.copies|
  {
    var a := c.stages.copies[k];
    && Record(a, Fate(c, x.stage.base, a)) in x.log
    && if Fate(c, x.stage.base, a) == Done then Stamped(c, x.tree, a) else Same(x.tree, x.stage.base, a.relPath)
  }

  /** An honest world that may also find source files gone only if they are. */
  predicate Honestly(l: Label) {
    match l
    case Next(r) => r.Honest?
    case Finish(_, r) => r.Honest?
    case GiveUp(_, _) => false
    case Leave(_) => false
    case _ => true
  }

  /** Other copies leave a copy's way as it was. */
  lemma SamePublishable(c: Config, x: State, k: nat)
    requires Antichain(c) && x.stage.Copying? && Fated(c, x) && k < |c.stages.copies|
    requires x.stage.pool.status[k] != Finished
    ensures Same(x.tree, x.stage.base, c.stages.copies[k].relPath)
    ensures Publishable(x.tree, c.stages.copies[k].relPath) <==> Publishable(x.stage.base, c.stages.copies[k].relPath)
  {
    var p := c.stages.copies[k].relPath;
    assert c.stages.copies[k] in c.stages.copies;
    assert Untouched(x.stage.pool, c.stages.copies, p);
    forall a | IsAncestor(a, p) ensures Same(x.tree, x.stage.base, a) {
      assert forall j :: 0 <= j < |c.stages.copies| ==> c.stages.copies[j] in c.stages.copies;
      assert Untouched(x.stage.pool, c.stages.copies, a);
    }
  }

  lemma FinishFated(c: Config, x: State, k: nat, r: Answer)
    requires Antichain(c) && x.stage.Copying? && Fated(c, x) && Enabled(c, x, Finish(k, r)) && r.Honest?
    ensures Fated(c, Do(c, x, Finish(k, r)))
  {
    var a, u := c.stages.copies[k], Do(c, x, Finish(k, r));
    assert a in c.stages.copies;
    SamePublishable(c, x, k);
    assert OutcomeOf(c, x.tree, a, r) == Fate(c, x.stage.base, a);
    assert u.log == x.log + [Record(a, Fate(c, x.stage.base, a))] && u.stage.base == x.stage.base;
    assert forall q :: q != a.relPath ==> Same(u.tree, x.tree, q);
    forall j | 0 <= j < |c.stages.copies| && u.stage.pool.status[j] == Finished ensures Settles(c, u, j) {
      if j != k {
        assert Settles(c, x, j);
        assert c.stages.copies[j].relPath != a.relPath;
      }
    }
    forall q | Untouched(u.stage.pool, c.stages.copies, q) ensures Same(u.tree, x.stage.base, q) {
      assert u.stage.pool.status[k] == Finished;
      assert q != a.relPath && Untouched(x.stage.pool, c.stages.copies, q);
    }
  }

  lemma MoveFated(c: Config, x: State, l: Label)
    requires x.stage.Copying? && Fated(c, x) && InOrder(c, x) && Enabled(c, x, l) && (l.Feed? || l.Begin? || l.Close?)
    ensures Fated(c, Do(c, x, l))
  {
    var u := Do(c, x, l);
    assert u.tree == x.tree && u.log == x.log && u.stage.base == x.stage.base;
    assert forall k :: 0 <= k < |c.stages.copies| ==>
        (u.stage.pool.status[k] == Finished <==> x.stage.pool.status[k] == Finished);
    assert forall q :: Untouched(u.stage.pool, c.stages.copies, q) ==> Untouched(x.stage.pool, c.stages.copies, q);
    forall k | 0 <= k < |c.stages.copies| && u.stage.pool.status[k] == Finished ensures Settles(c, u, k) {
      assert Settles(c, x, k);
    }
  }

  lemma StepFated(c: Config, x: State, l: Label, u: State)
    requires Antichain(c) && Fated(c, x) && Sound(c, x) && Enabled(c, x, l) && Honestly(l) && u == Do(c, x, l)
    ensures Fated(c, u)
  {
    match l
    case Finish(k, r) => if x.stage.Copying? { FinishFated(c, x, k, r); }
    case Feed => if x.stage.Copying? { MoveFated(c, x, l); }
    case Begin(_) => if x.stage.Copying? { MoveFated(c, x, l); }
    case Close => if x.stage.Copying? { MoveFated(c, x, l); }
    case Cancel => CancelFated(c, x);
    case Next(_) =>
    case Advance =>
  }

  lemma CancelFated(c: Config, x: State)
    requires Fated(c, x)
    ensures Fated(c, Do(c, x, Cancel))
  {
    var u := Do(c, x, Cancel);
    if x.stage.Copying? {
      forall k | 0 <= k < |c.stages.copies| && u.stage.pool.status[k] == Finished ensures Settles(c, u, k) {
        assert Settles(c, x, k);
      }
    }
  }

  lemma {:induction false} RunIsFated(c: Config, states: seq<State>, labels: seq<Label>, i: nat)
    requires Shaped(c.stages) && Antichain(c) && Run(c, states, labels) && i < |states|
    requires forall k :: 0 <= k < |labels| ==> Honestly(labels[k])
    ensures Fated(c, states[i])
    decreases i
  {
    if i > 0 {
      RunIsFated(c, states, labels, i - 1);
      RunIsSound(c, states, labels, i - 1);
      assert Honestly(labels[i - 1]);
      StepFated(c, states[i - 1], labels[i - 1], states[i]);
    }
  }

  /** Two runs whose copy stages start from one tree and wind down undisturbed
      agree: every copy ends the same way in both, and the trees hold the same
      paths, the same kinds and the same contents, whatever the schedules. */
  lemma ScheduleDoesNotMatter(c: Config, s1: seq<State>, l1: seq<Label>, i: nat,
                              s2: seq<State>, l2: seq<Label>, j: nat, q: Path)
    requires Shaped(c.stages) && Antichain(c) && Run(c, s1, l1) && Run(c, s2, l2) && i < |s1| && j < |s2|
    requires forall k :: 0 <= k < |l1| ==> Honestly(l1[k])
    requires forall k :: 0 <= k < |l2| ==> Honestly(l2[k])
    requires s1[i].stage.Copying? && s2[j].stage.Copying? && s1[i].stage.base == s2[j].stage.base
    requires Settled(s1[i].stage.pool) && Settled(s2[j].stage.pool) && !s1[i].Halted() && !s2[j].Halted()
    ensures forall a :: a in c.stages.copies ==>
      Record(a, Fate(c, s1[i].stage.base, a)) in s1[i].log && Record(a, Fate(c, s1[i].stage.base, a)) in s2[j].log
    ensures q in s1[i].tree <==> q in s2[j].tree
    ensures q in s1[i].tree ==>
      && s1[i].tree[q].File? == s2[j].tree[q].File? && s1[i].tree[q].Dir? == s2[j].tree[q].Dir?
      && (s1[i].tree[q].File? ==> s1[i].tree[q].data == s2[j].tree[q].data)
  {
    RunIsSound(c, s1, l1, i);
    RunIsSound(c, s2, l2, j);
    RunIsFated(c, s1, l1, i);
    RunIsFated(c, s2, l2, j);
    WindsDown(c, s1[i]);
    WindsDown(c, s2[j]);
    forall a | a in c.stages.copies ensures
      Record(a, Fate(c, s1[i].stage.base, a)) in s1[i].log && Record(a, Fate(c, s1[i].stage.base, a)) in s2[j].log
    {
      var k :| 0 <= k < |c.stages.copies| && c.stages.copies[k] == a;
      assert Settles(c, s1[i], k) && Settles(c, s2[j], k);
    }
    if k :| 0 <= k < |c.stages.copies| && c.stages.copies[k].relPath == q {
      assert Settles(c, s1[i], k) && Settles(c, s2[j], k);
    } else {
      assert Untouched(s1[i].stage.pool, c.stages.copies, q) && Untouched(s2[j].stage.pool, c.stages.copies, q);
    }
  }

  lemma WindsDown(c: Config, x: State)
    requires InOrder(c, x) && x.stage.Copying? && Settled(x.stage.pool) && !x.Halted()
    ensures forall k :: 0 <= k < |c.stages.copies| ==> x.stage.pool.status[k] == Finished
  {
  }

  // ---- with failures, cancels, aborts and late effects ---------------------

  /** An effect that nobody reported as a success changes this path in the copy
      stage: a copy that failed or was given up on, or an operation of any stage
      that lands late. */
  ghost predicate StrayStep(w: World, e: Event, v: World, q: Path) {
    && w.x.stage.Copying? && !Same(v.x.tree, w.x.tree, q)
    && match e
       case Lands(_, _) => true
       case Own(Finish(_, r)) => r.Faulty?
       case Own(GiveUp(_, _)) => true
       case _ => false
  }

  ghost predicate Strayed(ws: seq<World>, events: seq<Event>, i: nat, q: Path)
    requires |ws| == |events| + 1 && i < |ws|
  {
    exists j {:trigger events[j]} :: 0 <= j < i && StrayStep(ws[j], events[j], ws[j + 1], q)
  }

  /** The operations that can change this path: those at it, and a mkdir beneath. */
  ghost predicate Reaches(a: Action, q: Path) {
    a.relPath == q || (a.kind == MkDir && IsAncestor(q, a.relPath))
  }

  lemma EffectReaches(t: Tree, a: Action, u: Tree, q: Path)
    requires CanBecome(t, a, u) && !Same(u, t, q)
    ensures Reaches(a, q)
  {
  }

  /** Whatever strays has an operation left behind that reaches it. */
  lemma StrayIsPending(c: Config, w: World, e: Event, q: Path)
    requires CanHappen(c, w, e) && StrayStep(w, e, Happen(c, w, e), q)
    ensures exists a :: a in Happen(c, w, e).pending && Reaches(a, q)
  {
    var v := Happen(c, w, e);
    match e
    case Lands(a, after) => EffectReaches(w.x.tree, a, after, q);
    case Own(l) =>
      if l.Finish? {
        var a := Work(c, w.x)[l.k];
        OperationIsEffect(c, w.x.tree, a, l.answer);
        EffectReaches(w.x.tree, a, v.x.tree, q);
        assert a in v.pending;
      } else {
        var a := c.stages.copies[l.k];
        EffectReaches(w.x.tree, a, v.x.tree, q);
        assert a in v.pending;
      }
  }

  /** What stands at this path is what its copy, if that has succeeded, put there,
      and otherwise what the stage found. */
  ghost predicate Landed(c: Config, x: State, q: Path) {
    x.stage.Copying? ==>
      if exists a :: a in c.stages.copies && a.relPath == q && Record(a, Done) in x.log
      then forall a :: a in c.stages.copies && a.relPath == q ==> Stamped(c, x.tree, a)
      else Same(x.tree, x.stage.base, q)
  }

  lemma SameKeepsLanded(c: Config, x: State, u: State, q: Path)
    requires Landed(c, x, q) && x.stage.Copying? && u.stage.Copying? && u.stage.base == x.stage.base
    requires Same(u.tree, x.tree, q)
    requires forall a :: a in c.stages.copies && a.relPath == q ==> (Record(a, Done) in u.log <==> Record(a, Done) in x.log)
    ensures Landed(c, u, q)
  {
  }

  lemma FinishLands(c: Config, x: State, k: nat, r: Answer, q: Path)
    requires Antichain(c) && x.stage.Copying? && Landed(c, x, q) && Enabled(c, x, Finish(k, r))
    requires r.Faulty? ==> Same(Do(c, x, Finish(k, r)).tree, x.tree, q)
    ensures Landed(c, Do(c, x, Finish(k, r)), q)
  {
    var a, u := c.stages.copies[k], Do(c, x, Finish(k, r));
    var o := OutcomeOf(c, x.tree, a, r);
    assert a in c.stages.copies && u.log == x.log + [Record(a, o)];
    if q == a.relPath && o == Done {
      assert Stamped(c, u.tree, a) && Record(a, Done) in u.log;
      forall b | b in c.stages.copies && b.relPath == q ensures b == a { OnePerPath(c, a, b); }
    } else {
      assert Same(u.tree, x.tree, q);
      SameKeepsLanded(c, x, u, q);
    }
  }

  lemma OnePerPath(c: Config, a: Action, b: Action)
    requires Antichain(c) && a in c.stages.copies && b in c.stages.copies && a.relPath == b.relPath
    ensures a == b
  {
    var i :| 0 <= i < |c.stages.copies| && c.stages.copies[i] == a;
    var j :| 0 <= j < |c.stages.copies| && c.stages.copies[j] == b;
  }

  lemma EntryLands(c: Config, x: State, q: Path)
    requires Shaped(c.stages) && Timely(c, x) && x.stage.Making? && Enabled(c, x, Advance)
    ensures Landed(c, Do(c, x, Advance), q)
  {
    var u := Do(c, x, Advance);
    if u.stage.Copying? {
      assert u.tree == u.stage.base && u.log == x.log;
      assert forall a :: a in c.stages.copies ==> Record(a, Done) !in x.log;
    }
  }

  lemma OwnLands(c: Config, x: State, l: Label, q: Path, u: State)
    requires Shaped(c.stages) && Antichain(c) && Timely(c, x) && Enabled(c, x, l) && u == Do(c, x, l) && Landed(c, x, q)
    requires x.stage.Copying? && (l.GiveUp? || (l.Finish? && l.answer.Faulty?)) ==> Same(u.tree, x.tree, q)
    ensures Landed(c, u, q)
  {
    if x.stage.Copying? && l.Finish? {
      FinishLands(c, x, l.k, l.answer, q);
    } else if x.stage.Copying? && u.stage.Copying? {
      assert u.log == x.log && Same(u.tree, x.tree, q);
      SameKeepsLanded(c, x, u, q);
    } else if x.stage.Making? && l.Advance? {
      EntryLands(c, x, q);
    }
  }

  /** At every moment of the copy stage of every run, whatever fails and however late
      it lands, every path that no stray effect has changed is as the stage found
      it, or as its copy, reported done, left it. */
  lemma {:induction false} RunLands(c: Config, ws: seq<World>, events: seq<Event>, i: nat, q: Path)
    requires Shaped(c.stages) && Antichain(c) && LateRun(c, ws, events) && i < |ws|
    ensures !Strayed(ws, events, i, q) ==> Landed(c, ws[i].x, q)
    decreases i
  {
    if i > 0 && !Strayed(ws, events, i, q) {
      var w, e, v := ws[i - 1], events[i - 1], ws[i];
      RunLands(c, ws, events, i - 1, q);
      LateRunIsSound(c, ws, events, i - 1);
      assert !StrayStep(w, e, v, q);
      match e
      case Own(l) => OwnLands(c, w.x, l, q, v.x);
      case Lands(_, _) => if w.x.stage.Copying? { SameKeepsLanded(c, w.x, v.x, q); }
    }
  }

  /** At any moment of the copy stage, through failures, late effects, cancels and
      aborts, what stands at a path depends only on whether its copy has
      succeeded: two runs of any schedules that agree on that agree on its kind
      and content, unless a stray effect has changed it in one of them. */
  lemma TreeIsWhatSucceeded(c: Config, ws: seq<World>, es: seq<Event>, i: nat,
                            vs: seq<World>, fs: seq<Event>, j: nat, q: Path)
    requires Shaped(c.stages) && Antichain(c) && LateRun(c, ws, es) && LateRun(c, vs, fs) && i < |ws| && j < |vs|
    requires ws[i].x.stage.Copying? && vs[j].x.stage.Copying? && ws[i].x.stage.base == vs[j].x.stage.base
    requires forall a :: a in c.stages.copies && a.relPath == q ==>
      (Record(a, Done) in ws[i].x.log <==> Record(a, Done) in vs[j].x.log)
    requires !Strayed(ws, es, i, q) && !Strayed(vs, fs, j, q)
    ensures var t, u := ws[i].x.tree, vs[j].x.tree;
      && (q in t <==> q in u)
      && (q in t ==> t[q].File? == u[q].File? && t[q].Dir? == u[q].Dir? && (t[q].File? ==> t[q].data == u[q].data))
  {
    RunLands(c, ws, es, i, q);
    RunLands(c, vs, fs, j, q);
    if a :| a in c.stages.copies && a.relPath == q && Record(a, Done) in ws[i].x.log {
      assert Stamped(c, ws[i].x.tree, a) && Stamped(c, vs[j].x.tree, a);
    }
  }
}
