/** Idempotence: after a run in which every action succeeded, planning again
    finds nothing to do. In either mode, under any filter. */
module Idempotence {
  import opened Paths
  import opened Sorting
  import opened Scans
  import opened Differ
  import opened Effects
  import opened Executor
  import opened Gating

  /** A plan made from a listing of the source and a complete one of the
      destination, pruned only where the filter lets nothing in. */
  ghost predicate Planned(d: Tree, o: Options, prune: Path -> bool, src: ScanResult, dst: ScanResult, c: Config) {
    && TreeOk(c.source) && ScanOk(src) && Reflects(src, c.source)
    && TreeOk(d) && IsScan(d, NO_FAULTS, prune, dst) && PruneSound(prune, o)
    && !o.caseInsensitive && IsStages(src, dst, o, c.stages)
    && c.rounding <= o.tolerance <= MAX_DURATION
    && (forall p :: p in c.source && c.source[p].File? ==> c.source[p].mtime != ZERO_TIME)
  }

  // ---- what a run cannot change -------------------------------------------

  /** What the source does not list can only disappear, and what it lists stays
      as it is unless the plan clears or copies it. */
  ghost predicate Framed(src: ScanResult, dst: ScanResult, o: Options, d: Tree, t: Tree) {
    && (forall p :: p in t && p !in src.entries ==> p in d && t[p] == d[p])
    && (forall p :: p in d && p in src.entries && !WantsUnblock(src, dst, o, p) && !WantsCopy(src, dst, o, p) ==>
          p in t && t[p] == d[p])
  }

  /** Directories are made only where the source has directories. */
  lemma MkdirsAreSourceDirs(src: ScanResult, dst: ScanResult, o: Options, a: Action)
    requires ScanOk(src) && IsMkdir(src, dst, o, a)
    ensures a.relPath in src.entries && src.entries[a.relPath].isDir
    ensures forall q :: IsAncestor(q, a.relPath) ==> q in src.entries && src.entries[q].isDir
  {
  }

  lemma FrameStep(d: Tree, o: Options, prune: Path -> bool, src: ScanResult, dst: ScanResult, c: Config,
                  t: Tree, a: Action, u: Tree)
    requires Planned(d, o, prune, src, dst, c) && TreeOk(t) && Framed(src, dst, o, d, t)
    requires a in c.stages.All() && CanBecome(t, a, u)
    ensures Framed(src, dst, o, d, u)
  {
    ActionMeaning(src, dst, o, c.stages, a);
    forall p | p in u && p !in src.entries ensures p in d && u[p] == d[p] {
      NothingElseMade(d, o, prune, src, dst, c, t, a, u, p);
      OnlyItsOwnPath(t, a, u, p);
    }
    forall p | p in d && p in src.entries && !WantsUnblock(src, dst, o, p) && !WantsCopy(src, dst, o, p)
      ensures p in u && u[p] == d[p]
    {
      OnlyItsOwnPath(t, a, u, p);
    }
  }

  /** Nothing is made where the source has nothing. */
  lemma NothingElseMade(d: Tree, o: Options, prune: Path -> bool, src: ScanResult, dst: ScanResult, c: Config,
                        t: Tree, a: Action, u: Tree, p: Path)
    requires Planned(d, o, prune, src, dst, c) && a in c.stages.All() && CanBecome(t, a, u)
    requires p in u && p !in src.entries
    ensures p in t
  {
    ActionMeaning(src, dst, o, c.stages, a);
    if a.kind == MkDir {
      MkdirsAreSourceDirs(src, dst, o, a);
    }
  }

  // ---- what a run achieves ------------------------------------------------

  /** A successful action has left its mark. */
  ghost predicate Holds(c: Config, t: Tree, a: Action) {
    match a.kind
    case Copy =>
      && a.relPath in c.source && c.source[a.relPath].File? && a.relPath in t && t[a.relPath].File?
      && t[a.relPath].data == c.source[a.relPath].data
      && (a.modTime != ZERO_TIME ==> Near(t[a.relPath].mtime, a.modTime, c.rounding))
    case MkDir => a.relPath in t && t[a.relPath] == Dir
    case Delete => !a.unblock ==> a.relPath !in t
    case RmDir => !a.unblock ==> a.relPath !in t
  }

  /** Every success so far still holds, and no copy is logged before it finishes. */
  ghost predicate Achieved(c: Config, x: State) {
    && (forall r :: r in x.log && r.outcome == Done ==> Holds(c, x.tree, r.action))
    && OnlyFinishedLogged(c, x)
  }

  ghost predicate OnlyFinishedLogged(c: Config, x: State) {
    x.stage.Copying? ==>
      forall k :: 0 <= k < |x.stage.pool.status| && k < |c.stages.copies| && x.stage.pool.status[k] != Finished ==>
        !Logged(x.log, c.stages.copies[k])
  }

  lemma FinishLogsOne(c: Config, x: State, k: nat, o: Outcome, t: Tree)
    requires Strict(Lexical, PathOf, c.stages.copies) && Busy(c, x, k) && OnlyFinishedLogged(c, x)
    ensures OnlyFinishedLogged(c, FinishWith(c, x, k, o, t))
  {
    var u := FinishWith(c, x, k, o, t);
    if x.stage.Copying? {
      forall j | 0 <= j < |x.stage.pool.status| && j < |c.stages.copies| && u.stage.pool.status[j] != Finished
        ensures !Logged(u.log, c.stages.copies[j])
      {
        assert PathOf(c.stages.copies[j]) != PathOf(c.stages.copies[k]);
      }
    }
  }

  /** A success leaves its mark at once. */
  lemma DoneHolds(c: Config, t: Tree, a: Action, r: Answer)
    requires Possible(c, t, a, r) && OutcomeOf(c, t, a, r) == Done && a.relPath != ""
    ensures Holds(c, TreeAfter(c, t, a, r), a)
  {
  }

  lemma CopyHoldsStays(c: Config, t: Tree, a: Action, u: Tree, b: Action)
    requires TreeOk(t) && CanBecome(t, a, u) && b.kind == Copy && Holds(c, t, b) && a.relPath != b.relPath
    ensures Holds(c, u, b)
  {
    OnlyItsOwnPath(t, a, u, b.relPath);
  }

  lemma MkdirHoldsStays(c: Config, t: Tree, a: Action, u: Tree, b: Action)
    requires TreeOk(t) && CanBecome(t, a, u) && b.kind == MkDir && Holds(c, t, b)
    requires a.relPath == b.relPath ==> a.kind == MkDir
    ensures Holds(c, u, b)
  {
    OnlyItsOwnPath(t, a, u, b.relPath);
  }

  lemma ClearingHolds(src: ScanResult, dst: ScanResult, o: Options, c: Config, t: Tree, b: Action)
    requires IsStages(src, dst, o, c.stages) && b in c.stages.All() && b.unblock
    ensures Holds(c, t, b)
  {
    ActionMeaning(src, dst, o, c.stages, b);
  }

  /** What has gone stays gone: nothing of the plan makes it again. */
  lemma RemovalHoldsStays(d: Tree, o: Options, prune: Path -> bool, src: ScanResult, dst: ScanResult, c: Config,
                          t: Tree, a: Action, u: Tree, b: Action)
    requires Planned(d, o, prune, src, dst, c) && a in c.stages.All() && b in c.stages.All() && Trailing(b)
    requires CanBecome(t, a, u) && Holds(c, t, b)
    ensures Holds(c, u, b)
  {
    ActionMeaning(src, dst, o, c.stages, b);
    if b.relPath in u { NothingElseMade(d, o, prune, src, dst, c, t, a, u, b.relPath); }
  }

  /** Two actions at one path: one of them clears it. */
  lemma SharedPath(d: Tree, o: Options, prune: Path -> bool, src: ScanResult, dst: ScanResult, c: Config,
                   a: Action, b: Action)
    requires Planned(d, o, prune, src, dst, c) && a in c.stages.All() && b in c.stages.All()
    ensures a != b && a.relPath == b.relPath ==> a.unblock != b.unblock
  {
    ActionMeaning(src, dst, o, c.stages, a);
    ActionMeaning(src, dst, o, c.stages, b);
  }

  /** No action of the plan undoes what another achieved, but for a clearing at the
      same path. */
  lemma HoldsStays(d: Tree, o: Options, prune: Path -> bool, src: ScanResult, dst: ScanResult, c: Config,
                   t: Tree, a: Action, u: Tree, b: Action)
    requires Planned(d, o, prune, src, dst, c) && TreeOk(t)
    requires a in c.stages.All() && b in c.stages.All() && CanBecome(t, a, u) && Holds(c, t, b)
    requires a.unblock && a.relPath == b.relPath ==> b.unblock
    requires a == b ==> b.kind != Copy
    ensures Holds(c, u, b)
  {
    SharedPath(d, o, prune, src, dst, c, a, b);
    if b.unblock {
      ClearingHolds(src, dst, o, c, u, b);
    } else {
      match b.kind
      case Copy => CopyHoldsStays(c, t, a, u, b);
      case MkDir => MkdirHoldsStays(c, t, a, u, b);
      case Delete => RemovalHoldsStays(d, o, prune, src, dst, c, t, a, u, b);
      case RmDir => RemovalHoldsStays(d, o, prune, src, dst, c, t, a, u, b);
    }
  }

  /** One logged operation of a run. */
  lemma OperationAchieved(d: Tree, o: Options, prune: Path -> bool, src: ScanResult, dst: ScanResult, c: Config,
                          x: State, a: Action, r: Answer)
    requires Planned(d, o, prune, src, dst, c) && TreeOk(x.tree) && Sound(c, x) && Achieved(c, x)
    requires a in c.stages.All() && Possible(c, x.tree, a, r)
    requires x.stage.Clearing? ==> a in c.stages.unblocks
    requires a in c.stages.unblocks ==> x.stage.Clearing?
    requires a in c.stages.mkdirs ==> x.stage.Making?
    requires a in c.stages.copies ==> x.stage.Copying? && !Logged(x.log, a)
    ensures forall b :: b in x.log + [Record(a, OutcomeOf(c, x.tree, a, r))] && b.outcome == Done ==>
      Holds(c, TreeAfter(c, x.tree, a, r), b.action)
  {
    var u := TreeAfter(c, x.tree, a, r);
    OperationIsEffect(c, x.tree, a, r);
    if OutcomeOf(c, x.tree, a, r) == Done {
      NotTheRoot(d, o, prune, src, dst, c, a);
      DoneHolds(c, x.tree, a, r);
    }
    forall b | b in x.log && b.outcome == Done ensures Holds(c, u, b.action) {
      assert b == Record(b.action, b.outcome);
      StaysInTurn(d, o, prune, src, dst, c, x, a, b.action);
      HoldsStays(d, o, prune, src, dst, c, x.tree, a, u, b.action);
    }
  }

  lemma NotTheRoot(d: Tree, o: Options, prune: Path -> bool, src: ScanResult, dst: ScanResult, c: Config, a: Action)
    requires Planned(d, o, prune, src, dst, c) && a in c.stages.All()
    ensures a.relPath != ""
  {
    ActionMeaning(src, dst, o, c.stages, a);
    if a in c.stages.mkdirs && IsMkdir(src, dst, o, a) {
      MkdirsAreSourceDirs(src, dst, o, a);
    }
  }

  /** Clearings come before all else, and a copy is logged once. */
  lemma StaysInTurn(d: Tree, o: Options, prune: Path -> bool, src: ScanResult, dst: ScanResult, c: Config,
                    x: State, a: Action, b: Action)
    requires Planned(d, o, prune, src, dst, c) && Timely(c, x) && Logged(x.log, b) && a in c.stages.All()
    requires a in c.stages.unblocks ==> x.stage.Clearing?
    requires a in c.stages.copies ==> !Logged(x.log, a)
    ensures b in c.stages.All() && (a.unblock ==> b.unblock) && (a == b ==> b.kind != Copy)
  {
    var r :| Record(b, r) in x.log;
    assert Record(b, r).action == b;
    ActionMeaning(src, dst, o, c.stages, a);
  }

  lemma NextAchieved(d: Tree, o: Options, prune: Path -> bool, src: ScanResult, dst: ScanResult, c: Config,
                     x: State, r: Answer)
    requires Planned(d, o, prune, src, dst, c) && TreeOk(x.tree) && Sound(c, x) && Achieved(c, x)
    requires Enabled(c, x, Next(r))
    ensures Achieved(c, Do(c, x, Next(r)))
  {
    StagesAreShaped(src, dst, o, c.stages);
    var a := NextAction(c, x);
    assert a in c.stages.unblocks || a in c.stages.mkdirs || a in c.stages.rmdirs;
    assert a in c.stages.All();
    OperationAchieved(d, o, prune, src, dst, c, x, a, r);
  }

  lemma FinishAchieved(d: Tree, o: Options, prune: Path -> bool, src: ScanResult, dst: ScanResult, c: Config,
                       x: State, k: nat, r: Answer)
    requires Planned(d, o, prune, src, dst, c) && TreeOk(x.tree) && Sound(c, x) && Achieved(c, x)
    requires Enabled(c, x, Finish(k, r))
    ensures Achieved(c, Do(c, x, Finish(k, r)))
  {
    StagesAreShaped(src, dst, o, c.stages);
    var a := Work(c, x)[k];
    assert a in Work(c, x) && a in c.stages.All();
    OperationAchieved(d, o, prune, src, dst, c, x, a, r);
    FinishLogsOne(c, x, k, OutcomeOf(c, x.tree, a, r), TreeAfter(c, x.tree, a, r));
  }

  lemma GiveUpAchieved(d: Tree, o: Options, prune: Path -> bool, src: ScanResult, dst: ScanResult, c: Config,
                       x: State, k: nat, after: Tree)
    requires Planned(d, o, prune, src, dst, c) && TreeOk(x.tree) && Sound(c, x) && Achieved(c, x)
    requires Enabled(c, x, GiveUp(k, after))
    ensures Achieved(c, Do(c, x, GiveUp(k, after)))
  {
    StagesAreShaped(src, dst, o, c.stages);
    var a := c.stages.copies[k];
    assert a in c.stages.copies && a in c.stages.All();
    forall b | b in x.log && b.outcome == Done ensures Holds(c, after, b.action) {
      assert b == Record(b.action, b.outcome);
      StaysInTurn(d, o, prune, src, dst, c, x, a, b.action);
      HoldsStays(d, o, prune, src, dst, c, x.tree, a, after, b.action);
    }
  }

  lemma StepAchieved(d: Tree, o: Options, prune: Path -> bool, src: ScanResult, dst: ScanResult, c: Config,
                     x: State, l: Label)
    requires Planned(d, o, prune, src, dst, c) && TreeOk(x.tree) && Sound(c, x) && Achieved(c, x)
    requires Enabled(c, x, l)
    ensures Achieved(c, Do(c, x, l))
  {
    match l
    case Next(r) => NextAchieved(d, o, prune, src, dst, c, x, r);
    case Finish(k, r) => FinishAchieved(d, o, prune, src, dst, c, x, k, r);
    case GiveUp(k, after) => GiveUpAchieved(d, o, prune, src, dst, c, x, k, after);
    case Advance =>
      StagesAreShaped(src, dst, o, c.stages);
      AdvanceAchieved(c, x);
    case Cancel =>
    case _ => PoolAchieved(c, x, l);
  }

  lemma AdvanceAchieved(c: Config, x: State)
    requires Shaped(c.stages) && Timely(c, x) && Achieved(c, x) && Enabled(c, x, Advance)
    ensures Achieved(c, Do(c, x, Advance))
  {
    if x.stage.Making? {
      forall k | 0 <= k < |c.stages.copies| ensures !Logged(x.log, c.stages.copies[k]) {
        assert c.stages.copies[k] in c.stages.copies;
      }
    }
  }

  lemma PoolAchieved(c: Config, x: State, l: Label)
    requires InOrder(c, x) && Achieved(c, x) && Enabled(c, x, l) && (l.Feed? || l.Close? || l.Begin? || l.Leave?)
    ensures Achieved(c, Do(c, x, l))
  {
    var u := Do(c, x, l);
    assert u.log == x.log && u.tree == x.tree && u.stage.Copying? == x.stage.Copying?;
    assert forall k :: 0 <= k < |x.stage.pool.status| && x.stage.pool.status[k] == Finished ==>
        u.stage.pool.status[k] == Finished;
  }

  lemma {:induction false} RunAchieves(d: Tree, o: Options, prune: Path -> bool, src: ScanResult, dst: ScanResult,
                                       c: Config, states: seq<State>, labels: seq<Label>, i: nat)
    requires Planned(d, o, prune, src, dst, c) && Run(c, states, labels) && states[0].tree == d && i < |states|
    ensures TreeOk(states[i].tree) && Framed(src, dst, o, d, states[i].tree) && Achieved(c, states[i])
    decreases i
  {
    if i > 0 {
      RunAchieves(d, o, prune, src, dst, c, states, labels, i - 1);
      var x, l := states[i - 1], labels[i - 1];
      StagesAreShaped(src, dst, o, c.stages);
      RunIsSound(c, states, labels, i - 1);
      StepAchieved(d, o, prune, src, dst, c, x, l);
      StepWorks(c, x, l);
      if states[i].tree != x.tree {
        var a :| a in c.stages.All() && CanBecome(x.tree, a, states[i].tree);
        EffectKeepsTree(x.tree, a, states[i].tree);
        FrameStep(d, o, prune, src, dst, c, x.tree, a, states[i].tree);
      }
    }
  }

  // ---- planning again -----------------------------------------------------

  /** A finished run: everything in the plan succeeded. */
  ghost predicate Accomplished(d: Tree, o: Options, prune: Path -> bool, src: ScanResult, dst: ScanResult, c: Config,
                               t: Tree)
  {
    && Planned(d, o, prune, src, dst, c) && TreeOk(t) && Framed(src, dst, o, d, t)
    && forall a :: a in c.stages.All() ==> Holds(c, t, a)
  }

  /** A copy within the tolerance is the same file. */
  lemma NearIsSame(p: Path, s: Node, t: Node, o: Options, rounding: nat)
    requires s.File? && t.File? && s.data == t.data && Near(t.mtime, s.mtime, rounding)
    requires rounding <= o.tolerance <= MAX_DURATION
    ensures SameFile(EntryOf(p, s), EntryOf(p, t), o)
  {
  }

  lemma NothingWanted(d: Tree, o: Options, prune: Path -> bool, src: ScanResult, dst: ScanResult, c: Config,
                      t: Tree, again: ScanResult, p: Path)
    requires Accomplished(d, o, prune, src, dst, c, t) && IsScan(t, NO_FAULTS, prune, again)
    ensures !WantsUnblock(src, again, o, p) && !WantsMkdir(src, again, o, p) && !WantsCopy(src, again, o, p)
  {
    if Live(src, o, p) {
      var isDir := src.entries[p].isDir;
      if WantsMkdir(src, dst, o, p) {
        assert IsMkdir(src, dst, o, MkdirAction(p)) && MkdirAction(p) in c.stages.All();
        assert Holds(c, t, MkdirAction(p));
        AdmittedIsListed(t, prune, o, p, isDir);
      } else if WantsCopy(src, dst, o, p) {
        var e := src.entries[p];
        var a := Action(Copy, p, e.size, e.modTime, false, p in dst.entries && !Clash(src, dst, p));
        assert IsCopy(src, dst, o, a) && a in c.stages.All();
        assert Holds(c, t, a);
        AdmittedIsListed(t, prune, o, p, isDir);
        NearIsSame(p, c.source[p], t[p], o, c.rounding);
      } else {
        assert p in dst.entries && p in d;
        assert Listed(d, NO_FAULTS, prune, p);
        AdmittedIsListed(t, prune, o, p, isDir);
        assert again.entries[p] == dst.entries[p];
      }
    }
  }

  lemma RemovedIsGone(d: Tree, o: Options, prune: Path -> bool, src: ScanResult, dst: ScanResult, c: Config,
                      t: Tree, p: Path)
    requires Accomplished(d, o, prune, src, dst, c, t)
    requires Extraneous(src, dst, o, p) && !Guarded(src, dst, o)
    ensures p !in t
  {
    var a := if dst.entries[p].isDir then Action(RmDir, p, 0, ZERO_TIME, false, false)
             else Action(Delete, p, dst.entries[p].size, ZERO_TIME, false, false);
    assert IsDelete(src, dst, o, a) || IsRmdir(src, dst, o, a);
    assert a in c.stages.All() && Holds(c, t, a);
  }

  lemma NothingExtraneous(d: Tree, o: Options, prune: Path -> bool, src: ScanResult, dst: ScanResult, c: Config,
                          t: Tree, again: ScanResult, p: Path)
    requires Accomplished(d, o, prune, src, dst, c, t) && IsScan(t, NO_FAULTS, prune, again)
    ensures !Extraneous(src, again, o, p) || Guarded(src, again, o)
  {
    if Extraneous(src, again, o, p) {
      assert Listed(t, NO_FAULTS, prune, p);
      assert p in d && t[p] == d[p];
      AdmittedIsListed(d, prune, o, p, d[p].Dir?);
      assert Extraneous(src, dst, o, p);
      if !Guarded(src, dst, o) {
        RemovedIsGone(d, o, prune, src, dst, c, t, p);
      }
    }
  }

  /** In either mode and under any filter: when every action of a plan
      succeeded, even onto a file system that rounds times by up to the
      tolerance, a second plan is empty. */
  lemma SecondPlanIsEmpty(d: Tree, o: Options, prune: Path -> bool, src: ScanResult, dst: ScanResult, c: Config,
                          states: seq<State>, labels: seq<Label>, again: ScanResult, second: Stages)
    requires Planned(d, o, prune, src, dst, c) && Run(c, states, labels) && states[0].tree == d
    requires forall a :: a in c.stages.All() ==> Record(a, Done) in states[|labels|].log
    requires IsScan(states[|labels|].tree, NO_FAULTS, prune, again) && IsStages(src, again, o, second)
    ensures second.All() == []
  {
    var x := states[|labels|];
    RunAchieves(d, o, prune, src, dst, c, states, labels, |labels|);
    forall a | a in c.stages.All() ensures Holds(c, x.tree, a) {
      assert Record(a, Done) in x.log;
    }
    AccomplishedIsSettled(d, o, prune, src, dst, c, x.tree, again, second);
  }

  /** From a tree in which everything holds, there is nothing left to plan. */
  lemma AccomplishedIsSettled(d: Tree, o: Options, prune: Path -> bool, src: ScanResult, dst: ScanResult, c: Config,
                              t: Tree, again: ScanResult, second: Stages)
    requires Accomplished(d, o, prune, src, dst, c, t) && IsScan(t, NO_FAULTS, prune, again) && IsStages(src, again, o, second)
    ensures second.All() == []
  {
    forall a ensures a !in second.All() {
      NothingWanted(d, o, prune, src, dst, c, t, again, a.relPath);
      NothingExtraneous(d, o, prune, src, dst, c, t, again, a.relPath);
      if a in second.All() {
        ActionMeaning(src, again, o, second, a);
        if NeededDir(src, again, o, a.relPath) {
          var q :| WantsCopy(src, again, o, q) && IsAncestor(a.relPath, q);
          NothingWanted(d, o, prune, src, dst, c, t, again, q);
        }
      }
    }
    HeadIn(second.All());
  }
}
