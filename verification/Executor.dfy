/** Carrying out a plan: the executor as a state machine whose steps are one
    loop iteration of a sequential stage or one move of a worker in a pool. */
module Executor {
  import opened Paths
  import opened Scans
  import opened Differ
  import opened Effects

  datatype OnError = KeepGoing | AbortRun

  datatype DeletePolicy = SkipDeletes | Proceed

  /** What stays fixed during one execution. `rounding` is how far the stored
      time of a file may be from the requested one. */
  datatype Config = Config(
    stages: Stages, source: Tree, workers: nat, onError: OnError, deletePolicy: DeletePolicy, rounding: nat)

  datatype Cause = Locked | ShareGone | Other

  datatype Outcome = Done | Vanished | Failed(cause: Cause)

  datatype Record = Record(action: Action, outcome: Outcome)

  datatype Failure = Failure(relPath: Path, kind: Kind, cause: Cause)

  datatype Result = Result(
    dirsCreated: nat, filesCopied: nat, filesDeleted: nat, dirsRemoved: nat, skipped: nat,
    failures: seq<Failure>, deletionsSkipped: bool, aborted: bool, shareUnreachable: bool)

  /** Where one action of a pooled stage is. A dropped action was handed to a
      worker that left without finishing it. */
  datatype Status = Waiting | Received | Running | Finished | Dropped

  /** A worker pool: actions are fed in order through an unbuffered channel. */
  datatype Pool = Pool(status: seq<Status>, fed: nat, idle: nat, open: bool)

  datatype Stage =
    | Clearing(i: nat)
    | Making(i: nat)
    | Copying(pool: Pool, base: Tree)
    | Deleting(pool: Pool, deleted: nat)
    | Removing(i: nat)
    | Returned(err: bool)

  /** `cancelled` is the caller's context, `aborting` the executor's own. */
  datatype State = State(
    stage: Stage, tree: Tree, cancelled: bool, aborting: bool, result: Result, log: seq<Record>)
  {
    predicate Halted() { cancelled || aborting }
  }

  /** How the world answers one operation: as the file system dictates, with the
      source file gone, or with an error that may come before, after or in the
      middle of the effect. */
  datatype Answer = Honest(stamp: int) | Gone | Faulty(cause: Cause, after: Tree)

  datatype Label =
    | Cancel
    | Next(answer: Answer)
    | Feed
    | Close
    | Begin(k: nat)
    | Leave(k: nat)
    | Finish(k: nat, answer: Answer)
    | GiveUp(k: nat, after: Tree)
    | Advance

  // ---- one operation ------------------------------------------------------

  predicate Near(x: int, y: int, distance: nat) {
    x - y <= distance && y - x <= distance
  }

  ghost predicate Possible(c: Config, t: Tree, a: Action, r: Answer) {
    match r
    case Honest(stamp) => a.modTime != ZERO_TIME ==> Near(stamp, a.modTime, c.rounding)
    case Gone => a.kind == Copy
    case Faulty(_, after) => CanBecome(t, a, after)
  }

  /** The path is not there, and nothing but directories leads to it. */
  ghost predicate Absent(t: Tree, p: Path) {
    p !in t && !exists a :: IsAncestor(a, p) && a in t && !t[a].Dir?
  }

  ghost function TreeAfter(c: Config, t: Tree, a: Action, r: Answer): Tree {
    match r
    case Gone => t
    case Faulty(_, after) => after
    case Honest(stamp) =>
      match a.kind
      case MkDir => if Obstructed(t, a.relPath) then t else MakeAll(t, a.relPath)
      case Copy =>
        if a.relPath in c.source && c.source[a.relPath].File? && Publishable(t, a.relPath)
        then t[a.relPath := File(c.source[a.relPath].data, stamp)] else t
      case Delete => if Removable(t, a.relPath) then t - {a.relPath} else t
      case RmDir => if Removable(t, a.relPath) then t - {a.relPath} else t
  }

  ghost function OutcomeOf(c: Config, t: Tree, a: Action, r: Answer): Outcome {
    match r
    case Gone => Vanished
    case Faulty(cause, _) => Failed(cause)
    case Honest(_) =>
      match a.kind
      case MkDir => if Obstructed(t, a.relPath) then Failed(Other) else Done
      case Copy =>
        if a.relPath !in c.source then Vanished
        else if c.source[a.relPath].File? && Publishable(t, a.relPath) then Done else Failed(Other)
      case Delete => if Removable(t, a.relPath) || Absent(t, a.relPath) then Done else Failed(Other)
      case RmDir => if Removable(t, a.relPath) || Absent(t, a.relPath) then Done else Failed(Other)
  }

  lemma OperationIsEffect(c: Config, t: Tree, a: Action, r: Answer)
    requires Possible(c, t, a, r)
    ensures CanBecome(t, a, TreeAfter(c, t, a, r))
  {
    if r.Honest? && a.kind == Copy && TreeAfter(c, t, a, r) != t {
      assert Publishes(t, a.relPath, c.source[a.relPath].data, r.stamp, TreeAfter(c, t, a, r));
    }
    if r.Honest? && a.kind == MkDir && TreeAfter(c, t, a, r) != t {
      assert Makes(t, a.relPath, TreeAfter(c, t, a, r));
    }
  }

  // ---- steps --------------------------------------------------------------

  function NewPool(n: nat, workers: nat): Pool {
    Pool(seq(n, _ => Waiting), 0, workers, true)
  }

  /** Every worker has left. */
  predicate Settled(p: Pool) {
    !p.open && forall k :: 0 <= k < |p.status| ==> p.status[k] != Received && p.status[k] != Running
  }

  /** The sequential action that comes next. */
  predicate HasNext(c: Config, s: State) {
    match s.stage
    case Clearing(i) => i < |c.stages.unblocks|
    case Making(i) => i < |c.stages.mkdirs|
    case Removing(i) => i < |c.stages.rmdirs|
    case _ => false
  }

  function NextAction(c: Config, s: State): Action
    requires HasNext(c, s)
  {
    match s.stage
    case Clearing(i) => c.stages.unblocks[i]
    case Making(i) => c.stages.mkdirs[i]
    case Removing(i) => c.stages.rmdirs[i]
  }

  predicate InPool(s: State) { s.stage.Copying? || s.stage.Deleting? }

  function Work(c: Config, s: State): seq<Action>
    requires InPool(s)
  {
    if s.stage.Copying? then c.stages.copies else c.stages.deletes
  }

  ghost predicate Enabled(c: Config, s: State, l: Label) {
    match l
    case Cancel => true
    case Next(r) => HasNext(c, s) && !s.Halted() && Possible(c, s.tree, NextAction(c, s), r)
    case Feed => InPool(s) && s.stage.pool.open && s.stage.pool.fed < |s.stage.pool.status| && s.stage.pool.idle > 0
    case Close => InPool(s) && s.stage.pool.open && (s.stage.pool.fed >= |s.stage.pool.status| || s.Halted())
    case Begin(k) => InPool(s) && k < |s.stage.pool.status| && s.stage.pool.status[k] == Received && !s.Halted()
    case Leave(k) => InPool(s) && k < |s.stage.pool.status| && s.stage.pool.status[k] == Received && s.Halted()
    case Finish(k, r) =>
      && InPool(s) && k < |s.stage.pool.status| && k < |Work(c, s)| && s.stage.pool.status[k] == Running
      && Possible(c, s.tree, Work(c, s)[k], r)
    case GiveUp(k, after) =>
      && s.stage.Copying? && k < |s.stage.pool.status| && k < |c.stages.copies|
      && s.stage.pool.status[k] == Running && s.Halted() && CanBecome(s.tree, c.stages.copies[k], after)
    case Advance =>
      match s.stage
      case Returned(_) => false
      case Copying(p, _) => Settled(p)
      case Deleting(p, _) => Settled(p)
      case _ => !HasNext(c, s) || s.Halted()
  }

  function Noted(r: Result, a: Action, o: Outcome): Result {
    match o
    case Failed(cause) => r.(failures := r.failures + [Failure(a.relPath, a.kind, cause)])
    case Vanished => r.(skipped := r.skipped + 1)
    case Done =>
      match a.kind
      case MkDir => r.(dirsCreated := r.dirsCreated + 1)
      case Copy => r.(filesCopied := r.filesCopied + 1)
      case Delete => r.(filesDeleted := r.filesDeleted + 1)
      case RmDir => r.(dirsRemoved := r.dirsRemoved + 1)
  }

  /** The next sequential action ended like this and left this tree. */
  function NextWith(c: Config, s: State, o: Outcome, t: Tree): State
    requires HasNext(c, s)
  {
    var a := NextAction(c, s);
    // A trailing directory that cannot be removed is only warned about.
    var result := if s.stage.Removing? && o.Failed? then s.result else Noted(s.result, a, o);
    s.(stage := Bump(s.stage), tree := t, result := result, log := s.log + [Record(a, o)])
  }

  function Bump(st: Stage): Stage {
    match st
    case Clearing(i) => Clearing(i + 1)
    case Making(i) => Making(i + 1)
    case Removing(i) => Removing(i + 1)
    case _ => st
  }

  function WithPool(st: Stage, p: Pool): Stage
    requires st.Copying? || st.Deleting?
  {
    match st
    case Copying(_, base) => Copying(p, base)
    case Deleting(_, n) => Deleting(p, n)
  }

  /** A worker's action ended like this and left this tree. */
  function FinishWith(c: Config, s: State, k: nat, o: Outcome, t: Tree): State
    requires InPool(s) && k < |s.stage.pool.status| && k < |Work(c, s)|
  {
    var a := Work(c, s)[k];
    var p := s.stage.pool;
    var gone := o == Failed(ShareGone) && s.stage.Copying?;
    var stop := gone || (o.Failed? && c.onError == AbortRun);
    var pool := p.(status := p.status[k := Finished], idle := if stop then p.idle else p.idle + 1);
    var result :=
      if s.stage.Deleting? && !o.Failed? then s.result else Noted(s.result, a, o);
    var stage :=
      if s.stage.Deleting? then Deleting(pool, s.stage.deleted + if o.Failed? then 0 else 1)
      else Copying(pool, s.stage.base);
    s.(stage := stage, tree := t, aborting := s.aborting || stop,
       result := result.(aborted := result.aborted || stop, shareUnreachable := result.shareUnreachable || gone),
       log := s.log + [Record(a, o)])
  }

  /** The gate between creating and removing. */
  ghost function AfterCopies(c: Config, s: State): State {
    var removals := |c.stages.deletes| > 0 || |c.stages.rmdirs| > 0;
    if s.result.failures != [] && c.deletePolicy == SkipDeletes && removals then
      s.(stage := Returned(s.cancelled), result := s.result.(deletionsSkipped := true))
    else if |c.stages.deletes| == 0 then s.(stage := Removing(0))
    else s.(stage := Deleting(NewPool(|c.stages.deletes|, c.workers), 0))
  }

  ghost function DoAdvance(c: Config, s: State): State {
    match s.stage
    case Clearing(_) => s.(stage := if HasNext(c, s) then Returned(true) else Making(0))
    case Making(_) =>
      if HasNext(c, s) then s.(stage := Returned(true))
      else if |c.stages.copies| == 0 then AfterCopies(c, s)
      else s.(stage := Copying(NewPool(|c.stages.copies|, c.workers), s.tree))
    case Copying(_, _) => AfterCopies(c, s)
    // The count of the trailing pass replaces whatever clearing had counted.
    case Deleting(_, n) => s.(stage := Removing(0), result := s.result.(filesDeleted := n))
    case Removing(_) => s.(stage := Returned(s.cancelled))
    case Returned(_) => s
  }

  ghost function Do(c: Config, s: State, l: Label): State
    requires Enabled(c, s, l)
  {
    match l
    case Cancel => s.(cancelled := true)
    case Next(r) =>
      var a := NextAction(c, s);
      NextWith(c, s, OutcomeOf(c, s.tree, a, r), TreeAfter(c, s.tree, a, r))
    case Feed =>
      var p := s.stage.pool;
      s.(stage := WithPool(s.stage, p.(status := p.status[p.fed := Received], fed := p.fed + 1, idle := p.idle - 1)))
    case Close => s.(stage := WithPool(s.stage, s.stage.pool.(open := false)))
    case Begin(k) => s.(stage := WithPool(s.stage, s.stage.pool.(status := s.stage.pool.status[k := Running])))
    case Leave(k) => s.(stage := WithPool(s.stage, s.stage.pool.(status := s.stage.pool.status[k := Dropped])))
    case Finish(k, r) =>
      var a := Work(c, s)[k];
      FinishWith(c, s, k, OutcomeOf(c, s.tree, a, r), TreeAfter(c, s.tree, a, r))
    case GiveUp(k, after) =>
      s.(stage := WithPool(s.stage, s.stage.pool.(status := s.stage.pool.status[k := Dropped])), tree := after)
    case Advance => DoAdvance(c, s)
  }

  const NO_RESULT := Result(0, 0, 0, 0, 0, [], false, false, false)

  function Init(tree: Tree): State {
    State(Clearing(0), tree, false, false, NO_RESULT, [])
  }

  /** A run of the executor: its states, and the label of each step. */
  ghost predicate Run(c: Config, states: seq<State>, labels: seq<Label>) {
    && |states| == |labels| + 1
    && states[0] == Init(states[0].tree)
    && forall i {:trigger labels[i]} :: 0 <= i < |labels| ==>
         Enabled(c, states[i], labels[i]) && states[i + 1] == Do(c, states[i], labels[i])
  }
}
