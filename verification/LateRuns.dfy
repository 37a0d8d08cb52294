/** Runs whose operations may take effect after they were reported: one that timed
    out keeps running, and lands whenever it pleases. */
module LateRuns {
  import opened Scans
  import opened Differ
  import opened Effects
  import opened Executor
  import opened Gating

  /** The executor, and the actions that have an operation still in flight. A copy
      may have several, one for each attempt, so landing does not settle it. */
  datatype World = World(x: State, pending: set<Action>)

  datatype Event = Own(l: Label) | Lands(a: Action, after: Tree)

  /** The action that this step gives up waiting for, if any. */
  function LeftBehind(c: Config, x: State, l: Label): set<Action> {
    match l
    case Next(r) => if r.Faulty? && HasNext(c, x) then {NextAction(c, x)} else {}
    case Finish(k, r) => if r.Faulty? && InPool(x) && k < |Work(c, x)| then {Work(c, x)[k]} else {}
    case GiveUp(k, _) => if k < |c.stages.copies| then {c.stages.copies[k]} else {}
    case _ => {}
  }

  ghost predicate CanHappen(c: Config, w: World, e: Event) {
    match e
    case Own(l) => Enabled(c, w.x, l)
    case Lands(a, after) => a in w.pending && CanBecome(w.x.tree, a, after)
  }

  ghost function Happen(c: Config, w: World, e: Event): World
    requires CanHappen(c, w, e)
  {
    match e
    case Own(l) => World(Do(c, w.x, l), w.pending + LeftBehind(c, w.x, l))
    case Lands(_, after) => w.(x := w.x.(tree := after))
  }

  ghost predicate LateRun(c: Config, ws: seq<World>, events: seq<Event>) {
    && |ws| == |events| + 1
    && ws[0] == World(Init(ws[0].x.tree), {})
    && forall i {:trigger events[i]} :: 0 <= i < |events| ==>
         CanHappen(c, ws[i], events[i]) && ws[i + 1] == Happen(c, ws[i], events[i])
  }

  /** What a run has left behind by one of its states. */
  function PendingBy(c: Config, states: seq<State>, labels: seq<Label>, i: nat): set<Action>
    requires i <= |labels| < |states|
  {
    if i == 0 then {} else PendingBy(c, states, labels, i - 1) + LeftBehind(c, states[i - 1], labels[i - 1])
  }

  /** Every run is one of these, in which nothing lands late. */
  lemma RunIsLateRun(c: Config, states: seq<State>, labels: seq<Label>) returns (ws: seq<World>, events: seq<Event>)
    requires Run(c, states, labels)
    ensures LateRun(c, ws, events) && |ws| == |states|
    ensures forall i :: 0 <= i < |states| ==> ws[i].x == states[i]
    ensures forall i :: 0 <= i < |events| ==> events[i] == Own(labels[i])
  {
    ws := seq(|states|, i requires 0 <= i < |states| => World(states[i], PendingBy(c, states, labels, i)));
    events := seq(|labels|, i requires 0 <= i < |labels| => Own(labels[i]));
    forall i {:trigger events[i]} | 0 <= i < |events|
      ensures CanHappen(c, ws[i], events[i]) && ws[i + 1] == Happen(c, ws[i], events[i])
    {
      assert events[i] == Own(labels[i]);
    }
  }

  // ---- what late effects cannot touch --------------------------------------

  lemma SoundWhateverTheTree(c: Config, x: State, t: Tree)
    requires Sound(c, x)
    ensures Sound(c, x.(tree := t))
  {
    EarlyStays(c, x, x.(tree := t));
  }

  lemma StepSound(c: Config, x: State, l: Label)
    requires Shaped(c.stages) && Enabled(c, x, l) && Sound(c, x)
    ensures Sound(c, Do(c, x, l))
  {
    StepInOrder(c, x, l);
    StepTimely(c, x, l);
    StepGated(c, x, l);
  }

  /** The order of stages and the gate before the removals hold of every late run. */
  lemma {:induction false} LateRunIsSound(c: Config, ws: seq<World>, events: seq<Event>, i: nat)
    requires Shaped(c.stages) && LateRun(c, ws, events) && i < |ws|
    ensures Sound(c, ws[i].x)
    decreases i
  {
    if i > 0 {
      LateRunIsSound(c, ws, events, i - 1);
      var w, e := ws[i - 1], events[i - 1];
      match e
      case Own(l) => StepSound(c, w.x, l);
      case Lands(_, after) => SoundWhateverTheTree(c, w.x, after);
    }
  }

  // ---- what they can -------------------------------------------------------

  predicate FromPlan(c: Config, w: World) {
    forall a :: a in w.pending ==> a in c.stages.All()
  }

  lemma LeftBehindIsPlanned(c: Config, x: State, l: Label)
    ensures forall a :: a in LeftBehind(c, x, l) ==> a in c.stages.All()
  {
  }

  lemma {:induction false} PendingIsPlanned(c: Config, ws: seq<World>, events: seq<Event>, i: nat)
    requires LateRun(c, ws, events) && i < |ws|
    ensures FromPlan(c, ws[i])
    decreases i
  {
    if i > 0 {
      PendingIsPlanned(c, ws, events, i - 1);
      var w, e := ws[i - 1], events[i - 1];
      if e.Own? { LeftBehindIsPlanned(c, w.x, e.l); }
    }
  }

  function Trees(ws: seq<World>): seq<Tree> {
    seq(|ws|, i requires 0 <= i < |ws| => ws[i].x.tree)
  }

  /** A late run works on the tree only through the actions of its plan. */
  lemma LateRunIsChurn(c: Config, ws: seq<World>, events: seq<Event>, i: nat)
    requires LateRun(c, ws, events) && i < |ws|
    ensures Churn(c.stages.All(), Trees(ws)[..i + 1])
  {
    var trees := Trees(ws)[..i + 1];
    forall k | 0 <= k < |trees| - 1 ensures Works(c.stages.All(), trees[k], trees[k + 1]) {
      LateStepWorks(c, ws, events, k);
    }
  }

  lemma LateStepWorks(c: Config, ws: seq<World>, events: seq<Event>, k: nat)
    requires LateRun(c, ws, events) && k < |events|
    ensures Works(c.stages.All(), ws[k].x.tree, ws[k + 1].x.tree)
  {
    PendingIsPlanned(c, ws, events, k);
    match events[k]
    case Own(l) => StepWorks(c, ws[k].x, l);
    case Lands(a, after) => assert a in c.stages.All();
  }

  // ---- the gate, whatever lands --------------------------------------------

  /** If any trailing removal was tried, everything before it had been tried, and
      under the default policy had succeeded or found its source gone. */
  lemma LateRemovalsAreGated(c: Config, ws: seq<World>, events: seq<Event>, i: nat, r: Record)
    requires Shaped(c.stages) && LateRun(c, ws, events) && i < |ws|
    requires r in ws[i].x.log && Trailing(r.action)
    ensures forall a :: a in c.stages.unblocks + c.stages.mkdirs + c.stages.copies ==> Logged(ws[i].x.log, a)
    ensures c.deletePolicy == SkipDeletes ==>
      forall x :: x in ws[i].x.log && !Trailing(x.action) ==> x.outcome == Done || x.outcome == Vanished
  {
    LateRunIsSound(c, ws, events, i);
  }

  lemma {:induction false} LateQuietStays(c: Config, ws: seq<World>, events: seq<Event>, i: nat, j: nat)
    requires Shaped(c.stages) && LateRun(c, ws, events) && i <= j < |ws| && Quiet(ws[i].x)
    ensures Quiet(ws[j].x)
    decreases j
  {
    if i < j {
      LateQuietStays(c, ws, events, i, j - 1);
      var e := events[j - 1];
      if e.Own? { QuietStep(c, ws[j - 1].x, e.l, ws[j].x); }
    }
  }

  /** Once halted before the trailing passes, a run never tries a removal there. */
  lemma LateNoRemovalAfterHalt(c: Config, ws: seq<World>, events: seq<Event>, i: nat, j: nat)
    requires Shaped(c.stages) && LateRun(c, ws, events) && i <= j < |ws| && ws[i].x.Halted()
    requires ws[i].x.stage.Clearing? || ws[i].x.stage.Making? || ws[i].x.stage.Copying?
    ensures forall r :: r in ws[j].x.log ==> !Trailing(r.action)
  {
    LateRunIsSound(c, ws, events, i);
    LateQuietStays(c, ws, events, i, j);
  }
}
