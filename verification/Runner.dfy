/** The run lifecycle at the granularity of its lock: starting, queueing,
    finishing and shutting down, in every interleaving. */
module Runner {

  /** What the lock guards. `byJob` maps a job to its run, or to "" while a run
      is being set up; `queued` holds at most one follow-up per job. */
  datatype View = View(active: map<string, string>, byJob: map<string, string>, queued: set<string>, closing: bool)

  // ---- critical sections --------------------------------------------------

  predicate CanReserve(v: View, job: string) { !v.closing && job !in v.byJob }

  function Reserved(v: View, job: string): View {
    if CanReserve(v, job) then v.(byJob := v.byJob[job := ""]) else v
  }

  function Unreserved(v: View, job: string): View { v.(byJob := v.byJob - {job}) }

  function Published(v: View, job: string, run: string): View {
    v.(active := v.active[run := job], byJob := v.byJob[job := run])
  }

  predicate CanQueue(v: View, job: string) { job in v.byJob && job !in v.queued }

  function Queued(v: View, job: string): View {
    if CanQueue(v, job) then v.(queued := v.queued + {job}) else v
  }

  function Finished(v: View, run: string, job: string): View {
    v.(active := v.active - {run}, byJob := v.byJob - {job}, queued := v.queued - {job})
  }

  function Closed(v: View): View { v.(queued := {}, closing := true) }

  // ---- the machine --------------------------------------------------------

  /** The lock's state; the starts that have reserved their job, before and after
      they join the wait group; the runs that have finished and not yet left
      the group; the count of the group; whether a shutdown's wait has
      returned; the run ids handed out; and what became of queued follow-ups. */
  datatype State = State(
    v: View, reserved: multiset<string>, counted: multiset<string>, leaving: nat, wait: nat, returned: bool,
    used: set<string>, accepted: nat, dispatched: nat, dropped: nat)

  datatype Event =
    | Reserve(job: string)
    | CreateFails(job: string)
    | Join(job: string)
    | Publish(job: string, run: string)
    | QueueNext(job: string)
    | Finish(run: string)
    | Leave
    | Shutdown
    | WaitReturns

  predicate Enabled(s: State, e: Event) {
    match e
    case Reserve(_) => true
    case CreateFails(job) => job in s.reserved
    case Join(job) => job in s.reserved
    case Publish(job, run) => job in s.counted && run != "" && run !in s.used
    case QueueNext(_) => true
    case Finish(run) => run in s.v.active
    case Leave => s.leaving > 0
    case Shutdown => true
    case WaitReturns => s.v.closing && s.wait == 0
  }

  function Do(s: State, e: Event): State
    requires Enabled(s, e)
  {
    match e
    case Reserve(job) =>
      s.(v := Reserved(s.v, job), reserved := if CanReserve(s.v, job) then s.reserved + multiset{job} else s.reserved)
    case CreateFails(job) => s.(v := Unreserved(s.v, job), reserved := s.reserved - multiset{job})
    case Join(job) =>
      s.(reserved := s.reserved - multiset{job}, counted := s.counted + multiset{job}, wait := s.wait + 1)
    case Publish(job, run) =>
      s.(v := Published(s.v, job, run), counted := s.counted - multiset{job}, used := s.used + {run})
    case QueueNext(job) =>
      s.(v := Queued(s.v, job), accepted := s.accepted + if CanQueue(s.v, job) then 1 else 0)
    case Finish(run) =>
      var job := s.v.active[run];
      s.(v := Finished(s.v, run, job), leaving := s.leaving + 1,
         dispatched := s.dispatched + (if job in s.v.queued && !s.v.closing then 1 else 0),
         dropped := s.dropped + if job in s.v.queued && s.v.closing then 1 else 0)
    case Leave => s.(leaving := s.leaving - 1, wait := if s.wait > 0 then s.wait - 1 else 0)
    case Shutdown => s.(v := Closed(s.v), dropped := s.dropped + |s.v.queued|)
    case WaitReturns => s.(returned := true)
  }

  const INITIAL := State(View(map[], map[], {}, false), multiset{}, multiset{}, 0, 0, false, {}, 0, 0, 0)

  ghost predicate Run(states: seq<State>, events: seq<Event>) {
    && |states| == |events| + 1
    && forall i {:trigger events[i]} :: 0 <= i < |events| ==>
         Enabled(states[i], events[i]) && states[i + 1] == Do(states[i], events[i])
  }

  ghost predicate History(states: seq<State>, events: seq<Event>) {
    Run(states, events) && states[0] == INITIAL
  }

  // ---- the invariant ------------------------------------------------------

  /** One run per job, and every reservation is one start in progress. */
  ghost predicate OnePerJob(s: State) {
    && (forall r :: r in s.v.active ==>
          r != "" && r in s.used && s.v.active[r] in s.v.byJob && s.v.byJob[s.v.active[r]] == r)
    && (forall j :: j in s.v.byJob && s.v.byJob[j] != "" ==>
          s.v.byJob[j] in s.v.active && s.v.active[s.v.byJob[j]] == j)
    && (forall j :: s.reserved[j] + s.counted[j] == if j in s.v.byJob && s.v.byJob[j] == "" then 1 else 0)
  }

  /** Every accepted follow-up is dispatched, dropped by a shutdown, or pending. */
  predicate Conserved(s: State) {
    s.accepted == s.dispatched + s.dropped + |s.v.queued|
  }

  /** The wait group counts the starts that joined it and the runs not yet gone. */
  predicate Waits(s: State) {
    s.wait == |s.counted| + |s.v.active| + s.leaving
  }

  ghost predicate Inv(s: State) {
    OnePerJob(s) && Conserved(s) && Waits(s)
  }

  lemma StepConserves(s: State, e: Event)
    requires Enabled(s, e) && Conserved(s)
    ensures Conserved(Do(s, e))
  {
    if e.Finish? {
      var job := s.v.active[e.run];
      assert job !in s.v.queued ==> s.v.queued - {job} == s.v.queued;
    }
  }

  lemma PublishWaits(s: State, job: string, run: string)
    requires Enabled(s, Publish(job, run)) && Waits(s) && run !in s.v.active
    ensures Waits(Do(s, Publish(job, run)))
  {
    assert Do(s, Publish(job, run)).v.active.Keys == s.v.active.Keys + {run};
  }

  lemma FinishWaits(s: State, run: string)
    requires Enabled(s, Finish(run)) && Waits(s)
    ensures Waits(Do(s, Finish(run)))
  {
    assert Do(s, Finish(run)).v.active.Keys == s.v.active.Keys - {run};
  }

  lemma StepWaits(s: State, e: Event)
    requires Enabled(s, e) && Waits(s) && forall r :: r in s.v.active ==> r in s.used
    ensures Waits(Do(s, e))
  {
    match e
    case Publish(job, run) => PublishWaits(s, job, run);
    case Finish(run) => FinishWaits(s, run);
    case _ =>
  }

  lemma PublishKeeps(s: State, job: string, run: string)
    requires Enabled(s, Publish(job, run)) && OnePerJob(s)
    ensures OnePerJob(Do(s, Publish(job, run)))
  {
    assert s.counted[job] == 1 && s.reserved[job] == 0;
    var u := Do(s, Publish(job, run));
    assert forall j :: j != job ==> (j in u.v.byJob <==> j in s.v.byJob) && u.counted[j] == s.counted[j];
    assert forall r :: r in s.v.active ==> r != run && s.v.active[r] != job;
  }

  lemma FinishKeeps(s: State, run: string)
    requires Enabled(s, Finish(run)) && OnePerJob(s)
    ensures OnePerJob(Do(s, Finish(run)))
  {
    var job, u := s.v.active[run], Do(s, Finish(run));
    assert s.v.byJob[job] == run;
    assert forall j :: j != job ==> (j in u.v.byJob <==> j in s.v.byJob);
    assert forall r :: r in u.v.active ==> r in s.v.active && s.v.active[r] != job;
  }

  lemma StartKeeps(s: State, e: Event)
    requires Enabled(s, e) && OnePerJob(s) && (e.Reserve? || e.CreateFails? || e.Join?)
    ensures OnePerJob(Do(s, e))
  {
    if !e.Reserve? { assert s.reserved[e.job] == 1; }
  }

  lemma StepKeeps(s: State, e: Event)
    requires Enabled(s, e) && Inv(s)
    ensures Inv(Do(s, e))
  {
    StepConserves(s, e);
    StepWaits(s, e);
    match e
    case Publish(job, run) => PublishKeeps(s, job, run);
    case Finish(run) => FinishKeeps(s, run);
    case Reserve(_) => StartKeeps(s, e);
    case CreateFails(_) => StartKeeps(s, e);
    case Join(_) => StartKeeps(s, e);
    case _ =>
  }

  lemma {:induction false} RunKeeps(states: seq<State>, events: seq<Event>, i: nat)
    requires History(states, events) && i < |states|
    ensures Inv(states[i])
    decreases i
  {
    if i > 0 {
      RunKeeps(states, events, i - 1);
      StepKeeps(states[i - 1], events[i - 1]);
    }
  }

  /** Some history leads here. */
  ghost predicate Reachable(s: State) {
    exists states: seq<State>, events: seq<Event> :: History(states, events) && states[|events|] == s
  }

  lemma ReachableKeeps(s: State)
    requires Reachable(s)
    ensures Inv(s)
  {
    var states: seq<State>, events: seq<Event> :| History(states, events) && states[|events|] == s;
    RunKeeps(states, events, |events|);
  }

  lemma InitialIsReachable()
    ensures Reachable(INITIAL)
  {
    var states: seq<State>, events: seq<Event> := [INITIAL], [];
    assert History(states, events) && states[|events|] == INITIAL;
  }

  lemma ReachesOn(s: State, e: Event)
    requires Reachable(s) && Enabled(s, e)
    ensures Reachable(Do(s, e))
  {
    var states: seq<State>, events: seq<Event> :| History(states, events) && states[|events|] == s;
    var more, labels := states + [Do(s, e)], events + [e];
    forall i {:trigger labels[i]} | 0 <= i < |labels| ensures Enabled(more[i], labels[i]) && more[i + 1] == Do(more[i], labels[i]) {
      if i < |events| { assert labels[i] == events[i]; }
    }
    assert History(more, labels) && more[|labels|] == Do(s, e);
  }

  // ---- the lock's owner ---------------------------------------------------

  /** The runner. Its ghost state is the machine's and every method is one of the
      machine's events, so that it is always at the end of some history, and
      what holds of every history holds of it. */
  class Runner {
    var active: map<string, string>
    var byJob: map<string, string>
    var queued: set<string>
    var closing: bool
    var wait: nat
    ghost var s: State

    ghost predicate Valid()
      reads this
    {
      Reachable(s) && s.v == View(active, byJob, queued, closing) && s.wait == wait
    }

    constructor ()
      ensures Valid() && s == INITIAL
    {
      active, byJob, queued, closing, wait, s := map[], map[], {}, false, 0, INITIAL;
      InitialIsReachable();
    }

    /** The first critical section of a start. */
    method Reserve(job: string) returns (ok: bool)
      requires Valid()
      modifies this
      ensures Valid() && s == Do(old(s), Event.Reserve(job))
      ensures ok <==> !old(closing) && job !in old(byJob)
      ensures ok ==> job !in old(active).Values && old(s).reserved[job] == old(s).counted[job] == 0
    {
      ReachableKeeps(s);
      ReachesOn(s, Event.Reserve(job));
      s := Do(s, Event.Reserve(job));
      if closing { return false; }
      if job in byJob { return false; }
      byJob := byJob[job := ""];
      return true;
    }

    /** The run could not be created. */
    method Unreserve(job: string)
      requires Valid() && job in s.reserved
      modifies this
      ensures Valid() && s == Do(old(s), CreateFails(job))
      ensures job !in byJob && queued == old(queued)
    {
      ReachesOn(s, CreateFails(job));
      s := Do(s, CreateFails(job));
      byJob := byJob - {job};
    }

    /** A start joins the wait group before it publishes its run. */
    method Join(job: string)
      requires Valid() && job in s.reserved
      modifies this
      ensures Valid() && s == Do(old(s), Event.Join(job))
      ensures wait == old(wait) + 1
    {
      ReachesOn(s, Event.Join(job));
      s := Do(s, Event.Join(job));
      wait := wait + 1;
    }

    /** The goroutine of a finished run is over. */
    method Leave()
      requires Valid() && s.leaving > 0
      modifies this
      ensures Valid() && s == Do(old(s), Event.Leave)
      ensures wait == old(wait) - 1
    {
      ReachableKeeps(s);
      ReachesOn(s, Event.Leave);
      s := Do(s, Event.Leave);
      wait := wait - 1;
    }

    /** The second critical section of a start. */
    method Publish(job: string, run: string)
      requires Valid() && job in s.counted && run != "" && run !in s.used
      modifies this
      ensures Valid() && s == Do(old(s), Event.Publish(job, run))
      ensures active == old(active)[run := job] && byJob[job] == run && job !in old(active).Values
    {
      ReachableKeeps(s);
      assert s.counted[job] > 0;
      ReachesOn(s, Event.Publish(job, run));
      s := Do(s, Event.Publish(job, run));
      active := active[run := job];
      byJob := byJob[job := run];
    }

    method QueueNext(job: string) returns (ok: bool)
      requires Valid()
      modifies this
      ensures Valid() && s == Do(old(s), Event.QueueNext(job))
      ensures ok <==> job in old(byJob) && job !in old(queued)
      ensures s.accepted == old(s).accepted + if ok then 1 else 0
    {
      ReachesOn(s, Event.QueueNext(job));
      s := Do(s, Event.QueueNext(job));
      if job !in byJob { return false; }
      if job in queued { return false; }
      queued := queued + {job};
      return true;
    }

    /** Ends a run, and says whether a queued follow-up is dispatched. */
    method Finish(run: string, job: string) returns (dequeue: bool)
      requires Valid() && run in active && active[run] == job
      modifies this
      ensures Valid() && s == Do(old(s), Event.Finish(run))
      ensures dequeue <==> job in old(queued) && !old(closing)
      ensures active == old(active) - {run} && job !in byJob && job !in queued
      ensures s.dispatched == old(s).dispatched + if dequeue then 1 else 0
    {
      ReachesOn(s, Event.Finish(run));
      s := Do(s, Event.Finish(run));
      active := active - {run};
      byJob := byJob - {job};
      dequeue := job in queued && !closing;
      queued := queued - {job};
    }

    method Shutdown() returns (cancelled: set<string>)
      requires Valid()
      modifies this
      ensures Valid() && s == Do(old(s), Event.Shutdown)
      ensures cancelled == active.Keys == old(active).Keys && closing && queued == {}
      ensures s.dropped == old(s).dropped + |old(queued)|
    {
      ReachesOn(s, Event.Shutdown);
      s := Do(s, Event.Shutdown);
      closing := true;
      queued := {};
      cancelled := active.Keys;
    }
  }

  // ---- what every history keeps -------------------------------------------

  /** For every interleaving: a job has at most one active run, `byJob` names
      exactly that run, and an empty reservation is exactly one start in
      progress with no run of that job active. */
  lemma OneRunPerJob(states: seq<State>, events: seq<Event>, i: nat, job: string)
    requires History(states, events) && i < |states|
    ensures var s := states[i];
      && (forall r1, r2 :: r1 in s.v.active && r2 in s.v.active && s.v.active[r1] == s.v.active[r2] ==> r1 == r2)
      && (forall r :: r in s.v.active && s.v.active[r] == job <==> job in s.v.byJob && s.v.byJob[job] == r && r != "")
      && (job in s.v.byJob && s.v.byJob[job] == "" <==> s.reserved[job] + s.counted[job] == 1)
      && s.reserved[job] + s.counted[job] <= 1
  {
    RunKeeps(states, events, i);
  }

  /** Accepted follow-ups are never lost and never doubled. */
  lemma FollowUpsAreConserved(states: seq<State>, events: seq<Event>, i: nat)
    requires History(states, events) && i < |states|
    ensures states[i].accepted == states[i].dispatched + states[i].dropped + |states[i].v.queued|
  {
    RunKeeps(states, events, i);
  }

  /** Once closing, always closing: no start reserves a job, no finish
      dispatches, and the only starts left are those that had reserved before. */
  lemma {:induction false} NothingStartsWhileClosing(states: seq<State>, events: seq<Event>, i: nat, j: nat)
    requires Run(states, events) && i <= j < |states| && states[i].v.closing
    ensures states[j].v.closing && states[j].dispatched == states[i].dispatched
    ensures states[j].reserved <= states[i].reserved
    decreases j
  {
    if i < j {
      NothingStartsWhileClosing(states, events, i, j - 1);
      assert Enabled(states[j - 1], events[j - 1]);
    }
  }

  // ---- orphaned queue marks -----------------------------------------------

  /** A follow-up is queued behind nothing. */
  predicate Orphaned(s: State, job: string) {
    job in s.v.queued && job !in s.v.byJob
  }

  /** The only events that put an orphaned mark right: a shutdown drops it, and a
      new start of the job comes before it. */
  predicate Heals(s: State, e: Event, job: string) {
    e.Shutdown? || (e == Reserve(job) && CanReserve(s.v, job))
  }

  predicate Orphans(s: State, e: Event, job: string) {
    e == CreateFails(job) && job in s.v.queued
  }

  /** Starts and runs are registered. */
  ghost predicate Registered(s: State) {
    && (forall j :: j in s.reserved || j in s.counted ==> j in s.v.byJob)
    && forall r :: r in s.v.active ==> s.v.active[r] in s.v.byJob
  }

  lemma OnePerJobRegisters(s: State)
    requires OnePerJob(s)
    ensures Registered(s)
  {
    forall j | j in s.reserved || j in s.counted ensures j in s.v.byJob {
      assert s.reserved[j] + s.counted[j] > 0;
    }
  }

  lemma OrphanStep(s: State, e: Event, job: string)
    requires Enabled(s, e) && Registered(s)
    ensures Orphaned(Do(s, e), job) <==> Orphans(s, e, job) || (Orphaned(s, job) && !Heals(s, e, job))
  {
  }

  /** How orphans come and go, step by step. */
  ghost predicate OrphanLaw(states: seq<State>, events: seq<Event>, job: string) {
    && |states| == |events| + 1 && !Orphaned(states[0], job)
    && forall n {:trigger events[n]} :: 0 <= n < |events| ==>
         (Orphaned(states[n + 1], job) <==>
            Orphans(states[n], events[n], job) || (Orphaned(states[n], job) && !Heals(states[n], events[n], job)))
  }

  lemma HistoryObeysLaw(states: seq<State>, events: seq<Event>, job: string)
    requires History(states, events)
    ensures OrphanLaw(states, events, job)
  {
    forall n {:trigger events[n]} | 0 <= n < |events|
      ensures Orphaned(states[n + 1], job) <==>
        Orphans(states[n], events[n], job) || (Orphaned(states[n], job) && !Heals(states[n], events[n], job))
    {
      RunKeeps(states, events, n);
      OnePerJobRegisters(states[n]);
      OrphanStep(states[n], events[n], job);
    }
  }

  /** Since this event, which orphaned the mark, nothing has put it right. */
  ghost predicate OrphanedAt(states: seq<State>, events: seq<Event>, k: nat, i: nat, job: string)
    requires |events| < |states| && i < |states| && k < i <= |events|
  {
    && Orphans(states[k], events[k], job)
    && forall m {:trigger events[m]} :: k < m < i ==> !Heals(states[m], events[m], job)
  }

  lemma {:induction false} OrphanHasCause(states: seq<State>, events: seq<Event>, i: nat, job: string) returns (k: nat)
    requires OrphanLaw(states, events, job) && i < |states| && Orphaned(states[i], job)
    ensures k < i && OrphanedAt(states, events, k, i, job)
    decreases i
  {
    if Orphans(states[i - 1], events[i - 1], job) {
      k := i - 1;
    } else {
      k := OrphanHasCause(states, events, i - 1, job);
    }
  }

  lemma {:induction false} CauseOrphans(states: seq<State>, events: seq<Event>, k: nat, i: nat, job: string)
    requires OrphanLaw(states, events, job) && k < i < |states| && OrphanedAt(states, events, k, i, job)
    ensures Orphaned(states[i], job)
    decreases i
  {
    var e := events[i - 1];
    if k < i - 1 {
      CauseOrphans(states, events, k, i - 1, job);
    }
  }

  /** In every history a queue mark is orphaned if and only if the start it waited
      for failed to create its run and nothing has put that right since. */
  lemma OrphanedExactlyByFailedCreate(states: seq<State>, events: seq<Event>, i: nat, job: string)
    requires History(states, events) && i < |states|
    ensures Orphaned(states[i], job) <==> exists k :: 0 <= k < i && OrphanedAt(states, events, k, i, job)
  {
    HistoryObeysLaw(states, events, job);
    if Orphaned(states[i], job) {
      var k := OrphanHasCause(states, events, i, job);
    }
    if k :| 0 <= k < i && OrphanedAt(states, events, k, i, job) {
      CauseOrphans(states, events, k, i, job);
    }
  }

  /** One such history. */
  lemma AnOrphan(job: string) returns (states: seq<State>, events: seq<Event>)
    ensures History(states, events) && events == [Reserve(job), QueueNext(job), CreateFails(job)]
    ensures Orphaned(states[3], job)
  {
    events := [Reserve(job), QueueNext(job), CreateFails(job)];
    var a := Do(INITIAL, Reserve(job));
    var b := Do(a, QueueNext(job));
    var d := Do(b, CreateFails(job));
    states := [INITIAL, a, b, d];
  }

  // ---- shutting down ------------------------------------------------------

  /** When a shutdown's wait returns, no run is active and no start has joined the
      group. */
  lemma NothingActiveAtReturn(states: seq<State>, events: seq<Event>, i: nat)
    requires History(states, events) && i < |events| && events[i] == WaitReturns
    ensures states[i].v.active == map[] && states[i].counted == multiset{} && states[i].v.closing
  {
    RunKeeps(states, events, i);
  }

  predicate Still(s: State) {
    s.v.closing && s.v.active == map[] && s.reserved == multiset{} && s.counted == multiset{}
  }

  lemma {:induction false} StillStays(states: seq<State>, events: seq<Event>, j: nat)
    requires Run(states, events) && j < |states| && Still(states[0])
    ensures Still(states[j])
    decreases j
  {
    if j > 0 {
      StillStays(states, events, j - 1);
      assert Enabled(states[j - 1], events[j - 1]);
    }
  }

  /** Some run can become active from here. */
  ghost predicate CanComeUp(s: State) {
    exists states: seq<State>, events: seq<Event> :: Run(states, events) && states[0] == s && states[|events|].v.active != map[]
  }

  predicate NoLonger(used: set<string>, n: nat) {
    forall r :: r in used ==> |r| <= n
  }

  lemma {:induction false} LengthBound(used: set<string>) returns (n: nat)
    ensures NoLonger(used, n)
  {
    if used == {} { return 0; }
    var r :| r in used;
    var m := LengthBound(used - {r});
    n := if m < |r| then |r| else m;
    assert forall x :: x in used ==> x == r || x in used - {r};
  }

  lemma FreshRun(used: set<string>) returns (run: string)
    ensures run != "" && run !in used
  {
    var n := LengthBound(used);
    run := seq(n + 1, _ => 'r');
    assert |run| == n + 1;
  }

  lemma ReservedCanComeUp(s: State, job: string)
    requires job in s.reserved
    ensures CanComeUp(s)
  {
    var run := FreshRun(s.used);
    var a := Do(s, Join(job));
    var b := Do(a, Publish(job, run));
    var states, events := [s, a, b], [Join(job), Publish(job, run)];
    assert run in b.v.active;
    assert Run(states, events) && states[0] == s && states[|events|].v.active != map[];
  }

  /** After a shutdown's wait has returned, a run can still come up if and only if
      some start had reserved its job and not yet joined the wait group. */
  lemma LateStartExactly(states: seq<State>, events: seq<Event>, i: nat)
    requires History(states, events) && i < |events| && events[i] == WaitReturns
    ensures CanComeUp(states[i + 1]) <==> states[i].reserved != multiset{}
  {
    NothingActiveAtReturn(states, events, i);
    var u := states[i + 1];
    if u.reserved != multiset{} {
      var job :| job in u.reserved;
      ReservedCanComeUp(u, job);
    } else if CanComeUp(u) {
      var more: seq<State>, labels: seq<Event> :| Run(more, labels) && more[0] == u && more[|labels|].v.active != map[];
      StillStays(more, labels, |labels|);
    }
  }

  /** One such history: the shutdown has returned, and a run comes up. */
  lemma ALateStart(job: string, run: string) returns (states: seq<State>, events: seq<Event>)
    requires run != ""
    ensures History(states, events)
    ensures events == [Reserve(job), Shutdown, WaitReturns, Join(job), Publish(job, run)]
    ensures states[5].returned && states[5].v.closing && run in states[5].v.active
  {
    events := [Reserve(job), Shutdown, WaitReturns, Join(job), Publish(job, run)];
    var a := Do(INITIAL, Reserve(job));
    var b := Do(a, Shutdown);
    var d := Do(b, WaitReturns);
    var e := Do(d, Join(job));
    var f := Do(e, Publish(job, run));
    states := [INITIAL, a, b, d, e, f];
  }
}
