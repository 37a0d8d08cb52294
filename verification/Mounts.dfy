/** Mount reference counting: entries are worked on under their own lock, so a
    history is any interleaving of whole operations on single entries. */
module Mounts {

  const ZERO_TIME := 0

  datatype Entry = Entry(refs: nat, mounted: bool, idleSince: int)

  const FRESH := Entry(0, false, ZERO_TIME)

  /** What bringing a mount up runs into: the mount table cannot be read, the
      mount is there and responds, it is stale or another share and is detached
      and mounted again, or it is not there and is mounted. */
  datatype Bring = TableError | Responds | Again(ok: bool) | Anew(ok: bool)

  /** What taking a mount down runs into. */
  datatype Take = Unreadable | NotThere | Detached | Wedged

  predicate Up(b: Bring) { b.Responds? || (b.Again? && b.ok) || (b.Anew? && b.ok) }

  function EnsureMounted(e: Entry, b: Bring): Entry {
    match b
    case TableError => e
    case Responds => e.(mounted := true)
    case Again(ok) => e.(mounted := ok)
    case Anew(ok) => if ok then e.(mounted := true) else e
  }

  function Acquired(e: Entry, b: Bring): Entry {
    var m := EnsureMounted(e, b);
    if Up(b) then m.(refs := m.refs + 1) else m
  }

  function Released(e: Entry, now: int): Entry {
    var refs := if e.refs > 0 then e.refs - 1 else 0;
    e.(refs := refs, idleSince := if refs == 0 then now else e.idleSince)
  }

  function UnmountLocked(e: Entry, t: Take): Entry {
    match t
    case Unreadable => e
    case NotThere => e.(mounted := false)
    case Detached => e.(mounted := false)
    case Wedged => e
  }

  function Unmounted(e: Entry, t: Take): Entry {
    if e.refs > 0 then e else UnmountLocked(e, t)
  }

  predicate Idle(e: Entry, now: int, grace: int) {
    e.refs == 0 && e.mounted && e.idleSince != ZERO_TIME && now - e.idleSince >= grace
  }

  /** One entry of a reaper pass; `busy` when its lock is held elsewhere. */
  function Reaped(e: Entry, busy: bool, t: Take, now: int, grace: int): Entry {
    if !busy && Idle(e, now, grace) then UnmountLocked(e, t) else e
  }

  function At(entries: map<string, Entry>, id: string): Entry {
    if id in entries then entries[id] else FRESH
  }

  // ---- histories ----------------------------------------------------------

  /** The entries, who holds a reference to what, and when each target was last
      let go of. */
  datatype State = State(entries: map<string, Entry>, handles: map<nat, string>, lastRelease: map<string, int>, clock: int)

  datatype Event =
    | Acquire(id: string, b: Bring, handle: nat)
    | Release(handle: nat)
    | Unmount(id: string, t: Take)
    | Reap(id: string, busy: bool, t: Take)
    | Tick(now: int)

  predicate Enabled(s: State, e: Event) {
    match e
    case Acquire(_, _, h) => h !in s.handles
    case Release(h) => h in s.handles
    case Unmount(_, _) => true
    case Reap(id, _, _) => id in s.entries
    case Tick(now) => now >= s.clock
  }

  function Do(s: State, e: Event, grace: int): State
    requires Enabled(s, e)
  {
    match e
    case Acquire(id, b, h) =>
      s.(entries := s.entries[id := Acquired(At(s.entries, id), b)],
         handles := if Up(b) then s.handles[h := id] else s.handles)
    case Release(h) =>
      var id := s.handles[h];
      s.(entries := s.entries[id := Released(At(s.entries, id), s.clock)], handles := s.handles - {h},
         lastRelease := s.lastRelease[id := s.clock])
    case Unmount(id, t) => s.(entries := s.entries[id := Unmounted(At(s.entries, id), t)])
    case Reap(id, busy, t) => s.(entries := s.entries[id := Reaped(s.entries[id], busy, t, s.clock, grace)])
    case Tick(now) => s.(clock := now)
  }

  /** The operation takes a mount down. */
  predicate Detaches(s: State, e: Event, grace: int)
    requires Enabled(s, e)
  {
    match e
    case Acquire(_, b, _) => b.Again?
    case Unmount(id, t) => At(s.entries, id).refs == 0 && t == Detached
    case Reap(id, busy, t) => !busy && Idle(s.entries[id], s.clock, grace) && t == Detached
    case _ => false
  }

  function Holders(s: State, id: string): set<nat> {
    set h | h in s.handles && s.handles[h] == id
  }

  ghost predicate Counted(s: State) {
    && s.clock > ZERO_TIME
    && (forall id :: At(s.entries, id).refs == |Holders(s, id)|)
    && (forall id :: At(s.entries, id).mounted && At(s.entries, id).refs == 0 ==>
          At(s.entries, id).idleSince != ZERO_TIME)
    && (forall id :: At(s.entries, id).refs == 0 && At(s.entries, id).idleSince != ZERO_TIME ==>
          id in s.lastRelease && s.lastRelease[id] == At(s.entries, id).idleSince)
    && (forall id :: id in s.lastRelease ==> s.lastRelease[id] <= s.clock)
  }

  lemma HoldersChange(s: State, u: State, id: string, h: nat)
    requires u.handles == s.handles[h := id] && h !in s.handles
    ensures Holders(u, id) == Holders(s, id) + {h} && h !in Holders(s, id)
    ensures forall x :: x != id ==> Holders(u, x) == Holders(s, x)
  {
  }

  lemma AcquireUpCounts(s: State, id: string, b: Bring, h: nat, grace: int)
    requires Enabled(s, Acquire(id, b, h)) && Counted(s) && Up(b)
    ensures Counted(Do(s, Acquire(id, b, h), grace))
  {
    HoldersChange(s, Do(s, Acquire(id, b, h), grace), id, h);
  }

  lemma AcquireCounts(s: State, id: string, b: Bring, h: nat, grace: int)
    requires Enabled(s, Acquire(id, b, h)) && Counted(s)
    ensures Counted(Do(s, Acquire(id, b, h), grace))
  {
    if Up(b) {
      AcquireUpCounts(s, id, b, h, grace);
    } else {
      assert forall x :: Holders(Do(s, Acquire(id, b, h), grace), x) == Holders(s, x);
    }
  }

  lemma ReleaseCounts(s: State, h: nat, grace: int)
    requires Enabled(s, Release(h)) && Counted(s)
    ensures Counted(Do(s, Release(h), grace))
    ensures At(s.entries, s.handles[h]).refs > 0
  {
    var id, u := s.handles[h], Do(s, Release(h), grace);
    assert h in Holders(s, id);
    assert Holders(u, id) == Holders(s, id) - {h};
    assert forall x :: x != id ==> Holders(u, x) == Holders(s, x);
  }

  lemma StepCounts(s: State, e: Event, grace: int)
    requires Enabled(s, e) && Counted(s)
    ensures Counted(Do(s, e, grace))
  {
    match e
    case Acquire(id, b, h) => AcquireCounts(s, id, b, h, grace);
    case Release(h) => ReleaseCounts(s, h, grace);
    case _ =>
      var u := Do(s, e, grace);
      assert forall x :: Holders(u, x) == Holders(s, x);
  }

  ghost predicate Run(states: seq<State>, events: seq<Event>, grace: int) {
    && |states| == |events| + 1
    && states[0] == State(map[], map[], map[], states[0].clock) && states[0].clock > ZERO_TIME
    && forall i {:trigger events[i]} :: 0 <= i < |events| ==>
         Enabled(states[i], events[i]) && states[i + 1] == Do(states[i], events[i], grace)
  }

  lemma {:induction false} RunCounts(states: seq<State>, events: seq<Event>, grace: int, i: nat)
    requires Run(states, events, grace) && i < |states|
    ensures Counted(states[i])
    decreases i
  {
    if i == 0 {
      assert forall id :: Holders(states[0], id) == {};
    } else {
      RunCounts(states, events, grace, i - 1);
      StepCounts(states[i - 1], events[i - 1], grace);
    }
  }

  /** Some history leads here. */
  ghost predicate Reachable(s: State, grace: int) {
    exists states, events :: Run(states, events, grace) && states[|events|] == s
  }

  lemma ReachableCounts(s: State, grace: int)
    requires Reachable(s, grace)
    ensures Counted(s)
  {
    var states, events :| Run(states, events, grace) && states[|events|] == s;
    RunCounts(states, events, grace, |events|);
  }

  lemma StartIsReachable(clock: int, grace: int)
    requires clock > ZERO_TIME
    ensures Reachable(State(map[], map[], map[], clock), grace)
  {
    var states, events: seq<Event> := [State(map[], map[], map[], clock)], [];
    assert Run(states, events, grace) && states[|events|] == State(map[], map[], map[], clock);
  }

  lemma ReachesOn(s: State, e: Event, grace: int)
    requires Reachable(s, grace) && Enabled(s, e)
    ensures Reachable(Do(s, e, grace), grace)
  {
    var states, events :| Run(states, events, grace) && states[|events|] == s;
    var more, labels := states + [Do(s, e, grace)], events + [e];
    forall i {:trigger labels[i]} | 0 <= i < |labels|
      ensures Enabled(more[i], labels[i]) && more[i + 1] == Do(more[i], labels[i], grace)
    {
      if i < |events| { assert labels[i] == events[i]; }
    }
    assert Run(more, labels, grace) && more[|labels|] == Do(s, e, grace);
  }

  // ---- the manager --------------------------------------------------------

  /** The manager. Its ghost state knows who holds what, and every method is one of
      the events above, so that it is always at the end of some history. */
  class Manager {
    var entries: map<string, Entry>
    const grace: int
    ghost var s: State

    ghost predicate Valid()
      reads this
    {
      Reachable(s, grace) && s.entries == entries
    }

    constructor (grace: int, ghost clock: int)
      requires clock > ZERO_TIME
      ensures Valid() && entries == map[] && this.grace == grace && s.clock == clock
    {
      this.grace := grace;
      entries := map[];
      s := State(map[], map[], map[], clock);
      StartIsReachable(clock, grace);
    }

    /** Takes a reference, held as `h`, if the mount is or comes up. */
    method Acquire(id: string, b: Bring, ghost h: nat) returns (ok: bool)
      requires Valid() && h !in s.handles
      modifies this
      ensures Valid() && s == Do(old(s), Event.Acquire(id, b, h), grace)
      ensures ok <==> Up(b)
      ensures entries[id].refs == |Holders(s, id)| && (ok ==> h in Holders(s, id) && entries[id].mounted)
      ensures !ok ==> s.handles == old(s).handles && entries[id].refs == At(old(entries), id).refs
      ensures !ok ==> entries[id].mounted == if b.Again? then false else At(old(entries), id).mounted
      ensures entries == old(entries)[id := entries[id]] && entries[id].idleSince == At(old(entries), id).idleSince
    {
      ReachesOn(s, Event.Acquire(id, b, h), grace);
      s := Do(s, Event.Acquire(id, b, h), grace);
      ReachableCounts(s, grace);
      var e := if id in entries then entries[id] else FRESH;
      match b {
        case TableError => ok := false;
        case Responds => e := e.(mounted := true); ok := true;
        case Again(mounts) =>
          e := e.(mounted := false);
          ok := mounts;
          if ok { e := e.(mounted := true); }
        case Anew(mounts) =>
          ok := mounts;
          if ok { e := e.(mounted := true); }
      }
      if ok { e := e.(refs := e.refs + 1); }
      entries := entries[id := e];
      assert At(entries, id).refs == |Holders(s, id)|;
    }

    /** Gives the reference held as `h` back. */
    method Release(id: string, now: int, ghost h: nat)
      requires Valid() && now >= s.clock && h in s.handles && s.handles[h] == id
      modifies this
      ensures Valid() && s == Do(Do(old(s), Tick(now), grace), Event.Release(h), grace)
      ensures entries[id].refs == At(old(entries), id).refs - 1
      ensures entries[id].idleSince == if entries[id].refs == 0 then now else At(old(entries), id).idleSince
      ensures entries == old(entries)[id := entries[id]] && entries[id].mounted == At(old(entries), id).mounted
    {
      ReachableCounts(s, grace);
      ReleaseCounts(s, h, grace);
      ReachesOn(s, Tick(now), grace);
      s := Do(s, Tick(now), grace);
      ReachesOn(s, Event.Release(h), grace);
      s := Do(s, Event.Release(h), grace);
      var e := if id in entries then entries[id] else FRESH;
      if e.refs > 0 { e := e.(refs := e.refs - 1); }
      if e.refs == 0 { e := e.(idleSince := now); }
      entries := entries[id := e];
    }

    /** Takes the mount down unless somebody holds it. */
    method Unmount(id: string, t: Take) returns (inUse: bool)
      requires Valid()
      modifies this
      ensures Valid() && s == Do(old(s), Event.Unmount(id, t), grace)
      ensures inUse <==> Holders(old(s), id) != {}
      ensures inUse ==> entries[id] == At(old(entries), id)
      ensures !inUse ==> entries[id].mounted == (At(old(entries), id).mounted && t != Detached && t != NotThere)
      ensures entries == old(entries)[id := At(old(entries), id).(mounted := entries[id].mounted)]
    {
      ReachableCounts(s, grace);
      ReachesOn(s, Event.Unmount(id, t), grace);
      assert At(entries, id).refs == |Holders(s, id)|;
      s := Do(s, Event.Unmount(id, t), grace);
      var e := if id in entries then entries[id] else FRESH;
      inUse := e.refs > 0;
      if !inUse { e := UnmountLocked(e, t); }
      entries := entries[id := e];
    }

    method ReapEntry(id: string, busy: bool, take: Take, now: int)
      requires Valid() && id in entries && s.clock == now
      modifies this
      ensures Valid() && s == Do(old(s), Reap(id, busy, take), grace)
      ensures entries == old(entries)[id := Reaped(old(entries)[id], busy, take, now, grace)]
    {
      ReachesOn(s, Reap(id, busy, take), grace);
      s := Do(s, Reap(id, busy, take), grace);
      var e := entries[id];
      if !busy && e.refs == 0 && e.mounted && e.idleSince != ZERO_TIME && now - e.idleSince >= grace {
        e := UnmountLocked(e, take);
      }
      entries := entries[id := e];
    }

    /** A reaper pass over every entry, in any order. Whatever it takes down nobody
        holds, and it was last let go of a grace period ago. */
    method ReapOnce(busy: string -> bool, take: string -> Take, now: int)
      requires Valid() && now >= s.clock
      modifies this
      ensures Valid() && s.handles == old(s).handles && s.lastRelease == old(s).lastRelease
      ensures entries.Keys == old(entries).Keys
      ensures forall id :: id in entries ==>
        entries[id] == Reaped(old(entries)[id], busy(id), take(id), now, grace)
      ensures forall id :: id in entries && entries[id] != old(entries)[id] ==>
        Holders(s, id) == {} && id in s.lastRelease && now - s.lastRelease[id] >= grace
    {
      ghost var first := s;
      ReachesOn(s, Tick(now), grace);
      s := Do(s, Tick(now), grace);
      var left := entries.Keys;
      while left != {}
        invariant Valid() && s.clock == now && s.handles == first.handles && s.lastRelease == first.lastRelease
        invariant left <= entries.Keys == old(entries).Keys
        invariant forall id :: id in left ==> entries[id] == old(entries)[id]
        invariant forall id :: id in entries && id !in left ==>
          entries[id] == Reaped(old(entries)[id], busy(id), take(id), now, grace)
      {
        var id :| id in left;
        left := left - {id};
        ReapEntry(id, busy(id), take(id), now);
      }
      ReapedWereIdle(first, s, busy, take, now, grace);
    }
  }

  lemma ReapedWereIdle(s: State, u: State, busy: string -> bool, take: string -> Take, now: int, grace: int)
    requires Reachable(s, grace) && u.handles == s.handles && u.lastRelease == s.lastRelease && u.entries.Keys == s.entries.Keys
    requires forall id :: id in u.entries ==> u.entries[id] == Reaped(s.entries[id], busy(id), take(id), now, grace)
    ensures forall id :: id in u.entries && u.entries[id] != s.entries[id] ==>
      Holders(u, id) == {} && id in u.lastRelease && now - u.lastRelease[id] >= grace
  {
    ReachableCounts(s, grace);
    forall id | id in u.entries && u.entries[id] != s.entries[id]
      ensures Holders(u, id) == {} && id in u.lastRelease && now - u.lastRelease[id] >= grace
    {
      assert At(s.entries, id).refs == |Holders(s, id)| && Holders(u, id) == Holders(s, id);
    }
  }

  // ---- what every history keeps -------------------------------------------

  /** Over every history: the count is the number of unreleased handles, a
      mounted entry nobody holds is on the idle clock, and a step detaches what
      somebody holds if and only if it acquires a target whose mount is stale or
      another share while somebody holds it. */
  lemma NeverDetachedInUse(states: seq<State>, events: seq<Event>, grace: int, i: nat, id: string)
    requires Run(states, events, grace) && i < |events|
    ensures At(states[i].entries, id).refs == |Holders(states[i], id)|
    ensures At(states[i].entries, id).mounted && Holders(states[i], id) == {} ==>
      At(states[i].entries, id).idleSince != ZERO_TIME
    ensures Target(events[i]) == Some(id) && Detaches(states[i], events[i], grace) && Holders(states[i], id) != {} <==>
      events[i].Acquire? && events[i].id == id && events[i].b.Again? && Holders(states[i], id) != {}
  {
    RunCounts(states, events, grace, i);
    assert At(states[i].entries, id).refs == |Holders(states[i], id)|;
  }

  datatype Option = None | Some(id: string)

  /** The target whose mount an event may take down. */
  function Target(e: Event): Option {
    match e
    case Acquire(id, _, _) => Some(id)
    case Unmount(id, _) => Some(id)
    case Reap(id, _, _) => Some(id)
    case _ => None
  }

  /** The reaper detaches only what was last let go of a grace period ago. */
  lemma ReaperWaits(states: seq<State>, events: seq<Event>, grace: int, i: nat)
    requires Run(states, events, grace) && i < |events|
    requires events[i].Reap? && Detaches(states[i], events[i], grace)
    ensures var id := events[i].id;
      id in states[i].lastRelease && states[i].clock - states[i].lastRelease[id] >= grace
  {
    RunCounts(states, events, grace, i);
  }

  /** When the reaper comes by an entry that is free to be looked at and whose mount
      comes off, it detaches it if and only if it is mounted, nobody holds it, and
      it was last let go of at least a grace period ago. */
  lemma ReaperActsExactly(states: seq<State>, events: seq<Event>, grace: int, i: nat)
    requires Run(states, events, grace) && i < |events| && events[i].Reap? && !events[i].busy && events[i].t == Detached
    ensures var s, id := states[i], events[i].id;
      && (Detaches(s, events[i], grace) <==>
            At(s.entries, id).mounted && Holders(s, id) == {} && id in s.lastRelease && s.clock - s.lastRelease[id] >= grace)
      && (At(states[i + 1].entries, id).mounted <==> At(s.entries, id).mounted && !Detaches(s, events[i], grace))
  {
    RunCounts(states, events, grace, i);
    var s, id := states[i], events[i].id;
    assert At(s.entries, id).refs == |Holders(s, id)|;
  }

  /** Every release finds a reference to give back. */
  lemma ReleaseNeverClamps(states: seq<State>, events: seq<Event>, grace: int, i: nat)
    requires Run(states, events, grace) && i < |events| && events[i].Release?
    ensures At(states[i].entries, states[i].handles[events[i].handle]).refs > 0
  {
    RunCounts(states, events, grace, i);
    ReleaseCounts(states[i], events[i].handle, grace);
  }

  /** The exception is real: a target held by somebody can be detached by the
      next acquisition, which finds it stale. */
  lemma AcquireMayDetachInUse(grace: int) returns (states: seq<State>, events: seq<Event>)
    ensures Run(states, events, grace) && |events| == 2
    ensures Detaches(states[1], events[1], grace) && Holders(states[1], events[1].id) != {}
  {
    var s0 := State(map[], map[], map[], 1);
    var e0, e1 := Acquire("nas", Anew(true), 0), Acquire("nas", Again(true), 1);
    var s1 := Do(s0, e0, grace);
    var s2 := Do(s1, e1, grace);
    states, events := [s0, s1, s2], [e0, e1];
    assert 0 in Holders(s1, "nas");
  }
}
