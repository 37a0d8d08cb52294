/** One destination name under every interleaving of copy attempts: overlapping,
    stalled and abandoned ones, operations that take effect after they were
    reported as timed out, and a crash at any step. */
module Copier {

  type Data = seq<bv8>
  type Name = seq<bv8>

  datatype Time = Zero | At(ns: int)

  /** A file, and whether its data has been flushed to the server. */
  datatype File = File(data: Data, time: Time, synced: bool)

  datatype Option = None | Some(file: File)

  datatype Phase = Copying | Copied | Flushed | Timed | Failing | Committed | Gone

  datatype Attempt = Attempt(tmp: Name, want: Time, read: Data, phase: Phase)

  /** An operation reported as timed out that may still take effect. */
  datatype Late = LateSync(tmp: Name) | LateTime(tmp: Name, want: Time) | LateRename(tmp: Name)

  /** `past` holds everything the destination name has ever named, and `used`
      every temporary name ever chosen. */
  datatype State = State(
    dst: Name, fs: map<Name, File>, attempts: map<nat, Attempt>, late: set<Late>, used: set<Name>, past: set<Option>)

  datatype Label =
    | Start(id: nat, tmp: Name, want: Time)
    | Chunk(id: nat, bytes: Data, wrote: nat)
    | Eof(id: nat)
    | Sync(id: nat)
    | SetTime(id: nat)
    | Rename(id: nat)
    | Fail(id: nat)
    | TimeOut(id: nat)
    | Cleanup(id: nat, removed: bool)
    | Arrive(op: Late)
    | Crash(left: map<Name, File>)

  predicate Live(p: Phase) {
    p.Copying? || p.Copied? || p.Flushed? || p.Timed?
  }

  predicate GivenUp(p: Phase) {
    p.Failing? || p.Gone?
  }

  /** Phases only entered after the end of the source was read. */
  predicate ReadAll(p: Phase) {
    p.Copied? || p.Flushed? || p.Timed? || p.Committed?
  }

  predicate In(s: State, id: nat, p: Phase) {
    id in s.attempts && s.attempts[id].phase == p
  }

  /** What a crash can leave: the name goes back to any file it has named, whose
      data is only certain to survive if it had been flushed. Temporary files
      can hold anything, or be gone. */
  ghost predicate CanBeLeft(s: State, left: map<Name, File>) {
    && (exists v :: v in s.past && if v.None? then s.dst !in left else s.dst in left && (left[s.dst] == v.file || !v.file.synced))
    && forall n :: n in left ==> n in s.fs || n == s.dst
  }

  ghost predicate Enabled(s: State, l: Label) {
    match l
    case Start(id, tmp, _) => id !in s.attempts && tmp !in s.used && tmp !in s.fs && tmp != s.dst
    case Chunk(id, bytes, wrote) => In(s, id, Copying) && s.attempts[id].tmp in s.fs && 0 < |bytes| && wrote <= |bytes|
    case Eof(id) => In(s, id, Copying)
    case Sync(id) => In(s, id, Copied) && s.attempts[id].tmp in s.fs
    case SetTime(id) => In(s, id, Flushed) && s.attempts[id].tmp in s.fs
    case Rename(id) => In(s, id, Timed) && s.attempts[id].tmp in s.fs
    case Fail(id) => id in s.attempts && Live(s.attempts[id].phase)
    case TimeOut(id) => In(s, id, Copied) || In(s, id, Flushed) || In(s, id, Timed)
    case Cleanup(id, _) => In(s, id, Failing)
    case Arrive(op) => op in s.late
    case Crash(left) => CanBeLeft(s, left)
  }

  function Named(fs: map<Name, File>, n: Name): Option {
    if n in fs then Some(fs[n]) else None
  }

  function Enter(s: State, id: nat, p: Phase): State
    requires id in s.attempts
  {
    s.(attempts := s.attempts[id := s.attempts[id].(phase := p)])
  }

  /** Replaces a temporary file that still exists. */
  function Touch(s: State, tmp: Name, f: File): State {
    s.(fs := s.fs[tmp := f])
  }

  function Stamp(f: File, want: Time): File {
    if want.Zero? then f else f.(time := want)
  }

  function Publish(s: State, tmp: Name): State
    requires tmp in s.fs
  {
    s.(fs := (s.fs - {tmp})[s.dst := s.fs[tmp]], past := s.past + {Some(s.fs[tmp])})
  }

  function Apply(s: State, op: Late): State {
    if op.tmp !in s.fs then s
    else match op
      case LateSync(tmp) => Touch(s, tmp, s.fs[tmp].(synced := true))
      case LateTime(tmp, want) => Touch(s, tmp, Stamp(s.fs[tmp], want))
      case LateRename(tmp) => Publish(s, tmp)
  }

  /** The operation an attempt is waiting for. */
  function Waiting(a: Attempt): Late {
    match a.phase
    case Copied => LateSync(a.tmp)
    case Flushed => LateTime(a.tmp, a.want)
    case _ => LateRename(a.tmp)
  }

  function Take(s: State, id: nat, bytes: Data, wrote: nat): State
    requires id in s.attempts && s.attempts[id].tmp in s.fs && wrote <= |bytes|
  {
    var a, f := s.attempts[id], s.fs[s.attempts[id].tmp];
    var t := Touch(s, a.tmp, File(f.data + bytes[..wrote], f.time, false));
    t.(attempts := t.attempts[id := a.(read := a.read + bytes, phase := if wrote < |bytes| then Failing else Copying)])
  }

  ghost function Step(s: State, l: Label): State
    requires Enabled(s, l)
  {
    match l
    case Start(id, tmp, want) =>
      s.(fs := s.fs[tmp := File([], Zero, false)], used := s.used + {tmp},
         attempts := s.attempts[id := Attempt(tmp, want, [], Copying)])
    case Chunk(id, bytes, wrote) => Take(s, id, bytes, wrote)
    case Eof(id) => Enter(s, id, Copied)
    case Sync(id) => Enter(Apply(s, Waiting(s.attempts[id])), id, Flushed)
    case SetTime(id) => Enter(Apply(s, Waiting(s.attempts[id])), id, Timed)
    case Rename(id) => Enter(Apply(s, Waiting(s.attempts[id])), id, Committed)
    case Fail(id) => Enter(s, id, Failing)
    case TimeOut(id) => Enter(s, id, Failing).(late := s.late + {Waiting(s.attempts[id])})
    case Cleanup(id, removed) => Enter(if removed then s.(fs := s.fs - {s.attempts[id].tmp}) else s, id, Gone)
    case Arrive(op) => Apply(s, op).(late := s.late - {op})
    case Crash(left) =>
      s.(fs := left, late := {}, past := s.past + {Named(left, s.dst)},
         attempts := map id | id in s.attempts :: s.attempts[id].(phase := Gone))
  }

  /** Labels that can happen one after another. */
  ghost predicate Run(s: State, labels: seq<Label>)
    decreases |labels|, 0
  {
    labels == [] || (Run(s, labels[..|labels| - 1]) && Enabled(Final(s, labels[..|labels| - 1]), labels[|labels| - 1]))
  }

  ghost function Final(s: State, labels: seq<Label>): State
    requires Run(s, labels)
    decreases |labels|, 1
  {
    if labels == [] then s else Step(Final(s, labels[..|labels| - 1]), labels[|labels| - 1])
  }

  /** All that one attempt read from the source. */
  function ReadBy(labels: seq<Label>, id: nat): Data
    decreases |labels|
  {
    if labels == [] then []
    else
      var l := labels[|labels| - 1];
      ReadBy(labels[..|labels| - 1], id) + if l.Chunk? && l.id == id then l.bytes else []
  }

  // ---- the invariant -------------------------------------------------------

  /** A file that holds all that was to be read, flushed and stamped. */
  predicate Whole(f: File, a: Attempt) {
    f.data == a.read && f.synced && (a.want.At? ==> f.time == a.want)
  }

  /** What an attempt has achieved on its temporary file. */
  predicate Staged(s: State, a: Attempt) {
    && a.tmp in s.used && a.tmp != s.dst
    && (Live(a.phase) ==> a.tmp in s.fs && s.fs[a.tmp].data == a.read)
    && (a.phase.Flushed? || a.phase.Timed? ==> s.fs[a.tmp].synced)
    && (a.phase.Timed? ==> Whole(s.fs[a.tmp], a))
  }

  ghost predicate PublishedBy(s: State, f: File, ended: set<nat>) {
    exists id :: id in s.attempts && id in ended && Whole(f, s.attempts[id])
  }

  /** A pending operation belongs to an attempt that has given up, and a pending
      rename to one whose temporary file is whole. */
  ghost predicate Pending(s: State, op: Late, ended: set<nat>) {
    exists id :: Owns(s, id, op, ended)
  }

  predicate Owns(s: State, id: nat, op: Late, ended: set<nat>) {
    && id in s.attempts && s.attempts[id].tmp == op.tmp && GivenUp(s.attempts[id].phase)
    && (op.LateTime? ==> op.want == s.attempts[id].want)
    && (op.LateRename? ==> id in ended && (op.tmp in s.fs ==> Whole(s.fs[op.tmp], s.attempts[id])))
  }

  /** What is known of the attempts. */
  ghost predicate Orderly(s: State, ended: set<nat>) {
    && (forall id :: id in s.attempts ==> Staged(s, s.attempts[id]))
    && (forall i, j :: i in s.attempts && j in s.attempts && i != j ==> s.attempts[i].tmp != s.attempts[j].tmp)
    && (forall id :: id in s.attempts && ReadAll(s.attempts[id].phase) ==> id in ended)
    && (forall id :: id in ended ==> id in s.attempts && s.attempts[id].phase != Copying)
  }

  ghost predicate Inv(s: State, first: Option, ended: set<nat>) {
    && Orderly(s, ended)
    && (forall op :: op in s.late ==> Pending(s, op, ended))
    && (forall v :: v in s.past ==> Acceptable(s, v, first, ended))
    && Named(s.fs, s.dst) in s.past
  }

  /** What was there at first, or a whole and flushed copy of all one attempt read. */
  ghost predicate Acceptable(s: State, v: Option, first: Option, ended: set<nat>) {
    (v.Some? ==> v.file.synced) && (v == first || (v.Some? && PublishedBy(s, v.file, ended)))
  }

  // ---- every step keeps it -------------------------------------------------

  lemma OthersStaged(s: State, t: State, id: nat, ended: set<nat>)
    requires Orderly(s, ended) && id in s.attempts && t.dst == s.dst && t.used == s.used
    requires t.attempts.Keys == s.attempts.Keys && forall k :: k in s.attempts && k != id ==> t.attempts[k] == s.attempts[k]
    requires forall n :: n != s.attempts[id].tmp ==> Named(t.fs, n) == Named(s.fs, n)
    ensures forall k :: k in s.attempts && k != id ==> Staged(t, t.attempts[k]) && (GivenUp(s.attempts[k].phase) ==> StillGivenUp(s, t, k))
  {
    forall k | k in s.attempts && k != id
      ensures Staged(t, t.attempts[k]) && (GivenUp(s.attempts[k].phase) ==> StillGivenUp(s, t, k))
    {
      assert Staged(s, s.attempts[k]) && s.attempts[k].tmp != s.attempts[id].tmp;
      assert Named(t.fs, s.attempts[k].tmp) == Named(s.fs, s.attempts[k].tmp);
    }
  }

  /** Changing one attempt and its temporary file keeps what is known of the others. */
  lemma OneAttempt(s: State, t: State, id: nat, first: Option, ended: set<nat>, more: set<nat>)
    requires Inv(s, first, ended) && id in s.attempts && Live(s.attempts[id].phase) && ended <= more <= ended + {id}
    requires t.dst == s.dst && t.late == s.late && t.used == s.used && t.past == s.past
    requires t.attempts.Keys == s.attempts.Keys
    requires t.attempts[id] == s.attempts[id].(read := t.attempts[id].read, phase := t.attempts[id].phase)
    requires forall k :: k in s.attempts && k != id ==> t.attempts[k] == s.attempts[k]
    requires forall n :: n != s.attempts[id].tmp ==> Named(t.fs, n) == Named(s.fs, n)
    requires Staged(t, t.attempts[id])
    requires t.attempts[id].read == s.attempts[id].read || id !in more
    requires ReadAll(t.attempts[id].phase) ==> id in more
    requires id in more ==> t.attempts[id].phase != Copying
    ensures Inv(t, first, more)
  {
    OthersStaged(s, t, id, ended);
    LatesStill(s, t, ended, more);
    AcceptableStill(s, t, first, ended, more);
  }

  /** An attempt that has given up, as seen from a later state. */
  predicate StillGivenUp(s: State, t: State, id: nat)
    requires id in s.attempts
  {
    var a := s.attempts[id];
    && id in t.attempts && t.attempts[id] == a.(phase := t.attempts[id].phase) && GivenUp(t.attempts[id].phase)
    && (a.tmp in t.fs ==> a.tmp in s.fs && (Whole(s.fs[a.tmp], a) ==> Whole(t.fs[a.tmp], a)))
  }

  lemma LatesStill(s: State, t: State, ended: set<nat>, more: set<nat>)
    requires ended <= more
    requires forall id :: id in s.attempts && GivenUp(s.attempts[id].phase) ==> StillGivenUp(s, t, id)
    ensures forall op :: Pending(s, op, ended) ==> Pending(t, op, more)
  {
    forall op | Pending(s, op, ended) ensures Pending(t, op, more) {
      var id :| Owns(s, id, op, ended);
      assert StillGivenUp(s, t, id);
      assert Owns(t, id, op, more);
    }
  }

  lemma AcceptableStill(s: State, t: State, first: Option, ended: set<nat>, more: set<nat>)
    requires ended <= more && s.attempts.Keys <= t.attempts.Keys
    requires forall id :: id in s.attempts && id in ended ==>
      t.attempts[id].read == s.attempts[id].read && t.attempts[id].want == s.attempts[id].want
    ensures forall v :: Acceptable(s, v, first, ended) ==> Acceptable(t, v, first, more)
  {
    forall v | Acceptable(s, v, first, ended) ensures Acceptable(t, v, first, more) {
      if v != first {
        var id :| id in s.attempts && id in ended && Whole(v.file, s.attempts[id]);
        assert id in t.attempts && id in more && Whole(v.file, t.attempts[id]);
      }
    }
  }

  lemma StartKeeps(s: State, id: nat, tmp: Name, want: Time, first: Option, ended: set<nat>)
    requires Inv(s, first, ended) && Enabled(s, Start(id, tmp, want))
    ensures Inv(Step(s, Start(id, tmp, want)), first, ended)
  {
    var t := Step(s, Start(id, tmp, want));
    assert Orderly(t, ended) by {
      forall k | k in t.attempts ensures Staged(t, t.attempts[k]) && (k != id ==> t.attempts[k].tmp != tmp) {
        if k != id { assert Staged(s, s.attempts[k]); }
      }
    }
    LatesStill(s, t, ended, ended);
    AcceptableStill(s, t, first, ended, ended);
  }

  lemma CopyKeeps(s: State, l: Label, first: Option, ended: set<nat>)
    requires Inv(s, first, ended) && Enabled(s, l) && (l.Chunk? || l.Eof? || l.Fail?)
    ensures Inv(Step(s, l), first, Ended(ended, l))
  {
    var id, t := l.id, Step(s, l);
    assert Staged(s, s.attempts[id]);
    assert Staged(t, t.attempts[id]);
    OneAttempt(s, t, id, first, ended, Ended(ended, l));
  }

  lemma GoneKeeps(s: State, id: nat, first: Option, ended: set<nat>)
    requires Inv(s, first, ended) && In(s, id, Failing)
    ensures Inv(Enter(s, id, Gone), first, ended)
  {
    var t := Enter(s, id, Gone);
    assert Orderly(t, ended) by {
      forall k | k in t.attempts ensures Staged(t, t.attempts[k]) {
        assert Staged(s, s.attempts[k]);
      }
    }
    LatesStill(s, t, ended, ended);
    AcceptableStill(s, t, first, ended, ended);
  }

  lemma RemoveKeeps(s: State, id: nat, first: Option, ended: set<nat>)
    requires Inv(s, first, ended) && In(s, id, Failing)
    ensures Inv(s.(fs := s.fs - {s.attempts[id].tmp}), first, ended)
  {
    var t := s.(fs := s.fs - {s.attempts[id].tmp});
    assert Staged(s, s.attempts[id]);
    assert Orderly(t, ended) by {
      forall k | k in t.attempts ensures Staged(t, t.attempts[k]) {
        assert Staged(s, s.attempts[k]);
      }
    }
    LatesStill(s, t, ended, ended);
    AcceptableStill(s, t, first, ended, ended);
  }

  lemma CleanupKeeps(s: State, id: nat, removed: bool, first: Option, ended: set<nat>)
    requires Inv(s, first, ended) && Enabled(s, Cleanup(id, removed))
    ensures Inv(Step(s, Cleanup(id, removed)), first, ended)
  {
    var u := if removed then s.(fs := s.fs - {s.attempts[id].tmp}) else s;
    if removed { RemoveKeeps(s, id, first, ended); }
    GoneKeeps(u, id, first, ended);
  }

  lemma StageKeeps(s: State, l: Label, first: Option, ended: set<nat>)
    requires Inv(s, first, ended) && Enabled(s, l) && (l.Sync? || l.SetTime?)
    ensures Inv(Step(s, l), first, ended)
  {
    var id, t := l.id, Step(s, l);
    assert Staged(s, s.attempts[id]);
    assert Staged(t, t.attempts[id]);
    OneAttempt(s, t, id, first, ended, ended);
  }

  lemma TimeOutKeeps(s: State, id: nat, first: Option, ended: set<nat>)
    requires Inv(s, first, ended) && Enabled(s, TimeOut(id))
    ensures Inv(Step(s, TimeOut(id)), first, ended)
  {
    var u, t, op := Enter(s, id, Failing), Step(s, TimeOut(id)), Waiting(s.attempts[id]);
    assert Staged(s, s.attempts[id]);
    OneAttempt(s, u, id, first, ended, ended);
    assert Owns(u, id, op, ended);
    OnlyLate(u, t, first, ended);
  }

  /** Only the set of pending operations changes. */
  lemma OnlyLate(s: State, t: State, first: Option, ended: set<nat>)
    requires Inv(s, first, ended) && t == s.(late := t.late)
    requires forall op :: op in t.late ==> Pending(s, op, ended)
    ensures Inv(t, first, ended)
  {
    assert Orderly(t, ended) by {
      forall k | k in t.attempts ensures Staged(t, t.attempts[k]) {
        assert Staged(s, s.attempts[k]);
      }
    }
    LatesStill(s, t, ended, ended);
    AcceptableStill(s, t, first, ended, ended);
  }

  lemma PublishStaged(s: State, id: nat, p: Phase, ended: set<nat>)
    requires Orderly(s, ended) && id in s.attempts && s.attempts[id].tmp in s.fs && id in ended && !Live(p)
    requires p == s.attempts[id].phase || s.attempts[id].phase == Timed
    ensures var t := Enter(Publish(s, s.attempts[id].tmp), id, p);
      && Orderly(t, ended)
      && forall k :: k in s.attempts && GivenUp(s.attempts[k].phase) ==> StillGivenUp(s, t, k)
  {
    var t := Enter(Publish(s, s.attempts[id].tmp), id, p);
    assert Staged(s, s.attempts[id]);
    forall k | k in s.attempts
      ensures Staged(t, t.attempts[k]) && (GivenUp(s.attempts[k].phase) ==> StillGivenUp(s, t, k))
    {
      assert Staged(s, s.attempts[k]);
    }
  }

  /** Publishing a whole temporary file that nothing will write again. */
  lemma PublishKeeps(s: State, id: nat, p: Phase, first: Option, ended: set<nat>)
    requires Inv(s, first, ended) && id in s.attempts && s.attempts[id].tmp in s.fs && id in ended
    requires Whole(s.fs[s.attempts[id].tmp], s.attempts[id]) && !Live(p)
    requires p == s.attempts[id].phase || s.attempts[id].phase == Timed
    ensures Inv(Enter(Publish(s, s.attempts[id].tmp), id, p), first, ended)
  {
    var tmp := s.attempts[id].tmp;
    var t := Enter(Publish(s, tmp), id, p);
    PublishStaged(s, id, p, ended);
    LatesStill(s, t, ended, ended);
    AcceptableStill(s, t, first, ended, ended);
    assert PublishedBy(t, s.fs[tmp], ended) by { assert Whole(s.fs[tmp], t.attempts[id]); }
  }

  lemma RenameKeeps(s: State, id: nat, first: Option, ended: set<nat>)
    requires Inv(s, first, ended) && Enabled(s, Rename(id))
    ensures Inv(Step(s, Rename(id)), first, ended)
  {
    assert Staged(s, s.attempts[id]);
    PublishKeeps(s, id, Committed, first, ended);
  }

  lemma ArriveKeeps(s: State, op: Late, first: Option, ended: set<nat>)
    requires Inv(s, first, ended) && op in s.late
    ensures Inv(Step(s, Arrive(op)), first, ended)
  {
    var u, t := Apply(s, op), Step(s, Arrive(op));
    assert Pending(s, op, ended);
    var id :| Owns(s, id, op, ended);
    if op.tmp in s.fs {
      if op.LateRename? {
        PublishKeeps(s, id, s.attempts[id].phase, first, ended);
        assert u.attempts == Enter(u, id, s.attempts[id].phase).attempts;
      } else {
        TouchKeeps(s, u, id, first, ended);
      }
    }
    forall o | o in t.late ensures Pending(u, o, ended) { }
    OnlyLate(u, t, first, ended);
  }

  /** Flushing or stamping the temporary file of an attempt that has given up. */
  lemma TouchKeeps(s: State, t: State, id: nat, first: Option, ended: set<nat>)
    requires Inv(s, first, ended) && id in s.attempts && GivenUp(s.attempts[id].phase) && s.attempts[id].tmp in s.fs
    requires t == Apply(s, LateSync(s.attempts[id].tmp)) || t == Apply(s, LateTime(s.attempts[id].tmp, s.attempts[id].want))
    ensures Inv(t, first, ended)
  {
    var tmp := s.attempts[id].tmp;
    assert Staged(s, s.attempts[id]);
    assert Orderly(t, ended) by {
      forall k | k in t.attempts ensures Staged(t, t.attempts[k]) {
        assert Staged(s, s.attempts[k]);
      }
    }
    LatesStill(s, t, ended, ended);
    AcceptableStill(s, t, first, ended, ended);
  }

  lemma CrashKeeps(s: State, left: map<Name, File>, first: Option, ended: set<nat>)
    requires Inv(s, first, ended) && Enabled(s, Crash(left))
    ensures Inv(Step(s, Crash(left)), first, ended)
  {
    var t := Step(s, Crash(left));
    forall k | k in t.attempts ensures Staged(t, t.attempts[k]) {
      assert Staged(s, s.attempts[k]);
    }
    AcceptableStill(s, t, first, ended, ended);
    var v :| v in s.past && if v.None? then s.dst !in left else s.dst in left && (left[s.dst] == v.file || !v.file.synced);
    assert Acceptable(s, v, first, ended);
  }

  function Ended(ended: set<nat>, l: Label): set<nat> {
    if l.Eof? then ended + {l.id} else ended
  }

  lemma StepKeeps(s: State, l: Label, first: Option, ended: set<nat>)
    requires Inv(s, first, ended) && Enabled(s, l)
    ensures Inv(Step(s, l), first, Ended(ended, l))
  {
    match l
    case Start(id, tmp, want) => StartKeeps(s, id, tmp, want, first, ended);
    case Chunk(_, _, _) => CopyKeeps(s, l, first, ended);
    case Eof(_) => CopyKeeps(s, l, first, ended);
    case Fail(_) => CopyKeeps(s, l, first, ended);
    case Cleanup(id, removed) => CleanupKeeps(s, id, removed, first, ended);
    case Sync(_) => StageKeeps(s, l, first, ended);
    case SetTime(_) => StageKeeps(s, l, first, ended);
    case Rename(id) => RenameKeeps(s, id, first, ended);
    case TimeOut(id) => TimeOutKeeps(s, id, first, ended);
    case Arrive(op) => ArriveKeeps(s, op, first, ended);
    case Crash(left) => CrashKeeps(s, left, first, ended);
  }
}
