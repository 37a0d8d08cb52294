/** What every run of copy attempts at one destination name keeps to. */
module CopyRuns {
  import opened Copier

  /** Nothing has been attempted yet, and what is there has been flushed. */
  predicate Initial(s: State) {
    && s.attempts == map[] && s.late == {} && s.past == {Named(s.fs, s.dst)}
    && (s.dst in s.fs ==> s.fs[s.dst].synced)
  }

  ghost function EndedBy(labels: seq<Label>): set<nat> {
    if labels == [] then {} else Ended(EndedBy(labels[..|labels| - 1]), labels[|labels| - 1])
  }

  lemma {:induction false} EndedMeansEof(labels: seq<Label>, id: nat)
    ensures id in EndedBy(labels) <==> Eof(id) in labels
  {
    if labels != [] {
      EndedMeansEof(labels[..|labels| - 1], id);
      assert labels == labels[..|labels| - 1] + [labels[|labels| - 1]];
    }
  }

  lemma {:induction false} RunKeeps(s: State, labels: seq<Label>)
    requires Initial(s) && Run(s, labels)
    ensures Inv(Final(s, labels), Named(s.fs, s.dst), EndedBy(labels)) && Final(s, labels).dst == s.dst
  {
    if labels != [] {
      var before := labels[..|labels| - 1];
      RunKeeps(s, before);
      StepKeeps(Final(s, before), labels[|labels| - 1], Named(s.fs, s.dst), EndedBy(before));
    }
  }

  lemma {:induction false} ReadIsReadBy(s: State, labels: seq<Label>, id: nat)
    requires Initial(s) && Run(s, labels)
    ensures id in Final(s, labels).attempts ==> Final(s, labels).attempts[id].read == ReadBy(labels, id)
    ensures id !in Final(s, labels).attempts ==> ReadBy(labels, id) == []
  {
    if labels != [] {
      var before := labels[..|labels| - 1];
      ReadIsReadBy(s, before, id);
      ReadStep(Final(s, before), labels[|labels| - 1], id);
    }
  }

  lemma ReadStep(s: State, l: Label, id: nat)
    requires Enabled(s, l)
    ensures id in Step(s, l).attempts <==> id in s.attempts || (l.Start? && l.id == id)
    ensures id in s.attempts ==> Step(s, l).attempts[id].read == s.attempts[id].read + if l.Chunk? && l.id == id then l.bytes else []
    ensures id !in s.attempts && id in Step(s, l).attempts ==> Step(s, l).attempts[id].read == []
  {
  }

  lemma {:induction false} WantIsAsked(s: State, labels: seq<Label>, id: nat)
    requires Initial(s) && Run(s, labels) && id in Final(s, labels).attempts
    ensures var a := Final(s, labels).attempts[id]; Start(id, a.tmp, a.want) in labels
  {
    var before, l := labels[..|labels| - 1], labels[|labels| - 1];
    assert labels == before + [l];
    var u := Final(s, before);
    if id in u.attempts {
      WantIsAsked(s, before, id);
      KeepsNames(u, l, id);
    }
  }

  lemma KeepsNames(s: State, l: Label, id: nat)
    requires Enabled(s, l) && id in s.attempts
    ensures id in Step(s, l).attempts && Step(s, l).attempts[id].tmp == s.attempts[id].tmp && Step(s, l).attempts[id].want == s.attempts[id].want
  {
  }

  /** At every moment the destination name holds what it held at first, or all
      that one attempt read of the source up to its end, with the time that
      attempt was asked to set. */
  lemma PublicationIsAtomic(s: State, labels: seq<Label>)
    requires Initial(s) && Run(s, labels)
    ensures var now := Named(Final(s, labels).fs, s.dst);
      now == Named(s.fs, s.dst) || (now.Some? && exists id, tmp, want ::
        && Start(id, tmp, want) in labels && Eof(id) in labels
        && now.file.data == ReadBy(labels, id) && (want.At? ==> now.file.time == want))
  {
    RunKeeps(s, labels);
    var t := Final(s, labels);
    var now := Named(t.fs, s.dst);
    assert Acceptable(t, now, Named(s.fs, s.dst), EndedBy(labels));
    if now != Named(s.fs, s.dst) {
      var id :| id in t.attempts && id in EndedBy(labels) && Whole(now.file, t.attempts[id]);
      EndedMeansEof(labels, id);
      ReadIsReadBy(s, labels, id);
      WantIsAsked(s, labels, id);
    }
  }

  // ---- what the name has held ----------------------------------------------

  lemma {:induction false} RunPrefix(s: State, labels: seq<Label>, n: nat)
    requires Run(s, labels) && n <= |labels|
    ensures Run(s, labels[..n])
    decreases |labels|
  {
    if n < |labels| {
      var before := labels[..|labels| - 1];
      RunPrefix(s, before, n);
      assert before[..n] == labels[..n];
    } else {
      assert labels[..n] == labels;
    }
  }

  /** What the name held after so many steps. */
  ghost function HeldAt(s: State, labels: seq<Label>, n: nat): Option
    requires Run(s, labels) && n <= |labels|
  {
    RunPrefix(s, labels, n);
    Named(Final(s, labels[..n]).fs, s.dst)
  }

  /** A step that can change what the name holds. */
  predicate Renames(l: Label) {
    l.Rename? || l.Crash? || (l.Arrive? && l.op.LateRename?)
  }

  lemma StepHolds(s: State, l: Label, first: Option, ended: set<nat>)
    requires Inv(s, first, ended) && Enabled(s, l)
    ensures !Renames(l) ==> Named(Step(s, l).fs, s.dst) == Named(s.fs, s.dst)
    ensures Step(s, l).past == s.past + {Named(Step(s, l).fs, s.dst)}
  {
    assert forall id :: id in s.attempts ==> Staged(s, s.attempts[id]);
    if l.Arrive? {
      assert Pending(s, l.op, ended);
      var id :| Owns(s, id, l.op, ended);
      assert Staged(s, s.attempts[id]);
    }
  }

  /** As long as nothing renames or crashes, the name holds what it held. */
  lemma {:induction false} HeldStays(s: State, labels: seq<Label>, n: nat, m: nat)
    requires Initial(s) && Run(s, labels) && n <= m <= |labels|
    requires forall i :: n <= i < m ==> !Renames(labels[i])
    ensures HeldAt(s, labels, m) == HeldAt(s, labels, n)
    decreases m
  {
    if n < m {
      HeldStays(s, labels, n, m - 1);
      RunPrefix(s, labels, m);
      RunPrefix(s, labels, m - 1);
      RunKeeps(s, labels[..m - 1]);
      assert labels[..m][..m - 1] == labels[..m - 1];
      StepHolds(Final(s, labels[..m - 1]), labels[m - 1], Named(s.fs, s.dst), EndedBy(labels[..m - 1]));
    }
  }

  /** All that the name has held, step by step. */
  ghost function HeldIn(s: State, labels: seq<Label>): seq<Option>
    requires Run(s, labels)
  {
    if labels == [] then [Named(s.fs, s.dst)]
    else HeldIn(s, labels[..|labels| - 1]) + [Named(Final(s, labels).fs, s.dst)]
  }

  lemma {:induction false} HeldInIsHeldAt(s: State, labels: seq<Label>, n: nat)
    requires Run(s, labels) && n <= |labels|
    ensures |HeldIn(s, labels)| == |labels| + 1 && HeldIn(s, labels)[n] == HeldAt(s, labels, n)
    decreases |labels|
  {
    if labels == [] {
      assert labels[..n] == [];
    } else {
      var before := labels[..|labels| - 1];
      HeldInIsHeldAt(s, before, if n < |labels| then n else 0);
      if n < |labels| { assert before[..n] == labels[..n]; } else { assert labels[..n] == labels; }
    }
  }

  /** The record of what the name has held is exactly what it has held. */
  lemma {:induction false} PastIsHistory(s: State, labels: seq<Label>, v: Option)
    requires Initial(s) && Run(s, labels)
    ensures v in Final(s, labels).past <==> v in HeldIn(s, labels)
  {
    if labels != [] {
      var before := labels[..|labels| - 1];
      PastIsHistory(s, before, v);
      RunKeeps(s, before);
      StepHolds(Final(s, before), labels[|labels| - 1], Named(s.fs, s.dst), EndedBy(before));
    }
  }

  /** A rename that is reported as done has put all that the attempt read at the
      name, with the time it was asked to set. */
  lemma RenamePublishes(s: State, labels: seq<Label>, n: nat, id: nat)
    requires Initial(s) && Run(s, labels) && n < |labels| && labels[n] == Rename(id)
    ensures var held := HeldAt(s, labels, n + 1);
      && held.Some? && held.file.data == ReadBy(labels[..n + 1], id) && held.file.synced
      && exists tmp, want :: Start(id, tmp, want) in labels && (want.At? ==> held.file.time == want)
  {
    RunPrefix(s, labels, n);
    RunPrefix(s, labels, n + 1);
    var before, u := labels[..n], Final(s, labels[..n]);
    assert labels[..n + 1][..n] == before && labels[..n + 1][n] == Rename(id);
    RunKeeps(s, before);
    assert Staged(u, u.attempts[id]);
    ReadIsReadBy(s, before, id);
    WantIsAsked(s, before, id);
    assert Start(id, u.attempts[id].tmp, u.attempts[id].want) in labels;
    assert Final(s, labels[..n + 1]).fs[s.dst] == u.fs[u.attempts[id].tmp];
  }

  /** A rename that lands after it was reported as timed out publishes, as well, all
      that some attempt read to the end. */
  lemma LateRenamePublishes(s: State, labels: seq<Label>, n: nat, tmp: Name)
    requires Initial(s) && Run(s, labels) && n < |labels| && labels[n] == Arrive(LateRename(tmp))
    requires Run(s, labels[..n]) && tmp in Final(s, labels[..n]).fs
    ensures var held := HeldAt(s, labels, n + 1);
      held.Some? && exists id :: Eof(id) in labels && held.file.data == ReadBy(labels[..n], id) && held.file.synced
  {
    RunPrefix(s, labels, n + 1);
    var before, u := labels[..n], Final(s, labels[..n]);
    assert labels[..n + 1][..n] == before && labels[..n + 1][n] == labels[n];
    RunKeeps(s, before);
    assert Pending(u, LateRename(tmp), EndedBy(before));
    var id :| Owns(u, id, LateRename(tmp), EndedBy(before));
    EndedMeansEof(before, id);
    ReadIsReadBy(s, before, id);
    assert Final(s, labels[..n + 1]).fs[s.dst] == u.fs[tmp];
    assert Eof(id) in labels;
  }

  /** An operation that times out stays in flight: the flush, the stamp or the rename
      that the attempt was waiting for can still arrive. */
  lemma TimedOutCanArrive(s: State, labels: seq<Label>, id: nat)
    requires Run(s, labels) && Enabled(Final(s, labels), TimeOut(id))
    ensures var u := Final(s, labels);
      var a, v := u.attempts[id], Step(u, TimeOut(id));
      && (a.phase == Copied ==> Enabled(v, Arrive(LateSync(a.tmp))))
      && (a.phase == Flushed ==> Enabled(v, Arrive(LateTime(a.tmp, a.want))))
      && (a.phase == Timed ==> Enabled(v, Arrive(LateRename(a.tmp))))
  {
  }

  /** And until something else is renamed there, or a crash undoes it, that is what
      the name holds. */
  lemma PublishedStays(s: State, labels: seq<Label>, n: nat, m: nat, id: nat)
    requires Initial(s) && Run(s, labels) && n < m <= |labels| && labels[n] == Rename(id)
    requires forall i :: n < i < m ==> !Renames(labels[i])
    ensures var held := HeldAt(s, labels, m); held.Some? && held.file.data == ReadBy(labels[..n + 1], id)
  {
    RenamePublishes(s, labels, n, id);
    HeldStays(s, labels, n + 1, m);
  }

  /** An attempt that reported success was at the name, whole, at some moment. */
  lemma CommittedWasPublished(s: State, labels: seq<Label>, id: nat)
    requires Initial(s) && Run(s, labels) && Rename(id) in labels
    ensures exists n :: 0 <= n <= |labels| && var held := HeldAt(s, labels, n);
      held.Some? && held.file.synced && held.file.data == ReadBy(labels, id)
  {
    var n :| 0 <= n < |labels| && labels[n] == Rename(id);
    RenamePublishes(s, labels, n, id);
    ReadNoMore(s, labels, n + 1, id);
    assert HeldAt(s, labels, n + 1).Some?;
  }

  /** Nothing is read once the rename is done. */
  lemma {:induction false} ReadNoMore(s: State, labels: seq<Label>, n: nat, id: nat)
    requires Initial(s) && Run(s, labels) && 0 < n <= |labels| && labels[n - 1] == Rename(id)
    ensures ReadBy(labels, id) == ReadBy(labels[..n], id)
    decreases |labels|
  {
    if n == |labels| {
      assert labels[..n] == labels;
    } else {
      var before := labels[..|labels| - 1];
      assert before[..n] == labels[..n] && before[n - 1] == Rename(id);
      ReadNoMore(s, before, n, id);
      RenamedIsOver(s, before, id);
    }
  }

  lemma {:induction false} RenamedIsOver(s: State, labels: seq<Label>, id: nat)
    requires Initial(s) && Run(s, labels) && Rename(id) in labels
    ensures id in Final(s, labels).attempts && Final(s, labels).attempts[id].phase in {Committed, Gone}
  {
    if labels[|labels| - 1] != Rename(id) {
      RenamedIsOver(s, labels[..|labels| - 1], id);
    }
  }

  // ---- debris --------------------------------------------------------------

  /** No crash, and no clean-up that failed to remove its file. */
  predicate Clean(labels: seq<Label>) {
    forall i :: 0 <= i < |labels| ==> !labels[i].Crash? && (labels[i].Cleanup? ==> labels[i].removed)
  }

  ghost predicate OwnedOrOld(s: State, t: State, n: Name) {
    n in s.fs || n == s.dst || exists id :: id in t.attempts && t.attempts[id].tmp == n && (Live(t.attempts[id].phase) || t.attempts[id].phase.Failing?)
  }

  lemma OwnedStep(first: State, s: State, l: Label, n: Name)
    requires Enabled(s, l) && s.dst == first.dst && !l.Crash? && (l.Cleanup? ==> l.removed)
    requires n in s.fs ==> OwnedOrOld(first, s, n)
    requires n in Step(s, l).fs
    ensures OwnedOrOld(first, Step(s, l), n)
  {
    var t := Step(s, l);
    if n !in first.fs && n != first.dst {
      if n in s.fs {
        var id :| id in s.attempts && s.attempts[id].tmp == n && (Live(s.attempts[id].phase) || s.attempts[id].phase.Failing?);
        assert id in t.attempts && t.attempts[id].tmp == n;
      } else {
        assert l.Start?;
        assert t.attempts[l.id].tmp == n;
      }
    }
  }

  /** No temporary file outlives its attempt, whether that finished, failed or
      was abandoned, unless a crash or a failed removal left it. */
  lemma {:induction false} NoDebris(s: State, labels: seq<Label>, n: Name)
    requires Initial(s) && Run(s, labels) && Clean(labels) && n in Final(s, labels).fs
    ensures OwnedOrOld(s, Final(s, labels), n)
  {
    if labels != [] {
      var before := labels[..|labels| - 1];
      RunKeeps(s, before);
      if n in Final(s, before).fs { NoDebris(s, before, n); }
      OwnedStep(s, Final(s, before), labels[|labels| - 1], n);
    }
  }
}
