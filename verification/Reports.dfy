/** The execution result: the record that the stages fill in as they go, and
    what it says about what was done. */
module Reports {
  import opened Scans
  import opened Differ
  import opened Executor
  import opened Gating

  // ---- what a log says -----------------------------------------------------

  /** All that a log comes to: what was made, copied, removed, skipped, cleared out of
      the way and deleted at the end, and every failure in order but those of
      trailing directory removals. */
  datatype Account = Account(
    made: nat, copied: nat, removed: nat, skipped: nat, cleared: nat, trailing: nat, failures: seq<Failure>)

  const NOTHING := Account(0, 0, 0, 0, 0, 0, [])

  function Plus(a: Account, r: Record): Account {
    match r.outcome
    case Vanished => a.(skipped := a.skipped + 1)
    case Failed(cause) =>
      if Trailing(r.action) && r.action.kind == RmDir then a
      else a.(failures := a.failures + [Failure(r.action.relPath, r.action.kind, cause)])
    case Done =>
      match r.action.kind
      case MkDir => a.(made := a.made + 1)
      case Copy => a.(copied := a.copied + 1)
      case RmDir => a.(removed := a.removed + 1)
      case Delete => if r.action.unblock then a.(cleared := a.cleared + 1) else a.(trailing := a.trailing + 1)
  }

  function AccountOf(log: seq<Record>): Account {
    if log == [] then NOTHING else Plus(AccountOf(log[..|log| - 1]), log[|log| - 1])
  }

  lemma AccountSnoc(log: seq<Record>, r: Record)
    ensures AccountOf(log + [r]) == Plus(AccountOf(log), r)
  {
    assert (log + [r])[..|log|] == log;
  }

  // ---- the loops that fill it in -------------------------------------------

  /** What the sequential stages meet, one outcome for each action, and how many
      they get to before a cancellation. */
  predicate Answers(actions: seq<Action>, outcomes: seq<Outcome>) {
    |outcomes| == |actions| && forall i :: 0 <= i < |outcomes| ==> outcomes[i] != Vanished
  }

  function Records(actions: seq<Action>, outcomes: seq<Outcome>, n: nat): seq<Record>
    requires n <= |actions| == |outcomes|
  {
    seq(n, i requires 0 <= i < n => Record(actions[i], outcomes[i]))
  }

  lemma OneMore(actions: seq<Action>, outcomes: seq<Outcome>, n: nat)
    requires n < |actions| == |outcomes|
    ensures AccountOf(Records(actions, outcomes, n + 1)) ==
      Plus(AccountOf(Records(actions, outcomes, n)), Record(actions[n], outcomes[n]))
  {
    assert Records(actions, outcomes, n + 1) == Records(actions, outcomes, n) + [Record(actions[n], outcomes[n])];
    AccountSnoc(Records(actions, outcomes, n), Record(actions[n], outcomes[n]));
  }

  class ExecResult {
    var dirsCreated: nat
    var filesDeleted: nat
    var dirsRemoved: nat
    var failures: seq<Failure>

    constructor ()
      ensures dirsCreated == filesDeleted == dirsRemoved == 0 && failures == []
    {
      dirsCreated, filesDeleted, dirsRemoved, failures := 0, 0, 0, [];
    }

    method ClearBlockers(actions: seq<Action>, outcomes: seq<Outcome>, cancelledAt: nat) returns (ok: bool, ghost n: nat)
      requires Answers(actions, outcomes)
      requires forall a :: a in actions ==> a.unblock && (a.kind == Delete || a.kind == RmDir)
      modifies this
      ensures n == (if cancelledAt < |actions| then cancelledAt else |actions|) && (ok <==> n == |actions|)
      ensures dirsCreated == old(dirsCreated)
      ensures var account := AccountOf(Records(actions, outcomes, n));
        && filesDeleted == old(filesDeleted) + account.cleared
        && dirsRemoved == old(dirsRemoved) + account.removed
        && failures == old(failures) + account.failures
    {
      n := 0;
      for i := 0 to |actions|
        invariant n == i <= cancelledAt && dirsCreated == old(dirsCreated)
        invariant filesDeleted == old(filesDeleted) + AccountOf(Records(actions, outcomes, i)).cleared
        invariant dirsRemoved == old(dirsRemoved) + AccountOf(Records(actions, outcomes, i)).removed
        invariant failures == old(failures) + AccountOf(Records(actions, outcomes, i)).failures
      {
        if i == cancelledAt { return false, n; }
        var a := actions[i];
        assert a in actions && outcomes[i] != Vanished;
        OneMore(actions, outcomes, i);
        if outcomes[i].Failed? {
          failures := failures + [Failure(a.relPath, a.kind, outcomes[i].cause)];
        } else if a.kind == RmDir {
          dirsRemoved := dirsRemoved + 1;
        } else {
          filesDeleted := filesDeleted + 1;
        }
        n := n + 1;
      }
      ok := true;
    }

    method MakeDirs(actions: seq<Action>, outcomes: seq<Outcome>, cancelledAt: nat) returns (ok: bool, ghost n: nat)
      requires Answers(actions, outcomes) && forall a :: a in actions ==> !a.unblock && a.kind == MkDir
      modifies this
      ensures n == (if cancelledAt < |actions| then cancelledAt else |actions|) && (ok <==> n == |actions|)
      ensures filesDeleted == old(filesDeleted) && dirsRemoved == old(dirsRemoved)
      ensures var account := AccountOf(Records(actions, outcomes, n));
        && dirsCreated == old(dirsCreated) + account.made
        && failures == old(failures) + account.failures
    {
      n := 0;
      for i := 0 to |actions|
        invariant n == i <= cancelledAt && filesDeleted == old(filesDeleted) && dirsRemoved == old(dirsRemoved)
        invariant dirsCreated == old(dirsCreated) + AccountOf(Records(actions, outcomes, i)).made
        invariant failures == old(failures) + AccountOf(Records(actions, outcomes, i)).failures
      {
        if i == cancelledAt { return false, n; }
        var a := actions[i];
        assert a in actions && outcomes[i] != Vanished;
        OneMore(actions, outcomes, i);
        if outcomes[i].Failed? {
          failures := failures + [Failure(a.relPath, a.kind, outcomes[i].cause)];
        } else {
          dirsCreated := dirsCreated + 1;
        }
        n := n + 1;
      }
      ok := true;
    }

    /** A directory that cannot be removed is only warned about. */
    method RemoveDirs(actions: seq<Action>, outcomes: seq<Outcome>, cancelledAt: nat) returns (ghost n: nat)
      requires Answers(actions, outcomes) && forall a :: a in actions ==> !a.unblock && a.kind == RmDir
      modifies this
      ensures n == if cancelledAt < |actions| then cancelledAt else |actions|
      ensures filesDeleted == old(filesDeleted) && dirsCreated == old(dirsCreated)
      ensures var account := AccountOf(Records(actions, outcomes, n));
        && dirsRemoved == old(dirsRemoved) + account.removed
        && failures == old(failures) + account.failures == old(failures)
    {
      n := 0;
      for i := 0 to |actions|
        invariant n == i <= cancelledAt && filesDeleted == old(filesDeleted) && dirsCreated == old(dirsCreated)
        invariant dirsRemoved == old(dirsRemoved) + AccountOf(Records(actions, outcomes, i)).removed
        invariant failures == old(failures) && AccountOf(Records(actions, outcomes, i)).failures == []
      {
        if i == cancelledAt { return; }
        var a := actions[i];
        assert a in actions && outcomes[i] != Vanished;
        OneMore(actions, outcomes, i);
        if !outcomes[i].Failed? { dirsRemoved := dirsRemoved + 1; }
        n := n + 1;
      }
    }
  }

  // ---- and what it says at any moment of a run -----------------------------

  /** The result says what the account says, but for the deleted files. */
  predicate Tells(r: Result, a: Account) {
    && r.dirsCreated == a.made && r.filesCopied == a.copied && r.dirsRemoved == a.removed
    && r.skipped == a.skipped && r.failures == a.failures
  }

  /** The run got past clearing paths and making directories. */
  predicate PastMaking(c: Config, s: State) {
    |s.log| >= |c.stages.unblocks| + |c.stages.mkdirs|
  }

  /** Clearing and making log one record for each action they get to. */
  predicate Paced(c: Config, s: State) {
    match s.stage
    case Clearing(i) => |s.log| == i <= |c.stages.unblocks|
    case Making(i) => i <= |c.stages.mkdirs| && |s.log| == |c.stages.unblocks| + i
    case Returned(_) => true
    case _ => PastMaking(c, s)
  }

  /** The count of deleted files. The trailing pass, once it has run, replaces what
      clearing had counted. */
  predicate CountsDeleted(c: Config, s: State, a: Account) {
    match s.stage
    case Deleting(_, n) => |c.stages.deletes| > 0 && s.result.filesDeleted == a.cleared && n == a.trailing
    case Removing(_) => s.result.filesDeleted == if |c.stages.deletes| > 0 then a.trailing else a.cleared
    case Returned(_) =>
      s.result.filesDeleted ==
        if PastMaking(c, s) && |c.stages.deletes| > 0 && !s.result.deletionsSkipped then a.trailing else a.cleared
    case _ => s.result.filesDeleted == a.cleared && a.trailing == 0
  }

  predicate TruthfulAbout(c: Config, s: State, a: Account) {
    Tells(s.result, a) && Paced(c, s) && CountsDeleted(c, s, a)
  }

  /** The result says what the log says. */
  predicate Truthful(c: Config, s: State) {
    TruthfulAbout(c, s, AccountOf(s.log))
  }

  lemma ClearTruthful(c: Config, s: State, o: Outcome, t: Tree)
    requires Shaped(c.stages) && HasNext(c, s) && Truthful(c, s) && o != Vanished && s.stage.Clearing?
    ensures Truthful(c, NextWith(c, s, o, t))
  {
    assert NextAction(c, s) in c.stages.unblocks;
    AccountSnoc(s.log, Record(NextAction(c, s), o));
  }

  lemma MakeTruthful(c: Config, s: State, o: Outcome, t: Tree)
    requires Shaped(c.stages) && HasNext(c, s) && Truthful(c, s) && o != Vanished && s.stage.Making?
    ensures Truthful(c, NextWith(c, s, o, t))
  {
    assert NextAction(c, s) in c.stages.mkdirs;
    AccountSnoc(s.log, Record(NextAction(c, s), o));
  }

  lemma RemoveTruthful(c: Config, s: State, o: Outcome, t: Tree)
    requires Shaped(c.stages) && HasNext(c, s) && Truthful(c, s) && o != Vanished && s.stage.Removing?
    ensures Truthful(c, NextWith(c, s, o, t))
  {
    assert NextAction(c, s) in c.stages.rmdirs;
    AccountSnoc(s.log, Record(NextAction(c, s), o));
  }

  lemma NextTruthful(c: Config, s: State, o: Outcome, t: Tree)
    requires Shaped(c.stages) && HasNext(c, s) && Truthful(c, s) && o != Vanished
    ensures Truthful(c, NextWith(c, s, o, t))
  {
    match s.stage
    case Clearing(_) => ClearTruthful(c, s, o, t);
    case Making(_) => MakeTruthful(c, s, o, t);
    case Removing(_) => RemoveTruthful(c, s, o, t);
  }

  lemma CopyTruthful(c: Config, s: State, k: nat, o: Outcome, t: Tree)
    requires Shaped(c.stages) && Busy(c, s, k) && Truthful(c, s) && s.stage.Copying?
    ensures Truthful(c, FinishWith(c, s, k, o, t))
  {
    assert c.stages.copies[k] in c.stages.copies;
    AccountSnoc(s.log, Record(c.stages.copies[k], o));
  }

  lemma DeleteTruthful(c: Config, s: State, k: nat, o: Outcome, t: Tree)
    requires Shaped(c.stages) && Busy(c, s, k) && Truthful(c, s) && s.stage.Deleting? && o != Vanished
    ensures Truthful(c, FinishWith(c, s, k, o, t))
  {
    assert c.stages.deletes[k] in c.stages.deletes;
    AccountSnoc(s.log, Record(c.stages.deletes[k], o));
  }

  lemma FinishTruthful(c: Config, s: State, k: nat, o: Outcome, t: Tree)
    requires Shaped(c.stages) && Busy(c, s, k) && Truthful(c, s) && (o == Vanished ==> s.stage.Copying?)
    ensures Truthful(c, FinishWith(c, s, k, o, t))
  {
    if s.stage.Copying? { CopyTruthful(c, s, k, o, t); } else { DeleteTruthful(c, s, k, o, t); }
  }

  lemma GateTruthful(c: Config, s: State, a: Account)
    requires (s.stage.Making? && PastMaking(c, s)) || s.stage.Copying?
    requires TruthfulAbout(c, s, a) && !s.result.deletionsSkipped
    ensures TruthfulAbout(c, AfterCopies(c, s), a)
  {
  }

  lemma AdvanceTruthful(c: Config, s: State, a: Account)
    requires Enabled(c, s, Advance) && (s.result.deletionsSkipped ==> s.stage.Returned?) && TruthfulAbout(c, s, a)
    ensures TruthfulAbout(c, Do(c, s, Advance), a)
  {
    match s.stage
    case Making(_) => if !HasNext(c, s) { GateTruthful(c, s, a); }
    case Copying(_, _) => GateTruthful(c, s, a);
    case Clearing(_) =>
    case Deleting(_, _) =>
    case Removing(_) =>
  }

  lemma InitTruthful(c: Config, s: State)
    requires s == Init(s.tree)
    ensures Truthful(c, s)
  {
  }

  lemma PoolTruthful(c: Config, s: State, l: Label, a: Account)
    requires Enabled(c, s, l) && TruthfulAbout(c, s, a)
    requires l.Cancel? || l.Feed? || l.Close? || l.Begin? || l.Leave? || l.GiveUp?
    ensures TruthfulAbout(c, Do(c, s, l), a)
  {
  }

  lemma AnyNextTruthful(c: Config, s: State, r: Answer)
    requires Shaped(c.stages) && Enabled(c, s, Next(r)) && Truthful(c, s)
    ensures Truthful(c, Do(c, s, Next(r)))
  {
    var a := NextAction(c, s);
    OnlyCopiesVanish(c, s.tree, a, r);
    assert a in c.stages.unblocks || a in c.stages.mkdirs || a in c.stages.rmdirs;
    NextTruthful(c, s, OutcomeOf(c, s.tree, a, r), TreeAfter(c, s.tree, a, r));
  }

  lemma AnyFinishTruthful(c: Config, s: State, k: nat, r: Answer)
    requires Shaped(c.stages) && Enabled(c, s, Finish(k, r)) && Truthful(c, s)
    ensures Truthful(c, Do(c, s, Finish(k, r)))
  {
    var a := Work(c, s)[k];
    OnlyCopiesVanish(c, s.tree, a, r);
    assert a in Work(c, s);
    FinishTruthful(c, s, k, OutcomeOf(c, s.tree, a, r), TreeAfter(c, s.tree, a, r));
  }

  /** A step that logs nothing. */
  lemma QuietTruthful(c: Config, s: State, l: Label)
    requires Enabled(c, s, l) && Truthful(c, s) && !l.Next? && !l.Finish?
    requires s.result.deletionsSkipped ==> s.stage.Returned?
    ensures Truthful(c, Do(c, s, l))
  {
    if l.Advance? { AdvanceTruthful(c, s, AccountOf(s.log)); } else { PoolTruthful(c, s, l, AccountOf(s.log)); }
    assert Do(c, s, l).log == s.log;
  }

  lemma StepTruthful(c: Config, s: State, l: Label)
    requires Shaped(c.stages) && Enabled(c, s, l) && Truthful(c, s)
    requires s.result.deletionsSkipped ==> s.stage.Returned?
    ensures Truthful(c, Do(c, s, l))
  {
    match l
    case Next(r) => AnyNextTruthful(c, s, r);
    case Finish(k, r) => AnyFinishTruthful(c, s, k, r);
    case _ => QuietTruthful(c, s, l);
  }

  /** At every step of every run, whatever fails or is cancelled, the result is an
      exact account of what was logged. */
  lemma {:induction false} ResultTellsTheLog(c: Config, states: seq<State>, labels: seq<Label>, i: nat)
    requires Shaped(c.stages) && Run(c, states, labels) && i < |states|
    ensures Truthful(c, states[i])
    decreases i
  {
    if i == 0 {
      InitTruthful(c, states[0]);
    } else {
      ResultTellsTheLog(c, states, labels, i - 1);
      RunIsSound(c, states, labels, i - 1);
      var s, l, u := states[i - 1], labels[i - 1], states[i];
      assert Enabled(c, s, l) && u == Do(c, s, l);
      StepTruthful(c, s, l);
    }
  }

  // ---- the account, counted record by record -------------------------------

  /** What a record can stand for. */
  datatype Item = MadeDir | CopiedFile | RemovedDir | ClearedFile | DeletedFile | FoundGone | RecordedFailure

  predicate StandsFor(r: Record, item: Item) {
    match item
    case MadeDir => r.outcome == Done && r.action.kind == MkDir
    case CopiedFile => r.outcome == Done && r.action.kind == Copy
    case RemovedDir => r.outcome == Done && r.action.kind == RmDir
    case ClearedFile => r.outcome == Done && r.action.kind == Delete && r.action.unblock
    case DeletedFile => r.outcome == Done && r.action.kind == Delete && !r.action.unblock
    case FoundGone => r.outcome == Vanished
    case RecordedFailure => r.outcome.Failed? && (r.action.kind != RmDir || r.action.unblock)
  }

  /** The places in a log that stand for one. */
  function Places(log: seq<Record>, item: Item): set<nat> {
    set i: nat | i < |log| && StandsFor(log[i], item)
  }

  lemma PlacesSnoc(log: seq<Record>, r: Record, item: Item)
    ensures |Places(log + [r], item)| == |Places(log, item)| + if StandsFor(r, item) then 1 else 0
  {
    var more := log + [r];
    if StandsFor(r, item) {
      assert Places(more, item) == Places(log, item) + {|log|};
    } else {
      assert Places(more, item) == Places(log, item);
    }
  }

  function Counted(a: Account, item: Item): nat {
    match item
    case MadeDir => a.made
    case CopiedFile => a.copied
    case RemovedDir => a.removed
    case ClearedFile => a.cleared
    case DeletedFile => a.trailing
    case FoundGone => a.skipped
    case RecordedFailure => |a.failures|
  }

  /** Every count is the number of records that stand for it. */
  lemma {:induction false} AccountIsExact(log: seq<Record>, item: Item)
    ensures Counted(AccountOf(log), item) == |Places(log, item)|
  {
    if log != [] {
      var before, r := log[..|log| - 1], log[|log| - 1];
      assert log == before + [r];
      AccountIsExact(before, item);
      AccountSnoc(before, r);
      PlacesSnoc(before, r, item);
    }
  }

  /** So at every step of every run each counter of the result is the number of
      records it stands for. */
  lemma ResultCountsRecords(c: Config, states: seq<State>, labels: seq<Label>, i: nat)
    requires Shaped(c.stages) && Run(c, states, labels) && i < |states|
    ensures var r, log := states[i].result, states[i].log;
      var trailing := c.stages.deletes != [] && !r.deletionsSkipped;
      && r.dirsCreated == |Places(log, MadeDir)| && r.filesCopied == |Places(log, CopiedFile)|
      && r.dirsRemoved == |Places(log, RemovedDir)| && r.skipped == |Places(log, FoundGone)|
      && |r.failures| == |Places(log, RecordedFailure)|
      && (states[i].stage == Returned(false) && trailing ==> r.filesDeleted == |Places(log, DeletedFile)|)
      && (states[i].stage == Returned(false) && !trailing ==> r.filesDeleted == |Places(log, ClearedFile)|)
  {
    ResultTellsTheLog(c, states, labels, i);
    RunIsPast(c, states, labels, i);
    var log := states[i].log;
    AccountIsExact(log, MadeDir);
    AccountIsExact(log, CopiedFile);
    AccountIsExact(log, RemovedDir);
    AccountIsExact(log, FoundGone);
    AccountIsExact(log, RecordedFailure);
    AccountIsExact(log, DeletedFile);
    AccountIsExact(log, ClearedFile);
  }

  /** A run that returns in the end got past making directories. */
  lemma {:induction false} RunIsPast(c: Config, states: seq<State>, labels: seq<Label>, i: nat)
    requires Shaped(c.stages) && Run(c, states, labels) && i < |states|
    ensures states[i].stage == Returned(false) ==> PastMaking(c, states[i])
    decreases i
  {
    if i > 0 {
      RunIsPast(c, states, labels, i - 1);
      ResultTellsTheLog(c, states, labels, i - 1);
      AdvancePast(c, states[i - 1], labels[i - 1]);
    }
  }

  lemma AdvancePast(c: Config, s: State, l: Label)
    requires Enabled(c, s, l) && Paced(c, s) && (s.stage == Returned(false) ==> PastMaking(c, s))
    ensures Do(c, s, l).stage == Returned(false) ==> PastMaking(c, Do(c, s, l))
  {
  }
}
