/** A run whose result loses a deleted file: the source has a directory where the
    destination has a file, and the destination has one file too many. */
module CountLost {
  import opened Paths
  import opened Scans
  import opened Differ
  import opened Effects
  import opened Executor
  import opened Reports

  const SOURCE: Tree := map["a" := Dir]
  const DESTINATION: Tree := map["a" := File([], 0), "b" := File([], 0)]

  const SRC := ScanResult(map["a" := EntryOf("a", Dir)], {}, {}, {})
  const DST := ScanResult(map["a" := EntryOf("a", File([], 0)), "b" := EntryOf("b", File([], 0))], {}, {}, {})

  function Unfolded(p: Path): Path { p }

  const OPTIONS := Options(Mirror, 0, false, false, Unfolded, AdmitAll)

  const CLEAR := Action(Delete, "a", 0, ZERO_TIME, true, false)
  const MAKE := MkdirAction("a")
  const REMOVE := Action(Delete, "b", 0, ZERO_TIME, false, false)

  const CONFIG := Config(Stages([CLEAR], [MAKE], [], [REMOVE], []), SOURCE, 1, KeepGoing, SkipDeletes, 0)

  /** It is the plan for these scans. */
  lemma IsThePlan()
    ensures IsStages(SRC, DST, OPTIONS, CONFIG.stages)
  {
    assert forall p :: !WantsCopy(SRC, DST, OPTIONS, p);
    assert forall p :: WantsUnblock(SRC, DST, OPTIONS, p) <==> p == "a";
    assert forall p :: WantsMkdir(SRC, DST, OPTIONS, p) <==> p == "a";
    assert forall p :: Extraneous(SRC, DST, OPTIONS, p) <==> p == "b";
    assert !Guarded(SRC, DST, OPTIONS);
  }

  lemma NothingAbove(p: Path)
    requires |p| == 1 && p[0] != '/'
    ensures forall a :: !IsAncestor(a, p)
    ensures AncestorSet(p) == {}
  {
  }

  const OK := Honest(0)
  const ONE: Result := NO_RESULT.(filesDeleted := 1)
  const MADE: Result := ONE.(dirsCreated := 1)
  const LOG: seq<Record> := [Record(CLEAR, Done), Record(MAKE, Done), Record(REMOVE, Done)]
  const CLEARED: Tree := map["b" := File([], 0)]
  const WITH_DIR: Tree := map["a" := Dir, "b" := File([], 0)]

  function Moment(stage: Stage, tree: Tree, result: Result, n: nat): State
    requires n <= |LOG|
  {
    State(stage, tree, false, false, result, LOG[..n])
  }

  function InPass(status: Status, fed: nat, idle: nat, open: bool, deleted: nat, tree: Tree, n: nat): State
    requires n <= |LOG|
  {
    Moment(Deleting(Pool([status], fed, idle, open), deleted), tree, MADE, n)
  }

  const LABELS: seq<Label> :=
    [Next(OK), Advance, Next(OK), Advance, Feed, Close, Begin(0), Finish(0, OK), Advance, Advance]

  const STATES: seq<State> :=
    [Moment(Clearing(0), DESTINATION, NO_RESULT, 0), Moment(Clearing(1), CLEARED, ONE, 1), Moment(Making(0), CLEARED, ONE, 1),
     Moment(Making(1), WITH_DIR, MADE, 2), InPass(Waiting, 0, 1, true, 0, WITH_DIR, 2),
     InPass(Received, 1, 0, true, 0, WITH_DIR, 2), InPass(Received, 1, 0, false, 0, WITH_DIR, 2),
     InPass(Running, 1, 0, false, 0, WITH_DIR, 2), InPass(Finished, 1, 1, false, 1, map["a" := Dir], 3),
     Moment(Removing(0), map["a" := Dir], MADE, 3), Moment(Returned(false), map["a" := Dir], MADE, 3)]

  /** One step leads from one state to the other. */
  ghost predicate Goes(s: State, l: Label, u: State) {
    Enabled(CONFIG, s, l) && Do(CONFIG, s, l) == u
  }

  lemma Clears()
    ensures Goes(STATES[0], LABELS[0], STATES[1]) && Goes(STATES[1], LABELS[1], STATES[2])
  {
    NothingAbove("a");
    assert Removable(DESTINATION, "a") && DESTINATION - {"a"} == CLEARED;
    assert LOG[..0] + [Record(CLEAR, Done)] == LOG[..1];
  }

  lemma Makes()
    ensures Goes(STATES[2], LABELS[2], STATES[3])
  {
    NothingAbove("a");
    assert !Obstructed(CLEARED, "a") && MakeAll(CLEARED, "a") == WITH_DIR;
    assert LOG[..1] + [Record(MAKE, Done)] == LOG[..2];
  }

  lemma Enters()
    ensures Goes(STATES[3], LABELS[3], STATES[4]) && Goes(STATES[4], LABELS[4], STATES[5])
  {
    assert NewPool(1, 1).status == [Waiting];
    assert [Waiting][0 := Received] == [Received];
  }

  lemma Takes()
    ensures Goes(STATES[5], LABELS[5], STATES[6]) && Goes(STATES[6], LABELS[6], STATES[7])
  {
    assert [Received][0 := Running] == [Running];
  }

  lemma Deletes()
    ensures Goes(STATES[7], LABELS[7], STATES[8])
  {
    assert Removable(WITH_DIR, "b") && WITH_DIR - {"b"} == map["a" := Dir];
    assert [Running][0 := Finished] == [Finished];
    assert LOG[..2] + [Record(REMOVE, Done)] == LOG[..3];
  }

  lemma Ends()
    ensures Goes(STATES[8], LABELS[8], STATES[9]) && Goes(STATES[9], LABELS[9], STATES[10])
  {
  }

  lemma TwoWereDeleted()
    ensures AccountOf(LOG).cleared == 1 && AccountOf(LOG).trailing == 1
  {
    AccountSnoc([], Record(CLEAR, Done));
    assert [] + [Record(CLEAR, Done)] == [Record(CLEAR, Done)];
    AccountSnoc([Record(CLEAR, Done)], Record(MAKE, Done));
    AccountSnoc([Record(CLEAR, Done)] + [Record(MAKE, Done)], Record(REMOVE, Done));
    assert LOG == [Record(CLEAR, Done)] + [Record(MAKE, Done)] + [Record(REMOVE, Done)];
  }

  lemma AllGo()
    ensures forall i {:trigger LABELS[i]} :: 0 <= i < |LABELS| ==> Goes(STATES[i], LABELS[i], STATES[i + 1])
  {
    Clears();
    Makes();
    Enters();
    Takes();
    Deletes();
    Ends();
    forall i {:trigger LABELS[i]} | 0 <= i < |LABELS| ensures Goes(STATES[i], LABELS[i], STATES[i + 1]) {
      assert i in {0, 1, 2, 3, 4, 5, 6, 7, 8, 9};
    }
  }

  /** Every answer is honest and nothing fails; two files are deleted, and one is
      counted. */
  lemma OneOfTwoIsCounted()
    ensures IsStages(SRC, DST, OPTIONS, CONFIG.stages)
    ensures Run(CONFIG, STATES, LABELS) && STATES[0].tree == DESTINATION
    ensures var last := STATES[|LABELS|];
      && last.stage == Returned(false) && last.result.failures == []
      && AccountOf(last.log).cleared == 1 && AccountOf(last.log).trailing == 1 && last.result.filesDeleted == 1
  {
    IsThePlan();
    AllGo();
    TwoWereDeleted();
    assert LOG[..3] == LOG;
  }
}
