/** A run that loses a file it reported as copied: the destination has a link where
    the source has a file, removing the link times out, and the removal lands
    after the copy. */
module CopyLost {
  import opened Paths
  import opened Scans
  import opened Differ
  import opened Effects
  import opened Executor
  import opened LateRuns

  const SOURCE: Tree := map["a" := File([1], 1)]
  const DESTINATION: Tree := map["a" := Link]
  const COPIED: Tree := map["a" := File([1], 1)]

  const SRC := ScanResult(map["a" := EntryOf("a", File([1], 1))], {}, {}, {})
  const DST := ScanResult(map["a" := EntryOf("a", Link)], {}, {}, {})

  function Unfolded(p: Path): Path { p }

  const OPTIONS := Options(Mirror, 0, false, false, Unfolded, AdmitAll)

  const CLEAR := Action(Delete, "a", 0, ZERO_TIME, true, false)
  const COPY := Action(Copy, "a", 1, 1, false, false)

  const CONFIG := Config(Stages([CLEAR], [], [COPY], [], []), SOURCE, 1, KeepGoing, SkipDeletes, 0)

  lemma IsThePlan()
    ensures IsStages(SRC, DST, OPTIONS, CONFIG.stages)
  {
    assert forall p :: WantsCopy(SRC, DST, OPTIONS, p) <==> p == "a";
    assert forall p :: WantsUnblock(SRC, DST, OPTIONS, p) <==> p == "a";
    assert forall p :: !WantsMkdir(SRC, DST, OPTIONS, p) && !NeededDir(SRC, DST, OPTIONS, p);
    assert forall p :: !Extraneous(SRC, DST, OPTIONS, p);
  }

  const TIMED_OUT := Faulty(Other, DESTINATION)
  const OK := Honest(1)
  const FAILED: Result := NO_RESULT.(failures := [Failure("a", Delete, Other)])
  const LOG: seq<Record> := [Record(CLEAR, Failed(Other)), Record(COPY, Done)]

  function Moment(stage: Stage, tree: Tree, result: Result, n: nat, pending: set<Action>): World
    requires n <= |LOG|
  {
    World(State(stage, tree, false, false, result, LOG[..n]), pending)
  }

  function Pooled(status: Status, fed: nat, idle: nat): World {
    Moment(Copying(Pool([status], fed, idle, true), DESTINATION), DESTINATION, FAILED, 1, {CLEAR})
  }

  const DONE := Copying(Pool([Finished], 1, 1, true), DESTINATION)

  const EVENTS: seq<Event> :=
    [Own(Next(TIMED_OUT)), Own(Advance), Own(Advance), Own(Feed), Own(Begin(0)), Own(Finish(0, OK)), Lands(CLEAR, map[])]

  const WORLDS: seq<World> :=
    [Moment(Clearing(0), DESTINATION, NO_RESULT, 0, {}), Moment(Clearing(1), DESTINATION, FAILED, 1, {CLEAR}),
     Moment(Making(0), DESTINATION, FAILED, 1, {CLEAR}), Pooled(Waiting, 0, 1), Pooled(Received, 1, 0),
     Pooled(Running, 1, 0), Moment(DONE, COPIED, FAILED.(filesCopied := 1), 2, {CLEAR}),
     Moment(DONE, map[], FAILED.(filesCopied := 1), 2, {CLEAR})]

  ghost predicate Goes(w: World, e: Event, v: World) {
    CanHappen(CONFIG, w, e) && Happen(CONFIG, w, e) == v
  }

  lemma ClearingTimesOut()
    ensures Goes(WORLDS[0], EVENTS[0], WORLDS[1]) && Goes(WORLDS[1], EVENTS[1], WORLDS[2])
  {
    assert LOG[..0] + [Record(CLEAR, Failed(Other))] == LOG[..1];
  }

  lemma CopyStarts()
    ensures Goes(WORLDS[2], EVENTS[2], WORLDS[3]) && Goes(WORLDS[3], EVENTS[3], WORLDS[4])
    ensures Goes(WORLDS[4], EVENTS[4], WORLDS[5])
  {
    assert NewPool(1, 1).status == [Waiting];
    assert [Waiting][0 := Received] == [Received] && [Received][0 := Running] == [Running];
  }

  lemma CopySucceeds()
    ensures Goes(WORLDS[5], EVENTS[5], WORLDS[6])
  {
    assert Publishable(DESTINATION, "a") && DESTINATION["a" := File([1], 1)] == COPIED;
    assert [Running][0 := Finished] == [Finished];
    assert LOG[..1] + [Record(COPY, Done)] == LOG[..2];
  }

  lemma RemovalLands()
    ensures Goes(WORLDS[6], EVENTS[6], WORLDS[7])
  {
    assert Removable(COPIED, "a") && COPIED - {"a"} == map[];
  }

  lemma AllGo()
    ensures forall i {:trigger EVENTS[i]} :: 0 <= i < |EVENTS| ==> Goes(WORLDS[i], EVENTS[i], WORLDS[i + 1])
  {
    ClearingTimesOut();
    CopyStarts();
    CopySucceeds();
    RemovalLands();
    forall i {:trigger EVENTS[i]} | 0 <= i < |EVENTS| ensures Goes(WORLDS[i], EVENTS[i], WORLDS[i + 1]) {
      assert i in {0, 1, 2, 3, 4, 5, 6};
    }
  }

  /** The copy is logged as done, and the file is not there. */
  lemma ReportedAndGone()
    ensures IsStages(SRC, DST, OPTIONS, CONFIG.stages) && LateRun(CONFIG, WORLDS, EVENTS)
    ensures WORLDS[0].x.tree == DESTINATION
    ensures Record(COPY, Done) in WORLDS[7].x.log && COPY.relPath !in WORLDS[7].x.tree
  {
    IsThePlan();
    AllGo();
    assert LOG[..2] == LOG && LOG[1] == Record(COPY, Done);
  }
}
