/** Inputs at which the code falls short of what one might expect of it. */
module Shortfalls {
  import opened Paths
  import opened Scope
  import opened Scans
  import opened Differ
  import opened Effects
  import opened Executor
  import opened Mirroring
  import opened MirrorRuns

  function Unfolded(p: Path): Path { p }

  // ---- a full directory in a file's place ----------------------------------

  const FILE_SOURCE: Tree := map["a" := File([], 1)]
  const FULL_DIR: Tree := map["a" := Dir, "a/b" := File([], 1)]

  const FILE_SCAN := ScanResult(map["a" := EntryOf("a", File([], 1))], {}, {}, {})
  const DIR_SCAN := ScanResult(map["a" := EntryOf("a", Dir), "a/b" := EntryOf("a/b", File([], 1))], {}, {}, {})

  const MIRROR := Options(Mirror, 0, false, false, Unfolded, AdmitAll)

  const CLEAR := Action(RmDir, "a", 0, ZERO_TIME, true, false)
  const COPY := Action(Copy, "a", 0, 1, false, false)
  const REMOVE := Action(Delete, "a/b", 0, ZERO_TIME, false, false)

  const CONFIG := Config(Stages([CLEAR], [], [COPY], [REMOVE], []), FILE_SOURCE, 1, KeepGoing, SkipDeletes, 0)

  lemma Above(a: Path)
    ensures !IsAncestor(a, "a") && (IsAncestor(a, "a/b") <==> a == "a")
  {
    assert "a/b"[..1] == "a";
    if IsAncestor(a, "a/b") { assert |a| == 1; }
  }

  lemma NothingAbove()
    ensures forall a :: !IsAncestor(a, "a") && (IsAncestor(a, "a/b") <==> a == "a")
  {
    forall a ensures !IsAncestor(a, "a") && (IsAncestor(a, "a/b") <==> a == "a") { Above(a); }
  }

  lemma TheSource()
    ensures TreeOk(FILE_SOURCE) && IsScan(FILE_SOURCE, NO_FAULTS, Nothing, FILE_SCAN)
  {
    NothingAbove();
    assert forall p :: p in FILE_SOURCE <==> p == "a";
  }

  lemma TheDestination()
    ensures TreeOk(FULL_DIR) && IsScan(FULL_DIR, NO_FAULTS, Nothing, DIR_SCAN)
  {
    NothingAbove();
    assert forall p :: p in FULL_DIR <==> p == "a" || p == "a/b";
    assert forall p :: p in FULL_DIR ==> Reached(FULL_DIR, NO_FAULTS, Nothing, p);
  }

  lemma ThePlan()
    ensures IsStages(FILE_SCAN, DIR_SCAN, MIRROR, CONFIG.stages)
  {
    forall a ensures !IsAncestor(a, "a") { Above(a); }
    assert forall p :: WantsCopy(FILE_SCAN, DIR_SCAN, MIRROR, p) <==> p == "a";
    assert forall p :: WantsUnblock(FILE_SCAN, DIR_SCAN, MIRROR, p) <==> p == "a";
    assert forall p :: !WantsMkdir(FILE_SCAN, DIR_SCAN, MIRROR, p) && !NeededDir(FILE_SCAN, DIR_SCAN, MIRROR, p);
    assert forall p :: Extraneous(FILE_SCAN, DIR_SCAN, MIRROR, p) <==> p == "a/b";
    assert !Guarded(FILE_SCAN, DIR_SCAN, MIRROR);
  }

  /** A source file where the destination has a directory with one file in it: a
      mirror of these trees fails, however honest the world is. */
  lemma AFullDirFails(states: seq<State>, labels: seq<Label>, i: nat)
    requires Run(CONFIG, states, labels) && i < |states| && states[0].tree == FULL_DIR
    requires forall k :: 0 <= k < |labels| ==> FaultFree(labels[k])
    ensures Case(FILE_SOURCE, FULL_DIR, MIRROR, FILE_SCAN, DIR_SCAN, CONFIG) && !NoFullDirs(FILE_SOURCE, FULL_DIR)
    ensures states[i].stage.Clearing? || states[i].result.failures != []
  {
    TheSource();
    TheDestination();
    ThePlan();
    Above("a");
    assert "a/b" in FULL_DIR && IsAncestor("a", "a/b");
    assert HasBeneath(FULL_DIR, "a");
    FullDirFailsMirror(FILE_SOURCE, FULL_DIR, MIRROR, FILE_SCAN, DIR_SCAN, CONFIG, states, labels, i);
  }

  // ---- names that differ only in case --------------------------------------

  function Lower(p: Path): Path { if p == "A" then "a" else p }

  const BOTH := ScanResult(map["A" := EntryOf("A", File([], 1)), "a" := EntryOf("a", File([], 1))], {}, {}, {})
  const NONE := ScanResult(map[], {}, {}, {})
  const CASELESS := Options(Mirror, 0, false, true, Lower, AdmitAll)

  /** Of two source files whose names fold alike, the first is planned as a copy,
      although it is the one that is reported as skipped. */
  lemma FirstOfTheGroupIsCopied(st: Stages, plan: Plan)
    requires IsPlan(BOTH, NONE, CASELESS, st, plan)
    ensures exists a :: a in plan.actions && a.kind == Copy && a.relPath == "A"
    ensures Conflict("A", CaseCollision) in plan.conflicts
    ensures forall a :: a in plan.actions ==> a.relPath != "a"
  {
    assert Lex("A", "a") && !Lex("a", "A");
    assert CASELESS.fold("A") == CASELESS.fold("a");
    assert Skipped(BOTH, CASELESS, "a") && !Skipped(BOTH, CASELESS, "A");
    var copy := Action(Copy, "A", 0, 1, false, false);
    assert IsCopy(BOTH, NONE, CASELESS, copy) && copy in st.copies && copy in plan.actions;
    assert IsConflict(BOTH, NONE, CASELESS, Conflict("A", CaseCollision));
    forall a | a in plan.actions ensures a.relPath != "a" {
      ActionMeaning(BOTH, NONE, CASELESS, st, a);
    }
  }
}
