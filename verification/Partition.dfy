/** Splitting a plan back into the stages it was put together from. */
module Partition {
  import opened Scans
  import opened Differ
  import opened Gating

  datatype Slot = Clear | Make | Transfer | Drop | DropDir

  function SlotOf(a: Action): Slot {
    if a.unblock then Clear
    else match a.kind
      case MkDir => Make
      case Copy => Transfer
      case Delete => Drop
      case RmDir => DropDir
  }

  /** The actions of one slot, in order. */
  function Only(actions: seq<Action>, slot: Slot): seq<Action> {
    if actions == [] then []
    else
      var a, rest := actions[|actions| - 1], Only(actions[..|actions| - 1], slot);
      if SlotOf(a) == slot then rest + [a] else rest
  }

  function Parts(actions: seq<Action>): Stages {
    Stages(Only(actions, Clear), Only(actions, Make), Only(actions, Transfer), Only(actions, Drop), Only(actions, DropDir))
  }

  method Split(actions: seq<Action>) returns (st: Stages)
    ensures st == Parts(actions)
  {
    st := Stages([], [], [], [], []);
    for i := 0 to |actions|
      invariant st == Parts(actions[..i])
    {
      var a := actions[i];
      assert actions[..i + 1][..i] == actions[..i];
      if a.unblock {
        st := st.(unblocks := st.unblocks + [a]);
      } else {
        match a.kind
        case MkDir => st := st.(mkdirs := st.mkdirs + [a]);
        case Copy => st := st.(copies := st.copies + [a]);
        case Delete => st := st.(deletes := st.deletes + [a]);
        case RmDir => st := st.(rmdirs := st.rmdirs + [a]);
      }
    }
    assert actions[..|actions|] == actions;
  }

  lemma {:induction false} OnlyJoins(x: seq<Action>, y: seq<Action>, slot: Slot)
    ensures Only(x + y, slot) == Only(x, slot) + Only(y, slot)
  {
    if y == [] {
      assert x + y == x;
    } else {
      OnlyJoins(x, y[..|y| - 1], slot);
      assert (x + y)[..|x + y| - 1] == x + y[..|y| - 1];
    }
  }

  lemma {:induction false} OnlyOfOneSlot(x: seq<Action>, own: Slot, slot: Slot)
    requires forall a :: a in x ==> SlotOf(a) == own
    ensures Only(x, slot) == if slot == own then x else []
  {
    if x != [] {
      OnlyOfOneSlot(x[..|x| - 1], own, slot);
      assert x[|x| - 1] in x && x == x[..|x| - 1] + [x[|x| - 1]];
    }
  }

  function Pick(st: Stages, slot: Slot): seq<Action> {
    match slot
    case Clear => st.unblocks
    case Make => st.mkdirs
    case Transfer => st.copies
    case Drop => st.deletes
    case DropDir => st.rmdirs
  }

  function JoinFive(a: seq<Action>, b: seq<Action>, c: seq<Action>, d: seq<Action>, e: seq<Action>): seq<Action> {
    a + b + c + d + e
  }

  lemma OnlyJoinsFive(a: seq<Action>, b: seq<Action>, c: seq<Action>, d: seq<Action>, e: seq<Action>, slot: Slot)
    ensures Only(JoinFive(a, b, c, d, e), slot) ==
      JoinFive(Only(a, slot), Only(b, slot), Only(c, slot), Only(d, slot), Only(e, slot))
  {
    OnlyJoins(a, b, slot);
    OnlyJoins(a + b, c, slot);
    OnlyJoins(a + b + c, d, slot);
    OnlyJoins(a + b + c + d, e, slot);
  }

  /** A sequence joined with four empty ones is itself, wherever it stands. */
  lemma AloneInFive(x: seq<Action>)
    ensures JoinFive(x, [], [], [], []) == x && JoinFive([], x, [], [], []) == x && JoinFive([], [], x, [], []) == x
    ensures JoinFive([], [], [], x, []) == x && JoinFive([], [], [], [], x) == x
  {
  }

  lemma OnlyOfAll(st: Stages, slot: Slot)
    requires Shaped(st)
    ensures Only(st.All(), slot) == Pick(st, slot)
  {
    OnlyOfOneSlot(st.unblocks, Clear, slot);
    OnlyOfOneSlot(st.mkdirs, Make, slot);
    OnlyOfOneSlot(st.copies, Transfer, slot);
    OnlyOfOneSlot(st.deletes, Drop, slot);
    OnlyOfOneSlot(st.rmdirs, DropDir, slot);
    OnlyJoinsFive(st.unblocks, st.mkdirs, st.copies, st.deletes, st.rmdirs, slot);
    AloneInFive(Pick(st, slot));
  }

  /** Splitting a plan gives back exactly the stages it was made of, each in its
      own order: nothing is lost, moved or carried out in another stage. */
  lemma SplittingUndoesPlanning(src: ScanResult, dst: ScanResult, o: Options, st: Stages, plan: Plan)
    requires IsPlan(src, dst, o, st, plan)
    ensures Parts(plan.actions) == st
  {
    StagesAreShaped(src, dst, o, st);
    OnlyOfAll(st, Clear);
    OnlyOfAll(st, Make);
    OnlyOfAll(st, Transfer);
    OnlyOfAll(st, Drop);
    OnlyOfAll(st, DropDir);
  }
}
