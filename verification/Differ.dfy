/** Planning: what makes one destination match the source. */
module Differ {
  import opened Paths
  import opened Sorting
  import opened Scans

  // ---- options ------------------------------------------------------------

  datatype Mode = Mirror | Update

  /** The three questions the differ asks of a filter. */
  datatype Filter = AdmitAll | Matcher(admits: (Path, bool) -> bool, degraded: bool)

  datatype Options = Options(
    mode: Mode, tolerance: nat, ignoreDSTHour: bool, caseInsensitive: bool, fold: Path -> Path, filter: Filter)
  {
    predicate Admits(p: Path, isDir: bool) {
      filter.AdmitAll? || filter.admits(p, isDir)
    }

    predicate Degraded() {
      filter.Matcher? && filter.degraded
    }
  }

  // ---- comparing files ----------------------------------------------------

  const MAX_DURATION: int := 0x7FFF_FFFF_FFFF_FFFF
  const MIN_DURATION: int := -0x8000_0000_0000_0000
  const HOUR: int := 3_600_000_000_000

  /** The difference of two times saturates at the width of a duration. */
  function Sub(t: int, u: int): int {
    if t - u > MAX_DURATION then MAX_DURATION
    else if t - u < MIN_DURATION then MIN_DURATION
    else t - u
  }

  /** Negating a duration wraps on its least value. */
  function Magnitude(d: int): int {
    if d >= 0 then d else if d == MIN_DURATION then MIN_DURATION else -d
  }

  predicate SameFile(src: Entry, dst: Entry, o: Options) {
    && src.size == dst.size
    && var diff := Magnitude(Sub(src.modTime, dst.modTime));
       diff <= o.tolerance || (o.ignoreDSTHour && Magnitude(diff - HOUR) <= o.tolerance)
  }

  predicate SrcIsNewer(src: Entry, dst: Entry, o: Options) {
    src.modTime > dst.modTime + o.tolerance
  }

  /** The comparison is the distance of the two times, as far as a duration can
      hold it, up to the tolerance or an hour off by it. The one exception is a
      source older than the destination by 2^63 nanoseconds or more, which
      passes as the same file. */
  lemma SameFileExactly(src: Entry, dst: Entry, o: Options)
    ensures var gap := src.modTime - dst.modTime;
      var apart := if gap > MAX_DURATION then MAX_DURATION else if gap < 0 then -gap else gap;
      var hour := 3_600_000_000_000;
      var off := if apart < hour then hour - apart else apart - hour;
      SameFile(src, dst, o) <==>
        && src.size == dst.size
        && (apart <= o.tolerance || (o.ignoreDSTHour && off <= o.tolerance) || gap <= MIN_DURATION)
  {
    var gap := src.modTime - dst.modTime;
    if gap > MAX_DURATION {
      assert Magnitude(Sub(src.modTime, dst.modTime)) == MAX_DURATION;
    } else if gap <= MIN_DURATION {
      assert Magnitude(Sub(src.modTime, dst.modTime)) == MIN_DURATION;
    } else {
      assert Magnitude(Sub(src.modTime, dst.modTime)) == if gap < 0 then -gap else gap;
    }
  }

  // ---- actions and plans --------------------------------------------------

  datatype Kind = MkDir | Copy | Delete | RmDir

  datatype Action = Action(kind: Kind, relPath: Path, size: int, modTime: int, unblock: bool, overwrite: bool)

  function PathOf(a: Action): Path { a.relPath }

  datatype Reason = CaseCollision | SourceLink | DestLink | FileForDir | DirForFile | NotOlder | OtherCase

  datatype Conflict = Conflict(relPath: Path, reason: Reason)

  /** The five stages of a plan, each in the order it is carried out in. */
  datatype Stages = Stages(
    unblocks: seq<Action>, mkdirs: seq<Action>, copies: seq<Action>, deletes: seq<Action>, rmdirs: seq<Action>)
  {
    function All(): seq<Action> { unblocks + mkdirs + copies + deletes + rmdirs }
  }

  datatype Plan = Plan(
    actions: seq<Action>, mkDirs: nat, copies: nat, deletes: nat, rmDirs: nat, copyBytes: int, unblocks: nat,
    overwrites: nat, conflicts: seq<Conflict>, deletionsBlocked: bool, withheldDeletes: nat, withheldRmDirs: nat)

  // ---- what each path calls for -------------------------------------------

  /** Another source path, earlier in order, folds to the same name. */
  ghost predicate Skipped(src: ScanResult, o: Options, p: Path) {
    o.caseInsensitive && exists q :: q in src.entries && q != p && Lex(q, p) && o.fold(q) == o.fold(p)
  }

  /** A source path the plan has to say something about. */
  ghost predicate InScope(src: ScanResult, o: Options, p: Path) {
    p in src.entries && !Skipped(src, o, p) && o.Admits(p, src.entries[p].isDir)
  }

  ghost predicate Live(src: ScanResult, o: Options, p: Path) {
    InScope(src, o, p) && !src.entries[p].isSymlink
  }

  /** The destination holds something of another kind here. */
  ghost predicate Clash(src: ScanResult, dst: ScanResult, p: Path)
    requires p in src.entries
  {
    p in dst.entries && (dst.entries[p].isSymlink || dst.entries[p].isDir != src.entries[p].isDir)
  }

  ghost predicate WantsUnblock(src: ScanResult, dst: ScanResult, o: Options, p: Path) {
    Live(src, o, p) && o.mode == Mirror && Clash(src, dst, p)
  }

  ghost predicate WantsMkdir(src: ScanResult, dst: ScanResult, o: Options, p: Path) {
    && Live(src, o, p) && src.entries[p].isDir
    && (p !in dst.entries || (o.mode == Mirror && Clash(src, dst, p)))
  }

  ghost predicate WantsCopy(src: ScanResult, dst: ScanResult, o: Options, p: Path) {
    && Live(src, o, p) && !src.entries[p].isDir
    && if p !in dst.entries then true
       else if Clash(src, dst, p) then o.mode == Mirror
       else !SameFile(src.entries[p], dst.entries[p], o)
            && (o.mode == Mirror || SrcIsNewer(src.entries[p], dst.entries[p], o))
  }

  ghost predicate Extraneous(src: ScanResult, dst: ScanResult, o: Options, p: Path) {
    && o.mode == Mirror && p in dst.entries && p !in src.entries
    && o.Admits(p, dst.entries[p].isDir)
    && !(o.caseInsensitive && exists q :: q in src.entries && o.fold(q) == o.fold(p))
  }

  /** Some reason to withhold every trailing removal. */
  predicate Guarded(src: ScanResult, dst: ScanResult, o: Options) {
    o.Degraded() || src.Incomplete() || (src.entries == map[] && dst.entries != map[])
  }

  ghost predicate IsUnblock(src: ScanResult, dst: ScanResult, o: Options, a: Action) {
    && WantsUnblock(src, dst, o, a.relPath)
    && var d := dst.entries[a.relPath];
       a == Action(if d.isDir && !d.isSymlink then RmDir else Delete, a.relPath,
                   if d.isDir || d.isSymlink then 0 else d.size, ZERO_TIME, true, false)
  }

  function MkdirAction(p: Path): Action { Action(MkDir, p, 0, ZERO_TIME, false, false) }

  ghost predicate IsCopy(src: ScanResult, dst: ScanResult, o: Options, a: Action) {
    && WantsCopy(src, dst, o, a.relPath)
    && var s := src.entries[a.relPath];
       a == Action(Copy, a.relPath, s.size, s.modTime, false,
                   a.relPath in dst.entries && !Clash(src, dst, a.relPath))
  }

  /** Some planned copy lands beneath this path, and it is not there yet. */
  ghost predicate NeededDir(src: ScanResult, dst: ScanResult, o: Options, p: Path) {
    && !(p in dst.entries && dst.entries[p].isDir)
    && exists c :: WantsCopy(src, dst, o, c) && IsAncestor(p, c)
  }

  ghost predicate IsMkdir(src: ScanResult, dst: ScanResult, o: Options, a: Action) {
    && (WantsMkdir(src, dst, o, a.relPath) || NeededDir(src, dst, o, a.relPath))
    && a == MkdirAction(a.relPath)
  }

  ghost predicate IsDelete(src: ScanResult, dst: ScanResult, o: Options, a: Action) {
    && Extraneous(src, dst, o, a.relPath) && !dst.entries[a.relPath].isDir
    && a == Action(Delete, a.relPath, dst.entries[a.relPath].size, ZERO_TIME, false, false)
  }

  ghost predicate IsRmdir(src: ScanResult, dst: ScanResult, o: Options, a: Action) {
    && Extraneous(src, dst, o, a.relPath) && dst.entries[a.relPath].isDir
    && a == Action(RmDir, a.relPath, 0, ZERO_TIME, false, false)
  }

  /** The stages of the plan for these scans: exactly the actions their paths
      call for, in exactly one order. */
  ghost predicate IsStages(src: ScanResult, dst: ScanResult, o: Options, st: Stages) {
    && (forall a :: a in st.unblocks <==> IsUnblock(src, dst, o, a)) && Strict(DeepFirst, PathOf, st.unblocks)
    && (forall a :: a in st.mkdirs <==> IsMkdir(src, dst, o, a)) && Strict(ShallowFirst, PathOf, st.mkdirs)
    && (forall a :: a in st.copies <==> IsCopy(src, dst, o, a)) && Strict(Lexical, PathOf, st.copies)
    && (forall a :: a in st.deletes <==> IsDelete(src, dst, o, a) && !Guarded(src, dst, o))
    && Strict(DeepFirst, PathOf, st.deletes)
    && (forall a :: a in st.rmdirs <==> IsRmdir(src, dst, o, a) && !Guarded(src, dst, o))
    && Strict(DeepFirst, PathOf, st.rmdirs)
  }

  ghost predicate IsConflict(src: ScanResult, dst: ScanResult, o: Options, c: Conflict) {
    var p := c.relPath;
    match c.reason
    case CaseCollision =>
      && o.caseInsensitive && p in src.entries && !Skipped(src, o, p)
      && exists q :: q in src.entries && q != p && o.fold(q) == o.fold(p)
    case SourceLink => InScope(src, o, p) && src.entries[p].isSymlink
    case DestLink => Live(src, o, p) && o.mode == Update && p in dst.entries && dst.entries[p].isSymlink
    case FileForDir =>
      && Live(src, o, p) && o.mode == Update && src.entries[p].isDir
      && p in dst.entries && !dst.entries[p].isSymlink && !dst.entries[p].isDir
    case DirForFile =>
      && Live(src, o, p) && o.mode == Update && !src.entries[p].isDir
      && p in dst.entries && !dst.entries[p].isSymlink && dst.entries[p].isDir
    case NotOlder =>
      && Live(src, o, p) && o.mode == Update && !src.entries[p].isDir
      && p in dst.entries && !dst.entries[p].isSymlink && !dst.entries[p].isDir
      && !SameFile(src.entries[p], dst.entries[p], o) && !SrcIsNewer(src.entries[p], dst.entries[p], o)
    case OtherCase =>
      && o.mode == Mirror && p in dst.entries && p !in src.entries && o.Admits(p, dst.entries[p].isDir)
      && o.caseInsensitive && exists q :: q in src.entries && o.fold(q) == o.fold(p)
  }

  function SumSizes(s: seq<Action>): int {
    if s == [] then 0 else SumSizes(s[..|s| - 1]) + s[|s| - 1].size
  }

  function CountOverwrites(s: seq<Action>): nat {
    if s == [] then 0 else CountOverwrites(s[..|s| - 1]) + if s[|s| - 1].overwrite then 1 else 0
  }

  ghost function ExtraFiles(src: ScanResult, dst: ScanResult, o: Options): set<Path> {
    set p | p in dst.entries && Extraneous(src, dst, o, p) && !dst.entries[p].isDir
  }

  ghost function ExtraDirs(src: ScanResult, dst: ScanResult, o: Options): set<Path> {
    set p | p in dst.entries && Extraneous(src, dst, o, p) && dst.entries[p].isDir
  }

  ghost predicate IsPlan(src: ScanResult, dst: ScanResult, o: Options, st: Stages, plan: Plan) {
    && IsStages(src, dst, o, st)
    && plan.actions == st.All()
    && plan.unblocks == |st.unblocks| && plan.mkDirs == |st.mkdirs| && plan.copies == |st.copies|
    && plan.deletes == |st.deletes| && plan.rmDirs == |st.rmdirs|
    && plan.copyBytes == SumSizes(st.copies) && plan.overwrites == CountOverwrites(st.copies)
    && (forall c :: c in plan.conflicts <==> IsConflict(src, dst, o, c))
    && plan.withheldDeletes == (if Guarded(src, dst, o) then |ExtraFiles(src, dst, o)| else 0)
    && plan.withheldRmDirs == (if Guarded(src, dst, o) then |ExtraDirs(src, dst, o)| else 0)
    && (plan.deletionsBlocked <==> plan.withheldDeletes + plan.withheldRmDirs > 0)
  }

  lemma ActionMeaning(src: ScanResult, dst: ScanResult, o: Options, st: Stages, a: Action)
    requires IsStages(src, dst, o, st) && a in st.All()
    ensures
      || (a in st.unblocks && IsUnblock(src, dst, o, a))
      || (a in st.mkdirs && IsMkdir(src, dst, o, a))
      || (a in st.copies && IsCopy(src, dst, o, a))
      || (a in st.deletes && IsDelete(src, dst, o, a))
      || (a in st.rmdirs && IsRmdir(src, dst, o, a))
  {
  }
}
