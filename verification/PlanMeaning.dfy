/** What a plan comes to, said of the trees and the scans rather than of the
    differ's own predicates. */
module PlanMeaning {
  import opened Paths
  import opened Sorting
  import opened Scans
  import opened Differ
  import opened Effects

  // ---- update mode ---------------------------------------------------------

  predicate PlainFile(r: ScanResult, p: Path) {
    p in r.entries && !r.entries[p].isDir && !r.entries[p].isSymlink
  }

  ghost predicate Copied(st: Stages, p: Path) {
    exists a :: a in st.copies && a.relPath == p
  }

  lemma CopiedMeans(src: ScanResult, dst: ScanResult, o: Options, st: Stages, p: Path)
    requires IsStages(src, dst, o, st)
    ensures Copied(st, p) <==> WantsCopy(src, dst, o, p)
  {
    if WantsCopy(src, dst, o, p) {
      var s := src.entries[p];
      var a := Action(Copy, p, s.size, s.modTime, false, p in dst.entries && !Clash(src, dst, p));
      assert IsCopy(src, dst, o, a);
    }
  }

  /** In update mode a file in scope that differs on the two sides is copied if and
      only if the source is newer by more than the tolerance, and is otherwise
      reported. */
  lemma UpdateCopiesExactly(src: ScanResult, dst: ScanResult, o: Options, st: Stages, plan: Plan, p: Path)
    requires IsPlan(src, dst, o, st, plan) && o.mode == Update && InScope(src, o, p)
    requires PlainFile(src, p) && PlainFile(dst, p) && !SameFile(src.entries[p], dst.entries[p], o)
    ensures Copied(st, p) <==> src.entries[p].modTime > dst.entries[p].modTime + o.tolerance
    ensures Conflict(p, NotOlder) in plan.conflicts <==> src.entries[p].modTime <= dst.entries[p].modTime + o.tolerance
  {
    CopiedMeans(src, dst, o, st, p);
    assert IsConflict(src, dst, o, Conflict(p, NotOlder)) <==> Conflict(p, NotOlder) in plan.conflicts;
  }

  /** In mirror mode it is copied, whichever is newer; and a file that is the same
      on both sides is copied in neither mode. */
  lemma MirrorCopiesExactly(src: ScanResult, dst: ScanResult, o: Options, st: Stages, p: Path)
    requires IsStages(src, dst, o, st) && InScope(src, o, p) && PlainFile(src, p) && PlainFile(dst, p)
    ensures o.mode == Mirror ==> (Copied(st, p) <==> !SameFile(src.entries[p], dst.entries[p], o))
    ensures SameFile(src.entries[p], dst.entries[p], o) ==> !Copied(st, p)
  {
    CopiedMeans(src, dst, o, st, p);
  }

  /** What a copy says of itself: the size and time of the source file, and whether
      there is a file at the destination that it replaces. */
  lemma CopyActionMeans(src: ScanResult, dst: ScanResult, o: Options, st: Stages, s: Tree, d: Tree, a: Action)
    requires IsStages(src, dst, o, st) && Reflects(src, s) && Reflects(dst, d) && a in st.copies
    ensures a.relPath in s && s[a.relPath].File? && a.size == |s[a.relPath].data| && a.modTime == s[a.relPath].mtime
    ensures a.overwrite <==> a.relPath in dst.entries && d[a.relPath].File?
  {
    assert IsCopy(src, dst, o, a);
  }

  /** Why update mode leaves a path alone, said of what stands on the two sides. */
  lemma ConflictsMean(src: ScanResult, dst: ScanResult, o: Options, st: Stages, plan: Plan, s: Tree, d: Tree, p: Path)
    requires IsPlan(src, dst, o, st, plan) && Reflects(src, s) && Reflects(dst, d) && o.mode == Update && InScope(src, o, p)
    ensures Conflict(p, SourceLink) in plan.conflicts <==> s[p].Link?
    ensures Conflict(p, DestLink) in plan.conflicts <==> !s[p].Link? && p in dst.entries && d[p].Link?
    ensures Conflict(p, FileForDir) in plan.conflicts <==> s[p].Dir? && p in dst.entries && d[p].File?
    ensures Conflict(p, DirForFile) in plan.conflicts <==> s[p].File? && p in dst.entries && d[p].Dir?
  {
    assert forall r :: Conflict(p, r) in plan.conflicts <==> IsConflict(src, dst, o, Conflict(p, r));
  }

  // ---- directories ---------------------------------------------------------

  /** Every directory above a planned copy is there already or is made before it,
      whatever the filter leaves out. */
  lemma CopiesHaveParents(src: ScanResult, dst: ScanResult, o: Options, st: Stages, a: Action, q: Path)
    requires IsStages(src, dst, o, st) && a in st.copies && IsAncestor(q, a.relPath)
    ensures (q in dst.entries && dst.entries[q].isDir) || exists m :: m in st.mkdirs && m.relPath == q
  {
    assert IsCopy(src, dst, o, a);
    if !(q in dst.entries && dst.entries[q].isDir) {
      assert IsMkdir(src, dst, o, MkdirAction(q));
    }
  }

  /** A directory is made if and only if a source directory in scope is missing or, in
      a mirror, has something else in its place, or a copy needs it and no
      directory is listed there. */
  lemma MkdirMeans(src: ScanResult, dst: ScanResult, o: Options, st: Stages, s: Tree, d: Tree, q: Path)
    requires IsStages(src, dst, o, st) && Reflects(src, s) && Reflects(dst, d)
    ensures (exists m :: m in st.mkdirs && m.relPath == q) <==>
      || (InScope(src, o, q) && s[q].Dir? && (q !in dst.entries || (o.mode == Mirror && !d[q].Dir?)))
      || ((q in dst.entries ==> !d[q].Dir?) && exists a :: a in st.copies && IsAncestor(q, a.relPath))
  {
    assert MkdirAction(q) in st.mkdirs <==> IsMkdir(src, dst, o, MkdirAction(q));
    assert forall m :: m in st.mkdirs && m.relPath == q ==> m == MkdirAction(q);
    forall p ensures Copied(st, p) <==> WantsCopy(src, dst, o, p) { CopiedMeans(src, dst, o, st, p); }
    if a :| a in st.copies && IsAncestor(q, a.relPath) { assert Copied(st, a.relPath); }
    if NeededDir(src, dst, o, q) {
      var p :| WantsCopy(src, dst, o, p) && IsAncestor(q, p);
      assert Copied(st, p);
    }
  }

  /** In a mirror a path is cleared if and only if it is in scope, no link at the
      source, and of another kind, or a link, at the destination. */
  lemma UnblockMeans(src: ScanResult, dst: ScanResult, o: Options, st: Stages, s: Tree, d: Tree, q: Path)
    requires IsStages(src, dst, o, st) && Reflects(src, s) && Reflects(dst, d)
    ensures (exists a :: a in st.unblocks && a.relPath == q) <==>
      && o.mode == Mirror && InScope(src, o, q) && !s[q].Link?
      && q in dst.entries && (d[q].Link? || d[q].Dir? != s[q].Dir?)
  {
    if WantsUnblock(src, dst, o, q) {
      var x := dst.entries[q];
      var a := Action(if x.isDir && !x.isSymlink then RmDir else Delete, q, if x.isDir || x.isSymlink then 0 else x.size,
                      ZERO_TIME, true, false);
      assert IsUnblock(src, dst, o, a);
    }
  }

  // ---- removals ------------------------------------------------------------

  /** The walk came across something that it could not read or look at. */
  ghost predicate Missed(t: Tree, f: Faults, prune: Path -> bool, p: Path) {
    || (Reached(t, f, prune, p) && t[p].File? && p in f.unstatable && p !in f.vanished)
    || (p in f.unreadable && (p == "" || (Reached(t, f, prune, p) && t[p].Dir? && !prune(p))))
  }

  /** Why a path that is there is not listed: it vanished, or it is or lies beneath a
      directory that was pruned. */
  ghost predicate Hidden(t: Tree, f: Faults, prune: Path -> bool, p: Path) {
    || (p in t && t[p].File? && p in f.vanished)
    || exists q :: (q == p || IsAncestor(q, p)) && q in t && t[q].Dir? && prune(q)
  }

  lemma UnlistedIsHidden(t: Tree, f: Faults, prune: Path -> bool, r: ScanResult, p: Path)
    requires TreeOk(t) && IsScan(t, f, prune, r) && r.errors == {} && p in t && p !in r.entries
    ensures Hidden(t, f, prune, p)
  {
    if !Reached(t, f, prune, p) {
      assert "" !in r.errors;
      var a :| IsAncestor(a, p) && !Entered(t, f, prune, a);
      if a !in f.unreadable {
        assert a in t && t[a].Dir? && prune(a);
      } else {
        FirstUnentered(t, f, prune, r, p, a);
      }
    }
  }

  /** A directory on the way that could not be read lies beneath one that was pruned,
      for else the scan would have an error. */
  lemma {:induction false} FirstUnentered(t: Tree, f: Faults, prune: Path -> bool, r: ScanResult, p: Path, a: Path)
    requires TreeOk(t) && IsScan(t, f, prune, r) && r.errors == {} && p in t && IsAncestor(a, p) && a in f.unreadable
    ensures exists q :: IsAncestor(q, p) && q in t && t[q].Dir? && prune(q)
    decreases |a|
  {
    assert "" !in r.errors && a !in r.errors;
    if prune(a) {
      assert a in t && t[a].Dir?;
    } else {
      assert !Reached(t, f, prune, a);
      var b :| IsAncestor(b, a) && !Entered(t, f, prune, b);
      AncestorTransitive(b, a, p);
      if b in f.unreadable {
        FirstUnentered(t, f, prune, r, p, b);
      } else {
        assert b in t && t[b].Dir? && prune(b);
      }
    }
  }

  /** Nothing is removed at the end of a run unless the whole source was read; and
      then only what the source does not have, short of what had vanished or was
      pruned. */
  lemma RemovalsNeedTheWholeSource(s: Tree, f: Faults, prune: Path -> bool, src: ScanResult, dst: ScanResult, o: Options,
                                   st: Stages)
    requires TreeOk(s) && IsScan(s, f, prune, src) && IsStages(src, dst, o, st)
    ensures (exists p :: Missed(s, f, prune, p)) ==> st.deletes == [] && st.rmdirs == []
    ensures forall a :: a in st.deletes + st.rmdirs ==> a.relPath !in s || Hidden(s, f, prune, a.relPath)
  {
    HeadIn(st.deletes);
    HeadIn(st.rmdirs);
    if p :| Missed(s, f, prune, p) { assert p in src.errors; }
    forall a | a in st.deletes + st.rmdirs ensures a.relPath !in s || Hidden(s, f, prune, a.relPath) {
      assert a in st.deletes || a in st.rmdirs;
      assert src.errors == {};
      if a.relPath in s { UnlistedIsHidden(s, f, prune, src, a.relPath); }
    }
  }

  /** Where there is something to remove, nothing is if and only if a rule was
      dropped, the source was not read in full, or it is empty. */
  lemma WithheldExactly(src: ScanResult, dst: ScanResult, o: Options, st: Stages, p: Path)
    requires IsStages(src, dst, o, st) && Extraneous(src, dst, o, p)
    ensures st.deletes == [] && st.rmdirs == [] <==>
      (o.filter.Matcher? && o.filter.degraded) || src.errors != {} || src.entries == map[]
  {
    HeadIn(st.deletes);
    HeadIn(st.rmdirs);
    var x := dst.entries[p];
    if x.isDir {
      assert IsRmdir(src, dst, o, Action(RmDir, p, 0, ZERO_TIME, false, false));
    } else {
      assert IsDelete(src, dst, o, Action(Delete, p, x.size, ZERO_TIME, false, false));
    }
  }

  /** What is removed at the end of a run is listed at the destination, not at the
      source, in scope, of its kind, and its name folds like no source name where
      that matters. */
  lemma RemovalMeans(src: ScanResult, dst: ScanResult, o: Options, st: Stages, d: Tree, a: Action)
    requires IsStages(src, dst, o, st) && Reflects(dst, d) && a in st.deletes + st.rmdirs
    ensures o.mode == Mirror && a.relPath in dst.entries && a.relPath in d && a.relPath !in src.entries
    ensures o.Admits(a.relPath, d[a.relPath].Dir?)
    ensures a in st.rmdirs <==> d[a.relPath].Dir?
    ensures o.caseInsensitive ==> forall q :: q in src.entries ==> o.fold(q) != o.fold(a.relPath)
  {
    assert a in st.deletes || a in st.rmdirs;
    assert a in st.deletes <==> IsDelete(src, dst, o, a) && !Guarded(src, dst, o);
    assert a in st.rmdirs <==> IsRmdir(src, dst, o, a) && !Guarded(src, dst, o);
  }

  // ---- case folding --------------------------------------------------------

  /** At a destination that ignores case no two copies land on one name, and of the
      names that would, it is the first in order that is copied. */
  lemma CopiesFoldApart(src: ScanResult, dst: ScanResult, o: Options, st: Stages, a: Action, b: Action)
    requires IsStages(src, dst, o, st) && o.caseInsensitive && a in st.copies && b in st.copies && a != b
    ensures o.fold(a.relPath) != o.fold(b.relPath)
    ensures forall q :: q in src.entries && o.fold(q) == o.fold(a.relPath) ==> Lex(a.relPath, q)
  {
    assert IsCopy(src, dst, o, a) && IsCopy(src, dst, o, b);
    forall q | q in src.entries && o.fold(q) == o.fold(a.relPath) ensures Lex(a.relPath, q) {
      LexTotal(a.relPath, q);
    }
    LexTotal(a.relPath, b.relPath);
  }

  // ---- totals --------------------------------------------------------------

  lemma {:induction false} SizesAdd(x: seq<Action>, y: seq<Action>)
    ensures SumSizes(x + y) == SumSizes(x) + SumSizes(y)
    ensures CountOverwrites(x + y) == CountOverwrites(x) + CountOverwrites(y)
  {
    if y == [] {
      assert x + y == x;
    } else {
      SizesAdd(x, y[..|y| - 1]);
      assert (x + y)[..|x + y| - 1] == x + y[..|y| - 1];
    }
  }

  lemma SizeOfOne(a: Action)
    ensures SumSizes([a]) == a.size && CountOverwrites([a]) == if a.overwrite then 1 else 0
  {
    assert [a][..0] == [];
  }
}
