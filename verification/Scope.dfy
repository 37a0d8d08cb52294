/** What the filters promise about plans: pruned walks plan the same work as
    full ones, and a rule that could not be loaded stops every removal. */
module Scope {
  import opened Paths
  import opened Sorting
  import opened Scans
  import opened Differ
  import opened Effects
  import Filters
  import Resolve

  // ---- pruned walks -------------------------------------------------------

  function Nothing(p: Path): bool { false }

  /** One tree listed in full and with pruning. */
  ghost predicate Listings(t: Tree, prune: Path -> bool, full: ScanResult, pruned: ScanResult) {
    TreeOk(t) && IsScan(t, NO_FAULTS, Nothing, full) && IsScan(t, NO_FAULTS, prune, pruned)
  }

  /** Listings of both sides, pruned only where the filter lets nothing in. */
  ghost predicate Setting(s: Tree, d: Tree, srcPrune: Path -> bool, dstPrune: Path -> bool, o: Options,
                          srcFull: ScanResult, dstFull: ScanResult, src: ScanResult, dst: ScanResult)
  {
    && Listings(s, srcPrune, srcFull, src) && Listings(d, dstPrune, dstFull, dst)
    && PruneSound(srcPrune, o) && PruneSound(dstPrune, o) && !o.caseInsensitive
  }

  lemma FullListing(t: Tree, prune: Path -> bool, full: ScanResult, pruned: ScanResult, p: Path)
    requires Listings(t, prune, full, pruned)
    ensures p in full.entries <==> p in t
    ensures p in pruned.entries ==> p in t && pruned.entries[p] == full.entries[p]
    ensures p in full.entries ==> full.entries[p] == EntryOf(p, t[p])
    ensures !full.Incomplete() && !pruned.Incomplete()
  {
    assert p in t ==> Listed(t, NO_FAULTS, Nothing, p);
    assert full.errors == {} && pruned.errors == {};
  }

  /** An admitted path is listed unless it is a directory that is pruned. */
  lemma AdmittedSurvivesPruning(t: Tree, prune: Path -> bool, o: Options, full: ScanResult, pruned: ScanResult,
                                p: Path, k: bool)
    requires Listings(t, prune, full, pruned) && PruneSound(prune, o) && o.Admits(p, k)
    ensures p in pruned.entries <==> p in full.entries && !(t[p].Dir? && prune(p))
  {
    FullListing(t, prune, full, pruned, p);
    if p in t && !(t[p].Dir? && prune(p)) {
      AdmittedIsListed(t, prune, o, p, k);
    }
  }

  /** The same source paths are in scope. */
  lemma SameLive(s: Tree, d: Tree, srcPrune: Path -> bool, dstPrune: Path -> bool, o: Options,
                 srcFull: ScanResult, dstFull: ScanResult, src: ScanResult, dst: ScanResult, p: Path)
    requires Setting(s, d, srcPrune, dstPrune, o, srcFull, dstFull, src, dst)
    ensures Live(src, o, p) <==> Live(srcFull, o, p)
    ensures Live(src, o, p) ==> src.entries[p] == srcFull.entries[p] == EntryOf(p, s[p]) && p in s
    ensures Live(src, o, p) ==>
      (p in dst.entries <==> p in dstFull.entries && !(d[p].Dir? && dstPrune(p)))
    ensures p in dst.entries ==> p in dstFull.entries && dst.entries[p] == dstFull.entries[p] == EntryOf(p, d[p])
    ensures p in dstFull.entries <==> p in d
    ensures p in d ==> dstFull.entries[p] == EntryOf(p, d[p])
  {
    FullListing(s, srcPrune, srcFull, src, p);
    FullListing(d, dstPrune, dstFull, dst, p);
    if p in s && o.Admits(p, s[p].Dir?) {
      AdmittedSurvivesPruning(s, srcPrune, o, srcFull, src, p, s[p].Dir?);
      AdmittedSurvivesPruning(d, dstPrune, o, dstFull, dst, p, s[p].Dir?);
    }
  }

  /** Exactly which removals pruning adds: a destination file in scope where the
      source has a directory the walk skipped. */
  lemma ExtraneousExactly(s: Tree, d: Tree, srcPrune: Path -> bool, dstPrune: Path -> bool, o: Options,
                          srcFull: ScanResult, dstFull: ScanResult, src: ScanResult, dst: ScanResult, p: Path)
    requires Setting(s, d, srcPrune, dstPrune, o, srcFull, dstFull, src, dst)
    ensures Extraneous(src, dst, o, p) <==>
      || Extraneous(srcFull, dstFull, o, p)
      || (o.mode == Mirror && p in s && s[p].Dir? && srcPrune(p) && p in d && !d[p].Dir? && o.Admits(p, false))
    ensures Extraneous(src, dst, o, p) ==> dst.entries[p] == dstFull.entries[p]
  {
    FullListing(s, srcPrune, srcFull, src, p);
    FullListing(d, dstPrune, dstFull, dst, p);
    if p in d && o.Admits(p, d[p].Dir?) {
      AdmittedSurvivesPruning(s, srcPrune, o, srcFull, src, p, d[p].Dir?);
      AdmittedSurvivesPruning(d, dstPrune, o, dstFull, dst, p, d[p].Dir?);
    }
  }

  /** Exactly which clearings pruning loses: a hidden destination directory
      where the source has a file. */
  lemma UnblockExactly(s: Tree, d: Tree, srcPrune: Path -> bool, dstPrune: Path -> bool, o: Options,
                       srcFull: ScanResult, dstFull: ScanResult, src: ScanResult, dst: ScanResult, p: Path)
    requires Setting(s, d, srcPrune, dstPrune, o, srcFull, dstFull, src, dst)
    ensures WantsUnblock(srcFull, dstFull, o, p) <==>
      || WantsUnblock(src, dst, o, p)
      || (o.mode == Mirror && Live(src, o, p) && s[p].File? && p in d && d[p].Dir? && dstPrune(p))
  {
    SameLive(s, d, srcPrune, dstPrune, o, srcFull, dstFull, src, dst, p);
  }

  /** No path is a directory on one side only. */
  ghost predicate DirsAgree(s: Tree, d: Tree) {
    forall p :: p in s && p in d ==> s[p].Dir? == d[p].Dir?
  }

  lemma SameWants(s: Tree, d: Tree, srcPrune: Path -> bool, dstPrune: Path -> bool, o: Options,
                  srcFull: ScanResult, dstFull: ScanResult, src: ScanResult, dst: ScanResult, p: Path)
    requires Setting(s, d, srcPrune, dstPrune, o, srcFull, dstFull, src, dst) && DirsAgree(s, d)
    ensures Live(src, o, p) ==> p in src.entries && p in srcFull.entries && src.entries[p] == srcFull.entries[p]
    ensures Live(src, o, p) ==> (p in dst.entries <==> p in dstFull.entries)
    ensures Live(src, o, p) && p in dst.entries ==> dst.entries[p] == dstFull.entries[p]
    ensures WantsUnblock(src, dst, o, p) <==> WantsUnblock(srcFull, dstFull, o, p)
    ensures WantsMkdir(src, dst, o, p) <==> WantsMkdir(srcFull, dstFull, o, p)
    ensures WantsCopy(src, dst, o, p) <==> WantsCopy(srcFull, dstFull, o, p)
  {
    SameLive(s, d, srcPrune, dstPrune, o, srcFull, dstFull, src, dst, p);
  }

  /** A directory above a planned copy is never hidden. */
  lemma SameNeededDir(s: Tree, d: Tree, srcPrune: Path -> bool, dstPrune: Path -> bool, o: Options,
                      srcFull: ScanResult, dstFull: ScanResult, src: ScanResult, dst: ScanResult, p: Path)
    requires Setting(s, d, srcPrune, dstPrune, o, srcFull, dstFull, src, dst) && DirsAgree(s, d)
    ensures NeededDir(src, dst, o, p) <==> NeededDir(srcFull, dstFull, o, p)
  {
    forall c ensures WantsCopy(src, dst, o, c) <==> WantsCopy(srcFull, dstFull, o, c) {
      SameWants(s, d, srcPrune, dstPrune, o, srcFull, dstFull, src, dst, c);
    }
    FullListing(d, dstPrune, dstFull, dst, p);
    if c :| WantsCopy(src, dst, o, c) && IsAncestor(p, c) {
      assert o.Admits(c, src.entries[c].isDir) && !dstPrune(p);
      if p in d {
        forall a | IsAncestor(a, p) ensures Entered(d, NO_FAULTS, dstPrune, a) {
          AncestorTransitive(a, p, c);
        }
        assert Listed(d, NO_FAULTS, dstPrune, p);
      }
    }
  }

  /** Planning from pruned listings is planning from full ones: the same
      clearings, directories and copies in the same order, and the same
      removals unless the guard withholds them. */
  lemma PrunedPlanIsFullPlan(s: Tree, d: Tree, srcPrune: Path -> bool, dstPrune: Path -> bool, o: Options,
                             srcFull: ScanResult, dstFull: ScanResult, src: ScanResult, dst: ScanResult,
                             full: Stages, st: Stages)
    requires Setting(s, d, srcPrune, dstPrune, o, srcFull, dstFull, src, dst) && DirsAgree(s, d)
    requires IsStages(srcFull, dstFull, o, full) && IsStages(src, dst, o, st)
    ensures st.unblocks == full.unblocks && st.mkdirs == full.mkdirs && st.copies == full.copies
    ensures !Guarded(src, dst, o) ==> st.deletes == full.deletes && st.rmdirs == full.rmdirs
  {
    SameUnblocks(s, d, srcPrune, dstPrune, o, srcFull, dstFull, src, dst, full, st);
    SameMkdirs(s, d, srcPrune, dstPrune, o, srcFull, dstFull, src, dst, full, st);
    SameCopies(s, d, srcPrune, dstPrune, o, srcFull, dstFull, src, dst, full, st);
    if !Guarded(src, dst, o) {
      SameRemovals(s, d, srcPrune, dstPrune, o, srcFull, dstFull, src, dst, full, st);
    }
  }

  lemma SameUnblock(s: Tree, d: Tree, srcPrune: Path -> bool, dstPrune: Path -> bool, o: Options,
               srcFull: ScanResult, dstFull: ScanResult, src: ScanResult, dst: ScanResult, a: Action)
    requires Setting(s, d, srcPrune, dstPrune, o, srcFull, dstFull, src, dst) && DirsAgree(s, d)
    ensures IsUnblock(src, dst, o, a) <==> IsUnblock(srcFull, dstFull, o, a)
  {
    SameWants(s, d, srcPrune, dstPrune, o, srcFull, dstFull, src, dst, a.relPath);
  }

  lemma SameUnblocks(s: Tree, d: Tree, srcPrune: Path -> bool, dstPrune: Path -> bool, o: Options,
                   srcFull: ScanResult, dstFull: ScanResult, src: ScanResult, dst: ScanResult,
                   full: Stages, st: Stages)
    requires Setting(s, d, srcPrune, dstPrune, o, srcFull, dstFull, src, dst) && DirsAgree(s, d)
    requires IsStages(srcFull, dstFull, o, full) && IsStages(src, dst, o, st)
    ensures st.unblocks == full.unblocks
  {
    forall a ensures a in st.unblocks <==> a in full.unblocks {
      SameUnblock(s, d, srcPrune, dstPrune, o, srcFull, dstFull, src, dst, a);
    }
    StrictUnique(DeepFirst, PathOf, st.unblocks, full.unblocks);
  }

  lemma SameMkdirs(s: Tree, d: Tree, srcPrune: Path -> bool, dstPrune: Path -> bool, o: Options,
                   srcFull: ScanResult, dstFull: ScanResult, src: ScanResult, dst: ScanResult,
                   full: Stages, st: Stages)
    requires Setting(s, d, srcPrune, dstPrune, o, srcFull, dstFull, src, dst) && DirsAgree(s, d)
    requires IsStages(srcFull, dstFull, o, full) && IsStages(src, dst, o, st)
    ensures st.mkdirs == full.mkdirs
  {
    forall a ensures a in st.mkdirs <==> a in full.mkdirs {
      SameWants(s, d, srcPrune, dstPrune, o, srcFull, dstFull, src, dst, a.relPath);
      SameNeededDir(s, d, srcPrune, dstPrune, o, srcFull, dstFull, src, dst, a.relPath);
      assert IsMkdir(src, dst, o, a) <==> IsMkdir(srcFull, dstFull, o, a);
    }
    StrictUnique(ShallowFirst, PathOf, st.mkdirs, full.mkdirs);
  }

  lemma SameCopy(s: Tree, d: Tree, srcPrune: Path -> bool, dstPrune: Path -> bool, o: Options,
               srcFull: ScanResult, dstFull: ScanResult, src: ScanResult, dst: ScanResult, a: Action)
    requires Setting(s, d, srcPrune, dstPrune, o, srcFull, dstFull, src, dst) && DirsAgree(s, d)
    ensures IsCopy(src, dst, o, a) <==> IsCopy(srcFull, dstFull, o, a)
  {
    SameWants(s, d, srcPrune, dstPrune, o, srcFull, dstFull, src, dst, a.relPath);
  }

  lemma SameCopies(s: Tree, d: Tree, srcPrune: Path -> bool, dstPrune: Path -> bool, o: Options,
                   srcFull: ScanResult, dstFull: ScanResult, src: ScanResult, dst: ScanResult,
                   full: Stages, st: Stages)
    requires Setting(s, d, srcPrune, dstPrune, o, srcFull, dstFull, src, dst) && DirsAgree(s, d)
    requires IsStages(srcFull, dstFull, o, full) && IsStages(src, dst, o, st)
    ensures st.copies == full.copies
  {
    forall a ensures a in st.copies <==> a in full.copies {
      SameCopy(s, d, srcPrune, dstPrune, o, srcFull, dstFull, src, dst, a);
    }
    StrictUnique(Lexical, PathOf, st.copies, full.copies);
  }

  lemma SameRemovals(s: Tree, d: Tree, srcPrune: Path -> bool, dstPrune: Path -> bool, o: Options,
                     srcFull: ScanResult, dstFull: ScanResult, src: ScanResult, dst: ScanResult,
                     full: Stages, st: Stages)
    requires Setting(s, d, srcPrune, dstPrune, o, srcFull, dstFull, src, dst) && DirsAgree(s, d)
    requires IsStages(srcFull, dstFull, o, full) && IsStages(src, dst, o, st)
    requires !Guarded(src, dst, o)
    ensures st.deletes == full.deletes && st.rmdirs == full.rmdirs
  {
    forall a ensures a in st.deletes <==> a in full.deletes {
      SameExtraneous(s, d, srcPrune, dstPrune, o, srcFull, dstFull, src, dst, a.relPath);
      assert IsDelete(src, dst, o, a) <==> IsDelete(srcFull, dstFull, o, a);
    }
    forall a ensures a in st.rmdirs <==> a in full.rmdirs {
      SameExtraneous(s, d, srcPrune, dstPrune, o, srcFull, dstFull, src, dst, a.relPath);
      assert IsRmdir(src, dst, o, a) <==> IsRmdir(srcFull, dstFull, o, a);
    }
    StrictUnique(DeepFirst, PathOf, st.deletes, full.deletes);
    StrictUnique(DeepFirst, PathOf, st.rmdirs, full.rmdirs);
  }

  /** With the guard silent on the pruned side, whatever is extraneous is so on
      both sides, and then the guard is silent on the full side too. */
  lemma SameExtraneous(s: Tree, d: Tree, srcPrune: Path -> bool, dstPrune: Path -> bool, o: Options,
                       srcFull: ScanResult, dstFull: ScanResult, src: ScanResult, dst: ScanResult, p: Path)
    requires Setting(s, d, srcPrune, dstPrune, o, srcFull, dstFull, src, dst) && DirsAgree(s, d)
    requires !Guarded(src, dst, o)
    ensures Extraneous(src, dst, o, p) <==> Extraneous(srcFull, dstFull, o, p)
    ensures Extraneous(src, dst, o, p) ==> dst.entries[p] == dstFull.entries[p] && !Guarded(srcFull, dstFull, o)
  {
    ExtraneousExactly(s, d, srcPrune, dstPrune, o, srcFull, dstFull, src, dst, p);
    if Extraneous(src, dst, o, p) {
      var q :| q in src.entries;
      FullListing(s, srcPrune, srcFull, src, q);
    }
  }

  // ---- chains -------------------------------------------------------------

  ghost function MatcherOf(g: Filters.Globs, c: Filters.Chain): Filter {
    Matcher((p, k) => Filters.Admits(g, c, p, k), c.degraded)
  }

  ghost function PruneOf(g: Filters.Globs, c: Filters.Chain): Path -> bool {
    d => Filters.Prunes(g, c, d)
  }

  /** The chains a job resolves to prune soundly, on both sides. */
  lemma ChainsPruneSoundly(g: Filters.Globs, rules: seq<Resolve.Stored>, prune: Filters.Chain, dest: Filters.Chain,
                           target: string, o: Options)
    requires Resolve.RightFor(prune, rules, Resolve.SourceWalk)
    requires Resolve.RightFor(dest, rules, Resolve.Destination(target))
    requires o.filter == MatcherOf(g, dest)
    ensures PruneSound(PruneOf(g, prune), o) && PruneSound(PruneOf(g, dest), o)
  {
    Resolve.DestinationExtendsPrune(rules, prune, dest, target);
    forall d | PruneOf(g, prune)(d) ensures !o.Admits(d, true) && forall p, k :: IsAncestor(d, p) ==> !o.Admits(p, k) {
      Filters.PrunedIsOutOfScope(g, prune, dest, d);
    }
    forall d | PruneOf(g, dest)(d) ensures !o.Admits(d, true) && forall p, k :: IsAncestor(d, p) ==> !o.Admits(p, k) {
      Filters.PrunedIsOutOfScope(g, dest, dest, d);
    }
  }

  /** Once any rule of a job was dropped, no destination's plan removes
      anything at its end, whatever the two sides hold. */
  lemma DroppedRuleStopsRemovals(g: Filters.Globs, rules: seq<Resolve.Stored>, dest: Filters.Chain, target: string,
                                 src: ScanResult, dst: ScanResult, o: Options, st: Stages, plan: Plan)
    requires Resolve.RightFor(dest, rules, Resolve.Destination(target)) && o.filter == MatcherOf(g, dest)
    requires exists s :: s in rules && Resolve.Dropped(s)
    requires IsPlan(src, dst, o, st, plan)
    ensures st.deletes == [] && st.rmdirs == []
    ensures plan.withheldDeletes == |ExtraFiles(src, dst, o)| && plan.withheldRmDirs == |ExtraDirs(src, dst, o)|
    ensures forall a :: a in plan.actions ==> a.unblock || a.kind == MkDir || a.kind == Copy
  {
    assert Guarded(src, dst, o);
    assert forall a :: a !in st.deletes && a !in st.rmdirs;
    Sorting.HeadIn(st.deletes);
    Sorting.HeadIn(st.rmdirs);
  }
}
