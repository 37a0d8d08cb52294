/** Mirror correctness: a fault-free run of a mirror plan meets no obstacle and
    leaves the destination an image of the source. */
module Mirroring {
  import opened Paths
  import opened Sorting
  import opened Scans
  import opened Differ
  import opened Effects
  import opened Executor
  import opened Gating
  import opened Scope

  // ---- what a mirror needs, path by path ----------------------------------

  ghost predicate NeedsClear(s: Tree, d: Tree, p: Path) {
    p in s && p in d && !s[p].Link? && (d[p].Link? || d[p].Dir? != s[p].Dir?)
  }

  ghost predicate NeedsDir(s: Tree, d: Tree, p: Path) {
    p in s && s[p].Dir? && !(p in d && d[p].Dir?)
  }

  ghost predicate InSync(s: Tree, d: Tree, o: Options, p: Path) {
    && p in s && s[p].File? && p in d && d[p].File?
    && SameFile(EntryOf(p, s[p]), EntryOf(p, d[p]), o)
  }

  ghost predicate NeedsCopy(s: Tree, d: Tree, o: Options, p: Path) {
    p in s && s[p].File? && !InSync(s, d, o, p)
  }

  ghost predicate Extra(s: Tree, d: Tree, p: Path) { p in d && p !in s }

  /** No full directory stands where the source has a file. */
  ghost predicate NoFullDirs(s: Tree, d: Tree) {
    forall p :: p in s && s[p].File? && p in d && d[p].Dir? ==> !HasBeneath(d, p)
  }

  /** A mirror run without filters on complete listings, with the guard silent. */
  ghost predicate Case(s: Tree, d: Tree, o: Options, src: ScanResult, dst: ScanResult, c: Config) {
    && TreeOk(s) && TreeOk(d) && c.source == s
    && IsScan(s, NO_FAULTS, Nothing, src) && IsScan(d, NO_FAULTS, Nothing, dst)
    && o.mode == Mirror && o.filter == AdmitAll && !o.caseInsensitive && !Guarded(src, dst, o)
    && IsStages(src, dst, o, c.stages)
  }

  lemma ListsAll(t: Tree, r: ScanResult, p: Path)
    requires TreeOk(t) && IsScan(t, NO_FAULTS, Nothing, r)
    ensures p in r.entries <==> p in t
    ensures p in t ==> r.entries[p] == EntryOf(p, t[p])
  {
    assert p in t ==> Listed(t, NO_FAULTS, Nothing, p);
  }

  lemma StagesMeanNeeds(s: Tree, d: Tree, o: Options, src: ScanResult, dst: ScanResult, c: Config, p: Path)
    requires Case(s, d, o, src, dst, c)
    ensures WantsUnblock(src, dst, o, p) <==> NeedsClear(s, d, p)
    ensures WantsCopy(src, dst, o, p) <==> NeedsCopy(s, d, o, p)
    ensures WantsMkdir(src, dst, o, p) || NeededDir(src, dst, o, p) <==> NeedsDir(s, d, p)
    ensures Extraneous(src, dst, o, p) <==> Extra(s, d, p)
    ensures p in d ==> p in dst.entries && dst.entries[p].isDir == d[p].Dir?
  {
    ListsAll(s, src, p);
    ListsAll(d, dst, p);
    assert WantsMkdir(src, dst, o, p) <==> NeedsDir(s, d, p);
    if NeededDir(src, dst, o, p) {
      var q :| WantsCopy(src, dst, o, q) && IsAncestor(p, q);
      ListsAll(s, src, q);
    }
  }

  // ---- the tree during the run --------------------------------------------

  /** The paths each stage has dealt with. */
  datatype Progress = Progress(
    cleared: set<Path>, made: set<Path>, copied: set<Path>, deleted: set<Path>, removed: set<Path>)

  ghost predicate CopyOf(s: Tree, rounding: nat, p: Path, n: Node)
    requires p in s && s[p].File?
  {
    n.File? && n.data == s[p].data && (s[p].mtime != ZERO_TIME ==> Near(n.mtime, s[p].mtime, rounding))
  }

  /** The tree is the old one with exactly this progress made. */
  ghost predicate Shape(s: Tree, d: Tree, o: Options, rounding: nat, g: Progress, t: Tree) {
    && (forall p :: p in g.cleared ==> NeedsClear(s, d, p))
    && (forall p :: p in g.made ==> NeedsDir(s, d, p))
    && (forall p :: p in g.copied ==> NeedsCopy(s, d, o, p))
    && (forall p :: p in g.deleted ==> Extra(s, d, p))
    && (forall p :: p in g.removed ==> Extra(s, d, p))
    && forall p ::
         if p in g.deleted || p in g.removed then p !in t
         else if p in g.copied then p in t && CopyOf(s, rounding, p, t[p])
         else if p in g.made then p in t && t[p] == Dir
         else if p in g.cleared then p !in t
         else (p in t <==> p in d) && (p in t ==> t[p] == d[p])
  }

  ghost predicate ClearedAll(s: Tree, d: Tree, g: Progress) { forall p :: NeedsClear(s, d, p) ==> p in g.cleared }
  ghost predicate MadeAll(s: Tree, d: Tree, g: Progress) { forall p :: NeedsDir(s, d, p) ==> p in g.made }
  ghost predicate CopiedAll(s: Tree, d: Tree, o: Options, g: Progress) {
    forall p :: NeedsCopy(s, d, o, p) ==> p in g.copied
  }
  ghost predicate DeletedAll(s: Tree, d: Tree, g: Progress) {
    forall p :: Extra(s, d, p) && !d[p].Dir? ==> p in g.deleted
  }

  lemma ClearStep(s: Tree, d: Tree, o: Options, n: nat, g: Progress, t: Tree, p: Path)
    requires TreeOk(s) && TreeOk(d) && Shape(s, d, o, n, g, t)
    requires NoFullDirs(s, d)
    requires g.made == g.copied == g.deleted == g.removed == {}
    requires NeedsClear(s, d, p) && p !in g.cleared
    ensures Removable(t, p) && Shape(s, d, o, n, g.(cleared := g.cleared + {p}), t - {p})
  {
    assert forall q :: q in t && IsAncestor(p, q) ==> q in d;
  }

  /** The directories above a source path are in place once they are made. */
  lemma AboveIsThere(s: Tree, d: Tree, o: Options, n: nat, g: Progress, t: Tree, p: Path, a: Path)
    requires TreeOk(s) && TreeOk(d) && Shape(s, d, o, n, g, t) && p in s && IsAncestor(a, p)
    requires NeedsDir(s, d, a) ==> a in g.made
    ensures a in t && t[a].Dir?
  {
  }

  lemma MakeStep(s: Tree, d: Tree, o: Options, n: nat, g: Progress, t: Tree, p: Path)
    requires TreeOk(s) && TreeOk(d) && Shape(s, d, o, n, g, t)
    requires g.copied == g.deleted == g.removed == {} && ClearedAll(s, d, g)
    requires NeedsDir(s, d, p) && p !in g.made
    requires forall a :: NeedsDir(s, d, a) && IsAncestor(a, p) ==> a in g.made
    ensures !Obstructed(t, p) && Shape(s, d, o, n, g.(made := g.made + {p}), MakeAll(t, p))
  {
    forall a | IsAncestor(a, p) ensures a in t && t[a].Dir? && a != "" {
      AboveIsThere(s, d, o, n, g, t, p, a);
    }
    assert p !in t && p != "";
    assert MakeAll(t, p) == t[p := Dir];
  }

  lemma CopyStep(s: Tree, d: Tree, o: Options, n: nat, g: Progress, t: Tree, p: Path, stamp: int)
    requires TreeOk(s) && TreeOk(d) && Shape(s, d, o, n, g, t)
    requires g.deleted == g.removed == {} && ClearedAll(s, d, g) && MadeAll(s, d, g)
    requires NeedsCopy(s, d, o, p) && p !in g.copied
    requires s[p].mtime != ZERO_TIME ==> Near(stamp, s[p].mtime, n)
    ensures Publishable(t, p)
    ensures Shape(s, d, o, n, g.(copied := g.copied + {p}), t[p := File(s[p].data, stamp)])
  {
    forall a | IsAncestor(a, p) ensures a in t && t[a].Dir? {
      AboveIsThere(s, d, o, n, g, t, p, a);
    }
  }

  lemma DeleteStep(s: Tree, d: Tree, o: Options, n: nat, g: Progress, t: Tree, p: Path)
    requires Shape(s, d, o, n, g, t) && g.removed == {}
    requires Extra(s, d, p) && !d[p].Dir? && p !in g.deleted
    ensures Removable(t, p) && Shape(s, d, o, n, g.(deleted := g.deleted + {p}), t - {p})
  {
  }

  lemma RemoveStep(s: Tree, d: Tree, o: Options, n: nat, g: Progress, t: Tree, p: Path)
    requires TreeOk(s) && Shape(s, d, o, n, g, t) && DeletedAll(s, d, g)
    requires Extra(s, d, p) && d[p].Dir? && p !in g.removed && p !in g.deleted
    requires forall q :: Extra(s, d, q) && d[q].Dir? && IsAncestor(p, q) ==> q in g.removed
    ensures Removable(t, p) && Shape(s, d, o, n, g.(removed := g.removed + {p}), t - {p})
  {
    forall q | IsAncestor(p, q) ensures q !in t {
      assert q !in s;
    }
  }

  /** The destination is an image of the source: its paths and kinds, each file
      a copy or already the same. Where the source has a link, whatever the
      destination had stays. */
  ghost predicate Image(s: Tree, d: Tree, o: Options, rounding: nat, t: Tree) {
    && (forall p :: p in t <==> p in s && (s[p].Link? ==> p in d))
    && forall p :: p in t ==>
         match s[p]
         case Dir => t[p] == Dir
         case Link => t[p] == d[p]
         case File(_, _) => if InSync(s, d, o, p) then t[p] == d[p] else CopyOf(s, rounding, p, t[p])
  }

  lemma AllDoneIsImage(s: Tree, d: Tree, o: Options, n: nat, g: Progress, t: Tree)
    requires Shape(s, d, o, n, g, t)
    requires ClearedAll(s, d, g) && MadeAll(s, d, g) && CopiedAll(s, d, o, g) && DeletedAll(s, d, g)
    requires forall p :: Extra(s, d, p) && d[p].Dir? ==> p in g.removed
    ensures Image(s, d, o, n, t)
  {
  }

  // ---- the stages as sets of paths ----------------------------------------

  function PathSet(actions: seq<Action>): set<Path> {
    set a | a in actions :: a.relPath
  }

  lemma StagePaths(s: Tree, d: Tree, o: Options, src: ScanResult, dst: ScanResult, c: Config, p: Path)
    requires Case(s, d, o, src, dst, c)
    ensures p in PathSet(c.stages.unblocks) <==> NeedsClear(s, d, p)
    ensures p in PathSet(c.stages.mkdirs) <==> NeedsDir(s, d, p)
    ensures p in PathSet(c.stages.copies) <==> NeedsCopy(s, d, o, p)
    ensures p in PathSet(c.stages.deletes) <==> Extra(s, d, p) && !d[p].Dir?
    ensures p in PathSet(c.stages.rmdirs) <==> Extra(s, d, p) && d[p].Dir?
  {
    StagesMeanNeeds(s, d, o, src, dst, c, p);
    if NeedsClear(s, d, p) {
      var x := dst.entries[p];
      var a := Action(if x.isDir && !x.isSymlink then RmDir else Delete, p,
                      if x.isDir || x.isSymlink then 0 else x.size, ZERO_TIME, true, false);
      assert IsUnblock(src, dst, o, a) && a in c.stages.unblocks;
    }
    if NeedsDir(s, d, p) {
      assert IsMkdir(src, dst, o, MkdirAction(p)) && MkdirAction(p) in c.stages.mkdirs;
    }
    if NeedsCopy(s, d, o, p) {
      var e := src.entries[p];
      var a := Action(Copy, p, e.size, e.modTime, false, p in dst.entries && !Clash(src, dst, p));
      assert IsCopy(src, dst, o, a) && a in c.stages.copies;
    }
    if Extra(s, d, p) {
      if d[p].Dir? {
        var a := Action(RmDir, p, 0, ZERO_TIME, false, false);
        assert IsRmdir(src, dst, o, a) && a in c.stages.rmdirs;
      } else {
        var a := Action(Delete, p, dst.entries[p].size, ZERO_TIME, false, false);
        assert IsDelete(src, dst, o, a) && a in c.stages.deletes;
      }
    }
    StagePathsBack(s, d, o, src, dst, c, p);
  }

  lemma StagePathsBack(s: Tree, d: Tree, o: Options, src: ScanResult, dst: ScanResult, c: Config, p: Path)
    requires Case(s, d, o, src, dst, c)
    ensures p in PathSet(c.stages.unblocks) ==> NeedsClear(s, d, p)
    ensures p in PathSet(c.stages.mkdirs) ==> NeedsDir(s, d, p)
    ensures p in PathSet(c.stages.copies) ==> NeedsCopy(s, d, o, p)
    ensures p in PathSet(c.stages.deletes) ==> Extra(s, d, p) && !d[p].Dir?
    ensures p in PathSet(c.stages.rmdirs) ==> Extra(s, d, p) && d[p].Dir?
  {
    StagesMeanNeeds(s, d, o, src, dst, c, p);
    if p in PathSet(c.stages.unblocks) {
      var a :| a in c.stages.unblocks && a.relPath == p;
      assert IsUnblock(src, dst, o, a);
    }
    if p in PathSet(c.stages.mkdirs) {
      var a :| a in c.stages.mkdirs && a.relPath == p;
      assert IsMkdir(src, dst, o, a);
    }
    if p in PathSet(c.stages.copies) {
      var a :| a in c.stages.copies && a.relPath == p;
      assert IsCopy(src, dst, o, a);
    }
    if p in PathSet(c.stages.deletes) {
      var a :| a in c.stages.deletes && a.relPath == p;
      assert IsDelete(src, dst, o, a);
    }
    if p in PathSet(c.stages.rmdirs) {
      var a :| a in c.stages.rmdirs && a.relPath == p;
      assert IsRmdir(src, dst, o, a);
    }
  }

  /** The order of a stage, as far as depth goes. */
  ghost predicate Ordered(order: Order, actions: seq<Action>) {
    forall i, j :: 0 <= i < j < |actions| ==>
      && actions[i].relPath != actions[j].relPath
      && (order == ShallowFirst ==> Depth(actions[i].relPath) <= Depth(actions[j].relPath))
      && (order == DeepFirst ==> Depth(actions[i].relPath) >= Depth(actions[j].relPath))
  }

  lemma StrictIsOrdered(order: Order, actions: seq<Action>)
    requires Strict(order, PathOf, actions)
    ensures Ordered(order, actions)
  {
    forall i, j | 0 <= i < j < |actions| ensures
      && actions[i].relPath != actions[j].relPath
      && (order == ShallowFirst ==> Depth(actions[i].relPath) <= Depth(actions[j].relPath))
      && (order == DeepFirst ==> Depth(actions[i].relPath) >= Depth(actions[j].relPath))
    {
      assert Le(order, PathOf(actions[i]), PathOf(actions[j])) && PathOf(actions[i]) != PathOf(actions[j]);
    }
  }

  /** All that a run needs to know about its plan. */
  ghost predicate Digest(s: Tree, d: Tree, o: Options, c: Config) {
    && TreeOk(s) && TreeOk(d) && c.source == s && Shaped(c.stages)
    && (forall p :: p in PathSet(c.stages.unblocks) <==> NeedsClear(s, d, p)) && Ordered(DeepFirst, c.stages.unblocks)
    && (forall p :: p in PathSet(c.stages.mkdirs) <==> NeedsDir(s, d, p)) && Ordered(ShallowFirst, c.stages.mkdirs)
    && (forall p :: p in PathSet(c.stages.copies) <==> NeedsCopy(s, d, o, p)) && Ordered(Lexical, c.stages.copies)
    && (forall p :: p in PathSet(c.stages.deletes) <==> Extra(s, d, p) && !d[p].Dir?)
    && Ordered(DeepFirst, c.stages.deletes)
    && (forall p :: p in PathSet(c.stages.rmdirs) <==> Extra(s, d, p) && d[p].Dir?)
    && Ordered(DeepFirst, c.stages.rmdirs)
    && (forall a :: a in c.stages.copies ==> a.relPath in s && s[a.relPath].File? && a.modTime == s[a.relPath].mtime)
  }

  lemma CaseDigest(s: Tree, d: Tree, o: Options, src: ScanResult, dst: ScanResult, c: Config)
    requires Case(s, d, o, src, dst, c)
    ensures Digest(s, d, o, c)
  {
    StagesAreShaped(src, dst, o, c.stages);
    StrictIsOrdered(DeepFirst, c.stages.unblocks);
    StrictIsOrdered(ShallowFirst, c.stages.mkdirs);
    StrictIsOrdered(Lexical, c.stages.copies);
    StrictIsOrdered(DeepFirst, c.stages.deletes);
    StrictIsOrdered(DeepFirst, c.stages.rmdirs);
    forall p ensures
      && (p in PathSet(c.stages.unblocks) <==> NeedsClear(s, d, p))
      && (p in PathSet(c.stages.mkdirs) <==> NeedsDir(s, d, p))
      && (p in PathSet(c.stages.copies) <==> NeedsCopy(s, d, o, p))
      && (p in PathSet(c.stages.deletes) <==> Extra(s, d, p) && !d[p].Dir?)
      && (p in PathSet(c.stages.rmdirs) <==> Extra(s, d, p) && d[p].Dir?)
    {
      StagePaths(s, d, o, src, dst, c, p);
    }
    forall a | a in c.stages.copies
      ensures a.relPath in s && s[a.relPath].File? && a.modTime == s[a.relPath].mtime
    {
      assert IsCopy(src, dst, o, a);
      ListsAll(s, src, a.relPath);
    }
  }
}
