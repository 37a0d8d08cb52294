/** The differ's loops, proved to build the plan that `Differ` describes. */
module Planner {
  import opened Paths
  import opened Sorting
  import opened Scans
  import opened Differ

  predicate Distinct(s: seq<Action>) {
    forall i, j :: 0 <= i < j < |s| ==> PathOf(s[i]) != PathOf(s[j])
  }

  /** The keys of a listing, sorted; what matters to the caller is that they are
      all there once. */
  method Keys(entries: map<Path, Entry>) returns (keys: seq<Path>)
    ensures forall i, j :: 0 <= i < j < |keys| ==> keys[i] != keys[j]
    ensures forall p :: p in keys <==> p in entries
  {
    keys := SortSet(entries.Keys);
    forall i, j | 0 <= i < j < |keys| ensures keys[i] != keys[j] {
      assert Self(keys[i]) != Self(keys[j]);
    }
  }

  /** All the source paths with one folded name, in order. */
  ghost predicate IsGroup(src: ScanResult, o: Options, f: Path, group: seq<Path>) {
    && group != [] && Strict(Lexical, Self, group)
    && forall p :: p in group <==> p in src.entries && o.fold(p) == f
  }

  /** Paths bucketed by their folded name, each bucket in order. */
  method FoldedGroups(src: ScanResult, o: Options) returns (groups: map<Path, seq<Path>>)
    ensures forall p :: p in src.entries ==> o.fold(p) in groups
    ensures forall f :: f in groups ==> IsGroup(src, o, f, groups[f])
  {
    groups := map[];
    var left := src.entries.Keys;
    while left != {}
      invariant left <= src.entries.Keys
      invariant forall p :: p in src.entries && p !in left ==> o.fold(p) in groups && p in groups[o.fold(p)]
      invariant forall f :: f in groups ==> Strict(Lexical, Self, groups[f]) && groups[f] != []
      invariant forall f, p :: f in groups && p in groups[f] ==> p in src.entries && p !in left && o.fold(p) == f
    {
      var p :| p in left;
      var f := o.fold(p);
      var group := Put(Lexical, Self, p, if f in groups then groups[f] else []);
      left := left - {p};
      groups := groups[f := group];
    }
  }

  /** Source paths that collide at a case-insensitive destination: all but the
      first of each group are skipped, and the first carries the conflict. */
  method Collisions(src: ScanResult, o: Options) returns (skip: set<Path>, conflicts: seq<Conflict>)
    requires o.caseInsensitive
    ensures forall p :: p in src.entries ==> (p in skip <==> Skipped(src, o, p))
    ensures forall c :: c in conflicts <==> c.reason == CaseCollision && IsConflict(src, Empty(), o, c)
  {
    var groups := FoldedGroups(src, o);
    skip, conflicts := {}, [];
    var left := groups.Keys;
    while left != {}
      invariant left <= groups.Keys
      invariant forall p :: p in src.entries ==> (p in skip <==> o.fold(p) !in left && Skipped(src, o, p))
      invariant forall c :: c in conflicts ==>
        c.reason == CaseCollision && IsConflict(src, Empty(), o, c) && o.fold(c.relPath) !in left
      invariant forall p :: IsConflict(src, Empty(), o, Conflict(p, CaseCollision)) && o.fold(p) !in left ==>
        Conflict(p, CaseCollision) in conflicts
    {
      var f :| f in left;
      var s, c := OneGroup(src, o, f, groups[f]);
      left, skip, conflicts := left - {f}, skip + s, conflicts + c;
    }
  }

  method OneGroup(src: ScanResult, o: Options, f: Path, group: seq<Path>)
    returns (skip: set<Path>, conflicts: seq<Conflict>)
    requires o.caseInsensitive && IsGroup(src, o, f, group)
    ensures forall p :: p in skip <==> p in src.entries && o.fold(p) == f && Skipped(src, o, p)
    ensures forall c :: c in conflicts <==>
      c.reason == CaseCollision && IsConflict(src, Empty(), o, c) && o.fold(c.relPath) == f
  {
    GroupMeaning(src, o, group, f);
    skip, conflicts := {}, [];
    if |group| >= 2 {
      skip := set p | p in group[1..];
      conflicts := [Conflict(group[0], CaseCollision)];
    }
  }

  function Empty(): ScanResult { ScanResult(map[], {}, {}, {}) }

  lemma GroupMeaning(src: ScanResult, o: Options, group: seq<Path>, f: Path)
    requires o.caseInsensitive && IsGroup(src, o, f, group)
    ensures forall p :: p in group ==> (Skipped(src, o, p) <==> p in group[1..])
    ensures forall p :: p in group ==>
      (IsConflict(src, Empty(), o, Conflict(p, CaseCollision)) <==> p == group[0] && |group| >= 2)
  {
    assert group == [group[0]] + group[1..];
    forall p | p in group ensures Skipped(src, o, p) <==> p in group[1..] {
      var i :| 0 <= i < |group| && group[i] == p;
      if i > 0 {
        assert group[0] in group && Self(group[0]) != Self(p) && Lex(Self(group[0]), Self(p));
        assert group[1..][i - 1] == p;
      } else if Skipped(src, o, p) {
        var q :| q in src.entries && q != p && Lex(q, p) && o.fold(q) == o.fold(p);
        var j :| 0 <= j < |group| && group[j] == q;
        LexTotal(p, q);
        assert false;
      } else {
        forall k | 1 <= k < |group| ensures group[k] != p {
          assert Self(group[0]) != Self(group[k]);
        }
      }
    }
    if |group| >= 2 {
      assert group[1] in group && Self(group[0]) != Self(group[1]);
    }
  }

  /** The part of each stage that the paths in `done` call for. */
  ghost predicate Covers(src: ScanResult, dst: ScanResult, o: Options, done: seq<Path>,
                         unblocks: seq<Action>, mkdirs: seq<Action>, copies: seq<Action>)
  {
    && (forall a :: a in unblocks <==> IsUnblock(src, dst, o, a) && a.relPath in done) && Distinct(unblocks)
    && (forall a :: a in mkdirs <==> a == MkdirAction(a.relPath) && WantsMkdir(src, dst, o, a.relPath)
                                     && a.relPath in done)
    && Distinct(mkdirs)
    && (forall a :: a in copies <==> IsCopy(src, dst, o, a) && a.relPath in done) && Distinct(copies)
  }

  /** A conflict that comes from looking at a source path. */
  predicate FromSource(r: Reason) {
    r.SourceLink? || r.DestLink? || r.FileForDir? || r.DirForFile? || r.NotOlder?
  }

  /** What one source path that is not skipped calls for: at most one action per
      stage, and at most one conflict. */
  method Consider(src: ScanResult, dst: ScanResult, o: Options, p: Path)
    returns (unblock: seq<Action>, mkdir: seq<Action>, copy: seq<Action>, conflict: seq<Conflict>)
    requires ScanOk(src) && ScanOk(dst) && p in src.entries && !Skipped(src, o, p)
    ensures |unblock| <= 1 && |mkdir| <= 1 && |copy| <= 1
    ensures forall a :: a in unblock <==> IsUnblock(src, dst, o, a) && a.relPath == p
    ensures forall a :: a in mkdir <==> a == MkdirAction(p) && WantsMkdir(src, dst, o, p)
    ensures forall a :: a in copy <==> IsCopy(src, dst, o, a) && a.relPath == p
    ensures forall c :: c in conflict <==> FromSource(c.reason) && c.relPath == p && IsConflict(src, dst, o, c)
  {
    unblock, mkdir, copy, conflict := [], [], [], [];
    var s := src.entries[p];
    if !o.Admits(p, s.isDir) { return; }
    if s.isSymlink {
      conflict := [Conflict(p, SourceLink)];
      return;
    }
    var present := p in dst.entries;
    var mirroring := o.mode == Mirror;
    if present && dst.entries[p].isSymlink {
      if !mirroring {
        conflict := [Conflict(p, DestLink)];
        return;
      }
      unblock := [Action(Delete, p, 0, ZERO_TIME, true, false)];
      if s.isDir {
        mkdir := [MkdirAction(p)];
      } else {
        copy := [Action(Copy, s.relPath, s.size, s.modTime, false, false)];
      }
      return;
    }
    if s.isDir {
      if !present {
        mkdir := [MkdirAction(p)];
      } else if !dst.entries[p].isDir && mirroring {
        unblock := [Action(Delete, p, dst.entries[p].size, ZERO_TIME, true, false)];
        mkdir := [MkdirAction(p)];
      } else if !dst.entries[p].isDir {
        conflict := [Conflict(p, FileForDir)];
      }
      return;
    }
    if !present {
      copy := [Action(Copy, s.relPath, s.size, s.modTime, false, false)];
    } else if dst.entries[p].isDir && mirroring {
      unblock := [Action(RmDir, p, 0, ZERO_TIME, true, false)];
      copy := [Action(Copy, s.relPath, s.size, s.modTime, false, false)];
    } else if dst.entries[p].isDir {
      conflict := [Conflict(p, DirForFile)];
    } else if SameFile(s, dst.entries[p], o) {
    } else if !mirroring && !SrcIsNewer(s, dst.entries[p], o) {
      conflict := [Conflict(p, NotOlder)];
    } else {
      copy := [Action(Copy, s.relPath, s.size, s.modTime, false, true)];
    }
  }

  /** What one destination path calls for. */
  method ConsiderExtra(src: ScanResult, dst: ScanResult, o: Options, folded: set<Path>, p: Path)
    returns (delete: seq<Action>, rmdir: seq<Action>, conflict: seq<Conflict>)
    requires o.mode == Mirror && p in dst.entries
    requires o.caseInsensitive ==> forall f :: f in folded <==> exists q :: q in src.entries && o.fold(q) == f
    ensures |delete| <= 1 && |rmdir| <= 1
    ensures forall a :: a in delete <==> IsDelete(src, dst, o, a) && a.relPath == p
    ensures forall a :: a in rmdir <==> IsRmdir(src, dst, o, a) && a.relPath == p
    ensures forall c :: c in conflict <==> c.reason == OtherCase && c.relPath == p && IsConflict(src, dst, o, c)
  {
    delete, rmdir, conflict := [], [], [];
    if p in src.entries || !o.Admits(p, dst.entries[p].isDir) { return; }
    if o.caseInsensitive && o.fold(p) in folded {
      conflict := [Conflict(p, OtherCase)];
    } else if dst.entries[p].isDir {
      rmdir := [Action(RmDir, p, 0, ZERO_TIME, false, false)];
    } else {
      delete := [Action(Delete, p, dst.entries[p].size, ZERO_TIME, false, false)];
    }
  }

  /** The extraneous destination paths, files and directories apart. */
  method Removals(src: ScanResult, dst: ScanResult, o: Options)
    returns (deletes: seq<Action>, rmdirs: seq<Action>, conflicts: seq<Conflict>)
    requires o.mode == Mirror
    ensures forall a :: a in deletes <==> IsDelete(src, dst, o, a)
    ensures forall a :: a in rmdirs <==> IsRmdir(src, dst, o, a)
    ensures Distinct(deletes) && Distinct(rmdirs)
    ensures forall c :: c in conflicts <==> c.reason == OtherCase && IsConflict(src, dst, o, c)
  {
    deletes, rmdirs, conflicts := [], [], [];
    var folded: set<Path> := {};
    if o.caseInsensitive {
      folded := set q | q in src.entries :: o.fold(q);
    }
    var keys := Keys(dst.entries);
    for i := 0 to |keys|
      invariant Removed(src, dst, o, keys[..i], deletes, rmdirs)
      invariant forall c :: c in conflicts <==> c.reason == OtherCase && IsConflict(src, dst, o, c) && c.relPath in keys[..i]
    {
      var p := keys[i];
      assert keys[..i + 1] == keys[..i] + [p];
      assert p in keys;
      var d, r, c := ConsiderExtra(src, dst, o, folded, p);
      ExtendDistinct(deletes, d, p, keys[..i]);
      ExtendDistinct(rmdirs, r, p, keys[..i]);
      deletes, rmdirs, conflicts := deletes + d, rmdirs + r, conflicts + c;
    }
    assert keys[..|keys|] == keys;
  }

  /** The part of the removals that the paths in `done` call for. */
  ghost predicate Removed(src: ScanResult, dst: ScanResult, o: Options, done: seq<Path>,
                          deletes: seq<Action>, rmdirs: seq<Action>)
  {
    && (forall a :: a in deletes <==> IsDelete(src, dst, o, a) && a.relPath in done) && Distinct(deletes)
    && (forall a :: a in rmdirs <==> IsRmdir(src, dst, o, a) && a.relPath in done) && Distinct(rmdirs)
  }

  /** One mkdir for each of these directories that the destination lacks. */
  ghost predicate Extras(extra: seq<Action>, dst: ScanResult, dirs: set<Path>) {
    forall a :: a in extra <==>
      && a == MkdirAction(a.relPath) && a.relPath in dirs
      && !(a.relPath in dst.entries && dst.entries[a.relPath].isDir)
  }

  /** The mkdirs still missing above the copies: every directory on the way to one
      that is neither listed at the destination nor about to be made. */
  method RequiredDirs(copies: seq<Action>, dst: ScanResult, planned: seq<Action>) returns (extra: seq<Action>)
    ensures forall a :: a in extra <==>
      && a == MkdirAction(a.relPath)
      && (exists c :: c in copies && IsAncestor(a.relPath, c.relPath))
      && !(exists m :: m in planned && m.relPath == a.relPath)
      && !(a.relPath in dst.entries && dst.entries[a.relPath].isDir)
    ensures Distinct(extra)
  {
    var have := set m | m in planned :: m.relPath;
    ghost var first := have;
    extra := [];
    for i := 0 to |copies|
      invariant forall d :: d in have <==> d in first || exists c :: c in copies[..i] && IsAncestor(d, c.relPath)
      invariant Extras(extra, dst, have - first)
      invariant Distinct(extra)
    {
      assert copies[..i + 1] == copies[..i] + [copies[i]];
      var above := Ancestors(copies[i].relPath);
      ghost var before := have;
      for j := 0 to |above|
        invariant forall d :: d in have <==> d in before || d in above[..j]
        invariant Extras(extra, dst, have - first)
        invariant Distinct(extra)
        invariant first <= before
      {
        var d := above[j];
        assert above[..j + 1] == above[..j] + [d];
        if d !in have {
          have := have + {d};
          assert forall k :: 0 <= k < |extra| ==> extra[k] in extra;
          if !(d in dst.entries && dst.entries[d].isDir) {
            extra := extra + [MkdirAction(d)];
          }
        }
      }
      assert above[..|above|] == above;
    }
    assert copies[..|copies|] == copies;
  }

  function PathsOf(s: seq<Action>): set<Path> {
    set a | a in s :: a.relPath
  }

  lemma PathsOfSnoc(s: seq<Action>, a: Action)
    ensures PathsOf(s + [a]) == PathsOf(s) + {a.relPath}
  {
  }

  /** A list of distinct actions is as long as the set of their paths. */
  lemma {:induction false} CountPaths(s: seq<Action>)
    requires Distinct(s)
    ensures |PathsOf(s)| == |s|
  {
    if s != [] {
      var n := |s| - 1;
      assert s == s[..n] + [s[n]];
      CountPaths(s[..n]);
      PathsOfSnoc(s[..n], s[n]);
      assert s[n].relPath !in PathsOf(s[..n]) by {
        forall a | a in s[..n] ensures a.relPath != s[n].relPath {
          var k :| 0 <= k < n && s[k] == a;
          assert PathOf(s[k]) != PathOf(s[n]);
        }
      }
    }
  }

  /** Walks the source listing and gathers what each path calls for. */
  method Gather(src: ScanResult, dst: ScanResult, o: Options)
    returns (unblocks: seq<Action>, mkdirs: seq<Action>, copies: seq<Action>, conflicts: seq<Conflict>)
    requires ScanOk(src) && ScanOk(dst)
    ensures forall a :: a in unblocks <==> IsUnblock(src, dst, o, a)
    ensures forall a :: a in mkdirs <==> a == MkdirAction(a.relPath) && WantsMkdir(src, dst, o, a.relPath)
    ensures forall a :: a in copies <==> IsCopy(src, dst, o, a)
    ensures Distinct(unblocks) && Distinct(mkdirs) && Distinct(copies)
    ensures forall c :: c in conflicts <==>
      (FromSource(c.reason) || c.reason == CaseCollision) && IsConflict(src, dst, o, c)
  {
    var skip: set<Path> := {};
    conflicts := [];
    if o.caseInsensitive {
      skip, conflicts := Collisions(src, o);
    }
    FirstReported(src, dst, o, conflicts);
    unblocks, mkdirs, copies := [], [], [];
    var keys := Keys(src.entries);
    for i := 0 to |keys|
      invariant Covers(src, dst, o, keys[..i], unblocks, mkdirs, copies)
      invariant Reported(src, dst, o, keys[..i], conflicts)
    {
      var p := keys[i];
      assert keys[..i + 1] == keys[..i] + [p];
      assert p in keys && p in src.entries;
      var u: seq<Action>, m: seq<Action>, c: seq<Action>, f: seq<Conflict> := [], [], [], [];
      if p !in skip {
        u, m, c, f := Consider(src, dst, o, p);
      }
      CoversMore(src, dst, o, keys[..i], p, unblocks, mkdirs, copies, u, m, c);
      ReportedMore(src, dst, o, keys[..i], p, conflicts, f);
      unblocks, mkdirs, copies, conflicts := unblocks + u, mkdirs + m, copies + c, conflicts + f;
    }
    assert keys[..|keys|] == keys;
  }

  /** The conflicts that come from the source listing, as far as it was read. */
  ghost predicate Reported(src: ScanResult, dst: ScanResult, o: Options, done: seq<Path>, conflicts: seq<Conflict>) {
    forall c :: c in conflicts <==>
      IsConflict(src, dst, o, c) && (c.reason == CaseCollision || (FromSource(c.reason) && c.relPath in done))
  }

  lemma FirstReported(src: ScanResult, dst: ScanResult, o: Options, conflicts: seq<Conflict>)
    requires o.caseInsensitive ==>
      forall c :: c in conflicts <==> c.reason == CaseCollision && IsConflict(src, Empty(), o, c)
    requires !o.caseInsensitive ==> conflicts == []
    ensures Reported(src, dst, o, [], conflicts)
  {
    assert forall c: Conflict :: c.reason == CaseCollision ==>
        (IsConflict(src, dst, o, c) <==> IsConflict(src, Empty(), o, c));
  }

  lemma ReportedMore(src: ScanResult, dst: ScanResult, o: Options, done: seq<Path>, p: Path,
                     conflicts: seq<Conflict>, f: seq<Conflict>)
    requires Reported(src, dst, o, done, conflicts)
    requires forall c :: c in f <==> FromSource(c.reason) && c.relPath == p && IsConflict(src, dst, o, c)
    ensures Reported(src, dst, o, done + [p], conflicts + f)
  {
  }

  lemma CoversMore(src: ScanResult, dst: ScanResult, o: Options, done: seq<Path>, p: Path,
                   unblocks: seq<Action>, mkdirs: seq<Action>, copies: seq<Action>,
                   u: seq<Action>, m: seq<Action>, c: seq<Action>)
    requires Covers(src, dst, o, done, unblocks, mkdirs, copies) && p !in done
    requires |u| <= 1 && |m| <= 1 && |c| <= 1
    requires forall a :: a in u <==> IsUnblock(src, dst, o, a) && a.relPath == p
    requires forall a :: a in m <==> a == MkdirAction(p) && WantsMkdir(src, dst, o, p)
    requires forall a :: a in c <==> IsCopy(src, dst, o, a) && a.relPath == p
    ensures Covers(src, dst, o, done + [p], unblocks + u, mkdirs + m, copies + c)
  {
    ExtendDistinct(unblocks, u, p, done);
    ExtendDistinct(mkdirs, m, p, done);
    ExtendDistinct(copies, c, p, done);
  }

  lemma ExtendDistinct(s: seq<Action>, t: seq<Action>, p: Path, done: seq<Path>)
    requires Distinct(s) && |t| <= 1 && p !in done
    requires forall a :: a in s ==> a.relPath in done
    requires forall a :: a in t ==> a.relPath == p
    ensures Distinct(s + t)
  {
    forall i | 0 <= i < |s| ensures PathOf(s[i]) != p {
      assert s[i] in s;
    }
    if |t| == 1 { assert t[0] in t; }
  }

  /** The removals, if any, and how many of them the guard withholds. */
  method GuardedRemovals(src: ScanResult, dst: ScanResult, o: Options)
    returns (deletes: seq<Action>, rmdirs: seq<Action>, conflicts: seq<Conflict>, heldFiles: nat, heldDirs: nat)
    ensures forall a :: a in deletes <==> IsDelete(src, dst, o, a) && !Guarded(src, dst, o)
    ensures forall a :: a in rmdirs <==> IsRmdir(src, dst, o, a) && !Guarded(src, dst, o)
    ensures Distinct(deletes) && Distinct(rmdirs)
    ensures forall c :: c in conflicts <==> c.reason == OtherCase && IsConflict(src, dst, o, c)
    ensures heldFiles == if Guarded(src, dst, o) then |ExtraFiles(src, dst, o)| else 0
    ensures heldDirs == if Guarded(src, dst, o) then |ExtraDirs(src, dst, o)| else 0
  {
    deletes, rmdirs, conflicts, heldFiles, heldDirs := [], [], [], 0, 0;
    if o.mode == Mirror {
      deletes, rmdirs, conflicts := Removals(src, dst, o);
      CountExtras(src, dst, o, deletes, rmdirs);
      if Guarded(src, dst, o) {
        heldFiles, heldDirs := |deletes|, |rmdirs|;
        deletes, rmdirs := [], [];
      }
    } else {
      assert ExtraFiles(src, dst, o) == {} && ExtraDirs(src, dst, o) == {};
    }
  }

  /** The whole differ. */
  method Diff(src: ScanResult, dst: ScanResult, o: Options) returns (plan: Plan, st: Stages)
    requires ScanOk(src) && ScanOk(dst)
    ensures IsPlan(src, dst, o, st, plan)
  {
    var unblocks, mkdirs, copies, conflicts := Gather(src, dst, o);
    var deletes, rmdirs, more, heldFiles, heldDirs := GuardedRemovals(src, dst, o);
    var extra := RequiredDirs(copies, dst, mkdirs);
    MkdirsMeaning(src, dst, o, copies, mkdirs, extra);
    st := Arrange(src, dst, o, unblocks, mkdirs + extra, copies, deletes, rmdirs);
    var bytes, overwrites := Totals(st.copies);
    plan := Plan(st.All(), |st.mkdirs|, |st.copies|, |st.deletes|, |st.rmdirs|, bytes, |st.unblocks|, overwrites,
                 conflicts + more, heldFiles + heldDirs > 0, heldFiles, heldDirs);
  }

  /** Puts each stage in its order. */
  method Arrange(src: ScanResult, dst: ScanResult, o: Options, unblocks: seq<Action>, mkdirs: seq<Action>,
                 copies: seq<Action>, deletes: seq<Action>, rmdirs: seq<Action>) returns (st: Stages)
    requires Distinct(unblocks) && Distinct(mkdirs) && Distinct(copies) && Distinct(deletes) && Distinct(rmdirs)
    requires forall a :: a in unblocks <==> IsUnblock(src, dst, o, a)
    requires forall a :: a in mkdirs <==> IsMkdir(src, dst, o, a)
    requires forall a :: a in copies <==> IsCopy(src, dst, o, a)
    requires forall a :: a in deletes <==> IsDelete(src, dst, o, a) && !Guarded(src, dst, o)
    requires forall a :: a in rmdirs <==> IsRmdir(src, dst, o, a) && !Guarded(src, dst, o)
    ensures IsStages(src, dst, o, st)
  {
    var m := Sort(ShallowFirst, PathOf, mkdirs);
    var u := Sort(DeepFirst, PathOf, unblocks);
    var d := Sort(DeepFirst, PathOf, deletes);
    var r := Sort(DeepFirst, PathOf, rmdirs);
    var c := Sort(Lexical, PathOf, copies);
    st := Stages(u, m, c, d, r);
  }

  method Totals(copies: seq<Action>) returns (bytes: int, overwrites: nat)
    ensures bytes == SumSizes(copies) && overwrites == CountOverwrites(copies)
  {
    bytes, overwrites := 0, 0;
    for i := 0 to |copies|
      invariant bytes == SumSizes(copies[..i]) && overwrites == CountOverwrites(copies[..i])
    {
      assert copies[..i + 1][..i] == copies[..i];
      bytes := bytes + copies[i].size;
      if copies[i].overwrite { overwrites := overwrites + 1; }
    }
    assert copies[..|copies|] == copies;
  }

  lemma CountExtras(src: ScanResult, dst: ScanResult, o: Options, deletes: seq<Action>, rmdirs: seq<Action>)
    requires forall a :: a in deletes <==> IsDelete(src, dst, o, a)
    requires forall a :: a in rmdirs <==> IsRmdir(src, dst, o, a)
    requires Distinct(deletes) && Distinct(rmdirs)
    ensures |deletes| == |ExtraFiles(src, dst, o)| && |rmdirs| == |ExtraDirs(src, dst, o)|
  {
    forall p | p in ExtraFiles(src, dst, o) ensures p in PathsOf(deletes) {
      assert IsDelete(src, dst, o, Action(Delete, p, dst.entries[p].size, ZERO_TIME, false, false));
    }
    assert ExtraFiles(src, dst, o) == PathsOf(deletes);
    CountPaths(deletes);
    forall p | p in ExtraDirs(src, dst, o) ensures p in PathsOf(rmdirs) {
      assert IsRmdir(src, dst, o, Action(RmDir, p, 0, ZERO_TIME, false, false));
    }
    assert ExtraDirs(src, dst, o) == PathsOf(rmdirs);
    CountPaths(rmdirs);
  }

  /** Two scans call for one plan only, however they were gone through. */
  lemma StagesAreUnique(src: ScanResult, dst: ScanResult, o: Options, st: Stages, other: Stages)
    requires IsStages(src, dst, o, st) && IsStages(src, dst, o, other)
    ensures st == other
  {
    StrictUnique(DeepFirst, PathOf, st.unblocks, other.unblocks);
    StrictUnique(ShallowFirst, PathOf, st.mkdirs, other.mkdirs);
    StrictUnique(Lexical, PathOf, st.copies, other.copies);
    StrictUnique(DeepFirst, PathOf, st.deletes, other.deletes);
    StrictUnique(DeepFirst, PathOf, st.rmdirs, other.rmdirs);
  }

  /** Nothing extraneous goes unmentioned: every removal is planned or withheld,
      so what the guard withholds is what it would have planned. */
  lemma RemovalsAddUp(src: ScanResult, dst: ScanResult, o: Options, st: Stages, plan: Plan)
    requires IsPlan(src, dst, o, st, plan)
    ensures plan.deletes + plan.withheldDeletes == |ExtraFiles(src, dst, o)|
    ensures plan.rmDirs + plan.withheldRmDirs == |ExtraDirs(src, dst, o)|
  {
    if Guarded(src, dst, o) {
      HeadIn(st.deletes);
      HeadIn(st.rmdirs);
    } else {
      StrictIsDistinct(DeepFirst, st.deletes);
      StrictIsDistinct(DeepFirst, st.rmdirs);
      CountExtras(src, dst, o, st.deletes, st.rmdirs);
    }
  }

  lemma StrictIsDistinct(order: Order, s: seq<Action>)
    requires Strict(order, PathOf, s)
    ensures Distinct(s)
  {
  }

  /** No source path is passed over in silence: it is acted on, already in
      place, out of scope, or named in a conflict. */
  lemma NothingIsSilent(src: ScanResult, dst: ScanResult, o: Options, st: Stages, plan: Plan, p: Path)
    requires IsPlan(src, dst, o, st, plan) && ScanOk(src) && ScanOk(dst) && InScope(src, o, p)
    ensures
      || (exists a :: a in plan.actions && a.relPath == p && (a.kind == MkDir || a.kind == Copy))
      || (exists c :: c in plan.conflicts && c.relPath == p)
      || (p in dst.entries && !dst.entries[p].isSymlink && src.entries[p].isDir && dst.entries[p].isDir)
      || (p in dst.entries && !dst.entries[p].isSymlink && SameFile(src.entries[p], dst.entries[p], o))
  {
    var s := src.entries[p];
    if s.isSymlink {
      assert IsConflict(src, dst, o, Conflict(p, SourceLink));
    } else if WantsMkdir(src, dst, o, p) {
      assert IsMkdir(src, dst, o, MkdirAction(p)) && MkdirAction(p) in st.mkdirs;
      assert MkdirAction(p) in plan.actions;
    } else if WantsCopy(src, dst, o, p) {
      var a := Action(Copy, p, s.size, s.modTime, false, p in dst.entries && !Clash(src, dst, p));
      assert IsCopy(src, dst, o, a) && a in st.copies;
      assert a in plan.actions;
    } else if o.mode == Update {
      if dst.entries[p].isSymlink { assert IsConflict(src, dst, o, Conflict(p, DestLink)); }
      else if s.isDir && !dst.entries[p].isDir { assert IsConflict(src, dst, o, Conflict(p, FileForDir)); }
      else if !s.isDir && dst.entries[p].isDir { assert IsConflict(src, dst, o, Conflict(p, DirForFile)); }
      else if !s.isDir && !SameFile(s, dst.entries[p], o) { assert IsConflict(src, dst, o, Conflict(p, NotOlder)); }
    }
  }

  lemma MkdirsMeaning(src: ScanResult, dst: ScanResult, o: Options,
                      copies: seq<Action>, mkdirs: seq<Action>, extra: seq<Action>)
    requires forall a :: a in copies <==> IsCopy(src, dst, o, a)
    requires forall a :: a in mkdirs <==> a == MkdirAction(a.relPath) && WantsMkdir(src, dst, o, a.relPath)
    requires forall a :: a in extra <==>
      && a == MkdirAction(a.relPath)
      && (exists c :: c in copies && IsAncestor(a.relPath, c.relPath))
      && !(exists m :: m in mkdirs && m.relPath == a.relPath)
      && !(a.relPath in dst.entries && dst.entries[a.relPath].isDir)
    requires Distinct(mkdirs) && Distinct(extra)
    ensures Distinct(mkdirs + extra)
    ensures forall a :: a in mkdirs + extra <==> IsMkdir(src, dst, o, a)
  {
    forall i, j | 0 <= i < |mkdirs| && 0 <= j < |extra| ensures PathOf(mkdirs[i]) != PathOf(extra[j]) {
      assert extra[j] in extra && mkdirs[i] in mkdirs;
    }
    forall p, c | WantsCopy(src, dst, o, c) && IsAncestor(p, c)
      ensures exists a :: a in copies && IsAncestor(p, a.relPath)
    {
      var s := src.entries[c];
      assert IsCopy(src, dst, o, Action(Copy, c, s.size, s.modTime, false, c in dst.entries && !Clash(src, dst, c)));
    }
    forall a ensures a in mkdirs + extra <==> IsMkdir(src, dst, o, a) {
      if a in mkdirs + extra || IsMkdir(src, dst, o, a) {
        assert (exists m :: m in mkdirs && m.relPath == a.relPath) <==> MkdirAction(a.relPath) in mkdirs;
      }
    }
  }
}
