/** What the actions of a plan can do to a destination tree, at any time, in any
    order and any number of times, and what they can never do. */
module Effects {
  import opened Paths
  import opened Scans
  import opened Differ

  // ---- the file system ----------------------------------------------------

  ghost predicate HasBeneath(t: Tree, p: Path) {
    exists q :: q in t && IsAncestor(p, q)
  }

  /** Removing a path works unless it is a directory with something in it. */
  ghost predicate Removable(t: Tree, p: Path) {
    p in t && (t[p].Dir? ==> !HasBeneath(t, p))
  }

  /** A file or a link stands at the path or above it, or the path is not relative. */
  ghost predicate Obstructed(t: Tree, p: Path) {
    IsAncestor("", p) || (p in t && !t[p].Dir?) || exists a :: IsAncestor(a, p) && a in t && !t[a].Dir?
  }

  /** Makes a directory and every missing directory above it. */
  ghost function MakeAll(t: Tree, p: Path): Tree {
    t + map q | q in AncestorSet(p) + {p} - {""} && q !in t :: Dir
  }

  /** A file can be renamed to this path: the directory is there, and no
      directory stands at the path itself. */
  ghost predicate Publishable(t: Tree, p: Path) {
    && p != "" && !(p in t && t[p].Dir?)
    && forall a :: IsAncestor(a, p) ==> a in t && t[a].Dir?
  }

  lemma RemoveKeepsTree(t: Tree, p: Path)
    requires TreeOk(t) && Removable(t, p)
    ensures TreeOk(t - {p})
  {
  }

  lemma MakeKeepsTree(t: Tree, p: Path)
    requires TreeOk(t) && !Obstructed(t, p)
    ensures TreeOk(MakeAll(t, p))
  {
    var u := MakeAll(t, p);
    forall a, q | q in u && IsAncestor(a, q) ensures a in u && u[a].Dir? {
      if q !in t {
        if q != p { AncestorTransitive(a, q, p); }
        assert IsAncestor(a, p) && a != "";
      }
    }
  }

  lemma PublishKeepsTree(t: Tree, p: Path, n: Node)
    requires TreeOk(t) && Publishable(t, p) && n.File?
    ensures TreeOk(t[p := n])
  {
    forall a, q | q in t[p := n] && IsAncestor(a, q) ensures a in t && t[a].Dir? && a != p {
    }
  }

  // ---- effects ------------------------------------------------------------

  /** One action may have this effect: none, its whole effect, or for a mkdir
      that stopped half way, some of the directories above. */
  ghost predicate CanBecome(t: Tree, a: Action, u: Tree) {
    || u == t
    || match a.kind
       case Delete => Removable(t, a.relPath) && u == t - {a.relPath}
       case RmDir => Removable(t, a.relPath) && u == t - {a.relPath}
       case MkDir => exists q :: (q == a.relPath || IsAncestor(q, a.relPath)) && Makes(t, q, u)
       case Copy => exists data, mtime :: Publishes(t, a.relPath, data, mtime, u)
  }

  ghost predicate Makes(t: Tree, q: Path, u: Tree) {
    !Obstructed(t, q) && u == MakeAll(t, q)
  }

  ghost predicate Publishes(t: Tree, p: Path, data: seq<bv8>, mtime: int, u: Tree) {
    Publishable(t, p) && u == t[p := File(data, mtime)]
  }

  /** A history of a tree that only these actions worked on: complete runs,
      partial and failed ones, runs cancelled anywhere, and operations that
      take effect long after they were given up on. */
  ghost predicate Churn(actions: seq<Action>, trace: seq<Tree>) {
    forall i :: 0 <= i < |trace| - 1 ==> Works(actions, trace[i], trace[i + 1])
  }

  ghost predicate Works(actions: seq<Action>, t: Tree, u: Tree) {
    u == t || exists a :: a in actions && CanBecome(t, a, u)
  }

  lemma EffectKeepsTree(t: Tree, a: Action, u: Tree)
    requires TreeOk(t) && CanBecome(t, a, u)
    ensures TreeOk(u)
  {
    if u != t {
      match a.kind
      case Delete => RemoveKeepsTree(t, a.relPath);
      case RmDir => RemoveKeepsTree(t, a.relPath);
      case MkDir =>
        var q :| (q == a.relPath || IsAncestor(q, a.relPath)) && Makes(t, q, u);
        MakeKeepsTree(t, q);
      case Copy =>
        var data, mtime :| Publishes(t, a.relPath, data, mtime, u);
        PublishKeepsTree(t, a.relPath, File(data, mtime));
    }
  }

  /** What stands at a path changes only by an action at that very path, and
      never by making a directory. */
  lemma OnlyItsOwnPath(t: Tree, a: Action, u: Tree, p: Path)
    requires TreeOk(t) && CanBecome(t, a, u) && p in t
    ensures (p in u && u[p] == t[p]) || (a.relPath == p && a.kind != MkDir)
    ensures a.relPath == p && a.kind == Copy && t[p].Dir? ==> p in u && u[p] == t[p]
  {
  }

  /** The listing tells the truth about the tree, as far as it goes. */
  ghost predicate Reflects(r: ScanResult, t: Tree) {
    forall p :: p in r.entries ==> p in t && r.entries[p] == EntryOf(p, t[p])
  }

  // ---- excluded entries ---------------------------------------------------

  /** No action of the plan can touch an excluded entry unless the plan clears
      it out of the way of something of another kind. */
  lemma NoActionOnExcluded(src: ScanResult, dst: ScanResult, o: Options, st: Stages, d: Tree, e: Path, a: Action)
    requires IsStages(src, dst, o, st) && Reflects(dst, d)
    requires e in d && !o.Admits(e, d[e].Dir?) && !WantsUnblock(src, dst, o, e)
    requires a in st.All() && a.relPath == e && a.kind != MkDir
    ensures a.kind == Copy && d[e].Dir?
  {
    ActionMeaning(src, dst, o, st, a);
  }

  /** An entry the filter excludes outlives every history of the plan, with its
      contents, even beneath directories the plan tries to remove. */
  lemma {:induction false} ExcludedSurvives(src: ScanResult, dst: ScanResult, o: Options, st: Stages,
                                            trace: seq<Tree>, e: Path)
    requires IsStages(src, dst, o, st)
    requires trace != [] && TreeOk(trace[0]) && Reflects(dst, trace[0]) && Churn(st.All(), trace)
    requires e in trace[0] && !o.Admits(e, trace[0][e].Dir?) && !WantsUnblock(src, dst, o, e)
    ensures var last := trace[|trace| - 1]; TreeOk(last) && e in last && last[e] == trace[0][e]
    decreases |trace|
  {
    if |trace| > 1 {
      var n := |trace| - 1;
      var before := trace[..n];
      forall i | 0 <= i < |before| - 1 ensures Works(st.All(), before[i], before[i + 1]) {
        assert Works(st.All(), trace[i], trace[i + 1]);
      }
      ExcludedSurvives(src, dst, o, st, before, e);
      assert Works(st.All(), trace[n - 1], trace[n]);
      if trace[n] != trace[n - 1] {
        var a :| a in st.All() && CanBecome(trace[n - 1], a, trace[n]);
        EffectKeepsTree(trace[n - 1], a, trace[n]);
        OnlyItsOwnPath(trace[n - 1], a, trace[n], e);
        if a.relPath == e && a.kind != MkDir {
          NoActionOnExcluded(src, dst, o, st, trace[0], e, a);
        }
      }
    }
  }

  /** The exception needs another kind at the source: an entry of the same kind
      on both sides, or absent from the source, is never cleared. */
  lemma SameKindIsNotCleared(src: ScanResult, dst: ScanResult, o: Options, d: Tree, e: Path)
    requires Reflects(dst, d) && e in d
    requires e in src.entries ==>
      src.entries[e].isDir == d[e].Dir? && src.entries[e].isSymlink == d[e].Link?
    ensures !WantsUnblock(src, dst, o, e)
  {
  }

  /** And the exception is real: whatever the plan clears, it can lose. */
  lemma ClearedCanBeLost(src: ScanResult, dst: ScanResult, o: Options, st: Stages, d: Tree, e: Path)
    returns (trace: seq<Tree>)
    requires IsStages(src, dst, o, st) && WantsUnblock(src, dst, o, e) && Removable(d, e)
    ensures |trace| == 2 && trace[0] == d && Churn(st.All(), trace) && e !in trace[1]
  {
    var x := dst.entries[e];
    var a := Action(if x.isDir && !x.isSymlink then RmDir else Delete, e,
                    if x.isDir || x.isSymlink then 0 else x.size, ZERO_TIME, true, false);
    assert IsUnblock(src, dst, o, a);
    assert a in st.unblocks && a in st.All();
    trace := [d, d - {e}];
    assert CanBecome(d, a, d - {e});
    assert Works(st.All(), trace[0], trace[1]);
  }

  // ---- update mode --------------------------------------------------------

  /** A walk hides only what the filter keeps out of scope. */
  ghost predicate PruneSound(prune: Path -> bool, o: Options) {
    && (forall d :: prune(d) ==> !o.Admits(d, true))
    && (forall d, p, k :: prune(d) && IsAncestor(d, p) ==> !o.Admits(p, k))
  }

  /** A complete walk lists what is in scope, short of a directory it prunes. */
  lemma AdmittedIsListed(t: Tree, prune: Path -> bool, o: Options, p: Path, k: bool)
    requires TreeOk(t) && PruneSound(prune, o) && p in t && o.Admits(p, k) && (t[p].Dir? ==> !prune(p))
    ensures Listed(t, NO_FAULTS, prune, p)
  {
  }

  /** Everything that was there is still there and of its kind, and a file is
      different only where the source was newer beyond the tolerance. */
  ghost predicate Kept(src: ScanResult, o: Options, d: Tree, t: Tree) {
    forall p :: p in d ==>
      && p in t && t[p].File? == d[p].File? && t[p].Dir? == d[p].Dir?
      && (t[p] != d[p] ==> p in src.entries && d[p].File? && src.entries[p].modTime > d[p].mtime + o.tolerance)
  }

  /** A path the destination has, and that the plan copies in update mode, is an
      older file, or a hidden directory that no rename can replace. */
  lemma UpdateCopiesNewer(src: ScanResult, dst: ScanResult, o: Options, d: Tree, prune: Path -> bool, p: Path)
    requires o.mode == Update && IsScan(d, NO_FAULTS, prune, dst) && PruneSound(prune, o)
    requires TreeOk(d) && p in d && WantsCopy(src, dst, o, p)
    ensures d[p].Dir? || (d[p].File? && src.entries[p].modTime > d[p].mtime + o.tolerance)
  {
    if !d[p].Dir? {
      AdmittedIsListed(d, prune, o, p, src.entries[p].isDir);
    }
  }

  /** Update mode never destroys, in any history of its plan. */
  lemma {:induction false} UpdateNeverDestroys(src: ScanResult, dst: ScanResult, o: Options, st: Stages,
                                               prune: Path -> bool, trace: seq<Tree>)
    requires o.mode == Update && IsStages(src, dst, o, st)
    requires trace != [] && TreeOk(trace[0]) && Churn(st.All(), trace)
    requires IsScan(trace[0], NO_FAULTS, prune, dst) && PruneSound(prune, o)
    ensures TreeOk(trace[|trace| - 1]) && Kept(src, o, trace[0], trace[|trace| - 1])
    decreases |trace|
  {
    if |trace| > 1 {
      var n := |trace| - 1;
      var d, before := trace[0], trace[..n];
      forall i | 0 <= i < |before| - 1 ensures Works(st.All(), before[i], before[i + 1]) {
        assert Works(st.All(), trace[i], trace[i + 1]);
      }
      UpdateNeverDestroys(src, dst, o, st, prune, before);
      assert Works(st.All(), trace[n - 1], trace[n]);
      if trace[n] != trace[n - 1] {
        var a :| a in st.All() && CanBecome(trace[n - 1], a, trace[n]);
        UpdateStep(src, dst, o, st, prune, d, trace[n - 1], a, trace[n]);
      }
    }
  }

  lemma UpdateStep(src: ScanResult, dst: ScanResult, o: Options, st: Stages, prune: Path -> bool,
                   d: Tree, t: Tree, a: Action, u: Tree)
    requires o.mode == Update && IsStages(src, dst, o, st) && a in st.All() && CanBecome(t, a, u)
    requires TreeOk(d) && IsScan(d, NO_FAULTS, prune, dst) && PruneSound(prune, o)
    requires TreeOk(t) && Kept(src, o, d, t)
    ensures TreeOk(u) && Kept(src, o, d, u)
  {
    EffectKeepsTree(t, a, u);
    UpdateActions(src, dst, o, st, a);
    forall p | p in d ensures
      && p in u && u[p].File? == d[p].File? && u[p].Dir? == d[p].Dir?
      && (u[p] != d[p] ==> p in src.entries && d[p].File? && src.entries[p].modTime > d[p].mtime + o.tolerance)
    {
      OnlyItsOwnPath(t, a, u, p);
      if a.relPath == p && a.kind == Copy {
        UpdateCopiesNewer(src, dst, o, d, prune, p);
      }
    }
  }

  /** In update mode a plan only makes directories and copies files. */
  lemma UpdateActions(src: ScanResult, dst: ScanResult, o: Options, st: Stages, a: Action)
    requires o.mode == Update && IsStages(src, dst, o, st) && a in st.All()
    ensures (a.kind == MkDir && a in st.mkdirs) || (a.kind == Copy && WantsCopy(src, dst, o, a.relPath))
  {
    ActionMeaning(src, dst, o, st, a);
  }
}
