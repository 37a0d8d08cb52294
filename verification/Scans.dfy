/** Directory trees, what a scan of one records, and the walk that records it. */
module Scans {
  import opened Paths

  datatype Node = File(data: seq<bv8>, mtime: int) | Dir | Link

  /** What stands at each relative path. The root has no path of its own. */
  type Tree = map<Path, Node>

  /** Everything above a path in the tree is a directory in the tree. */
  ghost predicate TreeOk(t: Tree) {
    && "" !in t
    && forall a, p :: p in t && IsAncestor(a, p) ==> a in t && t[a].Dir?
  }

  /** Go's zero time. Times are nanoseconds from it. */
  const ZERO_TIME: int := 0

  datatype Entry = Entry(relPath: Path, size: int, modTime: int, isDir: bool, isSymlink: bool)

  datatype ScanResult = ScanResult(
    entries: map<Path, Entry>, errors: set<Path>, vanished: set<Path>, pruned: set<Path>)
  {
    /** The listing has holes in it. */
    predicate Incomplete() { errors != {} }
  }

  function EntryOf(p: Path, n: Node): Entry {
    match n
    case File(data, mtime) => Entry(p, |data|, mtime, false, false)
    case Dir => Entry(p, 0, ZERO_TIME, true, false)
    case Link => Entry(p, 0, ZERO_TIME, false, true)
  }

  /** A scan is keyed by path, and above everything it lists it lists a directory. */
  ghost predicate ScanOk(r: ScanResult) {
    && (forall p :: p in r.entries ==> r.entries[p].relPath == p)
    && (forall p :: p in r.entries ==> !(r.entries[p].isDir && r.entries[p].isSymlink))
    && (forall a, p :: p in r.entries && IsAncestor(a, p) ==> a in r.entries && r.entries[a].isDir)
  }

  /** What went wrong during one walk. "" stands for the root. */
  datatype Faults = Faults(unreadable: set<Path>, vanished: set<Path>, unstatable: set<Path>)

  const NO_FAULTS := Faults({}, {}, {})

  /** The walk lists the contents of this directory. */
  ghost predicate Entered(t: Tree, f: Faults, prune: Path -> bool, d: Path) {
    d !in f.unreadable && (d == "" || (d in t && t[d].Dir? && !prune(d)))
  }

  /** The walk comes across this path. */
  ghost predicate Reached(t: Tree, f: Faults, prune: Path -> bool, p: Path) {
    p in t && Entered(t, f, prune, "") && forall a :: IsAncestor(a, p) ==> Entered(t, f, prune, a)
  }

  /** The walk records an entry for this path. */
  ghost predicate Listed(t: Tree, f: Faults, prune: Path -> bool, p: Path) {
    && Reached(t, f, prune, p)
    && (t[p].Dir? ==> !prune(p))
    && (t[p].File? ==> p !in f.vanished && p !in f.unstatable)
  }

  /** The listing, path by path. */
  ghost predicate IsScan(t: Tree, f: Faults, prune: Path -> bool, r: ScanResult) {
    && (forall p :: p in r.entries <==> Listed(t, f, prune, p))
    && (forall p :: p in r.entries ==> r.entries[p] == EntryOf(p, t[p]))
    && (forall p :: p in r.pruned <==> Reached(t, f, prune, p) && t[p].Dir? && prune(p))
    && (forall p :: p in r.vanished <==> Reached(t, f, prune, p) && t[p].File? && p in f.vanished)
    && (forall p :: p in r.errors <==>
          || (Reached(t, f, prune, p) && t[p].File? && p in f.unstatable && p !in f.vanished)
          || (p in f.unreadable && (p == "" || (Reached(t, f, prune, p) && t[p].Dir? && !prune(p)))))
  }

  /** The directory a path is listed by; "" for the root. */
  function Parent(p: Path): (d: Path)
    ensures d == "" || IsAncestor(d, p)
    ensures forall a :: IsAncestor(a, p) ==> a == d || IsAncestor(a, d)
    ensures |d| < |p| || p == ""
  {
    ParentBefore(p, |p|)
  }

  function ParentBefore(p: Path, n: nat): (d: Path)
    requires n <= |p|
    ensures d == "" || (IsAncestor(d, p) && |d| < n)
    ensures forall a :: IsAncestor(a, p) && |a| < n ==> a == d || IsAncestor(a, d)
  {
    if n == 0 then ""
    else if p[n - 1] == '/' then
      var d := p[..n - 1];
      assert forall a :: IsAncestor(a, p) && |a| < n - 1 ==> d[..|a|] == p[..|a|];
      d
    else ParentBefore(p, n - 1)
  }

  lemma ScanIsOk(t: Tree, f: Faults, prune: Path -> bool, r: ScanResult)
    requires TreeOk(t) && IsScan(t, f, prune, r)
    ensures ScanOk(r)
  {
    forall a, p | p in r.entries && IsAncestor(a, p) ensures a in r.entries && r.entries[a].isDir {
      assert Entered(t, f, prune, a);
      forall b | IsAncestor(b, a) ensures Entered(t, f, prune, b) {
        AncestorTransitive(b, a, p);
      }
    }
  }

  lemma ReachedViaParent(t: Tree, f: Faults, prune: Path -> bool, p: Path)
    requires TreeOk(t) && p in t
    ensures Reached(t, f, prune, p) <==>
      Entered(t, f, prune, Parent(p)) && (Parent(p) == "" || Reached(t, f, prune, Parent(p)))
  {
    var d := Parent(p);
    assert p != "";
    if d != "" {
      assert IsAncestor(d, p);
      if Reached(t, f, prune, p) {
        forall b | IsAncestor(b, d) ensures Entered(t, f, prune, b) {
          AncestorTransitive(b, d, p);
        }
      }
    } else {
      forall a | IsAncestor(a, p) ensures a == "" {
      }
    }
  }

  function Children(t: Tree, d: Path): set<Path> {
    set p | p in t && Parent(p) == d
  }

  /** An unpruned directory is read in its turn. */
  predicate Descends(t: Tree, prune: Path -> bool, p: Path) {
    p in t && t[p].Dir? && !prune(p)
  }

  predicate Stats(f: Faults, p: Path) {
    p !in f.vanished && p !in f.unstatable
  }

  /** What the walk has recorded once it came across exactly the paths in `ps`
      and failed to read exactly the directories in `bad`. */
  ghost function Recorded(t: Tree, f: Faults, prune: Path -> bool, ps: set<Path>, bad: set<Path>): ScanResult
    requires ps <= t.Keys
  {
    ScanResult(
      map p | p in ps && (t[p].Dir? ==> !prune(p)) && (t[p].File? ==> Stats(f, p)) :: EntryOf(p, t[p]),
      bad + set p | p in ps && t[p].File? && p in f.unstatable && p !in f.vanished,
      set p | p in ps && t[p].File? && p in f.vanished,
      set p | p in ps && t[p].Dir? && prune(p))
  }

  /** Records one path the walk came across. */
  method Visit(t: Tree, f: Faults, prune: Path -> bool, p: Path, r0: ScanResult,
               ghost ps: set<Path>, ghost bad: set<Path>)
    returns (r: ScanResult, descend: bool)
    requires p in t && ps <= t.Keys && r0 == Recorded(t, f, prune, ps, bad)
    ensures r == Recorded(t, f, prune, ps + {p}, bad)
    ensures descend <==> Descends(t, prune, p)
  {
    r, descend := r0, false;
    match t[p] {
      case Link =>
        r := r.(entries := r.entries[p := EntryOf(p, Link)]);
      case Dir =>
        if prune(p) {
          r := r.(pruned := r.pruned + {p});
        } else {
          r := r.(entries := r.entries[p := EntryOf(p, Dir)]);
          descend := true;
        }
      case File(data, mtime) =>
        if p in f.vanished {
          r := r.(vanished := r.vanished + {p});
        } else if p in f.unstatable {
          r := r.(errors := r.errors + {p});
        } else {
          r := r.(entries := r.entries[p := EntryOf(p, File(data, mtime))]);
        }
    }
  }

  /** Records the entries of one directory that was read, in any order. */
  method ReadDir(t: Tree, f: Faults, prune: Path -> bool, d: Path, r0: ScanResult,
                 ghost ps: set<Path>, ghost bad: set<Path>)
    returns (r: ScanResult, found: set<Path>)
    requires ps <= t.Keys && r0 == Recorded(t, f, prune, ps, bad)
    ensures r == Recorded(t, f, prune, ps + Children(t, d), bad)
    ensures found == set p | p in Children(t, d) && Descends(t, prune, p)
  {
    r, found := r0, {};
    var left := Children(t, d);
    ghost var seen := ps;
    while left != {}
      invariant left <= Children(t, d)
      invariant seen == ps + (Children(t, d) - left)
      invariant found == set p | p in Children(t, d) - left && Descends(t, prune, p)
      invariant r == Recorded(t, f, prune, seen, bad)
    {
      var p :| p in left;
      var descend;
      r, descend := Visit(t, f, prune, p, r, seen, bad);
      left, seen := left - {p}, seen + {p};
      if descend { found := found + {p}; }
    }
    assert seen == ps + Children(t, d);
  }

  /** How far the walk is: `seen` are the paths come across, `read` and `bad`
      the directories read and not readable, `pending` those still to read. */
  ghost predicate Progress(t: Tree, f: Faults, prune: Path -> bool, pending: set<Path>,
                           seen: set<Path>, read: set<Path>, bad: set<Path>)
  {
    && (forall p :: p in seen <==> p in t && Parent(p) in read)
    && (forall p :: p in read ==> p !in f.unreadable)
    && (forall p :: p in bad ==> p in f.unreadable)
    && (forall p :: p in pending ==> p !in read && p !in bad)
    && (forall p :: p in pending || p in read || p in bad <==> p == "" || (p in seen && Descends(t, prune, p)))
  }

  /** Walks the tree with a pool of readers: directories wait in `pending` and
      are taken in any order. */
  method Scan(t: Tree, f: Faults, prune: Path -> bool) returns (r: ScanResult)
    requires TreeOk(t)
    ensures IsScan(t, f, prune, r)
    ensures ScanOk(r)
  {
    r := ScanResult(map[], {}, {}, {});
    var pending: set<Path> := {""};
    ghost var seen: set<Path>, read: set<Path>, bad: set<Path> := {}, {}, {};
    assert Progress(t, f, prune, pending, seen, read, bad);
    while pending != {}
      invariant Progress(t, f, prune, pending, seen, read, bad)
      invariant r == Recorded(t, f, prune, seen, bad)
      decreases t.Keys + {""} - read - bad
    {
      var d :| d in pending;
      ProgressStep(t, f, prune, pending, seen, read, bad, d);
      if d in f.unreadable {
        r, bad := r.(errors := r.errors + {d}), bad + {d};
        pending := pending - {d};
      } else {
        var found;
        r, found := ReadDir(t, f, prune, d, r, seen, bad);
        seen, read := seen + Children(t, d), read + {d};
        pending := pending - {d} + found;
      }
    }
    WalkIsScan(t, f, prune, seen, read, bad);
  }

  lemma ProgressStep(t: Tree, f: Faults, prune: Path -> bool, pending: set<Path>,
                     seen: set<Path>, read: set<Path>, bad: set<Path>, d: Path)
    requires TreeOk(t) && Progress(t, f, prune, pending, seen, read, bad) && d in pending
    ensures d in t.Keys + {""} - read - bad
    ensures d in f.unreadable ==> Progress(t, f, prune, pending - {d}, seen, read, bad + {d})
    ensures d !in f.unreadable ==>
      var found := set p | p in Children(t, d) && Descends(t, prune, p);
      Progress(t, f, prune, pending - {d} + found, seen + Children(t, d), read + {d}, bad)
  {
    if d !in f.unreadable {
      var found := set p | p in Children(t, d) && Descends(t, prune, p);
      forall p | p in found ensures p !in pending && p !in read && p !in bad && p != d {
        assert p in t && Parent(p) == d && p != "";
      }
    }
  }

  lemma RecordedIsScan(t: Tree, f: Faults, prune: Path -> bool, seen: set<Path>, bad: set<Path>)
    requires forall p :: p in seen <==> Reached(t, f, prune, p)
    requires forall p :: p in bad <==> p in f.unreadable && (p == "" || (p in seen && Descends(t, prune, p)))
    requires seen <= t.Keys
    ensures IsScan(t, f, prune, Recorded(t, f, prune, seen, bad))
  {
    var r := Recorded(t, f, prune, seen, bad);
    forall p ensures p in r.entries <==> Listed(t, f, prune, p) {
      assert p in seen <==> Reached(t, f, prune, p);
    }
    forall p ensures p in r.pruned <==> Reached(t, f, prune, p) && t[p].Dir? && prune(p) {
      assert p in seen <==> Reached(t, f, prune, p);
    }
    forall p ensures p in r.errors <==>
        || (Reached(t, f, prune, p) && t[p].File? && p in f.unstatable && p !in f.vanished)
        || (p in f.unreadable && (p == "" || (Reached(t, f, prune, p) && t[p].Dir? && !prune(p))))
    {
      assert p in seen <==> Reached(t, f, prune, p);
    }
  }

  lemma WalkIsScan(t: Tree, f: Faults, prune: Path -> bool, seen: set<Path>, read: set<Path>, bad: set<Path>)
    requires TreeOk(t) && Progress(t, f, prune, {}, seen, read, bad)
    ensures seen <= t.Keys
    ensures IsScan(t, f, prune, Recorded(t, f, prune, seen, bad))
    ensures ScanOk(Recorded(t, f, prune, seen, bad))
  {
    forall p ensures p in seen <==> Reached(t, f, prune, p) {
      if p in t { SeenIsReached(t, f, prune, seen, read, bad, p); }
    }
    RecordedIsScan(t, f, prune, seen, bad);
    ScanIsOk(t, f, prune, Recorded(t, f, prune, seen, bad));
  }

  /** Once nothing is pending, the walk has come across everything it can reach. */
  lemma {:induction false} SeenIsReached(t: Tree, f: Faults, prune: Path -> bool,
                                         seen: set<Path>, read: set<Path>, bad: set<Path>, p: Path)
    requires TreeOk(t) && p in t
    requires Progress(t, f, prune, {}, seen, read, bad)
    ensures p in seen <==> Reached(t, f, prune, p)
    decreases |p|
  {
    ReachedViaParent(t, f, prune, p);
    var d := Parent(p);
    if d != "" {
      SeenIsReached(t, f, prune, seen, read, bad, d);
    }
  }

  /** A scan accounts for everything it comes across: each path is in exactly one of
      its four lists, but for a listed directory that could not be read. */
  lemma ScanAccounts(t: Tree, f: Faults, prune: Path -> bool, r: ScanResult, p: Path)
    requires IsScan(t, f, prune, r) && Reached(t, f, prune, p)
    ensures p in r.entries || p in r.pruned || p in r.vanished || p in r.errors
    ensures p in r.pruned ==> p !in r.entries && p !in r.vanished && p !in r.errors
    ensures p in r.vanished ==> p !in r.entries && p !in r.errors
    ensures p in r.entries && p in r.errors <==> t[p].Dir? && !prune(p) && p in f.unreadable
    ensures p in r.entries ==> r.entries[p].relPath == p && r.entries[p].isDir == t[p].Dir? && r.entries[p].isSymlink == t[p].Link?
    ensures p in r.entries && t[p].File? ==> r.entries[p].size == |t[p].data| && r.entries[p].modTime == t[p].mtime
  {
  }
}
