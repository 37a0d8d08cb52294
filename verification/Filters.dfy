/** The filter chain: which paths are in scope, and which directories a walk
    may skip. The glob library is a parameter; what is modelled is everything
    around it. */
module Filters {
  import opened Paths

  /** The glob matcher and the case folding it is used with. */
  datatype Globs = Globs(matches: (string, string) -> bool, lower: string -> string)

  datatype Pattern = Pattern(glob: string, anchored: bool, dirOnly: bool, caseSensitive: bool)

  datatype Direction = Include | Exclude

  datatype Rule = Rule(id: string, direction: Direction, patterns: seq<Pattern>)

  datatype Chain = Chain(includes: seq<Rule>, excludes: seq<Rule>, degraded: bool)

  datatype Option<+T> = None | Some(value: T)

  function Folded(g: Globs, t: Pattern, p: Path): string {
    if t.caseSensitive then p else g.lower(p)
  }

  /** The pattern selects the path itself. */
  ghost predicate Selects(g: Globs, t: Pattern, p: Path, isDir: bool) {
    && (t.dirOnly ==> isDir)
    && var c := Folded(g, t, p);
       || g.matches(t.glob, c)
       || (!t.anchored && exists i :: 0 <= i < |c| && c[i] == '/' && g.matches(t.glob, c[i + 1..]))
  }

  /** The pattern selects some directory above the path. */
  ghost predicate SelectsAbove(g: Globs, t: Pattern, p: Path) {
    exists a :: IsAncestor(a, p) && Selects(g, t, a, true)
  }

  ghost predicate RuleMatches(g: Globs, r: Rule, p: Path, isDir: bool) {
    exists t :: t in r.patterns && (Selects(g, t, p, isDir) || SelectsAbove(g, t, p))
  }

  /** Includes, when there are any, define the universe; excludes win. */
  ghost predicate Admits(g: Globs, c: Chain, p: Path, isDir: bool) {
    && (c.includes == [] || exists r :: r in c.includes && RuleMatches(g, r, p, isDir))
    && !Excludes(g, c, p, isDir)
  }

  ghost predicate Excludes(g: Globs, c: Chain, p: Path, isDir: bool) {
    exists r :: r in c.excludes && RuleMatches(g, r, p, isDir)
  }

  /** The walk may skip this directory. */
  ghost predicate Prunes(g: Globs, c: Chain, d: Path) {
    Excludes(g, c, d, true)
  }

  // ---- the searches -------------------------------------------------------

  method Match(g: Globs, t: Pattern, p: Path, isDir: bool) returns (b: bool)
    ensures b <==> Selects(g, t, p, isDir)
  {
    if t.dirOnly && !isDir { return false; }
    var c := if t.caseSensitive then p else g.lower(p);
    if t.anchored { return g.matches(t.glob, c); }
    if g.matches(t.glob, c) { return true; }
    for i := 0 to |c|
      invariant forall k :: 0 <= k < i && c[k] == '/' ==> !g.matches(t.glob, c[k + 1..])
    {
      if c[i] == '/' && g.matches(t.glob, c[i + 1..]) { return true; }
    }
    return false;
  }

  method MatchesAncestor(g: Globs, t: Pattern, p: Path) returns (b: bool)
    ensures b <==> SelectsAbove(g, t, p)
  {
    for i := 0 to |p|
      invariant forall a :: IsAncestor(a, p) && |a| < i ==> !Selects(g, t, a, true)
    {
      if p[i] == '/' {
        var m := Match(g, t, p[..i], true);
        if m {
          assert IsAncestor(p[..i], p);
          return true;
        }
        assert forall a :: IsAncestor(a, p) && |a| == i ==> a == p[..i];
      }
    }
    return false;
  }

  method Matches(g: Globs, r: Rule, p: Path, isDir: bool) returns (b: bool)
    ensures b <==> RuleMatches(g, r, p, isDir)
  {
    for i := 0 to |r.patterns|
      invariant forall t :: t in r.patterns[..i] ==> !Selects(g, t, p, isDir) && !SelectsAbove(g, t, p)
    {
      var m := Match(g, r.patterns[i], p, isDir);
      if m { return true; }
      m := MatchesAncestor(g, r.patterns[i], p);
      if m { return true; }
      assert r.patterns[..i + 1] == r.patterns[..i] + [r.patterns[i]];
    }
    assert r.patterns[..|r.patterns|] == r.patterns;
    return false;
  }

  /** The rule is the first of these that matches. */
  ghost predicate IsFirst(g: Globs, rules: seq<Rule>, r: Rule, p: Path, isDir: bool) {
    exists i :: 0 <= i < |rules| && rules[i] == r && RuleMatches(g, r, p, isDir)
      && forall k :: 0 <= k < i ==> !RuleMatches(g, rules[k], p, isDir)
  }

  /** The verdict and the rule that gave it: the first exclude that matches, or
      the first include when nothing excludes. */
  method Decide(g: Globs, c: Chain, p: Path, isDir: bool) returns (admitted: bool, rule: Option<Rule>)
    ensures admitted <==> Admits(g, c, p, isDir)
    ensures rule.None? <==>
      if c.includes == [] then admitted else forall r :: r in c.includes ==> !RuleMatches(g, r, p, isDir)
    ensures rule.Some? ==> IsFirst(g, if admitted then c.includes else c.excludes, rule.value, p, isDir)
  {
    rule := None;
    if c.includes == [] && c.excludes == [] { return true, None; }
    if c.includes != [] {
      for i := 0 to |c.includes|
        invariant rule.None?
        invariant forall k :: 0 <= k < i ==> !RuleMatches(g, c.includes[k], p, isDir)
      {
        var m := Matches(g, c.includes[i], p, isDir);
        if m {
          rule := Some(c.includes[i]);
          assert IsFirst(g, c.includes, c.includes[i], p, isDir);
          break;
        }
      }
      if rule.None? { return false, None; }
    }
    for i := 0 to |c.excludes|
      invariant forall k :: 0 <= k < i ==> !RuleMatches(g, c.excludes[k], p, isDir)
    {
      var m := Matches(g, c.excludes[i], p, isDir);
      if m { return false, Some(c.excludes[i]); }
    }
    return true, rule;
  }

  method PrunesDir(g: Globs, c: Chain, d: Path) returns (b: bool)
    ensures b <==> Prunes(g, c, d)
  {
    for i := 0 to |c.excludes|
      invariant forall k :: 0 <= k < i ==> !RuleMatches(g, c.excludes[k], d, true)
    {
      var m := Matches(g, c.excludes[i], d, true);
      if m { return true; }
    }
    return false;
  }

  // ---- what pruning promises ----------------------------------------------

  /** A rule that matches a directory matches everything beneath it, whatever
      kind it is and however the pattern is written. */
  lemma RuleMatchesBeneath(g: Globs, r: Rule, d: Path, p: Path, isDir: bool)
    requires RuleMatches(g, r, d, true) && IsAncestor(d, p)
    ensures RuleMatches(g, r, p, isDir)
  {
    var t :| t in r.patterns && (Selects(g, t, d, true) || SelectsAbove(g, t, d));
    if !Selects(g, t, d, true) {
      var a :| IsAncestor(a, d) && Selects(g, t, a, true);
      AncestorTransitive(a, d, p);
    }
    assert SelectsAbove(g, t, p);
  }

  /** `wide` holds every exclude of `narrow`, as a destination's chain holds
      every job-wide rule. */
  ghost predicate Extends(wide: Chain, narrow: Chain) {
    forall r :: r in narrow.excludes ==> r in wide.excludes
  }

  /** A directory the job-wide chain prunes is out of scope for every
      destination, with everything beneath it. */
  lemma PrunedIsOutOfScope(g: Globs, job: Chain, dest: Chain, d: Path)
    requires Extends(dest, job) && Prunes(g, job, d)
    ensures Prunes(g, dest, d) && !Admits(g, dest, d, true)
    ensures forall p, isDir :: IsAncestor(d, p) ==> Excludes(g, dest, p, isDir) && !Admits(g, dest, p, isDir)
  {
    var r :| r in job.excludes && RuleMatches(g, r, d, true);
    forall p, isDir | IsAncestor(d, p) ensures Excludes(g, dest, p, isDir) {
      RuleMatchesBeneath(g, r, d, p, isDir);
    }
  }

  // ---- what a rule reaches -------------------------------------------------

  /** The pattern selects this step on the way to a path, the path itself included. */
  ghost predicate SelectsOnTheWay(g: Globs, t: Pattern, q: Path, p: Path, isDir: bool) {
    (q == p && Selects(g, t, p, isDir)) || (IsAncestor(q, p) && Selects(g, t, q, true))
  }

  /** A rule matches a path if and only if one of its patterns selects the path, as
      what it is, or some directory above it. */
  lemma RuleMatchesExactly(g: Globs, r: Rule, p: Path, isDir: bool)
    ensures RuleMatches(g, r, p, isDir) <==> exists t, q :: t in r.patterns && SelectsOnTheWay(g, t, q, p, isDir)
  {
    if t, q :| t in r.patterns && SelectsOnTheWay(g, t, q, p, isDir) {
      assert Selects(g, t, p, isDir) || SelectsAbove(g, t, p);
    }
    if RuleMatches(g, r, p, isDir) {
      var t :| t in r.patterns && (Selects(g, t, p, isDir) || SelectsAbove(g, t, p));
      if Selects(g, t, p, isDir) {
        assert SelectsOnTheWay(g, t, p, p, isDir);
      } else {
        var q :| IsAncestor(q, p) && Selects(g, t, q, true);
        assert SelectsOnTheWay(g, t, q, p, isDir);
      }
    }
  }

  /** An anchored pattern speaks of whole paths, and one that is not of the end of a
      path from any component on; one for directories never selects a file. */
  lemma SelectsMeans(g: Globs, t: Pattern, dir: Path, name: Path, isDir: bool)
    requires t.caseSensitive
    ensures t.dirOnly && !isDir ==> !Selects(g, t, name, isDir)
    ensures t.anchored ==> (Selects(g, t, name, isDir) <==> g.matches(t.glob, name) && (t.dirOnly ==> isDir))
    ensures !t.anchored && Selects(g, t, name, isDir) ==> Selects(g, t, dir + "/" + name, isDir)
    ensures '/' !in name ==> (Selects(g, t, name, isDir) <==> g.matches(t.glob, name) && (t.dirOnly ==> isDir))
  {
    var p := dir + "/" + name;
    if !t.anchored && Selects(g, t, name, isDir) {
      if g.matches(t.glob, name) {
        assert p[|dir|] == '/' && p[|dir| + 1..] == name;
      } else {
        var i :| 0 <= i < |name| && name[i] == '/' && g.matches(t.glob, name[i + 1..]);
        var j := |dir| + 1 + i;
        assert p[j] == '/' && p[j + 1..] == name[i + 1..];
      }
    }
  }

  /** Without case, only the folded path counts. */
  lemma SelectsFolded(g: Globs, t: Pattern, p: Path, q: Path, isDir: bool)
    requires !t.caseSensitive && g.lower(p) == g.lower(q)
    ensures Selects(g, t, p, isDir) <==> Selects(g, t, q, isDir)
  {
  }

  /** With includes, what none of them matches is out; what an exclude matches is
      out; all else is in. */
  lemma AdmitsMeans(g: Globs, c: Chain, p: Path, isDir: bool)
    ensures c.includes != [] && (forall r :: r in c.includes ==> !RuleMatches(g, r, p, isDir)) ==> !Admits(g, c, p, isDir)
    ensures forall r :: r in c.excludes && RuleMatches(g, r, p, isDir) ==> !Admits(g, c, p, isDir)
    ensures !Admits(g, c, p, isDir) ==>
      || (c.includes != [] && forall r :: r in c.includes ==> !RuleMatches(g, r, p, isDir))
      || exists r :: r in c.excludes && RuleMatches(g, r, p, isDir)
  {
  }
}
