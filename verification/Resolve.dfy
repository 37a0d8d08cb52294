/** Building one chain per destination, and the one that prunes the shared
    source walk, from rules that may fail to load. */
module Resolve {
  import opened Filters

  datatype Scope = JobWide | TargetOnly(target: string)

  datatype OnError = FailRun | IgnoreRule

  /** A stored rule together with what compiling it gave; None when its file
      could not be read or a pattern is not valid. */
  datatype Stored = Stored(scope: Scope, onError: OnError, built: Option<Rule>)

  datatype Chains = Refused | Resolved(chains: map<string, Chain>, prune: Chain)

  /** The rules running in one direction, in order. */
  function Facing(rules: seq<Rule>, d: Direction): (r: seq<Rule>)
    ensures forall x :: x in r <==> x in rules && x.direction == d
  {
    if rules == [] then []
    else
      var last := rules[|rules| - 1];
      var init := Facing(rules[..|rules| - 1], d);
      assert rules == rules[..|rules| - 1] + [last];
      if last.direction == d then init + [last] else init
  }

  method NewChain(rules: seq<Rule>) returns (c: Chain)
    ensures c == Chain(Facing(rules, Include), Facing(rules, Exclude), false)
  {
    c := Chain([], [], false);
    for i := 0 to |rules|
      invariant c == Chain(Facing(rules[..i], Include), Facing(rules[..i], Exclude), false)
    {
      assert rules[..i + 1][..i] == rules[..i];
      if rules[i].direction == Include {
        c := c.(includes := c.includes + [rules[i]]);
      } else {
        c := c.(excludes := c.excludes + [rules[i]]);
      }
    }
    assert rules[..|rules|] == rules;
  }

  /** Which rules a chain is for: one destination's, or the source walk's. */
  datatype Reader = Destination(target: string) | SourceWalk

  predicate Applies(s: Stored, who: Reader) {
    match who
    case Destination(t) => s.scope.JobWide? || s.scope.target == t
    case SourceWalk => s.scope == JobWide
  }

  predicate Dropped(s: Stored) {
    s.built.None? && s.onError == IgnoreRule
  }

  /** The compiled rules that apply, in their stored order. */
  function Compiled(rules: seq<Stored>, who: Reader): seq<Rule> {
    if rules == [] then []
    else
      var s, before := rules[|rules| - 1], Compiled(rules[..|rules| - 1], who);
      if s.built.Some? && Applies(s, who) then before + [s.built.value] else before
  }

  /** A chain that is right for its reader: it holds exactly the compiled rules
      that apply, each side in their order, and it knows when any rule at all was dropped. */
  ghost predicate RightFor(c: Chain, rules: seq<Stored>, who: Reader) {
    && (forall r :: r in c.includes <==> r.direction == Include && InForce(rules, who, r))
    && (forall r :: r in c.excludes <==> r.direction == Exclude && InForce(rules, who, r))
    && c.includes == Facing(Compiled(rules, who), Include) && c.excludes == Facing(Compiled(rules, who), Exclude)
    && (c.degraded <==> exists s :: s in rules && Dropped(s))
  }

  ghost predicate InForce(rules: seq<Stored>, who: Reader, r: Rule) {
    exists s :: s in rules && s.built == Some(r) && Applies(s, who)
  }

  method Build(rules: seq<Stored>, who: Reader, degraded: bool) returns (c: Chain)
    requires degraded <==> exists s :: s in rules && Dropped(s)
    ensures RightFor(c, rules, who)
  {
    var kept: seq<Rule> := [];
    for i := 0 to |rules|
      invariant forall r :: r in kept <==> InForce(rules[..i], who, r)
      invariant kept == Compiled(rules[..i], who)
    {
      assert rules[..i + 1] == rules[..i] + [rules[i]] && rules[..i + 1][..i] == rules[..i];
      var s := rules[i];
      forall r ensures InForce(rules[..i + 1], who, r) <==>
          InForce(rules[..i], who, r) || (s.built == Some(r) && Applies(s, who))
      {
      }
      if s.built.Some? && Applies(s, who) {
        kept := kept + [s.built.value];
      }
    }
    assert rules[..|rules|] == rules;
    c := NewChain(kept);
    if degraded { c := c.(degraded := true); }
  }

  /** Resolves every chain from one reading of the rules, globals first. The
      run is refused exactly when a rule that must not be dropped is broken. */
  method ResolveChains(globals: seq<Stored>, own: seq<Stored>, destinations: seq<string>)
    returns (out: Chains)
    ensures out.Refused? <==> exists s :: s in globals + own && s.built.None? && s.onError == FailRun
    ensures out.Resolved? ==>
      && RightFor(out.prune, globals + own, SourceWalk)
      && (forall d :: d in out.chains <==> d in destinations)
      && (forall d :: d in out.chains ==> RightFor(out.chains[d], globals + own, Destination(d)))
    ensures out.Resolved? ==> forall d, r :: d in out.chains ==>
      (r in out.chains[d].excludes <==> r.direction == Exclude && StoredFor(globals + own, r, d))
  {
    var rules := globals + own;
    var chains: map<string, Chain> := map[];
    if rules == [] {
      var none := Chain([], [], false);
      for i := 0 to |destinations|
        invariant forall d :: d in chains <==> d in destinations[..i]
        invariant forall d :: d in chains ==> chains[d] == none
      {
        assert destinations[..i + 1] == destinations[..i] + [destinations[i]];
        chains := chains[destinations[i] := none];
      }
      assert destinations[..|destinations|] == destinations;
      forall d | d in chains { DestinationChainMeans(rules, chains[d], d); }
      return Resolved(chains, none);
    }

    var degraded := false;
    for i := 0 to |rules|
      invariant degraded <==> exists s :: s in rules[..i] && Dropped(s)
      invariant forall s :: s in rules[..i] ==> s.built.Some? || s.onError == IgnoreRule
    {
      assert rules[..i + 1] == rules[..i] + [rules[i]];
      if rules[i].built.None? {
        if rules[i].onError == FailRun { return Refused; }
        degraded := true;
        assert Dropped(rules[i]);
      }
    }
    assert rules[..|rules|] == rules;

    for i := 0 to |destinations|
      invariant forall d :: d in chains <==> d in destinations[..i]
      invariant forall d :: d in chains ==> RightFor(chains[d], rules, Destination(d))
    {
      assert destinations[..i + 1] == destinations[..i] + [destinations[i]];
      var c := Build(rules, Destination(destinations[i]), degraded);
      chains := chains[destinations[i] := c];
    }
    assert destinations[..|destinations|] == destinations;
    forall d | d in chains { DestinationChainMeans(rules, chains[d], d); }
    var prune := Build(rules, SourceWalk, degraded);
    return Resolved(chains, prune);
  }

  /** Every destination's chain holds the rules that prune the source walk. */
  lemma DestinationExtendsPrune(rules: seq<Stored>, prune: Chain, dest: Chain, target: string)
    requires RightFor(prune, rules, SourceWalk) && RightFor(dest, rules, Destination(target))
    ensures Extends(dest, prune)
  {
    forall r | r in prune.excludes ensures r in dest.excludes {
      var s :| s in rules && s.built == Some(r) && Applies(s, SourceWalk);
      assert Applies(s, Destination(target));
    }
  }

  /** Some stored rule compiles to this one, and is the job's or this target's own. */
  ghost predicate StoredFor(rules: seq<Stored>, r: Rule, target: string) {
    exists s :: s in rules && s.built == Some(r) && (s.scope == JobWide || s.scope == TargetOnly(target))
  }

  /** Which rules reach a destination: the job-wide ones and its own, and no other
      destination's; and any rule that was dropped degrades every chain. */
  lemma DestinationChainMeans(rules: seq<Stored>, c: Chain, target: string)
    requires RightFor(c, rules, Destination(target))
    ensures forall r :: r in c.excludes <==> r.direction == Exclude && StoredFor(rules, r, target)
    ensures forall r :: r in c.includes <==> r.direction == Include && StoredFor(rules, r, target)
    ensures c.degraded <==> exists s :: s in rules && s.built == None && s.onError == IgnoreRule
  {
    forall r ensures InForce(rules, Destination(target), r) <==> StoredFor(rules, r, target) {
      if s :| s in rules && s.built == Some(r) && (s.scope == JobWide || s.scope == TargetOnly(target)) {
        assert Applies(s, Destination(target));
      }
    }
    assert forall s :: s in rules ==> (Dropped(s) <==> s.built == None && s.onError == IgnoreRule);
  }

  /** The shared source walk is pruned by the job-wide rules only. */
  lemma PruneChainMeans(rules: seq<Stored>, c: Chain)
    requires RightFor(c, rules, SourceWalk)
    ensures forall r :: r in c.excludes <==> r.direction == Exclude && exists s :: s in rules && s.built == Some(r) && s.scope == JobWide
    ensures forall r :: r in c.includes <==> r.direction == Include && exists s :: s in rules && s.built == Some(r) && s.scope == JobWide
  {
    forall r ensures InForce(rules, SourceWalk, r) <==> exists s :: s in rules && s.built == Some(r) && s.scope == JobWide {
      if s :| s in rules && s.built == Some(r) && s.scope == JobWide { assert Applies(s, SourceWalk); }
    }
  }

  /** Earlier rules come first, on each side of a chain. */
  lemma {:induction false} FacingJoins(x: seq<Rule>, y: seq<Rule>, d: Direction)
    ensures Facing(x + y, d) == Facing(x, d) + Facing(y, d)
  {
    if y == [] {
      assert x + y == x;
    } else {
      FacingJoins(x, y[..|y| - 1], d);
      assert (x + y)[..|x + y| - 1] == x + y[..|y| - 1];
    }
  }

  lemma {:induction false} CompiledJoins(x: seq<Stored>, y: seq<Stored>, who: Reader)
    ensures Compiled(x + y, who) == Compiled(x, who) + Compiled(y, who)
  {
    if y == [] {
      assert x + y == x;
    } else {
      CompiledJoins(x, y[..|y| - 1], who);
      assert (x + y)[..|x + y| - 1] == x + y[..|y| - 1];
    }
  }
}
