/** Extracting patterns from a JSON document: the layer-by-layer walk means
    what the path means, read recursively. */
module JsonKeys {
  import opened Sorting
  import opened Filters

  datatype Json = Null | Bool(b: bool) | Number(n: int) | Text(s: string)
                | List(items: seq<Json>) | Object(fields: map<string, Json>)

  /** Reading a segment as an array index, as the library does. */
  type Atoi = string -> Option<int>

  const WILDCARD := "*"

  // ---- the meaning of a path ----------------------------------------------

  ghost function Values(fields: map<string, Json>, names: seq<string>): seq<Json>
    requires forall x :: x in names ==> x in fields
  {
    if names == [] then [] else [fields[names[0]]] + Values(fields, names[1..])
  }

  /** The nodes one segment leads to from one node; None is an error. */
  ghost function Children(atoi: Atoi, node: Json, segment: string, lenient: bool): Option<seq<Json>> {
    var miss := if lenient then Some([]) else None;
    match node
    case Object(fields) =>
      if segment == WILDCARD then Some(Values(fields, Ranked(fields.Keys)))
      else if segment in fields then Some([fields[segment]]) else miss
    case List(items) =>
      if segment == WILDCARD then Some(items)
      else if atoi(segment).Some? && 0 <= atoi(segment).value < |items| then Some([items[atoi(segment).value]])
      else miss
    case _ => miss
  }

  function Both<T>(x: Option<seq<T>>, y: Option<seq<T>>): Option<seq<T>> {
    if x.Some? && y.Some? then Some(x.value + y.value) else None
  }

  lemma BothAssociates<T>(x: Option<seq<T>>, y: Option<seq<T>>, z: Option<seq<T>>)
    ensures Both(Both(x, y), z) == Both(x, Both(y, z)) && Both(x, Some([])) == x == Both(Some([]), x)
  {
    if x.Some? {
      assert x.value + [] == x.value == [] + x.value;
      if y.Some? && z.Some? { assert (x.value + y.value) + z.value == x.value + (y.value + z.value); }
    }
  }

  /** All the nodes a path leads to, depth first. */
  ghost function Reach(atoi: Atoi, node: Json, path: seq<string>, lenient: bool): Option<seq<Json>>
    decreases |path|, 0, 0
  {
    if path == [] then Some([node])
    else
      var next := Children(atoi, node, path[0], lenient);
      if next.None? then None else ReachAll(atoi, next.value, path[1..], lenient)
  }

  ghost function ReachAll(atoi: Atoi, nodes: seq<Json>, path: seq<string>, lenient: bool): Option<seq<Json>>
    decreases |path|, 1, |nodes|
  {
    if nodes == [] then Some([])
    else Both(Reach(atoi, nodes[0], path, lenient), ReachAll(atoi, nodes[1..], path, lenient))
  }

  // ---- the walk, layer by layer -------------------------------------------

  ghost function Layer(atoi: Atoi, nodes: seq<Json>, segment: string, lenient: bool): Option<seq<Json>> {
    if nodes == [] then Some([])
    else
      var n := |nodes| - 1;
      Both(Layer(atoi, nodes[..n], segment, lenient), Children(atoi, nodes[n], segment, lenient))
  }

  ghost function Walk(atoi: Atoi, nodes: seq<Json>, path: seq<string>, lenient: bool): Option<seq<Json>>
    decreases |path|
  {
    if path == [] then Some(nodes)
    else
      var next := Layer(atoi, nodes, path[0], lenient);
      if next.None? then None else Walk(atoi, next.value, path[1..], lenient)
  }

  lemma {:induction false} ReachAllJoins(atoi: Atoi, a: seq<Json>, b: seq<Json>, path: seq<string>, lenient: bool)
    ensures ReachAll(atoi, a + b, path, lenient) ==
            Both(ReachAll(atoi, a, path, lenient), ReachAll(atoi, b, path, lenient))
    decreases |a|
  {
    if a == [] {
      assert a + b == b;
      BothAssociates(ReachAll(atoi, b, path, lenient), None, None);
    } else {
      ReachAllJoins(atoi, a[1..], b, path, lenient);
      assert (a + b)[1..] == a[1..] + b && (a + b)[0] == a[0];
      BothAssociates(Reach(atoi, a[0], path, lenient), ReachAll(atoi, a[1..], path, lenient),
                     ReachAll(atoi, b, path, lenient));
    }
  }

  /** One layer, and then the rest of the path from each node of it. */
  lemma {:induction false} LayerThenReach(atoi: Atoi, nodes: seq<Json>, path: seq<string>, lenient: bool)
    requires path != []
    ensures var next := Layer(atoi, nodes, path[0], lenient);
      ReachAll(atoi, nodes, path, lenient) ==
        if next.None? then None else ReachAll(atoi, next.value, path[1..], lenient)
    decreases |nodes|
  {
    if nodes != [] {
      var n := |nodes| - 1;
      var init, last := nodes[..n], nodes[n];
      LayerThenReach(atoi, init, path, lenient);
      ReachAllJoins(atoi, init, [last], path, lenient);
      assert nodes == init + [last];
      assert ReachAll(atoi, [last], path, lenient) == Reach(atoi, last, path, lenient) by {
        BothAssociates(Reach(atoi, last, path, lenient), None, None);
      }
      var before, here := Layer(atoi, init, path[0], lenient), Children(atoi, last, path[0], lenient);
      if before.Some? && here.Some? {
        ReachAllJoins(atoi, before.value, here.value, path[1..], lenient);
      }
    }
  }

  /** The walk by layers and the recursive reading agree, errors, order and all. */
  lemma {:induction false} WalkMeansReach(atoi: Atoi, nodes: seq<Json>, path: seq<string>, lenient: bool)
    ensures Walk(atoi, nodes, path, lenient) == ReachAll(atoi, nodes, path, lenient)
    decreases |path|
  {
    if path == [] {
      ReachAllOfNothing(atoi, nodes, lenient);
    } else {
      LayerThenReach(atoi, nodes, path, lenient);
      var next := Layer(atoi, nodes, path[0], lenient);
      if next.Some? { WalkMeansReach(atoi, next.value, path[1..], lenient); }
    }
  }

  lemma {:induction false} ReachAllOfNothing(atoi: Atoi, nodes: seq<Json>, lenient: bool)
    ensures ReachAll(atoi, nodes, [], lenient) == Some(nodes)
  {
    if nodes != [] {
      ReachAllOfNothing(atoi, nodes[1..], lenient);
      assert nodes == [nodes[0]] + nodes[1..];
    }
  }

  /** A key without a wildcard leads to exactly one node, or is an error. */
  lemma {:induction false} StrictIsSingle(atoi: Atoi, node: Json, path: seq<string>)
    requires WILDCARD !in path
    ensures var r := Reach(atoi, node, path, false); r.Some? ==> |r.value| == 1
    decreases |path|
  {
    if path != [] {
      var next := Children(atoi, node, path[0], false);
      if next.Some? {
        StrictIsSingle(atoi, next.value[0], path[1..]);
        assert ReachAll(atoi, next.value, path[1..], false) ==
          Both(Reach(atoi, next.value[0], path[1..], false), ReachAll(atoi, next.value[1..], path[1..], false));
      }
    }
  }

  /** A key with a wildcard is a query: following it is never an error. */
  lemma {:induction false} LenientNeverFails(atoi: Atoi, nodes: seq<Json>, path: seq<string>)
    ensures Walk(atoi, nodes, path, true).Some?
    decreases |path|
  {
    if path != [] {
      LayerNeverFails(atoi, nodes, path[0]);
      LenientNeverFails(atoi, Layer(atoi, nodes, path[0], true).value, path[1..]);
    }
  }

  lemma {:induction false} LayerNeverFails(atoi: Atoi, nodes: seq<Json>, segment: string)
    ensures Layer(atoi, nodes, segment, true).Some?
  {
    if nodes != [] { LayerNeverFails(atoi, nodes[..|nodes| - 1], segment); }
  }

  // ---- patterns -----------------------------------------------------------

  function Texts(items: seq<Json>, lenient: bool): Option<seq<string>> {
    if items == [] then Some([])
    else
      var n := |items| - 1;
      var last := if items[n].Text? then Some([items[n].s]) else if lenient then Some([]) else None;
      Both(Texts(items[..n], lenient), last)
  }

  /** The patterns one node holds: a string, or a list of strings. */
  function PatternsOf(node: Json, lenient: bool): Option<seq<string>> {
    match node
    case Text(s) => Some([s])
    case List(items) => Texts(items, lenient)
    case _ => if lenient then Some([]) else None
  }

  function Collected(nodes: seq<Json>, lenient: bool): Option<seq<string>> {
    if nodes == [] then Some([])
    else Both(Collected(nodes[..|nodes| - 1], lenient), PatternsOf(nodes[|nodes| - 1], lenient))
  }

  /** What one key selects, by the recursive reading of its path. */
  ghost function Selected(atoi: Atoi, root: Json, path: seq<string>): Option<seq<string>> {
    var lenient := WILDCARD in path;
    if "" in path then None
    else
      var nodes := Reach(atoi, root, path, lenient);
      if nodes.None? then None else Collected(nodes.value, lenient)
  }

  /** Every value the keys select, in order, repeats included. */
  ghost function SelectedAll(atoi: Atoi, root: Json, keys: seq<seq<string>>): Option<seq<string>> {
    if keys == [] then Some([])
    else Both(SelectedAll(atoi, root, keys[..|keys| - 1]), Selected(atoi, root, keys[|keys| - 1]))
  }

  /** A sequence with every later repeat dropped. */
  function Firsts(s: seq<string>): seq<string> {
    if s == [] then []
    else
      var init, last := Firsts(s[..|s| - 1]), s[|s| - 1];
      if last in init then init else init + [last]
  }

  function IndexIn(s: seq<string>, x: string): nat
    requires x in s
  {
    if s[0] == x then 0 else 1 + IndexIn(s[1..], x)
  }

  lemma {:induction false} IndexGrows(s: seq<string>, y: string, x: string)
    requires x in s
    ensures x in s + [y] && IndexIn(s + [y], x) == IndexIn(s, x) < |s|
  {
    if s[0] != x {
      IndexGrows(s[1..], y, x);
      assert (s + [y])[1..] == s[1..] + [y];
    }
  }

  lemma {:induction false} IndexOfNew(s: seq<string>, y: string)
    requires y !in s
    ensures IndexIn(s + [y], y) == |s|
  {
    if s != [] {
      IndexOfNew(s[1..], y);
      assert (s + [y])[1..] == s[1..] + [y];
    }
  }

  /** Dropping repeats keeps every value once, in order of first appearance. */
  lemma {:induction false} FirstsAreFirst(s: seq<string>)
    ensures forall x :: x in Firsts(s) <==> x in s
    ensures forall i, j :: 0 <= i < j < |Firsts(s)| ==>
      Firsts(s)[i] in s && Firsts(s)[j] in s && IndexIn(s, Firsts(s)[i]) < IndexIn(s, Firsts(s)[j])
  {
    if s != [] {
      var init, last := s[..|s| - 1], s[|s| - 1];
      FirstsAreFirst(init);
      assert s == init + [last];
      var f := Firsts(init);
      forall k | 0 <= k < |f| ensures f[k] in init && IndexIn(s, f[k]) == IndexIn(init, f[k]) < |init| {
        assert f[k] in f;
        IndexGrows(init, last, f[k]);
      }
      if last !in f { IndexOfNew(init, last); }
    }
  }

  // ---- the loops ----------------------------------------------------------

  /** The next layer: what one segment leads to from every node of this one. */
  method Descend(atoi: Atoi, current: seq<Json>, segment: string, lenient: bool) returns (next: Option<seq<Json>>)
    ensures next == Layer(atoi, current, segment, lenient)
  {
    var found: seq<Json> := [];
    for i := 0 to |current|
      invariant Layer(atoi, current[..i], segment, lenient) == Some(found)
    {
      assert current[..i + 1][..i] == current[..i];
      var here := Step(atoi, current[i], segment, lenient);
      if here.None? {
        LayerFails(atoi, current, segment, lenient, i + 1);
        return None;
      }
      found := found + here.value;
    }
    assert current[..|current|] == current;
    return Some(found);
  }

  lemma {:induction false} LayerFails(atoi: Atoi, nodes: seq<Json>, segment: string, lenient: bool, n: nat)
    requires n <= |nodes| && Layer(atoi, nodes[..n], segment, lenient).None?
    ensures Layer(atoi, nodes, segment, lenient).None?
    decreases |nodes|
  {
    if n == |nodes| {
      assert nodes[..n] == nodes;
    } else {
      var init := nodes[..|nodes| - 1];
      assert init[..n] == nodes[..n];
      LayerFails(atoi, init, segment, lenient, n);
    }
  }

  /** What one segment leads to from one node. An object is fanned out in the
      order of its sorted names. */
  method Step(atoi: Atoi, node: Json, segment: string, lenient: bool) returns (r: Option<seq<Json>>)
    ensures r == Children(atoi, node, segment, lenient)
  {
    var miss := if lenient then Some([]) else None;
    match node {
      case Object(fields) =>
        if segment == WILDCARD {
          var names := SortSet(fields.Keys);
          var values: seq<Json> := [];
          var i := |names|;
          while i > 0
            invariant 0 <= i <= |names| && values == Values(fields, names[i..])
          {
            i := i - 1;
            assert names[i..][1..] == names[i + 1..] && names[i] in names;
            values := [fields[names[i]]] + values;
          }
          assert names[0..] == names;
          return Some(values);
        }
        if segment !in fields { return miss; }
        return Some([fields[segment]]);
      case List(items) =>
        if segment == WILDCARD { return Some(items); }
        var index := atoi(segment);
        if index.None? || index.value < 0 || index.value >= |items| { return miss; }
        return Some([items[index.value]]);
      case _ => return miss;
    }
  }

  /** All the text that the nodes at the end of a path hold, or an error. */
  method CollectPatterns(nodes: seq<Json>, lenient: bool) returns (r: Option<seq<string>>)
    ensures r == Collected(nodes, lenient)
  {
    var patterns: seq<string> := [];
    for i := 0 to |nodes|
      invariant Collected(nodes[..i], lenient) == Some(patterns)
    {
      assert nodes[..i + 1][..i] == nodes[..i];
      var here := PatternsOf(nodes[i], lenient);
      if here.None? {
        CollectFails(nodes, lenient, i + 1);
        return None;
      }
      patterns := patterns + here.value;
    }
    assert nodes[..|nodes|] == nodes;
    return Some(patterns);
  }

  lemma {:induction false} CollectFails(nodes: seq<Json>, lenient: bool, n: nat)
    requires n <= |nodes| && Collected(nodes[..n], lenient).None?
    ensures Collected(nodes, lenient).None?
    decreases |nodes|
  {
    if n == |nodes| {
      assert nodes[..n] == nodes;
    } else {
      var init := nodes[..|nodes| - 1];
      assert init[..n] == nodes[..n];
      CollectFails(init, lenient, n);
    }
  }

  /** One key: what its path means, and nothing else. */
  method PatternsAtOneKey(atoi: Atoi, root: Json, path: seq<string>) returns (r: Option<seq<string>>)
    ensures r == Selected(atoi, root, path)
  {
    var lenient := WILDCARD in path;
    var current := [root];
    ghost var whole := Walk(atoi, [root], path, lenient);
    WalkMeansReach(atoi, [root], path, lenient);
    BothAssociates(Reach(atoi, root, path, lenient), None, None);
    for i := 0 to |path|
      invariant Walk(atoi, current, path[i..], lenient) == whole
      invariant "" !in path[..i]
    {
      assert path[..i + 1] == path[..i] + [path[i]] && path[i..][1..] == path[i + 1..];
      if path[i] == "" { return None; }
      var next := Descend(atoi, current, path[i], lenient);
      if next.None? { return None; }
      current := next.value;
    }
    assert path[..|path|] == path && path[|path|..] == [];
    r := CollectPatterns(current, lenient);
  }

  /** All the keys: the union of what they select, each pattern once, in order
      of first appearance. */
  method PatternsAtKey(atoi: Atoi, root: Json, keys: seq<seq<string>>) returns (r: Option<seq<string>>)
    ensures r.None? <==> keys == [] || SelectedAll(atoi, root, keys).None?
    ensures r.Some? ==> r.value == Firsts(SelectedAll(atoi, root, keys).value)
  {
    if keys == [] { return None; }
    var patterns: seq<string> := [];
    ghost var all: seq<string> := [];
    for i := 0 to |keys|
      invariant SelectedAll(atoi, root, keys[..i]) == Some(all) && patterns == Firsts(all)
    {
      assert keys[..i + 1][..i] == keys[..i];
      var found := PatternsAtOneKey(atoi, root, keys[i]);
      if found.None? {
        SelectFails(atoi, root, keys, i + 1);
        return None;
      }
      patterns := AddNew(patterns, found.value, all);
      all := all + found.value;
    }
    assert keys[..|keys|] == keys;
    return Some(patterns);
  }

  method AddNew(patterns: seq<string>, found: seq<string>, ghost all: seq<string>) returns (r: seq<string>)
    requires patterns == Firsts(all)
    ensures r == Firsts(all + found)
  {
    r := patterns;
    assert all + found[..0] == all;
    for j := 0 to |found|
      invariant r == Firsts(all + found[..j])
    {
      assert (all + found[..j + 1])[..|all| + j] == all + found[..j];
      if found[j] !in r { r := r + [found[j]]; }
    }
    assert found[..|found|] == found;
  }

  lemma {:induction false} SelectFails(atoi: Atoi, root: Json, keys: seq<seq<string>>, n: nat)
    requires n <= |keys| && SelectedAll(atoi, root, keys[..n]).None?
    ensures SelectedAll(atoi, root, keys).None?
    decreases |keys|
  {
    if n == |keys| {
      assert keys[..n] == keys;
    } else {
      var init := keys[..|keys| - 1];
      assert init[..n] == keys[..n];
      SelectFails(atoi, root, init, n);
    }
  }

  /** A wildcard key is an error exactly when it has an empty segment. */
  lemma WildcardFailsOnlyOnEmpty(atoi: Atoi, root: Json, path: seq<string>)
    requires WILDCARD in path
    ensures Selected(atoi, root, path).None? <==> "" in path
  {
    LenientNeverFails(atoi, [root], path);
    WalkMeansReach(atoi, [root], path, true);
    BothAssociates(Reach(atoi, root, path, true), None, None);
    if "" !in path { CollectNeverFails(Reach(atoi, root, path, true).value); }
  }

  lemma {:induction false} CollectNeverFails(nodes: seq<Json>)
    ensures Collected(nodes, true).Some?
  {
    if nodes != [] {
      CollectNeverFails(nodes[..|nodes| - 1]);
      var last := nodes[|nodes| - 1];
      if last.List? { TextsNeverFail(last.items); }
    }
  }

  lemma {:induction false} TextsNeverFail(items: seq<Json>)
    ensures Texts(items, true).Some?
  {
    if items != [] { TextsNeverFail(items[..|items| - 1]); }
  }
}
