/** What a key of a JSON document selects, said node by node. */
module KeyMeaning {
  import opened Paths
  import opened Sorting
  import opened Filters
  import opened JsonKeys

  /** One segment leads from this node to that one: a field by its name, an item by
      its index, and with the wildcard any of them. */
  predicate StepsTo(atoi: Atoi, node: Json, segment: string, child: Json) {
    match node
    case Object(fields) =>
      if segment == "*" then child in fields.Values else segment in fields && fields[segment] == child
    case List(items) =>
      if segment == "*" then child in items
      else atoi(segment).Some? && 0 <= atoi(segment).value < |items| && items[atoi(segment).value] == child
    case _ => false
  }

  ghost predicate LeadsTo(atoi: Atoi, node: Json, path: seq<string>, target: Json)
    decreases |path|
  {
    if path == [] then node == target
    else exists child :: StepsTo(atoi, node, path[0], child) && LeadsTo(atoi, child, path[1..], target)
  }

  lemma {:induction false} ValuesMean(fields: map<string, Json>, names: seq<string>)
    requires forall x :: x in names ==> x in fields
    ensures |Values(fields, names)| == |names|
    ensures forall i :: 0 <= i < |names| ==> Values(fields, names)[i] == fields[names[i]]
  {
    if names != [] { ValuesMean(fields, names[1..]); }
  }

  /** A wildcard over an object goes through its fields in the order of their names,
      each once. */
  lemma WildcardInOrder(atoi: Atoi, fields: map<string, Json>, lenient: bool) returns (names: seq<string>)
    ensures forall i, j :: 0 <= i < j < |names| ==> names[i] != names[j] && Lex(names[i], names[j])
    ensures forall x :: x in names <==> x in fields
    ensures var r := Children(atoi, Object(fields), "*", lenient);
      r.Some? && |r.value| == |names| && forall i :: 0 <= i < |names| ==> r.value[i] == fields[names[i]]
  {
    names := Ranked(fields.Keys);
    ValuesMean(fields, names);
    forall i, j | 0 <= i < j < |names| ensures names[i] != names[j] && Lex(names[i], names[j]) {
      assert Self(names[i]) != Self(names[j]);
    }
  }

  lemma ChildrenMean(atoi: Atoi, node: Json, segment: string, lenient: bool, child: Json)
    ensures var r := Children(atoi, node, segment, lenient); r.Some? ==> (child in r.value <==> StepsTo(atoi, node, segment, child))
    ensures Children(atoi, node, segment, true).Some?
    ensures segment != "*" ==> (Children(atoi, node, segment, false).Some? <==> exists c :: StepsTo(atoi, node, segment, c))
  {
    match node
    case Object(fields) =>
      if segment == "*" {
        var names := WildcardInOrder(atoi, fields, lenient);
        if child in fields.Values {
          var x :| x in fields && fields[x] == child;
          assert x in names;
        }
      } else if segment in fields {
        assert StepsTo(atoi, node, segment, fields[segment]);
      }
    case List(items) =>
      if segment != "*" && atoi(segment).Some? && 0 <= atoi(segment).value < |items| {
        assert StepsTo(atoi, node, segment, items[atoi(segment).value]);
      }
    case _ =>
  }

  /** The nodes a key reaches are exactly those its path leads to. */
  lemma {:induction false} ReachMeans(atoi: Atoi, node: Json, path: seq<string>, lenient: bool, target: Json)
    ensures var r := Reach(atoi, node, path, lenient); r.Some? ==> (target in r.value <==> LeadsTo(atoi, node, path, target))
    decreases |path|, 0, 0
  {
    if path != [] {
      var next := Children(atoi, node, path[0], lenient);
      if next.Some? {
        forall c ensures c in next.value <==> StepsTo(atoi, node, path[0], c) { ChildrenMean(atoi, node, path[0], lenient, c); }
        ReachAllMeans(atoi, next.value, path[1..], lenient, target);
      }
    }
  }

  lemma {:induction false} ReachAllMeans(atoi: Atoi, nodes: seq<Json>, path: seq<string>, lenient: bool, target: Json)
    ensures var r := ReachAll(atoi, nodes, path, lenient);
      r.Some? ==> (target in r.value <==> exists n :: n in nodes && LeadsTo(atoi, n, path, target))
    decreases |path|, 1, |nodes|
  {
    if nodes != [] {
      ReachMeans(atoi, nodes[0], path, lenient, target);
      ReachAllMeans(atoi, nodes[1..], path, lenient, target);
      assert nodes == [nodes[0]] + nodes[1..];
    }
  }

  /** A key without a wildcard is an error if and only if it leads nowhere. */
  lemma {:induction false} StrictFailsExactly(atoi: Atoi, node: Json, path: seq<string>)
    requires "*" !in path
    ensures Reach(atoi, node, path, false).Some? <==> exists target :: LeadsTo(atoi, node, path, target)
    decreases |path|
  {
    if path == [] {
      assert LeadsTo(atoi, node, path, node);
    } else {
      var next := Children(atoi, node, path[0], false);
      ChildrenMean(atoi, node, path[0], false, node);
      if next.Some? {
        var c := next.value[0];
        assert next.value == [c];
        StrictFailsExactly(atoi, c, path[1..]);
        ChildrenMean(atoi, node, path[0], false, c);
        assert ReachAll(atoi, next.value, path[1..], false) == Both(Reach(atoi, c, path[1..], false), Some([]));
        if t :| LeadsTo(atoi, node, path, t) {
          var x :| StepsTo(atoi, node, path[0], x) && LeadsTo(atoi, x, path[1..], t);
          ChildrenMean(atoi, node, path[0], false, x);
          assert LeadsTo(atoi, c, path[1..], t);
        }
        if t :| LeadsTo(atoi, c, path[1..], t) {
          assert StepsTo(atoi, node, path[0], c);
          assert LeadsTo(atoi, node, path, t);
        }
      }
    }
  }

  // ---- the patterns --------------------------------------------------------

  /** The node is this text, or a list with this text in it. */
  predicate HoldsText(node: Json, x: string) {
    node == Text(x) || (node.List? && Text(x) in node.items)
  }

  /** The node is text or a list of nothing but text. */
  predicate AllText(node: Json) {
    node.Text? || (node.List? && forall i :: 0 <= i < |node.items| ==> node.items[i].Text?)
  }

  lemma {:induction false} TextsMean(items: seq<Json>, lenient: bool, x: string)
    ensures Texts(items, lenient).Some? <==> lenient || forall i :: 0 <= i < |items| ==> items[i].Text?
    ensures Texts(items, lenient).Some? ==> (x in Texts(items, lenient).value <==> Text(x) in items)
  {
    if items != [] {
      TextsMean(items[..|items| - 1], lenient, x);
      assert items == items[..|items| - 1] + [items[|items| - 1]];
    }
  }

  lemma PatternsOfMeans(node: Json, lenient: bool, x: string)
    ensures PatternsOf(node, lenient).Some? <==> lenient || AllText(node)
    ensures PatternsOf(node, lenient).Some? ==> (x in PatternsOf(node, lenient).value <==> HoldsText(node, x))
  {
    if node.List? { TextsMean(node.items, lenient, x); }
  }

  lemma {:induction false} CollectedMeans(nodes: seq<Json>, lenient: bool, x: string)
    ensures Collected(nodes, lenient).Some? <==> lenient || forall n :: n in nodes ==> AllText(n)
    ensures Collected(nodes, lenient).Some? ==> (x in Collected(nodes, lenient).value <==> exists n :: n in nodes && HoldsText(n, x))
  {
    if nodes != [] {
      var before, last := nodes[..|nodes| - 1], nodes[|nodes| - 1];
      CollectedMeans(before, lenient, x);
      PatternsOfMeans(last, lenient, x);
      assert nodes == before + [last];
      assert Collected(nodes, lenient) == Both(Collected(before, lenient), PatternsOf(last, lenient));
      assert forall n :: n in nodes <==> n in before || n == last;
    }
  }

  /** What a key selects: exactly the text of the nodes its path leads to. */
  lemma SelectedMeans(atoi: Atoi, root: Json, path: seq<string>, x: string)
    ensures var r := Selected(atoi, root, path);
      r.Some? ==> (x in r.value <==> exists n :: LeadsTo(atoi, root, path, n) && HoldsText(n, x))
  {
    var lenient := "*" in path;
    var nodes := Reach(atoi, root, path, lenient);
    if Selected(atoi, root, path).Some? {
      CollectedMeans(nodes.value, lenient, x);
      forall n ensures n in nodes.value <==> LeadsTo(atoi, root, path, n) { ReachMeans(atoi, root, path, lenient, n); }
    }
  }

  /** When a key is an error: it has an empty segment, or without a wildcard it leads
      nowhere or to a node that is not all text. */
  lemma SelectedFailsExactly(atoi: Atoi, root: Json, path: seq<string>)
    ensures Selected(atoi, root, path).None? <==>
      || "" in path
      || ("*" !in path && !exists n :: LeadsTo(atoi, root, path, n) && AllText(n))
  {
    if "*" in path {
      WildcardFailsOnlyOnEmpty(atoi, root, path);
    } else if "" !in path {
      StrictFailsExactly(atoi, root, path);
      StrictIsSingle(atoi, root, path);
      var nodes := Reach(atoi, root, path, false);
      if nodes.Some? {
        CollectedMeans(nodes.value, false, "");
        assert nodes.value == [nodes.value[0]];
        forall n ensures n in nodes.value <==> LeadsTo(atoi, root, path, n) { ReachMeans(atoi, root, path, false, n); }
        assert nodes.value[0] in nodes.value;
      }
    }
  }

  /** And all the keys together: the text that some key leads to. */
  lemma {:induction false} SelectedAllMeans(atoi: Atoi, root: Json, keys: seq<seq<string>>, x: string)
    ensures SelectedAll(atoi, root, keys).None? <==> exists k :: k in keys && Selected(atoi, root, k).None?
    ensures SelectedAll(atoi, root, keys).Some? ==>
      (x in SelectedAll(atoi, root, keys).value <==> exists k, n :: k in keys && LeadsTo(atoi, root, k, n) && HoldsText(n, x))
  {
    if keys != [] {
      var before, last := keys[..|keys| - 1], keys[|keys| - 1];
      SelectedAllMeans(atoi, root, before, x);
      SelectedMeans(atoi, root, last, x);
      assert keys == before + [last];
    }
  }
}
