/** Slash-separated relative paths, as the scanner, the differ and the filters
    address a tree: the ancestor relation, depth, and the lexical order that
    the differ sorts by. */
module Paths {

  type Path = string

  /** `a` is a proper ancestor directory of `p`: `p` continues with a slash. */
  predicate IsAncestor(a: Path, p: Path) {
    |a| < |p| && p[|a|] == '/' && a == p[..|a|]
  }

  lemma AncestorTransitive(a: Path, b: Path, c: Path)
    requires IsAncestor(a, b) && IsAncestor(b, c)
    ensures IsAncestor(a, c)
  {
    assert c[..|a|] == b[..|a|];
  }

  /** The number of separators, which is what the differ sorts by. */
  function Depth(p: Path): nat {
    if p == "" then 0
    else Depth(p[..|p| - 1]) + if p[|p| - 1] == '/' then 1 else 0
  }

  lemma {:induction false} PrefixDepth(p: Path, n: nat)
    requires n <= |p|
    ensures Depth(p[..n]) <= Depth(p)
    decreases |p|
  {
    if n == |p| {
      assert p[..n] == p;
    } else {
      var q := p[..|p| - 1];
      PrefixDepth(q, n);
      assert q[..n] == p[..n];
    }
  }

  /** An ancestor is strictly shallower. */
  lemma AncestorDepth(a: Path, p: Path)
    requires IsAncestor(a, p)
    ensures Depth(a) < Depth(p)
  {
    var up := p[..|a| + 1];
    PrefixDepth(p, |a| + 1);
    assert up[..|up| - 1] == a;
    assert Depth(up) == Depth(a) + 1;
  }

  /** The ancestors of a path, as a set. */
  function AncestorSet(p: Path): (s: set<Path>)
    ensures forall a :: a in s <==> IsAncestor(a, p)
  {
    var s := set i | 0 <= i < |p| && p[i] == '/' :: p[..i];
    assert forall a :: IsAncestor(a, p) ==> a == p[..|a|];
    s
  }

  /** The parent directories of a path, shallowest first. */
  method Ancestors(p: Path) returns (out: seq<Path>)
    ensures forall a :: a in out <==> IsAncestor(a, p)
    ensures forall i, j :: 0 <= i < j < |out| ==> IsAncestor(out[i], out[j])
  {
    out := [];
    for i := 0 to |p|
      invariant forall a :: a in out <==> IsAncestor(a, p) && |a| < i
      invariant forall k, l :: 0 <= k < l < |out| ==> IsAncestor(out[k], out[l])
    {
      if p[i] == '/' {
        forall k | 0 <= k < |out| ensures IsAncestor(out[k], p[..i]) {
          assert out[k] in out;
          assert p[..i][..|out[k]|] == p[..|out[k]|];
        }
        out := out + [p[..i]];
      }
    }
  }

  /** Byte-wise string order, the order of `sort.Strings`. */
  predicate Lex(a: Path, b: Path) {
    a == "" || (b != "" && (a[0] < b[0] || (a[0] == b[0] && Lex(a[1..], b[1..]))))
  }

  lemma {:induction false} LexTotal(a: Path, b: Path)
    ensures Lex(a, b) || Lex(b, a)
    ensures Lex(a, b) && Lex(b, a) ==> a == b
  {
    if a != "" && b != "" && a[0] == b[0] {
      LexTotal(a[1..], b[1..]);
      assert a == [a[0]] + a[1..] && b == [b[0]] + b[1..];
    }
  }

  lemma {:induction false} LexTransitive(a: Path, b: Path, c: Path)
    requires Lex(a, b) && Lex(b, c)
    ensures Lex(a, c)
  {
    if a != "" && a[0] == b[0] == c[0] {
      LexTransitive(a[1..], b[1..], c[1..]);
    }
  }

  /** The three orders a stage of a plan may be sorted in. */
  datatype Order = ShallowFirst | DeepFirst | Lexical

  /** `a` comes no later than `b`. */
  predicate Le(o: Order, a: Path, b: Path) {
    match o
    case ShallowFirst => Depth(a) < Depth(b) || (Depth(a) == Depth(b) && Lex(a, b))
    case DeepFirst => Depth(a) > Depth(b) || (Depth(a) == Depth(b) && Lex(a, b))
    case Lexical => Lex(a, b)
  }

  lemma LeTotal(o: Order, a: Path, b: Path)
    ensures Le(o, a, b) || Le(o, b, a)
    ensures Le(o, a, b) && Le(o, b, a) ==> a == b
  {
    LexTotal(a, b);
  }

  lemma LeTransitive(o: Order, a: Path, b: Path, c: Path)
    requires Le(o, a, b) && Le(o, b, c)
    ensures Le(o, a, c)
  {
    if Lex(a, b) && Lex(b, c) {
      LexTransitive(a, b, c);
    }
  }
}
