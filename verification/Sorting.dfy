/** Insertion into a sequence kept sorted by a path key, standing for the
    library sorts the source calls. The result is strictly sorted, so it does
    not depend on the order its elements arrive in. */
module Sorting {
  import opened Paths

  /** Strictly increasing keys: sorted, and no key twice. */
  predicate Strict<T(!new)>(o: Order, key: T -> Path, s: seq<T>) {
    forall i, j :: 0 <= i < j < |s| ==> Le(o, key(s[i]), key(s[j])) && key(s[i]) != key(s[j])
  }

  lemma HeadIn<T>(s: seq<T>)
    ensures s != [] ==> s[0] in s
  {
  }

  /** Two strictly sorted sequences with the same elements are the same sequence. */
  lemma {:induction false} StrictUnique<T(!new)>(o: Order, key: T -> Path, s: seq<T>, t: seq<T>)
    requires Strict(o, key, s) && Strict(o, key, t)
    requires forall x :: x in s <==> x in t
    ensures s == t
  {
    if s == [] || t == [] {
      HeadIn(s);
      HeadIn(t);
    } else {
      assert s[0] in t;
      var j :| 0 <= j < |t| && t[j] == s[0];
      assert t[0] in s;
      var i :| 0 <= i < |s| && s[i] == t[0];
      LeTotal(o, key(s[0]), key(t[0]));
      assert i == 0 && j == 0;
      forall x ensures x in s[1..] <==> x in t[1..] {
        assert s == [s[0]] + s[1..] && t == [t[0]] + t[1..];
        assert s[0] !in s[1..] && t[0] !in t[1..];
        assert x in s <==> x == s[0] || x in s[1..];
        assert x in t <==> x == t[0] || x in t[1..];
      }
      StrictUnique(o, key, s[1..], t[1..]);
      assert s == [s[0]] + s[1..] && t == [t[0]] + t[1..];
    }
  }

  /** Puts `x` where it belongs. */
  function Insert<T>(o: Order, key: T -> Path, x: T, s: seq<T>): seq<T> {
    if s == [] || !Le(o, key(s[0]), key(x)) then [x] + s
    else [s[0]] + Insert(o, key, x, s[1..])
  }

  lemma {:induction false} InsertSorts<T(!new)>(o: Order, key: T -> Path, x: T, s: seq<T>)
    requires Strict(o, key, s)
    requires forall y :: y in s ==> key(y) != key(x)
    ensures var r := Insert(o, key, x, s);
      Strict(o, key, r) && |r| == |s| + 1 && forall y :: y in r <==> y == x || y in s
  {
    if s != [] {
      assert s == [s[0]] + s[1..];
      if Le(o, key(s[0]), key(x)) {
        InsertSorts(o, key, x, s[1..]);
        var r := Insert(o, key, x, s[1..]);
        forall k | 0 <= k < |r| ensures Le(o, key(s[0]), key(r[k])) && key(s[0]) != key(r[k]) {
          assert r[k] in r;
          if r[k] != x {
            var i :| 0 <= i < |s[1..]| && s[1..][i] == r[k];
            assert s[i + 1] == r[k];
          }
        }
      } else {
        LeTotal(o, key(s[0]), key(x));
        forall k | 0 <= k < |s| ensures Le(o, key(x), key(s[k])) && key(x) != key(s[k]) {
          assert s[k] in s;
          if k > 0 { LeTransitive(o, key(x), key(s[0]), key(s[k])); }
        }
      }
    }
  }

  method Put<T(!new)>(o: Order, key: T -> Path, x: T, s: seq<T>) returns (r: seq<T>)
    requires Strict(o, key, s)
    requires forall y :: y in s ==> key(y) != key(x)
    ensures Strict(o, key, r) && |r| == |s| + 1
    ensures forall y :: y in r <==> y == x || y in s
  {
    InsertSorts(o, key, x, s);
    r := Insert(o, key, x, s);
  }

  /** Sorts elements whose keys are distinct. */
  method Sort<T(!new)>(o: Order, key: T -> Path, s: seq<T>) returns (r: seq<T>)
    requires forall i, j :: 0 <= i < j < |s| ==> key(s[i]) != key(s[j])
    ensures Strict(o, key, r)
    ensures forall y :: y in r <==> y in s
    ensures |r| == |s|
  {
    r := [];
    for i := 0 to |s|
      invariant Strict(o, key, r) && |r| == i
      invariant forall y :: y in r <==> y in s[..i]
    {
      assert forall y :: y in r ==> y in s[..i];
      r := Put(o, key, s[i], r);
      assert s[..i + 1] == s[..i] + [s[i]];
    }
    assert s[..|s|] == s;
  }

  function Self(p: Path): Path { p }

  /** The elements of a set in order. Which one a caller gets to see first when
      it goes through the set makes no difference to this. */
  ghost predicate IsSorted(s: seq<Path>, ps: set<Path>) {
    Strict(Lexical, Self, s) && forall p :: p in s <==> p in ps
  }

  lemma {:induction false} SortedExists(ps: set<Path>) returns (s: seq<Path>)
    ensures IsSorted(s, ps)
  {
    if ps == {} {
      s := [];
    } else {
      var p :| p in ps;
      s := SortedExists(ps - {p});
      InsertSorts(Lexical, Self, p, s);
      s := Insert(Lexical, Self, p, s);
    }
  }

  ghost function Ranked(ps: set<Path>): (s: seq<Path>)
    ensures IsSorted(s, ps)
  {
    assert exists s :: IsSorted(s, ps) by { var s := SortedExists(ps); }
    var s :| IsSorted(s, ps);
    s
  }

  /** Goes through the set in any order. */
  method SortSet(ps: set<Path>) returns (s: seq<Path>)
    ensures IsSorted(s, ps) && s == Ranked(ps)
  {
    s := [];
    var left := ps;
    while left != {}
      invariant left <= ps && IsSorted(s, ps - left)
    {
      var p :| p in left;
      s := Put(Lexical, Self, p, s);
      left := left - {p};
    }
    StrictUnique(Lexical, Self, s, Ranked(ps));
  }
}
