/** The limiter on failed hook calls: a bounded memory of recent failures that
    agrees with the full record of them. */
module Limiter {

  const WINDOW: int := 300_000_000_000
  const MAX_FAILURES: nat := 20
  const MAX_ADDRS: nat := 4096

  /** The times after a cutoff. */
  function After(ts: seq<int>, cutoff: int): seq<int> {
    if ts == [] then []
    else After(ts[..|ts| - 1], cutoff) + if ts[|ts| - 1] > cutoff then [ts[|ts| - 1]] else []
  }

  function Get(m: map<string, seq<int>>, addr: string): seq<int> {
    if addr in m then m[addr] else []
  }

  /** Times in the order they were noted, none of them yet to come. */
  predicate Ordered(ts: seq<int>, clock: int) {
    (forall i, j :: 0 <= i < j < |ts| ==> ts[i] <= ts[j]) && forall i :: 0 <= i < |ts| ==> ts[i] <= clock
  }

  lemma {:induction false} AfterNone(ts: seq<int>, cutoff: int)
    requires forall i :: 0 <= i < |ts| ==> ts[i] <= cutoff
    ensures After(ts, cutoff) == []
  {
    if ts != [] { AfterNone(ts[..|ts| - 1], cutoff); }
  }

  /** Of times in order, those after a cutoff are the last ones. */
  lemma {:induction false} AfterIsSuffix(ts: seq<int>, cutoff: int, clock: int)
    requires Ordered(ts, clock)
    ensures IsSuffix(After(ts, cutoff), ts)
    ensures forall i :: 0 <= i < |ts| - |After(ts, cutoff)| ==> ts[i] <= cutoff
    ensures forall i :: 0 <= i < |After(ts, cutoff)| ==> cutoff < After(ts, cutoff)[i]
  {
    if ts != [] {
      var init, last := ts[..|ts| - 1], ts[|ts| - 1];
      if last > cutoff {
        AfterIsSuffix(init, cutoff, clock);
      } else {
        AfterNone(ts, cutoff);
      }
    }
  }

  /** Dropping leading times loses only those among them that are after the cutoff. */
  lemma {:induction false} AfterOfSuffix(f: seq<int>, h: seq<int>, cutoff: int)
    requires IsSuffix(f, h)
    ensures |After(f, cutoff)| <= |After(h, cutoff)|
    ensures (forall i :: 0 <= i < |h| - |f| ==> h[i] <= cutoff) ==> After(f, cutoff) == After(h, cutoff)
  {
    if f == [] {
      if forall i :: 0 <= i < |h| ==> h[i] <= cutoff { AfterNone(h, cutoff); }
    } else {
      assert f[|f| - 1] == h[|h| - 1];
      AfterOfSuffix(f[..|f| - 1], h[..|h| - 1], cutoff);
    }
  }

  predicate IsSuffix(f: seq<int>, h: seq<int>) {
    |f| <= |h| && f == h[|h| - |f|..]
  }

  // ---- what is remembered, and what was recorded --------------------------

  /** What is remembered of one address is the end of what was recorded, and
      unless the address was evicted early only expired failures are missing. */
  predicate Agrees(f: seq<int>, h: seq<int>, exact: bool, clock: int) {
    && Ordered(h, clock)
    && IsSuffix(f, h)
    && (exact ==> forall i :: 0 <= i < |h| - |f| ==> h[i] <= clock - WINDOW)
  }

  lemma PruneAgrees(f: seq<int>, h: seq<int>, exact: bool, clock: int, now: int)
    requires Agrees(f, h, exact, clock) && now >= clock
    ensures Agrees(After(f, now - WINDOW), h, exact, now)
  {
    var g := After(f, now - WINDOW);
    AfterIsSuffix(f, now - WINDOW, clock);
    assert forall i :: 0 <= i < |f| ==> f[i] == h[|h| - |f| + i];
    forall i | exact && 0 <= i < |h| - |g| ensures h[i] <= now - WINDOW {
      if i >= |h| - |f| { assert h[i] == f[i - (|h| - |f|)]; }
    }
  }

  lemma RecordAgrees(f: seq<int>, h: seq<int>, exact: bool, clock: int, now: int)
    requires Agrees(f, h, exact, clock) && now >= clock
    ensures Agrees(f + [now], h + [now], exact, now)
  {
  }

  /** Forgetting an address is harmless once its last failure has expired;
      before that it costs exactness. */
  lemma ForgetAgrees(f: seq<int>, h: seq<int>, exact: bool, clock: int)
    requires Agrees(f, h, exact, clock) && f != []
    ensures Agrees([], h, exact && f[|f| - 1] <= clock - WINDOW, clock)
  {
    assert f[|f| - 1] == h[|h| - 1];
  }

  ghost predicate Faithful(failures: map<string, seq<int>>, history: map<string, seq<int>>, lost: set<string>, clock: int) {
    && (forall a :: a in failures ==> failures[a] != [])
    && (forall a :: Agrees(Get(failures, a), Get(history, a), a !in lost, clock))
  }

  lemma LaterFaithful(f: map<string, seq<int>>, h: map<string, seq<int>>, lost: set<string>, clock: int, now: int)
    requires Faithful(f, h, lost, clock) && now >= clock
    ensures Faithful(f, h, lost, now)
  {
    forall a ensures Agrees(Get(f, a), Get(h, a), a !in lost, now) {
      assert Agrees(Get(f, a), Get(h, a), a !in lost, clock);
    }
  }

  /** Changing what is remembered and recorded of one address. */
  lemma ChangeFaithful(f: map<string, seq<int>>, h: map<string, seq<int>>, lost: set<string>, clock: int, now: int,
                       addr: string, g: map<string, seq<int>>, k: map<string, seq<int>>, gone: set<string>)
    requires Faithful(f, h, lost, clock) && now >= clock
    requires forall a :: a in g ==> g[a] != []
    requires forall a :: a != addr ==> Get(g, a) == Get(f, a) && Get(k, a) == Get(h, a) && (a in gone <==> a in lost)
    requires Agrees(Get(g, addr), Get(k, addr), addr !in gone, now)
    ensures Faithful(g, k, gone, now)
  {
    LaterFaithful(f, h, lost, clock, now);
    forall a ensures Agrees(Get(g, a), Get(k, a), a !in gone, now) {
      if a != addr { assert Agrees(Get(f, a), Get(h, a), a !in lost, now); }
    }
  }

  lemma PruneFaithful(f: map<string, seq<int>>, h: map<string, seq<int>>, lost: set<string>, clock: int,
                      addr: string, now: int, g: map<string, seq<int>>)
    requires Faithful(f, h, lost, clock) && now >= clock
    requires var kept := After(Get(f, addr), now - WINDOW); g == if kept == [] then f - {addr} else f[addr := kept]
    ensures Faithful(g, h, lost, now)
  {
    assert Agrees(Get(f, addr), Get(h, addr), addr !in lost, clock);
    PruneAgrees(Get(f, addr), Get(h, addr), addr !in lost, clock, now);
    assert Get(g, addr) == After(Get(f, addr), now - WINDOW);
    ChangeFaithful(f, h, lost, clock, now, addr, g, h, lost);
  }

  lemma RecordFaithful(f: map<string, seq<int>>, h: map<string, seq<int>>, lost: set<string>, clock: int,
                       addr: string, now: int, g: map<string, seq<int>>, k: map<string, seq<int>>)
    requires Faithful(f, h, lost, clock) && now >= clock
    requires g == f[addr := Get(f, addr) + [now]] && k == h[addr := Get(h, addr) + [now]]
    ensures Faithful(g, k, lost, now)
  {
    assert Agrees(Get(f, addr), Get(h, addr), addr !in lost, clock);
    RecordAgrees(Get(f, addr), Get(h, addr), addr !in lost, clock, now);
    forall a | a in g ensures g[a] != [] {
      assert a == addr || g[a] == f[a];
    }
    assert Agrees(Get(g, addr), Get(k, addr), addr !in lost, now);
    ChangeFaithful(f, h, lost, clock, now, addr, g, k, lost);
  }

  /** Forgetting addresses that have expired, or that are noted as lost. */
  lemma ShrinkFaithful(f: map<string, seq<int>>, h: map<string, seq<int>>, lost: set<string>, clock: int,
                       g: map<string, seq<int>>, gone: set<string>)
    requires Faithful(f, h, lost, clock) && Kept(f, g) && lost <= gone
    requires forall a :: a in f && a !in g ==> a in gone || LastOf(f, a) <= clock - WINDOW
    ensures Faithful(g, h, gone, clock)
  {
    forall a | a in g ensures g[a] != [] {
      assert a in f;
    }
    forall a ensures Agrees(Get(g, a), Get(h, a), a !in gone, clock) {
      assert Agrees(Get(f, a), Get(h, a), a !in lost, clock);
      if a in f && a !in g { ForgetAgrees(f[a], Get(h, a), a !in lost, clock); }
    }
  }

  /** The second map is what is left of the first. */
  ghost predicate Kept(f: map<string, seq<int>>, g: map<string, seq<int>>) {
    (forall a :: a in f ==> f[a] != []) && forall a :: a in g ==> a in f && g[a] == f[a]
  }

  /** What is left of an address after pruning counts no more than the record
      of the window, and exactly as much if it was never evicted early. */
  lemma BlockedMeaning(f: map<string, seq<int>>, h: map<string, seq<int>>, lost: set<string>, clock: int,
                       addr: string, now: int)
    requires Faithful(f, h, lost, clock) && now >= clock
    ensures var cut := now - WINDOW;
      && |After(Get(f, addr), cut)| <= |After(Get(h, addr), cut)|
      && (addr !in lost ==> After(Get(f, addr), cut) == After(Get(h, addr), cut))
  {
    assert Agrees(Get(f, addr), Get(h, addr), addr !in lost, clock);
    AfterOfSuffix(Get(f, addr), Get(h, addr), now - WINDOW);
  }

  function LastOf(f: map<string, seq<int>>, addr: string): int
    requires addr in f && f[addr] != []
  {
    f[addr][|f[addr]| - 1]
  }

  method Filter(ts: seq<int>, cutoff: int) returns (kept: seq<int>)
    ensures kept == After(ts, cutoff)
  {
    kept := [];
    for i := 0 to |ts|
      invariant kept == After(ts[..i], cutoff)
    {
      assert ts[..i + 1][..i] == ts[..i];
      if ts[i] > cutoff { kept := kept + [ts[i]]; }
    }
    assert ts[..|ts|] == ts;
  }

  class HookLimiter {
    var failures: map<string, seq<int>>
    ghost var history: map<string, seq<int>>
    ghost var lost: set<string>
    ghost var clock: int

    ghost predicate Valid()
      reads this
    {
      Faithful(failures, history, lost, clock)
    }

    constructor (now: int)
      ensures Valid() && failures == map[] && history == map[] && lost == {} && clock == now
    {
      failures, history, lost, clock := map[], map[], {}, now;
    }

    /** Drops the expired failures of one address. */
    method Prune(addr: string, now: int) returns (kept: seq<int>)
      requires Valid() && now >= clock
      modifies this`failures, this`clock
      ensures Valid() && clock == now
      ensures kept == After(Get(old(failures), addr), now - WINDOW) == Get(failures, addr)
      ensures failures.Keys <= old(failures).Keys
      ensures forall a :: a != addr ==> Get(failures, a) == Get(old(failures), a)
    {
      kept := Filter(if addr in failures then failures[addr] else [], now - WINDOW);
      ghost var before := failures;
      if kept == [] {
        failures := failures - {addr};
      } else {
        failures := failures[addr := kept];
      }
      PruneFaithful(before, history, lost, clock, addr, now, failures);
      clock := now;
    }

    /** Whether the address has failed too often lately: never on fewer failures
        than were really recorded, and exactly on the record for an address
        that was never evicted early. */
    method Blocked(addr: string, now: int) returns (b: bool)
      requires Valid() && now >= clock
      modifies this`failures, this`clock
      ensures Valid() && clock == now
      ensures var recent := After(Get(history, addr), now - 300_000_000_000);
        (b ==> |recent| >= 20) && (addr !in lost ==> (b <==> |recent| >= 20))
    {
      var kept := Prune(addr, now);
      BlockedMeaning(old(failures), history, lost, old(clock), addr, now);
      return |kept| >= MAX_FAILURES;
    }

    /** Notes a failure. The clock is read once to prune, once for the note and
        once to sweep. Whichever addresses this forgets early, their last
        recorded failure is no newer than that of any address remembered. */
    method Record(addr: string, now: int, noted: int, swept: int)
      requires Valid() && clock <= now <= noted <= swept
      modifies this
      ensures Valid() && noted <= clock <= swept
      ensures history == old(history)[addr := Get(old(history), addr) + [noted]]
      ensures |failures| <= 4096
      ensures old(lost) <= lost
      ensures forall a, b :: a in lost && a !in old(lost) && b in failures ==>
        a !in failures && a in history && history[a] != [] && b in history && history[b] != [] &&
        LastOf(history, a) <= LastOf(history, b)
      ensures forall a :: a in lost && a !in old(lost) ==>
        a in history && history[a] != [] && LastOf(history, a) > clock - 300_000_000_000 && |failures| == 4096
    {
      var kept := Prune(addr, now);
      ghost var f, h := failures, history;
      failures := failures[addr := kept + [noted]];
      history := history[addr := Get(history, addr) + [noted]];
      RecordFaithful(f, h, lost, clock, addr, noted, failures, history);
      clock := noted;
      if |failures| > MAX_ADDRS {
        f := failures;
        Sweep(swept);
        LastsAreRecorded(f, history, old(lost), noted);
        LastsAreRecorded(failures, history, lost, clock);
      }
    }

    /** Bounds the memory: expired addresses go first, then the oldest. Whatever
        is evicted while still live is no newer than anything that is kept. */
    method Sweep(now: int)
      requires Valid() && now >= clock
      modifies this`failures, this`lost, this`clock
      ensures Valid() && clock == now
      ensures |failures| <= MAX_ADDRS
      ensures Kept(old(failures), failures)
      ensures Evicted(old(failures), failures, old(lost), lost, now - WINDOW)
    {
      LaterFaithful(failures, history, lost, clock, now);
      clock := now;
      ghost var f, was := failures, lost;
      failures := Bound(failures, now);
      lost := lost + set a | a in f && a !in failures && LastOf(f, a) > now - WINDOW;
      ShrinkFaithful(f, history, was, clock, failures, lost);
    }
  }

  /** What a sweep forgets was expired or is noted as lost, and what it notes as
      lost was live, no newer than anything kept, and over the ceiling. */
  ghost predicate Evicted(f: map<string, seq<int>>, g: map<string, seq<int>>, lost: set<string>, gone: set<string>, cutoff: int)
    requires Kept(f, g)
  {
    && lost <= gone
    && (forall a :: a in f && a !in g ==> a in gone || LastOf(f, a) <= cutoff)
    && (forall a :: a in gone && a !in lost ==> a in f && a !in g && cutoff < LastOf(f, a) && |g| == MAX_ADDRS)
    && (forall a, b :: a in gone && a !in lost && b in g ==> LastOf(f, a) <= LastOf(f, b))
  }

  /** The last failure remembered of an address is the last recorded. */
  lemma LastsAreRecorded(f: map<string, seq<int>>, h: map<string, seq<int>>, lost: set<string>, clock: int)
    requires Faithful(f, h, lost, clock)
    ensures forall a :: a in f ==> a in h && h[a] != [] && LastOf(f, a) == LastOf(h, a)
  {
    forall a | a in f ensures a in h && h[a] != [] && LastOf(f, a) == LastOf(h, a) {
      assert Agrees(Get(f, a), Get(h, a), a !in lost, clock);
    }
  }

  /** The two passes of a sweep. */
  method Bound(f: map<string, seq<int>>, now: int) returns (g: map<string, seq<int>>)
    requires forall a :: a in f ==> f[a] != []
    ensures Kept(f, g) && |g| <= MAX_ADDRS
    ensures forall a, b :: a in f && a !in g && LastOf(f, a) > now - WINDOW && b in g ==> LastOf(f, a) <= LastOf(f, b)
    ensures forall a :: a in f && a !in g && LastOf(f, a) > now - WINDOW ==> |g| == MAX_ADDRS
  {
    g := Expire(f, now);
    if |g| > MAX_ADDRS {
      ghost var live := g;
      var all := ByAge(g);
      g := Evict(g, all, |all| - MAX_ADDRS);
      assert forall a :: a in f && a !in g && LastOf(f, a) > now - WINDOW ==> a in live && LastOf(live, a) == LastOf(f, a);
    }
  }

  /** Forgets every address whose last failure has expired, in any order. */
  method Expire(f: map<string, seq<int>>, now: int) returns (g: map<string, seq<int>>)
    requires forall a :: a in f ==> f[a] != []
    ensures Kept(f, g)
    ensures forall a :: a in f ==> (a in g <==> now - WINDOW < LastOf(f, a))
  {
    g := f;
    var left := f.Keys;
    while left != {}
      invariant left <= g.Keys && Kept(f, g)
      invariant forall a :: a in f && a !in left ==> (a in g <==> now - WINDOW < LastOf(f, a))
    {
      var a :| a in left;
      left := left - {a};
      if g[a][|g[a]| - 1] <= now - WINDOW {
        g := g - {a};
      }
    }
  }

  /** Evicts the first of a list of all addresses by age. */
  method Evict(f: map<string, seq<int>>, all: seq<string>, n: nat) returns (g: map<string, seq<int>>)
    requires n <= |all| == |f| && IsByAge(f, all) && forall a :: a in all <==> a in f
    ensures Kept(f, g) && |g| == |f| - n
    ensures forall a, b :: a in f && a !in g && b in g ==> LastOf(f, a) <= LastOf(f, b)
  {
    assert forall a :: a in f ==> a in all;
    g := f;
    for i := 0 to n
      invariant Kept(f, g) && |g| == |f| - i
      invariant forall k :: 0 <= k < |all| ==> (all[k] in g <==> k >= i)
    {
      g := g - {all[i]};
    }
  }

  /** Every address once, the one that failed longest ago first. */
  method ByAge(f: map<string, seq<int>>) returns (all: seq<string>)
    requires forall a :: a in f ==> f[a] != []
    ensures |all| == |f| && IsByAge(f, all) && forall a :: a in all <==> a in f
  {
    all := [];
    var left := f.Keys;
    while left != {}
      invariant left <= f.Keys && |all| + |left| == |f|
      invariant forall a :: a in all <==> a in f && a !in left
      invariant IsByAge(f, all)
    {
      var a :| a in left;
      all := Place(f, all, a);
      left := left - {a};
    }
  }

  /** Distinct addresses, the one that failed longest ago first. */
  predicate IsByAge(f: map<string, seq<int>>, all: seq<string>) {
    && (forall i :: 0 <= i < |all| ==> all[i] in f && f[all[i]] != [])
    && forall i, j :: 0 <= i < j < |all| ==> all[i] != all[j] && LastOf(f, all[i]) <= LastOf(f, all[j])
  }

  method Place(f: map<string, seq<int>>, all: seq<string>, a: string) returns (r: seq<string>)
    requires IsByAge(f, all) && a !in all && a in f && f[a] != []
    ensures IsByAge(f, r) && |r| == |all| + 1 && forall x :: x in r <==> x == a || x in all
  {
    var i := 0;
    while i < |all| && LastOf(f, all[i]) <= LastOf(f, a)
      invariant 0 <= i <= |all|
      invariant forall k :: 0 <= k < i ==> LastOf(f, all[k]) <= LastOf(f, a)
    {
      i := i + 1;
    }
    r := all[..i] + [a] + all[i..];
    Placed(f, all, a, i, r);
    assert all == all[..i] + all[i..];
  }

  lemma Placed(f: map<string, seq<int>>, all: seq<string>, a: string, i: nat, r: seq<string>)
    requires IsByAge(f, all) && a !in all && a in f && f[a] != [] && i <= |all| && r == all[..i] + [a] + all[i..]
    requires forall k :: 0 <= k < i ==> LastOf(f, all[k]) <= LastOf(f, a)
    requires i < |all| ==> LastOf(f, a) <= LastOf(f, all[i])
    ensures IsByAge(f, r)
  {
    forall k | 0 <= k < |all| ensures all[k] != a && (k >= i ==> LastOf(f, a) <= LastOf(f, all[k])) {
      assert all[k] in all;
    }
    assert forall k :: 0 <= k < |r| ==> r[k] == if k < i then all[k] else if k == i then a else all[k - 1];
  }
}
