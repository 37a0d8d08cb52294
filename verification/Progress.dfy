/** The progress tracker: byte counters that clamp at zero, fed by many copies
    at once. */
module Progress {
  import opened Retry

  datatype FileState = FileState(total: int, done: int)

  datatype View = View(bytesDone: int, filesDone: nat, filesFailed: nat, inFlight: map<string, FileState>)

  datatype Event =
    | Started(path: string, size: int)
    | Moved(path: string, n: int)
    | Finished(path: string, ok: bool)

  function AtLeastZero(n: int): int {
    if n < 0 then 0 else n
  }

  function Apply(v: View, e: Event): View {
    match e
    case Started(path, size) => v.(inFlight := v.inFlight[path := FileState(size, 0)])
    case Moved(path, n) =>
      var w := v.(bytesDone := AtLeastZero(v.bytesDone + n));
      if path in v.inFlight
      then w.(inFlight := v.inFlight[path := v.inFlight[path].(done := AtLeastZero(v.inFlight[path].done + n))])
      else w
    case Finished(path, ok) =>
      var w := v.(inFlight := v.inFlight - {path});
      if ok then w.(filesDone := v.filesDone + 1) else w.(filesFailed := v.filesFailed + 1)
  }

  function Play(events: seq<Event>): View {
    if events == [] then View(0, 0, 0, map[]) else Apply(Play(events[..|events| - 1]), events[|events| - 1])
  }

  class Tracker {
    var bytesDone: int
    var filesDone: nat
    var filesFailed: nat
    var inFlight: map<string, FileState>
    ghost var events: seq<Event>

    ghost predicate Valid()
      reads this
    {
      Play(events) == View(bytesDone, filesDone, filesFailed, inFlight)
    }

    constructor ()
      ensures Valid() && events == []
    {
      bytesDone, filesDone, filesFailed, inFlight, events := 0, 0, 0, map[], [];
    }

    method StartFile(path: string, size: int)
      requires Valid()
      modifies this
      ensures Valid() && events == old(events) + [Started(path, size)]
    {
      inFlight := inFlight[path := FileState(size, 0)];
      events := events + [Started(path, size)];
    }

    method AddFileBytes(path: string, n: int)
      requires Valid()
      modifies this
      ensures Valid() && events == old(events) + [Moved(path, n)]
    {
      bytesDone := bytesDone + n;
      if bytesDone < 0 { bytesDone := 0; }
      if path in inFlight {
        var done := inFlight[path].done + n;
        if done < 0 { done := 0; }
        inFlight := inFlight[path := inFlight[path].(done := done)];
      }
      events := events + [Moved(path, n)];
    }

    method FinishFile(path: string, ok: bool)
      requires Valid()
      modifies this
      ensures Valid() && events == old(events) + [Finished(path, ok)]
    {
      inFlight := inFlight - {path};
      if ok { filesDone := filesDone + 1; } else { filesFailed := filesFailed + 1; }
      events := events + [Finished(path, ok)];
    }
  }

  // ---- what each file reported --------------------------------------------

  /** What one file's copy reported, in order. */
  function Stream(events: seq<Event>, path: string): seq<int> {
    if events == [] then []
    else
      var e, rest := events[|events| - 1], Stream(events[..|events| - 1], path);
      if e.Moved? && e.path == path then rest + [e.n] else rest
  }

  /** All that was reported. */
  function All(events: seq<Event>): int {
    if events == [] then 0
    else
      var e := events[|events| - 1];
      All(events[..|events| - 1]) + if e.Moved? then e.n else 0
  }

  function Without(events: seq<Event>, path: string): seq<Event> {
    if events == [] then []
    else
      var e, rest := events[|events| - 1], Without(events[..|events| - 1], path);
      if e.path == path then rest else rest + [e]
  }

  /** Every file's own reports never drop below zero, and start after the file does. */
  ghost predicate Proper(events: seq<Event>) {
    && (forall path :: NeverBelow(Stream(events, path)))
    && forall i :: 0 <= i < |events| && events[i].Started? ==> Stream(events[..i], events[i].path) == []
  }

  lemma StreamSnoc(events: seq<Event>, e: Event, path: string)
    ensures Stream(events + [e], path) == if e.Moved? && e.path == path then Stream(events, path) + [e.n] else Stream(events, path)
    ensures All(events + [e]) == All(events) + if e.Moved? then e.n else 0
  {
    assert (events + [e])[..|events|] == events;
  }

  /** Setting one file's events aside takes away its reports and nothing else. */
  lemma {:induction false} SetAside(events: seq<Event>, path: string)
    ensures All(events) == Sum(Stream(events, path)) + All(Without(events, path))
    ensures |Without(events, path)| <= |events|
    ensures events != [] && events[|events| - 1].path == path ==> |Without(events, path)| < |events|
  {
    if events != [] {
      var before, e := events[..|events| - 1], events[|events| - 1];
      SetAside(before, path);
      if e.path != path {
        StreamSnoc(Without(before, path), e, path);
      } else if e.Moved? {
        SumSnoc(Stream(before, path), e.n);
      }
    }
  }

  lemma {:induction false} OthersStay(events: seq<Event>, path: string, other: string)
    ensures Stream(Without(events, path), other) == if other == path then [] else Stream(events, other)
  {
    if events != [] {
      var before, e := events[..|events| - 1], events[|events| - 1];
      OthersStay(before, path, other);
      if e.path != path { StreamSnoc(Without(before, path), e, other); }
    }
  }

  /** If no file's reports add up to less than zero then neither do all of them. */
  lemma {:induction false} AllAtLeastZero(events: seq<Event>)
    requires forall path :: 0 <= Sum(Stream(events, path))
    ensures 0 <= All(events)
    decreases |events|
  {
    if events != [] {
      var path := events[|events| - 1].path;
      SetAside(events, path);
      forall other ensures 0 <= Sum(Stream(Without(events, path), other)) {
        assert 0 <= Sum(Stream(events, other));
        OthersStay(events, path, other);
      }
      assert 0 <= Sum(Stream(events, path));
      AllAtLeastZero(Without(events, path));
    }
  }

  lemma ProperBefore(events: seq<Event>)
    requires Proper(events) && events != []
    ensures Proper(events[..|events| - 1])
  {
    var before := events[..|events| - 1];
    forall path ensures NeverBelow(Stream(before, path)) {
      assert NeverBelow(Stream(events, path));
    }
    forall i | 0 <= i < |before| && before[i].Started? ensures Stream(before[..i], before[i].path) == [] {
      assert before[..i] == events[..i] && before[i] == events[i];
    }
  }

  lemma ProperSums(events: seq<Event>)
    requires Proper(events)
    ensures forall path :: 0 <= Sum(Stream(events, path))
  {
    forall path ensures 0 <= Sum(Stream(events, path)) {
      assert NeverBelow(Stream(events, path));
    }
  }

  /** The counters are what was reported, with nothing lost to a clamp. */
  predicate Unclamped(v: View, events: seq<Event>) {
    && v.bytesDone == All(events)
    && forall path :: path in v.inFlight ==> v.inFlight[path].done == Sum(Stream(events, path))
  }

  lemma UnclampedStep(v: View, before: seq<Event>, e: Event, events: seq<Event>)
    requires Unclamped(v, before) && events == before + [e]
    requires 0 <= All(events) && 0 <= Sum(Stream(events, e.path))
    requires e.Started? ==> Stream(before, e.path) == []
    ensures Unclamped(Apply(v, e), events)
  {
    var w := Apply(v, e);
    StreamSnoc(before, e, e.path);
    if e.Moved? { SumSnoc(Stream(before, e.path), e.n); }
    forall path | path in w.inFlight ensures w.inFlight[path].done == Sum(Stream(events, path)) {
      StreamSnoc(before, e, path);
      if path != e.path || e.Moved? { assert path in v.inFlight && v.inFlight[path].done == Sum(Stream(before, path)); }
    }
  }

  /** However the copies' reports interleave, no clamp ever fires: the total is
      what was reported in all, and each file in flight has its own reports. */
  lemma {:induction false} ClampsNeverFire(events: seq<Event>)
    requires Proper(events)
    ensures Unclamped(Play(events), events)
  {
    if events != [] {
      var before, e := events[..|events| - 1], events[|events| - 1];
      assert events == before + [e];
      ProperBefore(events);
      ClampsNeverFire(before);
      ProperSums(events);
      AllAtLeastZero(events);
      UnclampedStep(Play(before), before, e, events);
    }
  }

  /** How many files ended so. */
  function Ended(events: seq<Event>, ok: bool): nat {
    if events == [] then 0
    else
      var e := events[|events| - 1];
      Ended(events[..|events| - 1], ok) + if e.Finished? && e.ok == ok then 1 else 0
  }

  /** Started, and not finished since. */
  predicate UnderWay(events: seq<Event>, path: string) {
    events != [] &&
      var e := events[|events| - 1];
      if e.path == path && e.Started? then true
      else if e.path == path && e.Finished? then false
      else UnderWay(events[..|events| - 1], path)
  }

  /** The counts of files are those of the files that ended well and badly, and the
      files in flight those that are under way. */
  lemma {:induction false} FilesAreCounted(events: seq<Event>)
    ensures Play(events).filesDone == Ended(events, true) && Play(events).filesFailed == Ended(events, false)
    ensures forall path :: path in Play(events).inFlight <==> UnderWay(events, path)
  {
    if events != [] { FilesAreCounted(events[..|events| - 1]); }
  }

  // ---- and when they do ----------------------------------------------------

  /** How far below zero the plain total has ever been. */
  function DeepestDip(events: seq<Event>): (d: nat)
    ensures -All(events) <= d
  {
    if events == [] then 0
    else
      var before := DeepestDip(events[..|events| - 1]);
      if before < -All(events) then -All(events) else before
  }

  predicate NeverDips(events: seq<Event>) {
    events == [] || (0 <= All(events) && NeverDips(events[..|events| - 1]))
  }

  /** Whatever is reported, in whatever order, the total shown is the plain total
      and the deepest dip on top, for good; so the clamp has cost nothing if
      and only if the plain total never dipped. */
  lemma {:induction false} ClampCostsExactly(events: seq<Event>)
    ensures Play(events).bytesDone == All(events) + DeepestDip(events)
    ensures DeepestDip(events) == 0 <==> NeverDips(events)
  {
    if events != [] {
      ClampCostsExactly(events[..|events| - 1]);
    }
  }

  /** What a chunk taken back before it was reported does: five bytes that nobody
      copied stay in the total. */
  lemma PhantomBytes(path: string)
    ensures Stream([Started(path, 5), Moved(path, -5), Moved(path, 5)], path) == [-5, 5]
    ensures Play([Started(path, 5), Moved(path, -5), Moved(path, 5)]).bytesDone == 5
  {
    var one, two := [Started(path, 5)], [Started(path, 5), Moved(path, -5)];
    var all := [Started(path, 5), Moved(path, -5), Moved(path, 5)];
    assert one[..0] == [] && two[..1] == one && all[..2] == two;
    assert Play(one) == Apply(Play([]), Started(path, 5)) && Play([]).bytesDone == 0;
    assert Stream(one, path) == [] && Play(one).bytesDone == 0;
    assert Stream(two, path) == [-5] && Play(two).bytesDone == 0;
  }

  // ---- the end of a run ----------------------------------------------------

  /** What every one of these files reported. */
  function Reported(events: seq<Event>, paths: seq<string>): int {
    if paths == [] then 0 else Sum(Stream(events, paths[0])) + Reported(events, paths[1..])
  }

  predicate Distinct(paths: seq<string>) {
    forall i, j :: 0 <= i < j < |paths| ==> paths[i] != paths[j]
  }

  lemma {:induction false} ReportedElsewhere(events: seq<Event>, path: string, paths: seq<string>)
    requires path !in paths
    ensures Reported(Without(events, path), paths) == Reported(events, paths)
  {
    if paths != [] {
      OthersStay(events, path, paths[0]);
      ReportedElsewhere(events, path, paths[1..]);
    }
  }

  lemma {:induction false} NothingMoved(events: seq<Event>)
    requires forall path :: Stream(events, path) == []
    ensures All(events) == 0
  {
    if events != [] {
      var before, e := events[..|events| - 1], events[|events| - 1];
      assert Stream(events, e.path) == [];
      forall path ensures Stream(before, path) == [] { assert Stream(events, path) == []; }
      NothingMoved(before);
    }
  }

  lemma {:induction false} AllIsReported(events: seq<Event>, paths: seq<string>)
    requires Distinct(paths) && forall path :: path !in paths ==> Stream(events, path) == []
    ensures All(events) == Reported(events, paths)
    decreases |paths|
  {
    if paths == [] {
      NothingMoved(events);
    } else {
      var path, rest := paths[0], paths[1..];
      SetAside(events, path);
      assert path !in rest;
      forall other | other !in rest ensures Stream(Without(events, path), other) == [] {
        OthersStay(events, path, other);
        if other != path { assert other !in paths; }
      }
      AllIsReported(Without(events, path), rest);
      ReportedElsewhere(events, path, rest);
    }
  }

  /** What each copy is due: its bytes if it succeeded, nothing if it failed. */
  function Due(paths: seq<string>, bytes: map<string, nat>): nat {
    if paths == [] then 0 else (if paths[0] in bytes then bytes[paths[0]] else 0) + Due(paths[1..], bytes)
  }

  lemma {:induction false} ReportedIsDue(events: seq<Event>, paths: seq<string>, bytes: map<string, nat>)
    requires forall path :: path in paths ==> Sum(Stream(events, path)) == if path in bytes then bytes[path] else 0
    ensures Reported(events, paths) == Due(paths, bytes)
  {
    if paths != [] {
      assert paths[0] in paths;
      assert forall path :: path in paths[1..] ==> path in paths;
      ReportedIsDue(events, paths[1..], bytes);
    }
  }

  /** When every file's reports are those of a copy none of whose attempts was
      abandoned, the tracker ends with the bytes of the successful copies,
      in whatever order the workers' reports came in. */
  lemma TrackerEndsWithBytesCopied(events: seq<Event>, paths: seq<string>, bytes: map<string, nat>)
    requires Proper(events) && Distinct(paths) && forall path :: path !in paths ==> Stream(events, path) == []
    requires forall path :: path in paths ==> Sum(Stream(events, path)) == if path in bytes then bytes[path] else 0
    ensures Play(events).bytesDone == Due(paths, bytes)
  {
    ClampsNeverFire(events);
    AllIsReported(events, paths);
    ReportedIsDue(events, paths, bytes);
  }

  // ---- from the copies to the total ----------------------------------------

  /** One file's copy as `Copy` leaves it: the rounds it went through, what it
      reported and what it copied. */
  datatype Copied = Copied(rounds: seq<Round>, reports: seq<int>, bytes: nat)

  predicate LeftBy(f: Copied) {
    RoundsOk(f.rounds) && Short(f.reports, InFlightIn(f.rounds), f.bytes)
  }

  predicate NoneAbandoned(f: Copied) {
    forall i :: 0 <= i < |f.rounds| ==> !f.rounds[i].attempt.Abandoned?
  }

  lemma {:induction false} NothingInFlight(rounds: seq<Round>)
    requires forall i :: 0 <= i < |rounds| ==> !rounds[i].attempt.Abandoned?
    ensures InFlightIn(rounds) == 0
  {
    if rounds != [] { NothingInFlight(rounds[..|rounds| - 1]); }
  }

  /** What the files of a run copied. */
  function BytesOf(paths: seq<string>, files: map<string, Copied>): nat
    requires forall path :: path in paths ==> path in files
  {
    if paths == [] then 0 else files[paths[0]].bytes + BytesOf(paths[1..], files)
  }

  lemma {:induction false} DueIsBytesOf(paths: seq<string>, files: map<string, Copied>)
    requires forall path :: path in paths ==> path in files
    ensures Due(paths, map path | path in files :: files[path].bytes) == BytesOf(paths, files)
  {
    if paths != [] { DueIsBytesOf(paths[1..], files); }
  }

  /** Byte conservation from end to end: when every file's reports are those of its
      copy, and no attempt was abandoned, then however the workers' reports
      interleave no clamp ever fires, and the total ends as the bytes copied. */
  lemma BytesAreConserved(events: seq<Event>, paths: seq<string>, files: map<string, Copied>)
    requires Distinct(paths) && forall path :: path in paths <==> path in files
    requires forall path :: Stream(events, path) == if path in files then files[path].reports else []
    requires forall path :: path in files ==> LeftBy(files[path]) && NoneAbandoned(files[path])
    requires forall i :: 0 <= i < |events| && events[i].Started? ==> Stream(events[..i], events[i].path) == []
    ensures Unclamped(Play(events), events)
    ensures Play(events).bytesDone == BytesOf(paths, files)
  {
    var bytes := map path | path in files :: files[path].bytes;
    forall path ensures NeverBelow(Stream(events, path)) {
      if path in files { NothingInFlight(files[path].rounds); }
    }
    forall path | path in paths ensures Sum(Stream(events, path)) == if path in bytes then bytes[path] else 0 {
      NothingInFlight(files[path].rounds);
    }
    ClampsNeverFire(events);
    TrackerEndsWithBytesCopied(events, paths, bytes);
    DueIsBytesOf(paths, files);
  }
}
