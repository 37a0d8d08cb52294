/** One file's copy: the read-write loop, the attempts and their backoff, and
    the account of the bytes reported on the way. */
module Retry {

  datatype Error = Cancelled | Vanished | Locked | Denied | Full | ReadOnly | Stalled | Transport | Other

  datatype Outcome = Ok | Err(error: Error)

  predicate Retryable(e: Error) {
    e.Stalled? || e.Transport? || e.Other?
  }

  predicate TransportError(e: Error) {
    e.Stalled? || e.Transport?
  }

  /** What is worth another attempt: all but a cancellation, a source that is gone, a
      destination that is held, forbidden, full or not to be written. */
  lemma RetryableExactly(e: Error)
    ensures !Retryable(e) <==> e in {Cancelled, Vanished, Locked, Denied, Full, ReadOnly}
    ensures TransportError(e) <==> e in {Stalled, Transport}
  {
  }

  function Sum(ns: seq<int>): int {
    if ns == [] then 0 else Sum(ns[..|ns| - 1]) + ns[|ns| - 1]
  }

  lemma SumSnoc(ns: seq<int>, n: int)
    ensures Sum(ns + [n]) == Sum(ns) + n
  {
    assert (ns + [n])[..|ns|] == ns;
  }

  lemma {:induction false} SumConcat(a: seq<int>, b: seq<int>)
    ensures Sum(a + b) == Sum(a) + Sum(b)
  {
    if b == [] {
      assert a + b == a;
    } else {
      var init := b[..|b| - 1];
      SumConcat(a, init);
      assert a + b == (a + init) + [b[|b| - 1]];
      SumSnoc(a + init, b[|b| - 1]);
    }
  }

  /** Nothing is taken back before it was reported: the running total never drops
      below zero. */
  predicate NeverBelow(ns: seq<int>) {
    ns == [] || (0 <= Sum(ns) && NeverBelow(ns[..|ns| - 1]))
  }

  lemma {:induction false} NeverBelowMeans(ns: seq<int>)
    ensures NeverBelow(ns) <==> forall i :: 0 <= i <= |ns| ==> 0 <= Sum(ns[..i])
  {
    assert ns[..|ns|] == ns;
    if ns != [] {
      var init := ns[..|ns| - 1];
      NeverBelowMeans(init);
      assert forall i :: 0 <= i <= |init| ==> init[..i] == ns[..i];
    }
  }

  predicate Positive(ns: seq<int>) {
    forall i :: 0 <= i < |ns| ==> 0 < ns[i]
  }

  lemma {:induction false} PositiveSum(ns: seq<int>)
    requires Positive(ns)
    ensures 0 <= Sum(ns) && (Sum(ns) == 0 <==> ns == [])
  {
    if ns != [] { PositiveSum(ns[..|ns| - 1]); }
  }

  /** More progress on top of a stream that never went below zero. */
  lemma {:induction false} NeverBelowMore(a: seq<int>, b: seq<int>)
    requires NeverBelow(a) && Positive(b)
    ensures NeverBelow(a + b)
  {
    if b == [] {
      assert a + b == a;
    } else {
      NeverBelowMore(a, b[..|b| - 1]);
      assert (a + b)[..|a + b| - 1] == a + b[..|b| - 1];
      SumConcat(a, b);
      PositiveSum(b);
    }
  }

  lemma NeverBelowRewound(a: seq<int>, n: int)
    requires NeverBelow(a) && 0 <= Sum(a) + n
    ensures NeverBelow(a + [n])
  {
    SumSnoc(a, n);
    assert (a + [n])[..|a|] == a;
  }

  lemma {:induction false} NeverBelowBefore(a: seq<int>, b: seq<int>)
    requires NeverBelow(a + b)
    ensures NeverBelow(a) && 0 <= Sum(a)
  {
    if b == [] {
      assert a + b == a;
    } else {
      assert (a + b)[..|a + b| - 1] == a + b[..|b| - 1];
      NeverBelowBefore(a, b[..|b| - 1]);
    }
  }

  /** An account that is short by some bytes that were taken back before they were
      reported: it has dipped below zero exactly if there are any. */
  predicate Short(reports: seq<int>, gap: nat, bytes: nat) {
    Sum(reports) == bytes - gap && (NeverBelow(reports) <==> gap == 0)
  }

  /** One attempt's reports, kept. */
  lemma AccountKept(reports: seq<int>, gap: nat, made: seq<int>)
    requires Short(reports, gap, 0) && Positive(made)
    ensures 0 <= Sum(made) && Short(reports + made, gap, Sum(made))
  {
    PositiveSum(made);
    SumConcat(reports, made);
    if gap == 0 { NeverBelowMore(reports, made); }
    if NeverBelow(reports + made) { NeverBelowBefore(reports, made); }
  }

  /** One attempt's reports, taken back together with a chunk that was counted
      but not reported yet. */
  lemma AccountRewound(reports: seq<int>, gap: nat, made: seq<int>, inFlight: nat)
    requires Short(reports, gap, 0) && Positive(made)
    ensures Short(reports + made + [-(Sum(made) + inFlight)], gap + inFlight, 0)
  {
    var back := -(Sum(made) + inFlight);
    AccountKept(reports, gap, made);
    SumSnoc(reports + made, back);
    if gap + inFlight == 0 { NeverBelowRewound(reports + made, back); }
  }

  // ---- one attempt ---------------------------------------------------------

  datatype End = More | Eof | Broken(error: Error)

  /** One turn of the loop: whether the context was cancelled before it, how much
      was read, how much of that the write took, and how each ended. */
  datatype Turn = Turn(cancelled: bool, read: nat, wrote: nat, write: Outcome, end: End)

  predicate TurnsOk(turns: seq<Turn>) {
    forall i :: 0 <= i < |turns| ==> turns[i].wrote <= turns[i].read
  }

  function ReadIn(turns: seq<Turn>): nat {
    if turns == [] then 0 else ReadIn(turns[..|turns| - 1]) + turns[|turns| - 1].read
  }

  /** How a copy ends: at the first turn that is cancelled, fails, writes short
      or meets the end. */
  function Ends(turns: seq<Turn>): Outcome {
    if turns == [] || turns[0].cancelled then Err(Cancelled)
    else if 0 < turns[0].read && turns[0].write.Err? then turns[0].write
    else if 0 < turns[0].read && turns[0].wrote != turns[0].read then Err(Other)
    else match turns[0].end
      case More => Ends(turns[1..])
      case Eof => Ok
      case Broken(e) => Err(e)
  }

  /** A turn that ends the copy with this error: the write failed or took less than
      was read, or else the read failed. */
  predicate EndsBadly(turn: Turn, e: Error) {
    || (0 < turn.read && turn.write == Err(e))
    || (turn.wrote < turn.read && turn.write.Ok? && e == Other)
    || (turn.end == Broken(e) && (0 < turn.read ==> turn.write.Ok? && turn.wrote == turn.read))
  }

  /** The read-write loop. Every byte written is reported once, and success
      means the end was reached and all that was read was written. A list of
      turns that runs out stands for a cancellation. */
  method CopyBuffered(turns: seq<Turn>) returns (written: nat, outcome: Outcome, reports: seq<int>, used: nat)
    requires TurnsOk(turns)
    ensures Positive(reports) && Sum(reports) == written
    ensures outcome == Ends(turns)
    ensures used <= |turns| && written <= ReadIn(turns[..used])
    ensures outcome.Ok? ==> 0 < used && turns[used - 1].end.Eof? && written == ReadIn(turns[..used])
    ensures outcome.Err? ==>
      || (outcome.error == Cancelled && (used == |turns| || turns[used].cancelled))
      || (0 < used && EndsBadly(turns[used - 1], outcome.error))
  {
    written, reports, used := 0, [], 0;
    while used < |turns|
      invariant used <= |turns|
      invariant Positive(reports) && Sum(reports) == written == ReadIn(turns[..used])
      invariant Ends(turns) == Ends(turns[used..])
    {
      var turn := turns[used];
      assert turns[..used + 1][..used] == turns[..used];
      assert turns[used..][0] == turn && turns[used..][1..] == turns[used + 1..];
      if turn.cancelled { return written, Err(Cancelled), reports, used; }
      used := used + 1;
      if 0 < turn.read {
        written := written + turn.wrote;
        if 0 < turn.wrote {
          SumSnoc(reports, turn.wrote);
          reports := reports + [turn.wrote];
        }
        if turn.write.Err? { return written, turn.write, reports, used; }
        if turn.wrote != turn.read { return written, Err(Other), reports, used; }
      }
      match turn.end
      case More =>
      case Eof => return written, Ok, reports, used;
      case Broken(e) => return written, Err(e), reports, used;
    }
    outcome := Err(Cancelled);
  }

  /** What one attempt meets: an error before any byte moves, a copy that ends in
      its own time followed by the flush, stamp and rename, or being given up
      on. A chunk is counted before it is reported, so an attempt may be given
      up on with one chunk in flight between the two; that chunk is then the
      first of the late reports. */
  datatype Try =
    | Refused(error: Error)
    | Ended(turns: seq<Turn>, rest: Outcome)
    | Abandoned(seen: seq<int>, inFlight: nat, error: Error, late: seq<int>)

  predicate TryOk(t: Try) {
    match t
    case Refused(_) => true
    case Ended(turns, _) => TurnsOk(turns)
    case Abandoned(seen, inFlight, error, late) =>
      && Positive(seen) && Positive(late) && (error.Stalled? || error.Cancelled?)
      && (0 < inFlight ==> late != [] && late[0] == inFlight)
  }

  function TryEnds(t: Try): Outcome {
    match t
    case Refused(e) => Err(e)
    case Abandoned(_, _, e, _) => Err(e)
    case Ended(turns, rest) => if Ends(turns).Ok? then rest else Ends(turns)
  }

  /** What was counted as written and not yet reported when the attempt was left. */
  function InFlight(t: Try): nat {
    if t.Abandoned? then t.inFlight else 0
  }

  function LateOf(t: Try): seq<int> {
    if t.Abandoned? then t.late else []
  }

  /** All that was read up to the end comes to this many bytes. */
  ghost predicate ReadWhole(t: Try, n: int) {
    t.Ended? && exists k :: 0 < k <= |t.turns| && t.turns[k - 1].end.Eof? && n == ReadIn(t.turns[..k])
  }

  method Total(ns: seq<int>) returns (n: int)
    ensures n == Sum(ns)
  {
    n := 0;
    for i := 0 to |ns|
      invariant n == Sum(ns[..i])
    {
      assert ns[..i + 1][..i] == ns[..i];
      n := n + ns[i];
    }
    assert ns[..|ns|] == ns;
  }

  method CopyOnce(t: Try) returns (written: int, outcome: Outcome, reports: seq<int>)
    requires TryOk(t)
    ensures Positive(reports) && 0 <= written == Sum(reports) + InFlight(t)
    ensures outcome == TryEnds(t)
    ensures outcome.Ok? ==> ReadWhole(t, written)
    ensures t.Abandoned? ==> reports == t.seen && outcome == Err(t.error)
  {
    match t
    case Refused(e) => return 0, Err(e), [];
    case Abandoned(seen, inFlight, e, _) =>
      PositiveSum(seen);
      written := Total(seen);
      return written + inFlight, Err(e), seen;
    case Ended(turns, rest) =>
      var used;
      written, outcome, reports, used := CopyBuffered(turns);
      if outcome.Ok? { outcome := rest; }
  }

  // ---- attempts and backoff ------------------------------------------------

  const SPEC_ATTEMPTS: nat := 3

  function AttemptsFor(backoff: seq<nat>): (n: nat)
    ensures 1 <= n <= 3 && n <= |backoff| + 1
    ensures n == 3 || n == |backoff| + 1
  {
    if |backoff| + 1 < SPEC_ATTEMPTS then |backoff| + 1 else SPEC_ATTEMPTS
  }

  datatype CopyError = WasCancelled | NotRetried(error: Error) | Unreachable | GaveUp

  /** Around each attempt: a cancellation seen before it, what it meets, whether
      another is still wanted after it, and a cancellation during the wait. */
  datatype Round = Round(cancelled: bool, attempt: Try, again: bool, waitCancelled: bool)

  predicate Retries(t: Try) {
    TryEnds(t).Err? && Retryable(TryEnds(t).error)
  }

  /** A cancellation is what stops a copy after so many attempts: it comes before the
      next one, or while waiting for that. */
  predicate CancelledAt(rounds: seq<Round>, attempts: nat, limit: nat)
    requires attempts <= limit <= |rounds|
  {
    && attempts < limit
    && (attempts == 0 || (Retries(rounds[attempts - 1].attempt) && rounds[attempts - 1].again))
    && ((0 < attempts && rounds[attempts - 1].waitCancelled) || rounds[attempts].cancelled)
  }

  /** Another attempt follows this one. */
  predicate GoesOn(r: Round) {
    Retries(r.attempt) && r.again && !r.waitCancelled
  }

  function InFlightIn(rounds: seq<Round>): nat {
    if rounds == [] then 0 else InFlightIn(rounds[..|rounds| - 1]) + InFlight(rounds[|rounds| - 1].attempt)
  }

  function LateIn(rounds: seq<Round>): seq<int> {
    if rounds == [] then [] else LateIn(rounds[..|rounds| - 1]) + LateOf(rounds[|rounds| - 1].attempt)
  }

  predicate RoundsOk(rounds: seq<Round>) {
    forall i :: 0 <= i < |rounds| ==> TryOk(rounds[i].attempt)
  }

  /** One attempt, whose reports are taken back if it fails. */
  method CopyAndDiscard(t: Try, before: seq<int>, ghost gap: nat) returns (written: nat, outcome: Outcome, reports: seq<int>)
    requires TryOk(t) && Short(before, gap, 0)
    ensures outcome == TryEnds(t)
    ensures outcome.Ok? ==> Short(reports, gap + InFlight(t), written)
    ensures outcome.Ok? ==> ReadWhole(t, written)
    ensures outcome.Err? ==> Short(reports, gap + InFlight(t), 0)
  {
    var n, o, made := CopyOnce(t);
    AccountKept(before, gap, made);
    AccountRewound(before, gap, made, InFlight(t));
    PositiveSum(made);
    reports := before + made;
    if o.Err? && n > 0 {
      reports := reports + [-n];
    }
    return n, o, reports;
  }

  /** How one round ends: with the file copied, with the copy over, or with another
      attempt after the wait. */
  datatype RoundEnd = Done(bytes: nat) | Stop(error: CopyError) | Again

  ghost predicate EndsAs(r: Round, isLast: bool, end: RoundEnd) {
    match end
    case Done(n) => TryEnds(r.attempt).Ok? && ReadWhole(r.attempt, n)
    case Stop(NotRetried(e)) => TryEnds(r.attempt) == Err(e) && !Retryable(e)
    case Stop(Unreachable) =>
      Retries(r.attempt) && (!r.again || (isLast && TransportError(TryEnds(r.attempt).error)))
    case Stop(GaveUp) => Retries(r.attempt) && r.again && isLast && !TransportError(TryEnds(r.attempt).error)
    case Stop(WasCancelled) => Retries(r.attempt) && r.again && !isLast && r.waitCancelled
    case Again => !isLast && GoesOn(r)
  }

  method OneRound(r: Round, isLast: bool, before: seq<int>, ghost gap: nat) returns (end: RoundEnd, reports: seq<int>)
    requires TryOk(r.attempt) && Short(before, gap, 0)
    ensures EndsAs(r, isLast, end)
    ensures Short(reports, gap + InFlight(r.attempt), if end.Done? then end.bytes else 0)
  {
    var written, outcome;
    written, outcome, reports := CopyAndDiscard(r.attempt, before, gap);
    if outcome.Ok? { return Done(written), reports; }
    var e := outcome.error;
    if !Retryable(e) { return Stop(NotRetried(e)), reports; }
    if !r.again { return Stop(Unreachable), reports; }
    if isLast { return Stop(if TransportError(e) then Unreachable else GaveUp), reports; }
    if r.waitCancelled { return Stop(WasCancelled), reports; }
    return Again, reports;
  }

  /** Copies one file, trying again after retryable errors. What it reports adds up
      to what was copied, and to nothing when the copy failed, short of the
      chunks that abandoned attempts had in flight; it drops below zero exactly
      if there are any; and each wait is one the backoff list has. */
  method Copy(backoff: seq<nat>, rounds: seq<Round>)
    returns (bytes: nat, attempts: nat, error: seq<CopyError>, reports: seq<int>, waits: seq<nat>)
    requires |rounds| >= AttemptsFor(backoff) && RoundsOk(rounds)
    ensures |error| <= 1 && attempts <= AttemptsFor(backoff)
    ensures Short(reports, InFlightIn(rounds[..attempts]), bytes)
    ensures error != [] ==> bytes == 0
    ensures error == [] <==> 0 < attempts && TryEnds(rounds[attempts - 1].attempt).Ok?
    ensures error == [] ==> ReadWhole(rounds[attempts - 1].attempt, bytes)
    ensures forall i :: 0 <= i < attempts - 1 ==> !rounds[i].cancelled && GoesOn(rounds[i])
    ensures forall e :: error == [NotRetried(e)] <==>
      0 < attempts && TryEnds(rounds[attempts - 1].attempt) == Err(e) && !Retryable(e)
    ensures error == [WasCancelled] <==> CancelledAt(rounds, attempts, AttemptsFor(backoff))
    ensures error == [Unreachable] ==> 0 < attempts && var r := rounds[attempts - 1];
      Retries(r.attempt) && (!r.again || (attempts == AttemptsFor(backoff) && TransportError(TryEnds(r.attempt).error)))
    ensures error == [GaveUp] ==> attempts == AttemptsFor(backoff) && var r := rounds[attempts - 1];
      Retries(r.attempt) && r.again && !TransportError(TryEnds(r.attempt).error)
    ensures attempts <= |waits| + 1 && |waits| <= attempts && |waits| <= |backoff| && waits == backoff[..|waits|]
  {
    bytes, attempts, reports, waits := 0, 0, [], [];
    while true
      invariant attempts < AttemptsFor(backoff) && |waits| == attempts && waits == backoff[..attempts]
      invariant Short(reports, InFlightIn(rounds[..attempts]), 0)
      invariant forall i :: 0 <= i < attempts ==> !rounds[i].cancelled && GoesOn(rounds[i])
      decreases AttemptsFor(backoff) - attempts
    {
      var round := rounds[attempts];
      if round.cancelled { return 0, attempts, [WasCancelled], reports, waits; }
      assert rounds[..attempts + 1][..attempts] == rounds[..attempts];
      var end;
      end, reports := OneRound(round, attempts + 1 == AttemptsFor(backoff), reports, InFlightIn(rounds[..attempts]));
      attempts := attempts + 1;
      match end
      case Done(written) => return written, attempts, [], reports, waits;
      case Stop(e) =>
        if e == WasCancelled { waits := waits + [backoff[attempts - 1]]; }
        return 0, attempts, [e], reports, waits;
      case Again => waits := waits + [backoff[attempts - 1]];
    }
  }

  // ---- with the reports of abandoned attempts ------------------------------

  /** Nothing came late but the chunk that was in flight. */
  predicate Quiet(t: Try) {
    t.Abandoned? ==> t.late == if 0 < t.inFlight then [t.inFlight as int] else []
  }

  predicate AllQuiet(rounds: seq<Round>) {
    forall i :: 0 <= i < |rounds| ==> Quiet(rounds[i].attempt)
  }

  lemma LateExceeds(t: Try)
    requires TryOk(t)
    ensures InFlight(t) <= Sum(LateOf(t)) && (InFlight(t) == Sum(LateOf(t)) <==> Quiet(t))
    ensures Positive(LateOf(t))
  {
    var late := LateOf(t);
    PositiveSum(late);
    if t.Abandoned? && 0 < t.inFlight {
      var first: seq<int> := [t.inFlight];
      assert late == first + late[1..];
      SumConcat(first, late[1..]);
      PositiveSum(late[1..]);
      assert first == [] + first;
      SumSnoc([], t.inFlight);
    }
  }

  lemma {:induction false} LateInPositive(rounds: seq<Round>)
    requires RoundsOk(rounds)
    ensures Positive(LateIn(rounds))
  {
    if rounds != [] {
      LateInPositive(rounds[..|rounds| - 1]);
      LateExceeds(rounds[|rounds| - 1].attempt);
    }
  }

  lemma AllQuietSnoc(rounds: seq<Round>)
    requires rounds != []
    ensures AllQuiet(rounds) <==> AllQuiet(rounds[..|rounds| - 1]) && Quiet(rounds[|rounds| - 1].attempt)
  {
    var before := rounds[..|rounds| - 1];
    assert forall i :: 0 <= i < |before| ==> before[i] == rounds[i];
  }

  lemma {:induction false} LateInExceeds(rounds: seq<Round>)
    requires RoundsOk(rounds)
    ensures InFlightIn(rounds) <= Sum(LateIn(rounds))
    ensures InFlightIn(rounds) == Sum(LateIn(rounds)) <==> AllQuiet(rounds)
  {
    if rounds != [] {
      var before, t := rounds[..|rounds| - 1], rounds[|rounds| - 1].attempt;
      LateInExceeds(before);
      LateExceeds(t);
      SumConcat(LateIn(before), LateOf(t));
      AllQuietSnoc(rounds);
    }
  }

  /** The net of a copy and of all that its abandoned attempts still report, in
      whatever order it comes: off by exactly what comes late beyond the chunks
      in flight, so right if and only if nothing else comes late. */
  lemma NetExactly(rounds: seq<Round>, reports: seq<int>, stream: seq<int>, bytes: nat)
    requires RoundsOk(rounds) && Short(reports, InFlightIn(rounds), bytes)
    requires multiset(stream) == multiset(reports + LateIn(rounds))
    ensures Sum(stream) == bytes + Sum(LateIn(rounds)) - InFlightIn(rounds)
    ensures Sum(stream) == bytes <==> AllQuiet(rounds)
  {
    SumOfPermutation(stream, reports + LateIn(rounds));
    SumConcat(reports, LateIn(rounds));
    LateInExceeds(rounds);
  }

  /** The stream is the two sequences, each in its own order. */
  ghost predicate Merges(stream: seq<int>, a: seq<int>, b: seq<int>) {
    if stream == [] then a == [] && b == []
    else
      var n, x := |stream| - 1, stream[|stream| - 1];
      || (a != [] && a[|a| - 1] == x && Merges(stream[..n], a[..|a| - 1], b))
      || (b != [] && b[|b| - 1] == x && Merges(stream[..n], a, b[..|b| - 1]))
  }

  lemma {:induction false} MergeNeverBelow(stream: seq<int>, a: seq<int>, b: seq<int>)
    requires Merges(stream, a, b) && NeverBelow(a) && Positive(b)
    ensures NeverBelow(stream) && Sum(stream) == Sum(a) + Sum(b)
    decreases |stream|
  {
    if stream != [] {
      var init, x := stream[..|stream| - 1], stream[|stream| - 1];
      assert stream == init + [x];
      if a != [] && a[|a| - 1] == x && Merges(init, a[..|a| - 1], b) {
        assert a == a[..|a| - 1] + [x];
        NeverBelowBefore(a[..|a| - 1], [x]);
        MergeNeverBelow(init, a[..|a| - 1], b);
      } else {
        MergeNeverBelow(init, a, b[..|b| - 1]);
      }
      PositiveSum(b);
      SumSnoc(init, x);
      NeverBelowRewound(init, x);
    }
  }

  lemma {:induction false} MergeInTurn(a: seq<int>, b: seq<int>)
    ensures Merges(a + b, a, b)
    decreases |a| + |b|
  {
    if b != [] {
      assert (a + b)[..|a + b| - 1] == a + b[..|b| - 1];
      MergeInTurn(a, b[..|b| - 1]);
    } else if a != [] {
      assert a + b == a && a[..|a| - 1] + [] == a[..|a| - 1];
      MergeInTurn(a[..|a| - 1], []);
    }
  }

  ghost predicate NeverDips(rounds: seq<Round>, reports: seq<int>) {
    forall stream, late ::
      multiset(late) == multiset(LateIn(rounds)) && Merges(stream, reports, late) ==> NeverBelow(stream)
  }

  /** Whatever comes late, and whenever it does, the running total stays at zero or
      above if and only if no attempt was left with a chunk in flight. */
  lemma DipsExactly(rounds: seq<Round>, reports: seq<int>, bytes: nat)
    requires RoundsOk(rounds) && Short(reports, InFlightIn(rounds), bytes)
    ensures InFlightIn(rounds) == 0 <==> NeverDips(rounds, reports)
  {
    LateInPositive(rounds);
    if InFlightIn(rounds) == 0 {
      forall stream, late | multiset(late) == multiset(LateIn(rounds)) && Merges(stream, reports, late)
        ensures NeverBelow(stream)
      {
        forall i | 0 <= i < |late| ensures 0 < late[i] {
          assert late[i] in multiset(LateIn(rounds));
        }
        MergeNeverBelow(stream, reports, late);
      }
    } else {
      MergeInTurn(reports, LateIn(rounds));
      if NeverDips(rounds, reports) {
        assert NeverBelow(reports + LateIn(rounds));
        NeverBelowBefore(reports, LateIn(rounds));
      }
    }
  }

  lemma SingleRound(r: Round)
    ensures InFlightIn([r]) == InFlight(r.attempt) && LateIn([r]) == LateOf(r.attempt)
  {
    assert [r][..0] == [];
  }

  /** Given up on with five bytes counted and none reported. */
  const LEFT_IN_FLIGHT := Round(false, Abandoned([], 5, Stalled, [5]), true, false)

  /** The smallest case: five bytes counted, the attempt given up on, the five
      taken back and only then reported. The net is right, though they came
      late; the running total was not. */
  lemma CountedBeforeReported()
    ensures RoundsOk([LEFT_IN_FLIGHT]) && Short([-5], InFlightIn([LEFT_IN_FLIGHT]), 0)
    ensures Merges([-5, 5], [-5], LateIn([LEFT_IN_FLIGHT]))
    ensures Sum([-5, 5]) == 0 && !NeverBelow([-5, 5])
  {
    SingleRound(LEFT_IN_FLIGHT);
    FiveShort();
    assert [-5] + [5] == [-5, 5];
    MergeInTurn([-5], [5]);
  }

  lemma FiveShort()
    ensures Short([-5], 5, 0) && Sum([-5, 5]) == 0 && !NeverBelow([-5, 5])
  {
    var one, two: seq<int> := [-5], [-5, 5];
    assert one[..0] == [] && two[..1] == one;
  }

  lemma {:induction false} SumOfPermutation(a: seq<int>, b: seq<int>)
    requires multiset(a) == multiset(b)
    ensures Sum(a) == Sum(b)
    decreases |a|
  {
    assert |a| == |multiset(a)| == |multiset(b)| == |b|;
    if a != [] {
      var init, x := a[..|a| - 1], a[|a| - 1];
      assert a == init + [x];
      assert x in multiset(b);
      var k :| 0 <= k < |b| && b[k] == x;
      var p, q := b[..k], b[k + 1..];
      assert b == p + [x] + q;
      SumWithout(p, x, q);
      SameWithout(b, p, x, q);
      var rest := p + q;
      assert multiset(init) == multiset(a) - multiset{x} == multiset(b) - multiset{x} == multiset(rest);
      SumOfPermutation(init, rest);
    }
  }

  lemma SumWithout(p: seq<int>, x: int, q: seq<int>)
    ensures Sum(p + [x] + q) == Sum(p + q) + x
  {
    SumSnoc(p, x);
    SumConcat(p + [x], q);
    SumConcat(p, q);
  }

  lemma SameWithout(b: seq<int>, p: seq<int>, x: int, q: seq<int>)
    requires b == p + [x] + q
    ensures multiset(b) == multiset(p + q) + multiset{x}
  {
  }
}
