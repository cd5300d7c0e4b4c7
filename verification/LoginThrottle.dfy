/** The panel's login throttle: who may try when, and how fast passwords can be guessed. */
module LoginThrottle {
  type Source = string
  type Failures = map<Source, seq<real>>

  // The limits, in seconds; a lockout needs at least one failure to start from.
  datatype Limits = Limits(window: int, lockoutAfter: int, lockout: int, maxDelay: int) {
    predicate Valid() { lockoutAfter >= 1 && maxDelay >= 0 }
  }
  const LIMITS := Limits(900, 6, 900, 8)

  // --- the state, source by source -----------------------------------------

  function Stored(failures: Failures, source: Source): seq<real> {
    if source in failures then failures[source] else []
  }

  function Within(times: seq<real>, now: real, window: int): seq<real> {
    if times == [] then []
    else (if now - times[0] <= window as real then [times[0]] else []) + Within(times[1..], now, window)
  }

  // An empty list is never kept under a key.
  function Put(failures: Failures, source: Source, times: seq<real>): Failures {
    if times == [] then failures - {source} else failures[source := times]
  }

  // The original's int(): towards zero.
  function Truncated(x: real): int { if x >= 0.0 then x.Floor else -((-x).Floor) }

  function Wait(recent: seq<real>, now: real, limits: Limits): (sec: int)
    requires limits.Valid()
    ensures sec >= 0
    ensures sec > 0 <==> |recent| >= limits.lockoutAfter && now - recent[|recent| - 1] <= (limits.lockout - 1) as real
  {
    if |recent| < limits.lockoutAfter then 0
    else
      var left := Truncated(recent[|recent| - 1] + limits.lockout as real - now);
      if left < 0 then 0 else left
  }

  function Power(n: nat): nat { if n == 0 then 1 else 2 * Power(n - 1) }
  function Stall(earlier: nat, limits: Limits): int {
    if Power(earlier) < limits.maxDelay then Power(earlier) else limits.maxDelay
  }

  class Throttle {
    const limits: Limits
    var failures: Failures

    constructor (limits: Limits)
      ensures this.limits == limits && failures == map[]
    {
      this.limits := limits;
      failures := map[];
    }

    method Recent(source: Source, now: real) returns (recent: seq<real>)
      modifies this
      ensures recent == Within(Stored(old(failures), source), now, limits.window)
      ensures failures == Put(old(failures), source, recent)
    {
      var times := Stored(failures, source);
      recent := [];
      for i := 0 to |times|
        invariant failures == old(failures)
        invariant recent + Within(times[i..], now, limits.window) == Within(times, now, limits.window)
      {
        assert times[i..][1..] == times[i + 1..];
        ghost var later := Within(times[i + 1..], now, limits.window);
        if now - times[i] <= limits.window as real {
          assert recent + ([times[i]] + later) == (recent + [times[i]]) + later;
          recent := recent + [times[i]];
        } else {
          assert [] + later == later;
        }
      }
      assert times[|times|..] == [] && recent + [] == recent;
      if recent != [] { failures := failures[source := recent]; } else { failures := failures - {source}; }
    }

    method LockedFor(source: Source, now: real) returns (sec: int)
      requires limits.Valid()
      modifies this
      ensures var recent := Within(Stored(old(failures), source), now, limits.window);
              sec == Wait(recent, now, limits) && failures == Put(old(failures), source, recent)
    {
      var recent := Recent(source, now);
      if |recent| < limits.lockoutAfter { return 0; }
      sec := Truncated(recent[|recent| - 1] + limits.lockout as real - now);
      if sec < 0 { sec := 0; }
    }

    method RecordFailure(source: Source, now: real) returns (stall: int)
      modifies this
      ensures var recent := Within(Stored(old(failures), source), now, limits.window);
              stall == Stall(|recent|, limits) && failures == Put(old(failures), source, recent + [now])
    {
      var recent := Recent(source, now);
      recent := recent + [now];
      failures := failures[source := recent];
      stall := Stall(|recent| - 1, limits);
    }

    method RecordSuccess(source: Source)
      modifies this
      ensures failures == old(failures) - {source}
    {
      failures := failures - {source};
    }

    /** One login request: the wait is looked up first, then the password, then the outcome is noted. */
    method Login(a: Attempt) returns (outcome: Outcome)
      requires limits.Valid()
      modifies this
      ensures failures == Step(limits, old(failures), a).failures
      ensures outcome == Step(limits, old(failures), a).outcome
    {
      var locked := LockedFor(a.source, a.now);
      ghost var recent := Within(Stored(old(failures), a.source), a.now, limits.window);
      PutTwice(old(failures), a.source, recent, a.now, limits.window);
      if locked > 0 { return LockedOut(locked); }
      if !a.correct {
        var stall := RecordFailure(a.source, a.now);
        return Failed(stall);
      }
      RecordSuccess(a.source);
      return LoggedIn;
    }
  }

  // --- a run of logins -----------------------------------------------------

  datatype Attempt = Attempt(source: Source, now: real, correct: bool)
  datatype Outcome = LockedOut(sec: int) | Failed(stall: int) | LoggedIn
  datatype Result = Result(failures: Failures, outcome: Outcome)

  function Step(limits: Limits, failures: Failures, a: Attempt): Result
    requires limits.Valid()
  {
    var recent := Within(Stored(failures, a.source), a.now, limits.window);
    var wait := Wait(recent, a.now, limits);
    if wait > 0 then Result(Put(failures, a.source, recent), LockedOut(wait))
    else if a.correct then Result(failures - {a.source}, LoggedIn)
    else Result(Put(failures, a.source, recent + [a.now]), Failed(Stall(|recent|, limits)))
  }

  function Run(limits: Limits, attempts: seq<Attempt>): Failures
    requires limits.Valid()
  {
    if attempts == [] then map[]
    else
      var n := |attempts| - 1;
      Step(limits, Run(limits, attempts[..n]), attempts[n]).failures
  }

  // How the last of these attempts was answered.
  function Answer(limits: Limits, attempts: seq<Attempt>): Outcome
    requires limits.Valid() && attempts != []
  {
    var n := |attempts| - 1;
    Step(limits, Run(limits, attempts[..n]), attempts[n]).outcome
  }

  // The failed attempts of one source since it last logged in, by their times.
  function History(limits: Limits, attempts: seq<Attempt>, source: Source): seq<real>
    requires limits.Valid()
    decreases |attempts|
  {
    if attempts == [] then []
    else
      var n := |attempts| - 1;
      var before := History(limits, attempts[..n], source);
      if attempts[n].source != source then before
      else match Answer(limits, attempts)
        case LockedOut(_) => before
        case Failed(_) => before + [attempts[n].now]
        case LoggedIn => []
  }

  predicate Ordered(attempts: seq<Attempt>) {
    forall i, j :: 0 <= i <= j < |attempts| ==> attempts[i].now <= attempts[j].now
  }

  lemma WithinCons(head: real, rest: seq<real>, now: real, window: int)
    ensures Within([head] + rest, now, window)
         == (if now - head <= window as real then [head] else []) + Within(rest, now, window)
  {
    assert ([head] + rest)[1..] == rest;
  }

  lemma {:induction false} WithinTwice(times: seq<real>, now: real, window: int)
    ensures Within(Within(times, now, window), now, window) == Within(times, now, window)
  {
    if times != [] {
      var rest := Within(times[1..], now, window);
      WithinTwice(times[1..], now, window);
      WithinCons(times[0], rest, now, window);
      assert [] + rest == rest;
    }
  }

  // Looking up the wait first changes nothing about what is noted afterwards.
  lemma PutTwice(failures: Failures, source: Source, recent: seq<real>, now: real, window: int)
    requires recent == Within(Stored(failures, source), now, window)
    ensures var pruned := Put(failures, source, recent);
            && Within(Stored(pruned, source), now, window) == recent
            && pruned - {source} == failures - {source}
            && Put(pruned, source, recent + [now]) == Put(failures, source, recent + [now])
  {
    WithinTwice(Stored(failures, source), now, window);
  }

  // --- what is stored is the end of the history ----------------------------

  predicate Sorted(times: seq<real>) { forall i, j :: 0 <= i <= j < |times| ==> times[i] <= times[j] }
  predicate NotAfter(times: seq<real>, now: real) { forall i :: 0 <= i < |times| ==> times[i] <= now }

  // The failures still kept are the last ones, and the dropped ones have left the window.
  predicate Tail(stored: seq<real>, history: seq<real>, now: real, window: int) {
    && |stored| <= |history|
    && var cut := |history| - |stored|;
       stored == history[cut..] && forall i :: 0 <= i < cut ==> now - history[i] > window as real
  }

  lemma {:induction false} AllWithin(times: seq<real>, now: real, window: int)
    requires forall i :: 0 <= i < |times| ==> now - times[i] <= window as real
    ensures Within(times, now, window) == times
  {
    if times != [] {
      assert forall i :: 0 <= i < |times| - 1 ==> times[1..][i] == times[i + 1];
      AllWithin(times[1..], now, window);
      assert [times[0]] + times[1..] == times;
    }
  }

  lemma TailGrows(stored: seq<real>, head: real, rest: seq<real>, now: real, window: int)
    requires Tail(stored, rest, now, window) && now - head > window as real
    ensures Tail(stored, [head] + rest, now, window)
  {
    var history := [head] + rest;
    var cut := |history| - |stored|;
    assert history[cut..] == rest[cut - 1..];
    assert forall i :: 0 < i < cut ==> history[i] == rest[i - 1];
  }

  lemma {:induction false} WithinIsTail(times: seq<real>, now: real, window: int)
    requires Sorted(times)
    ensures Tail(Within(times, now, window), times, now, window)
  {
    if times != [] {
      if now - times[0] <= window as real {
        AllWithin(times, now, window);
      } else {
        WithinIsTail(times[1..], now, window);
        TailGrows(Within(times[1..], now, window), times[0], times[1..], now, window);
        assert [times[0]] + times[1..] == times;
        assert [] + Within(times[1..], now, window) == Within(times[1..], now, window);
      }
    }
  }

  lemma TailOfTail(inner: seq<real>, stored: seq<real>, history: seq<real>, earlier: real, now: real, window: int)
    requires Tail(stored, history, earlier, window) && Tail(inner, stored, now, window) && earlier <= now
    ensures Tail(inner, history, now, window)
  {
  }

  // --- one step, over the stored and the whole history ---------------------

  // More failures than a lockout takes never fit into a lockout's length, less the second int() cuts off.
  predicate Spaced(history: seq<real>, limits: Limits) {
    forall i, j :: 0 <= i < j < |history| && j - i >= limits.lockoutAfter
      ==> history[j] - history[i] > (limits.lockout - 1) as real
  }

  lemma RecentIsTail(stored: seq<real>, history: seq<real>, earlier: real, now: real, window: int)
    requires Sorted(history) && Tail(stored, history, earlier, window) && earlier <= now
    ensures Tail(Within(stored, now, window), history, now, window)
  {
    assert forall i :: 0 <= i < |stored| ==> stored[i] == history[|history| - |stored| + i];
    WithinIsTail(stored, now, window);
    TailOfTail(Within(stored, now, window), stored, history, earlier, now, window);
  }

  lemma FailureExtends(recent: seq<real>, history: seq<real>, now: real, window: int)
    requires Tail(recent, history, now, window) && Sorted(history) && NotAfter(history, now)
    ensures Tail(recent + [now], history + [now], now, window)
    ensures Sorted(history + [now]) && NotAfter(history + [now], now)
  {
    var cut := |history| - |recent|;
    assert (history + [now])[cut..] == history[cut..] + [now];
  }

  // Where the window is long enough to keep the failures that count towards a lockout.
  predicate WindowCoversLockout(limits: Limits) { limits.lockout < 1 || limits.window >= limits.lockout - 1 }

  lemma LongAgo(recent: seq<real>, history: seq<real>, now: real, limits: Limits, i: nat)
    requires limits.Valid() && WindowCoversLockout(limits) && Sorted(history)
    requires Tail(recent, history, now, limits.window) && Wait(recent, now, limits) == 0
    requires i < |history| && |history| - i >= limits.lockoutAfter && history[i] <= now
    ensures now - history[i] > (limits.lockout - 1) as real
  {
    var cut := |history| - |recent|;
    if i >= cut {
      assert recent[|recent| - 1] == history[|history| - 1];
      assert history[|history| - 1] >= history[i];
    }
  }

  lemma SpacedGrows(history: seq<real>, now: real, limits: Limits)
    requires limits.Valid() && Spaced(history, limits)
    requires forall i :: 0 <= i < |history| && |history| - i >= limits.lockoutAfter
               ==> now - history[i] > (limits.lockout - 1) as real
    ensures Spaced(history + [now], limits)
  {
  }

  lemma FailureStaysSpaced(recent: seq<real>, history: seq<real>, now: real, limits: Limits)
    requires limits.Valid() && WindowCoversLockout(limits)
    requires Tail(recent, history, now, limits.window) && Sorted(history) && NotAfter(history, now)
    requires Spaced(history, limits) && Wait(recent, now, limits) == 0
    ensures Spaced(history + [now], limits)
  {
    forall i | 0 <= i < |history| && |history| - i >= limits.lockoutAfter
      ensures now - history[i] > (limits.lockout - 1) as real
    {
      LongAgo(recent, history, now, limits, i);
    }
    SpacedGrows(history, now, limits);
  }

  // --- one source's part of a run ------------------------------------------

  // What is stored of a source, and its failures since it last logged in.
  datatype Record = Record(stored: seq<real>, history: seq<real>)

  // The part of a step that concerns the source that makes the attempt.
  function OwnStep(limits: Limits, r: Record, now: real, correct: bool): (Record, Outcome)
    requires limits.Valid()
  {
    var recent := Within(r.stored, now, limits.window);
    var wait := Wait(recent, now, limits);
    if wait > 0 then (Record(recent, r.history), LockedOut(wait))
    else if correct then (Record([], []), LoggedIn)
    else (Record(recent + [now], r.history + [now]), Failed(Stall(|recent|, limits)))
  }

  function RecordOf(limits: Limits, attempts: seq<Attempt>, source: Source): Record
    requires limits.Valid()
  {
    Record(Stored(Run(limits, attempts), source), History(limits, attempts, source))
  }

  /** An attempt is answered from its own source's record alone, and changes no other source's. */
  lemma SourcesAreIndependent(limits: Limits, attempts: seq<Attempt>, source: Source)
    requires limits.Valid() && attempts != []
    ensures var n := |attempts| - 1;
            var a := attempts[n];
            var before, after := RecordOf(limits, attempts[..n], source), RecordOf(limits, attempts, source);
            if a.source == source
            then (after, Answer(limits, attempts)) == OwnStep(limits, before, a.now, a.correct)
            else after == before
  {
    var n := |attempts| - 1;
    var a, before := attempts[n], Run(limits, attempts[..n]);
    var recent := Within(Stored(before, a.source), a.now, limits.window);
    StoredAfterPut(before, a.source, recent, source);
    StoredAfterPut(before, a.source, recent + [a.now], source);
  }

  lemma StoredAfterPut(failures: Failures, source: Source, times: seq<real>, other: Source)
    ensures Stored(Put(failures, source, times), other) == if other == source then times else Stored(failures, other)
    ensures Stored(failures - {source}, other) == if other == source then [] else Stored(failures, other)
  {
  }

  // --- runs ----------------------------------------------------------------

  // The record as of a moment: the failures in order, the stored ones the end of them.
  predicate Tracked(r: Record, now: real, window: int) {
    Sorted(r.history) && NotAfter(r.history, now) && Tail(r.stored, r.history, now, window)
  }

  lemma OwnStepIsTracked(limits: Limits, r: Record, now: real, correct: bool)
    requires limits.Valid() && Tracked(r, now, limits.window)
    ensures Tracked(OwnStep(limits, r, now, correct).0, now, limits.window)
    ensures WindowCoversLockout(limits) && Spaced(r.history, limits)
            ==> Spaced(OwnStep(limits, r, now, correct).0.history, limits)
  {
    var recent := Within(r.stored, now, limits.window);
    RecentIsTail(r.stored, r.history, now, now, limits.window);
    FailureExtends(recent, r.history, now, limits.window);
    if WindowCoversLockout(limits) && Spaced(r.history, limits) && Wait(recent, now, limits) == 0 {
      FailureStaysSpaced(recent, r.history, now, limits);
    }
  }

  lemma TrackedLater(r: Record, earlier: real, now: real, window: int)
    requires Tracked(r, earlier, window) && earlier <= now
    ensures Tracked(r, now, window)
  {
  }

  lemma {:induction false} RunIsTracked(limits: Limits, attempts: seq<Attempt>, source: Source, now: real)
    requires limits.Valid() && Ordered(attempts) && (attempts != [] ==> attempts[|attempts| - 1].now <= now)
    ensures Tracked(RecordOf(limits, attempts, source), now, limits.window)
    ensures WindowCoversLockout(limits) ==> Spaced(History(limits, attempts, source), limits)
    decreases |attempts|
  {
    if attempts != [] {
      var n := |attempts| - 1;
      var a, before := attempts[n], RecordOf(limits, attempts[..n], source);
      RunIsTracked(limits, attempts[..n], source, a.now);
      SourcesAreIndependent(limits, attempts, source);
      OwnStepIsTracked(limits, before, a.now, a.correct);
      TrackedLater(RecordOf(limits, attempts, source), a.now, now, limits.window);
    }
  }

  lemma {:induction false} DroppedDoNotCount(history: seq<real>, cut: nat, now: real, window: int)
    requires cut <= |history| && forall i :: 0 <= i < cut ==> now - history[i] > window as real
    ensures Within(history, now, window) == Within(history[cut..], now, window)
    decreases cut
  {
    if cut > 0 {
      assert forall i :: 0 <= i < cut - 1 ==> history[1..][i] == history[i + 1];
      DroppedDoNotCount(history[1..], cut - 1, now, window);
      assert history[1..][cut - 1..] == history[cut..];
      assert [] + Within(history[1..], now, window) == Within(history[1..], now, window);
    } else {
      assert history[0..] == history;
    }
  }

  /** What pruning forgets never counts: at any time from the last attempt on, an attempt is answered from
      all the failures of its source since it last logged in, and each stall is the doubling sequence over
      those inside the window, up to the limit. */
  lemma AnsweredFromTheHistory(limits: Limits, attempts: seq<Attempt>)
    requires limits.Valid() && Ordered(attempts) && attempts != []
    ensures var n := |attempts| - 1;
            var a := attempts[n];
            var recent := Within(History(limits, attempts[..n], a.source), a.now, limits.window);
            var wait := Wait(recent, a.now, limits);
            Answer(limits, attempts)
              == if wait > 0 then LockedOut(wait) else if a.correct then LoggedIn else Failed(Stall(|recent|, limits))
  {
    var n := |attempts| - 1;
    var a := attempts[n];
    RunIsTracked(limits, attempts[..n], a.source, a.now);
    var r := RecordOf(limits, attempts[..n], a.source);
    DroppedDoNotCount(r.history, |r.history| - |r.stored|, a.now, limits.window);
    SourcesAreIndependent(limits, attempts, a.source);
  }

  // --- the bound, exactly --------------------------------------------------

  // Failures at one moment, each of them still considered.
  function Same(source: Source, n: nat): seq<Attempt> {
    if n == 0 then [] else Same(source, n - 1) + [Attempt(source, 0.0, false)]
  }
  function Zeros(n: nat): seq<real> { if n == 0 then [] else Zeros(n - 1) + [0.0] }

  lemma {:induction false} SameMeaning(source: Source, n: nat)
    ensures |Same(source, n)| == n && |Zeros(n)| == n
    ensures forall i :: 0 <= i < n ==> Same(source, n)[i] == Attempt(source, 0.0, false) && Zeros(n)[i] == 0.0
  {
    if n > 0 { SameMeaning(source, n - 1); }
  }

  lemma FailureIsNoted(limits: Limits, prefix: seq<Attempt>, a: Attempt)
    requires limits.Valid() && Ordered(prefix + [a]) && !a.correct
    requires Wait(Within(History(limits, prefix, a.source), a.now, limits.window), a.now, limits) == 0
    ensures History(limits, prefix + [a], a.source) == History(limits, prefix, a.source) + [a.now]
  {
    assert (prefix + [a])[..|prefix|] == prefix;
    AnsweredFromTheHistory(limits, prefix + [a]);
  }

  lemma {:induction false} NoMoreWithin(times: seq<real>, now: real, window: int)
    ensures |Within(times, now, window)| <= |times|
  {
    if times != [] { NoMoreWithin(times[1..], now, window); }
  }

  lemma {:induction false} BurstIsConsidered(limits: Limits, source: Source, n: nat)
    requires limits.Valid() && n <= limits.lockoutAfter
    ensures History(limits, Same(source, n), source) == Zeros(n)
  {
    if n > 0 {
      BurstIsConsidered(limits, source, n - 1);
      SameMeaning(source, n);
      SameMeaning(source, n - 1);
      NoMoreWithin(Zeros(n - 1), 0.0, limits.window);
      FailureIsNoted(limits, Same(source, n - 1), Attempt(source, 0.0, false));
    }
  }

  // Just past the window, if there is one.
  function Afterwards(limits: Limits): real { if limits.window < 0 then 0.0 else (limits.window + 1) as real }

  // Failures that leave the window before a lockout over them ends, and one more.
  function Leak(limits: Limits, source: Source): seq<Attempt>
    requires limits.Valid()
  {
    Same(source, limits.lockoutAfter) + [Attempt(source, Afterwards(limits), false)]
  }

  lemma LeakIsOrdered(limits: Limits, source: Source)
    requires limits.Valid()
    ensures Ordered(Leak(limits, source))
  {
    SameMeaning(source, limits.lockoutAfter);
  }

  lemma LeakIsNoted(limits: Limits, source: Source)
    requires limits.Valid()
    ensures History(limits, Leak(limits, source), source) == Zeros(limits.lockoutAfter) + [Afterwards(limits)]
  {
    var n := limits.lockoutAfter;
    SameMeaning(source, n);
    BurstIsConsidered(limits, source, n);
    LeakIsOrdered(limits, source);
    DroppedDoNotCount(Zeros(n), n, Afterwards(limits), limits.window);
    assert Zeros(n)[n..] == [];
    FailureIsNoted(limits, Same(source, n), Attempt(source, Afterwards(limits), false));
  }

  lemma LeakIsClose(limits: Limits, source: Source)
    requires limits.Valid() && !WindowCoversLockout(limits)
    ensures !Spaced(History(limits, Leak(limits, source), source), limits)
  {
    LeakIsNoted(limits, source);
    SameMeaning(source, limits.lockoutAfter);
    var n := limits.lockoutAfter;
    var history := Zeros(n) + [Afterwards(limits)];
    assert history[n] - history[0] <= (limits.lockout - 1) as real;
  }

  /** Between two logins of a source, `lockoutAfter + 1` failures never fit into `lockout - 1` seconds, in
      any run whatever: exactly when the window is that long. */
  lemma GuessingIsBounded(limits: Limits)
    requires limits.Valid()
    ensures (forall attempts: seq<Attempt>, source: Source ::
               Ordered(attempts) ==> Spaced(History(limits, attempts, source), limits))
       <==> WindowCoversLockout(limits)
  {
    if WindowCoversLockout(limits) {
      forall attempts: seq<Attempt>, source: Source | Ordered(attempts)
        ensures Spaced(History(limits, attempts, source), limits) {
        RunIsTracked(limits, attempts, source, if attempts == [] then 0.0 else attempts[|attempts| - 1].now);
      }
    } else {
      LeakIsOrdered(limits, "");
      LeakIsClose(limits, "");
    }
  }

  /** The limits in force meet that condition; six failures within a quarter of an hour lock a source out for
      another from the last of them, to the second. */
  lemma LimitsInForce()
    ensures LIMITS.Valid() && WindowCoversLockout(LIMITS)
    ensures forall times: seq<real>, now: real ::
              Wait(Within(times, now, 900), now, LIMITS) > 0
              <==> |Within(times, now, LIMITS.window)| >= 6
                   && now - Within(times, now, 900)[|Within(times, now, 900)| - 1] <= 899.0
    ensures Stall(0, LIMITS) == 1 && Stall(1, LIMITS) == 2 && Stall(2, LIMITS) == 4
    ensures forall k: nat :: k >= 3 ==> Stall(k, LIMITS) == 8
  {
    forall k: nat | k >= 3 ensures Stall(k, LIMITS) == 8 { PowerGrows(k); }
  }

  lemma {:induction false} PowerGrows(k: nat)
    requires k >= 3
    ensures Power(k) >= 8
  {
    if k > 3 { PowerGrows(k - 1); } else { assert Power(0) == 1 && Power(1) == 2 && Power(2) == 4; }
  }

  /** The wait is the time left until the end of the lockout in whole seconds: never more than is left, and less
      than a second short of it. */
  lemma WaitIsTheTimeLeft(recent: seq<real>, now: real, limits: Limits)
    requires limits.Valid()
    ensures Wait(recent, now, limits) > 0 ==>
              var left := recent[|recent| - 1] + limits.lockout as real - now;
              Wait(recent, now, limits) as real <= left < (Wait(recent, now, limits) + 1) as real
  {
  }

  // --- what is kept --------------------------------------------------------

  /** In every run only sources with failures are kept, so the map is no larger than the set of sources that have
      failed. */
  lemma {:induction false} NoEmptyLists(limits: Limits, attempts: seq<Attempt>)
    requires limits.Valid()
    ensures forall s :: s in Run(limits, attempts) ==> Run(limits, attempts)[s] != []
    decreases |attempts|
  {
    if attempts != [] { NoEmptyLists(limits, attempts[..|attempts| - 1]); }
  }
}
