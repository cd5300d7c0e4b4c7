/** From a cumulative byte counter to "is this child watching video right now?". */
module Meter {
  import opened Wrappers

  datatype Settings = Settings(windowSec: int, sampleSec: int, minThroughputKbps: real)

  datatype State = State(prev: Option<int>, samples: seq<real>, sinceActive: Option<real>)

  const FRESH := State(None, [], None)

  function Capacity(cfg: Settings): nat {
    var sample := if cfg.sampleSec < 1 then 1 else cfg.sampleSec;
    if cfg.windowSec / sample < 1 then 1 else cfg.windowSec / sample
  }

  function Rate(delta: int, elapsed: real): real
    requires elapsed > 0.0
  {
    (delta * 8) as real / 1000.0 / elapsed
  }

  function LastOf(s: seq<real>, n: nat): seq<real> { if |s| <= n then s else s[|s| - n..] }

  // --- specification -------------------------------------------------------

  // The throughput this reading yields, if it is usable.
  function Usable(m: State, cumulative: Option<int>, elapsed: real): Option<real> {
    if cumulative.Some? && elapsed > 0.0 && m.prev.Some? && cumulative.value >= m.prev.value
    then Some(Rate(cumulative.value - m.prev.value, elapsed)) else None
  }

  function Baseline(m: State, cumulative: Option<int>, elapsed: real): Option<int> {
    if cumulative.Some? && elapsed <= 0.0 then m.prev else cumulative
  }

  function Observed(cfg: Settings, m: State, cumulative: Option<int>, elapsed: real): State {
    match Usable(m, cumulative, elapsed)
    case None => m.(prev := Baseline(m, cumulative, elapsed))
    case Some(kbps) =>
      State(cumulative,
            LastOf(m.samples + [kbps], Capacity(cfg)),
            if kbps >= cfg.minThroughputKbps then Some(0.0)
            else if m.sinceActive.Some? then Some(m.sinceActive.value + elapsed)
            else None)
  }

  predicate Watching(cfg: Settings, m: State) {
    m.sinceActive.Some? && m.sinceActive.value < cfg.windowSec as real
  }

  function Sum(s: seq<real>): real { if s == [] then 0.0 else Sum(s[..|s| - 1]) + s[|s| - 1] }
  function Average(m: State): real { if m.samples == [] then 0.0 else Sum(m.samples) / |m.samples| as real }

  // --- the program ---------------------------------------------------------

  class Counter {
    const cfg: Settings
    var prev: Option<int>
    var samples: seq<real>
    var sinceActive: Option<real>

    constructor (cfg: Settings)
      ensures this.cfg == cfg && Snapshot() == FRESH
    {
      this.cfg := cfg;
      prev, samples, sinceActive := None, [], None;
    }

    function Snapshot(): State
      reads this
    {
      State(prev, samples, sinceActive)
    }

    method Reset()
      modifies this
      ensures Snapshot() == FRESH
    {
      prev, samples, sinceActive := None, [], None;
    }

    // A full window drops its oldest rates.
    method Push(rate: real)
      modifies this`samples
      ensures samples == LastOf(old(samples) + [rate], Capacity(cfg))
    {
      samples := samples + [rate];
      while |samples| > Capacity(cfg)
        invariant LastOf(samples, Capacity(cfg)) == LastOf(old(samples) + [rate], Capacity(cfg))
      {
        samples := samples[1..];
      }
    }

    method Observe(cumulative: Option<int>, elapsed: real) returns (kbps: Option<real>)
      modifies this
      ensures Snapshot() == Observed(cfg, old(Snapshot()), cumulative, elapsed)
      ensures kbps == Usable(old(Snapshot()), cumulative, elapsed)
    {
      if cumulative.None? {
        prev := None;
        return None;
      }
      if elapsed <= 0.0 {
        return None;
      }
      var before := prev;
      prev := cumulative;
      if before.None? {
        return None;
      }
      var delta := cumulative.value - before.value;
      if delta < 0 {
        return None;
      }
      var rate := Rate(delta, elapsed);
      Push(rate);
      if rate >= cfg.minThroughputKbps {
        sinceActive := Some(0.0);
      } else if sinceActive.Some? {
        sinceActive := Some(sinceActive.value + elapsed);
      }
      return Some(rate);
    }
  }

  // --- whole histories -----------------------------------------------------

  datatype Event = Reading(cumulative: Option<int>, elapsed: real) | Restart
  datatype Sample = Sample(kbps: real, elapsed: real)

  function After(cfg: Settings, events: seq<Event>): State {
    if events == [] then FRESH
    else
      var m := After(cfg, events[..|events| - 1]);
      match events[|events| - 1]
      case Restart => FRESH
      case Reading(cumulative, elapsed) => Observed(cfg, m, cumulative, elapsed)
  }

  /** The usable samples since the last restart. */
  function Samples(cfg: Settings, events: seq<Event>): seq<Sample> {
    if events == [] then []
    else
      var earlier := events[..|events| - 1];
      match events[|events| - 1]
      case Restart => []
      case Reading(cumulative, elapsed) =>
        match Usable(After(cfg, earlier), cumulative, elapsed)
        case None => Samples(cfg, earlier)
        case Some(kbps) => Samples(cfg, earlier) + [Sample(kbps, elapsed)]
  }

  function Kbps(s: seq<Sample>): (r: seq<real>)
    ensures |r| == |s| && forall i :: 0 <= i < |s| ==> r[i] == s[i].kbps
  {
    if s == [] then [] else Kbps(s[..|s| - 1]) + [s[|s| - 1].kbps]
  }

  function Elapsed(s: seq<Sample>): real {
    if s == [] then 0.0 else Elapsed(s[..|s| - 1]) + s[|s| - 1].elapsed
  }

  /** Sample `i` is the last one at or above the threshold. */
  predicate LastHigh(cfg: Settings, s: seq<Sample>, i: int) {
    0 <= i < |s| && s[i].kbps >= cfg.minThroughputKbps
    && forall j :: i < j < |s| ==> s[j].kbps < cfg.minThroughputKbps
  }

  ghost predicate SinceIs(cfg: Settings, s: seq<Sample>, since: Option<real>) {
    match since
    case None => forall i :: 0 <= i < |s| ==> s[i].kbps < cfg.minThroughputKbps
    case Some(time) => exists i :: LastHigh(cfg, s, i) && time == Elapsed(s[i + 1..])
  }

  lemma HighIsLast(cfg: Settings, s: seq<Sample>, x: Sample)
    requires x.kbps >= cfg.minThroughputKbps
    ensures SinceIs(cfg, s + [x], Some(0.0))
  {
    assert LastHigh(cfg, s + [x], |s|) && (s + [x])[|s| + 1..] == [];
  }

  lemma LowAddsTime(cfg: Settings, s: seq<Sample>, i: int, x: Sample)
    requires x.kbps < cfg.minThroughputKbps && LastHigh(cfg, s, i)
    ensures LastHigh(cfg, s + [x], i) && Elapsed((s + [x])[i + 1..]) == Elapsed(s[i + 1..]) + x.elapsed
  {
    var rest := (s + [x])[i + 1..];
    assert rest == s[i + 1..] + [x] && rest[..|rest| - 1] == s[i + 1..];
  }

  lemma SinceGrows(cfg: Settings, s: seq<Sample>, since: Option<real>, x: Sample)
    requires SinceIs(cfg, s, since)
    ensures SinceIs(cfg, s + [x],
              if x.kbps >= cfg.minThroughputKbps then Some(0.0)
              else if since.Some? then Some(since.value + x.elapsed) else None)
  {
    if x.kbps >= cfg.minThroughputKbps {
      HighIsLast(cfg, s, x);
    } else if since.Some? {
      var i :| LastHigh(cfg, s, i) && since.value == Elapsed(s[i + 1..]);
      LowAddsTime(cfg, s, i, x);
    }
  }

  ghost predicate Describes(cfg: Settings, s: seq<Sample>, m: State) {
    m.samples == LastOf(Kbps(s), Capacity(cfg)) && SinceIs(cfg, s, m.sinceActive)
  }

  lemma LastOfAppend(s: seq<real>, x: real, n: nat)
    requires n >= 1
    ensures LastOf(LastOf(s, n) + [x], n) == LastOf(s + [x], n)
  {
  }

  lemma UsableDescribes(cfg: Settings, s: seq<Sample>, m: State, cumulative: Option<int>, kbps: real, elapsed: real)
    requires Describes(cfg, s, m) && Usable(m, cumulative, elapsed) == Some(kbps)
    ensures Describes(cfg, s + [Sample(kbps, elapsed)], Observed(cfg, m, cumulative, elapsed))
  {
    var x := Sample(kbps, elapsed);
    SinceGrows(cfg, s, m.sinceActive, x);
    assert (s + [x])[..|s|] == s;
    LastOfAppend(Kbps(s), kbps, Capacity(cfg));
  }

  /** The meter's whole state, from its history: the window holds the last usable rates, and
      the clock counts the usable time since the last high one. */
  lemma {:induction false} StateFromHistory(cfg: Settings, events: seq<Event>)
    ensures Describes(cfg, Samples(cfg, events), After(cfg, events))
  {
    if events != [] {
      var earlier := events[..|events| - 1];
      StateFromHistory(cfg, earlier);
      match events[|events| - 1] {
        case Restart =>
        case Reading(cumulative, elapsed) =>
          var usable := Usable(After(cfg, earlier), cumulative, elapsed);
          if usable.Some? {
            UsableDescribes(cfg, Samples(cfg, earlier), After(cfg, earlier), cumulative, usable.value, elapsed);
          }
      }
    }
  }

  lemma LastHighIsUnique(cfg: Settings, s: seq<Sample>, i: int, j: int)
    requires LastHigh(cfg, s, i) && LastHigh(cfg, s, j)
    ensures i == j
  {
  }

  ghost predicate HighWithinWindow(cfg: Settings, s: seq<Sample>) {
    exists i :: LastHigh(cfg, s, i) && Elapsed(s[i + 1..]) < cfg.windowSec as real
  }

  lemma WithinByLastHigh(cfg: Settings, s: seq<Sample>, i: int)
    requires LastHigh(cfg, s, i)
    ensures HighWithinWindow(cfg, s) <==> Elapsed(s[i + 1..]) < cfg.windowSec as real
  {
    if HighWithinWindow(cfg, s) {
      var j :| LastHigh(cfg, s, j) && Elapsed(s[j + 1..]) < cfg.windowSec as real;
      LastHighIsUnique(cfg, s, i, j);
    }
  }

  lemma DescribedWatching(cfg: Settings, s: seq<Sample>, m: State)
    requires SinceIs(cfg, s, m.sinceActive)
    ensures Watching(cfg, m) <==> HighWithinWindow(cfg, s)
  {
    if m.sinceActive.Some? {
      var i :| LastHigh(cfg, s, i) && m.sinceActive.value == Elapsed(s[i + 1..]);
      WithinByLastHigh(cfg, s, i);
    }
  }

  /** Watching is true exactly while the usable time since the last sample at or above the
      threshold is below the window. */
  lemma WatchingMeaning(cfg: Settings, events: seq<Event>)
    ensures Watching(cfg, After(cfg, events)) <==> HighWithinWindow(cfg, Samples(cfg, events))
  {
    StateFromHistory(cfg, events);
    DescribedWatching(cfg, Samples(cfg, events), After(cfg, events));
  }

  // --- the high-water rule dominates the average ---------------------------

  lemma {:induction false} MeanNeedsAHigh(s: seq<real>, limit: real)
    requires s != [] && forall i :: 0 <= i < |s| ==> s[i] < limit
    ensures Sum(s) < limit * |s| as real
  {
    var rest := s[..|s| - 1];
    if rest != [] {
      MeanNeedsAHigh(rest, limit);
    }
    assert limit * |s| as real == limit * |rest| as real + limit;
  }

  lemma {:induction false} ShortSamples(s: seq<Sample>, each: int)
    requires forall i :: 0 <= i < |s| ==> s[i].elapsed <= each as real
    ensures Elapsed(s) <= (|s| * each) as real
  {
    if s != [] {
      ShortSamples(s[..|s| - 1], each);
      assert |s| * each == (|s| - 1) * each + each;
    }
  }

  lemma WindowHolds(cfg: Settings, n: nat)
    requires cfg.windowSec >= 1 && cfg.sampleSec >= 1 && n < Capacity(cfg)
    ensures n * cfg.sampleSec < cfg.windowSec
  {
    var q := cfg.windowSec / cfg.sampleSec;
    if q >= 1 {
      QuotientFits(cfg.windowSec, cfg.sampleSec);
      ProductGrows(n + 1, q, cfg.sampleSec);
      OneMoreTime(n, cfg.sampleSec);
    } else {
      ProductGrows(n, 0, cfg.sampleSec);
    }
  }

  lemma QuotientFits(a: int, b: int)
    requires a >= 0 && b >= 1
    ensures a / b * b <= a
  {
  }

  lemma ProductGrows(a: int, b: int, c: int)
    requires a <= b && c >= 0
    ensures a * c <= b * c
  {
  }

  lemma OneMoreTime(n: int, c: int)
    ensures (n + 1) * c == n * c + c
  {
  }

  lemma {:induction false} FindLastHigh(cfg: Settings, s: seq<Sample>, from: nat) returns (i: int)
    requires exists k :: from <= k < |s| && s[k].kbps >= cfg.minThroughputKbps
    ensures LastHigh(cfg, s, i) && from <= i
  {
    i := |s| - 1;
    while s[i].kbps < cfg.minThroughputKbps
      invariant from <= i < |s|
      decreases i
      invariant forall j :: i < j < |s| ==> s[j].kbps < cfg.minThroughputKbps
    {
      i := i - 1;
    }
  }

  /** With samples that cover at most the sample interval, a window whose mean reaches the
      threshold is always watched: the rolling average never credits what the high-water
      mark does not. */
  lemma {:induction false} HighWaterDominatesAverage(cfg: Settings, events: seq<Event>)
    requires cfg.windowSec >= 1 && cfg.sampleSec >= 1
    requires forall i :: 0 <= i < |Samples(cfg, events)| ==> Samples(cfg, events)[i].elapsed <= cfg.sampleSec as real
    requires After(cfg, events).samples != [] && Average(After(cfg, events)) >= cfg.minThroughputKbps
    ensures Watching(cfg, After(cfg, events))
  {
    StateFromHistory(cfg, events);
    HighMeanIsWatched(cfg, Samples(cfg, events), After(cfg, events));
  }

  lemma HighMeanIsWatched(cfg: Settings, s: seq<Sample>, m: State)
    requires cfg.windowSec >= 1 && cfg.sampleSec >= 1 && Describes(cfg, s, m)
    requires forall i :: 0 <= i < |s| ==> s[i].elapsed <= cfg.sampleSec as real
    requires m.samples != [] && Average(m) >= cfg.minThroughputKbps
    ensures Watching(cfg, m)
  {
    var k := HighInMean(m.samples, cfg.minThroughputKbps);
    var from := |s| - |m.samples|;
    assert s[from + k].kbps == m.samples[k];
    var i := FindLastHigh(cfg, s, from);
    TailIsShort(cfg, s, i);
    DescribedWatching(cfg, s, m);
  }

  lemma TailIsShort(cfg: Settings, s: seq<Sample>, i: int)
    requires cfg.windowSec >= 1 && cfg.sampleSec >= 1
    requires forall k :: 0 <= k < |s| ==> s[k].elapsed <= cfg.sampleSec as real
    requires 0 <= i < |s| && |s| - i <= Capacity(cfg)
    ensures Elapsed(s[i + 1..]) < cfg.windowSec as real
  {
    ShortSamples(s[i + 1..], cfg.sampleSec);
    WindowHolds(cfg, |s| - i - 1);
  }

  lemma HighInMean(window: seq<real>, limit: real) returns (k: int)
    requires window != [] && Sum(window) / |window| as real >= limit
    ensures 0 <= k < |window| && window[k] >= limit
  {
    if forall i :: 0 <= i < |window| ==> window[i] < limit {
      MeanNeedsAHigh(window, limit);
      MeanBelow(Sum(window), limit, |window|);
    }
    k :| 0 <= k < |window| && window[k] >= limit;
  }

  lemma MeanBelow(sum: real, limit: real, n: nat)
    requires n > 0 && sum < limit * n as real
    ensures sum / n as real < limit
  {
  }

  // --- the unit ------------------------------------------------------------

  /** A rate is in kilobits a second: a thousand times it, over the time it was taken, are the bits counted. */
  lemma RateIsInKilobits(delta: int, elapsed: real)
    requires elapsed > 0.0
    ensures Rate(delta, elapsed) * elapsed * 1000.0 == 8.0 * delta as real
  {
    DividedBack((delta * 8) as real / 1000.0, elapsed);
  }

  lemma DividedBack(x: real, y: real)
    requires y > 0.0
    ensures x / y * y == x
  {
  }

  // --- the window and the readings -----------------------------------------

  /** The window holds as many samples as fit into its length, but always one. */
  lemma WindowHoldsWhatFits(cfg: Settings)
    requires 1 <= cfg.sampleSec <= cfg.windowSec
    ensures Capacity(cfg) * cfg.sampleSec <= cfg.windowSec < (Capacity(cfg) + 1) * cfg.sampleSec
  {
  }

  lemma WindowHoldsOne(cfg: Settings)
    ensures Capacity(cfg) >= 1 && (cfg.windowSec < cfg.sampleSec ==> Capacity(cfg) == 1)
  {
  }

  /** A reading is unusable exactly if it is missing or of no time, has none before it, or ran backwards; one
      that did not move is a rate of zero, not unusable; and no rate is negative. */
  lemma UsableExactly(m: State, cumulative: Option<int>, elapsed: real)
    ensures Usable(m, cumulative, elapsed).None?
       <==> cumulative.None? || elapsed <= 0.0 || m.prev.None? || cumulative.value < m.prev.value
    ensures var rate := Usable(m, cumulative, elapsed);
            rate.Some? ==> rate.value >= 0.0 && (rate.value == 0.0 <==> cumulative == m.prev)
  {
    if Usable(m, cumulative, elapsed).Some? {
      SignOfRate(cumulative.value - m.prev.value, elapsed);
    }
  }

  lemma SignOfRate(delta: nat, elapsed: real)
    requires elapsed > 0.0
    ensures Rate(delta, elapsed) >= 0.0 && (Rate(delta, elapsed) == 0.0 <==> delta == 0)
  {
    SignOfQuotient((delta * 8) as real / 1000.0, elapsed);
  }

  lemma SignOfQuotient(x: real, y: real)
    requires x >= 0.0 && y > 0.0
    ensures x / y >= 0.0 && (x / y == 0.0 <==> x == 0.0)
  {
    DividedBack(x, y);
  }
}
