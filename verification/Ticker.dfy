/** The observation half of a tick: read the counter, fold the pins, reconfigure the meter,
    and say whether this sample counts as watching. */
module Ticker {
  import opened Wrappers
  import M = Meter
  import P = Pins

  datatype Settings = Settings(meter: M.Settings, pinIdleExpireSec: int)

  // What one tick gets from the platform: the clock, the fresh DNS answers, the counter
  // reading should it ask for one, and whether reconfiguring the meter restarts the counter.
  // The counter belongs to the machine, and others may recreate it: `session` counts how often
  // it has been, which the program never learns.
  datatype Input = Input(now: int, resolved: seq<(string, bool)>, raw: Option<nat>, restarts: bool, session: nat)

  datatype State = State(meter: M.State, pins: seq<P.Pin>, metered: seq<P.Ip>, lastTick: int)

  function Ips(pins: seq<P.Pin>): seq<P.Ip> {
    if pins == [] then [] else [pins[0].ip] + Ips(pins[1..])
  }

  function IpSet(pins: seq<P.Pin>): set<P.Ip> { set p | p in pins :: p.ip }

  // --- one tick ------------------------------------------------------------

  function ElapsedSec(cfg: Settings, s: State, x: Input): int {
    if s.lastTick != 0 then x.now - s.lastTick else cfg.meter.sampleSec
  }

  function ReadingOf(s: State, x: Input): Option<nat> { if s.metered != [] then x.raw else None }

  function KbpsOf(cfg: Settings, s: State, x: Input): Option<real> {
    M.Usable(s.meter, ReadingOf(s, x), ElapsedSec(cfg, s, x) as real)
  }

  function LookOf(cfg: Settings, s: State, x: Input): P.Look {
    var kbps := KbpsOf(cfg, s, x);
    P.Look(x.resolved, if kbps.Some? && kbps.value > 0.0 then IpSet(s.pins) else {}, x.now, cfg.pinIdleExpireSec)
  }

  function PinsAfter(cfg: Settings, s: State, x: Input, norm: P.Normaliser): seq<P.Pin> {
    P.Kept(s.pins, LookOf(cfg, s, x), norm)
  }

  /** This tick restarts the counter: the metered set changed and the platform rebuilt it. */
  predicate RestartsCounter(cfg: Settings, s: State, x: Input, norm: P.Normaliser) {
    Ips(PinsAfter(cfg, s, x, norm)) != s.metered && x.restarts
  }

  function Next(cfg: Settings, s: State, x: Input, norm: P.Normaliser): State {
    var observed := M.Observed(cfg.meter, s.meter, ReadingOf(s, x), ElapsedSec(cfg, s, x) as real);
    var pins := PinsAfter(cfg, s, x, norm);
    State(if RestartsCounter(cfg, s, x, norm) then M.FRESH else observed, pins, Ips(pins), x.now)
  }

  /** The tick credits a sample. */
  predicate Credits(cfg: Settings, s: State, x: Input, norm: P.Normaliser) {
    KbpsOf(cfg, s, x).Some? && M.Watching(cfg.meter, Next(cfg, s, x, norm).meter)
  }

  // --- the program ---------------------------------------------------------

  class Watcher {
    const cfg: Settings
    const meter: M.Counter
    var pins: seq<P.Pin>
    var metered: seq<P.Ip>
    var lastTick: int

    constructor (cfg: Settings, pins: seq<P.Pin>)
      ensures fresh(meter) && meter.cfg == cfg.meter && this.cfg == cfg
      ensures Snapshot() == State(M.FRESH, pins, [], 0)
    {
      this.cfg := cfg;
      meter := new M.Counter(cfg.meter);
      this.pins, metered, lastTick := pins, [], 0;
    }

    function Snapshot(): State
      reads this, meter
    {
      State(meter.Snapshot(), pins, metered, lastTick)
    }

    method Observe(x: Input, norm: P.Normaliser) returns (watching: bool)
      requires meter.cfg == cfg.meter
      modifies this, meter
      ensures Snapshot() == Next(cfg, old(Snapshot()), x, norm)
      ensures watching == Credits(cfg, old(Snapshot()), x, norm)
    {
      ghost var s := Snapshot();
      var elapsed := if lastTick != 0 then x.now - lastTick else cfg.meter.sampleSec;
      lastTick := x.now;
      var raw := if metered != [] then x.raw else None;
      var kbps := meter.Observe(raw, elapsed as real);
      var active := if kbps.Some? && kbps.value > 0.0 then IpSet(pins) else {};
      assert P.Look(x.resolved, active, x.now, cfg.pinIdleExpireSec) == LookOf(cfg, s, x);
      var added, evicted;
      pins, added, evicted := P.Update(pins, P.Look(x.resolved, active, x.now, cfg.pinIdleExpireSec), norm);
      var current := Ips(pins);
      if current != metered {
        metered := current;
        if x.restarts {
          meter.Reset();
        }
      }
      watching := kbps.Some? && M.Watching(cfg.meter, meter.Snapshot());
    }
  }

  // --- runs ----------------------------------------------------------------

  function Start(pins: seq<P.Pin>): State { State(M.FRESH, pins, [], 0) }

  function After(cfg: Settings, pins: seq<P.Pin>, xs: seq<Input>, norm: P.Normaliser): State {
    if xs == [] then Start(pins)
    else Next(cfg, After(cfg, pins, xs[..|xs| - 1], norm), xs[|xs| - 1], norm)
  }

  // What the counter did at one tick: the reading it gave for a non-empty metered set, the
  // session it was in, and whether this program restarted it afterwards.
  datatype Fact = Fact(reading: Option<nat>, session: nat, restarted: bool)

  function FactOf(cfg: Settings, s: State, x: Input, norm: P.Normaliser): Fact {
    Fact(ReadingOf(s, x), x.session, RestartsCounter(cfg, s, x, norm))
  }

  function Facts(cfg: Settings, pins: seq<P.Pin>, xs: seq<Input>, norm: P.Normaliser): (facts: seq<Fact>)
    ensures |facts| == |xs|
  {
    if xs == [] then []
    else
      var earlier := xs[..|xs| - 1];
      Facts(cfg, pins, earlier, norm) + [FactOf(cfg, After(cfg, pins, earlier, norm), xs[|xs| - 1], norm)]
  }

  // This program did not restart the counter after the reading of tick `from` up to tick `to - 1`.
  predicate NoRestart(facts: seq<Fact>, from: int, to: int)
    requires 0 <= from && to <= |facts|
  {
    forall k :: from <= k < to ==> !facts[k].restarted
  }

  // No reading from tick `from` up to and including tick `to - 1` failed or was skipped.
  predicate AllRead(facts: seq<Fact>, from: int, to: int)
    requires 0 <= from && to <= |facts|
  {
    forall k :: from <= k < to ==> facts[k].reading.Some?
  }

  // --- where the baseline comes from ---------------------------------------

  /** The tick whose reading the next delta is taken from: the last one that covered some time, unless
      the counter was restarted or unreadable since. */
  function Origin(cfg: Settings, pins: seq<P.Pin>, xs: seq<Input>, norm: P.Normaliser): (j: Option<nat>)
    ensures j.Some? ==> j.value < |xs|
  {
    if xs == [] then None
    else
      var earlier, x := xs[..|xs| - 1], xs[|xs| - 1];
      var s := After(cfg, pins, earlier, norm);
      if RestartsCounter(cfg, s, x, norm) || ReadingOf(s, x).None? then None
      else if ElapsedSec(cfg, s, x) <= 0 then Origin(cfg, pins, earlier, norm)
      else Some(|earlier|)
  }

  // The baseline is the reading of tick `from`, with neither a restart nor a failed reading since.
  predicate ReadAt(facts: seq<Fact>, from: Option<nat>, baseline: Option<int>) {
    if from.None? then baseline.None?
    else
      && from.value < |facts| && facts[from.value].reading == baseline
      && NoRestart(facts, from.value, |facts|) && AllRead(facts, from.value, |facts|)
  }

  lemma ReadAtGrows(facts: seq<Fact>, from: nat, baseline: Option<int>, f: Fact)
    requires !f.restarted && f.reading.Some?
    ensures ReadAt(facts, Some(from), baseline) ==> ReadAt(facts + [f], Some(from), baseline)
    ensures ReadAt(facts + [f], Some(|facts|), f.reading)
  {
    var all := facts + [f];
    assert all[|facts|] == f;
    if ReadAt(facts, Some(from), baseline) {
      assert all[from] == facts[from];
      assert forall k :: from <= k < |facts| ==> all[k] == facts[k];
    }
  }

  lemma NextBaseline(cfg: Settings, s: State, x: Input, norm: P.Normaliser)
    ensures var prev := Next(cfg, s, x, norm).meter.prev;
            if RestartsCounter(cfg, s, x, norm) || ReadingOf(s, x).None? then prev.None?
            else prev == if ElapsedSec(cfg, s, x) <= 0 then s.meter.prev else ReadingOf(s, x)
  {
  }

  /** The meter's baseline is always the reading of its origin, and since then this program has neither
      restarted the counter nor failed to read it. */
  lemma {:induction false} BaselineIsOfThisSession(cfg: Settings, pins: seq<P.Pin>, xs: seq<Input>, norm: P.Normaliser)
    ensures ReadAt(Facts(cfg, pins, xs, norm), Origin(cfg, pins, xs, norm), After(cfg, pins, xs, norm).meter.prev)
  {
    if xs != [] {
      var earlier, x := xs[..|xs| - 1], xs[|xs| - 1];
      BaselineIsOfThisSession(cfg, pins, earlier, norm);
      var s, f := After(cfg, pins, earlier, norm), FactOf(cfg, After(cfg, pins, earlier, norm), x, norm);
      NextBaseline(cfg, s, x, norm);
      if !f.restarted && f.reading.Some? {
        var from := Origin(cfg, pins, earlier, norm);
        ReadAtGrows(Facts(cfg, pins, earlier, norm), if from.Some? then from.value else 0, s.meter.prev, f);
      }
    }
  }

  lemma CreditFacts(cfg: Settings, s: State, x: Input, norm: P.Normaliser)
    requires Credits(cfg, s, x, norm)
    ensures s.metered != [] && x.raw.Some? && s.meter.prev.Some? && s.meter.prev.value <= x.raw.value
    ensures ElapsedSec(cfg, s, x) > 0
    ensures KbpsOf(cfg, s, x) == Some(M.Rate(x.raw.value - s.meter.prev.value, ElapsedSec(cfg, s, x) as real))
    ensures FactOf(cfg, s, x, norm) == Fact(x.raw, x.session, false)
  {
  }

  /** The last tick's rate is the bytes between the reading of tick `from` and its own, over its own
      time: the counter was read all along, this program did not restart it, and it is not below
      where it was. */
  predicate IsRateSince(facts: seq<Fact>, from: nat, kbps: Option<real>, elapsed: real) {
    var n := |facts| - 1;
    && elapsed > 0.0 && from < n && NoRestart(facts, from, |facts|) && AllRead(facts, from, |facts|)
    && facts[from].reading.value <= facts[n].reading.value
    && kbps == Some(M.Rate(facts[n].reading.value - facts[from].reading.value, elapsed))
  }

  lemma BaselineGivesRate(
      earlier: seq<Fact>, from: nat, f: Fact, before: int, after: nat, kbps: Option<real>, elapsed: real)
    requires ReadAt(earlier, Some(from), Some(before)) && before <= after && elapsed > 0.0
    requires f.reading == Some(after) && !f.restarted && kbps == Some(M.Rate(after - before, elapsed))
    ensures IsRateSince(earlier + [f], from, kbps, elapsed)
  {
    ReadAtGrows(earlier, from, Some(before), f);
  }

  lemma CreditFromBaseline(
      cfg: Settings, facts: seq<Fact>, from: Option<nat>, s: State, x: Input, norm: P.Normaliser)
    requires Credits(cfg, s, x, norm) && ReadAt(facts, from, s.meter.prev)
    ensures s.metered != [] && from.Some?
    ensures IsRateSince(facts + [FactOf(cfg, s, x, norm)], from.value, KbpsOf(cfg, s, x),
                        ElapsedSec(cfg, s, x) as real)
  {
    CreditFacts(cfg, s, x, norm);
    BaselineGivesRate(facts, from.value, FactOf(cfg, s, x, norm), s.meter.prev.value, x.raw.value,
                      KbpsOf(cfg, s, x), ElapsedSec(cfg, s, x) as real);
  }

  // --- counter sessions ----------------------------------------------------

  // Sessions are counted up, and a restart by this program begins a new one.
  predicate Counted(facts: seq<Fact>) {
    forall k :: 0 <= k < |facts| - 1 ==>
      facts[k].session <= facts[k + 1].session && (facts[k].restarted ==> facts[k].session < facts[k + 1].session)
  }

  // Somebody else recreated the counter between two of these ticks.
  predicate Unreported(facts: seq<Fact>, from: int, to: int)
    requires 0 <= from <= to < |facts|
  {
    exists k :: from <= k < to && facts[k].session != facts[k + 1].session && !facts[k].restarted
  }

  lemma {:induction false} SessionsGrow(facts: seq<Fact>, from: int, last: int)
    requires Counted(facts) && 0 <= from <= last < |facts|
    ensures facts[from].session <= facts[last].session
    ensures facts[from].session == facts[last].session
       <==> (forall k :: from <= k < last ==> facts[k].session == facts[k + 1].session)
    decreases last - from
  {
    if from < last {
      assert facts[from].session <= facts[from + 1].session;
      SessionsGrow(facts, from + 1, last);
    }
  }

  /** The rate is the delta of two readings with neither a failed reading nor a restart of this program's
      between them, and no more than the counter has counted in the session it is in now. Both readings are
      of one session if and only if nobody else recreated the counter in between. */
  predicate IsCreditable(facts: seq<Fact>, from: nat, kbps: Option<real>, elapsed: real) {
    var n := |facts| - 1;
    && IsRateSince(facts, from, kbps, elapsed)
    && kbps.value <= M.Rate(facts[n].reading.value, elapsed)
    && (Counted(facts) ==> (facts[from].session == facts[n].session <==> !Unreported(facts, from, n)))
  }

  lemma EveryRateIsCreditable(facts: seq<Fact>, from: nat, kbps: Option<real>, elapsed: real)
    requires IsRateSince(facts, from, kbps, elapsed)
    ensures IsCreditable(facts, from, kbps, elapsed)
  {
    var n := |facts| - 1;
    MoreBytesMoreRate(facts[n].reading.value - facts[from].reading.value, facts[n].reading.value, elapsed);
    if Counted(facts) { OneSessionExactly(facts, from, n); }
  }

  /** A tick credits time only while a non-empty set is metered, and only on a creditable rate: even where the
      other watcher recreated the counter unseen, no byte is credited that the new session has not counted. */
  lemma {:induction false} CreditNeedsOneSession(
      cfg: Settings, pins: seq<P.Pin>, xs: seq<Input>, x: Input, norm: P.Normaliser)
    requires Credits(cfg, After(cfg, pins, xs, norm), x, norm)
    ensures After(cfg, pins, xs, norm).metered != [] && Origin(cfg, pins, xs, norm).Some?
    ensures var s := After(cfg, pins, xs, norm);
            IsCreditable(Facts(cfg, pins, xs, norm) + [FactOf(cfg, s, x, norm)], Origin(cfg, pins, xs, norm).value,
                         KbpsOf(cfg, s, x), ElapsedSec(cfg, s, x) as real)
  {
    BaselineIsOfThisSession(cfg, pins, xs, norm);
    CreditFrom(cfg, Facts(cfg, pins, xs, norm), Origin(cfg, pins, xs, norm), After(cfg, pins, xs, norm), x, norm);
  }

  lemma CreditFrom(cfg: Settings, facts: seq<Fact>, from: Option<nat>, s: State, x: Input, norm: P.Normaliser)
    requires Credits(cfg, s, x, norm) && ReadAt(facts, from, s.meter.prev)
    ensures s.metered != [] && from.Some?
    ensures IsCreditable(facts + [FactOf(cfg, s, x, norm)], from.value, KbpsOf(cfg, s, x),
                         ElapsedSec(cfg, s, x) as real)
  {
    CreditFromBaseline(cfg, facts, from, s, x, norm);
    EveryRateIsCreditable(facts + [FactOf(cfg, s, x, norm)], from.value, KbpsOf(cfg, s, x),
                          ElapsedSec(cfg, s, x) as real);
  }

  lemma MoreBytesMoreRate(a: int, b: int, elapsed: real)
    requires a <= b && elapsed > 0.0
    ensures M.Rate(a, elapsed) <= M.Rate(b, elapsed)
  {
    var x, y := (a * 8) as real / 1000.0, (b * 8) as real / 1000.0;
    assert x <= y;
    QuotientsGrow(x, y, elapsed);
  }

  lemma QuotientsGrow(x: real, y: real, z: real)
    requires x <= y && z > 0.0
    ensures x / z <= y / z
  {
  }

  lemma OneSessionExactly(facts: seq<Fact>, from: nat, to: nat)
    requires Counted(facts) && from <= to < |facts| && NoRestart(facts, from, to)
    ensures facts[from].session == facts[to].session <==> !Unreported(facts, from, to)
  {
    SessionsGrow(facts, from, to);
  }

  // --- a watcher that only looks -------------------------------------------

  // One pin, still live: it stays the only one.
  lemma OnePinStays(p: P.Pin, look: P.Look, norm: P.Normaliser)
    requires look.resolved == [] && look.idleExpireSec > 0 && look.now - p.lastActive < look.idleExpireSec
    ensures var kept := P.Kept([p], look, norm);
            kept == [if p.ip in look.active then p.(lastActive := look.now) else p]
  {
    var q := if p.ip in look.active then p.(lastActive := look.now) else p;
    assert P.FromList([p][..0]) == [] && P.FromList([p]) == [p];
    assert P.Touch([p], look.active, look.now) == [q] + [];
    assert P.Refreshed([p], look, norm) == [q];
    assert !P.Idle(q, look) && [q][1..] == [];
    assert P.Where([q][1..], look, false) == [];
    assert P.Live([p], look, norm) == [q] + [];
    OneIsSorted(P.RanksBefore, q);
    OneIsSorted(P.IpBefore, q);
  }

  lemma OneIsSorted(le: (P.Pin, P.Pin) -> bool, p: P.Pin)
    ensures P.SortBy(le, [p]) == [p]
  {
    assert [p][1..] == [] && P.SortBy(le, [p][1..]) == [];
    assert P.SortBy(le, [p]) == [p] + [];
  }

  const SHADOW := Settings(M.Settings(60, 20, 100.0), 600)
  const VIDEO := P.Pin("1.1.1.1", 0, 100, true)

  function Literally(raw: string): Option<P.Ip> { Some(raw) }

  // Twenty seconds apart, nothing resolved, and the counter is not this program's to restart.
  function Look(now: int, raw: Option<nat>, session: nat): Input { Input(now, [], raw, false, session) }

  lemma LookOnce(s: State, x: Input)
    requires |s.pins| == 1 && s.pins[0].ip == VIDEO.ip && s.pins[0].lastActive >= 100
    requires x == Look(x.now, x.raw, x.session) && 100 <= x.now <= 200
    ensures var t := Next(SHADOW, s, x, Literally);
            && |t.pins| == 1 && t.pins[0].ip == VIDEO.ip && t.pins[0].lastActive >= 100
            && t.metered == [VIDEO.ip] && t.lastTick == x.now
            && t.meter == M.Observed(SHADOW.meter, s.meter, ReadingOf(s, x), ElapsedSec(SHADOW, s, x) as real)
  {
    assert s.pins == [s.pins[0]];
    OnePinStays(s.pins[0], LookOf(SHADOW, s, x), Literally);
    var kept := PinsAfter(SHADOW, s, x, Literally);
    assert Ips(kept) == [kept[0].ip] + Ips(kept[1..]);
  }

  /** In shadow mode the other watcher may recreate the counter unseen: with a baseline of 1000 bytes from the
      old session, a reading of nine million from the new one is credited. */
  lemma TwoSessionsExample()
    ensures var first, second, third := Look(100, None, 1), Look(120, Some(1000), 1), Look(140, Some(9_000_000), 2);
            var s := After(SHADOW, [VIDEO], [first, second], Literally);
            Credits(SHADOW, s, third, Literally) && Origin(SHADOW, [VIDEO], [first, second], Literally) == Some(1)
            && second.session != third.session
  {
    var first, second, third := Look(100, None, 1), Look(120, Some(1000), 1), Look(140, Some(9_000_000), 2);
    var s0 := Start([VIDEO]);
    var s1 := Next(SHADOW, s0, first, Literally);
    var s2 := Next(SHADOW, s1, second, Literally);
    LookOnce(s0, first);
    LookOnce(s1, second);
    LookOnce(s2, third);
    assert [first, second][..1] == [first] && [first][..0] == [];
    assert After(SHADOW, [VIDEO], [first], Literally) == s1;
    assert After(SHADOW, [VIDEO], [first, second], Literally) == s2;
    assert s2.meter.prev == Some(1000);
    assert KbpsOf(SHADOW, s2, third) == Some(M.Rate(8_999_000, 20.0));
    assert M.Rate(8_999_000, 20.0) == 3599.6;
  }

  // --- the same run as the meter sees it -----------------------------------

  function MeterEventsOf(cfg: Settings, s: State, x: Input, norm: P.Normaliser): seq<M.Event> {
    [M.Reading(ReadingOf(s, x), ElapsedSec(cfg, s, x) as real)]
    + if RestartsCounter(cfg, s, x, norm) then [M.Restart] else []
  }

  function MeterEvents(cfg: Settings, pins: seq<P.Pin>, xs: seq<Input>, norm: P.Normaliser): seq<M.Event> {
    if xs == [] then []
    else
      var earlier := xs[..|xs| - 1];
      MeterEvents(cfg, pins, earlier, norm) + MeterEventsOf(cfg, After(cfg, pins, earlier, norm), xs[|xs| - 1], norm)
  }

  lemma MeterAfterEvents(cfg: M.Settings, events: seq<M.Event>, reading: Option<int>, elapsed: real, restarted: bool)
    ensures M.After(cfg, events + ([M.Reading(reading, elapsed)] + if restarted then [M.Restart] else []))
         == if restarted then M.FRESH else M.Observed(cfg, M.After(cfg, events), reading, elapsed)
  {
    var one := events + [M.Reading(reading, elapsed)];
    assert one[..|one| - 1] == events;
    if restarted {
      assert events + ([M.Reading(reading, elapsed)] + [M.Restart]) == one + [M.Restart];
    } else {
      assert events + ([M.Reading(reading, elapsed)] + []) == one;
    }
  }

  lemma {:induction false} MeterFollowsEvents(cfg: Settings, pins: seq<P.Pin>, xs: seq<Input>, norm: P.Normaliser)
    ensures After(cfg, pins, xs, norm).meter == M.After(cfg.meter, MeterEvents(cfg, pins, xs, norm))
  {
    if xs != [] {
      var earlier, x := xs[..|xs| - 1], xs[|xs| - 1];
      MeterFollowsEvents(cfg, pins, earlier, norm);
      var s := After(cfg, pins, earlier, norm);
      MeterAfterEvents(cfg.meter, MeterEvents(cfg, pins, earlier, norm), ReadingOf(s, x),
                       ElapsedSec(cfg, s, x) as real, RestartsCounter(cfg, s, x, norm));
    }
  }

  /** A credited tick has a sample at or above the threshold behind it, taken since the last
      restart and less than a window of usable time ago. */
  lemma CreditNeedsARecentHigh(cfg: Settings, pins: seq<P.Pin>, xs: seq<Input>, norm: P.Normaliser)
    requires xs != []
    requires Credits(cfg, After(cfg, pins, xs[..|xs| - 1], norm), xs[|xs| - 1], norm)
    ensures M.HighWithinWindow(cfg.meter, M.Samples(cfg.meter, MeterEvents(cfg, pins, xs, norm)))
  {
    MeterFollowsEvents(cfg, pins, xs, norm);
    M.WatchingMeaning(cfg.meter, MeterEvents(cfg, pins, xs, norm));
  }

  // --- what a tick passes on -----------------------------------------------

  /** The metered set of the next tick is the addresses of the pins it starts with, one for one. */
  lemma {:induction false} MeteredAreThePins(pins: seq<P.Pin>)
    ensures |Ips(pins)| == |pins| && forall i :: 0 <= i < |pins| ==> Ips(pins)[i] == pins[i].ip
  {
    if pins != [] { MeteredAreThePins(pins[1..]); }
  }

  /** A sample is taken over the time since the tick before. */
  lemma SampleIsSinceLastTick(cfg: Settings, pins: seq<P.Pin>, xs: seq<Input>, x: Input, norm: P.Normaliser)
    requires xs != [] && xs[|xs| - 1].now != 0
    ensures ElapsedSec(cfg, After(cfg, pins, xs, norm), x) == x.now - xs[|xs| - 1].now
    ensures After(cfg, pins, xs, norm).metered == Ips(After(cfg, pins, xs, norm).pins)
  {
  }

  /** Traffic is use of every pin there is, since the counter does not say whose it was: after a tick that measured
      some, each was active now; after one that measured none, or nothing usable, only the resolved ones were. */
  lemma TrafficIsUse(cfg: Settings, s: State, x: Input, norm: P.Normaliser, p: P.Pin)
    requires P.Unique(s.pins) && p in s.pins
    ensures var look, kbps := LookOf(cfg, s, x), KbpsOf(cfg, s, x);
            var used := (kbps.Some? && kbps.value > 0.0) || P.ResolvedNow(look, norm, p.ip);
            P.Get(P.Refreshed(s.pins, look, norm), p.ip)
            == Some(P.Pin(p.ip, p.firstSeen, if used then x.now else p.lastActive,
                          p.video || P.VideoNow(look, norm, p.ip)))
  {
    var look := LookOf(cfg, s, x);
    P.RefreshedMeaning(s.pins, look, norm, p.ip);
    ListKeepsPin(s.pins, p);
    assert p.ip in IpSet(s.pins);
  }

  lemma {:induction false} ListKeepsPin(pins: seq<P.Pin>, p: P.Pin)
    requires P.Unique(pins)
    ensures p in pins ==> P.Get(P.FromList(pins), p.ip) == Some(p)
    ensures (forall q :: q in pins ==> q.ip != p.ip) ==> P.Get(P.FromList(pins), p.ip).None?
    decreases |pins|
  {
    if pins != [] {
      var n := |pins| - 1;
      ListKeepsPin(pins[..n], p);
      P.GetPut(P.FromList(pins[..n]), pins[n], p.ip);
      assert pins == pins[..n] + [pins[n]];
      assert P.Unique(pins[..n]) && forall i :: 0 <= i < n ==> pins[..n][i] == pins[i] && pins[i].ip != pins[n].ip;
    }
  }

  /** The meter is forgotten exactly if the metered set changed and the platform restarted the counter for it; a
      tick that leaves the set alone leaves the window and the clock to go on. */
  lemma MeterIsForgottenExactly(cfg: Settings, s: State, x: Input, norm: P.Normaliser)
    ensures var t, seen := Next(cfg, s, x, norm),
                           M.Observed(cfg.meter, s.meter, ReadingOf(s, x), ElapsedSec(cfg, s, x) as real);
            t.meter == if t.metered != s.metered && x.restarts then M.FRESH else seen
  {
  }
}
