/** The weekly allow-schedule: modular week-minute arithmetic, the search for the next
    transition, and the expiry of a hold. A moment is a count of microseconds of local time
    from some Monday 00:00. */
module Schedule {
  import opened Wrappers

  const MINUTES_PER_DAY := 1440
  const MINUTES_PER_WEEK := 10080
  const MINUTE := 60_000_000
  const SECOND := 1_000_000

  datatype Verdict = ALLOWED | BLOCKED
  datatype Mode = AlwaysBlocked | AlwaysAllowed | BySchedule

  // No hours: the whole day. An end before the start crosses midnight.
  datatype Window = Window(days: seq<int>, hours: Option<(int, int)>) {
    function Start(): int { if hours.None? then 0 else hours.value.0 }
    function Span(): int {
      if hours.None? then MINUTES_PER_DAY else (hours.value.1 - hours.value.0) % MINUTES_PER_DAY
    }
  }

  datatype Hold = Hold(state: Verdict, untilTs: int)
  datatype Config = Config(mode: Mode, windows: seq<Window>, hold: Option<Hold>)

  // --- what the windows mean -----------------------------------------------

  // How many minutes after `base` the week-minute `m` comes round.
  function MinutesPast(base: int, m: int): int { (m - base) % MINUTES_PER_WEEK }

  /** Week-minute `m` falls in the window as it opens on `day`. */
  predicate OpenOn(w: Window, day: int, m: int) {
    MinutesPast(day * MINUTES_PER_DAY + w.Start(), m) < w.Span()
  }

  predicate Covers(w: Window, m: int) { exists i :: 0 <= i < |w.days| && OpenOn(w, w.days[i], m) }

  predicate AllowsMinute(c: Config, m: int) {
    c.mode.AlwaysAllowed?
    || (c.mode.BySchedule? && exists j :: 0 <= j < |c.windows| && Covers(c.windows[j], m))
  }

  function AllowedMinutes(c: Config): set<int> {
    set m | 0 <= m < MINUTES_PER_WEEK && AllowsMinute(c, m)
  }

  function Range(n: nat): (r: set<int>)
    ensures |r| == n
    ensures forall m :: m in r <==> 0 <= m < n
  {
    if n == 0 then {} else Range(n - 1) + {n - 1}
  }

  predicate InWeek(m: int) { 0 <= m < MINUTES_PER_WEEK }

  function WholeWeek(): set<int> { set m | 0 <= m < MINUTES_PER_WEEK && InWeek(m) }

  lemma WeekSize(n: nat)
    requires n == MINUTES_PER_WEEK
    ensures |WholeWeek()| == n
  {
    assert WholeWeek() == Range(n);
  }

  // --- clock arithmetic ----------------------------------------------------

  // The minute a moment falls in, counted from the Monday 00:00 of the clock.
  function MinuteOf(t: int): int { t / MINUTE }

  function WeekMinute(t: int): int { MinuteOf(t) % MINUTES_PER_WEEK }

  function Weekday(t: int): int { MinuteOf(t) / MINUTES_PER_DAY % 7 }
  function Hour(t: int): int { MinuteOf(t) / 60 % 24 }
  function MinuteOfHour(t: int): int { MinuteOf(t) % 60 }

  /** The week-minute is the one the calendar fields give. */
  lemma WeekMinuteOfCalendar(t: int)
    ensures WeekMinute(t) == Weekday(t) * MINUTES_PER_DAY + Hour(t) * 60 + MinuteOfHour(t)
  {
    var n := MinuteOf(t);
    assert n == n / MINUTES_PER_DAY * MINUTES_PER_DAY + Hour(t) * 60 + MinuteOfHour(t);
  }

  predicate MinuteAllowed(allowed: set<int>, n: int) { n % MINUTES_PER_WEEK in allowed }
  predicate Allows(c: Config, t: int) { MinuteAllowed(AllowedMinutes(c), MinuteOf(t)) }
  function DesiredState(c: Config, t: int): Verdict { if Allows(c, t) then ALLOWED else BLOCKED }

  function Toggled(v: Verdict): Verdict { if v == ALLOWED then BLOCKED else ALLOWED }

  // --- the program: the set of allowed minutes -----------------------------

  lemma OffsetRoundTrip(base: int, offset: int, m: int)
    requires 0 <= offset < MINUTES_PER_WEEK && 0 <= m < MINUTES_PER_WEEK
    ensures MinutesPast(base, m) == offset <==> m == (base + offset) % MINUTES_PER_WEEK
  {
  }

  method WindowMinutes(w: Window) returns (minutes: set<int>)
    ensures minutes == set m | 0 <= m < MINUTES_PER_WEEK && Covers(w, m)
  {
    minutes := {};
    var start, span := 0, MINUTES_PER_DAY;
    if w.hours.Some? {
      start := w.hours.value.0;
      span := (w.hours.value.1 - w.hours.value.0) % MINUTES_PER_DAY;
    }
    for i := 0 to |w.days|
      invariant forall m :: m in minutes <==>
        0 <= m < MINUTES_PER_WEEK && exists k :: 0 <= k < i && OpenOn(w, w.days[k], m)
    {
      var base := w.days[i] * MINUTES_PER_DAY + start;
      ghost var earlier := minutes;
      for offset := 0 to span
        invariant forall m :: m in minutes <==>
          m in earlier || (0 <= m < MINUTES_PER_WEEK && MinutesPast(base, m) < offset)
      {
        forall m {:trigger MinutesPast(base, m)} | 0 <= m < MINUTES_PER_WEEK
          ensures MinutesPast(base, m) == offset <==> m == (base + offset) % MINUTES_PER_WEEK
        {
          OffsetRoundTrip(base, offset, m);
        }
        minutes := minutes + {(base + offset) % MINUTES_PER_WEEK};
      }
      assert forall m :: OpenOn(w, w.days[i], m) <==> MinutesPast(base, m) < span;
    }
  }

  // The minutes the first j windows cover.
  predicate CoveredBy(windows: seq<Window>, j: nat, m: int)
    requires j <= |windows|
  {
    exists k :: 0 <= k < j && Covers(windows[k], m)
  }

  lemma OneMoreWindow(windows: seq<Window>, j: nat, m: int)
    requires j < |windows|
    ensures CoveredBy(windows, j + 1, m) <==> CoveredBy(windows, j, m) || Covers(windows[j], m)
  {
  }

  /** The minutes collected one by one are those of the closed form, midnight and the wrap
      from Sunday to Monday included. */
  method CollectAllowedMinutes(c: Config) returns (allowed: set<int>)
    ensures allowed == AllowedMinutes(c)
  {
    if c.mode.AlwaysAllowed? {
      return WholeWeek();
    }
    allowed := {};
    if c.mode.AlwaysBlocked? {
      return;
    }
    allowed := CollectWindows(c.windows);
  }

  method CollectWindows(windows: seq<Window>) returns (allowed: set<int>)
    ensures allowed == set m | 0 <= m < MINUTES_PER_WEEK && CoveredBy(windows, |windows|, m)
  {
    allowed := {};
    for j := 0 to |windows|
      invariant allowed == set m | 0 <= m < MINUTES_PER_WEEK && CoveredBy(windows, j, m)
    {
      var minutes := WindowMinutes(windows[j]);
      forall m ensures CoveredBy(windows, j + 1, m) <==> CoveredBy(windows, j, m) || Covers(windows[j], m) {
        OneMoreWindow(windows, j, m);
      }
      allowed := allowed + minutes;
    }
  }

  // --- weakening -----------------------------------------------------------

  predicate Weakens(new': Config, old': Config) { AllowedMinutes(new') - AllowedMinutes(old') != {} }

  /** A change needs the password exactly when at some moment it allows what was blocked. */
  lemma WeakensMeansSomeMomentOpens(new': Config, old': Config)
    ensures Weakens(new', old')
       <==> exists t :: DesiredState(new', t) == ALLOWED && DesiredState(old', t) == BLOCKED
  {
    if Weakens(new', old') {
      var m :| m in AllowedMinutes(new') - AllowedMinutes(old');
      assert MinuteOf(m * MINUTE) == m;
      assert DesiredState(new', m * MINUTE) == ALLOWED && DesiredState(old', m * MINUTE) == BLOCKED;
    }
    if t :| DesiredState(new', t) == ALLOWED && DesiredState(old', t) == BLOCKED {
      assert WeekMinute(t) in AllowedMinutes(new') - AllowedMinutes(old');
    }
  }

  /** Changes that each need no password need none taken together. */
  lemma NotWeakeningComposes(a: Config, b: Config, c: Config)
    requires !Weakens(b, a) && !Weakens(c, b)
    ensures !Weakens(c, a)
  {
    forall m | m in AllowedMinutes(c) ensures m in AllowedMinutes(a) {
      assert m !in AllowedMinutes(c) - AllowedMinutes(b);
      assert m !in AllowedMinutes(b) - AllowedMinutes(a);
    }
  }

  // --- the next transition -------------------------------------------------

  // The first of the minutes from `k` to `last` that is not `now`.
  function Scan(allowed: set<int>, now: bool, k: int, last: int): Option<int>
    decreases last + 1 - k
  {
    if k > last then None
    else if MinuteAllowed(allowed, k) != now then Some(k)
    else Scan(allowed, now, k + 1, last)
  }

  function ScanWeek(allowed: set<int>, now: bool, n: int): Option<int> {
    Scan(allowed, now, n + 1, n + MINUTES_PER_WEEK)
  }

  function NextChange(c: Config, t: int): Option<(Verdict, int)> {
    var allowed := AllowedMinutes(c);
    if !c.mode.BySchedule? || c.windows == [] || allowed == {} || |allowed| == MINUTES_PER_WEEK then None
    else
      var now := Allows(c, t);
      match ScanWeek(allowed, now, MinuteOf(t))
      case None => None
      case Some(n) => Some((if now then BLOCKED else ALLOWED, n * MINUTE))
  }

  method FindNextChange(c: Config, t: int) returns (change: Option<(Verdict, int)>)
    ensures change == NextChange(c, t)
  {
    if !c.mode.BySchedule? || c.windows == [] {
      return None;
    }
    var allowed := CollectAllowedMinutes(c);
    if allowed == {} || |allowed| == MINUTES_PER_WEEK {
      return None;
    }
    var base := MinuteOf(t) * MINUTE;
    MinutesLater(allowed, MinuteOf(t), 0);
    var nowState := WeekMinute(base) in allowed;
    var ahead := MinutesToChange(allowed, MinuteOf(t), nowState);
    if ahead.None? { return None; }
    return Some((if nowState then BLOCKED else ALLOWED, base + ahead.value * MINUTE));
  }

  // The walk over one week, minute by minute.
  method MinutesToChange(allowed: set<int>, n: int, nowState: bool) returns (found: Option<int>)
    ensures match ScanWeek(allowed, nowState, n)
            case None => found == None
            case Some(k) => found == Some(k - n)
  {
    var base := n * MINUTE;
    for ahead := 1 to MINUTES_PER_WEEK + 1
      invariant Scan(allowed, nowState, n + ahead, n + MINUTES_PER_WEEK) == ScanWeek(allowed, nowState, n)
    {
      MinutesLater(allowed, n, ahead);
      if (WeekMinute(base + ahead * MINUTE) in allowed) != nowState {
        return Some(ahead);
      }
    }
    return None;
  }

  lemma MinutesLater(allowed: set<int>, n: int, ahead: int)
    ensures n * MINUTE + ahead * MINUTE == (n + ahead) * MINUTE
    ensures WeekMinute(n * MINUTE + ahead * MINUTE) in allowed <==> MinuteAllowed(allowed, n + ahead)
  {
    assert MinuteOf((n + ahead) * MINUTE) == n + ahead;
  }

  ghost predicate Steady(c: Config, from: int, to: int) {
    forall u :: from <= u < to ==> DesiredState(c, u) == DesiredState(c, from)
  }

  ghost predicate NeverChanges(c: Config) { forall u, v :: DesiredState(c, u) == DesiredState(c, v) }

  lemma {:induction false} ScanFindsFirst(allowed: set<int>, now: bool, k: int, last: int)
    ensures match Scan(allowed, now, k, last)
            case None => forall i :: k <= i <= last ==> MinuteAllowed(allowed, i) == now
            case Some(found) =>
              && k <= found <= last && MinuteAllowed(allowed, found) != now
              && forall i :: k <= i < found ==> MinuteAllowed(allowed, i) == now
    decreases last + 1 - k
  {
    if k <= last && MinuteAllowed(allowed, k) == now {
      ScanFindsFirst(allowed, now, k + 1, last);
    }
  }

  lemma {:induction false} SubsetSize(a: set<int>, b: set<int>)
    requires a <= b
    ensures |a| <= |b| && (|a| == |b| ==> a == b)
  {
    assert b == a + (b - a);
  }

  lemma FullWeek(c: Config)
    ensures |AllowedMinutes(c)| == MINUTES_PER_WEEK <==> AllowedMinutes(c) == WholeWeek()
  {
    WeekSize(MINUTES_PER_WEEK);
    SubsetSize(AllowedMinutes(c), WholeWeek());
  }

  lemma SomeMinuteDiffers(c: Config, n: int) returns (k: int)
    requires AllowedMinutes(c) != {} && AllowedMinutes(c) != WholeWeek()
    ensures n <= k < n + MINUTES_PER_WEEK
    ensures MinuteAllowed(AllowedMinutes(c), k) != MinuteAllowed(AllowedMinutes(c), n)
  {
    k := OtherMinute(AllowedMinutes(c), WholeWeek(), n);
  }

  ghost predicate Week(s: set<int>) { forall m :: m in s <==> 0 <= m < MINUTES_PER_WEEK }

  lemma OtherMinute(allowed: set<int>, week: set<int>, n: int) returns (k: int)
    requires Week(week) && allowed != {} && allowed <= week && !(week <= allowed)
    ensures n <= k < n + MINUTES_PER_WEEK
    ensures MinuteAllowed(allowed, k) != MinuteAllowed(allowed, n)
  {
    var m := MinuteOfOtherKind(allowed, week, MinuteAllowed(allowed, n));
    k := n + MinutesPast(n, m);
    ComesRound(n, m);
  }

  lemma SomeMissing(a: set<int>, b: set<int>)
    ensures b <= a || exists m :: m in b && m !in a
  {
    if !(exists m :: m in b && m !in a) { assert b <= a; }
  }

  lemma MinuteOfOtherKind(allowed: set<int>, week: set<int>, kind: bool) returns (m: int)
    requires allowed != {} && allowed <= week && !(week <= allowed)
    ensures m in week && (m in allowed) != kind
  {
    SomeMissing(allowed, week);
    SomeMissing({}, allowed);
    if kind {
      m :| m in week && m !in allowed;
    } else {
      m :| m in allowed && m !in {};
    }
  }

  lemma ComesRound(n: int, m: int)
    requires 0 <= m < MINUTES_PER_WEEK
    ensures (n + MinutesPast(n, m)) % MINUTES_PER_WEEK == m
  {
  }

  lemma {:induction false} SteadyMeansEmptyOrFull(c: Config)
    ensures NeverChanges(c) <==> AllowedMinutes(c) == {} || AllowedMinutes(c) == WholeWeek()
  {
    if AllowedMinutes(c) != {} && AllowedMinutes(c) != WholeWeek() {
      var k := SomeMinuteDiffers(c, 0);
      assert MinuteOf(k * MINUTE) == k;
      assert DesiredState(c, k * MINUTE) != DesiredState(c, 0);
    }
  }

  /** The reported change is the exact first future moment with another verdict: the verdict
      holds from the given moment, seconds included, right up to it; it is at most a week
      away; and none is reported exactly when the verdict never changes. */
  lemma {:induction false} NextChangeIsFirst(c: Config, t: int)
    ensures NextChange(c, t).None? <==> NeverChanges(c)
    ensures match NextChange(c, t)
            case None => true
            case Some((state, when)) =>
              && t < when <= t + MINUTES_PER_WEEK * MINUTE && when % MINUTE == 0
              && state == DesiredState(c, when) == Toggled(DesiredState(c, t))
              && Steady(c, t, when)
  {
    SteadyMeansEmptyOrFull(c);
    FullWeek(c);
    if c.mode.BySchedule? && c.windows != [] && AllowedMinutes(c) != {} && AllowedMinutes(c) != WholeWeek() {
      var other := SomeMinuteDiffers(c, MinuteOf(t));
      OtherMinuteFound(AllowedMinutes(c), MinuteOf(t), other);
      OtherMinuteAsMoment(c, t, ScanWeek(AllowedMinutes(c), Allows(c, t), MinuteOf(t)).value);
    }
  }

  lemma OtherMinuteFound(allowed: set<int>, n: int, other: int)
    requires n <= other < n + MINUTES_PER_WEEK
    requires MinuteAllowed(allowed, other) != MinuteAllowed(allowed, n)
    ensures var now := MinuteAllowed(allowed, n);
            match ScanWeek(allowed, now, n)
            case None => false
            case Some(found) =>
              && n < found <= n + MINUTES_PER_WEEK && MinuteAllowed(allowed, found) != now
              && forall k :: n <= k < found ==> MinuteAllowed(allowed, k) == now
  {
    ScanFindsFirst(allowed, MinuteAllowed(allowed, n), n + 1, n + MINUTES_PER_WEEK);
  }

  lemma OtherMinuteAsMoment(c: Config, t: int, found: int)
    requires MinuteOf(t) < found <= MinuteOf(t) + MINUTES_PER_WEEK
    requires MinuteAllowed(AllowedMinutes(c), found) != Allows(c, t)
    requires forall k :: MinuteOf(t) <= k < found ==> MinuteAllowed(AllowedMinutes(c), k) == Allows(c, t)
    ensures t < found * MINUTE <= t + MINUTES_PER_WEEK * MINUTE
    ensures Allows(c, found * MINUTE) != Allows(c, t)
    ensures forall u :: t <= u < found * MINUTE ==> Allows(c, u) == Allows(c, t)
  {
    assert MinuteOf(found * MINUTE) == found;
    forall u | t <= u < found * MINUTE ensures Allows(c, u) == Allows(c, t) {
      assert MinuteOf(t) <= MinuteOf(u) < found;
    }
  }

  // --- manual holds --------------------------------------------------------

  function NextMidnight(t: int): int {
    (t / MINUTE / MINUTES_PER_DAY + 1) * MINUTES_PER_DAY * MINUTE
  }

  function HoldEnd(c: Config, t: int): int {
    match NextChange(c, t)
    case None => NextMidnight(t)
    case Some((_, when)) => if when < NextMidnight(t) then when else NextMidnight(t)
  }

  predicate HoldActive(c: Config, nowSec: int) { c.hold.Some? && nowSec < c.hold.value.untilTs }

  function EffectiveState(c: Config, t: int): Verdict {
    if HoldActive(c, t / SECOND) then c.hold.value.state else DesiredState(c, t)
  }

  lemma MidnightIsAhead(t: int)
    ensures t < NextMidnight(t) <= t + MINUTES_PER_DAY * MINUTE && NextMidnight(t) % MINUTE == 0
  {
    var d := t / MINUTE / MINUTES_PER_DAY;
    assert d * MINUTES_PER_DAY <= t / MINUTE < (d + 1) * MINUTES_PER_DAY;
  }

  lemma WholeMinuteIsWholeSecond(t: int)
    requires t % MINUTE == 0
    ensures t % SECOND == 0
  {
    assert t == (t / MINUTE) * 60 * SECOND;
  }

  /** A hold placed now ends strictly later, at the next midnight at the latest, on a whole
      second, and the schedule's own verdict does not move before it ends; it ends early only
      at a change of that verdict. */
  lemma {:induction false} HoldEndsAtNextBoundary(c: Config, t: int)
    ensures t < HoldEnd(c, t) <= NextMidnight(t)
    ensures HoldEnd(c, t) % SECOND == 0
    ensures Steady(c, t, HoldEnd(c, t))
    ensures HoldEnd(c, t) < NextMidnight(t) ==> DesiredState(c, HoldEnd(c, t)) != DesiredState(c, t)
  {
    NextChangeIsFirst(c, t);
    MidnightIsAhead(t);
    WholeMinuteIsWholeSecond(HoldEnd(c, t));
  }

  /** A hold placed at `t` decides until the exact moment it ends, which the clock in whole
      seconds does not miss, and from then on the schedule decides again. */
  lemma HoldDecidesUntilItsEnd(c: Config, t: int, state: Verdict, u: int)
    requires t <= u
    ensures var held := c.(hold := Some(Hold(state, HoldEnd(c, t) / SECOND)));
            && (HoldActive(held, u / SECOND) <==> u < HoldEnd(c, t))
            && EffectiveState(held, u) == if u < HoldEnd(c, t) then state else DesiredState(c, u)
  {
    HoldEndsAtNextBoundary(c, t);
    var held := c.(hold := Some(Hold(state, HoldEnd(c, t) / SECOND)));
    assert AllowedMinutes(held) == AllowedMinutes(c);
  }

  // --- the schedule by the calendar ----------------------------------------

  // A window as the panel stores it: days from Monday, times of the day, and never the same time twice.
  predicate Storable(w: Window) {
    && (forall i :: 0 <= i < |w.days| ==> 0 <= w.days[i] < 7)
    && (w.hours.Some? ==> 0 <= w.hours.value.0 < MINUTES_PER_DAY && 0 <= w.hours.value.1 < MINUTES_PER_DAY
                          && w.hours.value.0 != w.hours.value.1)
  }

  /** What a window that opens on `day` covers, by weekday and minute of the day: all of its day; or its hours;
      or, when they end before they begin, the rest of its day and the morning of the next. */
  predicate OpenAt(w: Window, day: int, weekday: int, minute: int) {
    match w.hours
    case None => weekday == day
    case Some((from, until)) =>
      if from < until then weekday == day && from <= minute < until
      else (weekday == day && from <= minute) || (weekday == (day + 1) % 7 && minute < until)
  }

  lemma OpenByTheClock(w: Window, day: int, weekday: int, minute: int)
    requires Storable(w) && 0 <= day < 7 && 0 <= weekday < 7 && 0 <= minute < MINUTES_PER_DAY
    ensures OpenOn(w, day, weekday * MINUTES_PER_DAY + minute) <==> OpenAt(w, day, weekday, minute)
  {
    Wrapped(weekday * MINUTES_PER_DAY + minute - (day * MINUTES_PER_DAY + w.Start()), MINUTES_PER_WEEK);
    Wrapped(day + 1 - 7, 7);
    assert (day + 1) % 7 == if day == 6 then 0 else day + 1;
    if w.hours.Some? { Wrapped(w.hours.value.1 - w.hours.value.0, MINUTES_PER_DAY); }
  }

  lemma Wrapped(x: int, n: int)
    requires n > 0 && -n <= x < n
    ensures x % n == if x < 0 then x + n else x
  {
    if x < 0 { assert x == -1 * n + (x + n); }
  }

  function MinuteOfDay(t: int): int { Hour(t) * 60 + MinuteOfHour(t) }

  predicate WindowAt(w: Window, weekday: int, minute: int) {
    exists i :: 0 <= i < |w.days| && OpenAt(w, w.days[i], weekday, minute)
  }

  /** A moment is allowed exactly if the mode says so, or by schedule if its weekday and its time of the day lie
      in some window, midnight and the end of the week crossed. */
  lemma AllowedByTheCalendar(c: Config, t: int)
    requires forall j :: 0 <= j < |c.windows| ==> Storable(c.windows[j])
    ensures DesiredState(c, t) == ALLOWED <==>
              c.mode.AlwaysAllowed?
              || (c.mode.BySchedule?
                  && exists j :: 0 <= j < |c.windows| && WindowAt(c.windows[j], Weekday(t), MinuteOfDay(t)))
  {
    WeekMinuteOfCalendar(t);
    forall j | 0 <= j < |c.windows|
      ensures Covers(c.windows[j], WeekMinute(t)) <==> WindowAt(c.windows[j], Weekday(t), MinuteOfDay(t))
    {
      CoversByTheClock(c.windows[j], Weekday(t), MinuteOfDay(t));
    }
  }

  lemma CoversByTheClock(w: Window, weekday: int, minute: int)
    requires Storable(w) && 0 <= weekday < 7 && 0 <= minute < MINUTES_PER_DAY
    ensures Covers(w, weekday * MINUTES_PER_DAY + minute) <==> WindowAt(w, weekday, minute)
  {
    forall i | 0 <= i < |w.days|
      ensures OpenOn(w, w.days[i], weekday * MINUTES_PER_DAY + minute) <==> OpenAt(w, w.days[i], weekday, minute)
    {
      OpenByTheClock(w, w.days[i], weekday, minute);
    }
  }
}
