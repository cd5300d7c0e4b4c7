/** What the relay's threads get done: how often they look for an address, and how many steps each of them
    takes. */
module RelayProgress {
  import opened Wrappers
  import opened Relay
  import opened RelaySafety

  // --- discoveries are spaced ----------------------------------------------

  // The clock a thread reads in this event, if it reads one.
  function Clock(e: Event): Option<real> {
    match e
    case Advance(_, input) => Some(input.now)
    case DiscoveryEnds(_, now) => Some(now)
    case _ => None
  }

  // A clock that never runs backwards, read in the order the lock is taken.
  predicate Monotone(events: seq<Event>, since: real)
    decreases |events|
  {
    events != [] ==>
      match Clock(events[0])
      case None => Monotone(events[1..], since)
      case Some(now) => since <= now && Monotone(events[1..], now)
  }

  predicate Apart(begun: seq<real>) {
    forall i, j :: 0 <= i < j < |begun| ==> begun[j] - begun[i] >= 1.0
  }

  // The last refresh is not before any discovery that was begun.
  predicate Paced(w: World, clock: real) {
    Apart(w.begun) && forall i :: 0 <= i < |w.begun| ==> w.begun[i] <= w.fields.lastRefresh && w.begun[i] <= clock
  }

  lemma StepIsPaced(w: World, e: Event, since: real)
    requires Paced(w, since) && (Clock(e).Some? ==> since <= Clock(e).value)
    ensures Paced(Step(w, e), if Clock(e).Some? then Clock(e).value else since)
  {
  }

  lemma {:induction false} RunIsPaced(w: World, events: seq<Event>, since: real)
    requires Paced(w, since) && Monotone(events, since)
    ensures Apart(Run(w, events).begun)
    decreases |events|
  {
    if events != [] {
      StepIsPaced(w, events[0], since);
      var clock := Clock(events[0]);
      RunIsPaced(Step(w, events[0]), events[1..], if clock.Some? then clock.value else since);
    }
  }

  /** However many requests fail at once, two discoveries begin at least a second apart. */
  lemma DiscoveriesAreSpaced(slots: nat, events: seq<Event>, since: real)
    requires Monotone(events, since)
    ensures Apart(After(slots, events).begun)
  {
    RunIsPaced(Initial(slots), events, since);
  }

  // --- how long a thread's work is -----------------------------------------

  // A bound on the steps a thread still has to take.
  function Rank(pc: Pc): nat {
    match pc
    case Over => 0
    case Callback => 1
    case Fallback(_) => 1
    case Heal => 2
    case Degrade(_) => 2
    case AskAgain(_) => 3
    case Reread(_) => 4
    case Await(_) => 5
    case ScheduleAgain(_) => 7
    case Start(next) => 1 + Rank(next)
    case Clear(_) => 8
    case Ask(_) => 9
    case ScheduleMissing => 9
    case GetPrimary => 10
  }

  lemma EveryStepComesCloser(t: Thread, f: Fields, input: Input)
    requires t.pc != Over
    ensures Rank(NextPc(t, f, input)) < Rank(t.pc)
  {
  }

  // How often one thread gets to take a step.
  function Steps(events: seq<Event>, t: Tid): nat
    decreases |events|
  {
    if events == [] then 0
    else (if events[0].Advance? && events[0].t == t then 1 else 0) + Steps(events[1..], t)
  }

  predicate Stays(events: seq<Event>, t: Tid) { forall i :: 0 <= i < |events| ==> events[i] != Finish(t) }

  // What one event leaves of a thread's work.
  lemma OneEvent(w: World, e: Event, t: Tid)
    requires t in w.threads && e != Finish(t)
    ensures t in Step(w, e).threads && Step(w, e).threads[t].kind == w.threads[t].kind
    ensures var before, after := w.threads[t].pc, Step(w, e).threads[t].pc;
            Rank(after) <= Rank(before)
            && (e.Advance? && e.t == t && before != Over ==> Rank(after) < Rank(before))
  {
    if e.Advance? && e.t == t && w.threads[t].pc != Over {
      EveryStepComesCloser(w.threads[t], w.fields, e.input);
    }
  }

  lemma {:induction false} StepsCount(w: World, events: seq<Event>, t: Tid)
    requires t in w.threads && Stays(events, t)
    ensures t in Run(w, events).threads
    ensures var left := Rank(Run(w, events).threads[t].pc);
            left == 0 || left + Steps(events, t) <= Rank(w.threads[t].pc)
    decreases |events|
  {
    if events != [] {
      assert events[0] != Finish(t);
      OneEvent(w, events[0], t);
      assert forall i :: 0 <= i < |events| - 1 ==> events[1..][i] == events[i + 1];
      StepsCount(Step(w, events[0]), events[1..], t);
    }
  }

  lemma RankZero(pc: Pc)
    ensures Rank(pc) == 0 <==> pc == Over
  {
  }

  /** A request or a connection is over after at most ten steps of its own, whatever all other threads, the
      discovery and the network do in between: none of them can send it back or around. That a step is not
      held up, by the lock or by a call without a timeout, is not in this model. */
  lemma EveryThreadEnds(slots: nat, before: seq<Event>, e: Event, later: seq<Event>, t: Tid)
    requires t !in After(slots, before).threads && t in Step(After(slots, before), e).threads
    requires Stays(later, t) && Steps(later, t) >= 10
    ensures At(Run(Step(After(slots, before), e), later), t, Over)
  {
    var w := After(slots, before);
    assert Step(w, e).threads[t].pc == GetPrimary;
    StepsCount(Step(w, e), later, t);
    RankZero(Run(Step(w, e), later).threads[t].pc);
  }

  // The places at which a thread waits for a discovery or uses what it found.
  predicate Waits(pc: Pc) {
    pc.Await? || pc.Reread? || pc.AskAgain? || (pc.Start? && Waits(pc.next))
  }

  predicate RequestsDoNotWait(w: World) {
    forall t :: t in w.threads && w.threads[t].kind.Request? ==> !Waits(w.threads[t].pc)
  }

  lemma NextDoesNotWait(t: Thread, f: Fields, input: Input)
    requires t.kind.Request? && !Waits(t.pc)
    ensures !Waits(NextPc(t, f, input))
  {
  }

  lemma {:induction false} RunDoesNotWait(w: World, events: seq<Event>)
    requires RequestsDoNotWait(w)
    ensures RequestsDoNotWait(Run(w, events))
    decreases |events|
  {
    if events != [] {
      var e := events[0];
      if e.Advance? && e.t in w.threads && w.threads[e.t].kind.Request? {
        NextDoesNotWait(w.threads[e.t], w.fields, e.input);
      }
      RunDoesNotWait(Step(w, e), events[1..]);
    }
  }

  /** In no interleaving does a DNS request wait for a discovery; only connections do. */
  lemma RequestsNeverWait(slots: nat, events: seq<Event>)
    ensures RequestsDoNotWait(After(slots, events))
  {
    RunDoesNotWait(Initial(slots), events);
  }

  // --- after a discovery ---------------------------------------------------

  // Every discovery begun after the first n waited for this moment.
  predicate Rested(w: World, n: nat, since: real) {
    && n <= |w.begun| && w.fields.lastRefresh >= since
    && forall i :: n <= i < |w.begun| ==> w.begun[i] >= since + COOLDOWN
  }

  lemma {:induction false} RestIsKept(w: World, events: seq<Event>, n: nat, since: real, clock: real)
    requires Rested(w, n, since) && Monotone(events, clock) && clock >= since
    ensures Rested(Run(w, events), n, since)
    decreases |events|
  {
    if events != [] {
      var now := Clock(events[0]);
      RestIsKept(Step(w, events[0]), events[1..], n, since, if now.Some? then now.value else clock);
    }
  }

  /** And the next discovery begins at least the cooldown after the last one ended, however long that took. */
  lemma RestAfterDiscovery(w: World, found: Option<Addr>, now: real, later: seq<Event>)
    requires w.running > 0 && Monotone(later, now)
    ensures var w1 := Run(Step(w, DiscoveryEnds(found, now)), later);
            |w.begun| <= |w1.begun| && forall i :: |w.begun| <= i < |w1.begun| ==> w1.begun[i] >= now + COOLDOWN
  {
    RestIsKept(Step(w, DiscoveryEnds(found, now)), later, |w.begun|, now, now);
  }

  // --- the end of the wait -------------------------------------------------

  predicate DoneIsTrue(w: World) {
    (w.fields.done <==> w.begun != [] && !w.fields.refreshing) && (w.fields.refreshing ==> w.begun != [])
  }

  lemma StepKeepsDone(w: World, e: Event, slots: nat)
    requires Safe(w, slots) && DoneIsTrue(w)
    ensures DoneIsTrue(Step(w, e))
  {
  }

  lemma {:induction false} RunKeepsDone(w: World, events: seq<Event>, slots: nat)
    requires Safe(w, slots) && DoneIsTrue(w)
    ensures DoneIsTrue(Run(w, events))
    decreases |events|
  {
    if events != [] {
      StepIsSafe(w, events[0], slots);
      StepKeepsDone(w, events[0], slots);
      RunKeepsDone(Step(w, events[0]), events[1..], slots);
    }
  }

  /** In every interleaving the event that ends a connection's wait is set exactly if a discovery was begun and
      none is under way. */
  lemma WaitEndsWithDiscovery(slots: nat, events: seq<Event>)
    ensures var w := After(slots, events); w.fields.done <==> w.begun != [] && !w.fields.refreshing
  {
    InitialIsSafe(slots);
    RunKeepsDone(Initial(slots), events, slots);
  }
}
