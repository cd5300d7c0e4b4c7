/** What every interleaving of the relay's threads keeps. */
module RelaySafety {
  import opened Relay

  // --- counting threads ----------------------------------------------------

  type Threads = map<Tid, Thread>

  // A thread whose discovery is due but not yet started; one about to call back; a DNS request.
  predicate Starts(t: Thread) { t.pc.Start? }
  predicate Calls(t: Thread) { t.pc.Callback? }
  predicate IsRequest(t: Thread) { t.kind.Request? }

  function Where(threads: Threads, p: Thread -> bool): set<Tid> { set t | t in threads && p(threads[t]) }
  function Count(threads: Threads, p: Thread -> bool): nat { |Where(threads, p)| }
  function One(yes: bool): nat { if yes then 1 else 0 }

  lemma CountPut(threads: Threads, t: Tid, x: Thread, p: Thread -> bool)
    ensures Count(threads[t := x], p) == Count(threads, p) - One(t in threads && p(threads[t])) + One(p(x))
  {
    WherePut(threads, t, x, p);
    SizeWith(Where(threads, p), t);
    SizeWith(Where(threads[t := x], p), t);
  }

  lemma WherePut(threads: Threads, t: Tid, x: Thread, p: Thread -> bool)
    ensures Where(threads[t := x], p) - {t} == Where(threads, p) - {t}
    ensures t in Where(threads[t := x], p) <==> p(x)
    ensures t in Where(threads, p) <==> t in threads && p(threads[t])
  {
  }

  lemma SizeWith(s: set<Tid>, t: Tid)
    ensures |s| == |s - {t}| + One(t in s)
  {
    assert s == if t in s then (s - {t}) + {t} else s - {t};
  }

  lemma CountDrop(threads: Threads, t: Tid, p: Thread -> bool)
    requires t in threads
    ensures Count(threads - {t}, p) == Count(threads, p) - One(p(threads[t]))
  {
    var others := Where(threads, p) - {t};
    assert Where(threads - {t}, p) == others;
    assert Where(threads, p) == if p(threads[t]) then others + {t} else others;
  }

  // --- the invariant -------------------------------------------------------

  // Discoveries about to start, running, or lost to a failed start.
  function Discoveries(w: World): nat { Count(w.threads, Starts) + w.running + w.lost }

  // What a thread goes on with after a start is neither another start nor a callback.
  predicate Placed(pc: Pc) { pc.Start? ==> !pc.next.Start? && !pc.next.Callback? }
  predicate AllPlaced(w: World) { forall t :: t in w.threads ==> Placed(w.threads[t].pc) }

  predicate Safe(w: World, slots: nat) {
    // The flag is set exactly while there is a discovery, and there is never a second one.
    && Discoveries(w) == One(w.fields.refreshing)
    // The event that ends the wait for a discovery is not set during one.
    && (w.fields.done ==> !w.fields.refreshing)
    // Every recovery is called back once.
    && w.called + Count(w.threads, Calls) == w.flips
    // Slots are neither lost nor made up.
    && w.free + Count(w.threads, IsRequest) == slots
    && AllPlaced(w)
  }

  lemma MoveCounts(w: World, t: Tid, pc: Pc)
    requires t in w.threads
    ensures Count(Moved(w, t, pc), Starts) == Count(w.threads, Starts) - One(w.threads[t].pc.Start?) + One(pc.Start?)
    ensures Count(Moved(w, t, pc), Calls)
         == Count(w.threads, Calls) - One(w.threads[t].pc.Callback?) + One(pc.Callback?)
    ensures Count(Moved(w, t, pc), IsRequest) == Count(w.threads, IsRequest)
  {
    CountPut(w.threads, t, w.threads[t].(pc := pc), Starts);
    CountPut(w.threads, t, w.threads[t].(pc := pc), Calls);
    CountPut(w.threads, t, w.threads[t].(pc := pc), IsRequest);
  }

  // Only the two scheduling places lead to a start, and only a recovery to a callback.
  lemma NextPlaces(t: Thread, f: Fields, input: Input)
    requires Placed(t.pc)
    ensures var pc := NextPc(t, f, input);
            && (pc.Start? <==> (t.pc.ScheduleMissing? || t.pc.ScheduleAgain?) && MayRefresh(f, input.now))
            && (pc.Callback? <==> t.pc.Heal? && f.degraded)
            && Placed(pc)
  {
  }

  lemma NextFieldsMeaning(pc: Pc, f: Fields, input: Input)
    ensures var g := NextFields(pc, f, input);
            var begins := (pc.ScheduleMissing? || pc.ScheduleAgain?) && MayRefresh(f, input.now);
            && g.refreshing == (f.refreshing || begins) && (begins ==> !f.refreshing)
            && g.done == (f.done && !begins)
            && ((f.degraded && !g.degraded) <==> pc.Heal? && f.degraded)
  {
  }

  lemma AdvanceIsSafe(w: World, t: Tid, input: Input, slots: nat)
    requires Safe(w, slots) && t in w.threads
    ensures Safe(Step(w, Advance(t, input)), slots)
  {
    var pc := NextPc(w.threads[t], w.fields, input);
    assert Placed(w.threads[t].pc);
    NextPlaces(w.threads[t], w.fields, input);
    NextFieldsMeaning(w.threads[t].pc, w.fields, input);
    MoveCounts(w, t, pc);
  }

  lemma ArrivalIsSafe(w: World, e: Event, slots: nat)
    requires Safe(w, slots) && (e.Submit? || e.Connect?)
    ensures Safe(Step(w, e), slots)
  {
    NewThreadCounts(w.threads, e.t, Thread(if e.Submit? then Request else Connection, GetPrimary));
  }

  lemma OtherEventsAreSafe(w: World, e: Event, slots: nat)
    requires Safe(w, slots) && !e.Advance?
    ensures Safe(Step(w, e), slots)
  {
    match e
    case Submit(t) => ArrivalIsSafe(w, e, slots);
    case Connect(t) => ArrivalIsSafe(w, e, slots);
    case StartFails(t) => if t in w.threads { MoveCounts(w, t, Over); }
    case Finish(t) => if t in w.threads { DropCounts(w.threads, t); }
    case DiscoveryEnds(found, now) =>
  }

  lemma NewThreadCounts(threads: Threads, t: Tid, x: Thread)
    ensures t !in threads && x.pc.GetPrimary? ==>
      && Count(threads[t := x], Starts) == Count(threads, Starts)
      && Count(threads[t := x], Calls) == Count(threads, Calls)
      && Count(threads[t := x], IsRequest) == Count(threads, IsRequest) + One(x.kind.Request?)
  {
    CountPut(threads, t, x, Starts);
    CountPut(threads, t, x, Calls);
    CountPut(threads, t, x, IsRequest);
  }

  lemma DropCounts(threads: Threads, t: Tid)
    requires t in threads
    ensures Count(threads - {t}, Starts) == Count(threads, Starts) - One(threads[t].pc.Start?)
    ensures Count(threads - {t}, Calls) == Count(threads, Calls) - One(threads[t].pc.Callback?)
    ensures Count(threads - {t}, IsRequest) == Count(threads, IsRequest) - One(threads[t].kind.Request?)
  {
    CountDrop(threads, t, Starts);
    CountDrop(threads, t, Calls);
    CountDrop(threads, t, IsRequest);
  }

  lemma InitialIsSafe(slots: nat)
    ensures Safe(Initial(slots), slots)
  {
    assert Where(map[], Starts) == {} && Where(map[], Calls) == {} && Where(map[], IsRequest) == {};
  }

  lemma StepIsSafe(w: World, e: Event, slots: nat)
    requires Safe(w, slots)
    ensures Safe(Step(w, e), slots)
  {
    if e.Advance? && e.t in w.threads {
      AdvanceIsSafe(w, e.t, e.input, slots);
    } else if !e.Advance? {
      OtherEventsAreSafe(w, e, slots);
    }
  }

  lemma {:induction false} RunIsSafe(w: World, events: seq<Event>, slots: nat)
    requires Safe(w, slots)
    ensures Safe(Run(w, events), slots)
    decreases |events|
  {
    if events != [] {
      StepIsSafe(w, events[0], slots);
      RunIsSafe(Step(w, events[0]), events[1..], slots);
    }
  }

  // The world after any events, from the start of the process.
  function After(slots: nat, events: seq<Event>): World { Run(Initial(slots), events) }

  /** In every interleaving: at most one discovery is due, running or lost, the flag is set exactly then, and
      the done event never is. */
  lemma OneDiscoveryAtATime(slots: nat, events: seq<Event>)
    ensures var w := After(slots, events);
            && Discoveries(w) <= 1
            && (w.fields.refreshing <==> Discoveries(w) == 1)
            && (w.fields.done ==> Discoveries(w) == 0)
  {
    InitialIsSafe(slots);
    RunIsSafe(Initial(slots), events, slots);
  }

  /** The recovery callbacks, made and due, number exactly the changes from degraded to healthy. */
  lemma OneCallbackPerRecovery(slots: nat, events: seq<Event>)
    ensures var w := After(slots, events);
            w.called + Count(w.threads, Calls) == w.flips
  {
    InitialIsSafe(slots);
    RunIsSafe(Initial(slots), events, slots);
  }

  /** Free slots and accepted unfinished requests always add up to the slots there were, so giving one back
      never exceeds them, and a packet is refused only while that many requests are unfinished. */
  lemma SlotsAreConserved(slots: nat, events: seq<Event>, t: Tid)
    ensures var w := After(slots, events);
            && w.free + Count(w.threads, IsRequest) == slots
            && Step(w, Finish(t)).free <= slots
            && (Step(w, Submit(t)).rejected > w.rejected <==> t !in w.threads && Count(w.threads, IsRequest) == slots)
  {
    InitialIsSafe(slots);
    RunIsSafe(Initial(slots), events, slots);
    StepIsSafe(After(slots, events), Finish(t), slots);
  }

  // --- a start that fails --------------------------------------------------

  lemma {:induction false} LostForGood(w: World, events: seq<Event>, slots: nat)
    requires Safe(w, slots) && w.lost == 1
    ensures var after := Run(w, events);
            after.lost == 1 && after.fields.refreshing && after.begun == w.begun
    decreases |events|
  {
    if events != [] {
      StepIsSafe(w, events[0], slots);
      LostForGood(Step(w, events[0]), events[1..], slots);
    }
  }

  /** Once the operating system has refused a discovery thread, the flag stays set and no discovery is ever
      begun again. */
  lemma FailedStartEndsRefreshing(slots: nat, events: seq<Event>, t: Tid, later: seq<Event>)
    requires Starting(After(slots, events), t)
    ensures var w := Step(After(slots, events), StartFails(t));
            Run(w, later).fields.refreshing && Run(w, later).begun == w.begun
  {
    InitialIsSafe(slots);
    RunIsSafe(Initial(slots), events, slots);
    var w := After(slots, events);
    StepIsSafe(w, StartFails(t), slots);
    LostForGood(Step(w, StartFails(t)), later, slots);
  }

  /** As long as no start has failed, the flag is set exactly while a discovery is due or running. */
  lemma FlagFollowsDiscovery(slots: nat, events: seq<Event>)
    ensures var w := After(slots, events);
            (w.fields.refreshing <==> Count(w.threads, Starts) + w.running == 1) <==> w.lost == 0
  {
    OneDiscoveryAtATime(slots, events);
  }

  /** A run that gets there: the first request of a fresh process finds no address and is about to start the
      discovery when the system refuses the thread. */
  lemma RefusedThreadExample(slots: nat)
    requires slots > 0
    ensures var first := Advance(0, Input(false, 1.0));
            var w := After(slots, [Submit(0), first, first]);
            Starting(w, 0) && Step(w, StartFails(0)).lost == 1 && Step(w, StartFails(0)).fields.refreshing
  {
    var first := Advance(0, Input(false, 1.0));
    var w0 := Initial(slots);
    var w1 := Step(w0, Submit(0));
    var w2 := Step(w1, first);
    var w3 := Step(w2, first);
    assert w1.threads[0].pc == GetPrimary && w2.threads[0].pc == ScheduleMissing && w3.threads[0].pc.Start?;
    RunTwo(w1, first, first);
    assert [Submit(0), first, first][1..] == [first, first];
    assert After(slots, [Submit(0), first, first]) == w3;
  }

  lemma RunTwo(w: World, a: Event, b: Event)
    ensures Run(w, [a, b]) == Step(Step(w, a), b)
  {
    assert [a, b][1..] == [b] && [b][1..] == [];
    assert Run(Step(w, a), [b]) == Run(Step(Step(w, a), b), []);
  }
}
