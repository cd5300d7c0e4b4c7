/** Where the controllers converge: one answered tick puts the service where it belongs, two
    more settle the world, a new day frees the parent's hold of yesterday's budget, and the
    time used adds up. */
module ProtocolConvergence {
  import opened Wrappers
  import opened Budget
  import opened Enforcement
  import opened ProtocolSteps

  /** Some recorded reason asks for the block. */
  predicate ReasonStands(w: World) {
    OverBudget(w.Current(), w.cfg) || w.Current().manualBlock || w.Held()
  }

  lemma TickReasons(w: World, watching: bool, pins: set<Ip>, net: Net)
    ensures ReasonStands(TickStep(w, watching, pins, net)) <==> Wanted(w, watching)
    ensures TickStep(w, watching, pins, net).Held() <==> w.Held()
  {
    TickEffect(w, watching, pins, net);
  }

  /** After any tick whose requests are all answered, whatever happened before it, the
      service is blocked exactly when a reason stands. */
  lemma AnsweredTickConverges(w: World, watching: bool, pins: set<Ip>)
    requires w.armed
    ensures var w1 := TickStep(w, watching, pins, ALL_ANSWERED); w1.Entry() <==> ReasonStands(w1)
  {
    TickReasons(w, watching, pins, ALL_ANSWERED);
    TickEffect(w, watching, pins, ALL_ANSWERED);
  }

  /** Whatever part of a tick's requests fail, the tick never moves the service away from
      where the reasons put it. */
  lemma TickNeverMovesAway(w: World, watching: bool, pins: set<Ip>, net: Net)
    ensures var w1 := TickStep(w, watching, pins, net);
            w1.Entry() != w.Entry() ==> (w1.Entry() <==> ReasonStands(w1))
  {
    TickReasons(w, watching, pins, net);
    TickEffect(w, watching, pins, net);
  }

  // --- settling ------------------------------------------------------------

  lemma RepeatTick(w: World, watching: bool, pins: set<Ip>, net: Net)
    ensures var w1 := TickStep(w, watching, pins, net);
            w1.Current().date == w1.today && After(w1, false) == w1.Current()
            && w1.saved == Some(w1.Current()) && w1.armed == w.armed && w1.cfg == w.cfg
  {
    TickEffect(w, watching, pins, net);
  }

  // A world one answered tick has been over, with the firewall left as it may.
  predicate Settled(w: World) {
    w.armed && w.saved.Some? && w.Current().date == w.today && After(w, false) == w.Current()
    && (w.Entry() <==> ReasonStands(w)) && (!ReasonStands(w) ==> w.firewall == {})
  }

  lemma AnsweredTickSettles(w: World, watching: bool, pins: set<Ip>)
    requires w.armed
    ensures Settled(TickStep(w, watching, pins, ALL_ANSWERED))
  {
    AnsweredTickConverges(w, watching, pins);
    RepeatTick(w, watching, pins, ALL_ANSWERED);
    TickReasons(w, watching, pins, ALL_ANSWERED);
    TickEffect(w, watching, pins, ALL_ANSWERED);
  }

  lemma SettledTick(w: World, pins: set<Ip>)
    requires Settled(w)
    ensures TickActions(w, false, pins, ALL_ANSWERED)
         == if w.Entry() && pins != {} && pins != w.firewall then [SetFirewall(pins)] else []
    ensures TickStep(w, false, pins, ALL_ANSWERED)
         == if w.Entry() && pins != {} && pins != w.firewall then w.(firewall := pins) else w
  {
    SettledActions(w, pins);
    TickEffect(w, false, pins, ALL_ANSWERED);
  }

  lemma SettledActions(w: World, pins: set<Ip>)
    requires Settled(w)
    ensures TickActions(w, false, pins, ALL_ANSWERED)
         == if w.Entry() && pins != {} && pins != w.firewall then [SetFirewall(pins)] else []
  {
    var obs := Observe(w, false, pins, ALL_ANSWERED);
    var s := w.Current();
    assert WantBlocked(s, w.cfg, obs) == ReasonStands(w);
    assert Bookkeeping(s, w.cfg, obs) == [] && StaleRelease(s, w.cfg, obs) == [];
    if ReasonStands(w) {
      assert Repair(s, obs) == [];
    } else {
      assert Lift(s, obs) == [];
    }
  }

  /** The reconcile has a fixpoint and reaches it: after one answered tick, an uncredited
      same-day tick with the same pins emits at most a firewall refresh, never a block, an
      unblock or a DNS flush; and from the third tick on nothing is emitted and nothing
      changes. */
  lemma TicksSettle(w: World, watching: bool, pins: set<Ip>)
    requires w.armed
    ensures var w1 := TickStep(w, watching, pins, ALL_ANSWERED);
            var w2 := TickStep(w1, false, pins, ALL_ANSWERED);
            && (TickActions(w1, false, pins, ALL_ANSWERED) == []
                || TickActions(w1, false, pins, ALL_ANSWERED) == [SetFirewall(pins)])
            && TickActions(w2, false, pins, ALL_ANSWERED) == []
            && TickStep(w2, false, pins, ALL_ANSWERED) == w2
  {
    AnsweredTickSettles(w, watching, pins);
    var w1 := TickStep(w, watching, pins, ALL_ANSWERED);
    SettledTick(w1, pins);
    var w2 := TickStep(w1, false, pins, ALL_ANSWERED);
    assert Settled(w2);
    SettledTick(w2, pins);
  }

  // --- a new day under a parental hold -------------------------------------

  /** Under a parental hold, a tick gives up the budget's claim exactly when it is the one
      that sees the new date, it leaves the day under budget, and AdGuard is armed. */
  lemma BudgetClaimGivenUpOnlyOnNewDay(w: World, watching: bool, pins: set<Ip>, net: Net)
    requires w.Held() && BudgetOwner in w.owners
    ensures BudgetOwner !in TickStep(w, watching, pins, net).owners
       <==> w.armed && w.Current().date != w.today && !After(w, watching).blockedByBudget
  {
    TickEffect(w, watching, pins, net);
  }

  predicate OnlyTicks(steps: seq<Step>) { forall i :: 0 <= i < |steps| ==> steps[i].Tick? }

  // Yesterday's budget claim is gone and today gives no reason for a new one.
  predicate FreeHold(w: World) {
    w.armed && w.Held() && BudgetOwner !in w.owners && w.saved.Some?
    && w.saved.value.date == w.today && !w.saved.value.manualBlock
  }

  lemma TickUsage(w: World, watching: bool, pins: set<Ip>, net: Net)
    requires w.Current().date == w.today
    ensures var s1 := TickStep(w, watching, pins, net).Current();
            s1 == w.Current().(used := w.Current().used + (if watching then w.cfg.sampleSec else 0),
                               blockedByBudget := OverBudget(s1, w.cfg))
    ensures TickStep(w, watching, pins, net).today == w.today && TickStep(w, watching, pins, net).cfg == w.cfg
  {
    TickEffect(w, watching, pins, net);
  }

  function Credits(steps: seq<Step>): nat {
    if steps == [] then 0
    else (if steps[0].Tick? && steps[0].watching then 1 else 0) + Credits(steps[1..])
  }

  lemma OneMore(a: nat, n: nat)
    ensures a * (1 + n) == a + a * n
  {
  }

  /** Over any same-day run of ticks with a fixed limit, the time used is what it was plus
      one sample per credited tick; the bonus and the control block do not move. */
  lemma {:induction false} SameDayUsage(w: World, steps: seq<Step>)
    requires w.Current().date == w.today && OnlyTicks(steps)
    ensures var wn := Run(w, steps);
            && wn.today == w.today && wn.cfg == w.cfg && wn.Current().date == w.today
            && wn.Current().used == w.Current().used + w.cfg.sampleSec * Credits(steps)
            && wn.Current().bonus == w.Current().bonus
            && wn.Current().manualBlock == w.Current().manualBlock
    decreases |steps|
  {
    if steps != [] {
      var t := steps[0];
      var w1 := TickStep(w, t.watching, t.pins, t.net);
      TickUsage(w, t.watching, t.pins, t.net);
      SameDayUsage(w1, steps[1..]);
      OneMore(w.cfg.sampleSec, Credits(steps[1..]));
    }
  }

  lemma {:induction false} RunLast(w: World, steps: seq<Step>)
    requires steps != []
    ensures Run(w, steps) == Apply(Run(w, steps[..|steps| - 1]), steps[|steps| - 1])
    decreases |steps|
  {
    if |steps| > 1 {
      RunLast(Apply(w, steps[0]), steps[1..]);
      assert steps[1..][..|steps| - 2] == steps[..|steps| - 1][1..];
    }
  }

  /** In a run that began the day under budget, the tick that first goes over is a credited
      one and overshoots by less than one sample. */
  lemma FirstOverrunBelowOneSample(w: World, steps: seq<Step>)
    requires w.Current().date == w.today && OnlyTicks(steps) && steps != []
    requires !OverBudget(Run(w, steps[..|steps| - 1]).Current(), w.cfg)
    requires OverBudget(Run(w, steps).Current(), w.cfg)
    ensures steps[|steps| - 1].watching
    ensures Run(w, steps).Current().used < LimitSec(w.cfg) + w.Current().bonus + w.cfg.sampleSec
  {
    var last := steps[|steps| - 1];
    var before := Run(w, steps[..|steps| - 1]);
    RunLast(w, steps);
    SameDayUsage(w, steps[..|steps| - 1]);
    TickUsage(before, last.watching, last.pins, last.net);
  }

  // One more tick, none of which takes the day over budget.
  lemma TickKeepsHoldFree(w: World, t: Step)
    requires FreeHold(w) && t.Tick? && !OverBudget(Apply(w, t).Current(), w.cfg)
    ensures FreeHold(Apply(w, t)) && Apply(w, t).service == w.service && Apply(w, t).known == w.known
    ensures Apply(w, t).cfg == w.cfg && (w.Entry() ==> Apply(w, t).Entry())
  {
    TickUsage(w, t.watching, t.pins, t.net);
    TickEffect(w, t.watching, t.pins, t.net);
  }

  // Usage only grows over a day, so what ends under budget was under it all along.
  lemma UnderBudgetAllAlong(w: World, steps: seq<Step>)
    requires w.Current().date == w.today && OnlyTicks(steps) && !OverBudget(Run(w, steps).Current(), w.cfg)
    ensures !OverBudget(w.Current(), w.cfg)
  {
    SameDayUsage(w, steps);
    NoLess(w.Current().used, w.cfg.sampleSec, Credits(steps));
  }

  lemma NoLess(used: nat, sample: nat, credits: nat)
    ensures used <= used + sample * credits
  {
  }

  lemma {:induction false} UnderBudgetKeepsHoldFree(w: World, steps: seq<Step>)
    requires FreeHold(w) && OnlyTicks(steps) && !OverBudget(Run(w, steps).Current(), w.cfg)
    ensures FreeHold(Run(w, steps)) && Run(w, steps).service == w.service && Run(w, steps).known == w.known
    ensures w.Entry() ==> Run(w, steps).Entry()
    decreases |steps|
  {
    if steps != [] {
      var t := steps[0];
      TickUsage(w, t.watching, t.pins, t.net);
      UnderBudgetAllAlong(Apply(w, t), steps[1..]);
      TickKeepsHoldFree(w, t);
      UnderBudgetKeepsHoldFree(Apply(w, t), steps[1..]);
    }
  }

  /** The first tick of a new date under a parental hold, and any ticks after it on that day
      that leave it under budget, whatever requests fail: yesterday's budget claim is gone,
      the parent's claim stands, the service stays blocked; and the parent's allow, when its
      requests are answered, then really unblocks and leaves no claim. */
  lemma NewDayFreesTheHold(w: World, first: Step, rest: seq<Step>)
    requires w.armed && w.Held() && w.service in w.known && w.Current().date != w.today
    requires first.Tick? && OnlyTicks(rest)
    requires !OverBudget(Run(Apply(w, first), rest).Current(), w.cfg)
    ensures var wn := Run(Apply(w, first), rest);
            && wn.Held() && BudgetOwner !in wn.owners && (w.Entry() ==> wn.Entry())
            && var (wa, reply) := ToggleAllowStep(wn, wn.service, ALL_ANSWERED);
               !wa.Entry() && !wa.Held() && BudgetOwner !in wa.owners && (w.Entry() ==> reply == Unblocked)
  {
    TickEffect(w, first.watching, first.pins, first.net);
    var w1 := Apply(w, first);
    RepeatTick(w, first.watching, first.pins, first.net);
    SameDayUsage(w1, rest);
    assert w1.Current().used <= Run(w1, rest).Current().used;
    assert !OverBudget(w1.Current(), w.cfg);
    assert FreeHold(w1);
    UnderBudgetKeepsHoldFree(w1, rest);
  }

  /** The verbs that save today's date and leave the budget's claim recorded. */
  predicate HidesNewDay(verb: Verb) { verb.Grant? || (verb.SetLimit? && verb.limit >= 0) || verb.CtlBlock? }

  lemma HidingVerbs(w: World, verb: Verb, pins: set<Ip>, net: Net)
    requires w.Held() && BudgetOwner in w.owners && w.Entry() && w.armed && w.Current().date != w.today
    ensures var w1 := CtlStep(w, verb, pins, net);
            && (BudgetOwner in w1.owners && w1.Current().date == w1.today <==> HidesNewDay(verb))
            && w1.Held() && w1.Entry() && w1.armed && w1.service == w.service && w1.known == w.known
            && w1.today == w.today
  {
    BlockEntryEffect(w, BudgetOwner, net);
  }

  /** The state file carries the date, so a verb that saves it on the new day and does not itself give up the
      budget's claim hides that day from the watcher: it is exactly a grant, a limit or a block. After one no
      tick that day gives up the stale claim, and allow answers that the budget holds the block; after any
      other verb the claim is gone already, or the next tick still sees the new day and decides. */
  lemma {:induction false} VerbBeforeFirstTickHidesNewDay(
      w: World, verb: Verb, pins: set<Ip>, net: Net, steps: seq<Step>)
    requires w.Held() && BudgetOwner in w.owners && w.Entry() && w.armed && w.service in w.known
    requires w.Current().date != w.today && OnlyTicks(steps)
    ensures var w1 := CtlStep(w, verb, pins, net);
            BudgetOwner in w1.owners && w1.Current().date == w1.today <==> HidesNewDay(verb)
    ensures HidesNewDay(verb) ==>
              var wn := Run(CtlStep(w, verb, pins, net), steps);
              BudgetOwner in wn.owners && wn.Entry()
              && ToggleAllowStep(wn, wn.service, ALL_ANSWERED).1 == BudgetOwned
    ensures !HidesNewDay(verb) ==>
              var w1 := CtlStep(w, verb, pins, net);
              forall watching, ips, answers :: !After(w1, watching).blockedByBudget
                ==> BudgetOwner !in TickStep(w1, watching, ips, answers).owners
  {
    HidingVerbs(w, verb, pins, net);
    var w1 := CtlStep(w, verb, pins, net);
    if HidesNewDay(verb) {
      StaleClaimStays(w1, steps);
    } else {
      forall watching, ips, answers | !After(w1, watching).blockedByBudget
        ensures BudgetOwner !in TickStep(w1, watching, ips, answers).owners
      {
        if BudgetOwner in w1.owners {
          BudgetClaimGivenUpOnlyOnNewDay(w1, watching, ips, answers);
        } else {
          TickEffect(w1, watching, ips, answers);
        }
      }
    }
  }

  /** Such a morning: yesterday's budget claim beside the parent's hold, and a grant before the first tick. The
      day's first tick leaves the claim, and the parent's allow is refused; without the grant it is freed. */
  lemma GrantBeforeFirstTickExample() returns (w: World, tick: Step)
    ensures w.Held() && BudgetOwner in w.owners && w.Entry() && w.Current().date != w.today && tick.Tick?
    ensures var granted := Apply(CtlStep(w, Grant(10), {}, ALL_ANSWERED), tick);
            BudgetOwner in granted.owners && ToggleAllowStep(granted, w.service, ALL_ANSWERED).1 == BudgetOwned
    ensures BudgetOwner !in Apply(w, tick).owners
  {
    var s := "youtube";
    w := World(Resolver([s], ""), {s}, s, true, map[BudgetOwner := 1, ManualOwner := 1],
               Some(State(1, 3600, 0, true, false)), Config(60, 20), 2, {});
    tick := Tick(false, {}, ALL_ANSWERED);
    assert w.resolver.ids[0] == s;
    VerbBeforeFirstTickHidesNewDay(w, Grant(10), {}, ALL_ANSWERED, [tick]);
    assert Run(CtlStep(w, Grant(10), {}, ALL_ANSWERED), [tick]) == Apply(CtlStep(w, Grant(10), {}, ALL_ANSWERED), tick);
    BudgetClaimGivenUpOnlyOnNewDay(w, false, {}, ALL_ANSWERED);
  }

  lemma {:induction false} StaleClaimStays(w: World, steps: seq<Step>)
    requires w.Held() && BudgetOwner in w.owners && w.Entry() && w.armed && w.service in w.known
    requires w.Current().date == w.today && OnlyTicks(steps)
    ensures var wn := Run(w, steps);
            wn.Held() && BudgetOwner in wn.owners && wn.Entry() && wn.armed && wn.service in wn.known
    decreases |steps|
  {
    if steps != [] {
      var t := steps[0];
      BudgetClaimGivenUpOnlyOnNewDay(w, t.watching, t.pins, t.net);
      RepeatTick(w, t.watching, t.pins, t.net);
      TickEffect(w, t.watching, t.pins, t.net);
      StaleClaimStays(Apply(w, t), steps[1..]);
    }
  }

  /** Whatever claims are recorded, stale or not: once the budget and the control block give
      no reason, the parent's allow followed by one tick, both answered, leaves the service
      unblocked. */
  lemma AllowThenTickUnblocks(w: World, watching: bool, pins: set<Ip>)
    requires w.armed && w.service in w.known
    requires !After(w, watching).blockedByBudget && !After(w, watching).manualBlock
    ensures var wa := ToggleAllowStep(w, w.service, ALL_ANSWERED).0;
            !TickStep(wa, watching, pins, ALL_ANSWERED).Entry()
  {
    var wa := ToggleAllowStep(w, w.service, ALL_ANSWERED).0;
    assert !wa.Held() && After(wa, watching) == After(w, watching);
    TickEffect(wa, watching, pins, ALL_ANSWERED);
  }

  // --- resets --------------------------------------------------------------

  predicate TicksAndDates(steps: seq<Step>) {
    forall i :: 0 <= i < |steps| ==> steps[i].Tick? || steps[i].NewDate?
  }

  // The new-day announcements of a run.
  function Announced(w: World, steps: seq<Step>): nat
    decreases |steps|
  {
    if steps == [] then 0
    else
      (if steps[0].Tick?
       then Count(Resets, TickActions(w, steps[0].watching, steps[0].pins, steps[0].net)) else 0)
      + Announced(Apply(w, steps[0]), steps[1..])
  }

  // The times the date differs from that of the tick before.
  function DateChanges(last: Date, today: Date, steps: seq<Step>): nat
    decreases |steps|
  {
    if steps == [] then 0
    else match steps[0]
      case Tick(_, _, _) => (if last != today then 1 else 0) + DateChanges(today, today, steps[1..])
      case NewDate(date) => DateChanges(last, date, steps[1..])
      case _ => DateChanges(last, today, steps[1..])
  }

  /** However many days pass between two ticks, the day is reset once: a run of ticks and
      date moves announces a new day exactly as often as consecutive ticks see different
      dates. */
  lemma {:induction false} OneResetPerDateChange(w: World, steps: seq<Step>)
    requires w.saved.Some? && TicksAndDates(steps)
    ensures Announced(w, steps) == DateChanges(w.saved.value.date, w.today, steps)
    decreases |steps|
  {
    if steps != [] {
      var w1 := Apply(w, steps[0]);
      match steps[0] {
        case Tick(watching, pins, net) =>
          ResetsWhenDateDiffers(w.Current(), w.cfg, Observe(w, watching, pins, net));
          RepeatTick(w, watching, pins, net);
          TickEffect(w, watching, pins, net);
        case NewDate(date) =>
      }
      OneResetPerDateChange(w1, steps[1..]);
    }
  }
}
