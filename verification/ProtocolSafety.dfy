/** Safety over every run of the controllers: who can drop the parent's claim, that a
    recorded claim keeps its entry, and that everything else in AdGuard survives. */
module ProtocolSafety {
  import opened Wrappers
  import opened Budget
  import opened Enforcement
  import opened ProtocolSteps

  // --- the parent's claim --------------------------------------------------

  /** The only ways a recorded parental claim is dropped. */
  predicate ReleasesManual(w: World, step: Step) {
    match step
    case ToggleAllow(name, net) =>
      name == w.service && w.armed && net.probe && name in w.known
      && ((BudgetOwner in w.owners && net.look && w.Entry()) || (net.read && (!w.Entry() || net.Known())))
    case Nightly(force, dryRun, net) =>
      w.armed && net.look && (!w.Entry() || (force && !dryRun && net.Known()))
    case _ => false
  }

  /** No tick, no control verb, no edit, outage or date change ever drops the parent's
      claim; the toggle's allow and the nightly reset do, exactly when the predicate says. */
  lemma ManualClaimReleasedOnlyBy(w: World, step: Step)
    requires w.Held()
    ensures !Apply(w, step).Held() <==> ReleasesManual(w, step)
  {
    match step
    case Tick(watching, pins, net) => TickEffect(w, watching, pins, net);
    case Ctl(verb, pins, net) => CtlKeepsHold(w, verb, pins, net);
    case _ =>
  }

  lemma CtlKeepsHold(w: World, verb: Verb, pins: set<Ip>, net: Net)
    requires w.Held()
    ensures CtlStep(w, verb, pins, net).Held()
    ensures CtlStep(w, verb, pins, net).service == w.service
    ensures w.Entry() ==> CtlStep(w, verb, pins, net).Entry()
  {
    match verb
    case SetLimit(limit) =>
      if limit >= 0 {
        var w1 := w.(cfg := w.cfg.(limitMin := limit));
        assert FreeBudget(w1, CtlState(w), net).Held() == w1.Held();
      }
    case _ =>
  }

  /** While the parent's claim is recorded, no tick and no verb takes the service out. */
  lemma HeldEntryKept(w: World, step: Step)
    requires w.Held() && w.Entry() && (step.Tick? || step.Ctl?)
    ensures Apply(w, step).Entry() && Apply(w, step).Held()
  {
    match step
    case Tick(watching, pins, net) => TickEffect(w, watching, pins, net);
    case Ctl(verb, pins, net) => CtlKeepsHold(w, verb, pins, net);
  }

  // --- claims are backed by the entry --------------------------------------

  /** Whoever claims the block, the service is in AdGuard's list. */
  predicate ClaimsBacked(w: World) { w.owners.Keys != {} ==> w.Entry() }

  /** The verb asks for the entry to go. */
  predicate Lifts(w: World, verb: Verb) {
    match verb
    case SetLimit(limit) =>
      limit >= 0 && CtlState(w).blockedByBudget && !OverBudget(CtlState(w), w.cfg.(limitMin := limit))
    case Grant(minutes) =>
      var s := CtlState(w).(bonus := Max0(CtlState(w).bonus + minutes * 60));
      s.blockedByBudget && !OverBudget(s, w.cfg)
    case CtlAllow => true
    case CtlReset => true
    case _ => false
  }

  /** The nightly reset asks for the entry to go. */
  predicate NightlyLifts(w: World, force: bool, dryRun: bool) {
    !dryRun && (force || (!w.Held() && BlockedOn(w) != Some(w.today)))
  }

  /** The ways a claim loses its entry: a dashboard edit that drops the service; a toggle allow
      whose status read failed while the budget's claim was recorded; and any lift that AdGuard
      carried out but whose answer was lost, since the lifter then keeps the claim it had. */
  predicate OrphansClaim(w: World, step: Step) {
    match step
    case DashboardEdit(edited) => w.owners.Keys != {} && w.service !in edited.ids
    case ToggleAllow(name, net) =>
      name == w.service && w.armed && net.probe && name in w.known && w.Entry()
      && ((BudgetOwner in w.owners && !net.look && net.Lands())
          || (BudgetOwner !in w.owners && w.Held() && net.Silent()))
    case Tick(watching, _, net) =>
      w.Entry() && BudgetOwner in w.owners && !Wanted(w, watching) && SeenAtAll(w, net) && net.Silent()
    case Ctl(verb, _, net) =>
      w.Entry() && BudgetOwner in w.owners && !w.Held() && w.armed && Lifts(w, verb) && net.Silent()
    case Nightly(force, dryRun, net) =>
      w.Entry() && w.owners.Keys != {} && w.armed && net.look && NightlyLifts(w, force, dryRun) && net.Silent()
    case _ => false
  }

  lemma ClaimsStayBacked(w: World, step: Step)
    requires ClaimsBacked(w)
    ensures ClaimsBacked(Apply(w, step)) <==> !OrphansClaim(w, step)
  {
    match step
    case Tick(watching, pins, net) => TickClaimsBacked(w, watching, pins, net);
    case Ctl(verb, pins, net) => CtlClaimsBacked(w, verb, pins, net);
    case ToggleAllow(name, net) => AllowClaimsBacked(w, name, net);
    case Nightly(force, dryRun, net) => NightlyClaimsBacked(w, force, dryRun, net);
    case _ =>
  }

  lemma NightlyClaimsBacked(w: World, force: bool, dryRun: bool, net: Net)
    requires ClaimsBacked(w)
    ensures ClaimsBacked(NightlyStep(w, force, dryRun, net)) <==> !OrphansClaim(w, Nightly(force, dryRun, net))
  {
    NoOtherOwner(w);
    NoOtherOwner(NightlyStep(w, force, dryRun, net));
  }

  lemma NoOtherOwner(w: World)
    ensures w.owners.Keys == {} <==> BudgetOwner !in w.owners && ManualOwner !in w.owners
  {
    if BudgetOwner !in w.owners && ManualOwner !in w.owners {
      forall o: Owner ensures o !in w.owners.Keys {
        match o
        case BudgetOwner =>
        case ManualOwner =>
      }
    }
  }

  lemma TickClaimsBacked(w: World, watching: bool, pins: set<Ip>, net: Net)
    requires ClaimsBacked(w)
    ensures ClaimsBacked(TickStep(w, watching, pins, net)) <==> !OrphansClaim(w, Tick(watching, pins, net))
  {
    TickEffect(w, watching, pins, net);
    NoOtherOwner(w);
    NoOtherOwner(Summary(w, watching, pins, net).(saved := Some(After(w, watching))));
  }

  lemma LiftClaimsBacked(w: World, net: Net)
    requires ClaimsBacked(w)
    ensures ClaimsBacked(LiftEverything(w, net))
       <==> !(w.Entry() && BudgetOwner in w.owners && !w.Held() && w.armed && net.Silent())
  {
    NoOtherOwner(w);
    NoOtherOwner(LiftEverything(w, net));
  }

  lemma CtlClaimsBacked(w: World, verb: Verb, pins: set<Ip>, net: Net)
    requires ClaimsBacked(w)
    ensures ClaimsBacked(CtlStep(w, verb, pins, net)) <==> !OrphansClaim(w, Ctl(verb, pins, net))
  {
    match verb
    case Status =>
    case SetLimit(limit) => if limit >= 0 { LiftClaimsBacked(w.(cfg := w.cfg.(limitMin := limit)), net); }
    case Grant(_) => LiftClaimsBacked(w, net);
    case CtlBlock => BlockEntryEffect(w, BudgetOwner, net);
    case CtlAllow => LiftClaimsBacked(w, net);
    case CtlReset => LiftClaimsBacked(w, net);
  }

  lemma AllowClaimsBacked(w: World, name: Service, net: Net)
    requires ClaimsBacked(w)
    ensures ClaimsBacked(ToggleAllowStep(w, name, net).0) <==> !OrphansClaim(w, ToggleAllow(name, net))
  {
    NoOtherOwner(w);
    NoOtherOwner(ToggleAllowStep(w, name, net).0);
  }

  // --- everything else in AdGuard ------------------------------------------

  /** The ids nobody named in `touched` owns, in their order. */
  function Outside(ids: seq<Service>, touched: set<Service>): seq<Service> {
    if ids == [] then []
    else (if ids[0] in touched then [] else [ids[0]]) + Outside(ids[1..], touched)
  }

  lemma {:induction false} OutsideAppend(ids: seq<Service>, x: Service, touched: set<Service>)
    requires x in touched
    ensures Outside(ids + [x], touched) == Outside(ids, touched)
  {
    if ids == [] {
      assert ids + [x] == [x];
    } else {
      assert (ids + [x])[0] == ids[0] && (ids + [x])[1..] == ids[1..] + [x];
      OutsideAppend(ids[1..], x, touched);
    }
  }

  lemma {:induction false} OutsideWithout(ids: seq<Service>, x: Service, touched: set<Service>)
    requires x in touched
    ensures Outside(Without(ids, x), touched) == Outside(ids, touched)
  {
    if ids != [] {
      OutsideWithout(ids[1..], x, touched);
      if ids[0] != x {
        assert Without(ids, x)[1..] == Without(ids[1..], x);
      }
    }
  }

  // The one service a step may add to or take from AdGuard's list.
  function Target(w: World, step: Step): Service {
    match step
    case ToggleBlock(name, _) => name
    case ToggleAllow(name, _) => name
    case _ => w.service
  }

  predicate IdsEdited(before: seq<Service>, after: seq<Service>, x: Service) {
    after == before || after == before + [x] || after == Without(before, x)
  }

  lemma StepEditsTarget(w: World, step: Step)
    requires !step.DashboardEdit?
    ensures IdsEdited(w.resolver.ids, Apply(w, step).resolver.ids, Target(w, step))
    ensures Apply(w, step).resolver.schedule == w.resolver.schedule
    ensures Apply(w, step).service == w.service && Apply(w, step).known == w.known
  {
    match step
    case Tick(watching, pins, net) => TickEffect(w, watching, pins, net);
    case Ctl(verb, pins, net) => CtlEditsTarget(w, verb, pins, net);
    case _ =>
  }

  lemma CtlEditsTarget(w: World, verb: Verb, pins: set<Ip>, net: Net)
    ensures IdsEdited(w.resolver.ids, CtlStep(w, verb, pins, net).resolver.ids, w.service)
    ensures CtlStep(w, verb, pins, net).resolver.schedule == w.resolver.schedule
    ensures CtlStep(w, verb, pins, net).service == w.service && CtlStep(w, verb, pins, net).known == w.known
  {
    EntryEdits(w, BudgetOwner, net);
    if verb.SetLimit? && verb.limit >= 0 { EntryEdits(w.(cfg := w.cfg.(limitMin := verb.limit)), BudgetOwner, net); }
  }

  lemma EntryEdits(w: World, owner: Owner, net: Net)
    ensures var w1 := BlockEntry(w, owner, net).0;
            IdsEdited(w.resolver.ids, w1.resolver.ids, w.service) && w1.resolver.schedule == w.resolver.schedule
            && w1.service == w.service && w1.known == w.known
    ensures var w1 := UnblockEntry(w, net).0;
            IdsEdited(w.resolver.ids, w1.resolver.ids, w.service) && w1.resolver.schedule == w.resolver.schedule
            && w1.service == w.service && w1.known == w.known
  {
  }

  predicate Touches(w: World, steps: seq<Step>, touched: set<Service>)
  {
    w.service in touched
    && forall i :: 0 <= i < |steps| ==> !steps[i].DashboardEdit? && Target(w, steps[i]) in touched
  }

  /** Over every run without dashboard edits, the stored schedule survives unchanged and the
      ids of every service no command named survive in their order. */
  lemma {:induction false} OthersSurviveEveryRun(w: World, steps: seq<Step>, touched: set<Service>)
    requires Touches(w, steps, touched)
    ensures Outside(Run(w, steps).resolver.ids, touched) == Outside(w.resolver.ids, touched)
    ensures Run(w, steps).resolver.schedule == w.resolver.schedule
    decreases |steps|
  {
    if steps != [] {
      var w1, x := Apply(w, steps[0]), Target(w, steps[0]);
      assert !steps[0].DashboardEdit? && x in touched;
      StepEditsTarget(w, steps[0]);
      OutsideAppend(w.resolver.ids, x, touched);
      OutsideWithout(w.resolver.ids, x, touched);
      assert Touches(w1, steps[1..], touched);
      OthersSurviveEveryRun(w1, steps[1..], touched);
    }
  }

  // --- whole runs ----------------------------------------------------------

  predicate NeverReleased(w: World, steps: seq<Step>)
    decreases |steps|
  {
    steps == [] || (!ReleasesManual(w, steps[0]) && NeverReleased(Apply(w, steps[0]), steps[1..]))
  }

  predicate NeverOrphaned(w: World, steps: seq<Step>)
    decreases |steps|
  {
    steps == [] || (!OrphansClaim(w, steps[0]) && NeverOrphaned(Apply(w, steps[0]), steps[1..]))
  }

  /** In every run of any length, with ticks, verbs, toggles, nightly resets, date moves,
      outages and edits interleaved, the parent's claim stands at the end if no step was
      one of the releases; and unless a step took the entry from under a claim, the service
      is then still blocked. */
  lemma {:induction false} ParentalHoldSurvivesEveryRun(w: World, steps: seq<Step>)
    requires ClaimsBacked(w) && w.Held()
    requires NeverReleased(w, steps)
    ensures Run(w, steps).Held()
    ensures NeverOrphaned(w, steps) ==> Run(w, steps).Entry()
    decreases |steps|
  {
    if steps != [] {
      var w1 := Apply(w, steps[0]);
      ManualClaimReleasedOnlyBy(w, steps[0]);
      ClaimsStayBacked(w, steps[0]);
      if ClaimsBacked(w1) {
        ParentalHoldSurvivesEveryRun(w1, steps[1..]);
      } else {
        HoldWithoutEntry(w1, steps[1..]);
      }
    }
  }

  lemma {:induction false} HoldWithoutEntry(w: World, steps: seq<Step>)
    requires w.Held() && NeverReleased(w, steps)
    ensures Run(w, steps).Held()
    decreases |steps|
  {
    if steps != [] {
      ManualClaimReleasedOnlyBy(w, steps[0]);
      HoldWithoutEntry(Apply(w, steps[0]), steps[1..]);
    }
  }

  lemma {:induction false} ClaimsBackedInEveryRun(w: World, steps: seq<Step>)
    requires ClaimsBacked(w) && NeverOrphaned(w, steps)
    ensures ClaimsBacked(Run(w, steps))
    decreases |steps|
  {
    if steps != [] {
      ClaimsStayBacked(w, steps[0]);
      ClaimsBackedInEveryRun(Apply(w, steps[0]), steps[1..]);
    }
  }

  // --- the toggle never hands back spent time, unless it is blind ----------

  /** Allow is meant never to unblock while the budget's claim is recorded. It keeps that
      exactly when its own status read is answered, or its change does not reach AdGuard; a read
      that fails between requests that arrive makes it lift the budget's block. */
  lemma AllowLiftsBudgetBlockOnlyBlind(w: World, net: Net)
    requires w.Entry() && BudgetOwner in w.owners
    ensures !ToggleAllowStep(w, w.service, net).0.Entry()
       <==> w.armed && net.probe && w.service in w.known && !net.look && net.Lands()
  {
  }

  lemma BlindAllowExample() returns (w: World, net: Net)
    ensures w.Entry() && w.owners == map[BudgetOwner := w.today] && ClaimsBacked(w)
    ensures var (w1, reply) := ToggleAllowStep(w, w.service, net);
            reply == Unblocked && !w1.Entry() && BudgetOwner in w1.owners
  {
    var s := "youtube";
    w := World(Resolver([s], ""), {s}, s, true, map[BudgetOwner := 1], None, Config(60, 20), 1, {});
    net := Net(true, false, true, Confirmed);
    assert w.resolver.ids[0] == s;
  }

  /** The same without any parent: a tick lifts yesterday's block, AdGuard's answer is lost, and the budget's
      claim is left without an entry. */
  lemma UnheardLiftExample()
    ensures var w := Day2(["youtube"], map[BudgetOwner := 1]);
            var w1 := TickStep(w, false, {}, Net(true, true, true, Unheard));
            ClaimsBacked(w) && !w1.Entry() && BudgetOwner in w1.owners
  {
    var w := Day2(["youtube"], map[BudgetOwner := 1]);
    assert w.resolver.ids[0] == "youtube";
    TickEffect(w, false, {}, Net(true, true, true, Unheard));
  }

  // A world in which YouTube is the budget's service, on day 2.
  function Day2(ids: seq<Service>, owners: map<Owner, Date>): World {
    World(Resolver(ids, ""), {"youtube"}, "youtube", true, owners, None, Config(60, 20), 2, {})
  }

  // --- a dry run that is not dry -------------------------------------------

  /** A dry run of the nightly reset is meant to change nothing. It keeps that exactly unless it finds the
      service unblocked under a recorded claim, or a parental hold beside a budget claim of another day: both
      branches write the marker before the dry run is asked about. */
  lemma DryRunWritesExactlyWhen(w: World, force: bool, net: Net)
    ensures NightlyStep(w, force, true, net) != w
       <==> w.armed && net.look
            && ((!w.Entry() && w.owners != map[])
                || (w.Entry() && !force && w.Held() && BlockedOn(w).Some? && BlockedOn(w).value != w.today))
    ensures NightlyStep(w, force, true, net) == w.(owners := NightlyStep(w, force, true, net).owners)
  {
    if w.Entry() && w.Held() && BlockedOn(w).Some? {
      assert BudgetOwner in w.owners && BudgetOwner !in (w.owners - {BudgetOwner});
    }
  }

  /** Both inputs exist: a block lifted in the dashboard loses the parent's claim, and a block the parent holds
      loses yesterday's budget claim. */
  lemma DryRunExamples()
    ensures NightlyStep(Day2([], map[ManualOwner := 2]), false, true, ALL_ANSWERED).owners == map[]
    ensures NightlyStep(Day2(["youtube"], map[BudgetOwner := 1, ManualOwner := 2]), false, true, ALL_ANSWERED).owners
         == map[ManualOwner := 2]
  {
    var w := Day2(["youtube"], map[BudgetOwner := 1, ManualOwner := 2]);
    assert w.resolver.ids[0] == "youtube";
    assert w.owners - {BudgetOwner} == map[ManualOwner := 2];
  }
}
