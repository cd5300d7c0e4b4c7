/** Who gains a claim and who gives one up, step by step, and what a parent's block is good for. */
module ProtocolClaims {
  import opened Wrappers
  import opened Budget
  import opened Enforcement
  import opened ProtocolSteps
  import opened ProtocolSafety

  // --- the parent's claim --------------------------------------------------

  /** The only way the parent's claim comes to be recorded: a toggle block of the budget's own service whose
      every request was answered, or that found the service listed. */
  predicate TakesManual(w: World, step: Step) {
    step.ToggleBlock? && step.name == w.service && w.armed && w.service in w.known
    && step.net.probe && step.net.read && (w.Entry() || step.net.write.Confirmed?)
  }

  lemma ManualClaimTakenOnlyBy(w: World, step: Step)
    requires !w.Held()
    ensures Apply(w, step).Held() <==> TakesManual(w, step)
  {
    match step
    case Tick(watching, pins, net) => TickEffect(w, watching, pins, net);
    case Ctl(verb, _, net) => CtlTakesNoHold(w, verb, step.pins, net);
    case _ =>
  }

  lemma CtlTakesNoHold(w: World, verb: Verb, pins: set<Ip>, net: Net)
    requires !w.Held()
    ensures !CtlStep(w, verb, pins, net).Held()
  {
    if verb.SetLimit? && verb.limit >= 0 {
      var w1 := w.(cfg := w.cfg.(limitMin := verb.limit));
      assert FreeBudget(w1, CtlState(w), net).Held() == w1.Held();
    }
  }

  // The claim is the same as before: there or not, and of the same day.
  predicate SameClaim(before: World, after: World, owner: Owner) {
    && (owner in after.owners <==> owner in before.owners)
    && (owner in before.owners ==> after.owners[owner] == before.owners[owner])
  }

  /** An answered block lists the service. Of the budget's own it records the parent's claim as of today and
      nothing else; of any other it records nothing. */
  lemma AnsweredBlock(w: World, name: Service, net: Net)
    requires w.armed && name in w.known && net.probe && net.Known()
    ensures var (w1, reply) := ToggleBlockStep(w, name, net);
            && name in w1.resolver.ids && reply == (if name in w.resolver.ids then Already else Blocked)
            && SameClaim(w, w1, BudgetOwner)
            && (name == w.service ==> w1.Entry() && w1.Held() && w1.owners[ManualOwner] == w.today)
            && (name != w.service ==> w1.owners == w.owners)
  {
    assert (w.resolver.ids + [name])[|w.resolver.ids|] == name;
  }

  /** The toggle never takes or drops the budget's claim, and commands for another service touch none. */
  lemma ToggleLeavesOtherClaims(w: World, name: Service, net: Net)
    ensures SameClaim(w, ToggleBlockStep(w, name, net).0, BudgetOwner)
    ensures SameClaim(w, ToggleAllowStep(w, name, net).0, BudgetOwner)
    ensures name != w.service ==>
              ToggleBlockStep(w, name, net).0.owners == w.owners && ToggleAllowStep(w, name, net).0.owners == w.owners
  {
  }

  // --- a parent's block ----------------------------------------------------

  /** From any armed world, a parent's answered block stands through every run without a release, and the
      service stays blocked unless some step takes the entry from under the claim. */
  lemma BlockStandsInEveryRun(w: World, net: Net, steps: seq<Step>)
    requires w.armed && w.service in w.known && net.probe && net.Known()
    requires NeverReleased(ToggleBlockStep(w, w.service, net).0, steps)
    ensures var w1 := ToggleBlockStep(w, w.service, net).0;
            Run(w1, steps).Held() && (NeverOrphaned(w1, steps) ==> Run(w1, steps).Entry())
  {
    AnsweredBlock(w, w.service, net);
    ParentalHoldSurvivesEveryRun(ToggleBlockStep(w, w.service, net).0, steps);
  }

  predicate TicksAndVerbs(steps: seq<Step>) { forall i :: 0 <= i < |steps| ==> steps[i].Tick? || steps[i].Ctl? }

  lemma {:induction false} TicksAndVerbsKeepHold(w: World, steps: seq<Step>)
    requires w.Held() && w.Entry() && TicksAndVerbs(steps)
    ensures Run(w, steps).Held() && Run(w, steps).Entry()
    decreases |steps|
  {
    if steps != [] {
      HeldEntryKept(w, steps[0]);
      TicksAndVerbsKeepHold(Apply(w, steps[0]), steps[1..]);
    }
  }

  /** In particular no run of ticks and verbs, whatever requests fail, undoes it: an allow or a reset of the
      budget included. */
  lemma BlockSurvivesTicksAndVerbs(w: World, net: Net, steps: seq<Step>)
    requires w.armed && w.service in w.known && net.probe && net.Known() && TicksAndVerbs(steps)
    ensures var w1 := Run(ToggleBlockStep(w, w.service, net).0, steps);
            w1.Entry() && w1.Held()
  {
    AnsweredBlock(w, w.service, net);
    TicksAndVerbsKeepHold(ToggleBlockStep(w, w.service, net).0, steps);
  }

  // --- the budget's claim --------------------------------------------------

  predicate Reached(w: World, net: Net) { w.armed && net.read && (w.Entry() || net.write.Confirmed?) }

  /** The budget's claim comes to be recorded by a block of its own that was answered: a tick for a reason of
      its own, which did not see the service listed, or the control block. */
  predicate TakesBudget(w: World, step: Step) {
    match step
    case Tick(watching, _, net) =>
      (After(w, watching).blockedByBudget || After(w, watching).manualBlock) && Reached(w, net)
      && !(net.probe && w.Entry())
    case Ctl(CtlBlock, _, net) => Reached(w, net)
    case _ => false
  }

  /** It is given up by an answered lift; under a parental hold, by any lift whose credentials are there, for
      then nothing is asked of AdGuard; and by the nightly reset. */
  predicate ReleasesBudget(w: World, step: Step) {
    match step
    case Tick(watching, _, net) =>
      if w.Held() then w.armed && w.Current().date != w.today && !After(w, watching).blockedByBudget
                       && !TakesBudget(w, step)
      else !Wanted(w, watching) && SeenAtAll(w, net) && net.Known()
    case Ctl(verb, _, net) =>
      w.armed && Lifts(w, verb) && (w.Held() || (net.read && (!w.Entry() || net.write.Confirmed?)))
    case Nightly(force, dryRun, net) =>
      w.armed && net.look
      && (if !w.Entry() then true
          else if w.Held() && !force then BlockedOn(w) != Some(w.today)
          else NightlyLifts(w, force, dryRun) && net.Known())
    case _ => false
  }

  lemma BudgetClaimTakenOnlyBy(w: World, step: Step)
    requires BudgetOwner !in w.owners
    ensures BudgetOwner in Apply(w, step).owners <==> TakesBudget(w, step)
  {
    match step
    case Tick(watching, pins, net) => TickEffect(w, watching, pins, net);
    case Ctl(verb, pins, net) => CtlClaim(w, verb, pins, net);
    case _ =>
  }

  lemma BudgetClaimReleasedOnlyBy(w: World, step: Step)
    requires BudgetOwner in w.owners
    ensures BudgetOwner !in Apply(w, step).owners <==> ReleasesBudget(w, step)
  {
    match step
    case Tick(watching, pins, net) => TickEffect(w, watching, pins, net);
    case Ctl(verb, pins, net) => CtlClaim(w, verb, pins, net);
    case _ =>
  }

  lemma LiftClaim(w: World, net: Net)
    ensures BudgetOwner in LiftEverything(w, net).owners
       <==> BudgetOwner in w.owners
            && !(w.armed && (w.Held() || (net.read && (!w.Entry() || net.write.Confirmed?))))
  {
  }

  lemma CtlClaim(w: World, verb: Verb, pins: set<Ip>, net: Net)
    ensures BudgetOwner in CtlStep(w, verb, pins, net).owners
       <==> TakesBudget(w, Ctl(verb, pins, net))
            || (BudgetOwner in w.owners && !ReleasesBudget(w, Ctl(verb, pins, net)))
  {
    match verb
    case SetLimit(limit) => if limit >= 0 { LiftClaim(w.(cfg := w.cfg.(limitMin := limit)), net); }
    case CtlBlock =>
    case _ => LiftClaim(w, net);
  }

  predicate Takes(w: World, step: Step, owner: Owner) {
    if owner.ManualOwner? then TakesManual(w, step) || RenewsHold(w, step) else TakesBudget(w, step)
  }

  /** A claim is of the day it was last taken: the date of one that stays changes only to today's, and only
      where one is taken. */
  lemma ClaimsAreDated(w: World, step: Step, owner: Owner)
    requires owner in Apply(w, step).owners
    ensures if Takes(w, step, owner) then Apply(w, step).owners[owner] == w.today
            else owner in w.owners && Apply(w, step).owners[owner] == w.owners[owner]
  {
    match step
    case Tick(watching, pins, net) => TickDates(w, watching, pins, net, owner);
    case Ctl(verb, pins, net) => CtlDates(w, verb, pins, net, owner);
    case _ =>
  }

  lemma TickDates(w: World, watching: bool, pins: set<Ip>, net: Net, owner: Owner)
    requires owner in TickStep(w, watching, pins, net).owners
    ensures var w1 := TickStep(w, watching, pins, net);
            if Takes(w, Tick(watching, pins, net), owner) then w1.owners[owner] == w.today
            else owner in w.owners && w1.owners[owner] == w.owners[owner]
  {
    TickEffect(w, watching, pins, net);
  }

  // A tick that has to block again for the parent's sake alone.
  predicate RenewsHold(w: World, step: Step) {
    step.Tick? && w.Held() && !After(w, step.watching).blockedByBudget && !After(w, step.watching).manualBlock
    && Reached(w, step.net) && !(step.net.probe && w.Entry())
  }

  lemma CtlDates(w: World, verb: Verb, pins: set<Ip>, net: Net, owner: Owner)
    requires owner in CtlStep(w, verb, pins, net).owners
    ensures var w1 := CtlStep(w, verb, pins, net);
            if owner.BudgetOwner? && TakesBudget(w, Ctl(verb, pins, net)) then w1.owners[owner] == w.today
            else owner in w.owners && w1.owners[owner] == w.owners[owner]
  {
    if verb.SetLimit? && verb.limit >= 0 {
      var w1 := w.(cfg := w.cfg.(limitMin := verb.limit));
      assert FreeBudget(w1, CtlState(w), net).owners == CtlStep(w, verb, pins, net).owners;
    }
  }

  // --- what the toggle answers ---------------------------------------------

  /** An answer that names what happened is true of AdGuard's list; any other leaves the list as it was, but for
      the refusal of a write that was carried out unheard. */
  predicate Truthful(reply: Reply, name: Service, before: World, after: World, net: Net) {
    match reply
    case Blocked => name !in before.resolver.ids && name in after.resolver.ids
    case Unblocked => name in before.resolver.ids && name !in after.resolver.ids
    case Already => name in before.resolver.ids && after.resolver == before.resolver
    case Nothing => name !in before.resolver.ids && after.resolver == before.resolver
    case Refused => net.Lands() || after.resolver == before.resolver
    case _ => after.resolver == before.resolver
  }

  lemma AnswersAreTrue(w: World, name: Service, net: Net)
    ensures var (w1, reply) := ToggleBlockStep(w, name, net);
            Truthful(reply, name, w, w1, net) && !reply.Unblocked? && !reply.Nothing?
    ensures var (w1, reply) := ToggleAllowStep(w, name, net);
            Truthful(reply, name, w, w1, net) && !reply.Blocked? && !reply.Already?
  {
    assert (w.resolver.ids + [name])[|w.resolver.ids|] == name;
  }

  /** And the reason given for a failure is the first request that failed: credentials, the probe, the service's
      name, the read, the write. */
  lemma FailuresAreNamed(w: World, name: Service, net: Net)
    ensures forall reply :: reply in {ToggleBlockStep(w, name, net).1, ToggleAllowStep(w, name, net).1} ==>
              && (reply.NotArmed? <==> !w.armed)
              && (reply.NoService? <==> w.armed && net.probe && name !in w.known)
              && (reply.Unreachable? ==> w.armed && (!net.probe || (name in w.known && !net.read)))
              && (reply.Refused? ==> w.armed && net.probe && name in w.known && net.read && !net.write.Confirmed?)
              && (w.armed && !net.probe ==> reply.Unreachable?)
  {
  }

  /** The toggle's allow says that the budget holds the block exactly if it saw the budget's claim and the entry. */
  lemma BudgetIsNamed(w: World, name: Service, net: Net)
    ensures ToggleAllowStep(w, name, net).1.BudgetOwned?
       <==> w.armed && net.probe && net.look && name == w.service && name in w.known
            && w.Entry() && BudgetOwner in w.owners
  {
  }
}
