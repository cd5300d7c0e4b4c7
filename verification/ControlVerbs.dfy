/** What the control verbs leave behind: the time remaining, the flags, and what the next tick makes of them. */
module ControlVerbs {
  import opened Wrappers
  import opened Budget
  import opened Enforcement
  import opened ProtocolSteps
  import opened ProtocolConvergence

  // Seconds left today, negative after an overrun.
  function Remaining(w: World): int {
    w.cfg.limitMin * 60 + CtlState(w).bonus - CtlState(w).used
  }

  /** What a tick steers towards, whatever was saved and on whatever date: blocked exactly if the parent holds
      the service, a control block of today is set, or the sample it credits uses up the time remaining. */
  lemma TickWantsBlock(w: World, watching: bool)
    ensures Wanted(w, watching) <==>
              w.Held() || CtlState(w).manualBlock || Remaining(w) <= if watching then w.cfg.sampleSec else 0
  {
  }

  /** The time a verb gives or takes: a grant moves it by its minutes, but takes back no more than was granted
      before; a limit moves it by the difference of the limits; a reset gives the whole day back; the others
      leave it. Only a reset touches the time used. */
  lemma VerbsAndTime(w: World, verb: Verb, pins: set<Ip>, net: Net)
    ensures var w1 := CtlStep(w, verb, pins, net);
            && Remaining(w1) == (match verb
                 case Grant(minutes) =>
                   var back := 0 - CtlState(w).bonus; Remaining(w) + if minutes * 60 >= back then minutes * 60 else back
                 case SetLimit(limit) =>
                   if limit < 0 then Remaining(w) else Remaining(w) + 60 * (limit - w.cfg.limitMin)
                 case CtlReset => 60 * w.cfg.limitMin
                 case _ => Remaining(w))
            && CtlState(w1).used == (if verb.CtlReset? then 0 else CtlState(w).used)
            && w1.today == w.today && w1.cfg.sampleSec == w.cfg.sampleSec
  {
    if verb.SetLimit? && verb.limit >= 0 {
      var w1 := w.(cfg := w.cfg.(limitMin := verb.limit));
      assert CtlState(CtlStep(w, verb, pins, net)).(blockedByBudget := false)
          == CtlState(w1).(blockedByBudget := false);
    }
  }

  /** The flags a verb leaves: a control block is set by a block and cleared by an allow or a reset; a budget
      block is cleared by those two, and by a grant or a limit exactly if they leave time. A verb that saves
      anything saves it under today's date, and asks for the firewall of a blocked or an open service. */
  lemma VerbsAndFlags(w: World, verb: Verb, pins: set<Ip>, net: Net)
    ensures var w1 := CtlStep(w, verb, pins, net);
            var frees := (verb.Grant? || (verb.SetLimit? && verb.limit >= 0))
                         && CtlState(w).blockedByBudget && Remaining(w1) > 0;
            && (CtlState(w1).manualBlock <==>
                  verb.CtlBlock? || (CtlState(w).manualBlock && !verb.CtlAllow? && !verb.CtlReset?))
            && (CtlState(w1).blockedByBudget <==>
                  CtlState(w).blockedByBudget && !frees && !verb.CtlAllow? && !verb.CtlReset?)
            && (if verb.Status? || (verb.SetLimit? && verb.limit < 0) then w1 == w
                else w1.saved.Some? && w1.saved.value.date == w.today)
            && w1.firewall == (if verb.CtlBlock? then pins
                               else if frees || verb.CtlAllow? || verb.CtlReset? then {} else w.firewall)
  {
    if verb.SetLimit? && verb.limit >= 0 {
      var w1 := w.(cfg := w.cfg.(limitMin := verb.limit));
      assert CtlState(w1) == CtlState(w);
      assert CtlStep(w, verb, pins, net) == FreeBudget(w1, CtlState(w1), net);
    }
  }

  /** What a parent can rely on: after any verb, whatever of its requests failed, the next answered tick leaves
      the service blocked exactly if the parent holds it, a control block is set, or no time remains. */
  lemma NextTickAfterVerb(w: World, verb: Verb, pins: set<Ip>, net: Net, ips: set<Ip>)
    requires w.armed
    ensures var w1 := CtlStep(w, verb, pins, net);
            TickStep(w1, false, ips, ALL_ANSWERED).Entry() <==>
              w1.Held() || CtlState(w1).manualBlock || Remaining(w1) <= 0
  {
    var w1 := CtlStep(w, verb, pins, net);
    VerbKeepsArmed(w, verb, pins, net);
    AnsweredTickConverges(w1, false, ips);
    TickReasons(w1, false, ips, ALL_ANSWERED);
    TickWantsBlock(w1, false);
  }

  lemma VerbKeepsArmed(w: World, verb: Verb, pins: set<Ip>, net: Net)
    ensures CtlStep(w, verb, pins, net).armed == w.armed
    ensures CtlStep(w, verb, pins, net).Held() == w.Held()
  {
    if verb.SetLimit? && verb.limit >= 0 {
      var w1 := w.(cfg := w.cfg.(limitMin := verb.limit));
      assert CtlStep(w, verb, pins, net) == FreeBudget(w1, CtlState(w1), net);
    }
  }

  /** So a control block stands at the next answered tick, however much time is left; an allow does not outlive
      a spent budget; and a reset or a large enough grant does. */
  lemma VerbsInForce(w: World, verb: Verb, pins: set<Ip>, net: Net, ips: set<Ip>)
    requires w.armed
    ensures var next := TickStep(CtlStep(w, verb, pins, net), false, ips, ALL_ANSWERED);
            && (verb.CtlBlock? ==> next.Entry())
            && (verb.CtlAllow? ==> (next.Entry() <==> w.Held() || Remaining(w) <= 0))
            && (verb.CtlReset? ==> (next.Entry() <==> w.Held() || w.cfg.limitMin == 0))
            && (verb.Grant? && Remaining(w) + verb.minutes * 60 > 0 && !CtlState(w).manualBlock ==>
                  (next.Entry() <==> w.Held()))
  {
    NextTickAfterVerb(w, verb, pins, net, ips);
    VerbsAndTime(w, verb, pins, net);
    VerbsAndFlags(w, verb, pins, net);
    VerbKeepsArmed(w, verb, pins, net);
  }

  lemma {:induction false} TicksKeepControlBlock(w: World, steps: seq<Step>)
    requires w.armed && OnlyTicks(steps) && w.saved.Some? && w.saved.value.date == w.today && w.saved.value.manualBlock
    ensures var wn := Run(w, steps);
            wn.armed && CtlState(wn).manualBlock
    decreases |steps|
  {
    if steps != [] {
      var t := steps[0];
      TickEffect(w, t.watching, t.pins, t.net);
      TicksKeepControlBlock(Apply(w, t), steps[1..]);
    }
  }

  /** And through any ticks of its day, whatever requests fail: the next answered one has the service blocked. */
  lemma ControlBlockStands(w: World, pins: set<Ip>, net: Net, steps: seq<Step>, ips: set<Ip>)
    requires w.armed && OnlyTicks(steps)
    ensures TickStep(Run(CtlStep(w, CtlBlock, pins, net), steps), false, ips, ALL_ANSWERED).Entry()
  {
    var w1 := CtlStep(w, CtlBlock, pins, net);
    TicksKeepControlBlock(w1, steps);
    var wn := Run(w1, steps);
    AnsweredTickConverges(wn, false, ips);
    TickReasons(wn, false, ips, ALL_ANSWERED);
    TickWantsBlock(wn, false);
  }

  /** A lost state file is a fresh day, not a new one: the whole limit remains, no control block is left, and the
      next tick announces no reset. */
  lemma LostStateIsAFreshDay(w: World, watching: bool, pins: set<Ip>, net: Net)
    ensures var lost := Apply(w, StateLost);
            && Remaining(lost) == 60 * w.cfg.limitMin && !CtlState(lost).manualBlock && !CtlState(lost).blockedByBudget
            && Count(Resets, TickActions(lost, watching, pins, net)) == 0
            && lost.(saved := w.saved) == w
  {
    var lost := Apply(w, StateLost);
    ResetsWhenDateDiffers(lost.Current(), lost.cfg, Observe(lost, watching, pins, net));
  }
}
