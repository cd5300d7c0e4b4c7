/** The panel's YouTube lane: AdGuard's user rules, the stored schedule, the controls a
    parent presses and the reconciler that runs once a minute. */
module SchedulePanel {
  import opened Wrappers
  import opened Schedule
  import opened RuleList

  datatype File = Missing | Broken | Stored(cfg: Config)

  // What the reconciler has to say: each failure once per outage.
  datatype Note = DefectNote | DownNote | Applied(from: RuleState, to: Verdict) | CouldNot(to: Verdict)
  datatype Told = Told(defect: bool, down: bool, failed: bool, log: seq<Note>)

  datatype Panel = Panel(own: Own, rules: seq<Line>, file: File, told: Told)

  // Whether the rules were read for the comparison and read again for the write, and what became of it.
  datatype Net = Net(look: bool, read: bool, write: Write)

  const ALL_ANSWERED := Net(true, true, Confirmed)

  function AsRuleState(v: Verdict): RuleState { if v == BLOCKED then RuleState.Blocked else RuleState.Allowed }

  // --- driving the rules ---------------------------------------------------

  function Wanted(own: Own, rules: seq<Line>, v: Verdict): seq<Line> {
    if v == BLOCKED then AddRules(own, rules) else Kept(own, rules)
  }

  function Drive(p: Panel, v: Verdict, net: Net): (Panel, bool) {
    var wanted := Wanted(p.own, p.rules, v);
    if !net.read then (p, false)
    else if wanted == p.rules then (p, true)
    else (if net.write.Failed? then p else p.(rules := wanted), net.write.Confirmed?)
  }

  // --- the reconciler ------------------------------------------------------

  /** The policy the reconciler has to enforce at this moment, if any. */
  function Enforced(file: File, t: int): Option<Verdict> {
    if file.Stored? && file.cfg.mode.BySchedule? && !HoldActive(file.cfg, t / SECOND)
    then Some(DesiredState(file.cfg, t)) else None
  }

  function Tick(p: Panel, t: int, net: Net): Panel {
    var told := p.told;
    var told1 := if p.file.Broken?
                 then told.(log := if told.defect then told.log else told.log + [DefectNote], defect := true)
                 else told.(defect := false);
    var p1 := p.(told := told1);
    match Enforced(p.file, t)
    case None => p1
    case Some(desired) =>
      if !net.look then
        p1.(told := told1.(log := if told1.down then told1.log else told1.log + [DownNote], down := true))
      else
        var live := StateOf(p.own, p.rules);
        if live == AsRuleState(desired) then p1.(told := told1.(down := false, failed := false))
        else
          var (p2, ok) := Drive(p1, desired, net);
          if ok then
            p2.(told := told1.(down := false, failed := false, log := told1.log + [Applied(live, desired)]))
          else
            p2.(told := told1.(down := false, failed := true,
                               log := if told1.failed then told1.log else told1.log + [CouldNot(desired)]))
  }

  // --- the controls --------------------------------------------------------

  function SetSchedule(p: Panel, mode: Mode, windows: seq<Window>, t: int, net: Net): (Panel, bool) {
    var cfg := Config(mode, windows, None);
    var desired := DesiredState(cfg, t);
    if mode.BySchedule? then Drive(p.(file := Stored(cfg)), desired, net)
    else
      var (p1, ok) := Drive(p, desired, net);
      if ok then (p1.(file := Stored(cfg)), true) else (p1, false)
  }

  // Some(v): hold the lane at `v`; None: hand control back to the schedule.
  function SetHold(p: Panel, state: Option<Verdict>, t: int, net: Net): (Panel, bool) {
    if !p.file.Stored? || !p.file.cfg.mode.BySchedule? then (p, false)
    else
      var cfg := p.file.cfg;
      match state
      case None => Drive(p.(file := Stored(cfg.(hold := None))), DesiredState(cfg, t), net)
      case Some(v) =>
        var (p1, ok) := Drive(p, v, net);
        if ok then (p1.(file := Stored(cfg.(hold := Some(Hold(v, HoldEnd(cfg, t) / SECOND))))), true)
        else (p1, false)
  }

  // --- driving: what it reaches, what it leaves alone ----------------------

  lemma WantedState(own: Own, rules: seq<Line>, v: Verdict)
    requires WellChosen(own)
    ensures StateOf(own, Wanted(own, rules, v)) == AsRuleState(v)
    ensures Kept(own, Wanted(own, rules, v)) == Kept(own, rules)
  {
    if v == BLOCKED {
      AddBlocks(own, rules);
      AddKeepsForeign(own, rules);
    } else {
      RemoveAllows(own, rules);
      RemoveKeepsForeign(own, rules);
    }
  }

  /** Driving the lane succeeds exactly when its read is answered and nothing has to be written
      or the write is answered too; the rules then read as asked. It fails without writing,
      unless only the answer to the write was lost; and other people's lines stay in any case. */
  lemma DriveReaches(p: Panel, v: Verdict, net: Net)
    requires WellChosen(p.own)
    ensures var (p1, ok) := Drive(p, v, net);
            && p1 == p.(rules := p1.rules) && Kept(p.own, p1.rules) == Kept(p.own, p.rules)
            && (ok <==> net.read && (net.write.Confirmed? || Wanted(p.own, p.rules, v) == p.rules))
            && (ok || p1.rules != p.rules ==> StateOf(p.own, p1.rules) == AsRuleState(v))
            && (!ok && p1.rules != p.rules ==> net.read && net.write.Unheard?)
  {
    WantedState(p.own, p.rules, v);
  }

  /** The reconciler writes exactly when a schedule is stored, no hold stands, the rules say
      something else than the schedule, both reads are answered, and the write arrives. */
  lemma TickWritesExactlyWhen(p: Panel, t: int, net: Net)
    requires WellChosen(p.own)
    ensures Tick(p, t, net).rules != p.rules
       <==> && Enforced(p.file, t).Some? && StateOf(p.own, p.rules) != AsRuleState(Enforced(p.file, t).value)
            && net.look && net.read && !net.write.Failed?
    ensures Tick(p, t, net).file == p.file && Tick(p, t, net).own == p.own
    ensures Kept(p.own, Tick(p, t, net).rules) == Kept(p.own, p.rules)
  {
    if Enforced(p.file, t).Some? {
      WantedState(p.own, p.rules, Enforced(p.file, t).value);
    }
  }

  lemma AnsweredTickEnforces(p: Panel, t: int)
    requires WellChosen(p.own) && Enforced(p.file, t).Some?
    ensures StateOf(p.own, Tick(p, t, ALL_ANSWERED).rules) == AsRuleState(Enforced(p.file, t).value)
  {
    WantedState(p.own, p.rules, Enforced(p.file, t).value);
  }

  // --- runs ----------------------------------------------------------------

  datatype Event =
    | TickAt(t: int, net: Net)
    | RulesEdited(rules: seq<Line>)
    | ModePressed(mode: Mode, windows: seq<Window>, t: int, net: Net)
    | HoldPressed(state: Option<Verdict>, t: int, net: Net)

  function Step(p: Panel, e: Event): Panel {
    match e
    case TickAt(t, net) => Tick(p, t, net)
    case RulesEdited(rules) => p.(rules := rules)
    case ModePressed(mode, windows, t, net) => SetSchedule(p, mode, windows, t, net).0
    case HoldPressed(state, t, net) => SetHold(p, state, t, net).0
  }

  function Run(p: Panel, events: seq<Event>): Panel
    decreases |events|
  {
    if events == [] then p else Run(Step(p, events[0]), events[1..])
  }

  predicate TicksAndEdits(events: seq<Event>) {
    forall i :: 0 <= i < |events| ==> events[i].TickAt? || events[i].RulesEdited?
  }

  /** Through any run of ticks, modes and holds, every line somebody else wrote survives in
      its place. */
  lemma {:induction false} OthersKeptInEveryRun(p: Panel, events: seq<Event>)
    requires WellChosen(p.own) && forall i :: 0 <= i < |events| ==> !events[i].RulesEdited?
    ensures Kept(p.own, Run(p, events).rules) == Kept(p.own, p.rules) && Run(p, events).own == p.own
    decreases |events|
  {
    if events != [] {
      match events[0] {
        case TickAt(t, net) => TickWritesExactlyWhen(p, t, net);
        case ModePressed(mode, windows, t, net) =>
          var cfg := Config(mode, windows, None);
          DriveReaches(p, DesiredState(cfg, t), net);
          DriveReaches(p.(file := Stored(cfg)), DesiredState(cfg, t), net);
        case HoldPressed(state, t, net) => HoldKeepsOthers(p, state, t, net);
      }
      OthersKeptInEveryRun(Step(p, events[0]), events[1..]);
    }
  }

  lemma HoldKeepsOthers(p: Panel, state: Option<Verdict>, t: int, net: Net)
    requires WellChosen(p.own)
    ensures Kept(p.own, SetHold(p, state, t, net).0.rules) == Kept(p.own, p.rules)
    ensures SetHold(p, state, t, net).0.own == p.own
  {
    if p.file.Stored? {
      var cfg := p.file.cfg;
      DriveReaches(p.(file := Stored(cfg.(hold := None))), DesiredState(cfg, t), net);
      if state.Some? { DriveReaches(p, state.value, net); }
    }
  }

  // The rules as whoever edits them in AdGuard last left them.
  function LastEdit(rules: seq<Line>, events: seq<Event>): seq<Line>
    decreases |events|
  {
    if events == [] then rules
    else LastEdit(if events[0].RulesEdited? then events[0].rules else rules, events[1..])
  }

  ghost predicate NothingToEnforce(file: File, events: seq<Event>) {
    forall i :: 0 <= i < |events| && events[i].TickAt? ==> Enforced(file, events[i].t).None?
  }

  lemma {:induction false} StandsDown(p: Panel, events: seq<Event>)
    requires WellChosen(p.own) && TicksAndEdits(events) && NothingToEnforce(p.file, events)
    ensures Run(p, events).rules == LastEdit(p.rules, events)
    ensures Run(p, events).file == p.file && Run(p, events).own == p.own
    decreases |events|
  {
    if events != [] {
      if events[0].TickAt? {
        TickWritesExactlyWhen(p, events[0].t, events[0].net);
      }
      StandsDown(Step(p, events[0]), events[1..]);
    }
  }

  /** A manual mode is absolute: through any ticks, outages and edits the rules stay as the
      last edit left them. */
  lemma ManualModeStandsDown(p: Panel, events: seq<Event>)
    requires WellChosen(p.own) && TicksAndEdits(events) && p.file.Stored? && !p.file.cfg.mode.BySchedule?
    ensures Run(p, events).rules == LastEdit(p.rules, events)
    ensures Run(p, events).file == p.file
  {
    StandsDown(p, events);
  }

  /** A hold that was placed reads as asked at once, ends at the next boundary, and until
      then no tick writes, through any outages and edits; the first answered tick at or
      after its end puts the schedule's verdict back, leaving every line of somebody else as
      the edits left it, in order, up to trailing blanks. */
  lemma {:induction false} HoldThenResume(p: Panel, v: Verdict, t: int, net: Net, events: seq<Event>, resume: int)
    requires WellChosen(p.own) && TicksAndEdits(events) && SetHold(p, Some(v), t, net).1
    requires forall i :: 0 <= i < |events| && events[i].TickAt? ==> t <= events[i].t < HoldEnd(p.file.cfg, t)
    requires HoldEnd(p.file.cfg, t) <= resume
    ensures StateOf(p.own, SetHold(p, Some(v), t, net).0.rules) == AsRuleState(v)
    ensures var held := SetHold(p, Some(v), t, net).0;
            var waited := Run(held, events);
            var resumed := Tick(waited, resume, ALL_ANSWERED);
            && waited.rules == LastEdit(held.rules, events) && waited.file == held.file
            && StateOf(p.own, resumed.rules) == AsRuleState(DesiredState(p.file.cfg, resume))
            && Kept(p.own, resumed.rules) == Kept(p.own, waited.rules)
  {
    var cfg := p.file.cfg;
    DriveReaches(p, v, net);
    var held := SetHold(p, Some(v), t, net).0;
    forall i | 0 <= i < |events| && events[i].TickAt? ensures Enforced(held.file, events[i].t).None? {
      HoldDecidesUntilItsEnd(cfg, t, v, events[i].t);
    }
    StandsDown(held, events);
    HoldEndsAtNextBoundary(cfg, t);
    HoldDecidesUntilItsEnd(cfg, t, v, resume);
    SameVerdict(cfg, Some(Hold(v, HoldEnd(cfg, t) / SECOND)), resume);
    var waited := Run(held, events);
    AnsweredTickEnforces(waited, resume);
    TickWritesExactlyWhen(waited, resume, ALL_ANSWERED);
  }

  /** Without a stored schedule no hold is taken or cleared, and nothing at all changes. */
  lemma HoldNeedsASchedule(p: Panel, state: Option<Verdict>, t: int, net: Net)
    requires p.file.Stored? ==> !p.file.cfg.mode.BySchedule?
    ensures SetHold(p, state, t, net) == (p, false)
  {
  }

  /** Back to the schedule: whatever requests fail, the stored hold is gone at once, with mode and windows as they
      were; so the reconciler has the schedule to enforce at any later time, and its first answered tick leaves
      the rules at the schedule's verdict. Success means that they read so already. */
  lemma ClearingAHold(p: Panel, t: int, net: Net, later: int)
    requires WellChosen(p.own) && p.file.Stored? && p.file.cfg.mode.BySchedule?
    ensures var (p1, ok) := SetHold(p, None, t, net);
            && p1.file.Stored? && p1.file.cfg.hold.None?
            && p1.file.cfg.mode == p.file.cfg.mode && p1.file.cfg.windows == p.file.cfg.windows
            && Enforced(p1.file, later) == Some(DesiredState(p.file.cfg, later))
            && StateOf(p.own, Tick(p1, later, ALL_ANSWERED).rules) == AsRuleState(DesiredState(p.file.cfg, later))
            && (ok ==> StateOf(p.own, p1.rules) == AsRuleState(DesiredState(p.file.cfg, t)))
            && (!ok && p1.rules != p.rules ==> net.read && net.write.Unheard?)
            && Kept(p.own, p1.rules) == Kept(p.own, p.rules)
  {
    var cfg := p.file.cfg.(hold := None);
    DriveReaches(p.(file := Stored(cfg)), DesiredState(p.file.cfg, t), net);
    SameVerdict(p.file.cfg, None, later);
    AnsweredTickEnforces(SetHold(p, None, t, net).0, later);
  }

  /** A hold: it is stored, until the next change of the schedule or midnight, only once the rules read as asked;
      else the stored policy stays, and so do the rules, unless only the answer to their write was lost. */
  lemma PlacingAHold(p: Panel, v: Verdict, t: int, net: Net)
    requires WellChosen(p.own) && p.file.Stored? && p.file.cfg.mode.BySchedule?
    ensures var (p1, ok) := SetHold(p, Some(v), t, net);
            && (ok ==> StateOf(p.own, p1.rules) == AsRuleState(v)
                       && p1.file == Stored(p.file.cfg.(hold := Some(Hold(v, HoldEnd(p.file.cfg, t) / SECOND)))))
            && (!ok ==> p1.(rules := p.rules) == p && (p1 != p ==> net.read && net.write.Unheard?))
            && Kept(p.own, p1.rules) == Kept(p.own, p.rules)
  {
    DriveReaches(p, v, net);
  }

  lemma SameVerdict(cfg: Config, hold: Option<Hold>, t: int)
    ensures DesiredState(cfg.(hold := hold), t) == DesiredState(cfg, t)
  {
    assert AllowedMinutes(cfg.(hold := hold)) == AllowedMinutes(cfg);
  }

  /** A manual mode is stored only once AdGuard says it reads as asked: else the stored policy
      stays, and so do the rules, unless only that answer was lost. A schedule is stored either way,
      and the first answered tick enforces it. */
  lemma SettingAMode(p: Panel, mode: Mode, windows: seq<Window>, t: int, net: Net, later: int)
    requires WellChosen(p.own)
    ensures var (p1, ok) := SetSchedule(p, mode, windows, t, net);
            var cfg := Config(mode, windows, None);
            && (!mode.BySchedule? && !ok ==>
                  p1.(rules := p.rules) == p && (p1 != p ==> net.read && net.write.Unheard?))
            && (mode.BySchedule? || ok ==> p1.file == Stored(cfg))
            && (ok ==> StateOf(p.own, p1.rules) == AsRuleState(DesiredState(cfg, t)))
            && (mode.BySchedule? ==>
                  StateOf(p.own, Tick(p1, later, ALL_ANSWERED).rules) == AsRuleState(DesiredState(cfg, later)))
            && Kept(p.own, p1.rules) == Kept(p.own, p.rules)
  {
    var cfg := Config(mode, windows, None);
    DriveReaches(p, DesiredState(cfg, t), net);
    DriveReaches(p.(file := Stored(cfg)), DesiredState(cfg, t), net);
    if mode.BySchedule? {
      AnsweredTickEnforces(SetSchedule(p, mode, windows, t, net).0, later);
    }
  }

  // --- one line per outage -------------------------------------------------

  ghost predicate Unanswered(file: File, events: seq<Event>) {
    forall i :: 0 <= i < |events| ==>
      events[i].TickAt? && !events[i].net.look && Enforced(file, events[i].t).Some?
  }

  /** An outage of any length is said once. */
  lemma {:induction false} OneLinePerOutage(p: Panel, events: seq<Event>)
    requires p.file.Stored? && Unanswered(p.file, events) && events != []
    ensures Run(p, events) == p.(told := p.told.(defect := false, down := true,
              log := if p.told.down then p.told.log else p.told.log + [DownNote]))
    decreases |events|
  {
    if |events| > 1 {
      OneLinePerOutage(Step(p, events[0]), events[1..]);
    }
  }

  lemma {:induction false} OneLinePerDefect(p: Panel, events: seq<Event>)
    requires p.file.Broken? && events != [] && forall i :: 0 <= i < |events| ==> events[i].TickAt?
    ensures Run(p, events) == p.(told := p.told.(defect := true,
              log := if p.told.defect then p.told.log else p.told.log + [DefectNote]))
    decreases |events|
  {
    if |events| > 1 {
      assert forall i :: 0 <= i < |events| - 1 ==> events[1..][i] == events[i + 1];
      OneLinePerDefect(Step(p, events[0]), events[1..]);
    }
  }

  ghost predicate Refused(file: File, events: seq<Event>, v: Verdict) {
    forall i :: 0 <= i < |events| ==>
      && events[i].TickAt? && Enforced(file, events[i].t) == Some(v)
      && events[i].net.look && (!events[i].net.read || events[i].net.write.Failed?)
  }

  /** So is a verdict that cannot be enforced, as long as it is the same and nothing else succeeds. */
  lemma {:induction false} OneLinePerFailure(p: Panel, events: seq<Event>, v: Verdict)
    requires WellChosen(p.own) && Refused(p.file, events, v) && events != []
    requires p.file.Stored? && StateOf(p.own, p.rules) != AsRuleState(v)
    ensures Run(p, events) == p.(told := p.told.(defect := false, down := false, failed := true,
              log := if p.told.failed then p.told.log else p.told.log + [CouldNot(v)]))
    decreases |events|
  {
    assert events[0].TickAt? && Enforced(p.file, events[0].t) == Some(v);
    WantedState(p.own, p.rules, v);
    if |events| > 1 {
      assert forall i :: 0 <= i < |events| - 1 ==> events[1..][i] == events[i + 1];
      OneLinePerFailure(Step(p, events[0]), events[1..], v);
    }
  }

  /** A success is said every time, with what was found and what is asked, and ends an outage: the next failure of
      either kind is said again. Agreement is not said, and ends it too. */
  lemma SuccessIsSaid(p: Panel, t: int, net: Net)
    requires WellChosen(p.own) && p.file.Stored? && Enforced(p.file, t).Some? && net.look
    requires StateOf(p.own, p.rules) == AsRuleState(Enforced(p.file, t).value) || (net.read && net.write.Confirmed?)
    ensures var found, asked := StateOf(p.own, p.rules), Enforced(p.file, t).value;
            Tick(p, t, net).told
            == Told(false, false, false,
                    if found == AsRuleState(asked) then p.told.log else p.told.log + [Applied(found, asked)])
  {
    DriveReaches(p.(told := p.told.(defect := false)), Enforced(p.file, t).value, net);
  }
}
