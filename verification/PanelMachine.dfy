/** The panel's YouTube lane as the program it is: handlers and the reconciler read, change
    and write back the rule list and the schedule file. */
module PanelMachine {
  import opened Wrappers
  import opened Schedule
  import opened RuleList
  import opened SchedulePanel

  class Lane {
    const own: Own
    var rules: seq<Line>
    var file: File
    var defectLogged: bool
    var downLogged: bool
    var failLogged: bool
    var log: seq<Note>

    constructor (p: Panel)
      ensures Snapshot() == p
    {
      own, rules, file := p.own, p.rules, p.file;
      defectLogged, downLogged, failLogged, log := p.told.defect, p.told.down, p.told.failed, p.told.log;
    }

    function Snapshot(): Panel
      reads this
    {
      Panel(own, rules, file, Told(defectLogged, downLogged, failLogged, log))
    }

    method SetYoutubeBlocked(verdict: Verdict, net: Net) returns (ok: bool)
      requires WellChosen(own)
      modifies this`rules
      ensures (Snapshot(), ok) == Drive(old(Snapshot()), verdict, net)
    {
      if !net.read {
        return false;
      }
      var live := rules;
      var wanted := live;
      if verdict == BLOCKED {
        wanted := AddRules(own, live);
      } else {
        wanted := RemoveYoutubeRules(own, live);
      }
      if wanted == live {
        return true;
      }
      if !net.write.Failed? {
        rules := wanted;
      }
      return net.write.Confirmed?;
    }

    method ReconcilerTick(t: int, net: Net)
      requires WellChosen(own)
      modifies this`rules, this`defectLogged, this`downLogged, this`failLogged, this`log
      ensures Snapshot() == Tick(old(Snapshot()), t, net)
    {
      if file.Broken? {
        if !defectLogged {
          log := log + [DefectNote];
          defectLogged := true;
        }
      } else {
        defectLogged := false;
      }
      if !file.Stored? || !file.cfg.mode.BySchedule? {
        return;
      }
      if HoldActive(file.cfg, t / SECOND) {
        return;
      }
      var desired := DesiredState(file.cfg, t);
      if !net.look {
        if !downLogged {
          log := log + [DownNote];
          downLogged := true;
        }
        return;
      }
      downLogged := false;
      var live := StateOf(own, rules);
      if live == AsRuleState(desired) {
        failLogged := false;
        return;
      }
      var ok := SetYoutubeBlocked(desired, net);
      if ok {
        log := log + [Applied(live, desired)];
        failLogged := false;
      } else if !failLogged {
        log := log + [CouldNot(desired)];
        failLogged := true;
      }
    }

    method SetYoutubeSchedule(mode: Mode, windows: seq<Window>, t: int, net: Net) returns (ok: bool)
      requires WellChosen(own)
      modifies this`rules, this`file
      ensures (Snapshot(), ok) == SetSchedule(old(Snapshot()), mode, windows, t, net)
    {
      var cfg := Config(mode, windows, None);
      var desired := DesiredState(cfg, t);
      if mode.BySchedule? {
        file := Stored(cfg);
        ok := SetYoutubeBlocked(desired, net);
        return;
      }
      ok := SetYoutubeBlocked(desired, net);
      if ok {
        file := Stored(cfg);
      }
    }

    method OverrideUntil(cfg: Config, t: int) returns (until: int)
      ensures until == HoldEnd(cfg, t)
    {
      var midnight := NextMidnight(t);
      var change := FindNextChange(cfg, t);
      if change.Some? && change.value.1 < midnight {
        return change.value.1;
      }
      return midnight;
    }

    method SetYoutubeOverride(state: Option<Verdict>, t: int, net: Net) returns (ok: bool)
      requires WellChosen(own)
      modifies this`rules, this`file
      ensures (Snapshot(), ok) == SetHold(old(Snapshot()), state, t, net)
    {
      if !file.Stored? || !file.cfg.mode.BySchedule? {
        return false;
      }
      var cfg := file.cfg;
      if state.None? {
        file := Stored(cfg.(hold := None));
        var desired := DesiredState(cfg, t);
        ok := SetYoutubeBlocked(desired, net);
        return;
      }
      var until := OverrideUntil(cfg, t);
      ok := SetYoutubeBlocked(state.value, net);
      if ok {
        file := Stored(cfg.(hold := Some(Hold(state.value, until / SECOND))));
      }
    }
  }
}
