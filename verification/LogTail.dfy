/** Tailing a client log that another program is still writing, and folding its lines into
    the experience the client is in. A file is the text its bytes decode to, one character a
    byte; what a line says is a parameter, of which only silence on blank lines is asked. */
module LogTail {
  import opened Wrappers

  datatype Presence = Presence(place: int, universe: Option<int>, at: string)

  datatype Event = Join(found: Presence) | Leave | Silent

  type Parser = string -> Event

  // --- lines ---------------------------------------------------------------

  // Where Python's str.splitlines ends a line; CR LF counts as one end.
  predicate EndsLine(c: char) {
    var n := c as int;
    10 <= n <= 13 || 28 <= n <= 30 || n == 0x85 || n == 0x2028 || n == 0x2029
  }

  function FirstEnd(text: string): (i: nat)
    ensures i <= |text|
  {
    if text == [] || EndsLine(text[0]) then 0 else 1 + FirstEnd(text[1..])
  }

  function EndLength(text: string, i: nat): nat
    requires i < |text|
  {
    if text[i] == '\r' && i + 1 < |text| && text[i + 1] == '\n' then 2 else 1
  }

  function SplitLines(text: string): seq<string>
    decreases |text|
  {
    if text == [] then []
    else
      var i := FirstEnd(text);
      if i == |text| then [text] else [text[..i]] + SplitLines(text[i + EndLength(text, i)..])
  }

  function LastNewline(text: string): (r: Option<nat>)
    ensures r.Some? ==> r.value < |text| && text[r.value] == '\n'
    ensures forall k :: 0 <= k < |text| && (r.Some? ==> r.value < k) ==> text[k] != '\n'
  {
    if text == [] then None
    else if text[|text| - 1] == '\n' then Some(|text| - 1)
    else LastNewline(text[..|text| - 1])
  }

  /** The complete lines of a text: everything up to and including its last newline. */
  function CompletePart(text: string): string {
    match LastNewline(text) case None => "" case Some(i) => text[..i + 1]
  }

  // --- reading -------------------------------------------------------------

  // The file as one read finds it, or None when the system refuses.
  function ReadNewLines(file: Option<string>, offset: nat): (seq<string>, nat) {
    if file.None? then ([], offset)
    else
      var from := if |file.value| < offset then 0 else offset;
      if |file.value| == from then ([], from)
      else
        var chunk := file.value[from..];
        match LastNewline(chunk)
        case None => ([], from)
        case Some(cut) => (SplitLines(chunk[..cut]), from + cut + 1)
  }

  // --- folding -------------------------------------------------------------

  predicate Upgrades(current: Option<Presence>, found: Presence) {
    current.Some? && current.value.place == found.place
  }

  function Merge(current: Presence, found: Presence): Presence {
    Presence(current.place,
             if current.universe.Some? then current.universe else found.universe,
             if current.at != "" then current.at else found.at)
  }

  datatype Fold = Fold(current: Option<Presence>, ended: seq<Presence>)

  function EndedBy(current: Option<Presence>): seq<Presence> {
    if current.Some? then [current.value] else []
  }

  function FoldEvent(f: Fold, e: Event): Fold {
    match e
    case Silent => f
    case Leave => Fold(None, f.ended + EndedBy(f.current))
    case Join(found) =>
      if Upgrades(f.current, found) then f.(current := Some(Merge(f.current.value, found)))
      else Fold(Some(found), f.ended + EndedBy(f.current))
  }

  function FoldLines(f: Fold, lines: seq<string>, parse: Parser): Fold
    decreases |lines|
  {
    if lines == [] then f else FoldLines(FoldEvent(f, parse(lines[0])), lines[1..], parse)
  }

  // --- games ---------------------------------------------------------------

  // What the lines have to say, in order.
  function Spoken(lines: seq<string>, parse: Parser): seq<Event> {
    if lines == [] then []
    else (if parse(lines[0]).Silent? then [] else [parse(lines[0])]) + Spoken(lines[1..], parse)
  }

  // How many events from the first on are joins of this place.
  function RunLength(events: seq<Event>, place: int): (n: nat)
    ensures n <= |events|
    ensures forall i :: 0 <= i < n ==> events[i].Join? && events[i].found.place == place
    ensures n < |events| && events[n].Join? ==> events[n].found.place != place
  {
    if events == [] || !events[0].Join? || events[0].found.place != place then 0
    else 1 + RunLength(events[1..], place)
  }

  function FirstUniverse(joins: seq<Event>): Option<int> {
    if joins == [] then None
    else if joins[0].Join? && joins[0].found.universe.Some? then joins[0].found.universe
    else FirstUniverse(joins[1..])
  }

  function FirstStamp(joins: seq<Event>): string {
    if joins == [] then ""
    else if joins[0].Join? && joins[0].found.at != "" then joins[0].found.at
    else FirstStamp(joins[1..])
  }

  /** The games of a log: each unbroken run of joins of one place is one, of the first universe and the first
      time stamp that any of them knows. */
  function Games(events: seq<Event>): seq<Presence>
    decreases |events|
  {
    if events == [] then []
    else if !events[0].Join? then Games(events[1..])
    else
      var place := events[0].found.place;
      var n := RunLength(events, place);
      [Presence(place, FirstUniverse(events[..n]), FirstStamp(events[..n]))] + Games(events[n..])
  }

  // The last game is still being played.
  predicate StillOpen(events: seq<Event>) { events != [] && events[|events| - 1].Join? }

  // A game known so far is to what follows as the one join it amounts to.
  function AsJoin(current: Option<Presence>): seq<Event> {
    if current.Some? then [Join(current.value)] else []
  }

  lemma FirstKnown(p: Presence, joins: seq<Event>)
    ensures FirstUniverse([Join(p)] + joins) == if p.universe.Some? then p.universe else FirstUniverse(joins)
    ensures FirstStamp([Join(p)] + joins) == if p.at != "" then p.at else FirstStamp(joins)
  {
    assert ([Join(p)] + joins)[1..] == joins;
  }

  // The game a run of joins begins with, and those behind it.
  lemma GamesOfRun(p: Presence, later: seq<Event>)
    ensures var n := RunLength(later, p.place);
            && Games([Join(p)] + later)
            == [Presence(p.place, FirstUniverse([Join(p)] + later[..n]), FirstStamp([Join(p)] + later[..n]))]
               + Games(later[n..])
  {
    var events, n := [Join(p)] + later, RunLength(later, p.place);
    assert events[1..] == later;
    assert RunLength(events, p.place) == n + 1;
    assert events[..n + 1] == [Join(p)] + later[..n] && events[n + 1..] == later[n..];
  }

  lemma OneJoin(p: Presence, later: seq<Event>)
    requires later == [] || !later[0].Join? || later[0].found.place != p.place
    ensures Games([Join(p)] + later) == [p] + Games(later)
  {
    assert RunLength(later, p.place) == 0 && later[..0] == [] && later[0..] == later;
    GamesOfRun(p, later);
    FirstKnown(p, []);
  }

  // Two joins of one place amount to their merge.
  lemma TwoJoins(p: Presence, q: Presence, later: seq<Event>)
    requires p.place == q.place
    ensures Games([Join(p)] + ([Join(q)] + later)) == Games([Join(Merge(p, q))] + later)
  {
    var n := RunLength(later, p.place);
    var rest := [Join(q)] + later;
    assert rest[1..] == later;
    assert RunLength(rest, p.place) == n + 1;
    assert rest[..n + 1] == [Join(q)] + later[..n] && rest[n + 1..] == later[n..];
    GamesOfRun(p, rest);
    GamesOfRun(Merge(p, q), later);
    FirstKnown(p, rest[..n + 1]);
    FirstKnown(q, later[..n]);
    FirstKnown(Merge(p, q), later[..n]);
  }

  lemma OpenAtEnd(current: Option<Presence>, later: seq<Event>)
    ensures StillOpen(AsJoin(current) + later) <==> if later == [] then current.Some? else StillOpen(later)
  {
    if later != [] { assert (AsJoin(current) + later)[|AsJoin(current) + later| - 1] == later[|later| - 1]; }
  }

  /** What the fold of any lines finds, from any game known before, are the games of what the lines say; all but
      the last are ended, and the last exactly if a leave came after it. */
  lemma {:induction false} FoldFindsGames(f: Fold, lines: seq<string>, parse: Parser)
    ensures var after := FoldLines(f, lines, parse);
            && after.ended + EndedBy(after.current) == f.ended + Games(AsJoin(f.current) + Spoken(lines, parse))
            && (after.current.Some? <==> StillOpen(AsJoin(f.current) + Spoken(lines, parse)))
    decreases |lines|
  {
    if lines == [] {
      NothingSaid(f);
    } else {
      var e := parse(lines[0]);
      FoldFindsGames(FoldEvent(f, e), lines[1..], parse);
      if e.Silent? {
        assert Spoken(lines, parse) == Spoken(lines[1..], parse);
      } else {
        EventFindsGames(f, e, Spoken(lines[1..], parse));
      }
    }
  }

  lemma NothingSaid(f: Fold)
    ensures f.ended + EndedBy(f.current) == f.ended + Games(AsJoin(f.current) + [])
    ensures f.current.Some? <==> StillOpen(AsJoin(f.current) + [])
  {
    OpenAtEnd(f.current, []);
    if f.current.Some? { OneJoin(f.current.value, []); }
  }

  lemma EventFindsGames(f: Fold, e: Event, later: seq<Event>)
    requires !e.Silent?
    ensures var g := FoldEvent(f, e);
            && g.ended + Games(AsJoin(g.current) + later) == f.ended + Games(AsJoin(f.current) + ([e] + later))
            && (StillOpen(AsJoin(g.current) + later) <==> StillOpen(AsJoin(f.current) + ([e] + later)))
  {
    EventOpens(f, e, later);
    if e.Join? && Upgrades(f.current, e.found) {
      TwoJoins(f.current.value, e.found, later);
    } else {
      NewGame(f.current, e, later);
      Regroup(f.ended, EndedBy(f.current), Games(AsJoin(FoldEvent(f, e).current) + later));
    }
  }

  lemma Regroup<T>(a: seq<T>, b: seq<T>, c: seq<T>)
    ensures (a + b) + c == a + (b + c)
  {
  }

  lemma EventOpens(f: Fold, e: Event, later: seq<Event>)
    requires !e.Silent?
    ensures StillOpen(AsJoin(FoldEvent(f, e).current) + later) <==> StillOpen(AsJoin(f.current) + ([e] + later))
  {
    OpenAtEnd(FoldEvent(f, e).current, later);
    OpenAtEnd(f.current, [e] + later);
    if later != [] { assert ([e] + later)[|later|] == later[|later| - 1]; }
  }

  // A leave, or a join that opens a game, ends the one before.
  lemma NewGame(current: Option<Presence>, e: Event, later: seq<Event>)
    requires e.Leave? || (e.Join? && !Upgrades(current, e.found))
    ensures Games(AsJoin(current) + ([e] + later))
         == EndedBy(current) + Games(AsJoin(if e.Join? then Some(e.found) else None) + later)
  {
    assert ([e] + later)[1..] == later && [] + later == later;
    if current.Some? {
      OneJoin(current.value, [e] + later);
    } else {
      assert [] + ([e] + later) == [e] + later;
    }
  }

  /** The finished games and the one still open are the games of what the lines say, after the one known before. */
  method FoldPresence(lines: seq<string>, start: Option<Presence>, parse: Parser)
    returns (current: Option<Presence>, ended: seq<Presence>)
    ensures Fold(current, ended) == FoldLines(Fold(start, []), lines, parse)
    ensures ended + EndedBy(current) == Games(AsJoin(start) + Spoken(lines, parse))
    ensures current.Some? <==> StillOpen(AsJoin(start) + Spoken(lines, parse))
  {
    FoldFindsGames(Fold(start, []), lines, parse);
    current, ended := start, [];
    for i := 0 to |lines|
      invariant FoldLines(Fold(current, ended), lines[i..], parse) == FoldLines(Fold(start, []), lines, parse)
    {
      assert lines[i..][1..] == lines[i + 1..];
      assert ended + [] == ended;
      match parse(lines[i])
      case Leave =>
        if current.Some? {
          ended := ended + [current.value];
        }
        current := None;
      case Join(found) =>
        if Upgrades(current, found) {
          current := Some(Merge(current.value, found));
        } else {
          if current.Some? {
            ended := ended + [current.value];
          }
          current := Some(found);
        }
      case Silent =>
    }
  }

  // --- history -------------------------------------------------------------

  datatype Session = Session(start: string, end: string, place: int, universe: Option<int>)

  function SessionOf(p: Presence, end: string): Session { Session(p.at, end, p.place, p.universe) }

  predicate SameGame(s: Session, p: Presence) {
    s.place == p.place && s.universe == p.universe && s.start == p.at
  }

  predicate SameGames(sessions: seq<Session>, ended: seq<Presence>) {
    |sessions| == |ended| && forall i :: 0 <= i < |ended| ==> SameGame(sessions[i], ended[i])
  }

  /** A log read from its start: its games are those the fold ends and the one it leaves open. */
  lemma WholeLogHasGames(lines: seq<string>, parse: Parser)
    ensures var f := FoldLines(Fold(None, []), lines, parse);
            && f.ended + EndedBy(f.current) == Games(Spoken(lines, parse))
            && (f.current.Some? <==> StillOpen(Spoken(lines, parse)))
  {
    NothingBefore(Spoken(lines, parse));
    FoldFindsGames(Fold(None, []), lines, parse);
  }

  lemma NothingBefore(said: seq<Event>)
    ensures AsJoin(None) + said == said && [] + Games(said) == Games(said)
  {
  }

  /** One log of the history: every join closed by its leave, by the next join or by the end
      of the log. The sessions, end stamps aside, are the games of what the lines say. */
  method ScanHistory(text: string, parse: Parser, stamp: string -> string) returns (sessions: seq<Session>)
    ensures SameGames(sessions, Games(Spoken(SplitLines(text), parse)))
  {
    sessions := [];
    var lines := SplitLines(text);
    var openAt: Option<Presence> := None;
    var lastStamp := "";
    ghost var f := Fold(None, []);
    for i := 0 to |lines|
      invariant FoldLines(f, lines[i..], parse) == FoldLines(Fold(None, []), lines, parse)
      invariant f.current == openAt && SameGames(sessions, f.ended)
    {
      assert lines[i..][1..] == lines[i + 1..];
      var marker := stamp(lines[i]);
      if marker != "" {
        lastStamp := marker;
      }
      var e := parse(lines[i]);
      f := FoldEvent(f, e);
      if e.Join? {
        if Upgrades(openAt, e.found) {
          openAt := Some(Merge(openAt.value, e.found));
        } else {
          if openAt.Some? {
            sessions := sessions + [SessionOf(openAt.value, if marker != "" then marker else lastStamp)];
          }
          openAt := Some(e.found);
        }
      } else if e.Leave? && openAt.Some? {
        sessions := sessions + [SessionOf(openAt.value, if marker != "" then marker else lastStamp)];
        openAt := None;
      }
    }
    assert lines[|lines|..] == [];
    WholeLogHasGames(lines, parse);
    if openAt.Some? {
      sessions := sessions + [SessionOf(openAt.value, lastStamp)];
    }
  }

  // --- the guard's loop ----------------------------------------------------

  /** What the resident loop keeps: the log it follows, how far it has read, the experience
      the client is in, and the games it has put in the ledger. */
  datatype Guard = Guard(path: Option<int>, offset: nat, presence: Option<Presence>, recorded: seq<Presence>)

  datatype Tick =
    | Poll(path: int, file: Option<string>)   // this log is the newest live one
    | Quiet                                   // no live log, or the lane is switched off
    | Ended                                   // the guard ended the game it saw

  function Follow(g: Guard, path: int): Guard {
    if g.path == Some(path) then g else Guard(Some(path), 0, None, g.recorded + EndedBy(g.presence))
  }

  function Step(g: Guard, t: Tick, parse: Parser): Guard {
    match t
    case Quiet => Guard(None, 0, None, g.recorded)
    case Ended => g.(presence := None, recorded := g.recorded + EndedBy(g.presence))
    case Poll(path, file) =>
      var g1 := Follow(g, path);
      var (lines, offset) := ReadNewLines(file, g1.offset);
      var f := FoldLines(Fold(g1.presence, []), lines, parse);
      Guard(g1.path, offset, f.current, g1.recorded + f.ended)
  }

  class Tracker {
    var path: Option<int>
    var offset: nat
    var presence: Option<Presence>
    var recorded: seq<Presence>

    constructor ()
      ensures Snapshot() == Guard(None, 0, None, [])
    {
      path, offset, presence, recorded := None, 0, None, [];
    }

    function Snapshot(): Guard
      reads this
    {
      Guard(path, offset, presence, recorded)
    }

    method Remember(p: Option<Presence>)
      modifies this`recorded
      ensures recorded == old(recorded) + EndedBy(p)
    {
      if p.Some? {
        recorded := recorded + [p.value];
      } else {
        assert recorded + [] == recorded;
      }
    }

    // Each finished presence goes to the ledger on its own.
    method RecordEnded(ended: seq<Presence>)
      modifies this`recorded
      ensures recorded == old(recorded) + ended
    {
      for i := 0 to |ended|
        invariant recorded == old(recorded) + ended[..i]
      {
        Remember(Some(ended[i]));
        assert ended[..i + 1] == ended[..i] + [ended[i]];
      }
      assert ended[..|ended|] == ended;
    }

    method OneTick(t: Tick, parse: Parser)
      modifies this
      ensures Snapshot() == Step(old(Snapshot()), t, parse)
    {
      match t
      case Quiet =>
        path, offset, presence := None, 0, None;
      case Ended =>
        Remember(presence);
        presence := None;
      case Poll(newest, file) =>
        if path != Some(newest) {
          Remember(presence);
          path, offset, presence := Some(newest), 0, None;
        }
        var (lines, next) := ReadNewLines(file, offset);
        offset := next;
        if lines != [] {
          var ended;
          presence, ended := FoldPresence(lines, presence, parse);
          RecordEnded(ended);
        } else {
          assert recorded + [] == recorded;
        }
    }
  }
}
