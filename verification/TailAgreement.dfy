/** Tailing a growing log in any number of reads agrees with reading it once. */
module TailAgreement {
  import opened Wrappers
  import opened LogTail

  // --- folding in pieces ---------------------------------------------------

  lemma {:induction false} FoldAppend(f: Fold, a: seq<string>, b: seq<string>, parse: Parser)
    ensures FoldLines(f, a + b, parse) == FoldLines(FoldLines(f, a, parse), b, parse)
    decreases |a|
  {
    if a == [] {
      assert a + b == b;
    } else {
      assert (a + b)[0] == a[0] && (a + b)[1..] == a[1..] + b;
      FoldAppend(FoldEvent(f, parse(a[0])), a[1..], b, parse);
    }
  }

  // Ended games only accumulate.
  lemma {:induction false} FoldAccumulates(
      current: Option<Presence>, ended: seq<Presence>, lines: seq<string>, parse: Parser)
    ensures var f := FoldLines(Fold(current, []), lines, parse);
            FoldLines(Fold(current, ended), lines, parse) == Fold(f.current, ended + f.ended)
    decreases |lines|
  {
    if lines == [] {
      assert ended + [] == ended;
    } else {
      var e := parse(lines[0]);
      var one := FoldEvent(Fold(current, []), e);
      FoldAccumulates(one.current, one.ended, lines[1..], parse);
      FoldAccumulates(one.current, ended + one.ended, lines[1..], parse);
      var rest := FoldLines(Fold(one.current, []), lines[1..], parse).ended;
      assert ended + (one.ended + rest) == (ended + one.ended) + rest;
      assert FoldEvent(Fold(current, ended), e) == Fold(one.current, ended + one.ended) by {
        assert ended + [] == ended && ([] + EndedBy(current) == EndedBy(current));
      }
    }
  }

  // --- lines in pieces -----------------------------------------------------

  predicate Complete(text: string) { text == "" || text[|text| - 1] == '\n' }

  lemma {:induction false} FirstEndOfPrefix(a: string, b: string)
    ensures FirstEnd(a) < |a| ==> FirstEnd(a + b) == FirstEnd(a)
  {
    if a != "" && !EndsLine(a[0]) {
      FirstEndOfPrefix(a[1..], b);
      assert (a + b)[0] == a[0] && (a + b)[1..] == a[1..] + b;
    } else if a != "" {
      assert (a + b)[0] == a[0];
    }
  }

  lemma {:induction false} NewlineIsAnEnd(a: string)
    requires Complete(a) && a != ""
    ensures FirstEnd(a) < |a|
  {
    if !EndsLine(a[0]) {
      assert a[|a| - 1] == '\n' && EndsLine('\n');
      NewlineIsAnEnd(a[1..]);
    }
  }

  lemma SplitStep(text: string, i: nat, n: nat, rest: string)
    requires i == FirstEnd(text) && i < |text| && n == EndLength(text, i) && rest == text[i + n..]
    ensures SplitLines(text) == [text[..i]] + SplitLines(rest)
  {
  }

  lemma SplitStepPrefix(a: string, b: string) returns (line: string, rest: string)
    requires Complete(a) && a != ""
    ensures |rest| < |a| && Complete(rest)
    ensures SplitLines(a) == [line] + SplitLines(rest)
    ensures SplitLines(a + b) == [line] + SplitLines(rest + b)
  {
    var i := FirstEnd(a);
    NewlineIsAnEnd(a);
    FirstEndOfPrefix(a, b);
    EndLengthOfPrefix(a, b, i);
    var n := EndLength(a, i);
    line, rest := a[..i], a[i + n..];
    assert rest != "" ==> rest[|rest| - 1] == a[|a| - 1];
    assert (a + b)[..i] == line && (a + b)[i + n..] == rest + b;
    SplitStep(a, i, n, rest);
    SplitStep(a + b, i, n, rest + b);
  }

  lemma Reassociate(x: seq<string>, y: seq<string>, z: seq<string>)
    ensures x + (y + z) == (x + y) + z
  {
  }

  /** Complete lines and what follows them split apart. */
  lemma {:induction false} SplitAppend(a: string, b: string)
    requires Complete(a)
    ensures SplitLines(a + b) == SplitLines(a) + SplitLines(b)
    decreases |a|
  {
    if a == "" {
      assert a + b == b;
    } else {
      var line, rest := SplitStepPrefix(a, b);
      SplitAppend(rest, b);
      Reassociate([line], SplitLines(rest), SplitLines(b));
    }
  }

  lemma EndLengthOfPrefix(a: string, b: string, i: nat)
    requires Complete(a) && i < |a|
    ensures EndLength(a + b, i) == EndLength(a, i) && i + EndLength(a, i) <= |a|
  {
    assert (a + b)[i] == a[i];
    if i + 1 < |a| { assert (a + b)[i + 1] == a[i + 1]; }
  }

  /** Reading up to a newline or past it makes no difference but a blank line. */
  lemma {:induction false} NewlineAddsNoEvent(f: Fold, text: string, parse: Parser)
    requires parse("").Silent?
    ensures FoldLines(f, SplitLines(text + "\n"), parse) == FoldLines(f, SplitLines(text), parse)
    decreases |text|
  {
    var more := text + "\n";
    var i := FirstEnd(text);
    if i < |text| {
      FirstEndOfPrefix(text, "\n");
      var n, m := EndLength(text, i), EndLength(more, i);
      assert more[..i] == text[..i];
      var g := FoldEvent(f, parse(text[..i]));
      if n == m {
        assert more[i + n..] == text[i + n..] + "\n";
        NewlineAddsNoEvent(g, text[i + n..], parse);
      } else {
        assert text[i + n..] == "" && more[i + m..] == "";
      }
      assert SplitLines(text)[1..] == SplitLines(text[i + n..]);
      assert SplitLines(more)[1..] == SplitLines(more[i + m..]);
    } else {
      NewlineEndsLastLine(text);
    }
  }

  lemma {:induction false} NewlineIsTheEnd(text: string)
    requires FirstEnd(text) == |text|
    ensures FirstEnd(text + "\n") == |text|
  {
    var more := text + "\n";
    if text == "" {
      assert more[0] == '\n' && EndsLine('\n');
    } else {
      assert more[0] == text[0] && more[1..] == text[1..] + "\n";
      NewlineIsTheEnd(text[1..]);
    }
  }

  lemma NewlineEndsLastLine(text: string)
    requires FirstEnd(text) == |text|
    ensures SplitLines(text + "\n") == [text]
    ensures SplitLines(text) == if text == "" then [] else [text]
  {
    NewlineIsTheEnd(text);
    var more := text + "\n";
    assert more[..|text|] == text && more[|text| + 1..] == "";
  }

  // --- the complete part of a file -----------------------------------------

  lemma NewlineIsUnique(text: string, i: nat)
    requires i < |text| && text[i] == '\n' && forall k :: i < k < |text| ==> text[k] != '\n'
    ensures LastNewline(text) == Some(i) && CompletePart(text) == text[..i + 1]
  {
  }

  lemma NoNewlineAtAll(text: string)
    requires forall k :: 0 <= k < |text| ==> text[k] != '\n'
    ensures CompletePart(text) == ""
  {
  }

  lemma NothingNewComplete(done: string, chunk: string)
    requires Complete(done) && LastNewline(chunk).None?
    ensures CompletePart(done + chunk) == done
  {
    var text := done + chunk;
    forall k | |done| <= k < |text| ensures text[k] != '\n' { assert text[k] == chunk[k - |done|]; }
    if done == "" {
      NoNewlineAtAll(text);
    } else {
      assert text[|done| - 1] == done[|done| - 1];
      NewlineIsUnique(text, |done| - 1);
      assert text[..|done|] == done;
    }
  }

  lemma MoreComplete(done: string, chunk: string, cut: nat)
    requires LastNewline(chunk) == Some(cut)
    ensures CompletePart(done + chunk) == done + chunk[..cut] + "\n"
  {
    var text := done + chunk;
    forall k | |done| + cut < k < |text| ensures text[k] != '\n' { assert text[k] == chunk[k - |done|]; }
    assert text[|done| + cut] == chunk[cut];
    NewlineIsUnique(text, |done| + cut);
    assert text[..|done| + cut + 1] == done + chunk[..cut] + "\n";
  }

  lemma CompleteIsComplete(text: string)
    ensures Complete(CompletePart(text)) && CompletePart(text) <= text
  {
  }

  // --- the batch a run of polls is measured against ------------------------

  function Batch(text: string, parse: Parser): Fold {
    BatchOf(CompletePart(text), parse)
  }

  function BatchOf(done: string, parse: Parser): Fold { FoldLines(Fold(None, []), SplitLines(done), parse) }

  /** The guard has read log `path` exactly up to its last complete line in `text`. */
  predicate CaughtUp(g: Guard, path: int, text: string, before: seq<Presence>, parse: Parser) {
    && g.path == Some(path) && g.offset == |CompletePart(text)|
    && g.presence == Batch(text, parse).current
    && g.recorded == before + Batch(text, parse).ended
  }

  lemma PollCatchesUp(g: Guard, path: int, old': string, new': string, before: seq<Presence>, parse: Parser)
    requires parse("").Silent? && old' <= new' && CaughtUp(g, path, old', before, parse)
    ensures CaughtUp(Step(g, Poll(path, Some(new')), parse), path, new', before, parse)
  {
    var done := CompletePart(old');
    CompleteIsComplete(old');
    var chunk := new'[|done|..];
    assert new' == done + chunk;
    ReadFromThere(done, chunk);
    var (lines, offset) := ReadNewLines(Some(new'), g.offset);
    match LastNewline(chunk)
    case None =>
      NothingNewComplete(done, chunk);
      assert FoldLines(Fold(g.presence, []), lines, parse) == Fold(g.presence, []);
      assert g.recorded + [] == g.recorded;
    case Some(cut) =>
      MoreComplete(done, chunk, cut);
      PieceCatchesUp(g.presence, g.recorded, done, chunk[..cut], before, parse);
  }

  lemma ReadFromThere(done: string, chunk: string)
    ensures ReadNewLines(Some(done + chunk), |done|)
         == match LastNewline(chunk)
            case None => ([], |done|)
            case Some(cut) => (SplitLines(chunk[..cut]), |done| + cut + 1)
  {
    assert (done + chunk)[|done|..] == chunk;
  }

  lemma PieceCatchesUp(presence: Option<Presence>, recorded: seq<Presence>, done: string, piece: string,
                       before: seq<Presence>, parse: Parser)
    requires parse("").Silent? && Complete(done)
    requires presence == BatchOf(done, parse).current && recorded == before + BatchOf(done, parse).ended
    ensures var f, b := FoldLines(Fold(presence, []), SplitLines(piece), parse), BatchOf(done + piece + "\n", parse);
            f.current == b.current && recorded + f.ended == before + b.ended
  {
    var b := BatchOf(done, parse);
    ChunkFolds(done, piece, parse);
    FoldAccumulates(b.current, b.ended, SplitLines(piece), parse);
    var ended := FoldLines(Fold(b.current, []), SplitLines(piece), parse).ended;
    JoinEnded(before, b.ended, ended);
  }

  lemma JoinEnded(a: seq<Presence>, b: seq<Presence>, c: seq<Presence>)
    ensures (a + b) + c == a + (b + c)
  {
  }

  lemma ChunkFolds(done: string, piece: string, parse: Parser)
    requires Complete(done) && parse("").Silent?
    ensures BatchOf(done + piece + "\n", parse) == FoldLines(BatchOf(done, parse), SplitLines(piece), parse)
  {
    assert done + piece + "\n" == done + (piece + "\n");
    SplitAppend(done, piece + "\n");
    FoldAppend(Fold(None, []), SplitLines(done), SplitLines(piece + "\n"), parse);
    NewlineAddsNoEvent(BatchOf(done, parse), piece, parse);
  }

  // --- any schedule of reads -----------------------------------------------

  predicate Grows(text: string, polls: seq<Option<string>>)
    decreases |polls|
  {
    polls == []
    || (polls[0].None? && Grows(text, polls[1..]))
    || (polls[0].Some? && text <= polls[0].value && Grows(polls[0].value, polls[1..]))
  }

  function LastText(text: string, polls: seq<Option<string>>): string
    decreases |polls|
  {
    if polls == [] then text
    else LastText(if polls[0].Some? then polls[0].value else text, polls[1..])
  }

  function PollAll(g: Guard, path: int, polls: seq<Option<string>>, parse: Parser): Guard
    decreases |polls|
  {
    if polls == [] then g else PollAll(Step(g, Poll(path, polls[0]), parse), path, polls[1..], parse)
  }

  lemma {:induction false} PollsCatchUp(
      g: Guard, path: int, text: string, polls: seq<Option<string>>, before: seq<Presence>, parse: Parser)
    requires parse("").Silent? && Grows(text, polls) && CaughtUp(g, path, text, before, parse)
    ensures CaughtUp(PollAll(g, path, polls, parse), path, LastText(text, polls), before, parse)
    decreases |polls|
  {
    if polls != [] {
      var g1 := Step(g, Poll(path, polls[0]), parse);
      if polls[0].Some? {
        PollCatchesUp(g, path, text, polls[0].value, before, parse);
        PollsCatchUp(g1, path, polls[0].value, polls[1..], before, parse);
      } else {
        assert g.recorded + [] == g.recorded && g1 == g;
        PollsCatchUp(g1, path, text, polls[1..], before, parse);
      }
    }
  }

  /** For any append-only growth of a log and any schedule of reads, refused ones included:
      the presence and the recorded games are those of one fold over the complete lines, and
      the offset is just past the last newline. */
  lemma TailEqualsBatch(g: Guard, path: int, polls: seq<Option<string>>, parse: Parser)
    requires parse("").Silent? && g.path != Some(path) && Grows("", polls) && polls != []
    ensures var done := PollAll(g, path, polls, parse);
            var text := LastText("", polls);
            var batch := FoldLines(Fold(None, []), SplitLines(CompletePart(text)), parse);
            && done.offset == |CompletePart(text)|
            && done.presence == batch.current
            && done.recorded == g.recorded + EndedBy(g.presence) + batch.ended
  {
    var g1 := Follow(g, path);
    assert CompletePart("") == "" && Batch("", parse) == Fold(None, []);
    assert g1.recorded + [] == g1.recorded;
    assert CaughtUp(g1, path, "", g1.recorded, parse);
    assert Follow(g1, path) == g1;
    assert Step(g, Poll(path, polls[0]), parse) == Step(g1, Poll(path, polls[0]), parse);
    PollsCatchUp(g1, path, "", polls, g1.recorded, parse);
  }

  lemma {:induction false} PollsFollow(g: Guard, path: int, polls: seq<Option<string>>, parse: Parser)
    requires polls != []
    ensures PollAll(g, path, polls, parse).path == Some(path)
    decreases |polls|
  {
    if |polls| > 1 {
      PollsFollow(Step(g, Poll(path, polls[0]), parse), path, polls[1..], parse);
    }
  }

  /** Once another log takes over, the ledger has gained every game of the first one, the
      open one included: exactly the games `ScanHistory` lists for its complete lines. */
  lemma NextLogClosesTheLast(g: Guard, path: int, polls: seq<Option<string>>, next: int, parse: Parser)
    requires parse("").Silent? && g.path.None? && g.presence.None? && Grows("", polls) && polls != [] && next != path
    ensures var batch := FoldLines(Fold(None, []), SplitLines(CompletePart(LastText("", polls))), parse);
            Follow(PollAll(g, path, polls, parse), next).recorded
            == g.recorded + (batch.ended + EndedBy(batch.current))
  {
    TailEqualsBatch(g, path, polls, parse);
    PollsFollow(g, path, polls, parse);
    var f := Batch(LastText("", polls), parse);
    assert g.recorded + [] == g.recorded;
    assert g.recorded + f.ended + EndedBy(f.current) == g.recorded + (f.ended + EndedBy(f.current));
  }

  // --- spells without a live log -------------------------------------------

  // However many ticks in a row find no live log, they leave what the first one leaves.
  function QuietFor(g: Guard, ticks: nat, parse: Parser): Guard {
    if ticks == 0 then g else Step(QuietFor(g, ticks - 1, parse), Quiet, parse)
  }

  lemma {:induction false} QuietForgets(g: Guard, ticks: nat, parse: Parser)
    requires ticks > 0
    ensures QuietFor(g, ticks, parse) == Guard(None, 0, None, g.recorded)
  {
    if ticks > 1 { QuietForgets(g, ticks - 1, parse); }
  }

  // The games of a log's complete lines: those it ended, and all of them with the one it leaves open.
  function EndedIn(text: string, parse: Parser): seq<Presence> { Batch(text, parse).ended }
  function PlayedIn(text: string, parse: Parser): seq<Presence> {
    EndedIn(text, parse) + EndedBy(Batch(text, parse).current)
  }

  /** The games of a log, as its lines tell them: all are played, and all but one still open are ended. */
  lemma LogsHaveTheirGames(text: string, parse: Parser)
    ensures var said := Spoken(SplitLines(CompletePart(text)), parse);
            PlayedIn(text, parse) == Games(said)
            && EndedIn(text, parse) <= Games(said)
            && |Games(said)| == |EndedIn(text, parse)| + if StillOpen(said) then 1 else 0
  {
    WholeLogHasGames(SplitLines(CompletePart(text)), parse);
  }

  predicate Fresh(g: Guard) { g.path.None? && g.presence.None? }

  // --- logs that take turns ------------------------------------------------

  // One visit to a log: it is read for a while, and then for some ticks, or none, there is no live log.
  datatype Visit = Visit(path: int, polls: seq<Option<string>>, quiet: nat) {
    predicate Valid() { polls != [] && Grows("", polls) }
    function Text(): string { LastText("", polls) }
  }

  function AfterVisit(g: Guard, v: Visit, parse: Parser): Guard {
    QuietFor(PollAll(g, v.path, v.polls, parse), v.quiet, parse)
  }

  function AfterVisits(g: Guard, visits: seq<Visit>, parse: Parser): Guard
    decreases |visits|
  {
    if visits == [] then g else AfterVisits(AfterVisit(g, visits[0], parse), visits[1..], parse)
  }

  // Two visits in a row without a quiet tick between them are to different logs.
  predicate Chained(path: Option<int>, visits: seq<Visit>)
    decreases |visits|
  {
    visits != [] ==>
      && visits[0].Valid() && path != Some(visits[0].path)
      && Chained(if visits[0].quiet == 0 then Some(visits[0].path) else None, visits[1..])
  }

  function OpenIn(text: string, parse: Parser): Option<Presence> { Batch(text, parse).current }

  /** What a visit puts in the ledger: the games its log has ended from the log's start on, and the one it
      leaves open exactly if another log follows directly. */
  function Share(v: Visit, later: seq<Visit>, parse: Parser): seq<Presence> {
    EndedIn(v.Text(), parse) + if later != [] && v.quiet == 0 then EndedBy(OpenIn(v.Text(), parse)) else []
  }

  function Shares(visits: seq<Visit>, parse: Parser): seq<Presence> {
    if visits == [] then [] else Share(visits[0], visits[1..], parse) + Shares(visits[1..], parse)
  }

  lemma VisitLedger(g: Guard, v: Visit, parse: Parser)
    requires parse("").Silent? && v.Valid() && g.path != Some(v.path)
    ensures var after := AfterVisit(g, v, parse);
            && after.recorded == g.recorded + EndedBy(g.presence) + EndedIn(v.Text(), parse)
            && after.presence == (if v.quiet == 0 then OpenIn(v.Text(), parse) else None)
            && after.path == (if v.quiet == 0 then Some(v.path) else None)
  {
    TailEqualsBatch(g, v.path, v.polls, parse);
    PollsFollow(g, v.path, v.polls, parse);
    if v.quiet > 0 { QuietForgets(PollAll(g, v.path, v.polls, parse), v.quiet, parse); }
  }

  lemma JoinFour<T>(a: seq<T>, b: seq<T>, c: seq<T>, d: seq<T>, e: seq<T>)
    ensures ((a + b + c) + d) + e == a + b + ((c + d) + e)
  {
  }

  /** Any chain of visits, to any logs in any order, with or without quiet ticks between: the ledger gains the
      game that was open at the start and then every visit's share, and nothing else. */
  lemma {:induction false} VisitsLedger(g: Guard, visits: seq<Visit>, parse: Parser)
    requires parse("").Silent? && Chained(g.path, visits) && visits != []
    ensures AfterVisits(g, visits, parse).recorded == g.recorded + EndedBy(g.presence) + Shares(visits, parse)
    decreases |visits|
  {
    var v, later := visits[0], visits[1..];
    var g1 := AfterVisit(g, v, parse);
    VisitLedger(g, v, parse);
    if later == [] {
      assert Share(v, later, parse) + Shares(later, parse) == EndedIn(v.Text(), parse);
    } else {
      VisitsLedger(g1, later, parse);
      JoinFour(g.recorded, EndedBy(g.presence), EndedIn(v.Text(), parse), EndedBy(g1.presence), Shares(later, parse));
    }
  }

  // --- every game once -----------------------------------------------------

  // The log is visited again.
  predicate Returns(v: Visit, later: seq<Visit>) { exists w :: w in later && w.path == v.path }

  /** What a visit ought to put there: nothing if its log is read again later, for a log only grows; else all the
      log's games, but for the one that is being played. */
  function Due(v: Visit, later: seq<Visit>, parse: Parser): seq<Presence> {
    if Returns(v, later) then []
    else if later == [] && v.quiet == 0 then EndedIn(v.Text(), parse)
    else PlayedIn(v.Text(), parse)
  }

  function DueInAll(visits: seq<Visit>, parse: Parser): seq<Presence> {
    if visits == [] then [] else Due(visits[0], visits[1..], parse) + DueInAll(visits[1..], parse)
  }

  // What a visit records that a later one records again, and what it should have recorded and never will.
  function Doubled(v: Visit, later: seq<Visit>, parse: Parser): nat {
    if Returns(v, later) then |Share(v, later, parse)| else 0
  }
  function Lost(v: Visit, later: seq<Visit>, parse: Parser): seq<Presence> {
    if !Returns(v, later) && v.quiet > 0 then EndedBy(OpenIn(v.Text(), parse)) else []
  }

  function DoubledInAll(visits: seq<Visit>, parse: Parser): nat {
    if visits == [] then 0 else Doubled(visits[0], visits[1..], parse) + DoubledInAll(visits[1..], parse)
  }
  function LostInAll(visits: seq<Visit>, parse: Parser): seq<Presence> {
    if visits == [] then [] else Lost(visits[0], visits[1..], parse) + LostInAll(visits[1..], parse)
  }

  /** A visit that is its log's last loses a game exactly if it ends in a quiet tick with one open; one that is
      not doubles games exactly if its log had ended one, or another log follows directly with one open. */
  lemma ShareIsDueExactly(v: Visit, later: seq<Visit>, parse: Parser)
    ensures Share(v, later, parse) == Due(v, later, parse)
       <==> if Returns(v, later)
            then EndedIn(v.Text(), parse) == [] && (v.quiet == 0 ==> OpenIn(v.Text(), parse).None?)
            else v.quiet == 0 || OpenIn(v.Text(), parse).None?
    ensures Share(v, later, parse) == Due(v, later, parse)
       <==> Doubled(v, later, parse) == 0 && Lost(v, later, parse) == []
    ensures |Share(v, later, parse)| + |Lost(v, later, parse)| == |Due(v, later, parse)| + Doubled(v, later, parse)
  {
    var ended, open := EndedIn(v.Text(), parse), EndedBy(OpenIn(v.Text(), parse));
    assert ended + [] == ended;
    if !Returns(v, later) && v.quiet > 0 && open != [] { assert |ended + open| != |ended|; }
  }

  lemma {:induction false} OnceInAll(visits: seq<Visit>, parse: Parser)
    ensures DoubledInAll(visits, parse) == 0 && LostInAll(visits, parse) == []
        ==> Shares(visits, parse) == DueInAll(visits, parse)
    ensures |Shares(visits, parse)| + |LostInAll(visits, parse)|
         == |DueInAll(visits, parse)| + DoubledInAll(visits, parse)
    ensures forall p :: p in LostInAll(visits, parse) ==> p in DueInAll(visits, parse)
  {
    if visits != [] {
      ShareIsDueExactly(visits[0], visits[1..], parse);
      OnceInAll(visits[1..], parse);
    }
  }

  /** The ledger has every game of every log once, and only the one being played is not in it yet, exactly if no
      visit doubles a game and none loses one, provided that no lost game is equal to one the ledger has. Where
      one is, a ledger that reads right has as many games twice as it lacks. */
  lemma EveryGameOnce(g: Guard, visits: seq<Visit>, parse: Parser)
    requires parse("").Silent? && Chained(g.path, visits) && visits != []
    ensures var before, after := g.recorded + EndedBy(g.presence), AfterVisits(g, visits, parse).recorded;
            var due, doubled, lost := DueInAll(visits, parse), DoubledInAll(visits, parse), LostInAll(visits, parse);
            && (doubled == 0 && lost == [] ==> after == before + due)
            && (multiset(after) == multiset(before + due) ==> doubled == |lost|)
            && ((forall p :: p in lost ==> p !in Shares(visits, parse)) ==>
                  (multiset(after) == multiset(before + due) <==> doubled == 0 && lost == []))
  {
    VisitsLedger(g, visits, parse);
    OnceInAll(visits, parse);
    SameLedgerExactly(g.recorded + EndedBy(g.presence), Shares(visits, parse), DueInAll(visits, parse),
                      DoubledInAll(visits, parse), LostInAll(visits, parse));
  }

  lemma SameLedgerExactly<T>(before: seq<T>, got: seq<T>, due: seq<T>, doubled: nat, lost: seq<T>)
    requires doubled == 0 && lost == [] ==> got == due
    requires |got| + |lost| == |due| + doubled && forall x :: x in lost ==> x in due
    ensures multiset(before + got) == multiset(before + due) ==> doubled == |lost|
    ensures (forall x :: x in lost ==> x !in got) ==>
              (multiset(before + got) == multiset(before + due) <==> doubled == 0 && lost == [])
  {
    if multiset(before + got) == multiset(before + due) {
      SameLedger(before, got, due);
      if lost != [] { assert lost[0] in got; }
    }
  }

  lemma SameLedger<T>(a: seq<T>, b: seq<T>, c: seq<T>)
    requires multiset(a + b) == multiset(a + c)
    ensures |b| == |c| && forall x :: x in c ==> x in b
  {
    assert |multiset(a + b)| == |a + b| && |multiset(a + c)| == |a + c|;
    assert multiset(a) + multiset(b) == multiset(a) + multiset(c);
    forall x | x in c ensures x in b {
      assert (multiset(a) + multiset(b))[x] == (multiset(a) + multiset(c))[x];
      assert multiset(c)[x] > 0;
    }
  }

  /** A log that goes quiet for good: every game played is in the ledger exactly if none was open when it did;
      the open one is lost however many ticks follow. */
  lemma QuietLosesTheOpenGame(g: Guard, v: Visit, parse: Parser)
    requires parse("").Silent? && Fresh(g) && v.Valid() && v.quiet > 0
    ensures AfterVisit(g, v, parse).recorded == g.recorded + PlayedIn(v.Text(), parse)
       <==> OpenIn(v.Text(), parse).None?
  {
    VisitLedger(g, v, parse);
    assert g.recorded + [] == g.recorded;
    SameAfter(g.recorded, EndedIn(v.Text(), parse), PlayedIn(v.Text(), parse));
  }

  lemma SameAfter<T>(a: seq<T>, b: seq<T>, c: seq<T>)
    ensures a + b == a + c <==> b == c
  {
    if a + b == a + c { assert b == (a + b)[|a|..] == (a + c)[|a|..] == c; }
  }

  // --- a log that shows both -----------------------------------------------

  const GAME := Presence(42, None, "")

  // Lines that stand for the client's own: a join of place 42, a leave, and anything else.
  function Sample(line: string): Event {
    if line == "join" then Join(GAME) else if line == "leave" then Leave else Silent
  }

  lemma OneLine(line: string, rest: string)
    requires line == "join" || line == "leave"
    ensures SplitLines(line + "\n" + rest) == [line] + SplitLines(rest)
  {
    LineIsCut(line, "\n", rest);
    assert line + "\n" + rest == line + ("\n" + rest);
  }

  /** A line is cut at the first character that ends one, a carriage return and a newline counting as one end. */
  lemma LineIsCut(line: string, end: string, rest: string)
    requires forall i :: 0 <= i < |line| ==> !EndsLine(line[i])
    requires end == "\r\n" || (|end| == 1 && EndsLine(end[0]) && !(end == "\r" && rest != "" && rest[0] == '\n'))
    ensures SplitLines(line + (end + rest)) == [line] + SplitLines(rest)
  {
    FirstEndIs(line, end + rest);
    var text, i := line + (end + rest), |line|;
    assert text[i] == end[0] && (i + 1 < |text| ==> text[i + 1] == (end + rest)[1]);
    assert text[..i] == line && text[i + |end|..] == rest;
    assert EndLength(text, i) == |end|;
  }

  lemma {:induction false} FirstEndIs(line: string, rest: string)
    requires (forall i :: 0 <= i < |line| ==> !EndsLine(line[i])) && rest != "" && EndsLine(rest[0])
    ensures FirstEnd(line + rest) == |line|
  {
    if line == "" {
      assert line + rest == rest;
    } else {
      assert (line + rest)[1..] == line[1..] + rest;
      FirstEndIs(line[1..], rest);
    }
  }

  const OPEN_LOG := "join" + "\n"
  const CLOSED_LOG := "join" + "\n" + ("leave" + "\n")

  lemma SampleBatches()
    ensures Batch(OPEN_LOG, Sample) == Fold(Some(GAME), [])
    ensures Batch(CLOSED_LOG, Sample) == Fold(None, [GAME])
  {
    var open, closed := OPEN_LOG, CLOSED_LOG;
    assert open[|open| - 1] == '\n' && closed[|closed| - 1] == '\n';
    assert CompletePart(open) == open && CompletePart(closed) == closed;
    OneLine("join", "");
    OneLine("leave", "");
    OneLine("join", "leave" + "\n");
    assert "join" + "\n" + "" == open && "leave" + "\n" + "" == "leave" + "\n";
    assert SplitLines("") == [];
    FoldOne(Fold(None, []), "join", []);
    FoldOne(Fold(None, []), "join", ["leave"]);
    FoldOne(Fold(Some(GAME), []), "leave", []);
    assert ["join"] + [] == ["join"] && ["leave"] + [] == ["leave"];
  }

  lemma FoldOne(f: Fold, line: string, rest: seq<string>)
    ensures FoldLines(f, [line] + rest, Sample) == FoldLines(FoldEvent(f, Sample(line)), rest, Sample)
  {
    assert ([line] + rest)[1..] == rest;
  }

  const BLANK := Guard(None, 0, None, [])

  function Once(path: int, text: string, quiet: nat): Visit { Visit(path, [Some(text)], quiet) }

  lemma OneVisit(path: int, text: string, quiet: nat)
    ensures Once(path, text, quiet).Valid() && Once(path, text, quiet).Text() == text
  {
    var polls := Once(path, text, quiet).polls;
    assert polls[1..] == [] && LastText(text, polls[1..]) == text;
  }

  lemma EmptyBatch()
    ensures Batch("", Sample) == Fold(None, [])
  {
    assert CompletePart("") == "" && SplitLines("") == [];
  }

  /** A join and a quiet tick: the game is not in the ledger. */
  lemma OpenGameLostExample()
    ensures AfterVisit(BLANK, Once(1, OPEN_LOG, 1), Sample).recorded == []
  {
    SampleBatches();
    OneVisit(1, OPEN_LOG, 1);
    VisitLedger(BLANK, Once(1, OPEN_LOG, 1), Sample);
  }

  lemma OneMore(g: Guard, v: Visit, later: seq<Visit>, parse: Parser)
    ensures AfterVisits(g, [v] + later, parse) == AfterVisits(AfterVisit(g, v, parse), later, parse)
  {
    assert ([v] + later)[1..] == later;
  }

  lemma InTurn(g: Guard, a: Visit, b: Visit, c: Visit, parse: Parser)
    ensures AfterVisits(g, [b, c], parse) == AfterVisit(AfterVisit(g, b, parse), c, parse)
    ensures AfterVisits(g, [a, b, c], parse) == AfterVisit(AfterVisit(AfterVisit(g, a, parse), b, parse), c, parse)
  {
    var h := AfterVisit(g, a, parse);
    assert [a, b, c] == [a] + [b, c] && [b, c] == [b] + [c] && [c] == [c] + [];
    OneMore(g, a, [b, c], parse);
    OneMore(g, b, [c], parse);
    OneMore(h, b, [c], parse);
    OneMore(AfterVisit(h, b, parse), c, [], parse);
    OneMore(AfterVisit(g, b, parse), c, [], parse);
  }

  // A log with one game in all, and the same log when that game is over.
  lemma TwiceAfterQuiet(a: Visit, c: Visit)
    requires a.Valid() && c.Valid() && a.quiet > 0
    requires Batch(a.Text(), Sample) == Fold(None, [GAME]) && Batch(c.Text(), Sample) == Fold(None, [GAME])
    ensures AfterVisits(BLANK, [a, c], Sample).recorded == [GAME, GAME]
  {
    InTurn(BLANK, c, a, c, Sample);
    VisitLedger(BLANK, a, Sample);
    VisitLedger(AfterVisit(BLANK, a, Sample), c, Sample);
  }

  // The same with a look at an empty log in between.
  lemma TwiceAfterAnother(a: Visit, b: Visit, c: Visit)
    requires a.Valid() && b.Valid() && c.Valid() && a.quiet == 0 && b.quiet == 0
    requires a.path != b.path && b.path != c.path
    requires Batch(a.Text(), Sample) in {Fold(Some(GAME), []), Fold(None, [GAME])}
    requires Batch(b.Text(), Sample) == Fold(None, []) && Batch(c.Text(), Sample) == Fold(None, [GAME])
    ensures AfterVisits(BLANK, [a, b, c], Sample).recorded == [GAME, GAME]
  {
    InTurn(BLANK, a, b, c, Sample);
    VisitLedger(BLANK, a, Sample);
    OneMoreGame(AfterVisit(BLANK, a, Sample), b, c);
  }

  lemma OneMoreGame(g: Guard, b: Visit, c: Visit)
    requires g.recorded + EndedBy(g.presence) == [GAME] && g.path != Some(b.path)
    requires b.Valid() && c.Valid() && b.quiet == 0 && b.path != c.path
    requires Batch(b.Text(), Sample) == Fold(None, []) && Batch(c.Text(), Sample) == Fold(None, [GAME])
    ensures AfterVisit(AfterVisit(g, b, Sample), c, Sample).recorded == [GAME, GAME]
  {
    VisitLedger(g, b, Sample);
    VisitLedger(AfterVisit(g, b, Sample), c, Sample);
  }

  lemma SampleVisit(v: Visit, path: int, text: string, quiet: nat, batch: Fold)
    requires v == Once(path, text, quiet) && Batch(text, Sample) == batch
    ensures v.Valid() && Batch(v.Text(), Sample) == batch && v.path == path && v.quiet == quiet
  {
    OneVisit(path, text, quiet);
  }

  /** A game over, a quiet tick, and the same log again; a game over, a look at another log, and back; a game
      open, a look at another log, and back when it is over: each time it is in the ledger twice. */
  lemma RecordedTwiceExamples(a: Visit, b: Visit, c: Visit)
    requires a == Once(1, CLOSED_LOG, 1) || a == Once(1, CLOSED_LOG, 0) || a == Once(1, OPEN_LOG, 0)
    requires b == Once(2, "", 0) && c == Once(1, CLOSED_LOG, 0)
    ensures AfterVisits(BLANK, if a.quiet > 0 then [a, c] else [a, b, c], Sample).recorded == [GAME, GAME]
  {
    SampleBatches();
    EmptyBatch();
    SampleVisit(b, 2, "", 0, Fold(None, []));
    SampleVisit(c, 1, CLOSED_LOG, 0, Fold(None, [GAME]));
    if a == Once(1, OPEN_LOG, 0) {
      SampleVisit(a, 1, OPEN_LOG, 0, Fold(Some(GAME), []));
    } else {
      SampleVisit(a, 1, CLOSED_LOG, a.quiet, Fold(None, [GAME]));
    }
    if a.quiet > 0 { TwiceAfterQuiet(a, c); } else { TwiceAfterAnother(a, b, c); }
  }

  // --- one pass of the loop ------------------------------------------------

  /** One pass over the log in hand leaves in the ledger and open exactly the games of what was open and what the
      new lines say. */
  lemma PassFindsGames(g: Guard, path: int, file: Option<string>, parse: Parser)
    requires g.path == Some(path)
    ensures var after := Step(g, Poll(path, file), parse);
            var said := AsJoin(g.presence) + Spoken(ReadNewLines(file, g.offset).0, parse);
            && after.recorded + EndedBy(after.presence) == g.recorded + Games(said)
            && (after.presence.Some? <==> StillOpen(said))
  {
    var lines := ReadNewLines(file, g.offset).0;
    var f := FoldLines(Fold(g.presence, []), lines, parse);
    FoldFindsGames(Fold(g.presence, []), lines, parse);
    AfterNothing(g.recorded, f.ended, EndedBy(f.current), Games(AsJoin(g.presence) + Spoken(lines, parse)));
  }

  lemma AfterNothing<T>(a: seq<T>, b: seq<T>, c: seq<T>, d: seq<T>)
    requires b + c == [] + d
    ensures (a + b) + c == a + d
  {
    assert [] + d == d;
  }

  /** A game the guard ends goes into the ledger once: the lines that follow are read as if none was open, so the
      client's own leave adds nothing, and what they open is a game of its own. */
  lemma EndedGameIsRecordedOnce(g: Guard, path: int, file: Option<string>, parse: Parser)
    requires g.path == Some(path)
    ensures var after := Step(Step(g, Ended, parse), Poll(path, file), parse);
            var said := Spoken(ReadNewLines(file, g.offset).0, parse);
            after.recorded + EndedBy(after.presence) == g.recorded + EndedBy(g.presence) + Games(said)
  {
    PassFindsGames(Step(g, Ended, parse), path, file, parse);
    NothingBefore(Spoken(ReadNewLines(file, g.offset).0, parse));
  }

  /** A log found shorter than it was read is read again from its start. */
  lemma ShrunkLogIsReadAgain(file: string, offset: nat)
    requires |file| < offset
    ensures ReadNewLines(Some(file), offset) == ReadNewLines(Some(file), 0)
    ensures ReadNewLines(Some(file), offset).1 == |CompletePart(file)|
  {
    assert file[0..] == file;
  }
}
