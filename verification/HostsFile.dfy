/** Every run of the two writers over one hosts file is a run of a three-state machine. */
module HostsFile {
  import opened Wrappers
  import opened HostsScan
  import opened HostsSplice
  import opened HostsRuns

  // The file as the parent left it, that file with its last line ended, or that and one section.
  datatype File = Untouched | Tidied | Holding(kind: Kind, hosts: seq<string>, nl: string)

  // The bytes a state stands for.
  function Bytes(base: string, f: File, m: Markers): string {
    match f
    case Untouched => base
    case Tidied => Terminated(base)
    case Holding(kind, hosts, nl) => WithSection(Terminated(base), m.Of(kind), m.end, hosts, nl)
  }

  // A section's line ends are those that dominate the file it was put into.
  predicate Proper(base: string, f: File) {
    f.Holding? ==>
      && f.hosts != [] && AllClean(f.hosts)
      && f.nl in {DetectNewline(base), DetectNewline(Terminated(base))}
  }

  function Put(base: string, f: File, kind: Kind, hosts: seq<string>, m: Markers): File {
    if hosts == [] || f.Holding? then f else Holding(kind, hosts, DetectNewline(Bytes(base, f, m)))
  }

  function Take(f: File, kinds: set<Kind>): File {
    if f.Holding? && f.kind in kinds then Tidied else f
  }

  function Next(base: string, f: File, op: Op, m: Markers): File {
    match op
    case Insert(list) => Put(base, f, Auto, BlockList(list), m)
    case Remove(AutoOnly) => Take(f, {Auto})
    case Remove(AnyKind) => Take(f, {Auto, Manual})
    case Block(source) => if source.None? then f else Put(base, f, Manual, BlockList(source.value), m)
    case Allow => Take(f, {Manual})
  }

  function After(base: string, f: File, ops: seq<Op>, m: Markers): File
    decreases |ops|
  {
    if ops == [] then f else After(base, Next(base, f, ops[0], m), ops[1..], m)
  }

  // --- the three states, read by the scans ---------------------------------

  // A line that starts with one kind's marker starts with the name.
  lemma {:induction false} OwnStartIsAStart(text: string, prev: Prev, kind: Kind, m: Markers)
    requires m.Valid() && HasStart(text, prev, m.Own(kind))
    ensures HasStart(text, prev, m.Any())
    decreases |text|
  {
    var marker := m.Of(kind);
    if LineStart(prev) && marker <= text {
      assert marker[|m.stem|] == text[|m.stem|];
      assert m.stem == marker[..|m.stem|] == text[..|m.stem|];
    } else {
      OwnStartIsAStart(text[1..], PrevOf(text[0]), kind, m);
    }
  }

  lemma NewlineOpensNothing(text: string, nl: string, o: Opening)
    requires IsNewline(nl) && o.Valid() && o.At(text + nl)
    ensures o.At(text)
  {
    var p := o.marker;
    if |p| > |text| {
      assert p[|text|] == (text + nl)[|text|] == nl[0];
      assert IsNewlineChar(p[|text|]);
    } else {
      assert p == (text + nl)[..|p|] == text[..|p|];
      if |p| < |text| { assert text[|p|] == (text + nl)[|p|]; }
    }
  }

  lemma {:induction false} EndingALineStartsNone(text: string, prev: Prev, nl: string, o: Opening)
    requires IsNewline(nl) && o.Valid() && !HasStart(text, prev, o)
    ensures !HasStart(text + nl, prev, o)
    decreases |text|
  {
    if o.At(text + nl) { NewlineOpensNothing(text, nl, o); }
    if text == "" {
      assert text + nl == nl;
      assert !o.At(nl) && !HasStart("", Newline, o);
      OverNewline(nl, "", o, o.marker);
      assert nl + "" == nl && nl[1..] == if nl == "\n" then "" else "\n";
      if nl == "\r\n" { assert !HasStart("\n", Inside, o); }
    } else {
      assert (text + nl)[0] == text[0] && (text + nl)[1..] == text[1..] + nl;
      EndingALineStartsNone(text[1..], PrevOf(text[0]), nl, o);
    }
  }

  // A file without a section of the name has none of either kind, before and after its last line is ended.
  lemma NoSectionOf(base: string, m: Markers, o: Opening)
    requires m.Valid() && !Blocked(base, m) && o in {m.Any(), m.Own(Auto), m.Own(Manual)}
    ensures !HasStart(base, FileStart, o) && !HasStart(Terminated(base), FileStart, o)
  {
    if HasStart(base, FileStart, o) {
      if o == m.Own(Auto) { OwnStartIsAStart(base, FileStart, Auto, m); }
      if o == m.Own(Manual) { OwnStartIsAStart(base, FileStart, Manual, m); }
    }
    if !Ended(base) { EndingALineStartsNone(base, FileStart, DetectNewline(base), o); }
  }

  lemma Answering(m: Markers, kind: Kind)
    requires m.Valid()
    ensures Answers(m.Own(kind), m.Of(kind)) && Answers(m.Any(), m.Of(kind))
  {
  }

  lemma SectionIsSeen(base: string, f: File, m: Markers)
    requires m.Valid() && !Blocked(base, m) && Proper(base, f)
    ensures Blocked(Bytes(base, f, m), m) <==> f.Holding?
  {
    NoSectionOf(base, m, m.Any());
    if f.Holding? {
      Answering(m, f.kind);
      SectionFound(m.Any(), m.Of(f.kind), m.end, f.hosts, f.nl, FileStart);
      SectionStarts(Terminated(base), m.Any(), m.Of(f.kind), m.end, f.hosts, f.nl);
    }
  }

  // Taking out one opening from each of the three states.
  lemma TakeMeaning(base: string, f: File, o: Opening, kinds: set<Kind>, m: Markers)
    requires m.Valid() && !Blocked(base, m) && Proper(base, f)
    requires (o == m.Any() && kinds == {Auto, Manual})
          || (o == m.Own(Auto) && kinds == {Auto}) || (o == m.Own(Manual) && kinds == {Manual})
    ensures Without(Bytes(base, f, m), FileStart, o, m.end) == Bytes(base, Take(f, kinds), m)
  {
    NoSectionOf(base, m, o);
    match f
    case Untouched => NothingToTakeOut(base, FileStart, o, m.end);
    case Tidied => NothingToTakeOut(Terminated(base), FileStart, o, m.end);
    case Holding(kind, hosts, nl) =>
      if kind in kinds {
        Answering(m, kind);
        TakenOut(Terminated(base), o, m.Of(kind), m.end, hosts, nl);
      } else {
        OtherKindStays(Terminated(base), o, m.Of(kind), m.end, hosts, nl);
      }
  }

  lemma EndingTwice(raw: string, nl: string)
    requires IsNewline(nl)
    ensures Ended(EndLine(raw, nl))
  {
    if !Ended(raw) { assert (raw + nl)[|raw + nl| - 1] == '\n'; }
  }

  lemma PutMeaning(base: string, f: File, kind: Kind, hosts: seq<string>, m: Markers)
    requires m.Valid() && !Blocked(base, m) && Proper(base, f) && hosts != [] && AllClean(hosts)
    ensures Inserted(Bytes(base, f, m), kind, hosts, m) == Bytes(base, Put(base, f, kind, hosts, m), m)
    ensures Proper(base, Put(base, f, kind, hosts, m))
  {
    SectionIsSeen(base, f, m);
    EndingTwice(base, DetectNewline(base));
  }

  /** One operation on the bytes is one step of the machine. */
  lemma StepFollowsMachine(base: string, f: File, op: Op, m: Markers)
    requires m.Valid() && !Blocked(base, m) && Proper(base, f)
    ensures Step(Bytes(base, f, m), op, m) == Bytes(base, Next(base, f, op, m), m)
    ensures Proper(base, Next(base, f, op, m))
  {
    match op
    case Insert(list) =>
      BlockListIsClean(list);
      if BlockList(list) != [] { PutMeaning(base, f, Auto, BlockList(list), m); }
    case Remove(AutoOnly) => TakeMeaning(base, f, m.Own(Auto), {Auto}, m);
    case Remove(AnyKind) => TakeMeaning(base, f, m.Any(), {Auto, Manual}, m);
    case Block(source) =>
      if source.Some? {
        BlockListIsClean(source.value);
        if BlockList(source.value) != [] { PutMeaning(base, f, Manual, BlockList(source.value), m); }
      }
    case Allow => TakeMeaning(base, f, m.Own(Manual), {Manual}, m);
  }

  lemma {:induction false} RunFollowsMachine(base: string, f: File, ops: seq<Op>, m: Markers)
    requires m.Valid() && !Blocked(base, m) && Proper(base, f)
    ensures Run(Bytes(base, f, m), ops, m) == Bytes(base, After(base, f, ops, m), m)
    ensures Proper(base, After(base, f, ops, m))
    decreases |ops|
  {
    if ops != [] {
      StepFollowsMachine(base, f, ops[0], m);
      RunFollowsMachine(base, Next(base, f, ops[0], m), ops[1..], m);
    }
  }

  /** Any sequence of automatic inserts and removes and manual blocks and allows, on any file that held no
      section of the name, leaves that file, that file with its last line ended, or that and exactly one
      well-formed section at the end. */
  lemma {:induction false} EveryRunKeepsTheFile(base: string, ops: seq<Op>, name: string)
    requires Name(name) && !Blocked(base, MarkersOf(name))
    ensures MarkersOf(name).Valid()
    ensures var m := MarkersOf(name);
            var f := After(base, Untouched, ops, m);
            && Proper(base, f)
            && Run(base, ops, m) == Bytes(base, f, m)
            && (Blocked(Run(base, ops, m), m) <==> f.Holding?)
  {
    MarkersFit(name);
    var m := MarkersOf(name);
    RunFollowsMachine(base, Untouched, ops, m);
    SectionIsSeen(base, After(base, Untouched, ops, m), m);
  }

  /** With an empty or newline-terminated file the bytes outside the section are never touched at all: a run
      that leaves no section leaves the file it started from. */
  lemma {:induction false} EveryRunReturnsTheBase(base: string, ops: seq<Op>, name: string)
    requires Name(name) && !Blocked(base, MarkersOf(name)) && Ended(base)
    ensures MarkersOf(name).Valid()
    ensures var m := MarkersOf(name);
            var out := Run(base, ops, m);
            || out == base
            || (Blocked(out, m)
                && (exists f :: Proper(base, f) && f.Holding? && f.nl == DetectNewline(base)
                                && out == WithSection(base, m.Of(f.kind), m.end, f.hosts, f.nl)))
  {
    EveryRunKeepsTheFile(base, ops, name);
    var f := After(base, Untouched, ops, MarkersOf(name));
    assert Terminated(base) == base;
  }

  lemma {:induction false} TwoSteps(base: string, first: Op, second: Op, m: Markers)
    requires m.Valid() && !Blocked(base, m)
    ensures Step(Step(base, first, m), second, m)
         == Bytes(base, Next(base, Next(base, Untouched, first, m), second, m), m)
  {
    StepFollowsMachine(base, Untouched, first, m);
    StepFollowsMachine(base, Next(base, Untouched, first, m), second, m);
  }

  // Of a section just inserted, only the remover of its kind finds something to take.
  lemma {:induction false} InsertThen(base: string, list: string, inserter: Op, remover: Op, m: Markers)
    requires m.Valid() && !Blocked(base, m) && BlockList(list) != []
    requires remover == Remove(AutoOnly) || remover == Allow
    requires inserter == Insert(list) || inserter == Block(Some(list))
    ensures var out := Step(base, inserter, m);
            Step(out, remover, m) == if inserter.Insert? == remover.Remove? then Terminated(base) else out
  {
    TwoSteps(base, inserter, remover, m);
    StepFollowsMachine(base, Untouched, inserter, m);
    MachineInsertThen(base, list, inserter, remover, m);
  }

  lemma MachineInsertThen(base: string, list: string, inserter: Op, remover: Op, m: Markers)
    requires BlockList(list) != []
    requires remover == Remove(AutoOnly) || remover == Allow
    requires inserter == Insert(list) || inserter == Block(Some(list))
    ensures var f := Next(base, Untouched, inserter, m);
            f.Holding? && Next(base, f, remover, m) == if inserter.Insert? == remover.Remove? then Tidied else f
  {
  }

  /** Removing the section just inserted gives back the original bytes, plus one line end of the file's own
      kind if its last line had none; the other writer's remover changes nothing. */
  lemma {:induction false} RemoveUndoesInsert(base: string, list: string, name: string)
    requires Name(name) && !Blocked(base, MarkersOf(name)) && BlockList(list) != []
    ensures MarkersOf(name).Valid()
    ensures var m := MarkersOf(name);
            var auto, manual := Step(base, Insert(list), m), Step(base, Block(Some(list)), m);
            && Step(auto, Remove(AutoOnly), m) == Terminated(base) == Step(manual, Allow, m)
            && Step(auto, Allow, m) == auto && Step(manual, Remove(AutoOnly), m) == manual
  {
    MarkersFit(name);
    var m := MarkersOf(name);
    InsertThen(base, list, Insert(list), Remove(AutoOnly), m);
    InsertThen(base, list, Insert(list), Allow, m);
    InsertThen(base, list, Block(Some(list)), Remove(AutoOnly), m);
    InsertThen(base, list, Block(Some(list)), Allow, m);
  }

  // --- which line end a section gets ---------------------------------------

  lemma {:induction false} CountsOfEnded(raw: string, nl: string)
    requires IsNewline(nl) && raw != "" && !EndsWithNewline(raw)
    ensures CountLf(raw + nl) == CountLf(raw) + 1
    ensures CountCrlf(raw + nl) == CountCrlf(raw) + (if nl == "\r\n" || raw[|raw| - 1] == '\r' then 1 else 0)
    decreases |raw|
  {
    var text := raw + nl;
    assert text[0] == raw[0] && text[1..] == raw[1..] + nl;
    if |raw| == 1 {
      assert raw[1..] == "" && text[1..] == nl && text[1] == nl[0];
      CountsOfNewline(nl);
    } else {
      assert text[1] == raw[1];
      CountsOfEnded(raw[1..], nl);
    }
  }

  lemma CountsOfNewline(nl: string)
    requires IsNewline(nl)
    ensures CountLf(nl) == 1 && CountCrlf(nl) == if nl == "\r\n" then 1 else 0
  {
    assert CountLf("") == 0 && CountCrlf("") == 0;
    assert nl[1..] == if nl == "\n" then "" else "\n";
    assert "\n"[1..] == "" && CountLf("\n") == 1 && CountCrlf("\n") == 0;
  }

  /** Ending the last line never changes which line end the file counts as using, except that a bare
      carriage return at the end of an LF file becomes one more CRLF and can tip the balance. */
  lemma LineEndKept(base: string)
    ensures DetectNewline(Terminated(base)) != DetectNewline(base)
       <==> !Ended(base) && base[|base| - 1] == '\r' && DetectNewline(base) == "\n"
            && 2 * (CountCrlf(base) + 1) >= CountLf(base) + 1
  {
    if !Ended(base) { CountsOfEnded(base, DetectNewline(base)); }
  }

  /** Such a file: one LF line and one that stops at the carriage return. */
  lemma LineEndTipped()
    ensures DetectNewline("a\nb\r") == "\n" && DetectNewline(Terminated("a\nb\r")) == "\r\n"
  {
    var base := "a\nb\r";
    assert base[1..] == "\nb\r" && base[2..] == "b\r" && base[3..] == "\r" && base[4..] == "";
    CountsFrom(base, 4, 0, 0);
    CountsFrom(base, 3, 0, 0);
    CountsFrom(base, 2, 0, 0);
    CountsFrom(base, 1, 1, 0);
    LineEndKept(base);
  }

  lemma CountsFrom(base: string, i: nat, lf: nat, crlf: nat)
    requires i < |base| ==> CountLf(base[i + 1..]) + (if base[i] == '\n' then 1 else 0) == lf
    requires i < |base| ==> CountCrlf(base[i + 1..]) + (if "\r\n" <= base[i..] then 1 else 0) == crlf
    requires i == |base| ==> lf == 0 && crlf == 0
    requires i <= |base|
    ensures CountLf(base[i..]) == lf && CountCrlf(base[i..]) == crlf
  {
    if i < |base| { assert base[i..][1..] == base[i + 1..]; }
  }
}
