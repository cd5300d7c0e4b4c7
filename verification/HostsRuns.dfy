/** The two writers of the hosts file, and the file every run of them leaves behind. */
module HostsRuns {
  import opened Wrappers
  import opened HostsScan
  import opened HostsSplice

  // --- the operations ------------------------------------------------------

  predicate Blocked(raw: string, m: Markers) { HasStart(raw, FileStart, m.Any()) }

  // The file with a section of this kind at its end.
  function Appended(raw: string, kind: Kind, hosts: seq<string>, m: Markers): string {
    var nl := DetectNewline(raw);
    WithSection(EndLine(raw, nl), m.Of(kind), m.end, hosts, nl)
  }

  function Inserted(raw: string, kind: Kind, hosts: seq<string>, m: Markers): string {
    if Blocked(raw, m) then raw else Appended(raw, kind, hosts, m)
  }

  // The byte string every inserter builds entry by entry.
  method BuildSection(lead: string, marker: string, end: string, hosts: seq<string>, nl: string)
    returns (section: string)
    ensures section == lead + Body(marker, end, hosts, nl)
  {
    section := lead + marker + nl;
    ghost var head := section;
    for i := 0 to |hosts|
      invariant section == head + HostLines(hosts[..i], nl)
    {
      HostLinesGrow(hosts[..i], hosts[i], nl);
      assert hosts[..i + 1] == hosts[..i] + [hosts[i]];
      assert (head + HostLines(hosts[..i], nl)) + (ZERO_ADDRESS + hosts[i] + nl)
          == head + (HostLines(hosts[..i], nl) + (ZERO_ADDRESS + hosts[i] + nl));
      section := section + (ZERO_ADDRESS + hosts[i] + nl);
    }
    assert hosts[..|hosts|] == hosts;
    section := section + (end + nl);
    Regroup(lead, marker, nl, HostLines(hosts, nl), end + nl);
  }

  lemma Regroup(a: string, b: string, c: string, d: string, e: string)
    ensures ((a + b + c) + d) + e == a + (b + (c + (d + e)))
  {
  }

  /** The automatic writer; None is the refusal of an empty list. */
  method InsertBlock(raw: string, hosts: seq<string>, m: Markers) returns (r: Option<string>)
    ensures r == if hosts == [] then None else Some(Inserted(raw, Auto, hosts, m))
  {
    if hosts == [] { return None; }
    if Blocked(raw, m) { return Some(raw); }
    var nl := DetectNewline(raw);
    var out := raw;
    if out != "" && out[|out| - 1] != '\n' { out := out + nl; }
    var section := BuildSection(if out != "" then nl else "", m.auto, m.end, hosts, nl);
    return Some(out + section);
  }

  datatype Scope = AutoOnly | AnyKind

  function OpeningOf(scope: Scope, m: Markers): Opening {
    if scope.AutoOnly? then m.Own(Auto) else m.Any()
  }

  function RemoveBlock(raw: string, scope: Scope, m: Markers): string
    requires m.Valid()
  {
    Without(raw, FileStart, OpeningOf(scope, m), m.end)
  }

  datatype BlockAnswer = Already | NoList | Done(count: nat)

  /** The manual toggle; `list` is the block list's bytes if there is such a file. */
  method BlockHosts(raw: string, list: Option<string>, m: Markers) returns (answer: BlockAnswer, out: string)
    ensures out == Step(raw, Block(list), m)
    ensures answer.Already? <==> Blocked(raw, m)
    ensures answer.Done? <==> !Blocked(raw, m) && list.Some? && BlockList(list.value) != []
    ensures answer.Done? ==> answer.count == |BlockList(list.value)|
    ensures !answer.Done? ==> out == raw
    requires m.Valid()
  {
    if Blocked(raw, m) { return Already, raw; }
    if list.None? { return NoList, raw; }
    var entries := ParseBlockList(list.value);
    if entries == [] { return NoList, raw; }
    var nl := DetectNewline(raw);
    var section := BuildSection(if raw != "" then nl else "", m.manual, m.end, entries, nl);
    out := raw;
    if out != "" && out[|out| - 1] != '\n' { out := out + nl; }
    return Done(|entries|), out + section;
  }

  method AllowHosts(raw: string, m: Markers) returns (changed: bool, out: string)
    requires m.Valid()
    ensures out == Step(raw, Allow, m) && (changed <==> out != raw)
  {
    out := Without(raw, FileStart, m.Own(Manual), m.end);
    changed := out != raw;
  }

  // One thing done to the file; block lists are given by their bytes.
  datatype Op = Insert(list: string) | Remove(scope: Scope) | Block(source: Option<string>) | Allow

  function Step(raw: string, op: Op, m: Markers): string
    requires m.Valid()
  {
    match op
    case Insert(list) => if BlockList(list) == [] then raw else Inserted(raw, Auto, BlockList(list), m)
    case Remove(scope) => RemoveBlock(raw, scope, m)
    case Block(source) =>
      if source.None? || BlockList(source.value) == [] then raw
      else Inserted(raw, Manual, BlockList(source.value), m)
    case Allow => Without(raw, FileStart, m.Own(Manual), m.end)
  }

  function Run(raw: string, ops: seq<Op>, m: Markers): string
    requires m.Valid()
    decreases |ops|
  {
    if ops == [] then raw else Run(Step(raw, ops[0], m), ops[1..], m)
  }

  // --- reading a section back ----------------------------------------------

  // A host's line opens with a digit, so it can be neither marker.
  lemma {:induction false} OverHosts(hosts: seq<string>, nl: string, rest: string, start: Opening, end: string)
    requires AllClean(hosts) && IsNewline(nl) && start.Valid() && Marker(end)
    ensures AfterEnd(HostLines(hosts, nl) + rest, Newline, end) == AfterEnd(rest, Newline, end)
    ensures HasStart(HostLines(hosts, nl) + rest, Newline, start) <==> HasStart(rest, Newline, start)
  {
    if hosts == [] {
      assert HostLines(hosts, nl) + rest == rest;
    } else {
      var later := HostLines(hosts[1..], nl) + rest;
      assert Clean(hosts[0]);
      OverHosts(hosts[1..], nl, rest, start, end);
      OverHostLine(hosts[0], nl, later, start, end);
      FirstHost(hosts, nl, rest);
    }
  }

  lemma FirstHost(hosts: seq<string>, nl: string, rest: string)
    requires hosts != []
    ensures HostLines(hosts, nl) + rest
         == (ZERO_ADDRESS + hosts[0]) + (nl + (HostLines(hosts[1..], nl) + rest))
  {
    Regroup("", ZERO_ADDRESS + hosts[0], nl, HostLines(hosts[1..], nl), rest);
  }

  lemma OverHostLine(host: string, nl: string, later: string, start: Opening, end: string)
    requires OneLine(host) && IsNewline(nl) && start.Valid() && Marker(end)
    ensures var text := (ZERO_ADDRESS + host) + (nl + later);
            && AfterEnd(text, Newline, end) == AfterEnd(later, Newline, end)
            && (HasStart(text, Newline, start) <==> HasStart(later, Newline, start))
  {
    var line := ZERO_ADDRESS + host;
    var text := line + (nl + later);
    assert text[0] == '0' && text[1..] == line[1..] + (nl + later);
    assert OneLine(line[1..]) by { OneLineJoin(ZERO_ADDRESS, host); }
    SkipToEnd(line[1..], nl + later, end);
    SkipInside(line[1..], nl + later, start);
    OverNewline(nl, later, start, end);
  }

  // After the marker the section runs to the end marker's line end.
  lemma BodyCloses(tail: string, end: string, hosts: seq<string>, nl: string, start: Opening)
    requires OneLine(tail) && AllClean(hosts) && IsNewline(nl) && start.Valid() && Marker(end)
    ensures AfterEnd(tail + (nl + (HostLines(hosts, nl) + (end + nl))), Inside, end) == Some(("", Newline))
  {
    var closing := end + nl;
    var lines := HostLines(hosts, nl) + closing;
    SkipToEnd(tail, nl + lines, end);
    OverNewline(nl, lines, start, end);
    OverHosts(hosts, nl, closing, start, end);
    assert end <= closing && closing[|end|..] == nl;
    DropNewline(nl);
  }

  lemma DropNewline(nl: string)
    requires IsNewline(nl)
    ensures DropTail(nl) == ("", Newline)
  {
    if nl == "\n" { assert nl[1..] == ""; } else { assert nl[2..] == ""; }
  }

  // An opening that the marker of a section answers to.
  predicate Answers(o: Opening, marker: string) {
    && o.Valid() && Marker(marker) && o.marker <= marker
    && (o.whole ==> |o.marker| < |marker| && !WordChar(marker[|o.marker|]))
  }

  lemma SectionFound(o: Opening, marker: string, end: string, hosts: seq<string>, nl: string, prev: Prev)
    requires Answers(o, marker) && Marker(end) && AllClean(hosts) && IsNewline(nl) && LineStart(prev)
    ensures Section(Body(marker, end, hosts, nl), prev, o, end) == Some(("", Newline))
    ensures o.At(Body(marker, end, hosts, nl))
  {
    var rest := nl + (HostLines(hosts, nl) + (end + nl));
    var text := marker + rest;
    var tail := marker[|o.marker|..];
    assert text[|o.marker|..] == tail + rest;
    assert text[..|o.marker|] == marker[..|o.marker|];
    assert OneLine(tail);
    BodyCloses(tail, end, hosts, nl, o);
  }

  // --- taking out what was put in ------------------------------------------

  // No section starts while something of the text is still in front.
  lemma NoMatchBefore(t: string, prev: Prev, tail: string, start: Opening, end: string)
    requires start.Valid() && EndsWithNewline(t) && !HasStart(t, prev, start)
    requires tail != "" && IsNewlineChar(tail[0])
    ensures MatchHere(t + tail, prev, start, end).None?
  {
    var text := t + tail;
    MarkerStaysInside(t, tail, start);
    assert !start.At(tail);
    assert text[0] == t[0] && (|t| > 1 ==> text[1] == t[1]);
    if |t| > 1 && "\r\n" <= text {
      assert text[2..] == t[2..] + tail && t[0] == '\r' && t[1] == '\n';
      assert t[1..][1..] == t[2..] && !HasStart(t[2..], Newline, start);
      if |t| > 2 { MarkerStaysInside(t[2..], tail, start); } else { assert t[2..] + tail == tail; }
    } else if "\n" <= text {
      assert text[1..] == t[1..] + tail && t[0] == '\n';
      assert !HasStart(t[1..], Newline, start);
      if |t| > 1 { MarkerStaysInside(t[1..], tail, start); } else { assert t[1..] + tail == tail; }
    }
  }

  // A character at which no section starts stays.
  lemma OverChar(c: char, rest: string, prev: Prev, start: Opening, end: string)
    requires start.Valid() && MatchHere([c] + rest, prev, start, end).None?
    ensures Without([c] + rest, prev, start, end) == [c] + Without(rest, PrevOf(c), start, end)
  {
    assert ([c] + rest)[1..] == rest;
  }

  lemma {:induction false} OverText(t: string, prev: Prev, tail: string, start: Opening, end: string)
    requires start.Valid() && EndsWithNewline(t) && !HasStart(t, prev, start)
    requires tail != "" && IsNewlineChar(tail[0])
    ensures Without(t + tail, prev, start, end) == t + Without(tail, Newline, start, end)
    decreases |t|
  {
    NoMatchBefore(t, prev, tail, start, end);
    assert t == [t[0]] + t[1..] && t + tail == [t[0]] + (t[1..] + tail);
    OverChar(t[0], t[1..] + tail, prev, start, end);
    if |t| == 1 {
      assert t[1..] + tail == tail;
    } else {
      OverText(t[1..], PrevOf(t[0]), tail, start, end);
      Rejoin(t[0], t[1..], Without(tail, Newline, start, end));
    }
  }

  lemma Rejoin(c: char, a: string, b: string)
    ensures [c] + (a + b) == ([c] + a) + b
  {
  }

  lemma LedSectionGone(o: Opening, marker: string, end: string, hosts: seq<string>, nl: string)
    requires Answers(o, marker) && Marker(end) && AllClean(hosts) && IsNewline(nl)
    ensures Without(nl + Body(marker, end, hosts, nl), Newline, o, end) == ""
  {
    var body := Body(marker, end, hosts, nl);
    SectionFound(o, marker, end, hosts, nl, Newline);
    var text := nl + body;
    assert text[|nl|..] == body && nl <= text;
    assert Without("", Newline, o, end) == "";
  }

  lemma BareSectionGone(o: Opening, marker: string, end: string, hosts: seq<string>, nl: string)
    requires Answers(o, marker) && Marker(end) && AllClean(hosts) && IsNewline(nl)
    ensures Without(Body(marker, end, hosts, nl), FileStart, o, end) == ""
  {
    SectionFound(o, marker, end, hosts, nl, FileStart);
    assert Without("", Newline, o, end) == "";
  }

  /** Taking out what was put in gives the file back byte for byte. */
  lemma TakenOut(t: string, o: Opening, marker: string, end: string, hosts: seq<string>, nl: string)
    requires Ended(t) && !HasStart(t, FileStart, o)
    requires Answers(o, marker) && Marker(end) && AllClean(hosts) && IsNewline(nl)
    ensures Without(WithSection(t, marker, end, hosts, nl), FileStart, o, end) == t
  {
    var body := Body(marker, end, hosts, nl);
    if t == "" {
      assert WithSection(t, marker, end, hosts, nl) == body;
      BareSectionGone(o, marker, end, hosts, nl);
    } else {
      OverText(t, FileStart, nl + body, o, end);
      LedSectionGone(o, marker, end, hosts, nl);
    }
  }

  // --- what starts where ---------------------------------------------------

  // In the section itself only its own first line can open one.
  lemma BodyStarts(o: Opening, marker: string, end: string, hosts: seq<string>, nl: string, prev: Prev)
    requires o.Valid() && Marker(marker) && Marker(end) && AllClean(hosts) && IsNewline(nl) && LineStart(prev)
    requires Apart(o.marker, end)
    ensures HasStart(Body(marker, end, hosts, nl), prev, o) <==> o.At(Body(marker, end, hosts, nl))
  {
    var closing := end + nl;
    var lines := HostLines(hosts, nl) + closing;
    var text := marker + (nl + lines);
    assert text[1..] == marker[1..] + (nl + lines) && text[0] == '#';
    SkipInside(marker[1..], nl + lines, o);
    OverNewline(nl, lines, o, end);
    OverHosts(hosts, nl, closing, o, end);
    ClosingOpensNothing(end, nl, o);
  }

  lemma PrefixOfJoin(p: string, a: string, b: string)
    requires p <= a + b
    ensures p <= a || a <= p
  {
    if |p| <= |a| { assert p == (a + b)[..|p|] == a[..|p|]; } else { assert a == p[..|a|]; }
  }

  lemma ClosingOpensNothing(end: string, nl: string, o: Opening)
    requires o.Valid() && Marker(end) && IsNewline(nl) && Apart(o.marker, end)
    ensures !HasStart(end + nl, Newline, o)
  {
    var text := end + nl;
    if o.marker <= text { PrefixOfJoin(o.marker, end, nl); }
    assert text[1..] == end[1..] + nl && text[0] == '#';
    SkipInside(end[1..], nl, o);
    OverNewline(nl, "", o, end);
    assert nl + "" == nl;
  }

  lemma SectionStarts(t: string, o: Opening, marker: string, end: string, hosts: seq<string>, nl: string)
    requires Ended(t) && !HasStart(t, FileStart, o)
    requires o.Valid() && Marker(marker) && Marker(end) && AllClean(hosts) && IsNewline(nl)
    requires Apart(o.marker, end)
    ensures HasStart(WithSection(t, marker, end, hosts, nl), FileStart, o) <==> o.At(Body(marker, end, hosts, nl))
  {
    var body := Body(marker, end, hosts, nl);
    if t == "" {
      assert WithSection(t, marker, end, hosts, nl) == body;
      BodyStarts(o, marker, end, hosts, nl, FileStart);
    } else {
      HasStartAppend(t, nl + body, FileStart, o);
      BodyStarts(o, marker, end, hosts, nl, Newline);
      OverLead(nl, body, o);
    }
  }

  lemma OverLead(nl: string, body: string, o: Opening)
    requires IsNewline(nl) && o.Valid()
    ensures HasStart(nl + body, Newline, o) <==> HasStart(body, Newline, o)
  {
    var text := nl + body;
    assert !o.At(text);
    if nl == "\r\n" {
      assert text[0] == '\r' && text[1..][0] == '\n' && text[1..][1..] == body;
    } else {
      assert text[0] == '\n' && text[1..] == body;
    }
  }

  /** The remover of one kind leaves a section of the other kind exactly where it is. */
  lemma OtherKindStays(t: string, o: Opening, marker: string, end: string, hosts: seq<string>, nl: string)
    requires Ended(t) && !HasStart(t, FileStart, o)
    requires o.Valid() && Marker(marker) && Marker(end) && AllClean(hosts) && IsNewline(nl)
    requires Apart(o.marker, marker) && Apart(o.marker, end)
    ensures var text := WithSection(t, marker, end, hosts, nl);
            Without(text, FileStart, o, end) == text
  {
    var body := Body(marker, end, hosts, nl);
    if o.marker <= body { PrefixOfJoin(o.marker, marker, nl + (HostLines(hosts, nl) + (end + nl))); }
    SectionStarts(t, o, marker, end, hosts, nl);
    NothingToTakeOut(WithSection(t, marker, end, hosts, nl), FileStart, o, end);
  }
}
