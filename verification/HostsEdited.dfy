/** Sections in a file that others have edited: with text behind them, without a blank line before them, with
    something after the end marker, or of another name. */
module HostsEdited {
  import opened Wrappers
  import opened HostsScan
  import opened HostsSplice
  import opened HostsRuns

  // --- the end of the section ----------------------------------------------

  /** Behind the end marker the section takes the rest of its line with the line end, and nothing more; a bare
      carriage return ends no line, and stays. */
  lemma {:induction false} DropTailMeaning(tail: string, rest: string)
    requires OneLine(tail) && (rest == "" || IsNewlineChar(rest[0]))
    ensures DropTail(tail + rest)
         == if "\n" <= rest then (rest[1..], Newline)
            else if "\r\n" <= rest then (rest[2..], Newline)
            else (rest, Inside)
  {
    if tail == "" {
      assert tail + rest == rest;
    } else {
      assert (tail + rest)[1..] == tail[1..] + rest;
      DropTailMeaning(tail[1..], rest);
    }
  }

  // The section with something behind the end marker, and more lines.
  function BodyWith(marker: string, end: string, hosts: seq<string>, nl: string, tail: string, after: string): string {
    marker + (nl + (HostLines(hosts, nl) + (end + (tail + (nl + after)))))
  }

  lemma ClosesBefore(stem: string, end: string, hosts: seq<string>, nl: string, tail: string, after: string, o: Opening)
    requires OneLine(stem) && OneLine(tail) && AllClean(hosts) && IsNewline(nl) && o.Valid() && Marker(end)
    ensures AfterEnd(stem + (nl + (HostLines(hosts, nl) + (end + (tail + (nl + after))))), Inside, end)
         == Some((after, Newline))
  {
    var closing := end + (tail + (nl + after));
    var lines := HostLines(hosts, nl) + closing;
    SkipToEnd(stem, nl + lines, end);
    OverNewline(nl, lines, o, end);
    OverHosts(hosts, nl, closing, o, end);
    assert end <= closing && closing[|end|..] == tail + (nl + after);
    DropTailMeaning(tail, nl + after);
    assert (nl + after)[|nl|..] == after;
  }

  lemma SectionFoundBefore(
      o: Opening, marker: string, end: string, hosts: seq<string>, nl: string, tail: string, after: string)
    requires Answers(o, marker) && Marker(end) && OneLine(tail) && AllClean(hosts) && IsNewline(nl)
    ensures var text := BodyWith(marker, end, hosts, nl, tail, after);
            && o.At(text) && MatchHere(text, Newline, o, end) == Some((after, Newline))
            && MatchHere(text, FileStart, o, end) == Some((after, Newline))
  {
    var rest := nl + (HostLines(hosts, nl) + (end + (tail + (nl + after))));
    var text, stem := marker + rest, marker[|o.marker|..];
    assert text[|o.marker|..] == stem + rest && text[..|o.marker|] == marker[..|o.marker|];
    assert OneLine(stem) && text[0] == '#';
    ClosesBefore(stem, end, hosts, nl, tail, after, o);
  }

  // --- the text before it --------------------------------------------------

  // The text ends in a blank line.
  predicate BlankEnd(text: string, prev: Prev) {
    (prev.Newline? && (text == "\n" || text == "\r\n")) || (text != "" && BlankEnd(text[1..], PrevOf(text[0])))
  }

  lemma NoMatchInside(t: string, prev: Prev, body: string, o: Opening, end: string)
    requires o.Valid() && EndsWithNewline(t) && !HasStart(t, prev, o) && !BlankEnd(t, prev)
    ensures MatchHere(t + body, prev, o, end).None?
  {
    var text := t + body;
    MarkerStaysInside(t, body, o);
    assert text[0] == t[0] && (|t| > 1 ==> text[1] == t[1]);
    if |t| > 1 && "\r\n" <= text {
      assert text[2..] == t[2..] + body && t[0] == '\r' && t[1] == '\n';
      assert t[1..][1..] == t[2..] && !HasStart(t[2..], Newline, o);
      if |t| > 2 { MarkerStaysInside(t[2..], body, o); } else { assert t == "\r\n"; }
    } else if |t| > 1 && "\n" <= text {
      assert text[1..] == t[1..] + body && t[0] == '\n';
      assert !HasStart(t[1..], Newline, o);
      MarkerStaysInside(t[1..], body, o);
    } else if |t| == 1 {
      assert t == "\n" && !("\r\n" <= text);
    }
  }

  lemma {:induction false} OverWholeText(t: string, prev: Prev, body: string, o: Opening, end: string)
    requires o.Valid() && EndsWithNewline(t) && !HasStart(t, prev, o) && !BlankEnd(t, prev)
    ensures Without(t + body, prev, o, end) == t + Without(body, Newline, o, end)
    decreases |t|
  {
    NoMatchInside(t, prev, body, o, end);
    assert t == [t[0]] + t[1..] && t + body == [t[0]] + (t[1..] + body);
    OverChar(t[0], t[1..] + body, prev, o, end);
    if |t| == 1 {
      assert t[1..] + body == body;
    } else {
      OverWholeText(t[1..], PrevOf(t[0]), body, o, end);
      Rejoin(t[0], t[1..], Without(body, Newline, o, end));
    }
  }

  // --- taking it out -------------------------------------------------------

  lemma GoneFrom(prev: Prev, o: Opening, marker: string, end: string, hosts: seq<string>, nl: string, tail: string,
                 after: string)
    requires Answers(o, marker) && Marker(end) && OneLine(tail) && AllClean(hosts) && IsNewline(nl)
    requires LineStart(prev) && !HasStart(after, Newline, o)
    ensures Without(BodyWith(marker, end, hosts, nl, tail, after), prev, o, end) == after
  {
    SectionFoundBefore(o, marker, end, hosts, nl, tail, after);
    NothingToTakeOut(after, Newline, o, end);
  }

  /** A section a hand has put right behind a line goes, and every other byte of the file stays: the line before
      it keeps its line end, and the lines behind it are as they were. */
  lemma HandMadeSectionGone(
      t: string, o: Opening, marker: string, end: string, hosts: seq<string>, nl: string, tail: string, after: string)
    requires Ended(t) && !HasStart(t, FileStart, o) && !BlankEnd(t, FileStart) && !HasStart(after, Newline, o)
    requires Answers(o, marker) && Marker(end) && OneLine(tail) && AllClean(hosts) && IsNewline(nl)
    ensures Without(t + BodyWith(marker, end, hosts, nl, tail, after), FileStart, o, end) == t + after
  {
    var body := BodyWith(marker, end, hosts, nl, tail, after);
    if t == "" {
      assert t + body == body && t + after == after;
      GoneFrom(FileStart, o, marker, end, hosts, nl, tail, after);
    } else {
      OverWholeText(t, FileStart, body, o, end);
      GoneFrom(Newline, o, marker, end, hosts, nl, tail, after);
    }
  }

  /** One with an empty line before it goes together with that line, and again nothing else does. */
  lemma SectionGoneFromTheMiddle(
      t: string, o: Opening, marker: string, end: string, hosts: seq<string>, nl: string, tail: string, after: string)
    requires EndsWithNewline(t) && !HasStart(t, FileStart, o) && !HasStart(after, Newline, o)
    requires Answers(o, marker) && Marker(end) && OneLine(tail) && AllClean(hosts) && IsNewline(nl)
    ensures Without(t + (nl + BodyWith(marker, end, hosts, nl, tail, after)), FileStart, o, end) == t + after
  {
    var body := BodyWith(marker, end, hosts, nl, tail, after);
    OverText(t, FileStart, nl + body, o, end);
    LedGone(o, marker, end, hosts, nl, tail, after);
  }

  lemma LedGone(o: Opening, marker: string, end: string, hosts: seq<string>, nl: string, tail: string, after: string)
    requires Answers(o, marker) && Marker(end) && OneLine(tail) && AllClean(hosts) && IsNewline(nl)
    requires !HasStart(after, Newline, o)
    ensures Without(nl + BodyWith(marker, end, hosts, nl, tail, after), Newline, o, end) == after
  {
    var body := BodyWith(marker, end, hosts, nl, tail, after);
    var text := nl + body;
    SectionFoundBefore(o, marker, end, hosts, nl, tail, after);
    assert text[|nl|..] == body && nl <= text && body[0] == '#';
    SameSection(body, o, end);
    assert MatchHere(text, Newline, o, end) == Some((after, Newline));
    NothingToTakeOut(after, Newline, o, end);
  }

  lemma SameSection(body: string, o: Opening, end: string)
    requires o.Valid() && body != "" && body[0] == '#'
    ensures MatchHere(body, Newline, o, end) == Section(body, Newline, o, end)
  {
  }

  // --- other names ---------------------------------------------------------

  /** A section of a longer name, one letter, digit or underscore further, is not one of this name. */
  lemma LongerNamesAreOthers(name: string, c: char, more: string)
    requires 'a' <= c <= 'z' || 'A' <= c <= 'Z' || '0' <= c <= '9' || c == '_'
    ensures !MarkersOf(name).Any().At(Stem(name + [c] + more))
  {
    var text := Stem(name + [c] + more);
    assert text == Stem(name) + ([c] + more);
    assert text[|Stem(name)|] == c;
  }
}
