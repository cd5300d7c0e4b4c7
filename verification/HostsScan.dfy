/** The marked-section patterns of the hosts file as explicit byte scans with leftmost match.
    A file is a string of one character a byte. */
module HostsScan {
  import opened Wrappers

  // What stands before the point a scan has reached.
  datatype Prev = FileStart | Newline | Inside

  predicate LineStart(p: Prev) { p != Inside }
  function PrevOf(c: char): Prev { if c == '\n' then Newline else Inside }

  predicate IsNewlineChar(c: char) { c == '\r' || c == '\n' }
  predicate OneLine(s: string) { forall i :: 0 <= i < |s| ==> !IsNewlineChar(s[i]) }
  predicate IsNewline(nl: string) { nl == "\n" || nl == "\r\n" }

  // A marker line: it opens with '#' and stays on one line.
  predicate Marker(s: string) { s != "" && s[0] == '#' && OneLine(s) }

  predicate WordChar(c: char) {
    'a' <= c <= 'z' || 'A' <= c <= 'Z' || '0' <= c <= '9' || c == '_'
  }

  // What a section opens with: a marker, which may have to end at a word boundary.
  datatype Opening = Opening(marker: string, whole: bool) {
    predicate Valid() { Marker(marker) && (whole ==> WordChar(marker[|marker| - 1])) }

    predicate At(text: string) {
      marker <= text && (whole ==> |text| == |marker| || !WordChar(text[|marker|]))
    }
  }

  predicate EndsWithNewline(s: string) { s != "" && s[|s| - 1] == '\n' }

  // The rest of a text after a match, and what then stands before it.
  type Rest = (string, Prev)

  // --- the pattern ---------------------------------------------------------

  // [^\r\n]* and then at most one line end.
  function DropTail(text: string): Rest {
    if text == "" then ("", Inside)
    else if text[0] == '\n' then (text[1..], Newline)
    else if text[0] == '\r' then
      if |text| > 1 && text[1] == '\n' then (text[2..], Newline) else (text, Inside)
    else DropTail(text[1..])
  }

  lemma {:induction false} DropTailShrinks(text: string)
    ensures |DropTail(text).0| <= |text|
  {
    if text != "" { DropTailShrinks(text[1..]); }
  }

  /** From here to the end of the first line that starts with the end marker. */
  function AfterEnd(text: string, prev: Prev, end: string): (r: Option<Rest>)
    ensures r.Some? ==> |r.value.0| <= |text|
  {
    if LineStart(prev) && end <= text then DropTailShrinks(text[|end|..]); Some(DropTail(text[|end|..]))
    else if text == "" then None
    else AfterEnd(text[1..], PrevOf(text[0]), end)
  }

  // The section itself: a line that starts with the start marker, up to the end marker.
  function Section(text: string, prev: Prev, start: Opening, end: string): (r: Option<Rest>)
    requires start.Valid()
    ensures r.Some? ==> |r.value.0| < |text|
  {
    if LineStart(prev) && start.At(text) then AfterEnd(text[|start.marker|..], Inside, end) else None
  }

  // A section here, with the blank line before it if there is one.
  function MatchHere(text: string, prev: Prev, start: Opening, end: string): (r: Option<Rest>)
    requires start.Valid()
    ensures r.Some? ==> |r.value.0| < |text|
  {
    var led := if prev.Newline? && "\r\n" <= text then Section(text[2..], Newline, start, end)
               else if prev.Newline? && "\n" <= text then Section(text[1..], Newline, start, end)
               else None;
    if led.Some? then led else Section(text, prev, start, end)
  }

  /** Every leftmost section taken out. */
  function Without(text: string, prev: Prev, start: Opening, end: string): string
    requires start.Valid()
    decreases |text|
  {
    match MatchHere(text, prev, start, end)
    case Some(rest) => Without(rest.0, rest.1, start, end)
    case None => if text == "" then "" else [text[0]] + Without(text[1..], PrevOf(text[0]), start, end)
  }

  /** Some line of the text starts with the marker. */
  predicate HasStart(text: string, prev: Prev, start: Opening) {
    (LineStart(prev) && start.At(text)) || (text != "" && HasStart(text[1..], PrevOf(text[0]), start))
  }

  // --- a text without the marker -------------------------------------------

  lemma NoStartNoMatch(text: string, prev: Prev, start: Opening, end: string)
    requires start.Valid() && !HasStart(text, prev, start)
    ensures MatchHere(text, prev, start, end).None?
  {
    if "\r\n" <= text {
      assert text[0] == '\r' && text[1] == '\n' && text[1..][1..] == text[2..];
      assert !HasStart(text[1..], Inside, start) && !HasStart(text[2..], Newline, start);
    } else if "\n" <= text {
      assert text[0] == '\n' && !HasStart(text[1..], Newline, start);
    }
  }

  lemma {:induction false} NothingToTakeOut(text: string, prev: Prev, start: Opening, end: string)
    requires start.Valid() && !HasStart(text, prev, start)
    ensures Without(text, prev, start, end) == text
    decreases |text|
  {
    NoStartNoMatch(text, prev, start, end);
    if text != "" {
      NothingToTakeOut(text[1..], PrevOf(text[0]), start, end);
      assert text == [text[0]] + text[1..];
    }
  }

  // --- a text that ends its last line, and something after it --------------

  lemma MarkerStaysInside(a: string, b: string, start: Opening)
    requires start.Valid() && EndsWithNewline(a)
    ensures start.At(a + b) <==> start.At(a)
  {
    var m := start.marker;
    if m <= a + b && |m| >= |a| {
      assert (a + b)[|a| - 1] == '\n' && m[|a| - 1] == (a + b)[|a| - 1];
      assert IsNewlineChar(m[|a| - 1]);
    }
    if m <= a { assert m[|m| - 1] == a[|m| - 1] && (a + b)[..|m|] == a[..|m|]; }
    if m <= a + b && |m| < |a| { assert (a + b)[..|m|] == a[..|m|]; }
  }

  lemma {:induction false} HasStartAppend(a: string, b: string, prev: Prev, start: Opening)
    requires start.Valid() && EndsWithNewline(a)
    ensures HasStart(a + b, prev, start) <==> HasStart(a, prev, start) || HasStart(b, Newline, start)
    decreases |a|
  {
    MarkerStaysInside(a, b, start);
    assert (a + b)[0] == a[0] && (a + b)[1..] == a[1..] + b;
    if |a| == 1 {
      assert a[1..] + b == b && a[1..] == "";
      assert !start.At("");
    } else {
      assert EndsWithNewline(a[1..]);
      HasStartAppend(a[1..], b, PrevOf(a[0]), start);
    }
  }

  lemma {:induction false} SkipInside(s: string, rest: string, start: Opening)
    requires OneLine(s)
    ensures HasStart(s + rest, Inside, start) <==> HasStart(rest, Inside, start)
    decreases |s|
  {
    if s == "" {
      assert s + rest == rest;
    } else {
      assert (s + rest)[0] == s[0] && (s + rest)[1..] == s[1..] + rest;
      SkipInside(s[1..], rest, start);
    }
  }

  lemma {:induction false} SkipToEnd(s: string, rest: string, end: string)
    requires OneLine(s)
    ensures AfterEnd(s + rest, Inside, end) == AfterEnd(rest, Inside, end)
    decreases |s|
  {
    if s == "" {
      assert s + rest == rest;
    } else {
      assert (s + rest)[0] == s[0] && (s + rest)[1..] == s[1..] + rest;
      SkipToEnd(s[1..], rest, end);
    }
  }

  // A line end brings either scan to a line start.
  lemma OverNewline(nl: string, rest: string, start: Opening, end: string)
    requires IsNewline(nl)
    ensures AfterEnd(nl + rest, Inside, end) == AfterEnd(rest, Newline, end)
    ensures HasStart(nl + rest, Inside, start) <==> HasStart(rest, Newline, start)
  {
    var text := nl + rest;
    if nl == "\r\n" {
      assert text[0] == '\r' && text[1..][0] == '\n' && text[1..][1..] == rest;
    } else {
      assert text[0] == '\n' && text[1..] == rest;
    }
  }
}
