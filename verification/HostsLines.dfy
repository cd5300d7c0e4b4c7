/** The section and the block list read line by line: what an entry says, and which hosts a list names. */
module HostsLines {
  import opened HostsScan
  import opened HostsSplice

  // --- the lines of a file -------------------------------------------------

  lemma NoEndBefore(raw: string, n: nat)
    requires n <= |raw| && OneLine(raw[..n])
    ensures forall i :: 0 <= i < n ==> !IsNewlineChar(raw[i])
  {
    assert forall i :: 0 <= i < n ==> raw[..n][i] == raw[i];
  }

  lemma FirstLineIs(raw: string, n: nat)
    requires n < |raw| && OneLine(raw[..n]) && IsNewlineChar(raw[n])
    ensures FirstLineLength(raw) == n
  {
    NoEndBefore(raw, n);
    NoEndBefore(raw, FirstLineLength(raw));
  }

  lemma FirstLine(raw: string, n: nat)
    requires n < |raw| && FirstLineLength(raw) == n
    ensures Lines(raw) == [raw[..n]] + Lines(raw[Behind(raw, n)..])
  {
  }

  lemma LineThen(line: string, nl: string, rest: string)
    requires OneLine(line) && IsNewline(nl)
    ensures Lines(line + (nl + rest)) == [line] + Lines(rest)
  {
    var raw, n := line + (nl + rest), |line|;
    assert raw[..n] == line && raw[n] == nl[0] && (|nl| > 1 ==> raw[n + 1] == nl[1]);
    FirstLineIs(raw, n);
    FirstLine(raw, n);
    assert raw[n + |nl|..] == rest;
  }

  // --- the section ---------------------------------------------------------

  // The lines of the section behind its marker: the zero address before each host, then the end marker.
  function EntriesThen(hosts: seq<string>, end: string): seq<string> {
    if hosts == [] then [end] else ["0.0.0.0 " + hosts[0]] + EntriesThen(hosts[1..], end)
  }

  lemma {:induction false} HostLinesRead(hosts: seq<string>, nl: string, end: string, n: nat)
    requires AllClean(hosts) && OneLine(end) && IsNewline(nl) && n == |hosts|
    ensures Lines(HostLines(hosts, nl) + (end + nl)) == EntriesThen(hosts, end)
    decreases n
  {
    if n == 0 {
      assert HostLines(hosts, nl) + (end + nl) == end + (nl + "");
      LineThen(end, nl, "");
    } else {
      HostLinesRead(hosts[1..], nl, end, n - 1);
      OneEntry(hosts[0], nl, HostLines(hosts[1..], nl), end + nl);
    }
  }

  lemma OneEntry(host: string, nl: string, later: string, rest: string)
    requires Clean(host) && IsNewline(nl)
    ensures Lines((ZERO_ADDRESS + host + nl + later) + rest) == ["0.0.0.0 " + host] + Lines(later + rest)
  {
    var entry := "0.0.0.0 " + host;
    OneLineJoin("0.0.0.0 ", host);
    assert (ZERO_ADDRESS + host + nl + later) + rest == entry + (nl + (later + rest));
    LineThen(entry, nl, later + rest);
  }

  /** What a block appends is, line by line, an empty line unless the file was empty, the opening marker, the
      zero address before each host of the list in order, and the end marker; the file before it is as it was. */
  lemma SectionReadsBack(text: string, marker: string, end: string, hosts: seq<string>, nl: string)
    requires OneLine(marker) && OneLine(end) && AllClean(hosts) && IsNewline(nl)
    ensures var after := WithSection(text, marker, end, hosts, nl);
            && |text| <= |after| && after[..|text|] == text
            && Lines(after[|text|..])
            == if text == "" then [marker] + EntriesThen(hosts, end) else [""] + ([marker] + EntriesThen(hosts, end))
  {
    var body := Body(marker, end, hosts, nl);
    assert WithSection(text, marker, end, hosts, nl)[|text|..] == Lead(text, nl) + body;
    HostLinesRead(hosts, nl, end, |hosts|);
    LineThen(marker, nl, HostLines(hosts, nl) + (end + nl));
    if text == "" {
      assert Lead(text, nl) + body == body;
    } else {
      assert Lead(text, nl) + body == "" + (nl + body);
      LineThen("", nl, body);
    }
  }

  // --- the block list ------------------------------------------------------

  predicate AllBlank(s: string) { forall i :: 0 <= i < |s| ==> Blank(s[i]) }

  lemma {:induction false} TrimLeftDrops(before: string, s: string)
    requires AllBlank(before) && (s == "" || !Blank(s[0]))
    ensures TrimLeft(before + s) == s
  {
    if before == "" {
      assert before + s == s;
    } else {
      assert (before + s)[1..] == before[1..] + s;
      TrimLeftDrops(before[1..], s);
    }
  }

  lemma {:induction false} TrimRightDrops(s: string, after: string)
    requires AllBlank(after) && (s == "" || !Blank(s[|s| - 1]))
    ensures TrimRight(s + after) == s
    decreases |after|
  {
    if after == "" {
      assert s + after == s;
    } else {
      var n := |after| - 1;
      assert (s + after)[|s + after| - 1] == after[n];
      assert (s + after)[..|s + after| - 1] == s + after[..n];
      TrimRightDrops(s, after[..n]);
    }
  }

  lemma {:induction false} BeforeHashDrops(s: string, comment: string)
    requires '#' !in s && (comment == "" || comment[0] == '#')
    ensures BeforeHash(s + comment) == s
  {
    if s == "" {
      assert s + comment == comment;
    } else {
      assert (s + comment)[1..] == s[1..] + comment;
      BeforeHashDrops(s[1..], comment);
    }
  }

  lemma BlanksHaveNoHash(s: string)
    requires AllBlank(s)
    ensures '#' !in s
  {
  }

  /** A host is read from its line whatever blanks stand around it and whatever comment behind it; blanks and a
      comment alone name none. */
  lemma HostIsRead(before: string, host: string, after: string, comment: string)
    requires AllBlank(before) && AllBlank(after) && (comment == "" || comment[0] == '#')
    requires host == "" || Clean(host)
    ensures HostOf(before + host + after + comment) == host
  {
    BlanksHaveNoHash(before);
    BlanksHaveNoHash(after);
    BeforeHashDrops(before + host + after, comment);
    if host == "" {
      assert before + host + after == (before + after) + "";
      TrimLeftDrops(before + after, "");
    } else {
      assert before + host + after == before + (host + after);
      TrimLeftDrops(before, host + after);
      TrimRightDrops(host, after);
    }
  }

  // A line that names this host, or none if it is empty.
  datatype Written = Written(before: string, host: string, after: string, comment: string) {
    predicate Valid() {
      && AllBlank(before) && AllBlank(after) && (comment == "" || comment[0] == '#')
      && (host == "" || Clean(host)) && OneLine(Text())
    }
    function Text(): string { before + host + after + comment }
  }

  function Listed(lines: seq<Written>, nl: string): string {
    if lines == [] then "" else lines[0].Text() + (nl + Listed(lines[1..], nl))
  }

  function Named(lines: seq<Written>): seq<string> {
    if lines == [] then [] else (if lines[0].host == "" then [] else [lines[0].host]) + Named(lines[1..])
  }

  /** So a list gives exactly the hosts written in it, in their order, repetitions included. */
  lemma {:induction false} ListIsRead(lines: seq<Written>, nl: string)
    requires (forall i :: 0 <= i < |lines| ==> lines[i].Valid()) && IsNewline(nl)
    ensures BlockList(Listed(lines, nl)) == Named(lines)
  {
    if lines != [] {
      var line := lines[0];
      LineThen(line.Text(), nl, Listed(lines[1..], nl));
      HostIsRead(line.before, line.host, line.after, line.comment);
      ListIsRead(lines[1..], nl);
    }
  }
}
