/** The marked section in the hosts file: the automatic writer and remover, the manual toggle, and what
    any sequence of the two leaves of the file. */
module HostsSplice {
  import opened HostsScan

  // --- markers -------------------------------------------------------------

  // Which of the two writers a section belongs to.
  datatype Kind = Auto | Manual

  function Stem(name: string): string { "# === Parental block: " + name }
  function AutoMarker(name: string): string { Stem(name) + " (auto: daily budget) ===" }
  function ManualMarker(name: string): string { Stem(name) + " (manual) ===" }
  function EndMarker(name: string): string { "# === end " + name + " block ===" }

  // Neither text can stand at the head of the other.
  predicate Apart(a: string, b: string) { !(a <= b) && !(b <= a) }

  datatype Markers = Markers(stem: string, auto: string, manual: string, end: string) {
    function Of(kind: Kind): string { if kind.Auto? then auto else manual }
    // Any section of the name, whoever wrote it.
    function Any(): Opening { Opening(stem, true) }
    function Own(kind: Kind): Opening { Opening(Of(kind), false) }

    predicate Valid() {
      && Any().Valid() && Own(Auto).Valid() && Own(Manual).Valid() && Marker(end)
      && Extends(stem, auto) && Extends(stem, manual)
      && Apart(auto, manual) && Apart(stem, end) && Apart(auto, end) && Apart(manual, end)
    }
  }

  // A longer text whose next character closes the word.
  predicate Extends(stem: string, marker: string) {
    stem < marker && !WordChar(marker[|stem|])
  }

  function MarkersOf(name: string): Markers {
    Markers(Stem(name), AutoMarker(name), ManualMarker(name), EndMarker(name))
  }

  // A name that fits on a line and ends in a word character.
  predicate Name(name: string) { name != "" && OneLine(name) && WordChar(name[|name| - 1]) }

  lemma ApartAt(a: string, b: string, i: nat)
    requires i < |a| && i < |b| && a[i] != b[i]
    ensures Apart(a, b)
  {
  }

  lemma OneLineJoin(a: string, b: string)
    requires OneLine(a) && OneLine(b)
    ensures OneLine(a + b)
  {
  }

  lemma StemFits(p: string, name: string)
    requires Name(name) && Marker(p)
    ensures Opening(p + name, true).Valid()
  {
    OneLineJoin(p, name);
    assert (p + name)[|p + name| - 1] == name[|name| - 1];
  }

  lemma MarkerFits(stem: string, suffix: string, end: string)
    requires Marker(stem) && OneLine(suffix) && suffix != "" && !WordChar(suffix[0])
    requires Marker(end) && |stem| > 6 && |end| > 6 && stem[6] != end[6]
    ensures Opening(stem + suffix, false).Valid() && Extends(stem, stem + suffix)
    ensures Apart(stem + suffix, end) && Apart(stem, end)
  {
    OneLineJoin(stem, suffix);
    assert (stem + suffix)[|stem|] == suffix[0] && (stem + suffix)[6] == stem[6];
    ApartAt(stem, end, 6);
    ApartAt(stem + suffix, end, 6);
  }

  lemma EndFits(first: string, name: string, last: string)
    requires Marker(first) && OneLine(name) && OneLine(last)
    ensures Marker(first + name + last)
  {
    OneLineJoin(first, name);
    OneLineJoin(first + name, last);
  }

  lemma MarkersFit(name: string)
    requires Name(name)
    ensures MarkersOf(name).Valid()
  {
    var p, auto, manual, first, last :=
      "# === Parental block: ", " (auto: daily budget) ===", " (manual) ===", "# === end ", " block ===";
    assert p[6] == 'P' && first[6] == 'e' && auto[2] == 'a' && manual[2] == 'm';
    PiecesFit(p, auto, manual, first, last, name);
  }

  // Six characters in, the first marker and the last differ; three into the suffixes, the two kinds do.
  lemma PiecesFit(p: string, auto: string, manual: string, first: string, last: string, name: string)
    requires Name(name) && Marker(p) && Marker(first) && OneLine(last)
    requires |p| > 6 && |first| > 6 && p[6] != first[6]
    requires OneLine(auto) && |auto| > 2 && !WordChar(auto[0])
    requires OneLine(manual) && |manual| > 2 && !WordChar(manual[0]) && auto[2] != manual[2]
    ensures Markers(p + name, p + name + auto, p + name + manual, first + name + last).Valid()
  {
    StemFits(p, name);
    EndFits(first, name, last);
    assert (p + name)[6] == p[6] && (first + name + last)[6] == first[6];
    MarkerFits(p + name, auto, first + name + last);
    MarkerFits(p + name, manual, first + name + last);
    AutoIsNotManual(p + name, auto, manual);
  }

  lemma AutoIsNotManual(stem: string, auto: string, manual: string)
    requires |auto| > 2 && |manual| > 2 && auto[2] != manual[2]
    ensures Apart(stem + auto, stem + manual)
  {
    assert (stem + auto)[|stem| + 2] == auto[2] && (stem + manual)[|stem| + 2] == manual[2];
    ApartAt(stem + auto, stem + manual, |stem| + 2);
  }

  // --- the section's bytes -------------------------------------------------

  const ZERO_ADDRESS := "0.0.0.0 "

  function HostLines(hosts: seq<string>, nl: string): string {
    if hosts == [] then "" else ZERO_ADDRESS + hosts[0] + nl + HostLines(hosts[1..], nl)
  }

  function Body(marker: string, end: string, hosts: seq<string>, nl: string): string {
    marker + (nl + (HostLines(hosts, nl) + (end + nl)))
  }

  function Lead(text: string, nl: string): string { if text == "" then "" else nl }

  function WithSection(text: string, marker: string, end: string, hosts: seq<string>, nl: string): string {
    text + (Lead(text, nl) + Body(marker, end, hosts, nl))
  }

  predicate Ended(text: string) { text == "" || EndsWithNewline(text) }
  function EndLine(text: string, nl: string): string { if Ended(text) then text else text + nl }

  function CountLf(raw: string): nat {
    if raw == "" then 0 else (if raw[0] == '\n' then 1 else 0) + CountLf(raw[1..])
  }
  function CountCrlf(raw: string): nat {
    if raw == "" then 0 else (if "\r\n" <= raw then 1 else 0) + CountCrlf(raw[1..])
  }

  function DetectNewline(raw: string): (nl: string)
    ensures IsNewline(nl)
  {
    var total := CountLf(raw);
    if total == 0 || CountCrlf(raw) * 2 >= total then "\r\n" else "\n"
  }

  // The file with its last line ended the way the file ends most of its lines.
  function Terminated(raw: string): (t: string)
    ensures Ended(t)
  {
    EndLine(raw, DetectNewline(raw))
  }

  lemma {:induction false} HostLinesGrow(hosts: seq<string>, host: string, nl: string)
    ensures HostLines(hosts + [host], nl) == HostLines(hosts, nl) + (ZERO_ADDRESS + host + nl)
  {
    if hosts == [] {
      assert hosts + [host] == [host] && [host][1..] == [];
    } else {
      HostLinesGrow(hosts[1..], host, nl);
      assert (hosts + [host])[1..] == hosts[1..] + [host];
      var head := ZERO_ADDRESS + hosts[0] + nl;
      assert head + (HostLines(hosts[1..], nl) + (ZERO_ADDRESS + host + nl))
          == (head + HostLines(hosts[1..], nl)) + (ZERO_ADDRESS + host + nl);
    }
  }

  // --- the block list ------------------------------------------------------

  function FirstLineLength(raw: string): (n: nat)
    ensures n <= |raw| && OneLine(raw[..n])
    ensures n < |raw| ==> IsNewlineChar(raw[n])
  {
    if raw == "" || IsNewlineChar(raw[0]) then 0
    else
      var n := 1 + FirstLineLength(raw[1..]);
      assert raw[..n] == [raw[0]] + raw[1..][..n - 1];
      n
  }

  // Where the next line begins, after a line that ends at `n`.
  function Behind(raw: string, n: nat): (k: nat)
    requires n < |raw|
    ensures n < k <= |raw|
  {
    if n + 1 < |raw| && raw[n] == '\r' && raw[n + 1] == '\n' then n + 2 else n + 1
  }

  // The lines of a byte string; "\r", "\n" and "\r\n" all end one.
  function Lines(raw: string): seq<string>
    decreases |raw|
  {
    if raw == "" then []
    else
      var n := FirstLineLength(raw);
      if n == |raw| then [raw] else [raw[..n]] + Lines(raw[Behind(raw, n)..])
  }

  predicate Blank(c: char) {
    c == ' ' || c == '\t' || c == '\n' || c == '\r' || c == '\U{000B}' || c == '\U{000C}'
  }

  function TrimLeft(s: string): string {
    if s != "" && Blank(s[0]) then TrimLeft(s[1..]) else s
  }
  function TrimRight(s: string): string {
    if s != "" && Blank(s[|s| - 1]) then TrimRight(s[..|s| - 1]) else s
  }
  function Trim(s: string): string { TrimRight(TrimLeft(s)) }

  function BeforeHash(s: string): string {
    if s == "" || s[0] == '#' then "" else [s[0]] + BeforeHash(s[1..])
  }

  function HostOf(line: string): string { Trim(BeforeHash(line)) }

  // A host entry as it can be written to a line of its own.
  predicate Clean(host: string) {
    host != "" && OneLine(host) && '#' !in host && !Blank(host[0]) && !Blank(host[|host| - 1])
  }
  predicate AllClean(hosts: seq<string>) { forall h :: h in hosts ==> Clean(h) }

  function HostsIn(lines: seq<string>): seq<string> {
    if lines == [] then []
    else
      var host := HostOf(lines[0]);
      (if host == "" then [] else [host]) + HostsIn(lines[1..])
  }

  function BlockList(raw: string): seq<string> { HostsIn(Lines(raw)) }

  lemma {:induction false} HostsInGrow(lines: seq<string>, line: string)
    ensures HostsIn(lines + [line]) == HostsIn(lines) + (if HostOf(line) == "" then [] else [HostOf(line)])
  {
    if lines == [] {
      assert lines + [line] == [line] && [line][1..] == [];
    } else {
      HostsInGrow(lines[1..], line);
      assert (lines + [line])[1..] == lines[1..] + [line];
    }
  }

  method ParseBlockList(raw: string) returns (hosts: seq<string>)
    ensures hosts == BlockList(raw)
  {
    hosts := [];
    var lines := Lines(raw);
    for i := 0 to |lines|
      invariant hosts == HostsIn(lines[..i])
    {
      var host := HostOf(lines[i]);
      HostsInGrow(lines[..i], lines[i]);
      assert lines[..i + 1] == lines[..i] + [lines[i]];
      if host != "" { hosts := hosts + [host]; }
    }
    assert lines[..|lines|] == lines;
  }

  lemma {:induction false} TrimLeftMeaning(s: string)
    ensures var t := TrimLeft(s);
            && |t| <= |s| && t == s[|s| - |t|..] && (t != "" ==> !Blank(t[0]))
  {
    if s != "" && Blank(s[0]) { TrimLeftMeaning(s[1..]); }
  }

  lemma {:induction false} TrimRightMeaning(s: string)
    ensures var t := TrimRight(s);
            && |t| <= |s| && t == s[..|t|] && (t != "" ==> !Blank(t[|t| - 1]))
    decreases |s|
  {
    if s != "" && Blank(s[|s| - 1]) {
      TrimRightMeaning(s[..|s| - 1]);
      assert TrimRight(s) == s[..|s| - 1][..|TrimRight(s)|];
    }
  }

  lemma {:induction false} BeforeHashMeaning(s: string)
    ensures var t := BeforeHash(s);
            && |t| <= |s| && t == s[..|t|] && '#' !in t && (|t| < |s| ==> s[|t|] == '#')
  {
    if s != "" && s[0] != '#' {
      BeforeHashMeaning(s[1..]);
      var t := BeforeHash(s[1..]);
      assert s[..|t| + 1] == [s[0]] + s[1..][..|t|];
    }
  }

  // What a slice of a text inherits from it.
  lemma SliceKeeps(s: string, lo: nat, hi: nat)
    requires lo <= hi <= |s| && OneLine(s) && '#' !in s
    ensures OneLine(s[lo..hi]) && '#' !in s[lo..hi]
  {
    assert forall i :: 0 <= i < hi - lo ==> s[lo..hi][i] == s[lo + i];
  }

  lemma TrimIsClean(cut: string)
    requires OneLine(cut) && '#' !in cut
    ensures Trim(cut) == "" || Clean(Trim(cut))
  {
    var left := TrimLeft(cut);
    TrimLeftMeaning(cut);
    TrimRightMeaning(left);
    SliceKeeps(cut, |cut| - |left|, |cut|);
    SliceKeeps(left, 0, |TrimRight(left)|);
  }

  lemma HostIsClean(line: string)
    requires OneLine(line)
    ensures HostOf(line) == "" || Clean(HostOf(line))
  {
    var cut := BeforeHash(line);
    BeforeHashMeaning(line);
    assert OneLine(line[..|cut|]);
    TrimIsClean(cut);
  }

  lemma {:induction false} LinesAreSingle(raw: string)
    ensures forall line :: line in Lines(raw) ==> OneLine(line)
    decreases |raw|
  {
    if raw != "" {
      var n := FirstLineLength(raw);
      assert raw[..|raw|] == raw;
      if n < |raw| { LinesAreSingle(raw[Behind(raw, n)..]); }
    }
  }

  lemma {:induction false} HostsInAreClean(lines: seq<string>)
    requires forall line :: line in lines ==> OneLine(line)
    ensures AllClean(HostsIn(lines))
  {
    if lines != [] {
      HostIsClean(lines[0]);
      HostsInAreClean(lines[1..]);
    }
  }

  /** Every entry of a parsed list is one non-empty line without blanks around it and without a comment. */
  lemma BlockListIsClean(raw: string)
    ensures AllClean(BlockList(raw))
  {
    LinesAreSingle(raw);
    HostsInAreClean(Lines(raw));
  }
}
