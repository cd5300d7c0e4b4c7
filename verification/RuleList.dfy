/** SafeHouse's own lines in AdGuard's list of user rules: adding the missing ones and
    removing exactly its own, around every line somebody else wrote. */
module RuleList {
  type Line = string

  // The characters Python's str.strip takes off both ends.
  predicate IsSpace(c: char) {
    var n := c as int;
    9 <= n <= 13 || 28 <= n <= 32 || n == 0x85 || n == 0xA0 || n == 0x1680 || 0x2000 <= n <= 0x200A
    || n == 0x2028 || n == 0x2029 || n == 0x202F || n == 0x205F || n == 0x3000
  }

  function Strip(s: string): string
    decreases |s|
  {
    if s == [] then s
    else if IsSpace(s[0]) then Strip(s[1..])
    else if IsSpace(s[|s| - 1]) then Strip(s[..|s| - 1])
    else s
  }

  /** The lines one lane owns in the list. */
  datatype Own = Own(comments: seq<Line>, rules: seq<Line>) {
    function Lines(): seq<Line> { comments + rules }
  }

  // Not blank, no outer blanks, not an allow rule.
  predicate Clean(x: Line) { x != "" && !IsSpace(x[0]) && !IsSpace(x[|x| - 1]) && x[0] != '@' }

  predicate WellChosen(own: Own) { own.rules != [] && forall x :: x in own.Lines() ==> Clean(x) }

  const HEADLINE := "! SafeHouse: YouTube blocked (control panel)"
  const REASON :=
    "! Blocked at the resolver because it is the "
    + "only lane that also covers the Play Games VM, a phone, a tablet and a TV. "
    + "This takes YouTube Music with it."

  const YOUTUBE := Own(
    [HEADLINE, REASON],
    ["||youtube.com^", "||youtu.be^", "||youtubekids.com^", "||youtube-nocookie.com^",
     "||googlevideo.com^", "||ytimg.com^", "||youtubei.googleapis.com^", "||youtube.googleapis.com^"])

  predicate IsBlank(l: Line) { Strip(l) == "" }
  predicate IsOurs(own: Own, l: Line) { Strip(l) in own.Lines() }
  predicate Present(rules: seq<Line>, x: Line) { exists i :: 0 <= i < |rules| && Strip(rules[i]) == x }

  lemma YoutubeIsWellChosen()
    ensures WellChosen(YOUTUBE)
  {
    CommentsAreClean();
    forall x | x in YOUTUBE.Lines() ensures Clean(x) {
      if x !in YOUTUBE.comments {
        assert x[0] == '|' && x[|x| - 1] == '^';
      }
    }
  }

  lemma CommentsAreClean()
    ensures Clean(HEADLINE) && Clean(REASON)
  {
    assert HEADLINE[0] == '!' && HEADLINE[|HEADLINE| - 1] == ')';
    JoinIsClean("! Blocked at the resolver because it is the ",
                "only lane that also covers the Play Games VM, a phone, a tablet and a TV. ",
                "This takes YouTube Music with it.");
  }

  lemma JoinIsClean(a: string, b: string, c: string)
    requires a != "" && a[0] == '!' && c != "" && c[|c| - 1] == '.'
    ensures Clean(a + b + c)
  {
    var line := a + b + c;
    assert line[0] == a[0] && line[|line| - 1] == c[|c| - 1];
  }

  lemma OwnLines(own: Own, x: Line)
    requires WellChosen(own) && x in own.Lines()
    ensures Strip(x) == x && x != "" && !("@@" <= x)
  {
    assert Clean(x);
  }

  // --- reading the state ---------------------------------------------------

  datatype RuleState = Blocked | Allowed | Partial | Unknown

  function Hits(wanted: seq<Line>, rules: seq<Line>): nat {
    if wanted == [] then 0
    else (if Present(rules, wanted[0]) then 1 else 0) + Hits(wanted[1..], rules)
  }

  function StateOf(own: Own, rules: seq<Line>): RuleState {
    var hits := Hits(own.rules, rules);
    if hits == |own.rules| then Blocked else if hits == 0 then Allowed else Partial
  }

  lemma {:induction false} HitsMeaning(wanted: seq<Line>, rules: seq<Line>)
    ensures Hits(wanted, rules) <= |wanted|
    ensures Hits(wanted, rules) == |wanted| <==> forall x :: x in wanted ==> Present(rules, x)
    ensures Hits(wanted, rules) == 0 <==> forall x :: x in wanted ==> !Present(rules, x)
  {
    if wanted != [] {
      assert wanted == [wanted[0]] + wanted[1..];
      HitsMeaning(wanted[1..], rules);
    }
  }

  /** Blocked means every rule of ours is there, allowed means none is, and partial anything between. */
  lemma StateMeaning(own: Own, rules: seq<Line>)
    requires WellChosen(own)
    ensures StateOf(own, rules) == Blocked <==> forall x :: x in own.rules ==> Present(rules, x)
    ensures StateOf(own, rules) == Allowed <==> forall x :: x in own.rules ==> !Present(rules, x)
    ensures StateOf(own, rules) == Partial
       <==> exists x, y :: x in own.rules && y in own.rules && Present(rules, x) && !Present(rules, y)
  {
    HitsMeaning(own.rules, rules);
    assert own.rules[0] in own.rules;
  }

  // --- adding --------------------------------------------------------------

  function Missing(wanted: seq<Line>, rules: seq<Line>): seq<Line> {
    if wanted == [] then []
    else (if Present(rules, wanted[0]) then [] else [wanted[0]]) + Missing(wanted[1..], rules)
  }

  function AddRules(own: Own, rules: seq<Line>): seq<Line> {
    var missing := Missing(own.Lines(), rules);
    if missing == [] then rules
    else rules + Separator(rules) + missing
  }

  lemma {:induction false} MissingMeaning(wanted: seq<Line>, rules: seq<Line>)
    ensures forall x :: x in Missing(wanted, rules) <==> x in wanted && !Present(rules, x)
  {
    if wanted != [] {
      assert wanted == [wanted[0]] + wanted[1..];
      MissingMeaning(wanted[1..], rules);
    }
  }

  lemma PresentAppend(a: seq<Line>, b: seq<Line>, x: Line)
    ensures Present(a + b, x) <==> Present(a, x) || Present(b, x)
  {
    if i :| 0 <= i < |a| && Strip(a[i]) == x { assert Strip((a + b)[i]) == x; }
    if i :| 0 <= i < |b| && Strip(b[i]) == x { assert Strip((a + b)[|a| + i]) == x; }
  }

  lemma MissingThenPresent(own: Own, rules: seq<Line>, x: Line)
    requires WellChosen(own) && x in own.rules
    ensures Present(rules, x) || Present(Missing(own.Lines(), rules), x)
  {
    MissingMeaning(own.Lines(), rules);
    assert x in own.Lines();
    OwnLines(own, x);
    if !Present(rules, x) {
      var missing := Missing(own.Lines(), rules);
      var i :| 0 <= i < |missing| && missing[i] == x;
      assert Strip(missing[i]) == x;
    }
  }

  function Separator(rules: seq<Line>): seq<Line> {
    if rules != [] && !IsBlank(rules[|rules| - 1]) then [""] else []
  }

  lemma AddBlocks(own: Own, rules: seq<Line>)
    requires WellChosen(own)
    ensures StateOf(own, AddRules(own, rules)) == Blocked
  {
    var missing := Missing(own.Lines(), rules);
    forall x | x in own.rules ensures Present(AddRules(own, rules), x) {
      MissingThenPresent(own, rules, x);
      PresentAppend(rules, Separator(rules), x);
      PresentAppend(rules + Separator(rules), missing, x);
    }
    StateMeaning(own, AddRules(own, rules));
  }

  // --- removing ------------------------------------------------------------

  /** The lines somebody else wrote, in order. */
  function Foreign(own: Own, rules: seq<Line>): (kept: seq<Line>)
    ensures forall l :: l in kept <==> l in rules && !IsOurs(own, l)
  {
    if rules == [] then []
    else (if IsOurs(own, rules[0]) then [] else [rules[0]]) + Foreign(own, rules[1..])
  }

  function TrimEnd(lines: seq<Line>): seq<Line> {
    if lines != [] && IsBlank(lines[|lines| - 1]) then TrimEnd(lines[..|lines| - 1]) else lines
  }

  /** What removing leaves: other people's lines in order, up to trailing blanks. */
  function Kept(own: Own, rules: seq<Line>): seq<Line> { TrimEnd(Foreign(own, rules)) }

  lemma {:induction false} ForeignAppend(own: Own, a: seq<Line>, b: seq<Line>)
    ensures Foreign(own, a + b) == Foreign(own, a) + Foreign(own, b)
  {
    if a == [] {
      assert a + b == b;
    } else {
      assert (a + b)[0] == a[0] && (a + b)[1..] == a[1..] + b;
      ForeignAppend(own, a[1..], b);
    }
  }

  lemma ForeignOne(own: Own, line: Line)
    ensures Foreign(own, [line]) == if IsOurs(own, line) then [] else [line]
  {
    assert [line][1..] == [];
  }

  lemma ForeignGrows(own: Own, rules: seq<Line>, i: nat)
    requires i < |rules|
    ensures Foreign(own, rules[..i + 1])
         == Foreign(own, rules[..i]) + if IsOurs(own, rules[i]) then [] else [rules[i]]
  {
    assert rules[..i + 1] == rules[..i] + [rules[i]];
    ForeignAppend(own, rules[..i], [rules[i]]);
    ForeignOne(own, rules[i]);
  }

  // An allow rule is never one of ours, so the two tests of the loop come to one.
  lemma NotAnAllowRule(own: Own, line: Line)
    requires WellChosen(own)
    ensures "@@" <= Strip(line) || Strip(line) !in own.Lines() <==> !IsOurs(own, line)
  {
    if IsOurs(own, line) { OwnLines(own, Strip(line)); }
  }

  method KeepForeign(own: Own, rules: seq<Line>) returns (kept: seq<Line>)
    requires WellChosen(own)
    ensures kept == Foreign(own, rules)
  {
    kept := [];
    for i := 0 to |rules|
      invariant kept == Foreign(own, rules[..i])
    {
      var stripped := Strip(rules[i]);
      NotAnAllowRule(own, rules[i]);
      ForeignGrows(own, rules, i);
      if "@@" <= stripped || stripped !in own.Lines() {
        kept := kept + [rules[i]];
      }
    }
    assert rules[..|rules|] == rules;
  }

  method DropTrailingBlanks(lines: seq<Line>) returns (kept: seq<Line>)
    ensures kept == TrimEnd(lines)
  {
    kept := lines;
    while kept != [] && IsBlank(kept[|kept| - 1])
      invariant TrimEnd(kept) == TrimEnd(lines)
    {
      kept := kept[..|kept| - 1];
    }
  }

  method RemoveYoutubeRules(own: Own, rules: seq<Line>) returns (kept: seq<Line>)
    requires WellChosen(own)
    ensures kept == Kept(own, rules)
  {
    kept := KeepForeign(own, rules);
    kept := DropTrailingBlanks(kept);
  }

  lemma {:induction false} TrimEndKeepsPrefix(lines: seq<Line>)
    ensures TrimEnd(lines) <= lines
    decreases |lines|
  {
    if lines != [] && IsBlank(lines[|lines| - 1]) {
      TrimEndKeepsPrefix(lines[..|lines| - 1]);
    }
  }

  lemma RemoveAllows(own: Own, rules: seq<Line>)
    requires WellChosen(own)
    ensures StateOf(own, Kept(own, rules)) == Allowed
  {
    TrimEndKeepsPrefix(Foreign(own, rules));
    forall x | x in own.rules ensures !Present(Kept(own, rules), x) {
      assert x in own.Lines();
      forall i | 0 <= i < |Kept(own, rules)| ensures Strip(Kept(own, rules)[i]) != x {
        assert Kept(own, rules)[i] == Foreign(own, rules)[i] && Foreign(own, rules)[i] in Foreign(own, rules);
      }
    }
    StateMeaning(own, Kept(own, rules));
  }

  // --- what nobody may touch -----------------------------------------------

  lemma {:induction false} NothingForeign(own: Own, lines: seq<Line>)
    requires forall l :: l in lines ==> IsOurs(own, l)
    ensures Foreign(own, lines) == []
  {
    if lines != [] {
      assert lines == [lines[0]] + lines[1..];
      NothingForeign(own, lines[1..]);
    }
  }

  lemma {:induction false} AllForeign(own: Own, lines: seq<Line>)
    requires forall l :: l in lines ==> !IsOurs(own, l)
    ensures Foreign(own, lines) == lines
  {
    if lines != [] {
      assert lines == [lines[0]] + lines[1..];
      AllForeign(own, lines[1..]);
    }
  }

  lemma {:induction false} TrimEndTwice(lines: seq<Line>)
    ensures TrimEnd(TrimEnd(lines)) == TrimEnd(lines)
    decreases |lines|
  {
    if lines != [] && IsBlank(lines[|lines| - 1]) {
      TrimEndTwice(lines[..|lines| - 1]);
    }
  }

  lemma MissingIsOurs(own: Own, rules: seq<Line>)
    requires WellChosen(own)
    ensures Foreign(own, Missing(own.Lines(), rules)) == []
  {
    MissingMeaning(own.Lines(), rules);
    forall x | x in Missing(own.Lines(), rules) ensures IsOurs(own, x) { OwnLines(own, x); }
    NothingForeign(own, Missing(own.Lines(), rules));
  }

  lemma TrimSeparator(lines: seq<Line>)
    ensures TrimEnd(lines + [""]) == TrimEnd(lines)
  {
    assert (lines + [""])[..|lines|] == lines;
  }

  lemma AddKeepsForeign(own: Own, rules: seq<Line>)
    requires WellChosen(own)
    ensures Kept(own, AddRules(own, rules)) == Kept(own, rules)
  {
    var missing, sep, f := Missing(own.Lines(), rules), Separator(rules), Foreign(own, rules);
    if missing != [] {
      assert Foreign(own, AddRules(own, rules)) == f + sep by {
        MissingIsOurs(own, rules);
        SeparatorIsForeign(own, rules);
        ForeignAppend(own, rules, sep);
        ForeignAppend(own, rules + sep, missing);
      }
      if sep == [] {
        assert f + sep == f;
      } else {
        TrimSeparator(f);
      }
    }
  }

  lemma SeparatorIsForeign(own: Own, rules: seq<Line>)
    requires WellChosen(own)
    ensures Foreign(own, Separator(rules)) == Separator(rules)
  {
    BlankIsForeign(own);
    AllForeign(own, Separator(rules));
  }

  lemma BlankIsForeign(own: Own)
    requires WellChosen(own)
    ensures !IsOurs(own, "")
  {
    if IsOurs(own, "") { OwnLines(own, ""); }
  }

  lemma RemoveKeepsForeign(own: Own, rules: seq<Line>)
    requires WellChosen(own)
    ensures Kept(own, Kept(own, rules)) == Kept(own, rules)
  {
    TrimEndKeepsPrefix(Foreign(own, rules));
    forall l | l in Kept(own, rules) ensures !IsOurs(own, l) { assert l in Foreign(own, rules); }
    AllForeign(own, Kept(own, rules));
    TrimEndTwice(Foreign(own, rules));
  }

  // --- what exactly is added and taken away --------------------------------

  // The part of a text from `lo` to `hi`, with nothing but spaces outside it.
  predicate IsCore(s: string, lo: nat, hi: nat) {
    && lo <= hi <= |s|
    && (forall i :: 0 <= i < lo ==> IsSpace(s[i])) && (forall i :: hi <= i < |s| ==> IsSpace(s[i]))
  }

  /** Stripping takes the spaces off both ends and nothing else. */
  lemma {:induction false} StripMeaning(s: string) returns (lo: nat, hi: nat)
    ensures IsCore(s, lo, hi) && Strip(s) == s[lo..hi]
    ensures Strip(s) != "" ==> !IsSpace(Strip(s)[0]) && !IsSpace(Strip(s)[|Strip(s)| - 1])
    decreases |s|
  {
    if s != "" && IsSpace(s[0]) {
      lo, hi := StripMeaning(s[1..]);
      WiderAtStart(s, lo, hi);
      lo, hi := lo + 1, hi + 1;
    } else if s != "" && IsSpace(s[|s| - 1]) {
      lo, hi := StripMeaning(s[..|s| - 1]);
      WiderAtEnd(s, lo, hi);
    } else {
      lo, hi := 0, |s|;
    }
  }

  lemma WiderAtStart(s: string, lo: nat, hi: nat)
    requires s != "" && IsSpace(s[0]) && IsCore(s[1..], lo, hi)
    ensures IsCore(s, lo + 1, hi + 1) && s[1..][lo..hi] == s[lo + 1..hi + 1]
  {
    assert forall i :: 0 < i < |s| ==> s[i] == s[1..][i - 1];
  }

  lemma WiderAtEnd(s: string, lo: nat, hi: nat)
    requires s != "" && IsSpace(s[|s| - 1]) && IsCore(s[..|s| - 1], lo, hi)
    ensures IsCore(s, lo, hi) && s[..|s| - 1][lo..hi] == s[lo..hi]
  {
    assert forall i :: 0 <= i < |s| - 1 ==> s[i] == s[..|s| - 1][i];
  }

  predicate AllBlank(lines: seq<Line>) { forall i :: 0 <= i < |lines| ==> IsBlank(lines[i]) }

  lemma {:induction false} TrimEndMeaning(lines: seq<Line>) returns (blanks: seq<Line>)
    ensures lines == TrimEnd(lines) + blanks && AllBlank(blanks)
    decreases |lines|
  {
    blanks := [];
    if lines != [] && IsBlank(lines[|lines| - 1]) {
      blanks := TrimEndMeaning(lines[..|lines| - 1]);
      blanks := blanks + [lines[|lines| - 1]];
      assert lines == lines[..|lines| - 1] + [lines[|lines| - 1]];
    }
  }

  /** Removing loses no line of somebody else but blank ones at the end: the foreign lines, in order, are what it
      keeps and then blanks. */
  lemma OnlyTrailingBlanksGo(own: Own, rules: seq<Line>) returns (blanks: seq<Line>)
    ensures Foreign(own, rules) == Kept(own, rules) + blanks && AllBlank(blanks)
  {
    blanks := TrimEndMeaning(Foreign(own, rules));
  }

  /** Adding leaves the list as it is and appends to it: nothing if all of our lines are there, comments included;
      else one empty line if the last is not blank, and those of our lines that were missing, in their order. */
  lemma AddOnlyAppends(own: Own, rules: seq<Line>) returns (added: seq<Line>)
    requires WellChosen(own)
    ensures AddRules(own, rules)
         == if added == [] then rules
            else rules + (if rules != [] && !IsBlank(rules[|rules| - 1]) then [""] else []) + added
    ensures forall x :: x in added <==> x in own.Lines() && !Present(rules, x)
    ensures forall x :: x in own.Lines() ==> Present(AddRules(own, rules), x)
  {
    added := Missing(own.Lines(), rules);
    MissingMeaning(own.Lines(), rules);
    forall x | x in own.Lines() ensures Present(AddRules(own, rules), x) {
      LineIsPresent(own, rules, added, x);
    }
  }

  lemma LineIsPresent(own: Own, rules: seq<Line>, added: seq<Line>, x: Line)
    requires WellChosen(own) && x in own.Lines() && added == Missing(own.Lines(), rules)
    ensures Present(AddRules(own, rules), x)
  {
    MissingMeaning(own.Lines(), rules);
    OwnLines(own, x);
    PresentAppend(rules, Separator(rules), x);
    PresentAppend(rules + Separator(rules), added, x);
    if !Present(rules, x) {
      var i :| 0 <= i < |added| && added[i] == x;
      assert Strip(added[i]) == x;
    }
  }
}
