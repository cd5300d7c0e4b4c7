/** What one update of the pin set conserves, ranks and forgets. */
module PinRanking {
  import opened Wrappers
  import opened Pins

  lemma {:induction false} WhereSplits(d: seq<Pin>, look: Look)
    ensures multiset(Where(d, look, true)) + multiset(Where(d, look, false)) == multiset(d)
  {
    if d != [] {
      WhereSplits(d[1..], look);
      assert d == [d[0]] + d[1..];
      var idle := Idle(d[0], look);
      assert Where(d, look, idle) == [d[0]] + Where(d[1..], look, idle);
      assert Where(d, look, !idle) == Where(d[1..], look, !idle);
    }
  }

  lemma FirstRestSplit(s: seq<Pin>, n: nat)
    ensures multiset(First(s, n)) + multiset(Rest(s, n)) == multiset(s)
  {
    if |s| > n {
      assert s == s[..n] + s[n..];
    }
  }

  lemma RankedMeaning(pins: seq<Pin>, look: Look, norm: Normaliser)
    ensures Sorted(RanksBefore, Ranked(pins, look, norm))
    ensures multiset(Ranked(pins, look, norm)) == multiset(Live(pins, look, norm))
  {
    PinOrders();
    SortMeaning(RanksBefore, Live(pins, look, norm));
  }

  lemma KeptMeaning(pins: seq<Pin>, look: Look, norm: Normaliser)
    ensures Sorted(IpBefore, Kept(pins, look, norm))
    ensures multiset(Kept(pins, look, norm)) == multiset(First(Ranked(pins, look, norm), MAX_PINS))
  {
    PinOrders();
    SortMeaning(IpBefore, First(Ranked(pins, look, norm), MAX_PINS));
  }

  /** Nothing is lost and nothing invented: the kept and the evicted pins are together
      exactly the refreshed set. */
  lemma {:induction false} KeptAndEvictedPartition(pins: seq<Pin>, look: Look, norm: Normaliser)
    ensures multiset(Kept(pins, look, norm)) + multiset(Evicted(pins, look, norm))
         == multiset(Refreshed(pins, look, norm))
  {
    var ranked := Ranked(pins, look, norm);
    KeptMeaning(pins, look, norm);
    RankedMeaning(pins, look, norm);
    FirstRestSplit(ranked, MAX_PINS);
    WhereSplits(Refreshed(pins, look, norm), look);
  }

  lemma {:induction false} AddressesAreSingle(d: seq<Pin>, ip: Ip)
    requires Unique(d)
    ensures forall p, q :: p in d && q in d && p.ip == q.ip ==> p == q
    ensures forall p :: p in d ==> multiset(d)[p] == 1
  {
    if d != [] {
      AddressesAreSingle(d[1..], ip);
      assert d == [d[0]] + d[1..];
      forall p | p in d[1..] ensures p.ip != d[0].ip {
        var i :| 0 <= i < |d[1..]| && d[1..][i] == p;
        assert d[i + 1] == p;
      }
    }
  }

  lemma {:induction false} PartIsUnique(part: seq<Pin>, d: seq<Pin>)
    requires Unique(d) && multiset(part) <= multiset(d)
    ensures Unique(part)
  {
    forall i, j | 0 <= i < j < |part| ensures part[i].ip != part[j].ip {
      var p, q := part[i], part[j];
      assert p in multiset(part) && q in multiset(part) && p in multiset(d) && q in multiset(d);
      AddressesAreSingle(d, p.ip);
      if p.ip == q.ip {
        TwiceInside(part, i, j);
      }
    }
  }

  lemma TwiceInside(s: seq<Pin>, i: int, j: int)
    requires 0 <= i < j < |s| && s[i] == s[j]
    ensures multiset(s)[s[i]] >= 2
  {
    assert s == s[..j] + [s[j]] + s[j + 1..];
    assert s[i] in s[..j];
  }

  /** At most 32 pins are kept, with different addresses in address order, and none is also
      evicted. */
  lemma KeptIsCappedAndSorted(pins: seq<Pin>, look: Look, norm: Normaliser)
    ensures |Kept(pins, look, norm)| <= 32
    ensures Sorted(IpBefore, Kept(pins, look, norm)) && Unique(Kept(pins, look, norm))
    ensures forall k, e :: k in Kept(pins, look, norm) && e in Evicted(pins, look, norm) ==> k.ip != e.ip
  {
    var kept, evicted, all := Kept(pins, look, norm), Evicted(pins, look, norm), Refreshed(pins, look, norm);
    KeptMeaning(pins, look, norm);
    assert |multiset(kept)| == |kept|;
    KeptAndEvictedPartition(pins, look, norm);
    RefreshedMeaning(pins, look, norm, "");
    PartsAreApart(kept, evicted, all);
  }

  lemma PartsAreApart(a: seq<Pin>, b: seq<Pin>, d: seq<Pin>)
    requires Unique(d) && multiset(a) + multiset(b) == multiset(d)
    ensures Unique(a) && forall k, e :: k in a && e in b ==> k.ip != e.ip
  {
    assert multiset(a + b) == multiset(d);
    PartIsUnique(a + b, d);
    PartIsUnique(a, d);
    forall k, e | k in a && e in b ensures k.ip != e.ip {
      var i :| 0 <= i < |a| && a[i] == k;
      var j :| 0 <= j < |b| && b[j] == e;
      assert (a + b)[i] == k && (a + b)[|a| + j] == e;
    }
  }

  /** An eviction is either idleness or rank: whatever the cap evicts ranks behind everything
      kept, and only a full set evicts by rank. */
  lemma CapEvictsTheLowestRanked(pins: seq<Pin>, look: Look, norm: Normaliser, e: Pin)
    requires e in Evicted(pins, look, norm) && !Idle(e, look)
    ensures |Kept(pins, look, norm)| == 32
    ensures forall k :: k in Kept(pins, look, norm) ==> RanksBefore(k, e) && !Idle(k, look)
  {
    var ranked := Ranked(pins, look, norm);
    RankedMeaning(pins, look, norm);
    KeptMeaning(pins, look, norm);
    assert e in Rest(ranked, MAX_PINS);
    assert |multiset(Kept(pins, look, norm))| == |Kept(pins, look, norm)|;
    forall k | k in Kept(pins, look, norm) ensures RanksBefore(k, e) && !Idle(k, look) {
      assert k in multiset(First(ranked, MAX_PINS));
      RestRanksBehind(ranked, MAX_PINS, k, e);
      assert k in multiset(ranked) && k in multiset(Live(pins, look, norm));
    }
  }

  lemma RestRanksBehind(s: seq<Pin>, n: nat, k: Pin, e: Pin)
    requires Sorted(RanksBefore, s) && k in First(s, n) && e in Rest(s, n)
    ensures k in s && RanksBefore(k, e)
  {
    var i :| 0 <= i < |First(s, n)| && First(s, n)[i] == k;
    var j :| 0 <= j < |Rest(s, n)| && Rest(s, n)[j] == e;
    assert s[i] == k && s[n + j] == e;
  }

  ghost function PinSet(s: seq<Pin>): set<Pin> { set p | p in s }

  lemma {:induction false} UniqueCount(s: seq<Pin>)
    requires Unique(s)
    ensures |PinSet(s)| == |s|
  {
    if s != [] {
      UniqueCount(s[1..]);
      assert s == [s[0]] + s[1..];
      forall p | p in s[1..] ensures p != s[0] {
        var i :| 0 <= i < |s[1..]| && s[1..][i] == p;
        assert s[i + 1] == p;
      }
      assert PinSet(s) == {s[0]} + PinSet(s[1..]);
    }
  }

  lemma SmallerSet(a: set<Pin>, b: set<Pin>)
    requires a < b
    ensures |a| < |b|
  {
    assert b == a + (b - a);
  }

  /** With at most 32 live video pins, every one of them is kept, however many other
      addresses resolve. */
  lemma VideoPinsSurvive(pins: seq<Pin>, look: Look, norm: Normaliser, v: Pin)
    requires v in Live(pins, look, norm) && v.video
    requires |set p | p in Live(pins, look, norm) && p.video| <= MAX_PINS
    ensures v in Kept(pins, look, norm)
  {
    var kept, evicted, all := Kept(pins, look, norm), Evicted(pins, look, norm), Refreshed(pins, look, norm);
    KeptAndEvictedPartition(pins, look, norm);
    assert v in multiset(all);
    if v !in kept {
      assert v in multiset(evicted);
      CapEvictsTheLowestRanked(pins, look, norm, v);
      KeptIsCappedAndSorted(pins, look, norm);
      UniqueCount(kept);
      var video := set p | p in Live(pins, look, norm) && p.video;
      forall k | k in PinSet(kept) ensures k in video {
        assert k in multiset(kept) && k in multiset(all);
      }
      assert v in video && v !in PinSet(kept);
      SmallerSet(PinSet(kept), video);
    }
  }

  /** What carried traffic or was resolved just now is never expired. */
  lemma FreshPinsAreLive(pins: seq<Pin>, look: Look, norm: Normaliser, p: Pin)
    requires look.idleExpireSec > 0 && p in Refreshed(pins, look, norm)
    requires p.ip in look.active || ResolvedNow(look, norm, p.ip)
    ensures p.lastActive == look.now && p in Live(pins, look, norm)
  {
    RefreshedMeaning(pins, look, norm, p.ip);
    GetMeaning(Refreshed(pins, look, norm), p);
  }

  predicate SameAnswers(a: seq<(string, bool)>, b: seq<(string, bool)>) {
    (forall x :: x in a ==> x in b) && (forall x :: x in b ==> x in a)
  }

  lemma SameFacts(look: Look, other: seq<(string, bool)>, norm: Normaliser, ip: Ip)
    requires SameAnswers(look.resolved, other)
    ensures ResolvedNow(look, norm, ip) ==> ResolvedNow(look.(resolved := other), norm, ip)
    ensures VideoNow(look, norm, ip) ==> VideoNow(look.(resolved := other), norm, ip)
  {
    if i :| 0 <= i < |look.resolved| && norm(look.resolved[i].0) == Some(ip) {
      var x := look.resolved[i];
      assert x in other;
      var j :| 0 <= j < |other| && other[j] == x;
    }
    if i :| 0 <= i < |look.resolved| && norm(look.resolved[i].0) == Some(ip) && look.resolved[i].1 {
      var x := look.resolved[i];
      assert x in other;
      var j :| 0 <= j < |other| && other[j] == x;
    }
  }

  lemma SamePins(pins: seq<Pin>, look: Look, other: seq<(string, bool)>, norm: Normaliser, p: Pin)
    requires SameAnswers(look.resolved, other)
    ensures p in Refreshed(pins, look, norm) <==> p in Refreshed(pins, look.(resolved := other), norm)
  {
    var look' := look.(resolved := other);
    RefreshedMeaning(pins, look, norm, p.ip);
    RefreshedMeaning(pins, look', norm, p.ip);
    GetMeaning(Refreshed(pins, look, norm), p);
    GetMeaning(Refreshed(pins, look', norm), p);
    SameFacts(look, other, norm, p.ip);
    SameFacts(look', look.resolved, norm, p.ip);
    assert look'.(resolved := look.resolved) == look;
  }

  lemma UniqueAsMultiset(a: seq<Pin>, b: seq<Pin>)
    requires Unique(a) && Unique(b) && forall p :: p in a <==> p in b
    ensures multiset(a) == multiset(b)
  {
    forall p: Pin ensures multiset(a)[p] == multiset(b)[p] {
      AddressesAreSingle(a, p.ip);
      AddressesAreSingle(b, p.ip);
      if p !in a { assert p !in multiset(a) && p !in multiset(b); }
    }
  }

  /** The kept set does not depend on the order in which the answers came, nor on how often
      one was repeated. */
  lemma KeptIgnoresAnswerOrder(pins: seq<Pin>, look: Look, other: seq<(string, bool)>, norm: Normaliser)
    requires SameAnswers(look.resolved, other)
    ensures Kept(pins, look, norm) == Kept(pins, look.(resolved := other), norm)
  {
    var look' := look.(resolved := other);
    var a, b := Refreshed(pins, look, norm), Refreshed(pins, look', norm);
    RefreshedMeaning(pins, look, norm, "");
    RefreshedMeaning(pins, look', norm, "");
    forall p: Pin ensures p in a <==> p in b { SamePins(pins, look, other, norm, p); }
    LiveIsUnique(pins, look, norm);
    LiveIsUnique(pins, look', norm);
    UniqueAsMultiset(Live(pins, look, norm), Live(pins, look', norm));
    PinOrders();
    RankedMeaning(pins, look, norm);
    RankedMeaning(pins, look', norm);
    PartIsUnique(Ranked(pins, look, norm), Live(pins, look, norm));
    SortedIsUnique(RanksBefore, Ranked(pins, look, norm), Ranked(pins, look', norm));
  }

  lemma LiveIsUnique(pins: seq<Pin>, look: Look, norm: Normaliser)
    ensures Unique(Live(pins, look, norm))
  {
    RefreshedMeaning(pins, look, norm, "");
    WhereSplits(Refreshed(pins, look, norm), look);
    PartIsUnique(Live(pins, look, norm), Refreshed(pins, look, norm));
  }

  // --- what is reported as new ---------------------------------------------

  predicate Names(pins: seq<Pin>, ip: Ip) { exists p :: p in pins && p.ip == ip }

  lemma NamesAppend(a: seq<Pin>, b: seq<Pin>, ip: Ip)
    ensures Names(a + b, ip) <==> Names(a, ip) || Names(b, ip)
  {
    if p :| p in a && p.ip == ip { assert p in a + b; }
    if p :| p in b && p.ip == ip { assert p in a + b; }
  }

  lemma NamesOne(p: Pin, ip: Ip)
    ensures Names([p], ip) <==> p.ip == ip
    ensures !Names([], ip)
  {
    assert p in [p];
  }

  lemma {:induction false} MadeMeaning(d: seq<Pin>, resolved: seq<(string, bool)>, norm: Normaliser, now: int, ip: Ip)
    requires Unique(d)
    ensures Unique(ResolveAll(d, resolved, norm, now))
    ensures Get(d, ip).Some? ==> Get(ResolveAll(d, resolved, norm, now), ip).Some?
    ensures Names(Made(d, resolved, norm, now), ip)
       <==> Get(d, ip).None? && Get(ResolveAll(d, resolved, norm, now), ip).Some?
    ensures forall p :: p in Made(d, resolved, norm, now) ==> p.firstSeen == now && p.lastActive == now
    decreases |resolved|
  {
    if resolved != [] {
      var earlier, last := resolved[..|resolved| - 1], resolved[|resolved| - 1];
      MadeMeaning(d, earlier, norm, now, ip);
      var hit := norm(last.0);
      if hit.Some? {
        var pin := Pin(hit.value, now, now, last.1);
        GetResolve(ResolveAll(d, earlier, norm, now), hit.value, last.1, now, ip);
        NamesAppend(Made(d, earlier, norm, now), [pin], ip);
        NamesOne(pin, ip);
      }
      NamesAppend(Made(d, earlier, norm, now), [], ip);
      NamesOne(Pin("", 0, 0, false), ip);
    } else {
      NamesOne(Pin("", 0, 0, false), ip);
    }
  }

  lemma {:induction false} InPlaceMeaning(added: seq<Pin>, keep: seq<Pin>, ip: Ip)
    ensures Names(InPlace(added, keep), ip) <==> Names(added, ip) && Get(keep, ip).Some?
    ensures forall p :: p in InPlace(added, keep) ==> p in added
  {
    if added == [] {
      NamesOne(Pin("", 0, 0, false), ip);
    } else {
      var head := if Get(keep, added[0].ip).Some? then [added[0]] else [];
      InPlaceMeaning(added[1..], keep, ip);
      NamesAppend(head, InPlace(added[1..], keep), ip);
      NamesAppend([added[0]], added[1..], ip);
      NamesOne(added[0], ip);
      assert added == [added[0]] + added[1..];
    }
  }

  /** Reported as new are exactly the kept addresses that were not pinned before, first seen and last active
      now. */
  lemma AddedAreTheNewlyKept(pins: seq<Pin>, look: Look, norm: Normaliser, ip: Ip)
    ensures Names(Added(pins, look, norm), ip) <==> Names(Kept(pins, look, norm), ip) && Get(FromList(pins), ip).None?
    ensures forall p :: p in Added(pins, look, norm) ==> p.firstSeen == look.now && p.lastActive == look.now
  {
    var d := Touch(FromList(pins), look.active, look.now);
    FromListUnique(pins);
    TouchUnique(FromList(pins), look.active, look.now);
    GetTouch(FromList(pins), look.active, look.now, ip);
    MadeMeaning(d, look.resolved, norm, look.now, ip);
    InPlaceMeaning(Made(d, look.resolved, norm, look.now), Kept(pins, look, norm), ip);
    KeptIsRefreshed(pins, look, norm, ip);
  }

  lemma KeptIsRefreshed(pins: seq<Pin>, look: Look, norm: Normaliser, ip: Ip)
    ensures Names(Kept(pins, look, norm), ip) <==> Get(Kept(pins, look, norm), ip).Some?
    ensures Names(Kept(pins, look, norm), ip) ==> Get(Refreshed(pins, look, norm), ip).Some?
  {
    var kept := Kept(pins, look, norm);
    KeptAndEvictedPartition(pins, look, norm);
    forall p | p in kept ensures p in Refreshed(pins, look, norm) {
      assert p in multiset(kept) && p in multiset(Refreshed(pins, look, norm));
    }
    if Get(kept, ip).Some? { assert Get(kept, ip).value in kept; }
  }

  // --- what ranks and what expires, in the pins' own terms -----------------

  /** No kept pin has gone unused for the expiry time, and every pin that has is evicted. */
  lemma ExactlyTheUnusedExpire(pins: seq<Pin>, look: Look, norm: Normaliser, p: Pin)
    requires p in Refreshed(pins, look, norm)
    ensures look.now - p.lastActive >= look.idleExpireSec ==>
              p in Evicted(pins, look, norm) && p !in Kept(pins, look, norm)
    ensures look.now - p.lastActive < look.idleExpireSec && p in Evicted(pins, look, norm) ==>
              |Kept(pins, look, norm)| == 32
  {
    if look.now - p.lastActive >= look.idleExpireSec {
      assert p in Where(Refreshed(pins, look, norm), look, true);
      KeptIsCappedAndSorted(pins, look, norm);
    } else if p in Evicted(pins, look, norm) {
      CapEvictsTheLowestRanked(pins, look, norm, p);
    }
  }

  /** What the cap evicts gives way to pins of more use: a video address is evicted only for video addresses,
      and within either kind only for addresses active as lately as it was, or as lately and of a smaller text. */
  lemma CapPrefersVideoThenRecentUse(pins: seq<Pin>, look: Look, norm: Normaliser, e: Pin, k: Pin)
    requires e in Evicted(pins, look, norm) && look.now - e.lastActive < look.idleExpireSec
    requires k in Kept(pins, look, norm)
    ensures e.video ==> k.video
    ensures k.video == e.video ==> k.lastActive >= e.lastActive
    ensures k.video == e.video && k.lastActive == e.lastActive ==> TextLe(k.ip, e.ip)
  {
    CapEvictsTheLowestRanked(pins, look, norm, e);
  }

  // The answer that first named this address, if any.
  predicate FirstNamed(resolved: seq<(string, bool)>, norm: Normaliser, ip: Ip, i: int) {
    0 <= i < |resolved| && norm(resolved[i].0) == Some(ip) && forall j :: 0 <= j < i ==> norm(resolved[j].0) != Some(ip)
  }

  predicate AsFirstNamed(resolved: seq<(string, bool)>, norm: Normaliser, p: Pin) {
    exists i :: 0 <= i < |resolved| && FirstNamed(resolved, norm, p.ip, i) && p.video == resolved[i].1
  }

  lemma {:induction false} MadeOnFirstAnswer(
      d: seq<Pin>, resolved: seq<(string, bool)>, norm: Normaliser, now: int, p: Pin, n: nat)
    requires Unique(d) && n == |resolved| && p in Made(d, resolved, norm, now)
    ensures AsFirstNamed(resolved, norm, p)
    decreases n
  {
    var earlier, last := resolved[..n - 1], resolved[n - 1];
    if p in Made(d, earlier, norm, now) {
      MadeOnFirstAnswer(d, earlier, norm, now, p, n - 1);
      StillFirstNamed(earlier, last, norm, p);
    } else {
      NotNamedBefore(d, earlier, norm, now, p.ip, n - 1);
      FirstNamedNow(earlier, last, norm, p);
    }
    assert resolved == earlier + [last];
  }

  lemma StillFirstNamed(earlier: seq<(string, bool)>, last: (string, bool), norm: Normaliser, p: Pin)
    requires AsFirstNamed(earlier, norm, p)
    ensures AsFirstNamed(earlier + [last], norm, p)
  {
    var all := earlier + [last];
    var i :| 0 <= i < |earlier| && FirstNamed(earlier, norm, p.ip, i) && p.video == earlier[i].1;
    assert forall j :: 0 <= j <= i ==> all[j] == earlier[j];
    assert FirstNamed(all, norm, p.ip, i);
  }

  lemma FirstNamedNow(earlier: seq<(string, bool)>, last: (string, bool), norm: Normaliser, p: Pin)
    requires forall j :: 0 <= j < |earlier| ==> norm(earlier[j].0) != Some(p.ip)
    requires norm(last.0) == Some(p.ip) && p.video == last.1
    ensures AsFirstNamed(earlier + [last], norm, p)
  {
    var all := earlier + [last];
    assert forall j :: 0 <= j < |earlier| ==> all[j] == earlier[j];
    assert FirstNamed(all, norm, p.ip, |earlier|);
  }

  lemma {:induction false} NotNamedBefore(
      d: seq<Pin>, resolved: seq<(string, bool)>, norm: Normaliser, now: int, ip: Ip, n: nat)
    requires Unique(d) && n == |resolved| && Get(ResolveAll(d, resolved, norm, now), ip).None?
    ensures forall j :: 0 <= j < n ==> norm(resolved[j].0) != Some(ip)
    decreases n
  {
    if n > 0 {
      var earlier, last := resolved[..n - 1], resolved[n - 1];
      MadeMeaning(d, earlier, norm, now, ip);
      LastNames(ResolveAll(d, earlier, norm, now), last, norm, now, ip);
      NotNamedBefore(d, earlier, norm, now, ip, n - 1);
      assert forall j :: 0 <= j < n - 1 ==> resolved[j] == earlier[j];
    }
  }

  // An answer that names an address leaves a pin of it, and none loses one.
  lemma LastNames(d: seq<Pin>, last: (string, bool), norm: Normaliser, now: int, ip: Ip)
    requires Unique(d)
    ensures var after := match norm(last.0) case None => d case Some(hit) => Resolve(d, hit, last.1, now);
            Get(after, ip).None? ==> norm(last.0) != Some(ip) && Get(d, ip).None?
  {
    if norm(last.0).Some? { GetResolve(d, norm(last.0).value, last.1, now, ip); }
  }

  /** A pin reported as new is marked as the first answer that named it was. */
  lemma AddedAsFirstAnswered(pins: seq<Pin>, look: Look, norm: Normaliser, p: Pin)
    requires p in Added(pins, look, norm)
    ensures AsFirstNamed(look.resolved, norm, p)
  {
    var d := Touch(FromList(pins), look.active, look.now);
    FromListUnique(pins);
    TouchUnique(FromList(pins), look.active, look.now);
    InPlaceMeaning(Made(d, look.resolved, norm, look.now), Kept(pins, look, norm), p.ip);
    MadeOnFirstAnswer(d, look.resolved, norm, look.now, p, |look.resolved|);
  }

  // The first difference of two texts is here, and the first is smaller.
  predicate SmallerAt(a: string, b: string, i: int) {
    0 <= i < |a| && i < |b| && a[..i] == b[..i] && a[i] < b[i]
  }

  /** The order of addresses is that of their texts, character by character: a beginning comes first, and else the
      first difference decides. */
  lemma {:induction false} TextLeMeaning(a: string, b: string)
    ensures TextLe(a, b) <==> a <= b || exists i :: SmallerAt(a, b, i)
    decreases |a|
  {
    if a != [] && b != [] {
      if a[0] == b[0] {
        TextLeMeaning(a[1..], b[1..]);
        SameHead(a, b);
      } else if a[0] < b[0] {
        assert SmallerAt(a, b, 0);
      }
    }
  }

  lemma SameHead(a: string, b: string)
    requires a != [] && b != [] && a[0] == b[0]
    ensures a <= b <==> a[1..] <= b[1..]
    ensures (exists i :: SmallerAt(a, b, i)) <==> exists i :: SmallerAt(a[1..], b[1..], i)
  {
    assert a == [a[0]] + a[1..] && b == [b[0]] + b[1..];
    if i :| SmallerAt(a, b, i) {
      assert a[1..][..i - 1] == a[..i][1..] && b[1..][..i - 1] == b[..i][1..];
      assert SmallerAt(a[1..], b[1..], i - 1);
    }
    if i :| SmallerAt(a[1..], b[1..], i) {
      assert a[..i + 1] == [a[0]] + a[1..][..i] && b[..i + 1] == [b[0]] + b[1..][..i];
      assert SmallerAt(a, b, i + 1);
    }
  }
}
