/** The pinned addresses: which endpoints count as YouTube right now, at most 32 of them,
    video endpoints first. */
module Pins {
  import opened Wrappers

  type Ip = string

  const MAX_PINS := 32

  datatype Pin = Pin(ip: Ip, firstSeen: int, lastActive: int, video: bool)

  // --- the order of addresses and of pins ----------------------------------

  predicate TextLe(a: string, b: string) {
    if a == [] then true
    else if b == [] then false
    else if a[0] != b[0] then a[0] < b[0]
    else TextLe(a[1..], b[1..])
  }

  lemma {:induction false} TextTotal(a: string, b: string)
    ensures TextLe(a, b) || TextLe(b, a)
    ensures TextLe(a, b) && TextLe(b, a) ==> a == b
    decreases |a|
  {
    if a != [] && b != [] && a[0] == b[0] {
      TextTotal(a[1..], b[1..]);
      assert a == [a[0]] + a[1..] && b == [b[0]] + b[1..];
    }
  }

  lemma {:induction false} TextTransitive(a: string, b: string, c: string)
    requires TextLe(a, b) && TextLe(b, c)
    ensures TextLe(a, c)
    decreases |a|
  {
    if a != [] && b != [] && c != [] && a[0] == b[0] == c[0] {
      TextTransitive(a[1..], b[1..], c[1..]);
    }
  }

  /** `a` is kept before `b` when the filters run out: video first, then the more recently
      active, then the smaller address. */
  predicate RanksBefore(a: Pin, b: Pin) {
    if a.video != b.video then a.video
    else if a.lastActive != b.lastActive then a.lastActive > b.lastActive
    else TextLe(a.ip, b.ip)
  }

  predicate IpBefore(a: Pin, b: Pin) { TextLe(a.ip, b.ip) }

  // A total order on pins with different addresses.
  ghost predicate OrdersPins(le: (Pin, Pin) -> bool) {
    && (forall a, b :: le(a, b) || le(b, a))
    && (forall a, b :: le(a, b) && le(b, a) ==> a.ip == b.ip)
    && (forall a, b, c :: le(a, b) && le(b, c) ==> le(a, c))
  }

  lemma PinOrders()
    ensures OrdersPins(RanksBefore) && OrdersPins(IpBefore)
  {
    forall a: Pin, b: Pin
      ensures TextLe(a.ip, b.ip) || TextLe(b.ip, a.ip)
      ensures TextLe(a.ip, b.ip) && TextLe(b.ip, a.ip) ==> a.ip == b.ip
    {
      TextTotal(a.ip, b.ip);
    }
    forall a: Pin, b: Pin, c: Pin | TextLe(a.ip, b.ip) && TextLe(b.ip, c.ip)
      ensures TextLe(a.ip, c.ip)
    {
      TextTransitive(a.ip, b.ip, c.ip);
    }
  }

  // --- the dictionary by address, in order of first insertion --------------

  predicate Unique(d: seq<Pin>) { forall i, j :: 0 <= i < j < |d| ==> d[i].ip != d[j].ip }

  function Get(d: seq<Pin>, ip: Ip): (r: Option<Pin>)
    ensures r.Some? ==> r.value in d && r.value.ip == ip
    ensures r.None? ==> forall p :: p in d ==> p.ip != ip
  {
    if d == [] then None else if d[0].ip == ip then Some(d[0]) else Get(d[1..], ip)
  }

  function Put(d: seq<Pin>, p: Pin): seq<Pin> {
    if d == [] then [p]
    else if d[0].ip == p.ip then [p] + d[1..]
    else [d[0]] + Put(d[1..], p)
  }

  lemma {:induction false} GetPut(d: seq<Pin>, p: Pin, ip: Ip)
    ensures Get(Put(d, p), ip) == if ip == p.ip then Some(p) else Get(d, ip)
  {
    if d != [] && d[0].ip != p.ip {
      GetPut(d[1..], p, ip);
      assert Put(d, p)[1..] == Put(d[1..], p);
    } else if d != [] {
      assert Put(d, p)[1..] == d[1..];
    }
  }

  lemma {:induction false} PutUnique(d: seq<Pin>, p: Pin)
    requires Unique(d)
    ensures Unique(Put(d, p))
    ensures forall q :: q in Put(d, p) ==> q == p || q in d
  {
    if d != [] && d[0].ip != p.ip {
      PutUnique(d[1..], p);
      forall i | 0 < i < |Put(d, p)| ensures Put(d, p)[i].ip != d[0].ip {
        assert Put(d, p)[i] in Put(d[1..], p);
      }
    }
  }

  lemma GetMeaning(d: seq<Pin>, p: Pin)
    requires Unique(d)
    ensures Get(d, p.ip) == Some(p) <==> p in d
  {
    if p in d {
      var i :| 0 <= i < |d| && d[i] == p;
      var q := Get(d, p.ip).value;
      var j :| 0 <= j < |d| && d[j] == q;
    }
  }

  function FromList(pins: seq<Pin>): seq<Pin> {
    if pins == [] then [] else Put(FromList(pins[..|pins| - 1]), pins[|pins| - 1])
  }

  // --- sorting -------------------------------------------------------------

  ghost predicate Sorted(le: (Pin, Pin) -> bool, s: seq<Pin>) {
    forall i, j :: 0 <= i < j < |s| ==> le(s[i], s[j])
  }

  function Insert(le: (Pin, Pin) -> bool, p: Pin, s: seq<Pin>): seq<Pin> {
    if s == [] || le(p, s[0]) then [p] + s else [s[0]] + Insert(le, p, s[1..])
  }

  function SortBy(le: (Pin, Pin) -> bool, s: seq<Pin>): seq<Pin> {
    if s == [] then [] else Insert(le, s[0], SortBy(le, s[1..]))
  }

  lemma ConsIsSorted(le: (Pin, Pin) -> bool, p: Pin, s: seq<Pin>)
    requires Sorted(le, s) && forall q :: q in s ==> le(p, q)
    ensures Sorted(le, [p] + s)
  {
  }

  lemma TailIsSorted(le: (Pin, Pin) -> bool, s: seq<Pin>)
    requires s != [] && Sorted(le, s)
    ensures Sorted(le, s[1..])
  {
  }

  lemma HeadIsFirst(le: (Pin, Pin) -> bool, s: seq<Pin>, q: Pin)
    requires OrdersPins(le) && s != [] && Sorted(le, s)
    ensures q in s ==> le(s[0], q)
  {
    if q in s {
      var i :| 0 <= i < |s| && s[i] == q;
      assert i != 0 ==> le(s[0], s[i]);
    }
  }

  lemma {:induction false} InsertMeaning(le: (Pin, Pin) -> bool, p: Pin, s: seq<Pin>)
    requires OrdersPins(le) && Sorted(le, s)
    ensures Sorted(le, Insert(le, p, s)) && multiset(Insert(le, p, s)) == multiset{p} + multiset(s)
  {
    if s != [] {
      assert s == [s[0]] + s[1..];
      if !le(p, s[0]) {
        TailIsSorted(le, s);
        InsertMeaning(le, p, s[1..]);
        var rest := Insert(le, p, s[1..]);
        forall q | q in rest ensures le(s[0], q) {
          assert q in multiset(rest);
          HeadIsFirst(le, s, q);
        }
        ConsIsSorted(le, s[0], rest);
      } else {
        forall q | q in s ensures le(p, q) { HeadIsFirst(le, s, q); }
        ConsIsSorted(le, p, s);
      }
    }
  }

  lemma {:induction false} SortMeaning(le: (Pin, Pin) -> bool, s: seq<Pin>)
    requires OrdersPins(le)
    ensures Sorted(le, SortBy(le, s)) && multiset(SortBy(le, s)) == multiset(s)
  {
    if s != [] {
      SortMeaning(le, s[1..]);
      InsertMeaning(le, s[0], SortBy(le, s[1..]));
      assert s == [s[0]] + s[1..];
    }
  }

  lemma HeadsAgree(le: (Pin, Pin) -> bool, a: seq<Pin>, b: seq<Pin>)
    requires OrdersPins(le) && Sorted(le, a) && Sorted(le, b) && Unique(a)
    requires a != [] && b != [] && b[0] in a && a[0] in b
    ensures a[0] == b[0]
  {
    var i :| 0 <= i < |b| && b[i] == a[0];
    var j :| 0 <= j < |a| && a[j] == b[0];
    assert i != 0 ==> le(b[0], b[i]);
  }

  lemma TailsAgree(le: (Pin, Pin) -> bool, a: seq<Pin>, b: seq<Pin>)
    requires Sorted(le, a) && Sorted(le, b) && Unique(a) && multiset(a) == multiset(b)
    requires a != [] && b != [] && a[0] == b[0]
    ensures Sorted(le, a[1..]) && Sorted(le, b[1..]) && Unique(a[1..]) && multiset(a[1..]) == multiset(b[1..])
  {
    TailIsSorted(le, a);
    TailIsSorted(le, b);
    TailWithout(a);
    TailWithout(b);
  }

  lemma TailWithout(a: seq<Pin>)
    requires a != []
    ensures multiset(a[1..]) == multiset(a) - multiset{a[0]}
    ensures Unique(a) ==> Unique(a[1..])
  {
    assert a == [a[0]] + a[1..];
  }

  /** A sorted list of pins with different addresses is determined by which pins it holds. */
  lemma {:induction false} SortedIsUnique(le: (Pin, Pin) -> bool, a: seq<Pin>, b: seq<Pin>)
    requires OrdersPins(le) && Sorted(le, a) && Sorted(le, b) && Unique(a) && multiset(a) == multiset(b)
    ensures a == b
  {
    assert |multiset(a)| == |a| && |multiset(b)| == |b|;
    if a != [] {
      assert a[0] in multiset(b) && b[0] in multiset(a);
      HeadsAgree(le, a, b);
      TailsAgree(le, a, b);
      SortedIsUnique(le, a[1..], b[1..]);
      assert a == [a[0]] + a[1..] && b == [b[0]] + b[1..];
    }
  }

  // --- one update ----------------------------------------------------------

  // Canonicalises an address, or rejects a token that is not one.
  type Normaliser = string -> Option<Ip>

  datatype Look = Look(resolved: seq<(string, bool)>, active: set<Ip>, now: int, idleExpireSec: int)

  function Touch(d: seq<Pin>, active: set<Ip>, now: int): seq<Pin> {
    if d == [] then []
    else [if d[0].ip in active then d[0].(lastActive := now) else d[0]] + Touch(d[1..], active, now)
  }

  function Resolve(d: seq<Pin>, ip: Ip, video: bool, now: int): seq<Pin> {
    match Get(d, ip)
    case None => Put(d, Pin(ip, now, now, video))
    case Some(e) => Put(d, Pin(ip, e.firstSeen, now, e.video || video))
  }

  function ResolveAll(d: seq<Pin>, resolved: seq<(string, bool)>, norm: Normaliser, now: int): seq<Pin> {
    if resolved == [] then d
    else
      var earlier, last := ResolveAll(d, resolved[..|resolved| - 1], norm, now), resolved[|resolved| - 1];
      match norm(last.0)
      case None => earlier
      case Some(ip) => Resolve(earlier, ip, last.1, now)
  }

  function Refreshed(pins: seq<Pin>, look: Look, norm: Normaliser): seq<Pin> {
    ResolveAll(Touch(FromList(pins), look.active, look.now), look.resolved, norm, look.now)
  }

  predicate Idle(p: Pin, look: Look) { look.now - p.lastActive >= look.idleExpireSec }

  function Where(d: seq<Pin>, look: Look, idle: bool): (r: seq<Pin>)
    ensures forall p :: p in r <==> p in d && Idle(p, look) == idle
  {
    if d == [] then []
    else (if Idle(d[0], look) == idle then [d[0]] else []) + Where(d[1..], look, idle)
  }

  function Live(pins: seq<Pin>, look: Look, norm: Normaliser): seq<Pin> {
    Where(Refreshed(pins, look, norm), look, false)
  }

  function Ranked(pins: seq<Pin>, look: Look, norm: Normaliser): seq<Pin> {
    SortBy(RanksBefore, Live(pins, look, norm))
  }

  function First(s: seq<Pin>, n: nat): seq<Pin> { if |s| <= n then s else s[..n] }
  function Rest(s: seq<Pin>, n: nat): seq<Pin> { if |s| <= n then [] else s[n..] }

  function Kept(pins: seq<Pin>, look: Look, norm: Normaliser): seq<Pin> {
    SortBy(IpBefore, First(Ranked(pins, look, norm), MAX_PINS))
  }

  function Evicted(pins: seq<Pin>, look: Look, norm: Normaliser): seq<Pin> {
    Where(Refreshed(pins, look, norm), look, true) + Rest(Ranked(pins, look, norm), MAX_PINS)
  }

  // The pins made on the way, as they were when they were made.
  function Made(d: seq<Pin>, resolved: seq<(string, bool)>, norm: Normaliser, now: int): seq<Pin> {
    if resolved == [] then []
    else
      var earlier, last := resolved[..|resolved| - 1], resolved[|resolved| - 1];
      var ip := norm(last.0);
      Made(d, earlier, norm, now)
      + if ip.Some? && Get(ResolveAll(d, earlier, norm, now), ip.value).None?
        then [Pin(ip.value, now, now, last.1)] else []
  }

  function InPlace(added: seq<Pin>, keep: seq<Pin>): seq<Pin> {
    if added == [] then []
    else (if Get(keep, added[0].ip).Some? then [added[0]] else []) + InPlace(added[1..], keep)
  }

  function Added(pins: seq<Pin>, look: Look, norm: Normaliser): seq<Pin> {
    InPlace(Made(Touch(FromList(pins), look.active, look.now), look.resolved, norm, look.now), Kept(pins, look, norm))
  }

  // --- the program ---------------------------------------------------------

  method Update(pins: seq<Pin>, look: Look, norm: Normaliser)
    returns (keep: seq<Pin>, added: seq<Pin>, evicted: seq<Pin>)
    ensures keep == Kept(pins, look, norm)
    ensures evicted == Evicted(pins, look, norm)
    ensures added == Added(pins, look, norm)
  {
    var byIp := [];
    for i := 0 to |pins|
      invariant byIp == FromList(pins[..i])
    {
      assert pins[..i + 1][..i] == pins[..i];
      byIp := Put(byIp, pins[i]);
    }
    assert pins[..|pins|] == pins;

    byIp := TouchActive(byIp, look.active, look.now);

    ghost var touched := byIp;
    added := [];
    for i := 0 to |look.resolved|
      invariant byIp == ResolveAll(touched, look.resolved[..i], norm, look.now)
      invariant added == Made(touched, look.resolved[..i], norm, look.now)
    {
      assert look.resolved[..i + 1][..i] == look.resolved[..i];
      var (raw, isVideo) := look.resolved[i];
      assert added + [] == added;
      var ip := norm(raw);
      if ip.Some? {
        var existing := Get(byIp, ip.value);
        if existing.None? {
          var pin := Pin(ip.value, look.now, look.now, isVideo);
          byIp := Put(byIp, pin);
          added := added + [pin];
        } else {
          byIp := Put(byIp, Pin(ip.value, existing.value.firstSeen, look.now, existing.value.video || isVideo));
        }
      }
    }
    assert look.resolved[..|look.resolved|] == look.resolved;

    evicted := Where(byIp, look, true);
    keep := SortBy(RanksBefore, Where(byIp, look, false));
    if |keep| > MAX_PINS {
      evicted := evicted + keep[MAX_PINS..];
      keep := keep[..MAX_PINS];
    }
    keep := SortBy(IpBefore, keep);
    added := OnlyKept(added, keep);
  }

  method TouchActive(d: seq<Pin>, active: set<Ip>, now: int) returns (r: seq<Pin>)
    ensures r == Touch(d, active, now)
  {
    r := [];
    for i := 0 to |d|
      invariant r + Touch(d[i..], active, now) == Touch(d, active, now)
    {
      var p := if d[i].ip in active then d[i].(lastActive := now) else d[i];
      assert d[i..][1..] == d[i + 1..];
      assert r + ([p] + Touch(d[i + 1..], active, now)) == (r + [p]) + Touch(d[i + 1..], active, now);
      r := r + [p];
    }
    assert d[|d|..] == [] && r + [] == r;
  }

  method OnlyKept(added: seq<Pin>, keep: seq<Pin>) returns (r: seq<Pin>)
    ensures r == InPlace(added, keep)
  {
    r := [];
    for i := 0 to |added|
      invariant r + InPlace(added[i..], keep) == InPlace(added, keep)
    {
      assert added[i..][1..] == added[i + 1..];
      ghost var rest := InPlace(added[i + 1..], keep);
      if Get(keep, added[i].ip).Some? {
        assert r + ([added[i]] + rest) == (r + [added[i]]) + rest;
        r := r + [added[i]];
      } else {
        assert [] + rest == rest;
      }
    }
    assert added[|added|..] == [] && r + [] == r;
  }

  // --- what the refreshed set is -------------------------------------------

  predicate ResolvedNow(look: Look, norm: Normaliser, ip: Ip) {
    exists i :: 0 <= i < |look.resolved| && norm(look.resolved[i].0) == Some(ip)
  }

  predicate VideoNow(look: Look, norm: Normaliser, ip: Ip) {
    exists i :: 0 <= i < |look.resolved| && norm(look.resolved[i].0) == Some(ip) && look.resolved[i].1
  }

  /** Traffic and resolution keep a pin alive, resolution creates one, and the video mark
      stays once set; nothing else happens to a pin. */
  function Expected(old': Option<Pin>, look: Look, norm: Normaliser, ip: Ip): Option<Pin> {
    match old'
    case None =>
      if ResolvedNow(look, norm, ip) then Some(Pin(ip, look.now, look.now, VideoNow(look, norm, ip))) else None
    case Some(p) =>
      var used := ip in look.active || ResolvedNow(look, norm, ip);
      Some(Pin(ip, p.firstSeen, if used then look.now else p.lastActive, p.video || VideoNow(look, norm, ip)))
  }

  lemma {:induction false} GetTouch(d: seq<Pin>, active: set<Ip>, now: int, ip: Ip)
    ensures Get(Touch(d, active, now), ip)
         == match Get(d, ip) case None => None case Some(p) => Some(if ip in active then p.(lastActive := now) else p)
  {
    if d != [] {
      GetTouch(d[1..], active, now, ip);
      assert Touch(d, active, now)[1..] == Touch(d[1..], active, now);
    }
  }

  lemma {:induction false} TouchUnique(d: seq<Pin>, active: set<Ip>, now: int)
    requires Unique(d)
    ensures |Touch(d, active, now)| == |d| && Unique(Touch(d, active, now))
    ensures forall i :: 0 <= i < |d| ==> Touch(d, active, now)[i].ip == d[i].ip
  {
    if d != [] {
      TouchUnique(d[1..], active, now);
    }
  }

  lemma ResolvedSnoc(look: Look, norm: Normaliser, n: nat, ip: Ip)
    requires n < |look.resolved|
    ensures var (a, b) := (look.(resolved := look.resolved[..n]), look.(resolved := look.resolved[..n + 1]));
            var hit := norm(look.resolved[n].0) == Some(ip);
            && (ResolvedNow(b, norm, ip) <==> ResolvedNow(a, norm, ip) || hit)
            && (VideoNow(b, norm, ip) <==> VideoNow(a, norm, ip) || (hit && look.resolved[n].1))
  {
    var a, b := look.resolved[..n], look.resolved[..n + 1];
    assert forall i :: 0 <= i < n ==> a[i] == b[i];
    assert b[n] == look.resolved[n];
  }

  lemma GetResolve(d: seq<Pin>, hit: Ip, video: bool, now: int, ip: Ip)
    requires Unique(d)
    ensures Unique(Resolve(d, hit, video, now))
    ensures Get(Resolve(d, hit, video, now), ip)
         == if ip != hit then Get(d, ip)
            else match Get(d, ip)
              case None => Some(Pin(ip, now, now, video))
              case Some(e) => Some(Pin(ip, e.firstSeen, now, e.video || video))
  {
    var e := Get(d, hit);
    var p := Pin(hit, if e.None? then now else e.value.firstSeen, now, (e.Some? && e.value.video) || video);
    GetPut(d, p, ip);
    PutUnique(d, p);
    assert Resolve(d, hit, video, now) == Put(d, p);
  }

  function Seen(look: Look, n: nat): Look
    requires n <= |look.resolved|
  {
    look.(resolved := look.resolved[..n], active := {})
  }

  lemma {:induction false} GetResolved(d: seq<Pin>, look: Look, norm: Normaliser, n: nat, ip: Ip)
    requires n <= |look.resolved| && Unique(d)
    ensures Get(ResolveAll(d, look.resolved[..n], norm, look.now), ip)
         == Expected(Get(d, ip), Seen(look, n), norm, ip)
    ensures Unique(ResolveAll(d, look.resolved[..n], norm, look.now))
  {
    if n > 0 {
      GetResolved(d, look, norm, n - 1, ip);
      ResolvedSnoc(look.(active := {}), norm, n - 1, ip);
      assert look.resolved[..n][..n - 1] == look.resolved[..n - 1];
      var hit := norm(look.resolved[n - 1].0);
      if hit.Some? {
        var earlier := ResolveAll(d, look.resolved[..n - 1], norm, look.now);
        GetResolve(earlier, hit.value, look.resolved[n - 1].1, look.now, ip);
      }
    }
  }

  lemma {:induction false} FromListUnique(pins: seq<Pin>)
    ensures Unique(FromList(pins))
  {
    if pins != [] {
      FromListUnique(pins[..|pins| - 1]);
      PutUnique(FromList(pins[..|pins| - 1]), pins[|pins| - 1]);
    }
  }

  lemma RefreshedMeaning(pins: seq<Pin>, look: Look, norm: Normaliser, ip: Ip)
    ensures Get(Refreshed(pins, look, norm), ip) == Expected(Get(FromList(pins), ip), look, norm, ip)
    ensures Unique(Refreshed(pins, look, norm))
  {
    FromListUnique(pins);
    TouchUnique(FromList(pins), look.active, look.now);
    GetTouch(FromList(pins), look.active, look.now, ip);
    GetResolved(Touch(FromList(pins), look.active, look.now), look, norm, |look.resolved|, ip);
    assert look.resolved[..|look.resolved|] == look.resolved;
  }
}
