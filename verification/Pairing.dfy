/** Nearest-neighbour pairing of two watcher logs within a tolerance; samples are their times in seconds. */
module Pairing {
  import opened Wrappers

  // A sample of the first log and the sample of the second one it is compared with, by position.
  type Pair = (nat, nat)

  function Gap(s: int, t: int): nat { if s < t then t - s else s - t }

  function UsedIn(pairs: seq<Pair>): set<nat> { set k | 0 <= k < |pairs| :: pairs[k].1 }

  // --- the greedy choice ---------------------------------------------------

  // The nearest unused sample among the first n, the first of equals.
  function Best(s: int, b: seq<int>, used: set<nat>, n: nat, tolerance: int): (r: Option<nat>)
    requires n <= |b|
    ensures r.Some? ==> r.value < n
  {
    if n == 0 then None
    else
      var before := Best(s, b, used, n - 1, tolerance);
      if n - 1 in used || Gap(s, b[n - 1]) > tolerance then before
      else if before.None? || Gap(s, b[n - 1]) < Gap(s, b[before.value]) then Some(n - 1)
      else before
  }

  // The pairs after one turn of the outer loop.
  function Turn(a: seq<int>, b: seq<int>, tolerance: int, before: seq<Pair>, i: nat): seq<Pair>
    requires i < |a|
  {
    match Best(a[i], b, UsedIn(before), |b|, tolerance)
    case None => before
    case Some(j) => before + [(i, j)]
  }

  // The pairs of the first n samples of the first log.
  function Pairs(a: seq<int>, b: seq<int>, tolerance: int, n: nat): seq<Pair>
    requires n <= |a|
  {
    if n == 0 then [] else Turn(a, b, tolerance, Pairs(a, b, tolerance, n - 1), n - 1)
  }

  method PairLogs(a: seq<int>, b: seq<int>, tolerance: int) returns (pairs: seq<Pair>)
    ensures pairs == Pairs(a, b, tolerance, |a|)
  {
    pairs := [];
    var used: set<nat> := {};
    for k := 0 to |a|
      invariant pairs == Pairs(a, b, tolerance, k) && used == UsedIn(pairs)
    {
      var best: Option<nat> := None;
      for i := 0 to |b|
        invariant best == Best(a[k], b, used, i, tolerance)
      {
        if i !in used {
          var gap := Gap(a[k], b[i]);
          if gap <= tolerance && (best.None? || gap < Gap(a[k], b[best.value])) { best := Some(i); }
        }
      }
      if best.Some? {
        UsedGrows(pairs, (k, best.value));
        used := used + {best.value};
        pairs := pairs + [(k, best.value)];
      }
    }
  }

  lemma UsedGrows(pairs: seq<Pair>, p: Pair)
    ensures UsedIn(pairs + [p]) == UsedIn(pairs) + {p.1}
  {
    var grown := pairs + [p];
    assert grown[|pairs|] == p;
    assert forall k :: 0 <= k < |pairs| ==> grown[k] == pairs[k];
  }

  lemma {:induction false} BestMeaning(s: int, b: seq<int>, used: set<nat>, n: nat, tolerance: int)
    requires n <= |b|
    ensures var r := Best(s, b, used, n, tolerance);
            && (r.None? <==> forall j :: 0 <= j < n && j !in used ==> Gap(s, b[j]) > tolerance)
            && (r.Some? ==>
                  && r.value !in used && Gap(s, b[r.value]) <= tolerance
                  && (forall j :: 0 <= j < n && j !in used ==> Gap(s, b[r.value]) <= Gap(s, b[j]))
                  && (forall j :: 0 <= j < r.value && j !in used ==> Gap(s, b[r.value]) < Gap(s, b[j])))
  {
    if n > 0 { BestMeaning(s, b, used, n - 1, tolerance); }
  }

  // --- what a pairing is ---------------------------------------------------

  // No sample of either log twice, and every pair within the tolerance.
  predicate Matching(a: seq<int>, b: seq<int>, tolerance: int, pairs: set<Pair>) {
    && (forall p :: p in pairs ==> p.0 < |a| && p.1 < |b| && Gap(a[p.0], b[p.1]) <= tolerance)
    && OneToOne(pairs)
  }

  predicate OneToOne(pairs: set<Pair>) {
    forall p, q :: p in pairs && q in pairs && p != q ==> p.0 != q.0 && p.1 != q.1
  }

  function Firsts(pairs: set<Pair>): set<nat> { set p | p in pairs :: p.0 }
  function Seconds(pairs: set<Pair>): set<nat> { set p | p in pairs :: p.1 }

  // No two samples within the tolerance are both left over.
  predicate Maximal(a: seq<int>, b: seq<int>, tolerance: int, pairs: set<Pair>) {
    forall i: nat, j: nat :: i < |a| && j < |b| && i !in Firsts(pairs) && j !in Seconds(pairs)
      ==> Gap(a[i], b[j]) > tolerance
  }

  function AsSet(pairs: seq<Pair>): set<Pair> { set k | 0 <= k < |pairs| :: pairs[k] }

  lemma AsSetGrows(pairs: seq<Pair>, p: Pair)
    ensures AsSet(pairs + [p]) == AsSet(pairs) + {p}
    ensures Seconds(AsSet(pairs)) == UsedIn(pairs)
  {
    var grown := pairs + [p];
    assert grown[|pairs|] == p;
    assert forall k :: 0 <= k < |pairs| ==> grown[k] == pairs[k];
    forall j | j in UsedIn(pairs) ensures j in Seconds(AsSet(pairs)) {
      var k :| 0 <= k < |pairs| && pairs[k].1 == j;
      assert pairs[k] in AsSet(pairs);
    }
  }

  lemma AddPair(a: seq<int>, b: seq<int>, tolerance: int, before: set<Pair>, p: Pair)
    requires Matching(a, b, tolerance, before) && p.0 < |a| && p.1 < |b| && Gap(a[p.0], b[p.1]) <= tolerance
    requires (forall q :: q in before ==> q.0 < p.0) && p.1 !in Seconds(before)
    ensures Matching(a, b, tolerance, before + {p}) && |before + {p}| == |before| + 1
    ensures p.0 in Firsts(before + {p})
  {
    forall q | q in before ensures q.0 != p.0 && q.1 != p.1 {
      assert q.1 in Seconds(before);
    }
    assert p in before + {p};
  }

  lemma BestFits(s: int, b: seq<int>, used: set<nat>, tolerance: int)
    ensures var r := Best(s, b, used, |b|, tolerance);
            r.Some? ==> r.value !in used && Gap(s, b[r.value]) <= tolerance
  {
    BestMeaning(s, b, used, |b|, tolerance);
  }

  predicate Before(pairs: set<Pair>, n: nat) { forall q :: q in pairs ==> q.0 < n }

  // What holds of the pairs of the first n samples.
  predicate Sound(a: seq<int>, b: seq<int>, tolerance: int, pairs: seq<Pair>, n: nat) {
    && |AsSet(pairs)| == |pairs| && Matching(a, b, tolerance, AsSet(pairs)) && Before(AsSet(pairs), n)
  }

  lemma TurnIsSound(a: seq<int>, b: seq<int>, tolerance: int, before: seq<Pair>, i: nat)
    requires i < |a| && Sound(a, b, tolerance, before, i)
    ensures Sound(a, b, tolerance, Turn(a, b, tolerance, before, i), i + 1)
  {
    BestFits(a[i], b, UsedIn(before), tolerance);
    var best := Best(a[i], b, UsedIn(before), |b|, tolerance);
    if best.Some? {
      AsSetGrows(before, (i, best.value));
      AddPair(a, b, tolerance, AsSet(before), (i, best.value));
    }
  }

  lemma NextTurnIsSound(a: seq<int>, b: seq<int>, tolerance: int, before: seq<Pair>, after: seq<Pair>, i: nat)
    requires i < |a| && Sound(a, b, tolerance, before, i) && after == Turn(a, b, tolerance, before, i)
    ensures Sound(a, b, tolerance, after, i + 1)
  {
    TurnIsSound(a, b, tolerance, before, i);
  }

  lemma NothingIsSound(a: seq<int>, b: seq<int>, tolerance: int, none: seq<Pair>)
    requires none == []
    ensures Sound(a, b, tolerance, none, 0)
  {
    assert AsSet(none) == {};
  }

  lemma {:induction false} PairsAreSound(a: seq<int>, b: seq<int>, tolerance: int, n: nat)
    requires n <= |a|
    ensures Sound(a, b, tolerance, Pairs(a, b, tolerance, n), n)
  {
    if n == 0 {
      NothingIsSound(a, b, tolerance, Pairs(a, b, tolerance, n));
    } else {
      PairsAreSound(a, b, tolerance, n - 1);
      NextTurnIsSound(a, b, tolerance, Pairs(a, b, tolerance, n - 1), Pairs(a, b, tolerance, n), n - 1);
    }
  }

  // Every sample left over had no unused neighbour when its turn came.
  lemma {:induction false} PairsAreMaximal(a: seq<int>, b: seq<int>, tolerance: int, n: nat)
    requires n <= |a|
    ensures Maximal(a[..n], b, tolerance, AsSet(Pairs(a, b, tolerance, n)))
  {
    if n > 0 {
      PairsAreMaximal(a, b, tolerance, n - 1);
      var before := Pairs(a, b, tolerance, n - 1);
      BestMeaning(a[n - 1], b, UsedIn(before), |b|, tolerance);
      var best := Best(a[n - 1], b, UsedIn(before), |b|, tolerance);
      assert a[..n][..n - 1] == a[..n - 1];
      AsSetGrows(before, (n - 1, if best.Some? then best.value else 0));
      var found := AsSet(Pairs(a, b, tolerance, n));
      if best.Some? { assert (n - 1, best.value) in found; }
      StaysMaximal(a[..n], b, tolerance, AsSet(before), found);
    }
  }

  lemma StaysMaximal(a: seq<int>, b: seq<int>, tolerance: int, before: set<Pair>, found: set<Pair>)
    requires a != [] && Maximal(a[..|a| - 1], b, tolerance, before) && before <= found
    requires |a| - 1 in Firsts(found)
          || forall j: nat :: j < |b| && j !in Seconds(before) ==> Gap(a[|a| - 1], b[j]) > tolerance
    ensures Maximal(a, b, tolerance, found)
  {
    forall i: nat, j: nat | i < |a| && j < |b| && i !in Firsts(found) && j !in Seconds(found)
      ensures Gap(a[i], b[j]) > tolerance
    {
      assert i !in Firsts(before) && j !in Seconds(before);
    }
  }

  /** The pairing is one-to-one on both sides, within the tolerance, and leaves no pair of neighbours over. */
  lemma PairingIsMaximal(a: seq<int>, b: seq<int>, tolerance: int)
    ensures var pairs := Pairs(a, b, tolerance, |a|);
            && |AsSet(pairs)| == |pairs|
            && Matching(a, b, tolerance, AsSet(pairs)) && Maximal(a, b, tolerance, AsSet(pairs))
  {
    PairsAreSound(a, b, tolerance, |a|);
    PairsAreMaximal(a, b, tolerance, |a|);
    assert a[..|a|] == a;
  }

  // --- against any other pairing -------------------------------------------

  lemma {:induction false} NoMoreThanFirsts(pairs: set<Pair>, firsts: set<nat>)
    requires forall p, q :: p in pairs && q in pairs && p != q ==> p.0 != q.0
    requires forall p :: p in pairs ==> p.0 in firsts
    ensures |pairs| <= |firsts|
    decreases |pairs|
  {
    if p :| p in pairs {
      NoMoreThanFirsts(pairs - {p}, firsts - {p.0});
    }
  }

  lemma {:induction false} NoMoreThanSeconds(pairs: set<Pair>, seconds: set<nat>)
    requires forall p, q :: p in pairs && q in pairs && p != q ==> p.1 != q.1
    requires forall p :: p in pairs ==> p.1 in seconds
    ensures |pairs| <= |seconds|
    decreases |pairs|
  {
    if p :| p in pairs {
      NoMoreThanSeconds(pairs - {p}, seconds - {p.1});
    }
  }

  lemma {:induction false} ProjectionsAreSmall(pairs: set<Pair>)
    ensures |Firsts(pairs)| <= |pairs| && |Seconds(pairs)| <= |pairs|
    decreases |pairs|
  {
    if p :| p in pairs {
      var rest := pairs - {p};
      ProjectionsAreSmall(rest);
      assert Firsts(pairs) == Firsts(rest) + {p.0} && Seconds(pairs) == Seconds(rest) + {p.1};
    }
  }

  // Every pair of the other pairing shares a sample with this one.
  lemma AtMostDouble(a: seq<int>, b: seq<int>, tolerance: int, pairs: set<Pair>, other: set<Pair>)
    requires Maximal(a, b, tolerance, pairs) && Matching(a, b, tolerance, other)
    ensures |other| <= 2 * |pairs|
  {
    var left := set p | p in other && p.0 in Firsts(pairs);
    var right := other - left;
    forall p | p in right ensures p.1 in Seconds(pairs) {
      assert p.0 !in Firsts(pairs);
    }
    NoMoreThanFirsts(left, Firsts(pairs));
    NoMoreThanSeconds(right, Seconds(pairs));
    ProjectionsAreSmall(pairs);
  }

  /** No pairing of the two logs within the tolerance has more than twice as many pairs. */
  lemma AtLeastHalfTheBest(a: seq<int>, b: seq<int>, tolerance: int, other: set<Pair>)
    requires Matching(a, b, tolerance, other)
    ensures |other| <= 2 * |Pairs(a, b, tolerance, |a|)|
  {
    PairingIsMaximal(a, b, tolerance);
    AtMostDouble(a, b, tolerance, AsSet(Pairs(a, b, tolerance, |a|)), other);
  }

  lemma NearestTakesBoth(a: seq<int>, b: seq<int>, tolerance: int)
    requires |a| == 2 && |b| == 2 && Gap(a[0], b[1]) < Gap(a[0], b[0]) <= tolerance < Gap(a[1], b[0])
    ensures |Pairs(a, b, tolerance, 2)| == 1
  {
    var first := Pairs(a, b, tolerance, 1);
    assert Pairs(a, b, tolerance, 0) == [];
    BestMeaning(a[0], b, UsedIn([]), |b|, tolerance);
    assert first == [] + [(0, 1)];
    UsedGrows([], (0, 1));
    BestMeaning(a[1], b, UsedIn(first), |b|, tolerance);
  }

  /** Half is all that can be promised: taking the nearest neighbour first can cost the second pair. */
  lemma HalfIsReached()
    ensures |Pairs([10, 17], [6, 13], 5, 2)| == 1
    ensures Matching([10, 17], [6, 13], 5, {(0, 0), (1, 1)}) && |{(0 as nat, 0 as nat), (1, 1)}| == 2
  {
    NearestTakesBoth([10, 17], [6, 13], 5);
  }
}
