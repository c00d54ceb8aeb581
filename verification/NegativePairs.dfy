/** Calibration against cross-identity pairs: blocked selection of the smallest distances, the closed-form
    count of the pairs, and the threshold that both lead to. */
module NegativePairs {
  import opened Prelude
  import opened Tallies

  /** The similarities of all pairs of faces, whose face each one is, and what the arithmetic in use computes
      for one minus a similarity, when calibrating, and for one minus a maximum distance, when measuring:
      rounding is up to it. */
  datatype Faces = Faces(
    similarities: seq<seq<real>>, identities: seq<int>, complement: real -> real, limit: real -> real)
  {
    predicate Valid() {
      |similarities| == |identities| && forall i :: 0 <= i < |similarities| ==> |similarities[i]| == |identities|
    }
  }

  function Clipped(d: real): real {
    if d < 0.0 then 0.0 else if d > 2.0 then 2.0 else d
  }

  function Distance(f: Faces, similarity: real): real {
    Clipped(f.complement(similarity))
  }

  /** The cross-identity similarities of row `i`, from column `j` on: pairs above the diagonal only. */
  function RowSimilarities(f: Faces, i: nat, j: nat): seq<real>
    requires f.Valid() && i < |f.identities| && j <= |f.identities|
    decreases |f.identities| - j
  {
    if j == |f.identities| then []
    else (if j > i && f.identities[i] != f.identities[j] then [f.similarities[i][j]] else [])
         + RowSimilarities(f, i, j + 1)
  }

  /** The cross-identity similarities of the rows from `start` up to `stop`. */
  function Similarities(f: Faces, start: nat, stop: nat): seq<real>
    requires f.Valid() && start <= stop <= |f.identities|
    decreases stop - start
  {
    if start == stop then [] else RowSimilarities(f, start, 0) + Similarities(f, start + 1, stop)
  }

  function AllSimilarities(f: Faces): seq<real>
    requires f.Valid()
  {
    Similarities(f, 0, |f.identities|)
  }

  function DistancesOf(f: Faces, s: seq<real>): (r: seq<real>)
    ensures |r| == |s|
  {
    seq(|s|, k requires 0 <= k < |s| => Distance(f, s[k]))
  }

  function Distances(f: Faces, start: nat, stop: nat): seq<real>
    requires f.Valid() && start <= stop <= |f.identities|
  {
    DistancesOf(f, Similarities(f, start, stop))
  }

  function AllDistances(f: Faces): seq<real>
    requires f.Valid()
  {
    Distances(f, 0, |f.identities|)
  }

  // ------------------------------------------------------------- the smallest few

  function Min(a: nat, b: nat): nat { if a < b then a else b }

  /** `part` holds the `k` smallest elements of `all`, or all of them when there are fewer. */
  ghost predicate IsSmallest(part: multiset<real>, all: multiset<real>, k: nat) {
    && part <= all
    && |part| == Min(k, |all|)
    && forall x, y :: x in part && y in all - part ==> x <= y
  }

  /** The smallest few are unique. */
  lemma SmallestIsUnique(s: multiset<real>, t: multiset<real>, all: multiset<real>, k: nat)
    requires IsSmallest(s, all, k) && IsSmallest(t, all, k)
    ensures s == t
  {
    forall x | x in s - t ensures x in s && x in all - t {}
    forall y | y in t - s ensures y in t && y in all - s {}
    if s - t != multiset{} && t - s != multiset{} {
      var x := Element(s - t);
      var y := Element(t - s);
    }
    Sizes(s, t);
  }

  lemma Element<T>(m: multiset<T>) returns (x: T)
    requires m != multiset{}
    ensures x in m
  {
    x :| x in m;
  }

  /** Multisets of one size differ in both directions or not at all. */
  lemma Sizes(s: multiset<real>, t: multiset<real>)
    requires |s| == |t|
    ensures s - t == multiset{} <==> s == t
    ensures t - s == multiset{} <==> s == t
  {
    assert s == (s * t) + (s - t);
    assert t == (s * t) + (t - s);
    assert |s| == |s * t| + |s - t| && |t| == |s * t| + |t - s|;
  }

  /** Selecting block by block selects the smallest of everything. */
  lemma SmallestOfUnion(s: multiset<real>, a: multiset<real>, b: multiset<real>, u: multiset<real>, k: nat)
    requires IsSmallest(s, a, k) && IsSmallest(u, s + b, k)
    ensures IsSmallest(u, a + b, k)
  {
    assert |s + b| == |s| + |b| && |a + b| == |a| + |b|;
    assert a + b - u == (s + b - u) + (a - s);
    assert |a| == |s| + |a - s| by { assert a == s + (a - s); }
    forall x, y | x in u && y in a + b - u ensures x <= y {
      if y !in s + b - u && x !in s {
        assert y in a - s && |s| == k && |u| == k;
        assert u - s != multiset{} by { assert x in u - s; }
        Sizes(s, u);
        var z := Element(s - u);
        assert z in s + b - u;
        assert x <= z <= y;
      }
    }
  }

  lemma SmallestOfItself(all: multiset<real>, k: nat)
    requires |all| <= k
    ensures IsSmallest(all, all, k)
  {}

  method SmallestIndex(s: seq<real>) returns (m: nat)
    requires s != []
    ensures m < |s| && forall x :: x in s ==> s[m] <= x
  {
    m := 0;
    for i := 1 to |s|
      invariant m < |s|
      invariant forall j :: 0 <= j < i ==> s[m] <= s[j]
    {
      if s[i] < s[m] { m := i; }
    }
  }

  /** Stands in for the library's partition: the `k` smallest of a sequence, in any order. */
  method Partition(s: seq<real>, k: nat) returns (r: seq<real>)
    requires k <= |s|
    ensures IsSmallest(multiset(r), multiset(s), k) && |r| == k
  {
    r := [];
    var rest := s;
    while |r| < k
      invariant |r| <= k && |r| + |rest| == |s|
      invariant IsSplit(multiset(r), multiset(rest), multiset(s))
    {
      var m := SmallestIndex(rest);
      var next := rest[m];
      TakeOut(rest, m);
      ghost var left := multiset(rest);
      rest := rest[..m] + rest[m + 1..];
      MoveSmallest(multiset(r), left, multiset(rest), next, multiset(s));
      r := r + [next];
    }
    assert multiset(s) - multiset(r) == multiset(rest);
  }

  /** Everything in `low` is at most everything in `high`. */
  ghost predicate IsSplit(low: multiset<real>, high: multiset<real>, all: multiset<real>) {
    low + high == all && forall x, y :: x in low && y in high ==> x <= y
  }

  lemma MoveSmallest(low: multiset<real>, high: multiset<real>, high': multiset<real>, next: real, all: multiset<real>)
    requires IsSplit(low, high, all) && next in high && forall x :: x in high ==> next <= x
    requires high == multiset{next} + high'
    ensures IsSplit(low + multiset{next}, high', all)
  {
    forall x, y | x in low + multiset{next} && y in high' ensures x <= y {
      assert y in high;
    }
  }

  lemma TakeOut(s: seq<real>, m: nat)
    requires m < |s|
    ensures multiset(s) == multiset{s[m]} + multiset(s[..m] + s[m + 1..])
    ensures forall x :: x in multiset(s) <==> x in s
  {
    assert s == s[..m] + [s[m]] + s[m + 1..];
  }

  lemma {:induction false} SimilaritiesJoin(f: Faces, start: nat, middle: nat, stop: nat)
    requires f.Valid() && start <= middle <= stop <= |f.identities|
    ensures Similarities(f, start, stop) == Similarities(f, start, middle) + Similarities(f, middle, stop)
    decreases middle - start
  {
    if start < middle {
      SimilaritiesJoin(f, start + 1, middle, stop);
    }
  }

  lemma DistancesJoin(f: Faces, start: nat, middle: nat, stop: nat)
    requires f.Valid() && start <= middle <= stop <= |f.identities|
    ensures Distances(f, start, stop) == Distances(f, start, middle) + Distances(f, middle, stop)
  {
    hide Similarities;
    SimilaritiesJoin(f, start, middle, stop);
  }

  /** The `count` smallest cross-identity distances, block of rows by block of rows; nothing when there
      are fewer. */
  method ClosestNegativeDistances(f: Faces, count: nat, blockSize: nat) returns (r: Option<seq<real>>)
    requires f.Valid() && blockSize > 0
    ensures r.None? <==> |AllDistances(f)| < count
    ensures r.Some? ==> |r.value| == count && IsSmallest(multiset(r.value), multiset(AllDistances(f)), count)
  {
    var n := |f.identities|;
    var closest: seq<real> := [];
    var start := 0;
    while start < n
      invariant start <= n
      invariant IsSmallest(multiset(closest), multiset(Distances(f, 0, start)), count)
      decreases n - start
    {
      var stop := if start + blockSize < n then start + blockSize else n;
      var block := Distances(f, start, stop);
      var distances := block;
      if |distances| > count {
        distances := Partition(distances, count);
      } else {
        SmallestOfItself(multiset(block), count);
      }
      ghost var before := closest;
      closest := closest + distances;
      ghost var joined := closest;
      if |closest| > count {
        closest := Partition(closest, count);
      } else {
        SmallestOfItself(multiset(closest), count);
      }
      DistancesJoin(f, 0, start, stop);
      BlockSelected(multiset(before), multiset(Distances(f, 0, start)), multiset(distances), multiset(block),
                    multiset(closest), count);
      start := stop;
    }
    if |closest| < count {
      return None;
    }
    return Some(closest);
  }

  /** One block: its own smallest, joined with the smallest so far. */
  lemma BlockSelected(s: multiset<real>, a: multiset<real>, t: multiset<real>, b: multiset<real>, u: multiset<real>, k: nat)
    requires IsSmallest(s, a, k) && IsSmallest(t, b, k) && IsSmallest(u, s + t, k)
    ensures IsSmallest(u, a + b, k)
  {
    hide IsSmallest;
    assert s + t == t + s;
    SmallestOfUnion(t, b, s, u, k);
    assert b + s == s + b;
    SmallestOfUnion(s, a, b, u, k);
  }

  /** The block size has no influence on what is selected. */
  lemma SelectionIsIndependentOfBlocks(f: Faces, count: nat, r: seq<real>, r': seq<real>)
    requires f.Valid()
    requires IsSmallest(multiset(r), multiset(AllDistances(f)), count)
    requires IsSmallest(multiset(r'), multiset(AllDistances(f)), count)
    ensures multiset(r) == multiset(r')
  {
    SmallestIsUnique(multiset(r), multiset(r'), multiset(AllDistances(f)), count);
  }

  // ------------------------------------------------------------- counting pairs

  function PairsOf(n: nat): nat { n * (n - 1) / 2 }

  /** Pairs within one identity. */
  function SamePairs(identities: seq<int>): map<int, nat> {
    map x | x in Labels(identities) :: PairsOf(multiset(identities)[x])
  }

  function Labels(identities: seq<int>): set<int> {
    set i | 0 <= i < |identities| :: identities[i]
  }

  /** All pairs, less the pairs within each identity. */
  ghost function NegativeComparisonCount(identities: seq<int>): int {
    PairsOf(|identities|) - Total(SamePairs(identities).Keys, SamePairs(identities))
  }

  /** How many of `rest` differ from `identity`. */
  function Differing(identity: int, rest: seq<int>): nat {
    if rest == [] then 0 else (if rest[0] != identity then 1 else 0) + Differing(identity, rest[1..])
  }

  /** The cross-identity pairs, counted one by one. */
  function CrossPairs(identities: seq<int>): nat {
    if identities == [] then 0 else Differing(identities[0], identities[1..]) + CrossPairs(identities[1..])
  }

  lemma {:induction false} DifferingCount(identity: int, rest: seq<int>)
    ensures Differing(identity, rest) == |rest| - multiset(rest)[identity]
    decreases |rest|
  {
    if rest != [] {
      DifferingCount(identity, rest[1..]);
      assert rest == [rest[0]] + rest[1..];
      assert multiset(rest) == multiset{rest[0]} + multiset(rest[1..]);
    }
  }

  lemma OneMorePair(n: nat)
    ensures PairsOf(n + 1) == PairsOf(n) + n
  {
    assert (n + 1) * n == n * (n - 1) + 2 * n;
  }

  lemma LabelsGrow(a: int, rest: seq<int>)
    ensures Labels([a] + rest) == Labels(rest) + {a}
    ensures a in Labels(rest) <==> multiset(rest)[a] > 0
    ensures forall x :: multiset([a] + rest)[x] == multiset(rest)[x] + if x == a then 1 else 0
  {
    var all := [a] + rest;
    assert all[0] == a && forall i :: 0 <= i < |rest| ==> all[i + 1] == rest[i];
    forall x ensures x in Labels(all) <==> x in Labels(rest) + {a} {
      if x in Labels(rest) {
        var i :| 0 <= i < |rest| && rest[i] == x;
        assert all[i + 1] == x;
      }
    }
    assert a in multiset(rest) <==> a in rest;
  }

  /** One more face of an identity makes as many more pairs as the identity had faces. */
  lemma SamePairsGrow(a: int, rest: seq<int>)
    ensures
      var now, before := SamePairs([a] + rest), SamePairs(rest);
      Total(now.Keys, now) == Total(before.Keys, before) + multiset(rest)[a]
  {
    hide Total, PairsOf, Labels;
    var now, before := SamePairs([a] + rest), SamePairs(rest);
    LabelsGrow(a, rest);
    OneMorePair(multiset(rest)[a]);
    TotalTakesOut(now.Keys, now, a);
    TotalFrame(now.Keys - {a}, now, before);
    if a in before {
      TotalTakesOut(before.Keys, before, a);
      assert now.Keys - {a} == before.Keys - {a};
    } else {
      NoPairs();
      assert now.Keys - {a} == before.Keys;
    }
  }

  lemma NoPairs()
    ensures PairsOf(0) == PairsOf(1) == 0
  {}

  /** The closed form counts the cross-identity pairs. */
  lemma {:induction false} ClosedFormCounts(identities: seq<int>)
    ensures NegativeComparisonCount(identities) == CrossPairs(identities)
    decreases |identities|
  {
    if identities == [] {
      assert SamePairs(identities).Keys == {};
    } else {
      var a, rest := identities[0], identities[1..];
      assert identities == [a] + rest;
      ClosedFormCounts(rest);
      SamePairsGrow(a, rest);
      DifferingCount(a, rest);
      OneMorePair(|rest|);
    }
  }

  lemma {:induction false} RowLength(f: Faces, i: nat, j: nat)
    requires f.Valid() && i < j <= |f.identities|
    ensures |RowSimilarities(f, i, j)| == Differing(f.identities[i], f.identities[j..])
    decreases |f.identities| - j
  {
    if j < |f.identities| {
      RowLength(f, i, j + 1);
      assert f.identities[j..][1..] == f.identities[j + 1..];
    }
  }

  lemma {:induction false} RowStart(f: Faces, i: nat, j: nat)
    requires f.Valid() && j <= i < |f.identities|
    ensures RowSimilarities(f, i, j) == RowSimilarities(f, i, i + 1)
    decreases i - j
  {
    if j < i {
      RowStart(f, i, j + 1);
    }
  }

  /** There is one distance for each cross-identity pair. */
  lemma {:induction false} DistancesLength(f: Faces, start: nat)
    requires f.Valid() && start <= |f.identities|
    ensures |Distances(f, start, |f.identities|)| == CrossPairs(f.identities[start..])
    decreases |f.identities| - start
  {
    if start < |f.identities| {
      RowStart(f, start, 0);
      RowLength(f, start, start + 1);
      DistancesLength(f, start + 1);
      assert f.identities[start..][1..] == f.identities[start + 1..];
    }
  }

  /** The closed form is the number of distances that the selection works on. */
  lemma ComparisonsAreDistances(f: Faces)
    requires f.Valid()
    ensures NegativeComparisonCount(f.identities) == |AllDistances(f)|
  {
    ClosedFormCounts(f.identities);
    DistancesLength(f, 0);
    assert f.identities[0..] == f.identities;
  }

  /** Faces `i` and `k` belong to different people, and are similar by `x`. */
  predicate IsCrossPair(f: Faces, i: nat, k: nat, x: real)
    requires f.Valid()
  {
    i < k < |f.identities| && f.identities[i] != f.identities[k] && f.similarities[i][k] == x
  }

  /** The later faces, from `j` on, that make such a pair with face `i`. */
  ghost function Partners(f: Faces, i: nat, j: nat, x: real): set<nat>
    requires f.Valid()
  {
    set k: nat | j <= k < |f.identities| && IsCrossPair(f, i, k, x)
  }

  lemma {:induction false} RowHoldsPartners(f: Faces, i: nat, j: nat, x: real)
    requires f.Valid() && i < |f.identities| && j <= |f.identities|
    ensures multiset(RowSimilarities(f, i, j))[x] == |Partners(f, i, j, x)|
    decreases |f.identities| - j
  {
    if j == |f.identities| {
      assert Partners(f, i, j, x) == {};
    } else {
      RowHoldsPartners(f, i, j + 1, x);
      var head := if j > i && f.identities[i] != f.identities[j] then [f.similarities[i][j]] else [];
      assert multiset(RowSimilarities(f, i, j)) == multiset(head) + multiset(RowSimilarities(f, i, j + 1));
      NextPartner(f, i, j, x);
    }
  }

  lemma NextPartner(f: Faces, i: nat, j: nat, x: real)
    requires f.Valid() && j < |f.identities|
    ensures |Partners(f, i, j, x)| == |Partners(f, i, j + 1, x)| + if IsCrossPair(f, i, j, x) then 1 else 0
  {
    hide IsCrossPair;
    assert Partners(f, i, j, x) == Partners(f, i, j + 1, x) + if IsCrossPair(f, i, j, x) then {j} else {};
  }

  /** The number of pairs whose earlier face is one of the first `stop`. */
  ghost function CrossPairsUpTo(f: Faces, stop: nat, x: real): nat
    requires f.Valid() && stop <= |f.identities|
  {
    if stop == 0 then 0 else CrossPairsUpTo(f, stop - 1, x) + |Partners(f, stop - 1, 0, x)|
  }

  /** What is selected from are the similarities of all pairs of faces of different people, each pair once: a value is
      there as often as there are such pairs. */
  lemma {:induction false} SimilaritiesArePairs(f: Faces, stop: nat, x: real)
    requires f.Valid() && stop <= |f.identities|
    ensures multiset(Similarities(f, 0, stop))[x] == CrossPairsUpTo(f, stop, x)
  {
    if stop > 0 {
      var i := stop - 1;
      SimilaritiesArePairs(f, i, x);
      SimilaritiesJoin(f, 0, i, stop);
      OneRow(f, i);
      RowHoldsPartners(f, i, 0, x);
      hide Similarities, RowSimilarities;
      assert multiset(Similarities(f, 0, stop)) == multiset(Similarities(f, 0, i)) + multiset(RowSimilarities(f, i, 0));
    }
  }

  // ------------------------------------------------------------- accepting distances

  /** How many of the distances are at most `t`. */
  function CountUpTo(s: seq<real>, t: real): nat {
    if s == [] then 0 else (if s[0] <= t then 1 else 0) + CountUpTo(s[1..], t)
  }

  lemma {:induction false} CountJoins(a: seq<real>, b: seq<real>, t: real)
    ensures CountUpTo(a + b, t) == CountUpTo(a, t) + CountUpTo(b, t)
    decreases |a|
  {
    if a == [] {
      assert a + b == b;
    } else {
      assert (a + b)[1..] == a[1..] + b;
      CountJoins(a[1..], b, t);
    }
  }

  function Removed(s: seq<real>, i: nat): seq<real>
    requires i < |s|
  {
    s[..i] + s[i + 1..]
  }

  lemma CountWithoutOne(s: seq<real>, i: nat, t: real)
    requires i < |s|
    ensures CountUpTo(s, t) == (if s[i] <= t then 1 else 0) + CountUpTo(Removed(s, i), t)
  {
    CountJoins(s[..i], s[i..], t);
    CountJoins(s[..i], s[i + 1..], t);
    assert s == s[..i] + s[i..];
  }

  lemma MultisetWithoutOne(s: seq<real>, i: nat)
    requires i < |s|
    ensures multiset(Removed(s, i)) == multiset(s) - multiset{s[i]}
  {
    TakeOut(s, i);
  }

  /** Counting does not depend on the order. */
  lemma {:induction false} CountOfPermutation(a: seq<real>, b: seq<real>, t: real)
    requires multiset(a) == multiset(b)
    ensures CountUpTo(a, t) == CountUpTo(b, t)
    decreases |a|
  {
    if a == [] {
      assert |multiset(b)| == 0;
    } else {
      hide Removed, CountUpTo;
      assert a[0] in multiset(b);
      var i :| 0 <= i < |b| && b[i] == a[0];
      MultisetWithoutOne(a, 0);
      MultisetWithoutOne(b, i);
      CountWithoutOne(a, 0, t);
      CountWithoutOne(b, i, t);
      assert |Removed(a, 0)| < |a| by { SizeWithoutOne(a); }
      CountOfPermutation(Removed(a, 0), Removed(b, i), t);
    }
  }

  lemma SizeWithoutOne(s: seq<real>)
    requires s != []
    ensures |Removed(s, 0)| < |s|
  {}

  /** How many of the similarities reach the limit. */
  function CountFrom(s: seq<real>, limit: real): nat {
    if s == [] then 0 else (if s[0] >= limit then 1 else 0) + CountFrom(s[1..], limit)
  }

  lemma {:induction false} CountFromJoins(a: seq<real>, b: seq<real>, limit: real)
    ensures CountFrom(a + b, limit) == CountFrom(a, limit) + CountFrom(b, limit)
    decreases |a|
  {
    if a == [] {
      assert a + b == b;
    } else {
      assert (a + b)[1..] == a[1..] + b;
      CountFromJoins(a[1..], b, limit);
    }
  }

  lemma CountFromWithoutOne(s: seq<real>, i: nat, limit: real)
    requires i < |s|
    ensures CountFrom(s, limit) == (if s[i] >= limit then 1 else 0) + CountFrom(Removed(s, i), limit)
  {
    CountFromJoins(s[..i], s[i..], limit);
    CountFromJoins(s[..i], s[i + 1..], limit);
    assert s == s[..i] + s[i..];
  }

  lemma {:induction false} CountFromFalls(s: seq<real>, limit: real, higher: real)
    requires limit <= higher
    ensures CountFrom(s, higher) <= CountFrom(s, limit) <= |s|
    ensures limit < higher ==> CountFrom(s, higher) <= |s| - CountUpTo(s, limit)
    decreases |s|
  {
    if s != [] { CountFromFalls(s[1..], limit, higher); }
  }

  lemma {:induction false} CountBounds(s: seq<real>, t: real)
    ensures CountUpTo(s, t) <= |s|
    ensures (forall x :: x in s ==> x <= t) ==> CountUpTo(s, t) == |s|
    ensures (forall x :: x in s ==> x > t) ==> CountUpTo(s, t) == 0
    decreases |s|
  {
    if s != [] {
      assert s[0] in s && forall x :: x in s[1..] ==> x in s;
      CountBounds(s[1..], t);
    }
  }

  lemma {:induction false} SequenceOf(m: multiset<real>) returns (s: seq<real>)
    ensures multiset(s) == m
    decreases |m|
  {
    if m == multiset{} {
      s := [];
    } else {
      var x := Element(m);
      var rest := SequenceOf(m - multiset{x});
      s := [x] + rest;
    }
  }

  lemma CountBelowLargest(s: seq<real>, first: real, t: real)
    requires first in s && forall x :: x in s ==> x <= first
    ensures t < first ==> CountUpTo(s, t) < |s|
    ensures t >= first ==> CountUpTo(s, t) == |s|
  {
    var i :| 0 <= i < |s| && s[i] == first;
    CountWithoutOne(s, i, t);
    CountBounds(Removed(s, i), t);
    CountBounds(s, t);
  }

  lemma CountSplit(all: seq<real>, part: seq<real>, t: real) returns (rest: seq<real>)
    requires multiset(part) <= multiset(all)
    ensures multiset(rest) == multiset(all) - multiset(part)
    ensures CountUpTo(all, t) == CountUpTo(part, t) + CountUpTo(rest, t)
  {
    rest := SequenceOf(multiset(all) - multiset(part));
    assert multiset(part + rest) == multiset(all);
    CountOfPermutation(all, part + rest, t);
    CountJoins(part, rest, t);
  }

  /** With the k + 1 smallest selected and `first` the largest of them: below `first` at most k distances
      are accepted, from `first` on more than k. */
  lemma SelectionBounds(all: seq<real>, closest: seq<real>, k: nat, first: real, t: real)
    requires IsSmallest(multiset(closest), multiset(all), k + 1) && |closest| == k + 1
    requires first in closest && forall x :: x in closest ==> x <= first
    ensures t < first ==> CountUpTo(all, t) <= k
    ensures t >= first ==> CountUpTo(all, t) > k
  {
    hide CountUpTo;
    var rest := CountSplit(all, closest, t);
    CountBelowLargest(closest, first, t);
    forall y | y in rest ensures first <= y {
      assert first in multiset(closest) && y in multiset(rest);
    }
    CountBounds(rest, t);
  }

  // ------------------------------------------------------------- the threshold

  /** The numbers that a distance can be, and the next one below each of them. */
  ghost predicate IsGrid(representable: iset<real>, below: real -> real) {
    && 0.0 in representable && 2.0 in representable
    && forall x :: x in representable ==>
         below(x) < x && forall y :: y in representable && y < x ==> y <= below(x)
  }

  method Largest(s: seq<real>) returns (m: real)
    requires s != []
    ensures m in s && forall x :: x in s ==> x <= m
  {
    m := s[0];
    for i := 1 to |s|
      invariant m in s && forall j :: 0 <= j < i ==> s[j] <= m
    {
      if s[i] > m { m := s[i]; }
    }
  }

  /** The allowed number of false accepts, from a number of comparisons times the rate as computed. */
  function AllowedAccepts(comparisons: nat, scaled: nat -> real): (allowed: nat)
    requires scaled(comparisons) >= 0.0
    ensures allowed as real <= scaled(comparisons) < allowed as real + 1.0
  {
    scaled(comparisons).Floor
  }

  /** Counts each identity once, as the library's unique counts do. */
  method CountNegativeComparisons(identities: seq<int>) returns (n: int)
    ensures n == NegativeComparisonCount(identities)
  {
    var same := SamePairs(identities);
    var sum := SumUp(same.Keys, same);
    n := PairsOf(|identities|) - sum;
  }

  /** The first similarity over the allowance: at most `allowed` are larger, more than that reach it. */
  ghost predicate IsRejected(s: seq<real>, x: real, allowed: nat) {
    x in s && |s| - CountUpTo(s, x) <= allowed < CountFrom(s, x)
  }

  /** There is one, unless all are allowed. */
  lemma {:induction false} FirstRejected(s: seq<real>, allowed: nat) returns (x: real)
    requires allowed < |s|
    ensures IsRejected(s, x, allowed)
    decreases |s|
  {
    var i := IndexOfLargest(s);
    CountBounds(s, s[i]);
    CountFromWithoutOne(s, i, s[i]);
    x := s[i];
    if allowed > 0 {
      x := FirstRejected(Removed(s, i), allowed - 1);
      CountWithoutOne(s, i, x);
      CountFromWithoutOne(s, i, x);
    }
  }

  lemma {:induction false} IndexOfLargest(s: seq<real>) returns (i: nat)
    requires s != []
    ensures i < |s| && forall y :: y in s ==> y <= s[i]
  {
    if |s| == 1 {
      i := 0;
    } else {
      var j := IndexOfLargest(s[1..]);
      i := if s[0] >= s[j + 1] then 0 else j + 1;
      forall y | y in s ensures y <= s[i] {
        assert y == s[0] || y in s[1..];
      }
    }
  }

  /** The first rejected similarity is the only one with at most so many above it. */
  lemma CountedIff(s: seq<real>, x: real, allowed: nat, limit: real)
    requires IsRejected(s, x, allowed)
    ensures CountFrom(s, limit) <= allowed <==> x < limit
  {
    if limit <= x { CountFromFalls(s, limit, x); } else { CountFromFalls(s, x, limit); }
  }

  /** More similar faces are computed to be no farther apart. */
  ghost predicate IsAntitone(f: Faces, s: seq<real>) {
    forall x, y :: x in s && y in s && x <= y ==> f.complement(x) >= f.complement(y)
  }

  lemma {:induction false} CloserThan(f: Faces, s: seq<real>, x: real, t: real)
    requires forall y :: y in s && y >= x ==> Distance(f, y) <= t
    ensures CountUpTo(DistancesOf(f, s), t) >= CountFrom(s, x)
    decreases |s|
  {
    if s != [] {
      assert s[0] in s && forall y :: y in s[1..] ==> y in s;
      CloserThan(f, s[1..], x, t);
      assert DistancesOf(f, s)[1..] == DistancesOf(f, s[1..]);
    }
  }

  lemma {:induction false} FartherThan(f: Faces, s: seq<real>, x: real, t: real)
    requires forall y :: y in s && y <= x ==> Distance(f, y) > t
    ensures CountUpTo(DistancesOf(f, s), t) <= |s| - CountUpTo(s, x)
    decreases |s|
  {
    if s != [] {
      assert s[0] in s && forall y :: y in s[1..] ==> y in s;
      FartherThan(f, s[1..], x, t);
      assert DistancesOf(f, s)[1..] == DistancesOf(f, s[1..]);
    }
  }

  /** The distance of the first rejected similarity is the first rejected distance. */
  lemma RejectedDistance(f: Faces, s: seq<real>, x: real, allowed: nat, t: real)
    requires IsAntitone(f, s) && IsRejected(s, x, allowed)
    ensures CountUpTo(DistancesOf(f, s), t) <= allowed <==> t < Distance(f, x)
  {
    if t < Distance(f, x) { FartherThan(f, s, x, t); } else { CloserThan(f, s, x, t); }
  }

  lemma RejectedIsFirst(f: Faces, allowed: nat, first: real)
    requires f.Valid()
    requires forall t ::
      if t < first then CountUpTo(AllDistances(f), t) <= allowed else CountUpTo(AllDistances(f), t) > allowed
    ensures IsAntitone(f, AllSimilarities(f)) ==>
      forall x :: IsRejected(AllSimilarities(f), x, allowed) ==> Distance(f, x) == first
  {
    hide AllSimilarities, CountUpTo, IsRejected, IsAntitone, Distance;
    forall x | IsAntitone(f, AllSimilarities(f)) && IsRejected(AllSimilarities(f), x, allowed)
      ensures Distance(f, x) == first
    {
      assert AllDistances(f) == DistancesOf(f, AllSimilarities(f)) by { AllAreDistances(f); }
      RejectedDistance(f, AllSimilarities(f), x, allowed, first);
      RejectedDistance(f, AllSimilarities(f), x, allowed, Distance(f, x));
    }
  }

  lemma AllAreDistances(f: Faces)
    requires f.Valid()
    ensures AllDistances(f) == DistancesOf(f, AllSimilarities(f))
  {}

  /** The largest number on the grid that accepts at most `allowed` distances. */
  method ThresholdFor(f: Faces, allowed: nat, blockSize: nat, ghost representable: iset<real>, below: real -> real)
    returns (threshold: real)
    requires f.Valid() && blockSize > 0 && allowed < |AllDistances(f)|
    requires IsGrid(representable, below) && forall d :: d in AllDistances(f) ==> d in representable
    ensures CountUpTo(AllDistances(f), threshold) <= allowed
    ensures forall t :: t in representable && t > threshold ==> CountUpTo(AllDistances(f), t) > allowed
    ensures IsAntitone(f, AllSimilarities(f)) ==>
      forall x :: IsRejected(AllSimilarities(f), x, allowed) ==> threshold == below(Distance(f, x))
  {
    hide IsSmallest, CountUpTo, AllDistances, AllSimilarities, IsRejected, IsAntitone, Distance;
    var closest := ClosestNegativeDistances(f, allowed + 1, blockSize);
    var first := Largest(closest.value);
    SelectedIsDistance(AllDistances(f), closest.value, allowed + 1, first);
    SelectionBoundsEverywhere(AllDistances(f), closest.value, allowed, first);
    RejectedIsFirst(f, allowed, first);
    threshold := below(first);
  }

  /** The calibrated threshold accepts at most the allowed number of cross-identity pairs, and every larger
      number on the grid accepts more: it is the next number below the distance of the first rejected pair. It is
      2 when every pair may be accepted, negative when too many pairs have no distance at all, and there is none
      without cross-identity pairs. */
  method ThresholdForFalseAcceptRate(
    f: Faces, scaled: nat -> real, blockSize: nat, ghost representable: iset<real>, below: real -> real)
    returns (threshold: Option<real>)
    requires f.Valid() && blockSize > 0 && scaled(|AllDistances(f)|) >= 0.0
    requires IsGrid(representable, below) && forall d :: d in AllDistances(f) ==> d in representable
    ensures threshold.None? <==> AllDistances(f) == []
    ensures threshold.Some? ==>
      var n := |AllDistances(f)|;
      var allowed := AllowedAccepts(n, scaled);
      && CountUpTo(AllDistances(f), threshold.value) <= allowed
      && (allowed >= n ==> threshold.value == 2.0)
      && (threshold.value < 0.0 <==> CountUpTo(AllDistances(f), 0.0) > allowed)
      && (allowed < n ==> forall t :: t in representable && t > threshold.value ==> CountUpTo(AllDistances(f), t) > allowed)
      && (allowed < n && IsAntitone(f, AllSimilarities(f)) ==>
            forall x :: IsRejected(AllSimilarities(f), x, allowed) ==> threshold.value == below(Distance(f, x)))
  {
    hide CountUpTo, AllDistances, AllSimilarities, IsRejected, IsAntitone, Distance;
    var n := CountNegativeComparisons(f.identities);
    ComparisonsAreDistances(f);
    if n < 1 {
      return None;
    }
    var allowed := AllowedAccepts(n, scaled);
    if allowed >= n {
      CountBounds(AllDistances(f), 2.0);
      CountBounds(AllDistances(f), 0.0);
      return Some(2.0);
    }
    var found := ThresholdFor(f, allowed, blockSize, representable, below);
    NegativeIff(AllDistances(f), allowed, found, representable);
    return Some(found);
  }

  lemma {:induction false} CountGrows(s: seq<real>, t: real, u: real)
    requires t <= u
    ensures CountUpTo(s, t) <= CountUpTo(s, u)
    decreases |s|
  {
    if s != [] { CountGrows(s[1..], t, u); }
  }

  lemma NegativeIff(all: seq<real>, allowed: nat, t: real, representable: iset<real>)
    requires CountUpTo(all, t) <= allowed && 0.0 in representable
    requires forall u :: u in representable && u > t ==> CountUpTo(all, u) > allowed
    ensures t < 0.0 <==> CountUpTo(all, 0.0) > allowed
  {
    if t >= 0.0 { CountGrows(all, 0.0, t); }
  }

  lemma SelectionBoundsEverywhere(all: seq<real>, closest: seq<real>, k: nat, first: real)
    requires IsSmallest(multiset(closest), multiset(all), k + 1) && |closest| == k + 1
    requires first in closest && forall x :: x in closest ==> x <= first
    ensures forall t :: if t < first then CountUpTo(all, t) <= k else CountUpTo(all, t) > k
  {
    forall t ensures if t < first then CountUpTo(all, t) <= k else CountUpTo(all, t) > k {
      SelectionBounds(all, closest, k, first, t);
    }
  }

  lemma SelectedIsDistance(all: seq<real>, closest: seq<real>, k: nat, x: real)
    requires IsSmallest(multiset(closest), multiset(all), k) && x in closest
    ensures x in all
  {
    assert x in multiset(closest);
    assert x in multiset(all);
  }

  // ------------------------------------------------------------- measuring with a threshold

  /** The later faces of other identities that are at least as similar to face `i` as the limit says. */
  function RowMatches(f: Faces, i: nat, j: nat, limit: real): nat
    requires f.Valid() && i < j <= |f.identities|
    decreases |f.identities| - j
  {
    if j == |f.identities| then 0
    else (if f.identities[j] != f.identities[i] && f.similarities[i][j] >= limit then 1 else 0)
         + RowMatches(f, i, j + 1, limit)
  }

  function Matches(f: Faces, stop: nat, limit: real): nat
    requires f.Valid() && stop <= |f.identities|
  {
    if stop == 0 then 0 else Matches(f, stop - 1, limit) + RowMatches(f, stop - 1, stop, limit)
  }

  lemma {:induction false} RowMatchesAreCounted(f: Faces, i: nat, j: nat, limit: real)
    requires f.Valid() && i < j <= |f.identities|
    ensures RowMatches(f, i, j, limit) == CountFrom(RowSimilarities(f, i, j), limit)
    decreases |f.identities| - j
  {
    if j < |f.identities| {
      RowMatchesAreCounted(f, i, j + 1, limit);
      var head := if f.identities[i] != f.identities[j] then [f.similarities[i][j]] else [];
      CountFromJoins(head, RowSimilarities(f, i, j + 1), limit);
    }
  }

  lemma OneRow(f: Faces, i: nat)
    requires f.Valid() && i < |f.identities|
    ensures Similarities(f, i, i + 1) == RowSimilarities(f, i, 0)
  {
    assert Similarities(f, i + 1, i + 1) == [];
  }

  /** Measuring counts the cross-identity similarities that reach the limit. */
  lemma {:induction false} MatchesAreCounted(f: Faces, stop: nat, limit: real)
    requires f.Valid() && stop <= |f.identities|
    ensures Matches(f, stop, limit) == CountFrom(Similarities(f, 0, stop), limit)
  {
    if stop > 0 {
      var i := stop - 1;
      MatchesAreCounted(f, i, limit);
      RowStart(f, i, 0);
      RowMatchesAreCounted(f, i, stop, limit);
      SimilaritiesJoin(f, 0, i, stop);
      OneRow(f, i);
      CountFromJoins(Similarities(f, 0, i), RowSimilarities(f, i, stop), limit);
    }
  }

  /** Main result: with `x` the first rejected similarity, what is measured at the calibrated threshold stays
      within the allowance exactly when the limit computed from that threshold comes back above `x`. */
  lemma MeasuredWithinIff(f: Faces, allowed: nat, x: real, threshold: real)
    requires f.Valid() && IsRejected(AllSimilarities(f), x, allowed)
    ensures Matches(f, |f.identities|, f.limit(threshold)) <= allowed <==> x < f.limit(threshold)
  {
    MatchesAreCounted(f, |f.identities|, f.limit(threshold));
    CountedIff(AllSimilarities(f), x, allowed, f.limit(threshold));
  }

  /** Subtraction without rounding. */
  ghost predicate IsExact(f: Faces) {
    forall x :: f.complement(x) == f.limit(x) == 1.0 - x
  }

  /** Without rounding the limit comes back above every similarity up to one, and above a larger one exactly when
      it exceeds one by less than the next number below zero is below zero. */
  lemma ExactSubtractionIff(f: Faces, allowed: nat, x: real, below: real -> real)
    requires f.Valid() && IsExact(f) && IsRejected(AllSimilarities(f), x, allowed)
    requires forall d :: below(d) < d
    ensures
      Matches(f, |f.identities|, f.limit(below(Distance(f, x)))) <= allowed <==> x <= 1.0 || x - 1.0 < 0.0 - below(0.0)
  {
    MeasuredWithinIff(f, allowed, x, below(Distance(f, x)));
  }

  lemma {:induction false} CountAgrees(f: Faces, s: seq<real>, t: real)
    requires IsExact(f) && 0.0 <= t < 2.0
    ensures CountFrom(s, f.limit(t)) == CountUpTo(DistancesOf(f, s), t)
    decreases |s|
  {
    if s != [] {
      CountAgrees(f, s[1..], t);
      assert DistancesOf(f, s)[1..] == DistancesOf(f, s[1..]);
    }
  }

  /** A negative threshold accepts no distance, one from 2 on accepts all. */
  lemma CountOutside(f: Faces, t: real)
    requires f.Valid()
    ensures t < 0.0 ==> CountUpTo(AllDistances(f), t) == 0
    ensures t >= 2.0 ==> CountUpTo(AllDistances(f), t) == |AllDistances(f)|
  {
    hide Similarities;
    assert forall d :: d in AllDistances(f) ==> 0.0 <= d <= 2.0;
    CountBounds(AllDistances(f), t);
  }

  /** Counts the accepted cross-identity pairs, block of rows by block of rows. */
  method NegativeMatches(f: Faces, maximumDistance: real, blockSize: nat) returns (comparisons: int, falseAccepts: nat)
    requires f.Valid() && blockSize > 0
    ensures comparisons == |AllDistances(f)| && falseAccepts <= comparisons
    ensures falseAccepts == CountFrom(AllSimilarities(f), f.limit(maximumDistance))
    ensures IsExact(f) ==>
      (falseAccepts == CountUpTo(AllDistances(f), maximumDistance) <==>
        || 0.0 <= maximumDistance < 2.0
        || (maximumDistance < 0.0 && falseAccepts == 0)
        || (maximumDistance >= 2.0 && falseAccepts == comparisons))
  {
    hide CountUpTo, CountFrom, Similarities;
    var n := |f.identities|;
    var limit := f.limit(maximumDistance);
    MatchesAreCounted(f, n, limit);
    CountFromFalls(AllSimilarities(f), limit, limit);
    if IsExact(f) && 0.0 <= maximumDistance < 2.0 { CountAgrees(f, AllSimilarities(f), maximumDistance); }
    CountOutside(f, maximumDistance);
    ComparisonsAreDistances(f);
    if n < 2 {
      DistancesLength(f, 0);
      return 0, 0;
    }
    falseAccepts := 0;
    var start := 0;
    while start < n
      invariant start <= n && falseAccepts == Matches(f, start, limit)
      decreases n - start
    {
      var stop := if start + blockSize < n then start + blockSize else n;
      for row := start to stop
        invariant falseAccepts == Matches(f, row, limit)
      {
        falseAccepts := falseAccepts + RowMatches(f, row, row + 1, limit);
      }
      start := stop;
    }
    comparisons := CountNegativeComparisons(f.identities);
  }

  /** Calibrates on the cross-identity pairs and measures on the same ones: the false accepts stay within the
      allowance exactly when all pairs are allowed, or the limit comes back above the first rejected similarity. */
  method CalibrateAndMeasure(
    f: Faces, scaled: nat -> real, blockSize: nat, ghost representable: iset<real>, below: real -> real)
    returns (threshold: Option<real>, falseAccepts: nat)
    requires f.Valid() && blockSize > 0 && scaled(|AllDistances(f)|) >= 0.0
    requires IsGrid(representable, below) && forall d :: d in AllDistances(f) ==> d in representable
    requires IsAntitone(f, AllSimilarities(f))
    ensures threshold.None? <==> AllDistances(f) == []
    ensures threshold.Some? ==>
      var allowed := AllowedAccepts(|AllDistances(f)|, scaled);
      && (allowed >= |AllDistances(f)| ==> falseAccepts <= allowed)
      && (allowed < |AllDistances(f)| ==>
            && (exists x :: IsRejected(AllSimilarities(f), x, allowed))
            && forall x :: IsRejected(AllSimilarities(f), x, allowed) ==>
                 (falseAccepts <= allowed <==> x < f.limit(below(Distance(f, x)))))
  {
    hide CountUpTo, CountFrom, AllDistances, AllSimilarities, IsRejected, IsAntitone, Distance;
    threshold, falseAccepts := None, 0;
    var calibrated := ThresholdForFalseAcceptRate(f, scaled, blockSize, representable, below);
    if calibrated.None? {
      return;
    }
    var _, measured := NegativeMatches(f, calibrated.value, blockSize);
    threshold, falseAccepts := calibrated, measured;
    ghost var allowed := AllowedAccepts(|AllDistances(f)|, scaled);
    SameNumber(f);
    if allowed < |AllDistances(f)| {
      ghost var _ := FirstRejected(AllSimilarities(f), allowed);
      forall x | IsRejected(AllSimilarities(f), x, allowed)
        ensures falseAccepts <= allowed <==> x < f.limit(below(Distance(f, x)))
      {
        CountedIff(AllSimilarities(f), x, allowed, f.limit(calibrated.value));
      }
    }
  }

  lemma SameNumber(f: Faces)
    requires f.Valid()
    ensures |AllDistances(f)| == |AllSimilarities(f)|
  {}
}
