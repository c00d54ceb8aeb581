/** Fixed-window rate limits: how many attempts one client gets, and when it may try again. */
module RateLimits {
  /** Times are in microseconds since the epoch; window lengths are in seconds. */
  const MICROS: nat := 1_000_000

  datatype Verdict = Verdict(limited: bool, retryAfter: nat)

  function WindowStart(at: nat, window: nat): nat
    requires window > 0
  {
    var seconds := at / MICROS;
    seconds - seconds % window
  }

  function RetryAfter(at: nat, start: nat, window: nat): nat {
    var left := (start + window) * MICROS - at;
    if left < 0 then 1 else left / MICROS + 1
  }

  /** The attempts of one subject and client, counted per window. */
  type Buckets = map<nat, nat>

  /** The counter of the current window; the other windows are forgotten. */
  function Current(buckets: Buckets, start: nat): nat {
    if start in buckets then buckets[start] else 0
  }

  function Consumed(buckets: Buckets, at: nat, limit: nat, window: nat): Buckets
    requires window > 0
  {
    var start := WindowStart(at, window);
    var used := Current(buckets, start);
    map[start := if used >= limit then used else used + 1]
  }

  predicate Admits(buckets: Buckets, at: nat, limit: nat, window: nat)
    requires window > 0
  {
    Current(buckets, WindowStart(at, window)) < limit
  }

  class Limiter {
    const limit: nat
    const window: nat
    var buckets: Buckets

    constructor (limit: nat, window: nat)
      requires window > 0
      ensures this.limit == limit && this.window == window && buckets == map[]
    {
      this.limit, this.window, buckets := limit, window, map[];
    }

    /** Consumes one attempt, or rejects it once the window's attempts are used up. */
    method ConsumeAttempt(at: nat) returns (verdict: Verdict)
      requires window > 0
      modifies this`buckets
      ensures buckets == Consumed(old(buckets), at, limit, window)
      ensures verdict.limited <==> !Admits(old(buckets), at, limit, window)
      ensures WindowStart(at + verdict.retryAfter * MICROS, window) > WindowStart(at, window)
      ensures
        var left := (WindowStart(at, window) + window) * MICROS - at;
        (verdict.retryAfter - 1) * MICROS <= left < verdict.retryAfter * MICROS
      ensures
        var start := WindowStart(at, window);
        var used := if start in old(buckets) then old(buckets)[start] else 0;
        verdict.limited == (used >= limit) && buckets == map[start := if verdict.limited then used else used + 1]
    {
      var start := WindowStart(at, window);
      buckets := map k | k in buckets && k == start :: buckets[k];
      if start !in buckets {
        buckets := buckets[start := 0];
      }
      RetryLeavesWindow(at, window);
      if buckets[start] >= limit {
        return Verdict(true, RetryAfter(at, start, window));
      }
      buckets := buckets[start := buckets[start] + 1];
      return Verdict(false, RetryAfter(at, start, window));
    }
  }

  // ------------------------------------------------------------- windows

  lemma WindowsAreMultiples(at: nat, window: nat)
    requires window > 0
    ensures WindowStart(at, window) == (at / MICROS) / window * window
    ensures WindowStart(at, window) * MICROS <= at < (WindowStart(at, window) + window) * MICROS
  {
    var seconds := at / MICROS;
    assert seconds == seconds / window * window + seconds % window;
  }

  lemma ProductsGrow(q: int, r: int, d: nat)
    requires q <= r
    ensures q * d <= r * d
  {
    assert (r - q) * d == r * d - q * d;
  }

  lemma QuotientsGrow(a: nat, b: nat, d: nat)
    requires a <= b && d > 0
    ensures a / d <= b / d
  {
    var q, r := a / d, b / d;
    assert a == q * d + a % d && b == r * d + b % d;
    assert (r + 1) * d == r * d + d;
    if r < q { ProductsGrow(r + 1, q, d); }
  }

  lemma WindowsGrow(a: nat, b: nat, window: nat)
    requires a <= b && window > 0
    ensures WindowStart(a, window) <= WindowStart(b, window)
  {
    WindowsAreMultiples(a, window);
    WindowsAreMultiples(b, window);
    QuotientsGrow(a, b, MICROS);
    QuotientsGrow(a / MICROS, b / MICROS, window);
    ProductsGrow((a / MICROS) / window, (b / MICROS) / window, window);
  }

  /** Waiting as long as told always leaves the window, and never wastes more than a second. */
  lemma RetryLeavesWindow(at: nat, window: nat)
    requires window > 0
    ensures
      var start := WindowStart(at, window);
      var retry := RetryAfter(at, start, window);
      && retry >= 1
      && WindowStart(at + retry * MICROS, window) > start
      && (retry - 1) * MICROS <= (start + window) * MICROS - at < retry * MICROS
  {
    var start := WindowStart(at, window);
    WindowsAreMultiples(at, window);
    var left := (start + window) * MICROS - at;
    var later := at + RetryAfter(at, start, window) * MICROS;
    assert left == left / MICROS * MICROS + left % MICROS;
    assert later > (start + window) * MICROS;
    WindowsAreMultiples(later, window);
    WindowsGrow(at, later, window);
  }

  // ------------------------------------------------------------- whole histories

  /** The buckets after a history of attempts, oldest first. */
  ghost function After(times: seq<nat>, limit: nat, window: nat): Buckets
    requires window > 0
  {
    if times == [] then map[]
    else Consumed(After(times[..|times| - 1], limit, window), times[|times| - 1], limit, window)
  }

  /** Attempt `i` of a history is let through. */
  ghost predicate Admitted(times: seq<nat>, i: nat, limit: nat, window: nat)
    requires window > 0 && i < |times|
  {
    Admits(After(times[..i], limit, window), times[i], limit, window)
  }

  /** How many of the last attempts fell into the window that starts at `start`, without interruption. */
  ghost function Streak(times: seq<nat>, start: nat, window: nat): nat
    requires window > 0
  {
    if times == [] || WindowStart(times[|times| - 1], window) != start then 0
    else 1 + Streak(times[..|times| - 1], start, window)
  }

  lemma {:induction false} BucketCountsStreak(times: seq<nat>, start: nat, limit: nat, window: nat)
    requires window > 0
    ensures Current(After(times, limit, window), start)
         == if Streak(times, start, window) < limit then Streak(times, start, window) else limit
    decreases |times|
  {
    if times != [] {
      BucketCountsStreak(times[..|times| - 1], start, limit, window);
    }
  }

  /** The exact rule, for any order of times: an attempt is let through exactly when fewer than `limit`
      attempts precede it in an uninterrupted streak of the same window. */
  lemma AdmittedIff(times: seq<nat>, i: nat, limit: nat, window: nat)
    requires window > 0 && i < |times|
    ensures Admitted(times, i, limit, window) <==> Streak(times[..i], WindowStart(times[i], window), window) < limit
  {
    BucketCountsStreak(times[..i], WindowStart(times[i], window), limit, window);
  }

  predicate Nondecreasing(times: seq<nat>) {
    forall i, j :: 0 <= i <= j < |times| ==> times[i] <= times[j]
  }

  /** The attempts of a history that fell into one window. */
  ghost function InWindow(times: seq<nat>, start: nat, window: nat): set<nat>
    requires window > 0
  {
    set i: nat | i < |times| && WindowStart(times[i], window) == start
  }

  /** When the clock does not run backwards, the streak is everything that happened in the window. */
  lemma {:induction false} StreakIsWholeWindow(times: seq<nat>, at: nat, window: nat)
    requires window > 0 && Nondecreasing(times)
    requires forall i :: 0 <= i < |times| ==> times[i] <= at
    ensures Streak(times, WindowStart(at, window), window) == |InWindow(times, WindowStart(at, window), window)|
    decreases |times|
  {
    hide WindowStart;
    var start := WindowStart(at, window);
    if times == [] {
      assert InWindow(times, start, window) == {};
    } else {
      var n := |times| - 1;
      var earlier := times[..n];
      if WindowStart(times[n], window) == start {
        StreakIsWholeWindow(earlier, at, window);
        assert InWindow(times, start, window) == InWindow(earlier, start, window) + {n};
      } else {
        WindowsGrow(times[n], at, window);
        forall i: nat | i < |times| ensures WindowStart(times[i], window) != start {
          WindowsGrow(times[i], times[n], window);
        }
        assert InWindow(times, start, window) == {};
      }
    }
  }

  /** With a clock that does not run backwards, an attempt is rejected exactly when `limit` attempts or more
      happened before it in the same window. */
  lemma AdmittedInOrder(times: seq<nat>, i: nat, limit: nat, window: nat)
    requires window > 0 && i < |times| && Nondecreasing(times)
    ensures Admitted(times, i, limit, window)
       <==> |InWindow(times[..i], WindowStart(times[i], window), window)| < limit
  {
    AdmittedIff(times, i, limit, window);
    StreakIsWholeWindow(times[..i], times[i], window);
  }

  ghost function AdmittedIn(times: seq<nat>, start: nat, limit: nat, window: nat): set<nat>
    requires window > 0
  {
    set i: nat | i < |times| && WindowStart(times[i], window) == start && Admitted(times, i, limit, window)
  }

  lemma SameAttempt(times: seq<nat>, i: nat, limit: nat, window: nat)
    requires window > 0 && i < |times| - 1
    ensures Admitted(times, i, limit, window) == Admitted(times[..|times| - 1], i, limit, window)
  {
    assert times[..i] == times[..|times| - 1][..i];
  }

  /** At most `limit` attempts are let through in any window; once one is rejected, exactly `limit` were. */
  lemma {:induction false} WindowBound(times: seq<nat>, start: nat, limit: nat, window: nat)
    requires window > 0 && Nondecreasing(times)
    ensures |AdmittedIn(times, start, limit, window)|
         == if |InWindow(times, start, window)| < limit then |InWindow(times, start, window)| else limit
    decreases |times|
  {
    hide Admitted, WindowStart;
    if times == [] {
      assert AdmittedIn(times, start, limit, window) == {} && InWindow(times, start, window) == {};
    } else {
      hide AdmittedIn, InWindow;
      WindowBound(times[..|times| - 1], start, limit, window);
      OneMoreAttempt(times, start, limit, window);
      if WindowStart(times[|times| - 1], window) == start {
        AdmittedInOrder(times, |times| - 1, limit, window);
      }
    }
  }

  /** What the latest attempt adds to the two counts of a window. */
  lemma OneMoreAttempt(times: seq<nat>, start: nat, limit: nat, window: nat)
    requires window > 0 && times != []
    ensures
      var n := |times| - 1;
      var here := WindowStart(times[n], window) == start;
      var let, made := AdmittedIn(times[..n], start, limit, window), InWindow(times[..n], start, window);
      && |InWindow(times, start, window)| == |made| + (if here then 1 else 0)
      && |AdmittedIn(times, start, limit, window)| == |let| + (if here && Admitted(times, n, limit, window) then 1 else 0)
  {
    hide Admitted, WindowStart;
    var n := |times| - 1;
    var let, made := AdmittedIn(times[..n], start, limit, window), InWindow(times[..n], start, window);
    var here := WindowStart(times[n], window) == start;
    forall i: nat | i < n ensures Admitted(times, i, limit, window) == Admitted(times[..n], i, limit, window) {
      SameAttempt(times, i, limit, window);
    }
    OneMore(made, InWindow(times, start, window), n, here);
    OneMore(let, AdmittedIn(times, start, limit, window), n, here && Admitted(times, n, limit, window));
  }

  lemma OneMore(before: set<nat>, now: set<nat>, n: nat, more: bool)
    requires forall i :: i in before ==> i < n
    requires forall i :: i in now <==> i in before || (more && i == n)
    ensures |now| == |before| + if more then 1 else 0
  {
    assert now == before + if more then {n} else {};
  }

  /** The attempts let through during one window's length, wherever it begins. */
  ghost function AdmittedDuring(times: seq<nat>, from: nat, limit: nat, window: nat): set<nat>
    requires window > 0
  {
    set i: nat | i < |times| && from <= times[i] < from + window * MICROS && Admitted(times, i, limit, window)
  }

  lemma TwoSteps(q: nat, r: nat, d: nat)
    requires d > 0 && q * d <= r * d < q * d + 2 * d
    ensures r * d == q * d || r * d == q * d + d
  {
    assert (r + 1) * d == r * d + d && (q + 1) * d == q * d + d && (q + 2) * d == q * d + 2 * d;
    if r < q { ProductsGrow(r + 1, q, d); }
    if q + 2 <= r { ProductsGrow(q + 2, r, d); }
  }

  /** An interval of a window's length meets at most two windows. */
  lemma TwoWindows(from: nat, at: nat, window: nat)
    requires window > 0 && from <= at < from + window * MICROS
    ensures WindowStart(at, window) == WindowStart(from, window)
         || WindowStart(at, window) == WindowStart(from, window) + window
  {
    WindowsAreMultiples(from, window);
    WindowsAreMultiples(at, window);
    WindowsGrow(from, at, window);
    var q, r := (from / MICROS) / window, (at / MICROS) / window;
    hide WindowStart;
    TwoSteps(q, r, window);
  }

  /** No interval of a window's length lets more than twice the limit through. */
  lemma SlidingBound(times: seq<nat>, from: nat, limit: nat, window: nat)
    requires window > 0 && Nondecreasing(times)
    ensures |AdmittedDuring(times, from, limit, window)| <= 2 * limit
  {
    hide Admitted, WindowStart;
    var start := WindowStart(from, window);
    var first, second := AdmittedIn(times, start, limit, window), AdmittedIn(times, start + window, limit, window);
    WindowBound(times, start, limit, window);
    WindowBound(times, start + window, limit, window);
    forall i | i in AdmittedDuring(times, from, limit, window) ensures i in first + second {
      TwoWindows(from, times[i], window);
    }
    Contained(AdmittedDuring(times, from, limit, window), first, second);
  }

  lemma Contained(part: set<nat>, a: set<nat>, b: set<nat>)
    requires part <= a + b
    ensures |part| <= |a| + |b|
  {
    var rest := a + b - part;
    assert part + rest == a + b;
    assert |part| + |rest| == |a + b|;
    assert |a + b| == |a| + |b| - |a * b|;
  }

  /** The order matters: a clock that steps back into an earlier window finds its counter gone. */
  lemma BackwardsClockExample()
    ensures
      var times := [0, 60 * MICROS, 1];
      && AdmittedIn(times, 0, 1, 60) == {0, 2}
  {
    var times := [0, 60 * MICROS, 1];
    AdmittedIff(times, 0, 1, 60);
    AdmittedIff(times, 1, 1, 60);
    AdmittedIff(times, 2, 1, 60);
    assert times[..2][|times[..2]| - 1] == 60 * MICROS;
  }

  // ------------------------------------------------------------- any order of times

  /** The lengths of the uninterrupted streaks of one window, oldest first. */
  ghost function Streaks(times: seq<nat>, start: nat, window: nat): (lengths: seq<nat>)
    requires window > 0
    ensures Streak(times, start, window) > 0 ==> lengths != [] && lengths[|lengths| - 1] == Streak(times, start, window)
  {
    if times == [] then []
    else
      var earlier := times[..|times| - 1];
      var lengths, last := Streaks(earlier, start, window), Streak(earlier, start, window);
      if WindowStart(times[|times| - 1], window) != start then lengths
      else if last > 0 then lengths[|lengths| - 1 := last + 1]
      else lengths + [1]
  }

  /** Up to `limit` of each streak. */
  ghost function LetThrough(lengths: seq<nat>, limit: nat): nat {
    if lengths == [] then 0
    else
      var last := lengths[|lengths| - 1];
      LetThrough(lengths[..|lengths| - 1], limit) + if last < limit then last else limit
  }

  /** The exact number, whatever the clock does: each uninterrupted streak of a window gets up to `limit` attempts
      through, so the window's bound holds exactly when these add up to no more than `limit`. */
  lemma {:induction false} WindowCount(times: seq<nat>, start: nat, limit: nat, window: nat)
    requires window > 0
    ensures |AdmittedIn(times, start, limit, window)| == LetThrough(Streaks(times, start, window), limit)
    decreases |times|
  {
    hide Admitted, WindowStart;
    if times == [] {
      assert AdmittedIn(times, start, limit, window) == {};
    } else {
      hide AdmittedIn, InWindow;
      var n := |times| - 1;
      WindowCount(times[..n], start, limit, window);
      OneMoreAttempt(times, start, limit, window);
      AdmittedIff(times, n, limit, window);
      LongerStreak(times, start, limit, window);
    }
  }

  lemma LongerStreak(times: seq<nat>, start: nat, limit: nat, window: nat)
    requires window > 0 && times != []
    ensures
      var earlier := times[..|times| - 1];
      var more := WindowStart(times[|times| - 1], window) == start && Streak(earlier, start, window) < limit;
      LetThrough(Streaks(times, start, window), limit)
      == LetThrough(Streaks(earlier, start, window), limit) + if more then 1 else 0
  {
    hide WindowStart;
    var earlier := times[..|times| - 1];
    var lengths, last := Streaks(earlier, start, window), Streak(earlier, start, window);
    if WindowStart(times[|times| - 1], window) == start {
      if last > 0 {
        assert lengths[|lengths| - 1 := last + 1][..|lengths| - 1] == lengths[..|lengths| - 1];
      } else {
        assert (lengths + [1])[..|lengths|] == lengths;
      }
    }
  }
}
