/** The calibrated threshold in the arithmetic that computes it: binary32 of IEEE 754, rounding to nearest, ties to
    even. For which similarities does measuring stay within the allowance that calibration kept? */
module SinglePrecision {
  import opened Prelude
  import opened NegativePairs

  // ------------------------------------------------------------- the numbers

  function Power(k: nat): real { if k == 0 then 1.0 else 2.0 * Power(k - 1) }

  const SIGNIFICANDS: int := 16_777_216
  const SMALLEST: nat := 149

  /** `x` is m / 2^k: 24 bits of significand, and nothing finer than the smallest subnormal number. */
  ghost predicate Has(x: real, m: int, k: nat) {
    k <= SMALLEST && -SIGNIFICANDS <= m <= SIGNIFICANDS && x * Power(k) == m as real
  }

  /** The numbers of single precision of magnitude up to 2^24; no distance or similarity leaves that range. */
  ghost predicate IsSingle(x: real) {
    exists m, k :: Has(x, m, k)
  }

  /** Of two neighbours, `r` is the one with the even significand. */
  ghost predicate EvenBeside(r: real, z: real) {
    exists a: int, k: nat :: Has(r, 2 * a, k) && (Has(z, 2 * a + 1, k) || Has(z, 2 * a - 1, k))
  }

  function Gap(x: real, y: real): real { if x < y then y - x else x - y }

  ghost predicate IsRounded(x: real, r: real) {
    && IsSingle(r)
    && (forall z :: IsSingle(z) ==> Gap(r, x) <= Gap(z, x))
    && (forall z :: IsSingle(z) && z != r && Gap(z, x) == Gap(r, x) ==> EvenBeside(r, z))
  }

  /** Similarities are numbers of single precision, both subtractions are rounded to it, and `below` is its next
      number downward. Measuring subtracts in double precision first; for a threshold of single precision that is
      exact, or so near one that both roundings give one. */
  ghost predicate InSinglePrecision(f: Faces, below: real -> real) {
    && f.Valid()
    && (forall x :: x in AllSimilarities(f) ==> IsSingle(x) && -2.0 <= x <= 2.0)
    && (forall x :: IsSingle(x) && -2.0 <= x <= 2.0 ==>
          IsRounded(1.0 - x, f.complement(x)) && IsRounded(1.0 - x, f.limit(x)))
    && (forall d :: IsSingle(d) && 0.0 <= d <= 2.0 ==> IsNextBelow(d, below(d)))
  }

  ghost predicate IsNextBelow(d: real, t: real) {
    IsSingle(t) && t < d && forall z :: IsSingle(z) && z < d ==> z <= t
  }

  predicate IsWhole(x: real) { x == x.Floor as real }

  lemma {:induction false} PowerSum(a: nat, b: nat, sum: nat)
    requires sum == a + b
    ensures Power(sum) == Power(a) * Power(b)
    decreases a
  {
    if a > 0 { PowerSum(a - 1, b, sum - 1); }
  }

  lemma {:induction false} PowerIsWhole(k: nat)
    ensures Power(k) >= 1.0 && IsWhole(Power(k))
  {
    if k > 0 {
      PowerIsWhole(k - 1);
      assert Power(k) == (2 * Power(k - 1).Floor) as real;
    }
  }

  lemma Powers()
    ensures Power(0) == 1.0 && Power(1) == 2.0 && Power(2) == 4.0 && Power(23) == 8_388_608.0
    ensures Power(24) == 16_777_216.0 && Power(25) == 33_554_432.0 && Power(26) == 67_108_864.0
  {
    PowerSum(5, 5, 10);
    PowerSum(10, 10, 20);
    assert Power(5) == 32.0 && Power(10) == 1024.0 && Power(20) == 1_048_576.0;
    PowerSum(3, 20, 23);
    assert Power(24) == 2.0 * Power(23) && Power(25) == 2.0 * Power(24) && Power(26) == 2.0 * Power(25);
  }

  lemma Fraction(x: real, m: int, k: nat, p: real)
    requires k <= SMALLEST && -SIGNIFICANDS <= m <= SIGNIFICANDS && Power(k) == p && x * p == m as real
    ensures IsSingle(x)
  {
    assert Has(x, m, k);
  }

  lemma Regroup(x: real, p: real, q: real, product: real)
    requires product == p * q
    ensures x * product == (x * p) * q
  {}

  lemma SameTimes(x: real, y: real, p: real)
    requires x == y
    ensures x * p == y * p
  {}

  /** A multiple of 1 / p is one of 1 / (p * q). */
  lemma Finer(x: real, p: real, q: real, product: real, m: int) returns (w: int)
    requires product == p * q && IsWhole(q) && x * p == m as real
    ensures x * product == w as real
  {
    Regroup(x, p, q, product);
    SameTimes(x * p, m as real, q);
    w := m * q.Floor;
    assert m as real * q == w as real;
  }

  lemma CoarseSpacing(x: real, m: int, k: nat, n: nat) returns (w: int)
    requires Has(x, m, k) && k <= n
    ensures x * Power(n) == w as real
  {
    hide Power;
    PowerSum(k, n - k, n);
    PowerIsWhole(n - k);
    w := Finer(x, Power(k), Power(n - k), Power(n), m);
  }

  lemma FineSpacing(x: real, m: int, k: nat, j: nat, n: nat) returns (w: int)
    requires Has(x, m, k) && n == 23 + j < k && (x * Power(j) >= 1.0 || x * Power(j) <= -1.0)
    ensures x * Power(n) == w as real
  {
    hide Power;
    var c := k - j;
    PowerSum(j, c, k);
    Regroup(x, Power(j), Power(c), Power(k));
    AtLeastSignificands(c);
    LargestSignificand(x * Power(j), Power(c), m as real);
    PowerSum(j, 23, n);
    PowerIsWhole(23);
    w := Finer(x, Power(j), Power(23), Power(n), if x * Power(j) == 1.0 then 1 else -1);
  }

  /** From 2^-j on, numbers are multiples of 2^-(23+j). */
  lemma Spacing(x: real, j: nat, n: nat) returns (w: int)
    requires IsSingle(x) && n == 23 + j && (x * Power(j) >= 1.0 || x * Power(j) <= -1.0)
    ensures x * Power(n) == w as real
  {
    var m: int, k: nat :| Has(x, m, k);
    hide *;
    if k <= n { w := CoarseSpacing(x, m, k, n); } else { w := FineSpacing(x, m, k, j, n); }
  }

  lemma AtLeastSignificands(c: nat)
    requires c >= 24
    ensures Power(c) >= 16_777_216.0
  {
    Powers();
    PowerSum(24, c - 24, c);
    PowerIsWhole(c - 24);
    hide Power;
    assert Power(c) == 16_777_216.0 * Power(c - 24);
  }

  lemma LargestSignificand(y: real, q: real, m: real)
    requires q >= 16_777_216.0 && -16_777_216.0 <= m <= 16_777_216.0 && y * q == m
    requires y >= 1.0 || y <= -1.0
    ensures y == 1.0 || y == -1.0
  {
    if y > 1.0 { Larger(y, q); } else if y < -1.0 { Larger(0.0 - y, q); }
  }

  lemma Larger(y: real, q: real)
    requires y > 1.0 && q > 0.0
    ensures y * q > q
  {}

  lemma MultipleOf(x: real, j: nat, q: real, p: real)
    requires IsSingle(x) && Power(j) == q && Power(23 + j) == p && (x * q >= 1.0 || x * q <= -1.0)
    ensures IsWhole(x * p)
  {
    hide Power, IsSingle;
    var n := 23 + j;
    assert Power(n) == p;
    var w := Spacing(x, j, n);
    assert x * p == w as real;
  }

  /** The spacing of the numbers from one, from a half and from a quarter on. */
  lemma Multiples(x: real)
    requires IsSingle(x)
    ensures x >= 1.0 || x <= -1.0 ==> IsWhole(x * 8_388_608.0)
    ensures x >= 0.5 || x <= -0.5 ==> IsWhole(x * 16_777_216.0)
    ensures x >= 0.25 || x <= -0.25 ==> IsWhole(x * 33_554_432.0)
  {
    Powers();
    hide *;
    if x >= 1.0 || x <= -1.0 { MultipleOf(x, 0, 1.0, 8_388_608.0); }
    if x >= 0.5 || x <= -0.5 { MultipleOf(x, 1, 2.0, 16_777_216.0); }
    if x >= 0.25 || x <= -0.25 { MultipleOf(x, 2, 4.0, 33_554_432.0); }
  }

  lemma Singles(m: int)
    requires -SIGNIFICANDS <= m <= SIGNIFICANDS
    ensures IsSingle(m as real)
    ensures IsSingle(m as real / 8_388_608.0) && IsSingle(m as real / 16_777_216.0)
    ensures IsSingle(m as real / 33_554_432.0) && IsSingle(m as real / 67_108_864.0)
  {
    Powers();
    hide IsSingle;
    Fraction(m as real, m, 0, 1.0);
    Fraction(m as real / 8_388_608.0, m, 23, 8_388_608.0);
    Fraction(m as real / 16_777_216.0, m, 24, 16_777_216.0);
    Fraction(m as real / 33_554_432.0, m, 25, 33_554_432.0);
    Fraction(m as real / 67_108_864.0, m, 26, 67_108_864.0);
  }

  // ------------------------------------------------------------- rounding

  /** Rounding does not cross a number of single precision. */
  lemma StaysBeside(z: real, x: real, r: real)
    requires IsSingle(z) && IsRounded(x, r)
    ensures z <= x ==> z <= r
    ensures z >= x ==> z >= r
  {}

  lemma Landmarks()
    ensures IsSingle(0.0) && IsSingle(1.0) && IsSingle(2.0) && IsSingle(-1.0) && IsSingle(0.5) && IsSingle(0.25)
  {
    Singles(0);
    Singles(1);
    Singles(2);
    Singles(-1);
    Singles(4_194_304);
    Singles(8_388_608);
  }

  /** The next multiple of 2^-25 upward. */
  lemma NextUp25(x: real) returns (z: real)
    requires -0.5 <= x < 0.5
    ensures IsSingle(z) && x < z <= x + 1.0 / 33_554_432.0
  {
    var m := (x * 33_554_432.0).Floor + 1;
    Singles(m);
    z := m as real / 33_554_432.0;
  }

  lemma NextUp24(x: real) returns (z: real)
    requires -1.0 <= x < 1.0
    ensures IsSingle(z) && x < z <= x + 1.0 / 16_777_216.0
  {
    var m := (x * 16_777_216.0).Floor + 1;
    Singles(m);
    z := m as real / 16_777_216.0;
  }

  /** Up to one, rounding moves a number by at most 2^-25, up to two by at most 2^-24. */
  lemma RoundingError(x: real, r: real)
    requires IsRounded(x, r)
    ensures 0.0 <= x <= 1.0 ==> Gap(r, x) <= 1.0 / 33_554_432.0
    ensures 0.0 <= x <= 2.0 ==> Gap(r, x) <= 1.0 / 16_777_216.0
  {
    hide IsSingle;
    if 0.0 <= x <= 1.0 {
      var m := (x * 16_777_216.0 + 0.5).Floor;
      Singles(m);
      assert Gap(r, x) <= Gap(m as real / 16_777_216.0, x);
    }
    if 0.0 <= x <= 2.0 {
      var m := (x * 8_388_608.0 + 0.5).Floor;
      Singles(m);
      assert Gap(r, x) <= Gap(m as real / 8_388_608.0, x);
    }
  }

  /** Whole numbers differ by at least one. */
  lemma WholeStep(x: real, y: real)
    requires IsWhole(x) && IsWhole(y) && x < y
    ensures x + 1.0 <= y
  {
    assert x.Floor < y.Floor;
  }

  lemma NextBelowFrom(d: real, t: real, z: real)
    requires IsNextBelow(d, t) && IsSingle(z) && z < d
    ensures z <= t < d && IsSingle(t)
  {}

  lemma NextBelowIsFar(d: real, t: real)
    requires IsSingle(d) && IsNextBelow(d, t)
    ensures 1.0 < d <= 2.0 ==> t <= d - 1.0 / 8_388_608.0
    ensures 0.5 < d <= 1.0 ==> t <= d - 1.0 / 16_777_216.0
    ensures 0.25 < d <= 0.5 ==> t <= d - 1.0 / 33_554_432.0
  {
    Landmarks();
    hide IsSingle, IsWhole, IsNextBelow;
    if 0.25 < d <= 2.0 {
      NextBelowFrom(d, t, if d > 1.0 then 1.0 else if d > 0.5 then 0.5 else 0.25);
      Multiples(d);
      Multiples(t);
      if d > 1.0 { WholeStep(t * 8_388_608.0, d * 8_388_608.0); }
      else if d > 0.5 { WholeStep(t * 16_777_216.0, d * 16_777_216.0); }
      else { WholeStep(t * 33_554_432.0, d * 33_554_432.0); }
    }
  }

  lemma NoFarther(x: real, r: real, z: real)
    requires IsRounded(x, r) && IsSingle(z)
    ensures IsSingle(r) && Gap(r, x) <= Gap(z, x)
  {}

  // ------------------------------------------------------------- there and back

  /** A similarity, its rounded complement, the threshold below its distance, and the limit that comes back. */
  ghost predicate Returns(x: real, e: real, t: real, l: real) {
    && IsSingle(x) && -2.0 <= x <= 2.0
    && IsRounded(1.0 - x, e) && IsNextBelow(Clipped(e), t) && IsRounded(1.0 - t, l)
  }

  /** Below a half the limit always comes back above. */
  lemma LowComesBack(x: real, e: real, t: real, l: real)
    requires Returns(x, e, t, l) && x < 0.5
    ensures x < l
  {
    Landmarks();
    hide IsSingle, IsWhole, IsRounded, IsNextBelow;
    var d := Clipped(e);
    StaysBeside(0.5, 1.0 - x, e);
    StaysBeside(1.0, 1.0 - x, e);
    StaysBeside(2.0, 1.0 - x, e);
    NoFarther(1.0 - x, e, 0.0);
    RoundingError(1.0 - x, e);
    NextBelowIsFar(d, t);
    if x >= 0.0 && d > 0.5 {
      var z := NextUp25(x);
      StaysBeside(z, 1.0 - t, l);
    } else if x >= 0.0 {
      StaysBeside(0.5, 1.0 - t, l);
    } else if x >= -1.0 && d > 1.0 {
      var z := NextUp24(x);
      StaysBeside(z, 1.0 - t, l);
    } else if x >= -1.0 {
      StaysBeside(0.0, 1.0 - t, l);
    } else {
      StaysBeside(-1.0, 1.0 - t, l);
    }
  }

  /** From one on it never does. */
  lemma AboveOneIsCounted(x: real, e: real, t: real, l: real)
    requires Returns(x, e, t, l) && x > 1.0
    ensures l == 1.0
  {
    Landmarks();
    Singles(-1);
    hide IsSingle, IsWhole, IsRounded, IsNextBelow;
    StaysBeside(0.0, 1.0 - x, e);
    NextBelowFrom(Clipped(e), t, -1.0 / 67_108_864.0);
    StaysBeside(1.0, 1.0 - t, l);
    NoFarther(1.0 - t, l, 1.0);
    Multiples(l);
    Multiples(1.0);
    if l > 1.0 { WholeStep(8_388_608.0, l * 8_388_608.0); }
  }

  lemma RoundedSelf(x: real, r: real)
    requires IsSingle(x) && IsRounded(x, r)
    ensures r == x
  {
    NoFarther(x, r, x);
  }

  /** Between a half and one, similarities are m / 2^24 and their distances exact. */
  lemma HighIsExact(x: real, e: real) returns (m: int)
    requires IsSingle(x) && 0.5 <= x <= 1.0 && IsRounded(1.0 - x, e)
    ensures x == m as real / 16_777_216.0 && 8_388_608 <= m <= 16_777_216 && e == 1.0 - x && IsSingle(e)
  {
    hide IsSingle, IsRounded;
    Multiples(x);
    m := (x * 16_777_216.0).Floor;
    Singles(16_777_216 - m);
    RoundedSelf(1.0 - x, e);
  }

  /** Up to a quarter the numbers lie so close that the limit rounds back to the similarity. */
  lemma NearRoundsBack(x: real, e: real, t: real, l: real)
    requires Returns(x, e, t, l) && 0.75 <= x <= 1.0
    ensures l == x
  {
    hide IsSingle, IsRounded, IsNextBelow;
    var m := HighIsExact(x, e);
    Singles(4 * (16_777_216 - m) - 1);
    NextBelowFrom(Clipped(e), t, (4 * (16_777_216 - m) - 1) as real / 67_108_864.0);
    StaysBeside(x, 1.0 - t, l);
    NoFarther(1.0 - t, l, x);
    Multiples(l);
    Multiples(x);
    if l > x { WholeStep(x * 16_777_216.0, l * 16_777_216.0); }
  }

  lemma TieIsEven(x: real, r: real, z: real)
    requires IsRounded(x, r) && IsSingle(z) && z != r && Gap(z, x) == Gap(r, x)
    ensures EvenBeside(r, z)
  {}

  lemma Numerators(r: real, z: real) returns (p: real, a: int, b: int)
    requires EvenBeside(r, z)
    ensures p >= 1.0 && r * p == (2 * a) as real && z * p == b as real && (b == 2 * a + 1 || b == 2 * a - 1)
  {
    hide Has, Power, IsWhole;
    var c: int, k: nat :| Has(r, 2 * c, k) && (Has(z, 2 * c + 1, k) || Has(z, 2 * c - 1, k));
    PowerIsWhole(k);
    HasMeans(r, 2 * c, k);
    p, a := Power(k), c;
    b := if Has(z, 2 * c + 1, k) then 2 * c + 1 else 2 * c - 1;
    HasMeans(z, b, k);
  }

  lemma HasMeans(x: real, m: int, k: nat)
    requires Has(x, m, k)
    ensures x * Power(k) == m as real
  {}

  lemma EvenNeighbour(r: real, m: int, z: real, n: int)
    requires r * 16_777_216.0 == m as real && z * 16_777_216.0 == n as real && (n == m + 1 || n == m - 1)
    requires EvenBeside(r, z)
    ensures m % 2 == 0
  {
    hide *;
    var p, a, b := Numerators(r, z);
    SameScale(r, z, p, m, n, 2 * a, b);
  }

  lemma SameScale(r: real, z: real, p: real, m: int, n: int, a: int, b: int)
    requires r * 16_777_216.0 == m as real && z * 16_777_216.0 == n as real && (n == m + 1 || n == m - 1)
    requires p >= 1.0 && r * p == a as real && z * p == b as real && (b == a + 1 || b == a - 1)
    ensures m == a
  {
    var step := z - r;
    assert step * p == z * p - r * p;
    Times(if n == m + 1 then 1.0 / 16_777_216.0 else -1.0 / 16_777_216.0, p);
    assert p == 16_777_216.0;
  }

  lemma Times(x: real, p: real)
    requires p >= 1.0
    ensures x > 0.0 ==> x * p > 0.0
    ensures x < 0.0 ==> x * p < 0.0
  {}

  /** Between a quarter and a half the threshold is half a step below: the limit lies between two similarities,
      and rounding takes the even one. */
  lemma HalfwayGoesToEven(x: real, e: real, t: real, l: real)
    requires Returns(x, e, t, l) && 0.5 <= x < 0.75
    ensures x < l <==> (x * 16_777_216.0).Floor % 2 == 1
  {
    hide IsSingle, IsNextBelow, IsRounded, EvenBeside;
    var m := HighIsExact(x, e);
    Singles(2 * (16_777_216 - m) - 1);
    Singles(m + 1);
    var up := (m + 1) as real / 16_777_216.0;
    NextBelowFrom(Clipped(e), t, (2 * (16_777_216 - m) - 1) as real / 33_554_432.0);
    NextBelowIsFar(Clipped(e), t);
    assert 1.0 - t == x + 1.0 / 33_554_432.0;
    StaysBeside(x, 1.0 - t, l);
    StaysBeside(up, 1.0 - t, l);
    NoFarther(1.0 - t, l, x);
    Multiples(l);
    if x < l < up { WholeStep(x * 16_777_216.0, l * 16_777_216.0); }
    assert l == x || l == up;
    if l == x {
      TieIsEven(1.0 - t, l, up);
      EvenNeighbour(l, m, up, m + 1);
    } else {
      TieIsEven(1.0 - t, l, x);
      EvenNeighbour(l, m + 1, x, m);
    }
  }

  /** Exactly these similarities let the limit come back above them: those below a half, and those from a half up
      to, not including, three quarters whose significand is odd. */
  predicate ComesBack(x: real) {
    x < 0.5 || (x < 0.75 && (x * 16_777_216.0).Floor % 2 == 1)
  }

  lemma ComesBackIff(x: real, e: real, t: real, l: real)
    requires Returns(x, e, t, l)
    ensures x < l <==> ComesBack(x)
  {
    hide Returns;
    if x < 0.5 {
      LowComesBack(x, e, t, l);
    } else if x > 1.0 {
      AboveOneIsCounted(x, e, t, l);
    } else if x < 0.75 {
      HalfwayGoesToEven(x, e, t, l) by { hide *; }
    } else {
      NearRoundsBack(x, e, t, l);
    }
  }

  // ------------------------------------------------------------- calibrating and measuring

  lemma SimilarityAt(f: Faces, below: real -> real, x: real)
    requires InSinglePrecision(f, below) && x in AllSimilarities(f)
    ensures IsSingle(x) && -2.0 <= x <= 2.0
  {
    hide IsSingle;
  }

  lemma IsValid(f: Faces, below: real -> real)
    requires InSinglePrecision(f, below)
    ensures f.Valid()
  {
    hide IsSingle;
  }

  lemma RoundsAt(f: Faces, below: real -> real, x: real)
    requires InSinglePrecision(f, below) && IsSingle(x) && -2.0 <= x <= 2.0
    ensures IsRounded(1.0 - x, f.complement(x)) && IsRounded(1.0 - x, f.limit(x))
  {
    hide IsSingle, IsRounded;
  }

  lemma NextAt(f: Faces, below: real -> real, d: real)
    requires InSinglePrecision(f, below) && IsSingle(d) && 0.0 <= d <= 2.0
    ensures IsNextBelow(d, below(d))
  {
    hide IsSingle, IsNextBelow;
  }

  /** A similarity has a distance of single precision between 0 and 2. */
  lemma DistanceAt(f: Faces, below: real -> real, x: real)
    requires InSinglePrecision(f, below) && x in AllSimilarities(f)
    ensures IsSingle(x) && -2.0 <= x <= 2.0 && IsRounded(1.0 - x, f.complement(x))
    ensures IsSingle(Distance(f, x)) && 0.0 <= Distance(f, x) <= 2.0
  {
    hide IsSingle, InSinglePrecision, IsRounded;
    Landmarks();
    SimilarityAt(f, below, x);
    RoundsAt(f, below, x);
    NoFarther(1.0 - x, f.complement(x), 0.0);
  }

  /** More similar faces are never farther apart. */
  lemma RoundingIsAntitone(f: Faces, below: real -> real)
    requires InSinglePrecision(f, below)
    ensures IsAntitone(f, AllSimilarities(f))
  {
    hide InSinglePrecision, IsSingle, AllSimilarities, IsRounded;
    IsValid(f, below);
    forall x, y | x in AllSimilarities(f) && y in AllSimilarities(f) && x <= y
      ensures f.complement(x) >= f.complement(y)
    {
      DistanceAt(f, below, x);
      DistanceAt(f, below, y);
      if x < y { RoundingIsMonotone(1.0 - y, f.complement(y), 1.0 - x, f.complement(x)); }
    }
  }

  lemma RoundingIsMonotone(x: real, r: real, y: real, q: real)
    requires IsRounded(x, r) && IsRounded(y, q) && x < y
    ensures r <= q
  {
    hide IsSingle;
    assert IsSingle(r) && IsSingle(q);
    NoFarther(x, r, q);
    NoFarther(y, q, r);
  }

  /** The distances lie on the grid of single precision. */
  lemma DistancesAreSingle(f: Faces, below: real -> real)
    requires InSinglePrecision(f, below)
    ensures forall d :: d in AllDistances(f) ==> IsSingle(d) && 0.0 <= d <= 2.0
  {
    hide InSinglePrecision, IsSingle, Similarities, Distance;
    IsValid(f, below);
    forall d | d in AllDistances(f) ensures IsSingle(d) && 0.0 <= d <= 2.0 {
      var k :| 0 <= k < |AllDistances(f)| && AllDistances(f)[k] == d;
      var x := AllSimilarities(f)[k];
      assert x in AllSimilarities(f) && d == Distance(f, x);
      DistanceAt(f, below, x);
    }
  }

  lemma RejectedComesBackIff(f: Faces, below: real -> real, allowed: nat, x: real)
    requires InSinglePrecision(f, below) && IsRejected(AllSimilarities(f), x, allowed)
    ensures x < f.limit(below(Distance(f, x))) <==> ComesBack(x)
  {
    hide InSinglePrecision, IsSingle, AllSimilarities, ComesBack, IsRounded, IsNextBelow;
    var d := Distance(f, x);
    var t := below(d);
    Landmarks();
    DistanceAt(f, below, x);
    NextAt(f, below, d);
    NextBelowFrom(d, t, -1.0);
    RoundsAt(f, below, t);
    ComesBackIff(x, f.complement(x), t, f.limit(t));
  }

  /** Main result: in single precision, what is measured at the calibrated threshold is at most the allowed number
      if and only if the first rejected similarity is below a half, or below three quarters and odd. */
  lemma MeasuredInSinglePrecisionIff(f: Faces, below: real -> real, allowed: nat, x: real)
    requires InSinglePrecision(f, below) && IsRejected(AllSimilarities(f), x, allowed)
    ensures Matches(f, |f.identities|, f.limit(below(Distance(f, x)))) <= allowed <==> ComesBack(x)
  {
    RejectedComesBackIff(f, below, allowed, x);
    hide InSinglePrecision, ComesBack;
    MeasuredWithinIff(f, allowed, x, below(Distance(f, x)));
  }

  ghost function DistanceGrid(): iset<real> {
    iset d: real | IsSingle(d) && 0.0 <= d <= 2.0
  }

  /** Single precision meets what calibration asks of its arithmetic. */
  lemma CalibrationApplies(f: Faces, below: real -> real)
    requires InSinglePrecision(f, below)
    ensures IsGrid(DistanceGrid(), below) && forall d :: d in AllDistances(f) ==> d in DistanceGrid()
    ensures IsAntitone(f, AllSimilarities(f))
  {
    hide InSinglePrecision, IsSingle, AllSimilarities, AllDistances, IsAntitone, IsNextBelow;
    Landmarks();
    IsValid(f, below);
    RoundingIsAntitone(f, below);
    DistancesAreSingle(f, below);
    forall d | d in DistanceGrid()
      ensures below(d) < d && forall y :: y in DistanceGrid() && y < d ==> y <= below(d)
    {
      NextAt(f, below, d);
      NextBelowFrom(d, below(d), -1.0);
      forall y | y in DistanceGrid() && y < d ensures y <= below(d) { NextBelowFrom(d, below(d), y); }
    }
  }

  /** The benchmark's calibration in one piece. The false accepts that it then measures on the same pairs are at
      most the allowed number exactly when all are allowed or the first rejected similarity comes back. */
  method CalibrateInSinglePrecision(f: Faces, scaled: nat -> real, blockSize: nat, below: real -> real)
    returns (threshold: Option<real>, falseAccepts: nat)
    requires InSinglePrecision(f, below) && blockSize > 0 && scaled(|AllDistances(f)|) >= 0.0
    ensures threshold.None? <==> AllDistances(f) == []
    ensures threshold.Some? ==>
      var allowed := AllowedAccepts(|AllDistances(f)|, scaled);
      && (allowed >= |AllDistances(f)| ==> falseAccepts <= allowed)
      && (allowed < |AllDistances(f)| ==>
            && (exists x :: IsRejected(AllSimilarities(f), x, allowed))
            && forall x :: IsRejected(AllSimilarities(f), x, allowed) ==> (falseAccepts <= allowed <==> ComesBack(x)))
  {
    CalibrationApplies(f, below);
    hide IsSingle, AllSimilarities, AllDistances, IsRejected, IsAntitone, IsGrid, ComesBack, IsRounded, IsNextBelow,
         Distance, DistanceGrid;
    threshold, falseAccepts := CalibrateAndMeasure(f, scaled, blockSize, DistanceGrid(), below);
    forall x | IsRejected(AllSimilarities(f), x, AllowedAccepts(|AllDistances(f)|, scaled))
      ensures x < f.limit(below(Distance(f, x))) <==> ComesBack(x)
    {
      RejectedComesBackIff(f, below, AllowedAccepts(|AllDistances(f)|, scaled), x);
    }
  }

  /** Two different people whose faces give the same embedding, and two whose faces have similarity 0.9: calibrated
      to accept no false pair, measuring the same pair counts it. At similarity 0.4 it does not. */
  lemma TwoFacesExample(f: Faces, below: real -> real)
    requires InSinglePrecision(f, below) && |f.identities| == 2 && f.identities[0] != f.identities[1]
    ensures
      var x := f.similarities[0][1];
      var measured := Matches(f, 2, f.limit(below(Distance(f, x))));
      && IsRejected(AllSimilarities(f), x, 0)
      && (x == 1.0 ==> measured == 1)
      && (x == 15_099_494.0 / 16_777_216.0 ==> measured == 1)
      && (x == 13_421_773.0 / 33_554_432.0 ==> measured == 0)
  {
    var x := f.similarities[0][1];
    var s := AllSimilarities(f);
    assert RowSimilarities(f, 0, 2) == [] && RowSimilarities(f, 0, 1) == [x] && RowSimilarities(f, 0, 0) == [x];
    assert RowSimilarities(f, 1, 2) == [] && RowSimilarities(f, 1, 1) == [] && RowSimilarities(f, 1, 0) == [];
    assert Similarities(f, 2, 2) == [] && Similarities(f, 1, 2) == [] && s == [x];
    assert CountUpTo([x], x) == 1 && CountFrom([x], x) == 1;
    var limit := f.limit(below(Distance(f, x)));
    MatchesAreCounted(f, 2, limit);
    CountFromFalls(s, limit, limit);
    MeasuredInSinglePrecisionIff(f, below, 0, x);
  }
}
