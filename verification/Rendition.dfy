/** The size that the desktop renders, and the size that the server accepts. */
module Rendition {
  const PREVIEW_LONG_EDGE: nat := 2048
  const THUMBNAIL_LONG_EDGE: nat := 512

  type Side = n: nat | n > 0 witness 1

  datatype Size = Size(width: Side, height: Side)
  {
    function Long(): Side { if width > height then width else height }
    function Short(): Side { if width > height then height else width }
    function Turned(): Size { Size(height, width) }
  }

  /** n / d rounded to the nearest integer, ties to the even one. */
  function Rounded(n: nat, d: Side): nat {
    var q, r := n / d, n % d;
    if 2 * r < d || (2 * r == d && q % 2 == 0) then q else q + 1
  }

  function AtLeastOne(n: nat): Side {
    if n > 1 then n else 1
  }

  /** What the renderer produces: never enlarged, both sides scaled alike. */
  function Resized(original: Size, longEdge: Side): Size {
    if original.Long() <= longEdge then original
    else Size(AtLeastOne(Rounded(original.width * longEdge, original.Long())),
              AtLeastOne(Rounded(original.height * longEdge, original.Long())))
  }

  function Abs(x: real): real { if x < 0.0 then -x else x }

  function Ratio(size: Size): real { size.width as real / size.height as real }

  /** What the server accepts. */
  predicate Accepted(original: Size, rendition: Size, longEdge: Side) {
    && rendition.Long() == (if original.Long() < longEdge then original.Long() else longEdge)
    && (Abs(Ratio(original) - Ratio(rendition)) <= 0.03 || Abs(1.0 / Ratio(original) - Ratio(rendition)) <= 0.03)
  }

  // ------------------------------------------------------------- rounding

  lemma RoundedIsNearest(n: nat, d: Side)
    ensures 2 * n - d <= 2 * (d * Rounded(n, d)) <= 2 * n + d
  {
    var q, r := n / d, n % d;
    assert n == d * q + r;
    assert d * (q + 1) == d * q + d;
  }

  /** Halfway between two integers it is the even one. */
  lemma TiesGoToEven(n: nat, d: Side)
    requires 2 * (n % d) == d
    ensures Rounded(n, d) % 2 == 0
  {}

  lemma Products(a: nat, b: nat, c: nat)
    requires a <= b
    ensures c * a <= c * b && a * c <= b * c
  {
    assert c * (b - a) == c * b - c * a;
  }

  /** A multiple that is within half a divisor of another one is that other one. */
  lemma Nearest(m: Side, k: nat, l: nat)
    requires 2 * (m * k) <= 2 * (m * l) + m
    ensures k <= l
  {
    if k > l {
      Products(l + 1, k, m);
      Successor(m, l);
    }
  }

  lemma Successor(m: nat, l: nat)
    ensures m * (l + 1) == m * l + m
  {}

  /** Rounding is exact on whole numbers. */
  lemma RoundedWhole(m: Side, l: nat)
    ensures Rounded(m * l, m) == l
  {
    hide Rounded;
    RoundedIsNearest(m * l, m);
    Nearest(m, Rounded(m * l, m), l);
    Nearest(m, l, Rounded(m * l, m));
  }

  /** The short side never exceeds the long one. */
  lemma RoundedShort(s: Side, m: Side, l: Side)
    requires s <= m
    ensures Rounded(s * l, m) <= l
  {
    hide Rounded;
    RoundedIsNearest(s * l, m);
    Products(s, m, l);
    Nearest(m, Rounded(s * l, m), l);
  }

  /** The exact long-edge rule holds of every rendition, whatever the original's shape. */
  lemma LongEdgeIsExact(original: Size, longEdge: Side)
    ensures Resized(original, longEdge).Long() == if original.Long() < longEdge then original.Long() else longEdge
  {
    RoundedWhole(original.Long(), longEdge);
    RoundedShort(original.Short(), original.Long(), longEdge);
  }

  // ------------------------------------------------------------- ratios

  /** Two ratios differ by at most 0.03 exactly when their cross products are close. */
  lemma RatioRule(a: Side, b: Side, c: Side, d: Side)
    ensures Abs(a as real / b as real - c as real / d as real) <= 0.03
       <==> -3 * (b * d) <= 100 * (a * d - c * b) <= 3 * (b * d)
  {
    var x, y, z, w := a as real, b as real, c as real, d as real;
    Gap(x, y, z, w);
    Positive(y, w);
    Casts(a, b, c, d);
    Measured(x / y - z / w, y * w, a * d - c * b, b * d);
  }

  lemma Measured(gap: real, scale: real, n: int, d: int)
    requires scale > 0.0 && gap * scale == n as real && scale == d as real
    ensures Abs(gap) <= 0.03 <==> -3 * d <= 100 * n <= 3 * d
  {
    Scaled(gap, scale, n as real);
    Hundredths(n, d);
    assert Abs(gap) <= 0.03 <==> -0.03 <= gap <= 0.03;
  }

  lemma Casts(a: int, b: int, c: int, d: int)
    ensures (b * d) as real == b as real * d as real
    ensures (a * d - c * b) as real == a as real * d as real - c as real * b as real
  {
    Cast(b, d);
    Cast(a, d);
    Cast(c, b);
  }

  lemma Cast(a: int, b: int)
    ensures (a * b) as real == a as real * b as real
  {}

  lemma Hundredths(n: int, d: int)
    ensures n as real <= 0.03 * d as real <==> 100 * n <= 3 * d
    ensures n as real >= -0.03 * d as real <==> 100 * n >= -3 * d
  {
    assert (100 * n) as real == 100.0 * n as real && (3 * d) as real == 3.0 * d as real;
  }

  lemma Positive(y: real, w: real)
    requires y > 0.0 && w > 0.0
    ensures y * w > 0.0
  {}

  lemma Gap(x: real, y: real, z: real, w: real)
    requires y > 0.0 && w > 0.0
    ensures (x / y - z / w) * (y * w) == x * w - z * y
  {
    var p, q := x / y, z / w;
    assert p * y == x && q * w == z;
    Distributed(p, q, y, w);
  }

  lemma Distributed(p: real, q: real, y: real, w: real)
    ensures (p - q) * (y * w) == (p * y) * w - (q * w) * y
  {}

  lemma Scaled(gap: real, scale: real, product: real)
    requires scale > 0.0 && product == gap * scale
    ensures gap <= 0.03 <==> product <= 0.03 * scale
    ensures gap >= -0.03 <==> product >= -0.03 * scale
  {
    assert product - 0.03 * scale == (gap - 0.03) * scale;
    assert product + 0.03 * scale == (gap + 0.03) * scale;
    Sign(gap - 0.03, scale);
    Sign(gap + 0.03, scale);
  }

  lemma Sign(x: real, scale: real)
    requires scale > 0.0
    ensures x <= 0.0 <==> x * scale <= 0.0
    ensures x >= 0.0 <==> x * scale >= 0.0
  {}

  /** The side lengths of a rendition that was made smaller. */
  lemma ResizedSides(original: Size, longEdge: Side)
    requires original.Long() > longEdge
    ensures
      var k := AtLeastOne(Rounded(original.Short() * longEdge, original.Long()));
      Resized(original, longEdge) == if original.width > original.height then Size(longEdge, k) else Size(k, longEdge)
  {
    RoundedWhole(original.Long(), longEdge);
  }

  lemma Cancel(a: int, b: int, m: Side)
    requires a * m <= b * m
    ensures a <= b
  {
    assert (a - b - 1) * m == a * m - b * m - m;
    if a > b { Products(0, a - b - 1, m); }
  }

  lemma PositiveFactor(s: Side, x: int)
    requires s * x > 0
    ensures x > 0
  {}

  /** The rendered short side is far from zero when the original is not too long. */
  lemma ShortSideIsLong(s: Side, m: Side, n: nat, k: Side)
    requires k == AtLeastOne(Rounded(n, m))
    requires 100 * (m * m) <= 3 * (s * (2 * n - m))
    ensures 0 - m <= 2 * (m * k - n) <= m
    ensures 50 * m <= 3 * (s * k)
  {
    hide Rounded;
    RoundedIsNearest(n, m);
    PositiveFactor(m, m);
    PositiveFactor(s, 2 * n - m);
    PositiveFactor(m, Rounded(n, m));
    LongEnough(s, m, 2 * n - m, k);
  }

  lemma LongEnough(s: Side, m: Side, x: nat, k: Side)
    requires 100 * (m * m) <= 3 * (s * x) && x <= 2 * (m * k)
    ensures 50 * m <= 3 * (s * k)
  {
    Products(x, 2 * (m * k), s);
    assert s * (2 * (m * k)) == (2 * (s * k)) * m;
    assert (6 * (s * k)) * m == 3 * ((2 * (s * k)) * m) && (100 * m) * m == 100 * (m * m);
    Cancel(100 * m, 6 * (s * k), m);
  }

  /** What an original must satisfy for its rendition to keep the proportions. */
  predicate NotTooLong(original: Size, longEdge: Side) {
    var s, m := original.Short(), original.Long();
    100 * (m * m) <= 3 * (s * (2 * (s * longEdge) - m))
  }

  /** The short side of a rendition that was made smaller. */
  function ShortEdge(original: Size, longEdge: Side): Side {
    AtLeastOne(Rounded(original.Short() * longEdge, original.Long()))
  }

  /** How far rounding moved the short side, in units of one long side of the original. */
  function Drift(original: Size, longEdge: Side): int {
    original.Long() * ShortEdge(original, longEdge) - longEdge * original.Short()
  }

  /** Portrait, square, or not made smaller; a landscape that is made smaller must not drift far. */
  predicate KeepsShape(original: Size, longEdge: Side) {
    || original.width <= original.height
    || original.Long() <= longEdge
    || (var bound := 3 * (original.Short() * ShortEdge(original, longEdge));
        -bound <= 100 * Drift(original, longEdge) <= bound)
  }

  /** Rounding moves the short side by at most half a unit, or up to one. */
  lemma RoundedSide(n: nat, m: Side, k: Side)
    requires k == AtLeastOne(Rounded(n, m))
    ensures 2 * (m * k - n) >= 0 - m
    ensures 2 * (m * k - n) <= m || (k == 1 && m * k - n <= m)
    ensures 2 * n >= m ==> 2 * (m * k - n) <= m
  {
    hide Rounded;
    RoundedIsNearest(n, m);
  }

  /** A rendition whose short side is its width is always close enough. */
  lemma PortraitIsClose(s: Side, m: Side, l: Side, k: Side)
    requires s <= m && 34 <= l && k == AtLeastOne(Rounded(s * l, m))
    ensures Abs(s as real / m as real - k as real / l as real) <= 0.03
  {
    RoundedSide(s * l, m, k);
    hide Rounded, AtLeastOne, Abs;
    Products(34, l, m);
    Small(m, m * k - s * l, m * l);
    RatioRule(s, m, k, l);
    assert k * m == m * k;
  }

  lemma Small(m: Side, x: int, y: int)
    requires 0 - m <= 2 * x && x <= m && 34 * m <= y
    ensures -3 * y <= 100 * (0 - x) <= 3 * y
  {}

  /** In landscape the turned alternative of the server's rule never helps: near a square the plain one holds. */
  lemma NearSquare(s: Side, m: Side, l: Side, k: Side)
    requires s < m && 34 <= l && k <= l && k == AtLeastOne(Rounded(s * l, m))
    requires -3 * (m * k) <= 100 * (s * k - l * m)
    ensures -3 * (s * k) <= 100 * (m * k - l * s) <= 3 * (s * k)
  {
    Factored(s, m, k);
    LongSidesAreClose(s, m, l, k);
    DriftIsSmall(s, m, l, k);
    hide Rounded, AtLeastOne;
    Products(33, k, s);
    Smaller(s, m, m * k - l * s, s * k);
  }

  lemma Factored(s: int, m: int, k: int)
    ensures k * (100 * s + 3 * m) == 100 * (s * k) + 3 * (m * k)
  {}

  lemma DriftIsSmall(s: Side, m: Side, l: Side, k: Side)
    requires 34 <= l && 97 * m <= 100 * s && k == AtLeastOne(Rounded(s * l, m))
    ensures 0 - m <= 2 * (m * k - l * s) <= m
  {
    hide Rounded, AtLeastOne;
    Products(34, l, s);
    RoundedSide(s * l, m, k);
    assert s * l == l * s;
  }

  lemma Smaller(s: Side, m: Side, x: int, y: int)
    requires 0 - m <= 2 * x <= m && 97 * m <= 100 * s && 33 * s <= y
    ensures -3 * y <= 100 * x <= 3 * y
  {}

  lemma LongSidesAreClose(s: Side, m: Side, l: Side, k: Side)
    requires s < m && 34 <= l && k <= l
    requires 100 * (l * m) <= k * (100 * s + 3 * m)
    ensures 97 * m <= 100 * s && 33 <= k
  {
    Products(k, l, 100 * s + 3 * m);
    assert 100 * (l * m) == (100 * m) * l && l * (100 * s + 3 * m) == (100 * s + 3 * m) * l;
    Cancel(100 * m, 100 * s + 3 * m, l);
    Products(100 * s + 3 * m, 103 * m, k);
    assert 100 * (l * m) == (100 * l) * m && k * (103 * m) == (103 * k) * m;
    Cancel(100 * l, 103 * k, m);
  }

  /** The server's two alternatives for a landscape that was made smaller, in whole numbers. */
  lemma LandscapeRule(original: Size, longEdge: Side)
    requires original.width > original.height && original.Long() > longEdge
    ensures
      var s, m, k := original.Short(), original.Long(), ShortEdge(original, longEdge);
      Accepted(original, Resized(original, longEdge), longEdge) <==>
        || -3 * (s * k) <= 100 * (m * k - longEdge * s) <= 3 * (s * k)
        || -3 * (m * k) <= 100 * (s * k - longEdge * m) <= 3 * (m * k)
  {
    var s, m, k := original.Short(), original.Long(), ShortEdge(original, longEdge);
    LongEdgeIsExact(original, longEdge);
    ResizedSides(original, longEdge);
    hide Rounded, AtLeastOne, Abs;
    TurnedRatio(original);
    RatioRule(m, s, longEdge, k);
    RatioRule(s, m, longEdge, k);
  }

  /** Main result: the server accepts a rendition exactly when the original is portrait or square, or not longer
      than the long edge, or rounding its short side drifted little enough. */
  lemma RenditionAcceptedIff(original: Size, longEdge: Side)
    requires 34 <= longEdge
    ensures Accepted(original, Resized(original, longEdge), longEdge) <==> KeepsShape(original, longEdge)
  {
    LongEdgeIsExact(original, longEdge);
    if original.Long() <= longEdge {
      hide Ratio;
    } else if original.width <= original.height {
      ResizedSides(original, longEdge);
      PortraitIsClose(original.width, original.height, longEdge, ShortEdge(original, longEdge));
    } else {
      var s, m, k := original.Short(), original.Long(), ShortEdge(original, longEdge);
      LandscapeRule(original, longEdge);
      RoundedShort(s, m, longEdge);
      hide Accepted, Resized, Rounded;
      if -3 * (m * k) <= 100 * (s * k - longEdge * m) { NearSquare(s, m, longEdge, k); }
    }
  }

  /** An original that the server recorded turned is judged alike. */
  lemma TurnedIsJudgedAlike(original: Size, rendition: Size, longEdge: Side)
    ensures Accepted(original.Turned(), rendition, longEdge) <==> Accepted(original, rendition, longEdge)
  {
    hide Ratio;
    TurnedRatio(original);
    TurnedRatio(original.Turned());
    assert original.Turned().Turned() == original;
  }

  /** An original whose long side is not out of proportion drifts little enough. */
  lemma NotTooLongKeepsShape(original: Size, longEdge: Side)
    requires NotTooLong(original, longEdge)
    ensures KeepsShape(original, longEdge)
  {
    hide Rounded, AtLeastOne;
    var s, m, n := original.Short(), original.Long(), original.Short() * longEdge;
    ShortSideIsLong(s, m, n, ShortEdge(original, longEdge));
    assert longEdge * s == n;
  }

  lemma TurnedRatio(size: Size)
    ensures 1.0 / Ratio(size) == Ratio(size.Turned())
  {
    var w, h := size.width as real, size.height as real;
    assert (w / h) * (h / w) == 1.0 by { assert (w / h) * h == w && (h / w) * w == h; }
  }

  /** Five to one always keeps its shape as a thumbnail, ten to one as a preview. */
  lemma FiveToOne(original: Size)
    ensures original.Long() <= 5 * original.Short() ==> KeepsShape(original, THUMBNAIL_LONG_EDGE)
    ensures original.Long() <= 10 * original.Short() ==> KeepsShape(original, PREVIEW_LONG_EDGE)
  {
    hide KeepsShape;
    var s, m := original.Short(), original.Long();
    if m <= 5 * s {
      Squares(s, m, 5, THUMBNAIL_LONG_EDGE);
      NotTooLongKeepsShape(original, THUMBNAIL_LONG_EDGE);
    }
    if m <= 10 * s {
      Squares(s, m, 10, PREVIEW_LONG_EDGE);
      NotTooLongKeepsShape(original, PREVIEW_LONG_EDGE);
    }
  }

  lemma Squares(s: Side, m: Side, ratio: Side, l: Side)
    requires s <= m <= ratio * s
    requires (100 + 3) * (ratio * ratio) <= 6 * l
    ensures 100 * (m * m) <= 3 * (s * (2 * (s * l) - m))
  {
    SquareBound(s, m, ratio);
    Products((100 + 3) * (ratio * ratio), 6 * l, s * s);
    Products(s, m, m);
    Rearranged(s, m, l, ratio * ratio, s * s);
  }

  lemma SquareBound(s: Side, m: Side, ratio: Side)
    requires m <= ratio * s
    ensures m * m <= (ratio * ratio) * (s * s)
  {
    var x := ratio * s;
    Products(m, x, m);
    Products(m, x, x);
    assert x * x == (ratio * ratio) * (s * s);
  }

  lemma Rearranged(s: Side, m: Side, l: Side, rr: Side, ss: Side)
    requires ss == s * s && s * m <= m * m <= rr * ss
    requires ((100 + 3) * rr) * ss <= (6 * l) * ss
    ensures 100 * (m * m) <= 3 * (s * (2 * (s * l) - m))
  {
    assert ((100 + 3) * rr) * ss == (100 + 3) * (rr * ss);
    assert (6 * l) * ss == 6 * (l * ss);
    Expanded(s, l, m);
  }

  lemma Expanded(s: int, l: int, m: int)
    ensures s * (2 * (s * l) - m) == 2 * (l * (s * s)) - s * m
  {
    assert s * (s * l) == (s * s) * l;
    assert s * (2 * (s * l) - m) == 2 * (s * (s * l)) - s * m;
  }

  /** A landscape panorama of less than six to one whose thumbnail the server refuses: the short side drifts by
      more than allowed. Upright, and a longer one that drifts less, it accepts. */
  lemma PanoramaExample()
    ensures !Accepted(Size(5919, 1000), Resized(Size(5919, 1000), THUMBNAIL_LONG_EDGE), THUMBNAIL_LONG_EDGE)
    ensures 100 * Drift(Size(5919, 1000), THUMBNAIL_LONG_EDGE) > 3 * (1000 * ShortEdge(Size(5919, 1000), THUMBNAIL_LONG_EDGE))
    ensures Accepted(Size(1000, 5919), Resized(Size(1000, 5919), THUMBNAIL_LONG_EDGE), THUMBNAIL_LONG_EDGE)
    ensures Accepted(Size(5120, 700), Resized(Size(5120, 700), THUMBNAIL_LONG_EDGE), THUMBNAIL_LONG_EDGE)
  {
    RenditionAcceptedIff(Size(5919, 1000), THUMBNAIL_LONG_EDGE);
    RenditionAcceptedIff(Size(1000, 5919), THUMBNAIL_LONG_EDGE);
    RenditionAcceptedIff(Size(5120, 700), THUMBNAIL_LONG_EDGE);
    hide Accepted, Resized;
    assert ShortEdge(Size(5919, 1000), THUMBNAIL_LONG_EDGE) == 87;
    assert ShortEdge(Size(5120, 700), THUMBNAIL_LONG_EDGE) == 70;
  }
}
