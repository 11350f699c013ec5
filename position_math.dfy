/**
 * Position arithmetic of the blind controller: the absolute level scale
 * [levelBottom, levelTop], percentages on it, the mirrored (inverse) scale,
 * rounding to the configured increment, the validity check for requested
 * levels and the normalisation of window angles.
 */
module PositionMath {
  import opened Wrappers

  /** A blind level; `None` is the source's `NaN` ("no level"). */
  type Level = Option<real>

  /** The two levels the controller works out on each event (`tempData`). */
  datatype Temp = Temp(level: Level, levelInverse: Level)

  /** The level scale after configuration: bottom (closed) to top (open) and the step size. */
  datatype BlindConfig = BlindConfig(levelTop: real, levelBottom: real, increment: real)

  /** The scale is ordered (the configuration swaps a reversed pair) and the step is positive. */
  predicate WellFormed(c: BlindConfig)
  {
    c.increment > 0.0 && c.levelBottom <= c.levelTop
  }

  /**
   * Reading the configured open and closed levels: a pair given with the open level
   * below the closed one is swapped and the scale is flagged as reversed.
   */
  function Configure(openLevel: real, closedLevel: real, increment: real): (r: (BlindConfig, bool))
    ensures r.0.levelBottom <= r.0.levelTop && r.0.increment == increment
    ensures {r.0.levelBottom, r.0.levelTop} == {openLevel, closedLevel}
    ensures r.1 <==> openLevel < closedLevel
  {
    if openLevel < closedLevel then (BlindConfig(closedLevel, openLevel, increment), true)
    else (BlindConfig(openLevel, closedLevel, increment), false)
  }

  /** `Number.isInteger` on an exact number. */
  predicate IsInteger(x: real)
  {
    x == x.Floor as real
  }

  /** `x` is a whole multiple of the (non-zero) step `inc`. */
  predicate IsMultiple(x: real, inc: real)
    requires inc != 0.0
  {
    IsInteger(x / inc)
  }

  /** All three of top, bottom and increment are whole numbers. */
  predicate AllInteger(c: BlindConfig)
  {
    IsInteger(c.levelTop) && IsInteger(c.levelBottom) && IsInteger(c.increment)
  }

  /** `Math.round`: the integer nearest to `x`, halves rounded up. */
  function Round(x: real): (r: int)
    ensures x - 0.5 < r as real <= x + 0.5
  {
    (x + 0.5).Floor
  }

  /** The `k`-th point of the increment grid. */
  function GridPoint(k: int, inc: real): real
  {
    k as real * inc
  }

  /** A grid point divided by the increment gives back its index. */
  lemma GridPointIndex(k: int, inc: real)
    requires inc > 0.0
    ensures GridPoint(k, inc) / inc == k as real
  {
  }

  /** The multiple of the increment nearest to `pos` (before clamping). */
  function Nearest(c: BlindConfig, pos: real): (r: real)
    requires c.increment > 0.0
    ensures pos - c.increment / 2.0 < r <= pos + c.increment / 2.0
  {
    var k := Round(pos / c.increment);
    MultipleBounds(pos, c.increment, k);
    GridPoint(k, c.increment)
  }

  /** The nearest grid point is on the grid. */
  lemma NearestIsMultiple(c: BlindConfig, pos: real)
    requires c.increment > 0.0
    ensures IsMultiple(Nearest(c, pos), c.increment)
  {
    GridPointIndex(Round(pos / c.increment), c.increment);
  }

  /** Scaling the rounding bounds of `pos / inc` back by `inc`. */
  lemma MultipleBounds(pos: real, inc: real, k: int)
    requires inc > 0.0
    requires pos / inc - 0.5 < k as real <= pos / inc + 0.5
    ensures pos - inc / 2.0 < GridPoint(k, inc) <= pos + inc / 2.0
  {
    var q := pos / inc;
    assert q * inc == pos;
    assert (q - 0.5) * inc == pos - inc / 2.0;
    assert (q + 0.5) * inc == pos + inc / 2.0;
    MulLt(q - 0.5, k as real, inc);
    MulLe(k as real, q + 0.5, inc);
  }

  /** Multiplying by a positive factor keeps a strict order. */
  lemma MulLt(a: real, b: real, m: real)
    requires m > 0.0 && a < b
    ensures a * m < b * m
  {
    assert (b - a) * m > 0.0;
    assert b * m - a * m == (b - a) * m;
  }

  /** Multiplying by a positive factor keeps an order. */
  lemma MulLe(a: real, b: real, m: real)
    requires m > 0.0 && a <= b
    ensures a * m <= b * m
  {
    if a < b { MulLt(a, b, m); }
  }

  /** Dividing by a positive divisor keeps an order. */
  lemma DivLe(a: real, b: real, m: real)
    requires m > 0.0 && a <= b
    ensures a / m <= b / m
  {
    assert b / m - a / m == (b - a) / m;
  }

  /**
   * `posRound_`: round to the nearest multiple of the increment, then clamp to
   * [levelBottom, levelTop].
   */
  function PosRound(c: BlindConfig, pos: real): (r: real)
    requires WellFormed(c)
    ensures c.levelBottom <= r <= c.levelTop
    ensures c.levelBottom <= Nearest(c, pos) <= c.levelTop ==> r == Nearest(c, pos)
    ensures Nearest(c, pos) > c.levelTop ==> r == c.levelTop
    ensures Nearest(c, pos) < c.levelBottom ==> r == c.levelBottom
  {
    var n := Nearest(c, pos);
    var p := if n > c.levelTop then c.levelTop else n;
    if p < c.levelBottom then c.levelBottom else p
  }

  /** The unrounded point of the scale at a fraction `percent` (0 = bottom, 1 = top). */
  function OnScale(c: BlindConfig, percent: real): real
  {
    (c.levelTop - c.levelBottom) * percent + c.levelBottom
  }

  /** `posPrcToAbs_`: the absolute level for a fraction (0 = bottom, 1 = top), rounded and clamped. */
  function PosPrcToAbs(c: BlindConfig, percent: real): (r: real)
    requires WellFormed(c)
    ensures c.levelBottom <= r <= c.levelTop
  {
    PosRound(c, OnScale(c, percent))
  }

  /** Rounding keeps the order of levels: a higher level never rounds below a lower one. */
  lemma PosRoundMonotone(c: BlindConfig, x: real, y: real)
    requires WellFormed(c) && x <= y
    ensures PosRound(c, x) <= PosRound(c, y)
  {
    DivLe(x, y, c.increment);
    var kx := Round(x / c.increment);
    var ky := Round(y / c.increment);
    assert kx <= ky;
    MulLe(kx as real, ky as real, c.increment);
    assert GridPoint(kx, c.increment) <= GridPoint(ky, c.increment);
    assert Nearest(c, x) <= Nearest(c, y);
  }

  /** A larger fraction of the scale gives a level at least as high. */
  lemma PosPrcToAbsMonotone(c: BlindConfig, p: real, q: real)
    requires WellFormed(c) && p <= q
    ensures PosPrcToAbs(c, p) <= PosPrcToAbs(c, q)
  {
    if c.levelTop > c.levelBottom {
      MulLe(p, q, c.levelTop - c.levelBottom);
      assert (c.levelTop - c.levelBottom) * p == p * (c.levelTop - c.levelBottom);
      assert (c.levelTop - c.levelBottom) * q == q * (c.levelTop - c.levelBottom);
    }
    PosRoundMonotone(c, OnScale(c, p), OnScale(c, q));
  }

  /**
   * `posAbsToPrc_`: the fraction of the scale a level stands at. On a scale of width
   * zero JavaScript divides by zero and produces NaN or an infinity: `None`.
   */
  function PosAbsToPrc(c: BlindConfig, level: real): (r: Option<real>)
    ensures r.Some? <==> c.levelTop != c.levelBottom
    ensures r.Some? ==> c.levelBottom + r.value * (c.levelTop - c.levelBottom) == level
  {
    if c.levelTop == c.levelBottom then None
    else
      var p := (level - c.levelBottom) / (c.levelTop - c.levelBottom);
      assert p * (c.levelTop - c.levelBottom) == level - c.levelBottom;
      Some(p)
  }

  /** `getInversePos_`: the level mirrored about the middle of the scale; NaN stays NaN. */
  function InversePos(c: BlindConfig, level: Level): (r: Level)
    requires WellFormed(c)
    ensures r.Some? <==> level.Some? && c.levelTop != c.levelBottom
    ensures r.Some? ==> c.levelBottom <= r.value <= c.levelTop
  {
    match level
    case None => None
    case Some(l) =>
      match PosAbsToPrc(c, l)
      case None => None
      case Some(p) => Some(PosPrcToAbs(c, 1.0 - p))
  }

  /** `getRealLevel_`: the level in the configured (possibly reversed) orientation. */
  function RealLevel(levelReverse: bool, level: Level, levelInverse: Level): (r: Level)
    ensures levelReverse ==> r == levelInverse
    ensures !levelReverse ==> r == level
  {
    if levelReverse then levelInverse else level
  }

  /**
   * `validPosition_`: an empty or NaN level, a level outside the scale and, when top,
   * bottom and increment are whole numbers, a fractional level or one off the increment
   * are rejected; otherwise `allowRound` accepts and a plain request needs a multiple
   * of the increment.
   */
  function ValidPosition(c: BlindConfig, level: Level, allowRound: bool): (r: bool)
    requires WellFormed(c)
    ensures level.None? ==> !r
    ensures r ==> c.levelBottom <= level.value <= c.levelTop
    ensures r && AllInteger(c) ==> IsInteger(level.value) && IsMultiple(level.value, c.increment)
    ensures r && !allowRound ==> IsMultiple(level.value, c.increment)
  {
    match level
    case None => false
    case Some(l) =>
      if l < c.levelBottom then false
      else if l > c.levelTop then false
      else if AllInteger(c) && (!IsMultiple(l, c.increment) || !IsInteger(l)) then false
      else if allowRound then true
      else IsMultiple(l, c.increment)
  }

  /** Math.round of a whole number is that number. */
  lemma RoundOfInteger(k: int)
    ensures Round(k as real) == k
  {
  }

  /** A multiple of the increment is its own nearest multiple. */
  lemma NearestOfMultiple(c: BlindConfig, x: real)
    requires c.increment > 0.0 && IsMultiple(x, c.increment)
    ensures Nearest(c, x) == x
  {
    var k := (x / c.increment).Floor;
    RoundOfInteger(k);
    assert x / c.increment == k as real;
    assert x == k as real * c.increment;
  }

  /** A level on the scale that is a multiple of the increment is left alone by rounding. */
  lemma PosRoundFixesMultiples(c: BlindConfig, x: real)
    requires WellFormed(c)
    requires c.levelBottom <= x <= c.levelTop && IsMultiple(x, c.increment)
    ensures PosRound(c, x) == x
  {
    NearestOfMultiple(c, x);
  }

  /** Percentages 0 and 1 map to the ends of the scale when both ends lie on the increment grid. */
  lemma {:induction false} PrcToAbsEnds(c: BlindConfig)
    requires WellFormed(c)
    requires IsMultiple(c.levelBottom, c.increment) && IsMultiple(c.levelTop, c.increment)
    ensures PosPrcToAbs(c, 0.0) == c.levelBottom
    ensures PosPrcToAbs(c, 1.0) == c.levelTop
  {
    assert OnScale(c, 0.0) == c.levelBottom;
    assert OnScale(c, 1.0) == c.levelTop;
    PosRoundFixesMultiples(c, c.levelBottom);
    PosRoundFixesMultiples(c, c.levelTop);
  }

  /** Sums and differences of grid points stay on the grid. */
  lemma MirrorOnGrid(inc: real, t: real, b: real, l: real)
    requires inc > 0.0
    requires IsMultiple(t, inc) && IsMultiple(b, inc) && IsMultiple(l, inc)
    ensures IsMultiple(t + b - l, inc)
  {
    var kt, kb, kl := (t / inc).Floor, (b / inc).Floor, (l / inc).Floor;
    assert t == kt as real * inc && b == kb as real * inc && l == kl as real * inc;
    assert t + b - l == (kt + kb - kl) as real * inc;
    assert (t + b - l) / inc == (kt + kb - kl) as real;
  }

  /** The affine step of the inverse: 1 - p on the scale is top + bottom - level. */
  lemma MirrorAlgebra(c: BlindConfig, l: real, p: real)
    requires c.levelBottom + p * (c.levelTop - c.levelBottom) == l
    ensures OnScale(c, 1.0 - p) == c.levelTop + c.levelBottom - l
  {
    var t, b := c.levelTop, c.levelBottom;
    assert (t - b) * (1.0 - p) == (t - b) - p * (t - b);
  }

  /** The inverse of a level is the rounded mirror image top + bottom - level. */
  lemma InverseUnfold(c: BlindConfig, l: real)
    requires WellFormed(c) && c.levelBottom < c.levelTop
    ensures InversePos(c, Some(l)) == Some(PosRound(c, c.levelTop + c.levelBottom - l))
  {
    var p := PosAbsToPrc(c, l).value;
    MirrorAlgebra(c, l, p);
  }

  /** On a grid-aligned scale the inverse of a grid level is its mirror image top + bottom - level. */
  lemma InverseIsMirror(c: BlindConfig, l: real)
    requires WellFormed(c) && c.levelBottom < c.levelTop
    requires IsMultiple(c.levelBottom, c.increment) && IsMultiple(c.levelTop, c.increment)
    requires c.levelBottom <= l <= c.levelTop && IsMultiple(l, c.increment)
    ensures InversePos(c, Some(l)) == Some(c.levelTop + c.levelBottom - l)
  {
    InverseUnfold(c, l);
    MirrorOnGrid(c.increment, c.levelTop, c.levelBottom, l);
    PosRoundFixesMultiples(c, c.levelTop + c.levelBottom - l);
  }

  /** Inverting twice gives back every valid grid level. */
  lemma InverseInvolution(c: BlindConfig, l: real)
    requires WellFormed(c) && c.levelBottom < c.levelTop
    requires IsMultiple(c.levelBottom, c.increment) && IsMultiple(c.levelTop, c.increment)
    requires c.levelBottom <= l <= c.levelTop && IsMultiple(l, c.increment)
    ensures InversePos(c, InversePos(c, Some(l))) == Some(l)
  {
    InverseIsMirror(c, l);
    var m := c.levelTop + c.levelBottom - l;
    MirrorOnGrid(c.increment, c.levelTop, c.levelBottom, l);
    InverseIsMirror(c, m);
  }

  /** A whole multiple of a whole number is whole. */
  lemma MultipleOfIntegerIsInteger(x: real, inc: real)
    requires inc > 0.0 && IsInteger(inc) && IsMultiple(x, inc)
    ensures IsInteger(x)
  {
    var k, m := (x / inc).Floor, inc.Floor;
    assert x == k as real * inc;
    assert x == (k * m) as real;
  }

  /**
   * Valid plain positions are exactly the fixed points of rounding, when both ends of
   * the scale lie on the increment grid.
   */
  lemma ValidIffRoundFixed(c: BlindConfig, l: real)
    requires WellFormed(c)
    requires IsMultiple(c.levelBottom, c.increment) && IsMultiple(c.levelTop, c.increment)
    ensures ValidPosition(c, Some(l), false) <==> PosRound(c, l) == l
  {
    if ValidPosition(c, Some(l), false) {
      PosRoundFixesMultiples(c, l);
    }
    if PosRound(c, l) == l {
      NearestIsMultiple(c, l);
      assert IsMultiple(l, c.increment);
      if AllInteger(c) {
        MultipleOfIntegerIsInteger(l, c.increment);
      }
    }
  }

  /**
   * `allowRound` only relaxes the increment check on a fractional configuration; on a
   * whole-number configuration it changes nothing.
   */
  lemma AllowRoundEffect(c: BlindConfig, l: real)
    requires WellFormed(c)
    ensures AllInteger(c) ==> (ValidPosition(c, Some(l), true) <==> ValidPosition(c, Some(l), false))
    ensures !AllInteger(c) ==> (ValidPosition(c, Some(l), true) <==> c.levelBottom <= l <= c.levelTop)
  {
  }

  /**
   * `angleNorm_`: shift an angle by whole turns into [0, 360]; a negative angle lands
   * in [0, 360), a positive one in (0, 360], one already in range is kept.
   */
  method AngleNorm(angle: real) returns (r: real)
    ensures 0.0 <= r <= 360.0
    ensures IsInteger((r - angle) / 360.0)
    ensures angle < 0.0 ==> r < 360.0
    ensures angle > 0.0 ==> r > 0.0
    ensures 0.0 <= angle <= 360.0 ==> r == angle
  {
    r := angle;
    ghost var k: int := 0;
    while r < 0.0
      invariant r == angle + 360.0 * k as real
      invariant angle < 0.0 ==> r < 360.0
      invariant angle >= 0.0 ==> r == angle
      decreases if r < 0.0 then (-r).Floor + 1 else 0
    {
      r := r + 360.0;
      k := k + 1;
    }
    while r > 360.0
      invariant r == angle + 360.0 * k as real
      invariant r >= 0.0
      invariant angle > 0.0 ==> r > 0.0
      invariant angle < 0.0 ==> r < 360.0
      invariant 0.0 <= angle <= 360.0 ==> r == angle
      decreases r.Floor
    {
      r := r - 360.0;
      k := k - 1;
    }
    assert (r - angle) / 360.0 == k as real;
  }
}
