/**
 * `calcBlindSunPosition`: the level the sun asks for. The sun's position, whether it
 * stands in the window, the shadow height it casts and the oversteer level that
 * applies (if any) are worked out outside and arrive as a `SunInput`.
 */
module SunEngine {
  import opened Wrappers
  import opened JsValues
  import opened PositionMath

  /**
   * What the ephemeris gives for this event: whether the sun stands in the window,
   * its altitude in degrees, the height its light reaches on the window
   * (`tan(altitude) * floorLength`), and the level of the first oversteer entry whose
   * comparison holds (`None` when oversteering is off or none holds).
   */
  datatype SunInput = SunInput(inWindow: bool, altitude: real, height: real, oversteer: Option<Level>)

  /**
   * The node's sun settings: the mode (1 = winter, 2 = summer), the minimum altitude
   * and minimum change, the smoothing time in milliseconds (`None` when the
   * configuration gave one too long and the node dropped it), the window's top and
   * bottom, and the configured minimum and maximum levels.
   */
  datatype SunSettings = SunSettings(
    mode: JsNum,
    minAltitude: JsNum,
    minDelta: JsNum,
    smoothTime: Option<real>,
    windowTop: real,
    windowBottom: real,
    levelMin: Level,
    levelMax: Level)

  /** The outcome: the working levels, the reason code, and when the sun may next change the level. */
  datatype SunResult = SunResult(temp: Temp, code: int, changeAgain: Option<real>)

  const WinterMode: JsNum := Fin(1.0)
  const SummerMode: JsNum := Fin(2.0)

  /** JavaScript `a < b` for levels: false when either is NaN. */
  predicate Below(a: Level, b: Level)
  {
    a.Some? && b.Some? && a.value < b.value
  }

  /** A number is truthy: neither 0 nor NaN. */
  predicate NumTruthy(n: JsNum)
  {
    n != NaN && n != Fin(0.0)
  }

  /** A level and its mirror on the scale. */
  function WithInverse(c: BlindConfig, level: Level): (r: Temp)
    requires WellFormed(c)
    ensures r.level == level && r.levelInverse == InversePos(c, level)
  {
    Temp(level, InversePos(c, level))
  }

  /**
   * The level from the shadow height: fully closed (bottom) when the light reaches no
   * higher than the window's bottom, fully open (top) when it reaches the window's
   * top, and in between the same fraction of the level scale, rounded.
   */
  function HeightLevel(c: BlindConfig, s: SunSettings, height: real): (r: Temp)
    requires WellFormed(c)
    ensures r.level.Some? && c.levelBottom <= r.level.value <= c.levelTop
    ensures height <= s.windowBottom ==> r == Temp(Some(c.levelBottom), Some(c.levelTop))
    ensures s.windowBottom < height && height >= s.windowTop ==> r == Temp(Some(c.levelTop), Some(c.levelBottom))
    ensures s.windowBottom < height < s.windowTop ==>
      r == WithInverse(c, Some(PosPrcToAbs(c, (height - s.windowBottom) / (s.windowTop - s.windowBottom))))
  {
    if height <= s.windowBottom then Temp(Some(c.levelBottom), Some(c.levelTop))
    else if height >= s.windowTop then Temp(Some(c.levelTop), Some(c.levelBottom))
    else WithInverse(c, Some(PosPrcToAbs(c, (height - s.windowBottom) / (s.windowTop - s.windowBottom))))
  }

  /** `Math.abs(previous - level)`; NaN when the previous level is NaN. */
  function Delta(previous: Level, level: real): (r: Option<real>)
    ensures r.Some? <==> previous.Some?
    ensures r.Some? ==> r.value >= 0.0 && (r.value == previous.value - level || r.value == level - previous.value)
  {
    if previous.None? then None
    else if previous.value >= level then Some(previous.value - level) else Some(level - previous.value)
  }

  /**
   * Smoothing and the minimum change: inside the smoothing window the previous levels
   * are kept (11); a change smaller than the minimum that does not reach the bottom or
   * the top of the scale keeps them as well (14); otherwise the new level stands (9)
   * and the smoothing window starts anew.
   */
  function Hysteresis(c: BlindConfig, s: SunSettings, computed: Temp, previous: Temp, changeAgain: Option<real>, now: real): (r: SunResult)
    requires computed.level.Some?
    ensures r.code == 9 || r.code == 11 || r.code == 14
    ensures r.code == 11 <==> s.smoothTime.Some? && s.smoothTime.value > 0.0 && changeAgain.Some? && changeAgain.value > now
    ensures r.code != 9 ==> r.temp == previous && r.changeAgain == changeAgain
    ensures r.code == 14 ==> c.levelBottom < computed.level.value < c.levelTop
    ensures r.code == 9 ==>
      r.temp == computed && r.changeAgain == (if s.smoothTime.Some? then Some(now + s.smoothTime.value) else None)
  {
    var delta := Delta(previous.level, computed.level.value);
    if s.smoothTime.Some? && s.smoothTime.value > 0.0 && changeAgain.Some? && changeAgain.value > now then
      SunResult(previous, 11, changeAgain)
    else if Less(Fin(0.0), s.minDelta) && delta.Some? && Less(Fin(delta.value), s.minDelta)
      && computed.level.value > c.levelBottom && computed.level.value < c.levelTop then
      SunResult(previous, 14, changeAgain)
    else
      SunResult(computed, 9, if s.smoothTime.Some? then Some(now + s.smoothTime.value) else None)
  }

  /** A level below the configured minimum becomes the minimum (5), one above the maximum the maximum (6). */
  function ClampMinMax(c: BlindConfig, s: SunSettings, r0: SunResult): (r: SunResult)
    requires WellFormed(c)
    ensures r.changeAgain == r0.changeAgain
    ensures Below(r0.temp.level, s.levelMin) ==> r.code == 5 && r.temp == WithInverse(c, s.levelMin)
    ensures !Below(r0.temp.level, s.levelMin) && Below(s.levelMax, r0.temp.level) ==>
      r.code == 6 && r.temp == WithInverse(c, s.levelMax)
    ensures !Below(r0.temp.level, s.levelMin) && !Below(s.levelMax, r0.temp.level) ==> r == r0
  {
    if Below(r0.temp.level, s.levelMin) then SunResult(WithInverse(c, s.levelMin), 5, r0.changeAgain)
    else if Below(s.levelMax, r0.temp.level) then SunResult(WithInverse(c, s.levelMax), 6, r0.changeAgain)
    else r0
  }

  /**
   * `calcBlindSunPosition`. Outside the window, winter mode closes to the minimum
   * level (13) and other modes leave the level as it is (8). Summer mode with the sun
   * below the minimum altitude leaves it too (7). An applying oversteer sets its level
   * (10); winter mode opens to the maximum (12). Otherwise the shadow height gives the
   * level, then smoothing and the minimum change, then the minimum/maximum clamp.
   */
  function CalcBlindSunPosition(c: BlindConfig, s: SunSettings, sun: SunInput, temp: Temp, previous: Temp,
                                changeAgain: Option<real>, now: real): (r: SunResult)
    requires WellFormed(c)
    ensures !sun.inWindow && s.mode == WinterMode ==> r == SunResult(WithInverse(c, s.levelMin), 13, changeAgain)
    ensures !sun.inWindow && s.mode != WinterMode ==> r == SunResult(temp, 8, changeAgain)
    ensures r.code in {5, 6, 7, 8, 9, 10, 11, 12, 13, 14}
    ensures r.code in {7, 8} ==> r.temp == temp
    ensures r.code != 9 && r.code != 5 && r.code != 6 ==> r.changeAgain == changeAgain
  {
    if !sun.inWindow then
      if s.mode == WinterMode then SunResult(WithInverse(c, s.levelMin), 13, changeAgain)
      else SunResult(temp, 8, changeAgain)
    else if s.mode == SummerMode && NumTruthy(s.minAltitude) && Less(Fin(sun.altitude), s.minAltitude) then
      SunResult(temp, 7, changeAgain)
    else if sun.oversteer.Some? then SunResult(WithInverse(c, sun.oversteer.value), 10, changeAgain)
    else if s.mode == WinterMode then SunResult(WithInverse(c, s.levelMax), 12, changeAgain)
    else ClampMinMax(c, s, Hysteresis(c, s, HeightLevel(c, s, sun.height), previous, changeAgain, now))
  }

  /**
   * On the shadow-height path the result respects the configured limits: a level the
   * clamp did not touch (codes 9, 11, 14) is neither below the minimum nor above the
   * maximum, and the clamp codes give exactly the minimum (5) or maximum (6).
   */
  lemma GeometryWithinLimits(c: BlindConfig, s: SunSettings, sun: SunInput, temp: Temp, previous: Temp,
                             changeAgain: Option<real>, now: real)
    requires WellFormed(c)
    requires sun.inWindow && sun.oversteer.None? && s.mode != WinterMode
    requires !(s.mode == SummerMode && NumTruthy(s.minAltitude) && Less(Fin(sun.altitude), s.minAltitude))
    ensures var r := CalcBlindSunPosition(c, s, sun, temp, previous, changeAgain, now);
      r.code in {5, 6, 9, 11, 14}
      && (r.code == 5 ==> r.temp.level == s.levelMin)
      && (r.code == 6 ==> r.temp.level == s.levelMax)
      && (r.code in {9, 11, 14} ==> !Below(r.temp.level, s.levelMin) && !Below(s.levelMax, r.temp.level))
      && (r.code == 9 ==> r.temp == HeightLevel(c, s, sun.height))
      && (r.code in {11, 14} ==> r.temp == previous)
  {
    var h := Hysteresis(c, s, HeightLevel(c, s, sun.height), previous, changeAgain, now);
    assert h.code in {9, 11, 14};
  }

  /**
   * The shadow-height level grows with the height: a higher reach of the light never
   * closes the blind further.
   */
  lemma HeightLevelMonotone(c: BlindConfig, s: SunSettings, h1: real, h2: real)
    requires WellFormed(c) && h1 <= h2
    ensures HeightLevel(c, s, h1).level.value <= HeightLevel(c, s, h2).level.value
  {
    if s.windowBottom < h1 < s.windowTop && s.windowBottom < h2 < s.windowTop {
      var w := s.windowTop - s.windowBottom;
      DivLe(h1 - s.windowBottom, h2 - s.windowBottom, w);
      PosPrcToAbsMonotone(c, (h1 - s.windowBottom) / w, (h2 - s.windowBottom) / w);
    }
  }
}
