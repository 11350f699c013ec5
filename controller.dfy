/**
 * One input event of the blind controller: the previous result is kept for
 * comparison, a mode change is applied, then the manual override decides, or else
 * the rules and the sun do, and the result is clamped and possibly sent.
 */
module Controller {
  import opened Wrappers
  import opened JsValues
  import opened PositionMath
  import opened DateTimeHelper
  import opened Override
  import opened RuleEngine
  import opened SunEngine

  /**
   * What the node fixes when it is created: the level scale and whether it was
   * reversed, the prepared rules, the default level, the number of outputs, whether
   * sun control is on, the highest mode a message may select, the sun settings (whose
   * mode is the configured one) and whether a position configuration was found.
   */
  datatype Setup = Setup(
    c: BlindConfig,
    levelReverse: bool,
    rules: seq<Rule>,
    levelDefault: Level,
    outputs: int,
    sunActive: bool,
    modeMax: JsNum,
    sun: SunSettings,
    configured: bool)

  /**
   * What changes from event to event: the sun mode, the end of the smoothing window,
   * the override, the working levels and reason code, and the previous event's
   * levels, reason code and rule id (`None` for the NaN the node starts with).
   */
  datatype NodeState = NodeState(
    mode: JsNum,
    changeAgain: Option<real>,
    ov: Overwrite,
    temp: Temp,
    code: int,
    previous: Temp,
    previousCode: int,
    usedRule: Option<int>)

  /** What the host works out for one event: the time, the rules' evaluations and the sun. */
  datatype Event = Event(now: real, evs: seq<Eval>, sun: SunInput)

  /**
   * What the event sends: on the first output the level (in the configured
   * orientation) when it is sent at all, and whether the status goes to the second output.
   */
  datatype Emission = Emission(primary: Option<Level>, status: bool)

  /** The automatic decision: working levels, reason code, smoothing window end and rule id. */
  datatype Auto = Auto(temp: Temp, code: int, changeAgain: Option<real>, ruleId: int)

  const ModeIds: seq<string> := ["mode"]
  const ModeNames: seq<string> := ["setMode"]

  /** A message selects a finite mode between 0 and the highest configured mode; otherwise the mode stays. */
  function ModeAfter(modeMax: JsNum, mode: JsNum, m: Msg): (r: JsNum)
    ensures r == mode || MsgNumber(m, ModeIds, ModeNames) == Some(r)
    ensures r != mode ==> r.Fin? && r.v >= 0.0 && LessEq(r, modeMax)
  {
    var newMode := MsgNumber(m, ModeIds, ModeNames);
    if newMode.Some? && newMode.value.Fin? && newMode.value.v >= 0.0 && LessEq(newMode.value, modeMax)
    then newMode.value else mode
  }

  /** The rule minimum raises a level below it (15), else the rule maximum lowers one above it (26). */
  function RuleLimits(c: BlindConfig, living: Living, temp: Temp, code: int): (r: (Temp, int))
    requires WellFormed(c)
    ensures living.minimum.Some? && Below(temp.level, living.minimum.value.level) ==>
      r == (WithInverse(c, living.minimum.value.level), 15)
    ensures (!(living.minimum.Some? && Below(temp.level, living.minimum.value.level))
             && living.maximum.Some? && Below(living.maximum.value.level, temp.level)) ==>
      r == (WithInverse(c, living.maximum.value.level), 26)
    ensures r.1 == 15 || r.1 == 26 || r == (temp, code)
  {
    if living.minimum.Some? && Below(temp.level, living.minimum.value.level) then
      (WithInverse(c, living.minimum.value.level), 15)
    else if living.maximum.Some? && Below(living.maximum.value.level, temp.level) then
      (WithInverse(c, living.maximum.value.level), 26)
    else (temp, code)
  }

  /**
   * The final clamp to the scale: a level below the bottom becomes the bottom, one
   * above the top the top (with the opposite end as inverse).
   */
  function ScaleClamp(c: BlindConfig, temp: Temp): (r: Temp)
    requires WellFormed(c)
    ensures r.level.Some? <==> temp.level.Some?
    ensures r.level.Some? ==> c.levelBottom <= r.level.value <= c.levelTop
    ensures temp.level.Some? && temp.level.value < c.levelBottom ==> r == Temp(Some(c.levelBottom), Some(c.levelTop))
    ensures temp.level.Some? && temp.level.value > c.levelTop ==> r == Temp(Some(c.levelTop), Some(c.levelBottom))
    ensures temp.level.None? || c.levelBottom <= temp.level.value <= c.levelTop ==> r == temp
  {
    var t := if Below(temp.level, Some(c.levelBottom)) then Temp(Some(c.levelBottom), Some(c.levelTop)) else temp;
    if Below(Some(c.levelTop), t.level) then Temp(Some(c.levelTop), Some(c.levelBottom)) else t
  }

  /**
   * The decision without an override: the rules give a level; when no absolute rule
   * holds and sun control is on, the sun decides; then the rule limits and the scale
   * clamp apply. The level that results is NaN or lies on the scale.
   */
  function Automatic(u: Setup, mode: JsNum, changeAgain: Option<real>, previous: Temp, ev: Event): (r: Auto)
    requires WellFormed(u.c) && |ev.evs| == |u.rules|
    ensures r.temp.level.Some? ==> u.c.levelBottom <= r.temp.level.value <= u.c.levelTop
    ensures r.ruleId == CheckRules(u.rules, ev.evs, ev.now, u.levelDefault).id
    ensures r.code in {1, 4, 5, 6, 7, 8, 9, 10, 11, 12, 13, 14, 15, 26}
  {
    var living := CheckRules(u.rules, ev.evs, ev.now, u.levelDefault);
    var t1 := WithInverse(u.c, living.level);
    var s := CalcBlindSunPosition(u.c, u.sun.(mode := mode), ev.sun, t1, previous, changeAgain, ev.now);
    var bySun := !living.active && u.sunActive;
    var t2 := if bySun then s.temp else t1;
    var code2 := if bySun then s.code else living.code;
    var limited := RuleLimits(u.c, living, t2, code2);
    Auto(ScaleClamp(u.c, limited.0), limited.1, if bySun then s.changeAgain else changeAgain, living.id)
  }

  /**
   * Whether the first output fires: the level is a number and the level, the reason
   * code or the rule id differs from the previous event's. The status output is sent
   * on every event when the node has two outputs.
   */
  function Emit(u: Setup, temp: Temp, code: int, ruleId: int, previous: Temp, previousCode: int, usedRule: Option<int>): (r: Emission)
    ensures r.primary.Some? <==>
      temp.level.Some? && (temp.level != previous.level || code != previousCode || usedRule != Some(ruleId))
    ensures r.primary.Some? ==> r.primary.value == RealLevel(u.levelReverse, temp.level, temp.levelInverse)
    ensures r.status <==> u.outputs > 1
  {
    var changed := temp.level.Some? && (temp.level != previous.level || code != previousCode || usedRule != Some(ruleId));
    Emission(if changed then Some(RealLevel(u.levelReverse, temp.level, temp.levelInverse)) else None, u.outputs > 1)
  }

  /**
   * The `'input'` handler. Without a position configuration nothing happens. Otherwise
   * the previous levels and code are kept, the mode may change, and an override that
   * holds decides the levels (rule id -1); else the automatic decision does. The rule
   * id is remembered for the next event.
   */
  function Step(u: Setup, st: NodeState, m: Msg, ev: Event): (r: (NodeState, Emission))
    requires WellFormed(u.c) && |ev.evs| == |u.rules|
    ensures !u.configured ==> r == (st, Emission(None, false))
    ensures u.configured ==> r.0.previous == st.temp && r.0.previousCode == st.code
    ensures u.configured ==> r.0.usedRule.Some?
  {
    if !u.configured then (st, Emission(None, false))
    else
      var mode := ModeAfter(u.modeMax, st.mode, m);
      var out := CheckBlindPosOverwrite(u.c, st.ov, st.temp, st.temp.level, m, ev.now);
      var a := Decision(u, mode, st.ov, st.temp, st.changeAgain, m, ev);
      (NodeState(mode, a.changeAgain, out.ov, a.temp, a.code, st.temp, st.code, Some(a.ruleId)),
       Emit(u, a.temp, a.code, a.ruleId, st.temp, st.code, st.usedRule))
  }

  /** Who decides the event: an override that holds (rule id -1), or else the automatic decision. */
  function Decision(u: Setup, mode: JsNum, ov: Overwrite, temp: Temp, changeAgain: Option<real>, m: Msg, ev: Event): Auto
    requires WellFormed(u.c) && |ev.evs| == |u.rules|
  {
    var out := CheckBlindPosOverwrite(u.c, ov, temp, temp.level, m, ev.now);
    if out.engaged then Auto(out.temp, out.reason.value, changeAgain, -1)
    else Automatic(u, mode, changeAgain, temp, ev)
  }

  /**
   * An override that holds takes precedence: the levels are the ones it left, the
   * reason code is 2 or 3, the rule id is -1 and the smoothing window is untouched.
   */
  lemma OverrideTakesPrecedence(u: Setup, st: NodeState, m: Msg, ev: Event)
    requires WellFormed(u.c) && |ev.evs| == |u.rules| && u.configured
    requires CheckBlindPosOverwrite(u.c, st.ov, st.temp, st.temp.level, m, ev.now).engaged
    ensures var out := CheckBlindPosOverwrite(u.c, st.ov, st.temp, st.temp.level, m, ev.now);
      var r := Step(u, st, m, ev).0;
      r.temp == out.temp && r.code in {2, 3} && r.usedRule == Some(-1) && r.changeAgain == st.changeAgain
      && r.ov == out.ov
  {
    var out := CheckBlindPosOverwrite(u.c, st.ov, st.temp, st.temp.level, m, ev.now);
    assert Step(u, st, m, ev).0 == NodeState(ModeAfter(u.modeMax, st.mode, m), st.changeAgain, out.ov, out.temp,
      ReasonCode(out.ov), st.temp, st.code, Some(-1));
  }

  /**
   * A repeated event changes nothing that is sent: when the level, the reason code and
   * the rule id come out as on the previous event, the first output stays silent.
   */
  lemma SameResultIsNotResent(u: Setup, st: NodeState, m: Msg, ev: Event)
    requires WellFormed(u.c) && |ev.evs| == |u.rules|
    ensures var r := Step(u, st, m, ev);
      r.0.temp.level == st.temp.level && r.0.code == st.code && st.usedRule == r.0.usedRule ==> r.1.primary.None?
  {
  }

  /**
   * Without an override, the event's level is on the scale whenever it is a number,
   * and the reason code tells which of rules (1, 4, 15, 26) or sun (5..14) set it.
   */
  lemma AutomaticLevelOnScale(u: Setup, st: NodeState, m: Msg, ev: Event)
    requires WellFormed(u.c) && |ev.evs| == |u.rules| && u.configured
    requires !CheckBlindPosOverwrite(u.c, st.ov, st.temp, st.temp.level, m, ev.now).engaged
    ensures var r := Step(u, st, m, ev).0;
      (r.temp.level.Some? ==> u.c.levelBottom <= r.temp.level.value <= u.c.levelTop)
      && r.code in {1, 4, 5, 6, 7, 8, 9, 10, 11, 12, 13, 14, 15, 26}
  {
  }
}
