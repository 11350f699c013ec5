/**
 * The blind controller node itself: the state it keeps between events and the
 * operations that update it in place, each proved to do what the functions of
 * `Override`, `RuleEngine`, `SunEngine` and `Controller` specify.
 */
module BlindControl {
  import opened Wrappers
  import opened JsValues
  import opened PositionMath
  import opened DateTimeHelper
  import opened Override
  import opened RuleEngine
  import opened SunEngine
  import opened Controller

  class BlindControlNode {
    /** The level scale after the open/closed pair was put in order, and whether it was swapped. */
    const config: BlindConfig
    const levelReverse: bool
    /** The prepared rule table and its bookkeeping. */
    const rules: seq<Rule>
    const index: Index
    /** The default level, the number of outputs and the sun settings fixed at creation. */
    const levelDefault: Level
    const outputs: int
    const sunActive: bool
    const modeMax: JsNum
    const sunSettings: SunSettings
    /** Whether the node found its position configuration. */
    const configured: bool

    /** The sun mode (a message may change it) and when the sun may next change the level. */
    var mode: JsNum
    var changeAgain: Option<real>
    /** The manual override and its timer. */
    var overwrite: Overwrite
    /** The working levels and the reason code. */
    var temp: Temp
    var reasonCode: int
    /** The previous event's levels, reason code and rule id. */
    var previous: Temp
    var previousCode: int
    var usedRule: Option<int>

    /** The scale is usable and the bookkeeping belongs to the rule table. */
    ghost predicate Valid()
    {
      WellFormed(config) && index == Indexing(rules)
    }

    /** What the node fixed at creation. */
    function Fixed(): Setup
    {
      Setup(config, levelReverse, rules, levelDefault, outputs, sunActive, modeMax, sunSettings, configured)
    }

    /** What changes from event to event. */
    function State(): NodeState
      reads this
    {
      NodeState(mode, changeAgain, overwrite, temp, reasonCode, previous, previousCode, usedRule)
    }

    /**
     * The node's creation and `initialize`: the open and closed levels are put in
     * order, the rules prepared, sun control switched on by a positive mode, a
     * smoothing time of 0x7FFFFFFF ms or more dropped, the other settings stored as
     * given, and the state starts empty.
     * The levels and the number arguments arrive already read from the configuration.
     */
    constructor (openLevel: real, closedLevel: real, increment: real, raw: seq<RawRule>,
                 levelDefault: Level, levelMin: Level, levelMax: Level,
                 mode: JsNum, minAltitude: JsNum, minDelta: JsNum, smoothTime: real,
                 windowTop: real, windowBottom: real, expireDuration: JsNum, outputs: int, configured: bool)
      requires increment > 0.0
      ensures Valid()
      ensures (config, levelReverse) == Configure(openLevel, closedLevel, increment)
      ensures rules == Normalized(raw)
      ensures sunActive <==> Less(Fin(0.0), mode)
      ensures sunSettings.smoothTime == (if smoothTime >= 2147483647.0 then None else Some(smoothTime))
      ensures State() == NodeState(mode, Some(0.0), Initial(expireDuration), Temp(None, None), 0, Temp(None, None), -1, None)
      ensures Fixed() == Setup(Configure(openLevel, closedLevel, increment).0, Configure(openLevel, closedLevel, increment).1,
        Normalized(raw), levelDefault, outputs, Less(Fin(0.0), mode), mode,
        SunSettings(mode, minAltitude, minDelta, if smoothTime >= 2147483647.0 then None else Some(smoothTime),
          windowTop, windowBottom, levelMin, levelMax),
        configured)
    {
      var cfg := Configure(openLevel, closedLevel, increment);
      var prepared, idx := IndexRules(raw);
      this.config := cfg.0;
      this.levelReverse := cfg.1;
      this.rules := prepared;
      this.index := idx;
      this.levelDefault := levelDefault;
      this.outputs := outputs;
      this.sunActive := Less(Fin(0.0), mode);
      this.modeMax := mode;
      this.sunSettings := SunSettings(mode, minAltitude, minDelta,
        if smoothTime >= 2147483647.0 then None else Some(smoothTime), windowTop, windowBottom, levelMin, levelMax);
      this.configured := configured;
      this.mode := mode;
      this.changeAgain := Some(0.0);
      this.overwrite := Initial(expireDuration);
      this.temp := Temp(None, None);
      this.reasonCode := 0;
      this.previous := Temp(None, None);
      this.previousCode := -1;
      this.usedRule := None;
    }

    /** `blindPosOverwriteReset`. */
    method ResetOverride()
      modifies this`overwrite
      ensures overwrite == Override.Reset(old(overwrite))
    {
      overwrite := overwrite.(active := false, priority := Fin(0.0));
      overwrite := overwrite.(timer := None);
      if HasDeadline(overwrite) || overwrite.expires {
        overwrite := overwrite.(expires := false, expireTs := None);
      }
    }

    /** `setExpiringOverwrite`. */
    method SetExpiringOverwrite(now: real, expire: JsNum)
      modifies this`overwrite
      ensures overwrite == Override.SetExpiring(old(overwrite), now, expire)
    {
      overwrite := overwrite.(timer := None);
      var e := expire;
      if e.NaN? {
        e := overwrite.expireDuration;
      }
      var expires := e.Fin? && e.v > 0.0;
      overwrite := overwrite.(expires := expires);
      if !expires {
        overwrite := overwrite.(expireTs := None);
        return;
      }
      overwrite := overwrite.(expireTs := Some(now + e.v));
      overwrite := overwrite.(timer := Some(now + e.v));
    }

    /** `checkOverrideReset`. */
    method CheckOverrideReset(m: Msg, now: real, prio: Option<JsNum>)
      modifies this`overwrite
      ensures overwrite == Override.CheckOverrideReset(old(overwrite), m, now, prio)
    {
      if overwrite.expires && overwrite.expireTs.Some? && overwrite.expireTs.value < now {
        ResetOverride();
      }
      if prio.None? || prio.value == Fin(0.0) || LessEq(overwrite.priority, prio.value) {
        var val := GetMsgBoolValue(m, ResetIds, ResetNames);
        if val == Some(true) {
          ResetOverride();
        }
      }
    }

    /** `setOverwriteReason`. */
    method SetOverwriteReason()
      modifies this`reasonCode
      ensures reasonCode == ReasonCode(overwrite)
    {
      if HasDeadline(overwrite) {
        reasonCode := 3;
      } else {
        reasonCode := 2;
      }
    }

    /** The arming, priority and activation that follow a new level in `checkBlindPosOverwrite`. */
    method EngageOverride(now: real, prio: JsNum, expire: JsNum)
      modifies this`overwrite, this`reasonCode
      ensures overwrite == TakePriority(ArmForNewLevel(old(overwrite), now, prio, expire), prio).(active := true)
      ensures reasonCode == ReasonCode(overwrite)
    {
      if expire.Fin? || LessEq(prio, Fin(0.0)) {
        SetExpiringOverwrite(now, expire);
      } else if Less(overwrite.priority, prio) || !HasDeadline(overwrite) {
        SetExpiringOverwrite(now, Fin(-1.0));
      }
      if Less(Fin(0.0), prio) {
        overwrite := overwrite.(priority := prio);
      }
      overwrite := overwrite.(active := true);
      SetOverwriteReason();
    }

    /** The handling of a requested level in `checkBlindPosOverwrite`. */
    method RequestLevel(m: Msg, now: real, prio: JsNum, pos: JsNum, expire: JsNum) returns (engaged: bool)
      requires Valid()
      modifies this`overwrite, this`temp, this`reasonCode
      ensures var out := Request(config, old(overwrite), old(temp), previous.level, m, now, prio, pos, expire);
        overwrite == out.ov && temp == out.temp && engaged == out.engaged
        && reasonCode == (if out.reason.Some? then out.reason.value else old(reasonCode))
    {
      if pos == Fin(-1.0) {
        temp := Temp(None, None);
      } else {
        var allowRound := Includes(m.topic, "roundLevel");
        if !ValidRequest(config, pos, allowRound) {
          return false;
        }
        var level := pos.v;
        if allowRound {
          level := PosRound(config, level);
        }
        engaged := TakeLevel(m, now, prio, level, expire);
        return;
      }
      EngageOverride(now, prio, expire);
      engaged := true;
    }

    /** A valid requested level: held as it is when asked to ignore the same value, otherwise taken over. */
    method TakeLevel(m: Msg, now: real, prio: JsNum, level: real, expire: JsNum) returns (engaged: bool)
      modifies this`overwrite, this`temp, this`reasonCode
      ensures var out := Override.TakeLevel(old(overwrite), old(temp), previous.level, m, now, prio, level, expire);
        overwrite == out.ov && temp == out.temp && engaged == out.engaged && out.reason == Some(reasonCode)
    {
      var noSameValue := GetMsgBoolValue(m, SameValueIds, []);
      if noSameValue == Some(true) && previous.level == Some(level) {
        SetOverwriteReason();
        return true;
      }
      temp := Temp(Some(level), Some(level));
      EngageOverride(now, prio, expire);
      engaged := true;
    }

    /** `checkBlindPosOverwrite`: whether the manual override decides this event. */
    method CheckBlindPosOverwrite(m: Msg, now: real) returns (engaged: bool)
      requires Valid()
      modifies this`overwrite, this`temp, this`reasonCode
      ensures var out := Override.CheckBlindPosOverwrite(config, old(overwrite), old(temp), previous.level, m, now);
        overwrite == out.ov && temp == out.temp && engaged == out.engaged
        && reasonCode == (if out.reason.Some? then out.reason.value else old(reasonCode))
    {
      var found := GetMsgNumberValue(m, PrioIds, PrioNames);
      CheckOverrideReset(m, now, found);
      var prio := if found.Some? then found.value else Fin(0.0);
      if overwrite.active && Less(Fin(0.0), overwrite.priority) && Less(prio, overwrite.priority) {
        SetOverwriteReason();
        return true;
      }
      var onlyTrigger := GetMsgBoolValue(m, TriggerIds, TriggerNames);
      var newPos := GetMsgNumberValue(m, PositionIds, PositionNames);
      var expireFound := GetMsgNumberValue(m, ExpireIds, ExpireNames);
      var expire := OrNaN(expireFound);
      if onlyTrigger != Some(true) && overwrite.active && newPos.None? {
        if expire.Fin? {
          SetExpiringOverwrite(now, expire);
        }
        if Less(Fin(0.0), prio) {
          overwrite := overwrite.(priority := prio);
        }
        SetOverwriteReason();
        return true;
      } else if onlyTrigger != Some(true) && newPos.Some? {
        engaged := RequestLevel(m, now, prio, newPos.value, expire);
        return;
      }
      if overwrite.active {
        SetOverwriteReason();
        return true;
      }
      return false;
    }

    /** `checkRules`: the rule scan and what it sets on the node. */
    method CheckRules(now: real, evs: seq<Eval>) returns (living: Living)
      requires Valid() && |evs| == |rules|
      modifies this`temp, this`reasonCode
      ensures living == RuleEngine.CheckRules(rules, evs, now, levelDefault)
      ensures temp == WithInverse(config, living.level) && reasonCode == living.code
    {
      var a := ScanRules(rules, evs, now, index.lastUntil);
      var minimum: Option<Limit> := None;
      if a.min.Some? {
        minimum := Some(Limit(rules[a.min.value].pos, evs[a.min.value].level));
      }
      var maximum: Option<Limit> := None;
      if a.max.Some? {
        maximum := Some(Limit(rules[a.max.value].pos, evs[a.max.value].level));
      }
      if a.sel.Some? {
        var k := a.sel.value;
        if IsOp(rules[k].levelOp, 0) {
          living := Living(rules[k].pos, true, evs[k].level, minimum, maximum, 4);
        } else {
          living := Living(rules[k].pos, false, levelDefault, minimum, maximum, 4);
        }
        reasonCode := 4;
      } else {
        living := Living(-1, false, levelDefault, minimum, maximum, 1);
        reasonCode := 1;
      }
      temp := Temp(living.level, InversePos(config, living.level));
    }

    /** Smoothing and the minimum change applied to the level the shadow height gives. */
    method Smooth(computed: Temp, now: real)
      requires computed.level.Some?
      modifies this`temp, this`reasonCode, this`changeAgain
      ensures var r := Hysteresis(config, sunSettings.(mode := mode), computed, previous, old(changeAgain), now);
        temp == r.temp && reasonCode == r.code && changeAgain == r.changeAgain
    {
      var s := sunSettings;
      var delta := Delta(previous.level, computed.level.value);
      if s.smoothTime.Some? && s.smoothTime.value > 0.0 && changeAgain.Some? && changeAgain.value > now {
        reasonCode := 11;
        temp := previous;
      } else if Less(Fin(0.0), s.minDelta) && delta.Some? && Less(Fin(delta.value), s.minDelta)
        && computed.level.value > config.levelBottom && computed.level.value < config.levelTop {
        reasonCode := 14;
        temp := previous;
      } else {
        reasonCode := 9;
        temp := computed;
        changeAgain := if s.smoothTime.Some? then Some(now + s.smoothTime.value) else None;
      }
    }

    /** The configured minimum and maximum levels applied to the sun's level. */
    method ClampToMinMax()
      requires Valid()
      modifies this`temp, this`reasonCode
      ensures var r := ClampMinMax(config, sunSettings.(mode := mode), SunResult(old(temp), old(reasonCode), changeAgain));
        temp == r.temp && reasonCode == r.code
    {
      if Below(temp.level, sunSettings.levelMin) {
        reasonCode := 5;
        temp := WithInverse(config, sunSettings.levelMin);
      } else if Below(sunSettings.levelMax, temp.level) {
        reasonCode := 6;
        temp := WithInverse(config, sunSettings.levelMax);
      }
    }

    /** `calcBlindSunPosition`: the sun's level and what it sets on the node. */
    method CalcBlindSunPosition(sun: SunInput, now: real)
      requires Valid()
      modifies this`temp, this`reasonCode, this`changeAgain
      ensures var r := SunEngine.CalcBlindSunPosition(config, sunSettings.(mode := mode), sun, old(temp), previous,
                                                      old(changeAgain), now);
        temp == r.temp && reasonCode == r.code && changeAgain == r.changeAgain
    {
      var s := sunSettings;
      if !sun.inWindow {
        if mode == WinterMode {
          temp := WithInverse(config, s.levelMin);
          reasonCode := 13;
        } else {
          reasonCode := 8;
        }
        return;
      }
      if mode == SummerMode && NumTruthy(s.minAltitude) && Less(Fin(sun.altitude), s.minAltitude) {
        reasonCode := 7;
        return;
      }
      if sun.oversteer.Some? {
        temp := WithInverse(config, sun.oversteer.value);
        reasonCode := 10;
        return;
      }
      if mode == WinterMode {
        temp := WithInverse(config, s.levelMax);
        reasonCode := 12;
        return;
      }
      Smooth(HeightLevel(config, s, sun.height), now);
      ClampToMinMax();
    }

    /** The minimum and maximum of the rules applied to the level. */
    method ApplyRuleLimits(living: Living)
      requires Valid()
      modifies this`temp, this`reasonCode
      ensures (temp, reasonCode) == RuleLimits(config, living, old(temp), old(reasonCode))
    {
      if living.minimum.Some? && Below(temp.level, living.minimum.value.level) {
        reasonCode := 15;
        temp := WithInverse(config, living.minimum.value.level);
      } else if living.maximum.Some? && Below(living.maximum.value.level, temp.level) {
        reasonCode := 26;
        temp := WithInverse(config, living.maximum.value.level);
      }
    }

    /** The final clamp of the level to the scale. */
    method ClampToScale()
      requires Valid()
      modifies this`temp
      ensures temp == ScaleClamp(config, old(temp))
    {
      if Below(temp.level, Some(config.levelBottom)) {
        temp := Temp(Some(config.levelBottom), Some(config.levelTop));
      }
      if Below(Some(config.levelTop), temp.level) {
        temp := Temp(Some(config.levelTop), Some(config.levelBottom));
      }
    }

    /** The decision without an override: rules, then the sun, then the limits and the clamp. */
    method Automatic(ev: Event) returns (ruleId: int)
      requires Valid() && |ev.evs| == |rules|
      modifies this`temp, this`reasonCode, this`changeAgain
      ensures var a := Controller.Automatic(Fixed(), mode, old(changeAgain), previous, ev);
        temp == a.temp && reasonCode == a.code && changeAgain == a.changeAgain && ruleId == a.ruleId
    {
      var living := CheckRules(ev.now, ev.evs);
      ruleId := living.id;
      if !living.active && sunActive {
        CalcBlindSunPosition(ev.sun, ev.now);
      }
      ApplyRuleLimits(living);
      ClampToScale();
    }

    /** The `'input'` handler: one event, and what it sends. */
    method Input(m: Msg, ev: Event) returns (emission: Emission)
      requires Valid() && |ev.evs| == |rules|
      modifies this
      ensures State() == Step(Fixed(), old(State()), m, ev).0
      ensures emission == Step(Fixed(), old(State()), m, ev).1
    {
      if !configured {
        return Emission(None, false);
      }
      previous := temp;
      previousCode := reasonCode;
      SetMode(m);
      var ruleId := Decide(m, ev);
      var primary: Option<Level> := None;
      if temp.level.Some? && (temp.level != previous.level || reasonCode != previousCode || usedRule != Some(ruleId)) {
        primary := Some(RealLevel(levelReverse, temp.level, temp.levelInverse));
      }
      emission := Emission(primary, outputs > 1);
      usedRule := Some(ruleId);
    }

    /** A message may select a new mode within the configured range. */
    method SetMode(m: Msg)
      modifies this`mode
      ensures mode == ModeAfter(modeMax, old(mode), m)
    {
      var newMode := GetMsgNumberValue(m, ModeIds, ModeNames);
      if newMode.Some? && newMode.value.Fin? && newMode.value.v >= 0.0 && LessEq(newMode.value, modeMax) {
        mode := newMode.value;
      }
    }

    /**
     * The override decides when it holds (rule id -1); otherwise the rules and the sun
     * do. The previous levels must already hold the current ones.
     */
    method Decide(m: Msg, ev: Event) returns (ruleId: int)
      requires Valid() && |ev.evs| == |rules| && previous == temp
      modifies this`overwrite, this`temp, this`reasonCode, this`changeAgain
      ensures var a := Decision(Fixed(), mode, old(overwrite), old(temp), old(changeAgain), m, ev);
        temp == a.temp && reasonCode == a.code && changeAgain == a.changeAgain && ruleId == a.ruleId
      ensures overwrite == Override.CheckBlindPosOverwrite(config, old(overwrite), old(temp), old(temp).level, m, ev.now).ov
    {
      ruleId := -1;
      var engaged := CheckBlindPosOverwrite(m, ev.now);
      if !engaged {
        ruleId := Automatic(ev);
      }
    }

    /** The override timer running out: the override is reset and the expiry message handed back. */
    method Fire() returns (trigger: Option<Msg>)
      modifies this`overwrite
      ensures (overwrite, trigger) == Override.Fire(old(overwrite))
    {
      if overwrite.timer.None? {
        return None;
      }
      ResetOverride();
      trigger := Some(ExpiredTrigger);
    }
  }
}
