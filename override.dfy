/**
 * The manual override of the blind controller: a requested level held with a
 * priority and an optional expiry deadline. The deadline stands for the source's
 * timer; `Fire` is what happens when it runs out.
 */
module Override {
  import opened Wrappers
  import opened JsValues
  import opened PositionMath
  import opened DateTimeHelper

  /**
   * `blindData.overwrite` together with the node's timer handle. `expireTs` and
   * `timer` are `None` where the source deletes the field or holds no timer;
   * `expireDuration` is the configured default expiry in milliseconds (NaN when unset).
   */
  datatype Overwrite = Overwrite(
    active: bool,
    priority: JsNum,
    expires: bool,
    expireTs: Option<real>,
    timer: Option<real>,
    expireDuration: JsNum)

  /**
   * What `checkBlindPosOverwrite` leaves behind: the override state, the working
   * levels, the reason code it set (`None` when it set none) and its return value.
   */
  datatype Outcome = Outcome(ov: Overwrite, temp: Temp, reason: Option<int>, engaged: bool)

  /** The override as the node starts: inactive, priority 0, no expiry, no timer. */
  function Initial(expireDuration: JsNum): (r: Overwrite)
    ensures !r.active && r.priority == Fin(0.0) && Consistent(r) && r.expireTs.None?
  {
    Overwrite(false, Fin(0.0), false, None, None, expireDuration)
  }

  /** The expiry fields agree with each other and a timer runs exactly until the deadline. */
  predicate Consistent(o: Overwrite)
  {
    (o.expires <==> o.expireTs.Some?) && o.timer == o.expireTs
  }

  /** `expireTs` is truthy: present and not zero. */
  predicate HasDeadline(o: Overwrite)
  {
    o.expireTs.Some? && o.expireTs.value != 0.0
  }

  /** An expiring override whose deadline lies before `now`. */
  predicate Expired(o: Overwrite, now: real)
  {
    o.expires && o.expireTs.Some? && o.expireTs.value < now
  }

  /**
   * `blindPosOverwriteReset`: inactive, priority 0, timer cleared; the expiry fields
   * are deleted when either of them is set.
   */
  function Reset(o: Overwrite): (r: Overwrite)
    ensures !r.active && r.priority == Fin(0.0) && r.timer.None? && !r.expires
    ensures r.expireDuration == o.expireDuration
    ensures HasDeadline(o) || o.expires ==> r.expireTs.None?
    ensures !(HasDeadline(o) || o.expires) ==> r.expireTs == o.expireTs
    ensures Consistent(o) ==> Consistent(r)
  {
    var cleared := o.(active := false, priority := Fin(0.0), timer := None);
    if HasDeadline(o) || o.expires then cleared.(expires := false, expireTs := None)
    else cleared
  }

  /** The expiry `setExpiringOverwrite` uses: the requested one, or the default when it is NaN. */
  function EffectiveExpire(o: Overwrite, expire: JsNum): JsNum
  {
    if expire.NaN? then o.expireDuration else expire
  }

  /** The effective expiry arms a deadline: a finite number above zero. */
  predicate Arms(o: Overwrite, expire: JsNum)
  {
    EffectiveExpire(o, expire).Fin? && EffectiveExpire(o, expire).v > 0.0
  }

  /**
   * `setExpiringOverwrite`: the timer is cleared; a finite positive expiry sets the
   * deadline (and a timer running until it) `expire` milliseconds after `now`,
   * anything else removes the deadline.
   */
  function SetExpiring(o: Overwrite, now: real, expire: JsNum): (r: Overwrite)
    ensures r.expires <==> Arms(o, expire)
    ensures Arms(o, expire) ==> r.expireTs == Some(now + EffectiveExpire(o, expire).v)
    ensures !Arms(o, expire) ==> r.expireTs.None?
    ensures Consistent(r)
    ensures r.active == o.active && r.priority == o.priority && r.expireDuration == o.expireDuration
  {
    var e := EffectiveExpire(o, expire);
    if e.Fin? && e.v > 0.0 then o.(expires := true, expireTs := Some(now + e.v), timer := Some(now + e.v))
    else o.(expires := false, expireTs := None, timer := None)
  }

  /** The ids and topic names the override reads from a message. */
  const PrioIds: seq<string> := ["prio", "priority"]
  const PrioNames: seq<string> := ["prio", "alarm"]
  const ResetIds: seq<string> := ["reset"]
  const ResetNames: seq<string> := ["resetOverwrite"]
  const TriggerIds: seq<string> := ["trigger", "noOverwrite"]
  const TriggerNames: seq<string> := ["triggerOnly", "noOverwrite"]
  const PositionIds: seq<string> := ["blindPosition", "position", "level", "blindLevel"]
  const PositionNames: seq<string> := ["manual", "levelOverwrite"]
  const ExpireIds: seq<string> := ["expire"]
  const ExpireNames: seq<string> := ["expire"]
  const SameValueIds: seq<string> := ["ignoreSameValue"]

  /** A lookup that found nothing reads as NaN. */
  function OrNaN(n: Option<JsNum>): JsNum
  {
    if n.Some? then n.value else NaN
  }

  /** The priority a message requests: the number found, or 0. */
  function RequestedPriority(m: Msg): JsNum
  {
    var p := MsgNumber(m, PrioIds, PrioNames);
    if p.Some? then p.value else Fin(0.0)
  }

  /**
   * A reset flag counts when no priority (or priority 0) was given, or when the
   * current priority does not exceed the requested one.
   */
  predicate ResetRequested(o: Overwrite, m: Msg, prio: Option<JsNum>)
  {
    (prio.None? || prio.value == Fin(0.0) || LessEq(o.priority, prio.value))
    && MsgBool(m, ResetIds, ResetNames) == Some(true)
  }

  /**
   * `checkOverrideReset`: an expired override is reset, and so is one whose reset
   * flag arrives with a sufficient priority; otherwise the override is untouched.
   */
  function CheckOverrideReset(o: Overwrite, m: Msg, now: real, prio: Option<JsNum>): (r: Overwrite)
    ensures Expired(o, now) ==> r == Reset(o)
    ensures !Expired(o, now) && ResetRequested(o, m, prio) ==> r == Reset(o)
    ensures !Expired(o, now) && !ResetRequested(o, m, prio) ==> r == o
  {
    var o1 := if Expired(o, now) then Reset(o) else o;
    if ResetRequested(o1, m, prio) then Reset(o1) else o1
  }

  /** `setOverwriteReason`: code 3 for an override with a deadline, 2 for one without. */
  function ReasonCode(o: Overwrite): (r: int)
    ensures r == 2 || r == 3
    ensures r == 3 <==> HasDeadline(o)
  {
    if HasDeadline(o) then 3 else 2
  }

  /** The override holds: its reason is set and the check answers true. */
  function Holds(o: Overwrite, temp: Temp): (r: Outcome)
    ensures r.engaged && r.ov == o && r.temp == temp && r.reason == Some(ReasonCode(o))
  {
    Outcome(o, temp, Some(ReasonCode(o)), true)
  }

  /**
   * Arming for a newly requested level: an explicit finite expiry, or a priority of
   * at most 0, arms with that expiry (NaN falls back to the default); a raised
   * priority, or an override without a deadline, drops the expiry; otherwise an
   * existing deadline is kept.
   */
  function ArmForNewLevel(o: Overwrite, now: real, prio: JsNum, expire: JsNum): (r: Overwrite)
    ensures expire.Fin? || LessEq(prio, Fin(0.0)) ==> r == SetExpiring(o, now, expire)
    ensures !(expire.Fin? || LessEq(prio, Fin(0.0))) && (Less(o.priority, prio) || !HasDeadline(o)) ==>
      r == SetExpiring(o, now, Fin(-1.0)) && !r.expires && r.expireTs.None?
    ensures !(expire.Fin? || LessEq(prio, Fin(0.0))) && !(Less(o.priority, prio) || !HasDeadline(o)) ==> r == o
  {
    if expire.Fin? || LessEq(prio, Fin(0.0)) then SetExpiring(o, now, expire)
    else if Less(o.priority, prio) || !HasDeadline(o) then SetExpiring(o, now, Fin(-1.0))
    else o
  }

  /** A positive requested priority replaces the current one. */
  function TakePriority(o: Overwrite, prio: JsNum): (r: Overwrite)
    ensures Less(Fin(0.0), prio) ==> r == o.(priority := prio)
    ensures !Less(Fin(0.0), prio) ==> r == o
  {
    if Less(Fin(0.0), prio) then o.(priority := prio) else o
  }

  /** Taking a new level: arm, take the priority, become active, and report the override. */
  function Engage(o: Overwrite, temp: Temp, now: real, prio: JsNum, expire: JsNum): (r: Outcome)
    ensures r.engaged && r.ov.active && r.temp == temp
    ensures r.ov == TakePriority(ArmForNewLevel(o, now, prio, expire), prio).(active := true)
    ensures r.reason == Some(ReasonCode(r.ov))
  {
    Holds(TakePriority(ArmForNewLevel(o, now, prio, expire), prio).(active := true), temp)
  }

  /** The level a message asks for passes the validity check (infinite levels lie off the scale). */
  predicate ValidRequest(c: BlindConfig, pos: JsNum, allowRound: bool)
    requires WellFormed(c)
  {
    pos.Fin? && ValidPosition(c, Some(pos.v), allowRound)
  }

  /**
   * An active override and a message without a level: an explicit finite expiry
   * re-arms it, a positive priority replaces its priority, and the override holds.
   */
  function Rearm(o: Overwrite, temp: Temp, now: real, prio: JsNum, expire: JsNum): (r: Outcome)
    ensures r.engaged && r.temp == temp && r.reason == Some(ReasonCode(r.ov))
    ensures r.ov.active == o.active && r.ov.expireDuration == o.expireDuration
    ensures !expire.Fin? ==> r.ov.expireTs == o.expireTs && r.ov.timer == o.timer
    ensures Consistent(o) ==> Consistent(r.ov)
  {
    Holds(TakePriority(if expire.Fin? then SetExpiring(o, now, expire) else o, prio), temp)
  }

  /**
   * A message asking for the level `pos`: -1 clears the working levels, an invalid
   * level ends the check with false, a level equal to the previous one with
   * `ignoreSameValue` leaves everything as it is, and any other valid level
   * (rounded when the topic asks for `roundLevel`) is taken over.
   */
  function Request(c: BlindConfig, o: Overwrite, temp: Temp, previousLevel: Level, m: Msg, now: real,
                   prio: JsNum, pos: JsNum, expire: JsNum): (r: Outcome)
    requires WellFormed(c)
    ensures r.engaged <==> r.reason.Some?
    ensures r.engaged ==> r.reason == Some(ReasonCode(r.ov))
    ensures !r.engaged ==> r.temp == temp && r.ov == o
    ensures pos != Fin(-1.0) && !ValidRequest(c, pos, Includes(m.topic, "roundLevel")) ==>
      !r.engaged && r.ov == o && r.temp == temp
    ensures pos == Fin(-1.0) || ValidRequest(c, pos, Includes(m.topic, "roundLevel")) ==> r.engaged
    ensures r.temp != temp && r.temp.level.Some? ==>
      c.levelBottom <= r.temp.level.value <= c.levelTop
      && (!Includes(m.topic, "roundLevel") ==> IsMultiple(r.temp.level.value, c.increment))
    ensures r.ov.expireDuration == o.expireDuration
    ensures Consistent(o) ==> Consistent(r.ov)
  {
    if pos == Fin(-1.0) then Engage(o, Temp(None, None), now, prio, expire)
    else
      var allowRound := Includes(m.topic, "roundLevel");
      if !ValidRequest(c, pos, allowRound) then Outcome(o, temp, None, false)
      else
        TakeLevel(o, temp, previousLevel, m, now, prio, if allowRound then PosRound(c, pos.v) else pos.v, expire)
  }

  /** A valid level: the same level again with `ignoreSameValue` holds as it is; any other is taken over. */
  function TakeLevel(o: Overwrite, temp: Temp, previousLevel: Level, m: Msg, now: real,
                     prio: JsNum, level: real, expire: JsNum): Outcome
  {
    if MsgBool(m, SameValueIds, []) == Some(true) && previousLevel == Some(level) then Holds(o, temp)
    else Engage(o, Temp(Some(level), Some(level)), now, prio, expire)
  }

  /**
   * `checkBlindPosOverwrite`, after the priority lookup and `checkOverrideReset`:
   * a lower priority than an active positive one is refused while the override
   * holds; an active override without a new level may be re-armed; a requested
   * level is handled by `Request`; an override still active holds.
   */
  function Decide(c: BlindConfig, o: Overwrite, temp: Temp, previousLevel: Level, m: Msg, now: real, prio: JsNum): (r: Outcome)
    requires WellFormed(c)
    ensures r.engaged <==> r.reason.Some?
    ensures r.engaged ==> r.reason == Some(ReasonCode(r.ov))
    ensures !r.engaged ==> r.temp == temp
    ensures r.temp != temp && r.temp.level.Some? ==>
      c.levelBottom <= r.temp.level.value <= c.levelTop
      && (!Includes(m.topic, "roundLevel") ==> IsMultiple(r.temp.level.value, c.increment))
    ensures r.ov.expireDuration == o.expireDuration
    ensures Consistent(o) ==> Consistent(r.ov)
  {
    if o.active && Less(Fin(0.0), o.priority) && Less(prio, o.priority) then Holds(o, temp)
    else
      var onlyTrigger := MsgBool(m, TriggerIds, TriggerNames) == Some(true);
      var newPos := MsgNumber(m, PositionIds, PositionNames);
      var expire := OrNaN(MsgNumber(m, ExpireIds, ExpireNames));
      if !onlyTrigger && o.active && newPos.None? then Rearm(o, temp, now, prio, expire)
      else if !onlyTrigger && newPos.Some? then Request(c, o, temp, previousLevel, m, now, prio, newPos.value, expire)
      else if o.active then Holds(o, temp)
      else Outcome(o, temp, None, false)
  }

  /** `checkBlindPosOverwrite`: the priority lookup resets the override as asked, then `Decide`. */
  function CheckBlindPosOverwrite(c: BlindConfig, o: Overwrite, temp: Temp, previousLevel: Level, m: Msg, now: real): (r: Outcome)
    requires WellFormed(c)
    ensures r.engaged <==> r.reason.Some?
    ensures r.engaged ==> r.reason == Some(ReasonCode(r.ov))
    ensures !r.engaged ==> r.temp == temp
    ensures r.temp != temp && r.temp.level.Some? ==>
      c.levelBottom <= r.temp.level.value <= c.levelTop
      && (!Includes(m.topic, "roundLevel") ==> IsMultiple(r.temp.level.value, c.increment))
    ensures r.ov.expireDuration == o.expireDuration
    ensures Consistent(o) ==> Consistent(r.ov)
  {
    var found := MsgNumber(m, PrioIds, PrioNames);
    var o1 := CheckOverrideReset(o, m, now, found);
    Decide(c, o1, temp, previousLevel, m, now, RequestedPriority(m))
  }

  /**
   * A request below the priority of an active override is refused: unless the
   * override has expired or is reset, the check answers true and changes neither
   * the override nor the levels.
   */
  lemma LowerPriorityRefused(c: BlindConfig, o: Overwrite, temp: Temp, previousLevel: Level, m: Msg, now: real)
    requires WellFormed(c)
    requires o.active && Less(Fin(0.0), o.priority) && !Expired(o, now)
    requires Less(RequestedPriority(m), o.priority)
    requires !ResetRequested(o, m, MsgNumber(m, PrioIds, PrioNames))
    ensures CheckBlindPosOverwrite(c, o, temp, previousLevel, m, now) == Holds(o, temp)
  {
  }

  /**
   * A valid new level is taken over: the override is active, both working levels are
   * the requested (rounded) level, and the priority is the requested one when positive.
   */
  lemma NewLevelTakesOver(c: BlindConfig, o: Overwrite, temp: Temp, previousLevel: Level, m: Msg, now: real)
    requires WellFormed(c)
    requires var o1 := CheckOverrideReset(o, m, now, MsgNumber(m, PrioIds, PrioNames));
      !(o1.active && Less(Fin(0.0), o1.priority) && Less(RequestedPriority(m), o1.priority))
    requires MsgBool(m, TriggerIds, TriggerNames) != Some(true)
    requires MsgNumber(m, PositionIds, PositionNames).Some?
    requires var pos := MsgNumber(m, PositionIds, PositionNames).value;
      pos != Fin(-1.0) && ValidRequest(c, pos, Includes(m.topic, "roundLevel"))
    requires MsgBool(m, SameValueIds, []) != Some(true)
    ensures var r := CheckBlindPosOverwrite(c, o, temp, previousLevel, m, now);
      var pos := MsgNumber(m, PositionIds, PositionNames).value.v;
      r.engaged && r.ov.active
      && r.temp.level == r.temp.levelInverse
      && r.temp.level == Some(if Includes(m.topic, "roundLevel") then PosRound(c, pos) else pos)
      && (Less(Fin(0.0), RequestedPriority(m)) ==> r.ov.priority == RequestedPriority(m))
  {
  }

  /**
   * An invalid requested level ends the check with false: the override after the
   * reset check and the working levels stay as they are, so the rules and the sun
   * decide the event instead.
   */
  lemma InvalidLevelFallsThrough(c: BlindConfig, o: Overwrite, temp: Temp, previousLevel: Level, m: Msg, now: real)
    requires WellFormed(c)
    requires var o1 := CheckOverrideReset(o, m, now, MsgNumber(m, PrioIds, PrioNames));
      !(o1.active && Less(Fin(0.0), o1.priority) && Less(RequestedPriority(m), o1.priority))
    requires MsgBool(m, TriggerIds, TriggerNames) != Some(true)
    requires MsgNumber(m, PositionIds, PositionNames).Some?
    requires var pos := MsgNumber(m, PositionIds, PositionNames).value;
      pos != Fin(-1.0) && !ValidRequest(c, pos, Includes(m.topic, "roundLevel"))
    ensures var r := CheckBlindPosOverwrite(c, o, temp, previousLevel, m, now);
      !r.engaged && r.reason.None? && r.temp == temp
      && r.ov == CheckOverrideReset(o, m, now, MsgNumber(m, PrioIds, PrioNames))
  {
  }

  /**
   * An override engaged without an explicit expiry and with a priority above zero
   * keeps an existing deadline unless the priority rises.
   */
  lemma ExistingDeadlineKept(o: Overwrite, now: real, prio: JsNum)
    requires Less(Fin(0.0), prio) && HasDeadline(o) && !Less(o.priority, prio)
    ensures ArmForNewLevel(o, now, prio, NaN) == o
  {
  }

  /** The timer running out: the override is reset and the node re-evaluates with this message. */
  const ExpiredTrigger: Msg :=
    Msg(PValue(Num(Fin(-1.0), "-1")), map["force" := Bool(false)], "internal-trigger-overwriteExpired")

  /**
   * The timer callback of `setExpiringOverwrite`: when a timer runs, the override is
   * reset and the expiry message is handed back for re-evaluation; without a timer
   * nothing happens.
   */
  function Fire(o: Overwrite): (r: (Overwrite, Option<Msg>))
    ensures o.timer.None? ==> r == (o, None)
    ensures o.timer.Some? ==> r.0 == Reset(o) && r.1 == Some(ExpiredTrigger)
  {
    if o.timer.Some? then (Reset(o), Some(ExpiredTrigger)) else (o, None)
  }

  /** Resetting twice is resetting once. */
  lemma ResetIdempotent(o: Overwrite)
    ensures Reset(Reset(o)) == Reset(o)
  {
  }

  /**
   * After a reset, the reset check and a firing timer change nothing more: the
   * override stays inactive with priority 0 and no timer runs.
   */
  lemma ResetIsQuiescent(o: Overwrite, m: Msg, now: real, prio: Option<JsNum>)
    requires Consistent(o)
    ensures CheckOverrideReset(Reset(o), m, now, prio) == Reset(o)
    ensures Fire(Reset(o)) == (Reset(o), None)
  {
    ResetIdempotent(o);
  }
}
