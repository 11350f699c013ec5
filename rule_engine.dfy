/**
 * The rule table of the blind controller: how `initialize` numbers and classifies
 * the configured rules, and how `checkRules` picks the rule that decides the level.
 * The results of a rule's condition, its time and its level are worked out by the
 * host configuration node; here they arrive as an `Eval` per rule.
 */
module RuleEngine {
  import opened Wrappers
  import opened JsValues
  import opened PositionMath

  /**
   * A rule as configured: `Number()` of its time and level operators, the type of
   * its condition's first operand and the type of its time ('none' when unused).
   */
  datatype RawRule = RawRule(timeOp: JsNum, levelOp: JsNum, validOperandAType: string, timeType: string)

  /**
   * A rule after `initialize`: its 1-based position, the operators (time 0 = until,
   * 1 = from, -1 = no time; level 0 = absolute, 1/2 = set minimum/maximum,
   * 3/4 = clear minimum/maximum) and whether it has a condition and a time.
   */
  datatype Rule = Rule(pos: int, timeOp: JsNum, levelOp: JsNum, conditional: bool, timeLimited: bool)

  /** The operator value equals the number `k`. */
  predicate IsOp(x: JsNum, k: int)
  {
    x == Fin(k as real)
  }

  /** `Number(x) || 0`: NaN and 0 become 0, every other number is kept. */
  function OrZero(n: JsNum): (r: JsNum)
    ensures r != NaN
    ensures r == Fin(0.0) <==> n == NaN || n == Fin(0.0)
    ensures r != Fin(0.0) ==> r == n
  {
    if n == NaN || n == Fin(0.0) then Fin(0.0) else n
  }

  /** One rule as `initialize` prepares it at index `i`. */
  function Normalize(raw: RawRule, i: nat): (r: Rule)
    ensures r.pos == i + 1
    ensures r.conditional <==> raw.validOperandAType != "none"
    ensures r.timeLimited <==> raw.timeType != "none"
    ensures !r.timeLimited ==> IsOp(r.timeOp, -1)
    ensures r.timeLimited ==> r.timeOp == OrZero(raw.timeOp)
    ensures r.levelOp == OrZero(raw.levelOp)
  {
    var timeLimited := raw.timeType != "none";
    Rule(i + 1, if timeLimited then OrZero(raw.timeOp) else Fin(-1.0), OrZero(raw.levelOp),
         raw.validOperandAType != "none", timeLimited)
  }

  /** The whole table as `initialize` prepares it. */
  function Normalized(raw: seq<RawRule>): (r: seq<Rule>)
    ensures |r| == |raw|
    ensures forall i :: 0 <= i < |raw| ==> r[i] == Normalize(raw[i], i)
  {
    seq(|raw|, i requires 0 <= i < |raw| => Normalize(raw[i], i))
  }

  /** The index of the last rule whose time operator is `op`, or -1. */
  function LastIndexOf(rules: seq<Rule>, op: int): (r: int)
    ensures -1 <= r < |rules|
    ensures r >= 0 ==> IsOp(rules[r].timeOp, op)
    ensures forall j :: r < j < |rules| ==> !IsOp(rules[j].timeOp, op)
    decreases |rules|
  {
    if rules == [] then -1
    else if IsOp(rules[|rules| - 1].timeOp, op) then |rules| - 1
    else LastIndexOf(rules[..|rules| - 1], op)
  }

  /** The index of the first rule whose time operator is `op`, or -1. */
  function FirstIndexOf(rules: seq<Rule>, op: int): (r: int)
    ensures -1 <= r < |rules|
    ensures r >= 0 ==> IsOp(rules[r].timeOp, op)
    ensures forall j :: 0 <= j < |rules| && (r < 0 || j < r) ==> !IsOp(rules[j].timeOp, op)
    decreases |rules|
  {
    if rules == [] then -1
    else
      var f := FirstIndexOf(rules[..|rules| - 1], op);
      if f >= 0 then f
      else if IsOp(rules[|rules| - 1].timeOp, op) then |rules| - 1
      else -1
  }

  /**
   * The bookkeeping `initialize` keeps: the number of rules, the last "until" rule
   * (the last rule of all when there is none), whether one exists, the first "from"
   * rule (again the last rule of all when there is none) and whether one exists.
   */
  datatype Index = Index(count: int, lastUntil: int, checkUntil: bool, firstFrom: int, checkFrom: bool)

  /** The bookkeeping for a prepared table. */
  function Indexing(rules: seq<Rule>): (r: Index)
    ensures r.count == |rules| && -1 <= r.lastUntil < |rules| && -1 <= r.firstFrom < |rules|
    ensures r.checkUntil <==> exists k :: 0 <= k < |rules| && IsOp(rules[k].timeOp, 0)
    ensures r.checkUntil ==> (0 <= r.lastUntil && IsOp(rules[r.lastUntil].timeOp, 0)
      && forall j :: r.lastUntil < j < |rules| ==> !IsOp(rules[j].timeOp, 0))
    ensures !r.checkUntil ==> r.lastUntil == |rules| - 1
    ensures r.checkFrom <==> exists k :: 0 <= k < |rules| && IsOp(rules[k].timeOp, 1)
    ensures r.checkFrom ==> (0 <= r.firstFrom && IsOp(rules[r.firstFrom].timeOp, 1)
      && forall j :: 0 <= j < r.firstFrom ==> !IsOp(rules[j].timeOp, 1))
    ensures !r.checkFrom ==> r.firstFrom == |rules| - 1
  {
    var u := LastIndexOf(rules, 0);
    var f := FirstIndexOf(rules, 1);
    Index(|rules|, if u >= 0 then u else |rules| - 1, u >= 0, if f >= 0 then f else |rules| - 1, f >= 0)
  }

  /** The part of `initialize` that prepares the rules, in one pass as the source does it. */
  method IndexRules(raw: seq<RawRule>) returns (rules: seq<Rule>, idx: Index)
    ensures rules == Normalized(raw)
    ensures idx == Indexing(rules)
  {
    var count := |raw|;
    var lastUntil := count - 1;
    var checkUntil := false;
    var checkFrom := false;
    var firstFrom := lastUntil;
    rules := [];
    for i := 0 to count
      invariant |rules| == i
      invariant forall k :: 0 <= k < i ==> rules[k] == Normalize(raw[k], k)
      invariant checkUntil <==> LastIndexOf(rules, 0) >= 0
      invariant lastUntil == if checkUntil then LastIndexOf(rules, 0) else count - 1
      invariant checkFrom <==> FirstIndexOf(rules, 1) >= 0
      invariant firstFrom == if checkFrom then FirstIndexOf(rules, 1) else count - 1
    {
      var rule := Normalize(raw[i], i);
      ghost var before := rules;
      rules := rules + [rule];
      assert rules[..i] == before;
      if IsOp(rule.timeOp, 0) {
        lastUntil := i;
        checkUntil := true;
      }
      if IsOp(rule.timeOp, 1) && !checkFrom {
        firstFrom := i;
        checkFrom := true;
      }
    }
    idx := Index(count, lastUntil, checkUntil, firstFrom, checkFrom);
  }

  /**
   * What the host works out for a rule on one event: the result of its condition,
   * its time in milliseconds (or the error the time lookup reported) and the level
   * it names.
   */
  datatype Eval = Eval(condition: bool, time: Result<real>, level: Level)

  /**
   * The rule passes the check of `checkRules`: its condition holds (if it has one)
   * and, if it has a time, the time was found and lies at or after `now` in the
   * forward pass, at or before `now` in the backward pass.
   */
  predicate Qualifies(rule: Rule, ev: Eval, now: real, forward: bool)
  {
    (!rule.conditional || ev.condition)
    && (!rule.timeLimited || (ev.time.Ok? && (if forward then ev.time.value >= now else ev.time.value <= now)))
  }

  /** The forward pass skips "from" rules, the backward pass "until" rules. */
  predicate Skipped(rule: Rule, forward: bool)
  {
    if forward then IsOp(rule.timeOp, 1) else IsOp(rule.timeOp, 0)
  }

  /** Level operators 1..4 only move the minimum and maximum. */
  predicate IsLimitOp(levelOp: JsNum)
  {
    IsOp(levelOp, 1) || IsOp(levelOp, 2) || IsOp(levelOp, 3) || IsOp(levelOp, 4)
  }

  /** The rule at `k` would end a pass: visited, qualifying, and not a minimum/maximum rule. */
  predicate Selectable(rules: seq<Rule>, evs: seq<Eval>, now: real, k: int, forward: bool)
    requires |evs| == |rules| && 0 <= k < |rules|
  {
    !Skipped(rules[k], forward) && Qualifies(rules[k], evs[k], now, forward) && !IsLimitOp(rules[k].levelOp)
  }

  /** The rule at `k` is visited by a pass and qualifies in it. */
  predicate Hit(rules: seq<Rule>, evs: seq<Eval>, now: real, k: int, forward: bool)
    requires |evs| == |rules| && 0 <= k < |rules|
  {
    !Skipped(rules[k], forward) && Qualifies(rules[k], evs[k], now, forward)
  }

  /** The selected rule and the current minimum and maximum rules (indices). */
  datatype Acc = Acc(sel: Option<nat>, min: Option<nat>, max: Option<nat>)

  /** The indices held are those of rules that set what they stand for and qualified in a pass. */
  predicate Sound(rules: seq<Rule>, evs: seq<Eval>, now: real, a: Acc)
    requires |evs| == |rules|
  {
    (a.sel.Some? ==>
       a.sel.value < |rules| && !IsLimitOp(rules[a.sel.value].levelOp)
       && (Hit(rules, evs, now, a.sel.value, true) || Hit(rules, evs, now, a.sel.value, false)))
    && (a.min.Some? ==>
       a.min.value < |rules| && IsOp(rules[a.min.value].levelOp, 1)
       && (Hit(rules, evs, now, a.min.value, true) || Hit(rules, evs, now, a.min.value, false)))
    && (a.max.Some? ==>
       a.max.value < |rules| && IsOp(rules[a.max.value].levelOp, 2)
       && (Hit(rules, evs, now, a.max.value, true) || Hit(rules, evs, now, a.max.value, false)))
  }

  /** A qualifying rule's effect: set or clear the minimum or maximum, or become the selection. */
  function Apply(a: Acc, k: nat, levelOp: JsNum): (r: Acc)
    ensures IsOp(levelOp, 1) ==> r == a.(min := Some(k))
    ensures IsOp(levelOp, 2) ==> r == a.(max := Some(k))
    ensures IsOp(levelOp, 3) ==> r == a.(min := None)
    ensures IsOp(levelOp, 4) ==> r == a.(max := None)
    ensures IsLimitOp(levelOp) ==> r.sel == a.sel
    ensures !IsLimitOp(levelOp) ==> r == a.(sel := Some(k))
  {
    if IsOp(levelOp, 1) then a.(min := Some(k))
    else if IsOp(levelOp, 2) then a.(max := Some(k))
    else if IsOp(levelOp, 3) then a.(min := None)
    else if IsOp(levelOp, 4) then a.(max := None)
    else a.(sel := Some(k))
  }

  /** The forward pass over the indices `i..hi`, stopping at the first selection. */
  function Forward(rules: seq<Rule>, evs: seq<Eval>, now: real, i: nat, hi: int, a: Acc): (r: Acc)
    requires |evs| == |rules| && hi < |rules|
    requires Sound(rules, evs, now, a)
    ensures Sound(rules, evs, now, r)
    decreases hi + 1 - i
  {
    if i > hi then a
    else if !Hit(rules, evs, now, i, true) then Forward(rules, evs, now, i + 1, hi, a)
    else
      var b := Apply(a, i, rules[i].levelOp);
      if !IsLimitOp(rules[i].levelOp) then b else Forward(rules, evs, now, i + 1, hi, b)
  }

  /** The backward pass over the indices `i` down to 0, stopping at the first selection. */
  function Backward(rules: seq<Rule>, evs: seq<Eval>, now: real, i: int, a: Acc): (r: Acc)
    requires |evs| == |rules| && i < |rules|
    requires Sound(rules, evs, now, a)
    ensures Sound(rules, evs, now, r)
    decreases i + 1
  {
    if i < 0 then a
    else if !Hit(rules, evs, now, i, false) then Backward(rules, evs, now, i - 1, a)
    else
      var b := Apply(a, i, rules[i].levelOp);
      if !IsLimitOp(rules[i].levelOp) then b else Backward(rules, evs, now, i - 1, b)
  }

  /** Both passes: forward over `0..lastUntil`; backward over the whole table if nothing was selected. */
  function Scan(rules: seq<Rule>, evs: seq<Eval>, now: real): (r: Acc)
    requires |evs| == |rules|
    ensures Sound(rules, evs, now, r)
  {
    var f := Forward(rules, evs, now, 0, Indexing(rules).lastUntil, Acc(None, None, None));
    if f.sel.Some? then f else Backward(rules, evs, now, |rules| - 1, f)
  }

  /** `checkRules`' scan, with the two loops of the source. */
  method ScanRules(rules: seq<Rule>, evs: seq<Eval>, now: real, lastUntil: int) returns (a: Acc)
    requires |evs| == |rules| && lastUntil == Indexing(rules).lastUntil
    ensures a == Scan(rules, evs, now)
  {
    a := ForwardLoop(rules, evs, now, lastUntil);
    if a.sel.None? {
      a := BackwardLoop(rules, evs, now, a);
    }
  }

  /** The first loop of `checkRules`, over `0..lastUntil`. */
  method ForwardLoop(rules: seq<Rule>, evs: seq<Eval>, now: real, lastUntil: int) returns (a: Acc)
    requires |evs| == |rules| && -1 <= lastUntil < |rules|
    ensures a == Forward(rules, evs, now, 0, lastUntil, Acc(None, None, None))
  {
    a := Acc(None, None, None);
    var i := 0;
    while i <= lastUntil
      invariant 0 <= i <= lastUntil + 1
      invariant a.sel.None? && Sound(rules, evs, now, a)
      invariant Forward(rules, evs, now, i, lastUntil, a) == Forward(rules, evs, now, 0, lastUntil, Acc(None, None, None))
    {
      var rule := rules[i];
      if !Skipped(rule, true) && Qualifies(rule, evs[i], now, true) {
        var b := Apply(a, i, rule.levelOp);
        if b.sel.Some? {
          return b;
        }
        a := b;
      }
      i := i + 1;
    }
  }

  /** The second loop of `checkRules`, from the last rule down to the first. */
  method BackwardLoop(rules: seq<Rule>, evs: seq<Eval>, now: real, a0: Acc) returns (a: Acc)
    requires |evs| == |rules| && a0.sel.None? && Sound(rules, evs, now, a0)
    ensures a == Backward(rules, evs, now, |rules| - 1, a0)
  {
    a := a0;
    var j := |rules| - 1;
    while j >= 0
      invariant -1 <= j < |rules|
      invariant a.sel.None? && Sound(rules, evs, now, a)
      invariant Backward(rules, evs, now, j, a) == Backward(rules, evs, now, |rules| - 1, a0)
    {
      var rule := rules[j];
      if !Skipped(rule, false) && Qualifies(rule, evs[j], now, false) {
        var b := Apply(a, j, rule.levelOp);
        if b.sel.Some? {
          return b;
        }
        a := b;
      }
      j := j - 1;
    }
  }

  /**
   * The forward pass selects the first rule in `i..hi` that is visited, qualifies
   * and is no minimum/maximum rule, and selects nothing when there is none.
   */
  lemma {:induction false} ForwardFirstMatch(rules: seq<Rule>, evs: seq<Eval>, now: real, i: nat, hi: int, a: Acc)
    requires |evs| == |rules| && hi < |rules|
    requires Sound(rules, evs, now, a) && a.sel.None?
    ensures var r := Forward(rules, evs, now, i, hi, a);
      (r.sel.Some? ==>
         i <= r.sel.value <= hi && Selectable(rules, evs, now, r.sel.value, true)
         && forall j :: i <= j < r.sel.value ==> !Selectable(rules, evs, now, j, true))
      && (r.sel.None? ==> forall j :: i <= j <= hi ==> !Selectable(rules, evs, now, j, true))
    decreases hi + 1 - i
  {
    if i <= hi {
      if !Hit(rules, evs, now, i, true) {
        ForwardFirstMatch(rules, evs, now, i + 1, hi, a);
      } else {
        var b := Apply(a, i, rules[i].levelOp);
        if b.sel.None? {
          ForwardFirstMatch(rules, evs, now, i + 1, hi, b);
        }
      }
    }
  }

  /**
   * The backward pass selects the last rule in `0..i` that is visited, qualifies and
   * is no minimum/maximum rule, and selects nothing when there is none.
   */
  lemma {:induction false} BackwardLastMatch(rules: seq<Rule>, evs: seq<Eval>, now: real, i: int, a: Acc)
    requires |evs| == |rules| && i < |rules|
    requires Sound(rules, evs, now, a) && a.sel.None?
    ensures var r := Backward(rules, evs, now, i, a);
      (r.sel.Some? ==>
         0 <= r.sel.value <= i && Selectable(rules, evs, now, r.sel.value, false)
         && forall j :: r.sel.value < j <= i ==> !Selectable(rules, evs, now, j, false))
      && (r.sel.None? ==> forall j :: 0 <= j <= i ==> !Selectable(rules, evs, now, j, false))
    decreases i + 1
  {
    if i >= 0 {
      if !Hit(rules, evs, now, i, false) {
        BackwardLastMatch(rules, evs, now, i - 1, a);
      } else {
        var b := Apply(a, i, rules[i].levelOp);
        if b.sel.None? {
          BackwardLastMatch(rules, evs, now, i - 1, b);
        }
      }
    }
  }

  /** The result of `checkRules` (`livingRuleData`) together with the reason code it sets. */
  datatype Limit = Limit(id: int, level: Level)
  datatype Living = Living(id: int, active: bool, level: Level, minimum: Option<Limit>, maximum: Option<Limit>, code: int)

  /**
   * `checkRules`: the selected rule gives the reason code 4 and its position as id;
   * an absolute rule (level operator 0) is active and gives its level, any other
   * selected rule gives the default level. Without a selection the level is the
   * default, the id -1 and the reason code 1. The minimum and maximum rules left by
   * the scan give the limits.
   */
  function CheckRules(rules: seq<Rule>, evs: seq<Eval>, now: real, levelDefault: Level): (r: Living)
    requires |evs| == |rules|
    ensures r.code == 1 || r.code == 4
    ensures r.code == 1 ==> r.id == -1 && !r.active && r.level == levelDefault
    ensures r.active ==> r.code == 4
    ensures !r.active ==> r.level == levelDefault
  {
    var a := Scan(rules, evs, now);
    var minimum := if a.min.Some? then Some(Limit(rules[a.min.value].pos, evs[a.min.value].level)) else None;
    var maximum := if a.max.Some? then Some(Limit(rules[a.max.value].pos, evs[a.max.value].level)) else None;
    if a.sel.Some? then
      var k := a.sel.value;
      var absolute := IsOp(rules[k].levelOp, 0);
      Living(rules[k].pos, absolute, if absolute then evs[k].level else levelDefault, minimum, maximum, 4)
    else Living(-1, false, levelDefault, minimum, maximum, 1)
  }

  /**
   * Which rule `checkRules` selects: the first selectable rule of the forward pass
   * (up to the last "until" rule); failing that, the last selectable rule of the
   * backward pass; the default exactly when neither pass has one.
   */
  lemma RuleSelection(rules: seq<Rule>, evs: seq<Eval>, now: real)
    requires |evs| == |rules|
    ensures var a := Scan(rules, evs, now); var lu := Indexing(rules).lastUntil;
      (a.sel.Some? && a.sel.value <= lu && Selectable(rules, evs, now, a.sel.value, true)
        && (forall j :: 0 <= j < a.sel.value ==> !Selectable(rules, evs, now, j, true)))
      || ((forall j :: 0 <= j <= lu ==> !Selectable(rules, evs, now, j, true))
        && (a.sel.Some? ==>
             Selectable(rules, evs, now, a.sel.value, false)
             && forall j :: a.sel.value < j < |rules| ==> !Selectable(rules, evs, now, j, false))
        && (a.sel.None? ==> forall j :: 0 <= j < |rules| ==> !Selectable(rules, evs, now, j, false)))
  {
    var lu := Indexing(rules).lastUntil;
    var init := Acc(None, None, None);
    ForwardFirstMatch(rules, evs, now, 0, lu, init);
    var f := Forward(rules, evs, now, 0, lu, init);
    if f.sel.None? {
      BackwardLastMatch(rules, evs, now, |rules| - 1, f);
    }
  }

  /**
   * The default applies exactly when no rule is selectable in either pass; then
   * `checkRules` reports id -1, reason code 1 and the default level.
   */
  lemma DefaultRule(rules: seq<Rule>, evs: seq<Eval>, now: real, levelDefault: Level)
    requires |evs| == |rules|
    ensures var r := CheckRules(rules, evs, now, levelDefault);
      r.code == 1 <==>
        (forall j :: 0 <= j <= Indexing(rules).lastUntil ==> !Selectable(rules, evs, now, j, true))
        && (forall j :: 0 <= j < |rules| ==> !Selectable(rules, evs, now, j, false))
  {
    RuleSelection(rules, evs, now);
  }

  /**
   * A selected rule decides: reason code 4 exactly when the scan selected a rule, whose
   * position is then the id; the result is active, with the rule's own level, exactly
   * when the rule is absolute (level operator 0).
   */
  lemma SelectedRuleDecides(rules: seq<Rule>, evs: seq<Eval>, now: real, levelDefault: Level)
    requires |evs| == |rules|
    ensures var a := Scan(rules, evs, now); var r := CheckRules(rules, evs, now, levelDefault);
      (r.code == 4 <==> a.sel.Some?)
      && (a.sel.Some? ==>
           r.id == rules[a.sel.value].pos
           && (r.active <==> IsOp(rules[a.sel.value].levelOp, 0))
           && (r.active ==> r.level == evs[a.sel.value].level))
  {
  }

  /**
   * The limits `checkRules` reports come from rules that set them: a minimum from a
   * rule with level operator 1, a maximum from one with level operator 2, each
   * visited and qualifying in one of the passes.
   */
  lemma LimitsFromLimitRules(rules: seq<Rule>, evs: seq<Eval>, now: real, levelDefault: Level)
    requires |evs| == |rules|
    ensures var a := Scan(rules, evs, now); var r := CheckRules(rules, evs, now, levelDefault);
      (r.minimum.Some? <==> a.min.Some?) && (r.maximum.Some? <==> a.max.Some?)
      && (a.min.Some? ==>
           IsOp(rules[a.min.value].levelOp, 1)
           && r.minimum == Some(Limit(rules[a.min.value].pos, evs[a.min.value].level))
           && (Hit(rules, evs, now, a.min.value, true) || Hit(rules, evs, now, a.min.value, false)))
      && (a.max.Some? ==>
           IsOp(rules[a.max.value].levelOp, 2)
           && r.maximum == Some(Limit(rules[a.max.value].pos, evs[a.max.value].level))
           && (Hit(rules, evs, now, a.max.value, true) || Hit(rules, evs, now, a.max.value, false)))
  {
  }

  /** Every index of `v` names a rule. */
  predicate InRange(rules: seq<Rule>, v: seq<nat>)
  {
    forall p :: 0 <= p < |v| ==> v[p] < |rules|
  }

  /** The effects of the rules `v`, taken in order, starting from `a`. */
  function FoldOps(rules: seq<Rule>, a: Acc, v: seq<nat>): Acc
    requires InRange(rules, v)
    decreases |v|
  {
    if v == [] then a
    else Apply(FoldOps(rules, a, v[..|v| - 1]), v[|v| - 1], rules[v[|v| - 1]].levelOp)
  }

  /**
   * The rules the forward pass over `i..hi` visits and finds qualifying, in the order
   * it meets them, up to and including the rule it selects.
   */
  function FwdVisits(rules: seq<Rule>, evs: seq<Eval>, now: real, i: nat, hi: int): (v: seq<nat>)
    requires |evs| == |rules| && hi < |rules|
    ensures forall p :: 0 <= p < |v| ==> i <= v[p] <= hi
    decreases hi + 1 - i
  {
    if i > hi then []
    else if !Hit(rules, evs, now, i, true) then FwdVisits(rules, evs, now, i + 1, hi)
    else if !IsLimitOp(rules[i].levelOp) then [i]
    else [i] + FwdVisits(rules, evs, now, i + 1, hi)
  }

  /**
   * The rules the backward pass from `i` down to 0 visits and finds qualifying, in the
   * order it meets them, up to and including the rule it selects.
   */
  function BwdVisits(rules: seq<Rule>, evs: seq<Eval>, now: real, i: int): (v: seq<nat>)
    requires |evs| == |rules| && i < |rules|
    ensures forall p :: 0 <= p < |v| ==> v[p] <= i
    decreases i + 1
  {
    if i < 0 then []
    else if !Hit(rules, evs, now, i, false) then BwdVisits(rules, evs, now, i - 1)
    else if !IsLimitOp(rules[i].levelOp) then [i]
    else [i] + BwdVisits(rules, evs, now, i - 1)
  }

  /** Some rule of `v` is no minimum/maximum rule, so a pass over `v` ends with a selection. */
  predicate Ends(rules: seq<Rule>, v: seq<nat>)
    requires InRange(rules, v)
  {
    exists p :: 0 <= p < |v| && !IsLimitOp(rules[v[p]].levelOp)
  }

  /**
   * The rules `checkRules` meets and finds qualifying, in scan order: those of the
   * forward pass, followed, when that pass selected nothing, by those of the backward pass.
   */
  function Visits(rules: seq<Rule>, evs: seq<Eval>, now: real): (v: seq<nat>)
    requires |evs| == |rules|
    ensures InRange(rules, v)
  {
    var f := FwdVisits(rules, evs, now, 0, Indexing(rules).lastUntil);
    if Ends(rules, f) then f else f + BwdVisits(rules, evs, now, |rules| - 1)
  }

  /** Taking the effects of `u` and then of `w` is taking those of `u + w`. */
  lemma {:induction false} FoldConcat(rules: seq<Rule>, a: Acc, u: seq<nat>, w: seq<nat>)
    requires InRange(rules, u) && InRange(rules, w)
    ensures InRange(rules, u + w)
    ensures FoldOps(rules, a, u + w) == FoldOps(rules, FoldOps(rules, a, u), w)
    decreases |w|
  {
    if w == [] {
      assert u + w == u;
    } else {
      var n := |w| - 1;
      assert (u + w)[..|u + w| - 1] == u + w[..n];
      assert (u + w)[|u + w| - 1] == w[n];
      FoldConcat(rules, a, u, w[..n]);
    }
  }

  /** Taking the effects of `[k] + w` is taking that of `k`, then those of `w`. */
  lemma FoldCons(rules: seq<Rule>, a: Acc, k: nat, w: seq<nat>)
    requires k < |rules| && InRange(rules, w)
    ensures InRange(rules, [k] + w)
    ensures FoldOps(rules, a, [k] + w) == FoldOps(rules, Apply(a, k, rules[k].levelOp), w)
  {
    assert FoldOps(rules, a, [k]) == Apply(a, k, rules[k].levelOp) by {
      assert [k][..0] == [];
    }
    FoldConcat(rules, a, [k], w);
  }

  /** Only minimum/maximum rules leave the selection as it was. */
  lemma {:induction false} FoldKeepsSelection(rules: seq<Rule>, a: Acc, v: seq<nat>)
    requires InRange(rules, v)
    ensures !Ends(rules, v) ==> FoldOps(rules, a, v).sel == a.sel
    ensures Ends(rules, v) ==> FoldOps(rules, a, v).sel.Some?
    decreases |v|
  {
    if v != [] {
      var n := |v| - 1;
      FoldKeepsSelection(rules, a, v[..n]);
      if Ends(rules, v) && IsLimitOp(rules[v[n]].levelOp) {
        var p :| 0 <= p < |v| && !IsLimitOp(rules[v[p]].levelOp);
        assert v[..n][p] == v[p];
      }
    }
  }

  /** The forward pass takes the effects of its visits in order. */
  lemma {:induction false} ForwardFold(rules: seq<Rule>, evs: seq<Eval>, now: real, i: nat, hi: int, a: Acc)
    requires |evs| == |rules| && hi < |rules|
    requires Sound(rules, evs, now, a)
    ensures InRange(rules, FwdVisits(rules, evs, now, i, hi))
    ensures Forward(rules, evs, now, i, hi, a) == FoldOps(rules, a, FwdVisits(rules, evs, now, i, hi))
    decreases hi + 1 - i
  {
    if i <= hi {
      if !Hit(rules, evs, now, i, true) {
        ForwardFold(rules, evs, now, i + 1, hi, a);
      } else {
        var b := Apply(a, i, rules[i].levelOp);
        if IsLimitOp(rules[i].levelOp) {
          ForwardFold(rules, evs, now, i + 1, hi, b);
          FoldCons(rules, a, i, FwdVisits(rules, evs, now, i + 1, hi));
        } else {
          FoldCons(rules, a, i, []);
          assert [i] + [] == [i];
        }
      }
    }
  }

  /** The backward pass takes the effects of its visits in order. */
  lemma {:induction false} BackwardFold(rules: seq<Rule>, evs: seq<Eval>, now: real, i: int, a: Acc)
    requires |evs| == |rules| && i < |rules|
    requires Sound(rules, evs, now, a)
    ensures InRange(rules, BwdVisits(rules, evs, now, i))
    ensures Backward(rules, evs, now, i, a) == FoldOps(rules, a, BwdVisits(rules, evs, now, i))
    decreases i + 1
  {
    if i >= 0 {
      if !Hit(rules, evs, now, i, false) {
        BackwardFold(rules, evs, now, i - 1, a);
      } else {
        var b := Apply(a, i, rules[i].levelOp);
        if IsLimitOp(rules[i].levelOp) {
          BackwardFold(rules, evs, now, i - 1, b);
          FoldCons(rules, a, i, BwdVisits(rules, evs, now, i - 1));
        } else {
          FoldCons(rules, a, i, []);
          assert [i] + [] == [i];
        }
      }
    }
  }

  /** Every rule of `v` is visited by the pass and qualifies in it. */
  predicate AllHit(rules: seq<Rule>, evs: seq<Eval>, now: real, v: seq<nat>, forward: bool)
    requires |evs| == |rules|
  {
    forall p :: 0 <= p < |v| ==> v[p] < |rules| && Hit(rules, evs, now, v[p], forward)
  }

  /** The forward pass meets only rules it visits and finds qualifying. */
  lemma {:induction false} FwdVisitsHit(rules: seq<Rule>, evs: seq<Eval>, now: real, i: nat, hi: int)
    requires |evs| == |rules| && hi < |rules|
    ensures AllHit(rules, evs, now, FwdVisits(rules, evs, now, i, hi), true)
    decreases hi + 1 - i
  {
    if i <= hi {
      FwdVisitsHit(rules, evs, now, i + 1, hi);
      var rest := FwdVisits(rules, evs, now, i + 1, hi);
      var v := FwdVisits(rules, evs, now, i, hi);
      forall p | 0 <= p < |v|
        ensures Hit(rules, evs, now, v[p], true)
      {
        if !Hit(rules, evs, now, i, true) {
          assert v == rest;
          assert Hit(rules, evs, now, rest[p], true);
        } else if p == 0 {
          assert v[0] == i;
        } else {
          assert v == [i] + rest && v[p] == rest[p - 1];
          assert Hit(rules, evs, now, rest[p - 1], true);
        }
      }
    }
  }

  /** The backward pass meets only rules it visits and finds qualifying. */
  lemma {:induction false} BwdVisitsHit(rules: seq<Rule>, evs: seq<Eval>, now: real, i: int)
    requires |evs| == |rules| && i < |rules|
    ensures AllHit(rules, evs, now, BwdVisits(rules, evs, now, i), false)
    decreases i + 1
  {
    if i >= 0 {
      BwdVisitsHit(rules, evs, now, i - 1);
      var rest := BwdVisits(rules, evs, now, i - 1);
      var v := BwdVisits(rules, evs, now, i);
      forall p | 0 <= p < |v|
        ensures Hit(rules, evs, now, v[p], false)
      {
        if !Hit(rules, evs, now, i, false) {
          assert v == rest;
          assert Hit(rules, evs, now, rest[p], false);
        } else if p == 0 {
          assert v[0] == i;
        } else {
          assert v == [i] + rest && v[p] == rest[p - 1];
          assert Hit(rules, evs, now, rest[p - 1], false);
        }
      }
    }
  }

  /** Every rule the scan meets qualified in the pass that met it. */
  lemma VisitsQualify(rules: seq<Rule>, evs: seq<Eval>, now: real)
    requires |evs| == |rules|
    ensures var v := Visits(rules, evs, now);
      forall p :: 0 <= p < |v| ==> Hit(rules, evs, now, v[p], true) || Hit(rules, evs, now, v[p], false)
  {
    var fv := FwdVisits(rules, evs, now, 0, Indexing(rules).lastUntil);
    var bv := BwdVisits(rules, evs, now, |rules| - 1);
    FwdVisitsHit(rules, evs, now, 0, Indexing(rules).lastUntil);
    BwdVisitsHit(rules, evs, now, |rules| - 1);
    var v := Visits(rules, evs, now);
    forall p | 0 <= p < |v|
      ensures Hit(rules, evs, now, v[p], true) || Hit(rules, evs, now, v[p], false)
    {
      if p >= |fv| {
        assert v == fv + bv && v[p] == bv[p - |fv|];
        assert Hit(rules, evs, now, bv[p - |fv|], false);
      } else {
        assert v[p] == fv[p];
        assert Hit(rules, evs, now, fv[p], true);
      }
    }
  }

  /** `checkRules`' scan takes the effects of the rules it visits, in scan order. */
  lemma ScanFold(rules: seq<Rule>, evs: seq<Eval>, now: real)
    requires |evs| == |rules|
    ensures Scan(rules, evs, now) == FoldOps(rules, Acc(None, None, None), Visits(rules, evs, now))
  {
    var init := Acc(None, None, None);
    var lu := Indexing(rules).lastUntil;
    var fv := FwdVisits(rules, evs, now, 0, lu);
    ForwardFold(rules, evs, now, 0, lu, init);
    FoldKeepsSelection(rules, init, fv);
    var f := Forward(rules, evs, now, 0, lu, init);
    assert f == FoldOps(rules, init, fv);
    if f.sel.Some? {
      assert Ends(rules, fv);
      assert Scan(rules, evs, now) == f && Visits(rules, evs, now) == fv;
    } else {
      assert !Ends(rules, fv);
      var bv := BwdVisits(rules, evs, now, |rules| - 1);
      BackwardFold(rules, evs, now, |rules| - 1, f);
      FoldConcat(rules, init, fv, bv);
      assert Scan(rules, evs, now) == Backward(rules, evs, now, |rules| - 1, f);
      assert Visits(rules, evs, now) == fv + bv;
    }
  }

  /** The minimum (`s` = 1) or the maximum (`s` = 2) an accumulator holds. */
  function LimitOf(a: Acc, s: int): Option<nat>
  {
    if s == 1 then a.min else a.max
  }

  /** The level operator sets (`s`) or clears (`s` + 2) the minimum (`s` = 1) or maximum (`s` = 2). */
  predicate Touches(levelOp: JsNum, s: int)
  {
    IsOp(levelOp, s) || IsOp(levelOp, s + 2)
  }

  /** The rule at place `p` of `v` is the last one there that sets or clears limit `s`. */
  predicate Final(rules: seq<Rule>, v: seq<nat>, p: int, s: int)
    requires InRange(rules, v) && 0 <= p < |v|
  {
    Touches(rules[v[p]].levelOp, s) && forall q :: p < q < |v| ==> !Touches(rules[v[q]].levelOp, s)
  }

  /** The effects of `v` are those of all but its last rule, followed by the last rule's. */
  lemma FoldSnoc(rules: seq<Rule>, a: Acc, v: seq<nat>)
    requires InRange(rules, v) && v != []
    ensures InRange(rules, v[..|v| - 1])
    ensures FoldOps(rules, a, v) == Apply(FoldOps(rules, a, v[..|v| - 1]), v[|v| - 1], rules[v[|v| - 1]].levelOp)
  {
    assert forall p :: 0 <= p < |v| - 1 ==> v[..|v| - 1][p] == v[p];
  }

  /** When no rule of `v` sets or clears limit `s`, the effects of `v` leave it as in `a`. */
  lemma {:induction false} FoldUntouched(rules: seq<Rule>, a: Acc, v: seq<nat>, s: int)
    requires InRange(rules, v) && (s == 1 || s == 2)
    requires forall p :: 0 <= p < |v| ==> !Touches(rules[v[p]].levelOp, s)
    ensures LimitOf(FoldOps(rules, a, v), s) == LimitOf(a, s)
    decreases |v|
  {
    if v != [] {
      var n := |v| - 1;
      FoldSnoc(rules, a, v);
      FinalInPrefix(rules, v, s);
      FoldUntouched(rules, a, v[..n], s);
      ApplyLimit(FoldOps(rules, a, v[..n]), v[n], rules[v[n]].levelOp, s);
    }
  }

  /**
   * After the effects of `v`, a limit is what the last rule of `v` touching it left:
   * the rule itself when it sets the limit, none when it clears it.
   */
  lemma {:induction false} FoldLimit(rules: seq<Rule>, a: Acc, v: seq<nat>, p: int, s: int)
    requires InRange(rules, v) && (s == 1 || s == 2) && 0 <= p < |v| && Final(rules, v, p, s)
    ensures LimitOf(FoldOps(rules, a, v), s) == (if IsOp(rules[v[p]].levelOp, s) then Some(v[p]) else None)
    decreases |v|
  {
    var n := |v| - 1;
    FoldSnoc(rules, a, v);
    var op := rules[v[n]].levelOp;
    if Touches(op, s) {
      FinalIsLast(rules, v, s);
      assert p == n;
      ApplyLimit(FoldOps(rules, a, v[..n]), v[n], op, s);
    } else {
      FinalInPrefix(rules, v, s);
      assert p < n;
      FoldLimit(rules, a, v[..n], p, s);
      ApplyLimit(FoldOps(rules, a, v[..n]), v[n], op, s);
    }
  }

  /** When the last rule touches limit `s`, it is the only final one. */
  lemma FinalIsLast(rules: seq<Rule>, v: seq<nat>, s: int)
    requires InRange(rules, v) && v != [] && Touches(rules[v[|v| - 1]].levelOp, s)
    ensures Final(rules, v, |v| - 1, s)
    ensures forall p :: 0 <= p < |v| && Final(rules, v, p, s) ==> p == |v| - 1
  {
  }

  /** When the last rule leaves limit `s` alone, the final rules are those of the rest. */
  lemma FinalInPrefix(rules: seq<Rule>, v: seq<nat>, s: int)
    requires InRange(rules, v) && v != [] && !Touches(rules[v[|v| - 1]].levelOp, s)
    ensures InRange(rules, v[..|v| - 1])
    ensures !Final(rules, v, |v| - 1, s)
    ensures forall p :: 0 <= p < |v| - 1 ==> v[..|v| - 1][p] == v[p]
    ensures forall p :: 0 <= p < |v| - 1 ==> (Final(rules, v, p, s) <==> Final(rules, v[..|v| - 1], p, s))
  {
  }

  /** One rule's effect on limit `s`: set or cleared when the rule touches it, kept otherwise. */
  lemma ApplyLimit(a: Acc, k: nat, levelOp: JsNum, s: int)
    requires s == 1 || s == 2
    ensures Touches(levelOp, s) ==> LimitOf(Apply(a, k, levelOp), s) == (if IsOp(levelOp, s) then Some(k) else None)
    ensures !Touches(levelOp, s) ==> LimitOf(Apply(a, k, levelOp), s) == LimitOf(a, s)
  {
  }

  /**
   * The minimum `checkRules` reports is decided by the last rule in scan order that
   * sets (level operator 1) or clears (3) it: a setting rule gives its position and
   * level, a clearing rule leaves no minimum, and without either there is none; the
   * maximum likewise with operators 2 and 4.
   */
  lemma LastLimitRuleDecides(rules: seq<Rule>, evs: seq<Eval>, now: real, levelDefault: Level)
    requires |evs| == |rules|
    ensures var v := Visits(rules, evs, now); var r := CheckRules(rules, evs, now, levelDefault);
      ((forall p :: 0 <= p < |v| ==> !Touches(rules[v[p]].levelOp, 1)) ==> r.minimum.None?)
      && (forall p :: 0 <= p < |v| && Final(rules, v, p, 1) ==>
            r.minimum == (if IsOp(rules[v[p]].levelOp, 1) then Some(Limit(rules[v[p]].pos, evs[v[p]].level)) else None))
      && ((forall p :: 0 <= p < |v| ==> !Touches(rules[v[p]].levelOp, 2)) ==> r.maximum.None?)
      && (forall p :: 0 <= p < |v| && Final(rules, v, p, 2) ==>
            r.maximum == (if IsOp(rules[v[p]].levelOp, 2) then Some(Limit(rules[v[p]].pos, evs[v[p]].level)) else None))
  {
    var v := Visits(rules, evs, now);
    var init := Acc(None, None, None);
    ScanFold(rules, evs, now);
    if forall p :: 0 <= p < |v| ==> !Touches(rules[v[p]].levelOp, 1) {
      FoldUntouched(rules, init, v, 1);
    }
    if forall p :: 0 <= p < |v| ==> !Touches(rules[v[p]].levelOp, 2) {
      FoldUntouched(rules, init, v, 2);
    }
    forall s, p | (s == 1 || s == 2) && 0 <= p < |v| && Final(rules, v, p, s)
      ensures LimitOf(FoldOps(rules, init, v), s) == (if IsOp(rules[v[p]].levelOp, s) then Some(v[p]) else None)
    {
      FoldLimit(rules, init, v, p, s);
    }
  }
}
