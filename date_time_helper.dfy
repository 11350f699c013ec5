/**
 * The self-contained helpers of the date/time helper library: boolean words,
 * exclusive or/and, zero padding, clipping, the limit check with wrap-around,
 * the message lookups and the next-allowed-weekday search.
 */
module DateTimeHelper {
  import opened Wrappers
  import opened JsValues
  import opened Decimal

  /** The words read as `true`. */
  const TrueWords: seq<string> := ["true", "yes", "on", "ja"]

  /** The words read as `false`. */
  const FalseWords: seq<string> := ["false", "no", "off", "nein"]

  /**
   * A value whose lower-cased text is one of the boolean words does not read as a
   * number (which holds for every value JavaScript can produce).
   */
  predicate Coherent(v: Value)
  {
    Lower(StringOf(v)) in TrueWords + FalseWords ==> LowerTextNumber(v) == NaN
  }

  /** `isTrue`: a word for true, or a positive number. */
  predicate IsTrue(v: Value)
  {
    var n := LowerTextNumber(v);
    Lower(StringOf(v)) in TrueWords || (n != NaN && Less(Fin(0.0), n))
  }

  /** `isFalse`: a word for false, or a number that is not positive. */
  predicate IsFalse(v: Value)
  {
    var n := LowerTextNumber(v);
    Lower(StringOf(v)) in FalseWords || (n != NaN && LessEq(n, Fin(0.0)))
  }

  /** `isBool`: a boolean word, or any number. It accepts exactly what reads as true or as false. */
  function IsBool(v: Value): (r: bool)
    ensures r <==> IsTrue(v) || IsFalse(v)
  {
    Lower(StringOf(v)) in TrueWords + FalseWords || LowerTextNumber(v) != NaN
  }

  /** No value reads as both true and false. */
  lemma TrueFalseExclusive(v: Value)
    requires Coherent(v)
    ensures !(IsTrue(v) && IsFalse(v))
  {
    var w := Lower(StringOf(v));
    if w in TrueWords {
      WordsDisjoint(w);
    }
  }

  /** No word is both a word for true and a word for false. */
  lemma WordsDisjoint(w: string)
    requires w in TrueWords
    ensures w !in FalseWords
  {
  }

  /** `XOR`: exactly one of the operands is truthy. */
  function Xor(a: Value, b: Value): (r: bool)
    ensures r <==> (Truthy(a) || Truthy(b)) && !(Truthy(a) && Truthy(b))
  {
    !Truthy(a) != !Truthy(b)
  }

  /** `XAND`: both operands are truthy or both are falsy; the negation of `XOR`. */
  function Xand(a: Value, b: Value): (r: bool)
    ensures r <==> (Truthy(a) && Truthy(b)) || !(Truthy(a) || Truthy(b))
    ensures r == !Xor(a, b)
  {
    !Truthy(a) == !Truthy(b)
  }

  /**
   * `pad2` on a whole number: a '0' is put in front of exactly the numbers 0..9, so
   * every number 0..99 comes out as two digits that read back as the number.
   */
  function Pad2(n: int): (r: string)
    ensures (r == "0" + IntText(n)) <==> 0 <= n <= 9
    ensures 0 <= n <= 99 ==> |r| == 2 && AllDigits(r) && DigitsValue(r) == n
    ensures (n < 0 || n > 9) ==> r == IntText(n)
  {
    if n < 0 || n > 9 then
      if n <= 99 && n >= 10 then
        NatTextRoundTrip(n);
        TwoDigits(n);
        IntText(n)
      else IntText(n)
    else
      NatTextRoundTrip(n);
      assert "0" + IntText(n) == ['0', DigitChar(n)];
      "0" + IntText(n)
  }

  /** The numbers 10..99 are written with two digits. */
  lemma TwoDigits(n: nat)
    requires 10 <= n <= 99
    ensures |NatText(n)| == 2
  {
    assert NatText(n) == NatText(n / 10) + [DigitChar(n % 10)];
  }

  /** The length `pad` pads to: a missing or zero length means 2. */
  function PadLength(len: Option<int>): int
  {
    if len == None || len == Some(0) then 2 else len.value
  }

  /**
   * `pad`: put '0's in front of the text until it is at least the requested length
   * long; a text that is long enough already is returned as it is.
   */
  method Pad(val: string, len: Option<int>) returns (r: string)
    ensures |r| >= PadLength(len) && |r| >= |val|
    ensures |val| < PadLength(len) ==> |r| == PadLength(len)
    ensures |val| >= PadLength(len) ==> r == val
    ensures r[|r| - |val|..] == val
    ensures forall i :: 0 <= i < |r| - |val| ==> r[i] == '0'
  {
    var l := PadLength(len);
    r := val;
    if |val| >= l {
      return;
    }
    while |r| < l
      invariant |val| <= |r| <= l && r[|r| - |val|..] == val
      invariant forall i :: 0 <= i < |r| - |val| ==> r[i] == '0'
      decreases l - |r|
    {
      r := "0" + r;
    }
  }

  /** The length `clipStrLength` clips to: a missing or zero length means 15. */
  function ClipLength(l: Option<int>): int
  {
    if l == None || l == Some(0) then 15 else l.value
  }

  /** JavaScript `s.slice(0, e)`: a negative end counts from the end of the text. */
  function SliceTo(s: string, e: int): (r: string)
    ensures r <= s
    ensures 0 <= e <= |s| ==> |r| == e
    ensures e < 0 ==> |r| == if |s| + e < 0 then 0 else |s| + e
  {
    if e < 0 then (if |s| + e < 0 then [] else s[..|s| + e])
    else if e > |s| then s
    else s[..e]
  }

  /**
   * `clipStrLength`: a text no longer than the limit is kept; a longer one is cut
   * and ends in "...", and for a limit of three or more it is exactly the limit long.
   */
  function ClipStrLength(v: string, l: Option<int>): (r: string)
    ensures |v| <= ClipLength(l) ==> r == v
    ensures |v| > ClipLength(l) ==> |r| >= 3 && r[|r| - 3..] == "..." && r[..|r| - 3] <= v
    ensures |v| > ClipLength(l) >= 3 ==> |r| == ClipLength(l) && r == v[..ClipLength(l) - 3] + "..."
  {
    var limit := ClipLength(l);
    if |v| > limit then SliceTo(v, limit - 3) + "..." else v
  }

  /** `chkValueFilled`: a missing, null or empty value is replaced by the default. */
  function ChkValueFilled(val: Value, defaultVal: Value): (r: Value)
    ensures val == Undefined || val == Null || IsEmptyText(val) ==> r == defaultVal
    ensures !(val == Undefined || val == Null || IsEmptyText(val)) ==> r == val
  {
    if val == Undefined || IsEmptyText(val) || val == Null then defaultVal else val
  }

  /** A given limit: present, not empty and a number. */
  predicate LimitGiven(x: Value)
  {
    x != Undefined && !IsEmptyText(x) && ToNumber(x) != NaN
  }

  /** A given limit that is also not negative. */
  predicate LimitValid(x: Value)
  {
    LimitGiven(x) && LessEq(Fin(0.0), ToNumber(x))
  }

  /**
   * JavaScript's `<` on two strings: `x` is a proper prefix of `y`, or at the first
   * place where they differ `x` has the smaller character.
   */
  predicate TextLess(x: string, y: string)
    decreases |x|
  {
    if x == [] then y != []
    else y != [] && (x[0] < y[0] || (x[0] == y[0] && TextLess(x[1..], y[1..])))
  }

  /** JavaScript's `a > b`: two strings compare as text, anything else as numbers. */
  predicate Above(a: Value, b: Value)
  {
    if a.Text? && b.Text? then TextLess(b.s, a.s) else Less(ToNumber(b), ToNumber(a))
  }

  /**
   * `checkLimits`: with two valid limits the number must lie strictly between them,
   * or, when the high limit is not above the low one (`high > low` compares two text
   * limits as text), outside the wrapped-around gap; with only a valid low limit it
   * must be above it, with only a given high limit (which may be negative) below it,
   * and with neither the check fails.
   */
  function CheckLimits(num: JsNum, low: Value, high: Value): (r: bool)
    ensures LimitValid(low) && LimitValid(high) && Above(high, low) ==>
      (r <==> Less(ToNumber(low), num) && Less(num, ToNumber(high)))
    ensures LimitValid(low) && LimitValid(high) && !Above(high, low) ==>
      (r <==> Less(ToNumber(low), num) || Less(num, ToNumber(high)))
    ensures LimitValid(low) && !LimitValid(high) ==> (r <==> Less(ToNumber(low), num))
    ensures !LimitValid(low) && LimitGiven(high) ==> (r <==> Less(num, ToNumber(high)))
    ensures !LimitValid(low) && !LimitGiven(high) ==> !r
  {
    if LimitValid(low) then
      if LimitValid(high) then
        if Above(high, low) then
          Less(ToNumber(low), num) && Less(num, ToNumber(high))
        else
          Less(ToNumber(low), num) || Less(num, ToNumber(high))
      else Less(ToNumber(low), num)
    else if LimitGiven(high) then Less(num, ToNumber(high))
    else false
  }

  /**
   * With the high limit below the low one (and, for two text limits, not above it as
   * text either), the check accepts a finite number exactly when it lies outside the
   * closed range [high, low]: the wrapped-around window is the complement of the
   * ordinary one.
   */
  lemma WrappedLimitsAreComplement(num: real, low: Value, high: Value)
    requires LimitValid(low) && LimitValid(high)
    requires Less(ToNumber(high), ToNumber(low)) && !Above(high, low)
    ensures CheckLimits(Fin(num), low, high) <==>
      !(LessEq(ToNumber(high), Fin(num)) && LessEq(Fin(num), ToNumber(low)))
  {
    match (ToNumber(low), ToNumber(high))
    case (Fin(_), Fin(_)) =>
    case (PosInf, Fin(_)) =>
    case (_, _) =>
  }

  /** A limit that is not text is compared with the other limit as a number. */
  lemma NumericLimitsCompareAsNumbers(low: Value, high: Value)
    requires !low.Text? || !high.Text?
    ensures Above(high, low) <==> Less(ToNumber(low), ToNumber(high))
  {
  }

  /**
   * Two text limits compare as text: with "9" and "10" the high limit is not above
   * the low one, so the wrapped-around branch accepts 20.
   */
  lemma TextLimitsCompareAsText()
    ensures !Above(Text("10", Fin(10.0)), Text("9", Fin(9.0)))
    ensures CheckLimits(Fin(20.0), Text("9", Fin(9.0)), Text("10", Fin(10.0)))
  {
    assert "9"[0] == '9' && "10"[0] == '1';
  }

  /** A field the number lookup may use: present and not the empty string. */
  predicate Usable(v: Value)
  {
    v != Undefined && !IsEmptyText(v)
  }

  /** The number a field contributes to the number lookup, if it reads as one. */
  function FieldNumber(v: Value): (r: Option<JsNum>)
    ensures r.Some? <==> Usable(v) && ToNumber(v) != NaN
    ensures r.Some? ==> r.value == ToNumber(v)
  {
    if Usable(v) && ToNumber(v) != NaN then Some(ToNumber(v)) else None
  }

  /** The first of the ids whose payload field, or else whose message property, reads as a number. */
  function IdsNumber(m: Msg, ids: seq<string>): Option<JsNum>
    decreases |ids|
  {
    if ids == [] then None
    else if FieldNumber(PayloadField(m, ids[0])).Some? then FieldNumber(PayloadField(m, ids[0]))
    else if FieldNumber(Prop(m, ids[0])).Some? then FieldNumber(Prop(m, ids[0]))
    else IdsNumber(m, ids[1..])
  }

  /** The topic contains one of the names. */
  predicate AnyIncluded(topic: string, names: seq<string>)
  {
    exists i :: 0 <= i < |names| && Includes(topic, names[i])
  }

  /** The name fallback of the number lookup applies. */
  predicate NameNumberApplies(m: Msg, names: seq<string>)
  {
    m.topic != "" && PayloadNumber(m) != NaN && AnyIncluded(m.topic, names)
  }

  /**
   * `getMsgNumberValue` without callbacks: the ids in order, each in the payload
   * before the message itself; then, when the topic contains one of the names, the
   * payload as a number. `None` is the not-found case.
   */
  function MsgNumber(m: Msg, ids: seq<string>, names: seq<string>): (r: Option<JsNum>)
  {
    if IdsNumber(m, ids).Some? then IdsNumber(m, ids)
    else if NameNumberApplies(m, names) then Some(PayloadNumber(m))
    else None
  }

  /** No id gives a number exactly when neither field of any id reads as one. */
  lemma {:induction false} IdsNumberNone(m: Msg, ids: seq<string>)
    ensures IdsNumber(m, ids) == None <==>
      forall j :: 0 <= j < |ids| ==> FieldNumber(PayloadField(m, ids[j])) == None && FieldNumber(Prop(m, ids[j])) == None
    decreases |ids|
  {
    if ids != [] {
      IdsNumberNone(m, ids[1..]);
      assert forall j :: 1 <= j < |ids| ==> ids[j] == ids[1..][j - 1];
    }
  }

  /**
   * The lookup order: when no earlier id gives a number, the `k`-th id decides if its
   * payload field or (second) its message property reads as a number.
   */
  lemma {:induction false} IdsNumberOrder(m: Msg, ids: seq<string>, k: nat)
    requires k < |ids|
    requires forall j :: 0 <= j < k ==> FieldNumber(PayloadField(m, ids[j])) == None && FieldNumber(Prop(m, ids[j])) == None
    ensures FieldNumber(PayloadField(m, ids[k])).Some? ==> IdsNumber(m, ids) == FieldNumber(PayloadField(m, ids[k]))
    ensures FieldNumber(PayloadField(m, ids[k])).None? && FieldNumber(Prop(m, ids[k])).Some? ==>
      IdsNumber(m, ids) == FieldNumber(Prop(m, ids[k]))
    decreases k
  {
    if k > 0 {
      IdsNumberOrder(m, ids[1..], k - 1);
    }
  }

  /**
   * The number lookup finds nothing exactly when no id field reads as a number and the
   * name fallback does not apply; whatever it finds is a number, never NaN.
   */
  lemma MsgNumberNotFound(m: Msg, ids: seq<string>, names: seq<string>)
    ensures MsgNumber(m, ids, names) == None <==>
      (forall j :: 0 <= j < |ids| ==> FieldNumber(PayloadField(m, ids[j])) == None && FieldNumber(Prop(m, ids[j])) == None)
      && !NameNumberApplies(m, names)
    ensures MsgNumber(m, ids, names).Some? ==> MsgNumber(m, ids, names).value != NaN
  {
    IdsNumberNone(m, ids);
    IdsNumberNotNaN(m, ids);
  }

  /** A number found through an id is never NaN. */
  lemma {:induction false} IdsNumberNotNaN(m: Msg, ids: seq<string>)
    ensures IdsNumber(m, ids).Some? ==> IdsNumber(m, ids).value != NaN
    decreases |ids|
  {
    if ids != [] {
      IdsNumberNotNaN(m, ids[1..]);
    }
  }

  /** `getMsgNumberValue`, scanning the ids and then the names as the loops of the source do. */
  method GetMsgNumberValue(m: Msg, ids: seq<string>, names: seq<string>) returns (r: Option<JsNum>)
    ensures r == MsgNumber(m, ids, names)
  {
    var i := 0;
    while i < |ids|
      invariant 0 <= i <= |ids|
      invariant IdsNumber(m, ids) == IdsNumber(m, ids[i..])
    {
      assert ids[i..][1..] == ids[i + 1..];
      var p := PayloadField(m, ids[i]);
      if Usable(p) && ToNumber(p) != NaN {
        return Some(ToNumber(p));
      }
      var q := Prop(m, ids[i]);
      if Usable(q) && ToNumber(q) != NaN {
        return Some(ToNumber(q));
      }
      i := i + 1;
    }
    if m.topic != "" && PayloadNumber(m) != NaN {
      var k := 0;
      while k < |names|
        invariant 0 <= k <= |names|
        invariant forall j :: 0 <= j < k ==> !Includes(m.topic, names[j])
      {
        if Includes(m.topic, names[k]) {
          return Some(PayloadNumber(m));
        }
        k := k + 1;
      }
    }
    return None;
  }

  /** A field the boolean lookup may use: present, not null and not the empty string. */
  predicate Present(v: Value)
  {
    v != Undefined && v != Null && !IsEmptyText(v)
  }

  /** The first of the ids present in the payload, or else in the message, read with `isTrue`. */
  function IdsBool(m: Msg, ids: seq<string>): Option<bool>
    decreases |ids|
  {
    if ids == [] then None
    else if Present(PayloadField(m, ids[0])) then Some(IsTrue(PayloadField(m, ids[0])))
    else if Present(Prop(m, ids[0])) then Some(IsTrue(Prop(m, ids[0])))
    else IdsBool(m, ids[1..])
  }

  /**
   * `getMsgBoolValue` without callbacks: the ids in order, each in the payload before
   * the message; then a topic containing one of the names counts as `true`.
   */
  function MsgBool(m: Msg, ids: seq<string>, names: seq<string>): (r: Option<bool>)
  {
    if IdsBool(m, ids).Some? then IdsBool(m, ids)
    else if m.topic != "" && AnyIncluded(m.topic, names) then Some(true)
    else None
  }

  /** No id gives a boolean exactly when neither field of any id is present. */
  lemma {:induction false} IdsBoolNone(m: Msg, ids: seq<string>)
    ensures IdsBool(m, ids) == None <==>
      forall j :: 0 <= j < |ids| ==> !Present(PayloadField(m, ids[j])) && !Present(Prop(m, ids[j]))
    decreases |ids|
  {
    if ids != [] {
      IdsBoolNone(m, ids[1..]);
      assert forall j :: 1 <= j < |ids| ==> ids[j] == ids[1..][j - 1];
    }
  }

  /**
   * The boolean lookup finds nothing exactly when no id is present and the topic names
   * none of the names; a value it finds through an id is that field's `isTrue`, and a
   * match of the topic alone always reads as `true`.
   */
  lemma MsgBoolNotFound(m: Msg, ids: seq<string>, names: seq<string>)
    ensures MsgBool(m, ids, names) == None <==>
      (forall j :: 0 <= j < |ids| ==> !Present(PayloadField(m, ids[j])) && !Present(Prop(m, ids[j])))
      && !(m.topic != "" && AnyIncluded(m.topic, names))
    ensures IdsBool(m, ids) == None && m.topic != "" && AnyIncluded(m.topic, names) ==>
      MsgBool(m, ids, names) == Some(true)
  {
    IdsBoolNone(m, ids);
  }

  /** `getMsgBoolValue`, scanning the ids and then the names as the loops of the source do. */
  method GetMsgBoolValue(m: Msg, ids: seq<string>, names: seq<string>) returns (r: Option<bool>)
    ensures r == MsgBool(m, ids, names)
  {
    var i := 0;
    while i < |ids|
      invariant 0 <= i <= |ids|
      invariant IdsBool(m, ids) == IdsBool(m, ids[i..])
    {
      assert ids[i..][1..] == ids[i + 1..];
      var p := PayloadField(m, ids[i]);
      if Present(p) {
        return Some(IsTrue(p));
      }
      var q := Prop(m, ids[i]);
      if Present(q) {
        return Some(IsTrue(q));
      }
      i := i + 1;
    }
    if m.topic != "" {
      var k := 0;
      while k < |names|
        invariant 0 <= k <= |names|
        invariant forall j :: 0 <= j < k ==> !Includes(m.topic, names[j])
      {
        if Includes(m.topic, names[k]) {
          return Some(true);
        }
        k := k + 1;
      }
    }
    return None;
  }

  /** How far the day counter runs before `calcDayOffset` restarts the week at day 0. */
  function WrapAt(daystart: int): int
  {
    if 7 - daystart >= 1 then 7 - daystart else 1
  }

  /**
   * The weekday `calcDayOffset` tests after `d` steps: it counts up from the start day
   * and, once that would pass Saturday (6), continues from Sunday (0).
   */
  function DayPos(daystart: int, d: nat): int
  {
    if d == 0 || daystart + d <= 6 then daystart + d else d - WrapAt(daystart)
  }

  /** The first step from `d` on (at most 7) whose weekday is allowed, or -1. */
  function OffsetFrom(days: seq<int>, daystart: int, d: nat): int
    decreases 8 - d
  {
    if d > 7 then -1
    else if DayPos(daystart, d) in days then d
    else OffsetFrom(days, daystart, d + 1)
  }

  /** What `calcDayOffset` returns for any start day. */
  function DayOffset(days: seq<int>, daystart: int): int
  {
    OffsetFrom(days, daystart, 0)
  }

  /** The weekday `d` days after `daystart`, counted modulo a week. */
  function Weekday(daystart: int, d: int): int
  {
    (daystart + d) % 7
  }

  /**
   * For a start day 0..6 the offset is the smallest d in 0..6 with (daystart + d) mod 7
   * an allowed day, and -1 when no weekday is allowed.
   */
  lemma DayOffsetIsNextAllowed(days: seq<int>, daystart: int)
    requires 0 <= daystart <= 6
    ensures var r := DayOffset(days, daystart);
      (r == -1 <==> forall d :: 0 <= d <= 6 ==> Weekday(daystart, d) !in days)
      && (r != -1 ==> 0 <= r <= 6 && Weekday(daystart, r) in days
                      && forall d :: 0 <= d < r ==> Weekday(daystart, d) !in days)
  {
    forall d: nat | d <= 7
      ensures DayPos(daystart, d) == Weekday(daystart, d)
    {
    }
    OffsetFromScan(days, daystart, 0);
  }

  /** The scan from step `d` on, for a start day 0..6. */
  lemma {:induction false} OffsetFromScan(days: seq<int>, daystart: int, d: nat)
    requires 0 <= daystart <= 6 && d <= 8
    requires forall e: nat :: e <= 7 ==> DayPos(daystart, e) == Weekday(daystart, e)
    requires forall e :: 0 <= e < d && e <= 6 ==> Weekday(daystart, e) !in days
    ensures var r := OffsetFrom(days, daystart, d);
      (r == -1 <==> forall e :: d <= e <= 6 ==> Weekday(daystart, e) !in days)
      && (r != -1 ==> d <= r <= 6 && Weekday(daystart, r) in days
                      && forall e :: d <= e < r ==> Weekday(daystart, e) !in days)
    decreases 8 - d
  {
    if d == 7 {
      assert DayPos(daystart, 7) == daystart;
      assert Weekday(daystart, 0) !in days;
    } else if d < 7 {
      if DayPos(daystart, d) !in days {
        OffsetFromScan(days, daystart, d + 1);
      }
    }
  }

  /**
   * `calcDayOffset`: step through the weekdays from the start day until an allowed one
   * is found, giving up with -1 after a full week.
   */
  method CalcDayOffset(days: seq<int>, daystart: int) returns (dayx: int)
    ensures dayx == DayOffset(days, daystart)
  {
    ghost var first := daystart;
    var start := daystart;
    dayx := 0;
    var daypos := start;
    while daypos !in days
      invariant 0 <= dayx <= 7
      invariant daypos == DayPos(first, dayx)
      invariant start == if dayx >= 1 && first + dayx > 6 then -WrapAt(first) else first
      invariant OffsetFrom(days, first, 0) == OffsetFrom(days, first, dayx)
      decreases 8 - dayx
    {
      dayx := dayx + 1;
      if start + dayx > 6 {
        start := -dayx;
      }
      daypos := start + dayx;
      if dayx > 7 {
        dayx := -1;
        break;
      }
    }
  }
}
