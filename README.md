# Blind controller, modelled in Dafny

This project models the core of the blind controller node of a Node-RED sun-position
package, together with the helpers it relies on. The node drives a roller shutter or
blind. Its level lies on a scale from the closed to the open position, in steps of a
configured increment. On every input event it decides the level in this order:

1. A **manual override** from the message decides first. The override has a
   priority and an optional expiry.
2. Otherwise the **rules** decide. The first rule that matches sets the level or, failing
   that, the last matching rule that is not an "until" rule does. Each matching
   rule met on the way can set or clear a minimum or a maximum.
3. Otherwise the **sun** decides. The level comes from how high the light reaches
   into the window, with smoothing, a minimum change, and configured minimum and
   maximum levels.

The resulting level is clamped to the scale. It is sent only when it, the reason code
or the rule used has changed.

The model is in these modules:

- `Wrappers`: `Option` and `Result`.
- `JsValues`: JavaScript numbers (NaN and the infinities), message values, truthiness,
  ASCII lower-casing, `includes`, and the Node-RED message shape.
- `PositionMath`: the level scale.
  - Validity of a requested level.
  - Rounding to the increment.
  - Conversion between percentages and absolute levels.
  - The inverse level and the level in the configured orientation.
  - Angle normalisation.
- `Decimal`: decimal text of integers, used by the padding helpers.
- `DateTimeHelper`:
  - boolean words, XOR and XAND;
  - padding and clipping;
  - the "filled" default and the limit check;
  - the message lookups of numbers and booleans (each a function, plus a method with
    the source's loop that is proved equal to it);
  - the day offset.
- `DateFormat`: `_isInteger`, `_getInt` and the component parsing of
  `_getDateFromFormat`. This module carries the finding below.
- `TopicReplace`: `${key}` placeholders in a topic.
- `TopicPlaceholders`: what `topicReplace` makes of a topic with one or any number
  of placeholders between plain texts.
- `Override`: the manual override as functions on an `Overwrite` value.
- `RuleEngine`: rule preparation and indexing, and `checkRules`.
- `SunEngine`: `calcBlindSunPosition`.
- `Controller`: the input handler as a function from state and event to new state and
  emission.
- `BlindControl`: the class `BlindControlNode`. It holds the node's fields and updates
  them in place. Each of its methods is proved to leave exactly the state that the
  functions above specify.

Levels and times are exact reals: levels are in the scale's unit and times in
milliseconds. A NaN level is `None`.

Anything the node computes through code outside this core arrives as an input to the
model:
- the current time;
- the rule conditions and rule times;
- the levels read from typed inputs;
- whether the sun stands in the window, its altitude and the height its light reaches;
- the first oversteer entry that applies.

## Model

| member | source | states |
|---|---|---|
| PositionMath.Configure | nodes/blind-control.js:853-871 | the open and closed levels become bottom <= top, the pair is the configured pair, and the node counts as reversed exactly when the open level is below the closed one |
| PositionMath.Round | nodes/blind-control.js:131 | `Math.round`: the integer nearest to x, halves rounded up |
| PositionMath.NearestIsMultiple | nodes/blind-control.js:131 | the rounded position is a whole multiple of the increment |
| PositionMath.PosRound | nodes/blind-control.js:127-141 | the result lies on the scale; it is the nearest multiple of the increment when that is on the scale, otherwise the top or the bottom it passed |
| PositionMath.PosRoundMonotone | nodes/blind-control.js:127-141 | rounding keeps order: x <= y gives round(x) <= round(y) |
| PositionMath.PosRoundFixesMultiples | nodes/blind-control.js:127-141 | a level on the scale and on the increment grid rounds to itself |
| PositionMath.PosPrcToAbs | nodes/blind-control.js:89-91 | any percentage maps to a level on the scale |
| PositionMath.PosPrcToAbsMonotone | nodes/blind-control.js:89-91 | a larger percentage never gives a lower level |
| PositionMath.PrcToAbsEnds | nodes/blind-control.js:89-91 | 0 maps to the bottom and 1 to the top when both ends lie on the increment grid |
| PositionMath.PosAbsToPrc | nodes/blind-control.js:98-100 | a percentage exists exactly when top and bottom differ, and mapping it back onto the scale gives the level again |
| PositionMath.InversePos | nodes/blind-control.js:107-109 | the inverse is NaN exactly when the level is NaN or the scale is empty; otherwise it lies on the scale |
| PositionMath.InverseIsMirror | nodes/blind-control.js:107-109 | the inverse of a grid level is its mirror top + bottom - level |
| PositionMath.InverseInvolution | nodes/blind-control.js:107-109 | taking the inverse twice gives back the grid level |
| PositionMath.RealLevel | nodes/blind-control.js:115-120 | the level sent out is the inverse level on a reversed node and the level otherwise |
| PositionMath.ValidPosition | nodes/blind-control.js:16-55 | NaN is never valid; a valid level lies on the scale; on an all-integer scale it is an integer multiple of the increment; without rounding allowed it is a multiple of the increment |
| PositionMath.ValidIffRoundFixed | nodes/blind-control.js:16-55 | on a grid-aligned scale, a level is valid without rounding exactly when rounding leaves it unchanged |
| PositionMath.AllowRoundEffect | nodes/blind-control.js:43-54 | allowing rounding changes nothing on an all-integer scale, and otherwise accepts exactly the levels on the scale |
| PositionMath.AngleNorm | nodes/blind-control.js:147-155 | the result lies in [0, 360], differs from the angle by a whole number of turns, and equals the angle when it was already in range |
| Decimal.NatTextRoundTrip | nodes/lib/dateTimeHelper.js:122-124 | the decimal text of a natural number reads back as that number |
| DateTimeHelper.IsBool | nodes/lib/dateTimeHelper.js:56-59 | a value is a boolean word exactly when it is a true word or a false word |
| DateTimeHelper.TrueFalseExclusive | nodes/lib/dateTimeHelper.js:65-78 | no value is both a true word and a false word |
| DateTimeHelper.WordsDisjoint | nodes/lib/dateTimeHelper.js:65-78 | the true and false word lists share no word |
| DateTimeHelper.Xor | nodes/lib/dateTimeHelper.js:86-88 | true exactly when one of the two values is truthy |
| DateTimeHelper.Xand | nodes/lib/dateTimeHelper.js:96-98 | true exactly when both or neither are truthy, the negation of Xor |
| DateTimeHelper.Pad2 | nodes/lib/dateTimeHelper.js:122-124 | a zero is prefixed exactly for 0..9; every n in 0..99 gives two digits that read back as n |
| DateTimeHelper.Pad | nodes/lib/dateTimeHelper.js:132-139 | text shorter than the requested length (default 2) is padded with zeros in front to exactly that length; text at least that long comes back unchanged |
| DateTimeHelper.ClipStrLength | nodes/lib/dateTimeHelper.js:196-202 | text within the limit (default 15) is returned as is; longer text ends in "..." after a prefix of the text, and for a limit of 3 or more is exactly the limit long |
| DateTimeHelper.ChkValueFilled | nodes/lib/dateTimeHelper.js:186-188 | undefined, null and the empty string give the default; any other value is returned |
| DateTimeHelper.CheckLimits | nodes/lib/dateTimeHelper.js:309-325 | with both limits, inside the interval when high > low, otherwise outside the wrapped one, where `high > low` compares two text limits as text; with one limit, beyond it; with none, false |
| DateTimeHelper.NumericLimitsCompareAsNumbers | nodes/lib/dateTimeHelper.js:313 | when either limit is not text, `high > low` is the numeric comparison |
| DateTimeHelper.TextLimitsCompareAsText | nodes/lib/dateTimeHelper.js:313-316 | the text limits "9" and "10" take the wrapped branch, so 20 passes the check |
| DateTimeHelper.WrappedLimitsAreComplement | nodes/lib/dateTimeHelper.js:309-325 | for wrapped limits the check is exactly the complement of the closed interval [high, low] |
| DateTimeHelper.FieldNumber | nodes/lib/dateTimeHelper.js:339-356 | a field gives a number exactly when it is set, non-empty and not NaN as a number |
| DateTimeHelper.IdsNumberNone | nodes/lib/dateTimeHelper.js:337-357 | the id lookup finds nothing exactly when no id gives a number in the payload or in the message |
| DateTimeHelper.IdsNumberOrder | nodes/lib/dateTimeHelper.js:337-357 | the first id that gives a number wins, the payload field before the message property |
| DateTimeHelper.IdsNumberNotNaN | nodes/lib/dateTimeHelper.js:337-357 | a number that was found is never NaN |
| DateTimeHelper.MsgNumberNotFound | nodes/lib/dateTimeHelper.js:332-381 | the lookup finds nothing exactly when no id gives a number and no topic name applies, and what it finds is never NaN |
| DateTimeHelper.GetMsgNumberValue | nodes/lib/dateTimeHelper.js:332-381 | the loop over ids and names returns what the lookup function specifies |
| DateTimeHelper.IdsBoolNone | nodes/lib/dateTimeHelper.js:388-428 | the boolean id lookup finds nothing exactly when no id is present in the payload or the message |
| DateTimeHelper.MsgBoolNotFound | nodes/lib/dateTimeHelper.js:388-428 | nothing is found exactly when no id is present and the topic names none of the names; a topic naming one gives true |
| DateTimeHelper.GetMsgBoolValue | nodes/lib/dateTimeHelper.js:388-428 | the loop returns what the boolean lookup function specifies |
| DateTimeHelper.DayOffsetIsNextAllowed | nodes/lib/dateTimeHelper.js:510-528 | the offset is the number of days to the first allowed weekday from the start day on, or -1 exactly when no weekday is allowed |
| DateTimeHelper.OffsetFromScan | nodes/lib/dateTimeHelper.js:510-528 | from any day d of the scan on, the offset found is the first allowed one at or after d |
| DateTimeHelper.CalcDayOffset | nodes/lib/dateTimeHelper.js:510-528 | the loop returns the day offset the function specifies |
| DateFormat.IsIntegerText | nodes/lib/dateTimeHelper.js:1146-1156 | true exactly when every character is a digit |
| DateFormat.DigitRunLongest | nodes/lib/dateTimeHelper.js:1166-1178 | the run returned is all digits, between the minimum and maximum length, and no longer all-digit run up to the maximum exists; nothing is returned only when no length qualifies |
| DateFormat.GetInt | nodes/lib/dateTimeHelper.js:1166-1178 | the loop returns the longest digit run the function specifies |
| DateFormat.YearOf | nodes/lib/dateTimeHelper.js:1248-1254 | a two-digit year lands in 1971..2070 with the same last two digits; other lengths keep their value |
| DateFormat.NumberField | nodes/lib/dateTimeHelper.js:1283-1331 | a numeric field is read exactly when a digit run exists and its value lies in the field's range |
| DateFormat.MonthNameStep | nodes/lib/dateTimeHelper.js:1255-1274 | a month name sets a month in 1..12 and marks the month as not read from digits |
| DateFormat.MeridiemStep | nodes/lib/dateTimeHelper.js:1344-1359 | an AM/PM marker advances the position and records the marker |
| DateFormat.LiteralStep | nodes/lib/dateTimeHelper.js:1360-1363 | literal format text must appear verbatim and is skipped |
| DateFormat.StepToken | nodes/lib/dateTimeHelper.js:1218-1369 | each token moves the position forward within the value and keeps the components in range |
| DateFormat.ParseFromKeepsValid | nodes/lib/dateTimeHelper.js:1218-1369 | the token loop keeps every date component within its range |
| DateFormat.MonthLengthError | nodes/lib/dateTimeHelper.js:1377-1392 | when the check applies, a day is rejected exactly when it exceeds the month's length (leap years included) |
| DateFormat.CorrectHour | nodes/lib/dateTimeHelper.js:1395-1399 | PM adds 12 to hours below 12, AM subtracts 12 from hours above 11, otherwise the hour stays |
| DateFormat.Finish | nodes/lib/dateTimeHelper.js:1372-1399 | trailing input fails; a parse succeeds only with no month-length error and with the hour corrected for the marker |
| DateFormat.ParseDateSound | nodes/lib/dateTimeHelper.js:1190-1411 | every successful parse has components in range and a day that exists in its month |
| DateFormat.ParseDateFromFormat | nodes/lib/dateTimeHelper.js:1190-1411 | the loop over format tokens returns what the corrected parse function specifies |
| DateFormat.AsWrittenAcceptsFebruary30 | nodes/lib/dateTimeHelper.js:1377 | as written, "02-30" with format "MM-dd" parses to 30 February |
| DateFormat.CorrectedRejectsFebruary30 | nodes/lib/dateTimeHelper.js:1377-1385 | the corrected parse rejects "02-30" with the February error |
| TopicReplace.TopicReplace | nodes/lib/dateTimeHelper.js:1616-1637 | an empty topic or missing attributes leave the topic unchanged |
| TopicReplace.TopicWithoutPlaceholders | nodes/lib/dateTimeHelper.js:1616-1637 | a topic without `$` is returned unchanged |
| TopicPlaceholders.EveryPlaceholder | nodes/lib/dateTimeHelper.js:1616-1637 | a topic of '$'-free texts and placeholders whose keys are not repetition counts (such as `1` or `1,3`) becomes the same texts with every placeholder replaced by its case-insensitively matched attribute's text, or by '' when it is missing or falsy, provided no replacement contains '$' |
| TopicPlaceholders.SinglePlaceholder | nodes/lib/dateTimeHelper.js:1616-1637 | one placeholder whose key is not a repetition count is replaced by the text of the attribute matched case-insensitively, or by nothing when it is missing or falsy |
| TopicReplace.LowerKeysLookup | nodes/lib/dateTimeHelper.js:1624-1627 | a lower-cased key is present exactly when some attribute lower-cases to it, and the last such attribute gives its value |
| TopicReplace.ReplaceAllSplit | nodes/lib/dateTimeHelper.js:1630-1633 | replacing every occurrence replaces the first one and continues after it |
| TopicReplace.TopicReplaceMethod | nodes/lib/dateTimeHelper.js:1616-1637 | the loop over placeholders returns what the function specifies |
| Override.Initial | nodes/blind-control.js:864-867 | the override starts inactive, with priority 0 and no deadline |
| Override.Reset | nodes/blind-control.js:277-294 | the override becomes inactive with priority 0 and no timer; the expiry is removed when set; the default expiry is kept |
| Override.ResetIdempotent | nodes/blind-control.js:277-294 | resetting twice is resetting once |
| Override.SetExpiring | nodes/blind-control.js:302-334 | the deadline is now + expiry exactly when the expiry (defaulting from NaN) is finite and positive, otherwise none; the timer runs to the deadline |
| Override.CheckOverrideReset | nodes/blind-control.js:342-357 | an expired override is reset; a reset flag with sufficient priority resets it; otherwise it is unchanged |
| Override.ResetIsQuiescent | nodes/blind-control.js:342-357 | after a reset, the reset check and the timer change nothing |
| Override.ReasonCode | nodes/blind-control.js:362-380 | code 3 exactly for an override with a deadline, code 2 otherwise |
| Override.ArmForNewLevel | nodes/blind-control.js:444-450 | an explicit expiry or a priority <= 0 arms with that expiry; a raised priority or no deadline drops the expiry; otherwise the deadline stays |
| Override.ExistingDeadlineKept | nodes/blind-control.js:444-450 | without an explicit expiry and without a raised priority, an existing deadline is kept |
| Override.Rearm | nodes/blind-control.js:406-418 | an active override without a new level holds, keeps its levels, and changes its deadline only for an explicit expiry |
| Override.Request | nodes/blind-control.js:419-455 | an invalid level leaves everything unchanged and answers false, and -1 or a valid level answers true; a level taken lies on the scale and on the grid unless rounding was asked for |
| Override.Decide | nodes/blind-control.js:397-462 | the check engages exactly when it sets a reason, leaves the levels alone when it does not, and takes only levels on the scale |
| Override.CheckBlindPosOverwrite | nodes/blind-control.js:388-463 | the same guarantees after the priority lookup and the reset check; the expiry fields stay consistent |
| Override.LowerPriorityRefused | nodes/blind-control.js:397-402 | a lower priority than an active positive one changes nothing and the override holds |
| Override.InvalidLevelFallsThrough | nodes/blind-control.js:424-427 | an invalid requested level (other than -1) answers false and keeps the levels and the override as the reset check left it, so the rules and the sun decide |
| Override.NewLevelTakesOver | nodes/blind-control.js:419-455 | a valid new level makes the override active with both levels at the (rounded) requested level and takes a positive priority |
| Override.Fire | nodes/blind-control.js:329-333 | a running timer resets the override and hands back the expiry trigger message; without a timer nothing happens |
| RuleEngine.Normalize | nodes/blind-control.js:1158-1167 | the rule gets position i + 1, its operators are numbers with NaN read as 0, a rule without time gets time operator -1, and the flags follow the configured types |
| RuleEngine.Indexing | nodes/blind-control.js:1152-1192 | lastUntil is the last "until" rule (or the last rule), firstFrom the first "from" rule (or the last rule), and each flag says whether such a rule exists |
| RuleEngine.IndexRules | nodes/blind-control.js:1152-1192 | the loop prepares the rules and their indexing as the functions specify |
| RuleEngine.ScanRules | nodes/blind-control.js:674-718 | the forward and backward loops compute the scan the function specifies |
| RuleEngine.ForwardFirstMatch | nodes/blind-control.js:674-694 | the forward pass selects the first selectable rule up to lastUntil, or none when none is |
| RuleEngine.BackwardLastMatch | nodes/blind-control.js:695-718 | the backward pass selects the last selectable rule that is not an "until" rule (a "from" rule or a rule without a time), or none when none is |
| RuleEngine.RuleSelection | nodes/blind-control.js:674-718 | the selected rule is the first forward match, or, failing that, the last backward match |
| RuleEngine.DefaultRule | nodes/blind-control.js:792-800 | the default level (code 1) applies exactly when no rule is selectable in either pass |
| RuleEngine.SelectedRuleDecides | nodes/blind-control.js:747-791 | code 4 exactly when a rule was selected, with its position as id; active, with the rule's level, exactly for an absolute rule (level operator 0) |
| RuleEngine.Apply | nodes/blind-control.js:681-692 | level operator 1 or 2 makes the rule the minimum or maximum, 3 or 4 clears it, and any other operator selects the rule |
| RuleEngine.ScanFold | nodes/blind-control.js:674-718 | the scan applies the effects of the rules it meets and finds qualifying, in scan order, up to the selected rule |
| RuleEngine.FoldLimit | nodes/blind-control.js:681-711 | after a run of rules, a limit is what the last rule that sets or clears it left: that rule when it sets it, none when it clears it |
| RuleEngine.FoldUntouched | nodes/blind-control.js:681-711 | a run of rules none of which sets or clears a limit leaves that limit as it was |
| RuleEngine.VisitsQualify | nodes/blind-control.js:674-718 | every rule the scan takes an effect from qualified in the pass (forward or backward) that met it |
| RuleEngine.LastLimitRuleDecides | nodes/blind-control.js:674-746 | the reported minimum (maximum) is decided by the last rule in scan order with level operator 1 or 3 (2 or 4): a setting rule gives its position and level, a clearing rule or none leaves no limit |
| RuleEngine.LimitsFromLimitRules | nodes/blind-control.js:719-746 | a minimum or maximum comes only from a matching rule with that operator, carrying its position and level |
| RuleEngine.CheckRules | nodes/blind-control.js:624-801 | the code is 1 or 4; code 1 means rule id -1, inactive and the default level; an inactive result keeps the default level |
| SunEngine.HeightLevel | nodes/blind-control.js:525-537 | the light below the window closes fully, reaching its top opens fully, in between the same fraction of the scale, always on the scale |
| SunEngine.HeightLevelMonotone | nodes/blind-control.js:525-537 | light reaching higher never closes the blind further |
| SunEngine.Hysteresis | nodes/blind-control.js:541-560 | inside the smoothing window the previous levels stay (11); a small change off the scale's ends stays (14); otherwise the new level stands (9) and the window restarts |
| SunEngine.ClampMinMax | nodes/blind-control.js:561-577 | a level below the minimum becomes the minimum (5), above the maximum the maximum (6), otherwise unchanged |
| SunEngine.CalcBlindSunPosition | nodes/blind-control.js:472-580 | outside the window winter closes to the minimum (13) and other modes keep the level (8); the codes are those of the source, and the low-altitude and outside-window codes keep the level |
| SunEngine.GeometryWithinLimits | nodes/blind-control.js:525-577 | on the geometry path an unclamped level respects the minimum and maximum, and the clamp codes give exactly the limit |
| Controller.ModeAfter | nodes/blind-control.js:997-1001 | the mode changes only to a finite number found in the message between 0 and the configured mode |
| Controller.ScaleClamp | nodes/blind-control.js:1028-1037 | a level below the bottom becomes the bottom and one above the top the top; levels on the scale and NaN are kept |
| Controller.RuleLimits | nodes/blind-control.js:1013-1027 | the rules' minimum raises a lower level (15), else their maximum lowers a higher one (26) |
| Controller.Automatic | nodes/blind-control.js:1005-1038 | without an override the level is NaN or on the scale, the rule id is the one the rules report, and the code is a rule, limit or sun code |
| Controller.Emit | nodes/blind-control.js:1055-1095 | the level is sent exactly when it is a number and it, the code or the rule id changed; it is sent in the configured orientation; the status goes out with two outputs |
| Controller.Step | nodes/blind-control.js:964-1110 | an unconfigured node changes nothing and sends nothing; otherwise the previous levels and code are remembered and a rule id is recorded |
| Controller.OverrideTakesPrecedence | nodes/blind-control.js:996-1005 | an engaged override sets the levels, code 2 or 3 and rule id -1, and leaves the smoothing window alone |
| Controller.AutomaticLevelOnScale | nodes/blind-control.js:1005-1038 | without an override the new level is NaN or on the scale |
| Controller.SameResultIsNotResent | nodes/blind-control.js:1081-1084 | an unchanged level, code and rule id send nothing on the first output |
| BlindControl.BlindControlNode.constructor | nodes/blind-control.js:808-871 | the scale is ordered, the rules prepared, sun control on exactly for a positive mode, a too-long smoothing time dropped, every other setting stored as given, and the state starts empty |
| BlindControl.BlindControlNode.ResetOverride | nodes/blind-control.js:277-294 | the override field becomes the reset override |
| BlindControl.BlindControlNode.SetExpiringOverwrite | nodes/blind-control.js:302-334 | the override field becomes the re-armed override |
| BlindControl.BlindControlNode.CheckOverrideReset | nodes/blind-control.js:342-357 | the override field becomes what the reset check gives |
| BlindControl.BlindControlNode.SetOverwriteReason | nodes/blind-control.js:362-380 | the reason code becomes 3 or 2 as the override has a deadline |
| BlindControl.BlindControlNode.RequestLevel | nodes/blind-control.js:419-455 | override, levels, reason and answer for a requested level are those the request function specifies |
| BlindControl.BlindControlNode.TakeLevel | nodes/blind-control.js:434-455 | a valid level is held as it is with `ignoreSameValue` and the same previous level, and otherwise taken over and the override engaged, as the level function specifies |
| BlindControl.BlindControlNode.CheckBlindPosOverwrite | nodes/blind-control.js:388-463 | override, levels, reason and answer are those the override function specifies |
| BlindControl.BlindControlNode.CheckRules | nodes/blind-control.js:624-801 | the answer is the rule function's; the levels and code are set from it |
| BlindControl.BlindControlNode.CalcBlindSunPosition | nodes/blind-control.js:472-580 | levels, code and smoothing window are those the sun function specifies |
| BlindControl.BlindControlNode.SetMode | nodes/blind-control.js:998-1001 | the mode becomes what the mode function allows for the message |
| BlindControl.BlindControlNode.Decide | nodes/blind-control.js:1002-1038 | levels, code, smoothing window and rule id are the override's when it holds, else the automatic decision's |
| BlindControl.BlindControlNode.Input | nodes/blind-control.js:964-1110 | the new state and what is sent are those the handler function specifies |
| BlindControl.BlindControlNode.Fire | nodes/blind-control.js:329-333 | the override and the trigger message are those the timer function specifies |

## Left out

- Floating point: levels are exact reals. `toFixed`/`countDecimals` in rounding and in the
  increment check are taken as exact, so a multiple of the increment is exact too.
- PositionMath.ValidPosition: the empty-string and non-numeric cases of a level appear
  only as NaN (`None`), since levels reach the model as numbers.
- Warnings, node status, the status output's payload, localisation and the caches are
  left out; they do not affect levels or codes.
- `getNow_` is left out. The current time is an input of every event.
- The sun's position (`getSunPosition_`, the ephemeris and `tan`) is not part of this
  model. Whether the sun stands in the window, its altitude and the height its light
  reaches arrive as inputs.
- The oversteer comparisons (`checkOversteer`) are left out. They arrive as the level
  of the first entry that applies.
- `prepareRules`, rule conditions and rule times (`comparePropValue`, `getTimeProp`)
  are not part of this model. Each rule arrives as whether its condition holds and its
  time or time error.
- A rule whose time lookup throws is not modelled. Only the error result is.
- `getBlindPosFromTI` is left out. Typed-input levels (default, minimum, maximum,
  rule levels) arrive resolved.
- The override timer is a deadline. `Fire` resets the override and returns the
  trigger message. The re-evaluation with that message is a separate `Input` event.
- Concurrency and Node-RED's scheduling are left out.
- The handler's second oversteer pass is left out. It only stores values for display
  (`tempData`) and does not affect levels or codes.
- The output topic built by `topicReplace` in the handler and the status message's
  fields are left out. The handler model records only whether each output is sent and
  the level sent.
- The node's configuration reading (`Number(...)`, `parseFloat`) is left out.
  - The constructor takes the numbers already parsed.
  - The increment must be positive. A zero increment makes the source divide by
    zero. A negative one is accepted by the source and rounds halves downward (2.5
    with increment -1 gives 2). Neither is modelled.
  - The window top and bottom are taken as finite numbers.
  - The smoothing time arrives after `|| 0`.
- `sunData.active` is fixed at construction. A mode change from a message does not
  update it, as in the source.
- Date handling left out:
  - the `Date` object, time zones and UTC selection;
  - the final `Date.UTC`/`new Date` construction in `_getDateFromFormat` (the model
    returns the parsed components);
  - the other date parsers and formatters of the helper file.
- DateTimeHelper.CheckLimits: two text limits are compared character by character
  as Unicode scalar values, where JavaScript compares UTF-16 code units. The orders
  differ only for characters beyond U+FFFF.
- `Lower` maps ASCII letters only. Unicode case mapping is not modelled.
- TopicReplace.TopicReplace:
  - a replacement text that itself holds `${key}` is replaced again by a later key;
    the model does this as the source does, but `EveryPlaceholder` states the result
    only for replacements without `$`;
  - keys are used literally, so regular-expression metacharacters in a key and `$`
    patterns in a replacement are not modelled;
  - prototype property names are not treated specially;
  - a key of digits with at most one comma (`${1}`, `${2,}`, `${1,3}`) makes the
    source's pattern a repetition count on `$`, so the source replaces only the `$`
    and leaves `{1}` in the topic; the model replaces the whole placeholder, and
    `PlainKey` keeps such keys out of `SinglePlaceholder` and `EveryPlaceholder`;
  - `null` attributes pass the source's object test and then make `Object.keys`
    throw; the model has no such value (`None` is any non-object argument).
- DateTimeHelper.Pad: lengths count Unicode scalar values, where `val.length` counts
  UTF-16 code units; text with characters beyond U+FFFF is padded less than the
  source pads it.
- DateTimeHelper.ClipStrLength: the length test and the cut count Unicode scalar
  values, where `v.length` and `slice` count UTF-16 code units; text with characters
  beyond U+FFFF may be kept whole where the source clips it, and the source's cut
  can split a surrogate pair, which the model cannot express.
- DateTimeHelper.Pad2: only integers are modelled (the source's `+ n` on other
  numbers is not).
- DateFormat.GetInt: requires the start index within the text, which the parser
  guarantees.
- `checkBlindPosOverwrite` behaves differently from its description in one case, and
  the model follows the code. An invalid requested level makes it return false, so
  the event falls through to the rules and the sun instead of being abandoned.
- `validPosition_` also differs, and the model follows the code. `allowRound` does not
  bypass the increment check when top, bottom and increment are all integers.
- RuleEngine.CheckRules: without a selected rule the result carries the default level,
  where the source leaves the result's level unset. The node's working level is the
  default in both.
- The rules' `firstFrom` index is computed (`RuleEngine.Indexing`) but unused by
  `checkRules`, as in the source.

## Findings

| source | as written | input that shows it | evidently intended | confidence | as-written member | corrected member |
|---|---|---|---|---|---|---|
| nodes/lib/dateTimeHelper.js:1377-1392 | the month-length checks compare `month === 2` (and 4, 6, 9, 11) strictly, but a month read by `_getInt` from digits is a string, so the checks never fire for numeric months | value "02-30" with format "MM-dd" parses as 30 February | reject days beyond the month's length whatever the month token | not executed | DateFormat.AsWrittenAcceptsFebruary30 | DateFormat.ParseDateSound |
