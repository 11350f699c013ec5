/**
 * The format-token date parser of the helper library, up to the parsed date
 * components: the digit-run extractor, the tokenizer over the format, the
 * per-token field rules, the trailing-input, month-length and AM/PM checks.
 */
module DateFormat {
  import opened Wrappers
  import opened JsValues
  import opened Decimal

  /** `_isInteger`: scan the text and fail at the first character that is not a digit. */
  method IsIntegerText(val: string) returns (r: bool)
    ensures r <==> AllDigits(val)
  {
    var i := 0;
    while i < |val|
      invariant 0 <= i <= |val|
      invariant AllDigits(val[..i])
    {
      if !IsDigit(val[i]) {
        return false;
      }
      i := i + 1;
    }
    assert val[..i] == val;
    return true;
  }

  /** JavaScript `s.substr(i, n)`: at most `n` characters from position `i`. */
  function Substr(s: string, i: nat, n: int): (r: string)
    ensures |r| <= |s| && (n <= 0 ==> r == [])
    ensures i <= |s| ==> i + |r| <= |s|
    ensures i + n <= |s| && n >= 0 ==> r == s[i..i + n]
    ensures i <= |s| && i + n > |s| ==> r == s[i..]
  {
    if i >= |s| || n <= 0 then []
    else if i + n > |s| then s[i..]
    else s[i..i + n]
  }

  /**
   * The digit run `_getInt` picks when trying the lengths from `x` down to `lo`:
   * the first candidate that is all digits, giving up once the text left is shorter
   * than `lo`.
   */
  function DigitRun(s: string, i: nat, lo: nat, x: int): (r: Option<string>)
    ensures r.Some? ==> AllDigits(r.value) && lo <= |r.value| <= x && r.value == Substr(s, i, |r.value|)
    decreases x - lo
  {
    if x < lo then None
    else
      var t := Substr(s, i, x);
      if |t| < lo then None
      else if AllDigits(t) then Some(t)
      else DigitRun(s, i, lo, x - 1)
  }

  /**
   * The digit run is the longest all-digit text at position `i` with a length between
   * `lo` and `hi`; there is none exactly when no such length exists.
   */
  lemma {:induction false} DigitRunLongest(s: string, i: nat, lo: nat, hi: int)
    requires i <= |s|
    ensures var r := DigitRun(s, i, lo, hi);
      (r.Some? ==> lo <= |r.value| <= hi && AllDigits(r.value) && r.value == Substr(s, i, |r.value|)
                   && forall k :: |r.value| < k <= hi && i + k <= |s| ==> !AllDigits(Substr(s, i, k)))
      && (r.None? ==> forall k :: lo <= k <= hi && i + k <= |s| ==> !AllDigits(Substr(s, i, k)))
    decreases hi - lo
  {
    if hi >= lo {
      var t := Substr(s, i, hi);
      if |t| < lo {
        assert i + lo > |s|;
      } else if !AllDigits(t) {
        DigitRunLongest(s, i, lo, hi - 1);
      }
    }
  }

  /** `_getInt`: try the lengths from `maxlength` down to `minlength` for an all-digit token. */
  method GetInt(str: string, i: nat, minlength: nat, maxlength: int) returns (r: Option<string>)
    requires i <= |str|
    ensures r == DigitRun(str, i, minlength, maxlength)
  {
    var x := maxlength;
    while x >= minlength
      invariant x < minlength ==> DigitRun(str, i, minlength, x) == None
      invariant DigitRun(str, i, minlength, maxlength) == DigitRun(str, i, minlength, x)
      decreases x - minlength
    {
      var token := Substr(str, i, x);
      if |token| < minlength {
        return None;
      }
      var digits := IsIntegerText(token);
      if digits {
        return Some(token);
      }
      x := x - 1;
    }
    return None;
  }

  /** The date components the parser produces, before any `Date` object is built. */
  datatype DateParts = DateParts(year: int, month: int, day: int, hour: int, minute: int, second: int, millisecond: int)

  /** The AM/PM marker read so far. */
  datatype Meridiem = NoMarker | AM | PM

  /**
   * The parser's position in the value, the components read so far, whether the month
   * is still the digit text `_getInt` returned (JavaScript then holds it as a string),
   * and the AM/PM marker.
   */
  datatype Cursor = Cursor(pos: nat, parts: DateParts, monthFromDigits: bool, meridiem: Meridiem)

  /** Why a value does not match its format. */
  datatype ParseError =
    | InvalidYear | InvalidMonth | InvalidDay | InvalidHour | InvalidMinute | InvalidSecond
    | InvalidMillisecond | InvalidAmPm | LiteralMismatch | TrailingInput
    | FebruaryLeapYear | February | ThirtyDayMonth

  /** The outcome of one format token. */
  datatype Step = Next(cur: Cursor) | Fail(error: ParseError)

  /** The outcome of parsing a whole value. */
  datatype ParseResult = Parsed(parts: DateParts) | Failed(error: ParseError)

  /** The localised month and day names the name tokens match against. */
  datatype Names = Names(monthNames: seq<string>, dayNames: seq<string>)

  /** Every component in its calendar range (the day only up to 31). */
  predicate ValidParts(p: DateParts)
  {
    1 <= p.month <= 12 && 1 <= p.day <= 31 && 0 <= p.hour <= 23 && 0 <= p.minute <= 59
    && 0 <= p.second <= 59 && 0 <= p.millisecond <= 999
  }

  /** A Gregorian leap year: divisible by 4 but not by 100, or divisible by 400. */
  predicate LeapYear(y: int)
  {
    (y % 4 == 0 && y % 100 != 0) || y % 400 == 0
  }

  /** The number of days of a month 1..12 in a year. */
  function DaysInMonth(year: int, month: int): (r: int)
    requires 1 <= month <= 12
    ensures 28 <= r <= 31
  {
    if month == 2 then (if LeapYear(year) then 29 else 28)
    else if month == 4 || month == 6 || month == 9 || month == 11 then 30
    else 31
  }

  /** The end of the run of `c` characters in the format from `j` on. */
  function RunEnd(f: string, j: nat, c: char): (r: nat)
    requires j <= |f|
    ensures j <= r <= |f| && (r == |f| || f[r] != c)
    ensures forall k :: j <= k < r ==> f[k] == c
    decreases |f| - j
  {
    if j < |f| && f[j] == c then RunEnd(f, j + 1, c) else j
  }

  /**
   * The year a year token's digits stand for: two digits above 70 are 19xx, other two
   * digit years 20xx, and longer runs are taken as they are.
   */
  function YearOf(t: string): (r: int)
    requires AllDigits(t)
    ensures |t| == 2 ==> 1971 <= r <= 2070 && r % 100 == DigitsValue(t)
    ensures |t| != 2 ==> r == DigitsValue(t)
  {
    if |t| == 2 then
      TwoDigitBound(t);
      if DigitsValue(t) > 70 then 1900 + DigitsValue(t) else 2000 + DigitsValue(t)
    else DigitsValue(t)
  }

  /** Two digits stand for a number below 100. */
  lemma TwoDigitBound(t: string)
    requires AllDigits(t) && |t| == 2
    ensures DigitsValue(t) <= 99
  {
    assert AllDigits(t[..1]);
    assert DigitsValue(t[..1]) <= 9 by {
      assert t[..1][..0] == [];
    }
  }

  /**
   * A numeric field: the digit run at the cursor (at least `minLen`, at most `maxLen`
   * digits) and its value, when the value lies in [lo, hi].
   */
  function NumberField(val: string, pos: nat, minLen: nat, maxLen: int, lo: int, hi: int): (r: Option<(int, nat)>)
    requires pos <= |val|
    ensures r.Some? <==> (DigitRun(val, pos, minLen, maxLen).Some?
      && lo <= DigitsValue(DigitRun(val, pos, minLen, maxLen).value) <= hi)
    ensures r.Some? ==> (r.value.0 == DigitsValue(DigitRun(val, pos, minLen, maxLen).value)
      && lo <= r.value.0 <= hi && pos + r.value.1 <= |val| && r.value.1 >= minLen)
  {
    match DigitRun(val, pos, minLen, maxLen)
    case None => None
    case Some(t) => if lo <= DigitsValue(t) <= hi then Some((DigitsValue(t), |t|)) else None
  }

  /** The first month name from index `i` on that the value continues with and that the token may use. */
  function MonthNameMatch(val: string, pos: nat, names: seq<string>, anyIndex: bool, i: nat): (r: Option<nat>)
    ensures r.Some? ==> (i <= r.value < |names| && (anyIndex || r.value > 11)
      && Lower(Substr(val, pos, |names[r.value]|)) == Lower(names[r.value]))
    decreases |names| - i
  {
    if i >= |names| then None
    else if Lower(Substr(val, pos, |names[i]|)) == Lower(names[i]) && (anyIndex || i > 11) then Some(i)
    else MonthNameMatch(val, pos, names, anyIndex, i + 1)
  }

  /** The first day name from index `i` on that the value continues with. */
  function DayNameMatch(val: string, pos: nat, names: seq<string>, i: nat): (r: Option<nat>)
    ensures r.Some? ==> i <= r.value < |names| && Lower(Substr(val, pos, |names[r.value]|)) == Lower(names[r.value])
    decreases |names| - i
  {
    if i >= |names| then None
    else if Lower(Substr(val, pos, |names[i]|)) == Lower(names[i]) then Some(i)
    else DayNameMatch(val, pos, names, i + 1)
  }

  /** A value that continues with a name has at least the name's length left. */
  lemma NameFits(val: string, pos: nat, name: string)
    requires pos <= |val| && Lower(Substr(val, pos, |name|)) == Lower(name)
    ensures pos + |name| <= |val|
  {
    assert |Lower(Substr(val, pos, |name|))| == |name|;
  }

  /** The component a numeric token sets, with the range the source allows for it. */
  datatype Field =
    | MonthField      // "MM", "M": 1..12
    | DayField        // "dd", "d": 1..31
    | Hour12Field     // "hh", "h": 1..12
    | Hour23Field     // "HH", "H": 0..23
    | Hour11Field     // "kk", "k": 0..11
    | Hour24Field     // "KK", "K": 1..24, stored one lower
    | MinuteField     // "mm", "m": 0..59
    | SecondField     // "ss", "s": 0..59

  /** What a format token does. */
  datatype TokenKind =
    | YearToken(minLen: nat, maxLen: nat)
    | MonthNameToken(anyIndex: bool)
    | DayNameToken
    | NumberToken(field: Field)
    | MilliToken
    | MeridiemToken
    | LiteralToken

  /** The source's chain of token tests, in its order. */
  function Classify(token: string): TokenKind
  {
    if token == "yyyy" then YearToken(4, 4)
    else if token == "yy" then YearToken(2, 2)
    else if token == "y" then YearToken(2, 4)
    else if token == "MMM" then MonthNameToken(true)
    else if token == "NNN" || token == "MMMM" then MonthNameToken(false)
    else if token == "EE" || token == "E" || token == "dddd" || token == "ddd" then DayNameToken
    else if token == "MM" || token == "M" then NumberToken(MonthField)
    else if token == "dd" || token == "d" then NumberToken(DayField)
    else if token == "hh" || token == "h" then NumberToken(Hour12Field)
    else if token == "HH" || token == "H" then NumberToken(Hour23Field)
    else if token == "kk" || token == "k" then NumberToken(Hour11Field)
    else if token == "KK" || token == "K" then NumberToken(Hour24Field)
    else if token == "mm" || token == "m" then NumberToken(MinuteField)
    else if token == "ss" || token == "s" then NumberToken(SecondField)
    else if Lower(token) == "lll" || Lower(token) == "ll" || Lower(token) == "l" then MilliToken
    else if Lower(token) == "tt" || Lower(token) == "t" then MeridiemToken
    else LiteralToken
  }

  /** The smallest and largest value a numeric field accepts. */
  function FieldRange(field: Field): (int, int)
  {
    match field
    case MonthField => (1, 12)
    case DayField => (1, 31)
    case Hour12Field => (1, 12)
    case Hour23Field => (0, 23)
    case Hour11Field => (0, 11)
    case Hour24Field => (1, 24)
    case MinuteField => (0, 59)
    case SecondField => (0, 59)
  }

  /** The error a numeric field reports for a missing or out-of-range value. */
  function FieldError(field: Field): ParseError
  {
    match field
    case MonthField => InvalidMonth
    case DayField => InvalidDay
    case MinuteField => InvalidMinute
    case SecondField => InvalidSecond
    case _ => InvalidHour
  }

  /** Storing the value of a numeric field; the 1..24 hour is stored one lower. */
  function SetField(p: DateParts, field: Field, n: int): DateParts
  {
    match field
    case MonthField => p.(month := n)
    case DayField => p.(day := n)
    case Hour24Field => p.(hour := n - 1)
    case MinuteField => p.(minute := n)
    case SecondField => p.(second := n)
    case _ => p.(hour := n)
  }

  /** A year token: a digit run of the token's lengths, two-digit years completed to 19xx or 20xx. */
  function YearStep(val: string, cur: Cursor, minLen: nat, maxLen: nat): (r: Step)
    requires cur.pos <= |val|
    ensures r.Next? ==> cur.pos <= r.cur.pos <= |val| && r.cur.parts == cur.parts.(year := r.cur.parts.year)
    ensures r.Next? ==> r.cur.meridiem == cur.meridiem && r.cur.monthFromDigits == cur.monthFromDigits
    ensures r.Fail? <==> DigitRun(val, cur.pos, minLen, maxLen).None?
  {
    match DigitRun(val, cur.pos, minLen, maxLen)
    case None => Fail(InvalidYear)
    case Some(t) => Next(cur.(pos := cur.pos + |t|, parts := cur.parts.(year := YearOf(t))))
  }

  /**
   * A month-name token: the first matching name the token may use ("MMM" any of them,
   * "NNN" and "MMMM" only those after the twelfth); its position, counted modulo 12,
   * is the month, and no match or a position past 24 is an error.
   */
  function MonthNameStep(val: string, cur: Cursor, names: seq<string>, anyIndex: bool): (r: Step)
    requires cur.pos <= |val|
    ensures r.Next? ==> cur.pos <= r.cur.pos <= |val| && 1 <= r.cur.parts.month <= 12
    ensures r.Next? ==> r.cur.parts == cur.parts.(month := r.cur.parts.month) && !r.cur.monthFromDigits
    ensures r.Next? ==> r.cur.meridiem == cur.meridiem
  {
    match MonthNameMatch(val, cur.pos, names, anyIndex, 0)
    case None => Fail(InvalidMonth)
    case Some(i) =>
      var m := if i + 1 > 12 then i + 1 - 12 else i + 1;
      if m < 1 || m > 12 then Fail(InvalidMonth)
      else
        NameFits(val, cur.pos, names[i]);
        Next(cur.(pos := cur.pos + |names[i]|, parts := cur.parts.(month := m), monthFromDigits := false))
  }

  /** A day-name token: a matching day name is skipped; without one nothing happens. */
  function DayNameStep(val: string, cur: Cursor, names: seq<string>): (r: Step)
    requires cur.pos <= |val|
    ensures r.Next? && r.cur.pos <= |val| && r.cur == cur.(pos := r.cur.pos) && cur.pos <= r.cur.pos
  {
    match DayNameMatch(val, cur.pos, names, 0)
    case None => Next(cur)
    case Some(i) =>
      NameFits(val, cur.pos, names[i]);
      Next(cur.(pos := cur.pos + |names[i]|))
  }

  /**
   * A numeric token: one or two digits (at least as many as the token has letters)
   * whose value must lie in the field's range.
   */
  function NumberStep(val: string, cur: Cursor, tokenLen: nat, field: Field): (r: Step)
    requires cur.pos <= |val|
    ensures r.Next? ==> cur.pos < r.cur.pos <= |val| || (tokenLen == 0 && cur.pos <= r.cur.pos <= |val|)
    ensures r.Next? && ValidParts(cur.parts) ==> ValidParts(r.cur.parts)
    ensures r.Next? ==> r.cur.meridiem == cur.meridiem
    ensures r.Next? ==> r.cur.monthFromDigits == (field == MonthField || cur.monthFromDigits)
  {
    var (lo, hi) := FieldRange(field);
    match NumberField(val, cur.pos, tokenLen, 2, lo, hi)
    case None => Fail(FieldError(field))
    case Some((n, len)) =>
      Next(cur.(pos := cur.pos + len, parts := SetField(cur.parts, field, n),
                monthFromDigits := field == MonthField || cur.monthFromDigits))
  }

  /**
   * A millisecond token: up to three digits; with "L" a value below 10 is read as
   * hundreds and with "LL" a value below 100 as tens.
   */
  function MilliStep(val: string, cur: Cursor, token: string): (r: Step)
    requires cur.pos <= |val|
    ensures r.Next? ==> cur.pos <= r.cur.pos <= |val| && 0 <= r.cur.parts.millisecond <= 999
    ensures r.Next? ==> r.cur.parts == cur.parts.(millisecond := r.cur.parts.millisecond)
    ensures r.Next? ==> r.cur.meridiem == cur.meridiem && r.cur.monthFromDigits == cur.monthFromDigits
  {
    match NumberField(val, cur.pos, |token|, 3, 0, 999)
    case None => Fail(InvalidMillisecond)
    case Some((n, len)) =>
      var ms := if token == "L" && n < 10 then n * 100 else if token == "LL" && n < 100 then n * 10 else n;
      Next(cur.(pos := cur.pos + len, parts := cur.parts.(millisecond := ms)))
  }

  /** An AM/PM token: "am", "pm", "a" or "p" in any case, tried in that order. */
  function MeridiemStep(val: string, cur: Cursor): (r: Step)
    requires cur.pos <= |val|
    ensures r.Next? ==> cur.pos < r.cur.pos <= |val| && r.cur == cur.(pos := r.cur.pos, meridiem := r.cur.meridiem)
    ensures r.Next? ==> r.cur.meridiem != NoMarker
  {
    if Lower(Substr(val, cur.pos, 2)) == "am" then Next(cur.(pos := cur.pos + 2, meridiem := AM))
    else if Lower(Substr(val, cur.pos, 2)) == "pm" then Next(cur.(pos := cur.pos + 2, meridiem := PM))
    else if Lower(Substr(val, cur.pos, 1)) == "a" then Next(cur.(pos := cur.pos + 1, meridiem := AM))
    else if Lower(Substr(val, cur.pos, 1)) == "p" then Next(cur.(pos := cur.pos + 1, meridiem := PM))
    else Fail(InvalidAmPm)
  }

  /** Any other token is literal text the value must continue with. */
  function LiteralStep(val: string, cur: Cursor, token: string): (r: Step)
    requires cur.pos <= |val|
    ensures r.Next? <==> Substr(val, cur.pos, |token|) == token
    ensures r.Next? ==> r.cur == cur.(pos := cur.pos + |token|) && r.cur.pos <= |val|
  {
    if Substr(val, cur.pos, |token|) != token then Fail(LiteralMismatch)
    else Next(cur.(pos := cur.pos + |token|))
  }

  /** One format token applied at the cursor. */
  function StepToken(val: string, token: string, cur: Cursor, names: Names): (r: Step)
    requires cur.pos <= |val|
    ensures r.Next? ==> cur.pos <= r.cur.pos <= |val|
    ensures r.Next? && ValidParts(cur.parts) ==> ValidParts(r.cur.parts)
  {
    match Classify(token)
    case YearToken(lo, hi) => YearStep(val, cur, lo, hi)
    case MonthNameToken(anyIndex) => MonthNameStep(val, cur, names.monthNames, anyIndex)
    case DayNameToken => DayNameStep(val, cur, names.dayNames)
    case NumberToken(field) => NumberStep(val, cur, |token|, field)
    case MilliToken => MilliStep(val, cur, token)
    case MeridiemToken => MeridiemStep(val, cur)
    case LiteralToken => LiteralStep(val, cur, token)
  }

  /** The tokens of the format from position `i` on, applied one after the other until one fails. */
  function ParseFrom(val: string, f: string, i: nat, cur: Cursor, names: Names): (r: Step)
    requires i <= |f| && cur.pos <= |val|
    ensures r.Next? ==> r.cur.pos <= |val|
    decreases |f| - i
  {
    if i == |f| then Next(cur)
    else
      var j := RunEnd(f, i, f[i]);
      match StepToken(val, f[i..j], cur, names)
      case Fail(e) => Fail(e)
      case Next(c) => ParseFrom(val, f, j, c, names)
  }

  /** A format starting with "UTC:" or "utc:" is read without that prefix. */
  function FormatBody(format: string): (r: string)
    ensures r == format || (|format| >= 4 && r == format[4..])
  {
    if |format| >= 4 && (format[..4] == "UTC:" || format[..4] == "utc:") then format[4..] else format
  }

  /** `s.replace(pat, '')` with a text pattern: the first occurrence is removed. */
  function RemoveFirst(s: string, pat: string): (r: string)
    requires pat != []
    ensures !Includes(s, pat) ==> r == s
    ensures Includes(s, pat) ==> |r| == |s| - |pat|
  {
    if pat <= s then s[|pat|..]
    else if s == [] then []
    else [s[0]] + RemoveFirst(s[1..], pat)
  }

  /** A value mentioning "UTC" or "utc" is read with the first of each removed. */
  function ValueBody(val: string): string
  {
    if Includes(val, "UTC") || Includes(val, "utc") then RemoveFirst(RemoveFirst(val, "UTC"), "utc") else val
  }

  /**
   * The day-of-month check for February (29 days in a leap year, 28 otherwise) and for
   * April, June, September and November (30 days), when it `applies`.
   */
  function MonthLengthError(p: DateParts, applies: bool): (r: Option<ParseError>)
    ensures applies && 1 <= p.month <= 12 && p.day <= 31 ==> (r.None? <==> p.day <= DaysInMonth(p.year, p.month))
    ensures !applies ==> r.None?
  {
    if applies && p.month == 2 then
      if LeapYear(p.year) then (if p.day > 29 then Some(FebruaryLeapYear) else None)
      else if p.day > 28 then Some(February) else None
    else if applies && (p.month == 4 || p.month == 6 || p.month == 9 || p.month == 11) && p.day > 30 then Some(ThirtyDayMonth)
    else None
  }

  /**
   * The AM/PM correction: PM moves an hour below 12 into the afternoon, AM moves an
   * hour above 11 back into the morning, anything else is left alone.
   */
  function CorrectHour(hour: int, m: Meridiem): (r: int)
    ensures m == PM && hour < 12 ==> r == hour + 12
    ensures m == AM && hour > 11 ==> r == hour - 12
    ensures (m == NoMarker || (m == PM && hour >= 12) || (m == AM && hour <= 11)) ==> r == hour
  {
    if hour < 12 && m == PM then hour + 12
    else if hour > 11 && m == AM then hour - 12
    else hour
  }

  /**
   * The end of the parse: the whole value must have been read, the day must fit the
   * month (where the check `applies`), and the AM/PM correction is made.
   */
  function Finish(val: string, cur: Cursor, applies: bool): (r: ParseResult)
    ensures r.Parsed? ==> cur.pos == |val| && MonthLengthError(cur.parts, applies).None?
    ensures r.Parsed? ==> r.parts == cur.parts.(hour := CorrectHour(cur.parts.hour, cur.meridiem))
    ensures cur.pos != |val| ==> r == Failed(TrailingInput)
  {
    if cur.pos != |val| then Failed(TrailingInput)
    else match MonthLengthError(cur.parts, applies)
      case Some(e) => Failed(e)
      case None => Parsed(cur.parts.(hour := CorrectHour(cur.parts.hour, cur.meridiem)))
  }

  /** The cursor the parse starts from: the beginning of the value and the defaults taken from "now". */
  function Start(now: DateParts): Cursor
  {
    Cursor(0, now, false, NoMarker)
  }

  /**
   * `_getDateFromFormat` up to the date components, as written: the month-length check
   * compares the month with `===` and so is skipped for a month read from digits.
   */
  function ParseDateAsWritten(val: string, format: string, now: DateParts, names: Names): ParseResult
  {
    var v, f := ValueBody(val), FormatBody(format);
    match ParseFrom(v, f, 0, Start(now), names)
    case Fail(e) => Failed(e)
    case Next(cur) => Finish(v, cur, !cur.monthFromDigits)
  }

  /** `_getDateFromFormat` up to the date components, with the month-length check applied to every month. */
  function ParseDate(val: string, format: string, now: DateParts, names: Names): ParseResult
  {
    var v, f := ValueBody(val), FormatBody(format);
    match ParseFrom(v, f, 0, Start(now), names)
    case Fail(e) => Failed(e)
    case Next(cur) => Finish(v, cur, true)
  }

  /** The inner loop of the tokenizer: collect the run of equal characters starting at `i`. */
  method NextToken(f: string, i: nat) returns (token: string, j: nat)
    requires i < |f|
    ensures j == RunEnd(f, i, f[i]) && token == f[i..j] && i < j
  {
    var c := f[i];
    token := "";
    j := i;
    while j < |f| && f[j] == c
      invariant i <= j <= |f| && token == f[i..j]
      invariant RunEnd(f, j, c) == RunEnd(f, i, c)
      invariant j == i ==> f[j] == c
      decreases |f| - j
    {
      token := token + [f[j]];
      j := j + 1;
    }
  }

  /** The end checks of the parse, as statements: trailing input, month length, AM/PM. */
  method FinishParse(v: string, cur: Cursor) returns (r: ParseResult)
    ensures r == Finish(v, cur, true)
  {
    var parts := cur.parts;
    if cur.pos != |v| {
      return Failed(TrailingInput);
    }
    if parts.month == 2 {
      if LeapYear(parts.year) {
        if parts.day > 29 {
          return Failed(FebruaryLeapYear);
        }
      } else if parts.day > 28 {
        return Failed(February);
      }
    }
    if (parts.month == 4 || parts.month == 6 || parts.month == 9 || parts.month == 11) && parts.day > 30 {
      return Failed(ThirtyDayMonth);
    }
    var hour := parts.hour;
    if hour < 12 && cur.meridiem == PM {
      hour := hour + 12;
    } else if hour > 11 && cur.meridiem == AM {
      hour := hour - 12;
    }
    return Parsed(parts.(hour := hour));
  }

  /**
   * `_getDateFromFormat` up to the date components: the cursor loop over the format
   * applies each token to the value, then the end checks follow.
   */
  method ParseDateFromFormat(val: string, format: string, now: DateParts, names: Names) returns (r: ParseResult)
    ensures r == ParseDate(val, format, now, names)
  {
    var v := ValueBody(val);
    var f := FormatBody(format);
    var iFormat: nat := 0;
    var cur := Start(now);
    while iFormat < |f|
      invariant iFormat <= |f| && cur.pos <= |v|
      invariant ParseFrom(v, f, iFormat, cur, names) == ParseFrom(v, f, 0, Start(now), names)
      decreases |f| - iFormat
    {
      var token;
      token, iFormat := NextToken(f, iFormat);
      match StepToken(v, token, cur, names)
      case Fail(e) =>
        return Failed(e);
      case Next(c) =>
        cur := c;
    }
    r := FinishParse(v, cur);
  }

  /** Parsing the rest of the format keeps the components in their calendar ranges. */
  lemma {:induction false} ParseFromKeepsValid(val: string, f: string, i: nat, cur: Cursor, names: Names)
    requires i <= |f| && cur.pos <= |val| && ValidParts(cur.parts)
    ensures ParseFrom(val, f, i, cur, names).Next? ==> ValidParts(ParseFrom(val, f, i, cur, names).cur.parts)
    decreases |f| - i
  {
    if i < |f| {
      var j := RunEnd(f, i, f[i]);
      match StepToken(val, f[i..j], cur, names)
      case Fail(_) =>
      case Next(c) => ParseFromKeepsValid(val, f, j, c, names);
    }
  }

  /**
   * A successful parse, starting from a valid "now", yields components in their
   * calendar ranges (the hour after the AM/PM correction) and a day that exists in
   * the month.
   */
  lemma ParseDateSound(val: string, format: string, now: DateParts, names: Names)
    requires ValidParts(now)
    ensures var r := ParseDate(val, format, now, names);
      r.Parsed? ==> ValidParts(r.parts) && r.parts.day <= DaysInMonth(r.parts.year, r.parts.month)
  {
    var v, f := ValueBody(val), FormatBody(format);
    ParseFromKeepsValid(v, f, 0, Start(now), names);
  }

  /** A fixed "now" for the examples below: 1 January 2023, midnight. */
  const ExampleNow := DateParts(2023, 1, 1, 0, 0, 0, 0)

  /** Neither "02-30" nor "MM-dd" carries a UTC marker. */
  lemma ExampleBodies()
    ensures ValueBody("02-30") == "02-30" && FormatBody("MM-dd") == "MM-dd"
  {
    NotIncluded("02-30", "UTC");
    NotIncluded("02-30", "utc");
    assert "MM-dd"[..4] == "MM-d";
  }

  /**
   * As written, the value "02-30" with the format "MM-dd" is accepted as 30 February:
   * the month read from digits escapes the month-length check.
   */
  lemma AsWrittenAcceptsFebruary30()
    ensures ParseDateAsWritten("02-30", "MM-dd", ExampleNow, Names([], [])) == Parsed(DateParts(2023, 2, 30, 0, 0, 0, 0))
  {
    ExampleBodies();
    FebruaryExampleTokens();
    var c3 := Cursor(5, DateParts(2023, 2, 30, 0, 0, 0, 0), true, NoMarker);
    assert Finish("02-30", c3, false) == Parsed(DateParts(2023, 2, 30, 0, 0, 0, 0));
  }

  /** The corrected parse rejects 30 February. */
  lemma CorrectedRejectsFebruary30()
    ensures ParseDate("02-30", "MM-dd", ExampleNow, Names([], [])) == Failed(February)
  {
    ExampleBodies();
    FebruaryExampleTokens();
    var c3 := Cursor(5, DateParts(2023, 2, 30, 0, 0, 0, 0), true, NoMarker);
    ExampleFebruaryTooLong();
    assert ParseDate("02-30", "MM-dd", ExampleNow, Names([], [])) == Finish("02-30", c3, true);
  }

  /** Day 30 is too long for February 2023. */
  lemma ExampleFebruaryTooLong()
    ensures MonthLengthError(DateParts(2023, 2, 30, 0, 0, 0, 0), true) == Some(February)
  {
    assert 2023 % 4 == 3;
  }

  /** A text in which the first character of the pattern never occurs does not contain it. */
  lemma {:induction false} NotIncluded(s: string, pat: string)
    requires pat != [] && forall i :: 0 <= i < |s| ==> s[i] != pat[0]
    ensures !Includes(s, pat)
  {
    if s != [] {
      assert s[0] != pat[0];
      assert !(pat <= s);
      NotIncluded(s[1..], pat);
    } else {
      assert !(pat <= s);
    }
  }

  /** How the three tokens of "MM-dd" are classified. */
  lemma ExampleTokenKinds()
    ensures Classify("MM") == NumberToken(MonthField)
    ensures Classify("dd") == NumberToken(DayField)
    ensures Classify("-") == LiteralToken
  {
    assert Lower("-") == "-";
  }

  /** The month field of "02-30". */
  lemma ExampleMonthStep(c0: Cursor)
    requires c0.pos == 0
    ensures StepToken("02-30", "MM", c0, Names([], []))
      == Next(c0.(pos := 2, parts := c0.parts.(month := 2), monthFromDigits := true))
  {
    ExampleTokenKinds();
    assert Substr("02-30", 0, 2) == "02";
    assert DigitsValue("02") == 2;
    assert DigitRun("02-30", 0, 2, 2) == Some("02");
  }

  /** The day field of "02-30". */
  lemma ExampleDayStep(c2: Cursor)
    requires c2.pos == 3
    ensures StepToken("02-30", "dd", c2, Names([], []))
      == Next(c2.(pos := 5, parts := c2.parts.(day := 30)))
  {
    ExampleTokenKinds();
    assert Substr("02-30", 3, 2) == "30";
    assert DigitsValue("30") == 30 by {
      assert "30"[..1] == "3";
    }
    assert DigitRun("02-30", 3, 2, 2) == Some("30");
  }

  /** The tokens "MM", "-" and "dd" read "02-30" as month 2 (from digits) and day 30. */
  lemma FebruaryExampleTokens()
    ensures ParseFrom("02-30", "MM-dd", 0, Start(ExampleNow), Names([], []))
      == Next(Cursor(5, DateParts(2023, 2, 30, 0, 0, 0, 0), true, NoMarker))
  {
    var v, f, names := "02-30", "MM-dd", Names([], []);
    var c0 := Start(ExampleNow);
    assert RunEnd(f, 0, 'M') == 2;
    assert f[0..2] == "MM";
    ExampleMonthStep(c0);
    var c1 := Cursor(2, ExampleNow.(month := 2), true, NoMarker);
    assert RunEnd(f, 2, '-') == 3;
    assert f[2..3] == "-";
    ExampleTokenKinds();
    assert Substr(v, 2, 1) == "-";
    var c2 := c1.(pos := 3);
    assert StepToken(v, "-", c1, names) == Next(c2);
    assert RunEnd(f, 3, 'd') == 5;
    assert f[3..5] == "dd";
    ExampleDayStep(c2);
    var c3 := Cursor(5, DateParts(2023, 2, 30, 0, 0, 0, 0), true, NoMarker);
    assert ParseFrom(v, f, 5, c3, names) == Next(c3);
    assert ParseFrom(v, f, 3, c2, names) == Next(c3);
    assert ParseFrom(v, f, 2, c1, names) == Next(c3);
  }
}
