/**
 * The JavaScript values the helpers inspect: numbers with NaN and the infinities,
 * message field values, and the message object itself.
 */
module JsValues {
  import opened Wrappers

  /** A JavaScript number. */
  datatype JsNum = NaN | PosInf | NegInf | Fin(v: real)

  /** JavaScript `<` on numbers: every comparison with NaN is false. */
  predicate Less(a: JsNum, b: JsNum)
  {
    match (a, b)
    case (NaN, _) => false
    case (_, NaN) => false
    case (NegInf, NegInf) => false
    case (NegInf, _) => true
    case (PosInf, _) => false
    case (Fin(_), NegInf) => false
    case (Fin(_), PosInf) => true
    case (Fin(x), Fin(y)) => x < y
  }

  /** JavaScript `<=` on numbers. */
  predicate LessEq(a: JsNum, b: JsNum)
  {
    Less(a, b) || (a == b && !a.NaN?)
  }

  /** JavaScript `Number.isFinite`. */
  predicate IsFinite(a: JsNum) { a.Fin? }

  /**
   * A value found in a message or a configuration field. A number carries the text
   * JavaScript renders it as, a string carries what `Number()` reads it as.
   */
  datatype Value =
    | Undefined
    | Null
    | Bool(b: bool)
    | Num(n: JsNum, text: string)
    | Text(s: string, number: JsNum)

  /** `Number(v)`. */
  function ToNumber(v: Value): JsNum
  {
    match v
    case Undefined => NaN
    case Null => Fin(0.0)
    case Bool(b) => if b then Fin(1.0) else Fin(0.0)
    case Num(n, _) => n
    case Text(_, n) => n
  }

  /**
   * `Number(String(v).toLowerCase())`, the number the boolean-word helpers read.
   * Lower-casing only matters for the word `Infinity`, which JavaScript spells
   * case-sensitively; an infinity written as an overflowing numeral stays infinite.
   */
  function LowerTextNumber(v: Value): JsNum
  {
    match v
    case Undefined => NaN
    case Null => NaN
    case Bool(_) => NaN
    case Num(n, _) => if n.Fin? then n else NaN
    case Text(s, n) => if (n.PosInf? || n.NegInf?) && Includes(s, "Infinity") then NaN else n
  }

  /** `v + ''`: the text JavaScript converts the value to. */
  function StringOf(v: Value): string
  {
    match v
    case Undefined => "undefined"
    case Null => "null"
    case Bool(b) => if b then "true" else "false"
    case Num(_, t) => t
    case Text(s, _) => s
  }

  /** JavaScript truthiness (`!!v`). */
  predicate Truthy(v: Value)
  {
    match v
    case Undefined => false
    case Null => false
    case Bool(b) => b
    case Num(n, _) => n != NaN && n != Fin(0.0)
    case Text(s, _) => s != ""
  }

  /** The empty string `''`, which the lookups treat like a missing field. */
  predicate IsEmptyText(v: Value) { v.Text? && v.s == "" }

  /** ASCII `toLowerCase` of one character. */
  function LowerChar(c: char): (r: char)
    ensures 'A' <= c <= 'Z' ==> r as int == c as int + 32
    ensures !('A' <= c <= 'Z') ==> r == c
  {
    if 'A' <= c <= 'Z' then (c as int + 32) as char else c
  }

  /** ASCII `toLowerCase` of a string. */
  function Lower(s: string): (r: string)
    ensures |r| == |s|
    ensures forall i :: 0 <= i < |s| ==> r[i] == LowerChar(s[i])
  {
    if s == [] then [] else [LowerChar(s[0])] + Lower(s[1..])
  }

  /** `a.includes(b)` on strings. */
  predicate Includes(a: string, b: string)
  {
    b <= a || (a != [] && Includes(a[1..], b))
  }

  /** A message payload: an object with named fields, or a single primitive value. */
  datatype Payload = PObject(fields: map<string, Value>) | PValue(v: Value)

  /**
   * A Node-RED message: its payload, its other top-level properties and its topic
   * (the empty string when the message has none).
   */
  datatype Msg = Msg(payload: Payload, props: map<string, Value>, topic: string)

  /** `msg.payload[id]`, `undefined` when the payload is no object or lacks the field. */
  function PayloadField(m: Msg, id: string): Value
  {
    match m.payload
    case PObject(f) => if id in f then f[id] else Undefined
    case PValue(_) => Undefined
  }

  /** `msg[id]`. */
  function Prop(m: Msg, id: string): Value
  {
    if id in m.props then m.props[id] else Undefined
  }

  /** `Number(msg.payload)`; an object payload reads as NaN. */
  function PayloadNumber(m: Msg): JsNum
  {
    match m.payload
    case PObject(_) => NaN
    case PValue(v) => ToNumber(v)
  }

  /** `msg.payload` is truthy (objects always are). */
  predicate PayloadTruthy(m: Msg)
  {
    match m.payload
    case PObject(_) => true
    case PValue(v) => Truthy(v)
  }
}
