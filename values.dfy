/** JavaScript values as the dialog engine sees them, and the few JavaScript
    operators the engine applies to them: truthiness, `a || b` and the string
    conversion `String(v)`. */
module JsValues {

  datatype Option<+T> = None | Some(value: T)

  /** A JavaScript value. `Undefined` also stands for a key that is absent from
      an options object. Objects and functions carry an identity (what `===`
      compares) and the text their string conversion yields. Numbers are
      integers: fractions and NaN are not part of this model. */
  datatype Value =
    | Undefined
    | Null
    | Bool(b: bool)
    | Num(n: int)
    | Str(s: string)
    | Obj(id: nat, text: string)
    | Fn(id: nat, text: string)

  /** JavaScript truthiness: `undefined`, `null`, `false`, `0` and `""` are falsy. */
  predicate Truthy(v: Value) {
    match v
    case Undefined => false
    case Null => false
    case Bool(b) => b
    case Num(n) => n != 0
    case Str(s) => s != ""
    case Obj(_, _) => true
    case Fn(_, _) => true
  }

  /** `a || b` */
  function Or(a: Value, b: Value): Value {
    if Truthy(a) then a else b
  }

  function DigitChar(d: nat): char
    requires d < 10
  {
    "0123456789"[d]
  }

  /** Decimal digits of a natural number, most significant first. */
  function Digits(n: nat): (s: string)
    ensures |s| > 0
    decreases n
  {
    if n < 10 then [DigitChar(n)] else Digits(n / 10) + [DigitChar(n % 10)]
  }

  /** `String(v)`, the conversion `innerHTML`, `textContent` and template
      literals apply. */
  function ToStr(v: Value): string {
    match v
    case Undefined => "undefined"
    case Null => "null"
    case Bool(b) => if b then "true" else "false"
    case Num(n) => if n < 0 then "-" + Digits(-n) else Digits(n)
    case Str(s) => s
    case Obj(_, t) => t
    case Fn(_, t) => t
  }

  /** The text a display slot shows for a value that the engine only uses
      when it is truthy: its string form, or nothing. */
  function TextIfSet(v: Value): string {
    if Truthy(v) then ToStr(v) else ""
  }
}
