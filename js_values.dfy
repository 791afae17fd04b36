/** The JavaScript values a JSON request body can hand to the handler, and the
    few language operations the handler applies to them: truthiness (`!x`),
    conversion to a property key or template text (`String(x)`), `parseFloat`
    and ASCII `toLowerCase`. */
module JsValues {
  import opened Wrappers

  /** A scalar JSON value. `undefined` (field absent) and `null` are kept apart
      because they convert to different strings. */
  datatype Value =
    | Undefined
    | Null
    | Bool(b: bool)
    | Num(n: real)
    | Str(s: string)

  /** The language's truthiness: `undefined`, `null`, `false`, `0` and `""`
      are falsy, everything else is truthy. */
  predicate Truthy(v: Value): (b: bool)
    ensures !b <==> v in {Undefined, Null, Bool(false), Num(0.0), Str("")}
  {
    match v
    case Undefined => false
    case Null => false
    case Bool(b) => b
    case Num(n) => n != 0.0
    case Str(s) => s != ""
  }

  /** The runtime conversions this model does not define itself:
      `parseFloat` on a string (None standing for NaN) and the number-to-string
      conversion used when a number becomes an object key or template text. */
  datatype Runtime = Runtime(parseFloat: string -> Option<real>, numberToString: real -> string)

  /** `String(v)`: the text a value becomes as an object key or inside a
      template literal. */
  function ToText(v: Value, rt: Runtime): (t: string)
    ensures v.Str? ==> t == v.s
    ensures v.Num? ==> t == rt.numberToString(v.n)
    ensures v.Bool? ==> t == (if v.b then "true" else "false")
  {
    match v
    case Undefined => "undefined"
    case Null => "null"
    case Bool(b) => if b then "true" else "false"
    case Num(n) => rt.numberToString(n)
    case Str(s) => s
  }

  /** `parseFloat(v)`, None standing for NaN. A number parses back to itself
      (parseFloat(String(n)) is n for every finite n); `undefined`, `null`,
      `true` and `false` stringify to words that do not start a number. */
  function ParseFloat(v: Value, rt: Runtime): (r: Option<real>)
    ensures v.Num? ==> r == Some(v.n)
    ensures v.Str? ==> r == rt.parseFloat(v.s)
    ensures !v.Num? && !v.Str? ==> r == None
  {
    match v
    case Num(n) => Some(n)
    case Str(s) => rt.parseFloat(s)
    case _ => None
  }

  predicate IsUpper(c: char) {
    'A' <= c <= 'Z'
  }

  function LowerChar(c: char): (l: char)
    ensures !IsUpper(l)
    ensures IsUpper(c) ==> l as int == c as int + 32
    ensures !IsUpper(c) ==> l == c
  {
    if IsUpper(c) then (c as int + 32) as char else c
  }

  /** `s.toLowerCase()` restricted to the ASCII letters. */
  function Lower(s: string): (r: string)
    ensures |r| == |s|
    ensures forall i :: 0 <= i < |s| ==> r[i] == LowerChar(s[i])
  {
    if s == [] then [] else [LowerChar(s[0])] + Lower(s[1..])
  }

  /** A string without upper-case letters is its own lower case. */
  lemma LowerOfLowercase(s: string)
    requires forall i :: 0 <= i < |s| ==> !IsUpper(s[i])
    ensures Lower(s) == s
  {
  }
}
