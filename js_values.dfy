/**
 * The JavaScript values that the utility functions of the toolbox distinguish, with the
 * few coercions they rely on: `typeof`, truthiness, `Number(v)` and `parseInt(v)`.
 * Objects and functions are opaque: an object is known by an identity, a function by an
 * identity whose behaviour, where a utility calls it, is passed in as a parameter.
 */
module JsValues {

  datatype Option<+T> = None | Some(value: T) {
    function GetOr(default: T): T {
      if Some? then value else default
    }

    function OrElse(other: Option<T>): Option<T> {
      if Some? then this else other
    }
  }

  /** A JavaScript number: a finite value (kept exact, as a real), NaN or an infinity. */
  datatype Number = Finite(x: real) | NaN | Infinity(negative: bool)

  datatype Value =
    | Undefined
    | Null
    | Bool(b: bool)
    | Num(n: Number)
    | Str(s: string)
    | Arr(elems: seq<Value>)
    | Obj(id: nat)
    | Func(id: nat)

  /** The string the `typeof` operator gives. */
  function TypeOf(v: Value): (t: string)
    ensures t == "object" <==> v.Null? || v.Arr? || v.Obj?
  {
    match v
    case Undefined => "undefined"
    case Bool(_) => "boolean"
    case Num(_) => "number"
    case Str(_) => "string"
    case Func(_) => "function"
    case _ => "object"
  }

  /** `v === undefined || v === null` */
  predicate Nullish(v: Value) {
    v.Undefined? || v.Null?
  }

  /** Whether `if (v)` takes its branch: undefined, null, false, 0, NaN and "" are falsy. */
  predicate Truthy(v: Value): (b: bool)
    ensures b ==> !Nullish(v)
    ensures v.Num? ==> (b <==> ToNumber(v) != NaN && ToNumber(v) != Finite(0.0))
  {
    match v
    case Undefined => false
    case Null => false
    case Bool(b) => b
    case Num(n) => n.Infinity? || (n.Finite? && n.x != 0.0)
    case Str(s) => s != ""
    case _ => true
  }

  /** `arguments[i]`: undefined past the end. */
  function Arg(args: seq<Value>, i: nat): Value {
    if i < |args| then args[i] else Undefined
  }

  predicate IsIntegral(x: real) {
    x.Floor as real == x
  }

  predicate IsDigit(c: char) {
    '0' <= c <= '9'
  }

  predicate AllDigits(s: string) {
    forall i :: 0 <= i < |s| ==> IsDigit(s[i])
  }

  function Pow10(k: nat): (p: nat)
    ensures p >= 1
  {
    if k == 0 then 1 else 10 * Pow10(k - 1)
  }

  /** The value of a run of decimal digits, most significant first. */
  function DigitsValue(s: string): nat
    requires AllDigits(s)
  {
    if s == [] then 0 else 10 * DigitsValue(s[..|s| - 1]) + (s[|s| - 1] as int - '0' as int)
  }

  /** Number of leading decimal digits of `s`. */
  function LeadingDigits(s: string): (d: nat)
    ensures d <= |s| && AllDigits(s[..d])
    ensures d < |s| ==> !IsDigit(s[d])
  {
    if s != [] && IsDigit(s[0]) then
      var d := 1 + LeadingDigits(s[1..]);
      assert s[..d] == [s[0]] + s[1..][..d - 1];
      d
    else 0
  }

  /** Splits an optional leading sign off a numeral: whether it is negative, and the rest. */
  function SplitSign(s: string): (bool, string) {
    if s != [] && s[0] == '-' then (true, s[1..])
    else if s != [] && s[0] == '+' then (false, s[1..])
    else (false, s)
  }

  function Signed(negative: bool, x: real): real {
    if negative then -x else x
  }

  /**
   * `Number(s)` for a string: a decimal numeral with an optional sign and an optional
   * fraction (`-12`, `+3.50`, `7.`); any other string is NaN here.
   */
  function StringToNumber(s: string): Number {
    var (negative, body) := SplitSign(s);
    var d := LeadingDigits(body);
    var rest := body[d..];
    if d == 0 then NaN
    else if rest == [] then Finite(Signed(negative, DigitsValue(body[..d]) as real))
    else if rest[0] == '.' && AllDigits(rest[1..]) then
      var fraction := DigitsValue(rest[1..]) as real / Pow10(|rest| - 1) as real;
      Finite(Signed(negative, DigitsValue(body[..d]) as real + fraction))
    else NaN
  }

  /** `Number(v)`, the coercion behind `isFinite` and loose equality with a number. */
  function ToNumber(v: Value): (r: Number)
    ensures v.Num? ==> r == v.n
    ensures r.Infinity? ==> v.Num?
    ensures v.Bool? || v.Null? ==> r.Finite? && IsIntegral(r.x)
  {
    match v
    case Undefined => NaN
    case Null => Finite(0.0)
    case Bool(b) => Finite(if b then 1.0 else 0.0)
    case Num(n) => n
    case Str(s) => StringToNumber(s)
    case _ => NaN
  }

  /** JavaScript truncation of a finite number toward zero. */
  function Truncate(x: real): int {
    if x >= 0.0 then x.Floor else -((-x).Floor)
  }

  /** 1e21: from this magnitude on, a number's string form is written with an exponent (`1e+21`). */
  const ExponentThreshold: real := Pow10(21) as real

  /** The most significant decimal digit of `n`. */
  function LeadingDigit(n: nat): (d: nat)
    ensures d < 10 && (n > 0 ==> d > 0)
  {
    if n < 10 then n else LeadingDigit(n / 10)
  }

  /**
   * `parseInt(v)`: the optional sign and the leading decimal digits of the value's string
   * form. A finite number below 1e21 in magnitude is read as its integer part; from 1e21
   * on its string form is `d.ddde+N`, of which only the first digit is read. Booleans,
   * null and undefined have no digits in their string form.
   */
  function ParseInt(v: Value): (r: Number)
    ensures !r.Infinity?
    ensures r.Finite? ==> IsIntegral(r.x)
  {
    match v
    case Num(Finite(x)) =>
      var k: int :=
        if x >= ExponentThreshold then LeadingDigit(x.Floor) as int
        else if x <= -ExponentThreshold then -(LeadingDigit((-x).Floor) as int)
        else Truncate(x);
      IntOfReal(k);
      Finite(k as real)
    case Str(s) =>
      var (negative, body) := SplitSign(s);
      var d := LeadingDigits(body);
      var n: int := DigitsValue(body[..d]);
      var k := if negative then -n else n;
      IntOfReal(k);
      if d == 0 then NaN else Finite(k as real)
    case _ => NaN
  }

  lemma IntOfReal(k: int)
    ensures IsIntegral(k as real)
  {
  }
}
