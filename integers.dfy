/**
 * Integer validation: `isInteger` and `getInteger` (index.js:7-57).
 *
 * `getInteger` reads its optional parameters off `arguments`, so it is modelled on the
 * whole argument list: `args[0]` is the value, `args[1]` a validator function or an error
 * message, `args[2]` an error message, and the last argument the default.
 */
module Integers {
  import opened JsValues

  /** The message of a thrown error: a caller's string or one of the two built-in templates. */
  datatype Message = Text(s: string) | NotAnInteger(value: Value) | NotAValidValue(value: Value)

  datatype Error = TypeError(message: Message) | RangeError(message: Message)

  /** How a call ends: it returns a value or throws. */
  datatype Completion = Return(value: Value) | Throw(error: Error)

  /**
   * isInteger's test (index.js:56) with its `return` restored: `isFinite(value) &&
   * Math.floor(value) == value`. Loose equality makes null fail (0 == null is false) and
   * lets booleans and integral numeric strings pass, which the comment's "strictly a
   * finite integer" (index.js:51) would not.
   */
  predicate IsInteger(v: Value): (b: bool)
    ensures b <==> !Nullish(v) && ToNumber(v).Finite? && IsIntegral(ToNumber(v).x)
  {
    ToNumber(v).Finite? && LooselyEqualsNumber(ToNumber(v).x.Floor as real, v)
  }

  /** `m == v` for a number m. */
  predicate LooselyEqualsNumber(m: real, v: Value) {
    !Nullish(v) && ToNumber(v) == Finite(m)
  }

  /** isInteger as written (index.js:55-57): the test is evaluated and dropped, nothing is returned. */
  function IsIntegerAsWritten(v: Value): (r: Value)
    ensures !Truthy(r)
  {
    Undefined
  }

  /**
   * getInteger's body (index.js:20-48), with `isInteger` standing for how the result of
   * the call to isInteger reads as a condition and `toInteger` for how the accepted value
   * is read as a number (line 38).
   */
  function GetIntegerUsing(isInteger: Value -> bool, toInteger: Value -> Number, args: seq<Value>, validator: Number -> bool): (r: Completion)
    ensures Arg(args, 0) == Undefined ==> r.Return?
    ensures Arg(args, 0) != Undefined && r.Return? ==> isInteger(args[0]) && r.value == Num(toInteger(args[0]))
    ensures r.Throw? && r.error.RangeError? ==> |args| > 1 && args[1].Func? && !validator(toInteger(args[0]))
  {
    var value := Arg(args, 0);
    if value == Undefined then
      if |args| > 1 then
        var defaultValue := args[|args| - 1];
        if TypeOf(defaultValue) == "number" && isInteger(defaultValue) then Return(defaultValue)
        else Return(Undefined)
      else Return(Undefined)
    else if !isInteger(value) then
      Throw(TypeError(if |args| > 1 && args[1].Str? then Text(args[1].s) else NotAnInteger(value)))
    else
      var n := toInteger(value);
      if |args| > 1 && args[1].Func? && !validator(n) then
        Throw(RangeError(if |args| > 2 && args[2].Str? then Text(args[2].s) else NotAValidValue(value)))
      else Return(Num(n))
  }

  /**
   * getInteger corrected: isInteger's test with its `return` restored, and the accepted
   * value read as the integer it denotes, `Number(value)`, which for a value the test
   * accepts is already integral.
   */
  function GetInteger(args: seq<Value>, validator: Number -> bool): (r: Completion)
    ensures r.Return? && r.value != Undefined ==> r.value.Num? && r.value.n.Finite? && IsIntegral(r.value.n.x)
  {
    GetIntegerUsing(IsInteger, ToNumber, args, validator)
  }

  /** getInteger with the missing `return` of isInteger put back, still reading the value with parseInt. */
  function GetIntegerParsing(args: seq<Value>, validator: Number -> bool): (r: Completion)
    ensures r.Return? && r.value != Undefined ==> r.value.Num? && !r.value.n.Infinity?
    ensures r.Return? && r.value.Num? && r.value.n.Finite? ==> IsIntegral(r.value.n.x)
  {
    GetIntegerUsing(IsInteger, ParseInt, args, validator)
  }

  /** getInteger as written: every call of isInteger yields undefined, which is falsy. */
  function GetIntegerAsWritten(args: seq<Value>, validator: Number -> bool): (r: Completion)
    ensures r.Return? ==> r.value == Undefined
  {
    GetIntegerUsing(v => Truthy(IsIntegerAsWritten(v)), ParseInt, args, validator)
  }

  // ---------------------------------------------------------------------------------
  // What isInteger accepts

  /** A finite number passes exactly when it is integral; NaN and the infinities never pass. */
  lemma IsIntegerOnNumbers(n: Number)
    ensures IsInteger(Num(n)) <==> n.Finite? && IsIntegral(n.x)
  {
  }

  /** The loose-equality quirks: null fails, both booleans pass. */
  lemma IsIntegerQuirks(b: bool)
    ensures !IsInteger(Null) && !IsInteger(Undefined) && IsInteger(Bool(b))
  {
  }

  lemma DigitsValueBound(s: string)
    requires AllDigits(s)
    ensures DigitsValue(s) < Pow10(|s|)
  {
    if s != [] {
      DigitsValueBound(s[..|s| - 1]);
    }
  }

  /** A value y with I <= y < I + 1 is integral only if it is I. */
  lemma IntegralBetween(i: int, y: real)
    requires i as real <= y < i as real + 1.0
    requires IsIntegral(y)
    ensures y == i as real
  {
    var f := y.Floor;
    assert f as real <= y < f as real + 1.0;
    assert (i - 1) as real < f as real < (i + 1) as real;
    assert i - 1 < f < i + 1;
  }

  lemma IntegralNegation(y: real)
    requires IsIntegral(-y)
    ensures IsIntegral(y)
  {
    var k := (-y).Floor;
    assert y == -(k as real);
    assert y.Floor == -k;
  }

  /**
   * For a numeric string that isInteger accepts, parseInt reads the same number: the
   * fraction, if any, is all zeros, and parseInt stops at the dot.
   */
  lemma {:induction false} ParseIntOfIntegralString(s: string)
    requires IsInteger(Str(s))
    ensures ParseInt(Str(s)) == StringToNumber(s)
  {
    var (negative, body) := SplitSign(s);
    var d := LeadingDigits(body);
    var rest := body[d..];
    if rest != [] {
      var whole := DigitsValue(body[..d]);
      var digits := rest[1..];
      var fraction := DigitsValue(digits) as real / Pow10(|digits|) as real;
      DigitsValueBound(digits);
      FractionBound(DigitsValue(digits), Pow10(|digits|));
      var y := whole as real + fraction;
      assert StringToNumber(s) == Finite(Signed(negative, y));
      if negative {
        IntegralNegation(y);
      }
      IntegralBetween(whole, y);
    }
  }

  lemma FractionBound(a: nat, b: nat)
    requires a < b
    ensures 0.0 <= a as real / b as real < 1.0
  {
    assert a as real < b as real;
  }

  /** Truncation leaves an integral number as it is. */
  lemma TruncateIntegral(x: real)
    requires IsIntegral(x)
    ensures Truncate(x) as real == x
  {
    if x < 0.0 {
      var k := x.Floor;
      assert -x == (-k) as real;
      assert (-x).Floor == -k;
    }
  }

  /** parseInt of a plain numeral isInteger accepts is the number it denotes. */
  lemma ParseIntOfIntegralValue(v: Value)
    requires PlainNumeral(v)
    requires IsInteger(v)
    ensures ParseInt(v) == ToNumber(v)
  {
    if v.Str? {
      ParseIntOfIntegralString(v.s);
    } else {
      assert ToNumber(v) == v.n;
      TruncateIntegral(v.n.x);
    }
  }

  // ---------------------------------------------------------------------------------
  // getInteger's contract (index.js:7-48), whichever way the accepted value is read

  /** An undefined value never throws: it gives the last argument when that is an integral number, else undefined. */
  lemma GetIntegerOfUndefined(toInteger: Value -> Number, args: seq<Value>, validator: Number -> bool)
    requires Arg(args, 0) == Undefined
    ensures var c := GetIntegerUsing(IsInteger, toInteger, args, validator);
      && c.Return?
      && (c.value == Undefined ||
          (|args| > 1 && c.value == args[|args| - 1] && c.value.Num? && IsInteger(c.value)))
      && (|args| > 1 && args[|args| - 1].Num? && IsInteger(args[|args| - 1]) ==> c.value == args[|args| - 1])
  {
  }

  /** A defined value throws TypeError exactly when it is not an integer; the message is a string second argument if given. */
  lemma GetIntegerTypeError(toInteger: Value -> Number, args: seq<Value>, validator: Number -> bool)
    requires Arg(args, 0) != Undefined
    ensures var c := GetIntegerUsing(IsInteger, toInteger, args, validator);
      && (c.Throw? && c.error.TypeError? <==> !IsInteger(args[0]))
      && (c.Throw? && c.error.TypeError? ==>
            c.error.message == if |args| > 1 && args[1].Str? then Text(args[1].s) else NotAnInteger(args[0]))
  {
  }

  /**
   * RangeError is thrown exactly when an integer fails a validator given as the second
   * argument; a string second argument is a message and switches validation off.
   */
  lemma GetIntegerRangeError(toInteger: Value -> Number, args: seq<Value>, validator: Number -> bool)
    ensures var c := GetIntegerUsing(IsInteger, toInteger, args, validator);
      && (c.Throw? && c.error.RangeError? <==>
            && Arg(args, 0) != Undefined && IsInteger(args[0])
            && |args| > 1 && args[1].Func? && !validator(toInteger(args[0])))
      && (c.Throw? && c.error.RangeError? ==>
            c.error.message == if |args| > 2 && args[2].Str? then Text(args[2].s) else NotAValidValue(args[0]))
  {
  }

  /**
   * "Return the integer corresponding to the value": every defined value that gets through
   * comes back as the integral number it denotes.
   */
  lemma GetIntegerReturnsInteger(args: seq<Value>, validator: Number -> bool)
    requires Arg(args, 0) != Undefined
    requires GetInteger(args, validator).Return?
    ensures var r := GetInteger(args, validator).value;
      r == Num(ToNumber(args[0])) && r.n.Finite? && IsIntegral(r.n.x)
  {
  }

  // ---------------------------------------------------------------------------------
  // Reading the value with parseInt (index.js:38)

  /** A string, or a number whose string form has no exponent. */
  predicate PlainNumeral(v: Value) {
    v.Str? || (v.Num? && v.n.Finite? && -ExponentThreshold < v.n.x < ExponentThreshold)
  }

  /** Where the value is a plain numeral, reading it with parseInt gives what getInteger promises. */
  lemma GetIntegerParsingAgrees(args: seq<Value>, validator: Number -> bool)
    requires |args| > 0 && PlainNumeral(args[0])
    ensures GetIntegerParsing(args, validator) == GetInteger(args, validator)
  {
    if IsInteger(args[0]) {
      ParseIntOfIntegralValue(args[0]);
    }
  }

  lemma LeadingDigitOfPower(k: nat)
    ensures LeadingDigit(Pow10(k)) == 1
  {
    if k > 0 {
      LeadingDigitOfPower(k - 1);
      assert Pow10(k) / 10 == Pow10(k - 1);
    }
  }

  /**
   * Where they differ: 1e21 is an integer, but its string form is `1e+21`, so parseInt
   * reads 1. `true` passes isInteger's loose test (1 == true) and parseInt reads NaN,
   * while `Number` reads 1; the comment's "strictly an integer" would reject it instead.
   */
  lemma GetIntegerParsingMisreads(validator: Number -> bool)
    ensures GetIntegerParsing([Num(Finite(ExponentThreshold))], validator) == Return(Num(Finite(1.0)))
    ensures GetInteger([Num(Finite(ExponentThreshold))], validator) == Return(Num(Finite(ExponentThreshold)))
    ensures GetIntegerParsing([Bool(true)], validator) == Return(Num(NaN))
    ensures GetInteger([Bool(true)], validator) == Return(Num(Finite(1.0)))
  {
    ThresholdIsIntegerReadAsOne();
  }

  /** 1e21 is integral and positive, and parseInt reads its leading digit, 1. */
  lemma ThresholdIsIntegerReadAsOne()
    ensures IsInteger(Num(Finite(ExponentThreshold)))
    ensures ParseInt(Num(Finite(ExponentThreshold))) == Finite(1.0)
  {
    var n := Pow10(21);
    assert (n as real).Floor == n;
    LeadingDigitOfPower(21);
  }

  // ---------------------------------------------------------------------------------
  // getInteger as written

  /** As written, every defined value throws TypeError and an undefined value gives undefined, whatever the other arguments. */
  lemma GetIntegerAsWrittenRejectsAll(args: seq<Value>, validator: Number -> bool)
    ensures var c := GetIntegerAsWritten(args, validator);
      && (Arg(args, 0) == Undefined ==> c == Return(Undefined))
      && (Arg(args, 0) != Undefined ==> c.Throw? && c.error.TypeError?)
  {
  }

  /** The discrepancy on one input: getInteger(5) should return 5 but, as written, throws "5 is not an integer". */
  lemma GetIntegerAsWrittenRejectsFive(validator: Number -> bool)
    ensures GetInteger([Num(Finite(5.0))], validator) == Return(Num(Finite(5.0)))
    ensures GetIntegerAsWritten([Num(Finite(5.0))], validator) == Throw(TypeError(NotAnInteger(Num(Finite(5.0)))))
  {
  }
}
