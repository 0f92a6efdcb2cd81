/**
 * Math helpers: `sum`, `mult` (index.js:146-164) and the integer recursion of
 * `factorial` (index.js:126-144), over unbounded integers.
 */
module MathExt {
  import opened JsValues
  import Integers
  import Generators

  function Add(a: int, b: int): int {
    a + b
  }

  function Times(a: int, b: int): int {
    a * b
  }

  /** `reduce` without an initial value continues from the accumulator over the rest, left to right. */
  function FoldLeft(acc: int, xs: seq<int>, op: (int, int) -> int): int
    decreases |xs|
  {
    if xs == [] then acc else FoldLeft(op(acc, xs[0]), xs[1..], op)
  }

  /**
   * sum (index.js:151-154): `None` stands for an argument that is missing or not an array;
   * an empty array also gives undefined; otherwise `reduce` seeded with the first element.
   */
  function Sum(numbers: Option<seq<int>>): (r: Option<int>)
    ensures r.None? <==> numbers.None? || numbers.value == []
    ensures numbers.Some? && |numbers.value| == 1 ==> r == Some(numbers.value[0])
  {
    if numbers.None? || numbers.value == [] then None
    else Some(FoldLeft(numbers.value[0], numbers.value[1..], Add))
  }

  /** mult (index.js:161-164), the same shape with multiplication. */
  function Mult(numbers: Option<seq<int>>): (r: Option<int>)
    ensures r.None? <==> numbers.None? || numbers.value == []
    ensures numbers.Some? && |numbers.value| == 1 ==> r == Some(numbers.value[0])
  {
    if numbers.None? || numbers.value == [] then None
    else Some(FoldLeft(numbers.value[0], numbers.value[1..], Times))
  }

  /** The mathematical sum, as an independent reference. */
  function Total(xs: seq<int>): int {
    if xs == [] then 0 else xs[0] + Total(xs[1..])
  }

  /** The mathematical product, as an independent reference. */
  function Product(xs: seq<int>): int {
    if xs == [] then 1 else xs[0] * Product(xs[1..])
  }

  lemma {:induction false} FoldAdd(acc: int, xs: seq<int>)
    ensures FoldLeft(acc, xs, Add) == acc + Total(xs)
    decreases |xs|
  {
    if xs != [] {
      FoldAdd(Add(acc, xs[0]), xs[1..]);
    }
  }

  lemma {:induction false} FoldTimes(acc: int, xs: seq<int>)
    ensures FoldLeft(acc, xs, Times) == acc * Product(xs)
    decreases |xs|
  {
    if xs != [] {
      FoldTimes(Times(acc, xs[0]), xs[1..]);
      assert acc * (xs[0] * Product(xs[1..])) == (acc * xs[0]) * Product(xs[1..]);
    }
  }

  /** sum is undefined exactly for a missing, non-array or empty argument, and is otherwise the total. */
  lemma SumIsTotal(numbers: Option<seq<int>>)
    ensures Sum(numbers).None? <==> numbers.None? || numbers.value == []
    ensures numbers.Some? && numbers.value != [] ==> Sum(numbers) == Some(Total(numbers.value))
  {
    if numbers.Some? && numbers.value != [] {
      FoldAdd(numbers.value[0], numbers.value[1..]);
    }
  }

  /** mult is undefined exactly for a missing, non-array or empty argument, and is otherwise the product. */
  lemma MultIsProduct(numbers: Option<seq<int>>)
    ensures Mult(numbers).None? <==> numbers.None? || numbers.value == []
    ensures numbers.Some? && numbers.value != [] ==> Mult(numbers) == Some(Product(numbers.value))
  {
    if numbers.Some? && numbers.value != [] {
      FoldTimes(numbers.value[0], numbers.value[1..]);
    }
  }

  /** A one-element array gives its element back. */
  lemma SingleElement(x: int)
    ensures Sum(Some([x])) == Some(x) && Mult(Some([x])) == Some(x)
  {
  }

  /** The examples of the module's test script: sum([1, 2, 3, 4]) is 10 and mult([1, 2, 3, 4]) is 24. */
  lemma TestScriptValues()
    ensures Sum(Some([1, 2, 3, 4])) == Some(10) && Mult(Some([1, 2, 3, 4])) == Some(24)
    ensures Sum(Some([])) == None && Mult(None) == None
  {
  }

  // ---------------------------------------------------------------------------------
  // factorial

  /** The recursion `f` of factorial (index.js:140): `n > 1 ? n * f(n - 1) : 1`. */
  function Fact(n: int): (r: int)
    ensures r >= 1 && r >= n
    decreases n
  {
    if n > 1 then n * Fact(n - 1) else 1
  }

  lemma {:induction false} ProductAppend(xs: seq<int>, x: int)
    ensures Product(xs + [x]) == Product(xs) * x
  {
    if xs != [] {
      assert (xs + [x])[1..] == xs[1..] + [x];
      ProductAppend(xs[1..], x);
    }
  }

  /** f(n) is the product of the enumeration 1 .. n, the definition of n!. */
  lemma {:induction false} FactIsProductOfRange(n: int)
    requires n >= 1
    ensures Fact(n) == Product(Generators.Range(1, n))
    ensures Mult(Some(Generators.Range(1, n))) == Some(Fact(n))
    decreases n
  {
    if n > 1 {
      FactIsProductOfRange(n - 1);
      assert Generators.Range(1, n) == Generators.Range(1, n - 1) + [n];
      ProductAppend(Generators.Range(1, n - 1), n);
    }
    MultIsProduct(Some(Generators.Range(1, n)));
  }

  /** `maxFactorialArgument`: above it a double overflows and factorial answers Infinity. */
  const MaxFactorialArgument: int := 170

  const FactorialMessage: string := "Factorial argument must be a non-negative integer"

  /** The validator `n => n >= 0` passed to getInteger. */
  predicate NonNegative(n: Number) {
    (n.Finite? && n.x >= 0.0) || (n.Infinity? && !n.negative)
  }

  /**
   * factorial (index.js:136-144) on top of a given getInteger, without its cache: the
   * cache only stores what `f` computes. An undefined argument reaches `f` unchanged,
   * and `undefined > 1` is false.
   */
  function FactorialUsing(getInteger: (seq<Value>, Number -> bool) -> Integers.Completion, n: Value): (r: Integers.Completion)
    ensures r.Throw? ==> r == getInteger([n, Func(0), Str(FactorialMessage)], NonNegative)
    ensures r.Return? ==> r.value.Num? && (r.value.n.Infinity? || (r.value.n.Finite? && IsIntegral(r.value.n.x) && r.value.n.x >= 1.0))
  {
    var c := getInteger([n, Func(0), Str(FactorialMessage)], NonNegative);
    if c.Throw? then c
    else if c.value.Num? && c.value.n.Finite? then
      var k := c.value.n.x;
      // getInteger hands back parseInt's result, which is integral
      if k > MaxFactorialArgument as real then Integers.Return(Num(Infinity(false)))
      else Integers.Return(Num(Finite(Fact(k.Floor) as real)))
    else Integers.Return(Num(Finite(1.0)))
  }

  function Factorial(n: Value): (r: Integers.Completion)
    ensures r.Throw? <==> n != Undefined && (!Integers.IsInteger(n) || !NonNegative(ToNumber(n)))
  {
    FactorialUsing(Integers.GetInteger, n)
  }

  /** factorial with the `return` of isInteger put back but the argument still read with parseInt. */
  function FactorialParsing(n: Value): Integers.Completion {
    FactorialUsing(Integers.GetIntegerParsing, n)
  }

  function FactorialAsWritten(n: Value): Integers.Completion {
    FactorialUsing(Integers.GetIntegerAsWritten, n)
  }

  /** factorial of 0 .. 170 is n!; above 170 it is Infinity. */
  lemma FactorialOfNatural(k: nat)
    ensures k <= MaxFactorialArgument ==> Factorial(Num(Finite(k as real))) == Integers.Return(Num(Finite(Fact(k) as real)))
    ensures k > MaxFactorialArgument ==> Factorial(Num(Finite(k as real))) == Integers.Return(Num(Infinity(false)))
  {
    assert (k as real).Floor == k;
  }

  /** A negative integer is a RangeError carrying factorial's own message. */
  lemma FactorialOfNegative(k: int)
    requires k < 0
    ensures Factorial(Num(Finite(k as real))) == Integers.Throw(Integers.RangeError(Integers.Text(FactorialMessage)))
  {
    assert (k as real).Floor == k;
  }

  /** 1e21 is above 170, so factorial(1e21) is Infinity; parseInt reads it as 1, which gives 1. */
  lemma FactorialOfHugeNumber()
    ensures Factorial(Num(Finite(ExponentThreshold))) == Integers.Return(Num(Infinity(false)))
    ensures FactorialParsing(Num(Finite(ExponentThreshold))) == Integers.Return(Num(Finite(1.0)))
  {
    var big := Num(Finite(ExponentThreshold));
    var args := [big, Func(0), Str(FactorialMessage)];
    Integers.ThresholdIsIntegerReadAsOne();
    assert Pow10(21) > MaxFactorialArgument by {
      Pow10Grows(21);
    }
    assert Integers.GetInteger(args, NonNegative) == Integers.Return(big);
    assert Integers.GetIntegerParsing(args, NonNegative) == Integers.Return(Num(Finite(1.0)));
  }

  lemma {:induction false} Pow10Grows(k: nat)
    ensures Pow10(k) > k * k
  {
    if k > 0 {
      Pow10Grows(k - 1);
    }
  }

  /** As written, getInteger rejects every defined argument, so factorial(5) throws TypeError; factorial() is 1 either way. */
  lemma FactorialAsWrittenRejectsAll(n: Value)
    ensures n != Undefined ==> FactorialAsWritten(n).Throw? && FactorialAsWritten(n).error.TypeError?
    ensures FactorialAsWritten(Undefined) == Factorial(Undefined) == Integers.Return(Num(Finite(1.0)))
  {
  }
}
