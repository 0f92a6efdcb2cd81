/**
 * The lazy sequence helpers (index.js:166-258): `enumeration`, `sequenceOf`,
 * `subSequence` and `mappedSequence`.
 *
 * A generator or iterable is modelled by the finite sequence of elements it yields.
 * The two iterables built by hand keep their mutable counters in classes whose `Next`
 * is the iterator's `next()`.
 */
module Generators {
  import opened JsValues
  import opened Sequences

  /** `Number.MAX_SAFE_INTEGER`, the default length of subSequence. */
  const MaxSafeInteger: int := 9007199254740991

  function Abs(x: int): nat {
    if x < 0 then -x else x
  }

  function Min(a: int, b: int): int {
    if a <= b then a else b
  }

  function Max(a: int, b: int): int {
    if a <= b then b else a
  }

  // ---------------------------------------------------------------------------------
  // enumeration (index.js:166-183)

  /** The integers from `start` to `end` inclusive, stepping towards `end`. */
  function Range(start: int, end: int): (r: seq<int>)
    ensures |r| == Abs(end - start) + 1
    ensures forall i :: 0 <= i < |r| ==> r[i] == if start <= end then start + i else start - i
    decreases Abs(end - start)
  {
    if start == end then [start]
    else if start < end then [start] + Range(start + 1, end)
    else [start] + Range(start - 1, end)
  }

  /**
   * What `enumeration(start, end)` yields; `None` is an omitted argument: `start`
   * defaults to 0 and `end` to `start`.
   */
  method Enumeration(start: Option<int>, end: Option<int>) returns (yielded: seq<int>)
    ensures yielded == Range(start.GetOr(0), end.GetOr(start.GetOr(0)))
  {
    var s := start.GetOr(0);
    var e := end.GetOr(s);
    yielded := [];
    if s <= e {
      var i := s;
      while i <= e
        invariant s <= i <= e + 1
        invariant |yielded| == i - s
        invariant forall k :: 0 <= k < |yielded| ==> yielded[k] == s + k
      {
        yielded := yielded + [i];
        i := i + 1;
      }
    } else {
      var i := s;
      while i >= e
        invariant e - 1 <= i <= s
        invariant |yielded| == s - i
        invariant forall k :: 0 <= k < |yielded| ==> yielded[k] == s - k
      {
        yielded := yielded + [i];
        i := i - 1;
      }
    }
  }

  /** Every integer between the two bounds, and nothing else, is yielded. */
  lemma RangeMembers(start: int, end: int, x: int)
    ensures x in Range(start, end) <==> Min(start, end) <= x <= Max(start, end)
  {
    var r := Range(start, end);
    if Min(start, end) <= x <= Max(start, end) {
      var k := if start <= end then x - start else start - x;
      assert r[k] == x;
    }
  }

  function Reverse(s: seq<int>): (r: seq<int>)
    ensures |r| == |s|
  {
    if s == [] then [] else Reverse(s[1..]) + [s[0]]
  }

  lemma {:induction false} ReverseAt(s: seq<int>, k: nat)
    requires k < |s|
    ensures Reverse(s)[k] == s[|s| - 1 - k]
  {
    if k < |s| - 1 {
      ReverseAt(s[1..], k);
    }
  }

  /** Swapping the bounds yields the same integers in the opposite order. */
  lemma RangeSwapped(start: int, end: int)
    ensures Range(end, start) == Reverse(Range(start, end))
  {
    var r, q := Range(start, end), Range(end, start);
    forall k | 0 <= k < |r|
      ensures q[k] == Reverse(r)[k]
    {
      ReverseAt(r, k);
    }
  }

  // ---------------------------------------------------------------------------------
  // sequenceOf (index.js:185-193)

  /** `items.flat()`: array items are spliced in, one level deep. */
  function Flat(items: seq<Value>): (r: seq<Value>)
    ensures forall i :: 0 <= i < |items| && !items[i].Arr? ==> items[i] in r
  {
    if items == [] then []
    else (if items[0].Arr? then items[0].elems else [items[0]]) + Flat(items[1..])
  }

  /** The elements for which `if (item)` holds, in order. */
  function KeepTruthy(s: seq<Value>): (r: seq<Value>)
    ensures forall x :: x in r ==> Truthy(x)
  {
    if s == [] then []
    else (if Truthy(s[0]) then [s[0]] else []) + KeepTruthy(s[1..])
  }

  /** What `sequenceOf(...items)` yields. */
  function SequenceOf(items: seq<Value>): (r: seq<Value>)
    ensures forall x :: x in r ==> Truthy(x)
  {
    KeepTruthy(Flat(items))
  }

  /** Whether x is an item itself (a non-array) or an element of an array item. */
  predicate FromItem(x: Value, item: Value) {
    if item.Arr? then x in item.elems else x == item
  }

  lemma {:induction false} KeepTruthyMembers(s: seq<Value>, x: Value)
    ensures x in KeepTruthy(s) <==> x in s && Truthy(x)
  {
    if s != [] {
      KeepTruthyMembers(s[1..], x);
    }
  }

  lemma {:induction false} FlatMembers(items: seq<Value>, x: Value)
    ensures x in Flat(items) <==> exists i :: 0 <= i < |items| && FromItem(x, items[i])
  {
    if items != [] {
      FlatMembers(items[1..], x);
      if exists i :: 0 <= i < |items| && FromItem(x, items[i]) {
        var i :| 0 <= i < |items| && FromItem(x, items[i]);
        if i > 0 {
          assert FromItem(x, items[1..][i - 1]);
        }
      }
      if exists i :: 0 <= i < |items| - 1 && FromItem(x, items[1..][i]) {
        var i :| 0 <= i < |items| - 1 && FromItem(x, items[1..][i]);
        assert FromItem(x, items[i + 1]);
      }
    }
  }

  /**
   * An element is yielded exactly when it is truthy and it is an item or an element of an
   * array item: arrays are flattened by one level, and every falsy element (undefined,
   * null, false, 0, NaN, "") is dropped.
   */
  lemma SequenceOfMembers(items: seq<Value>, x: Value)
    ensures x in SequenceOf(items) <==> Truthy(x) && exists i :: 0 <= i < |items| && FromItem(x, items[i])
  {
    KeepTruthyMembers(Flat(items), x);
    FlatMembers(items, x);
  }

  /** Items are yielded in order: the elements of a concatenation are those of each part, one after the other. */
  lemma {:induction false} SequenceOfAppend(a: seq<Value>, b: seq<Value>)
    ensures SequenceOf(a + b) == SequenceOf(a) + SequenceOf(b)
  {
    FlatAppend(a, b);
    KeepTruthyAppend(Flat(a), Flat(b));
  }

  lemma {:induction false} FlatAppend(a: seq<Value>, b: seq<Value>)
    ensures Flat(a + b) == Flat(a) + Flat(b)
  {
    if a != [] {
      assert (a + b)[1..] == a[1..] + b;
      FlatAppend(a[1..], b);
    } else {
      assert a + b == b;
    }
  }

  lemma {:induction false} KeepTruthyAppend(a: seq<Value>, b: seq<Value>)
    ensures KeepTruthy(a + b) == KeepTruthy(a) + KeepTruthy(b)
  {
    if a != [] {
      assert (a + b)[1..] == a[1..] + b;
      KeepTruthyAppend(a[1..], b);
    } else {
      assert a + b == b;
    }
  }

  /** Truthy non-array items come through unchanged. */
  lemma {:induction false} SequenceOfPlainItems(items: seq<Value>)
    requires forall i :: 0 <= i < |items| ==> Truthy(items[i]) && !items[i].Arr?
    ensures SequenceOf(items) == items
  {
    if items != [] {
      SequenceOfPlainItems(items[1..]);
    }
  }

  // ---------------------------------------------------------------------------------
  // subSequence (index.js:195-227)

  /** The elements at positions start .. start + length - 1, cut short where `s` ends; a negative start counts as 0. */
  function Window<T>(s: seq<T>, start: int, length: int): (r: seq<T>)
    ensures |r| == Max(0, Min(Max(start, 0) + Max(length, 0), |s|) - Max(start, 0))
    ensures forall i :: 0 <= i < |r| ==> r[i] == s[Max(start, 0) + i]
  {
    var lo := Min(Max(start, 0), |s|);
    s[lo..Min(lo + Max(length, 0), |s|)]
  }

  /**
   * What the iterable `subSequence(s, start, length)` yields; `None` is an omitted
   * argument. With both defaults the sequence itself is handed back.
   */
  function SubSequence<T>(s: seq<T>, start: Option<int>, length: Option<int>): (r: seq<T>)
    ensures |r| <= |s| && forall x :: x in r ==> x in s
  {
    var st := start.GetOr(0);
    var len := length.GetOr(MaxSafeInteger);
    if st == 0 && len == MaxSafeInteger then s else Window(s, st, len)
  }

  /** The shortcut for default arguments agrees with the iterator for every finite sequence. */
  lemma SubSequenceIsWindow<T>(s: seq<T>, start: Option<int>, length: Option<int>)
    requires |s| <= MaxSafeInteger
    ensures SubSequence(s, start, length) == Window(s, start.GetOr(0), length.GetOr(MaxSafeInteger))
  {
  }

  /** A window of a window is a window of the original. */
  lemma WindowOfWindow<T>(s: seq<T>, a: nat, b: nat, c: nat, d: nat)
    requires c <= b
    ensures Window(Window(s, a, b), c, d) == Window(s, a + c, Min(d, b - c))
  {
  }

  /** One step of an iterator. */
  datatype Step<T> = Done | Yield(value: T)

  /** The iterator of the iterable subSequence builds (index.js:207-225), over a finite sequence. */
  class SubSequenceIterator<T> {
    const source: seq<T>
    const start: int
    const length: int
    /** How far the wrapped iterator has gone. */
    var pos: nat
    /** Elements skipped so far. */
    var i: int
    /** Elements handed out so far. */
    var n: int

    ghost predicate Valid()
      reads this
    {
      && 0 <= i <= Max(start, 0)
      && 0 <= n <= Max(length, 0)
      && pos == Min(i + n, |source|)
      && (i < Max(start, 0) ==> n == 0)
    }

    /** What the remaining calls of `next()` yield. */
    ghost function Remaining(): seq<T>
      reads this
      requires Valid()
    {
      var w := Window(source, start, length);
      if n < |w| then w[n..] else []
    }

    constructor (source: seq<T>, start: int, length: int)
      ensures this.source == source && this.start == start && this.length == length
      ensures Valid() && Remaining() == Window(source, start, length)
    {
      this.source, this.start, this.length := source, start, length;
      pos, i, n := 0, 0, 0;
    }

    /** `next()` of the wrapped iterator. */
    method Advance() returns (step: Step<T>)
      modifies this`pos
      ensures old(pos) < |source| ==> step == Yield(source[old(pos)]) && pos == old(pos) + 1
      ensures old(pos) >= |source| ==> step == Done && pos == old(pos)
    {
      if pos < |source| {
        step := Yield(source[pos]);
        pos := pos + 1;
      } else {
        step := Done;
      }
    }

    /** `next()`: skip up to `start` elements once, then hand out at most `length`. */
    method Next() returns (step: Step<T>)
      requires Valid()
      modifies this
      ensures Valid()
      ensures old(Remaining()) == [] ==> step == Done && Remaining() == []
      ensures old(Remaining()) != [] ==> step == Yield(old(Remaining())[0]) && Remaining() == old(Remaining())[1..]
    {
      while i < start
        invariant Valid()
        invariant Remaining() == old(Remaining())
      {
        i := i + 1;
        var _ := Advance();
      }
      if n < length {
        n := n + 1;
        step := Advance();
        return;
      }
      step := Done;
    }

    /** Draining the iterator, as `Array.from` or spreading does. */
    method Collect() returns (items: seq<T>)
      requires Valid()
      modifies this
      ensures Valid() && items == old(Remaining()) && Remaining() == []
    {
      ghost var all := Remaining();
      items := [];
      var step := Next();
      ghost var rest := Remaining();
      while step.Yield?
        invariant Valid() && rest == Remaining()
        invariant step.Yield? ==> items + [step.value] + rest == all
        invariant step.Done? ==> items == all && rest == []
        decreases |rest| + (if step.Yield? then 1 else 0)
      {
        items := items + [step.value];
        ghost var before := rest;
        step := Next();
        rest := Remaining();
        if step.Yield? {
          assert before == [step.value] + rest;
          AppendAssociates(items, step.value, rest);
        } else {
          assert before == [];
        }
      }
    }
  }

  /** `[...subSequence(s, start, length)]` */
  method SubSequenceElements<T>(s: seq<T>, start: Option<int>, length: Option<int>) returns (items: seq<T>)
    ensures items == SubSequence(s, start, length)
  {
    var st := start.GetOr(0);
    var len := length.GetOr(MaxSafeInteger);
    if st == 0 && len == MaxSafeInteger {
      return s;
    }
    var iter := new SubSequenceIterator(s, st, len);
    items := iter.Collect();
  }

  // ---------------------------------------------------------------------------------
  // mappedSequence (index.js:229-258)

  /** Each element replaced by `f(element, index)`, the index counting from 0. */
  function Mapped<T, U>(s: seq<T>, f: (T, nat) -> U): (r: seq<U>)
    ensures |r| == |s|
  {
    seq(|s|, i requires 0 <= i < |s| => f(s[i], i))
  }

  /**
   * What the iterable `mappedSequence(s, callbackFn)` yields; `None` is an undefined
   * callback, which hands the sequence back, so here the callback keeps the element type.
   */
  function MappedSequence<T>(s: seq<T>, callback: Option<(T, nat) -> T>): (r: seq<T>)
    ensures |r| == |s|
    ensures callback.Some? ==> forall i :: 0 <= i < |s| ==> r[i] == callback.value(s[i], i)
  {
    if callback.None? then s else Mapped(s, callback.value)
  }

  /** The iterator of the iterable mappedSequence builds (index.js:243-256), over a finite sequence. */
  class MappedIterator<T, U> {
    const source: seq<T>
    const callback: (T, nat) -> U
    /** How far the wrapped iterator has gone. */
    var pos: nat
    /** Elements handed out so far. */
    var index: nat

    ghost predicate Valid()
      reads this
    {
      pos <= |source| && index == pos
    }

    /** What the remaining calls of `next()` yield. */
    ghost function Remaining(): seq<U>
      reads this
      requires Valid()
    {
      Mapped(source, callback)[pos..]
    }

    constructor (source: seq<T>, callback: (T, nat) -> U)
      ensures this.source == source && this.callback == callback
      ensures Valid() && Remaining() == Mapped(source, callback)
    {
      this.source, this.callback := source, callback;
      pos, index := 0, 0;
    }

    /** `next()`: the wrapped iterator's next value, mapped with the running index. */
    method Next() returns (step: Step<U>)
      requires Valid()
      modifies this
      ensures Valid()
      ensures old(Remaining()) == [] ==> step == Done && Remaining() == []
      ensures old(Remaining()) != [] ==> step == Yield(old(Remaining())[0]) && Remaining() == old(Remaining())[1..]
    {
      if pos >= |source| {
        return Done;
      }
      var value := source[pos];
      pos := pos + 1;
      var mapped := callback(value, index);
      index := index + 1;
      step := Yield(mapped);
    }

    /** Draining the iterator, as `Array.from` or spreading does. */
    method Collect() returns (items: seq<U>)
      requires Valid()
      modifies this
      ensures Valid() && items == old(Remaining()) && Remaining() == []
    {
      ghost var all := Remaining();
      items := [];
      var step := Next();
      ghost var rest := Remaining();
      while step.Yield?
        invariant Valid() && rest == Remaining()
        invariant step.Yield? ==> items + [step.value] + rest == all
        invariant step.Done? ==> items == all && rest == []
        decreases |rest| + (if step.Yield? then 1 else 0)
      {
        items := items + [step.value];
        ghost var before := rest;
        step := Next();
        rest := Remaining();
        if step.Yield? {
          assert before == [step.value] + rest;
          AppendAssociates(items, step.value, rest);
        } else {
          assert before == [];
        }
      }
    }
  }

  /** `[...mappedSequence(s, callbackFn)]` */
  method MappedSequenceElements<T>(s: seq<T>, callback: Option<(T, nat) -> T>) returns (items: seq<T>)
    ensures items == MappedSequence(s, callback)
  {
    if callback.None? {
      return s;
    }
    var iter := new MappedIterator(s, callback.value);
    items := iter.Collect();
  }

  /** The index passed to the callback counts produced elements: mapping a window numbers it from 0. */
  lemma MappedWindow<T, U>(s: seq<T>, start: nat, length: nat, f: (T, nat) -> U, i: nat)
    requires i < |Window(s, start, length)|
    ensures Mapped(Window(s, start, length), f)[i] == f(s[start + i], i)
  {
  }
}
