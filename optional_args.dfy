/**
 * Argument resolution: `handleOptionalArgs` (index.js:59-82).
 *
 * A cursor walks the caller's `arguments` while the declared types and their defaults are
 * consumed, in place, from the front of the two arrays the caller hands over.
 */
module OptionalArgs {
  import opened JsValues
  import opened Sequences

  /** A JavaScript array handed to a callee that consumes it with `shift()`. */
  class JsArray {
    var elems: seq<Value>

    constructor (elems: seq<Value>)
      ensures this.elems == elems
    {
      this.elems := elems;
    }

    /** `shift()`: removes and returns the first element; undefined, and no change, when empty. */
    method Shift() returns (first: Value)
      modifies this
      ensures old(elems) == [] ==> first == Undefined && elems == []
      ensures old(elems) != [] ==> first == old(elems)[0] && elems == old(elems)[1..]
    {
      if elems == [] {
        first := Undefined;
      } else {
        first := elems[0];
        elems := elems[1..];
      }
    }
  }

  /** `typeof arg === type` */
  predicate Matches(arg: Value, declared: Value) {
    declared == Str(TypeOf(arg))
  }

  /** The entry for one declared type: the argument when its type matches and it is not null or undefined, else the default. */
  function Entry(arg: Value, declared: Value, dflt: Value): (r: Value)
    ensures r == dflt || (r == arg && Matches(arg, declared) && !Nullish(arg))
    ensures !Nullish(arg) && Matches(arg, declared) ==> r == arg
  {
    if Matches(arg, declared) then (if Nullish(arg) then dflt else arg) else dflt
  }

  /** Whether the cursor moves past the argument: on a match, or when the argument is null or undefined. */
  predicate Advances(arg: Value, declared: Value): (b: bool)
    ensures !b ==> Entry(arg, declared, Undefined) == Undefined
  {
    Matches(arg, declared) || Nullish(arg)
  }

  function Step(args: seq<Value>, index: nat, declared: Value): (r: nat)
    ensures r == index || r == index + 1
    ensures r == index + 1 <==> Advances(Arg(args, index), declared)
  {
    if Advances(Arg(args, index), declared) then index + 1 else index
  }

  /** `dflts.shift()` on what is left of the defaults: undefined once they run out. */
  function Head(s: seq<Value>): Value {
    if s == [] then Undefined else s[0]
  }

  function Tail(s: seq<Value>): seq<Value> {
    if s == [] then [] else s[1..]
  }

  /** The result of handleOptionalArgs with the cursor at `index`, when types and defaults are two arrays. */
  function Resolve(args: seq<Value>, index: nat, types: seq<Value>, dflts: seq<Value>): (r: seq<Value>)
    ensures |r| == |types|
    decreases |types|
  {
    if types == [] then []
    else
      [Entry(Arg(args, index), types[0], Head(dflts))]
        + Resolve(args, Step(args, index, types[0]), types[1..], Tail(dflts))
  }

  /**
   * The result when the caller passes one array as both types and defaults: each round
   * shifts a type and then a default off the same array.
   */
  function ResolveShared(args: seq<Value>, index: nat, list: seq<Value>): (r: seq<Value>)
    ensures |r| == (|list| + 1) / 2
    decreases |list|
  {
    if list == [] then []
    else
      [Entry(Arg(args, index), list[0], Head(list[1..]))]
        + ResolveShared(args, Step(args, index, list[0]), Tail(list[1..]))
  }

  /** The defaults left after `k` shifts. */
  function Drop(s: seq<Value>, k: nat): seq<Value> {
    if k <= |s| then s[k..] else []
  }

  /**
   * handleOptionalArgs (index.js:66-82): one entry per declared type; `types` ends empty
   * and `dflts` loses as many leading entries as there were types.
   */
  method HandleOptionalArgs(args: seq<Value>, types: JsArray, dflts: JsArray) returns (rslt: seq<Value>)
    modifies types, dflts
    ensures types.elems == []
    ensures types != dflts ==> rslt == Resolve(args, 0, old(types.elems), old(dflts.elems))
    ensures types != dflts ==> dflts.elems == Drop(old(dflts.elems), |old(types.elems)|)
    ensures types == dflts ==> rslt == ResolveShared(args, 0, old(types.elems))
  {
    ghost var types0, dflts0 := types.elems, dflts.elems;
    ghost var shared := types == dflts;
    ghost var consumed := 0;
    rslt := [];
    var index := 0;
    while |types.elems| > 0
      invariant shared == (types == dflts)
      invariant !shared ==> consumed <= |types0| && types.elems == types0[consumed..]
      invariant !shared ==> dflts.elems == Drop(dflts0, consumed)
      invariant !shared ==> rslt + Resolve(args, index, types.elems, dflts.elems) == Resolve(args, 0, types0, dflts0)
      invariant shared ==> rslt + ResolveShared(args, index, types.elems) == ResolveShared(args, 0, types0)
      decreases |types.elems|
    {
      ghost var list, rest, before := types.elems, dflts.elems, rslt;
      ghost var from := index;
      var arg := Arg(args, index);
      var declared := types.Shift();
      var dflt := dflts.Shift();
      if Matches(arg, declared) {
        rslt := rslt + [if Nullish(arg) then dflt else arg];
        index := index + 1;
      } else {
        rslt := rslt + [dflt];
        if Nullish(arg) {
          index := index + 1;
        }
      }
      consumed := consumed + 1;
      assert rslt == before + [Entry(arg, declared, dflt)] && index == Step(args, from, declared);
      if shared {
        assert declared == list[0] && dflt == Head(list[1..]) && types.elems == Tail(list[1..]);
        assert ResolveShared(args, from, list) == [Entry(arg, declared, dflt)] + ResolveShared(args, index, types.elems);
        AppendAssociates(before, Entry(arg, declared, dflt), ResolveShared(args, index, types.elems));
      } else {
        assert declared == list[0] && dflt == Head(rest) && types.elems == list[1..] && dflts.elems == Tail(rest);
        assert Tail(Drop(dflts0, consumed - 1)) == Drop(dflts0, consumed);
        assert Resolve(args, from, list, rest) == [Entry(arg, declared, dflt)] + Resolve(args, index, types.elems, dflts.elems);
        AppendAssociates(before, Entry(arg, declared, dflt), Resolve(args, index, types.elems, dflts.elems));
      }
    }
  }

  // ---------------------------------------------------------------------------------
  // Properties of the resolution

  /** The default for the k-th declared type: the k-th default, undefined past the end. */
  function DefaultAt(dflts: seq<Value>, k: nat): Value {
    if k < |dflts| then dflts[k] else Undefined
  }

  /** Where the cursor stands when the k-th declared type is handled. */
  function Cursor(args: seq<Value>, index: nat, types: seq<Value>, k: nat): nat
    requires k <= |types|
  {
    if k == 0 then index
    else Step(args, Cursor(args, index, types, k - 1), types[k - 1])
  }

  /** The cursor moves at most one argument per declared type. */
  lemma {:induction false} CursorBound(args: seq<Value>, index: nat, types: seq<Value>, k: nat)
    requires k <= |types|
    ensures index <= Cursor(args, index, types, k) <= index + k
  {
    if k > 0 {
      CursorBound(args, index, types, k - 1);
    }
  }

  lemma {:induction false} CursorShift(args: seq<Value>, index: nat, types: seq<Value>, k: nat)
    requires 0 < |types| && k < |types|
    ensures Cursor(args, index, types, k + 1) == Cursor(args, Step(args, index, types[0]), types[1..], k)
  {
    if k > 0 {
      CursorShift(args, index, types, k - 1);
    }
  }

  /**
   * Entry k of the result is decided by the argument under the cursor, the k-th declared
   * type and the k-th default; the cursor then advances exactly on a match or on a null
   * or undefined argument.
   */
  lemma {:induction false} ResolveAt(args: seq<Value>, index: nat, types: seq<Value>, dflts: seq<Value>, k: nat)
    requires k < |types|
    ensures Resolve(args, index, types, dflts)[k]
      == Entry(Arg(args, Cursor(args, index, types, k)), types[k], DefaultAt(dflts, k))
    ensures Cursor(args, index, types, k + 1)
      == Cursor(args, index, types, k) + (if Advances(Arg(args, Cursor(args, index, types, k)), types[k]) then 1 else 0)
    decreases k
  {
    if k > 0 {
      ResolveAt(args, Step(args, index, types[0]), types[1..], Tail(dflts), k - 1);
      CursorShift(args, index, types, k - 1);
      assert DefaultAt(Tail(dflts), k - 1) == DefaultAt(dflts, k);
    }
  }

  /** An argument that is taken as it is: its `typeof` is the declared type and it is not null or undefined. */
  predicate TakenAsIs(arg: Value, declared: Value) {
    Matches(arg, declared) && !Nullish(arg)
  }

  /** When every argument has its declared type and is neither null nor undefined, the arguments come back as given. */
  lemma {:induction false} ResolveWellTyped(args: seq<Value>, index: nat, types: seq<Value>, dflts: seq<Value>)
    requires index + |types| <= |args|
    requires forall k :: 0 <= k < |types| ==> TakenAsIs(args[index + k], types[k])
    ensures Resolve(args, index, types, dflts) == args[index..index + |types|]
    decreases |types|
  {
    if types != [] {
      assert TakenAsIs(args[index], types[0]);
      var rest := types[1..];
      forall k | 0 <= k < |rest|
        ensures TakenAsIs(args[index + 1 + k], rest[k])
      {
        assert TakenAsIs(args[index + (k + 1)], types[k + 1]);
      }
      ResolveWellTyped(args, index + 1, rest, Tail(dflts));
      assert args[index..index + |types|] == [args[index]] + args[index + 1..index + 1 + |rest|];
    }
  }

  /** With no arguments at all every entry is its default (undefined past the last default). */
  lemma {:induction false} ResolveNoArgs(index: nat, types: seq<Value>, dflts: seq<Value>)
    ensures forall k :: 0 <= k < |types| ==> Resolve([], index, types, dflts)[k] == DefaultAt(dflts, k)
    decreases |types|
  {
    if types != [] {
      ResolveNoArgs(index + 1, types[1..], Tail(dflts));
      forall k | 0 < k < |types|
        ensures Resolve([], index, types, dflts)[k] == DefaultAt(dflts, k)
      {
        assert DefaultAt(Tail(dflts), k - 1) == DefaultAt(dflts, k);
      }
    }
  }

  /**
   * A usage from the module's own test script: `blabla(4)` with types string, object,
   * number. 4 is not a string and not null, so the cursor waits and the number slot
   * takes it.
   */
  lemma ResolveSkipsMismatch(file: Value, data: Value, size: Value)
    ensures Resolve([Num(Finite(4.0))], 0, [Str("string"), Str("object"), Str("number")], [file, data, size])
      == [file, data, Num(Finite(4.0))]
  {
  }
}
