/**
 * Property merging: `setProperty` and `merge` (index.js:84-124).
 *
 * An object's own enumerable properties are an association list in insertion order,
 * which is the order in which `Object.entries` hands them to `merge`. A function-valued
 * key or value is called before it is stored; `call` gives what calling the function
 * with a given identity returns.
 */
module Objects {
  import opened JsValues

  /** Own properties as (key, value) pairs in insertion order. */
  type Props = seq<(Value, Value)>

  /** `target[key]`, or None when there is no such own property. */
  function Get(p: Props, key: Value): Option<Value> {
    if p == [] then None
    else if p[0].0 == key then Some(p[0].1)
    else Get(p[1..], key)
  }

  /** The keys in insertion order. */
  function Keys(p: Props): (keys: seq<Value>)
    ensures |keys| == |p|
  {
    if p == [] then [] else [p[0].0] + Keys(p[1..])
  }

  predicate UniqueKeys(p: Props) {
    forall i, j :: 0 <= i < j < |p| ==> p[i].0 != p[j].0
  }

  /** Every property of `p` is still in `r`, at the same position. */
  predicate KeepsKeys(p: Props, r: Props) {
    |p| <= |r| && forall i :: 0 <= i < |p| ==> r[i].0 == p[i].0
  }

  /** `target[key] = value`: an existing property is updated in place, a new one goes last. */
  function Assign(p: Props, key: Value, value: Value): (r: Props)
    ensures KeepsKeys(p, r) && |r| <= |p| + 1
    ensures key in Keys(p) ==> |r| == |p|
  {
    if p == [] then [(key, value)]
    else if p[0].0 == key then [(key, value)] + p[1..]
    else [p[0]] + Assign(p[1..], key, value)
  }

  /** `if (typeof v === "function") v = v()` */
  function Evaluate(v: Value, call: nat -> Value): Value {
    if v.Func? then call(v.id) else v
  }

  /** What setProperty does to the target's properties (index.js:96-101). */
  function Put(p: Props, key: Value, value: Value, call: nat -> Value): (r: Props)
    ensures KeepsKeys(p, r)
  {
    if Nullish(key) || Nullish(value) then p
    else Assign(p, Evaluate(key, call), Evaluate(value, call))
  }

  /** The inner loop of merge: setProperty for each entry of one source, in order. */
  function PutEntries(p: Props, entries: Props, call: nat -> Value): (r: Props)
    ensures KeepsKeys(p, r)
    decreases |entries|
  {
    if entries == [] then p
    else PutEntries(Put(p, entries[0].0, entries[0].1, call), entries[1..], call)
  }

  /**
   * A source of merge as the loop sees it when it reaches it: skipped (null or undefined),
   * a distinct object's entries, or the target object itself, whose entries are then the
   * properties merged so far.
   */
  datatype Source = Skipped | Entries(entries: Props) | TargetItself

  /** The outer loop of merge (index.js:117-122): the sources overlaid from left to right. */
  function MergeAll(p: Props, sources: seq<Source>, call: nat -> Value): (r: Props)
    ensures KeepsKeys(p, r)
    decreases |sources|
  {
    if sources == [] then p
    else MergeAll(Overlay(p, sources[0], call), sources[1..], call)
  }

  /** One step of the outer loop: the properties after one source has been merged in. */
  function Overlay(p: Props, source: Source, call: nat -> Value): (r: Props)
    ensures KeepsKeys(p, r)
  {
    match source
    case Skipped => p
    case Entries(es) => PutEntries(p, es, call)
    case TargetItself => PutEntries(p, p, call)
  }

  lemma MergeAllStep(p: Props, sources: seq<Source>, i: nat, call: nat -> Value)
    requires i < |sources|
    ensures MergeAll(p, sources[i..], call) == MergeAll(Overlay(p, sources[i], call), sources[i + 1..], call)
  {
    assert sources[i..][1..] == sources[i + 1..];
  }

  /** A JavaScript object, updated in place by setProperty and merge. */
  class JsObject {
    var props: Props

    /** An object has at most one property per key. */
    ghost predicate Valid()
      reads this
    {
      UniqueKeys(props)
    }

    /** `{}` */
    constructor ()
      ensures props == [] && Valid()
    {
      props := [];
    }
  }

  /** How merge sees one source, given the object it writes into. */
  ghost function ViewOf(source: JsObject?, target: JsObject?): Source
    reads source
  {
    if source == null then Skipped
    else if source == target then TargetItself
    else Entries(source.props)
  }

  /** How merge sees its sources, given the target it writes into. */
  ghost function SourceView(sources: seq<JsObject?>, target: JsObject?): (view: seq<Source>)
    reads sources
    ensures |view| == |sources|
    ensures forall j :: 0 <= j < |sources| ==> view[j] == ViewOf(sources[j], target)
  {
    if sources == [] then []
    else [ViewOf(sources[0], target)] + SourceView(sources[1..], target)
  }

  /**
   * setProperty (index.js:94-103): a null or undefined target is replaced by a fresh empty
   * object; the property is written unless key or value is null or undefined; the target
   * is returned.
   */
  method SetProperty(target: JsObject?, key: Value, value: Value, call: nat -> Value) returns (r: JsObject)
    requires target != null ==> target.Valid()
    modifies target
    ensures r.Valid()
    ensures target != null ==> r == target
    ensures target == null ==> fresh(r)
    ensures r.props == Put(if target == null then [] else old(target.props), key, value, call)
  {
    if target == null {
      r := new JsObject();
    } else {
      r := target;
    }
    if !Nullish(key) && !Nullish(value) {
      var k := Evaluate(key, call);
      var v := Evaluate(value, call);
      AssignKeepsUnique(r.props, k, v);
      r.props := Assign(r.props, k, v);
    }
  }

  /**
   * merge (index.js:115-124): each non-null source's entries, snapshot when the loop
   * reaches that source, are set on the target in turn; the target (or a fresh object
   * standing for a null or undefined one) is returned.
   */
  method Merge(target: JsObject?, sources: seq<JsObject?>, call: nat -> Value) returns (r: JsObject)
    requires target != null ==> target.Valid()
    modifies target
    ensures r.Valid()
    ensures target != null ==> r == target
    ensures target == null ==> fresh(r)
    ensures r.props == MergeAll(if target == null then [] else old(target.props), old(SourceView(sources, target)), call)
  {
    ghost var view := SourceView(sources, target);
    if target == null {
      r := new JsObject();
      ghost var seen := SourceView(sources, r);
      forall j | 0 <= j < |sources|
        ensures seen[j] == view[j]
      {
        assert sources[j] != r;
      }
      assert seen == view;
    } else {
      r := target;
    }
    MergeInto(r, sources, call);
  }

  /** The outer loop of merge (index.js:117-122), writing into an object. */
  method MergeInto(r: JsObject, sources: seq<JsObject?>, call: nat -> Value)
    requires r.Valid()
    modifies r
    ensures r.Valid()
    ensures r.props == MergeAll(old(r.props), old(SourceView(sources, r)), call)
  {
    ghost var view := SourceView(sources, r);
    ghost var start := r.props;
    var i := 0;
    assert view[0..] == view;
    while i < |sources|
      invariant 0 <= i <= |sources|
      invariant r.Valid()
      invariant MergeAll(start, view, call) == MergeAll(r.props, view[i..], call)
    {
      ghost var before := r.props;
      MergeAllStep(before, view, i, call);
      assert view[i] == ViewOf(sources[i], r);
      MergeSource(r, sources[i], call);
      i := i + 1;
    }
    assert view[i..] == [];
  }

  /** One turn of merge's outer loop (index.js:118-121): a non-null source's entries are set on `r`. */
  method MergeSource(r: JsObject, source: JsObject?, call: nat -> Value)
    requires r.Valid()
    modifies r
    ensures r.Valid()
    ensures r.props == Overlay(old(r.props), old(ViewOf(source, r)), call)
  {
    if source != null {
      SetEntries(r, source.props, call);
    }
  }

  /** The inner loop of merge (index.js:119-121): setProperty for each entry, in order. */
  method SetEntries(r: JsObject, entries: Props, call: nat -> Value)
    requires r.Valid()
    modifies r
    ensures r.Valid()
    ensures r.props == PutEntries(old(r.props), entries, call)
  {
    var k := 0;
    while k < |entries|
      invariant 0 <= k <= |entries|
      invariant r.Valid()
      invariant PutEntries(old(r.props), entries, call) == PutEntries(r.props, entries[k..], call)
    {
      var _ := SetProperty(r, entries[k].0, entries[k].1, call);
      assert entries[k..][1..] == entries[k + 1..];
      k := k + 1;
    }
  }

  // ---------------------------------------------------------------------------------
  // Properties of a single write

  /** Reading after a write: the written key has the new value, every other key is untouched. */
  lemma {:induction false} GetAssign(p: Props, key: Value, value: Value, k: Value)
    ensures Get(Assign(p, key, value), k) == if k == key then Some(value) else Get(p, k)
  {
    if p != [] && p[0].0 != key {
      GetAssign(p[1..], key, value, k);
    }
  }

  /** A write keeps insertion order: an existing key stays where it is, a new key is appended. */
  lemma {:induction false} KeysAssign(p: Props, key: Value, value: Value)
    ensures Keys(Assign(p, key, value)) == if key in Keys(p) then Keys(p) else Keys(p) + [key]
  {
    if p != [] && p[0].0 != key {
      KeysAssign(p[1..], key, value);
    }
  }

  /** Writing the value a key already has changes nothing. */
  lemma {:induction false} AssignExisting(p: Props, key: Value, value: Value)
    requires Get(p, key) == Some(value)
    ensures Assign(p, key, value) == p
  {
    if p[0].0 != key {
      AssignExisting(p[1..], key, value);
    }
  }

  lemma {:induction false} KeysIndex(p: Props, i: nat)
    requires i < |p|
    ensures |Keys(p)| == |p| && Keys(p)[i] == p[i].0
  {
    if i > 0 {
      KeysIndex(p[1..], i - 1);
    } else if |p| > 1 {
      KeysIndex(p[1..], 0);
    }
  }

  /** A write keeps the keys unique. */
  lemma {:induction false} AssignKeepsUnique(p: Props, key: Value, value: Value)
    requires UniqueKeys(p)
    ensures UniqueKeys(Assign(p, key, value))
  {
    if p != [] && p[0].0 != key {
      AssignKeepsUnique(p[1..], key, value);
      var q := Assign(p, key, value);
      KeysAssign(p[1..], key, value);
      forall j | 0 < j < |q|
        ensures q[0].0 != q[j].0
      {
        KeysIndex(q[1..], j - 1);
        assert q[j].0 in Keys(Assign(p[1..], key, value));
        if q[j].0 in Keys(p[1..]) {
          var m :| 0 <= m < |Keys(p[1..])| && Keys(p[1..])[m] == q[j].0;
          KeysIndex(p[1..], m);
        }
      }
    }
  }

  // ---------------------------------------------------------------------------------
  // Properties of merge

  /** The value the last entry of `es` that sets key `k` stores: its raw key and value are neither null nor undefined, and a function key or value is called first. */
  function LatestEntry(es: Props, k: Value, call: nat -> Value): Option<Value> {
    if es == [] then None
    else
      var later := LatestEntry(es[1..], k, call);
      if later.Some? then later
      else if !Nullish(es[0].0) && !Nullish(es[0].1) && Evaluate(es[0].0, call) == k then Some(Evaluate(es[0].1, call))
      else None
  }

  /** The value the last source that sets key `k` stores. */
  function LatestSource(sources: seq<Source>, k: Value, call: nat -> Value): Option<Value> {
    if sources == [] then None
    else
      var later := LatestSource(sources[1..], k, call);
      if later.Some? then later
      else if sources[0].Entries? then LatestEntry(sources[0].entries, k, call)
      else None
  }

  /** No source is the target itself. */
  predicate DistinctSources(sources: seq<Source>) {
    forall i :: 0 <= i < |sources| ==> !sources[i].TargetItself?
  }

  /** After one source's entries, a key holds what that source's last entry setting it stores, else what it held before. */
  lemma {:induction false} GetPutEntries(p: Props, es: Props, k: Value, call: nat -> Value)
    ensures Get(PutEntries(p, es, call), k) == LatestEntry(es, k, call).OrElse(Get(p, k))
    decreases |es|
  {
    if es != [] {
      var q := Put(p, es[0].0, es[0].1, call);
      GetPutEntries(q, es[1..], k, call);
      if !Nullish(es[0].0) && !Nullish(es[0].1) {
        GetAssign(p, Evaluate(es[0].0, call), Evaluate(es[0].1, call), k);
      }
    }
  }

  /**
   * merge left to right: every key ends with what the LAST source that sets it stores; a
   * key no source sets keeps the target's value, or stays absent.
   */
  lemma {:induction false} GetMergeAll(p: Props, sources: seq<Source>, k: Value, call: nat -> Value)
    requires DistinctSources(sources)
    ensures Get(MergeAll(p, sources, call), k) == LatestSource(sources, k, call).OrElse(Get(p, k))
    decreases |sources|
  {
    if sources != [] {
      GetMergeAll(Overlay(p, sources[0], call), sources[1..], k, call);
      if sources[0].Entries? {
        GetPutEntries(p, sources[0].entries, k, call);
      }
    }
  }

  /** No key or value is a function, so nothing is called and keys and values are stored as given. */
  predicate DataOnly(es: Props) {
    forall i :: 0 <= i < |es| ==> !es[i].0.Func? && !es[i].1.Func?
  }

  predicate DistinctDataSources(sources: seq<Source>) {
    DistinctSources(sources) && forall i :: 0 <= i < |sources| ==> sources[i].Entries? ==> DataOnly(sources[i].entries)
  }

  lemma {:induction false} LatestEntryNotNullish(es: Props, k: Value, call: nat -> Value)
    requires DataOnly(es)
    ensures LatestEntry(es, k, call).Some? ==> !Nullish(LatestEntry(es, k, call).value) && !Nullish(k)
  {
    if es != [] {
      LatestEntryNotNullish(es[1..], k, call);
    }
  }

  lemma {:induction false} LatestSourceNotNullish(sources: seq<Source>, k: Value, call: nat -> Value)
    requires DistinctDataSources(sources)
    ensures LatestSource(sources, k, call).Some? ==> !Nullish(LatestSource(sources, k, call).value)
  {
    if sources != [] {
      LatestSourceNotNullish(sources[1..], k, call);
      if sources[0].Entries? {
        LatestEntryNotNullish(sources[0].entries, k, call);
      }
    }
  }

  /** Over plain data merge never writes null or undefined: a key whose value changes gets a value that is neither. */
  lemma MergeNeverWritesNullish(p: Props, sources: seq<Source>, k: Value, call: nat -> Value)
    requires DistinctDataSources(sources)
    ensures var r := Get(MergeAll(p, sources, call), k);
      r != Get(p, k) ==> r.Some? && !Nullish(r.value)
  {
    GetMergeAll(p, sources, k, call);
    LatestSourceNotNullish(sources, k, call);
  }

  /**
   * The null check comes before the call: a function value that returns undefined is
   * stored as undefined.
   */
  lemma MergeStoresWhatAFunctionReturns(call: nat -> Value)
    requires call(0) == Undefined
    ensures MergeAll([], [Entries([(Str("k"), Func(0))])], call) == [(Str("k"), Undefined)]
  {
    PutEntriesStep([], (Str("k"), Func(0)), [], call);
  }

  /** Entries that store exactly what their keys already hold are a no-op. */
  lemma {:induction false} PutEntriesExisting(p: Props, es: Props, call: nat -> Value)
    requires forall i :: 0 <= i < |es| && !Nullish(es[i].0) && !Nullish(es[i].1) ==>
      Get(p, Evaluate(es[i].0, call)) == Some(Evaluate(es[i].1, call))
    ensures PutEntries(p, es, call) == p
    decreases |es|
  {
    if es != [] {
      if !Nullish(es[0].0) && !Nullish(es[0].1) {
        assert Get(p, Evaluate(es[0].0, call)) == Some(Evaluate(es[0].1, call));
        AssignExisting(p, Evaluate(es[0].0, call), Evaluate(es[0].1, call));
      }
      PutEntriesExisting(p, es[1..], call);
    }
  }

  lemma {:induction false} GetOfUnique(p: Props, i: nat)
    requires UniqueKeys(p) && i < |p|
    ensures Get(p, p[i].0) == Some(p[i].1)
  {
    if i > 0 {
      GetOfUnique(p[1..], i - 1);
    }
  }

  /** Merging an object (of plain data, keys unique) into itself leaves it unchanged. */
  lemma MergeIntoItself(p: Props, call: nat -> Value)
    requires DataOnly(p) && UniqueKeys(p)
    ensures MergeAll(p, [TargetItself], call) == p
  {
    forall i | 0 <= i < |p|
      ensures Get(p, p[i].0) == Some(p[i].1)
    {
      GetOfUnique(p, i);
    }
    PutEntriesExisting(p, p, call);
  }

  /**
   * The module's own usage: merging { a: 1, b: 2, c: 3 } and then { a: 4, b: null, c: 6 }
   * into {} gives { a: 4, b: 2, c: 6 }; the null does not overwrite b.
   */
  lemma MergeKeepsValueOverNull(call: nat -> Value)
    ensures MergeAll([], [Entries([(Str("a"), Num(Finite(1.0))), (Str("b"), Num(Finite(2.0))), (Str("c"), Num(Finite(3.0)))]),
                          Entries([(Str("a"), Num(Finite(4.0))), (Str("b"), Null), (Str("c"), Num(Finite(6.0)))])], call)
      == [(Str("a"), Num(Finite(4.0))), (Str("b"), Num(Finite(2.0))), (Str("c"), Num(Finite(6.0)))]
  {
    var a, b, c := Str("a"), Str("b"), Str("c");
    var first := [(a, Num(Finite(1.0))), (b, Num(Finite(2.0))), (c, Num(Finite(3.0)))];
    var second := [(a, Num(Finite(4.0))), (b, Null), (c, Num(Finite(6.0)))];
    FirstSourceOfExample(call);
    SecondSourceOfExample(call);
    assert MergeAll([], [Entries(first), Entries(second)], call) == MergeAll(first, [Entries(second)], call);
  }

  lemma FirstSourceOfExample(call: nat -> Value)
    ensures var first := [(Str("a"), Num(Finite(1.0))), (Str("b"), Num(Finite(2.0))), (Str("c"), Num(Finite(3.0)))];
      PutEntries([], first, call) == first
  {
    var a, b, c := Str("a"), Str("b"), Str("c");
    var one, two, three := Num(Finite(1.0)), Num(Finite(2.0)), Num(Finite(3.0));
    PutEntriesStep([], (a, one), [(b, two), (c, three)], call);
    PutEntriesStep([(a, one)], (b, two), [(c, three)], call);
    PutEntriesStep([(a, one), (b, two)], (c, three), [], call);
    assert Put([], a, one, call) == [(a, one)];
    assert Assign([(a, one)], b, two) == [(a, one)] + Assign([], b, two);
    assert Assign([(a, one), (b, two)], c, three) == [(a, one)] + Assign([(b, two)], c, three);
    assert Assign([(b, two)], c, three) == [(b, two)] + Assign([], c, three);
  }

  lemma SecondSourceOfExample(call: nat -> Value)
    ensures var first := [(Str("a"), Num(Finite(1.0))), (Str("b"), Num(Finite(2.0))), (Str("c"), Num(Finite(3.0)))];
      var second := [(Str("a"), Num(Finite(4.0))), (Str("b"), Null), (Str("c"), Num(Finite(6.0)))];
      PutEntries(first, second, call) == [(Str("a"), Num(Finite(4.0))), (Str("b"), Num(Finite(2.0))), (Str("c"), Num(Finite(6.0)))]
  {
    var a, b, c := Str("a"), Str("b"), Str("c");
    var one, two, three, four, six := Num(Finite(1.0)), Num(Finite(2.0)), Num(Finite(3.0)), Num(Finite(4.0)), Num(Finite(6.0));
    var first := [(a, one), (b, two), (c, three)];
    PutEntriesStep(first, (a, four), [(b, Null), (c, six)], call);
    var updated := [(a, four), (b, two), (c, three)];
    assert Put(first, a, four, call) == updated;
    PutEntriesStep(updated, (b, Null), [(c, six)], call);
    PutEntriesStep(updated, (c, six), [], call);
    assert Assign(updated[2..], c, six) == [(c, six)];
    assert Assign(updated[1..], c, six) == [(b, two), (c, six)];
  }

  /** One entry of a source's loop. */
  lemma PutEntriesStep(p: Props, e: (Value, Value), es: Props, call: nat -> Value)
    ensures PutEntries(p, [e] + es, call) == PutEntries(Put(p, e.0, e.1, call), es, call)
  {
    assert ([e] + es)[1..] == es;
  }

  /** `merge(null, null)` from the module's own usage: a fresh empty object. */
  lemma MergeOfNothing(call: nat -> Value)
    ensures MergeAll([], [Skipped], call) == []
  {
  }
}
