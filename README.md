# toolbox utilities in Dafny

This project models the synchronous utility layer of the `toolbox` module (`index.js`):

- integer validation: `isInteger` and `getInteger`;
- the resolution of optional arguments: `handleOptionalArgs`;
- property merging: `setProperty` and `merge`;
- the math helpers: `factorial`, `sum` and `mult`;
- the four sequence helpers: `enumeration`, `sequenceOf`, `subSequence` and `mappedSequence`.

The files:

- `js_values.dfy` (module `JsValues`): the JavaScript values these functions tell apart, and the coercions they rely on. These are `typeof`, truthiness, `Number(v)` and `parseInt(v)`.
- `integers.dfy` (module `Integers`): `getInteger` as a function from the argument list to a completion, which either returns a value or throws a `TypeError` or `RangeError` with its message. The body is written once, with the test of `isInteger` and the reading of the accepted value as parameters. It is instantiated three times: corrected (`isInteger`'s test with its `return` restored, and the value read as the integer it denotes); with `isInteger`'s `return` put back but the value still read with `parseInt`; and as written, where `isInteger` returns nothing. Both differences are findings.
- `optional_args.dfy` (module `OptionalArgs`): `handleOptionalArgs` as a method. It consumes two arrays in place with `shift()`, while a cursor walks the caller's arguments. A recursive `Resolve` specifies the result. The case where the caller passes the same array twice has its own specification, `ResolveShared`.
- `objects.dfy` (module `Objects`): objects are a class with an insertion-ordered property list. `SetProperty` and `Merge` are methods that update that list in place. They are specified by the pure functions `Put` and `MergeAll`. A source that is the target itself is recognised, and its entries are then the ones merged so far. An object's keys are unique (`JsObject.Valid`), and both methods keep them so.
- `math_ext.dfy` (module `MathExt`): `sum` and `mult` as left folds seeded with the first element. They are proved equal to the ordinary sum and product. `factorial` is built on `getInteger`, and its recursion `f` is proved to be the product of `1 .. n`.
- `sequences.dfy` (module `Sequences`): a sequence fact shared by the loop proofs.
- `generators.dfy` (module `Generators`): each generator is modelled by the finite sequence it yields. `enumeration` is a method with the two loops of the source. The hand-written iterables of `subSequence` and `mappedSequence` are classes whose `Next` is the iterator's `next()`. Each has a `Collect` that drains it, and `Collect` is proved to yield the specified sequence.

Where the documentation and the code disagree, the model follows the code:

- `isInteger` as written returns `undefined`. Its test with the `return` restored is modelled as well, and the discrepancy is a finding. That test uses loose `==`, so it accepts booleans and numeric strings, although the comments call for "strictly" an integer; the model follows the test.
- `getInteger` reads an accepted value with `parseInt`, which does not always give the integer the value denotes. The "integer corresponding to the value" of its comment is modelled as well, and the discrepancy is a finding.
- The comment on `sequenceOf` says it skips undefined items. The code's `if (item)` drops every falsy item: `undefined`, `null`, `false`, `0`, `NaN` and `""`. `Generators.SequenceOfMembers` states the code's behaviour.

## Model

| member | source | states |
|---|---|---|
| JsValues.TypeOf | index.js:24 | `typeof` gives "object" exactly for null, arrays and objects |
| JsValues.Truthy | index.js:192 | a truthy value is neither null nor undefined; a number is truthy exactly when it is neither 0 nor NaN |
| JsValues.ToNumber | index.js:56 | `Number(v)` of a number is itself; only a number can be infinite; booleans and null give integral numbers |
| JsValues.ParseInt | index.js:38 | `parseInt` never gives an infinity, and a finite result is always integral |
| Integers.IsInteger | index.js:50-54 | a value passes exactly when it is neither null nor undefined and converts to a finite integral number |
| Integers.IsIntegerAsWritten | index.js:55-57 | as written, `isInteger` gives a falsy result for every value |
| Integers.GetIntegerUsing | index.js:20-48 | an undefined value never throws; anything else that returns passed the test and is the value read as a number; a `RangeError` means a validator was given and rejected that number |
| Integers.GetInteger | index.js:7-19 | whatever the corrected `getInteger` returns is undefined or a finite integral number |
| Integers.GetIntegerParsing | index.js:38 | with the value read by `parseInt`, a defined result is a number that is never infinite, and integral when finite |
| Integers.GetIntegerAsWritten | index.js:55-57 | as written, `getInteger` can only return undefined |
| Integers.IsIntegerOnNumbers | index.js:50-57 | a number is an integer exactly when it is finite and equal to its floor; NaN and the infinities are not |
| Integers.IsIntegerQuirks | index.js:56 | with loose equality, `null` and `undefined` are not integers, but both booleans are |
| Integers.ParseIntOfIntegralString | index.js:38 | for a numeric string that passes `isInteger`, `parseInt` reads the number the string denotes: any fraction is all zeros |
| Integers.ParseIntOfIntegralValue | index.js:38 | `parseInt` of a number or string that passes `isInteger` is its numeric value |
| Integers.GetIntegerOfUndefined | index.js:21-29 | however the accepted value is read, an undefined value never throws; the result is the last argument when that is an integral number, otherwise undefined |
| Integers.GetIntegerTypeError | index.js:30-37 | however the accepted value is read, a defined value throws `TypeError` exactly when it is not an integer; the message is a string second argument when one is given, else "… is not an integer" |
| Integers.GetIntegerRangeError | index.js:38-46 | however the accepted value is read, `RangeError` is thrown exactly when an integer fails a validator given as the second argument; the message is a string third argument, else "… is not a valid value" |
| Integers.GetIntegerReturnsInteger | index.js:7-19 | a number or numeric string that gets through comes back as the integral number it denotes |
| Integers.GetIntegerParsingAgrees | index.js:38 | for a string this model's `Number` reads, or a number below 1e21 in magnitude, reading the accepted value with `parseInt` gives what the corrected `getInteger` gives |
| Integers.ThresholdIsIntegerReadAsOne | index.js:38 | 1e21 is an integer, but `parseInt` reads it as 1 |
| Integers.GetIntegerParsingMisreads | index.js:38 | with `parseInt`, `getInteger(1e21)` returns 1 instead of 1e21; `getInteger(true)`, which the loose test lets through, returns NaN under `parseInt` and 1 under `Number` |
| Integers.GetIntegerAsWrittenRejectsAll | index.js:55-57 | as written, every defined value throws `TypeError` and an undefined value gives undefined, whatever the other arguments |
| Integers.GetIntegerAsWrittenRejectsFive | index.js:55-57 | `getInteger(5)` returns 5 with `isInteger`'s `return` restored, but throws "5 is not an integer" as written |
| OptionalArgs.JsArray.Shift | index.js:71-72 | `shift()` removes and returns the first element; on an empty array it returns undefined and changes nothing |
| OptionalArgs.Entry | index.js:73-79 | the entry is the default, or the argument itself when its type matches and it is not null or undefined; such an argument is always taken |
| OptionalArgs.Advances | index.js:73-79 | when the cursor does not advance, the entry is the default |
| OptionalArgs.Step | index.js:75-78 | the cursor moves by one exactly when it advances past the argument, and otherwise stays |
| OptionalArgs.Resolve | index.js:69-80 | there is one result entry per declared type |
| OptionalArgs.ResolveShared | index.js:69-80 | when types and defaults are one array, there is one entry per pair of shifts |
| OptionalArgs.HandleOptionalArgs | index.js:66-82 | the types array ends empty; the result is `Resolve` of the arguments, types and defaults; the defaults lose one leading entry per type; when both arrays are the same object, the result is `ResolveShared` |
| OptionalArgs.ResolveAt | index.js:70-79 | entry k is the argument under the cursor if its `typeof` matches the k-th type and it is not null or undefined, else the k-th default; the cursor advances exactly on a match or on a null or undefined argument |
| OptionalArgs.CursorBound | index.js:73-79 | the cursor moves by at most one argument per declared type |
| OptionalArgs.ResolveWellTyped | index.js:73-75 | arguments that all have their declared types and are not null come back unchanged |
| OptionalArgs.ResolveNoArgs | index.js:70-79 | with no arguments every entry is its default, or undefined past the last default |
| OptionalArgs.ResolveSkipsMismatch | test/commons_test.js:42-74 | `blabla(4)` with types string, object, number: the first two slots take their defaults and the number slot takes 4 |
| Objects.Assign | index.js:100 | a write keeps every existing key at its position and adds at most one; writing an existing key adds none |
| Objects.Put | index.js:94-103 | what `setProperty` does to the properties keeps every existing key at its position |
| Objects.PutEntries | index.js:119-121 | setting one source's entries keeps every existing key at its position |
| Objects.MergeAll | index.js:115-124 | merging keeps every key of the target at its position |
| Objects.SetProperty | index.js:94-103 | a null or undefined target becomes a fresh empty object; the property is written unless key or value is null or undefined, after calling a function key or value; the target is returned, still with unique keys |
| Objects.Merge | index.js:115-124 | the target, or a fresh object for a null one, ends holding `MergeAll` of its old properties and the sources as the loop sees them (null ones skipped, the target itself seen as its current properties), still with unique keys |
| Objects.MergeInto | index.js:117-122 | the outer loop turns the target's properties into `MergeAll` of them and the sources as seen on entry |
| Objects.MergeSource | index.js:118-121 | one turn of the outer loop overlays one source, or skips a null one |
| Objects.SetEntries | index.js:119-121 | the inner loop turns the target's properties into `PutEntries` of them and the source's entries, keeping keys unique |
| Objects.GetAssign | index.js:100 | after `target[key] = value`, the key reads the new value and every other key reads what it did before |
| Objects.KeysAssign | index.js:100 | a write keeps insertion order: an existing key stays in place and a new key is appended |
| Objects.AssignExisting | index.js:100 | writing the value a key already holds changes nothing |
| Objects.AssignKeepsUnique | index.js:100 | a write keeps property keys unique |
| Objects.GetPutEntries | index.js:119-121 | after one source's entries, a key holds what the source's last entry for it stores (raw key and value not null, function keys and values called), else its previous value |
| Objects.GetMergeAll | index.js:105-124 | after merge, a key holds what the last source that sets it stores, else the target's own value |
| Objects.MergeNeverWritesNullish | index.js:105-110 | for sources without functions, merge never writes null or undefined: a key whose value changes ends holding a value that is neither |
| Objects.MergeStoresWhatAFunctionReturns | index.js:96-100 | a function value is called after the null check, so a function returning undefined is stored as undefined |
| Objects.PutEntriesExisting | index.js:119-121 | entries whose keys already hold exactly what the entries store (after calling functions) leave the target unchanged |
| Objects.MergeIntoItself | index.js:117-122 | merging an object with unique keys and no functions into itself leaves it unchanged |
| Objects.MergeKeepsValueOverNull | test/commons_test.js:80-86 | merging `{a:1,b:2,c:3}` and then `{a:4,b:null,c:6}` into `{}` gives `{a:4,b:2,c:6}` |
| Objects.MergeOfNothing | test/commons_test.js:93 | `merge(null, null)` is a fresh empty object |
| MathExt.Sum | index.js:151-154 | `sum` is undefined exactly for a missing, non-array or empty argument; a one-element array gives its element |
| MathExt.Mult | index.js:161-164 | `mult` is undefined exactly for a missing, non-array or empty argument; a one-element array gives its element |
| MathExt.FoldAdd | index.js:153 | `reduce` with `+` from an accumulator is the accumulator plus the sum of the rest |
| MathExt.FoldTimes | index.js:163 | `reduce` with `*` from an accumulator is the accumulator times the product of the rest |
| MathExt.SumIsTotal | index.js:151-154 | `sum` is undefined exactly for a missing, non-array or empty argument, and otherwise equals the sum of the elements |
| MathExt.MultIsProduct | index.js:161-164 | `mult` is undefined exactly for a missing, non-array or empty argument, and otherwise equals the product of the elements |
| MathExt.SingleElement | index.js:151-164 | a one-element array gives its element back, from `sum` and from `mult` |
| MathExt.TestScriptValues | test/math_ext_test.js:21-29 | `sum([1,2,3,4])` is 10 and `mult([1,2,3,4])` is 24; `sum([])` and `mult()` are undefined |
| MathExt.Fact | index.js:140 | `f(n)` is at least 1 and at least n |
| MathExt.FactorialUsing | index.js:136-144 | factorial throws only what `getInteger` throws; otherwise it returns Infinity or an integral number of at least 1 |
| MathExt.Factorial | index.js:129-137 | factorial throws exactly when its argument is defined and is not a non-negative integer |
| MathExt.FactorialOfHugeNumber | index.js:136-144 | factorial(1e21) is Infinity; with the value read by `parseInt`, it is 1 |
| MathExt.FactIsProductOfRange | index.js:140 | the recursion `f(n)` is the product of `1 .. n`, which is also what `mult` of `enumeration(1, n)` gives |
| MathExt.FactorialOfNatural | index.js:136-144 | factorial of an integer from 0 to 170 is n!; above 170 it is Infinity |
| MathExt.FactorialOfNegative | index.js:136-137 | a negative integer throws `RangeError` with factorial's own message |
| MathExt.FactorialAsWrittenRejectsAll | index.js:137 | as written, factorial throws `TypeError` for every defined argument; `factorial()` is 1 either way |
| Generators.Range | index.js:173-183 | the enumeration has `abs(end - start) + 1` elements, and element i is `start + i` (ascending) or `start - i` (descending) |
| Generators.Enumeration | index.js:173-183 | the two loops yield `Range(start, end)`, with `start` defaulting to 0 and `end` to `start` |
| Generators.RangeMembers | index.js:166-183 | exactly the integers between the two bounds, inclusive, are yielded |
| Generators.RangeSwapped | index.js:166-183 | swapping the bounds yields the same integers in the opposite order |
| Generators.Flat | index.js:192 | every non-array item is kept by `items.flat()` |
| Generators.SequenceOf | index.js:191-193 | everything `sequenceOf` yields is truthy |
| Generators.KeepTruthy | index.js:192 | everything `sequenceOf` yields is truthy |
| Generators.FlatMembers | index.js:192 | `items.flat()` holds exactly the non-array items and the elements of the array items |
| Generators.SequenceOfMembers | index.js:185-193 | a value is yielded exactly when it is truthy and is an item or an element of an array item |
| Generators.SequenceOfAppend | index.js:191-193 | items are yielded in order: the output for `a ++ b` is the output for `a` followed by the output for `b` |
| Generators.SequenceOfPlainItems | index.js:191-193 | truthy non-array items come through unchanged |
| Generators.SubSequence | index.js:202-227 | a sub-sequence is no longer than the sequence, and yields only its elements |
| Generators.Window | index.js:207-225 | the window has the elements from position `max(start, 0)` onwards, at most `max(length, 0)` of them, cut short where the sequence ends |
| Generators.SubSequenceIsWindow | index.js:202-204 | on a finite sequence, the shortcut for default arguments gives the same elements as the iterator |
| Generators.WindowOfWindow | index.js:195-227 | a sub-sequence of a sub-sequence is a sub-sequence of the original |
| Generators.SubSequenceIterator.constructor | index.js:209-210 | a fresh iterator will yield the window `(start, length)` of the sequence |
| Generators.SubSequenceIterator.Advance | index.js:216 | the wrapped iterator yields the next element, or is done at the end |
| Generators.SubSequenceIterator.Next | index.js:213-223 | `next()` yields the first remaining element of the window and drops it, or is done when none remain |
| Generators.SubSequenceIterator.Collect | index.js:207-225 | draining the iterator yields exactly the elements that remained |
| Generators.SubSequenceElements | index.js:202-227 | spreading `subSequence(s, start, length)` gives `SubSequence(s, start, length)` |
| Generators.Mapped | index.js:252 | the mapped sequence is as long as the source |
| Generators.MappedSequence | index.js:238-258 | the mapped sequence is as long as the sequence, and element i is the callback applied to element i and i |
| Generators.MappedIterator.constructor | index.js:245-246 | a fresh iterator will yield every element mapped with its index |
| Generators.MappedIterator.Next | index.js:249-254 | `next()` yields the next element, mapped with its running index, or is done |
| Generators.MappedIterator.Collect | index.js:243-256 | draining the iterator yields exactly the mapped elements that remained |
| Generators.MappedSequenceElements | index.js:238-258 | spreading `mappedSequence(s, f)` gives `s` when `f` is undefined, else each element mapped with its index |
| Generators.MappedWindow | index.js:246-252 | the callback's index counts produced elements: a mapped sub-sequence numbers its elements from 0 |

## Left out

- `DeferredPromise`, `Barrier` and `PromiseSynch` (the asynchronous classes of `index.js`) are not part of this model, because they depend on promise scheduling. Neither `Barrier.resolve`'s missing upper-bound check on the index nor the `Barrier` constructor's acceptance of non-integral lengths is modelled.
- Numbers are exact reals, not IEEE doubles. Rounding and `-0` are not modelled. Of a number of magnitude 1e21 or more, `parseInt` reads the leading digit of its exponent form; numbers that JavaScript prints with a negative exponent (below 1e-6) are read as their integer part.
- String-to-number conversion accepts only an optional sign, digits and an optional fraction. The empty string (which JavaScript reads as 0), surrounding whitespace, hexadecimal, exponents and `"Infinity"` all read as NaN here.
- Arrays are not coerced through their string form, so `[5]` is not an integer here.
- `parseInt` reads the leading digits of a string. Of other values it reads only a finite number. It does not read the string form of objects or booleans.
- Property keys are stored as values, without `String(key)`, so the key `1` and the key `"1"` are distinct here.
- `Object.entries` lists integer-like keys first; here the order is insertion order throughout.
- A function-valued key or value is evaluated through the `call` parameter. Side effects of calling it are left out.
- A `setProperty` or `merge` target that is a primitive (which throws in strict mode) is left out. A target is an object, null or undefined.
- `merge` sources that are primitives or arrays are not modelled. A source is an object, null or undefined.
- `sum` and `mult` are over integers only. Floating point and the string concatenation that `+` performs on strings are left out, and a non-array argument is folded into `None`.
- MathExt.FactorialOfNatural: states exact integers. JavaScript's doubles round n! above 22!, and the factorial cache (which only stores what `f` computes) is not modelled.
- Generators and iterables are modelled by finite sequences. Laziness, infinite sequences, iterables that are not sequences, and `return`/`throw` on iterators are left out.
- `enumeration` and `subSequence` bounds are integers. Fractional or non-numeric bounds are left out.
- A `mappedSequence` callback that is neither undefined nor a function (which would throw on the first `next()`) is left out. The callback is modelled as a pure function.
- Integers.IsInteger: follows the code's test, whose loose `==` accepts `true`, `false` and integral numeric strings such as `"5"`. The comments' "strictly a finite integer" (index.js:51) and "not strictly an integer" (index.js:17) would reject them with `TypeError`; the model does not promise that.
- Integers.ParseIntOfIntegralString: holds for the strings this model's `Number` reads. In JavaScript `"2e1"`, `"0b11"`, `""`, `" "` and `".0"` pass `isInteger` too, and `parseInt` reads them as 2, 0, NaN, NaN and NaN, not 20, 3, 0, 0 and 0. Here those strings read as NaN and fail `isInteger`.
- Integers.ParseIntOfIntegralValue: requires a string or a number below 1e21 in magnitude, because `parseInt` reads only the first digit of a larger number (see `Integers.GetIntegerParsingMisreads`). It inherits the string gap of `ParseIntOfIntegralString`.
- Integers.GetIntegerReturnsInteger: states the corrected `getInteger`, which reads the value with `Number`. The code reads it with `parseInt` and differs on booleans, on numbers of 1e21 or more, and on the strings listed for `ParseIntOfIntegralString` (see Findings).
- Integers.GetIntegerParsingAgrees: excludes numbers of 1e21 or more in magnitude and booleans, where `parseInt` and the corrected result differ. Like `Integers.ParseIntOfIntegralValue`, it also inherits the string gap of `Integers.ParseIntOfIntegralString`: on `"2e1"`, `"0b11"`, `""`, `" "` and `".0"` JavaScript's `parseInt` and `Number` disagree, but here both versions throw `TypeError` on them.
- Objects.MergeNeverWritesNullish: holds only for sources without function keys or values, because a function is called after the null check and what it returns is stored, undefined included (see `Objects.MergeStoresWhatAFunctionReturns`).
- Objects.MergeIntoItself: holds only for objects without function keys or values, because merging calls each function again and stores its result.
- Objects.GetMergeAll: requires that no source is the target itself. Only `merge(t, t)` alone is covered, by `Objects.MergeIntoItself`, for data-only values with unique keys. A target that appears among other sources, as in `merge(t, a, t)`, has no lemma of its own; `Objects.Merge` still specifies it through `MergeAll`.
- `getInteger`'s validator is a pure function of the parsed number. What it does when called with a non-number is not modelled.

## Findings

| source | as written | input that shows it | evidently intended | confidence | as-written member | corrected member |
|---|---|---|---|---|---|---|
| index.js:55-57 | `isInteger` evaluates `isFinite(value) && Math.floor(value) == value` as a statement and has no `return`, so it always returns undefined; `getInteger` and `factorial` therefore throw `TypeError` for every defined argument | `getInteger(5)` throws "5 is not an integer"; `factorial(5)` throws the same | return the test's value, so that `getInteger(5)` is 5 and `factorial(5)` is 120 | not executed | Integers.GetIntegerAsWrittenRejectsFive | Integers.GetIntegerReturnsInteger |
| index.js:38 | `getInteger` returns `parseInt(value)`, which reads the value's string form, of which it takes only the first digit when a number is written in exponent form | with the `return` of `isInteger` put back, `getInteger(1e21)` returns 1, though 1e21 is an integer; `factorial(1e21)` gives 1 instead of Infinity | return the integer the value denotes (`Number(value)`), as the comment "Return the integer corresponding to the value" says | not executed | Integers.GetIntegerParsingMisreads | Integers.GetIntegerReturnsInteger |
