# Maybe helpers for .NET, modelled in Dafny

The library is a set of C# extension methods in the namespace `System.Monads`
(the current dictionary helpers sit in the namespace `Monads`).
They let a caller chain operations on values that may be null without writing
the null tests. The Dafny project models the helper classes:

- `MaybeObjects`: references.
- `MaybeNullable`: `Nullable<T>`.
- `MaybeIEnumerable`: sequences.
- `MaybeIDictionary`: dictionaries.
- `MaybeItemArray`: indexed lists.
- `ArgumentCheck`: argument guards.
- The first generation of the same classes, under `Monads/`.

Conventions of the model (module `Core`):

- A value that may be null is `Option<T>`, with `None` for null (or for `HasValue == false`).
- Every caller-supplied delegate may throw. It is a function returning `Outcome<R>`, which is `Ok(value)` or `Raise(exception)`. A helper that does not catch returns the delegate's `Raise` unchanged.
- Delegates that return nothing (`Action<…>`) are observed through `Traced`. It records the arguments of every call, in order, next to the helper's outcome.
- `Tuple<T, Exception>` is `Captured(item1, item2)`. The Try helpers that filter exceptions return `Outcome<Captured<T>>`, because they re-raise what they do not keep.
- `default(T)` is an explicit parameter `d`. `throw x` with a null `x` raises `NullReferenceException` (`Core.Thrown`).
- Runtime type tests are parameters. `OfType` takes `cast`, and `IsInstanceOfType` is `isA`.
- Dictionary enumeration order is implementation-defined. It is the parameter `order`, which lists each key once.
- Lazy sequences are modelled as eager ones. A converter that raises while the result is enumerated makes the whole `With` raise.

Where one C# method body serves several overloads, one member models all of them:

- `MaybeSequence.Do` models the non-generic `Do`, the generic `Do` and the `Nullable` element `Do`. In all three the absent elements are skipped. The same holds for `DoIndexed`, `With` and `WithIndexed`.
- `MaybeNullable` delegates to `MaybeObjects` wherever the two classes have the same shape.
- The `Monads/` classes are written out from their own code. Each carries the contract that it equals the current helper of the same name, except where the code differs (`LegacySequence`).

Where the intended behaviour and the code disagree, the model follows the code:

- `At` with a negative index. An index past the end answers the default, and the tests expect that. The code's guard `Count > index` lets a negative index reach the indexer, which raises. See Findings.

## Model

| member | source | states |
|---|---|---|
| MaybeObjects.Do | Src/Monads/Maybe.Objects.cs:14-23 | the action is called once with a present source and never with a null one; the source is returned; the action's raise propagates |
| MaybeObjects.DoElse | Src/Monads/Maybe.Objects.cs:33-41 | exactly one of `action` (present source) or `nullaction` (null source, when supplied) runs; the source is returned |
| MaybeObjects.DoElseWithoutNullActionIsDo | Src/Monads/Maybe.Objects.cs:14-41 | without a null action, `Do(action, nullaction)` has the outcome of `Do(action)` and the same calls |
| MaybeObjects.DoSelectWithoutNullActionIsWith | Src/Monads/Maybe.Objects.cs:51-82 | without a null action, `DoSelect` is `With` whose default is null |
| MaybeObjects.DoSelect | Src/Monads/Maybe.Objects.cs:51-61 | a present source gives the selector's result; a null source runs `nullaction` if supplied and gives null |
| MaybeObjects.With | Src/Monads/Maybe.Objects.cs:71-82 | the converter's result for a present source, `default(TResult)` for a null one, without calling the converter |
| MaybeObjects.Return | Src/Monads/Maybe.Objects.cs:93-104 | the converter's result for a present source, exactly `defaultValue` otherwise |
| MaybeObjects.WithIsReturnOfDefault | Src/Monads/Maybe.Objects.cs:71-104 | `With` is `Return` with `default(TResult)` |
| MaybeObjects.If | Src/Monads/Maybe.Objects.cs:113-124 | the result is present iff the source is present and the condition holds, and then it is the source; a raising condition propagates |
| MaybeObjects.IfNot | Src/Monads/Maybe.Objects.cs:133-144 | the result is present iff the source is present and the condition fails, and then it is the source |
| MaybeObjects.IfIfNotPartition | Src/Monads/Maybe.Objects.cs:113-144 | for a completing condition, exactly one of `If` and `IfNot` keeps a present source, and both give null for a null one |
| MaybeObjects.Recover | Src/Monads/Maybe.Objects.cs:153-157 | a present source is returned without calling the supplier; a null one gives the supplier's outcome |
| MaybeObjects.OfType | Src/Monads/Maybe.Objects.cs:165-175 | the cast value when the source is present and of the type, `default(TResult)` otherwise |
| MaybeObjects.OfTypeOwnType | Src/Monads/Maybe.Objects.cs:165-175 | casting to the source's own type returns the source, or the default when it is null |
| MaybeObjects.TryDo | Src/Monads/Maybe.Objects.cs:186-202 | never raises; the pair always carries the source; the exception slot is set iff the action raised, and holds that exception |
| MaybeObjects.TryDoWhen | Src/Monads/Maybe.Objects.cs:214-237 | a raised exception is kept iff the checker answers true; it is re-raised when the checker answers false; a raise inside the checker propagates in its place |
| MaybeObjects.TryDoOfKinds | Src/Monads/Maybe.Objects.cs:249-272 | a raised exception is kept iff it is an instance of one of the listed kinds, otherwise re-raised |
| MaybeObjects.TryWith | Src/Monads/Maybe.Objects.cs:283-301 | (result, null) when the converter completes; (default, exception) when it raises; (default, null) for a null source |
| MaybeObjects.TryWithWhen | Src/Monads/Maybe.Objects.cs:312-337 | as `TryWith`, with an exception the checker rejects re-raised and a raise inside the checker propagated |
| MaybeObjects.TryWithOfKinds | Src/Monads/Maybe.Objects.cs:348-373 | as `TryWith`, keeping only exceptions of a listed kind |
| MaybeObjects.AcceptAllIsUnfiltered | Src/Monads/Maybe.Objects.cs:214-237 | a checker that accepts every exception makes the filtered Try helpers the unfiltered ones |
| MaybeObjects.Catch | Src/Monads/Maybe.Objects.cs:381-384 | the value slot of the pair, whatever the exception slot holds |
| MaybeObjects.CatchTryDoRoundTrip | Src/Monads/Maybe.Objects.cs:381-384 | `TryDo` then `Catch` gives back the source; `TryDo` makes the same calls as `Do`, and captures nothing exactly when `Do` completes |
| MaybeObjects.CatchTryWithIsWith | Src/Monads/Maybe.Objects.cs:283-301 | `TryWith` then `Catch` is `With` when the converter completes, and the default when it raises |
| MaybeObjects.CatchWith | Src/Monads/Maybe.Objects.cs:392-400 | the handler runs once with the captured exception, and only when there is one; the value slot is returned unless the handler raises, and then its exception propagates |
| MaybeObjects.CatchWithCompletingHandlerIsCatch | Src/Monads/Maybe.Objects.cs:381-400 | with a handler that completes, `Catch(handler)` answers as `Catch()` |
| MaybeObjects.IsNull | Src/Monads/Maybe.Objects.cs:408-412 | true iff the source is null, and always the negation of `IsNotNull` |
| MaybeObjects.IsNotNull | Src/Monads/Maybe.Objects.cs:420-424 | true iff the source is not null |
| MaybeNullable.Do | Src/Monads/Maybe.Nullable.cs:14-23 | the action gets the value when `HasValue`, and is not called otherwise; the nullable is returned; the action's raise propagates |
| MaybeNullable.With | Src/Monads/Maybe.Nullable.cs:33-44 | the converter's result of the value, `default(TResult)` without a value |
| MaybeNullable.Return | Src/Monads/Maybe.Nullable.cs:55-66 | the converter's result of the value, `defaultValue` without a value |
| MaybeNullable.If | Src/Monads/Maybe.Nullable.cs:75-86 | the unwrapped value when present and the condition holds, `default(TSource)` otherwise |
| MaybeNullable.IfNot | Src/Monads/Maybe.Nullable.cs:95-106 | the unwrapped value when present and the condition fails, `default(TSource)` otherwise |
| MaybeNullable.IfConflatesAbsentWithDefault | Src/Monads/Maybe.Nullable.cs:75-106 | the nullable `If` is the reference `If` with the null answer unwrapped to the default, so an absent value and a present default give the same answer |
| MaybeNullable.Recover | Src/Monads/Maybe.Nullable.cs:115-119 | the value when present, otherwise the supplier's outcome |
| MaybeNullable.RecoverIsReturnOfIdentity | Src/Monads/Maybe.Nullable.cs:115-119 | with a completing supplier, `Recover` is `Return` of the identity with the supplier's value as default |
| MaybeNullable.TryDo | Src/Monads/Maybe.Nullable.cs:130-146 | the pair carries the original nullable; the exception slot is the action's failure |
| MaybeNullable.TryDoWhen | Src/Monads/Maybe.Nullable.cs:158-181 | keeps the exceptions the checker approves, re-raises those it rejects, and propagates a raise inside the checker |
| MaybeNullable.TryDoOfKinds | Src/Monads/Maybe.Nullable.cs:193-216 | keeps the exceptions of a listed kind, re-raises the rest |
| MaybeNullable.TryWith | Src/Monads/Maybe.Nullable.cs:227-245 | (result, null), (default, exception) or (default, null) as the converter completes, raises, or is not called |
| MaybeNullable.TryWithWhen | Src/Monads/Maybe.Nullable.cs:256-281 | as `TryWith`, re-raising what the checker rejects and propagating a raise inside the checker |
| MaybeNullable.TryWithOfKinds | Src/Monads/Maybe.Nullable.cs:292-317 | as `TryWith`, keeping only exceptions of a listed kind |
| MaybeNullable.IsNull | Src/Monads/Maybe.Nullable.cs:325-329 | true iff there is no value, the negation of `IsNotNull` |
| MaybeNullable.IsNotNull | Src/Monads/Maybe.Nullable.cs:337-341 | true iff there is a value |
| MaybeSequence.DoResult | Src/Monads/Maybe.IEnumerable.cs:38-53 | a completed walk has called the action on exactly the non-null elements in order; the walk completes iff the action completes on each of them; a raise stops the walk at the first element that raised: every earlier call completed |
| MaybeSequence.Do | Src/Monads/Maybe.IEnumerable.cs:38-53 | the loop over the elements, skipping nulls, computes the walk `DoResult` describes |
| MaybeSequence.NumberedCompletes | Src/Monads/Maybe.IEnumerable.cs:62-79 | the indexed walk completes iff the action completes on every non-null element at its position |
| MaybeSequence.DoIndexedResult | Src/Monads/Maybe.IEnumerable.cs:62-79 | each call's position holds that element; the walk completes iff the action completes on every non-null element at its position, and then it has called it with each of them in order; a raise stops the walk at the first call that raised: every earlier call completed |
| MaybeSequence.DoIndexed | Src/Monads/Maybe.IEnumerable.cs:62-79 | the loop with the counter `iter`, counting null elements too, computes the walk `DoIndexedResult` describes |
| MaybeSequence.NumberedPositions | Src/Monads/Maybe.IEnumerable.cs:62-79 | the positions passed to the indexed action are the elements' own positions, strictly increasing, and no non-null element is missed |
| MaybeSequence.With | Src/Monads/Maybe.IEnumerable.cs:89-106 | one output per element, the converter's result for a non-null element and `default(TResult)` for a null one; a null sequence gives an empty one; a raise is the first raising element's |
| MaybeSequence.WithIndexed | Src/Monads/Maybe.IEnumerable.cs:116-135 | as `With`, the converter also receiving the element's position, counted over null elements too; a raise is the first raising element's |
| MaybeSequence.WithIndexedIgnoringPositionIsWith | Src/Monads/Maybe.IEnumerable.cs:89-135 | the indexed `With` with a converter that ignores the position is the plain `With` |
| MaybeDictionary.Do | Src/Monads/Maybe.IDictionary.cs:18-29 | each call is an entry of the dictionary, no key twice; the walk completes iff the action completes on every entry, and then it has called it on every entry; a raise stops the walk at the entry that raised |
| MaybeDictionary.DoStopsAtFirstRaise | Src/Monads/Maybe.IDictionary.cs:22-25 | the walk follows the enumeration order, and every call before the last one completed, so a raise comes from the first entry whose action raised |
| MaybeDictionary.EnumerationLength | Src/Monads/Maybe.IDictionary.cs:22-25 | an enumeration of the dictionary visits as many keys as the dictionary has |
| MaybeDictionary.With | Src/Monads/Maybe.IDictionary.cs:39-52 | the value stored under the key, `default(TValue)` for a null dictionary or a missing key |
| MaybeDictionary.Return | Src/Monads/Maybe.IDictionary.cs:63-76 | the value stored under the key, `defaultValue` otherwise |
| MaybeDictionary.WithIsReturnOfDefault | Src/Monads/Maybe.IDictionary.cs:39-76 | `With` is `Return` with `default(TValue)`; for a present key the default does not matter |
| ItemArray.At | Src/Monads/Maybe.ItemArray.cs:35-43 | the element at a valid index; the default for a null list or an index at or past the end; a raise, always index-out-of-range, exactly for a negative index into a present list, the empty one included |
| ItemArray.AtUntyped | Src/Monads/Maybe.ItemArray.cs:16-25 | the same for the non-generic overload, with null as the answer for no element; its raise is index-out-of-range too |
| ItemArray.UntypedIsGenericOfNull | Src/Monads/Maybe.ItemArray.cs:16-43 | the two overloads agree |
| ItemArray.AtRaisesOnEveryNegativeIndex | Src/Monads/Maybe.ItemArray.cs:37-39 | every negative index into a present list, the empty one included, raises |
| ItemArray.AtOrDefault | Src/Monads/Maybe.ItemArray.cs:35-43 | the corrected lookup: the element at a valid index and the default for every other index, never raising |
| ItemArray.AtOrDefaultAgreesWhereAtCompletes | Src/Monads/Maybe.ItemArray.cs:35-43 | the corrected lookup answers as `At` wherever `At` completes, in particular at every non-negative index |
| ArgumentCheck.CheckNull | Src/Monads/ArgumentCheck.cs:12-21 | the source when it is not null; ArgumentNullException naming the argument otherwise |
| ArgumentCheck.CheckNullBy | Src/Monads/ArgumentCheck.cs:30-39 | the source when it is not null; otherwise the factory's exception, NullReferenceException when the factory returns null |
| ArgumentCheck.CheckNullByOfArgumentNullIsCheckNull | Src/Monads/ArgumentCheck.cs:12-39 | `CheckNull` with a factory of ArgumentNullException is `CheckNull` with the argument name |
| ArgumentCheck.CheckNullWithDefault | Src/Monads/ArgumentCheck.cs:48-57 | the source when it is not null, the default otherwise |
| ArgumentCheck.CheckNullWithDefaultIsRecover | Src/Monads/ArgumentCheck.cs:48-57 | defaulting a null source is `Recover` with a supplier of the default |
| ArgumentCheck.Check | Src/Monads/ArgumentCheck.cs:67-75 | the source is returned iff the condition holds; otherwise the factory's exception for that source |
| ArgumentCheck.CheckNullIsCheckOfPresence | Src/Monads/ArgumentCheck.cs:12-21 | `CheckNull` is `Check` with the condition "not null" and ArgumentNullException as factory |
| ArgumentCheck.CheckWithDefault | Src/Monads/ArgumentCheck.cs:85-93 | the source when the condition holds, the default when it fails |
| ArgumentCheck.CheckWithDefaultReplacesTheRaise | Src/Monads/ArgumentCheck.cs:85-93 | `CheckWithDefault` answers the default exactly where `Check` raises for a failed condition, and agrees with `Check` elsewhere |
| LegacyObjects.Do | Monads/Maybe.Objects.cs:7-16 | the older `Do` behaves as the current one |
| LegacyObjects.With | Monads/Maybe.Objects.cs:18-29 | the older `With` behaves as the current one |
| LegacyObjects.Return | Monads/Maybe.Objects.cs:31-42 | the older `Return` behaves as the current one |
| LegacyObjects.If | Monads/Maybe.Objects.cs:44-55 | the older `If` behaves as the current one |
| LegacyObjects.IfNot | Monads/Maybe.Objects.cs:57-68 | the older `IfNot` behaves as the current one |
| LegacyObjects.Recover | Monads/Maybe.Objects.cs:70-74 | the older `Recover` behaves as the current one |
| LegacyObjects.OfType | Monads/Maybe.Objects.cs:76-86 | the older `OfType` behaves as the current one |
| LegacyObjects.TryDo | Monads/Maybe.Objects.cs:88-104 | the older `TryDo` behaves as the current one |
| LegacyObjects.TryDoWhen | Monads/Maybe.Objects.cs:106-129 | the older `TryDo` with a checker behaves as the current one |
| LegacyObjects.TryDoOfKinds | Monads/Maybe.Objects.cs:131-154 | the older `TryDo` with kinds behaves as the current one |
| LegacyObjects.TryWith | Monads/Maybe.Objects.cs:157-175 | the older `TryWith` behaves as the current one |
| LegacyObjects.TryWithWhen | Monads/Maybe.Objects.cs:178-203 | the older `TryWith` with a checker behaves as the current one |
| LegacyObjects.TryWithOfKinds | Monads/Maybe.Objects.cs:205-230 | the older `TryWith` with kinds behaves as the current one |
| LegacyObjects.Catch | Monads/Maybe.Objects.cs:232-235 | the older `Catch` behaves as the current one |
| LegacyObjects.CatchWith | Monads/Maybe.Objects.cs:237-245 | the older `Catch` with a handler behaves as the current one |
| LegacyObjects.Any | Monads/Maybe.Objects.cs:247-251 | `Any` is the current `IsNotNull`, the negation of `IsNull` |
| LegacySequence.Do | Monads/Maybe.IEnumerable.cs:35-46 | the action is called on every element, nulls included; the walk completes iff every call completes, and a raise stops it at the first raising element, every earlier call having completed |
| LegacySequence.With | Monads/Maybe.IEnumerable.cs:56-66 | one output per element, nulls included; null for a null sequence; a raise is the first raising element's |
| LegacySequence.RunAllNullFree | Monads/Maybe.IEnumerable.cs:35-46 | without null elements, walking every element and walking the non-null ones make the same calls with the same outcome |
| LegacySequence.DoAgreesOnNullFreeSequences | Monads/Maybe.IEnumerable.cs:15-26 | on a sequence without nulls the older `Do` is the current one |
| LegacySequence.NullElementsReachTheOlderAction | Monads/Maybe.IEnumerable.cs:19-22 | a null element reaches the older action, while the current `Do` skips it |
| LegacySequence.WithAgreesOnNullFreeSequences | Monads/Maybe.IEnumerable.cs:56-66 | on a sequence without nulls the older `With` is the current one; on a null sequence the older gives null and the current an empty sequence |
| LegacyDictionary.Do | Monads/Maybe.IDictionary.cs:10-21 | the older `Do` behaves as the current one |
| LegacyDictionary.With | Monads/Maybe.IDictionary.cs:23-36 | the older `With` behaves as the current one |
| LegacyDictionary.Return | Monads/Maybe.IDictionary.cs:38-51 | the older `Return` behaves as the current one |
| LegacyArgumentCheck.CheckNull | Monads/ArgumentCheck.cs:5-14 | the older `CheckNull` behaves as the current one |
| LegacyArgumentCheck.CheckNullBy | Monads/ArgumentCheck.cs:16-25 | the older `CheckNull` with a factory behaves as the current one |
| LegacyArgumentCheck.CheckNullWithDefault | Monads/ArgumentCheck.cs:27-36 | the older `CheckNullWithDefault` behaves as the current one |
| LegacyArgumentCheck.Check | Monads/ArgumentCheck.cs:38-46 | the older `Check` behaves as the current one |
| LegacyArgumentCheck.CheckWithDefault | Monads/ArgumentCheck.cs:48-56 | the older `CheckWithDefault` behaves as the current one |

## Left out

- `Actions.cs` and `Events.cs`: null-checked invocation of delegates and events. Their only effect is the callback's own side effect, so they have no value-level behaviour to state.
- Laziness. The sequence `With` helpers are iterators, so their converter runs only when the result is enumerated, and again on every enumeration. The model converts once and eagerly. A raise mid-enumeration is modelled as the whole `With` raising, and the outputs produced before the raise are not modelled.
- MaybeSequence.DoIndexed: positions are unbounded integers; the source's `int iter` (Src/Monads/Maybe.IEnumerable.cs:67-70, 173-176) would wrap past 2^31 - 1 elements.
- MaybeSequence.WithIndexed: positions are unbounded integers; the source's `int iter` (Src/Monads/Maybe.IEnumerable.cs:121-124, 227-230) would wrap past 2^31 - 1 elements.
- Null delegates. A null `action`, `condition` or `exceptionChecker` raises NullReferenceException when it is called. Delegates are total functions here.
- A null `params Type[]` array, or a null entry in it, raises inside the catch clause. Kinds are a plain sequence here.
- A null `argumentName` in `CheckNull`: names are strings.
- A null dictionary key raises in `TryGetValue`. Keys are ordinary values here.
- Changes to a dictionary during `Do`.
- A null tuple passed to `Catch()` or `Catch(handler)` raises NullReferenceException (Src/Monads/Maybe.Objects.cs:383, 394). `Captured` is a value and is never null here.
- Stack traces. `throw ex` in the filtered Try helpers resets the stack trace. Only the exception value is modelled.
- The runtime type system. `is`, casts and `IsInstanceOfType` are the parameters `cast` and `isA`.

## Findings

| source | as written | input that shows it | evidently intended | confidence | as-written member | corrected member |
|---|---|---|---|---|---|---|
| Src/Monads/Maybe.ItemArray.cs:37 | the guard `source != null && source.Count > index` admits every negative index, and `source[index]` then raises | `new[] { "One" }.At<string>(-1)` | out-of-range indexes on either side answer `default(TSource)`, as the index-5 test case expects for the upper side | medium, not executed | ItemArray.At, ItemArray.AtRaisesOnEveryNegativeIndex | ItemArray.AtOrDefault, ItemArray.AtOrDefaultAgreesWhereAtCompletes |
