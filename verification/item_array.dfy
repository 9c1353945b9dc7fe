/**
 The list indexer helper (`MaybeItemArray`).

 A list is `Option<seq<T>>`. `At(index)` guards the indexer with
 `source.Count > index` only, so a negative index passes the guard and the
 indexer itself raises; `OutOfRange` stands for the exception it raises.
 */
module ItemArray {
  import opened Core

  /** `At<TSource>(index)`: the element at `index`; `default(TSource)` when the
      list is null or not longer than `index`; a raise for every negative index
      into a present list, the empty one included. */
  function At<T>(source: Option<seq<T>>, index: int, d: T): (r: Outcome<T>)
    ensures source.None? ==> r == Ok(d)
    ensures source.Some? && 0 <= index < |source.value| ==> r == Ok(source.value[index])
    ensures source.Some? && index >= |source.value| ==> r == Ok(d)
    ensures r.Raise? <==> source.Some? && index < 0
    ensures r.Raise? ==> r.error == OutOfRange
  {
    if source.Some? && |source.value| > index then
      if index < 0 then Raise(OutOfRange) else Ok(source.value[index])
    else Ok(d)
  }

  /** The non-generic `At(index)` on an untyped list: elements are objects that
      may be null, and the absent answer is null. */
  function AtUntyped<T>(source: Option<seq<Option<T>>>, index: int): (r: Outcome<Option<T>>)
    ensures source.None? ==> r == Ok(None)
    ensures source.Some? && 0 <= index < |source.value| ==> r == Ok(source.value[index])
    ensures source.Some? && index >= |source.value| ==> r == Ok(None)
    ensures r.Raise? <==> source.Some? && index < 0
    ensures r.Raise? ==> r.error == OutOfRange
  {
    if source.Some? && |source.value| > index then
      if index < 0 then Raise(OutOfRange) else Ok(source.value[index])
    else Ok(None)
  }

  /** The two overloads agree: the untyped one is the generic one over elements
      that may be null, with null as the default. */
  lemma UntypedIsGenericOfNull<T>(source: Option<seq<Option<T>>>, index: int)
    ensures AtUntyped(source, index) == At(source, index, None)
  {
  }

  /** Every negative index into a present list, even an empty one, raises
      instead of answering the default. */
  lemma AtRaisesOnEveryNegativeIndex<T>(xs: seq<T>, index: int, d: T)
    requires index < 0
    ensures At(Some(xs), index, d) == Raise(OutOfRange)
  {
  }

  /** `At` with the bound checked on both sides: the element when `index` is a
      position of the list, `default(TSource)` otherwise; it never raises. */
  function AtOrDefault<T>(source: Option<seq<T>>, index: int, d: T): (r: T)
    ensures source.Some? && 0 <= index < |source.value| ==> r == source.value[index]
    ensures !(source.Some? && 0 <= index < |source.value|) ==> r == d
  {
    if source.Some? && 0 <= index < |source.value| then source.value[index] else d
  }

  /** The corrected lookup differs from `At` only where `At` raises. */
  lemma AtOrDefaultAgreesWhereAtCompletes<T>(source: Option<seq<T>>, index: int, d: T)
    ensures At(source, index, d).Ok? ==> At(source, index, d) == Ok(AtOrDefault(source, index, d))
    ensures At(source, index, d).Raise? ==> AtOrDefault(source, index, d) == d
    ensures index >= 0 ==> At(source, index, d) == Ok(AtOrDefault(source, index, d))
  {
  }
}
