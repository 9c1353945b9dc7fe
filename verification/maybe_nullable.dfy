/**
 The `Nullable<T>` mirror of the helpers (`MaybeNullable`).

 `source` is `None` when `HasValue` is false. Callbacks receive the unwrapped
 value (`GetValueOrDefault()` of a value that is present), so wherever the
 reference-type helper has the same shape the mirror is that helper. The mirror
 differs where it returns the unwrapped value itself: `If`, `IfNot` and
 `Recover` give a plain `TSource`, so an absent source comes out as
 `default(TSource)`, the explicit parameter `d`.
 */
module MaybeNullable {
  import opened Core
  import MaybeObjects

  /** `Do(action)`: calls `action` with the value when `HasValue`; returns the nullable. */
  function Do<S>(source: Option<S>, action: S -> Outcome<()>): (r: Traced<S, Option<S>>)
    ensures r.calls == (if source.Some? then [source.value] else [])
    ensures r.outcome.Ok? ==> r.outcome.value == source
    ensures r.outcome.Raise? <==> source.Some? && action(source.value).Raise?
    ensures r.outcome.Raise? ==> action(source.value) == Raise(r.outcome.error)
  {
    MaybeObjects.Do(source, action)
  }

  /** `With(action)`: `action` of the value, `default(TResult)` when absent. */
  function With<S, R>(source: Option<S>, action: S -> Outcome<R>, d: R): (r: Outcome<R>)
    ensures source.None? ==> r == Ok(d)
    ensures source.Some? ==> r == action(source.value)
  {
    MaybeObjects.With(source, action, d)
  }

  /** `Return(action, defaultValue)`: `action` of the value, `defaultValue` when absent. */
  function Return<S, R>(source: Option<S>, action: S -> Outcome<R>, defaultValue: R): (r: Outcome<R>)
    ensures source.None? ==> r == Ok(defaultValue)
    ensures source.Some? ==> r == action(source.value)
  {
    MaybeObjects.Return(source, action, defaultValue)
  }

  /** `If(condition)`: the value when present and `condition` holds, `default(TSource)` otherwise. */
  function If<S>(source: Option<S>, condition: S -> Outcome<bool>, d: S): (r: Outcome<S>)
    ensures source.None? ==> r == Ok(d)
    ensures source.Some? && condition(source.value) == Ok(true) ==> r == Ok(source.value)
    ensures source.Some? && condition(source.value) == Ok(false) ==> r == Ok(d)
    ensures source.Some? && condition(source.value).Raise? ==> r == condition(source.value).Then(d)
  {
    if source.Some? then
      match condition(source.value)
      case Raise(e) => Raise(e)
      case Ok(b) => Ok(if b then source.value else d)
    else Ok(d)
  }

  /** `IfNot(condition)`: the value when present and `condition` fails, `default(TSource)` otherwise. */
  function IfNot<S>(source: Option<S>, condition: S -> Outcome<bool>, d: S): (r: Outcome<S>)
    ensures source.None? ==> r == Ok(d)
    ensures source.Some? && condition(source.value) == Ok(false) ==> r == Ok(source.value)
    ensures source.Some? && condition(source.value) == Ok(true) ==> r == Ok(d)
    ensures source.Some? && condition(source.value).Raise? ==> r == condition(source.value).Then(d)
  {
    if source.Some? then
      match condition(source.value)
      case Raise(e) => Raise(e)
      case Ok(b) => Ok(if b then d else source.value)
    else Ok(d)
  }

  /** The nullable `If` is the reference `If` with the absent answer unwrapped to
      `default(TSource)`; hence an absent source cannot be told apart from a
      present `default(TSource)`, whatever the condition says about it. */
  lemma IfConflatesAbsentWithDefault<S>(source: Option<S>, condition: S -> Outcome<bool>, d: S)
    ensures If(source, condition, d)
         == match MaybeObjects.If(source, condition)
            case Raise(e) => Raise(e)
            case Ok(o) => Ok(if o.Some? then o.value else d)
    ensures condition(d).Ok? ==> If(None, condition, d) == If(Some(d), condition, d) == Ok(d)
    ensures condition(d).Ok? ==> IfNot(None, condition, d) == IfNot(Some(d), condition, d) == Ok(d)
  {
  }

  /** `Recover(action)`: the value when present, otherwise the supplier's value. */
  function Recover<S>(source: Option<S>, supplier: () -> Outcome<S>): (r: Outcome<S>)
    ensures source.Some? ==> r == Ok(source.value)
    ensures source.None? ==> r == supplier()
  {
    if source.Some? then Ok(source.value) else supplier()
  }

  /** `TryDo(action)`: Item1 is the original nullable in every branch; Item2 is
      the exception the action raised, if any. */
  function TryDo<S>(source: Option<S>, action: S -> Outcome<()>): (r: Traced<S, Captured<Option<S>>>)
    ensures r.outcome.Ok? && r.outcome.value.item1 == source
    ensures r.calls == (if source.Some? then [source.value] else [])
    ensures r.outcome.value.item2 == (if source.Some? then action(source.value).Failure() else None)
  {
    MaybeObjects.TryDo(source, action)
  }

  /** `TryDo(action, exceptionChecker)`: re-raises the exceptions the checker rejects. */
  function TryDoWhen<S>(source: Option<S>, action: S -> Outcome<()>,
                        exceptionChecker: Exc -> Outcome<bool>): (r: Traced<S, Captured<Option<S>>>)
    ensures r.calls == (if source.Some? then [source.value] else [])
    ensures source.None? ==> r.outcome == Ok(Captured(source, None))
    ensures source.Some? && action(source.value).Ok? ==> r.outcome == Ok(Captured(source, None))
    ensures source.Some? && action(source.value).Raise? ==>
              var e := action(source.value).error;
              && (r.outcome == Ok(Captured(source, Some(e))) <==> exceptionChecker(e) == Ok(true))
              && (exceptionChecker(e) == Ok(false) ==> r.outcome == Raise(e))
              && (exceptionChecker(e).Raise? ==> r.outcome == Raise(exceptionChecker(e).error))
  {
    MaybeObjects.TryDoWhen(source, action, exceptionChecker)
  }

  /** `TryDo(action, expectedException...)`: re-raises exceptions of no listed kind. */
  function TryDoOfKinds<S, K>(source: Option<S>, action: S -> Outcome<()>,
                              kinds: seq<K>, isA: (K, Exc) -> bool): (r: Traced<S, Captured<Option<S>>>)
    ensures r.calls == (if source.Some? then [source.value] else [])
    ensures source.None? ==> r.outcome == Ok(Captured(source, None))
    ensures source.Some? && action(source.value).Ok? ==> r.outcome == Ok(Captured(source, None))
    ensures source.Some? && action(source.value).Raise? ==>
              var e := action(source.value).error;
              r.outcome == if AnyKind(kinds, isA, e) then Ok(Captured(source, Some(e))) else Raise(e)
  {
    MaybeObjects.TryDoOfKinds(source, action, kinds, isA)
  }

  /** `TryWith(action)`: (f(v), null) on success, (default, ex) on a raise, (default, null) when absent. */
  function TryWith<S, R>(source: Option<S>, action: S -> Outcome<R>, d: R): (r: Captured<R>)
    ensures source.None? ==> r == Captured(d, None)
    ensures source.Some? && action(source.value).Ok? ==> r == Captured(action(source.value).value, None)
    ensures source.Some? && action(source.value).Raise? ==> r == Captured(d, Some(action(source.value).error))
  {
    MaybeObjects.TryWith(source, action, d)
  }

  /** `TryWith(action, exceptionChecker)`: re-raises the exceptions the checker rejects. */
  function TryWithWhen<S, R>(source: Option<S>, action: S -> Outcome<R>, d: R,
                             exceptionChecker: Exc -> Outcome<bool>): (r: Outcome<Captured<R>>)
    ensures source.None? ==> r == Ok(Captured(d, None))
    ensures source.Some? && action(source.value).Ok? ==> r == Ok(Captured(action(source.value).value, None))
    ensures source.Some? && action(source.value).Raise? ==>
              var e := action(source.value).error;
              && (r == Ok(Captured(d, Some(e))) <==> exceptionChecker(e) == Ok(true))
              && (exceptionChecker(e) == Ok(false) ==> r == Raise(e))
              && (exceptionChecker(e).Raise? ==> r == Raise(exceptionChecker(e).error))
  {
    MaybeObjects.TryWithWhen(source, action, d, exceptionChecker)
  }

  /** `TryWith(action, expectedException...)`: re-raises exceptions of no listed kind. */
  function TryWithOfKinds<S, R, K>(source: Option<S>, action: S -> Outcome<R>, d: R,
                                   kinds: seq<K>, isA: (K, Exc) -> bool): (r: Outcome<Captured<R>>)
    ensures source.None? ==> r == Ok(Captured(d, None))
    ensures source.Some? && action(source.value).Ok? ==> r == Ok(Captured(action(source.value).value, None))
    ensures source.Some? && action(source.value).Raise? ==>
              var e := action(source.value).error;
              r == if AnyKind(kinds, isA, e) then Ok(Captured(d, Some(e))) else Raise(e)
  {
    MaybeObjects.TryWithOfKinds(source, action, d, kinds, isA)
  }

  /** `IsNull()`: `HasValue == false`. */
  function IsNull<S>(source: Option<S>): (r: bool)
    ensures r <==> source.None?
    ensures r != IsNotNull(source)
  {
    MaybeObjects.IsNull(source)
  }

  /** `IsNotNull()`: `HasValue`. */
  function IsNotNull<S>(source: Option<S>): (r: bool)
    ensures r <==> source.Some?
  {
    MaybeObjects.IsNotNull(source)
  }

  /** Recovering with a supplier that completes never leaves an absent value behind:
      the result is the value, or the supplier's value. */
  lemma RecoverIsReturnOfIdentity<S>(source: Option<S>, supplier: () -> Outcome<S>)
    requires supplier().Ok?
    ensures Recover(source, supplier) == Return(source, (v: S) => Ok(v), supplier().value)
  {
  }
}
