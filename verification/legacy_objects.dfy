/**
 The first generation of the reference helpers (`Monads/Maybe.Objects.cs`).

 Each helper is written out here as the older code states it, with explicit
 null tests instead of null-propagation, and its contract is that it behaves
 exactly as the current helper of the same name in `MaybeObjects`. The older
 generation has no `DoSelect` nor `Do` with a null action, and calls its
 presence test `Any` instead of `IsNotNull`.
 */
module LegacyObjects {
  import opened Core
  import MaybeObjects

  /** `Do(action)`. */
  function Do<S>(source: Option<S>, action: S -> Outcome<()>): (r: Traced<S, Option<S>>)
    ensures r == MaybeObjects.Do(source, action)
  {
    if source != None then
      var done := action(source.value);
      Traced([source.value], if done.Raise? then Raise(done.error) else Ok(source))
    else Traced([], Ok(source))
  }

  /** `With(action)`. */
  function With<S, R>(source: Option<S>, action: S -> Outcome<R>, d: R): (r: Outcome<R>)
    ensures r == MaybeObjects.With(source, action, d)
  {
    if source != None then action(source.value) else Ok(d)
  }

  /** `Return(action, defaultValue)`. */
  function Return<S, R>(source: Option<S>, action: S -> Outcome<R>, defaultValue: R): (r: Outcome<R>)
    ensures r == MaybeObjects.Return(source, action, defaultValue)
  {
    if source != None then action(source.value) else Ok(defaultValue)
  }

  /** `If(condition)`: `condition` is consulted only for a present source. */
  function If<S>(source: Option<S>, condition: S -> Outcome<bool>): (r: Outcome<Option<S>>)
    ensures r == MaybeObjects.If(source, condition)
  {
    if source == None then Ok(None)
    else if condition(source.value).Raise? then Raise(condition(source.value).error)
    else if condition(source.value).value == true then Ok(source)
    else Ok(None)
  }

  /** `IfNot(condition)`. */
  function IfNot<S>(source: Option<S>, condition: S -> Outcome<bool>): (r: Outcome<Option<S>>)
    ensures r == MaybeObjects.IfNot(source, condition)
  {
    if source == None then Ok(None)
    else if condition(source.value).Raise? then Raise(condition(source.value).error)
    else if condition(source.value).value == false then Ok(source)
    else Ok(None)
  }

  /** `Recover(action)`: `source ?? action()`. */
  function Recover<S>(source: Option<S>, supplier: () -> Outcome<Option<S>>): (r: Outcome<Option<S>>)
    ensures r == MaybeObjects.Recover(source, supplier)
  {
    if source != None then Ok(source) else supplier()
  }

  /** `OfType<TResult>()`, with the runtime test and cast supplied as `cast`. */
  function OfType<O, T>(source: Option<O>, cast: O -> Option<T>, d: T): (r: T)
    ensures r == MaybeObjects.OfType(source, cast, d)
  {
    if source != None && cast(source.value) != None then cast(source.value).value else d
  }

  /** `TryDo(action)`. */
  function TryDo<S>(source: Option<S>, action: S -> Outcome<()>): (r: Traced<S, Captured<Option<S>>>)
    ensures r == MaybeObjects.TryDo(source, action)
  {
    if source != None then
      var done := action(source.value);
      Traced([source.value], Ok(Captured(source, if done.Raise? then Some(done.error) else None)))
    else Traced([], Ok(Captured(source, None)))
  }

  /** The catch clause of the filtered forms: keep the exception when `keep`
      approves it, otherwise `throw ex` re-raises the same exception. */
  function Filter<T>(value: T, ex: Exc, keep: Outcome<bool>): Outcome<Captured<T>>
  {
    if keep.Raise? then Raise(keep.error)
    else if keep.value == true then Ok(Captured(value, Some(ex)))
    else Raise(ex)
  }

  /** `TryDo(action, exceptionChecker)`. */
  function TryDoWhen<S>(source: Option<S>, action: S -> Outcome<()>,
                        exceptionChecker: Exc -> Outcome<bool>): (r: Traced<S, Captured<Option<S>>>)
    ensures r == MaybeObjects.TryDoWhen(source, action, exceptionChecker)
  {
    if source != None then
      var done := action(source.value);
      Traced([source.value],
             if done.Raise? then Filter(source, done.error, exceptionChecker(done.error))
             else Ok(Captured(source, None)))
    else Traced([], Ok(Captured(source, None)))
  }

  /** `TryDo(action, expectedException...)`. */
  function TryDoOfKinds<S, K>(source: Option<S>, action: S -> Outcome<()>,
                              kinds: seq<K>, isA: (K, Exc) -> bool): (r: Traced<S, Captured<Option<S>>>)
    ensures r == MaybeObjects.TryDoOfKinds(source, action, kinds, isA)
  {
    if source != None then
      var done := action(source.value);
      Traced([source.value],
             if done.Raise? then Filter(source, done.error, Ok(AnyKind(kinds, isA, done.error)))
             else Ok(Captured(source, None)))
    else Traced([], Ok(Captured(source, None)))
  }

  /** `TryWith(action)`: `result` still holds `default(TResult)` when `action` raised. */
  function TryWith<S, R>(source: Option<S>, action: S -> Outcome<R>, d: R): (r: Captured<R>)
    ensures r == MaybeObjects.TryWith(source, action, d)
  {
    if source != None then
      var result := action(source.value);
      if result.Ok? then Captured(result.value, None) else Captured(d, Some(result.error))
    else Captured(d, None)
  }

  /** `TryWith(action, exceptionChecker)`. */
  function TryWithWhen<S, R>(source: Option<S>, action: S -> Outcome<R>, d: R,
                             exceptionChecker: Exc -> Outcome<bool>): (r: Outcome<Captured<R>>)
    ensures r == MaybeObjects.TryWithWhen(source, action, d, exceptionChecker)
  {
    if source != None then
      var result := action(source.value);
      if result.Ok? then Ok(Captured(result.value, None))
      else Filter(d, result.error, exceptionChecker(result.error))
    else Ok(Captured(d, None))
  }

  /** `TryWith(action, expectedException...)`. */
  function TryWithOfKinds<S, R, K>(source: Option<S>, action: S -> Outcome<R>, d: R,
                                   kinds: seq<K>, isA: (K, Exc) -> bool): (r: Outcome<Captured<R>>)
    ensures r == MaybeObjects.TryWithOfKinds(source, action, d, kinds, isA)
  {
    if source != None then
      var result := action(source.value);
      if result.Ok? then Ok(Captured(result.value, None))
      else Filter(d, result.error, Ok(AnyKind(kinds, isA, result.error)))
    else Ok(Captured(d, None))
  }

  /** `Catch()`. */
  function Catch<T>(p: Captured<T>): (r: T)
    ensures r == MaybeObjects.Catch(p)
  {
    p.item1
  }

  /** `Catch(handler)`. */
  function CatchWith<T>(p: Captured<T>, handler: Exc -> Outcome<()>): (r: Traced<Exc, T>)
    ensures r == MaybeObjects.CatchWith(p, handler)
  {
    if p.item2 != None then
      var handled := handler(p.item2.value);
      Traced([p.item2.value], if handled.Raise? then Raise(handled.error) else Ok(p.item1))
    else Traced([], Ok(p.item1))
  }

  /** `Any()`: the older name of the presence test. */
  function Any<S>(source: Option<S>): (r: bool)
    ensures r == MaybeObjects.IsNotNull(source)
    ensures r != MaybeObjects.IsNull(source)
  {
    source != None
  }
}
