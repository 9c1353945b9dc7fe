/**
 The null-propagation helpers on a possibly-null reference (`MaybeObjects`).

 `source` is `None` when the reference is null. Every helper looks at the
 source first and never hands an absent source to a callback; a callback's
 raise propagates unchanged, except inside the Try helpers, which capture it.
 `default(TResult)` is the explicit parameter `d`.
 */
module MaybeObjects {
  import opened Core

  /** `Do(action)`: calls `action` on a present source; returns the source. */
  function Do<S>(source: Option<S>, action: S -> Outcome<()>): (r: Traced<S, Option<S>>)
    ensures source.None? ==> r == Traced([], Ok(source))
    ensures source.Some? ==> r.calls == [source.value]
    ensures r.outcome.Ok? ==> r.outcome.value == source
    ensures r.outcome.Raise? <==> source.Some? && action(source.value).Raise?
    ensures r.outcome.Raise? ==> action(source.value) == Raise(r.outcome.error)
  {
    match source
    case None => Traced([], Ok(source))
    case Some(x) => Traced([x], action(x).Then(source))
  }

  /** `Do(action, nullaction)`: `action` on a present source, otherwise `nullAction`
      (when supplied) on the null source. Each call is recorded with the argument
      it received. */
  function DoElse<S>(source: Option<S>, action: S -> Outcome<()>,
                     nullAction: Option<Option<S> -> Outcome<()>>): (r: Traced<Option<S>, Option<S>>)
    ensures forall i :: 0 <= i < |r.calls| ==> r.calls[i] == source
    ensures |r.calls| == (if source.Some? || nullAction.Some? then 1 else 0)
    ensures r.outcome.Ok? ==> r.outcome.value == source
    ensures source.Some? ==> r.outcome == action(source.value).Then(source)
    ensures source.None? && nullAction.Some? ==> r.outcome == nullAction.value(source).Then(source)
    ensures source.None? && nullAction.None? ==> r.outcome == Ok(source)
  {
    match source
    case Some(x) => Traced([source], action(x).Then(source))
    case None =>
      match nullAction
      case Some(na) => Traced([source], na(source).Then(source))
      case None => Traced([], Ok(source))
  }

  /** `DoSelect(action, nullaction)`: the converted value of a present source;
      otherwise `nullAction` runs (when supplied) and the result is null. */
  function DoSelect<S, R>(source: Option<S>, action: S -> Outcome<Option<R>>,
                          nullAction: Option<Option<S> -> Outcome<()>>): (r: Traced<Option<S>, Option<R>>)
    ensures forall i :: 0 <= i < |r.calls| ==> r.calls[i] == source
    ensures |r.calls| == (if source.Some? || nullAction.Some? then 1 else 0)
    ensures source.Some? ==> r.outcome == action(source.value)
    ensures source.None? && nullAction.Some? ==> r.outcome == nullAction.value(source).Then(None)
    ensures source.None? && nullAction.None? ==> r.outcome == Ok(None)
  {
    match source
    case Some(x) => Traced([source], action(x))
    case None =>
      match nullAction
      case Some(na) => Traced([source], na(source).Then(None))
      case None => Traced([], Ok(None))
  }

  /** `With(action)`: the conversion of a present source, `default(TResult)` otherwise. */
  function With<S, R>(source: Option<S>, action: S -> Outcome<R>, d: R): (r: Outcome<R>)
    ensures source.None? ==> r == Ok(d)
    ensures source.Some? ==> r == action(source.value)
  {
    match source
    case None => Ok(d)
    case Some(x) => action(x)
  }

  /** `Return(action, defaultValue)`: the conversion of a present source, `defaultValue` otherwise. */
  function Return<S, R>(source: Option<S>, action: S -> Outcome<R>, defaultValue: R): (r: Outcome<R>)
    ensures source.None? ==> r == Ok(defaultValue)
    ensures source.Some? ==> r == action(source.value)
  {
    if source.Some? then action(source.value) else Ok(defaultValue)
  }

  /** `If(condition)`: the source when it is present and satisfies `condition`, else null. */
  function If<S>(source: Option<S>, condition: S -> Outcome<bool>): (r: Outcome<Option<S>>)
    ensures source.None? ==> r == Ok(None)
    ensures r.Raise? <==> source.Some? && condition(source.value).Raise?
    ensures r.Raise? ==> r.error == condition(source.value).error
    ensures r.Ok? && r.value.Some? <==> source.Some? && condition(source.value) == Ok(true)
    ensures r.Ok? && r.value.Some? ==> r.value == source
  {
    match source
    case None => Ok(None)
    case Some(x) =>
      match condition(x)
      case Raise(e) => Raise(e)
      case Ok(b) => Ok(if b then source else None)
  }

  /** `IfNot(condition)`: the source when it is present and fails `condition`, else null. */
  function IfNot<S>(source: Option<S>, condition: S -> Outcome<bool>): (r: Outcome<Option<S>>)
    ensures source.None? ==> r == Ok(None)
    ensures r.Raise? <==> source.Some? && condition(source.value).Raise?
    ensures r.Raise? ==> r.error == condition(source.value).error
    ensures r.Ok? && r.value.Some? <==> source.Some? && condition(source.value) == Ok(false)
    ensures r.Ok? && r.value.Some? ==> r.value == source
  {
    match source
    case None => Ok(None)
    case Some(x) =>
      match condition(x)
      case Raise(e) => Raise(e)
      case Ok(b) => Ok(if b then None else source)
  }

  /** On a present source whose condition completes, exactly one of `If` and
      `IfNot` keeps the source and the other yields null; on a null source both
      yield null whatever the condition. */
  lemma IfIfNotPartition<S>(source: Option<S>, condition: S -> Outcome<bool>)
    requires source.Some? ==> condition(source.value).Ok?
    ensures If(source, condition).Ok? && IfNot(source, condition).Ok?
    ensures source.Some? ==>
              (If(source, condition).value == source) != (IfNot(source, condition).value == source)
    ensures source.Some? ==>
              {If(source, condition).value, IfNot(source, condition).value} == {source, None}
    ensures source.None? ==> If(source, condition) == IfNot(source, condition) == Ok(None)
  {
  }

  /** `Recover(action)`: a present source as it is; otherwise whatever the supplier returns. */
  function Recover<S>(source: Option<S>, supplier: () -> Outcome<Option<S>>): (r: Outcome<Option<S>>)
    ensures source.Some? ==> r == Ok(source)
    ensures source.None? ==> r == supplier()
  {
    match source
    case Some(_) => Ok(source)
    case None => supplier()
  }

  /** `OfType<TResult>()`: the source viewed as a `TResult` when its runtime type
      allows it, `default(TResult)` otherwise. `cast` is the runtime type test
      `source is TResult` together with the conversion; null is never of a type. */
  function OfType<O, T>(source: Option<O>, cast: O -> Option<T>, d: T): (r: T)
    ensures source.None? ==> r == d
    ensures source.Some? && cast(source.value).Some? ==> r == cast(source.value).value
    ensures source.Some? && cast(source.value).None? ==> r == d
  {
    if source.Some? && cast(source.value).Some? then cast(source.value).value else d
  }

  /** Asked for its own type, `OfType` returns the source itself (null gives `d`). */
  lemma OfTypeOwnType<O>(source: Option<O>, d: O)
    ensures OfType(source, (o: O) => Some(o), d) == (if source.Some? then source.value else d)
  {
  }

  /** `TryDo(action)`: calls `action` on a present source and captures any
      exception. The pair always carries the source itself. */
  function TryDo<S>(source: Option<S>, action: S -> Outcome<()>): (r: Traced<S, Captured<Option<S>>>)
    ensures r.outcome.Ok?
    ensures r.outcome.value.item1 == source
    ensures source.None? ==> r.calls == [] && r.outcome.value.item2.None?
    ensures source.Some? ==> r.calls == [source.value]
    ensures r.outcome.value.item2.Some? <==> source.Some? && action(source.value).Raise?
    ensures r.outcome.value.item2.Some? ==> action(source.value) == Raise(r.outcome.value.item2.value)
  {
    match source
    case None => Traced([], Ok(Captured(source, None)))
    case Some(x) => Traced([x], Ok(Captured(source, action(x).Failure())))
  }

  /** `TryDo(action, exceptionChecker)`: as `TryDo`, but an exception the checker
      rejects is re-raised instead of captured. */
  function TryDoWhen<S>(source: Option<S>, action: S -> Outcome<()>,
                        exceptionChecker: Exc -> Outcome<bool>): (r: Traced<S, Captured<Option<S>>>)
    ensures r.calls == (if source.Some? then [source.value] else [])
    ensures r.outcome.Ok? ==> r.outcome.value.item1 == source
    ensures source.None? ==> r.outcome == Ok(Captured(source, None))
    ensures source.Some? && action(source.value).Ok? ==> r.outcome == Ok(Captured(source, None))
    ensures source.Some? && action(source.value).Raise? ==>
              var e := action(source.value).error;
              && (r.outcome == Ok(Captured(source, Some(e))) <==> exceptionChecker(e) == Ok(true))
              && (exceptionChecker(e) == Ok(false) ==> r.outcome == Raise(e))
              && (exceptionChecker(e).Raise? ==> r.outcome == Raise(exceptionChecker(e).error))
  {
    var t := TryDo(source, action);
    Traced(t.calls, Admit(t.outcome.value, exceptionChecker))
  }

  /** `TryDo(action, expectedException...)`: as `TryDo`, but only exceptions that
      are instances of one of `kinds` are captured; others are re-raised. */
  function TryDoOfKinds<S, K>(source: Option<S>, action: S -> Outcome<()>,
                              kinds: seq<K>, isA: (K, Exc) -> bool): (r: Traced<S, Captured<Option<S>>>)
    ensures r.calls == (if source.Some? then [source.value] else [])
    ensures source.None? ==> r.outcome == Ok(Captured(source, None))
    ensures source.Some? && action(source.value).Ok? ==> r.outcome == Ok(Captured(source, None))
    ensures source.Some? && action(source.value).Raise? ==>
              var e := action(source.value).error;
              r.outcome == if AnyKind(kinds, isA, e) then Ok(Captured(source, Some(e))) else Raise(e)
  {
    TryDoWhen(source, action, (e: Exc) => Ok(AnyKind(kinds, isA, e)))
  }

  /** `TryWith(action)`: the conversion of a present source with any exception
      captured; the value slot keeps `default(TResult)` when the conversion raised. */
  function TryWith<S, R>(source: Option<S>, action: S -> Outcome<R>, d: R): (r: Captured<R>)
    ensures source.None? ==> r == Captured(d, None)
    ensures source.Some? && action(source.value).Ok? ==> r == Captured(action(source.value).value, None)
    ensures source.Some? && action(source.value).Raise? ==> r == Captured(d, Some(action(source.value).error))
  {
    match source
    case None => Captured(d, None)
    case Some(x) =>
      match action(x)
      case Ok(v) => Captured(v, None)
      case Raise(e) => Captured(d, Some(e))
  }

  /** `TryWith(action, exceptionChecker)`: as `TryWith`, re-raising what the checker rejects. */
  function TryWithWhen<S, R>(source: Option<S>, action: S -> Outcome<R>, d: R,
                             exceptionChecker: Exc -> Outcome<bool>): (r: Outcome<Captured<R>>)
    ensures source.None? ==> r == Ok(Captured(d, None))
    ensures source.Some? && action(source.value).Ok? ==> r == Ok(Captured(action(source.value).value, None))
    ensures source.Some? && action(source.value).Raise? ==>
              var e := action(source.value).error;
              && (r == Ok(Captured(d, Some(e))) <==> exceptionChecker(e) == Ok(true))
              && (exceptionChecker(e) == Ok(false) ==> r == Raise(e))
              && (exceptionChecker(e).Raise? ==> r == Raise(exceptionChecker(e).error))
  {
    Admit(TryWith(source, action, d), exceptionChecker)
  }

  /** `TryWith(action, expectedException...)`: as `TryWith`, capturing only the listed kinds. */
  function TryWithOfKinds<S, R, K>(source: Option<S>, action: S -> Outcome<R>, d: R,
                                   kinds: seq<K>, isA: (K, Exc) -> bool): (r: Outcome<Captured<R>>)
    ensures source.None? ==> r == Ok(Captured(d, None))
    ensures source.Some? && action(source.value).Ok? ==> r == Ok(Captured(action(source.value).value, None))
    ensures source.Some? && action(source.value).Raise? ==>
              var e := action(source.value).error;
              r == if AnyKind(kinds, isA, e) then Ok(Captured(d, Some(e))) else Raise(e)
  {
    TryWithWhen(source, action, d, (e: Exc) => Ok(AnyKind(kinds, isA, e)))
  }

  /** `Catch()`: the value slot of a Try pair; the exception is ignored. */
  function Catch<T>(p: Captured<T>): (r: T)
    ensures r == p.item1
  {
    p.item1
  }

  /** `Catch(handler)`: calls `handler` on the captured exception, if there is
      one, and then returns the value slot. */
  function CatchWith<T>(p: Captured<T>, handler: Exc -> Outcome<()>): (r: Traced<Exc, T>)
    ensures r.calls == (if p.item2.Some? then [p.item2.value] else [])
    ensures r.outcome.Ok? ==> r.outcome.value == p.item1
    ensures r.outcome.Raise? <==> p.item2.Some? && handler(p.item2.value).Raise?
    ensures r.outcome.Raise? ==> p.item2.Some? && handler(p.item2.value) == Raise(r.outcome.error)
  {
    match p.item2
    case None => Traced([], Ok(p.item1))
    case Some(e) => Traced([e], handler(e).Then(p.item1))
  }

  /** `IsNull()`. */
  function IsNull<S>(source: Option<S>): (r: bool)
    ensures r <==> source == None
    ensures r != IsNotNull(source)
  {
    source.None?
  }

  /** `IsNotNull()`. */
  function IsNotNull<S>(source: Option<S>): (r: bool)
    ensures r <==> source != None
  {
    source.Some?
  }

  /** The pair `TryDo` returns hands the original source back through `Catch`,
      whatever the action did, and the action ran exactly when `Do` runs it. */
  lemma CatchTryDoRoundTrip<S>(source: Option<S>, action: S -> Outcome<()>)
    ensures Catch(TryDo(source, action).outcome.value) == source
    ensures TryDo(source, action).calls == Do(source, action).calls
    ensures Do(source, action).outcome.Ok? <==> TryDo(source, action).outcome.value.item2.None?
  {
  }

  /** `Catch(TryWith(...))` is `With` when the conversion completes and
      `default(TResult)` when it raises. */
  lemma CatchTryWithIsWith<S, R>(source: Option<S>, action: S -> Outcome<R>, d: R)
    ensures With(source, action, d).Ok? ==> Catch(TryWith(source, action, d)) == With(source, action, d).value
    ensures With(source, action, d).Raise? ==>
              TryWith(source, action, d) == Captured(d, Some(With(source, action, d).error))
  {
  }

  /** `With` is `Return` with `default(TResult)` as the default. */
  lemma WithIsReturnOfDefault<S, R>(source: Option<S>, action: S -> Outcome<R>, d: R)
    ensures With(source, action, d) == Return(source, action, d)
  {
  }

  /** Without a null action, `Do(action, nullaction)` is `Do(action)`: the same
      outcome, and the same calls with each argument wrapped as nullable. */
  lemma DoElseWithoutNullActionIsDo<S>(source: Option<S>, action: S -> Outcome<()>)
    ensures DoElse(source, action, None).outcome == Do(source, action).outcome
    ensures |DoElse(source, action, None).calls| == |Do(source, action).calls|
    ensures forall i :: 0 <= i < |Do(source, action).calls| ==>
              DoElse(source, action, None).calls[i] == Some(Do(source, action).calls[i])
  {
  }

  /** Without a null action, `DoSelect` is `With` whose default is null. */
  lemma DoSelectWithoutNullActionIsWith<S, R>(source: Option<S>, action: S -> Outcome<Option<R>>)
    ensures DoSelect(source, action, None).outcome == With(source, action, None)
    ensures DoSelect(source, action, None).calls == DoElse(source, (s: S) => Ok(()), None).calls
  {
  }

  /** A handler that completes leaves `Catch(handler)` answering as `Catch()`;
      a handler that does nothing is such a handler. */
  lemma CatchWithCompletingHandlerIsCatch<T>(p: Captured<T>, handler: Exc -> Outcome<()>)
    ensures p.item2.None? || handler(p.item2.value).Ok? ==> CatchWith(p, handler).outcome == Ok(Catch(p))
    ensures CatchWith(p, (e: Exc) => Ok(())).outcome == Ok(Catch(p))
  {
  }

  /** A checker that accepts everything makes the filtered Try helpers the plain ones. */
  lemma AcceptAllIsUnfiltered<S, R>(source: Option<S>, act: S -> Outcome<()>, conv: S -> Outcome<R>, d: R)
    ensures TryDoWhen(source, act, (e: Exc) => Ok(true)) == TryDo(source, act)
    ensures TryWithWhen(source, conv, d, (e: Exc) => Ok(true)) == Ok(TryWith(source, conv, d))
  {
  }
}
