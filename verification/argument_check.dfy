/**
 The argument guards (`ArgumentCheck`).

 A guard returns its source unchanged when the check passes and raises
 otherwise; the `WithDefault` forms answer a default instead of raising.
 */
module ArgumentCheck {
  import opened Core
  import MaybeObjects

  /** `CheckNull(argumentName)`: the source when it is not null; otherwise
      ArgumentNullException naming `argumentName`. */
  function CheckNull<S>(source: Option<S>, argumentName: string): (r: Outcome<S>)
    ensures r.Ok? <==> source.Some?
    ensures r.Ok? ==> r.value == source.value
    ensures r.Raise? ==> r.error == ArgumentNull(argumentName)
  {
    match source
    case Some(v) => Ok(v)
    case None => Raise(ArgumentNull(argumentName))
  }

  /** `CheckNull(exceptionSource)`: the source when it is not null; otherwise
      `throw exceptionSource()`, so a null exception becomes
      NullReferenceException and a raise inside the factory propagates. */
  function CheckNullBy<S>(source: Option<S>, exceptionSource: () -> Outcome<Option<Exc>>): (r: Outcome<S>)
    ensures r.Ok? <==> source.Some?
    ensures r.Ok? ==> r.value == source.value
    ensures source.None? && exceptionSource().Ok? ==> r == Raise(Thrown(exceptionSource().value))
    ensures source.None? && exceptionSource().Raise? ==> r == Raise(exceptionSource().error)
  {
    match source
    case Some(v) => Ok(v)
    case None =>
      match exceptionSource()
      case Raise(e) => Raise(e)
      case Ok(x) => Raise(Thrown(x))
  }

  /** `CheckNullWithDefault(defaultValue)`: the source when it is not null,
      `defaultValue` (which may itself be null) otherwise. */
  function CheckNullWithDefault<S>(source: Option<S>, defaultValue: Option<S>): (r: Option<S>)
    ensures source.Some? ==> r == source
    ensures source.None? ==> r == defaultValue
  {
    if source.Some? then source else defaultValue
  }

  /** `Check(checkCondition, exceptionSource)`: the source when the condition
      holds; otherwise `throw exceptionSource(source)`. Raises inside either
      callback propagate. */
  function Check<S>(source: S, checkCondition: S -> Outcome<bool>,
                    exceptionSource: S -> Outcome<Option<Exc>>): (r: Outcome<S>)
    ensures r.Ok? ==> r.value == source
    ensures r.Ok? <==> checkCondition(source) == Ok(true)
    ensures checkCondition(source).Raise? ==> r == checkCondition(source).Then(source)
    ensures checkCondition(source) == Ok(false) && exceptionSource(source).Ok? ==>
              r == Raise(Thrown(exceptionSource(source).value))
    ensures checkCondition(source) == Ok(false) && exceptionSource(source).Raise? ==>
              r == exceptionSource(source).Then(source)
  {
    match checkCondition(source)
    case Raise(e) => Raise(e)
    case Ok(b) =>
      if b then Ok(source)
      else
        match exceptionSource(source)
        case Raise(e) => Raise(e)
        case Ok(x) => Raise(Thrown(x))
  }

  /** `CheckWithDefault(checkCondition, defaultValue)`: the source when the
      condition holds, `defaultValue` when it does not. */
  function CheckWithDefault<S>(source: S, checkCondition: S -> Outcome<bool>, defaultValue: S): (r: Outcome<S>)
    ensures checkCondition(source) == Ok(true) ==> r == Ok(source)
    ensures checkCondition(source) == Ok(false) ==> r == Ok(defaultValue)
    ensures checkCondition(source).Raise? ==> r == checkCondition(source).Then(defaultValue)
  {
    match checkCondition(source)
    case Raise(e) => Raise(e)
    case Ok(b) => Ok(if b then source else defaultValue)
  }

  /** `CheckNull(argumentName)` is `Check` with the condition "not null" and the
      factory of ArgumentNullException. */
  lemma CheckNullIsCheckOfPresence<S>(source: Option<S>, argumentName: string)
    ensures Check(source, (s: Option<S>) => Ok(s.Some?), (s: Option<S>) => Ok(Some(ArgumentNull(argumentName))))
         == CheckNull(source, argumentName).Then(source)
  {
  }

  /** `CheckNull(exceptionSource)` with a factory of ArgumentNullException is
      `CheckNull(argumentName)`. */
  lemma CheckNullByOfArgumentNullIsCheckNull<S>(source: Option<S>, argumentName: string)
    ensures CheckNullBy(source, () => Ok(Some(ArgumentNull(argumentName)))) == CheckNull(source, argumentName)
  {
  }

  /** Defaulting a null source is recovering it with a supplier of the default. */
  lemma CheckNullWithDefaultIsRecover<S>(source: Option<S>, defaultValue: Option<S>)
    ensures Ok(CheckNullWithDefault(source, defaultValue)) == MaybeObjects.Recover(source, () => Ok(defaultValue))
  {
  }

  /** `CheckWithDefault` answers where `Check` raises for a failed condition, and
      agrees with `Check` everywhere else, whatever the exception factory. */
  lemma CheckWithDefaultReplacesTheRaise<S>(source: S, checkCondition: S -> Outcome<bool>,
                                            exceptionSource: S -> Outcome<Option<Exc>>, defaultValue: S)
    ensures checkCondition(source) != Ok(false) ==>
              CheckWithDefault(source, checkCondition, defaultValue) == Check(source, checkCondition, exceptionSource)
    ensures checkCondition(source) == Ok(false) ==>
              Check(source, checkCondition, exceptionSource).Raise?
              && CheckWithDefault(source, checkCondition, defaultValue) == Ok(defaultValue)
  {
  }
}
