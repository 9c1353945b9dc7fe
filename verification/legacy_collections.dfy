/**
 The first generation of the collection helpers and argument guards
 (`Monads/Maybe.IEnumerable.cs`, `Monads/Maybe.IDictionary.cs`,
 `Monads/ArgumentCheck.cs`).

 The older sequence helpers differ from the current ones: `Do` hands every
 element to the action, null elements included, and `With` of a null
 sequence is null rather than an empty sequence. The older dictionary helpers
 and guards behave exactly as the current ones.
 */
module LegacySequence {
  import opened Core
  import MaybeSequence

  /** `Do(action)`, generic and non-generic: `action` on every element in
      order, nulls included; a raise ends the walk and propagates. */
  function Do<E>(source: Option<seq<E>>, action: E -> Outcome<()>): (r: Traced<E, Option<seq<E>>>)
    ensures source.None? ==> r == Traced([], Ok(source))
    ensures r.outcome.Ok? ==> r.outcome.value == source
    ensures source.Some? ==>
              (r.outcome.Ok? <==> forall i :: 0 <= i < |source.value| ==> action(source.value[i]).Ok?)
    ensures source.Some? && r.outcome.Ok? ==> r.calls == source.value
    ensures source.Some? && r.outcome.Raise? ==>
              r.calls <= source.value && r.calls != [] && action(r.calls[|r.calls| - 1]) == Raise(r.outcome.error)
    ensures forall i :: 0 <= i < |r.calls| - 1 ==> action(r.calls[i]).Ok?
  {
    match source
    case None => Traced([], Ok(source))
    case Some(xs) =>
      var t := RunAll(xs, action);
      Traced(t.calls, t.outcome.Then(source))
  }

  /** `With(action)`: `source.Select(action)`, one output per element, nulls
      included; null for a null sequence. */
  function With<E, R>(source: Option<seq<E>>, action: E -> Outcome<R>): (r: Outcome<Option<seq<R>>>)
    ensures source.None? ==> r == Ok(None)
    ensures source.Some? ==> (r.Ok? <==> forall i :: 0 <= i < |source.value| ==> action(source.value[i]).Ok?)
    ensures source.Some? && r.Ok? ==>
              && r.value.Some?
              && |r.value.value| == |source.value|
              && forall i :: 0 <= i < |source.value| ==> action(source.value[i]) == Ok(r.value.value[i])
    ensures r.Raise? ==>
              source.Some? &&
              exists i :: 0 <= i < |source.value| && action(source.value[i]) == Raise(r.error)
                          && forall j :: 0 <= j < i ==> action(source.value[j]).Ok?
  {
    match source
    case None => Ok(None)
    case Some(xs) =>
      match MapAll(xs, action)
      case Raise(e) => Raise(e)
      case Ok(ys) => Ok(Some(ys))
  }

  /** A callback on possibly-null elements, seen as a callback on the values of
      the non-null ones. */
  function Unwrapped<S, R>(f: Option<S> -> Outcome<R>): S -> Outcome<R>
  {
    (s: S) => f(Some(s))
  }

  /** Over a sequence without nulls, walking every element and walking the
      non-null elements make the same calls and complete the same way. */
  lemma {:induction false} RunAllNullFree<S>(xs: seq<Option<S>>, action: Option<S> -> Outcome<()>)
    requires forall i :: 0 <= i < |xs| ==> xs[i].Some?
    ensures var all := RunAll(xs, action);
            var present := RunAll(MaybeSequence.Present(xs), Unwrapped(action));
            && all.outcome == present.outcome
            && |all.calls| == |present.calls|
            && forall i :: 0 <= i < |all.calls| ==> all.calls[i] == Some(present.calls[i])
    decreases |xs|
  {
    if xs != [] {
      var rest := xs[1..];
      assert forall i :: 0 <= i < |rest| ==> rest[i] == xs[i + 1];
      var p := MaybeSequence.Present(xs);
      var pr := MaybeSequence.Present(rest);
      assert p == [xs[0].value] + pr;
      assert p != [] && p[0] == xs[0].value && p[1..] == pr;
      var u := Unwrapped(action);
      assert u(p[0]) == action(xs[0]);
      RunAllNullFree(rest, action);
      RunAllUnfold(xs, action);
      RunAllUnfold(p, u);
      var all := RunAll(xs, action);
      var present := RunAll(p, u);
      if action(xs[0]).Ok? {
        var allRest := RunAll(rest, action);
        var presentRest := RunAll(pr, u);
        forall i | 0 <= i < |all.calls| ensures all.calls[i] == Some(present.calls[i]) {
          if i > 0 {
            assert all.calls[i] == allRest.calls[i - 1];
            assert present.calls[i] == presentRest.calls[i - 1];
          }
        }
      }
    }
  }

  /** On a sequence without nulls the older `Do` is the current one, up to
      the unwrapping of each argument. */
  lemma DoAgreesOnNullFreeSequences<S>(xs: seq<Option<S>>, action: Option<S> -> Outcome<()>)
    requires forall i :: 0 <= i < |xs| ==> xs[i].Some?
    ensures var older := Do(Some(xs), action);
            var current := MaybeSequence.DoResult(Some(xs), Unwrapped(action));
            && older.outcome == current.outcome
            && |older.calls| == |current.calls|
            && forall i :: 0 <= i < |older.calls| ==> older.calls[i] == Some(current.calls[i])
  {
    RunAllNullFree(xs, action);
  }

  /** A null element reaches the older `Do`'s action, while the current `Do`
      skips it. */
  lemma NullElementsReachTheOlderAction<S>(action: Option<S> -> Outcome<()>)
    requires action(None).Ok?
    ensures Do(Some([None]), action) == Traced([None], Ok(Some([None])))
    ensures MaybeSequence.DoResult(Some([None]), Unwrapped(action)) == Traced([], Ok(Some([None])))
  {
    var single: seq<Option<S>> := [None];
    assert single[1..] == [];
    assert MaybeSequence.Present(single) == [];
  }

  /** On a sequence without nulls the older `With` is the current one; on a
      null sequence the older gives null where the current gives an empty one. */
  lemma WithAgreesOnNullFreeSequences<S, R>(xs: seq<Option<S>>, action: Option<S> -> Outcome<R>, d: R)
    requires forall i :: 0 <= i < |xs| ==> xs[i].Some?
    ensures With(Some(xs), action).Ok? <==> MaybeSequence.With(Some(xs), Unwrapped(action), d).Ok?
    ensures With(Some(xs), action).Ok? ==>
              With(Some(xs), action).value == Some(MaybeSequence.With(Some(xs), Unwrapped(action), d).value)
    ensures With(Some(xs), action).Raise? ==>
              With(Some(xs), action).error == MaybeSequence.With(Some(xs), Unwrapped(action), d).error
    ensures With(None, action) == Ok(None) && MaybeSequence.With(None, Unwrapped(action), d) == Ok([])
  {
    var older := With(Some(xs), action);
    var current := MaybeSequence.With(Some(xs), Unwrapped(action), d);
    assert forall i :: 0 <= i < |xs| ==> Unwrapped(action)(xs[i].value) == action(xs[i]);
    if older.Ok? {
      assert older.value.value == current.value;
    }
    if older.Raise? {
      var i :| 0 <= i < |xs| && action(xs[i]) == Raise(older.error)
               && forall j :: 0 <= j < i ==> action(xs[j]).Ok?;
      var k :| 0 <= k < |xs| && xs[k].Some? && Unwrapped(action)(xs[k].value) == Raise(current.error)
               && forall j :: 0 <= j < k && xs[j].Some? ==> Unwrapped(action)(xs[j].value).Ok?;
      assert i == k;
    }
  }
}

module LegacyDictionary {
  import opened Core
  import MaybeDictionary

  /** `Do(action)`: `action(key, value)` on each entry in enumeration order. */
  function Do<K(!new), V>(source: Option<map<K, V>>, order: seq<K>, action: (K, V) -> Outcome<()>)
    : (r: Traced<(K, V), Option<map<K, V>>>)
    requires source.Some? ==> MaybeDictionary.EnumerationOf(order, source.value)
    ensures r == MaybeDictionary.Do(source, order, action)
  {
    if source != None then
      var t := RunAll(MaybeDictionary.Entries(order, source.value), MaybeDictionary.OnEntry(action));
      Traced(t.calls, if t.outcome.Raise? then Raise(t.outcome.error) else Ok(source))
    else Traced([], Ok(source))
  }

  /** `With(key)`: the value under `key`, `default(TValue)` otherwise. */
  function With<K, V>(source: Option<map<K, V>>, key: K, d: V): (r: V)
    ensures r == MaybeDictionary.With(source, key, d)
  {
    if source != None && key in source.value then source.value[key] else d
  }

  /** `Return(key, defaultValue)`: the value under `key`, `defaultValue` otherwise. */
  function Return<K, V>(source: Option<map<K, V>>, key: K, defaultValue: V): (r: V)
    ensures r == MaybeDictionary.Return(source, key, defaultValue)
  {
    if source != None && key in source.value then source.value[key] else defaultValue
  }
}

module LegacyArgumentCheck {
  import opened Core
  import ArgumentCheck

  /** `CheckNull(argumentName)`. */
  function CheckNull<S>(source: Option<S>, argumentName: string): (r: Outcome<S>)
    ensures r == ArgumentCheck.CheckNull(source, argumentName)
  {
    if source == None then Raise(ArgumentNull(argumentName)) else Ok(source.value)
  }

  /** `CheckNull(exceptionSource)`. */
  function CheckNullBy<S>(source: Option<S>, exceptionSource: () -> Outcome<Option<Exc>>): (r: Outcome<S>)
    ensures r == ArgumentCheck.CheckNullBy(source, exceptionSource)
  {
    if source == None then
      var made := exceptionSource();
      if made.Raise? then Raise(made.error) else Raise(Thrown(made.value))
    else Ok(source.value)
  }

  /** `CheckNullWithDefault(defaultValue)`. */
  function CheckNullWithDefault<S>(source: Option<S>, defaultValue: Option<S>): (r: Option<S>)
    ensures r == ArgumentCheck.CheckNullWithDefault(source, defaultValue)
  {
    if source == None then defaultValue else source
  }

  /** `Check(checkCondition, exceptionSource)`. */
  function Check<S>(source: S, checkCondition: S -> Outcome<bool>,
                    exceptionSource: S -> Outcome<Option<Exc>>): (r: Outcome<S>)
    ensures r == ArgumentCheck.Check(source, checkCondition, exceptionSource)
  {
    var passed := checkCondition(source);
    if passed.Raise? then Raise(passed.error)
    else if passed.value == false then
      var made := exceptionSource(source);
      if made.Raise? then Raise(made.error) else Raise(Thrown(made.value))
    else Ok(source)
  }

  /** `CheckWithDefault(checkCondition, defaultValue)`. */
  function CheckWithDefault<S>(source: S, checkCondition: S -> Outcome<bool>, defaultValue: S): (r: Outcome<S>)
    ensures r == ArgumentCheck.CheckWithDefault(source, checkCondition, defaultValue)
  {
    var passed := checkCondition(source);
    if passed.Raise? then Raise(passed.error)
    else if passed.value == false then Ok(defaultValue)
    else Ok(source)
  }
}
