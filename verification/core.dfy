/**
 Shared vocabulary of the Maybe helpers.

 - `Option<T>` stands for a reference that may be null and for a `Nullable<T>`
   whose `HasValue` may be false: `None` is the absent value.
 - Every caller-supplied callback may raise; it is a function returning an
   `Outcome<R>`, and a raise that a helper does not catch is returned as the
   helper's own `Raise` with the same exception.
 - A callback that returns nothing (an `Action`) is observed through a trace:
   `Traced.calls` lists the arguments it was invoked with, in order.
 - `Captured<T>` is the `Tuple<T, Exception>` the Try helpers return.
 */
module Core {

  datatype Option<+T> = None | Some(value: T)

  /** The exceptions the model can tell apart. */
  datatype Exc =
    | ArgumentNull(paramName: string)       // ArgumentNullException(paramName)
    | NullReference                         // what `throw null` raises
    | OutOfRange                            // what a list indexer raises for a negative position
    | Custom(kind: string, message: string) // any exception raised by a caller's callback

  /** What a call that may raise produces. */
  datatype Outcome<+R> = Ok(value: R) | Raise(error: Exc)
  {
    /** The same completion, carrying `u` instead of this outcome's value. */
    function Then<U>(u: U): (r: Outcome<U>)
      ensures r.Ok? <==> Ok?
      ensures r.Ok? ==> r.value == u
      ensures r.Raise? ==> r.error == error
    {
      match this
      case Ok(_) => Ok(u)
      case Raise(e) => Raise(e)
    }

    /** The exception slot of a Try helper's pair: the raised exception, or null. */
    function Failure(): (r: Option<Exc>)
      ensures r.Some? <==> Raise?
      ensures r.Some? ==> r.value == error
    {
      match this
      case Ok(_) => None
      case Raise(e) => Some(e)
    }
  }

  /** The calls made to a void callback, and how the whole operation completed. */
  datatype Traced<+A, +R> = Traced(calls: seq<A>, outcome: Outcome<R>)

  /** `Tuple<T, Exception>`: a value and the exception captured while computing it, if any. */
  datatype Captured<+T> = Captured(item1: T, item2: Option<Exc>)

  /** The exception `throw x` raises: `x` itself, or NullReferenceException when `x` is null. */
  function Thrown(x: Option<Exc>): (e: Exc)
    ensures x.Some? ==> e == x.value
    ensures x.None? ==> e.NullReference?
  {
    match x
    case Some(ex) => ex
    case None => NullReference
  }

  /** `expectedException.Any(exp => exp.IsInstanceOfType(ex))`, with the runtime
      instance-of test supplied as `isA`. */
  predicate AnyKind<K>(kinds: seq<K>, isA: (K, Exc) -> bool, e: Exc)
  {
    exists i :: 0 <= i < |kinds| && isA(kinds[i], e)
  }

  /** The catch clause shared by the filtered Try helpers: a pair whose exception
      `accept` approves is returned, one it rejects is re-raised unchanged, and a
      raise inside `accept` itself propagates. */
  function Admit<T>(p: Captured<T>, accept: Exc -> Outcome<bool>): (r: Outcome<Captured<T>>)
    ensures p.item2.None? ==> r == Ok(p)
    ensures p.item2.Some? ==> (r == Ok(p) <==> accept(p.item2.value) == Ok(true))
    ensures p.item2.Some? && accept(p.item2.value) == Ok(false) ==> r == Raise(p.item2.value)
    ensures p.item2.Some? && accept(p.item2.value).Raise? ==> r == accept(p.item2.value).Then(p)
  {
    match p.item2
    case None => Ok(p)
    case Some(e) =>
      match accept(e)
      case Raise(e2) => Raise(e2)
      case Ok(b) => if b then Ok(p) else Raise(e)
  }

  /** The effect of `foreach (var a in args) action(a);`: the calls are made in
      order and the first raise ends the loop and propagates. */
  function RunAll<A>(args: seq<A>, action: A -> Outcome<()>): (r: Traced<A, ()>)
    ensures r.calls <= args
    ensures forall i :: 0 <= i < |r.calls| - 1 ==> action(r.calls[i]).Ok?
    ensures r.outcome.Ok? <==> forall i :: 0 <= i < |args| ==> action(args[i]).Ok?
    ensures r.outcome.Ok? ==> r.calls == args
    ensures r.outcome.Raise? ==> r.calls != [] && action(r.calls[|r.calls| - 1]) == Raise(r.outcome.error)
    decreases |args|
  {
    if args == [] then Traced([], Ok(()))
    else
      match action(args[0])
      case Raise(e) => Traced([args[0]], Raise(e))
      case Ok(_) =>
        var rest := RunAll(args[1..], action);
        assert forall i :: 1 <= i < |args| ==> args[i] == args[1..][i - 1];
        Traced([args[0]] + rest.calls, rest.outcome)
  }

  /** One step of the walk: the first call, then the rest if it completed. */
  lemma RunAllUnfold<A>(args: seq<A>, action: A -> Outcome<()>)
    requires args != []
    ensures RunAll(args, action)
         == if action(args[0]).Ok?
            then Traced([args[0]] + RunAll(args[1..], action).calls, RunAll(args[1..], action).outcome)
            else Traced([args[0]], Raise(action(args[0]).error))
  {
  }

  /** Running over `a + b` is running over `a` and, if that completed, over `b`. */
  lemma {:induction false} RunAllAppend<A>(a: seq<A>, b: seq<A>, action: A -> Outcome<()>)
    ensures RunAll(a + b, action)
         == if RunAll(a, action).outcome.Ok?
            then Traced(a + RunAll(b, action).calls, RunAll(b, action).outcome)
            else RunAll(a, action)
    decreases |a|
  {
    if a == [] {
      assert a + b == b;
    } else {
      var ab := a + b;
      assert ab[0] == a[0] && ab[1..] == a[1..] + b;
      RunAllUnfold(a, action);
      RunAllUnfold(ab, action);
      if action(a[0]).Ok? {
        RunAllAppend(a[1..], b, action);
        if RunAll(a[1..], action).outcome.Ok? {
          assert [a[0]] + (a[1..] + RunAll(b, action).calls) == a + RunAll(b, action).calls;
        }
      }
    }
  }

  /** One more call after a walk that completed: the walk then ends as that call does. */
  lemma RunAllSnoc<A>(a: seq<A>, v: A, action: A -> Outcome<()>)
    requires RunAll(a, action).outcome.Ok?
    ensures RunAll(a + [v], action) == Traced(a + [v], action(v).Then(()))
  {
    RunAllAppend(a, [v], action);
    assert [v][1..] == [];
  }

  /** Element-wise conversion in which the first raise aborts the whole result,
      as enumerating a converted sequence does. */
  function MapAll<A, R>(xs: seq<A>, f: A -> Outcome<R>): (r: Outcome<seq<R>>)
    ensures r.Ok? <==> forall i :: 0 <= i < |xs| ==> f(xs[i]).Ok?
    ensures r.Ok? ==> |r.value| == |xs| && forall i :: 0 <= i < |xs| ==> f(xs[i]) == Ok(r.value[i])
    ensures r.Raise? ==>
              exists i :: 0 <= i < |xs| && f(xs[i]) == Raise(r.error)
                          && forall j :: 0 <= j < i ==> f(xs[j]).Ok?
    decreases |xs|
  {
    if xs == [] then Ok([])
    else
      match f(xs[0])
      case Raise(e) => Raise(e)
      case Ok(y) =>
        var rest := MapAll(xs[1..], f);
        assert forall i :: 1 <= i < |xs| ==> xs[i] == xs[1..][i - 1];
        match rest
        case Ok(ys) => Ok([y] + ys)
        case Raise(e) =>
          var i :| 0 <= i < |xs[1..]| && f(xs[1..][i]) == Raise(e)
                   && forall j :: 0 <= j < i ==> f(xs[1..][j]).Ok?;
          assert f(xs[i + 1]) == Raise(e);
          assert forall j :: 0 <= j < i + 1 ==> f(xs[j]).Ok?;
          Raise(e)
  }

  /** Two conversions that agree position by position, over sequences of the
      same length, give the same result. */
  lemma {:induction false} MapAllCongruent<A, B, R>(xs: seq<A>, f: A -> Outcome<R>, ys: seq<B>, g: B -> Outcome<R>)
    requires |xs| == |ys|
    requires forall i :: 0 <= i < |xs| ==> f(xs[i]) == g(ys[i])
    ensures MapAll(xs, f) == MapAll(ys, g)
    decreases |xs|
  {
    if xs != [] {
      assert forall i :: 0 <= i < |xs[1..]| ==> xs[1..][i] == xs[i + 1] && ys[1..][i] == ys[i + 1];
      MapAllCongruent(xs[1..], f, ys[1..], g);
    }
  }
}
