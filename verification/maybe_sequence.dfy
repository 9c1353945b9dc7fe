/**
 The sequence helpers (`MaybeIEnumerable`).

 A sequence is `Option<seq<Option<S>>>`: the sequence itself may be null and
 so may each element. Reference elements and `Nullable<T>` elements are the
 same thing here (an absent element is `None` and the callback receives the
 unwrapped value), so one member models both overload families, and the
 non-generic `IEnumerable` overload is the case `S = object`.

 `Do` and `DoIndexed` are written as the loops of the source and proved equal
 to reference definitions (`DoResult`, `DoIndexedResult`) that run the
 callback over the non-null elements in one go.
 */
module MaybeSequence {
  import opened Core

  /** The non-null elements of `xs`, unwrapped, in order. */
  function Present<S>(xs: seq<Option<S>>): (r: seq<S>)
    ensures |r| <= |xs|
    ensures (forall i :: 0 <= i < |xs| ==> xs[i].Some?) ==>
              |r| == |xs| && forall i :: 0 <= i < |xs| ==> xs[i] == Some(r[i])
    decreases |xs|
  {
    if xs == [] then []
    else
      assert forall i :: 1 <= i < |xs| ==> xs[i] == xs[1..][i - 1];
      (if xs[0].Some? then [xs[0].value] else []) + Present(xs[1..])
  }

  /** The non-null elements of `xs` paired with their positions, counted from
      `from` over every element, null or not. */
  function Numbered<S>(xs: seq<Option<S>>, from: int): seq<(S, int)>
    decreases |xs|
  {
    if xs == [] then []
    else (if xs[0].Some? then [(xs[0].value, from)] else []) + Numbered(xs[1..], from + 1)
  }

  /** `(v, n)` names the non-null element `v` at position `n - from` of `xs`. */
  ghost predicate Placed<S>(xs: seq<Option<S>>, from: int, e: (S, int))
  {
    from <= e.1 < from + |xs| && xs[e.1 - from] == Some(e.0)
  }

  /** Each numbered element sits at its position in the full sequence. */
  lemma {:induction false} NumberedSound<S>(xs: seq<Option<S>>, from: int)
    ensures forall j :: 0 <= j < |Numbered(xs, from)| ==> Placed(xs, from, Numbered(xs, from)[j])
    decreases |xs|
  {
    if xs != [] {
      var head := if xs[0].Some? then [(xs[0].value, from)] else [];
      var rest := Numbered(xs[1..], from + 1);
      NumberedSound(xs[1..], from + 1);
      var r := Numbered(xs, from);
      assert r == head + rest;
      forall j | 0 <= j < |r| ensures Placed(xs, from, r[j]) {
        if j < |head| {
          assert r[j] == (xs[0].value, from);
        } else {
          var q := rest[j - |head|];
          assert r[j] == q;
          assert Placed(xs[1..], from + 1, q);
          assert xs[1..][q.1 - (from + 1)] == xs[q.1 - from];
        }
      }
    }
  }

  /** Positions increase strictly along the numbering. */
  lemma {:induction false} NumberedIncreasing<S>(xs: seq<Option<S>>, from: int)
    ensures forall j, k :: 0 <= j < k < |Numbered(xs, from)| ==> Numbered(xs, from)[j].1 < Numbered(xs, from)[k].1
    decreases |xs|
  {
    if xs != [] {
      var head := if xs[0].Some? then [(xs[0].value, from)] else [];
      var rest := Numbered(xs[1..], from + 1);
      NumberedIncreasing(xs[1..], from + 1);
      NumberedSound(xs[1..], from + 1);
      var r := Numbered(xs, from);
      assert r == head + rest;
      forall j, k | 0 <= j < k < |r| ensures r[j].1 < r[k].1 {
        var q := rest[k - |head|];
        assert r[k] == q;
        assert Placed(xs[1..], from + 1, q);
        if j < |head| {
          assert r[j] == (xs[0].value, from);
        } else {
          assert r[j] == rest[j - |head|];
          assert rest[j - |head|].1 < rest[k - |head|].1;
        }
      }
    }
  }

  /** Every non-null element is numbered with its position. */
  lemma {:induction false} NumberedComplete<S>(xs: seq<Option<S>>, from: int)
    ensures forall p :: 0 <= p < |xs| && xs[p].Some? ==> (xs[p].value, from + p) in Numbered(xs, from)
    decreases |xs|
  {
    if xs != [] {
      var head := if xs[0].Some? then [(xs[0].value, from)] else [];
      var rest := Numbered(xs[1..], from + 1);
      NumberedComplete(xs[1..], from + 1);
      assert Numbered(xs, from) == head + rest;
      forall p | 0 <= p < |xs| && xs[p].Some?
        ensures (xs[p].value, from + p) in Numbered(xs, from)
      {
        if p > 0 {
          assert xs[1..][p - 1] == xs[p];
          assert (xs[p].value, from + p) in rest;
        }
      }
    }
  }

  /** Each numbered element sits at its position in the full sequence, positions
      increase strictly, and every non-null element is numbered. */
  lemma NumberedPositions<S>(xs: seq<Option<S>>, from: int)
    ensures var r := Numbered(xs, from);
            && (forall j :: 0 <= j < |r| ==> Placed(xs, from, r[j]))
            && (forall j, k :: 0 <= j < k < |r| ==> r[j].1 < r[k].1)
            && (forall p :: 0 <= p < |xs| && xs[p].Some? ==> (xs[p].value, from + p) in r)
  {
    NumberedSound(xs, from);
    NumberedIncreasing(xs, from);
    NumberedComplete(xs, from);
  }

  lemma {:induction false} PresentAppend<S>(a: seq<Option<S>>, b: seq<Option<S>>)
    ensures Present(a + b) == Present(a) + Present(b)
    decreases |a|
  {
    if a == [] {
      assert a + b == b;
    } else {
      var ab := a + b;
      assert ab[0] == a[0] && ab[1..] == a[1..] + b;
      PresentAppend(a[1..], b);
      var head := if a[0].Some? then [a[0].value] else [];
      assert Present(ab) == head + Present(ab[1..]);
      assert Present(a) == head + Present(a[1..]);
      assert head + (Present(a[1..]) + Present(b)) == (head + Present(a[1..])) + Present(b);
    }
  }

  lemma {:induction false} NumberedAppend<S>(a: seq<Option<S>>, b: seq<Option<S>>, from: int)
    ensures Numbered(a + b, from) == Numbered(a, from) + Numbered(b, from + |a|)
    decreases |a|
  {
    if a == [] {
      assert a + b == b;
    } else {
      var ab := a + b;
      assert ab[0] == a[0];
      assert ab[1..] == a[1..] + b;
      NumberedAppend(a[1..], b, from + 1);
      var head := if a[0].Some? then [(a[0].value, from)] else [];
      assert Numbered(ab, from) == head + Numbered(ab[1..], from + 1);
      assert Numbered(a, from) == head + Numbered(a[1..], from + 1);
      assert head + (Numbered(a[1..], from + 1) + Numbered(b, from + |a|))
          == (head + Numbered(a[1..], from + 1)) + Numbered(b, from + |a|);
    }
  }

  /** What `Do(action)` does: nothing on a null sequence; otherwise `action` on
      each non-null element in order, a raise ending the walk and propagating. */
  function DoResult<S>(source: Option<seq<Option<S>>>, action: S -> Outcome<()>): (r: Traced<S, Option<seq<Option<S>>>>)
    ensures source.None? ==> r == Traced([], Ok(source))
    ensures r.outcome.Ok? ==> r.outcome.value == source
    ensures source.Some? && r.outcome.Ok? ==> r.calls == Present(source.value)
    ensures source.Some? ==>
              (r.outcome.Ok? <==> forall j :: 0 <= j < |Present(source.value)| ==> action(Present(source.value)[j]).Ok?)
    ensures source.Some? && r.outcome.Raise? ==>
              && r.calls <= Present(source.value)
              && r.calls != []
              && action(r.calls[|r.calls| - 1]) == Raise(r.outcome.error)
    ensures forall i :: 0 <= i < |r.calls| - 1 ==> action(r.calls[i]).Ok?
  {
    match source
    case None => Traced([], Ok(source))
    case Some(xs) =>
      var t := RunAll(Present(xs), action);
      assert t.outcome.Ok? <==> forall j :: 0 <= j < |Present(xs)| ==> action(Present(xs)[j]).Ok?;
      Traced(t.calls, t.outcome.Then(source))
  }

  /** The indexed action applied to an element paired with its position. */
  function Spread<S>(action: (S, int) -> Outcome<()>): ((S, int)) -> Outcome<()>
  {
    (p: (S, int)) => action(p.0, p.1)
  }

  /** What the indexed `Do(action)` does: `action(element, position)` on each
      non-null element, the position counting the null elements too. */
  function DoIndexedResult<S>(source: Option<seq<Option<S>>>, action: (S, int) -> Outcome<()>)
    : (r: Traced<(S, int), Option<seq<Option<S>>>>)
    ensures source.None? ==> r == Traced([], Ok(source))
    ensures r.outcome.Ok? ==> r.outcome.value == source
    ensures source.Some? && r.outcome.Ok? ==> r.calls == Numbered(source.value, 0)
    ensures source.Some? ==>
              forall j :: 0 <= j < |r.calls| ==>
                0 <= r.calls[j].1 < |source.value| && source.value[r.calls[j].1] == Some(r.calls[j].0)
    ensures source.Some? ==>
              (r.outcome.Ok? <==>
                 forall i :: 0 <= i < |source.value| && source.value[i].Some? ==> action(source.value[i].value, i).Ok?)
    ensures source.Some? && r.outcome.Raise? ==>
              && r.calls <= Numbered(source.value, 0)
              && r.calls != []
              && action(r.calls[|r.calls| - 1].0, r.calls[|r.calls| - 1].1) == Raise(r.outcome.error)
    ensures forall i :: 0 <= i < |r.calls| - 1 ==> action(r.calls[i].0, r.calls[i].1).Ok?
  {
    match source
    case None => Traced([], Ok(source))
    case Some(xs) =>
      var step := Spread(action);
      var t := RunAll(Numbered(xs, 0), step);
      NumberedPositions(xs, 0);
      assert forall j :: 0 <= j < |t.calls| ==> t.calls[j] == Numbered(xs, 0)[j];
      NumberedCompletes(xs, action);
      Traced(t.calls, t.outcome.Then(source))
  }

  /** The indexed walk completes exactly when the action completes on every
      non-null element at its position. */
  lemma NumberedCompletes<S>(xs: seq<Option<S>>, action: (S, int) -> Outcome<()>)
    ensures RunAll(Numbered(xs, 0), Spread(action)).outcome.Ok?
        <==> forall i :: 0 <= i < |xs| && xs[i].Some? ==> action(xs[i].value, i).Ok?
  {
    var step := Spread(action);
    var numbered := Numbered(xs, 0);
    NumberedPositions(xs, 0);
    if forall j :: 0 <= j < |numbered| ==> step(numbered[j]).Ok? {
      forall i | 0 <= i < |xs| && xs[i].Some? ensures action(xs[i].value, i).Ok? {
        assert (xs[i].value, 0 + i) in numbered;
        var j :| 0 <= j < |numbered| && numbered[j] == (xs[i].value, i);
        assert step(numbered[j]).Ok?;
      }
    } else {
      var j :| 0 <= j < |numbered| && !step(numbered[j]).Ok?;
      assert Placed(xs, 0, numbered[j]);
      var i := numbered[j].1;
      assert 0 <= i < |xs| && xs[i] == Some(numbered[j].0);
      assert !action(xs[i].value, i).Ok?;
    }
  }

  /** One iteration of the foreach of `Do`, stated over the prefix walked so far. */
  lemma DoStep<S>(xs: seq<Option<S>>, i: nat, action: S -> Outcome<()>)
    requires i < |xs|
    requires RunAll(Present(xs[..i]), action).outcome.Ok?
    ensures RunAll(Present(xs[..i + 1]), action)
         == if xs[i].Some?
            then Traced(Present(xs[..i]) + [xs[i].value], action(xs[i].value).Then(()))
            else RunAll(Present(xs[..i]), action)
  {
    var walked, x := xs[..i], xs[i];
    assert xs[..i + 1] == walked + [x];
    PresentAppend(walked, [x]);
    PresentOne(x);
    if x.Some? {
      assert Present(xs[..i + 1]) == Present(walked) + [x.value];
      RunAllSnoc(Present(walked), x.value, action);
    } else {
      assert Present(walked) + [] == Present(walked);
      assert Present(xs[..i + 1]) == Present(walked);
    }
  }

  /** A single element is present when it is not null. */
  lemma PresentOne<S>(x: Option<S>)
    ensures Present([x]) == if x.Some? then [x.value] else []
  {
    assert [x][1..] == [];
  }

  /** Once the walk over a prefix has raised, the rest of the sequence is never visited. */
  lemma {:induction false} DoStop<S>(xs: seq<Option<S>>, i: nat, action: S -> Outcome<()>)
    requires i <= |xs|
    requires RunAll(Present(xs[..i]), action).outcome.Raise?
    ensures RunAll(Present(xs), action) == RunAll(Present(xs[..i]), action)
  {
    var rest := xs[i..];
    assert xs == xs[..i] + rest;
    PresentAppend(xs[..i], rest);
    RunAllAppend(Present(xs[..i]), Present(rest), action);
  }

  /** A single element is numbered with the given position when it is not null. */
  lemma NumberedOne<S>(x: Option<S>, at: int)
    ensures Numbered([x], at) == if x.Some? then [(x.value, at)] else []
  {
    assert [x][1..] == [];
  }

  /** One iteration of the foreach of the indexed `Do`. */
  lemma DoIndexedStep<S>(xs: seq<Option<S>>, i: nat, step: ((S, int)) -> Outcome<()>)
    requires i < |xs|
    requires RunAll(Numbered(xs[..i], 0), step).outcome.Ok?
    ensures RunAll(Numbered(xs[..i + 1], 0), step)
         == if xs[i].Some?
            then Traced(Numbered(xs[..i], 0) + [(xs[i].value, i)], step((xs[i].value, i)).Then(()))
            else RunAll(Numbered(xs[..i], 0), step)
  {
    var walked, x := xs[..i], xs[i];
    assert xs[..i + 1] == walked + [x];
    NumberedAppend(walked, [x], 0);
    NumberedOne(x, i);
    if x.Some? {
      assert Numbered(xs[..i + 1], 0) == Numbered(walked, 0) + [(x.value, i)];
      RunAllSnoc(Numbered(walked, 0), (x.value, i), step);
    } else {
      assert Numbered(walked, 0) + [] == Numbered(walked, 0);
      assert Numbered(xs[..i + 1], 0) == Numbered(walked, 0);
    }
  }

  /** Once the indexed walk over a prefix has raised, the rest is never visited. */
  lemma {:induction false} DoIndexedStop<S>(xs: seq<Option<S>>, i: nat, step: ((S, int)) -> Outcome<()>)
    requires i <= |xs|
    requires RunAll(Numbered(xs[..i], 0), step).outcome.Raise?
    ensures RunAll(Numbered(xs, 0), step) == RunAll(Numbered(xs[..i], 0), step)
  {
    var walked, rest := xs[..i], xs[i..];
    assert walked + rest == xs;
    NumberedAppend(walked, rest, 0);
    assert Numbered(xs, 0) == Numbered(walked, 0) + Numbered(rest, i);
    RunAllAppend(Numbered(walked, 0), Numbered(rest, i), step);
  }

  /** `Do(action)` on a sequence: the foreach of the source, which skips null
      elements and returns the sequence. */
  method Do<S>(source: Option<seq<Option<S>>>, action: S -> Outcome<()>) returns (r: Traced<S, Option<seq<Option<S>>>>)
    ensures r == DoResult(source, action)
  {
    if source.None? {
      return Traced([], Ok(source));
    }
    var xs := source.value;
    var calls: seq<S> := [];
    var i := 0;
    while i < |xs|
      invariant 0 <= i <= |xs|
      invariant RunAll(Present(xs[..i]), action) == Traced(calls, Ok(()))
    {
      var element := xs[i];
      DoStep(xs, i, action);
      if element.Some? {
        calls := calls + [element.value];
        var done := action(element.value);
        if done.Raise? {
          DoStop(xs, i + 1, action);
          return Traced(calls, Raise(done.error));
        }
      }
      i := i + 1;
    }
    assert xs[..i] == xs;
    return Traced(calls, Ok(source));
  }

  /** The indexed `Do(action)`: `iter` starts at -1 and is incremented for every
      element, null or not, before the null test. */
  method DoIndexed<S>(source: Option<seq<Option<S>>>, action: (S, int) -> Outcome<()>)
    returns (r: Traced<(S, int), Option<seq<Option<S>>>>)
    ensures r == DoIndexedResult(source, action)
  {
    if source.None? {
      return Traced([], Ok(source));
    }
    var xs := source.value;
    var step := Spread(action);
    var calls: seq<(S, int)> := [];
    var iter := -1;
    var i := 0;
    while i < |xs|
      invariant 0 <= i <= |xs|
      invariant iter == i - 1
      invariant RunAll(Numbered(xs[..i], 0), step) == Traced(calls, Ok(()))
    {
      var element := xs[i];
      iter := iter + 1;
      DoIndexedStep(xs, i, step);
      if element.Some? {
        calls := calls + [(element.value, iter)];
        var done := action(element.value, iter);
        if done.Raise? {
          DoIndexedStop(xs, i + 1, step);
          return Traced(calls, Raise(done.error));
        }
      }
      i := i + 1;
    }
    assert xs[..i] == xs;
    return Traced(calls, Ok(source));
  }

  /** `With(action)`: one output per input element, `default(TResult)` where the
      element is null; a null sequence yields an empty one (an iterator that
      yields nothing). */
  function With<S, R>(source: Option<seq<Option<S>>>, action: S -> Outcome<R>, d: R): (r: Outcome<seq<R>>)
    ensures source.None? ==> r == Ok([])
    ensures source.Some? && r.Ok? ==>
              && |r.value| == |source.value|
              && forall i :: 0 <= i < |source.value| ==>
                   if source.value[i].None? then r.value[i] == d else action(source.value[i].value) == Ok(r.value[i])
    ensures source.Some? ==>
              (r.Ok? <==> forall i :: 0 <= i < |source.value| && source.value[i].Some? ==> action(source.value[i].value).Ok?)
    ensures r.Raise? ==>
              source.Some? &&
              exists i :: 0 <= i < |source.value| && source.value[i].Some?
                          && action(source.value[i].value) == Raise(r.error)
                          && forall j :: 0 <= j < i && source.value[j].Some? ==> action(source.value[j].value).Ok?
  {
    match source
    case None => Ok([])
    case Some(xs) => MapAll(xs, Defaulted(action, d))
  }

  /** The indexed `With(action)`: `action(element, position)` for a non-null
      element, `default(TResult)` for a null one. */
  function WithIndexed<S, R>(source: Option<seq<Option<S>>>, action: (S, int) -> Outcome<R>, d: R): (r: Outcome<seq<R>>)
    ensures source.None? ==> r == Ok([])
    ensures source.Some? && r.Ok? ==>
              && |r.value| == |source.value|
              && forall i :: 0 <= i < |source.value| ==>
                   if source.value[i].None? then r.value[i] == d else action(source.value[i].value, i) == Ok(r.value[i])
    ensures source.Some? ==>
              (r.Ok? <==> forall i :: 0 <= i < |source.value| && source.value[i].Some? ==> action(source.value[i].value, i).Ok?)
    ensures r.Raise? ==>
              source.Some? &&
              exists i :: 0 <= i < |source.value| && source.value[i].Some?
                          && action(source.value[i].value, i) == Raise(r.error)
                          && forall j :: 0 <= j < i && source.value[j].Some? ==> action(source.value[j].value, j).Ok?
  {
    match source
    case None => Ok([])
    case Some(xs) => MapAll(Positioned(xs), DefaultedAt(action, d))
  }

  /** The converter `With` applies to each element: `default(TResult)` for a null one. */
  function Defaulted<S, R>(action: S -> Outcome<R>, d: R): Option<S> -> Outcome<R>
  {
    (e: Option<S>) => if e.Some? then action(e.value) else Ok(d)
  }

  /** Each element paired with its position. */
  function Positioned<S>(xs: seq<Option<S>>): (r: seq<(Option<S>, int)>)
    ensures |r| == |xs|
    ensures forall i :: 0 <= i < |xs| ==> r[i] == (xs[i], i)
  {
    seq(|xs|, i requires 0 <= i < |xs| => (xs[i], i))
  }

  /** The converter the indexed `With` applies to each positioned element. */
  function DefaultedAt<S, R>(action: (S, int) -> Outcome<R>, d: R): ((Option<S>, int)) -> Outcome<R>
  {
    (p: (Option<S>, int)) => if p.0.Some? then action(p.0.value, p.1) else Ok(d)
  }

  /** An indexed conversion that ignores the position is the plain `With`. */
  lemma WithIndexedIgnoringPositionIsWith<S, R>(source: Option<seq<Option<S>>>, action: S -> Outcome<R>, d: R)
    ensures WithIndexed(source, (x: S, i: int) => action(x), d) == With(source, action, d)
  {
    if source.Some? {
      var xs := source.value;
      MapAllCongruent(Positioned(xs), DefaultedAt((x: S, i: int) => action(x), d), xs, Defaulted(action, d));
    }
  }
}
