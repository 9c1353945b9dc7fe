/**
 The dictionary helpers (`MaybeIDictionary`).

 A dictionary is `Option<map<K, V>>`. The order in which a dictionary
 enumerates its entries is up to its implementation; it is the parameter
 `order`, which lists every key exactly once.
 */
module MaybeDictionary {
  import opened Core

  /** `order` is one enumeration of `m`: each key of `m` once, and nothing else. */
  ghost predicate EnumerationOf<K(!new), V>(order: seq<K>, m: map<K, V>)
  {
    && (forall i, j :: 0 <= i < j < |order| ==> order[i] != order[j])
    && (forall k :: k in m <==> k in order)
  }

  /** The entries of `m` in the order `order` lists their keys. */
  function Entries<K, V>(order: seq<K>, m: map<K, V>): (r: seq<(K, V)>)
    requires forall k :: k in order ==> k in m
    ensures |r| == |order|
    ensures forall i :: 0 <= i < |order| ==> r[i] == (order[i], m[order[i]])
  {
    seq(|order|, i requires 0 <= i < |order| => (order[i], m[order[i]]))
  }

  /** An enumeration is exactly as long as the dictionary has entries. */
  lemma {:induction false} EnumerationLength<K(!new), V>(order: seq<K>, m: map<K, V>)
    requires EnumerationOf(order, m)
    ensures |order| == |m|
    decreases |order|
  {
    if order == [] {
      assert m.Keys == {};
    } else {
      var k := order[0];
      var rest := m - {k};
      assert forall i :: 1 <= i < |order| ==> order[1..][i - 1] == order[i];
      forall k' ensures k' in rest <==> k' in order[1..] {
        if k' in order[1..] {
          var i :| 0 <= i < |order[1..]| && order[1..][i] == k';
          assert order[i + 1] == k' && order[0] != order[i + 1];
        }
        if k' in m && k' != k {
          var i :| 0 <= i < |order| && order[i] == k';
          assert i != 0 && order[1..][i - 1] == k';
        }
      }
      assert EnumerationOf(order[1..], rest);
      EnumerationLength(order[1..], rest);
      assert rest.Keys == m.Keys - {k};
    }
  }

  /** The dictionary action applied to one entry. */
  function OnEntry<K, V>(action: (K, V) -> Outcome<()>): ((K, V)) -> Outcome<()>
  {
    (p: (K, V)) => action(p.0, p.1)
  }

  /** The walk's calls are entries of the dictionary, each key at most once. */
  lemma WalkCallsAreEntries<K(!new), V>(order: seq<K>, m: map<K, V>, action: (K, V) -> Outcome<()>)
    requires EnumerationOf(order, m)
    ensures var calls := RunAll(Entries(order, m), OnEntry(action)).calls;
            && (forall i :: 0 <= i < |calls| ==> calls[i].0 in m && calls[i].1 == m[calls[i].0])
            && (forall i, j :: 0 <= i < j < |calls| ==> calls[i].0 != calls[j].0)
  {
    var entries := Entries(order, m);
    var calls := RunAll(entries, OnEntry(action)).calls;
    assert forall i :: 0 <= i < |calls| ==> calls[i] == entries[i] == (order[i], m[order[i]]);
  }

  /** The walk follows the enumeration, every call but the last completed, and
      a raised walk ends at the entry that raised. */
  lemma WalkStopsAtFirstRaise<K(!new), V>(order: seq<K>, m: map<K, V>, action: (K, V) -> Outcome<()>)
    requires EnumerationOf(order, m)
    ensures var t := RunAll(Entries(order, m), OnEntry(action));
            && t.calls <= Entries(order, m)
            && (forall i :: 0 <= i < |t.calls| - 1 ==> action(t.calls[i].0, t.calls[i].1).Ok?)
            && (t.outcome.Raise? ==>
                  t.calls != [] && action(t.calls[|t.calls| - 1].0, t.calls[|t.calls| - 1].1) == Raise(t.outcome.error))
  {
    var t := RunAll(Entries(order, m), OnEntry(action));
    assert forall i :: 0 <= i < |t.calls| ==> OnEntry(action)(t.calls[i]) == action(t.calls[i].0, t.calls[i].1);
  }

  /** The walk completes exactly when the action completes on every entry. */
  lemma WalkCompletes<K(!new), V>(order: seq<K>, m: map<K, V>, action: (K, V) -> Outcome<()>)
    requires EnumerationOf(order, m)
    ensures RunAll(Entries(order, m), OnEntry(action)).outcome.Ok?
        <==> forall k :: k in m ==> action(k, m[k]).Ok?
  {
    var entries := Entries(order, m);
    if forall i :: 0 <= i < |entries| ==> OnEntry(action)(entries[i]).Ok? {
      forall k | k in m ensures action(k, m[k]).Ok? {
        var i :| 0 <= i < |order| && order[i] == k;
        assert OnEntry(action)(entries[i]).Ok?;
      }
    } else {
      var i :| 0 <= i < |entries| && !OnEntry(action)(entries[i]).Ok?;
      assert order[i] in m && !action(order[i], m[order[i]]).Ok?;
    }
  }

  /** A completed walk has visited every entry, once. */
  lemma WalkCovers<K(!new), V>(order: seq<K>, m: map<K, V>, action: (K, V) -> Outcome<()>)
    requires EnumerationOf(order, m)
    requires RunAll(Entries(order, m), OnEntry(action)).outcome.Ok?
    ensures var calls := RunAll(Entries(order, m), OnEntry(action)).calls;
            |calls| == |m| && forall k :: k in m ==> (k, m[k]) in calls
  {
    var entries := Entries(order, m);
    var calls := RunAll(entries, OnEntry(action)).calls;
    assert calls == entries;
    EnumerationLength(order, m);
    forall k | k in m ensures (k, m[k]) in calls {
      var i :| 0 <= i < |order| && order[i] == k;
      assert calls[i] == (k, m[k]);
    }
  }

  /** `Do(action)`: nothing on a null dictionary; otherwise `action(key, value)`
      for each entry in enumeration order, a raise ending the walk. */
  function Do<K(!new), V>(source: Option<map<K, V>>, order: seq<K>, action: (K, V) -> Outcome<()>)
    : (r: Traced<(K, V), Option<map<K, V>>>)
    requires source.Some? ==> EnumerationOf(order, source.value)
    ensures source.None? ==> r == Traced([], Ok(source))
    ensures r.outcome.Ok? ==> r.outcome.value == source
    ensures source.Some? ==>
              (r.outcome.Ok? <==> forall k :: k in source.value ==> action(k, source.value[k]).Ok?)
    ensures source.Some? && r.outcome.Ok? ==>
              && |r.calls| == |source.value|
              && forall k :: k in source.value ==> (k, source.value[k]) in r.calls
    ensures source.Some? ==>
              forall i :: 0 <= i < |r.calls| ==>
                r.calls[i].0 in source.value && r.calls[i].1 == source.value[r.calls[i].0]
    ensures forall i, j :: 0 <= i < j < |r.calls| ==> r.calls[i].0 != r.calls[j].0
    ensures source.Some? && r.outcome.Raise? ==>
              && r.calls != []
              && action(r.calls[|r.calls| - 1].0, r.calls[|r.calls| - 1].1) == Raise(r.outcome.error)
  {
    match source
    case None => Traced([], Ok(source))
    case Some(m) =>
      var t := RunAll(Entries(order, m), OnEntry(action));
      WalkCallsAreEntries(order, m, action);
      WalkCompletes(order, m, action);
      if t.outcome.Ok? then
        WalkCovers(order, m, action);
        Traced(t.calls, Ok(source))
      else
        assert OnEntry(action)(t.calls[|t.calls| - 1]) == Raise(t.outcome.error);
        Traced(t.calls, Raise(t.outcome.error))
  }

  /** The walk of `Do` follows the enumeration order and stops at the first
      entry whose action raises: every call before the last one completed. */
  lemma DoStopsAtFirstRaise<K(!new), V>(source: Option<map<K, V>>, order: seq<K>, action: (K, V) -> Outcome<()>)
    requires source.Some? ==> EnumerationOf(order, source.value)
    ensures source.Some? ==> Do(source, order, action).calls <= Entries(order, source.value)
    ensures var calls := Do(source, order, action).calls;
            forall i :: 0 <= i < |calls| - 1 ==> action(calls[i].0, calls[i].1).Ok?
  {
    if source.Some? {
      WalkStopsAtFirstRaise(order, source.value, action);
    }
  }

  /** `With(key)`: the value stored under `key`; `default(TValue)` when the
      dictionary is null or has no such key. It never raises. */
  function With<K, V>(source: Option<map<K, V>>, key: K, d: V): (r: V)
    ensures source.Some? && key in source.value ==> r == source.value[key]
    ensures source.None? || key !in source.value ==> r == d
  {
    if source.Some? && key in source.value then source.value[key] else d
  }

  /** `Return(key, defaultValue)`: the value stored under `key`; exactly
      `defaultValue` when the dictionary is null or has no such key. */
  function Return<K, V>(source: Option<map<K, V>>, key: K, defaultValue: V): (r: V)
    ensures source.Some? && key in source.value ==> r == source.value[key]
    ensures source.None? || key !in source.value ==> r == defaultValue
  {
    match source
    case None => defaultValue
    case Some(m) => if key in m then m[key] else defaultValue
  }

  /** `With` is `Return` with `default(TValue)`; a lookup changes nothing when
      the key is known to be present, whatever the default. */
  lemma WithIsReturnOfDefault<K, V>(source: Option<map<K, V>>, key: K, d: V, other: V)
    ensures With(source, key, d) == Return(source, key, d)
    ensures source.Some? && key in source.value ==> Return(source, key, d) == Return(source, key, other)
  {
  }
}
