/** Folding event streams into projections (statum-core/src/projection.rs). */
module Projection {
  import opened Common

  /** A reducer: the first event of a stream seeds the projection, later ones are applied to it. */
  datatype Reducer<!E, !P, !X> = Reducer(seed: E -> Result<P, X>, apply: (P, E) -> Result<P, X>)

  datatype ProjectionError<+X> = EmptyInput | Rejected(error: X)

  // ---- One stream ----

  /** The fold as a function of the whole stream, last event outermost. */
  function Reduced<E, P, X>(r: Reducer<E, P, X>, events: seq<E>): Result<P, ProjectionError<X>> {
    if events == [] then Err(EmptyInput)
    else
      var last := events[|events| - 1];
      if |events| == 1 then match r.seed(last) case Ok(p) => Ok(p) case Err(x) => Err(Rejected(x))
      else match Reduced(r, events[..|events| - 1])
        case Err(x) => Err(x)
        case Ok(p) => match r.apply(p, last) case Ok(q) => Ok(q) case Err(x) => Err(Rejected(x))
  }

  lemma {:induction false} ErrorsPersist<E, P, X>(r: Reducer<E, P, X>, events: seq<E>, n: nat)
    requires 0 < n <= |events| && Reduced(r, events[..n]).Err?
    ensures Reduced(r, events) == Reduced(r, events[..n])
    decreases |events|
  {
    if n == |events| {
      assert events[..n] == events;
    } else {
      var front := events[..|events| - 1];
      assert front[..n] == events[..n];
      ErrorsPersist(r, front, n);
    }
  }

  method ReduceOne<E, P, X>(events: seq<E>, r: Reducer<E, P, X>) returns (result: Result<P, ProjectionError<X>>)
    ensures result == Reduced(r, events)
  {
    if events == [] {
      return Err(EmptyInput);
    }
    var seeded := r.seed(events[0]);
    assert events[..1] == [events[0]];
    if seeded.Err? {
      ErrorsPersist(r, events, 1);
      return Err(Rejected(seeded.error));
    }
    var projection := seeded.value;
    for i := 1 to |events|
      invariant Reduced(r, events[..i]) == Ok(projection)
    {
      assert events[..i + 1][..i] == events[..i];
      var applied := r.apply(projection, events[i]);
      if applied.Err? {
        ErrorsPersist(r, events, i + 1);
        return Err(Rejected(applied.error));
      }
      projection := applied.value;
    }
    assert events[..|events|] == events;
    return Ok(projection);
  }

  // ---- Many streams ----

  function KeyIs<E(!new), K(==, !new)>(key: E -> K, k: K): E -> bool {
    (e: E) => key(e) == k
  }

  /** The events of one key, in encounter order. */
  function Group<E(!new), K(==, !new)>(key: E -> K, events: seq<E>, k: K): seq<E> {
    Filter(KeyIs(key, k), events)
  }

  /** The keys in first-seen order. */
  function FirstSeen<E, K(==)>(key: E -> K, events: seq<E>): seq<K> {
    if events == [] then []
    else
      var seen, k := FirstSeen(key, events[..|events| - 1]), key(events[|events| - 1]);
      if k in seen then seen else seen + [k]
  }

  /** A key is listed exactly when some event has it, and once. */
  lemma {:induction false} FirstSeenKeys<E(!new), K(!new)>(key: E -> K, events: seq<E>)
    ensures Distinct(FirstSeen(key, events))
    ensures forall e :: e in events ==> key(e) in FirstSeen(key, events)
    ensures forall k :: k in FirstSeen(key, events) ==> exists e :: e in events && key(e) == k
  {
    if events == [] {
    } else {
      var front, last := events[..|events| - 1], events[|events| - 1];
      FirstSeenKeys(key, front);
      assert last in events;
      forall e | e in events ensures key(e) in FirstSeen(key, events) {
        assert e in front || e == last;
      }
      forall k | k in FirstSeen(key, events) ensures exists e :: e in events && key(e) == k {
        if k in FirstSeen(key, front) {
          var e :| e in front && key(e) == k;
          assert e in events;
        }
      }
    }
  }

  lemma GroupAppend<E(!new), K(!new)>(key: E -> K, front: seq<E>, last: E, k: K)
    ensures Group(key, front + [last], k) == Group(key, front, k) + if key(last) == k then [last] else []
  {
    FilterConcat(KeyIs(key, k), front, [last]);
    assert [last][1..] == [];
  }

  /** The event at `i` is where its own group first fails. */
  predicate FailsAt<E(!new), K(==, !new), P, X>(r: Reducer<E, P, X>, key: E -> K, events: seq<E>, i: nat)
    requires i < |events|
  {
    Reduced(r, Group(key, events[..i + 1], key(events[i]))).Err?
  }

  ghost predicate NoneFails<E(!new), K(!new), P, X>(r: Reducer<E, P, X>, key: E -> K, events: seq<E>, n: nat)
    requires n <= |events|
  {
    forall i :: 0 <= i < n ==> !FailsAt(r, key, events, i)
  }

  /** What a grouped fold should return, in terms of the per-key folds alone. */
  ghost predicate IsGroupedResult<E(!new), K(!new), P, X>(
    r: Reducer<E, P, X>, key: E -> K, events: seq<E>, result: Result<seq<P>, ProjectionError<X>>)
  {
    match result
    case Ok(projections) =>
      var keys := FirstSeen(key, events);
      |projections| == |keys| &&
      forall j :: 0 <= j < |keys| ==> Reduced(r, Group(key, events, keys[j])) == Ok(projections[j])
    case Err(error) =>
      exists i :: 0 <= i < |events| && FailsAt(r, key, events, i) && NoneFails(r, key, events, i) &&
                  Reduced(r, Group(key, events, key(events[i]))) == Err(error)
  }

  lemma {:induction false} GroupOfPrefix<E(!new), K(!new)>(key: E -> K, events: seq<E>, n: nat, k: K)
    requires n <= |events|
    ensures Group(key, events[..n], k) <= Group(key, events, k)
  {
    FilterConcat(KeyIs(key, k), events[..n], events[n..]);
    assert events == events[..n] + events[n..];
  }

  /** The group of a failing event keeps the error of its first failing event. */
  lemma GroupKeepsFirstError<E(!new), K(!new), P, X>(r: Reducer<E, P, X>, key: E -> K, events: seq<E>, i: nat)
    requires i < |events| && FailsAt(r, key, events, i)
    ensures Reduced(r, Group(key, events, key(events[i]))) == Reduced(r, Group(key, events[..i + 1], key(events[i])))
  {
    var k := key(events[i]);
    var part, whole := Group(key, events[..i + 1], k), Group(key, events, k);
    GroupOfPrefix(key, events, i + 1, k);
    assert part == whole[..|part|];
    assert events[i] in events[..i + 1] by { assert events[..i + 1][i] == events[i]; }
    assert events[i] in part;
    ErrorsPersist(r, whole, |part|);
  }

  /** A failing group has a failing event. */
  lemma {:induction false} FailingGroupFailsAt<E(!new), K(!new), P, X>(r: Reducer<E, P, X>, key: E -> K, events: seq<E>, k: K)
    returns (i: nat)
    requires Group(key, events, k) != [] && Reduced(r, Group(key, events, k)).Err?
    ensures i < |events| && key(events[i]) == k && FailsAt(r, key, events, i)
    decreases |events|
  {
    var n := |events| - 1;
    var front, last := events[..n], events[n];
    assert events == front + [last];
    if key(last) == k {
      assert events[..n + 1] == events;
      i := n;
    } else {
      GroupAppend(key, front, last, k);
      assert Group(key, front, k) + [] == Group(key, front, k);
      i := FailingGroupFailsAt(r, key, front, k);
      FailsInPrefix(r, key, events, n, i);
    }
  }

  /** A group fails exactly when one of its events is a failing event of the whole stream. */
  lemma GroupFailsSomewhere<E(!new), K(!new), P, X>(r: Reducer<E, P, X>, key: E -> K, events: seq<E>, k: K)
    requires Group(key, events, k) != []
    ensures Reduced(r, Group(key, events, k)).Err? <==>
            exists i :: 0 <= i < |events| && key(events[i]) == k && FailsAt(r, key, events, i)
  {
    if i :| 0 <= i < |events| && key(events[i]) == k && FailsAt(r, key, events, i) {
      GroupKeepsFirstError(r, key, events, i);
    }
    if Reduced(r, Group(key, events, k)).Err? {
      var i := FailingGroupFailsAt(r, key, events, k);
    }
  }

  lemma FailsInPrefix<E(!new), K(!new), P, X>(r: Reducer<E, P, X>, key: E -> K, events: seq<E>, n: nat, i: nat)
    requires i < n <= |events|
    ensures FailsAt(r, key, events[..n], i) <==> FailsAt(r, key, events, i)
  {
    assert events[..n][..i + 1] == events[..i + 1];
  }

  /** What the grouped fold knows after its first `i` events. */
  ghost predicate FoldedSoFar<E(!new), K(!new), P, X>(
    r: Reducer<E, P, X>, key: E -> K, events: seq<E>, order: seq<K>, projections: map<K, P>)
  {
    && order == FirstSeen(key, events)
    && (forall k :: k in projections <==> k in order)
    && (forall k :: k in order ==> Reduced(r, Group(key, events, k)) == Ok(projections[k]))
  }

  lemma FoldOneMore<E(!new), K(!new), P, X>(
    r: Reducer<E, P, X>, key: E -> K, front: seq<E>, event: E, order: seq<K>, projections: map<K, P>, next: Result<P, X>)
    requires FoldedSoFar(r, key, front, order, projections)
    requires var k := key(event); next == if k in projections then r.apply(projections[k], event) else r.seed(event)
    ensures var k := key(event);
            Reduced(r, Group(key, front + [event], k)) == match next case Ok(p) => Ok(p) case Err(x) => Err(Rejected(x))
    ensures var k := key(event);
            next.Ok? ==> FoldedSoFar(r, key, front + [event], if k in projections then order else order + [k],
                                     projections[k := next.value])
  {
    var k := key(event);
    GroupAppend(key, front, event, k);
    if k in projections {
      ApplyExtends(r, Group(key, front, k), event);
    } else {
      GroupedKeyIsSeen(key, front, k);
      assert Group(key, front, k) + [event] == [event];
    }
    assert (front + [event])[..|front|] == front;
    forall other | other in order && other != k
      ensures Reduced(r, Group(key, front + [event], other)) == Ok(projections[other])
    {
      GroupAppend(key, front, event, other);
      assert Group(key, front, other) + [] == Group(key, front, other);
    }
  }

  method ReduceGrouped<E(!new), K(==, !new), P, X>(events: seq<E>, key: E -> K, r: Reducer<E, P, X>)
    returns (result: Result<seq<P>, ProjectionError<X>>)
    ensures IsGroupedResult(r, key, events, result)
  {
    var order: seq<K> := [];
    var projections: map<K, P> := map[];
    for i := 0 to |events|
      invariant FoldedSoFar(r, key, events[..i], order, projections)
      invariant NoneFails(r, key, events, i)
    {
      var event := events[i];
      var k := key(event);
      TakeNext(events, i);
      var next: Result<P, X>;
      if k in projections {
        next := r.apply(projections[k], event);
      } else {
        next := r.seed(event);
      }
      FoldOneMore(r, key, events[..i], event, order, projections, next);
      if next.Err? {
        assert FailsAt(r, key, events, i);
        GroupKeepsFirstError(r, key, events, i);
        return Err(Rejected(next.error));
      }
      if k !in projections {
        order := order + [k];
      }
      projections := projections[k := next.value];
    }
    assert events[..|events|] == events;
    var results: seq<P> := [];
    for j := 0 to |order|
      invariant |results| == j
      invariant forall m :: 0 <= m < j ==> results[m] == projections[order[m]]
    {
      results := results + [projections[order[j]]];
    }
    return Ok(results);
  }

  lemma ApplyExtends<E, P, X>(r: Reducer<E, P, X>, events: seq<E>, last: E)
    requires Reduced(r, events).Ok?
    ensures Reduced(r, events + [last]) ==
            match r.apply(Reduced(r, events).value, last) case Ok(q) => Ok(q) case Err(x) => Err(Rejected(x))
  {
    assert (events + [last])[..|events|] == events;
  }

  lemma GroupedKeyIsSeen<E(!new), K(!new)>(key: E -> K, events: seq<E>, k: K)
    ensures Group(key, events, k) != [] ==> k in FirstSeen(key, events)
  {
    FirstSeenKeys(key, events);
    if Group(key, events, k) != [] {
      var e := Group(key, events, k)[0];
      assert e in Group(key, events, k);
    }
  }

  /** The grouped fold fails exactly when the fold of some key's events fails. */
  lemma GroupedFailsWhenSomeGroupFails<E(!new), K(!new), P, X>(
    r: Reducer<E, P, X>, key: E -> K, events: seq<E>, result: Result<seq<P>, ProjectionError<X>>)
    requires IsGroupedResult(r, key, events, result)
    ensures result.Err? <==> exists k :: k in FirstSeen(key, events) && Reduced(r, Group(key, events, k)).Err?
  {
    if result.Err? {
      var i :| 0 <= i < |events| && FailsAt(r, key, events, i) && NoneFails(r, key, events, i) &&
               Reduced(r, Group(key, events, key(events[i]))) == Err(result.error);
      assert events[i] in events;
      FirstSeenKeys(key, events);
    } else {
      var keys := FirstSeen(key, events);
      forall k | k in keys ensures Reduced(r, Group(key, events, k)).Ok? {
        var j :| 0 <= j < |keys| && keys[j] == k;
      }
    }
  }

  /** A grouped fold is determined by the per-key folds. */
  lemma GroupedResultIsUnique<E(!new), K(!new), P, X>(
    r: Reducer<E, P, X>, key: E -> K, events: seq<E>, a: Result<seq<P>, ProjectionError<X>>, b: Result<seq<P>, ProjectionError<X>>)
    requires IsGroupedResult(r, key, events, a) && IsGroupedResult(r, key, events, b)
    ensures a == b
  {
    GroupedFailsWhenSomeGroupFails(r, key, events, a);
    GroupedFailsWhenSomeGroupFails(r, key, events, b);
    if a.Ok? {
      var keys := FirstSeen(key, events);
      forall j | 0 <= j < |keys| ensures a.value[j] == b.value[j] {
        assert Reduced(r, Group(key, events, keys[j])) == Ok(a.value[j]);
        assert Reduced(r, Group(key, events, keys[j])) == Ok(b.value[j]);
      }
      assert a.value == b.value;
    } else {
      var i :| 0 <= i < |events| && FailsAt(r, key, events, i) && NoneFails(r, key, events, i) &&
               Reduced(r, Group(key, events, key(events[i]))) == Err(a.error);
      var j :| 0 <= j < |events| && FailsAt(r, key, events, j) && NoneFails(r, key, events, j) &&
               Reduced(r, Group(key, events, key(events[j]))) == Err(b.error);
      assert i == j;
    }
  }
}
