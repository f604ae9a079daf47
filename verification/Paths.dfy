/** Directed paths over an edge relation, independent of how the graph is stored. */
module Paths {
  import opened Common

  /** Position `i` of `p` is entered by an edge from the position before it. */
  ghost predicate Hop<V(!new)>(edge: (V, V) -> bool, p: seq<V>, i: nat)
    requires 0 < i < |p|
  {
    edge(p[i - 1], p[i])
  }

  ghost predicate IsPath<V(!new)>(edge: (V, V) -> bool, p: seq<V>) {
    |p| > 0 && forall i :: 0 < i < |p| ==> Hop(edge, p, i)
  }

  ghost predicate Connects<V(!new)>(edge: (V, V) -> bool, p: seq<V>, a: V, b: V) {
    IsPath(edge, p) && p[0] == a && p[|p| - 1] == b
  }

  /** `b` is reached from `a` by zero or more edges. */
  ghost predicate Reaches<V(!new)>(edge: (V, V) -> bool, a: V, b: V) {
    exists p :: Connects(edge, p, a, b)
  }

  lemma ReachesSelf<V(!new)>(edge: (V, V) -> bool, a: V)
    ensures Reaches(edge, a, a)
  {
    assert Connects(edge, [a], a, a);
  }

  lemma ReachesStep<V(!new)>(edge: (V, V) -> bool, a: V, b: V, c: V)
    requires Reaches(edge, a, b) && edge(b, c)
    ensures Reaches(edge, a, c)
  {
    var p :| Connects(edge, p, a, b);
    var longer := p + [c];
    forall i | 0 < i < |longer| ensures Hop(edge, longer, i) {
      if i < |p| { assert Hop(edge, p, i); }
    }
    assert Connects(edge, longer, a, c);
  }

  /** A set closed under the edges keeps every path that starts in it. */
  lemma ClosedSetKeepsPaths<V(!new)>(edge: (V, V) -> bool, inside: set<V>, a: V, b: V)
    requires a in inside
    requires forall x, y :: x in inside && edge(x, y) ==> y in inside
    requires Reaches(edge, a, b)
    ensures b in inside
  {
    var p :| Connects(edge, p, a, b);
    var i := 0;
    while i < |p| - 1
      invariant 0 <= i < |p| && p[i] in inside
    {
      assert Hop(edge, p, i + 1);
      i := i + 1;
    }
  }

  /** Cutting out cycles: every path has a duplicate-free path between the same ends. */
  lemma {:induction false} SimplePath<V(!new)>(edge: (V, V) -> bool, p: seq<V>, a: V, b: V) returns (q: seq<V>)
    requires Connects(edge, p, a, b)
    ensures Connects(edge, q, a, b) && Distinct(q) && Within(q, p)
    decreases |p|
  {
    if Distinct(p) {
      q := p;
    } else {
      var i, j :| 0 <= i < j < |p| && p[i] == p[j];
      var shorter := p[..i] + p[j..];
      forall k | 0 < k < |shorter| ensures Hop(edge, shorter, k) {
        if k < i {
          assert shorter[k - 1] == p[k - 1] && shorter[k] == p[k] && Hop(edge, p, k);
        } else if k == i {
          assert shorter[k - 1] == p[i - 1] && shorter[k] == p[i] && Hop(edge, p, i);
        } else {
          var m := k - i + j;
          assert shorter[k - 1] == p[m - 1] && shorter[k] == p[m] && Hop(edge, p, m);
        }
      }
      assert Connects(edge, shorter, a, b);
      q := SimplePath(edge, shorter, a, b);
    }
  }

  /** When every edge stays inside `nodes`, what is reachable is reachable in fewer than |nodes| steps. */
  lemma ShortPath<V(!new)>(edge: (V, V) -> bool, nodes: seq<V>, a: V, b: V) returns (q: seq<V>)
    requires a in nodes
    requires forall x, y :: edge(x, y) ==> y in nodes
    requires Reaches(edge, a, b)
    ensures Connects(edge, q, a, b) && |q| <= |nodes|
  {
    var p :| Connects(edge, p, a, b);
    q := SimplePath(edge, p, a, b);
    forall x | x in q ensures x in nodes {
      var i :| 0 <= i < |q| && q[i] == x;
      if i > 0 {
        assert Hop(edge, q, i);
      }
    }
    Pigeonhole(q, nodes);
  }

  /** A map that sends edges to edges sends reachable pairs to reachable pairs. */
  lemma MapPath<V(!new), W(!new)>(edge: (V, V) -> bool, image: (W, W) -> bool, f: V -> W, a: V, b: V)
    requires Reaches(edge, a, b)
    requires forall x, y :: Reaches(edge, a, x) && edge(x, y) ==> image(f(x), f(y))
    ensures Reaches(image, f(a), f(b))
  {
    var p :| Connects(edge, p, a, b);
    ReachesSelf(image, f(a));
    ReachesSelf(edge, a);
    var i := 0;
    while i < |p| - 1
      invariant 0 <= i < |p|
      invariant Reaches(edge, a, p[i]) && Reaches(image, f(a), f(p[i]))
    {
      assert Hop(edge, p, i + 1);
      ReachesStep(image, f(a), f(p[i]), f(p[i + 1]));
      ReachesStep(edge, a, p[i], p[i + 1]);
      i := i + 1;
    }
  }
}
