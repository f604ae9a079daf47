/** Datatypes and sequence facts shared by every part of the model. */
module Common {

  datatype Option<+T> = None | Some(value: T)

  datatype Result<+T, +E> = Ok(value: T) | Err(error: E)

  /** No element occurs twice. */
  ghost predicate Distinct<T>(s: seq<T>) {
    forall i, j :: 0 <= i < j < |s| ==> s[i] != s[j]
  }

  /** The elements of `s` are all found in `u`. */
  ghost predicate Within<T>(s: seq<T>, u: seq<T>) {
    forall x :: x in s ==> x in u
  }

  /** A duplicate-free sequence is no longer than any sequence that holds its elements. */
  lemma {:induction false} Pigeonhole<T>(s: seq<T>, u: seq<T>)
    requires Distinct(s) && Within(s, u)
    ensures |s| <= |u|
  {
    if s == [] {
    } else {
      var x := s[0];
      assert x in s;
      var k :| 0 <= k < |u| && u[k] == x;
      var rest := u[..k] + u[k + 1..];
      forall y | y in s[1..] ensures y in rest {
        assert y in u;
        var j :| 0 <= j < |u| && u[j] == y;
        assert j != k;
        assert y == if j < k then rest[j] else rest[j - 1];
      }
      Pigeonhole(s[1..], rest);
    }
  }

  /** The elements of `s` that satisfy `keep`, in order. */
  function Filter<T(!new)>(keep: T -> bool, s: seq<T>): (r: seq<T>)
    ensures forall x :: x in r <==> x in s && keep(x)
  {
    if s == [] then []
    else (if keep(s[0]) then [s[0]] else []) + Filter(keep, s[1..])
  }

  /** The images of the elements of `s`, in order. */
  function Map<T, U>(f: T -> U, s: seq<T>): (r: seq<U>)
    ensures |r| == |s|
    ensures forall i :: 0 <= i < |s| ==> r[i] == f(s[i])
  {
    seq(|s|, i requires 0 <= i < |s| => f(s[i]))
  }

  /** Filtering distributes over concatenation. */
  lemma {:induction false} FilterConcat<T(!new)>(keep: T -> bool, a: seq<T>, b: seq<T>)
    ensures Filter(keep, a + b) == Filter(keep, a) + Filter(keep, b)
  {
    if a == [] {
      assert a + b == b && Filter(keep, a) == [];
    } else {
      var head := if keep(a[0]) then [a[0]] else [];
      assert (a + b)[0] == a[0] && (a + b)[1..] == a[1..] + b;
      calc {
        Filter(keep, a + b);
        head + Filter(keep, a[1..] + b);
        { FilterConcat(keep, a[1..], b); }
        head + (Filter(keep, a[1..]) + Filter(keep, b));
        (head + Filter(keep, a[1..])) + Filter(keep, b);
      }
    }
  }

  lemma TakeNext<T>(s: seq<T>, i: nat)
    requires i < |s|
    ensures s[..i + 1] == s[..i] + [s[i]]
  {
  }
}
