/** The stable sort behind Rust's `sort_by` and `sort_by_key`. */
module Sorting {
  /** Puts `x` behind every element it need not come before. */
  function InsertBy<T>(atMost: (T, T) -> bool, sorted: seq<T>, x: T): seq<T> {
    if sorted == [] || atMost(sorted[|sorted| - 1], x) then sorted + [x]
    else InsertBy(atMost, sorted[..|sorted| - 1], x) + [sorted[|sorted| - 1]]
  }

  function SortBy<T>(atMost: (T, T) -> bool, s: seq<T>): seq<T> {
    if s == [] then [] else InsertBy(atMost, SortBy(atMost, s[..|s| - 1]), s[|s| - 1])
  }

  ghost predicate SortedBy<T>(atMost: (T, T) -> bool, s: seq<T>) {
    forall i, j :: 0 <= i < j < |s| ==> atMost(s[i], s[j])
  }

  ghost predicate Ordering<T(!new)>(atMost: (T, T) -> bool) {
    && (forall a, b :: atMost(a, b) || atMost(b, a))
    && (forall a, b, c :: atMost(a, b) && atMost(b, c) ==> atMost(a, c))
  }

  lemma AppendGreatest<T(!new)>(atMost: (T, T) -> bool, s: seq<T>, last: T)
    requires SortedBy(atMost, s) && forall i :: 0 <= i < |s| ==> atMost(s[i], last)
    ensures SortedBy(atMost, s + [last])
  {
  }

  /** What is at least the last of a sorted sequence is at least all of it. */
  lemma AboveLast<T(!new)>(atMost: (T, T) -> bool, s: seq<T>, x: T)
    requires Ordering(atMost) && SortedBy(atMost, s) && s != [] && atMost(s[|s| - 1], x)
    ensures forall i :: 0 <= i < |s| ==> atMost(s[i], x)
  {
    forall i | 0 <= i < |s| ensures atMost(s[i], x) {
      assert i < |s| - 1 ==> atMost(s[i], s[|s| - 1]);
    }
  }

  lemma {:induction false} InsertByMembers<T(!new)>(atMost: (T, T) -> bool, sorted: seq<T>, x: T)
    ensures multiset(InsertBy(atMost, sorted, x)) == multiset(sorted) + multiset{x}
    ensures forall i :: 0 <= i < |InsertBy(atMost, sorted, x)| ==>
                          InsertBy(atMost, sorted, x)[i] == x || InsertBy(atMost, sorted, x)[i] in sorted
  {
    if sorted == [] || atMost(sorted[|sorted| - 1], x) {
    } else {
      InsertByMembers(atMost, sorted[..|sorted| - 1], x);
      assert sorted == sorted[..|sorted| - 1] + [sorted[|sorted| - 1]];
    }
  }

  lemma {:induction false} InsertBySorts<T(!new)>(atMost: (T, T) -> bool, sorted: seq<T>, x: T)
    requires Ordering(atMost) && SortedBy(atMost, sorted)
    ensures SortedBy(atMost, InsertBy(atMost, sorted, x))
  {
    if sorted == [] {
    } else {
      var front, last := sorted[..|sorted| - 1], sorted[|sorted| - 1];
      if atMost(last, x) {
        AboveLast(atMost, sorted, x);
        AppendGreatest(atMost, sorted, x);
      } else {
        InsertBySorts(atMost, front, x);
        InsertByMembers(atMost, front, x);
        var inserted := InsertBy(atMost, front, x);
        forall i | 0 <= i < |inserted| ensures atMost(inserted[i], last) {
          if inserted[i] != x {
            var k :| 0 <= k < |front| && front[k] == inserted[i];
            assert atMost(sorted[k], sorted[|front|]);
          }
        }
        AppendGreatest(atMost, inserted, last);
      }
    }
  }

  /** Sorting gives an ordered permutation. */
  lemma {:induction false} SortBySorts<T(!new)>(atMost: (T, T) -> bool, s: seq<T>)
    requires Ordering(atMost)
    ensures SortedBy(atMost, SortBy(atMost, s))
    ensures multiset(SortBy(atMost, s)) == multiset(s)
  {
    if s == [] {
    } else {
      var front := s[..|s| - 1];
      SortBySorts(atMost, front);
      InsertBySorts(atMost, SortBy(atMost, front), s[|s| - 1]);
      InsertByMembers(atMost, SortBy(atMost, front), s[|s| - 1]);
      assert s == front + [s[|s| - 1]];
      assert multiset(s) == multiset(front) + multiset{s[|s| - 1]};
    }
  }

  /** A sorted sequence stays as it is. */
  lemma {:induction false} SortedStays<T(!new)>(atMost: (T, T) -> bool, s: seq<T>)
    requires SortedBy(atMost, s)
    ensures SortBy(atMost, s) == s
  {
    if s == [] {
    } else {
      var front, last := s[..|s| - 1], s[|s| - 1];
      SortedStays(atMost, front);
      assert front != [] ==> atMost(s[|front| - 1], s[|front|]);
      assert s == front + [last];
    }
  }

  /** The elements of one kind, in order. */
  function Kept<T>(keep: T -> bool, s: seq<T>): seq<T> {
    if s == [] then [] else Kept(keep, s[..|s| - 1]) + OneKept(keep, s[|s| - 1])
  }

  function OneKept<T>(keep: T -> bool, x: T): seq<T> {
    if keep(x) then [x] else []
  }

  lemma KeptAppend<T>(keep: T -> bool, s: seq<T>, x: T)
    ensures Kept(keep, s + [x]) == Kept(keep, s) + OneKept(keep, x)
  {
    assert (s + [x])[..|s|] == s;
  }

  /** The kept elements do not come before each other. */
  ghost predicate Tie<T(!new)>(atMost: (T, T) -> bool, keep: T -> bool) {
    forall a, b :: keep(a) && keep(b) ==> atMost(a, b)
  }

  lemma {:induction false} InsertIsStable<T(!new)>(atMost: (T, T) -> bool, keep: T -> bool, sorted: seq<T>, x: T)
    requires Tie(atMost, keep)
    ensures Kept(keep, InsertBy(atMost, sorted, x)) == Kept(keep, sorted) + OneKept(keep, x)
  {
    if sorted == [] || atMost(sorted[|sorted| - 1], x) {
      KeptAppend(keep, sorted, x);
    } else {
      var front, last := sorted[..|sorted| - 1], sorted[|sorted| - 1];
      InsertIsStable(atMost, keep, front, x);
      KeptAppend(keep, InsertBy(atMost, front, x), last);
      OneIsEmpty(atMost, keep, last, x, Kept(keep, front));
    }
  }

  lemma OneIsEmpty<T(!new)>(atMost: (T, T) -> bool, keep: T -> bool, last: T, x: T, head: seq<T>)
    requires Tie(atMost, keep) && !atMost(last, x)
    ensures head + OneKept(keep, x) + OneKept(keep, last) == head + OneKept(keep, last) + OneKept(keep, x)
  {
    assert !keep(last) || !keep(x);
  }

  /** Elements that tie keep their order. */
  lemma {:induction false} SortIsStable<T(!new)>(atMost: (T, T) -> bool, keep: T -> bool, s: seq<T>)
    requires Tie(atMost, keep)
    ensures Kept(keep, SortBy(atMost, s)) == Kept(keep, s)
  {
    if s == [] {
    } else {
      SortIsStable(atMost, keep, s[..|s| - 1]);
      InsertIsStable(atMost, keep, SortBy(atMost, s[..|s| - 1]), s[|s| - 1]);
    }
  }
}
