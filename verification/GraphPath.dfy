/** Depth-first path check over graph metadata (statum-core/src/testing/graph.rs). */
module GraphPath {
  import opened Common
  import opened Paths
  import opened Graph

  ghost function AllTargets<S(!new), T(!new)>(transitions: seq<TransitionDescriptor<S, T>>): set<S> {
    set t, b | t in transitions && b in t.to :: b
  }

  /** The unvisited ones of the targets from `j` on, last first. */
  function LastFirst<S(==)>(targets: seq<S>, j: nat, visited: seq<S>): seq<S>
    requires j <= |targets|
    decreases |targets| - j
  {
    if j == |targets| then []
    else LastFirst(targets, j + 1, visited) + if targets[j] in visited then [] else [targets[j]]
  }

  /** What the first `n` transitions push: their unvisited targets, transition by transition. */
  function Pushed<S(==), T>(transitions: seq<TransitionDescriptor<S, T>>, n: nat, visited: seq<S>): seq<S>
    requires n <= |transitions|
  {
    if n == 0 then [] else Pushed(transitions, n - 1, visited) + LastFirst(transitions[n - 1].to, 0, visited)
  }

  lemma {:induction false} LastFirstMembers<S>(targets: seq<S>, j: nat, visited: seq<S>, b: S)
    requires j <= |targets|
    ensures b in LastFirst(targets, j, visited) <==> b in targets[j..] && b !in visited
    decreases |targets| - j
  {
    if j == |targets| {
    } else {
      LastFirstMembers(targets, j + 1, visited, b);
      assert targets[j..] == [targets[j]] + targets[j + 1..];
    }
  }

  /** Pushed is exactly what some transition leads to and is not visited yet. */
  lemma {:induction false} PushedMembers<S(!new), T(!new)>(
    transitions: seq<TransitionDescriptor<S, T>>, n: nat, visited: seq<S>, b: S)
    requires n <= |transitions|
    ensures b in Pushed(transitions, n, visited) <==> b !in visited && exists k :: 0 <= k < n && b in transitions[k].to
  {
    if n == 0 {
    } else {
      PushedMembers(transitions, n - 1, visited, b);
      LastFirstMembers(transitions[n - 1].to, 0, visited, b);
      assert transitions[n - 1].to[0..] == transitions[n - 1].to;
    }
  }

  /** All that the transitions leaving `state` push. */
  function PushedFrom<S(==, !new), T(==, !new)>(g: MachineGraph<S, T>, state: S, visited: seq<S>): seq<S> {
    var outgoing := TransitionsFrom(g, state);
    Pushed(outgoing, |outgoing|, visited)
  }

  lemma PushedAreEdges<S(!new), T(!new)>(g: MachineGraph<S, T>, state: S, visited: seq<S>)
    ensures forall b :: b in PushedFrom(g, state, visited) <==> HasEdge(g, state, b) && b !in visited
  {
    var outgoing := TransitionsFrom(g, state);
    forall b ensures b in PushedFrom(g, state, visited) <==> HasEdge(g, state, b) && b !in visited {
      PushedMembers(outgoing, |outgoing|, visited, b);
      if t :| t in g.transitions && t.from == state && b in t.to {
        assert t in outgoing;
      }
      assert forall k :: 0 <= k < |outgoing| ==> outgoing[k] in outgoing;
    }
  }

  /** The innermost loop: the unvisited targets of one transition, in reverse. */
  method PushTargets<S(==)>(targets: seq<S>, visited: seq<S>, pending: seq<S>) returns (grown: seq<S>)
    ensures grown == pending + LastFirst(targets, 0, visited)
  {
    grown := pending;
    var j := |targets|;
    while j > 0
      invariant 0 <= j <= |targets| && grown == pending + LastFirst(targets, j, visited)
    {
      j := j - 1;
      if targets[j] !in visited {
        grown := grown + [targets[j]];
      }
    }
  }

  lemma PushedNext<S, T>(transitions: seq<TransitionDescriptor<S, T>>, n: nat, visited: seq<S>, pending: seq<S>)
    requires n < |transitions|
    ensures pending + Pushed(transitions, n, visited) + LastFirst(transitions[n].to, 0, visited)
         == pending + Pushed(transitions, n + 1, visited)
  {
  }

  /** Pushes every unvisited target of `state`, the targets of one transition in reverse. */
  method PushCandidates<S(==, !new), T(==, !new)>(g: MachineGraph<S, T>, state: S, visited: seq<S>, pending: seq<S>)
    returns (grown: seq<S>)
    ensures grown == pending + PushedFrom(g, state, visited)
    ensures forall b :: b in PushedFrom(g, state, visited) <==> HasEdge(g, state, b) && b !in visited
  {
    grown := pending;
    var outgoing := TransitionsFrom(g, state);
    for i := 0 to |outgoing|
      invariant grown == pending + Pushed(outgoing, i, visited)
    {
      PushedNext(outgoing, i, visited, pending);
      grown := PushTargets(outgoing[i].to, visited, grown);
    }
    PushedAreEdges(g, state, visited);
  }

  /** Facts about the search that hold before every round. */
  ghost predicate SearchInvariant<S(!new), T(!new)>(g: MachineGraph<S, T>, from: S, visited: seq<S>, pending: seq<S>) {
    && (from in visited || from in pending)
    && (forall v :: v in visited || v in pending ==> Reaches(Edges(g), from, v))
    && (forall v, b :: v in visited && HasEdge(g, v, b) ==> b in visited || b in pending)
  }

  lemma ReachedIsTarget<S(!new), T(!new)>(g: MachineGraph<S, T>, from: S, v: S)
    requires Reaches(Edges(g), from, v)
    ensures v == from || v in AllTargets(g.transitions)
  {
    var p :| Connects(Edges(g), p, from, v);
    if |p| > 1 {
      assert Hop(Edges(g), p, |p| - 1);
    }
  }

  lemma ExhaustedSearchMissesTarget<S(!new), T(!new)>(
    g: MachineGraph<S, T>, from: S, target: S, visited: seq<S>)
    requires SearchInvariant(g, from, visited, [])
    requires target !in visited
    ensures !Reaches(Edges(g), from, target)
  {
    if Reaches(Edges(g), from, target) {
      var inside := set v | v in visited;
      forall x, y | x in inside && Edges(g)(x, y) ensures y in inside {
        assert HasEdge(g, x, y);
      }
      ClosedSetKeepsPaths(Edges(g), inside, from, target);
    }
  }

  lemma VisitKeepsInvariant<S(!new), T(!new)>(
    g: MachineGraph<S, T>, from: S, visited: seq<S>, pending: seq<S>, state: S, pushed: seq<S>)
    requires SearchInvariant(g, from, visited, pending + [state])
    requires forall b :: b in pushed <==> HasEdge(g, state, b) && b !in visited + [state]
    ensures SearchInvariant(g, from, visited + [state], pending + pushed)
  {
    assert state in pending + [state];
    forall v | v in pending + pushed ensures Reaches(Edges(g), from, v) {
      if v in pending {
        assert v in pending + [state];
      } else {
        ReachesStep(Edges(g), from, state, v);
      }
    }
    forall v, b | v in visited + [state] && HasEdge(g, v, b) ensures b in visited + [state] || b in pending + pushed {
      if v in visited && b !in visited && b != state {
        assert b in pending + [state];
      }
    }
  }

  /**
   * The worklist search. `pending` may hold duplicates and already visited states; each round
   * either visits a new state or shortens `pending`.
   */
  method GraphHasPath<S(==, !new), T(==, !new)>(g: MachineGraph<S, T>, from: S, target: S) returns (found: bool)
    ensures found <==> Declared(g, from) && Declared(g, target) && Reaches(Edges(g), from, target)
  {
    if FindState(g.states, from).None? || FindState(g.states, target).None? {
      return false;
    }
    var visited: seq<S> := [];
    var pending := [from];
    ghost var universe := {from} + AllTargets(g.transitions);
    ReachesSelf(Edges(g), from);

    while pending != []
      invariant SearchInvariant(g, from, visited, pending)
      invariant target !in visited
      decreases universe - (set v | v in visited), |pending|
    {
      var state := pending[|pending| - 1];
      ghost var before := pending;
      pending := pending[..|pending| - 1];
      assert before == pending + [state] && state in before;
      if state in visited {
        assert SearchInvariant(g, from, visited, pending);
        continue;
      }
      if state == target {
        return true;
      }
      ghost var seen := visited;
      visited := visited + [state];
      var grown := PushCandidates(g, state, visited, pending);
      VisitKeepsInvariant(g, from, seen, pending, state, PushedFrom(g, state, visited));
      pending := grown;
      ReachedIsTarget(g, from, state);
      assert state in universe - (set v | v in seen);
      assert state !in universe - (set v | v in visited);
    }
    ExhaustedSearchMissesTarget(g, from, target, visited);
    return false;
  }
}
