/** The typed machine graph and its queries (statum-core/src/introspection/graph.rs, recording.rs). */
module Graph {
  import opened Common

  datatype MachineDescriptor = MachineDescriptor(modulePath: string, rustTypePath: string)

  datatype StateDescriptor<S> = StateDescriptor(id: S, rustName: string, hasData: bool)

  datatype TransitionDescriptor<S, T> = TransitionDescriptor(id: T, methodName: string, from: S, to: seq<S>)

  datatype MachineGraph<S, T> = MachineGraph(
    machine: MachineDescriptor,
    states: seq<StateDescriptor<S>>,
    transitions: seq<TransitionDescriptor<S, T>>)

  datatype RecordedTransition<S, T> = RecordedTransition(machine: MachineDescriptor, from: S, transition: T, chosen: S)

  /** First state descriptor with the given id. */
  function FindState<S(==, !new)>(states: seq<StateDescriptor<S>>, id: S): (r: Option<StateDescriptor<S>>)
    ensures r.Some? <==> exists i :: 0 <= i < |states| && states[i].id == id
    ensures r.Some? ==> r.value in states && r.value.id == id
  {
    if states == [] then None
    else if states[0].id == id then Some(states[0])
    else
      var rest := FindState(states[1..], id);
      assert (exists i :: 0 <= i < |states[1..]| && states[1..][i].id == id) ==>
          exists i :: 0 <= i < |states| && states[i].id == id by {
        if i :| 0 <= i < |states[1..]| && states[1..][i].id == id { assert states[i + 1].id == id; }
      }
      assert (exists i :: 0 <= i < |states| && states[i].id == id) ==>
          exists i :: 0 <= i < |states[1..]| && states[1..][i].id == id by {
        if i :| 0 <= i < |states| && states[i].id == id { assert states[1..][i - 1].id == id; }
      }
      rest
  }

  /** First transition descriptor with the given id. */
  function FindTransition<S(==, !new), T(==, !new)>(transitions: seq<TransitionDescriptor<S, T>>, id: T)
    : (r: Option<TransitionDescriptor<S, T>>)
    ensures r.Some? ==> r.value in transitions && r.value.id == id
    ensures r.None? ==> forall t :: t in transitions ==> t.id != id
  {
    if transitions == [] then None
    else if transitions[0].id == id then Some(transitions[0])
    else FindTransition(transitions[1..], id)
  }

  predicate Declared<S(==, !new), T(==, !new)>(g: MachineGraph<S, T>, id: S) {
    FindState(g.states, id).Some?
  }

  function LeavesFrom<S(==, !new), T(!new)>(state: S): TransitionDescriptor<S, T> -> bool {
    (t: TransitionDescriptor<S, T>) => t.from == state
  }

  function TransitionsFrom<S(==, !new), T(==, !new)>(g: MachineGraph<S, T>, state: S): (r: seq<TransitionDescriptor<S, T>>)
    ensures forall t :: t in r <==> t in g.transitions && t.from == state
  {
    Filter(LeavesFrom(state), g.transitions)
  }

  /** Joins a recorded transition back to its static descriptor. */
  function TransitionIn<S(==, !new), T(==, !new)>(g: MachineGraph<S, T>, r: RecordedTransition<S, T>)
    : Option<TransitionDescriptor<S, T>>
  {
    if r.machine != g.machine then None
    else match FindTransition(g.transitions, r.transition)
      case None => None
      case Some(d) => if d.from == r.from && r.chosen in d.to then Some(d) else None
  }

  ghost predicate HasEdge<S(!new), T(!new)>(g: MachineGraph<S, T>, a: S, b: S) {
    exists t :: t in g.transitions && t.from == a && b in t.to
  }

  ghost function Edges<S(!new), T(!new)>(g: MachineGraph<S, T>): (S, S) -> bool {
    (a, b) => HasEdge(g, a, b)
  }

  ghost function StateIds<S(!new), T(!new)>(g: MachineGraph<S, T>): (r: seq<S>)
    ensures |r| == |g.states|
    ensures forall i :: 0 <= i < |r| ==> r[i] == g.states[i].id
  {
    Map((s: StateDescriptor<S>) => s.id, g.states)
  }

  /** Every endpoint of every transition is a declared state. */
  ghost predicate Closed<S(!new), T(!new)>(g: MachineGraph<S, T>) {
    forall t :: t in g.transitions ==> Declared(g, t.from) && forall b :: b in t.to ==> Declared(g, b)
  }

  ghost predicate UniqueStateIds<S(!new), T(!new)>(g: MachineGraph<S, T>) {
    forall i, j :: 0 <= i < j < |g.states| ==> g.states[i].id != g.states[j].id
  }

  ghost predicate UniqueTransitionIds<S(!new), T(!new)>(g: MachineGraph<S, T>) {
    DistinctIds(g.transitions)
  }

  ghost predicate DistinctIds<S(!new), T(!new)>(ts: seq<TransitionDescriptor<S, T>>) {
    forall i, j :: 0 <= i < j < |ts| ==> ts[i].id != ts[j].id
  }

  ghost predicate DuplicateFreeTargets<S(!new), T(!new)>(g: MachineGraph<S, T>) {
    forall t :: t in g.transitions ==> Distinct(t.to)
  }

  lemma DeclaredIsListed<S(!new), T(!new)>(g: MachineGraph<S, T>, id: S)
    ensures Declared(g, id) <==> id in StateIds(g)
  {
    if Declared(g, id) {
      var i :| 0 <= i < |g.states| && g.states[i].id == id;
      assert StateIds(g)[i] == id;
    }
  }
}
