/** Bounded enumeration of legal walks over graph metadata (statum-core/src/testing/walks.rs). */
module Walks {
  import opened Common
  import opened Paths
  import opened Graph
  import GraphPath

  datatype WalkStep<S, T> = WalkStep(from: S, transition: T, methodName: string, legalTargets: seq<S>, chosenTarget: S)

  datatype LegalWalk<S, T> = LegalWalk(start: S, steps: seq<WalkStep<S, T>>, end: S)

  datatype Generator<S, T> = Generator(
    graph: MachineGraph<S, T>, start: S, maxDepth: nat, terminalStates: seq<S>, includeEmpty: bool)

  /** The default generator: depth `states - 1`, no terminal states, empty walk included. */
  function LegalWalksFrom<S(==, !new), T(==, !new)>(g: MachineGraph<S, T>, start: S): Generator<S, T> {
    Generator(g, start, if |g.states| == 0 then 0 else |g.states| - 1, [], true)
  }

  function StepOf<S, T>(t: TransitionDescriptor<S, T>, target: S): WalkStep<S, T> {
    WalkStep(t.from, t.id, t.methodName, t.to, target)
  }

  // ---- What a legal walk is, independent of how walks are found ----

  /** The state a walk is in before its step `i`. */
  ghost function StateAt<S, T>(start: S, steps: seq<WalkStep<S, T>>, i: nat): S
    requires i <= |steps|
  {
    if i == 0 then start else steps[i - 1].chosenTarget
  }

  ghost predicate LegalStep<S(!new), T(!new)>(g: MachineGraph<S, T>, at: S, step: WalkStep<S, T>) {
    exists t :: t in g.transitions && t.from == at && step.chosenTarget in t.to && step == StepOf(t, step.chosenTarget)
  }

  /** Step `i` of a walk from `start` is legal where it is taken, and does not leave a terminal state. */
  ghost predicate LegalAt<S(!new), T(!new)>(gen: Generator<S, T>, start: S, steps: seq<WalkStep<S, T>>, i: nat)
    requires i < |steps|
  {
    LegalStep(gen.graph, StateAt(start, steps, i), steps[i]) && StateAt(start, steps, i) !in gen.terminalStates
  }

  ghost predicate Chain<S(!new), T(!new)>(gen: Generator<S, T>, start: S, steps: seq<WalkStep<S, T>>) {
    forall i :: 0 <= i < |steps| ==> LegalAt(gen, start, steps, i)
  }

  ghost predicate IsLegalWalk<S(!new), T(!new)>(gen: Generator<S, T>, w: LegalWalk<S, T>) {
    && Declared(gen.graph, gen.start)
    && w.start == gen.start
    && w.end == StateAt(w.start, w.steps, |w.steps|)
    && |w.steps| <= gen.maxDepth
    && (gen.includeEmpty || w.steps != [])
    && Chain(gen, w.start, w.steps)
  }

  // ---- The enumeration as a function ----

  function StepsOf<S, T>(t: TransitionDescriptor<S, T>, targets: seq<S>): (r: seq<WalkStep<S, T>>)
    ensures |r| == |targets|
    ensures forall i :: 0 <= i < |r| ==> r[i] == StepOf(t, targets[i])
  {
    if targets == [] then [] else [StepOf(t, targets[0])] + StepsOf(t, targets[1..])
  }

  function StepsOfAll<S, T>(ts: seq<TransitionDescriptor<S, T>>): seq<WalkStep<S, T>> {
    if ts == [] then [] else StepsOf(ts[0], ts[0].to) + StepsOfAll(ts[1..])
  }

  function StepsFrom<S(==, !new), T(==, !new)>(g: MachineGraph<S, T>, current: S): seq<WalkStep<S, T>> {
    StepsOfAll(TransitionsFrom(g, current))
  }

  function Emitted<S(==, !new), T(==, !new)>(gen: Generator<S, T>, current: S, prefix: seq<WalkStep<S, T>>)
    : seq<LegalWalk<S, T>>
  {
    if gen.includeEmpty || prefix != [] then [LegalWalk(gen.start, prefix, current)] else []
  }

  function WalksFrom<S(==, !new), T(==, !new)>(gen: Generator<S, T>, current: S, prefix: seq<WalkStep<S, T>>)
    : seq<LegalWalk<S, T>>
    requires |prefix| <= gen.maxDepth
    decreases gen.maxDepth - |prefix|, 1, 0
  {
    Emitted(gen, current, prefix) +
    if |prefix| >= gen.maxDepth || current in gen.terminalStates then []
    else Branches(gen, prefix, StepsFrom(gen.graph, current))
  }

  function Branches<S(==, !new), T(==, !new)>(
    gen: Generator<S, T>, prefix: seq<WalkStep<S, T>>, steps: seq<WalkStep<S, T>>): seq<LegalWalk<S, T>>
    requires |prefix| < gen.maxDepth
    decreases gen.maxDepth - |prefix|, 0, |steps|
  {
    if steps == [] then []
    else WalksFrom(gen, steps[0].chosenTarget, prefix + [steps[0]]) + Branches(gen, prefix, steps[1..])
  }

  function AllWalks<S(==, !new), T(==, !new)>(gen: Generator<S, T>): seq<LegalWalk<S, T>> {
    if FindState(gen.graph.states, gen.start).Some? then WalksFrom(gen, gen.start, []) else []
  }

  lemma BranchesOfOne<S(!new), T(!new)>(gen: Generator<S, T>, prefix: seq<WalkStep<S, T>>, step: WalkStep<S, T>)
    requires |prefix| < gen.maxDepth
    ensures Branches(gen, prefix, [step]) == WalksFrom(gen, step.chosenTarget, prefix + [step])
  {
    assert [step][1..] == [];
  }

  lemma {:induction false} BranchesConcat<S(!new), T(!new)>(
    gen: Generator<S, T>, prefix: seq<WalkStep<S, T>>, a: seq<WalkStep<S, T>>, b: seq<WalkStep<S, T>>)
    requires |prefix| < gen.maxDepth
    ensures Branches(gen, prefix, a + b) == Branches(gen, prefix, a) + Branches(gen, prefix, b)
    decreases |a|
  {
    if a == [] {
      assert a + b == b;
    } else {
      assert (a + b)[1..] == a[1..] + b;
      BranchesConcat(gen, prefix, a[1..], b);
    }
  }

  lemma {:induction false} StepsOfAllAppend<S(!new), T(!new)>(
    ts: seq<TransitionDescriptor<S, T>>, t: TransitionDescriptor<S, T>)
    ensures StepsOfAll(ts + [t]) == StepsOfAll(ts) + StepsOf(t, t.to)
  {
    if ts == [] {
    } else {
      assert (ts + [t])[1..] == ts[1..] + [t];
      StepsOfAllAppend(ts[1..], t);
    }
  }

  /** What the first `n` transitions contribute. */
  ghost function BranchesUpTo<S(!new), T(!new)>(
    gen: Generator<S, T>, prefix: seq<WalkStep<S, T>>, ts: seq<TransitionDescriptor<S, T>>, n: nat): seq<LegalWalk<S, T>>
    requires |prefix| < gen.maxDepth && n <= |ts|
  {
    Branches(gen, prefix, StepsOfAll(ts[..n]))
  }

  lemma BranchesNext<S(!new), T(!new)>(
    gen: Generator<S, T>, walks: seq<LegalWalk<S, T>>, prefix: seq<WalkStep<S, T>>,
    ts: seq<TransitionDescriptor<S, T>>, i: nat)
    requires |prefix| < gen.maxDepth && i < |ts|
    ensures walks + BranchesUpTo(gen, prefix, ts, i) + Branches(gen, prefix, StepsOf(ts[i], ts[i].to))
         == walks + BranchesUpTo(gen, prefix, ts, i + 1)
  {
    TakeNext(ts, i);
    ExtendBranches(gen, walks, prefix, StepsOfAll(ts[..i]), StepsOf(ts[i], ts[i].to));
    StepsOfAllAppend(ts[..i], ts[i]);
  }

  lemma ExtendBranches<S(!new), T(!new)>(
    gen: Generator<S, T>, walks: seq<LegalWalk<S, T>>, prefix: seq<WalkStep<S, T>>,
    a: seq<WalkStep<S, T>>, b: seq<WalkStep<S, T>>)
    requires |prefix| < gen.maxDepth
    ensures walks + Branches(gen, prefix, a) + Branches(gen, prefix, b) == walks + Branches(gen, prefix, a + b)
  {
    BranchesConcat(gen, prefix, a, b);
  }

  // ---- The recursive expansion with its shared step stack ----

  class Expansion<S(==, !new), T(==, !new)> {
    const gen: Generator<S, T>
    var steps: seq<WalkStep<S, T>>
    var walks: seq<LegalWalk<S, T>>

    constructor (gen: Generator<S, T>)
      ensures this.gen == gen && steps == [] && walks == []
    {
      this.gen := gen;
      steps, walks := [], [];
    }

    /** Appends every walk below the current stack and leaves the stack as it was. */
    method Expand(current: S)
      requires |steps| <= gen.maxDepth
      modifies this
      ensures steps == old(steps)
      ensures walks == old(walks) + WalksFrom(gen, current, old(steps))
      decreases gen.maxDepth - |steps|, 1
    {
      if gen.includeEmpty || steps != [] {
        walks := walks + [LegalWalk(gen.start, steps, current)];
      }
      assert walks == old(walks) + Emitted(gen, current, steps);
      if |steps| >= gen.maxDepth || current in gen.terminalStates {
        return;
      }
      ghost var emitted, prefix := walks, steps;
      var outgoing := TransitionsFrom(gen.graph, current);
      var i := 0;
      while i < |outgoing|
        invariant 0 <= i <= |outgoing| && steps == prefix
        invariant walks == emitted + BranchesUpTo(gen, prefix, outgoing, i)
      {
        ExpandTargets(outgoing[i]);
        BranchesNext(gen, emitted, prefix, outgoing, i);
        i := i + 1;
      }
      assert outgoing[..i] == outgoing;
    }

    /** The inner loop of the expansion: one step pushed, expanded and popped per target. */
    method ExpandTargets(transition: TransitionDescriptor<S, T>)
      requires |steps| < gen.maxDepth
      modifies this
      ensures steps == old(steps)
      ensures walks == old(walks) + Branches(gen, old(steps), StepsOf(transition, transition.to))
      decreases gen.maxDepth - |steps|, 0
    {
      ghost var prefix, all := steps, StepsOf(transition, transition.to);
      var j := 0;
      while j < |transition.to|
        invariant 0 <= j <= |transition.to| && steps == prefix
        invariant walks == old(walks) + Branches(gen, prefix, all[..j])
      {
        steps := steps + [StepOf(transition, transition.to[j])];
        Expand(transition.to[j]);
        steps := steps[..|steps| - 1];
        BranchesOfOne(gen, prefix, all[j]);
        ExtendBranches(gen, old(walks), prefix, all[..j], [all[j]]);
        assert all[..j] + [all[j]] == all[..j + 1];
        j := j + 1;
      }
      assert all[..j] == all;
    }
  }

  method Enumerate<S(==, !new), T(==, !new)>(gen: Generator<S, T>) returns (walks: seq<LegalWalk<S, T>>)
    ensures walks == AllWalks(gen)
  {
    var expansion := new Expansion(gen);
    if FindState(gen.graph.states, gen.start).Some? {
      expansion.Expand(gen.start);
    }
    walks := expansion.walks;
  }

  // ---- Exactness ----

  lemma ChainCons<S(!new), T(!new)>(gen: Generator<S, T>, current: S, tail: seq<WalkStep<S, T>>)
    requires tail != []
    ensures Chain(gen, current, tail) <==>
            LegalStep(gen.graph, current, tail[0]) && current !in gen.terminalStates &&
            Chain(gen, tail[0].chosenTarget, tail[1..])
    ensures StateAt(current, tail, |tail|) == StateAt(tail[0].chosenTarget, tail[1..], |tail| - 1)
  {
    var rest := tail[1..];
    forall i | 0 <= i < |rest|
      ensures LegalAt(gen, tail[0].chosenTarget, rest, i) <==> LegalAt(gen, current, tail, i + 1)
    {
      assert rest[i] == tail[i + 1];
      assert i > 0 ==> rest[i - 1] == tail[i];
    }
    if LegalAt(gen, current, tail, 0) && Chain(gen, tail[0].chosenTarget, rest) {
      forall i | 0 <= i < |tail| ensures LegalAt(gen, current, tail, i) {
        if i > 0 { assert LegalAt(gen, tail[0].chosenTarget, rest, i - 1); }
      }
    }
    if Chain(gen, current, tail) {
      assert LegalAt(gen, current, tail, 0);
      forall i | 0 <= i < |rest| ensures LegalAt(gen, tail[0].chosenTarget, rest, i) {
        assert LegalAt(gen, current, tail, i + 1);
      }
    }
    if |rest| > 0 { assert rest[|rest| - 1] == tail[|tail| - 1]; }
  }

  lemma {:induction false} StepsOfAllMembers<S(!new), T(!new)>(ts: seq<TransitionDescriptor<S, T>>, step: WalkStep<S, T>)
    ensures step in StepsOfAll(ts) <==> exists t :: t in ts && step.chosenTarget in t.to && step == StepOf(t, step.chosenTarget)
  {
    if ts == [] {
    } else {
      StepsOfAllMembers(ts[1..], step);
      var first := StepsOf(ts[0], ts[0].to);
      if t :| t in ts && step.chosenTarget in t.to && step == StepOf(t, step.chosenTarget) {
        if t == ts[0] {
          var k :| 0 <= k < |t.to| && t.to[k] == step.chosenTarget;
          assert first[k] == step;
        } else {
          assert t in ts[1..];
        }
      }
      if step in first {
        var k :| 0 <= k < |first| && first[k] == step;
        assert ts[0] in ts && step.chosenTarget == ts[0].to[k];
      } else if step in StepsOfAll(ts[1..]) {
        var t :| t in ts[1..] && step.chosenTarget in t.to && step == StepOf(t, step.chosenTarget);
        assert t in ts;
      }
    }
  }

  lemma StepsFromAreLegal<S(!new), T(!new)>(g: MachineGraph<S, T>, current: S, step: WalkStep<S, T>)
    ensures step in StepsFrom(g, current) <==> LegalStep(g, current, step)
  {
    StepsOfAllMembers(TransitionsFrom(g, current), step);
  }

  lemma WalksFromMembers<S(!new), T(!new)>(
    gen: Generator<S, T>, current: S, prefix: seq<WalkStep<S, T>>, w: LegalWalk<S, T>)
    requires |prefix| <= gen.maxDepth
    ensures w in WalksFrom(gen, current, prefix) <==>
            || w in Emitted(gen, current, prefix)
            || (|prefix| < gen.maxDepth && current !in gen.terminalStates &&
                w in Branches(gen, prefix, StepsFrom(gen.graph, current)))
  {
  }

  lemma OneMore<X>(a: seq<X>, x: X, b: seq<X>)
    ensures a + [x] + b == a + ([x] + b)
  {
  }

  lemma ChainGrows<S(!new), T(!new)>(gen: Generator<S, T>, current: S, step: WalkStep<S, T>, rest: seq<WalkStep<S, T>>)
    requires LegalStep(gen.graph, current, step) && current !in gen.terminalStates && Chain(gen, step.chosenTarget, rest)
    ensures Chain(gen, current, [step] + rest)
    ensures StateAt(current, [step] + rest, |rest| + 1) == StateAt(step.chosenTarget, rest, |rest|)
  {
    assert ([step] + rest)[1..] == rest;
    ChainCons(gen, current, [step] + rest);
  }

  /** A listed walk continues the prefix by a chain from `current`. */
  lemma {:induction false} WalksFromSound<S(!new), T(!new)>(
    gen: Generator<S, T>, current: S, prefix: seq<WalkStep<S, T>>, w: LegalWalk<S, T>) returns (tail: seq<WalkStep<S, T>>)
    requires |prefix| <= gen.maxDepth
    requires w in WalksFrom(gen, current, prefix)
    ensures w.start == gen.start && w.steps == prefix + tail && |w.steps| <= gen.maxDepth
    ensures gen.includeEmpty || w.steps != []
    ensures Chain(gen, current, tail) && w.end == StateAt(current, tail, |tail|)
    decreases gen.maxDepth - |prefix|, 1, 0
  {
    WalksFromMembers(gen, current, prefix, w);
    if w in Emitted(gen, current, prefix) {
      tail := [];
    } else {
      var step, rest := BranchesSound(gen, prefix, StepsFrom(gen.graph, current), w);
      tail := [step] + rest;
      StepsFromAreLegal(gen.graph, current, step);
      ChainGrows(gen, current, step, rest);
      OneMore(prefix, step, rest);
    }
  }

  lemma {:induction false} BranchesSound<S(!new), T(!new)>(
    gen: Generator<S, T>, prefix: seq<WalkStep<S, T>>, steps: seq<WalkStep<S, T>>, w: LegalWalk<S, T>)
    returns (step: WalkStep<S, T>, tail: seq<WalkStep<S, T>>)
    requires |prefix| < gen.maxDepth
    requires w in Branches(gen, prefix, steps)
    ensures step in steps
    ensures w.start == gen.start && w.steps == prefix + [step] + tail && |w.steps| <= gen.maxDepth
    ensures Chain(gen, step.chosenTarget, tail) && w.end == StateAt(step.chosenTarget, tail, |tail|)
    decreases gen.maxDepth - |prefix|, 0, |steps|
  {
    if w in WalksFrom(gen, steps[0].chosenTarget, prefix + [steps[0]]) {
      step := steps[0];
      tail := WalksFromSound(gen, step.chosenTarget, prefix + [step], w);
    } else {
      step, tail := BranchesSound(gen, prefix, steps[1..], w);
    }
  }

  lemma {:induction false} BranchesContain<S(!new), T(!new)>(
    gen: Generator<S, T>, prefix: seq<WalkStep<S, T>>, steps: seq<WalkStep<S, T>>, step: WalkStep<S, T>, w: LegalWalk<S, T>)
    requires |prefix| < gen.maxDepth
    requires step in steps && w in WalksFrom(gen, step.chosenTarget, prefix + [step])
    ensures w in Branches(gen, prefix, steps)
    decreases |steps|
  {
    if step == steps[0] {
    } else {
      BranchesContain(gen, prefix, steps[1..], step, w);
    }
  }

  /** Every chain from `current` within the bound is listed. */
  lemma {:induction false} WalksFromComplete<S(!new), T(!new)>(
    gen: Generator<S, T>, current: S, prefix: seq<WalkStep<S, T>>, tail: seq<WalkStep<S, T>>)
    requires |prefix + tail| <= gen.maxDepth
    requires gen.includeEmpty || prefix + tail != []
    requires Chain(gen, current, tail)
    ensures LegalWalk(gen.start, prefix + tail, StateAt(current, tail, |tail|)) in WalksFrom(gen, current, prefix)
    decreases |tail|
  {
    if tail == [] {
      assert prefix + tail == prefix;
    } else {
      var step, rest := tail[0], tail[1..];
      ChainCons(gen, current, tail);
      assert prefix + tail == (prefix + [step]) + rest;
      WalksFromComplete(gen, step.chosenTarget, prefix + [step], rest);
      StepsFromAreLegal(gen.graph, current, step);
      BranchesContain(gen, prefix, StepsFrom(gen.graph, current), step,
                      LegalWalk(gen.start, prefix + tail, StateAt(current, tail, |tail|)));
    }
  }

  /** The generator lists exactly the legal walks, for every depth, terminal set and flag. */
  lemma AllWalksExact<S(!new), T(!new)>(gen: Generator<S, T>, w: LegalWalk<S, T>)
    ensures w in AllWalks(gen) <==> IsLegalWalk(gen, w)
  {
    if w in AllWalks(gen) {
      var tail := WalksFromSound(gen, gen.start, [], w);
      assert w.steps == tail;
    }
    if IsLegalWalk(gen, w) {
      assert [] + w.steps == w.steps;
      WalksFromComplete(gen, gen.start, [], w.steps);
    }
  }

  // ---- Order and uniqueness ----

  /** Before a walk is listed, each of its proper prefixes has been listed. */
  lemma {:induction false} PrefixesFirst<S(!new), T(!new)>(
    gen: Generator<S, T>, current: S, prefix: seq<WalkStep<S, T>>, j: nat, shorter: seq<WalkStep<S, T>>) returns (i: nat)
    requires |prefix| <= gen.maxDepth
    requires j < |WalksFrom(gen, current, prefix)|
    requires prefix <= shorter < WalksFrom(gen, current, prefix)[j].steps
    requires gen.includeEmpty || shorter != []
    ensures i < j && WalksFrom(gen, current, prefix)[i].steps == shorter
    decreases gen.maxDepth - |prefix|, 1, 0
  {
    if shorter == prefix {
      EmittedIsFirst(gen, current, prefix);
      i := 0;
    } else {
      BehindTheEmitted(gen, current, prefix, j);
      var head, steps := |Emitted(gen, current, prefix)|, StepsFrom(gen.graph, current);
      var k := PrefixesFirstInBranches(gen, prefix, steps, j - head, shorter);
      AmongTheBranches(gen, current, prefix, k);
      i := k + head;
    }
  }

  lemma EmittedIsFirst<S(!new), T(!new)>(gen: Generator<S, T>, current: S, prefix: seq<WalkStep<S, T>>)
    requires |prefix| <= gen.maxDepth && (gen.includeEmpty || prefix != [])
    ensures |WalksFrom(gen, current, prefix)| > 0 && WalksFrom(gen, current, prefix)[0].steps == prefix
  {
    assert WalksFrom(gen, current, prefix)[0] == Emitted(gen, current, prefix)[0];
  }

  /** A walk longer than the prefix is listed among the branches, at its place behind the emitted walk. */
  lemma BehindTheEmitted<S(!new), T(!new)>(gen: Generator<S, T>, current: S, prefix: seq<WalkStep<S, T>>, j: nat)
    requires |prefix| <= gen.maxDepth
    requires j < |WalksFrom(gen, current, prefix)| && prefix != WalksFrom(gen, current, prefix)[j].steps
    ensures |prefix| < gen.maxDepth && current !in gen.terminalStates && |Emitted(gen, current, prefix)| <= j
    ensures var rest, head := Branches(gen, prefix, StepsFrom(gen.graph, current)), |Emitted(gen, current, prefix)|;
            j - head < |rest| && WalksFrom(gen, current, prefix)[j] == rest[j - head]
  {
    assert |prefix| < gen.maxDepth && current !in gen.terminalStates;
  }

  lemma AmongTheBranches<S(!new), T(!new)>(gen: Generator<S, T>, current: S, prefix: seq<WalkStep<S, T>>, k: nat)
    requires |prefix| < gen.maxDepth && current !in gen.terminalStates
    requires k < |Branches(gen, prefix, StepsFrom(gen.graph, current))|
    ensures var i := k + |Emitted(gen, current, prefix)|;
            && i < |WalksFrom(gen, current, prefix)|
            && WalksFrom(gen, current, prefix)[i] == Branches(gen, prefix, StepsFrom(gen.graph, current))[k]
  {
  }

  lemma {:induction false} PrefixesFirstInBranches<S(!new), T(!new)>(
    gen: Generator<S, T>, prefix: seq<WalkStep<S, T>>, steps: seq<WalkStep<S, T>>, j: nat, shorter: seq<WalkStep<S, T>>)
    returns (i: nat)
    requires |prefix| < gen.maxDepth
    requires j < |Branches(gen, prefix, steps)|
    requires prefix < shorter < Branches(gen, prefix, steps)[j].steps
    ensures i < j && Branches(gen, prefix, steps)[i].steps == shorter
    decreases gen.maxDepth - |prefix|, 0, |steps|
  {
    var first := WalksFrom(gen, steps[0].chosenTarget, prefix + [steps[0]]);
    var all := Branches(gen, prefix, steps);
    if j < |first| {
      assert all[j] == first[j];
      var tail := WalksFromSound(gen, steps[0].chosenTarget, prefix + [steps[0]], first[j]);
      assert first[j].steps[|prefix|] == steps[0];
      assert shorter[|prefix|] == steps[0];
      assert prefix + [steps[0]] <= shorter;
      i := PrefixesFirst(gen, steps[0].chosenTarget, prefix + [steps[0]], j, shorter);
      assert all[i] == first[i];
    } else {
      var rest := Branches(gen, prefix, steps[1..]);
      assert all[j] == rest[j - |first|];
      i := PrefixesFirstInBranches(gen, prefix, steps[1..], j - |first|, shorter);
      i := i + |first|;
      assert all[i] == rest[i - |first|];
    }
  }

  /** Every walk comes after all of its proper prefixes (the empty one only when it is included). */
  lemma PrefixOrder<S(!new), T(!new)>(gen: Generator<S, T>, j: nat, n: nat) returns (i: nat)
    requires j < |AllWalks(gen)| && n < |AllWalks(gen)[j].steps|
    requires gen.includeEmpty || n > 0
    ensures i < j && AllWalks(gen)[i].steps == AllWalks(gen)[j].steps[..n]
  {
    i := PrefixesFirst(gen, gen.start, [], j, AllWalks(gen)[j].steps[..n]);
  }

  lemma {:induction false} StepsOfAllDistinct<S(!new), T(!new)>(ts: seq<TransitionDescriptor<S, T>>)
    requires DistinctIds(ts)
    requires forall t :: t in ts ==> Distinct(t.to)
    ensures Distinct(StepsOfAll(ts))
  {
    if ts == [] {
    } else {
      StepsOfAllDistinct(ts[1..]);
      var first, rest := StepsOf(ts[0], ts[0].to), StepsOfAll(ts[1..]);
      assert Distinct(ts[0].to);
      forall i, j | 0 <= i < |first| && 0 <= j < |rest| ensures first[i] != rest[j] {
        assert rest[j] in rest;
        StepsOfAllMembers(ts[1..], rest[j]);
        var t :| t in ts[1..] && rest[j].chosenTarget in t.to && rest[j] == StepOf(t, rest[j].chosenTarget);
        var k :| 0 <= k < |ts[1..]| && ts[1..][k] == t;
        assert ts[k + 1].id != ts[0].id;
      }
      DistinctConcat(first, rest);
    }
  }

  lemma DistinctConcat<X>(a: seq<X>, b: seq<X>)
    requires Distinct(a) && Distinct(b)
    requires forall i, j :: 0 <= i < |a| && 0 <= j < |b| ==> a[i] != b[j]
    ensures Distinct(a + b)
  {
  }

  lemma {:induction false} FilterKeepsDistinctIds<S(!new), T(!new)>(
    keep: TransitionDescriptor<S, T> -> bool, ts: seq<TransitionDescriptor<S, T>>)
    requires DistinctIds(ts)
    ensures DistinctIds(Filter(keep, ts))
  {
    if ts == [] {
    } else {
      FilterKeepsDistinctIds(keep, ts[1..]);
      var rest := Filter(keep, ts[1..]);
      var kept := Filter(keep, ts);
      assert kept == (if keep(ts[0]) then [ts[0]] else []) + rest;
      forall j | 0 <= j < |rest| ensures rest[j].id != ts[0].id {
        assert rest[j] in ts[1..];
        var k :| 0 <= k < |ts[1..]| && ts[1..][k] == rest[j];
        assert ts[k + 1].id != ts[0].id;
      }
      if keep(ts[0]) {
        assert kept[1..] == rest;
      }
    }
  }

  lemma StepsFromDistinct<S(!new), T(!new)>(g: MachineGraph<S, T>, current: S)
    requires UniqueTransitionIds(g) && DuplicateFreeTargets(g)
    ensures Distinct(StepsFrom(g, current))
  {
    FilterKeepsDistinctIds(LeavesFrom(current), g.transitions);
    StepsOfAllDistinct(TransitionsFrom(g, current));
  }

  lemma {:induction false} WalksFromDistinct<S(!new), T(!new)>(gen: Generator<S, T>, current: S, prefix: seq<WalkStep<S, T>>)
    requires |prefix| <= gen.maxDepth
    requires UniqueTransitionIds(gen.graph) && DuplicateFreeTargets(gen.graph)
    ensures Distinct(WalksFrom(gen, current, prefix))
    decreases gen.maxDepth - |prefix|, 1, 0
  {
    if |prefix| < gen.maxDepth && current !in gen.terminalStates {
      var head, steps := Emitted(gen, current, prefix), StepsFrom(gen.graph, current);
      StepsFromDistinct(gen.graph, current);
      BranchesDistinct(gen, prefix, steps);
      var rest := Branches(gen, prefix, steps);
      forall i, j | 0 <= i < |head| && 0 <= j < |rest| ensures head[i] != rest[j] {
        var step, tail := BranchesSound(gen, prefix, steps, rest[j]);
      }
      DistinctConcat(head, rest);
    }
  }

  lemma {:induction false} BranchesDistinct<S(!new), T(!new)>(
    gen: Generator<S, T>, prefix: seq<WalkStep<S, T>>, steps: seq<WalkStep<S, T>>)
    requires |prefix| < gen.maxDepth
    requires UniqueTransitionIds(gen.graph) && DuplicateFreeTargets(gen.graph)
    requires Distinct(steps)
    ensures Distinct(Branches(gen, prefix, steps))
    decreases gen.maxDepth - |prefix|, 0, |steps|
  {
    if steps == [] {
    } else {
      var first := WalksFrom(gen, steps[0].chosenTarget, prefix + [steps[0]]);
      var rest := Branches(gen, prefix, steps[1..]);
      WalksFromDistinct(gen, steps[0].chosenTarget, prefix + [steps[0]]);
      BranchesDistinct(gen, prefix, steps[1..]);
      forall i, j | 0 <= i < |first| && 0 <= j < |rest| ensures first[i] != rest[j] {
        var tail1 := WalksFromSound(gen, steps[0].chosenTarget, prefix + [steps[0]], first[i]);
        var step, tail2 := BranchesSound(gen, prefix, steps[1..], rest[j]);
        assert first[i].steps[|prefix|] == steps[0] && rest[j].steps[|prefix|] == step;
        assert step != steps[0] by { assert step in steps[1..]; }
      }
      DistinctConcat(first, rest);
    }
  }

  /** With distinct transition ids and duplicate-free targets, no walk is listed twice. */
  lemma WalksListedOnce<S(!new), T(!new)>(gen: Generator<S, T>)
    requires UniqueTransitionIds(gen.graph) && DuplicateFreeTargets(gen.graph)
    ensures Distinct(AllWalks(gen))
  {
    if FindState(gen.graph.states, gen.start).Some? {
      WalksFromDistinct(gen, gen.start, []);
    }
  }

  /** With distinct transition ids, each step of a listed walk joins back to its own descriptor. */
  lemma StepsJoinBack<S(!new), T(!new)>(gen: Generator<S, T>, w: LegalWalk<S, T>, i: nat)
    requires UniqueTransitionIds(gen.graph)
    requires w in AllWalks(gen) && i < |w.steps|
    ensures TransitionIn(gen.graph, RecordedTransition(
                           gen.graph.machine, StateAt(w.start, w.steps, i), w.steps[i].transition, w.steps[i].chosenTarget))
         == Some(TransitionDescriptor(
                   w.steps[i].transition, w.steps[i].methodName, StateAt(w.start, w.steps, i), w.steps[i].legalTargets))
  {
    AllWalksExact(gen, w);
    assert LegalAt(gen, w.start, w.steps, i);
    var t :| t in gen.graph.transitions && t.from == StateAt(w.start, w.steps, i) &&
             w.steps[i].chosenTarget in t.to && w.steps[i] == StepOf(t, w.steps[i].chosenTarget);
    var found := FindTransition(gen.graph.transitions, t.id);
    assert found.Some? && found.value == t;
  }

  // ---- Agreement with the path check ----

  lemma LegalStepIsEdge<S(!new), T(!new)>(g: MachineGraph<S, T>, at: S, step: WalkStep<S, T>)
    requires LegalStep(g, at, step)
    ensures Edges(g)(at, step.chosenTarget)
  {
  }

  lemma WalkReaches<S(!new), T(!new)>(gen: Generator<S, T>, w: LegalWalk<S, T>)
    requires IsLegalWalk(gen, w)
    ensures Reaches(Edges(gen.graph), w.start, w.end)
  {
    ReachesSelf(Edges(gen.graph), w.start);
    var i := 0;
    while i < |w.steps|
      invariant 0 <= i <= |w.steps|
      invariant Reaches(Edges(gen.graph), w.start, StateAt(w.start, w.steps, i))
    {
      assert LegalAt(gen, w.start, w.steps, i);
      LegalStepIsEdge(gen.graph, StateAt(w.start, w.steps, i), w.steps[i]);
      ReachesStep(Edges(gen.graph), w.start, StateAt(w.start, w.steps, i), w.steps[i].chosenTarget);
      i := i + 1;
    }
  }

  ghost predicate StepsAlong<S(!new), T(!new)>(g: MachineGraph<S, T>, p: seq<S>, steps: seq<WalkStep<S, T>>) {
    && |p| == |steps| + 1
    && (forall i :: 0 <= i <= |steps| ==> StateAt(p[0], steps, i) == p[i])
    && (forall i :: 0 <= i < |steps| ==> LegalStep(g, p[i], steps[i]))
  }

  lemma StepsAlongGrows<S(!new), T(!new)>(
    g: MachineGraph<S, T>, p: seq<S>, steps: seq<WalkStep<S, T>>, step: WalkStep<S, T>)
    requires StepsAlong(g, p, steps) && LegalStep(g, p[|steps|], step)
    ensures StepsAlong(g, p + [step.chosenTarget], steps + [step])
  {
    var q, more := p + [step.chosenTarget], steps + [step];
    forall i | 0 <= i <= |more| ensures StateAt(q[0], more, i) == q[i] {
      if i <= |steps| { assert StateAt(q[0], more, i) == StateAt(p[0], steps, i); }
    }
  }

  /** Chooses a transition site for each edge of a path. */
  lemma {:induction false} PathToSteps<S(!new), T(!new)>(g: MachineGraph<S, T>, p: seq<S>) returns (steps: seq<WalkStep<S, T>>)
    requires IsPath(Edges(g), p)
    ensures StepsAlong(g, p, steps)
    decreases |p|
  {
    if |p| == 1 {
      steps := [];
    } else {
      var n := |p| - 1;
      var q, last := p[..n], p[n];
      FrontIsPath(Edges(g), p);
      var front := PathToSteps(g, q);
      var t :| t in g.transitions && t.from == p[n - 1] && last in t.to;
      StepsAlongGrows(g, q, front, StepOf(t, last));
      steps := front + [StepOf(t, last)];
    }
  }

  lemma FrontIsPath<V(!new)>(edge: (V, V) -> bool, p: seq<V>)
    requires IsPath(edge, p) && |p| > 1
    ensures IsPath(edge, p[..|p| - 1]) && edge(p[|p| - 2], p[|p| - 1]) && p == p[..|p| - 1] + [p[|p| - 1]]
  {
    var n := |p| - 1;
    assert Hop(edge, p, n);
    forall i | 0 < i < n ensures Hop(edge, p[..n], i) {
      assert Hop(edge, p, i);
    }
  }

  ghost predicate EndsAWalk<S(!new), T(!new)>(gen: Generator<S, T>, target: S) {
    exists w :: w in AllWalks(gen) && w.end == target
  }

  lemma WalkEndsReachable<S(!new), T(!new)>(gen: Generator<S, T>, w: LegalWalk<S, T>)
    requires Closed(gen.graph) && Declared(gen.graph, gen.start) && IsLegalWalk(gen, w) && w.start == gen.start
    ensures Declared(gen.graph, w.end) && Reaches(Edges(gen.graph), w.start, w.end)
  {
    WalkReaches(gen, w);
    if w.steps != [] {
      var last := |w.steps| - 1;
      assert LegalAt(gen, w.start, w.steps, last);
    }
  }

  /** A short enough path is walked by the generator with the default depth. */
  lemma ReachableEndsAWalk<S(!new), T(!new)>(g: MachineGraph<S, T>, start: S, target: S)
    requires Closed(g) && Declared(g, start) && Reaches(Edges(g), start, target)
    ensures EndsAWalk(LegalWalksFrom(g, start), target)
  {
    var gen := LegalWalksFrom(g, start);
    forall x, y | Edges(g)(x, y) ensures Declared(g, y) && y in StateIds(g) {
      var t :| t in g.transitions && t.from == x && y in t.to;
      DeclaredIsListed(g, y);
    }
    DeclaredIsListed(g, start);
    var p := ShortPath(Edges(g), StateIds(g), start, target);
    var steps := PathToSteps(g, p);
    forall i | 0 <= i < |steps| ensures LegalAt(gen, start, steps, i) {
      assert LegalStep(g, p[i], steps[i]) && StateAt(start, steps, i) == p[i];
    }
    var w := LegalWalk(start, steps, target);
    assert StateAt(start, steps, |steps|) == target;
    AllWalksExact(gen, w);
  }

  /**
   * On a closed graph the default depth is enough: the enumeration ends a walk at `target` exactly
   * when both states are declared and `target` is reachable, which is what the path check answers.
   */
  lemma DefaultDepthSuffices<S(!new), T(!new)>(g: MachineGraph<S, T>, start: S, target: S)
    requires Closed(g)
    ensures EndsAWalk(LegalWalksFrom(g, start), target) <==>
            Declared(g, start) && Declared(g, target) && Reaches(Edges(g), start, target)
  {
    var gen := LegalWalksFrom(g, start);
    if w :| w in AllWalks(gen) && w.end == target {
      AllWalksExact(gen, w);
      WalkEndsReachable(gen, w);
    }
    if Declared(g, start) && Reaches(Edges(g), start, target) {
      ReachableEndsAWalk(g, start, target);
    }
  }

  /** The two algorithms side by side. */
  method WalksAgreeWithPathCheck<S(==, !new), T(==, !new)>(g: MachineGraph<S, T>, start: S, target: S)
    returns (walks: seq<LegalWalk<S, T>>, found: bool)
    requires Closed(g)
    ensures walks == AllWalks(LegalWalksFrom(g, start))
    ensures found <==> exists w :: w in walks && w.end == target
  {
    walks := Enumerate(LegalWalksFrom(g, start));
    found := GraphPath.GraphHasPath(g, start, target);
    DefaultDepthSuffices(g, start, target);
  }
}
