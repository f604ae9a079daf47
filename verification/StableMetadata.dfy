/** Stable string-named metadata, its reachability search and its lints (statum-core/src/introspection/stable_metadata.rs). */
module StableMetadata {
  import opened Common
  import opened Paths
  import opened Graph

  datatype StableState = StableState(
    rustName: string, labelText: Option<string>, description: Option<string>, hasData: bool)

  datatype StableTransition = StableTransition(
    methodName: string, labelText: Option<string>, description: Option<string>, fromState: string, toStates: seq<string>)

  datatype StableGraphMetadata = StableGraphMetadata(states: seq<StableState>, transitions: seq<StableTransition>)

  const UNKNOWN_STATE := "<unknown>"

  // ---- Lowering typed graphs ----

  function NameOf<S(==, !new), T(==, !new)>(g: MachineGraph<S, T>, id: S): string {
    match FindState(g.states, id)
    case Some(state) => state.rustName
    case None => UNKNOWN_STATE
  }

  function LowerState<S(==, !new)>(state: StateDescriptor<S>): StableState {
    StableState(state.rustName, None, None, state.hasData)
  }

  function LowerTransition<S(==, !new), T(==, !new)>(g: MachineGraph<S, T>, t: TransitionDescriptor<S, T>): StableTransition {
    StableTransition(t.methodName, None, None, NameOf(g, t.from), Map((target: S) => NameOf(g, target), t.to))
  }

  /** The states and transitions keep their order, names and data flags. */
  function FromGraph<S(==, !new), T(==, !new)>(g: MachineGraph<S, T>): (m: StableGraphMetadata)
    ensures |m.states| == |g.states| && |m.transitions| == |g.transitions|
    ensures forall i :: 0 <= i < |m.states| ==> m.states[i].rustName == g.states[i].rustName && m.states[i].hasData == g.states[i].hasData
    ensures forall i :: 0 <= i < |m.transitions| ==> m.transitions[i].methodName == g.transitions[i].methodName
  {
    StableGraphMetadata(
      Map((s: StateDescriptor<S>) => LowerState(s), g.states),
      Map((t: TransitionDescriptor<S, T>) => LowerTransition(g, t), g.transitions))
  }

  // ---- Queries ----

  /** Position of the first state with the given name. */
  function StateIndex(states: seq<StableState>, name: string): (r: Option<nat>)
    ensures r.Some? ==> r.value < |states| && states[r.value].rustName == name
    ensures r.Some? ==> forall j :: 0 <= j < r.value ==> states[j].rustName != name
    ensures r.None? ==> forall j :: 0 <= j < |states| ==> states[j].rustName != name
  {
    if states == [] then None
    else if states[0].rustName == name then Some(0)
    else match StateIndex(states[1..], name)
      case None =>
        assert forall j :: 0 < j < |states| ==> states[j] == states[1..][j - 1];
        None
      case Some(i) =>
        assert forall j :: 0 < j < |states| ==> states[j] == states[1..][j - 1];
        Some(i + 1)
  }

  function StateNames(m: StableGraphMetadata): (r: seq<string>)
    ensures |r| == |m.states|
    ensures forall i :: 0 <= i < |r| ==> r[i] == m.states[i].rustName
  {
    Map((s: StableState) => s.rustName, m.states)
  }

  ghost predicate HasNameEdge(m: StableGraphMetadata, a: string, b: string) {
    StateIndex(m.states, b).Some? && exists t :: t in m.transitions && t.fromState == a && b in t.toStates
  }

  ghost function NameEdges(m: StableGraphMetadata): (string, string) -> bool {
    (a, b) => HasNameEdge(m, a, b)
  }

  ghost predicate ReachableName(m: StableGraphMetadata, name: string) {
    m.states != [] && Reaches(NameEdges(m), m.states[0].rustName, name)
  }

  // ---- Breadth-first search ----

  /** The inner loops of the search: appends the declared targets of `source` not yet listed. */
  method AppendTargets(m: StableGraphMetadata, source: string, reachable: seq<string>) returns (grown: seq<string>)
    requires Distinct(reachable)
    ensures reachable <= grown && Distinct(grown)
    ensures forall k :: |reachable| <= k < |grown| ==> HasNameEdge(m, source, grown[k])
    ensures forall b :: HasNameEdge(m, source, b) ==> b in grown
  {
    grown := reachable;
    var i := 0;
    while i < |m.transitions|
      invariant 0 <= i <= |m.transitions| && reachable <= grown && Distinct(grown)
      invariant forall k :: |reachable| <= k < |grown| ==> HasNameEdge(m, source, grown[k])
      invariant forall t, b | t in m.transitions[..i] && t.fromState == source && b in t.toStates ::
                  StateIndex(m.states, b).Some? ==> b in grown
    {
      var transition := m.transitions[i];
      if transition.fromState == source {
        ghost var before := grown;
        var j := 0;
        while j < |transition.toStates|
          invariant 0 <= j <= |transition.toStates| && reachable <= before <= grown && Distinct(grown)
          invariant forall k :: |reachable| <= k < |grown| ==> HasNameEdge(m, source, grown[k])
          invariant forall b :: b in transition.toStates[..j] && StateIndex(m.states, b).Some? ==> b in grown
        {
          var target := transition.toStates[j];
          if StateIndex(m.states, target).Some? && target !in grown {
            assert transition in m.transitions && target in transition.toStates;
            grown := grown + [target];
          }
          j := j + 1;
        }
        assert forall x :: x in before ==> x in grown;
      }
      i := i + 1;
    }
    assert m.transitions[..i] == m.transitions;
  }

  method ReachableStateNames(m: StableGraphMetadata) returns (reachable: seq<string>)
    ensures Distinct(reachable)
    ensures forall name :: name in reachable <==> ReachableName(m, name)
  {
    if m.states == [] {
      return [];
    }
    var first := m.states[0].rustName;
    reachable := [first];
    var cursor := 0;
    ghost var names := StateNames(m);
    assert names[0] == first;
    ReachesSelf(NameEdges(m), first);

    while cursor < |reachable|
      invariant 0 <= cursor <= |reachable| <= |names|
      invariant Distinct(reachable) && Within(reachable, names)
      invariant first in reachable
      invariant forall name :: name in reachable ==> ReachableName(m, name)
      invariant forall k, b :: 0 <= k < cursor && HasNameEdge(m, reachable[k], b) ==> b in reachable
      decreases |names| - cursor
    {
      var source := reachable[cursor];
      assert source in reachable;
      cursor := cursor + 1;
      var grown := AppendTargets(m, source, reachable);
      forall name | name in grown ensures ReachableName(m, name) && name in names {
        var k :| 0 <= k < |grown| && grown[k] == name;
        if k < |reachable| {
          assert reachable[k] == name;
        } else {
          ReachesStep(NameEdges(m), first, source, name);
          assert names[StateIndex(m.states, name).value] == name;
        }
      }
      Pigeonhole(grown, names);
      forall k, b | 0 <= k < cursor && HasNameEdge(m, grown[k], b) ensures b in grown {
        assert grown[k] == reachable[k];
        if k < cursor - 1 {
          assert b in reachable;
        }
      }
      reachable := grown;
    }
    forall name | ReachableName(m, name) ensures name in reachable {
      var inside := set x | x in reachable;
      forall x, y | x in inside && NameEdges(m)(x, y) ensures y in inside {
        var k :| 0 <= k < |reachable| && reachable[k] == x;
        assert HasNameEdge(m, reachable[k], y);
      }
      ClosedSetKeepsPaths(NameEdges(m), inside, first, name);
    }
  }

  // ---- Lints ----

  datatype GraphLintCode =
    | TerminalStateHasOutgoingTransition | UnreachableState | MissingIncomingPath | SuspiciousSelfTransition

  /** A finding without its message text. */
  datatype GraphLintFinding = GraphLintFinding(code: GraphLintCode, state: string, transition: Option<string>)

  function AsciiLower(s: string): string {
    Map((c: char) => if 'A' <= c <= 'Z' then ((c as int) + 32) as char else c, s)
  }

  predicate EndsWith(s: string, suffix: string) {
    |suffix| <= |s| && s[|s| - |suffix|..] == suffix
  }

  predicate TerminalLikeStateName(name: string) {
    var normalized := AsciiLower(name);
    || normalized in {"complete", "completed", "done", "final", "terminal", "published", "archived"}
    || EndsWith(normalized, "complete")
    || EndsWith(normalized, "completed")
    || EndsWith(normalized, "done")
    || EndsWith(normalized, "published")
    || EndsWith(normalized, "archived")
  }

  function TransitionFindings(transitions: seq<StableTransition>): seq<GraphLintFinding> {
    if transitions == [] then []
    else
      var t := transitions[|transitions| - 1];
      TransitionFindings(transitions[..|transitions| - 1])
      + (if TerminalLikeStateName(t.fromState)
         then [GraphLintFinding(TerminalStateHasOutgoingTransition, t.fromState, Some(t.methodName))] else [])
      + (if t.fromState in t.toStates
         then [GraphLintFinding(SuspiciousSelfTransition, t.fromState, Some(t.methodName))] else [])
  }

  ghost predicate HasIncoming(m: StableGraphMetadata, name: string) {
    exists t :: t in m.transitions && name in t.toStates
  }

  /** One finding with the given code for each of `names` that lacks the property, in order. */
  ghost function Lacking(code: GraphLintCode, has: string -> bool, names: seq<string>): seq<GraphLintFinding> {
    if names == [] then []
    else
      var last := names[|names| - 1];
      Lacking(code, has, names[..|names| - 1]) + (if has(last) then [] else [GraphLintFinding(code, last, None)])
  }

  lemma {:induction false} LackingMembers(code: GraphLintCode, has: string -> bool, names: seq<string>, f: GraphLintFinding)
    ensures f in Lacking(code, has, names) <==>
            f == GraphLintFinding(code, f.state, None) && f.state in names && !has(f.state)
  {
    if names == [] {
    } else {
      LackingMembers(code, has, names[..|names| - 1], f);
      assert names == names[..|names| - 1] + [names[|names| - 1]];
    }
  }

  ghost function MissingIncoming(m: StableGraphMetadata, names: seq<string>): seq<GraphLintFinding> {
    Lacking(MissingIncomingPath, name => HasIncoming(m, name), names)
  }

  ghost function Unreachable(m: StableGraphMetadata, names: seq<string>): seq<GraphLintFinding> {
    Lacking(UnreachableState, name => ReachableName(m, name), names)
  }

  /** All names but that of the first state. */
  ghost function LaterNames(m: StableGraphMetadata): seq<string> {
    if m.states == [] then [] else StateNames(m)[1..]
  }

  ghost function LintFindings(m: StableGraphMetadata): seq<GraphLintFinding> {
    TransitionFindings(m.transitions) + MissingIncoming(m, LaterNames(m)) + Unreachable(m, LaterNames(m))
  }

  method AnyTransitionTargets(m: StableGraphMetadata, name: string) returns (found: bool)
    ensures found <==> HasIncoming(m, name)
  {
    var i := 0;
    while i < |m.transitions|
      invariant 0 <= i <= |m.transitions|
      invariant forall k :: 0 <= k < i ==> name !in m.transitions[k].toStates
    {
      if name in m.transitions[i].toStates {
        assert m.transitions[i] in m.transitions;
        return true;
      }
      i := i + 1;
    }
    return false;
  }

  /** The loop over the transitions. */
  method LintTransitions(transitions: seq<StableTransition>) returns (findings: seq<GraphLintFinding>)
    ensures findings == TransitionFindings(transitions)
  {
    findings := [];
    for i := 0 to |transitions|
      invariant findings == TransitionFindings(transitions[..i])
    {
      var t := transitions[i];
      assert transitions[..i + 1][..i] == transitions[..i];
      if TerminalLikeStateName(t.fromState) {
        findings := findings + [GraphLintFinding(TerminalStateHasOutgoingTransition, t.fromState, Some(t.methodName))];
      }
      if t.fromState in t.toStates {
        findings := findings + [GraphLintFinding(SuspiciousSelfTransition, t.fromState, Some(t.methodName))];
      }
    }
    assert transitions[..|transitions|] == transitions;
  }

  /** The loop over the later names that looks for incoming transitions. */
  method LintIncoming(m: StableGraphMetadata, names: seq<string>) returns (findings: seq<GraphLintFinding>)
    ensures findings == MissingIncoming(m, names)
  {
    findings := [];
    for i := 0 to |names|
      invariant findings == MissingIncoming(m, names[..i])
    {
      assert names[..i + 1][..i] == names[..i];
      var found := AnyTransitionTargets(m, names[i]);
      if !found {
        findings := findings + [GraphLintFinding(MissingIncomingPath, names[i], None)];
      }
    }
    assert names[..|names|] == names;
  }

  /** The loop over the later names that consults the search. */
  method LintReachable(m: StableGraphMetadata, names: seq<string>) returns (findings: seq<GraphLintFinding>)
    ensures findings == Unreachable(m, names)
  {
    findings := [];
    var reachable := ReachableStateNames(m);
    for i := 0 to |names|
      invariant findings == Unreachable(m, names[..i])
    {
      assert names[..i + 1][..i] == names[..i];
      if names[i] !in reachable {
        findings := findings + [GraphLintFinding(UnreachableState, names[i], None)];
      }
    }
    assert names[..|names|] == names;
  }

  method LintGraphInvariants(m: StableGraphMetadata) returns (findings: seq<GraphLintFinding>)
    ensures findings == LintFindings(m)
  {
    var names := StateNames(m);
    var later := if names == [] then [] else names[1..];
    var transitions := LintTransitions(m.transitions);
    var incoming := LintIncoming(m, later);
    var unreachable := LintReachable(m, later);
    findings := transitions + incoming + unreachable;
  }

  // ---- What the lints mean ----

  lemma {:induction false} TransitionFindingsCodes(transitions: seq<StableTransition>, f: GraphLintFinding)
    requires f in TransitionFindings(transitions)
    ensures f.code != MissingIncomingPath && f.code != UnreachableState
  {
    var front := transitions[..|transitions| - 1];
    if f in TransitionFindings(front) {
      TransitionFindingsCodes(front, f);
    }
  }

  /** The same letters, small or capital; only ASCII letters have both forms. */
  ghost predicate SameLetters(s: string, word: string) {
    |s| == |word| && forall i :: 0 <= i < |s| ==> s[i] == word[i] || ('A' <= s[i] <= 'Z' && s[i] as int + 32 == word[i] as int)
  }

  ghost predicate EndsInLetters(s: string, word: string) {
    |word| <= |s| && SameLetters(s[|s| - |word|..], word)
  }

  /** The name ends in one of five words, or is one of two more, in any case. */
  ghost predicate SoundsTerminal(name: string) {
    || EndsInLetters(name, "complete") || EndsInLetters(name, "completed") || EndsInLetters(name, "done")
    || EndsInLetters(name, "published") || EndsInLetters(name, "archived")
    || SameLetters(name, "final") || SameLetters(name, "terminal")
  }

  ghost predicate SmallLetters(word: string) {
    forall i :: 0 <= i < |word| ==> 'a' <= word[i] <= 'z'
  }

  lemma LowerHasSameLetters(s: string, word: string)
    requires SmallLetters(word)
    ensures EndsWith(AsciiLower(s), word) <==> EndsInLetters(s, word)
  {
    var lower := AsciiLower(s);
    if |word| <= |s| {
      var k := |s| - |word|;
      var tail, lowerTail := s[k..], lower[k..];
      assert forall i :: 0 <= i < |word| ==> tail[i] == s[k + i] && lowerTail[i] == lower[k + i];
      if SameLetters(tail, word) {
        assert lowerTail == word;
      }
    }
  }

  lemma LowerIsWord(s: string, word: string)
    requires SmallLetters(word)
    ensures AsciiLower(s) == word <==> SameLetters(s, word)
    ensures AsciiLower(s) == word ==> EndsWith(AsciiLower(s), word)
  {
    var lower := AsciiLower(s);
    if SameLetters(s, word) {
      assert lower == word;
    }
    assert lower[0..] == lower;
  }

  /** The name, with small letters, is one of seven words or ends in one of five of them. */
  lemma TerminalWords(name: string)
    ensures TerminalLikeStateName(name) <==>
            var n := AsciiLower(name);
            || n == "final" || n == "terminal"
            || EndsWith(n, "complete") || EndsWith(n, "completed") || EndsWith(n, "done")
            || EndsWith(n, "published") || EndsWith(n, "archived")
  {
    var n := AsciiLower(name);
    assert n[0..] == n;
  }

  lemma TerminalLikeMeans(name: string)
    ensures TerminalLikeStateName(name) <==> SoundsTerminal(name)
  {
    LowerHasSameLetters(name, "complete");
    LowerHasSameLetters(name, "completed");
    LowerHasSameLetters(name, "done");
    LowerHasSameLetters(name, "published");
    LowerHasSameLetters(name, "archived");
    LowerIsWord(name, "final");
    LowerIsWord(name, "terminal");
    TerminalWords(name);
  }

  lemma {:induction false} TransitionFindingsMembers(transitions: seq<StableTransition>, f: GraphLintFinding)
    ensures f in TransitionFindings(transitions) <==> exists t :: t in transitions && IsTransitionFinding(t, f)
  {
    if transitions == [] {
    } else {
      var front, last := transitions[..|transitions| - 1], transitions[|transitions| - 1];
      assert transitions == front + [last];
      TransitionFindingsMembers(front, f);
      TerminalLikeMeans(last.fromState);
      var terminal := GraphLintFinding(TerminalStateHasOutgoingTransition, last.fromState, Some(last.methodName));
      var looping := GraphLintFinding(SuspiciousSelfTransition, last.fromState, Some(last.methodName));
      assert f in TransitionFindings(transitions) <==>
             || f in TransitionFindings(front)
             || (f == terminal && TerminalLikeStateName(last.fromState)) || (f == looping && last.fromState in last.toStates);
      assert IsTransitionFinding(last, f) <==>
             (f == terminal && SoundsTerminal(last.fromState)) || (f == looping && last.fromState in last.toStates);
    }
  }

  /** The finding is about a transition out of a state that sounds terminal, or one that leads back to its own source. */
  ghost predicate IsTransitionFinding(t: StableTransition, f: GraphLintFinding) {
    && f.state == t.fromState && f.transition == Some(t.methodName)
    && match f.code
       case TerminalStateHasOutgoingTransition => SoundsTerminal(t.fromState)
       case SuspiciousSelfTransition => t.fromState in t.toStates
       case _ => false
  }

  /** A finding with one of the two transition codes is reported exactly when some transition calls for it. */
  lemma TransitionFindingMeans(m: StableGraphMetadata, f: GraphLintFinding)
    requires f.code.TerminalStateHasOutgoingTransition? || f.code.SuspiciousSelfTransition?
    ensures f in LintFindings(m) <==> exists t :: t in m.transitions && IsTransitionFinding(t, f)
  {
    TransitionFindingsMembers(m.transitions, f);
    LackingMembers(UnreachableState, n => ReachableName(m, n), LaterNames(m), f);
    LackingMembers(MissingIncomingPath, n => HasIncoming(m, n), LaterNames(m), f);
  }

  lemma UnreachableFindingMeans(m: StableGraphMetadata, name: string)
    ensures GraphLintFinding(UnreachableState, name, None) in LintFindings(m) <==>
            name in LaterNames(m) && !ReachableName(m, name)
  {
    var f := GraphLintFinding(UnreachableState, name, None);
    LackingMembers(UnreachableState, n => ReachableName(m, n), LaterNames(m), f);
    LackingMembers(MissingIncomingPath, n => HasIncoming(m, n), LaterNames(m), f);
    if f in TransitionFindings(m.transitions) { TransitionFindingsCodes(m.transitions, f); }
  }

  lemma MissingIncomingFindingMeans(m: StableGraphMetadata, name: string)
    ensures GraphLintFinding(MissingIncomingPath, name, None) in LintFindings(m) <==>
            name in LaterNames(m) && !HasIncoming(m, name)
  {
    var f := GraphLintFinding(MissingIncomingPath, name, None);
    LackingMembers(UnreachableState, n => ReachableName(m, n), LaterNames(m), f);
    LackingMembers(MissingIncomingPath, n => HasIncoming(m, n), LaterNames(m), f);
    if f in TransitionFindings(m.transitions) { TransitionFindingsCodes(m.transitions, f); }
  }

  lemma ReachedNameHasIncoming(m: StableGraphMetadata, name: string)
    requires ReachableName(m, name) && name != m.states[0].rustName
    ensures HasIncoming(m, name)
  {
    var p :| Connects(NameEdges(m), p, m.states[0].rustName, name);
    assert Hop(NameEdges(m), p, |p| - 1);
    assert HasNameEdge(m, p[|p| - 2], name);
  }

  /**
   * A missing-incoming finding comes with an unreachable finding for the same name, except when
   * the name repeats that of the first state, which always counts as reachable.
   */
  lemma MissingIncomingIsUnreachable(m: StableGraphMetadata, name: string)
    requires GraphLintFinding(MissingIncomingPath, name, None) in LintFindings(m)
    ensures m.states != []
    ensures GraphLintFinding(UnreachableState, name, None) in LintFindings(m) <==> name != m.states[0].rustName
  {
    MissingIncomingFindingMeans(m, name);
    UnreachableFindingMeans(m, name);
    if name == m.states[0].rustName {
      ReachesSelf(NameEdges(m), name);
    } else if ReachableName(m, name) {
      ReachedNameHasIncoming(m, name);
    }
  }

  /** The exception arises: two states of the same name and no transition. */
  lemma RepeatedFirstNameIsReachable() returns (m: StableGraphMetadata)
    ensures GraphLintFinding(MissingIncomingPath, "A", None) in LintFindings(m)
    ensures GraphLintFinding(UnreachableState, "A", None) !in LintFindings(m)
  {
    var state := StableState("A", None, None, false);
    m := StableGraphMetadata([state, state], []);
    assert LaterNames(m)[0] == "A";
    MissingIncomingFindingMeans(m, "A");
    MissingIncomingIsUnreachable(m, "A");
  }

  // ---- Lowering preserves reachability ----

  ghost predicate UniqueStateNames<S(!new), T(!new)>(g: MachineGraph<S, T>) {
    forall i, j :: 0 <= i < j < |g.states| ==> g.states[i].rustName != g.states[j].rustName
  }

  lemma NameOfListed<S(!new), T(!new)>(g: MachineGraph<S, T>, i: nat)
    requires UniqueStateIds(g) && i < |g.states|
    ensures Declared(g, g.states[i].id) && NameOf(g, g.states[i].id) == g.states[i].rustName
  {
    var found := FindState(g.states, g.states[i].id).value;
    var j :| 0 <= j < |g.states| && g.states[j] == found;
    assert i == j;
  }

  /** The id whose lowered name is `name`, when there is one. */
  ghost function IdOf<S(!new), T(!new)>(g: MachineGraph<S, T>, default: S, name: string): S {
    if i :| 0 <= i < |g.states| && g.states[i].rustName == name then g.states[i].id else default
  }

  lemma IdOfName<S(!new), T(!new)>(g: MachineGraph<S, T>, default: S, id: S)
    requires UniqueStateIds(g) && UniqueStateNames(g) && Declared(g, id)
    ensures IdOf(g, default, NameOf(g, id)) == id
  {
    var i :| 0 <= i < |g.states| && g.states[i].id == id;
    NameOfListed(g, i);
    assert g.states[i].rustName == NameOf(g, id);
  }

  lemma EdgeLowers<S(!new), T(!new)>(g: MachineGraph<S, T>, a: S, b: S)
    requires Closed(g) && UniqueStateIds(g) && HasEdge(g, a, b)
    ensures HasNameEdge(FromGraph(g), NameOf(g, a), NameOf(g, b))
  {
    var m := FromGraph(g);
    var t :| t in g.transitions && t.from == a && b in t.to;
    var k :| 0 <= k < |g.transitions| && g.transitions[k] == t;
    var j :| 0 <= j < |t.to| && t.to[j] == b;
    assert m.transitions[k] == LowerTransition(g, t) && m.transitions[k].toStates[j] == NameOf(g, b);
    assert m.transitions[k] in m.transitions;
    assert Declared(g, b);
    var i :| 0 <= i < |g.states| && g.states[i].id == b;
    NameOfListed(g, i);
    assert m.states[i].rustName == NameOf(g, b);
  }

  lemma EdgeLifts<S(!new), T(!new)>(g: MachineGraph<S, T>, default: S, a: string, b: string)
    requires Closed(g) && UniqueStateIds(g) && UniqueStateNames(g)
    requires HasNameEdge(FromGraph(g), a, b)
    ensures HasEdge(g, IdOf(g, default, a), IdOf(g, default, b))
  {
    var m := FromGraph(g);
    var low :| low in m.transitions && low.fromState == a && b in low.toStates;
    var k :| 0 <= k < |m.transitions| && m.transitions[k] == low;
    var t := g.transitions[k];
    assert low == LowerTransition(g, t) && t in g.transitions;
    var j :| 0 <= j < |low.toStates| && low.toStates[j] == b;
    assert b == NameOf(g, t.to[j]) && t.to[j] in t.to;
    IdOfName(g, default, t.from);
    IdOfName(g, default, t.to[j]);
  }

  /** Reachability by ids and reachability by lowered names are the same relation. */
  lemma LoweringPreservesReachability<S(!new), T(!new)>(g: MachineGraph<S, T>, a: S, b: S)
    requires Closed(g) && UniqueStateIds(g) && UniqueStateNames(g)
    requires Declared(g, a) && Declared(g, b)
    ensures Reaches(Edges(g), a, b) <==> Reaches(NameEdges(FromGraph(g)), NameOf(g, a), NameOf(g, b))
  {
    var m := FromGraph(g);
    if Reaches(Edges(g), a, b) {
      forall x, y | Reaches(Edges(g), a, x) && Edges(g)(x, y) ensures NameEdges(m)(NameOf(g, x), NameOf(g, y)) {
        EdgeLowers(g, x, y);
      }
      MapPath(Edges(g), NameEdges(m), x => NameOf(g, x), a, b);
    }
    if Reaches(NameEdges(m), NameOf(g, a), NameOf(g, b)) {
      forall x, y | Reaches(NameEdges(m), NameOf(g, a), x) && NameEdges(m)(x, y)
        ensures Edges(g)(IdOf(g, a, x), IdOf(g, a, y))
      {
        EdgeLifts(g, a, x, y);
      }
      IdOfName(g, a, a);
      IdOfName(g, a, b);
      MapPath(NameEdges(m), Edges(g), x => IdOf(g, a, x), NameOf(g, a), NameOf(g, b));
    }
  }

  /** On lowered graphs the unreachable lint fires exactly on the later states no path reaches. */
  lemma UnreachableLintIsExact<S(!new), T(!new)>(g: MachineGraph<S, T>, name: string)
    requires Closed(g) && UniqueStateIds(g) && UniqueStateNames(g)
    ensures GraphLintFinding(UnreachableState, name, None) in LintFindings(FromGraph(g)) <==>
            exists i :: 0 < i < |g.states| && g.states[i].rustName == name &&
                        !Reaches(Edges(g), g.states[0].id, g.states[i].id)
  {
    var m := FromGraph(g);
    UnreachableFindingMeans(m, name);
    if g.states != [] {
      NameOfListed(g, 0);
      forall i | 0 < i < |g.states| && g.states[i].rustName == name
        ensures ReachableName(m, name) <==> Reaches(Edges(g), g.states[0].id, g.states[i].id)
      {
        NameOfListed(g, i);
        LoweringPreservesReachability(g, g.states[0].id, g.states[i].id);
      }
      if name in LaterNames(m) {
        var i :| 0 <= i < |LaterNames(m)| && LaterNames(m)[i] == name;
        assert g.states[i + 1].rustName == name;
      }
      if i :| 0 < i < |g.states| && g.states[i].rustName == name {
        assert LaterNames(m)[i - 1] == name;
      }
    }
  }

  /** On lowered graphs every missing-incoming finding comes with an unreachable finding. */
  lemma LoweredMissingIncomingIsUnreachable<S(!new), T(!new)>(g: MachineGraph<S, T>, name: string)
    requires UniqueStateNames(g)
    requires GraphLintFinding(MissingIncomingPath, name, None) in LintFindings(FromGraph(g))
    ensures GraphLintFinding(UnreachableState, name, None) in LintFindings(FromGraph(g))
  {
    var m := FromGraph(g);
    MissingIncomingFindingMeans(m, name);
    var i :| 0 <= i < |LaterNames(m)| && LaterNames(m)[i] == name;
    assert name == g.states[i + 1].rustName != g.states[0].rustName;
    MissingIncomingIsUnreachable(m, name);
  }
}
