/** Comparing two graph snapshots (cargo-statum/src/main.rs). */
module SnapshotDiff {
  import opened Common
  import opened StableMetadata
  import opened Sorting
  import opened Text

  datatype Snapshot = Snapshot(
    snapshotVersion: string, package: string, machineKey: string, featureSet: string,
    graphVersion: string, authority: string, unsupportedCases: seq<string>, graph: StableGraphMetadata)

  datatype Severity = Informational | Review | Breaking

  datatype Category =
    | StateRemoved | StateAdded | TransitionRemoved | TransitionAdded | EdgeRemoved | EdgeAdded
    | StateDataPresenceChanged | StatePresentationChanged | AuthorityChanged | UnsupportedCasesChanged

  datatype Change = Change(severity: Severity, category: Category, key: string)

  datatype Summary = Summary(breaking: nat, review: nat, informational: nat)

  datatype DiffReport = DiffReport(machineKey: string, summary: Summary, changes: seq<Change>)

  datatype DiffError =
    | UnsupportedSnapshotVersion
    | DifferentPackages
    | DifferentMachineKeys
    | DifferentFeatureSets
    | DifferentGraphVersions
    | DuplicateState(name: string)
    | DuplicateTransitionSite(key: string)

  datatype Edge = Edge(from: string, methodName: string, to: string)

  // ---- Keys ----

  function SiteKey(t: StableTransition): string {
    t.fromState + "::" + t.methodName
  }

  function SiteKeys(m: StableGraphMetadata): (r: seq<string>)
    ensures |r| == |m.transitions| && forall i :: 0 <= i < |r| ==> r[i] == SiteKey(m.transitions[i])
  {
    Map((t: StableTransition) => SiteKey(t), m.transitions)
  }

  function EdgeKey(e: Edge): string {
    e.from + "::" + e.methodName + "->" + e.to
  }

  function EdgeTo(t: StableTransition, k: nat): Edge
    requires k < |t.toStates|
  {
    Edge(t.fromState, t.methodName, t.toStates[k])
  }

  function Inserted(edges: seq<Edge>, e: Edge): seq<Edge> {
    if e in edges then edges else edges + [e]
  }

  function WithTargets(edges: seq<Edge>, t: StableTransition, n: nat): seq<Edge>
    requires n <= |t.toStates|
  {
    if n == 0 then edges else Inserted(WithTargets(edges, t, n - 1), EdgeTo(t, n - 1))
  }

  /** The set of edges of some transitions, each listed once. */
  function EdgesOf(ts: seq<StableTransition>): seq<Edge> {
    if ts == [] then [] else WithTargets(EdgesOf(ts[..|ts| - 1]), ts[|ts| - 1], |ts[|ts| - 1].toStates|)
  }

  ghost predicate IsEdge(ts: seq<StableTransition>, e: Edge) {
    exists t :: t in ts && t.fromState == e.from && t.methodName == e.methodName && e.to in t.toStates
  }

  lemma {:induction false} WithTargetsMembers(edges: seq<Edge>, t: StableTransition, n: nat, e: Edge)
    requires n <= |t.toStates|
    ensures e in WithTargets(edges, t, n) <==> e in edges || exists k :: 0 <= k < n && e == EdgeTo(t, k)
    ensures Distinct(edges) ==> Distinct(WithTargets(edges, t, n))
  {
    if n == 0 {
    } else {
      WithTargetsMembers(edges, t, n - 1, e);
    }
  }

  lemma {:induction false} EdgesOfMembers(ts: seq<StableTransition>, e: Edge)
    ensures e in EdgesOf(ts) <==> IsEdge(ts, e)
    ensures Distinct(EdgesOf(ts))
  {
    if ts == [] {
    } else {
      var front, last := ts[..|ts| - 1], ts[|ts| - 1];
      EdgesOfMembers(front, e);
      WithTargetsMembers(EdgesOf(front), last, |last.toStates|, e);
      assert ts == front + [last];
      if IsEdge(ts, e) && !IsEdge(front, e) {
        var k :| 0 <= k < |last.toStates| && last.toStates[k] == e.to;
        assert e == EdgeTo(last, k);
      }
      if k :| 0 <= k < |last.toStates| && e == EdgeTo(last, k) {
        assert last in ts && e.to in last.toStates;
      }
      if IsEdge(front, e) {
        var t :| t in front && t.fromState == e.from && t.methodName == e.methodName && e.to in t.toStates;
        assert t in ts;
      }
    }
  }

  method EdgeKeys(ts: seq<StableTransition>) returns (edges: seq<Edge>)
    ensures edges == EdgesOf(ts)
  {
    edges := [];
    for i := 0 to |ts|
      invariant edges == EdgesOf(ts[..i])
    {
      var t := ts[i];
      assert ts[..i + 1][..i] == ts[..i];
      for k := 0 to |t.toStates|
        invariant edges == WithTargets(EdgesOf(ts[..i]), t, k)
      {
        edges := Inserted(edges, EdgeTo(t, k));
      }
    }
    assert ts[..|ts|] == ts;
  }

  // ---- Checks before the comparison ----

  function PairError(before: Snapshot, after: Snapshot): Option<DiffError> {
    if before.snapshotVersion != "v1" || after.snapshotVersion != "v1" then Some(UnsupportedSnapshotVersion)
    else if before.package != after.package then Some(DifferentPackages)
    else if before.machineKey != after.machineKey then Some(DifferentMachineKeys)
    else if before.featureSet != after.featureSet then Some(DifferentFeatureSets)
    else if before.graphVersion != after.graphVersion then Some(DifferentGraphVersions)
    else None
  }

  /** The first name that repeats an earlier one. */
  function FirstRepeat(names: seq<string>): (r: Option<string>)
    ensures r.None? <==> Distinct(names)
  {
    if names == [] then None
    else
      var front, last := names[..|names| - 1], names[|names| - 1];
      assert names == front + [last];
      match FirstRepeat(front)
      case Some(name) =>
        assert !Distinct(front);
        assert exists i, j :: 0 <= i < j < |front| && front[i] == front[j] && names[i] == names[j];
        Some(name)
      case None => if last in front then Some(last) else None
  }

  method FindRepeat(names: seq<string>) returns (repeat: Option<string>)
    ensures repeat == FirstRepeat(names)
  {
    var seen: set<string> := {};
    for i := 0 to |names|
      invariant FirstRepeat(names[..i]).None?
      invariant forall name :: name in seen <==> name in names[..i]
    {
      assert names[..i + 1][..i] == names[..i];
      if names[i] in seen {
        RepeatPersists(names, i + 1);
        return Some(names[i]);
      }
      seen := seen + {names[i]};
    }
    assert names[..|names|] == names;
    return None;
  }

  lemma {:induction false} RepeatPersists(names: seq<string>, n: nat)
    requires n <= |names| && FirstRepeat(names[..n]).Some?
    ensures FirstRepeat(names) == FirstRepeat(names[..n])
    decreases |names|
  {
    if n < |names| {
      var front := names[..|names| - 1];
      assert front[..n] == names[..n];
      RepeatPersists(front, n);
    } else {
      assert names[..n] == names;
    }
  }

  function IndexError(s: Snapshot): Option<DiffError> {
    match FirstRepeat(StateNames(s.graph))
    case Some(name) => Some(DuplicateState(name))
    case None => None
  }

  function SiteError(s: Snapshot): Option<DiffError> {
    match FirstRepeat(SiteKeys(s.graph))
    case Some(key) => Some(DuplicateTransitionSite(key))
    case None => None
  }

  /** The checks in the order in which they are made. */
  function InputError(before: Snapshot, after: Snapshot): Option<DiffError> {
    if PairError(before, after).Some? then PairError(before, after)
    else if IndexError(before).Some? then IndexError(before)
    else if IndexError(after).Some? then IndexError(after)
    else if SiteError(before).Some? then SiteError(before)
    else SiteError(after)
  }

  // ---- What the checks refuse ----

  /** The name at `j` repeats an earlier one, and nothing before `j` repeats. */
  ghost predicate RepeatsAt(names: seq<string>, j: nat) {
    && j < |names| && (exists i :: 0 <= i < j && names[i] == names[j])
    && forall i, k :: 0 <= i < k < j ==> names[i] != names[k]
  }

  /** `name` is the first name of the list that repeats an earlier one. */
  ghost predicate RepeatsFirst(names: seq<string>, name: string) {
    exists j: nat :: RepeatsAt(names, j) && names[j] == name
  }

  lemma RepeatsAtShorter(names: seq<string>, n: nat, j: nat)
    requires j < n <= |names|
    ensures RepeatsAt(names[..n], j) <==> RepeatsAt(names, j)
  {
    var front := names[..n];
    assert forall i :: 0 <= i <= j ==> front[i] == names[i];
  }

  lemma {:induction false} FirstRepeatStands(names: seq<string>) returns (j: nat)
    requires FirstRepeat(names).Some?
    ensures RepeatsAt(names, j) && names[j] == FirstRepeat(names).value
  {
    var n := |names| - 1;
    var front := names[..n];
    if FirstRepeat(front).Some? {
      j := FirstRepeatStands(front);
      RepeatsAtShorter(names, n, j);
    } else {
      j := n;
      assert Distinct(front);
      assert forall i, k :: 0 <= i < k < n ==> front[i] != front[k] && names[i] == front[i] && names[k] == front[k];
    }
  }

  lemma FirstRepeatMeans(names: seq<string>, name: string)
    ensures FirstRepeat(names) == Some(name) <==> RepeatsFirst(names, name)
  {
    if FirstRepeat(names).Some? {
      var j := FirstRepeatStands(names);
      forall k: nat | RepeatsAt(names, k) ensures k == j {
        OneFirstRepeat(names, j, k);
      }
    }
  }

  lemma OneFirstRepeat(names: seq<string>, j: nat, k: nat)
    requires RepeatsAt(names, j) && RepeatsAt(names, k)
    ensures j == k
  {
  }

  ghost predicate BothVersionOne(before: Snapshot, after: Snapshot) {
    before.snapshotVersion == "v1" == after.snapshotVersion
  }

  /** Both snapshots have the first supported version and describe the same machine, features and graph format. */
  ghost predicate Comparable(before: Snapshot, after: Snapshot) {
    BothVersionOne(before, after) && before.package == after.package && before.machineKey == after.machineKey
    && before.featureSet == after.featureSet && before.graphVersion == after.graphVersion
  }

  /** The earlier snapshot's first repetition, or the later one's when the earlier has none. */
  ghost predicate FirstRepetition(before: seq<string>, after: seq<string>, name: string) {
    RepeatsFirst(before, name) || (Distinct(before) && RepeatsFirst(after, name))
  }

  ghost predicate DistinctStates(before: Snapshot, after: Snapshot) {
    Distinct(StateNames(before.graph)) && Distinct(StateNames(after.graph))
  }

  ghost predicate DistinctSites(before: Snapshot, after: Snapshot) {
    Distinct(SiteKeys(before.graph)) && Distinct(SiteKeys(after.graph))
  }

  /** The reason for each error: what it names is wrong, and everything that is checked before it is right. */
  ghost predicate Refused(before: Snapshot, after: Snapshot, error: DiffError) {
    match error
    case UnsupportedSnapshotVersion => !BothVersionOne(before, after)
    case DifferentPackages => BothVersionOne(before, after) && before.package != after.package
    case DifferentMachineKeys =>
      BothVersionOne(before, after) && before.package == after.package && before.machineKey != after.machineKey
    case DifferentFeatureSets =>
      BothVersionOne(before, after) && before.package == after.package && before.machineKey == after.machineKey
      && before.featureSet != after.featureSet
    case DifferentGraphVersions =>
      BothVersionOne(before, after) && before.package == after.package && before.machineKey == after.machineKey
      && before.featureSet == after.featureSet && before.graphVersion != after.graphVersion
    case DuplicateState(name) =>
      Comparable(before, after) && FirstRepetition(StateNames(before.graph), StateNames(after.graph), name)
    case DuplicateTransitionSite(key) =>
      Comparable(before, after) && DistinctStates(before, after)
      && FirstRepetition(SiteKeys(before.graph), SiteKeys(after.graph), key)
  }

  lemma RepetitionMeans(before: seq<string>, after: seq<string>, name: string)
    ensures FirstRepetition(before, after, name) <==>
            (if FirstRepeat(before).Some? then FirstRepeat(before) else FirstRepeat(after)) == Some(name)
  {
    FirstRepeatMeans(before, name);
    FirstRepeatMeans(after, name);
  }

  /** A pair is accepted exactly when it is comparable and repeats no name; each refusal has its own reason. */
  lemma RefusesExactly(before: Snapshot, after: Snapshot, error: DiffError)
    ensures InputError(before, after).None? <==> Comparable(before, after) && DistinctStates(before, after) && DistinctSites(before, after)
    ensures InputError(before, after) == Some(error) <==> Refused(before, after, error)
  {
    if error.DuplicateState? {
      RepetitionMeans(StateNames(before.graph), StateNames(after.graph), error.name);
    } else if error.DuplicateTransitionSite? {
      RepetitionMeans(SiteKeys(before.graph), SiteKeys(after.graph), error.key);
    }
  }

  // ---- Collecting changes ----

  /** Adds one change for each key that the others lack. */
  function Missing(changes: seq<Change>, severity: Severity, category: Category, keys: seq<string>, others: seq<string>)
    : seq<Change>
  {
    if keys == [] then changes
    else
      var front, last := Missing(changes, severity, category, keys[..|keys| - 1], others), keys[|keys| - 1];
      if last in others then front else front + [Change(severity, category, last)]
  }

  /** Adds one change for each edge that the others lack. */
  function MissingEdges(changes: seq<Change>, severity: Severity, category: Category, edges: seq<Edge>, others: seq<Edge>)
    : seq<Change>
  {
    if edges == [] then changes
    else
      var front, last := MissingEdges(changes, severity, category, edges[..|edges| - 1], others), edges[|edges| - 1];
      if last in others then front else front + [Change(severity, category, EdgeKey(last))]
  }

  predicate DataChanged(s: StableState, after: StableGraphMetadata) {
    var i := StateIndex(after.states, s.rustName);
    i.Some? && after.states[i.value].hasData != s.hasData
  }

  predicate PresentationChanged(s: StableState, after: StableGraphMetadata) {
    var i := StateIndex(after.states, s.rustName);
    i.Some? && (after.states[i.value].labelText != s.labelText || after.states[i.value].description != s.description)
  }

  function AddIf(condition: bool, changes: seq<Change>, c: Change): seq<Change> {
    if condition then changes + [c] else changes
  }

  /** Adds the data and presentation changes of the states that both sides have. */
  function StateChanges(changes: seq<Change>, states: seq<StableState>, after: StableGraphMetadata): seq<Change> {
    if states == [] then changes
    else
      var s := states[|states| - 1];
      AddIf(PresentationChanged(s, after),
            AddIf(DataChanged(s, after), StateChanges(changes, states[..|states| - 1], after),
                  Change(Breaking, StateDataPresenceChanged, s.rustName)),
            Change(Informational, StatePresentationChanged, s.rustName))
  }

  function NameChanges(before: Snapshot, after: Snapshot): seq<Change> {
    var beforeStates, afterStates := StateNames(before.graph), StateNames(after.graph);
    var beforeSites, afterSites := SiteKeys(before.graph), SiteKeys(after.graph);
    var removed := Missing([], Breaking, StateRemoved, beforeStates, afterStates);
    var states := Missing(removed, Review, StateAdded, afterStates, beforeStates);
    var sites := Missing(states, Breaking, TransitionRemoved, beforeSites, afterSites);
    Missing(sites, Review, TransitionAdded, afterSites, beforeSites)
  }

  function EdgeChanges(changes: seq<Change>, before: Snapshot, after: Snapshot): seq<Change> {
    var beforeEdges, afterEdges := EdgesOf(before.graph.transitions), EdgesOf(after.graph.transitions);
    MissingEdges(MissingEdges(changes, Breaking, EdgeRemoved, beforeEdges, afterEdges),
                 Review, EdgeAdded, afterEdges, beforeEdges)
  }

  function SurfaceChanges(changes: seq<Change>, before: Snapshot, after: Snapshot): seq<Change> {
    AddIf(before.unsupportedCases != after.unsupportedCases,
          AddIf(before.authority != after.authority, changes, Change(Review, AuthorityChanged, after.machineKey)),
          Change(Review, UnsupportedCasesChanged, after.machineKey))
  }

  /** All changes, in the order in which they are collected. */
  function Collected(before: Snapshot, after: Snapshot): seq<Change> {
    SurfaceChanges(StateChanges(EdgeChanges(NameChanges(before, after), before, after), before.graph.states, after.graph),
                   before, after)
  }

  method PushMissing(changes: seq<Change>, severity: Severity, category: Category, keys: seq<string>, others: seq<string>)
    returns (grown: seq<Change>)
    ensures grown == Missing(changes, severity, category, keys, others)
  {
    grown := changes;
    for i := 0 to |keys|
      invariant grown == Missing(changes, severity, category, keys[..i], others)
    {
      assert keys[..i + 1][..i] == keys[..i];
      if keys[i] !in others {
        grown := grown + [Change(severity, category, keys[i])];
      }
    }
    assert keys[..|keys|] == keys;
  }

  method PushMissingEdges(changes: seq<Change>, severity: Severity, category: Category, edges: seq<Edge>, others: seq<Edge>)
    returns (grown: seq<Change>)
    ensures grown == MissingEdges(changes, severity, category, edges, others)
  {
    grown := changes;
    for i := 0 to |edges|
      invariant grown == MissingEdges(changes, severity, category, edges[..i], others)
    {
      assert edges[..i + 1][..i] == edges[..i];
      if edges[i] !in others {
        grown := grown + [Change(severity, category, EdgeKey(edges[i]))];
      }
    }
    assert edges[..|edges|] == edges;
  }

  method PushStateChanges(changes: seq<Change>, states: seq<StableState>, after: StableGraphMetadata)
    returns (grown: seq<Change>)
    ensures grown == StateChanges(changes, states, after)
  {
    grown := changes;
    for i := 0 to |states|
      invariant grown == StateChanges(changes, states[..i], after)
    {
      var s := states[i];
      assert states[..i + 1][..i] == states[..i];
      if DataChanged(s, after) {
        grown := grown + [Change(Breaking, StateDataPresenceChanged, s.rustName)];
      }
      if PresentationChanged(s, after) {
        grown := grown + [Change(Informational, StatePresentationChanged, s.rustName)];
      }
    }
    assert states[..|states|] == states;
  }

  // ---- The order of a report ----

  function Rank(s: Severity): nat {
    match s case Informational => 0 case Review => 1 case Breaking => 2
  }

  /** The place of a category's name in alphabetical order. */
  function Place(c: Category): nat {
    match c
    case AuthorityChanged => 0
    case EdgeAdded => 1
    case EdgeRemoved => 2
    case StateAdded => 3
    case StateDataPresenceChanged => 4
    case StatePresentationChanged => 5
    case StateRemoved => 6
    case TransitionAdded => 7
    case TransitionRemoved => 8
    case UnsupportedCasesChanged => 9
  }

  /** Stronger changes first, then by category and key. */
  predicate AtMost(x: Change, y: Change) {
    || Rank(x.severity) > Rank(y.severity)
    || (x.severity == y.severity && Place(x.category) < Place(y.category))
    || (x.severity == y.severity && x.category == y.category && TextAtMost(x.key, y.key))
  }

  lemma ChangeOrder(x: Change, y: Change, z: Change)
    ensures AtMost(x, y) || AtMost(y, x)
    ensures AtMost(x, y) && AtMost(y, x) ==> x == y
    ensures AtMost(x, y) && AtMost(y, z) ==> AtMost(x, z)
  {
    TextOrder(x.key, y.key, z.key);
  }

  /** The category names of the report. */
  function CategoryName(c: Category): string {
    match c
    case StateRemoved => "state_removed"
    case StateAdded => "state_added"
    case TransitionRemoved => "transition_removed"
    case TransitionAdded => "transition_added"
    case EdgeRemoved => "edge_removed"
    case EdgeAdded => "edge_added"
    case StateDataPresenceChanged => "state_data_presence_changed"
    case StatePresentationChanged => "state_presentation_changed"
    case AuthorityChanged => "authority_changed"
    case UnsupportedCasesChanged => "unsupported_cases_changed"
  }

  ghost predicate Before(a: string, b: string) {
    TextAtMost(a, b) && a != b
  }

  /** The texts agree up to `k`, where the first one has the smaller character. */
  ghost predicate SmallerAt(k: nat, a: string, b: string) {
    k < |a| && k < |b| && a[..k] == b[..k] && a[k] < b[k]
  }

  /** The first difference decides. */
  lemma {:induction false} DecidedAfter(k: nat, a: string, b: string)
    requires SmallerAt(k, a, b)
    ensures Before(a, b)
    decreases k
  {
    if k > 0 {
      assert a[0] == a[..k][0] == b[0];
      assert a[1..][..k - 1] == a[..k][1..] && b[1..][..k - 1] == b[..k][1..];
      DecidedAfter(k - 1, a[1..], b[1..]);
    }
  }

  lemma BeforeIsTransitive(a: string, b: string, c: string)
    requires Before(a, b) && Before(b, c)
    ensures Before(a, c)
  {
    TextOrder(a, b, c);
    TextOrder(b, a, a);
    TextOrder(b, c, a);
  }

  const ALPHABETICAL: seq<Category> := [
    AuthorityChanged, EdgeAdded, EdgeRemoved, StateAdded, StateDataPresenceChanged, StatePresentationChanged, StateRemoved,
    TransitionAdded, TransitionRemoved, UnsupportedCasesChanged]

  lemma EdgeNames()
    ensures SmallerAt(0, "authority_changed", "edge_added") && SmallerAt(5, "edge_added", "edge_removed")
    ensures SmallerAt(0, "edge_removed", "state_added")
  {
  }

  lemma StateNamesDiffer()
    ensures SmallerAt(6, "state_added", "state_data_presence_changed")
    ensures SmallerAt(6, "state_data_presence_changed", "state_presentation_changed")
    ensures SmallerAt(6, "state_presentation_changed", "state_removed")
  {
  }

  lemma TransitionNames()
    ensures SmallerAt(0, "state_removed", "transition_added") && SmallerAt(11, "transition_added", "transition_removed")
    ensures SmallerAt(0, "transition_removed", "unsupported_cases_changed")
  {
  }

  lemma NextNameIsLater(i: nat) returns (k: nat)
    requires i < 9
    ensures SmallerAt(k, CategoryName(ALPHABETICAL[i]), CategoryName(ALPHABETICAL[i + 1]))
  {
    EdgeNames();
    StateNamesDiffer();
    TransitionNames();
    k := if i == 1 then 5 else if 3 <= i <= 5 then 6 else if i == 7 then 11 else 0;
  }

  lemma {:induction false} LaterPlaceNamedLater(i: nat, j: nat)
    requires i < j < 10
    ensures Before(CategoryName(ALPHABETICAL[i]), CategoryName(ALPHABETICAL[j]))
    decreases j
  {
    var k := NextNameIsLater(j - 1);
    var last, next := CategoryName(ALPHABETICAL[j - 1]), CategoryName(ALPHABETICAL[j]);
    DecidedAfter(k, last, next);
    if i < j - 1 {
      LaterPlaceNamedLater(i, j - 1);
      BeforeIsTransitive(CategoryName(ALPHABETICAL[i]), last, next);
    }
  }

  /** Categories are placed as their names are in the alphabet. */
  lemma PlaceIsAlphabetical(c: Category, d: Category)
    ensures Place(c) <= Place(d) <==> TextAtMost(CategoryName(c), CategoryName(d))
  {
    assert ALPHABETICAL[Place(c)] == c && ALPHABETICAL[Place(d)] == d;
    TextOrder(CategoryName(c), CategoryName(d), CategoryName(c));
    if Place(c) < Place(d) {
      LaterPlaceNamedLater(Place(c), Place(d));
    } else if Place(d) < Place(c) {
      LaterPlaceNamedLater(Place(d), Place(c));
    }
  }

  const BY_CHANGE: (Change, Change) -> bool := (x: Change, y: Change) => AtMost(x, y)

  function Sort(changes: seq<Change>): seq<Change> {
    SortBy(BY_CHANGE, changes)
  }

  ghost predicate Sorted(s: seq<Change>) {
    forall i, j :: 0 <= i < j < |s| ==> AtMost(s[i], s[j])
  }

  lemma SortSorts(changes: seq<Change>)
    ensures Sorted(Sort(changes)) && multiset(Sort(changes)) == multiset(changes)
  {
    forall x, y, z
      ensures BY_CHANGE(x, y) || BY_CHANGE(y, x)
      ensures BY_CHANGE(x, y) && BY_CHANGE(y, z) ==> BY_CHANGE(x, z)
    {
      ChangeOrder(x, y, z);
    }
    SortBySorts(BY_CHANGE, changes);
    var sorted := Sort(changes);
    forall i, j | 0 <= i < j < |sorted| ensures AtMost(sorted[i], sorted[j]) {
      assert BY_CHANGE(sorted[i], sorted[j]);
    }
  }

  lemma SameLast(a: seq<Change>, b: seq<Change>)
    requires Sorted(a) && Sorted(b) && multiset(a) == multiset(b) && a != [] && b != []
    ensures a[|a| - 1] == b[|b| - 1]
  {
    var x, y := a[|a| - 1], b[|b| - 1];
    assert x in multiset(a) && y in multiset(b);
    var i :| 0 <= i < |b| && b[i] == x;
    var j :| 0 <= j < |a| && a[j] == y;
    ChangeOrder(x, y, x);
  }

  lemma WithoutLast(a: seq<Change>)
    requires a != []
    ensures multiset(a[..|a| - 1]) == multiset(a) - multiset{a[|a| - 1]}
  {
    assert a == a[..|a| - 1] + [a[|a| - 1]];
  }

  /** Only one order is sorted, so it does not matter in which order the changes were collected. */
  lemma {:induction false} SortedIsUnique(a: seq<Change>, b: seq<Change>)
    requires Sorted(a) && Sorted(b) && multiset(a) == multiset(b)
    ensures a == b
  {
    assert |multiset(a)| == |a| && |multiset(b)| == |b|;
    if a == [] {
    } else {
      var p, q := a[..|a| - 1], b[..|b| - 1];
      SameLast(a, b);
      WithoutLast(a);
      WithoutLast(b);
      SortedIsUnique(p, q);
      assert a == p + [a[|a| - 1]] && b == q + [b[|b| - 1]];
    }
  }

  // ---- The comparison ----

  function CountOf(changes: seq<Change>, s: Severity): nat {
    if changes == [] then 0
    else CountOf(changes[..|changes| - 1], s) + if changes[|changes| - 1].severity == s then 1 else 0
  }

  ghost function PlacesOf(changes: seq<Change>, s: Severity): set<int> {
    set i | 0 <= i < |changes| && changes[i].severity == s
  }

  /** The count is the number of places in the list that hold a change of the severity. */
  lemma {:induction false} CountOfMeans(changes: seq<Change>, s: Severity)
    ensures CountOf(changes, s) == |PlacesOf(changes, s)|
  {
    if changes == [] {
    } else {
      var n := |changes| - 1;
      CountOfMeans(changes[..n], s);
      PlacesOneMore(changes[..n], changes[n], s);
      assert changes == changes[..n] + [changes[n]];
    }
  }

  lemma PlacesOneMore(front: seq<Change>, last: Change, s: Severity)
    ensures |PlacesOf(front + [last], s)| == |PlacesOf(front, s)| + if last.severity == s then 1 else 0
  {
    var changes := front + [last];
    assert forall i :: 0 <= i < |front| ==> changes[i] == front[i];
    assert PlacesOf(changes, s) == PlacesOf(front, s) + if last.severity == s then {|front|} else {};
  }

  method SummarizeChanges(changes: seq<Change>) returns (summary: Summary)
    ensures summary == Summary(CountOf(changes, Breaking), CountOf(changes, Review), CountOf(changes, Informational))
    ensures summary.breaking + summary.review + summary.informational == |changes|
  {
    summary := Summary(0, 0, 0);
    for i := 0 to |changes|
      invariant summary ==
                Summary(CountOf(changes[..i], Breaking), CountOf(changes[..i], Review), CountOf(changes[..i], Informational))
      invariant summary.breaking + summary.review + summary.informational == i
    {
      assert changes[..i + 1][..i] == changes[..i];
      match changes[i].severity {
        case Breaking => summary := summary.(breaking := summary.breaking + 1);
        case Review => summary := summary.(review := summary.review + 1);
        case Informational => summary := summary.(informational := summary.informational + 1);
      }
    }
    assert changes[..|changes|] == changes;
  }

  method CheckInput(before: Snapshot, after: Snapshot) returns (error: Option<DiffError>)
    ensures error == InputError(before, after)
  {
    if PairError(before, after).Some? {
      return PairError(before, after);
    }
    var repeat := FindRepeat(StateNames(before.graph));
    if repeat.Some? {
      return Some(DuplicateState(repeat.value));
    }
    repeat := FindRepeat(StateNames(after.graph));
    if repeat.Some? {
      return Some(DuplicateState(repeat.value));
    }
    repeat := FindRepeat(SiteKeys(before.graph));
    if repeat.Some? {
      return Some(DuplicateTransitionSite(repeat.value));
    }
    repeat := FindRepeat(SiteKeys(after.graph));
    if repeat.Some? {
      return Some(DuplicateTransitionSite(repeat.value));
    }
    return None;
  }

  method CollectChanges(before: Snapshot, after: Snapshot) returns (changes: seq<Change>)
    ensures changes == Collected(before, after)
  {
    var beforeStates, afterStates := StateNames(before.graph), StateNames(after.graph);
    var beforeSites, afterSites := SiteKeys(before.graph), SiteKeys(after.graph);
    var beforeEdges := EdgeKeys(before.graph.transitions);
    var afterEdges := EdgeKeys(after.graph.transitions);
    changes := PushMissing([], Breaking, StateRemoved, beforeStates, afterStates);
    changes := PushMissing(changes, Review, StateAdded, afterStates, beforeStates);
    changes := PushMissing(changes, Breaking, TransitionRemoved, beforeSites, afterSites);
    changes := PushMissing(changes, Review, TransitionAdded, afterSites, beforeSites);
    changes := PushMissingEdges(changes, Breaking, EdgeRemoved, beforeEdges, afterEdges);
    changes := PushMissingEdges(changes, Review, EdgeAdded, afterEdges, beforeEdges);
    changes := PushStateChanges(changes, before.graph.states, after.graph);
    if before.authority != after.authority {
      changes := changes + [Change(Review, AuthorityChanged, after.machineKey)];
    }
    if before.unsupportedCases != after.unsupportedCases {
      changes := changes + [Change(Review, UnsupportedCasesChanged, after.machineKey)];
    }
  }

  /** What a report lists: the changes of the two snapshots, sorted. */
  ghost predicate ReportLists(before: Snapshot, after: Snapshot, changes: seq<Change>) {
    Sorted(changes) && multiset(changes) == multiset(Collected(before, after))
  }

  method DiffSnapshots(before: Snapshot, after: Snapshot) returns (result: Result<DiffReport, DiffError>)
    ensures result.Err? ==> Some(result.error) == InputError(before, after)
    ensures result.Ok? <==> InputError(before, after).None?
    ensures result.Ok? ==>
              var changes := result.value.changes;
              && ReportLists(before, after, changes)
              && result.value.machineKey == after.machineKey
              && result.value.summary ==
                   Summary(CountOf(changes, Breaking), CountOf(changes, Review), CountOf(changes, Informational))
  {
    var error := CheckInput(before, after);
    if error.Some? {
      return Err(error.value);
    }
    var collected := CollectChanges(before, after);
    var changes := Sort(collected);
    SortSorts(collected);
    var summary := SummarizeChanges(changes);
    return Ok(DiffReport(after.machineKey, summary, changes));
  }

  /** The `--fail-on` test. */
  method MeetsFailOn(changes: seq<Change>, level: Severity) returns (fails: bool)
    ensures fails <==> exists c :: c in changes && Rank(c.severity) >= Rank(level)
    ensures level.Breaking? ==> (fails <==> exists c :: c in changes && c.severity.Breaking?)
    ensures level.Review? ==> (fails <==> exists c :: c in changes && !c.severity.Informational?)
    ensures level.Informational? ==> (fails <==> changes != [])
  {
    for i := 0 to |changes|
      invariant forall c :: c in changes[..i] ==> Rank(c.severity) < Rank(level)
    {
      if Rank(changes[i].severity) >= Rank(level) {
        assert changes[i] in changes;
        return true;
      }
    }
    assert changes[..|changes|] == changes;
    assert changes != [] ==> changes[0] in changes;
    return false;
  }

  /** In a sorted report the first change decides the `--fail-on` test. */
  lemma FirstChangeDecides(changes: seq<Change>, level: Severity)
    requires Sorted(changes)
    ensures (exists c :: c in changes && Rank(c.severity) >= Rank(level)) <==>
            changes != [] && Rank(changes[0].severity) >= Rank(level)
  {
    if c :| c in changes && Rank(c.severity) >= Rank(level) {
      var i :| 0 <= i < |changes| && changes[i] == c;
      assert i > 0 ==> AtMost(changes[0], changes[i]);
    }
  }

  /** A report is read from the strongest change to the weakest, within one strength by category name, then by key. */
  lemma ReportOrder(changes: seq<Change>, i: nat, j: nat)
    requires Sorted(changes) && i < j < |changes|
    ensures var x, y := changes[i], changes[j];
            || (x.severity.Breaking? && !y.severity.Breaking?)
            || (x.severity.Review? && y.severity.Informational?)
            || (x.severity == y.severity && Before(CategoryName(x.category), CategoryName(y.category)))
            || (x.severity == y.severity && x.category == y.category && TextAtMost(x.key, y.key))
  {
    var x, y := changes[i], changes[j];
    assert AtMost(x, y);
    PlaceIsAlphabetical(x.category, y.category);
    PlaceIsAlphabetical(y.category, x.category);
  }

  /** Sites whose methods hold no colon have keys of their own. */
  lemma SiteKeyInjective(t: StableTransition, u: StableTransition)
    requires ':' !in t.methodName && ':' !in u.methodName && SiteKey(t) == SiteKey(u)
    ensures t.fromState == u.fromState && t.methodName == u.methodName
  {
    CutAtColons(t.fromState, t.methodName, u.fromState, u.methodName);
  }

  // ---- What a report means ----

  ghost predicate StatesDiffer(before: Snapshot, after: Snapshot, name: string, data: bool) {
    exists s, t :: s in before.graph.states && t in after.graph.states && ChangedFrom(s, t, name, data)
  }

  ghost predicate ChangedFrom(s: StableState, t: StableState, name: string, data: bool) {
    && s.rustName == name && t.rustName == name
    && if data then s.hasData != t.hasData else s.labelText != t.labelText || s.description != t.description
  }

  ghost predicate EdgeOnlyIn(these: Snapshot, those: Snapshot, key: string) {
    exists e :: IsEdge(these.graph.transitions, e) && !IsEdge(those.graph.transitions, e) && key == EdgeKey(e)
  }

  /** When a change belongs in the report, stated on the two snapshots alone. */
  ghost predicate Describes(before: Snapshot, after: Snapshot, c: Change) {
    && c.severity == SeverityOf(c.category)
    && match c.category
       case StateRemoved => c.key in StateNames(before.graph) && c.key !in StateNames(after.graph)
       case StateAdded => c.key in StateNames(after.graph) && c.key !in StateNames(before.graph)
       case TransitionRemoved => c.key in SiteKeys(before.graph) && c.key !in SiteKeys(after.graph)
       case TransitionAdded => c.key in SiteKeys(after.graph) && c.key !in SiteKeys(before.graph)
       case EdgeRemoved => EdgeOnlyIn(before, after, c.key)
       case EdgeAdded => EdgeOnlyIn(after, before, c.key)
       case StateDataPresenceChanged => StatesDiffer(before, after, c.key, true)
       case StatePresentationChanged => StatesDiffer(before, after, c.key, false)
       case AuthorityChanged => before.authority != after.authority && c.key == after.machineKey
       case UnsupportedCasesChanged => before.unsupportedCases != after.unsupportedCases && c.key == after.machineKey
  }

  function SeverityOf(c: Category): Severity {
    match c
    case StateRemoved => Breaking
    case StateAdded => Review
    case TransitionRemoved => Breaking
    case TransitionAdded => Review
    case EdgeRemoved => Breaking
    case EdgeAdded => Review
    case StateDataPresenceChanged => Breaking
    case StatePresentationChanged => Informational
    case AuthorityChanged => Review
    case UnsupportedCasesChanged => Review
  }

  ghost predicate StateChange(s: StableState, after: StableGraphMetadata, c: Change) {
    || (DataChanged(s, after) && c == Change(Breaking, StateDataPresenceChanged, s.rustName))
    || (PresentationChanged(s, after) && c == Change(Informational, StatePresentationChanged, s.rustName))
  }

  lemma OnlyInMeans(these: Snapshot, those: Snapshot, key: string)
    ensures EdgeOnlyIn(these, those, key) <==>
            exists e :: e in EdgesOf(these.graph.transitions) && e !in EdgesOf(those.graph.transitions) && key == EdgeKey(e)
  {
    forall e
      ensures e in EdgesOf(these.graph.transitions) <==> IsEdge(these.graph.transitions, e)
      ensures e in EdgesOf(those.graph.transitions) <==> IsEdge(those.graph.transitions, e)
    {
      EdgesOfMembers(these.graph.transitions, e);
      EdgesOfMembers(those.graph.transitions, e);
    }
  }

  /** With distinct names, the state found by name is the only one of that name. */
  lemma FoundByName(m: StableGraphMetadata, t: StableState)
    requires Distinct(StateNames(m)) && t in m.states
    ensures StateIndex(m.states, t.rustName).Some? && m.states[StateIndex(m.states, t.rustName).value] == t
  {
    var k :| 0 <= k < |m.states| && m.states[k] == t;
    var i := StateIndex(m.states, t.rustName).value;
    assert StateNames(m)[i] == StateNames(m)[k];
  }

  lemma StateChangeMeans(before: Snapshot, after: Snapshot, c: Change)
    requires Distinct(StateNames(after.graph))
    ensures (exists s :: s in before.graph.states && StateChange(s, after.graph, c)) <==>
            (c.category.StateDataPresenceChanged? || c.category.StatePresentationChanged?) && Describes(before, after, c)
  {
    if s :| s in before.graph.states && StateChange(s, after.graph, c) {
      ChangedStateIsDescribed(before, after, s, c);
    }
    if (c.category.StateDataPresenceChanged? || c.category.StatePresentationChanged?) && Describes(before, after, c) {
      var data := c.category.StateDataPresenceChanged?;
      var s, t :| s in before.graph.states && t in after.graph.states && ChangedFrom(s, t, c.key, data);
      FoundByName(after.graph, t);
      assert StateChange(s, after.graph, c);
    }
  }

  lemma ChangedStateIsDescribed(before: Snapshot, after: Snapshot, s: StableState, c: Change)
    requires s in before.graph.states && StateChange(s, after.graph, c)
    ensures (c.category.StateDataPresenceChanged? || c.category.StatePresentationChanged?) && Describes(before, after, c)
  {
    var t := after.graph.states[StateIndex(after.graph.states, s.rustName).value];
    assert t in after.graph.states && ChangedFrom(s, t, c.key, c.category.StateDataPresenceChanged?);
  }

  // ---- How often a change is listed ----

  lemma LastCounted<T>(s: seq<T>, x: T)
    requires s != []
    ensures multiset(s)[x] == multiset(s[..|s| - 1])[x] + if s[|s| - 1] == x then 1 else 0
  {
    assert s == s[..|s| - 1] + [s[|s| - 1]];
  }

  /** A duplicate-free list of keys adds each missing key once. */
  lemma {:induction false} MissingCounts(
    changes: seq<Change>, severity: Severity, category: Category, keys: seq<string>, others: seq<string>, c: Change)
    requires Distinct(keys)
    ensures multiset(Missing(changes, severity, category, keys, others))[c] == multiset(changes)[c] +
              if c.severity == severity && c.category == category && c.key in keys && c.key !in others then 1 else 0
  {
    if keys == [] {
    } else {
      var front, last := keys[..|keys| - 1], keys[|keys| - 1];
      MissingCounts(changes, severity, category, front, others, c);
      LastIsNew(keys);
      assert c.key in keys <==> c.key in front || c.key == last by { assert keys == front + [last]; }
    }
  }

  lemma LastIsNew<T>(s: seq<T>)
    requires Distinct(s) && s != []
    ensures s[|s| - 1] !in s[..|s| - 1]
  {
    var front, last := s[..|s| - 1], s[|s| - 1];
    forall i | 0 <= i < |front| ensures front[i] != last {
      assert s[i] != s[|front|];
    }
  }

  /** How many edges that the others lack have the key. */
  function KeyCount(edges: seq<Edge>, others: seq<Edge>, key: string): nat {
    if edges == [] then 0
    else
      var last := edges[|edges| - 1];
      KeyCount(edges[..|edges| - 1], others, key) + if last !in others && EdgeKey(last) == key then 1 else 0
  }

  lemma {:induction false} MissingEdgesCounts(
    changes: seq<Change>, severity: Severity, category: Category, edges: seq<Edge>, others: seq<Edge>, c: Change)
    ensures multiset(MissingEdges(changes, severity, category, edges, others))[c] == multiset(changes)[c] +
              if c.severity == severity && c.category == category then KeyCount(edges, others, c.key) else 0
  {
    if edges == [] {
    } else {
      MissingEdgesCounts(changes, severity, category, edges[..|edges| - 1], others, c);
    }
  }

  lemma AddIfCounts(condition: bool, changes: seq<Change>, x: Change, c: Change)
    ensures multiset(AddIf(condition, changes, x))[c] == multiset(changes)[c] + if condition && x == c then 1 else 0
  {
  }

  lemma OneStateCounts(changes: seq<Change>, s: StableState, after: StableGraphMetadata, c: Change)
    ensures multiset(AddIf(PresentationChanged(s, after),
                           AddIf(DataChanged(s, after), changes, Change(Breaking, StateDataPresenceChanged, s.rustName)),
                           Change(Informational, StatePresentationChanged, s.rustName)))[c]
         == multiset(changes)[c] + if StateChange(s, after, c) then 1 else 0
  {
    var x, y := Change(Breaking, StateDataPresenceChanged, s.rustName), Change(Informational, StatePresentationChanged, s.rustName);
    AddIfCounts(DataChanged(s, after), changes, x, c);
    AddIfCounts(PresentationChanged(s, after), AddIf(DataChanged(s, after), changes, x), y, c);
  }

  ghost predicate SomeStateChange(states: seq<StableState>, after: StableGraphMetadata, c: Change) {
    exists s :: s in states && StateChange(s, after, c)
  }

  lemma {:induction false} StateChangesCounts(
    changes: seq<Change>, states: seq<StableState>, after: StableGraphMetadata, c: Change)
    requires forall i, j :: 0 <= i < j < |states| ==> states[i].rustName != states[j].rustName
    ensures multiset(StateChanges(changes, states, after))[c] == multiset(changes)[c] +
              if SomeStateChange(states, after, c) then 1 else 0
  {
    if states == [] {
    } else {
      var front, last := states[..|states| - 1], states[|states| - 1];
      StateChangesCounts(changes, front, after, c);
      OneStateCounts(StateChanges(changes, front, after), last, after, c);
      LastStateChange(states, after, c);
    }
  }

  lemma LastStateChange(states: seq<StableState>, after: StableGraphMetadata, c: Change)
    requires states != [] && forall i, j :: 0 <= i < j < |states| ==> states[i].rustName != states[j].rustName
    ensures var front, last := states[..|states| - 1], states[|states| - 1];
            && (SomeStateChange(states, after, c) <==> SomeStateChange(front, after, c) || StateChange(last, after, c))
            && !(SomeStateChange(front, after, c) && StateChange(last, after, c))
  {
    var front, last := states[..|states| - 1], states[|states| - 1];
    assert forall s :: s in states <==> s in front || s == last by { assert states == front + [last]; }
    forall s | s in front ensures !(StateChange(s, after, c) && StateChange(last, after, c)) {
      var i :| 0 <= i < |front| && front[i] == s;
      assert states[i].rustName != states[|front|].rustName;
    }
  }

  /** How often a change belongs in the report; more than once only for edges that share a key. */
  ghost function Times(before: Snapshot, after: Snapshot, c: Change): nat {
    if !Describes(before, after, c) then 0
    else if c.category.EdgeRemoved? then
      KeyCount(EdgesOf(before.graph.transitions), EdgesOf(after.graph.transitions), c.key)
    else if c.category.EdgeAdded? then
      KeyCount(EdgesOf(after.graph.transitions), EdgesOf(before.graph.transitions), c.key)
    else 1
  }

  /** The change says that its key is on one of the two sides only. */
  ghost predicate OnOneSide(gone: Category, come: Category, mine: seq<string>, others: seq<string>, c: Change) {
    || (c.severity == Breaking && c.category == gone && c.key in mine && c.key !in others)
    || (c.severity == Review && c.category == come && c.key in others && c.key !in mine)
  }

  lemma BothSidesCount(
    changes: seq<Change>, gone: Category, come: Category, mine: seq<string>, others: seq<string>, c: Change)
    requires Distinct(mine) && Distinct(others)
    ensures multiset(Missing(Missing(changes, Breaking, gone, mine, others), Review, come, others, mine))[c]
         == multiset(changes)[c] + if OnOneSide(gone, come, mine, others, c) then 1 else 0
  {
    MissingCounts(changes, Breaking, gone, mine, others, c);
    MissingCounts(Missing(changes, Breaking, gone, mine, others), Review, come, others, mine, c);
  }

  lemma NamesAreDistinct(before: Snapshot, after: Snapshot)
    requires InputError(before, after).None?
    ensures Distinct(StateNames(before.graph)) && Distinct(StateNames(after.graph))
    ensures Distinct(SiteKeys(before.graph)) && Distinct(SiteKeys(after.graph))
  {
  }

  ghost predicate NamesAChange(c: Change) {
    c.category.StateRemoved? || c.category.StateAdded? || c.category.TransitionRemoved? || c.category.TransitionAdded?
  }

  lemma NameChangesCounts(before: Snapshot, after: Snapshot, c: Change)
    requires InputError(before, after).None?
    ensures multiset(NameChanges(before, after))[c] == if NamesAChange(c) then Times(before, after, c) else 0
  {
    var removed := Missing([], Breaking, StateRemoved, StateNames(before.graph), StateNames(after.graph));
    var states := Missing(removed, Review, StateAdded, StateNames(after.graph), StateNames(before.graph));
    NamesAreDistinct(before, after);
    BothSidesCount([], StateRemoved, StateAdded, StateNames(before.graph), StateNames(after.graph), c);
    BothSidesCount(states, TransitionRemoved, TransitionAdded, SiteKeys(before.graph), SiteKeys(after.graph), c);
    NameTimes(before, after, c);
  }

  lemma NameTimes(before: Snapshot, after: Snapshot, c: Change)
    ensures (if OnOneSide(StateRemoved, StateAdded, StateNames(before.graph), StateNames(after.graph), c) then 1 else 0)
          + (if OnOneSide(TransitionRemoved, TransitionAdded, SiteKeys(before.graph), SiteKeys(after.graph), c) then 1 else 0)
         == if NamesAChange(c) then Times(before, after, c) else 0
  {
  }

  lemma {:induction false} DistinctCounts<T>(s: seq<T>, x: T)
    requires Distinct(s)
    ensures multiset(s)[x] == if x in s then 1 else 0
  {
    if s == [] {
    } else {
      var front, last := s[..|s| - 1], s[|s| - 1];
      DistinctCounts(front, x);
      LastCounted(s, x);
      assert s == front + [last];
      if x in front {
        var i :| 0 <= i < |front| && front[i] == x;
        assert s[i] != s[|front|];
      }
    }
  }

  lemma {:induction false} KeyCountMeans(edges: seq<Edge>, others: seq<Edge>, key: string)
    ensures KeyCount(edges, others, key) > 0 <==> exists e :: e in edges && e !in others && key == EdgeKey(e)
  {
    if edges == [] {
    } else {
      var front, last := edges[..|edges| - 1], edges[|edges| - 1];
      KeyCountMeans(front, others, key);
      if e :| e in edges && e !in others && key == EdgeKey(e) {
        if e != last { assert e in front; }
      }
      assert last in edges && forall e :: e in front ==> e in edges;
    }
  }

  lemma EdgeOnlyInCounts(these: Snapshot, those: Snapshot, key: string)
    ensures EdgeOnlyIn(these, those, key) <==>
            KeyCount(EdgesOf(these.graph.transitions), EdgesOf(those.graph.transitions), key) > 0
  {
    OnlyInMeans(these, those, key);
    KeyCountMeans(EdgesOf(these.graph.transitions), EdgesOf(those.graph.transitions), key);
  }

  lemma EdgeTimes(before: Snapshot, after: Snapshot, key: string)
    ensures Times(before, after, Change(Breaking, EdgeRemoved, key))
         == KeyCount(EdgesOf(before.graph.transitions), EdgesOf(after.graph.transitions), key)
    ensures Times(before, after, Change(Review, EdgeAdded, key))
         == KeyCount(EdgesOf(after.graph.transitions), EdgesOf(before.graph.transitions), key)
  {
    EdgeOnlyInCounts(before, after, key);
    EdgeOnlyInCounts(after, before, key);
  }

  lemma EdgeChangesCounts(changes: seq<Change>, before: Snapshot, after: Snapshot, c: Change)
    ensures multiset(EdgeChanges(changes, before, after))[c] == multiset(changes)[c] +
              if c.category.EdgeRemoved? || c.category.EdgeAdded? then Times(before, after, c) else 0
  {
    var beforeEdges, afterEdges := EdgesOf(before.graph.transitions), EdgesOf(after.graph.transitions);
    var removed := MissingEdges(changes, Breaking, EdgeRemoved, beforeEdges, afterEdges);
    MissingEdgesCounts(changes, Breaking, EdgeRemoved, beforeEdges, afterEdges, c);
    MissingEdgesCounts(removed, Review, EdgeAdded, afterEdges, beforeEdges, c);
    EdgeTimes(before, after, c.key);
  }

  lemma SurfaceCounts(changes: seq<Change>, before: Snapshot, after: Snapshot, c: Change)
    ensures multiset(SurfaceChanges(changes, before, after))[c] == multiset(changes)[c] +
              if c.category.AuthorityChanged? || c.category.UnsupportedCasesChanged? then Times(before, after, c) else 0
  {
    var x, y := Change(Review, AuthorityChanged, after.machineKey), Change(Review, UnsupportedCasesChanged, after.machineKey);
    AddIfCounts(before.authority != after.authority, changes, x, c);
    AddIfCounts(before.unsupportedCases != after.unsupportedCases,
                AddIf(before.authority != after.authority, changes, x), y, c);
  }

  lemma StateCounts(changes: seq<Change>, before: Snapshot, after: Snapshot, c: Change)
    requires InputError(before, after).None?
    ensures multiset(StateChanges(changes, before.graph.states, after.graph))[c] == multiset(changes)[c] +
              if c.category.StateDataPresenceChanged? || c.category.StatePresentationChanged? then Times(before, after, c) else 0
  {
    UniqueNames(before.graph);
    StateChangesCounts(changes, before.graph.states, after.graph, c);
    StateChangeMeans(before, after, c);
  }

  /** Each change is collected exactly as often as the snapshots call for it. */
  lemma CollectedTimes(before: Snapshot, after: Snapshot, c: Change)
    requires InputError(before, after).None?
    ensures multiset(Collected(before, after))[c] == Times(before, after, c)
  {
    var names := NameChanges(before, after);
    var edges := EdgeChanges(names, before, after);
    NameChangesCounts(before, after, c);
    EdgeChangesCounts(names, before, after, c);
    StateCounts(edges, before, after, c);
    SurfaceCounts(StateChanges(edges, before.graph.states, after.graph), before, after, c);
  }

  lemma UniqueNames(m: StableGraphMetadata)
    requires Distinct(StateNames(m))
    ensures forall i, j :: 0 <= i < j < |m.states| ==> m.states[i].rustName != m.states[j].rustName
  {
    forall i, j | 0 <= i < j < |m.states| ensures m.states[i].rustName != m.states[j].rustName {
      assert StateNames(m)[i] != StateNames(m)[j];
    }
  }

  /** The report lists exactly the changes that the two snapshots call for. */
  lemma ChangesAreExact(before: Snapshot, after: Snapshot, c: Change)
    requires InputError(before, after).None?
    ensures c in Collected(before, after) <==> Describes(before, after, c)
  {
    CollectedTimes(before, after, c);
    EdgeOnlyInCounts(before, after, c.key);
    EdgeOnlyInCounts(after, before, c.key);
    assert c in Collected(before, after) <==> c in multiset(Collected(before, after));
  }

  // ---- The same report from the other side ----

  /** The same change seen from the other side. */
  function Swapped(c: Change): Change {
    match c.category
    case StateRemoved => Change(Review, StateAdded, c.key)
    case StateAdded => Change(Breaking, StateRemoved, c.key)
    case TransitionRemoved => Change(Review, TransitionAdded, c.key)
    case TransitionAdded => Change(Breaking, TransitionRemoved, c.key)
    case EdgeRemoved => Change(Review, EdgeAdded, c.key)
    case EdgeAdded => Change(Breaking, EdgeRemoved, c.key)
    case _ => c
  }

  lemma StatesDifferBothWays(before: Snapshot, after: Snapshot, name: string, data: bool)
    ensures StatesDiffer(before, after, name, data) <==> StatesDiffer(after, before, name, data)
  {
    if s, t :| s in before.graph.states && t in after.graph.states && ChangedFrom(s, t, name, data) {
      assert ChangedFrom(t, s, name, data);
    }
    if s, t :| s in after.graph.states && t in before.graph.states && ChangedFrom(s, t, name, data) {
      assert ChangedFrom(t, s, name, data);
    }
  }

  lemma DescribesSwapped(before: Snapshot, after: Snapshot, c: Change)
    requires before.machineKey == after.machineKey && c.severity == SeverityOf(c.category)
    ensures Describes(before, after, c) <==> Describes(after, before, Swapped(c))
  {
    StatesDifferBothWays(before, after, c.key, true);
    StatesDifferBothWays(before, after, c.key, false);
  }

  lemma InputErrorsMeet(before: Snapshot, after: Snapshot)
    requires InputError(before, after).None?
    ensures InputError(after, before).None? && before.machineKey == after.machineKey
  {
  }

  predicate Normal(c: Change) {
    c.severity == SeverityOf(c.category)
  }

  function SwapAll(changes: seq<Change>): seq<Change> {
    if changes == [] then [] else SwapAll(changes[..|changes| - 1]) + [Swapped(changes[|changes| - 1])]
  }

  lemma SwappedTwice(c: Change)
    requires Normal(c)
    ensures Normal(Swapped(c)) && Swapped(Swapped(c)) == c
  {
  }

  lemma {:induction false} SwapAllCounts(changes: seq<Change>, c: Change)
    requires forall x :: x in changes ==> Normal(x)
    ensures multiset(SwapAll(changes))[c] == if Normal(c) then multiset(changes)[Swapped(c)] else 0
  {
    if changes == [] {
    } else {
      var front, last := changes[..|changes| - 1], changes[|changes| - 1];
      assert last in changes;
      SwapAllCounts(front, c);
      LastCounted(changes, Swapped(c));
      SwappedTwice(last);
      if Normal(c) { SwappedTwice(c); }
      assert SwapAll(changes)[..|changes| - 1] == SwapAll(front) by { SwapAllLength(front); }
      LastCounted(SwapAll(changes), c);
    }
  }

  lemma {:induction false} SwapAllLength(changes: seq<Change>)
    ensures |SwapAll(changes)| == |changes|
  {
    if changes == [] {
    } else {
      SwapAllLength(changes[..|changes| - 1]);
    }
  }

  lemma TimesSwapped(before: Snapshot, after: Snapshot, c: Change)
    requires before.machineKey == after.machineKey && Normal(c)
    ensures Times(after, before, c) == Times(before, after, Swapped(c))
  {
    SwappedTwice(c);
    DescribesSwapped(before, after, Swapped(c));
  }

  /**
   * Swapping the snapshots is accepted alike, and the swapped changes of one report, put in order,
   * are the other report: the same changes, each as often.
   */
  lemma SwapExchanges(before: Snapshot, after: Snapshot, forth: seq<Change>, back: seq<Change>)
    requires InputError(before, after).None?
    requires ReportLists(before, after, forth) && ReportLists(after, before, back)
    ensures InputError(after, before).None?
    ensures multiset(SwapAll(forth)) == multiset(back) && Sort(SwapAll(forth)) == back
  {
    InputErrorsMeet(before, after);
    forall c | c in forth ensures Normal(c) {
      ListedAsDescribed(before, after, forth, c);
    }
    forall c ensures multiset(SwapAll(forth))[c] == multiset(back)[c] {
      SwapAllCounts(forth, c);
      CollectedTimes(after, before, c);
      CollectedTimes(before, after, Swapped(c));
      if Normal(c) { TimesSwapped(before, after, c); }
    }
    SortSorts(SwapAll(forth));
    SortedIsUnique(Sort(SwapAll(forth)), back);
  }

  lemma ListedAsDescribed(before: Snapshot, after: Snapshot, changes: seq<Change>, c: Change)
    requires InputError(before, after).None? && multiset(changes) == multiset(Collected(before, after))
    ensures c in changes <==> Describes(before, after, c)
  {
    ChangesAreExact(before, after, c);
    assert c in changes <==> c in multiset(changes);
    assert c in Collected(before, after) <==> c in multiset(Collected(before, after));
  }

  /** No two edges that only one side has share a key. */
  ghost predicate OneEdgeEach(these: Snapshot, those: Snapshot) {
    forall e, f :: OnlyIn(these, those, e) && OnlyIn(these, those, f) && EdgeKey(e) == EdgeKey(f) ==> e == f
  }

  ghost predicate OnlyIn(these: Snapshot, those: Snapshot, e: Edge) {
    IsEdge(these.graph.transitions, e) && !IsEdge(those.graph.transitions, e)
  }

  ghost predicate Counted(edges: seq<Edge>, others: seq<Edge>, key: string, e: Edge) {
    e in edges && e !in others && EdgeKey(e) == key
  }

  ghost predicate CountedOnce(edges: seq<Edge>, others: seq<Edge>, key: string) {
    forall e, f :: Counted(edges, others, key, e) && Counted(edges, others, key, f) ==> e == f
  }

  lemma {:induction false} KeyCountedOnce(edges: seq<Edge>, others: seq<Edge>, key: string)
    requires Distinct(edges)
    ensures KeyCount(edges, others, key) <= 1 <==> CountedOnce(edges, others, key)
  {
    if edges == [] {
    } else {
      var front, last := edges[..|edges| - 1], edges[|edges| - 1];
      KeyCountedOnce(front, others, key);
      KeyCountMeans(front, others, key);
      LastIsNew(edges);
      forall e ensures Counted(edges, others, key, e) <==>
                       Counted(front, others, key, e) || (e == last && last !in others && EdgeKey(last) == key) {
        assert edges == front + [last];
      }
      if last in others || EdgeKey(last) != key {
        assert CountedOnce(edges, others, key) <==> CountedOnce(front, others, key);
      } else if KeyCount(front, others, key) > 0 {
        var d :| d in front && d !in others && key == EdgeKey(d);
        assert Counted(edges, others, key, d) && Counted(edges, others, key, last);
      } else {
        assert forall e :: !Counted(front, others, key, e);
      }
    }
  }

  lemma CountedIsOnlyIn(these: Snapshot, those: Snapshot, key: string, e: Edge)
    ensures Counted(EdgesOf(these.graph.transitions), EdgesOf(those.graph.transitions), key, e)
       <==> OnlyIn(these, those, e) && EdgeKey(e) == key
  {
    EdgesOfMembers(these.graph.transitions, e);
    EdgesOfMembers(those.graph.transitions, e);
  }

  lemma OneEdgeEachCounts(these: Snapshot, those: Snapshot, key: string)
    requires OneEdgeEach(these, those)
    ensures KeyCount(EdgesOf(these.graph.transitions), EdgesOf(those.graph.transitions), key) <= 1
  {
    var mine, others := EdgesOf(these.graph.transitions), EdgesOf(those.graph.transitions);
    EdgesOfMembers(these.graph.transitions, Edge("", "", ""));
    KeyCountedOnce(mine, others, key);
    forall e, f | Counted(mine, others, key, e) && Counted(mine, others, key, f) ensures e == f {
      CountedIsOnlyIn(these, those, key, e);
      CountedIsOnlyIn(these, those, key, f);
    }
  }

  lemma CountsAreOneEdgeEach(these: Snapshot, those: Snapshot, e: Edge, f: Edge)
    requires OnlyIn(these, those, e) && OnlyIn(these, those, f) && EdgeKey(e) == EdgeKey(f)
    requires KeyCount(EdgesOf(these.graph.transitions), EdgesOf(those.graph.transitions), EdgeKey(e)) <= 1
    ensures e == f
  {
    EdgesOfMembers(these.graph.transitions, e);
    KeyCountedOnce(EdgesOf(these.graph.transitions), EdgesOf(those.graph.transitions), EdgeKey(e));
    CountedIsOnlyIn(these, those, EdgeKey(e), e);
    CountedIsOnlyIn(these, those, EdgeKey(e), f);
  }

  lemma CountedOnceIsDistinct<T(!new)>(s: seq<T>)
    ensures Distinct(s) <==> forall x :: multiset(s)[x] <= 1
  {
    if Distinct(s) {
      forall x ensures multiset(s)[x] <= 1 { DistinctCounts(s, x); }
    } else {
      var i, j :| 0 <= i < j < |s| && s[i] == s[j];
      assert s == s[..i] + [s[i]] + s[i + 1..j] + [s[j]] + s[j + 1..];
      assert multiset(s)[s[i]] >= 2;
    }
  }

  /** A report lists each change once exactly when no two removed edges and no two added edges share a key. */
  lemma EachChangeListedOnce(before: Snapshot, after: Snapshot, changes: seq<Change>)
    requires InputError(before, after).None? && multiset(changes) == multiset(Collected(before, after))
    ensures Distinct(changes) <==> OneEdgeEach(before, after) && OneEdgeEach(after, before)
  {
    CountedOnceIsDistinct(changes);
    forall c ensures multiset(changes)[c] == Times(before, after, c) {
      CollectedTimes(before, after, c);
    }
    if Distinct(changes) {
      forall e, f | OnlyIn(before, after, e) && OnlyIn(before, after, f) && EdgeKey(e) == EdgeKey(f) ensures e == f {
        EdgeTimes(before, after, EdgeKey(e));
        assert multiset(changes)[Change(Breaking, EdgeRemoved, EdgeKey(e))] <= 1;
        CountsAreOneEdgeEach(before, after, e, f);
      }
      forall e, f | OnlyIn(after, before, e) && OnlyIn(after, before, f) && EdgeKey(e) == EdgeKey(f) ensures e == f {
        EdgeTimes(before, after, EdgeKey(e));
        assert multiset(changes)[Change(Review, EdgeAdded, EdgeKey(e))] <= 1;
        CountsAreOneEdgeEach(after, before, e, f);
      }
    }
    if OneEdgeEach(before, after) && OneEdgeEach(after, before) {
      forall c ensures multiset(changes)[c] <= 1 {
        OneEdgeEachCounts(before, after, c.key);
        OneEdgeEachCounts(after, before, c.key);
      }
    }
  }

  // ---- The report is a patch ----

  /** Identifiers hold neither colons nor dashes. */
  predicate Plain(name: string) {
    ':' !in name && '-' !in name
  }

  ghost predicate PlainNames(ts: seq<StableTransition>) {
    forall t :: t in ts ==> Plain(t.fromState) && Plain(t.methodName)
  }

  /** Texts that agree up to their first mark agree before and after it. */
  lemma CutAtMark(a: string, b: string, mark: char, x: string, y: string)
    requires mark !in a && mark !in b && a + [mark] + x == b + [mark] + y
    ensures a == b && x == y
  {
    var s, t := a + [mark] + x, b + [mark] + y;
    assert s[|a|] == mark && t[|b|] == mark;
    forall i | 0 <= i < |a| ensures s[i] != mark { assert s[i] == a[i] && a[i] in a; }
    forall i | 0 <= i < |b| ensures t[i] != mark { assert t[i] == b[i] && b[i] in b; }
    assert a == s[..|a|] && b == t[..|b|];
    assert x == s[|a| + 1..] && y == t[|b| + 1..];
  }

  /** Between plain identifiers an edge key names one edge. */
  lemma EdgeKeyInjective(e: Edge, f: Edge)
    requires Plain(e.from) && Plain(e.methodName) && Plain(f.from) && Plain(f.methodName)
    requires EdgeKey(e) == EdgeKey(f)
    ensures e == f
  {
    var x, y := [':'] + (e.methodName + "->" + e.to), [':'] + (f.methodName + "->" + f.to);
    assert EdgeKey(e) == e.from + [':'] + x && EdgeKey(f) == f.from + [':'] + y;
    CutAtMark(e.from, f.from, ':', x, y);
    assert x[1..] == e.methodName + ['-'] + (['>'] + e.to) && y[1..] == f.methodName + ['-'] + (['>'] + f.to);
    CutAtMark(e.methodName, f.methodName, '-', ['>'] + e.to, ['>'] + f.to);
    assert (['>'] + e.to)[1..] == e.to && (['>'] + f.to)[1..] == f.to;
  }

  /** Removing and adding what the report says turns the names of one snapshot into those of the other. */
  lemma PatchRestoresNames(before: Snapshot, after: Snapshot, changes: seq<Change>, name: string)
    requires InputError(before, after).None? && multiset(changes) == multiset(Collected(before, after))
    ensures name in StateNames(after.graph) <==>
            || (name in StateNames(before.graph) && Change(Breaking, StateRemoved, name) !in changes)
            || Change(Review, StateAdded, name) in changes
    ensures name in SiteKeys(after.graph) <==>
            || (name in SiteKeys(before.graph) && Change(Breaking, TransitionRemoved, name) !in changes)
            || Change(Review, TransitionAdded, name) in changes
  {
    ListedAsDescribed(before, after, changes, Change(Breaking, StateRemoved, name));
    ListedAsDescribed(before, after, changes, Change(Review, StateAdded, name));
    ListedAsDescribed(before, after, changes, Change(Breaking, TransitionRemoved, name));
    ListedAsDescribed(before, after, changes, Change(Review, TransitionAdded, name));
  }

  lemma OnlyEdgeOfKey(these: Snapshot, those: Snapshot, e: Edge)
    requires PlainNames(these.graph.transitions) && Plain(e.from) && Plain(e.methodName)
    ensures EdgeOnlyIn(these, those, EdgeKey(e)) <==>
            IsEdge(these.graph.transitions, e) && !IsEdge(those.graph.transitions, e)
  {
    if f :| IsEdge(these.graph.transitions, f) && !IsEdge(those.graph.transitions, f) && EdgeKey(e) == EdgeKey(f) {
      EdgeKeyInjective(e, f);
    }
  }

  /** Removing and adding the reported edge keys gets the edge right. */
  ghost predicate EdgePatched(before: Snapshot, after: Snapshot, changes: seq<Change>, e: Edge) {
    IsEdge(after.graph.transitions, e) <==>
    || (IsEdge(before.graph.transitions, e) && Change(Breaking, EdgeRemoved, EdgeKey(e)) !in changes)
    || Change(Review, EdgeAdded, EdgeKey(e)) in changes
  }

  ghost predicate AllEdgesPatched(before: Snapshot, after: Snapshot, changes: seq<Change>) {
    forall e :: IsEdge(before.graph.transitions, e) || IsEdge(after.graph.transitions, e) ==>
                  EdgePatched(before, after, changes, e)
  }

  /** The two edges share a key, but only the second is left afterwards. */
  ghost predicate KeyOutlives(before: Snapshot, after: Snapshot, removed: Edge, left: Edge) {
    && IsEdge(before.graph.transitions, removed) && !IsEdge(after.graph.transitions, removed)
    && IsEdge(after.graph.transitions, left) && EdgeKey(removed) == EdgeKey(left)
  }

  ghost predicate NoKeyOutlives(before: Snapshot, after: Snapshot) {
    forall removed, left :: !KeyOutlives(before, after, removed, left)
  }

  lemma PatchedWithoutClash(before: Snapshot, after: Snapshot, changes: seq<Change>, e: Edge)
    requires InputError(before, after).None? && multiset(changes) == multiset(Collected(before, after))
    requires NoKeyOutlives(before, after)
    requires IsEdge(before.graph.transitions, e) || IsEdge(after.graph.transitions, e)
    ensures EdgePatched(before, after, changes, e)
  {
    ListedAsDescribed(before, after, changes, Change(Breaking, EdgeRemoved, EdgeKey(e)));
    ListedAsDescribed(before, after, changes, Change(Review, EdgeAdded, EdgeKey(e)));
    if IsEdge(after.graph.transitions, e) {
      forall d | IsEdge(before.graph.transitions, d) && !IsEdge(after.graph.transitions, d) ensures EdgeKey(d) != EdgeKey(e) {
        assert !KeyOutlives(before, after, d, e);
      }
    } else {
      forall d | IsEdge(after.graph.transitions, d) ensures EdgeKey(d) != EdgeKey(e) {
        assert !KeyOutlives(before, after, e, d);
      }
    }
  }

  lemma ClashIsNotPatched(before: Snapshot, after: Snapshot, changes: seq<Change>, removed: Edge, left: Edge)
    requires InputError(before, after).None? && multiset(changes) == multiset(Collected(before, after))
    requires KeyOutlives(before, after, removed, left)
    ensures !EdgePatched(before, after, changes, removed) || !EdgePatched(before, after, changes, left)
  {
    ListedAsDescribed(before, after, changes, Change(Breaking, EdgeRemoved, EdgeKey(removed)));
    ListedAsDescribed(before, after, changes, Change(Review, EdgeAdded, EdgeKey(removed)));
    assert EdgeOnlyIn(before, after, EdgeKey(removed));
  }

  /** Among the edges of the two snapshots, all are patched if and only if no edge left afterwards has the key of a removed one. */
  lemma KnownEdgesArePatched(before: Snapshot, after: Snapshot, changes: seq<Change>)
    requires InputError(before, after).None? && multiset(changes) == multiset(Collected(before, after))
    ensures AllEdgesPatched(before, after, changes) <==> NoKeyOutlives(before, after)
  {
    if NoKeyOutlives(before, after) {
      forall e | IsEdge(before.graph.transitions, e) || IsEdge(after.graph.transitions, e)
        ensures EdgePatched(before, after, changes, e)
      {
        PatchedWithoutClash(before, after, changes, e);
      }
    } else {
      var removed, left :| KeyOutlives(before, after, removed, left);
      ClashIsNotPatched(before, after, changes, removed, left);
    }
  }

  /** An added edge has the key of a triple that is no edge afterwards. */
  ghost predicate KeyStrays(before: Snapshot, after: Snapshot, added: Edge, e: Edge) {
    && IsEdge(after.graph.transitions, added) && !IsEdge(before.graph.transitions, added)
    && EdgeKey(e) == EdgeKey(added) && !IsEdge(after.graph.transitions, e)
  }

  ghost predicate NoKeyStrays(before: Snapshot, after: Snapshot) {
    forall added, e :: !KeyStrays(before, after, added, e)
  }

  lemma OtherTripleIsPatched(before: Snapshot, after: Snapshot, changes: seq<Change>, e: Edge)
    requires InputError(before, after).None? && multiset(changes) == multiset(Collected(before, after))
    requires !IsEdge(before.graph.transitions, e) && !IsEdge(after.graph.transitions, e)
    ensures EdgePatched(before, after, changes, e) <==> forall added :: !KeyStrays(before, after, added, e)
  {
    ListedAsDescribed(before, after, changes, Change(Review, EdgeAdded, EdgeKey(e)));
    if added :| KeyStrays(before, after, added, e) {
      assert EdgeOnlyIn(after, before, EdgeKey(e));
    }
    if EdgeOnlyIn(after, before, EdgeKey(e)) {
      var added :| IsEdge(after.graph.transitions, added) && !IsEdge(before.graph.transitions, added) && EdgeKey(e) == EdgeKey(added);
      assert KeyStrays(before, after, added, e);
    }
  }

  /**
   * Removing and adding what the report says gives exactly the edges of the second snapshot if and
   * only if no edge left afterwards has the key of a removed one and no triple that is no edge
   * afterwards has the key of an added one.
   */
  lemma EdgePatchIsExact(before: Snapshot, after: Snapshot, changes: seq<Change>)
    requires InputError(before, after).None? && multiset(changes) == multiset(Collected(before, after))
    ensures (forall e :: EdgePatched(before, after, changes, e)) <==> NoKeyOutlives(before, after) && NoKeyStrays(before, after)
  {
    KnownEdgesArePatched(before, after, changes);
    if NoKeyOutlives(before, after) && NoKeyStrays(before, after) {
      forall e ensures EdgePatched(before, after, changes, e) {
        if !IsEdge(before.graph.transitions, e) && !IsEdge(after.graph.transitions, e) {
          OtherTripleIsPatched(before, after, changes, e);
        }
      }
    }
    if forall e :: EdgePatched(before, after, changes, e) {
      forall added, e ensures !KeyStrays(before, after, added, e) {
        if IsEdge(before.graph.transitions, e) {
          assert KeyStrays(before, after, added, e) ==> KeyOutlives(before, after, e, added);
        } else if !IsEdge(after.graph.transitions, e) {
          OtherTripleIsPatched(before, after, changes, e);
        }
      }
    }
  }

  /** Between plain state and method names every plain edge is patched, whatever the targets are called. */
  lemma PlainEdgeIsPatched(before: Snapshot, after: Snapshot, changes: seq<Change>, e: Edge)
    requires InputError(before, after).None? && multiset(changes) == multiset(Collected(before, after))
    requires PlainNames(before.graph.transitions) && PlainNames(after.graph.transitions)
    requires Plain(e.from) && Plain(e.methodName)
    ensures NoKeyOutlives(before, after)
    ensures EdgePatched(before, after, changes, e)
  {
    forall removed, left ensures !KeyOutlives(before, after, removed, left) {
      if KeyOutlives(before, after, removed, left) {
        EdgeKeyInjective(removed, left);
      }
    }
    KnownEdgesArePatched(before, after, changes);
    ListedAsDescribed(before, after, changes, Change(Review, EdgeAdded, EdgeKey(e)));
    OnlyEdgeOfKey(after, before, e);
  }

  /** The places of a mark in an edge key whose three names do not hold it. */
  lemma MarksOfPlainKey(e: Edge, i: nat)
    requires Plain(e.from) && Plain(e.methodName) && Plain(e.to) && i < |EdgeKey(e)|
    ensures EdgeKey(e)[i] == ':' <==> i == |e.from| || i == |e.from| + 1
    ensures EdgeKey(e)[i] == '-' <==> i == |e.from| + 2 + |e.methodName|
  {
    var m := |e.from| + 2 + |e.methodName|;
    if i < |e.from| {
      assert EdgeKey(e)[i] == e.from[i] && e.from[i] in e.from;
    } else if |e.from| + 2 <= i < m {
      assert EdgeKey(e)[i] == e.methodName[i - |e.from| - 2] && e.methodName[i - |e.from| - 2] in e.methodName;
    } else if m + 2 <= i {
      assert EdgeKey(e)[i] == e.to[i - m - 2] && e.to[i - m - 2] in e.to;
    }
  }

  /** The key of three plain names is the key of no other triple at all. */
  lemma PlainKeyIsUnique(e: Edge, f: Edge)
    requires Plain(f.from) && Plain(f.methodName) && Plain(f.to)
    requires EdgeKey(e) == EdgeKey(f)
    ensures e == f
  {
    var s, n := EdgeKey(e), |e.from|;
    assert s[n] == ':' && s[n + 1] == ':';
    MarksOfPlainKey(f, n);
    MarksOfPlainKey(f, n + 1);
    var m := n + 2 + |e.methodName|;
    assert s[m] == '-';
    MarksOfPlainKey(f, m);
    assert e.from == s[..n] && e.methodName == s[n + 2..m] && e.to == s[m + 2..];
    assert f.from == s[..n] && f.methodName == s[n + 2..m] && f.to == s[m + 2..];
  }

  ghost predicate PlainEdges(ts: seq<StableTransition>) {
    forall e :: IsEdge(ts, e) ==> Plain(e.from) && Plain(e.methodName) && Plain(e.to)
  }

  /** Between plain identifiers the report is an exact patch of the edges. */
  lemma PatchRestoresEdges(before: Snapshot, after: Snapshot, changes: seq<Change>)
    requires InputError(before, after).None? && multiset(changes) == multiset(Collected(before, after))
    requires PlainEdges(before.graph.transitions) && PlainEdges(after.graph.transitions)
    ensures forall e :: EdgePatched(before, after, changes, e)
  {
    forall removed, left ensures !KeyOutlives(before, after, removed, left) {
      if KeyOutlives(before, after, removed, left) {
        PlainKeyIsUnique(removed, left);
      }
    }
    forall added, e ensures !KeyStrays(before, after, added, e) {
      if KeyStrays(before, after, added, e) {
        PlainKeyIsUnique(e, added);
      }
    }
    EdgePatchIsExact(before, after, changes);
  }

  function OneTransition(methodName: string, to: string): Snapshot {
    Snapshot("v1", "p", "m", "f", "v1", "a", [],
             StableGraphMetadata([], [StableTransition(methodName, None, None, "a", [to])]))
  }

  /** Two accepted snapshots whose report removes and adds the same key, so that the removed edge comes back. */
  lemma EdgeReportCanMislead() returns (before: Snapshot, after: Snapshot, removed: Edge)
    ensures InputError(before, after).None? && InputError(after, before).None?
    ensures IsEdge(before.graph.transitions, removed) && !IsEdge(after.graph.transitions, removed)
    ensures Change(Breaking, EdgeRemoved, EdgeKey(removed)) in Collected(before, after)
    ensures Change(Review, EdgeAdded, EdgeKey(removed)) in Collected(before, after)
    ensures !EdgePatched(before, after, Collected(before, after), removed)
  {
    before, after, removed := OneTransition("b->c", "d"), OneTransition("b", "c->d"), Edge("a", "b->c", "d");
    var added := Edge("a", "b", "c->d");
    var s, t := before.graph.transitions[0], after.graph.transitions[0];
    assert |"b->c"| == 4 && |"b"| == 1;
    assert EdgeKey(removed) == "a::b->c->d" == EdgeKey(added);
    assert s in before.graph.transitions && t in after.graph.transitions && "d" in s.toStates && "c->d" in t.toStates;
    assert IsEdge(before.graph.transitions, removed) && IsEdge(after.graph.transitions, added);
    assert |SiteKeys(before.graph)| == 1 && |SiteKeys(after.graph)| == 1;
    assert Distinct(SiteKeys(before.graph)) && Distinct(SiteKeys(after.graph));
    ChangesAreExact(before, after, Change(Breaking, EdgeRemoved, EdgeKey(removed)));
    ChangesAreExact(before, after, Change(Review, EdgeAdded, EdgeKey(removed)));
  }

  /** Two accepted snapshots that keep all their own edges right, but whose report adds the key of another triple. */
  lemma AddedKeyCanStray() returns (before: Snapshot, after: Snapshot, stray: Edge)
    ensures InputError(before, after).None?
    ensures NoKeyOutlives(before, after) && AllEdgesPatched(before, after, Collected(before, after))
    ensures !IsEdge(before.graph.transitions, stray) && !IsEdge(after.graph.transitions, stray)
    ensures !EdgePatched(before, after, Collected(before, after), stray)
  {
    after, stray := OneTransition("b", "c->d"), Edge("a", "b->c", "d");
    before := after.(graph := StableGraphMetadata([], []));
    var added := Edge("a", "b", "c->d");
    var t := after.graph.transitions[0];
    assert |"b->c"| == 4 && |"b"| == 1;
    assert EdgeKey(stray) == "a::b->c->d" == EdgeKey(added);
    assert t in after.graph.transitions && "c->d" in t.toStates;
    assert IsEdge(after.graph.transitions, added);
    assert |SiteKeys(before.graph)| == 0 && |SiteKeys(after.graph)| == 1;
    assert Distinct(SiteKeys(before.graph)) && Distinct(SiteKeys(after.graph));
    KnownEdgesArePatched(before, after, Collected(before, after));
    assert KeyStrays(before, after, added, stray);
    OtherTripleIsPatched(before, after, Collected(before, after), stray);
  }
}
