/** Transition-target resolution (statum-macros/src/transition/resolve/strategy.rs, contract/targets.rs, contracts.rs). */
module TargetResolution {
  import opened Common
  import opened TypeSyntax
  import opened Aliases

  // ---- The two traversals as functions ----

  /** The expansion a traversal tries; strict traversals try none. */
  function Expansion(world: SourceWorld, ty: Type, context: Option<AliasContext>, aliases: bool, visited: set<string>)
    : Evaluated<Option<ExpandedAlias>>
  {
    if aliases then Expand(world, ty, context, visited) else Returned(None)
  }

  /**
   * The primary target. The recursion is well-founded by (aliases not yet visited, type): following
   * an alias may produce a larger type but uses up a visit key, everything else goes into the type.
   */
  ghost function Primary(
    world: SourceWorld, target: Type, ty: Type, context: Option<AliasContext>, aliases: bool, visited: set<string>)
    : Evaluated<Option<Target>>
    decreases VisitKeys(world) - visited, ty
  {
    if !IsPlainPath(ty) || ty.path.segments == [] then Returned(None)
    else if MatchesMachine(ty.path, target) then Returned(MachineState(LastSegment(ty.path)))
    else match Expansion(world, ty, context, aliases, visited)
      case Panicked => Panicked
      case Returned(Some(e)) =>
        VisitShrinks(world, visited, e.visitKey);
        Primary(world, target, e.expanded, Some(e.context), aliases, visited + {e.visitKey})
      case Returned(None) =>
        var types := WrappedTypes(ty);
        if types == [] then Returned(None) else Primary(world, target, types[0], context, aliases, visited)
  }

  /** Every target the collector meets, in order, before duplicates are dropped. */
  ghost function Collect(
    world: SourceWorld, target: Type, ty: Type, context: Option<AliasContext>, aliases: bool, visited: set<string>)
    : Evaluated<seq<Target>>
    decreases VisitKeys(world) - visited, ty
  {
    if !IsPlainPath(ty) || ty.path.segments == [] then Returned([])
    else if MatchesMachine(ty.path, target) then
      match MachineState(LastSegment(ty.path)) case Some(found) => Returned([found]) case None => Returned([])
    else match Expansion(world, ty, context, aliases, visited)
      case Panicked => Panicked
      case Returned(Some(e)) =>
        VisitShrinks(world, visited, e.visitKey);
        Collect(world, target, e.expanded, Some(e.context), aliases, visited + {e.visitKey})
      case Returned(None) =>
        CollectEach(world, target, ty, WrappedTypes(ty), context, aliases, visited)
  }

  ghost function CollectEach(
    world: SourceWorld, target: Type, whole: Type, types: seq<Type>, context: Option<AliasContext>, aliases: bool,
    visited: set<string>): Evaluated<seq<Target>>
    requires PartsOf(types, whole)
    decreases VisitKeys(world) - visited, whole, |types|
  {
    if types == [] then Returned([])
    else Appended(Collect(world, target, types[0], context, aliases, visited),
                  CollectEach(world, target, whole, types[1..], context, aliases, visited))
  }

  function Appended(a: Evaluated<seq<Target>>, b: Evaluated<seq<Target>>): Evaluated<seq<Target>> {
    if a.Panicked? || b.Panicked? then Panicked else Returned(a.value + b.value)
  }

  /**
   * The collector comes to a path whose module lookup panics: the type itself, what an alias expands
   * to, or any branch of a wrapper.
   */
  ghost predicate MeetsPanic(
    world: SourceWorld, target: Type, ty: Type, context: Option<AliasContext>, visited: set<string>)
    decreases VisitKeys(world) - visited, ty
  {
    && IsPlainPath(ty) && ty.path.segments != [] && !MatchesMachine(ty.path, target)
    && match Expand(world, ty, context, visited)
       case Panicked => true
       case Returned(Some(e)) =>
         VisitShrinks(world, visited, e.visitKey);
         MeetsPanic(world, target, e.expanded, Some(e.context), visited + {e.visitKey})
       case Returned(None) =>
         exists i :: 0 <= i < |WrappedTypes(ty)| && MeetsPanic(world, target, WrappedTypes(ty)[i], context, visited)
  }

  lemma VisitShrinks(world: SourceWorld, visited: set<string>, key: string)
    requires key in VisitKeys(world) && key !in visited
    ensures VisitKeys(world) - (visited + {key}) < VisitKeys(world) - visited
  {
    assert key in VisitKeys(world) - visited;
  }

  function PushUnique(targets: seq<Target>, found: Target): seq<Target> {
    if found in targets then targets else targets + [found]
  }

  function PushAll(targets: seq<Target>, found: seq<Target>): seq<Target>
    decreases found
  {
    if found == [] then targets else PushAll(PushUnique(targets, found[0]), found[1..])
  }

  lemma {:induction false} PushAllConcat(targets: seq<Target>, a: seq<Target>, b: seq<Target>)
    ensures PushAll(targets, a + b) == PushAll(PushAll(targets, a), b)
    decreases |a|
  {
    if a == [] {
      assert a + b == b;
    } else {
      assert (a + b)[1..] == a[1..] + b;
      PushAllConcat(PushUnique(targets, a[0]), a[1..], b);
    }
  }

  lemma {:induction false} PushAllKeeps(targets: seq<Target>, found: seq<Target>)
    requires Distinct(targets)
    ensures Distinct(PushAll(targets, found)) && targets <= PushAll(targets, found)
    ensures forall t :: t in PushAll(targets, found) <==> t in targets || t in found
    decreases |found|
  {
    if found == [] {
    } else {
      PushAllKeeps(PushUnique(targets, found[0]), found[1..]);
      assert forall t :: t in found <==> t == found[0] || t in found[1..];
    }
  }

  /** The target list a collection leaves, unless it panics. */
  function PushedResult(targets: seq<Target>, found: Evaluated<seq<Target>>): Evaluated<seq<Target>> {
    if found.Panicked? then Panicked else Returned(PushAll(targets, found.value))
  }

  lemma PushedAppended(targets: seq<Target>, a: Evaluated<seq<Target>>, b: Evaluated<seq<Target>>)
    ensures PushedResult(targets, Appended(a, b))
         == if a.Panicked? then Panicked else PushedResult(PushAll(targets, a.value), b)
  {
    if a.Returned? && b.Returned? {
      PushAllConcat(targets, a.value, b.value);
    }
  }

  // ---- The traversals with their shared visited set and target list ----

  class Resolver {
    const world: SourceWorld
    const target: Type
    const aliases: bool
    var visited: set<string>
    var targets: seq<Target>

    constructor (world: SourceWorld, target: Type, aliases: bool)
      ensures this.world == world && this.target == target && this.aliases == aliases
      ensures visited == {} && targets == []
    {
      this.world, this.target, this.aliases := world, target, aliases;
      visited, targets := {}, [];
    }

    /**
     * Marks the alias as being expanded; the caller unmarks it. A failed instantiation unmarks it here,
     * and a panic comes before the mark.
     */
    method ExpandSourceTypeAlias(ty: Type, context: Option<AliasContext>) returns (expansion: Evaluated<Option<ExpandedAlias>>)
      modifies this`visited
      ensures expansion == Expand(world, ty, context, old(visited))
      ensures visited == if expansion.Returned? && expansion.value.Some?
                         then old(visited) + {expansion.value.value.visitKey} else old(visited)
    {
      if context.None? || !IsPlainPath(ty) {
        return Returned(None);
      }
      var found := ResolveTypeAlias(world, ty.path, context.value);
      if found.Panicked? {
        return Panicked;
      }
      if found.value.None? {
        return Returned(None);
      }
      var resolved := found.value.value;
      var key := VisitKey(resolved.context.filePath, resolved.context.modulePath, resolved.item.ident);
      if key in visited {
        return Returned(None);
      }
      visited := visited + {key};
      var expanded := Instantiate(resolved.item, ty.path);
      if expanded.None? {
        visited := visited - {key};
        return Returned(None);
      }
      return Returned(Some(ExpandedAlias(expanded.value, resolved.context, key)));
    }

    /** The primary parser; unless it panics, it leaves the visited set as it found it. */
    method ParsePrimary(ty: Type, context: Option<AliasContext>) returns (found: Evaluated<Option<Target>>)
      modifies this`visited
      ensures found.Returned? ==> visited == old(visited)
      ensures found == Primary(world, target, ty, context, aliases, old(visited))
      decreases VisitKeys(world) - visited, ty
    {
      if !IsPlainPath(ty) || ty.path.segments == [] {
        return Returned(None);
      }
      var segment := LastSegment(ty.path);
      if MatchesMachine(ty.path, target) {
        return Returned(MachineState(segment));
      }
      if aliases {
        var expansion := ExpandSourceTypeAlias(ty, context);
        if expansion.Panicked? {
          return Panicked;
        }
        if expansion.value.Some? {
          var alias := expansion.value.value;
          VisitShrinks(world, old(visited), alias.visitKey);
          found := ParsePrimary(alias.expanded, Some(alias.context));
          if found.Returned? {
            visited := visited - {alias.visitKey};
          }
          return found;
        }
      }
      var types := GenericTypes(segment.arguments);
      if Wrapper(ty.path).None? || types == [] {
        return Returned(None);
      }
      assert types[0] == WrappedTypes(ty)[0];
      found := ParsePrimary(types[0], context);
    }

    /** The collector; unless it panics, it appends new targets and leaves the visited set as it found it. */
    method CollectTargets(ty: Type, context: Option<AliasContext>) returns (panicked: bool)
      modifies this
      ensures panicked <==> Collect(world, target, ty, context, aliases, old(visited)).Panicked?
      ensures !panicked ==> visited == old(visited)
      ensures !panicked ==>
                targets == PushAll(old(targets), Collect(world, target, ty, context, aliases, old(visited)).value)
      ensures !panicked && Distinct(old(targets)) ==>
                Distinct(targets) && GainsOccurring(world, target, ty, context, aliases, old(visited), old(targets), targets)
      decreases VisitKeys(world) - visited, ty
    {
      if Distinct(targets) && Collect(world, target, ty, context, aliases, visited).Returned? {
        PushedTargetsOccur(world, target, ty, context, aliases, visited, targets);
      }
      if !IsPlainPath(ty) || ty.path.segments == [] {
        return false;
      }
      var segment := LastSegment(ty.path);
      if MatchesMachine(ty.path, target) {
        var found := MachineState(segment);
        if found.Some? {
          if found.value !in targets {
            targets := targets + [found.value];
          }
          assert [found.value][1..] == [];
        }
        return false;
      }
      if aliases {
        var expansion := ExpandSourceTypeAlias(ty, context);
        if expansion.Panicked? {
          return true;
        }
        if expansion.value.Some? {
          var alias := expansion.value.value;
          VisitShrinks(world, old(visited), alias.visitKey);
          panicked := CollectTargets(alias.expanded, Some(alias.context));
          if !panicked {
            visited := visited - {alias.visitKey};
          }
          return panicked;
        }
      }
      var types := GenericTypes(segment.arguments);
      match Wrapper(ty.path) {
        case None => return false;
        case Some(OptionWrapper) =>
          if types == [] {
            return false;
          }
          assert WrappedTypes(ty) == [types[0]];
          panicked := CollectFrom(ty, [types[0]], context);
        case Some(_) =>
          assert WrappedTypes(ty) == types;
          panicked := CollectFrom(ty, types, context);
      }
    }

    /** The collector's loop over the generic types of a wrapper. */
    method CollectFrom(whole: Type, types: seq<Type>, context: Option<AliasContext>) returns (panicked: bool)
      requires PartsOf(types, whole)
      modifies this
      ensures panicked <==> CollectEach(world, target, whole, types, context, aliases, old(visited)).Panicked?
      ensures !panicked ==> visited == old(visited)
      ensures !panicked ==>
                targets == PushAll(old(targets), CollectEach(world, target, whole, types, context, aliases, old(visited)).value)
      decreases VisitKeys(world) - visited, whole, 0
    {
      var i := 0;
      while i < |types|
        invariant 0 <= i <= |types| && visited == old(visited)
        invariant PushedResult(targets, CollectEach(world, target, whole, types[i..], context, aliases, visited))
               == PushedResult(old(targets), CollectEach(world, target, whole, types, context, aliases, visited))
      {
        PushedAppended(targets, Collect(world, target, types[i], context, aliases, visited),
                       CollectEach(world, target, whole, types[i + 1..], context, aliases, visited));
        assert types[i..][1..] == types[i + 1..];
        panicked := CollectTargets(types[i], context);
        if panicked {
          return true;
        }
        i := i + 1;
      }
      return false;
    }
  }

  // ---- When the collector panics ----

  lemma {:induction false} CollectPanicsExactly(
    world: SourceWorld, target: Type, ty: Type, context: Option<AliasContext>, visited: set<string>)
    ensures Collect(world, target, ty, context, true, visited).Panicked? <==> MeetsPanic(world, target, ty, context, visited)
    decreases VisitKeys(world) - visited, ty
  {
    if !IsPlainPath(ty) || ty.path.segments == [] || MatchesMachine(ty.path, target) {
    } else {
      match Expand(world, ty, context, visited)
      case Panicked =>
      case Returned(Some(e)) =>
        VisitShrinks(world, visited, e.visitKey);
        CollectPanicsExactly(world, target, e.expanded, Some(e.context), visited + {e.visitKey});
      case Returned(None) =>
        var types := WrappedTypes(ty);
        CollectEachPanicsExactly(world, target, ty, types, context, visited);
    }
  }

  lemma {:induction false} CollectEachPanicsExactly(
    world: SourceWorld, target: Type, whole: Type, types: seq<Type>, context: Option<AliasContext>, visited: set<string>)
    requires PartsOf(types, whole)
    ensures CollectEach(world, target, whole, types, context, true, visited).Panicked? <==>
            exists i :: 0 <= i < |types| && MeetsPanic(world, target, types[i], context, visited)
    decreases VisitKeys(world) - visited, whole, |types|
  {
    if types == [] {
    } else {
      CollectPanicsExactly(world, target, types[0], context, visited);
      CollectEachPanicsExactly(world, target, whole, types[1..], context, visited);
      if i :| 0 <= i < |types| && MeetsPanic(world, target, types[i], context, visited) {
        assert i > 0 ==> types[1..][i - 1] == types[i];
      }
      if i :| 0 <= i < |types[1..]| && MeetsPanic(world, target, types[1..][i], context, visited) {
        assert types[i + 1] == types[1..][i];
      }
    }
  }

  /** The primary parser panics only where the collector does. */
  lemma {:induction false} PrimaryPanicIsMet(
    world: SourceWorld, target: Type, ty: Type, context: Option<AliasContext>, visited: set<string>)
    requires Primary(world, target, ty, context, true, visited).Panicked?
    ensures MeetsPanic(world, target, ty, context, visited)
    decreases VisitKeys(world) - visited, ty
  {
    match Expand(world, ty, context, visited)
    case Panicked =>
    case Returned(Some(e)) =>
      VisitShrinks(world, visited, e.visitKey);
      PrimaryPanicIsMet(world, target, e.expanded, Some(e.context), visited + {e.visitKey});
    case Returned(None) =>
      PrimaryPanicIsMet(world, target, WrappedTypes(ty)[0], context, visited);
  }

  /** Without aliases nothing panics. */
  lemma {:induction false} StrictReturns(world: SourceWorld, target: Type, ty: Type)
    ensures Primary(world, target, ty, None, false, {}).Returned? && Collect(world, target, ty, None, false, {}).Returned?
    decreases ty, 0
  {
    if !IsPlainPath(ty) || ty.path.segments == [] || MatchesMachine(ty.path, target) {
    } else {
      var types := WrappedTypes(ty);
      if types != [] { StrictReturns(world, target, types[0]); }
      StrictEachReturns(world, target, ty, types);
    }
  }

  lemma {:induction false} StrictEachReturns(world: SourceWorld, target: Type, whole: Type, types: seq<Type>)
    requires PartsOf(types, whole)
    ensures CollectEach(world, target, whole, types, None, false, {}).Returned?
    decreases whole, 0, |types|
  {
    if types == [] {
    } else {
      StrictReturns(world, target, types[0]);
      StrictEachReturns(world, target, whole, types[1..]);
    }
  }

  // ---- What the collector finds ----

  /**
   * The target stands in the type: in a path that matches the machine, in a branch of a wrapper, or
   * in what an alias stands for.
   */
  ghost predicate Occurs(
    world: SourceWorld, target: Type, ty: Type, context: Option<AliasContext>, aliases: bool, visited: set<string>, found: Target)
    decreases VisitKeys(world) - visited, ty
  {
    && IsPlainPath(ty) && ty.path.segments != []
    && if MatchesMachine(ty.path, target) then NamesState(LastSegment(ty.path), found)
       else if IsWrapper(ty.path) then
         exists i: nat :: BranchAt(ty.path, i) && Occurs(world, target, Branch(ty, i), context, aliases, visited, found)
       else if !aliases then false
       else match Expand(world, ty, context, visited)
         case Returned(Some(e)) =>
           VisitShrinks(world, visited, e.visitKey);
           Occurs(world, target, e.expanded, Some(e.context), aliases, visited + {e.visitKey}, found)
         case _ => false
  }

  /** A collection that returns holds exactly the targets that stand in the type. */
  lemma {:induction false} CollectsExactly(
    world: SourceWorld, target: Type, ty: Type, context: Option<AliasContext>, aliases: bool, visited: set<string>, found: Target)
    requires Collect(world, target, ty, context, aliases, visited).Returned?
    ensures found in Collect(world, target, ty, context, aliases, visited).value <==>
            Occurs(world, target, ty, context, aliases, visited, found)
    decreases VisitKeys(world) - visited, ty
  {
    if !IsPlainPath(ty) || ty.path.segments == [] {
    } else if MatchesMachine(ty.path, target) {
      MachineStateMeans(LastSegment(ty.path), found);
    } else {
      WrapperMeans(ty.path);
      if IsWrapper(ty.path) {
        AliasesNeverShadowWrappers(world, ty, context, visited);
        WrapperCollectsExactly(world, target, ty, context, aliases, visited, found);
      } else {
        match Expansion(world, ty, context, aliases, visited)
        case Returned(Some(e)) =>
          VisitShrinks(world, visited, e.visitKey);
          CollectsExactly(world, target, e.expanded, Some(e.context), aliases, visited + {e.visitKey}, found);
        case Returned(None) =>
          assert WrappedTypes(ty) == [];
      }
    }
  }

  /** The list gains exactly the targets that stand in the type. */
  ghost predicate GainsOccurring(
    world: SourceWorld, target: Type, ty: Type, context: Option<AliasContext>, aliases: bool, visited: set<string>,
    before: seq<Target>, after: seq<Target>)
  {
    forall found :: found in after <==> found in before || Occurs(world, target, ty, context, aliases, visited, found)
  }

  lemma PushedTargetsOccur(
    world: SourceWorld, target: Type, ty: Type, context: Option<AliasContext>, aliases: bool, visited: set<string>,
    targets: seq<Target>)
    requires Distinct(targets) && Collect(world, target, ty, context, aliases, visited).Returned?
    ensures var pushed := PushAll(targets, Collect(world, target, ty, context, aliases, visited).value);
            Distinct(pushed) && GainsOccurring(world, target, ty, context, aliases, visited, targets, pushed)
  {
    PushAllKeeps(targets, Collect(world, target, ty, context, aliases, visited).value);
    forall found ensures found in Collect(world, target, ty, context, aliases, visited).value <==>
                         Occurs(world, target, ty, context, aliases, visited, found) {
      CollectsExactly(world, target, ty, context, aliases, visited, found);
    }
  }

  /** The target that the type leads to first: through the first type argument of each wrapper, and through aliases. */
  ghost predicate LeadsTo(
    world: SourceWorld, target: Type, ty: Type, context: Option<AliasContext>, aliases: bool, visited: set<string>, found: Target)
    decreases VisitKeys(world) - visited, ty
  {
    && IsPlainPath(ty) && ty.path.segments != []
    && if MatchesMachine(ty.path, target) then NamesState(LastSegment(ty.path), found)
       else if IsWrapper(ty.path) then
         exists i: nat :: BranchAt(ty.path, i) && FirstTypeArgument(LastSegment(ty.path).arguments, i)
                          && LeadsTo(world, target, Branch(ty, i), context, aliases, visited, found)
       else if !aliases then false
       else match Expand(world, ty, context, visited)
         case Returned(Some(e)) =>
           VisitShrinks(world, visited, e.visitKey);
           LeadsTo(world, target, e.expanded, Some(e.context), aliases, visited + {e.visitKey}, found)
         case _ => false
  }

  /** The primary target is exactly the one the type leads to. */
  lemma {:induction false} PrimaryExactly(
    world: SourceWorld, target: Type, ty: Type, context: Option<AliasContext>, aliases: bool, visited: set<string>, found: Target)
    ensures Primary(world, target, ty, context, aliases, visited) == Returned(Some(found)) <==>
            LeadsTo(world, target, ty, context, aliases, visited, found)
    decreases VisitKeys(world) - visited, ty
  {
    if !IsPlainPath(ty) || ty.path.segments == [] {
    } else if MatchesMachine(ty.path, target) {
      MachineStateMeans(LastSegment(ty.path), found);
    } else {
      WrapperMeans(ty.path);
      if IsWrapper(ty.path) {
        AliasesNeverShadowWrappers(world, ty, context, visited);
        FirstBranchMeans(ty);
        if WrappedTypes(ty) != [] {
          PrimaryExactly(world, target, WrappedTypes(ty)[0], context, aliases, visited, found);
        }
      } else {
        match Expansion(world, ty, context, aliases, visited)
        case Panicked =>
        case Returned(Some(e)) =>
          VisitShrinks(world, visited, e.visitKey);
          PrimaryExactly(world, target, e.expanded, Some(e.context), aliases, visited + {e.visitKey}, found);
        case Returned(None) =>
          assert WrappedTypes(ty) == [];
      }
    }
  }

  lemma FirstBranchMeans(ty: Type)
    requires ty.PathType? && ty.path.segments != [] && IsWrapper(ty.path)
    ensures var arguments := LastSegment(ty.path).arguments;
            && (WrappedTypes(ty) != [] <==> exists i: nat :: FirstTypeArgument(arguments, i))
            && (forall i: nat :: FirstTypeArgument(arguments, i) ==> BranchAt(ty.path, i) && Branch(ty, i) == WrappedTypes(ty)[0])
  {
    WrapperMeans(ty.path);
    var arguments := LastSegment(ty.path).arguments;
    if arguments.AngleBracketed? {
      FirstAmong(arguments.args);
    }
  }

  lemma {:induction false} WrapperCollectsExactly(
    world: SourceWorld, target: Type, ty: Type, context: Option<AliasContext>, aliases: bool, visited: set<string>, found: Target)
    requires ty.PathType? && ty.path.segments != []
    requires CollectEach(world, target, ty, WrappedTypes(ty), context, aliases, visited).Returned?
    ensures found in CollectEach(world, target, ty, WrappedTypes(ty), context, aliases, visited).value <==>
            exists i: nat :: BranchAt(ty.path, i) && Occurs(world, target, Branch(ty, i), context, aliases, visited, found)
    decreases VisitKeys(world) - visited, ty, |WrappedTypes(ty)| + 1
  {
    var types := WrappedTypes(ty);
    EachCollectsExactly(world, target, ty, types, context, aliases, visited, found);
    if k :| 0 <= k < |types| && Occurs(world, target, types[k], context, aliases, visited, found) {
      WrappedTypesMeans(ty, types[k]);
    }
    if i: nat :| BranchAt(ty.path, i) && Occurs(world, target, Branch(ty, i), context, aliases, visited, found) {
      WrappedTypesMeans(ty, Branch(ty, i));
    }
  }

  lemma {:induction false} EachCollectsExactly(
    world: SourceWorld, target: Type, whole: Type, types: seq<Type>, context: Option<AliasContext>, aliases: bool,
    visited: set<string>, found: Target)
    requires PartsOf(types, whole) && CollectEach(world, target, whole, types, context, aliases, visited).Returned?
    ensures found in CollectEach(world, target, whole, types, context, aliases, visited).value <==>
            exists k :: 0 <= k < |types| && Occurs(world, target, types[k], context, aliases, visited, found)
    decreases VisitKeys(world) - visited, whole, |types|
  {
    if types == [] {
    } else {
      CollectsExactly(world, target, types[0], context, aliases, visited, found);
      EachCollectsExactly(world, target, whole, types[1..], context, aliases, visited, found);
      assert forall k :: 0 < k < |types| ==> types[k] == types[1..][k - 1];
      assert forall k :: 0 <= k < |types| - 1 ==> types[1..][k] == types[k + 1];
    }
  }

  // ---- The primary target leads the collected ones ----

  lemma {:induction false} PrimaryLeadsCollector(
    world: SourceWorld, target: Type, ty: Type, context: Option<AliasContext>, aliases: bool, visited: set<string>)
    requires Primary(world, target, ty, context, aliases, visited).Returned?
    requires Primary(world, target, ty, context, aliases, visited).value.Some?
    requires Collect(world, target, ty, context, aliases, visited).Returned?
    ensures var found := Collect(world, target, ty, context, aliases, visited).value;
            found != [] && found[0] == Primary(world, target, ty, context, aliases, visited).value.value
    decreases VisitKeys(world) - visited, ty
  {
    if MatchesMachine(ty.path, target) {
    } else {
      match Expansion(world, ty, context, aliases, visited)
      case Returned(Some(e)) =>
        VisitShrinks(world, visited, e.visitKey);
        PrimaryLeadsCollector(world, target, e.expanded, Some(e.context), aliases, visited + {e.visitKey});
      case Returned(None) =>
        PrimaryLeadsCollector(world, target, WrappedTypes(ty)[0], context, aliases, visited);
    }
  }

  /** Every collected target carries the target machine's own name. */
  lemma {:induction false} CollectedMachineName(
    world: SourceWorld, target: Type, ty: Type, context: Option<AliasContext>, aliases: bool, visited: set<string>, found: Target)
    requires IsPlainPath(target) ==> target.path.segments != []
    requires Collect(world, target, ty, context, aliases, visited).Returned?
    requires found in Collect(world, target, ty, context, aliases, visited).value
    ensures IsPlainPath(target) && found.0 == LastSegment(target.path).ident
    decreases VisitKeys(world) - visited, ty
  {
    if MatchesMachine(ty.path, target) {
      MatchedNameIsTargetName(ty.path, target);
    } else {
      match Expansion(world, ty, context, aliases, visited)
      case Returned(Some(e)) =>
        VisitShrinks(world, visited, e.visitKey);
        CollectedMachineName(world, target, e.expanded, Some(e.context), aliases, visited + {e.visitKey}, found);
      case Returned(None) =>
        CollectedEachName(world, target, ty, WrappedTypes(ty), context, aliases, visited, found);
    }
  }

  lemma {:induction false} CollectedEachName(
    world: SourceWorld, target: Type, whole: Type, types: seq<Type>, context: Option<AliasContext>, aliases: bool,
    visited: set<string>, found: Target)
    requires IsPlainPath(target) ==> target.path.segments != []
    requires PartsOf(types, whole) && CollectEach(world, target, whole, types, context, aliases, visited).Returned?
    requires found in CollectEach(world, target, whole, types, context, aliases, visited).value
    ensures IsPlainPath(target) && found.0 == LastSegment(target.path).ident
    decreases VisitKeys(world) - visited, whole, |types|
  {
    if found in Collect(world, target, types[0], context, aliases, visited).value {
      CollectedMachineName(world, target, types[0], context, aliases, visited, found);
    } else {
      CollectedEachName(world, target, whole, types[1..], context, aliases, visited, found);
    }
  }

  // ---- Strict resolution is kept by alias-following resolution ----

  /** Supported wrappers are written with a leading `::`, which no alias path has. */
  lemma AliasesNeverShadowWrappers(world: SourceWorld, ty: Type, context: Option<AliasContext>, visited: set<string>)
    requires IsPlainPath(ty) && Wrapper(ty.path).Some?
    ensures Expand(world, ty, context, visited) == Returned(None)
  {
  }

  /** No condition is needed: a path the strict parser accepts holds no lookup at all. */
  lemma {:induction false} StrictPrimaryIsKept(
    world: SourceWorld, target: Type, ty: Type, context: Option<AliasContext>, visited: set<string>)
    requires Primary(world, target, ty, None, false, {}).Returned? && Primary(world, target, ty, None, false, {}).value.Some?
    ensures Primary(world, target, ty, context, true, visited) == Primary(world, target, ty, None, false, {})
    decreases ty
  {
    if MatchesMachine(ty.path, target) {
    } else {
      AliasesNeverShadowWrappers(world, ty, context, visited);
      StrictPrimaryIsKept(world, target, WrappedTypes(ty)[0], context, visited);
    }
  }

  /** Unless the collector panics on another branch, it keeps what the strict collector finds. */
  lemma {:induction false} StrictTargetsAreKept(
    world: SourceWorld, target: Type, ty: Type, context: Option<AliasContext>, visited: set<string>, found: Target)
    requires Collect(world, target, ty, None, false, {}).Returned? && found in Collect(world, target, ty, None, false, {}).value
    ensures Collect(world, target, ty, context, true, visited).Panicked? <==> MeetsPanic(world, target, ty, context, visited)
    ensures !MeetsPanic(world, target, ty, context, visited) ==>
              found in Collect(world, target, ty, context, true, visited).value
    decreases ty, 1
  {
    CollectPanicsExactly(world, target, ty, context, visited);
    if MatchesMachine(ty.path, target) {
    } else if !MeetsPanic(world, target, ty, context, visited) {
      AliasesNeverShadowWrappers(world, ty, context, visited);
      StrictEachIsKept(world, target, ty, WrappedTypes(ty), context, visited, found);
    }
  }

  lemma {:induction false} StrictEachIsKept(
    world: SourceWorld, target: Type, whole: Type, types: seq<Type>, context: Option<AliasContext>, visited: set<string>,
    found: Target)
    requires PartsOf(types, whole) && CollectEach(world, target, whole, types, None, false, {}).Returned?
    requires found in CollectEach(world, target, whole, types, None, false, {}).value
    requires CollectEach(world, target, whole, types, context, true, visited).Returned?
    ensures found in CollectEach(world, target, whole, types, context, true, visited).value
    decreases whole, 0, |types|
  {
    if found in Collect(world, target, types[0], None, false, {}).value {
      CollectPanicsExactly(world, target, types[0], context, visited);
      StrictTargetsAreKept(world, target, types[0], context, visited, found);
    } else {
      StrictEachIsKept(world, target, whole, types[1..], context, visited, found);
    }
  }

  // ---- The transition contract ----

  datatype TransitionContract = TransitionContract(primaryNextState: string, nextStates: seq<string>)

  function States(targets: seq<Target>): (r: seq<string>)
    ensures |r| == |targets| && forall i :: 0 <= i < |r| ==> r[i] == targets[i].1
  {
    Map((t: Target) => t.1, targets)
  }

  /** Resolution in one context: a primary target and a non-empty target list, or nothing. */
  ghost function ResolveIn(world: SourceWorld, target: Type, ty: Type, context: Option<AliasContext>, aliases: bool)
    : Evaluated<Option<TransitionContract>>
  {
    match Primary(world, target, ty, context, aliases, {})
    case Panicked => Panicked
    case Returned(None) => Returned(None)
    case Returned(Some(primary)) =>
      match Collect(world, target, ty, context, aliases, {})
      case Panicked => Panicked
      case Returned(found) =>
        var states := States(PushAll([], found));
        if states == [] then Returned(None) else Returned(Some(TransitionContract(primary.1, states)))
  }

  ghost function ResolveStrict(world: SourceWorld, target: Type, ty: Type): Option<TransitionContract> {
    StrictReturns(world, target, ty);
    ResolveIn(world, target, ty, None, false).value
  }

  /** The first candidate context that resolves, then no context at all. */
  ghost function ResolveFollowing(world: SourceWorld, target: Type, ty: Type, contexts: seq<AliasContext>)
    : Evaluated<Option<TransitionContract>>
  {
    if contexts == [] then ResolveIn(world, target, ty, None, true)
    else match ResolveIn(world, target, ty, Some(contexts[0]), true)
      case Returned(None) => ResolveFollowing(world, target, ty, contexts[1..])
      case first => first
  }

  /** The written return type, checked against an explicit annotation when there is one. */
  ghost function ValidateReturnContract(
    world: SourceWorld, target: Type, written: Option<Type>, introspected: Option<Type>, strictMode: bool,
    contexts: seq<AliasContext>): Evaluated<Option<TransitionContract>>
  {
    if written.None? then Returned(None)
    else if introspected.Some? then
      var claimed := ResolveStrict(world, target, introspected.value);
      if claimed.None? then Returned(None)
      else match ResolveFollowing(world, target, written.value, contexts)
        case Panicked => Panicked
        case Returned(observed) => if observed == claimed then Returned(claimed) else Returned(None)
    else if strictMode then Returned(ResolveStrict(world, target, written.value))
    else ResolveFollowing(world, target, written.value, contexts)
  }

  method ResolveOnce(world: SourceWorld, target: Type, ty: Type, context: Option<AliasContext>, aliases: bool)
    returns (contract: Evaluated<Option<TransitionContract>>)
    ensures contract == ResolveIn(world, target, ty, context, aliases)
  {
    var parser := new Resolver(world, target, aliases);
    var primary := parser.ParsePrimary(ty, context);
    if primary.Panicked? {
      return Panicked;
    }
    if primary.value.None? {
      return Returned(None);
    }
    var collector := new Resolver(world, target, aliases);
    var panicked := collector.CollectTargets(ty, context);
    if panicked {
      return Panicked;
    }
    var states := States(collector.targets);
    if states == [] {
      return Returned(None);
    }
    return Returned(Some(TransitionContract(primary.value.value.1, states)));
  }

  method FindContract(world: SourceWorld, target: Type, ty: Type, contexts: seq<AliasContext>)
    returns (contract: Evaluated<Option<TransitionContract>>)
    ensures contract == ResolveFollowing(world, target, ty, contexts)
  {
    var i := 0;
    while i < |contexts|
      invariant 0 <= i <= |contexts|
      invariant ResolveFollowing(world, target, ty, contexts) == ResolveFollowing(world, target, ty, contexts[i..])
    {
      contract := ResolveOnce(world, target, ty, Some(contexts[i]), true);
      if contract.Panicked? || contract.value.Some? {
        return;
      }
      assert contexts[i..][1..] == contexts[i + 1..];
      i := i + 1;
    }
    contract := ResolveOnce(world, target, ty, None, true);
  }

  function AllNextStates(contract: TransitionContract): seq<string> {
    [contract.primaryNextState] + Filter((s: string) => s != contract.primaryNextState, contract.nextStates)
  }

  /** A contract whose state list is duplicate-free and starts with the primary state. */
  ghost predicate PrimaryFirst(contract: TransitionContract) {
    Distinct(contract.nextStates) && contract.nextStates != [] && contract.nextStates[0] == contract.primaryNextState
  }

  lemma {:induction false} FilterKeepsAll(keep: string -> bool, s: seq<string>)
    requires forall x :: x in s ==> keep(x)
    ensures Filter(keep, s) == s
  {
    if s == [] {
    } else {
      FilterKeepsAll(keep, s[1..]);
    }
  }

  /** The state list starts with the primary state and does not repeat it. */
  ghost predicate PrimaryLeads(contract: TransitionContract) {
    contract.nextStates != [] && contract.nextStates[0] == contract.primaryNextState &&
    contract.primaryNextState !in contract.nextStates[1..]
  }

  /** Listing the primary state first and skipping it afterwards gives back the list exactly when the primary leads it. */
  lemma AllNextStatesIsList(contract: TransitionContract)
    ensures AllNextStates(contract) == contract.nextStates <==> PrimaryLeads(contract)
  {
    var primary, states := contract.primaryNextState, contract.nextStates;
    var keep := (s: string) => s != primary;
    var others := Filter(keep, states);
    if AllNextStates(contract) == states {
      assert states[0] == primary && states[1..] == others;
      assert primary !in others;
    }
    if PrimaryLeads(contract) {
      var rest := states[1..];
      FilterKeepsAll(keep, rest);
      assert others == rest;
      assert states == [primary] + rest;
    }
  }

  lemma PrimaryFirstLeads(contract: TransitionContract)
    requires PrimaryFirst(contract)
    ensures PrimaryLeads(contract)
  {
    var rest := contract.nextStates[1..];
    forall x | x in rest ensures x != contract.primaryNextState {
      var k :| 0 <= k < |rest| && rest[k] == x;
      assert contract.nextStates[k + 1] == x;
    }
  }

  ghost predicate Accepted(result: Evaluated<Option<TransitionContract>>) {
    result.Returned? && result.value.Some?
  }

  lemma ResolvedIsPrimaryFirst(world: SourceWorld, target: Type, ty: Type, context: Option<AliasContext>, aliases: bool)
    requires IsPlainPath(target) ==> target.path.segments != []
    requires Accepted(ResolveIn(world, target, ty, context, aliases))
    ensures PrimaryFirst(ResolveIn(world, target, ty, context, aliases).value.value)
  {
    var found := Collect(world, target, ty, context, aliases, {}).value;
    var targets := PushAll([], found);
    PrimaryLeadsCollector(world, target, ty, context, aliases, {});
    PushAllKeeps([], found);
    FirstPushed(found);
    var states := States(targets);
    forall i, j | 0 <= i < j < |states| ensures states[i] != states[j] {
      assert targets[i] in targets && targets[j] in targets;
      CollectedMachineName(world, target, ty, context, aliases, {}, targets[i]);
      CollectedMachineName(world, target, ty, context, aliases, {}, targets[j]);
    }
  }

  lemma FirstPushed(found: seq<Target>)
    requires found != []
    ensures PushAll([], found) != [] && PushAll([], found)[0] == found[0]
  {
    assert PushUnique([], found[0]) == [found[0]] && Distinct([found[0]]);
    PushAllKeeps([found[0]], found[1..]);
  }

  /** The states are exactly those of the targets that stand in the type. */
  ghost predicate StatesOccur(
    world: SourceWorld, target: Type, ty: Type, context: Option<AliasContext>, aliases: bool, states: seq<string>)
  {
    forall state :: state in states <==> exists machine :: Occurs(world, target, ty, context, aliases, {}, (machine, state))
  }

  lemma ResolvedStatesOccur(world: SourceWorld, target: Type, ty: Type, context: Option<AliasContext>, aliases: bool)
    requires Accepted(ResolveIn(world, target, ty, context, aliases))
    ensures StatesOccur(world, target, ty, context, aliases, ResolveIn(world, target, ty, context, aliases).value.value.nextStates)
  {
    var contract := ResolveIn(world, target, ty, context, aliases).value.value;
    var targets := PushAll([], Collect(world, target, ty, context, aliases, {}).value);
    PushAllKeeps([], Collect(world, target, ty, context, aliases, {}).value);
    forall state ensures state in contract.nextStates <==> exists machine :: Occurs(world, target, ty, context, aliases, {}, (machine, state)) {
      if state in contract.nextStates {
        var i :| 0 <= i < |targets| && targets[i].1 == state;
        assert targets[i] in targets && targets[i] == (targets[i].0, state);
        CollectsExactly(world, target, ty, context, aliases, {}, targets[i]);
      }
      if machine :| Occurs(world, target, ty, context, aliases, {}, (machine, state)) {
        CollectsExactly(world, target, ty, context, aliases, {}, (machine, state));
        var i :| 0 <= i < |targets| && targets[i] == (machine, state);
        assert contract.nextStates[i] == state;
      }
    }
  }

  /** Resolution in one context succeeds exactly when the type leads to a target and the collector returns; that target is the primary one. */
  lemma ResolvesPrimary(world: SourceWorld, target: Type, ty: Type, context: Option<AliasContext>, aliases: bool, state: string)
    ensures Accepted(ResolveIn(world, target, ty, context, aliases))
            && ResolveIn(world, target, ty, context, aliases).value.value.primaryNextState == state <==>
            && Collect(world, target, ty, context, aliases, {}).Returned?
            && exists machine :: LeadsTo(world, target, ty, context, aliases, {}, (machine, state))
  {
    var primary := Primary(world, target, ty, context, aliases, {});
    if primary.Returned? && primary.value.Some? {
      PrimaryExactly(world, target, ty, context, aliases, {}, primary.value.value);
      if Collect(world, target, ty, context, aliases, {}).Returned? {
        PrimaryLeadsCollector(world, target, ty, context, aliases, {});
        FirstPushed(Collect(world, target, ty, context, aliases, {}).value);
      }
    }
    forall machine | LeadsTo(world, target, ty, context, aliases, {}, (machine, state)) ensures primary == Returned(Some((machine, state))) {
      PrimaryExactly(world, target, ty, context, aliases, {}, (machine, state));
    }
  }

  /** The contexts in the order they are tried: the candidates, then none. */
  function Tried(contexts: seq<AliasContext>, k: nat): Option<AliasContext> {
    if k < |contexts| then Some(contexts[k]) else None
  }

  /** Context `k` gives `result`, and every one tried before it gave nothing. */
  ghost predicate DecidedAt(
    world: SourceWorld, target: Type, ty: Type, contexts: seq<AliasContext>, k: nat, result: Evaluated<Option<TransitionContract>>)
  {
    && k <= |contexts| && result == ResolveIn(world, target, ty, Tried(contexts, k), true)
    && (k < |contexts| ==> result != Returned(None))
    && forall j :: 0 <= j < k ==> ResolveIn(world, target, ty, Tried(contexts, j), true) == Returned(None)
  }

  lemma DecidedLater(
    world: SourceWorld, target: Type, ty: Type, contexts: seq<AliasContext>, k: nat, result: Evaluated<Option<TransitionContract>>)
    requires contexts != [] && ResolveIn(world, target, ty, Tried(contexts, 0), true) == Returned(None)
    requires DecidedAt(world, target, ty, contexts[1..], k, result)
    ensures DecidedAt(world, target, ty, contexts, k + 1, result)
  {
    var rest := contexts[1..];
    assert Tried(contexts, k + 1) == Tried(rest, k);
    forall j | 0 <= j < k + 1 ensures ResolveIn(world, target, ty, Tried(contexts, j), true) == Returned(None) {
      if j > 0 { assert Tried(contexts, j) == Tried(rest, j - 1); }
    }
  }

  /** Following aliases gives what the first context gives that does not come back empty-handed. */
  lemma {:induction false} FollowingIsFirst(world: SourceWorld, target: Type, ty: Type, contexts: seq<AliasContext>) returns (k: nat)
    ensures DecidedAt(world, target, ty, contexts, k, ResolveFollowing(world, target, ty, contexts))
    decreases |contexts|
  {
    k := 0;
    if contexts != [] && ResolveIn(world, target, ty, Some(contexts[0]), true) == Returned(None) {
      k := FollowingIsFirst(world, target, ty, contexts[1..]);
      DecidedLater(world, target, ty, contexts, k, ResolveFollowing(world, target, ty, contexts[1..]));
      k := k + 1;
    }
  }

  lemma {:induction false} FollowingUsesSomeContext(world: SourceWorld, target: Type, ty: Type, contexts: seq<AliasContext>)
    returns (context: Option<AliasContext>)
    ensures ResolveFollowing(world, target, ty, contexts) == ResolveIn(world, target, ty, context, true)
    ensures context.Some? ==> context.value in contexts
  {
    if contexts == [] {
      context := None;
    } else if ResolveIn(world, target, ty, Some(contexts[0]), true) != Returned(None) {
      context := Some(contexts[0]);
    } else {
      context := FollowingUsesSomeContext(world, target, ty, contexts[1..]);
    }
  }

  /** Every accepted transition contract lists its states once, primary first, so `all_next_states` is that list. */
  lemma AcceptedContracts(
    world: SourceWorld, target: Type, written: Option<Type>, introspected: Option<Type>, strictMode: bool,
    contexts: seq<AliasContext>)
    requires IsPlainPath(target) ==> target.path.segments != []
    requires Accepted(ValidateReturnContract(world, target, written, introspected, strictMode, contexts))
    ensures var contract := ValidateReturnContract(world, target, written, introspected, strictMode, contexts).value.value;
            PrimaryFirst(contract) && AllNextStates(contract) == contract.nextStates
  {
    var contract := ValidateReturnContract(world, target, written, introspected, strictMode, contexts).value.value;
    if introspected.Some? {
      StrictReturns(world, target, introspected.value);
      ResolvedIsPrimaryFirst(world, target, introspected.value, None, false);
    } else if strictMode {
      StrictReturns(world, target, written.value);
      ResolvedIsPrimaryFirst(world, target, written.value, None, false);
    } else {
      var context := FollowingUsesSomeContext(world, target, written.value, contexts);
      ResolvedIsPrimaryFirst(world, target, written.value, context, true);
    }
    PrimaryFirstLeads(contract);
    AllNextStatesIsList(contract);
  }

  /**
   * The states of an accepted contract: those that stand in the written type in the context that
   * decided, and with an annotation also those that stand in the annotation without aliases.
   */
  lemma AcceptedStatesOccur(
    world: SourceWorld, target: Type, written: Type, introspected: Option<Type>, strictMode: bool, contexts: seq<AliasContext>)
    requires Accepted(ValidateReturnContract(world, target, Some(written), introspected, strictMode, contexts))
    ensures var result := ValidateReturnContract(world, target, Some(written), introspected, strictMode, contexts);
            && (introspected.Some? ==> StatesOccur(world, target, introspected.value, None, false, result.value.value.nextStates))
            && (introspected.None? && strictMode ==> StatesOccur(world, target, written, None, false, result.value.value.nextStates))
            && (introspected.Some? || !strictMode ==>
                  exists k :: DecidedAt(world, target, written, contexts, k, result)
                              && StatesOccur(world, target, written, Tried(contexts, k), true, result.value.value.nextStates))
  {
    if introspected.Some? {
      StrictReturns(world, target, introspected.value);
      ResolvedStatesOccur(world, target, introspected.value, None, false);
    } else if strictMode {
      StrictReturns(world, target, written);
      ResolvedStatesOccur(world, target, written, None, false);
    }
    if introspected.Some? || !strictMode {
      var k := FollowingIsFirst(world, target, written, contexts);
      ResolvedStatesOccur(world, target, written, Tried(contexts, k), true);
    }
  }

  /** An annotation is accepted exactly when following aliases in the written type gives the same contract. */
  lemma AnnotationMustAgree(
    world: SourceWorld, target: Type, written: Type, introspected: Type, strictMode: bool, contexts: seq<AliasContext>,
    contract: TransitionContract)
    ensures ValidateReturnContract(world, target, Some(written), Some(introspected), strictMode, contexts) == Returned(Some(contract)) <==>
            ResolveIn(world, target, introspected, None, false) == Returned(Some(contract))
            && exists k :: DecidedAt(world, target, written, contexts, k, Returned(Some(contract)))
  {
    StrictReturns(world, target, introspected);
    var k := FollowingIsFirst(world, target, written, contexts);
    if other :| DecidedAt(world, target, written, contexts, other, Returned(Some(contract))) {
      assert k <= other <= k;
    }
  }

  /** Resolution in a context panics only where the collector comes to a panicking path. */
  lemma ResolutionPanicIsMet(world: SourceWorld, target: Type, ty: Type, context: Option<AliasContext>)
    requires ResolveIn(world, target, ty, context, true).Panicked?
    ensures MeetsPanic(world, target, ty, context, {})
  {
    CollectPanicsExactly(world, target, ty, context, {});
    if Primary(world, target, ty, context, true, {}).Panicked? {
      PrimaryPanicIsMet(world, target, ty, context, {});
    }
  }

  /** The context that is tried first: the first candidate, or none. */
  function FirstTried(contexts: seq<AliasContext>): Option<AliasContext> {
    if contexts == [] then None else Some(contexts[0])
  }

  /** The second contract has the first's primary state and at least its states. */
  ghost predicate Extends(wider: TransitionContract, contract: TransitionContract) {
    wider.primaryNextState == contract.primaryNextState && forall s :: s in contract.nextStates ==> s in wider.nextStates
  }

  lemma StrictIsKeptIn(world: SourceWorld, target: Type, ty: Type, context: Option<AliasContext>)
    requires ResolveStrict(world, target, ty).Some?
    ensures var following := ResolveIn(world, target, ty, context, true);
            && (following.Panicked? <==> MeetsPanic(world, target, ty, context, {}))
            && (following.Returned? ==> following.value.Some? && Extends(following.value.value, ResolveStrict(world, target, ty).value))
  {
    StrictReturns(world, target, ty);
    StrictPrimaryIsKept(world, target, ty, context, {});
    CollectPanicsExactly(world, target, ty, context, {});
    if !MeetsPanic(world, target, ty, context, {}) {
      PrimaryLeadsCollector(world, target, ty, context, true, {});
      StatesAreKept(world, target, ty, context);
    }
  }

  lemma StatesAreKept(world: SourceWorld, target: Type, ty: Type, context: Option<AliasContext>)
    requires Collect(world, target, ty, None, false, {}).Returned? && Collect(world, target, ty, context, true, {}).Returned?
    ensures var strict, following := Collect(world, target, ty, None, false, {}), Collect(world, target, ty, context, true, {});
            && (forall s :: s in States(PushAll([], strict.value)) ==> s in States(PushAll([], following.value)))
            && (following.value != [] ==> States(PushAll([], following.value)) != [])
  {
    var strictFound := Collect(world, target, ty, None, false, {}).value;
    var found := Collect(world, target, ty, context, true, {}).value;
    PushAllKeeps([], found);
    PushAllKeeps([], strictFound);
    var strict, following := PushAll([], strictFound), PushAll([], found);
    if found != [] { FirstPushed(found); }
    forall s | s in States(strict) ensures s in States(following) {
      var i :| 0 <= i < |strict| && States(strict)[i] == s;
      assert strict[i] in strict && strict[i] in strictFound;
      StrictTargetsAreKept(world, target, ty, context, {}, strict[i]);
      var j :| 0 <= j < |following| && following[j] == strict[i];
      assert States(following)[j] == s;
    }
  }

  /**
   * What strict resolution accepts, alias-following resolution accepts with the same primary state
   * and at least the same states, exactly unless the collector comes to a panicking path in the
   * context that is tried first; there it panics.
   */
  lemma StrictIsKept(world: SourceWorld, target: Type, ty: Type, contexts: seq<AliasContext>)
    requires ResolveStrict(world, target, ty).Some?
    ensures var following := ResolveFollowing(world, target, ty, contexts);
            && (following.Panicked? <==> MeetsPanic(world, target, ty, FirstTried(contexts), {}))
            && (Accepted(following) <==> !MeetsPanic(world, target, ty, FirstTried(contexts), {}))
            && (Accepted(following) ==> Extends(following.value.value, ResolveStrict(world, target, ty).value))
  {
    StrictIsKeptIn(world, target, ty, FirstTried(contexts));
  }

  /** Without candidate contexts nothing is looked up, so nothing panics. */
  lemma {:induction false} NoContextNeverPanics(world: SourceWorld, target: Type, ty: Type, visited: set<string>)
    ensures !MeetsPanic(world, target, ty, None, visited)
    decreases ty
  {
    if !IsPlainPath(ty) || ty.path.segments == [] || MatchesMachine(ty.path, target) {
    } else {
      var types := WrappedTypes(ty);
      forall i | 0 <= i < |types| ensures !MeetsPanic(world, target, types[i], None, visited) {
        NoContextNeverPanics(world, target, types[i], visited);
      }
    }
  }

  function MachineType(state: string): Type {
    PathType(None, Path(false, [PathSegment("M", AngleBracketed([TypeArgument(NameType(state))]))]))
  }

  /** `super::super` */
  function SupersType(): Type {
    PathType(None, Path(false, [PathSegment("super", NoArguments), PathSegment("super", NoArguments)]))
  }

  /** `::core::result::Result<M<Done>, super::super>` */
  function ResultWithSupers(): Type {
    PathType(None, Path(true, [PathSegment("core", NoArguments), PathSegment("result", NoArguments),
                               PathSegment("Result", AngleBracketed([TypeArgument(MachineType("Done")), TypeArgument(SupersType())]))]))
  }

  lemma DifferentNames()
    ensures "core" != "std" && "result" != "option" && "Result" != "Option"
  {
    assert |"core"| == 4 && |"std"| == 3 && "result"[0] == 'r' && "Result"[0] == 'R';
  }

  lemma DoneMatches()
    ensures var target, done := MachineType("Start"), MachineType("Done");
            && MatchesMachine(done.path, target) && MachineState(LastSegment(done.path)) == Some(("M", "Done"))
  {
    var done := MachineType("Done");
    assert TypesAmong([TypeArgument(NameType("Done"))]) == [NameType("Done")];
    assert StateMarker(NameType("Done")) == Some("Done");
  }

  lemma ResultBranches()
    ensures var ty := ResultWithSupers();
            && Wrapper(ty.path) == Some(ResultWrapper) && !MatchesMachine(ty.path, MachineType("Start"))
            && WrappedTypes(ty) == [MachineType("Done"), SupersType()]
  {
    DifferentNames();
    var ty, done, supers := ResultWithSupers(), TypeArgument(MachineType("Done")), TypeArgument(SupersType());
    var segments, args := ty.path.segments, [done, supers];
    assert |segments| == 3 && segments[0].ident == "core" && segments[1].ident == "result" && segments[2].ident == "Result";
    assert segments[1].ident != ["core", "option", "Option"][1] && segments[1].ident != ["std", "option", "Option"][1];
    assert MatchesAbsolutePath(ty.path, ["core", "result", "Result"]);
    assert Wrapper(ty.path) == Some(ResultWrapper);
    assert LastSegment(ty.path) == segments[2] && segments[2].arguments == AngleBracketed(args);
    assert args[1..] == [supers] && [supers][1..] == [];
    assert TypesAmong([supers]) == [SupersType()] + TypesAmong([]) == [SupersType()];
    assert TypesAmong(args) == [MachineType("Done")] + TypesAmong([supers]);
    assert TypesAmong(args) == [MachineType("Done"), SupersType()];
  }

  /** `::statum::Branch<M<Accepted>, M<Rejected>>` */
  function BranchOfTwo(): Type {
    PathType(None, Path(true, [PathSegment("statum", NoArguments),
                               PathSegment("Branch", AngleBracketed([TypeArgument(MachineType("Accepted")), TypeArgument(MachineType("Rejected"))]))]))
  }

  lemma MachineTypeNamesState(state: string)
    ensures MatchesMachine(MachineType(state).path, MachineType("Start"))
    ensures NamesState(LastSegment(MachineType(state).path), ("M", state))
  {
    var arguments := LastSegment(MachineType(state).path).arguments;
    assert FirstTypeArgument(arguments, 0) && arguments.args[0] == TypeArgument(NameType(state));
  }

  /** Both targets of a `Branch` are resolved, the first as the primary one. */
  lemma BranchResolvesBoth(world: SourceWorld)
    ensures ResolveStrict(world, MachineType("Start"), BranchOfTwo()) == Some(TransitionContract("Accepted", ["Accepted", "Rejected"]))
  {
    var target, ty := MachineType("Start"), BranchOfTwo();
    var accepted, rejected := MachineType("Accepted"), MachineType("Rejected");
    var args := [TypeArgument(accepted), TypeArgument(rejected)];
    assert IsBranch(ty.path) && !MatchesMachine(ty.path, target) && LastSegment(ty.path).arguments == AngleBracketed(args);
    WrapperMeans(ty.path);
    assert args[1..] == [TypeArgument(rejected)] && args[1..][1..] == [];
    assert TypesAmong(args) == [accepted] + TypesAmong(args[1..]) && TypesAmong(args[1..]) == [rejected] + TypesAmong([]);
    assert WrappedTypes(ty) == [accepted, rejected];
    MachineTypeNamesState("Accepted");
    MachineTypeNamesState("Rejected");
    BranchCollects(world, target, ty, accepted, rejected, ("M", "Accepted"), ("M", "Rejected"));
  }

  /** The path matches the target machine and names the state `found`. */
  ghost predicate IsTarget(target: Type, ty: Type, found: Target) {
    IsPlainPath(ty) && ty.path.segments != [] && MatchesMachine(ty.path, target) && NamesState(LastSegment(ty.path), found)
  }

  lemma TargetIsCollected(world: SourceWorld, target: Type, ty: Type, found: Target)
    requires IsTarget(target, ty, found)
    ensures Primary(world, target, ty, None, false, {}) == Returned(Some(found))
    ensures Collect(world, target, ty, None, false, {}) == Returned([found])
  {
    MachineStateMeans(LastSegment(ty.path), found);
  }

  lemma FirstThenRest(world: SourceWorld, target: Type, whole: Type, types: seq<Type>, found: Target, rest: seq<Target>)
    requires types != [] && PartsOf(types, whole) && Collect(world, target, types[0], None, false, {}) == Returned([found])
    requires CollectEach(world, target, whole, types[1..], None, false, {}) == Returned(rest)
    ensures CollectEach(world, target, whole, types, None, false, {}) == Returned([found] + rest)
  {
  }

  lemma TwoAreCollected(world: SourceWorld, target: Type, whole: Type, a: Type, b: Type, first: Target, second: Target)
    requires PartsOf([a, b], whole) && IsTarget(target, a, first) && IsTarget(target, b, second)
    ensures CollectEach(world, target, whole, [a, b], None, false, {}) == Returned([first, second])
  {
    TargetIsCollected(world, target, a, first);
    TargetIsCollected(world, target, b, second);
    var none: seq<Type>, both := [], [a, b];
    var last := both[1..];
    assert last == [b] && last[1..] == none;
    assert [second] + [] == [second] && [first] + [second] == [first, second];
    assert CollectEach(world, target, whole, none, None, false, {}) == Returned([]);
    FirstThenRest(world, target, whole, last, second, []);
    FirstThenRest(world, target, whole, both, first, [second]);
  }

  lemma TwoArePushed(first: Target, second: Target)
    requires first != second
    ensures PushAll([], [first, second]) == [first, second] && States([first, second]) == [first.1, second.1]
  {
    assert [first, second][1..] == [second] && [second][1..] == [];
    assert PushUnique([], first) == [first] && PushUnique([first], second) == [first, second];
    assert PushAll([first, second], []) == [first, second];
  }

  lemma BranchCollects(world: SourceWorld, target: Type, ty: Type, a: Type, b: Type, first: Target, second: Target)
    requires IsPlainPath(ty) && ty.path.segments != [] && !MatchesMachine(ty.path, target) && WrappedTypes(ty) == [a, b]
    requires IsTarget(target, a, first) && IsTarget(target, b, second) && first != second
    ensures ResolveStrict(world, target, ty) == Some(TransitionContract(first.1, [first.1, second.1]))
  {
    TwoAreCollected(world, target, ty, a, b, first, second);
    TargetIsCollected(world, target, a, first);
    assert Collect(world, target, ty, None, false, {}) == Returned([first, second]);
    assert Primary(world, target, ty, None, false, {}) == Returned(Some(first));
    TwoArePushed(first, second);
    StrictReturns(world, target, ty);
  }

  lemma ResultIsStrict(world: SourceWorld)
    ensures ResolveStrict(world, MachineType("Start"), ResultWithSupers()).Some?
  {
    var target, ty := MachineType("Start"), ResultWithSupers();
    DoneMatches();
    ResultBranches();
    assert Primary(world, target, MachineType("Done"), None, false, {}) == Returned(Some(("M", "Done")));
    assert Primary(world, target, ty, None, false, {}) == Returned(Some(("M", "Done")));
    StrictReturns(world, target, ty);
    PrimaryLeadsCollector(world, target, ty, None, false, {});
    FirstPushed(Collect(world, target, ty, None, false, {}).value);
  }

  lemma SupersMeetPanic(world: SourceWorld, context: AliasContext)
    requires context.modulePath == "a::b"
    ensures MeetsPanic(world, MachineType("Start"), SupersType(), Some(context), {})
  {
    var path := SuperPathPanics(context);
    assert !MatchesMachine(path, MachineType("Start"));
  }

  /** Concrete input, written two modules below the crate root: accepted strictly, and a panic when aliases are followed. */
  lemma SiblingSupersPanic(world: SourceWorld, context: AliasContext)
    requires context.modulePath == "a::b"
    ensures ResolveStrict(world, MachineType("Start"), ResultWithSupers()).Some?
    ensures ResolveFollowing(world, MachineType("Start"), ResultWithSupers(), [context]).Panicked?
  {
    var target, ty := MachineType("Start"), ResultWithSupers();
    ResultIsStrict(world);
    ResultBranches();
    SupersMeetPanic(world, context);
    AliasesNeverShadowWrappers(world, ty, Some(context), {});
    assert MeetsPanic(world, target, WrappedTypes(ty)[1], Some(context), {});
    StrictIsKept(world, target, ty, [context]);
  }

  /** One accepted run of the source's validation on the executable members. */
  method ValidateWritten(world: SourceWorld, target: Type, written: Type, contexts: seq<AliasContext>)
    returns (states: Evaluated<Option<seq<string>>>)
    requires IsPlainPath(target) ==> target.path.segments != []
    ensures states == match ValidateReturnContract(world, target, Some(written), None, false, contexts)
                      case Panicked => Panicked
                      case Returned(None) => Returned(None)
                      case Returned(Some(contract)) => Returned(Some(contract.nextStates))
    ensures states.Returned? && states.value.Some? ==>
              exists k: nat :: k <= |contexts| && StatesOccur(world, target, written, Tried(contexts, k), true, states.value.value)
  {
    var contract := FindContract(world, target, written, contexts);
    if contract.Panicked? {
      return Panicked;
    }
    if contract.value.None? {
      return Returned(None);
    }
    AcceptedContracts(world, target, Some(written), None, false, contexts);
    AcceptedStatesOccur(world, target, written, None, false, contexts);
    return Returned(Some(AllNextStates(contract.value.value)));
  }
}
