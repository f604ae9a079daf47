/** The part of Rust's type syntax that transition targets are read from, and the queries of transition/resolve/shape.rs. */
module TypeSyntax {
  import opened Common

  datatype Type =
    | PathType(qself: Option<Type>, path: Path)
    | OtherType(tokens: string, children: seq<Type>)

  datatype Path = Path(leadingColon: bool, segments: seq<PathSegment>)

  datatype PathSegment = PathSegment(ident: string, arguments: PathArguments)

  datatype PathArguments =
    | NoArguments
    | AngleBracketed(args: seq<GenericArgument>)
    | Parenthesized(inputs: seq<Type>)

  /** Lifetimes, constants and bindings keep their tokens and the types inside them. */
  datatype GenericArgument = TypeArgument(ty: Type) | OtherArgument(tokens: string, types: seq<Type>)

  datatype SupportedWrapper = OptionWrapper | ResultWrapper | BranchWrapper

  type Target = (string, string)

  predicate IsPlainPath(ty: Type) {
    ty.PathType? && ty.qself.None?
  }

  function LastSegment(path: Path): PathSegment
    requires path.segments != []
  {
    path.segments[|path.segments| - 1]
  }

  // ---- Matching the impl target machine ----

  predicate MachineGenericArgumentsMatch(candidate: PathArguments, target: PathArguments) {
    && candidate.AngleBracketed? && target.AngleBracketed?
    && |candidate.args| == |target.args| && candidate.args != []
    && candidate.args[0].TypeArgument? && target.args[0].TypeArgument?
    && candidate.args[1..] == target.args[1..]
  }

  predicate SegmentsMatchTarget(candidate: seq<PathSegment>, target: seq<PathSegment>) {
    && |candidate| == |target|
    && forall i :: 0 <= i < |candidate| ==>
         candidate[i].ident == target[i].ident &&
         if i == |candidate| - 1 then MachineGenericArgumentsMatch(candidate[i].arguments, target[i].arguments)
         else candidate[i].arguments == target[i].arguments
  }

  predicate SelfQualifiedMatches(candidate: Path, target: Path) {
    && !candidate.leadingColon && !target.leadingColon
    && candidate.segments != []
    && candidate.segments[0] == PathSegment("self", NoArguments)
    && SegmentsMatchTarget(candidate.segments[1..], target.segments)
  }

  predicate PathMatchesTarget(candidate: Path, target: Path) {
    || (candidate.leadingColon == target.leadingColon && SegmentsMatchTarget(candidate.segments, target.segments))
    || SelfQualifiedMatches(candidate, target)
  }

  /** The candidate path names the target machine, whatever its state argument. */
  predicate MatchesMachine(candidate: Path, target: Type) {
    IsPlainPath(target) && candidate.segments != [] && PathMatchesTarget(candidate, target.path)
  }

  // ---- Wrappers ----

  predicate MatchesAbsolutePath(path: Path, expected: seq<string>) {
    && path.leadingColon
    && |path.segments| == |expected|
    && forall i :: 0 <= i < |expected| ==>
         path.segments[i].ident == expected[i] && (i + 1 == |expected| || path.segments[i].arguments.NoArguments?)
  }

  function Wrapper(path: Path): Option<SupportedWrapper> {
    if MatchesAbsolutePath(path, ["core", "option", "Option"]) || MatchesAbsolutePath(path, ["std", "option", "Option"]) then
      Some(OptionWrapper)
    else if MatchesAbsolutePath(path, ["core", "result", "Result"]) || MatchesAbsolutePath(path, ["std", "result", "Result"]) then
      Some(ResultWrapper)
    else if MatchesAbsolutePath(path, ["statum", "Branch"]) || MatchesAbsolutePath(path, ["statum_core", "Branch"]) then
      Some(BranchWrapper)
    else None
  }

  // ---- Generic arguments ----

  function TypesAmong(args: seq<GenericArgument>): (r: seq<Type>)
    ensures forall t :: t in r <==> TypeArgument(t) in args
  {
    if args == [] then []
    else (if args[0].TypeArgument? then [args[0].ty] else []) + TypesAmong(args[1..])
  }

  /** The type arguments of a segment; a segment without any has none to offer. */
  function GenericTypes(arguments: PathArguments): seq<Type> {
    if arguments.AngleBracketed? then TypesAmong(arguments.args) else []
  }

  /** Every type of the list is a proper part of `whole`. */
  ghost predicate PartsOf(types: seq<Type>, whole: Type) {
    forall i :: 0 <= i < |types| ==> types[i] < whole
  }

  lemma TypeArgumentsAreParts(ty: Type)
    requires ty.PathType? && ty.path.segments != []
    ensures PartsOf(GenericTypes(LastSegment(ty.path).arguments), ty)
  {
    var last := LastSegment(ty.path);
    var types := GenericTypes(last.arguments);
    forall i | 0 <= i < |types| ensures types[i] < ty {
      assert TypeArgument(types[i]) in last.arguments.args && last in ty.path.segments;
    }
  }

  /** The branches of a supported wrapper that may hold a target: the first for `Option`, all for the others. */
  function WrappedTypes(ty: Type): (types: seq<Type>)
    requires ty.PathType? && ty.path.segments != []
    ensures PartsOf(types, ty)
  {
    TypeArgumentsAreParts(ty);
    var types := GenericTypes(LastSegment(ty.path).arguments);
    match Wrapper(ty.path)
    case None => []
    case Some(OptionWrapper) => if types == [] then [] else [types[0]]
    case Some(_) => types
  }

  function StateMarker(ty: Type): Option<string> {
    if IsPlainPath(ty) && !ty.path.leadingColon && |ty.path.segments| == 1 && ty.path.segments[0].arguments.NoArguments? then
      Some(ty.path.segments[0].ident)
    else None
  }

  /** The machine name and the state named by its first type argument. */
  function MachineState(segment: PathSegment): Option<Target> {
    var types := GenericTypes(segment.arguments);
    if types == [] then None
    else match StateMarker(types[0])
      case Some(state) => Some((segment.ident, state))
      case None => None
  }

  /** Every path that matches the machine ends in the target's own name. */
  lemma MatchedNameIsTargetName(candidate: Path, target: Type)
    requires MatchesMachine(candidate, target) && target.path.segments != []
    ensures LastSegment(candidate).ident == LastSegment(target.path).ident
  {
    if SelfQualifiedMatches(candidate, target.path) {
      var rest := candidate.segments[1..];
      assert rest[|rest| - 1] == LastSegment(candidate);
    }
  }

  // ---- What the queries mean ----

  /** The bare name as a type. */
  function NameType(name: string): Type {
    PathType(None, Path(false, [PathSegment(name, NoArguments)]))
  }

  ghost predicate FirstTypeArgument(arguments: PathArguments, i: nat) {
    && arguments.AngleBracketed? && i < |arguments.args| && arguments.args[i].TypeArgument?
    && forall j :: 0 <= j < i ==> !arguments.args[j].TypeArgument?
  }

  /** The machine's name, and the state that its first type argument names without a path or arguments. */
  ghost predicate NamesState(segment: PathSegment, found: Target) {
    found.0 == segment.ident
    && exists i: nat :: FirstTypeArgument(segment.arguments, i) && segment.arguments.args[i] == TypeArgument(NameType(found.1))
  }

  /** `::core::option::Option` or `::std::option::Option`. */
  ghost predicate IsOption(path: Path) {
    && path.leadingColon && |path.segments| == 3
    && path.segments[0] in {PathSegment("core", NoArguments), PathSegment("std", NoArguments)}
    && path.segments[1] == PathSegment("option", NoArguments) && path.segments[2].ident == "Option"
  }

  /** `::core::result::Result` or `::std::result::Result`. */
  ghost predicate IsResult(path: Path) {
    && path.leadingColon && |path.segments| == 3
    && path.segments[0] in {PathSegment("core", NoArguments), PathSegment("std", NoArguments)}
    && path.segments[1] == PathSegment("result", NoArguments) && path.segments[2].ident == "Result"
  }

  /** `::statum::Branch` or `::statum_core::Branch`. */
  ghost predicate IsBranch(path: Path) {
    && path.leadingColon && |path.segments| == 2
    && path.segments[0] in {PathSegment("statum", NoArguments), PathSegment("statum_core", NoArguments)}
    && path.segments[1].ident == "Branch"
  }

  ghost predicate IsWrapper(path: Path) {
    IsOption(path) || IsResult(path) || IsBranch(path)
  }

  /** Argument `i` of the path is a type that may hold a target: the first of an `Option`, any of a `Result` or `Branch`. */
  ghost predicate BranchAt(path: Path, i: nat) {
    && path.segments != []
    && var arguments := LastSegment(path).arguments;
       && arguments.AngleBracketed? && i < |arguments.args| && arguments.args[i].TypeArgument?
       && (IsResult(path) || IsBranch(path) || (IsOption(path) && FirstTypeArgument(arguments, i)))
  }

  ghost function Branch(ty: Type, i: nat): (branch: Type)
    requires ty.PathType? && BranchAt(ty.path, i)
    ensures branch < ty
  {
    var last := LastSegment(ty.path);
    assert last in ty.path.segments && last.arguments.args[i] in last.arguments.args;
    last.arguments.args[i].ty
  }

  lemma ThreeNames(path: Path, a: string, b: string, c: string)
    ensures MatchesAbsolutePath(path, [a, b, c]) <==>
            && path.leadingColon && |path.segments| == 3
            && path.segments[0] == PathSegment(a, NoArguments) && path.segments[1] == PathSegment(b, NoArguments)
            && path.segments[2].ident == c
  {
    var names := [a, b, c];
    assert names[0] == a && names[1] == b && names[2] == c;
  }

  lemma TwoNames(path: Path, a: string, b: string)
    ensures MatchesAbsolutePath(path, [a, b]) <==>
            && path.leadingColon && |path.segments| == 2
            && path.segments[0] == PathSegment(a, NoArguments) && path.segments[1].ident == b
  {
    var names := [a, b];
    assert names[0] == a && names[1] == b;
  }

  /** The supported wrappers are exactly the six rooted paths. */
  lemma WrapperMeans(path: Path)
    ensures Wrapper(path) == Some(OptionWrapper) <==> IsOption(path)
    ensures Wrapper(path) == Some(ResultWrapper) <==> IsResult(path)
    ensures Wrapper(path) == Some(BranchWrapper) <==> IsBranch(path)
  {
    ThreeNames(path, "core", "option", "Option");
    ThreeNames(path, "std", "option", "Option");
    ThreeNames(path, "core", "result", "Result");
    ThreeNames(path, "std", "result", "Result");
    TwoNames(path, "statum", "Branch");
    TwoNames(path, "statum_core", "Branch");
    assert "option"[0] == 'o' && "result"[0] == 'r';
  }

  lemma {:induction false} FirstAmong(args: seq<GenericArgument>)
    ensures TypesAmong(args) != [] <==> exists i: nat :: FirstTypeArgument(AngleBracketed(args), i)
    ensures forall i: nat :: FirstTypeArgument(AngleBracketed(args), i) ==> TypesAmong(args)[0] == args[i].ty
  {
    if args == [] {
    } else if args[0].TypeArgument? {
      assert FirstTypeArgument(AngleBracketed(args), 0) && AngleBracketed(args).args[0].TypeArgument?;
    } else {
      var rest := args[1..];
      FirstAmong(rest);
      forall i: nat | FirstTypeArgument(AngleBracketed(args), i)
        ensures i > 0 && FirstTypeArgument(AngleBracketed(rest), i - 1) && args[i] == rest[i - 1]
      {
        assert i > 0 && forall j :: 0 <= j < i - 1 ==> rest[j] == args[j + 1];
      }
      forall i: nat | FirstTypeArgument(AngleBracketed(rest), i) ensures FirstTypeArgument(AngleBracketed(args), i + 1) {
        assert forall j :: 0 < j < i + 1 ==> args[j] == rest[j - 1];
      }
    }
  }

  lemma MachineStateMeans(segment: PathSegment, found: Target)
    ensures MachineState(segment) == Some(found) <==> NamesState(segment, found)
  {
    if segment.arguments.AngleBracketed? {
      FirstAmong(segment.arguments.args);
      StateMarkerMeans(segment.arguments, found.1);
    }
  }

  lemma StateMarkerMeans(arguments: PathArguments, name: string)
    ensures forall i: nat :: FirstTypeArgument(arguments, i) ==>
              (StateMarker(arguments.args[i].ty) == Some(name) <==> arguments.args[i].ty == NameType(name))
  {
    forall i: nat | FirstTypeArgument(arguments, i)
      ensures StateMarker(arguments.args[i].ty) == Some(name) <==> arguments.args[i].ty == NameType(name)
    {
      var ty := arguments.args[i].ty;
      if StateMarker(ty) == Some(name) {
        assert ty.path.segments == [PathSegment(name, NoArguments)];
      }
    }
  }

  /** The types a wrapper is searched in are exactly its branches. */
  lemma WrappedTypesMeans(ty: Type, t: Type)
    requires ty.PathType? && ty.path.segments != []
    ensures t in WrappedTypes(ty) <==> exists i :: BranchAt(ty.path, i) && Branch(ty, i) == t
  {
    WrapperMeans(ty.path);
    var arguments := LastSegment(ty.path).arguments;
    if IsWrapper(ty.path) && arguments.AngleBracketed? {
      FirstAmong(arguments.args);
      if IsOption(ty.path) {
        assert forall i: nat :: FirstTypeArgument(arguments, i) ==> BranchAt(ty.path, i);
      } else {
        assert t in WrappedTypes(ty) <==> TypeArgument(t) in arguments.args;
        assert forall i :: 0 <= i < |arguments.args| && arguments.args[i] == TypeArgument(t) ==> BranchAt(ty.path, i);
      }
    }
  }

  // ---- What matching the machine means ----

  /** The path with `ty` as the first argument behind its last name. */
  ghost function WithFirstArgument(path: Path, ty: Type): Path
    requires HasFirstArgument(path)
  {
    var n := |path.segments| - 1;
    var last := path.segments[n];
    path.(segments := path.segments[n := last.(arguments := AngleBracketed(last.arguments.args[0 := TypeArgument(ty)]))])
  }

  ghost predicate HasFirstArgument(path: Path) {
    && path.segments != []
    && var arguments := LastSegment(path).arguments;
       arguments.AngleBracketed? && arguments.args != [] && arguments.args[0].TypeArgument?
  }

  /** With its first argument exchanged for the target's, the candidate is the target. */
  ghost predicate SameButState(candidate: Path, target: Path) {
    && HasFirstArgument(candidate) && HasFirstArgument(target)
    && WithFirstArgument(candidate, LastSegment(target).arguments.args[0].ty) == target
  }

  lemma SegmentsMatchMeans(candidate: Path, target: Path)
    requires candidate.segments != [] && target.segments != [] && candidate.leadingColon == target.leadingColon
    ensures SegmentsMatchTarget(candidate.segments, target.segments) <==> SameButState(candidate, target)
  {
    var n := |candidate.segments| - 1;
    if SegmentsMatchTarget(candidate.segments, target.segments) {
      var a, b := candidate.segments[n].arguments.args, target.segments[n].arguments.args;
      assert a[1..] == b[1..] && a[0 := b[0]] == [b[0]] + a[1..] && b == [b[0]] + b[1..];
      var exchanged := WithFirstArgument(candidate, b[0].ty);
      assert forall i :: 0 <= i <= n ==> exchanged.segments[i] == target.segments[i];
      assert exchanged.segments == target.segments;
    }
    if SameButState(candidate, target) {
      var a, b := LastSegment(candidate).arguments.args, LastSegment(target).arguments.args;
      var exchanged := WithFirstArgument(candidate, b[0].ty);
      assert |target.segments| == n + 1 && target.segments[n] == exchanged.segments[n];
      assert b == a[0 := b[0]] && b[1..] == a[1..];
      assert forall i :: 0 <= i < n ==> candidate.segments[i] == exchanged.segments[i];
    }
  }

  /** A path matches the target machine exactly when it differs in the first argument only, `self::` in front or not. */
  lemma MatchesMachineMeans(candidate: Path, target: Type)
    requires IsPlainPath(target) && target.path.segments != []
    ensures MatchesMachine(candidate, target) <==>
            || SameButState(candidate, target.path)
            || (candidate.segments != [] && candidate.segments[0] == PathSegment("self", NoArguments)
                && !candidate.leadingColon && SameButState(candidate.(segments := candidate.segments[1..]), target.path))
  {
    if candidate.segments != [] {
      var rest := candidate.(segments := candidate.segments[1..]);
      if candidate.leadingColon == target.path.leadingColon {
        SegmentsMatchMeans(candidate, target.path);
        if rest.segments != [] {
          SegmentsMatchMeans(rest, target.path);
        }
      }
    }
  }
}
