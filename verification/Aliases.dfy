/** Source-backed type alias expansion (statum-macros/src/source/aliases.rs). */
module Aliases {
  import opened Common
  import opened TypeSyntax
  import opened Text

  datatype GenericParam = TypeParam(ident: string, default: Option<Type>) | OtherParam

  datatype ItemType = ItemType(ident: string, params: seq<GenericParam>, ty: Type)

  datatype AliasContext = AliasContext(filePath: string, modulePath: string, moduleRoot: string, rootModulePath: string)

  /**
   * What the source files declare: the aliases of one name in one module of one file, and the file
   * of a module. Any finite set of declarations, cyclic or not.
   */
  datatype SourceWorld = SourceWorld(
    aliases: map<(string, string, string), seq<ItemType>>,
    moduleFile: (string, string, string) -> Option<string>)

  /** What a call gives: a value, or a panic that ends the whole macro call. */
  datatype Evaluated<+T> = Returned(value: T) | Panicked

  datatype ResolvedAlias = ResolvedAlias(item: ItemType, context: AliasContext)

  datatype ExpandedAlias = ExpandedAlias(expanded: Type, context: AliasContext, visitKey: string)

  // ---- Module paths ----

  predicate SeparatorAt(s: string, i: nat) {
    i + 1 < |s| && s[i] == ':' && s[i + 1] == ':'
  }

  /** Start of the last `::` at or before position `i - 1`. */
  function LastSeparator(s: string, i: nat): (r: Option<nat>)
    ensures r.Some? ==> r.value < i && SeparatorAt(s, r.value) && forall k :: r.value < k < i ==> !SeparatorAt(s, k)
    ensures r.None? ==> forall k :: 0 <= k < i ==> !SeparatorAt(s, k)
  {
    if i == 0 then None
    else if SeparatorAt(s, i - 1) then Some(i - 1)
    else LastSeparator(s, i - 1)
  }

  function ParentModulePath(modulePath: string): Option<string> {
    if modulePath == "crate" then None
    else match LastSeparator(modulePath, |modulePath|)
      case Some(i) => Some(modulePath[..i])
      case None => Some("crate")
  }

  function ChildModulePath(base: string, child: string): string {
    if base == "crate" then child else base + "::" + child
  }

  function Descend(base: string, names: seq<string>): string {
    if names == [] then base else ChildModulePath(Descend(base, names[..|names| - 1]), names[|names| - 1])
  }

  /** Climbs `n` parents; the crate root has none. */
  function Ascend(modulePath: string, n: nat): Option<string>
    decreases n
  {
    if n == 0 then Some(modulePath)
    else match ParentModulePath(modulePath)
      case None => None
      case Some(parent) => Ascend(parent, n - 1)
  }

  function Idents(segments: seq<PathSegment>): (r: seq<string>)
    ensures |r| == |segments| && forall i :: 0 <= i < |r| ==> r[i] == segments[i].ident
  {
    Map((s: PathSegment) => s.ident, segments)
  }

  /** Number of leading `super` names. */
  function LeadingSupers(names: seq<string>): (n: nat)
    ensures n <= |names| && forall i :: 0 <= i < n ==> names[i] == "super"
    ensures n < |names| ==> names[n] != "super"
  {
    if names == [] || names[0] != "super" then 0 else
      var rest := LeadingSupers(names[1..]);
      assert forall i :: 0 < i < rest + 1 ==> names[i] == names[1..][i - 1];
      assert rest + 1 < |names| ==> names[rest + 1] == names[1..][rest];
      rest + 1
  }

  /** The module an alias path points into; the lookup panics where it takes a slice that starts behind its end. */
  function AliasModulePath(path: Path, context: AliasContext): Evaluated<Option<string>> {
    var names := Idents(path.segments);
    var last := |names| - 1;
    if path.leadingColon || names == [] then Returned(None)
    else if last == 0 then Returned(Some(context.modulePath))
    else if names[0] == "crate" then Returned(Some(Descend(context.rootModulePath, names[1..last])))
    else if names[0] == "self" then Returned(Some(Descend(context.modulePath, names[1..last])))
    else if names[0] == "super" then
      var supers := LeadingSupers(names);
      match Ascend(context.modulePath, supers)
      case None => Returned(None)
      case Some(base) => if supers > last then Panicked else Returned(Some(Descend(base, names[supers..last])))
    else Returned(None)
  }

  lemma ParentOfChild(base: string, child: string)
    requires ':' !in child && ChildModulePath(base, child) != "crate"
    ensures ParentModulePath(ChildModulePath(base, child)) == Some(base)
  {
    var s := ChildModulePath(base, child);
    if base == "crate" {
      assert forall k :: 0 <= k < |s| ==> s[k] != ':' by {
        forall k | 0 <= k < |s| ensures s[k] != ':' { assert s[k] in child; }
      }
    } else {
      assert SeparatorAt(s, |base|);
      forall k | |base| < k < |s| ensures !SeparatorAt(s, k) {
        if k + 1 < |s| { assert s[k + 1] == child[k - |base| - 1] && child[k - |base| - 1] in child; }
      }
      assert s[..|base|] == base;
    }
  }

  ghost predicate PlainNames(names: seq<string>) {
    forall n :: n in names ==> ':' !in n && n != "crate"
  }

  lemma ChildIsNotCrate(base: string, child: string)
    requires child != "crate"
    ensures ChildModulePath(base, child) != "crate"
  {
    if base != "crate" {
      var s := base + "::" + child;
      assert s[|base|] == ':' && s[|base| + 1] == ':';
      assert forall k :: 0 <= k < 5 ==> "crate"[k] != ':';
    }
  }

  /** Climbing as many parents as names descended returns to the start. */
  lemma {:induction false} AscendUndoesDescend(base: string, names: seq<string>)
    requires PlainNames(names)
    ensures Ascend(Descend(base, names), |names|) == Some(base)
    decreases |names|
  {
    if names == [] {
    } else {
      var front, last := names[..|names| - 1], names[|names| - 1];
      assert last in names && forall n :: n in front ==> n in names;
      ChildIsNotCrate(Descend(base, front), last);
      ParentOfChild(Descend(base, front), last);
      AscendUndoesDescend(base, front);
    }
  }

  ghost predicate EndsInName(modulePath: string, name: string) {
    modulePath == name || (|modulePath| >= |name| + 2 && modulePath[|modulePath| - |name| - 2..] == "::" + name)
  }

  /** Climbing from `modulePath` passes the names from the last to the first and then stands at `base`. */
  ghost predicate LeadsFrom(base: string, names: seq<string>, modulePath: string)
    decreases |names|
  {
    if names == [] then modulePath == base
    else
      && EndsInName(modulePath, names[|names| - 1])
      && ParentModulePath(modulePath).Some?
      && LeadsFrom(base, names[..|names| - 1], ParentModulePath(modulePath).value)
  }

  /** The crate root is not written in front of the names, every other base is. */
  ghost predicate BaseIsWritten(base: string, names: seq<string>, modulePath: string) {
    if base == "crate" then names != [] ==> names[0] <= modulePath else base <= modulePath
  }

  lemma ChildEndsInName(base: string, child: string)
    ensures EndsInName(ChildModulePath(base, child), child)
  {
    var s := ChildModulePath(base, child);
    if base != "crate" {
      assert s == base + ("::" + child) && |base| == |s| - |child| - 2;
    }
  }

  lemma {:induction false} DescendWritesBase(base: string, names: seq<string>)
    requires PlainNames(names)
    ensures BaseIsWritten(base, names, Descend(base, names))
    ensures names != [] ==> Descend(base, names) != "crate"
    decreases |names|
  {
    if names == [] {
    } else {
      var front, last := names[..|names| - 1], names[|names| - 1];
      assert last in names && forall n :: n in front ==> n in names;
      DescendWritesBase(base, front);
      ChildIsNotCrate(Descend(base, front), last);
      assert front != [] ==> front[0] == names[0];
    }
  }

  lemma {:induction false} DescendLeadsFrom(base: string, names: seq<string>)
    requires PlainNames(names)
    ensures LeadsFrom(base, names, Descend(base, names))
    decreases |names|
  {
    if names == [] {
    } else {
      var front, last := names[..|names| - 1], names[|names| - 1];
      assert last in names && forall n :: n in front ==> n in names;
      var parent := Descend(base, front);
      ChildIsNotCrate(parent, last);
      ParentOfChild(parent, last);
      ChildEndsInName(parent, last);
      DescendLeadsFrom(base, front);
    }
  }

  /** The path points into the module that the names lead down to from `base`. */
  ghost predicate PointsBelow(path: Path, context: AliasContext, base: string, names: seq<string>) {
    match AliasModulePath(path, context)
    case Returned(Some(modulePath)) => LeadsFrom(base, names, modulePath) && BaseIsWritten(base, names, modulePath)
    case _ => false
  }

  lemma DescendingPointsBelow(path: Path, context: AliasContext, base: string, names: seq<string>)
    requires PlainNames(names) && AliasModulePath(path, context) == Returned(Some(Descend(base, names)))
    ensures PointsBelow(path, context, base, names)
  {
    DescendLeadsFrom(base, names);
    DescendWritesBase(base, names);
  }

  /** Behind `crate` the module names lead from the root, behind `self` from the module itself. */
  lemma RootedPathsLeadDown(path: Path, context: AliasContext)
    requires !path.leadingColon && |path.segments| >= 2 && path.segments[0].ident in ["crate", "self"]
    requires PlainNames(Idents(path.segments)[1..|path.segments| - 1])
    ensures PointsBelow(path, context, if path.segments[0].ident == "crate" then context.rootModulePath else context.modulePath,
                        Idents(path.segments)[1..|path.segments| - 1])
  {
    var base := if path.segments[0].ident == "crate" then context.rootModulePath else context.modulePath;
    DescendingPointsBelow(path, context, base, Idents(path.segments)[1..|path.segments| - 1]);
  }

  predicate StartsWithSuper(path: Path) {
    !path.leadingColon && path.segments != [] && path.segments[0].ident == "super"
  }

  lemma SuperPaths(path: Path, context: AliasContext, supers: nat)
    requires StartsWithSuper(path) && LeadingSupers(Idents(path.segments)) == supers < |path.segments|
    ensures var names := Idents(path.segments);
            var base := Ascend(context.modulePath, supers);
            AliasModulePath(path, context)
            == Returned(if base.None? then None else Some(Descend(base.value, names[supers..|names| - 1])))
  {
    var first := Idents(path.segments)[0];
    assert first[0] == 's' && first[1] == 'u';
  }

  /** `super` once per level of nesting climbs to where the nesting started; the names behind it lead down from there. */
  lemma SupersPointToAncestor(base: string, nested: seq<string>, path: Path, context: AliasContext)
    requires PlainNames(nested) && nested != [] && context.modulePath == Descend(base, nested)
    requires !path.leadingColon && |path.segments| > |nested|
    requires forall i :: 0 <= i < |nested| ==> path.segments[i].ident == "super"
    requires path.segments[|nested|].ident != "super"
    requires PlainNames(Idents(path.segments)[|nested|..|path.segments| - 1])
    ensures PointsBelow(path, context, base, Idents(path.segments)[|nested|..|path.segments| - 1])
  {
    var below := Idents(path.segments)[|nested|..|path.segments| - 1];
    CountsSupers(Idents(path.segments), |nested|);
    assert Ascend(context.modulePath, |nested|) == Some(base) by {
      AscendUndoesDescend(base, nested);
    }
    SuperPaths(path, context, |nested|);
    DescendingPointsBelow(path, context, base, below);
  }

  lemma CountsSupers(names: seq<string>, n: nat)
    requires n < |names| && names[n] != "super" && forall i :: 0 <= i < n ==> names[i] == "super"
    ensures LeadingSupers(names) == n
  {
  }

  /** The path starts with `n` times `super`, and the module has fewer parents. */
  ghost predicate ClimbsOut(path: Path, context: AliasContext, n: nat) {
    && 0 < n <= |path.segments| && Ascend(context.modulePath, n).None?
    && forall i :: 0 <= i < n ==> path.segments[i].ident == "super"
  }

  /** A name alone stands for the current module; a path that starts elsewhere, or climbs out of the crate, for none. */
  lemma UnqualifiedAndForeignPaths(path: Path, context: AliasContext)
    requires path.segments != [] && !path.leadingColon
    ensures |path.segments| == 1 ==> AliasModulePath(path, context) == Returned(Some(context.modulePath))
    ensures |path.segments| > 1 ==>
              (AliasModulePath(path, context) == Returned(None) <==>
               || path.segments[0].ident !in ["crate", "self", "super"]
               || exists n :: ClimbsOut(path, context, n))
  {
    var names := Idents(path.segments);
    var supers := LeadingSupers(names);
    forall n | ClimbsOut(path, context, n)
      ensures 0 < supers && Ascend(context.modulePath, supers).None?
    {
      assert supers < |names| ==> names[supers] == path.segments[supers].ident != "super";
      AscendStops(context.modulePath, n, supers);
    }
    if names[0] == "super" {
      assert names[0][0] == 's' && names[0][1] == 'u';
      assert ClimbsOut(path, context, supers) <==> Ascend(context.modulePath, supers).None?;
    }
  }

  lemma {:induction false} AscendStops(modulePath: string, n: nat, m: nat)
    requires n <= m && Ascend(modulePath, n).None?
    ensures Ascend(modulePath, m).None?
    decreases n
  {
    if ParentModulePath(modulePath).Some? {
      AscendStops(ParentModulePath(modulePath).value, n - 1, m - 1);
    }
  }

  /** The lookup panics exactly on two or more `super` with nothing behind them, when the module has that many parents. */
  lemma PanicsExactly(path: Path, context: AliasContext)
    ensures AliasModulePath(path, context).Panicked? <==>
            && !path.leadingColon && |path.segments| >= 2
            && (forall i :: 0 <= i < |path.segments| ==> path.segments[i].ident == "super")
            && Ascend(context.modulePath, |path.segments|).Some?
  {
  }

  /** Concrete input: `super::super` two modules below the crate root. */
  lemma SuperPathPanics(context: AliasContext) returns (path: Path)
    requires context.modulePath == "a::b"
    ensures path == Path(false, [PathSegment("super", NoArguments), PathSegment("super", NoArguments)])
    ensures AliasModulePath(path, context).Panicked?
  {
    path := Path(false, [PathSegment("super", NoArguments), PathSegment("super", NoArguments)]);
    AscendUndoesDescend("crate", ["a", "b"]);
    assert Descend("crate", ["a", "b"]) == "a::b" by {
      assert ["a", "b"][..1] == ["a"] && ["a"][..0] == [];
      assert Descend("crate", ["a"]) == ChildModulePath(Descend("crate", []), "a") == "a";
      assert Descend("crate", ["a", "b"]) == ChildModulePath("a", "b");
      assert "a" != "crate" by { assert |"crate"| == 5; }
    }
    PanicsExactly(path, context);
  }

  /** The loop over leading `super` names; `index` ends at the first other name. */
  method ClimbSupers(modulePath: string, names: seq<string>) returns (base: Option<string>, index: nat)
    ensures base == Ascend(modulePath, LeadingSupers(names))
    ensures base.Some? ==> index == LeadingSupers(names)
  {
    var current := modulePath;
    index := 0;
    ghost var supers := LeadingSupers(names);
    while index < |names| && names[index] == "super"
      invariant 0 <= index <= supers
      invariant Ascend(current, supers - index) == Ascend(modulePath, supers)
    {
      var parent := ParentModulePath(current);
      if parent.None? {
        return None, index;
      }
      current := parent.value;
      index := index + 1;
    }
    return Some(current), index;
  }

  /** The loop over the module names between the anchor and the alias name. */
  method DescendNames(origin: string, names: seq<string>) returns (base: string)
    ensures base == Descend(origin, names)
  {
    base := origin;
    for i := 0 to |names|
      invariant base == Descend(origin, names[..i])
    {
      assert names[..i + 1][..i] == names[..i];
      base := ChildModulePath(base, names[i]);
    }
    assert names[..|names|] == names;
  }

  method ComputeAliasModulePath(path: Path, context: AliasContext) returns (result: Evaluated<Option<string>>)
    ensures result == AliasModulePath(path, context)
  {
    var names := Idents(path.segments);
    if path.leadingColon || names == [] {
      return Returned(None);
    }
    var last := |names| - 1;
    if last == 0 {
      return Returned(Some(context.modulePath));
    }
    var index, anchor := 1, context.modulePath;
    if names[0] == "crate" {
      anchor := context.rootModulePath;
    } else if names[0] == "super" {
      var climbed;
      climbed, index := ClimbSupers(context.modulePath, names);
      if climbed.None? {
        return Returned(None);
      }
      if index > last {
        return Panicked;
      }
      anchor := climbed.value;
    } else if names[0] != "self" {
      return Returned(None);
    }
    var base := DescendNames(anchor, names[index..last]);
    return Returned(Some(base));
  }

  // ---- Instantiation ----

  function SubstituteAll(subst: map<string, Type>, types: seq<Type>): seq<Type>
    decreases types
  {
    if types == [] then [] else [Substitute(subst, types[0])] + SubstituteAll(subst, types[1..])
  }

  function SubstituteArgs(subst: map<string, Type>, args: seq<GenericArgument>): seq<GenericArgument>
    decreases args
  {
    if args == [] then []
    else [SubstituteArg(subst, args[0])] + SubstituteArgs(subst, args[1..])
  }

  function SubstituteArg(subst: map<string, Type>, arg: GenericArgument): GenericArgument
    decreases arg
  {
    match arg
    case TypeArgument(ty) => TypeArgument(Substitute(subst, ty))
    case OtherArgument(tokens, types) => OtherArgument(tokens, SubstituteAll(subst, types))
  }

  function SubstituteSegments(subst: map<string, Type>, segments: seq<PathSegment>): seq<PathSegment>
    decreases segments
  {
    if segments == [] then []
    else
      [PathSegment(segments[0].ident,
                   match segments[0].arguments
                   case NoArguments => NoArguments
                   case AngleBracketed(args) => AngleBracketed(SubstituteArgs(subst, args))
                   case Parenthesized(inputs) => Parenthesized(SubstituteAll(subst, inputs)))]
      + SubstituteSegments(subst, segments[1..])
  }

  /** Replaces bare parameter names; the replacements themselves are not visited again. */
  function Substitute(subst: map<string, Type>, ty: Type): Type
    decreases ty
  {
    match ty
    case PathType(qself, path) =>
      if StateMarker(ty).Some? && StateMarker(ty).value in subst then subst[StateMarker(ty).value]
      else PathType(match qself case None => None case Some(q) => Some(Substitute(subst, q)),
                    Path(path.leadingColon, SubstituteSegments(subst, path.segments)))
    case OtherType(tokens, children) => OtherType(tokens, SubstituteAll(subst, children))
  }

  /** Binds parameters to the actual arguments in order, then to their defaults; None when one is left unbound. */
  function BindParams(params: seq<GenericParam>, actuals: seq<Type>, used: nat, bound: map<string, Type>)
    : Option<(map<string, Type>, nat)>
    requires used <= |actuals|
  {
    if params == [] then Some((bound, used))
    else match params[0]
      case OtherParam => None
      case TypeParam(ident, default) =>
        if used < |actuals| then BindParams(params[1..], actuals, used + 1, bound[ident := actuals[used]])
        else match default
          case None => None
          case Some(ty) => BindParams(params[1..], actuals, used, bound[ident := ty])
  }

  /** The explicit type arguments, or None when an argument is not a type. */
  function ActualArguments(arguments: PathArguments): Option<seq<Type>> {
    match arguments
    case NoArguments => Some([])
    case Parenthesized(_) => None
    case AngleBracketed(args) =>
      if exists a :: a in args && !a.TypeArgument? then None else Some(TypesAmong(args))
  }

  function InstantiateTypeAlias(item: ItemType, path: Path): Option<Type> {
    if path.segments == [] then None
    else match ActualArguments(LastSegment(path).arguments)
      case None => None
      case Some(actuals) =>
        match BindParams(item.params, actuals, 0, map[])
        case None => None
        case Some((subst, used)) => if used != |actuals| then None else Some(Substitute(subst, item.ty))
  }

  // ---- What instantiation means ----

  /** Every parameter is a type parameter that an argument or a default binds, when `used` of them are bound already. */
  ghost predicate Bindable(params: seq<GenericParam>, used: nat, arguments: nat) {
    forall i :: 0 <= i < |params| ==> params[i].TypeParam? && (used + i < arguments || params[i].default.Some?)
  }

  /** What parameter `i` is bound to. */
  function Binding(param: GenericParam, i: nat, actuals: seq<Type>): Type
    requires param.TypeParam? && (i < |actuals| || param.default.Some?)
  {
    if i < |actuals| then actuals[i] else param.default.value
  }

  ghost predicate DistinctParams(params: seq<GenericParam>) {
    forall i, j :: 0 <= i < j < |params| && params[i].TypeParam? && params[j].TypeParam? ==> params[i].ident != params[j].ident
  }

  lemma {:induction false} BindingSucceeds(params: seq<GenericParam>, actuals: seq<Type>, used: nat, bound: map<string, Type>)
    requires used <= |actuals|
    ensures BindParams(params, actuals, used, bound).Some? <==> Bindable(params, used, |actuals|)
    ensures BindParams(params, actuals, used, bound).Some? ==>
              BindParams(params, actuals, used, bound).value.1 ==
              if used + |params| <= |actuals| then used + |params| else |actuals|
    decreases |params|
  {
    if params == [] || params[0].OtherParam? || (used == |actuals| && params[0].default.None?) {
    } else {
      var rest, ident := params[1..], params[0].ident;
      if used < |actuals| {
        BindingSucceeds(rest, actuals, used + 1, bound[ident := actuals[used]]);
        assert Bindable(params, used, |actuals|) <==> Bindable(rest, used + 1, |actuals|) by {
          assert forall i :: 0 < i < |params| ==> params[i] == rest[i - 1];
          assert forall i :: 0 <= i < |rest| ==> rest[i] == params[i + 1];
        }
      } else {
        BindingSucceeds(rest, actuals, used, bound[ident := params[0].default.value]);
        assert Bindable(params, used, |actuals|) <==> Bindable(rest, used, |actuals|) by {
          assert forall i :: 0 < i < |params| ==> params[i] == rest[i - 1];
          assert forall i :: 0 <= i < |rest| ==> rest[i] == params[i + 1];
        }
      }
    }
  }

  /** An alias instantiates exactly when its arguments are types, none is surplus and every other parameter has a default. */
  lemma InstantiatesExactly(item: ItemType, path: Path)
    ensures InstantiateTypeAlias(item, path).Some? <==>
            && path.segments != []
            && ActualArguments(LastSegment(path).arguments).Some?
            && var n := |ActualArguments(LastSegment(path).arguments).value|;
               n <= |item.params| && Bindable(item.params, 0, n)
  {
    if path.segments != [] && ActualArguments(LastSegment(path).arguments).Some? {
      BindingSucceeds(item.params, ActualArguments(LastSegment(path).arguments).value, 0, map[]);
    }
  }

  lemma {:induction false} BoundStays(params: seq<GenericParam>, actuals: seq<Type>, used: nat, bound: map<string, Type>, name: string)
    requires used <= |actuals| && BindParams(params, actuals, used, bound).Some? && name in bound
    requires forall i :: 0 <= i < |params| && params[i].TypeParam? ==> params[i].ident != name
    ensures var m := BindParams(params, actuals, used, bound).value.0; name in m && m[name] == bound[name]
    decreases |params|
  {
    if params == [] {
    } else {
      var rest, ident := params[1..], params[0].ident;
      assert forall i :: 0 <= i < |rest| ==> rest[i] == params[i + 1];
      if used < |actuals| {
        BoundStays(rest, actuals, used + 1, bound[ident := actuals[used]], name);
      } else {
        BoundStays(rest, actuals, used, bound[ident := params[0].default.value], name);
      }
    }
  }

  /** With distinct parameter names, parameter `i` is bound to argument `i`, or to its own default behind the arguments. */
  lemma {:induction false} BindsInOrder(params: seq<GenericParam>, actuals: seq<Type>, used: nat, bound: map<string, Type>, i: nat)
    requires used <= |actuals| && BindParams(params, actuals, used, bound).Some? && i < |params| && DistinctParams(params)
    ensures params[i].TypeParam? && (used + i < |actuals| || params[i].default.Some?)
    ensures var m := BindParams(params, actuals, used, bound).value.0;
            params[i].ident in m && m[params[i].ident] == Binding(params[i], used + i, actuals)
    decreases |params|
  {
    BindingSucceeds(params, actuals, used, bound);
    var rest, ident := params[1..], params[0].ident;
    assert forall k :: 0 <= k < |rest| ==> rest[k] == params[k + 1];
    var next := if used < |actuals| then used + 1 else used;
    var more := bound[ident := Binding(params[0], used, actuals)];
    assert BindParams(params, actuals, used, bound) == BindParams(rest, actuals, next, more);
    if i == 0 {
      BoundStays(rest, actuals, next, more, ident);
    } else {
      BindsInOrder(rest, actuals, next, more, i - 1);
    }
  }

  /** No bare name from `names` stands anywhere in the type. */
  ghost predicate Untouched(names: set<string>, ty: Type)
    decreases ty
  {
    match ty
    case PathType(qself, path) =>
      && (StateMarker(ty).Some? ==> StateMarker(ty).value !in names)
      && (qself.Some? ==> Untouched(names, qself.value))
      && forall s :: s in path.segments ==> UntouchedArguments(names, s.arguments)
    case OtherType(_, children) => forall c :: c in children ==> Untouched(names, c)
  }

  ghost predicate UntouchedArguments(names: set<string>, arguments: PathArguments)
    decreases arguments
  {
    match arguments
    case NoArguments => true
    case Parenthesized(inputs) => forall t :: t in inputs ==> Untouched(names, t)
    case AngleBracketed(args) =>
      forall a :: a in args ==> UntouchedArgument(names, a)
  }

  ghost predicate UntouchedArgument(names: set<string>, argument: GenericArgument)
    decreases argument
  {
    match argument
    case TypeArgument(ty) => Untouched(names, ty)
    case OtherArgument(_, types) => forall t :: t in types ==> Untouched(names, t)
  }

  /** Substitution keeps every part of a type that does not mention a parameter. */
  lemma {:induction false} SubstituteKeeps(subst: map<string, Type>, ty: Type)
    requires Untouched(subst.Keys, ty)
    ensures Substitute(subst, ty) == ty
    decreases ty
  {
    match ty
    case PathType(qself, path) =>
      if qself.Some? { SubstituteKeeps(subst, qself.value); }
      SubstituteKeepsSegments(subst, path.segments);
    case OtherType(_, children) => SubstituteKeepsAll(subst, children);
  }

  lemma {:induction false} SubstituteKeepsAll(subst: map<string, Type>, types: seq<Type>)
    requires forall t :: t in types ==> Untouched(subst.Keys, t)
    ensures SubstituteAll(subst, types) == types
    decreases types
  {
    if types == [] {
    } else {
      SubstituteKeeps(subst, types[0]);
      SubstituteKeepsAll(subst, types[1..]);
    }
  }

  lemma {:induction false} SubstituteKeepsArg(subst: map<string, Type>, arg: GenericArgument)
    requires UntouchedArgument(subst.Keys, arg)
    ensures SubstituteArg(subst, arg) == arg
    decreases arg
  {
    match arg
    case TypeArgument(ty) => SubstituteKeeps(subst, ty);
    case OtherArgument(tokens, types) => SubstituteKeepsAll(subst, types);
  }

  lemma {:induction false} SubstituteKeepsArgs(subst: map<string, Type>, args: seq<GenericArgument>)
    requires forall a :: a in args ==> UntouchedArgument(subst.Keys, a)
    ensures SubstituteArgs(subst, args) == args
    decreases args
  {
    if args == [] {
    } else {
      assert args[0] in args;
      SubstituteKeepsArg(subst, args[0]);
      SubstituteKeepsArgs(subst, args[1..]);
    }
  }

  lemma {:induction false} SubstituteKeepsSegments(subst: map<string, Type>, segments: seq<PathSegment>)
    requires forall s :: s in segments ==> UntouchedArguments(subst.Keys, s.arguments)
    ensures SubstituteSegments(subst, segments) == segments
    decreases segments
  {
    if segments == [] {
    } else {
      assert segments[0] in segments;
      match segments[0].arguments {
        case NoArguments =>
        case AngleBracketed(args) => SubstituteKeepsArgs(subst, args);
        case Parenthesized(inputs) => SubstituteKeepsAll(subst, inputs);
      }
      SubstituteKeepsSegments(subst, segments[1..]);
    }
  }

  // ---- What substitution means ----

  predicate IsParameter(names: set<string>, ty: Type) {
    StateMarker(ty).Some? && StateMarker(ty).value in names
  }

  /**
   * Position by position, `r` is `ty` with the replacement wherever `ty` has a bare parameter: below
   * a parameter nothing is compared, everywhere else both have the same head.
   */
  ghost predicate Instance(subst: map<string, Type>, ty: Type, r: Type)
    decreases ty
  {
    if IsParameter(subst.Keys, ty) then r == subst[StateMarker(ty).value]
    else match ty
      case PathType(qself, path) =>
        && r.PathType? && r.path.leadingColon == path.leadingColon
        && (qself.None? <==> r.qself.None?) && (qself.Some? ==> Instance(subst, qself.value, r.qself.value))
        && |r.path.segments| == |path.segments|
        && forall i :: 0 <= i < |path.segments| ==>
             r.path.segments[i].ident == path.segments[i].ident
             && InstanceArguments(subst, path.segments[i].arguments, r.path.segments[i].arguments)
      case OtherType(tokens, children) =>
        && r.OtherType? && r.tokens == tokens && |r.children| == |children|
        && forall i :: 0 <= i < |children| ==> Instance(subst, children[i], r.children[i])
  }

  ghost predicate InstanceArguments(subst: map<string, Type>, arguments: PathArguments, r: PathArguments)
    decreases arguments
  {
    match arguments
    case NoArguments => r.NoArguments?
    case AngleBracketed(args) =>
      && r.AngleBracketed? && |r.args| == |args|
      && forall i :: 0 <= i < |args| ==> InstanceArgument(subst, args[i], r.args[i])
    case Parenthesized(inputs) =>
      && r.Parenthesized? && |r.inputs| == |inputs|
      && forall i :: 0 <= i < |inputs| ==> Instance(subst, inputs[i], r.inputs[i])
  }

  ghost predicate InstanceArgument(subst: map<string, Type>, argument: GenericArgument, r: GenericArgument)
    decreases argument
  {
    match argument
    case TypeArgument(ty) => r.TypeArgument? && Instance(subst, ty, r.ty)
    case OtherArgument(tokens, types) =>
      && r.OtherArgument? && r.tokens == tokens && |r.types| == |types|
      && forall i :: 0 <= i < |types| ==> Instance(subst, types[i], r.types[i])
  }

  lemma {:induction false} SubstituteIsInstance(subst: map<string, Type>, ty: Type)
    ensures Instance(subst, ty, Substitute(subst, ty))
    decreases ty
  {
    match ty
    case PathType(qself, path) =>
      if qself.Some? { SubstituteIsInstance(subst, qself.value); }
      SubstituteSegmentsAreInstances(subst, path.segments);
    case OtherType(_, children) => SubstituteAllAreInstances(subst, children);
  }

  lemma {:induction false} SubstituteAllAreInstances(subst: map<string, Type>, types: seq<Type>)
    ensures |SubstituteAll(subst, types)| == |types|
    ensures forall i :: 0 <= i < |types| ==> Instance(subst, types[i], SubstituteAll(subst, types)[i])
    decreases types
  {
    if types == [] {
    } else {
      SubstituteIsInstance(subst, types[0]);
      SubstituteAllAreInstances(subst, types[1..]);
    }
  }

  lemma {:induction false} SubstituteArgIsInstance(subst: map<string, Type>, arg: GenericArgument)
    ensures InstanceArgument(subst, arg, SubstituteArg(subst, arg))
    decreases arg
  {
    match arg
    case TypeArgument(ty) => SubstituteIsInstance(subst, ty);
    case OtherArgument(_, types) => SubstituteAllAreInstances(subst, types);
  }

  lemma {:induction false} SubstituteArgsAreInstances(subst: map<string, Type>, args: seq<GenericArgument>)
    ensures |SubstituteArgs(subst, args)| == |args|
    ensures forall i :: 0 <= i < |args| ==> InstanceArgument(subst, args[i], SubstituteArgs(subst, args)[i])
    decreases args
  {
    if args == [] {
    } else {
      SubstituteArgIsInstance(subst, args[0]);
      SubstituteArgsAreInstances(subst, args[1..]);
    }
  }

  lemma {:induction false} SubstituteSegmentsAreInstances(subst: map<string, Type>, segments: seq<PathSegment>)
    ensures var r := SubstituteSegments(subst, segments);
            |r| == |segments| && forall i :: 0 <= i < |segments| ==>
              r[i].ident == segments[i].ident && InstanceArguments(subst, segments[i].arguments, r[i].arguments)
    decreases segments
  {
    if segments == [] {
    } else {
      match segments[0].arguments {
        case NoArguments =>
        case AngleBracketed(args) => SubstituteArgsAreInstances(subst, args);
        case Parenthesized(inputs) => SubstituteAllAreInstances(subst, inputs);
      }
      SubstituteSegmentsAreInstances(subst, segments[1..]);
    }
  }

  /** A type has one instance at most. */
  lemma {:induction false} InstanceIsUnique(subst: map<string, Type>, ty: Type, a: Type, b: Type)
    requires Instance(subst, ty, a) && Instance(subst, ty, b)
    ensures a == b
    decreases ty
  {
    if IsParameter(subst.Keys, ty) {
    } else {
      match ty
      case PathType(qself, path) =>
        if qself.Some? { InstanceIsUnique(subst, qself.value, a.qself.value, b.qself.value); }
        forall i | 0 <= i < |path.segments| ensures a.path.segments[i] == b.path.segments[i] {
          InstanceArgumentsAreUnique(subst, path.segments[i].arguments, a.path.segments[i].arguments, b.path.segments[i].arguments);
        }
        assert a.path.segments == b.path.segments;
      case OtherType(_, children) => InstancesAreUnique(subst, children, a.children, b.children);
    }
  }

  lemma {:induction false} InstancesAreUnique(subst: map<string, Type>, types: seq<Type>, a: seq<Type>, b: seq<Type>)
    requires |a| == |types| && |b| == |types|
    requires forall i :: 0 <= i < |types| ==> Instance(subst, types[i], a[i]) && Instance(subst, types[i], b[i])
    ensures a == b
    decreases types
  {
    forall i | 0 <= i < |types| ensures a[i] == b[i] {
      InstanceIsUnique(subst, types[i], a[i], b[i]);
    }
  }

  lemma {:induction false} InstanceArgumentsAreUnique(subst: map<string, Type>, arguments: PathArguments, a: PathArguments, b: PathArguments)
    requires InstanceArguments(subst, arguments, a) && InstanceArguments(subst, arguments, b)
    ensures a == b
    decreases arguments
  {
    match arguments
    case NoArguments =>
    case AngleBracketed(args) =>
      forall i | 0 <= i < |args| ensures a.args[i] == b.args[i] {
        InstanceArgumentIsUnique(subst, args[i], a.args[i], b.args[i]);
      }
      assert a.args == b.args;
    case Parenthesized(inputs) => InstancesAreUnique(subst, inputs, a.inputs, b.inputs);
  }

  lemma {:induction false} InstanceArgumentIsUnique(subst: map<string, Type>, argument: GenericArgument, a: GenericArgument, b: GenericArgument)
    requires InstanceArgument(subst, argument, a) && InstanceArgument(subst, argument, b)
    ensures a == b
    decreases argument
  {
    match argument
    case TypeArgument(ty) => InstanceIsUnique(subst, ty, a.ty, b.ty);
    case OtherArgument(_, types) => InstancesAreUnique(subst, types, a.types, b.types);
  }

  /** Substitution gives the one instance of the type. */
  lemma SubstituteGivesInstance(subst: map<string, Type>, ty: Type, r: Type)
    ensures r == Substitute(subst, ty) <==> Instance(subst, ty, r)
  {
    SubstituteIsInstance(subst, ty);
    if Instance(subst, ty, r) {
      InstanceIsUnique(subst, ty, r, Substitute(subst, ty));
    }
  }

  /** No parameter is left over when the replacements mention none. */
  lemma {:induction false} InstanceIsUntouched(subst: map<string, Type>, ty: Type, r: Type)
    requires Instance(subst, ty, r) && forall p :: p in subst ==> Untouched(subst.Keys, subst[p])
    ensures Untouched(subst.Keys, r)
    decreases ty
  {
    if IsParameter(subst.Keys, ty) {
    } else {
      match ty
      case PathType(qself, path) =>
        if qself.Some? { InstanceIsUntouched(subst, qself.value, r.qself.value); }
        forall s | s in r.path.segments ensures UntouchedArguments(subst.Keys, s.arguments) {
          var i :| 0 <= i < |r.path.segments| && r.path.segments[i] == s;
          InstanceArgumentsAreUntouched(subst, path.segments[i].arguments, s.arguments);
        }
        assert IsParameter(subst.Keys, r) ==> IsParameter(subst.Keys, ty);
      case OtherType(_, children) => InstancesAreUntouched(subst, children, r.children);
    }
  }

  lemma {:induction false} InstancesAreUntouched(subst: map<string, Type>, types: seq<Type>, r: seq<Type>)
    requires |r| == |types| && forall i :: 0 <= i < |types| ==> Instance(subst, types[i], r[i])
    requires forall p :: p in subst ==> Untouched(subst.Keys, subst[p])
    ensures forall t :: t in r ==> Untouched(subst.Keys, t)
    decreases types
  {
    forall i | 0 <= i < |types| ensures Untouched(subst.Keys, r[i]) {
      InstanceIsUntouched(subst, types[i], r[i]);
    }
  }

  lemma {:induction false} InstanceArgumentsAreUntouched(subst: map<string, Type>, arguments: PathArguments, r: PathArguments)
    requires InstanceArguments(subst, arguments, r) && forall p :: p in subst ==> Untouched(subst.Keys, subst[p])
    ensures UntouchedArguments(subst.Keys, r)
    decreases arguments
  {
    match arguments
    case NoArguments =>
    case AngleBracketed(args) =>
      forall a | a in r.args ensures UntouchedArgument(subst.Keys, a) {
        var i :| 0 <= i < |r.args| && r.args[i] == a;
        match args[i] {
          case TypeArgument(ty) => InstanceIsUntouched(subst, ty, a.ty);
          case OtherArgument(_, types) => InstancesAreUntouched(subst, types, a.types);
        }
      }
    case Parenthesized(inputs) => InstancesAreUntouched(subst, inputs, r.inputs);
  }

  /** The replacements are those of the parameters: argument `i` for parameter `i`, or its default. */
  ghost predicate Binds(params: seq<GenericParam>, actuals: seq<Type>, subst: map<string, Type>) {
    && Bindable(params, 0, |actuals|)
    && (forall p :: p in subst <==> TypeParamNamed(params, p))
    && forall i :: 0 <= i < |params| && params[i].TypeParam? ==>
         params[i].ident in subst && subst[params[i].ident] == Binding(params[i], i, actuals)
  }

  ghost predicate TypeParamNamed(params: seq<GenericParam>, name: string) {
    exists i :: 0 <= i < |params| && params[i].TypeParam? && params[i].ident == name
  }

  lemma {:induction false} OnlyParamsAreBound(params: seq<GenericParam>, actuals: seq<Type>, used: nat, bound: map<string, Type>)
    requires used <= |actuals| && BindParams(params, actuals, used, bound).Some?
    ensures forall p :: p in BindParams(params, actuals, used, bound).value.0 ==> p in bound || TypeParamNamed(params, p)
    decreases |params|
  {
    if params == [] {
    } else {
      var rest, ident := params[1..], params[0].ident;
      var next := if used < |actuals| then used + 1 else used;
      var value := if used < |actuals| then actuals[used] else params[0].default.value;
      OnlyParamsAreBound(rest, actuals, next, bound[ident := value]);
      assert forall i :: 0 <= i < |rest| ==> rest[i] == params[i + 1];
      forall p | TypeParamNamed(rest, p) ensures TypeParamNamed(params, p) {
        var i :| 0 <= i < |rest| && rest[i].TypeParam? && rest[i].ident == p;
        assert params[i + 1].ident == p;
      }
      assert TypeParamNamed(params, ident);
    }
  }

  lemma BindParamsBinds(params: seq<GenericParam>, actuals: seq<Type>)
    requires BindParams(params, actuals, 0, map[]).Some? && DistinctParams(params)
    ensures Binds(params, actuals, BindParams(params, actuals, 0, map[]).value.0)
  {
    var subst := BindParams(params, actuals, 0, map[]).value.0;
    BindingSucceeds(params, actuals, 0, map[]);
    OnlyParamsAreBound(params, actuals, 0, map[]);
    forall i | 0 <= i < |params| && params[i].TypeParam?
      ensures params[i].ident in subst && subst[params[i].ident] == Binding(params[i], i, actuals)
    {
      BindsInOrder(params, actuals, 0, map[], i);
    }
  }

  /** The path is written with exactly these types as its arguments. */
  ghost predicate WrittenArguments(path: Path, actuals: seq<Type>) {
    && path.segments != []
    && match LastSegment(path).arguments
       case NoArguments => actuals == []
       case Parenthesized(_) => false
       case AngleBracketed(args) =>
         |actuals| == |args| && forall i :: 0 <= i < |args| ==> args[i] == TypeArgument(actuals[i])
  }

  lemma {:induction false} AllTypesAmong(args: seq<GenericArgument>)
    requires forall a :: a in args ==> a.TypeArgument?
    ensures |TypesAmong(args)| == |args|
    ensures forall i :: 0 <= i < |args| ==> args[i] == TypeArgument(TypesAmong(args)[i])
  {
    if args == [] {
    } else {
      assert args[0] in args;
      AllTypesAmong(args[1..]);
    }
  }

  /** `r` is the declared type of the alias with the written arguments, then the defaults, put for its parameters. */
  ghost predicate Instantiates(item: ItemType, path: Path, r: Type, actuals: seq<Type>, subst: map<string, Type>) {
    WrittenArguments(path, actuals) && Binds(item.params, actuals, subst) && Instance(subst, item.ty, r)
  }

  lemma InstantiateGivesInstance(item: ItemType, path: Path) returns (actuals: seq<Type>, subst: map<string, Type>)
    requires InstantiateTypeAlias(item, path).Some? && DistinctParams(item.params)
    ensures Instantiates(item, path, InstantiateTypeAlias(item, path).value, actuals, subst)
    ensures (forall p :: p in subst ==> Untouched(subst.Keys, subst[p])) ==>
              Untouched(subst.Keys, InstantiateTypeAlias(item, path).value)
  {
    actuals := ActualArguments(LastSegment(path).arguments).value;
    if LastSegment(path).arguments.AngleBracketed? {
      AllTypesAmong(LastSegment(path).arguments.args);
    }
    subst := BindParams(item.params, actuals, 0, map[]).value.0;
    BindParamsBinds(item.params, actuals);
    SubstituteIsInstance(subst, item.ty);
    if forall p :: p in subst ==> Untouched(subst.Keys, subst[p]) {
      InstanceIsUntouched(subst, item.ty, InstantiateTypeAlias(item, path).value);
    }
  }

  /** The source's loop over the generic parameters. */
  method Instantiate(item: ItemType, path: Path) returns (result: Option<Type>)
    ensures result == InstantiateTypeAlias(item, path)
    ensures result.Some? && DistinctParams(item.params) ==>
              exists actuals, subst :: Instantiates(item, path, result.value, actuals, subst)
  {
    if path.segments == [] {
      return None;
    }
    var arguments := ActualArguments(LastSegment(path).arguments);
    if arguments.None? {
      return None;
    }
    var actuals := arguments.value;
    var substitutions: map<string, Type> := map[];
    var actualIndex := 0;
    var i := 0;
    while i < |item.params|
      invariant 0 <= i <= |item.params| && actualIndex <= |actuals|
      invariant BindParams(item.params, actuals, 0, map[]) == BindParams(item.params[i..], actuals, actualIndex, substitutions)
    {
      assert item.params[i..][1..] == item.params[i + 1..];
      match item.params[i] {
        case OtherParam => return None;
        case TypeParam(ident, default) =>
          var actual;
          if actualIndex < |actuals| {
            actual := actuals[actualIndex];
            actualIndex := actualIndex + 1;
          } else if default.Some? {
            actual := default.value;
          } else {
            return None;
          }
          substitutions := substitutions[ident := actual];
      }
      i := i + 1;
    }
    if actualIndex != |actuals| {
      return None;
    }
    if DistinctParams(item.params) {
      ghost var _, _ := InstantiateGivesInstance(item, path);
    }
    return Some(Substitute(substitutions, item.ty));
  }

  // ---- Lookup and expansion ----

  function AliasesInModule(world: SourceWorld, file: string, modulePath: string, name: string): (r: seq<ItemType>)
    ensures r != [] ==> (file, modulePath, name) in world.aliases && r == world.aliases[(file, modulePath, name)]
  {
    if (file, modulePath, name) in world.aliases then world.aliases[(file, modulePath, name)] else []
  }

  /** The single declaration a path names, first in the current file, then in the module's own file. */
  function ResolveTypeAlias(world: SourceWorld, path: Path, context: AliasContext): Evaluated<Option<ResolvedAlias>> {
    if path.segments == [] then Returned(None)
    else match AliasModulePath(path, context)
      case Panicked => Panicked
      case Returned(None) => Returned(None)
      case Returned(Some(targetModule)) =>
        var name := LastSegment(path).ident;
        var local := AliasesInModule(world, context.filePath, targetModule, name);
        if |local| == 1 then Returned(Some(ResolvedAlias(local[0], context.(modulePath := targetModule))))
        else if |local| > 1 then Returned(None)
        else match world.moduleFile(targetModule, context.filePath, context.moduleRoot)
          case None => Returned(None)
          case Some(file) =>
            var candidates := AliasesInModule(world, file, targetModule, name);
            if |candidates| != 1 then Returned(None)
            else Returned(Some(ResolvedAlias(candidates[0], context.(filePath := file, modulePath := targetModule))))
  }

  function VisitKey(file: string, modulePath: string, ident: string): string {
    file + "::" + modulePath + "::" + ident
  }

  /** Within one file, declarations of different modules or names have different keys. */
  lemma VisitKeysApart(file: string, m1: string, n1: string, m2: string, n2: string)
    requires ':' !in n1 && ':' !in n2 && VisitKey(file, m1, n1) == VisitKey(file, m2, n2)
    ensures m1 == m2 && n1 == n2
  {
    CutAtColons(file + "::" + m1, n1, file + "::" + m2, n2);
    assert (file + "::" + m1)[|file| + 2..] == m1 && (file + "::" + m2)[|file| + 2..] == m2;
  }

  /** A resolved alias is the only declaration of its name in the module the path points to: in the current file, or in the module's own file when the current one has none. */
  lemma ResolvedAliasIsTheOnlyOne(world: SourceWorld, path: Path, context: AliasContext)
    ensures var r := ResolveTypeAlias(world, path, context);
            r.Returned? && r.value.Some? ==>
              var here := r.value.value.context;
              && path.segments != [] && AliasModulePath(path, context) == Returned(Some(here.modulePath))
              && AliasesInModule(world, here.filePath, here.modulePath, LastSegment(path).ident) == [r.value.value.item]
              && here.moduleRoot == context.moduleRoot && here.rootModulePath == context.rootModulePath
              && (here.filePath != context.filePath ==>
                    && AliasesInModule(world, context.filePath, here.modulePath, LastSegment(path).ident) == []
                    && world.moduleFile(here.modulePath, context.filePath, context.moduleRoot) == Some(here.filePath))
    ensures forall item, m | path.segments != [] && AliasModulePath(path, context) == Returned(Some(m))
              && AliasesInModule(world, context.filePath, m, LastSegment(path).ident) == [item] ::
              ResolveTypeAlias(world, path, context) == Returned(Some(ResolvedAlias(item, context.(modulePath := m))))
  {
  }

  /** Every key an expansion can add to the visited set. */
  ghost function VisitKeys(world: SourceWorld): set<string> {
    set place, item | place in world.aliases && item in world.aliases[place] :: VisitKey(place.0, place.1, item.ident)
  }

  /** One expansion step; None when nothing applies or the alias is already being expanded. */
  function Expand(world: SourceWorld, ty: Type, context: Option<AliasContext>, visited: set<string>)
    : (r: Evaluated<Option<ExpandedAlias>>)
    ensures r.Panicked? || r.value.Some? ==> context.Some? && IsPlainPath(ty) && !ty.path.leadingColon
    ensures r.Returned? && r.value.Some? ==> r.value.value.visitKey in VisitKeys(world) && r.value.value.visitKey !in visited
    ensures r.Panicked? <==> context.Some? && IsPlainPath(ty) && AliasModulePath(ty.path, context.value).Panicked?
  {
    if context.None? || !IsPlainPath(ty) then Returned(None)
    else match ResolveTypeAlias(world, ty.path, context.value)
      case Panicked => Panicked
      case Returned(None) => Returned(None)
      case Returned(Some(resolved)) =>
        var key := VisitKey(resolved.context.filePath, resolved.context.modulePath, resolved.item.ident);
        if key in visited then Returned(None)
        else match InstantiateTypeAlias(resolved.item, ty.path)
          case None => Returned(None)
          case Some(expanded) => Returned(Some(ExpandedAlias(expanded, resolved.context, key)))
  }

  /** An expansion is the instance of the one declaration the path names, and is marked under that declaration's key. */
  lemma ExpandsToInstance(world: SourceWorld, ty: Type, context: AliasContext, visited: set<string>) returns (item: ItemType)
    requires Expand(world, ty, Some(context), visited).Returned? && Expand(world, ty, Some(context), visited).value.Some?
    ensures var e := Expand(world, ty, Some(context), visited).value.value;
            && ResolveTypeAlias(world, ty.path, context) == Returned(Some(ResolvedAlias(item, e.context)))
            && e.visitKey == VisitKey(e.context.filePath, e.context.modulePath, item.ident)
            && (DistinctParams(item.params) ==>
                  exists actuals, subst :: Instantiates(item, ty.path, e.expanded, actuals, subst))
  {
    item := ResolveTypeAlias(world, ty.path, context).value.value.item;
    if DistinctParams(item.params) {
      var _, _ := InstantiateGivesInstance(item, ty.path);
    }
  }
}
