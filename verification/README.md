# Statum, modelled and verified

Statum is a Rust typestate framework. This project models its algorithmic core in Dafny and proves
what the code promises, for all inputs, all graphs and all runs.

- **Graphs** (`Graph`, `Paths`, `GraphPath`, `Walks`, `StableMetadata`, `Matrix`). A depth-first path
  check, a bounded enumerator of legal walks and a breadth-first search over string-named metadata are
  proved to agree on reachability. The enumerator is exact for every bound, and its default bound is
  shown to be enough. The lints and the Markdown matrix are characterised by what they mean.
- **Sources** (`Text`, `Lexer`, `TokenTree`, `ModuleRanges`, `Declarations`, `LineMap`,
  `ModulePathCache`). A hand-written tokenizer feeds two block-stack scanners; both refine a recursive
  reading of token trees. The per-line module map built on them gives the innermost open module, and the
  fingerprint caches in front of it never answer differently from a fresh parse, as long as equal
  fingerprints of one file mean equal content.
- **Transition targets** (`TypeSyntax`, `Aliases`, `TargetResolution`). Resolution follows type aliases
  through a shared visited set; it terminates on cyclic aliases and its two traversals agree. What
  strict resolution accepts, alias-following resolution accepts too, or it panics under an exact condition.
- **Projections and rebuilds** (`Projection`, `Rehydrate`, `OrderStore`). Grouped folding equals folding
  each key alone, errors included; the three emitted rebuild methods agree; and the event-sourced order
  store behaves, over every run, like the typed transitions applied directly.
- **Scheduling** (`JobRunner`). The retrying job runner with virtual time terminates, and exactly when it
  succeeds is proved for all inputs.
- **Identifiers and snapshots** (`StableHash`, `SnapshotDiff`). The FNV-1a hash behind slice names and the
  comparison of graph snapshots.

`Common` holds shared datatypes and sequence facts, `Sorting` the stable sort. Code that works by
changing things step by step is modelled by methods and classes, each proved against a function; the
properties are lemmas about those functions. `dafny verify dfyconfig.toml` checks the whole project.

Six places where the code does not meet the most obvious statement of its purpose:

- A matrix cell reads "forbidden" when no transition joins the pair, but also when its only transition is
  itself labelled or named `forbidden`. `Matrix.ForbiddenCell` is the exact condition,
  `Matrix.ForbiddenIsAmbiguous` the input.
- `run_until_idle` fails with a corrupt state for a "flaky" job with a single attempt, and for a retried
  job whose first retry falls due at or before time zero. `JobRunner.JobRunner.RunUntilIdle` shows that it
  succeeds exactly when there is no such job; `JobRunner.SingleAttemptFlakyFails` and
  `JobRunner.RetryAtTimeZeroFails` are the inputs.
- A job whose payload is not understood fails at once; with attempts left over, it is stored in a row that no
  validator accepts. `JobRunner.FinalRowsRehydrate` is the exact condition,
  `JobRunner.UnsupportedPayloadIsLost` the input.
- A missing-incoming finding comes without an unreachable finding when a later state repeats the first state's
  name: `StableMetadata.MissingIncomingIsUnreachable` is the condition,
  `StableMetadata.RepeatedFirstNameIsReachable` the input.
- The snapshot diff names edges by a key that is ambiguous for names that are not identifiers. Applied as a
  patch to all triples of names, the report gives the edges of the second snapshot if and only if no edge
  left afterwards has the key of a removed one and no triple that is no edge afterwards has the key of an
  added one (`SnapshotDiff.EdgePatchIsExact`). `SnapshotDiff.EdgeReportCanMislead` and
  `SnapshotDiff.AddedKeyCanStray` are inputs that fail the one and the other.
- The module of an alias path made only of `super` is looked up with a slice that starts behind its end.
  `Aliases.PanicsExactly` is the condition, `Aliases.SuperPathPanics` the input. Because the collector visits
  every branch of a wrapper, such a path in a branch that strict resolution passes over makes
  alias-following resolution panic: `TargetResolution.StrictIsKept` is the exact condition,
  `TargetResolution.SiblingSupersPanic` the input.

The model takes these as given: Unicode's alphabetic and alphanumeric tables (any tables in which a line
break is not alphanumeric), the file system (a map from paths to contents and fingerprints that changes
between lookups), path normalisation, the base module of a file, the finite set of declared aliases, and
the files of modules.

## Model

| member | source | states |
|---|---|---|
| `GraphPath.GraphHasPath` | statum-core/src/testing/graph.rs:290-321 | true exactly when both ends are declared and the target is reachable by zero or more edges, on any graph; terminates on cycles although states repeat on the stack |
| `GraphPath.PushCandidates` | statum-core/src/testing/graph.rs:313-319 | pushes, transition by transition and last first, exactly the targets of the state that are not visited yet |
| `GraphPath.ExhaustedSearchMissesTarget` | statum-core/src/testing/graph.rs:301-320 | when the stack runs empty without a hit, the target cannot be reached |
| `Walks.Expansion.Expand` | statum-core/src/testing/walks.rs:94-132 | the recursive expansion with its shared stack appends exactly the walks of the reference enumeration and leaves the stack as it was |
| `Walks.Expansion.ExpandTargets` | statum-core/src/testing/walks.rs:113-130 | the push, expand, pop loop over the targets of one transition, against the same enumeration |
| `Walks.Enumerate` | statum-core/src/testing/walks.rs:136-152 | the iterator starts the expansion only for a declared start state and returns the whole enumeration |
| `Walks.AllWalksExact` | statum-core/src/testing/walks.rs:94-142 | a walk is listed if and only if it starts at the start state, is within the bound, takes only legal steps, never leaves a terminal state and respects the empty-walk flag |
| `Walks.PrefixOrder` | statum-core/src/testing/walks.rs:94-142 | a prefix of a listed walk that is itself listable is listed at an earlier position |
| `Walks.WalksListedOnce` | statum-core/src/testing/walks.rs:94-142 | with distinct transition ids and duplicate-free targets no walk is listed twice |
| `Walks.StepsJoinBack` | statum-core/src/introspection/recording.rs:51-69 | with distinct transition ids each step of a listed walk, recorded as a transition, joins back to the descriptor it was taken from |
| `Walks.DefaultDepthSuffices` | statum-core/src/testing/walks.rs:54-66 | on a closed graph the default depth of states minus one ends a walk at a target exactly when the target is reachable: cycle removal and a pigeonhole argument |
| `Walks.WalksAgreeWithPathCheck` | statum-core/src/testing/graph.rs:290-321 | the path check answers true exactly when the default enumeration ends a walk at the target |
| `StableMetadata.ReachableStateNames` | statum-core/src/introspection/stable_metadata.rs:439-465 | the breadth-first search lists, once each, exactly the names reachable from the first state |
| `StableMetadata.AppendTargets` | statum-core/src/introspection/stable_metadata.rs:449-461 | one search step adds exactly the declared, unseen targets of the source |
| `StableMetadata.LintGraphInvariants` | statum-core/src/introspection/stable_metadata.rs:334-405 | the findings of all four lints in their order, with reachability taken from its definition and not from the search |
| `StableMetadata.UnreachableFindingMeans` | statum-core/src/introspection/stable_metadata.rs:390-402 | a name has an unreachable finding exactly when it is a later name that cannot be reached from the first state |
| `StableMetadata.TransitionFindingMeans` | statum-core/src/introspection/stable_metadata.rs:340-370 | a terminal-state or self-transition finding is reported exactly when a transition leaves a state that sounds terminal, in any letter case, or leads back to its source |
| `StableMetadata.TerminalLikeMeans` | statum-core/src/introspection/stable_metadata.rs:550-560 | a name sounds terminal exactly when it ends in one of five words or is one of two more, in any case |
| `StableMetadata.MissingIncomingFindingMeans` | statum-core/src/introspection/stable_metadata.rs:372-388 | a name has a missing-incoming finding exactly when it is a later name no transition targets |
| `StableMetadata.MissingIncomingIsUnreachable` | statum-core/src/introspection/stable_metadata.rs:372-402 | on any metadata a missing-incoming finding comes with an unreachable finding exactly when the name is not the first state's own |
| `StableMetadata.RepeatedFirstNameIsReachable` | statum-core/src/introspection/stable_metadata.rs:372-402 | concrete metadata on which the missing-incoming finding comes alone |
| `StableMetadata.LoweringPreservesReachability` | statum-core/src/introspection/stable_metadata.rs:479-543 | for closed graphs with unique ids and names, a name is reachable in the lowered metadata exactly when its state is reachable in the typed graph |
| `StableMetadata.UnreachableLintIsExact` | statum-core/src/introspection/stable_metadata.rs:390-402 | on a lowered graph the unreachable lint fires exactly on the later states the typed graph cannot reach |
| `StableMetadata.LoweredMissingIncomingIsUnreachable` | statum-core/src/introspection/stable_metadata.rs:372-402 | on a lowered graph every missing-incoming finding comes with an unreachable finding |
| `Matrix.BuildCells` | statum-core/src/introspection/stable_metadata.rs:259-275 | each cell holds, in order, one entry per occurrence of its target in a transition of its source |
| `Matrix.EmptyCellMeansNoTransition` | statum-core/src/introspection/stable_metadata.rs:265-275 | a cell is empty exactly when no transition joins its two states |
| `Matrix.EntriesTotal` | statum-core/src/introspection/stable_metadata.rs:265-275 | over all cells the entries add up to the (transition, target) occurrences whose two ends are declared |
| `Matrix.EscapeMarkdownTableCell` | statum-core/src/introspection/stable_metadata.rs:609-620 | the escaping loop equals the character-wise escape |
| `Matrix.EscapeIsNeutral` | statum-core/src/introspection/stable_metadata.rs:609-620 | an escaped label adds no unescaped pipe and no line break and leaves no escape open, whatever it contains |
| `Matrix.ToTransitionMatrixTable` | statum-core/src/introspection/stable_metadata.rs:277-326 | the printed text is the header, separator and row lines in order |
| `Matrix.MatrixShape` | statum-core/src/introspection/stable_metadata.rs:277-326 | whatever the labels contain, the text splits into states plus two lines with states plus two unescaped pipes each |
| `Matrix.TableReadsBack` | statum-core/src/introspection/stable_metadata.rs:277-326 | splitting the text into lines, the lines at their unescaped pipes and resolving the escapes gives back every label but for line breaks: target states in the header, the source state before each row, and the transitions of each pair in its cell |
| `Matrix.UnescapeUndoesEscape` | statum-core/src/introspection/stable_metadata.rs:609-620 | escaping loses nothing but line breaks, which become spaces |
| `Matrix.ForbiddenCell` | statum-core/src/introspection/stable_metadata.rs:304-321 | a cell reads "forbidden" exactly when it is empty or its only entry is itself shown as "forbidden" |
| `Matrix.ForbiddenIsAmbiguous` | statum-core/src/introspection/stable_metadata.rs:304-321 | a concrete graph on which a cell with a transition reads "forbidden" |
| `Lexer.TokenizeSource` | statum-macros/src/source/scan.rs:13-113 | for every text the tokenizer loop returns the tokens of the reference lexer, each with the line of its first character; where tokens start and literals end is characterised by `Lexer.TokenStarts`, `Lexer.TriviaEnds` and `Lexer.IdentifierEnds` |
| `Lexer.TokensAreOrdered` | statum-macros/src/source/scan.rs:13-113 | every step strictly advances: tokens do not overlap and lie within the text |
| `Lexer.TokenLines` | statum-macros/src/source/scan.rs:13-113 | token lines never go back, start at 1 and stay within the line count of the text |
| `Lexer.SkipBlockComment` | statum-macros/src/source/scan.rs:124-151 | the index returned is where the reference says (`Lexer.BlockCommentEndMeans`), and the line counter moves by the newlines skipped |
| `Lexer.BlockCommentEndMeans` | statum-macros/src/source/scan.rs:124-151 | the depth counter ends a comment where the grammar of nested comments does, and at the end of the text when no whole comment starts there |
| `Lexer.SkipQuotedLiteral` | statum-macros/src/source/scan.rs:153-189 | the index returned lies just past the first terminator behind an even run of backslashes, or at the end of a text without one; the line counter moves by the newlines skipped |
| `Lexer.QuotedEndMeans` | statum-macros/src/source/scan.rs:153-189 | the end of a quoted literal is the one position behind the first terminator with an even run of backslashes in front, or the end of the text |
| `Lexer.SkipRawStringLiteral` | statum-macros/src/source/scan.rs:191-236 | the index returned is where the reference says (`Lexer.RawEndMeans`), and the line counter moves by the newlines skipped |
| `Lexer.RawEndMeans` | statum-macros/src/source/scan.rs:191-236 | a raw string ends behind the first quote that is followed by all its hash signs, or with the text |
| `Lexer.IsCharLiteralStart` | statum-macros/src/source/scan.rs:238-265 | the loop computes the character-literal heuristic (`Lexer.CharLiteralFromMeans`) |
| `Lexer.CharLiteralFromMeans` | statum-macros/src/source/scan.rs:238-265 | a quote starts a character literal exactly when an unescaped quote follows before any line break and any whitespace that is not escaped |
| `Lexer.ReadIdentifier` | statum-macros/src/source/scan.rs:288-310 | identifiers extend as far as identifier characters go |
| `Lexer.ScanLexeme` | statum-macros/src/source/scan.rs:17-110 | one step of the main loop: which lexeme starts here, where it ends and which line follows |
| `Lexer.TokenStarts` | statum-macros/src/source/scan.rs:17-110 | a token starts exactly at a bracket, a bang or the first character of an identifier that does not begin a string, byte, raw or character literal |
| `Lexer.TriviaEnds` | statum-macros/src/source/scan.rs:17-110 | where comments, strings, raw strings and character literals end, by how they start; any other character is passed over alone |
| `Lexer.IdentifierEnds` | statum-macros/src/source/scan.rs:288-310 | an identifier takes every identifier character it can, behind an `r#` that has a name to mark |
| `TokenTree.BalancedIsForest` | statum-macros/src/source/parser/module_ranges.rs:35-174 | a token sequence is bracket-balanced exactly when it is some token tree written out |
| `TokenTree.AnnouncedMatchesClassify` | statum-macros/src/source/parser/module_ranges.rs:45-110 | what the scanners' lookahead announced for a bracket is what the two tokens before it say about the group |
| `ModuleRanges.ScanInlineModuleRanges` | statum-macros/src/source/parser/module_ranges.rs:35-174 | the block-stack loop equals the stack machine, and on every balanced sequence returns the sorted modules of the recursive token-tree reading |
| `ModuleRanges.ScanCollectsModules` | statum-macros/src/source/parser/module_ranges.rs:35-174 | from any outer state, scanning a token tree records exactly its modules, none inside macro bodies, and restores the stack |
| `ModuleRanges.OpaqueBodyIsIgnored` | statum-macros/src/source/parser/module_ranges.rs:67-159 | inside a macro body the scanner records nothing and its state comes back unchanged |
| `ModuleRanges.ScannerReadsModules` | statum-macros/src/source/parser/module_ranges.rs:35-174 | over a whole balanced sequence the recorded ranges are the modules of the recursive reading |
| `ModuleRanges.SortRangesSorts` | statum-macros/src/source/parser/module_ranges.rs:172-173 | the final sort is a permutation ordered by depth, then start line |
| `Sorting.SortBySorts` | cargo-statum/src/main.rs:770-776 | the sort gives an ordered permutation, for any total preorder |
| `Sorting.SortIsStable` | statum-macros/src/source/parser/module_ranges.rs:172-173 | elements that tie keep their order |
| `ModuleRanges.ModuleBounds` | statum-macros/src/source/parser/module_ranges.rs:35-174 | a module lies within the lines of its surrounding group and its path properly extends the path around it |
| `ModuleRanges.LaminarModules` | statum-macros/src/source/parser/module_ranges.rs:35-174 | when lines do not go back, any two modules are nested or apart |
| `ModuleRanges.ParentIsListed` | statum-macros/src/source/parser/module_ranges.rs:102-122 | a nested module's path is the path of a listed enclosing module plus its own name |
| `Declarations.ScanDeclarationLines` | statum-macros/src/source/analysis/declarations.rs:11-118 | the sibling loop equals its stack machine, and on every balanced sequence records the reference lines |
| `Declarations.ScanRecordsLines` | statum-macros/src/source/analysis/declarations.rs:11-124 | where items are allowed, scanning a token tree records exactly the keywords whose enclosing blocks are all inline modules |
| `Declarations.ScannerReadsDeclarations` | statum-macros/src/source/analysis/declarations.rs:11-124 | the same for a whole balanced sequence |
| `Declarations.OtherBodyIsIgnored` | statum-macros/src/source/analysis/declarations.rs:11-124 | inside any block that is not a module nothing is recorded, whatever is nested in it |
| `LineMap.AddLineRange` | statum-macros/src/source/parser/line_map.rs:30-44 | exactly the lines within the range and the file gain one coverage |
| `LineMap.Resolve` | statum-macros/src/source/parser/line_map.rs:46-80 | the loops compute the resolution whose meaning is `LineMap.ResolvesExactly` |
| `LineMap.DominantCoverage` | statum-macros/src/source/parser/line_map.rs:46-80 | a single deepest path without a closing line on it decides the line |
| `LineMap.ResolvesExactly` | statum-macros/src/source/parser/line_map.rs:46-80 | whatever covers a line, the first deepest coverage decides it if all coverages of that depth share its path and, when its module closes there, all coverages do; otherwise the line is ambiguous |
| `LineMap.OnlyUncoveredLinesAreUnset` | statum-macros/src/source/parser/line_map.rs:46-50 | a line is unset exactly when nothing covers it |
| `LineMap.RangeCoverage` | statum-macros/src/source/parser/line_map.rs:30-44 | a module covers its lines up to the one before its closing brace, and its closing line only when it is its only line |
| `LineMap.BuildLineModulePaths` | statum-macros/src/source/parser/line_map.rs:12-28 | the whole pipeline computes one entry per line of the text |
| `LineMap.FirstOpenIsInnermost` | statum-macros/src/source/parser/line_map.rs:46-80 | in a laminar list the first listed module open on a line is the innermost one |
| `LineMap.LineMapIsInnermost` | statum-macros/src/source/parser/mod.rs:17-39 | for every text with balanced tokens and every line where no module opens or closes, the lookup names the innermost open module: the base, unless it is the crate root, with the module names behind it in order, so that climbing passes each name and returns to the base; or it gives the base module when none is open |
| `ModulePathCache.Caches.FindModulePath` | statum-macros/src/source/module_path.rs:42-69 | the cached lookup changes the caches and answers as its transition function on cache states says; over fresh caches the answer names the innermost open module, by climbing, not by composition |
| `ModulePathCache.Caches.ClearLineCacheForFile` | statum-macros/src/source/cache.rs:48-52 | exactly the entries of the file are dropped |
| `ModulePathCache.Caches.CachedLine` | statum-macros/src/source/cache.rs:54-73 | an entry counts only under the same fingerprint |
| `ModulePathCache.Caches.StoreLineResult` | statum-macros/src/source/cache.rs:75-90 | stores one entry and changes no other |
| `ModulePathCache.Caches.GetOrParseFileModules` | statum-macros/src/source/cache.rs:105-131 | a file is parsed again exactly when its fingerprint changed |
| `ModulePathCache.FindIsFresh` | statum-macros/src/source/module_path.rs:42-69 | if versions of one path with one fingerprint give the same answers, one lookup answers like a fresh parse and keeps every cache entry true |
| `ModulePathCache.LookupGivesInnermost` | statum-macros/src/source/module_path.rs:42-69 | whatever the caches hold from earlier lookups, the answer names the innermost open module of the current content below the base module of the file |
| `ModulePathCache.FreshCachesGiveInnermost` | statum-macros/src/source/module_path.rs:42-69 | over empty caches the same without any condition on fingerprints |
| `ModulePathCache.CacheNeverStale` | statum-macros/src/source/module_path.rs:42-69 | if equal fingerprints of one file mean equal content, then from empty caches, over every interleaving of rewrites, removals and lookups, every answer is the fresh one |
| `ModulePathCache.FreshExactlyWhenAgreeing` | statum-macros/src/source/module_path.rs:42-69 | over a set of file versions, every run is answered as by fresh parses if and only if versions of one path with one fingerprint give the same answer on every line |
| `ModulePathCache.CollidingFingerprintsGoStale` | statum-macros/src/source/cache.rs:54-73 | when a version with the same fingerprint takes the place of one that was looked up, the second answer is still the first version's, and the fresh one is the second's |
| `ModulePathCache.UnreadableDisagrees` | statum-macros/src/source/cache.rs:105-131 | two concrete versions with one fingerprint whose answers differ |
| `ModulePathCache.FindLeavesOtherFiles` | statum-macros/src/source/cache.rs:48-52 | a lookup of one file leaves every other file's entries alone |
| `Aliases.ComputeAliasModulePath` | statum-macros/src/source/aliases.rs:202-246 | the loops over `super` and module names compute climbing then descending; a path made only of `super` panics |
| `Aliases.PanicsExactly` | statum-macros/src/source/aliases.rs:225-243 | the lookup panics exactly on two or more `super` with nothing behind them, without leading `::`, when the module has that many parents |
| `Aliases.SuperPathPanics` | statum-macros/src/source/aliases.rs:225-243 | a concrete path on which it does |
| `Aliases.AscendUndoesDescend` | statum-macros/src/source/aliases.rs:248-265 | climbing as many parents as names were descended returns to the start |
| `Aliases.SupersPointToAncestor` | statum-macros/src/source/aliases.rs:202-246 | `super` once per nesting level climbs to the module the nesting started from, and the names behind it lead down from there |
| `Aliases.RootedPathsLeadDown` | statum-macros/src/source/aliases.rs:212-246 | behind `crate` the module names lead down from the root, behind `self` from the current module |
| `Aliases.UnqualifiedAndForeignPaths` | statum-macros/src/source/aliases.rs:202-246 | a name alone stands for the current module; a longer path has no module exactly when it starts with another name or climbs out of the crate |
| `Aliases.Instantiate` | statum-macros/src/source/aliases.rs:267-319 | the parameter loop binds arguments, then defaults, and fails on a missing or surplus argument; with distinct parameters the result is, position by position, the declared type with argument i, or its default, for parameter i |
| `Aliases.InstantiatesExactly` | statum-macros/src/source/aliases.rs:267-319 | an alias instantiates exactly when its arguments are types, none is surplus and every other parameter has a default |
| `Aliases.BindsInOrder` | statum-macros/src/source/aliases.rs:288-312 | with distinct names, parameter i is bound to argument i, or to its own default behind the arguments |
| `Aliases.SubstituteKeeps` | statum-macros/src/source/aliases.rs:82-99 | substitution keeps every part of a type that mentions no parameter |
| `Aliases.SubstituteGivesInstance` | statum-macros/src/source/aliases.rs:82-99 | substitution gives exactly the one type that has the replacement wherever the original has a bare parameter and the same head everywhere else, as a relation on positions |
| `Aliases.InstanceIsUntouched` | statum-macros/src/source/aliases.rs:82-99 | no parameter is left over when the replacements mention none |
| `Aliases.InstantiateGivesInstance` | statum-macros/src/source/aliases.rs:267-319 | an instantiated alias is that instance under the written arguments, then the defaults |
| `Aliases.ResolvedAliasIsTheOnlyOne` | statum-macros/src/source/aliases.rs:160-200 | a resolved alias is the only declaration of its name in the module the path points to, in the current file or, when that has none, in the module's own file; a single declaration in the current file is found |
| `Aliases.VisitKeysApart` | statum-macros/src/source/aliases.rs:321-346 | within a file, declarations of different modules or names have different visit keys |
| `Aliases.Expand` | statum-macros/src/source/aliases.rs:321-346 | a successful expansion uses up a visit key of the finite world that was not visited before, and never applies to a path with a leading `::`; an expansion panics exactly where the module lookup does |
| `Aliases.ExpandsToInstance` | statum-macros/src/source/aliases.rs:321-346 | an expansion is the instance of the resolved declaration, marked under that declaration's key |
| `TargetResolution.Resolver.ExpandSourceTypeAlias` | statum-macros/src/source/aliases.rs:321-346 | the visited set gains the alias exactly when the expansion succeeds; a panic of the lookup is passed on before any mark |
| `TargetResolution.Resolver.ParsePrimary` | statum-macros/src/transition/resolve/strategy.rs:67-121 | terminates on cyclic aliases by (aliases not visited, type size); computes the primary target or panics, and leaves the visited set as it found it unless it panics |
| `TargetResolution.Resolver.CollectTargets` | statum-macros/src/transition/resolve/strategy.rs:162-229 | the same measure and visited set; panics where the reference collection does, and otherwise appends the new targets in traversal order, so that the list gains exactly the targets that stand in the type |
| `TargetResolution.Resolver.CollectFrom` | statum-macros/src/transition/resolve/strategy.rs:213-226 | the loop over the branches of a wrapper |
| `TargetResolution.CollectsExactly` | statum-macros/src/transition/resolve/strategy.rs:162-229 | a target is collected if and only if it stands in the type: in a path that matches the machine, in the first type argument of `Option` or any of `Result` and `Branch`, the six wrapper paths written out, or in what an alias stands for |
| `TargetResolution.PrimaryExactly` | statum-macros/src/transition/resolve/strategy.rs:67-121 | the primary target is exactly the one the type leads to through the first type argument of each wrapper and through aliases |
| `TargetResolution.BranchResolvesBoth` | statum-macros/src/transition/resolve/strategy.rs:213-226 | `::statum::Branch` of two targets resolves both, the first as the primary one |
| `TypeSyntax.WrapperMeans` | statum-macros/src/transition/resolve/shape.rs:138-170 | the supported wrappers are exactly six rooted paths |
| `TypeSyntax.WrappedTypesMeans` | statum-macros/src/transition/resolve/strategy.rs:205-228 | the types a wrapper is searched in are the first type argument of an `Option` and every type argument of a `Result` or `Branch` |
| `TypeSyntax.MachineStateMeans` | statum-macros/src/transition/resolve/shape.rs:172-210 | the machine is the last name of the path and the state what its first type argument names without a path or arguments |
| `TypeSyntax.MatchesMachineMeans` | statum-macros/src/transition/resolve/shape.rs:36-128 | a path matches the target machine exactly when exchanging its first argument gives the target, with or without `self::` in front |
| `TargetResolution.PushAllKeeps` | statum-macros/src/transition/resolve/strategy.rs:231-237 | unique pushing keeps the list duplicate-free and holds exactly the found targets |
| `TargetResolution.PrimaryLeadsCollector` | statum-macros/src/transition/resolve/strategy.rs:67-229 | if the primary parser finds a target, the collector meets that target first |
| `TargetResolution.CollectedMachineName` | statum-macros/src/transition/resolve/shape.rs:46-107 | every collected target carries the target machine's own name |
| `TargetResolution.AliasesNeverShadowWrappers` | statum-macros/src/source/aliases.rs:202-205 | no alias applies to a path written like a supported wrapper |
| `TargetResolution.CollectPanicsExactly` | statum-macros/src/transition/resolve/strategy.rs:162-229 | the collector panics exactly when it comes to a path whose module lookup panics: the type itself, an expansion, or any branch of a wrapper |
| `TargetResolution.ResolutionPanicIsMet` | statum-macros/src/transition/contract/targets.rs:202-216 | resolution in a context panics only where the collector comes to such a path |
| `TargetResolution.NoContextNeverPanics` | statum-macros/src/transition/resolve/strategy.rs:143-229 | without a context nothing is looked up, so nothing panics |
| `TargetResolution.StrictPrimaryIsKept` | statum-macros/src/transition/resolve/strategy.rs:35-121 | what the strict parser finds, the alias-following parser finds in every context, without a panic |
| `TargetResolution.StrictTargetsAreKept` | statum-macros/src/transition/resolve/strategy.rs:143-229 | every strictly collected target is collected in every alias context in which the collector comes to no panicking path; in the others it panics |
| `TargetResolution.FindContract` | statum-macros/src/transition/contract/targets.rs:175-200 | the candidate contexts are tried in order, then none; the first contract or panic ends the search |
| `TargetResolution.ResolvedIsPrimaryFirst` | statum-macros/src/transition/contract/targets.rs:202-216 | a resolved contract lists each state once with the primary first |
| `TargetResolution.ResolvesPrimary` | statum-macros/src/transition/contract/targets.rs:202-216 | resolution in a context succeeds exactly when the type leads to a target and the collector does not panic, and that target is the primary one |
| `TargetResolution.FollowingIsFirst` | statum-macros/src/source/aliases.rs:38-50 | the answer is that of the first context that does not come back empty-handed |
| `TargetResolution.AcceptedStatesOccur` | statum-macros/src/transition/contract/targets.rs:102-173 | the states of every accepted contract are exactly those of the targets that stand in the written type, and with an annotation also in the annotation |
| `TargetResolution.AnnotationMustAgree` | statum-macros/src/transition/contract/targets.rs:102-173 | an annotation is accepted exactly when following aliases in the written type gives the same contract |
| `TargetResolution.AllNextStatesIsList` | statum-macros/src/contracts.rs:74-84 | `all_next_states` equals `next_states` exactly when the primary leads the list and is not repeated |
| `TargetResolution.AcceptedContracts` | statum-macros/src/transition/contract/targets.rs:102-173 | every accepted return contract, in every mode, meets that condition |
| `TargetResolution.StrictIsKept` | statum-macros/src/transition/contract/targets.rs:175-216 | what strict resolution accepts, alias-following resolution accepts with the same primary state and at least the same states, if and only if the collector comes to no panicking path in the context tried first; otherwise it panics |
| `TargetResolution.SiblingSupersPanic` | statum-macros/src/transition/resolve/strategy.rs:213-226 | a concrete return type that is accepted strictly and panics when aliases are followed |
| `TargetResolution.ValidateWritten` | statum-macros/src/contracts.rs:74-84 | the executable pipeline: `all_next_states` of an accepted written type is its resolved state list, which holds exactly the states that stand in the type in some context tried, and a panic is passed on |
| `Projection.ReduceOne` | statum-core/src/projection.rs:101-120 | the fold of one stream, first event seeding |
| `Projection.ReduceGrouped` | statum-core/src/projection.rs:126-164 | Ok: keys in first-seen order, each with the fold of its own events; Err: the error of the group whose failing event comes earliest in the stream |
| `Projection.GroupFailsSomewhere` | statum-core/src/projection.rs:126-164 | a group's fold fails exactly when one of its events is a failing event of the whole stream |
| `Projection.GroupKeepsFirstError` | statum-core/src/projection.rs:126-164 | the error reported at the failing event is the error of the whole group's fold |
| `Projection.GroupedFailsWhenSomeGroupFails` | statum-core/src/projection.rs:126-164 | the grouped fold fails exactly when the fold of some key's events fails |
| `Projection.GroupedResultIsUnique` | statum-core/src/projection.rs:126-164 | the per-key folds determine the grouped result |
| `Rehydrate.Build` | statum-macros/src/validators/emission/into_machine.rs:156-162 | returns the state of the first accepting validator |
| `Rehydrate.BuildReport` | statum-macros/src/validators/emission/into_machine.rs:90-107 | the result is that of `build`, and the attempts are exactly those up to the first match |
| `Rehydrate.Explain` | statum-macros/src/validators/emission/into_machine.rs:109-142 | records every validator and reports ambiguity exactly with more than one match |
| `Rehydrate.AttemptsTellWhy` | statum-macros/src/validators/emission/checks.rs:150-282 | an attempt is matched exactly when its validator accepts, and carries the rejection exactly when that validator reports one |
| `Rehydrate.PickStored` | statum-macros/src/validators/emission/checks.rs:283-309 | the finalizer arms pick the stored machine of the single matched state |
| `Rehydrate.ExplainAgreesWithBuild` | statum-macros/src/validators/emission/into_machine.rs:90-162 | `explain` is Ok exactly when one validator accepts, then equal to `build`; it is unambiguous with an error exactly when `build` fails |
| `Rehydrate.OneMatchIsOnly` | statum-macros/src/validators/emission/checks.rs:204-267 | one matched state means exactly one validator accepts |
| `OrderStore.OrderEventStore.Create` | statum-examples/src/showcases/sqlite_event_log_rebuild.rs:349-357 | input checks, fresh id and the appended created event |
| `OrderStore.OrderEventStore.PayOrder` | statum-examples/src/showcases/sqlite_event_log_rebuild.rs:359-378 | input check, replayed state, phase check and the appended event, in that order |
| `OrderStore.OrderEventStore.PackOrder` | statum-examples/src/showcases/sqlite_event_log_rebuild.rs:380-399 | the same for packing |
| `OrderStore.OrderEventStore.ShipOrder` | statum-examples/src/showcases/sqlite_event_log_rebuild.rs:401-420 | the same for shipping |
| `OrderStore.OrderEventStore.DeliverOrder` | statum-examples/src/showcases/sqlite_event_log_rebuild.rs:422-439 | the same for delivery |
| `OrderStore.OrderEventStore.Load` | statum-examples/src/showcases/sqlite_event_log_rebuild.rs:441-451 | folds the order's events and rebuilds the row |
| `OrderStore.OrderEventStore.LoadAll` | statum-examples/src/showcases/sqlite_event_log_rebuild.rs:453-462 | one grouped fold over all events, then every row rebuilt |
| `OrderStore.ReplayGivesRow` | statum-examples/src/showcases/sqlite_event_log_rebuild.rs:567-622 | replaying the events the transitions to a state wrote gives that state's row |
| `OrderStore.RowRebuildsState` | statum-examples/src/showcases/sqlite_event_log_rebuild.rs:157-263 | the five validators rebuild from a state's row exactly that state |
| `OrderStore.RowsRebuildExactly` | statum-examples/src/showcases/sqlite_event_log_rebuild.rs:157-263 | whatever a row holds, it rebuilds to a state exactly when it is that state's own row and the state's ids and texts are acceptable |
| `OrderStore.ReplayMeans` | statum-examples/src/showcases/sqlite_event_log_rebuild.rs:567-622 | any stream at all replays exactly when it is one created event with both names followed by later events with their payloads, to the row with the first event's names, the last event's type and the last payload of each type; everything else is a corrupt log |
| `OrderStore.LoadMeans` | statum-examples/src/showcases/sqlite_event_log_rebuild.rs:441-451 | loading an order from any log gives the state whose row its events tell, when they are well formed and the state is acceptable; NotFound exactly when it has no event |
| `OrderStore.NextIdIsFresh` | statum-examples/src/showcases/sqlite_event_log_rebuild.rs:464-470 | the next id is one more than the number of orders |
| `OrderStore.StepCommutes` | statum-examples/src/showcases/sqlite_event_log_rebuild.rs:349-439 | every command, valid, blank or out of phase, gets the same reply from the store and from the typed transitions applied directly, and keeps the two in step |
| `OrderStore.StoreRepliesLikeDirect` | statum-examples/src/showcases/sqlite_event_log_rebuild.rs:349-462 | over every run from an empty store, all replies are those of the direct transitions |
| `OrderStore.LogsArePhasePrefixes` | statum-examples/src/showcases/sqlite_event_log_rebuild.rs:349-439 | after every run each order's log is a prefix of created, paid, packed, shipped, delivered |
| `OrderStore.LoadIsDirectState` | statum-examples/src/showcases/sqlite_event_log_rebuild.rs:441-451 | after every run `load_state` gives the state the direct transitions reached |
| `OrderStore.StoreNeverCorrupt` | statum-examples/src/showcases/sqlite_event_log_rebuild.rs:535-565 | over every run no reply reports a corrupt log |
| `OrderStore.LoadAllIsLoadEach` | statum-examples/src/showcases/sqlite_event_log_rebuild.rs:453-462 | after every run `load_all_states` is `load_state` mapped over the orders in creation order |
| `JobRunner.NextRunnable` | statum-examples/src/showcases/tokio_sqlite_job_runner.rs:504-532 | the selected row is runnable and has the least availability, among equals the least id; None only when nothing is runnable |
| `JobRunner.NextRetryAt` | statum-examples/src/showcases/tokio_sqlite_job_runner.rs:534-547 | the least availability of the retrying rows |
| `JobRunner.RebuiltByStatus` | statum-examples/src/showcases/tokio_sqlite_job_runner.rs:148-256 | a queued or retrying row is decided by its own validator alone |
| `JobRunner.JobRunner.Enqueue` | statum-examples/src/showcases/tokio_sqlite_job_runner.rs:383-425 | exact acceptance condition, the stored row and the error of each rejected input |
| `JobRunner.JobRunner.NextLeaseToken` | statum-examples/src/showcases/tokio_sqlite_job_runner.rs:586-589 | the sequence number grows by one and is written into the token |
| `JobRunner.JobRunner.RunNext` | statum-examples/src/showcases/tokio_sqlite_job_runner.rs:431-452 | exactly one row changes: a "flaky" first attempt or a failed attempt that is not the last is put off to exactly one second later with its own error text and cannot run before, anything else leaves the final row; errors and idleness change nothing |
| `JobRunner.JobRunner.RunUntilIdle` | statum-examples/src/showcases/tokio_sqlite_job_runner.rs:454-473 | after any calls before, it terminates; it succeeds exactly when no row is stuck at the start; then every job has its final row; executions are counted by used attempts and bounded by the sum of the maxima; attempts stay within the maximum, time never goes back, leases are kept and distinct |
| `JobRunner.JobRunner.RunRound` | statum-examples/src/showcases/tokio_sqlite_job_runner.rs:455-470 | one round keeps what is stuck, the jobs and the issued leases, and uses an attempt, waits, ends or fails |
| `JobRunner.PerformAll` | statum-examples/src/showcases/tokio_sqlite_job_runner.rs:383-473 | every sequence of enqueue, advance, run-next and run-until-idle calls ends, with one lease per used attempt, distinct leases and every job within its attempts |
| `JobRunner.FreshJobsAreNotStuck` | statum-examples/src/showcases/tokio_sqlite_job_runner.rs:591-623 | fresh jobs at a time from zero on are not stuck when every "flaky" one has a second attempt |
| `JobRunner.DoomedJobsAreAccepted` | statum-examples/src/showcases/tokio_sqlite_job_runner.rs:591-623 | two accepted jobs that are stuck from the start: one attempt too few, or a retry due at time zero |
| `JobRunner.SingleAttemptFlakyFails` | statum-examples/src/showcases/tokio_sqlite_job_runner.rs:454-473 | enqueueing the first and running until idle gives the corrupt-state error |
| `JobRunner.RetryAtTimeZeroFails` | statum-examples/src/showcases/tokio_sqlite_job_runner.rs:454-473 | enqueueing the second at the matching time and running until idle gives the same error |
| `JobRunner.WaitingRehydrates` | statum-examples/src/showcases/tokio_sqlite_job_runner.rs:190-211 | a waiting row rehydrates exactly when an attempt is left and it falls due after time zero |
| `JobRunner.OneExecution` | statum-examples/src/showcases/tokio_sqlite_job_runner.rs:591-623 | an execution keeps the job on its path, uses up one attempt and makes no row stuck or unstuck |
| `JobRunner.ExecutionMeans` | statum-examples/src/showcases/tokio_sqlite_job_runner.rs:591-623 | an executed row either waits until exactly one second later with the error of its attempt, or is the job's final row; which of the two is decided by payload and attempts |
| `JobRunner.FinalRowsRehydrate` | statum-examples/src/showcases/tokio_sqlite_job_runner.rs:213-256 | a final row rehydrates exactly when its payload was understood or the first attempt was the only one |
| `JobRunner.UnsupportedPayloadIsLost` | statum-examples/src/showcases/tokio_sqlite_job_runner.rs:213-256 | an accepted job whose final row no validator accepts |
| `JobRunner.RowsRebuildExactly` | statum-examples/src/showcases/tokio_sqlite_job_runner.rs:148-256 | any row rebuilds to a state exactly when that state is stored so |
| `JobRunner.ExecutionKeepsKnown` | statum-examples/src/showcases/tokio_sqlite_job_runner.rs:431-452 | executing a selected row keeps every row one that calls can leave, and uses one attempt in all |
| `JobRunner.IdleMeansFinal` | statum-examples/src/showcases/tokio_sqlite_job_runner.rs:454-473 | when nothing is queued or retrying, every job has its final row and none is stuck |
| `JobRunner.LeaseTextInjective` | statum-examples/src/showcases/tokio_sqlite_job_runner.rs:586-589 | equal tokens were issued under the same sequence number at the same time |
| `JobRunner.LeasesAreDistinct` | statum-examples/src/showcases/tokio_sqlite_job_runner.rs:586-589 | no two handed-out tokens are equal |
| `StableHash.ComputeHash` | statum-macros/src/machine/introspection.rs:53-60 | the byte loop computes the fold |
| `StableHash.PublishedValues` | statum-macros/src/machine/introspection.rs:53-60 | the published FNV-1a values of the empty text, "a", "f" and "fo", which pin the basis, the prime and the order of the two operations |
| `StableHash.XorBits` | statum-macros/src/machine/introspection.rs:53-60 | a bit of the exclusive or is set exactly where the numbers differ |
| `StableHash.XorTwice` | statum-macros/src/machine/introspection.rs:53-60 | exclusive or with the same byte undoes itself |
| `StableHash.StepIsBijection` | statum-macros/src/machine/introspection.rs:53-60 | each round of FNV-1a (section 2 of draft-eastlake-fnv) is a bijection on the 64-bit states |
| `StableHash.HashIsBijection` | statum-macros/src/machine/introspection.rs:53-60 | hashing fixed bytes permutes the states |
| `StableHash.CommonEndingIsIrrelevant` | statum-macros/src/transition/emit.rs:471-478 | a common ending neither creates nor removes a collision |
| `StableHash.OneByteNeverCollides` | statum-macros/src/machine/introspection.rs:53-60 | two keys of equal length that differ in exactly one byte never collide |
| `StableHash.HexInjective` | statum-macros/src/machine/introspection.rs:35-50 | sixteen hexadecimal digits identify a 64-bit number |
| `StableHash.OneByteNamesApart` | statum-macros/src/machine/introspection.rs:26-51 | such keys also give different slice identifiers, of either kind |
| `StableHash.NearbyLinesNamedApart` | statum-macros/src/machine/introspection.rs:26-51 | one machine in one file gets different identifiers on two lines that differ in the last decimal digit only |
| `StableHash.KindsNamedApart` | statum-macros/src/machine/introspection.rs:26-51 | no transition slice is named like a presentation slice |
| `StableHash.NearbySitesNamedApart` | statum-macros/src/transition/emit.rs:447-469 | transition sites that differ only in the last digit of their index have different suffixes |
| `SnapshotDiff.EdgeKeys` | cargo-statum/src/main.rs:853-865 | the edge set, each edge once |
| `SnapshotDiff.FindRepeat` | cargo-statum/src/main.rs:824-851 | indexing reports the first name that repeats an earlier one |
| `SnapshotDiff.CheckInput` | cargo-statum/src/main.rs:792-822 | the checks in their order, each with its own error |
| `SnapshotDiff.RefusesExactly` | cargo-statum/src/main.rs:792-851 | a pair is accepted exactly when both snapshots are version one, agree on package, machine, features and graph version, and repeat no state or site; each error is given exactly for its own reason |
| `SnapshotDiff.DiffSnapshots` | cargo-statum/src/main.rs:611-790 | accepted exactly when all checks pass; the changes are a sorted permutation of the collected ones and the summary counts them by severity |
| `SnapshotDiff.ChangesAreExact` | cargo-statum/src/main.rs:611-768 | a change is listed if and only if the two snapshots call for it, stated on the snapshots alone |
| `SnapshotDiff.SortedIsUnique` | cargo-statum/src/main.rs:770-776 | only one order is sorted, so the order of collection does not matter |
| `SnapshotDiff.ReportOrder` | cargo-statum/src/main.rs:770-776 | a report is read from the strongest change to the weakest, within one strength by category name, then by key |
| `SnapshotDiff.PlaceIsAlphabetical` | cargo-statum/src/main.rs:770-776 | categories are ordered as their names are in the alphabet |
| `SnapshotDiff.CollectedTimes` | cargo-statum/src/main.rs:611-768 | each change is collected exactly as often as the snapshots call for it |
| `SnapshotDiff.EachChangeListedOnce` | cargo-statum/src/main.rs:853-873 | a report lists each change once exactly when no two removed edges and no two added edges share a key |
| `SnapshotDiff.SwapExchanges` | cargo-statum/src/main.rs:611-790 | swapping the snapshots is accepted alike; the swapped changes of one report, put in order, are the other report, with multiplicities |
| `SnapshotDiff.PatchRestoresNames` | cargo-statum/src/main.rs:622-678 | removing and adding what the report says turns the states and transition sites of one snapshot into those of the other |
| `SnapshotDiff.KnownEdgesArePatched` | cargo-statum/src/main.rs:680-709 | among the edges of the two snapshots the report is an exact patch if and only if no edge left afterwards has the key of a removed one |
| `SnapshotDiff.EdgePatchIsExact` | cargo-statum/src/main.rs:680-709 | over all triples, removing and adding what the report says gives exactly the edges of the second snapshot if and only if, besides, no triple that is no edge afterwards has the key of an added one |
| `SnapshotDiff.EdgeReportCanMislead` | cargo-statum/src/main.rs:680-709 | two accepted snapshots whose report removes and adds one key, so that the removed edge comes back |
| `SnapshotDiff.AddedKeyCanStray` | cargo-statum/src/main.rs:680-709 | two accepted snapshots that keep their own edges right while the report adds the key of another triple |
| `SnapshotDiff.PlainEdgeIsPatched` | cargo-statum/src/main.rs:680-709 | between plain state and method names every plain edge is patched, whatever the targets are called |
| `SnapshotDiff.PatchRestoresEdges` | cargo-statum/src/main.rs:680-709 | between plain identifiers the report is an exact patch of the edges, over all triples |
| `SnapshotDiff.EdgeKeyInjective` | cargo-statum/src/main.rs:867-873 | between plain state and method names an edge key names one edge |
| `SnapshotDiff.SiteKeyInjective` | cargo-statum/src/main.rs:838-851 | sites whose methods hold no colon have keys of their own |
| `SnapshotDiff.PlainKeyIsUnique` | cargo-statum/src/main.rs:867-873 | the key of three plain names is the key of no other triple at all |
| `SnapshotDiff.SummarizeChanges` | cargo-statum/src/main.rs:890-900 | counts per severity, which add up to the number of changes |
| `SnapshotDiff.CountOfMeans` | cargo-statum/src/main.rs:890-900 | the count of a severity is the number of places that hold a change of it |
| `SnapshotDiff.MeetsFailOn` | cargo-statum/src/main.rs:332-339 | true exactly when some change is at least as strong as the level, spelled out for the three levels |
| `SnapshotDiff.FirstChangeDecides` | cargo-statum/src/main.rs:332-339 | in a sorted report the first change decides that test |

## Left out

- Macro emission with `quote!` and `syn` parsing, builder generics, presentation attributes and editor shims: templates without a deep invariant.
- SQL is modelled by the meaning of each query (filter, order, first row, minimum); the least retry time over no rows is None, which ends the loop.
- Async execution, locks, `OnceLock`, serde, clap and the HTTP and channel code around the showcases; caches and stores are sequential state.
- The deploy, review, cart and websocket showcases repeat easier versions of the order store.
- Mermaid and DOT rendering, the plain-text lint report and the wording of lint, diff and error messages, except where a message is stored in a row or decides an outcome.
- Metadata version, authority and unsupported cases take part only in the snapshot diff, as values to compare.
- Agreement of the tokenizer with real Rust lexing: telling a character literal from a lifetime is a heuristic in the code, and the model keeps it.
- LineMap.LineMapIsInnermost: says nothing about lines on which a module opens or closes, because the map misattributes some items there; a module counts as open from the line of its `mod` keyword.
- Walks.DefaultDepthSuffices: is stated for closed graphs; with undeclared targets a walk may end in a state that is not declared, where the path check answers false.
- Rehydrate.Explain: requires one validator per state, as the macro guarantees; the storage slots of the emitted code are one map.
- Generic arguments are compared as structures where the code compares their token strings.
- The alias expansion that is only used to word a strict-mode diagnostic.
- Rust's stable sorts are insertion sorts in the model, proved ordered, permuting and stable, and the ordered maps of the snapshot diff are lists in snapshot order; `SnapshotDiff.SortedIsUnique` is why the order of collection is immaterial.
- Times, ids and counters are unbounded integers everywhere but in the hash.
