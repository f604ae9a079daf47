/** The fingerprint caches in front of the line map (statum-macros/src/source/cache.rs, module_path.rs). */
module ModulePathCache {
  import opened Common
  import opened Lexer
  import opened LineMap
  import opened TokenTree
  import opened ModuleRanges

  datatype FileFingerprint = FileFingerprint(len: nat, modifiedNs: Option<nat>)

  /** What the file system holds for one path; unreadable content is None. */
  datatype FileVersion = FileVersion(fingerprint: FileFingerprint, content: Option<seq<char>>)

  /** Paths outside the map have no metadata. */
  type Files = map<string, FileVersion>

  datatype ParsedFileModules = ParsedFileModules(
    fingerprint: FileFingerprint, baseModule: string, lineModules: seq<LineModulePath>)

  datatype CachedLineResult = CachedLineResult(fingerprint: FileFingerprint, modulePath: Option<string>)

  datatype CacheLookup = Fresh(modulePath: Option<string>) | Stale | Missing

  /** The parts of the source layer the cache does not decide. */
  datatype Environment = Environment(tables: CharTables, normalize: string -> string, baseModule: string -> string)

  datatype CacheState = CacheState(
    lineResults: map<(string, nat), CachedLineResult>, fileModules: map<string, ParsedFileModules>)

  const EMPTY := CacheState(map[], map[])

  // ---- The uncached answer ----

  ghost function Parse(env: Environment, path: string, version: FileVersion): ParsedFileModules
    requires version.content.Some?
  {
    ParsedFileModules(version.fingerprint, env.baseModule(path), LineModules(env.tables, version.content.value))
  }

  /** What a fresh parse of one version answers; an unreadable one has no answer. */
  ghost function Answer(env: Environment, path: string, version: FileVersion, line: nat): Option<string> {
    if version.content.None? then None
    else
      var parsed := Parse(env, path, version);
      ResolveModulePathFromLines(parsed.baseModule, parsed.lineModules, line)
  }

  /** What a fresh parse of the current content answers. */
  ghost function FreshAnswer(env: Environment, files: Files, filePath: string, line: nat): Option<string> {
    var path := env.normalize(filePath);
    if path in files then Answer(env, path, files[path], line) else None
  }

  // ---- The cached lookup on cache states ----

  function Lookup(cache: CacheState, path: string, line: nat, fingerprint: FileFingerprint): CacheLookup {
    if (path, line) !in cache.lineResults then Missing
    else if cache.lineResults[(path, line)].fingerprint == fingerprint then Fresh(cache.lineResults[(path, line)].modulePath)
    else Stale
  }

  function ClearFile(cache: CacheState, path: string): CacheState {
    cache.(lineResults := map key | key in cache.lineResults && key.0 != path :: cache.lineResults[key])
  }

  function StoreLine(cache: CacheState, path: string, line: nat, result: CachedLineResult): CacheState {
    cache.(lineResults := cache.lineResults[(path, line) := result])
  }

  ghost function GetOrParse(env: Environment, cache: CacheState, path: string, version: FileVersion)
    : (CacheState, Option<ParsedFileModules>)
  {
    if path in cache.fileModules && cache.fileModules[path].fingerprint == version.fingerprint then
      (cache, Some(cache.fileModules[path]))
    else if version.content.None? then (cache, None)
    else
      var parsed := Parse(env, path, version);
      (cache.(fileModules := cache.fileModules[path := parsed]), Some(parsed))
  }

  ghost function Find(env: Environment, cache: CacheState, files: Files, filePath: string, line: nat)
    : (CacheState, Option<string>)
  {
    var path := env.normalize(filePath);
    if path !in files then (cache, None)
    else
      var version := files[path];
      var found := Lookup(cache, path, line, version.fingerprint);
      if found.Fresh? then (cache, found.modulePath)
      else
        var cleared := if found.Stale? then ClearFile(cache, path) else cache;
        var (parsedCache, parsed) := GetOrParse(env, cleared, path, version);
        match parsed
        case None => (parsedCache, None)
        case Some(p) =>
          var resolved := ResolveModulePathFromLines(p.baseModule, p.lineModules, line);
          (StoreLine(parsedCache, path, line, CachedLineResult(version.fingerprint, resolved)), resolved)
  }

  // ---- The caches as mutable state ----

  class Caches {
    const env: Environment
    var lineResults: map<(string, nat), CachedLineResult>
    var fileModules: map<string, ParsedFileModules>

    constructor (env: Environment)
      ensures this.env == env && State() == EMPTY
    {
      this.env := env;
      lineResults, fileModules := map[], map[];
    }

    ghost function State(): CacheState
      reads this
    {
      CacheState(lineResults, fileModules)
    }

    method ClearLineCacheForFile(path: string)
      modifies this`lineResults
      ensures forall key :: key in lineResults <==> key in old(lineResults) && key.0 != path
      ensures forall key :: key in lineResults ==> lineResults[key] == old(lineResults)[key]
      ensures State() == ClearFile(old(State()), path)
    {
      lineResults := map key | key in lineResults && key.0 != path :: lineResults[key];
    }

    method CachedLine(path: string, line: nat, fingerprint: FileFingerprint) returns (lookup: CacheLookup)
      ensures lookup.Missing? <==> (path, line) !in lineResults
      ensures lookup.Fresh? <==> (path, line) in lineResults && lineResults[(path, line)].fingerprint == fingerprint
      ensures lookup.Fresh? ==> lookup.modulePath == lineResults[(path, line)].modulePath
    {
      if (path, line) !in lineResults {
        return Missing;
      }
      var cached := lineResults[(path, line)];
      if cached.fingerprint == fingerprint {
        return Fresh(cached.modulePath);
      }
      return Stale;
    }

    method StoreLineResult(path: string, line: nat, fingerprint: FileFingerprint, modulePath: Option<string>)
      modifies this`lineResults
      ensures lineResults.Keys == old(lineResults).Keys + {(path, line)}
      ensures lineResults[(path, line)] == CachedLineResult(fingerprint, modulePath)
      ensures forall key :: key in old(lineResults) && key != (path, line) ==> lineResults[key] == old(lineResults)[key]
      ensures State() == StoreLine(old(State()), path, line, CachedLineResult(fingerprint, modulePath))
    {
      lineResults := lineResults[(path, line) := CachedLineResult(fingerprint, modulePath)];
    }

    method GetOrParseFileModules(path: string, version: FileVersion) returns (parsed: Option<ParsedFileModules>)
      requires ValidTables(env.tables)
      modifies this`fileModules
      ensures (State(), parsed) == GetOrParse(env, old(State()), path, version)
    {
      if path in fileModules {
        var cached := fileModules[path];
        if cached.fingerprint == version.fingerprint {
          return Some(cached);
        }
      }
      if version.content.None? {
        return None;
      }
      var lines := BuildLineModulePaths(env.tables, version.content.value);
      var reparsed := ParsedFileModules(version.fingerprint, env.baseModule(path), lines);
      fileModules := fileModules[path := reparsed];
      return Some(reparsed);
    }

    method FindModulePath(files: Files, filePath: string, line: nat) returns (modulePath: Option<string>)
      requires ValidTables(env.tables)
      modifies this
      ensures (State(), modulePath) == Find(env, old(State()), files, filePath, line)
      ensures var path := env.normalize(filePath);
              old(State()) == EMPTY && path in files && files[path].content.Some? ==>
                AnswersInnermost(env, path, files[path].content.value, line, modulePath)
    {
      var path := env.normalize(filePath);
      if path !in files {
        return None;
      }
      var version := files[path];
      if version.content.Some? {
        FreshCachesGiveInnermost(env, files, filePath, line);
      }
      var lookup := CachedLine(path, line, version.fingerprint);
      match lookup {
        case Fresh(cached) => return cached;
        case Stale => ClearLineCacheForFile(path);
        case Missing =>
      }
      var parsed := GetOrParseFileModules(path, version);
      if parsed.None? {
        return None;
      }
      modulePath := ResolveModulePathFromLines(parsed.value.baseModule, parsed.value.lineModules, line);
      StoreLineResult(path, line, version.fingerprint, modulePath);
    }
  }

  // ---- Every entry stays true of some version of its file ----

  /** All versions of all files that occur in a run. */
  type World = set<(string, FileVersion)>

  /** Equal fingerprints of one file mean equal content. */
  ghost predicate Honest(world: World) {
    forall a, b :: a in world && b in world && a.0 == b.0 && a.1.fingerprint == b.1.fingerprint ==> a.1.content == b.1.content
  }

  ghost predicate SameAnswers(env: Environment, path: string, a: FileVersion, b: FileVersion) {
    forall line: nat :: Answer(env, path, a, line) == Answer(env, path, b, line)
  }

  /** Versions of one path with one fingerprint give the same answer on every line. */
  ghost predicate AgreeAt(env: Environment, world: World, filePath: string) {
    var path := env.normalize(filePath);
    forall a, b | (path, a) in world && (path, b) in world && a.fingerprint == b.fingerprint :: SameAnswers(env, path, a, b)
  }

  /** The same for every path that can be looked up. */
  ghost predicate Agreeing(env: Environment, world: World) {
    forall filePath :: AgreeAt(env, world, filePath)
  }

  /** Equal contents agree. */
  lemma HonestIsAgreeing(env: Environment, world: World)
    requires Honest(world)
    ensures Agreeing(env, world)
  {
    forall filePath ensures AgreeAt(env, world, filePath) {
      var path := env.normalize(filePath);
      forall a, b | (path, a) in world && (path, b) in world && a.fingerprint == b.fingerprint ensures SameAnswers(env, path, a, b) {
        assert a.content == b.content;
      }
    }
  }

  ghost predicate LineEntryTrue(env: Environment, world: World, path: string, line: nat, cached: CachedLineResult) {
    exists v :: (path, v) in world && v.fingerprint == cached.fingerprint && cached.modulePath == Answer(env, path, v, line)
  }

  ghost predicate FileEntryTrue(env: Environment, world: World, path: string, cached: ParsedFileModules) {
    exists v :: (path, v) in world && v.content.Some? && cached == Parse(env, path, v)
  }

  ghost predicate Sound(env: Environment, world: World, cache: CacheState) {
    && (forall key :: key in cache.lineResults ==> LineEntryTrue(env, world, key.0, key.1, cache.lineResults[key]))
    && (forall path :: path in cache.fileModules ==> FileEntryTrue(env, world, path, cache.fileModules[path]))
  }

  ghost predicate FilesIn(files: Files, world: World) {
    forall path :: path in files ==> (path, files[path]) in world
  }

  /** The parsed file is that of some version with the same fingerprint. */
  lemma GetOrParseIsSound(env: Environment, world: World, cache: CacheState, path: string, version: FileVersion)
    returns (v: FileVersion)
    requires Sound(env, world, cache) && (path, version) in world
    ensures var (after, parsed) := GetOrParse(env, cache, path, version);
            && Sound(env, world, after) && after.lineResults == cache.lineResults
            && (path, v) in world && v.fingerprint == version.fingerprint
            && (parsed.Some? <==> v.content.Some?) && (parsed.Some? ==> parsed.value == Parse(env, path, v))
  {
    v := version;
    if path in cache.fileModules && cache.fileModules[path].fingerprint == version.fingerprint {
      assert FileEntryTrue(env, world, path, cache.fileModules[path]);
      v :| (path, v) in world && v.content.Some? && cache.fileModules[path] == Parse(env, path, v);
    } else if version.content.Some? {
      assert FileEntryTrue(env, world, path, Parse(env, path, version));
    }
  }

  /** A lookup behind a missing or stale line entry. */
  lemma ParsedAnswerIsFresh(env: Environment, world: World, cache: CacheState, filePath: string, version: FileVersion, line: nat)
    requires Agreeing(env, world) && Sound(env, world, cache) && (env.normalize(filePath), version) in world
    ensures var path := env.normalize(filePath);
            var (after, parsed) := GetOrParse(env, cache, path, version);
            var answer := match parsed case None => None
                          case Some(p) => ResolveModulePathFromLines(p.baseModule, p.lineModules, line);
            && Sound(env, world, after) && answer == Answer(env, path, version, line)
            && LineEntryTrue(env, world, path, line, CachedLineResult(version.fingerprint, answer))
  {
    var path := env.normalize(filePath);
    var v := GetOrParseIsSound(env, world, cache, path, version);
    assert AgreeAt(env, world, filePath);
    assert SameAnswers(env, path, v, version);
    assert Answer(env, path, v, line) == Answer(env, path, version, line);
  }

  lemma StoreKeepsSound(env: Environment, world: World, cache: CacheState, path: string, line: nat, result: CachedLineResult)
    requires Sound(env, world, cache) && LineEntryTrue(env, world, path, line, result)
    ensures Sound(env, world, StoreLine(cache, path, line, result))
  {
  }

  /** One lookup answers like a fresh parse and keeps every entry true. */
  lemma FindIsFresh(env: Environment, world: World, cache: CacheState, files: Files, filePath: string, line: nat)
    requires Agreeing(env, world) && Sound(env, world, cache) && FilesIn(files, world)
    ensures Sound(env, world, Find(env, cache, files, filePath, line).0)
    ensures Find(env, cache, files, filePath, line).1 == FreshAnswer(env, files, filePath, line)
  {
    var path := env.normalize(filePath);
    if path in files {
      var version := files[path];
      var found := Lookup(cache, path, line, version.fingerprint);
      if found.Fresh? {
        CachedAnswerIsFresh(env, world, cache, filePath, version, line);
      } else {
        var cleared := if found.Stale? then ClearFile(cache, path) else cache;
        ClearKeepsSound(env, world, cache, path);
        ParsedAnswerIsFresh(env, world, cleared, filePath, version, line);
        var (after, parsed) := GetOrParse(env, cleared, path, version);
        if parsed.Some? {
          StoreKeepsSound(env, world, after, path, line,
                          CachedLineResult(version.fingerprint, Answer(env, path, version, line)));
        }
      }
    }
  }

  lemma ClearKeepsSound(env: Environment, world: World, cache: CacheState, path: string)
    requires Sound(env, world, cache)
    ensures Sound(env, world, ClearFile(cache, path))
  {
  }

  lemma CachedAnswerIsFresh(env: Environment, world: World, cache: CacheState, filePath: string, version: FileVersion, line: nat)
    requires Agreeing(env, world) && Sound(env, world, cache) && (env.normalize(filePath), version) in world
    requires Lookup(cache, env.normalize(filePath), line, version.fingerprint).Fresh?
    ensures Lookup(cache, env.normalize(filePath), line, version.fingerprint).modulePath
         == Answer(env, env.normalize(filePath), version, line)
  {
    var path := env.normalize(filePath);
    var cached := cache.lineResults[(path, line)];
    assert LineEntryTrue(env, world, path, line, cached);
    var v :| (path, v) in world && v.fingerprint == cached.fingerprint && cached.modulePath == Answer(env, path, v, line);
    assert AgreeAt(env, world, filePath);
    assert SameAnswers(env, path, v, version);
  }

  /**
   * On a line where no inline module starts or closes, `answer` is the path of the innermost open
   * module below the base module of the file, or that base module when none is open.
   */
  ghost predicate AnswersInnermost(env: Environment, path: string, content: seq<char>, line: nat, answer: Option<string>) {
    forall f | TreeOf(TokensOf(env.tables, content), f) && !Boundary(ModulesOf(f), line) ::
      && (forall m | Innermost(ModulesOf(f), m, line) ::
            answer.Some? && m.names != [] && NamesModule(answer.value, env.baseModule(path), m.names))
      && ((forall m :: m in ModulesOf(f) ==> !OpenOn(m, line)) ==> answer == Some(env.baseModule(path)))
  }

  lemma FreshAnswerIsInnermost(env: Environment, path: string, version: FileVersion, line: nat)
    requires version.content.Some?
    ensures AnswersInnermost(env, path, version.content.value, line, Answer(env, path, version, line))
  {
    forall f | TreeOf(TokensOf(env.tables, version.content.value), f) && !Boundary(ModulesOf(f), line)
      ensures forall m | Innermost(ModulesOf(f), m, line) ::
                AnswersModule(env.tables, version.content.value, env.baseModule(path), line, m.names)
      ensures (forall m :: m in ModulesOf(f) ==> !OpenOn(m, line)) ==>
                Answer(env, path, version, line) == Some(env.baseModule(path))
    {
      LineMapIsInnermost(env.tables, version.content.value, f, env.baseModule(path), line);
    }
  }

  /** Whatever the caches hold from earlier lookups, the lookup names the innermost module of the current content. */
  lemma LookupGivesInnermost(env: Environment, world: World, cache: CacheState, files: Files, filePath: string, line: nat)
    requires Agreeing(env, world) && Sound(env, world, cache) && FilesIn(files, world)
    requires env.normalize(filePath) in files && files[env.normalize(filePath)].content.Some?
    ensures AnswersInnermost(env, env.normalize(filePath), files[env.normalize(filePath)].content.value, line,
                             Find(env, cache, files, filePath, line).1)
  {
    FindIsFresh(env, world, cache, files, filePath, line);
    FreshAnswerIsInnermost(env, env.normalize(filePath), files[env.normalize(filePath)], line);
  }

  /** Fresh caches need no condition on fingerprints. */
  lemma FreshCachesGiveInnermost(env: Environment, files: Files, filePath: string, line: nat)
    requires env.normalize(filePath) in files && files[env.normalize(filePath)].content.Some?
    ensures AnswersInnermost(env, env.normalize(filePath), files[env.normalize(filePath)].content.value, line,
                             Find(env, EMPTY, files, filePath, line).1)
  {
    var world := set path | path in files :: (path, files[path]);
    HonestIsAgreeing(env, world);
    LookupGivesInnermost(env, world, EMPTY, files, filePath, line);
  }

  // ---- Runs ----

  datatype Event = Rewrite(path: string, version: FileVersion) | Remove(path: string) | Query(filePath: string, line: nat)

  function FilesAfter(files: Files, event: Event): Files {
    match event
    case Rewrite(path, version) => files[path := version]
    case Remove(path) => files - {path}
    case Query(_, _) => files
  }

  /** Answers of the cached lookup over a run. */
  ghost function CachedAnswers(env: Environment, cache: CacheState, files: Files, events: seq<Event>): seq<Option<string>>
    decreases |events|
  {
    if events == [] then []
    else match events[0]
      case Query(filePath, line) =>
        var (after, answer) := Find(env, cache, files, filePath, line);
        [answer] + CachedAnswers(env, after, files, events[1..])
      case _ => CachedAnswers(env, cache, FilesAfter(files, events[0]), events[1..])
  }

  /** Answers of a fresh parse at each query of a run. */
  ghost function FreshAnswers(env: Environment, files: Files, events: seq<Event>): seq<Option<string>>
    decreases |events|
  {
    if events == [] then []
    else match events[0]
      case Query(filePath, line) => [FreshAnswer(env, files, filePath, line)] + FreshAnswers(env, files, events[1..])
      case _ => FreshAnswers(env, FilesAfter(files, events[0]), events[1..])
  }

  ghost predicate EventsIn(events: seq<Event>, world: World) {
    forall e :: e in events && e.Rewrite? ==> (e.path, e.version) in world
  }

  lemma {:induction false} RunIsFresh(env: Environment, world: World, cache: CacheState, files: Files, events: seq<Event>)
    requires Agreeing(env, world) && Sound(env, world, cache) && FilesIn(files, world) && EventsIn(events, world)
    ensures CachedAnswers(env, cache, files, events) == FreshAnswers(env, files, events)
    decreases |events|
  {
    if events == [] {
    } else {
      assert events[0] in events;
      assert forall e :: e in events[1..] ==> e in events;
      match events[0]
      case Query(filePath, line) =>
        FindIsFresh(env, world, cache, files, filePath, line);
        RunIsFresh(env, world, Find(env, cache, files, filePath, line).0, files, events[1..]);
      case _ =>
        RunIsFresh(env, world, cache, FilesAfter(files, events[0]), events[1..]);
    }
  }

  ghost function WorldOf(files: Files, events: seq<Event>): World {
    (set path | path in files :: (path, files[path])) + (set e | e in events && e.Rewrite? :: (e.path, e.version))
  }

  /** From empty caches, over every interleaving of rewrites, removals and lookups, no answer is stale. */
  lemma CacheNeverStale(env: Environment, files: Files, events: seq<Event>)
    requires Honest(WorldOf(files, events))
    ensures CachedAnswers(env, EMPTY, files, events) == FreshAnswers(env, files, events)
  {
    HonestIsAgreeing(env, WorldOf(files, events));
    RunIsFresh(env, WorldOf(files, events), EMPTY, files, events);
  }

  /** One version is looked up, another with the same fingerprint takes its place, and the line is looked up again. */
  function ReplaceRun(env: Environment, filePath: string, first: FileVersion, second: FileVersion, line: nat): seq<Event> {
    var path := env.normalize(filePath);
    [Rewrite(path, first), Query(filePath, line), Rewrite(path, second), Query(filePath, line)]
  }

  /** The second lookup still gives the answer for the first content, and a fresh parse that for the second. */
  lemma CollidingFingerprintsGoStale(env: Environment, filePath: string, first: FileVersion, second: FileVersion, line: nat)
    requires first.content.Some? && first.fingerprint == second.fingerprint
    ensures var path, events := env.normalize(filePath), ReplaceRun(env, filePath, first, second, line);
            && FreshAnswers(env, map[], events) == [Answer(env, path, first, line), Answer(env, path, second, line)]
            && CachedAnswers(env, EMPTY, map[], events) == [Answer(env, path, first, line), Answer(env, path, first, line)]
  {
    var path := env.normalize(filePath);
    var q, events := Query(filePath, line), ReplaceRun(env, filePath, first, second, line);
    var filesA: Files := map[path := first];
    var filesB: Files := filesA[path := second];
    var afterFirst, afterQuery, last := [q, Rewrite(path, second), q], [Rewrite(path, second), q], [q];
    assert events[1..] == afterFirst && afterFirst[1..] == afterQuery && afterQuery[1..] == last && last[1..] == [];
    var (cacheA, answerA) := Find(env, EMPTY, filesA, filePath, line);
    var (cacheB, answerB) := Find(env, cacheA, filesB, filePath, line);
    assert answerA == FreshAnswer(env, filesA, filePath, line) && answerB == answerA;
    assert FilesAfter(map[], events[0]) == filesA && FilesAfter(filesA, afterQuery[0]) == filesB;
    assert CachedAnswers(env, cacheA, filesB, last) == [answerB];
    assert FreshAnswers(env, filesB, last) == [FreshAnswer(env, filesB, filePath, line)];
    assert CachedAnswers(env, cacheA, filesA, afterQuery) == [answerB];
    assert FreshAnswers(env, filesA, afterQuery) == [FreshAnswer(env, filesB, filePath, line)];
  }

  /** The caches answer one run as fresh parses would. */
  ghost predicate RunAgrees(env: Environment, files: Files, events: seq<Event>) {
    CachedAnswers(env, EMPTY, files, events) == FreshAnswers(env, files, events)
  }

  /** Every run whose file versions all come from the world, from any files of the world. */
  ghost predicate AllRunsAgree(env: Environment, world: World) {
    forall files, events :: FilesIn(files, world) && EventsIn(events, world) ==> RunAgrees(env, files, events)
  }

  lemma DisagreementGoesStale(env: Environment, world: World, filePath: string, first: FileVersion, second: FileVersion, line: nat)
    requires (env.normalize(filePath), first) in world && (env.normalize(filePath), second) in world
    requires first.content.Some? && first.fingerprint == second.fingerprint
    requires Answer(env, env.normalize(filePath), first, line) != Answer(env, env.normalize(filePath), second, line)
    ensures !AllRunsAgree(env, world)
  {
    var events := ReplaceRun(env, filePath, first, second, line);
    CollidingFingerprintsGoStale(env, filePath, first, second, line);
    assert FreshAnswers(env, map[], events)[1] != CachedAnswers(env, EMPTY, map[], events)[1];
    var none: Files := map[];
    assert FilesIn(none, world) && EventsIn(events, world) && !RunAgrees(env, none, events);
  }

  /**
   * Over a set of file versions, every run is answered as by fresh parses if and only if versions of
   * one path with one fingerprint give the same answer on every line.
   */
  lemma FreshExactlyWhenAgreeing(env: Environment, world: World)
    ensures AllRunsAgree(env, world) <==> Agreeing(env, world)
  {
    if Agreeing(env, world) {
      forall files, events | FilesIn(files, world) && EventsIn(events, world) ensures RunAgrees(env, files, events) {
        RunIsFresh(env, world, EMPTY, files, events);
      }
    } else {
      var filePath :| !AgreeAt(env, world, filePath);
      var path := env.normalize(filePath);
      var a, b :| (path, a) in world && (path, b) in world && a.fingerprint == b.fingerprint && !SameAnswers(env, path, a, b);
      var line: nat :| Answer(env, path, a, line) != Answer(env, path, b, line);
      if a.content.Some? {
        DisagreementGoesStale(env, world, filePath, a, b, line);
      } else {
        DisagreementGoesStale(env, world, filePath, b, a, line);
      }
    }
  }

  /** Concrete versions that disagree: a readable file that becomes unreadable under the same fingerprint. */
  lemma UnreadableDisagrees(env: Environment, path: string, fingerprint: FileFingerprint)
    ensures Answer(env, path, FileVersion(fingerprint, Some([])), 0) != Answer(env, path, FileVersion(fingerprint, None), 0)
  {
  }

  /** A lookup, and the clearing it may do, leaves the entries of every other file alone. */
  lemma FindLeavesOtherFiles(env: Environment, cache: CacheState, files: Files, filePath: string, line: nat, other: string)
    requires other != env.normalize(filePath)
    ensures var after := Find(env, cache, files, filePath, line).0;
            && (forall n: nat :: ((other, n) in after.lineResults <==> (other, n) in cache.lineResults))
            && (forall n: nat :: (other, n) in cache.lineResults ==> after.lineResults[(other, n)] == cache.lineResults[(other, n)])
            && (other in after.fileModules <==> other in cache.fileModules)
            && (other in cache.fileModules ==> after.fileModules[other] == cache.fileModules[other])
  {
  }
}
