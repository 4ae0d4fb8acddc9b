/**
 * `validateAndNormalizeConfig` of `src/validateAndNormalizeConfig.ts`: the configuration a caller
 * passes to `startCompositeService` is checked and turned into the normalised form the rest of the
 * system runs on. Checks happen in the source's order and the first failure is the error reported
 * (a `ConfigValidationError` carrying the message).
 */
module ConfigValidation {
  import opened Results
  import opened Text
  import opened Entries
  import opened LogLevels
  import opened DependencyGraph

  // ---------------------------------------------------------------------------------------------
  // Data model

  datatype Command = CommandString(s: string) | CommandArray(parts: seq<string>)

  datatype EnvValue = EnvString(s: string) | EnvNumber(n: int) | EnvUndefined

  /** A function supplied in the configuration, identified by its source text. */
  datatype Function = Function(source: string)

  /** `ready`: one given in the configuration, or the base default that resolves at once. */
  datatype Ready = BaseDefaultReady | GivenReady(f: Function)

  /** `onCrash`: one given in the configuration, or the base default. */
  datatype OnCrash = BaseDefaultOnCrash | GivenOnCrash(f: Function)

  /** `forceKillTimeout`: a number of milliseconds, or `Infinity`. */
  datatype Timeout = Millis(ms: nat) | Infinity

  /** A `ServiceConfig` as the caller wrote it; `None` is an absent or `undefined` property. */
  datatype ServiceConfig = ServiceConfig(
    dependencies: Option<seq<string>>,
    cwd: Option<string>,
    command: Option<Command>,
    env: Option<seq<(string, EnvValue)>>,
    ready: Option<Function>,
    forceKillTimeout: Option<Timeout>,
    onCrash: Option<Function>,
    crashesLength: Option<nat>,
    logTailLength: Option<nat>,
    minimumRestartDelay: Option<nat>)

  const NoProperties := ServiceConfig(None, None, None, None, None, None, None, None, None, None)

  /** A `CompositeServiceConfig`; a service entry whose value is falsy is `None`. */
  datatype CompositeServiceConfig = CompositeServiceConfig(
    logLevel: Option<LogLevel>,
    gracefulShutdown: Option<bool>,
    windowsCtrlCShutdown: Option<bool>,
    serviceDefaults: Option<ServiceConfig>,
    services: seq<(string, Option<ServiceConfig>)>)

  datatype NormalizedServiceConfig = NormalizedServiceConfig(
    dependencies: seq<string>,
    cwd: string,
    command: seq<string>,
    env: seq<(string, string)>,
    ready: Ready,
    forceKillTimeout: Timeout,
    onCrash: OnCrash,
    crashesLength: nat,
    logTailLength: nat,
    minimumRestartDelay: nat)

  datatype NormalizedCompositeServiceConfig = NormalizedCompositeServiceConfig(
    logLevel: LogLevel,
    gracefulShutdown: bool,
    windowsCtrlCShutdown: bool,
    services: seq<(string, NormalizedServiceConfig)>)

  /** `serviceBaseDefaults.forceKillTimeout`. */
  const BaseForceKillTimeout := 5000

  /** The base default `onCrash`: a crash before the service became ready is fatal. */
  function RunBaseDefaultOnCrash(isServiceReady: bool): (r: Option<string>)
    ensures r.Some? <==> !isServiceReady
    ensures r.Some? ==> r.value == "Crashed before becoming ready"
  {
    if !isServiceReady then Some("Crashed before becoming ready") else None
  }

  // ---------------------------------------------------------------------------------------------
  // removeUndefinedProperties and the spread merge, on objects as ordered property lists

  /** The properties of `obj` whose value is not `undefined` (`None`), in order. */
  function DefinedProperties<V>(obj: seq<(string, Option<V>)>): (r: seq<(string, Option<V>)>)
    requires DistinctKeys(obj)
    ensures DistinctKeys(r)
    ensures forall i :: 0 <= i < |r| ==> r[i].1.Some?
    ensures forall k :: Get(r, k) == if Get(obj, k) == Some(None) then None else Get(obj, k)
  {
    if obj == [] then []
    else
      var rest := DefinedProperties(obj[1..]);
      assert obj[0].0 !in Keys(obj[1..]);
      if obj[0].1.None? then rest
      else
        assert ([obj[0]] + rest)[1..] == rest;
        ConsDistinct(obj[0], rest);
        [obj[0]] + rest
  }

  /**
   * `removeUndefinedProperties`: a copy of `obj` from which every property whose value is
   * `undefined` is deleted, one at a time while iterating over the entries.
   */
  method RemoveUndefinedProperties<V>(obj: seq<(string, Option<V>)>) returns (result: seq<(string, Option<V>)>)
    requires DistinctKeys(obj)
    ensures DistinctKeys(result)
    ensures forall k :: Get(result, k) == Get(DefinedProperties(obj), k)
  {
    result := obj;
    for i := 0 to |obj|
      invariant DistinctKeys(result)
      invariant forall k :: Get(result, k) == (if k in Keys(obj[..i]) && Get(obj, k) == Some(None) then None else Get(obj, k))
    {
      var (key, value) := obj[i];
      assert Keys(obj[..i + 1]) == Keys(obj[..i]) + [key];
      GetEntry(obj, i);
      if value.None? {
        RemoveDistinct(result, key);
        forall k ensures Get(Remove(result, key), k) ==
          if k in Keys(obj[..i + 1]) && Get(obj, k) == Some(None) then None else Get(obj, k)
        {
          GetRemove(result, key, k);
        }
        result := Remove(result, key);
      }
    }
    assert obj[..|obj|] == obj;
    forall k ensures Get(result, k) == Get(DefinedProperties(obj), k) {
      if Get(obj, k).Some? {
        assert k in Keys(obj);
      }
    }
  }

  /**
   * Merge precedence of `{...base, ...removeUndefinedProperties(defaults),
   * ...removeUndefinedProperties(config)}`: a property defined in the service's own config wins,
   * then one defined in `serviceDefaults`, then the base default; `undefined` never overrides.
   */
  lemma MergePrecedence<V>(base: seq<(string, Option<V>)>, defaults: seq<(string, Option<V>)>,
                           config: seq<(string, Option<V>)>, k: string)
    requires DistinctKeys(defaults) && DistinctKeys(config)
    ensures Get(Spread(Spread(base, DefinedProperties(defaults)), DefinedProperties(config)), k) ==
      if Get(config, k).Some? && Get(config, k).value.Some? then Get(config, k)
      else if Get(defaults, k).Some? && Get(defaults, k).value.Some? then Get(defaults, k)
      else Get(base, k)
  {
    var d := DefinedProperties(defaults);
    var c := DefinedProperties(config);
    GetSpread(Spread(base, d), c, k);
    GetSpread(base, d, k);
  }

  /** One property of the merged service config, by the precedence `MergePrecedence` proves. */
  function Layered<T>(config: Option<T>, defaults: Option<T>, base: T): T {
    config.GetOr(defaults.GetOr(base))
  }

  /** For a property the base defines, `Layered` is what the three-layer spread reads. */
  lemma LayeredIsSpread<T>(k: string, config: Option<T>, defaults: Option<T>, base: T)
    ensures Get(Spread(Spread([(k, Some(base))], DefinedProperties([(k, defaults)])), DefinedProperties([(k, config)])), k)
      == Some(Some(Layered(config, defaults, base)))
  {
    MergePrecedence([(k, Some(base))], [(k, defaults)], [(k, config)], k);
  }

  /** For a property the base leaves out (`command`), the spread reads the service's value, else
      the default's, else nothing. */
  lemma UnsetBaseIsSpread<T>(k: string, config: Option<T>, defaults: Option<T>)
    ensures Get(Spread(Spread([], DefinedProperties([(k, defaults)])), DefinedProperties([(k, config)])), k)
      == if config.Some? then Some(config) else if defaults.Some? then Some(defaults) else None
  {
    MergePrecedence([], [(k, defaults)], [(k, config)], k);
  }

  /** The merged configuration, before `command` and `env` are normalised. */
  datatype MergedServiceConfig = MergedServiceConfig(
    dependencies: seq<string>,
    cwd: string,
    command: Option<Command>,
    env: seq<(string, EnvValue)>,
    ready: Ready,
    forceKillTimeout: Timeout,
    onCrash: OnCrash,
    crashesLength: nat,
    logTailLength: nat,
    minimumRestartDelay: nat)

  /** `process.env`, whose values are all strings. */
  function ProcessEnv(processEnv: seq<(string, string)>): (r: seq<(string, EnvValue)>)
    ensures |r| == |processEnv|
    ensures forall i :: 0 <= i < |r| ==> r[i] == (processEnv[i].0, EnvString(processEnv[i].1))
  {
    seq(|processEnv|, i requires 0 <= i < |processEnv| => (processEnv[i].0, EnvString(processEnv[i].1)))
  }

  /** The three-layer spread of `processServiceConfig`, property by property. */
  function Merge(defaults: ServiceConfig, config: ServiceConfig, processEnv: seq<(string, string)>): (r: MergedServiceConfig)
    // with nothing set by the service or the defaults, every property is the base default
    ensures config == NoProperties && defaults == NoProperties ==>
      r == MergedServiceConfig([], ".", None, ProcessEnv(processEnv), BaseDefaultReady,
                               Millis(BaseForceKillTimeout), BaseDefaultOnCrash, 0, 0, 0)
    // a property the service defines is taken from the service
    ensures && (config.dependencies.Some? ==> r.dependencies == config.dependencies.value)
            && (config.cwd.Some? ==> r.cwd == config.cwd.value)
            && (config.command.Some? ==> r.command == config.command)
            && (config.env.Some? ==> r.env == config.env.value)
            && (config.ready.Some? ==> r.ready == GivenReady(config.ready.value))
            && (config.forceKillTimeout.Some? ==> r.forceKillTimeout == config.forceKillTimeout.value)
            && (config.onCrash.Some? ==> r.onCrash == GivenOnCrash(config.onCrash.value))
            && (config.crashesLength.Some? ==> r.crashesLength == config.crashesLength.value)
            && (config.logTailLength.Some? ==> r.logTailLength == config.logTailLength.value)
            && (config.minimumRestartDelay.Some? ==> r.minimumRestartDelay == config.minimumRestartDelay.value)
    // a property only the defaults define is taken from the defaults
    ensures && (config.dependencies.None? && defaults.dependencies.Some? ==> r.dependencies == defaults.dependencies.value)
            && (config.cwd.None? && defaults.cwd.Some? ==> r.cwd == defaults.cwd.value)
            && (config.command.None? ==> r.command == defaults.command)
            && (config.env.None? && defaults.env.Some? ==> r.env == defaults.env.value)
            && (config.ready.None? && defaults.ready.Some? ==> r.ready == GivenReady(defaults.ready.value))
            && (config.forceKillTimeout.None? && defaults.forceKillTimeout.Some? ==>
                  r.forceKillTimeout == defaults.forceKillTimeout.value)
            && (config.onCrash.None? && defaults.onCrash.Some? ==> r.onCrash == GivenOnCrash(defaults.onCrash.value))
            && (config.crashesLength.None? && defaults.crashesLength.Some? ==>
                  r.crashesLength == defaults.crashesLength.value)
            && (config.logTailLength.None? && defaults.logTailLength.Some? ==>
                  r.logTailLength == defaults.logTailLength.value)
            && (config.minimumRestartDelay.None? && defaults.minimumRestartDelay.Some? ==>
                  r.minimumRestartDelay == defaults.minimumRestartDelay.value)
  {
    MergedServiceConfig(
      Layered(config.dependencies, defaults.dependencies, []),
      Layered(config.cwd, defaults.cwd, "."),
      if config.command.Some? then config.command else defaults.command,
      Layered(config.env, defaults.env, ProcessEnv(processEnv)),
      if config.ready.Some? then GivenReady(config.ready.value)
      else if defaults.ready.Some? then GivenReady(defaults.ready.value)
      else BaseDefaultReady,
      Layered(config.forceKillTimeout, defaults.forceKillTimeout, Millis(BaseForceKillTimeout)),
      if config.onCrash.Some? then GivenOnCrash(config.onCrash.value)
      else if defaults.onCrash.Some? then GivenOnCrash(defaults.onCrash.value)
      else BaseDefaultOnCrash,
      Layered(config.crashesLength, defaults.crashesLength, 0),
      Layered(config.logTailLength, defaults.logTailLength, 0),
      Layered(config.minimumRestartDelay, defaults.minimumRestartDelay, 0))
  }

  // ---------------------------------------------------------------------------------------------
  // Per-service checks and normalisation

  /** The command's binary part (its first word) is missing or blank. */
  predicate NoBinaryPart(c: Command) {
    match c
    case CommandArray(parts) => parts == [] || IsBlank(parts[0])
    case CommandString(s) => IsBlank(s)
  }

  /** `doExtraServiceConfigChecks(path, config)`: the error it throws, if any. */
  function ExtraServiceConfigChecks(path: string, config: ServiceConfig): (r: Option<string>)
    ensures r.Some? <==> config.command.Some? && NoBinaryPart(config.command.value)
    ensures r.Some? ==> r.value == "`" + path + ".command` has no binary part"
  {
    if config.command.Some? && NoBinaryPart(config.command.value) then
      Some("`" + path + ".command` has no binary part")
    else None
  }

  /** `normalizeCommand`: an array is kept as it is, a string becomes its whitespace-separated
      tokens. */
  function NormalizeCommand(c: Command): (r: seq<string>)
    ensures c.CommandArray? ==> r == c.parts
    ensures c.CommandString? ==> forall i :: 0 <= i < |r| ==> r[i] != "" && SeparatorFree(r[i], IsWhitespace)
    ensures c.CommandString? ==> (r == [] <==> IsBlank(c.s))
  {
    match c
    case CommandArray(parts) => parts
    case CommandString(s) => TokensEmptyIffBlank(s); Tokens(s)
  }

  /** A command written as words separated by single spaces normalises back to those words. */
  lemma NormalizeCommandOfWords(words: seq<string>)
    requires forall i :: 0 <= i < |words| ==> words[i] != "" && SeparatorFree(words[i], IsWhitespace)
    ensures NormalizeCommand(CommandString(Join(words, " "))) == words
  {
    TokensOfJoin(words);
  }

  /** The value an env key has once `undefined` is dropped and the rest passed through `String`. */
  function StringValue(v: Option<EnvValue>): Option<string> {
    match v
    case Some(EnvString(s)) => Some(s)
    case Some(EnvNumber(n)) => Some(IntToString(n))
    case _ => None
  }

  /** `normalizeEnv`: keeps exactly the keys whose value is not `undefined`, each mapped to
      `String(value)`. */
  function NormalizeEnv(env: seq<(string, EnvValue)>): (r: seq<(string, string)>)
    ensures DistinctKeys(env) ==> DistinctKeys(r)
    ensures DistinctKeys(env) ==> forall k :: Get(r, k) == StringValue(Get(env, k))
  {
    if env == [] then []
    else
      var rest := NormalizeEnv(env[1..]);
      assert DistinctKeys(env) ==> env[0].0 !in Keys(env[1..]);
      match env[0].1
      case EnvUndefined => rest
      case EnvString(s) =>
        assert ([(env[0].0, s)] + rest)[1..] == rest;
        if DistinctKeys(env) then ConsDistinct((env[0].0, s), rest); [(env[0].0, s)] + rest
        else [(env[0].0, s)] + rest
      case EnvNumber(n) =>
        assert ([(env[0].0, IntToString(n))] + rest)[1..] == rest;
        if DistinctKeys(env) then ConsDistinct((env[0].0, IntToString(n)), rest); [(env[0].0, IntToString(n))] + rest
        else [(env[0].0, IntToString(n))] + rest
  }

  /** `config.services.<id>`, the path that names a service in error messages. */
  function ServicePath(id: string): string {
    "config.services." + id
  }

  /** `processServiceConfig(id, config, defaults)`. */
  function ProcessServiceConfig(id: string, config: ServiceConfig, defaults: ServiceConfig,
                                processEnv: seq<(string, string)>): (r: Result<NormalizedServiceConfig, string>)
    ensures ExtraServiceConfigChecks(ServicePath(id), config).Some? ==>
      r == Err(ExtraServiceConfigChecks(ServicePath(id), config).value)
    ensures ExtraServiceConfigChecks(ServicePath(id), config).None? && config.command.None? && defaults.command.None?
      ==> r == Err("`" + ServicePath(id) + ".command` is not defined")
    ensures r.Ok? <==>
      ExtraServiceConfigChecks(ServicePath(id), config).None? && (config.command.Some? || defaults.command.Some?)
    ensures r.Ok? && ExtraServiceConfigChecks("config.serviceDefaults", defaults).None? ==>
      r.value.command != [] && !IsBlank(r.value.command[0])
  {
    var path := ServicePath(id);
    var check := ExtraServiceConfigChecks(path, config);
    if check.Some? then Err(check.value)
    else
      var merged := Merge(defaults, config, processEnv);
      if merged.command.None? then Err("`" + path + ".command` is not defined")
      else
        var command := NormalizeCommand(merged.command.value);
        assert ExtraServiceConfigChecks("config.serviceDefaults", defaults).None? ==>
          command != [] && !IsBlank(command[0]) by {
          if ExtraServiceConfigChecks("config.serviceDefaults", defaults).None? && merged.command.value.CommandString? {
            assert command != [];
            assert command[0] != "" && SeparatorFree(command[0], IsWhitespace);
            assert !IsWhitespace(command[0][0]);
          }
        }
        Ok(NormalizedServiceConfig(
          merged.dependencies, merged.cwd, command, NormalizeEnv(merged.env), merged.ready,
          merged.forceKillTimeout, merged.onCrash, merged.crashesLength, merged.logTailLength,
          merged.minimumRestartDelay))
  }

  // ---------------------------------------------------------------------------------------------
  // validateDependencyTree

  /** The dependency graph of the normalised services. */
  function ServiceGraph(services: seq<(string, NormalizedServiceConfig)>): (g: Graph)
    ensures g.Keys == set k | k in Keys(services)
  {
    map k | k in Keys(services) :: Get(services, k).value.dependencies
  }

  /** `d` names a service whose `ready` is not the base default. */
  predicate ValidDependency(services: seq<(string, NormalizedServiceConfig)>, d: string) {
    Get(services, d).Some? && Get(services, d).value.ready != BaseDefaultReady
  }

  /** Every dependency of every service in `entries` is valid. */
  predicate ReferencesValid(services: seq<(string, NormalizedServiceConfig)>,
                            entries: seq<(string, NormalizedServiceConfig)>) {
    forall e, d :: e in entries && d in e.1.dependencies ==> ValidDependency(services, d)
  }

  /** The error for the first dependency of `id` (from `deps` on) that names no service or a
      service without its own `ready`. */
  function DependencyReferenceError(services: seq<(string, NormalizedServiceConfig)>, id: string,
                                    deps: seq<string>): (r: Option<string>)
    ensures r.None? <==> forall d :: d in deps ==> ValidDependency(services, d)
  {
    if deps == [] then None
    else
      var dep := deps[0];
      assert dep in deps;
      if dep !in Keys(services) then
        Some("Service \"" + id + "\" depends on unknown service \"" + dep + "\"")
      else if Get(services, dep).value.ready == BaseDefaultReady then
        Some("Service \"" + id + "\" depends on service \"" + dep + "\" which has no defined `ready` config")
      else
        assert forall d :: d in deps ==> d == dep || d in deps[1..];
        DependencyReferenceError(services, id, deps[1..])
  }

  /** The first reference error over the services from `entries` on, in configuration order. */
  function ReferenceError(services: seq<(string, NormalizedServiceConfig)>,
                          entries: seq<(string, NormalizedServiceConfig)>): (r: Option<string>)
    ensures r.None? <==> ReferencesValid(services, entries)
  {
    if entries == [] then None
    else
      match DependencyReferenceError(services, entries[0].0, entries[0].1.dependencies)
      case Some(e) => Some(e)
      case None =>
        assert forall e :: e in entries ==> e == entries[0] || e in entries[1..];
        ReferenceError(services, entries[1..])
  }

  /** `Service "<id>" has cyclic dependency a -> b -> a`, for a cycle starting at `id`. */
  function CycleMessage(cycle: seq<string>): string
    requires |cycle| >= 1
  {
    "Service \"" + cycle[0] + "\" has cyclic dependency " + Join(cycle, " -> ")
  }

  /** When every dependency is valid, the graph is closed. */
  lemma ValidReferencesClosed(services: seq<(string, NormalizedServiceConfig)>)
    requires DistinctKeys(services)
    requires ReferencesValid(services, services)
    ensures Closed(ServiceGraph(services))
  {
    var g := ServiceGraph(services);
    forall id, d | id in g && d in g[id] ensures d in g {
      var i :| 0 <= i < |services| && services[i].0 == id;
      GetEntry(services, i);
      assert services[i] in services;
      assert ValidDependency(services, d);
    }
  }

  /** What `validateDependencyTree` throws, if anything: reference errors first, then the first
      cycle found from each service in configuration order. */
  function DependencyTreeError(services: seq<(string, NormalizedServiceConfig)>): (r: Option<string>)
    requires DistinctKeys(services)
    ensures !ReferencesValid(services, services) ==> r.Some? && r == ReferenceError(services, services)
    ensures ReferencesValid(services, services) && r.Some? ==>
      exists c :: |c| >= 1 && r.value == CycleMessage(c)
  {
    match ReferenceError(services, services)
    case Some(e) => Some(e)
    case None =>
      ValidReferencesClosed(services);
      match FirstCycle(ServiceGraph(services), Keys(services))
      case Some(c) => Some(CycleMessage(c))
      case None => None
  }

  /**
   * The dependency tree is accepted exactly when every dependency names a service that has its own
   * `ready` and the graph has no cycle.
   */
  lemma DependencyTreeAccepted(services: seq<(string, NormalizedServiceConfig)>)
    requires DistinctKeys(services)
    ensures DependencyTreeError(services).None? <==>
      ReferencesValid(services, services) && Closed(ServiceGraph(services)) && !HasCycle(ServiceGraph(services))
  {
    if ReferencesValid(services, services) {
      ValidReferencesClosed(services);
      FirstCycleIffHasCycle(ServiceGraph(services), Keys(services));
    }
  }

  /** A cycle error names a real cycle of the graph: the walk from the repeated service back to it. */
  lemma CycleErrorIsCycle(services: seq<(string, NormalizedServiceConfig)>)
    requires DistinctKeys(services)
    requires ReferencesValid(services, services) && DependencyTreeError(services).Some?
    ensures Closed(ServiceGraph(services))
    ensures exists c :: IsCycle(ServiceGraph(services), c) && DependencyTreeError(services) == Some(CycleMessage(c))
  {
    ValidReferencesClosed(services);
    FirstCycleSound(ServiceGraph(services), Keys(services));
  }

  /** `validateDependencyTree`: the nested loops over services and their dependencies, then the
      cycle check from every service. */
  method ValidateDependencyTree(services: seq<(string, NormalizedServiceConfig)>) returns (error: Option<string>)
    requires DistinctKeys(services)
    ensures error == DependencyTreeError(services)
  {
    var serviceIds := Keys(services);
    for i := 0 to |services|
      invariant ReferenceError(services, services) == ReferenceError(services, services[i..])
    {
      var (serviceId, config) := services[i];
      var dependencies := config.dependencies;
      for j := 0 to |dependencies|
        invariant DependencyReferenceError(services, serviceId, dependencies) ==
                  DependencyReferenceError(services, serviceId, dependencies[j..])
      {
        var dependency := dependencies[j];
        assert dependencies[j..][1..] == dependencies[j + 1..];
        if dependency !in serviceIds {
          return Some("Service \"" + serviceId + "\" depends on unknown service \"" + dependency + "\"");
        }
        if Get(services, dependency).value.ready == BaseDefaultReady {
          return Some("Service \"" + serviceId + "\" depends on service \"" + dependency +
                      "\" which has no defined `ready` config");
        }
      }
      assert dependencies[|dependencies|..] == [];
      assert services[i..][1..] == services[i + 1..];
    }
    assert services[|services|..] == [];
    ValidReferencesClosed(services);
    var g := ServiceGraph(services);
    for i := 0 to |serviceIds|
      invariant FirstCycle(g, serviceIds) == FirstCycle(g, serviceIds[i..])
    {
      assert serviceIds[i..][1..] == serviceIds[i + 1..];
      var cycle := FindCycle(g, serviceIds[i], []);
      if cycle.Some? {
        return Some(CycleMessage(cycle.value));
      }
    }
    assert serviceIds[|serviceIds|..] == [];
    return None;
  }

  // ---------------------------------------------------------------------------------------------
  // validateAndNormalizeConfig

  /** `Object.entries(config.services).filter(([, value]) => value)`. */
  function TruthyEntries(services: seq<(string, Option<ServiceConfig>)>): (r: seq<(string, ServiceConfig)>)
    ensures forall e :: e in r ==> (e.0, Some(e.1)) in services
    ensures forall e :: e in services && e.1.Some? ==> (e.0, e.1.value) in r
    ensures DistinctKeys(services) ==> DistinctKeys(r)
  {
    if services == [] then []
    else
      var rest := TruthyEntries(services[1..]);
      assert DistinctKeys(services) ==> forall e :: e in rest ==> e.0 != services[0].0 by {
        if DistinctKeys(services) {
          forall e | e in rest ensures e.0 != services[0].0 {
            var j :| 0 <= j < |services[1..]| && services[1..][j] == (e.0, Some(e.1));
            assert services[j + 1] == services[1..][j];
          }
        }
      }
      if services[0].1.None? then rest
      else [(services[0].0, services[0].1.value)] + rest
  }
  /** The filter keeps the order: filtering a concatenation concatenates the filtered halves. */
  lemma {:induction false} TruthyEntriesAppend(a: seq<(string, Option<ServiceConfig>)>, b: seq<(string, Option<ServiceConfig>)>)
    ensures TruthyEntries(a + b) == TruthyEntries(a) + TruthyEntries(b)
  {
    if a == [] {
      assert a + b == b;
    } else {
      assert (a + b)[0] == a[0] && (a + b)[1..] == a[1..] + b;
      TruthyEntriesAppend(a[1..], b);
    }
  }


  /** The normalised services are the given entries, in order, each passed through
      `processServiceConfig`. */
  predicate ProcessedInOrder(entries: seq<(string, ServiceConfig)>, defaults: ServiceConfig,
                             processEnv: seq<(string, string)>, services: seq<(string, NormalizedServiceConfig)>) {
    && |services| == |entries|
    && forall i :: 0 <= i < |entries| ==>
         services[i].0 == entries[i].0 &&
         ProcessServiceConfig(entries[i].0, entries[i].1, defaults, processEnv) == Ok(services[i].1)
  }

  /** `processServiceConfig` against the given defaults and environment, as a callback. */
  function ServiceProcessor(defaults: ServiceConfig, processEnv: seq<(string, string)>)
    : (string, ServiceConfig) -> Result<NormalizedServiceConfig, string>
  {
    (id: string, config: ServiceConfig) => ProcessServiceConfig(id, config, defaults, processEnv)
  }

  /**
   * What processing the entries in order yields: every entry processed, in order, when none
   * fails, and otherwise the error of the first entry that fails.
   */
  function ProcessedServices(entries: seq<(string, ServiceConfig)>, defaults: ServiceConfig,
                             processEnv: seq<(string, string)>)
    : (r: Result<seq<(string, NormalizedServiceConfig)>, string>)
    requires DistinctKeys(entries)
    ensures r.Ok? <==> forall i :: 0 <= i < |entries| ==> ProcessServiceConfig(entries[i].0, entries[i].1, defaults, processEnv).Ok?
    ensures r.Ok? ==> ProcessedInOrder(entries, defaults, processEnv, r.value) && DistinctKeys(r.value)
    ensures r.Err? ==> exists i :: FirstFailure(entries, ServiceProcessor(defaults, processEnv), i, r.error)
  {
    var f := ServiceProcessor(defaults, processEnv);
    var r := MapEntries(entries, f);
    MapEntriesOkIff(entries, f);
    if r.Ok? then
      MapEntriesOk(entries, f);
      assert DistinctKeys(r.value) by {
        forall i, j | 0 <= i < j < |r.value| ensures r.value[i].0 != r.value[j].0 {
          assert r.value[i].0 == entries[i].0 && r.value[j].0 == entries[j].0;
        }
      }
      r
    else
      MapEntriesErr(entries, f);
      r
  }

  /** One more entry processed in order extends the result by its own entry. */
  lemma ProcessedExtend(entries: seq<(string, ServiceConfig)>, defaults: ServiceConfig,
                        processEnv: seq<(string, string)>, services: seq<(string, NormalizedServiceConfig)>,
                        i: nat, v: NormalizedServiceConfig)
    requires i < |entries| && ProcessedInOrder(entries[..i], defaults, processEnv, services)
    requires Keys(services) == Keys(entries[..i])
    requires ProcessServiceConfig(entries[i].0, entries[i].1, defaults, processEnv) == Ok(v)
    ensures ProcessedInOrder(entries[..i + 1], defaults, processEnv, services + [(entries[i].0, v)])
    ensures Keys(services + [(entries[i].0, v)]) == Keys(entries[..i + 1])
  {
    assert entries[..i + 1] == entries[..i] + [entries[i]];
  }

  /**
   * The `for (const [id, config] of truthyServiceEntries)` loop that fills `services[id]`: the
   * first service that fails stops the loop with its error.
   */
  method ProcessServices(entries: seq<(string, ServiceConfig)>, defaults: ServiceConfig,
                         processEnv: seq<(string, string)>)
    returns (r: Result<seq<(string, NormalizedServiceConfig)>, string>)
    requires DistinctKeys(entries)
    ensures r == ProcessedServices(entries, defaults, processEnv)
    ensures r.Ok? ==> ProcessedInOrder(entries, defaults, processEnv, r.value) && DistinctKeys(r.value)
    ensures r.Err? ==>
      exists i :: 0 <= i < |entries|
        && (forall j :: 0 <= j < i ==> ProcessServiceConfig(entries[j].0, entries[j].1, defaults, processEnv).Ok?)
        && ProcessServiceConfig(entries[i].0, entries[i].1, defaults, processEnv) == Err(r.error)
  {
    ghost var f := ServiceProcessor(defaults, processEnv);
    var services: seq<(string, NormalizedServiceConfig)> := [];
    for i := 0 to |entries|
      invariant ProcessedInOrder(entries[..i], defaults, processEnv, services)
      invariant Keys(services) == Keys(entries[..i])
    {
      var (id, config) := entries[i];
      var processed := ProcessServiceConfig(id, config, defaults, processEnv);
      if processed.Err? {
        assert forall j :: 0 <= j < i ==> entries[..i][j] == entries[j];
        assert FirstFailure(entries, f, i, processed.error);
        FirstFailureDecides(entries, f, i, processed.error);
        return Err(processed.error);
      }
      assert id !in Keys(entries[..i]);
      AssignNew(services, id, processed.value);
      ProcessedExtend(entries, defaults, processEnv, services, i, processed.value);
      services := Assign(services, id, processed.value);
    }
    assert entries[..|entries|] == entries;
    AllReturnDecides(entries, f, services);
    return Ok(services);
  }

  /**
   * `validateAndNormalizeConfig(config)` on a platform that is or is not win32 and with the given
   * `process.env`. The shutdown flags are never both set and Windows CTRL_C shutdown needs win32;
   * the log level defaults to "info"; the services are the truthy entries, in order, each
   * processed against `serviceDefaults`; an accepted configuration has a dependency tree that
   * `validateDependencyTree` accepts, and every service has a binary to run.
   */
  method ValidateAndNormalizeConfig(config: CompositeServiceConfig, isWin32: bool,
                                    processEnv: seq<(string, string)>)
    returns (r: Result<NormalizedCompositeServiceConfig, string>)
    requires DistinctKeys(config.services)
    ensures r.Ok? ==> r.value.logLevel == config.logLevel.GetOr(Info)
    ensures r.Ok? ==> !(r.value.windowsCtrlCShutdown && r.value.gracefulShutdown)
    ensures r.Ok? ==> (r.value.windowsCtrlCShutdown <==> isWin32 && config.windowsCtrlCShutdown == Some(true))
    ensures r.Ok? ==>
      (r.value.gracefulShutdown <==> !r.value.windowsCtrlCShutdown && config.gracefulShutdown == Some(true))
    ensures var check := ExtraServiceConfigChecks("config.serviceDefaults", config.serviceDefaults.GetOr(NoProperties));
      (check.Some? ==> r == Err(check.value)) &&
      (check.None? && TruthyEntries(config.services) == [] ==> r == Err("`config.services` has no entries"))
    ensures r.Ok? ==>
      && ExtraServiceConfigChecks("config.serviceDefaults", config.serviceDefaults.GetOr(NoProperties)).None?
      && TruthyEntries(config.services) != []
      && ProcessedInOrder(TruthyEntries(config.services), config.serviceDefaults.GetOr(NoProperties),
                          processEnv, r.value.services)
      && DistinctKeys(r.value.services)
      && DependencyTreeError(r.value.services).None?
    ensures r.Ok? ==> forall i :: 0 <= i < |r.value.services| ==>
      r.value.services[i].1.command != [] && !IsBlank(r.value.services[i].1.command[0])
    ensures var defaults := config.serviceDefaults.GetOr(NoProperties);
      var truthy := TruthyEntries(config.services);
      ExtraServiceConfigChecks("config.serviceDefaults", defaults).None? && truthy != [] ==>
        var p := ProcessedServices(truthy, defaults, processEnv);
        && (p.Err? ==> r == Err(p.error))
        && (p.Ok? && DependencyTreeError(p.value).Some? ==> r == Err(DependencyTreeError(p.value).value))
        && (p.Ok? && DependencyTreeError(p.value).None? ==> r.Ok? && r.value.services == p.value)
    ensures var defaults := config.serviceDefaults.GetOr(NoProperties);
      var truthy := TruthyEntries(config.services);
      r.Ok? <==>
        && ExtraServiceConfigChecks("config.serviceDefaults", defaults).None?
        && truthy != []
        && (forall i :: 0 <= i < |truthy| ==> ProcessServiceConfig(truthy[i].0, truthy[i].1, defaults, processEnv).Ok?)
        && DependencyTreeError(ProcessedServices(truthy, defaults, processEnv).value).None?
  {
    var logLevel := config.logLevel.GetOr(Info);
    var windowsCtrlCShutdown := isWin32 && config.windowsCtrlCShutdown.GetOr(false);
    var gracefulShutdown := !windowsCtrlCShutdown && config.gracefulShutdown.GetOr(false);
    var serviceDefaults := config.serviceDefaults.GetOr(NoProperties);
    var defaultsCheck := ExtraServiceConfigChecks("config.serviceDefaults", serviceDefaults);
    if defaultsCheck.Some? {
      return Err(defaultsCheck.value);
    }
    var truthyServiceEntries := TruthyEntries(config.services);
    if |truthyServiceEntries| == 0 {
      return Err("`config.services` has no entries");
    }
    var processed := ProcessServices(truthyServiceEntries, serviceDefaults, processEnv);
    if processed.Err? {
      return Err(processed.error);
    }
    var services := processed.value;
    var error := ValidateDependencyTree(services);
    if error.Some? {
      return Err(error.value);
    }
    return Ok(NormalizedCompositeServiceConfig(logLevel, gracefulShutdown, windowsCtrlCShutdown, services));
  }
}
