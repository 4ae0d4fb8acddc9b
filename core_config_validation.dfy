/**
 * `validateAndNormalizeConfig` of `src/core/validateAndNormalizeConfig.ts`, the older validator
 * for plain JavaScript callers: every failure is a `ConfigValidationError` whose message is
 * `config.<key>: <message>`, naming the offending property.
 */
module CoreConfigValidation {
  import opened Results
  import opened Text
  import opened Entries
  import opened JsValues
  import opened DependencyGraph

  datatype CompositeServiceConfig = CompositeServiceConfig(printConfig: JsValue, services: seq<(string, JsValue)>)

  datatype NormalizedComposedServiceConfig = NormalizedComposedServiceConfig(
    dependencies: seq<string>,
    command: seq<string>,
    env: seq<(string, string)>,
    ready: Callback,
    handleCrash: Callback)

  datatype NormalizedCompositeServiceConfig = NormalizedCompositeServiceConfig(
    printConfig: bool,
    services: seq<(string, NormalizedComposedServiceConfig)>)

  /** The message of `new ConfigValidationError(key, message)`. */
  function ConfigError(key: string, message: string): (m: string)
    ensures StartsWith(m, "config.")
  {
    "config." + key + ": " + message
  }

  /** `Object.entries(config.services).filter(([, value]) => value)`. */
  function FilteredEntries(services: seq<(string, JsValue)>): (r: seq<(string, JsValue)>)
    ensures forall e :: e in r <==> e in services && Truthy(e.1)
    ensures DistinctKeys(services) ==> DistinctKeys(r)
  {
    if services == [] then []
    else
      var rest := FilteredEntries(services[1..]);
      assert DistinctKeys(services) ==> forall e :: e in rest ==> e.0 != services[0].0 by {
        if DistinctKeys(services) {
          forall e | e in rest ensures e.0 != services[0].0 {
            var j :| 0 <= j < |services[1..]| && services[1..][j] == e;
            assert services[j + 1] == e;
          }
        }
      }
      if Truthy(services[0].1) then [services[0]] + rest else rest
  }

  /** The mapping callback for one service: the checks run in this order and the first failing
      `_assert` throws, its key prefixed with `services.<id>.`. */
  function NormalizeService(id: string, config: JsValue, serviceIds: seq<string>)
    : (r: Result<NormalizedComposedServiceConfig, string>)
    ensures r.Err? ==> StartsWith(r.error, "config.services." + id + ".")
    ensures r.Err? ==> StartsWith(r.error, "config.")
    ensures r.Ok? <==>
      && NormalizeDependencies(Prop(config, "dependencies"), serviceIds).Ok?
      && NormalizeCommand(Prop(config, "command")).Ok?
      && NormalizeEnv(Prop(config, "env")).Ok?
      && CallbackOrDefault(Prop(config, "ready")).Some?
      && CallbackOrDefault(Prop(config, "handleCrash")).Some?
    ensures r.Ok? ==> forall d :: d in r.value.dependencies ==> d in serviceIds
    ensures r.Ok? && Prop(config, "command").Str? ==> r.value.command == Tokens(Prop(config, "command").s)
    ensures r.Ok? && !Truthy(Prop(config, "ready")) ==> r.value.ready == BuiltInDefault
    ensures r.Ok? && !Truthy(Prop(config, "handleCrash")) ==> r.value.handleCrash == BuiltInDefault
    ensures NormalizeDependencies(Prop(config, "dependencies"), serviceIds).Err? ==>
      var p := NormalizeDependencies(Prop(config, "dependencies"), serviceIds).error;
      r == Err(Failure(id, "dependencies",
        if p.NotAnArray? then "Not an array" else "Contains invalid service id '" + p.shown + "'"))
  {
    match NormalizeDependencies(Prop(config, "dependencies"), serviceIds)
    case Err(NotAnArray) => Err(Failure(id, "dependencies", "Not an array"))
    case Err(InvalidServiceId(shown)) =>
      Err(Failure(id, "dependencies", "Contains invalid service id '" + shown + "'"))
    case Ok(dependencies) =>
      match NormalizeCommand(Prop(config, "command"))
      case Err(NotStringOrArray) => Err(Failure(id, "command", "Not a string or an array"))
      case Err(ElementNotStringOrNumber) =>
        Err(Failure(id, "command", "Contains an element that is not string or number"))
      case Ok(command) =>
        match NormalizeEnv(Prop(config, "env"))
        case Err(envKey) => Err(Failure(id, "env." + envKey, "Not a string, a number, or undefined"))
        case Ok(env) =>
          match CallbackOrDefault(Prop(config, "ready"))
          case None => Err(Failure(id, "ready", "Not a function"))
          case Some(ready) =>
            match CallbackOrDefault(Prop(config, "handleCrash"))
            case None => Err(Failure(id, "handleCrash", "Not a function"))
            case Some(handleCrash) =>
              Ok(NormalizedComposedServiceConfig(dependencies, command, env, ready, handleCrash))
  }

  /** `_assert`'s error for property `key` of service `id`. */
  function Failure(id: string, key: string, message: string): (m: string)
    ensures m == ConfigError("services." + id + "." + key, message)
    ensures StartsWith(m, "config.services." + id + ".")
  {
    var m := "config." + ("services." + id + "." + key) + ": " + message;
    assert m == "config.services." + id + "." + (key + ": " + message);
    m
  }

  /** The callback of the `map` over the filtered entries. */
  function ServiceNormalizer(serviceIds: seq<string>): (string, JsValue) -> Result<NormalizedComposedServiceConfig, string> {
    (id: string, config: JsValue) => NormalizeService(id, config, serviceIds)
  }

  /**
   * The `map` over the filtered entries: it succeeds exactly when every service normalises, and
   * then holds each id with its own normalised service, in order; otherwise it fails with the
   * error of the first service that fails.
   */
  function NormalizeServices(entries: seq<(string, JsValue)>, serviceIds: seq<string>)
    : (r: Result<seq<(string, NormalizedComposedServiceConfig)>, string>)
    ensures r.Ok? <==> forall i :: 0 <= i < |entries| ==> NormalizeService(entries[i].0, entries[i].1, serviceIds).Ok?
    ensures r.Ok? ==> |r.value| == |entries| && forall i :: 0 <= i < |entries| ==>
      r.value[i] == (entries[i].0, NormalizeService(entries[i].0, entries[i].1, serviceIds).value)
    ensures r.Err? ==> exists i :: FirstFailure(entries, ServiceNormalizer(serviceIds), i, r.error)
  {
    var f := ServiceNormalizer(serviceIds);
    var r := MapEntries(entries, f);
    MapEntriesOkIff(entries, f);
    if r.Ok? then
      MapEntriesOk(entries, f);
      r
    else
      MapEntriesErr(entries, f);
      r
  }

  /** The dependency graph of the normalised services. */
  function ServiceGraph(services: seq<(string, NormalizedComposedServiceConfig)>): (g: Graph)
    ensures g.Keys == set k | k in Keys(services)
  {
    map k | k in Keys(services) :: Get(services, k).value.dependencies
  }

  /** Normalised services whose dependencies all name services form a closed graph. */
  lemma ServicesClosed(services: seq<(string, NormalizedComposedServiceConfig)>)
    requires DistinctKeys(services)
    requires forall i, d :: 0 <= i < |services| && d in services[i].1.dependencies ==> d in Keys(services)
    ensures Closed(ServiceGraph(services))
  {
    var g := ServiceGraph(services);
    forall id, d | id in g && d in g[id] ensures d in g {
      var i :| 0 <= i < |services| && services[i].0 == id;
      GetEntry(services, i);
    }
  }

  /**
   * `validateAndNormalizeConfig(config)`: `printConfig` is its truthiness; an empty filtered
   * service map, any failing service, or a cycle (checked from every service in order, on the
   * already normalised services) is reported.
   */
  function ValidateAndNormalizeConfig(config: CompositeServiceConfig): (r: Result<NormalizedCompositeServiceConfig, string>)
    requires DistinctKeys(config.services)
    ensures r.Err? ==> StartsWith(r.error, "config.")
    ensures r.Ok? ==> r.value.printConfig == Truthy(config.printConfig)
    ensures FilteredEntries(config.services) == [] ==> r == Err(ConfigError("services", "No configured service"))
    ensures r.Ok? ==> Keys(r.value.services) == Keys(FilteredEntries(config.services))
    ensures var f := FilteredEntries(config.services); var n := NormalizeServices(f, Keys(f));
      r.Ok? ==> n.Ok? && r.value.services == n.value
    ensures var f := FilteredEntries(config.services); var n := NormalizeServices(f, Keys(f));
      f != [] && n.Err? ==> r == Err(n.error)
  {
    var printConfig := Truthy(config.printConfig);
    var filtered := FilteredEntries(config.services);
    var serviceIds := Keys(filtered);
    if |serviceIds| == 0 then Err(ConfigError("services", "No configured service"))
    else
      match NormalizeServices(filtered, serviceIds)
      case Err(e) =>
        ServiceErrorPrefix(filtered, serviceIds);
        Err(e)
      case Ok(services) =>
        ServicesValid(filtered, serviceIds, services);
        match FirstCycle(ServiceGraph(services), Keys(services))
        case Some(cycle) => Err(ConfigError("services", "Found cyclic dependency " + Join(cycle, " -> ")))
        case None => Ok(NormalizedCompositeServiceConfig(printConfig, services))
  }

  /** A failing service reports an error under `config.services.<id>.`. */
  lemma ServiceErrorPrefix(entries: seq<(string, JsValue)>, serviceIds: seq<string>)
    requires NormalizeServices(entries, serviceIds).Err?
    ensures StartsWith(NormalizeServices(entries, serviceIds).error, "config.")
  {
    var e := NormalizeServices(entries, serviceIds).error;
    MapEntriesErr(entries, ServiceNormalizer(serviceIds));
    var i :| FirstFailure(entries, ServiceNormalizer(serviceIds), i, e);
  }

  lemma ServicesValid(filtered: seq<(string, JsValue)>, serviceIds: seq<string>,
                      services: seq<(string, NormalizedComposedServiceConfig)>)
    requires DistinctKeys(filtered) && serviceIds == Keys(filtered)
    requires NormalizeServices(filtered, serviceIds) == Ok(services)
    ensures Keys(services) == serviceIds
    ensures DistinctKeys(services) && Closed(ServiceGraph(services))
  {
    MapEntriesOk(filtered, ServiceNormalizer(serviceIds));
    assert Keys(services) == serviceIds;
    forall i, d | 0 <= i < |services| && d in services[i].1.dependencies ensures d in Keys(services) {
      assert NormalizeService(filtered[i].0, filtered[i].1, serviceIds) == Ok(services[i].1);
    }
    ServicesClosed(services);
  }

  /** A configuration is accepted exactly when it has a service, every service normalises, and the
      dependency graph has no cycle. */
  lemma AcceptedIff(config: CompositeServiceConfig)
    requires DistinctKeys(config.services)
    ensures var filtered := FilteredEntries(config.services);
      var result := NormalizeServices(filtered, Keys(filtered));
      ValidateAndNormalizeConfig(config).Ok? <==>
        filtered != [] && result.Ok? &&
        DistinctKeys(result.value) && Closed(ServiceGraph(result.value)) && !HasCycle(ServiceGraph(result.value))
  {
    var filtered := FilteredEntries(config.services);
    var result := NormalizeServices(filtered, Keys(filtered));
    if filtered != [] && result.Ok? {
      ServicesValid(filtered, Keys(filtered), result.value);
      FirstCycleIffHasCycle(ServiceGraph(result.value), Keys(result.value));
    }
  }

  /** Once every service normalises, a rejection names a real cycle of the dependency graph:
      `config.services: Found cyclic dependency a -> b -> a`. */
  lemma CycleReported(config: CompositeServiceConfig)
    requires DistinctKeys(config.services)
    requires var filtered := FilteredEntries(config.services);
      filtered != [] && NormalizeServices(filtered, Keys(filtered)).Ok? && ValidateAndNormalizeConfig(config).Err?
    ensures var filtered := FilteredEntries(config.services);
      var services := NormalizeServices(filtered, Keys(filtered)).value;
      exists c :: IsCycle(ServiceGraph(services), c) &&
        ValidateAndNormalizeConfig(config) == Err(ConfigError("services", "Found cyclic dependency " + Join(c, " -> ")))
  {
    var filtered := FilteredEntries(config.services);
    var services := NormalizeServices(filtered, Keys(filtered)).value;
    ServicesValid(filtered, Keys(filtered), services);
    FirstCycleSound(ServiceGraph(services), Keys(services));
  }
}
