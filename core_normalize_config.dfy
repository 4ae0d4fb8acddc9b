/**
 * `normalizeCompositeServiceConfig` of `src/core/normalizeCompositeServiceConfig.ts`, with the
 * `assert` helper of `src/core/assert.ts` folded in: every failure is an `Error` whose message
 * starts with `composite-service: Invalid Config: `, and a per-service failure also names the
 * service. Unlike the other validators, `ready` has no default and the check for an empty service
 * map comes after the cycle check.
 */
module CoreNormalizeConfig {
  import opened Results
  import opened Text
  import opened Entries
  import opened JsValues
  import opened DependencyGraph

  datatype CompositeServiceConfig = CompositeServiceConfig(printConfig: JsValue, services: seq<(string, JsValue)>)

  datatype NormalizedComposedServiceConfig = NormalizedComposedServiceConfig(
    dependencies: seq<string>,
    command: seq<string>,
    env: seq<(string, string)>,
    ready: string)

  datatype NormalizedCompositeServiceConfig = NormalizedCompositeServiceConfig(
    printConfig: bool,
    services: seq<(string, NormalizedComposedServiceConfig)>)

  /** The message of the `Error` that `assert(value, message)` throws when `value` is falsy. */
  function AssertionMessage(message: string): (m: string)
    ensures StartsWith(m, "composite-service: ")
  {
    "composite-service: " + message
  }

  /** `_assert`: the message of an invalid configuration. */
  function InvalidConfig(message: string): (m: string)
    ensures m == AssertionMessage("Invalid Config: " + message)
    ensures StartsWith(m, "composite-service: Invalid Config: ")
  {
    var m := "composite-service: " + ("Invalid Config: " + message);
    assert m == "composite-service: Invalid Config: " + message;
    m
  }

  /** `__assert`: the message of an invalid service configuration. */
  function InvalidService(id: string, message: string): (m: string)
    ensures m == InvalidConfig("Service '" + id + "': " + message)
    ensures StartsWith(m, "composite-service: Invalid Config: Service '" + id + "': ")
    ensures StartsWith(m, "composite-service: Invalid Config: ")
  {
    var m := InvalidConfig("Service '" + id + "': " + message);
    assert m == "composite-service: Invalid Config: Service '" + id + "': " + message;
    m
  }

  /** `Object.entries(config.services).filter(([, value]) => value)`. */
  function FilteredEntries(services: seq<(string, JsValue)>): (r: seq<(string, JsValue)>)
    ensures forall e :: e in r <==> e in services && Truthy(e.1)
    ensures DistinctKeys(services) ==> DistinctKeys(r)
  {
    if services == [] then []
    else
      var rest := FilteredEntries(services[1..]);
      assert DistinctKeys(services) ==> forall e :: e in rest ==> e.0 != services[0].0 by {
        if DistinctKeys(services) {
          forall e | e in rest ensures e.0 != services[0].0 {
            var j :| 0 <= j < |services[1..]| && services[1..][j] == e;
            assert services[j + 1] == e;
          }
        }
      }
      if Truthy(services[0].1) then [services[0]] + rest else rest
  }

  /** The checks of the mapping callback for one service, in this order; the first failing one
      gives its message without the service's prefix. */
  function CheckService(config: JsValue, serviceIds: seq<string>)
    : (r: Result<NormalizedComposedServiceConfig, string>)
    ensures r.Ok? ==> forall d :: d in r.value.dependencies ==> d in serviceIds
  {
    match NormalizeDependencies(Prop(config, "dependencies"), serviceIds)
    case Err(NotAnArray) => Err("`dependencies` is not an array")
    case Err(InvalidServiceId(shown)) => Err("Dependency on nonexistent service '" + shown + "'")
    case Ok(dependencies) =>
      match NormalizeCommand(Prop(config, "command"))
      case Err(NotStringOrArray) => Err("`command` is not a string or an array")
      case Err(ElementNotStringOrNumber) => Err("Command contains an element that is not string or number")
      case Ok(command) =>
        match NormalizeEnv(Prop(config, "env"))
        case Err(envKey) => Err("Environment variable '" + envKey + "' is not string, number, or undefined")
        case Ok(env) =>
          var ready := Prop(config, "ready");
          if !ready.Func? then Err("`ready` is not a function")
          else Ok(NormalizedComposedServiceConfig(dependencies, command, env, ready.source))
  }

  /** The mapping callback for one service: a failing check throws through `__assert`, which puts
      the service's prefix on its message. */
  function NormalizeService(id: string, config: JsValue, serviceIds: seq<string>)
    : (r: Result<NormalizedComposedServiceConfig, string>)
    ensures r.Err? ==> StartsWith(r.error, "composite-service: Invalid Config: Service '" + id + "': ")
    ensures r.Err? ==> StartsWith(r.error, "composite-service: Invalid Config: ")
    ensures r.Ok? ==> forall d :: d in r.value.dependencies ==> d in serviceIds
  {
    match CheckService(config, serviceIds)
    case Err(message) => Err(InvalidService(id, message))
    case Ok(service) => Ok(service)
  }

  /** A service is accepted exactly when its dependencies, command and environment normalise and
      its `ready` is a function; the dependency checks come first. */
  lemma NormalizeServiceOutcome(id: string, config: JsValue, serviceIds: seq<string>)
    ensures NormalizeService(id, config, serviceIds).Ok? <==>
      && NormalizeDependencies(Prop(config, "dependencies"), serviceIds).Ok?
      && NormalizeCommand(Prop(config, "command")).Ok?
      && NormalizeEnv(Prop(config, "env")).Ok?
      && Prop(config, "ready").Func?
    ensures NormalizeDependencies(Prop(config, "dependencies"), serviceIds).Err? ==>
      var p := NormalizeDependencies(Prop(config, "dependencies"), serviceIds).error;
      NormalizeService(id, config, serviceIds) == Err(InvalidService(id,
        if p.NotAnArray? then "`dependencies` is not an array" else "Dependency on nonexistent service '" + p.shown + "'"))
  {
  }

  /** An accepted service's string command is split into its tokens, and its `ready` is kept. */
  lemma NormalizeServiceValue(id: string, config: JsValue, serviceIds: seq<string>)
    requires NormalizeService(id, config, serviceIds).Ok?
    ensures var s := NormalizeService(id, config, serviceIds).value;
      && (Prop(config, "command").Str? ==> s.command == Tokens(Prop(config, "command").s))
      && Prop(config, "ready") == Func(s.ready)
  {
  }

  /** The callback of the `map` over the filtered entries. */
  function ServiceNormalizer(serviceIds: seq<string>): (string, JsValue) -> Result<NormalizedComposedServiceConfig, string> {
    (id: string, config: JsValue) => NormalizeService(id, config, serviceIds)
  }

  /**
   * The `map` over the filtered entries: it succeeds exactly when every service normalises, and
   * then holds each id with its own normalised service, in order; otherwise it fails with the
   * error of the first service that fails.
   */
  function NormalizeServices(entries: seq<(string, JsValue)>, serviceIds: seq<string>)
    : (r: Result<seq<(string, NormalizedComposedServiceConfig)>, string>)
    ensures r.Ok? <==> forall i :: 0 <= i < |entries| ==> NormalizeService(entries[i].0, entries[i].1, serviceIds).Ok?
    ensures r.Ok? ==> |r.value| == |entries| && forall i :: 0 <= i < |entries| ==>
      r.value[i] == (entries[i].0, NormalizeService(entries[i].0, entries[i].1, serviceIds).value)
    ensures r.Err? ==> exists i :: FirstFailure(entries, ServiceNormalizer(serviceIds), i, r.error)
  {
    var f := ServiceNormalizer(serviceIds);
    var r := MapEntries(entries, f);
    MapEntriesOkIff(entries, f);
    if r.Ok? then
      MapEntriesOk(entries, f);
      r
    else
      MapEntriesErr(entries, f);
      r
  }

  /** The dependency graph of the normalised services. */
  function ServiceGraph(services: seq<(string, NormalizedComposedServiceConfig)>): (g: Graph)
    ensures g.Keys == set k | k in Keys(services)
  {
    map k | k in Keys(services) :: Get(services, k).value.dependencies
  }

  /** Normalised services whose dependencies all name services form a closed graph. */
  lemma ServicesClosed(services: seq<(string, NormalizedComposedServiceConfig)>)
    requires DistinctKeys(services)
    requires forall i, d :: 0 <= i < |services| && d in services[i].1.dependencies ==> d in Keys(services)
    ensures Closed(ServiceGraph(services))
  {
    var g := ServiceGraph(services);
    forall id, d | id in g && d in g[id] ensures d in g {
      var i :| 0 <= i < |services| && services[i].0 == id;
      GetEntry(services, i);
    }
  }

  lemma ServicesValid(filtered: seq<(string, JsValue)>, serviceIds: seq<string>,
                      services: seq<(string, NormalizedComposedServiceConfig)>)
    requires DistinctKeys(filtered) && serviceIds == Keys(filtered)
    requires NormalizeServices(filtered, serviceIds) == Ok(services)
    ensures Keys(services) == serviceIds
    ensures DistinctKeys(services) && Closed(ServiceGraph(services))
  {
    MapEntriesOk(filtered, ServiceNormalizer(serviceIds));
    assert Keys(services) == serviceIds;
    forall i, d | 0 <= i < |services| && d in services[i].1.dependencies ensures d in Keys(services) {
      assert NormalizeService(filtered[i].0, filtered[i].1, serviceIds) == Ok(services[i].1);
    }
    ServicesClosed(services);
  }

  /** A service that fails reports an invalid configuration. */
  lemma ServiceErrorPrefix(entries: seq<(string, JsValue)>, serviceIds: seq<string>)
    requires NormalizeServices(entries, serviceIds).Err?
    ensures StartsWith(NormalizeServices(entries, serviceIds).error, "composite-service: Invalid Config: ")
  {
    var e := NormalizeServices(entries, serviceIds).error;
    MapEntriesErr(entries, ServiceNormalizer(serviceIds));
    var i :| FirstFailure(entries, ServiceNormalizer(serviceIds), i, e);
  }

  /**
   * `normalizeCompositeServiceConfig(config)`: `printConfig` is its truthiness; a failing service
   * or a cycle is reported first, and only then an empty service map.
   */
  function NormalizeCompositeServiceConfig(config: CompositeServiceConfig)
    : (r: Result<NormalizedCompositeServiceConfig, string>)
    requires DistinctKeys(config.services)
    ensures r.Err? ==> StartsWith(r.error, "composite-service: Invalid Config: ")
    ensures r.Ok? ==> r.value.printConfig == Truthy(config.printConfig)
    ensures FilteredEntries(config.services) == [] ==> r == Err(InvalidConfig("No configured service"))
    ensures r.Ok? ==> Keys(r.value.services) == Keys(FilteredEntries(config.services)) && r.value.services != []
    ensures var f := FilteredEntries(config.services); var n := NormalizeServices(f, Keys(f));
      r.Ok? ==> n.Ok? && r.value.services == n.value
    ensures var f := FilteredEntries(config.services); var n := NormalizeServices(f, Keys(f));
      n.Err? ==> r == Err(n.error)
  {
    var printConfig := Truthy(config.printConfig);
    var filtered := FilteredEntries(config.services);
    var serviceIds := Keys(filtered);
    match NormalizeServices(filtered, serviceIds)
    case Err(e) =>
      ServiceErrorPrefix(filtered, serviceIds);
      Err(e)
    case Ok(services) =>
      ServicesValid(filtered, serviceIds, services);
      assert services == [] <==> filtered == [];
      CheckServices(printConfig, services)
  }

  /** The part of `normalizeCompositeServiceConfig` after every service normalised: the cycle
      check, then the check for an empty service map. */
  function CheckServices(printConfig: bool, services: seq<(string, NormalizedComposedServiceConfig)>)
    : (r: Result<NormalizedCompositeServiceConfig, string>)
    requires DistinctKeys(services) && Closed(ServiceGraph(services))
    ensures r.Err? ==> StartsWith(r.error, "composite-service: Invalid Config: ")
    ensures r.Ok? <==> services != [] && !HasCycle(ServiceGraph(services))
    ensures r.Ok? ==> r.value == NormalizedCompositeServiceConfig(printConfig, services)
    ensures services == [] ==> r == Err(InvalidConfig("No configured service"))
  {
    FirstCycleIffHasCycle(ServiceGraph(services), Keys(services));
    match FirstCycle(ServiceGraph(services), Keys(services))
    case Some(cycle) => Err(InvalidConfig("Found cyclic dependency " + Join(cycle, " -> ")))
    case None =>
      if |Keys(services)| == 0 then Err(InvalidConfig("No configured service"))
      else Ok(NormalizedCompositeServiceConfig(printConfig, services))
  }

  /** A configuration is accepted exactly when every service normalises, the dependency graph has
      no cycle, and there is at least one service. */
  lemma AcceptedIff(config: CompositeServiceConfig)
    requires DistinctKeys(config.services)
    ensures var filtered := FilteredEntries(config.services);
      var result := NormalizeServices(filtered, Keys(filtered));
      NormalizeCompositeServiceConfig(config).Ok? <==>
        result.Ok? && DistinctKeys(result.value) && Closed(ServiceGraph(result.value)) &&
        !HasCycle(ServiceGraph(result.value)) && filtered != []
  {
    var filtered := FilteredEntries(config.services);
    var result := NormalizeServices(filtered, Keys(filtered));
    if result.Ok? {
      ServicesValid(filtered, Keys(filtered), result.value);
      FirstCycleIffHasCycle(ServiceGraph(result.value), Keys(result.value));
    }
  }

  /** Once every service normalises, a rejection of a non-empty configuration names a real cycle:
      `Found cyclic dependency a -> b -> a`. */
  lemma CycleReported(config: CompositeServiceConfig)
    requires DistinctKeys(config.services)
    requires var filtered := FilteredEntries(config.services);
      filtered != [] && NormalizeServices(filtered, Keys(filtered)).Ok? && NormalizeCompositeServiceConfig(config).Err?
    ensures var filtered := FilteredEntries(config.services);
      var services := NormalizeServices(filtered, Keys(filtered)).value;
      exists c :: IsCycle(ServiceGraph(services), c) &&
        NormalizeCompositeServiceConfig(config) == Err(InvalidConfig("Found cyclic dependency " + Join(c, " -> ")))
  {
    var filtered := FilteredEntries(config.services);
    var services := NormalizeServices(filtered, Keys(filtered)).value;
    ServicesValid(filtered, Keys(filtered), services);
    FirstCycleSound(ServiceGraph(services), Keys(services));
  }
}
