/**
 * The `CompositeService` of `src/CompositeService.ts` and the `startCompositeService` guard of
 * `src/startCompositeService.ts`. The recursive `startService` and `stopService` are flattened
 * into the schedules they walk: `service.start()` is reached in the post-order of the dependency
 * graph, and under `gracefulShutdown` `service.stop()` is reached in the post-order of the reversed
 * graph, so every service after its dependents. The asynchronous progress along a schedule arrives
 * as events; signals and fatal errors interleave with them, and the first to arrive decides the
 * exit code.
 */
module Composite {
  import opened Results
  import opened LogLevels
  import opened DependencyGraph

  /** The graph was accepted by the configuration check: its keys are the services, every
      dependency is a service, and it has no cycle. */
  predicate ValidGraph(g: Graph, ids: seq<string>) {
    && Closed(g)
    && (forall x :: x in g ==> x in ids) && (forall x :: x in ids ==> x in g)
    && FirstCycle(g, ids).None?
  }

  /** The order in which `Promise.all(services.map(startService))` reaches `service.start()`:
      every service is reached, and each only after all of its dependencies. */
  function StartSchedule(g: Graph, ids: seq<string>): (s: seq<string>)
    requires ValidGraph(g, ids)
    ensures forall x :: x in ids ==> x in s
    ensures forall k, d :: 0 <= k < |s| && s[k] in g && d in g[s[k]] ==> d in s[..k]
  {
    PostOrderAllRespectsEdges(g, ids);
    PostOrderAll(g, ids)
  }

  /** The reversed graph of an accepted graph is accepted too. */
  lemma ReverseValid(g: Graph, ids: seq<string>)
    requires ValidGraph(g, ids)
    ensures ValidGraph(Reverse(g, ids), ids)
  {
    FirstCycleIffHasCycle(g, ids);
    ReverseAcyclic(g, ids);
    FirstCycleIffHasCycle(Reverse(g, ids), ids);
  }

  /**
   * The order in which `service.stop()` is reached: under `gracefulShutdown` the walk of the
   * reversed graph, in which every service comes after all of its dependents; otherwise every
   * service at once, in configuration order.
   */
  function StopSchedule(g: Graph, ids: seq<string>, graceful: bool): (s: seq<string>)
    requires ValidGraph(g, ids)
    ensures forall x :: x in ids ==> x in s
    ensures !graceful ==> s == ids
  {
    if graceful then
      ReverseValid(g, ids);
      PostOrderAll(Reverse(g, ids), ids)
    else
      ids
  }

  /** Under `gracefulShutdown`, every dependent of a service is stopped before it. */
  lemma StopScheduleDependentsFirst(g: Graph, ids: seq<string>)
    requires ValidGraph(g, ids)
    ensures var s := StopSchedule(g, ids, true);
      forall k, y :: 0 <= k < |s| && y in ids && s[k] in g[y] ==> y in s[..k]
  {
    ReverseValid(g, ids);
    var r := Reverse(g, ids);
    var s := StopSchedule(g, ids, true);
    PostOrderAllRespectsEdges(r, ids);
    forall k, y | 0 <= k < |s| && y in ids && s[k] in g[y] ensures y in s[..k] {
      assert s[k] in g && y in g;
      assert y in r[s[k]];
    }
  }

  /** A prefix of a schedule keeps its order. */
  lemma PrefixRespectsEdges(g: Graph, s: seq<string>, n: nat)
    requires n <= |s| && forall k, d :: 0 <= k < |s| && s[k] in g && d in g[s[k]] ==> d in s[..k]
    ensures forall k, d :: 0 <= k < n && s[..n][k] in g && d in g[s[..n][k]] ==> d in s[..n][..k]
  {
    forall k, d | 0 <= k < n && s[..n][k] in g && d in g[s[..n][k]] ensures d in s[..n][..k] {
      assert s[..n][k] == s[k] && s[..n][..k] == s[..k];
    }
  }

  /** The shutdown triggers and their exit codes. */
  datatype Signal = SigInt | SigTerm | CtrlCKey

  /** The exit code a shutdown trigger gives: 143 for SIGTERM, and 130 for SIGINT and for ctrl+c
      typed on a raw-mode terminal; both are above 128, the range that marks a signal. */
  function ExitCode(s: Signal): (code: nat)
    ensures s == SigTerm ==> code == 143
    ensures s == SigInt || s == CtrlCKey ==> code == 130
    ensures code > 128
  {
    match s
    case SigInt => 130
    case SigTerm => 143
    case CtrlCKey => 130
  }

  function Description(s: Signal): (r: string)
    ensures r == "SIGINT" <==> s == SigInt
    ensures r == "SIGTERM" <==> s == SigTerm
    ensures r == "ctrl+c" <==> s == CtrlCKey
  {
    match s
    case SigInt => "SIGINT"
    case SigTerm => "SIGTERM"
    case CtrlCKey => "ctrl+c"
  }

  /** The exit code of a fatal error. */
  const FatalExitCode := 1

  class CompositeService {
    const graph: Graph
    /** The services, in configuration order. */
    const ids: seq<string>
    const gracefulShutdown: bool
    const windowsCtrlCShutdown: bool
    const startSchedule: seq<string>
    const stopSchedule: seq<string>

    var stopping: bool
    /** The exit code given to `stop`. */
    var stopCode: int
    /** The services whose `start()` was called, in order. */
    var startCalls: seq<string>
    /** The services whose `stop(windowsCtrlCShutdown)` was called, in order. */
    var stopCalls: seq<string>
    /** How many CTRL_C events were generated. */
    var ctrlCEvents: nat
    /** Every `logger.log(level, text)` call, in order. */
    var logs: seq<(LogLevel, string)>
    var allStarted: bool
    /** The code passed to `process.exit`, once it is called. */
    var exited: Option<int>
    /** The number of `start()` calls made before `stopping` was set. */
    ghost var startsBeforeStop: nat

    /**
     * `start()` calls follow the start schedule and stop once `stopping` is set; `stop()` calls
     * follow the stop schedule and only after `stopping` is set, by when the one CTRL_C event (with
     * `windowsCtrlCShutdown`) has been generated; the process exits with the code of the first
     * trigger once every service was asked to stop.
     */
    ghost predicate Valid()
      reads this
    {
      && ValidGraph(graph, ids)
      && startSchedule == StartSchedule(graph, ids)
      && stopSchedule == StopSchedule(graph, ids, gracefulShutdown)
      && |startCalls| <= |startSchedule| && startCalls == startSchedule[..|startCalls|]
      && |stopCalls| <= |stopSchedule| && stopCalls == stopSchedule[..|stopCalls|]
      && (!stopping ==> stopCalls == [] && ctrlCEvents == 0 && exited.None?)
      && (stopping ==> |startCalls| == startsBeforeStop && ctrlCEvents == (if windowsCtrlCShutdown then 1 else 0))
      && (allStarted ==> |startCalls| == |startSchedule|)
      && (exited.Some? ==> stopping && exited.value == stopCode && |stopCalls| == |stopSchedule|)
    }

    /** The constructor: once the services exist, starting begins. */
    constructor(graph: Graph, ids: seq<string>, gracefulShutdown: bool, windowsCtrlCShutdown: bool)
      requires ValidGraph(graph, ids)
      ensures Valid() && !stopping && startCalls == [] && stopCalls == [] && !allStarted
      ensures this.graph == graph && this.ids == ids
      ensures this.gracefulShutdown == gracefulShutdown && this.windowsCtrlCShutdown == windowsCtrlCShutdown
      ensures logs == [(Debug, "Starting composite service...")]
    {
      this.graph := graph;
      this.ids := ids;
      this.gracefulShutdown := gracefulShutdown;
      this.windowsCtrlCShutdown := windowsCtrlCShutdown;
      startSchedule := StartSchedule(graph, ids);
      stopSchedule := StopSchedule(graph, ids, gracefulShutdown);
      stopping := false;
      stopCode := 0;
      startCalls := [];
      stopCalls := [];
      ctrlCEvents := 0;
      logs := [(Debug, "Starting composite service...")];
      allStarted := false;
      exited := None;
      startsBeforeStop := 0;
    }

    /** The next `startService` in the schedule has seen its dependencies started: it calls
        `service.start()` unless `stopping` is set, in which case it never proceeds. */
    method StartNext()
      requires Valid() && |startCalls| < |startSchedule|
      modifies this
      ensures Valid()
      ensures old(stopping) ==> startCalls == old(startCalls)
      ensures !old(stopping) ==> startCalls == old(startCalls) + [startSchedule[|old(startCalls)|]]
      ensures stopping == old(stopping) && stopCalls == old(stopCalls) && logs == old(logs) && exited == old(exited)
    {
      if !stopping {
        startCalls := startCalls + [startSchedule[|startCalls|]];
        startsBeforeStop := |startCalls|;
      }
    }

    /** Every `startService` completed. */
    method AllStarted()
      requires Valid() && !stopping && !allStarted && |startCalls| == |startSchedule|
      modifies this
      ensures Valid() && allStarted
      ensures logs == old(logs) + [(Debug, "Started composite service")]
      ensures stopping == old(stopping) && startCalls == old(startCalls) && stopCalls == old(stopCalls)
    {
      allStarted := true;
      logs := logs + [(Debug, "Started composite service")];
    }

    /** `stop(exitCode)`: the first call sets `stopping`, keeps the exit code and broadcasts
        CTRL_C with `windowsCtrlCShutdown`; later calls do nothing. */
    method Stop(exitCode: int)
      requires Valid()
      modifies this
      ensures Valid() && stopping
      ensures old(stopping) ==> stopCode == old(stopCode) && logs == old(logs) && ctrlCEvents == old(ctrlCEvents)
      ensures !old(stopping) ==>
        && stopCode == exitCode && logs == old(logs) + [(Debug, "Stopping composite service...")]
        && ctrlCEvents == (if windowsCtrlCShutdown then 1 else 0)
      ensures startCalls == old(startCalls) && stopCalls == old(stopCalls) && exited == old(exited)
    {
      if stopping {
        return;
      }
      stopping := true;
      stopCode := exitCode;
      startsBeforeStop := |startCalls|;
      logs := logs + [(Debug, "Stopping composite service...")];
      if windowsCtrlCShutdown {
        ctrlCEvents := ctrlCEvents + 1;
      }
    }

    /** `handleFatalError(message)`: always logged; it starts a shutdown with code 1 unless one is
        already under way. */
    method HandleFatalError(message: string)
      requires Valid()
      modifies this
      ensures Valid() && stopping
      ensures stopCode == if old(stopping) then old(stopCode) else FatalExitCode
      ensures logs == old(logs) + [(Error, "Fatal error: " + message)] +
        (if old(stopping) then [] else [(Debug, "Stopping composite service...")])
      ensures startCalls == old(startCalls) && stopCalls == old(stopCalls) && exited == old(exited)
    {
      logs := logs + [(Error, "Fatal error: " + message)];
      if !stopping {
        Stop(FatalExitCode);
      }
    }

    /** `handleShutdownSignal(exitCode, description)`: ignored once stopping; otherwise logged,
        and a shutdown starts with the signal's exit code. */
    method HandleShutdownSignal(signal: Signal)
      requires Valid()
      modifies this
      ensures Valid() && stopping
      ensures old(stopping) ==> stopCode == old(stopCode) && logs == old(logs) && ctrlCEvents == old(ctrlCEvents)
      ensures !old(stopping) ==>
        && stopCode == ExitCode(signal)
        && logs == old(logs) + [(Info, "Received shutdown signal (" + Description(signal) + ")"),
                                (Debug, "Stopping composite service...")]
      ensures startCalls == old(startCalls) && stopCalls == old(stopCalls) && exited == old(exited)
    {
      if !stopping {
        logs := logs + [(Info, "Received shutdown signal (" + Description(signal) + ")")];
        Stop(ExitCode(signal));
      }
    }

    /** The next `stopService` in the schedule has seen its dependents stopped (or, without
        `gracefulShutdown`, runs at once): it calls `service.stop(windowsCtrlCShutdown)`. */
    method StopNext()
      requires Valid() && stopping && |stopCalls| < |stopSchedule|
      modifies this
      ensures Valid()
      ensures stopCalls == old(stopCalls) + [stopSchedule[|old(stopCalls)|]]
      ensures stopping && stopCode == old(stopCode) && startCalls == old(startCalls) && logs == old(logs)
      ensures ctrlCEvents == old(ctrlCEvents)
    {
      stopCalls := stopCalls + [stopSchedule[|stopCalls|]];
    }

    /** Every `stopService` completed: log, then exit with the code of the first trigger. */
    method AllStopped()
      requires Valid() && stopping && |stopCalls| == |stopSchedule| && exited.None?
      modifies this
      ensures Valid() && exited == Some(stopCode)
      ensures logs == old(logs) + [(Debug, "Stopped composite service")]
      ensures stopCode == old(stopCode) && startCalls == old(startCalls) && stopCalls == old(stopCalls)
    {
      logs := logs + [(Debug, "Stopped composite service")];
      exited := Some(stopCode);
    }

    /** Every `start()` call so far came after a `start()` call of each of its dependencies. */
    lemma StartCallsAfterDependencies()
      requires Valid()
      ensures forall k, d :: 0 <= k < |startCalls| && startCalls[k] in graph && d in graph[startCalls[k]] ==>
        d in startCalls[..k]
    {
      PrefixRespectsEdges(graph, startSchedule, |startCalls|);
    }

    /** Under `gracefulShutdown`, every `stop()` call so far came after a `stop()` call of each of
        the services that depend on it. */
    lemma StopCallsAfterDependents()
      requires Valid() && gracefulShutdown
      ensures forall k, y :: 0 <= k < |stopCalls| && y in ids && stopCalls[k] in graph[y] ==> y in stopCalls[..k]
    {
      StopScheduleDependentsFirst(graph, ids);
      forall k, y | 0 <= k < |stopCalls| && y in ids && stopCalls[k] in graph[y] ensures y in stopCalls[..k] {
        assert stopCalls[k] == stopSchedule[k] && stopCalls[..k] == stopSchedule[..k];
      }
    }
  }

  /** The module-level `started` flag of `startCompositeService`. */
  class Launcher {
    var started: bool
    /** How many composite services were constructed (or attempted). */
    var constructions: nat

    constructor()
      ensures !started && constructions == 0
    {
      started := false;
      constructions := 0;
    }

    /**
     * `startCompositeService(config)`: refused once started, without constructing anything;
     * otherwise the composite service is constructed and only then is `started` set, so a
     * construction that throws (`constructionError`) leaves it unset.
     */
    method StartCompositeService(constructionError: Option<string>) returns (r: Result<(), string>)
      modifies this
      ensures old(started) ==>
        r == Err("Already started a composite service in this process") && started && constructions == old(constructions)
      ensures !old(started) ==> constructions == old(constructions) + 1
      ensures !old(started) && constructionError.Some? ==> r == Err(constructionError.value) && !started
      ensures !old(started) && constructionError.None? ==> r == Ok(()) && started
    {
      if started {
        return Err("Already started a composite service in this process");
      }
      constructions := constructions + 1;
      if constructionError.Some? {
        return Err(constructionError.value);
      }
      started := true;
      r := Ok(());
    }
  }
}

/**
 * The `CompositeService` of `src/core/CompositeService.ts`, whose copy in
 * `src/core/startCompositeService.ts` is the same class, and the guard of that file's
 * `startCompositeService`. Every failure and signal goes to `die`, which starts the shutdown at
 * most once and always exits with code 1; every service is stopped after its dependents; and each
 * output line is labelled with its service id padded to the longest id.
 */
module CoreComposite {
  import opened Results
  import opened Text
  import opened DependencyGraph
  import opened Composite
  import opened CoreNormalizeConfig

  /** The signals that `die`, and the message each gives. */
  datatype CoreSignal = SigIntSignal | SigTermSignal

  function SignalMessage(s: CoreSignal): (r: string)
    ensures r == "Received shutdown signal 'SIGINT'" <==> s == SigIntSignal
    ensures r == "Received shutdown signal 'SIGTERM'" <==> s == SigTermSignal
  {
    match s
    case SigIntSignal => "Received shutdown signal 'SIGINT'"
    case SigTermSignal => "Received shutdown signal 'SIGTERM'"
  }

  class CompositeService {
    const graph: Graph
    const ids: seq<string>
    const startSchedule: seq<string>
    const stopSchedule: seq<string>

    var stopping: bool
    var startCalls: seq<string>
    var stopCalls: seq<string>
    /** Every `console.log(text)` call, in order. */
    var logs: seq<string>
    var allStarted: bool
    var exited: Option<int>
    ghost var startsBeforeStop: nat

    ghost predicate Valid()
      reads this
    {
      && ValidGraph(graph, ids)
      && startSchedule == StartSchedule(graph, ids)
      && stopSchedule == StopSchedule(graph, ids, true)
      && |startCalls| <= |startSchedule| && startCalls == startSchedule[..|startCalls|]
      && |stopCalls| <= |stopSchedule| && stopCalls == stopSchedule[..|stopCalls|]
      && (!stopping ==> stopCalls == [] && exited.None?)
      && (stopping ==> |startCalls| == startsBeforeStop)
      && (exited.Some? ==> stopping && exited.value == 1 && |stopCalls| == |stopSchedule|)
    }

    constructor(graph: Graph, ids: seq<string>)
      requires ValidGraph(graph, ids)
      ensures Valid() && !stopping && startCalls == [] && stopCalls == [] && !allStarted
      ensures this.graph == graph && this.ids == ids
      ensures logs == ["Starting composite service..."]
    {
      this.graph := graph;
      this.ids := ids;
      startSchedule := StartSchedule(graph, ids);
      stopSchedule := StopSchedule(graph, ids, true);
      stopping := false;
      startCalls := [];
      stopCalls := [];
      logs := ["Starting composite service..."];
      allStarted := false;
      exited := None;
      startsBeforeStop := 0;
    }

    /** The next `startService` in the schedule: it returns without starting once `stopping`. */
    method StartNext()
      requires Valid() && |startCalls| < |startSchedule|
      modifies this
      ensures Valid()
      ensures old(stopping) ==> startCalls == old(startCalls)
      ensures !old(stopping) ==> startCalls == old(startCalls) + [startSchedule[|old(startCalls)|]]
      ensures stopping == old(stopping) && stopCalls == old(stopCalls) && logs == old(logs) && exited == old(exited)
    {
      if !stopping {
        startCalls := startCalls + [startSchedule[|startCalls|]];
        startsBeforeStop := |startCalls|;
      }
    }

    /** Every `startService` completed; since they return early once stopping, this can happen
        after a shutdown began too. */
    method AllStarted()
      requires Valid() && !allStarted && (stopping || |startCalls| == |startSchedule|)
      modifies this
      ensures Valid() && allStarted
      ensures logs == old(logs) + ["Started composite service"]
      ensures stopping == old(stopping) && startCalls == old(startCalls) && stopCalls == old(stopCalls)
    {
      allStarted := true;
      logs := logs + ["Started composite service"];
    }

    /** `die(message)`: the first call sets `stopping` and logs the message; later calls do
        nothing. The caller never gets a result back. */
    method Die(message: string)
      requires Valid()
      modifies this
      ensures Valid() && stopping
      ensures old(stopping) ==> logs == old(logs)
      ensures !old(stopping) ==> logs == old(logs) + [message, "Stopping composite service..."]
      ensures startCalls == old(startCalls) && stopCalls == old(stopCalls) && exited == old(exited)
    {
      if !stopping {
        stopping := true;
        startsBeforeStop := |startCalls|;
        logs := logs + [message, "Stopping composite service..."];
      }
    }

    /** A SIGINT or SIGTERM: `die` with the signal's name. */
    method HandleSignal(signal: CoreSignal)
      requires Valid()
      modifies this
      ensures Valid() && stopping
      ensures logs == old(logs) + (if old(stopping) then [] else [SignalMessage(signal), "Stopping composite service..."])
      ensures startCalls == old(startCalls) && stopCalls == old(stopCalls) && exited == old(exited)
    {
      Die(SignalMessage(signal));
    }

    /** The next `stopService` in the schedule has seen its dependents stopped: `service.stop()`. */
    method StopNext()
      requires Valid() && stopping && |stopCalls| < |stopSchedule|
      modifies this
      ensures Valid()
      ensures stopCalls == old(stopCalls) + [stopSchedule[|old(stopCalls)|]]
      ensures stopping && startCalls == old(startCalls) && logs == old(logs)
    {
      stopCalls := stopCalls + [stopSchedule[|stopCalls|]];
    }

    /** Every `stopService` completed: log, then exit with code 1. */
    method AllStopped()
      requires Valid() && stopping && |stopCalls| == |stopSchedule| && exited.None?
      modifies this
      ensures Valid() && exited == Some(1)
      ensures logs == old(logs) + ["Stopped composite service"]
      ensures startCalls == old(startCalls) && stopCalls == old(stopCalls)
    {
      logs := logs + ["Stopped composite service"];
      exited := Some(1);
    }

    lemma StartCallsAfterDependencies()
      requires Valid()
      ensures forall k, d :: 0 <= k < |startCalls| && startCalls[k] in graph && d in graph[startCalls[k]] ==>
        d in startCalls[..k]
    {
      PrefixRespectsEdges(graph, startSchedule, |startCalls|);
    }

    /** Every `stop()` call so far came after a `stop()` call of each service depending on it. */
    lemma StopCallsAfterDependents()
      requires Valid()
      ensures forall k, y :: 0 <= k < |stopCalls| && y in ids && stopCalls[k] in graph[y] ==> y in stopCalls[..k]
    {
      StopScheduleDependentsFirst(graph, ids);
      forall k, y | 0 <= k < |stopCalls| && y in ids && stopCalls[k] in graph[y] ensures y in stopCalls[..k] {
        assert stopCalls[k] == stopSchedule[k] && stopCalls[..k] == stopSchedule[..k];
      }
    }
  }

  /** The length of the longest id (0 for no ids). */
  function MaxLength(ids: seq<string>): (m: nat)
    ensures forall i :: 0 <= i < |ids| ==> |ids[i]| <= m
    ensures ids != [] ==> exists i :: 0 <= i < |ids| && |ids[i]| == m
  {
    if ids == [] then 0
    else
      var rest := MaxLength(ids[1..]);
      assert forall i :: 1 <= i < |ids| ==> ids[i] == ids[1..][i - 1];
      if |ids[0]| >= rest then |ids[0]| else rest
  }

  /** `s` followed by enough spaces to reach length `n`. */
  function Padded(s: string, n: nat): string {
    s + Spaces(if |s| < n then n - |s| else 0)
  }

  /** `rightPad(string, length)`: appends spaces while the result is shorter than `length`. */
  method RightPad(s: string, length: nat) returns (result: string)
    ensures result == Padded(s, length)
    ensures |result| == (if |s| < length then length else |s|)
    ensures result[..|s|] == s && forall i :: |s| <= i < |result| ==> result[i] == ' '
  {
    result := s;
    while |result| < length
      invariant |s| <= |result| && (|s| < length ==> |result| <= length) && (|s| >= length ==> result == s)
      invariant result == s + Spaces(|result| - |s|)
      decreases length - |result|
    {
      result := result + " ";
    }
  }

  /** A labelled output line: the padded id, `" | "`, then the line. */
  function LabelledLine(id: string, width: nat, line: string): string {
    Padded(id, width) + " | " + line
  }

  /** With the width of the longest id, every service's lines put `" | "` at the same column. */
  lemma LabelsAlign(ids: seq<string>, i: nat, line: string)
    requires i < |ids|
    ensures var w := MaxLength(ids); var l := LabelledLine(ids[i], w, line);
      |l| >= w + 3 && l[w..w + 3] == " | " && l[..w] == Padded(ids[i], w) && |Padded(ids[i], w)| == w
  {
    var w := MaxLength(ids);
    var p := Padded(ids[i], w);
    assert |p| == w;
    var l := LabelledLine(ids[i], w, line);
    assert l == p + " | " + line;
    assert l[w..w + 3] == " | ";
    assert l[..w] == p;
  }

  /** The module-level `started` flag of this variant, set before construction. */
  class Launcher {
    var started: bool
    var constructions: nat

    constructor()
      ensures !started && constructions == 0
    {
      started := false;
      constructions := 0;
    }

    /**
     * `startCompositeService(config)`: the assertion refuses a second call with
     * `composite-service: Already started a composite service in this process`; otherwise
     * `started` is set first, so a construction that throws still blocks later calls.
     */
    method StartCompositeService(constructionError: Option<string>) returns (r: Result<(), string>)
      modifies this
      ensures started
      ensures old(started) ==>
        r == Err(AssertionMessage("Already started a composite service in this process")) && constructions == old(constructions)
      ensures !old(started) ==> constructions == old(constructions) + 1
      ensures !old(started) ==> r == (if constructionError.Some? then Err(constructionError.value) else Ok(()))
    {
      if started {
        return Err(AssertionMessage("Already started a composite service in this process"));
      }
      started := true;
      constructions := constructions + 1;
      if constructionError.Some? {
        return Err(constructionError.value);
      }
      r := Ok(());
    }
  }
}
