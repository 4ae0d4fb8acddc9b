/**
 * The `Service` of `src/Service.ts`: one configured service across its process generations. The
 * `ready` and `onCrash` callbacks, the child processes and the restart timer are outside the
 * model: what they do to the service arrives as events (the spawn was confirmed or failed, `ready`
 * resolved or failed, the process ended, `onCrash` settled, the restart delay passed), and what the
 * service does in return is recorded in `effects`.
 */
module ServiceLifecycle {
  import opened Bounded
  import opened LogLevels

  /** A crash record: when it happened (an opaque timestamp) and the process's log tail. */
  datatype Crash = Crash(date: nat, logTail: seq<string>)

  /** Something the service does to the world. */
  datatype Effect =
    | Log(level: LogLevel, text: string)
    | InternalError(message: string)
    | Fatal(message: string)          // `handleFatalError(message)`
    | CallReady                       // `config.ready(ctx)`
    | SpawnProcess                    // `new ServiceProcess(...)`
    | EndProcess(windowsCtrlCShutdown: bool)
    | CallOnCrash(isServiceReady: bool, crash: Crash, crashes: seq<Crash>)

  datatype ReadyState = AwaitingReady | IsReady | NotReady

  /** How far `handleCrash` has got with the latest crash. */
  datatype CrashPhase = NoCrash | AwaitingOnCrash | AwaitingDelay | Halted

  /** Push-then-shift on the crash buffer keeps it the newest `n` crashes, ending with the new one. */
  lemma CrashRecorded(all: seq<Crash>, crash: Crash, n: nat, next: seq<Crash>)
    requires n > 0
    requires var pushed := Tail(all, n) + [crash]; next == if |pushed| > n then pushed[1..] else pushed
    ensures next == Tail(all + [crash], n)
    ensures |next| <= n && next[|next| - 1] == crash
  {
    assert next == PushBounded(Tail(all, n), crash, n);
    PushBoundedTail(all, crash, n);
  }

  class Service {
    const id: string
    const crashesLength: nat

    /** `startResult` is defined. */
    var startRequested: bool
    /** `startResult` has resolved. */
    var started: bool
    /** `stopResult` is defined. */
    var stopRequested: bool
    /** `stopResult` has resolved. */
    var stopped: bool
    var hasProcess: bool
    /** `process.isRunning()` of the current process. */
    var processRunning: bool
    /** `end` was called on the current process. */
    var endCalled: bool
    /** The first process's `started` has resolved. */
    var spawnConfirmed: bool
    /** The current process's `started` has resolved. */
    var processSpawned: bool
    /** The current process's output ended without `end` and without a spawn error; its crash
        callback waits for `started` to settle. */
    var crashPending: bool
    var ready: ReadyState
    var phase: CrashPhase
    var crashes: seq<Crash>
    var effects: seq<Effect>
    /** Every crash recorded while `crashesLength > 0`. */
    ghost var allCrashes: seq<Crash>
    /** The length of `effects` when `stop` was first called. */
    ghost var stopAt: nat

    /** `crashes` is the newest `crashesLength` crashes, oldest first; the start task resolves only
        after the spawn and `ready`; only `stop` ends a process; and once stop is requested no
        process is spawned. */
    ghost predicate Valid()
      reads this
    {
      && crashes == Tail(allCrashes, crashesLength)
      && (!startRequested ==> !hasProcess && ready == AwaitingReady && !spawnConfirmed)
      && (started ==> spawnConfirmed && ready == IsReady)
      && (endCalled ==> stopRequested && hasProcess)
      && (stopped ==> stopRequested)
      && (phase != NoCrash ==> hasProcess && !processRunning)
      && (crashPending ==> hasProcess && !processRunning && !endCalled && phase == NoCrash)
      && (stopRequested ==> stopAt <= |effects| && forall i :: stopAt <= i < |effects| ==> !effects[i].SpawnProcess?)
    }

    constructor(id: string, crashesLength: nat)
      ensures Valid() && this.id == id && this.crashesLength == crashesLength
      ensures !startRequested && !started && !stopRequested && !stopped && !hasProcess
      ensures crashes == [] && effects == [] && phase == NoCrash
    {
      this.id := id;
      this.crashesLength := crashesLength;
      startRequested := false;
      started := false;
      stopRequested := false;
      stopped := false;
      hasProcess := false;
      processRunning := false;
      endCalled := false;
      spawnConfirmed := false;
      processSpawned := false;
      crashPending := false;
      ready := AwaitingReady;
      phase := NoCrash;
      crashes := [];
      effects := [];
      allCrashes := [];
      stopAt := 0;
    }

    /**
     * `start()`: after `stop` it reports an internal error and hands back whatever start task
     * exists; otherwise the first call logs, calls `ready` and spawns the first process, and later
     * calls do nothing. `task` says whether a start task exists.
     */
    method Start() returns (task: bool)
      requires Valid()
      modifies this
      ensures Valid() && task == startRequested
      ensures old(stopRequested) ==>
        && effects == old(effects) + [InternalError("Cannot start after stopping")]
        && startRequested == old(startRequested) && hasProcess == old(hasProcess)
        && processRunning == old(processRunning)
      ensures !old(stopRequested) && old(startRequested) ==>
        effects == old(effects) && hasProcess == old(hasProcess) && processRunning == old(processRunning)
      ensures !old(stopRequested) && !old(startRequested) ==>
        && effects == old(effects) + [Log(Debug, "Starting service '" + id + "'..."), CallReady, SpawnProcess]
        && startRequested && hasProcess && processRunning && !processSpawned && !crashPending
      ensures stopRequested == old(stopRequested) && stopped == old(stopped) && started == old(started)
      ensures crashes == old(crashes) && phase == old(phase) && ready == old(ready)
    {
      if stopRequested {
        effects := effects + [InternalError("Cannot start after stopping")];
        task := startRequested;
        return;
      }
      if !startRequested {
        startRequested := true;
        effects := effects + [Log(Debug, "Starting service '" + id + "'..."), CallReady, SpawnProcess];
        hasProcess := true;
        processRunning := true;
        processSpawned := false;
      }
      task := true;
    }

    /** The start task resolves once the first spawn is confirmed and `ready` has resolved. */
    method CompleteStart()
      requires Valid()
      modifies this
      ensures Valid()
      ensures started == (old(started) || (spawnConfirmed && ready == IsReady))
      ensures effects == old(effects) +
        (if !old(started) && spawnConfirmed && ready == IsReady then [Log(Debug, "Started service '" + id + "'")] else [])
      ensures startRequested == old(startRequested) && stopRequested == old(stopRequested) && stopped == old(stopped)
      ensures hasProcess == old(hasProcess) && processRunning == old(processRunning) && endCalled == old(endCalled)
      ensures spawnConfirmed == old(spawnConfirmed) && ready == old(ready) && phase == old(phase) && crashes == old(crashes)
      ensures processSpawned == old(processSpawned) && crashPending == old(crashPending)
    {
      if !started && spawnConfirmed && ready == IsReady {
        started := true;
        effects := effects + [Log(Debug, "Started service '" + id + "'")];
      }
    }

    /** The current process's `started` resolved. */
    method SpawnConfirmed()
      requires Valid() && hasProcess
      modifies this
      ensures Valid() && spawnConfirmed && processSpawned
      ensures started <==> ready == IsReady
      ensures effects == old(effects) +
        (if !old(started) && ready == IsReady then [Log(Debug, "Started service '" + id + "'")] else [])
      ensures stopRequested == old(stopRequested) && processRunning == old(processRunning) && phase == old(phase)
      ensures crashPending == old(crashPending) && stopped == old(stopped) && ready == old(ready)
    {
      spawnConfirmed := true;
      processSpawned := true;
      CompleteStart();
    }

    /** The current process's `started` rejected: a fatal error, the process is not running, and
        `didError` rules out its crash callback. */
    method SpawnFailed(error: string)
      requires Valid() && hasProcess
      modifies this
      ensures Valid() && !processRunning && !crashPending
      ensures effects == old(effects) + [Fatal("Spawning process for service '" + id + "': " + error)]
      ensures started == old(started) && stopRequested == old(stopRequested) && phase == old(phase)
      ensures crashes == old(crashes)
    {
      processRunning := false;
      crashPending := false;
      effects := effects + [Fatal("Spawning process for service '" + id + "': " + error)];
    }

    /** `ready` resolved. */
    method ReadyResolved()
      requires Valid() && startRequested && ready == AwaitingReady
      modifies this
      ensures Valid() && ready == IsReady
      ensures started <==> spawnConfirmed
      ensures effects == old(effects) +
        (if spawnConfirmed then [Log(Debug, "Started service '" + id + "'")] else [])
      ensures stopRequested == old(stopRequested) && processRunning == old(processRunning) && phase == old(phase)
    {
      ready := IsReady;
      CompleteStart();
    }

    /** `ready` rejected: a fatal error naming the callback, and the start task never resolves. */
    method ReadyFailed(text: string)
      requires Valid() && startRequested && ready == AwaitingReady
      modifies this
      ensures Valid() && ready == NotReady && !started
      ensures effects == old(effects) + [Fatal("In `service." + id + ".ready`: " + text)]
      ensures stopRequested == old(stopRequested) && processRunning == old(processRunning) && phase == old(phase)
    {
      ready := NotReady;
      effects := effects + [Fatal("In `service." + id + ".ready`: " + text)];
    }

    /**
     * The current process's output ended (`didEnd`), so it no longer runs. If `stop` ended it, the
     * stop task resolves; otherwise the crash callback waits for `started` to settle, and a `stop`
     * that comes meanwhile finds no running process.
     */
    method OutputEnded()
      requires Valid() && hasProcess && processRunning && phase == NoCrash
      modifies this
      ensures Valid() && !processRunning
      ensures old(endCalled) ==>
        && effects == old(effects) + (if old(stopped) then [] else [Log(Debug, "Stopped service '" + id + "'")])
        && stopped && !crashPending
      ensures !old(endCalled) ==> effects == old(effects) && crashPending && stopped == old(stopped)
      ensures startRequested == old(startRequested) && stopRequested == old(stopRequested) && started == old(started)
      ensures crashes == old(crashes) && phase == old(phase) && processSpawned == old(processSpawned)
      ensures ready == old(ready)
    {
      processRunning := false;
      if endCalled {
        if !stopped {
          stopped := true;
          effects := effects + [Log(Debug, "Stopped service '" + id + "'")];
        }
        return;
      }
      crashPending := true;
    }

    /**
     * The crash callback, once the output ended without `end` and `started` resolved: the crash is
     * dropped if a stop was requested meanwhile; otherwise it is handled, recorded only when
     * `crashesLength > 0` (dropping the oldest past the limit), and `onCrash` is called with it,
     * the newest of `crashes`.
     */
    method CrashCallback(date: nat, logTail: seq<string>, isServiceReady: bool)
      requires Valid() && crashPending && processSpawned
      modifies this
      ensures Valid() && !crashPending
      ensures old(stopRequested) ==> effects == old(effects) && allCrashes == old(allCrashes) && phase == NoCrash
      ensures !old(stopRequested) ==>
        && phase == AwaitingOnCrash
        && allCrashes == old(allCrashes) + [Crash(date, logTail)]
        && (crashesLength == 0 ==> crashes == [])
        && (crashesLength > 0 ==> |crashes| <= crashesLength && crashes[|crashes| - 1] == Crash(date, logTail))
        && effects == old(effects) +
          [Log(Info, "Service '" + id + "' crashed"), CallOnCrash(isServiceReady, Crash(date, logTail), crashes)]
      ensures startRequested == old(startRequested) && stopRequested == old(stopRequested) && started == old(started)
      ensures stopped == old(stopped) && processRunning == old(processRunning)
    {
      crashPending := false;
      if stopRequested {
        return;
      }
      HandleCrash(Crash(date, logTail), isServiceReady);
    }

    /** `handleCrash` up to the `onCrash` call: log, record the crash, call `onCrash`. */
    method HandleCrash(crash: Crash, isServiceReady: bool)
      requires Valid() && phase == NoCrash && hasProcess && !processRunning && !stopRequested && !crashPending
      modifies this
      ensures Valid() && phase == AwaitingOnCrash
      ensures allCrashes == old(allCrashes) + [crash]
      ensures crashesLength == 0 ==> crashes == []
      ensures crashesLength > 0 ==> |crashes| <= crashesLength && crashes[|crashes| - 1] == crash
      ensures effects == old(effects) + [Log(Info, "Service '" + id + "' crashed"), CallOnCrash(isServiceReady, crash, crashes)]
      ensures startRequested == old(startRequested) && stopRequested == old(stopRequested) && started == old(started)
      ensures stopped == old(stopped) && processRunning == old(processRunning) && !crashPending
    {
      var next := crashes;
      if crashesLength > 0 {
        next := next + [crash];
        if |next| > crashesLength {
          next := next[1..];
        }
        CrashRecorded(allCrashes, crash, crashesLength, next);
      }
      var added := [Log(Info, "Service '" + id + "' crashed"), CallOnCrash(isServiceReady, crash, next)];
      assert forall i :: 0 <= i < |added| ==> !added[i].SpawnProcess?;
      crashes, allCrashes, effects, phase := next, allCrashes + [crash], effects + added, AwaitingOnCrash;
    }

    /** `onCrash` rejected: a fatal error naming the callback, and no restart ever follows. */
    method OnCrashFailed(text: string)
      requires Valid() && phase == AwaitingOnCrash
      modifies this
      ensures Valid() && phase == Halted
      ensures effects == old(effects) + [Fatal("In `service." + id + ".onCrash`: " + text)]
      ensures processRunning == old(processRunning) && stopRequested == old(stopRequested) && crashes == old(crashes)
    {
      phase := Halted;
      effects := effects + [Fatal("In `service." + id + ".onCrash`: " + text)];
    }

    /** `onCrash` resolved: the restart waits for the delay that began at the crash. */
    method OnCrashSucceeded()
      requires Valid() && phase == AwaitingOnCrash
      modifies this
      ensures Valid() && phase == AwaitingDelay
      ensures effects == old(effects) && processRunning == old(processRunning)
      ensures stopRequested == old(stopRequested) && crashes == old(crashes)
    {
      phase := AwaitingDelay;
    }

    /** The restart delay passed: a new process is spawned unless a stop was requested. */
    method DelayElapsed()
      requires Valid() && phase == AwaitingDelay
      modifies this
      ensures Valid() && phase == NoCrash
      ensures old(stopRequested) ==> effects == old(effects) && !processRunning
      ensures !old(stopRequested) ==>
        && effects == old(effects) + [Log(Info, "Restarting service '" + id + "'"), SpawnProcess]
        && processRunning && !processSpawned
      ensures stopRequested == old(stopRequested) && crashes == old(crashes) && started == old(started)
      ensures !crashPending
    {
      phase := NoCrash;
      if stopRequested {
        return;
      }
      effects := effects + [Log(Info, "Restarting service '" + id + "'"), SpawnProcess];
      processRunning := true;
      processSpawned := false;
    }

    /**
     * `stop(windowsCtrlCShutdown)`: only the first call does anything. Without a running process
     * the stop task resolves at once and `end` is not called; otherwise the process is ended.
     */
    method Stop(windowsCtrlCShutdown: bool)
      requires Valid()
      modifies this
      ensures Valid() && stopRequested
      ensures old(stopRequested) ==> effects == old(effects) && stopped == old(stopped) && endCalled == old(endCalled)
      ensures !old(stopRequested) && !(hasProcess && processRunning) ==> effects == old(effects) && stopped
      ensures !old(stopRequested) && hasProcess && processRunning ==>
        && effects == old(effects) + [Log(Debug, "Stopping service '" + id + "'..."), EndProcess(windowsCtrlCShutdown)]
        && endCalled && !stopped
      ensures hasProcess == old(hasProcess) && processRunning == old(processRunning) && phase == old(phase)
      ensures startRequested == old(startRequested) && started == old(started) && crashes == old(crashes)
      ensures crashPending == old(crashPending) && ready == old(ready)
    {
      if !stopRequested {
        stopRequested := true;
        stopAt := |effects|;
        if !hasProcess || !processRunning {
          stopped := true;
        } else {
          effects := effects + [Log(Debug, "Stopping service '" + id + "'..."), EndProcess(windowsCtrlCShutdown)];
          endCalled := true;
        }
      }
    }
  }

  /**
   * A stop inside the start grace: the command's output ends before `started` resolves, `stop`
   * finds no running process and resolves at once without `end`, and the crash callback that
   * follows drops the crash.
   */
  method StopInsideStartGrace() returns (effects: seq<Effect>, stopped: bool)
    ensures stopped
    ensures effects == [Log(Debug, "Starting service 'web'..."), CallReady, SpawnProcess]
  {
    var s := new Service("web", 1);
    assert "Starting service '" + s.id + "'..." == "Starting service 'web'...";
    var _ := s.Start();
    s.OutputEnded();
    s.Stop(false);
    s.SpawnConfirmed();
    s.CrashCallback(0, [], false);
    effects, stopped := s.effects, s.stopped;
  }
}

/**
 * The `Service` of `src/core/Service.ts`. It differs from the later one in that every fatal error
 * goes through `die` with the prefix `Error in '<id>': `, the crash history is never truncated, a
 * crash that arrives while stopping is an internal error, and a stop request is checked both
 * before and after the restart delay.
 */
module CoreServiceLifecycle {
  import opened LogLevels

  datatype Crash = Crash(date: nat, logTail: seq<string>)

  datatype Effect =
    | Log(level: LogLevel, text: string)
    | InternalError(message: string)  // `console.error(new InternalError(message))`
    | Die(message: string)
    | CallReady
    | SpawnProcess
    | EndProcess
    | CallOnCrash(isServiceReady: bool, crash: Crash, crashes: seq<Crash>)

  datatype ReadyState = AwaitingReady | IsReady | NotReady

  datatype CrashPhase = NoCrash | AwaitingOnCrash | AwaitingDelay | Halted

  /** The message `die` receives for `message` from the service `id`. */
  function DieMessage(id: string, message: string): string {
    "Error in '" + id + "': " + message
  }

  class Service {
    const id: string

    var startRequested: bool
    var started: bool
    var stopRequested: bool
    var stopped: bool
    var hasProcess: bool
    /** `process.isEnded` of the current process. */
    var processEnded: bool
    var endCalled: bool
    var spawnConfirmed: bool
    /** The current process's `started` has resolved. */
    var processSpawned: bool
    /** The current process ended without `end`; its crash callback waits for `didStart`. */
    var crashPending: bool
    var ready: ReadyState
    var phase: CrashPhase
    var crashes: seq<Crash>
    var effects: seq<Effect>
    ghost var stopAt: nat

    ghost predicate Valid()
      reads this
    {
      && (!startRequested ==> !hasProcess && ready == AwaitingReady && !spawnConfirmed)
      && (started ==> spawnConfirmed && ready == IsReady)
      && (endCalled ==> stopRequested && hasProcess)
      && (stopped ==> stopRequested)
      && (phase != NoCrash ==> hasProcess && processEnded)
      && (crashPending ==> hasProcess && processEnded && !endCalled && phase == NoCrash)
      && (stopRequested ==> stopAt <= |effects| && forall i :: stopAt <= i < |effects| ==> !effects[i].SpawnProcess?)
    }

    constructor(id: string)
      ensures Valid() && this.id == id
      ensures !startRequested && !started && !stopRequested && !stopped && !hasProcess
      ensures crashes == [] && effects == [] && phase == NoCrash
    {
      this.id := id;
      startRequested := false;
      started := false;
      stopRequested := false;
      stopped := false;
      hasProcess := false;
      processEnded := false;
      endCalled := false;
      spawnConfirmed := false;
      processSpawned := false;
      crashPending := false;
      ready := AwaitingReady;
      phase := NoCrash;
      crashes := [];
      effects := [];
      stopAt := 0;
    }

    /** `start()`: idempotent, and refused with an internal error after `stop`. */
    method Start() returns (task: bool)
      requires Valid()
      modifies this
      ensures Valid() && task == startRequested
      ensures old(stopRequested) ==>
        && effects == old(effects) + [InternalError("Cannot start after stopping")]
        && startRequested == old(startRequested) && hasProcess == old(hasProcess)
        && processEnded == old(processEnded)
      ensures !old(stopRequested) && old(startRequested) ==>
        effects == old(effects) && hasProcess == old(hasProcess) && processEnded == old(processEnded)
      ensures !old(stopRequested) && !old(startRequested) ==>
        && effects == old(effects) + [Log(Info, "Starting service '" + id + "'..."), CallReady, SpawnProcess]
        && startRequested && hasProcess && !processEnded && !processSpawned && !crashPending
      ensures stopRequested == old(stopRequested) && stopped == old(stopped) && started == old(started)
      ensures crashes == old(crashes) && phase == old(phase) && ready == old(ready)
    {
      if stopRequested {
        effects := effects + [InternalError("Cannot start after stopping")];
        task := startRequested;
        return;
      }
      if !startRequested {
        startRequested := true;
        effects := effects + [Log(Info, "Starting service '" + id + "'..."), CallReady, SpawnProcess];
        hasProcess := true;
        processEnded := false;
        processSpawned := false;
      }
      task := true;
    }

    method CompleteStart()
      requires Valid()
      modifies this
      ensures Valid()
      ensures started == (old(started) || (spawnConfirmed && ready == IsReady))
      ensures effects == old(effects) +
        (if !old(started) && spawnConfirmed && ready == IsReady then [Log(Info, "Started service '" + id + "'")] else [])
      ensures startRequested == old(startRequested) && stopRequested == old(stopRequested) && stopped == old(stopped)
      ensures hasProcess == old(hasProcess) && processEnded == old(processEnded) && endCalled == old(endCalled)
      ensures spawnConfirmed == old(spawnConfirmed) && ready == old(ready) && phase == old(phase) && crashes == old(crashes)
      ensures processSpawned == old(processSpawned) && crashPending == old(crashPending)
    {
      if !started && spawnConfirmed && ready == IsReady {
        started := true;
        effects := effects + [Log(Info, "Started service '" + id + "'")];
      }
    }

    method SpawnConfirmed()
      requires Valid() && hasProcess
      modifies this
      ensures Valid() && spawnConfirmed && processSpawned
      ensures started <==> ready == IsReady
      ensures effects == old(effects) +
        (if !old(started) && ready == IsReady then [Log(Info, "Started service '" + id + "'")] else [])
      ensures stopRequested == old(stopRequested) && processEnded == old(processEnded) && phase == old(phase)
      ensures crashPending == old(crashPending) && stopped == old(stopped) && ready == old(ready)
    {
      spawnConfirmed := true;
      processSpawned := true;
      CompleteStart();
    }

    /** The spawn failed: `die` with the error's stack; the process has ended, and `didStart` is
        false, so its crash callback never fires. */
    method SpawnFailed(stack: string)
      requires Valid() && hasProcess
      modifies this
      ensures Valid() && processEnded && !crashPending
      ensures effects == old(effects) + [Die(DieMessage(id, "Error starting process: " + stack))]
      ensures started == old(started) && stopRequested == old(stopRequested) && phase == old(phase)
      ensures crashes == old(crashes)
    {
      processEnded := true;
      crashPending := false;
      effects := effects + [Die(DieMessage(id, "Error starting process: " + stack))];
    }

    method ReadyResolved()
      requires Valid() && startRequested && ready == AwaitingReady
      modifies this
      ensures Valid() && ready == IsReady
      ensures started <==> spawnConfirmed
      ensures effects == old(effects) +
        (if spawnConfirmed then [Log(Info, "Started service '" + id + "'")] else [])
      ensures stopRequested == old(stopRequested) && processEnded == old(processEnded) && phase == old(phase)
    {
      ready := IsReady;
      CompleteStart();
    }

    method ReadyFailed(text: string)
      requires Valid() && startRequested && ready == AwaitingReady
      modifies this
      ensures Valid() && ready == NotReady && !started
      ensures effects == old(effects) + [Die(DieMessage(id, "Error from ready function: " + text))]
      ensures stopRequested == old(stopRequested) && processEnded == old(processEnded) && phase == old(phase)
    {
      ready := NotReady;
      effects := effects + [Die(DieMessage(id, "Error from ready function: " + text))];
    }

    /**
     * The current process ended (`isEnded`). If `stop` ended it, the stop task resolves; otherwise
     * the crash callback waits for `didStart`, and a `stop` that comes meanwhile finds an ended
     * process.
     */
    method OutputEnded()
      requires Valid() && hasProcess && !processEnded && phase == NoCrash
      modifies this
      ensures Valid() && processEnded
      ensures old(endCalled) ==>
        && effects == old(effects) + (if old(stopped) then [] else [Log(Info, "Stopped service '" + id + "'")])
        && stopped && !crashPending
      ensures !old(endCalled) ==> effects == old(effects) && crashPending && stopped == old(stopped)
      ensures startRequested == old(startRequested) && stopRequested == old(stopRequested) && started == old(started)
      ensures crashes == old(crashes) && phase == old(phase) && processSpawned == old(processSpawned)
      ensures ready == old(ready)
    {
      processEnded := true;
      if endCalled {
        if !stopped {
          stopped := true;
          effects := effects + [Log(Info, "Stopped service '" + id + "'")];
        }
        return;
      }
      crashPending := true;
    }

    /**
     * The crash callback, once the process ended without `end` and `started` resolved: it calls
     * `handleCrash`, which reports an internal error when a stop was requested meanwhile, and else
     * appends the crash to `crashes` and calls `onCrash` with it, the newest of `crashes`.
     */
    method CrashCallback(date: nat, logTail: seq<string>, isServiceReady: bool)
      requires Valid() && crashPending && processSpawned
      modifies this
      ensures Valid() && !crashPending
      ensures old(stopRequested) ==>
        && effects == old(effects) + [InternalError("Not expecting handleCrash called when stopping")]
        && crashes == old(crashes) && phase == NoCrash
      ensures !old(stopRequested) ==>
        && phase == AwaitingOnCrash
        && crashes == old(crashes) + [Crash(date, logTail)]
        && effects == old(effects) +
          [Log(Info, "Service '" + id + "' crashed"), CallOnCrash(isServiceReady, Crash(date, logTail), crashes)]
      ensures startRequested == old(startRequested) && stopRequested == old(stopRequested) && started == old(started)
      ensures stopped == old(stopped) && processEnded == old(processEnded)
    {
      crashPending := false;
      if stopRequested {
        effects := effects + [InternalError("Not expecting handleCrash called when stopping")];
        return;
      }
      var crash := Crash(date, logTail);
      crashes := crashes + [crash];
      effects := effects + [Log(Info, "Service '" + id + "' crashed"), CallOnCrash(isServiceReady, crash, crashes)];
      phase := AwaitingOnCrash;
    }

    /** `onCrash` rejected: `die`, which never returns, so no restart follows. */
    method OnCrashFailed(text: string)
      requires Valid() && phase == AwaitingOnCrash
      modifies this
      ensures Valid() && phase == Halted
      ensures effects == old(effects) + [Die(DieMessage(id, "Error from onCrash function: " + text))]
      ensures processEnded == old(processEnded) && stopRequested == old(stopRequested) && crashes == old(crashes)
    {
      phase := Halted;
      effects := effects + [Die(DieMessage(id, "Error from onCrash function: " + text))];
    }

    /** `onCrash` resolved: give up if a stop was requested, else wait for the delay. */
    method OnCrashSucceeded()
      requires Valid() && phase == AwaitingOnCrash
      modifies this
      ensures Valid() && phase == (if stopRequested then NoCrash else AwaitingDelay)
      ensures effects == old(effects) && processEnded == old(processEnded)
      ensures stopRequested == old(stopRequested) && crashes == old(crashes)
    {
      if stopRequested {
        phase := NoCrash;
      } else {
        phase := AwaitingDelay;
      }
    }

    /** The delay passed: restart unless a stop was requested meanwhile. */
    method DelayElapsed()
      requires Valid() && phase == AwaitingDelay
      modifies this
      ensures Valid() && phase == NoCrash
      ensures old(stopRequested) ==> effects == old(effects) && processEnded
      ensures !old(stopRequested) ==>
        && effects == old(effects) + [Log(Info, "Restarting service '" + id + "'"), SpawnProcess]
        && !processEnded && !processSpawned
      ensures stopRequested == old(stopRequested) && crashes == old(crashes) && started == old(started)
      ensures !crashPending
    {
      phase := NoCrash;
      if stopRequested {
        return;
      }
      effects := effects + [Log(Info, "Restarting service '" + id + "'"), SpawnProcess];
      processEnded := false;
      processSpawned := false;
    }

    /** `stop()`: idempotent; with no process or an ended one it resolves at once. */
    method Stop()
      requires Valid()
      modifies this
      ensures Valid() && stopRequested
      ensures old(stopRequested) ==> effects == old(effects) && stopped == old(stopped) && endCalled == old(endCalled)
      ensures !old(stopRequested) && !(hasProcess && !processEnded) ==> effects == old(effects) && stopped
      ensures !old(stopRequested) && hasProcess && !processEnded ==>
        && effects == old(effects) + [Log(Info, "Stopping service '" + id + "'..."), EndProcess]
        && endCalled && !stopped
      ensures hasProcess == old(hasProcess) && processEnded == old(processEnded) && phase == old(phase)
      ensures startRequested == old(startRequested) && started == old(started) && crashes == old(crashes)
      ensures crashPending == old(crashPending) && ready == old(ready)
    {
      if !stopRequested {
        stopRequested := true;
        stopAt := |effects|;
        if !hasProcess || processEnded {
          stopped := true;
        } else {
          effects := effects + [Log(Info, "Stopping service '" + id + "'..."), EndProcess];
          endCalled := true;
        }
      }
    }
  }

  /**
   * A stop inside the 100 ms start grace: the command exits at once, `stop` finds an ended process
   * and resolves at once, and when `started` resolves the crash callback reports an internal error.
   */
  method StopInsideStartGrace() returns (effects: seq<Effect>, stopped: bool)
    ensures stopped
    ensures effects == [Log(Info, "Starting service 'web'..."), CallReady, SpawnProcess,
                        InternalError("Not expecting handleCrash called when stopping")]
  {
    var s := new Service("web");
    assert "Starting service '" + s.id + "'..." == "Starting service 'web'...";
    var _ := s.Start();
    s.OutputEnded();
    s.Stop();
    s.SpawnConfirmed();
    s.CrashCallback(0, [], false);
    effects, stopped := s.effects, s.stopped;
  }
}
