/**
 * The `ComposedService` of `src/core/ComposedService.ts`. Each start (the first one and every
 * restart) spawns a process and calls `ready`, then races "spawned and ready" against "spawned and
 * then exited"; a lost race goes to `die`. A won race arms the restart: when that process exits
 * and no stop was requested, the service starts again. The process, `ready` and `die` are outside
 * the model; their outcomes arrive as events, and what the service does is recorded in `effects`.
 */
module ComposedServiceLifecycle {

  datatype Effect =
    | Log(text: string)               // `console.log(text)`
    | SpawnProcess                    // `new InternalProcess(command, env)`
    | CallReady
    | Die(message: string)
    | EndProcess

  /** The race of one start. */
  datatype Race = Racing | Won | Lost

  class ComposedService {
    const id: string

    /** `startResult` is defined. */
    var startRequested: bool
    /** `startResult` has resolved. */
    var started: bool
    /** `stopResult` is defined. */
    var stopRequested: bool
    /** `stopResult` has resolved. */
    var stopped: bool
    /** `this.proc` is defined. */
    var hasProc: bool
    /** `proc.isEnded`. */
    var procEnded: bool
    /** `proc.end()` was called. */
    var endCalled: bool
    /** How many times `_start` ran. */
    var generation: nat
    /** The current process's `started` resolved. */
    var spawned: bool
    /** The current `ready` resolved. */
    var readyDone: bool
    var race: Race
    var effects: seq<Effect>
    /** The length of `effects` when `stop` was first called. */
    ghost var stopAt: nat

    /** A race is won only once the spawn and `ready` both resolved; a start task resolves only
        with the first generation's win; only `stop` ends a process; no spawn follows a stop. */
    ghost predicate Valid()
      reads this
    {
      && (race == Won ==> spawned && readyDone)
      && (started ==> startRequested && generation >= 1 && (generation == 1 ==> race == Won))
      && (hasProc <==> generation >= 1)
      && (startRequested <==> generation >= 1)
      && (endCalled ==> stopRequested && hasProc)
      && (stopped ==> stopRequested)
      && (stopRequested ==> stopAt <= |effects| && forall i :: stopAt <= i < |effects| ==> !effects[i].SpawnProcess?)
    }

    constructor(id: string)
      ensures Valid() && this.id == id
      ensures !startRequested && !stopRequested && !hasProc && effects == [] && generation == 0
    {
      this.id := id;
      startRequested := false;
      started := false;
      stopRequested := false;
      stopped := false;
      hasProc := false;
      procEnded := false;
      endCalled := false;
      generation := 0;
      spawned := false;
      readyDone := false;
      race := Racing;
      effects := [];
      stopAt := 0;
    }

    /** `_start()` up to the race: a new process, a new `ready` call, a fresh race. */
    method BeginStart()
      requires Valid() && !stopRequested && (generation >= 1 ==> procEnded)
      modifies this
      ensures Valid()
      ensures generation == old(generation) + 1 && hasProc && !procEnded && !endCalled
      ensures !spawned && !readyDone && race == Racing
      ensures effects == old(effects) + [SpawnProcess, CallReady]
      ensures startRequested && started == old(started) && stopRequested == old(stopRequested) && stopped == old(stopped)
    {
      generation := generation + 1;
      startRequested := true;
      hasProc := true;
      procEnded := false;
      endCalled := false;
      spawned := false;
      readyDone := false;
      race := Racing;
      effects := effects + [SpawnProcess, CallReady];
    }

    /** `start()`: the first call logs and runs `_start`; later calls return the same task. */
    method Start()
      requires Valid() && !stopRequested
      modifies this
      ensures Valid() && startRequested
      ensures old(startRequested) ==> effects == old(effects) && generation == old(generation)
      ensures !old(startRequested) ==>
        && effects == old(effects) + [Log("Starting service '" + id + "'..."), SpawnProcess, CallReady]
        && generation == 1 && race == Racing
      ensures started == old(started) && stopRequested == old(stopRequested)
    {
      if !startRequested {
        effects := effects + [Log("Starting service '" + id + "'...")];
        BeginStart();
      }
    }

    /** The race is won: the first start task resolves; a restart is announced. */
    method Win()
      requires Valid() && race == Racing && spawned && readyDone
      modifies this
      ensures Valid() && race == Won
      ensures generation == 1 ==> started && effects == old(effects) + [Log("Started service '" + id + "'")]
      ensures generation != 1 ==> started == old(started) && effects == old(effects) + [Log("Restarted service '" + id + "'")]
      ensures generation == old(generation) && procEnded == old(procEnded) && stopRequested == old(stopRequested)
      ensures spawned == old(spawned) && readyDone == old(readyDone) && hasProc == old(hasProc)
      ensures stopped == old(stopped) && endCalled == old(endCalled)
    {
      race := Won;
      if generation == 1 {
        started := true;
        effects := effects + [Log("Started service '" + id + "'")];
      } else {
        effects := effects + [Log("Restarted service '" + id + "'")];
      }
    }

    /** The race is lost: `die` with the reason under the service's prefix. */
    method Lose(reason: string)
      requires Valid() && race == Racing
      modifies this
      ensures Valid() && race == Lost
      ensures effects == old(effects) + [Die("Error starting service '" + id + "': " + reason)]
      ensures generation == old(generation) && started == old(started) && procEnded == old(procEnded)
      ensures stopRequested == old(stopRequested)
      ensures spawned == old(spawned) && readyDone == old(readyDone) && hasProc == old(hasProc)
      ensures stopped == old(stopped) && endCalled == old(endCalled)
    {
      race := Lost;
      effects := effects + [Die("Error starting service '" + id + "': " + reason)];
    }

    /** The process's `started` resolved: the race is won if `ready` already resolved, and lost if
        the process already exited. */
    method ProcSpawned()
      requires Valid() && hasProc && race == Racing && !spawned
      modifies this
      ensures Valid() && spawned
      ensures readyDone ==> race == Won
      ensures readyDone && generation == 1 ==> started && effects == old(effects) + [Log("Started service '" + id + "'")]
      ensures readyDone && generation != 1 ==>
        started == old(started) && effects == old(effects) + [Log("Restarted service '" + id + "'")]
      ensures !readyDone ==> started == old(started)
      ensures !readyDone && procEnded ==>
        && race == Lost
        && effects == old(effects) + [Die("Error starting service '" + id + "': " + "Process exited without becoming ready")]
      ensures !readyDone && !procEnded ==> race == Racing && effects == old(effects)
      ensures generation == old(generation) && stopRequested == old(stopRequested)
    {
      spawned := true;
      if readyDone {
        Win();
      } else if procEnded {
        Lose("Process exited without becoming ready");
      }
    }

    /** The process's `started` rejected. */
    method ProcSpawnFailed(message: string)
      requires Valid() && hasProc && race == Racing && !spawned
      modifies this
      ensures Valid() && race == Lost && started == old(started)
      ensures effects == old(effects) + [Die("Error starting service '" + id + "': " + ("Error spawning process: " + message))]
      ensures generation == old(generation) && stopRequested == old(stopRequested)
    {
      Lose("Error spawning process: " + message);
    }

    /** `ready` resolved: the race is won if the spawn already resolved. */
    method ReadyResolved()
      requires Valid() && race == Racing && !readyDone
      modifies this
      ensures Valid() && readyDone
      ensures spawned <==> race == Won
      ensures spawned && generation == 1 ==> started && effects == old(effects) + [Log("Started service '" + id + "'")]
      ensures spawned && generation != 1 ==>
        started == old(started) && effects == old(effects) + [Log("Restarted service '" + id + "'")]
      ensures !spawned ==> effects == old(effects) && started == old(started)
      ensures generation == old(generation) && stopRequested == old(stopRequested)
    {
      readyDone := true;
      if spawned {
        Win();
      }
    }

    /** `ready` rejected. */
    method ReadyFailed(text: string)
      requires Valid() && race == Racing && !readyDone
      modifies this
      ensures Valid() && race == Lost
      ensures effects == old(effects) + [Die("Error starting service '" + id + "': " + ("Error waiting to be ready: " + text))]
      ensures generation == old(generation) && stopRequested == old(stopRequested)
    {
      Lose("Error waiting to be ready: " + text);
    }

    /**
     * The current process ended. A stop that ended it resolves; a race still open after the spawn
     * is lost; and after a won race the service restarts unless a stop was requested.
     */
    method ProcEnded()
      requires Valid() && hasProc && !procEnded
      modifies this
      ensures Valid()
      ensures stopped == (old(stopped) || old(endCalled))
      ensures old(race) == Racing && old(spawned) ==>
        && race == Lost && procEnded && generation == old(generation)
        && effects == old(effects) + StoppedLog(old(endCalled) && !old(stopped)) +
          [Die("Error starting service '" + id + "': " + "Process exited without becoming ready")]
      ensures old(race) == Racing && !old(spawned) ==>
        && race == Racing && procEnded && generation == old(generation)
        && effects == old(effects) + StoppedLog(old(endCalled) && !old(stopped))
      ensures old(race) == Won && !stopRequested ==>
        && generation == old(generation) + 1 && race == Racing && !procEnded
        && effects == old(effects) + [Log("Process for service '" + id + "' exited\nRestarting service '" + id + "'..."), SpawnProcess, CallReady]
      ensures (old(race) == Won && stopRequested) || old(race) == Lost ==>
        procEnded && generation == old(generation) &&
        effects == old(effects) + StoppedLog(old(endCalled) && !old(stopped))
      ensures stopRequested == old(stopRequested) && started == old(started)
    {
      procEnded := true;
      if endCalled && !stopped {
        stopped := true;
        effects := effects + [Log("Stopped service '" + id + "'")];
      }
      if race == Racing && spawned {
        Lose("Process exited without becoming ready");
      } else if race == Won && !stopRequested {
        effects := effects + [Log("Process for service '" + id + "' exited\nRestarting service '" + id + "'...")];
        BeginStart();
      }
    }

    /** The "Stopped service" log when the stop task resolves now, else nothing. */
    function StoppedLog(resolves: bool): seq<Effect> {
      if resolves then [Log("Stopped service '" + id + "'")] else []
    }

    /** `stop()`: idempotent; with no process or an ended one it resolves at once. */
    method Stop()
      requires Valid()
      modifies this
      ensures Valid() && stopRequested
      ensures old(stopRequested) ==> effects == old(effects) && stopped == old(stopped)
      ensures !old(stopRequested) && !(hasProc && !procEnded) ==> effects == old(effects) && stopped
      ensures !old(stopRequested) && hasProc && !procEnded ==>
        effects == old(effects) + [Log("Stopping service '" + id + "'..."), EndProcess] && endCalled && !stopped
      ensures generation == old(generation) && race == old(race) && started == old(started) && procEnded == old(procEnded)
    {
      if !stopRequested {
        stopRequested := true;
        stopAt := |effects|;
        if !hasProc || procEnded {
          stopped := true;
        } else {
          effects := effects + [Log("Stopping service '" + id + "'..."), EndProcess];
          endCalled := true;
        }
      }
    }
  }
}
