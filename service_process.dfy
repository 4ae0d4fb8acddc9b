/**
 * The `ServiceProcess` of `src/ServiceProcess.ts`: one spawned child process of a service. The
 * child process, its output streams and the timers are outside the model; what they do to the
 * object arrives as events (the spawn failed, the output ended, a line arrived, the force-kill
 * timer fired), and what the object does to the process is recorded in `actions`.
 */
module ProcessLifecycle {
  import opened Bounded
  import opened ConfigValidation

  /** A request the object makes of the child process or the logger. */
  datatype Action =
    | Kill                      // `process.kill()`
    | SigInt                    // `process.kill("SIGINT")`
    | SigKill                   // `process.kill("SIGKILL")`
    | StartForceKillTimer(ms: nat)
    | LogInfo(text: string)

  class ServiceProcess {
    const serviceId: string
    const logTailLength: nat
    const forceKillTimeout: Timeout
    /** `process.platform === "win32"`. */
    const isWin32: bool

    var didError: bool
    var didEnd: bool
    var wasEndCalled: bool
    var logTail: seq<string>
    /** Whether the force-kill timer was started (it is started at most once). */
    var timerStarted: bool
    /** Every request made so far, in order. */
    var actions: seq<Action>
    /** Every output line seen so far. */
    ghost var lines: seq<string>

    /** `logTail` holds the newest `logTailLength` lines in arrival order; a timer and a kill
        request only ever follow `end`, and an infinite timeout never starts a timer. */
    ghost predicate Valid()
      reads this
    {
      && logTail == Tail(lines, logTailLength)
      && (timerStarted ==> wasEndCalled && forceKillTimeout.Millis?)
      && (!wasEndCalled ==> actions == [])
      && (forceKillTimeout.Infinity? ==> SigKill !in actions)
    }

    constructor(serviceId: string, logTailLength: nat, forceKillTimeout: Timeout, isWin32: bool)
      ensures Valid()
      ensures this.serviceId == serviceId && this.logTailLength == logTailLength
      ensures this.forceKillTimeout == forceKillTimeout && this.isWin32 == isWin32
      ensures !didError && !didEnd && !wasEndCalled && !timerStarted && logTail == [] && actions == []
    {
      this.serviceId := serviceId;
      this.logTailLength := logTailLength;
      this.forceKillTimeout := forceKillTimeout;
      this.isWin32 := isWin32;
      didError := false;
      didEnd := false;
      wasEndCalled := false;
      logTail := [];
      timerStarted := false;
      actions := [];
      lines := [];
      assert Tail<string>([], logTailLength) == [];
    }

    /** `isRunning()`. */
    predicate IsRunning()
      reads this
    {
      !didError && !didEnd
    }

    /** The `started` promise rejected: the spawn failed. */
    method SpawnFailed()
      requires Valid()
      modifies this
      ensures Valid() && didError && !IsRunning()
      ensures didEnd == old(didEnd) && wasEndCalled == old(wasEndCalled) && logTail == old(logTail)
      ensures actions == old(actions) && timerStarted == old(timerStarted)
    {
      didError := true;
    }

    /** The merged output stream ended. */
    method OutputEnded()
      requires Valid()
      modifies this
      ensures Valid() && didEnd && !IsRunning()
      ensures didError == old(didError) && wasEndCalled == old(wasEndCalled) && logTail == old(logTail)
      ensures actions == old(actions) && timerStarted == old(timerStarted)
    {
      didEnd := true;
    }

    /** A line passed the tap: it is pushed onto `logTail`, and the oldest line is shifted off
        once there are more than `logTailLength`; with a length of 0 there is no tap at all. */
    method LineArrived(line: string)
      requires Valid()
      modifies this
      ensures Valid()
      ensures lines == old(lines) + [line]
      ensures |logTail| <= logTailLength
      ensures logTailLength > 0 ==> logTail[|logTail| - 1] == line
      ensures logTailLength == 0 ==> logTail == []
      ensures didError == old(didError) && didEnd == old(didEnd) && wasEndCalled == old(wasEndCalled)
      ensures actions == old(actions) && timerStarted == old(timerStarted)
    {
      if logTailLength > 0 {
        ghost var before := logTail;
        PushBoundedTail(lines, line, logTailLength);
        logTail := logTail + [line];
        if |logTail| > logTailLength {
          logTail := logTail[1..];
        }
        assert logTail == PushBounded(before, line, logTailLength);
      }
      lines := lines + [line];
    }

    /**
     * `end(windowsCtrlCShutdown)`: only the first call does anything, and only while the process
     * runs. With `windowsCtrlCShutdown` the ctrl+c was already sent, so only the force-kill timer
     * is started; on win32 the process is killed outright; elsewhere it gets SIGINT and the timer.
     */
    method End(windowsCtrlCShutdown: bool)
      requires Valid()
      modifies this
      ensures Valid() && wasEndCalled
      ensures didError == old(didError) && didEnd == old(didEnd) && logTail == old(logTail)
      ensures old(wasEndCalled) || !old(IsRunning()) ==>
        actions == old(actions) && timerStarted == old(timerStarted)
      ensures !old(wasEndCalled) && old(IsRunning()) ==>
        if windowsCtrlCShutdown then
          actions == old(actions) + TimerActions() && timerStarted == forceKillTimeout.Millis?
        else if isWin32 then
          actions == old(actions) + [Kill] && timerStarted == old(timerStarted)
        else
          actions == old(actions) + [SigInt] + TimerActions() && timerStarted == forceKillTimeout.Millis?
    {
      if !wasEndCalled {
        wasEndCalled := true;
        if IsRunning() {
          if windowsCtrlCShutdown {
            ForceKillAfterTimeout();
          } else if isWin32 {
            actions := actions + [Kill];
          } else {
            actions := actions + [SigInt];
            ForceKillAfterTimeout();
          }
        }
      }
    }

    /** What `forceKillAfterTimeout()` requests: nothing for an infinite timeout, else a timer. */
    function TimerActions(): seq<Action>
      reads this
    {
      if forceKillTimeout.Infinity? then [] else [StartForceKillTimer(forceKillTimeout.ms)]
    }

    method ForceKillAfterTimeout()
      requires Valid() && wasEndCalled
      modifies this
      ensures Valid()
      ensures actions == old(actions) + TimerActions()
      ensures timerStarted == (old(timerStarted) || forceKillTimeout.Millis?)
      ensures didError == old(didError) && didEnd == old(didEnd) && wasEndCalled == old(wasEndCalled)
      ensures logTail == old(logTail)
    {
      if forceKillTimeout.Infinity? {
        return;
      }
      timerStarted := true;
      actions := actions + [StartForceKillTimer(forceKillTimeout.ms)];
    }

    /** The force-kill timer fired: SIGKILL, announced in the log, only if the process still runs. */
    method ForceKillTimerFired()
      requires Valid() && timerStarted
      modifies this
      ensures Valid()
      ensures actions == old(actions) +
        (if IsRunning() then [LogInfo("Force killing service '" + serviceId + "'"), SigKill] else [])
      ensures didError == old(didError) && didEnd == old(didEnd) && wasEndCalled == old(wasEndCalled)
      ensures logTail == old(logTail) && timerStarted
    {
      if IsRunning() {
        actions := actions + [LogInfo("Force killing service '" + serviceId + "'"), SigKill];
      }
    }

    /** Once `started` and `ended` have both settled: the crash callback fires exactly when the
        spawn did not fail and `end` was never called. */
    method Settled() returns (crash: bool)
      requires Valid() && didEnd
      ensures crash <==> !didError && !wasEndCalled
      ensures crash ==> actions == []
    {
      crash := !didError && !wasEndCalled;
    }
  }
}

/**
 * The `ServiceProcess` of `src/core/ServiceProcess.ts`: `isEnded` is set by whichever comes first
 * of a process error and the end of the output; a spawn counts as successful when no error
 * arrives within a grace period; and `end` sends SIGINT at most once.
 */
module CoreProcessLifecycle {
  import opened Bounded

  datatype StartState = Pending | Started | Failed

  class ServiceProcess {
    const logTailLength: nat

    var isEnded: bool
    var wasEndCalled: bool
    var logTail: seq<string>
    /** How the `started` promise settled, if it has. */
    var startState: StartState
    /** The process ended without `end` having been called, before the spawn was confirmed. */
    var crashPending: bool
    /** Whether `onCrash` has been called. */
    var crashed: bool
    /** How many SIGINTs were sent. */
    var sigints: nat
    ghost var lines: seq<string>

    ghost predicate Valid()
      reads this
    {
      && logTail == Tail(lines, logTailLength)
      && (crashed ==> startState == Started && isEnded)
      && (crashPending ==> startState == Pending && isEnded && !crashed)
      && sigints <= 1
      && (sigints == 1 ==> wasEndCalled)
    }

    constructor(logTailLength: nat)
      ensures Valid() && this.logTailLength == logTailLength
      ensures !isEnded && !wasEndCalled && logTail == [] && startState == Pending
      ensures !crashPending && !crashed && sigints == 0
    {
      this.logTailLength := logTailLength;
      isEnded := false;
      wasEndCalled := false;
      logTail := [];
      startState := Pending;
      crashPending := false;
      crashed := false;
      sigints := 0;
      lines := [];
      assert Tail<string>([], logTailLength) == [];
    }

    /** A line arrived on `output`: pushed onto `logTail`, oldest shifted off past the limit. */
    method LineArrived(line: string)
      requires Valid()
      modifies this
      ensures Valid() && lines == old(lines) + [line]
      ensures |logTail| <= logTailLength && (logTailLength == 0 ==> logTail == [])
      ensures logTailLength > 0 ==> logTail[|logTail| - 1] == line
      ensures isEnded == old(isEnded) && wasEndCalled == old(wasEndCalled) && startState == old(startState)
      ensures crashed == old(crashed) && sigints == old(sigints) && crashPending == old(crashPending)
    {
      if logTailLength > 0 {
        ghost var before := logTail;
        PushBoundedTail(lines, line, logTailLength);
        logTail := logTail + [line];
        if |logTail| > logTailLength {
          logTail := logTail[1..];
        }
        assert logTail == PushBounded(before, line, logTailLength);
      }
      lines := lines + [line];
    }

    /** The handler of the `ended` race: it runs once, for whichever of the process error and the
        output end comes first. Without an earlier `end` call, `onCrash` follows once the spawn is
        confirmed, and never when the spawn failed. */
    method Ended()
      requires Valid()
      modifies this
      ensures Valid() && isEnded
      ensures old(isEnded) ==> crashed == old(crashed) && crashPending == old(crashPending)
      ensures !old(isEnded) ==>
        && crashed == (old(crashed) || (!wasEndCalled && startState == Started))
        && crashPending == (!wasEndCalled && startState == Pending)
      ensures wasEndCalled == old(wasEndCalled) && startState == old(startState)
      ensures logTail == old(logTail) && sigints == old(sigints)
    {
      if !isEnded {
        isEnded := true;
        if !wasEndCalled {
          if startState == Started {
            crashed := true;
          } else if startState == Pending {
            crashPending := true;
          }
        }
      }
    }

    /** A process `error` event: it rejects `started` if that is still pending, and feeds the
        `ended` race. */
    method ProcessError()
      requires Valid()
      modifies this
      ensures Valid() && isEnded
      ensures old(startState) == Pending ==> startState == Failed && !crashed && !crashPending
      ensures old(startState) != Pending ==> startState == old(startState)
      ensures wasEndCalled == old(wasEndCalled) && sigints == old(sigints) && logTail == old(logTail)
    {
      if startState == Pending {
        startState := Failed;
        crashPending := false;
      }
      Ended();
    }

    /** The grace period passed without an error: the spawn is confirmed, and a crash that waited
        for it is reported. */
    method GracePeriodElapsed()
      requires Valid()
      modifies this
      ensures Valid()
      ensures old(startState) == Pending ==> startState == Started && crashed == (old(crashed) || old(crashPending))
      ensures old(startState) != Pending ==> startState == old(startState) && crashed == old(crashed)
      ensures !crashPending
      ensures isEnded == old(isEnded) && wasEndCalled == old(wasEndCalled)
      ensures sigints == old(sigints) && logTail == old(logTail)
    {
      if startState == Pending {
        startState := Started;
        if crashPending {
          crashed := true;
        }
      }
      crashPending := false;
    }

    /** `end()`: SIGINT on the first call, and only if the process has not already ended. */
    method End()
      requires Valid()
      modifies this
      ensures Valid() && wasEndCalled
      ensures sigints == if !old(wasEndCalled) && !old(isEnded) then old(sigints) + 1 else old(sigints)
      ensures isEnded == old(isEnded) && startState == old(startState) && logTail == old(logTail)
      ensures crashed == old(crashed) && crashPending == old(crashPending)
    {
      if !wasEndCalled {
        wasEndCalled := true;
        if !isEnded {
          sigints := sigints + 1;
        }
      }
    }
  }
}
