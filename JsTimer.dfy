/**
 * The `Timer` state machine of js/state/timer.js: a session that can be started,
 * paused, resumed, stopped and reset, with the clock passed in as `now` (ms).
 * Elapsed time is whole seconds banked at each pause plus the running stretch.
 */
module JsTimer {
  import opened Common

  /** `Math.floor((now - start) / 1000)`: Dafny's `/` floors for a positive divisor. */
  function SecondsBetween(start: int, now: int): (r: int)
    ensures r * 1000 <= now - start < r * 1000 + 1000
    ensures start <= now <==> 0 <= r
  {
    (now - start) / 1000
  }

  lemma SecondsBetweenMonotone(start: int, now1: int, now2: int)
    requires now1 <= now2
    ensures SecondsBetween(start, now1) <= SecondsBetween(start, now2)
  {
  }

  datatype TimerSnapshot = TimerSnapshot(
    isRunning: bool, isPaused: bool, startTimeMs: Option<int>, pauseStartTimeMs: Option<int>, elapsedSeconds: int)

  class Timer {
    var isRunning: bool
    var isPaused: bool
    var startTimeMs: Option<int>
    var pauseStartTimeMs: Option<int>
    var elapsedSeconds: int

    /** The invariant every transition keeps. */
    predicate Valid()
      reads this
    {
      (isPaused ==> isRunning && startTimeMs.None? && pauseStartTimeMs.Some?)
      && (isRunning && !isPaused ==> startTimeMs.Some? && pauseStartTimeMs.None?)
      && (!isRunning ==> startTimeMs.None? && pauseStartTimeMs.None? && elapsedSeconds == 0)
    }

    constructor ()
      ensures Valid() && !isRunning && !isPaused && elapsedSeconds == 0
    {
      isRunning, isPaused := false, false;
      startTimeMs, pauseStartTimeMs := None, None;
      elapsedSeconds := 0;
    }

    /**
     * `getElapsedSeconds(now)`: the banked seconds, plus the whole seconds since the
     * last start or resume while running; frozen while paused or stopped.
     */
    function GetElapsedSeconds(now: int): (r: int)
      reads this
      ensures !isRunning || isPaused || startTimeMs.None? ==> r == elapsedSeconds
      ensures isRunning && !isPaused && startTimeMs.Some? ==>
        r == elapsedSeconds + SecondsBetween(startTimeMs.value, now)
        && (r - elapsedSeconds) * 1000 <= now - startTimeMs.value < (r - elapsedSeconds) * 1000 + 1000
    {
      if !isRunning || isPaused || startTimeMs.None? then elapsedSeconds
      else elapsedSeconds + SecondsBetween(startTimeMs.value, now)
    }

    function GetSnapshot(now: int): (s: TimerSnapshot)
      reads this
      ensures s.elapsedSeconds == GetElapsedSeconds(now) && s.isRunning == isRunning && s.isPaused == isPaused
      ensures s.startTimeMs == startTimeMs && s.pauseStartTimeMs == pauseStartTimeMs
    {
      TimerSnapshot(isRunning, isPaused, startTimeMs, pauseStartTimeMs, GetElapsedSeconds(now))
    }

    /** `start(now)`: a no-op while running; otherwise a fresh running session from `now`. */
    method Start(now: int)
      requires Valid()
      modifies this
      ensures Valid()
      ensures old(isRunning) ==> (isRunning == old(isRunning) && isPaused == old(isPaused)
        && startTimeMs == old(startTimeMs) && pauseStartTimeMs == old(pauseStartTimeMs)
        && elapsedSeconds == old(elapsedSeconds))
      ensures !old(isRunning) ==> isRunning && !isPaused && startTimeMs == Some(now) && elapsedSeconds == 0
    {
      if isRunning {
        return;
      }
      isRunning := true;
      isPaused := false;
      startTimeMs := Some(now);
      pauseStartTimeMs := None;
      elapsedSeconds := 0;
    }

    /**
     * `pause(now)`: only while running and not paused; banks the whole seconds
     * since the last start, so the elapsed value at `now` is kept, and clears the start.
     */
    method Pause(now: int)
      requires Valid()
      modifies this
      ensures Valid()
      ensures !old(isRunning && !isPaused) ==> (isRunning == old(isRunning) && isPaused == old(isPaused)
        && startTimeMs == old(startTimeMs) && pauseStartTimeMs == old(pauseStartTimeMs)
        && elapsedSeconds == old(elapsedSeconds))
      ensures old(isRunning && !isPaused) ==> (isRunning && isPaused && startTimeMs.None?
        && pauseStartTimeMs == Some(now)
        && elapsedSeconds == old(elapsedSeconds) + SecondsBetween(old(startTimeMs).value, now)
        && elapsedSeconds == old(GetElapsedSeconds(now)))
    {
      if !isRunning || isPaused {
        return;
      }
      if startTimeMs.Some? {
        elapsedSeconds := elapsedSeconds + SecondsBetween(startTimeMs.value, now);
      }
      isPaused := true;
      pauseStartTimeMs := Some(now);
      startTimeMs := None;
    }

    /** `resume(now)`: only while paused; runs again from `now` with the banked seconds kept. */
    method Resume(now: int)
      requires Valid()
      modifies this
      ensures Valid()
      ensures !old(isRunning && isPaused) ==> (isRunning == old(isRunning) && isPaused == old(isPaused)
        && startTimeMs == old(startTimeMs) && pauseStartTimeMs == old(pauseStartTimeMs))
      ensures old(isRunning && isPaused) ==> (isRunning && !isPaused && startTimeMs == Some(now)
        && pauseStartTimeMs.None?)
      ensures elapsedSeconds == old(elapsedSeconds) && GetElapsedSeconds(now) == old(GetElapsedSeconds(now))
    {
      if !isRunning || !isPaused {
        return;
      }
      isPaused := false;
      startTimeMs := Some(now);
      pauseStartTimeMs := None;
    }

    /** `reset()`: back to the initial, stopped state. */
    method Reset()
      modifies this
      ensures Valid() && !isRunning && !isPaused && startTimeMs.None? && pauseStartTimeMs.None? && elapsedSeconds == 0
    {
      isRunning := false;
      isPaused := false;
      startTimeMs := None;
      pauseStartTimeMs := None;
      elapsedSeconds := 0;
    }

    /** `stop(now)`: 0 when not running; otherwise the elapsed seconds at `now`, leaving the timer reset. */
    method Stop(now: int) returns (total: int)
      requires Valid()
      modifies this
      ensures Valid()
      ensures !old(isRunning) ==> total == 0 && !isRunning && elapsedSeconds == 0
      ensures old(isRunning) ==> (total == old(GetElapsedSeconds(now))
        && !isRunning && !isPaused && startTimeMs.None? && elapsedSeconds == 0)
    {
      if !isRunning {
        return 0;
      }
      total := GetElapsedSeconds(now);
      Reset();
    }
  }

  /** Elapsed time never goes down as the clock moves forward. */
  lemma ElapsedMonotone(t: Timer, now1: int, now2: int)
    requires now1 <= now2
    ensures t.GetElapsedSeconds(now1) <= t.GetElapsedSeconds(now2)
  {
    if t.isRunning && !t.isPaused && t.startTimeMs.Some? {
      SecondsBetweenMonotone(t.startTimeMs.value, now1, now2);
    }
  }

  /** While paused, the elapsed value is the same at every clock reading. */
  lemma PausedIsFrozen(t: Timer, now1: int, now2: int)
    requires t.isPaused
    ensures t.GetElapsedSeconds(now1) == t.GetElapsedSeconds(now2) == t.elapsedSeconds
  {
  }
}
