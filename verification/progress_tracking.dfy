/**
 * The progress clock (`useProgressTracking`): a polling interval that derives
 * the looped playback position from the audio clock, discounting paused time.
 *
 * Each callback is one atomic step; the clock reading `now` is an argument.
 * Live intervals are kept with what their closure captured: the track
 * duration and the value `isPaused` had when `startTracking` ran, which is
 * what the tick's guard reads (not the live flag).
 */
module ProgressTracking {
  import opened Wrappers
  import opened TimeUtils

  /** A live interval: the duration and the `isPaused` value its closure captured. */
  datatype TimerInfo = TimerInfo(duration: real, capturedPaused: bool)

  /** The hook's state and refs, plus the live intervals and the next interval id. */
  datatype Tracker = Tracker(
    currentTime: real,
    isPaused: bool,
    startTime: real,
    pausedAt: real,
    totalPaused: real,
    intervalRef: Option<nat>,
    timers: map<nat, TimerInfo>,
    nextTimer: nat)

  /** Every state and ref at its initial value, no interval running. */
  const Initial: Tracker := Tracker(0.0, false, 0.0, 0.0, 0.0, None, map[], 0)

  /** Interval ids are handed out once: every live or remembered id is below nextTimer. */
  predicate Valid(s: Tracker) {
    (forall id :: id in s.timers ==> id < s.nextTimer) &&
    (s.intervalRef.Some? ==> s.intervalRef.value < s.nextTimer)
  }

  /** `startTracking(duration)`: restart the clock and set up a new interval (an earlier one is not cleared). */
  function Start(s: Tracker, duration: real, now: real): Tracker {
    s.(startTime := now,
       totalPaused := 0.0,
       isPaused := false,
       timers := s.timers[s.nextTimer := TimerInfo(duration, s.isPaused)],
       intervalRef := Some(s.nextTimer),
       nextTimer := s.nextTimer + 1)
  }

  /** One firing of interval `id`: unless its captured guard says paused, publish the looped elapsed time. */
  function Tick(s: Tracker, id: nat, now: real): Tracker {
    if id !in s.timers || s.timers[id].capturedPaused then s
    else
      var elapsed := now - s.startTime - s.totalPaused;
      s.(currentTime := CalculateLoopedProgress(0.0, elapsed, s.timers[id].duration))
  }

  /** `pauseTracking()` */
  function Pause(s: Tracker, now: real): Tracker {
    if !s.isPaused then s.(pausedAt := now, isPaused := true) else s
  }

  /** `resumeTracking()` */
  function Resume(s: Tracker, now: real): Tracker {
    if s.isPaused then s.(totalPaused := s.totalPaused + (now - s.pausedAt), isPaused := false) else s
  }

  /** `stopTracking()`: clear the remembered interval, reset the display and the paused total. */
  function Stop(s: Tracker): Tracker {
    var timers := if s.intervalRef.Some? then s.timers - {s.intervalRef.value} else s.timers;
    s.(timers := timers, intervalRef := None, currentTime := 0.0, isPaused := false, totalPaused := 0.0)
  }

  /** The unmount cleanup: clear the remembered interval (the ref itself is left as it is). */
  function Unmount(s: Tracker): Tracker {
    if s.intervalRef.Some? then s.(timers := s.timers - {s.intervalRef.value}) else s
  }

  // ---------------------------------------------------------------------------
  // The hook as an object whose callbacks update its fields.

  class ProgressTracker {
    var currentTime: real
    var isPaused: bool
    var startTime: real      // startTimeRef
    var pausedAt: real       // pausedAtRef
    var totalPaused: real    // totalPausedTimeRef
    var intervalRef: Option<nat>
    var timers: map<nat, TimerInfo>
    var nextTimer: nat

    function State(): Tracker
      reads this
    {
      Tracker(currentTime, isPaused, startTime, pausedAt, totalPaused, intervalRef, timers, nextTimer)
    }

    constructor ()
      ensures State() == Initial
    {
      currentTime, isPaused := 0.0, false;
      startTime, pausedAt, totalPaused := 0.0, 0.0, 0.0;
      intervalRef, timers, nextTimer := None, map[], 0;
    }

    method StartTracking(duration: real, now: real)
      modifies this
      ensures State() == Start(old(State()), duration, now)
    {
      var captured := isPaused;
      startTime := now;
      totalPaused := 0.0;
      isPaused := false;
      timers := timers[nextTimer := TimerInfo(duration, captured)];
      intervalRef := Some(nextTimer);
      nextTimer := nextTimer + 1;
    }

    /** A firing of interval `id`; an interval that was cleared never fires, so it changes nothing. */
    method OnTick(id: nat, now: real)
      modifies this
      ensures State() == Tick(old(State()), id, now)
    {
      if id in timers && !timers[id].capturedPaused {
        var elapsed := now - startTime - totalPaused;
        currentTime := CalculateLoopedProgress(0.0, elapsed, timers[id].duration);
      }
    }

    method PauseTracking(now: real)
      modifies this
      ensures State() == Pause(old(State()), now)
    {
      if !isPaused {
        pausedAt := now;
        isPaused := true;
      }
    }

    method ResumeTracking(now: real)
      modifies this
      ensures State() == Resume(old(State()), now)
    {
      if isPaused {
        var pauseDuration := now - pausedAt;
        totalPaused := totalPaused + pauseDuration;
        isPaused := false;
      }
    }

    method StopTracking()
      modifies this
      ensures State() == Stop(old(State()))
    {
      if intervalRef.Some? {
        timers := timers - {intervalRef.value};
        intervalRef := None;
      }
      currentTime := 0.0;
      isPaused := false;
      totalPaused := 0.0;
    }

    method OnUnmount()
      modifies this
      ensures State() == Unmount(old(State()))
    {
      if intervalRef.Some? {
        timers := timers - {intervalRef.value};
      }
    }
  }

  // ---------------------------------------------------------------------------
  // Single-step properties

  /** Start restarts the clock at `now`, with no paused time, and the ref names a new live interval. */
  lemma StartActivates(s: Tracker, duration: real, now: real)
    requires Valid(s)
    ensures var t := Start(s, duration, now);
      Valid(t) && t.startTime == now && t.totalPaused == 0.0 && !t.isPaused &&
      t.intervalRef == Some(s.nextTimer) && s.nextTimer !in s.timers &&
      t.timers.Keys == s.timers.Keys + {s.nextTimer} &&
      t.timers[s.nextTimer] == TimerInfo(duration, s.isPaused) &&
      (forall id :: id in s.timers ==> t.timers[id] == s.timers[id])
  {
  }

  /**
   * Starting while paused captures `true` in the new interval's guard, so that
   * interval's ticks change nothing, although start itself clears the flag.
   */
  lemma StartWhilePausedNeverPublishes(s: Tracker, duration: real, start: real, now: real)
    requires s.isPaused
    ensures var t := Start(s, duration, start);
      !t.isPaused && Tick(t, s.nextTimer, now) == t
  {
  }

  /** Pausing twice is pausing once: the second call keeps the first instant. */
  lemma PauseIdempotent(s: Tracker, t1: real, t2: real)
    ensures Pause(Pause(s, t1), t2) == Pause(s, t1)
  {
  }

  /** Resuming without a prior pause changes nothing. */
  lemma ResumeWithoutPause(s: Tracker, now: real)
    requires !s.isPaused
    ensures Resume(s, now) == s
  {
  }

  /** Pause then resume at the same instant adds nothing to the paused total. */
  lemma PauseResumeSameInstant(s: Tracker, now: real)
    requires !s.isPaused
    ensures Resume(Pause(s, now), now) == s.(pausedAt := now)
  {
  }

  /** Stop clears the remembered interval and resets display and paused total; start time and pause instant stay. */
  lemma StopResets(s: Tracker)
    requires Valid(s)
    ensures var t := Stop(s);
      Valid(t) && t.intervalRef == None && t.currentTime == 0.0 && !t.isPaused && t.totalPaused == 0.0 &&
      t.startTime == s.startTime && t.pausedAt == s.pausedAt &&
      (s.intervalRef.Some? ==> s.intervalRef.value !in t.timers)
  {
  }

  /** At most one interval is live, and it is the remembered one. */
  predicate SingleTimer(s: Tracker) {
    forall id :: id in s.timers ==> s.intervalRef == Some(id)
  }

  /** The unmount cleanup clears the remembered interval; when it was the only one, none is left. */
  lemma UnmountClears(s: Tracker)
    ensures s.intervalRef.Some? ==> s.intervalRef.value !in Unmount(s).timers
    ensures SingleTimer(s) ==> Unmount(s).timers == map[]
  {
  }

  /** Pause, resume, ticks, stop and unmount keep a single interval; start does when none is live. */
  lemma SingleTimerKept(s: Tracker, duration: real, id: nat, now: real)
    requires SingleTimer(s)
    ensures SingleTimer(Pause(s, now)) && SingleTimer(Resume(s, now)) && SingleTimer(Tick(s, id, now))
    ensures Stop(s).timers == map[] && Unmount(s).timers == map[]
    ensures s.timers == map[] ==> SingleTimer(Start(s, duration, now))
    ensures Valid(s) && s.timers != map[] ==> !SingleTimer(Start(s, duration, now))
  {
    if Valid(s) && s.timers != map[] {
      var id :| id in s.timers;
      assert id in Start(s, duration, now).timers;
    }
  }

  /**
   * Paused time is left out of the published position: start at t0, pause at
   * t1, resume at t2, and a tick at t3 publishes the loop position of
   * (t1 − t0) + (t3 − t2), the time actually played.
   */
  lemma PausedTimeExcluded(s: Tracker, d: real, t0: real, t1: real, t2: real, t3: real)
    requires !s.isPaused && d > 0.0
    ensures Tick(Resume(Pause(Start(s, d, t0), t1), t2), s.nextTimer, t3).currentTime
         == CalculateLoopedProgress(0.0, (t1 - t0) + (t3 - t2), d)
  {
  }

  /**
   * Starting twice without a stop leaks the first interval: stop (and likewise
   * the unmount cleanup) clears only the second, so the first keeps firing.
   */
  lemma StartTwiceLeaks(s: Tracker, d1: real, t1: real, d2: real, t2: real)
    requires Valid(s)
    ensures var first := s.nextTimer;
      var twice := Start(Start(s, d1, t1), d2, t2);
      first in Stop(twice).timers && first in Unmount(twice).timers &&
      !SingleTimer(twice)
  {
    var twice := Start(Start(s, d1, t1), d2, t2);
    assert s.nextTimer in twice.timers && twice.intervalRef == Some(s.nextTimer + 1);
  }

  /**
   * The tick's guard is the flag captured at start, not the live one: an
   * interval started while not paused publishes even while the hook is paused,
   * and one started while paused never publishes.
   */
  lemma TickReadsCapturedFlag(s: Tracker, id: nat, now: real)
    requires id in s.timers
    ensures s.timers[id].capturedPaused ==> Tick(s, id, now) == s
    ensures !s.timers[id].capturedPaused ==>
      Tick(s, id, now).currentTime == CalculateLoopedProgress(0.0, now - s.startTime - s.totalPaused, s.timers[id].duration)
  {
  }

  // ---------------------------------------------------------------------------
  // Traces with a non-decreasing clock

  datatype TrackerEvent =
    | StartEv(duration: real, now: real)
    | TickEv(id: nat, now: real)
    | PauseEv(now: real)
    | ResumeEv(now: real)
    | StopEv
    | UnmountEv

  function Step(s: Tracker, ev: TrackerEvent): Tracker {
    match ev
    case StartEv(d, now) => Start(s, d, now)
    case TickEv(id, now) => Tick(s, id, now)
    case PauseEv(now) => Pause(s, now)
    case ResumeEv(now) => Resume(s, now)
    case StopEv => Stop(s)
    case UnmountEv => Unmount(s)
  }

  function Run(s: Tracker, evs: seq<TrackerEvent>): Tracker
    decreases |evs|
  {
    if evs == [] then s else Run(Step(s, evs[0]), evs[1..])
  }

  /** The clock reading after the event, given the last reading before it. */
  function ClockAfter(ev: TrackerEvent, last: real): real {
    if ev.StopEv? || ev.UnmountEv? then last else ev.now
  }

  /** The clock reading after the whole trace. */
  function ClockAtEnd(evs: seq<TrackerEvent>, last: real): real
    decreases |evs|
  {
    if evs == [] then last else ClockAtEnd(evs[1..], ClockAfter(evs[0], last))
  }

  /** Every event reads the clock no earlier than the reading before it. */
  predicate ClockOrdered(evs: seq<TrackerEvent>, last: real)
    decreases |evs|
  {
    evs == [] || (last <= ClockAfter(evs[0], last) && ClockOrdered(evs[1..], ClockAfter(evs[0], last)))
  }

  /**
   * At clock reading `last`: the paused total is non-negative, the published
   * time is non-negative, a pause did not happen in the future, and start time
   * plus paused total does not exceed the moment the clock last ran.
   */
  predicate ClockInv(s: Tracker, last: real) {
    s.totalPaused >= 0.0 && s.currentTime >= 0.0 &&
    (s.isPaused ==> s.pausedAt <= last) &&
    s.startTime + s.totalPaused <= (if s.isPaused then s.pausedAt else last)
  }

  /** The initial state satisfies the invariant at any clock reading from 0 on. */
  lemma InitialClockInv(last: real)
    requires last >= 0.0
    ensures ClockInv(Initial, last)
  {
  }

  /** A tick at a clock reading no earlier than `last` publishes a value in [0, duration). */
  lemma TickInRange(s: Tracker, id: nat, now: real, last: real)
    requires ClockInv(s, last) && last <= now
    requires id in s.timers && !s.timers[id].capturedPaused && s.timers[id].duration > 0.0
    ensures 0.0 <= Tick(s, id, now).currentTime < s.timers[id].duration
  {
  }

  lemma StepKeepsClockInv(s: Tracker, ev: TrackerEvent, last: real)
    requires ClockInv(s, last) && last <= ClockAfter(ev, last)
    ensures ClockInv(Step(s, ev), ClockAfter(ev, last))
  {
  }

  /** Along a trace with a non-decreasing clock the invariant holds throughout; in particular the display is never negative. */
  lemma {:induction false} RunKeepsClockInv(s: Tracker, evs: seq<TrackerEvent>, last: real)
    requires ClockInv(s, last) && ClockOrdered(evs, last)
    ensures ClockInv(Run(s, evs), ClockAtEnd(evs, last))
    ensures Run(s, evs).currentTime >= 0.0
    decreases |evs|
  {
    if evs != [] {
      StepKeepsClockInv(s, evs[0], last);
      RunKeepsClockInv(Step(s, evs[0]), evs[1..], ClockAfter(evs[0], last));
    }
  }

  /** No event restarts or stops the clock. */
  predicate NoRestart(evs: seq<TrackerEvent>) {
    forall i :: 0 <= i < |evs| ==> !evs[i].StartEv? && !evs[i].StopEv?
  }

  /** Between a start and a stop, with a non-decreasing clock, the paused total never decreases. */
  lemma {:induction false} TotalPausedNeverDecreases(s: Tracker, evs: seq<TrackerEvent>, last: real)
    requires ClockInv(s, last) && ClockOrdered(evs, last) && NoRestart(evs)
    ensures Run(s, evs).totalPaused >= s.totalPaused
    decreases |evs|
  {
    if evs != [] {
      var next := Step(s, evs[0]);
      StepKeepsClockInv(s, evs[0], last);
      assert next.totalPaused >= s.totalPaused;
      assert NoRestart(evs[1..]) by {
        forall i | 0 <= i < |evs[1..]| ensures !evs[1..][i].StartEv? && !evs[1..][i].StopEv? {
          assert evs[1..][i] == evs[i + 1];
        }
      }
      TotalPausedNeverDecreases(next, evs[1..], ClockAfter(evs[0], last));
    }
  }
}
