/**
 * The Pomodoro timer's state machine: the one-second tick, session
 * completion and rotation into breaks, partial-time saving, the start /
 * pause / stop / reset handlers, and the `MM:SS` clock text.
 */
module Pomodoro {
  import opened Wrappers
  import opened Text

  datatype SessionType = Work | ShortBreak | LongBreak

  /** Durations in minutes; a long break after every `longBreakInterval` work sessions. */
  datatype PomodoroSettings = PomodoroSettings(
    workDuration: int,
    shortBreakDuration: int,
    longBreakDuration: int,
    longBreakInterval: int)

  const DefaultSettings := PomodoroSettings(25, 5, 15, 4)

  /** `getDurationForSession`. */
  function DurationFor(settings: PomodoroSettings, t: SessionType): (d: int)
    ensures t == Work ==> d == settings.workDuration
    ensures t == ShortBreak ==> d == settings.shortBreakDuration
    ensures t == LongBreak ==> d == settings.longBreakDuration
  {
    match t
    case Work => settings.workDuration
    case ShortBreak => settings.shortBreakDuration
    case LongBreak => settings.longBreakDuration
  }

  /**
   * `(sessionCount + 1) % longBreakInterval === 0` for a non-negative count;
   * a zero interval gives `NaN`, which is never 0.
   */
  predicate IsLongBreak(sessionCount: nat, interval: int) {
    interval != 0 && (sessionCount + 1) % interval == 0
  }

  /** With the default interval of 4, every fourth work session ends in a long break. */
  lemma EveryFourthBreakIsLong(sessionCount: nat)
    ensures IsLongBreak(sessionCount, DefaultSettings.longBreakInterval) <==> sessionCount % 4 == 3
  {
  }

  /** The seconds a session of type t lasts. */
  function FullTime(settings: PomodoroSettings, t: SessionType): int {
    DurationFor(settings, t) * 60
  }

  class PomodoroTimer {
    var isActive: bool
    var isPaused: bool
    var timeRemaining: int          // seconds
    var sessionType: SessionType
    var settings: PomodoroSettings
    var sessionCount: nat
    var totalTimeWorked: int        // minutes
    var elapsedTime: nat            // seconds of work in the current session
    var lastSavedTime: int          // minutes already sent as partial time
    const hasTask: bool             // `task?.id` is set
    const hasTaskOrSubject: bool    // `task || subject`

    /**
     * The settings of the render whose timer effect set up the running
     * interval. The effect runs again only when `isActive`, `isPaused` or
     * `sessionType` changes, so a settings change while the timer runs does
     * not reach the `handleTimerComplete` the interval calls.
     */
    var runSettings: PomodoroSettings

    /**
     * The settings the current session was started with, which fixed its
     * length: a running session keeps its `timeRemaining` when the settings
     * change, so these say how long it runs.
     */
    var startSettings: PomodoroSettings

    /** The minutes sent as partial time never exceed the whole minutes worked. */
    ghost predicate Valid()
      reads this`lastSavedTime, this`elapsedTime
    {
      0 <= lastSavedTime <= elapsedTime / 60
    }

    constructor (hasTask: bool, hasSubject: bool)
      ensures Valid()
      ensures !isActive && !isPaused && sessionType == Work
      ensures settings == DefaultSettings && runSettings == DefaultSettings && startSettings == DefaultSettings
      ensures timeRemaining == DefaultSettings.workDuration * 60
      ensures sessionCount == 0 && totalTimeWorked == 0 && elapsedTime == 0 && lastSavedTime == 0
      ensures this.hasTask == hasTask && hasTaskOrSubject == (hasTask || hasSubject)
    {
      isActive, isPaused := false, false;
      timeRemaining := DefaultSettings.workDuration * 60;
      sessionType := Work;
      settings, runSettings, startSettings := DefaultSettings, DefaultSettings, DefaultSettings;
      sessionCount, totalTimeWorked, elapsedTime, lastSavedTime := 0, 0, 0, 0;
      this.hasTask := hasTask;
      hasTaskOrSubject := hasTask || hasSubject;
    }

    /**
     * One second of a running timer. The last second ends the session
     * (`completed`), after which `HandleTimerComplete` runs.
     */
    method Tick() returns (completed: bool)
      requires Valid() && isActive && !isPaused
      modifies this`timeRemaining, this`isActive, this`isPaused, this`elapsedTime
      ensures Valid()
      ensures completed <==> old(timeRemaining) <= 1
      ensures completed ==> timeRemaining == 0 && !isActive && !isPaused
      ensures !completed ==> timeRemaining == old(timeRemaining) - 1 && isActive && !isPaused
      ensures elapsedTime == old(elapsedTime) + (if sessionType == Work then 1 else 0)
    {
      completed := timeRemaining <= 1;
      if completed {
        timeRemaining, isActive, isPaused := 0, false, false;
      } else {
        timeRemaining := timeRemaining - 1;
      }
      if sessionType == Work {
        elapsedTime := elapsedTime + 1;
      }
    }

    /**
     * `savePartialTime`: send the whole minutes worked and not yet sent.
     * `delivered` says whether the request went through; only then is
     * `lastSavedTime` advanced. The result is the request's `minutesElapsed`.
     */
    method SavePartialTime(delivered: bool) returns (sent: Option<int>)
      requires Valid()
      modifies this`lastSavedTime
      ensures Valid()
      ensures var unsaved := elapsedTime / 60 - old(lastSavedTime);
        sent == (if hasTask && sessionType == Work && unsaved > 0 then Some(unsaved) else None)
      ensures lastSavedTime == (if sent.Some? && delivered then elapsedTime / 60 else old(lastSavedTime))
      ensures sent.Some? ==> sent.value > 0 && old(lastSavedTime) + sent.value <= elapsedTime / 60
    {
      if !hasTask || sessionType != Work {
        return None;
      }
      var minutesElapsed := elapsedTime / 60;
      var unsavedMinutes := minutesElapsed - lastSavedTime;
      sent := None;
      if unsavedMinutes > 0 {
        sent := Some(unsavedMinutes);
        if delivered {
          lastSavedTime := minutesElapsed;
        }
      }
    }

    /** `startWorkSession`. */
    method StartWorkSession()
      modifies this`elapsedTime, this`lastSavedTime, this`isActive, this`isPaused,
               this`timeRemaining, this`sessionType, this`runSettings, this`startSettings
      ensures Valid()
      ensures isActive && !isPaused && sessionType == Work
      ensures timeRemaining == settings.workDuration * 60 && startSettings == settings
      ensures elapsedTime == 0 && lastSavedTime == 0
      ensures runSettings == (if old(isActive) && !old(isPaused) && old(sessionType) == Work
                              then old(runSettings) else settings)
    {
      if !(isActive && !isPaused && sessionType == Work) {
        runSettings := settings;
      }
      elapsedTime, lastSavedTime := 0, 0;
      isActive, isPaused := true, false;
      timeRemaining := settings.workDuration * 60;
      startSettings := settings;
      sessionType := Work;
    }

    /** `startBreakSession(long ? 'long_break' : 'short_break')`, saving partial work time first. */
    method StartBreakSession(long: bool, delivered: bool) returns (sent: Option<int>)
      requires Valid()
      modifies this`elapsedTime, this`lastSavedTime, this`isActive, this`isPaused,
               this`timeRemaining, this`sessionType, this`runSettings, this`startSettings
      ensures Valid()
      ensures var unsaved := old(elapsedTime) / 60 - old(lastSavedTime);
        sent == (if hasTask && old(sessionType) == Work && unsaved > 0 then Some(unsaved) else None)
      ensures isActive && !isPaused
      ensures sessionType == (if long then LongBreak else ShortBreak)
      ensures timeRemaining == FullTime(settings, sessionType) && startSettings == settings
      ensures elapsedTime == 0 && lastSavedTime == 0
      ensures runSettings == (if old(isActive) && !old(isPaused) && old(sessionType) == sessionType
                              then old(runSettings) else settings)
    {
      sent := StartBreakWith(long, delivered, settings);
    }

    /**
     * `startBreakSession` as defined in a render whose settings were `read`:
     * the break lasts as `read` says.
     */
    method StartBreakWith(long: bool, delivered: bool, read: PomodoroSettings) returns (sent: Option<int>)
      requires Valid()
      modifies this`elapsedTime, this`lastSavedTime, this`isActive, this`isPaused,
               this`timeRemaining, this`sessionType, this`runSettings, this`startSettings
      ensures Valid()
      ensures var unsaved := old(elapsedTime) / 60 - old(lastSavedTime);
        sent == (if hasTask && old(sessionType) == Work && unsaved > 0 then Some(unsaved) else None)
      ensures isActive && !isPaused
      ensures sessionType == (if long then LongBreak else ShortBreak)
      ensures timeRemaining == FullTime(read, sessionType) && startSettings == read
      ensures elapsedTime == 0 && lastSavedTime == 0
      ensures runSettings == (if old(isActive) && !old(isPaused) && old(sessionType) == sessionType
                              then old(runSettings) else settings)
    {
      var duration := if !long then read.shortBreakDuration else read.longBreakDuration;
      var next := if long then LongBreak else ShortBreak;
      sent := None;
      if sessionType == Work {
        sent := SavePartialTime(delivered);
      }
      if !(isActive && !isPaused && sessionType == next) {
        runSettings := settings;
      }
      elapsedTime, lastSavedTime := 0, 0;
      isActive, isPaused := true, false;
      timeRemaining := duration * 60;
      startSettings := read;
      sessionType := next;
    }

    /**
     * `handleTimerComplete` reporting the finished session as `measured`
     * says it lasts and taking the next break from `read`: report the
     * session (when there is a task or subject), count work minutes, clear
     * the partial-time counters, and after a work session count it and
     * start the next break, long exactly when
     * `(sessionCount + 1) % longBreakInterval == 0`.
     */
    method CompleteWith(measured: PomodoroSettings, read: PomodoroSettings) returns (saved: Option<(int, SessionType)>)
      requires Valid()
      modifies this`elapsedTime, this`lastSavedTime, this`totalTimeWorked, this`sessionCount, this`isActive,
               this`isPaused, this`timeRemaining, this`sessionType, this`runSettings, this`startSettings
      ensures Valid()
      ensures var duration := DurationFor(measured, old(sessionType));
        saved == (if hasTaskOrSubject then Some((duration, old(sessionType))) else None)
      ensures elapsedTime == 0 && lastSavedTime == 0
      ensures old(sessionType) == Work ==>
        && totalTimeWorked == old(totalTimeWorked) + measured.workDuration
        && sessionCount == old(sessionCount) + 1
        && isActive && !isPaused
        && sessionType == (if IsLongBreak(old(sessionCount), read.longBreakInterval) then LongBreak else ShortBreak)
        && timeRemaining == FullTime(read, sessionType)
        && runSettings == settings && startSettings == read
      ensures old(sessionType) != Work ==>
        && totalTimeWorked == old(totalTimeWorked) && sessionCount == old(sessionCount)
        && isActive == old(isActive) && isPaused == old(isPaused)
        && timeRemaining == old(timeRemaining) && sessionType == old(sessionType)
        && runSettings == old(runSettings) && startSettings == old(startSettings)
    {
      var duration := DurationFor(measured, sessionType);
      saved := None;
      if hasTaskOrSubject {
        saved := Some((duration, sessionType));
      }
      if sessionType == Work {
        totalTimeWorked := totalTimeWorked + duration;
      }
      elapsedTime, lastSavedTime := 0, 0;
      if sessionType == Work {
        var isLongBreak := IsLongBreak(sessionCount, read.longBreakInterval);
        sessionCount := sessionCount + 1;
        var _ := StartBreakWith(isLongBreak, true, read);
      }
    }

    /**
     * `handleTimerComplete` as written: the interval calls the handler of the
     * render that started or resumed the timer, which reads that render's
     * settings, so the reported duration, the minutes worked, the choice of
     * break and the break's length all follow `runSettings`.
     */
    method HandleTimerCompleteAsWritten() returns (saved: Option<(int, SessionType)>)
      requires Valid()
      modifies this`elapsedTime, this`lastSavedTime, this`totalTimeWorked, this`sessionCount, this`isActive,
               this`isPaused, this`timeRemaining, this`sessionType, this`runSettings, this`startSettings
      ensures Valid()
      ensures var duration := DurationFor(old(runSettings), old(sessionType));
        saved == (if hasTaskOrSubject then Some((duration, old(sessionType))) else None)
      ensures elapsedTime == 0 && lastSavedTime == 0
      ensures old(sessionType) == Work ==>
        && totalTimeWorked == old(totalTimeWorked) + old(runSettings).workDuration
        && sessionCount == old(sessionCount) + 1
        && isActive && !isPaused
        && sessionType == (if IsLongBreak(old(sessionCount), old(runSettings).longBreakInterval) then LongBreak else ShortBreak)
        && timeRemaining == FullTime(old(runSettings), sessionType)
        && runSettings == settings && startSettings == old(runSettings)
      ensures old(sessionType) != Work ==>
        && totalTimeWorked == old(totalTimeWorked) && sessionCount == old(sessionCount)
        && isActive == old(isActive) && isPaused == old(isPaused)
        && timeRemaining == old(timeRemaining) && sessionType == old(sessionType)
        && runSettings == old(runSettings) && startSettings == old(startSettings)
    {
      saved := CompleteWith(runSettings, runSettings);
    }

    /**
     * `handleTimerComplete` as intended: the session that ends is reported
     * and credited with the length it was started with, which is how long
     * it ran, and the next break follows the settings in force when it
     * ends.
     */
    method HandleTimerComplete() returns (saved: Option<(int, SessionType)>)
      requires Valid()
      modifies this`elapsedTime, this`lastSavedTime, this`totalTimeWorked, this`sessionCount, this`isActive,
               this`isPaused, this`timeRemaining, this`sessionType, this`runSettings, this`startSettings
      ensures Valid()
      ensures var duration := DurationFor(old(startSettings), old(sessionType));
        saved == (if hasTaskOrSubject then Some((duration, old(sessionType))) else None)
      ensures elapsedTime == 0 && lastSavedTime == 0
      ensures old(sessionType) == Work ==>
        && totalTimeWorked == old(totalTimeWorked) + old(startSettings).workDuration
        && sessionCount == old(sessionCount) + 1
        && isActive && !isPaused
        && sessionType == (if IsLongBreak(old(sessionCount), settings.longBreakInterval) then LongBreak else ShortBreak)
        && timeRemaining == FullTime(settings, sessionType)
        && runSettings == settings && startSettings == settings
      ensures old(sessionType) != Work ==>
        && totalTimeWorked == old(totalTimeWorked) && sessionCount == old(sessionCount)
        && isActive == old(isActive) && isPaused == old(isPaused)
        && timeRemaining == old(timeRemaining) && sessionType == old(sessionType)
        && runSettings == old(runSettings) && startSettings == old(startSettings)
    {
      saved := CompleteWith(startSettings, settings);
    }

    /**
     * `pauseTimer`: save partial time when pausing running work, then toggle
     * `isPaused`; resuming sets up a new interval in the current render.
     */
    method PauseTimer(delivered: bool) returns (sent: Option<int>)
      requires Valid()
      modifies this`isPaused, this`lastSavedTime, this`runSettings
      ensures Valid()
      ensures isPaused == !old(isPaused)
      ensures var unsaved := old(elapsedTime) / 60 - old(lastSavedTime);
        sent == (if hasTask && sessionType == Work && isActive && !old(isPaused) && unsaved > 0
                 then Some(unsaved) else None)
      ensures lastSavedTime == (if sent.Some? && delivered then elapsedTime / 60 else old(lastSavedTime))
      ensures runSettings == (if isActive && !isPaused then settings else old(runSettings))
    {
      sent := None;
      if sessionType == Work && isActive && !isPaused {
        sent := SavePartialTime(delivered);
      }
      isPaused := !isPaused;
      if isActive && !isPaused {
        runSettings := settings;
      }
    }

    /** `stopTimer`: save partial work time, stop, and rewind the current session. */
    method StopTimer(delivered: bool) returns (sent: Option<int>)
      requires Valid()
      modifies this`isActive, this`isPaused, this`timeRemaining, this`elapsedTime, this`lastSavedTime
      ensures Valid()
      ensures var unsaved := old(elapsedTime) / 60 - old(lastSavedTime);
        sent == (if hasTask && sessionType == Work && old(isActive) && unsaved > 0 then Some(unsaved) else None)
      ensures !isActive && !isPaused
      ensures timeRemaining == FullTime(settings, sessionType)
      ensures elapsedTime == 0 && lastSavedTime == 0
    {
      sent := None;
      if sessionType == Work && isActive {
        sent := SavePartialTime(delivered);
      }
      isActive, isPaused := false, false;
      timeRemaining := DurationFor(settings, sessionType) * 60;
      elapsedTime, lastSavedTime := 0, 0;
    }

    /** `resetTimer`: as `stopTimer`, and the work-session count starts again. */
    method ResetTimer(delivered: bool) returns (sent: Option<int>)
      requires Valid()
      modifies this`isActive, this`isPaused, this`timeRemaining, this`elapsedTime,
               this`lastSavedTime, this`sessionCount
      ensures Valid()
      ensures var unsaved := old(elapsedTime) / 60 - old(lastSavedTime);
        sent == (if hasTask && sessionType == Work && old(isActive) && unsaved > 0 then Some(unsaved) else None)
      ensures !isActive && !isPaused
      ensures timeRemaining == FullTime(settings, sessionType)
      ensures elapsedTime == 0 && lastSavedTime == 0 && sessionCount == 0
    {
      sent := None;
      if sessionType == Work && isActive {
        sent := SavePartialTime(delivered);
      }
      isActive, isPaused := false, false;
      timeRemaining := DurationFor(settings, sessionType) * 60;
      sessionCount := 0;
      elapsedTime, lastSavedTime := 0, 0;
    }

    /**
     * `handleSettingsChange` as written: the updater calls the
     * `getDurationForSession` of the render that defined the handler, which
     * still reads the previous settings.
     */
    method HandleSettingsChangeAsWritten(newSettings: PomodoroSettings)
      modifies this`settings, this`timeRemaining
      ensures settings == newSettings
      ensures timeRemaining == (if isActive then old(timeRemaining) else FullTime(old(settings), sessionType))
    {
      var staleSettings := settings;
      settings := newSettings;
      if !isActive {
        timeRemaining := DurationFor(staleSettings, sessionType) * 60;
      }
    }

    /** `handleSettingsChange` as intended: an idle timer shows the new duration. */
    method HandleSettingsChange(newSettings: PomodoroSettings)
      modifies this`settings, this`timeRemaining
      ensures settings == newSettings
      ensures timeRemaining == (if isActive then old(timeRemaining) else FullTime(newSettings, sessionType))
    {
      settings := newSettings;
      if !isActive {
        timeRemaining := DurationFor(settings, sessionType) * 60;
      }
    }
  }

  /**
   * The stale read shows: changing a fresh, idle work timer from 25 to 50
   * minutes leaves it showing 1500 seconds (25:00) where the intended
   * handler shows 3000 (50:00).
   */
  method StaleSettingsExample() returns (shown: int, intended: int)
    ensures shown == 1500 && intended == 3000
  {
    var changed := DefaultSettings.(workDuration := 50);
    var asWritten := new PomodoroTimer(false, false);
    asWritten.HandleSettingsChangeAsWritten(changed);
    shown := asWritten.timeRemaining;
    var corrected := new PomodoroTimer(false, false);
    corrected.HandleSettingsChange(changed);
    intended := corrected.timeRemaining;
  }

  /**
   * The stale completion shows: a default work session with a task, whose
   * settings change to 50 work and 10 short-break minutes while it runs,
   * is reported as 25 minutes, adds 25 to the minutes worked and is
   * followed by a 300-second break; the intended handler reports the 25
   * minutes the session ran and starts the chosen 600-second break.
   */
  method StaleCompletionExample() returns (shown: (Option<(int, SessionType)>, int, int),
                                          intended: (Option<(int, SessionType)>, int, int))
    ensures shown == (Some((25, Work)), 25, 300)
    ensures intended == (Some((25, Work)), 25, 600)
  {
    var changed := DefaultSettings.(workDuration := 50, shortBreakDuration := 10);
    var asWritten := new PomodoroTimer(true, false);
    asWritten.StartWorkSession();
    asWritten.HandleSettingsChange(changed);
    var saved := asWritten.HandleTimerCompleteAsWritten();
    shown := (saved, asWritten.totalTimeWorked, asWritten.timeRemaining);
    var corrected := new PomodoroTimer(true, false);
    corrected.StartWorkSession();
    corrected.HandleSettingsChange(changed);
    saved := corrected.HandleTimerComplete();
    intended := (saved, corrected.totalTimeWorked, corrected.timeRemaining);
  }

  /** After the intended settings change, an idle timer shows a full session of the new settings. */
  method SettingsChangeThenIdle(timer: PomodoroTimer, newSettings: PomodoroSettings)
    requires !timer.isActive
    modifies timer
    ensures timer.timeRemaining == DurationFor(newSettings, timer.sessionType) * 60
  {
    timer.HandleSettingsChange(newSettings);
  }

  /** JavaScript's `%` on integers: the remainder takes the sign of the dividend. */
  function JsRem(a: int, b: int): int
    requires b > 0
  {
    if a >= 0 then a % b else -((-a) % b)
  }

  /** `formatTime(seconds)`: `Math.floor(s / 60)` and `s % 60`, each padded to two digits. */
  function FormatClock(seconds: int): string {
    var mins := seconds / 60;
    var secs := JsRem(seconds, 60);
    PadStart2(IntToString(mins)) + ":" + PadStart2(IntToString(secs))
  }

  /** A two-digit rendering of n < 100 reads back as n. */
  lemma TwoDigits(n: nat)
    requires n < 100
    ensures |PadStart2(NatToString(n))| == 2 && AllDigits(PadStart2(NatToString(n)))
    ensures ParseDigits(PadStart2(NatToString(n))) == n
  {
    ParseNatToString(n);
    if n < 10 {
      ParseLeadingZero(NatToString(n));
    } else {
      assert NatToString(n) == NatToString(n / 10) + [DigitChar(n % 10)];
    }
  }

  /** For a non-negative count the two parts are the quotient and the remainder. */
  lemma ClockParts(s: int)
    requires s >= 0
    ensures FormatClock(s) == PadStart2(NatToString(s / 60)) + ":" + PadStart2(NatToString(s % 60))
  {
    assert JsRem(s, 60) == s % 60;
    assert IntToString(s / 60) == NatToString(s / 60);
    assert IntToString(s % 60) == NatToString(s % 60);
  }

  /** Two two-character parts around a colon, and how to cut them out again. */
  lemma ColonJoin(m: string, c: string)
    requires |m| == 2 && |c| == 2
    ensures var r := m + ":" + c; |r| == 5 && r[2] == ':' && r[..2] == m && r[3..] == c
  {
    var r := m + ":" + c;
    assert r[..2] == m;
    assert r[3..] == c;
  }

  /**
   * Below 100 minutes the clock reads `MM:SS`: two digits of minutes, a
   * colon, two digits of seconds, reading back as `s div 60` and `s mod 60`.
   */
  lemma ClockIsMinutesAndSeconds(s: int)
    requires 0 <= s < 6000
    ensures var r := FormatClock(s);
      && |r| == 5 && r[2] == ':'
      && AllDigits(r[..2]) && AllDigits(r[3..])
      && ParseDigits(r[..2]) == s / 60 && ParseDigits(r[3..]) == s % 60
  {
    var mins, secs := s / 60, s % 60;
    assert 0 <= mins < 100 && 0 <= secs < 60;
    ClockParts(s);
    TwoDigits(mins);
    TwoDigits(secs);
    ColonJoin(PadStart2(NatToString(mins)), PadStart2(NatToString(secs)));
  }
}
