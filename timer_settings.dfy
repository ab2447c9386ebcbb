/**
 * The timer settings form: every edited field is clamped to [1, 120]
 * minutes, an unreadable or zero entry falls back to the field's default,
 * reset restores the defaults and save hands the local copy on.
 */
module TimerSettings {
  import opened Wrappers
  import opened Pomodoro

  datatype Field = WorkDuration | ShortBreakDuration | LongBreakDuration | LongBreakInterval

  function Get(s: PomodoroSettings, f: Field): int {
    match f
    case WorkDuration => s.workDuration
    case ShortBreakDuration => s.shortBreakDuration
    case LongBreakDuration => s.longBreakDuration
    case LongBreakInterval => s.longBreakInterval
  }

  /** `{ ...s, [f]: v }`: only the named field changes. */
  function With(s: PomodoroSettings, f: Field, v: int): (r: PomodoroSettings)
    ensures forall g :: Get(r, g) == if g == f then v else Get(s, g)
  {
    match f
    case WorkDuration => s.(workDuration := v)
    case ShortBreakDuration => s.(shortBreakDuration := v)
    case LongBreakDuration => s.(longBreakDuration := v)
    case LongBreakInterval => s.(longBreakInterval := v)
  }

  /** `Math.max(1, Math.min(120, v))`. */
  function Clamp(v: int): (r: int)
    ensures 1 <= r <= 120
    ensures 1 <= v <= 120 ==> r == v
    ensures v < 1 ==> r == 1
    ensures v > 120 ==> r == 120
  {
    if v > 120 then 120 else if v < 1 then 1 else v
  }

  /** The `|| default` of each input: 25, 5, 15 and 4. */
  function DefaultFor(f: Field): int {
    Get(DefaultSettings, f)
  }

  /** `parseInt(text) || default`: `None` stands for `NaN`. */
  function InputValue(parsed: Option<int>, f: Field): int {
    if parsed.Some? && parsed.value != 0 then parsed.value else DefaultFor(f)
  }

  predicate InRange(s: PomodoroSettings) {
    forall f :: 1 <= Get(s, f) <= 120
  }

  lemma DefaultsInRange()
    ensures InRange(DefaultSettings)
  {
    forall f ensures 1 <= Get(DefaultSettings, f) <= 120 {
    }
  }

  /** An unreadable or zero entry stores the field's default, which the clamp keeps. */
  lemma FallbackStoresDefault(parsed: Option<int>, f: Field)
    requires parsed.None? || parsed.value == 0
    ensures Clamp(InputValue(parsed, f)) == DefaultFor(f)
    ensures DefaultFor(f) in {25, 5, 15, 4}
  {
  }

  /** Clamping is idempotent and every clamped field stays in range. */
  lemma ClampKeepsRange(s: PomodoroSettings, f: Field, v: int)
    requires InRange(s)
    ensures InRange(With(s, f, Clamp(v)))
    ensures Clamp(Clamp(v)) == Clamp(v)
  {
  }

  /** A settings record in range drives the timer with positive durations and interval. */
  lemma InRangeSettingsArePositive(s: PomodoroSettings, t: SessionType)
    requires InRange(s)
    ensures FullTime(s, t) >= 60 && s.longBreakInterval >= 1
  {
    assert 1 <= Get(s, WorkDuration) && 1 <= Get(s, ShortBreakDuration);
    assert 1 <= Get(s, LongBreakDuration) && 1 <= Get(s, LongBreakInterval);
  }

  /** The form's state: the local copy of the settings being edited. */
  class TimerSettingsForm {
    var localSettings: PomodoroSettings

    constructor (settings: PomodoroSettings)
      ensures localSettings == settings
    {
      localSettings := settings;
    }

    /** `handleChange(field, value)`. */
    method HandleChange(f: Field, value: int)
      modifies this
      ensures localSettings == With(old(localSettings), f, Clamp(value))
      ensures old(InRange(localSettings)) ==> InRange(localSettings)
    {
      localSettings := With(localSettings, f, Clamp(value));
    }

    /** An input's `onChange`: the fallback, then the clamp. */
    method HandleInput(f: Field, parsed: Option<int>)
      modifies this
      ensures localSettings == With(old(localSettings), f, Clamp(InputValue(parsed, f)))
    {
      HandleChange(f, InputValue(parsed, f));
    }

    /** `handleReset`. */
    method HandleReset()
      modifies this
      ensures localSettings == DefaultSettings && InRange(localSettings)
    {
      localSettings := PomodoroSettings(25, 5, 15, 4);
      DefaultsInRange();
    }

    /** `handleSave`: the settings given to `onSettingsChange`; `onClose` follows. */
    method HandleSave() returns (saved: PomodoroSettings, closed: bool)
      ensures saved == localSettings && closed
    {
      saved := localSettings;
      closed := true;
    }
  }
}
