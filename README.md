# Apexion productivity core, modelled in Dafny

Apexion is a task and study-time tracker. Each user has tasks with
priorities, categories and optional subjects. A Pomodoro timer credits
worked minutes to tasks, subjects and daily study sessions, and a row
of daily statistics per user and day carries a streak and a productivity score.

This project models the deterministic core of that application:

- the productivity score, the streak count over the newest daily rows and
  the recomputation of today's row (`productivity.dfy`);
- the rule-based reprioritisation of open tasks (`prioritize.dfy`);
- task creation with its validation order, defaults and daily-stats upsert
  (`task_routes.dfy`);
- the timer-session and partial-time endpoints and the increments they
  write (`timer_sessions.dfy`, `timer_partial.dfy`);
- the dashboard endpoint's counters (`dashboard_route.dfy`);
- the client components:
  - the editable time field (`editable_time.dfy`);
  - the Pomodoro timer's state machine (`pomodoro.dfy`) and its settings
    form (`timer_settings.dfy`);
  - the task list's filters and helpers (`task_list.dfy`);
  - the calendar (`calendar.dfy`);
  - the stat cards (`stats_cards.dfy`);
  - the dashboard page's optimistic reducers (`dashboard_view.dfy`).

The database is a `Database` class whose tables are maps keyed as the schema's
unique keys are (`db.dfy`). Days are whole day numbers and instants are
milliseconds. The clock, the date predicates of date-fns and the success of
network calls are parameters. Strings are `seq<char>`; `Text` holds the
digit, trim and lower-case helpers, `Seqs` the `filter` function and the
subsequence relation, `Views` the task record the client receives, and
`Wrappers` the `Option` and `Result` types.

## Model

The functions that compute a value without a contract of their own are
stated by the lemma rows that cite the same lines: `Prioritize.NewPriority` by
`Prioritize.PriorityRules` and its neighbours, `EditableTime.FormatTime` by
`EditableTime.FormatParseRoundTrip`, `Pomodoro.FormatClock` by
`Pomodoro.ClockIsMinutesAndSeconds`, `DashboardRoute.Stats` and
`DashboardRoute.LatestStats` by `DashboardRoute.StatusCountsBounded` and
`DashboardRoute.LatestIsNewest`, `DashboardView.Created`, `Updated` and
`Deleted` by `DashboardView.CreatedPrepends`, `UpdatedReplaces` and
`DeletedRemoves`, and `TaskRoutes.NewTaskFor` by `TaskRoutes.CreationAccepted`,
`TaskRoutes.CreatedTaskShape` and `TaskRoutes.ValidateTask`.

| member | source | states |
|---|---|---|
| Productivity.Score | app/lib/productivity.ts:22-37 | the score never exceeds 100 |
| Productivity.TermBounds | app/lib/productivity.ts:25-32 | the consistency bonus is at most 20, the today bonus at most 10, and the completion-rate term lies in [0, 30] for non-negative completions |
| Productivity.ScoreInRange | app/lib/productivity.ts:22-37 | with non-negative inputs the score lies in [0, 100] |
| Productivity.ScoreOfNothing | app/lib/productivity.ts:22-37 | all-zero inputs score 0 |
| Productivity.ScoreSaturates | app/lib/productivity.ts:22-37 | 25 or more completed tasks saturate the score at 100 |
| Productivity.ScoreMonotoneInCompleted | app/lib/productivity.ts:22-37 | with the other inputs fixed, more completed tasks never lower the score |
| Productivity.ScoreMonotoneAsCalled | app/lib/productivity.ts:139-147 | the way the recomputation calls the score (today's completions passed twice) is monotone in completions |
| Productivity.RunFrom | app/lib/productivity.ts:80-93 | the reference streak counted back from a day is at most the number of rows |
| Productivity.RunFromIsConsecutiveRun | app/lib/productivity.ts:80-93 | on newest-first rows, every day of the counted run has completions and the day before the run has none |
| Productivity.RunFromStep | app/lib/productivity.ts:80-88 | a qualifying day extends the run from the day before by exactly one |
| Productivity.NothingNewerThanHead | app/lib/productivity.ts:46-50 | with newest-first rows no later row is dated at or after the first row's date |
| Productivity.FindOnDate | app/lib/productivity.ts:66-68 | the lookup returns the first row dated that day, or none when no row is |
| Productivity.CalculateStreakDays | app/lib/productivity.ts:52-95 | the loop's streak is at most the number of rows fetched, and on newest-first rows it is the reference streak: consecutive days with completions from today, or from yesterday when today does not qualify |
| Productivity.UpdateProductivityScore | app/lib/productivity.ts:55-165 | without a row for today an all-zero row is created and nothing else changes; otherwise today's row is recomputed from the 30 newest rows; a failing streak query recomputes it with a streak of 0, and any other failing call is caught and changes nothing |
| Productivity.RecomputedWithKeepsCounters | app/lib/productivity.ts:55-161 | rewriting today's row with any streak in [0, 30], the failed query's 0 included, keeps the counters and every other row and stores that streak; with non-negative counters the score lies in [0, 100] |
| Productivity.RecomputedChangesOnlyDerived | app/lib/productivity.ts:135-161 | recomputation changes only today's streak and score; the counters and every other row stay; the streak is at most 30 and, with non-negative counters, the score lies in [0, 100] |
| Productivity.StreakReadsCompletions | app/lib/productivity.ts:80-93 | the streak depends only on the rows' dates and completion counts |
| Productivity.RecomputeIdempotent | app/lib/productivity.ts:105-161 | recomputing twice gives the same table as recomputing once |
| Db.RecentRows | app/lib/productivity.ts:46-50 | the fetched rows number min(limit, the user's rows), are strictly newest first, and are the user's rows |
| Db.RecentRowsAreNewest | app/lib/productivity.ts:46-50 | no row is skipped: every row of the user at least as new as the oldest fetched row is fetched, and if fewer than `limit` came back all did |
| Db.AddStudyTime | app/app/api/timer-sessions/route.ts:67-83 | the study-session upsert adds the minutes to an existing row or creates one with them, leaving every other key alone |
| Db.AddTaskTime | app/app/api/timer-sessions/route.ts:44-51 | incrementing `timeSpent` changes that task's time alone |
| Db.AddSubjectTime | app/app/api/timer-sessions/route.ts:56-65 | incrementing `totalTime` changes that subject's time alone |
| Prioritize.PriorityRules | app/app/api/prioritize/route.ts:43-62 | overdue gives 4; due within a day at least 3, within three days at least 2; a work category in working hours at least 2; otherwise the priority never drops, only becomes 2 or 3, and stays put when no rule applies |
| Prioritize.PriorityStaysInRange | app/app/api/prioritize/route.ts:43-62 | a priority in [1, 4] stays in [1, 4] and does not decrease |
| Prioritize.NewPriorityIdempotent | app/app/api/prioritize/route.ts:43-62 | applying the rules to their own result changes nothing |
| Prioritize.Updates | app/app/api/prioritize/route.ts:65-77 | every reported update is a fetched task whose priority changed, with its old and new priority |
| Prioritize.UpdatesComplete | app/app/api/prioritize/route.ts:65-77 | every fetched task whose priority changes is reported |
| Prioritize.Reprioritized | app/app/api/prioritize/route.ts:65-70 | the updated task table has the same keys |
| Prioritize.PrioritizeTasks | app/app/api/prioritize/route.ts:36-78 | the loop returns exactly the reference updates and leaves the table reprioritised |
| Prioritize.SecondRunIsEmpty | app/app/api/prioritize/route.ts:36-78 | a second run over the same tasks changes nothing and reports nothing |
| TaskRoutes.Status | app/app/api/tasks/route.ts:57-228 | a missing session answers 401, a failed create other than a foreign-key error 500, every validation failure and the foreign-key error 400 |
| TaskRoutes.NormalisePriority | app/app/api/tasks/route.ts:157 | the stored priority is the requested one when it is an integer in [1, 4], otherwise 1 |
| TaskRoutes.RequestedSubject | app/app/api/tasks/route.ts:114-139 | only a non-blank subject id other than `none` is validated and stored |
| TaskRoutes.StoredDescription | app/app/api/tasks/route.ts:162-172 | the description is stored trimmed, or as null when blank or missing |
| TaskRoutes.CountCreated | app/app/api/tasks/route.ts:187-202 | the upsert touches only today's key of that user |
| TaskRoutes.ValidationOrder | app/app/api/tasks/route.ts:57-86 | 401 comes before a missing title, which comes before a missing category |
| TaskRoutes.CreationAccepted | app/app/api/tasks/route.ts:57-154 | creation succeeds exactly when there is a session, a non-blank title and category, the category is the user's, a named subject is the user's, and the due date parses |
| TaskRoutes.ValidateTask | app/app/api/tasks/route.ts:57-172 | the handler's checks, run in its order with early returns, give exactly the outcome and row of the reference definition |
| TaskRoutes.CreatedTaskShape | app/app/api/tasks/route.ts:57-172 | an accepted row is the user's, in the user's category, with a trimmed non-blank title, status todo, priority in [1, 4], no completion, no time, the requested subject if one was named, and a due date exactly when one was given |
| TaskRoutes.CreationIsCounted | app/app/api/tasks/route.ts:183-205 | wherever the recomputation fails, the stats update counts one more created task today, keeps completions, and touches no other day or user |
| TaskRoutes.PostTask | app/app/api/tasks/route.ts:54-228 | a rejected request writes nothing; a throwing create writes nothing and answers 400 for a foreign-key error, 500 otherwise; an accepted one stores the row under the new id and counts and recomputes the stats, keeps the old stats when the upsert throws, and keeps the count when the recomputation fails |
| TimerSessions.StoredType | app/app/api/timer-sessions/route.ts:38 | the stored type is the requested one when given, else `work` |
| TimerSessions.SessionRow | app/app/api/timer-sessions/route.ts:31-41 | the session ends now, started `duration` minutes earlier, is inactive and belongs to the user |
| TimerSessions.DefaultTypeCreditsNothing | app/app/api/timer-sessions/route.ts:38-54 | an omitted type is stored as `work` but credits no time; only the literal `work` credits |
| TimerSessions.PostTimerSession | app/app/api/timer-sessions/route.ts:9-92 | 401, 404 and 400 write nothing; an unknown task gives 500 with nothing written; otherwise the session is appended, work minutes go to the task, and with a subject to the subject and today's study session; an unknown subject gives 500 after the earlier writes |
| TimerPartial.TaskSubject | app/app/api/timer-sessions/partial/route.ts:41-46 | the subject credited is the task's subject when it exists |
| TimerPartial.PutPartialTime | app/app/api/timer-sessions/partial/route.ts:10-84 | 401, 404 and 400 write nothing; zero or negative minutes succeed without writes; positive minutes go to the task and, through its subject, to the subject and the user's study session today; an unknown task gives 500 with nothing written |
| DashboardRoute.CountStatus | app/app/api/dashboard/route.ts:37-48 | a status count is at most the number of tasks |
| DashboardRoute.CountIsMultiplicity | app/app/api/dashboard/route.ts:37-48 | a status count is the multiplicity of that status among the tasks |
| DashboardRoute.CountsPartition | app/app/api/dashboard/route.ts:37-48 | the counts of three distinct statuses sum to at most the total |
| DashboardRoute.CountCompletedSince | app/app/api/dashboard/route.ts:45-48 | the tasks completed since the start of today are at most the number of tasks |
| DashboardRoute.CountCompletedSinceIsFilter | app/app/api/dashboard/route.ts:45-48 | today's completions are exactly the number of tasks whose completion time is at or after today's midnight |
| DashboardRoute.StatusCountsBounded | app/app/api/dashboard/route.ts:37-64 | completed, in-progress and todo counts together never exceed the total, and today's completions are at most the total |
| DashboardRoute.LatestIsNewest | app/app/api/dashboard/route.ts:51-64 | the latest stats are absent exactly when the user has no rows, and otherwise are the row of the user's newest day |
| EditableTime.RunLen | app/components/ui/editable-time.tsx:27-29 | the digit run is maximal: all digits, followed by a non-digit or the end |
| EditableTime.MatchIffDigitBefore | app/components/ui/editable-time.tsx:27-28 | `(\d+)h` (or `m`) matches exactly when some digit is immediately followed by that letter |
| EditableTime.MatchIsFirstRun | app/components/ui/editable-time.tsx:27-28 | a match of `(\d+)h` (or `m`) reads the first maximal digit run that is immediately followed by that letter |
| EditableTime.MatchReadsFirstRun | app/components/ui/editable-time.tsx:27-28 | where such a first run exists, the match is exactly its value |
| EditableTime.ParseTimeInput | app/components/ui/editable-time.tsx:25-45 | the parsed minutes are never negative |
| EditableTime.ParseReadsFirstRuns | app/components/ui/editable-time.tsx:25-45 | with an `h` and an `m` part the input reads as 60 times the first digit run before `h` plus the first digit run before `m` |
| EditableTime.ParseFallbacks | app/components/ui/editable-time.tsx:29-44 | a bare number reads as minutes; text with no `Nh`, no `Nm` and not a bare number reads as 0 |
| EditableTime.FormatParseRoundTrip | app/components/ui/editable-time.tsx:16-45 | parsing the rendering of any non-negative value gives the value back |
| EditableTime.NegativeValueLosesSign | app/components/ui/editable-time.tsx:16-45 | a negative value does not round-trip: -5 renders as `-5m` and reads back as 5 |
| EditableTime.EditableTimeField.HandleEdit | app/components/ui/editable-time.tsx:47-51 | read-only fields ignore the click; otherwise editing starts from the value's rendering |
| EditableTime.EditableTimeField.HandleSave | app/components/ui/editable-time.tsx:53-59 | the update is the parsed value, sent exactly when it differs from the current value; editing ends |
| EditableTime.EditableTimeField.HandleCancel | app/components/ui/editable-time.tsx:61-64 | the text is cleared and editing ends |
| EditableTime.EditThenSave | app/components/ui/editable-time.tsx:47-59 | opening the editor and saving untouched text never calls the update |
| Pomodoro.DurationFor | app/components/timer/pomodoro-timer.tsx:158-165 | each session type takes its own duration from the settings |
| Pomodoro.EveryFourthBreakIsLong | app/components/timer/pomodoro-timer.tsx:150-155 | with the default interval of 4, the break after work session n is long exactly when n mod 4 = 3 |
| Pomodoro.PomodoroTimer.constructor | app/components/timer/pomodoro-timer.tsx:20-30 | the timer starts idle on a 25-minute work session with the default settings |
| Pomodoro.PomodoroTimer.Tick | app/components/timer/pomodoro-timer.tsx:62-82 | a second counts down, the last one ends the session, and work seconds are counted |
| Pomodoro.PomodoroTimer.SavePartialTime | app/components/timer/pomodoro-timer.tsx:211-237 | the unsaved whole minutes of a task's work session are sent when positive and marked saved only when delivered; never more minutes than were worked |
| Pomodoro.PomodoroTimer.StartWorkSession | app/components/timer/pomodoro-timer.tsx:239-250 | a full work session of the current settings starts with cleared counters |
| Pomodoro.PomodoroTimer.StartBreakSession | app/components/timer/pomodoro-timer.tsx:252-267 | a partial-time request for the unsaved work minutes is sent first, then a full short or long break of the current settings starts with cleared counters |
| Pomodoro.PomodoroTimer.StartBreakWith | app/components/timer/pomodoro-timer.tsx:252-267 | the break a render's `startBreakSession` starts lasts as that render's settings say; the running interval is set up again only when the session type or the running state changes |
| Pomodoro.PomodoroTimer.CompleteWith | app/components/timer/pomodoro-timer.tsx:108-156 | with one settings value measuring the finished session and another choosing the next break: the session is saved when there is a task or subject; work adds its duration, counts one more session and starts the next break, long on every interval-th session |
| Pomodoro.PomodoroTimer.HandleTimerCompleteAsWritten | app/components/timer/pomodoro-timer.tsx:59-156 | the completion the interval triggers measures the session, the minutes worked and the next break with the settings of the render that started or resumed the timer |
| Pomodoro.PomodoroTimer.HandleTimerComplete | app/components/timer/pomodoro-timer.tsx:108-156 | as intended: the session is saved, when there is a task or subject, with the length it was started with, which is the time it ran; work adds that length and counts one more session; the next break, long on every interval-th session, follows the current settings |
| Pomodoro.StaleCompletionExample | app/components/timer/pomodoro-timer.tsx:59-156 | a running default work session changed to 50/10 minutes completes as 25 minutes with a 300-second break as written, where 25 minutes and the chosen 600-second break are intended |
| Pomodoro.PomodoroTimer.PauseTimer | app/components/timer/pomodoro-timer.tsx:269-275 | pausing toggles; pausing a task's running work sends its unsaved whole minutes when positive and marks them saved only when delivered; otherwise nothing is sent or saved |
| Pomodoro.PomodoroTimer.StopTimer | app/components/timer/pomodoro-timer.tsx:277-290 | partial work time is saved, the timer stops and rewinds the current session |
| Pomodoro.PomodoroTimer.ResetTimer | app/components/timer/pomodoro-timer.tsx:292-306 | as stop, and the session count returns to 0 |
| Pomodoro.PomodoroTimer.HandleSettingsChangeAsWritten | app/components/timer/pomodoro-timer.tsx:308-317 | the settings change, but an idle timer is rewound with the previous settings |
| Pomodoro.PomodoroTimer.HandleSettingsChange | app/components/timer/pomodoro-timer.tsx:308-317 | the settings change and an idle timer shows a full session of the new settings |
| Pomodoro.StaleSettingsExample | app/components/timer/pomodoro-timer.tsx:308-317 | changing a fresh idle timer to 50-minute work leaves 1500 seconds as written, where 3000 is intended |
| Pomodoro.SettingsChangeThenIdle | app/components/timer/pomodoro-timer.tsx:308-317 | after the intended change an idle timer's remaining time is the new duration |
| Pomodoro.ClockIsMinutesAndSeconds | app/components/timer/pomodoro-timer.tsx:319-323 | below 100 minutes the clock is `MM:SS` and reads back as minutes and seconds |
| TimerSettings.With | app/components/timer/timer-settings.tsx:37-42 | a change sets the one named field and leaves the others |
| TimerSettings.Clamp | app/components/timer/timer-settings.tsx:40 | values are clamped into [1, 120], in-range values kept |
| TimerSettings.FallbackStoresDefault | app/components/timer/timer-settings.tsx:64-112 | an empty or zero input stores that field's default |
| TimerSettings.ClampKeepsRange | app/components/timer/timer-settings.tsx:37-42 | a clamped change keeps all settings in range, and clamping is idempotent |
| TimerSettings.InRangeSettingsArePositive | app/components/timer/timer-settings.tsx:37-42 | in-range settings give every session at least a minute and a long-break interval of at least 1 |
| TimerSettings.TimerSettingsForm.HandleInput | app/components/timer/timer-settings.tsx:64-112 | a typed value, or that field's default when the input is empty or zero, is stored clamped into [1, 120] in the named field alone |
| TimerSettings.TimerSettingsForm.HandleChange | app/components/timer/timer-settings.tsx:37-42 | the named field takes the clamped value and the range invariant is kept |
| TimerSettings.TimerSettingsForm.HandleReset | app/components/timer/timer-settings.tsx:27-35 | the form returns to 25 / 5 / 15 / 4 |
| TimerSettings.TimerSettingsForm.HandleSave | app/components/timer/timer-settings.tsx:22-25 | the form's settings are handed on and the dialog closes |
| TaskList.FilteredIsOrderedSelection | app/components/tasks/task-list.tsx:87-134 | the filtered list keeps the tasks in order, keeps exactly the tasks the filters accept, and with every filter at `all` is the whole list |
| TaskList.EachFilterAlone | app/components/tasks/task-list.tsx:89-131 | what the urgency, subject and overdue filters keep on their own, and that a date filter drops tasks without a due date |
| TaskList.TaskListState.ToggleSessionDetails | app/components/tasks/task-list.tsx:68-76 | exactly that task's panel flips |
| TaskList.ToggleTwice | app/components/tasks/task-list.tsx:68-76 | toggling twice restores the set |
| TaskList.UniqueSubjects | app/components/tasks/task-list.tsx:79-84 | the reduce computes the reference list of distinct subjects |
| TaskList.UniqueSubjectsSpec | app/components/tasks/task-list.tsx:79-84 | the subjects offered have distinct ids, include every task's subject, each is the subject of the first task carrying its id, in order of first occurrence |
| TaskList.BadgeFollowsStoredPriority | app/components/tasks/task-list.tsx:211-219 | levels outside 1 to 4 show as Low, and only 3 and 4 are destructive |
| TaskList.StatusCycle | app/components/tasks/task-list.tsx:431-432 | three clicks restore any of the three statuses; an unknown status becomes completed |
| TaskList.HighlightsExclusive | app/components/tasks/task-list.tsx:395-399 | overdue and due-soon never both hold; due soon means due in (now, now + 24 h) |
| Calendar.EventFor | app/components/calendar/calendar-view.tsx:43-61 | an event names its task, has a `due-` or `completed-` id, and falls back to `Untitled Task` and `#3B82F6` |
| Calendar.TaskEvents | app/components/calendar/calendar-view.tsx:42-62 | a task gives one event per date it has, due before completed |
| Calendar.GetCalendarEvents | app/components/calendar/calendar-view.tsx:32-69 | non-array input gives no events; otherwise the loop yields the reference expansion |
| Calendar.EventsOfConcat | app/components/calendar/calendar-view.tsx:40-66 | task order is preserved: the events of a concatenation are the concatenated events |
| Calendar.EventCount | app/components/calendar/calendar-view.tsx:40-66 | the number of events is the number of tasks with a due date plus the number with a completion date |
| Calendar.EventsComeFromTasks | app/components/calendar/calendar-view.tsx:40-66 | every event is one of its own task's events and carries the id prefix of its kind |
| Calendar.EventsForDateExact | app/components/calendar/calendar-view.tsx:76-78 | a day's events are exactly the events on that day, in order |
| Calendar.DayCellOf | app/components/calendar/calendar-view.tsx:148-162 | a cell shows the first two events at most, and `+N more` with N = count - 2 exactly when there are more than two |
| Calendar.CalendarView.GoToPreviousMonth | app/components/calendar/calendar-view.tsx:80-83 | one month back, selection cleared |
| Calendar.CalendarView.GoToNextMonth | app/components/calendar/calendar-view.tsx:85-88 | one month forward, selection cleared |
| Calendar.CalendarView.HandleDayClick | app/components/calendar/calendar-view.tsx:128-134 | clicking the selected day deselects it, any other day selects it |
| Calendar.CalendarView.SelectedDateEvents | app/components/calendar/calendar-view.tsx:90 | no selection shows nothing; otherwise exactly the selected day's events |
| Calendar.ClickTwice | app/components/calendar/calendar-view.tsx:128-134 | clicking an unselected day twice leaves nothing selected |
| Calendar.NextThenPrevious | app/components/calendar/calendar-view.tsx:80-88 | forward then back returns to the month with nothing selected |
| StatsCards.CompletionRate | app/components/dashboard/stats-cards.tsx:21 | 0 without tasks; otherwise the nearest integer to 100 · completed / total, halves up |
| StatsCards.CompletionRateInRange | app/components/dashboard/stats-cards.tsx:21 | with 0 ≤ completed ≤ total the rate lies in [0, 100], is 100 when all are done and 0 when none are |
| StatsCards.ScoreLabelThresholds | app/components/dashboard/stats-cards.tsx:72-74 | High from 70, Medium from 40, Low below; the variant follows; 70/69 and 40/39 are the boundaries |
| StatsCards.ScoreLevelMonotone | app/components/dashboard/stats-cards.tsx:72-74 | a higher score never gets a lower label |
| DashboardView.FindById | app/components/dashboard.tsx:130 | the task found is the first in the list with that id; none exactly when no task has it |
| DashboardView.WithoutId | app/components/dashboard.tsx:164 | the kept tasks are exactly those with another id |
| DashboardView.WithoutIdIsSubsequence | app/components/dashboard.tsx:164 | the kept tasks keep their order |
| DashboardView.CreatedPrepends | app/components/dashboard.tsx:109-117 | the new task goes first; the total and todo rise by one and nothing else changes; null stays null |
| DashboardView.UpdatedReplaces | app/components/dashboard.tsx:132-136 | every task with the id is replaced, the others and the order stay, the total stays |
| DashboardView.UpdateCounters | app/components/dashboard.tsx:139-144 | only the new status's counter rises, by one, and only when the task was not already in it; none falls |
| DashboardView.CelebratesOnlyOnCompletion | app/components/dashboard.tsx:151-155 | the celebration fires exactly when the completed counter rises |
| DashboardView.DeletedRemoves | app/components/dashboard.tsx:159-172 | tasks with the id go, the rest keep their order; the total falls by one, and only the deleted task's status counter by one |
| DashboardView.CreateThenDeleteRestores | app/components/dashboard.tsx:108-175 | deleting a todo task just created under a fresh id restores the data |
| DashboardView.TabFilterKeeps | app/components/dashboard.tsx:264-270 | the `all` tab keeps every task; a status tab keeps exactly that status, in order |
| DashboardView.DashboardPage.HandleTaskCreated | app/components/dashboard.tsx:108-127 | the data is patched, the form closes, and the first task is celebrated |
| DashboardView.DashboardPage.HandleTaskUpdated | app/components/dashboard.tsx:129-156 | the data is patched, editing ends, and a completion is celebrated |
| DashboardView.DashboardPage.HandleTaskDeleted | app/components/dashboard.tsx:158-175 | the data is patched by the delete reducer |

## Left out

- The AI prioritiser, authentication, accounts and the category and subject CRUD routes are not part of this model. They depend on an external language model, bcrypt and next-auth, or on database uniqueness checks.
- Database concurrency and transactions are not modelled. Each Prisma call is one atomic map update, applied in program order. Where a call may throw, the model takes its outcome as a parameter only in `POST /api/tasks` and in `updateProductivityScore`: the task create, the stats upsert, the streak query and the stats calls. A throw from any other call, including the category and subject lookups of `POST /api/tasks`, is not modelled.
- The code path that increments `tasksCompleted` is not part of this model. Completions appear only as existing `DailyStats` counts.
- The clock and calendar arithmetic (`new Date()`, `setHours`, `setDate`, date-fns `isToday`, `isTomorrow`, `isSameDay`, `addMonths`) are parameters: `now`, `today` and `hour` values, or `isToday`, `isTomorrow` and `dayOf` functions.
- Productivity.Score: uses exact rational arithmetic, where the source uses floating point; `Math.round` is floor(x + 1/2) on the exact value. Floating-point error at exact halves is not modelled.
- StatsCards.CompletionRate: same rounding on exact values, not floating point.
- JavaScript numbers are modelled as unbounded integers. Integer-valued fields are assumed to be integers, and `parseInt` is exact for any digit run.
- Prioritize.PrioritizeTasks: the tasks `findMany` returns, and their order, are an input sequence of task ids.
- The prioritiser's category name test lower-cases ASCII letters only.
- TaskRoutes.PostTask: `newId` is a parameter standing for the id the database assigns. A due-date string is pre-classified as absent, a date or unparsable. Non-string JSON fields are not modelled.
- TimerSessions.PostTimerSession: the foreign key from a session to its task is modelled as a 500 with nothing written. The study session is keyed by the requesting user.
- TimerPartial.PutPartialTime: does not check that the task belongs to the user, exactly as the route does not. The subject comes through the task's relation.
- The React render cycle is modelled only where a closure's older render changes the result: the settings read by `handleSettingsChange` and by the `handleTimerComplete` the interval calls, both under "## Findings". Elsewhere each handler reads the current state.
- Pomodoro.PomodoroTimer.Tick: requires a running, unpaused timer, since the interval exists only then. A completed tick is followed by `HandleTimerComplete` as a separate step.
- Pomodoro.PomodoroTimer.HandleTimerCompleteAsWritten: only the settings are taken from the older render. The elapsed seconds that render's `savePartialTime` would read at the break start are not, so the model sends no partial-time request at completion, where the source sends one when a save at pausing was not delivered.
- Pomodoro.PomodoroTimer.HandleTimerComplete: the completion report sends the length the session was started with even when partial-time requests have already sent some of its minutes. The model states what is sent and does not add the two up.
- Pomodoro.PomodoroTimer.StartBreakSession, Pomodoro.PomodoroTimer.StartBreakWith: the source does not await the partial-time request, and when it is delivered its `setLastSavedTime(minutesElapsed)` lands after the break has reset `lastSavedTime` to 0. The model does the request's bookkeeping before the reset and promises `lastSavedTime == 0`; it does not model that late write, which leaves `lastSavedTime` above the break's elapsed minutes and, if work restarts before the request settles, makes the new session under-report its first minutes.
- `setInterval`, the auto-save interval, sounds, browser notifications, toasts and the `fetch` calls are not modelled. A partial-time request's delivery is the `delivered` parameter.
- EditableTime.ParseTimeInput: `^(\d+)$` is matched against the whole input, and the two other patterns take their first match, as JavaScript's `match` does.
- TaskList: the urgency filter compares the priority as an integer, where the source compares `priority.toString()` with the selected string. A date filter value outside the six listed is not modelled.
- Calendar: the calendar grid's days of the month come from date-fns and are not modelled. Months are counted as integers.
- Text.ToLower: handles ASCII letters only.

## Findings

| source | as written | input that shows it | evidently intended | confidence | as-written member | corrected member |
|---|---|---|---|---|---|---|
| app/components/timer/pomodoro-timer.tsx:308-317 | the settings are stored, but the idle timer is rewound through the previous render's `getDurationForSession`, which still reads the old settings | an idle, fresh work timer whose work duration changes from 25 to 50: it shows 25:00 (1500 s) | an idle timer shows a full session of the new settings: 50:00 (3000 s) | not executed | Pomodoro.PomodoroTimer.HandleSettingsChangeAsWritten, Pomodoro.StaleSettingsExample | Pomodoro.PomodoroTimer.HandleSettingsChange |
| app/components/timer/pomodoro-timer.tsx:59-156 | the interval is set up again only when `isActive`, `isPaused` or `sessionType` changes, so it calls the `handleTimerComplete` of the render that started or resumed the timer, which reads that render's settings | a default work session with a task, started, then changed to 50 work and 10 short-break minutes while it runs: at completion it reports 25 minutes, adds 25 to the minutes worked and starts a 5-minute (300 s) break | the session is reported and credited with the 25 minutes it ran, and the next break follows the settings in force when it ends: a 10-minute (600 s) break, with the long-break test on the current interval | not executed | Pomodoro.PomodoroTimer.HandleTimerCompleteAsWritten, Pomodoro.StaleCompletionExample | Pomodoro.PomodoroTimer.HandleTimerComplete |
