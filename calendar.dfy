/**
 * The calendar view: each task expanded into a due-date event and a
 * completion event, the events of one day, the cap on the events a day
 * cell shows, and the month / selected-day state.
 *
 * Instants are milliseconds since the epoch; days are whole day numbers,
 * and `dayOf` (date-fns' `isSameDay` reduced to a day number) is a
 * parameter.
 */
module Calendar {
  import opened Wrappers
  import opened Seqs
  import opened Views

  const UntitledTask := "Untitled Task"
  const DefaultColor := "#3B82F6"

  datatype EventKind = Due | Completed

  datatype CalendarEvent = CalendarEvent(id: string, title: string, date: int, taskId: string, color: string, kind: EventKind)

  /** The event of kind `kind` at `date` for task `t`, with the title and colour fallbacks. */
  function EventFor(t: TaskView, kind: EventKind, date: int): (e: CalendarEvent)
    ensures e.taskId == t.id && e.kind == kind && e.date == date
    ensures e.id == (if kind == Due then "due-" else "completed-") + t.id
    ensures e.title != "" && (t.title != "" ==> e.title == t.title) && (t.title == "" ==> e.title == UntitledTask)
    ensures e.color != "" && (t.categoryColor != "" ==> e.color == t.categoryColor)
    ensures t.categoryColor == "" ==> e.color == DefaultColor
  {
    CalendarEvent(
      (if kind == Due then "due-" else "completed-") + t.id,
      if t.title != "" then t.title else UntitledTask,
      date,
      t.id,
      if t.categoryColor != "" then t.categoryColor else DefaultColor,
      kind)
  }

  /** The events one task contributes: its due-date event first, then its completion event. */
  function TaskEvents(t: TaskView): (es: seq<CalendarEvent>)
    ensures |es| == (if t.dueDate.Some? then 1 else 0) + (if t.completedAt.Some? then 1 else 0)
    ensures t.dueDate.Some? ==> es[0] == EventFor(t, Due, t.dueDate.value)
    ensures t.completedAt.Some? ==> es[|es| - 1] == EventFor(t, Completed, t.completedAt.value)
  {
    (if t.dueDate.Some? then [EventFor(t, Due, t.dueDate.value)] else [])
      + (if t.completedAt.Some? then [EventFor(t, Completed, t.completedAt.value)] else [])
  }

  /** Reference definition of the expansion, built from the last task backwards. */
  function EventsOf(ts: seq<TaskView>): seq<CalendarEvent>
    decreases |ts|
  {
    if ts == [] then [] else EventsOf(ts[..|ts| - 1]) + TaskEvents(ts[|ts| - 1])
  }

  /** `getCalendarEvents`: no events unless the tasks are an array, otherwise one `push` per dated field. */
  method GetCalendarEvents(tasks: Option<seq<TaskView>>) returns (events: seq<CalendarEvent>)
    ensures tasks.None? ==> events == []
    ensures tasks.Some? ==> events == EventsOf(tasks.value)
  {
    if tasks.None? {
      return [];
    }
    var ts := tasks.value;
    events := [];
    for i := 0 to |ts|
      invariant events == EventsOf(ts[..i])
    {
      var task := ts[i];
      assert ts[..i + 1][..i] == ts[..i];
      if task.dueDate.Some? {
        events := events + [EventFor(task, Due, task.dueDate.value)];
      }
      if task.completedAt.Some? {
        events := events + [EventFor(task, Completed, task.completedAt.value)];
      }
    }
    assert ts[..|ts|] == ts;
  }

  /** Expanding a concatenation expands each part, in order. */
  lemma {:induction false} EventsOfConcat(a: seq<TaskView>, b: seq<TaskView>)
    ensures EventsOf(a + b) == EventsOf(a) + EventsOf(b)
    decreases |b|
  {
    if b == [] {
      assert a + b == a;
    } else {
      var n := |b| - 1;
      assert (a + b)[..|a + b| - 1] == a + b[..n];
      assert (a + b)[|a + b| - 1] == b[n];
      EventsOfConcat(a, b[..n]);
    }
  }

  predicate HasDueDate(t: TaskView) { t.dueDate.Some? }
  predicate HasCompletedAt(t: TaskView) { t.completedAt.Some? }

  /** One event per task with a due date plus one per task with a completion date. */
  lemma {:induction false} EventCount(ts: seq<TaskView>)
    ensures |EventsOf(ts)| == |Filter(ts, HasDueDate)| + |Filter(ts, HasCompletedAt)|
    decreases |ts|
  {
    if ts != [] {
      var n := |ts| - 1;
      EventCount(ts[..n]);
      assert ts == ts[..n] + [ts[n]];
      FilterConcat(ts[..n], [ts[n]], HasDueDate);
      FilterConcat(ts[..n], [ts[n]], HasCompletedAt);
    }
  }

  /**
   * Every event comes from a task of the list, names that task, and is
   * the due-date or completion event that task's own dates call for.
   */
  lemma {:induction false} EventsComeFromTasks(ts: seq<TaskView>)
    ensures forall e :: e in EventsOf(ts) ==> exists i :: 0 <= i < |ts| && e in TaskEvents(ts[i])
    ensures forall e :: e in EventsOf(ts) ==>
      (e.kind == Due ==> e.id == "due-" + e.taskId) && (e.kind == Completed ==> e.id == "completed-" + e.taskId)
    decreases |ts|
  {
    if ts != [] {
      var n := |ts| - 1;
      EventsComeFromTasks(ts[..n]);
      forall e | e in EventsOf(ts) ensures exists i :: 0 <= i < |ts| && e in TaskEvents(ts[i]) {
        if e in EventsOf(ts[..n]) {
          var i :| 0 <= i < n && e in TaskEvents(ts[..n][i]);
          assert ts[..n][i] == ts[i];
        } else {
          assert e in TaskEvents(ts[n]);
        }
      }
    }
  }

  /** `getEventsForDate(date)`: the events whose instant falls on that day. */
  function EventsForDate(events: seq<CalendarEvent>, dayOf: int -> int, day: int): seq<CalendarEvent> {
    Filter(events, (e: CalendarEvent) => dayOf(e.date) == day)
  }

  /** The day's events are exactly the events on that day, in their original order. */
  lemma EventsForDateExact(events: seq<CalendarEvent>, dayOf: int -> int, day: int)
    ensures SubsequenceOf(EventsForDate(events, dayOf, day), events)
    ensures forall e :: e in EventsForDate(events, dayOf, day) <==> e in events && dayOf(e.date) == day
  {
    FilterIsSubsequence(events, (e: CalendarEvent) => dayOf(e.date) == day);
  }

  /** What a day cell shows: the first two events and, past two, a `+N more` line. */
  datatype DayCell = DayCell(shown: seq<CalendarEvent>, more: Option<int>)

  function DayCellOf(dayEvents: seq<CalendarEvent>): (c: DayCell)
    ensures |c.shown| <= 2 && |c.shown| <= |dayEvents| && c.shown == dayEvents[..|c.shown|]
    ensures |c.shown| == |dayEvents| || |c.shown| == 2
    ensures c.more.Some? <==> |dayEvents| > 2
    ensures c.more.Some? ==> c.more.value == |dayEvents| - 2 && |c.shown| + c.more.value == |dayEvents|
  {
    DayCell(if |dayEvents| <= 2 then dayEvents else dayEvents[..2],
            if |dayEvents| > 2 then Some(|dayEvents| - 2) else None)
  }

  /** The shown month (counted in months) and the selected day. */
  class CalendarView {
    var currentMonth: int
    var selectedDate: Option<int>

    constructor (month: int)
      ensures currentMonth == month && selectedDate == None
    {
      currentMonth := month;
      selectedDate := None;
    }

    /** `goToPreviousMonth`: one month back, selection cleared. */
    method GoToPreviousMonth()
      modifies this
      ensures currentMonth == old(currentMonth) - 1 && selectedDate == None
    {
      currentMonth := currentMonth - 1;
      selectedDate := None;
    }

    /** `goToNextMonth`: one month forward, selection cleared. */
    method GoToNextMonth()
      modifies this
      ensures currentMonth == old(currentMonth) + 1 && selectedDate == None
    {
      currentMonth := currentMonth + 1;
      selectedDate := None;
    }

    /** A day cell's click: the selected day is deselected, any other day is selected. */
    method HandleDayClick(day: int)
      modifies this`selectedDate
      ensures old(selectedDate) == Some(day) ==> selectedDate == None
      ensures old(selectedDate) != Some(day) ==> selectedDate == Some(day)
    {
      var isSelected := selectedDate.Some? && selectedDate.value == day;
      selectedDate := if isSelected then None else Some(day);
    }

    /** `selectedDateEvents`: the selected day's events, none without a selection. */
    function SelectedDateEvents(events: seq<CalendarEvent>, dayOf: int -> int): (r: seq<CalendarEvent>)
      reads this
      ensures selectedDate.None? ==> r == []
      ensures forall e :: e in r <==> selectedDate.Some? && e in events && dayOf(e.date) == selectedDate.value
    {
      if selectedDate.None? then [] else EventsForDate(events, dayOf, selectedDate.value)
    }
  }

  /** Clicking an unselected day twice leaves nothing selected and the month unchanged. */
  method ClickTwice(view: CalendarView, day: int)
    modifies view
    requires view.selectedDate != Some(day)
    ensures view.selectedDate == None
    ensures view.currentMonth == old(view.currentMonth)
  {
    view.HandleDayClick(day);
    view.HandleDayClick(day);
  }

  /** Going forward a month and back again returns to the month, with nothing selected. */
  method NextThenPrevious(view: CalendarView)
    modifies view
    ensures view.currentMonth == old(view.currentMonth) && view.selectedDate == None
  {
    view.GoToNextMonth();
    view.GoToPreviousMonth();
  }
}
