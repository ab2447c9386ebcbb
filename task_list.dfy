/**
 * The task list's logic: the urgency / subject / due-date filter, the set
 * of expanded session panels, the distinct subjects offered as filter
 * options, the priority badge, the status click cycle and the overdue /
 * due-soon highlighting.
 */
module TaskList {
  import opened Wrappers
  import opened Seqs
  import opened Views
  import TaskRoutes

  const OneDayMs: int := 24 * 60 * 60 * 1000

  datatype UrgencyFilter = AnyUrgency | Level(level: int)
  datatype SubjectFilter = AnySubject | NoSubject | SubjectId(id: string)
  datatype DateFilter = AnyDate | DueToday | DueTomorrow | Overdue | ThisWeek | ThisMonth

  datatype Filters = Filters(urgency: UrgencyFilter, subject: SubjectFilter, date: DateFilter)

  const AllFilters := Filters(AnyUrgency, AnySubject, AnyDate)

  /**
   * The clock as the filter sees it: the current instant, date-fns'
   * `isToday` / `isTomorrow`, and the instants a week and a month from now.
   */
  datatype Clock = Clock(now: int, isToday: int -> bool, isTomorrow: int -> bool, weekFromNow: int, monthFromNow: int)

  /** The date filter's switch, for a task that has a due date. */
  predicate DueDateMatches(f: DateFilter, due: int, status: string, clock: Clock) {
    match f
    case AnyDate => true
    case DueToday => clock.isToday(due)
    case DueTomorrow => clock.isTomorrow(due)
    case Overdue => clock.now > due && status != "completed"
    case ThisWeek => !(due > clock.weekFromNow)
    case ThisMonth => !(due > clock.monthFromNow)
  }

  /** The predicate of `filteredTasks`. */
  predicate Keep(f: Filters, clock: Clock, t: TaskView) {
    && (f.urgency.Level? ==> t.priority == f.urgency.level)
    && (f.subject.NoSubject? ==> t.subject.None?)
    && (f.subject.SubjectId? ==> t.subject.Some? && t.subject.value.id == f.subject.id)
    && (f.date != AnyDate ==> t.dueDate.Some? && DueDateMatches(f.date, t.dueDate.value, t.status, clock))
  }

  function FilteredTasks(tasks: seq<TaskView>, f: Filters, clock: Clock): seq<TaskView> {
    Filter(tasks, t => Keep(f, clock, t))
  }

  /**
   * The filtered list keeps the tasks in order and drops only tasks the
   * filters reject; with every filter at `'all'` it is the whole list.
   */
  lemma FilteredIsOrderedSelection(tasks: seq<TaskView>, f: Filters, clock: Clock)
    ensures SubsequenceOf(FilteredTasks(tasks, f, clock), tasks)
    ensures forall t :: t in tasks ==> (t in FilteredTasks(tasks, f, clock) <==> Keep(f, clock, t))
    ensures FilteredTasks(tasks, AllFilters, clock) == tasks
  {
    FilterIsSubsequence(tasks, t => Keep(f, clock, t));
    FilterKeepsAll(tasks, t => Keep(AllFilters, clock, t));
  }

  /** What each filter keeps on its own, the others set to `'all'`. */
  lemma EachFilterAlone(clock: Clock, t: TaskView, level: int, id: string, d: DateFilter)
    ensures Keep(AllFilters.(urgency := Level(level)), clock, t) <==> t.priority == level
    ensures Keep(AllFilters.(subject := NoSubject), clock, t) <==> t.subject.None?
    ensures Keep(AllFilters.(subject := SubjectId(id)), clock, t) <==> t.subject.Some? && t.subject.value.id == id
    ensures d != AnyDate && t.dueDate.None? ==> !Keep(AllFilters.(date := d), clock, t)
    ensures Keep(AllFilters.(date := Overdue), clock, t) <==>
      t.dueDate.Some? && clock.now > t.dueDate.value && t.status != "completed"
  {
  }

  /** The list's own state: which tasks show their timer sessions, and the filters. */
  class TaskListState {
    var expandedSessions: set<string>
    var filters: Filters

    constructor ()
      ensures expandedSessions == {} && filters == AllFilters
    {
      expandedSessions := {};
      filters := AllFilters;
    }

    /** `toggleSessionDetails(taskId)`: flip exactly that id. */
    method ToggleSessionDetails(taskId: string)
      modifies this`expandedSessions
      ensures taskId in expandedSessions <==> taskId !in old(expandedSessions)
      ensures forall x :: x != taskId ==> (x in expandedSessions <==> x in old(expandedSessions))
    {
      var newExpanded := expandedSessions;
      if taskId in newExpanded {
        newExpanded := newExpanded - {taskId};
      } else {
        newExpanded := newExpanded + {taskId};
      }
      expandedSessions := newExpanded;
    }
  }

  /** Toggling the same panel twice restores the set. */
  method ToggleTwice(state: TaskListState, taskId: string)
    modifies state
    ensures state.expandedSessions == old(state.expandedSessions)
  {
    state.ToggleSessionDetails(taskId);
    state.ToggleSessionDetails(taskId);
  }

  predicate Carries(t: TaskView, id: string) {
    t.subject.Some? && t.subject.value.id == id
  }

  predicate HasId(acc: seq<SubjectView>, id: string) {
    exists k :: 0 <= k < |acc| && acc[k].id == id
  }

  /** Reference definition of `uniqueSubjects`, built from the last task backwards. */
  function Unique(ts: seq<TaskView>): seq<SubjectView>
    decreases |ts|
  {
    if ts == [] then []
    else
      var u := Unique(ts[..|ts| - 1]);
      var t := ts[|ts| - 1];
      if t.subject.Some? && !HasId(u, t.subject.value.id) then u + [t.subject.value] else u
  }

  /** `uniqueSubjects`: the `reduce` that pushes each subject not yet in the accumulator. */
  method UniqueSubjects(tasks: seq<TaskView>) returns (acc: seq<SubjectView>)
    ensures acc == Unique(tasks)
  {
    acc := [];
    for i := 0 to |tasks|
      invariant acc == Unique(tasks[..i])
    {
      var task := tasks[i];
      assert tasks[..i + 1][..i] == tasks[..i];
      if task.subject.Some? && !HasId(acc, task.subject.value.id) {
        acc := acc + [task.subject.value];
      }
    }
    assert tasks[..|tasks|] == tasks;
  }

  predicate DistinctIds(u: seq<SubjectView>) {
    forall k, l :: 0 <= k < l < |u| ==> u[k].id != u[l].id
  }

  /** Every subject some task carries has its id offered. */
  predicate OffersAll(ts: seq<TaskView>, u: seq<SubjectView>) {
    forall i :: 0 <= i < |ts| && ts[i].subject.Some? ==> HasId(u, ts[i].subject.value.id)
  }

  /** Task i carries subject s and is the first task carrying its id. */
  predicate FirstCarrier(ts: seq<TaskView>, i: int, s: SubjectView) {
    0 <= i < |ts| && ts[i].subject == Some(s) && forall j :: 0 <= j < i ==> !Carries(ts[j], s.id)
  }

  /** Some task is the first carrier of subject s. */
  predicate CarriedFirst(ts: seq<TaskView>, s: SubjectView) {
    exists i :: 0 <= i < |ts| && FirstCarrier(ts, i, s)
  }

  predicate TakenAtFirstCarrier(ts: seq<TaskView>, u: seq<SubjectView>) {
    forall k :: 0 <= k < |u| ==> CarriedFirst(ts, u[k])
  }

  /** Every task carrying a later subject comes after some task carrying an earlier one. */
  predicate InFirstOccurrenceOrder(ts: seq<TaskView>, u: seq<SubjectView>) {
    forall k, l, j :: 0 <= k < l < |u| && 0 <= j < |ts| && Carries(ts[j], u[l].id) ==>
      exists i :: 0 <= i < j && Carries(ts[i], u[k].id)
  }

  /** Unfolding `Unique` at the last task. */
  lemma UniqueStep(ts: seq<TaskView>)
    requires ts != []
    ensures var n := |ts| - 1;
      var u0 := Unique(ts[..n]);
      var t := ts[n];
      && (forall i :: 0 <= i < n ==> ts[..n][i] == ts[i])
      && Unique(ts) == (if t.subject.Some? && !HasId(u0, t.subject.value.id) then u0 + [t.subject.value] else u0)
  {
  }

  lemma {:induction false} OffersAllSubjects(ts: seq<TaskView>)
    ensures OffersAll(ts, Unique(ts))
    decreases |ts|
  {
    if ts != [] {
      var n := |ts| - 1;
      UniqueStep(ts);
      OffersAllSubjects(ts[..n]);
      var u0 := Unique(ts[..n]);
      var u := Unique(ts);
      assert forall k :: 0 <= k < |u0| ==> u[k] == u0[k];
      forall i | 0 <= i < |ts| && ts[i].subject.Some? ensures HasId(u, ts[i].subject.value.id) {
        if i < n {
          assert ts[..n][i] == ts[i];
        } else if !HasId(u0, ts[i].subject.value.id) {
          assert u[|u0|].id == ts[i].subject.value.id;
        }
      }
    }
  }

  lemma {:induction false} UniqueIdsDistinct(ts: seq<TaskView>)
    ensures DistinctIds(Unique(ts))
    decreases |ts|
  {
    if ts != [] {
      var n := |ts| - 1;
      UniqueStep(ts);
      UniqueIdsDistinct(ts[..n]);
      var u0 := Unique(ts[..n]);
      var u := Unique(ts);
      if u != u0 {
        forall k | 0 <= k < |u0| ensures u[k].id != u[|u0|].id {
          assert u[k] == u0[k];
        }
      }
    }
  }

  /** A subject appended at the last task is carried by no earlier task. */
  lemma NewSubjectIsFirst(ts: seq<TaskView>)
    requires ts != []
    ensures var n := |ts| - 1;
      Unique(ts) != Unique(ts[..n]) ==>
        && ts[n].subject.Some?
        && Unique(ts) == Unique(ts[..n]) + [ts[n].subject.value]
        && forall j :: 0 <= j < n ==> !Carries(ts[j], ts[n].subject.value.id)
  {
    var n := |ts| - 1;
    UniqueStep(ts);
    OffersAllSubjects(ts[..n]);
    assert forall j :: 0 <= j < n ==> ts[..n][j] == ts[j];
  }

  lemma {:induction false} UniqueTakesFirstCarrier(ts: seq<TaskView>)
    ensures TakenAtFirstCarrier(ts, Unique(ts))
    decreases |ts|
  {
    if ts != [] {
      var n := |ts| - 1;
      var front := ts[..n];
      UniqueStep(ts);
      UniqueTakesFirstCarrier(front);
      NewSubjectIsFirst(ts);
      var u0 := Unique(front);
      var u := Unique(ts);
      forall k | 0 <= k < |u| ensures CarriedFirst(ts, u[k]) {
        if k < |u0| {
          assert u[k] == u0[k] && CarriedFirst(front, u0[k]);
          var i :| 0 <= i < |front| && FirstCarrier(front, i, u0[k]);
          assert FirstCarrier(ts, i, u[k]);
        } else {
          assert u != u0 && u[k] == ts[n].subject.value;
          assert FirstCarrier(ts, n, u[k]);
        }
      }
    }
  }

  lemma {:induction false} UniqueInFirstOccurrenceOrder(ts: seq<TaskView>)
    ensures InFirstOccurrenceOrder(ts, Unique(ts))
    decreases |ts|
  {
    if ts != [] {
      var n := |ts| - 1;
      var front := ts[..n];
      UniqueStep(ts);
      UniqueInFirstOccurrenceOrder(front);
      UniqueTakesFirstCarrier(front);
      NewSubjectIsFirst(ts);
      var u0 := Unique(front);
      var u := Unique(ts);
      forall k, l, j | 0 <= k < l < |u| && 0 <= j < |ts| && Carries(ts[j], u[l].id)
        ensures exists i :: 0 <= i < j && Carries(ts[i], u[k].id)
      {
        assert u[k] == u0[k] && CarriedFirst(front, u0[k]);
        var i :| 0 <= i < |front| && FirstCarrier(front, i, u0[k]);
        assert Carries(ts[i], u[k].id);
        if j < n && l < |u0| {
          assert u[l] == u0[l] && front[j] == ts[j];
          assert Carries(front[j], u0[l].id);
        }
      }
    }
  }

  /**
   * The subjects offered: distinct ids, every subject of a task offered,
   * each one the subject of the first task carrying its id, in the order
   * of those first occurrences.
   */
  lemma UniqueSubjectsSpec(ts: seq<TaskView>)
    ensures var u := Unique(ts);
      DistinctIds(u) && OffersAll(ts, u) && TakenAtFirstCarrier(ts, u) && InFirstOccurrenceOrder(ts, u)
  {
    UniqueIdsDistinct(ts);
    OffersAllSubjects(ts);
    UniqueTakesFirstCarrier(ts);
    UniqueInFirstOccurrenceOrder(ts);
  }

  datatype BadgeVariant = Secondary | Default | Destructive

  datatype PriorityBadge = PriorityBadge(variant: BadgeVariant, text: string)

  /** `getPriorityBadge(priority)`: levels 1 to 4, anything else shown as level 1. */
  function PriorityBadgeOf(priority: int): PriorityBadge {
    if priority == 2 then PriorityBadge(Default, "Medium")
    else if priority == 3 then PriorityBadge(Destructive, "High")
    else if priority == 4 then PriorityBadge(Destructive, "Urgent")
    else PriorityBadge(Secondary, "Low")
  }

  /**
   * The badge of any priority is the badge of the priority the task
   * creation would store for it, and only levels 3 and 4 are destructive.
   */
  lemma BadgeFollowsStoredPriority(priority: int)
    ensures PriorityBadgeOf(priority) == PriorityBadgeOf(TaskRoutes.NormalisePriority(Some(priority)))
    ensures PriorityBadgeOf(priority).variant == Destructive <==> priority == 3 || priority == 4
    ensures PriorityBadgeOf(priority).text == "Low" <==> !(2 <= priority <= 4)
  {
  }

  /** The status icon's click: completed to todo, todo to in progress, anything else to completed. */
  function NextStatus(status: string): string {
    if status == "completed" then "todo"
    else if status == "todo" then "in_progress"
    else "completed"
  }

  /** Three clicks bring any of the three statuses back; an unknown status becomes completed. */
  lemma StatusCycle(status: string)
    ensures status in {"todo", "in_progress", "completed"} ==> NextStatus(NextStatus(NextStatus(status))) == status
    ensures !(status in {"todo", "in_progress", "completed"}) ==> NextStatus(status) == "completed"
    ensures NextStatus(status) in {"todo", "in_progress", "completed"}
  {
  }

  /** An open task whose due date has passed. */
  predicate IsOverdue(t: TaskView, now: int) {
    t.dueDate.Some? && now > t.dueDate.value && t.status != "completed"
  }

  /** Due within the next 24 hours and not overdue. */
  predicate DueSoon(t: TaskView, now: int) {
    t.dueDate.Some? && !IsOverdue(t, now) && t.dueDate.value > now && t.dueDate.value - now < OneDayMs
  }

  /** The highlights never both apply; due soon means due in (now, now + 24h). */
  lemma HighlightsExclusive(t: TaskView, now: int)
    ensures !(IsOverdue(t, now) && DueSoon(t, now))
    ensures DueSoon(t, now) <==> t.dueDate.Some? && now < t.dueDate.value < now + OneDayMs
  {
  }
}
