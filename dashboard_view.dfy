/**
 * The dashboard page's optimistic updates: the task list and the stat
 * counters patched after a task is created, updated or deleted (before
 * the next fetch), the celebration those changes trigger, and the status
 * tab's filter.
 *
 * The page state `data` is `null` until the first fetch succeeds; every
 * reducer leaves `null` as it is.
 */
module DashboardView {
  import opened Wrappers
  import opened Seqs
  import opened Views

  /** The client's copy of the stats; counters are plain numbers and can go below zero. */
  datatype ClientStats = ClientStats(
    totalTasks: int,
    completed: int,
    inProgress: int,
    todo: int,
    todayCompleted: int,
    streakDays: int,
    productivityScore: int)

  datatype DashboardData = DashboardData(tasks: seq<TaskView>, stats: ClientStats)

  /** The counter a status tab shows. */
  function Counter(s: ClientStats, status: string): int {
    if status == "completed" then s.completed
    else if status == "in_progress" then s.inProgress
    else if status == "todo" then s.todo
    else 0
  }

  predicate IsCounted(status: string) {
    status == "completed" || status == "in_progress" || status == "todo"
  }

  /** `tasks.find(t => t.id === id)`: the first task with that id. */
  function FindById(ts: seq<TaskView>, id: string): (r: Option<TaskView>)
    ensures r.Some? ==> r.value in ts && r.value.id == id
    ensures r.None? <==> forall t :: t in ts ==> t.id != id
    ensures r.Some? ==> exists k :: 0 <= k < |ts| && ts[k] == r.value && forall j :: 0 <= j < k ==> ts[j].id != id
    decreases |ts|
  {
    if ts == [] then None
    else if ts[0].id == id then Some(ts[0])
    else
      var r := FindById(ts[1..], id);
      if r.Some? then
        var k :| 0 <= k < |ts[1..]| && ts[1..][k] == r.value && forall j :: 0 <= j < k ==> ts[1..][j].id != id;
        assert ts[k + 1] == r.value;
        r
      else r
  }

  /** `handleTaskCreated`'s state update. */
  function Created(data: Option<DashboardData>, newTask: TaskView): Option<DashboardData> {
    match data
    case None => None
    case Some(prev) =>
      Some(prev.(tasks := [newTask] + prev.tasks,
                 stats := prev.stats.(totalTasks := prev.stats.totalTasks + 1, todo := prev.stats.todo + 1)))
  }

  /** The first task's celebration: no data yet, or no tasks in it. */
  predicate CreationCelebrates(data: Option<DashboardData>) {
    data.None? || |data.value.tasks| == 0
  }

  function ReplaceById(ts: seq<TaskView>, updated: TaskView): seq<TaskView> {
    seq(|ts|, i requires 0 <= i < |ts| => if ts[i].id == updated.id then updated else ts[i])
  }

  /** Whether the update moves the task into `status` (an unseen task moves into its status). */
  predicate EntersStatus(previous: Option<TaskView>, updated: TaskView, status: string) {
    updated.status == status && !(previous.Some? && previous.value.status == status)
  }

  /** `handleTaskUpdated`'s state update; `previous` is looked up before it. */
  function Updated(data: Option<DashboardData>, updated: TaskView): Option<DashboardData> {
    match data
    case None => None
    case Some(prev) =>
      var previous := FindById(prev.tasks, updated.id);
      var s := prev.stats;
      Some(prev.(tasks := ReplaceById(prev.tasks, updated),
                 stats := s.(
                   completed := if EntersStatus(previous, updated, "completed") then s.completed + 1 else s.completed,
                   inProgress := if EntersStatus(previous, updated, "in_progress") then s.inProgress + 1 else s.inProgress,
                   todo := if EntersStatus(previous, updated, "todo") then s.todo + 1 else s.todo)))
  }

  /** The completion celebration after an update. */
  predicate UpdateCelebrates(data: Option<DashboardData>, updated: TaskView) {
    var previous := if data.None? then None else FindById(data.value.tasks, updated.id);
    EntersStatus(previous, updated, "completed")
  }

  /** `tasks.filter(task => task.id !== id)`. */
  function WithoutId(ts: seq<TaskView>, id: string): (r: seq<TaskView>)
    ensures forall x :: x in r <==> x in ts && x.id != id
    decreases |ts|
  {
    if ts == [] then []
    else (if ts[0].id != id then [ts[0]] else []) + WithoutId(ts[1..], id)
  }

  /** The tasks kept keep their order. */
  lemma {:induction false} WithoutIdIsSubsequence(ts: seq<TaskView>, id: string)
    ensures SubsequenceOf(WithoutId(ts, id), ts)
    decreases |ts|
  {
    if ts != [] {
      WithoutIdIsSubsequence(ts[1..], id);
      var r := WithoutId(ts, id);
      if ts[0].id != id {
        assert r[0] == ts[0] && r[1..] == WithoutId(ts[1..], id);
      } else if r != [] {
        assert r == WithoutId(ts[1..], id);
      }
    }
  }

  /** Without a task of that id, nothing is removed. */
  lemma {:induction false} WithoutAbsentId(ts: seq<TaskView>, id: string)
    requires forall x :: x in ts ==> x.id != id
    ensures WithoutId(ts, id) == ts
    decreases |ts|
  {
    if ts != [] {
      assert forall x :: x in ts[1..] ==> x in ts;
      WithoutAbsentId(ts[1..], id);
      assert ts == [ts[0]] + ts[1..];
    }
  }

  /** `handleTaskDeleted`'s state update. */
  function Deleted(data: Option<DashboardData>, id: string): Option<DashboardData> {
    match data
    case None => None
    case Some(prev) =>
      var deleted := FindById(prev.tasks, id);
      var st := if deleted.Some? then deleted.value.status else "";
      var s := prev.stats;
      Some(prev.(tasks := WithoutId(prev.tasks, id),
                 stats := s.(
                   totalTasks := s.totalTasks - 1,
                   completed := if st == "completed" then s.completed - 1 else s.completed,
                   inProgress := if st == "in_progress" then s.inProgress - 1 else s.inProgress,
                   todo := if st == "todo" then s.todo - 1 else s.todo)))
  }

  /** The tab's `filteredTasks` predicate: a status tab keeps that status, any other tab keeps everything. */
  predicate OnTab(tab: string, t: TaskView) {
    if tab == "todo" || tab == "in_progress" || tab == "completed" then t.status == tab else true
  }

  function TabTasks(ts: seq<TaskView>, tab: string): seq<TaskView> {
    Filter(ts, t => OnTab(tab, t))
  }

  /** Creating puts the task first and counts it as one more task to do; nothing else changes. */
  lemma CreatedPrepends(data: Option<DashboardData>, t: TaskView)
    ensures data.None? <==> Created(data, t).None?
    ensures data.Some? ==>
      var prev := data.value;
      var next := Created(data, t).value;
      && next.tasks[0] == t && next.tasks[1..] == prev.tasks
      && next.stats.totalTasks == prev.stats.totalTasks + 1
      && next.stats.todo == prev.stats.todo + 1
      && next.stats.(totalTasks := prev.stats.totalTasks, todo := prev.stats.todo) == prev.stats
  {
  }

  /**
   * Updating swaps in the new version of every task with its id, leaves
   * the other tasks and the order untouched, and keeps the total.
   */
  lemma UpdatedReplaces(data: Option<DashboardData>, t: TaskView)
    ensures data.None? <==> Updated(data, t).None?
    ensures data.Some? ==>
      var prev := data.value.tasks;
      var next := Updated(data, t).value.tasks;
      && |next| == |prev|
      && (forall i :: 0 <= i < |prev| && prev[i].id == t.id ==> next[i] == t)
      && (forall i :: 0 <= i < |prev| && prev[i].id != t.id ==> next[i] == prev[i])
      && Updated(data, t).value.stats.totalTasks == data.value.stats.totalTasks
  {
  }

  /**
   * Only the counter of the new status moves, by one, and only when the
   * task was not already in it; no counter is decremented.
   */
  lemma UpdateCounters(data: Option<DashboardData>, t: TaskView, status: string)
    requires data.Some? && IsCounted(status)
    ensures var previous := FindById(data.value.tasks, t.id);
      var before := Counter(data.value.stats, status);
      var after := Counter(Updated(data, t).value.stats, status);
      && (after == before + 1 <==> t.status == status && !(previous.Some? && previous.value.status == status))
      && (after == before || after == before + 1)
    ensures Updated(data, t).value.stats.(completed := 0, inProgress := 0, todo := 0)
      == data.value.stats.(completed := 0, inProgress := 0, todo := 0)
  {
  }

  /** The celebration fires exactly when the update moves the task into `completed`. */
  lemma CelebratesOnlyOnCompletion(data: Option<DashboardData>, t: TaskView)
    requires data.Some?
    ensures UpdateCelebrates(data, t) <==>
      Counter(Updated(data, t).value.stats, "completed") == Counter(data.value.stats, "completed") + 1
    ensures UpdateCelebrates(data, t) ==> t.status == "completed"
  {
  }

  /**
   * Deleting drops every task with that id and keeps the rest in order,
   * lowers the total by one and only the deleted task's status counter by one.
   */
  lemma DeletedRemoves(data: Option<DashboardData>, id: string)
    requires data.Some?
    ensures var prev := data.value;
      var next := Deleted(data, id).value;
      var deleted := FindById(prev.tasks, id);
      && SubsequenceOf(next.tasks, prev.tasks)
      && (forall x :: x in next.tasks <==> x in prev.tasks && x.id != id)
      && next.stats.totalTasks == prev.stats.totalTasks - 1
      && (forall st :: IsCounted(st) ==>
            Counter(next.stats, st) == Counter(prev.stats, st) - (if deleted.Some? && deleted.value.status == st then 1 else 0))
  {
    WithoutIdIsSubsequence(data.value.tasks, id);
  }

  /** Deleting a task just created as `todo`, under a fresh id, restores the data. */
  lemma CreateThenDeleteRestores(data: Option<DashboardData>, t: TaskView)
    requires t.status == "todo"
    requires data.Some? ==> forall x :: x in data.value.tasks ==> x.id != t.id
    ensures Deleted(Created(data, t), t.id) == data
  {
    if data.Some? {
      var prev := data.value;
      var ts := Created(data, t).value.tasks;
      assert ts[0] == t && ts[1..] == prev.tasks;
      WithoutAbsentId(prev.tasks, t.id);
      assert WithoutId(ts, t.id) == prev.tasks;
      assert FindById(ts, t.id) == Some(t);
    }
  }

  /** The `all` tab keeps every task; a status tab keeps the tasks of exactly that status. */
  lemma TabFilterKeeps(ts: seq<TaskView>, tab: string)
    ensures tab == "all" ==> TabTasks(ts, tab) == ts
    ensures IsCounted(tab) ==> forall t :: t in TabTasks(ts, tab) <==> t in ts && t.status == tab
    ensures SubsequenceOf(TabTasks(ts, tab), ts)
  {
    FilterIsSubsequence(ts, t => OnTab(tab, t));
    if tab == "all" {
      FilterKeepsAll(ts, t => OnTab(tab, t));
    }
  }

  /** The page's state: the fetched data, the open form and task being edited, and the celebration. */
  class DashboardPage {
    var data: Option<DashboardData>
    var showTaskForm: bool
    var editingTask: Option<TaskView>
    var showCelebration: bool
    var activeTab: string

    constructor ()
      ensures data == None && !showTaskForm && editingTask == None && !showCelebration && activeTab == "all"
    {
      data := None;
      showTaskForm := false;
      editingTask := None;
      showCelebration := false;
      activeTab := "all";
    }

    /** `handleTaskCreated`: patch the data, close the form, celebrate the first task. */
    method HandleTaskCreated(newTask: TaskView)
      modifies this`data, this`showTaskForm, this`showCelebration
      ensures data == Created(old(data), newTask)
      ensures !showTaskForm
      ensures showCelebration == (old(showCelebration) || CreationCelebrates(old(data)))
    {
      var first := CreationCelebrates(data);
      data := Created(data, newTask);
      showTaskForm := false;
      if first {
        showCelebration := true;
      }
    }

    /** `handleTaskUpdated`: patch the data, stop editing, celebrate a completion. */
    method HandleTaskUpdated(updated: TaskView)
      modifies this`data, this`editingTask, this`showCelebration
      ensures data == Updated(old(data), updated)
      ensures editingTask == None
      ensures showCelebration == (old(showCelebration) || UpdateCelebrates(old(data), updated))
    {
      var celebrate := UpdateCelebrates(data, updated);
      data := Updated(data, updated);
      editingTask := None;
      if celebrate {
        showCelebration := true;
      }
    }

    /** `handleTaskDeleted`: patch the data. */
    method HandleTaskDeleted(id: string)
      modifies this`data
      ensures data == Deleted(old(data), id)
    {
      data := Deleted(data, id);
    }

    /** The tasks the active tab shows; none before the data arrives. */
    function FilteredTasks(): seq<TaskView>
      reads this
    {
      if data.None? then [] else TabTasks(data.value.tasks, activeTab)
    }
  }
}
