/**
 * The deterministic prioritizer: each open task's priority is raised from
 * the urgency of its due date and, during working hours, from a work-like
 * category name; the tasks whose priority changed are written back and
 * reported.
 */
module Prioritize {
  import opened Wrappers
  import opened Text
  import opened Db

  const OneDayMs: int := 24 * 60 * 60 * 1000

  /** Category names containing one of these (after lowercasing) are work-like. */
  const WorkCategories: seq<string> := ["work", "professional", "business", "project"]

  function Max(a: int, b: int): int {
    if a >= b then a else b
  }

  /**
   * The due-date rule. `daysUntilDue = (due - now) / oneDayMs` is compared
   * with 0, 1 and 3, which is comparing `due - now` with 0, one day and
   * three days.
   */
  function DueDateRule(priority: int, dueDate: Option<int>, now: int): int {
    match dueDate
      case None => priority
      case Some(due) =>
        if due - now < 0 then 4
        else if due - now <= OneDayMs then Max(priority, 3)
        else if due - now <= 3 * OneDayMs then Max(priority, 2)
        else priority
  }

  predicate InWorkHours(hour: int) {
    9 <= hour <= 17
  }

  predicate IsWorkCategory(name: string) {
    exists k :: 0 <= k < |WorkCategories| && Contains(ToLower(name), WorkCategories[k])
  }

  /** The priority one pass of the loop body computes for one task. */
  function NewPriority(priority: int, dueDate: Option<int>, now: int, hour: int, categoryName: string): int {
    var p := DueDateRule(priority, dueDate, now);
    if InWorkHours(hour) && IsWorkCategory(categoryName) then Max(p, 2) else p
  }

  predicate Overdue(dueDate: Option<int>, now: int) {
    dueDate.Some? && dueDate.value - now < 0
  }

  predicate NoRuleApplies(dueDate: Option<int>, now: int, hour: int, categoryName: string) {
    (dueDate.None? || dueDate.value - now > 3 * OneDayMs) && !(InWorkHours(hour) && IsWorkCategory(categoryName))
  }

  /**
   * What each rule promises: overdue means 4; due within a day means at
   * least 3, within three days at least 2, a work category in working hours
   * at least 2; apart from the overdue case the priority never drops and
   * only ever becomes 2 or 3; when no rule applies it stays as it was.
   */
  lemma PriorityRules(priority: int, dueDate: Option<int>, now: int, hour: int, categoryName: string)
    ensures var r := NewPriority(priority, dueDate, now, hour, categoryName);
      && (Overdue(dueDate, now) ==> r == 4)
      && (dueDate.Some? && 0 <= dueDate.value - now <= OneDayMs ==> r == Max(priority, 3) || r == Max(Max(priority, 3), 2))
      && (dueDate.Some? && 0 <= dueDate.value - now <= OneDayMs ==> r >= 3)
      && (dueDate.Some? && OneDayMs < dueDate.value - now <= 3 * OneDayMs ==> r >= 2)
      && (InWorkHours(hour) && IsWorkCategory(categoryName) ==> r >= 2)
      && (!Overdue(dueDate, now) ==> r >= priority && (r == priority || r == 2 || r == 3))
      && (NoRuleApplies(dueDate, now, hour, categoryName) ==> r == priority)
  {
  }

  /** Priorities in [1, 4] stay in [1, 4] and never decrease. */
  lemma PriorityStaysInRange(priority: int, dueDate: Option<int>, now: int, hour: int, categoryName: string)
    requires 1 <= priority <= 4
    ensures var r := NewPriority(priority, dueDate, now, hour, categoryName);
      priority <= r <= 4
  {
  }

  /** Applying the rules to their own result changes nothing. */
  lemma NewPriorityIdempotent(priority: int, dueDate: Option<int>, now: int, hour: int, categoryName: string)
    ensures var r := NewPriority(priority, dueDate, now, hour, categoryName);
      NewPriority(r, dueDate, now, hour, categoryName) == r
  {
  }

  /** One entry of the response's `tasks` list. */
  datatype PriorityUpdate = PriorityUpdate(id: string, title: string, oldPriority: int, newPriority: int)

  /** The priority the loop computes for a stored task (its category looked up). */
  function Proposed(t: TaskRow, categories: map<string, CategoryRow>, now: int, hour: int): int
    requires t.categoryId in categories
  {
    NewPriority(t.priority, t.dueDate, now, hour, categories[t.categoryId].name)
  }

  predicate Fetchable(tasks: map<string, TaskRow>, categories: map<string, CategoryRow>, ids: seq<string>) {
    forall k :: 0 <= k < |ids| ==> ids[k] in tasks && tasks[ids[k]].categoryId in categories
  }

  /** Reference definition of the reported updates: the changed tasks, in input order. */
  function Updates(tasks: map<string, TaskRow>, categories: map<string, CategoryRow>, ids: seq<string>, now: int, hour: int): (r: seq<PriorityUpdate>)
    requires Fetchable(tasks, categories, ids)
    ensures |r| <= |ids|
    ensures forall k :: 0 <= k < |r| ==>
      && r[k].id in ids
      && r[k].title == tasks[r[k].id].title
      && r[k].oldPriority == tasks[r[k].id].priority
      && r[k].newPriority == Proposed(tasks[r[k].id], categories, now, hour)
      && r[k].oldPriority != r[k].newPriority
    decreases |ids|
  {
    if ids == [] then []
    else
      var front := ids[..|ids| - 1];
      var t := tasks[ids[|ids| - 1]];
      var p := Proposed(t, categories, now, hour);
      assert forall k :: 0 <= k < |front| ==> front[k] == ids[k];
      var r0 := Updates(tasks, categories, front, now, hour);
      var r := r0 + if p != t.priority then [PriorityUpdate(ids[|ids| - 1], t.title, t.priority, p)] else [];
      assert forall k :: 0 <= k < |r0| ==> r[k] == r0[k];
      r
  }

  /** Every fetched task whose priority changes is reported. */
  lemma {:induction false} UpdatesComplete(tasks: map<string, TaskRow>, categories: map<string, CategoryRow>, ids: seq<string>, now: int, hour: int, j: int)
    requires Fetchable(tasks, categories, ids)
    requires 0 <= j < |ids| && Proposed(tasks[ids[j]], categories, now, hour) != tasks[ids[j]].priority
    ensures exists k :: 0 <= k < |Updates(tasks, categories, ids, now, hour)| &&
                        Updates(tasks, categories, ids, now, hour)[k].id == ids[j]
    decreases |ids|
  {
    var front := ids[..|ids| - 1];
    assert forall k :: 0 <= k < |front| ==> front[k] == ids[k];
    var r0 := Updates(tasks, categories, front, now, hour);
    var r := Updates(tasks, categories, ids, now, hour);
    assert forall k :: 0 <= k < |r0| ==> r[k] == r0[k];
    if j < |ids| - 1 {
      UpdatesComplete(tasks, categories, front, now, hour, j);
      var k :| 0 <= k < |r0| && r0[k].id == front[j];
      assert r[k].id == ids[j];
    } else {
      assert r[|r0|].id == ids[j];
    }
  }

  lemma PrefixMembers(ids: seq<string>, i: int)
    requires 0 <= i < |ids|
    ensures forall x :: x in ids[..i + 1] <==> x in ids[..i] || x == ids[i]
  {
    assert ids[..i + 1] == ids[..i] + [ids[i]];
  }

  /** One step of the loop, on the reference definitions. */
  lemma LoopStep(tasks: map<string, TaskRow>, categories: map<string, CategoryRow>, ids: seq<string>, i: int, now: int, hour: int)
    requires Fetchable(tasks, categories, ids) && 0 <= i < |ids|
    ensures Fetchable(tasks, categories, ids[..i + 1])
    ensures var before := Reprioritized(tasks, categories, ids[..i], now, hour);
      var t := tasks[ids[i]];
      var p := Proposed(t, categories, now, hour);
      && Reprioritized(tasks, categories, ids[..i + 1], now, hour) ==
           (if p != t.priority then before[ids[i] := before[ids[i]].(priority := p)] else before)
      && Updates(tasks, categories, ids[..i + 1], now, hour) ==
           Updates(tasks, categories, ids[..i], now, hour) +
           (if p != t.priority then [PriorityUpdate(ids[i], t.title, t.priority, p)] else [])
  {
    PrefixMembers(ids, i);
    assert ids[..i + 1][..i] == ids[..i];
  }

  /** The task table after the loop: every fetched task holds its proposed priority. */
  function Reprioritized(tasks: map<string, TaskRow>, categories: map<string, CategoryRow>, ids: seq<string>, now: int, hour: int): (r: map<string, TaskRow>)
    ensures r.Keys == tasks.Keys
  {
    map id | id in tasks :: if id in ids && tasks[id].categoryId in categories
      then tasks[id].(priority := Proposed(tasks[id], categories, now, hour))
      else tasks[id]
  }

  /**
   * `POST /api/prioritize` after authentication and the query: `fetched`
   * holds the ids of the user's open tasks; each changed task is written and
   * reported.
   */
  method PrioritizeTasks(db: Database, fetched: seq<string>, now: int, hour: int) returns (updated: seq<PriorityUpdate>)
    requires Fetchable(db.tasks, db.categories, fetched)
    modifies db`tasks
    ensures updated == Updates(old(db.tasks), db.categories, fetched, now, hour)
    ensures db.tasks == Reprioritized(old(db.tasks), db.categories, fetched, now, hour)
  {
    if |fetched| == 0 {
      assert Reprioritized(db.tasks, db.categories, fetched, now, hour) == db.tasks;
      return [];
    }
    var snapshot := db.tasks;
    updated := [];
    var i := 0;
    while i < |fetched|
      invariant 0 <= i <= |fetched|
      invariant updated == Updates(snapshot, db.categories, fetched[..i], now, hour)
      invariant db.tasks == Reprioritized(snapshot, db.categories, fetched[..i], now, hour)
    {
      var id := fetched[i];
      var task := snapshot[id];
      var category := db.categories[task.categoryId];
      var newPriority := NewPriority(task.priority, task.dueDate, now, hour, category.name);
      LoopStep(snapshot, db.categories, fetched, i, now, hour);
      if newPriority != task.priority {
        db.tasks := db.tasks[id := db.tasks[id].(priority := newPriority)];
        updated := updated + [PriorityUpdate(id, task.title, task.priority, newPriority)];
      }
      i := i + 1;
    }
    assert fetched[..i] == fetched;
  }

  /**
   * Running the prioritizer again at the same instant reports nothing and
   * writes nothing new.
   */
  lemma {:induction false} SecondRunIsEmpty(tasks: map<string, TaskRow>, categories: map<string, CategoryRow>, ids: seq<string>, now: int, hour: int)
    requires Fetchable(tasks, categories, ids)
    ensures Fetchable(Reprioritized(tasks, categories, ids, now, hour), categories, ids)
    ensures Updates(Reprioritized(tasks, categories, ids, now, hour), categories, ids, now, hour) == []
    ensures Reprioritized(Reprioritized(tasks, categories, ids, now, hour), categories, ids, now, hour)
         == Reprioritized(tasks, categories, ids, now, hour)
  {
    var once := Reprioritized(tasks, categories, ids, now, hour);
    forall id | id in ids
      ensures Proposed(once[id], categories, now, hour) == once[id].priority
    {
      var t := tasks[id];
      NewPriorityIdempotent(t.priority, t.dueDate, now, hour, categories[t.categoryId].name);
    }
    var u := Updates(once, categories, ids, now, hour);
    if u != [] {
      assert u[0].id in ids;
    }
  }
}
