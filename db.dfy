/**
 * The rows the route handlers read and write, and the database that holds
 * them. Each table is a map from its key to its row; an `upsert` is "add to
 * the row if the key is present, else create it". Only the columns the
 * modelled code touches are kept.
 */
module Db {
  import opened Wrappers
  import opened Days

  /** A `Task` row. Statuses are the strings "todo", "in_progress", "completed". */
  datatype TaskRow = TaskRow(
    userId: string,
    title: string,
    description: Option<string>,
    priority: int,
    status: string,
    categoryId: string,
    subjectId: Option<string>,
    dueDate: Option<int>,        // milliseconds since the epoch
    completedAt: Option<int>,    // milliseconds since the epoch
    timeSpent: int)              // minutes

  datatype CategoryRow = CategoryRow(userId: string, name: string, color: string)

  datatype SubjectRow = SubjectRow(userId: string, name: string, totalTime: int)

  /** A `DailyStats` row; its key is (user id, day number). */
  datatype DailyStats = DailyStats(
    tasksCompleted: int,
    tasksCreated: int,
    streakDays: int,
    productivityScore: int)

  /** A `TimerSession` row; times in milliseconds, duration in minutes. */
  datatype TimerSession = TimerSession(
    taskId: string,
    userId: string,
    startTime: int,
    endTime: int,
    duration: int,
    sessionType: string,
    isActive: bool)

  type StatsKey = (string, int)            // (user id, day)
  type StudyKey = (string, string, int)    // (user id, subject id, day)

  const ZeroStats := DailyStats(0, 0, 0, 0)

  class Database {
    var users: map<string, string>                 // e-mail -> user id
    var tasks: map<string, TaskRow>                // task id -> row
    var categories: map<string, CategoryRow>       // category id -> row
    var subjects: map<string, SubjectRow>          // subject id -> row
    var dailyStats: map<StatsKey, DailyStats>
    var studySessions: map<StudyKey, int>          // minutes studied
    var timerSessions: seq<TimerSession>           // in creation order

    constructor ()
      ensures users == map[] && tasks == map[] && categories == map[] && subjects == map[]
      ensures dailyStats == map[] && studySessions == map[] && timerSessions == []
    {
      users, tasks, categories, subjects := map[], map[], map[], map[];
      dailyStats, studySessions, timerSessions := map[], map[], [];
    }
  }

  /** Upsert of a study session: add `minutes`, or create the row with `minutes`. */
  function AddStudyTime(m: map<StudyKey, int>, key: StudyKey, minutes: int): (r: map<StudyKey, int>)
    ensures r.Keys == m.Keys + {key}
    ensures r[key] == (if key in m then m[key] else 0) + minutes
    ensures forall k :: k in m && k != key ==> r[k] == m[k]
  {
    m[key := if key in m then m[key] + minutes else minutes]
  }

  /** `task.update({ data: { timeSpent: { increment: minutes } } })`. */
  function AddTaskTime(tasks: map<string, TaskRow>, id: string, minutes: int): (r: map<string, TaskRow>)
    requires id in tasks
    ensures r.Keys == tasks.Keys
    ensures r[id] == tasks[id].(timeSpent := tasks[id].timeSpent + minutes)
    ensures forall k :: k in tasks && k != id ==> r[k] == tasks[k]
  {
    tasks[id := tasks[id].(timeSpent := tasks[id].timeSpent + minutes)]
  }

  /** `subject.update({ data: { totalTime: { increment: minutes } } })`. */
  function AddSubjectTime(subjects: map<string, SubjectRow>, id: string, minutes: int): (r: map<string, SubjectRow>)
    requires id in subjects
    ensures r.Keys == subjects.Keys
    ensures r[id] == subjects[id].(totalTime := subjects[id].totalTime + minutes)
    ensures forall k :: k in subjects && k != id ==> r[k] == subjects[k]
  {
    subjects[id := subjects[id].(totalTime := subjects[id].totalTime + minutes)]
  }

  // ---------------------------------------------------------------------
  // `dailyStats.findMany({ where: { userId }, orderBy: { date: 'desc' }, take })`

  /** One fetched `DailyStats` row with its date. */
  datatype DayRow = DayRow(date: int, stats: DailyStats)

  predicate NewestFirst(rows: seq<DayRow>) {
    forall i, j :: 0 <= i < j < |rows| ==> rows[i].date > rows[j].date
  }

  function UserDays(m: map<StatsKey, DailyStats>, user: string): (days: set<int>)
    ensures forall d :: d in days <==> (user, d) in m
  {
    set k | k in m && k.0 == user :: k.1
  }

  /**
   * The user's `limit` newest rows, newest first: the rows of the query
   * ordered by date descending with `take: limit`.
   */
  function RecentRows(m: map<StatsKey, DailyStats>, user: string, limit: nat): (rows: seq<DayRow>)
    ensures |rows| == if |UserDays(m, user)| < limit then |UserDays(m, user)| else limit
    ensures NewestFirst(rows)
    ensures forall i :: 0 <= i < |rows| ==> (user, rows[i].date) in m && rows[i].stats == m[(user, rows[i].date)]
  {
    var ds := DaysDesc(UserDays(m, user));
    var n := if |ds| < limit then |ds| else limit;
    seq(n, i requires 0 <= i < n => DayRow(ds[i], m[(user, ds[i])]))
  }

  /**
   * No row of the user is skipped: every row at least as new as the last one
   * fetched is fetched, and when fewer than `limit` rows come back, all did.
   */
  lemma RecentRowsAreNewest(m: map<StatsKey, DailyStats>, user: string, limit: nat, d: int)
    requires (user, d) in m
    ensures var rows := RecentRows(m, user, limit);
      (|rows| < limit || (|rows| > 0 && d >= rows[|rows| - 1].date)) ==>
        exists i :: 0 <= i < |rows| && rows[i].date == d
  {
    var ds := DaysDesc(UserDays(m, user));
    var rows := RecentRows(m, user, limit);
    var n := |rows|;
    var k :| 0 <= k < |ds| && ds[k] == d;
    if n < limit || (n > 0 && d >= rows[n - 1].date) {
      assert rows[k].date == d;
    }
  }
}
