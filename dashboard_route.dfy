/**
 * The statistics `GET /api/dashboard` computes over the user's tasks and
 * newest `DailyStats` row.
 */
module DashboardRoute {
  import opened Wrappers
  import opened Db
  import opened Seqs

  datatype DashboardStats = DashboardStats(
    totalTasks: nat,
    completed: nat,
    inProgress: nat,
    todo: nat,
    todayCompleted: nat,
    streakDays: int,
    productivityScore: int)

  /** `tasks.filter(t => t.status === status).length`. */
  function CountStatus(tasks: seq<TaskRow>, status: string): (n: nat)
    ensures n <= |tasks|
  {
    if tasks == [] then 0
    else (if tasks[0].status == status then 1 else 0) + CountStatus(tasks[1..], status)
  }

  /** `tasks.filter(t => t.completedAt && completedAt >= todayStart).length`. */
  function CountCompletedSince(tasks: seq<TaskRow>, todayStart: int): (n: nat)
    ensures n <= |tasks|
  {
    if tasks == [] then 0
    else (if tasks[0].completedAt.Some? && tasks[0].completedAt.value >= todayStart then 1 else 0)
         + CountCompletedSince(tasks[1..], todayStart)
  }

  predicate CompletedSince(t: TaskRow, todayStart: int) {
    t.completedAt.Some? && t.completedAt.value >= todayStart
  }

  /** Today's completions are the number of tasks the `filter` keeps. */
  lemma {:induction false} CountCompletedSinceIsFilter(tasks: seq<TaskRow>, todayStart: int)
    ensures CountCompletedSince(tasks, todayStart) == |Filter(tasks, t => CompletedSince(t, todayStart))|
    decreases |tasks|
  {
    if tasks != [] {
      CountCompletedSinceIsFilter(tasks[1..], todayStart);
    }
  }

  /** `dailyStats.findFirst({ where: { userId }, orderBy: { date: 'desc' } })`. */
  function LatestStats(m: map<StatsKey, DailyStats>, user: string): Option<DailyStats> {
    var rows := RecentRows(m, user, 1);
    if rows == [] then None else Some(rows[0].stats)
  }

  /** The `stats` object of the response; `latest?.field || 0`. */
  function Stats(tasks: seq<TaskRow>, m: map<StatsKey, DailyStats>, user: string, todayStart: int): DashboardStats {
    var latest := LatestStats(m, user);
    DashboardStats(
      |tasks|,
      CountStatus(tasks, "completed"),
      CountStatus(tasks, "in_progress"),
      CountStatus(tasks, "todo"),
      CountCompletedSince(tasks, todayStart),
      if latest.Some? then latest.value.streakDays else 0,
      if latest.Some? then latest.value.productivityScore else 0)
  }

  function Statuses(tasks: seq<TaskRow>): (r: seq<string>)
    ensures |r| == |tasks| && forall i :: 0 <= i < |tasks| ==> r[i] == tasks[i].status
  {
    seq(|tasks|, i requires 0 <= i < |tasks| => tasks[i].status)
  }

  /** Counting by status is the multiplicity of that status among the tasks. */
  lemma {:induction false} CountIsMultiplicity(tasks: seq<TaskRow>, status: string)
    ensures CountStatus(tasks, status) == multiset(Statuses(tasks))[status]
    decreases |tasks|
  {
    if tasks != [] {
      CountIsMultiplicity(tasks[1..], status);
      assert Statuses(tasks) == [tasks[0].status] + Statuses(tasks[1..]);
    }
  }

  /** Tasks of three different statuses are counted apart, so the counts sum to at most the total. */
  lemma {:induction false} CountsPartition(tasks: seq<TaskRow>, a: string, b: string, c: string)
    requires a != b && b != c && a != c
    ensures CountStatus(tasks, a) + CountStatus(tasks, b) + CountStatus(tasks, c) <= |tasks|
    decreases |tasks|
  {
    if tasks != [] {
      CountsPartition(tasks[1..], a, b, c);
    }
  }

  /** The dashboard's counters: completed + in progress + todo never exceed the total. */
  lemma StatusCountsBounded(tasks: seq<TaskRow>, m: map<StatsKey, DailyStats>, user: string, todayStart: int)
    ensures var s := Stats(tasks, m, user, todayStart);
      s.totalTasks == |tasks| && s.completed + s.inProgress + s.todo <= s.totalTasks && s.todayCompleted <= s.totalTasks
  {
    CountsPartition(tasks, "completed", "in_progress", "todo");
  }

  /**
   * The streak and score shown come from the user's newest row: there is
   * one exactly when the user has rows, and no row of the user is newer.
   */
  lemma LatestIsNewest(m: map<StatsKey, DailyStats>, user: string)
    ensures LatestStats(m, user).None? <==> UserDays(m, user) == {}
    ensures LatestStats(m, user).Some? ==>
      exists d :: (user, d) in m && m[(user, d)] == LatestStats(m, user).value &&
                  forall e :: (user, e) in m ==> e <= d
  {
    var rows := RecentRows(m, user, 1);
    if rows != [] {
      var d := rows[0].date;
      forall e | (user, e) in m ensures e <= d {
        RecentRowsAreNewest(m, user, 1, e);
      }
    } else {
      assert |UserDays(m, user)| == 0;
    }
  }
}
