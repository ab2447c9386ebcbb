/**
 * The productivity score, the completion streak and the recomputation of
 * today's derived `DailyStats` fields.
 */
module Productivity {
  import opened Wrappers
  import opened Db

  /** The streak query fetches at most this many rows (`take: 30`). */
  const StreakLookback: nat := 30

  // ---------------------------------------------------------------------
  // calculateProductivityScore

  /** `Math.min(streakDays * 2, 20)`. */
  function ConsistencyScore(streakDays: int): int {
    if streakDays * 2 < 20 then streakDays * 2 else 20
  }

  /** `Math.min(todayCompleted * 3, 10)`. */
  function TodayScore(todayCompleted: int): int {
    if todayCompleted * 3 < 10 then todayCompleted * 3 else 10
  }

  /** `Math.max(tasksCreated, 1)`: the denominator of the completion rate. */
  function RateDenominator(tasksCreated: int): int {
    if tasksCreated > 1 then tasksCreated else 1
  }

  /**
   * The completion-rate term `Math.min(c / d, 1) * 30` is exactly
   * `RateNumerator(c, t) / RateDenominator(t)`, since `min(c/d, 1) == min(c, d)/d`.
   */
  function RateNumerator(tasksCompleted: int, tasksCreated: int): int {
    var d := RateDenominator(tasksCreated);
    30 * (if tasksCompleted < d then tasksCompleted else d)
  }

  /** `Math.round(n / d)` for d > 0: the floor of n/d + 1/2. */
  function RoundRatio(n: int, d: int): int
    requires d > 0
  {
    (2 * n + d) / (2 * d)
  }

  /**
   * `calculateProductivityScore`: 4 points per completed task, up to 30 for the
   * completion rate, up to 20 for the streak and up to 10 for today's
   * completions, rounded half up and capped at 100.
   */
  function Score(tasksCompleted: int, tasksCreated: int, streakDays: int, todayCompleted: int): (r: int)
    ensures r <= 100
  {
    var rounded := ScaledRound(WholePoints(tasksCompleted, streakDays, todayCompleted),
      RateNumerator(tasksCompleted, tasksCreated), RateDenominator(tasksCreated));
    if rounded < 100 then rounded else 100
  }

  /** The whole-number points: 4 per completed task plus the two capped bonuses. */
  function WholePoints(tasksCompleted: int, streakDays: int, todayCompleted: int): int {
    tasksCompleted * 4 + ConsistencyScore(streakDays) + TodayScore(todayCompleted)
  }

  /** `Math.round(whole + numerator / d)`, computed over the common denominator d. */
  function ScaledRound(whole: int, numerator: int, d: int): int
    requires d > 0
  {
    RoundRatio(whole * d + numerator, d)
  }

  lemma MulCancel(d: int, x: int, y: int)
    requires d > 0 && d * x < d * y
    ensures x < y
  {
  }

  lemma MulMonotone(x: int, y: int, d: int)
    requires x <= y && d >= 0
    ensures x * d <= y * d
  {
    assert (y - x) * d >= 0;
  }

  lemma DivMonotone(a: int, b: int, d: int)
    requires d > 0 && a <= b
    ensures a / d <= b / d
  {
    assert d * (a / d) <= a;
    assert b < d * (b / d + 1);
    MulCancel(d, a / d, b / d + 1);
  }

  lemma DivAtLeast(n: int, d: int, k: int)
    requires d > 0 && n >= k * d
    ensures n / d >= k
  {
    assert n < d * (n / d + 1);
    assert d * (k - 1) < d * (n / d) by {
      assert d * (k - 1) == k * d - d;
    }
    MulCancel(d, k - 1, n / d);
  }

  /** Each bonus term stays within its cap. */
  lemma TermBounds(tasksCompleted: int, tasksCreated: int, streakDays: int, todayCompleted: int)
    ensures ConsistencyScore(streakDays) <= 20
    ensures TodayScore(todayCompleted) <= 10
    ensures tasksCompleted >= 0 ==>
      0 <= RateNumerator(tasksCompleted, tasksCreated) <= 30 * RateDenominator(tasksCreated)
  {
  }

  /** Whole points of at least k with a non-negative numerator round to at least k. */
  lemma ScaledRoundAtLeast(w: int, r: int, d: int, k: int)
    requires d > 0 && w >= k && r >= 0
    ensures ScaledRound(w, r, d) >= k
  {
    MulMonotone(k, w, d);
    assert 2 * (w * d + r) + d >= k * (2 * d);
    DivAtLeast(2 * (w * d + r) + d, 2 * d, k);
  }

  /** For non-negative inputs the score lies in [0, 100]. */
  lemma ScoreInRange(tasksCompleted: int, tasksCreated: int, streakDays: int, todayCompleted: int)
    requires tasksCompleted >= 0 && tasksCreated >= 0 && streakDays >= 0 && todayCompleted >= 0
    ensures 0 <= Score(tasksCompleted, tasksCreated, streakDays, todayCompleted) <= 100
  {
    assert WholePoints(tasksCompleted, streakDays, todayCompleted) >= 0;
    ScaledRoundAtLeast(WholePoints(tasksCompleted, streakDays, todayCompleted),
      RateNumerator(tasksCompleted, tasksCreated), RateDenominator(tasksCreated), 0);
  }

  /** Nothing done and nothing created scores 0. */
  lemma ScoreOfNothing()
    ensures Score(0, 0, 0, 0) == 0
  {
  }

  /** 25 or more completed tasks alone reach the cap. */
  lemma ScoreSaturates(tasksCompleted: int, tasksCreated: int, streakDays: int, todayCompleted: int)
    requires tasksCompleted >= 25 && tasksCreated >= 0 && streakDays >= 0 && todayCompleted >= 0
    ensures Score(tasksCompleted, tasksCreated, streakDays, todayCompleted) == 100
  {
    assert WholePoints(tasksCompleted, streakDays, todayCompleted) >= 100;
    ScaledRoundAtLeast(WholePoints(tasksCompleted, streakDays, todayCompleted),
      RateNumerator(tasksCompleted, tasksCreated), RateDenominator(tasksCreated), 100);
  }

  /** The rounded score before the cap grows with the whole points and with the rate numerator. */
  lemma RoundedMonotone(w1: int, w2: int, r1: int, r2: int, d: int)
    requires d > 0 && w1 <= w2 && r1 <= r2
    ensures ScaledRound(w1, r1, d) <= ScaledRound(w2, r2, d)
  {
    MulMonotone(w1, w2, d);
    DivMonotone(2 * (w1 * d + r1) + d, 2 * (w2 * d + r2) + d, 2 * d);
  }

  /** With the other inputs fixed, completing more tasks never lowers the score. */
  lemma ScoreMonotoneInCompleted(c1: int, c2: int, tasksCreated: int, streakDays: int, todayCompleted: int)
    requires c1 <= c2
    ensures Score(c1, tasksCreated, streakDays, todayCompleted) <= Score(c2, tasksCreated, streakDays, todayCompleted)
  {
    assert RateNumerator(c1, tasksCreated) <= RateNumerator(c2, tasksCreated);
    RoundedMonotone(WholePoints(c1, streakDays, todayCompleted), WholePoints(c2, streakDays, todayCompleted),
      RateNumerator(c1, tasksCreated), RateNumerator(c2, tasksCreated), RateDenominator(tasksCreated));
  }

  /**
   * As called by the updater, with today's completions passed twice, the
   * score is still non-decreasing in the number of completed tasks.
   */
  lemma ScoreMonotoneAsCalled(c1: int, c2: int, tasksCreated: int, streakDays: int)
    requires c1 <= c2
    ensures Score(c1, tasksCreated, streakDays, c1) <= Score(c2, tasksCreated, streakDays, c2)
  {
    assert WholePoints(c1, streakDays, c1) <= WholePoints(c2, streakDays, c2);
    assert RateNumerator(c1, tasksCreated) <= RateNumerator(c2, tasksCreated);
    RoundedMonotone(WholePoints(c1, streakDays, c1), WholePoints(c2, streakDays, c2),
      RateNumerator(c1, tasksCreated), RateNumerator(c2, tasksCreated), RateDenominator(tasksCreated));
  }

  // ---------------------------------------------------------------------
  // calculateStreakDays

  /** Some fetched row is dated d and has at least one completion. */
  predicate Qualifies(rows: seq<DayRow>, d: int) {
    exists i :: 0 <= i < |rows| && rows[i].date == d && rows[i].stats.tasksCompleted > 0
  }

  /**
   * Reference definition: the number of consecutive qualifying days ending
   * at day d, reading newest-first rows and stopping at the first row that
   * does not continue the run.
   */
  function RunFrom(rows: seq<DayRow>, d: int): (n: nat)
    ensures n <= |rows|
  {
    if rows == [] then 0
    else if rows[0].date > d then RunFrom(rows[1..], d)
    else if rows[0].date == d && rows[0].stats.tasksCompleted > 0 then 1 + RunFrom(rows[1..], d - 1)
    else 0
  }

  /** The run ends at today if today qualifies, otherwise at yesterday. */
  function Anchor(rows: seq<DayRow>, today: int): int {
    if Qualifies(rows, today) then today else today - 1
  }

  function Streak(rows: seq<DayRow>, today: int): nat {
    RunFrom(rows, Anchor(rows, today))
  }

  lemma QualifiesUnfold(rows: seq<DayRow>, d: int)
    requires rows != []
    ensures Qualifies(rows, d) <==>
      (rows[0].date == d && rows[0].stats.tasksCompleted > 0) || Qualifies(rows[1..], d)
  {
    if Qualifies(rows, d) && !(rows[0].date == d && rows[0].stats.tasksCompleted > 0) {
      var i :| 0 <= i < |rows| && rows[i].date == d && rows[i].stats.tasksCompleted > 0;
      assert rows[1..][i - 1] == rows[i];
    }
    if Qualifies(rows[1..], d) {
      var i :| 0 <= i < |rows[1..]| && rows[1..][i].date == d && rows[1..][i].stats.tasksCompleted > 0;
      assert rows[i + 1] == rows[1..][i];
    }
  }

  /** No row of a newest-first sequence is newer than its first row. */
  lemma NothingNewerThanHead(rows: seq<DayRow>, d: int)
    requires NewestFirst(rows) && rows != [] && rows[0].date <= d
    ensures !Qualifies(rows[1..], d)
  {
    assert forall i :: 0 <= i < |rows[1..]| ==> rows[1..][i].date < rows[0].date by {
      forall i | 0 <= i < |rows[1..]| ensures rows[1..][i].date < rows[0].date {
        assert rows[1..][i] == rows[i + 1];
      }
    }
  }

  /**
   * On newest-first rows `RunFrom(rows, d)` is exactly the length of the run
   * of qualifying days d, d-1, ...: every day of the run qualifies and the day
   * before it does not (a zero-completion row and a missing row both end it).
   */
  lemma {:induction false} RunFromIsConsecutiveRun(rows: seq<DayRow>, d: int)
    requires NewestFirst(rows)
    ensures forall e :: d - RunFrom(rows, d) < e <= d ==> Qualifies(rows, e)
    ensures !Qualifies(rows, d - RunFrom(rows, d))
    decreases |rows|
  {
    if rows != [] {
      var tail := rows[1..];
      var r := RunFrom(rows, d);
      if rows[0].date > d {
        RunFromIsConsecutiveRun(tail, d);
        forall e | d - r < e <= d ensures Qualifies(rows, e) {
          QualifiesUnfold(rows, e);
        }
        QualifiesUnfold(rows, d - r);
      } else if rows[0].date == d && rows[0].stats.tasksCompleted > 0 {
        RunFromIsConsecutiveRun(tail, d - 1);
        forall e | d - r < e <= d ensures Qualifies(rows, e) {
          QualifiesUnfold(rows, e);
        }
        QualifiesUnfold(rows, d - r);
      } else {
        QualifiesUnfold(rows, d);
        NothingNewerThanHead(rows, d);
      }
    }
  }

  /** A qualifying day extends the run ending the day before by one. */
  lemma {:induction false} RunFromStep(rows: seq<DayRow>, d: int)
    requires NewestFirst(rows) && Qualifies(rows, d)
    ensures RunFrom(rows, d) == 1 + RunFrom(rows, d - 1)
    decreases |rows|
  {
    QualifiesUnfold(rows, d);
    if rows[0].date > d {
      RunFromStep(rows[1..], d);
    } else if rows[0].date == d {
      NothingNewerThanHead(rows, d);
    } else {
      NothingNewerThanHead(rows, d);
    }
  }

  /** `Array.prototype.find` on the date: the index of the first row dated d. */
  function FindOnDate(rows: seq<DayRow>, d: int): (r: Option<nat>)
    ensures r.Some? ==> r.value < |rows| && rows[r.value].date == d &&
                        forall j :: 0 <= j < r.value ==> rows[j].date != d
    ensures r.None? ==> forall j :: 0 <= j < |rows| ==> rows[j].date != d
    decreases |rows|
  {
    if rows == [] then None
    else if rows[0].date == d then Some(0)
    else match FindOnDate(rows[1..], d)
      case None => None
      case Some(k) => Some(k + 1)
  }

  /** How one row of newest-first rows moves the reference count: skipped, counted, or the end of the run. */
  lemma ScanStep(rows: seq<DayRow>, i: int, d: int)
    requires NewestFirst(rows) && 0 <= i < |rows|
    ensures rows[i].date > d ==> RunFrom(rows[i..], d) == RunFrom(rows[i + 1..], d)
    ensures rows[i].date == d && rows[i].stats.tasksCompleted > 0 ==>
      RunFrom(rows[i..], d) == 1 + RunFrom(rows[i + 1..], d - 1)
    ensures rows[i].date <= d && !(rows[i].date == d && rows[i].stats.tasksCompleted > 0) ==>
      RunFrom(rows[i..], d) == 0 && RunFrom(rows[i + 1..], d) == 0
  {
    assert rows[i..][0] == rows[i] && rows[i..][1..] == rows[i + 1..];
    if i + 1 < |rows| {
      assert rows[i + 1..][0] == rows[i + 1];
    }
  }

  /**
   * `calculateStreakDays` over the fetched rows: count today if today's row
   * has completions, then walk the rows counting consecutive earlier days
   * with completions, stopping at a day whose row has none.
   */
  method CalculateStreakDays(fetched: seq<DayRow>, today: int) returns (streakDays: nat)
    ensures streakDays <= |fetched|
    ensures NewestFirst(fetched) ==> streakDays == Streak(fetched, today)
  {
    if |fetched| == 0 {
      return 0;
    }
    streakDays := 0;
    var yesterday := today - 1;
    var currentDate := today;
    var hasFoundToday := false;
    var todayStats := FindOnDate(fetched, today);
    var todayCounts := todayStats.Some? && fetched[todayStats.value].stats.tasksCompleted > 0;
    ghost var t := if todayStats.Some? then todayStats.value else 0;
    if todayCounts {
      hasFoundToday := true;
      streakDays := 1;
      currentDate := today - 1;
      if NewestFirst(fetched) {
        RunFromStep(fetched, today);
      }
    } else {
      currentDate := yesterday;
      assert NewestFirst(fetched) ==> !Qualifies(fetched, today);
    }
    assert fetched[0..] == fetched;
    var i := 0;
    while i < |fetched|
      invariant 0 <= i <= |fetched|
      invariant currentDate < today
      invariant !hasFoundToday ==> streakDays == 0
      invariant streakDays <= i + (if todayCounts && t >= i then 1 else 0)
      invariant NewestFirst(fetched) ==>
        streakDays + RunFrom(fetched[i..], currentDate) == Streak(fetched, today)
    {
      var stat := fetched[i];
      if NewestFirst(fetched) {
        ScanStep(fetched, i, currentDate);
      }
      if stat.date == currentDate && stat.stats.tasksCompleted > 0 {
        if !hasFoundToday {
          hasFoundToday := true;
          streakDays := 1;
        } else {
          streakDays := streakDays + 1;
        }
        currentDate := currentDate - 1;
      } else if stat.date == currentDate && stat.stats.tasksCompleted == 0 {
        break;
      }
      i := i + 1;
    }
  }

  // ---------------------------------------------------------------------
  // updateProductivityScore

  /**
   * Where a database call of the recomputation throws: nowhere; in the
   * streak query, which `calculateStreakDays` catches and answers with a
   * streak of 0; or in the `findUnique`, `create` or `update` of
   * `updateProductivityScore`, which it catches before anything is written.
   */
  datatype StatsFault = NoFault | StreakQueryThrows | StatsCallThrows

  /** Today's row with the given streak and the score computed from its counters and that streak. */
  function RecomputedWith(m: map<StatsKey, DailyStats>, user: string, today: int, streak: int): map<StatsKey, DailyStats>
    requires (user, today) in m
  {
    var row := m[(user, today)];
    var score := Score(row.tasksCompleted, row.tasksCreated, streak, row.tasksCompleted);
    m[(user, today) := row.(streakDays := streak, productivityScore := score)]
  }

  /** Today's row with its streak and score recomputed from its counters. */
  function Recomputed(m: map<StatsKey, DailyStats>, user: string, today: int): map<StatsKey, DailyStats>
    requires (user, today) in m
  {
    RecomputedWith(m, user, today, Streak(RecentRows(m, user, StreakLookback), today))
  }

  /**
   * `updateProductivityScore`: without a row for today, create an all-zero
   * row and stop; otherwise rewrite today's streak and score. A failing
   * streak query gives a streak of 0; any other failing call is caught and
   * leaves the table as it was.
   */
  method UpdateProductivityScore(db: Database, user: string, today: int, fault: StatsFault)
    modifies db`dailyStats
    ensures fault == StatsCallThrows ==> db.dailyStats == old(db.dailyStats)
    ensures fault != StatsCallThrows && (user, today) !in old(db.dailyStats) ==>
      db.dailyStats == old(db.dailyStats)[(user, today) := ZeroStats]
    ensures fault == NoFault && (user, today) in old(db.dailyStats) ==>
      db.dailyStats == Recomputed(old(db.dailyStats), user, today)
    ensures fault == StreakQueryThrows && (user, today) in old(db.dailyStats) ==>
      db.dailyStats == RecomputedWith(old(db.dailyStats), user, today, 0)
  {
    if fault == StatsCallThrows {
      return;
    }
    if (user, today) !in db.dailyStats {
      db.dailyStats := db.dailyStats[(user, today) := ZeroStats];
      return;
    }
    var todayStats := db.dailyStats[(user, today)];
    var streakDays: nat := 0;
    if fault != StreakQueryThrows {
      var fetched := RecentRows(db.dailyStats, user, StreakLookback);
      streakDays := CalculateStreakDays(fetched, today);
    }
    var todayCompleted := todayStats.tasksCompleted;
    var productivityScore := Score(todayStats.tasksCompleted, todayStats.tasksCreated, streakDays, todayCompleted);
    db.dailyStats := db.dailyStats[(user, today) := todayStats.(streakDays := streakDays, productivityScore := productivityScore)];
  }

  /**
   * Recomputing touches only today's derived fields: the counters and every
   * other row stay, the streak is at most the number of rows fetched, and
   * with non-negative counters the score lies in [0, 100].
   */
  lemma RecomputedChangesOnlyDerived(m: map<StatsKey, DailyStats>, user: string, today: int)
    requires (user, today) in m
    ensures var r := Recomputed(m, user, today);
      && r.Keys == m.Keys
      && (forall k :: k in m && k != (user, today) ==> r[k] == m[k])
      && r[(user, today)].tasksCompleted == m[(user, today)].tasksCompleted
      && r[(user, today)].tasksCreated == m[(user, today)].tasksCreated
      && 0 <= r[(user, today)].streakDays <= StreakLookback
      && (m[(user, today)].tasksCompleted >= 0 && m[(user, today)].tasksCreated >= 0 ==>
            0 <= r[(user, today)].productivityScore <= 100)
  {
    var row := m[(user, today)];
    var streak := Streak(RecentRows(m, user, StreakLookback), today);
    if row.tasksCompleted >= 0 && row.tasksCreated >= 0 {
      ScoreInRange(row.tasksCompleted, row.tasksCreated, streak, row.tasksCompleted);
    }
  }

  /**
   * Rewriting today's row with any streak in [0, 30], the failed query's 0
   * included, keeps the counters and every other row, and with
   * non-negative counters the score lies in [0, 100].
   */
  lemma RecomputedWithKeepsCounters(m: map<StatsKey, DailyStats>, user: string, today: int, streak: int)
    requires (user, today) in m && 0 <= streak <= StreakLookback
    ensures var r := RecomputedWith(m, user, today, streak);
      && r.Keys == m.Keys
      && (forall k :: k in m && k != (user, today) ==> r[k] == m[k])
      && r[(user, today)].tasksCompleted == m[(user, today)].tasksCompleted
      && r[(user, today)].tasksCreated == m[(user, today)].tasksCreated
      && r[(user, today)].streakDays == streak
      && (m[(user, today)].tasksCompleted >= 0 && m[(user, today)].tasksCreated >= 0 ==>
            0 <= r[(user, today)].productivityScore <= 100)
  {
    var row := m[(user, today)];
    if row.tasksCompleted >= 0 && row.tasksCreated >= 0 {
      ScoreInRange(row.tasksCompleted, row.tasksCreated, streak, row.tasksCompleted);
    }
  }

  /** The streak reads only the dates and completion counts of the rows. */
  lemma {:induction false} RunFromReadsCompletions(a: seq<DayRow>, b: seq<DayRow>, d: int)
    requires |a| == |b|
    requires forall i :: 0 <= i < |a| ==> a[i].date == b[i].date && a[i].stats.tasksCompleted == b[i].stats.tasksCompleted
    ensures RunFrom(a, d) == RunFrom(b, d)
    decreases |a|
  {
    if a != [] {
      RunFromReadsCompletions(a[1..], b[1..], d);
      RunFromReadsCompletions(a[1..], b[1..], d - 1);
    }
  }

  lemma StreakReadsCompletions(a: seq<DayRow>, b: seq<DayRow>, today: int)
    requires |a| == |b|
    requires forall i :: 0 <= i < |a| ==> a[i].date == b[i].date && a[i].stats.tasksCompleted == b[i].stats.tasksCompleted
    ensures Streak(a, today) == Streak(b, today)
  {
    assert Qualifies(a, today) == Qualifies(b, today);
    RunFromReadsCompletions(a, b, Anchor(a, today));
  }

  /** Recomputing twice without a counter change rewrites the same values. */
  lemma RecomputeIdempotent(m: map<StatsKey, DailyStats>, user: string, today: int)
    requires (user, today) in m
    ensures Recomputed(Recomputed(m, user, today), user, today) == Recomputed(m, user, today)
  {
    var m1 := Recomputed(m, user, today);
    assert UserDays(m1, user) == UserDays(m, user);
    var a := RecentRows(m, user, StreakLookback);
    var b := RecentRows(m1, user, StreakLookback);
    StreakReadsCompletions(a, b, today);
  }
}
