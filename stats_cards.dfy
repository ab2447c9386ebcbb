/**
 * The dashboard's stat cards: the completion rate shown under the task
 * total, and the label and badge variant of the productivity score.
 */
module StatsCards {
  import Productivity

  /**
   * `completionRate`: 0 without tasks, otherwise `Math.round` of the
   * percentage of completed tasks, halves rounded up.
   */
  function CompletionRate(completed: int, totalTasks: int): (rate: int)
    ensures totalTasks <= 0 ==> rate == 0
    ensures totalTasks > 0 ==>
      2 * totalTasks * rate - totalTasks <= 200 * completed < 2 * totalTasks * rate + totalTasks
  {
    if totalTasks > 0 then
      var r := (200 * completed + totalTasks) / (2 * totalTasks);
      assert 2 * totalTasks * r <= 200 * completed + totalTasks < 2 * totalTasks * r + 2 * totalTasks;
      r
    else 0
  }

  /** With no more completed tasks than tasks the rate is a percentage, 100 exactly when all are done. */
  lemma CompletionRateInRange(completed: int, totalTasks: int)
    requires 0 <= completed <= totalTasks
    ensures 0 <= CompletionRate(completed, totalTasks) <= 100
    ensures totalTasks > 0 && completed == totalTasks ==> CompletionRate(completed, totalTasks) == 100
    ensures completed == 0 ==> CompletionRate(completed, totalTasks) == 0
  {
    if totalTasks > 0 {
      var t := totalTasks;
      var r := CompletionRate(completed, t);
      // 200c < t(2r + 1) with 200c >= 0 forces 2r + 1 > 0.
      Productivity.MulCancel(t, 0, 2 * r + 1);
      // t(2r - 1) <= 200c <= 200t < 201t forces 2r - 1 < 201.
      Productivity.MulCancel(t, 2 * r - 1, 201);
      if completed == t {
        Productivity.MulCancel(t, 199, 2 * r + 1);
      }
      if completed == 0 {
        Productivity.MulCancel(t, 2 * r - 1, 1);
      }
    }
  }

  datatype Level = High | Medium | Low
  datatype BadgeVariant = Default | Secondary | Destructive

  /** The score's label: High from 70, Medium from 40, Low below. */
  function ScoreLevel(score: int): Level {
    if score >= 70 then High else if score >= 40 then Medium else Low
  }

  /** The badge variant, by the same thresholds. */
  function ScoreVariant(score: int): BadgeVariant {
    if score >= 70 then Default else if score >= 40 then Secondary else Destructive
  }

  function LevelText(l: Level): string {
    match l
    case High => "High"
    case Medium => "Medium"
    case Low => "Low"
  }

  function Rank(l: Level): int {
    match l
    case Low => 0
    case Medium => 1
    case High => 2
  }

  /** The label's ranges, the variant that goes with each, and the two boundaries. */
  lemma ScoreLabelThresholds(score: int)
    ensures ScoreLevel(score) == High <==> score >= 70
    ensures ScoreLevel(score) == Medium <==> 40 <= score < 70
    ensures ScoreLevel(score) == Low <==> score < 40
    ensures ScoreVariant(score) == (match ScoreLevel(score) case High => Default case Medium => Secondary case Low => Destructive)
    ensures ScoreLevel(70) == High && ScoreLevel(69) == Medium
    ensures ScoreLevel(40) == Medium && ScoreLevel(39) == Low
  {
  }

  /** A higher score never gets a lower label. */
  lemma ScoreLevelMonotone(a: int, b: int)
    requires a <= b
    ensures Rank(ScoreLevel(a)) <= Rank(ScoreLevel(b))
  {
  }
}
