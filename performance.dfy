/**
 * Final classification of a quiz (PerformanceEvaluator.evaluate_performance):
 * the percentage of correct answers and a three-way split at 70 and 50.
 */
module Performance {

  datatype Level = Excellent | Good | NeedsImprovement

  const ExcellentThreshold: nat := 70
  const GoodThreshold: nat := 50

  /** Position of a level in the order NeedsImprovement < Good < Excellent. */
  function Rank(level: Level): nat
  {
    match level
    case NeedsImprovement => 0
    case Good => 1
    case Excellent => 2
  }

  /**
   * The level for `correct` out of `total`, with the threshold comparisons on
   * the percentage cross-multiplied into integers, both thresholds inclusive.
   */
  function Classify(correct: nat, total: nat): (level: Level)
    requires total > 0
    ensures level == Excellent <==> 100 * correct >= ExcellentThreshold * total
    ensures level == Good <==> GoodThreshold * total <= 100 * correct < ExcellentThreshold * total
    ensures level == NeedsImprovement <==> 100 * correct < GoodThreshold * total
  {
    if 100 * correct >= ExcellentThreshold * total then Excellent
    else if 100 * correct >= GoodThreshold * total then Good
    else NeedsImprovement
  }

  /** The fixed message shown for each level (emoji omitted). */
  function Message(level: Level): string
  {
    match level
    case Excellent => "Parabéns! Excelente desempenho!"
    case Good => "Bom trabalho! Continue estudando!"
    case NeedsImprovement => "Continue estudando para melhorar!"
  }

  /** Different levels show different messages. */
  lemma MessageDeterminesLevel(l1: Level, l2: Level)
    ensures Message(l1) == Message(l2) ==> l1 == l2
  {
  }

  /** For a fixed total, more correct answers never give a lower level. */
  lemma ClassifyMonotone(c1: nat, c2: nat, total: nat)
    requires total > 0 && c1 <= c2
    ensures Rank(Classify(c1, total)) <= Rank(Classify(c2, total))
  {
  }

  datatype Evaluation = Evaluation(percentage: real, level: Level, message: string)

  /**
   * The evaluation of `correct` out of `total`: the percentage is exactly
   * 100 * correct / total, the level follows the thresholds on that
   * percentage, and the message is the level's. The source divides by
   * `total`, so `total` must be positive.
   */
  function EvaluatePerformance(correct: nat, total: nat): (e: Evaluation)
    requires total > 0
    ensures e.percentage * (total as real) == 100.0 * (correct as real)
    ensures e.level == Excellent <==> e.percentage >= ExcellentThreshold as real
    ensures e.level == Good <==> GoodThreshold as real <= e.percentage < ExcellentThreshold as real
    ensures e.level == NeedsImprovement <==> e.percentage < GoodThreshold as real
    ensures e.message == Message(e.level)
  {
    var percentage := (correct as real / total as real) * 100.0;
    var level := Classify(correct, total);
    PercentageAgreesWithCrossMultiplied(correct, total, percentage, ExcellentThreshold);
    PercentageAgreesWithCrossMultiplied(correct, total, percentage, GoodThreshold);
    Evaluation(percentage, level, Message(level))
  }

  /** Comparing the percentage with a threshold is comparing 100 * correct with threshold * total. */
  lemma PercentageAgreesWithCrossMultiplied(correct: nat, total: nat, percentage: real, threshold: nat)
    requires total > 0
    requires percentage == (correct as real / total as real) * 100.0
    ensures percentage * (total as real) == 100.0 * (correct as real)
    ensures percentage >= threshold as real <==> 100 * correct >= threshold * total
  {
  }

  /**
   * The evaluation with the empty quiz handled: no questions give 0 percent and
   * the lowest level; otherwise it is EvaluatePerformance.
   */
  function EvaluateOrFallback(correct: nat, total: nat): (e: Evaluation)
    ensures e.message == Message(e.level)
    ensures total == 0 ==> e.percentage == 0.0 && forall l :: Rank(e.level) <= Rank(l)
    ensures total > 0 ==> e.percentage * (total as real) == 100.0 * (correct as real)
    ensures total > 0 ==> (e.level == Excellent <==> e.percentage >= ExcellentThreshold as real)
    ensures total > 0 ==> (e.level == Good <==> GoodThreshold as real <= e.percentage < ExcellentThreshold as real)
  {
    if total == 0 then Evaluation(0.0, NeedsImprovement, Message(NeedsImprovement))
    else EvaluatePerformance(correct, total)
  }

  /** Ten questions: 7 correct is 70% and excellent, 5 is 50% and good, 4 is 40% and needs improvement. */
  lemma TenQuestionExamples()
    ensures EvaluatePerformance(7, 10) == Evaluation(70.0, Excellent, Message(Excellent))
    ensures EvaluatePerformance(5, 10) == Evaluation(50.0, Good, Message(Good))
    ensures EvaluatePerformance(4, 10) == Evaluation(40.0, NeedsImprovement, Message(NeedsImprovement))
  {
  }
}
