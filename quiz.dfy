/**
 * The quiz walk (QuizApplication) with the widget calls taken out: a position
 * in the selected list, a count of correct answers and an active flag, moved
 * by the answer, next-question, show-question, finish and close handlers.
 */
module Quiz {
  import opened Wrappers
  import opened Questions
  import opened Sampling
  import opened Performance

  /** 1 when `answer` is exactly (case included) the answer key of `q`, else 0. */
  function Hit(q: Question, answer: string): nat
  {
    if answer == q.gabarito then 1 else 0
  }

  /** The number of positions where the given answer equals the question's answer key. */
  function Score(qs: seq<Question>, answers: seq<string>): (n: nat)
    requires |qs| == |answers|
    ensures n <= |qs|
    decreases |qs|
  {
    if qs == [] then 0
    else Score(qs[..|qs| - 1], answers[..|answers| - 1]) + Hit(qs[|qs| - 1], answers[|answers| - 1])
  }

  /** Answering one more question adds 1 to the score exactly when the answer matches. */
  lemma ScoreSnoc(qs: seq<Question>, answers: seq<string>, q: Question, a: string)
    requires |qs| == |answers|
    ensures Score(qs + [q], answers + [a]) == Score(qs, answers) + Hit(q, a)
  {
  }

  /** Score agrees with counting the matching positions. */
  lemma {:induction false} ScoreIsMatchCount(qs: seq<Question>, answers: seq<string>)
    requires |qs| == |answers|
    ensures Score(qs, answers) == |set i | 0 <= i < |qs| && answers[i] == qs[i].gabarito|
  {
    if qs != [] {
      var n := |qs| - 1;
      var ps, pa := qs[..n], answers[..n];
      ScoreIsMatchCount(ps, pa);
      var before := set i | 0 <= i < n && pa[i] == ps[i].gabarito;
      var after := set i | 0 <= i < |qs| && answers[i] == qs[i].gabarito;
      if answers[n] == qs[n].gabarito {
        assert after == before + {n};
      } else {
        assert after == before;
      }
    }
  }

  /** The full score is reached exactly when every answer matches its question's key. */
  lemma {:induction false} ScorePerfect(qs: seq<Question>, answers: seq<string>)
    requires |qs| == |answers|
    ensures Score(qs, answers) == |qs| <==> forall i :: 0 <= i < |qs| ==> answers[i] == qs[i].gabarito
  {
    if qs != [] {
      var n := |qs| - 1;
      ScorePerfect(qs[..n], answers[..n]);
      if Score(qs, answers) == |qs| {
        forall i | 0 <= i < |qs|
          ensures answers[i] == qs[i].gabarito
        {
          if i < n {
            assert answers[..n][i] == answers[i] && qs[..n][i] == qs[i];
          }
        }
      }
      if forall i :: 0 <= i < |qs| ==> answers[i] == qs[i].gabarito {
        forall i | 0 <= i < n
          ensures answers[..n][i] == qs[..n][i].gabarito
        {
          assert answers[..n][i] == answers[i] && qs[..n][i] == qs[i];
        }
      }
    }
  }

  class QuizSession {
    /** The count the learner asked for. */
    const totalQuestions: nat
    /** The questions selected for this run, in presentation order. */
    const questions: seq<Question>
    var currentIndex: nat
    var correctAnswers: nat
    var isQuizActive: bool
    /** Answer key of the question on screen; None until the first question is shown. */
    var currentCorrectAnswer: Option<string>
    /** The final results shown to the learner, one per run of the finish step. */
    var finalResults: seq<Evaluation>
    /** The answers given so far, one per question passed. */
    ghost var answers: seq<string>

    /** The evaluation of the current counters, as the finish step computes it. */
    function FinalEvaluation(): Evaluation
      reads this
    {
      EvaluateOrFallback(correctAnswers, |questions|)
    }

    /**
     * The counters: the position is within the list, the answers given match
     * the position and the correct count is their score; at most one final
     * result was shown, only once the quiz is over, and it is of the counters.
     */
    ghost predicate Counters()
      reads this
      ensures Counters() ==> correctAnswers <= currentIndex <= |questions|
    {
      currentIndex <= |questions| &&
      |answers| == currentIndex &&
      correctAnswers == Score(questions[..currentIndex], answers) &&
      |finalResults| <= 1 &&
      (finalResults != [] ==> !isQuizActive && finalResults[0] == FinalEvaluation())
    }

    /** Between handlers: an active quiz shows a question and knows its answer key. */
    ghost predicate Valid()
      reads this
      ensures Valid() ==> correctAnswers <= currentIndex <= |questions|
    {
      Counters() &&
      (isQuizActive ==> currentIndex < |questions| && currentCorrectAnswer == Some(questions[currentIndex].gabarito))
    }

    /** Inside the answer handler: the answer is counted and the position not yet advanced. */
    ghost predicate Answered()
      reads this
    {
      isQuizActive && currentIndex < |questions| && finalResults == [] &&
      |answers| == currentIndex + 1 &&
      correctAnswers == Score(questions[..currentIndex + 1], answers)
    }

    /**
     * A new quiz over a selection from the two pools. The requested total is
     * positive (the start screen rejects anything else). The first question is
     * shown; an empty selection finishes the quiz at once.
     */
    constructor (total: nat, specificPool: seq<Question>, generalPool: seq<Question>)
      requires total > 0
      ensures Valid()
      ensures totalQuestions == total && IsSample(questions, specificPool, generalPool, total)
      ensures currentIndex == 0 && correctAnswers == 0 && answers == []
      ensures isQuizActive == (|questions| > 0)
      ensures finalResults == if |questions| > 0 then [] else [EvaluateOrFallback(0, 0)]
    {
      var selected := PrepareQuestions(specificPool, generalPool, total);
      totalQuestions := total;
      questions := selected;
      currentIndex := 0;
      correctAnswers := 0;
      isQuizActive := true;
      currentCorrectAnswer := None;
      finalResults := [];
      answers := [];
      new;
      ShowQuestion();
    }

    /**
     * Shows the question at the current position, or finishes the quiz when the
     * position is past the end; does nothing once the quiz is inactive.
     */
    method ShowQuestion()
      requires Counters()
      modifies this
      ensures Valid()
      ensures !old(isQuizActive) ==> unchanged(this)
      ensures currentIndex == old(currentIndex) && correctAnswers == old(correctAnswers) && answers == old(answers)
      ensures old(isQuizActive) && old(currentIndex) < |questions| ==>
        isQuizActive && currentCorrectAnswer == Some(questions[currentIndex].gabarito) &&
        finalResults == old(finalResults)
      ensures old(isQuizActive) && old(currentIndex) >= |questions| ==>
        !isQuizActive && currentCorrectAnswer == old(currentCorrectAnswer) &&
        finalResults == old(finalResults) + [FinalEvaluation()]
    {
      if !isQuizActive {
        return;
      }
      if currentIndex >= |questions| {
        FinishQuiz();
        return;
      }
      var question := questions[currentIndex];
      currentCorrectAnswer := Some(question.gabarito);
    }

    /**
     * Handles a click on option `answer`: counts it when it equals the answer
     * key exactly and moves to the next question; does nothing once the quiz
     * is inactive. Answering the last question finishes the quiz.
     */
    method AnswerQuestion(answer: string)
      requires Valid()
      modifies this
      ensures Valid()
      ensures !old(isQuizActive) ==> unchanged(this)
      ensures old(isQuizActive) ==>
        currentIndex == old(currentIndex) + 1 &&
        correctAnswers == old(correctAnswers) + Hit(questions[old(currentIndex)], answer) &&
        answers == old(answers) + [answer] &&
        isQuizActive == (currentIndex < |questions|)
      ensures old(isQuizActive) && currentIndex < |questions| ==> finalResults == old(finalResults)
      ensures old(isQuizActive) && currentIndex == |questions| ==> finalResults == old(finalResults) + [FinalEvaluation()]
      ensures old(isQuizActive) && currentIndex == |questions| ==> currentCorrectAnswer == old(currentCorrectAnswer)
    {
      if !isQuizActive {
        return;
      }
      ScoreSnoc(questions[..currentIndex], answers, questions[currentIndex], answer);
      assert questions[..currentIndex + 1] == questions[..currentIndex] + [questions[currentIndex]];
      if Some(answer) == currentCorrectAnswer {
        correctAnswers := correctAnswers + 1;
      }
      answers := answers + [answer];
      NextQuestion();
    }

    /**
     * Advances to the next question and shows it; does nothing once the quiz is
     * inactive. Only the answer handler calls it, right after counting an answer.
     */
    method NextQuestion()
      requires Answered() || (Valid() && !isQuizActive)
      modifies this
      ensures Valid()
      ensures !old(isQuizActive) ==> unchanged(this)
      ensures old(isQuizActive) ==>
        currentIndex == old(currentIndex) + 1 &&
        correctAnswers == old(correctAnswers) && answers == old(answers) &&
        isQuizActive == (currentIndex < |questions|)
      ensures old(isQuizActive) && currentIndex < |questions| ==> finalResults == old(finalResults)
      ensures old(isQuizActive) && currentIndex == |questions| ==> finalResults == old(finalResults) + [FinalEvaluation()]
      ensures old(isQuizActive) && currentIndex == |questions| ==> currentCorrectAnswer == old(currentCorrectAnswer)
    {
      if !isQuizActive {
        return;
      }
      currentIndex := currentIndex + 1;
      ShowQuestion();
    }

    /**
     * Ends the quiz and shows the final result, computed over the number of
     * selected questions; does nothing once the quiz is inactive, so the
     * result is shown at most once.
     */
    method FinishQuiz()
      requires Counters()
      modifies this
      ensures Valid() && !isQuizActive
      ensures currentIndex == old(currentIndex) && correctAnswers == old(correctAnswers) && answers == old(answers)
      ensures currentCorrectAnswer == old(currentCorrectAnswer)
      ensures finalResults == if old(isQuizActive) then old(finalResults) + [FinalEvaluation()] else old(finalResults)
    {
      if !isQuizActive {
        return;
      }
      isQuizActive := false;
      var result := EvaluateOrFallback(correctAnswers, |questions|);
      finalResults := finalResults + [result];
    }

    /** Closes the quiz window: the quiz becomes inactive and nothing else changes. */
    method CloseQuiz()
      requires Valid()
      modifies this
      ensures Valid() && !isQuizActive
      ensures !old(isQuizActive) ==> unchanged(this)
      ensures currentIndex == old(currentIndex) && correctAnswers == old(correctAnswers) && answers == old(answers)
      ensures currentCorrectAnswer == old(currentCorrectAnswer) && finalResults == old(finalResults)
    {
      isQuizActive := false;
    }

    /**
     * The event loop delivering a sequence of option clicks to the answer
     * handler. Clicks past the end of the quiz are ignored; once every
     * remaining question is answered the quiz is over and its one final result
     * is the score of all the answers over the number of questions.
     */
    method AnswerAll(clicks: seq<string>)
      requires Valid()
      modifies this
      ensures Valid()
      ensures !old(isQuizActive) ==> unchanged(this)
      ensures old(isQuizActive) ==>
        answers == old(answers) + clicks[..Min(|clicks|, |questions| - old(currentIndex))]
      ensures old(isQuizActive) && |clicks| >= |questions| - old(currentIndex) ==>
        !isQuizActive && currentIndex == |questions| &&
        correctAnswers == Score(questions, answers) &&
        finalResults == [EvaluateOrFallback(Score(questions, answers), |questions|)]
      ensures old(isQuizActive) && |clicks| < |questions| - old(currentIndex) ==>
        isQuizActive && finalResults == []
    {
      ghost var remaining := |questions| - currentIndex;
      for k := 0 to |clicks|
        invariant Valid()
        invariant !old(isQuizActive) ==> unchanged(this)
        invariant old(isQuizActive) ==>
          answers == old(answers) + clicks[..Min(k, remaining)] &&
          currentIndex == old(currentIndex) + Min(k, remaining) &&
          isQuizActive == (k < remaining) &&
          (k < remaining ==> finalResults == []) &&
          (k >= remaining ==> finalResults == [FinalEvaluation()])
      {
        if isQuizActive {
          assert clicks[..k + 1] == clicks[..k] + [clicks[k]];
        }
        AnswerQuestion(clicks[k]);
      }
      if old(isQuizActive) && |clicks| >= remaining {
        assert questions[..currentIndex] == questions;
      }
    }
  }
}
