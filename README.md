# Quiz TGE — selection and scoring core in Dafny

This project models the part of the Quiz TGE desktop quiz that has logic to verify.
The graphical layer and the SQLite readers are not modelled. What remains has three parts:

- **Question selection** (`QuestionManager.prepare_questions`). Each of the two pools (the "specific" and the "general" store) is shuffled. The requested total is split 60/40, and a prefix of each shuffled pool is taken. A pool shorter than its quota yields fewer questions, with no error. The two prefixes are concatenated and shuffled once more.
- **Performance tier** (`PerformanceEvaluator.evaluate_performance`). The percentage of correct answers is computed. It is classified as excellent (at least 70), good (at least 50) or needs improvement. Each tier has one fixed message.
- **The quiz walk** (`QuizApplication`). Its state is the current position, the number of correct answers and an active flag. The show, answer, next, finish and close handlers change that state, and each does nothing once the quiz is inactive.

Files:

- `wrappers.dfy` holds `Option`.
- `questions.dfy` holds the question record and its option map.
- `sampling.dfy` holds the quotas, the slices, the shuffle and the selection, with lemmas about every possible selection.
- `performance.dfy` holds the tiers and the evaluation.
- `quiz.dfy` holds the score over the answers given and the `QuizSession` class.

Modelling choices:

- `random.shuffle` is modelled as an in-place Fisher–Yates pass over an array. The random index is an arbitrary choice (`:|`), so the model proves only that the result is a permutation.
- `IsSample` describes every outcome the selection can produce. The lemmas about it hold for all of them.
- The store contents arrive as parameters: the two pools.
- The ratio `0.6` is taken as the integer quotient `(6 * total) / 10`. This equals `int(total * 0.6)` for the totals the start screen offers (10, 20, 30, 40, 50).
- The percentage is an exact `real`. The threshold tests are done in integers (`100 * correct >= 70 * total`), and `PercentageAgreesWithCrossMultiplied` proves they agree with the tests on the percentage.
- `QuizSession` has a ghost field `answers` that records the answers given. The class invariant ties `correctAnswers` to `Score(questions[..currentIndex], answers)`.

Behaviour of the code that the model keeps as it is:

- The answer is compared with the answer key exactly, so case matters (QuizTGEapp.py:349).
- Answering also advances to the next question (QuizTGEapp.py:358).
- A pool shorter than its quota is not compensated by the other pool (QuizTGEapp.py:113-116). With 3 specific questions, 100 general questions and a total of 10, 3 + 4 = 7 questions are selected (`ShortSpecificPoolExample`).

One place where the model departs from the code:

- An empty selection makes the finish step divide by zero (QuizTGEapp.py:151, reached through 322-323 and 375-377). The session instead models the corrected evaluation `EvaluateOrFallback`, which gives 0 percent and the lowest level. The code as written is kept in `EvaluatePerformance`, whose precondition requires a positive total. Both are recorded under "## Findings".

## Model

| member | source | states |
|---|---|---|
| Questions.GetAlternatives | QuizTGEapp.py:55-62 | the keys are exactly the four labels a, b, c, d, and each label maps to its own option text |
| Sampling.Quotas | QuizTGEapp.py:110-111 | the specific quota is the integer part of 0.6 × total, and the two quotas add up to the total |
| Sampling.Take | QuizTGEapp.py:114-115 | a slice `s[:n]` is a prefix of `s` of length min(n, len(s)) |
| Sampling.Blend | QuizTGEapp.py:113-116 | the concatenated slices have length min(quota, specific) + min(quota, general) |
| Sampling.Shuffle | QuizTGEapp.py:107-108 | shuffling in place leaves the multiset of elements unchanged |
| Sampling.PrepareQuestions | QuizTGEapp.py:102-119 | the result is a shuffle of a prefix of a shuffled specific pool followed by a prefix of a shuffled general pool, with the quotas as prefix lengths |
| Sampling.SampleDrawnFromPools | QuizTGEapp.py:107-118 | every selection splits into a part of the specific pool of size min(quota, pool size) and a part of the general pool of size min(quota, pool size) |
| Sampling.SampleLength | QuizTGEapp.py:110-116 | the selection has length min(quota, specific) + min(quota, general), is at most the total, and equals the total when both pools cover their quotas |
| Sampling.SampleContained | QuizTGEapp.py:107-118 | the selection's multiset is contained in the two pools' multisets together, and every selected question is in one of the pools |
| Sampling.ShortfallNotRedistributed | QuizTGEapp.py:113-116 | a pool shorter than its quota makes the selection shorter than the total, because the other pool does not fill in |
| Sampling.ShortSpecificPoolExample | QuizTGEapp.py:110-116 | 3 specific and 100 general questions with a total of 10 give exactly 7 questions |
| Sampling.EmptyPoolsGiveEmptySelection | QuizTGEapp.py:104-116 | two empty pools give an empty selection |
| Performance.Classify | QuizTGEapp.py:153-161 | excellent iff percentage ≥ 70, good iff 50 ≤ percentage < 70, needs improvement iff percentage < 50 (cross-multiplied, inclusive thresholds) |
| Performance.MessageDeterminesLevel | QuizTGEapp.py:153-161 | different levels have different messages |
| Performance.ClassifyMonotone | QuizTGEapp.py:153-161 | for a fixed total, more correct answers never give a lower level |
| Performance.PercentageAgreesWithCrossMultiplied | QuizTGEapp.py:151-156 | comparing the percentage with a threshold is the same as comparing 100 × correct with threshold × total |
| Performance.EvaluatePerformance | QuizTGEapp.py:149-163 | percentage × total = 100 × correct; the level follows the thresholds on that percentage; the message is the level's; total must be positive |
| Performance.EvaluateOrFallback | QuizTGEapp.py:375-377 | the message is the level's; with no questions the percentage is 0 and the level is the lowest; otherwise percentage × total = 100 × correct and the level follows the 70 and 50 thresholds on that percentage (the corrected evaluation, see Findings) |
| Performance.TenQuestionExamples | QuizTGEapp.py:151-161 | with 10 questions, 7 correct is 70.0 and excellent, 5 is 50.0 and good, 4 is 40.0 and needs improvement |
| Quiz.Score | QuizTGEapp.py:349-350 | the score of the answers given never exceeds the number of questions answered |
| Quiz.ScoreSnoc | QuizTGEapp.py:349-350 | one more answer adds 1 to the score exactly when it equals the answer key |
| Quiz.ScoreIsMatchCount | QuizTGEapp.py:349-350 | the score is the number of positions where the answer equals the answer key |
| Quiz.ScorePerfect | QuizTGEapp.py:349-350 | a full score is reached iff every answer equals its answer key |
| Quiz.QuizSession.constructor | QuizTGEapp.py:245-265 | requires a positive total; the questions are a possible selection; the counters start at 0; the quiz is active iff the selection is non-empty, and an empty selection has already shown the fallback result |
| Quiz.QuizSession.ShowQuestion | QuizTGEapp.py:317-327 | no-op when inactive; past the end it finishes the quiz and shows one result; otherwise it sets the current answer key to the question's |
| Quiz.QuizSession.AnswerQuestion | QuizTGEapp.py:344-358 | no-op when inactive; otherwise the position grows by 1, the count grows by 1 exactly when the answer equals the key, and after the last question the quiz is inactive with one final result |
| Quiz.QuizSession.NextQuestion | QuizTGEapp.py:360-366 | no-op when inactive; otherwise the position grows by 1, and reaching the end finishes the quiz |
| Quiz.QuizSession.FinishQuiz | QuizTGEapp.py:368-377 | no-op when inactive; otherwise the quiz becomes inactive and the evaluation of the count over the number of questions is shown once |
| Quiz.QuizSession.CloseQuiz | QuizTGEapp.py:453-457 | the quiz becomes inactive and nothing else changes, so closing twice is the same as closing once |
| Quiz.QuizSession.AnswerAll | QuizTGEapp.py:312 | a run of clicks answers the remaining questions in order and ignores the extra clicks; while some question is left unanswered the quiz stays active and shows no result; once all are answered, exactly one final result is shown, the evaluation of the score of all the answers |

## Left out

- The Tkinter interface is not modelled: windows, widgets, dialogs, the progress bar, the question text shown, the final-result window, retry and restart, `QuizApp.run` and the event loop itself. `AnswerAll` stands for the event loop as a sequence of option clicks.
- `DatabaseManager.load_questions` is not modelled, because it is SQLite I/O. The pools are parameters; an unreadable store corresponds to an empty pool.
- Sampling.Shuffle: the randomness and uniformity of `random.shuffle` are not modelled. Only the permutation is proved, not that every permutation can occur.
- Sampling.Quotas: uses integer arithmetic instead of the floating-point product `total * 0.6`. The two agree on the totals 10–50 that the start screen offers.
- Sampling.PrepareQuestions: takes a natural-number total. Negative totals (rejected by the start screen, QuizTGEapp.py:233-235) would turn into negative slice bounds in Python; they are not modelled.
- Performance.EvaluatePerformance: the percentage is exact. Float rounding and the one-decimal display format are not modelled. The emoji of the messages are omitted, and the wording is treated as one fixed constant per level.
- Questions.Question: the code does not check that the answer key is one of a, b, c, d, so the model does not require it either.
- Quiz.QuizSession.NextQuestion: requires that an answer was just counted, or that the quiz is inactive. In the code it is only called from the answer handler.
- Quiz.QuizSession.constructor: the `_start_quiz` check that the total is positive is modelled as the constructor's precondition.

## Findings

| source | as written | input that shows it | evidently intended | confidence | as-written member | corrected member |
|---|---|---|---|---|---|---|
| QuizTGEapp.py:151 | `evaluate_performance` divides by `len(self.questions)`; `_show_question` runs `_finish_quiz` at once when the selection is empty (QuizTGEapp.py:322-323, 375-377) | both stores empty or unreadable (`load_questions` returns `[]`), so the selection is empty and the finish step divides by zero | an empty quiz reports a defined fallback (0 percent, lowest level) | not executed; high that the empty path reaches the division | Performance.EvaluatePerformance (requires total > 0) with Sampling.EmptyPoolsGiveEmptySelection | Performance.EvaluateOrFallback, used by Quiz.QuizSession.FinishQuiz |
