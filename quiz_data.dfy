/** The records the application keeps in its two stores: quizzes and attempt results.
    Timestamps are plain integers (milliseconds); they are only ever copied. */
module QuizData {

  /** One multiple-choice question of a quiz. */
  datatype Question = Question(id: string, question: string, options: seq<string>, correctAnswer: int)

  /** A quiz as stored and as read back. */
  datatype Quiz = Quiz(id: string, title: string, description: string, questions: seq<Question>, createdAt: int)

  /** One completed attempt. `answers[i]` is the chosen option index, -1 when unanswered. */
  datatype QuizResult = QuizResult(
    id: string,
    quizId: string,
    userName: string,
    score: int,
    totalQuestions: int,
    timeElapsed: int,
    submittedAt: int,
    answers: seq<int>)

  /** The sum of the scores, as `results.reduce((sum, r) => sum + r.score, 0)` computes it. */
  function SumScores(results: seq<QuizResult>): (total: int)
    ensures results == [] ==> total == 0
    ensures |results| == 1 ==> total == results[0].score
  {
    if results == [] then 0 else SumScores(results[..|results| - 1]) + results[|results| - 1].score
  }

  /** The sum of the elapsed times, as the average-time reduction computes it. */
  function SumTimes(results: seq<QuizResult>): (total: int)
    ensures results == [] ==> total == 0
    ensures |results| == 1 ==> total == results[0].timeElapsed
  {
    if results == [] then 0 else SumTimes(results[..|results| - 1]) + results[|results| - 1].timeElapsed
  }

  /** The time total is additive over concatenation, like the score total. */
  lemma {:induction false} SumTimesAppend(a: seq<QuizResult>, b: seq<QuizResult>)
    ensures SumTimes(a + b) == SumTimes(a) + SumTimes(b)
    decreases |b|
  {
    if b == [] {
      assert a + b == a;
    } else {
      var k := |b| - 1;
      assert (a + b)[..|a + b| - 1] == a + b[..k];
      SumTimesAppend(a, b[..k]);
    }
  }

  /** Summing is additive over concatenation of fetched result lists. */
  lemma {:induction false} SumScoresAppend(a: seq<QuizResult>, b: seq<QuizResult>)
    ensures SumScores(a + b) == SumScores(a) + SumScores(b)
    decreases |b|
  {
    if b == [] {
      assert a + b == a;
    } else {
      var k := |b| - 1;
      assert (a + b)[..|a + b| - 1] == a + b[..k];
      SumScoresAppend(a, b[..k]);
    }
  }

}
