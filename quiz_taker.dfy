/** The attempt screen: it loads one quiz from the local quiz store, asks for a
    name, walks a cursor over the questions while the taker picks options,
    counts the correct answers, and appends one result to the local result
    store. */
module QuizTaker {
  import opened Wrappers
  import opened QuizData
  import opened Text

  /** The sentinel for a question not yet answered. */
  const Unanswered := -1

  /** `quizzes.find(q => q.id === quizId)`: the first quiz with that id. */
  function FindQuiz(quizzes: seq<Quiz>, quizId: string): (r: Option<Quiz>)
    ensures r.None? <==> forall k :: 0 <= k < |quizzes| ==> quizzes[k].id != quizId
    ensures r.Some? ==> exists k :: 0 <= k < |quizzes| && quizzes[k] == r.value && r.value.id == quizId
                                  && forall j :: 0 <= j < k ==> quizzes[j].id != quizId
  {
    if quizzes == [] then None
    else if quizzes[0].id == quizId then Some(quizzes[0])
    else
      var r := FindQuiz(quizzes[1..], quizId);
      assert forall k :: 1 <= k < |quizzes| ==> quizzes[k] == quizzes[1..][k - 1];
      r
  }

  /** Whether the answer at position `i` earns a point; positions past the end
      of `answers` read as `undefined` in the source and earn nothing. */
  predicate Earns(questions: seq<Question>, answers: seq<int>, i: int)
    requires 0 <= i < |questions|
  {
    i < |answers| && answers[i] == questions[i].correctAnswer
  }

  /** The score: one point per question whose answer equals its correct option. */
  function Score(questions: seq<Question>, answers: seq<int>): (r: nat)
    ensures r <= |questions|
  {
    if questions == [] then 0
    else
      var k := |questions| - 1;
      Score(questions[..k], answers) + (if Earns(questions, answers, k) then 1 else 0)
  }

  /** The positions of `questions` that earn a point. */
  function CorrectPositions(questions: seq<Question>, answers: seq<int>): set<nat>
  {
    set i: nat | i < |questions| && Earns(questions, answers, i)
  }

  /** The score is the number of correctly answered positions. */
  lemma {:induction false} ScoreCountsCorrectPositions(questions: seq<Question>, answers: seq<int>)
    ensures Score(questions, answers) == |CorrectPositions(questions, answers)|
  {
    if questions != [] {
      var k := |questions| - 1;
      var prefix := questions[..k];
      ScoreCountsCorrectPositions(prefix, answers);
      var before := CorrectPositions(prefix, answers);
      var all := CorrectPositions(questions, answers);
      assert forall i :: 0 <= i < k ==> prefix[i] == questions[i];
      if Earns(questions, answers, k) {
        assert all == before + {k};
      } else {
        assert all == before;
      }
    }
  }

  /** All answers correct gives the full score. */
  lemma {:induction false} ScorePerfect(questions: seq<Question>, answers: seq<int>)
    requires |answers| == |questions|
    requires forall i :: 0 <= i < |questions| ==> answers[i] == questions[i].correctAnswer
    ensures Score(questions, answers) == |questions|
  {
    if questions != [] {
      ScorePerfect(questions[..|questions| - 1], answers[..|questions| - 1]);
      ScoreIgnoresLaterAnswers(questions[..|questions| - 1], answers);
    }
  }

  /** No answer given gives zero, since every correct option is a real index. */
  lemma {:induction false} ScoreAllUnanswered(questions: seq<Question>, answers: seq<int>)
    requires forall i :: 0 <= i < |questions| ==> questions[i].correctAnswer >= 0
    requires forall i :: 0 <= i < |answers| ==> answers[i] == Unanswered
    ensures Score(questions, answers) == 0
  {
    if questions != [] {
      ScoreAllUnanswered(questions[..|questions| - 1], answers);
    }
  }

  /** Only the answers at the questions' own positions matter. */
  lemma {:induction false} ScoreIgnoresLaterAnswers(questions: seq<Question>, answers: seq<int>)
    requires |questions| <= |answers|
    ensures Score(questions, answers) == Score(questions, answers[..|questions|])
  {
    if questions != [] {
      ScoreIgnoresLaterAnswers(questions[..|questions| - 1], answers);
      ScoreIgnoresLaterAnswers(questions[..|questions| - 1], answers[..|questions|]);
      assert answers[..|questions|][..|questions| - 1] == answers[..|questions| - 1];
    }
  }

  /** The scoring loop of `submitQuiz`: one pass over the questions, adding a
      point whenever the answer at that index equals the correct option. */
  method ComputeScore(questions: seq<Question>, answers: seq<int>) returns (score: nat)
    ensures score == Score(questions, answers)
    ensures score <= |questions|
  {
    score := 0;
    var index := 0;
    while index < |questions|
      invariant 0 <= index <= |questions|
      invariant score == Score(questions[..index], answers)
    {
      assert questions[..index + 1][..index] == questions[..index];
      if index < |answers| && answers[index] == questions[index].correctAnswer {
        score := score + 1;
      }
      index := index + 1;
    }
    assert questions[..index] == questions;
  }

  /** An answer is either the sentinel or an index into the question's options. */
  predicate ValidAnswer(q: Question, a: int)
  {
    a == Unanswered || 0 <= a < |q.options|
  }

  /** The record `submitQuiz` stores. */
  function ResultRecord(resultId: string, quizId: string, userName: string, score: nat, quiz: Quiz,
                        timeElapsed: nat, submittedAt: int, answers: seq<int>): (r: QuizResult)
    ensures r.id == resultId && r.quizId == quizId && r.submittedAt == submittedAt && r.answers == answers
    ensures r.score == score && r.totalQuestions == |quiz.questions| && r.timeElapsed == timeElapsed
    ensures r.userName == Trim(userName)
    ensures Trim(r.userName) == r.userName && (r.userName == [] <==> IsBlank(userName))
  {
    TrimIdempotent(userName);
    TrimEmptyIffBlank(userName);
    QuizResult(resultId, quizId, Trim(userName), score, |quiz.questions|, timeElapsed, submittedAt, answers)
  }

  /** The state of one attempt: the loaded quiz, the cursor, the answer vector,
      the taker's name, whether the attempt has started and the seconds counted. */
  class Attempt {
    const quizId: string
    var quiz: Option<Quiz>
    var currentQuestion: int
    var answers: seq<int>
    var userName: string
    var isStarted: bool
    var timeElapsed: nat

    /** `quiz?.questions.length || 0`. */
    function QuestionCount(): nat
      reads this
    {
      if quiz.Some? then |quiz.value.questions| else 0
    }

    /** The attempt invariant: one answer slot per question, the cursor on a
        question, every answer a real option or the sentinel, and every
        question before the cursor answered (Next is disabled until it is). */
    ghost predicate Valid()
      reads this
    {
      && |answers| == QuestionCount()
      && 0 <= currentQuestion
      && (currentQuestion < |answers| || currentQuestion == 0)
      && (quiz.Some? ==> forall i :: 0 <= i < |answers| ==> ValidAnswer(quiz.value.questions[i], answers[i]))
      && (forall i :: 0 <= i < currentQuestion && i < |answers| ==> answers[i] != Unanswered)
    }

    /** Whether the question under the cursor has been answered: the condition
        that enables both the Next and the Submit button. */
    predicate CurrentAnswered()
      reads this
    {
      quiz.Some? && 0 <= currentQuestion < |answers| && answers[currentQuestion] != Unanswered
    }

    /** Mounting the screen: the initial state, then the load effect, which
        looks the quiz up by id and, when found, fills the answers with -1. */
    constructor Load(quizId: string, quizzes: seq<Quiz>)
      ensures Valid()
      ensures this.quizId == quizId && quiz == FindQuiz(quizzes, quizId)
      ensures quiz.Some? ==> answers == seq(|quiz.value.questions|, _ => Unanswered)
      ensures quiz.None? ==> answers == []
      ensures currentQuestion == 0 && userName == "" && !isStarted && timeElapsed == 0
    {
      this.quizId := quizId;
      currentQuestion := 0;
      userName := "";
      isStarted := false;
      timeElapsed := 0;
      var found := FindQuiz(quizzes, quizId);
      if found.Some? {
        quiz := found;
        answers := seq(|found.value.questions|, _ => Unanswered);
      } else {
        quiz := None;
        answers := [];
      }
    }

    /** The name field's change handler. */
    method SetUserName(name: string)
      modifies this`userName
      ensures userName == name
    {
      userName := name;
    }

    /** `startQuiz`: refuses a name that is blank after trimming, otherwise
        starts the attempt. */
    method StartQuiz() returns (accepted: bool)
      modifies this`isStarted
      ensures accepted <==> !IsBlank(userName)
      ensures isStarted == (old(isStarted) || accepted)
    {
      if IsBlank(userName) {
        accepted := false;
        return;
      }
      accepted := true;
      isStarted := true;
    }

    /** One tick of the one-second timer, which runs only while the attempt
        is started and its quiz is loaded. */
    method Tick()
      modifies this`timeElapsed
      ensures timeElapsed == old(timeElapsed) + (if isStarted && quiz.Some? then 1 else 0)
    {
      if isStarted && quiz.Some? {
        timeElapsed := timeElapsed + 1;
      }
    }

    /** `selectAnswer`: a click on option `optionIndex` of the question shown. */
    method SelectAnswer(optionIndex: int)
      requires Valid() && quiz.Some? && currentQuestion < |answers|
      requires 0 <= optionIndex < |quiz.value.questions[currentQuestion].options|
      modifies this`answers
      ensures Valid()
      ensures |answers| == |old(answers)|
      ensures answers[currentQuestion] == optionIndex
      ensures forall i :: 0 <= i < |answers| && i != currentQuestion ==> answers[i] == old(answers)[i]
    {
      var newAnswers := answers;
      newAnswers := newAnswers[currentQuestion := optionIndex];
      answers := newAnswers;
    }

    /** `nextQuestion`, reachable only through the Next button, which is
        enabled once the current question is answered. */
    method NextQuestion()
      requires Valid() && CurrentAnswered()
      modifies this`currentQuestion
      ensures Valid()
      ensures currentQuestion == if old(currentQuestion) < QuestionCount() - 1 then old(currentQuestion) + 1
                                 else old(currentQuestion)
    {
      if currentQuestion < QuestionCount() - 1 {
        currentQuestion := currentQuestion + 1;
      }
    }

    /** `prevQuestion`: steps back unless already on the first question. */
    method PrevQuestion()
      requires Valid()
      modifies this`currentQuestion
      ensures Valid()
      ensures currentQuestion == if old(currentQuestion) > 0 then old(currentQuestion) - 1 else old(currentQuestion)
    {
      if currentQuestion > 0 {
        currentQuestion := currentQuestion - 1;
      }
    }

    /** The Submit button's condition: it is shown on the last question and is
        enabled once that question is answered. */
    predicate SubmitEnabled()
      reads this
      ensures SubmitEnabled() ==> quiz.Some? && |answers| > 0 && currentQuestion == |answers| - 1
      ensures SubmitEnabled() && Valid() ==> forall i :: 0 <= i < |answers| ==> answers[i] != Unanswered
    {
      CurrentAnswered() && currentQuestion == |answers| - 1
    }

    /** `submitQuiz`: without a quiz nothing happens; otherwise the score is
        counted and one record is appended after the existing results, and the
        screen reports completion. Submitted through its enabled button, the
        stored answers hold no unanswered question. */
    method SubmitQuiz(store: seq<QuizResult>, resultId: string, submittedAt: int)
      returns (newStore: seq<QuizResult>, completed: bool)
      requires Valid()
      ensures quiz.None? ==> newStore == store && !completed
      ensures quiz.Some? ==> completed && |newStore| == |store| + 1 && newStore[..|store|] == store
      ensures quiz.Some? ==>
                newStore[|store|] == ResultRecord(resultId, quizId, userName, Score(quiz.value.questions, answers),
                                                  quiz.value, timeElapsed, submittedAt, answers)
      ensures quiz.Some? && SubmitEnabled() ==> forall i :: 0 <= i < |answers| ==> newStore[|store|].answers[i] != Unanswered
    {
      if quiz.None? {
        return store, false;
      }
      if SubmitEnabled() {
        assert answers[currentQuestion] != Unanswered;
        assert forall i :: 0 <= i < |answers| ==> answers[i] != Unanswered;
      }
      var score := ComputeScore(quiz.value.questions, answers);
      var result := ResultRecord(resultId, quizId, userName, score, quiz.value, timeElapsed, submittedAt, answers);
      newStore := store + [result];
      completed := true;
    }
  }

}
