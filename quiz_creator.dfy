/** The authoring screen: a draft title, description and question list edited
    by list transforms, and a validator that runs its checks in a fixed order
    before a single insert into the quiz store. */
module QuizCreator {
  import opened Wrappers
  import opened QuizData
  import opened Text

  /** Every question is created with four option slots. */
  const OptionCount := 4

  /** The question `addQuestion` appends: empty text, four empty options, the
      first option marked correct. */
  function NewQuestion(id: string): (q: Question)
    ensures q.id == id && WellShaped(q) && q.correctAnswer == 0
    ensures q.question == [] && forall k :: 0 <= k < |q.options| ==> q.options[k] == []
  {
    Question(id, "", ["", "", "", ""], 0)
  }

  /** The shape every draft question keeps: four options and a correct index
      that is one of the four radio buttons. */
  predicate WellShaped(q: Question)
  {
    |q.options| == OptionCount && 0 <= q.correctAnswer < OptionCount
  }

  /** The two fields the screen edits through `updateQuestion`: the text area
      writes `question`, a radio button writes `correctAnswer`. */
  datatype FieldUpdate = SetQuestionText(text: string) | SetCorrectAnswer(index: int)

  function ApplyUpdate(q: Question, update: FieldUpdate): Question
  {
    match update
    case SetQuestionText(text) => q.(question := text)
    case SetCorrectAnswer(index) => q.(correctAnswer := index)
  }

  /** `questions.map(q => q.id === id ? { ...q, [field]: value } : q)`. */
  function UpdateWhere(questions: seq<Question>, id: string, update: FieldUpdate): (r: seq<Question>)
    ensures |r| == |questions|
    ensures forall i :: 0 <= i < |r| ==> r[i].id == questions[i].id && r[i].options == questions[i].options
    ensures forall i :: 0 <= i < |r| && questions[i].id != id ==> r[i] == questions[i]
    ensures forall i :: 0 <= i < |r| && questions[i].id == id ==>
              match update
              case SetQuestionText(text) =>
                r[i].question == text && r[i].correctAnswer == questions[i].correctAnswer
              case SetCorrectAnswer(index) =>
                r[i].correctAnswer == index && r[i].question == questions[i].question
  {
    seq(|questions|, i requires 0 <= i < |questions| =>
      if questions[i].id == id then ApplyUpdate(questions[i], update) else questions[i])
  }

  /** `options.map((opt, idx) => idx === optionIndex ? value : opt)`: the same
      list as Dafny's own update when the index is in range, and the list
      unchanged otherwise. */
  function ReplaceOption(options: seq<string>, optionIndex: int, value: string): (r: seq<string>)
    ensures 0 <= optionIndex < |options| ==> r == options[optionIndex := value]
    ensures !(0 <= optionIndex < |options|) ==> r == options
  {
    seq(|options|, k requires 0 <= k < |options| => if k == optionIndex then value else options[k])
  }

  /** `updateOption`: replaces option `optionIndex` of the questions with that id. */
  function UpdateOptionWhere(questions: seq<Question>, id: string, optionIndex: int, value: string)
    : (r: seq<Question>)
    ensures |r| == |questions|
    ensures forall i :: 0 <= i < |r| ==>
              && r[i].id == questions[i].id
              && r[i].question == questions[i].question
              && r[i].correctAnswer == questions[i].correctAnswer
              && |r[i].options| == |questions[i].options|
    ensures forall i :: 0 <= i < |r| && questions[i].id != id ==> r[i] == questions[i]
    ensures forall i :: 0 <= i < |r| && questions[i].id == id && 0 <= optionIndex < |questions[i].options| ==>
              r[i].options == questions[i].options[optionIndex := value]
    ensures forall i :: 0 <= i < |r| && questions[i].id == id && !(0 <= optionIndex < |questions[i].options|) ==>
              r[i] == questions[i]
  {
    seq(|questions|, i requires 0 <= i < |questions| =>
      if questions[i].id == id
      then questions[i].(options := ReplaceOption(questions[i].options, optionIndex, value))
      else questions[i])
  }

  /** `questions.filter(q => q.id !== id)`. */
  function RemoveById(questions: seq<Question>, id: string): (r: seq<Question>)
    ensures |r| <= |questions|
    ensures forall q :: q in r ==> q in questions && q.id != id
    ensures forall q :: q in questions && q.id != id ==> q in r
  {
    if questions == [] then []
    else
      var rest := RemoveById(questions[1..], id);
      if questions[0].id == id then rest else [questions[0]] + rest
  }

  /** Filtering keeps order: filtering a concatenation is concatenating the
      filtered parts. */
  lemma {:induction false} RemoveByIdAppend(a: seq<Question>, b: seq<Question>, id: string)
    ensures RemoveById(a + b, id) == RemoveById(a, id) + RemoveById(b, id)
  {
    if a == [] {
      assert a + b == b;
    } else {
      assert (a + b)[1..] == a[1..] + b;
      RemoveByIdAppend(a[1..], b, id);
    }
  }

  /** Removing an id that no question carries changes nothing; in particular
      removing twice is removing once. */
  lemma {:induction false} RemoveAbsentId(questions: seq<Question>, id: string)
    requires forall i :: 0 <= i < |questions| ==> questions[i].id != id
    ensures RemoveById(questions, id) == questions
  {
    if questions != [] {
      RemoveAbsentId(questions[1..], id);
    }
  }

  /** The validation failures, in the order the checks run. */
  datatype ValidationError = BlankTitle | NoQuestions | BlankQuestionText | BlankOption

  /** `options.some(opt => !opt.trim())`. */
  predicate HasBlankOption(options: seq<string>)
  {
    exists k :: 0 <= k < |options| && IsBlank(options[k])
  }

  /** The checks made on one question: its text first, then its options. */
  function QuestionError(q: Question): (r: Option<ValidationError>)
    ensures r.None? <==> !IsBlank(q.question) && forall k :: 0 <= k < |q.options| ==> !IsBlank(q.options[k])
    ensures r == Some(BlankQuestionText) <==> IsBlank(q.question)
    ensures r.Some? ==> r.value == BlankQuestionText || r.value == BlankOption
  {
    if IsBlank(q.question) then Some(BlankQuestionText)
    else if HasBlankOption(q.options) then Some(BlankOption)
    else None
  }

  /** The failure of the first question that fails, scanning in list order. */
  function FirstQuestionError(questions: seq<Question>): (r: Option<ValidationError>)
    ensures r.Some? ==> r.value == BlankQuestionText || r.value == BlankOption
    ensures r.Some? ==> questions != []
  {
    if questions == [] then None
    else if QuestionError(questions[0]).Some? then QuestionError(questions[0])
    else FirstQuestionError(questions[1..])
  }

  /** The whole validator of `saveQuiz`: title, then count, then the questions. */
  function Validate(title: string, questions: seq<Question>): (r: Option<ValidationError>)
    ensures r == Some(BlankTitle) <==> IsBlank(title)
    ensures r == Some(NoQuestions) <==> !IsBlank(title) && questions == []
    ensures !IsBlank(title) && questions != [] ==> r == FirstQuestionError(questions)
  {
    if IsBlank(title) then Some(BlankTitle)
    else if |questions| == 0 then Some(NoQuestions)
    else FirstQuestionError(questions)
  }

  /** Question `k` is the first to fail, and it fails with `e`. */
  predicate FailsFirstAt(questions: seq<Question>, k: int, e: ValidationError)
  {
    && 0 <= k < |questions|
    && QuestionError(questions[k]) == Some(e)
    && forall j :: 0 <= j < k ==> QuestionError(questions[j]).None?
  }

  /** A reported failure comes from the first failing question. */
  lemma {:induction false} FirstQuestionErrorLocated(questions: seq<Question>) returns (k: nat)
    requires FirstQuestionError(questions).Some?
    ensures FailsFirstAt(questions, k, FirstQuestionError(questions).value)
  {
    if QuestionError(questions[0]).Some? {
      k := 0;
    } else {
      var k' := FirstQuestionErrorLocated(questions[1..]);
      k := k' + 1;
      assert forall j :: 1 <= j < k ==> questions[j] == questions[1..][j - 1];
    }
  }

  /** The first failing question decides the failure reported. */
  lemma {:induction false} FirstFailureReported(questions: seq<Question>, k: nat, e: ValidationError)
    requires FailsFirstAt(questions, k, e)
    ensures FirstQuestionError(questions) == Some(e)
  {
    if k > 0 {
      assert QuestionError(questions[0]).None?;
      assert forall j :: 0 <= j < k - 1 ==> questions[1..][j] == questions[j + 1];
      FirstFailureReported(questions[1..], k - 1, e);
    }
  }

  /** The first failure wins: the scan reports error `e` exactly when some
      question fails with `e` and every question before it passes. */
  lemma FirstQuestionErrorIsFirst(questions: seq<Question>, e: ValidationError)
    ensures FirstQuestionError(questions) == Some(e) <==> exists k :: FailsFirstAt(questions, k, e)
  {
    if FirstQuestionError(questions) == Some(e) {
      var k := FirstQuestionErrorLocated(questions);
    }
    if exists k :: FailsFirstAt(questions, k, e) {
      var k :| FailsFirstAt(questions, k, e);
      FirstFailureReported(questions, k, e);
    }
  }

  /** The draft passes exactly when every check passes. */
  lemma {:induction false} ValidateAcceptsExactly(title: string, questions: seq<Question>)
    ensures Validate(title, questions).None? <==>
            && !IsBlank(title)
            && |questions| > 0
            && forall i :: 0 <= i < |questions| ==>
                 !IsBlank(questions[i].question) && !HasBlankOption(questions[i].options)
  {
    FirstQuestionErrorNone(questions);
  }

  lemma {:induction false} FirstQuestionErrorNone(questions: seq<Question>)
    ensures FirstQuestionError(questions).None? <==> forall i :: 0 <= i < |questions| ==> QuestionError(questions[i]).None?
  {
    if questions != [] {
      FirstQuestionErrorNone(questions[1..]);
      assert forall i :: 1 <= i < |questions| ==> questions[i] == questions[1..][i - 1];
    }
  }

  /** What a save ends in. */
  datatype SaveOutcome = Rejected(error: ValidationError) | InsertFailed | Saved(quiz: Quiz)

  /** The record `saveQuiz` inserts: trimmed title and description, the
      question list as it stands. */
  function QuizRecord(quizId: string, title: string, description: string, questions: seq<Question>,
                      createdAt: int): (q: Quiz)
    ensures q.id == quizId && q.questions == questions && q.createdAt == createdAt
    ensures q.title == Trim(title) && q.description == Trim(description)
    ensures Trim(q.title) == q.title && Trim(q.description) == q.description
    ensures q.title == [] <==> IsBlank(title)
  {
    TrimIdempotent(title);
    TrimIdempotent(description);
    TrimEmptyIffBlank(title);
    Quiz(quizId, Trim(title), Trim(description), questions, createdAt)
  }

  /** A saved quiz meets the data model's invariants: a non-empty trimmed title,
      at least one question, every question and option non-blank, and, for a
      draft kept in shape, four options and a correct index among them. */
  lemma SavedQuizIsPublishable(quizId: string, title: string, description: string,
                               questions: seq<Question>, createdAt: int)
    requires Validate(title, questions).None?
    requires forall i :: 0 <= i < |questions| ==> WellShaped(questions[i])
    ensures var q := QuizRecord(quizId, title, description, questions, createdAt);
            && q.title != [] && !IsWhiteSpace(q.title[0])
            && |q.questions| > 0
            && forall i :: 0 <= i < |q.questions| ==>
                 && !IsBlank(q.questions[i].question)
                 && |q.questions[i].options| == OptionCount
                 && 0 <= q.questions[i].correctAnswer < |q.questions[i].options|
                 && forall k :: 0 <= k < OptionCount ==> !IsBlank(q.questions[i].options[k])
  {
    ValidateAcceptsExactly(title, questions);
    forall i | 0 <= i < |questions|
      ensures forall k :: 0 <= k < OptionCount ==> !IsBlank(questions[i].options[k])
    {
      assert !HasBlankOption(questions[i].options);
    }
  }

  /** The draft being edited. */
  class Draft {
    var title: string
    var description: string
    var questions: seq<Question>

    ghost predicate Valid()
      reads this
    {
      forall i :: 0 <= i < |questions| ==> WellShaped(questions[i])
    }

    constructor ()
      ensures Valid()
      ensures title == "" && description == "" && questions == []
    {
      title, description, questions := "", "", [];
    }

    method SetTitle(value: string)
      modifies this`title
      ensures title == value
    {
      title := value;
    }

    method SetDescription(value: string)
      modifies this`description
      ensures description == value
    {
      description := value;
    }

    /** `addQuestion`; the id is the caller's clock reading. */
    method AddQuestion(newId: string)
      requires Valid()
      modifies this`questions
      ensures Valid()
      ensures questions == old(questions) + [NewQuestion(newId)]
    {
      questions := questions + [NewQuestion(newId)];
    }

    /** `updateQuestion`; a radio button only ever passes one of its own indices. */
    method UpdateQuestion(id: string, update: FieldUpdate)
      requires Valid()
      requires update.SetCorrectAnswer? ==> 0 <= update.index < OptionCount
      modifies this`questions
      ensures Valid()
      ensures questions == UpdateWhere(old(questions), id, update)
    {
      questions := UpdateWhere(questions, id, update);
    }

    /** `updateOption`. */
    method UpdateOption(id: string, optionIndex: int, value: string)
      requires Valid()
      modifies this`questions
      ensures Valid()
      ensures questions == UpdateOptionWhere(old(questions), id, optionIndex, value)
    {
      questions := UpdateOptionWhere(questions, id, optionIndex, value);
    }

    /** `removeQuestion`. */
    method RemoveQuestion(id: string)
      requires Valid()
      modifies this`questions
      ensures Valid()
      ensures questions == RemoveById(old(questions), id)
    {
      questions := RemoveById(questions, id);
    }

    /** `saveQuiz`: the checks run in order and the first failure returns
        before any insert; an insert error (`insertOk` false, the store's
        answer) leaves the store as it was and skips `onComplete`. */
    method SaveQuiz(store: seq<Quiz>, quizId: string, createdAt: int, insertOk: bool)
      returns (outcome: SaveOutcome, newStore: seq<Quiz>, completed: bool)
      ensures Validate(title, questions).Some? ==>
                outcome == Rejected(Validate(title, questions).value) && newStore == store && !completed
      ensures Validate(title, questions).None? && !insertOk ==>
                outcome == InsertFailed && newStore == store && !completed
      ensures Validate(title, questions).None? && insertOk ==>
                && outcome == Saved(QuizRecord(quizId, title, description, questions, createdAt))
                && newStore == store + [outcome.quiz]
                && completed
    {
      if IsBlank(title) {
        return Rejected(BlankTitle), store, false;
      }
      if |questions| == 0 {
        return Rejected(NoQuestions), store, false;
      }
      var i := 0;
      while i < |questions|
        invariant 0 <= i <= |questions|
        invariant FirstQuestionError(questions) == FirstQuestionError(questions[i..])
      {
        var question := questions[i];
        assert questions[i..][1..] == questions[i + 1..];
        if IsBlank(question.question) {
          return Rejected(BlankQuestionText), store, false;
        }
        if HasBlankOption(question.options) {
          return Rejected(BlankOption), store, false;
        }
        i := i + 1;
      }
      var quiz := QuizRecord(quizId, title, description, questions, createdAt);
      if !insertOk {
        return InsertFailed, store, false;
      }
      outcome, newStore, completed := Saved(quiz), store + [quiz], true;
    }
  }

}
