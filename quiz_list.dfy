/** The quiz list screen: fetched quizzes are normalised, fetched results are
    grouped into a dictionary keyed by quiz id, and each quiz card shows its
    attempt count, a guarded average and at most three recent participants. */
module QuizList {
  import opened Wrappers
  import opened QuizData

  /** The `questions` column as fetched: an array, or anything else. */
  datatype QuestionsColumn = QuestionArray(items: seq<Question>) | NotAnArray

  /** A quiz row as the store returns it; `created_at` may be missing. */
  datatype QuizRow = QuizRow(id: string, title: string, description: string, questions: QuestionsColumn,
                             createdAt: Option<int>)

  /** The normalisation applied to each fetched row: a non-array `questions`
      becomes the empty list, a missing creation time becomes `now`, and every
      other field is kept. */
  function Normalize(row: QuizRow, now: int): (q: Quiz)
    ensures q.id == row.id && q.title == row.title && q.description == row.description
    ensures row.questions.NotAnArray? ==> q.questions == []
    ensures row.questions.QuestionArray? ==> q.questions == row.questions.items
    ensures row.createdAt.Some? ==> q.createdAt == row.createdAt.value
    ensures row.createdAt.None? ==> q.createdAt == now
  {
    Quiz(row.id, row.title, row.description,
         if row.questions.QuestionArray? then row.questions.items else [],
         if row.createdAt.Some? then row.createdAt.value else now)
  }

  /** The results of one quiz, in fetch order. */
  function ResultsFor(results: seq<QuizResult>, quizId: string): (r: seq<QuizResult>)
    ensures |r| <= |results|
    ensures forall x :: x in r ==> x in results && x.quizId == quizId
    ensures forall x :: x in results && x.quizId == quizId ==> x in r
  {
    if results == [] then []
    else
      var last := results[|results| - 1];
      ResultsFor(results[..|results| - 1], quizId) + (if last.quizId == quizId then [last] else [])
  }

  /** Grouping keeps fetch order: the group of a concatenation is the groups
      of its parts, concatenated. */
  lemma {:induction false} ResultsForAppend(a: seq<QuizResult>, b: seq<QuizResult>, quizId: string)
    ensures ResultsFor(a + b, quizId) == ResultsFor(a, quizId) + ResultsFor(b, quizId)
    decreases |b|
  {
    if b == [] {
      assert a + b == a;
    } else {
      assert (a + b)[..|a + b| - 1] == a + b[..|b| - 1];
      ResultsForAppend(a, b[..|b| - 1], quizId);
    }
  }

  /** The quiz ids that occur among the results. */
  function QuizIds(results: seq<QuizResult>): set<string>
  {
    set i | 0 <= i < |results| :: results[i].quizId
  }

  /** What the grouping builds: a key for every quiz id that occurs, holding
      that quiz's results in fetch order. */
  ghost predicate GroupedBy(groups: map<string, seq<QuizResult>>, results: seq<QuizResult>)
  {
    && groups.Keys == QuizIds(results)
    && forall quizId :: quizId in groups ==> groups[quizId] == ResultsFor(results, quizId)
  }

  /** One step of the grouping: the result pushed to the end of its quiz's
      entry, created empty when missing. */
  function AddToGroup(groups: map<string, seq<QuizResult>>, result: QuizResult): map<string, seq<QuizResult>>
  {
    var key := result.quizId;
    groups[key := (if key in groups then groups[key] else []) + [result]]
  }

  /** Adding the next result to the grouping of a prefix gives the grouping
      of the longer prefix. */
  lemma {:induction false} GroupedByExtend(groups: map<string, seq<QuizResult>>, results: seq<QuizResult>,
                                           result: QuizResult)
    requires GroupedBy(groups, results)
    ensures GroupedBy(AddToGroup(groups, result), results + [result])
  {
    var all := results + [result];
    var key := result.quizId;
    assert all[..|all| - 1] == results;
    assert QuizIds(all) == QuizIds(results) + {key} by {
      assert forall k :: 0 <= k < |results| ==> all[k] == results[k];
      assert all[|results|] == result;
    }
    if key !in groups {
      ResultsForAbsent(results, key);
    }
  }

  /** The grouping effect: `forEach` result, create the entry for its quiz id
      when missing, then push the result to the end of that entry. */
  method GroupByQuiz(results: seq<QuizResult>) returns (groups: map<string, seq<QuizResult>>)
    ensures GroupedBy(groups, results)
  {
    groups := map[];
    for i := 0 to |results|
      invariant GroupedBy(groups, results[..i])
    {
      var result := results[i];
      ghost var before := groups;
      if result.quizId !in groups {
        groups := groups[result.quizId := []];
      }
      groups := groups[result.quizId := groups[result.quizId] + [result]];
      assert groups == AddToGroup(before, result);
      GroupedByExtend(before, results[..i], result);
      assert results[..i + 1] == results[..i] + [result];
    }
    assert results[..|results|] == results;
  }

  /** A quiz with no results has an empty group. */
  lemma {:induction false} ResultsForAbsent(results: seq<QuizResult>, quizId: string)
    requires quizId !in QuizIds(results)
    ensures ResultsFor(results, quizId) == []
  {
    if results != [] {
      var prefix := results[..|results| - 1];
      assert forall k :: 0 <= k < |prefix| ==> prefix[k] == results[k];
      assert QuizIds(prefix) <= QuizIds(results);
      ResultsForAbsent(prefix, quizId);
      assert results[|results| - 1].quizId in QuizIds(results);
    }
  }

  /** `getQuizResults`: the dictionary entry, or `[]` for a quiz nobody took. */
  function GetQuizResults(groups: map<string, seq<QuizResult>>, quizId: string): (r: seq<QuizResult>)
    ensures quizId !in groups ==> r == []
    ensures quizId in groups ==> r == groups[quizId]
  {
    if quizId in groups then groups[quizId] else []
  }

  /** Looking a quiz up in the grouped dictionary gives exactly its results
      in fetch order, including the empty list for a quiz without results. */
  lemma GetQuizResultsIsGroup(groups: map<string, seq<QuizResult>>, results: seq<QuizResult>, quizId: string)
    requires GroupedBy(groups, results)
    ensures GetQuizResults(groups, quizId) == ResultsFor(results, quizId)
  {
    if quizId !in groups {
      ResultsForAbsent(results, quizId);
    }
  }

  /** The total size of the groups of a list of distinct keys. */
  function GroupSizes(results: seq<QuizResult>, keys: seq<string>): nat
  {
    if keys == [] then 0 else |ResultsFor(results, keys[0])| + GroupSizes(results, keys[1..])
  }

  /** Each key in a list of distinct keys counts a result once if it is the
      result's quiz id, and not at all otherwise. */
  lemma {:induction false} GroupSizesAppendOne(results: seq<QuizResult>, x: QuizResult, keys: seq<string>)
    requires forall i, j :: 0 <= i < j < |keys| ==> keys[i] != keys[j]
    ensures GroupSizes(results + [x], keys) == GroupSizes(results, keys) + (if x.quizId in keys then 1 else 0)
  {
    if keys != [] {
      assert (results + [x])[..|results + [x]| - 1] == results;
      GroupSizesAppendOne(results, x, keys[1..]);
      assert x.quizId in keys[1..] ==> x.quizId != keys[0];
      assert x.quizId in keys <==> x.quizId == keys[0] || x.quizId in keys[1..];
    }
  }

  /** Every result lands in exactly one group: over any duplicate-free list of
      keys that covers the quiz ids, the group sizes add up to the number of
      results. */
  lemma {:induction false} GroupSizesSum(results: seq<QuizResult>, keys: seq<string>)
    requires forall i, j :: 0 <= i < j < |keys| ==> keys[i] != keys[j]
    requires forall i :: 0 <= i < |results| ==> results[i].quizId in keys
    ensures GroupSizes(results, keys) == |results|
    decreases |results|
  {
    if results == [] {
      GroupSizesOfNothing(keys);
    } else {
      var prefix := results[..|results| - 1];
      var x := results[|results| - 1];
      assert results == prefix + [x];
      GroupSizesSum(prefix, keys);
      GroupSizesAppendOne(prefix, x, keys);
    }
  }

  lemma {:induction false} GroupSizesOfNothing(keys: seq<string>)
    ensures GroupSizes([], keys) == 0
  {
    if keys != [] {
      GroupSizesOfNothing(keys[1..]);
    }
  }

  /** The card's average score before rounding: nothing for a quiz without
      results (the card shows 0), otherwise the percentage as the fraction
      `100 * sum / (results.length * questions.length)`. */
  datatype AverageScore = NoAttempts | Fraction(numerator: int, denominator: nat)

  function AvgScore(results: seq<QuizResult>, questionCount: nat): (a: AverageScore)
    ensures a.NoAttempts? <==> |results| == 0
    ensures a.Fraction? && questionCount > 0 ==> a.denominator > 0
    ensures a.Fraction? ==> a.numerator == 100 * SumScores(results) && a.denominator == |results| * questionCount
  {
    if |results| > 0 then Fraction(100 * SumScores(results), |results| * questionCount) else NoAttempts
  }

  /** When every result scored between 0 and the question count, the average
      is a percentage between 0 and 100. */
  lemma AvgScoreIsPercentage(results: seq<QuizResult>, questionCount: nat)
    requires |results| > 0 && questionCount > 0
    requires forall i :: 0 <= i < |results| ==> 0 <= results[i].score <= questionCount
    ensures 0 <= AvgScore(results, questionCount).numerator <= 100 * AvgScore(results, questionCount).denominator
  {
    ScoresWithinBounds(results, questionCount);
  }

  lemma {:induction false} ScoresWithinBounds(results: seq<QuizResult>, bound: nat)
    requires forall i :: 0 <= i < |results| ==> 0 <= results[i].score <= bound
    ensures 0 <= SumScores(results) <= |results| * bound
  {
    if results != [] {
      ScoresWithinBounds(results[..|results| - 1], bound);
    }
  }

  /** How many recent participants a card lists. */
  const RecentLimit := 3

  /** The recent-participants panel, shown only when the quiz has results:
      the first results and, when more exist, how many more. */
  datatype RecentPanel = RecentPanel(shown: seq<QuizResult>, more: Option<nat>)

  function RecentPanelOf(results: seq<QuizResult>): (p: Option<RecentPanel>)
    ensures p.Some? <==> |results| > 0
    ensures p.Some? ==> |p.value.shown| == (if |results| < RecentLimit then |results| else RecentLimit)
    ensures p.Some? ==> p.value.shown == results[..|p.value.shown|]
    ensures p.Some? ==> (p.value.more.Some? <==> |results| > RecentLimit)
    ensures p.Some? && p.value.more.Some? ==> |p.value.shown| + p.value.more.value == |results|
  {
    if |results| == 0 then None
    else
      var shown := if |results| < RecentLimit then results else results[..RecentLimit];
      Some(RecentPanel(shown, if |results| > RecentLimit then Some(|results| - RecentLimit) else None))
  }

}
