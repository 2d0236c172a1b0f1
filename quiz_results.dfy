/** The results screen: the threshold ladders that colour a score and label
    its badge, the statistics shown only when there are results, and the
    leaderboard, whose rank is the position in fetch order. The screen does
    not sort. */
module QuizResults {
  import opened Wrappers
  import opened QuizData

  /** Whether `score / total * 100` reaches `percent`, compared exactly;
      over a zero total the quotient is +Infinity exactly for a positive
      score. */
  predicate Reaches(score: int, total: nat, percent: int)
  {
    if total == 0 then score > 0 else 100 * score >= percent * total
  }

  /** `getScoreColor`'s four classes. */
  datatype ScoreColor = Green | Blue | Yellow | Red

  /** `getScoreColor(score, total)`: the percentage `score / total * 100`
      against inclusive lower bounds 90, 70 and 50, the first match winning;
      compared exactly, as `100 * score >= bound * total`. Over a total of 0
      the quotient is +Infinity for a positive score, which passes every
      bound, and NaN or -Infinity otherwise, which passes none. */
  function ScoreColorOf(score: int, total: nat): (c: ScoreColor)
    ensures c == Green <==> Reaches(score, total, 90)
    ensures c == Blue <==> Reaches(score, total, 70) && !Reaches(score, total, 90)
    ensures c == Yellow <==> Reaches(score, total, 50) && !Reaches(score, total, 70)
    ensures c == Red <==> !Reaches(score, total, 50)
  {
    if total == 0 then (if score > 0 then Green else Red)
    else if 100 * score >= 90 * total then Green
    else if 100 * score >= 70 * total then Blue
    else if 100 * score >= 50 * total then Yellow
    else Red
  }

  /** The badge labels. */
  datatype BadgeLabel = Excellent | Good | Average | NeedsImprovement

  /** The badge label: the ratio `score / total` against 0.9, 0.7 and 0.5,
      with the same reading of a zero total. */
  function BadgeLabelOf(score: int, total: nat): (b: BadgeLabel)
    ensures b == Excellent <==> Reaches(score, total, 90)
    ensures b == Good <==> Reaches(score, total, 70) && !Reaches(score, total, 90)
    ensures b == Average <==> Reaches(score, total, 50) && !Reaches(score, total, 70)
    ensures b == NeedsImprovement <==> !Reaches(score, total, 50)
  {
    if total == 0 then (if score > 0 then Excellent else NeedsImprovement)
    else if 10 * score >= 9 * total then Excellent
    else if 10 * score >= 7 * total then Good
    else if 2 * score >= total then Average
    else NeedsImprovement
  }

  /** The badge variants. */
  datatype BadgeVariant = Default | Secondary | Outline

  /** The badge variant: its own two-step ladder on the same ratio. */
  function BadgeVariantOf(score: int, total: nat): (v: BadgeVariant)
    ensures v == Default <==> Reaches(score, total, 90)
    ensures v == Secondary <==> Reaches(score, total, 70) && !Reaches(score, total, 90)
    ensures v == Outline <==> !Reaches(score, total, 70)
  {
    if total == 0 then (if score > 0 then Default else Outline)
    else if 10 * score >= 9 * total then Default
    else if 10 * score >= 7 * total then Secondary
    else Outline
  }

  /** The variant each label is meant to carry. */
  function VariantFor(badge: BadgeLabel): BadgeVariant
  {
    match badge
    case Excellent => Default
    case Good => Secondary
    case Average => Outline
    case NeedsImprovement => Outline
  }

  /** The grade a colour stands for, 3 the best. */
  function ColorGrade(c: ScoreColor): nat
  {
    match c
    case Green => 3
    case Blue => 2
    case Yellow => 1
    case Red => 0
  }

  /** The grade a label stands for, 3 the best. */
  function LabelGrade(badge: BadgeLabel): nat
  {
    match badge
    case Excellent => 3
    case Good => 2
    case Average => 1
    case NeedsImprovement => 0
  }

  /** The colour ladder in percent and the label ladder in ratios classify
      every score alike: green is excellent, blue good, yellow average, red
      needs improvement. */
  lemma ColorAgreesWithLabel(score: int, total: nat)
    ensures ColorGrade(ScoreColorOf(score, total)) == LabelGrade(BadgeLabelOf(score, total))
  {
    assert 100 * score >= 90 * total <==> 10 * score >= 9 * total;
    assert 100 * score >= 70 * total <==> 10 * score >= 7 * total;
    assert 100 * score >= 50 * total <==> 2 * score >= total;
  }

  /** The variant ladder agrees with the label ladder: Average and Needs
      Improvement share the outline variant. */
  lemma VariantFollowsLabel(score: int, total: nat)
    ensures BadgeVariantOf(score, total) == VariantFor(BadgeLabelOf(score, total))
  {
  }

  /** With the total fixed, a higher score never gets a lower colour. */
  lemma ColorMonotone(low: int, high: int, total: nat)
    requires low <= high
    ensures ColorGrade(ScoreColorOf(low, total)) <= ColorGrade(ScoreColorOf(high, total))
  {
  }

  /** With the total fixed, a higher score never gets a lower label. */
  lemma LabelMonotone(low: int, high: int, total: nat)
    requires low <= high
    ensures LabelGrade(BadgeLabelOf(low, total)) <= LabelGrade(BadgeLabelOf(high, total))
  {
  }

  /** `Math.max(...results.map(r => r.score))`, taken only over a non-empty list. */
  function BestScore(results: seq<QuizResult>): (best: int)
    requires |results| > 0
    ensures forall i :: 0 <= i < |results| ==> results[i].score <= best
    ensures exists i :: 0 <= i < |results| && results[i].score == best
  {
    if |results| == 1 then results[0].score
    else
      var rest := BestScore(results[1..]);
      assert forall i :: 1 <= i < |results| ==> results[i] == results[1..][i - 1];
      if results[0].score >= rest then results[0].score else rest
  }

  /** The best score is at least the average: the score total is at most the
      number of results times the best score. */
  lemma {:induction false} BestAtLeastAverage(results: seq<QuizResult>)
    requires |results| > 0
    ensures SumScores(results) <= |results| * BestScore(results)
  {
    var best := BestScore(results);
    AllBelowSumBound(results, best);
  }

  lemma {:induction false} AllBelowSumBound(results: seq<QuizResult>, bound: int)
    requires forall i :: 0 <= i < |results| ==> results[i].score <= bound
    ensures SumScores(results) <= |results| * bound
  {
    if results != [] {
      AllBelowSumBound(results[..|results| - 1], bound);
    }
  }

  /** The four statistics cards: participants, the score and time totals
      behind the two averages, and the best score. */
  datatype Statistics = Statistics(participants: nat, scoreSum: int, timeSum: int, bestScore: int)

  /** The statistics block is rendered only for a non-empty result list, so
      every division by `results.length` divides by a positive number. */
  function StatisticsOf(results: seq<QuizResult>): (s: Option<Statistics>)
    ensures s.Some? <==> |results| > 0
    ensures s.Some? ==> s.value.participants == |results| && s.value.participants > 0
    ensures s.Some? ==> forall i :: 0 <= i < |results| ==> results[i].score <= s.value.bestScore
    ensures s.Some? ==> s.value.scoreSum <= s.value.participants * s.value.bestScore
    ensures s.Some? ==> s.value.scoreSum == SumScores(results) && s.value.timeSum == SumTimes(results)
    ensures s.Some? ==> s.value.bestScore == BestScore(results)
  {
    if |results| == 0 then None
    else
      BestAtLeastAverage(results);
      Some(Statistics(|results|, SumScores(results), SumTimes(results), BestScore(results)))
  }

  /** The icon `getRankIcon` picks. */
  datatype RankIcon = Trophy | Medal | Award | Target

  function RankIconOf(rank: int): (icon: RankIcon)
    ensures icon != Target <==> 1 <= rank <= 3
    ensures icon == Trophy <==> rank == 1
    ensures icon == Medal <==> rank == 2
    ensures icon == Award <==> rank == 3
  {
    if rank == 1 then Trophy else if rank == 2 then Medal else if rank == 3 then Award else Target
  }

  /** The row background chosen by the row's index. */
  datatype RowTint = YellowTint | GrayTint | OrangeTint | WhiteTint

  function RowTintOf(index: int): (tint: RowTint)
    ensures tint != WhiteTint <==> 0 <= index <= 2
    ensures tint == YellowTint <==> index == 0
    ensures tint == GrayTint <==> index == 1
    ensures tint == OrangeTint <==> index == 2
  {
    if index == 0 then YellowTint else if index == 1 then GrayTint else if index == 2 then OrangeTint else WhiteTint
  }

  /** One leaderboard row. */
  datatype Row = Row(rank: nat, icon: RankIcon, tint: RowTint, result: QuizResult)

  /** `results.map((result, index) => ...)`: row `index` shows rank `index + 1`. */
  function Leaderboard(results: seq<QuizResult>): (rows: seq<Row>)
    ensures |rows| == |results|
  {
    seq(|results|, index requires 0 <= index < |results| =>
      Row(index + 1, RankIconOf(index + 1), RowTintOf(index), results[index]))
  }

  /** The leaderboard is the fetched list in fetch order, numbered 1, 2, ...:
      it shows each result once, and ranks are distinct and consecutive. */
  lemma LeaderboardKeepsFetchOrder(results: seq<QuizResult>)
    ensures forall i :: 0 <= i < |results| ==> Leaderboard(results)[i].result == results[i]
    ensures forall i, j :: 0 <= i < j < |results| ==> Leaderboard(results)[i].rank < Leaderboard(results)[j].rank
    ensures forall i :: 0 <= i < |results| ==> 1 <= Leaderboard(results)[i].rank <= |results|
    ensures forall i :: 0 <= i < |results| ==>
              Leaderboard(results)[i].icon == RankIconOf(i + 1) && Leaderboard(results)[i].tint == RowTintOf(i)
  {
  }

  /** The podium icons and the podium tints pick out the same three rows. */
  lemma PodiumIconAndTintAgree(results: seq<QuizResult>, i: nat)
    requires i < |results|
    ensures Leaderboard(results)[i].icon == Trophy <==> Leaderboard(results)[i].tint == YellowTint
    ensures Leaderboard(results)[i].icon == Medal <==> Leaderboard(results)[i].tint == GrayTint
    ensures Leaderboard(results)[i].icon == Award <==> Leaderboard(results)[i].tint == OrangeTint
    ensures Leaderboard(results)[i].icon == Target <==> Leaderboard(results)[i].tint == WhiteTint
  {
    assert Leaderboard(results)[i] == Row(i + 1, RankIconOf(i + 1), RowTintOf(i), results[i]);
  }

  /** The rank is not by score: when a lower score was fetched first, it
      holds rank 1 above a higher one. */
  lemma RankIgnoresScore(low: QuizResult, high: QuizResult)
    requires low.score < high.score
    ensures Leaderboard([low, high])[0].rank == 1 && Leaderboard([low, high])[0].result == low
    ensures Leaderboard([low, high])[1].rank == 2 && Leaderboard([low, high])[1].result == high
  {
  }

  /** The caption's noun: "participant" for exactly one, "participants" otherwise. */
  function ParticipantNoun(count: nat): (noun: string)
    ensures |noun| >= 11 && noun[..11] == "participant"
    ensures |noun| == 11 <==> count == 1
    ensures count != 1 ==> noun == "participants"
  {
    "participant" + (if count != 1 then "s" else "")
  }

}
