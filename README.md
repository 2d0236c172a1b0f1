# Quiz Master, modelled in Dafny

A model of the core of Quiz Master, a single-page quiz application. Authors build
quizzes of four-option questions, take them under a name with a running timer,
see scores, badges and a leaderboard, browse every quiz with its attempt
statistics, and share a quiz through a link and a placeholder QR picture.

The model follows the program's components, one module each:

- `QuizTaker` (quiz_taker.dfy): the attempt. The class `Attempt` holds the
  screen's state (quiz, cursor, answers, name, started flag, seconds). Its
  methods are the handlers: load, start, select, next, previous and submit.
  Scoring is a loop proved against the specification function `Score`.
- `QuizCreator` (quiz_creator.dfy): the authoring screen. The class `Draft`
  holds title, description and questions. The list transforms are functions.
  `SaveQuiz` runs the ordered validation loop and builds the stored record.
- `QuizResults` (quiz_results.dfy): the colour, badge label and badge variant
  ladders; the best score; statistics shown only for a non-empty result list;
  and the leaderboard ranked by fetch position.
- `QuizList` (quiz_list.dfy): row normalisation, grouping the results by quiz id
  (a loop over a dictionary), the dictionary lookup, the guarded average and
  the recent-participants panel.
- `QRCodeGenerator` (qr_code_generator.dfy): the int32 string hash, the 20 by 20
  cell picture drawn on a 2-D array (pattern, then three corner markers), the
  share URL and the download file name.
- `IndexPage` (index_page.dfy): the page's `currentView`/`selectedQuizId` state
  machine, the `quiz` query-parameter effect, and the choice of screen.
- Shared modules: `QuizData` (records and sums), `Text` (ECMAScript `trim`,
  `indexOf`, `split`), `TimeFormat` (`m:ss`) and `Wrappers` (`Option`).

Stores (the browser's local storage and the hosted database) are sequences that
the operations take and return. The clock, the store's insert status and the
page origin are parameters.

Where the specification and the code differ, the model follows the code:

- The results screen does not sort. Rank is the position in fetch order
  (`RankIgnoresScore`).
- The page's `if` chain tests the selected id by JavaScript truthiness, so an
  empty id falls through to the home screen like a missing one.
- The creator saves to the hosted `quizzes` table, while the attempt screen
  reads quizzes from local storage. The model keeps the two stores apart.

## Model

| member | source | states |
|---|---|---|
| QuizData.SumScores | src/components/QuizResults.tsx:130 | the `reduce` from 0: no results sum to 0 and one result to its own score |
| QuizData.SumTimes | src/components/QuizResults.tsx:139 | the time `reduce` from 0: no results sum to 0 and one result to its own time; with SumTimesAppend this pins the sum of all times |
| QuizData.SumScoresAppend | src/components/QuizResults.tsx:130 | the score total of a concatenation is the sum of the parts' totals |
| QuizData.SumTimesAppend | src/components/QuizResults.tsx:139 | the time total of a concatenation is the sum of the parts' totals |
| Text.LeadingWhiteSpace | src/components/QuizTaker.tsx:61 | counts exactly the leading ECMAScript white space: every counted character is white space and the next one is not |
| Text.TrailingWhiteSpace | src/components/QuizTaker.tsx:61 | counts exactly the trailing white space: every counted character is white space and the one before them is not |
| Text.Trim | src/components/QuizTaker.tsx:61 | `trim()` is no longer than its input, and the result neither starts nor ends with whitespace |
| Text.TrimRemovesOnlyWhiteSpace | src/components/QuizTaker.tsx:61 | the input is the white space dropped at the front, the trimmed text, and the white space dropped at the back |
| Text.TrimEmptyIffBlank | src/components/QuizCreator.tsx:66 | `!s.trim()` holds exactly when every character of `s` is whitespace |
| Text.TrimIdempotent | src/components/QuizTaker.tsx:105 | trimming the stored, trimmed name again changes nothing |
| Text.IndexOf | src/pages/Index.tsx:21 | the first position of the character, or the length when it is absent |
| Text.IndexOfAppend | src/pages/Index.tsx:21 | in a concatenation, the first occurrence is in the left part if it holds the character, else it is offset into the right part |
| Text.Split | src/pages/Index.tsx:21 | splitting yields at least one part, and no part contains the separator |
| Text.SplitWithoutSeparator | src/pages/Index.tsx:21 | a string without the separator splits into itself alone |
| Text.SplitJoin | src/pages/Index.tsx:21 | splitting loses nothing: the parts joined with the separator give back the string |
| TimeFormat.DigitChar | src/components/QuizTaker.tsx:127 | each digit is written as a decimal digit character |
| TimeFormat.Decimal | src/components/QuizTaker.tsx:127 | `toString()` of a natural number: non-empty, all digits, and no leading zero except for 0 itself |
| TimeFormat.ParseDecimalOfDecimal | src/components/QuizTaker.tsx:127 | reading the decimal text back gives the number |
| TimeFormat.DecimalInjective | src/components/QuizTaker.tsx:127 | distinct numbers have distinct decimal texts |
| TimeFormat.PadTwo | src/components/QuizTaker.tsx:127 | `padStart(2, '0')` has length two, or the input's length when that is longer |
| TimeFormat.PadTwoAddsZeros | src/components/QuizTaker.tsx:127 | padding keeps the input at the end and adds only `'0'` characters in front |
| TimeFormat.PadTwoOfSeconds | src/components/QuizTaker.tsx:127 | `padStart(2, '0')` of a seconds count below 60 is exactly two digits |
| TimeFormat.FormatTime | src/components/QuizTaker.tsx:124-128 | `formatTime` (the same code is at QuizResults.tsx:60-64) ends in `:` and two digits, preceded by the minutes' digits, which start with 0 only for zero minutes |
| TimeFormat.ParseTime | src/components/QuizTaker.tsx:124-128 | a reading exists only for text of the shape digits, `:`, two digits below 60 |
| TimeFormat.FormatTimeRoundTrip | src/components/QuizTaker.tsx:124-128 | parsing `formatTime(s)` gives back `s`: minutes are `floor(s/60)` and seconds `s % 60` |
| TimeFormat.FormatTimeInjective | src/components/QuizTaker.tsx:124-128 | different elapsed times are shown differently |
| QuizTaker.FindQuiz | src/components/QuizTaker.tsx:43 | `find` returns nothing exactly when no quiz has the id, and otherwise the first quiz with it |
| QuizTaker.Score | src/components/QuizTaker.tsx:94-99 | the score never exceeds the number of questions |
| QuizTaker.ScoreCountsCorrectPositions | src/components/QuizTaker.tsx:94-99 | the score is the number of positions whose answer equals the correct option |
| QuizTaker.ScorePerfect | src/components/QuizTaker.tsx:94-99 | answering every question correctly scores the number of questions |
| QuizTaker.ScoreAllUnanswered | src/components/QuizTaker.tsx:94-99 | with every answer still -1, the score is 0 |
| QuizTaker.ScoreIgnoresLaterAnswers | src/components/QuizTaker.tsx:94-99 | answers past the last question do not affect the score |
| QuizTaker.ComputeScore | src/components/QuizTaker.tsx:94-99 | the `forEach` counting loop computes `Score`, at most the question count |
| QuizTaker.ResultRecord | src/components/QuizTaker.tsx:102-111 | the stored record carries the ids, score, question count, time, date and answers given, and the typed name trimmed, which is empty exactly when the typed name is blank |
| QuizTaker.Attempt.SubmitEnabled | src/components/QuizTaker.tsx:249-256 | the Submit button is enabled only on the last question of a loaded quiz, and then, with the attempt invariant, no answer is -1 |
| QuizTaker.Attempt.Load | src/components/QuizTaker.tsx:40-48 | mounting finds the first quiz with the id and fills one -1 answer per question; without a quiz the answers stay empty |
| QuizTaker.Attempt.SetUserName | src/components/QuizTaker.tsx:35 | the name field sets the name |
| QuizTaker.Attempt.StartQuiz | src/components/QuizTaker.tsx:60-70 | starting is refused exactly when the trimmed name is empty; otherwise the attempt is started |
| QuizTaker.Attempt.Tick | src/components/QuizTaker.tsx:50-58 | a timer tick adds one second only while started with a quiz loaded |
| QuizTaker.Attempt.SelectAnswer | src/components/QuizTaker.tsx:72-76 | only the answer under the cursor changes, to the chosen option, and the attempt invariant is kept |
| QuizTaker.Attempt.NextQuestion | src/components/QuizTaker.tsx:78-82 | the cursor advances unless on the last question; reached only through the enabled Next button (lines 258-261) |
| QuizTaker.Attempt.PrevQuestion | src/components/QuizTaker.tsx:84-88 | the cursor steps back unless on the first question |
| QuizTaker.Attempt.SubmitQuiz | src/components/QuizTaker.tsx:90-122 | without a quiz nothing happens; otherwise exactly one record with the trimmed name, the score and the question count is appended, the older results are kept, and through the enabled button no stored answer is -1 |
| QuizCreator.NewQuestion | src/components/QuizCreator.tsx:38-43 | a new question has the given id, blank text, four blank options and correct answer 0 |
| QuizCreator.UpdateWhere | src/components/QuizCreator.tsx:47-51 | only the questions with the id change, only in the edited field; ids, options and order are kept |
| QuizCreator.ReplaceOption | src/components/QuizCreator.tsx:56 | the option map replaces the option at that index when it is in range, and changes nothing otherwise |
| QuizCreator.UpdateOptionWhere | src/components/QuizCreator.tsx:53-59 | only the questions with the id get the option replaced, and an index outside their options changes nothing; every other field and question is kept |
| QuizCreator.RemoveById | src/components/QuizCreator.tsx:61-63 | `filter` keeps exactly the questions with another id |
| QuizCreator.RemoveByIdAppend | src/components/QuizCreator.tsx:61-63 | filtering keeps the order of the questions |
| QuizCreator.RemoveAbsentId | src/components/QuizCreator.tsx:61-63 | removing an id nobody has changes nothing, so a second removal is a no-op |
| QuizCreator.QuestionError | src/components/QuizCreator.tsx:86-101 | a question passes exactly when its text and every option are non-blank; blank text is reported as such, before any option |
| QuizCreator.FirstQuestionError | src/components/QuizCreator.tsx:85-102 | the question loop reports only text or option failures, and none for an empty list |
| QuizCreator.Validate | src/components/QuizCreator.tsx:65-102 | a blank title is reported exactly when the title is blank; no questions exactly when the title passes and the list is empty; otherwise the question loop decides |
| QuizCreator.FirstQuestionErrorLocated | src/components/QuizCreator.tsx:85-102 | a reported question error is the failure of some question whose predecessors all pass |
| QuizCreator.FirstFailureReported | src/components/QuizCreator.tsx:85-102 | the first failing question's failure is the one reported |
| QuizCreator.FirstQuestionErrorIsFirst | src/components/QuizCreator.tsx:85-102 | the loop reports error `e` exactly when some question fails with `e` and all before it pass |
| QuizCreator.ValidateAcceptsExactly | src/components/QuizCreator.tsx:65-102 | validation passes exactly when the title is not blank, there is a question, and every question text and option is non-blank |
| QuizCreator.FirstQuestionErrorNone | src/components/QuizCreator.tsx:85-102 | no question error is reported exactly when every question passes both checks |
| QuizCreator.QuizRecord | src/components/QuizCreator.tsx:104-110 | the record keeps id, questions and date, stores the typed title and description trimmed (trimming again changes nothing), and its title is empty exactly when the typed title is blank |
| QuizCreator.SavedQuizIsPublishable | src/components/QuizCreator.tsx:104-110 | a saved quiz has a non-blank trimmed title, at least one question, non-blank texts and options, and four options with the correct index among them |
| QuizCreator.Draft.constructor | src/components/QuizCreator.tsx:32-34 | the draft starts empty |
| QuizCreator.Draft.SetTitle | src/components/QuizCreator.tsx:32 | the title field sets the title |
| QuizCreator.Draft.SetDescription | src/components/QuizCreator.tsx:33 | the description field sets the description |
| QuizCreator.Draft.AddQuestion | src/components/QuizCreator.tsx:37-45 | appends one question with empty text, four empty options and option 0 correct, keeping every question well shaped |
| QuizCreator.Draft.UpdateQuestion | src/components/QuizCreator.tsx:47-51 | the questions become `UpdateWhere` of the old ones, still well shaped |
| QuizCreator.Draft.UpdateOption | src/components/QuizCreator.tsx:53-59 | the questions become `UpdateOptionWhere` of the old ones, still well shaped |
| QuizCreator.Draft.RemoveQuestion | src/components/QuizCreator.tsx:61-63 | the questions become the old ones without that id, still well shaped |
| QuizCreator.Draft.SaveQuiz | src/components/QuizCreator.tsx:65-128 | the first failing check in order rejects with its error and leaves the store alone; a failed insert leaves the store alone; otherwise the trimmed record is appended and the screen completes |
| QuizResults.ScoreColorOf | src/components/QuizResults.tsx:66-72 | green from 90 percent, blue from 70 below 90, yellow from 50 below 70, red below 50; a zero total counts as reaching every band exactly for a positive score |
| QuizResults.BadgeLabelOf | src/components/QuizResults.tsx:200-202 | Excellent, Good, Average and Needs Improvement over the same four bands |
| QuizResults.BadgeVariantOf | src/components/QuizResults.tsx:195-199 | default from 90 percent, secondary from 70 below 90, outline below 70 |
| QuizResults.ColorAgreesWithLabel | src/components/QuizResults.tsx:66-72 | the colour ladder and the badge label ladder (lines 200-202) classify every score alike |
| QuizResults.VariantFollowsLabel | src/components/QuizResults.tsx:195-202 | the badge variant is the one each label is meant to carry |
| QuizResults.ColorMonotone | src/components/QuizResults.tsx:66-72 | at a fixed total, a higher score never gets a lower colour |
| QuizResults.LabelMonotone | src/components/QuizResults.tsx:200-202 | at a fixed total, a higher score never gets a lower label |
| QuizResults.BestScore | src/components/QuizResults.tsx:148 | `Math.max` over the scores is at least every score and is one of them |
| QuizResults.BestAtLeastAverage | src/components/QuizResults.tsx:130-148 | the score total is at most the participant count times the best score |
| QuizResults.AllBelowSumBound | src/components/QuizResults.tsx:130 | scores bounded by `b` sum to at most the count times `b` |
| QuizResults.StatisticsOf | src/components/QuizResults.tsx:107-150 | statistics exist exactly for a non-empty list, so the divisor is positive; they hold the participant count, the score total (line 130), the time total (line 139) and the best score (line 148), which bounds every score |
| QuizResults.RankIconOf | src/components/QuizResults.tsx:74-81 | trophy exactly for rank 1, medal exactly for rank 2, award exactly for rank 3, and the target for every other rank |
| QuizResults.RowTintOf | src/components/QuizResults.tsx:168-173 | yellow exactly for row 0, gray exactly for row 1, orange exactly for row 2, and white for every other row |
| QuizResults.Leaderboard | src/components/QuizResults.tsx:165-178 | one row per fetched result |
| QuizResults.LeaderboardKeepsFetchOrder | src/components/QuizResults.tsx:165-178 | row `i` shows result `i` with rank `i + 1`, the icon of rank `i + 1` and the tint of index `i`: ranks are distinct, increasing and within 1..n |
| QuizResults.PodiumIconAndTintAgree | src/components/QuizResults.tsx:74-80 | the trophy, medal and award icons fall on the same rows as the yellow, gray and orange tints (lines 169-172) |
| QuizResults.RankIgnoresScore | src/components/QuizResults.tsx:165-178 | a lower score fetched first ranks above a higher score: the screen does not sort |
| QuizResults.ParticipantNoun | src/components/QuizResults.tsx:102 | the caption says "participant", with an "s" exactly when the count is not 1 |
| QuizList.Normalize | src/components/QuizList.tsx:33-37 | a non-array `questions` becomes empty, a missing creation time becomes now, and other fields are kept |
| QuizList.ResultsFor | src/components/QuizList.tsx:50-53 | a quiz's group holds exactly the results with its id |
| QuizList.ResultsForAppend | src/components/QuizList.tsx:50-53 | grouping keeps fetch order |
| QuizList.GroupedByExtend | src/components/QuizList.tsx:50-53 | pushing the next result onto its quiz's entry (created when missing) turns the grouping of a prefix into the grouping of the longer prefix |
| QuizList.GroupByQuiz | src/components/QuizList.tsx:49-54 | the loop builds one key per quiz id that occurs, holding that quiz's results in fetch order |
| QuizList.GetQuizResults | src/components/QuizList.tsx:60-62 | the group stored under the id, or the empty list when the dictionary has no entry, the fallback to `[]` |
| QuizList.ResultsForAbsent | src/components/QuizList.tsx:51 | a quiz id that never occurs has an empty group |
| QuizList.GetQuizResultsIsGroup | src/components/QuizList.tsx:60-62 | looking a quiz up gives its results, and `[]` for a quiz nobody took |
| QuizList.GroupSizesAppendOne | src/components/QuizList.tsx:50-53 | a new result adds one to the group of its own id and to no other |
| QuizList.GroupSizesSum | src/components/QuizList.tsx:50-53 | every result lands in exactly one group: the group sizes add up to the number of results |
| QuizList.GroupSizesOfNothing | src/components/QuizList.tsx:50-53 | with no results, every group is empty |
| QuizList.AvgScore | src/components/QuizList.tsx:87-89 | the average exists exactly when the quiz has results; it is 100 times the score total over the result count times the question count, a positive divisor when the quiz has questions |
| QuizList.AvgScoreIsPercentage | src/components/QuizList.tsx:87-89 | with scores between 0 and the question count, the average lies between 0 and 100 percent |
| QuizList.ScoresWithinBounds | src/components/QuizList.tsx:88 | scores between 0 and `b` sum to between 0 and the count times `b` |
| QuizList.RecentPanelOf | src/components/QuizList.tsx:150-168 | the panel appears exactly for a quiz with results, lists its first min(3, n) results, and shows "+n-3 more" exactly when n > 3 |
| QRCodeGenerator.ToInt32 | src/components/QRCodeGenerator.tsx:38-39 | the 32-bit wrap lands in the int32 range and is congruent to its input modulo 2^32 |
| QRCodeGenerator.ToInt32Shift | src/components/QRCodeGenerator.tsx:38-39 | adding a multiple of 2^32 does not change the wrapped value |
| QRCodeGenerator.HashStep | src/components/QRCodeGenerator.tsx:38-39 | one fold step returns an int32, as `a & a` does |
| QRCodeGenerator.HashStepIsTimes31 | src/components/QRCodeGenerator.tsx:38-39 | `((a << 5) - a) + c`, wrapped, is `31 * a + c` wrapped |
| QRCodeGenerator.Hash | src/components/QRCodeGenerator.tsx:37-40 | the fold's value is an int32 |
| QRCodeGenerator.HashIsWrappedPolynomial | src/components/QRCodeGenerator.tsx:37-40 | the hash is the polynomial string hash with base 31, wrapped to int32 |
| QRCodeGenerator.MarkerLayout | src/components/QRCodeGenerator.tsx:48-66 | the three 3 by 3 corner blocks are dark except their centres (1,1), (18,1) and (1,18) |
| QRCodeGenerator.OutsideMarkersKeepPattern | src/components/QRCodeGenerator.tsx:34-46 | every cell outside the three marked corners, including the bottom-right corner, keeps its pattern value |
| QRCodeGenerator.PatternByResidue | src/components/QRCodeGenerator.tsx:42 | a pattern cell depends on the hash only through its absolute value modulo 3 |
| QRCodeGenerator.SamePictureIffSameResidue | src/components/QRCodeGenerator.tsx:34-66 | two texts draw the same picture exactly when their absolute hashes agree modulo 3 |
| QRCodeGenerator.SameHashPictureIffSameResidue | src/components/QRCodeGenerator.tsx:34-66 | two hashes give the same picture exactly when their absolute values agree modulo 3 |
| QRCodeGenerator.FillRect | src/components/QRCodeGenerator.tsx:43 | `fillRect` paints exactly the cells of the rectangle inside the canvas and leaves the others |
| QRCodeGenerator.GenerateQRCode | src/components/QRCodeGenerator.tsx:18-67 | clear, pattern and markers draw exactly the picture `CodeCell` of the text |
| QRCodeGenerator.ShareUrl | src/components/QRCodeGenerator.tsx:100 | the link is the origin, then `/?quiz=`, then the quiz id |
| QRCodeGenerator.DrawShareCode | src/components/QRCodeGenerator.tsx:69-74 | the dialog draws the picture of the share link |
| QRCodeGenerator.DownloadName | src/components/QRCodeGenerator.tsx:79 | the file name wraps the quiz id in `quiz-` and `-qr-code.png` |
| QRCodeGenerator.DownloadNameInjective | src/components/QRCodeGenerator.tsx:79 | different quizzes download under different names |
| IndexPage.ScreenFor | src/pages/Index.tsx:38-114 | the creator, list, attempt and results screens are shown exactly for their views, attempt and results only with a truthy id (the one Index passes as the `quizId` prop), and home otherwise |
| IndexPage.SearchOf | src/pages/Index.tsx:21 | `location.search` is empty or a `?` with a query, and never holds the fragment |
| IndexPage.SearchOfQuery | src/pages/Index.tsx:21 | for a URL with a `?` before any `#`, the search is `?` and the query up to the fragment, or `""` when that query is empty |
| IndexPage.SearchOfNoQuery | src/pages/Index.tsx:21 | for a URL with no `?` before its fragment, the search is `""` |
| IndexPage.FirstNamed | src/pages/Index.tsx:22 | the position of the first non-empty pair with the name, or the pair count when none has it |
| IndexPage.Lookup | src/pages/Index.tsx:22 | `get` finds nothing exactly when no non-empty pair has the name, and otherwise the value of the first such pair |
| IndexPage.QueryGet | src/pages/Index.tsx:21-22 | a value never holds `&`; for a single pair without a leading `?`, a value exists exactly when the pair carries the name |
| IndexPage.SearchOfShareUrl | src/pages/Index.tsx:21 | the search part of a share link is `?quiz=` and the id |
| IndexPage.QueryOfQuizPair | src/pages/Index.tsx:21-22 | `?quiz=<id>` yields the id as the `quiz` parameter |
| IndexPage.ShareLinkRoundTrip | src/pages/Index.tsx:20-27 | the page reads back from a share link the same quiz id it was made from |
| IndexPage.CardTarget | src/pages/Index.tsx:141-188 | only the Create card opens the creator; the other three open the list |
| IndexPage.Step | src/pages/Index.tsx:20-188 | only the search effect and `handleTakeQuiz` change the selected id; back and the creator's completion land on home; a card click opens the card's target; a search either changes nothing or opens the attempt view with a truthy id |
| IndexPage.ShareLinkOpensAttempt | src/pages/Index.tsx:20-27 | opening a share link for a non-empty id shows that quiz's attempt screen, whatever was shown before |
| IndexPage.SearchWithoutQuizKeepsState | src/pages/Index.tsx:23 | a missing or empty `quiz` parameter leaves the page as it was |
| IndexPage.SearchWithQuizSelectsIt | src/pages/Index.tsx:23-26 | a non-empty `quiz` parameter selects that id and the attempt view |
| IndexPage.CompletionKeepsSelectionShowsResults | src/pages/Index.tsx:66-71 | finishing an attempt keeps the selected id and switches to the results view, which Index renders with that id as its prop |
| IndexPage.TakeQuizShowsAttempt | src/pages/Index.tsx:29-32 | taking a quiz from the list shows its attempt screen, and home for an empty id |
| IndexPage.BackLandsHome | src/pages/Index.tsx:42-49 | the back buttons and the creator's completion land on home and keep the selection |
| IndexPage.Page.Mount | src/pages/Index.tsx:14-27 | the page starts on home with nothing selected, then applies the query-parameter effect |
| IndexPage.Page.OnSearchChanged | src/pages/Index.tsx:20-27 | the effect moves the page as `Step` does for a search change |
| IndexPage.Page.HandleTakeQuiz | src/pages/Index.tsx:29-32 | `handleTakeQuiz` selects the id and the attempt view |
| IndexPage.Page.GoHome | src/pages/Index.tsx:59-64 | a back button sets the home view only |
| IndexPage.Page.OnAttemptComplete | src/pages/Index.tsx:68-70 | the attempt's completion sets the results view only |
| IndexPage.Page.OnCreationComplete | src/pages/Index.tsx:49 | the creator's completion sets the home view only |
| IndexPage.Page.ClickCard | src/pages/Index.tsx:141-188 | a card click sets the view to the card's target |

## Left out

- Rendering (JSX, styling, icons, toasts), authentication and sign-out are not modelled.
- Store access is modelled as sequences passed in and returned. The asynchronous fetches, JSON parsing and database errors other than the creator's insert status are not modelled.
- The one-second `setInterval` timer is a `Tick` method. Scheduling and clean-up are not modelled.
- Ids and timestamps from `Date.now()` and `new Date()` are parameters. Locale date formatting is not modelled.
- QuizResults.ScoreColorOf compares exact rationals, not floating-point quotients. Rounding at a threshold such as 0.7 * 100 is not modelled, and neither are the two `Math.round` averages of the statistics cards.
- QuizList.AvgScore keeps the average as an exact fraction before `Math.round`. A quiz with results and no questions divides by zero in the source; it is represented only by a zero denominator.
- QuizList.Normalize treats a falsy `created_at` as missing. Any non-array `questions` value is a single "not an array" case.
- QuizList.GroupByQuiz uses a map from quiz ids. A quiz id that names a property of JavaScript's object prototype is not modelled.
- QuizCreator.Draft.UpdateQuestion covers the two fields the screen edits, question text and correct answer. Other field names are not modelled.
- QuizCreator.Draft.UpdateQuestion requires a correct-answer index in 0..3, the only values the radio buttons pass.
- QuizTaker.Attempt.NextQuestion requires the current question to be answered: the Next button is disabled until it is (QuizTaker.tsx:258-261).
- QuizTaker.Attempt.SelectAnswer requires a loaded quiz and an option index of the shown question, the only values its option buttons pass.
- QuizTaker.Attempt.Load runs once; re-running the load effect on a change of quiz id is not modelled.
- Characters are Unicode code points. UTF-16 code units (`charCodeAt(0)` of a surrogate pair, string lengths) are not modelled.
- IndexPage.QueryGet splits pairs but does not percent-decode or turn `+` into a space. IndexPage.ShareLinkRoundTrip therefore requires an id of letters, digits, `-`, `_` and `.`.
- The canvas is modelled in cells: every rectangle the screen draws is aligned to the 10-pixel grid. Pixels, colours beyond dark/light, `toDataURL`, the download link and the clipboard are not modelled.
- `window.location.origin` is a parameter.
- Navigation to `/results/:id` from the list is not modelled; the results screen takes its result list as input.
- IndexPage.ScreenFor and IndexPage.CompletionKeepsSelectionShowsResults stop at the prop Index passes. `QuizResults` (QuizResults.tsx:32-33) takes no props and reads `quizId` from the route parameters, so on the index route it plausibly has no id; which quiz the results screen then fetches is not modelled.
- The attempt screen appends its result to local storage (QuizTaker.tsx:113-114), while the results and list screens read results from the hosted `quiz_results` table (QuizResults.tsx:51-54, QuizList.tsx:46). The model keeps these stores apart too, so nothing here says that a finished attempt appears on the results or list screen.
