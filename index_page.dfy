/** The home page: two pieces of state, the current view and the selected quiz
    id, choose which screen is shown; the `quiz` query parameter of a shared
    link opens the attempt screen directly. */
module IndexPage {
  import opened Wrappers
  import opened Text
  import QRCodeGenerator

  /** The five values of `currentView`. */
  datatype View = Home | Create | Take | Results | List

  /** What the page renders; the id is the `quizId` prop the page passes. */
  datatype Screen = HomeScreen | CreatorScreen | TakerScreen(quizId: string) | ResultsScreen(quizId: string) | ListScreen

  /** JavaScript truthiness of `selectedQuizId`: `null` and `""` are falsy. */
  predicate Truthy(selected: Option<string>)
  {
    selected.Some? && selected.value != ""
  }

  /** The render's `if` chain: create; take with a truthy id; results with a
      truthy id; list; and home for everything else. */
  function ScreenFor(view: View, selected: Option<string>): (s: Screen)
    ensures s == CreatorScreen <==> view == Create
    ensures s == ListScreen <==> view == List
    ensures s.TakerScreen? <==> view == Take && Truthy(selected)
    ensures s.ResultsScreen? <==> view == Results && Truthy(selected)
    ensures (s.TakerScreen? || s.ResultsScreen?) ==> Some(s.quizId) == selected
    ensures s == HomeScreen <==> view.Home? || ((view.Take? || view.Results?) && !Truthy(selected))
  {
    if view == Create then CreatorScreen
    else if view == Take && Truthy(selected) then TakerScreen(selected.value)
    else if view == Results && Truthy(selected) then ResultsScreen(selected.value)
    else if view == List then ListScreen
    else HomeScreen
  }

  /** `location.search` of a URL: from the first `?` before the fragment up to
      the fragment, or `""` when there is no query or it is empty. */
  function SearchOf(url: string): (search: string)
    ensures search == [] || (search[0] == '?' && |search| >= 2)
    ensures '#' !in search
  {
    var beforeHash := url[..IndexOf(url, '#')];
    var q := IndexOf(beforeHash, '?');
    if q + 1 >= |beforeHash| then "" else beforeHash[q..]
  }

  /** The name of a `name=value` pair: everything before the first `=`. */
  function PairName(pair: string): string
  {
    pair[..IndexOf(pair, '=')]
  }

  /** The value of a pair: everything after the first `=`, or `""` without one. */
  function PairValue(pair: string): string
  {
    var k := IndexOf(pair, '=');
    if k < |pair| then pair[k + 1..] else ""
  }

  /** Whether a pair is non-empty and carries the name. */
  predicate Names(pair: string, name: string)
  {
    pair != [] && PairName(pair) == name
  }

  /** The position of the first pair with the name, or the count without one. */
  function FirstNamed(pairs: seq<string>, name: string): (k: nat)
    ensures k <= |pairs|
    ensures k < |pairs| ==> Names(pairs[k], name)
    ensures forall j :: 0 <= j < k ==> !Names(pairs[j], name)
  {
    if pairs == [] then 0
    else if Names(pairs[0], name) then 0
    else 1 + FirstNamed(pairs[1..], name)
  }

  /** `get` over the split pairs: the value of the first non-empty pair with
      that name. */
  function Lookup(pairs: seq<string>, name: string): (r: Option<string>)
    ensures r.None? <==> forall k :: 0 <= k < |pairs| ==> !Names(pairs[k], name)
    ensures r.Some? ==> exists k :: 0 <= k < |pairs| && Names(pairs[k], name) && r.value == PairValue(pairs[k])
                                  && forall j :: 0 <= j < k ==> !Names(pairs[j], name)
  {
    var k := FirstNamed(pairs, name);
    if k < |pairs| then Some(PairValue(pairs[k])) else None
  }

  /** `new URLSearchParams(search).get(name)`: a leading `?` is dropped, the
      rest split at `&` into pairs, and the first pair with the name wins.
      Percent and `+` decoding are not modelled. */
  function QueryGet(search: string, name: string): (r: Option<string>)
    ensures r.Some? ==> '&' !in r.value
    ensures '&' !in search && (|search| == 0 || search[0] != '?') ==>
              (r.Some? <==> search != [] && PairName(search) == name)
  {
    var body := if |search| > 0 && search[0] == '?' then search[1..] else search;
    Lookup(Split(body, '&'), name)
  }

  /** Characters a quiz id may hold for the shared link to carry it verbatim. */
  predicate PlainChar(c: char)
  {
    ('a' <= c <= 'z') || ('A' <= c <= 'Z') || ('0' <= c <= '9') || c == '-' || c == '_' || c == '.'
  }

  predicate PlainId(quizId: string)
  {
    forall i :: 0 <= i < |quizId| ==> PlainChar(quizId[i])
  }

  lemma IndexOfAbsent(s: string, c: char)
    requires c !in s
    ensures IndexOf(s, c) == |s|
  {
  }

  /** A URL whose path (before the first `?`) holds no `#`, followed by a
      query without `#` and an optional fragment: the search is `?` and the
      query, or `""` when the query is empty. */
  lemma SearchOfQuery(path: string, query: string, fragment: string)
    requires '?' !in path && '#' !in path && '#' !in query
    requires fragment == [] || fragment[0] == '#'
    ensures SearchOf(path + ['?'] + query + fragment) == if query == [] then "" else ['?'] + query
  {
    var head := path + ['?'] + query;
    assert '#' !in head by {
      assert forall i :: 0 <= i < |head| ==> head[i] == (if i < |path| then path[i] else if i == |path| then '?' else query[i - |path| - 1]);
    }
    IndexOfAppend(head, fragment, '#');
    IndexOfAbsent(head, '#');
    assert (head + fragment)[..IndexOf(head + fragment, '#')] == head;
    IndexOfAppend(path, ['?'] + query, '?');
    assert head == path + (['?'] + query);
    assert head[|path|..] == ['?'] + query;
  }

  /** A URL with no `?` before its fragment has an empty search. */
  lemma SearchOfNoQuery(path: string, fragment: string)
    requires '?' !in path && '#' !in path
    requires fragment == [] || fragment[0] == '#'
    ensures SearchOf(path + fragment) == ""
  {
    IndexOfAppend(path, fragment, '#');
    IndexOfAbsent(path, '#');
    assert (path + fragment)[..IndexOf(path + fragment, '#')] == path;
    IndexOfAbsent(path, '?');
  }

  /** The search part of a share link is `?quiz=` followed by the id. */
  lemma SearchOfShareUrl(origin: string, quizId: string)
    requires '?' !in origin && '#' !in origin
    requires PlainId(quizId)
    ensures SearchOf(QRCodeGenerator.ShareUrl(origin, quizId)) == "?quiz=" + quizId
  {
    var url := QRCodeGenerator.ShareUrl(origin, quizId);
    var tail := "/?quiz=" + quizId;
    assert url == origin + tail;
    assert '#' !in tail by {
      assert forall i :: 7 <= i < |tail| ==> tail[i] == quizId[i - 7];
      assert forall i :: 0 <= i < |quizId| ==> quizId[i] != '#';
    }
    IndexOfAbsent(url, '#');
    assert url[..IndexOf(url, '#')] == url;
    IndexOfAppend(origin, tail, '?');
    assert tail[0] == '/' && tail[1] == '?';
    assert IndexOf(tail, '?') == 1;
    assert url[|origin| + 1..] == "?quiz=" + quizId;
  }

  /** `?quiz=` followed by a plain id gives that id back as the `quiz` parameter. */
  lemma QueryOfQuizPair(quizId: string)
    requires PlainId(quizId)
    ensures QueryGet("?quiz=" + quizId, "quiz") == Some(quizId)
  {
    var search := "?quiz=" + quizId;
    var body := search[1..];
    assert body == "quiz=" + quizId;
    assert '&' !in body by {
      assert forall i :: 5 <= i < |body| ==> body[i] == quizId[i - 5];
      assert forall i :: 0 <= i < |quizId| ==> quizId[i] != '&';
    }
    SplitWithoutSeparator(body, '&');
    assert body[4] == '=' && '=' !in body[..4];
    assert IndexOf(body, '=') == 4;
    assert body[..4] == "quiz";
    assert PairName(body) == "quiz";
    assert PairValue(body) == quizId;
  }

  /** The share link carries the quiz id back: scanning the QR link (or
      opening the copied URL) yields the same id from the `quiz` parameter,
      for an origin without `?` or `#` and an id of plain characters. */
  lemma ShareLinkRoundTrip(origin: string, quizId: string)
    requires '?' !in origin && '#' !in origin
    requires PlainId(quizId)
    ensures QueryGet(SearchOf(QRCodeGenerator.ShareUrl(origin, quizId)), "quiz") == Some(quizId)
  {
    SearchOfShareUrl(origin, quizId);
    QueryOfQuizPair(quizId);
  }

  /** The page state as a value. */
  datatype PageState = PageState(view: View, selected: Option<string>)

  /** The four cards of the home screen. */
  datatype HomeCard = CreateCard | BrowseCard | TakeCard | ResultsCard

  /** Only the Create card opens the creator; the other three all open the list. */
  function CardTarget(card: HomeCard): (v: View)
    ensures v == Create <==> card == CreateCard
    ensures v != Create ==> v == List
  {
    if card == CreateCard then Create else List
  }

  /** What can happen to the page. */
  datatype Event =
    | SearchChanged(search: string)   // the query-parameter effect
    | TakeQuiz(quizId: string)        // `handleTakeQuiz`, from the list
    | BackToHome                      // every screen's back button
    | AttemptCompleted                // the attempt screen's `onComplete`
    | CreationCompleted               // the creator's `onComplete`
    | CardClicked(card: HomeCard)     // a card of the home screen

  /** The state after one event. */
  function Step(s: PageState, e: Event): (t: PageState)
    ensures !e.SearchChanged? && !e.TakeQuiz? ==> t.selected == s.selected
    ensures e.BackToHome? || e.CreationCompleted? ==> t.view == Home
    ensures e.SearchChanged? ==> t == s || (t.view == Take && Truthy(t.selected))
    ensures e.CardClicked? ==> t.view == CardTarget(e.card)
  {
    match e
    case SearchChanged(search) =>
      var quizId := QueryGet(search, "quiz");
      if Truthy(quizId) then PageState(Take, quizId) else s
    case TakeQuiz(quizId) => PageState(Take, Some(quizId))
    case BackToHome => s.(view := Home)
    case AttemptCompleted => s.(view := Results)
    case CreationCompleted => s.(view := Home)
    case CardClicked(card) => s.(view := CardTarget(card))
  }

  /** Opening a shared link shows the attempt screen of that quiz, whatever
      the page showed before. */
  lemma ShareLinkOpensAttempt(s: PageState, origin: string, quizId: string)
    requires '?' !in origin && '#' !in origin
    requires PlainId(quizId) && quizId != ""
    ensures var t := Step(s, SearchChanged(SearchOf(QRCodeGenerator.ShareUrl(origin, quizId))));
            ScreenFor(t.view, t.selected) == TakerScreen(quizId)
  {
    ShareLinkRoundTrip(origin, quizId);
  }

  /** A search without a usable `quiz` parameter (missing or empty) leaves the
      page as it was. */
  lemma SearchWithoutQuizKeepsState(s: PageState, search: string)
    requires QueryGet(search, "quiz") in {None, Some("")}
    ensures Step(s, SearchChanged(search)) == s
  {
  }

  /** A search with a `quiz` parameter selects that quiz and the attempt view. */
  lemma SearchWithQuizSelectsIt(s: PageState, search: string)
    requires QueryGet(search, "quiz").Some? && QueryGet(search, "quiz").value != ""
    ensures Step(s, SearchChanged(search)) == PageState(Take, QueryGet(search, "quiz"))
  {
  }

  /** Finishing an attempt keeps the selected id and switches to the results
      view, whose screen is given that id as its `quizId` prop. */
  lemma CompletionKeepsSelectionShowsResults(s: PageState, quizId: string)
    requires ScreenFor(s.view, s.selected) == TakerScreen(quizId)
    ensures var t := Step(s, AttemptCompleted); ScreenFor(t.view, t.selected) == ResultsScreen(quizId)
  {
  }

  /** Picking a quiz from the list shows its attempt screen, except that an
      empty id is falsy and the page falls back to home. */
  lemma TakeQuizShowsAttempt(s: PageState, quizId: string)
    ensures var t := Step(s, TakeQuiz(quizId));
            ScreenFor(t.view, t.selected) == if quizId != "" then TakerScreen(quizId) else HomeScreen
  {
  }

  /** Every back button and the creator's completion land on home, keeping
      the selected id. */
  lemma BackLandsHome(s: PageState, e: Event)
    requires e == BackToHome || e == CreationCompleted
    ensures Step(s, e) == PageState(Home, s.selected)
    ensures ScreenFor(Step(s, e).view, Step(s, e).selected) == HomeScreen
  {
  }

  /** The page component's state. */
  class Page {
    var currentView: View
    var selectedQuizId: Option<string>

    function State(): PageState
      reads this
    {
      PageState(currentView, selectedQuizId)
    }

    /** Mounting at a URL: the initial state, home with nothing selected,
        followed by the query-parameter effect on that URL's search. */
    constructor Mount(search: string)
      ensures State() == Step(PageState(Home, None), SearchChanged(search))
    {
      var quizId := QueryGet(search, "quiz");
      if Truthy(quizId) {
        currentView, selectedQuizId := Take, quizId;
      } else {
        currentView, selectedQuizId := Home, None;
      }
    }

    /** The effect on `location.search`: a truthy `quiz` parameter selects
        that quiz and switches to the attempt view. */
    method OnSearchChanged(search: string)
      modifies this
      ensures State() == Step(old(State()), SearchChanged(search))
    {
      var quizId := QueryGet(search, "quiz");
      if Truthy(quizId) {
        selectedQuizId := quizId;
        currentView := Take;
      }
    }

    /** `handleTakeQuiz`. */
    method HandleTakeQuiz(quizId: string)
      modifies this
      ensures State() == Step(old(State()), TakeQuiz(quizId))
    {
      selectedQuizId := Some(quizId);
      currentView := Take;
    }

    /** The back buttons of the creator, attempt, results and list screens. */
    method GoHome()
      modifies this
      ensures State() == Step(old(State()), BackToHome)
    {
      currentView := Home;
    }

    /** The attempt screen's completion callback. */
    method OnAttemptComplete()
      modifies this
      ensures State() == Step(old(State()), AttemptCompleted)
    {
      currentView := Results;
    }

    /** The creator's completion callback. */
    method OnCreationComplete()
      modifies this
      ensures State() == Step(old(State()), CreationCompleted)
    {
      currentView := Home;
    }

    /** A click on one of the home screen's cards. */
    method ClickCard(card: HomeCard)
      modifies this
      ensures State() == Step(old(State()), CardClicked(card))
    {
      currentView := CardTarget(card);
    }
  }

}
