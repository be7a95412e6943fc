/**
 * The game state and the reducer that moves it from one state to the next
 * on each dispatched action.
 */
module Game {
  import opened Wrappers
  import opened Roster
  import opened RoundSelection

  /** Answer feedback; it stands for the strings '', 'correct' and 'incorrect'. */
  datatype Highlight = Empty | Correct | Incorrect

  /** The string each feedback value stands for; distinct values give distinct strings. */
  function HighlightText(h: Highlight): (s: string)
    ensures s == "" <==> h == Empty
    ensures s == "correct" <==> h == Correct
    ensures s == "incorrect" <==> h == Incorrect
  {
    match h
    case Empty => ""
    case Correct => "correct"
    case Incorrect => "incorrect"
  }

  /**
   * The actions the reducer switches on, by their `type` tag:
   * 'ANSWER_SELECTED', 'CONTINUE', 'ADD_AUTHOR', and any other tag.
   */
  datatype Action =
    | AnswerSelected(answer: string)
    | Continue
    | AddAuthor(author: Author)
    | Other

  /** The store's state. */
  datatype State = State(authors: seq<Author>, turnData: TurnData, highlight: Highlight)

  /** The record `resetState` builds: a turn and its feedback, with no roster. */
  datatype TurnState = TurnState(turnData: TurnData, highlight: Highlight)

  /**
   * The error thrown when an answer is judged against a turn that has no
   * author: reading `books` of `undefined` raises a TypeError.
   */
  datatype QuizError = NoFeaturedAuthor

  /** The default state the reducer starts from: the seed roster, a first turn, no feedback. */
  function InitialState(d: Draw): (s: State)
    requires ValidDraw(Seed, d)
    ensures s.authors == Seed
    ensures s.highlight == Empty
    ensures |s.turnData.books| == ChoiceCount
  {
    SeedPoolSize();
    State(Seed, GetTurnData(Seed, d), Empty)
  }

  /** `resetState`: a fresh turn over the seed roster, whatever has been added since. */
  function ResetState(d: Draw): (r: TurnState)
    requires ValidDraw(Seed, d)
    ensures r.highlight == Empty
    ensures r.turnData == InitialState(d).turnData
  {
    TurnState(GetTurnData(Seed, d), Empty)
  }

  /** The answer check shared by the reducer and the page handler. */
  function Judge(turn: TurnData, answer: string): (r: Result<Highlight, QuizError>)
    ensures r.Failure? <==> turn.author.None?
    ensures r.Success? ==> r.value != Empty
    ensures r.Success? ==> (r.value == Correct <==> answer in turn.author.value.books)
  {
    match turn.author
    case None => Failure(NoFeaturedAuthor)
    case Some(a) => Success(if answer in a.books then Correct else Incorrect)
  }

  /**
   * The reducer. Only `Continue` consumes a draw; every other action
   * ignores `d`.
   */
  function Reduce(s: State, a: Action, d: Draw): (r: Result<State, QuizError>)
    requires a.Continue? ==> ValidDraw(s.authors, d)
    ensures r.Failure? <==> a.AnswerSelected? && s.turnData.author.None?
    ensures r.Success? ==> r.value.authors == if a.AddAuthor? then s.authors + [a.author] else s.authors
    ensures r.Success? && !a.Continue? ==> r.value.turnData == s.turnData
    ensures r.Success? && (a.AddAuthor? || a.Other?) ==> r.value.highlight == s.highlight
    ensures r.Success? && a.Continue? ==> r.value.highlight == Empty
  {
    match a
    case AnswerSelected(answer) =>
      (match Judge(s.turnData, answer)
       case Failure(e) => Failure(e)
       case Success(h) => Success(s.(highlight := h)))
    case Continue => Success(s.(highlight := Empty, turnData := GetTurnData(s.authors, d)))
    case AddAuthor(x) => Success(s.(authors := s.authors + [x]))
    case Other => Success(s)
  }

  /**
   * Selecting an answer: the feedback is `Correct` exactly when the title is
   * one of the featured author's books, `Incorrect` otherwise; the roster
   * and the turn stay as they were. It fails when the turn has no author.
   */
  lemma AnswerSelectedRule(s: State, answer: string, d: Draw)
    ensures Reduce(s, AnswerSelected(answer), d).Failure? <==> s.turnData.author.None?
    ensures s.turnData.author.Some? ==>
              var r := Reduce(s, AnswerSelected(answer), d).value;
              && (r.highlight == Correct <==> answer in s.turnData.author.value.books)
              && (r.highlight == Incorrect <==> answer !in s.turnData.author.value.books)
              && r.authors == s.authors
              && r.turnData == s.turnData
  {
  }

  /**
   * Continuing: the feedback is cleared, the turn is drawn afresh from the
   * current roster (authors added since included), and the roster is kept.
   */
  lemma ContinueRule(s: State, d: Draw)
    requires ValidDraw(s.authors, d)
    ensures Reduce(s, Continue, d).Success?
    ensures Reduce(s, Continue, d).value.highlight == Empty
    ensures Reduce(s, Continue, d).value.authors == s.authors
    ensures Reduce(s, Continue, d).value.turnData == GetTurnData(s.authors, d)
  {
  }

  /**
   * Adding an author appends it, unvalidated, to the roster: one more entry,
   * the new one last, the earlier ones untouched; turn and feedback are kept.
   */
  lemma AddAuthorRule(s: State, x: Author, d: Draw)
    ensures Reduce(s, AddAuthor(x), d).Success?
    ensures var r := Reduce(s, AddAuthor(x), d).value;
            && |r.authors| == |s.authors| + 1
            && r.authors[|s.authors|] == x
            && r.authors[..|s.authors|] == s.authors
            && r.turnData == s.turnData
            && r.highlight == s.highlight
  {
  }

  /** Any other action leaves the state as it was. */
  lemma OtherActionRule(s: State, d: Draw)
    ensures Reduce(s, Other, d) == Success(s)
  {
  }

  /**
   * A turn worth playing: four titles from the pool, and a featured author
   * from the roster who wrote at least one of them.
   */
  predicate RoundShowsAnswer(authors: seq<Author>, t: TurnData)
  {
    && |t.books| == ChoiceCount
    && multiset(t.books) <= multiset(AllBooks(authors))
    && t.author.Some?
    && t.author.value in authors
    && exists b :: b in t.books && b in t.author.value.books
  }

  /** The invariant of every state the program can reach. */
  predicate Playable(s: State)
  {
    && |AllBooks(s.authors)| >= ChoiceCount
    && RoundShowsAnswer(s.authors, s.turnData)
  }

  /** A fresh turn over a pool of at least four titles is worth playing. */
  lemma FreshRoundShowsAnswer(authors: seq<Author>, d: Draw)
    requires ValidDraw(authors, d)
    requires |AllBooks(authors)| >= ChoiceCount
    ensures RoundShowsAnswer(authors, GetTurnData(authors, d))
  {
    RoundHasAnswer(authors, d);
  }

  /** The start state is playable, and so is the state `resetState` builds. */
  lemma InitialStatePlayable(d: Draw)
    requires ValidDraw(Seed, d)
    ensures Playable(InitialState(d))
    ensures Playable(State(Seed, ResetState(d).turnData, ResetState(d).highlight))
  {
    SeedPoolSize();
    FreshRoundShowsAnswer(Seed, d);
  }

  /**
   * Every action keeps a playable state playable, and none of them fails on
   * it: by induction with InitialStatePlayable, no reachable state lacks a
   * featured author or a correct title.
   */
  lemma ReduceKeepsPlayable(s: State, a: Action, d: Draw)
    requires Playable(s)
    requires a.Continue? ==> ValidDraw(s.authors, d)
    ensures Reduce(s, a, d).Success?
    ensures Playable(Reduce(s, a, d).value)
  {
    match a
    case AnswerSelected(_) =>
    case Continue =>
      FreshRoundShowsAnswer(s.authors, d);
    case AddAuthor(x) =>
      AllBooksAppend(s.authors, x);
      var r := Reduce(s, a, d).value;
      assert multiset(AllBooks(r.authors)) == multiset(AllBooks(s.authors)) + multiset(x.books);
      assert s.turnData.author.value in r.authors;
    case Other =>
  }

  /** In a playable state some shown title is judged correct. */
  lemma PlayableHasCorrectChoice(s: State, d: Draw)
    requires Playable(s)
    ensures exists b :: b in s.turnData.books && Reduce(s, AnswerSelected(b), d) == Success(s.(highlight := Correct))
  {
    var b :| b in s.turnData.books && b in s.turnData.author.value.books;
    assert Reduce(s, AnswerSelected(b), d) == Success(s.(highlight := Correct));
  }

  /**
   * After an author is added, the next turn is drawn from the grown pool:
   * the old pool followed by the new author's books.
   */
  lemma AddThenContinue(s: State, x: Author, d0: Draw, d: Draw)
    requires ValidDraw(s.authors + [x], d)
    ensures Reduce(Reduce(s, AddAuthor(x), d0).value, Continue, d).Success?
    ensures Reduce(Reduce(s, AddAuthor(x), d0).value, Continue, d).value.turnData
            == GetTurnData(s.authors + [x], d)
    ensures multiset(d.perm) == multiset(AllBooks(s.authors)) + multiset(x.books)
  {
    AllBooksAppend(s.authors, x);
  }
}
