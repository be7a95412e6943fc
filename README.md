# Author quiz: round selection and game reducer

A model of the logic of a small trivia game. The player sees an author's
portrait and four book titles and must click a title that author wrote. The
page then shows green or red feedback. A form lets the player add authors.

The model covers the two pieces of `aquiz/src/index.js` that hold logic:

- **Round selection** (`getTurnData`). Every author's `books` are joined into
  one pool, in roster order and with repeats kept. The pool is shuffled and
  the first four titles are taken. One of them is sampled as a hidden answer.
  The featured author is the first roster entry whose books contain that
  answer.
- **The reducer**. It is a pure step function over the state
  `{authors, turnData, highlight}`. It handles `ANSWER_SELECTED`, `CONTINUE`
  and `ADD_AUTHOR`, and leaves the state alone on any other action. The first
  turn comes from the reducer's default state or from `resetState`, both over
  the seed roster.

The page-level object built by `resetState` is kept as a class. Its click
handler `onAnswerSelected` writes the feedback into that object in place.

Modules:

- `Wrappers` (wrappers.dfy): `Option`, which stands for `undefined`, and
  `Result`, which stands for a thrown error.
- `Roster` (roster.dfy): the `Author` record, the six-author `Seed`, and the
  pool `AllBooks`. `AllBooks` is written as the left fold the source uses. It
  is proved equal to the front-to-back concatenation `Flatten`.
- `RoundSelection` (round.dfy): `GetTurnData` and its parts, plus lemmas.
  `Candidates` is the `slice(0, 4)`. `Sample` is the sample. `FindOwner` is
  the `find`/`some` search.
- `Game` (game.dfy): `Highlight`, `Action`, `State`, `Reduce`, the default
  state, `resetState`, the rule for each action, and the invariant `Playable`.
  `Playable` holds in the start state and every action keeps it.
- `Page` (page.dfy): the class `PageState` holding the mutable `highlight`
  field, and the handler `OnAnswerSelected`.

Randomness becomes an input. A `Draw` has two parts:

- `perm`: the pool as the shuffle returned it. It must be a permutation of
  the pool (same multiset).
- `pick`: the position the sample chose among the candidates.

Only `CONTINUE`, the default state and `resetState` consume a draw.

Behaviour of the code worth stating, since a reader might expect otherwise:

- There is no start action. The first turn comes from the reducer's default
  state and from `resetState`.
- Round selection never raises an "insufficient data" error. With fewer than
  four titles in the pool, `slice` returns fewer candidates. With an empty
  pool, there are no candidates, the sample is `undefined`, and no author is
  found.
- `ADD_AUTHOR` validates nothing. An author with no books is appended as is.
- The four titles need not be distinct. A title listed twice in the pool can
  be drawn twice.
- `ANSWER_SELECTED` on a turn with no author throws. The code reads `books`
  of `undefined`. The model returns `Failure(NoFeaturedAuthor)`.
  `ReduceKeepsPlayable` and `InitialStatePlayable` show that this cannot
  happen in any state reachable from the start: the seed pool has ten titles,
  and the roster only grows.

## Model

| member | source | states |
|---|---|---|
| Roster.AllBooks | aquiz/src/index.js:63-65 | The pool as the `reduce`/`concat` fold builds it. It has no contract of its own: AllBooksIsFlatten, AllBooksLength, InAllBooks, AllBooksAppend and AllBooksConcat state what it is |
| Roster.AllBooksAppend | aquiz/src/index.js:63-65 | Appending one author to the roster appends exactly that author's books to the end of the pool |
| Roster.AllBooksConcat | aquiz/src/index.js:63-65 | The pool of two rosters joined is the two pools joined, in order |
| Roster.AllBooksIsFlatten | aquiz/src/index.js:63-65 | The left fold `reduce((p, c) => p.concat(c.books), [])` equals the in-order concatenation of every author's books |
| Roster.AllBooksLength | aquiz/src/index.js:63-65 | The pool has one entry per title of each author, so nothing is de-duplicated or dropped |
| Roster.InAllBooks | aquiz/src/index.js:63-65 | A title is in the pool if and only if some roster author lists it |
| Roster.SeedPoolSize | aquiz/src/index.js:12-51 | The seed roster's pool has ten titles |
| RoundSelection.Candidates | aquiz/src/index.js:69 | `slice(0, 4)` of the shuffled pool: a prefix of it, at most four titles, exactly four when the pool has four or more, the whole pool when it has fewer, and a sub-multiset of it |
| RoundSelection.Answer | aquiz/src/index.js:73 | The hidden answer is absent exactly when the shuffled pool is empty; otherwise it is one of the candidates |
| RoundSelection.Sample | aquiz/src/index.js:73 | The sample is absent exactly when there are no candidates; otherwise it is one of them |
| RoundSelection.FindOwner | aquiz/src/index.js:80-82 | The search returns the position of the first author whose books contain the answer, with no earlier author containing it. It returns absent exactly when no author does, and always when the answer is `undefined` |
| RoundSelection.GetTurnData | aquiz/src/index.js:62-84 | The shown titles number min(4, pool size). They are a prefix of the shuffled pool and form a sub-multiset of the pool |
| RoundSelection.RoundHasAnswer | aquiz/src/index.js:69-83 | On a non-empty pool, the hidden answer is one of the shown titles. The featured author exists, belongs to the roster, and owns that answer |
| RoundSelection.FeaturedAuthorIsFirstOwner | aquiz/src/index.js:80-82 | The featured author is the earliest roster entry owning the hidden answer. It is absent if and only if no entry owns it |
| RoundSelection.EmptyPoolRound | aquiz/src/index.js:69-82 | An empty pool gives no titles and no author |
| RoundSelection.RoundTitlesFromPool | aquiz/src/index.js:69 | Every shown title is a title of the pool |
| RoundSelection.TwoAuthorRound | aquiz/src/index.js:62-84 | Worked example: Dickens {D, C} and Shakespeare {H, M, R}, shuffled to H D M C R, second candidate sampled. The round shows H D M C and features Dickens |
| RoundSelection.SharedTitleGoesToEarlierAuthor | aquiz/src/index.js:80-82 | For any two authors and any draw: when the first author lists the sampled title, the first author is featured, whether or not the second also lists it. The rule for any roster is FeaturedAuthorIsFirstOwner |
| Game.HighlightText | aquiz/src/index.js:91-112 | The feedback values stand for `''`, `'correct'` and `'incorrect'`, each string for exactly one value |
| Game.InitialState | aquiz/src/index.js:98 | The reducer's default state holds the seed roster and an empty highlight, and its first turn shows four titles |
| Game.ResetState | aquiz/src/index.js:88-93 | `resetState` gives an empty highlight and, given the same draw, the same turn over the seed roster as the default state. It never reads an added author |
| Game.Judge | aquiz/src/index.js:103-108 | The answer check fails exactly when the turn has no author. Otherwise the verdict is never empty, and it is `Correct` if and only if the title is one of the featured author's books |
| Game.Reduce | aquiz/src/index.js:97-121 | Only `ANSWER_SELECTED` on an authorless turn fails. Only `ADD_AUTHOR` changes the roster, by appending its author. Only `CONTINUE` changes the turn, and it clears the highlight. `ADD_AUTHOR` and any other action keep the highlight. The per-action lemmas below state each rule in full |
| Game.AnswerSelectedRule | aquiz/src/index.js:102-109 | `ANSWER_SELECTED` sets the highlight to `Correct` if and only if the title is one of the featured author's books, and to `Incorrect` otherwise. The roster and turn are unchanged. It fails exactly when the turn has no author |
| Game.ContinueRule | aquiz/src/index.js:110-114 | `CONTINUE` clears the highlight and keeps the roster. The new turn is drawn from the current roster, not the seed |
| Game.AddAuthorRule | aquiz/src/index.js:115-118 | `ADD_AUTHOR` makes the roster one longer, with the new author last and the earlier entries untouched. The turn and highlight are unchanged |
| Game.OtherActionRule | aquiz/src/index.js:119 | Any other action returns the state unchanged |
| Game.FreshRoundShowsAnswer | aquiz/src/index.js:62-84 | A turn drawn from a pool of at least four titles shows four pool titles, one of which the featured roster author wrote |
| Game.InitialStatePlayable | aquiz/src/index.js:88-98 | The start state is playable, and so is the turn `resetState` builds over the seed |
| Game.ReduceKeepsPlayable | aquiz/src/index.js:97-121 | Every action on a playable state succeeds (no TypeError) and yields a playable state |
| Game.PlayableHasCorrectChoice | aquiz/src/index.js:102-109 | In a playable state, some shown title is judged `Correct` |
| Game.AddThenContinue | aquiz/src/index.js:110-118 | After `ADD_AUTHOR`, the next `CONTINUE` draws from the old pool plus the new author's books |
| Page.PageState.constructor | aquiz/src/index.js:125 | The page-level object is the record `resetState` builds over the seed roster |
| Page.PageState.OnAnswerSelected | aquiz/src/index.js:128-133 | It stores the reducer's answer verdict in `highlight` in place and leaves the turn unchanged. When the turn has no author, it reports the failure and `highlight` keeps its old value |
| Page.HandlerMatchesReducer | aquiz/src/index.js:103-109 | The handler's verdict and the reducer's `ANSWER_SELECTED` result agree on every roster, turn and answer |

## Left out

- The shuffle and sample algorithms of the underscore library are foreign
  code. `GetTurnData` accepts any permutation and any in-range position, so
  the model says nothing about uniform distribution.
- The Redux store, `render()`, `App`, `BrowserRouter`, the service worker and
  `serviceWorker.unregister()` are UI and I/O plumbing. The model only has
  the reducer they drive.
- `AuthorWrapper`'s `authors.push` mutates the seed array in place. That array
  aliases the default state's roster. This happens in the routing layer,
  outside the reducer, so `Seed` is a constant here.
- Page.PageState.OnAnswerSelected: the handler is `async` and calls
  `render()`. The model returns the outcome directly and does not model the
  rendering. A thrown TypeError becomes a returned `Failure` rather than a
  rejected promise.
- The view components in `aquiz/src/AuthorQuiz.jsx` are out of scope. This
  includes the highlight-to-colour lookup and the gate that shows the
  Continue button only when the highlight is `'correct'`. `HighlightText`
  records the reducer's strings (`''`, `'correct'`, `'incorrect'`); nothing
  in the model consumes it.
- The form state in `aquiz/src/AddAuthorForm.jsx` is DOM event binding and
  is out of scope.
- The rendering tests in `aquiz/src/AuthorQuiz.test.js` do not constrain the
  reducer or round selection.
- The image URL, image source and attribution fields are carried as opaque
  strings and are never read.
- "Every reachable state is playable" is given as its two induction steps,
  `InitialStatePlayable` and `ReduceKeepsPlayable`. There is no function
  that runs a whole sequence of actions.
