/**
 * Round selection: the four candidate titles shown in a turn and the
 * author featured beside them.
 */
module RoundSelection {
  import opened Wrappers
  import opened Roster

  /** The titles shown in one turn and the featured author (absent when none is found). */
  datatype TurnData = TurnData(books: seq<string>, author: Option<Author>)

  /**
   * The outcome of the two random calls of a turn: `perm` is the pool as
   * the shuffle returned it, `pick` the position the sample chose among
   * the candidates.
   */
  datatype Draw = Draw(perm: seq<string>, pick: nat)

  /** How many titles a turn takes from the front of the shuffled pool. */
  const ChoiceCount: nat := 4

  function Min(a: nat, b: nat): nat
  {
    if a < b then a else b
  }

  /**
   * A draw that the random source could have produced for this roster:
   * `perm` is a permutation of the pool, and `pick` is a position among
   * the candidates whenever there is one.
   */
  predicate ValidDraw(authors: seq<Author>, d: Draw)
  {
    && multiset(d.perm) == multiset(AllBooks(authors))
    && (d.perm == [] || d.pick < Min(ChoiceCount, |d.perm|))
  }

  /**
   * Whether an author's books contain the answer. An absent answer
   * equals no title, so no author owns it.
   */
  predicate Owns(author: Author, answer: Option<string>)
  {
    answer.Some? && answer.value in author.books
  }

  /** Sampling one element of a list: absent on an empty list. */
  function Sample(candidates: seq<string>, pick: nat): (r: Option<string>)
    requires candidates == [] || pick < |candidates|
    ensures r.None? <==> candidates == []
    ensures r.Some? ==> r.value in candidates
  {
    if candidates == [] then None else Some(candidates[pick])
  }

  /**
   * The search that `find` performs over the roster: the position of the
   * first author owning the answer, or absent when none does.
   */
  function FindOwner(authors: seq<Author>, answer: Option<string>): (r: Option<nat>)
    ensures r.None? ==> forall i :: 0 <= i < |authors| ==> !Owns(authors[i], answer)
    ensures r.Some? ==> r.value < |authors| && Owns(authors[r.value], answer)
    ensures r.Some? ==> forall j :: 0 <= j < r.value ==> !Owns(authors[j], answer)
  {
    if authors == [] then None
    else if Owns(authors[0], answer) then Some(0)
    else match FindOwner(authors[1..], answer)
      case None => None
      case Some(i) => Some(i + 1)
  }

  /** The first `ChoiceCount` titles of the shuffled pool, or all of them when fewer. */
  function Candidates(d: Draw): (r: seq<string>)
    ensures |r| <= ChoiceCount
    ensures |d.perm| >= ChoiceCount ==> |r| == ChoiceCount
    ensures |d.perm| < ChoiceCount ==> r == d.perm
    ensures r <= d.perm
    ensures multiset(r) <= multiset(d.perm)
  {
    assert d.perm == d.perm[..Min(ChoiceCount, |d.perm|)] + d.perm[Min(ChoiceCount, |d.perm|)..];
    d.perm[..Min(ChoiceCount, |d.perm|)]
  }

  /** The hidden answer: the sampled candidate. It only serves to pick the author. */
  function Answer(authors: seq<Author>, d: Draw): (r: Option<string>)
    requires ValidDraw(authors, d)
    ensures r.None? <==> d.perm == []
    ensures r.Some? ==> r.value in Candidates(d)
  {
    Sample(Candidates(d), d.pick)
  }

  /**
   * One turn: the candidates, and the first roster author whose books
   * contain the hidden answer.
   */
  function GetTurnData(authors: seq<Author>, d: Draw): (t: TurnData)
    requires ValidDraw(authors, d)
    ensures |t.books| == Min(ChoiceCount, |AllBooks(authors)|)
    ensures t.books == d.perm[..|t.books|]
    ensures multiset(t.books) <= multiset(AllBooks(authors))
  {
    var books := Candidates(d);
    TurnData(books,
             match FindOwner(authors, Answer(authors, d))
             case None => None
             case Some(i) => Some(authors[i]))
  }

  /**
   * With a non-empty pool, the hidden answer is one of the shown titles,
   * an author is found, it belongs to the roster, and it owns the answer:
   * every round shown has a correct title.
   */
  lemma RoundHasAnswer(authors: seq<Author>, d: Draw)
    requires ValidDraw(authors, d)
    requires AllBooks(authors) != []
    ensures Answer(authors, d).Some?
    ensures Answer(authors, d).value in GetTurnData(authors, d).books
    ensures GetTurnData(authors, d).author.Some?
    ensures GetTurnData(authors, d).author.value in authors
    ensures Answer(authors, d).value in GetTurnData(authors, d).author.value.books
  {
    var answer := Answer(authors, d);
    var t := GetTurnData(authors, d);
    assert |d.perm| == |AllBooks(authors)|;
    assert answer.value in d.perm;
    assert answer.value in multiset(AllBooks(authors));
    InAllBooks(authors, answer.value);
    var i :| 0 <= i < |authors| && answer.value in authors[i].books;
    assert Owns(authors[i], answer);
  }

  /**
   * The featured author is the earliest roster entry owning the hidden
   * answer; no earlier entry owns it. It is absent exactly when no entry does.
   */
  lemma FeaturedAuthorIsFirstOwner(authors: seq<Author>, d: Draw)
    requires ValidDraw(authors, d)
    ensures GetTurnData(authors, d).author.None? <==>
              forall i :: 0 <= i < |authors| ==> !Owns(authors[i], Answer(authors, d))
    ensures GetTurnData(authors, d).author.Some? ==>
              exists i :: 0 <= i < |authors| && GetTurnData(authors, d).author.value == authors[i]
                && Owns(authors[i], Answer(authors, d))
                && forall j :: 0 <= j < i ==> !Owns(authors[j], Answer(authors, d))
  {
    var r := FindOwner(authors, Answer(authors, d));
    if r.Some? {
      assert GetTurnData(authors, d).author.value == authors[r.value];
    }
  }

  /** An empty pool gives a round with no titles and no author. */
  lemma EmptyPoolRound(authors: seq<Author>, d: Draw)
    requires ValidDraw(authors, d)
    requires AllBooks(authors) == []
    ensures GetTurnData(authors, d) == TurnData([], None)
  {
    assert |d.perm| == 0;
    FeaturedAuthorIsFirstOwner(authors, d);
  }

  /** Every shown title comes from the pool. */
  lemma RoundTitlesFromPool(authors: seq<Author>, d: Draw, t: string)
    requires ValidDraw(authors, d)
    requires t in GetTurnData(authors, d).books
    ensures t in AllBooks(authors)
  {
    assert t in multiset(GetTurnData(authors, d).books);
  }

  /** The two-author roster of the worked round below. */
  const Dickens := Author("Charles Dickens", "", "", None, ["D", "C"])
  const Shakespeare := Author("William Shakespeare", "", "", None, ["H", "M", "R"])

  /** The shuffle of the worked round is a permutation of its pool. */
  lemma TwoAuthorShuffle()
    ensures multiset(["H", "D", "M", "C", "R"]) == multiset(["D", "C", "H", "M", "R"])
  {
    assert multiset(["H", "D", "M", "C", "R"]) == multiset{"H", "D", "M", "C", "R"};
    assert multiset(["D", "C", "H", "M", "R"]) == multiset{"D", "C", "H", "M", "R"};
  }

  /** The pool of the worked round. */
  lemma TwoAuthorPool()
    ensures AllBooks([Dickens, Shakespeare]) == ["D", "C", "H", "M", "R"]
  {
    assert [Dickens][..0] == [];
    assert [Dickens] + [Shakespeare] == [Dickens, Shakespeare];
    AllBooksAppend([Dickens], Shakespeare);
  }

  /** The draw of the worked round: the pool shuffled to H, D, M, C, R, the second candidate sampled. */
  lemma TwoAuthorDraw()
    ensures ValidDraw([Dickens, Shakespeare], Draw(["H", "D", "M", "C", "R"], 1))
  {
    TwoAuthorPool();
    TwoAuthorShuffle();
  }

  /**
   * A worked round: the first four shuffled titles are shown, the sampled
   * one is D, and Dickens, who wrote it, is featured.
   */
  lemma TwoAuthorRound()
    ensures ValidDraw([Dickens, Shakespeare], Draw(["H", "D", "M", "C", "R"], 1))
    ensures GetTurnData([Dickens, Shakespeare], Draw(["H", "D", "M", "C", "R"], 1))
            == TurnData(["H", "D", "M", "C"], Some(Dickens))
  {
    TwoAuthorPool();
    TwoAuthorDraw();
    var d := Draw(["H", "D", "M", "C", "R"], 1);
    assert Candidates(d) == ["H", "D", "M", "C"];
    assert Answer([Dickens, Shakespeare], d) == Some("D");
    assert FindOwner([Dickens, Shakespeare], Some("D")) == Some(0);
  }

  /**
   * A title listed by two authors: whenever the first of two authors lists
   * the sampled title, the first is featured, whether or not the second
   * lists it too.
   */
  lemma SharedTitleGoesToEarlierAuthor(first: Author, second: Author, d: Draw)
    requires ValidDraw([first, second], d)
    requires Answer([first, second], d).Some?
    requires Answer([first, second], d).value in first.books
    ensures GetTurnData([first, second], d).author == Some(first)
  {
  }
}
