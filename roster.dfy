/**
 * The author records of the quiz, the seed roster, and the pool of book
 * titles that a round is drawn from.
 */
module Roster {
  import opened Wrappers

  /**
   * One author record. The image fields are only displayed; the round
   * selection and the reducer read `books` alone. `imageAttribution` is
   * present on some seed entries and absent on others.
   */
  datatype Author = Author(
    name: string,
    imageUrl: string,
    imageSource: string,
    imageAttribution: Option<string>,
    books: seq<string>)

  /** The roster the program starts with. */
  const Seed: seq<Author> := [
    Author("Mark Twain", "images/authors/marktwain.jpg", "Wikimedia Commons", None,
           ["The Adventures of Huckleberry Finn"]),
    Author("Joseph Conrad", "images/authors/josephconrad.png", "Wikimedia Commons", None,
           ["Heart of Darkness"]),
    Author("J.K. Rowling", "images/authors/jkrowling.jpg", "Wikimedia Commons", Some("Daniel Ogren"),
           ["Harry Potter and the Sorcerers Stone"]),
    Author("Stephen King", "images/authors/stephenking.jpg", "Wikimedia Commons", Some("Pinguino"),
           ["The Shining", "IT"]),
    Author("Charles Dickens", "images/authors/charlesdickens.jpg", "Wikimedia Commons", None,
           ["David Copperfield", "A Tale of Two Cities"]),
    Author("William Shakespeare", "images/authors/williamshakespeare.jpg", "Wikimedia Commons", None,
           ["Hamlet", "Macbeth", "Romeo and Juliet"])
  ]

  /**
   * The pool of titles, built as the source builds it: a left fold that
   * appends each author's `books` to the accumulator, starting from `[]`.
   */
  function AllBooks(authors: seq<Author>): seq<string>
  {
    if authors == [] then []
    else AllBooks(authors[..|authors| - 1]) + authors[|authors| - 1].books
  }

  /** Reference definition: the authors' books joined front to back. */
  function Flatten(authors: seq<Author>): seq<string>
  {
    if authors == [] then [] else authors[0].books + Flatten(authors[1..])
  }

  /** The number of titles over all authors, counting repeats. */
  function TotalBooks(authors: seq<Author>): nat
  {
    if authors == [] then 0 else |authors[0].books| + TotalBooks(authors[1..])
  }

  /** Adding an author to the end of the roster adds its books to the end of the pool. */
  lemma {:induction false} AllBooksAppend(authors: seq<Author>, a: Author)
    ensures AllBooks(authors + [a]) == AllBooks(authors) + a.books
  {
    assert (authors + [a])[..|authors|] == authors;
  }

  /** The pool of two rosters joined is the two pools joined. */
  lemma {:induction false} AllBooksConcat(front: seq<Author>, back: seq<Author>)
    ensures AllBooks(front + back) == AllBooks(front) + AllBooks(back)
    decreases |back|
  {
    if back == [] {
      assert front + back == front;
    } else {
      var init, last := back[..|back| - 1], back[|back| - 1];
      assert back == init + [last];
      assert front + back == (front + init) + [last];
      AllBooksConcat(front, init);
      AllBooksAppend(front + init, last);
      AllBooksAppend(init, last);
    }
  }

  /** The fold is exactly the in-order concatenation of every author's books. */
  lemma {:induction false} AllBooksIsFlatten(authors: seq<Author>)
    ensures AllBooks(authors) == Flatten(authors)
  {
    if authors != [] {
      assert authors == [authors[0]] + authors[1..];
      assert [authors[0]][..0] == [];
      AllBooksConcat([authors[0]], authors[1..]);
      AllBooksIsFlatten(authors[1..]);
    }
  }

  /** Nothing is de-duplicated or dropped: the pool holds every title of every author. */
  lemma {:induction false} AllBooksLength(authors: seq<Author>)
    ensures |AllBooks(authors)| == TotalBooks(authors)
  {
    AllBooksIsFlatten(authors);
    FlattenLength(authors);
  }

  lemma {:induction false} FlattenLength(authors: seq<Author>)
    ensures |Flatten(authors)| == TotalBooks(authors)
  {
    if authors != [] {
      FlattenLength(authors[1..]);
    }
  }

  /** A title is in the pool exactly when some author of the roster lists it. */
  lemma {:induction false} InAllBooks(authors: seq<Author>, t: string)
    ensures t in AllBooks(authors) <==> exists i :: 0 <= i < |authors| && t in authors[i].books
  {
    if authors != [] {
      var init := authors[..|authors| - 1];
      InAllBooks(init, t);
      assert forall i :: 0 <= i < |init| ==> init[i] == authors[i];
    }
  }

  /** The seed roster gives a pool of ten titles. */
  lemma SeedPoolSize()
    ensures |AllBooks(Seed)| == 10
  {
    AllBooksLength(Seed);
  }
}
