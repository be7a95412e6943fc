/**
 * The page-level state object built by `resetState` at start-up, and the
 * click handler that writes its feedback in place.
 */
module Page {
  import opened Wrappers
  import opened Roster
  import opened RoundSelection
  import opened Game

  class PageState {
    var turnData: TurnData
    var highlight: Highlight

    /** The object `resetState` returns: a turn over the seed roster and no feedback. */
    constructor (d: Draw)
      requires ValidDraw(Seed, d)
      ensures TurnState(turnData, highlight) == ResetState(d)
    {
      turnData := GetTurnData(Seed, d);
      highlight := Empty;
    }

    /**
     * Judges the clicked title against the featured author and stores the
     * feedback in place, as the reducer does for 'ANSWER_SELECTED'. When the
     * turn has no author, the handler's promise rejects and nothing changes.
     */
    method OnAnswerSelected(answer: string) returns (r: Result<Highlight, QuizError>)
      modifies this`highlight
      ensures r == Judge(turnData, answer)
      ensures r.Success? ==> highlight == r.value
      ensures r.Failure? ==> highlight == old(highlight)
    {
      r := Judge(turnData, answer);
      if r.Success? {
        highlight := r.value;
      }
    }
  }

  /**
   * The handler and the reducer agree: on any roster, the feedback the
   * reducer computes for 'ANSWER_SELECTED' is the `Judge` verdict.
   */
  lemma HandlerMatchesReducer(authors: seq<Author>, turn: TurnData, h: Highlight, answer: string, d: Draw)
    ensures Judge(turn, answer).Success? <==> Reduce(State(authors, turn, h), AnswerSelected(answer), d).Success?
    ensures Judge(turn, answer).Success? ==>
              Reduce(State(authors, turn, h), AnswerSelected(answer), d).value
                == State(authors, turn, Judge(turn, answer).value)
  {
  }
}
