/** A question as it stands in a draft. Which questions may enter a draft is a rule the model takes
    as given; what it uses of them is their identity, their wording and their bounds. */
module Questions {

  datatype QuestionType =
    | LongText | ShortText | SingleChoice | MultipleChoice | RatingScale | NPS | YesNo | Dropdown | Date | Number

  datatype Question = Question(identity: string, kind: QuestionType, text: string, options: seq<string>,
                               required: bool, scaleMin: int, scaleMax: int, allowOther: bool) {
    /** The effective bounds of a scale or a number question. */
    function Scale(): (int, int) {
      if kind.NPS? then (0, 10)
      else if kind.Number? then (scaleMin, scaleMax)
      else if scaleMax <= scaleMin then (1, 5)
      else (scaleMin, scaleMax)
    }

    predicate HasBounds() { kind.RatingScale? || kind.Number? }

    /** The question as a published version's row gives it back: with its effective bounds where its
        type has bounds, and with none where it has not. */
    function Frozen(): Question {
      var (low, high) := if HasBounds() then Scale() else (0, 0);
      this.(scaleMin := low, scaleMax := high)
    }
  }

  /** Which questions may enter a draft. */
  type QuestionRule = Question -> bool

  /** A question published, read back and published again is the same row. */
  lemma FrozenTwiceIsFrozen(q: Question)
    ensures q.Frozen().Frozen() == q.Frozen()
    ensures q.HasBounds() ==> q.Frozen().Scale() == q.Scale()
  {
  }
}
