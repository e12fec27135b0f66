/** The multiple-choice card component: the learner picks an option, submits,
    and continues, reporting whether the pick was the correct one. */
module McQuestionCard {
  import opened Wrappers
  import opened Js

  /** The card's content as the component receives it; `correctIndex` is
      whatever value the stored content carries. */
  datatype Content = Content(question: string, options: seq<string>, correctIndex: Value, explanation: string)

  /** `selectedIndex === content.correct_index`: a strict comparison, so only
      a number equal to the selected position matches, and no selection
      matches anything. */
  predicate Matches(selected: Option<nat>, correctIndex: Value) {
    selected.Some? && correctIndex == Number(selected.value as real)
  }

  /** At most one position matches a given `correct_index`. */
  lemma MatchIsUnique(i: nat, j: nat, correctIndex: Value)
    requires Matches(Some(i), correctIndex) && Matches(Some(j), correctIndex)
    ensures i == j
  {
  }

  /** `String.fromCharCode(65 + index)`, for positions whose code stays below
      the surrogate range. */
  function OptionLetter(index: nat): (c: char)
    requires index < 0xD800 - 65
    ensures c as int == 65 + index
  {
    (65 + index) as char
  }

  /** Different options get different letters; the four options of a
      generated question are A to D. */
  lemma LettersOfFourOptions()
    ensures [OptionLetter(0), OptionLetter(1), OptionLetter(2), OptionLetter(3)] == "ABCD"
    ensures forall i: nat, j: nat :: i < j < 0xD800 - 65 ==> OptionLetter(i) != OptionLetter(j)
  {
  }

  class Card {
    const content: Content
    var selectedIndex: Option<nat>
    var hasAnswered: bool

    /** An answer always has a selection behind it. */
    ghost predicate Valid()
      reads this
    {
      hasAnswered ==> selectedIndex.Some?
    }

    constructor (content: Content)
      ensures Valid()
      ensures this.content == content && selectedIndex.None? && !hasAnswered
    {
      this.content := content;
      selectedIndex := None;
      hasAnswered := false;
    }

    /** `isCorrect`. */
    predicate IsCorrect()
      reads this
    {
      Matches(selectedIndex, content.correctIndex)
    }

    /** `handleSelect`: ignored once answered; before that, the new
        selection replaces the old one. */
    method HandleSelect(index: nat)
      requires Valid()
      modifies this
      ensures Valid()
      ensures old(hasAnswered) ==> selectedIndex == old(selectedIndex)
      ensures !old(hasAnswered) ==> selectedIndex == Some(index)
      ensures hasAnswered == old(hasAnswered)
    {
      if hasAnswered {
        return;
      }
      selectedIndex := Some(index);
    }

    /** `handleSubmit`: a no-op while nothing is selected. */
    method HandleSubmit()
      requires Valid()
      modifies this
      ensures Valid()
      ensures selectedIndex == old(selectedIndex)
      ensures hasAnswered == (old(hasAnswered) || old(selectedIndex).Some?)
    {
      if selectedIndex.None? {
        return;
      }
      hasAnswered := true;
    }

    /** `handleContinue`: reports the current `isCorrect`. */
    method HandleContinue() returns (reported: bool)
      ensures reported <==> selectedIndex.Some? && content.correctIndex == Number(selectedIndex.value as real)
    {
      reported := IsCorrect();
    }
  }
}
