/** The lesson player: steps through a lesson's cards, counts correct answers
    to question cards and shows the completion screen after the last card. */
module LessonPlayer {
  import opened Js

  /** A stored card as the player receives it. */
  datatype Card = Card(id: string, cardType: string, content: Value)

  /** The kinds that count as questions for scoring. */
  const QuestionCardTypes: seq<string> := ["mc_question", "fill_in_blank"]

  predicate IsQuestion(card: Card) {
    card.cardType in QuestionCardTypes
  }

  /** `cards.filter(isQuestion).length`. */
  function TotalQuestions(cards: seq<Card>): (n: nat)
    ensures n <= |cards|
  {
    if |cards| == 0 then 0
    else TotalQuestions(cards[..|cards| - 1]) + (if IsQuestion(cards[|cards| - 1]) then 1 else 0)
  }

  /** The total over a concatenation is the sum of the totals. */
  lemma {:induction false} TotalQuestionsAppend(a: seq<Card>, b: seq<Card>)
    ensures TotalQuestions(a + b) == TotalQuestions(a) + TotalQuestions(b)
  {
    if |b| > 0 {
      assert (a + b)[..|a + b| - 1] == a + b[..|b| - 1];
      TotalQuestionsAppend(a, b[..|b| - 1]);
    } else {
      assert a + b == a;
    }
  }

  /** Every card is counted exactly when every card is a question. */
  lemma {:induction false} AllQuestions(cards: seq<Card>)
    ensures TotalQuestions(cards) == |cards| <==> forall i :: 0 <= i < |cards| ==> IsQuestion(cards[i])
  {
    if |cards| > 0 {
      var init := cards[..|cards| - 1];
      AllQuestions(init);
      assert forall i :: 0 <= i < |init| ==> init[i] == cards[i];
    }
  }

  /** Which handler a rendered card reports to. */
  datatype Handler = OnContinue | OnAnswer

  /** The card component chosen for a card, with the content it is given. */
  datatype CardView =
    | TextView(content: Value)
    | McQuestionView(content: Value)
    | FillInBlankView(content: Value)
    | InfographicView(content: Value)

  /** `renderCard`: the component for the card's kind; any other kind is
      shown as a text card titled "Content" holding the pretty-printed JSON
      of the content. */
  function RenderCard(card: Card, host: Host): (r: (CardView, Handler))
    ensures r.1 == OnAnswer <==> IsQuestion(card)
    ensures card.cardType == "text" ==> r.0 == TextView(card.content)
    ensures card.cardType == "infographic" ==> r.0 == InfographicView(card.content)
    ensures card.cardType == "mc_question" ==> r.0 == McQuestionView(card.content)
    ensures card.cardType == "fill_in_blank" ==> r.0 == FillInBlankView(card.content)
    ensures card.cardType !in ["text", "mc_question", "fill_in_blank", "infographic"] ==>
      r.0 == TextView(Obj(map["title" := Str("Content"), "body" := Str(host.stringifyPretty(card.content))]))
  {
    match card.cardType
    case "text" => (TextView(card.content), OnContinue)
    case "mc_question" => (McQuestionView(card.content), OnAnswer)
    case "fill_in_blank" => (FillInBlankView(card.content), OnAnswer)
    case "infographic" => (InfographicView(card.content), OnContinue)
    case _ =>
      (TextView(Obj(map["title" := Str("Content"), "body" := Str(host.stringifyPretty(card.content))])), OnContinue)
  }

  /** What the player shows. */
  datatype Screen =
    | Completed(correctAnswers: nat, totalQuestions: nat)
    | NoCardsFound
    | Showing(view: CardView, handler: Handler)

  class Player {
    const cards: seq<Card>
    var currentCardIndex: nat
    var correctAnswers: nat
    var isComplete: bool
    /** Answer events since the last retry. */
    ghost var answers: nat

    /** The index stays on a card (or at 0 for an empty lesson), and there
        are never more correct answers than answers. */
    ghost predicate Valid()
      reads this
    {
      && (currentCardIndex == 0 || currentCardIndex < |cards|)
      && correctAnswers <= answers
    }

    constructor (cards: seq<Card>)
      ensures Valid()
      ensures this.cards == cards && currentCardIndex == 0 && correctAnswers == 0 && !isComplete
    {
      this.cards := cards;
      currentCardIndex := 0;
      correctAnswers := 0;
      isComplete := false;
      answers := 0;
    }

    /** The screen for the current state. */
    function View(host: Host): (s: Screen)
      reads this
      ensures isComplete ==> s == Completed(correctAnswers, TotalQuestions(cards))
      ensures !isComplete && |cards| == 0 ==> s == NoCardsFound
      ensures !isComplete && currentCardIndex < |cards| ==>
        s == Showing(RenderCard(cards[currentCardIndex], host).0, RenderCard(cards[currentCardIndex], host).1)
    {
      if isComplete then Completed(correctAnswers, TotalQuestions(cards))
      else if currentCardIndex >= |cards| then NoCardsFound
      else
        var (view, handler) := RenderCard(cards[currentCardIndex], host);
        Showing(view, handler)
    }

    /** `handleContinue`: the next card, or completion after the last. */
    method HandleContinue()
      requires Valid()
      modifies this
      ensures Valid()
      ensures old(currentCardIndex) < |cards| - 1 ==>
        currentCardIndex == old(currentCardIndex) + 1 && isComplete == old(isComplete)
      ensures old(currentCardIndex) >= |cards| - 1 ==>
        currentCardIndex == old(currentCardIndex) && isComplete
      ensures correctAnswers == old(correctAnswers) && answers == old(answers)
    {
      if currentCardIndex < |cards| - 1 {
        currentCardIndex := currentCardIndex + 1;
      } else {
        isComplete := true;
      }
    }

    /** `handleAnswer`: counts a correct answer, then moves on as
        `handleContinue` does. */
    method HandleAnswer(isCorrect: bool)
      requires Valid()
      modifies this
      ensures Valid()
      ensures correctAnswers == old(correctAnswers) + (if isCorrect then 1 else 0)
      ensures answers == old(answers) + 1
      ensures old(currentCardIndex) < |cards| - 1 ==>
        currentCardIndex == old(currentCardIndex) + 1 && isComplete == old(isComplete)
      ensures old(currentCardIndex) >= |cards| - 1 ==>
        currentCardIndex == old(currentCardIndex) && isComplete
    {
      answers := answers + 1;
      if isCorrect {
        correctAnswers := correctAnswers + 1;
      }
      if currentCardIndex < |cards| - 1 {
        currentCardIndex := currentCardIndex + 1;
      } else {
        isComplete := true;
      }
    }

    /** `handleRetry`: back to the first card with no answers. */
    method HandleRetry()
      requires Valid()
      modifies this
      ensures Valid()
      ensures currentCardIndex == 0 && correctAnswers == 0 && !isComplete && answers == 0
    {
      currentCardIndex := 0;
      correctAnswers := 0;
      isComplete := false;
      answers := 0;
    }
  }
}
