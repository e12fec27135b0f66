/** Card generation from a lesson plan: one outcome per plan entry (a card,
    an "Unknown card type" error, or the message of what the kind's generator
    threw), kept in plan order and split into the cards and the errors. The
    generators run concurrently in the source; their results are collected in
    plan order, which is the order modelled here. */
module Generator {
  import opened Wrappers
  import opened Strings
  import opened Js
  import opened CardTypes
  import Registry
  import Planner

  /** The lesson the cards are about. */
  datatype LessonInput = LessonInput(lessonContent: string, lessonTitle: string, lessonDescription: string)

  /** The model's reply to the generator call of plan entry `i`, given the
      entry's kind tag and context: each entry makes its own call, so two
      entries with the same kind and focus may get different replies. */
  type CardModel = (nat, string, GeneratorContext) -> ModelReply

  /** What one plan entry came to: `card` on success, `error` otherwise. */
  datatype Outcome = Outcome(index: nat, error: Option<string>, card: Option<GeneratedCard>)

  datatype CardError = CardError(index: nat, error: string)

  datatype GenerationResult = GenerationResult(cards: seq<GeneratedCard>, errors: seq<CardError>)

  /** The context a generator receives: the lesson and the entry's focus; no
      lesson id and no storage client are passed. */
  function ContextFor(input: LessonInput, entry: PlannedCard): GeneratorContext {
    GeneratorContext(None, false, input.lessonContent, input.lessonTitle, input.lessonDescription, entry.focus)
  }

  /** The error of an entry whose kind is not registered. */
  function UnknownType(kind: string): string {
    "Unknown card type: " + kind
  }

  /** The outcome of plan entry `i`. */
  function OutcomeFor(input: LessonInput, plan: LessonPlan, i: nat, model: CardModel, host: Host): (o: Outcome)
    requires i < |plan.cards|
    ensures o.index == i
    ensures o.card.Some? ==> o.error.None?
    ensures var t := plan.cards[i].cardType;
      Registry.GetCardType(t).None? ==> o == Outcome(i, Some(UnknownType(t)), None)
    ensures var t := plan.cards[i].cardType; var reply := model(i, t, ContextFor(input, plan.cards[i]));
      Registry.GetCardType(t).Some? ==>
        && (o.card.Some? <==> reply.Answered?)
        && (o.card.Some? ==> o.card.value.cardType == t)
        && (reply.Rejected? ==> o.error == Some(MessageOr(reply.thrown, "Unknown error")))
  {
    var entry := plan.cards[i];
    match Registry.GetCardType(entry.cardType)
    case None => Outcome(i, Some(UnknownType(entry.cardType)), None)
    case Some(def) =>
      Registry.LookupIffListed(entry.cardType);
      var ctx := ContextFor(input, entry);
      match Registry.Generate(def, ctx, model(i, entry.cardType, ctx), host)
      case Returned(card) => Outcome(i, None, Some(card))
      case Threw(e) => Outcome(i, Some(MessageOr(e, "Unknown error")), None)
  }

  /** The outcomes of all entries, in plan order (what `Promise.all` yields;
      the sort by index that follows leaves them as they are). */
  function Outcomes(input: LessonInput, plan: LessonPlan, model: CardModel, host: Host): (outs: seq<Outcome>)
    ensures |outs| == |plan.cards| && forall i :: 0 <= i < |outs| ==> outs[i].index == i
  {
    seq(|plan.cards|, i requires 0 <= i < |plan.cards| => OutcomeFor(input, plan, i, model, host))
  }

  /** The cards, in outcome order. */
  function CardsOf(outs: seq<Outcome>): seq<GeneratedCard> {
    if |outs| == 0 then []
    else
      var last := outs[|outs| - 1];
      CardsOf(outs[..|outs| - 1]) + (if last.card.Some? then [last.card.value] else [])
  }

  /** The errors, in outcome order: outcomes with no card and a non-empty
      error message. */
  function ErrorsOf(outs: seq<Outcome>): seq<CardError> {
    if |outs| == 0 then []
    else
      var last := outs[|outs| - 1];
      ErrorsOf(outs[..|outs| - 1])
        + (if last.card.None? && last.error.Some? && last.error.value != "" then [CardError(last.index, last.error.value)] else [])
  }

  /** Positions of the outcomes that carry a card. */
  function SuccessIndices(outs: seq<Outcome>): (r: seq<nat>)
    ensures forall k :: 0 <= k < |r| ==> r[k] < |outs| && outs[r[k]].card.Some?
    ensures forall k, l :: 0 <= k < l < |r| ==> r[k] < r[l]
  {
    if |outs| == 0 then []
    else
      var prefix := SuccessIndices(outs[..|outs| - 1]);
      assert forall k :: 0 <= k < |prefix| ==> outs[prefix[k]] == outs[..|outs| - 1][prefix[k]];
      prefix + (if outs[|outs| - 1].card.Some? then [|outs| - 1] else [])
  }

  /** The loop of `generateCards` over the settled outcomes: each card is
      pushed to `cards`, each non-empty error to `errors`. */
  method Collect(outcomes: seq<Outcome>) returns (result: GenerationResult)
    ensures result.cards == CardsOf(outcomes)
    ensures result.errors == ErrorsOf(outcomes)
  {
    var cards: seq<GeneratedCard> := [];
    var errors: seq<CardError> := [];
    for k := 0 to |outcomes|
      invariant cards == CardsOf(outcomes[..k])
      invariant errors == ErrorsOf(outcomes[..k])
    {
      assert outcomes[..k + 1][..k] == outcomes[..k];
      var outcome := outcomes[k];
      if outcome.card.Some? {
        cards := cards + [outcome.card.value];
      } else if outcome.error.Some? && outcome.error.value != "" {
        errors := errors + [CardError(outcome.index, outcome.error.value)];
      }
    }
    assert outcomes[..|outcomes|] == outcomes;
    result := GenerationResult(cards, errors);
  }

  /** `generateCards`: runs every entry's generator, then collects the
      outcomes in plan order. */
  method GenerateCards(input: LessonInput, plan: LessonPlan, model: CardModel, host: Host) returns (result: GenerationResult)
    ensures result.cards == CardsOf(Outcomes(input, plan, model, host))
    ensures result.errors == ErrorsOf(Outcomes(input, plan, model, host))
  {
    result := Collect(Outcomes(input, plan, model, host));
  }

  /** Cards keep plan order: the k-th card is the card of the k-th entry that
      produced one. */
  lemma {:induction false} CardsFollowSuccesses(outs: seq<Outcome>)
    ensures |CardsOf(outs)| == |SuccessIndices(outs)|
    ensures forall k :: 0 <= k < |CardsOf(outs)| ==> CardsOf(outs)[k] == outs[SuccessIndices(outs)[k]].card.value
  {
    if |outs| > 0 {
      var init := outs[..|outs| - 1];
      CardsFollowSuccesses(init);
      forall k | 0 <= k < |SuccessIndices(init)|
        ensures outs[SuccessIndices(init)[k]] == init[SuccessIndices(init)[k]]
      {
      }
    }
  }

  /** Errors are in strictly ascending index order, and each names an entry
      of the plan. */
  lemma {:induction false} ErrorsAscending(outs: seq<Outcome>)
    requires forall i :: 0 <= i < |outs| ==> outs[i].index == i
    ensures forall k :: 0 <= k < |ErrorsOf(outs)| ==> ErrorsOf(outs)[k].index < |outs|
    ensures forall k, l :: 0 <= k < l < |ErrorsOf(outs)| ==> ErrorsOf(outs)[k].index < ErrorsOf(outs)[l].index
  {
    if |outs| > 0 {
      var init := outs[..|outs| - 1];
      ErrorsAscending(init);
    }
  }

  /** No entry yields both a card and an error, and an entry with no card and
      an empty message yields neither. */
  lemma {:induction false} AtMostOnePerEntry(outs: seq<Outcome>)
    ensures |CardsOf(outs)| + |ErrorsOf(outs)| <= |outs|
  {
    if |outs| > 0 {
      AtMostOnePerEntry(outs[..|outs| - 1]);
    }
  }

  /** A failed entry with a message is reported at its own index. */
  lemma {:induction false} FailureReported(outs: seq<Outcome>, i: nat)
    requires i < |outs|
    requires outs[i].card.None? && outs[i].error.Some? && outs[i].error.value != ""
    ensures CardError(outs[i].index, outs[i].error.value) in ErrorsOf(outs)
  {
    if i < |outs| - 1 {
      FailureReported(outs[..|outs| - 1], i);
    }
  }

  /** An entry of an unregistered kind is reported as an unknown card type
      at its own index. */
  lemma UnknownKindReported(input: LessonInput, plan: LessonPlan, model: CardModel, host: Host, i: nat)
    requires i < |plan.cards| && Registry.GetCardType(plan.cards[i].cardType).None?
    ensures var outs := Outcomes(input, plan, model, host);
      && outs[i] == Outcome(i, Some(UnknownType(plan.cards[i].cardType)), None)
      && CardError(i, UnknownType(plan.cards[i].cardType)) in ErrorsOf(outs)
  {
    FailureReported(Outcomes(input, plan, model, host), i);
  }

  /** Entries 2 to 4 of the default plan are not registered, so each yields
      no card and is reported as an unknown card type at its own index. */
  lemma DefaultPlanUnknownKind(input: LessonInput, model: CardModel, host: Host, i: nat)
    requires 2 <= i < 5
    ensures var plan := Planner.DefaultPlan(); var outs := Outcomes(input, plan, model, host);
      && |outs| == 5 && outs[i].card.None?
      && CardError(i, UnknownType(plan.cards[i].cardType)) in ErrorsOf(outs)
  {
    var plan := Planner.DefaultPlan();
    Planner.DefaultPlanKinds();
    Registry.UnlistedNotFound(plan.cards[i].cardType);
    UnknownKindReported(input, plan, model, host, i);
  }

  /** The default plan's last three kinds, fill_in_blank, infographic and
      interactive_visual, come back as errors at indices 2, 3 and 4. */
  lemma DefaultPlanErrors(input: LessonInput, model: CardModel, host: Host)
    ensures var outs := Outcomes(input, Planner.DefaultPlan(), model, host);
      && CardError(2, UnknownType("fill_in_blank")) in ErrorsOf(outs)
      && CardError(3, UnknownType("infographic")) in ErrorsOf(outs)
      && CardError(4, UnknownType("interactive_visual")) in ErrorsOf(outs)
  {
    Planner.DefaultPlanKinds();
    DefaultPlanUnknownKind(input, model, host, 2);
    DefaultPlanUnknownKind(input, model, host, 3);
    DefaultPlanUnknownKind(input, model, host, 4);
  }

  /** A strictly ascending sequence of naturals below `n` has at most `n`
      elements. */
  lemma {:induction false} AscendingBelow(r: seq<nat>, n: nat)
    requires forall k, l :: 0 <= k < l < |r| ==> r[k] < r[l]
    requires forall k :: 0 <= k < |r| ==> r[k] < n
    ensures |r| <= n
  {
    if |r| > 0 {
      var init := r[..|r| - 1];
      assert forall k :: 0 <= k < |init| ==> init[k] < r[|r| - 1];
      AscendingBelow(init, r[|r| - 1]);
    }
  }

  /** Five outcomes of which the last three carry no card give at most two
      cards. */
  lemma AtMostTwoCards(outs: seq<Outcome>)
    requires |outs| == 5 && outs[2].card.None? && outs[3].card.None? && outs[4].card.None?
    ensures |CardsOf(outs)| <= 2
  {
    CardsFollowSuccesses(outs);
    AscendingBelow(SuccessIndices(outs), 2);
  }

  /** So the default plan yields at most two cards. */
  lemma DefaultPlanAtMostTwoCards(input: LessonInput, model: CardModel, host: Host)
    ensures |CardsOf(Outcomes(input, Planner.DefaultPlan(), model, host))| <= 2
  {
    DefaultPlanUnknownKind(input, model, host, 2);
    DefaultPlanUnknownKind(input, model, host, 3);
    DefaultPlanUnknownKind(input, model, host, 4);
    AtMostTwoCards(Outcomes(input, Planner.DefaultPlan(), model, host));
  }

  /** What `generateLesson` returns: the cards and errors together with the
      plan they were made from. */
  datatype LessonResult = LessonResult(result: GenerationResult, plan: LessonPlan)

  /** `generateLesson`: plan, then generate from exactly that plan. */
  method GenerateLesson(input: LessonInput, planReply: ModelReply, model: CardModel, host: Host)
    returns (r: Result<LessonResult, Thrown>)
    ensures Planner.PlanLesson(planReply, host).Err? ==> r == Err(Planner.PlanLesson(planReply, host).error)
    ensures Planner.PlanLesson(planReply, host).Ok? ==>
      && r.Ok?
      && r.value.plan == Planner.PlanLesson(planReply, host).value
      && r.value.result.cards == CardsOf(Outcomes(input, r.value.plan, model, host))
      && r.value.result.errors == ErrorsOf(Outcomes(input, r.value.plan, model, host))
  {
    match Planner.PlanLesson(planReply, host)
    case Err(e) =>
      r := Err(e);
    case Ok(plan) =>
      var result := GenerateCards(input, plan, model, host);
      r := Ok(LessonResult(result, plan));
  }
}
