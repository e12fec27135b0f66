/** The `mc_question` card kind: array-valued `question` and `explanation`
    are joined into strings, the content is accepted only with a truthy
    question, exactly four options and a `correct_index` in [0, 3], and any
    failure gives a fixed four-option fallback. */
module McQuestion {
  import opened Wrappers
  import opened Strings
  import opened Js
  import opened Fences
  import opened CardTypes

  const Kind := "mc_question"

  const DisplayName := "Multiple Choice Question"
  const Description := "A question with 4 answer options where exactly one is correct. Includes an explanation shown after answering."
  const UseCases := "Testing understanding, checking recall, verifying comprehension of concepts. Good after teaching content."
  const Example := Obj(map[
    "question" := Str("What is the derivative of $x^3$?"),
    "options" := Arr([Str("$x^2$"), Str("$3x^2$"), Str("$3x$"), Str("$x^3$")]),
    "correct_index" := Number(1.0),
    "explanation" := Str("Using the power rule: $\\frac{d}{dx}(x^n) = nx^{n-1}$, so $\\frac{d}{dx}(x^3) = 3x^2$.")])

  const Definition := CardTypeDefinition(Kind, DisplayName, Description, UseCases, Example)

  const FallbackOptions: seq<string> :=
    ["All of the above", "None of the above", "It depends on the context", "The first option is correct"]

  const FallbackExplanation := "Review the lesson content for more details."

  /** The question text of the fallback. */
  function FallbackQuestion(focus: Prop, host: Host): string {
    "Which statement about " + TemplateText(focus, host) + " is correct?"
  }

  function Fallback(focus: Prop, host: Host): Value {
    Obj(map[
      "question" := Str(FallbackQuestion(focus, host)),
      "options" := Arr([Str(FallbackOptions[0]), Str(FallbackOptions[1]), Str(FallbackOptions[2]), Str(FallbackOptions[3])]),
      "correct_index" := Number(0.0),
      "explanation" := Str(FallbackExplanation)])
  }

  /** The array-to-string repair of `question` and `explanation`; a value that
      is not an object has no such fields and is left alone. */
  function Normalize(content: Value, host: Host): Value {
    if content.Obj? then
      Obj(JoinArrayField(JoinArrayField(content.fields, "question", host), "explanation", host))
    else content
  }

  /** `typeof x === "number" && !(x < 0) && !(x > 3)`: NaN passes, as both
      comparisons are false for it. */
  predicate IndexInRange(p: Prop) {
    p.Some? && (p.value.NaN? || (p.value.Number? && 0.0 <= p.value.n <= 3.0))
  }

  /** The validity check on the repaired content. */
  predicate IsValid(content: Value) {
    && content.Obj?
    && Truthy(Member(Some(content), "question").value)
    && IsArray(Member(Some(content), "options").value)
    && |content.fields["options"].items| == 4
    && IndexInRange(Member(Some(content), "correct_index").value)
  }

  /** `mcQuestionCard.generate`, given the model's reply to its prompt. Every
      returned content passes the validity check: either it is the repaired
      parse, or the fallback, which passes it too. */
  function Generate(ctx: GeneratorContext, reply: ModelReply, host: Host): (r: Attempt)
    ensures reply.Rejected? <==> r.Threw?
    ensures reply.Rejected? ==> r.thrown == reply.thrown
    ensures r.Returned? ==> r.card.cardType == Kind && IsValid(r.card.content)
    ensures r.Returned? ==>
      var parsed := ParseReply(reply.text, "{}", host);
      if parsed.Some? && IsValid(Normalize(parsed.value, host)) then r.card.content == Normalize(parsed.value, host)
      else r.card.content == Fallback(ctx.focus, host)
  {
    match reply
    case Rejected(e) => Threw(e)
    case Answered(text) =>
      var parsed := ParseReply(text, "{}", host);
      if parsed.Some? && IsValid(Normalize(parsed.value, host)) then
        Returned(GeneratedCard(Kind, Normalize(parsed.value, host)))
      else
        FallbackIsValid(ctx.focus, host);
        Returned(GeneratedCard(Kind, Fallback(ctx.focus, host)))
  }

  /** The fallback passes the validity check it stands in for. */
  lemma FallbackIsValid(focus: Prop, host: Host)
    ensures IsValid(Fallback(focus, host))
  {
    var f := Fallback(focus, host);
    assert f.fields["question"] == Str(FallbackQuestion(focus, host));
    assert |FallbackQuestion(focus, host)| > 0;
  }

  /** Content built from a JSON value has a real number in [0, 3] as its
      `correct_index`: NaN cannot come out of the parser. */
  lemma {:induction false} AcceptedJsonIndexIsNumber(v: Value, host: Host)
    requires IsJson(v)
    requires IsValid(Normalize(v, host))
    ensures var c := Normalize(v, host).fields["correct_index"]; c.Number? && 0.0 <= c.n <= 3.0
  {
    assert v.Obj?;
    assert Normalize(v, host).fields["correct_index"] == v.fields["correct_index"];
    assert IsJson(v.fields["correct_index"]);
  }

  /** An array-valued question is joined with single spaces before the check. */
  lemma ArrayQuestionIsJoined(fields: map<string, Value>, host: Host)
    requires "question" in fields && fields["question"].Arr?
    ensures Normalize(Obj(fields), host).fields["question"] == Str(JoinValues(fields["question"].items, " ", host))
  {
  }
}
