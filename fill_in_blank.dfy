/** The `fill_in_blank` card kind: array-valued `text` and `explanation` are
    joined into strings, the content is accepted when `text` is truthy and
    `blanks` is a non-null object, and any failure gives a one-blank
    fallback. Option lists and correct markers are not checked. */
module FillInBlank {
  import opened Wrappers
  import opened Strings
  import opened Js
  import opened Fences
  import opened CardTypes

  const Kind := "fill_in_blank"

  const Definition := CardTypeDefinition(
    Kind,
    "Fill in the Blank",
    "A sentence or paragraph with missing words. Each blank has 3-4 options to choose from, and the user must select the correct word for each blank.",
    "Testing recall of key terms, formulas, or definitions. Good for vocabulary and concept reinforcement.",
    Obj(map[
      "text" := Str("The derivative of $x^n$ is {{blank1}}, which is known as the {{blank2}}."),
      "blanks" := Obj(map[
        "blank1" := Arr([Choice("$nx^{n-1}$", true), Choice("$x^{n+1}$", false), Choice("$nx^n$", false)]),
        "blank2" := Arr([Choice("power rule", true), Choice("chain rule", false), Choice("product rule", false)])]),
      "explanation" := Str("The power rule states that the derivative of $x^n$ is $nx^{n-1}$.")]))

  /** An option of a blank: `{text, isCorrect}`. */
  function Choice(text: string, isCorrect: bool): Value {
    Obj(map["text" := Str(text), "isCorrect" := Bool(isCorrect)])
  }

  const FallbackBlankId := "blank1"
  const FallbackText := "The key concept here is " + "{{" + FallbackBlankId + "}}" + "."
  const FallbackExplanation := "Review the lesson content for more details."

  /** The texts of the options marked correct, in order. */
  function CorrectTexts(options: seq<Value>): (r: seq<Prop>)
    ensures |r| <= |options|
  {
    if |options| == 0 then []
    else
      var rest := CorrectTexts(options[1..]);
      var marker := Member(Some(options[0]), "isCorrect");
      if marker.Some? && Truthy(marker.value) then [Member(Some(options[0]), "text").value] + rest else rest
  }

  /** The fallback: one blank, three options, exactly one of them correct. */
  function Fallback(): (v: Value)
    ensures v.Obj? && "blanks" in v.fields && v.fields["blanks"].Obj? && v.fields["blanks"].fields.Keys == {FallbackBlankId}
    ensures var options := v.fields["blanks"].fields[FallbackBlankId];
      options.Arr? && |options.items| == 3 && CorrectTexts(options.items) == [Some(Str("understanding"))]
  {
    var options := [Choice("understanding", true), Choice("confusion", false), Choice("complexity", false)];
    assert CorrectTexts(options[2..]) == [];
    assert CorrectTexts(options[1..]) == [];
    Obj(map[
      "text" := Str(FallbackText),
      "blanks" := Obj(map[FallbackBlankId := Arr(options)]),
      "explanation" := Str(FallbackExplanation)])
  }

  /** The array-to-string repair of `text` and `explanation`. */
  function Normalize(content: Value, host: Host): Value {
    if content.Obj? then
      Obj(JoinArrayField(JoinArrayField(content.fields, "text", host), "explanation", host))
    else content
  }

  /** The validity check: truthy `text` and a `blanks` that is a non-null
      object (an array passes too). */
  predicate IsValid(content: Value) {
    && content.Obj?
    && Truthy(Member(Some(content), "text").value)
    && Truthy(Member(Some(content), "blanks").value)
    && IsObjectType(Member(Some(content), "blanks").value)
  }

  /** `fillInBlankCard.generate`, given the model's reply to its prompt. */
  function Generate(ctx: GeneratorContext, reply: ModelReply, host: Host): (r: Attempt)
    ensures reply.Rejected? <==> r.Threw?
    ensures reply.Rejected? ==> r.thrown == reply.thrown
    ensures r.Returned? ==> r.card.cardType == Kind && IsValid(r.card.content)
    ensures r.Returned? ==>
      var parsed := ParseReply(reply.text, "{}", host);
      if parsed.Some? && IsValid(Normalize(parsed.value, host)) then r.card.content == Normalize(parsed.value, host)
      else r.card.content == Fallback()
  {
    match reply
    case Rejected(e) => Threw(e)
    case Answered(text) =>
      var parsed := ParseReply(text, "{}", host);
      if parsed.Some? && IsValid(Normalize(parsed.value, host)) then
        Returned(GeneratedCard(Kind, Normalize(parsed.value, host)))
      else
        FallbackIsValid();
        Returned(GeneratedCard(Kind, Fallback()))
  }

  /** The fallback passes the validity check it stands in for. */
  lemma FallbackIsValid()
    ensures IsValid(Fallback())
  {
    assert Fallback().fields["text"] == Str(FallbackText);
  }

  /** Validity is exactly the two field checks: a truthy `text` (after the
      repair) and a non-null object as `blanks`, whatever the options say. */
  lemma AcceptedIff(fields: map<string, Value>, host: Host)
    ensures IsValid(Normalize(Obj(fields), host)) <==>
      && "text" in fields
      && (if fields["text"].Arr? then JoinValues(fields["text"].items, " ", host) != "" else Truthy(Some(fields["text"])))
      && "blanks" in fields && (fields["blanks"].Arr? || fields["blanks"].Obj?)
  {
  }
}
