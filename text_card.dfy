/** The `text` card kind: the parsed reply is the content, unvalidated; a
    reply that does not parse gives a title-and-sentence fallback. */
module TextCard {
  import opened Wrappers
  import opened Strings
  import opened Js
  import opened Fences
  import opened CardTypes

  const Kind := "text"

  const DisplayName := "Text Card"
  const Description := "An informational card that presents content to the user. Displays a title and markdown-formatted body text."
  const UseCases := "Introducing new concepts, explaining details, providing examples, or summarizing key points. Good for teaching before testing."
  const Example := Obj(map[
    "title" := Str("Understanding Derivatives"),
    "body" := Str("A **derivative** represents the rate of change of a function. For $f(x) = x^2$, the derivative is $f'(x) = 2x$.\n\n- Measures instantaneous rate of change\n- Fundamental to calculus")])

  const Definition := CardTypeDefinition(Kind, DisplayName, Description, UseCases, Example)

  /** The content used when the reply does not parse. */
  function Fallback(ctx: GeneratorContext, host: Host): Value {
    TitleBody(Some(Str(ctx.lessonTitle)), "Let's learn about " + TemplateText(ctx.focus, host) + ".")
  }

  /** `textCard.generate`, given the model's reply to its prompt. */
  function Generate(ctx: GeneratorContext, reply: ModelReply, host: Host): (r: Attempt)
    ensures reply.Rejected? <==> r.Threw?
    ensures reply.Rejected? ==> r.thrown == reply.thrown
    ensures r.Returned? ==> r.card.cardType == Kind
    ensures r.Returned? && ParseReply(reply.text, "{}", host).Some? ==>
      r.card.content == ParseReply(reply.text, "{}", host).value
    ensures r.Returned? && ParseReply(reply.text, "{}", host).None? ==>
      r.card.content == Obj(map["title" := Str(ctx.lessonTitle),
                                "body" := Str("Let's learn about " + TemplateText(ctx.focus, host) + ".")])
  {
    match reply
    case Rejected(e) => Threw(e)
    case Answered(text) =>
      match ParseReply(text, "{}", host)
      case Some(content) => Returned(GeneratedCard(Kind, content))
      case None => Returned(GeneratedCard(Kind, Fallback(ctx, host)))
  }

  /** An empty reply is read as `{}`, which parses: the content is the empty
      object, not the fallback. */
  lemma EmptyReplyGivesEmptyObject(ctx: GeneratorContext, host: Host)
    requires ParsesDefaults(host)
    ensures Generate(ctx, Answered(""), host) == Returned(GeneratedCard(Kind, Obj(map[])))
  {
    EmptyReplyParsesDefault("{}", host);
  }
}
