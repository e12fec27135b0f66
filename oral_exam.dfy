/** The `oral_exam` card kind: the reply supplies a topic, examiner context
    and a question count; the count is clamped to [3, 5], the stored context
    is cut to 1500 characters, and a failure falls back to the lesson's own
    first 1000 characters with three questions. Every card carries the single
    `end_exam` tool. */
module OralExam {
  import opened Wrappers
  import opened Strings
  import opened Js
  import opened Fences
  import opened CardTypes

  const Kind := "oral_exam"

  /** `generateExaminerPrompt(topic, context, questionCount)`, applied to its
      arguments' text: the fixed wording around them is not modelled. */
  type PromptBuilder = (string, string, string) -> string

  const StoredContextLength := 1500
  const FallbackContextLength := 1000
  const FallbackQuestionCount := 3.0

  /** The function declaration the live examiner calls to end the exam. */
  const EndExamTool := Obj(map[
    "functionDeclarations" := Arr([Obj(map[
      "name" := Str("end_exam"),
      "description" := Str("Call this function when the oral exam should end. Call after asking all planned questions OR when it becomes clear the student has passed or failed."),
      "parameters" := Obj(map[
        "type" := Str("object"),
        "properties" := Obj(map[
          "passed" := Obj(map[
            "type" := Str("boolean"),
            "description" := Str("Whether the student passed the exam. Pass if they demonstrated reasonable understanding of the core concepts.")]),
          "feedback" := Obj(map[
            "type" := Str("string"),
            "description" := Str("2-3 sentences of constructive feedback for the student about their performance.")])]),
        "required" := Arr([Str("passed"), Str("feedback")])])])])])

  const Definition := CardTypeDefinition(
    Kind,
    "Oral Exam",
    "A real-time voice-based examination where the AI asks questions verbally and evaluates spoken responses. Uses Gemini Live API for natural conversation. Results in pass/fail.",
    "Final assessment of understanding, practicing verbal explanation of concepts, building confidence in discussing topics. Best placed at the end of a lesson as a capstone evaluation.",
    Obj(map[
      "topic" := Str("The Power Rule for Derivatives"),
      "context" := Str("The power rule states that d/dx(x^n) = nx^(n-1)..."),
      "questionCount" := Number(3.0),
      "systemPrompt" := Str("You are a friendly oral examiner..."),
      "tools" := Arr([EndExamTool])]))

  function MaxReal(a: real, b: real): real { if a >= b then a else b }
  function MinReal(a: real, b: real): real { if a <= b then a else b }

  /** `Math.min(5, Math.max(3, q))`: both coerce `q` to a number, and NaN
      stays NaN. */
  function Clamp(q: Value, host: Host): (r: Value)
    ensures r.NaN? || (r.Number? && 3.0 <= r.n <= 5.0)
    ensures ToNumber(q, host).Number? && 3.0 <= ToNumber(q, host).n <= 5.0 ==> r == ToNumber(q, host)
  {
    match ToNumber(q, host)
    case Number(n) => Number(MinReal(5.0, MaxReal(3.0, n)))
    case _ => NaN
  }

  /** `context.slice(0, 1500)`: strings and arrays have `slice`; any other
      value makes the call throw a TypeError (`None`). */
  function SliceContext(context: Value): (r: Option<Value>)
    ensures r.Some? <==> context.Str? || context.Arr?
    ensures context.Str? ==> r == Some(Str(Prefix(context.s, StoredContextLength)))
    ensures context.Arr? ==>
      r == Some(Arr(context.items[..Min(|context.items|, StoredContextLength)]))
  {
    match context
    case Str(s) => Some(Str(Prefix(s, StoredContextLength)))
    case Arr(items) => Some(Arr(items[..Min(|items|, StoredContextLength)]))
    case _ => None
  }

  /** The reply is used: an object with truthy `topic`, `context` and
      `questionCount`, whose `context` can be sliced. */
  predicate Accepts(parsed: Value) {
    && parsed.Obj?
    && Truthy(Member(Some(parsed), "topic").value)
    && Truthy(Member(Some(parsed), "context").value)
    && Truthy(Member(Some(parsed), "questionCount").value)
    && SliceContext(parsed.fields["context"]).Some?
  }

  /** The content record; its `tools` is always the single `end_exam` tool. */
  function Content(topic: Value, context: Value, questionCount: Value, systemPrompt: string): (v: Value)
    ensures v.Obj? && "topic" in v.fields && "context" in v.fields && "questionCount" in v.fields
    ensures "systemPrompt" in v.fields && "tools" in v.fields
    ensures v.fields["topic"] == topic && v.fields["context"] == context
    ensures v.fields["questionCount"] == questionCount && v.fields["systemPrompt"] == Str(systemPrompt)
    ensures v.fields["tools"] == Arr([EndExamTool])
  {
    Obj(map[
      "topic" := topic,
      "context" := context,
      "questionCount" := questionCount,
      "systemPrompt" := Str(systemPrompt),
      "tools" := Arr([EndExamTool])])
  }

  /** The content built from an accepted reply. The prompt is built from the
      whole parsed context, not from the stored 1500-character cut. */
  function FromReply(parsed: Value, prompt: PromptBuilder, host: Host): Value
    requires Accepts(parsed)
  {
    var topic := parsed.fields["topic"];
    var count := Clamp(parsed.fields["questionCount"], host);
    Content(topic, SliceContext(parsed.fields["context"]).value, count,
      prompt(ValueText(topic, host), ValueText(parsed.fields["context"], host), ValueText(count, host)))
  }

  /** `focus || lessonTitle`. */
  function FallbackTopic(ctx: GeneratorContext): Value {
    if Truthy(ctx.focus) then ctx.focus.value else Str(ctx.lessonTitle)
  }

  function Fallback(ctx: GeneratorContext, prompt: PromptBuilder, host: Host): Value {
    var context := Prefix(ctx.lessonContent, FallbackContextLength);
    var topic := FallbackTopic(ctx);
    Content(topic, Str(context), Number(FallbackQuestionCount),
      prompt(ValueText(topic, host), context, ValueText(Number(FallbackQuestionCount), host)))
  }

  /** `oralExamCard.generate`, given the model's reply to its prompt. */
  function Generate(ctx: GeneratorContext, reply: ModelReply, prompt: PromptBuilder, host: Host): (r: Attempt)
    ensures reply.Rejected? <==> r.Threw?
    ensures reply.Rejected? ==> r.thrown == reply.thrown
    ensures r.Returned? ==> r.card.cardType == Kind
    ensures r.Returned? ==>
      var parsed := ParseReply(reply.text, "{}", host);
      if parsed.Some? && Accepts(parsed.value) then r.card.content == FromReply(parsed.value, prompt, host)
      else r.card.content == Fallback(ctx, prompt, host)
    ensures r.Returned? ==>
      r.card.content.Obj? && "tools" in r.card.content.fields && r.card.content.fields["tools"] == Arr([EndExamTool])
  {
    match reply
    case Rejected(e) => Threw(e)
    case Answered(text) =>
      var parsed := ParseReply(text, "{}", host);
      if parsed.Some? && Accepts(parsed.value) then Returned(GeneratedCard(Kind, FromReply(parsed.value, prompt, host)))
      else Returned(GeneratedCard(Kind, Fallback(ctx, prompt, host)))
  }

  /** On the accept path the count is NaN or lies in [3, 5], the stored context
      has at most 1500 characters (or elements), and the prompt quotes the
      unsliced context. */
  lemma AcceptedContent(parsed: Value, prompt: PromptBuilder, host: Host)
    requires Accepts(parsed)
    ensures var c := FromReply(parsed, prompt, host).fields;
      && (c["questionCount"].NaN? || (c["questionCount"].Number? && 3.0 <= c["questionCount"].n <= 5.0))
      && (c["context"].Str? ==> |c["context"].s| <= StoredContextLength)
      && (c["context"].Arr? ==> |c["context"].items| <= StoredContextLength)
      && c["systemPrompt"] == Str(prompt(ValueText(parsed.fields["topic"], host),
                                                ValueText(parsed.fields["context"], host),
                                                ValueText(c["questionCount"], host)))
  {
    var topic := parsed.fields["topic"];
    var count := Clamp(parsed.fields["questionCount"], host);
    var sliced := SliceContext(parsed.fields["context"]).value;
    var text := prompt(ValueText(topic, host), ValueText(parsed.fields["context"], host), ValueText(count, host));
    assert FromReply(parsed, prompt, host) == Content(topic, sliced, count, text);
  }

  /** A question count of 0 is falsy, so the reply is not used. */
  lemma ZeroCountFallsBack(fields: map<string, Value>)
    requires "questionCount" in fields && fields["questionCount"] == Number(0.0)
    ensures !Accepts(Obj(fields))
  {
  }

  /** The fallback asks three questions about the focus (or the lesson title
      when the focus is falsy), from the lesson's first 1000 characters. */
  lemma FallbackContent(ctx: GeneratorContext, prompt: PromptBuilder, host: Host)
    ensures var c := Fallback(ctx, prompt, host).fields;
      && c["questionCount"] == Number(3.0)
      && c["context"] == Str(Prefix(ctx.lessonContent, FallbackContextLength))
      && |c["context"].s| <= FallbackContextLength
      && c["topic"] == (if Truthy(ctx.focus) then ctx.focus.value else Str(ctx.lessonTitle))
  {
    var context := Prefix(ctx.lessonContent, FallbackContextLength);
    var topic := FallbackTopic(ctx);
    var text := prompt(ValueText(topic, host), context, ValueText(Number(FallbackQuestionCount), host));
    assert Fallback(ctx, prompt, host) == Content(topic, Str(context), Number(FallbackQuestionCount), text);
  }
}
