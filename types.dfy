/** The records the card pipeline passes around: the context a card generator
    receives, the card it returns, a card kind's catalog entry and the lesson
    plan. Clients of the generative model and of storage are not values here:
    their replies are passed to the generators as arguments. */
module CardTypes {
  import opened Wrappers
  import opened Js

  /** What a card generator is given. `lessonId` and `hasStorage` stand for
      the `lessonId` and `supabase` members, which a caller may leave out
      (undefined); `focus` is whatever the plan entry carried. */
  datatype GeneratorContext = GeneratorContext(
    lessonId: Option<string>,
    hasStorage: bool,
    lessonContent: string,
    lessonTitle: string,
    lessonDescription: string,
    focus: Prop)

  /** A generated card: its kind tag and its kind-specific content. */
  datatype GeneratedCard = GeneratedCard(cardType: string, content: Value)

  /** A catalog entry: kind tag, display name, planner-facing description,
      usage hint and an example of the content. */
  datatype CardTypeDefinition = CardTypeDefinition(
    cardType: string,
    name: string,
    description: string,
    bestUsedFor: string,
    exampleOutput: Value)

  /** One entry of a lesson plan. */
  datatype PlannedCard = PlannedCard(cardType: string, focus: Prop)

  datatype LessonPlan = LessonPlan(cards: seq<PlannedCard>)

  /** How a call to the generative model settles: with the reply's text ("" for
      both an empty and a missing text) or by rejecting. */
  datatype ModelReply = Answered(text: string) | Rejected(thrown: Thrown)

  /** How a generator's promise settles. */
  datatype Attempt = Returned(card: GeneratedCard) | Threw(thrown: Thrown)

  /** `{title, body}`, the content shape of a text card. */
  function TitleBody(title: Prop, body: string): (v: Value)
    ensures v.Obj? && "body" in v.fields && v.fields["body"] == Str(body)
    ensures title.Some? <==> "title" in v.fields
  {
    Obj(SetField(map["body" := Str(body)], "title", title))
  }

  /** `if (Array.isArray(o[key])) o[key] = o[key].join(" ")`: the repair the
      question kinds apply to fields the model sometimes returns as arrays. */
  function JoinArrayField(fields: map<string, Value>, key: string, host: Host): (r: map<string, Value>)
    ensures forall k :: k != key ==> (k in r <==> k in fields) && (k in r ==> r[k] == fields[k])
    ensures key in r <==> key in fields
    ensures key in fields && fields[key].Arr? ==> r[key] == Str(JoinValues(fields[key].items, " ", host))
    ensures key in fields && !fields[key].Arr? ==> r[key] == fields[key]
  {
    if key in fields && fields[key].Arr? then fields[key := Str(JoinValues(fields[key].items, " ", host))]
    else fields
  }
}
