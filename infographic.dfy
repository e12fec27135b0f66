/** The `infographic` card kind: the model first writes metadata (title,
    image prompt, description, caption), then draws an image from the prompt;
    the first response part carrying inline data is decoded and uploaded. Any
    failure after the metadata step turns the card into a `text` card that
    describes the intended image. */
module Infographic {
  import opened Wrappers
  import opened Strings
  import opened Js
  import opened Fences
  import opened CardTypes

  const Kind := "infographic"

  const Definition := CardTypeDefinition(
    Kind,
    "Infographic",
    "A visually generated infographic that illustrates a concept. Uses AI image generation to create educational visuals.",
    "Visualizing complex concepts, showing relationships, illustrating processes, or making abstract ideas concrete. Great for visual learners.",
    Obj(map[
      "title" := Str("The Power Rule Visualized"),
      "imagePath" := Str("cards/lesson-123/infographic-abc.png"),
      "description" := Str("An infographic showing how the power rule works with visual examples"),
      "caption" := Str("The power rule: derivative of x^n = nx^(n-1)")]))

  /** A part of the image model's response: the base64 text of its inline
      data, "" when it has none. */
  datatype ImagePart = ImagePart(inlineData: string)

  /** How the image request settles: rejected, or answered with the first
      candidate's parts (`None` when the response has no such list). */
  datatype ImageReply = ImageRejected(thrown: Thrown) | ImageAnswered(parts: Option<seq<ImagePart>>)

  /** Everything outside the card logic: the metadata reply, the image model
      (by the prompt it is sent), whether `atob` accepts a base64 text, the
      storage upload (by path: the error message, if any) and the uuid. */
  datatype Services = Services(
    metadataReply: ModelReply,
    imageModel: Prop -> ImageReply,
    decodes: string -> bool,
    upload: string -> Option<string>,
    uuid: string)

  const FallbackPromptLead := "Create an educational infographic about "
  const FallbackPromptStyle := ". Use a clean, modern style with clear visuals and labels."
  const FallbackDescriptionLead := "An infographic about "

  /** Metadata used when the metadata reply does not parse. */
  function FallbackMetadata(ctx: GeneratorContext, host: Host): Value {
    Obj(map[
      "title" := Str(ctx.lessonTitle),
      "imagePrompt" := Str(FallbackPromptLead + TemplateText(ctx.focus, host) + FallbackPromptStyle),
      "description" := Str(FallbackDescriptionLead + TemplateText(ctx.focus, host)),
      "caption" := Str(ctx.lessonTitle)])
  }

  /** The metadata the rest of the generator reads. */
  function Metadata(ctx: GeneratorContext, text: string, host: Host): (m: Value)
    ensures ParseReply(text, "{}", host).None? ==> m == FallbackMetadata(ctx, host)
    ensures ParseReply(text, "{}", host).Some? ==> m == ParseReply(text, "{}", host).value
  {
    match ParseReply(text, "{}", host)
    case Some(v) => v
    case None => FallbackMetadata(ctx, host)
  }

  /** Index of the first part with inline data. */
  function FirstInlinePart(parts: seq<ImagePart>): (r: Option<nat>)
    ensures r.Some? ==> r.value < |parts|
  {
    if |parts| == 0 then None
    else if parts[0].inlineData != "" then Some(0)
    else
      match FirstInlinePart(parts[1..])
      case None => None
      case Some(i) => Some(i + 1)
  }

  /** The index found carries inline data and no part before it does; with
      no index found, no part carries any. */
  lemma {:induction false} FirstInlinePartIsFirst(parts: seq<ImagePart>)
    ensures var r := FirstInlinePart(parts);
      && (r.Some? ==> parts[r.value].inlineData != "")
      && (r.Some? ==> forall j :: 0 <= j < r.value ==> parts[j].inlineData == "")
      && (r.None? ==> forall j :: 0 <= j < |parts| ==> parts[j].inlineData == "")
  {
    if |parts| > 0 && parts[0].inlineData == "" {
      FirstInlinePartIsFirst(parts[1..]);
    }
  }

  /** The scan over the parts, stopping at the first one with inline data. */
  method FindImagePart(parts: seq<ImagePart>) returns (found: Option<nat>)
    ensures found == FirstInlinePart(parts)
  {
    found := None;
    var i := 0;
    while i < |parts|
      invariant 0 <= i <= |parts|
      invariant forall j :: 0 <= j < i ==> parts[j].inlineData == ""
      invariant found == None
    {
      if parts[i].inlineData != "" {
        found := Some(i);
        FirstIsLeast(parts, i);
        return;
      }
      i := i + 1;
    }
    FirstIsLeast(parts, |parts|);
  }

  /** `FirstInlinePart` picks the least index with inline data. */
  lemma {:induction false} FirstIsLeast(parts: seq<ImagePart>, i: nat)
    requires i <= |parts|
    requires forall j :: 0 <= j < i ==> parts[j].inlineData == ""
    requires i < |parts| ==> parts[i].inlineData != ""
    ensures FirstInlinePart(parts) == if i < |parts| then Some(i) else None
  {
    if |parts| > 0 && i > 0 {
      FirstIsLeast(parts[1..], i - 1);
    }
  }

  /** `cards/${lessonId}/infographic-${uuid}.png`; a missing lesson id reads
      as "undefined". */
  function ImagePath(lessonId: Option<string>, uuid: string): (p: string)
    ensures lessonId.Some? ==> p == "cards/" + lessonId.value + "/infographic-" + uuid + ".png"
    ensures lessonId.None? ==> p == "cards/undefined/infographic-" + uuid + ".png"
  {
    "cards/" + (match lessonId case Some(id) => id case None => "undefined") + "/infographic-" + uuid + ".png"
  }

  /** The image step succeeds: the reply has parts, the first part with
      inline data decodes, storage is there and the upload reports no error. */
  predicate ImageStored(ctx: GeneratorContext, metadata: Value, services: Services) {
    && !metadata.Null?
    && var reply := services.imageModel(Member(Some(metadata), "imagePrompt").value);
    && reply.ImageAnswered?
    && reply.parts.Some?
    && var first := FirstInlinePart(reply.parts.value);
    && first.Some?
    && services.decodes(reply.parts.value[first.value].inlineData)
    && ctx.hasStorage
    && services.upload(ImagePath(ctx.lessonId, services.uuid)).None?
  }

  /** The content of a stored infographic: the metadata's title, description
      and caption around the uploaded path. */
  function StoredContent(metadata: Value, path: string): (v: Value)
    requires !metadata.Null?
    ensures v.Obj? && "imagePath" in v.fields && v.fields["imagePath"] == Str(path)
    ensures Member(Some(v), "title") == Member(Some(metadata), "title")
    ensures Member(Some(v), "caption") == Member(Some(metadata), "caption")
  {
    var fields := map["imagePath" := Str(path)];
    var fields := SetField(fields, "title", Member(Some(metadata), "title").value);
    var fields := SetField(fields, "description", Member(Some(metadata), "description").value);
    Obj(SetField(fields, "caption", Member(Some(metadata), "caption").value))
  }

  /** The `text` card that stands in for a failed image. */
  function TextFallback(metadata: Value, host: Host): (v: Value)
    requires !metadata.Null?
    ensures v.Obj? && Member(Some(v), "title") == Member(Some(metadata), "title")
  {
    var title := Member(Some(metadata), "title").value;
    var caption := Member(Some(metadata), "caption").value;
    TitleBody(title,
      "**Visual Concept: " + TemplateText(title, host) + "**\n\n"
      + TemplateText(Member(Some(metadata), "description").value, host) + "\n\n_"
      + (if Truthy(caption) then TemplateText(caption, host) else "") + "_")
  }

  /** `infographicCard.generate`. */
  function Outcome(ctx: GeneratorContext, services: Services, host: Host): (r: Attempt)
    ensures services.metadataReply.Rejected? ==> r == Threw(services.metadataReply.thrown)
    ensures services.metadataReply.Answered? ==>
      (r.Threw? <==> Metadata(ctx, services.metadataReply.text, host).Null?)
  {
    match services.metadataReply
    case Rejected(e) => Threw(e)
    case Answered(text) =>
      var metadata := Metadata(ctx, text, host);
      if metadata.Null? then Threw(TypeError(host))
      else if ImageStored(ctx, metadata, services) then
        Returned(GeneratedCard(Kind, StoredContent(metadata, ImagePath(ctx.lessonId, services.uuid))))
      else
        Returned(GeneratedCard("text", TextFallback(metadata, host)))
  }

  /** The generator as the source runs it, scanning the parts with a loop. */
  method Generate(ctx: GeneratorContext, services: Services, host: Host) returns (r: Attempt)
    ensures r == Outcome(ctx, services, host)
  {
    if services.metadataReply.Rejected? {
      return Threw(services.metadataReply.thrown);
    }
    var metadata := Metadata(ctx, services.metadataReply.text, host);
    if metadata.Null? {
      // Both `metadata.imagePrompt` and, in the handler, `metadata.title` throw.
      return Threw(TypeError(host));
    }
    var stored := false;
    var reply := services.imageModel(Member(Some(metadata), "imagePrompt").value);
    if reply.ImageAnswered? && reply.parts.Some? {
      var first := FindImagePart(reply.parts.value);
      if first.Some? && services.decodes(reply.parts.value[first.value].inlineData) && ctx.hasStorage {
        stored := services.upload(ImagePath(ctx.lessonId, services.uuid)).None?;
      }
    }
    if stored {
      r := Returned(GeneratedCard(Kind, StoredContent(metadata, ImagePath(ctx.lessonId, services.uuid))));
    } else {
      r := Returned(GeneratedCard("text", TextFallback(metadata, host)));
    }
  }

  /** The card is an infographic exactly when the image step succeeds; null
      metadata throws, and any other failure gives the text card. */
  lemma OutcomeCases(ctx: GeneratorContext, services: Services, host: Host)
    requires services.metadataReply.Answered?
    ensures var metadata, r := Metadata(ctx, services.metadataReply.text, host), Outcome(ctx, services, host);
      && (ImageStored(ctx, metadata, services) <==> r.Returned? && r.card.cardType == Kind)
      && (metadata.Null? ==> r == Threw(TypeError(host)))
      && (!metadata.Null? && !ImageStored(ctx, metadata, services) ==>
            r == Returned(GeneratedCard("text", TextFallback(metadata, host))))
  {
  }

  /** A stored infographic points at the uploaded path; both the stored card
      and the text card keep the metadata's title. */
  lemma StoredCardPath(ctx: GeneratorContext, services: Services, host: Host)
    requires services.metadataReply.Answered?
    ensures var metadata, r := Metadata(ctx, services.metadataReply.text, host), Outcome(ctx, services, host);
      && (ImageStored(ctx, metadata, services) ==>
            r.Returned? && r.card.content.Obj? && "imagePath" in r.card.content.fields
            && r.card.content.fields["imagePath"] == Str(ImagePath(ctx.lessonId, services.uuid)))
      && (r.Returned? ==>
            r.card.content.Obj? && Member(Some(r.card.content), "title") == Member(Some(metadata), "title"))
  {
    var metadata := Metadata(ctx, services.metadataReply.text, host);
    if !metadata.Null? {
      if ImageStored(ctx, metadata, services) {
        assert Outcome(ctx, services, host) == Returned(GeneratedCard(Kind, StoredContent(metadata, ImagePath(ctx.lessonId, services.uuid))));
      } else {
        assert Outcome(ctx, services, host) == Returned(GeneratedCard("text", TextFallback(metadata, host)));
      }
    }
  }

  /** The text card built from the fallback metadata. */
  lemma {:induction false} FallbackMetadataText(ctx: GeneratorContext, host: Host)
    ensures TextFallback(FallbackMetadata(ctx, host), host) == TitleBody(Some(Str(ctx.lessonTitle)),
      "**Visual Concept: " + ctx.lessonTitle + "**\n\n" + (FallbackDescriptionLead + TemplateText(ctx.focus, host))
      + "\n\n_" + ctx.lessonTitle + "_")
  {
    var m := FallbackMetadata(ctx, host);
    assert TemplateText(Some(Str(ctx.lessonTitle)), host) == ctx.lessonTitle;
    assert Member(Some(m), "title").value == Some(Str(ctx.lessonTitle));
    assert Member(Some(m), "caption").value == Some(Str(ctx.lessonTitle));
    assert Member(Some(m), "description").value == Some(Str(FallbackDescriptionLead + TemplateText(ctx.focus, host)));
  }

  /** With unparsable metadata and a failed image, the text card speaks of
      the lesson title and the focus. */
  lemma FallbackTextCard(ctx: GeneratorContext, services: Services, host: Host)
    requires services.metadataReply.Answered?
    requires ParseReply(services.metadataReply.text, "{}", host).None?
    requires !ImageStored(ctx, FallbackMetadata(ctx, host), services)
    ensures Outcome(ctx, services, host) == Returned(GeneratedCard("text", TitleBody(Some(Str(ctx.lessonTitle)),
      "**Visual Concept: " + ctx.lessonTitle + "**\n\n" + (FallbackDescriptionLead + TemplateText(ctx.focus, host))
      + "\n\n_" + ctx.lessonTitle + "_")))
  {
    var m := FallbackMetadata(ctx, host);
    assert Metadata(ctx, services.metadataReply.text, host) == m;
    FallbackMetadataText(ctx, host);
    assert Outcome(ctx, services, host) == Returned(GeneratedCard("text", TextFallback(m, host)));
  }
}
