/** The `interactive_visual` card kind: the reply is parsed as it is and, if
    that fails or the content lacks a truthy `html` or `title`, once more
    after an escape repair; an `html` without a DOCTYPE is wrapped in a full
    document; when both attempts fail a placeholder page is returned. */
module InteractiveVisual {
  import opened Wrappers
  import opened Strings
  import opened Js
  import opened Fences
  import opened CardTypes

  const Kind := "interactive_visual"

  const Definition := CardTypeDefinition(
    Kind,
    "Interactive Visual",
    "A dynamic, interactive visualization created with HTML, CSS, and JavaScript. The AI generates complete browser code to demonstrate concepts through animations and interactivity.",
    "Demonstrating processes, algorithms, physics concepts, mathematical relationships, state machines, or any concept that benefits from dynamic visualization. Great for showing how things work step-by-step.",
    Obj(map[
      "title" := Str("Bubble Sort Visualization"),
      "html" := Str("<!DOCTYPE html><html>...</html>"),
      "description" := Str("An interactive animation showing how bubble sort compares and swaps adjacent elements")]))

  const Doctype := "<!DOCTYPE html>"

  /** The head of the document an `html` without a DOCTYPE is placed in, and
      its closing tags. */
  const WrapperStyle := "<html><head>" + MetaCharset + MetaViewport + "<style>" + WrapperBodyRule + "</style></head>"
  const MetaCharset := "<meta charset=\"UTF-8\">"
  const MetaViewport := "<meta name=\"viewport\" content=\"width=device-width, initial-scale=1.0\">"
  const WrapperBodyRule := "body{margin:0;padding:20px;font-family:system-ui,sans-serif;" + "background:#1a1a2e;color:#fff;min-height:100vh;box-sizing:border-box;}"
  const WrapperTail := "</body></html>"

  /** The placeholder page after its DOCTYPE, around the lesson title and
      the focus. */
  const FallbackHead :=
    "\n<html>\n<head>\n" + MetaCharset + "\n" + MetaViewport + "\n<style>\n"
    + FallbackBodyRule + FallbackHeadingRule + FallbackParagraphRule + FallbackIconRule
    + "</style>\n</head>\n<body>\n" + FallbackIcon + "\n<h1>"
  const FallbackBodyRule :=
    "body {\n  margin: 0;\n  padding: 20px;\n  font-family: system-ui, -apple-system, sans-serif;\n"
    + "  background: linear-gradient(135deg, #1a1a2e 0%, #16213e 100%);\n  color: #fff;\n"
    + "  min-height: 100vh;\n  box-sizing: border-box;\n  display: flex;\n  flex-direction: column;\n"
    + "  align-items: center;\n  justify-content: center;\n}\n"
  const FallbackHeadingRule := "h1 {\n  font-size: 1.5rem;\n  margin-bottom: 1rem;\n  text-align: center;\n}\n"
  const FallbackParagraphRule := "p {\n  color: #a0a0a0;\n  text-align: center;\n  max-width: 300px;\n}\n"
  const FallbackIconRule := ".icon {\n  font-size: 3rem;\n  margin-bottom: 1rem;\n}\n"
  const FallbackIcon := "<div class=\"icon\">\U{00F0}\U{0178}\U{017D}\U{00A8}</div>"
  const FallbackMiddle := "</h1>\n<p>Interactive visualization about: "
  const FallbackTail := "</p>\n</body>\n</html>"

  /** `html.includes("<!DOCTYPE html>")`: a substring test on a string, an
      element test on an array; any other value has no `includes` and the
      call throws (`None`). */
  function IncludesDoctype(html: Value): (r: Option<bool>)
    ensures r.Some? <==> html.Str? || html.Arr?
  {
    match html
    case Str(s) => Some(Contains(s, Doctype))
    case Arr(items) => Some(Str(Doctype) in items)
    case _ => None
  }

  /** The `html` of a returned card carries the DOCTYPE: as a substring of a
      string, or as an element of an array. */
  predicate HasDoctype(html: Value) {
    IncludesDoctype(html) == Some(true)
  }

  /** One parse-validate-wrap attempt on `jsonStr`; `None` when it throws
      (parse failure, null content, a falsy `html` or `title`, or an `html`
      without `includes`). */
  function TryParse(jsonStr: string, host: Host): (r: Option<Value>)
    ensures r.Some? ==> r.value.Obj? && "html" in r.value.fields && HasDoctype(r.value.fields["html"])
    ensures r.Some? ==> "title" in r.value.fields && Truthy(Some(r.value.fields["title"]))
  {
    match host.parse(jsonStr)
    case None => None
    case Some(content) =>
      if !content.Obj? then None
      else if !Truthy(Member(Some(content), "html").value) || !Truthy(Member(Some(content), "title").value) then None
      else
        var html := content.fields["html"];
        match IncludesDoctype(html)
        case None => None
        case Some(true) => Some(content)
        case Some(false) =>
          Some(Obj(content.fields["html" := Str(Wrap(ValueText(html, host)))]))
  }

  /** A string that starts with `a` contains `a`. */
  lemma StartsWithContains(a: string, b: string)
    ensures Contains(a + b, a)
  {
    assert OccursAt(a + b, a, 0);
  }

  /** The full document around an `html` that lacks the DOCTYPE: the DOCTYPE
      and head, `<body>`, the `html` itself, and the closing tags. */
  function Wrap(html: string): (w: string)
    ensures Contains(w, Doctype)
  {
    StartsWithContains(Doctype, WrapperStyle + "<body>" + html + WrapperTail);
    Doctype + (WrapperStyle + "<body>" + html + WrapperTail)
  }

  /** The placeholder card: its page carries the DOCTYPE, its title is the
      lesson's and its description names the focus. */
  function Fallback(ctx: GeneratorContext, host: Host): (v: Value)
    ensures v.Obj? && "html" in v.fields && HasDoctype(v.fields["html"])
    ensures "title" in v.fields && v.fields["title"] == Str(ctx.lessonTitle)
    ensures "description" in v.fields && v.fields["description"] == Str("Visualization about " + TemplateText(ctx.focus, host))
  {
    Obj(map[
      "title" := Str(ctx.lessonTitle),
      "html" := Str(FallbackHtml(ctx, host)),
      "description" := Str("Visualization about " + TemplateText(ctx.focus, host))])
  }

  /** The placeholder page: the DOCTYPE, then the page around the lesson
      title and the focus. */
  function FallbackHtml(ctx: GeneratorContext, host: Host): (h: string)
    ensures Contains(h, Doctype)
  {
    var page := FallbackHead + ctx.lessonTitle + FallbackMiddle + TemplateText(ctx.focus, host) + FallbackTail;
    StartsWithContains(Doctype, page);
    Doctype + page
  }

  /** `interactiveVisualCard.generate`, given the model's reply and the escape
      repair `fixEscaping`. */
  function Generate(ctx: GeneratorContext, reply: ModelReply, fixEscaping: string -> string, host: Host): (r: Attempt)
    ensures reply.Rejected? <==> r.Threw?
    ensures reply.Rejected? ==> r.thrown == reply.thrown
    ensures r.Returned? ==> r.card.cardType == Kind
    ensures r.Returned? ==>
      var cleaned := CleanJsonResponse(if reply.text == "" then "{}" else reply.text);
      && (TryParse(cleaned, host).Some? ==> r.card.content == TryParse(cleaned, host).value)
      && (TryParse(cleaned, host).None? && TryParse(fixEscaping(cleaned), host).Some? ==>
            r.card.content == TryParse(fixEscaping(cleaned), host).value)
      && (TryParse(cleaned, host).None? && TryParse(fixEscaping(cleaned), host).None? ==>
            r.card.content == Fallback(ctx, host))
    ensures r.Returned? ==> r.card.content.Obj? && "html" in r.card.content.fields && HasDoctype(r.card.content.fields["html"])
  {
    match reply
    case Rejected(e) => Threw(e)
    case Answered(text) =>
      var cleaned := CleanJsonResponse(if text == "" then "{}" else text);
      match TryParse(cleaned, host)
      case Some(content) => Returned(GeneratedCard(Kind, content))
      case None =>
        match TryParse(fixEscaping(cleaned), host)
        case Some(content) => Returned(GeneratedCard(Kind, content))
        case None =>
          Returned(GeneratedCard(Kind, Fallback(ctx, host)))
  }

  /** An `html` without the DOCTYPE appears verbatim between the wrapper's
      `<body>` and `</body>`. */
  lemma WrappedVerbatim(jsonStr: string, host: Host)
    requires host.parse(jsonStr).Some? && TryParse(jsonStr, host).Some?
    requires IncludesDoctype(host.parse(jsonStr).value.fields["html"]) == Some(false)
    ensures TryParse(jsonStr, host).value.fields["html"]
      == Str(Doctype + (WrapperStyle + "<body>" + ValueText(host.parse(jsonStr).value.fields["html"], host) + WrapperTail))
  {
  }

  /** The escape repair is consulted only after the first attempt fails:
      when that attempt succeeds, the repair does not matter. */
  lemma RepairOnlyAfterFailure(ctx: GeneratorContext, text: string, f: string -> string, g: string -> string, host: Host)
    requires TryParse(CleanJsonResponse(if text == "" then "{}" else text), host).Some?
    ensures Generate(ctx, Answered(text), f, host) == Generate(ctx, Answered(text), g, host)
  {
  }
}
