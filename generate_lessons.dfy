/** Asking the model for a lesson outline of the extracted pages. */
module GenerateLessons {
  import opened Wrappers
  import opened Strings
  import opened Js
  import opened Fences
  import opened CardTypes

  const PageBreak := "\n\n---PAGE BREAK---\n\n"

  /** Only this many characters of the joined pages go into the prompt. */
  const MaxContentLength := 15000

  /** The literal an empty model reply stands for. */
  const NoLessons := "[]"

  /** The model's reply, given the excerpt of the pages the prompt carries. */
  type LessonModel = string -> ModelReply

  function Lesson(title: string, description: string): Value {
    Obj(map["title" := Str(title), "description" := Str(description)])
  }

  /** `FALLBACK_LESSONS`. */
  function FallbackLessons(): (v: Value)
    ensures v.Arr? && |v.items| == 3
    ensures Member(Some(v.items[0]), "title") == Some(Some(Str("Getting Started")))
    ensures Member(Some(v.items[1]), "title") == Some(Some(Str("Core Concepts")))
    ensures Member(Some(v.items[2]), "title") == Some(Some(Str("Practice & Application")))
    ensures forall i :: 0 <= i < 3 ==> Member(Some(v.items[i]), "description").value.Some?
  {
    Arr([
      Lesson("Getting Started", "Introduction to the topic"),
      Lesson("Core Concepts", "Understanding the fundamentals"),
      Lesson("Practice & Application", "Apply what you've learned")])
  }

  /** `pages.join(PageBreak)`: only an array has `join`; calling it on
      anything else throws a TypeError. */
  function AllContent(pages: Value, host: Host): (r: Result<string, Thrown>)
    ensures r.Ok? <==> pages.Arr?
    ensures r.Err? ==> r.error == TypeError(host)
    ensures r.Ok? ==> r.value == JoinValues(pages.items, PageBreak, host)
  {
    if pages.Arr? then Ok(JoinValues(pages.items, PageBreak, host)) else Err(TypeError(host))
  }

  /** `allContent.slice(0, 15000)`. */
  function Excerpt(content: string): (e: string)
    ensures |e| <= MaxContentLength && |e| <= |content| && e == content[..|e|]
    ensures |content| <= MaxContentLength ==> e == content
  {
    Prefix(content, MaxContentLength)
  }

  /** `generateLessons`: the parsed outline, unvalidated, or the fallback when
      the parse throws or yields `null` (whose `length` read throws). */
  function GenerateLessons(pages: Value, model: LessonModel, host: Host): (r: Result<Value, Thrown>)
    ensures !pages.Arr? ==> r == Err(TypeError(host))
    ensures r.Ok? ==> !r.value.Null?
    ensures pages.Arr? ==>
      var reply := model(Excerpt(JoinValues(pages.items, PageBreak, host)));
      && (r.Err? <==> reply.Rejected?)
      && (r.Err? ==> r.error == reply.thrown)
      && (reply.Answered? ==>
            var parsed := ParseReply(reply.text, NoLessons, host);
            && (parsed.Some? && !parsed.value.Null? ==> r.value == parsed.value)
            && (parsed.None? || parsed.value.Null? ==> r.value == FallbackLessons()))
  {
    match AllContent(pages, host)
    case Err(e) => Err(e)
    case Ok(content) =>
      match model(Excerpt(content))
      case Rejected(e) => Err(e)
      case Answered(text) =>
        match ParseReply(text, NoLessons, host)
        case None => Ok(FallbackLessons())
        case Some(lessons) =>
          if Member(Some(lessons), "length").None? then Ok(FallbackLessons()) else Ok(lessons)
  }

  /** Joining two non-empty lists puts one separator between their joins. */
  lemma {:induction false} JoinAppend(a: seq<Value>, b: seq<Value>, sep: string, host: Host)
    requires |a| > 0 && |b| > 0
    ensures JoinValues(a + b, sep, host) == JoinValues(a, sep, host) + sep + JoinValues(b, sep, host)
  {
    var head := if a[0].Null? then "" else ValueText(a[0], host);
    assert (a + b)[0] == a[0];
    if |a| == 1 {
      assert (a + b)[1..] == b;
    } else {
      assert (a + b)[1..] == a[1..] + b;
      JoinAppend(a[1..], b, sep, host);
    }
  }

  /** Pages added after the first 15000 characters of content change
      nothing: the model never sees them. */
  lemma LatePagesIgnored(items: seq<Value>, extra: seq<Value>, model: LessonModel, host: Host)
    requires |JoinValues(items, PageBreak, host)| >= MaxContentLength
    ensures GenerateLessons(Arr(items + extra), model, host) == GenerateLessons(Arr(items), model, host)
  {
    var content := JoinValues(items, PageBreak, host);
    if |extra| > 0 {
      assert |items| > 0;
      JoinAppend(items, extra, PageBreak, host);
      var longer := content + PageBreak + JoinValues(extra, PageBreak, host);
      assert longer[..MaxContentLength] == content[..MaxContentLength];
      assert Excerpt(longer) == Excerpt(content);
    } else {
      assert items + extra == items;
    }
  }

  /** An empty reply is read as `[]`: no lessons, and not the fallback. */
  lemma EmptyReplyGivesNoLessons(pages: seq<Value>, model: LessonModel, host: Host)
    requires ParsesDefaults(host)
    requires model(Excerpt(JoinValues(pages, PageBreak, host))) == Answered("")
    ensures GenerateLessons(Arr(pages), model, host) == Ok(Arr([]))
  {
    EmptyReplyParsesDefault(NoLessons, host);
  }
}
