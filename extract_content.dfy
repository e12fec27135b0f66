/** Downloading the uploaded PDF and asking the model for its pages. */
module ExtractContent {
  import opened Wrappers
  import opened Strings
  import opened Js
  import opened Fences
  import opened CardTypes

  const DownloadFailed := "Failed to download document"

  /** The literal an empty model reply stands for. */
  const NoPages := "[]"

  /** `downloadAndConvertPdf`, given the storage reply: the file's base64
      text, or `None` when the download erred or returned no data. */
  function DownloadAndConvertPdf(download: Option<string>): (r: Result<string, Thrown>)
    ensures r.Err? <==> download.None?
    ensures r.Err? ==> r.error == Error(DownloadFailed)
    ensures r.Ok? ==> r.value == download.value
  {
    match download
    case None => Err(Error(DownloadFailed))
    case Some(data) => Ok(data)
  }

  /** `extractPdfContent`, given the model's reply. The parsed value is
      returned as it is, not checked to be a list of strings; when the parse
      throws, or yields `null` so that reading its `length` throws, the raw
      reply (not the cleaned one) is the only page. */
  function ExtractPdfContent(reply: ModelReply, host: Host): (r: Result<Value, Thrown>)
    ensures r.Err? <==> reply.Rejected?
    ensures r.Err? ==> r.error == reply.thrown
    ensures reply.Answered? ==>
      var parsed := ParseReply(reply.text, NoPages, host);
      && (parsed.Some? && !parsed.value.Null? ==> r.value == parsed.value)
      && (parsed.None? || parsed.value.Null? ==>
            r.value == Arr([Str(if reply.text == "" then NoPages else reply.text)]))
  {
    match reply
    case Rejected(e) => Err(e)
    case Answered(text) =>
      var extracted := if text == "" then NoPages else text;
      match ParseReply(text, NoPages, host)
      case Some(pages) =>
        if Member(Some(pages), "length").None? then Ok(Arr([Str(extracted)])) else Ok(pages)
      case None => Ok(Arr([Str(extracted)]))
  }

  /** An empty reply is read as `[]`: no pages, and not the fallback. */
  lemma EmptyReplyGivesNoPages(host: Host)
    requires ParsesDefaults(host)
    ensures ExtractPdfContent(Answered(""), host) == Ok(Arr([]))
  {
    EmptyReplyParsesDefault(NoPages, host);
  }

  /** A reply fenced as a `json` code block is cleaned before it is parsed. */
  lemma FencedReplyIsCleaned(x: string, host: Host)
    requires !HasBacktick(x)
    requires host.parse(Trim(x)).Some? && !host.parse(Trim(x)).value.Null?
    ensures ExtractPdfContent(Answered("```json\n" + x + "\n```"), host) == Ok(host.parse(Trim(x)).value)
  {
    CleanJsonCodeBlock(x);
  }

  /** When the cleaned reply does not parse, the single page is the reply
      with its fences still in place. */
  lemma UnparsedReplyKeepsFences(x: string, host: Host)
    requires !HasBacktick(x)
    requires host.parse(Trim(x)).None?
    ensures ExtractPdfContent(Answered("```json\n" + x + "\n```"), host) == Ok(Arr([Str("```json\n" + x + "\n```")]))
  {
    CleanJsonCodeBlock(x);
  }
}
