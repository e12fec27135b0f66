/** Turning the extracted pages into `chunks` rows: one row per page, in page
    order, inserted in one batch. */
module StoreChunks {
  import opened Wrappers
  import opened Js
  import opened Storage

  const InsertFailed := "Failed to store document chunks"

  /** A row's text: a string page as it is, anything else as its JSON. */
  function ChunkContent(page: Value, host: Host): (c: string)
    ensures page.Str? ==> c == page.s
    ensures !page.Str? ==> c == host.stringify(page)
  {
    if page.Str? then page.s else host.stringify(page)
  }

  /** `pages.map(...)`: only an array has `map`; anything else throws a
      TypeError. */
  function ChunkRows(documentId: string, pages: Value, host: Host): (r: Result<seq<ChunkRow>, Thrown>)
    ensures r.Ok? <==> pages.Arr?
    ensures r.Err? ==> r.error == TypeError(host)
    ensures r.Ok? ==> |r.value| == |pages.items|
    ensures r.Ok? ==> forall i :: 0 <= i < |r.value| ==>
      && r.value[i].chunkIndex == i
      && r.value[i].documentId == documentId
      && r.value[i].content == ChunkContent(pages.items[i], host)
  {
    if pages.Arr? then
      Ok(seq(|pages.items|, i requires 0 <= i < |pages.items| => ChunkRow(documentId, ChunkContent(pages.items[i], host), i)))
    else Err(TypeError(host))
  }

  /** `storeChunks`: the rows inserted, given whether the batch insert of
      those rows errs. An empty batch is still sent. */
  function StoreChunks(documentId: string, pages: Value, insertFails: seq<ChunkRow> -> bool, host: Host)
    : (r: Result<seq<ChunkRow>, Thrown>)
    ensures !pages.Arr? ==> r == Err(TypeError(host))
    ensures pages.Arr? ==>
      var rows := ChunkRows(documentId, pages, host).value;
      r == if insertFails(rows) then Err(Error(InsertFailed)) else Ok(rows)
  {
    match ChunkRows(documentId, pages, host)
    case Err(e) => Err(e)
    case Ok(rows) => if insertFails(rows) then Err(Error(InsertFailed)) else Ok(rows)
  }

  /** The rows of string pages hold the pages themselves, in order: reading
      the contents back in index order gives the pages. */
  lemma StringPagesRoundTrip(documentId: string, texts: seq<string>, host: Host)
    ensures var rows := ChunkRows(documentId, Arr(seq(|texts|, i requires 0 <= i < |texts| => Str(texts[i]))), host).value;
      seq(|rows|, i requires 0 <= i < |rows| => rows[i].content) == texts
  {
  }
}
