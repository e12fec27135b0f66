/** `processDocument`: the server action that turns an uploaded PDF into
    chunks and a lesson path, recording its progress in the document's
    status. The database and the model are reached through `Services`, whose
    members decide what each external call returns. */
module ProcessDocument {
  import opened Wrappers
  import opened Js
  import opened CardTypes
  import opened Storage
  import opened ExtractContent
  import opened GenerateLessons
  import opened StoreChunks
  import opened StoreLessons

  datatype ProcessResult = ProcessResult(success: bool, error: Option<string>)

  datatype Services = Services(
    document: Option<string>,                // the document's storage path; None when the lookup errs or finds nothing
    statusWriteFails: string -> bool,        // whether the status update to a given value errs
    download: string -> Option<string>,      // the file's base64 text by path; None when the download fails
    extractModel: string -> ModelReply,      // the model's page-extraction reply for the file
    chunkInsertFails: seq<ChunkRow> -> bool, // whether the batch insert of chunks errs
    lessonModel: LessonModel,                // the model's lesson-outline reply
    insertLesson: LessonInsert)              // the reply to each lesson insert

  const NotFound := "Document not found"
  const ProcessingFailed := "Processing failed"

  /** What `updateDocumentStatus` throws when the update errs. */
  function StatusError(status: string): Thrown {
    Error("Failed to update document status to " + status)
  }

  /** What the try block does: status writes requested, rows stored, and
      the exception it ends with, if any. */
  datatype Attempt = Attempt(writes: seq<string>, chunks: seq<ChunkRow>, lessons: seq<StoredLesson>, thrown: Option<Thrown>)

  /** Steps 3 to 9 in order — download, extract, store chunks, generate
      lessons, store lessons — each run only when the one before succeeded. */
  function RunSteps(documentId: string, path: string, s: Services, host: Host): Attempt {
    match DownloadAndConvertPdf(s.download(path))
    case Err(e) => Attempt([], [], [], Some(e))
    case Ok(base64) =>
      match ExtractPdfContent(s.extractModel(base64), host)
      case Err(e) => Attempt([], [], [], Some(e))
      case Ok(pages) =>
        match StoreChunks.StoreChunks(documentId, pages, s.chunkInsertFails, host)
        case Err(e) => Attempt([], [], [], Some(e))
        case Ok(rows) =>
          match GenerateLessons.GenerateLessons(pages, s.lessonModel, host)
          case Err(e) => Attempt([], rows, [], Some(e))
          case Ok(lessons) => Attempt([], rows, Insertions(documentId, LessonEntries(lessons).value, s.insertLesson).stored, None)
  }

  /** The try block: the "processing" write, the steps, the "completed"
      write. */
  function TryBlock(documentId: string, path: string, s: Services, host: Host): (a: Attempt)
    ensures |a.writes| > 0 && a.writes[0] == "processing"
    ensures a.thrown.None? ==> a.writes == ["processing", "completed"]
  {
    if s.statusWriteFails("processing") then Attempt(["processing"], [], [], Some(StatusError("processing")))
    else
      var steps := RunSteps(documentId, path, s, host);
      if steps.thrown.Some? then Attempt(["processing"], steps.chunks, steps.lessons, steps.thrown)
      else
        var completed := if s.statusWriteFails("completed") then Some(StatusError("completed")) else None;
        Attempt(["processing", "completed"], steps.chunks, steps.lessons, completed)
  }

  /** The whole run: what `processDocument` writes and how it settles (`Err`
      when it rejects). */
  datatype Trace = Trace(writes: seq<string>, chunks: seq<ChunkRow>, lessons: seq<StoredLesson>, result: Result<ProcessResult, Thrown>)

  function Expected(documentId: string, s: Services, host: Host): (t: Trace)
    ensures s.document.None? ==> t == Trace([], [], [], Ok(ProcessResult(false, Some(NotFound))))
    ensures s.document.Some? ==>
      var a := TryBlock(documentId, s.document.value, s, host);
      && (a.thrown.Some? && !s.statusWriteFails("failed") ==>
            t.result == Ok(ProcessResult(false, Some(MessageOr(a.thrown.value, ProcessingFailed)))))
      && (a.thrown.Some? && s.statusWriteFails("failed") ==> t.result == Err(StatusError("failed")))
  {
    match s.document
    case None => Trace([], [], [], Ok(ProcessResult(false, Some(NotFound))))
    case Some(path) =>
      var a := TryBlock(documentId, path, s, host);
      match a.thrown
      case None => Trace(a.writes, a.chunks, a.lessons, Ok(ProcessResult(true, None)))
      case Some(e) =>
        var result := if s.statusWriteFails("failed") then Err(StatusError("failed"))
                      else Ok(ProcessResult(false, Some(MessageOr(e, ProcessingFailed))));
        Trace(a.writes + ["failed"], a.chunks, a.lessons, result)
  }

  /** The status column after the given writes: the last one that
      succeeded. */
  function StatusAfter(initial: string, writes: seq<string>, fails: string -> bool): string {
    if |writes| == 0 then initial
    else if !fails(writes[|writes| - 1]) then writes[|writes| - 1]
    else StatusAfter(initial, writes[..|writes| - 1], fails)
  }

  // ---- Properties of a run ---------------------------------------------

  /** Success is reported exactly when the two writes were "processing" and
      then "completed". */
  lemma SuccessIffProcessingThenCompleted(documentId: string, s: Services, host: Host)
    ensures var t := Expected(documentId, s, host);
      t.result == Ok(ProcessResult(true, None)) <==> t.writes == ["processing", "completed"]
  {
    var t := Expected(documentId, s, host);
    if s.document.Some? {
      var a := TryBlock(documentId, s.document.value, s, host);
      if a.thrown.Some? {
        assert t.writes == a.writes + ["failed"];
        assert t.writes[|t.writes| - 1] == "failed";
      }
    }
  }

  /** "completed" is requested exactly when the document was found, the
      "processing" write succeeded and every step succeeded. */
  lemma CompletedOnlyAfterAllSteps(documentId: string, s: Services, host: Host)
    ensures "completed" in Expected(documentId, s, host).writes <==>
      && s.document.Some?
      && !s.statusWriteFails("processing")
      && RunSteps(documentId, s.document.value, s, host).thrown.None?
  {
    var t := Expected(documentId, s, host);
    if s.document.Some? {
      var a := TryBlock(documentId, s.document.value, s, host);
      if s.statusWriteFails("processing") || RunSteps(documentId, s.document.value, s, host).thrown.Some? {
        assert a.writes == ["processing"];
        assert t.writes == ["processing"] || t.writes == ["processing", "failed"];
      }
    }
  }

  /** A found document that did not succeed ends with a "failed" write, and
      "processing" was the first write. */
  lemma FailureEndsWithFailedWrite(documentId: string, s: Services, host: Host)
    requires s.document.Some?
    requires Expected(documentId, s, host).result != Ok(ProcessResult(true, None))
    ensures var w := Expected(documentId, s, host).writes;
      |w| >= 2 && w[0] == "processing" && w[|w| - 1] == "failed"
  {
  }

  /** The action rejects only when the "failed" write itself errs. */
  lemma RejectsOnlyOnFailedWrite(documentId: string, s: Services, host: Host)
    ensures Expected(documentId, s, host).result.Err? <==>
      && s.document.Some?
      && TryBlock(documentId, s.document.value, s, host).thrown.Some?
      && s.statusWriteFails("failed")
  {
  }

  // ---- The action ------------------------------------------------------

  /** `updateDocumentStatus`: requests the update and throws when it errs. */
  method UpdateDocumentStatus(db: Database, status: string, fails: string -> bool) returns (thrown: Option<Thrown>)
    modifies db
    ensures db.statusWrites == old(db.statusWrites) + [status]
    ensures db.status == if fails(status) then old(db.status) else status
    ensures thrown == if fails(status) then Some(StatusError(status)) else None
    ensures unchanged(db`chunks, db`lessons)
  {
    db.statusWrites := db.statusWrites + [status];
    if fails(status) {
      thrown := Some(StatusError(status));
    } else {
      db.status := status;
      thrown := None;
    }
  }

  /** Steps 3 to 9. */
  method Steps(db: Database, documentId: string, path: string, s: Services, host: Host) returns (thrown: Option<Thrown>)
    modifies db
    ensures var a := RunSteps(documentId, path, s, host);
      && thrown == a.thrown
      && db.chunks == old(db.chunks) + a.chunks
      && db.lessons == old(db.lessons) + a.lessons
    ensures unchanged(db`status, db`statusWrites)
  {
    var base64 := DownloadAndConvertPdf(s.download(path));
    if base64.Err? {
      return Some(base64.error);
    }
    var pages := ExtractPdfContent(s.extractModel(base64.value), host);
    if pages.Err? {
      return Some(pages.error);
    }
    var rows := StoreChunks.StoreChunks(documentId, pages.value, s.chunkInsertFails, host);
    if rows.Err? {
      return Some(rows.error);
    }
    db.chunks := db.chunks + rows.value;
    var lessons := GenerateLessons.GenerateLessons(pages.value, s.lessonModel, host);
    if lessons.Err? {
      return Some(lessons.error);
    }
    thrown := StoreLessons.StoreLessons(db, documentId, lessons.value, s.insertLesson, host);
  }

  /** The body of the try block. */
  method Try(db: Database, documentId: string, path: string, s: Services, host: Host) returns (thrown: Option<Thrown>)
    modifies db
    ensures var a := TryBlock(documentId, path, s, host);
      && thrown == a.thrown
      && db.statusWrites == old(db.statusWrites) + a.writes
      && db.status == StatusAfter(old(db.status), a.writes, s.statusWriteFails)
      && db.chunks == old(db.chunks) + a.chunks
      && db.lessons == old(db.lessons) + a.lessons
  {
    StatusAfterTryWrites(old(db.status), s.statusWriteFails);
    TryBlockCases(documentId, path, s, host);
    thrown := UpdateDocumentStatus(db, "processing", s.statusWriteFails);
    if thrown.Some? {
      assert old(db.chunks) + [] == old(db.chunks) && old(db.lessons) + [] == old(db.lessons);
      return;
    }
    thrown := Steps(db, documentId, path, s, host);
    if thrown.None? {
      thrown := UpdateDocumentStatus(db, "completed", s.statusWriteFails);
    }
  }

  /** The status after the try block's one or two writes. */
  lemma StatusAfterTryWrites(initial: string, fails: string -> bool)
    ensures StatusAfter(initial, ["processing"], fails) == if fails("processing") then initial else "processing"
    ensures StatusAfter(initial, ["processing", "completed"], fails) ==
      if !fails("completed") then "completed" else StatusAfter(initial, ["processing"], fails)
  {
    assert ["processing", "completed"][..1] == ["processing"];
    assert ["processing"][..0] == [];
  }

  /** The try block's three ways to end. */
  lemma TryBlockCases(documentId: string, path: string, s: Services, host: Host)
    ensures var a, steps := TryBlock(documentId, path, s, host), RunSteps(documentId, path, s, host);
      && (s.statusWriteFails("processing") ==> a == Attempt(["processing"], [], [], Some(StatusError("processing"))))
      && (!s.statusWriteFails("processing") && steps.thrown.Some? ==>
            a == Attempt(["processing"], steps.chunks, steps.lessons, steps.thrown))
      && (!s.statusWriteFails("processing") && steps.thrown.None? ==>
            a.writes == ["processing", "completed"] && a.chunks == steps.chunks && a.lessons == steps.lessons
            && a.thrown == if s.statusWriteFails("completed") then Some(StatusError("completed")) else None)
  {
  }

  /** `processDocument`. Nothing is required of the document's current
      status. */
  method Process(db: Database, documentId: string, s: Services, host: Host) returns (r: Result<ProcessResult, Thrown>)
    modifies db
    ensures var t := Expected(documentId, s, host);
      && r == t.result
      && db.statusWrites == old(db.statusWrites) + t.writes
      && db.status == StatusAfter(old(db.status), t.writes, s.statusWriteFails)
      && db.chunks == old(db.chunks) + t.chunks
      && db.lessons == old(db.lessons) + t.lessons
  {
    if s.document.None? {
      return Ok(ProcessResult(false, Some(NotFound)));
    }
    var thrown := Try(db, documentId, s.document.value, s, host);
    if thrown.None? {
      return Ok(ProcessResult(true, None));
    }
    ghost var tried := db.statusWrites[|old(db.statusWrites)|..];
    var failed := UpdateDocumentStatus(db, "failed", s.statusWriteFails);
    assert (tried + ["failed"])[..|tried|] == tried;
    if failed.Some? {
      return Err(failed.value);
    }
    r := Ok(ProcessResult(false, Some(MessageOr(thrown.value, ProcessingFailed))));
  }
}
