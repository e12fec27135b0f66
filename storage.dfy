/** The database rows the document pipeline writes, and the part of the
    database it writes them to: the processed document's status, the chunks
    table and the lessons table. Whether a write succeeds is decided by the
    callers' service parameters; the class records what was written. */
module Storage {
  import opened Wrappers
  import opened Js

  /** A `chunks` row. */
  datatype ChunkRow = ChunkRow(documentId: string, content: string, chunkIndex: nat)

  /** A `lessons` row as inserted; `title` and `description` are whatever the
      lesson entry carried (`None` when it had no such member). */
  datatype LessonRow = LessonRow(
    documentId: string,
    title: Prop,
    description: Prop,
    prevLessonId: Option<string>,
    orderIndex: nat)

  /** An inserted lesson with the id the database gave it. */
  datatype StoredLesson = StoredLesson(id: string, row: LessonRow)

  class Database {
    /** The document row's `status` column. */
    var status: string
    /** Every status update requested, in order, whether or not it succeeded. */
    var statusWrites: seq<string>
    var chunks: seq<ChunkRow>
    var lessons: seq<StoredLesson>

    constructor (status: string)
      ensures this.status == status && statusWrites == [] && chunks == [] && lessons == []
    {
      this.status := status;
      statusWrites := [];
      chunks := [];
      lessons := [];
    }
  }
}
