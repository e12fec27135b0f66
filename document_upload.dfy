/** The upload box: a dropped or selected PDF is stored under a fresh path,
    recorded in the `documents` table and put at the head of the list. */
module DocumentUpload {
  import opened Wrappers
  import opened Js
  import opened DocumentsContainer

  /** The browser `File` as the upload reads it. */
  datatype File = File(name: string, mimeType: string, size: nat)

  const PdfType := "application/pdf"
  const NotPdf := "Only PDF files are allowed"
  const UploadFailed := "Upload failed"

  /** `name.split(".").pop()`: the text after the last dot, or the whole
      name when it has none. */
  function Extension(name: string): string {
    if |name| == 0 then ""
    else if name[|name| - 1] == '.' then ""
    else Extension(name[..|name| - 1]) + [name[|name| - 1]]
  }

  /** The extension is a dot-free suffix of the name that is either the whole
      name or follows a dot. */
  lemma {:induction false} ExtensionShape(name: string)
    ensures var ext := Extension(name);
      && '.' !in ext
      && |ext| <= |name| && ext == name[|name| - |ext|..]
      && (|ext| < |name| ==> name[|name| - |ext| - 1] == '.')
  {
    if |name| > 0 && name[|name| - 1] != '.' {
      var init := name[..|name| - 1];
      ExtensionShape(init);
      assert name[|name| - |Extension(name)|..] == init[|init| - |Extension(init)|..] + [name[|name| - 1]];
    }
  }

  /** That shape pins the extension down: no other dot-free suffix is the
      whole name or follows a dot. */
  lemma {:induction false} ExtensionIsUnique(name: string, ext: string)
    requires '.' !in ext && |ext| <= |name| && ext == name[|name| - |ext|..]
    requires |ext| < |name| ==> name[|name| - |ext| - 1] == '.'
    ensures ext == Extension(name)
  {
    if |name| > 0 {
      var last := name[|name| - 1];
      if last != '.' {
        assert |ext| > 0;
        var init := name[..|name| - 1];
        var prefix := ext[..|ext| - 1];
        assert prefix == init[|init| - |prefix|..];
        ExtensionIsUnique(init, prefix);
        assert ext == prefix + [last];
      }
    }
  }

  /** A name built as base, dot, extension gives that extension back. */
  lemma ExtensionOfDottedName(base: string, ext: string)
    requires '.' !in ext
    ensures Extension(base + "." + ext) == ext
  {
    var name := base + "." + ext;
    assert name[|name| - |ext|..] == ext;
    assert name[|name| - |ext| - 1] == '.';
    ExtensionIsUnique(name, ext);
  }

  /** `documents/${crypto.randomUUID()}.${fileExt}`. */
  function StoragePath(uuid: string, name: string): string {
    "documents/" + uuid + "." + Extension(name)
  }

  /** The stored object keeps the file's extension, and the path lies in the
      `documents/` folder. */
  lemma StoragePathKeepsExtension(uuid: string, name: string)
    ensures Extension(StoragePath(uuid, name)) == Extension(name)
    ensures StoragePath(uuid, name)[..10] == "documents/"
  {
    assert StoragePath(uuid, name) == ("documents/" + uuid) + "." + Extension(name);
    ExtensionShape(name);
    ExtensionOfDottedName("documents/" + uuid, Extension(name));
  }

  /** The record inserted into `documents`. */
  datatype NewDocument = NewDocument(name: string, path: string, size: nat, mimeType: string)

  /** How one storage or database request ends: done, with an error object
      (which the code rethrows as `new Error(message)`), or rejected. */
  datatype Response<T> = Done(value: T) | Failed(message: string) | Rejected(thrown: Thrown)

  /** The upload's effects, in order: the storage path the upload was
      attempted at (whether or not it succeeded), the record inserted, the
      document handed to the list, and the error shown. */
  datatype UploadTrace = UploadTrace(
    attemptedPath: Option<string>,
    inserted: Option<NewDocument>,
    added: Option<Document>,
    error: Option<string>)

  /** `uploadFile(file)`'s effects, given the fresh uuid and the two
      responses. */
  function Upload(file: File, uuid: string, upload: Response<()>, insert: NewDocument -> Response<Document>): (t: UploadTrace)
    ensures file.mimeType != PdfType ==> t == UploadTrace(None, None, None, Some(NotPdf))
    ensures file.mimeType == PdfType ==> t.attemptedPath == Some(StoragePath(uuid, file.name))
    ensures t.inserted.Some? ==> upload.Done?
    ensures t.inserted.Some? ==> t.inserted.value == NewDocument(file.name, StoragePath(uuid, file.name), file.size, file.mimeType)
    ensures t.added.Some? <==> t.error.None?
    ensures t.added.Some? ==> t.inserted.Some? && insert(t.inserted.value) == Done(t.added.value)
  {
    if file.mimeType != PdfType then UploadTrace(None, None, None, Some(NotPdf))
    else
      var path := StoragePath(uuid, file.name);
      match upload
      case Failed(m) => UploadTrace(Some(path), None, None, Some(m))
      case Rejected(e) => UploadTrace(Some(path), None, None, Some(MessageOr(e, UploadFailed)))
      case Done(_) =>
        var record := NewDocument(file.name, path, file.size, file.mimeType);
        match insert(record)
        case Failed(m) => UploadTrace(Some(path), Some(record), None, Some(m))
        case Rejected(e) => UploadTrace(Some(path), Some(record), None, Some(MessageOr(e, UploadFailed)))
        case Done(d) => UploadTrace(Some(path), Some(record), Some(d), None)
  }

  /** The error shown is the message of the first request that failed; a
      rejection with something other than an `Error` shows "Upload failed". */
  lemma UploadErrors(file: File, uuid: string, upload: Response<()>, insert: NewDocument -> Response<Document>)
    requires file.mimeType == PdfType
    ensures var t := Upload(file, uuid, upload, insert);
      && (upload.Failed? ==> t.inserted.None? && t.error == Some(upload.message))
      && (upload == Rejected(NonError) ==> t.inserted.None? && t.error == Some(UploadFailed))
      && (upload.Rejected? && upload.thrown.Error? ==> t.inserted.None? && t.error == Some(upload.thrown.message))
      && (upload.Done? ==> t.inserted.Some?)
    ensures var t := Upload(file, uuid, upload, insert);
      upload.Done? ==> match insert(t.inserted.value)
        case Done(d) => t.error.None? && t.added == Some(d)
        case Failed(m) => t.error == Some(m)
        case Rejected(e) => t.error == Some(MessageOr(e, UploadFailed))
  {
  }

  /** `DocumentUpload`: the drag highlight, the busy flag and the error. */
  class Uploader {
    var isDragOver: bool
    var isUploading: bool
    var error: Option<string>

    constructor ()
      ensures !isDragOver && !isUploading && error.None?
    {
      isDragOver := false;
      isUploading := false;
      error := None;
    }

    /** `uploadFile`: a non-PDF only sets the error; otherwise the upload
        runs, the error is cleared or set from its outcome, a stored
        document goes to the head of the list, and `isUploading` ends false. */
    method UploadFile(file: File, uuid: string, upload: Response<()>, insert: NewDocument -> Response<Document>, container: Container)
      modifies this, container
      ensures var t := Upload(file, uuid, upload, insert);
        && error == t.error
        && container.documents == (if t.added.Some? then [t.added.value] else []) + old(container.documents)
      ensures file.mimeType != PdfType ==> isUploading == old(isUploading)
      ensures file.mimeType == PdfType ==> !isUploading
      ensures isDragOver == old(isDragOver)
    {
      if file.mimeType != PdfType {
        error := Some(NotPdf);
      } else {
        isUploading := true;
        error := None;
        var t := Upload(file, uuid, upload, insert);
        if t.added.Some? {
          container.HandleUploadComplete(t.added.value);
        } else {
          error := t.error;
        }
        isUploading := false;
      }
    }

    method HandleDragOver()
      modifies this
      ensures isDragOver && isUploading == old(isUploading) && error == old(error)
    {
      isDragOver := true;
    }

    method HandleDragLeave()
      modifies this
      ensures !isDragOver && isUploading == old(isUploading) && error == old(error)
    {
      isDragOver := false;
    }

    /** `handleDrop`: the highlight goes off and only the first dropped file
        is uploaded. */
    method HandleDrop(files: seq<File>, uuid: string, upload: Response<()>, insert: NewDocument -> Response<Document>, container: Container)
      modifies this, container
      ensures !isDragOver
      ensures |files| == 0 ==> error == old(error) && isUploading == old(isUploading)
      ensures |files| == 0 ==> container.documents == old(container.documents)
      ensures |files| > 0 ==> var t := Upload(files[0], uuid, upload, insert);
        && error == t.error
        && container.documents == (if t.added.Some? then [t.added.value] else []) + old(container.documents)
    {
      isDragOver := false;
      if |files| > 0 {
        UploadFile(files[0], uuid, upload, insert, container);
      }
    }

    /** `handleFileSelect`: the first selected file, if any, is uploaded. */
    method HandleFileSelect(files: seq<File>, uuid: string, upload: Response<()>, insert: NewDocument -> Response<Document>, container: Container)
      modifies this, container
      ensures isDragOver == old(isDragOver)
      ensures |files| == 0 ==> error == old(error) && isUploading == old(isUploading)
      ensures |files| == 0 ==> container.documents == old(container.documents)
      ensures |files| > 0 ==> var t := Upload(files[0], uuid, upload, insert);
        && error == t.error
        && container.documents == (if t.added.Some? then [t.added.value] else []) + old(container.documents)
    {
      if |files| > 0 {
        UploadFile(files[0], uuid, upload, insert, container);
      }
    }
  }
}
