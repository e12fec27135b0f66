/** The home page's document list state: a newly uploaded document is put
    in front, a deleted one is filtered out. */
module DocumentsContainer {

  /** A row of the `documents` table as the client holds it. The upload
      inserts `name`, `path`, `size` and `mime_type`; the database supplies
      `id`, `status` and `created_at`. */
  datatype Document = Document(
    id: string,
    name: string,
    path: string,
    size: nat,
    mimeType: string,
    status: string,
    createdAt: string)

  /** `docs.filter(doc => doc.id !== id)`. */
  function Without(docs: seq<Document>, id: string): (r: seq<Document>)
    ensures |r| <= |docs|
  {
    if |docs| == 0 then []
    else if docs[0].id != id then [docs[0]] + Without(docs[1..], id)
    else Without(docs[1..], id)
  }

  /** `a` is `b` with some elements dropped and the rest in their order. */
  predicate IsSubsequence(a: seq<Document>, b: seq<Document>)
    decreases |b|
  {
    if |a| == 0 then true
    else if |b| == 0 then false
    else if a[0] == b[0] then IsSubsequence(a[1..], b[1..])
    else IsSubsequence(a, b[1..])
  }

  /** Filtering keeps exactly the documents with another id. */
  lemma {:induction false} WithoutMembers(docs: seq<Document>, id: string)
    ensures forall d :: d in Without(docs, id) <==> d in docs && d.id != id
  {
    if |docs| > 0 {
      WithoutMembers(docs[1..], id);
      assert docs == [docs[0]] + docs[1..];
    }
  }

  /** Filtering keeps the remaining documents in their relative order. */
  lemma {:induction false} WithoutKeepsOrder(docs: seq<Document>, id: string)
    ensures IsSubsequence(Without(docs, id), docs)
  {
    if |docs| > 0 {
      WithoutKeepsOrder(docs[1..], id);
      if docs[0].id == id {
        SubsequenceOfTail(Without(docs[1..], id), docs);
      } else {
        var r := Without(docs, id);
        assert r[0] == docs[0] && r[1..] == Without(docs[1..], id);
      }
    }
  }

  lemma {:induction false} SubsequenceOfTail(a: seq<Document>, b: seq<Document>)
    requires |b| > 0 && IsSubsequence(a, b[1..])
    ensures IsSubsequence(a, b)
    decreases |a| + |b|
  {
    if |a| > 0 && a[0] == b[0] {
      SubsequenceDropFirst(a, b[1..]);
    }
  }

  lemma {:induction false} SubsequenceDropFirst(a: seq<Document>, b: seq<Document>)
    requires |a| > 0 && IsSubsequence(a, b)
    ensures IsSubsequence(a[1..], b)
    decreases |a| + |b|
  {
    if |b| > 0 {
      if a[0] == b[0] {
        if |a[1..]| > 0 {
          SubsequenceDropFirst(a[1..], b[1..]);
          SubsequenceOfTail(a[1..], b);
        }
      } else {
        SubsequenceDropFirst(a, b[1..]);
        SubsequenceOfTail(a[1..], b);
      }
    }
  }

  /** Deleting an id no document has changes nothing. */
  lemma {:induction false} WithoutAbsent(docs: seq<Document>, id: string)
    requires forall d :: d in docs ==> d.id != id
    ensures Without(docs, id) == docs
  {
    if |docs| > 0 {
      assert docs[0] in docs;
      assert forall d :: d in docs[1..] ==> d in docs;
      WithoutAbsent(docs[1..], id);
      assert docs == [docs[0]] + docs[1..];
    }
  }

  /** Deleting a document right after uploading it, when no other document
      shares its id, restores the list. */
  lemma UploadThenDelete(docs: seq<Document>, d: Document)
    requires forall e :: e in docs ==> e.id != d.id
    ensures Without([d] + docs, d.id) == docs
  {
    assert ([d] + docs)[1..] == docs;
    WithoutAbsent(docs, d.id);
  }

  /** `DocumentsContainer`: the `documents` state and its two handlers. */
  class Container {
    var documents: seq<Document>

    constructor (initialDocuments: seq<Document>)
      ensures documents == initialDocuments
    {
      documents := initialDocuments;
    }

    /** `handleUploadComplete`: the new document goes first, the previous
        ones follow in their order. */
    method HandleUploadComplete(newDocument: Document)
      modifies this`documents
      ensures documents == [newDocument] + old(documents)
      ensures documents[0] == newDocument && documents[1..] == old(documents)
    {
      documents := [newDocument] + documents;
    }

    /** `handleDocumentDeleted`: every document with the id goes, the rest
        stay in their order. */
    method HandleDocumentDeleted(id: string)
      modifies this`documents
      ensures documents == Without(old(documents), id)
      ensures forall d :: d in documents <==> d in old(documents) && d.id != id
      ensures IsSubsequence(documents, old(documents))
    {
      WithoutMembers(documents, id);
      WithoutKeepsOrder(documents, id);
      documents := Without(documents, id);
    }
  }
}
