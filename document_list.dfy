/** The list of uploaded documents: each card shows the file size, the
    status and how long ago the document was created, and can delete it. */
module DocumentList {
  import opened Wrappers
  import opened Strings
  import opened DocumentsContainer

  // ---- formatFileSize ----------------------------------------------------

  /** `1024 ** i`. */
  function Pow1024(i: nat): (p: nat)
    ensures p >= 1
  {
    if i == 0 then 1 else 1024 * Pow1024(i - 1)
  }

  /** `Math.floor(Math.log(bytes) / Math.log(1024))` for a positive byte
      count, taken as an exact logarithm. */
  function UnitIndex(bytes: nat): nat
    requires bytes > 0
  {
    if bytes < 1024 then 0 else 1 + UnitIndex(bytes / 1024)
  }

  /** The unit index is the largest power of 1024 not above the size. */
  lemma {:induction false} UnitIndexBounds(bytes: nat)
    requires bytes > 0
    ensures Pow1024(UnitIndex(bytes)) <= bytes < Pow1024(UnitIndex(bytes) + 1)
  {
    if bytes >= 1024 {
      var b := bytes / 1024;
      UnitIndexBounds(b);
      var i := UnitIndex(b);
      assert 1024 * b <= bytes < 1024 * b + 1024;
      assert Pow1024(i) <= b;
      assert 1024 * Pow1024(i) <= 1024 * b;
      assert b + 1 <= Pow1024(i + 1);
      assert 1024 * (b + 1) <= 1024 * Pow1024(i + 1);
    }
  }

  /** `sizes[i]`, which is `undefined` past "GB". */
  function Unit(i: nat): string {
    if i < 4 then ["B", "KB", "MB", "GB"][i] else "undefined"
  }

  /** `(bytes / 1024 ** i).toFixed(1)` in tenths: the nearest tenth, halves
      up. The quotient is a dyadic number, so `toFixed` rounds it exactly. */
  function Tenths(bytes: nat, i: nat): nat {
    var p := Pow1024(i);
    RoundedQuotient(20 * bytes, 2 * p)
  }

  /** `n / d` rounded to the nearest whole number, halves up. */
  function RoundedQuotient(n: nat, d: nat): nat
    requires d > 0 && d % 2 == 0
  {
    (n + d / 2) / d
  }

  lemma TenthsRounding(bytes: nat, i: nat)
    ensures var p, t := Pow1024(i), Tenths(bytes, i);
      2 * p * t - p <= 20 * bytes < 2 * p * t + p
  {
    var p := Pow1024(i);
    var n, d := 20 * bytes + p, 2 * p;
    assert n == d * (n / d) + n % d && 0 <= n % d < d;
  }

  /** `String(Number.parseFloat(fixed))`: a trailing ".0" is dropped. */
  function TenthsText(tenths: nat): string {
    NatToString(tenths / 10) + (if tenths % 10 == 0 then "" else "." + [DigitChar(tenths % 10)])
  }

  /** `formatFileSize(bytes)`. */
  function FormatFileSize(bytes: nat): string {
    if bytes == 0 then "0 B"
    else
      var i := UnitIndex(bytes);
      TenthsText(Tenths(bytes, i)) + " " + Unit(i)
  }

  /** Below a kibibyte the size is shown in whole bytes; zero is "0 B". */
  lemma SmallSizesInBytes(bytes: nat)
    requires bytes < 1024
    ensures FormatFileSize(bytes) == NatToString(bytes) + " B"
  {
    if bytes == 0 {
      assert NatToString(0) == "0";
    } else {
      assert Tenths(bytes, 0) == 10 * bytes;
      assert (10 * bytes) / 10 == bytes && (10 * bytes) % 10 == 0;
    }
  }

  /** A kibibyte and a half reads "1.5 KB". */
  lemma OneAndAHalfKilobytes()
    ensures FormatFileSize(1536) == "1.5 KB"
  {
    assert UnitIndex(1536) == 1 by { assert UnitIndex(1) == 0; }
    assert Tenths(1536, 1) == 15;
    assert NatToString(1) == "1";
  }

  /** From 1024 gibibytes on, the unit reads "undefined". */
  lemma NoUnitPastGigabytes(bytes: nat)
    requires bytes >= Pow1024(4)
    ensures UnitIndex(bytes) >= 4 && Unit(UnitIndex(bytes)) == "undefined"
  {
    UnitIndexBounds(bytes);
    if UnitIndex(bytes) < 4 {
      PowMonotone(UnitIndex(bytes) + 1, 4);
    }
  }

  lemma {:induction false} PowMonotone(i: nat, j: nat)
    requires i <= j
    ensures Pow1024(i) <= Pow1024(j)
  {
    if i < j {
      PowMonotone(i, j - 1);
    }
  }

  // ---- formatDate ---------------------------------------------------------

  /** `Math.floor((now.getTime() - date.getTime()) / 1000)` on millisecond
      timestamps; integer division by a positive divisor is a floor. */
  function DiffInSeconds(nowMs: int, dateMs: int): int {
    (nowMs - dateMs) / 1000
  }

  lemma DiffIsWholeSecondsElapsed(nowMs: int, dateMs: int)
    ensures var d := DiffInSeconds(nowMs, dateMs);
      1000 * d <= nowMs - dateMs < 1000 * d + 1000
  {
  }

  /** `formatDate(dateString)`. `dateMs` is the parsed date (`None` for an
      invalid one, whose comparisons with NaN are all false) and
      `absoluteDate` stands for `toLocaleDateString("en-US", …)`. */
  function FormatDate(dateMs: Option<int>, nowMs: int, absoluteDate: Option<int> -> string): string {
    match dateMs
    case None => absoluteDate(None)
    case Some(date) =>
      var diff := DiffInSeconds(nowMs, date);
      if diff < 60 then "Just now"
      else if diff < 3600 then NatToString(diff / 60) + "m ago"
      else if diff < 86400 then NatToString(diff / 3600) + "h ago"
      else if diff < 604800 then NatToString(diff / 86400) + "d ago"
      else absoluteDate(dateMs)
  }

  /** Anything under a minute old, and anything dated in the future, is
      "Just now". */
  lemma RecentIsJustNow(date: int, nowMs: int, absoluteDate: Option<int> -> string)
    requires nowMs - date < 60000
    ensures FormatDate(Some(date), nowMs, absoluteDate) == "Just now"
  {
  }

  /** Within the hour the text counts whole minutes, 1 to 59. */
  lemma MinutesBucket(date: int, nowMs: int, absoluteDate: Option<int> -> string)
    requires 60 <= DiffInSeconds(nowMs, date) < 3600
    ensures var m := DiffInSeconds(nowMs, date) / 60;
      1 <= m <= 59 && 60 * m <= DiffInSeconds(nowMs, date) < 60 * m + 60
      && FormatDate(Some(date), nowMs, absoluteDate) == NatToString(m) + "m ago"
  {
  }

  /** Within the day the text counts whole hours, 1 to 23. */
  lemma HoursBucket(date: int, nowMs: int, absoluteDate: Option<int> -> string)
    requires 3600 <= DiffInSeconds(nowMs, date) < 86400
    ensures var h := DiffInSeconds(nowMs, date) / 3600;
      1 <= h <= 23 && 3600 * h <= DiffInSeconds(nowMs, date) < 3600 * h + 3600
      && FormatDate(Some(date), nowMs, absoluteDate) == NatToString(h) + "h ago"
  {
  }

  /** Within the week the text counts whole days, 1 to 6; older dates and
      invalid ones get the calendar date. */
  lemma DaysBucket(date: int, nowMs: int, absoluteDate: Option<int> -> string)
    ensures var diff := DiffInSeconds(nowMs, date);
      86400 <= diff < 604800 ==>
        1 <= diff / 86400 <= 6 && 86400 * (diff / 86400) <= diff < 86400 * (diff / 86400) + 86400
        && FormatDate(Some(date), nowMs, absoluteDate) == NatToString(diff / 86400) + "d ago"
    ensures DiffInSeconds(nowMs, date) >= 604800 ==>
      FormatDate(Some(date), nowMs, absoluteDate) == absoluteDate(Some(date))
    ensures FormatDate(None, nowMs, absoluteDate) == absoluteDate(None)
  {
  }

  // ---- Status ---------------------------------------------------------------

  const Statuses := ["pending", "processing", "completed", "failed"]

  datatype Icon = Clock | Loader | CheckCircle | XCircle

  /** `StatusBadge`: the icon for a status and whether it spins; `None`
      where `config[status]` is undefined and destructuring it throws. */
  function StatusBadge(status: string): (r: Option<(Icon, bool)>)
    ensures r.Some? <==> status in Statuses
    ensures r.Some? ==> (r.value.1 <==> status == "processing")
  {
    if status == "pending" then Some((Clock, false))
    else if status == "processing" then Some((Loader, true))
    else if status == "completed" then Some((CheckCircle, false))
    else if status == "failed" then Some((XCircle, false))
    else None
  }

  /** The status text beside the badge: "Ready" for a completed document,
      the raw status otherwise. */
  function StatusText(status: string): string {
    if status == "completed" then "Ready" else status
  }

  /** Of the four statuses only "completed" is renamed, and each gets its
      own text. */
  lemma StatusTexts()
    ensures forall s :: s in Statuses && s != "completed" ==> StatusText(s) == s
    ensures StatusText("completed") == "Ready"
    ensures forall s, t :: s in Statuses && t in Statuses && StatusText(s) == StatusText(t) ==> s == t
  {
  }

  // ---- The list --------------------------------------------------------------

  /** What one card shows. */
  datatype CardView = CardView(id: string, name: string, sizeText: string, statusText: string, dateText: string)

  datatype ListView = EmptyState | Cards(items: seq<CardView>)

  /** `DocumentList`: the empty state, or one card per document in order. */
  function View(documents: seq<Document>, nowMs: int, parseDate: string -> Option<int>, absoluteDate: Option<int> -> string): (v: ListView)
    ensures v.EmptyState? <==> |documents| == 0
    ensures v.Cards? ==> |v.items| == |documents|
    ensures v.Cards? ==> forall i :: 0 <= i < |documents| ==>
      && v.items[i].id == documents[i].id && v.items[i].name == documents[i].name
      && v.items[i].sizeText == FormatFileSize(documents[i].size)
      && v.items[i].statusText == StatusText(documents[i].status)
      && v.items[i].dateText == FormatDate(parseDate(documents[i].createdAt), nowMs, absoluteDate)
  {
    if |documents| == 0 then EmptyState
    else Cards(seq(|documents|, i requires 0 <= i < |documents| =>
      var d := documents[i];
      CardView(d.id, d.name, FormatFileSize(d.size), StatusText(d.status),
               FormatDate(parseDate(d.createdAt), nowMs, absoluteDate))))
  }

  /** After an upload the new document is the first card. */
  lemma UploadedDocumentShownFirst(documents: seq<Document>, d: Document, nowMs: int, parseDate: string -> Option<int>, absoluteDate: Option<int> -> string)
    ensures var v := View([d] + documents, nowMs, parseDate, absoluteDate);
      v.Cards? && v.items[0].id == d.id && v.items[0].name == d.name
  {
  }

  /** `DocumentCard`: deleting removes the file from storage (a failure there
      is only logged), then the row; a failed row delete is caught and
      re-enables the card, a successful one removes it from the list. */
  class DocumentCard {
    const document: Document
    var isDeleting: bool

    constructor (document: Document)
      ensures this.document == document && !isDeleting
    {
      this.document := document;
      isDeleting := false;
    }

    /** `handleDelete`; `rowDeleteError` is the error of the row delete, or
        of the request if it rejected. */
    method HandleDelete(rowDeleteError: Option<string>, container: Container)
      modifies this, container
      ensures rowDeleteError.None? ==>
        isDeleting && container.documents == Without(old(container.documents), document.id)
      ensures rowDeleteError.Some? ==>
        !isDeleting && container.documents == old(container.documents)
    {
      isDeleting := true;
      if rowDeleteError.None? {
        container.HandleDocumentDeleted(document.id);
      } else {
        isDeleting := false;
      }
    }
  }
}
