/** Inserting the generated lessons one by one, each linked to the lesson
    inserted before it. */
module StoreLessons {
  import opened Wrappers
  import opened Strings
  import opened Js
  import opened Storage

  /** The database's reply to one lesson insert: the new row's id, or `None`
      when the insert erred or returned no data. */
  type LessonInsert = LessonRow -> Option<string>

  /** How many `i = 0, 1, …` pass `i < n` for a number `n`: the least
      natural at or above it. */
  function IndicesBelow(n: real): (count: nat)
    ensures count as real >= n
    ensures count == 0 || ((count - 1) as real) < n
  {
    if n <= 0.0 then 0 else if n.Floor as real == n then n.Floor else n.Floor + 1
  }

  /** How many times `i < lessons.length` holds when `length` is an
      object's own `length` member: a number bounds the loop, `true` counts
      as 1, and `undefined`, `null`, `false` and NaN stop it at once. */
  function LoopBound(length: Prop): nat {
    match length
    case Some(Number(n)) => IndicesBelow(n)
    case Some(Bool(b)) => if b then 1 else 0
    case _ => 0
  }

  /** `lessons[i]` on an object: the member named by `i`'s decimal digits;
      a missing one is `undefined`, falsy like `null`, which stands for it. */
  function ObjectEntry(fields: map<string, Value>, i: nat): Value {
    var key := NatToString(i);
    if key in fields then fields[key] else Null
  }

  /** `lessons.length` and `lessons[i]`: an array gives its items, a string
      its characters (as one-character strings), an object the members
      `"0"`, `"1"`, … below its own `length`, `null` throws and any other
      value has no length, hence no entries. */
  function LessonEntries(lessons: Value): (r: Option<seq<Value>>)
    ensures r.None? <==> lessons.Null?
    ensures lessons.Arr? ==> r == Some(lessons.items)
    ensures lessons.Str? ==>
      && r.Some? && |r.value| == |lessons.s|
      && forall i :: 0 <= i < |r.value| ==> r.value[i] == Str([lessons.s[i]])
    ensures lessons.Obj? ==>
      && r.Some? && |r.value| == LoopBound(Member(Some(lessons), "length").value)
      && forall i :: 0 <= i < |r.value| ==> r.value[i] == ObjectEntry(lessons.fields, i)
    ensures lessons.Bool? || lessons.Number? || lessons.NaN? ==> r == Some([])
  {
    match lessons
    case Null => None
    case Arr(items) => Some(items)
    case Str(s) => Some(seq(|s|, i requires 0 <= i < |s| => Str([s[i]])))
    case Obj(fields) =>
      Some(seq(LoopBound(Member(Some(lessons), "length").value), i requires i >= 0 => ObjectEntry(fields, i)))
    case _ => Some([])
  }

  /** An object with its own `length` of 1 and a member `"0"` yields that
      member as its one entry. */
  lemma OwnLengthKeyIsIterated(lesson: Value)
    ensures LessonEntries(Obj(map["length" := Number(1.0), "0" := lesson])) == Some([lesson])
  {
    var lessons := Obj(map["length" := Number(1.0), "0" := lesson]);
    assert Member(Some(lessons), "length").value == Some(Number(1.0));
    assert IndicesBelow(1.0) == 1;
    assert NatToString(0) == "0";
    assert ObjectEntry(lessons.fields, 0) == lesson;
    var r := LessonEntries(lessons).value;
    assert |r| == 1 && r[0] == lesson;
    assert r == [lesson];
  }

  /** The row inserted for entry `i` (a truthy entry, so its members can be
      read). */
  function RowFor(documentId: string, entry: Value, prev: Option<string>, i: nat): (row: LessonRow)
    requires Truthy(Some(entry))
    ensures row.orderIndex == i && row.prevLessonId == prev && row.documentId == documentId
    ensures row.title == Member(Some(entry), "title").value
    ensures row.description == Member(Some(entry), "description").value
  {
    LessonRow(documentId, Member(Some(entry), "title").value, Member(Some(entry), "description").value, prev, i)
  }

  /** What the loop over `entries` does: the rows it tries to insert, the
      lessons that were stored, and the final `prevLessonId`. */
  datatype Run = Run(attempted: seq<LessonRow>, stored: seq<StoredLesson>, prev: Option<string>)

  /** The loop's effect, entry by entry: a falsy entry is skipped; a failed
      insert is skipped too and leaves `prev` as it was. */
  function Insertions(documentId: string, entries: seq<Value>, insert: LessonInsert): (r: Run)
    ensures |r.stored| <= |r.attempted| <= |entries|
    ensures r.prev == if |r.stored| == 0 then None else Some(r.stored[|r.stored| - 1].id)
  {
    if |entries| == 0 then Run([], [], None)
    else
      var i := |entries| - 1;
      var before := Insertions(documentId, entries[..i], insert);
      var entry := entries[i];
      if !Truthy(Some(entry)) then before
      else
        var row := RowFor(documentId, entry, before.prev, i);
        match insert(row)
        case None => Run(before.attempted + [row], before.stored, before.prev)
        case Some(id) => Run(before.attempted + [row], before.stored + [StoredLesson(id, row)], Some(id))
  }

  /** Positions of the truthy entries, in order. */
  function TruthyIndices(entries: seq<Value>): (r: seq<nat>)
    ensures forall k :: 0 <= k < |r| ==> r[k] < |entries| && Truthy(Some(entries[r[k]]))
  {
    if |entries| == 0 then []
    else
      var i := |entries| - 1;
      var before := TruthyIndices(entries[..i]);
      assert forall k :: 0 <= k < |before| ==> entries[before[k]] == entries[..i][before[k]];
      before + (if Truthy(Some(entries[i])) then [i] else [])
  }

  /** One insert is tried per truthy entry, in input order, and its
      `order_index` is the entry's position whatever happened before. */
  lemma {:induction false} AttemptsFollowEntries(documentId: string, entries: seq<Value>, insert: LessonInsert)
    ensures var att := Insertions(documentId, entries, insert).attempted;
      && |att| == |TruthyIndices(entries)|
      && forall k :: 0 <= k < |att| ==>
           && att[k].orderIndex == TruthyIndices(entries)[k]
           && att[k].documentId == documentId
           && att[k].title == Member(Some(entries[att[k].orderIndex]), "title").value
           && att[k].description == Member(Some(entries[att[k].orderIndex]), "description").value
  {
    if |entries| > 0 {
      var i := |entries| - 1;
      AttemptsFollowEntries(documentId, entries[..i], insert);
      var before := Insertions(documentId, entries[..i], insert).attempted;
      forall k | 0 <= k < |before|
        ensures entries[before[k].orderIndex] == entries[..i][before[k].orderIndex]
      {
      }
    }
  }

  /** The stored lessons form a chain: the first has no predecessor, each
      later one points at the lesson stored just before it; each is a row the
      database accepted under that id, in ascending `order_index`. */
  lemma {:induction false} StoredChain(documentId: string, entries: seq<Value>, insert: LessonInsert)
    ensures var st := Insertions(documentId, entries, insert).stored;
      && (|st| > 0 ==> st[0].row.prevLessonId.None?)
      && (forall k :: 0 < k < |st| ==> st[k].row.prevLessonId == Some(st[k - 1].id))
      && (forall k :: 0 <= k < |st| ==> insert(st[k].row) == Some(st[k].id) && st[k].row.orderIndex < |entries|)
      && (forall k, l :: 0 <= k < l < |st| ==> st[k].row.orderIndex < st[l].row.orderIndex)
  {
    if |entries| > 0 {
      StoredChain(documentId, entries[..|entries| - 1], insert);
    }
  }

  /** One more entry: what the loop body does to the stored lessons and to
      `prev`. */
  lemma InsertionsStep(documentId: string, entries: seq<Value>, i: nat, insert: LessonInsert)
    requires i < |entries|
    ensures var before := Insertions(documentId, entries[..i], insert);
      var after := Insertions(documentId, entries[..i + 1], insert);
      && (!Truthy(Some(entries[i])) ==> after == before)
      && (Truthy(Some(entries[i])) ==>
            var row := RowFor(documentId, entries[i], before.prev, i);
            && (insert(row).None? ==> after.stored == before.stored && after.prev == before.prev)
            && (insert(row).Some? ==>
                  after.stored == before.stored + [StoredLesson(insert(row).value, row)] && after.prev == insert(row)))
  {
    assert entries[..i + 1][..i] == entries[..i];
    assert entries[..i + 1][i] == entries[i];
  }

  /** The loop of `storeLessons` over the entries. */
  method InsertAll(db: Database, documentId: string, entries: seq<Value>, insert: LessonInsert)
    modifies db
    ensures db.lessons == old(db.lessons) + Insertions(documentId, entries, insert).stored
    ensures unchanged(db`status, db`statusWrites, db`chunks)
  {
    var prevLessonId: Option<string> := None;
    var i := 0;
    while i < |entries|
      invariant 0 <= i <= |entries|
      invariant prevLessonId == Insertions(documentId, entries[..i], insert).prev
      invariant db.lessons == old(db.lessons) + Insertions(documentId, entries[..i], insert).stored
      invariant unchanged(db`status, db`statusWrites, db`chunks)
    {
      ghost var before := Insertions(documentId, entries[..i], insert);
      ghost var after := Insertions(documentId, entries[..i + 1], insert);
      InsertionsStep(documentId, entries, i, insert);
      var lesson := entries[i];
      if Truthy(Some(lesson)) {
        var row := RowFor(documentId, lesson, prevLessonId, i);
        var data := insert(row);
        if data.Some? {
          var lesson := StoredLesson(data.value, row);
          assert after.stored == before.stored + [lesson] && after.prev == data;
          AppendAssociates(old(db.lessons), before.stored, [lesson]);
          db.lessons := db.lessons + [lesson];
          prevLessonId := data;
        } else {
          assert after.stored == before.stored && after.prev == before.prev;
        }
      } else {
        assert after == before;
      }
      i := i + 1;
    }
    assert entries[..|entries|] == entries;
  }

  /** `storeLessons`: inserts the entries in order, chaining each stored
      lesson to the previous one; failed inserts are skipped without
      throwing. Only a `null` list throws, on its `length`. */
  method StoreLessons(db: Database, documentId: string, lessons: Value, insert: LessonInsert, host: Host)
    returns (thrown: Option<Thrown>)
    modifies db
    ensures thrown.Some? <==> lessons.Null?
    ensures thrown.Some? ==> thrown.value == TypeError(host)
    ensures db.lessons == old(db.lessons)
      + (if lessons.Null? then [] else Insertions(documentId, LessonEntries(lessons).value, insert).stored)
    ensures unchanged(db`status, db`statusWrites, db`chunks)
  {
    if lessons.Null? {
      return Some(TypeError(host));
    }
    InsertAll(db, documentId, LessonEntries(lessons).value, insert);
    thrown := None;
  }
}
