/**
 * The history endpoints (`GET`, `POST`, `DELETE /api/history`) over the
 * module-global record list, modelled as a value threaded through each call:
 * every handler takes the list before the call and returns the list after it
 * together with the response. `GET` sorts the list in place, so it returns a
 * new list too. The clock is the parameter `now` (milliseconds since the epoch).
 */
module HistoryRoute {
  import opened Wrappers
  import opened JsText
  import opened Types

  /** The most records kept; older ones are dropped on overflow. */
  const Capacity: nat := 100

  /** The page size and start used when the query omits them. */
  const DefaultLimit := "20"
  const DefaultOffset := "0"

  /** The body a client posts; `topic` may be omitted. */
  datatype HistoryInput = HistoryInput(
    topic: Option<string>,
    entryType: EntryType,
    templateId: string,
    templateName: string,
    content: map<string, string>,
    imageUrl: Option<string>,
    cardSpec: CardSpec)

  datatype HistoryResponse =
    | Listed(records: seq<HistoryRecord>, total: nat)
    | Saved(id: string)
    | Deleted
    | Failed(status: nat, error: string)

  /** The record list after a call, and what the call answered. */
  datatype Exchange = Exchange(store: seq<HistoryRecord>, response: HistoryResponse)

  // ---------------------------------------------------------------------------
  // GET: newest first, then one page

  /** Records ordered by creation time, newest first. */
  predicate NewestFirst(s: seq<HistoryRecord>) {
    forall i, j | 0 <= i < j < |s| :: s[i].createdAt >= s[j].createdAt
  }

  /** Inserts `x` before the first record that is not newer than it (created at the same time or earlier). */
  function InsertByTime(x: HistoryRecord, s: seq<HistoryRecord>): (r: seq<HistoryRecord>)
    requires NewestFirst(s)
    ensures NewestFirst(r)
    ensures multiset(r) == multiset(s) + multiset{x}
    ensures |r| == |s| + 1
    ensures r[0] == x || (|s| > 0 && r[0] == s[0])
  {
    if |s| == 0 || x.createdAt >= s[0].createdAt then [x] + s
    else
      var rest := InsertByTime(x, s[1..]);
      assert s == [s[0]] + s[1..];
      [s[0]] + rest
  }

  /**
   * The comparator sort of `GET`, `(a, b) => time(b) - time(a)`: a stable sort
   * by creation time, newest first. The result is a rearrangement of the input.
   */
  function SortByNewest(s: seq<HistoryRecord>): (r: seq<HistoryRecord>)
    ensures NewestFirst(r)
    ensures multiset(r) == multiset(s)
    ensures |r| == |s|
  {
    if |s| == 0 then []
    else
      assert s == [s[0]] + s[1..];
      InsertByTime(s[0], SortByNewest(s[1..]))
  }

  /** A list already newest-first is left exactly as it is by the sort. */
  lemma {:induction false} SortKeepsOrderedStore(s: seq<HistoryRecord>)
    requires NewestFirst(s)
    ensures SortByNewest(s) == s
    decreases |s|
  {
    if |s| > 0 {
      SortKeepsOrderedStore(s[1..]);
      assert s == [s[0]] + s[1..];
    }
  }

  /**
   * `slice(offset, offset + limit)` over the sorted list, where `None` is a
   * `parseInt` result of NaN; NaN in either operand makes the end NaN too.
   */
  function Page(sorted: seq<HistoryRecord>, offset: Option<int>, limit: Option<int>): (r: seq<HistoryRecord>)
    ensures forall i | 0 <= i < |r| :: r[i] in sorted
    ensures limit.None? || offset.None? ==> r == []
  {
    var end := if limit.Some? && offset.Some? then Some(offset.value + limit.value) else None;
    Slice(sorted, offset, end)
  }

  /** `GET`: sorts the list newest first in place and answers one page of it and the total. */
  function Get(store: seq<HistoryRecord>, limitParam: Option<string>, offsetParam: Option<string>): (ex: Exchange)
    ensures ex.store == SortByNewest(store)
    ensures ex.response.Listed?
    ensures ex.response.total == |store|
    ensures ex.response.records
         == Page(ex.store, ParseInt(Or(offsetParam, DefaultOffset)), ParseInt(Or(limitParam, DefaultLimit)))
    ensures forall i | 0 <= i < |ex.response.records| :: ex.response.records[i] in store
  {
    var sorted := SortByNewest(store);
    var offset := ParseInt(Or(offsetParam, DefaultOffset));
    var limit := ParseInt(Or(limitParam, DefaultLimit));
    var page := Page(sorted, offset, limit);
    SortedFromStore(store, sorted, page);
    Exchange(sorted, Listed(page, |store|))
  }

  /** Records of a rearrangement of the list, and so of a page of it, are stored records. */
  lemma SortedFromStore(store: seq<HistoryRecord>, sorted: seq<HistoryRecord>, page: seq<HistoryRecord>)
    requires multiset(sorted) == multiset(store)
    requires forall i | 0 <= i < |page| :: page[i] in sorted
    ensures forall i | 0 <= i < |page| :: page[i] in store
  {
    forall i | 0 <= i < |page| ensures page[i] in store {
      assert page[i] in multiset(sorted);
    }
  }

  /** For a non-negative `offset` and `limit`, the page is the run `[offset, offset + limit)` of the list, cut at its end. */
  lemma PageIsRun(sorted: seq<HistoryRecord>, offset: int, limit: int)
    requires 0 <= offset && 0 <= limit
    ensures var lo := if offset < |sorted| then offset else |sorted|;
      var hi := if offset + limit < |sorted| then offset + limit else |sorted|;
      Page(sorted, Some(offset), Some(limit)) == sorted[lo..hi]
  {
  }

  /**
   * A page never holds more than a non-negative `limit` records, and none when
   * `limit` or `offset` is NaN. A negative `limit` is not a bound: the end then
   * counts back from the end of the list.
   */
  lemma PageAtMostLimit(sorted: seq<HistoryRecord>, offset: Option<int>, limit: Option<int>)
    ensures limit.None? || offset.None? ==> Page(sorted, offset, limit) == []
    ensures limit.Some? && limit.value >= 0 ==> |Page(sorted, offset, limit)| <= limit.value
  {
    var end := if limit.Some? && offset.Some? then Some(offset.value + limit.value) else None;
    if limit.Some? && offset.Some? && limit.value >= 0 {
      var from := RelativeIndex(offset, |sorted|);
      var to := RelativeIndex(end, |sorted|);
      if offset.value >= 0 {
        assert from == (if offset.value < |sorted| then offset.value else |sorted|);
      } else if offset.value + limit.value < 0 {
        assert from < to ==> to - from <= limit.value;
      } else {
        assert to <= offset.value + limit.value;
      }
    }
  }

  /** `limit=-1` from the start answers every record but the last: the end counts back from the list's end. */
  lemma NegativeLimitCountsBack(sorted: seq<HistoryRecord>)
    requires |sorted| > 0
    ensures Page(sorted, Some(0), Some(-1)) == sorted[..|sorted| - 1]
  {
  }

  /** The default query values read as the numbers 20 and 0. */
  lemma DefaultsParse()
    ensures ParseInt(DefaultLimit) == Some(20)
    ensures ParseInt(DefaultOffset) == Some(0)
  {
    assert NatToString(20) == DefaultLimit by {
      assert NatToString(2) == "2";
    }
    assert NatToString(0) == DefaultOffset;
    ParseIntOfNatText(DefaultLimit, 20);
    ParseIntOfNatText(DefaultOffset, 0);
  }

  /** With `limit` and `offset` absent or empty, `GET` answers the twenty newest records. */
  lemma GetDefaults(store: seq<HistoryRecord>, limitParam: Option<string>, offsetParam: Option<string>)
    requires !Truthy(limitParam) && !Truthy(offsetParam)
    ensures var sorted := SortByNewest(store);
      Get(store, limitParam, offsetParam).response.records == sorted[..if 20 < |sorted| then 20 else |sorted|]
  {
    var ex := Get(store, limitParam, offsetParam);
    var sorted := SortByNewest(store);
    DefaultsParse();
    assert Or(limitParam, DefaultLimit) == DefaultLimit;
    assert Or(offsetParam, DefaultOffset) == DefaultOffset;
    assert ex.response.records == Page(sorted, Some(0), Some(20));
    PageIsRun(sorted, 0, 20);
  }

  // ---------------------------------------------------------------------------
  // POST: prepend, then cap

  /**
   * The record `POST` builds: the id from one clock reading (`Date.now()`),
   * the creation time from a second (`new Date()`), the topic defaulting to ''.
   */
  function NewRecord(data: HistoryInput, idClock: nat, now: nat): (r: HistoryRecord)
    ensures r.topic == (if Truthy(data.topic) then data.topic.value else "")
    ensures r.createdAt == now
    ensures "history-" <= r.id && ParseInt(r.id[|"history-"|..]) == Some(idClock)
    ensures r.thumbnail.None?
    ensures && r.entryType == data.entryType && r.templateId == data.templateId
            && r.templateName == data.templateName && r.content == data.content
            && r.imageUrl == data.imageUrl && r.cardSpec == data.cardSpec
  {
    ParseIntOfNatToString(idClock);
    var id := "history-" + NatToString(idClock);
    assert id[|"history-"|..] == NatToString(idClock);
    HistoryRecord(
      id, Or(data.topic, ""), data.entryType, data.templateId, data.templateName,
      data.content, data.imageUrl, data.cardSpec, None, now)
  }

  /** `unshift(x)` followed by truncation to the first `Capacity` entries. */
  function PushCapped(x: HistoryRecord, s: seq<HistoryRecord>): (r: seq<HistoryRecord>)
    ensures |r| == if |s| + 1 > Capacity then Capacity else |s| + 1
    ensures r[0] == x
    ensures r[1..] <= s
  {
    if |s| + 1 > Capacity then [x] + s[..Capacity - 1] else [x] + s
  }

  /**
   * `POST`: `unshift` the new record, then keep the first 100. The new record
   * is first, the earlier records follow in their earlier order, and only the
   * oldest tail is dropped.
   */
  function Post(store: seq<HistoryRecord>, data: HistoryInput, idClock: nat, now: nat): (ex: Exchange)
    ensures |ex.store| == if |store| + 1 > Capacity then Capacity else |store| + 1
    ensures ex.store[0] == NewRecord(data, idClock, now)
    ensures ex.store[1..] <= store
    ensures ex.response == Saved(ex.store[0].id)
  {
    var record := NewRecord(data, idClock, now);
    Exchange(PushCapped(record, store), Saved(record.id))
  }

  /** Pushing a record no older than any held keeps a newest-first list newest first. */
  lemma PushCappedKeepsNewestFirst(x: HistoryRecord, s: seq<HistoryRecord>)
    requires NewestFirst(s)
    requires forall i | 0 <= i < |s| :: s[i].createdAt <= x.createdAt
    ensures NewestFirst(PushCapped(x, s))
  {
    var r := PushCapped(x, s);
    assert forall i | 1 <= i < |r| :: r[i] == s[i - 1];
  }

  /** Posting records in clock order keeps the list newest first, so a later `GET` does not reorder it. */
  lemma PostKeepsNewestFirst(store: seq<HistoryRecord>, data: HistoryInput, idClock: nat, now: nat)
    requires NewestFirst(store)
    requires forall i | 0 <= i < |store| :: store[i].createdAt <= now
    ensures NewestFirst(Post(store, data, idClock, now).store)
    ensures SortByNewest(Post(store, data, idClock, now).store) == Post(store, data, idClock, now).store
  {
    var record := NewRecord(data, idClock, now);
    PushCappedKeepsNewestFirst(record, store);
    SortKeepsOrderedStore(PushCapped(record, store));
  }

  // ---------------------------------------------------------------------------
  // DELETE: filter by id

  /** `store.filter(r => r.id !== id)`. */
  function RemoveId(store: seq<HistoryRecord>, id: string): (r: seq<HistoryRecord>)
    ensures forall x :: x in r <==> x in store && x.id != id
    ensures |r| <= |store|
  {
    if |store| == 0 then []
    else
      var rest := RemoveId(store[1..], id);
      assert forall x :: x in store <==> x == store[0] || x in store[1..] by {
        assert store == [store[0]] + store[1..];
      }
      if store[0].id == id then rest else [store[0]] + rest
  }

  /** Filtering distributes over concatenation, so the kept records stay in their relative order. */
  lemma {:induction false} RemoveIdConcat(a: seq<HistoryRecord>, b: seq<HistoryRecord>, id: string)
    ensures RemoveId(a + b, id) == RemoveId(a, id) + RemoveId(b, id)
    decreases |a|
  {
    if |a| == 0 {
      assert a + b == b;
    } else {
      var ab := a + b;
      assert ab[0] == a[0] && ab[1..] == a[1..] + b;
      RemoveIdConcat(a[1..], b, id);
      var tail := RemoveId(a[1..], id) + RemoveId(b, id);
      if a[0].id == id {
        assert RemoveId(ab, id) == tail;
      } else {
        assert RemoveId(ab, id) == [a[0]] + tail;
        assert RemoveId(a, id) == [a[0]] + RemoveId(a[1..], id);
      }
    }
  }

  /** How many records carry `id`. */
  function CountId(store: seq<HistoryRecord>, id: string): nat {
    if |store| == 0 then 0 else (if store[0].id == id then 1 else 0) + CountId(store[1..], id)
  }

  /** Exactly the records with the id are removed: the count removed is the count present. */
  lemma {:induction false} RemoveIdCount(store: seq<HistoryRecord>, id: string)
    ensures |RemoveId(store, id)| + CountId(store, id) == |store|
    decreases |store|
  {
    if |store| > 0 {
      RemoveIdCount(store[1..], id);
    }
  }

  /** `DELETE`: without an id, a 400 and the list untouched; otherwise the records with that id are gone. */
  function Delete(store: seq<HistoryRecord>, id: Option<string>): (ex: Exchange)
    ensures !Truthy(id) ==> ex == Exchange(store, Failed(400, "缺少记录ID"))
    ensures Truthy(id) ==> ex.response == Deleted
    ensures Truthy(id) ==> ex.store == RemoveId(store, id.value)
    ensures Truthy(id) ==> forall x :: x in ex.store <==> x in store && x.id != id.value
    ensures Truthy(id) ==> |ex.store| + CountId(store, id.value) == |store|
  {
    if !Truthy(id) then Exchange(store, Failed(400, "缺少记录ID"))
    else
      RemoveIdCount(store, id.value);
      Exchange(RemoveId(store, id.value), Deleted)
  }
}
