/**
 * The persistent document cache (lib/storage/documentCache.ts): one list of
 * cache records kept under the key `documents`. Every operation parses the
 * stored list afresh. A save, or an update that finds its id, writes the whole
 * changed list back. A delete that finds its id writes the remaining list back,
 * or removes the key when nothing remains. Reads, and updates or deletes of an
 * unknown id, write nothing.
 * The clock (`Date.now()`) is the parameter `now`.
 */
module DocumentCache {
  import opened Wrappers
  import opened Documents
  import opened KeyValueStore

  const DocumentsKey := "documents"

  /**
   * `parseCache`: what a read of the cache yields. A missing key falls back to
   * the text `[]`; a value that does not parse, or parses to something other
   * than an array, also reads as the empty list. Reading never fails.
   */
  function Read(entries: map<string, Stored>): (r: seq<CacheRecord>)
    ensures DocumentsKey !in entries ==> r == []
    ensures DocumentsKey in entries && !entries[DocumentsKey].Records? ==> r == []
    ensures DocumentsKey in entries && entries[DocumentsKey].Records? ==> r == entries[DocumentsKey].items
  {
    var raw := GetString(entries, DocumentsKey, Records([]));
    if raw.Records? then raw.items else []
  }

  /** Newest first: `updatedAt` never increases along the list. */
  ghost predicate NewestFirst(s: seq<CacheRecord>) {
    forall i, j :: 0 <= i < j < |s| ==> s[i].item.updatedAt >= s[j].item.updatedAt
  }

  /** One step of a stable insertion sort by descending `updatedAt`. */
  function InsertByRecency(x: CacheRecord, s: seq<CacheRecord>): (r: seq<CacheRecord>)
    ensures |r| == |s| + 1
    ensures multiset(r) == multiset(s) + multiset{x}
    ensures r[0] == x || (|s| > 0 && r[0] == s[0])
    ensures NewestFirst(s) ==> NewestFirst(r)
  {
    if s == [] then [x]
    else if x.item.updatedAt >= s[0].item.updatedAt then
      NewestFirstCons(x, s);
      [x] + s
    else
      assert s == [s[0]] + s[1..];
      NewestFirstTail(s);
      var rest := InsertByRecency(x, s[1..]);
      NewestFirstCons(s[0], rest);
      [s[0]] + rest
  }

  /** The tail of a newest-first list is newest first, and its head is no newer than the list's head. */
  lemma NewestFirstTail(s: seq<CacheRecord>)
    requires |s| > 0
    ensures NewestFirst(s) ==> NewestFirst(s[1..]) && (|s| > 1 ==> s[0].item.updatedAt >= s[1].item.updatedAt)
  {
    if NewestFirst(s) {
      var t := s[1..];
      forall i, j | 0 <= i < j < |t| ensures t[i].item.updatedAt >= t[j].item.updatedAt {
        assert t[i] == s[i + 1] && t[j] == s[j + 1];
      }
    }
  }

  /** A record no older than the head of a newest-first list can go in front of it. */
  lemma NewestFirstCons(y: CacheRecord, t: seq<CacheRecord>)
    ensures NewestFirst(t) && (|t| > 0 ==> y.item.updatedAt >= t[0].item.updatedAt) ==> NewestFirst([y] + t)
  {
    if NewestFirst(t) && (|t| > 0 ==> y.item.updatedAt >= t[0].item.updatedAt) {
      var r := [y] + t;
      forall i, j | 0 <= i < j < |r| ensures r[i].item.updatedAt >= r[j].item.updatedAt {
        if i == 0 {
          assert r[j] == t[j - 1];
        } else {
          assert r[i] == t[i - 1] && r[j] == t[j - 1];
        }
      }
    }
  }

  /** `items.sort((a, b) => b.updatedAt - a.updatedAt)`: JavaScript's stable sort, newest first. */
  function SortByRecency(items: seq<CacheRecord>): (r: seq<CacheRecord>)
    ensures |r| == |items|
    ensures multiset(r) == multiset(items)
    ensures NewestFirst(r)
  {
    if items == [] then []
    else
      assert items == [items[0]] + items[1..];
      InsertByRecency(items[0], SortByRecency(items[1..]))
  }

  /** `writeCache(items)`: overwrite the stored list. */
  method WriteCache(store: Storage, items: seq<CacheRecord>)
    modifies store
    ensures store.entries == old(store.entries)[DocumentsKey := Records(items)]
  {
    store.SetString(DocumentsKey, Records(items));
  }

  /**
   * `listDocuments`: the stored records, newest first. The sort works on the
   * parsed copy only, so the store is not written.
   */
  method ListDocuments(store: Storage) returns (docs: seq<CacheRecord>)
    ensures docs == SortByRecency(Read(store.entries))
    ensures multiset(docs) == multiset(Read(store.entries))
    ensures NewestFirst(docs)
  {
    var items := Read(store.entries);
    docs := SortByRecency(items);
  }

  /** The record `saveDocument` stores: the document, with the `createdAt` of the first record holding its id, or `now`. */
  function SavedRecord(items: seq<CacheRecord>, doc: DocumentItem, now: int): (r: CacheRecord)
    ensures r.item == doc
    ensures doc.id !in RecordIds(items) ==> r.createdAt == now
    ensures doc.id in RecordIds(items) ==>
              exists k :: 0 <= k < |items| && items[k].item.id == doc.id && r.createdAt == items[k].createdAt
  {
    var k := IndexOf(RecordIds(items), doc.id);
    CacheRecord(doc, if k >= 0 then items[k].createdAt else now)
  }

  /** The list `saveDocument` writes: the first record with the id replaced in place, or the new record in front. */
  function Saved(items: seq<CacheRecord>, doc: DocumentItem, now: int): (r: seq<CacheRecord>)
    ensures doc.id in RecordIds(items) ==> |r| == |items|
    ensures doc.id !in RecordIds(items) ==> |r| == |items| + 1 && r[1..] == items
    ensures SavedRecord(items, doc, now) in r
  {
    var k := IndexOf(RecordIds(items), doc.id);
    var record := SavedRecord(items, doc, now);
    if k >= 0 then
      assert items[k := record][k] == record;
      items[k := record]
    else
      assert ([record] + items)[0] == record;
      [record] + items
  }

  /** `saveDocument(doc)`: insert or replace, keeping the original `createdAt`. */
  method SaveDocument(store: Storage, doc: DocumentItem, now: int) returns (record: CacheRecord)
    modifies store
    ensures record == SavedRecord(old(Read(store.entries)), doc, now)
    ensures store.entries == old(store.entries)[DocumentsKey := Records(Saved(old(Read(store.entries)), doc, now))]
  {
    var items := Read(store.entries);
    var existingIndex := IndexOf(RecordIds(items), doc.id);
    record := CacheRecord(doc, if existingIndex >= 0 then items[existingIndex].createdAt else now);
    if existingIndex >= 0 {
      items := items[existingIndex := record];
    } else {
      items := [record] + items;
    }
    WriteCache(store, items);
  }

  /** The record `updateDocument` writes at index `k`: the patch merged in and `updatedAt` set to `now`. */
  function UpdatedRecord(rec: CacheRecord, patch: DocumentPatch, now: int): (r: CacheRecord)
    ensures r.item.id == rec.item.id && r.createdAt == rec.createdAt && r.item.updatedAt == now
  {
    CacheRecord(Stamp(rec.item, patch, now), rec.createdAt)
  }

  /** The list `updateDocument` writes: the first record with the id patched in place; unchanged for an unknown id. */
  function Updated(items: seq<CacheRecord>, id: string, patch: DocumentPatch, now: int): (r: seq<CacheRecord>)
    ensures |r| == |items| && RecordIds(r) == RecordIds(items)
    ensures id !in RecordIds(items) ==> r == items
  {
    var k := IndexOf(RecordIds(items), id);
    if k >= 0 then items[k := UpdatedRecord(items[k], patch, now)] else items
  }

  /** `updateDocument(id, patch)`: `None` and no write for an unknown id. */
  method UpdateDocument(store: Storage, id: string, patch: DocumentPatch, now: int) returns (r: Option<CacheRecord>)
    modifies store
    ensures r.None? <==> id !in RecordIds(old(Read(store.entries)))
    ensures r.None? ==> store.entries == old(store.entries)
    ensures r.Some? ==> r.value == UpdatedRecord(old(Read(store.entries))[IndexOf(RecordIds(old(Read(store.entries))), id)], patch, now)
    ensures r.Some? ==> store.entries == old(store.entries)[DocumentsKey := Records(Updated(old(Read(store.entries)), id, patch, now))]
  {
    var items := Read(store.entries);
    var idx := IndexOf(RecordIds(items), id);
    if idx == -1 {
      return None;
    }
    var updated := UpdatedRecord(items[idx], patch, now);
    items := items[idx := updated];
    WriteCache(store, items);
    r := Some(updated);
  }

  /** `items.filter((item) => item.id !== id)` */
  function WithoutRecord(items: seq<CacheRecord>, id: string): (r: seq<CacheRecord>)
    ensures |r| <= |items|
    ensures forall x :: x in r <==> x in items && x.item.id != id
  {
    if items == [] then []
    else if items[0].item.id == id then WithoutRecord(items[1..], id)
    else [items[0]] + WithoutRecord(items[1..], id)
  }

  /** The key-value entries after `deleteDocument(id)`. */
  function AfterDelete(entries: map<string, Stored>, id: string): (r: map<string, Stored>)
    ensures forall k :: k != DocumentsKey ==> (k in r <==> k in entries)
    ensures forall k :: k != DocumentsKey && k in entries ==> r[k] == entries[k]
    ensures id !in RecordIds(Read(r))
  {
    var items := Read(entries);
    var next := WithoutRecord(items, id);
    SameLengthMeansAbsent(items, id);
    WithoutDropsId(items, id);
    if |next| == |items| then entries
    else if |next| == 0 then entries - {DocumentsKey}
    else entries[DocumentsKey := Records(next)]
  }

  /**
   * `deleteDocument(id)`: false and no write when nothing has the id;
   * otherwise the remaining records are written back, or the key is removed
   * when none remain.
   */
  method DeleteDocument(store: Storage, id: string) returns (removed: bool)
    modifies store
    ensures store.entries == AfterDelete(old(store.entries), id)
    ensures removed <==> id in RecordIds(old(Read(store.entries)))
  {
    var items := Read(store.entries);
    var next := WithoutRecord(items, id);
    if |next| == |items| {
      if id in RecordIds(items) {
        WithoutPresentIdShrinks(items, id);
      }
      return false;
    }
    if id !in RecordIds(items) {
      WithoutAbsentId(items, id);
    }
    if |next| == 0 {
      store.RemoveKey(DocumentsKey);
    } else {
      WriteCache(store, next);
    }
    return true;
  }

  // ----- Properties of the cache operations -----

  /** `findIndex` finds the first record that holds the id. */
  lemma IndexOfFirst(ids: seq<string>, id: string, i: int)
    requires 0 <= i < |ids| && ids[i] == id
    requires forall j :: 0 <= j < i ==> ids[j] != id
    ensures IndexOf(ids, id) == i
  {
  }

  /** Saving a document whose id is not cached puts exactly one new record, created now, in front. */
  lemma SaveNewRecord(items: seq<CacheRecord>, doc: DocumentItem, now: int)
    requires doc.id !in RecordIds(items)
    ensures Saved(items, doc, now) == [CacheRecord(doc, now)] + items
    ensures |Saved(items, doc, now)| == |items| + 1
  {
  }

  /**
   * Saving a document whose id is cached at index `i` (its first occurrence)
   * replaces that record in place and keeps its `createdAt`; every other
   * record and the count stay the same.
   */
  lemma SaveExistingRecord(items: seq<CacheRecord>, doc: DocumentItem, now: int, i: int)
    requires 0 <= i < |items| && items[i].item.id == doc.id
    requires forall j :: 0 <= j < i ==> items[j].item.id != doc.id
    ensures |Saved(items, doc, now)| == |items|
    ensures Saved(items, doc, now)[i] == CacheRecord(doc, items[i].createdAt)
    ensures forall j :: 0 <= j < |items| && j != i ==> Saved(items, doc, now)[j] == items[j]
  {
    IndexOfFirst(RecordIds(items), doc.id, i);
  }

  /** Saving the same document twice stores the same list as saving it once, whatever the clock says the second time. */
  lemma SaveIdempotent(items: seq<CacheRecord>, doc: DocumentItem, now: int, later: int)
    ensures Saved(Saved(items, doc, now), doc, later) == Saved(items, doc, now)
  {
    var once := Saved(items, doc, now);
    var k := IndexOf(RecordIds(items), doc.id);
    if k >= 0 {
      forall j | 0 <= j < k ensures once[j].item.id != doc.id {
        assert RecordIds(items)[..k][j] == items[j].item.id;
      }
      IndexOfFirst(RecordIds(once), doc.id, k);
    } else {
      IndexOfFirst(RecordIds(once), doc.id, 0);
    }
  }

  /**
   * Updating the record first holding `id` at index `i` merges the patch,
   * sets `updatedAt` to now, keeps `id`, `createdAt` and the index, and
   * leaves every other record alone.
   */
  lemma UpdateKnownRecord(items: seq<CacheRecord>, id: string, patch: DocumentPatch, now: int, i: int)
    requires 0 <= i < |items| && items[i].item.id == id
    requires forall j :: 0 <= j < i ==> items[j].item.id != id
    ensures |Updated(items, id, patch, now)| == |items|
    ensures Updated(items, id, patch, now)[i] == CacheRecord(Stamp(items[i].item, patch, now), items[i].createdAt)
    ensures Updated(items, id, patch, now)[i].item.id == id
    ensures Updated(items, id, patch, now)[i].item.updatedAt == now
    ensures forall j :: 0 <= j < |items| && j != i ==> Updated(items, id, patch, now)[j] == items[j]
  {
    IndexOfFirst(RecordIds(items), id, i);
  }

  /** Filtering out an id that no record holds changes nothing. */
  lemma WithoutAbsentId(items: seq<CacheRecord>, id: string)
    requires id !in RecordIds(items)
    ensures WithoutRecord(items, id) == items
  {
    forall x | x in items ensures x.item.id != id {
      var k :| 0 <= k < |items| && items[k] == x;
      assert RecordIds(items)[k] == x.item.id;
    }
    WithoutNoneMatching(items, id);
  }

  lemma {:induction false} WithoutNoneMatching(items: seq<CacheRecord>, id: string)
    requires forall x :: x in items ==> x.item.id != id
    ensures WithoutRecord(items, id) == items
  {
    if items != [] {
      var rest := items[1..];
      assert items == [items[0]] + rest;
      assert items[0] in items;
      WithoutNoneMatching(rest, id);
    }
  }

  /** A filter that removes nothing found no record with the id. */
  lemma SameLengthMeansAbsent(items: seq<CacheRecord>, id: string)
    ensures |WithoutRecord(items, id)| == |items| ==> id !in RecordIds(items)
  {
    if id in RecordIds(items) {
      WithoutPresentIdShrinks(items, id);
    }
  }

  /** No record with the id survives the filter. */
  lemma WithoutDropsId(items: seq<CacheRecord>, id: string)
    ensures id !in RecordIds(WithoutRecord(items, id))
  {
    var next := WithoutRecord(items, id);
    forall k | 0 <= k < |next| ensures RecordIds(next)[k] != id {
      assert next[k] in next;
    }
  }

  /** Filtering out an id that some record holds makes the list shorter. */
  lemma {:induction false} WithoutPresentIdShrinks(items: seq<CacheRecord>, id: string)
    requires id in RecordIds(items)
    ensures |WithoutRecord(items, id)| < |items|
  {
    assert RecordIds(items) == [items[0].item.id] + RecordIds(items[1..]);
    if items[0].item.id != id {
      WithoutPresentIdShrinks(items[1..], id);
    }
  }

  /** The filter keeps the surviving records in their original order: it distributes over concatenation. */
  lemma {:induction false} WithoutKeepsOrder(a: seq<CacheRecord>, b: seq<CacheRecord>, id: string)
    ensures WithoutRecord(a + b, id) == WithoutRecord(a, id) + WithoutRecord(b, id)
  {
    if a == [] {
      assert a + b == b;
    } else {
      assert (a + b)[0] == a[0] && (a + b)[1..] == a[1..] + b;
      WithoutKeepsOrder(a[1..], b, id);
    }
  }

  /** Deleting an id nobody holds leaves the store untouched. */
  lemma DeleteAbsent(entries: map<string, Stored>, id: string)
    requires id !in RecordIds(Read(entries))
    ensures AfterDelete(entries, id) == entries
  {
    WithoutAbsentId(Read(entries), id);
  }

  /**
   * Deleting a cached id leaves exactly the other records, in order, under the
   * key; when none remain the key is gone and a later read is empty. No other
   * key changes.
   */
  lemma DeletePresent(entries: map<string, Stored>, id: string)
    requires id in RecordIds(Read(entries))
    ensures Read(AfterDelete(entries, id)) == WithoutRecord(Read(entries), id)
    ensures forall x :: x in Read(AfterDelete(entries, id)) <==> x in Read(entries) && x.item.id != id
    ensures WithoutRecord(Read(entries), id) == [] ==> DocumentsKey !in AfterDelete(entries, id)
    ensures forall key :: key != DocumentsKey ==> (key in entries <==> key in AfterDelete(entries, id))
    ensures forall key :: key != DocumentsKey && key in entries ==> AfterDelete(entries, id)[key] == entries[key]
  {
    WithoutPresentIdShrinks(Read(entries), id);
  }

  /** Saving never creates a second record with the same id. */
  lemma SavePreservesDistinct(items: seq<CacheRecord>, doc: DocumentItem, now: int)
    requires Distinct(RecordIds(items))
    ensures Distinct(RecordIds(Saved(items, doc, now)))
  {
    var k := IndexOf(RecordIds(items), doc.id);
    var r := Saved(items, doc, now);
    if k < 0 {
      forall i, j | 0 <= i < j < |r| ensures RecordIds(r)[i] != RecordIds(r)[j] {
        if i == 0 {
          assert RecordIds(items)[j - 1] == items[j - 1].item.id;
        } else {
          assert RecordIds(items)[i - 1] == r[i].item.id && RecordIds(items)[j - 1] == r[j].item.id;
        }
      }
    } else {
      forall i, j | 0 <= i < j < |r| ensures RecordIds(r)[i] != RecordIds(r)[j] {
        assert RecordIds(items)[i] == items[i].item.id && RecordIds(items)[j] == items[j].item.id;
      }
    }
  }

  /** Updating never changes an id, so ids stay distinct. */
  lemma UpdatePreservesDistinct(items: seq<CacheRecord>, id: string, patch: DocumentPatch, now: int)
    requires Distinct(RecordIds(items))
    ensures Distinct(RecordIds(Updated(items, id, patch, now)))
  {
    var r := Updated(items, id, patch, now);
    forall i, j | 0 <= i < j < |r| ensures RecordIds(r)[i] != RecordIds(r)[j] {
      assert RecordIds(items)[i] == items[i].item.id && RecordIds(items)[j] == items[j].item.id;
    }
  }

  /** A record in front of a list keeps ids distinct exactly when its id is new. */
  lemma DistinctRecordsCons(r: CacheRecord, items: seq<CacheRecord>)
    ensures Distinct(RecordIds([r] + items)) <==> r.item.id !in RecordIds(items) && Distinct(RecordIds(items))
  {
    assert RecordIds([r] + items) == [r.item.id] + RecordIds(items);
    DistinctCons(r.item.id, RecordIds(items));
  }

  /** Every id left after the filter was already in the list. */
  lemma WithoutRecordIds(items: seq<CacheRecord>, id: string, x: string)
    requires x in RecordIds(WithoutRecord(items, id))
    ensures x in RecordIds(items)
  {
    var tail := WithoutRecord(items, id);
    var i :| 0 <= i < |tail| && tail[i].item.id == x;
    assert tail[i] in items;
    var m :| 0 <= m < |items| && items[m] == tail[i];
    assert RecordIds(items)[m] == x;
  }

  /** Deleting keeps ids distinct. */
  lemma {:induction false} DeletePreservesDistinct(items: seq<CacheRecord>, id: string)
    requires Distinct(RecordIds(items))
    ensures Distinct(RecordIds(WithoutRecord(items, id)))
  {
    if items != [] {
      var rest := items[1..];
      assert items == [items[0]] + rest;
      DistinctRecordsCons(items[0], rest);
      DeletePreservesDistinct(rest, id);
      if items[0].item.id != id {
        var tail := WithoutRecord(rest, id);
        if items[0].item.id in RecordIds(tail) {
          WithoutRecordIds(rest, id, items[0].item.id);
        }
        DistinctRecordsCons(items[0], tail);
      }
    }
  }
}
