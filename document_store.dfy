/**
 * The document registry (context/DocumentStoreProvider.tsx): the in-memory
 * list of documents, loaded once from the cache, whose every write is
 * mirrored into the cache. React's state and callbacks become a class with a
 * `documents` field; each clock read is a parameter (`now` for the in-memory
 * stamp, `cacheNow` for the one the cache takes on its own), and the fresh id
 * of a new document is a parameter as well.
 */
module DocumentStore {
  import opened Wrappers
  import opened Documents
  import opened KeyValueStore
  import opened DocumentCache

  /** The document `addDocument` creates: idle, without a cloud id, stamped now. */
  function NewDocument(id: string, title: string, localPath: string, pages: int, now: int): (d: DocumentItem)
    ensures d.id == id && d.title == title && d.localPath == localPath && d.pages == pages
    ensures d.status == Idle && d.cloudId == None && d.updatedAt == now
  {
    DocumentItem(id, title, localPath, pages, now, Idle, None)
  }

  /**
   * `prev.map((doc) => (doc.id === id ? { ...doc, ...patch, updatedAt: now } : doc))`:
   * the list keeps its length, order and ids; exactly the documents with the
   * id take the patch and the new stamp.
   */
  function Patched(docs: seq<DocumentItem>, id: string, patch: DocumentPatch, now: int): (r: seq<DocumentItem>)
    ensures |r| == |docs|
    ensures IdsOf(r) == IdsOf(docs)
    ensures forall i :: 0 <= i < |docs| && docs[i].id != id ==> r[i] == docs[i]
    ensures forall i :: 0 <= i < |docs| && docs[i].id == id ==> r[i] == Stamp(docs[i], patch, now)
    ensures id !in IdsOf(docs) ==> r == docs
  {
    seq(|docs|, i requires 0 <= i < |docs| => if docs[i].id == id then Stamp(docs[i], patch, now) else docs[i])
  }

  /** `prev.filter((doc) => doc.id !== id)` */
  function WithoutDocument(docs: seq<DocumentItem>, id: string): (r: seq<DocumentItem>)
    ensures |r| <= |docs|
    ensures forall d :: d in r <==> d in docs && d.id != id
  {
    if docs == [] then []
    else if docs[0].id == id then WithoutDocument(docs[1..], id)
    else [docs[0]] + WithoutDocument(docs[1..], id)
  }

  /** The non-timestamp fields of every document in a list. */
  ghost function FieldSet(docs: seq<DocumentItem>): set<Fields> {
    set i | 0 <= i < |docs| :: FieldsOf(docs[i])
  }

  /**
   * Memory and cache agree: each side holds every id once, both hold the same
   * ids, and for each id the title, local path, page count, status and cloud id
   * are the same. Only `updatedAt` may differ, since each side stamps it with
   * its own clock read.
   */
  ghost predicate Mirrored(docs: seq<DocumentItem>, records: seq<CacheRecord>) {
    && Distinct(IdsOf(docs))
    && Distinct(RecordIds(records))
    && FieldSet(docs) == FieldSet(ItemsOf(records))
  }

  class DocumentRegistry {
    var documents: seq<DocumentItem>
    var hydrated: bool
    const store: Storage

    /** Memory has been loaded from the cache and mirrors it. */
    ghost predicate InSync()
      reads this, store
    {
      hydrated && Mirrored(documents, Read(store.entries))
    }

    constructor (store: Storage)
      ensures this.store == store
      ensures documents == [] && !hydrated
    {
      this.store := store;
      documents := [];
      hydrated := false;
    }

    /**
     * The hydration effect: memory becomes `listDocuments()` and `hydrated`
     * is set. If the cache holds each id once, memory now mirrors it.
     */
    method Hydrate()
      modifies this
      ensures documents == ItemsOf(SortByRecency(Read(store.entries)))
      ensures hydrated
      ensures Distinct(RecordIds(Read(store.entries))) ==> InSync()
    {
      var cached := ListDocuments(store);
      documents := ItemsOf(cached);
      hydrated := true;
      if Distinct(RecordIds(Read(store.entries))) {
        HydrationMirrors(Read(store.entries));
      }
    }

    /** `getDocument(id)`: the first document in memory with that id. */
    function GetDocument(id: string): (r: Option<DocumentItem>)
      reads this
      ensures r.None? <==> id !in IdsOf(documents)
      ensures r.Some? ==> r.value.id == id && r.value in documents
      ensures r.Some? ==> r.value == documents[IndexOf(IdsOf(documents), id)]
    {
      FindById(documents, id)
    }

    /**
     * `addDocument`: the new document goes in front of the unchanged list and
     * is saved to the cache. With a fresh id, memory keeps mirroring the cache.
     */
    method AddDocument(id: string, title: string, localPath: string, pages: int, now: int, cacheNow: int)
      returns (newDoc: DocumentItem)
      modifies this, store
      ensures newDoc == NewDocument(id, title, localPath, pages, now)
      ensures documents == [newDoc] + old(documents) && hydrated == old(hydrated)
      ensures store.entries == old(store.entries)[DocumentsKey := Records(Saved(old(Read(store.entries)), newDoc, cacheNow))]
      ensures old(InSync()) && id !in IdsOf(old(documents)) ==> InSync()
    {
      ghost var before := Read(store.entries);
      newDoc := NewDocument(id, title, localPath, pages, now);
      documents := [newDoc] + documents;
      var _ := SaveDocument(store, newDoc, cacheNow);
      if old(InSync()) && id !in IdsOf(old(documents)) {
        AddMirrors(old(documents), before, newDoc, cacheNow);
      }
    }

    /**
     * `updateDocument(id, patch)`: every document with the id takes the patch
     * and the stamp `now`; the cache patches its own copy. An unknown id
     * changes nothing in memory.
     */
    method UpdateDocument(id: string, patch: DocumentPatch, now: int, cacheNow: int)
      modifies this, store
      ensures documents == Patched(old(documents), id, patch, now) && hydrated == old(hydrated)
      ensures store.entries == if id in RecordIds(old(Read(store.entries)))
                               then old(store.entries)[DocumentsKey := Records(Updated(old(Read(store.entries)), id, patch, cacheNow))]
                               else old(store.entries)
      ensures old(InSync()) ==> InSync()
    {
      ghost var before := Read(store.entries);
      documents := Patched(documents, id, patch, now);
      var _ := DocumentCache.UpdateDocument(store, id, patch, cacheNow);
      if old(InSync()) {
        UpdateMirrors(old(documents), before, id, patch, now, cacheNow);
      }
    }

    /**
     * `removeDocument(id)`: every document with the id leaves memory, the rest
     * keep their order, and the cache deletes the id too.
     */
    method RemoveDocument(id: string)
      modifies this, store
      ensures documents == WithoutDocument(old(documents), id) && hydrated == old(hydrated)
      ensures store.entries == AfterDelete(old(store.entries), id)
      ensures old(InSync()) ==> InSync()
    {
      ghost var before := store.entries;
      documents := WithoutDocument(documents, id);
      var _ := DeleteDocument(store, id);
      if old(InSync()) {
        RemoveMirrors(old(documents), before, id);
      }
    }

    /**
     * `setStatus(id, status)`: only the status and the stamp of the documents
     * with the id change; any status is accepted. The cache takes the patch
     * `{ status }`.
     */
    method SetStatus(id: string, status: DocumentStatus, now: int, cacheNow: int)
      modifies this, store
      ensures |documents| == |old(documents)| && hydrated == old(hydrated)
      ensures forall i :: 0 <= i < |documents| ==>
                documents[i] == if old(documents)[i].id == id
                                then old(documents)[i].(status := status, updatedAt := now)
                                else old(documents)[i]
      ensures documents == Patched(old(documents), id, StatusPatch(status), now)
      ensures store.entries == if id in RecordIds(old(Read(store.entries)))
                               then old(store.entries)[DocumentsKey := Records(Updated(old(Read(store.entries)), id, StatusPatch(status), cacheNow))]
                               else old(store.entries)
      ensures old(InSync()) ==> InSync()
    {
      UpdateDocument(id, StatusPatch(status), now, cacheNow);
    }
  }

  // ----- Why memory keeps mirroring the cache -----

  lemma ItemsOfCons(r: CacheRecord, items: seq<CacheRecord>)
    ensures ItemsOf([r] + items) == [r.item] + ItemsOf(items)
  {
  }

  lemma FieldSetCons(d: DocumentItem, docs: seq<DocumentItem>)
    ensures FieldSet([d] + docs) == {FieldsOf(d)} + FieldSet(docs)
  {
    var s := [d] + docs;
    forall f | f in FieldSet(s) ensures f in {FieldsOf(d)} + FieldSet(docs) {
      var i :| 0 <= i < |s| && FieldsOf(s[i]) == f;
      if i > 0 {
        assert FieldsOf(docs[i - 1]) == f;
      }
    }
    forall f | f in FieldSet(docs) ensures f in FieldSet(s) {
      var i :| 0 <= i < |docs| && FieldsOf(docs[i]) == f;
      assert s[i + 1] == docs[i];
    }
    assert FieldsOf(s[0]) in FieldSet(s);
  }

  /** Under mirroring, both sides hold the same ids. */
  lemma MirroredIds(docs: seq<DocumentItem>, records: seq<CacheRecord>, id: string)
    requires Mirrored(docs, records)
    ensures id in IdsOf(docs) <==> id in RecordIds(records)
  {
    var items := ItemsOf(records);
    if id in IdsOf(docs) {
      var i :| 0 <= i < |docs| && IdsOf(docs)[i] == id;
      assert FieldsOf(docs[i]) in FieldSet(items);
      var j :| 0 <= j < |items| && FieldsOf(items[j]) == FieldsOf(docs[i]);
      assert RecordIds(records)[j] == id;
    }
    if id in RecordIds(records) {
      var j :| 0 <= j < |records| && RecordIds(records)[j] == id;
      assert FieldsOf(items[j]) in FieldSet(docs);
      var i :| 0 <= i < |docs| && FieldsOf(docs[i]) == FieldsOf(items[j]);
      assert IdsOf(docs)[i] == id;
    }
  }

  /** Under mirroring, the two copies of one id have the same fields. */
  lemma MirroredFields(docs: seq<DocumentItem>, records: seq<CacheRecord>, i: int, j: int)
    requires Mirrored(docs, records)
    requires 0 <= i < |docs| && 0 <= j < |records| && docs[i].id == records[j].item.id
    ensures FieldsOf(docs[i]) == FieldsOf(records[j].item)
  {
    var items := ItemsOf(records);
    assert FieldsOf(docs[i]) in FieldSet(items);
    var m :| 0 <= m < |items| && FieldsOf(items[m]) == FieldsOf(docs[i]);
    assert RecordIds(records)[m] == RecordIds(records)[j];
  }

  /** Replacing one document by another with the same id swaps exactly its fields in the set. */
  lemma FieldSetReplace(docs: seq<DocumentItem>, k: int, x: DocumentItem)
    requires Distinct(IdsOf(docs)) && 0 <= k < |docs| && x.id == docs[k].id
    ensures FieldSet(docs[k := x]) == FieldSet(docs) - {FieldsOf(docs[k])} + {FieldsOf(x)}
  {
    var s := docs[k := x];
    forall f | f in FieldSet(s) ensures f in FieldSet(docs) - {FieldsOf(docs[k])} + {FieldsOf(x)} {
      var i :| 0 <= i < |s| && FieldsOf(s[i]) == f;
      if i != k {
        assert IdsOf(docs)[i] != IdsOf(docs)[k];
      }
    }
    forall f | f in FieldSet(docs) - {FieldsOf(docs[k])} + {FieldsOf(x)} ensures f in FieldSet(s) {
      if f != FieldsOf(x) {
        var i :| 0 <= i < |docs| && FieldsOf(docs[i]) == f;
        assert s[i] == docs[i];
      } else {
        assert s[k] == x;
      }
    }
  }

  /** A permutation of a list that holds each id once holds each id once. */
  lemma PermutationKeepsDistinct(a: seq<CacheRecord>, b: seq<CacheRecord>)
    requires multiset(a) == multiset(b) && Distinct(RecordIds(a))
    ensures Distinct(RecordIds(b))
  {
    forall i, j | 0 <= i < j < |b| ensures RecordIds(b)[i] != RecordIds(b)[j] {
      if b[i].item.id == b[j].item.id {
        assert b[i] in multiset(a) && b[j] in multiset(a);
        var p :| 0 <= p < |a| && a[p] == b[i];
        var q :| 0 <= q < |a| && a[q] == b[j];
        assert RecordIds(a)[p] == RecordIds(a)[q];
        assert b[i] == b[j];
        TwiceCounted(b, i, j);
        OnceCounted(a, b[i]);
        assert false;
      }
    }
  }

  lemma TwiceCounted(s: seq<CacheRecord>, i: int, j: int)
    requires 0 <= i < j < |s| && s[i] == s[j]
    ensures multiset(s)[s[i]] >= 2
  {
    assert s == s[..j] + [s[j]] + s[j + 1..];
    assert s[i] in s[..j];
  }

  lemma {:induction false} OnceCounted(s: seq<CacheRecord>, x: CacheRecord)
    requires Distinct(RecordIds(s))
    ensures multiset(s)[x] <= 1
  {
    if s != [] {
      var t := s[1..];
      assert s == [s[0]] + t;
      assert Distinct(RecordIds(t)) by {
        forall i, j | 0 <= i < j < |t| ensures RecordIds(t)[i] != RecordIds(t)[j] {
          assert RecordIds(s)[i + 1] == t[i].item.id && RecordIds(s)[j + 1] == t[j].item.id;
        }
      }
      OnceCounted(t, x);
    }
  }

  /** After hydration from a cache that holds each id once, memory mirrors the cache. */
  lemma HydrationMirrors(items: seq<CacheRecord>)
    requires Distinct(RecordIds(items))
    ensures Mirrored(ItemsOf(SortByRecency(items)), items)
  {
    var sorted := SortByRecency(items);
    PermutationKeepsDistinct(items, sorted);
    assert IdsOf(ItemsOf(sorted)) == RecordIds(sorted);
    PermutationFieldsWithin(sorted, items);
    PermutationFieldsWithin(items, sorted);
  }

  /** Every field tuple of a list appears in any permutation of that list. */
  lemma PermutationFieldsWithin(a: seq<CacheRecord>, b: seq<CacheRecord>)
    requires multiset(a) == multiset(b)
    ensures FieldSet(ItemsOf(a)) <= FieldSet(ItemsOf(b))
  {
    forall f | f in FieldSet(ItemsOf(a)) ensures f in FieldSet(ItemsOf(b)) {
      var i :| 0 <= i < |a| && FieldsOf(ItemsOf(a)[i]) == f;
      assert a[i] in multiset(b);
      var j :| 0 <= j < |b| && b[j] == a[i];
      assert FieldsOf(ItemsOf(b)[j]) == f;
    }
  }

  /**
   * A restart loses nothing: hydrating again from a cache that memory mirrors
   * yields the same documents, up to order and timestamps.
   */
  lemma RehydrationAgrees(docs: seq<DocumentItem>, records: seq<CacheRecord>)
    requires Mirrored(docs, records)
    ensures Mirrored(ItemsOf(SortByRecency(records)), records)
    ensures FieldSet(ItemsOf(SortByRecency(records))) == FieldSet(docs)
  {
    HydrationMirrors(records);
  }

  /** Adding a document with a fresh id to both sides keeps them mirrored. */
  lemma AddMirrors(docs: seq<DocumentItem>, records: seq<CacheRecord>, doc: DocumentItem, cacheNow: int)
    requires Mirrored(docs, records) && doc.id !in IdsOf(docs)
    ensures Mirrored([doc] + docs, Saved(records, doc, cacheNow))
  {
    MirroredIds(docs, records, doc.id);
    SaveNewRecord(records, doc, cacheNow);
    var r := CacheRecord(doc, cacheNow);
    ItemsOfCons(r, records);
    FieldSetCons(doc, docs);
    FieldSetCons(doc, ItemsOf(records));
    var ds := [doc] + docs;
    forall i, j | 0 <= i < j < |ds| ensures IdsOf(ds)[i] != IdsOf(ds)[j] {
      if i == 0 {
        assert IdsOf(docs)[j - 1] == ds[j].id;
      } else {
        assert IdsOf(docs)[i - 1] == ds[i].id && IdsOf(docs)[j - 1] == ds[j].id;
      }
    }
    SavePreservesDistinct(records, doc, cacheNow);
  }

  /** Patching one id on both sides (each with its own stamp) keeps them mirrored. */
  lemma UpdateMirrors(docs: seq<DocumentItem>, records: seq<CacheRecord>, id: string, patch: DocumentPatch, now: int, cacheNow: int)
    requires Mirrored(docs, records)
    ensures Mirrored(Patched(docs, id, patch, now), Updated(records, id, patch, cacheNow))
  {
    MirroredIds(docs, records, id);
    UpdatePreservesDistinct(records, id, patch, cacheNow);
    if id in IdsOf(docs) {
      var k := IndexOf(IdsOf(docs), id);
      var m := IndexOf(RecordIds(records), id);
      var x := Stamp(docs[k], patch, now);
      var y := Stamp(records[m].item, patch, cacheNow);
      assert Patched(docs, id, patch, now) == docs[k := x] by {
        forall i | 0 <= i < |docs| && i != k ensures docs[i].id != id {
          assert IdsOf(docs)[i] != IdsOf(docs)[k];
        }
      }
      assert ItemsOf(Updated(records, id, patch, cacheNow)) == ItemsOf(records)[m := y];
      MirroredFields(docs, records, k, m);
      FieldSetReplace(docs, k, x);
      assert IdsOf(ItemsOf(records)) == RecordIds(records);
      FieldSetReplace(ItemsOf(records), m, y);
    }
  }

  lemma FieldSetWithout(docs: seq<DocumentItem>, id: string)
    ensures FieldSet(WithoutDocument(docs, id)) == set f | f in FieldSet(docs) && f.id != id
  {
    var w := WithoutDocument(docs, id);
    forall f | f in FieldSet(w) ensures f in FieldSet(docs) && f.id != id {
      var i :| 0 <= i < |w| && FieldsOf(w[i]) == f;
      assert w[i] in docs;
      var j :| 0 <= j < |docs| && docs[j] == w[i];
    }
    forall f | f in FieldSet(docs) && f.id != id ensures f in FieldSet(w) {
      var j :| 0 <= j < |docs| && FieldsOf(docs[j]) == f;
      assert docs[j] in w;
      var i :| 0 <= i < |w| && w[i] == docs[j];
    }
  }

  lemma {:induction false} ItemsOfWithout(records: seq<CacheRecord>, id: string)
    ensures ItemsOf(WithoutRecord(records, id)) == WithoutDocument(ItemsOf(records), id)
  {
    if records != [] {
      ItemsOfWithout(records[1..], id);
      assert ItemsOf(records)[1..] == ItemsOf(records[1..]);
      if records[0].item.id != id {
        ItemsOfCons(records[0], WithoutRecord(records[1..], id));
      }
    }
  }

  /** Removing an id from both sides keeps them mirrored. */
  lemma RemoveMirrors(docs: seq<DocumentItem>, entries: map<string, Stored>, id: string)
    requires Mirrored(docs, Read(entries))
    ensures Mirrored(WithoutDocument(docs, id), Read(AfterDelete(entries, id)))
  {
    var records := Read(entries);
    MirroredIds(docs, records, id);
    if id in RecordIds(records) {
      DeletePresent(entries, id);
      DeletePreservesDistinct(records, id);
      ItemsOfWithout(records, id);
      FieldSetWithout(docs, id);
      FieldSetWithout(ItemsOf(records), id);
      WithoutDocumentKeepsDistinct(docs, id);
    } else {
      DeleteAbsent(entries, id);
      WithoutAbsentDocument(docs, id);
    }
  }

  lemma {:induction false} WithoutAbsentDocument(docs: seq<DocumentItem>, id: string)
    requires id !in IdsOf(docs)
    ensures WithoutDocument(docs, id) == docs
  {
    if docs != [] {
      var rest := docs[1..];
      assert IdsOf(docs)[0] == docs[0].id;
      forall k | 0 <= k < |rest| ensures IdsOf(rest)[k] != id {
        assert IdsOf(docs)[k + 1] == rest[k].id;
      }
      WithoutAbsentDocument(rest, id);
      assert docs == [docs[0]] + rest;
    }
  }

  /** The filter keeps the surviving documents in their original order. */
  lemma {:induction false} WithoutDocumentKeepsOrder(a: seq<DocumentItem>, b: seq<DocumentItem>, id: string)
    ensures WithoutDocument(a + b, id) == WithoutDocument(a, id) + WithoutDocument(b, id)
  {
    if a == [] {
      assert a + b == b;
    } else {
      assert (a + b)[0] == a[0] && (a + b)[1..] == a[1..] + b;
      WithoutDocumentKeepsOrder(a[1..], b, id);
    }
  }

  /** A document in front of a list keeps ids distinct exactly when its id is new. */
  lemma DistinctDocsCons(d: DocumentItem, docs: seq<DocumentItem>)
    ensures Distinct(IdsOf([d] + docs)) <==> d.id !in IdsOf(docs) && Distinct(IdsOf(docs))
  {
    assert IdsOf([d] + docs) == [d.id] + IdsOf(docs);
    DistinctCons(d.id, IdsOf(docs));
  }

  /** Every id left after the filter was already in the list. */
  lemma WithoutDocumentIds(docs: seq<DocumentItem>, id: string, x: string)
    requires x in IdsOf(WithoutDocument(docs, id))
    ensures x in IdsOf(docs)
  {
    var tail := WithoutDocument(docs, id);
    var i :| 0 <= i < |tail| && tail[i].id == x;
    assert tail[i] in docs;
    var m :| 0 <= m < |docs| && docs[m] == tail[i];
    assert IdsOf(docs)[m] == x;
  }

  lemma {:induction false} WithoutDocumentKeepsDistinct(docs: seq<DocumentItem>, id: string)
    requires Distinct(IdsOf(docs))
    ensures Distinct(IdsOf(WithoutDocument(docs, id)))
  {
    if docs != [] {
      var rest := docs[1..];
      assert docs == [docs[0]] + rest;
      DistinctDocsCons(docs[0], rest);
      WithoutDocumentKeepsDistinct(rest, id);
      if docs[0].id != id {
        var tail := WithoutDocument(rest, id);
        if docs[0].id in IdsOf(tail) {
          WithoutDocumentIds(rest, id, docs[0].id);
        }
        DistinctDocsCons(docs[0], tail);
      }
    }
  }
}
