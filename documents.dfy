/**
 * The document record shared by the in-memory registry and the persistent
 * cache (`DocumentItem` and `DocumentCacheRecord`), the patch that both merge
 * into a record, and small lookups over lists of records.
 */
module Documents {
  import opened Wrappers

  datatype DocumentStatus = Idle | Processing | Synced | Syncing | Error

  /** One scanned document as the registry holds it. */
  datatype DocumentItem = DocumentItem(
    id: string,
    title: string,
    localPath: string,
    pages: int,
    updatedAt: int,
    status: DocumentStatus,
    cloudId: Option<string>)

  /** A document as the cache stores it: the item plus the time it was first saved. */
  datatype CacheRecord = CacheRecord(item: DocumentItem, createdAt: int)

  /**
   * `Partial<Omit<DocumentItem, 'id'>>`: every field a patch may set. A patch
   * can never change `id`, and both places that merge a patch overwrite
   * `updatedAt` with the clock afterwards, so it carries no `updatedAt`.
   */
  datatype DocumentPatch = DocumentPatch(
    title: Option<string>,
    localPath: Option<string>,
    pages: Option<int>,
    status: Option<DocumentStatus>,
    cloudId: Option<string>)

  /** The patch `{ status }` that `setStatus` sends. */
  function StatusPatch(status: DocumentStatus): DocumentPatch {
    DocumentPatch(None, None, None, Some(status), None)
  }

  function Pick<T>(patched: Option<T>, current: T): T {
    match patched
    case Some(v) => v
    case None => current
  }

  /** `{ ...doc, ...patch, updatedAt: now }` */
  function Stamp(doc: DocumentItem, patch: DocumentPatch, now: int): (r: DocumentItem)
    ensures r.id == doc.id && r.updatedAt == now
    ensures r.title == Pick(patch.title, doc.title)
    ensures r.localPath == Pick(patch.localPath, doc.localPath)
    ensures r.pages == Pick(patch.pages, doc.pages)
    ensures r.status == Pick(patch.status, doc.status)
    ensures r.cloudId == (if patch.cloudId.Some? then patch.cloudId else doc.cloudId)
  {
    DocumentItem(
      doc.id,
      Pick(patch.title, doc.title),
      Pick(patch.localPath, doc.localPath),
      Pick(patch.pages, doc.pages),
      now,
      Pick(patch.status, doc.status),
      if patch.cloudId.Some? then patch.cloudId else doc.cloudId)
  }

  /** Everything about a document except its timestamp. */
  datatype Fields = Fields(
    id: string,
    title: string,
    localPath: string,
    pages: int,
    status: DocumentStatus,
    cloudId: Option<string>)

  function FieldsOf(doc: DocumentItem): Fields {
    Fields(doc.id, doc.title, doc.localPath, doc.pages, doc.status, doc.cloudId)
  }

  function IdsOf(docs: seq<DocumentItem>): (r: seq<string>)
    ensures |r| == |docs| && forall i :: 0 <= i < |docs| ==> r[i] == docs[i].id
  {
    seq(|docs|, i requires 0 <= i < |docs| => docs[i].id)
  }

  /** The documents held by a list of cache records, in the same order. */
  function ItemsOf(items: seq<CacheRecord>): (r: seq<DocumentItem>)
    ensures |r| == |items| && forall i :: 0 <= i < |items| ==> r[i] == items[i].item
  {
    seq(|items|, i requires 0 <= i < |items| => items[i].item)
  }

  /** The ids of a list of cache records: the ids of the documents they hold. */
  function RecordIds(items: seq<CacheRecord>): (r: seq<string>)
    ensures |r| == |items| && forall i :: 0 <= i < |items| ==> r[i] == items[i].item.id
  {
    IdsOf(ItemsOf(items))
  }

  ghost predicate Distinct(ids: seq<string>) {
    forall i, j :: 0 <= i < j < |ids| ==> ids[i] != ids[j]
  }

  /** An id in front of a list keeps the ids distinct exactly when it is new. */
  lemma DistinctCons(x: string, ids: seq<string>)
    ensures Distinct([x] + ids) <==> x !in ids && Distinct(ids)
  {
    var s := [x] + ids;
    if Distinct(s) {
      forall i, j | 0 <= i < j < |ids| ensures ids[i] != ids[j] {
        assert s[i + 1] == ids[i] && s[j + 1] == ids[j];
      }
      forall m | 0 <= m < |ids| ensures ids[m] != x {
        assert s[0] == x && s[m + 1] == ids[m];
      }
    }
    if x !in ids && Distinct(ids) {
      forall i, j | 0 <= i < j < |s| ensures s[i] != s[j] {
        if i == 0 {
          assert s[j] == ids[j - 1];
        } else {
          assert s[i] == ids[i - 1] && s[j] == ids[j - 1];
        }
      }
    }
  }

  /** `findIndex` on ids: the first position holding `id`, or -1. */
  function IndexOf(ids: seq<string>, id: string): (r: int)
    ensures -1 <= r < |ids|
    ensures r == -1 <==> id !in ids
    ensures r >= 0 ==> ids[r] == id && id !in ids[..r]
  {
    if |ids| == 0 then -1
    else if ids[0] == id then 0
    else
      var k := IndexOf(ids[1..], id);
      if k == -1 then -1
      else
        assert ids[..k + 1] == [ids[0]] + ids[1..][..k];
        k + 1
  }

  /** `documents.find((doc) => doc.id === id)`: the first document with that id. */
  function FindById(docs: seq<DocumentItem>, id: string): (r: Option<DocumentItem>)
    ensures r.None? <==> forall i :: 0 <= i < |docs| ==> docs[i].id != id
    ensures r.Some? ==> exists i :: 0 <= i < |docs| && docs[i] == r.value && r.value.id == id
                                   && forall j :: 0 <= j < i ==> docs[j].id != id
  {
    var k := IndexOf(IdsOf(docs), id);
    if k == -1 then None
    else
      assert forall j :: 0 <= j < k ==> IdsOf(docs)[..k][j] == docs[j].id;
      Some(docs[k])
  }
}
