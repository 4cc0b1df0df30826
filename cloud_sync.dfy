/**
 * The cloud-sync glue (context/CloudSyncProvider.tsx): it queues an upload
 * for a document and marks the document as syncing, and it can mark every
 * document as synced. The signed-in account is an input: `isAnonymous` and
 * the optional `user`.
 */
module CloudSync {
  import opened Wrappers
  import opened Documents
  import opened KeyValueStore
  import opened DocumentCache
  import opened DocumentStore
  import opened SyncQueue

  datatype AuthUser = AuthUser(id: string)

  const UploadPrefix := "upload-"

  /** The task `enqueue(documentId)` queues; its id, the dedup key, depends on the document id alone. */
  function UploadTask(documentId: string, userId: string): (t: SyncTask)
    ensures t.id == UploadPrefix + documentId && t.kind == UploadDoc && t.documentId == documentId
    ensures t.payload == Some(TaskPayload(Some(userId)))
  {
    SyncTask(UploadPrefix + documentId, UploadDoc, documentId, Some(TaskPayload(Some(userId))))
  }

  /** The guard `isAnonymous || !user` fails: sync acts only for a signed-in account. */
  predicate SignedIn(isAnonymous: bool, user: Option<AuthUser>) {
    !isAnonymous && user.Some?
  }

  /** `isEnabled` */
  function IsEnabled(isAnonymous: bool): bool {
    !isAnonymous
  }

  /** Every document synced and stamped `now`, nothing else changed. */
  function AllSynced(docs: seq<DocumentItem>, now: int): (r: seq<DocumentItem>)
    ensures |r| == |docs|
    ensures forall i :: 0 <= i < |docs| ==> r[i] == docs[i].(status := Synced, updatedAt := now)
  {
    seq(|docs|, i requires 0 <= i < |docs| => docs[i].(status := Synced, updatedAt := now))
  }

  /** The list after `setStatus(doc.id, 'synced')` has run for the first `k` documents of `snapshot`. */
  function SyncedUpTo(snapshot: seq<DocumentItem>, k: nat, now: int): (r: seq<DocumentItem>)
    requires k <= |snapshot|
    ensures |r| == |snapshot|
  {
    seq(|snapshot|, i requires 0 <= i < |snapshot| =>
      if snapshot[i].id in IdsOf(snapshot[..k]) then snapshot[i].(status := Synced, updatedAt := now) else snapshot[i])
  }

  class CloudSyncProvider {
    const registry: DocumentRegistry
    const syncQueue: TaskQueue

    constructor (registry: DocumentRegistry, syncQueue: TaskQueue)
      ensures this.registry == registry && this.syncQueue == syncQueue
    {
      this.registry := registry;
      this.syncQueue := syncQueue;
    }

    /**
     * `enqueue(documentId)`: nothing without a signed-in account; otherwise the
     * upload task is queued (dropped when its key is already queued) and the
     * document is marked syncing either way.
     */
    method Enqueue(documentId: string, isAnonymous: bool, user: Option<AuthUser>, now: int, cacheNow: int)
      modifies registry, registry.store, syncQueue
      ensures !SignedIn(isAnonymous, user) ==>
                && syncQueue.queue == old(syncQueue.queue)
                && registry.documents == old(registry.documents)
                && registry.store.entries == old(registry.store.entries)
      ensures SignedIn(isAnonymous, user) ==>
                && syncQueue.queue == Enqueued(old(syncQueue.queue), UploadTask(documentId, user.value.id))
                && registry.documents == Patched(old(registry.documents), documentId, StatusPatch(Syncing), now)
                && (forall i :: 0 <= i < |registry.documents| && registry.documents[i].id == documentId ==>
                      registry.documents[i].status == Syncing)
                && registry.store.entries ==
                     if documentId in RecordIds(old(Read(registry.store.entries))) then
                       old(registry.store.entries)[DocumentsKey :=
                         Records(Updated(old(Read(registry.store.entries)), documentId, StatusPatch(Syncing), cacheNow))]
                     else old(registry.store.entries)
      ensures syncQueue.state == old(syncQueue.state) && syncQueue.isRunning == old(syncQueue.isRunning)
      ensures registry.hydrated == old(registry.hydrated)
      ensures old(registry.InSync()) ==> registry.InSync()
      ensures old(syncQueue.Valid()) ==> syncQueue.Valid()
      ensures old(UploadKeyed(syncQueue.queue)) ==> UploadKeyed(syncQueue.queue)
    {
      if isAnonymous || user.None? {
        return;
      }
      if UploadKeyed(syncQueue.queue) {
        EnqueueKeepsUploadKeyed(syncQueue.queue, documentId, user.value.id);
      }
      syncQueue.Enqueue(UploadTask(documentId, user.value.id));
      registry.SetStatus(documentId, Syncing, now, cacheNow);
    }

    /**
     * `restoreFromCloud`: nothing without a signed-in account; otherwise
     * `setStatus(doc.id, 'synced')` for each document of the current list, so
     * every document ends synced and only status and timestamps change.
     * Every call reads the same clock values.
     */
    method RestoreFromCloud(isAnonymous: bool, user: Option<AuthUser>, now: int, cacheNow: int)
      modifies registry, registry.store
      ensures !SignedIn(isAnonymous, user) ==>
                registry.documents == old(registry.documents) && registry.store.entries == old(registry.store.entries)
      ensures SignedIn(isAnonymous, user) ==> registry.documents == AllSynced(old(registry.documents), now)
      ensures registry.hydrated == old(registry.hydrated)
      ensures old(registry.InSync()) ==> registry.InSync()
    {
      if isAnonymous || user.None? {
        return;
      }
      var snapshot := registry.documents;
      var i := 0;
      while i < |snapshot|
        invariant 0 <= i <= |snapshot|
        invariant registry.documents == SyncedUpTo(snapshot, i, now)
        invariant registry.hydrated == old(registry.hydrated)
        invariant old(registry.InSync()) ==> registry.InSync()
      {
        SyncedStep(snapshot, i, now);
        registry.SetStatus(snapshot[i].id, Synced, now, cacheNow);
        i := i + 1;
      }
      assert snapshot[..i] == snapshot;
    }
  }

  // ----- Properties of the glue -----

  /** Setting the next document's status to synced extends the synced prefix by one. */
  lemma SyncedStep(snapshot: seq<DocumentItem>, k: nat, now: int)
    requires k < |snapshot|
    ensures Patched(SyncedUpTo(snapshot, k, now), snapshot[k].id, StatusPatch(Synced), now) == SyncedUpTo(snapshot, k + 1, now)
  {
    assert snapshot[..k + 1] == snapshot[..k] + [snapshot[k]];
    assert IdsOf(snapshot[..k + 1]) == IdsOf(snapshot[..k]) + [snapshot[k].id];
  }

  /** The dedup key tells documents apart: equal keys mean the same document. */
  lemma UploadKeyInjective(a: string, b: string, u: string, v: string)
    requires UploadTask(a, u).id == UploadTask(b, v).id
    ensures a == b
  {
    var p := UploadPrefix;
    assert (p + a)[|p|..] == a && (p + b)[|p|..] == b;
  }

  /**
   * Enqueueing a document again, for whatever user, leaves the queue as the
   * first enqueue left it: one document never has two upload tasks.
   */
  lemma RepeatedUploadIsDropped(queue: seq<SyncTask>, documentId: string, u: string, v: string)
    ensures Enqueued(Enqueued(queue, UploadTask(documentId, u)), UploadTask(documentId, v))
            == Enqueued(queue, UploadTask(documentId, u))
  {
  }

  /**
   * Every upload task in the queue is keyed by its own document:
   * its id is `upload-` followed by its document id.
   */
  ghost predicate UploadKeyed(queue: seq<SyncTask>) {
    forall k :: 0 <= k < |queue| && queue[k].kind == UploadDoc ==> queue[k].id == UploadPrefix + queue[k].documentId
  }

  /** Queueing an upload for a document keeps every upload task keyed by its document. */
  lemma EnqueueKeepsUploadKeyed(queue: seq<SyncTask>, documentId: string, userId: string)
    requires UploadKeyed(queue)
    ensures UploadKeyed(Enqueued(queue, UploadTask(documentId, userId)))
  {
    var t := UploadTask(documentId, userId);
    var r := Enqueued(queue, t);
    if t.id !in TaskIds(queue) {
      forall k | 0 <= k < |r| && r[k].kind == UploadDoc ensures r[k].id == UploadPrefix + r[k].documentId {
        if k < |queue| {
          assert r[k] == queue[k];
        } else {
          assert r[k] == t;
        }
      }
    }
  }

  /** A run of the queue only ever drops its head, so upload tasks stay keyed by their document. */
  lemma UploadKeyedAfterTick(s: QueueState, isAnonymous: bool, documents: seq<DocumentItem>, now: int, remoteOk: bool)
    requires UploadKeyed(s.queue)
    ensures UploadKeyed(Ticked(s, isAnonymous, documents, now, remoteOk).after.queue)
  {
  }

  /**
   * In a queue of distinct task ids whose upload tasks are keyed by their
   * document, one document has at most one upload task.
   */
  lemma AtMostOneUpload(queue: seq<SyncTask>, i: int, j: int)
    requires Distinct(TaskIds(queue)) && UploadKeyed(queue)
    requires 0 <= i < |queue| && 0 <= j < |queue|
    requires queue[i].kind == UploadDoc && queue[j].kind == UploadDoc
    requires queue[i].documentId == queue[j].documentId
    ensures i == j
  {
    assert TaskIds(queue)[i] == TaskIds(queue)[j];
  }

  /**
   * `isEnabled` is `!isAnonymous` alone: it agrees with the guard of `enqueue`
   * and `restoreFromCloud` when a user is present, but with no user it is
   * true while both operations do nothing.
   */
  lemma EnabledMatchesGuard(isAnonymous: bool, user: Option<AuthUser>)
    ensures SignedIn(isAnonymous, user) ==> IsEnabled(isAnonymous)
    ensures user.Some? ==> (IsEnabled(isAnonymous) <==> SignedIn(isAnonymous, user))
    ensures user.None? ==> !SignedIn(isAnonymous, user) && (IsEnabled(isAnonymous) <==> !isAnonymous)
  {
  }
}
