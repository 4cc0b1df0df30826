# ScanMate local-first document store and sync queue, in Dafny

This project models the local-first core of the ScanMate scanning app and
proves properties of the model.

- **Document cache** (`document_cache.dfy`, over `kv_store.dfy`). One list of
  cache records is stored under the storage key `documents`. A missing key, an
  unparsable value or a non-array value reads as the empty list. `listDocuments`
  returns the records newest first. `saveDocument` inserts or replaces a record
  and keeps its `createdAt`. `updateDocument` merges a patch and restamps the
  record. `deleteDocument` filters the id out and removes the key when nothing
  is left.
- **Document registry** (`document_store.dfy`). This is the in-memory list,
  loaded once from the cache. Its add, update, setStatus and remove operations
  update the list and mirror each write into the cache. The key invariant
  (`Mirrored`) says that memory and cache hold the same ids, each once, with the
  same title, local path, page count, status and cloud id. Only `updatedAt` can
  differ, because each side reads its own clock.
- **Sync task queue** (`sync_queue.dfy`). A FIFO of tasks, deduplicated by task
  id. One atomic `Tick` is one run of the queue effect: the is-running and
  anonymous guards, the head task's remote call, then the head is removed on
  success or kept for a retry on failure. The backend is an oracle: each remote
  call succeeds or fails, and the tick returns the call it made.
- **Cloud-sync glue** (`cloud_sync.dfy`). A signed-in `enqueue` queues
  `upload-<documentId>` and marks the document `syncing`. `restoreFromCloud`
  marks every document `synced`.
- **Page reorder** (`page_reorder.dfy`). The initial page items and the
  splice-based `move(from, to)`.
- **Ad gating** (`ads.dfy`). Consent, the ad-free flag, the placement switches,
  and the `shouldShow` predicate.

Clock reads (`Date.now()`), the fresh document id and the remote results are
parameters. Each stamping write (add, update, setStatus) reads the clock twice:
once for the in-memory stamp (`now`) and once inside the cache function
(`cacheNow`). Update and setStatus use `cacheNow` as the cached `updatedAt`.
Add uses it only as the `createdAt` of a new record. The model keeps both
reads. As a result, a document added with `cacheNow > now` has a cached
`createdAt` later than its `updatedAt`.

## Notes on what the code does

- `setStatus` accepts any status. There is no transition machine, and nothing
  ties `synced` to a cloud id.
- The queue never writes `synced`, `error` or a `cloudId` back into the
  registry. A failed task only shows up as the queue's `error` state during
  that run, followed by `idle`.
- `resolve_conflict` compares no timestamps, although its comment
  (lib/sync/queue.ts:29) says it prefers the newest `updatedAt`. If the
  document still exists, it marks the remote row `synced`.
- `download_doc` does nothing and counts as a success.
- The queue has no `drain`.
- After hydration, memory holds the records newest first (by `updatedAt`), not
  in insertion order.
- `isAnonymous` comes from the auth context (context/AuthProvider.tsx), whose
  value has no such field. At runtime it is therefore `undefined`, which is
  falsy. So `isEnabled` (context/CloudSyncProvider.tsx:48) is always true,
  even with no user signed in, when `enqueue` and `restoreFromCloud` do
  nothing. The queue's anonymous guard (lib/sync/queue.ts:57) never fires
  either. The model keeps `isAnonymous` as a boolean input;
  `EnabledMatchesGuard` states the no-user case.
- A failed head task is not retried by itself. The queue effect re-runs only
  when `isAnonymous` or the queue changes (lib/sync/queue.ts:75), and a failed
  run never calls `setQueue`. A duplicate enqueue returns the same list
  (lib/sync/queue.ts:26), so enqueueing the same document again does not
  re-run the effect either. Only a new task with a different id, or a change
  of `isAnonymous`, starts the retry that `RetryUntilSuccess` describes.

## Model

| member | source | states |
|---|---|---|
| Documents.Stamp | context/DocumentStoreProvider.tsx:67 | a patched record keeps its id, takes each field the patch sets, keeps the others, and gets `updatedAt = now` |
| Documents.IndexOf | lib/storage/documentCache.ts:34 | `findIndex` by id: -1 exactly when no record has the id, otherwise the first index that has it |
| Documents.FindById | context/DocumentStoreProvider.tsx:44-47 | `find` by id: none exactly when no document has the id, otherwise the first document with it |
| Documents.StatusPatch | context/DocumentStoreProvider.tsx:84 | the patch `{ status }` that `setStatus` passes on: it sets the status and nothing else |
| KeyValueStore.GetString | lib/storage/mmkv.ts:18-25 | the stored value when the key is present, the fallback when it is absent |
| KeyValueStore.Storage.SetString | lib/storage/mmkv.ts:27-29 | the key maps to the new value and every other entry is unchanged |
| KeyValueStore.Storage.RemoveKey | lib/storage/mmkv.ts:31-33 | exactly that key is gone |
| DocumentCache.Read | lib/storage/documentCache.ts:10-21 | a missing key, an unparsable value or a non-array value reads as the empty list; a stored array reads as itself |
| DocumentCache.InsertByRecency | lib/storage/documentCache.ts:29 | inserting one record adds exactly that record (multiset) and keeps a newest-first list newest first |
| DocumentCache.SortByRecency | lib/storage/documentCache.ts:29 | the sort returns a permutation (same multiset) ordered by non-increasing `updatedAt` |
| DocumentCache.WriteCache | lib/storage/documentCache.ts:23-25 | the `documents` key holds the given list and other keys are untouched |
| DocumentCache.ListDocuments | lib/storage/documentCache.ts:27-30 | the result is a permutation of the stored records, newest first, and the store is not written |
| DocumentCache.SavedRecord | lib/storage/documentCache.ts:34-38 | the saved record holds the document; its `createdAt` is `now` for an unknown id, otherwise that of a record with the id |
| DocumentCache.Saved | lib/storage/documentCache.ts:34-44 | the list `saveDocument` writes: the same length for a known id, the saved record in front of the unchanged list for an unknown one, and the saved record is in it |
| DocumentCache.SaveDocument | lib/storage/documentCache.ts:32-48 | the store holds the insert-or-replace list under `documents`; the returned record carries the kept or new `createdAt` |
| DocumentCache.UpdateDocument | lib/storage/documentCache.ts:50-66 | an unknown id returns none and leaves every entry untouched; a known id returns the patched record and writes the list with it in place |
| DocumentCache.UpdatedRecord | lib/storage/documentCache.ts:58-62 | the merged record keeps its id and `createdAt` and is stamped `updatedAt = now` |
| DocumentCache.Updated | lib/storage/documentCache.ts:55-63 | the list `updateDocument` writes keeps its length and its ids in order, and is unchanged for an unknown id |
| DocumentCache.WithoutRecord | lib/storage/documentCache.ts:70 | the filter keeps exactly the records whose id differs |
| DocumentCache.AfterDelete | lib/storage/documentCache.ts:69-76 | the entries after `deleteDocument`: keys other than `documents` are untouched, and no stored record has the id any more |
| DocumentCache.SameLengthMeansAbsent | lib/storage/documentCache.ts:70-71 | when the filter removes nothing, no record had the id, so the `false` result is exact |
| DocumentCache.WithoutDropsId | lib/storage/documentCache.ts:70 | no record with the id survives the filter |
| DocumentCache.DeleteDocument | lib/storage/documentCache.ts:68-78 | returns true exactly when some record had the id; the store becomes the post-delete entries |
| DocumentCache.IndexOfFirst | lib/storage/documentCache.ts:34 | `findIndex` lands on the first record holding the id |
| DocumentCache.SaveNewRecord | lib/storage/documentCache.ts:35-44 | saving an unknown id prepends exactly one record with `createdAt = now`, and the count grows by one |
| DocumentCache.SaveExistingRecord | lib/storage/documentCache.ts:34-42 | saving a known id replaces its first record at the same index with the original `createdAt`; the count and all other records are unchanged |
| DocumentCache.SaveIdempotent | lib/storage/documentCache.ts:32-48 | saving the same document twice, at any clock, stores the same list as saving it once |
| DocumentCache.UpdateKnownRecord | lib/storage/documentCache.ts:55-64 | a known id's first record takes the patch and `updatedAt = now`, keeping id, `createdAt` and index; other records are unchanged |
| DocumentCache.WithoutAbsentId | lib/storage/documentCache.ts:70-71 | filtering out an id nobody holds returns the same list |
| DocumentCache.WithoutPresentIdShrinks | lib/storage/documentCache.ts:70-71 | filtering out a present id makes the list strictly shorter |
| DocumentCache.WithoutKeepsOrder | lib/storage/documentCache.ts:70 | the filter keeps the survivors in order (it distributes over concatenation) |
| DocumentCache.DeleteAbsent | lib/storage/documentCache.ts:68-71 | deleting an absent id leaves every entry untouched |
| DocumentCache.DeletePresent | lib/storage/documentCache.ts:68-78 | deleting a present id leaves exactly the other records; when none remain the key is gone and reads are empty; other keys are untouched |
| DocumentCache.SavePreservesDistinct | lib/storage/documentCache.ts:34-44 | insert-or-replace never creates a second record with the same id |
| DocumentCache.UpdatePreservesDistinct | lib/storage/documentCache.ts:58-64 | patching keeps the cached ids distinct |
| DocumentCache.DeletePreservesDistinct | lib/storage/documentCache.ts:70-75 | deleting keeps the cached ids distinct |
| DocumentStore.NewDocument | context/DocumentStoreProvider.tsx:50-56 | a new document has the given id, title, local path and pages, status idle, no cloud id, and `updatedAt = now` |
| DocumentStore.Patched | context/DocumentStoreProvider.tsx:67 | the map keeps length, order and ids, patches and stamps exactly the documents with the id, and leaves the list unchanged for an unknown id |
| DocumentStore.WithoutDocument | context/DocumentStoreProvider.tsx:75 | the filter keeps exactly the documents whose id differs |
| DocumentStore.DocumentRegistry.constructor | context/DocumentStoreProvider.tsx:35-36 | the registry starts empty and not hydrated |
| DocumentStore.DocumentRegistry.Hydrate | context/DocumentStoreProvider.tsx:38-42 | memory becomes `listDocuments()` and `hydrated` is true; a cache with distinct ids is then mirrored |
| DocumentStore.DocumentRegistry.GetDocument | context/DocumentStoreProvider.tsx:44-47 | none exactly when no document has the id, otherwise the first document with it |
| DocumentStore.DocumentRegistry.AddDocument | context/DocumentStoreProvider.tsx:49-63 | the new document is idle without a cloud id and sits in front of the unchanged list; the cache saves it; with a fresh id the mirror invariant is kept |
| DocumentStore.DocumentRegistry.UpdateDocument | context/DocumentStoreProvider.tsx:65-71 | memory is the patched map; the cache patches the id or stays untouched; the mirror invariant is kept |
| DocumentStore.DocumentRegistry.RemoveDocument | context/DocumentStoreProvider.tsx:73-79 | memory is the filtered list; the cache deletes the id; the mirror invariant is kept |
| DocumentStore.DocumentRegistry.SetStatus | context/DocumentStoreProvider.tsx:81-87 | only status and `updatedAt` of the documents with the id change, whatever the status; the cache takes `{ status }`; the mirror invariant is kept |
| DocumentStore.MirroredIds | context/DocumentStoreProvider.tsx:38-87 | under the mirror invariant an id is in memory exactly when it is in the cache |
| DocumentStore.MirroredFields | context/DocumentStoreProvider.tsx:38-87 | under the mirror invariant the memory and cache copies of one id have equal non-timestamp fields |
| DocumentStore.HydrationMirrors | context/DocumentStoreProvider.tsx:38-42 | hydrating from a cache with distinct ids establishes the mirror invariant |
| DocumentStore.RehydrationAgrees | context/DocumentStoreProvider.tsx:38-42 | hydrating again from a mirrored cache yields the same documents up to order and timestamps |
| DocumentStore.AddMirrors | context/DocumentStoreProvider.tsx:57-60 | prepending a fresh-id document in memory and saving it to the cache keeps them mirrored |
| DocumentStore.UpdateMirrors | context/DocumentStoreProvider.tsx:65-87 | patching one id in memory and in the cache, each side with its own stamp, keeps them mirrored (covers update and setStatus) |
| DocumentStore.RemoveMirrors | context/DocumentStoreProvider.tsx:73-79 | filtering an id from memory and deleting it from the cache keeps them mirrored, including when the key is removed |
| DocumentStore.ItemsOfWithout | context/DocumentStoreProvider.tsx:75-76 | the registry's filter and the cache's filter remove the same documents |
| DocumentStore.WithoutAbsentDocument | context/DocumentStoreProvider.tsx:75 | removing an unknown id leaves memory unchanged |
| DocumentStore.WithoutDocumentKeepsOrder | context/DocumentStoreProvider.tsx:75 | the remaining documents keep their order |
| DocumentStore.WithoutDocumentKeepsDistinct | context/DocumentStoreProvider.tsx:75 | removal keeps memory ids distinct |
| SyncQueue.Enqueued | lib/sync/queue.ts:25-27 | a task whose id is queued leaves the queue unchanged, any other task is appended at the tail, and the id is queued afterwards |
| SyncQueue.UserIdOf | lib/sync/queue.ts:44 | `task.payload?.userId`: absent when there is no payload |
| SyncQueue.ResolveConflictCall | lib/sync/queue.ts:30-35 | no call when the document is gone, otherwise an update marking the remote row synced, with no timestamp comparison |
| SyncQueue.ProcessTask | lib/sync/queue.ts:37-53 | download makes no call; a missing document makes no call; an upload sends the local record's id, title and pages as `page_count`, the payload's userId and status `completed` |
| SyncQueue.Starts | lib/sync/queue.ts:57-58 | a run gets past its guards exactly when nothing is running, the user is not anonymous and the queue is not empty |
| SyncQueue.Ticked | lib/sync/queue.ts:56-72 | a guarded run (running, anonymous, empty queue) changes nothing; a started run ends idle and not running, drops exactly the head on success and keeps the queue on failure |
| SyncQueue.TaskQueue.constructor | lib/sync/queue.ts:21-23 | the queue starts empty and idle, not running |
| SyncQueue.TaskQueue.Enqueue | lib/sync/queue.ts:25-27 | the queue becomes the deduplicated append; state and flag are unchanged; ids stay distinct |
| SyncQueue.TaskQueue.Tick | lib/sync/queue.ts:56-72 | the new state, the call sent and the states passed through are those of one run; ids stay distinct |
| SyncQueue.EnqueueKeepsDistinct | lib/sync/queue.ts:26 | task ids in the queue stay pairwise distinct |
| SyncQueue.EnqueueIdempotent | lib/sync/queue.ts:26 | enqueueing the same task twice equals enqueueing it once |
| SyncQueue.DistinctTail | lib/sync/queue.ts:62-64 | dropping the head keeps task ids distinct |
| SyncQueue.RetryUntilSuccess | lib/sync/queue.ts:62-68 | with a head that makes a remote call, n failures then one success leave exactly the tail, and every run sends the same call |
| CloudSync.UploadTask | context/CloudSyncProvider.tsx:25-30 | the task has id `upload-` + documentId, kind upload_doc and payload `{userId}` |
| CloudSync.SignedIn | context/CloudSyncProvider.tsx:24 | signed in means not anonymous and a user present: exactly when the early-return guard of `enqueue` (and of `restoreFromCloud`, line 37) lets the call through |
| CloudSync.IsEnabled | context/CloudSyncProvider.tsx:48 | `isEnabled` is exactly `!isAnonymous`, whatever the user |
| CloudSync.CloudSyncProvider.Enqueue | context/CloudSyncProvider.tsx:22-34 | without a signed-in user nothing changes; otherwise the upload task is enqueued, every document with the id is `syncing` even when the task was a duplicate, and the cache patches that id to `syncing` (or is untouched when it has no such record); upload tasks stay keyed by their document |
| CloudSync.CloudSyncProvider.RestoreFromCloud | context/CloudSyncProvider.tsx:36-40 | without a signed-in user nothing changes; otherwise every document becomes synced with only `updatedAt` also changed, and the mirror invariant is kept |
| CloudSync.SyncedStep | context/CloudSyncProvider.tsx:39 | each `setStatus(doc.id, 'synced')` of the loop extends the synced prefix by one document |
| CloudSync.UploadKeyInjective | context/CloudSyncProvider.tsx:26 | equal upload keys mean the same document |
| CloudSync.RepeatedUploadIsDropped | context/CloudSyncProvider.tsx:26 | a second enqueue of one document, for any user, leaves the queue as the first left it |
| CloudSync.AtMostOneUpload | context/CloudSyncProvider.tsx:25-30 | in a queue of distinct task ids whose upload tasks are keyed by their document, one document has at most one upload task |
| CloudSync.EnqueueKeepsUploadKeyed | context/CloudSyncProvider.tsx:25-30 | queueing `upload-<documentId>` keeps every upload task keyed by its own document |
| CloudSync.UploadKeyedAfterTick | lib/sync/queue.ts:56-72 | a run of the queue keeps every upload task keyed by its own document, so `AtMostOneUpload` keeps holding |
| CloudSync.EnabledMatchesGuard | context/CloudSyncProvider.tsx:24-48 | signed in implies enabled; with a user present `isEnabled` is exactly the guard of `enqueue`; with no user the guard refuses while `isEnabled` is `!isAnonymous` |
| PageReorder.NatToString | features/pdf/PageReorderScreen.tsx:11 | the decimal text is non-empty and one digit long exactly for numbers below ten |
| PageReorder.NatToStringInjective | features/pdf/PageReorderScreen.tsx:11 | different indexes give different id strings |
| PageReorder.InitialPages | features/pdf/PageReorderScreen.tsx:10-11 | one item per uri in the given order with id `i`, none without a pages parameter |
| PageReorder.InitialIdsDistinct | features/pdf/PageReorderScreen.tsx:11 | the initial ids "0".."n-1" are pairwise distinct |
| PageReorder.RemoveAt | features/pdf/PageReorderScreen.tsx:16 | `splice(from, 1)`: the items before `from` stay, the items after it move down by one, and the list is one shorter |
| PageReorder.InsertAt | features/pdf/PageReorderScreen.tsx:17 | `splice(to, 0, item)`: the item lands at `to`, the items before it stay, the items from `to` on move up by one, and the list is one longer |
| PageReorder.Moved | features/pdf/PageReorderScreen.tsx:15-18 | the list `move(from, to)` returns: the same length, with the moved item at `to` |
| PageReorder.Move | features/pdf/PageReorderScreen.tsx:13-20 | for in-range indexes the result is a permutation, the moved item is at `to`, and the others keep their relative order |
| PageReorder.MovedProperties | features/pdf/PageReorderScreen.tsx:13-20 | the same four facts about the moved list, for use in other proofs |
| PageReorder.MoveInPlace | features/pdf/PageReorderScreen.tsx:16-17 | `move(i, i)` is the identity |
| PageReorder.MoveBack | features/pdf/PageReorderScreen.tsx:16-17 | moving an item and moving it back restores the list |
| PageReorder.UpThenDown | features/pdf/PageReorderScreen.tsx:31-34 | Up on item i and then Down on the same item restores the list |
| PageReorder.UpEnabled | features/pdf/PageReorderScreen.tsx:31 | Up is enabled on every row but the first |
| PageReorder.DownEnabled | features/pdf/PageReorderScreen.tsx:34 | Down is enabled on every row but the last |
| PageReorder.ButtonsStayInRange | features/pdf/PageReorderScreen.tsx:31-34 | enabled Up and Down buttons only call `move` with in-range indexes |
| Ads.ShouldShow | context/AdsProvider.tsx:33-36 | false when ad-free, false when consent is denied, otherwise exactly the placement's switch |
| Ads.AdsProvider.constructor | context/AdsProvider.tsx:16-27 | consent unknown, not ad-free, all three placements on, so every placement shows |
| Ads.AdsProvider.SetConsent | context/AdsProvider.tsx:25 | consent takes the value and nothing else changes |
| Ads.AdsProvider.EnableAdFree | context/AdsProvider.tsx:29-31 | `isAdFree` takes the value and nothing else changes |
| Ads.AdsProvider.RecordImpression | context/AdsProvider.tsx:38-41 | a placement with a value keeps the map unchanged; a missing one is switched on |
| Ads.DefaultsShowEverywhere | context/AdsProvider.tsx:16-20 | every placement is on in the defaults, so with unknown consent and no ad-free flag it shows |

## Left out

- JSON serialisation: the stored value is modelled as its parse result (a record list, a non-array value or unparsable text). MMKV read exceptions (the `catch` in `getString`) and encryption are not modelled.
- Concurrency and scheduling: React effect re-triggering, the 2-second delay after a failure, `console.warn`, and the stale snapshot in `setQueue(rest)` (a task enqueued during an in-flight run can be lost). Each run of the queue effect is one atomic `Tick`.
- SyncQueue.TaskQueue.Tick: because ticks are atomic, no reachable state leaves `isRunning` set, so the running guard only ever fires for a state built by hand.
- Clock, ids and randomness: `Date.now()`, `crypto.randomUUID` and `Math.random` are inputs. The mirror invariant is proved for adds with a fresh id, which the code does not guarantee.
- Documents.DocumentPatch: a patch carries no `updatedAt` (both merges overwrite it) and cannot clear `cloudId` or set a field to `undefined` explicitly.
- DocumentStore.DocumentRegistry.Hydrate: the hydrated records still carry `createdAt` at runtime; the model drops it, since nothing in memory reads it.
- DocumentCache.SortByRecency: the sort's stability is not stated, only that it is a permutation ordered newest first.
- CloudSync.CloudSyncProvider.RestoreFromCloud: the cache side is stated only through the mirror invariant, and every `setStatus` call in the loop reads the same clock values.
- Backend client (lib/supabase/client.ts): `createDocument` and `updateDocument` are a fallible oracle. Their responses are ignored by the code, and so by the model. `new Date().toISOString()` is modelled as an integer timestamp.
- PageReorder.InitialPages: `JSON.parse` of malformed `pages` text throws, and so does `.map` on a parsed value that is not an array. The model takes the parameter as an optional list of uris and does not model those throws.
- PageReorder.Move: JavaScript `splice` semantics for out-of-range or negative indexes are not modelled. The buttons only pass in-range indexes (`ButtonsStayInRange`).
- Page reorder screen rendering and `saveOrder` (navigation only); ad analytics hooks; the ad SDK wrappers; the auth provider, whose `isAnonymous` and `user` are inputs here.
- Page counts are unbounded integers; nothing enforces that they are positive, and the code does not either.
