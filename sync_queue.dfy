/**
 * The sync task queue (lib/sync/queue.ts): a FIFO of tasks, deduplicated by
 * task id, drained one task per run. Each run of the effect is one atomic
 * `Tick`; the remote backend is an oracle that makes each remote call succeed
 * or fail (`remoteOk`), and each tick reports the call it made. The 2-second
 * back-off after a failure is left out.
 */
module SyncQueue {
  import opened Wrappers
  import Documents

  datatype TaskKind = UploadDoc | DownloadDoc | ResolveConflict

  /** The part of `payload` the queue reads: `payload?.userId`. */
  datatype TaskPayload = TaskPayload(userId: Option<string>)

  datatype SyncTask = SyncTask(id: string, kind: TaskKind, documentId: string, payload: Option<TaskPayload>)

  datatype SyncState = Idle | Running | Error

  /** The value sent to the backend as the document's status by each call. */
  const RemoteCompleted := "completed"
  const RemoteSynced := "synced"

  /** A call into the backend client, with what it is sent. */
  datatype RemoteCall =
    | CreateDocument(id: string, title: string, userId: Option<string>, pageCount: int, status: string)
    | UpdateDocument(documentId: string, status: string, updatedAt: int)

  function TaskIds(queue: seq<SyncTask>): (r: seq<string>)
    ensures |r| == |queue| && forall i :: 0 <= i < |queue| ==> r[i] == queue[i].id
  {
    seq(|queue|, i requires 0 <= i < |queue| => queue[i].id)
  }

  /** `enqueue(task)`: unchanged when a task with the same id is queued, else appended at the tail. */
  function Enqueued(queue: seq<SyncTask>, task: SyncTask): (r: seq<SyncTask>)
    ensures task.id in TaskIds(queue) ==> r == queue
    ensures task.id !in TaskIds(queue) ==> r == queue + [task]
    ensures task.id in TaskIds(r)
  {
    if task.id in TaskIds(queue) then queue
    else
      assert TaskIds(queue + [task])[|queue|] == task.id;
      queue + [task]
  }

  function UserIdOf(task: SyncTask): Option<string> {
    if task.payload.Some? then task.payload.value.userId else None
  }

  /**
   * `resolveConflict`: no call when the document is gone; otherwise the
   * remote record is marked synced. Timestamps are not compared.
   */
  function ResolveConflictCall(task: SyncTask, documents: seq<Documents.DocumentItem>, now: int): (r: Option<RemoteCall>)
    ensures r.None? <==> Documents.FindById(documents, task.documentId).None?
    ensures r.Some? ==> r.value == UpdateDocument(task.documentId, RemoteSynced, now)
  {
    if Documents.FindById(documents, task.documentId).None? then None
    else Some(UpdateDocument(task.documentId, RemoteSynced, now))
  }

  /**
   * `processTask`: the remote call a task makes, or `None` when it returns
   * without one (a download, or a document no longer in the registry).
   */
  function ProcessTask(task: SyncTask, documents: seq<Documents.DocumentItem>, now: int): (r: Option<RemoteCall>)
    ensures task.kind == DownloadDoc ==> r.None?
    ensures Documents.FindById(documents, task.documentId).None? ==> r.None?
    ensures task.kind == UploadDoc && Documents.FindById(documents, task.documentId).Some? ==>
              var local := Documents.FindById(documents, task.documentId).value;
              local.id == task.documentId &&
              r == Some(CreateDocument(local.id, local.title, UserIdOf(task), local.pages, RemoteCompleted))
    ensures task.kind == ResolveConflict && Documents.FindById(documents, task.documentId).Some? ==>
              r == Some(UpdateDocument(task.documentId, RemoteSynced, now))
  {
    match task.kind
    case UploadDoc =>
      (match Documents.FindById(documents, task.documentId)
       case None => None
       case Some(local) => Some(CreateDocument(local.id, local.title, UserIdOf(task), local.pages, RemoteCompleted)))
    case ResolveConflict => ResolveConflictCall(task, documents, now)
    case DownloadDoc => None
  }

  datatype QueueState = QueueState(queue: seq<SyncTask>, state: SyncState, isRunning: bool)

  /** What one run leaves behind, the call it made and the states it passed through. */
  datatype TickOutcome = TickOutcome(after: QueueState, sent: Option<RemoteCall>, trace: seq<SyncState>)

  /** A run gets past its guards: nothing is running, the user is signed in and the queue is not empty. */
  predicate Starts(s: QueueState, isAnonymous: bool) {
    !s.isRunning && !isAnonymous && |s.queue| > 0
  }

  /**
   * One run of the queue effect. A guarded run changes nothing; otherwise the
   * head is processed and removed only when it succeeds (a task that makes no
   * remote call succeeds), a failure leaves the queue as it was for a retry,
   * and every run that starts ends idle with the running flag cleared.
   */
  function Ticked(s: QueueState, isAnonymous: bool, documents: seq<Documents.DocumentItem>, now: int, remoteOk: bool): (o: TickOutcome)
    ensures !Starts(s, isAnonymous) ==> o == TickOutcome(s, None, [])
    ensures Starts(s, isAnonymous) ==> !o.after.isRunning && o.after.state == Idle
    ensures Starts(s, isAnonymous) ==> o.sent == ProcessTask(s.queue[0], documents, now)
    ensures Starts(s, isAnonymous) && (o.sent.None? || remoteOk) ==>
              o.after.queue == s.queue[1..] && o.trace == [Running, Idle]
    ensures Starts(s, isAnonymous) && o.sent.Some? && !remoteOk ==>
              o.after.queue == s.queue && o.trace == [Running, Error, Idle]
  {
    if !Starts(s, isAnonymous) then TickOutcome(s, None, [])
    else
      var sent := ProcessTask(s.queue[0], documents, now);
      if sent.None? || remoteOk then TickOutcome(QueueState(s.queue[1..], Idle, false), sent, [Running, Idle])
      else TickOutcome(QueueState(s.queue, Idle, false), sent, [Running, Error, Idle])
  }

  class TaskQueue {
    var queue: seq<SyncTask>
    var state: SyncState
    var isRunning: bool

    function Snapshot(): QueueState
      reads this
    {
      QueueState(queue, state, isRunning)
    }

    /** Task ids in the queue are pairwise distinct. */
    ghost predicate Valid()
      reads this
    {
      Documents.Distinct(TaskIds(queue))
    }

    constructor ()
      ensures queue == [] && state == Idle && !isRunning
      ensures Valid()
    {
      queue := [];
      state := Idle;
      isRunning := false;
    }

    method Enqueue(task: SyncTask)
      modifies this
      ensures queue == Enqueued(old(queue), task)
      ensures state == old(state) && isRunning == old(isRunning)
      ensures old(Valid()) ==> Valid()
    {
      if old(Valid()) {
        EnqueueKeepsDistinct(queue, task);
      }
      if task.id !in TaskIds(queue) {
        queue := queue + [task];
      }
    }

    /**
     * `run`: the guards, then the running flag and state, the head task's
     * remote call, the queue update on success or the error state on failure,
     * and finally the flag cleared and the state back to idle.
     */
    method Tick(isAnonymous: bool, documents: seq<Documents.DocumentItem>, now: int, remoteOk: bool)
      returns (sent: Option<RemoteCall>, trace: seq<SyncState>)
      modifies this
      ensures TickOutcome(Snapshot(), sent, trace) == Ticked(old(Snapshot()), isAnonymous, documents, now, remoteOk)
      ensures old(Valid()) ==> Valid()
    {
      sent, trace := None, [];
      if isRunning || isAnonymous {
        return;
      }
      if |queue| == 0 {
        return;
      }
      isRunning := true;
      state := Running;
      trace := trace + [state];
      var task, rest := queue[0], queue[1..];
      sent := ProcessTask(task, documents, now);
      if sent.None? || remoteOk {
        queue := rest;
        if old(Valid()) {
          DistinctTail(old(queue));
        }
      } else {
        state := Error;
        trace := trace + [state];
      }
      isRunning := false;
      state := Idle;
      trace := trace + [state];
    }
  }

  // ----- Properties of the queue -----

  /** Enqueueing keeps task ids pairwise distinct. */
  lemma EnqueueKeepsDistinct(queue: seq<SyncTask>, task: SyncTask)
    requires Documents.Distinct(TaskIds(queue))
    ensures Documents.Distinct(TaskIds(Enqueued(queue, task)))
  {
    if task.id !in TaskIds(queue) {
      var r := queue + [task];
      forall i, j | 0 <= i < j < |r| ensures TaskIds(r)[i] != TaskIds(r)[j] {
        assert TaskIds(queue)[i] == r[i].id;
        if j < |queue| {
          assert TaskIds(queue)[j] == r[j].id;
        }
      }
    }
  }

  /** Enqueueing the same task twice is the same as enqueueing it once. */
  lemma EnqueueIdempotent(queue: seq<SyncTask>, task: SyncTask)
    ensures Enqueued(Enqueued(queue, task), task) == Enqueued(queue, task)
  {
  }

  lemma DistinctTail(queue: seq<SyncTask>)
    requires |queue| > 0 && Documents.Distinct(TaskIds(queue))
    ensures Documents.Distinct(TaskIds(queue[1..]))
  {
    var rest := queue[1..];
    forall i, j | 0 <= i < j < |rest| ensures TaskIds(rest)[i] != TaskIds(rest)[j] {
      assert TaskIds(queue)[i + 1] == rest[i].id && TaskIds(queue)[j + 1] == rest[j].id;
    }
  }

  /** Runs the queue once per remote outcome, in order, with the same inputs otherwise. */
  function TickAll(s: QueueState, isAnonymous: bool, documents: seq<Documents.DocumentItem>, now: int, outcomes: seq<bool>): QueueState
    decreases |outcomes|
  {
    if outcomes == [] then s
    else TickAll(Ticked(s, isAnonymous, documents, now, outcomes[0]).after, isAnonymous, documents, now, outcomes[1..])
  }

  /** The calls those runs make, in order. */
  function SentAll(s: QueueState, isAnonymous: bool, documents: seq<Documents.DocumentItem>, now: int, outcomes: seq<bool>): (r: seq<Option<RemoteCall>>)
    ensures |r| == |outcomes|
    decreases |outcomes|
  {
    if outcomes == [] then []
    else
      var o := Ticked(s, isAnonymous, documents, now, outcomes[0]);
      [o.sent] + SentAll(o.after, isAnonymous, documents, now, outcomes[1..])
  }

  function Failures(n: nat): (r: seq<bool>)
    ensures |r| == n && forall i :: 0 <= i < n ==> !r[i]
  {
    if n == 0 then [] else [false] + Failures(n - 1)
  }

  /**
   * Retry at the head: when the head task makes a remote call, `n` failed runs
   * followed by one successful run leave exactly the tail of the queue, and
   * every one of those runs sends the same call for the same head task.
   */
  lemma {:induction false} RetryUntilSuccess(s: QueueState, documents: seq<Documents.DocumentItem>, now: int, n: nat)
    requires Starts(s, false) && s.state == Idle
    requires ProcessTask(s.queue[0], documents, now).Some?
    ensures TickAll(s, false, documents, now, Failures(n) + [true]) == QueueState(s.queue[1..], Idle, false)
    ensures forall i :: 0 <= i <= n ==>
              SentAll(s, false, documents, now, Failures(n) + [true])[i] == ProcessTask(s.queue[0], documents, now)
  {
    var outcomes := Failures(n) + [true];
    if n == 0 {
      assert outcomes == [true] && outcomes[1..] == [];
    } else {
      assert outcomes[0] == false && outcomes[1..] == Failures(n - 1) + [true];
      assert Ticked(s, false, documents, now, false).after == s;
      RetryUntilSuccess(s, documents, now, n - 1);
    }
  }
}
