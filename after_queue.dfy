/** Tk's `after` queue as the viewport uses it: pending jobs by id, each
    with the callback and delay it was scheduled with, the next id to hand
    out, and the viewport's three handle fields (`_view_after_id`,
    `_preview_after_id`, `_hq_after_id`). Only the bookkeeping is modelled;
    when a job runs is up to Tk's clock. */
module AfterQueue {
  import opened Common

  /** The three callbacks the viewport hands to `after`: `_do_redraw`,
      `_preview_after_fire` and `_hq_redraw_now`. */
  datatype Callback = SharpRedraw | PreviewRedraw | HqRedraw

  datatype Job = Job(callback: Callback, delayMs: int)

  datatype Queue = Queue(
    jobs: map<nat, Job>,
    nextId: nat,
    viewAfter: Option<nat>,
    previewAfter: Option<nat>,
    hqAfter: Option<nat>)

  /** The handle field kept for a callback. */
  function Handle(q: Queue, cb: Callback): Option<nat>
  {
    match cb
    case SharpRedraw => q.viewAfter
    case PreviewRedraw => q.previewAfter
    case HqRedraw => q.hqAfter
  }

  function WithHandle(q: Queue, cb: Callback, h: Option<nat>): (q': Queue)
    ensures Handle(q', cb) == h
    ensures q'.jobs == q.jobs && q'.nextId == q.nextId
  {
    match cb
    case SharpRedraw => q.(viewAfter := h)
    case PreviewRedraw => q.(previewAfter := h)
    case HqRedraw => q.(hqAfter := h)
  }

  /** Setting one handle leaves the other two alone. */
  lemma WithHandleOthers(q: Queue, cb: Callback, h: Option<nat>)
    ensures forall other :: other != cb ==> Handle(WithHandle(q, cb, h), other) == Handle(q, other)
  {
    forall other | other != cb
      ensures Handle(WithHandle(q, cb, h), other) == Handle(q, other)
    {
      match cb
      case SharpRedraw =>
      case PreviewRedraw =>
      case HqRedraw =>
    }
  }

  /** The job a handle names, if it names a pending one. */
  function Pending(q: Queue, cb: Callback): Option<Job>
  {
    if Handle(q, cb).Some? && Handle(q, cb).value in q.jobs then Some(q.jobs[Handle(q, cb).value]) else None
  }

  /** Job `id` is pending. A name of its own for `id in q.jobs`, so that
      the invariant's quantifiers fire only where a proof mentions it. */
  predicate Live(q: Queue, id: nat)
  {
    id in q.jobs
  }

  /** A handle names a pending job of its callback, and every pending job
      of that callback is the one it names. */
  ghost predicate HandleHolds(q: Queue, cb: Callback)
  {
    && (Handle(q, cb).Some? ==> Handle(q, cb).value in q.jobs && q.jobs[Handle(q, cb).value].callback == cb)
    && (forall id: nat :: Live(q, id) && q.jobs[id].callback == cb ==> Handle(q, cb) == Some(id))
  }

  /** The queue's invariant: ids below the next one, and every handle
      holding. */
  ghost predicate QueueOk(q: Queue)
  {
    && (forall id: nat :: Live(q, id) ==> id < q.nextId)
    && (forall cb :: HandleHolds(q, cb))
  }

  /** Nothing pending, no handle set. */
  function Empty(): (q: Queue)
    ensures QueueOk(q)
    ensures forall cb :: Pending(q, cb).None?
  {
    Queue(map[], 0, None, None, None)
  }

  /** With the invariant, two pending jobs of one callback are one job. */
  lemma AtMostOnePending(q: Queue, i: nat, j: nat)
    requires QueueOk(q) && i in q.jobs && j in q.jobs
    requires q.jobs[i].callback == q.jobs[j].callback
    ensures i == j
  {
    assert HandleHolds(q, q.jobs[i].callback);
  }

  /** `after_cancel` of the job a handle names, and the handle cleared. */
  function Cancel(q: Queue, cb: Callback): (q': Queue)
    ensures Handle(q', cb).None? && Pending(q', cb).None?
    ensures q'.nextId == q.nextId
  {
    var jobs := if Handle(q, cb).Some? then q.jobs - {Handle(q, cb).value} else q.jobs;
    WithHandle(q.(jobs := jobs), cb, None)
  }

  /** With the invariant, cancelling keeps it, keeps exactly the jobs of the
      other callbacks, and leaves their handles and pending jobs alone. */
  lemma CancelKeepsOk(q: Queue, cb: Callback)
    requires QueueOk(q)
    ensures var q' := Cancel(q, cb);
      && QueueOk(q')
      && (forall id :: id in q.jobs ==> (id in q'.jobs <==> q.jobs[id].callback != cb))
      && (forall id :: id in q'.jobs ==> id in q.jobs && q'.jobs[id] == q.jobs[id])
      && (forall other :: other != cb ==> Handle(q', other) == Handle(q, other))
      && (forall other :: other != cb ==> Pending(q', other) == Pending(q, other))
  {
    var jobs := if Handle(q, cb).Some? then q.jobs - {Handle(q, cb).value} else q.jobs;
    var q' := Cancel(q, cb);
    WithHandleOthers(q.(jobs := jobs), cb, None);
    assert HandleHolds(q, cb);
    forall id | id in q.jobs ensures id in q'.jobs <==> q.jobs[id].callback != cb {
      assert Live(q, id);
    }
    forall id: nat | Live(q', id) ensures id < q'.nextId {
      assert Live(q, id);
    }
    forall other ensures HandleHolds(q', other) {
      assert HandleHolds(q, other);
      forall id: nat | Live(q', id) && q'.jobs[id].callback == other ensures Handle(q', other) == Some(id) {
        assert Live(q, id);
      }
    }
    forall other | other != cb ensures Pending(q', other) == Pending(q, other) {
      assert HandleHolds(q, other);
    }
  }

  /** `handle = after(delayMs, cb)`: a new job under the next id, named by
      the handle. */
  function Enqueue(q: Queue, cb: Callback, delayMs: int): (q': Queue)
    ensures Handle(q', cb) == Some(q.nextId)
    ensures Pending(q', cb) == Some(Job(cb, delayMs))
    ensures q'.nextId == q.nextId + 1
  {
    WithHandle(q.(jobs := q.jobs[q.nextId := Job(cb, delayMs)], nextId := q.nextId + 1), cb, Some(q.nextId))
  }

  /** Enqueueing under a cleared handle keeps the invariant and leaves every
      existing job and the other handles alone. */
  lemma EnqueueKeepsOk(q: Queue, cb: Callback, delayMs: int)
    requires QueueOk(q) && Handle(q, cb).None?
    ensures var q' := Enqueue(q, cb, delayMs);
      && QueueOk(q')
      && q'.jobs == q.jobs[q.nextId := Job(cb, delayMs)]
      && (forall other :: other != cb ==> Handle(q', other) == Handle(q, other))
      && (forall other :: other != cb ==> Pending(q', other) == Pending(q, other))
  {
    var q1 := q.(jobs := q.jobs[q.nextId := Job(cb, delayMs)], nextId := q.nextId + 1);
    var q' := Enqueue(q, cb, delayMs);
    WithHandleOthers(q1, cb, Some(q.nextId));
    forall other | Handle(q, other).Some? ensures Handle(q, other).value != q.nextId {
      assert HandleHolds(q, other);
      assert Live(q, Handle(q, other).value);
    }
    forall id: nat | Live(q', id) ensures id < q'.nextId {
      if id != q.nextId {
        assert Live(q, id);
      }
    }
    forall other ensures HandleHolds(q', other) {
      assert HandleHolds(q, other);
      forall id: nat | Live(q', id) && q'.jobs[id].callback == other ensures Handle(q', other) == Some(id) {
        if id != q.nextId {
          assert Live(q, id);
        }
      }
    }
    forall other | other != cb ensures Pending(q', other) == Pending(q, other) {
      assert HandleHolds(q, other);
    }
  }

  /** A handle set to a new `after(delayMs, cb)` job, the one it named
      cancelled first. */
  function Reschedule(q: Queue, cb: Callback, delayMs: int): (q': Queue)
    ensures Handle(q', cb) == Some(q.nextId)
    ensures Pending(q', cb) == Some(Job(cb, delayMs))
    ensures q'.nextId == q.nextId + 1
  {
    Enqueue(Cancel(q, cb), cb, delayMs)
  }

  /** With the invariant, rescheduling keeps it, and the other callbacks'
      handles, pending jobs and jobs stay as they were. */
  lemma RescheduleKeepsOk(q: Queue, cb: Callback, delayMs: int)
    requires QueueOk(q)
    ensures var q' := Reschedule(q, cb, delayMs);
      && QueueOk(q')
      && (forall other :: other != cb ==> Handle(q', other) == Handle(q, other))
      && (forall other :: other != cb ==> Pending(q', other) == Pending(q, other))
      && (forall id :: id in q.jobs && q.jobs[id].callback != cb ==> id in q'.jobs && q'.jobs[id] == q.jobs[id])
  {
    CancelKeepsOk(q, cb);
    EnqueueKeepsOk(Cancel(q, cb), cb, delayMs);
    var c := Cancel(q, cb);
    forall id | id in q.jobs && q.jobs[id].callback != cb
      ensures id in Reschedule(q, cb, delayMs).jobs && Reschedule(q, cb, delayMs).jobs[id] == q.jobs[id]
    {
      assert id in c.jobs;
      assert id < q.nextId by { assert Live(q, id); }
    }
  }

  /** Tk taking job `id` off the queue to run it, and the callback's first
      step: clearing its own handle. */
  function Run(q: Queue, id: nat): (q': Queue)
    requires id in q.jobs
    ensures Handle(q', q.jobs[id].callback).None?
    ensures q'.jobs == q.jobs - {id} && q'.nextId == q.nextId
  {
    WithHandle(q.(jobs := q.jobs - {id}), q.jobs[id].callback, None)
  }

  /** Running a job keeps the invariant and the other handles. */
  lemma RunKeepsOk(q: Queue, id: nat)
    requires QueueOk(q) && id in q.jobs
    ensures QueueOk(Run(q, id))
    ensures forall other :: other != q.jobs[id].callback ==> Handle(Run(q, id), other) == Handle(q, other)
  {
    var q' := Run(q, id);
    WithHandleOthers(q.(jobs := q.jobs - {id}), q.jobs[id].callback, None);
    forall j: nat | Live(q', j) ensures j < q'.nextId {
      assert Live(q, j);
    }
    forall other ensures HandleHolds(q', other) {
      assert HandleHolds(q, other);
      forall j: nat | Live(q', j) && q'.jobs[j].callback == other ensures Handle(q', other) == Some(j) {
        assert Live(q, j);
      }
    }
  }

  /** Cancelling all three handles empties a queue that keeps its
      invariant. */
  lemma CancelAllEmpties(q: Queue)
    requires QueueOk(q)
    ensures Cancel(Cancel(Cancel(q, SharpRedraw), PreviewRedraw), HqRedraw).jobs == map[]
  {
    var q1 := Cancel(q, SharpRedraw);
    var q2 := Cancel(q1, PreviewRedraw);
    var q3 := Cancel(q2, HqRedraw);
    CancelKeepsOk(q, SharpRedraw);
    CancelKeepsOk(q1, PreviewRedraw);
    CancelKeepsOk(q2, HqRedraw);
    forall id | id in q3.jobs ensures false {
      assert id in q.jobs;
      match q.jobs[id].callback
      case SharpRedraw =>
      case PreviewRedraw =>
      case HqRedraw =>
    }
  }
}
