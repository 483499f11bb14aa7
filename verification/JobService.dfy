/** Submitting and cancelling jobs: the job row and the queue entry change together
    or the change is undone. */
module JobService {
  import opened Text
  import opened Entity
  import SortedSet
  import GpuIds
  import opened QueueService

  const PRIORITY_LOW := 1

  datatype Request = Request(path: string, gpus: seq<GoInt>)

  /** The answers given to one submission: whether the access check, the file check
      and the user lookup went well, the priority of the user row if there is one, the
      insert and its fresh id, the counter, the queue write, whether that write took effect
      although it answered an error, and the delete that undoes the insert. */
  datatype SubmitOutcome = SubmitOutcome(
    cleared: bool, userPriority: Option<int>, created: bool, id: int, counted: bool, stored: bool, landed: bool,
    deleted: bool)

  datatype CancelOutcome = CancelOutcome(read: bool, written: bool, removed: bool, restored: bool)

  datatype Tables = Tables(jobs: map<int, Job>, queue: Queue)

  function PriorityOf(user: Option<int>): int {
    if user.Some? && user.value > 0 then user.value else PRIORITY_LOW
  }

  function NewJob(user: int, req: Request): Job {
    Job(user, req.path, GpuIds.Format(req.gpus), QUEUED, 0)
  }

  function Submitted(t: Tables, user: int, req: Request, o: SubmitOutcome): Tables {
    if !o.cleared || !o.created then t
    else
      var queue := Apply(t.queue, Enqueue(o.id, PriorityOf(o.userPriority), o.counted, o.stored || o.landed));
      if (o.counted && o.stored) || !o.deleted then Tables(t.jobs[o.id := NewJob(user, req)], queue)
      else Tables(t.jobs, queue)
  }

  /** Only the owner, and only while the job waits. */
  predicate MayCancel(jobs: map<int, Job>, id: int, user: int) {
    id in jobs && jobs[id].user == user && Pending(jobs[id])
  }

  function Cancelled(t: Tables, id: int, user: int, o: CancelOutcome): Tables {
    if !o.read || !MayCancel(t.jobs, id, user) || !o.written then t
    else if o.removed then Tables(SetStatus(t.jobs, id, CANCELLED), Apply(t.queue, Dequeue(id, true)))
    else if o.restored then t
    else t.(jobs := SetStatus(t.jobs, id, CANCELLED))
  }

  /** The administrator's removal: out of the queue first, then the status. */
  datatype RemoveOutcome = RemoveOutcome(read: bool, removed: bool, written: bool)

  function Withdrawn(t: Tables, id: int, o: RemoveOutcome): Tables {
    if !o.read || id !in t.jobs || !o.removed then t
    else Tables(if Pending(t.jobs[id]) && o.written then SetStatus(t.jobs, id, CANCELLED) else t.jobs,
                Apply(t.queue, Dequeue(id, true)))
  }

  /** An accepted job holds exactly the cards that were asked for. */
  lemma SubmittedCards(t: Tables, user: int, req: Request, o: SubmitOutcome)
    requires o.cleared && o.created && o.counted && o.stored
    ensures o.id in Submitted(t, user, req, o).jobs
    ensures GpuIds.Parse(Submitted(t, user, req, o).jobs[o.id].gpuIds) == req.gpus
  {
    GpuIds.ParseFormat(req.gpus);
  }

  /** What an accepted submission adds: one row that is the submitter's, with the path and
      cards asked for, Queued and unmarked; and one queue entry, with the score of the
      user's priority, or of 1 if the user has none. */
  lemma AcceptedExactly(t: Tables, user: int, req: Request, o: SubmitOutcome)
    requires o.cleared && o.created && o.counted && o.stored && SortedSet.Valid(t.queue.entries)
    ensures var t' := Submitted(t, user, req, o);
            var p := if o.userPriority.Some? && o.userPriority.value > 0 then o.userPriority.value else 1;
            var score := (10 - p) * 1_000_000_000 + t.queue.counter + 1;
            && o.id in t'.jobs && t'.jobs == t.jobs[o.id := t'.jobs[o.id]]
            && t'.jobs[o.id] == Job(user, req.path, t'.jobs[o.id].gpuIds, QUEUED, 0)
            && GpuIds.Parse(t'.jobs[o.id].gpuIds) == req.gpus
            && t'.queue.counter == t.queue.counter + 1
            && (forall e :: e in t'.queue.entries <==>
                  e == SortedSet.Entry(o.id, score as real) || (e in t.queue.entries && e.member != o.id))
  {
    GpuIds.ParseFormat(req.gpus);
    SortedSet.AddValid(t.queue.entries, o.id, Score(PriorityOf(o.userPriority), t.queue.counter + 1) as real);
  }

  /** A cancellation that works: the owner's, of a job that is Queued or WaitingGpu; only
      its status changes, and only its entry leaves the queue. Any other attempt of a
      stranger, or on a job that has started or ended, changes nothing. */
  lemma CancelledExactly(t: Tables, id: int, user: int, o: CancelOutcome)
    requires SortedSet.Valid(t.queue.entries)
    ensures var t' := Cancelled(t, id, user, o);
            var may := id in t.jobs && t.jobs[id].user == user && t.jobs[id].status in {QUEUED, WAITING_GPU};
            && (!may || !o.read || !o.written ==> t' == t)
            && (may && o.read && o.written && !o.removed ==>
                  t' == if o.restored then t else t.(jobs := t.jobs[id := t.jobs[id].(status := CANCELLED)]))
            && (may && o.read && o.written && o.removed ==>
                  && t'.jobs == t.jobs[id := t.jobs[id].(status := CANCELLED)]
                  && forall e :: e in t'.queue.entries <==> e in t.queue.entries && e.member != id)
  {
    SortedSet.RemoveContents(t.queue.entries, id);
  }

  /** A removal by an administrator that works: the entry leaves the queue, and a job that
      still waited is Cancelled; one that has started or ended keeps its row. */
  lemma WithdrawnExactly(t: Tables, id: int, o: RemoveOutcome)
    requires SortedSet.Valid(t.queue.entries) && id in t.jobs && o.read && o.removed && o.written
    ensures var t' := Withdrawn(t, id, o);
            && t'.jobs == (if t.jobs[id].status in {QUEUED, WAITING_GPU}
                           then t.jobs[id := t.jobs[id].(status := CANCELLED)] else t.jobs)
            && forall e :: e in t'.queue.entries <==> e in t.queue.entries && e.member != id
  {
    SortedSet.RemoveContents(t.queue.entries, id);
  }

  class JobService {
    var jobs: map<int, Job>
    var queue: Queue

    ghost function State(): Tables reads this { Tables(jobs, queue) }

    constructor (jobs: map<int, Job>, queue: Queue)
      ensures State() == Tables(jobs, queue)
    {
      this.jobs, this.queue := jobs, queue;
    }

    method SubmitJob(user: int, req: Request, o: SubmitOutcome) returns (job: Option<Job>)
      requires o.id !in jobs
      modifies this
      ensures State() == Submitted(old(State()), user, req, o)
      ensures job.Some? <==> o.cleared && o.created && o.counted && o.stored
      ensures job.Some? ==> o.id in jobs && jobs[o.id] == job.value && GpuIds.Parse(job.value.gpuIds) == req.gpus
      ensures job.Some? ==> job.value == Job(user, req.path, job.value.gpuIds, QUEUED, 0)
      ensures job.None? && (o.created ==> o.deleted) ==> jobs == old(jobs)
      ensures !o.cleared || !o.created ==> State() == old(State())
    {
      if !o.cleared { return None; }
      var priority := PRIORITY_LOW;
      if o.userPriority.Some? && o.userPriority.value > 0 {
        priority := o.userPriority.value;
      }
      var gpuIDs := GpuIds.FormatGpuIDs(req.gpus);
      var row := Job(user, req.path, gpuIDs, QUEUED, 0);
      if !o.created { return None; }
      ghost var was := jobs;
      jobs := jobs[o.id := row];
      queue := Apply(queue, Enqueue(o.id, priority, o.counted, o.stored || o.landed));
      if !(o.counted && o.stored) {
        if o.deleted {
          jobs := jobs - {o.id};
          assert jobs == was;
        }
        return None;
      }
      return Some(row);
    }

    method CancelJob(id: int, user: int, o: CancelOutcome) returns (ok: bool)
      modifies this
      ensures State() == Cancelled(old(State()), id, user, o)
      ensures ok <==> && o.read && o.written && o.removed && id in old(jobs) && old(jobs)[id].user == user
                      && (old(jobs)[id].status == QUEUED || old(jobs)[id].status == WAITING_GPU)
      ensures ok ==> jobs[id].status == CANCELLED
      ensures !ok && o.restored ==> State() == old(State())
    {
      if !o.read || id !in jobs { return false; }
      var job := jobs[id];
      if job.user != user { return false; }
      if job.status != QUEUED && job.status != WAITING_GPU { return false; }
      if !o.written { return false; }
      ghost var was := jobs;
      jobs := SetStatus(jobs, id, CANCELLED);
      if !o.removed {
        if o.restored {
          jobs := SetStatus(jobs, id, job.status);
          assert jobs == was;
        }
        return false;
      }
      queue := Apply(queue, Dequeue(id, true));
      return true;
    }

    method RemoveJob(id: int, o: RemoveOutcome) returns (ok: bool)
      modifies this
      ensures State() == Withdrawn(old(State()), id, o)
      ensures ok ==> id in jobs && !Pending(jobs[id])
    {
      if !o.read || id !in jobs { return false; }
      var job := jobs[id];
      if !o.removed { return false; }
      queue := Apply(queue, Dequeue(id, true));
      if job.status == QUEUED || job.status == WAITING_GPU {
        if !o.written { return false; }
        jobs := SetStatus(jobs, id, CANCELLED);
      }
      return true;
    }
  }
}
