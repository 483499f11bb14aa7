/** Who is in the queue: which steps lose a job that still waits, and what becomes of an
    id whose job row is gone. */
module QueueMembership {
  import opened Text
  import opened Entity
  import opened SortedSet
  import Q = QueueService
  import JobService
  import opened Cluster
  import opened CrashPoints
  import opened SchedulerInvariant
  import opened SchedulerRuns
  import StrayCards

  predicate Queued(q: Q.Queue, id: int) {
    Rank(q.entries, id).Some?
  }

  // ---------------------------------------------------------- the queue's calls

  lemma AddQueued(z: ZSet, m: int, score: real, id: int)
    requires Valid(z)
    ensures Rank(Add(z, m, score), id).Some? <==> id == m || Rank(z, id).Some?
  {
    AddValid(z, m, score);
    var z' := Add(z, m, score);
    assert Entry(m, score) in z';
    if Rank(z, id).Some? && id != m {
      var e := z[Rank(z, id).value];
      assert e in z && e in z';
    }
    if Rank(z', id).Some? {
      var e := z'[Rank(z', id).value];
      assert e in z';
    }
  }

  lemma RemoveQueued(z: ZSet, m: int, id: int)
    requires Valid(z)
    ensures Rank(Remove(z, m), id).Some? <==> id != m && Rank(z, id).Some?
  {
    RemoveContents(z, m);
    var z' := Remove(z, m);
    if Rank(z, id).Some? && id != m {
      var e := z[Rank(z, id).value];
      assert e in z && e in z';
    }
    if Rank(z', id).Some? {
      var e := z'[Rank(z', id).value];
      assert e in z';
    }
  }

  lemma CallQueued(q: Q.Queue, op: Q.Op, id: int)
    requires Valid(q.entries)
    ensures Valid(Q.Apply(q, op).entries)
    ensures Queued(Q.Apply(q, op), id) <==>
              match op
              case Enqueue(job, _, counted, stored) => (counted && stored && id == job) || Queued(q, id)
              case Dequeue(job, removed) => !(removed && id == job) && Queued(q, id)
  {
    match op
    case Enqueue(job, priority, counted, stored) =>
      AddValid(q.entries, job, Q.Score(priority, q.counter + 1) as real);
      AddQueued(q.entries, job, Q.Score(priority, q.counter + 1) as real, id);
    case Dequeue(job, removed) =>
      RemoveValid(q.entries, job);
      RemoveQueued(q.entries, job, id);
  }

  lemma MoveQueued(z: ZSet, job: int, target: int, o: Q.MoveOutcome, id: int)
    requires Valid(z)
    ensures Valid(Q.MovedEntries(z, job, target, o))
    ensures Rank(Q.MovedEntries(z, job, target, o), id).Some?
            <==> (Q.Moves(z, target, o) && id == job) || Rank(z, id).Some?
  {
    if Q.Moves(z, target, o) {
      AddValid(z, job, Q.ScoreBefore(z, target).value);
      AddQueued(z, job, Q.ScoreBefore(z, target).value, id);
    }
  }

  // ------------------------------------------------------- who leaves the queue

  /** The job that a step takes out of the queue, if any. Each of them has a row. */
  function TakenOut(w: World, s: Step): Option<int> {
    match s
    case Cancel(id, user, o) =>
      if o.read && JobService.MayCancel(w.jobs, id, user) && o.written && o.removed then Some(id) else None
    case Withdraw(id, o) => if o.read && id in w.jobs && o.removed then Some(id) else None
    case Tick(o) => TakenByTick(w, o)
    case CutStart(o, n) =>
      if VerdictOf(w, o).Start? && Drop in Done(w, VerdictOf(w, o).id, o.exec, n) && o.exec.removed
      then Some(VerdictOf(w, o).id) else None
    case _ => None
  }

  function TakenByTick(w: World, o: TickOutcome): Option<int> {
    match VerdictOf(w, o)
    case Discard(id) => if o.removed then Some(id) else None
    case Start(id) =>
      var gaveUp := GivesUp(ExitOf(w.cards, w.jobs[id], CardsOf(w.jobs[id]), o.exec));
      if o.removed || (gaveUp && o.exec.removed) then Some(id) else None
    case _ => None
  }

  /** The job that a step puts into the queue, if any. */
  function PutIn(w: World, s: Step): Option<int> {
    match s
    case Submit(_, _, o) =>
      if o.cleared && o.created && o.counted && (o.stored || o.landed) then Some(o.id) else None
    case Move(job, before, o) => if Q.Moves(w.queue.entries, before, o) then Some(job) else None
    case _ => None
  }

  ghost predicate QueueFollows(w: World, s: Step, w': World, id: int) {
    && Valid(w'.queue.entries)
    && (Queued(w'.queue, id) <==> PutIn(w, s) == Some(id) || (Queued(w.queue, id) && TakenOut(w, s) != Some(id)))
  }

  lemma TickQueue(w: World, o: TickOutcome, w': World, id: int)
    requires Valid(w.queue.entries) && w' == Ticked(w, o)
    ensures QueueFollows(w, Tick(o), w', id)
  {
    match VerdictOf(w, o)
    case Discard(j) => CallQueued(w.queue, Q.Dequeue(j, o.removed), id);
    case Start(j) =>
      var x := ExitOf(w.cards, w.jobs[j], CardsOf(w.jobs[j]), o.exec);
      var q := if GivesUp(x) then Dequeued(w.queue, j, o.exec.removed) else w.queue;
      CallQueued(w.queue, Q.Dequeue(j, o.exec.removed), id);
      CallQueued(q, Q.Dequeue(j, o.removed), id);
    case _ =>
  }

  lemma TablesQueue(w: World, s: Step, w': World, id: int)
    requires Valid(w.queue.entries) && (s.Submit? || s.Cancel? || s.Withdraw?) && Next(w, s, w')
    ensures QueueFollows(w, s, w', id)
  {
    match s
    case Submit(user, req, o) =>
      CallQueued(w.queue, Q.Enqueue(o.id, JobService.PriorityOf(o.userPriority), o.counted, o.stored || o.landed), id);
    case Cancel(j, user, o) => CallQueued(w.queue, Q.Dequeue(j, true), id);
    case Withdraw(j, o) => CallQueued(w.queue, Q.Dequeue(j, true), id);
  }

  /** What each step does to the membership of each job. */
  lemma StepQueue(w: World, s: Step, w': World, id: int)
    requires Valid(w.queue.entries) && Next(w, s, w')
    ensures QueueFollows(w, s, w', id)
  {
    match s
    case Submit(_, _, _) => TablesQueue(w, s, w', id);
    case Cancel(_, _, _) => TablesQueue(w, s, w', id);
    case Withdraw(_, _) => TablesQueue(w, s, w', id);
    case Move(job, before, o) => MoveQueued(w.queue.entries, job, before, o, id);
    case Tick(o) => TickQueue(w, o, w', id);
    case CutStart(o, n) => StartCutQueue(w, VerdictOf(w, o).id, o.exec, n, id);
    case _ =>
  }

  lemma StartCutQueue(w: World, j: int, o: ExecOutcome, n: nat, id: int)
    requires Valid(w.queue.entries) && j in w.jobs
    ensures Valid(StartCut(w, j, o, n).queue.entries)
    ensures Queued(StartCut(w, j, o, n).queue, id)
            <==> Queued(w.queue, id) && !(id == j && Drop in Done(w, j, o, n) && o.removed)
  {
    StartCutIs(w, j, o, n);
    CallQueued(w.queue, Q.Dequeue(j, o.removed), id);
  }

  // -------------------------------------------------------- jobs that still wait

  predicate StillWaits(w: World, j: int) {
    j in w.jobs && Pending(w.jobs[j])
  }

  /** Every job that may still start is in the queue. */
  ghost predicate AllQueued(w: World) {
    forall j :: StillWaits(w, j) ==> Queued(w.queue, j)
  }

  /** The steps after which a job waits outside the queue: a submission whose enqueueing
      and whose rollback both fail; a removal whose status write fails; a tick that discards
      a job without cards; and a tick whose start fails before the job is marked Running,
      after which it is dequeued all the same. */
  predicate Loses(w: World, s: Step) {
    match s
    case Submit(_, _, o) =>
      o.cleared && o.created && !(o.counted && (o.stored || o.landed)) && !o.deleted && !Queued(w.queue, o.id)
    case Withdraw(id, o) => o.read && id in w.jobs && o.removed && Pending(w.jobs[id]) && !o.written
    case Tick(o) => TickLoses(w, o)
    case _ => false
  }

  predicate TickLoses(w: World, o: TickOutcome) {
    match VerdictOf(w, o)
    case Discard(id) => o.removed && Pending(w.jobs[id])
    case Start(id) => o.removed && (!o.exec.acquired || !o.exec.marked)
    case _ => false
  }

  /** Which jobs wait after a tick: a job whose start is decided waits on exactly when the
      transaction or the write of Running fails. */
  lemma TickWaits(w: World, o: TickOutcome, j: int)
    ensures StillWaits(Ticked(w, o), j) <==>
              StillWaits(w, j)
              && match VerdictOf(w, o)
                 case Start(id) => j != id || !o.exec.acquired || !o.exec.marked
                 case _ => true
  {
    if VerdictOf(w, o).Start? { TickNeverRefused(w, o); }
  }

  lemma TickLosesExactly(w: World, o: TickOutcome, w': World)
    requires Valid(w.queue.entries) && AllQueued(w) && w' == Ticked(w, o)
    ensures AllQueued(w') <==> !TickLoses(w, o)
  {
    forall j ensures StillWaits(w', j) && !Queued(w'.queue, j) <==> StillWaits(w', j) && TakenByTick(w, o) == Some(j) {
      TickQueue(w, o, w', j);
      TickWaits(w, o, j);
    }
    if TickLoses(w, o) {
      var id := VerdictOf(w, o).id;
      TickWaits(w, o, id);
      assert StillWaits(w', id) && !Queued(w'.queue, id);
    } else {
      forall j | StillWaits(w', j) ensures TakenByTick(w, o) != Some(j) {
        TickWaits(w, o, j);
      }
    }
  }

  /** Which jobs wait after any other step. */
  lemma MoveWaits(w: World, job: int, before: int, o: Q.MoveOutcome, j: int)
    ensures var jobs' := Q.MovedJobs(w.queue.entries, w.jobs, job, before, o);
            j in jobs' && Pending(jobs'[j]) <==> StillWaits(w, j)
  {
    Q.MoveStatuses(w.queue.entries, w.jobs, job, before, o, j);
  }

  lemma NoNewWaiters(w: World, s: Step, w': World, j: int)
    requires Next(w, s, w') && !s.Submit? && StillWaits(w', j)
    ensures StillWaits(w, j)
  {
    match s
    case Move(job, before, o) => MoveWaits(w, job, before, o, j);
    case Tick(o) => TickWaits(w, o, j);
    case CutStart(o, n) => StartCutWaits(w, VerdictOf(w, o).id, o.exec, n, j);
    case Cancel(_, _, _) => TablesWaits(w, s, w', j);
    case Withdraw(_, _) => TablesWaits(w, s, w', j);
    case Restart(o) => RestartWaits(w, o, w', j);
    case _ =>
  }

  lemma TablesWaits(w: World, s: Step, w': World, j: int)
    requires Next(w, s, w') && (s.Cancel? || s.Withdraw?) && StillWaits(w', j)
    ensures StillWaits(w, j)
  {
  }

  lemma RestartWaits(w: World, o: PassOutcome, w': World, j: int)
    requires Recovered(Crashed(w), o, w') && StillWaits(w', j)
    ensures StillWaits(w, j)
  {
  }

  lemma StartCutWaits(w: World, id: int, o: ExecOutcome, n: nat, j: int)
    requires id in w.jobs
    ensures StillWaits(StartCut(w, id, o, n), j) <==>
              StillWaits(w, j) && (j == id ==> Mark !in Done(w, id, o, n))
  {
    StartCutIs(w, id, o, n);
  }

  lemma SubmitLosesExactly(w: World, s: Step, w': World)
    requires Valid(w.queue.entries) && AllQueued(w) && s.Submit? && Next(w, s, w')
    ensures AllQueued(w') <==> !Loses(w, s)
  {
    var o := s.submit;
    SubmitWaits(w, s, w', o.id);
    StepQueue(w, s, w', o.id);
    if Loses(w, s) {
      assert StillWaits(w', o.id) && !Queued(w'.queue, o.id);
    } else {
      forall j | StillWaits(w', j) ensures Queued(w'.queue, j) {
        SubmitWaits(w, s, w', j);
        StepQueue(w, s, w', j);
      }
    }
  }

  lemma SubmitWaits(w: World, s: Step, w': World, j: int)
    requires s.Submit? && Next(w, s, w')
    ensures var o := s.submit;
            if j == o.id then StillWaits(w', j) <==> o.cleared && o.created && ((o.counted && o.stored) || !o.deleted)
            else StillWaits(w', j) <==> StillWaits(w, j)
  {
  }

  lemma WithdrawLosesExactly(w: World, s: Step, w': World)
    requires Valid(w.queue.entries) && AllQueued(w) && s.Withdraw? && Next(w, s, w')
    ensures AllQueued(w') <==> !Loses(w, s)
  {
    StepQueue(w, s, w', s.target);
    if Loses(w, s) {
      assert StillWaits(w', s.target) && !Queued(w'.queue, s.target);
    } else {
      forall j | StillWaits(w', j) ensures Queued(w'.queue, j) {
        NoNewWaiters(w, s, w', j);
        StepQueue(w, s, w', j);
      }
    }
  }

  /** Every step keeps "every waiting job is queued" exactly when it is none of these. */
  lemma StepLosesExactly(w: World, s: Step, w': World)
    requires Valid(w.queue.entries) && AllQueued(w) && Next(w, s, w')
    ensures AllQueued(w') <==> !Loses(w, s)
  {
    match s
    case Submit(_, _, _) => SubmitLosesExactly(w, s, w');
    case Withdraw(_, _) => WithdrawLosesExactly(w, s, w');
    case Tick(o) => TickLosesExactly(w, o, w');
    case CutStart(o, n) => CutLosesNobody(w, o, n);
    case _ =>
      forall j | StillWaits(w', j) ensures Queued(w'.queue, j) {
        NoNewWaiters(w, s, w', j);
        StepQueue(w, s, w', j);
      }
  }

  lemma CutLosesNobody(w: World, o: TickOutcome, n: nat)
    requires Valid(w.queue.entries) && AllQueued(w) && VerdictOf(w, o).Start?
    ensures AllQueued(StartCut(w, VerdictOf(w, o).id, o.exec, n))
  {
    var id := VerdictOf(w, o).id;
    StartCutIs(w, id, o.exec, n);
    forall j | StillWaits(StartCut(w, id, o.exec, n), j) ensures Queued(StartCut(w, id, o.exec, n).queue, j) {
      StartCutWaits(w, id, o.exec, n, j);
      StartCutQueue(w, id, o.exec, n, j);
    }
  }

  lemma {:induction false} RunQueue(trace: seq<World>, steps: seq<Step>, k: nat)
    requires IsRun(trace, steps) && Valid(trace[0].queue.entries) && k < |trace|
    ensures Valid(trace[k].queue.entries)
  {
    if k > 0 {
      RunQueue(trace, steps, k - 1);
      StepQueue(trace[k - 1], steps[k - 1], trace[k], 0);
    }
  }

  lemma RunStepLoses(trace: seq<World>, steps: seq<Step>, n: nat)
    requires IsRun(trace, steps) && Valid(trace[0].queue.entries) && n < |steps| && AllQueued(trace[n])
    ensures AllQueued(trace[n + 1]) <==> !Loses(trace[n], steps[n])
  {
    RunQueue(trace, steps, n);
    StepLosesExactly(trace[n], steps[n], trace[n + 1]);
  }

  /** In every run no waiting job is missing from the queue, at any moment, exactly when
      no step so far lost one. */
  lemma {:induction false} NobodyLostExactly(trace: seq<World>, steps: seq<Step>, k: nat)
    requires IsRun(trace, steps) && Valid(trace[0].queue.entries) && AllQueued(trace[0]) && k < |trace|
    ensures (forall n :: 0 <= n <= k ==> AllQueued(trace[n]))
            <==> (forall n :: 0 <= n < k ==> !Loses(trace[n], steps[n]))
  {
    if forall n :: 0 <= n <= k ==> AllQueued(trace[n]) {
      forall n | 0 <= n < k ensures !Loses(trace[n], steps[n]) { RunStepLoses(trace, steps, n); }
    }
    if forall n :: 0 <= n < k ==> !Loses(trace[n], steps[n]) {
      NobodyLost(trace, steps, k);
    }
  }

  lemma {:induction false} NobodyLost(trace: seq<World>, steps: seq<Step>, k: nat)
    requires IsRun(trace, steps) && Valid(trace[0].queue.entries) && AllQueued(trace[0]) && k < |trace|
    requires forall n :: 0 <= n < k ==> !Loses(trace[n], steps[n])
    ensures forall n :: 0 <= n <= k ==> AllQueued(trace[n])
  {
    if k > 0 {
      NobodyLost(trace, steps, k - 1);
      RunStepLoses(trace, steps, k - 1);
    }
  }

  /** In every run a job outside the queue stays outside until it is moved by hand. */
  lemma {:induction false} OutsideUntilMoved(trace: seq<World>, steps: seq<Step>, a: nat, b: nat, id: int)
    requires IsRun(trace, steps) && Valid(trace[0].queue.entries) && a <= b < |trace|
    requires id in trace[a].jobs && !Queued(trace[a].queue, id)
    requires forall n :: a <= n < b ==> !(steps[n].Move? && steps[n].job == id)
    ensures id in trace[b].jobs && !Queued(trace[b].queue, id)
  {
    if a < b {
      OutsideUntilMoved(trace, steps, a, b - 1, id);
      OutsideStep(trace, steps, b - 1, id);
    }
  }

  lemma OutsideStep(trace: seq<World>, steps: seq<Step>, n: nat, id: int)
    requires IsRun(trace, steps) && Valid(trace[0].queue.entries) && n < |steps|
    requires id in trace[n].jobs && !Queued(trace[n].queue, id) && !(steps[n].Move? && steps[n].job == id)
    ensures id in trace[n + 1].jobs && !Queued(trace[n + 1].queue, id)
  {
    RunQueue(trace, steps, n);
    StepQueue(trace[n], steps[n], trace[n + 1], id);
    StrayCards.StepLists(trace[n], steps[n], trace[n + 1]);
  }

  /** Moving it before a queued job brings it back. */
  lemma MovedIsBack(w: World, job: int, before: int, o: Q.MoveOutcome, w': World)
    requires Valid(w.queue.entries) && Next(w, Move(job, before, o), w') && Q.Moves(w.queue.entries, before, o)
    ensures Queued(w'.queue, job)
  {
    StepQueue(w, Move(job, before, o), w', job);
  }

  // ------------------------------------------------------------- ids without rows

  /** How an id without a row gets into the queue: the queue write of a submission takes
      effect and answers an error, and the rollback deletes the row. */
  lemma LandedWriteLeavesRowless(w: World, s: Step, w': World)
    requires Valid(w.queue.entries) && s.Submit? && Next(w, s, w')
    requires var o := s.submit; o.cleared && o.created && o.counted && !o.stored && o.landed && o.deleted
    ensures s.submit.id !in w'.jobs && Queued(w'.queue, s.submit.id)
  {
    StepQueue(w, s, w', s.submit.id);
  }

  /** A head without a job row stops the queue: no tick changes anything. */
  lemma RowlessHeadBlocks(w: World, o: TickOutcome)
    requires w.queue.entries != [] && w.queue.entries[0].member !in w.jobs
    ensures Ticked(w, o) == w
  {
  }

  /** And nothing takes the id out, as long as it has no row: every way out of the queue
      reads the row first. */
  lemma {:induction false} RowlessIdStays(trace: seq<World>, steps: seq<Step>, a: nat, b: nat, id: int)
    requires IsRun(trace, steps) && Valid(trace[0].queue.entries) && a <= b < |trace|
    requires Queued(trace[a].queue, id) && forall n :: a <= n < b ==> id !in trace[n].jobs
    ensures Queued(trace[b].queue, id)
  {
    if a < b {
      RowlessIdStays(trace, steps, a, b - 1, id);
      RunQueue(trace, steps, b - 1);
      StepQueue(trace[b - 1], steps[b - 1], trace[b], id);
      TakenHasRow(trace[b - 1], steps[b - 1]);
    }
  }

  lemma TakenHasRow(w: World, s: Step)
    ensures TakenOut(w, s).Some? ==> TakenOut(w, s).value in w.jobs
  {
  }
}
