/** What every step of the platform keeps: cards belong to Running jobs, and monitors
    and process rows match them. */
module SchedulerInvariant {
  import opened Text
  import opened Entity
  import opened GpuAllocator
  import Q = QueueService
  import JobService
  import opened Cluster
  import opened Sets

  // -------------------------------------------------------------- the invariant

  /** A launch has been decided on, and the outcome is Running or final. */
  predicate Settled(job: Job) {
    job.status == RUNNING || job.status == COMPLETED || job.status == FAILED
  }

  /** What the Running jobs hold, or should. */
  function Demand(jobs: map<int, Job>): map<int, seq<int>> {
    map j | j in jobs && jobs[j].status == RUNNING :: CardsOf(jobs[j])
  }

  /** A card is busy under a job exactly when that job is Running and lists it. */
  ghost predicate Exact(demand: map<int, seq<int>>, cards: Rows) {
    && IdleHasNoJob(cards)
    && (forall c :: c in cards && cards[c].busy ==>
          cards[c].job.Some? && cards[c].job.value in demand && c in demand[cards[c].job.value])
    && (forall j, c :: j in demand && c in demand[j] ==> c in cards && cards[c].busy && cards[c].job == Some(j))
    && (forall j :: j in demand ==> NoDup(demand[j]))
  }

  /** The only monitor of a Running job, working with its cards, tracked, with rows. */
  ghost predicate MonitorFits(w: World, jp: JobProcess) {
    && w.monitors[jp] == 1
    && jp.job in Demand(w.jobs) && jp.cards == Demand(w.jobs)[jp.job]
    && jp.pid in w.running && w.running[jp.pid] == jp
    && ActiveRows(w.procs, jp.job) != {}
  }

  ghost predicate MonitorsSound(w: World) {
    && (forall jp :: jp in w.monitors ==> MonitorFits(w, jp))
    && (forall jp, kp :: jp in w.monitors && kp in w.monitors && jp.job == kp.job ==> jp == kp)
  }

  /** Process rows belong to launched jobs, and those of Running jobs are tracked. */
  ghost predicate RowsSound(w: World) {
    forall i :: 0 <= i < |w.procs| ==>
      && w.procs[i].job in w.jobs && Settled(w.jobs[w.procs[i].job])
      && (!w.procs[i].ended && IsRunning(w.jobs, w.procs[i].job) ==>
            w.procs[i].pid in w.running && w.running[w.procs[i].pid].job == w.procs[i].job)
  }

  /** The active rows of a Running job name one process. */
  ghost predicate OnePidPerJob(w: World) {
    forall i, k :: i in ActiveRowsOfRunning(w) && k in ActiveRowsOfRunning(w) && w.procs[i].job == w.procs[k].job ==>
      w.procs[i].pid == w.procs[k].pid
  }

  function ActiveRowsOfRunning(w: World): (rows: set<int>)
    ensures forall i :: i in rows ==> 0 <= i < |w.procs|
  {
    set i | 0 <= i < |w.procs| && !w.procs[i].ended && IsRunning(w.jobs, w.procs[i].job)
  }

  ghost predicate Inv(w: World) {
    Exact(Demand(w.jobs), w.cards) && MonitorsSound(w) && RowsSound(w) && OnePidPerJob(w)
  }

  /** Ending rows and jobs leaves at most the pids there were. */
  lemma FewerRows(w: World, w': World)
    requires OnePidPerJob(w) && |w'.procs| == |w.procs|
    requires forall i :: 0 <= i < |w.procs| ==>
      w'.procs[i].job == w.procs[i].job && w'.procs[i].pid == w.procs[i].pid && (w.procs[i].ended ==> w'.procs[i].ended)
    requires forall j :: IsRunning(w'.jobs, j) ==> IsRunning(w.jobs, j)
    ensures OnePidPerJob(w')
  {
    forall i | i in ActiveRowsOfRunning(w') ensures i in ActiveRowsOfRunning(w) {}
  }

  // -------------------------------------------------- changes that start nothing

  /** Job rows change without any job becoming Running or leaving a settled status. */
  ghost predicate Quiet(jobs: map<int, Job>, jobs': map<int, Job>) {
    && (forall j :: j in jobs && Settled(jobs[j]) ==>
          j in jobs' && jobs'[j].status == jobs[j].status && jobs'[j].gpuIds == jobs[j].gpuIds)
    && (forall j :: IsRunning(jobs', j) ==> IsRunning(jobs, j))
  }

  lemma QuietDemand(jobs: map<int, Job>, jobs': map<int, Job>)
    requires Quiet(jobs, jobs')
    ensures Demand(jobs') == Demand(jobs)
  {
    forall j ensures j in Demand(jobs) <==> j in Demand(jobs') {
      if j in jobs && jobs[j].status == RUNNING { assert Settled(jobs[j]); }
      if j in Demand(jobs') { assert IsRunning(jobs', j); }
    }
    forall j | j in Demand(jobs) ensures Demand(jobs')[j] == Demand(jobs)[j] {
      assert Settled(jobs[j]);
    }
  }

  lemma QuietKeepsInv(w: World, jobs: map<int, Job>, queue: Q.Queue)
    requires Inv(w) && Quiet(w.jobs, jobs)
    ensures Inv(w.(jobs := jobs, queue := queue))
  {
    QuietDemand(w.jobs, jobs);
    FewerRows(w, w.(jobs := jobs, queue := queue));
  }

  lemma SubmitIsQuiet(t: JobService.Tables, user: int, req: JobService.Request, o: JobService.SubmitOutcome)
    requires o.id !in t.jobs
    ensures Quiet(t.jobs, JobService.Submitted(t, user, req, o).jobs)
  {
  }

  lemma CancelIsQuiet(t: JobService.Tables, id: int, user: int, o: JobService.CancelOutcome)
    ensures Quiet(t.jobs, JobService.Cancelled(t, id, user, o).jobs)
  {
  }

  lemma WithdrawIsQuiet(t: JobService.Tables, id: int, o: JobService.RemoveOutcome)
    ensures Quiet(t.jobs, JobService.Withdrawn(t, id, o).jobs)
  {
  }

  lemma MoveIsQuiet(w: World, job: int, before: int, o: Q.MoveOutcome)
    ensures Quiet(w.jobs, Q.MovedJobs(w.queue.entries, w.jobs, job, before, o))
  {
    forall id ensures id in w.jobs ==>
      var job' := Q.MovedJobs(w.queue.entries, w.jobs, job, before, o);
      id in job' && (Settled(w.jobs[id]) ==> job'[id].status == w.jobs[id].status)
      && job'[id].gpuIds == w.jobs[id].gpuIds
      && (job'[id].status == RUNNING ==> w.jobs[id].status == RUNNING)
    {
      Q.MoveStatuses(w.queue.entries, w.jobs, job, before, o, id);
    }
    Q.MoveStatuses(w.queue.entries, w.jobs, job, before, o, 0);
  }

  /** Cards found in the machine come in idle. */
  lemma SyncKeepsExact(demand: map<int, seq<int>>, cards: Rows, infos: seq<Info>)
    requires Exact(demand, cards)
    ensures Exact(demand, Upserted(cards, infos))
  {
    UpsertedKeeps(cards, infos);
  }

  lemma SyncKeepsInv(w: World, infos: seq<Info>)
    requires Inv(w)
    ensures Inv(w.(cards := Upserted(w.cards, infos)))
  {
    SyncKeepsExact(Demand(w.jobs), w.cards, infos);
    FewerRows(w, w.(cards := Upserted(w.cards, infos)));
  }

  // ------------------------------------------------------------- starting a job

  lemma DemandStart(jobs: map<int, Job>, id: int)
    requires id in jobs
    ensures Demand(SetStatus(jobs, id, RUNNING)) == Demand(jobs)[id := CardsOf(jobs[id])]
  {
  }

  lemma DemandOther(jobs: map<int, Job>, id: int, status: int)
    requires status != RUNNING
    ensures Demand(SetStatus(jobs, id, status)) == Demand(jobs) - {id}
  {
  }

  /** Taking idle cards for one more job. */
  lemma HeldExact(demand: map<int, seq<int>>, cards: Rows, id: int, ids: seq<int>)
    requires Exact(demand, cards) && id !in demand && CountTest(cards, ids)
    ensures Exact(demand[id := ids], Held(cards, ids, id))
  {
    CountTestExact(cards, ids);
  }

  lemma NewRowsActive(procs: seq<Process>, pid: int, job: int, ids: seq<int>, k: int)
    ensures ActiveRows(procs, k) <= ActiveRows(procs + NewRows(pid, job, ids), k)
    ensures ids != [] ==> ActiveRows(procs + NewRows(pid, job, ids), job) != {}
  {
    if ids != [] {
      assert |procs| in ActiveRows(procs + NewRows(pid, job, ids), job);
    }
  }

  /** Adding rows, an entry under an unused pid, and possibly its monitor. */
  lemma MoreMonitors(w: World, w': World, id: int, jp: JobProcess)
    requires MonitorsSound(w) && id !in Demand(w.jobs)
    requires forall k :: ActiveRows(w.procs, k) <= ActiveRows(w'.procs, k)
    requires w'.running == w.running || (jp.pid !in w.running && w'.running == w.running[jp.pid := jp])
    requires Demand(w'.jobs) == Demand(w.jobs) || Demand(w'.jobs) == Demand(w.jobs)[id := jp.cards]
    requires || w'.monitors == w.monitors
             || (&& w'.monitors == w.monitors + multiset{jp} && jp.job == id && ActiveRows(w'.procs, id) != {}
                 && jp.pid !in w.running && jp.pid in w'.running && id in Demand(w'.jobs))
    ensures MonitorsSound(w')
  {
    forall kp | kp in w'.monitors ensures MonitorFits(w', kp) {
      if kp in w.monitors {
        assert MonitorFits(w, kp);
        assert ActiveRows(w.procs, kp.job) <= ActiveRows(w'.procs, kp.job);
      }
    }
  }

  lemma StartMonitors(w: World, id: int, o: ExecOutcome)
    requires Inv(w) && id in w.jobs && Pending(w.jobs[id]) && CardsOf(w.jobs[id]) != []
    requires o.pid.Some? ==> o.pid.value !in w.running
    ensures MonitorsSound(Executed(w, id, CardsOf(w.jobs[id]), o))
  {
    var ids := CardsOf(w.jobs[id]);
    var w' := Executed(w, id, ids, o);
    var pid := if o.pid.Some? then o.pid.value else 0;
    DemandStart(w.jobs, id);
    DemandOther(w.jobs, id, FAILED);
    assert Demand(w.jobs) - {id} == Demand(w.jobs);
    var added := Inserted(ids, o);
    forall k ensures ActiveRows(w.procs, k) <= ActiveRows(w'.procs, k) {
      NewRowsActive(w.procs, pid, id, added, k);
    }
    NewRowsActive(w.procs, pid, id, ids, id);
    MoreMonitors(w, w', id, JobProcess(pid, id, ids));
  }

  lemma StartRows(w: World, id: int, o: ExecOutcome)
    requires Inv(w) && id in w.jobs && Pending(w.jobs[id])
    requires o.pid.Some? ==> o.pid.value !in w.running
    ensures RowsSound(Executed(w, id, CardsOf(w.jobs[id]), o))
  {
    var w' := Executed(w, id, CardsOf(w.jobs[id]), o);
    assert forall j :: IsRunning(w'.jobs, j) && j != id ==> IsRunning(w.jobs, j);
  }

  lemma StartPids(w: World, id: int, o: ExecOutcome)
    requires RowsSound(w) && OnePidPerJob(w) && id in w.jobs && Pending(w.jobs[id])
    ensures OnePidPerJob(Executed(w, id, CardsOf(w.jobs[id]), o))
  {
    var w' := Executed(w, id, CardsOf(w.jobs[id]), o);
    forall i | i in ActiveRowsOfRunning(w')
      ensures if w'.procs[i].job == id then o.pid.Some? && w'.procs[i].pid == o.pid.value
              else i in ActiveRowsOfRunning(w) && w'.procs[i] == w.procs[i]
    {
    }
  }

  lemma StartKeepsExact(w: World, id: int, o: ExecOutcome)
    requires Exact(Demand(w.jobs), w.cards) && id in w.jobs && Pending(w.jobs[id])
    ensures var w' := Executed(w, id, CardsOf(w.jobs[id]), o); Exact(Demand(w'.jobs), w'.cards)
  {
    var ids := CardsOf(w.jobs[id]);
    DemandStart(w.jobs, id);
    DemandOther(w.jobs, id, FAILED);
    assert Demand(w.jobs) - {id} == Demand(w.jobs);
    if Keeps(ExitOf(w.cards, w.jobs[id], ids, o)) {
      HeldExact(Demand(w.jobs), w.cards, id, ids);
    }
  }

  lemma StartKeepsInv(w: World, id: int, o: ExecOutcome)
    requires Inv(w) && id in w.jobs && Pending(w.jobs[id]) && CardsOf(w.jobs[id]) != []
    requires o.pid.Some? ==> o.pid.value !in w.running
    ensures Inv(Executed(w, id, CardsOf(w.jobs[id]), o))
  {
    StartKeepsExact(w, id, o);
    StartMonitors(w, id, o);
    StartRows(w, id, o);
    StartPids(w, id, o);
  }

  lemma TickKeepsInv(w: World, o: TickOutcome)
    requires Inv(w) && (o.exec.pid.Some? ==> o.exec.pid.value !in w.running)
    ensures Inv(Ticked(w, o))
  {
    match VerdictOf(w, o)
    case Nothing =>
    case Discard(id) =>
      assert Quiet(w.jobs, w.jobs);
      QuietKeepsInv(w, w.jobs, Dequeued(w.queue, id, o.removed));
    case Wait(id) =>
      var jobs := SetStatus(w.jobs, id, WAITING_GPU);
      assert Quiet(w.jobs, jobs);
      QuietKeepsInv(w, jobs, w.queue);
      assert w.(jobs := jobs, queue := w.queue) == w.(jobs := jobs);
    case Start(id) =>
      StartKeepsInv(w, id, o.exec);
      var w' := Executed(w, id, CardsOf(w.jobs[id]), o.exec);
      assert Quiet(w'.jobs, w'.jobs);
      QuietKeepsInv(w', w'.jobs, Dequeued(w'.queue, id, o.removed));
      assert w'.(jobs := w'.jobs, queue := Dequeued(w'.queue, id, o.removed)) == Ticked(w, o);
  }

  /** A start decided by a tick is refused only by an error of the transaction. */
  lemma TickNeverRefused(w: World, o: TickOutcome)
    requires VerdictOf(w, o).Start?
    ensures var id := VerdictOf(w, o).id;
            ExitOf(w.cards, w.jobs[id], CardsOf(w.jobs[id]), o.exec).Refused? <==> !o.exec.acquired
  {
  }

  // ----------------------------------------------------------- jobs that finish

  /** Finishing jobs and freeing exactly the cards they list. */
  lemma FreedExact(demand: map<int, seq<int>>, cards: Rows, gone: set<int>, freed: set<int>)
    requires Exact(demand, cards) && gone <= demand.Keys
    requires forall c :: c in freed <==> exists j :: j in gone && c in demand[j]
    ensures Exact(demand - gone, Freed(cards, freed))
  {
    var cards', demand' := Freed(cards, freed), demand - gone;
    forall c | c in cards && cards[c].busy && cards[c].job.value in gone ensures c in freed {
      var h := cards[c].job.value;
      assert h in gone && c in demand[h];
      assert exists j :: j in gone && c in demand[j];
    }
    forall c | c in freed ensures c in cards && cards[c].job.Some? && cards[c].job.value in gone {
      var k :| k in gone && c in demand[k];
      assert cards[c].job == Some(k);
    }
    forall j, c | j in demand' && c in demand'[j] ensures c in cards' && cards'[c].busy && cards'[c].job == Some(j) {
      assert cards[c].job == Some(j);
    }
  }

  lemma OneFreed(demand: map<int, seq<int>>, cards: Rows, j: int)
    requires Exact(demand, cards) && j in demand
    ensures Exact(demand - {j}, Freed(cards, IdSet(demand[j])))
  {
    forall c ensures c in IdSet(demand[j]) <==> exists i :: i in {j} && c in demand[i] {
      if c in IdSet(demand[j]) { assert j in {j} && c in demand[j]; }
    }
    FreedExact(demand, cards, {j}, IdSet(demand[j]));
  }

  lemma MonitorKeepsExact(w: World, jp: JobProcess, end: End, found: bool, unsaved: set<int>)
    requires Inv(w) && jp in w.monitors && !end.Stopped?
    ensures var w' := Monitored(w, jp, end, found, unsaved);
            Demand(w'.jobs) == Demand(w.jobs) - {jp.job} && Exact(Demand(w'.jobs), w'.cards)
  {
    DemandOther(w.jobs, jp.job, StatusAfter(end).value);
    OneFreed(Demand(w.jobs), w.cards, jp.job);
  }

  lemma OtherMonitors(w: World, jp: JobProcess, kp: JobProcess)
    requires MonitorsSound(w) && jp in w.monitors && kp in w.monitors - multiset{jp}
    ensures kp in w.monitors && kp.job != jp.job && kp.pid != jp.pid && w.monitors[jp] == 1 && MonitorFits(w, kp)
  {
    assert MonitorFits(w, jp);
  }

  lemma OtherRows(procs: seq<Process>, rows: set<int>, j: int, k: int)
    requires rows <= ActiveRows(procs, j) && k != j
    ensures ActiveRows(MarkedEnded(procs, rows), k) == ActiveRows(procs, k)
  {
  }

  lemma MonitorKeepsInv(w: World, jp: JobProcess, end: End, found: bool, unsaved: set<int>)
    requires Inv(w) && jp in w.monitors && !end.Stopped?
    ensures Inv(Monitored(w, jp, end, found, unsaved))
  {
    MonitorKeepsExact(w, jp, end, found, unsaved);
    MonitorKeepsMonitors(w, jp, end, found, unsaved);
    MonitorKeepsRows(w, jp, end, found, unsaved);
    FewerRows(w, Monitored(w, jp, end, found, unsaved));
  }

  lemma MonitorKeepsMonitors(w: World, jp: JobProcess, end: End, found: bool, unsaved: set<int>)
    requires MonitorsSound(w) && jp in w.monitors && !end.Stopped?
    ensures MonitorsSound(Monitored(w, jp, end, found, unsaved))
  {
    var w' := Monitored(w, jp, end, found, unsaved);
    DemandOther(w.jobs, jp.job, StatusAfter(end).value);
    var rows := if found then ActiveRows(w.procs, jp.job) - unsaved else {};
    forall kp | kp in w'.monitors ensures kp in w.monitors && MonitorFits(w', kp) {
      OtherMonitors(w, jp, kp);
      OtherRows(w.procs, rows, jp.job, kp.job);
    }
  }

  lemma MonitorKeepsRows(w: World, jp: JobProcess, end: End, found: bool, unsaved: set<int>)
    requires MonitorsSound(w) && RowsSound(w) && jp in w.monitors && !end.Stopped?
    ensures RowsSound(Monitored(w, jp, end, found, unsaved))
  {
    var w' := Monitored(w, jp, end, found, unsaved);
    assert MonitorFits(w, jp);
    forall i | 0 <= i < |w.procs|
      ensures w'.procs[i].pid == w.procs[i].pid && w'.procs[i].job == w.procs[i].job
      ensures w.procs[i].job in w'.jobs && Settled(w'.jobs[w.procs[i].job])
      ensures IsRunning(w'.jobs, w.procs[i].job) ==> w.procs[i].job != jp.job && IsRunning(w.jobs, w.procs[i].job)
    {
    }
  }

  // --------------------------------------------------------- audit and recovery

  lemma DemandFailed(jobs: map<int, Job>, lost: set<int>)
    ensures Demand(MarkedFailed(jobs, lost)) == Demand(jobs) - lost
  {
  }

  lemma CardsOfDemand(jobs: map<int, Job>, lost: set<int>, c: int)
    requires forall j :: j in lost ==> j in Demand(jobs)
    ensures c in CardsOfJobs(jobs, lost) <==> exists j :: j in lost && c in Demand(jobs)[j]
  {
    if c in CardsOfJobs(jobs, lost) {
      var j :| j in lost && j in jobs && c in CardsOf(jobs[j]);
      assert c in Demand(jobs)[j];
    }
    if j :| j in lost && c in Demand(jobs)[j] {
      assert c in CardsOf(jobs[j]);
    }
  }

  lemma ReclaimKeepsExact(w: World, lost: set<int>)
    requires Exact(Demand(w.jobs), w.cards) && forall j :: j in lost ==> IsRunning(w.jobs, j)
    ensures Exact(Demand(w.jobs) - lost, Freed(w.cards, CardsOfJobs(w.jobs, lost)))
  {
    var demand := Demand(w.jobs);
    forall j | j in lost ensures j in demand { assert IsRunning(w.jobs, j); }
    assert lost <= demand.Keys;
    forall c ensures c in CardsOfJobs(w.jobs, lost) <==> exists j :: j in lost && c in demand[j] {
      CardsOfDemand(w.jobs, lost, c);
    }
    FreedExact(demand, w.cards, lost, CardsOfJobs(w.jobs, lost));
  }

  /** In a run the audit finds nothing but Running jobs without a row. */
  lemma AuditFinds(w: World, o: PassOutcome)
    requires RowsSound(w)
    ensures DeadRows(w, o, Examined(w, o), w.running.Keys) == {}
    ensures LostJobs(w, o, Examined(w, o), w.running.Keys)
            == set j | j in Examined(w, o) && ActiveRows(w.procs, j) == {}
  {
    assert JobsOfRows(w.procs, {}) == {};
  }

  lemma AuditKeepsInv(w: World, o: PassOutcome)
    requires Inv(w)
    ensures Inv(Audited(w, o))
  {
    AuditFinds(w, o);
    var lost := LostJobs(w, o, Examined(w, o), w.running.Keys);
    ReclaimKeepsExact(w, lost);
    DemandFailed(w.jobs, lost);
    assert MarkedEnded(w.procs, {} - o.unsaved) == w.procs;
    AuditKeepsRest(w, lost, Freed(w.cards, CardsOfJobs(w.jobs, lost)));
    FewerRows(w, Audited(w, o));
  }

  lemma AuditKeepsRest(w: World, lost: set<int>, cards: Rows)
    requires Inv(w) && forall j :: j in lost ==> IsRunning(w.jobs, j) && ActiveRows(w.procs, j) == {}
    ensures var w' := w.(jobs := MarkedFailed(w.jobs, lost), cards := cards);
            MonitorsSound(w') && RowsSound(w')
  {
    DemandFailed(w.jobs, lost);
  }

  // --------------------------------------------------------------------- restart

  /** A recovery that can read what it needs. */
  ghost predicate CleanPass(w: World, o: PassOutcome) {
    && o.listed && o.unread == {}
    && forall i :: 0 <= i < |w.procs| ==> o.probe(w.procs[i].pid) != Unclear
  }

  /** Every process of a Running job is found alive or dead, and no two live rows are of
      one job. */
  ghost predicate OrderlyRestart(w: World, o: PassOutcome) {
    && (forall i :: i in ActiveRowsOfRunning(w) ==>
          w.procs[i].job in Examined(w, o) && o.probe(w.procs[i].pid) != Unclear)
    && (forall i, k :: !TwinRows(w, LiveRows(w, o, Examined(w, o)), i, k))
  }

  /** Two rows of one job. */
  ghost predicate TwinRows(w: World, rows: set<int>, i: int, k: int) {
    && i in rows && k in rows && i != k
    && 0 <= i < |w.procs| && 0 <= k < |w.procs| && w.procs[i].job == w.procs[k].job
  }

  lemma NotAmongJobs(procs: seq<Process>, rows: set<int>, j: int)
    requires forall k :: k in rows && 0 <= k < |procs| ==> procs[k].job != j
    ensures j !in JobsOfRows(procs, rows)
  {
  }

  /** A job with a live row is not given up. */
  lemma LiveIsKept(w: World, o: PassOutcome, i: int)
    requires OnePidPerJob(w) && i in LiveRows(w, o, Examined(w, o))
    ensures w.procs[i].job !in LostJobs(w, o, Examined(w, o), {})
    ensures i !in DeadRows(w, o, Examined(w, o), {})
  {
    var j, dead := w.procs[i].job, DeadRows(w, o, Examined(w, o), {});
    assert i in ActiveRows(w.procs, j) && i in ActiveRowsOfRunning(w);
    forall k | k in dead ensures w.procs[k].job != j {
      assert k in ActiveRowsOfRunning(w);
    }
    NotAmongJobs(w.procs, dead, j);
  }

  /** Rows of one process are of one job. */
  lemma SamePidSameJob(w: World, i: int, k: int)
    requires RowsSound(w) && i in ActiveRowsOfRunning(w) && k in ActiveRowsOfRunning(w)
    requires w.procs[i].pid == w.procs[k].pid
    ensures w.procs[i].job == w.procs[k].job
  {
  }

  /** Live rows of one process or one job are one row. */
  lemma SameLiveRow(w: World, o: PassOutcome, i: int, k: int)
    requires RowsSound(w) && OrderlyRestart(w, o)
    requires i in LiveRows(w, o, Examined(w, o)) && k in LiveRows(w, o, Examined(w, o))
    requires w.procs[i].pid == w.procs[k].pid || w.procs[i].job == w.procs[k].job
    ensures i == k
  {
    assert i in ActiveRowsOfRunning(w) && k in ActiveRowsOfRunning(w);
    if w.procs[i].pid == w.procs[k].pid { SamePidSameJob(w, i, k); }
    assert !TwinRows(w, LiveRows(w, o, Examined(w, o)), i, k);
  }

  /** A monitor after a restart belongs to a live row and is as it should be. */
  lemma RestartedMonitor(w: World, o: PassOutcome, w': World, jp: JobProcess) returns (i: int)
    requires RowsSound(w) && OrderlyRestart(w, o) && Recovered(Crashed(w), o, w') && jp in w'.monitors
    ensures i in LiveRows(w, o, Examined(w, o)) && TakenOver(Crashed(w), i) == jp
    ensures w'.monitors[jp] == 1 && jp.pid in w'.running && w'.running[jp.pid] == jp
  {
    var v := Crashed(w);
    var live := LiveRows(v, o, Examined(v, o));
    assert |MonitorsOf(v, live, jp)| > 0;
    i :| i in MonitorsOf(v, live, jp);
    OneMonitor(w, o, i);
    var k :| k in live && v.procs[k].pid == jp.pid && w'.running[jp.pid] == TakenOver(v, k);
    SameLiveRow(w, o, i, k);
  }

  lemma OneMonitor(w: World, o: PassOutcome, i: int)
    requires RowsSound(w) && OrderlyRestart(w, o) && i in LiveRows(w, o, Examined(w, o))
    ensures |MonitorsOf(Crashed(w), LiveRows(w, o, Examined(w, o)), TakenOver(Crashed(w), i))| == 1
  {
    var v, live := Crashed(w), LiveRows(w, o, Examined(w, o));
    forall k | k in MonitorsOf(v, live, TakenOver(v, i)) ensures k == i {
      SameLiveRow(w, o, i, k);
    }
    assert MonitorsOf(v, live, TakenOver(v, i)) == {i};
  }

  lemma RestartedJob(w: World, o: PassOutcome, w': World, i: int)
    requires OnePidPerJob(w) && Recovered(Crashed(w), o, w') && i in LiveRows(w, o, Examined(w, o))
    ensures var j := w.procs[i].job;
            j in Demand(w'.jobs) && Demand(w'.jobs)[j] == CardsOf(w.jobs[j]) && ActiveRows(w'.procs, j) != {}
  {
    LiveIsKept(w, o, i);
    DemandFailed(w.jobs, LostJobs(w, o, Examined(w, o), {}));
    assert i in ActiveRows(w'.procs, w.procs[i].job);
  }

  lemma RestartMonitors(w: World, o: PassOutcome, w': World)
    requires RowsSound(w) && OnePidPerJob(w) && OrderlyRestart(w, o) && Recovered(Crashed(w), o, w')
    ensures MonitorsSound(w')
  {
    forall jp | jp in w'.monitors ensures MonitorFits(w', jp) {
      var i := RestartedMonitor(w, o, w', jp);
      RestartedJob(w, o, w', i);
    }
    forall jp, kp | jp in w'.monitors && kp in w'.monitors && jp.job == kp.job ensures jp == kp {
      var i := RestartedMonitor(w, o, w', jp);
      var k := RestartedMonitor(w, o, w', kp);
      SameLiveRow(w, o, i, k);
    }
  }

  /** An active row of a job that stays Running was an active row before, and is not dead. */
  lemma RemainingRow(w: World, o: PassOutcome, w': World, i: int)
    requires Recovered(Crashed(w), o, w') && i in ActiveRowsOfRunning(w')
    ensures i in ActiveRowsOfRunning(w) && w'.procs[i] == w.procs[i]
    ensures w.procs[i].job in Examined(w, o) ==> o.probe(w.procs[i].pid) != Dead
  {
    DeadRowLosesJob(w, o, i);
  }

  lemma DeadRowLosesJob(w: World, o: PassOutcome, i: int)
    requires 0 <= i < |w.procs| && !w.procs[i].ended
    ensures w.procs[i].job in Examined(w, o) && o.probe(w.procs[i].pid) == Dead ==>
              w.procs[i].job in LostJobs(w, o, Examined(w, o), {})
  {
    var dead := DeadRows(w, o, Examined(w, o), {});
    assert i in dead ==> w.procs[i].job in JobsOfRows(w.procs, dead);
  }

  lemma RestartRows(w: World, o: PassOutcome, w': World)
    requires RowsSound(w) && OrderlyRestart(w, o) && Recovered(Crashed(w), o, w')
    ensures RowsSound(w')
  {
    var v := Crashed(w);
    var live := LiveRows(v, o, Examined(v, o));
    forall i | i in ActiveRowsOfRunning(w')
      ensures w'.procs[i].pid in w'.running && w'.running[w'.procs[i].pid].job == w'.procs[i].job
    {
      RemainingRow(w, o, w', i);
      assert i in live;
      var k :| k in live && v.procs[k].pid == v.procs[i].pid && w'.running[v.procs[i].pid] == TakenOver(v, k);
      SamePidSameJob(w, i, k);
    }
  }

  lemma RestartKeepsExact(w: World, o: PassOutcome, w': World)
    requires Exact(Demand(w.jobs), w.cards) && Recovered(Crashed(w), o, w')
    ensures Exact(Demand(w'.jobs), w'.cards)
  {
    var v := Crashed(w);
    var lost := LostJobs(v, o, Examined(v, o), {});
    assert forall j :: j in lost ==> IsRunning(v.jobs, j);
    ReclaimKeepsExact(v, lost);
    DemandFailed(v.jobs, lost);
  }

  lemma RestartPids(w: World, o: PassOutcome, w': World)
    requires OnePidPerJob(w) && Recovered(Crashed(w), o, w')
    ensures OnePidPerJob(w')
  {
    forall i | i in ActiveRowsOfRunning(w') ensures i in ActiveRowsOfRunning(w) && w'.procs[i] == w.procs[i] {
      RemainingRow(w, o, w', i);
    }
  }

  /** A row of a job that is not examined, or whose process could not be probed, stays
      active, and its job stays Running. */
  lemma UnclearRowStays(w: World, o: PassOutcome, w': World, i: int)
    requires OnePidPerJob(w) && Recovered(Crashed(w), o, w') && i in ActiveRowsOfRunning(w)
    requires w.procs[i].job !in Examined(w, o) || o.probe(w.procs[i].pid) == Unclear
    ensures i in ActiveRowsOfRunning(w')
  {
    var j, dead := w.procs[i].job, DeadRows(w, o, Examined(w, o), {});
    forall k | k in dead ensures w.procs[k].job != j {
      assert k in ActiveRowsOfRunning(w);
    }
    NotAmongJobs(w.procs, dead, j);
    assert i in ActiveRows(w.procs, j);
  }

  lemma TrackedAfterRestart(w: World, o: PassOutcome, w': World, i: int)
    requires RowsSound(w) && Recovered(Crashed(w), o, w')
    requires i in ActiveRowsOfRunning(w) && w.procs[i].pid in w'.running
    ensures w.procs[i].job in Examined(w, o) && o.probe(w.procs[i].pid) == Alive
  {
    var v := Crashed(w);
    var live := LiveRows(v, o, Examined(v, o));
    var k :| k in live && v.procs[k].pid == w.procs[i].pid && w'.running[w.procs[i].pid] == TakenOver(v, k);
    assert k in ActiveRowsOfRunning(w);
    SamePidSameJob(w, i, k);
  }

  lemma SoundRowsAreProbed(w: World, o: PassOutcome, w': World, i: int)
    requires RowsSound(w) && OnePidPerJob(w) && Recovered(Crashed(w), o, w') && RowsSound(w')
    requires i in ActiveRowsOfRunning(w)
    ensures w.procs[i].job in Examined(w, o) && o.probe(w.procs[i].pid) != Unclear
  {
    if w.procs[i].job !in Examined(w, o) || o.probe(w.procs[i].pid) == Unclear {
      UnclearRowStays(w, o, w', i);
      TrackedAfterRestart(w, o, w', i);
    }
  }

  lemma AtLeastTwo(s: set<int>, i: int, k: int)
    requires i in s && k in s && i != k
    ensures |s| >= 2
  {
    SubsetOfSameSize({i, k}, s);
  }

  lemma TwinsMonitored(
    w: World, rows: set<int>, running: map<int, JobProcess>, monitors: multiset<JobProcess>, i: int, k: int)
    requires RowsOfJobs(w, rows) && TookOver(w, rows, running, monitors)
    requires TwinRows(w, rows, i, k) && w.procs[i].pid == w.procs[k].pid
    ensures monitors[TakenOver(w, i)] >= 2
  {
    var twins := MonitorsOf(w, rows, TakenOver(w, i));
    assert i in twins && k in twins;
    AtLeastTwo(twins, i, k);
  }

  lemma TwinsAfterRestart(w: World, o: PassOutcome, w': World, i: int, k: int)
    requires OnePidPerJob(w) && Recovered(Crashed(w), o, w')
    ensures TwinRows(w, LiveRows(w, o, Examined(w, o)), i, k) ==>
              exists jp :: jp in w'.monitors && w'.monitors[jp] >= 2
  {
    var v, live := Crashed(w), LiveRows(w, o, Examined(w, o));
    if TwinRows(w, live, i, k) {
      assert i in ActiveRowsOfRunning(w) && k in ActiveRowsOfRunning(w);
      TwinsMonitored(v, live, w'.running, w'.monitors, i, k);
      assert TakenOver(v, i) in w'.monitors;
    }
  }

  /** A crash and its recovery keep cards and Running jobs matched, whatever the recovery
      can read, and keep the rest exactly when the restart is orderly. */
  lemma RestartKeepsInvExactly(w: World, o: PassOutcome, w': World)
    requires Inv(w) && Recovered(Crashed(w), o, w')
    ensures Exact(Demand(w'.jobs), w'.cards) && OnePidPerJob(w')
    ensures Inv(w') <==> OrderlyRestart(w, o)
  {
    RestartKeepsExact(w, o, w');
    RestartPids(w, o, w');
    if OrderlyRestart(w, o) {
      RestartMonitors(w, o, w');
      RestartRows(w, o, w');
    }
    if Inv(w') {
      forall i | i in ActiveRowsOfRunning(w)
        ensures w.procs[i].job in Examined(w, o) && o.probe(w.procs[i].pid) != Unclear
      {
        SoundRowsAreProbed(w, o, w', i);
      }
      forall i, k ensures !TwinRows(w, LiveRows(w, o, Examined(w, o)), i, k) {
        TwinsAfterRestart(w, o, w', i, k);
      }
    }
  }
}
