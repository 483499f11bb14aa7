/** Cards that a crash leaves busy under a job that is not Running: nothing ever frees
    them. */
module StrayCards {
  import opened Text
  import opened Entity
  import opened GpuAllocator
  import Q = QueueService
  import opened Cluster
  import opened SchedulerInvariant
  import opened Recovery
  import opened CrashPoints
  import opened SchedulerRuns
  import opened Sets

  // ------------------------------------------------------------ rows are kept

  /** Every job row stays, with its card list. */
  ghost predicate ListsKept(jobs: map<int, Job>, jobs': map<int, Job>) {
    forall j :: j in jobs ==> j in jobs' && jobs'[j].gpuIds == jobs[j].gpuIds
  }

  lemma MoveLists(w: World, job: int, before: int, o: Q.MoveOutcome)
    ensures ListsKept(w.jobs, Q.MovedJobs(w.queue.entries, w.jobs, job, before, o))
  {
    forall j | j in w.jobs ensures Q.DemotedAtMost(w.jobs, Q.MovedJobs(w.queue.entries, w.jobs, job, before, o), j) {
      Q.MoveStatuses(w.queue.entries, w.jobs, job, before, o, j);
    }
  }

  lemma StepLists(w: World, s: Step, w': World)
    requires Next(w, s, w')
    ensures ListsKept(w.jobs, w'.jobs)
  {
    match s
    case Move(job, before, o) => MoveLists(w, job, before, o);
    case Tick(o) => TickLists(w, o);
    case CutStart(o, n) => StartCutLists(w, VerdictOf(w, o).id, o.exec, n);
    case Submit(_, _, _) => TablesLists(w, s, w');
    case Cancel(_, _, _) => TablesLists(w, s, w');
    case Withdraw(_, _) => TablesLists(w, s, w');
    case Restart(o) => RestartLists(w, o, w');
    case _ =>
  }

  lemma TickLists(w: World, o: TickOutcome)
    ensures ListsKept(w.jobs, Ticked(w, o).jobs)
  {
  }

  lemma StartCutLists(w: World, id: int, o: ExecOutcome, n: nat)
    requires id in w.jobs
    ensures ListsKept(w.jobs, StartCut(w, id, o, n).jobs)
  {
    StartCutIs(w, id, o, n);
  }

  lemma TablesLists(w: World, s: Step, w': World)
    requires Next(w, s, w') && (s.Submit? || s.Cancel? || s.Withdraw?)
    ensures ListsKept(w.jobs, w'.jobs)
  {
  }

  lemma RestartLists(w: World, o: PassOutcome, w': World)
    requires Recovered(Crashed(w), o, w')
    ensures ListsKept(w.jobs, w'.jobs)
  {
  }

  // --------------------------------------------------------------- stray cards

  /** Busy under a job that is not Running and lists it; no Running job lists it and no
      monitor will free it. */
  ghost predicate Stray(w: World, c: int, j: int) {
    && BusyUnder(w, c, j) && j in w.jobs && !IsRunning(w.jobs, j) && c in CardsOf(w.jobs[j])
    && (forall i :: IsRunning(w.jobs, i) ==> c !in CardsOf(w.jobs[i]))
    && (forall jp :: jp in w.monitors ==> c !in jp.cards)
  }

  /** A step that starts no job on the card, frees it for none, and watches none on it. */
  lemma StillStray(w: World, w': World, c: int, j: int)
    requires Stray(w, c, j) && ListsKept(w.jobs, w'.jobs)
    requires c in w'.cards && w'.cards[c] == w.cards[c]
    requires forall i :: IsRunning(w'.jobs, i) ==>
               (i in w.jobs && c !in CardsOf(w.jobs[i])) || (i !in w.jobs && c !in CardsOf(w'.jobs[i]))
    requires forall jp :: jp in w'.monitors ==> c !in jp.cards
    ensures Stray(w', c, j)
  {
  }

  lemma BusyIsNotStarted(w: World, id: int, c: int, o: ExecOutcome)
    requires c in w.cards && w.cards[c].busy && id in w.jobs
    ensures c in CardsOf(w.jobs[id]) ==> ExitOf(w.cards, w.jobs[id], CardsOf(w.jobs[id]), o).Refused?
  {
    CountTestExact(w.cards, CardsOf(w.jobs[id]));
  }

  lemma TickStray(w: World, o: TickOutcome, c: int, j: int)
    requires Stray(w, c, j)
    ensures Stray(Ticked(w, o), c, j)
  {
    TickLists(w, o);
    if VerdictOf(w, o).Start? { BusyIsNotStarted(w, VerdictOf(w, o).id, c, o.exec); }
    StillStray(w, Ticked(w, o), c, j);
  }

  lemma StartCutStray(w: World, id: int, o: ExecOutcome, n: nat, c: int, j: int)
    requires Stray(w, c, j) && id in w.jobs
    ensures Stray(StartCut(w, id, o, n), c, j)
  {
    var u := StartCut(w, id, o, n);
    StartCutIs(w, id, o, n);
    BusyIsNotStarted(w, id, c, o);
    StillStray(w, u, c, j);
  }

  lemma NotAmongLost(w: World, lost: set<int>, c: int)
    requires forall j :: j in lost ==> IsRunning(w.jobs, j)
    requires forall i :: IsRunning(w.jobs, i) ==> c !in CardsOf(w.jobs[i])
    ensures c !in CardsOfJobs(w.jobs, lost)
  {
  }

  lemma ReclaimStray(w: World, lost: set<int>, dead: set<int>, unsaved: set<int>, c: int, j: int)
    requires Stray(w, c, j) && forall i :: i in lost ==> IsRunning(w.jobs, i)
    ensures Stray(Reclaimed(w, lost, dead, unsaved), c, j)
  {
    NotAmongLost(w, lost, c);
    StillStray(w, Reclaimed(w, lost, dead, unsaved), c, j);
  }

  lemma AuditStray(w: World, o: PassOutcome, c: int, j: int)
    requires Stray(w, c, j)
    ensures Stray(Audited(w, o), c, j)
  {
    LostAreRunning(w, o, w.running.Keys);
    var jobs := Examined(w, o);
    ReclaimStray(w, LostJobs(w, o, jobs, w.running.Keys), DeadRows(w, o, jobs, w.running.Keys), o.unsaved, c, j);
  }

  lemma RestartStray(w: World, o: PassOutcome, w': World, c: int, j: int)
    requires Stray(w, c, j) && Recovered(Crashed(w), o, w')
    ensures Stray(w', c, j)
  {
    var v := Crashed(w);
    var jobs := Examined(v, o);
    var live := LiveRows(v, o, jobs);
    LostAreRunning(v, o, {});
    var u := Reclaimed(v, LostJobs(v, o, jobs, {}), DeadRows(v, o, jobs, {}), o.unsaved);
    assert Stray(v, c, j);
    ReclaimStray(v, LostJobs(v, o, jobs, {}), DeadRows(v, o, jobs, {}), o.unsaved, c, j);
    forall jp | jp in w'.monitors ensures c !in jp.cards {
      assert |MonitorsOf(v, live, jp)| > 0;
      var i :| i in MonitorsOf(v, live, jp);
      assert IsRunning(w.jobs, w.procs[i].job);
    }
    assert Stray(u, c, j);
    assert w' == u.(running := w'.running, monitors := w'.monitors);
  }

  lemma PassCutStray(w: World, o: PassOutcome, at: PassCutAt, c: int, j: int)
    requires Stray(w, c, j) && CutsPass(w, o, at)
    ensures Stray(PassCut(w, at), c, j)
  {
    LostAreRunning(w, o, TrackedAt(w, at));
    NotAmongLost(w, at.lost, c);
    StillStray(w, PassCut(w, at), c, j);
  }

  lemma QuietStray(w: World, s: Step, w': World, c: int, j: int)
    requires Stray(w, c, j) && IsQuiet(s) && Next(w, s, w')
    ensures Stray(w', c, j)
  {
    StepLists(w, s, w');
    QuietSteps(w, s, w');
    forall i | IsRunning(w'.jobs, i) ensures i in w.jobs && c !in CardsOf(w.jobs[i]) {
      assert IsRunning(w.jobs, i);
    }
    StillStray(w, w', c, j);
  }

  lemma ExitStray(w: World, jp: JobProcess, end: End, found: bool, unsaved: set<int>, c: int, j: int)
    requires Stray(w, c, j) && jp in w.monitors
    ensures Stray(Monitored(w, jp, end, found, unsaved), c, j)
  {
    StillStray(w, Monitored(w, jp, end, found, unsaved), c, j);
  }

  lemma ExitCutStray(w: World, jp: JobProcess, end: End, ended: set<int>, c: int, j: int)
    requires Stray(w, c, j)
    ensures Stray(ExitCut(w, jp, end, ended), c, j)
  {
    StillStray(w, ExitCut(w, jp, end, ended), c, j);
  }

  lemma DiscoverStray(w: World, infos: seq<Info>, c: int, j: int)
    requires Stray(w, c, j)
    ensures Stray(w.(cards := Upserted(w.cards, infos)), c, j)
  {
    UpsertedKeeps(w.cards, infos);
    StillStray(w, w.(cards := Upserted(w.cards, infos)), c, j);
  }

  lemma StepStray(w: World, s: Step, w': World, c: int, j: int)
    requires Stray(w, c, j) && Next(w, s, w')
    ensures Stray(w', c, j)
  {
    if IsQuiet(s) {
      QuietStray(w, s, w', c, j);
    } else {
      match s
      case Tick(o) => TickStray(w, o, c, j);
      case Audit(o) => AuditStray(w, o, c, j);
      case Restart(o) => RestartStray(w, o, w', c, j);
      case CutStart(o, n) => StartCutStray(w, VerdictOf(w, o).id, o.exec, n, c, j);
      case CutPass(o, at) => PassCutStray(w, o, at, c, j);
      case MonitorExit(jp, end, found, unsaved) => ExitStray(w, jp, end, found, unsaved, c, j);
      case CutExit(jp, end, ended) => ExitCutStray(w, jp, end, ended, c, j);
      case Discover(infos) => DiscoverStray(w, infos, c, j);
    }
  }

  /** In every run a stray card stays busy under its job for good, which never runs. */
  lemma {:induction false} StrayForever(trace: seq<World>, steps: seq<Step>, a: nat, b: nat, c: int, j: int)
    requires IsRun(trace, steps) && a <= b < |trace| && Stray(trace[a], c, j)
    ensures Stray(trace[b], c, j)
  {
    forall n | a <= n < b && Stray(trace[n], c, j) ensures Stray(trace[n + 1], c, j) {
      StepStray(trace[n], steps[n], trace[n + 1], c, j);
    }
    ChainStray(trace, a, b, c, j);
  }

  lemma {:induction false} ChainStray(trace: seq<World>, a: nat, b: nat, c: int, j: int)
    requires a <= b < |trace| && Stray(trace[a], c, j)
    requires forall n :: a <= n < b && Stray(trace[n], c, j) ==> Stray(trace[n + 1], c, j)
    ensures Stray(trace[b], c, j)
  {
    if a < b { ChainStray(trace, a, b - 1, c, j); }
  }

  // ------------------------------------------------------------ where they are from

  /** No Running job lists an idle card. */
  lemma IdleIsUnlisted(w: World, c: int)
    requires Matched(w) && c in w.cards && !w.cards[c].busy
    ensures forall i :: IsRunning(w.jobs, i) ==> c !in CardsOf(w.jobs[i])
  {
    forall i | IsRunning(w.jobs, i) ensures c !in CardsOf(w.jobs[i]) {
      ExactMeans(w, c, i);
    }
  }

  lemma HeldUnmarkedStrays(w: World, id: int, o: ExecOutcome, n: nat)
    requires Matched(w) && id in w.jobs && Pending(w.jobs[id]) && HeldUnmarked(Done(w, id, o, n))
    ensures CardsOf(w.jobs[id]) != [] && forall c :: c in CardsOf(w.jobs[id]) ==> Stray(StartCut(w, id, o, n), c, id)
  {
    var ids := CardsOf(w.jobs[id]);
    StartCutIs(w, id, o, n);
    CountTestExact(w.cards, ids);
    assert Fail !in Done(w, id, o, n);
    forall c | c in ids ensures Stray(StartCut(w, id, o, n), c, id) {
      IdleIsUnlisted(w, c);
    }
  }

  /** A Running job that is marked final without its cards being freed. */
  lemma MarkedOnlyStrays(w: World, u: World, j: int, status: int)
    requires Matched(w) && IsRunning(w.jobs, j) && status != RUNNING && u.monitors == multiset{}
    requires ListsKept(w.jobs, u.jobs) && u.jobs[j].status == status
    requires forall i :: IsRunning(u.jobs, i) ==> IsRunning(w.jobs, i)
    requires forall c :: c in CardsOf(w.jobs[j]) ==> c in w.cards && c in u.cards && u.cards[c] == w.cards[c]
    ensures forall c :: c in CardsOf(w.jobs[j]) ==> Stray(u, c, j)
  {
    forall c | c in CardsOf(w.jobs[j]) ensures Stray(u, c, j) {
      ExactMeans(w, c, j);
      forall i | IsRunning(u.jobs, i) ensures c !in CardsOf(u.jobs[i]) {
        ExactMeans(w, c, i);
      }
    }
  }

  lemma ExitCutStrays(w: World, jp: JobProcess, end: End, ended: set<int>)
    requires Matched(w) && IsRunning(w.jobs, jp.job) && !end.Stopped?
    ensures forall c :: c in CardsOf(w.jobs[jp.job]) ==> Stray(ExitCut(w, jp, end, ended), c, jp.job)
  {
    forall c | c in CardsOf(w.jobs[jp.job]) ensures c in w.cards { ExactMeans(w, c, jp.job); }
    MarkedOnlyStrays(w, ExitCut(w, jp, end, ended), jp.job, StatusAfter(end).value);
  }

  lemma PassCutStrays(w: World, o: PassOutcome, at: PassCutAt)
    requires Matched(w) && CutsPass(w, o, at) && at.marked.Some?
    ensures at.marked.value in w.jobs
    ensures forall c :: c in CardsOf(w.jobs[at.marked.value]) ==> Stray(PassCut(w, at), c, at.marked.value)
  {
    var j := at.marked.value;
    LostAreRunning(w, o, TrackedAt(w, at));
    forall c | c in CardsOf(w.jobs[j]) ensures c in w.cards && c !in CardsOfJobs(w.jobs, at.lost) {
      ExactMeans(w, c, j);
      forall i | i in at.lost && i in w.jobs ensures c !in CardsOf(w.jobs[i]) { ExactMeans(w, c, i); }
    }
    MarkedOnlyStrays(w, PassCut(w, at), j, FAILED);
  }

  /** A crash that parts cards and Running jobs leaves a card stray for good, unless it
      falls between giving cards back and failing the job. */
  lemma UnsafeCutStrays(w: World, s: Step, w': World) returns (c: int, j: int)
    requires Matched(w) && IsCut(s) && Next(w, s, w') && !SafeStep(w, s)
    requires s.CutStart? ==> !FreedUnfailed(Done(w, VerdictOf(w, s.start).id, s.start.exec, s.writes))
    ensures Stray(w', c, j)
  {
    match s
    case CutStart(o, n) =>
      j := VerdictOf(w, o).id;
      HeldUnmarkedStrays(w, j, o.exec, n);
      c := CardsOf(w.jobs[j])[0];
    case CutExit(jp, end, ended) =>
      j := jp.job;
      ExitCutStrays(w, jp, end, ended);
      c := CardsOf(w.jobs[j])[0];
    case CutPass(o, at) =>
      j := at.marked.value;
      PassCutStrays(w, o, at);
      c := CardsOf(w.jobs[j])[0];
  }

  // --------------------------------------------------------------- what is repaired

  /** Freeing idle cards again changes nothing. */
  lemma FreedAgain(cards: Rows, some: set<int>, more: set<int>)
    requires IdleHasNoJob(cards) && forall c :: c in more && c in cards ==> !cards[c].busy
    ensures Freed(cards, some + more) == Freed(cards, some)
  {
    forall c | c in cards ensures Freed(cards, some + more)[c] == Freed(cards, some)[c] {}
  }

  /** A crash after the cards are given back and before the job is failed leaves a Running
      job without rows: a recovery repairs it exactly when it examines that job. */
  lemma FreedUnfailedExactly(w: World, id: int, o: ExecOutcome, n: nat, pass: PassOutcome, w': World)
    requires Matched(w) && StartedOnly(w) && id in w.jobs && Pending(w.jobs[id])
    requires FreedUnfailed(Done(w, id, o, n)) && Recovered(StartCut(w, id, o, n), pass, w')
    ensures Matched(w') <==> id in Examined(StartCut(w, id, o, n), pass)
  {
    var u, ids := StartCut(w, id, o, n), CardsOf(w.jobs[id]);
    StartCutIs(w, id, o, n);
    FreedHeld(w.cards, ids, id);
    CountTestExact(w.cards, ids);
    assert u.jobs == SetStatus(w.jobs, id, RUNNING) && u.cards == w.cards;
    LostAreRunning(u, pass, {});
    RowlessStart(w, id, o, n, pass);
    ReclaimDecides(w, id, LostJobs(u, pass, Examined(u, pass), {}));
  }

  /** Reclaiming Running jobs when one of them has no cards any more. */
  lemma ReclaimDecides(w: World, id: int, lost: set<int>)
    requires Matched(w) && id in w.jobs && !IsRunning(w.jobs, id)
    requires CardsOf(w.jobs[id]) != [] && AllIdle(w.cards, CardsOf(w.jobs[id]))
    requires forall j :: j in lost ==> IsRunning(SetStatus(w.jobs, id, RUNNING), j)
    ensures var jobs := SetStatus(w.jobs, id, RUNNING);
            Exact(Demand(MarkedFailed(jobs, lost)), Freed(w.cards, CardsOfJobs(jobs, lost))) <==> id in lost
  {
    var jobs, ids := SetStatus(w.jobs, id, RUNNING), CardsOf(w.jobs[id]);
    DemandStart(w.jobs, id);
    DemandFailed(jobs, lost);
    assert id !in Demand(w.jobs);
    if id in lost {
      RepairedAll(w, id, lost);
      assert Demand(jobs) - lost == Demand(w.jobs) - (lost - {id});
    } else {
      StillListed(Demand(jobs) - lost, Freed(w.cards, CardsOfJobs(jobs, lost)), id, ids);
    }
  }

  lemma StillListed(demand: map<int, seq<int>>, cards: Rows, id: int, ids: seq<int>)
    requires id in demand && demand[id] == ids != [] && forall c :: c in ids && c in cards ==> !cards[c].busy
    ensures !Exact(demand, cards)
  {
    var c := ids[0];
    assert c in ids && c in demand[id];
  }

  lemma RowlessStart(w: World, id: int, o: ExecOutcome, n: nat, pass: PassOutcome)
    requires StartedOnly(w) && id in w.jobs && Pending(w.jobs[id]) && FreedUnfailed(Done(w, id, o, n))
    ensures var u := StartCut(w, id, o, n);
            id in LostJobs(u, pass, Examined(u, pass), {}) <==> id in Examined(u, pass)
  {
    var u := StartCut(w, id, o, n);
    StartCutIs(w, id, o, n);
    assert u.procs == w.procs;
    forall i | 0 <= i < |w.procs| ensures w.procs[i].job != id {
      assert Settled(w.jobs[w.procs[i].job]);
    }
    assert ActiveRows(u.procs, id) == {};
  }

  lemma RepairedAll(w: World, id: int, lost: set<int>)
    requires Matched(w) && id in w.jobs && !IsRunning(w.jobs, id) && AllIdle(w.cards, CardsOf(w.jobs[id])) && id in lost
    requires forall j :: j in lost ==> j == id || IsRunning(w.jobs, j)
    ensures var u := SetStatus(w.jobs, id, RUNNING);
            Exact(Demand(w.jobs) - (lost - {id}), Freed(w.cards, CardsOfJobs(u, lost)))
  {
    var u, ids, rest := SetStatus(w.jobs, id, RUNNING), CardsOf(w.jobs[id]), lost - {id};
    ReclaimKeepsExact(w, rest);
    forall c ensures c in CardsOfJobs(u, lost) <==> c in CardsOfJobs(w.jobs, rest) + IdSet(ids) {
      CardsSplit(w.jobs, id, lost, c);
    }
    assert CardsOfJobs(u, lost) == CardsOfJobs(w.jobs, rest) + IdSet(ids);
    FreedAgain(w.cards, CardsOfJobs(w.jobs, rest), IdSet(ids));
  }

  lemma CardsSplit(jobs: map<int, Job>, id: int, lost: set<int>, c: int)
    requires id in jobs && id in lost
    ensures c in CardsOfJobs(SetStatus(jobs, id, RUNNING), lost)
            <==> c in CardsOfJobs(jobs, lost - {id}) || c in CardsOf(jobs[id])
  {
    var u := SetStatus(jobs, id, RUNNING);
    if c in CardsOfJobs(u, lost) {
      var j :| j in lost && j in u && c in CardsOf(u[j]);
      if j != id { assert j in lost - {id} && j in jobs && c in CardsOf(jobs[j]); }
    }
    if c in CardsOf(jobs[id]) { assert id in u && c in CardsOf(u[id]); }
    if c in CardsOfJobs(jobs, lost - {id}) {
      var j :| j in lost - {id} && j in jobs && c in CardsOf(jobs[j]);
      assert j in lost && j in u && c in CardsOf(u[j]);
    }
  }
}
