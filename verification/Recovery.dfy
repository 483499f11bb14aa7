/** One pass of recovery or audit over the tables: what it reclaims, what it leaves,
    and where its promises stop. */
module Recovery {
  import opened Text
  import opened Entity
  import opened GpuAllocator
  import opened Cluster
  import opened SchedulerInvariant
  import opened Sets

  // ------------------------------------------------------------------ recovery

  ghost predicate HasLivePid(w: World, o: PassOutcome, j: int) {
    exists i :: i in ActiveRows(w.procs, j) && o.probe(w.procs[i].pid) == Alive
  }

  /** A pass without any error. */
  ghost predicate ErrorFree(w: World, o: PassOutcome) {
    CleanPass(w, o) && o.unsaved == {}
  }

  lemma RecoveryVerdict(w: World, o: PassOutcome, j: int)
    requires OnePidPerJob(w) && CleanPass(w, o) && IsRunning(w.jobs, j)
    ensures j in LostJobs(w, o, Examined(w, o), {}) <==> !HasLivePid(w, o, j)
    ensures !HasLivePid(w, o, j) ==> ActiveRows(w.procs, j) <= DeadRows(w, o, Examined(w, o), {})
    ensures HasLivePid(w, o, j) ==> ActiveRows(w.procs, j) <= LiveRows(w, o, Examined(w, o))
  {
    var dead := DeadRows(w, o, Examined(w, o), {});
    if HasLivePid(w, o, j) {
      var i :| i in ActiveRows(w.procs, j) && o.probe(w.procs[i].pid) == Alive;
      forall k | k in ActiveRows(w.procs, j) ensures o.probe(w.procs[k].pid) == Alive {}
      forall k | k in dead ensures w.procs[k].job != j {
        assert k in ActiveRows(w.procs, w.procs[k].job);
      }
      NotAmongJobs(w.procs, dead, j);
    } else if ActiveRows(w.procs, j) != {} {
      var i :| i in ActiveRows(w.procs, j);
      forall k | k in ActiveRows(w.procs, j) ensures k in dead {}
      assert i in dead && w.procs[i].job == j;
    }
  }

  /** Cards of jobs that are kept come through the release of the others unchanged. */
  lemma KeptCards(demand: map<int, seq<int>>, cards: Rows, lost: set<int>, freed: set<int>, j: int)
    requires Exact(demand - lost, Freed(cards, freed)) && j in demand && j !in lost
    ensures forall c :: c in demand[j] ==> c in cards && Freed(cards, freed)[c] == cards[c]
  {
    var kept, cards' := demand - lost, Freed(cards, freed);
    forall c | c in demand[j] ensures c in cards && cards'[c] == cards[c] {
      assert j in kept && c in kept[j];
      assert cards'[c].busy;
    }
  }

  lemma KeptJob(w: World, lost: set<int>, j: int)
    requires Exact(Demand(w.jobs), w.cards) && IsRunning(w.jobs, j) && j !in lost
    requires forall i :: i in lost ==> IsRunning(w.jobs, i)
    ensures j in Demand(w.jobs) && MarkedFailed(w.jobs, lost)[j] == w.jobs[j]
    ensures forall c :: c in Demand(w.jobs)[j] ==>
              c in w.cards && Freed(w.cards, CardsOfJobs(w.jobs, lost))[c] == w.cards[c]
  {
    ReclaimKeepsExact(w, lost);
    KeptCards(Demand(w.jobs), w.cards, lost, CardsOfJobs(w.jobs, lost), j);
  }

  lemma LiveJobTracked(w: World, o: PassOutcome, w': World, j: int)
    requires OnePidPerJob(w) && CleanPass(w, o) && Recovered(w, o, w') && IsRunning(w.jobs, j) && HasLivePid(w, o, j)
    ensures ActiveRows(w'.procs, j) == ActiveRows(w.procs, j) != {}
    ensures forall i :: i in ActiveRows(w'.procs, j) ==> w'.procs[i].pid in w'.running
  {
    RecoveryVerdict(w, o, j);
    KeptRows(w, o, j);
    assert forall i :: 0 <= i < |w.procs| ==> w'.procs[i].pid == w.procs[i].pid;
  }

  /** A Running job with a live process stays Running, is tracked and monitored, and its
      cards are not touched. */
  lemma LiveJobSurvives(w: World, o: PassOutcome, w': World, j: int)
    requires Exact(Demand(w.jobs), w.cards) && OnePidPerJob(w) && ErrorFree(w, o) && Recovered(w, o, w')
    requires IsRunning(w.jobs, j) && HasLivePid(w, o, j)
    ensures j in w'.jobs && w'.jobs[j] == w.jobs[j]
    ensures ActiveRows(w'.procs, j) == ActiveRows(w.procs, j) != {}
    ensures forall i :: i in ActiveRows(w.procs, j) ==> TakenOver(w, i) in w'.monitors && w.procs[i].pid in w'.running
    ensures forall i :: i in ActiveRows(w.procs, j) && PidOfOneJob(w, w.procs[i].pid) ==>
              w'.running[w.procs[i].pid] == TakenOver(w, i)
    ensures forall c :: c in Demand(w.jobs)[j] ==> c in w'.cards && w'.cards[c] == w.cards[c]
  {
    RecoveryVerdict(w, o, j);
    LiveJobTracked(w, o, w', j);
    KeptJob(w, LostJobs(w, o, Examined(w, o), {}), j);
    forall i | i in ActiveRows(w.procs, j)
      ensures TakenOver(w, i) in w'.monitors && w.procs[i].pid in w'.running
      ensures PidOfOneJob(w, w.procs[i].pid) ==> w'.running[w.procs[i].pid] == TakenOver(w, i)
    {
      LiveRowTakenOver(w, LiveRows(w, o, Examined(w, o)), w'.running, w'.monitors, i);
    }
  }

  /** No two Running jobs have an active row of this process. */
  ghost predicate PidOfOneJob(w: World, pid: int) {
    forall i, k :: i in ActiveRowsOfRunning(w) && k in ActiveRowsOfRunning(w)
                   && w.procs[i].pid == w.procs[k].pid == pid ==>
      w.procs[i].job == w.procs[k].job
  }

  lemma LiveRowTakenOver(
    w: World, live: set<int>, running: map<int, JobProcess>, monitors: multiset<JobProcess>, i: int)
    requires live <= ActiveRowsOfRunning(w) && RowsOfJobs(w, live) && TookOver(w, live, running, monitors) && i in live
    ensures TakenOver(w, i) in monitors && w.procs[i].pid in running
    ensures PidOfOneJob(w, w.procs[i].pid) ==> running[w.procs[i].pid] == TakenOver(w, i)
  {
    assert i in MonitorsOf(w, live, TakenOver(w, i));
    var k :| k in live && w.procs[k].pid == w.procs[i].pid && running[w.procs[i].pid] == TakenOver(w, k);
    assert k in ActiveRowsOfRunning(w) && i in ActiveRowsOfRunning(w);
  }

  lemma KeptRows(w: World, o: PassOutcome, j: int)
    requires ActiveRows(w.procs, j) <= LiveRows(w, o, Examined(w, o))
    ensures ActiveRows(MarkedEnded(w.procs, DeadRows(w, o, Examined(w, o), {}) - o.unsaved), j)
            == ActiveRows(w.procs, j)
  {
    var dead := DeadRows(w, o, Examined(w, o), {});
    forall i | i in ActiveRows(w.procs, j) ensures i !in dead { assert i in LiveRows(w, o, Examined(w, o)); }
  }

  /** Every other Running job is Failed, with no active row and all its cards idle. */
  lemma DeadJobReclaimed(w: World, o: PassOutcome, w': World, j: int)
    requires OnePidPerJob(w) && ErrorFree(w, o) && Recovered(w, o, w')
    requires IsRunning(w.jobs, j) && !HasLivePid(w, o, j)
    ensures j in w'.jobs && w'.jobs[j].status == FAILED
    ensures ActiveRows(w'.procs, j) == {}
    ensures forall c :: c in CardsOf(w.jobs[j]) && c in w.cards ==>
              c in w'.cards && !w'.cards[c].busy && w'.cards[c].job == None
  {
    RecoveryVerdict(w, o, j);
    var lost := LostJobs(w, o, Examined(w, o), {});
    forall c | c in CardsOf(w.jobs[j]) ensures c in CardsOfJobs(w.jobs, lost) {
      assert j in lost && j in w.jobs && c in CardsOf(w.jobs[j]);
    }
    AllEnded(w.procs, DeadRows(w, o, Examined(w, o), {}) - o.unsaved, j);
  }

  lemma AllEnded(procs: seq<Process>, rows: set<int>, j: int)
    requires ActiveRows(procs, j) <= rows
    ensures ActiveRows(MarkedEnded(procs, rows), j) == {}
  {
    forall i | 0 <= i < |procs| && procs[i].job == j ensures MarkedEnded(procs, rows)[i].ended {
      assert procs[i].ended || i in ActiveRows(procs, j);
    }
  }

  /** An audit right after such a recovery changes nothing, whatever its probes say. */
  lemma AuditAfterRecovery(w: World, o: PassOutcome, w': World, o': PassOutcome)
    requires Exact(Demand(w.jobs), w.cards) && OnePidPerJob(w) && ErrorFree(w, o) && Recovered(w, o, w')
    ensures Audited(w', o') == w'
  {
    var jobs := Examined(w', o');
    forall j | j in jobs
      ensures ActiveRows(w'.procs, j) != {}
      ensures forall i :: i in ActiveRows(w'.procs, j) ==> w'.procs[i].pid in w'.running
    {
      assert IsRunning(w.jobs, j);
      RecoveryVerdict(w, o, j);
      LiveJobTracked(w, o, w', j);
    }
    NothingToReclaim(w', o');
  }

  lemma NothingToReclaim(w: World, o: PassOutcome)
    requires forall j :: j in Examined(w, o) ==> ActiveRows(w.procs, j) != {}
    requires forall j, i :: j in Examined(w, o) && i in ActiveRows(w.procs, j) ==> w.procs[i].pid in w.running
    ensures Audited(w, o) == w
  {
    var jobs := Examined(w, o);
    forall i ensures i !in DeadRows(w, o, jobs, w.running.Keys) {
      if 0 <= i < |w.procs| && !w.procs[i].ended && w.procs[i].job in jobs {
        assert i in ActiveRows(w.procs, w.procs[i].job);
      }
    }
    assert DeadRows(w, o, jobs, w.running.Keys) == {};
    assert JobsOfRows(w.procs, {}) == {};
    assert LostJobs(w, o, jobs, w.running.Keys) == {};
    assert MarkedFailed(w.jobs, {}) == w.jobs;
    assert MarkedEnded(w.procs, {} - o.unsaved) == w.procs;
    assert CardsOfJobs(w.jobs, {}) == {};
    assert Freed(w.cards, {}) == w.cards;
  }

  // --------------------------------------------------------------------- audit

  /** Tracked throughout: at least one active row, and `runningJobs` knows the pid of
      every one. */
  ghost predicate Tracked(w: World, j: int) {
    ActiveRows(w.procs, j) != {} && forall i :: i in ActiveRows(w.procs, j) ==> w.procs[i].pid in w.running
  }

  lemma TrackedIsNotLost(w: World, o: PassOutcome, j: int)
    requires Tracked(w, j)
    ensures j !in LostJobs(w, o, Examined(w, o), w.running.Keys)
    ensures ActiveRows(w.procs, j) !! DeadRows(w, o, Examined(w, o), w.running.Keys)
  {
    var dead := DeadRows(w, o, Examined(w, o), w.running.Keys);
    forall i | i in dead ensures w.procs[i].job != j {
      assert i in ActiveRows(w.procs, w.procs[i].job);
    }
    NotAmongJobs(w.procs, dead, j);
  }

  /** The audit leaves tracked jobs alone: status, rows and cards. */
  lemma AuditSparesTracked(w: World, o: PassOutcome, j: int)
    requires Exact(Demand(w.jobs), w.cards) && IsRunning(w.jobs, j) && Tracked(w, j)
    ensures j in Audited(w, o).jobs && Audited(w, o).jobs[j] == w.jobs[j]
    ensures ActiveRows(Audited(w, o).procs, j) == ActiveRows(w.procs, j)
    ensures forall c :: c in Demand(w.jobs)[j] ==> c in Audited(w, o).cards && Audited(w, o).cards[c] == w.cards[c]
  {
    TrackedIsNotLost(w, o, j);
    KeptJob(w, LostJobs(w, o, Examined(w, o), w.running.Keys), j);
    SparedRows(w.procs, DeadRows(w, o, Examined(w, o), w.running.Keys) - o.unsaved, j);
  }

  lemma SparedRows(procs: seq<Process>, rows: set<int>, j: int)
    requires ActiveRows(procs, j) !! rows
    ensures ActiveRows(MarkedEnded(procs, rows), j) == ActiveRows(procs, j)
  {
    forall i | i in ActiveRows(procs, j) ensures i !in rows {}
  }

  /** From any state where busy cards match Running jobs, and with every Running job
      examined: afterwards they match again, and the holder of every busy card is
      Running with at least one active process row. */
  lemma AuditJustifiesBusyCards(w: World, o: PassOutcome, c: int)
    requires Exact(Demand(w.jobs), w.cards) && o.listed && o.unread == {}
    ensures var w' := Audited(w, o);
            && Exact(Demand(w'.jobs), w'.cards)
            && (c in w'.cards && w'.cards[c].busy ==>
                  && w'.cards[c].job.Some? && IsRunning(w'.jobs, w'.cards[c].job.value)
                  && ActiveRows(w'.procs, w'.cards[c].job.value) != {})
  {
    var w' := Audited(w, o);
    var lost := LostJobs(w, o, Examined(w, o), w.running.Keys);
    ReclaimKeepsExact(w, lost);
    DemandFailed(w.jobs, lost);
    if c in w'.cards && w'.cards[c].busy {
      var j := w'.cards[c].job.value;
      assert j in Demand(w.jobs) - lost;
      KeptJobHasRows(w, o, j);
    }
  }

  lemma KeptJobHasRows(w: World, o: PassOutcome, j: int)
    requires o.listed && o.unread == {} && IsRunning(w.jobs, j)
    requires j !in LostJobs(w, o, Examined(w, o), w.running.Keys)
    ensures ActiveRows(Audited(w, o).procs, j) == ActiveRows(w.procs, j) != {}
  {
    var dead := DeadRows(w, o, Examined(w, o), w.running.Keys);
    forall i | i in dead ensures w.procs[i].job != j {
      assert w.procs[i].job in JobsOfRows(w.procs, dead);
    }
  }

  /** A job left Running without rows, as a failed card lookup leaves it, is reclaimed. */
  lemma AuditReclaimsRowless(w: World, o: PassOutcome, j: int)
    requires o.listed && o.unread == {} && IsRunning(w.jobs, j) && ActiveRows(w.procs, j) == {}
    ensures var w' := Audited(w, o);
            && j in w'.jobs && w'.jobs[j].status == FAILED
            && forall c :: c in CardsOf(w.jobs[j]) && c in w.cards ==> c in w'.cards && !w'.cards[c].busy
  {
    var lost := LostJobs(w, o, Examined(w, o), w.running.Keys);
    assert j in lost;
    forall c | c in CardsOf(w.jobs[j]) ensures c in CardsOfJobs(w.jobs, lost) {
      assert j in lost && j in w.jobs && c in CardsOf(w.jobs[j]);
    }
  }

  // ------------------------------------------------------- where promises stop

  lemma LaunchedRowsTracked(procs: seq<Process>, pid: int, job: int, ids: seq<int>)
    requires ids != [] && ActiveRows(procs, job) == {}
    ensures ActiveRows(procs + NewRows(pid, job, ids), job) != {}
    ensures forall i :: i in ActiveRows(procs + NewRows(pid, job, ids), job) ==>
              (procs + NewRows(pid, job, ids))[i].pid == pid
  {
    var procs' := procs + NewRows(pid, job, ids);
    assert |procs| in ActiveRows(procs', job);
    forall i | 0 <= i < |procs| ensures i !in ActiveRows(procs', job) {
      assert i !in ActiveRows(procs, job);
    }
  }

  /** A launch whose second process row or pid-cache entry cannot be written leaves a
      job that no monitor watches and no audit reclaims: it is Running and tracked. */
  lemma UnwatchedJobSurvivesAudits(w: World, id: int, o: ExecOutcome, audit: PassOutcome)
    requires Inv(w) && id in w.jobs && Pending(w.jobs[id])
    requires o.pid.Some? && o.pid.value !in w.running && o.inserted > 0
    requires ExitOf(w.cards, w.jobs[id], CardsOf(w.jobs[id]), o) in {RowsLost, CacheLost}
    ensures var w' := Executed(w, id, CardsOf(w.jobs[id]), o);
            && (forall jp :: jp in w'.monitors ==> jp.job != id)
            && IsRunning(w'.jobs, id) && Tracked(w', id)
            && IsRunning(Audited(w', audit).jobs, id)
  {
    var ids := CardsOf(w.jobs[id]);
    var w' := Executed(w, id, ids, o);
    forall i | 0 <= i < |w.procs| ensures w.procs[i].job != id {
      assert Settled(w.jobs[w.procs[i].job]);
    }
    assert ActiveRows(w.procs, id) == {};
    LaunchedRowsTracked(w.procs, o.pid.value, id, Inserted(ids, o));
    forall jp | jp in w'.monitors ensures jp.job != id {
      assert jp.job in Demand(w.jobs);
    }
    TrackedIsNotLost(w', audit, id);
  }

  /** A job is left Running by an exit of executeJob with a monitor to watch it, or an
      audit that reads everything reclaims it: this holds at every exit but those that
      come after the first process row and before the monitor. */
  lemma WatchedOrReclaimedExactly(w: World, id: int, o: ExecOutcome, audit: PassOutcome)
    requires Inv(w) && id in w.jobs && Pending(w.jobs[id])
    requires o.pid.Some? ==> o.pid.value !in w.running
    requires audit.listed && audit.unread == {}
    ensures var w', x := Executed(w, id, CardsOf(w.jobs[id]), o), ExitOf(w.cards, w.jobs[id], CardsOf(w.jobs[id]), o);
            (IsRunning(w'.jobs, id) ==>
               (exists jp :: jp in w'.monitors && jp.job == id) || !IsRunning(Audited(w', audit).jobs, id))
            <==> !(x.CacheLost? || (x.RowsLost? && o.inserted > 0))
  {
    var ids := CardsOf(w.jobs[id]);
    var w', x := Executed(w, id, ids, o), ExitOf(w.cards, w.jobs[id], ids, o);
    match x
    case CacheLost => UnwatchedJobSurvivesAudits(w, id, o, audit);
    case RowsLost =>
      if o.inserted > 0 {
        UnwatchedJobSurvivesAudits(w, id, o, audit);
      } else {
        NoNewRows(w, id, ids, o);
        AuditReclaimsRowless(w', audit, id);
      }
    case NoCardInfo =>
      NoNewRows(w, id, ids, o);
      AuditReclaimsRowless(w', audit, id);
    case Started =>
      var jp := JobProcess(o.pid.value, id, ids);
      assert jp in w'.monitors && jp.job == id;
    case _ =>
  }

  lemma NoNewRows(w: World, id: int, ids: seq<int>, o: ExecOutcome)
    requires RowsSound(w) && id in w.jobs && Pending(w.jobs[id])
    requires var x := ExitOf(w.cards, w.jobs[id], ids, o); x.NoCardInfo? || (x.RowsLost? && o.inserted == 0)
    ensures ActiveRows(Executed(w, id, ids, o).procs, id) == {}
  {
    forall i | 0 <= i < |w.procs| ensures w.procs[i].job != id {
      assert Settled(w.jobs[w.procs[i].job]);
    }
    assert Executed(w, id, ids, o).procs == w.procs;
  }

  /** Recovery starts one monitor per live row: some process gets two or more exactly
      when a Running job with a live process has two or more active rows. */
  lemma TwinMonitorsExactly(w: World, o: PassOutcome, w': World)
    requires OnePidPerJob(w) && Recovered(w, o, w')
    ensures (exists jp :: w'.monitors[jp] >= 2) <==> (exists i, k :: TwinRows(w, LiveRows(w, o, Examined(w, o)), i, k))
  {
    var live := LiveRows(w, o, Examined(w, o));
    if jp :| w'.monitors[jp] >= 2 {
      var i, k := TwinsOf(w, live, w'.running, w'.monitors, jp);
    }
    if i, k :| TwinRows(w, live, i, k) {
      assert i in ActiveRows(w.procs, w.procs[i].job) && k in ActiveRows(w.procs, w.procs[i].job);
      TwinsMonitored(w, live, w'.running, w'.monitors, i, k);
    }
  }

  lemma TwinsOf(w: World, rows: set<int>, running: map<int, JobProcess>, monitors: multiset<JobProcess>, jp: JobProcess)
    returns (i: int, k: int)
    requires RowsOfJobs(w, rows) && TookOver(w, rows, running, monitors) && monitors[jp] >= 2
    ensures TwinRows(w, rows, i, k)
  {
    i, k := TwoOf(MonitorsOf(w, rows, jp));
  }

  lemma TwoOf(s: set<int>) returns (i: int, k: int)
    requires |s| >= 2
    ensures i in s && k in s && i != k
  {
    SomeElement(s);
    i :| i in s;
    assert |s - {i}| >= 1;
    SomeElement(s - {i});
    k :| k in s - {i};
  }

  lemma FreeingExactly(demand: map<int, seq<int>>, cards: Rows, gone: set<int>, ids: seq<int>)
    requires Exact(demand, cards) && forall j, c :: j in gone && j in demand && c in demand[j] ==> c in ids
    ensures Exact(demand - gone, Freed(cards, IdSet(ids)))
            <==> forall i, c :: i in demand && i !in gone && c in demand[i] ==> c !in ids
  {
    var demand', cards' := demand - gone, Freed(cards, IdSet(ids));
    if forall i, c :: i in demand && i !in gone && c in demand[i] ==> c !in ids {
      forall i, c | i in demand' && c in demand'[i] ensures c in cards' && cards'[c].busy && cards'[c].job == Some(i) {
        assert i in demand && i !in gone && c in demand[i];
        assert c !in ids;
      }
      forall c | c in cards' && cards'[c].busy
        ensures cards'[c].job.Some? && cards'[c].job.value in demand' && c in demand'[cards'[c].job.value]
      {
        var h := cards[c].job.value;
        assert c !in ids && h in demand && c in demand[h];
        assert h in gone ==> c in ids;
      }
    } else {
      var i, c :| i in demand && i !in gone && c in demand[i] && c in ids;
      assert i in demand' && c in demand'[i];
      assert !cards'[c].busy;
    }
  }

  /** No Running job lists a card of this monitor, but for its own job if that ends too. */
  ghost predicate SafeExit(w: World, jp: JobProcess, end: End) {
    forall i, c :: i in Demand(w.jobs) && (end.Stopped? || i != jp.job) && c in Demand(w.jobs)[i] ==> c !in jp.cards
  }

  /** Releasing does not look at the holder. So the exit of a monitor, for any reason,
      keeps cards and Running jobs matched exactly when it is safe. */
  lemma MonitorExitExactly(w: World, jp: JobProcess, end: End, found: bool, unsaved: set<int>)
    requires Exact(Demand(w.jobs), w.cards)
    requires jp.job in Demand(w.jobs) ==> jp.cards == Demand(w.jobs)[jp.job]
    ensures Exact(Demand(Monitored(w, jp, end, found, unsaved).jobs), Monitored(w, jp, end, found, unsaved).cards)
            <==> SafeExit(w, jp, end)
  {
    if end.Stopped? {
      FreeingExactly(Demand(w.jobs), w.cards, {}, jp.cards);
      assert Demand(w.jobs) - {} == Demand(w.jobs);
    } else {
      DemandOther(w.jobs, jp.job, StatusAfter(end).value);
      FreeingExactly(Demand(w.jobs), w.cards, {jp.job}, jp.cards);
    }
  }

  /** In an orderly run every exit but a shutdown is safe, and a shutdown is safe exactly
      when the job has no cards. */
  lemma InvExitSafe(w: World, jp: JobProcess, end: End)
    requires Inv(w) && jp in w.monitors
    ensures SafeExit(w, jp, end) <==> !end.Stopped? || jp.cards == []
  {
    assert MonitorFits(w, jp);
    ListedAlone(Demand(w.jobs), w.cards, jp.job);
    if end.Stopped? && jp.cards != [] {
      var c := jp.cards[0];
      assert jp.job in Demand(w.jobs) && c in Demand(w.jobs)[jp.job] && c in jp.cards;
    }
  }

  /** Two Running jobs never list one card. */
  lemma ListedAlone(demand: map<int, seq<int>>, cards: Rows, j: int)
    requires Exact(demand, cards) && j in demand
    ensures forall i, c :: i in demand && i != j && c in demand[i] ==> c !in demand[j]
  {
    forall i, c | i in demand && i != j && c in demand[i] ensures c !in demand[j] {
      assert cards[c].job == Some(i);
    }
  }

  // ---------------------------------------------------------------- graceful stop

  /** The rows of a job that a stopping monitor leaves active: all of them if it could not
      look them up, else those it could not write. */
  function LeftActive(procs: seq<Process>, j: int, found: bool, unsaved: set<int>): set<int> {
    if found then ActiveRows(procs, j) * unsaved else ActiveRows(procs, j)
  }

  lemma LeftActiveRows(w: World, jp: JobProcess, end: End, found: bool, unsaved: set<int>)
    ensures ActiveRows(Monitored(w, jp, end, found, unsaved).procs, jp.job)
            == LeftActive(w.procs, jp.job, found, unsaved)
  {
  }

  lemma ReleasedCards(w: World, jp: JobProcess)
    requires Inv(w) && jp in w.monitors
    ensures forall c :: c in jp.cards ==> c in w.cards && !Freed(w.cards, IdSet(jp.cards))[c].busy
  {
    assert MonitorFits(w, jp);
    ListedExist(Demand(w.jobs), w.cards, jp.job);
  }

  lemma ListedExist(demand: map<int, seq<int>>, cards: Rows, j: int)
    requires Exact(demand, cards) && j in demand
    ensures forall c :: c in demand[j] ==> c in cards
  {
  }

  lemma FreedStaysFree(w: World, o: PassOutcome, w': World)
    requires Recovered(w, o, w')
    ensures forall c :: c in w.cards && !w.cards[c].busy ==> c in w'.cards && !w'.cards[c].busy
  {
  }

  /** What a stop leaves for the recovery to find. */
  lemma StopLeaves(w: World, jp: JobProcess, found: bool, unsaved: set<int>)
    requires OnePidPerJob(w) && IsRunning(w.jobs, jp.job)
    ensures var v := Crashed(Monitored(w, jp, Stopped, found, unsaved));
            && OnePidPerJob(v) && IsRunning(v.jobs, jp.job) && |v.procs| == |w.procs|
            && (forall i :: 0 <= i < |w.procs| ==> v.procs[i].pid == w.procs[i].pid)
            && ActiveRows(v.procs, jp.job) == LeftActive(w.procs, jp.job, found, unsaved)
  {
    FewerRows(w, Crashed(Monitored(w, jp, Stopped, found, unsaved)));
    LeftActiveRows(w, jp, Stopped, found, unsaved);
  }

  lemma StopLive(w: World, jp: JobProcess, found: bool, unsaved: set<int>, o: PassOutcome)
    requires OnePidPerJob(w) && IsRunning(w.jobs, jp.job)
    ensures HasLivePid(Crashed(Monitored(w, jp, Stopped, found, unsaved)), o, jp.job)
            <==> exists i :: i in LeftActive(w.procs, jp.job, found, unsaved) && o.probe(w.procs[i].pid) == Alive
  {
    StopLeaves(w, jp, found, unsaved);
  }

  lemma StopFrees(w: World, jp: JobProcess, found: bool, unsaved: set<int>, o: PassOutcome, w': World)
    requires Inv(w) && jp in w.monitors && Recovered(Crashed(Monitored(w, jp, Stopped, found, unsaved)), o, w')
    ensures forall c :: c in jp.cards ==> c in w'.cards && !w'.cards[c].busy
  {
    ReleasedCards(w, jp);
    FreedStaysFree(Crashed(Monitored(w, jp, Stopped, found, unsaved)), o, w');
  }

  /** A recovery that reads everything fails a job exactly when it has no live process. */
  lemma RecoveryDecides(w: World, o: PassOutcome, w': World, j: int)
    requires OnePidPerJob(w) && CleanPass(w, o) && Recovered(w, o, w') && IsRunning(w.jobs, j)
    ensures j in w'.jobs && w'.jobs[j].status == if HasLivePid(w, o, j) then RUNNING else FAILED
  {
    RecoveryVerdict(w, o, j);
  }

  /** A monitor that stops with the scheduler frees the cards of a job that stays Running
      and whose process goes on. The next recovery fails the job exactly when no row left
      active by the stop is alive; otherwise the job stays Running, with its cards idle
      for the next job to take. */
  lemma StoppedJobExactly(w: World, jp: JobProcess, found: bool, unsaved: set<int>, o: PassOutcome, w': World)
    requires Inv(w) && jp in w.monitors
    requires CleanPass(w, o) && Recovered(Crashed(Monitored(w, jp, Stopped, found, unsaved)), o, w')
    ensures jp.job in w'.jobs && w'.jobs[jp.job].status in {RUNNING, FAILED}
    ensures w'.jobs[jp.job].status == FAILED
            <==> forall i :: i in LeftActive(w.procs, jp.job, found, unsaved) ==> o.probe(w.procs[i].pid) != Alive
    ensures forall c :: c in jp.cards ==> c in w'.cards && !w'.cards[c].busy
  {
    var v := Crashed(Monitored(w, jp, Stopped, found, unsaved));
    assert MonitorFits(w, jp);
    StopLeaves(w, jp, found, unsaved);
    StopLive(w, jp, found, unsaved, o);
    RecoveryDecides(v, o, w', jp.job);
    StopFrees(w, jp, found, unsaved, o, w');
  }
}
