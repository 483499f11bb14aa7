/** Which answers lead to what: the results of a start, a tick, the end of a monitor and a
    pass, read off the answers themselves and not off the closed forms of module Cluster. */
module Outcomes {
  import opened Text
  import opened Entity
  import SortedSet
  import Q = QueueService
  import opened GpuAllocator
  import opened Cluster
  import opened SchedulerInvariant
  import opened Sets

  // -------------------------------------------------------------------- a start

  /** The cards are there to be taken, and the database takes them. */
  ghost predicate GetsCards(cards: Rows, ids: seq<int>, o: ExecOutcome) {
    ids != [] && NoDup(ids) && AllIdle(cards, ids) && o.acquired
  }

  /** Everything up to the remote launch works. */
  ghost predicate ComesToLaunch(w: World, id: int, ids: seq<int>, o: ExecOutcome)
    requires id in w.jobs
  {
    GetsCards(w.cards, ids, o) && o.marked && w.jobs[id].path != "" && o.lookedUp && o.checked
  }

  /** The remote launch is asked for exactly when everything before it works, the access
      check included. */
  lemma LaunchedExactly(w: World, id: int, ids: seq<int>, o: ExecOutcome)
    requires id in w.jobs
    ensures Executed(w, id, ids, o).launches == if ComesToLaunch(w, id, ids, o) then w.launches + [id] else w.launches
  {
    CountTestExact(w.cards, ids);
  }

  /** The job is left Running exactly when it was marked and either the card lookup failed
      or the launch worked; only its status has changed, and exactly its cards are busy
      under it. */
  lemma RunningExactly(w: World, id: int, ids: seq<int>, o: ExecOutcome)
    requires id in w.jobs && !IsRunning(w.jobs, id)
    ensures var w' := Executed(w, id, ids, o);
            && (IsRunning(w'.jobs, id)
                <==> && GetsCards(w.cards, ids, o) && o.marked && w.jobs[id].path != ""
                     && (!o.lookedUp || (o.checked && o.pid.Some?)))
            && (IsRunning(w'.jobs, id) ==>
                  && w'.jobs == w.jobs[id := w.jobs[id].(status := RUNNING)] && w'.cards.Keys == w.cards.Keys
                  && forall c :: c in w.cards ==>
                       w'.cards[c] == if c in ids then Card(w.cards[c].uuid, true, Some(id)) else w.cards[c])
  {
    CountTestExact(w.cards, ids);
  }

  /** The job is failed and taken out of the queue exactly when it was marked and has no
      script, no access or no process; its cards are then as before. A job that is neither
      Running nor Failed afterwards has not changed, nor has any card. */
  lemma GivenUpExactly(w: World, id: int, ids: seq<int>, o: ExecOutcome)
    requires id in w.jobs && Pending(w.jobs[id])
    ensures var w' := Executed(w, id, ids, o);
            var givenUp := GetsCards(w.cards, ids, o) && o.marked
                           && (w.jobs[id].path == "" || (o.lookedUp && (!o.checked || o.pid.None?)));
            && (id in w'.jobs && w'.jobs[id].status == FAILED <==> givenUp)
            && (givenUp ==> w'.jobs == w.jobs[id := w.jobs[id].(status := FAILED)])
            && w'.queue == (if givenUp && o.removed then w.queue.(entries := SortedSet.Remove(w.queue.entries, id))
                            else w.queue)
            && (!IsRunning(w'.jobs, id) ==> w'.cards == w.cards)
            && (!IsRunning(w'.jobs, id) && !givenUp ==> w'.jobs == w.jobs)
  {
    CountTestExact(w.cards, ids);
  }

  /** One new row per card, in order. */
  ghost predicate RowsAdded(procs: seq<Process>, procs': seq<Process>, pid: int, id: int, cards: seq<int>) {
    && |procs'| == |procs| + |cards| && procs <= procs'
    && forall k :: 0 <= k < |cards| ==> procs'[|procs| + k] == Process(pid, cards[k], id, false)
  }

  lemma NewRowsAdded(procs: seq<Process>, pid: int, id: int, cards: seq<int>)
    ensures RowsAdded(procs, procs + NewRows(pid, id, cards), pid, id, cards)
  {
  }

  lemma LaunchesExactly(w: World, id: int, ids: seq<int>, o: ExecOutcome)
    requires id in w.jobs
    ensures Launches(ExitOf(w.cards, w.jobs[id], ids, o)) <==> ComesToLaunch(w, id, ids, o) && o.pid.Some?
  {
    CountTestExact(w.cards, ids);
  }

  /** The process rows: one per card, in order, up to the first that cannot be inserted. */
  lemma RowsExactly(w: World, id: int, ids: seq<int>, o: ExecOutcome)
    requires id in w.jobs
    ensures ComesToLaunch(w, id, ids, o) && o.pid.Some? ==>
              RowsAdded(w.procs, Executed(w, id, ids, o).procs, o.pid.value, id,
                        if o.inserted < |ids| then ids[..o.inserted] else ids)
    ensures !(ComesToLaunch(w, id, ids, o) && o.pid.Some?) ==> Executed(w, id, ids, o).procs == w.procs
  {
    LaunchesExactly(w, id, ids, o);
    if o.pid.Some? { NewRowsAdded(w.procs, o.pid.value, id, Inserted(ids, o)); }
  }

  /** The running map knows exactly the process that was launched. */
  lemma TrackedExactly(w: World, id: int, ids: seq<int>, o: ExecOutcome)
    requires id in w.jobs
    ensures Executed(w, id, ids, o).running
            == if ComesToLaunch(w, id, ids, o) && o.pid.Some?
               then w.running[o.pid.value := JobProcess(o.pid.value, id, ids)] else w.running
  {
    LaunchesExactly(w, id, ids, o);
  }

  /** A monitor is started exactly when all rows and the pid cache were written. */
  lemma MonitoredExactly(w: World, id: int, ids: seq<int>, o: ExecOutcome)
    requires id in w.jobs
    ensures Executed(w, id, ids, o).monitors
            == if ComesToLaunch(w, id, ids, o) && o.pid.Some? && o.inserted >= |ids| && o.cached
               then w.monitors + multiset{JobProcess(o.pid.value, id, ids)} else w.monitors
  {
    CountTestExact(w.cards, ids);
  }

  // --------------------------------------------------------------------- a tick

  /** The tick gets as far as reading this job at the head of the queue. */
  predicate ReadsHead(w: World, o: TickOutcome, id: int) {
    && o.locked && o.peeked && w.queue.entries != [] && w.queue.entries[0].member == id != 0
    && o.read && id in w.jobs
  }

  /** The head may start, and neither cache nor table stands in its way. */
  ghost predicate Startable(w: World, o: TickOutcome, id: int)
    requires id in w.jobs
  {
    && Pending(w.jobs[id]) && CardsOf(w.jobs[id]) != [] && o.answered
    && !o.cacheDenies && NoDup(CardsOf(w.jobs[id])) && AllIdle(w.cards, CardsOf(w.jobs[id]))
  }

  /** A tick launches the head of the queue exactly when it can read it, it may start, its
      cards are idle and everything up to the launch works; and it launches no other job. */
  lemma TickLaunchesExactly(w: World, o: TickOutcome)
    ensures var id := if w.queue.entries == [] then 0 else w.queue.entries[0].member;
            Ticked(w, o).launches
            == if ReadsHead(w, o, id) && Startable(w, o, id) && ComesToLaunch(w, id, CardsOf(w.jobs[id]), o.exec)
               then w.launches + [id] else w.launches
  {
    var id := if w.queue.entries == [] then 0 else w.queue.entries[0].member;
    if ReadsHead(w, o, id) {
      CountTestExact(w.cards, CardsOf(w.jobs[id]));
      LaunchedExactly(w, id, CardsOf(w.jobs[id]), o.exec);
    }
  }

  /** A pending head whose cards the cache denies or the table has not idle waits: its
      status becomes WaitingGpu and nothing else changes. So it is never started. */
  lemma TakenCardsMakeWait(w: World, o: TickOutcome, id: int)
    requires ReadsHead(w, o, id) && Pending(w.jobs[id]) && CardsOf(w.jobs[id]) != [] && o.answered
    requires o.cacheDenies || !NoDup(CardsOf(w.jobs[id])) || !AllIdle(w.cards, CardsOf(w.jobs[id]))
    ensures var w' := Ticked(w, o);
            && w' == w.(jobs := w'.jobs) && w'.jobs.Keys == w.jobs.Keys
            && (forall j :: j in w.jobs && j != id ==> w'.jobs[j] == w.jobs[j])
            && w'.jobs[id] == if o.written then w.jobs[id].(status := WAITING_GPU) else w.jobs[id]
  {
    CountTestExact(w.cards, CardsOf(w.jobs[id]));
  }

  /** A head that may not start any more, or lists no card, is taken out of the queue and
      nothing else changes. */
  lemma TickDiscards(w: World, o: TickOutcome, id: int)
    requires ReadsHead(w, o, id) && (!Pending(w.jobs[id]) || CardsOf(w.jobs[id]) == [])
    ensures Ticked(w, o)
            == if o.removed then w.(queue := w.queue.(entries := SortedSet.Remove(w.queue.entries, id))) else w
  {
  }

  /** Whatever becomes of a start, the job is then out of the queue, and no other is. */
  lemma StartDequeues(w: World, o: TickOutcome, id: int)
    requires ReadsHead(w, o, id) && Startable(w, o, id) && o.removed && SortedSet.Valid(w.queue.entries)
    ensures forall e :: e in Ticked(w, o).queue.entries <==> e in w.queue.entries && e.member != id
  {
    CountTestExact(w.cards, CardsOf(w.jobs[id]));
    GivenUpExactly(w, id, CardsOf(w.jobs[id]), o.exec);
    RemovedTwice(w.queue.entries, id);
  }

  lemma RemovedTwice(z: SortedSet.ZSet, id: int)
    requires SortedSet.Valid(z)
    ensures forall e :: e in SortedSet.Remove(SortedSet.Remove(z, id), id) <==> e in SortedSet.Remove(z, id)
    ensures forall e :: e in SortedSet.Remove(z, id) <==> e in z && e.member != id
  {
    SortedSet.RemoveValid(z, id);
    SortedSet.RemoveContents(z, id);
    SortedSet.RemoveContents(SortedSet.Remove(z, id), id);
  }

  /** A tick that cannot read its head, or cannot learn about the cards, changes nothing. */
  lemma TickWithoutAnswer(w: World, o: TickOutcome)
    requires forall id :: ReadsHead(w, o, id) ==> Pending(w.jobs[id]) && CardsOf(w.jobs[id]) != [] && !o.answered
    ensures Ticked(w, o) == w
  {
    if !VerdictOf(w, o).Nothing? {
      assert ReadsHead(w, o, w.queue.entries[0].member);
    }
  }

  // ------------------------------------------------------------ the end of a monitor

  /** The verdict by the reason: Completed after a process that is gone with code zero or
      unreadable, Failed after any other code or lost contact, none on shutdown. No other
      job changes. */
  lemma VerdictByReason(w: World, jp: JobProcess, end: End, found: bool, unsaved: set<int>)
    requires jp.job in w.jobs
    ensures var jobs' := Monitored(w, jp, end, found, unsaved).jobs;
            && jobs'.Keys == w.jobs.Keys
            && (forall j :: j in w.jobs && j != jp.job ==> jobs'[j] == w.jobs[j])
            && jobs'[jp.job] == w.jobs[jp.job].(status := jobs'[jp.job].status)
            && (end == Gone(None) || end == Gone(Some(0)) ==> jobs'[jp.job].status == COMPLETED)
            && (end == Lost || (end.Gone? && end.code.Some? && end.code.value != 0) ==> jobs'[jp.job].status == FAILED)
            && (end == Stopped ==> jobs' == w.jobs)
  {
  }

  /** The cleanup, whatever the reason: the pid is untracked, one monitor is gone, exactly
      the listed cards are idle, and exactly the job's active rows that can be looked up
      and written are ended. */
  lemma CleanedUp(w: World, jp: JobProcess, end: End, found: bool, unsaved: set<int>)
    ensures var w' := Monitored(w, jp, end, found, unsaved);
            && w'.running == w.running - {jp.pid} && w'.monitors == w.monitors - multiset{jp}
            && w'.cards.Keys == w.cards.Keys && |w'.procs| == |w.procs|
            && (forall c :: c in w.cards ==>
                  w'.cards[c] == if c in jp.cards then Card(w.cards[c].uuid, false, None) else w.cards[c])
            && (forall i :: 0 <= i < |w.procs| ==>
                  w'.procs[i] == w.procs[i].(ended := || w.procs[i].ended
                                                      || (w.procs[i].job == jp.job && found && i !in unsaved)))
  {
  }

  // --------------------------------------------------------------- audit, recovery

  /** A job that the pass looks at. */
  predicate LookedAt(w: World, o: PassOutcome, j: int) {
    IsRunning(w.jobs, j) && o.listed && j !in o.unread
  }

  /** An active row whose process is dead and not tracked. */
  predicate DeadRow(w: World, o: PassOutcome, tracked: set<int>, j: int, i: int) {
    && 0 <= i < |w.procs| && w.procs[i].job == j && !w.procs[i].ended
    && w.procs[i].pid !in tracked && o.probe(w.procs[i].pid) == Dead
  }

  ghost predicate NoActiveRow(w: World, j: int) {
    forall i :: 0 <= i < |w.procs| && w.procs[i].job == j ==> w.procs[i].ended
  }

  /** What a pass does: it fails a job exactly when it looks at it and finds no active row
      or a dead one that is not tracked; it ends exactly the dead rows of such jobs whose
      update works; and it frees exactly the cards that failed jobs list. */
  ghost predicate PassDoes(w: World, o: PassOutcome, tracked: set<int>, w': World) {
    && w'.jobs.Keys == w.jobs.Keys && w'.cards.Keys == w.cards.Keys && |w'.procs| == |w.procs|
    && (forall j :: j in w.jobs ==>
          w'.jobs[j] == if PassFails(w, o, tracked, j) then w.jobs[j].(status := FAILED) else w.jobs[j])
    && (forall i :: 0 <= i < |w.procs| ==>
          w'.procs[i] == w.procs[i].(ended := w.procs[i].ended || (LookedAt(w, o, w.procs[i].job) && i !in o.unsaved
                                                                   && DeadRow(w, o, tracked, w.procs[i].job, i))))
    && (forall c :: c in w.cards ==>
          w'.cards[c] == if ListedByFailed(w, o, tracked, c) then Card(w.cards[c].uuid, false, None) else w.cards[c])
    && w'.queue == w.queue && w'.launches == w.launches
  }

  ghost predicate PassFails(w: World, o: PassOutcome, tracked: set<int>, j: int) {
    LookedAt(w, o, j) && (NoActiveRow(w, j) || exists i :: DeadRow(w, o, tracked, j, i))
  }

  ghost predicate ListedByFailed(w: World, o: PassOutcome, tracked: set<int>, c: int) {
    exists j :: PassFails(w, o, tracked, j) && c in CardsOf(w.jobs[j])
  }

  lemma LostExactly(w: World, o: PassOutcome, tracked: set<int>, j: int)
    ensures j in LostJobs(w, o, Examined(w, o), tracked) <==> PassFails(w, o, tracked, j)
  {
    var dead := DeadRows(w, o, Examined(w, o), tracked);
    assert NoActiveRow(w, j) <==> ActiveRows(w.procs, j) == {} by {
      if NoActiveRow(w, j) { assert forall i :: i !in ActiveRows(w.procs, j); }
      if ActiveRows(w.procs, j) == {} {
        forall i | 0 <= i < |w.procs| && w.procs[i].job == j ensures w.procs[i].ended {
          assert i !in ActiveRows(w.procs, j);
        }
      }
    }
    if j in JobsOfRows(w.procs, dead) {
      var i :| i in dead && 0 <= i < |w.procs| && w.procs[i].job == j;
      assert DeadRow(w, o, tracked, j, i);
    }
    if LookedAt(w, o, j) && exists i :: DeadRow(w, o, tracked, j, i) {
      var i :| DeadRow(w, o, tracked, j, i);
      assert i in dead;
    }
  }

  lemma ReclaimedDoes(w: World, o: PassOutcome, tracked: set<int>)
    ensures PassDoes(w, o, tracked, Reclaimed(w, LostJobs(w, o, Examined(w, o), tracked),
                                              DeadRows(w, o, Examined(w, o), tracked), o.unsaved))
  {
    var lost := LostJobs(w, o, Examined(w, o), tracked);
    forall j ensures j in lost <==> PassFails(w, o, tracked, j) { LostExactly(w, o, tracked, j); }
    forall c ensures c in CardsOfJobs(w.jobs, lost) <==> ListedByFailed(w, o, tracked, c) {
      if c in CardsOfJobs(w.jobs, lost) {
        var j :| j in lost && j in w.jobs && c in CardsOf(w.jobs[j]);
        assert PassFails(w, o, tracked, j);
      }
      if ListedByFailed(w, o, tracked, c) {
        var j :| PassFails(w, o, tracked, j) && c in CardsOf(w.jobs[j]);
        assert j in lost && j in w.jobs;
      }
    }
  }

  /** The audit is such a pass; tracked processes are left to their monitors. */
  lemma AuditDoes(w: World, o: PassOutcome)
    ensures PassDoes(w, o, w.running.Keys, Audited(w, o))
    ensures Audited(w, o).running == w.running && Audited(w, o).monitors == w.monitors
  {
    ReclaimedDoes(w, o, w.running.Keys);
  }

  /** The recovery is such a pass with nothing tracked. */
  lemma RecoveryDoes(w: World, o: PassOutcome, w': World)
    requires Recovered(w, o, w')
    ensures PassDoes(w, o, {}, w')
  {
    ReclaimedDoes(w, o, {});
  }
}
