/** The scheduler as the program runs it: fields updated step by step, with every
    early return, proved equal to the closed forms of module Cluster. */
module Scheduler {
  import opened Text
  import opened Entity
  import GpuIds
  import opened GpuAllocator
  import Q = QueueService
  import opened Cluster
  import opened Sets

  // -------------------------------------------------------------- starting a job

  /** The job is Running with all its cards busy under it, or not Running with the card
      table as it was. */
  ghost predicate AllOrNothing(w: World, w': World, id: int, ids: seq<int>) {
    if IsRunning(w'.jobs, id)
    then && NoDup(ids) && ids != []
         && forall c :: c in ids ==> c in w'.cards && w'.cards[c].busy && w'.cards[c].job == Some(id)
    else w'.cards == w.cards
  }

  /** So is every exit of executeJob. */
  lemma ExecutedAllOrNothing(w: World, id: int, ids: seq<int>, o: ExecOutcome)
    requires id in w.jobs && !IsRunning(w.jobs, id)
    ensures AllOrNothing(w, Executed(w, id, ids, o), id, ids)
  {
    CountTestExact(w.cards, ids);
  }

  lemma MarkLostIsNothing(w: World, id: int, ids: seq<int>, o: ExecOutcome)
    requires id in w.jobs
    ensures !o.marked ==> Executed(w, id, ids, o) == w
  {
  }

  lemma MarkedThenFailed(jobs: map<int, Job>, id: int)
    ensures SetStatus(SetStatus(jobs, id, RUNNING), id, FAILED) == SetStatus(jobs, id, FAILED)
  {
  }

  // ------------------------------------------------------------ reclaim algebra

  lemma MarkedEndedNone(procs: seq<Process>)
    ensures MarkedEnded(procs, {}) == procs
  {
  }

  lemma CardsOfOne(jobs: map<int, Job>, j: int)
    requires j in jobs
    ensures CardsOfJobs(jobs, {j}) == IdSet(CardsOf(jobs[j]))
  {
    var ids := CardsOf(jobs[j]);
    forall c | c in ids ensures c in CardsOfJobs(jobs, {j}) {
      assert j in {j} && c in CardsOf(jobs[j]);
    }
  }

  lemma ReclaimedTwice(w: World, lost: set<int>, dead: set<int>, unsaved: set<int>, j: int, rows: set<int>)
    requires j in w.jobs
    ensures Reclaimed(Reclaimed(w, lost, dead, unsaved), {j}, rows, unsaved)
            == Reclaimed(w, lost + {j}, dead + rows, unsaved)
  {
    assert MarkedFailed(MarkedFailed(w.jobs, lost), {j}) == MarkedFailed(w.jobs, lost + {j});
    EndedTwice(w.procs, dead, rows, unsaved);
    FreedTwice(w.jobs, w.cards, lost, j);
  }

  lemma EndedTwice(procs: seq<Process>, dead: set<int>, rows: set<int>, unsaved: set<int>)
    ensures MarkedEnded(MarkedEnded(procs, dead - unsaved), rows - unsaved) == MarkedEnded(procs, dead + rows - unsaved)
  {
  }

  lemma FreedTwice(jobs: map<int, Job>, cards: Rows, lost: set<int>, j: int)
    requires j in jobs
    ensures Freed(Freed(cards, CardsOfJobs(jobs, lost)), CardsOfJobs(MarkedFailed(jobs, lost), {j}))
            == Freed(cards, CardsOfJobs(jobs, lost + {j}))
  {
    CardsOfOne(MarkedFailed(jobs, lost), j);
    CardsOfOne(jobs, j);
    assert CardsOfJobs(jobs, lost + {j}) == CardsOfJobs(jobs, lost) + CardsOfJobs(jobs, {j});
  }

  lemma ReclaimedNothing(w: World, unsaved: set<int>)
    ensures Reclaimed(w, {}, {}, unsaved) == w
  {
    assert MarkedFailed(w.jobs, {}) == w.jobs;
    assert MarkedEnded(w.procs, {} - unsaved) == w.procs;
    assert CardsOfJobs(w.jobs, {}) == {};
    assert Freed(w.cards, {}) == w.cards;
  }

  /** A pass that has looked at nothing has changed nothing and taken over nothing. */
  lemma PassedNothing(w: World, o: PassOutcome, tracked: set<int>)
    ensures DeadRows(w, o, {}, tracked) == {} && LostJobs(w, o, {}, tracked) == {} && LiveRows(w, o, {}) == {}
    ensures Reclaimed(w, LostJobs(w, o, {}, tracked), DeadRows(w, o, {}, tracked), o.unsaved) == w
    ensures TookOver(w, LiveRows(w, o, {}), map[], multiset{})
  {
    ReclaimedNothing(w, o.unsaved);
    TookOverNone(w);
  }

  /** Passing over one more job. */
  lemma OneMore(w: World, o: PassOutcome, done: set<int>, j: int, tracked: set<int>)
    ensures DeadRows(w, o, done + {j}, tracked) == DeadRows(w, o, done, tracked) + DeadRows(w, o, {j}, tracked)
    ensures LostJobs(w, o, done + {j}, tracked) == LostJobs(w, o, done, tracked) + LostJobs(w, o, {j}, tracked)
    ensures LiveRows(w, o, done + {j}) == LiveRows(w, o, done) + LiveRows(w, o, {j})
  {
    var dead, dead1 := DeadRows(w, o, done, tracked), DeadRows(w, o, {j}, tracked);
    assert DeadRows(w, o, done + {j}, tracked) == dead + dead1;
    assert JobsOfRows(w.procs, dead + dead1) == JobsOfRows(w.procs, dead) + JobsOfRows(w.procs, dead1);
  }

  /** Rows of a job not yet passed over are as they were. */
  lemma RowsUntouched(w: World, o: PassOutcome, done: set<int>, j: int, tracked: set<int>, unsaved: set<int>)
    requires j !in done
    ensures ActiveRows(MarkedEnded(w.procs, DeadRows(w, o, done, tracked) - unsaved), j) == ActiveRows(w.procs, j)
  {
  }

  /** What the loop over one job's rows has to find. */
  lemma JobVerdict(w: World, o: PassOutcome, j: int, tracked: set<int>)
    ensures LostJobs(w, o, {j}, tracked)
            == if ActiveRows(w.procs, j) == {} || DeadRows(w, o, {j}, tracked) != {} then {j} else {}
    ensures DeadRows(w, o, {j}, tracked) <= ActiveRows(w.procs, j)
  {
    var dead := DeadRows(w, o, {j}, tracked);
    assert JobsOfRows(w.procs, dead) == if dead == {} then {} else {j} by {
      if dead != {} {
        var i :| i in dead;
        assert w.procs[i].job in JobsOfRows(w.procs, dead);
      }
    }
  }

  /** What passing over one more job adds to the lost jobs and the dead rows. */
  lemma JobStep(w: World, o: PassOutcome, done: set<int>, j: int, tracked: set<int>)
    requires j !in done
    ensures var lost, dead, here :=
              LostJobs(w, o, done, tracked), DeadRows(w, o, done, tracked), DeadRows(w, o, {j}, tracked);
            && DeadRows(w, o, done + {j}, tracked) == dead + here
            && LostJobs(w, o, done + {j}, tracked)
               == (if ActiveRows(w.procs, j) == {} || here != {} then lost + {j} else lost)
            && (ActiveRows(w.procs, j) == {} ==> dead + here == dead)
            && ActiveRows(Reclaimed(w, lost, dead, o.unsaved).procs, j) == ActiveRows(w.procs, j)
  {
    OneMore(w, o, done, j, tracked);
    JobVerdict(w, o, j, tracked);
    RowsUntouched(w, o, done, j, tracked, o.unsaved);
  }

  /** A pass over `all` without the unread jobs has `todo` left and `done` behind it. */
  predicate Remaining(all: set<int>, unread: set<int>, todo: set<int>, done: set<int>) {
    todo <= all && done <= all && todo !! done && done + (todo - unread) == all - unread
  }

  lemma OneLess(all: set<int>, unread: set<int>, todo: set<int>, done: set<int>, j: int)
    requires Remaining(all, unread, todo, done) && j in todo
    ensures Remaining(all, unread, todo - {j}, if j in unread then done else done + {j})
  {
    var done' := if j in unread then done else done + {j};
    assert done' + (todo - {j} - unread) == all - unread;
  }

  /** What looking at one more row of a job adds. */
  lemma RowSets(w: World, o: PassOutcome, j: int, i: int, done: set<int>, dead: set<int>, live: set<int>)
    requires i in ActiveRows(w.procs, j)
    ensures var here, probe := DeadRows(w, o, {j}, {}), o.probe(w.procs[i].pid);
            if probe == Dead
            then here * (done + {i}) != {} && dead + here * (done + {i}) == dead + here * done + {i}
            else here * (done + {i}) == here * done
    ensures var up, probe := LiveRows(w, o, {j}), o.probe(w.procs[i].pid);
            if probe == Alive
            then live + up * (done + {i}) == live + up * done + {i}
            else up * (done + {i}) == up * done
  {
    if o.probe(w.procs[i].pid) == Dead { assert i in DeadRows(w, o, {j}, {}) * (done + {i}); }
  }

  lemma AllRows(w: World, o: PassOutcome, j: int)
    ensures DeadRows(w, o, {j}, {}) * ActiveRows(w.procs, j) == DeadRows(w, o, {j}, {})
    ensures LiveRows(w, o, {j}) * ActiveRows(w.procs, j) == LiveRows(w, o, {j})
  {
  }

  lemma TookOverNone(w: World)
    ensures TookOver(w, {}, map[], multiset{})
  {
    forall jp ensures MonitorsOf(w, {}, jp) == {} {}
  }

  /** Taking over one more row. */
  lemma TookOverMore(w: World, rows: set<int>, running: map<int, JobProcess>, monitors: multiset<JobProcess>, i: int)
    requires RowsOfJobs(w, rows + {i}) && TookOver(w, rows, running, monitors) && i !in rows
    ensures var jp := TakenOver(w, i);
            TookOver(w, rows + {i}, running[jp.pid := jp], monitors + multiset{jp})
  {
    var jp := TakenOver(w, i);
    var running', rows' := running[jp.pid := jp], rows + {i};
    forall p | p in running' ensures exists k :: k in rows' && w.procs[k].pid == p && running'[p] == TakenOver(w, k) {
      if p == jp.pid {
        assert i in rows' && w.procs[i].pid == p;
      } else {
        var k :| k in rows && w.procs[k].pid == p && running[p] == TakenOver(w, k);
        assert k in rows';
      }
    }
    forall q ensures (monitors + multiset{jp})[q] == |MonitorsOf(w, rows', q)| {
      MonitorsOfMore(w, rows, i, q);
    }
  }

  lemma MonitorsOfMore(w: World, rows: set<int>, i: int, q: JobProcess)
    requires RowsOfJobs(w, rows + {i}) && i !in rows
    ensures |MonitorsOf(w, rows + {i}, q)| == |MonitorsOf(w, rows, q)| + if TakenOver(w, i) == q then 1 else 0
  {
    if TakenOver(w, i) == q {
      assert MonitorsOf(w, rows + {i}, q) == MonitorsOf(w, rows, q) + {i};
    } else {
      assert MonitorsOf(w, rows + {i}, q) == MonitorsOf(w, rows, q);
    }
  }

  // ------------------------------------------------------------- monitor polling

  /** What a monitor sees at one tick of its timer. */
  datatype Poll = Failing | Up | Down | Shutdown

  const MAX_FAILURES := 10

  /** Ten failed probes in a row, ending at tick `k`. */
  predicate TenFailures(polls: seq<Poll>, k: nat) {
    && MAX_FAILURES <= k + 1 <= |polls|
    && forall i :: k + 1 - MAX_FAILURES <= i <= k ==> polls[i].Failing?
  }

  predicate ExitsAt(polls: seq<Poll>, k: nat) {
    k < |polls| && (polls[k].Down? || polls[k].Shutdown? || TenFailures(polls, k))
  }

  /** The watch loop leaves at the first tick with a reason to, and for that reason;
      `code` is what reading the exit code would give. */
  method WatchProcess(polls: seq<Poll>, code: Option<int>) returns (end: Option<End>, ticks: nat)
    ensures ticks <= |polls|
    ensures end.Some? ==> ticks < |polls| && ExitsAt(polls, ticks)
    ensures end.None? ==> ticks == |polls|
    ensures forall k :: 0 <= k < ticks ==> !ExitsAt(polls, k)
    ensures end.Some? ==>
      end.value == match polls[ticks] { case Down => Gone(code) case Shutdown => Stopped case _ => Lost }
  {
    var failCount := 0;
    ticks := 0;
    while ticks < |polls|
      invariant ticks <= |polls|
      invariant 0 <= failCount < MAX_FAILURES && failCount <= ticks
      invariant forall i :: ticks - failCount <= i < ticks ==> polls[i].Failing?
      invariant failCount < ticks ==> !polls[ticks - failCount - 1].Failing?
      invariant forall k :: 0 <= k < ticks ==> !ExitsAt(polls, k)
    {
      match polls[ticks] {
        case Shutdown => return Some(Stopped), ticks;
        case Failing =>
          failCount := failCount + 1;
          if failCount >= MAX_FAILURES {
            return Some(Lost), ticks;
          }
        case Up => failCount := 0;
        case Down => return Some(Gone(code)), ticks;
      }
      ticks := ticks + 1;
    }
    return None, ticks;
  }

  // ----------------------------------------------------------------- the class

  class Scheduler {
    var jobs: map<int, Job>
    var cards: Rows
    var procs: seq<Process>
    var running: map<int, JobProcess>
    var monitors: multiset<JobProcess>
    var queue: Q.Queue
    ghost var launches: seq<int>
    ghost var log: seq<Write>   // what executeJob has done, in order

    ghost function View(): World
      reads this
    {
      World(jobs, cards, procs, running, monitors, queue, launches)
    }

    /** A new process over existing tables. */
    constructor (w: World)
      ensures View() == Crashed(w)
    {
      jobs, cards, procs, running, monitors, queue := w.jobs, w.cards, w.procs, map[], multiset{}, w.queue;
      launches, log := w.launches, [];
    }

    /** A failure path: cards back, job Failed, out of the queue. */
    method GiveUp(id: int, ids: seq<int>, removed: bool)
      modifies `cards, `jobs, `queue, `log
      ensures cards == Freed(old(cards), IdSet(ids))
      ensures jobs == SetStatus(old(jobs), id, FAILED)
      ensures queue == Dequeued(old(queue), id, removed)
      ensures log == old(log) + [Free, Fail, Drop]
    {
      cards, log := Freed(cards, IdSet(ids)), log + [Free];
      jobs, log := SetStatus(jobs, id, FAILED), log + [Fail];
      queue, log := Dequeued(queue, id, removed), log + [Drop];
    }

    /** Every exit leaves the job Running with all its cards busy under it, or not
        Running with the card table exactly as before. */
    method ExecuteJob(id: int, ids: seq<int>, o: ExecOutcome) returns (ok: bool)
      requires id in jobs && !IsRunning(jobs, id)
      requires IdleHasNoJob(cards)
      modifies this
      ensures View() == Executed(old(View()), id, ids, o)
      ensures ok <==> ExitOf(old(cards), old(jobs)[id], ids, o).Started?
      ensures log == old(log) + Writes(ExitOf(old(cards), old(jobs)[id], ids, o), ids, o)
      ensures AllOrNothing(old(View()), View(), id, ids)
    {
      ExecutedAllOrNothing(View(), id, ids, o);
      if |ids| == 0 || !o.acquired || |IdleAmong(cards, ids)| != |ids| { return false; }
      ok := TakeAndMark(id, ids, o);
    }

    /** Acquiring the cards and marking the job Running, or giving the cards back. */
    method TakeAndMark(id: int, ids: seq<int>, o: ExecOutcome) returns (ok: bool)
      requires id in jobs && IdleHasNoJob(cards) && ids != [] && o.acquired && CountTest(cards, ids)
      modifies this
      ensures View() == Executed(old(View()), id, ids, o)
      ensures ok <==> ExitOf(old(cards), old(jobs)[id], ids, o).Started?
      ensures log == old(log) + Writes(ExitOf(old(cards), old(jobs)[id], ids, o), ids, o)
    {
      ghost var w := View();
      FreedHeld(cards, ids, id);
      MarkLostIsNothing(w, id, ids, o);
      MarkedThenFailed(w.jobs, id);
      cards, log := Held(cards, ids, id), log + [Take];
      if !o.marked {
        cards, log := Freed(cards, IdSet(ids)), log + [Free];
        return false;
      }
      jobs, log := SetStatus(jobs, id, RUNNING), log + [Mark];
      ok := RunHeldJob(id, ids, o, w);
      assert log == old(log) + ([Take, Mark] + LaterWrites(ExitOf(w.cards, w.jobs[id], ids, o), ids, o));
    }

    /** The part of executeJob that runs with the cards held and the job Running. */
    method RunHeldJob(id: int, ids: seq<int>, o: ExecOutcome, ghost w: World) returns (ok: bool)
      requires id in w.jobs && ids != [] && CountTest(w.cards, ids) && o.acquired && o.marked
      requires Freed(Held(w.cards, ids, id), IdSet(ids)) == w.cards
      requires SetStatus(SetStatus(w.jobs, id, RUNNING), id, FAILED) == SetStatus(w.jobs, id, FAILED)
      requires View() == w.(jobs := SetStatus(w.jobs, id, RUNNING), cards := Held(w.cards, ids, id))
      modifies this
      ensures View() == Executed(w, id, ids, o)
      ensures ok <==> ExitOf(w.cards, w.jobs[id], ids, o).Started?
      ensures log == old(log) + LaterWrites(ExitOf(w.cards, w.jobs[id], ids, o), ids, o)
    {
      if jobs[id].path == "" {
        GiveUp(id, ids, o.removed);
        return false;
      }
      if !o.lookedUp { return false; }
      if !o.checked {
        GiveUp(id, ids, o.removed);
        return false;
      }
      ok := Launch(id, ids, o);
    }

    /** The remote launch and what follows it. */
    method Launch(id: int, ids: seq<int>, o: ExecOutcome) returns (ok: bool)
      modifies this
      ensures launches == old(launches) + [id]
      ensures log == old(log) + if o.pid.None? then [Ask, Free, Fail, Drop] else [Ask] + Inserts(Inserted(ids, o))
      ensures o.pid.None? ==>
                && !ok && running == old(running) && procs == old(procs) && monitors == old(monitors)
                && cards == Freed(old(cards), IdSet(ids)) && jobs == SetStatus(old(jobs), id, FAILED)
                && queue == Dequeued(old(queue), id, o.removed)
      ensures o.pid.Some? ==>
                && cards == old(cards) && jobs == old(jobs) && queue == old(queue)
                && running == old(running)[o.pid.value := JobProcess(o.pid.value, id, ids)]
                && procs == old(procs) + NewRows(o.pid.value, id, Inserted(ids, o))
                && (ok <==> o.inserted >= |ids| && o.cached)
                && monitors == if ok then old(monitors) + multiset{JobProcess(o.pid.value, id, ids)} else old(monitors)
    {
      launches, log := launches + [id], log + [Ask];
      if o.pid.None? {
        GiveUp(id, ids, o.removed);
        return false;
      }
      ok := TrackLaunch(JobProcess(o.pid.value, id, ids), o);
    }

    /** The bookkeeping after a launch: the running map, one row per card, the pid
        cache, the monitor. */
    method TrackLaunch(jp: JobProcess, o: ExecOutcome) returns (ok: bool)
      modifies `running, `procs, `monitors, `log
      ensures running == old(running)[jp.pid := jp]
      ensures log == old(log) + Inserts(Inserted(jp.cards, o))
      ensures procs == old(procs) + NewRows(jp.pid, jp.job, Inserted(jp.cards, o))
      ensures ok <==> o.inserted >= |jp.cards| && o.cached
      ensures monitors == if ok then old(monitors) + multiset{jp} else old(monitors)
    {
      running := running[jp.pid := jp];
      for k := 0 to |jp.cards|
        invariant k <= o.inserted
        invariant running == old(running)[jp.pid := jp] && monitors == old(monitors)
        invariant procs == old(procs) + NewRows(jp.pid, jp.job, jp.cards[..k])
        invariant log == old(log) + Inserts(jp.cards[..k])
      {
        if k == o.inserted { return false; }
        procs, log := procs + [Process(jp.pid, jp.cards[k], jp.job, false)], log + [Insert(jp.cards[k])];
        assert Inserts(jp.cards[..k + 1]) == Inserts(jp.cards[..k]) + [Insert(jp.cards[k])];
        assert NewRows(jp.pid, jp.job, jp.cards[..k + 1])
            == NewRows(jp.pid, jp.job, jp.cards[..k]) + [Process(jp.pid, jp.cards[k], jp.job, false)];
      }
      assert jp.cards[..|jp.cards|] == jp.cards;
      if !o.cached { return false; }
      monitors := monitors + multiset{jp};
      return true;
    }

    method ProcessQueue(o: TickOutcome)
      requires IdleHasNoJob(cards)
      modifies this
      ensures View() == Ticked(old(View()), o)
    {
      if !o.locked || !o.peeked { return; }
      if |queue.entries| == 0 || queue.entries[0].member == 0 { return; }
      var id := queue.entries[0].member;
      if !o.read || id !in jobs { return; }
      var job := jobs[id];
      if job.status != QUEUED && job.status != WAITING_GPU {
        queue := Dequeued(queue, id, o.removed);
        return;
      }
      ProcessPending(id, job, o);
    }

    /** The head of the queue is a job that may start. */
    method ProcessPending(id: int, job: Job, o: TickOutcome)
      requires IdleHasNoJob(cards)
      requires o.locked && o.peeked && o.read
      requires queue.entries != [] && queue.entries[0].member == id != 0
      requires id in jobs && jobs[id] == job && Pending(job)
      modifies this
      ensures View() == Ticked(old(View()), o)
    {
      var ids := GpuIds.ParseGpuIDs(job.gpuIds);
      if |ids| == 0 {
        queue := Dequeued(queue, id, o.removed);
        return;
      }
      if !o.answered { return; }
      var available := !o.cacheDenies && |IdleAmong(cards, ids)| == |ids|;
      if !available {
        MakeWait(id, o.written);
        return;
      }
      StartPending(id, ids, o);
    }

    method MakeWait(id: int, written: bool)
      requires id in jobs
      modifies `jobs
      ensures jobs == if written then SetStatus(old(jobs), id, WAITING_GPU) else old(jobs)
    {
      assert jobs[id].status == WAITING_GPU ==> jobs == SetStatus(jobs, id, WAITING_GPU);
      if jobs[id].status != WAITING_GPU {
        if written { jobs := SetStatus(jobs, id, WAITING_GPU); }
      }
    }

    /** Whether or not the start works out, the job leaves the queue. */
    method StartPending(id: int, ids: seq<int>, o: TickOutcome)
      requires IdleHasNoJob(cards) && VerdictOf(View(), o) == Verdict.Start(id)
      requires id in jobs && ids == CardsOf(jobs[id])
      modifies this
      ensures View() == Ticked(old(View()), o)
    {
      var ok := ExecuteJob(id, ids, o.exec);
      queue := Dequeued(queue, id, o.removed);
    }

    method EndRows(job: int, unsaved: set<int>)
      modifies `procs
      ensures procs == MarkedEnded(old(procs), ActiveRows(old(procs), job) - unsaved)
    {
      var rows := ActiveRows(procs, job);
      ghost var done: set<int> := {};
      while rows != {}
        invariant rows !! done && rows + done == ActiveRows(old(procs), job)
        invariant procs == MarkedEnded(old(procs), done - unsaved)
      {
        SomeElement(rows);
        var i :| i in rows;
        rows, done := rows - {i}, done + {i};
        if i !in unsaved {
          procs := procs[i := procs[i].(ended := true)];
        }
      }
      assert done == ActiveRows(old(procs), job);
    }

    method EndRowsIfFound(job: int, found: bool, unsaved: set<int>)
      modifies `procs
      ensures procs == MarkedEnded(old(procs), if found then ActiveRows(old(procs), job) - unsaved else {})
    {
      MarkedEndedNone(procs);
      if found { EndRows(job, unsaved); }
    }

    method WriteEndStatus(job: int, end: End)
      modifies `jobs
      ensures jobs == if end.Stopped? then old(jobs) else SetStatus(old(jobs), job, StatusAfter(end).value)
    {
      match end {
        case Lost => jobs := SetStatus(jobs, job, FAILED);
        case Gone(code) =>
          var status := COMPLETED;
          if code.Some? && code.value != 0 { status := FAILED; }
          jobs := SetStatus(jobs, job, status);
        case Stopped =>
      }
    }

    /** The deferred cleanup of a monitor. */
    method CleanUp(jp: JobProcess, found: bool, unsaved: set<int>)
      modifies `running, `monitors, `procs, `cards
      ensures running == old(running) - {jp.pid}
      ensures monitors == old(monitors) - multiset{jp}
      ensures procs == MarkedEnded(old(procs), if found then ActiveRows(old(procs), jp.job) - unsaved else {})
      ensures cards == Freed(old(cards), IdSet(jp.cards))
    {
      running, monitors := running - {jp.pid}, monitors - multiset{jp};
      EndRowsIfFound(jp.job, found, unsaved);
      cards := Freed(cards, IdSet(jp.cards));
    }

    /** Watching and ending together: what becomes of the job, from what the monitor saw
        at its ticks and what reading the exit code would give. */
    method MonitorJob(jp: JobProcess, polls: seq<Poll>, code: Option<int>, found: bool, unsaved: set<int>)
      returns (ticks: nat)
      requires jp in monitors && jp.job in jobs
      modifies this
      ensures ticks <= |polls| && (forall k :: 0 <= k < ticks ==> !ExitsAt(polls, k))
      ensures ticks == |polls| ==> View() == old(View())
      ensures ticks < |polls| ==>
                && ExitsAt(polls, ticks) && jp.pid !in running && jp.job in jobs
                && (polls[ticks].Down? && (code == None || code == Some(0)) ==> jobs[jp.job].status == COMPLETED)
                && (polls[ticks].Down? && code != None && code != Some(0) ==> jobs[jp.job].status == FAILED)
                && (polls[ticks].Failing? ==> jobs[jp.job].status == FAILED)
                && (polls[ticks].Shutdown? ==> jobs == old(jobs))
                && (forall c :: c in jp.cards && c in cards ==> !cards[c].busy)
    {
      var end;
      end, ticks := WatchProcess(polls, code);
      if end.None? { return; }
      FinishMonitor(jp, end.value, found, unsaved);
    }

    /** The end of a monitor: status by the reason, then the cleanup. */
    method FinishMonitor(jp: JobProcess, end: End, found: bool, unsaved: set<int>)
      requires jp in monitors
      modifies this
      ensures View() == Monitored(old(View()), jp, end, found, unsaved)
      ensures jp.job in jobs && (end == Gone(None) || end == Gone(Some(0))) ==> jobs[jp.job].status == COMPLETED
      ensures jp.job in jobs && (end == Lost || (end.Gone? && end.code.Some? && end.code.value != 0)) ==>
                jobs[jp.job].status == FAILED
      ensures end == Stopped ==> jobs == old(jobs)
    {
      WriteEndStatus(jp.job, end);
      CleanUp(jp, found, unsaved);
    }

    method HandleMissingProcess(j: int, row: Option<int>, unsaved: set<int>)
      requires j in jobs
      requires row.Some? ==> 0 <= row.value < |procs|
      modifies `jobs, `procs, `cards
      ensures View() == Reclaimed(old(View()), {j}, if row.Some? then {row.value} else {}, unsaved)
    {
      ghost var was := jobs;
      ghost var rows := procs;
      jobs := SetStatus(jobs, j, FAILED);
      assert jobs == MarkedFailed(was, {j});
      if row.Some? && row.value !in unsaved {
        procs := procs[row.value := procs[row.value].(ended := true)];
      }
      assert procs == MarkedEnded(rows, (if row.Some? then {row.value} else {}) - unsaved);
      var ids := GpuIds.ParseGpuIDs(jobs[j].gpuIds);
      CardsOfOne(was, j);
      cards := Freed(cards, IdSet(ids));
    }

    /** Reclaims jobs whose process is gone; tracked ones are left to their monitors. */
    method AuditRunningJobs(o: PassOutcome)
      modifies `jobs, `procs, `cards
      ensures View() == Audited(old(View()), o)
    {
      ghost var w := View();
      ghost var tracked := running.Keys;
      PassedNothing(w, o, tracked);
      ghost var done: set<int> := {};
      if !o.listed { return; }
      var todo := set j | j in jobs && IsRunning(jobs, j);
      assert Examined(w, o) == done + (todo - o.unread);
      while todo != {}
        invariant todo <= w.jobs.Keys && todo !! done && Examined(w, o) == done + (todo - o.unread)
        invariant View() == Reclaimed(w, LostJobs(w, o, done, tracked), DeadRows(w, o, done, tracked), o.unsaved)
      {
        SomeElement(todo);
        var j :| j in todo;
        todo := todo - {j};
        if j !in o.unread {
          AuditJob(j, o, w, done);
          done := done + {j};
        }
      }
      assert done == Examined(w, o);
    }

    method AuditJob(j: int, o: PassOutcome, ghost w: World, ghost done: set<int>)
      requires j in w.jobs && j !in done && running == w.running
      requires View() == Reclaimed(w, LostJobs(w, o, done, running.Keys), DeadRows(w, o, done, running.Keys), o.unsaved)
      modifies `jobs, `procs, `cards
      ensures View() == Reclaimed(w, LostJobs(w, o, done + {j}, running.Keys),
                                  DeadRows(w, o, done + {j}, running.Keys), o.unsaved)
    {
      ghost var tracked := running.Keys;
      ghost var lost, dead := LostJobs(w, o, done, tracked), DeadRows(w, o, done, tracked);
      JobStep(w, o, done, j, tracked);
      var rows := ActiveRows(procs, j);
      if rows == {} {
        HandleMissingProcess(j, None, o.unsaved);
        ReclaimedTwice(w, lost, dead, o.unsaved, j, {});
        assert dead + {} == dead;
        return;
      }
      AuditRows(j, rows, o, w, lost, dead);
    }

    method AuditRows(j: int, all: set<int>, o: PassOutcome, ghost w: World, ghost lost: set<int>, ghost dead: set<int>)
      requires j in w.jobs && all == ActiveRows(w.procs, j) && running == w.running
      requires View() == Reclaimed(w, lost, dead, o.unsaved)
      modifies `jobs, `procs, `cards
      ensures var found := DeadRows(w, o, {j}, w.running.Keys);
              View() == Reclaimed(w, if found == {} then lost else lost + {j}, dead + found, o.unsaved)
    {
      var rows := all;
      ghost var deadHere := DeadRows(w, o, {j}, w.running.Keys);
      ghost var found: set<int>, gone := {}, lost;
      assert dead + found == dead;
      while rows != {}
        invariant running == w.running
        invariant rows <= all && found <= deadHere <= found + rows
        invariant gone == if found == {} then lost else lost + {j}
        invariant View() == Reclaimed(w, gone, dead + found, o.unsaved)
      {
        SomeElement(rows);
        var i :| i in rows;
        rows := rows - {i};
        var isDead := AuditRow(j, i, o, w, gone, dead + found);
        if isDead {
          assert dead + found + {i} == dead + (found + {i});
          assert gone + {j} == lost + {j};
          gone, found := gone + {j}, found + {i};
        }
      }
      assert found == deadHere;
    }

    method AuditRow(j: int, i: int, o: PassOutcome, ghost w: World, ghost lost: set<int>, ghost dead: set<int>)
      returns (isDead: bool)
      requires j in w.jobs && i in ActiveRows(w.procs, j) && running == w.running
      requires View() == Reclaimed(w, lost, dead, o.unsaved)
      modifies `jobs, `procs, `cards
      ensures isDead <==> i in DeadRows(w, o, {j}, w.running.Keys)
      ensures View() == if isDead then Reclaimed(w, lost + {j}, dead + {i}, o.unsaved)
                        else Reclaimed(w, lost, dead, o.unsaved)
    {
      var pid := procs[i].pid;
      if pid in running { return false; }
      if o.probe(pid) != Dead { return false; }
      HandleMissingProcess(j, Some(i), o.unsaved);
      ReclaimedTwice(w, lost, dead, o.unsaved, j, {i});
      return true;
    }

    /** How far a recovery pass has come. */
    ghost predicate Progress(w: World, lost: set<int>, dead: set<int>, live: set<int>, unsaved: set<int>)
      requires RowsOfJobs(w, live)
      reads this
    {
      && View() == Reclaimed(w, lost, dead, unsaved).(running := running, monitors := monitors)
      && TookOver(w, live, running, monitors)
    }

    /** A recovery pass that has looked at these jobs. */
    ghost predicate Passed(w: World, o: PassOutcome, done: set<int>)
      reads this
    {
      && RowsOfJobs(w, LiveRows(w, o, done))
      && Progress(w, LostJobs(w, o, done, {}), DeadRows(w, o, done, {}), LiveRows(w, o, done), o.unsaved)
    }

    /** At start: jobs left Running by the last process are taken over or reclaimed. */
    method RecoverRunningJobs(o: PassOutcome)
      requires running == map[] && monitors == multiset{}
      modifies this
      ensures Recovered(old(View()), o, View())
    {
      ghost var w := View();
      PassedNothing(w, o, {});
      if !o.listed { return; }
      var todo := set j | j in jobs && IsRunning(jobs, j);
      assert Examined(w, o) == todo - o.unread;
      RecoverEach(todo, o, w);
    }

    /** The loop over the Running jobs. */
    method RecoverEach(all: set<int>, o: PassOutcome, ghost w: World)
      requires all <= w.jobs.Keys && Passed(w, o, {})
      modifies this
      ensures Passed(w, o, all - o.unread)
    {
      var todo := all;
      ghost var done: set<int> := {};
      while todo != {}
        invariant Remaining(all, o.unread, todo, done)
        invariant Passed(w, o, done)
      {
        SomeElement(todo);
        var j :| j in todo;
        RecoverUnlessUnread(j, o, w, done);
        OneLess(all, o.unread, todo, done, j);
        todo, done := todo - {j}, if j in o.unread then done else done + {j};
      }
      assert done == all - o.unread;
    }

    method RecoverUnlessUnread(j: int, o: PassOutcome, ghost w: World, ghost done: set<int>)
      requires j in w.jobs && j !in done && done <= w.jobs.Keys && Passed(w, o, done)
      modifies this
      ensures Passed(w, o, if j in o.unread then done else done + {j})
    {
      if j !in o.unread { RecoverJob(j, o, w, done); }
    }

    method RecoverJob(j: int, o: PassOutcome, ghost w: World, ghost done: set<int>)
      requires j in w.jobs && j !in done && done <= w.jobs.Keys
      requires Passed(w, o, done)
      modifies this
      ensures Passed(w, o, done + {j})
    {
      ghost var lost, dead, live := LostJobs(w, o, done, {}), DeadRows(w, o, done, {}), LiveRows(w, o, done);
      JobStep(w, o, done, j, {});
      OneMore(w, o, done, j, {});
      AllRows(w, o, j);
      var rows := ActiveRows(procs, j);
      if rows == {} {
        RecoverRowless(j, o, w, lost, dead, live);
        assert live + LiveRows(w, o, {j}) == live;
        return;
      }
      assert dead + DeadRows(w, o, {j}, {}) * {} == dead && live + LiveRows(w, o, {j}) * {} == live;
      RecoverRows(j, rows, o, w, lost, dead, live);
    }

    method RecoverRowless(
      j: int, o: PassOutcome, ghost w: World, ghost lost: set<int>, ghost dead: set<int>, ghost live: set<int>)
      requires j in w.jobs && RowsOfJobs(w, live) && Progress(w, lost, dead, live, o.unsaved)
      modifies this
      ensures Progress(w, lost + {j}, dead, live, o.unsaved)
    {
      HandleMissingProcess(j, None, o.unsaved);
      ReclaimedTwice(w, lost, dead, o.unsaved, j, {});
      assert dead + {} == dead;
    }

    /** Recovery of one job, after these of its rows. */
    ghost predicate RowsPassed(
      w: World, o: PassOutcome, j: int, lost: set<int>, dead: set<int>, live: set<int>, done: set<int>)
      reads this
    {
      var here, up := DeadRows(w, o, {j}, {}) * done, LiveRows(w, o, {j}) * done;
      && RowsOfJobs(w, live + up)
      && Progress(w, if here == {} then lost else lost + {j}, dead + here, live + up, o.unsaved)
    }

    method RecoverRows(
      j: int, all: set<int>, o: PassOutcome,
      ghost w: World, ghost lost: set<int>, ghost dead: set<int>, ghost live: set<int>)
      requires j in w.jobs && all == ActiveRows(w.procs, j)
      requires live !! all && RowsPassed(w, o, j, lost, dead, live, {})
      modifies this
      ensures RowsPassed(w, o, j, lost, dead, live, all)
    {
      var rows := all;
      ghost var done: set<int> := {};
      while rows != {}
        invariant rows + done == all && rows !! done
        invariant RowsPassed(w, o, j, lost, dead, live, done)
      {
        SomeElement(rows);
        var i :| i in rows;
        RecoverNextRow(j, i, o, w, lost, dead, live, done);
        rows, done := rows - {i}, done + {i};
      }
      assert done == all;
    }

    method RecoverNextRow(
      j: int, i: int, o: PassOutcome,
      ghost w: World, ghost lost: set<int>, ghost dead: set<int>, ghost live: set<int>, ghost done: set<int>)
      requires j in w.jobs && i in ActiveRows(w.procs, j) && i !in live && i !in done
      requires RowsPassed(w, o, j, lost, dead, live, done)
      modifies this
      ensures RowsPassed(w, o, j, lost, dead, live, done + {i})
    {
      RowSets(w, o, j, i, done, dead, live);
      ghost var here, up := DeadRows(w, o, {j}, {}) * done, LiveRows(w, o, {j}) * done;
      ghost var gone := if here == {} then lost else lost + {j};
      assert gone + {j} == lost + {j};
      var probe := RecoverRow(j, i, o, w, gone, dead + here, live + up);
    }

    method RecoverRow(
      j: int, i: int, o: PassOutcome,
      ghost w: World, ghost lost: set<int>, ghost dead: set<int>, ghost live: set<int>)
      returns (probe: Probe)
      requires j in w.jobs && i in ActiveRows(w.procs, j) && i !in live
      requires RowsOfJobs(w, live) && Progress(w, lost, dead, live, o.unsaved)
      modifies this
      ensures probe == o.probe(w.procs[i].pid)
      ensures probe == Dead ==> Progress(w, lost + {j}, dead + {i}, live, o.unsaved)
      ensures probe == Alive ==> RowsOfJobs(w, live + {i}) && Progress(w, lost, dead, live + {i}, o.unsaved)
      ensures probe == Unclear ==> Progress(w, lost, dead, live, o.unsaved)
    {
      var pid := procs[i].pid;
      probe := o.probe(pid);
      match probe {
        case Unclear =>
        case Alive =>
          var ids := GpuIds.ParseGpuIDs(jobs[j].gpuIds);
          var jp := JobProcess(pid, j, ids);
          TookOverMore(w, live, running, monitors, i);
          running, monitors := running[pid := jp], monitors + multiset{jp};
        case Dead =>
          HandleMissingProcess(j, Some(i), o.unsaved);
          ReclaimedTwice(w, lost, dead, o.unsaved, j, {i});
      }
    }
  }
}
