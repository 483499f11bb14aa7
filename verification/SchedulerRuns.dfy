/** Every run of the platform: submissions, cancellations, removals, reorderings,
    scheduler ticks, monitor exits, audits, card discovery, and crashes with recovery. */
module SchedulerRuns {
  import opened Text
  import opened Entity
  import opened GpuAllocator
  import Q = QueueService
  import JobService
  import opened Cluster
  import opened SchedulerInvariant
  import opened Recovery
  import opened CrashPoints
  import opened Sets

  datatype Step =
    | Submit(user: int, req: JobService.Request, submit: JobService.SubmitOutcome)
    | Cancel(id: int, asker: int, cancel: JobService.CancelOutcome)
    | Withdraw(target: int, remove: JobService.RemoveOutcome)
    | Move(job: int, before: int, move: Q.MoveOutcome)
    | Tick(tick: TickOutcome)
    | MonitorExit(jp: JobProcess, end: End, found: bool, unsaved: set<int>)
    | Audit(pass: PassOutcome)
    | Restart(recovery: PassOutcome)
    | Discover(infos: seq<Info>)
    | CutStart(start: TickOutcome, writes: nat)
    | CutExit(jp: JobProcess, end: End, ended: set<int>)
    | CutPass(cut: PassOutcome, at: PassCutAt)

  function TablesOf(w: World): JobService.Tables {
    JobService.Tables(w.jobs, w.queue)
  }

  function WithTables(w: World, t: JobService.Tables): World {
    w.(jobs := t.jobs, queue := t.queue)
  }

  /** One step, whatever its answers are: pids may be reused, monitors may stop with the
      scheduler, a restart may find any tables and any probe may fail, and the process may
      die between any two writes. New job ids are fresh. In the services that users call, a
      crash leaves what one of their failures leaves, so those need no step of their own. */
  ghost predicate Next(w: World, s: Step, w': World) {
    match s
    case Submit(user, req, o) =>
      o.id !in w.jobs && w' == WithTables(w, JobService.Submitted(TablesOf(w), user, req, o))
    case Cancel(id, user, o) => w' == WithTables(w, JobService.Cancelled(TablesOf(w), id, user, o))
    case Withdraw(id, o) => w' == WithTables(w, JobService.Withdrawn(TablesOf(w), id, o))
    case Move(job, before, o) =>
      w' == w.(jobs := Q.MovedJobs(w.queue.entries, w.jobs, job, before, o),
               queue := w.queue.(entries := Q.MovedEntries(w.queue.entries, job, before, o)))
    case Tick(o) => w' == Ticked(w, o)
    case MonitorExit(jp, end, found, unsaved) => jp in w.monitors && w' == Monitored(w, jp, end, found, unsaved)
    case Audit(o) => w' == Audited(w, o)
    case Restart(o) => Recovered(Crashed(w), o, w')
    case Discover(infos) => w' == w.(cards := Upserted(w.cards, infos))
    case CutStart(o, n) => VerdictOf(w, o).Start? && w' == StartCut(w, VerdictOf(w, o).id, o.exec, n)
    case CutExit(jp, end, ended) =>
      jp in w.monitors && ended <= ActiveRows(w.procs, jp.job) && w' == ExitCut(w, jp, end, ended)
    case CutPass(o, at) => CutsPass(w, o, at) && w' == PassCut(w, at)
  }

  ghost predicate IsRun(trace: seq<World>, steps: seq<Step>) {
    && |trace| == |steps| + 1
    && forall i :: 0 <= i < |steps| ==> Next(trace[i], steps[i], trace[i + 1])
  }

  /** A fresh start: no Running job, no busy card, nothing tracked; old process rows
      may remain. */
  ghost predicate Init(w: World) {
    && (forall j :: j in w.jobs ==> w.jobs[j].status != RUNNING)
    && (forall c :: c in w.cards ==> !w.cards[c].busy && w.cards[c].job == None)
    && (forall i :: 0 <= i < |w.procs| ==> w.procs[i].job in w.jobs && Settled(w.jobs[w.procs[i].job]))
    && w.running == map[] && w.monitors == multiset{}
  }

  // ---------------------------------------------------- what every step keeps

  /** Process rows and monitors belong to jobs that were started. */
  ghost predicate StartedOnly(w: World) {
    && (forall i :: 0 <= i < |w.procs| ==> w.procs[i].job in w.jobs && Settled(w.jobs[w.procs[i].job]))
    && (forall jp :: jp in w.monitors ==> jp.job in w.jobs && Settled(w.jobs[jp.job]))
  }

  /** Monitors work with the cards their jobs list. */
  ghost predicate CardsKnown(w: World) {
    forall jp :: jp in w.monitors ==> jp.job in w.jobs && jp.cards == CardsOf(w.jobs[jp.job])
  }

  /** Settled jobs stay settled, with the same card list. */
  ghost predicate SettledKept(jobs: map<int, Job>, jobs': map<int, Job>) {
    forall j :: j in jobs && Settled(jobs[j]) ==>
      j in jobs' && Settled(jobs'[j]) && jobs'[j].gpuIds == jobs[j].gpuIds
  }

  lemma QuietSettled(jobs: map<int, Job>, jobs': map<int, Job>)
    requires Quiet(jobs, jobs')
    ensures SettledKept(jobs, jobs')
  {
  }

  ghost predicate KeepsStarted(w: World, w': World) {
    StartedOnly(w') && SettledKept(w.jobs, w'.jobs) && (CardsKnown(w) ==> CardsKnown(w'))
  }

  /** A monitor that was there, or that a restart made for a row. */
  ghost predicate OldMonitor(w: World, jp: JobProcess) {
    || jp in w.monitors
    || exists i :: 0 <= i < |w.procs| && w.procs[i].job == jp.job
                   && jp.job in w.jobs && jp.cards == CardsOf(w.jobs[jp.job])
  }

  /** Steps that start nothing. */
  lemma OtherStarted(w: World, w': World)
    requires StartedOnly(w) && SettledKept(w.jobs, w'.jobs)
    requires |w'.procs| == |w.procs| && forall i :: 0 <= i < |w.procs| ==> w'.procs[i].job == w.procs[i].job
    requires forall jp :: jp in w'.monitors ==> OldMonitor(w, jp)
    ensures KeepsStarted(w, w')
  {
    forall jp | jp in w'.monitors
      ensures jp.job in w.jobs && Settled(w.jobs[jp.job]) && (CardsKnown(w) ==> jp.cards == CardsOf(w.jobs[jp.job]))
    {
      assert OldMonitor(w, jp);
    }
  }

  lemma ExecStarted(w: World, id: int, o: ExecOutcome)
    requires StartedOnly(w) && id in w.jobs && Pending(w.jobs[id])
    ensures KeepsStarted(w, Executed(w, id, CardsOf(w.jobs[id]), o))
  {
    var w' := Executed(w, id, CardsOf(w.jobs[id]), o);
    assert SettledKept(w.jobs, w'.jobs);
    assert id in w'.jobs && w'.jobs[id].gpuIds == w.jobs[id].gpuIds;
  }

  lemma TickStarted(w: World, o: TickOutcome)
    requires StartedOnly(w)
    ensures KeepsStarted(w, Ticked(w, o))
  {
    match VerdictOf(w, o)
    case Start(id) => ExecStarted(w, id, o.exec);
    case _ => OtherStarted(w, Ticked(w, o));
  }

  lemma RestartStarted(w: World, o: PassOutcome, w': World)
    requires StartedOnly(w) && Recovered(Crashed(w), o, w')
    ensures KeepsStarted(w, w')
  {
    var v := Crashed(w);
    var live := LiveRows(v, o, Examined(v, o));
    forall jp | jp in w'.monitors ensures OldMonitor(w, jp) {
      assert |MonitorsOf(v, live, jp)| > 0;
      var i :| i in MonitorsOf(v, live, jp);
      assert w.procs[i].job == jp.job;
    }
    OtherStarted(w, w');
  }

  lemma QuietStarted(w: World, jobs: map<int, Job>, queue: Q.Queue)
    requires StartedOnly(w) && Quiet(w.jobs, jobs)
    ensures KeepsStarted(w, w.(jobs := jobs, queue := queue))
  {
    QuietSettled(w.jobs, jobs);
    OtherStarted(w, w.(jobs := jobs, queue := queue));
  }

  lemma MonitorSettles(w: World, jp: JobProcess, end: End, found: bool, unsaved: set<int>)
    ensures SettledKept(w.jobs, Monitored(w, jp, end, found, unsaved).jobs)
  {
  }

  lemma MonitorStarted(w: World, jp: JobProcess, end: End, found: bool, unsaved: set<int>)
    requires StartedOnly(w)
    ensures KeepsStarted(w, Monitored(w, jp, end, found, unsaved))
  {
    MonitorSettles(w, jp, end, found, unsaved);
    OtherStarted(w, Monitored(w, jp, end, found, unsaved));
  }

  lemma AuditStarted(w: World, o: PassOutcome)
    requires StartedOnly(w)
    ensures KeepsStarted(w, Audited(w, o))
  {
    OtherStarted(w, Audited(w, o));
  }

  /** Submissions, cancellations, removals and moves change job rows and the queue only,
      and start nothing. */
  ghost predicate IsQuiet(s: Step) {
    s.Submit? || s.Cancel? || s.Withdraw? || s.Move?
  }

  lemma QuietSteps(w: World, s: Step, w': World)
    requires IsQuiet(s) && Next(w, s, w')
    ensures Quiet(w.jobs, w'.jobs) && w' == w.(jobs := w'.jobs, queue := w'.queue)
  {
    match s
    case Submit(user, req, o) => SubmitIsQuiet(TablesOf(w), user, req, o);
    case Cancel(id, user, o) => CancelIsQuiet(TablesOf(w), id, user, o);
    case Withdraw(id, o) => WithdrawIsQuiet(TablesOf(w), id, o);
    case Move(job, before, o) => MoveIsQuiet(w, job, before, o);
  }

  lemma StartCutStarted(w: World, id: int, o: ExecOutcome, n: nat)
    requires StartedOnly(w) && id in w.jobs && Pending(w.jobs[id])
    ensures KeepsStarted(w, StartCut(w, id, o, n))
  {
    StartCutIs(w, id, o, n);
    var u := StartCut(w, id, o, n);
    assert SettledKept(w.jobs, u.jobs);
    forall i | 0 <= i < |u.procs| ensures u.procs[i].job in u.jobs && Settled(u.jobs[u.procs[i].job]) {
      if i < |w.procs| { assert u.procs[i] == w.procs[i]; }
    }
  }

  lemma ExitCutStarted(w: World, jp: JobProcess, end: End, ended: set<int>)
    requires StartedOnly(w)
    ensures KeepsStarted(w, ExitCut(w, jp, end, ended))
  {
    MonitorSettles(w, jp, end, false, {});
    OtherStarted(w, ExitCut(w, jp, end, ended));
  }

  lemma PassCutStarted(w: World, o: PassOutcome, at: PassCutAt)
    requires StartedOnly(w) && CutsPass(w, o, at)
    ensures KeepsStarted(w, PassCut(w, at))
  {
    OtherStarted(w, PassCut(w, at));
  }

  lemma StepStarted(w: World, s: Step, w': World)
    requires StartedOnly(w) && Next(w, s, w')
    ensures KeepsStarted(w, w')
  {
    if IsQuiet(s) {
      QuietSteps(w, s, w');
      QuietStarted(w, w'.jobs, w'.queue);
    } else {
      match s
      case Tick(o) => TickStarted(w, o);
      case MonitorExit(jp, end, found, unsaved) => MonitorStarted(w, jp, end, found, unsaved);
      case Audit(o) => AuditStarted(w, o);
      case Restart(o) => RestartStarted(w, o, w');
      case Discover(infos) => OtherStarted(w, w');
      case CutStart(o, n) => StartCutStarted(w, VerdictOf(w, o).id, o.exec, n);
      case CutExit(jp, end, ended) => ExitCutStarted(w, jp, end, ended);
      case CutPass(o, at) => PassCutStarted(w, o, at);
    }
  }

  // ------------------------------------------------------------------- exclusion

  ghost predicate Matched(w: World) {
    Exact(Demand(w.jobs), w.cards)
  }

  /** What can part cards and Running jobs: the exit of a monitor that frees the cards of
      another job, and a crash between two writes that belong together. */
  ghost predicate SafeStep(w: World, s: Step) {
    match s
    case MonitorExit(jp, end, _, _) => SafeExit(w, jp, end)
    case CutStart(o, n) => VerdictOf(w, o).Start? ==> SafeCut(Done(w, VerdictOf(w, o).id, o.exec, n))
    case CutExit(jp, end, _) => end.Stopped? || !IsRunning(w.jobs, jp.job) || CardsOf(w.jobs[jp.job]) == []
    case CutPass(_, at) =>
      at.marked.Some? && at.marked.value in w.jobs ==> CardsOf(w.jobs[at.marked.value]) == []
    case _ => true
  }

  predicate SafeCut(ws: seq<Write>) {
    !HeldUnmarked(ws) && !FreedUnfailed(ws)
  }

  lemma TickMatched(w: World, o: TickOutcome)
    requires Matched(w)
    ensures Matched(Ticked(w, o))
  {
    match VerdictOf(w, o)
    case Nothing =>
    case Discard(id) =>
    case Wait(id) => QuietDemand(w.jobs, Ticked(w, o).jobs);
    case Start(id) => StartKeepsExact(w, id, o.exec);
  }

  lemma AuditMatched(w: World, o: PassOutcome)
    requires Matched(w)
    ensures Matched(Audited(w, o))
  {
    var lost := LostJobs(w, o, Examined(w, o), w.running.Keys);
    assert forall j :: j in lost ==> IsRunning(w.jobs, j);
    ReclaimKeepsExact(w, lost);
    DemandFailed(w.jobs, lost);
  }

  lemma ExitMatched(w: World, jp: JobProcess, end: End, found: bool, unsaved: set<int>)
    requires Matched(w) && CardsKnown(w) && jp in w.monitors
    ensures Matched(Monitored(w, jp, end, found, unsaved)) <==> SafeExit(w, jp, end)
  {
    MonitorExitExactly(w, jp, end, found, unsaved);
  }

  predicate IsCut(s: Step) {
    s.CutStart? || s.CutExit? || s.CutPass?
  }

  lemma CutExactly(w: World, s: Step, w': World)
    requires Matched(w) && IsCut(s) && Next(w, s, w')
    ensures Matched(w') <==> SafeStep(w, s)
  {
    match s
    case CutStart(o, n) => StartCutExactly(w, VerdictOf(w, o).id, o.exec, n);
    case CutExit(jp, end, ended) => ExitCutExactly(w, jp, end, ended);
    case CutPass(o, at) =>
      LostAreRunning(w, o, TrackedAt(w, at));
      PassCutExactly(w, o, at);
  }

  lemma StepExactly(w: World, s: Step, w': World)
    requires Matched(w) && CardsKnown(w) && Next(w, s, w')
    ensures Matched(w') <==> SafeStep(w, s)
  {
    if IsQuiet(s) {
      QuietSteps(w, s, w');
      QuietDemand(w.jobs, w'.jobs);
    } else {
      match s
      case Tick(o) => TickMatched(w, o);
      case MonitorExit(jp, end, found, unsaved) => ExitMatched(w, jp, end, found, unsaved);
      case Audit(o) => AuditMatched(w, o);
      case Restart(o) => RestartKeepsExact(w, o, w');
      case Discover(infos) => SyncKeepsExact(Demand(w.jobs), w.cards, infos);
      case _ => CutExactly(w, s, w');
    }
  }

  /** Where a run may begin: cards match Running jobs, rows and monitors are of started
      jobs and know their cards. A fresh start is such a state. */
  ghost predicate MayStart(w: World) {
    Matched(w) && StartedOnly(w) && CardsKnown(w)
  }

  lemma InitMayStart(w: World)
    requires Init(w)
    ensures MayStart(w)
  {
    InitInv(w);
  }

  lemma {:induction false} RunStarted(trace: seq<World>, steps: seq<Step>, k: nat)
    requires IsRun(trace, steps) && StartedOnly(trace[0]) && k < |trace|
    ensures StartedOnly(trace[k]) && (CardsKnown(trace[0]) ==> CardsKnown(trace[k]))
  {
    if k > 0 {
      RunStarted(trace, steps, k - 1);
      StepStarted(trace[k - 1], steps[k - 1], trace[k]);
    }
  }

  ghost predicate SafeUpTo(trace: seq<World>, steps: seq<Step>, k: nat)
    requires k <= |steps| && k <= |trace|
  {
    forall n :: 0 <= n < k ==> SafeStep(trace[n], steps[n])
  }

  ghost predicate MatchedUpTo(trace: seq<World>, k: nat)
    requires k < |trace|
  {
    forall n :: 0 <= n <= k ==> Matched(trace[n])
  }

  lemma RunStepExactly(trace: seq<World>, steps: seq<Step>, n: nat)
    requires IsRun(trace, steps) && MayStart(trace[0]) && n < |steps| && Matched(trace[n])
    ensures Matched(trace[n + 1]) <==> SafeStep(trace[n], steps[n])
  {
    RunStarted(trace, steps, n);
    StepExactly(trace[n], steps[n], trace[n + 1]);
  }

  lemma {:induction false} ChainExactly(trace: seq<World>, steps: seq<Step>, k: nat)
    requires |trace| == |steps| + 1 && k < |trace| && Matched(trace[0])
    requires forall n :: 0 <= n < k && Matched(trace[n]) ==> (Matched(trace[n + 1]) <==> SafeStep(trace[n], steps[n]))
    ensures MatchedUpTo(trace, k) <==> SafeUpTo(trace, steps, k)
  {
    if k > 0 {
      var n := k - 1;
      ChainExactly(trace, steps, n);
      assert MatchedUpTo(trace, k) <==> MatchedUpTo(trace, n) && Matched(trace[n + 1]);
      assert SafeUpTo(trace, steps, k) <==> SafeUpTo(trace, steps, n) && SafeStep(trace[n], steps[n]);
      assert Matched(trace[n]) ==> (Matched(trace[n + 1]) <==> SafeStep(trace[n], steps[n]));
    }
  }

  /** In every run whatsoever, cards and Running jobs match at every moment exactly when
      every monitor exit and every crash so far was safe. */
  lemma {:induction false} ExclusionExactly(trace: seq<World>, steps: seq<Step>, k: nat)
    requires IsRun(trace, steps) && MayStart(trace[0]) && k < |trace|
    ensures MatchedUpTo(trace, k) <==> SafeUpTo(trace, steps, k)
  {
    forall n | 0 <= n < k && Matched(trace[n]) ensures Matched(trace[n + 1]) <==> SafeStep(trace[n], steps[n]) {
      RunStepExactly(trace, steps, n);
    }
    ChainExactly(trace, steps, k);
  }

  predicate BusyUnder(w: World, c: int, j: int) {
    c in w.cards && w.cards[c].busy && w.cards[c].job == Some(j)
  }

  predicate RunsOn(w: World, j: int, c: int) {
    IsRunning(w.jobs, j) && c in CardsOf(w.jobs[j])
  }

  lemma HoldersExact(demand: map<int, seq<int>>, cards: Rows, c: int, j: int)
    requires Exact(demand, cards)
    ensures c in cards && cards[c].busy && cards[c].job == Some(j) <==> j in demand && c in demand[j]
  {
  }

  lemma ExactMeans(w: World, c: int, j: int)
    requires Matched(w)
    ensures BusyUnder(w, c, j) <==> RunsOn(w, j, c)
  {
    HoldersExact(Demand(w.jobs), w.cards, c, j);
  }

  /** In every run, as long as every step was safe: a card is busy under a job
      exactly when that job is Running and lists the card, so no two Running jobs share a
      card. */
  lemma CardExclusion(trace: seq<World>, steps: seq<Step>, k: nat, c: int, i: int, j: int)
    requires IsRun(trace, steps) && MayStart(trace[0]) && k < |trace| && SafeUpTo(trace, steps, k)
    ensures BusyUnder(trace[k], c, j) <==> RunsOn(trace[k], j, c)
    ensures RunsOn(trace[k], i, c) && RunsOn(trace[k], j, c) ==> i == j
    ensures c in trace[k].cards && trace[k].cards[c].busy ==>
              trace[k].cards[c].job.Some? && RunsOn(trace[k], trace[k].cards[c].job.value, c)
  {
    ExclusionExactly(trace, steps, k);
    ExactMeans(trace[k], c, i);
    ExactMeans(trace[k], c, j);
  }

  // --------------------------------------------------------------- conservation

  function BusyCards(cards: Rows): set<int> {
    set c | c in cards && cards[c].busy
  }

  ghost function Pick(demand: map<int, seq<int>>): int
    requires demand != map[]
    ensures Pick(demand) in demand
  {
    SomeKey(demand);
    var j :| j in demand;
    j
  }

  /** The number of cards that the Running jobs list, all together. */
  ghost function TotalDemand(demand: map<int, seq<int>>): nat
    decreases |demand|
  {
    if demand == map[] then 0
    else
      var j := Pick(demand);
      assert demand == (demand - {j})[j := demand[j]];
      |demand[j]| + TotalDemand(demand - {j})
  }

  lemma BusyMinus(cards: Rows, mine: set<int>)
    requires forall c :: c in mine ==> c in cards && cards[c].busy
    ensures |BusyCards(cards)| == |BusyCards(Freed(cards, mine))| + |mine|
  {
    var busy, rest := BusyCards(cards), BusyCards(Freed(cards, mine));
    forall c ensures c in busy <==> c in rest + mine {}
    assert busy == rest + mine;
    assert rest !! mine;
  }

  lemma {:induction false} NothingBusy(cards: Rows)
    requires Exact(map[], cards)
    ensures BusyCards(cards) == {}
  {
    forall c | c in cards ensures !cards[c].busy {}
  }

  lemma {:induction false} BusyIsDemand(demand: map<int, seq<int>>, cards: Rows)
    requires Exact(demand, cards)
    ensures |BusyCards(cards)| == TotalDemand(demand)
    decreases |demand|
  {
    if demand == map[] {
      NothingBusy(cards);
    } else {
      var j := Pick(demand);
      assert demand == (demand - {j})[j := demand[j]];
      OneFreed(demand, cards, j);
      BusyIsDemand(demand - {j}, Freed(cards, IdSet(demand[j])));
      IdSetSize(demand[j]);
      BusyMinus(cards, IdSet(demand[j]));
    }
  }

  /** In every run, as long as every step was safe, the busy cards are as many as
      the Running jobs list. */
  lemma CardConservation(trace: seq<World>, steps: seq<Step>, k: nat)
    requires IsRun(trace, steps) && MayStart(trace[0]) && k < |trace| && SafeUpTo(trace, steps, k)
    ensures |BusyCards(trace[k].cards)| == TotalDemand(Demand(trace[k].jobs))
  {
    ExclusionExactly(trace, steps, k);
    BusyIsDemand(Demand(trace[k].jobs), trace[k].cards);
  }

  // ---------------------------------------------------------------- orderly runs

  /** A launch answers a pid that is not tracked, monitors do not stop with the
      scheduler, crashes fall between methods, and restarts are orderly. */
  ghost predicate Orderly(w: World, s: Step) {
    match s
    case Tick(o) => o.exec.pid.Some? ==> o.exec.pid.value !in w.running
    case MonitorExit(_, end, _, _) => !end.Stopped?
    case Restart(o) => OrderlyRestart(w, o)
    case _ => !IsCut(s)
  }

  lemma StepKeepsInv(w: World, s: Step, w': World)
    requires Inv(w) && Next(w, s, w') && Orderly(w, s)
    ensures Inv(w')
  {
    if IsQuiet(s) {
      QuietSteps(w, s, w');
      QuietKeepsInv(w, w'.jobs, w'.queue);
    } else {
      match s
      case Tick(o) => TickKeepsInv(w, o);
      case MonitorExit(jp, end, found, unsaved) => MonitorKeepsInv(w, jp, end, found, unsaved);
      case Audit(o) => AuditKeepsInv(w, o);
      case Restart(o) => RestartKeepsInvExactly(w, o, w');
      case Discover(infos) => SyncKeepsInv(w, infos);
    }
  }

  lemma InitInv(w: World)
    requires Init(w)
    ensures Inv(w)
  {
    forall j ensures j !in Demand(w.jobs) {
      if j in w.jobs { assert w.jobs[j].status != RUNNING; }
    }
    assert ActiveRowsOfRunning(w) == {};
  }

  lemma {:induction false} RunKeepsInv(trace: seq<World>, steps: seq<Step>, k: nat)
    requires IsRun(trace, steps) && Init(trace[0]) && k < |trace|
    requires forall n :: 0 <= n < k ==> Orderly(trace[n], steps[n])
    ensures Inv(trace[k])
  {
    if k == 0 {
      InitInv(trace[0]);
    } else {
      RunKeepsInv(trace, steps, k - 1);
      StepKeepsInv(trace[k - 1], steps[k - 1], trace[k]);
    }
  }

  /** From a fresh start every exit of an orderly run is safe: exclusion and conservation
      then hold without looking at the exits, and no status goes back. */
  lemma OrderlyRunsAreSafe(trace: seq<World>, steps: seq<Step>, k: nat)
    requires IsRun(trace, steps) && Init(trace[0]) && k < |trace|
    requires forall n :: 0 <= n < k ==> Orderly(trace[n], steps[n])
    ensures MayStart(trace[0]) && SafeUpTo(trace, steps, k)
    ensures FirstUpTo(trace, steps, k)
  {
    InitMayStart(trace[0]);
    forall n | 0 <= n < k ensures SafeStep(trace[n], steps[n]) && FirstVerdict(trace[n], steps[n]) {
      RunKeepsInv(trace, steps, n);
      OrderlyStepIsSafe(trace[n], steps[n], trace[n + 1]);
    }
  }

  lemma OrderlyStepIsSafe(w: World, s: Step, w': World)
    requires Inv(w) && Next(w, s, w') && Orderly(w, s)
    ensures SafeStep(w, s) && FirstVerdict(w, s)
  {
    if s.MonitorExit? {
      InvExitSafe(w, s.jp, s.end);
      assert MonitorFits(w, s.jp);
    }
  }

  // -------------------------------------------------------------------- launches

  /** No job was launched twice, and a launched job never waits again. */
  ghost predicate LaunchSafe(w: World) {
    && NoDup(w.launches)
    && (forall j :: j in w.launches ==> j in w.jobs && Settled(w.jobs[j]))
    && StartedOnly(w)
  }

  /** A step launches nothing, or one job that was waiting and now is settled. */
  ghost predicate LaunchesOne(w: World, w': World) {
    || w'.launches == w.launches
    || exists id :: && id in w.jobs && Pending(w.jobs[id]) && w'.launches == w.launches + [id]
                    && id in w'.jobs && Settled(w'.jobs[id])
  }

  lemma StepLaunches(w: World, s: Step, w': World)
    requires Next(w, s, w')
    ensures LaunchesOne(w, w')
  {
    if s.Tick? && VerdictOf(w, s.tick).Start? {
      var id := VerdictOf(w, s.tick).id;
      assert id in w.jobs && Pending(w.jobs[id]);
    }
    if s.CutStart? {
      var id := VerdictOf(w, s.start).id;
      StartCutIs(w, id, s.start.exec, s.writes);
      assert id in w.jobs && Pending(w.jobs[id]);
    }
  }

  lemma StepLaunchSafe(w: World, s: Step, w': World)
    requires LaunchSafe(w) && Next(w, s, w')
    ensures LaunchSafe(w')
  {
    StepStarted(w, s, w');
    StepLaunches(w, s, w');
    LaunchedOnce(w, w');
  }

  lemma LaunchedOnce(w: World, w': World)
    requires LaunchSafe(w) && KeepsStarted(w, w') && LaunchesOne(w, w')
    ensures LaunchSafe(w')
  {
  }

  lemma {:induction false} RunLaunchSafe(trace: seq<World>, steps: seq<Step>, k: nat)
    requires IsRun(trace, steps) && StartedOnly(trace[0]) && trace[0].launches == [] && k < |trace|
    ensures LaunchSafe(trace[k])
  {
    if k > 0 {
      RunLaunchSafe(trace, steps, k - 1);
      StepLaunchSafe(trace[k - 1], steps[k - 1], trace[k]);
    }
  }

  /** In every run whatsoever, crashes and shutdowns included, the remote launch is
      asked for at most once per job, and never for a job that waits afterwards. */
  lemma LaunchedAtMostOnce(trace: seq<World>, steps: seq<Step>, k: nat, j: int)
    requires IsRun(trace, steps) && StartedOnly(trace[0]) && trace[0].launches == [] && k < |trace|
    ensures multiset(trace[k].launches)[j] <= 1
    ensures j in trace[k].launches ==> j in trace[k].jobs && Settled(trace[k].jobs[j])
  {
    RunLaunchSafe(trace, steps, k);
    CountOnce(trace[k].launches, j);
  }

  // -------------------------------------------------------------------- statuses

  /** A Running job ends Completed or Failed if it ends, and a Completed, Failed or
      Cancelled job keeps its status. */
  ghost predicate StatusForward(jobs: map<int, Job>, jobs': map<int, Job>) {
    forall j :: j in jobs && jobs[j].status in {RUNNING, COMPLETED, FAILED, CANCELLED} ==>
      j in jobs' && if jobs[j].status == RUNNING then Settled(jobs'[j]) else jobs'[j].status == jobs[j].status
  }

  ghost predicate Forward(w: World, w': World) {
    StatusForward(w.jobs, w'.jobs) && w.launches <= w'.launches
  }

  /** A monitor that gives a verdict is the first to do so, or agrees with the first. */
  ghost predicate FirstVerdict(w: World, s: Step) {
    (s.MonitorExit? || s.CutExit?) && !s.end.Stopped? ==>
      IsRunning(w.jobs, s.jp.job)
      || (s.jp.job in w.jobs && w.jobs[s.jp.job].status == StatusAfter(s.end).value)
  }

  lemma TickForward(w: World, o: TickOutcome)
    ensures Forward(w, Ticked(w, o))
  {
  }

  lemma MoveForward(w: World, job: int, before: int, o: Q.MoveOutcome)
    ensures StatusForward(w.jobs, Q.MovedJobs(w.queue.entries, w.jobs, job, before, o))
  {
    var jobs' := Q.MovedJobs(w.queue.entries, w.jobs, job, before, o);
    forall j | j in w.jobs
      ensures j in jobs' && (jobs'[j].status == w.jobs[j].status || w.jobs[j].status == WAITING_GPU)
    {
      Q.MoveStatuses(w.queue.entries, w.jobs, job, before, o, j);
    }
  }

  lemma TablesForward(w: World, s: Step, w': World)
    requires Next(w, s, w') && (s.Submit? || s.Cancel? || s.Withdraw?)
    ensures Forward(w, w')
  {
  }

  lemma ReclaimForward(jobs: map<int, Job>, lost: set<int>)
    requires forall j :: j in lost ==> IsRunning(jobs, j)
    ensures StatusForward(jobs, MarkedFailed(jobs, lost))
  {
  }

  lemma MonitorForward(w: World, jp: JobProcess, end: End, found: bool, unsaved: set<int>)
    requires StartedOnly(w) && jp in w.monitors
    ensures Forward(w, Monitored(w, jp, end, found, unsaved)) <==> FirstVerdict(w, MonitorExit(jp, end, found, unsaved))
  {
    var jobs' := Monitored(w, jp, end, found, unsaved).jobs;
    if !end.Stopped? {
      assert jobs'[jp.job].status == StatusAfter(end).value;
      assert Settled(w.jobs[jp.job]);
    }
  }

  lemma RestartForward(w: World, o: PassOutcome, w': World)
    requires Recovered(Crashed(w), o, w')
    ensures Forward(w, w')
  {
    var v := Crashed(w);
    ReclaimForward(v.jobs, LostJobs(v, o, Examined(v, o), {}));
  }

  lemma AuditForward(w: World, o: PassOutcome)
    ensures Forward(w, Audited(w, o))
  {
    ReclaimForward(w.jobs, LostJobs(w, o, Examined(w, o), w.running.Keys));
  }

  /** A step moves statuses forward exactly when it is no late and different verdict of
      a monitor. */
  lemma StepForwardExactly(w: World, s: Step, w': World)
    requires StartedOnly(w) && Next(w, s, w')
    ensures Forward(w, w') <==> FirstVerdict(w, s)
  {
    match s
    case Tick(o) => TickForward(w, o);
    case Move(job, before, o) => MoveForward(w, job, before, o);
    case MonitorExit(jp, end, found, unsaved) => MonitorForward(w, jp, end, found, unsaved);
    case Audit(o) => AuditForward(w, o);
    case Restart(o) => RestartForward(w, o, w');
    case Submit(_, _, _) => TablesForward(w, s, w');
    case Cancel(_, _, _) => TablesForward(w, s, w');
    case Withdraw(_, _) => TablesForward(w, s, w');
    case Discover(_) =>
    case _ => CutForward(w, s, w');
  }

  lemma CutForward(w: World, s: Step, w': World)
    requires StartedOnly(w) && IsCut(s) && Next(w, s, w')
    ensures Forward(w, w') <==> FirstVerdict(w, s)
  {
    match s
    case CutStart(o, n) => StartCutForward(w, VerdictOf(w, o).id, o.exec, n);
    case CutExit(jp, end, ended) => MonitorForward(w, jp, end, false, {});
    case CutPass(o, at) =>
      LostAreRunning(w, o, TrackedAt(w, at));
      ReclaimForward(w.jobs, at.lost + MarkedBy(at));
  }

  lemma StartCutForward(w: World, id: int, o: ExecOutcome, n: nat)
    requires id in w.jobs && Pending(w.jobs[id])
    ensures Forward(w, StartCut(w, id, o, n))
  {
    StartCutIs(w, id, o, n);
  }

  lemma StatusForwardTwice(a: map<int, Job>, b: map<int, Job>, c: map<int, Job>)
    requires StatusForward(a, b) && StatusForward(b, c)
    ensures StatusForward(a, c)
  {
  }

  lemma {:induction false} ChainForward(trace: seq<World>, i: nat, k: nat)
    requires i <= k < |trace| && forall m :: i <= m < k ==> Forward(trace[m], trace[m + 1])
    ensures Forward(trace[i], trace[k])
  {
    if i < k {
      ChainForward(trace, i, k - 1);
      StatusForwardTwice(trace[i].jobs, trace[k - 1].jobs, trace[k].jobs);
    }
  }

  ghost predicate ForwardUpTo(trace: seq<World>, k: nat)
    requires k < |trace|
  {
    forall n :: 0 <= n < k ==> Forward(trace[n], trace[n + 1])
  }

  ghost predicate FirstUpTo(trace: seq<World>, steps: seq<Step>, k: nat)
    requires k <= |steps| && k <= |trace|
  {
    forall n :: 0 <= n < k ==> FirstVerdict(trace[n], steps[n])
  }

  lemma RunStepForward(trace: seq<World>, steps: seq<Step>, n: nat)
    requires IsRun(trace, steps) && StartedOnly(trace[0]) && n < |steps|
    ensures Forward(trace[n], trace[n + 1]) <==> FirstVerdict(trace[n], steps[n])
  {
    RunStarted(trace, steps, n);
    StepForwardExactly(trace[n], steps[n], trace[n + 1]);
  }

  /** In every run statuses move forward and the launch log grows at every step exactly
      when every verdict so far was the first or agreed with it. */
  lemma {:induction false} RunForwardExactly(trace: seq<World>, steps: seq<Step>, k: nat)
    requires IsRun(trace, steps) && StartedOnly(trace[0]) && k < |trace|
    ensures ForwardUpTo(trace, k) <==> FirstUpTo(trace, steps, k)
  {
    if ForwardUpTo(trace, k) {
      forall n | 0 <= n < k ensures FirstVerdict(trace[n], steps[n]) {
        RunStepForward(trace, steps, n);
      }
    }
    if FirstUpTo(trace, steps, k) {
      forall n | 0 <= n < k ensures Forward(trace[n], trace[n + 1]) {
        RunStepForward(trace, steps, n);
      }
    }
  }

  /** And then they do between any two moments. */
  lemma RunForward(trace: seq<World>, steps: seq<Step>, i: nat, j: nat, k: nat)
    requires IsRun(trace, steps) && StartedOnly(trace[0]) && i <= j <= k < |trace| && FirstUpTo(trace, steps, k)
    ensures Forward(trace[i], trace[j])
  {
    RunForwardExactly(trace, steps, k);
    ChainForward(trace, i, j);
  }

  /** And with no condition at all: what is settled stays settled, with the same cards. */
  lemma {:induction false} RunSettled(trace: seq<World>, steps: seq<Step>, i: nat, k: nat)
    requires IsRun(trace, steps) && StartedOnly(trace[0]) && i <= k < |trace|
    ensures SettledKept(trace[i].jobs, trace[k].jobs)
  {
    forall m | i <= m < k ensures SettledKept(trace[m].jobs, trace[m + 1].jobs) {
      RunStarted(trace, steps, m);
      StepStarted(trace[m], steps[m], trace[m + 1]);
    }
    ChainSettled(trace, i, k);
  }

  lemma {:induction false} ChainSettled(trace: seq<World>, i: nat, k: nat)
    requires i <= k < |trace| && forall m :: i <= m < k ==> SettledKept(trace[m].jobs, trace[m + 1].jobs)
    ensures SettledKept(trace[i].jobs, trace[k].jobs)
  {
    if i < k {
      ChainSettled(trace, i, k - 1);
      SettledTwice(trace[i].jobs, trace[k - 1].jobs, trace[k].jobs);
    }
  }

  lemma SettledTwice(a: map<int, Job>, b: map<int, Job>, c: map<int, Job>)
    requires SettledKept(a, b) && SettledKept(b, c)
    ensures SettledKept(a, c)
  {
  }
}
