/** A run that parts cards and Running jobs: a job on two cards, a restart that gives it
    two monitors, and another job that gets one of the cards between their exits. */
module TwinRun {
  import opened Text
  import opened Entity
  import SortedSet
  import GpuIds
  import opened GpuAllocator
  import Q = QueueService
  import opened Cluster
  import Scheduler
  import opened SchedulerInvariant
  import opened Recovery
  import opened SchedulerRuns
  import opened Sets

  const FIRST := 10
  const SECOND := 11
  const PID := 100

  /** A waiting job that lists these cards. */
  ghost predicate Waits(job: Job, cards: seq<int>) {
    job.status == QUEUED && job.path != "" && CardsOf(job) == cards
  }

  const A := Card("a", false, None)
  const B := Card("b", false, None)
  const NEXT := SortedSet.Entry(SECOND, 2.0)

  function Beginning(a: Job, b: Job): World {
    World(map[FIRST := a, SECOND := b], map[1 := A, 2 := B], [], map[], multiset{},
          Q.Queue([SortedSet.Entry(FIRST, 1.0), NEXT], 2), [])
  }

  /** A tick at which everything works. */
  function GoodTick(pid: int): TickOutcome {
    var exec := ExecOutcome(true, true, true, true, Some(pid), 2, true, true);
    TickOutcome(true, true, true, true, false, true, true, exec)
  }

  /** A pass that reads everything and finds every process alive. */
  function AllAlive(): PassOutcome {
    PassOutcome(true, {}, _ => Alive, {})
  }

  function Twin(): JobProcess {
    JobProcess(PID, FIRST, [1, 2])
  }

  ghost predicate StartedBy(w: World, id: int, cards: seq<int>, pid: int, w': World)
    requires id in w.jobs
  {
    && w'.jobs == w.jobs[id := w.jobs[id].(status := RUNNING)]
    && w'.cards == Held(w.cards, cards, id)
    && w'.procs == w.procs + NewRows(pid, id, cards)
    && w'.monitors == w.monitors + multiset{JobProcess(pid, id, cards)}
    && w'.queue == Dequeued(w.queue, id, true)
  }

  /** A waiting head whose cards are idle is started by a good tick. */
  lemma GoodTickStarts(w: World, id: int, cards: seq<int>, pid: int)
    requires id in w.jobs && Waits(w.jobs[id], cards) && id != 0
    requires w.queue.entries != [] && w.queue.entries[0].member == id
    requires cards != [] && |cards| <= 2 && NoDup(cards) && AllIdle(w.cards, cards)
    ensures StartedBy(w, id, cards, pid, Ticked(w, GoodTick(pid)))
  {
    CountTestExact(w.cards, cards);
    assert VerdictOf(w, GoodTick(pid)) == Verdict.Start(id);
    assert ExitOf(w.cards, w.jobs[id], cards, GoodTick(pid).exec).Started?;
  }

  /** After the first tick: the job runs on both cards. */
  ghost predicate FirstRuns(w: World, a: Job, b: Job) {
    && w.jobs == map[FIRST := a.(status := RUNNING), SECOND := b]
    && w.procs == [Process(PID, 1, FIRST, false), Process(PID, 2, FIRST, false)]
    && w.monitors == multiset{Twin()} && w.queue.entries == [NEXT] && w.cards.Keys == {1, 2}
  }

  lemma FirstStarts(a: Job, b: Job)
    requires Waits(a, [1, 2])
    ensures FirstRuns(Ticked(Beginning(a, b), GoodTick(PID)), a, b)
  {
    GoodTickStarts(Beginning(a, b), FIRST, [1, 2], PID);
    FirstFits(a, b, Ticked(Beginning(a, b), GoodTick(PID)));
  }

  lemma FirstFits(a: Job, b: Job, w: World)
    requires StartedBy(Beginning(a, b), FIRST, [1, 2], PID, w)
    ensures FirstRuns(w, a, b)
  {
    assert NewRows(PID, FIRST, [1, 2]) == [Process(PID, 1, FIRST, false), Process(PID, 2, FIRST, false)];
    FirstDequeued();
  }

  lemma FirstDequeued()
    ensures Dequeued(Q.Queue([SortedSet.Entry(FIRST, 1.0), NEXT], 2), FIRST, true).entries == [NEXT]
  {
    var z := [SortedSet.Entry(FIRST, 1.0), NEXT];
    assert SortedSet.Rank(z, FIRST) == Some(0);
    assert SortedSet.Drop(z, 0) == [NEXT];
  }

  function Restarted(w: World): World {
    w.(running := map[PID := Twin()], monitors := multiset{Twin(), Twin()})
  }

  /** The restart leaves the tables alone and makes two monitors. */
  lemma RestartTwins(w: World, a: Job, b: Job)
    requires FirstRuns(w, a, b) && Waits(a, [1, 2]) && b.status == QUEUED
    ensures Recovered(Crashed(w), AllAlive(), Restarted(w))
  {
    var v, o := Crashed(w), AllAlive();
    var jobs := Examined(v, o);
    assert jobs == {FIRST};
    assert DeadRows(v, o, jobs, {}) == {};
    assert 0 in ActiveRows(v.procs, FIRST);
    assert JobsOfRows(v.procs, {}) == {};
    assert LostJobs(v, o, jobs, {}) == {};
    Scheduler.ReclaimedNothing(v, o.unsaved);
    assert LiveRows(v, o, jobs) == {0, 1};
    TwinsTaken(v);
  }

  lemma TwinsTaken(v: World)
    requires v.procs == [Process(PID, 1, FIRST, false), Process(PID, 2, FIRST, false)]
    requires FIRST in v.jobs && CardsOf(v.jobs[FIRST]) == [1, 2]
    ensures RowsOfJobs(v, {0, 1}) && TookOver(v, {0, 1}, map[PID := Twin()], multiset{Twin(), Twin()})
  {
    assert TakenOver(v, 0) == Twin() && TakenOver(v, 1) == Twin();
    forall jp ensures multiset{Twin(), Twin()}[jp] == |MonitorsOf(v, {0, 1}, jp)| {
      assert MonitorsOf(v, {0, 1}, jp) == if jp == Twin() then {0, 1} else {};
    }
  }

  const TWIN_EXIT := MonitorExit(Twin(), Gone(None), true, {})

  function TwinExits(w: World): World {
    Monitored(w, Twin(), Gone(None), true, {})
  }

  lemma FirstExitIsSafe(w: World, a: Job, b: Job)
    requires FirstRuns(w, a, b) && b.status == QUEUED
    ensures SafeExit(Restarted(w), Twin(), Gone(None))
  {
    assert forall i :: i in Demand(w.jobs) ==> i == FIRST;
  }

  /** The first exit frees both cards and leaves a monitor behind. */
  lemma FirstExit(w: World, a: Job, b: Job)
    requires FirstRuns(w, a, b)
    ensures var w' := TwinExits(Restarted(w));
            && SECOND in w'.jobs && w'.jobs[SECOND] == b && w'.queue.entries == [NEXT]
            && Twin() in w'.monitors && AllIdle(w'.cards, [1])
  {
    OneTwinLeft();
    assert 1 in w.cards && 1 in IdSet(Twin().cards);
  }

  lemma OneTwinLeft()
    ensures multiset{Twin(), Twin()} - multiset{Twin()} == multiset{Twin()}
  {
  }

  lemma SecondStarts(w: World, b: Job)
    requires SECOND in w.jobs && w.jobs[SECOND] == b && Waits(b, [1])
    requires w.queue.entries == [NEXT] && Twin() in w.monitors && AllIdle(w.cards, [1])
    ensures var w' := Ticked(w, GoodTick(PID + 1));
            RunsOn(w', SECOND, 1) && Twin() in w'.monitors && 1 in w'.cards
  {
    assert 1 in [1];
    GoodTickStarts(w, SECOND, [1], PID + 1);
  }

  lemma SecondExit(w: World)
    requires RunsOn(w, SECOND, 1) && 1 in w.cards
    ensures !SafeExit(w, Twin(), Gone(None))
    ensures var w' := TwinExits(w); RunsOn(w', SECOND, 1) && 1 in w'.cards && !w'.cards[1].busy
  {
    assert SECOND in Demand(w.jobs) && 1 in Demand(w.jobs)[SECOND] && 1 in Twin().cards;
  }

  /** A run with one more step. */
  lemma Extend(trace: seq<World>, steps: seq<Step>, s: Step, w: World)
    requires IsRun(trace, steps) && Next(trace[|steps|], s, w)
    ensures IsRun(trace + [w], steps + [s])
    ensures SafeUpTo(trace, steps, |steps|) && SafeStep(trace[|steps|], s) ==>
              SafeUpTo(trace + [w], steps + [s], |steps| + 1)
    ensures FirstUpTo(trace, steps, |steps|) && FirstVerdict(trace[|steps|], s) ==>
              FirstUpTo(trace + [w], steps + [s], |steps| + 1)
  {
  }

  lemma UpToFirst(a: Job, b: Job) returns (trace: seq<World>, steps: seq<Step>)
    requires Waits(a, [1, 2])
    requires b.status == QUEUED
    ensures IsRun(trace, steps) && Init(trace[0]) && |steps| == 1
    ensures SafeUpTo(trace, steps, 1) && FirstUpTo(trace, steps, 1)
    ensures FirstRuns(trace[1], a, b)
  {
    FirstStarts(a, b);
    BeginningIsFresh(a, b);
    trace, steps := [Beginning(a, b)], [];
    var w := Ticked(trace[0], GoodTick(PID));
    Extend(trace, steps, Tick(GoodTick(PID)), w);
    trace, steps := trace + [w], steps + [Tick(GoodTick(PID))];
  }

  lemma BeginningIsFresh(a: Job, b: Job)
    requires a.status == QUEUED && b.status == QUEUED
    ensures Init(Beginning(a, b))
  {
  }

  lemma UpToRestart(a: Job, b: Job) returns (trace: seq<World>, steps: seq<Step>, w: World)
    requires Waits(a, [1, 2]) && Waits(b, [1])
    ensures IsRun(trace, steps) && Init(trace[0]) && |steps| == 2
    ensures SafeUpTo(trace, steps, 2) && FirstUpTo(trace, steps, 2)
    ensures FirstRuns(w, a, b) && trace[2] == Restarted(w)
  {
    trace, steps := UpToFirst(a, b);
    w := trace[1];
    RestartTwins(w, a, b);
    Extend(trace, steps, Restart(AllAlive()), Restarted(w));
    trace, steps := trace + [Restarted(w)], steps + [Restart(AllAlive())];
  }

  lemma UpToSecond(a: Job, b: Job) returns (trace: seq<World>, steps: seq<Step>)
    requires Waits(a, [1, 2]) && Waits(b, [1])
    ensures IsRun(trace, steps) && Init(trace[0]) && |steps| == 4 && SafeUpTo(trace, steps, 4)
    ensures RunsOn(trace[4], SECOND, 1) && Twin() in trace[4].monitors && 1 in trace[4].cards
  {
    var w;
    trace, steps, w := UpToRestart(a, b);
    FirstExitIsSafe(w, a, b);
    FirstExit(w, a, b);
    var w3 := TwinExits(Restarted(w));
    Extend(trace, steps, TWIN_EXIT, w3);
    trace, steps := trace + [w3], steps + [TWIN_EXIT];
    SecondStarts(w3, b);
    var w4 := Ticked(w3, GoodTick(PID + 1));
    Extend(trace, steps, Tick(GoodTick(PID + 1)), w4);
    trace, steps := trace + [w4], steps + [Tick(GoodTick(PID + 1))];
  }

  /** After the first twin's exit the second job starts on card 1; the second twin's exit
      frees that card under it. Every step before was safe, and that exit is not. */
  lemma TwinFreesAnothersCard() returns (trace: seq<World>, steps: seq<Step>)
    ensures IsRun(trace, steps) && Init(trace[0]) && |steps| == 5
    ensures SafeUpTo(trace, steps, 4) && !SafeStep(trace[4], steps[4])
    ensures RunsOn(trace[5], SECOND, 1) && 1 in trace[5].cards && !trace[5].cards[1].busy
  {
    var a, b := SuchJobs();
    trace, steps := UpToSecond(a, b);
    var w := trace[4];
    SecondExit(w);
    Extend(trace, steps, TWIN_EXIT, TwinExits(w));
    trace, steps := trace + [TwinExits(w)], steps + [TWIN_EXIT];
  }

  /** What the exit of a twin with this code does to the job. */
  lemma TwinVerdict(w: World, code: Option<int>)
    requires FIRST in w.jobs && Twin() in w.monitors
    ensures var w' := Monitored(w, Twin(), Gone(code), true, {});
            FIRST in w'.jobs && w'.jobs[FIRST].status == StatusAfter(Gone(code)).value
  {
  }

  const FAILS := MonitorExit(Twin(), Gone(Some(1)), true, {})

  lemma UpToFailed() returns (trace: seq<World>, steps: seq<Step>)
    ensures IsRun(trace, steps) && Init(trace[0]) && |steps| == 3 && FirstUpTo(trace, steps, 3) && steps[2] == FAILS
    ensures FIRST in trace[3].jobs && trace[3].jobs[FIRST].status == FAILED && Twin() in trace[3].monitors
  {
    var a, b := SuchJobs();
    var w;
    trace, steps, w := UpToRestart(a, b);
    var w2 := trace[2];
    TwinVerdict(w2, Some(1));
    OneTwinLeft();
    var w3 := Monitored(w2, Twin(), Gone(Some(1)), true, {});
    Extend(trace, steps, FAILS, w3);
    trace, steps := trace + [w3], steps + [FAILS];
  }

  /** The second verdict overwrites the first: a job that has Failed with code 1 becomes
      Completed when the code cannot be read any more. */
  lemma TwinOverwritesVerdict() returns (trace: seq<World>, steps: seq<Step>)
    ensures IsRun(trace, steps) && Init(trace[0]) && |steps| == 4
    ensures steps[2] == MonitorExit(Twin(), Gone(Some(1)), true, {})
    ensures steps[3] == MonitorExit(Twin(), Gone(None), true, {})
    ensures FirstUpTo(trace, steps, 3) && !FirstVerdict(trace[3], steps[3])
    ensures FIRST in trace[3].jobs && trace[3].jobs[FIRST].status == FAILED
    ensures FIRST in trace[4].jobs && trace[4].jobs[FIRST].status == COMPLETED
  {
    trace, steps := UpToFailed();
    var w3 := trace[3];
    TwinVerdict(w3, None);
    var w4 := TwinExits(w3);
    Extend(trace, steps, TWIN_EXIT, w4);
    trace, steps := trace + [w4], steps + [TWIN_EXIT];
  }

  /** Such jobs can be submitted. */
  lemma SuchJobs() returns (a: Job, b: Job)
    ensures Waits(a, [1, 2]) && Waits(b, [1])
  {
    GpuIds.ParseFormat([1, 2]);
    GpuIds.ParseFormat([1]);
    a := Job(1, "train.py", GpuIds.Format([1, 2]), QUEUED, 0);
    b := Job(1, "train.py", GpuIds.Format([1]), QUEUED, 0);
  }
}
