/** A launch cut short by a failed write leaves a job that nothing looks after: for the
    rest of the scheduler's life it stays Running with its cards. */
module Unwatched {
  import opened Text
  import opened Entity
  import opened Cluster
  import opened SchedulerInvariant
  import opened Recovery
  import opened SchedulerRuns

  /** Running and tracked, with no monitor. */
  ghost predicate Forsaken(w: World, j: int) {
    IsRunning(w.jobs, j) && Tracked(w, j) && forall jp :: jp in w.monitors ==> jp.job != j
  }

  /** The tick that leaves a job so: a start that fails after its first process row and
      before its monitor. */
  lemma TickForsakes(w: World, o: TickOutcome)
    requires Inv(w) && VerdictOf(w, o).Start? && o.exec.pid.Some? && o.exec.pid.value !in w.running
    requires var id := VerdictOf(w, o).id;
             var x := ExitOf(w.cards, w.jobs[id], CardsOf(w.jobs[id]), o.exec);
             x.CacheLost? || (x.RowsLost? && o.exec.inserted > 0)
    ensures Forsaken(Ticked(w, o), VerdictOf(w, o).id)
  {
    var any := PassOutcome(false, {}, _ => Alive, {});
    UnwatchedJobSurvivesAudits(w, VerdictOf(w, o).id, o.exec, any);
  }

  lemma StartForsaken(w: World, id: int, o: ExecOutcome, j: int)
    requires Forsaken(w, j) && id in w.jobs && Pending(w.jobs[id])
    ensures Forsaken(Executed(w, id, CardsOf(w.jobs[id]), o), j)
  {
    var w' := Executed(w, id, CardsOf(w.jobs[id]), o);
    forall i ensures i in ActiveRows(w'.procs, j) <==> i in ActiveRows(w.procs, j) {}
    assert ActiveRows(w'.procs, j) == ActiveRows(w.procs, j);
  }

  lemma TickForsaken(w: World, o: TickOutcome, j: int)
    requires Forsaken(w, j)
    ensures Forsaken(Ticked(w, o), j)
  {
    match VerdictOf(w, o)
    case Start(id) => StartForsaken(w, id, o.exec, j);
    case _ =>
  }

  lemma ExitForsaken(w: World, jp: JobProcess, end: End, found: bool, unsaved: set<int>, j: int)
    requires MonitorsSound(w) && RowsSound(w) && Forsaken(w, j) && jp in w.monitors
    ensures Forsaken(Monitored(w, jp, end, found, unsaved), j)
  {
    var w' := Monitored(w, jp, end, found, unsaved);
    OtherRows(w.procs, if found then ActiveRows(w.procs, jp.job) - unsaved else {}, jp.job, j);
    assert ActiveRows(w'.procs, j) == ActiveRows(w.procs, j);
    OtherPids(w, jp, j);
    assert forall i :: 0 <= i < |w.procs| ==> w'.procs[i].pid == w.procs[i].pid;
    assert IsRunning(w'.jobs, j);
  }

  /** The pid of another job's monitor is not one of this job's. */
  lemma OtherPids(w: World, jp: JobProcess, j: int)
    requires MonitorsSound(w) && RowsSound(w) && IsRunning(w.jobs, j) && jp in w.monitors && jp.job != j
    ensures forall i :: i in ActiveRows(w.procs, j) ==> w.procs[i].pid != jp.pid
  {
    assert MonitorFits(w, jp);
  }

  lemma AuditForsaken(w: World, o: PassOutcome, j: int)
    requires Exact(Demand(w.jobs), w.cards) && Forsaken(w, j)
    ensures Forsaken(Audited(w, o), j)
  {
    AuditSparesTracked(w, o, j);
    assert forall i :: 0 <= i < |w.procs| ==> Audited(w, o).procs[i].pid == w.procs[i].pid;
  }

  lemma StepForsaken(w: World, s: Step, w': World, j: int)
    requires Inv(w) && Forsaken(w, j) && Next(w, s, w') && Orderly(w, s) && !s.Restart?
    ensures Forsaken(w', j)
  {
    if IsQuiet(s) {
      QuietSteps(w, s, w');
    } else {
      match s
      case Tick(o) => TickForsaken(w, o, j);
      case MonitorExit(jp, end, found, unsaved) => ExitForsaken(w, jp, end, found, unsaved, j);
      case Audit(o) => AuditForsaken(w, o, j);
      case Discover(_) =>
    }
  }

  /** In every orderly run, until the next restart, whatever is audited: the job stays
      Running, tracked and unwatched, and each of its cards stays busy under it. */
  lemma {:induction false} ForsakenUntilRestart(trace: seq<World>, steps: seq<Step>, a: nat, b: nat, j: int)
    requires IsRun(trace, steps) && Init(trace[0]) && a <= b < |trace| && Forsaken(trace[a], j)
    requires forall n :: 0 <= n < b ==> Orderly(trace[n], steps[n])
    requires forall n :: a <= n < b ==> !steps[n].Restart?
    ensures Forsaken(trace[b], j)
    ensures forall c :: c in CardsOf(trace[b].jobs[j]) ==> BusyUnder(trace[b], c, j)
  {
    forall n | a <= n < b && Forsaken(trace[n], j) ensures Forsaken(trace[n + 1], j) {
      RunStepForsaken(trace, steps, n, j);
    }
    ChainForsaken(trace, a, b, j);
    RunKeepsInv(trace, steps, b);
    ForsakenHolds(trace[b], j);
  }

  lemma RunStepForsaken(trace: seq<World>, steps: seq<Step>, n: nat, j: int)
    requires IsRun(trace, steps) && Init(trace[0]) && n < |steps| && Forsaken(trace[n], j)
    requires (forall m :: 0 <= m <= n ==> Orderly(trace[m], steps[m])) && !steps[n].Restart?
    ensures Forsaken(trace[n + 1], j)
  {
    RunKeepsInv(trace, steps, n);
    StepForsaken(trace[n], steps[n], trace[n + 1], j);
  }

  lemma {:induction false} ChainForsaken(trace: seq<World>, a: nat, b: nat, j: int)
    requires a <= b < |trace| && Forsaken(trace[a], j)
    requires forall n :: a <= n < b && Forsaken(trace[n], j) ==> Forsaken(trace[n + 1], j)
    ensures Forsaken(trace[b], j)
  {
    if a < b { ChainForsaken(trace, a, b - 1, j); }
  }

  lemma ForsakenHolds(w: World, j: int)
    requires Inv(w) && Forsaken(w, j)
    ensures forall c :: c in CardsOf(w.jobs[j]) ==> BusyUnder(w, c, j)
  {
    forall c | c in CardsOf(w.jobs[j]) ensures BusyUnder(w, c, j) {
      ExactMeans(w, c, j);
    }
  }
}
