/** The tables and process-wide maps that the scheduler works on, and what each of
    its steps does to them, stated in closed form. */
module Cluster {
  import opened Text
  import opened Entity
  import GpuIds
  import opened GpuAllocator
  import opened Sets
  import Q = QueueService

  // ----------------------------------------------------------------- the state

  /** A row of `processes`: one per launched job and card. */
  datatype Process = Process(pid: int, card: int, job: int, ended: bool)

  /** An entry of `runningJobs`, and what a monitor goroutine works with. */
  datatype JobProcess = JobProcess(pid: int, job: int, cards: seq<int>)

  datatype World = World(
    jobs: map<int, Job>,
    cards: Rows,
    procs: seq<Process>,
    running: map<int, JobProcess>,
    monitors: multiset<JobProcess>,
    queue: Q.Queue,
    launches: seq<int>)   // the job of every remote launch ever asked for

  function CardsOf(job: Job): seq<int> {
    GpuIds.Parse(job.gpuIds)
  }

  predicate IsRunning(jobs: map<int, Job>, id: int) {
    id in jobs && jobs[id].status == RUNNING
  }

  /** FindActiveByJobID, as row numbers. */
  function ActiveRows(procs: seq<Process>, job: int): set<int> {
    set i | 0 <= i < |procs| && procs[i].job == job && !procs[i].ended
  }

  function Dequeued(queue: Q.Queue, job: int, removed: bool): Q.Queue {
    Q.Apply(queue, Q.Dequeue(job, removed))
  }

  // ------------------------------------------------------------ starting a job

  /** The answers given to one executeJob: the transaction that takes the cards, the
      write of Running, the card lookup, the access check, the launch (its pid), how many
      process rows could be inserted before one failed, the pid cache, and the queue
      removal on a failure path. */
  datatype ExecOutcome = ExecOutcome(
    acquired: bool, marked: bool, lookedUp: bool, checked: bool, pid: Option<int>, inserted: nat, cached: bool,
    removed: bool)

  datatype Exit = Refused | MarkLost | NoScript | NoCardInfo | NoAccess | LaunchFailed | RowsLost | CacheLost | Started

  function ExitOf(cards: Rows, job: Job, ids: seq<int>, o: ExecOutcome): Exit {
    if ids == [] || !o.acquired || !CountTest(cards, ids) then Refused
    else if !o.marked then MarkLost
    else if job.path == "" then NoScript
    else if !o.lookedUp then NoCardInfo
    else if !o.checked then NoAccess
    else if o.pid.None? then LaunchFailed
    else if o.inserted < |ids| then RowsLost
    else if !o.cached then CacheLost
    else Started
  }

  /** The job keeps its cards. */
  predicate Keeps(x: Exit) { x in {NoCardInfo, RowsLost, CacheLost, Started} }

  /** The job is given up. */
  predicate GivesUp(x: Exit) { x in {NoScript, NoAccess, LaunchFailed} }

  /** A process exists. */
  predicate Launches(x: Exit) { x in {RowsLost, CacheLost, Started} }

  function NewRows(pid: int, job: int, ids: seq<int>): seq<Process> {
    seq(|ids|, i requires 0 <= i < |ids| => Process(pid, ids[i], job, false))
  }

  /** The cards whose process row could be written. */
  function Inserted(ids: seq<int>, o: ExecOutcome): seq<int> {
    if o.inserted < |ids| then ids[..o.inserted] else ids
  }

  function Executed(w: World, id: int, ids: seq<int>, o: ExecOutcome): World
    requires id in w.jobs
  {
    var x := ExitOf(w.cards, w.jobs[id], ids, o);
    var pid := if o.pid.Some? then o.pid.value else 0;
    var jp := JobProcess(pid, id, ids);
    World(
      if Keeps(x) then SetStatus(w.jobs, id, RUNNING) else if GivesUp(x) then SetStatus(w.jobs, id, FAILED) else w.jobs,
      if Keeps(x) then Held(w.cards, ids, id) else w.cards,
      if Launches(x) then w.procs + NewRows(pid, id, Inserted(ids, o)) else w.procs,
      if Launches(x) then w.running[pid := jp] else w.running,
      if x.Started? then w.monitors + multiset{jp} else w.monitors,
      if GivesUp(x) then Dequeued(w.queue, id, o.removed) else w.queue,
      if Launches(x) || x.LaunchFailed? then w.launches + [id] else w.launches)
  }

  // ------------------------------------------------------ a start, write by write

  /** What executeJob does to the tables and the machine, one thing after another. */
  datatype Write = Take | Mark | Ask | Insert(card: int) | Free | Fail | Drop

  function Inserts(ids: seq<int>): seq<Write> {
    seq(|ids|, i requires 0 <= i < |ids| => Insert(ids[i]))
  }

  /** All of it, in the order of the program, by the exit it takes. */
  function Writes(x: Exit, ids: seq<int>, o: ExecOutcome): seq<Write> {
    if x.Refused? then [] else if x.MarkLost? then [Take, Free] else [Take, Mark] + LaterWrites(x, ids, o)
  }

  function LaterWrites(x: Exit, ids: seq<int>, o: ExecOutcome): seq<Write> {
    if x.NoScript? || x.NoAccess? then [Free, Fail, Drop]
    else if x.LaunchFailed? then [Ask, Free, Fail, Drop]
    else if Launches(x) then [Ask] + Inserts(Inserted(ids, o))
    else []
  }

  function Applied(w: World, id: int, ids: seq<int>, o: ExecOutcome, write: Write): World {
    match write
    case Take => w.(cards := Held(w.cards, ids, id))
    case Mark => w.(jobs := SetStatus(w.jobs, id, RUNNING))
    case Ask => w.(launches := w.launches + [id])
    case Insert(card) => w.(procs := w.procs + [Process(if o.pid.Some? then o.pid.value else 0, card, id, false)])
    case Free => w.(cards := Freed(w.cards, IdSet(ids)))
    case Fail => w.(jobs := SetStatus(w.jobs, id, FAILED))
    case Drop => w.(queue := Dequeued(w.queue, id, o.removed))
  }

  function Replay(w: World, id: int, ids: seq<int>, o: ExecOutcome, writes: seq<Write>): World {
    if writes == [] then w
    else Applied(Replay(w, id, ids, o, writes[..|writes| - 1]), id, ids, o, writes[|writes| - 1])
  }

  // ---------------------------------------------------------------- one tick

  datatype TickOutcome = TickOutcome(
    locked: bool, peeked: bool, read: bool, answered: bool, cacheDenies: bool, written: bool, removed: bool,
    exec: ExecOutcome)

  /** What processQueue does with the job at the head of the queue. */
  datatype Verdict = Nothing | Discard(id: int) | Wait(id: int) | Start(id: int)

  function VerdictOf(w: World, o: TickOutcome): Verdict {
    if !o.locked || !o.peeked || w.queue.entries == [] then Nothing
    else
      var id := w.queue.entries[0].member;
      if id == 0 || !o.read || id !in w.jobs then Nothing
      else if !Pending(w.jobs[id]) || CardsOf(w.jobs[id]) == [] then Discard(id)
      else if !o.answered then Nothing
      else if o.cacheDenies || !CountTest(w.cards, CardsOf(w.jobs[id])) then Wait(id)
      else Start(id)
  }

  function Ticked(w: World, o: TickOutcome): World {
    match VerdictOf(w, o)
    case Nothing => w
    case Discard(id) => w.(queue := Dequeued(w.queue, id, o.removed))
    case Wait(id) => if o.written then w.(jobs := SetStatus(w.jobs, id, WAITING_GPU)) else w
    case Start(id) =>
      var w' := Executed(w, id, CardsOf(w.jobs[id]), o.exec);
      w'.(queue := Dequeued(w'.queue, id, o.removed))
  }

  // ----------------------------------------------------------------- monitors

  /** Why a monitor stops: ten failed probes in a row, the process is gone (with its
      exit code, if it could be read), or the scheduler is being stopped. */
  datatype End = Lost | Gone(code: Option<int>) | Stopped

  function StatusAfter(end: End): Option<int> {
    match end
    case Lost => Some(FAILED)
    case Gone(code) => Some(if code.Some? && code.value != 0 then FAILED else COMPLETED)
    case Stopped => None
  }

  function MarkedEnded(procs: seq<Process>, rows: set<int>): seq<Process> {
    seq(|procs|, i requires 0 <= i < |procs| => if i in rows then procs[i].(ended := true) else procs[i])
  }

  /** `found`: the row lookup worked; `unsaved`: rows whose update failed. */
  function Monitored(w: World, jp: JobProcess, end: End, found: bool, unsaved: set<int>): World {
    var rows := if found then ActiveRows(w.procs, jp.job) - unsaved else {};
    w.(jobs := if end.Stopped? then w.jobs else SetStatus(w.jobs, jp.job, StatusAfter(end).value),
       running := w.running - {jp.pid},
       monitors := w.monitors - multiset{jp},
       procs := MarkedEnded(w.procs, rows),
       cards := Freed(w.cards, IdSet(jp.cards)))
  }

  // --------------------------------------------------------- audit and recovery

  datatype Probe = Alive | Dead | Unclear

  /** The answers given to one pass: the query for Running jobs, the jobs whose row
      lookup failed, the probe of each pid, and the rows whose update failed. */
  datatype PassOutcome = PassOutcome(listed: bool, unread: set<int>, probe: int -> Probe, unsaved: set<int>)

  /** The Running jobs that the pass looks at. */
  function Examined(w: World, o: PassOutcome): set<int> {
    if o.listed then set j | j in w.jobs && IsRunning(w.jobs, j) && j !in o.unread else {}
  }

  /** Rows of examined jobs whose process is found dead. `tracked` pids are not probed. */
  function DeadRows(w: World, o: PassOutcome, jobs: set<int>, tracked: set<int>): set<int> {
    set i | 0 <= i < |w.procs| && !w.procs[i].ended && w.procs[i].job in jobs
            && w.procs[i].pid !in tracked && o.probe(w.procs[i].pid) == Dead
  }

  function JobsOfRows(procs: seq<Process>, rows: set<int>): set<int> {
    set i | i in rows && 0 <= i < |procs| :: procs[i].job
  }

  /** Jobs found without any active row, or with a dead one. */
  function LostJobs(w: World, o: PassOutcome, jobs: set<int>, tracked: set<int>): set<int> {
    (set j | j in jobs && ActiveRows(w.procs, j) == {}) + JobsOfRows(w.procs, DeadRows(w, o, jobs, tracked))
  }

  function MarkedFailed(jobs: map<int, Job>, ids: set<int>): map<int, Job> {
    map j | j in jobs :: if j in ids then jobs[j].(status := FAILED) else jobs[j]
  }

  function CardsOfJobs(jobs: map<int, Job>, ids: set<int>): set<int> {
    set j, c | j in ids && j in jobs && c in CardsOf(jobs[j]) :: c
  }

  /** Lost jobs are failed, their dead rows ended, their cards freed. */
  function Reclaimed(w: World, lost: set<int>, dead: set<int>, unsaved: set<int>): World {
    w.(jobs := MarkedFailed(w.jobs, lost),
       procs := MarkedEnded(w.procs, dead - unsaved),
       cards := Freed(w.cards, CardsOfJobs(w.jobs, lost)))
  }

  function Audited(w: World, o: PassOutcome): World {
    var jobs := Examined(w, o);
    Reclaimed(w, LostJobs(w, o, jobs, w.running.Keys), DeadRows(w, o, jobs, w.running.Keys), o.unsaved)
  }

  /** What a crash leaves: the tables, and nothing of the process. */
  function Crashed(w: World): World {
    w.(running := map[], monitors := multiset{})
  }

  function LiveRows(w: World, o: PassOutcome, jobs: set<int>): set<int> {
    set i | 0 <= i < |w.procs| && !w.procs[i].ended && w.procs[i].job in jobs && o.probe(w.procs[i].pid) == Alive
  }

  function TakenOver(w: World, i: int): JobProcess
    requires 0 <= i < |w.procs| && w.procs[i].job in w.jobs
  {
    JobProcess(w.procs[i].pid, w.procs[i].job, CardsOf(w.jobs[w.procs[i].job]))
  }

  ghost predicate RowsOfJobs(w: World, rows: set<int>) {
    forall i :: i in rows ==> 0 <= i < |w.procs| && w.procs[i].job in w.jobs
  }

  /** Each of these rows puts its process back into `runningJobs`, a later row of the
      same pid replacing an earlier one, and gets a monitor of its own. */
  ghost predicate TookOver(w: World, rows: set<int>, running: map<int, JobProcess>, monitors: multiset<JobProcess>)
    requires RowsOfJobs(w, rows)
  {
    && (forall i :: i in rows ==> w.procs[i].pid in running)
    && (forall p :: p in running ==> exists i :: i in rows && w.procs[i].pid == p && running[p] == TakenOver(w, i))
    && (forall jp :: monitors[jp] == |MonitorsOf(w, rows, jp)|)
  }

  ghost function MonitorsOf(w: World, rows: set<int>, jp: JobProcess): set<int>
    requires RowsOfJobs(w, rows)
  {
    set i | i in rows && TakenOver(w, i) == jp
  }

  /** recoverRunningJobs, entered with empty `runningJobs` and no monitor: dead jobs
      are reclaimed, live rows are taken over. */
  ghost predicate Recovered(w: World, o: PassOutcome, w': World) {
    var jobs := Examined(w, o);
    && w' == Reclaimed(w, LostJobs(w, o, jobs, {}), DeadRows(w, o, jobs, {}), o.unsaved)
             .(running := w'.running, monitors := w'.monitors)
    && TookOver(w, LiveRows(w, o, jobs), w'.running, w'.monitors)
  }
}
