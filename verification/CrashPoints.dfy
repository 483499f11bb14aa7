/** What the tables look like when the process dies in the middle of a method: of a start,
    of the end of a monitor, of an audit or a recovery. */
module CrashPoints {
  import opened Text
  import opened Entity
  import opened GpuAllocator
  import opened Cluster
  import opened SchedulerInvariant
  import opened Sets

  // ------------------------------------------------------------ order of the writes

  /** This write may come next: each happens once, cards are freed after they are taken. */
  predicate MayFollow(ws: seq<Write>, write: Write) {
    && (!write.Insert? ==> write !in ws)
    && (write == Take || write == Mark ==> Free !in ws && Fail !in ws)
    && (write == Free ==> Take in ws)
  }

  /** What the order of the program gives at any moment of a start. */
  predicate InOrder(ws: seq<Write>) {
    && (Mark in ws ==> Take in ws)
    && (Ask in ws ==> Mark in ws)
    && (CardsIn(ws) != [] ==> Ask in ws && Free !in ws && Fail !in ws)
    && (Fail in ws ==> Mark in ws && Free in ws)
    && (Free in ws ==> Take in ws)
    && (Drop in ws ==> Fail in ws)
  }

  /** The cards whose process rows have been inserted. */
  function CardsIn(ws: seq<Write>): seq<int> {
    if ws == [] then []
    else CardsIn(ws[..|ws| - 1]) + if ws[|ws| - 1].Insert? then [ws[|ws| - 1].card] else []
  }

  lemma CardsInMore(ws: seq<Write>, write: Write)
    ensures CardsIn(ws + [write]) == CardsIn(ws) + if write.Insert? then [write.card] else []
  {
    assert (ws + [write])[..|ws|] == ws;
  }

  lemma {:induction false} NoInserts(ws: seq<Write>)
    requires forall i :: 0 <= i < |ws| ==> !ws[i].Insert?
    ensures CardsIn(ws) == []
  {
    if ws != [] { NoInserts(ws[..|ws| - 1]); }
  }

  lemma ShortPrefix(all: seq<Write>, n: nat)
    requires n < |all|
    ensures all[..n + 1] == all[..n] + [all[n]]
  {
  }

  /** Where each write stands. */
  lemma Positions(x: Exit, ids: seq<int>, o: ExecOutcome, i: nat)
    requires i < |Writes(x, ids, o)|
    ensures var all := Writes(x, ids, o);
            && (all[i] == Take <==> i == 0)
            && (all[i] == Mark <==> i == 1 && !x.MarkLost?)
            && (all[i] == Ask <==> i == 2 && (x.LaunchFailed? || Launches(x)))
            && (all[i].Insert? <==> i >= 3 && Launches(x))
            && (all[i] == Free <==> (i == |all| - 3 && GivesUp(x)) || (i == 1 && x.MarkLost?))
            && (all[i] == Fail <==> i == |all| - 2 && GivesUp(x))
            && (all[i] == Drop <==> i == |all| - 1 && GivesUp(x))
            && (GivesUp(x) ==> |all| == if x.LaunchFailed? then 6 else 5)
  {
  }

  lemma AtPosition(all: seq<Write>, n: nat, i: nat)
    requires i < n <= |all|
    ensures all[i] in all[..n]
  {
    assert all[..n][i] == all[i];
  }

  lemma PrefixMayFollow(x: Exit, ids: seq<int>, o: ExecOutcome, n: nat)
    requires n < |Writes(x, ids, o)|
    ensures MayFollow(Writes(x, ids, o)[..n], Writes(x, ids, o)[n])
  {
    var all := Writes(x, ids, o);
    Positions(x, ids, o, n);
    forall i | 0 <= i < n ensures all[..n][i] == all[i] && (all[i] == all[n] ==> all[n].Insert?)
                                  && (n <= 1 ==> all[i] != Free && all[i] != Fail)
    {
      Positions(x, ids, o, i);
    }
    if all[n] == Free {
      Positions(x, ids, o, 0);
      AtPosition(all, n, 0);
    }
  }

  /** What must be there before this write. */
  predicate Prepared(ws: seq<Write>, write: Write) {
    && (write == Mark ==> Take in ws)
    && (write == Ask ==> Mark in ws)
    && (write.Insert? ==> Ask in ws && Free !in ws && Fail !in ws)
    && (write == Free ==> CardsIn(ws) == [])
    && (write == Fail ==> Mark in ws && Free in ws && CardsIn(ws) == [])
    && (write == Drop ==> Fail in ws)
    && (write == Free ==> Take in ws)
  }

  lemma PrefixPrepared(x: Exit, ids: seq<int>, o: ExecOutcome, n: nat)
    requires n < |Writes(x, ids, o)|
    ensures Prepared(Writes(x, ids, o)[..n], Writes(x, ids, o)[n])
  {
    var all := Writes(x, ids, o);
    Positions(x, ids, o, n);
    if n > 0 { Positions(x, ids, o, 0); AtPosition(all, n, 0); Positions(x, ids, o, n - 1); AtPosition(all, n, n - 1); }
    if n > 1 { Positions(x, ids, o, 1); AtPosition(all, n, 1); }
    if n > 2 { Positions(x, ids, o, 2); AtPosition(all, n, 2); }
    forall i | 0 <= i < n
      ensures all[..n][i] == all[i] && (all[n].Insert? ==> all[i] != Free && all[i] != Fail)
      ensures all[n] == Fail || all[n] == Free ==> !all[i].Insert?
    {
      Positions(x, ids, o, i);
    }
    if all[n] == Fail || all[n] == Free { NoInserts(all[..n]); }
  }

  lemma OrderMore(ws: seq<Write>, write: Write)
    requires InOrder(ws) && Prepared(ws, write)
    ensures InOrder(ws + [write])
  {
    CardsInMore(ws, write);
    InMore(ws, write);
  }

  lemma InMore(ws: seq<Write>, write: Write)
    ensures forall v :: v in ws + [write] <==> v in ws || v == write
  {
  }

  /** Which writes are there, as far as a summary looks. */
  lemma SeenMore(ws: seq<Write>, write: Write)
    ensures var ws' := ws + [write];
            && (Take in ws' <==> Take in ws || write == Take) && (Free in ws' <==> Free in ws || write == Free)
            && (Mark in ws' <==> Mark in ws || write == Mark) && (Fail in ws' <==> Fail in ws || write == Fail)
            && (Ask in ws' <==> Ask in ws || write == Ask) && (Drop in ws' <==> Drop in ws || write == Drop)
  {
    InMore(ws, write);
  }

  lemma {:induction false} PrefixInOrder(x: Exit, ids: seq<int>, o: ExecOutcome, n: nat)
    requires n <= |Writes(x, ids, o)|
    ensures InOrder(Writes(x, ids, o)[..n])
  {
    if n > 0 {
      var all := Writes(x, ids, o);
      PrefixInOrder(x, ids, o, n - 1);
      PrefixPrepared(x, ids, o, n - 1);
      OrderMore(all[..n - 1], all[n - 1]);
      ShortPrefix(all, n - 1);
    }
  }

  // ------------------------------------------------------------------- cut starts

  /** What these writes come to. */
  function Summary(w: World, id: int, ids: seq<int>, o: ExecOutcome, ws: seq<Write>): World {
    w.(jobs := JobsAfter(w.jobs, id, Mark in ws, Fail in ws),
       cards := CardsAfter(w.cards, id, ids, Take in ws, Free in ws),
       procs := w.procs + NewRows(PidOf(o), id, CardsIn(ws)),
       queue := if Drop in ws then Dequeued(w.queue, id, o.removed) else w.queue,
       launches := if Ask in ws then w.launches + [id] else w.launches)
  }

  function CardsAfter(cards: Rows, id: int, ids: seq<int>, taken: bool, freed: bool): Rows {
    var held := if taken then Held(cards, ids, id) else cards;
    if freed then Freed(held, IdSet(ids)) else held
  }

  function PidOf(o: ExecOutcome): int {
    if o.pid.Some? then o.pid.value else 0
  }

  function JobsAfter(jobs: map<int, Job>, id: int, marked: bool, failed: bool): map<int, Job> {
    if failed then SetStatus(jobs, id, FAILED) else if marked then SetStatus(jobs, id, RUNNING) else jobs
  }

  lemma FailAfterMark(jobs: map<int, Job>, id: int, marked: bool)
    ensures SetStatus(JobsAfter(jobs, id, marked, false), id, FAILED) == SetStatus(jobs, id, FAILED)
  {
  }

  lemma OneMoreRow(procs: seq<Process>, pid: int, id: int, cards: seq<int>, c: int)
    ensures procs + NewRows(pid, id, cards) + [Process(pid, c, id, false)] == procs + NewRows(pid, id, cards + [c])
  {
  }

  lemma OneMoreWrite(w: World, id: int, ids: seq<int>, o: ExecOutcome, ws: seq<Write>, write: Write)
    requires MayFollow(ws, write)
    ensures Applied(Summary(w, id, ids, o, ws), id, ids, o, write) == Summary(w, id, ids, o, ws + [write])
  {
    CardsInMore(ws, write);
    SeenMore(ws, write);
    FailAfterMark(w.jobs, id, Mark in ws);
    var before, after := Summary(w, id, ids, o, ws), Summary(w, id, ids, o, ws + [write]);
    match write
    case Insert(c) =>
      OneMoreRow(w.procs, PidOf(o), id, CardsIn(ws), c);
      assert after == before.(procs := after.procs);
    case Take => assert after == before.(cards := after.cards);
    case Free => assert after == before.(cards := after.cards);
    case Mark => assert after == before.(jobs := after.jobs);
    case Fail => assert after == before.(jobs := after.jobs);
    case Ask => assert after == before.(launches := after.launches);
    case Drop => assert after == before.(queue := after.queue);
  }

  /** The writes so far, or all of them. */
  function Done(w: World, id: int, o: ExecOutcome, n: nat): seq<Write>
    requires id in w.jobs
  {
    var all := Writes(ExitOf(w.cards, w.jobs[id], CardsOf(w.jobs[id]), o), CardsOf(w.jobs[id]), o);
    if n < |all| then all[..n] else all
  }

  lemma {:induction false} ReplayIsSummary(w: World, id: int, ids: seq<int>, o: ExecOutcome, x: Exit, n: nat)
    requires n <= |Writes(x, ids, o)|
    ensures Replay(w, id, ids, o, Writes(x, ids, o)[..n]) == Summary(w, id, ids, o, Writes(x, ids, o)[..n])
  {
    var all := Writes(x, ids, o);
    if n == 0 {
      assert w.procs + NewRows(PidOf(o), id, []) == w.procs;
    } else {
      ReplayIsSummary(w, id, ids, o, x, n - 1);
      ShortPrefix(all, n - 1);
      PrefixMayFollow(x, ids, o, n - 1);
      OneMoreWrite(w, id, ids, o, all[..n - 1], all[n - 1]);
      assert all[..n][..n - 1] == all[..n - 1];
    }
  }

  /** What a crash leaves of a start after its first `n` writes. */
  function StartCut(w: World, id: int, o: ExecOutcome, n: nat): World
    requires id in w.jobs
  {
    Crashed(Replay(w, id, CardsOf(w.jobs[id]), o, Done(w, id, o, n)))
  }

  lemma StartCutIs(w: World, id: int, o: ExecOutcome, n: nat)
    requires id in w.jobs
    ensures StartCut(w, id, o, n) == Crashed(Summary(w, id, CardsOf(w.jobs[id]), o, Done(w, id, o, n)))
    ensures InOrder(Done(w, id, o, n))
    ensures Done(w, id, o, n) != [] ==> CardsOf(w.jobs[id]) != [] && CountTest(w.cards, CardsOf(w.jobs[id]))
  {
    var ids := CardsOf(w.jobs[id]);
    var x := ExitOf(w.cards, w.jobs[id], ids, o);
    var all := Writes(x, ids, o);
    var m := if n < |all| then n else |all|;
    assert all[..|all|] == all;
    ReplayIsSummary(w, id, ids, o, x, m);
    PrefixInOrder(x, ids, o, m);
  }

  /** All the writes together are the step that executeJob is. */
  lemma AllWritesAreTheStep(w: World, id: int, o: ExecOutcome, n: nat)
    requires id in w.jobs && IdleHasNoJob(w.cards)
    requires n >= |Writes(ExitOf(w.cards, w.jobs[id], CardsOf(w.jobs[id]), o), CardsOf(w.jobs[id]), o)|
    ensures StartCut(w, id, o, n) == Crashed(Executed(w, id, CardsOf(w.jobs[id]), o))
  {
    var ids := CardsOf(w.jobs[id]);
    var x := ExitOf(w.cards, w.jobs[id], ids, o);
    StartCutIs(w, id, o, n);
    AllCards(x, ids, o);
    AllSeen(x, ids, o);
    assert w.procs + NewRows(PidOf(o), id, []) == w.procs;
    if !x.Refused? { FreedHeld(w.cards, ids, id); }
    var u, v := Summary(w, id, ids, o, Writes(x, ids, o)), Executed(w, id, ids, o);
    assert u.cards == v.cards;
    assert u.jobs == v.jobs;
    assert u.procs == v.procs;
    assert u.queue == v.queue && u.launches == v.launches;
  }

  predicate Seen(x: Exit, all: seq<Write>) {
    && (Take in all <==> !x.Refused?) && (Free in all <==> GivesUp(x) || x.MarkLost?)
    && (Mark in all <==> Keeps(x) || GivesUp(x)) && (Fail in all <==> GivesUp(x))
    && (Ask in all <==> Launches(x) || x.LaunchFailed?) && (Drop in all <==> GivesUp(x))
  }

  lemma AllSeen(x: Exit, ids: seq<int>, o: ExecOutcome)
    ensures Seen(x, Writes(x, ids, o))
  {
    var all := Writes(x, ids, o);
    forall i | 0 <= i < |all| ensures all[i] in all { }
    if Launches(x) { assert all[0] == Take && all[1] == Mark && all[2] == Ask; }
    if GivesUp(x) {
      assert all[0] == Take && all[1] == Mark;
      assert all[|all| - 3] == Free && all[|all| - 2] == Fail && all[|all| - 1] == Drop;
      if x.LaunchFailed? { assert all[2] == Ask; }
    }
    if x.NoCardInfo? { assert all[0] == Take && all[1] == Mark; }
    if x.MarkLost? { assert all[0] == Take && all[1] == Free; }
  }

  lemma {:induction false} CardsInInserts(ws: seq<Write>, ids: seq<int>)
    ensures CardsIn(ws + Inserts(ids)) == CardsIn(ws) + ids
  {
    if ids == [] {
      assert ws + Inserts(ids) == ws;
    } else {
      var rest, last := ids[..|ids| - 1], ids[|ids| - 1];
      CardsInInserts(ws, rest);
      assert ws + Inserts(ids) == ws + Inserts(rest) + [Insert(last)];
      CardsInMore(ws + Inserts(rest), Insert(last));
    }
  }

  lemma AllCards(x: Exit, ids: seq<int>, o: ExecOutcome)
    ensures CardsIn(Writes(x, ids, o)) == if Launches(x) then Inserted(ids, o) else []
  {
    if Launches(x) {
      assert Writes(x, ids, o) == [Take, Mark, Ask] + Inserts(Inserted(ids, o));
      NoInserts([Take, Mark, Ask]);
      CardsInInserts([Take, Mark, Ask], Inserted(ids, o));
    } else {
      NoInserts(Writes(x, ids, o));
    }
  }

  /** Cards are taken for a job that is not marked Running. */
  predicate HeldUnmarked(ws: seq<Write>) {
    Take in ws && Mark !in ws && Free !in ws
  }

  /** Cards are given back by a job that still is marked Running. */
  predicate FreedUnfailed(ws: seq<Write>) {
    Mark in ws && Free in ws && Fail !in ws
  }

  /** A start cut short leaves cards and Running jobs matched exactly when it is cut neither
      between taking the cards and marking the job, nor between giving them back and
      failing it. */
  lemma StartCutExactly(w: World, id: int, o: ExecOutcome, n: nat)
    requires Exact(Demand(w.jobs), w.cards) && id in w.jobs && Pending(w.jobs[id])
    ensures var u := StartCut(w, id, o, n);
            Exact(Demand(u.jobs), u.cards) <==> !HeldUnmarked(Done(w, id, o, n)) && !FreedUnfailed(Done(w, id, o, n))
  {
    var ids, ws := CardsOf(w.jobs[id]), Done(w, id, o, n);
    StartCutIs(w, id, o, n);
    DemandStart(w.jobs, id);
    DemandOther(w.jobs, id, FAILED);
    assert Demand(w.jobs) - {id} == Demand(w.jobs);
    if ws != [] {
      FreedHeld(w.cards, ids, id);
      HeldExact(Demand(w.jobs), w.cards, id, ids);
      HeldAlone(Demand(w.jobs), w.cards, id, ids);
    }
  }

  lemma HeldAlone(demand: map<int, seq<int>>, cards: Rows, id: int, ids: seq<int>)
    requires id !in demand && CountTest(cards, ids) && ids != []
    ensures !Exact(demand, Held(cards, ids, id)) && !Exact(demand[id := ids], cards)
  {
    CountTestExact(cards, ids);
    var c := ids[0];
    assert c in ids && c in cards && !cards[c].busy;
    assert Held(cards, ids, id)[c].job == Some(id);
    assert c in demand[id := ids][id];
  }

  // -------------------------------------------------------------------- cut exits

  /** What a crash leaves of the end of a monitor that had written the status and ended
      some rows, and had not yet released the cards. */
  function ExitCut(w: World, jp: JobProcess, end: End, ended: set<int>): World {
    Crashed(w.(jobs := if end.Stopped? then w.jobs else SetStatus(w.jobs, jp.job, StatusAfter(end).value),
               procs := MarkedEnded(w.procs, ended)))
  }

  /** Taking a job out of the demand and leaving its cards. */
  lemma GoneUnfreed(demand: map<int, seq<int>>, cards: Rows, gone: set<int>)
    requires Exact(demand, cards)
    ensures Exact(demand - gone, cards) <==> forall j :: j in gone && j in demand ==> demand[j] == []
  {
    if j :| j in gone && j in demand && demand[j] != [] {
      var c := demand[j][0];
      assert c in demand[j];
      assert cards[c].busy && cards[c].job == Some(j);
    } else {
      forall c | c in cards && cards[c].busy
        ensures cards[c].job.value in demand - gone && c in (demand - gone)[cards[c].job.value]
      {
        var h := cards[c].job.value;
        assert h in demand && c in demand[h];
        assert h !in gone;
      }
    }
  }

  /** The end of a monitor cut short leaves them matched exactly when it gives no verdict,
      the job was not Running any more, or it lists no card. */
  lemma ExitCutExactly(w: World, jp: JobProcess, end: End, ended: set<int>)
    requires Exact(Demand(w.jobs), w.cards)
    ensures var u := ExitCut(w, jp, end, ended);
            Exact(Demand(u.jobs), u.cards)
            <==> end.Stopped? || !IsRunning(w.jobs, jp.job) || CardsOf(w.jobs[jp.job]) == []
  {
    if !end.Stopped? {
      DemandOther(w.jobs, jp.job, StatusAfter(end).value);
      GoneUnfreed(Demand(w.jobs), w.cards, {jp.job});
      assert jp.job in {jp.job};
    }
  }

  // ------------------------------------------------------------------- cut passes

  /** How far an audit or a recovery came: jobs reclaimed, one more marked Failed and not
      yet freed, rows ended. A recovery tracks nothing when it begins. */
  datatype PassCutAt = PassCutAt(recovering: bool, lost: set<int>, marked: Option<int>, ended: set<int>)

  function TrackedAt(w: World, cut: PassCutAt): set<int> {
    if cut.recovering then {} else w.running.Keys
  }

  ghost predicate CutsPass(w: World, o: PassOutcome, cut: PassCutAt) {
    var tracked := TrackedAt(w, cut);
    && cut.lost <= LostJobs(w, o, Examined(w, o), tracked)
    && MarkedBy(cut) <= LostJobs(w, o, Examined(w, o), tracked) - cut.lost
    && cut.ended <= DeadRows(w, o, Examined(w, o), tracked)
  }

  function MarkedBy(cut: PassCutAt): set<int> {
    if cut.marked.Some? then {cut.marked.value} else {}
  }

  function PassCut(w: World, cut: PassCutAt): World {
    Crashed(w.(jobs := MarkedFailed(w.jobs, cut.lost + MarkedBy(cut)),
               procs := MarkedEnded(w.procs, cut.ended),
               cards := Freed(w.cards, CardsOfJobs(w.jobs, cut.lost))))
  }

  lemma LostAreRunning(w: World, o: PassOutcome, tracked: set<int>)
    ensures forall j :: j in LostJobs(w, o, Examined(w, o), tracked) ==> IsRunning(w.jobs, j)
  {
  }

  /** A pass cut short leaves them matched exactly when it is not cut between failing a job
      with cards and freeing those. */
  lemma PassCutExactly(w: World, o: PassOutcome, cut: PassCutAt)
    requires Exact(Demand(w.jobs), w.cards) && CutsPass(w, o, cut)
    ensures var u := PassCut(w, cut);
            Exact(Demand(u.jobs), u.cards) <==> cut.marked.None? || CardsOf(w.jobs[cut.marked.value]) == []
  {
    LostAreRunning(w, o, TrackedAt(w, cut));
    var lost, marked := cut.lost, MarkedBy(cut);
    ReclaimKeepsExact(w, lost);
    DemandFailedTwice(w.jobs, lost, marked);
    GoneUnfreed(Demand(w.jobs) - lost, Freed(w.cards, CardsOfJobs(w.jobs, lost)), marked);
  }

  lemma DemandFailedTwice(jobs: map<int, Job>, lost: set<int>, marked: set<int>)
    ensures Demand(MarkedFailed(jobs, lost + marked)) == Demand(jobs) - lost - marked
  {
    DemandFailed(jobs, lost + marked);
  }
}
