/** The waiting queue: scores that encode priority and arrival, and manual reordering. */
module QueueService {
  import opened Text
  import opened Entity
  import opened SortedSet

  const PRIORITY_GAP := 1_000_000_000
  const MAX_PRIORITY := 10
  const TWO_TO_THE_53 := 0x20_0000_0000_0000

  /** Smaller scores come first, so a higher priority gives a smaller base. */
  function Score(priority: int, seqNo: int): int {
    (MAX_PRIORITY - priority) * PRIORITY_GAP + seqNo
  }

  // ------------------------------------------------- runs of enqueue and remove

  /** The sorted set `queue:jobs` and the counter `queue:seq`. */
  datatype Queue = Queue(entries: ZSet, counter: int)

  /** One call, with the answers Redis gave to it. */
  datatype Op =
    | Enqueue(job: int, priority: int, counted: bool, stored: bool)
    | Dequeue(job: int, removed: bool)

  function Apply(q: Queue, op: Op): Queue {
    match op
    case Enqueue(job, priority, counted, stored) =>
      if !counted then q
      else if !stored then q.(counter := q.counter + 1)
      else Queue(Add(q.entries, job, Score(priority, q.counter + 1) as real), q.counter + 1)
    case Dequeue(job, removed) =>
      if removed then q.(entries := Remove(q.entries, job)) else q
  }

  function Run(q: Queue, ops: seq<Op>): Queue {
    if ops == [] then q else Apply(Run(q, ops[..|ops| - 1]), ops[|ops| - 1])
  }

  /** Who is waiting, with what priority and since when: read off the calls, without scores. */
  datatype Arrival = Arrival(priority: int, seqNo: int)

  function Waiting(start: int, ops: seq<Op>): map<int, Arrival> {
    if ops == [] then map[]
    else
      var before := ops[..|ops| - 1];
      WaitingAfter(Waiting(start, before), start + Counted(before) + 1, ops[|ops| - 1])
  }

  function WaitingAfter(w: map<int, Arrival>, seqNo: int, op: Op): map<int, Arrival> {
    match op
    case Enqueue(job, priority, counted, stored) => if counted && stored then w[job := Arrival(priority, seqNo)] else w
    case Dequeue(job, removed) => if removed then w - {job} else w
  }

  /** How many sequence numbers the calls have drawn. */
  function Counted(ops: seq<Op>): nat {
    if ops == [] then 0
    else
      var last := ops[|ops| - 1];
      Counted(ops[..|ops| - 1]) + if last.Enqueue? && last.counted then 1 else 0
  }

  /** Higher priority first, earlier arrival first among equals. */
  predicate Beats(a: Arrival, b: Arrival) {
    a.priority > b.priority || (a.priority == b.priority && a.seqNo < b.seqNo)
  }

  ghost predicate Records(z: ZSet, w: map<int, Arrival>) {
    && (forall e :: e in z ==> e.member in w && e.score == Score(w[e.member].priority, w[e.member].seqNo) as real)
    && (forall m :: m in w ==> Entry(m, Score(w[m].priority, w[m].seqNo) as real) in z)
  }

  lemma RecordsAdd(z: ZSet, w: map<int, Arrival>, job: int, a: Arrival)
    requires Valid(z) && Records(z, w)
    ensures Records(Add(z, job, Score(a.priority, a.seqNo) as real), w[job := a])
  {
    AddValid(z, job, Score(a.priority, a.seqNo) as real);
  }

  lemma RecordsRemove(z: ZSet, w: map<int, Arrival>, job: int)
    requires Valid(z) && Records(z, w)
    ensures Records(Remove(z, job), w - {job})
  {
    RemoveContents(z, job);
  }

  /** Every number was drawn after `start`, and by one job only. */
  ghost predicate DrawnOnce(w: map<int, Arrival>, start: int, counter: int) {
    && (forall m :: m in w ==> start < w[m].seqNo <= counter)
    && (forall m, n :: m in w && n in w && m != n ==> w[m].seqNo != w[n].seqNo)
  }

  /** The sorted set records exactly the waiting jobs. */
  ghost predicate Faithful(q: Queue, w: map<int, Arrival>, start: int) {
    Valid(q.entries) && Records(q.entries, w) && DrawnOnce(w, start, q.counter) && start <= q.counter
  }

  lemma FaithfulStep(q: Queue, w: map<int, Arrival>, start: int, op: Op, q': Queue, w': map<int, Arrival>)
    requires Faithful(q, w, start) && q' == Apply(q, op) && w' == WaitingAfter(w, q.counter + 1, op)
    ensures Faithful(q', w', start)
  {
    match op
    case Enqueue(job, priority, counted, stored) =>
      var a := Arrival(priority, q.counter + 1);
      RecordsAdd(q.entries, w, job, a);
      AddValid(q.entries, job, Score(a.priority, a.seqNo) as real);
    case Dequeue(job, removed) =>
      RemoveValid(q.entries, job);
      RecordsRemove(q.entries, w, job);
  }

  lemma {:induction false} RunCounter(q: Queue, ops: seq<Op>)
    ensures Run(q, ops).counter == q.counter + Counted(ops)
  {
    if ops != [] { RunCounter(q, ops[..|ops| - 1]); }
  }

  lemma {:induction false} NobodyWaits(start: nat)
    ensures Faithful(Queue([], start), map[], start)
  {
  }

  lemma {:induction false} RunLast(q: Queue, ops: seq<Op>)
    requires ops != []
    ensures Run(q, ops) == Apply(Run(q, ops[..|ops| - 1]), ops[|ops| - 1])
  {
  }

  lemma {:induction false} WaitingLast(start: int, ops: seq<Op>)
    requires ops != []
    ensures var before := ops[..|ops| - 1];
            Waiting(start, ops) == WaitingAfter(Waiting(start, before), start + Counted(before) + 1, ops[|ops| - 1])
  {
  }

  lemma {:induction false} RunFaithful(start: nat, ops: seq<Op>)
    ensures Run(Queue([], start), ops).counter == start + Counted(ops)
    ensures Faithful(Run(Queue([], start), ops), Waiting(start, ops), start)
  {
    RunCounter(Queue([], start), ops);
    if ops == [] {
      NobodyWaits(start);
    } else {
      var before := ops[..|ops| - 1];
      RunFaithful(start, before);
      RunLast(Queue([], start), ops);
      WaitingLast(start, ops);
      FaithfulStep(Run(Queue([], start), before), Waiting(start, before), start, ops[|ops| - 1],
                   Run(Queue([], start), ops), Waiting(start, ops));
    }
  }

  /** Two jobs with the right order of scores: exactly when the sequence numbers
      drawn between them do not use up the gap between their priorities. */
  lemma ScoreOrder(a: Arrival, b: Arrival)
    requires a.priority > b.priority
    ensures Score(a.priority, a.seqNo) < Score(b.priority, b.seqNo)
            <==> a.seqNo - b.seqNo < (a.priority - b.priority) * PRIORITY_GAP
  {
  }

  /** The gap runs out: after a billion enqueues a newer job of priority 2 gets the
      score of an old job of priority 1, or a worse one. */
  lemma GapRunsOut(oldSeq: int)
    ensures Score(2, oldSeq + PRIORITY_GAP) == Score(1, oldSeq)
    ensures Score(2, oldSeq + PRIORITY_GAP + 1) > Score(1, oldSeq)
  {
  }

  /** A job keeps its place before one of lower priority: the sequence numbers drawn
      between them have not used up the gap, or have just done so and the printed ids
      decide. */
  predicate InWindow(m: int, a: Arrival, n: int, b: Arrival) {
    var ahead, gap := a.seqNo - b.seqNo, (a.priority - b.priority) * PRIORITY_GAP;
    ahead < gap || (ahead == gap && LexLess(Itoa(m), Itoa(n)))
  }

  ghost predicate Windowed(w: map<int, Arrival>) {
    forall m, n :: m in w && n in w && w[m].priority > w[n].priority ==> InWindow(m, w[m], n, w[n])
  }

  /** The listing is by priority, then by arrival. */
  ghost predicate ByPriority(z: ZSet, w: map<int, Arrival>) {
    forall i, j :: 0 <= i < j < |z| ==>
      z[i].member in w && z[j].member in w && Beats(w[z[i].member], w[z[j].member])
  }

  function EntryOf(m: int, a: Arrival): Entry {
    Entry(m, Score(a.priority, a.seqNo) as real)
  }

  lemma LessIsWindow(m: int, a: Arrival, n: int, b: Arrival)
    requires a.priority > b.priority
    ensures Less(EntryOf(m, a), EntryOf(n, b)) <==> InWindow(m, a, n, b)
  {
    ScoreOrder(a, b);
  }

  lemma LessIsArrival(m: int, a: Arrival, n: int, b: Arrival)
    requires a.priority == b.priority && a.seqNo != b.seqNo
    ensures Less(EntryOf(m, a), EntryOf(n, b)) <==> a.seqNo < b.seqNo
  {
  }

  lemma ListedEntry(z: ZSet, w: map<int, Arrival>, i: nat)
    requires Records(z, w) && i < |z|
    ensures z[i].member in w && z[i] == EntryOf(z[i].member, w[z[i].member])
  {
    var e := z[i];
    assert e in z;
  }

  /** Where two entries stand, and who beats whom. */
  lemma PairOrder(z: ZSet, w: map<int, Arrival>, start: int, counter: int, i: nat, j: nat)
    requires Valid(z) && Records(z, w) && DrawnOnce(w, start, counter) && Windowed(w) && i < j < |z|
    ensures z[i].member in w && z[j].member in w && Beats(w[z[i].member], w[z[j].member])
  {
    ListedEntry(z, w, i);
    ListedEntry(z, w, j);
    var m, n := z[i].member, z[j].member;
    var a, b := w[m], w[n];
    assert Less(z[i], z[j]) && m != n;
    LessTotal(z[i], z[j]);
    if a.priority == b.priority {
      LessIsArrival(m, a, n, b);
    } else if a.priority < b.priority {
      LessIsWindow(n, b, m, a);
    }
  }

  lemma PairWindow(z: ZSet, w: map<int, Arrival>, m: int, n: int)
    requires Valid(z) && Records(z, w) && ByPriority(z, w) && m in w && n in w && w[m].priority > w[n].priority
    ensures InWindow(m, w[m], n, w[n])
  {
    assert EntryOf(m, w[m]) in z && EntryOf(n, w[n]) in z;
    var i :| 0 <= i < |z| && z[i] == EntryOf(m, w[m]);
    var j :| 0 <= j < |z| && z[j] == EntryOf(n, w[n]);
    assert i < j;
    LessIsWindow(m, w[m], n, w[n]);
  }

  /** Over every run of enqueues and removals: the listing is by priority, then by
      arrival, exactly when every two jobs that wait together are in their window. */
  lemma RunOrderExactly(start: nat, ops: seq<Op>)
    ensures ByPriority(Run(Queue([], start), ops).entries, Waiting(start, ops)) <==> Windowed(Waiting(start, ops))
  {
    RunFaithful(start, ops);
    var q, w := Run(Queue([], start), ops), Waiting(start, ops);
    if Windowed(w) {
      forall i, j | 0 <= i < j < |q.entries|
        ensures q.entries[i].member in w && q.entries[j].member in w
                && Beats(w[q.entries[i].member], w[q.entries[j].member])
      {
        PairOrder(q.entries, w, start, q.counter, i, j);
      }
    }
    if ByPriority(q.entries, w) {
      forall m, n | m in w && n in w && w[m].priority > w[n].priority ensures InWindow(m, w[m], n, w[n]) {
        PairWindow(q.entries, w, m, n);
      }
    }
  }

  /** Within the first billion sequence numbers all jobs are. */
  lemma BillionIsWindowed(start: nat, ops: seq<Op>)
    requires start + Counted(ops) <= PRIORITY_GAP
    ensures Windowed(Waiting(start, ops))
  {
    RunFaithful(start, ops);
    var w := Waiting(start, ops);
    forall m, n | m in w && n in w && w[m].priority > w[n].priority ensures InWindow(m, w[m], n, w[n]) {
      assert w[m].seqNo - w[n].seqNo < PRIORITY_GAP;
    }
  }

  /** The queue holds exactly the waiting jobs. */
  lemma RunMembers(start: nat, ops: seq<Op>, m: int)
    ensures m in Waiting(start, ops) <==> Rank(Run(Queue([], start), ops).entries, m).Some?
  {
    RunFaithful(start, ops);
    var z, w := Run(Queue([], start), ops).entries, Waiting(start, ops);
    var r := Rank(z, m);
    if r.Some? { ListedEntry(z, w, r.value); }
    if m in w { assert EntryOf(m, w[m]) in z; }
  }

  /** Then Peek answers the job that no waiting job beats, and Rank counts exactly the
      jobs that beat the one asked about. */
  lemma RunPeekAndRank(start: nat, ops: seq<Op>, m: int)
    requires Windowed(Waiting(start, ops)) && m in Waiting(start, ops)
    ensures var z, w := Run(Queue([], start), ops).entries, Waiting(start, ops);
            && z != [] && z[0].member in w
            && (z[0].member == m || Beats(w[z[0].member], w[m]))
            && Rank(z, m) == Some(|set n | n in w && Beats(w[n], w[m])|)
  {
    RunOrderExactly(start, ops);
    RunFaithful(start, ops);
    RunMembers(start, ops, m);
    var z, w := Run(Queue([], start), ops).entries, Waiting(start, ops);
    ListedEntry(z, w, 0);
    forall n ensures n in w <==> Rank(z, n).Some? { RunMembers(start, ops, n); }
    InFrontBeat(z, w, m);
    MemberCount(z[..Rank(z, m).value]);
  }

  /** The jobs that beat one are those in front of it. */
  lemma InFrontBeat(z: ZSet, w: map<int, Arrival>, m: int)
    requires ByPriority(z, w) && m in w && UniqueMembers(z) && forall n :: n in w <==> Rank(z, n).Some?
    ensures (set n | n in w && Beats(w[n], w[m])) == MemberSet(z[..Rank(z, m).value])
  {
    var r := Rank(z, m).value;
    forall n ensures n in w && Beats(w[n], w[m]) <==> n in MemberSet(z[..r]) {
      if n in w {
        var i := Rank(z, n).value;
        if i < r { assert z[..r][i].member == n; }
      }
      if n in MemberSet(z[..r]) { InFrontIsListed(z, w, n, r); }
    }
  }

  lemma InFrontIsListed(z: ZSet, w: map<int, Arrival>, n: int, r: nat)
    requires r < |z| && n in MemberSet(z[..r]) && UniqueMembers(z) && ByPriority(z, w)
    ensures n in w && z[r].member in w && Beats(w[n], w[z[r].member])
  {
    var i :| 0 <= i < r && z[..r][i].member == n;
    assert z[i].member == n;
    var a, b := z[i], z[r];
    assert a.member in w && b.member in w;
  }

  ghost function MemberSet(z: ZSet): set<int> {
    set i | 0 <= i < |z| :: z[i].member
  }

  lemma {:induction false} MemberCount(z: ZSet)
    requires forall i, j :: 0 <= i < j < |z| ==> z[i].member != z[j].member
    ensures |MemberSet(z)| == |z|
  {
    if z != [] {
      var rest := z[..|z| - 1];
      MemberCount(rest);
      assert MemberSet(z) == MemberSet(rest) + {z[|z| - 1].member};
    }
  }

  /** With priorities 1 to 10 every score is a positive integer below 2^53, where
      float64 is exact. */
  lemma RunScoresExact(start: nat, ops: seq<Op>)
    requires start + Counted(ops) <= PRIORITY_GAP
    requires forall op :: op in ops && op.Enqueue? ==> 1 <= op.priority <= MAX_PRIORITY
    ensures forall e :: e in Run(Queue([], start), ops).entries ==>
              e.score == e.score.Floor as real && 0 < e.score.Floor < TWO_TO_THE_53
  {
    RunFaithful(start, ops);
    PrioritiesOf(start, ops);
  }

  lemma {:induction false} PrioritiesOf(start: nat, ops: seq<Op>)
    requires forall op :: op in ops && op.Enqueue? ==> 1 <= op.priority <= MAX_PRIORITY
    ensures forall m :: m in Waiting(start, ops) ==> 1 <= Waiting(start, ops)[m].priority <= MAX_PRIORITY
  {
    if ops != [] {
      assert ops[|ops| - 1] in ops;
      PrioritiesOf(start, ops[..|ops| - 1]);
    }
  }

  // ------------------------------------------------------------------ reordering

  /** The score that puts a job before `target`; None when the target is not queued. */
  function ScoreBefore(z: ZSet, target: int): Option<real> {
    match Rank(z, target)
    case None => None
    case Some(r) =>
      if r == 0 then Some(z[0].score - PRIORITY_GAP as real)
      else Some((z[r - 1].score + z[r].score) / 2.0)
  }

  /** fixJobStatusIfMovedFromHead: a job behind the head does not wait for cards. */
  function Demoted(z: ZSet, jobs: map<int, Job>, id: int): map<int, Job> {
    match Rank(z, id)
    case Some(r) => if r > 0 && id in jobs && jobs[id].status == WAITING_GPU then SetStatus(jobs, id, QUEUED) else jobs
    case None => jobs
  }

  /** The answers of Redis and of the database during one MoveBefore. */
  datatype MoveOutcome = MoveOutcome(
    peeked: bool, read: bool, stored: bool, marked: bool, fixedHead: bool, fixedMoved: bool)

  predicate Moves(z: ZSet, target: int, o: MoveOutcome) {
    o.peeked && o.read && ScoreBefore(z, target).Some? && o.stored
  }

  function MovedEntries(z: ZSet, job: int, target: int, o: MoveOutcome): ZSet {
    if Moves(z, target, o) then Add(z, job, ScoreBefore(z, target).value) else z
  }

  function MovedJobs(z: ZSet, jobs: map<int, Job>, job: int, target: int, o: MoveOutcome): map<int, Job> {
    if !Moves(z, target, o) || !o.marked then jobs
    else FixedJobs(MovedEntries(z, job, target, o), jobs, if z == [] then 0 else z[0].member, job, o)
  }

  /** The job rows once the job is marked, its old head and itself fixed. */
  function FixedJobs(z: ZSet, jobs: map<int, Job>, oldHead: int, job: int, o: MoveOutcome): map<int, Job> {
    var jobs1 := SetSug(jobs, job);
    var jobs2 := if oldHead != 0 && o.fixedHead then Demoted(z, jobs1, oldHead) else jobs1;
    if o.fixedMoved then Demoted(z, jobs2, job) else jobs2
  }

  function IndexOf(ids: seq<int>, id: int): (r: Option<nat>)
    ensures r.Some? ==> r.value < |ids| && ids[r.value] == id
    ensures r.None? ==> id !in ids
  {
    if ids == [] then None
    else if ids[0] == id then Some(0)
    else
      match IndexOf(ids[1..], id)
      case Some(r) => Some(r + 1)
      case None => None
  }

  function TakenOut(ids: seq<int>, id: int): seq<int> {
    match IndexOf(ids, id)
    case Some(r) => ids[..r] + ids[r + 1..]
    case None => ids
  }

  /** The reference: `job` taken out of the order and put directly before `target`. */
  function Reordered(ids: seq<int>, job: int, target: int): seq<int> {
    if job == target then ids
    else
      var rest := TakenOut(ids, job);
      match IndexOf(rest, target)
      case Some(k) => rest[..k] + [job] + rest[k..]
      case None => rest
  }

  lemma IndexOfAt(ids: seq<int>, k: nat)
    requires k < |ids| && forall i, j :: 0 <= i < j < |ids| ==> ids[i] != ids[j]
    ensures IndexOf(ids, ids[k]) == Some(k)
  {
    var r := IndexOf(ids, ids[k]).value;
    assert ids[r] == ids[k];
  }

  lemma RemoveTakesOut(z: ZSet, m: int)
    requires UniqueMembers(z)
    ensures Members(Remove(z, m)) == TakenOut(Members(z), m)
  {
    var ms, r := Members(z), Rank(z, m);
    if r.Some? {
      IndexOfAt(ms, r.value);
      assert Members(Drop(z, r.value)) == ms[..r.value] + ms[r.value + 1..];
    }
  }

  /** Where the new score stands among the old entries: between the target and the
      entry before it. */
  lemma NewScorePlace(z: ZSet, target: int)
    requires Increasing(z) && ScoreBefore(z, target).Some?
    ensures var s, r := ScoreBefore(z, target).value, Rank(z, target).value;
            && (forall i :: 0 <= i < r ==> z[i].score < s)
            && (forall i :: r <= i < |z| ==> s < z[i].score)
  {
    var s, r := ScoreBefore(z, target).value, Rank(z, target).value;
    if r > 0 {
      assert z[r - 1].score < s < z[r].score;
    }
  }

  /** Where that is once the job itself is out. */
  lemma PlaceWithoutJob(z: ZSet, job: int, target: int, s: real, r: nat) returns (k: nat)
    requires UniqueMembers(z) && Increasing(z) && r < |z| && z[r].member == target
    requires forall i :: 0 <= i < r ==> z[i].score < s
    requires forall i :: r <= i < |z| ==> s < z[i].score
    ensures var rest := Remove(z, job);
            && UniqueMembers(rest) && Increasing(rest)
            && k <= |rest|
            && (forall i :: 0 <= i < k ==> rest[i].score < s)
            && (forall i :: k <= i < |rest| ==> s < rest[i].score)
            && (job == target ==> k == r && rest == Drop(z, r))
            && (job != target ==> k < |rest| && rest[k].member == target)
  {
    var p := Rank(z, job);
    k := if p.Some? && p.value < r then r - 1 else r;
    if p.Some? {
      DropKeeps(z, p.value);
      assert forall i :: 0 <= i < |z| - 1 ==> Drop(z, p.value)[i] == z[if i < p.value then i else i + 1];
    }
  }

  lemma DropKeeps(z: ZSet, p: nat)
    requires p < |z|
    ensures Increasing(z) ==> Increasing(Drop(z, p))
    ensures UniqueMembers(z) ==> UniqueMembers(Drop(z, p))
  {
    assert forall i :: 0 <= i < |z| - 1 ==> Drop(z, p)[i] == z[if i < p then i else i + 1];
  }

  lemma InsertBetween(z: ZSet, e: Entry, k: nat)
    requires k <= |z| && Increasing(z)
    requires forall i :: 0 <= i < k ==> z[i].score < e.score
    requires forall i :: k <= i < |z| ==> e.score < z[i].score
    ensures Increasing(Insert(z, e))
    ensures Members(Insert(z, e)) == Members(z)[..k] + [e.member] + Members(z)[k..]
  {
    InsertAtScore(z, e, k);
    IncreasingWith(z, e, k);
    MembersWith(z, e, k);
  }

  lemma IncreasingWith(z: ZSet, e: Entry, k: nat)
    requires k <= |z| && Increasing(z)
    requires forall i :: 0 <= i < k ==> z[i].score < e.score
    requires forall i :: k <= i < |z| ==> e.score < z[i].score
    ensures Increasing(z[..k] + [e] + z[k..])
  {
    var z' := z[..k] + [e] + z[k..];
    assert forall i :: 0 <= i < |z'| ==> z'[i] == if i < k then z[i] else if i == k then e else z[i - 1];
  }

  lemma MembersWith(z: ZSet, e: Entry, k: nat)
    requires k <= |z|
    ensures Members(z[..k] + [e] + z[k..]) == Members(z)[..k] + [e.member] + Members(z)[k..]
  {
  }

  lemma ReorderedAt(z: ZSet, job: int, target: int, k: nat)
    requires UniqueMembers(z) && UniqueMembers(Remove(z, job)) && job != target
    requires k < |Remove(z, job)| && Remove(z, job)[k].member == target
    ensures var rest := Members(Remove(z, job));
            Reordered(Members(z), job, target) == rest[..k] + [job] + rest[k..]
  {
    RemoveTakesOut(z, job);
    IndexOfAt(Members(Remove(z, job)), k);
  }

  lemma PutBack(z: ZSet, r: nat)
    requires r < |z|
    ensures var rest := Members(Drop(z, r)); Members(z) == rest[..r] + [z[r].member] + rest[r..]
  {
  }

  lemma MoveBeforeListing(z: ZSet, job: int, target: int, s: real, r: nat)
    requires UniqueMembers(z) && Increasing(z) && r < |z| && z[r].member == target
    requires forall i :: 0 <= i < r ==> z[i].score < s
    requires forall i :: r <= i < |z| ==> s < z[i].score
    ensures Increasing(Add(z, job, s)) && Members(Add(z, job, s)) == Reordered(Members(z), job, target)
  {
    var k := PlaceWithoutJob(z, job, target, s, r);
    InsertBetween(Remove(z, job), Entry(job, s), k);
    if job == target {
      PutBack(z, r);
    } else {
      ReorderedAt(z, job, target, k);
    }
  }

  ghost predicate PutBefore(z: ZSet, z': ZSet, job: int, target: int) {
    Valid(z') && DistinctScores(z') && Members(z') == Reordered(Members(z), job, target)
  }

  /** MoveBefore on a queue with pairwise distinct scores: the old order with the job
      taken out and put directly before the target, whether or not it was queued. */
  lemma MoveBeforeOrder(z: ZSet, job: int, target: int, o: MoveOutcome)
    requires Valid(z) && DistinctScores(z) && Moves(z, target, o)
    ensures PutBefore(z, MovedEntries(z, job, target, o), job, target)
  {
    ScoresIncrease(z);
    NewScorePlace(z, target);
    MoveBeforeListing(z, job, target, ScoreBefore(z, target).value, Rank(z, target).value);
    AddValid(z, job, ScoreBefore(z, target).value);
  }

  /** Only the head of the queue may wait for cards. */
  ghost predicate OnlyHeadWaits(z: ZSet, jobs: map<int, Job>) {
    forall i :: 1 <= i < |z| && z[i].member in jobs ==> jobs[z[i].member].status != WAITING_GPU
  }

  predicate Waits(jobs: map<int, Job>, id: int) {
    id in jobs && jobs[id].status == WAITING_GPU
  }

  /** The outcome says that the status of this job is looked after. */
  predicate LookedAfter(z: ZSet, job: int, o: MoveOutcome, x: int) {
    o.marked && ((z != [] && x == z[0].member && x != 0 && o.fixedHead) || (x == job && o.fixedMoved))
  }

  /** Waiting before, behind the head afterwards, and not looked after. */
  predicate LeftWaiting(z: ZSet, jobs: map<int, Job>, job: int, target: int, o: MoveOutcome, x: int) {
    var r := Rank(MovedEntries(z, job, target, o), x);
    Waits(jobs, x) && r.Some? && r.value > 0 && !LookedAfter(z, job, o, x)
  }

  lemma DemotedWaits(z: ZSet, jobs: map<int, Job>, id: int, x: int)
    ensures Waits(Demoted(z, jobs, id), x)
            <==> Waits(jobs, x) && !(x == id && Rank(z, x).Some? && Rank(z, x).value > 0)
  {
  }

  lemma MovedWaits(z: ZSet, jobs: map<int, Job>, job: int, target: int, o: MoveOutcome, x: int)
    requires Moves(z, target, o)
    requires var r := Rank(MovedEntries(z, job, target, o), x); r.Some? && r.value > 0
    ensures Waits(MovedJobs(z, jobs, job, target, o), x) <==> Waits(jobs, x) && !LookedAfter(z, job, o, x)
  {
    var z', jobs1 := MovedEntries(z, job, target, o), SetSug(jobs, job);
    var head := if z == [] then 0 else z[0].member;
    assert Waits(jobs1, x) <==> Waits(jobs, x);
    DemotedWaits(z', jobs1, head, x);
    DemotedWaits(z', jobs1, job, x);
    DemotedWaits(z', Demoted(z', jobs1, head), job, x);
  }

  /** Whatever fails on the way, a move keeps "only the head waits" exactly when it
      changes nothing, or leaves neither the old head nor the moved job waiting behind
      the new head. */
  lemma MoveKeepsOnlyHeadWaitsExactly(z: ZSet, jobs: map<int, Job>, job: int, target: int, o: MoveOutcome)
    requires Valid(z) && OnlyHeadWaits(z, jobs)
    ensures OnlyHeadWaits(MovedEntries(z, job, target, o), MovedJobs(z, jobs, job, target, o))
            <==> !Moves(z, target, o)
                 || (!LeftWaiting(z, jobs, job, target, o, job) && !LeftWaiting(z, jobs, job, target, o, z[0].member))
  {
    if Moves(z, target, o) {
      var z', jobs' := MovedEntries(z, job, target, o), MovedJobs(z, jobs, job, target, o);
      AddValid(z, job, ScoreBefore(z, target).value);
      forall i | 1 <= i < |z'|
        ensures Waits(jobs', z'[i].member) <==> LeftWaiting(z, jobs, job, target, o, z'[i].member)
        ensures Waits(jobs', z'[i].member) ==> z'[i].member == job || z'[i].member == z[0].member
      {
        RankValid(z', i);
        MovedWaits(z, jobs, job, target, o, z'[i].member);
        OthersDoNotWait(z, jobs, job, z', z'[i]);
      }
      LeftIsListed(z, jobs, job, target, o, job);
      LeftIsListed(z, jobs, job, target, o, z[0].member);
    }
  }

  lemma OthersDoNotWait(z: ZSet, jobs: map<int, Job>, job: int, z': ZSet, e: Entry)
    requires OnlyHeadWaits(z, jobs) && z != [] && e in z' && forall x :: x in z' ==> x.member == job || x in z
    ensures Waits(jobs, e.member) ==> e.member == job || e.member == z[0].member
  {
    if e.member != job {
      var k :| 0 <= k < |z| && z[k] == e;
    }
  }

  lemma LeftIsListed(z: ZSet, jobs: map<int, Job>, job: int, target: int, o: MoveOutcome, x: int)
    ensures LeftWaiting(z, jobs, job, target, o, x) ==>
              exists i :: 1 <= i < |MovedEntries(z, job, target, o)| && MovedEntries(z, job, target, o)[i].member == x
  {
  }

  /** MoveBefore answers success although the fix of the old head failed: it still waits,
      behind the job put before it. */
  lemma LostFixLeavesHeadWaiting(job: Job)
    ensures var jobs := map[5 := job.(status := WAITING_GPU), 6 := job.(status := QUEUED)];
            var z, o := [Entry(5, 1.0), Entry(6, 2.0)], MoveOutcome(true, true, true, true, false, true);
            && Valid(z) && OnlyHeadWaits(z, jobs) && Moves(z, 5, o) && o.marked
            && !OnlyHeadWaits(MovedEntries(z, 6, 5, o), MovedJobs(z, jobs, 6, 5, o))
  {
    var jobs := map[5 := job.(status := WAITING_GPU), 6 := job.(status := QUEUED)];
    var z, o := [Entry(5, 1.0), Entry(6, 2.0)], MoveOutcome(true, true, true, true, false, true);
    var s := 1.0 - PRIORITY_GAP as real;
    assert Rank(z, 5) == Some(0);
    MoveKeepsOnlyHeadWaitsExactly(z, jobs, 6, 5, o);
    SixBeforeFive(z, s);
  }

  lemma SixBeforeFive(z: ZSet, s: real)
    requires z == [Entry(5, 1.0), Entry(6, 2.0)] && s < 1.0
    ensures Rank(Add(z, 6, s), 5) == Some(1)
  {
    var rest := [Entry(5, 1.0)];
    assert z[1..] == [Entry(6, 2.0)];
    assert Rank(z[1..], 6) == Some(0);
    assert Rank(z, 6) == Some(1);
    assert Remove(z, 6) == rest;
    var z' := Insert(rest, Entry(6, s));
    assert z' == [Entry(6, s), Entry(5, 1.0)];
    assert z'[1..] == rest;
  }

  /** Enqueueing keeps that exactly when the new job does not go in front of a head that
      waits: nothing resets the status of a head that is overtaken on arrival. */
  lemma EnqueueKeepsOnlyHeadWaitsExactly(z: ZSet, jobs: map<int, Job>, job: int, score: real)
    requires Valid(z) && OnlyHeadWaits(z, jobs) && Rank(z, job).None? && !Waits(jobs, job)
    ensures OnlyHeadWaits(Add(z, job, score), jobs)
            <==> z == [] || !Waits(jobs, z[0].member) || Less(z[0], Entry(job, score))
  {
    var e := Entry(job, score);
    var k := PlaceOf(z, e);
    var z' := z[..k] + [e] + z[k..];
    assert Add(z, job, score) == z';
    forall i | 0 <= i < |z'| ensures z'[i] == if i < k then z[i] else if i == k then e else z[i - 1] {}
    if z != [] {
      LessTotal(z[0], e);
      if k == 0 { assert z'[1] == z[0]; }
    }
  }

  /** A job of priority 2 overtakes a waiting one of priority 1. */
  lemma OvertakenHeadStillWaits(job: Job)
    ensures var jobs := map[5 := job.(status := WAITING_GPU), 6 := job.(status := QUEUED)];
            var q := Apply(Queue([], 0), Enqueue(5, 1, true, true));
            OnlyHeadWaits(q.entries, jobs) && !OnlyHeadWaits(Apply(q, Enqueue(6, 2, true, true)).entries, jobs)
  {
    var jobs := map[5 := job.(status := WAITING_GPU), 6 := job.(status := QUEUED)];
    var z := Apply(Queue([], 0), Enqueue(5, 1, true, true)).entries;
    assert z == [Entry(5, Score(1, 1) as real)];
    EnqueueKeepsOnlyHeadWaitsExactly(z, jobs, 6, Score(2, 2) as real);
  }

  /** Whatever fails on the way, a move changes no status but WaitingGpu to Queued. */
  lemma MoveStatuses(z: ZSet, jobs: map<int, Job>, job: int, target: int, o: MoveOutcome, id: int)
    ensures DemotedAtMost(jobs, MovedJobs(z, jobs, job, target, o), id)
  {
    if Moves(z, target, o) && o.marked {
      var z' := MovedEntries(z, job, target, o);
      var jobs1 := SetSug(jobs, job);
      DemotedStatuses(z', jobs1, if z == [] then 0 else z[0].member, id);
      DemotedStatuses(z', jobs1, job, id);
      DemotedStatuses(z', Demoted(z', jobs1, if z == [] then 0 else z[0].member), job, id);
    }
  }

  /** And it changes a status exactly when a WaitingGpu job that is looked after ends up
      behind the head: not that of the head, and not that of a job outside the queue. */
  lemma MoveDemotesExactly(z: ZSet, jobs: map<int, Job>, job: int, target: int, o: MoveOutcome, id: int)
    requires id in jobs
    ensures id in MovedJobs(z, jobs, job, target, o)
    ensures MovedJobs(z, jobs, job, target, o)[id].status
            == if && Moves(z, target, o) && Waits(jobs, id) && LookedAfter(z, job, o, id)
                  && Rank(MovedEntries(z, job, target, o), id).Some?
                  && Rank(MovedEntries(z, job, target, o), id).value > 0
               then QUEUED else jobs[id].status
  {
    if Moves(z, target, o) && o.marked {
      var z', jobs1, head := MovedEntries(z, job, target, o), SetSug(jobs, job), if z == [] then 0 else z[0].member;
      DemotedStatus(z', jobs1, head, id);
      DemotedStatus(z', jobs1, job, id);
      DemotedStatus(z', Demoted(z', jobs1, head), job, id);
    }
  }

  lemma DemotedStatus(z: ZSet, jobs: map<int, Job>, job: int, id: int)
    requires id in jobs
    ensures id in Demoted(z, jobs, job)
    ensures Demoted(z, jobs, job)[id].status
            == if id == job && Waits(jobs, id) && Rank(z, id).Some? && Rank(z, id).value > 0
               then QUEUED else jobs[id].status
  {
  }

  /** A move that is stored and marked marks exactly the moved job; any other marks none. */
  lemma MoveMarks(z: ZSet, jobs: map<int, Job>, job: int, target: int, o: MoveOutcome, id: int)
    requires id in jobs
    ensures id in MovedJobs(z, jobs, job, target, o)
    ensures MovedJobs(z, jobs, job, target, o)[id].sug
            == if Moves(z, target, o) && o.marked && id == job then 1 else jobs[id].sug
  {
  }

  /** The same jobs; this one keeps everything but its mark and, if it was WaitingGpu,
      possibly its status. */
  predicate DemotedAtMost(jobs: map<int, Job>, jobs': map<int, Job>, id: int) {
    && jobs'.Keys == jobs.Keys
    && (id in jobs ==>
          && (jobs'[id].status == jobs[id].status || (jobs[id].status == WAITING_GPU && jobs'[id].status == QUEUED))
          && jobs'[id] == jobs[id].(status := jobs'[id].status, sug := jobs'[id].sug))
  }

  lemma DemotedStatuses(z: ZSet, jobs: map<int, Job>, job: int, id: int)
    ensures DemotedAtMost(jobs, Demoted(z, jobs, job), id)
  {
  }

  /** One billion below the head, or half-way between the target and the job in front. */
  predicate InFrontOf(z: ZSet, target: int, r: int, score: real) {
    && 0 <= r < |z| && z[r].member == target
    && score == if r == 0 then z[0].score - 1_000_000_000.0 else (z[r - 1].score + z[r].score) / 2.0
  }

  // --------------------------------------------------------------------- service

  class QueueService {
    var entries: ZSet
    var counter: int
    var jobs: map<int, Job>

    constructor ()
      ensures entries == [] && counter == 0 && jobs == map[]
    {
      entries, counter, jobs := [], 0, map[];
    }

    method Enqueue(job: int, priority: int, counted: bool, stored: bool) returns (ok: bool)
      modifies `entries, `counter
      ensures ok == (counted && stored)
      ensures Queue(entries, counter)
              == Apply(Queue(old(entries), old(counter)), Op.Enqueue(job, priority, counted, stored))
    {
      if !counted { return false; }
      counter := counter + 1;
      var base := (MAX_PRIORITY - priority) * PRIORITY_GAP;
      if !stored { return false; }
      entries := Add(entries, job, (base + counter) as real);
      return true;
    }

    method Peek() returns (head: Option<int>)
      ensures head == if entries == [] || entries[0].member == 0 then None else Some(entries[0].member)
    {
      var jobID := if |entries| == 0 then 0 else entries[0].member;
      if jobID == 0 { return None; }
      return Some(jobID);
    }

    method Remove(job: int, removed: bool) returns (ok: bool)
      modifies `entries
      ensures ok == removed
      ensures Queue(entries, counter) == Apply(Queue(old(entries), counter), Dequeue(job, removed))
    {
      if removed { entries := SortedSet.Remove(entries, job); }
      return removed;
    }

    /** Minus one stands for "not queued"; no answer for an error of Redis. */
    method GetFrontCount(job: int, answered: bool) returns (front: Option<int>)
      ensures front.Some? <==> answered
      ensures front == Some(-1) ==> forall i :: 0 <= i < |entries| ==> entries[i].member != job
      ensures front.Some? && front.value != -1 ==> 0 <= front.value < |entries| && entries[front.value].member == job
    {
      if !answered { return None; }
      match Rank(entries, job) {
        case Some(r) => return Some(r);
        case None => return Some(-1);
      }
    }

    method FixJobStatusIfMovedFromHead(job: int, answered: bool)
      modifies `jobs
      ensures jobs == if answered then Demoted(entries, old(jobs), job) else old(jobs)
    {
      if !answered { return; }
      var rank := Rank(entries, job);
      if rank.None? { return; }
      if rank.value > 0 {
        if job in jobs && jobs[job].status == WAITING_GPU {
          jobs := SetStatus(jobs, job, QUEUED);
        }
      }
    }

    /** One billion below the head, or half-way to the job in front. */
    method NewScore(before: int) returns (score: Option<real>)
      ensures score == ScoreBefore(entries, before)
      ensures score.None? <==> forall i :: 0 <= i < |entries| ==> entries[i].member != before
      ensures score.Some? ==> exists r :: InFrontOf(entries, before, r, score.value)
    {
      var rank := Rank(entries, before);
      if rank.None? { return None; }
      var beforeScore := entries[rank.value].score;
      if rank.value == 0 {
        score := Some(beforeScore - PRIORITY_GAP as real);
      } else {
        var prevScore := entries[rank.value - 1].score;
        score := Some((prevScore + beforeScore) / 2.0);
      }
      assert InFrontOf(entries, before, rank.value, score.value);
    }

    method MoveBefore(job: int, before: int, o: MoveOutcome) returns (ok: bool)
      modifies `entries, `jobs
      ensures entries == MovedEntries(old(entries), job, before, o)
      ensures jobs == MovedJobs(old(entries), old(jobs), job, before, o)
      ensures ok == (Moves(old(entries), before, o) && o.marked)
    {
      if !o.peeked { return false; }
      var oldHead := if |entries| == 0 then 0 else entries[0].member;
      var newScore := NewScore(before);
      if !o.read || newScore.None? { return false; }
      if !o.stored { return false; }
      entries := Add(entries, job, newScore.value);
      if !o.marked { return false; }
      MarkMoved(job, oldHead, o);
      return true;
    }

    method MarkMoved(job: int, oldHead: int, o: MoveOutcome)
      modifies `jobs
      ensures jobs == FixedJobs(entries, old(jobs), oldHead, job, o)
    {
      jobs := SetSug(jobs, job);
      if oldHead != 0 {
        FixJobStatusIfMovedFromHead(oldHead, o.fixedHead);
      }
      FixJobStatusIfMovedFromHead(job, o.fixedMoved);
    }
  }
}
