/** GPU cards: the authoritative table, the Redis view in front of it, and the
    service over both. */
module GpuAllocator {
  import opened Text
  import opened Sets

  // ----------------------------------------------------------------- the table

  datatype Card = Card(uuid: string, busy: bool, job: Option<int>)

  type Rows = map<int, Card>

  predicate AllIdle(rows: Rows, ids: seq<int>) {
    forall c :: c in ids ==> c in rows && !rows[c].busy
  }

  /** The rows that `id IN ids AND status = idle` selects. */
  function IdleAmong(rows: Rows, ids: seq<int>): set<int> {
    set c | c in rows && c in ids && !rows[c].busy
  }

  /** The availability test of the repository: an empty list passes, otherwise the
      number of selected rows must be the length of the list. */
  predicate CountTest(rows: Rows, ids: seq<int>) {
    ids == [] || |IdleAmong(rows, ids)| == |ids|
  }

  /** UPDATE ... SET busy, current_job_id. */
  function Held(rows: Rows, ids: seq<int>, job: int): Rows {
    map c | c in rows :: if c in ids then rows[c].(busy := true, job := Some(job)) else rows[c]
  }

  /** UPDATE ... SET idle, no job; the holder is not looked at. */
  function Freed(rows: Rows, ids: set<int>): Rows {
    map c | c in rows :: if c in ids then rows[c].(busy := false, job := None) else rows[c]
  }

  /** Counting rows decides exactly "pairwise distinct, all exist, all idle". */
  lemma CountTestExact(rows: Rows, ids: seq<int>)
    ensures CountTest(rows, ids) <==> NoDup(ids) && AllIdle(rows, ids)
  {
    var idle := IdleAmong(rows, ids);
    IdSetSize(ids);
    SubsetOfSameSize(idle, IdSet(ids));
    if AllIdle(rows, ids) {
      forall c | c in IdSet(ids) ensures c in idle { assert c in ids; }
      assert idle == IdSet(ids);
    }
    if idle == IdSet(ids) {
      forall c | c in ids ensures c in rows && !rows[c].busy { assert c in idle; }
    }
  }

  /** Any number of releases in between. */
  function Releases(rows: Rows, lists: seq<seq<int>>): Rows {
    if lists == [] then rows else Releases(Freed(rows, IdSet(lists[0])), lists[1..])
  }

  /** A list found available is still acquirable after releases only. */
  lemma {:induction false} AvailableStaysAcquirable(rows: Rows, ids: seq<int>, lists: seq<seq<int>>)
    requires CountTest(rows, ids)
    ensures CountTest(Releases(rows, lists), ids)
  {
    if lists != [] {
      var rows' := Freed(rows, IdSet(lists[0]));
      CountTestExact(rows, ids);
      CountTestExact(rows', ids);
      AvailableStaysAcquirable(rows', ids, lists[1..]);
    }
  }

  /** An idle row names no job. */
  ghost predicate IdleHasNoJob(rows: Rows) {
    forall c :: c in rows && !rows[c].busy ==> rows[c].job == None
  }

  /** Giving back what was just acquired restores the table. */
  lemma FreedHeld(rows: Rows, ids: seq<int>, job: int)
    requires CountTest(rows, ids) && IdleHasNoJob(rows)
    ensures Freed(Held(rows, ids, job), IdSet(ids)) == rows
  {
    CountTestExact(rows, ids);
    var rows' := Freed(Held(rows, ids, job), IdSet(ids));
    forall c | c in rows ensures c in rows' && rows'[c] == rows[c] {}
  }

  // ----------------------------------------------------------------- the cache

  type Hash = map<string, string>
  type Cache = map<int, Hash>

  function Fields(cache: Cache, id: int): Hash {
    if id in cache then cache[id] else map[]
  }

  predicate SaysIdle(cache: Cache, id: int) {
    "status" in Fields(cache, id) && Fields(cache, id)["status"] == Itoa(0)
  }

  /** A record is there and it is not "idle". */
  predicate SaysBusy(cache: Cache, id: int) {
    Fields(cache, id) != map[] && !SaysIdle(cache, id)
  }

  function BusyHash(job: int): Hash { map["status" := Itoa(1), "job_id" := Itoa(job)] }

  const IDLE_HASH: Hash := map["status" := Itoa(0), "job_id" := ""]

  /** HSET on one key each. */
  function Written(cache: Cache, ids: set<int>, fields: Hash): Cache {
    map c | c in cache.Keys + ids :: if c in ids then Fields(cache, c) + fields else cache[c]
  }

  /** The first card that is not recorded as idle is recorded as busy. */
  ghost predicate Denies(cache: Cache, ids: seq<int>) {
    exists k :: 0 <= k < |ids| && SaysBusy(cache, ids[k]) && forall i :: 0 <= i < k ==> SaysIdle(cache, ids[i])
  }

  /** The first card decides: a busy record denies, an idle one leaves it to the next, and
      a missing one ends the question, whatever is recorded about later cards. */
  lemma DeniesFirst(cache: Cache, ids: seq<int>)
    ensures Denies(cache, ids)
            <==> ids != [] && (SaysBusy(cache, ids[0]) || (SaysIdle(cache, ids[0]) && Denies(cache, ids[1..])))
    ensures ids != [] && Fields(cache, ids[0]) == map[] ==> !Denies(cache, ids)
  {
    if ids != [] {
      var rest := ids[1..];
      if k :| 0 <= k < |rest| && SaysBusy(cache, rest[k]) && forall i :: 0 <= i < k ==> SaysIdle(cache, rest[i]) {
        if SaysIdle(cache, ids[0]) {
          assert SaysBusy(cache, ids[k + 1]);
          assert forall i :: 0 <= i < k + 1 ==> SaysIdle(cache, ids[i]) by {
            forall i | 0 <= i < k + 1 ensures SaysIdle(cache, ids[i]) { assert i > 0 ==> ids[i] == rest[i - 1]; }
          }
        }
      }
      if Denies(cache, ids) && !SaysBusy(cache, ids[0]) {
        var k :| 0 <= k < |ids| && SaysBusy(cache, ids[k]) && forall i :: 0 <= i < k ==> SaysIdle(cache, ids[i]);
        assert rest[k - 1] == ids[k] && SaysIdle(cache, ids[0]);
        assert forall i :: 0 <= i < k - 1 ==> rest[i] == ids[i + 1];
      }
    }
  }

  datatype Answer = Available | Unavailable | Unknown

  // -------------------------------------------------------- runs of the service

  datatype Gpus = Gpus(rows: Rows, cache: Cache)

  datatype Info = Info(uuid: string, newId: int)

  /** A call, with the cards or loop rounds whose cache write arrives; or one key running
      out. */
  datatype Op =
    | Acquire(ids: seq<int>, job: int, wrote: set<int>)
    | Release(ids: seq<int>, wrote: set<int>)
    | Sync(infos: seq<Info>, told: set<int>)
    | Expire(id: int)

  ghost predicate Known(rows: Rows, uuid: string) {
    exists c :: c in rows && rows[c].uuid == uuid
  }

  /** INSERT ... ON DUPLICATE KEY UPDATE of name, index, type, memory: a new uuid
      gets a new idle row, a known one keeps status and job. */
  ghost function Upserted(rows: Rows, infos: seq<Info>): Rows {
    if infos == [] then rows
    else
      var before := Upserted(rows, infos[..|infos| - 1]);
      var info := infos[|infos| - 1];
      if Known(before, info.uuid) || info.newId in before then before
      else before[info.newId := Card(info.uuid, false, None)]
  }

  /** The cache after the second loop of SyncGpuCards, of which the rounds in `told` find
      the row and reach the cache. */
  ghost function Refreshed(rows: Rows, cache: Cache, infos: seq<Info>, told: set<int>): Cache {
    Stamped(rows, cache, set d | d in rows && Fresh(rows[d], infos, told))
  }

  function Stamped(rows: Rows, cache: Cache, ids: set<int>): Cache
    requires ids <= rows.Keys
  {
    map c | c in cache.Keys + ids :: if c in ids then Fields(cache, c) + RowHash(rows[c]) else cache[c]
  }

  ghost predicate Reported(card: Card, infos: seq<Info>, told: set<int>) {
    exists i :: i in told && 0 <= i < |infos| && infos[i].uuid == card.uuid
  }

  /** A reported row that tells the cache something. */
  ghost predicate Fresh(card: Card, infos: seq<Info>, told: set<int>) {
    Reported(card, infos, told) && (!card.busy || card.job.Some?)
  }

  function RowHash(card: Card): Hash {
    if !card.busy then IDLE_HASH else if card.job.Some? then BusyHash(card.job.value) else map[]
  }

  ghost predicate UniqueUuids(rows: Rows) {
    forall c, d :: c in rows && d in rows && rows[c].uuid == rows[d].uuid ==> c == d
  }

  ghost function Apply(g: Gpus, op: Op): Gpus {
    match op
    case Acquire(ids, job, wrote) =>
      if ids == [] || !CountTest(g.rows, ids) then g
      else Gpus(Held(g.rows, ids, job), Written(g.cache, IdSet(ids) * wrote, BusyHash(job)))
    case Release(ids, wrote) => Gpus(Freed(g.rows, IdSet(ids)), Written(g.cache, IdSet(ids) * wrote, IDLE_HASH))
    case Sync(infos, told) =>
      var rows := Upserted(g.rows, infos);
      Gpus(rows, Refreshed(rows, g.cache, infos, told))
    case Expire(id) => g.(cache := g.cache - {id})
  }

  ghost function Run(g: Gpus, ops: seq<Op>): Gpus {
    if ops == [] then g else Apply(Run(g, ops[..|ops| - 1]), ops[|ops| - 1])
  }

  /** A card recorded as busy is busy. */
  ghost predicate CacheSound(g: Gpus) {
    forall c :: SaysBusy(g.cache, c) ==> c in g.rows && g.rows[c].busy
  }

  lemma {:induction false} UpsertedKeeps(rows: Rows, infos: seq<Info>)
    ensures forall c :: c in rows ==> c in Upserted(rows, infos) && Upserted(rows, infos)[c] == rows[c]
    ensures forall c :: c in Upserted(rows, infos) && c !in rows ==>
              !Upserted(rows, infos)[c].busy && Upserted(rows, infos)[c].job == None
  {
    if infos != [] {
      UpsertedKeeps(rows, infos[..|infos| - 1]);
    }
  }

  /** Every card found gets a row, and only those: with new row numbers, each reported uuid
      is known afterwards, and a row that was not there before is of a reported uuid. */
  lemma {:induction false} UpsertedExactly(rows: Rows, infos: seq<Info>, uuid: string)
    requires forall i :: 0 <= i < |infos| ==> infos[i].newId !in rows
    requires forall i, j :: 0 <= i < j < |infos| ==> infos[i].newId != infos[j].newId
    ensures Known(Upserted(rows, infos), uuid)
            <==> Known(rows, uuid) || exists i :: 0 <= i < |infos| && infos[i].uuid == uuid
    ensures forall c :: c in Upserted(rows, infos) ==> c in rows || exists i :: 0 <= i < |infos| && infos[i].newId == c
  {
    if infos != [] {
      var front, last := infos[..|infos| - 1], infos[|infos| - 1];
      var before := Upserted(rows, front);
      UpsertedExactly(rows, front, uuid);
      assert forall i :: 0 <= i < |front| ==> front[i] == infos[i];
      assert last.newId !in before;
      UpsertedStep(before, last, uuid);
      if exists i :: 0 <= i < |infos| && infos[i].uuid == uuid {
        var i :| 0 <= i < |infos| && infos[i].uuid == uuid;
        assert i < |front| ==> front[i].uuid == uuid;
      }
      if exists i :: 0 <= i < |front| && front[i].uuid == uuid {
        var i :| 0 <= i < |front| && front[i].uuid == uuid;
        assert infos[i].uuid == uuid;
      }
      forall c | c in Upserted(rows, infos) && c !in rows ensures exists i :: 0 <= i < |infos| && infos[i].newId == c {
        if c in before {
          var i :| 0 <= i < |front| && front[i].newId == c;
          assert infos[i].newId == c;
        } else {
          assert infos[|infos| - 1].newId == c;
        }
      }
    }
  }

  lemma UpsertedStep(before: Rows, info: Info, uuid: string)
    requires info.newId !in before
    ensures var added := before[info.newId := Card(info.uuid, false, None)];
            Known(if Known(before, info.uuid) then before else added, uuid)
            <==> Known(before, uuid) || info.uuid == uuid
  {
    var after := before[info.newId := Card(info.uuid, false, None)];
    assert after[info.newId].uuid == info.uuid;
    if Known(before, uuid) {
      var c :| c in before && before[c].uuid == uuid;
      assert c in after && after[c].uuid == uuid;
    }
  }

  /** What the cache says about the cards of a call whose writes arrive: the job's number
      and busy after an acquisition, no job and idle after a release. */
  lemma CacheFollows(g: Gpus, ids: seq<int>, job: int, c: int)
    requires c in ids
    ensures CountTest(g.rows, ids) ==>
              var f := Fields(Apply(g, Acquire(ids, job, IdSet(ids))).cache, c);
              "status" in f && f["status"] == "1" && "job_id" in f && f["job_id"] == Itoa(job)
    ensures var f := Fields(Apply(g, Release(ids, IdSet(ids))).cache, c);
            "status" in f && f["status"] == "0" && "job_id" in f && f["job_id"] == ""
  {
    assert Itoa(0) == "0" && Itoa(1) == "1";
  }

  /** A discovery that reaches the cache for every card repairs it, whatever it held: a
      card that is idle or has a job is recorded as it is. */
  lemma SyncRepairs(g: Gpus, infos: seq<Info>, told: set<int>, c: int)
    requires var rows := Apply(g, Sync(infos, told)).rows;
             c in rows && (!rows[c].busy || rows[c].job.Some?) && Reported(rows[c], infos, told)
    ensures var g' := Apply(g, Sync(infos, told));
            (SaysIdle(g'.cache, c) <==> !g'.rows[c].busy) && (SaysBusy(g'.cache, c) <==> g'.rows[c].busy)
  {
    var rows := Upserted(g.rows, infos);
    var ids := set d | d in rows && Fresh(rows[d], infos, told);
    assert c in ids;
    StampedSays(rows, g.cache, ids, c);
    assert "status" in RowHash(rows[c]);
    assert "status" in Fields(Stamped(rows, g.cache, ids), c);
  }

  /** What one write leaves in the cache about a card. */
  lemma WrittenSays(cache: Cache, ids: set<int>, fields: Hash, c: int)
    requires "status" in fields
    ensures c in ids ==> (SaysIdle(Written(cache, ids, fields), c) <==> fields["status"] == Itoa(0))
    ensures c !in ids ==> Fields(Written(cache, ids, fields), c) == Fields(cache, c)
  {
  }

  lemma StampedSays(rows: Rows, cache: Cache, ids: set<int>, c: int)
    requires ids <= rows.Keys && forall d :: d in ids ==> !rows[d].busy || rows[d].job.Some?
    ensures c in ids ==> (SaysIdle(Stamped(rows, cache, ids), c) <==> !rows[c].busy)
    ensures c !in ids ==> Fields(Stamped(rows, cache, ids), c) == Fields(cache, c)
  {
    assert Itoa(0) == "0" && Itoa(1) == "1";
  }

  lemma SoundSync(g: Gpus, infos: seq<Info>, heard: set<int>)
    requires CacheSound(g)
    ensures CacheSound(Apply(g, Sync(infos, heard)))
  {
    var rows := Upserted(g.rows, infos);
    UpsertedKeeps(g.rows, infos);
    var told := set d | d in rows && Fresh(rows[d], infos, heard);
    forall c | SaysBusy(Stamped(rows, g.cache, told), c) ensures c in rows && rows[c].busy {
      StampedSays(rows, g.cache, told, c);
      assert c !in told ==> SaysBusy(g.cache, c);
    }
  }

  /** The only call that can make a record wrong: a release whose write about a card that
      is recorded as busy is lost. */
  ghost predicate SafeOp(g: Gpus, op: Op) {
    op.Release? ==> forall c :: c in IdSet(op.ids) - op.wrote ==> !SaysBusy(g.cache, c)
  }

  lemma ReleaseSoundExactly(g: Gpus, ids: seq<int>, wrote: set<int>)
    requires CacheSound(g)
    ensures CacheSound(Apply(g, Release(ids, wrote))) <==> SafeOp(g, Release(ids, wrote))
  {
    var g' := Apply(g, Release(ids, wrote));
    forall c
      ensures SaysBusy(g'.cache, c) <==> SaysBusy(g.cache, c) && c !in IdSet(ids) * wrote
      ensures SaysBusy(g.cache, c) ==> (c in g'.rows && g'.rows[c].busy <==> c !in ids)
    {
      WrittenSays(g.cache, IdSet(ids) * wrote, IDLE_HASH, c);
    }
    if c :| c in IdSet(ids) - wrote && SaysBusy(g.cache, c) {
      assert SaysBusy(g'.cache, c) && c in ids;
    }
  }

  lemma AcquireSound(g: Gpus, ids: seq<int>, job: int, wrote: set<int>)
    requires CacheSound(g)
    ensures CacheSound(Apply(g, Acquire(ids, job, wrote)))
  {
    CountTestExact(g.rows, ids);
    forall c | SaysBusy(Written(g.cache, IdSet(ids) * wrote, BusyHash(job)), c)
      ensures c in ids || SaysBusy(g.cache, c)
    {
      WrittenSays(g.cache, IdSet(ids) * wrote, BusyHash(job), c);
    }
  }

  lemma SoundStepExactly(g: Gpus, op: Op)
    requires CacheSound(g)
    ensures CacheSound(Apply(g, op)) <==> SafeOp(g, op)
  {
    match op
    case Acquire(ids, job, wrote) => AcquireSound(g, ids, job, wrote);
    case Release(ids, wrote) => ReleaseSoundExactly(g, ids, wrote);
    case Sync(infos, told) => SoundSync(g, infos, told);
    case Expire(id) =>
  }

  lemma RunMore(g: Gpus, ops: seq<Op>, n: nat)
    requires n < |ops|
    ensures Run(g, ops[..n + 1]) == Apply(Run(g, ops[..n]), ops[n])
  {
    assert ops[..n + 1][..n] == ops[..n];
  }

  ghost predicate CacheSoundUpTo(g: Gpus, ops: seq<Op>, k: nat)
    requires k <= |ops|
  {
    forall n :: 0 <= n <= k ==> CacheSound(Run(g, ops[..n]))
  }

  ghost predicate CacheSafeUpTo(g: Gpus, ops: seq<Op>, k: nat)
    requires k <= |ops|
  {
    forall n :: 0 <= n < k ==> SafeOp(Run(g, ops[..n]), ops[n])
  }

  /** Over every run of acquire, release, sync and key expiry at any moment, with any lost
      writes: a card recorded as busy is busy at every moment exactly when no release lost
      its write about a card recorded as busy. */
  lemma {:induction false} SoundRunExactly(g: Gpus, ops: seq<Op>, k: nat)
    requires CacheSound(g) && k <= |ops|
    ensures CacheSoundUpTo(g, ops, k) <==> CacheSafeUpTo(g, ops, k)
  {
    if k == 0 {
      assert ops[..0] == [];
    } else {
      var n := k - 1;
      SoundRunExactly(g, ops, n);
      RunStepSound(g, ops, n);
      UpToMore(g, ops, n);
    }
  }

  lemma RunStepSound(g: Gpus, ops: seq<Op>, n: nat)
    requires n < |ops|
    ensures CacheSound(Run(g, ops[..n])) ==> (CacheSound(Run(g, ops[..n + 1])) <==> SafeOp(Run(g, ops[..n]), ops[n]))
  {
    RunMore(g, ops, n);
    if CacheSound(Run(g, ops[..n])) { SoundStepExactly(Run(g, ops[..n]), ops[n]); }
  }

  lemma {:induction false} UpToMore(g: Gpus, ops: seq<Op>, n: nat)
    requires n < |ops|
    ensures CacheSoundUpTo(g, ops, n + 1) <==> CacheSoundUpTo(g, ops, n) && CacheSound(Run(g, ops[..n + 1]))
    ensures CacheSafeUpTo(g, ops, n + 1) <==> CacheSafeUpTo(g, ops, n) && SafeOp(Run(g, ops[..n]), ops[n])
  {
  }

  /** What the service answers when the cache can be reached. */
  ghost predicate ServiceAnswer(g: Gpus, ids: seq<int>) {
    !Denies(g.cache, ids) && CountTest(g.rows, ids)
  }

  /** Cache in front or not, the answers are the same for every card list exactly
      when no idle card is recorded as busy. */
  lemma AnswersAgreeExactly(g: Gpus)
    ensures (forall ids :: ServiceAnswer(g, ids) == CountTest(g.rows, ids))
            <==> (forall c :: c in g.rows && !g.rows[c].busy ==> !SaysBusy(g.cache, c))
  {
    if forall c :: c in g.rows && !g.rows[c].busy ==> !SaysBusy(g.cache, c) {
      forall ids ensures ServiceAnswer(g, ids) == CountTest(g.rows, ids) {
        CountTestExact(g.rows, ids);
      }
    } else {
      var c :| c in g.rows && !g.rows[c].busy && SaysBusy(g.cache, c);
      CountTestExact(g.rows, [c]);
      assert [c][0] == c;
      assert Denies(g.cache, [c]);
      assert ServiceAnswer(g, [c]) != CountTest(g.rows, [c]);
    }
  }

  /** So in such a run the cache never changes an answer. */
  lemma RunAnswers(g: Gpus, ops: seq<Op>, k: nat, ids: seq<int>)
    requires CacheSound(g) && k <= |ops| && CacheSafeUpTo(g, ops, k)
    ensures ServiceAnswer(Run(g, ops[..k]), ids) == CountTest(Run(g, ops[..k]).rows, ids)
  {
    SoundRunExactly(g, ops, k);
    assert CacheSound(Run(g, ops[..k]));
    AnswersAgreeExactly(Run(g, ops[..k]));
  }

  /** One lost cache write is enough to refuse an idle card: a release whose SetIdle
      does not arrive leaves the record of the last job in place. */
  lemma LostIdleWriteRefuses(job: int)
    ensures var g := Gpus(map[7 := Card("u", true, Some(job))], map[7 := BusyHash(job)]);
            var g' := g.(rows := Freed(g.rows, {7}));
            CacheSound(g) && CountTest(g'.rows, [7]) && !ServiceAnswer(g', [7])
  {
    var g := Gpus(map[7 := Card("u", true, Some(job))], map[7 := BusyHash(job)]);
    var g' := g.(rows := Freed(g.rows, {7}));
    assert Itoa(0) == "0" && Itoa(1) == "1";
    assert "status" in BusyHash(job) && BusyHash(job)["status"] == "1";
    assert g'.cache[7] == BusyHash(job);
    assert SaysBusy(g'.cache, [7][0]);
    CountTestExact(g'.rows, [7]);
  }

  // --------------------------------------------------------------- the service

  class GpuService {
    var rows: Rows
    var cache: Cache

    ghost function State(): Gpus reads this { Gpus(rows, cache) }

    constructor (rows: Rows, cache: Cache)
      ensures State() == Gpus(rows, cache)
    {
      this.rows, this.cache := rows, cache;
    }

    /** The repository's transaction: all or nothing. `db`: the database answers. */
    method Acquire(ids: seq<int>, job: int, db: bool) returns (ok: bool)
      modifies `rows
      ensures ok <==> (ids == [] || db) && NoDup(ids) && AllIdle(old(rows), ids)
      ensures rows == if ok then Held(old(rows), ids, job) else old(rows)
    {
      CountTestExact(rows, ids);
      if |ids| == 0 {
        assert Held(rows, ids, job) == rows;
        return true;
      }
      if !db { return false; }
      var count := |IdleAmong(rows, ids)|;
      if count != |ids| { return false; }
      rows := map c | c in rows :: if c in ids then rows[c].(busy := true, job := Some(job)) else rows[c];
      return true;
    }

    method CacheCheckAvailable(ids: seq<int>, reachable: bool) returns (a: Answer)
      ensures a.Unavailable? <==> reachable && Denies(cache, ids)
      ensures a.Available? <==> (ids == [] || reachable) && forall i :: 0 <= i < |ids| ==> SaysIdle(cache, ids[i])
    {
      if |ids| == 0 { return Available; }
      if !reachable { return Unknown; }
      for k := 0 to |ids|
        invariant forall i :: 0 <= i < k ==> SaysIdle(cache, ids[i])
      {
        var res := Fields(cache, ids[k]);
        if res == map[] { return Unknown; }
        if "status" !in res || res["status"] != Itoa(0) {
          assert SaysBusy(cache, ids[k]);
          return Unavailable;
        }
      }
      return Available;
    }

    /** Yes only if the table says so; no when the table says no or the cache is
        certain. A miss or an unreachable cache leaves the decision to the table. */
    method CheckAvailable(ids: seq<int>, reachable: bool, db: bool) returns (ok: Option<bool>)
      ensures ok.None? <==> !(reachable && Denies(cache, ids)) && ids != [] && !db
      ensures ok == Some(true) <==>
                !(reachable && Denies(cache, ids)) && (ids == [] || db) && NoDup(ids) && AllIdle(rows, ids)
    {
      CountTestExact(rows, ids);
      var a := CacheCheckAvailable(ids, reachable);
      if a.Unavailable? { return Some(false); }
      if |ids| == 0 { return Some(true); }
      if !db { return None; }
      return Some(|IdleAmong(rows, ids)| == |ids|);
    }

    /** `wrote` is the set of cards whose cache write succeeds. */
    method AcquireCards(ids: seq<int>, job: int, db: bool, wrote: set<int>) returns (ok: bool)
      modifies this
      ensures ok <==> ids != [] && db && NoDup(ids) && AllIdle(old(rows), ids)
      ensures State() == if db then Apply(old(State()), Op.Acquire(ids, job, wrote)) else old(State())
      ensures !ok ==> State() == old(State())
    {
      if |ids| == 0 { return false; }
      CountTestExact(rows, ids);
      ok := Acquire(ids, job, db);
      if !ok { return false; }
      cache := WriteAll(ids, wrote, BusyHash(job));
    }

    /** A failed update leaves table and cache alone; after a successful one the cache
        follows for the cards in `wrote`. */
    method ReleaseCards(ids: seq<int>, db: bool, wrote: set<int>) returns (ok: bool)
      modifies this
      ensures ok <==> ids == [] || db
      ensures !ok ==> State() == old(State())
      ensures ok ==> State() == Apply(old(State()), Op.Release(ids, wrote))
    {
      if |ids| == 0 {
        NothingFreed(rows, cache, wrote);
        return true;
      }
      if !db { return false; }
      rows := map c | c in rows :: if c in ids then rows[c].(busy := false, job := None) else rows[c];
      cache := WriteAll(ids, wrote, IDLE_HASH);
      return true;
    }

    /** The loops over SetBusy and SetIdle. */
    method WriteAll(ids: seq<int>, wrote: set<int>, fields: Hash) returns (c: Cache)
      ensures c == Written(cache, IdSet(ids) * wrote, fields)
    {
      c := cache;
      for i := 0 to |ids|
        invariant c == Written(cache, IdSet(ids[..i]) * wrote, fields)
      {
        assert IdSet(ids[..i + 1]) == IdSet(ids[..i]) + {ids[i]};
        if ids[i] in wrote {
          WrittenOnce(cache, IdSet(ids[..i]) * wrote, ids[i], fields);
          assert IdSet(ids[..i + 1]) * wrote == IdSet(ids[..i]) * wrote + {ids[i]};
          c := c[ids[i] := Fields(c, ids[i]) + fields];
        } else {
          assert IdSet(ids[..i + 1]) * wrote == IdSet(ids[..i]) * wrote;
        }
      }
      assert ids[..|ids|] == ids;
    }

    /** Cards found in the machine: new ones are inserted idle, and the cache is
        refreshed from the rows as far as the loop gets. */
    method SyncGpuCards(infos: seq<Info>, db: bool, told: set<int>) returns (ok: bool)
      requires UniqueUuids(rows)
      modifies this
      ensures ok <==> infos == [] || db
      ensures State() == if ok then Apply(old(State()), Sync(infos, told)) else old(State())
      ensures UniqueUuids(rows)
    {
      if |infos| == 0 {
        assert Refreshed(rows, cache, infos, told) == cache;
        return true;
      }
      ok := SyncCards(infos, db);
      if !ok { return false; }
      RefreshCache(infos, told);
    }

    /** The repository's upsert. */
    method SyncCards(infos: seq<Info>, db: bool) returns (ok: bool)
      requires UniqueUuids(rows)
      modifies `rows
      ensures ok <==> infos == [] || db
      ensures rows == (if ok then Upserted(old(rows), infos) else old(rows)) && UniqueUuids(rows)
    {
      if |infos| == 0 { return true; }
      if !db { return false; }
      for i := 0 to |infos|
        invariant rows == Upserted(old(rows), infos[..i]) && UniqueUuids(rows)
      {
        assert infos[..i + 1][..i] == infos[..i];
        if !(exists c :: c in rows && rows[c].uuid == infos[i].uuid) && infos[i].newId !in rows {
          rows := rows[infos[i].newId := Card(infos[i].uuid, false, None)];
        }
      }
      assert infos[..|infos|] == infos;
      return true;
    }

    method RefreshCache(infos: seq<Info>, told: set<int>)
      requires UniqueUuids(rows)
      modifies `cache
      ensures cache == Refreshed(rows, old(cache), infos, told)
    {
      NobodyToldYet(rows, cache, infos, told);
      for i := 0 to |infos|
        invariant cache == Refreshed(rows, old(cache), infos, Below(told, i))
      {
        if i !in told {
          assert Below(told, i + 1) == Below(told, i);
        } else if c :| c in rows && rows[c].uuid == infos[i].uuid {
          RefreshedMore(rows, old(cache), infos, told, i, c);
          if !rows[c].busy {
            cache := cache[c := Fields(cache, c) + IDLE_HASH];
          } else if rows[c].job.Some? {
            cache := cache[c := Fields(cache, c) + BusyHash(rows[c].job.value)];
          }
        } else {
          RefreshedSame(rows, old(cache), infos, told, i);
        }
      }
      AllTold(rows, old(cache), infos, told);
    }
  }

  lemma NothingFreed(rows: Rows, cache: Cache, wrote: set<int>)
    ensures Freed(rows, IdSet([])) == rows && Written(cache, IdSet([]) * wrote, IDLE_HASH) == cache
  {
  }

  function Below(told: set<int>, i: int): set<int> {
    set k | k in told && k < i
  }

  lemma NobodyToldYet(rows: Rows, cache: Cache, infos: seq<Info>, told: set<int>)
    ensures Refreshed(rows, cache, infos, Below(told, 0)) == cache
  {
    assert (set d | d in rows && Fresh(rows[d], infos, Below(told, 0))) == {};
  }

  lemma AllTold(rows: Rows, cache: Cache, infos: seq<Info>, told: set<int>)
    ensures Refreshed(rows, cache, infos, Below(told, |infos|)) == Refreshed(rows, cache, infos, told)
  {
    forall d | d in rows ensures Fresh(rows[d], infos, Below(told, |infos|)) <==> Fresh(rows[d], infos, told) {
      if Reported(rows[d], infos, told) {
        var i :| i in told && 0 <= i < |infos| && infos[i].uuid == rows[d].uuid;
        assert i in Below(told, |infos|);
      }
    }
    assert (set d | d in rows && Fresh(rows[d], infos, Below(told, |infos|)))
        == (set d | d in rows && Fresh(rows[d], infos, told));
  }

  lemma WrittenOnce(cache: Cache, ids: set<int>, id: int, fields: Hash)
    ensures var w := Written(cache, ids, fields);
            w[id := Fields(w, id) + fields] == Written(cache, ids + {id}, fields)
  {
    assert Fields(cache, id) + fields + fields == Fields(cache, id) + fields;
  }

  lemma ReportedMore(card: Card, infos: seq<Info>, told: set<int>, i: nat)
    requires i < |infos| && i in told
    ensures Reported(card, infos, Below(told, i + 1))
            <==> Reported(card, infos, Below(told, i)) || card.uuid == infos[i].uuid
  {
    if card.uuid == infos[i].uuid { assert i in Below(told, i + 1); }
    if Reported(card, infos, Below(told, i)) {
      var k :| k in Below(told, i) && 0 <= k < |infos| && infos[k].uuid == card.uuid;
      assert k in Below(told, i + 1);
    }
    if Reported(card, infos, Below(told, i + 1)) && card.uuid != infos[i].uuid {
      var k :| k in Below(told, i + 1) && 0 <= k < |infos| && infos[k].uuid == card.uuid;
      assert k in Below(told, i);
    }
  }

  lemma RefreshedSame(rows: Rows, cache: Cache, infos: seq<Info>, told: set<int>, i: nat)
    requires i < |infos| && i in told && !Known(rows, infos[i].uuid)
    ensures Refreshed(rows, cache, infos, Below(told, i + 1)) == Refreshed(rows, cache, infos, Below(told, i))
  {
    forall c | c in rows ensures Fresh(rows[c], infos, Below(told, i + 1)) <==> Fresh(rows[c], infos, Below(told, i)) {
      ReportedMore(rows[c], infos, told, i);
    }
    assert (set d | d in rows && Fresh(rows[d], infos, Below(told, i + 1)))
        == (set d | d in rows && Fresh(rows[d], infos, Below(told, i)));
  }

  lemma StampedOnce(rows: Rows, cache: Cache, ids: set<int>, c: int)
    requires ids <= rows.Keys && c in rows
    ensures var r := Stamped(rows, cache, ids);
            r[c := Fields(r, c) + RowHash(rows[c])] == Stamped(rows, cache, ids + {c})
  {
    var h := RowHash(rows[c]);
    assert Fields(cache, c) + h + h == Fields(cache, c) + h;
  }

  lemma RefreshedMore(rows: Rows, cache: Cache, infos: seq<Info>, told: set<int>, i: nat, c: int)
    requires i < |infos| && i in told && UniqueUuids(rows) && c in rows && rows[c].uuid == infos[i].uuid
    ensures var r := Refreshed(rows, cache, infos, Below(told, i));
            Refreshed(rows, cache, infos, Below(told, i + 1))
            == if !rows[c].busy || rows[c].job.Some? then r[c := Fields(r, c) + RowHash(rows[c])] else r
  {
    var ids := set d | d in rows && Fresh(rows[d], infos, Below(told, i));
    var ids' := set d | d in rows && Fresh(rows[d], infos, Below(told, i + 1));
    forall d | d in rows
      ensures Reported(rows[d], infos, Below(told, i + 1)) <==> Reported(rows[d], infos, Below(told, i)) || d == c
    {
      ReportedMore(rows[d], infos, told, i);
    }
    if !rows[c].busy || rows[c].job.Some? {
      assert ids' == ids + {c};
      StampedOnce(rows, cache, ids, c);
    } else {
      assert ids' == ids;
    }
  }
}
