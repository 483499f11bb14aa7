/** The map of open terminal sessions and everything that may close one: reconnects,
    the Wait callback, per-user and global closing, idle cleanup. Each lock-protected
    section is one step; closing a session is a later step than taking it out. */
module TerminalRegistry {
  import opened Text

  // ------------------------------------------------------------------------ keys

  datatype Owner = Owner(user: int, root: bool)

  /** fmt.Sprintf("%d:%v", userID, isRoot). */
  function KeyOf(o: Owner): string {
    Itoa(o.user) + ":" + if o.root then "true" else "false"
  }

  predicate HasPrefix(s: string, p: string) {
    |p| <= |s| && s[..|p|] == p
  }

  lemma ItoaHasNoColon(n: int)
    ensures ':' !in Itoa(n)
  {
    var s := Itoa(n);
    assert forall i :: 1 <= i < |s| ==> s[i] == s[1..][i - 1];
  }

  /** Two strings without a colon, each followed by one: equal as far as the first. */
  lemma ColonSeparates(a: string, b: string, rest: string)
    requires ':' !in a && ':' !in b
    ensures HasPrefix(b + ":" + rest, a + ":") <==> a == b
  {
    var s, p := b + ":" + rest, a + ":";
    assert s[|b|] == ':' && p[|a|] == ':';
    assert forall i :: 0 <= i < |b| ==> s[i] == b[i];
    assert forall i :: 0 <= i < |a| ==> p[i] == a[i];
    if HasPrefix(s, p) {
      assert forall i :: 0 <= i < |p| ==> s[i] == p[i];
      assert |a| == |b|;
      assert a == b;
    }
    if a == b { assert s[..|p|] == p; }
  }

  /** The prefix "u:" selects the keys of user u and no others. */
  lemma PrefixSelectsUser(o: Owner, user: int)
    ensures HasPrefix(KeyOf(o), Itoa(user) + ":") <==> o.user == user
  {
    ItoaHasNoColon(user);
    ItoaHasNoColon(o.user);
    ColonSeparates(Itoa(user), Itoa(o.user), if o.root then "true" else "false");
    if Itoa(user) == Itoa(o.user) { ItoaInjective(user, o.user); }
  }

  lemma KeysDistinct(a: Owner, b: Owner)
    requires KeyOf(a) == KeyOf(b)
    ensures a == b
  {
    PrefixSelectsUser(a, b.user);
    PrefixSelectsUser(b, b.user);
    var n := |Itoa(a.user)|;
    assert KeyOf(a)[n + 1..] == if a.root then "true" else "false";
    assert KeyOf(b)[n + 1..] == if b.root then "true" else "false";
    assert "true"[0] != "false"[0];
  }

  // ----------------------------------------------------------------------- state

  datatype Registry = Registry(
    sessions: map<string, nat>,
    keys: map<nat, string>,     // the key of every session ever created
    owners: map<nat, Owner>,
    active: map<nat, int>,      // LastActive
    closing: set<nat>,          // taken out of the map, close() still to run
    closed: set<nat>,
    idle: set<string>,          // keys that a cleanup round has collected
    now: int)

  /** 30 minutes, in milliseconds. */
  const TIMEOUT := 1_800_000

  datatype Step =
    | Open(owner: Owner, connected: bool, id: nat)
    | Detach(owner: Owner)
    | WaitReturns(session: nat)
    | DetachUser(user: int)
    | DetachAll
    | CollectIdle
    | DetachIdle(key: string)
    | FinishClose(done: nat)
    | Touch(used: nat)
    | Pass(time: int)

  predicate InMap(r: Registry, id: nat) {
    id in r.keys && r.keys[id] in r.sessions && r.sessions[r.keys[id]] == id
  }

  predicate IsIdle(r: Registry, id: nat) {
    id in r.active && r.now - r.active[id] > TIMEOUT
  }

  function IdleKeys(r: Registry): set<string> {
    set k | k in r.sessions && IsIdle(r, r.sessions[k])
  }

  function TakeOut(r: Registry, keys: set<string>): Registry {
    var ids := set k | k in r.sessions && k in keys :: r.sessions[k];
    r.(sessions := r.sessions - keys, closing := r.closing + ids)
  }

  function KeysOfUser(r: Registry, user: int): set<string> {
    set k | k in r.sessions && HasPrefix(k, Itoa(user) + ":")
  }

  /** getOrCreateTerminalSession: an open session is reused, a closed one dropped. */
  function Opened(r: Registry, o: Owner, connected: bool, id: nat): Registry {
    var k := KeyOf(o);
    if k in r.sessions && r.sessions[k] !in r.closed then r
    else
      var kept := r.(sessions := r.sessions - {k});
      if !connected then kept
      else kept.(sessions := kept.sessions[k := id], keys := kept.keys[id := k], owners := kept.owners[id := o],
                 active := kept.active[id := r.now])
  }

  function Apply(r: Registry, s: Step): Registry {
    match s
    case Open(o, connected, id) => Opened(r, o, connected, id)
    case Detach(o) => TakeOut(r, {KeyOf(o)})
    case WaitReturns(id) =>
      if InMap(r, id) then TakeOut(r, {r.keys[id]}) else r
    case DetachUser(user) => TakeOut(r, KeysOfUser(r, user))
    case DetachAll => TakeOut(r, r.sessions.Keys)
    case CollectIdle => r.(idle := IdleKeys(r))
    case DetachIdle(k) => TakeOut(r, {k}).(idle := r.idle - {k})
    case FinishClose(id) => r.(closing := r.closing - {id}, closed := r.closed + {id})
    case Touch(id) => r.(active := r.active[id := r.now])
    case Pass(time) => r.(now := r.now + time)
  }

  /** New sessions are new; only detached sessions are closed; cleanup goes by its list. */
  predicate Enabled(r: Registry, s: Step) {
    match s
    case Open(_, _, id) => id !in r.keys
    case DetachIdle(k) => k in r.idle
    case FinishClose(id) => id in r.closing
    case Touch(id) => id in r.keys
    case Pass(time) => time >= 0
    case _ => true
  }

  // ------------------------------------------------------------------- invariant

  /** Every session ever created is in exactly one place: the map, under its own key; on
      its way to being closed; or closed. */
  ghost predicate Placed(r: Registry) {
    && (forall k :: k in r.sessions ==> r.sessions[k] in r.keys && r.keys[r.sessions[k]] == k)
    && (forall id :: id in r.keys ==> InMap(r, id) || id in r.closing || id in r.closed)
    && (forall id :: id in r.closing || id in r.closed ==> id in r.keys && !InMap(r, id))
    && r.closing !! r.closed
  }

  /** Keys are made of their owners. */
  ghost predicate Named(keys: map<nat, string>, owners: map<nat, Owner>) {
    keys.Keys == owners.Keys && forall id :: id in keys ==> keys[id] == KeyOf(owners[id])
  }

  ghost predicate Inv(r: Registry) {
    Placed(r) && Named(r.keys, r.owners) && r.keys.Keys == r.active.Keys
  }

  /** Where taking out leaves one session. */
  lemma TakeOutOne(r: Registry, keys: set<string>, id: nat)
    requires Placed(r)
    ensures id in TakeOut(r, keys).closing <==> id in r.closing || (InMap(r, id) && r.keys[id] in keys)
    ensures InMap(TakeOut(r, keys), id) <==> InMap(r, id) && r.keys[id] !in keys
  {
    if InMap(r, id) && r.keys[id] in keys {
      var k := r.keys[id];
      assert k in r.sessions && k in keys && r.sessions[k] == id;
    }
  }

  lemma TakeOutInv(r: Registry, keys: set<string>)
    requires Inv(r)
    ensures Inv(TakeOut(r, keys))
    ensures forall id :: id in TakeOut(r, keys).closing <==> id in r.closing || (InMap(r, id) && r.keys[id] in keys)
  {
    var r' := TakeOut(r, keys);
    forall id: nat
      ensures id in r'.closing <==> id in r.closing || (InMap(r, id) && r.keys[id] in keys)
      ensures InMap(r', id) <==> InMap(r, id) && r.keys[id] !in keys
    {
      TakeOutOne(r, keys, id);
    }
  }

  lemma OpenInv(r: Registry, o: Owner, connected: bool, id: nat)
    requires Inv(r) && id !in r.keys
    ensures Inv(Opened(r, o, connected, id))
  {
    var k := KeyOf(o);
    if k !in r.sessions {
      assert r.sessions - {k} == r.sessions;
      if connected { AddedInv(r, Opened(r, o, connected, id), k, o, id); }
    } else {
      assert r.sessions[k] !in r.closed;
    }
  }

  lemma AddedInv(r: Registry, r': Registry, k: string, o: Owner, id: nat)
    requires Inv(r) && id !in r.keys && k !in r.sessions && k == KeyOf(o)
    requires r' == r.(sessions := r.sessions[k := id], keys := r.keys[id := k], owners := r.owners[id := o],
                      active := r.active[id := r.now])
    ensures Inv(r')
  {
    AddedPlaced(r, r', k, id);
    AddedNamed(r.keys, r.owners, id, k, o);
  }

  lemma AddedPlaced(r: Registry, r': Registry, k: string, id: nat)
    requires Placed(r) && id !in r.keys && k !in r.sessions
    requires r'.sessions == r.sessions[k := id] && r'.keys == r.keys[id := k]
    requires r'.closing == r.closing && r'.closed == r.closed
    ensures Placed(r')
  {
    forall i: nat ensures InMap(r', i) <==> i == id || InMap(r, i) {}
  }

  lemma AddedNamed(keys: map<nat, string>, owners: map<nat, Owner>, id: nat, k: string, o: Owner)
    requires Named(keys, owners) && k == KeyOf(o)
    ensures Named(keys[id := k], owners[id := o])
  {
  }

  lemma StepInv(r: Registry, s: Step)
    requires Inv(r) && Enabled(r, s)
    ensures Inv(Apply(r, s))
  {
    match s
    case Open(o, connected, id) => OpenInv(r, o, connected, id);
    case Detach(o) => TakeOutInv(r, {KeyOf(o)});
    case WaitReturns(id) => if InMap(r, id) { TakeOutInv(r, {r.keys[id]}); }
    case DetachUser(user) => TakeOutInv(r, KeysOfUser(r, user));
    case DetachAll => TakeOutInv(r, r.sessions.Keys);
    case CollectIdle => SameMapInv(r, Apply(r, s));
    case DetachIdle(k) =>
      TakeOutInv(r, {k});
      SameMapInv(TakeOut(r, {k}), Apply(r, s));
    case FinishClose(id) => CloseInv(r, id);
    case Touch(id) =>
      assert r.active.Keys + {id} == r.active.Keys;
      SameMapInv(r, Apply(r, s));
    case Pass(_) => SameMapInv(r, Apply(r, s));
  }

  lemma CloseInv(r: Registry, id: nat)
    requires Inv(r) && id in r.closing
    ensures Inv(Apply(r, FinishClose(id)))
  {
    ClosePlaced(r, id);
  }

  lemma ClosePlaced(r: Registry, id: nat)
    requires Placed(r) && id in r.closing
    ensures Placed(Apply(r, FinishClose(id)))
  {
    var r' := Apply(r, FinishClose(id));
    forall i: nat ensures InMap(r', i) <==> InMap(r, i) {}
  }

  lemma SameMapInv(r: Registry, r': Registry)
    requires Inv(r) && r'.active.Keys == r.active.Keys && r'.sessions == r.sessions && r'.keys == r.keys
    requires r'.owners == r.owners && r'.closing == r.closing && r'.closed == r.closed
    ensures Inv(r')
  {
    assert forall id :: InMap(r', id) <==> InMap(r, id);
  }

  const EMPTY := Registry(map[], map[], map[], map[], {}, {}, {}, 0)

  ghost predicate IsRun(trace: seq<Registry>, steps: seq<Step>) {
    && |trace| == |steps| + 1 && trace[0] == EMPTY
    && forall i :: 0 <= i < |steps| ==> Enabled(trace[i], steps[i]) && trace[i + 1] == Apply(trace[i], steps[i])
  }

  lemma {:induction false} RunInv(trace: seq<Registry>, steps: seq<Step>, k: nat)
    requires IsRun(trace, steps) && k < |trace|
    ensures Inv(trace[k])
  {
    if k > 0 {
      RunInv(trace, steps, k - 1);
      StepInv(trace[k - 1], steps[k - 1]);
    }
  }

  // -------------------------------------------------------------------- theorems

  /** Over every run, between and after racing closers: when no close is under way, each
      session ever created is either open and in the map under its own key, or closed and
      absent; and no closed session is ever found in the map. */
  lemma OpenXorClosed(trace: seq<Registry>, steps: seq<Step>, k: nat, id: nat)
    requires IsRun(trace, steps) && k < |trace| && id in trace[k].keys
    ensures id in trace[k].closed ==> !InMap(trace[k], id)
    ensures trace[k].closing == {} ==> (InMap(trace[k], id) <==> id !in trace[k].closed)
    ensures forall key :: key in trace[k].sessions ==> trace[k].sessions[key] !in trace[k].closed
  {
    RunInv(trace, steps, k);
  }

  /** The callback of an old session leaves every other session where it is. */
  lemma WaitSparesSuccessor(trace: seq<Registry>, steps: seq<Step>, k: nat, old_: nat, other: nat)
    requires IsRun(trace, steps) && k < |trace| && other != old_
    ensures InMap(Apply(trace[k], WaitReturns(old_)), other) <==> InMap(trace[k], other)
    ensures other in Apply(trace[k], WaitReturns(old_)).closing <==> other in trace[k].closing
  {
    RunInv(trace, steps, k);
    if InMap(trace[k], old_) {
      TakeOutInv(trace[k], {trace[k].keys[old_]});
    }
  }

  /** It does take out its own, if that is still there. */
  lemma WaitTakesOwn(trace: seq<Registry>, steps: seq<Step>, k: nat, id: nat)
    requires IsRun(trace, steps) && k < |trace| && InMap(trace[k], id)
    ensures var r := Apply(trace[k], WaitReturns(id)); !InMap(r, id) && id in r.closing
  {
    RunInv(trace, steps, k);
    TakeOutOne(trace[k], {trace[k].keys[id]}, id);
  }

  /** Closing everything takes out every session. */
  lemma DetachAllEmpties(trace: seq<Registry>, steps: seq<Step>, k: nat, id: nat)
    requires IsRun(trace, steps) && k < |trace|
    ensures var r := Apply(trace[k], DetachAll);
            r.sessions == map[] && !InMap(r, id) && (InMap(trace[k], id) ==> id in r.closing)
  {
    RunInv(trace, steps, k);
    TakeOutOne(trace[k], trace[k].sessions.Keys, id);
    assert trace[k].sessions - trace[k].sessions.Keys == map[];
  }

  /** Closing user u takes out exactly u's sessions. */
  lemma DetachUserExactly(trace: seq<Registry>, steps: seq<Step>, k: nat, user: int, id: nat)
    requires IsRun(trace, steps) && k < |trace| && InMap(trace[k], id)
    ensures id in trace[k].owners
    ensures InMap(Apply(trace[k], DetachUser(user)), id) <==> trace[k].owners[id].user != user
    ensures id in Apply(trace[k], DetachUser(user)).closing <==> trace[k].owners[id].user == user
  {
    RunInv(trace, steps, k);
    UserTakenOut(trace[k], user, id);
  }

  lemma UserTakenOut(r: Registry, user: int, id: nat)
    requires Inv(r) && InMap(r, id)
    ensures id in r.owners
    ensures InMap(Apply(r, DetachUser(user)), id) <==> r.owners[id].user != user
    ensures id in Apply(r, DetachUser(user)).closing <==> r.owners[id].user == user
  {
    KeyOfUser(r, user, id);
    TakeOutOne(r, KeysOfUser(r, user), id);
  }

  lemma KeyOfUser(r: Registry, user: int, id: nat)
    requires Named(r.keys, r.owners) && InMap(r, id)
    ensures id in r.owners && (r.keys[id] in KeysOfUser(r, user) <==> r.owners[id].user == user)
  {
    PrefixSelectsUser(r.owners[id], user);
  }

  // ---------------------------------------------------------------- idle cleanup

  lemma {:induction false} TimePasses(trace: seq<Registry>, steps: seq<Step>, a: nat, b: nat)
    requires IsRun(trace, steps) && a <= b < |trace|
    ensures trace[a].now <= trace[b].now
  {
    if a < b { TimePasses(trace, steps, a, b - 1); }
  }

  /** Sessions keep their key, and one that is out of the map stays out. */
  lemma SessionStep(r: Registry, s: Step, id: nat)
    requires Enabled(r, s) && id in r.keys && r.keys.Keys == r.active.Keys
    ensures var r' := Apply(r, s);
            && id in r'.keys && r'.keys[id] == r.keys[id]
            && (InMap(r', id) ==> InMap(r, id))
            && (s != Touch(id) ==> r'.active[id] == r.active[id])
  {
  }

  ghost predicate KeepsSession(r: Registry, r': Registry, id: nat) {
    id in r.keys && id in r'.keys && r'.keys[id] == r.keys[id] && (InMap(r', id) ==> InMap(r, id))
  }

  ghost predicate SameActive(r: Registry, r': Registry, id: nat) {
    id in r.active && id in r'.active && r'.active[id] == r.active[id]
  }

  lemma RunSessionStep(trace: seq<Registry>, steps: seq<Step>, n: nat, id: nat)
    requires IsRun(trace, steps) && n < |steps| && id in trace[n].keys
    ensures KeepsSession(trace[n], trace[n + 1], id)
    ensures steps[n] != Touch(id) ==> SameActive(trace[n], trace[n + 1], id)
  {
    RunInv(trace, steps, n);
    SessionStep(trace[n], steps[n], id);
  }

  lemma {:induction false} SessionRun(trace: seq<Registry>, steps: seq<Step>, a: nat, b: nat, id: nat)
    requires IsRun(trace, steps) && a <= b < |trace| && id in trace[a].keys
    ensures KeepsSession(trace[a], trace[b], id)
  {
    forall n | a <= n < b && id in trace[n].keys ensures KeepsSession(trace[n], trace[n + 1], id) {
      RunSessionStep(trace, steps, n, id);
    }
    ChainSession(trace, a, b, id);
  }

  lemma {:induction false} ChainSession(trace: seq<Registry>, a: nat, b: nat, id: nat)
    requires a <= b < |trace| && id in trace[a].keys
    requires forall n :: a <= n < b && id in trace[n].keys ==> KeepsSession(trace[n], trace[n + 1], id)
    ensures KeepsSession(trace[a], trace[b], id)
  {
    if a < b { ChainSession(trace, a, b - 1, id); }
  }

  lemma ActiveKnown(trace: seq<Registry>, steps: seq<Step>, a: nat, id: nat)
    requires IsRun(trace, steps) && a < |trace| && id in trace[a].keys
    ensures id in trace[a].active
  {
    RunInv(trace, steps, a);
  }

  lemma {:induction false} UnusedRun(trace: seq<Registry>, steps: seq<Step>, a: nat, b: nat, id: nat)
    requires IsRun(trace, steps) && a <= b < |trace| && id in trace[a].keys
    requires forall n :: a <= n < b ==> steps[n] != Touch(id)
    ensures SameActive(trace[a], trace[b], id)
  {
    if a == b {
      ActiveKnown(trace, steps, a, id);
    } else {
      UnusedRun(trace, steps, a, b - 1, id);
      SessionRun(trace, steps, a, b - 1, id);
      RunSessionStep(trace, steps, b - 1, id);
    }
  }

  /** If there is such a session, it was active at `time` or later. */
  ghost predicate Recent(r: Registry, id: nat, time: int) {
    time <= r.now && (id in r.active ==> r.active[id] >= time)
  }

  lemma RecentStep(r: Registry, s: Step, id: nat, time: int)
    requires Enabled(r, s) && Recent(r, id, time)
    ensures Recent(Apply(r, s), id, time)
  {
  }

  lemma {:induction false} RecentRun(trace: seq<Registry>, steps: seq<Step>, a: nat, b: nat, id: nat, time: int)
    requires IsRun(trace, steps) && a <= b < |trace| && Recent(trace[a], id, time)
    ensures Recent(trace[b], id, time)
  {
    forall n | a <= n < b && Recent(trace[n], id, time) ensures Recent(trace[n + 1], id, time) {
      RecentStep(trace[n], steps[n], id, time);
    }
    ChainRecent(trace, a, b, id, time);
  }

  lemma {:induction false} ChainRecent(trace: seq<Registry>, a: nat, b: nat, id: nat, time: int)
    requires a <= b < |trace| && Recent(trace[a], id, time)
    requires forall n :: a <= n < b && Recent(trace[n], id, time) ==> Recent(trace[n + 1], id, time)
    ensures Recent(trace[b], id, time)
  {
    if a < b { ChainRecent(trace, a, b - 1, id, time); }
  }

  /** A session that is new since `a`, or was used since, was active no earlier. */
  lemma ActiveSince(trace: seq<Registry>, steps: seq<Step>, a: nat, b: nat, id: nat)
    requires IsRun(trace, steps) && a <= b < |trace|
    requires id !in trace[a].keys || exists n :: a <= n < b && steps[n] == Touch(id)
    ensures Recent(trace[b], id, trace[a].now)
  {
    if id !in trace[a].keys {
      RunInv(trace, steps, a);
      RecentRun(trace, steps, a, b, id, trace[a].now);
    } else {
      var n :| a <= n < b && steps[n] == Touch(id);
      TimePasses(trace, steps, a, n);
      UsedNow(trace[n], id, trace[a].now);
      RecentRun(trace, steps, n + 1, b, id, trace[a].now);
    }
  }

  lemma UsedNow(r: Registry, id: nat, time: int)
    requires time <= r.now
    ensures Recent(Apply(r, Touch(id)), id, time)
  {
  }

  /** The list of a cleanup round only shrinks until the next round. */
  lemma {:induction false} ListShrinks(trace: seq<Registry>, steps: seq<Step>, c: nat, k: nat)
    requires IsRun(trace, steps) && c < k < |trace| && steps[c] == CollectIdle
    requires forall n :: c < n < k ==> steps[n] != CollectIdle
    ensures trace[k].idle <= IdleKeys(trace[c])
  {
    if c + 1 < k { ListShrinks(trace, steps, c, k - 1); }
  }

  /** Found idle by the scan and not used since. */
  ghost predicate SameAndUnused(trace: seq<Registry>, steps: seq<Step>, c: nat, k: nat, key: string, id: nat)
    requires c < |trace| && k <= |steps|
  {
    key in trace[c].sessions && id == trace[c].sessions[key] && forall n :: c < n < k ==> steps[n] != Touch(id)
  }

  lemma SameIsIdle(trace: seq<Registry>, steps: seq<Step>, c: nat, k: nat, key: string, id: nat)
    requires IsRun(trace, steps) && c < k < |trace| && steps[c] == CollectIdle
    requires key in IdleKeys(trace[c]) && SameAndUnused(trace, steps, c, k, key, id)
    ensures IsIdle(trace[k], id)
  {
    RunInv(trace, steps, c);
    UnusedRun(trace, steps, c, k, id);
    TimePasses(trace, steps, c, k);
  }

  lemma IdleIsSame(trace: seq<Registry>, steps: seq<Step>, c: nat, k: nat, key: string, id: nat)
    requires IsRun(trace, steps) && c < k < |trace| && steps[c] == CollectIdle
    requires key in trace[k].sessions && id == trace[k].sessions[key]
    requires IsIdle(trace[k], id) && trace[k].now <= trace[c].now + TIMEOUT
    ensures SameAndUnused(trace, steps, c, k, key, id)
  {
    RunInv(trace, steps, k);
    if id !in trace[c].keys || exists n :: c <= n < k && steps[n] == Touch(id) {
      ActiveSince(trace, steps, c, k, id);
    }
    SessionRun(trace, steps, c, k, id);
    SameKeySameSession(trace[c], trace[k], key, id);
  }

  lemma SameKeySameSession(r: Registry, r': Registry, key: string, id: nat)
    requires Inv(r') && KeepsSession(r, r', id) && key in r'.sessions && r'.sessions[key] == id
    ensures key in r.sessions && r.sessions[key] == id
  {
    assert InMap(r', id);
  }

  /** Idle cleanup goes by key. The session it takes out is idle at that moment if it is
      the one the scan found and was not used since; and, as long as the round takes no
      longer than the timeout, only if. */
  lemma TakenIsIdleExactly(trace: seq<Registry>, steps: seq<Step>, c: nat, k: nat, key: string)
    requires IsRun(trace, steps) && c < k < |trace| && steps[c] == CollectIdle
    requires forall n :: c < n < k ==> steps[n] != CollectIdle
    requires key in trace[k].idle && key in trace[k].sessions
    ensures var id := trace[k].sessions[key];
            && id in Apply(trace[k], DetachIdle(key)).closing
            && (SameAndUnused(trace, steps, c, k, key, id) ==> IsIdle(trace[k], id))
            && (trace[k].now <= trace[c].now + TIMEOUT ==>
                  (IsIdle(trace[k], id) <==> SameAndUnused(trace, steps, c, k, key, id)))
  {
    var id := trace[k].sessions[key];
    ListShrinks(trace, steps, c, k);
    assert key in {key};
    if SameAndUnused(trace, steps, c, k, key, id) { SameIsIdle(trace, steps, c, k, key, id); }
    if trace[k].now <= trace[c].now + TIMEOUT && IsIdle(trace[k], id) { IdleIsSame(trace, steps, c, k, key, id); }
  }

  /** A session of this owner, found idle by a scan. */
  function FoundIdle(o: Owner): Registry {
    Apply(Apply(Apply(EMPTY, Open(o, true, 0)), Pass(TIMEOUT + 1)), CollectIdle)
  }

  lemma FoundIdleIs(o: Owner)
    ensures var k := KeyOf(o);
            FoundIdle(o) == Registry(map[k := 0], map[0 := k], map[0 := o], map[0 := 0], {}, {}, {k}, TIMEOUT + 1)
  {
    var r := Apply(Apply(EMPTY, Open(o, true, 0)), Pass(TIMEOUT + 1));
    assert r.sessions == map[KeyOf(o) := 0];
    assert IdleKeys(r) == {KeyOf(o)};
  }

  /** A session opened after the scan under a collected key is closed although it is new. */
  lemma IdleCleanupClosesSuccessor(o: Owner)
    ensures var k, r := KeyOf(o), Apply(Apply(FoundIdle(o), Detach(o)), Open(o, true, 1));
            Enabled(r, DetachIdle(k)) && !IsIdle(r, 1) && 1 in Apply(r, DetachIdle(k)).closing
  {
    var k, r := KeyOf(o), Apply(Apply(FoundIdle(o), Detach(o)), Open(o, true, 1));
    FoundIdleIs(o);
    assert r.sessions == map[k := 1];
    assert k in r.sessions && k in {k} && r.sessions[k] == 1;
  }

  /** A session that is used after the scan is closed although it is in use. */
  lemma IdleCleanupClosesUsed(o: Owner)
    ensures var k, r := KeyOf(o), Apply(FoundIdle(o), Touch(0));
            Enabled(r, DetachIdle(k)) && !IsIdle(r, 0) && 0 in Apply(r, DetachIdle(k)).closing
  {
    var k, r := KeyOf(o), Apply(FoundIdle(o), Touch(0));
    FoundIdleIs(o);
    assert k in r.sessions && k in {k} && r.sessions[k] == 0;
  }

  // ----------------------------------------------------------------- reconnecting

  /** What HandleTerminalConnection does to the registry when nothing comes between.
      `ensured`: the first connection check; `connected`: the new terminal. */
  function Reconnected(r: Registry, o: Owner, ensured: bool, connected: bool, id: nat): Registry {
    var k := KeyOf(o);
    if !ensured then r
    else
      var r1 := Apply(r, Detach(o));
      var r2 := if k in r.sessions then Apply(r1, FinishClose(r.sessions[k])) else r1;
      Apply(r2, Open(o, connected, id))
  }

  /** Once the first check passes, the old session is closed and gone, its history with
      it, and the client joins a new one, or none. */
  lemma ReconnectStartsAnew(r: Registry, o: Owner, connected: bool, id: nat)
    requires Inv(r) && id !in r.keys
    ensures var k, r' := KeyOf(o), Reconnected(r, o, true, connected, id);
            && Inv(r')
            && (k in r.sessions ==> r.sessions[k] in r'.closed && !InMap(r', r.sessions[k]))
            && (if connected then k in r'.sessions && r'.sessions[k] == id && id !in r'.closed else k !in r'.sessions)
  {
    var k := KeyOf(o);
    var r1 := Apply(r, Detach(o));
    StepInv(r, Detach(o));
    if k in r.sessions {
      var old_ := r.sessions[k];
      TakeOutInv(r, {k});
      StepInv(r1, FinishClose(old_));
      StepInv(Apply(r1, FinishClose(old_)), Open(o, connected, id));
    } else {
      StepInv(r1, Open(o, connected, id));
    }
  }

  // ------------------------------------------------------------------- the class

  class TerminalService {
    var sessions: map<string, nat>
    ghost var keys: map<nat, string>
    ghost var owners: map<nat, Owner>
    var active: map<nat, int>
    ghost var closing: set<nat>
    var closed: set<nat>
    var idle: set<string>
    var now: int

    ghost function View(): Registry
      reads this
    {
      Registry(sessions, keys, owners, active, closing, closed, idle, now)
    }

    constructor ()
      ensures View() == EMPTY
    {
      sessions, active, closed, idle, now := map[], map[], {}, {}, 0;
      keys, owners, closing := map[], map[], {};
    }

    method GetOrCreateTerminalSession(o: Owner, connected: bool, id: nat) returns (session: Option<nat>)
      modifies this
      ensures View() == Apply(old(View()), Open(o, connected, id))
      ensures session.Some? ==> KeyOf(o) in sessions && sessions[KeyOf(o)] == session.value
      ensures session.None? ==> KeyOf(o) !in sessions && !connected
    {
      var key := KeyOf(o);
      if key in sessions {
        var sw := sessions[key];
        if sw !in closed { return Some(sw); }
        sessions := sessions - {key};
      }
      assert sessions == old(sessions) - {key};
      if !connected { return None; }
      sessions, active := sessions[key := id], active[id := now];
      keys, owners := keys[id := key], owners[id := o];
      return Some(id);
    }

    /** First half of closeTerminalSession; the second is `CloseSession`. */
    method DetachSession(o: Owner) returns (session: Option<nat>)
      modifies this
      ensures View() == Apply(old(View()), Detach(o))
      ensures session == if KeyOf(o) in old(sessions) then Some(old(sessions)[KeyOf(o)]) else None
    {
      var key := KeyOf(o);
      ghost var ids := set k | k in sessions && k in {key} :: sessions[k];
      session := None;
      if key in sessions {
        session := Some(sessions[key]);
        assert key in {key};
        assert ids == {sessions[key]};
      } else {
        assert ids == {};
        assert sessions - {key} == sessions;
      }
      sessions := sessions - {key};
      closing := closing + ids;
    }

    /** First half of closeTerminalSessionByKey, as the Wait callback calls it. */
    method DetachExpected(expected: nat, key: string) returns (session: Option<nat>)
      requires expected in keys && key == keys[expected]
      modifies this
      ensures View() == Apply(old(View()), WaitReturns(expected))
      ensures session.Some? ==> session.value == expected
    {
      if key in sessions && sessions[key] == expected {
        ghost var ids := set k | k in sessions && k in {key} :: sessions[k];
        assert key in {key};
        assert ids == {expected};
        sessions := sessions - {key};
        closing := closing + ids;
        return Some(expected);
      }
      return None;
    }

    /** First half of CloseUserTerminals: the loop over the map. */
    method DetachUserSessions(user: int) returns (taken: set<nat>)
      modifies this
      ensures View() == Apply(old(View()), DetachUser(user))
      ensures closing == old(closing) + taken
    {
      var prefix := Itoa(user) + ":";
      taken := Sweep(KeysOfUser(View(), user), prefix);
    }

    method DetachAllSessions() returns (taken: set<nat>)
      modifies this
      ensures View() == Apply(old(View()), DetachAll)
      ensures closing == old(closing) + taken
    {
      assert forall k :: k in sessions ==> HasPrefix(k, "");
      taken := Sweep(sessions.Keys, "");
    }

    /** Deletes the entries whose key has the prefix, in any order, and collects them. */
    method Sweep(ghost chosen: set<string>, prefix: string) returns (taken: set<nat>)
      requires chosen == set k | k in sessions && HasPrefix(k, prefix)
      modifies this
      ensures View() == TakeOut(old(View()), chosen)
      ensures closing == old(closing) + taken
    {
      ghost var was := sessions;
      var todo := sessions.Keys;
      ghost var seen: set<string> := {};
      taken := {};
      while todo != {}
        invariant todo !! seen && todo + seen == was.Keys
        invariant sessions == was - (seen * chosen)
        invariant taken == Values(was, seen * chosen)
        invariant View() == old(View()).(sessions := sessions)
      {
        var key :| key in todo;
        todo, seen := todo - {key}, seen + {key};
        if |key| >= |prefix| && key[..|prefix|] == prefix {
          taken := taken + {sessions[key]};
          sessions := sessions - {key};
          assert (seen * chosen) == ((seen - {key}) * chosen) + {key};
        } else {
          assert (seen * chosen) == ((seen - {key}) * chosen);
        }
      }
      assert seen * chosen == chosen;
      closing := closing + taken;
    }

    /** Input, output, resizing, joining and leaving set LastActive. */
    method TouchSession(session: nat)
      modifies `active
      ensures View() == Apply(old(View()), Touch(session))
    {
      active := active[session := now];
    }

    /** The read-locked part of a cleanup round: the loop over the map. */
    method CollectIdleKeys()
      requires sessions.Values <= active.Keys
      modifies `idle
      ensures View() == Apply(old(View()), CollectIdle)
    {
      var todo := sessions.Keys;
      var keysToClose: set<string> := {};
      while todo != {}
        invariant todo <= sessions.Keys
        invariant keysToClose == IdleKeys(View()) - todo
      {
        var key :| key in todo;
        todo := todo - {key};
        if now - active[sessions[key]] > TIMEOUT { keysToClose := keysToClose + {key}; }
      }
      idle := keysToClose;
    }

    /** HandleTerminalConnection: the old session is closed before a new one is opened. */
    method HandleTerminalConnection(o: Owner, ensured: bool, connected: bool, id: nat) returns (session: Option<nat>)
      modifies this
      ensures View() == Reconnected(old(View()), o, ensured, connected, id)
      ensures session == if ensured && connected then Some(id) else None
    {
      if !ensured { return None; }
      var was := DetachSession(o);
      if was.Some? { CloseSession(was.value); }
      session := GetOrCreateTerminalSession(o, connected, id);
    }

    method DetachIdleKey(key: string) returns (session: Option<nat>)
      requires key in idle
      modifies this
      ensures View() == Apply(old(View()), DetachIdle(key))
      ensures session == if key in old(sessions) then Some(old(sessions)[key]) else None
    {
      ghost var ids := set k | k in sessions && k in {key} :: sessions[k];
      session := if key in sessions then Some(sessions[key]) else None;
      sessions := sessions - {key};
      closing := closing + ids;
      idle := idle - {key};
    }

    /** `close` of a detached session. */
    method CloseSession(session: nat)
      requires session in closing
      modifies this
      ensures View() == Apply(old(View()), FinishClose(session))
    {
      closed := closed + {session};
      closing := closing - {session};
    }
  }

  ghost function Values(m: map<string, nat>, keys: set<string>): set<nat> {
    set k | k in m && k in keys :: m[k]
  }
}
