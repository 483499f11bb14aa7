/** The lock around one pass over the queue: a Redis key set only if absent, with a
    time to live, renewed by a watchdog and deleted by its owner. Any number of
    instances, any delays. */
module QueueLock {
  import opened Text

  /** 30 seconds, in milliseconds. */
  const TTL := 30_000

  /** `lock:queue_process`: its value, and when it runs out. */
  datatype Key = Key(token: int, expires: int)

  /** Where an instance is. `since` is the last moment the key was set or renewed for
      this pass. */
  datatype Instance = Outside | Inside(token: int, since: int)

  datatype State = State(
    now: int,
    key: Option<Key>,
    instances: map<int, Instance>,
    issued: set<int>,    // every token ever drawn
    over: set<int>)      // tokens of passes that are finished

  /** What a GET would answer. */
  function Current(s: State): Option<Key> {
    if s.key.Some? && s.now < s.key.value.expires then s.key else None
  }

  /** One step of one instance, of its watchdog, or of time. Renew and Release arrive at
      Redis when they arrive, however late. */
  datatype Step =
    | Wait(time: int)
    | TryAcquire(id: int, token: int)
    | Renew(token: int)
    | Leave(id: int)
    | Crash(id: int)
    | Release(token: int)

  /** SET key token NX PX ttl. */
  function Acquired(s: State, id: int, token: int): State {
    var s1 := s.(issued := s.issued + {token});
    if Current(s).Some? then s1.(over := s.over + {token})
    else s1.(key := Some(Key(token, s.now + TTL)), instances := s.instances[id := Inside(token, s.now)])
  }

  /** if GET == token then PEXPIRE. */
  function Renewed(s: State, token: int): State {
    if Current(s).Some? && Current(s).value.token == token
    then s.(key := Some(Key(token, s.now + TTL)), instances := Noted(s.instances, token, s.now))
    else s
  }

  /** The instance whose pass it is learns that the renewal worked. */
  function Noted(instances: map<int, Instance>, token: int, now: int): map<int, Instance> {
    map i | i in instances ::
      if instances[i].Inside? && instances[i].token == token then Inside(token, now) else instances[i]
  }

  /** if GET == token then DEL. */
  function Released(s: State, token: int): State {
    if Current(s).Some? && Current(s).value.token == token then s.(key := None) else s
  }

  function Left(s: State, id: int): State {
    if id in s.instances && s.instances[id].Inside?
    then s.(instances := s.instances[id := Outside], over := s.over + {s.instances[id].token})
    else s
  }

  /** Tokens are fresh; an instance starts a pass from outside, and deletes its key only
      after its pass is over. */
  predicate Enabled(s: State, step: Step) {
    match step
    case Wait(time) => time >= 0
    case TryAcquire(id, token) => token !in s.issued && (id in s.instances ==> s.instances[id].Outside?)
    case Renew(token) => token in s.issued
    case Leave(id) => true
    case Crash(id) => true
    case Release(token) => token in s.over
  }

  function Apply(s: State, step: Step): State {
    match step
    case Wait(time) => s.(now := s.now + time)
    case TryAcquire(id, token) => Acquired(s, id, token)
    case Renew(token) => Renewed(s, token)
    case Leave(id) => Left(s, id)
    case Crash(id) => Left(s, id)
    case Release(token) => Released(s, token)
  }

  // ---------------------------------------------------------------- whole runs

  ghost predicate Init(s: State) {
    && s.key.None? && s.over <= s.issued
    && forall i :: i in s.instances ==> s.instances[i].Outside?
  }

  ghost predicate IsRun(trace: seq<State>, steps: seq<Step>) {
    && |trace| == |steps| + 1 && Init(trace[0])
    && forall i :: 0 <= i < |steps| ==> Enabled(trace[i], steps[i]) && trace[i + 1] == Apply(trace[i], steps[i])
  }

  predicate IsInside(s: State, i: int) {
    i in s.instances && s.instances[i].Inside?
  }

  /** Nobody is inside a full TTL after its key was last set or renewed. */
  ghost predicate OnTime(s: State) {
    forall i :: IsInside(s, i) ==> s.now < s.instances[i].since + TTL
  }

  /** Tokens inside are issued, unfinished, and each of one instance; no key lives longer
      than a TTL. */
  ghost predicate TokensSound(s: State) {
    && s.over <= s.issued
    && (s.key.Some? ==> s.key.value.token in s.issued && s.key.value.expires <= s.now + TTL)
    && (forall i :: IsInside(s, i) ==> s.instances[i].token in s.issued && s.instances[i].token !in s.over)
    && (forall i, j :: IsInside(s, i) && IsInside(s, j) && s.instances[i].token == s.instances[j].token ==> i == j)
  }

  /** The key belongs to whoever is inside, and runs out one TTL after the last renewal. */
  ghost predicate KeyMatches(s: State) {
    forall i :: IsInside(s, i) ==> s.key == Some(Key(s.instances[i].token, s.instances[i].since + TTL))
  }

  lemma TokensStep(s: State, step: Step)
    requires TokensSound(s) && Enabled(s, step)
    ensures TokensSound(Apply(s, step))
  {
  }

  lemma KeyStep(s: State, step: Step)
    requires TokensSound(s) && KeyMatches(s) && OnTime(s) && Enabled(s, step)
    ensures KeyMatches(Apply(s, step))
  {
  }

  lemma {:induction false} RunTokens(trace: seq<State>, steps: seq<Step>, k: nat)
    requires IsRun(trace, steps) && k < |trace|
    ensures TokensSound(trace[k])
  {
    if k > 0 {
      RunTokens(trace, steps, k - 1);
      TokensStep(trace[k - 1], steps[k - 1]);
    }
  }

  lemma {:induction false} RunKey(trace: seq<State>, steps: seq<Step>, k: nat)
    requires IsRun(trace, steps) && k < |trace|
    requires forall i :: 0 <= i < k ==> OnTime(trace[i])
    ensures KeyMatches(trace[k])
  {
    if k > 0 {
      RunKey(trace, steps, k - 1);
      RunTokens(trace, steps, k - 1);
      KeyStep(trace[k - 1], steps[k - 1]);
    }
  }

  /** If every holder's renewals succeed less than one TTL apart, at most one instance is
      inside the locked section at any time. */
  lemma MutualExclusion(trace: seq<State>, steps: seq<Step>, k: nat, i: int, j: int)
    requires IsRun(trace, steps) && k < |trace|
    requires forall n :: 0 <= n < k ==> OnTime(trace[n])
    requires IsInside(trace[k], i) && IsInside(trace[k], j)
    ensures i == j
  {
    RunKey(trace, steps, k);
    RunTokens(trace, steps, k);
  }

  /** The condition is needed: one overdue holder, and a second instance gets in. */
  lemma OverdueHolderIsJoined(s: State, i: int, j: int, token: int)
    requires KeyMatches(s) && IsInside(s, i) && s.now >= s.instances[i].since + TTL
    requires i != j && Enabled(s, TryAcquire(j, token))
    ensures IsInside(Apply(s, TryAcquire(j, token)), i) && IsInside(Apply(s, TryAcquire(j, token)), j)
  {
  }

  // ------------------------------------------------- no assumption about time

  ghost predicate HeldBy(s: State, token: int, expires: int) {
    s.key.Some? && s.key.value.token == token && s.key.value.expires >= expires
  }

  lemma HeldStep(s: State, step: Step, token: int, expires: int)
    requires HeldBy(s, token, expires) && s.now < expires <= s.now + TTL && step != Release(token)
    ensures HeldBy(Apply(s, step), token, expires)
  {
  }

  lemma {:induction false} TimePasses(trace: seq<State>, steps: seq<Step>, a: nat, b: nat)
    requires IsRun(trace, steps) && a <= b < |trace|
    ensures trace[a].now <= trace[b].now
  {
    if a < b {
      TimePasses(trace, steps, a, b - 1);
    }
  }

  /** In every run, with no assumption about time: a key stays with its token until it
      runs out or that token's own pass deletes it. No release, renewal or attempt of
      anyone else, however late, deletes it, shortens it, or replaces its token. */
  lemma {:induction false} LockIsKept(trace: seq<State>, steps: seq<Step>, a: nat, b: nat)
    requires IsRun(trace, steps) && a <= b < |trace| && trace[a].key.Some?
    requires forall n :: a <= n < b ==> steps[n] != Release(trace[a].key.value.token)
    requires trace[b].now < trace[a].key.value.expires
    ensures HeldBy(trace[b], trace[a].key.value.token, trace[a].key.value.expires)
  {
    if a < b {
      var key := trace[a].key.value;
      TimePasses(trace, steps, b - 1, b);
      TimePasses(trace, steps, a, b - 1);
      LockIsKept(trace, steps, a, b - 1);
      RunTokens(trace, steps, a);
      HeldStep(trace[b - 1], steps[b - 1], key.token, key.expires);
    }
  }

  /** In every run: until it runs out, a key that its own pass neither renews nor deletes
      is not changed by anyone, not even in its expiry. */
  lemma {:induction false} OthersChangeNothing(trace: seq<State>, steps: seq<Step>, a: nat, b: nat)
    requires IsRun(trace, steps) && a <= b < |trace| && trace[a].key.Some?
    requires var token := trace[a].key.value.token;
             forall n :: a <= n < b ==> steps[n] != Release(token) && steps[n] != Renew(token)
    requires trace[b].now < trace[a].key.value.expires
    ensures trace[b].key == trace[a].key
  {
    if a < b {
      TimePasses(trace, steps, b - 1, b);
      OthersChangeNothing(trace, steps, a, b - 1);
      LateCallsAreHarmless(trace[b - 1], steps[b - 1]);
    }
  }

  /** A renewal or release of a token that is not current changes nothing, and an attempt
      changes nothing while there is a current key. */
  lemma LateCallsAreHarmless(s: State, step: Step)
    requires match step
             case Renew(token) => !IsCurrent(s, token)
             case Release(token) => !IsCurrent(s, token)
             case TryAcquire(_, _) => Current(s).Some?
             case _ => true
    ensures Apply(s, step).key == s.key
  {
  }

  predicate IsCurrent(s: State, token: int) {
    Current(s).Some? && Current(s).value.token == token
  }

  lemma GoneStep(s: State, step: Step, token: int)
    requires token in s.issued && !IsCurrent(s, token) && Enabled(s, step)
    ensures token in Apply(s, step).issued && !IsCurrent(Apply(s, step), token)
  {
  }

  /** In every run: once an issued token does not hold the lock, having run out, been
      deleted or never got it, no late renewal brings it back. */
  lemma {:induction false} GoneForGood(trace: seq<State>, steps: seq<Step>, a: nat, b: nat, token: int)
    requires IsRun(trace, steps) && a <= b < |trace|
    requires token in trace[a].issued && !IsCurrent(trace[a], token)
    ensures token in trace[b].issued && !IsCurrent(trace[b], token)
  {
    if a < b {
      GoneForGood(trace, steps, a, b - 1, token);
      GoneStep(trace[b - 1], steps[b - 1], token);
    }
  }

  // -------------------------------------------------------- what the calls achieve

  /** An attempt of an instance outside gets in exactly when there is no current key, and
      then holds it for a full TTL. */
  lemma AttemptExactly(s: State, i: int, token: int)
    requires Enabled(s, TryAcquire(i, token))
    ensures var s' := Apply(s, TryAcquire(i, token));
            && (IsInside(s', i) <==> Current(s).None?)
            && (Current(s).None? ==> s'.instances[i].token == token && Current(s') == Some(Key(token, s.now + TTL)))
            && (Current(s).Some? ==> s'.key == s.key && s'.instances == s.instances)
  {
  }

  /** A renewal of the current token makes its key run a full TTL from now on, and only the
      instance that holds the token learns of it. */
  lemma RenewalExtends(s: State, token: int)
    requires IsCurrent(s, token)
    ensures var s' := Apply(s, Renew(token));
            && Current(s') == Some(Key(token, s.now + TTL)) && s'.instances.Keys == s.instances.Keys
            && forall i :: i in s.instances ==>
                 s'.instances[i] == if IsInside(s, i) && s.instances[i].token == token then Inside(token, s.now)
                                    else s.instances[i]
  {
  }

  /** The release of the current token deletes its key. */
  lemma ReleaseDeletes(s: State, token: int)
    requires IsCurrent(s, token)
    ensures Apply(s, Release(token)) == s.(key := None)
  {
  }

  /** Nothing but an attempt makes a key, so a lock that is free stays free until then. */
  lemma {:induction false} FreeUntilAttempt(trace: seq<State>, steps: seq<Step>, a: nat, b: nat)
    requires IsRun(trace, steps) && a <= b < |trace| && Current(trace[a]).None?
    requires forall n :: a <= n < b ==> !steps[n].TryAcquire?
    ensures Current(trace[b]).None?
  {
    if a < b { FreeUntilAttempt(trace, steps, a, b - 1); }
  }

  /** In every run: once the holder has left and its release has arrived, whatever happens
      in between, the next attempt of any instance gets in. */
  lemma NextGetsIn(trace: seq<State>, steps: seq<Step>, a: nat, b: nat, token: int)
    requires IsRun(trace, steps) && a < b < |steps| && steps[a] == Release(token)
    requires Current(trace[a]).None? || IsCurrent(trace[a], token)
    requires (forall n :: a < n < b ==> !steps[n].TryAcquire?) && steps[b].TryAcquire?
    ensures IsInside(trace[b + 1], steps[b].id)
  {
    assert Current(trace[a + 1]).None?;
    FreeUntilAttempt(trace, steps, a + 1, b);
    AttemptExactly(trace[b], steps[b].id, steps[b].token);
  }

  /** Leaving and crashing put the instance outside and finish its token, and nobody else's. */
  lemma LeavingExactly(s: State, i: int, j: int)
    requires IsInside(s, i)
    ensures var s' := Apply(s, Leave(i));
            && !IsInside(s', i) && s'.over == s.over + {s.instances[i].token} && s'.key == s.key
            && (j != i ==> (IsInside(s', j) <==> IsInside(s, j)))
    ensures Apply(s, Crash(i)) == Apply(s, Leave(i))
  {
  }
}
