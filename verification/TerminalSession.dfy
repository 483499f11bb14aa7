/** One web-terminal session: output cut at character boundaries, kept in a bounded
    history, and handed to the clients that are connected. */
module TerminalSession {
  import opened Utf8

  /** 2 << 20. */
  const OUTPUT_LIMIT := 2_097_152

  /** ESC [ 2 J ESC [ H. */
  const CLEAR_SCREEN: seq<byte> := [0x1B, 0x5B, 0x32, 0x4A, 0x1B, 0x5B, 0x48]

  datatype Session = Session(
    held: seq<byte>,      // utf8Remainder
    buffer: seq<byte>,    // outputBuffer
    limit: int,           // maxBufferSize
    clients: set<int>,
    closed: bool)

  function LimitOf(limit: int): nat {
    if limit <= 0 then OUTPUT_LIMIT else limit
  }

  function Last(limit: nat, s: seq<byte>): seq<byte> {
    if |s| <= limit then s else s[|s| - limit..]
  }

  /** One lock-protected section. */
  datatype Op = Write(data: seq<byte>) | Join(client: int) | Leave(client: int) | Close

  function Written(s: Session, data: seq<byte>): Session {
    var all := s.held + data;
    var out := Emitted(all);
    if out == [] then s.(held := Remainder(all))
    else s.(held := Remainder(all), buffer := Last(LimitOf(s.limit), s.buffer + out), limit := LimitOf(s.limit))
  }

  function Apply(s: Session, op: Op): Session {
    match op
    case Write(data) => Written(s, data)
    case Join(c) => if s.closed then s else s.(clients := s.clients + {c})
    case Leave(c) => s.(clients := s.clients - {c})
    case Close => if s.closed then s else s.(closed := true, clients := {}, buffer := [], held := [])
  }

  /** What went out; what each client was given, the snapshot at joining, then every
      chunk while registered; and what its connection is sent of that, which drops the
      snapshot. */
  datatype History = History(emitted: seq<byte>, given: map<int, seq<byte>>, heard: map<int, seq<byte>>)

  function Fed(m: map<int, seq<byte>>, clients: set<int>, out: seq<byte>): map<int, seq<byte>> {
    map c | c in m :: if c in clients then m[c] + out else m[c]
  }

  function Recorded(h: History, s: Session, op: Op): History {
    match op
    case Write(data) =>
      var out := Emitted(s.held + data);
      History(h.emitted + out, Fed(h.given, s.clients, out), Fed(h.heard, s.clients, out))
    case Join(c) => if s.closed then h else h.(given := h.given[c := s.buffer], heard := h.heard[c := []])
    case _ => h
  }

  function Run(s: Session, ops: seq<Op>): Session {
    if ops == [] then s else Apply(Run(s, ops[..|ops| - 1]), ops[|ops| - 1])
  }

  function Recording(s: Session, ops: seq<Op>): History {
    if ops == [] then History([], map[], map[])
    else
      var before := ops[..|ops| - 1];
      Recorded(Recording(s, before), Run(s, before), ops[|ops| - 1])
  }

  ghost predicate IsSuffix(a: seq<byte>, b: seq<byte>) {
    |a| <= |b| && b[|b| - |a|..] == a
  }

  /** The history buffer is the end of what was emitted, as long as the limit allows, and
      each client has seen an unbroken end of it, up to now. */
  ghost predicate Faithful(s: Session, h: History) {
    && (!s.closed ==> s.buffer == Last(LimitOf(s.limit), h.emitted))
    && (s.closed ==> s.clients == {})
    && (forall c :: c in s.clients ==> c in h.given && IsSuffix(h.given[c], h.emitted))
  }

  lemma LastOfLast(limit: nat, x: seq<byte>, y: seq<byte>)
    ensures Last(limit, Last(limit, x) + y) == Last(limit, x + y)
  {
  }

  lemma SuffixAppend(a: seq<byte>, b: seq<byte>, y: seq<byte>)
    requires IsSuffix(a, b)
    ensures IsSuffix(a + y, b + y)
  {
    assert (b + y)[|b| - |a|..] == b[|b| - |a|..] + y;
  }

  lemma FaithfulStep(s: Session, h: History, op: Op)
    requires Faithful(s, h)
    ensures Faithful(Apply(s, op), Recorded(h, s, op))
  {
    match op
    case Write(data) =>
      var out := Emitted(s.held + data);
      LastOfLast(LimitOf(s.limit), h.emitted, out);
      if out == [] { assert h.emitted + out == h.emitted; }
      forall c | c in s.clients ensures IsSuffix(h.given[c] + out, h.emitted + out) {
        SuffixAppend(h.given[c], h.emitted, out);
      }
    case Join(c) =>
      assert !s.closed ==> IsSuffix(s.buffer, h.emitted);
    case _ =>
  }

  function NewSession(): Session {
    Session([], [], OUTPUT_LIMIT, {}, false)
  }

  /** In every run of writes, joins, leaves and closing. */
  lemma {:induction false} RunFaithful(ops: seq<Op>)
    ensures Faithful(Run(NewSession(), ops), Recording(NewSession(), ops))
  {
    if ops != [] {
      var before := ops[..|ops| - 1];
      RunFaithful(before);
      FaithfulStep(Run(NewSession(), before), Recording(NewSession(), before), ops[|ops| - 1]);
    }
  }

  /** So a joining client's snapshot, followed by every chunk broadcast while it stays
      registered, is a contiguous end of the emitted stream; and the buffer of an open
      session is exactly the last min(limit, total) emitted bytes. */
  lemma ClientSeesSuffix(ops: seq<Op>, c: int)
    ensures var s, h := Run(NewSession(), ops), Recording(NewSession(), ops);
            && (c in s.clients ==> c in h.given && IsSuffix(h.given[c], h.emitted))
            && (!s.closed ==> IsSuffix(s.buffer, h.emitted)
                              && |s.buffer| == if |h.emitted| < LimitOf(s.limit) then |h.emitted| else LimitOf(s.limit))
            && (s.closed ==> s.clients == {})
  {
    RunFaithful(ops);
  }

  /** Joined, and not left or closed since. */
  ghost predicate Stays(c: int, after: seq<Op>) {
    forall i :: 0 <= i < |after| ==> Spares(after[i], c)
  }

  predicate Spares(op: Op, c: int) {
    op != Join(c) && op != Leave(c) && op != Close
  }

  /** Registered, with everything emitted after `old`, and with `snapshot` dropped. */
  ghost predicate HearsSince(s: Session, h: History, c: int, old_: seq<byte>, snapshot: seq<byte>) {
    && !s.closed && c in s.clients && c in h.heard && c in h.given
    && h.emitted == old_ + h.heard[c] && h.given[c] == snapshot + h.heard[c]
  }

  lemma HearsOn(s: Session, h: History, c: int, old_: seq<byte>, snapshot: seq<byte>, op: Op)
    requires HearsSince(s, h, c, old_, snapshot) && Spares(op, c)
    ensures HearsSince(Apply(s, op), Recorded(h, s, op), c, old_, snapshot)
  {
    if op.Write? {
      var out := Emitted(s.held + op.data);
      assert old_ + (h.heard[c] + out) == (old_ + h.heard[c]) + out;
      assert snapshot + (h.heard[c] + out) == (snapshot + h.heard[c]) + out;
    }
  }

  lemma LastOp(ops: seq<Op>, op: Op)
    ensures Run(NewSession(), ops + [op]) == Apply(Run(NewSession(), ops), op)
    ensures Recording(NewSession(), ops + [op]) == Recorded(Recording(NewSession(), ops), Run(NewSession(), ops), op)
  {
    assert (ops + [op])[..|ops|] == ops;
  }

  ghost predicate RunHears(ops: seq<Op>, c: int, old_: seq<byte>, snapshot: seq<byte>) {
    HearsSince(Run(NewSession(), ops), Recording(NewSession(), ops), c, old_, snapshot)
  }

  lemma {:induction false} HearsFirst(before: seq<Op>, c: int)
    requires !Run(NewSession(), before).closed
    ensures RunHears(before + [Join(c)], c, Recording(NewSession(), before).emitted, Run(NewSession(), before).buffer)
  {
    LastOp(before, Join(c));
  }

  lemma {:induction false} HearsNext(ops: seq<Op>, c: int, old_: seq<byte>, snapshot: seq<byte>, op: Op)
    requires RunHears(ops, c, old_, snapshot) && Spares(op, c)
    ensures RunHears(ops + [op], c, old_, snapshot)
  {
    LastOp(ops, op);
    HearsOn(Run(NewSession(), ops), Recording(NewSession(), ops), c, old_, snapshot, op);
  }

  /** What holds after some calls, and is kept by every call of a kind, holds after any
      number of those. */
  lemma {:induction false} Onward(p: seq<Op> -> bool, kind: Op -> bool, ops: seq<Op>, after: seq<Op>)
    requires p(ops) && forall i :: 0 <= i < |after| ==> kind(after[i])
    requires forall o, op :: p(o) && kind(op) ==> p(o + [op])
    ensures p(ops + after)
  {
    if after == [] {
      assert ops + after == ops;
    } else {
      var rest, last := after[..|after| - 1], after[|after| - 1];
      Onward(p, kind, ops, rest);
      assert kind(last);
      assert ops + after == ops + rest + [last];
    }
  }

  /** A client that joins an open session is sent exactly what is emitted from then on:
      what it is not sent is the history that joining gave. */
  lemma JoinerHearsOnlyNew(before: seq<Op>, c: int, after: seq<Op>)
    requires !Run(NewSession(), before).closed && Stays(c, after)
    ensures RunHears(before + [Join(c)] + after, c,
                     Recording(NewSession(), before).emitted, Run(NewSession(), before).buffer)
  {
    var old_, snapshot := Recording(NewSession(), before).emitted, Run(NewSession(), before).buffer;
    HearsFirst(before, c);
    forall o, op | RunHears(o, c, old_, snapshot) && Spares(op, c) ensures RunHears(o + [op], c, old_, snapshot) {
      HearsNext(o, c, old_, snapshot, op);
    }
    Onward(o => RunHears(o, c, old_, snapshot), op => Spares(op, c), before + [Join(c)], after);
  }

  ghost predicate Deaf(ops: seq<Op>, c: int, h: History) {
    c !in Run(NewSession(), ops).clients && SameFor(c, h, Recording(NewSession(), ops))
  }

  lemma {:induction false} DeafOn(ops: seq<Op>, c: int, h: History, op: Op)
    requires Deaf(ops, c, h) && op != Join(c)
    ensures Deaf(ops + [op], c, h)
  {
    LastOp(ops, op);
    AbsentStep(Run(NewSession(), ops), Recording(NewSession(), ops), c, op);
  }

  /** A client that has left is sent nothing more until it joins again. */
  lemma LeaverHearsNothing(before: seq<Op>, c: int, after: seq<Op>)
    requires forall i :: 0 <= i < |after| ==> after[i] != Join(c)
    ensures Deaf(before + [Leave(c)] + after, c, Recording(NewSession(), before))
  {
    var h := Recording(NewSession(), before);
    LastOp(before, Leave(c));
    forall o, op | Deaf(o, c, h) && op != Join(c) ensures Deaf(o + [op], c, h) { DeafOn(o, c, h, op); }
    Onward(o => Deaf(o, c, h), op => op != Join(c), before + [Leave(c)], after);
  }

  /** Given and sent the same. */
  ghost predicate SameFor(c: int, h: History, h': History) {
    && (c in h.given <==> c in h'.given) && (c in h.given ==> h'.given[c] == h.given[c])
    && (c in h.heard <==> c in h'.heard) && (c in h.heard ==> h'.heard[c] == h.heard[c])
  }

  lemma AbsentStep(s: Session, h: History, c: int, op: Op)
    requires c !in s.clients && op != Join(c)
    ensures c !in Apply(s, op).clients && SameFor(c, h, Recorded(h, s, op))
  {
  }

  ghost predicate IsClosed(ops: seq<Op>) {
    Run(NewSession(), ops).closed && Run(NewSession(), ops).clients == {}
  }

  lemma {:induction false} ClosedOn(ops: seq<Op>, op: Op)
    requires IsClosed(ops)
    ensures IsClosed(ops + [op])
  {
    LastOp(ops, op);
  }

  /** A closed session stays closed: nobody is registered and joins are refused. */
  lemma ClosedForGood(before: seq<Op>, after: seq<Op>)
    ensures IsClosed(before + [Close] + after)
  {
    LastOp(before, Close);
    RunFaithful(before);
    forall o, op | IsClosed(o) ensures IsClosed(o + [op]) { ClosedOn(o, op); }
    Onward(o => IsClosed(o), op => true, before + [Close], after);
  }

  /** Closing an open session throws its history away. */
  lemma CloseForgets(before: seq<Op>)
    requires !Run(NewSession(), before).closed
    ensures Run(NewSession(), before + [Close]).buffer == [] && Run(NewSession(), before + [Close]).held == []
  {
    LastOp(before, Close);
  }

  function AsOps(writes: seq<seq<byte>>): seq<Op> {
    seq(|writes|, i requires 0 <= i < |writes| => Write(writes[i]))
  }

  /** A session that is only written to emits what one write of everything would. */
  lemma {:induction false} WritesEmit(writes: seq<seq<byte>>)
    ensures Run(NewSession(), AsOps(writes)).held == HeldAfter(writes)
    ensures Recording(NewSession(), AsOps(writes)).emitted == Emitted(Concat(writes))
  {
    SplitInvariance(writes);
    if writes != [] {
      var before, p := writes[..|writes| - 1], writes[|writes| - 1];
      assert AsOps(writes)[..|writes| - 1] == AsOps(before);
      WritesEmit(before);
      SplitInvariance(before);
      ForgetEmitted(Concat(before), p);
    }
  }

  // -------------------------------------------------------------------- the class

  class TerminalSession {
    var utf8Remainder: seq<byte>
    var outputBuffer: seq<byte>
    var maxBufferSize: int
    var clients: set<int>
    var closed: bool

    ghost function View(): Session
      reads this
    {
      Session(utf8Remainder, outputBuffer, maxBufferSize, clients, closed)
    }

    constructor ()
      ensures View() == NewSession()
    {
      utf8Remainder, outputBuffer, maxBufferSize, clients, closed := [], [], OUTPUT_LIMIT, {}, false;
    }

    /** The bytes to broadcast and the clients to broadcast them to. */
    method Write(p: seq<byte>) returns (sent: seq<byte>, targets: set<int>)
      modifies this
      ensures View() == Apply(old(View()), Op.Write(p))
      ensures sent == Emitted(old(utf8Remainder) + p)
      ensures targets == if sent == [] then {} else old(clients)
    {
      var data := utf8Remainder + p;
      utf8Remainder := [];
      var cut := FindCut(data);
      sent := data[..cut];
      utf8Remainder := data[cut..];
      if |sent| == 0 { return sent, {}; }
      AppendOutput(sent);
      targets := clients;
    }

    method AppendOutput(data: seq<byte>)
      modifies `outputBuffer, `maxBufferSize
      ensures maxBufferSize == LimitOf(old(maxBufferSize))
      ensures maxBufferSize == if old(maxBufferSize) <= 0 then 2_097_152 else old(maxBufferSize)
      ensures outputBuffer == Last(LimitOf(old(maxBufferSize)), old(outputBuffer) + data)
    {
      outputBuffer := outputBuffer + data;
      if maxBufferSize <= 0 {
        maxBufferSize := OUTPUT_LIMIT;
      }
      if |outputBuffer| > maxBufferSize {
        outputBuffer := outputBuffer[|outputBuffer| - maxBufferSize..];
      }
    }

    method AddClient(c: int) returns (snapshot: seq<byte>)
      modifies `clients
      ensures View() == Apply(old(View()), Join(c))
      ensures snapshot == if closed then [] else outputBuffer
    {
      if closed { return []; }
      clients := clients + {c};
      return outputBuffer;
    }

    /** What HandleTerminalConnection does with a new connection: the history is thrown
        away, and the screen is cleared. */
    method Connect(c: int) returns (sent: seq<byte>)
      modifies `clients
      ensures View() == Apply(old(View()), Join(c))
      ensures sent == CLEAR_SCREEN
    {
      var snapshot := AddClient(c);
      return CLEAR_SCREEN;
    }

    method RemoveClient(c: int)
      modifies `clients
      ensures View() == Apply(old(View()), Leave(c))
    {
      clients := clients - {c};
    }

    /** The clients that the caller may then disconnect. */
    method Close() returns (detached: set<int>)
      modifies this
      ensures View() == Apply(old(View()), Op.Close)
      ensures detached == if old(closed) then {} else old(clients)
    {
      if closed { return {}; }
      closed := true;
      detached := clients;
      clients, outputBuffer, utf8Remainder := {}, [], [];
    }
  }
}
