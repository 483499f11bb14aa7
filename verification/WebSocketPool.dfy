/** The WebSocket connection pool: clients by user, administrators apart, and a counter
    that must agree with a set. */
module WebSocketPool {
  import opened Text
  import Sets

  datatype Metadata = Metadata(user: int, kind: string, role: string)

  /** A client: its identity, the user it was added for, and what is recorded with it. */
  datatype Client = Client(id: nat, user: int, meta: Option<Metadata>)

  datatype Pool = Pool(
    users: map<int, set<Client>>,
    admins: set<Client>,
    systemInfo: int,
    added: set<Client>,     // every client ever added
    closed: set<Client>)

  predicate IsAdmin(c: Client) {
    c.meta.Some? && c.meta.value.role == "admin"
  }

  predicate WantsSystemInfo(c: Client) {
    IsAdmin(c) && c.meta.value.kind == "systemInfo"
  }

  /** What the callers record: an administrator, or a user under its own id. */
  predicate WellRoled(c: Client) {
    c.meta.Some? && (c.meta.value.role == "admin" || (c.meta.value.role == "user" && c.meta.value.user == c.user))
  }

  function Added(p: Pool, c: Client): Pool {
    var q := p.(added := p.added + {c});
    if IsAdmin(c) then q.(admins := p.admins + {c}, systemInfo := p.systemInfo + if WantsSystemInfo(c) then 1 else 0)
    else q.(users := p.users[c.user := (if c.user in p.users then p.users[c.user] else {}) + {c}])
  }

  function WithoutUserClient(users: map<int, set<Client>>, user: int, c: Client): map<int, set<Client>> {
    if user !in users then users
    else if users[user] - {c} == {} then users - {user}
    else users[user := users[user] - {c}]
  }

  /** Close runs once per client; the role decides where it is looked for. Without
      metadata it panics, which counts as having run. */
  function Closed(p: Pool, c: Client): Pool {
    if c in p.closed then p
    else if c.meta.None? then p.(closed := p.closed + {c})
    else
      var q := p.(closed := p.closed + {c});
      var m := c.meta.value;
      if m.role == "user" then q.(users := WithoutUserClient(p.users, m.user, c))
      else if m.role == "admin" then
        q.(admins := p.admins - {c},
           systemInfo := if m.kind == "systemInfo" && p.systemInfo > 0 then p.systemInfo - 1 else p.systemInfo)
      else q
  }

  const EMPTY := Pool(map[], {}, 0, {}, {})

  // ------------------------------------------------------------------- invariant

  function Open(p: Pool): set<Client> { p.added - p.closed }

  /** The clients the pool has not let go of: the open ones, and those that closing does
      not find. */
  function Held(p: Pool): set<Client> {
    set c | c in p.added && (c !in p.closed || !WellRoled(c))
  }

  function HeldOf(p: Pool, user: int): set<Client> {
    set c | c in Held(p) && !IsAdmin(c) && c.user == user
  }

  function Admins(clients: set<Client>): set<Client> { set c | c in clients && IsAdmin(c) }

  function Watchers(clients: set<Client>): set<Client> { set c | c in clients && WantsSystemInfo(c) }

  /** Each user with a held client has exactly those under its id. */
  ghost predicate UsersFit(p: Pool) {
    && (forall u :: u in p.users ==> p.users[u] != {} && p.users[u] == HeldOf(p, u))
    && (forall c :: c in Held(p) && !IsAdmin(c) ==> c.user in p.users)
  }

  /** The maps hold exactly the held clients, no user has an empty set, and the counter is
      the number of open administrators that watch the system. */
  ghost predicate Inv(p: Pool) {
    && p.closed <= p.added
    && p.admins == Admins(Open(p))
    && UsersFit(p)
    && p.systemInfo == |Watchers(Open(p))|
  }

  lemma OneMore(open: set<Client>, c: Client)
    requires c !in open
    ensures Admins(open + {c}) == if IsAdmin(c) then Admins(open) + {c} else Admins(open)
    ensures |Watchers(open + {c})| == |Watchers(open)| + if WantsSystemInfo(c) then 1 else 0
  {
    assert Watchers(open + {c}) == if WantsSystemInfo(c) then Watchers(open) + {c} else Watchers(open);
  }

  lemma AddInv(p: Pool, c: Client)
    requires Inv(p) && c !in p.added
    ensures Inv(Added(p, c))
  {
    assert Open(Added(p, c)) == Open(p) + {c};
    OneMore(Open(p), c);
    AddUsers(p, c);
  }

  lemma AddUsers(p: Pool, c: Client)
    requires UsersFit(p) && p.closed <= p.added && c !in p.added
    ensures UsersFit(Added(p, c))
  {
    var q := Added(p, c);
    assert Held(q) == Held(p) + {c};
    forall u | u in q.users ensures q.users[u] != {} && q.users[u] == HeldOf(q, u) {
      AddedOf(p, c, u);
      if u !in p.users { NoneHeldOf(p, u); }
    }
  }

  lemma AddedOf(p: Pool, c: Client, u: int)
    requires c !in p.added && c !in p.closed
    ensures HeldOf(Added(p, c), u) == if u == c.user && !IsAdmin(c) then HeldOf(p, u) + {c} else HeldOf(p, u)
  {
    assert Held(Added(p, c)) == Held(p) + {c};
  }

  lemma NoneHeldOf(p: Pool, u: int)
    requires UsersFit(p) && u !in p.users
    ensures HeldOf(p, u) == {}
  {
  }

  lemma HeldAfterClose(p: Pool, c: Client)
    requires c in p.added
    ensures Held(Closed(p, c)) == if WellRoled(c) then Held(p) - {c} else Held(p)
    ensures Open(Closed(p, c)) == Open(p) - {c}
  {
  }

  lemma CloseInv(p: Pool, c: Client)
    requires Inv(p) && c in p.added
    ensures Inv(Closed(p, c))
    ensures Open(Closed(p, c)) == Open(p) - {c}
  {
    HeldAfterClose(p, c);
    if c !in p.closed {
      OneMore(Open(p) - {c}, c);
      assert Open(p) - {c} + {c} == Open(p);
      if WellRoled(c) {
        CloseUsers(p, c);
      } else {
        ClosedInVain(p, c);
      }
    }
  }

  /** A client that closing does not find leaves the maps as they are. */
  lemma ClosedInVain(p: Pool, c: Client)
    requires UsersFit(p) && c in p.added && c !in p.closed && !WellRoled(c)
    ensures Closed(p, c) == p.(closed := p.closed + {c})
    ensures UsersFit(Closed(p, c))
  {
    HeldAfterClose(p, c);
    if c.meta.Some? && c.meta.value.role == "user" && c.meta.value.user in p.users {
      var u := c.meta.value.user;
      assert c !in HeldOf(p, u);
      assert p.users[u] - {c} == p.users[u];
    }
    assert Closed(p, c).users == p.users;
    assert forall u :: HeldOf(Closed(p, c), u) == HeldOf(p, u);
  }

  lemma CloseUsers(p: Pool, c: Client)
    requires UsersFit(p) && c in Open(p) && WellRoled(c)
    ensures UsersFit(Closed(p, c))
  {
    var q := Closed(p, c);
    HeldAfterClose(p, c);
    forall u | u in q.users ensures q.users[u] != {} && q.users[u] == HeldOf(q, u) {
      ClosedOf(p, c, u);
    }
    forall d | d in Held(q) && !IsAdmin(d) ensures d.user in q.users {
      CloseSparesOthers(p, c, d);
    }
  }

  lemma CloseSparesOthers(p: Pool, c: Client, d: Client)
    requires UsersFit(p) && c in Open(p) && WellRoled(c) && d in Held(p) && d != c && !IsAdmin(d)
    ensures d.user in Closed(p, c).users
  {
    assert d in HeldOf(p, d.user);
    assert d in p.users[d.user] - {c};
  }

  lemma ClosedOf(p: Pool, c: Client, u: int)
    requires c in p.added && c !in p.closed && WellRoled(c)
    ensures HeldOf(Closed(p, c), u) == HeldOf(p, u) - {c}
  {
    HeldAfterClose(p, c);
  }

  // ------------------------------------------------------------------------ runs

  datatype Step = Add(client: Client) | Close(client: Client)

  /** Clients are added once, and closed, any number of times, after that. */
  predicate Enabled(p: Pool, s: Step) {
    match s
    case Add(c) => c !in p.added
    case Close(c) => c in p.added
  }

  ghost predicate IsRun(trace: seq<Pool>, steps: seq<Step>) {
    && |trace| == |steps| + 1 && trace[0] == EMPTY
    && forall i :: 0 <= i < |steps| ==>
         && Enabled(trace[i], steps[i])
         && trace[i + 1] == (match steps[i] case Add(c) => Added(trace[i], c) case Close(c) => Closed(trace[i], c))
  }

  lemma {:induction false} RunInv(trace: seq<Pool>, steps: seq<Step>, k: nat)
    requires IsRun(trace, steps) && k < |trace|
    ensures Inv(trace[k])
  {
    if k > 0 {
      RunInv(trace, steps, k - 1);
      match steps[k - 1]
      case Add(c) => AddInv(trace[k - 1], c);
      case Close(c) => CloseInv(trace[k - 1], c);
    }
  }

  ghost predicate Remains(p: Pool, c: Client) {
    c in p.admins || exists u :: u in p.users && c in p.users[u]
  }

  lemma RemainsExactly(p: Pool, c: Client)
    requires Inv(p)
    ensures Remains(p, c) <==> c in Held(p)
  {
    if c in Held(p) && !IsAdmin(c) { assert c in HeldOf(p, c.user) && c in p.users[c.user]; }
  }

  /** Over every run of adding clients of any role and, repeatedly, closing them: the
      counter is the number of open system-info administrators, no user is left with an
      empty set, and the maps hold exactly the open clients and the closed ones that are
      neither administrators nor users under their own id. */
  lemma CounterAgrees(trace: seq<Pool>, steps: seq<Step>, k: nat, c: Client)
    requires IsRun(trace, steps) && k < |trace|
    ensures trace[k].systemInfo == |Watchers(Open(trace[k]))|
    ensures forall u :: u in trace[k].users ==> trace[k].users[u] != {}
    ensures Remains(trace[k], c) <==> c in Open(trace[k]) || (c in trace[k].closed && !WellRoled(c))
  {
    RunInv(trace, steps, k);
    RemainsExactly(trace[k], c);
  }

  // ------------------------------------------------------------------- the class

  class ConnectionPool {
    var userClients: map<int, set<Client>>
    var adminClients: set<Client>
    var systemInfoCount: int
    ghost var added: set<Client>
    var closed: set<Client>

    ghost function View(): Pool
      reads this
    {
      Pool(userClients, adminClients, systemInfoCount, added, closed)
    }

    constructor ()
      ensures View() == EMPTY
    {
      userClients, adminClients, systemInfoCount, added, closed := map[], {}, 0, {}, {};
    }

    method Add(c: Client)
      modifies this
      ensures View() == Added(old(View()), c)
    {
      if c.meta.Some? && c.meta.value.role == "admin" {
        adminClients := adminClients + {c};
        if c.meta.value.kind == "systemInfo" {
          systemInfoCount := systemInfoCount + 1;
        }
      } else {
        if c.user !in userClients {
          userClients := userClients[c.user := {}];
        }
        userClients := userClients[c.user := userClients[c.user] + {c}];
      }
      added := added + {c};
    }

    method Close(c: Client) returns (panics: bool)
      modifies this
      ensures View() == Closed(old(View()), c)
      ensures panics <==> c !in old(closed) && c.meta.None?
    {
      if c in closed { return false; }
      if c.meta.None? {
        closed := closed + {c};
        return true;
      }
      panics := false;
      var m := c.meta.value;
      if m.role == "user" {
        RemoveUserClient(m.user, c);
      } else if m.role == "admin" {
        adminClients := adminClients - {c};
        if m.kind == "systemInfo" {
          if systemInfoCount > 0 {
            systemInfoCount := systemInfoCount - 1;
          }
        }
      }
      closed := closed + {c};
    }

    method RemoveUserClient(user: int, c: Client)
      modifies `userClients
      ensures userClients == WithoutUserClient(old(userClients), user, c)
    {
      if user in userClients {
        var clients := userClients[user] - {c};
        if clients == {} {
          userClients := userClients - {user};
        } else {
          userClients := userClients[user := clients];
        }
      }
    }

    method GetTotalConnectionCount() returns (total: nat)
      requires Inv(View())
      ensures total == |Held(View())|
    {
      total := |adminClients|;
      var todo := userClients.Keys;
      NoneCounted(View());
      while todo != {}
        invariant todo <= userClients.Keys
        invariant total == |Counted(View(), todo)|
      {
        Sets.SomeElement(todo);
        var u :| u in todo;
        CountedMore(View(), todo, u);
        total := total + |userClients[u]|;
        todo := todo - {u};
      }
      assert Counted(View(), {}) == Held(View());
    }

    /** Ends early when the close of a client without metadata panics. Otherwise nobody is
        open any more, and only those remain that closing does not find. */
    method CloseAll() returns (panics: bool)
      requires Inv(View())
      modifies this
      ensures Inv(View())
      ensures panics ==> exists c :: c in old(Open(View())) && c.meta.None?
      ensures !panics ==> Open(View()) == {} && adminClients == {} && systemInfoCount == 0
      ensures !panics && (forall c :: c in added ==> WellRoled(c)) ==> userClients == map[]
    {
      var all := set u, c | u in userClients && c in userClients[u] :: c;
      var admins := adminClients;
      CollectedAll(View(), all);
      panics := CloseEach(all);
      if panics { return; }
      panics := CloseEach(admins);
      if !panics { NothingOpen(View()); }
    }

    method CloseEach(clients: set<Client>) returns (panics: bool)
      requires Inv(View()) && clients <= added
      modifies this
      ensures Inv(View()) && added == old(added) && old(closed) <= closed
      ensures panics ==> exists c :: c in old(Open(View())) && c.meta.None?
      ensures !panics ==> Open(View()) == old(Open(View())) - clients
    {
      panics := false;
      var todo := clients;
      while todo != {}
        invariant Inv(View()) && todo <= clients && clients <= added == old(added) && old(closed) <= closed
        invariant Open(View()) == old(Open(View())) - (clients - todo)
      {
        var c :| c in todo;
        CloseInv(View(), c);
        panics := Close(c);
        if panics {
          assert c in old(Open(View())) && c.meta.None?;
          return;
        }
        todo := todo - {c};
      }
    }
  }

  lemma CollectedAll(p: Pool, all: set<Client>)
    requires Inv(p) && all == set u, c | u in p.users && c in p.users[u] :: c
    ensures all <= p.added && p.admins <= p.added && Open(p) - all - p.admins == {}
  {
    forall c | c in Open(p) && !IsAdmin(c) ensures c in all {
      assert c in HeldOf(p, c.user);
      assert c.user in p.users && c in p.users[c.user];
    }
  }

  /** The held clients counted once the users in `todo` are left to count. */
  ghost function Counted(p: Pool, todo: set<int>): set<Client> {
    set c | c in Held(p) && (IsAdmin(c) || c.user !in todo)
  }

  lemma NoneCounted(p: Pool)
    requires Inv(p)
    ensures Counted(p, p.users.Keys) == p.admins
  {
  }

  lemma CountedMore(p: Pool, todo: set<int>, u: int)
    requires Inv(p) && u in todo && todo <= p.users.Keys
    ensures |Counted(p, todo - {u})| == |Counted(p, todo)| + |p.users[u]|
  {
    assert Counted(p, todo - {u}) == Counted(p, todo) + HeldOf(p, u);
    assert Counted(p, todo) !! HeldOf(p, u);
  }

  lemma UsersHaveClients(p: Pool)
    requires Inv(p)
    ensures p.users != map[] ==> Held(p) != {}
  {
    if p.users != map[] {
      Sets.SomeKey(p.users);
      var u :| u in p.users;
      var c :| c in p.users[u];
      assert c in HeldOf(p, u);
      assert c in Held(p);
    }
  }

  lemma NothingOpen(p: Pool)
    requires Inv(p) && Open(p) == {}
    ensures p.admins == {} && p.systemInfo == 0
    ensures (forall c :: c in p.added ==> WellRoled(c)) ==> p.users == map[]
  {
    assert Watchers(Open(p)) == {};
    if forall c :: c in p.added ==> WellRoled(c) {
      assert forall c :: c in p.added ==> c !in Open(p) ==> c in p.closed;
      assert Held(p) == {};
      UsersHaveClients(p);
    }
  }

  /** Without clients that are not let go of, the count is that of the open ones. */
  lemma HeldIsOpen(p: Pool)
    ensures Held(p) == Open(p) <==> forall c :: c in p.added && c in p.closed ==> WellRoled(c)
  {
    if Held(p) == Open(p) {
      forall c | c in p.added && c in p.closed ensures WellRoled(c) {
        assert c !in Open(p);
        assert c !in Held(p);
      }
    }
  }
}
