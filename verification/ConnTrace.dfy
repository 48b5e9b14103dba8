/**
 What the operations of a run make of the socket server: which servers and clients are live and which descriptors
 were obtained, told without the slots and the moves between them.
 */
module ConnTrace {
  import opened Basics
  import opened Counting
  import opened ConnTable

  // ---------------------------------------------------------------- the tables agree in every run

  lemma ConnClosedTables(l: Loop, t: nat, k: nat)
    requires TablesAgree(l) && t in l.tables && k < |l.tables[t]|
    ensures TablesAgree(ConnClosed(l, t, k))
  {
    TableChanged(l, ConnClosed(l, t, k), t);
  }

  lemma RefusedTables(l: Loop, fd: int)
    requires TablesAgree(l)
    ensures TablesAgree(Refused(l, fd)) && TablesAgree(Refused(l.(nextId := l.nextId + 1), fd))
  {
    var m, o := Refused(l, fd), Refused(l.(nextId := l.nextId + 1), fd);
    forall t | t in l.tables ensures IsServer(m, t) && IsServer(o, t) {
      var i :| 0 <= i < |l.servers| && l.servers[i].id == t;
      assert m.servers[i].id == t && o.servers[i].id == t;
    }
  }

  lemma AcceptedTables(l: Loop, i: nat, fd: int)
    requires TablesAgree(l) && i < |l.servers| && |l.tables[l.servers[i].id]| < CONN_CAP
    ensures TablesAgree(Accepted(l, i, fd))
  {
    TableChanged(l, Accepted(l, i, fd), l.servers[i].id);
  }

  lemma ServerClosedTables(l: Loop, i: nat, repairs: bool)
    requires TablesAgree(l) && i < |l.servers|
    ensures TablesAgree(ServerClosed(l, i, repairs))
  {
    var c := AllClosed(l, l.servers[i].id);
    TableChanged(l, c, l.servers[i].id);
    RemovedTables(c, i, repairs);
  }

  lemma EventClosedTables(l: Loop, fd: int)
    requires TablesAgree(l) && HasEvent(l, fd)
    ensures TablesAgree(EventClosed(l, fd))
  {
    var u := l.kq[fd];
    if FoundThrough(l, u) {
      ConnClosedTables(l, u.table, u.k);
    } else {
      TableChanged(l, EventClosed(l, fd), u.table);
    }
  }

  lemma CreateByTables(l: Loop, fd: int, outcome: Outcome)
    requires TablesAgree(l)
    ensures TablesAgree(CreateBy(l, fd, outcome))
  {
    RefusedTables(l, fd);
    if |l.servers| < SERVER_CAP { CreatedTables(l, fd); }
  }

  lemma AcceptByTables(l: Loop, i: nat, fd: int, outcome: Outcome)
    requires TablesAgree(l) && i < |l.servers|
    ensures TablesAgree(AcceptBy(l, i, fd, outcome))
  {
    RefusedTables(l, fd);
    if |l.tables[l.servers[i].id]| < CONN_CAP { AcceptedTables(l, i, fd); }
  }

  lemma AppliedTables(l: Loop, op: Op, repairs: bool)
    requires TablesAgree(l) && Possible(l, op)
    ensures TablesAgree(Apply(l, op, repairs))
  {
    match op {
      case Create(fd, outcome) => CreateByTables(l, fd, outcome);
      case Accept(i, fd, outcome) => AcceptByTables(l, i, fd, outcome);
      case CloseConn(t, k) => ConnClosedTables(l, t, k);
      case CloseServer(i) => ServerClosedTables(l, i, repairs);
      case EventClose(fd) => EventClosedTables(l, fd);
    }
  }

  lemma {:induction false} TablesAlwaysAgree(ops: seq<Op>, repairs: bool)
    ensures TablesAgree(After(ops, repairs))
  {
    if ops != [] {
      var l, op := After(ops[..|ops| - 1], repairs), ops[|ops| - 1];
      TablesAlwaysAgree(ops[..|ops| - 1], repairs);
      if Possible(l, op) { AppliedTables(l, op, repairs); }
    }
  }

  // ---------------------------------------------------------------- the live servers

  /** A creation that works adds a server with the next id, unless there are as many as there can be. */
  function Opened(l: Loop, op: Op): set<Server> {
    if op.Create? && op.created.Works? && |l.servers| < SERVER_CAP then {Server(l.nextId, op.fd)} else {}
  }

  function Gone(l: Loop, op: Op): set<Server> {
    if op.CloseServer? && op.s < |l.servers| then {l.servers[op.s]} else {}
  }

  /** The servers that were created in the run and not closed since. */
  function LiveServers(ops: seq<Op>, repairs: bool): set<Server> {
    if ops == [] then {}
    else
      var l, op, live := After(ops[..|ops| - 1], repairs), ops[|ops| - 1], LiveServers(ops[..|ops| - 1], repairs);
      if Possible(l, op) then live + Opened(l, op) - Gone(l, op) else live
  }

  function ServerSet(servers: seq<Server>): set<Server> { set s | s in servers }

  lemma SetSnoc(servers: seq<Server>, s: Server)
    ensures ServerSet(servers + [s]) == ServerSet(servers) + {s}
  {
  }

  lemma SetWithout(servers: seq<Server>, i: nat)
    requires i < |servers| && forall j, k :: 0 <= j < k < |servers| ==> servers[j].id != servers[k].id
    ensures ServerSet(SwapRemove(servers, i)) == ServerSet(servers) - {servers[i]}
  {
    var rest, last := SwapRemove(servers, i), |servers| - 1;
    assert forall j :: 0 <= j < last ==> rest[j] == servers[if j == i then last else j];
    forall s | s in servers && s != servers[i] ensures s in rest {
      var j :| 0 <= j < |servers| && servers[j] == s;
      assert rest[if j == last then i else j] == s;
    }
    forall s | s in rest ensures s in servers && s != servers[i] {
      var j :| 0 <= j < last && rest[j] == s;
      assert servers[if j == i then last else j] == s;
    }
  }

  lemma AppliedServers(l: Loop, op: Op, repairs: bool)
    requires TablesAgree(l) && Possible(l, op)
    ensures ServerSet(Apply(l, op, repairs).servers) == ServerSet(l.servers) + Opened(l, op) - Gone(l, op)
  {
    match op {
      case Create(fd, outcome) => SetSnoc(l.servers, Server(l.nextId, fd));
      case CloseServer(i) => SetWithout(l.servers, i);
      case _ =>
    }
  }

  /** In every run the servers in the table are those that were created and not closed since. */
  lemma {:induction false} ServersAreLive(ops: seq<Op>, repairs: bool)
    ensures ServerSet(After(ops, repairs).servers) == LiveServers(ops, repairs)
    ensures forall t :: t in After(ops, repairs).tables <==> exists s :: s in LiveServers(ops, repairs) && s.id == t
  {
    TablesAlwaysAgree(ops, repairs);
    if ops != [] {
      var l, op := After(ops[..|ops| - 1], repairs), ops[|ops| - 1];
      ServersAreLive(ops[..|ops| - 1], repairs);
      TablesAlwaysAgree(ops[..|ops| - 1], repairs);
      if Possible(l, op) { AppliedServers(l, op, repairs); }
    }
    TablesAreServers(After(ops, repairs));
  }

  lemma TablesAreServers(l: Loop)
    requires TablesAgree(l)
    ensures forall t :: t in l.tables <==> exists s :: s in ServerSet(l.servers) && s.id == t
  {
    forall t | t in l.tables ensures exists s :: s in ServerSet(l.servers) && s.id == t {
      assert IsServer(l, t);
      var i :| 0 <= i < |l.servers| && l.servers[i].id == t;
      assert l.servers[i] in ServerSet(l.servers);
    }
  }

  // ---------------------------------------------------------------- the live clients

  function HasFd(fd: int): Conn -> bool { (c: Conn) => c.fd == fd }

  /** How many connections of server t have descriptor x; in a good state that is none or one. */
  function ClientTimes(l: Loop, t: nat, x: int): nat { if t in l.tables then Count(l.tables[t], HasFd(x)) else 0 }

  /** An accepted client for which there is room, of server t and with descriptor x. */
  predicate Enters(l: Loop, op: Op, t: nat, x: int)
    requires TablesAgree(l) && Possible(l, op)
  {
    && op.Accept? && op.client == x && op.accepted.Works? && l.servers[op.i].id == t
    && |l.tables[t]| < CONN_CAP
  }

  /** A client of server t with descriptor x that is closed by itself. */
  predicate Leaves(l: Loop, op: Op, t: nat, x: int)
    requires TablesAgree(l) && Possible(l, op)
  {
    match op
    case CloseConn(u, k) => u == t && l.tables[u][k].fd == x
    case EventClose(fd) =>
      var u := l.kq[fd];
      FoundThrough(l, u) && u.table == t && l.tables[t][u.k].fd == x
    case _ => false
  }

  predicate ClosesServer(l: Loop, op: Op, t: nat)
    requires TablesAgree(l) && Possible(l, op)
  {
    op.CloseServer? && l.servers[op.s].id == t
  }

  /** How many clients of server t with descriptor x were accepted in the run and not closed since. */
  ghost function LiveClients(ops: seq<Op>, t: nat, x: int, repairs: bool): int {
    if ops == [] then 0
    else
      var l, op := After(ops[..|ops| - 1], repairs), ops[|ops| - 1];
      var live := LiveClients(ops[..|ops| - 1], t, x, repairs);
      TablesAlwaysAgree(ops[..|ops| - 1], repairs);
      if !Possible(l, op) then live
      else if ClosesServer(l, op, t) then 0
      else live + Bit(Enters(l, op, t, x)) - Bit(Leaves(l, op, t, x))
  }

  lemma ClosedClients(l: Loop, u: nat, k: nat, t: nat, x: int)
    requires u in l.tables && k < |l.tables[u]|
    ensures ClientTimes(ConnClosed(l, u, k), t, x) + Bit(u == t && l.tables[u][k].fd == x) == ClientTimes(l, t, x)
  {
    CountSwapRemove(l.tables[u], k, HasFd(x));
  }

  lemma RemovedClients(l: Loop, i: nat, repairs: bool, t: nat, x: int)
    requires TablesAgree(l) && i < |l.servers|
    ensures ClientTimes(ServerClosed(l, i, repairs), t, x)
         == if l.servers[i].id == t then 0 else ClientTimes(l, t, x)
  {
    var c := AllClosed(l, l.servers[i].id);
    TableChanged(l, c, l.servers[i].id);
    RemovalClients(c, i, repairs, t, x);
  }

  lemma RemovalClients(l: Loop, i: nat, repairs: bool, t: nat, x: int)
    requires TablesAgree(l) && i < |l.servers|
    ensures ClientTimes(ServerRemoved(l, i, repairs), t, x)
         == if l.servers[i].id == t then 0 else ClientTimes(l, t, x)
  {
    var moved := l.servers[|l.servers| - 1].id;
    RepointedOnly(l.tables[moved], i);
    CountSame(l.tables[moved], Repointed(l.tables[moved], i), HasFd(x));
  }

  lemma EnteredClients(l: Loop, i: nat, fd: int, t: nat, x: int)
    requires i < |l.servers| && l.servers[i].id in l.tables
    ensures ClientTimes(Accepted(l, i, fd), t, x)
         == ClientTimes(l, t, x) + Bit(l.servers[i].id == t && fd == x)
  {
    var table := l.tables[l.servers[i].id];
    CountConcat(table, [Conn(fd, i)], HasFd(x));
    CountOne(Conn(fd, i), HasFd(x));
  }

  lemma NewServerClients(l: Loop, fd: int, t: nat, x: int)
    requires TablesAgree(l)
    ensures ClientTimes(Created(l, fd), t, x) == ClientTimes(l, t, x)
  {
    NextIdUnused(l);
  }

  lemma AppliedClients(l: Loop, op: Op, repairs: bool, t: nat, x: int)
    requires TablesAgree(l) && Possible(l, op)
    ensures ClientTimes(Apply(l, op, repairs), t, x)
         == if ClosesServer(l, op, t) then 0
            else ClientTimes(l, t, x) + Bit(Enters(l, op, t, x)) - Bit(Leaves(l, op, t, x))
  {
    match op {
      case Create(fd, _) => NewServerClients(l, fd, t, x);
      case Accept(i, fd, _) => EnteredClients(l, i, fd, t, x);
      case CloseConn(u, k) => ClosedClients(l, u, k, t, x);
      case CloseServer(i) => RemovedClients(l, i, repairs, t, x);
      case EventClose(fd) =>
        var u := l.kq[fd];
        if FoundThrough(l, u) { ClosedClients(l, u.table, u.k, t, x); }
    }
  }

  /** In every run the connections of a server are its clients that were accepted and not closed since. */
  lemma {:induction false} ClientsAreLive(ops: seq<Op>, t: nat, x: int, repairs: bool)
    ensures ClientTimes(After(ops, repairs), t, x) == LiveClients(ops, t, x, repairs)
  {
    if ops != [] {
      var l, op := After(ops[..|ops| - 1], repairs), ops[|ops| - 1];
      ClientsAreLive(ops[..|ops| - 1], t, x, repairs);
      TablesAlwaysAgree(ops[..|ops| - 1], repairs);
      if Possible(l, op) { AppliedClients(l, op, repairs, t, x); }
    }
  }

  // ---------------------------------------------------------------- the descriptors

  /** The descriptors that the operations got from the system, in order. */
  function ObtainedIn(ops: seq<Op>, repairs: bool): seq<int> {
    if ops == [] then []
    else
      var l, op := After(ops[..|ops| - 1], repairs), ops[|ops| - 1];
      ObtainedIn(ops[..|ops| - 1], repairs) + if Possible(l, op) then Obtained(l, op) else []
  }

  function Obtained(l: Loop, op: Op): seq<int> {
    if op.Create? && |l.servers| < SERVER_CAP then [op.fd] else if op.Accept? then [op.client] else []
  }

  lemma AppliedAcquired(l: Loop, op: Op, repairs: bool)
    requires TablesAgree(l) && Possible(l, op)
    ensures Apply(l, op, repairs).acquired == l.acquired + Obtained(l, op)
  {
    if op.CloseServer? { AllClosedAcquired(l, l.servers[op.s].id); }
  }

  lemma {:induction false} ObtainedAre(ops: seq<Op>, repairs: bool)
    ensures After(ops, repairs).acquired == ObtainedIn(ops, repairs)
  {
    if ops != [] {
      var l, op := After(ops[..|ops| - 1], repairs), ops[|ops| - 1];
      ObtainedAre(ops[..|ops| - 1], repairs);
      TablesAlwaysAgree(ops[..|ops| - 1], repairs);
      if Possible(l, op) { AppliedAcquired(l, op, repairs); }
    }
  }

  lemma {:induction false} AllClosedAcquired(l: Loop, t: nat)
    requires t in l.tables
    ensures AllClosed(l, t).acquired == l.acquired
    decreases |l.tables[t]|
  {
    if l.tables[t] != [] { AllClosedAcquired(ConnClosed(l, t, |l.tables[t]| - 1), t); }
  }

  /**
   Over every run in which no server with connections moves, or they are repaired: a descriptor was closed as often
   as it was obtained, but for once if it is that of a live server or of a live client.
   */
  lemma DescriptorsAccounted(ops: seq<Op>, repairs: bool, fd: int)
    requires repairs || KeepsPointersAlways(ops, repairs)
    ensures Times(ObtainedIn(ops, repairs), fd)
         == Times(After(ops, repairs).closed, fd) + Bit(LiveFd(ops, repairs, fd))
  {
    var l := After(ops, repairs);
    RunGood(ops, repairs);
    ObtainedAre(ops, repairs);
    ServersAreLive(ops, repairs);
    assert Times(l.acquired, fd) == Times(l.closed, fd) + Bit(fd in l.kq);
    WatchedIsLive(l, fd);
    forall t ensures ClientTimes(l, t, fd) == LiveClients(ops, t, fd, repairs) { ClientsAreLive(ops, t, fd, repairs); }
  }

  ghost predicate LiveFd(ops: seq<Op>, repairs: bool, fd: int) {
    || (exists s :: s in LiveServers(ops, repairs) && s.listenFd == fd)
    || exists t :: LiveClients(ops, t, fd, repairs) > 0
  }

  lemma WatchedIsLive(l: Loop, fd: int)
    requires Good(l)
    ensures fd in l.kq <==> (exists s :: s in ServerSet(l.servers) && s.listenFd == fd)
                            || exists t :: ClientTimes(l, t, fd) > 0
  {
    if fd in l.kq {
      match l.kq[fd] {
        case ServerSlot(i) => assert l.servers[i] in ServerSet(l.servers);
        case ConnSlot(t, k) =>
          assert HasFd(fd)(l.tables[t][k]);
          CountPositive(l.tables[t], HasFd(fd));
          assert ClientTimes(l, t, fd) > 0;
      }
    }
    if s :| s in ServerSet(l.servers) && s.listenFd == fd {
      var i :| 0 <= i < |l.servers| && l.servers[i] == s;
      assert FdAt(l, ServerSlot(i)) == Some(fd);
    }
    if t :| ClientTimes(l, t, fd) > 0 {
      CountPositive(l.tables[t], HasFd(fd));
      var k :| 0 <= k < |l.tables[t]| && HasFd(fd)(l.tables[t][k]);
      assert FdAt(l, ConnSlot(t, k)) == Some(fd);
    }
  }
}
