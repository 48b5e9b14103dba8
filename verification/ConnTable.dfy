/** The server and connection tables of unix_socket_server.cpp and the event queue that points into them. */
module ConnTable {
  import opened Basics
  import opened Counting

  const CONN_CAP := 64
  const SERVER_CAP := 32

  /** A live connection slot; server is where its m_server points, as a slot of the server table. */
  datatype Conn = Conn(fd: int, server: nat)

  /** A live server slot. Its connections are in the table that is allocated with its id. */
  datatype Server = Server(id: nat, listenFd: int)

  /** What an event carries: the address of a slot. */
  datatype Udata = ServerSlot(i: nat) | ConnSlot(table: nat, k: nat)

  /** acquired and closed list the descriptors obtained and given back, for the properties only. */
  datatype Loop = Loop(servers: seq<Server>, tables: map<nat, seq<Conn>>, kq: map<int, Udata>, nextId: nat,
                       acquired: seq<int>, closed: seq<int>)

  const EMPTY := Loop([], map[], map[], 1, [], [])

  function FdAt(l: Loop, u: Udata): Option<int> {
    match u
    case ServerSlot(i) => if i < |l.servers| then Some(l.servers[i].listenFd) else None
    case ConnSlot(t, k) => if t in l.tables && k < |l.tables[t]| then Some(l.tables[t][k].fd) else None
  }

  /** The queue watches the descriptors in live slots and no others, each with the address of its slot. */
  ghost predicate QueueAgrees(l: Loop) {
    && (forall u :: FdAt(l, u).Some? ==> FdAt(l, u).value in l.kq && l.kq[FdAt(l, u).value] == u)
    && (forall fd :: fd in l.kq ==> FdAt(l, l.kq[fd]) == Some(fd))
  }

  predicate ServersKnown(l: Loop) {
    && (forall i :: 0 <= i < |l.servers| ==> l.servers[i].id in l.tables && l.servers[i].id < l.nextId)
    && (forall i, j :: 0 <= i < j < |l.servers| ==> l.servers[i].id != l.servers[j].id)
  }

  predicate TablesKnown(l: Loop) {
    forall t :: t in l.tables ==> |l.tables[t]| <= CONN_CAP && IsServer(l, t)
  }

  /** Every server has its table and every table its server, within the capacities. */
  predicate TablesAgree(l: Loop) { |l.servers| <= SERVER_CAP && ServersKnown(l) && TablesKnown(l) }

  predicate IsServer(l: Loop, id: nat) { exists i :: 0 <= i < |l.servers| && l.servers[i].id == id }

  /** A descriptor was opened once more than closed if it is watched, and else as often. */
  ghost predicate EachClosedOnce(l: Loop) {
    forall fd :: Times(l.acquired, fd) == Times(l.closed, fd) + Bit(fd in l.kq)
  }

  ghost predicate Good(l: Loop) { QueueAgrees(l) && TablesAgree(l) && EachClosedOnce(l) }

  /** The connections of server i point to slot i. */
  predicate PointsTo(l: Loop, i: nat)
    requires i < |l.servers|
  {
    var t := l.servers[i].id;
    t in l.tables && forall k :: 0 <= k < |l.tables[t]| ==> l.tables[t][k].server == i
  }

  predicate ServersRight(l: Loop) { forall i :: 0 <= i < |l.servers| ==> PointsTo(l, i) }

  // ---------------------------------------------------------------- what the operations do

  /** us_server_create, when it succeeds. */
  function Created(l: Loop, fd: int): Loop {
    l.(servers := l.servers + [Server(l.nextId, fd)], tables := l.tables[l.nextId := []],
       kq := l.kq[fd := ServerSlot(|l.servers|)], nextId := l.nextId + 1, acquired := l.acquired + [fd])
  }

  /** A descriptor that is obtained and given back. */
  function Refused(l: Loop, fd: int): Loop { l.(acquired := l.acquired + [fd], closed := l.closed + [fd]) }

  /** A client of server i that is accepted. */
  function Accepted(l: Loop, i: nat, fd: int): Loop
    requires i < |l.servers| && l.servers[i].id in l.tables
  {
    var t := l.servers[i].id;
    l.(tables := l.tables[t := l.tables[t] + [Conn(fd, i)]], kq := l.kq[fd := ConnSlot(t, |l.tables[t]|)],
       acquired := l.acquired + [fd])
  }

  /** close_conn: the last connection moves to the slot that becomes free. */
  function ConnClosed(l: Loop, t: nat, k: nat): Loop
    requires t in l.tables && k < |l.tables[t]|
  {
    var conns := l.tables[t];
    var last := |conns| - 1;
    var without := l.kq - {conns[k].fd};
    l.(tables := l.tables[t := SwapRemove(conns, k)], closed := l.closed + [conns[k].fd],
       kq := if k == last then without else without[conns[last].fd := ConnSlot(t, k)])
  }

  function AllClosed(l: Loop, t: nat): (r: Loop)
    requires t in l.tables
    ensures r.servers == l.servers && r.nextId == l.nextId && t in r.tables && r.tables == l.tables[t := []]
    decreases |l.tables[t]|
  {
    if l.tables[t] == [] then l else AllClosed(ConnClosed(l, t, |l.tables[t]| - 1), t)
  }

  function Repointed(conns: seq<Conn>, i: nat): seq<Conn> {
    if conns == [] then [] else [conns[0].(server := i)] + Repointed(conns[1..], i)
  }

  /** The tail of us_server_close, for a server without connections; repairs is not in the code. */
  function ServerRemoved(l: Loop, i: nat, repairs: bool): Loop
    requires i < |l.servers| && l.servers[|l.servers| - 1].id in l.tables
  {
    var gone, moved, last := l.servers[i], l.servers[|l.servers| - 1], |l.servers| - 1;
    var kq, tables := l.kq - {gone.listenFd}, l.tables - {gone.id};
    l.(servers := SwapRemove(l.servers, i), closed := l.closed + [gone.listenFd],
       kq := if i == last then kq else kq[moved.listenFd := ServerSlot(i)],
       tables := if repairs && i != last then tables[moved.id := Repointed(l.tables[moved.id], i)] else tables)
  }

  function ServerClosed(l: Loop, i: nat, repairs: bool): Loop
    requires i < |l.servers| && TablesAgree(l)
  {
    ServerRemoved(AllClosed(l, l.servers[i].id), i, repairs)
  }

  // ---------------------------------------------------------------- what they keep

  lemma TimesSnoc(s: seq<int>, fd: int, x: int)
    ensures Times(s + [fd], x) == Times(s, x) + Bit(x == fd)
  {
    CountConcat(s, [fd], Is(x));
  }

  /** A descriptor enters slot u. */
  lemma QueueEnter(l: Loop, m: Loop, u: Udata, fd: int)
    requires QueueAgrees(l) && fd !in l.kq && FdAt(l, u).None?
    requires forall v :: FdAt(m, v) == if v == u then Some(fd) else FdAt(l, v)
    requires m.kq == l.kq[fd := u]
    ensures QueueAgrees(m)
  {
  }

  /** The descriptor in slot u is closed, and that in slot last takes its place. */
  lemma QueueLeave(l: Loop, m: Loop, u: Udata, last: Udata)
    requires QueueAgrees(l) && FdAt(l, u).Some? && FdAt(l, last).Some?
    requires forall v :: FdAt(m, v) == if v == last then None else if v == u then FdAt(l, last) else FdAt(l, v)
    requires m.kq == KqAfter(l, u, last)
    ensures QueueAgrees(m)
  {
    forall v | FdAt(m, v).Some? ensures FdAt(m, v).value in m.kq && m.kq[FdAt(m, v).value] == v {
      assert v != last;
      assert l.kq[FdAt(l, if v == u then last else v).value] == if v == u then last else v;
    }
  }

  function KqAfter(l: Loop, u: Udata, last: Udata): map<int, Udata>
    requires FdAt(l, u).Some? && FdAt(l, last).Some?
  {
    var rest := l.kq - {FdAt(l, u).value};
    if u == last then rest else rest[FdAt(l, last).value := u]
  }

  lemma CountEnter(l: Loop, m: Loop, u: Udata, fd: int)
    requires EachClosedOnce(l) && fd !in l.kq
    requires m.kq == l.kq[fd := u] && m.acquired == l.acquired + [fd] && m.closed == l.closed
    ensures EachClosedOnce(m)
  {
    forall x ensures Times(m.acquired, x) == Times(m.closed, x) + Bit(x in m.kq) { TimesSnoc(l.acquired, fd, x); }
  }

  lemma CountLeave(l: Loop, m: Loop, u: Udata, last: Udata)
    requires EachClosedOnce(l) && QueueAgrees(l) && FdAt(l, u).Some? && FdAt(l, last).Some?
    requires m.kq == KqAfter(l, u, last)
    requires m.acquired == l.acquired && m.closed == l.closed + [FdAt(l, u).value]
    ensures EachClosedOnce(m)
  {
    var fd := FdAt(l, u).value;
    assert FdAt(l, last).value in l.kq && (u != last ==> FdAt(l, last).value != fd);
    assert forall x :: x in m.kq <==> x in l.kq && x != fd;
    forall x ensures Times(m.acquired, x) == Times(m.closed, x) + Bit(x in m.kq) { TimesSnoc(l.closed, fd, x); }
  }

  lemma NextIdUnused(l: Loop)
    requires TablesAgree(l)
    ensures !IsServer(l, l.nextId) && l.nextId !in l.tables
  {
  }

  lemma CreatedTables(l: Loop, fd: int)
    requires TablesAgree(l) && |l.servers| < SERVER_CAP
    ensures TablesAgree(Created(l, fd)) && l.nextId !in l.tables
  {
    var m := Created(l, fd);
    NextIdUnused(l);
    assert ServersKnown(m);
    forall t | t in m.tables ensures |m.tables[t]| <= CONN_CAP && IsServer(m, t) {
      if t in l.tables { StillServer(l, fd, t); } else { assert m.servers[|l.servers|].id == t; }
    }
  }

  lemma StillServer(l: Loop, fd: int, t: nat)
    requires IsServer(l, t)
    ensures IsServer(Created(l, fd), t)
  {
    var i :| 0 <= i < |l.servers| && l.servers[i].id == t;
    assert Created(l, fd).servers[i].id == t;
  }

  lemma CreatedGood(l: Loop, fd: int)
    requires Good(l) && fd !in l.kq && |l.servers| < SERVER_CAP
    ensures Good(Created(l, fd)) && (ServersRight(l) ==> ServersRight(Created(l, fd)))
  {
    var m, u := Created(l, fd), ServerSlot(|l.servers|);
    CreatedTables(l, fd);
    QueueEnter(l, m, u, fd);
    CountEnter(l, m, u, fd);
    if ServersRight(l) {
      forall i | 0 <= i < |m.servers| ensures PointsTo(m, i) { assert i < |l.servers| ==> PointsTo(l, i); }
    }
  }

  lemma RefusedGood(l: Loop, fd: int)
    requires Good(l)
    ensures Good(Refused(l, fd)) && (ServersRight(l) ==> ServersRight(Refused(l, fd)))
  {
    var m := Refused(l, fd);
    forall x ensures Times(m.acquired, x) == Times(m.closed, x) + Bit(x in m.kq) {
      TimesSnoc(l.acquired, fd, x);
      TimesSnoc(l.closed, fd, x);
    }
    forall t | t in l.tables ensures IsServer(m, t) { assert IsServer(l, t); }
    forall u ensures FdAt(m, u) == FdAt(l, u) {}
    if ServersRight(l) {
      forall i | 0 <= i < |m.servers| ensures PointsTo(m, i) { assert PointsTo(l, i); }
    }
  }

  /** A change to the connections of table t. */
  lemma TableChanged(l: Loop, m: Loop, t: nat)
    requires TablesAgree(l) && t in l.tables && t in m.tables && m.tables == l.tables[t := m.tables[t]]
    requires m.servers == l.servers && m.nextId == l.nextId && |m.tables[t]| <= CONN_CAP
    ensures TablesAgree(m)
  {
    forall x | x in m.tables ensures |m.tables[x]| <= CONN_CAP && IsServer(m, x) { assert IsServer(l, x); }
  }

  lemma PointersKept(l: Loop, m: Loop, t: nat)
    requires ServersRight(l) && t in m.tables && m.tables == l.tables[t := m.tables[t]] && m.servers == l.servers
    requires forall i :: 0 <= i < |m.servers| && m.servers[i].id == t ==> PointsTo(m, i)
    ensures ServersRight(m)
  {
    forall i | 0 <= i < |m.servers| ensures PointsTo(m, i) { assert PointsTo(l, i); }
  }

  lemma AcceptedGood(l: Loop, i: nat, fd: int)
    requires Good(l) && fd !in l.kq && i < |l.servers| && |l.tables[l.servers[i].id]| < CONN_CAP
    ensures Good(Accepted(l, i, fd)) && (ServersRight(l) ==> ServersRight(Accepted(l, i, fd)))
  {
    var m, t := Accepted(l, i, fd), l.servers[i].id;
    var u := ConnSlot(t, |l.tables[t]|);
    TableChanged(l, m, t);
    QueueEnter(l, m, u, fd);
    CountEnter(l, m, u, fd);
    if ServersRight(l) {
      assert PointsTo(l, i);
      PointersKept(l, m, t);
    }
  }

  lemma ConnClosedGood(l: Loop, t: nat, k: nat)
    requires Good(l) && t in l.tables && k < |l.tables[t]|
    ensures Good(ConnClosed(l, t, k)) && (ServersRight(l) ==> ServersRight(ConnClosed(l, t, k)))
  {
    var m, last := ConnClosed(l, t, k), |l.tables[t]| - 1;
    TableChanged(l, m, t);
    ConnClosedFdAt(l, t, k);
    QueueLeave(l, m, ConnSlot(t, k), ConnSlot(t, last));
    CountLeave(l, m, ConnSlot(t, k), ConnSlot(t, last));
    if ServersRight(l) {
      forall i | 0 <= i < |m.servers| && m.servers[i].id == t ensures PointsTo(m, i) { assert PointsTo(l, i); }
      PointersKept(l, m, t);
    }
  }

  lemma ConnClosedFdAt(l: Loop, t: nat, k: nat)
    requires t in l.tables && k < |l.tables[t]|
    ensures var u, last, m := ConnSlot(t, k), ConnSlot(t, |l.tables[t]| - 1), ConnClosed(l, t, k);
            && FdAt(l, u).Some? && FdAt(l, last).Some? && m.kq == KqAfter(l, u, last)
            && forall v :: FdAt(m, v) == if v == last then None else if v == u then FdAt(l, last) else FdAt(l, v)
  {
  }

  lemma {:induction false} AllClosedGood(l: Loop, t: nat)
    requires Good(l) && t in l.tables
    ensures Good(AllClosed(l, t)) && (ServersRight(l) ==> ServersRight(AllClosed(l, t)))
    decreases |l.tables[t]|
  {
    if l.tables[t] != [] {
      ConnClosedGood(l, t, |l.tables[t]| - 1);
      AllClosedGood(ConnClosed(l, t, |l.tables[t]| - 1), t);
    }
  }

  lemma {:induction false} RepointedOnly(conns: seq<Conn>, i: nat)
    ensures |Repointed(conns, i)| == |conns|
    ensures forall k :: 0 <= k < |conns| ==> Repointed(conns, i)[k] == conns[k].(server := i)
  {
    if conns != [] { RepointedOnly(conns[1..], i); }
  }

  lemma RemovedFdAt(l: Loop, i: nat, repairs: bool)
    requires TablesAgree(l) && i < |l.servers| && l.tables[l.servers[i].id] == []
    ensures var u, last, m := ServerSlot(i), ServerSlot(|l.servers| - 1), ServerRemoved(l, i, repairs);
            && FdAt(l, u).Some? && FdAt(l, last).Some? && m.kq == KqAfter(l, u, last)
            && forall v :: FdAt(m, v) == if v == last then None else if v == u then FdAt(l, last) else FdAt(l, v)
  {
    RepointedOnly(l.tables[l.servers[|l.servers| - 1].id], i);
  }

  lemma RemovedSlots(l: Loop, i: nat, repairs: bool)
    requires i < |l.servers| && l.servers[|l.servers| - 1].id in l.tables
    ensures var servers, last := ServerRemoved(l, i, repairs).servers, |l.servers| - 1;
            && |servers| == last
            && forall j :: 0 <= j < last ==> servers[j] == l.servers[if j == i then last else j]
  {
  }

  lemma RemovedIsServer(l: Loop, i: nat, repairs: bool, t: nat)
    requires TablesAgree(l) && i < |l.servers| && t in l.tables && t != l.servers[i].id
    ensures IsServer(ServerRemoved(l, i, repairs), t)
  {
    RemovedSlots(l, i, repairs);
    assert IsServer(l, t);
    var j :| 0 <= j < |l.servers| && l.servers[j].id == t;
    assert ServerRemoved(l, i, repairs).servers[if j == |l.servers| - 1 then i else j].id == t;
  }

  lemma RemovedServersKnown(l: Loop, i: nat, repairs: bool)
    requires TablesAgree(l) && i < |l.servers|
    ensures ServersKnown(ServerRemoved(l, i, repairs))
  {
    RemovedSlots(l, i, repairs);
  }

  lemma RemovedTablesKnown(l: Loop, i: nat, repairs: bool)
    requires TablesAgree(l) && i < |l.servers|
    ensures TablesKnown(ServerRemoved(l, i, repairs))
  {
    var m, moved := ServerRemoved(l, i, repairs), l.servers[|l.servers| - 1].id;
    RepointedOnly(l.tables[moved], i);
    forall t | t in m.tables ensures |m.tables[t]| <= CONN_CAP && IsServer(m, t) {
      assert t in l.tables && t != l.servers[i].id && |m.tables[t]| == |l.tables[t]|;
      RemovedIsServer(l, i, repairs, t);
    }
  }

  lemma RemovedTables(l: Loop, i: nat, repairs: bool)
    requires TablesAgree(l) && i < |l.servers|
    ensures TablesAgree(ServerRemoved(l, i, repairs))
  {
    RemovedServersKnown(l, i, repairs);
    RemovedTablesKnown(l, i, repairs);
  }

  lemma RemovedGood(l: Loop, i: nat, repairs: bool)
    requires Good(l) && i < |l.servers| && l.tables[l.servers[i].id] == []
    ensures Good(ServerRemoved(l, i, repairs))
  {
    RemovedTables(l, i, repairs);
    RemovedFdAt(l, i, repairs);
    QueueLeave(l, ServerRemoved(l, i, repairs), ServerSlot(i), ServerSlot(|l.servers| - 1));
    CountLeave(l, ServerRemoved(l, i, repairs), ServerSlot(i), ServerSlot(|l.servers| - 1));
  }

  lemma ServerClosedGood(l: Loop, i: nat, repairs: bool)
    requires Good(l) && i < |l.servers|
    ensures Good(ServerClosed(l, i, repairs))
  {
    AllClosedGood(l, l.servers[i].id);
    RemovedGood(AllClosed(l, l.servers[i].id), i, repairs);
  }

  /** When slot i becomes free, no server with connections moves there, or its connections are repaired. */
  predicate PointersSafe(l: Loop, i: nat, repairs: bool)
    requires i < |l.servers| && l.servers[|l.servers| - 1].id in l.tables
  {
    repairs || i == |l.servers| - 1 || l.tables[l.servers[|l.servers| - 1].id] == []
  }

  /**
   Closing a server leaves every connection pointing to its own server if the moved server's are repaired,
   and otherwise if and only if no server moves or the one that does has no connections.
   */
  lemma PointersAfterClose(l: Loop, i: nat, repairs: bool)
    requires TablesAgree(l) && ServersRight(l) && i < |l.servers|
    ensures ServersRight(ServerClosed(l, i, repairs)) <==> PointersSafe(l, i, repairs)
  {
    AllClosedRight(l, i);
    SafeAsBefore(l, AllClosed(l, l.servers[i].id), i, repairs);
    PointersAfterRemoval(AllClosed(l, l.servers[i].id), i, repairs);
  }

  lemma SafeAsBefore(l: Loop, c: Loop, i: nat, repairs: bool)
    requires ServersKnown(l) && i < |l.servers|
    requires c.servers == l.servers && c.tables == l.tables[l.servers[i].id := []]
    ensures PointersSafe(c, i, repairs) <==> PointersSafe(l, i, repairs)
  {
  }

  lemma PointersAfterRemoval(l: Loop, i: nat, repairs: bool)
    requires TablesAgree(l) && ServersRight(l) && i < |l.servers|
    ensures ServersRight(ServerRemoved(l, i, repairs)) <==> PointersSafe(l, i, repairs)
  {
    if PointersSafe(l, i, repairs) { PointersRight(l, i, repairs); } else { PointersStale(l, i); }
  }

  lemma AllClosedRight(l: Loop, i: nat)
    requires TablesAgree(l) && ServersRight(l) && i < |l.servers|
    ensures var c := AllClosed(l, l.servers[i].id); TablesAgree(c) && ServersRight(c)
  {
    var c := AllClosed(l, l.servers[i].id);
    forall j | 0 <= j < |c.servers| ensures PointsTo(c, j) { assert PointsTo(l, j); }
    forall t | t in c.tables ensures IsServer(c, t) { assert IsServer(l, t); }
  }

  lemma PointersRight(l: Loop, i: nat, repairs: bool)
    requires TablesAgree(l) && ServersRight(l) && i < |l.servers|
    requires PointersSafe(l, i, repairs)
    ensures ServersRight(ServerRemoved(l, i, repairs))
  {
    var m, last := ServerRemoved(l, i, repairs), |l.servers| - 1;
    RemovedSlots(l, i, repairs);
    RepointedOnly(l.tables[l.servers[last].id], i);
    forall j | 0 <= j < last ensures PointsTo(m, j) { assert PointsTo(l, if j == i then last else j); }
  }

  lemma PointersStale(l: Loop, i: nat)
    requires TablesAgree(l) && ServersRight(l) && i < |l.servers| - 1
    requires l.tables[l.servers[|l.servers| - 1].id] != []
    ensures !ServersRight(ServerRemoved(l, i, false))
  {
    var m, last := ServerRemoved(l, i, false), |l.servers| - 1;
    RemovedSlots(l, i, false);
    assert PointsTo(l, last);
    assert m.tables[m.servers[i].id][0].server == last;
    assert !PointsTo(m, i);
  }

  // ---------------------------------------------------------------- closing on an event

  /** The slot that an event for descriptor fd names, if there is still a connection in it. */
  predicate HasEvent(l: Loop, fd: int) {
    && fd in l.kq && l.kq[fd].ConnSlot?
    && l.kq[fd].table in l.tables && l.kq[fd].k < |l.tables[l.kq[fd].table]|
  }

  /** Whether m_server of the connection in slot u, where the loop looks for it, is the server that has it. */
  predicate FoundThrough(l: Loop, u: Udata)
    requires u.ConnSlot? && u.table in l.tables && u.k < |l.tables[u.table]|
  {
    var s := l.tables[u.table][u.k].server;
    s < |l.servers| && l.servers[s].id == u.table
  }

  /**
   us_loop_run closes a connection through its m_server. If it is not found there, its descriptor is no longer
   watched and closed, and its slot is left as it is.
   */
  function ClosedAt(l: Loop, u: Udata): Loop
    requires u.ConnSlot? && u.table in l.tables && u.k < |l.tables[u.table]|
  {
    if FoundThrough(l, u) then ConnClosed(l, u.table, u.k)
    else
      var gone := l.tables[u.table][u.k].fd;
      l.(kq := l.kq - {gone}, closed := l.closed + [gone])
  }

  function EventClosed(l: Loop, fd: int): Loop
    requires HasEvent(l, fd)
  {
    ClosedAt(l, l.kq[fd])
  }

  lemma EventClosedGood(l: Loop, fd: int)
    requires Good(l) && ServersRight(l) && HasEvent(l, fd)
    ensures Good(EventClosed(l, fd)) && ServersRight(EventClosed(l, fd))
  {
    var u := l.kq[fd];
    assert IsServer(l, u.table);
    var i :| 0 <= i < |l.servers| && l.servers[i].id == u.table;
    assert PointsTo(l, i) && FoundThrough(l, u);
    ConnClosedGood(l, u.table, u.k);
  }

  lemma StalePointerBreaks(l: Loop, i: nat) returns (fd: int)
    requires Good(l) && i < |l.servers| && !PointsTo(l, i)
    ensures HasEvent(l, fd) && !Good(EventClosed(l, fd))
  {
    var t := l.servers[i].id;
    var k :| 0 <= k < |l.tables[t]| && l.tables[t][k].server != i;
    var u := ConnSlot(t, k);
    fd := l.tables[t][k].fd;
    assert FdAt(l, u) == Some(fd);
    assert !FoundThrough(l, u);
    assert FdAt(EventClosed(l, fd), u) == Some(fd);
  }

  /** Every close that an event can bring keeps the tables and the queue in step if and only if m_server is right. */
  lemma EventsNeedPointers(l: Loop)
    requires Good(l)
    ensures (forall fd :: HasEvent(l, fd) ==> Good(EventClosed(l, fd))) <==> ServersRight(l)
  {
    if ServersRight(l) {
      forall fd | HasEvent(l, fd) ensures Good(EventClosed(l, fd)) { EventClosedGood(l, fd); }
    } else {
      var i :| 0 <= i < |l.servers| && !PointsTo(l, i);
      var fd := StalePointerBreaks(l, i);
    }
  }

  // ---------------------------------------------------------------- runs

  /** How far an accepted client, or a created server, gets. */
  datatype Outcome = SetupFails | NoBuffer | NotWatched | Works

  datatype Op =
    | Create(fd: int, created: Outcome)
    | Accept(i: nat, client: int, accepted: Outcome)
    | CloseConn(t: nat, k: nat)
    | CloseServer(s: nat)
    | EventClose(ready: int)

  /** us_server_create with a descriptor from the system. */
  function CreateBy(l: Loop, fd: int, outcome: Outcome): Loop {
    if |l.servers| >= SERVER_CAP then l
    else if outcome.Works? then Created(l, fd)
    else if outcome.SetupFails? then Refused(l, fd)
    else Refused(l.(nextId := l.nextId + 1), fd)
  }

  /** A turn of accept_new_clients for server i. */
  function AcceptBy(l: Loop, i: nat, fd: int, outcome: Outcome): Loop
    requires i < |l.servers| && l.servers[i].id in l.tables
  {
    if |l.tables[l.servers[i].id]| < CONN_CAP && outcome.Works? then Accepted(l, i, fd) else Refused(l, fd)
  }

  /** A descriptor from the system is none that is in use, and an operation is on slots that exist. */
  predicate Possible(l: Loop, op: Op) {
    match op
    case Create(fd, _) => fd !in l.kq
    case Accept(i, fd, _) => i < |l.servers| && fd !in l.kq
    case CloseConn(t, k) => t in l.tables && k < |l.tables[t]|
    case CloseServer(i) => i < |l.servers|
    case EventClose(fd) => HasEvent(l, fd)
  }

  /** No server with connections moves, or they are repaired. */
  predicate KeepsPointers(l: Loop, op: Op, repairs: bool)
    requires TablesAgree(l) && Possible(l, op)
  {
    op.CloseServer? ==> PointersSafe(l, op.s, repairs)
  }

  function Apply(l: Loop, op: Op, repairs: bool): Loop
    requires TablesAgree(l) && Possible(l, op)
  {
    match op
    case Create(fd, outcome) => CreateBy(l, fd, outcome)
    case Accept(i, fd, outcome) => AcceptBy(l, i, fd, outcome)
    case CloseConn(t, k) => ConnClosed(l, t, k)
    case CloseServer(i) => ServerClosed(l, i, repairs)
    case EventClose(fd) => EventClosed(l, fd)
  }

  lemma CreateByGood(l: Loop, fd: int, outcome: Outcome)
    requires Good(l) && fd !in l.kq
    ensures Good(CreateBy(l, fd, outcome)) && (ServersRight(l) ==> ServersRight(CreateBy(l, fd, outcome)))
  {
    if |l.servers| < SERVER_CAP && outcome.Works? {
      CreatedGood(l, fd);
    } else {
      NotCreatedGood(l, fd, outcome);
    }
  }

  lemma NotCreatedGood(l: Loop, fd: int, outcome: Outcome)
    requires Good(l) && !(|l.servers| < SERVER_CAP && outcome.Works?)
    ensures Good(CreateBy(l, fd, outcome)) && (ServersRight(l) ==> ServersRight(CreateBy(l, fd, outcome)))
  {
    if |l.servers| < SERVER_CAP {
      if outcome.SetupFails? { RefusedGood(l, fd); } else { NotWatchedGood(l, fd); }
    }
  }

  lemma NotWatchedGood(l: Loop, fd: int)
    requires Good(l)
    ensures var m := Refused(l.(nextId := l.nextId + 1), fd);
            Good(m) && (ServersRight(l) ==> ServersRight(m))
  {
    NextIdFree(l);
    RefusedGood(l.(nextId := l.nextId + 1), fd);
  }

  lemma AcceptByGood(l: Loop, i: nat, fd: int, outcome: Outcome)
    requires Good(l) && i < |l.servers| && fd !in l.kq
    ensures Good(AcceptBy(l, i, fd, outcome)) && (ServersRight(l) ==> ServersRight(AcceptBy(l, i, fd, outcome)))
  {
    if |l.tables[l.servers[i].id]| < CONN_CAP && outcome.Works? {
      AcceptedGood(l, i, fd);
    } else {
      RefusedGood(l, fd);
    }
  }

  lemma CloseServerGood(l: Loop, i: nat, repairs: bool)
    requires Good(l) && ServersRight(l) && i < |l.servers|
    ensures Good(ServerClosed(l, i, repairs))
    ensures ServersRight(ServerClosed(l, i, repairs)) <==> KeepsPointers(l, CloseServer(i), repairs)
  {
    ServerClosedGood(l, i, repairs);
    PointersAfterClose(l, i, repairs);
  }

  lemma NoServerClosedGood(l: Loop, op: Op, repairs: bool)
    requires Good(l) && ServersRight(l) && Possible(l, op) && !op.CloseServer?
    ensures Good(Apply(l, op, repairs)) && ServersRight(Apply(l, op, repairs))
  {
    match op {
      case Create(fd, outcome) => CreateByGood(l, fd, outcome);
      case Accept(i, fd, outcome) => AcceptByGood(l, i, fd, outcome);
      case CloseConn(t, k) => ConnClosedGood(l, t, k);
      case EventClose(fd) => EventClosedGood(l, fd);
    }
  }

  lemma ApplyGood(l: Loop, op: Op, repairs: bool)
    requires Good(l) && ServersRight(l) && Possible(l, op)
    ensures Good(Apply(l, op, repairs))
    ensures ServersRight(Apply(l, op, repairs)) <==> KeepsPointers(l, op, repairs)
  {
    if op.CloseServer? { CloseServerGood(l, op.s, repairs); } else { NoServerClosedGood(l, op, repairs); }
  }

  lemma NextIdFree(l: Loop)
    requires Good(l)
    ensures Good(l.(nextId := l.nextId + 1))
    ensures ServersRight(l) ==> ServersRight(l.(nextId := l.nextId + 1))
  {
    var m := l.(nextId := l.nextId + 1);
    forall t | t in m.tables ensures IsServer(m, t) { assert IsServer(l, t); }
    forall u ensures FdAt(m, u) == FdAt(l, u) {}
    if ServersRight(l) { forall i | 0 <= i < |m.servers| ensures PointsTo(m, i) { assert PointsTo(l, i); } }
  }

  /** A run from the empty loop; an operation that is not possible where it stands is none. */
  function After(ops: seq<Op>, repairs: bool): Loop {
    if ops == [] then EMPTY
    else
      var l, op := After(ops[..|ops| - 1], repairs), ops[|ops| - 1];
      if TablesAgree(l) && Possible(l, op) then Apply(l, op, repairs) else l
  }

  ghost predicate KeepsPointersAlways(ops: seq<Op>, repairs: bool) {
    ops != [] ==>
      var l, op := After(ops[..|ops| - 1], repairs), ops[|ops| - 1];
      && KeepsPointersAlways(ops[..|ops| - 1], repairs)
      && (TablesAgree(l) && Possible(l, op) ==> KeepsPointers(l, op, repairs))
  }

  /**
   Over every run in which the moved server's connections are repaired, or none that has any moves: the queue
   watches just the descriptors of the live slots, with their current addresses; each descriptor obtained is
   live or was closed, once; and m_server is right.
   */
  lemma {:induction false} RunGood(ops: seq<Op>, repairs: bool)
    requires repairs || KeepsPointersAlways(ops, repairs)
    ensures Good(After(ops, repairs)) && ServersRight(After(ops, repairs))
  {
    if ops == [] {
      EmptyGood();
    } else {
      var l, op := After(ops[..|ops| - 1], repairs), ops[|ops| - 1];
      RunGood(ops[..|ops| - 1], repairs);
      if Possible(l, op) { ApplyGood(l, op, repairs); }
    }
  }

  /** All along the run, and after any event that may come in at any time, the state is good. */
  ghost predicate GoodAlways(ops: seq<Op>, repairs: bool) {
    && (ops != [] ==> GoodAlways(ops[..|ops| - 1], repairs))
    && Good(After(ops, repairs))
    && forall fd :: HasEvent(After(ops, repairs), fd) ==> Good(EventClosed(After(ops, repairs), fd))
  }

  /** The code as written keeps all this, whatever events come in, if and only if no server with connections moves. */
  lemma {:induction false} RunGoodExactly(ops: seq<Op>, repairs: bool)
    ensures GoodAlways(ops, repairs) <==> KeepsPointersAlways(ops, repairs)
  {
    if ops == [] {
      EmptyGood();
      EventsNeedPointers(After(ops, repairs));
    } else {
      var l, op := After(ops[..|ops| - 1], repairs), ops[|ops| - 1];
      RunGoodExactly(ops[..|ops| - 1], repairs);
      if KeepsPointersAlways(ops[..|ops| - 1], repairs) {
        RunGood(ops[..|ops| - 1], repairs);
        if Possible(l, op) { ApplyGood(l, op, repairs); }
        EventsNeedPointers(After(ops, repairs));
      }
    }
  }

  // ---------------------------------------------------------------- a descriptor closed twice

  const TWO_SERVERS := Accepted(Created(Created(EMPTY, 3), 4), 1, 5)

  lemma TwoServersGood()
    ensures Good(TWO_SERVERS) && ServersRight(TWO_SERVERS)
  {
    EmptyGood();
    CreatedGood(EMPTY, 3);
    CreatedGood(Created(EMPTY, 3), 4);
    AcceptedGood(Created(Created(EMPTY, 3), 4), 1, 5);
  }

  lemma TwoServersAre()
    ensures TWO_SERVERS.servers == [Server(1, 3), Server(2, 4)] && TWO_SERVERS.nextId == 3
    ensures TWO_SERVERS.tables == map[1 := [], 2 := [Conn(5, 1)]]
    ensures TWO_SERVERS.kq == map[3 := ServerSlot(0), 4 := ServerSlot(1), 5 := ConnSlot(2, 0)]
    ensures TWO_SERVERS.closed == []
  {
    assert Created(EMPTY, 3).tables == map[1 := []];
    assert Created(Created(EMPTY, 3), 4).tables == map[1 := [], 2 := []];
    assert [] + [Conn(5, 1)] == [Conn(5, 1)];
  }

  /** The second server has moved to the first slot; its connection still points to the second. */
  const ONE_MOVED := ServerRemoved(TWO_SERVERS, 0, false)

  lemma PointerGoesStale()
    ensures ONE_MOVED.servers == [Server(2, 4)] && ONE_MOVED.tables == map[2 := [Conn(5, 1)]]
    ensures ONE_MOVED.kq == map[4 := ServerSlot(0), 5 := ConnSlot(2, 0)] && ONE_MOVED.closed == [3]
    ensures TablesAgree(TWO_SERVERS) && ServerClosed(TWO_SERVERS, 0, false) == ONE_MOVED
  {
    TwoServersGood();
    TwoServersAre();
  }

  /** What an event then makes of it. */
  const NOT_FOUND := ONE_MOVED.(kq := map[4 := ServerSlot(0)], closed := [3, 5])

  lemma EventMisses()
    ensures HasEvent(ONE_MOVED, 5) && EventClosed(ONE_MOVED, 5) == NOT_FOUND
  {
    PointerGoesStale();
  }

  /** An event closes the connection without finding it, and closing the server closes its descriptor again. */
  lemma ClosedTwice()
    ensures HasEvent(ONE_MOVED, 5) && EventClosed(ONE_MOVED, 5) == NOT_FOUND
    ensures TablesAgree(NOT_FOUND) && |NOT_FOUND.servers| == 1
    ensures ServerClosed(NOT_FOUND, 0, false).closed == [3, 5, 5, 4]
  {
    EventMisses();
    PointerGoesStale();
    assert NOT_FOUND.servers[0].id == 2 && IsServer(NOT_FOUND, 2);
    var c := ConnClosed(NOT_FOUND, 2, 0);
    assert c.tables[2] == [] && AllClosed(c, 2) == c && AllClosed(NOT_FOUND, 2) == c;
  }

  lemma EmptyGood()
    ensures Good(EMPTY) && ServersRight(EMPTY)
  {
  }

  /** In a good state no descriptor is in two slots. */
  lemma OneSlotEach(l: Loop, u: Udata, v: Udata)
    requires Good(l) && FdAt(l, u).Some? && FdAt(l, u) == FdAt(l, v)
    ensures u == v
  {
    assert l.kq[FdAt(l, u).value] == u;
  }

  // ---------------------------------------------------------------- the loop object

  class EventLoop {
    var servers: seq<Server>
    var tables: map<nat, seq<Conn>>
    var kq: map<int, Udata>
    var nextServerId: nat
    ghost var acquired: seq<int>
    ghost var closed: seq<int>

    ghost function Now(): Loop
      reads this
    {
      Loop(servers, tables, kq, nextServerId, acquired, closed)
    }

    ghost predicate Valid()
      reads this
    {
      Good(Now())
    }

    constructor ()
      ensures Valid() && Now() == EMPTY
    {
      servers, tables, kq, nextServerId, acquired, closed := [], map[], map[], 1, [], [];
      new;
      EmptyGood();
    }

    method KqDelRead(fd: int)
      modifies this`kq
      ensures kq == old(kq) - {fd}
    {
      kq := kq - {fd};
    }

    method KqAddRead(fd: int, udata: Udata)
      modifies this`kq
      ensures kq == old(kq)[fd := udata]
    {
      kq := kq[fd := udata];
    }

    /** close_conn */
    method CloseConnAt(t: nat, k: nat)
      requires t in tables && k < |tables[t]|
      modifies this`tables, this`kq, this`closed
      ensures Now() == ConnClosed(old(Now()), t, k)
      ensures tables == old(tables)[t := SwapRemove(old(tables)[t], k)]
      ensures closed == old(closed) + [old(tables)[t][k].fd]
    {
      var conns := tables[t];
      KqDelRead(conns[k].fd);
      closed := closed + [conns[k].fd];
      var last := |conns| - 1;
      if k != last {
        conns := conns[k := conns[last]];
        KqDelRead(conns[k].fd);
        KqAddRead(conns[k].fd, ConnSlot(t, k));
      }
      tables := tables[t := conns[..last]];
    }

    /** A turn of accept_new_clients for a client that was accepted by server i. */
    method AcceptClient(i: nat, fd: int, outcome: Outcome)
      requires Valid() && i < |servers| && fd !in kq
      modifies this
      ensures Valid() && Now() == AcceptBy(old(Now()), i, fd, outcome)
      ensures var t := old(servers)[i].id;
              if |old(tables)[t]| < CONN_CAP && outcome.Works? then
                && tables == old(tables)[t := old(tables)[t] + [Conn(fd, i)]]
                && kq == old(kq)[fd := ConnSlot(t, |old(tables)[t]|)] && closed == old(closed)
              else tables == old(tables) && kq == old(kq) && closed == old(closed) + [fd]
    {
      AcceptByGood(Now(), i, fd, outcome);
      EnterClient(i, fd, outcome);
    }

    method EnterClient(i: nat, fd: int, outcome: Outcome)
      requires i < |servers| && servers[i].id in tables && fd !in kq
      modifies this
      ensures Now() == AcceptBy(old(Now()), i, fd, outcome)
    {
      ghost var was := Now();
      acquired := acquired + [fd];
      var t := servers[i].id;
      if outcome.SetupFails? || |tables[t]| >= CONN_CAP {
        closed := closed + [fd];
        return;
      }
      tables := tables[t := tables[t] + [Conn(fd, i)]];
      if outcome.Works? {
        KqAddRead(fd, ConnSlot(t, |tables[t]| - 1));
      } else {
        ghost var entered := tables[t];
        CloseConnAt(t, |tables[t]| - 1);
        assert entered[..|entered| - 1] == was.tables[t];
        assert tables == was.tables && kq == was.kq;
      }
    }

    /** us_server_create from the socket on; the descriptor is what the system gave. */
    method ServerCreate(fd: int, outcome: Outcome) returns (id: int)
      requires Valid() && fd !in kq
      modifies this
      ensures Valid() && Now() == CreateBy(old(Now()), fd, outcome)
      ensures id >= 0 <==> |old(servers)| < SERVER_CAP && outcome.Works?
      ensures id >= 0 ==> NewServer(old(Now()), fd, id)
      ensures id < 0 ==> id == -1 && servers == old(servers) && tables == old(tables) && kq == old(kq)
                         && closed == old(closed) + if |old(servers)| < SERVER_CAP then [fd] else []
      ensures id < 0 ==> nextServerId == old(nextServerId)
                                         + Bit(|old(servers)| < SERVER_CAP && !outcome.SetupFails?)
    {
      CreateByGood(Now(), fd, outcome);
      NextIdUnused(Now());
      id := EnterServer(fd, outcome);
    }

    /** Since l, just a server with that id was entered: it listens on fd, has no clients and is watched. */
    ghost predicate NewServer(l: Loop, fd: int, id: nat)
      reads this
    {
      && id == l.nextId == nextServerId - 1 && !IsServer(l, id) && servers == l.servers + [Server(id, fd)]
      && id !in l.tables && tables == l.tables[id := []]
      && kq == l.kq[fd := ServerSlot(|l.servers|)] && closed == l.closed
    }

    method EnterServer(fd: int, outcome: Outcome) returns (id: int)
      modifies this
      ensures Now() == CreateBy(old(Now()), fd, outcome)
      ensures id == if |old(servers)| < SERVER_CAP && outcome.Works? then old(nextServerId) else -1
    {
      if |servers| >= SERVER_CAP { return -1; }
      acquired := acquired + [fd];
      if outcome.SetupFails? {
        closed := closed + [fd];
        return -1;
      }
      var server := Server(nextServerId, fd);
      nextServerId := nextServerId + 1;
      if !outcome.Works? {
        closed := closed + [fd];
        return -1;
      }
      servers, tables := servers + [server], tables[server.id := []];
      KqAddRead(fd, ServerSlot(|servers| - 1));
      return server.id;
    }

    /** find_server_by_id: the slot, or the number of servers. */
    method FindServer(id: nat) returns (i: nat)
      ensures i <= |servers| && (i < |servers| ==> servers[i].id == id)
      ensures i == |servers| <==> !IsServer(Now(), id)
    {
      i := 0;
      while i < |servers| && servers[i].id != id
        invariant i <= |servers| && forall j :: 0 <= j < i ==> servers[j].id != id
      {
        i := i + 1;
      }
      if i < |servers| { assert Now().servers[i].id == id; }
    }

    /** us_server_close; the code does not repair the moved server's connections. */
    method ServerClose(id: nat, repairs: bool) returns (rc: int, ghost i: nat)
      requires TablesAgree(Now())
      modifies this
      ensures old(Valid()) ==> Valid()
      ensures rc == if IsServer(old(Now()), id) then 0 else -1
      ensures rc == -1 ==> Now() == old(Now())
      ensures rc == 0 ==> i < |old(servers)| && old(servers)[i].id == id
                          && Now() == ServerClosed(old(Now()), i, repairs)
                          && servers == SwapRemove(old(servers), i) && tables.Keys == old(tables).Keys - {id}
    {
      var at := FindServer(id);
      i := at;
      if at == |servers| { return -1, i; }
      if Valid() { ServerClosedGood(Now(), at, repairs); }
      while |tables[id]| > 0
        invariant servers == old(servers) && nextServerId == old(nextServerId)
        invariant id in tables && AllClosed(Now(), id) == AllClosed(old(Now()), id)
        decreases if id in tables then |tables[id]| else 0
      {
        CloseConnAt(id, |tables[id]| - 1);
      }
      RemoveServer(at, repairs);
      return 0, i;
    }

    method RemoveServer(i: nat, repairs: bool)
      requires i < |servers| && servers[|servers| - 1].id in tables
      requires i < |servers| - 1 ==> servers[|servers| - 1].id != servers[i].id
      modifies this
      ensures Now() == ServerRemoved(old(Now()), i, repairs)
    {
      var gone, last := servers[i], |servers| - 1;
      tables := tables - {gone.id};
      KqDelRead(gone.listenFd);
      closed := closed + [gone.listenFd];
      if i != last {
        servers := servers[i := servers[last]];
        KqDelRead(servers[i].listenFd);
        KqAddRead(servers[i].listenFd, ServerSlot(i));
        if repairs { tables := tables[servers[i].id := Repointed(tables[servers[i].id], i)]; }
      }
      servers := servers[..last];
    }

    /** The place of slot u among the connections of the server in slot s, or their number. */
    method FindSlot(s: nat, u: Udata) returns (k: nat)
      requires u.ConnSlot? && TablesAgree(Now())
      ensures if s < |servers| && servers[s].id == u.table && u.k < |tables[u.table]| then k == u.k
              else k == if s < |servers| then |tables[servers[s].id]| else 0
    {
      k := 0;
      if s < |servers| {
        var t := servers[s].id;
        while k < |tables[t]| && ConnSlot(t, k) != u
          invariant k <= |tables[t]| && forall j :: 0 <= j < k ==> ConnSlot(t, j) != u
        {
          k := k + 1;
        }
      }
    }

    /** What us_loop_run does with a connection that is to be closed when an event names it. */
    method CloseOnEvent(fd: int)
      requires TablesAgree(Now()) && HasEvent(Now(), fd)
      modifies this
      ensures Now() == EventClosed(old(Now()), fd)
    {
      var u := kq[fd];
      var connection := tables[u.table][u.k];
      var s := connection.server;
      var k := FindSlot(s, u);
      if s < |servers| && k < |tables[servers[s].id]| {
        CloseConnAt(servers[s].id, k);
      } else {
        KqDelRead(connection.fd);
        closed := closed + [connection.fd];
      }
    }

    /** us_client_close */
    method ClientClose(id: nat, fd: int) returns (rc: int, ghost k: nat)
      requires TablesAgree(Now())
      modifies this
      ensures old(Valid()) ==> Valid()
      ensures rc == 0 || rc == -1
      ensures rc == 0 ==> id in old(tables) && k < |old(tables)[id]| && old(tables)[id][k].fd == fd
                          && Now() == ConnClosed(old(Now()), id, k)
      ensures rc == -1 ==> Now() == old(Now())
                           && (id in tables ==> forall c :: c in tables[id] ==> c.fd != fd)
    {
      var i := FindServer(id);
      k := 0;
      if i == |servers| {
        assert !IsServer(Now(), id);
        return -1, k;
      }
      for j := 0 to |tables[id]|
        invariant Now() == old(Now()) && forall m :: 0 <= m < j ==> tables[id][m].fd != fd
      {
        if tables[id][j].fd == fd {
          if Valid() { ConnClosedGood(Now(), id, j); }
          CloseConnAt(id, j);
          return 0, j;
        }
      }
      return -1, k;
    }
  }
}
