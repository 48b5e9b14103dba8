/**
 Events of one batch: us_loop_run fetches them together and then handles one after the other, while closing moves
 connections between slots and accepting fills slots again. An event names the slot its connection had at the start.
 */
module EventBatch {
  import opened Basics
  import opened ConnTable

  /** What is handled on one server: an event that closes what is in slot k, or a client that is accepted. */
  datatype Item = Close(k: nat) | Enter(fd: int)

  predicate HasServer(l: Loop, i: nat) { i < |l.servers| && l.servers[i].id in l.tables }

  function Conns(l: Loop, i: nat): seq<Conn>
    requires HasServer(l, i)
  {
    l.tables[l.servers[i].id]
  }

  /** An event for an empty slot is ignored, as the slot is zeroed. */
  function Handle(l: Loop, i: nat, item: Item): Loop
    requires HasServer(l, i)
  {
    match item
    case Close(k) => if k < |Conns(l, i)| then ClosedAt(l, ConnSlot(l.servers[i].id, k)) else l
    case Enter(fd) => if fd in l.kq then l else AcceptBy(l, i, fd, Works)
  }

  ghost predicate Ready(l: Loop, i: nat) { Good(l) && ServersRight(l) && HasServer(l, i) }

  lemma HandleReady(l: Loop, i: nat, item: Item)
    requires Ready(l, i)
    ensures Ready(Handle(l, i, item), i) && Handle(l, i, item).servers == l.servers
  {
    match item {
      case Close(k) => if k < |Conns(l, i)| { ClosedThere(l, i, k); }
      case Enter(fd) => if fd !in l.kq { AcceptByGood(l, i, fd, Works); }
    }
  }

  /** While every m_server is right, the close takes the last connection to slot k. */
  lemma ClosedThere(l: Loop, i: nat, k: nat)
    requires Ready(l, i) && k < |Conns(l, i)|
    ensures var m := Handle(l, i, Close(k));
            Ready(m, i) && m.servers == l.servers && Conns(m, i) == SwapRemove(Conns(l, i), k)
  {
    var u := ConnSlot(l.servers[i].id, k);
    assert FdAt(l, u) == Some(Conns(l, i)[k].fd);
    assert PointsTo(l, i) && FoundThrough(l, u);
    ConnClosedGood(l, u.table, k);
  }

  lemma EnteredThere(l: Loop, i: nat, fd: int)
    requires Ready(l, i)
    ensures var m := Handle(l, i, Enter(fd));
            && Ready(m, i) && m.servers == l.servers
            && Conns(m, i) == if fd in l.kq || |Conns(l, i)| >= CONN_CAP then Conns(l, i)
                              else Conns(l, i) + [Conn(fd, i)]
  {
    if fd !in l.kq { AcceptByGood(l, i, fd, Works); }
  }

  ghost function AfterBatch(l: Loop, i: nat, items: seq<Item>): (m: Loop)
    requires Ready(l, i)
    ensures Ready(m, i) && m.servers == l.servers
  {
    if items == [] then l
    else
      var before := AfterBatch(l, i, items[..|items| - 1]);
      HandleReady(before, i, items[|items| - 1]);
      Handle(before, i, items[|items| - 1])
  }

  function Least(a: nat, b: nat): nat { if a < b then a else b }

  /** The least number of connections that the server had so far. */
  ghost function Low(l: Loop, i: nat, items: seq<Item>): (n: nat)
    requires Ready(l, i)
    ensures n <= |Conns(AfterBatch(l, i, items), i)| && n <= |Conns(l, i)|
  {
    if items == [] then |Conns(l, i)|
    else
      Least(|Conns(AfterBatch(l, i, items), i)|, Low(l, i, items[..|items| - 1]))
  }

  /** Each event comes once, and names its own slot. */
  predicate EventsOnce(items: seq<Item>) {
    forall a, b :: 0 <= a < b < |items| && items[a].Close? ==> items[a] != items[b]
  }

  predicate Entered(items: seq<Item>, fd: int) { Enter(fd) in items }

  /** Where the connection that was in slot k is now: still there, or in a slot that an event has closed. */
  predicate LivesIn(conns: seq<Conn>, items: seq<Item>, k: nat, fd: int, j: nat) {
    j < |conns| && conns[j].fd == fd && (j == k || Close(j) in items)
  }

  /** What is in slot k: its own connection, while it was never beyond the low mark; else a client of the batch. */
  predicate SlotHolds(conns: seq<Conn>, items: seq<Item>, k: nat, fd: int, low: nat) {
    k < |conns| ==> if k < low then conns[k].fd == fd else conns[k].fd != fd && Entered(items, conns[k].fd)
  }

  lemma StillWatched(l: Loop, i: nat, j: nat)
    requires Ready(l, i) && j < |Conns(l, i)|
    ensures Conns(l, i)[j].fd in l.kq
  {
    assert FdAt(l, ConnSlot(l.servers[i].id, j)) == Some(Conns(l, i)[j].fd);
  }

  lemma {:induction false} BatchKeeps(l: Loop, i: nat, items: seq<Item>, k: nat) returns (j: nat)
    requires Ready(l, i) && k < |Conns(l, i)| && EventsOnce(items) && Close(k) !in items
    ensures var conns, fd := Conns(AfterBatch(l, i, items), i), Conns(l, i)[k].fd;
            LivesIn(conns, items, k, fd, j) && SlotHolds(conns, items, k, fd, Low(l, i, items))
  {
    if items == [] {
      j := k;
    } else {
      var before, item := items[..|items| - 1], items[|items| - 1];
      LastOnce(items);
      j := BatchKeeps(l, i, before, k);
      j := ItemKeeps(AfterBatch(l, i, before), i, before, item, k, Conns(l, i)[k].fd, Low(l, i, before), j);
    }
  }

  lemma LastOnce(items: seq<Item>)
    requires items != [] && EventsOnce(items)
    ensures var before, item := items[..|items| - 1], items[|items| - 1];
            && items == before + [item] && EventsOnce(before) && (item.Close? ==> item !in before)
  {
  }

  lemma ItemKeeps(now: Loop, i: nat, before: seq<Item>, item: Item, k: nat, fd: int, low: nat, j: nat) returns (h: nat)
    requires Ready(now, i) && LivesIn(Conns(now, i), before, k, fd, j)
    requires SlotHolds(Conns(now, i), before, k, fd, low)
    requires low <= |Conns(now, i)| && item != Close(k) && (item.Close? ==> item !in before)
    ensures var m := Handle(now, i, item);
            && HasServer(m, i) && LivesIn(Conns(m, i), before + [item], k, fd, h)
            && SlotHolds(Conns(m, i), before + [item], k, fd, Least(|Conns(m, i)|, low))
  {
    h := j;
    match item {
      case Close(c) => h := CloseKeeps(now, i, before, k, fd, low, j, c);
      case Enter(f) => EnterKeeps(now, i, before, k, fd, low, j, f);
    }
  }

  lemma CloseKeeps(now: Loop, i: nat, before: seq<Item>, k: nat, fd: int, low: nat, j: nat, c: nat) returns (h: nat)
    requires Ready(now, i) && LivesIn(Conns(now, i), before, k, fd, j)
    requires SlotHolds(Conns(now, i), before, k, fd, low)
    requires low <= |Conns(now, i)| && c != k && Close(c) !in before
    ensures var m, items := Handle(now, i, Close(c)), before + [Close(c)];
            && HasServer(m, i) && LivesIn(Conns(m, i), items, k, fd, h)
            && SlotHolds(Conns(m, i), items, k, fd, Least(|Conns(m, i)|, low))
  {
    if c < |Conns(now, i)| {
      ClosedThere(now, i, c);
      h := SwapKeeps(Conns(now, i), before, k, fd, low, j, c);
    } else {
      h := j;
    }
  }

  lemma SwapKeeps(conns: seq<Conn>, before: seq<Item>, k: nat, fd: int, low: nat, j: nat, c: nat) returns (h: nat)
    requires LivesIn(conns, before, k, fd, j) && SlotHolds(conns, before, k, fd, low)
    requires low <= |conns| && c != k && c < |conns| && Close(c) !in before
    ensures var after, items := SwapRemove(conns, c), before + [Close(c)];
            LivesIn(after, items, k, fd, h) && SlotHolds(after, items, k, fd, Least(|after|, low))
  {
    h := if j == |conns| - 1 then c else j;
  }

  lemma EnterKeeps(now: Loop, i: nat, before: seq<Item>, k: nat, fd: int, low: nat, j: nat, f: int)
    requires Ready(now, i) && LivesIn(Conns(now, i), before, k, fd, j)
    requires SlotHolds(Conns(now, i), before, k, fd, low)
    requires low <= |Conns(now, i)|
    ensures var m, items := Handle(now, i, Enter(f)), before + [Enter(f)];
            && HasServer(m, i) && LivesIn(Conns(m, i), items, k, fd, j)
            && SlotHolds(Conns(m, i), items, k, fd, Least(|Conns(m, i)|, low))
  {
    EnteredThere(now, i, f);
    StillWatched(now, i, j);
  }

  /**
   The event that was raised for the connection in slot k, when its turn comes: it acts on that connection if and
   only if the server has had more than k connections all along. If it has fewer now, the event is ignored; and
   if it had fewer in between, the event acts on a client that was accepted meanwhile.
   */
  lemma EventActsOn(l: Loop, i: nat, items: seq<Item>, k: nat)
    requires Ready(l, i) && k < |Conns(l, i)| && EventsOnce(items) && Close(k) !in items
    ensures var m, u, low := AfterBatch(l, i, items), ConnSlot(l.servers[i].id, k), Low(l, i, items);
            && (FdAt(m, u) == Some(Conns(l, i)[k].fd) <==> k < low)
            && (FdAt(m, u) == None <==> k >= |Conns(m, i)|)
            && (low <= k < |Conns(m, i)| ==> FdAt(m, u).Some? && Entered(items, FdAt(m, u).value))
  {
    var j := BatchKeeps(l, i, items, k);
  }

  /** A batch in which nobody is accepted is harmless: every event acts on its own connection or is ignored. */
  lemma {:induction false} ClosesAreHarmless(l: Loop, i: nat, items: seq<Item>)
    requires Ready(l, i) && forall item :: item in items ==> item.Close?
    ensures Low(l, i, items) == |Conns(AfterBatch(l, i, items), i)|
  {
    if items != [] {
      var before, item := items[..|items| - 1], items[|items| - 1];
      assert item in items && forall x :: x in before ==> x in items;
      ClosesAreHarmless(l, i, before);
      var now := AfterBatch(l, i, before);
      if item.k < |Conns(now, i)| { ClosedThere(now, i, item.k); }
    }
  }

  lemma BatchSnoc(l: Loop, i: nat, items: seq<Item>, item: Item)
    requires Ready(l, i)
    ensures AfterBatch(l, i, items + [item]) == Handle(AfterBatch(l, i, items), i, item)
  {
    assert (items + [item])[..|items|] == items;
  }

  lemma CloseWatchesNoMore(l: Loop, i: nat, k: nat, fd: int)
    requires Ready(l, i) && fd !in l.kq
    ensures fd !in Handle(l, i, Close(k)).kq
  {
    if k < |Conns(l, i)| {
      assert PointsTo(l, i);
      StillWatched(l, i, |Conns(l, i)| - 1);
    }
  }

  /** A close, a client accepted into the last slot, and the event that was raised for what was there before. */
  lemma StaleEventHitsNewClient(l: Loop, i: nat, fd: int)
    requires Ready(l, i) && 2 <= |Conns(l, i)| && fd !in l.kq
    ensures var m := AfterBatch(l, i, [Close(0)] + [Enter(fd)]);
            FdAt(m, ConnSlot(l.servers[i].id, |Conns(l, i)| - 1)) == Some(fd)
  {
    BatchSnoc(l, i, [], Close(0));
    assert [] + [Close(0)] == [Close(0)];
    BatchSnoc(l, i, [Close(0)], Enter(fd));
    CloseWatchesNoMore(l, i, 0, fd);
    StaleSlot(l, i, fd);
  }

  lemma StaleSlot(l: Loop, i: nat, fd: int)
    requires Ready(l, i) && 2 <= |Conns(l, i)| && fd !in Handle(l, i, Close(0)).kq
    requires HasServer(Handle(l, i, Close(0)), i)
    ensures var m := Handle(Handle(l, i, Close(0)), i, Enter(fd));
            FdAt(m, ConnSlot(l.servers[i].id, |Conns(l, i)| - 1)) == Some(fd)
  {
    ClosedThere(l, i, 0);
    EnteredThere(Handle(l, i, Close(0)), i, fd);
  }
}
