/**
 The queue inside channel.cpp: a list of queued nodes and a list of free nodes, both threaded through
 the m_next fields of one node array. A pointer to a node is its index in that array; NULL is -1.
 */
module Channels {

  /** qs is what one meets from head on by following next until NULL. */
  predicate IsList(next: seq<int>, head: int, qs: seq<nat>)
    decreases |qs|
  {
    if qs == [] then head == -1
    else head == qs[0] && qs[0] < |next| && IsList(next, next[qs[0]], qs[1..])
  }

  lemma {:induction false} ListElsewhere(next: seq<int>, head: int, qs: seq<nat>, n: nat, x: int)
    requires IsList(next, head, qs) && n < |next| && n !in qs
    ensures IsList(next[n := x], head, qs)
    decreases |qs|
  {
    if qs != [] { ListElsewhere(next, next[qs[0]], qs[1..], n, x); }
  }

  lemma {:induction false} ListExtended(next: seq<int>, head: int, qs: seq<nat>, n: nat)
    requires IsList(next, head, qs) && qs != [] && NoDuplicates(qs + [n]) && n < |next| && next[n] == -1
    requires qs[|qs| - 1] < |next|
    ensures IsList(next[qs[|qs| - 1] := n], head, qs + [n])
    decreases |qs|
  {
    var all := qs + [n];
    var last := qs[|qs| - 1];
    assert all[|qs| - 1] == last && all[|qs|] == n;
    if |qs| == 1 {
      assert all[1..] == [n];
    } else {
      assert all[1..] == qs[1..] + [n];
      assert all[0] == qs[0] != last;
      assert forall i :: 0 <= i < |all[1..]| ==> all[1..][i] == all[i + 1];
      ListExtended(next, next[qs[0]], qs[1..], n);
    }
  }

  predicate NoDuplicates(s: seq<nat>) {
    forall i, j :: 0 <= i < j < |s| ==> s[i] != s[j]
  }

  function Elements(s: seq<nat>): set<nat> { set x | x in s }

  lemma {:induction false} DistinctElements(s: seq<nat>)
    requires NoDuplicates(s)
    ensures |Elements(s)| == |s|
  {
    if s != [] {
      var n := |s| - 1;
      DistinctElements(s[..n]);
      assert s[n] !in s[..n];
      assert Elements(s) == Elements(s[..n]) + {s[n]};
    }
  }

  /** The node indices below n. */
  function Below(n: nat): (s: set<nat>)
    ensures |s| == n && forall x: nat :: x in s <==> x < n
  {
    if n == 0 then {} else Below(n - 1) + {n - 1}
  }

  lemma FullSubset(a: set<nat>, b: set<nat>)
    requires a <= b && |a| == |b|
    ensures a == b
  {
    if a != b {
      var x :| x in b && x !in a;
      assert |b| == |b - {x}| + 1;
      SubsetSize(a, b - {x});
    }
  }

  lemma {:induction false} SubsetSize(a: set<nat>, b: set<nat>)
    requires a <= b
    ensures |a| <= |b|
  {
    if a != {} {
      var x :| x in a;
      SubsetSize(a - {x}, b - {x});
    }
  }

  /** As many distinct nodes as the array has must be all of them. */
  lemma DistinctNodesCover(s: seq<nat>, n: nat, x: nat)
    requires NoDuplicates(s) && |s| == n && (forall i :: 0 <= i < n ==> s[i] < n) && x < n
    ensures x in s
  {
    DistinctElements(s);
    FullSubset(Elements(s), Below(n));
    assert x in Elements(s);
  }

  /** head..tail is the list queued and free.. the list idle, and together they use every node once. */
  predicate Threaded(next: seq<int>, head: int, tail: int, free: int, queued: seq<nat>, idle: seq<nat>) {
    && IsList(next, head, queued)
    && IsList(next, free, idle)
    && tail == (if queued == [] then -1 else queued[|queued| - 1])
    && NodesOf(queued + idle, |next|)
  }

  /** An arrangement of all n nodes. */
  predicate NodesOf(s: seq<nat>, n: nat) {
    |s| == n && NoDuplicates(s) && forall i :: 0 <= i < |s| ==> s[i] < n
  }

  /** Moving the first free node to the end of the queue, as channel_push does. */
  lemma PushLinks(next: seq<int>, head: int, tail: int, free: int, queued: seq<nat>, idle: seq<nat>)
    requires Threaded(next, head, tail, free, queued, idle) && idle != []
    ensures free == idle[0] < |next| && free !in queued && tail < |next|
    ensures var cut := next[free := -1];
            var linked := if tail == -1 then cut else cut[tail := free];
            Threaded(linked, if tail == -1 then free else head, free, next[free], queued + [free as nat], idle[1..])
  {
    var n, all := idle[0], queued + idle;
    assert all[|queued|] == n;
    assert forall i :: 0 <= i < |queued| ==> all[i] == queued[i];
    assert forall i :: 0 <= i < |idle| ==> all[|queued| + i] == idle[i];
    assert (queued + [n]) + idle[1..] == all;
    ListElsewhere(next, head, queued, n, -1);
    ListElsewhere(next, next[n], idle[1..], n, -1);
    var cut := next[n := -1];
    if tail != -1 {
      assert NoDuplicates(queued + [n]) by {
        assert forall i :: 0 <= i < |queued + [n]| ==> (queued + [n])[i] == all[i];
      }
      ListExtended(cut, head, queued, n);
      ListElsewhere(cut, next[n], idle[1..], tail, n);
    } else {
      assert IsList(cut, cut[n], []);
      assert [n][1..] == [];
    }
  }

  /** Moving the first queued node to the front of the free list, as both pops do. */
  lemma PopLinks(next: seq<int>, head: int, tail: int, free: int, queued: seq<nat>, idle: seq<nat>)
    requires Threaded(next, head, tail, free, queued, idle) && queued != []
    ensures 0 <= head == queued[0] < |next|
    ensures Threaded(next[head := free], next[head], if next[head] == -1 then -1 else tail, head,
                     queued[1..], [head as nat] + idle)
  {
    var n, all := queued[0], queued + idle;
    assert forall i :: 0 <= i < |queued| ==> all[i] == queued[i];
    assert forall i :: 0 <= i < |idle| ==> all[|queued| + i] == idle[i];
    ListElsewhere(next, next[n], queued[1..], n, free);
    ListElsewhere(next, free, idle, n, free);
    assert ([n] + idle)[1..] == idle;
    Rotated(all, queued, idle);
  }

  lemma Rotated(all: seq<nat>, queued: seq<nat>, idle: seq<nat>)
    requires all == queued + idle && queued != [] && NodesOf(all, |all|)
    ensures NodesOf(queued[1..] + ([queued[0]] + idle), |all|)
  {
    var k, moved := |queued| - 1, queued[1..] + ([queued[0]] + idle);
    assert forall i :: 0 <= i < |moved| ==> moved[i] == all[if i < k then i + 1 else if i == k then 0 else i];
  }

  lemma {:induction false} Ascending(next: seq<int>, k: nat, idle: seq<nat>)
    requires k <= |next| && |idle| == |next| - k
    requires forall i :: 0 <= i < |idle| ==> idle[i] == k + i
    requires forall j :: k <= j < |next| ==> next[j] == if j + 1 < |next| then j + 1 else -1
    ensures IsList(next, if k < |next| then k else -1, idle)
    decreases |next| - k
  {
    if k < |next| { Ascending(next, k + 1, idle[1..]); }
  }

  /** The items stored in a list of nodes. */
  function Values<T>(data: seq<T>, nodes: seq<nat>): (q: seq<T>)
    requires forall i :: 0 <= i < |nodes| ==> nodes[i] < |data|
    ensures |q| == |nodes|
  {
    if nodes == [] then [] else [data[nodes[0]]] + Values(data, nodes[1..])
  }

  lemma {:induction false} PushValues<T>(data: seq<T>, queued: seq<nat>, n: nat, x: T)
    requires (forall i :: 0 <= i < |queued| ==> queued[i] < |data|) && n !in queued && n < |data|
    ensures Values(data[n := x], queued + [n]) == Values(data, queued) + [x]
  {
    if queued == [] {
      assert [n][1..] == [];
      assert queued + [n] == [n];
    } else {
      assert (queued + [n])[1..] == queued[1..] + [n];
      PushValues(data, queued[1..], n, x);
    }
  }

  class Channel<T> {
    const data: array<T>
    const next: array<int>
    const capacity: nat
    var head: int
    var tail: int
    var free: int
    var size: nat
    ghost var queued: seq<nat>   // the nodes reachable from head, in order
    ghost var idle: seq<nat>     // the nodes reachable from free, in order
    ghost var pushed: seq<T>     // everything ever pushed
    ghost var popped: seq<T>     // everything ever popped

    ghost predicate Linked()
      reads this, next
    {
      && capacity == data.Length == next.Length > 0 && data as object != next as object
      && Threaded(next[..], head, tail, free, queued, idle)
      && size == |queued|
      && forall i :: 0 <= i < |queued| ==> queued[i] < capacity
    }

    ghost function Queue(): (q: seq<T>)
      requires Linked()
      reads this, data, next
    {
      Values(data[..], queued)
    }

    ghost predicate Valid()
      reads this, data, next
    {
      Linked() && pushed == popped + Queue()
    }

    /** No node is lost: each is on exactly one of the two lists. */
    lemma EveryNodeListedOnce(n: nat)
      requires Linked() && n < capacity
      ensures (n in queued) != (n in idle)
    {
      var all := queued + idle;
      DistinctNodesCover(all, capacity, n);
      forall i, j | 0 <= i < |queued| && 0 <= j < |idle| ensures queued[i] != idle[j] {
        assert all[i] == queued[i] && all[|queued| + j] == idle[j];
      }
    }

    constructor (cap: nat, blank: T)
      requires cap > 0
      ensures Valid() && capacity == cap && Queue() == [] && pushed == [] && fresh(data) && fresh(next)
      ensures |idle| == cap && forall i :: 0 <= i < cap ==> idle[i] == i
    {
      var links := new int[cap](_ => -1);
      for i := 0 to cap - 1
        invariant forall j :: 0 <= j < i ==> links[j] == j + 1
        invariant forall j :: i <= j < cap ==> links[j] == -1
      {
        links[i] := i + 1;
      }
      links[cap - 1] := -1;
      data := new T[cap](_ => blank);
      next := links;
      capacity := cap;
      head, tail, free, size := -1, -1, 0, 0;
      queued, pushed, popped := [], [], [];
      idle := seq(cap, i => i);
      new;
      Ascending(next[..], 0, idle);
    }

    /** One pass of channel_push; waits says that it went to sleep in uv_cond_wait instead. */
    method Push(x: T) returns (waits: bool)
      requires Valid()
      modifies this, data, next
      ensures Valid() && waits == (|old(Queue())| == capacity)
      ensures if waits then Queue() == old(Queue()) && pushed == old(pushed)
              else Queue() == old(Queue()) + [x] && pushed == old(pushed) + [x]
      ensures popped == old(popped)
    {
      if size >= capacity { return true; }
      Append(x);
      pushed := pushed + [x];
      return false;
    }

    /** Takes a node off the free list and appends it to the queue. */
    method Append(x: T)
      requires Linked() && size < capacity
      modifies this, data, next
      ensures Linked() && Queue() == old(Queue()) + [x]
      ensures pushed == old(pushed) && popped == old(popped)
    {
      PushLinks(next[..], head, tail, free, queued, idle);
      PushValues(data[..], queued, free, x);
      ghost var stored := data[..][free := x];
      ghost var cut := next[..][free := -1];
      ghost var linked := if tail == -1 then cut else cut[tail := free];
      var n := free;
      free := next[n];
      data[n] := x;
      next[n] := -1;
      if tail != -1 { next[tail] := n; } else { head := n; }
      assert next[..] == linked && data[..] == stored;
      tail := n;
      size := size + 1;
      queued, idle := queued + [n], idle[1..];
    }

    /** What channel_pop and channel_pop_nowait do once m_size is known to be positive. */
    method Unlink() returns (x: T)
      requires Valid() && size > 0
      modifies this, next
      ensures Valid() && old(Queue()) == [x] + Queue()
      ensures popped == old(popped) + [x] && pushed == old(pushed)
    {
      PopLinks(next[..], head, tail, free, queued, idle);
      ghost var linked := next[..][head := free];
      var n := head;
      head := next[n];
      if head == -1 { tail := -1; }
      size := size - 1;
      x := data[n];
      next[n] := free;
      assert next[..] == linked;
      free := n;
      queued, idle := queued[1..], [n] + idle;
      popped := popped + [x];
    }

    /** One pass of channel_pop; waits says that it went to sleep in uv_cond_wait instead. */
    method Pop(blank: T) returns (waits: bool, x: T)
      requires Valid()
      modifies this, next
      ensures Valid() && pushed == old(pushed) && waits == (old(Queue()) == [])
      ensures if waits then Queue() == old(Queue()) && popped == old(popped)
              else old(Queue()) == [x] + Queue() && popped == old(popped) + [x]
    {
      if size == 0 { return true, blank; }
      x := Unlink();
      waits := false;
    }

    /** channel_pop_nowait; none stands for its null result. */
    method PopNowait(blank: T) returns (none: bool, x: T)
      requires Valid()
      modifies this, next
      ensures Valid() && pushed == old(pushed) && none == (old(Queue()) == [])
      ensures if none then Queue() == old(Queue()) && popped == old(popped)
              else old(Queue()) == [x] + Queue() && popped == old(popped) + [x]
    {
      if size == 0 { return true, blank; }
      x := Unlink();
      none := false;
    }
  }
}
