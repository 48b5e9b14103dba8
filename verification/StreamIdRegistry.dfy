/** The sharded, sorted registry of stream_id_registry.cpp, which gives each user id a dense stream id. */
module StreamIdRegistry {
  import opened Basics
  import opened Counting

  /** The registered ids in order, and for each shard its entries, which are places in ids. */
  datatype Registry = Registry(ids: seq<nat>, shards: seq<seq<nat>>)

  /** (userId >> 32) & (n - 1), for n a power of two. */
  function ShardOf(userId: nat, n: nat): (j: nat)
    requires n > 0
    ensures j < n
  {
    userId / 0x1_0000_0000 % n
  }

  function Power2(bits: nat): (n: nat)
    ensures n > 0
  {
    if bits == 0 then 1 else 2 * Power2(bits - 1)
  }

  function HashesTo(j: nat, n: nat): nat -> bool
    requires n > 0
  {
    (userId: nat) => ShardOf(userId, n) == j
  }

  function IdAt(ids: seq<nat>, e: nat): nat { if e < |ids| then ids[e] else 0 }

  /** The first entry whose id is not less than userId, or the end. */
  function Position(shard: seq<nat>, ids: seq<nat>, userId: nat): (pos: nat)
    ensures pos <= |shard|
  {
    if shard == [] || IdAt(ids, shard[0]) >= userId then 0 else 1 + Position(shard[1..], ids, userId)
  }

  function InsertAt(shard: seq<nat>, pos: nat, entry: nat): (r: seq<nat>)
    requires pos <= |shard|
    ensures |r| == |shard| + 1
  {
    shard[..pos] + [entry] + shard[pos..]
  }

  /** The first entry with that id, or -1. */
  function FindIn(shard: seq<nat>, ids: seq<nat>, userId: nat): int {
    if shard == [] then -1
    else if IdAt(ids, shard[0]) == userId then shard[0]
    else FindIn(shard[1..], ids, userId)
  }

  function Find(r: Registry, userId: nat): int
    requires |r.shards| > 0
  {
    FindIn(r.shards[ShardOf(userId, |r.shards|)], r.ids, userId)
  }

  /** The shard with the last id entered: its place, or what the code enters, the shard's own count. */
  function Added(shard: seq<nat>, ids: seq<nat>, storesIndex: bool): seq<nat>
    requires ids != []
  {
    InsertAt(shard, Position(shard, ids, ids[|ids| - 1]), if storesIndex then |ids| - 1 else |shard|)
  }

  function Register(r: Registry, userId: nat, storesIndex: bool): (s: Registry)
    requires |r.shards| > 0
    ensures |s.shards| == |r.shards|
  {
    if Find(r, userId) >= 0 then r
    else
      var ids, j := r.ids + [userId], ShardOf(userId, |r.shards|);
      Registry(ids, r.shards[j := Added(r.shards[j], ids, storesIndex)])
  }

  /** The stream id that a register returns. */
  function RegisteredAs(r: Registry, userId: nat): int
    requires |r.shards| > 0
  {
    if Find(r, userId) >= 0 then Find(r, userId) else |r.ids|
  }

  // ---------------------------------------------------------------- what the shards list

  predicate Sorted(shard: seq<nat>, ids: seq<nat>) {
    forall a, b :: 0 <= a < b < |shard| ==> IdAt(ids, shard[a]) < IdAt(ids, shard[b])
  }

  /** The entries that shard j is to have; the code's are the first so many numbers instead. */
  predicate Lists(r: Registry, j: nat, e: nat, storesIndex: bool)
    requires j < |r.shards|
  {
    if storesIndex then e < |r.ids| && ShardOf(r.ids[e], |r.shards|) == j else e < |r.shards[j]|
  }

  ghost predicate Indexed(r: Registry, j: nat, storesIndex: bool)
    requires j < |r.shards|
  {
    && (forall e :: e in r.shards[j] <==> Lists(r, j, e, storesIndex))
    && |r.shards[j]| == Count(r.ids, HashesTo(j, |r.shards|))
  }

  ghost predicate WellFormed(r: Registry, storesIndex: bool) {
    |r.shards| > 0 && forall j :: 0 <= j < |r.shards| ==> Indexed(r, j, storesIndex)
  }

  /** Each shard lists the places of the ids that hash to it and no others, by increasing id. */
  ghost predicate Sound(r: Registry) {
    WellFormed(r, true) && Unique(r.ids) && forall j :: 0 <= j < |r.shards| ==> Sorted(r.shards[j], r.ids)
  }

  lemma {:induction false} FindInFinds(shard: seq<nat>, ids: seq<nat>, userId: nat)
    ensures var f := FindIn(shard, ids, userId);
            if f >= 0 then f in shard && IdAt(ids, f) == userId
            else f == -1 && forall e :: e in shard ==> IdAt(ids, e) != userId
  {
    if shard != [] {
      FindInFinds(shard[1..], ids, userId);
      assert forall e :: e in shard <==> e == shard[0] || e in shard[1..];
    }
  }

  lemma {:induction false} PositionSplits(shard: seq<nat>, ids: seq<nat>, userId: nat)
    ensures var pos := Position(shard, ids, userId);
            && (forall k :: 0 <= k < pos ==> IdAt(ids, shard[k]) < userId)
            && (pos < |shard| ==> IdAt(ids, shard[pos]) >= userId)
  {
    if shard != [] && IdAt(ids, shard[0]) < userId { PositionSplits(shard[1..], ids, userId); }
  }

  /** Searching the shard of an id agrees with a linear search of all ids. */
  lemma FindAgrees(r: Registry, userId: nat)
    requires Sound(r)
    ensures Find(r, userId) == LinearFind(r.ids, userId)
  {
    var j := ShardOf(userId, |r.shards|);
    FindInFinds(r.shards[j], r.ids, userId);
    LinearFindFinds(r.ids, userId);
    assert Indexed(r, j, true);
    var f, l := Find(r, userId), LinearFind(r.ids, userId);
    if f >= 0 { assert Lists(r, j, f, true); }
    if l >= 0 { assert Lists(r, j, l, true); }
    if f >= 0 && l >= 0 { assert !(f < l) && !(l < f); }
  }

  lemma InsertAtHolds(shard: seq<nat>, pos: nat, entry: nat, e: nat)
    requires pos <= |shard|
    ensures e in InsertAt(shard, pos, entry) <==> e == entry || e in shard
  {
    assert shard == shard[..pos] + shard[pos..];
  }

  /** In either way of adding, registering keeps what the shards list, and their sizes. */
  lemma RegisterWellFormed(r: Registry, userId: nat, storesIndex: bool)
    requires WellFormed(r, storesIndex)
    ensures WellFormed(Register(r, userId, storesIndex), storesIndex)
  {
    if Find(r, userId) < 0 {
      var s, n := Register(r, userId, storesIndex), ShardOf(userId, |r.shards|);
      forall j | 0 <= j < |s.shards| ensures Indexed(s, j, storesIndex) {
        assert Indexed(r, j, storesIndex);
        CountConcat(r.ids, [userId], HashesTo(j, |r.shards|));
        forall e ensures e in s.shards[j] <==> Lists(s, j, e, storesIndex) {
          assert e in r.shards[j] <==> Lists(r, j, e, storesIndex);
          if j == n {
            InsertAtHolds(r.shards[n], Position(r.shards[n], s.ids, userId),
                          if storesIndex then |r.ids| else |r.shards[n]|, e);
          }
        }
      }
    }
  }

  lemma InsertedIs(shard: seq<nat>, pos: nat, entry: nat, added: seq<nat>)
    requires pos <= |shard| && |added| == |shard| + 1
    requires forall k :: 0 <= k < pos ==> added[k] == shard[k]
    requires added[pos] == entry && forall k :: pos < k <= |shard| ==> added[k] == shard[k - 1]
    ensures added == InsertAt(shard, pos, entry)
  {
    assert added[..pos] == shard[..pos] && added[pos + 1..] == shard[pos..];
    assert added == added[..pos] + [added[pos]] + added[pos + 1..];
  }

  lemma InsertKeepsSorted(shard: seq<nat>, ids: seq<nat>, pos: nat, entry: nat)
    requires Sorted(shard, ids) && pos <= |shard|
    requires forall k :: 0 <= k < pos ==> IdAt(ids, shard[k]) < IdAt(ids, entry)
    requires forall k :: pos <= k < |shard| ==> IdAt(ids, entry) < IdAt(ids, shard[k])
    ensures Sorted(InsertAt(shard, pos, entry), ids)
  {
    var added := InsertAt(shard, pos, entry);
    assert forall a :: 0 <= a < |added| ==>
                         added[a] == if a < pos then shard[a] else if a == pos then entry else shard[a - 1];
  }

  lemma AddedSorted(shard: seq<nat>, ids: seq<nat>, userId: nat)
    requires Sorted(shard, ids) && forall e :: e in shard ==> e < |ids| && ids[e] != userId
    ensures Sorted(Added(shard, ids + [userId], true), ids + [userId])
  {
    var more := ids + [userId];
    var pos := Position(shard, more, userId);
    PositionSplits(shard, more, userId);
    forall k | 0 <= k < |shard|
      ensures IdAt(more, shard[k]) == IdAt(ids, shard[k]) && IdAt(ids, shard[k]) != userId
    {
      assert shard[k] in shard;
    }
    assert Sorted(shard, more);
    forall k | pos <= k < |shard| ensures IdAt(more, shard[k]) > userId {
      assert IdAt(ids, shard[pos]) <= IdAt(ids, shard[k]);
    }
    InsertKeepsSorted(shard, more, pos, |ids|);
  }

  /** Registering keeps every shard sound, and the stream id it returns is the id's place. */
  lemma RegisterSound(r: Registry, userId: nat)
    requires Sound(r)
    ensures Sound(Register(r, userId, true))
    ensures LinearFind(Register(r, userId, true).ids, userId) == RegisteredAs(r, userId)
  {
    FindAgrees(r, userId);
    LinearFindFinds(r.ids, userId);
    RegisterWellFormed(r, userId, true);
    if Find(r, userId) < 0 {
      var n, s := ShardOf(userId, |r.shards|), Register(r, userId, true);
      LinearFindSnoc(r.ids, userId, userId);
      forall j | 0 <= j < |s.shards| ensures Sorted(s.shards[j], s.ids) {
        EntriesInIds(r, j);
        if j == n { AddedSorted(r.shards[j], r.ids, userId); }
      }
    }
  }

  lemma EntriesInIds(r: Registry, j: nat)
    requires Sound(r) && j < |r.shards|
    ensures forall e :: e in r.shards[j] ==> e < |r.ids|
    ensures forall k :: 0 <= k < |r.shards[j]| ==> r.shards[j][k] < |r.ids|
  {
    assert Indexed(r, j, true) && forall e :: e in r.shards[j] ==> Lists(r, j, e, true);
    assert forall k :: 0 <= k < |r.shards[j]| ==> r.shards[j][k] in r.shards[j];
  }

  /** A second register of the same id changes nothing and returns the same stream id. */
  lemma RegisterIdempotent(r: Registry, userId: nat)
    requires Sound(r)
    ensures var once := Register(r, userId, true);
            && Sound(once) && Register(once, userId, true) == once
            && RegisteredAs(once, userId) == RegisteredAs(r, userId)
  {
    RegisterSound(r, userId);
    FindAgrees(Register(r, userId, true), userId);
    FindAgrees(r, userId);
    LinearFindFinds(r.ids, userId);
  }

  // ---------------------------------------------------------------- runs

  function Empty(n: nat): Registry { Registry([], seq(n, _ => [])) }

  lemma EmptyWellFormed(n: nat, storesIndex: bool)
    requires n > 0
    ensures WellFormed(Empty(n), storesIndex)
  {
    assert forall j :: 0 <= j < n ==> Indexed(Empty(n), j, storesIndex);
  }

  function AfterAll(us: seq<nat>, n: nat, storesIndex: bool): (r: Registry)
    requires n > 0
    ensures |r.shards| == n
  {
    if us == [] then Empty(n) else Register(AfterAll(us[..|us| - 1], n, storesIndex), us[|us| - 1], storesIndex)
  }

  /** The ids of a list in the order of their first occurrences. */
  function FirstSeen(us: seq<nat>): seq<nat> {
    if us == [] then []
    else
      var before, u := FirstSeen(us[..|us| - 1]), us[|us| - 1];
      if u in before then before else before + [u]
  }

  /**
   Over any run of registers, with any number of shards, the ids are those registered, each once and in the
   order of first registering, and every find gives the place of the id among them.
   */
  lemma {:induction false} RunAgreesWithList(us: seq<nat>, n: nat, userId: nat)
    requires n > 0
    ensures var r := AfterAll(us, n, true);
            && Sound(r) && r.ids == FirstSeen(us) && Find(r, userId) == LinearFind(FirstSeen(us), userId)
  {
    if us == [] {
      EmptyWellFormed(n, true);
    } else {
      var before, u := us[..|us| - 1], us[|us| - 1];
      RunAgreesWithList(before, n, u);
      RegisterSound(AfterAll(before, n, true), u);
      LinearFindFinds(FirstSeen(before), u);
    }
    FindAgrees(AfterAll(us, n, true), userId);
  }

  lemma {:induction false} FirstSeenStays(us: seq<nat>, more: seq<nat>, userId: nat)
    requires userId in us
    ensures LinearFind(FirstSeen(us + more), userId) == LinearFind(FirstSeen(us), userId) >= 0
    decreases |more|
  {
    if more == [] {
      assert us + more == us;
      Seen(us, userId);
      LinearFindFinds(FirstSeen(us), userId);
    } else {
      var all := us + more;
      assert all[..|all| - 1] == us + more[..|more| - 1];
      FirstSeenStays(us, more[..|more| - 1], userId);
      LinearFindSnoc(FirstSeen(all[..|all| - 1]), all[|all| - 1], userId);
    }
  }

  /** A stream id stays what it was, whatever is registered later. */
  lemma StreamIdsStay(us: seq<nat>, more: seq<nat>, n: nat, userId: nat)
    requires n > 0 && userId in us
    ensures Find(AfterAll(us + more, n, true), userId) == Find(AfterAll(us, n, true), userId) >= 0
  {
    RunAgreesWithList(us, n, userId);
    RunAgreesWithList(us + more, n, userId);
    FirstSeenStays(us, more, userId);
  }

  lemma {:induction false} Seen(us: seq<nat>, userId: nat)
    ensures userId in FirstSeen(us) <==> userId in us
  {
    if us != [] {
      Seen(us[..|us| - 1], userId);
      assert us == us[..|us| - 1] + [us[|us| - 1]];
    }
  }

  // ---------------------------------------------------------------- storing the shard's count

  lemma {:induction false} CountedRun(us: seq<nat>, n: nat)
    requires n > 0
    ensures WellFormed(AfterAll(us, n, false), false)
    ensures forall id :: id in AfterAll(us, n, false).ids ==> id in us
  {
    if us == [] {
      EmptyWellFormed(n, false);
    } else {
      CountedRun(us[..|us| - 1], n);
      RegisterWellFormed(AfterAll(us[..|us| - 1], n, false), us[|us| - 1], false);
    }
  }

  /**
   With the shard's count stored, a find gives a place with the id, if one of the first so many places has
   it, as many as ids of its shard were entered; and otherwise it finds nothing.
   */
  lemma CountedFind(us: seq<nat>, n: nat, userId: nat)
    requires n > 0
    ensures var r := AfterAll(us, n, false);
            var count, f := Count(r.ids, HashesTo(ShardOf(userId, n), n)), Find(r, userId);
            && (if f >= 0 then f < count && r.ids[f] == userId else f == -1)
            && (f < 0 <==> userId !in r.ids[..count])
  {
    CountedRun(us, n);
    var r, j := AfterAll(us, n, false), ShardOf(userId, n);
    var count := Count(r.ids, HashesTo(j, n));
    FindInFinds(r.shards[j], r.ids, userId);
    assert Indexed(r, j, false);
    forall e | 0 <= e < count ensures e in r.shards[j] && IdAt(r.ids, e) == r.ids[..count][e] {
      assert Lists(r, j, e, false);
    }
    forall e | e in r.shards[j] ensures e < count { assert Lists(r, j, e, false); }
  }

  lemma {:induction false} CountAll(us: seq<nat>, p: nat -> bool)
    ensures Count(us, p) == |us| <==> forall i :: 0 <= i < |us| ==> p(us[i])
  {
    if us != [] {
      CountAll(us[1..], p);
      if forall i :: 0 <= i < |us| ==> p(us[i]) { assert forall i :: 0 <= i < |us[1..]| ==> p(us[1..][i]); }
      if Count(us, p) == |us| {
        forall i | 0 <= i < |us| ensures p(us[i]) {
          if i > 0 { assert p(us[1..][i - 1]); }
        }
      }
    }
  }

  predicate OneShard(us: seq<nat>, n: nat)
    requires n > 0
  {
    forall u, v :: u in us && v in us ==> ShardOf(u, n) == ShardOf(v, n)
  }

  lemma {:induction false} OneShardIsEnough(us: seq<nat>, n: nat)
    requires n > 0 && OneShard(us, n)
    ensures AfterAll(us, n, true) == AfterAll(us, n, false)
  {
    if us != [] {
      var before, u := us[..|us| - 1], us[|us| - 1];
      var r, j := AfterAll(before, n, false), ShardOf(u, n);
      assert forall v :: v in before ==> v in us;
      OneShardIsEnough(before, n);
      CountedRun(before, n);
      forall i | 0 <= i < |r.ids| ensures HashesTo(j, n)(r.ids[i]) { assert r.ids[i] in before && u in us; }
      CountAll(r.ids, HashesTo(j, n));
      assert Indexed(r, j, false);
    }
  }

  /**
   For every list of registers, repeated ids included: storing the shard's count comes to the same registry as
   storing the place if and only if all the ids hash to one shard.
   */
  lemma CountNeedsOneShard(us: seq<nat>, n: nat)
    requires n > 0
    ensures AfterAll(us, n, true) == AfterAll(us, n, false) <==> OneShard(us, n)
  {
    if OneShard(us, n) {
      OneShardIsEnough(us, n);
    } else {
      var u, v :| u in us && v in us && ShardOf(u, n) != ShardOf(v, n);
      if AfterAll(us, n, true) == AfterAll(us, n, false) {
        RunAgreesWithList(us, n, u);
        CountedRun(us, n);
        FirstPlaceIsIn(us, n, u);
        FirstPlaceIsIn(us, n, v);
      }
    }
  }

  /** If entries were both places and counts, the first id would be in the shard of every registered id. */
  lemma FirstPlaceIsIn(us: seq<nat>, n: nat, u: nat)
    requires n > 0 && u in us && AfterAll(us, n, true) == AfterAll(us, n, false)
    ensures var ids := AfterAll(us, n, true).ids; ids != [] && ShardOf(ids[0], n) == ShardOf(u, n)
  {
    var r, j := AfterAll(us, n, true), ShardOf(u, n);
    RunAgreesWithList(us, n, u);
    CountedRun(us, n);
    Seen(us, u);
    var i :| 0 <= i < |r.ids| && r.ids[i] == u;
    assert Indexed(r, j, true) && Indexed(r, j, false);
    assert Lists(r, j, i, true) && Lists(r, j, i, false) && Lists(r, j, 0, false) && Lists(r, j, 0, true);
  }

  /**
   With the count stored, in any state: registering an id again changes nothing and returns the same stream
   id if and only if the id was found the first time, or all ids there are in its shard.
   */
  lemma CountedIdempotence(r: Registry, userId: nat)
    requires WellFormed(r, false)
    ensures var once := Register(r, userId, false);
            Register(once, userId, false) == once && RegisteredAs(once, userId) == RegisteredAs(r, userId)
            <==> Find(r, userId) >= 0
                 || forall i :: 0 <= i < |r.ids| ==> ShardOf(r.ids[i], |r.shards|) == ShardOf(userId, |r.shards|)
  {
    if Find(r, userId) < 0 {
      var n, j, once := |r.shards|, ShardOf(userId, |r.shards|), Register(r, userId, false);
      var count := |r.shards[j]|;
      RegisterWellFormed(r, userId, false);
      assert Indexed(r, j, false) && Indexed(once, j, false);
      CountAll(r.ids, HashesTo(j, n));
      FindInFinds(r.shards[j], r.ids, userId);
      FindInFinds(once.shards[j], once.ids, userId);
      assert forall i :: 0 <= i < |r.ids| ==> (HashesTo(j, n)(r.ids[i]) <==> ShardOf(r.ids[i], n) == j);
      assert Lists(once, j, count, false);
      var f := Find(once, userId);
      if f >= 0 {
        assert Lists(once, j, f, false);
        assert f < count ==> Lists(r, j, f, false);
      }
      if count == |r.ids| { assert IdAt(once.ids, count) == userId; }
    }
  }

  lemma NextEntered(us: seq<nat>, u: nat, n: nat)
    requires n > 0 && u !in AfterAll(us, n, false).ids[..Count(AfterAll(us, n, false).ids, HashesTo(ShardOf(u, n), n))]
    ensures AfterAll(us + [u], n, false).ids == AfterAll(us, n, false).ids + [u]
  {
    assert (us + [u])[..|us|] == us;
    CountedFind(us, n, u);
  }

  lemma TwoEntered(us: seq<nat>, a: nat, b: nat, n: nat)
    requires n > 0 && ShardOf(a, n) != ShardOf(b, n) && us == [a] + [b]
    ensures AfterAll(us, n, false).ids == us && Count(us, HashesTo(ShardOf(b, n), n)) == 1
  {
    var p := HashesTo(ShardOf(b, n), n);
    NextEntered([], a, n);
    assert [] + [a] == [a];
    CountOne(a, p);
    NextEntered([a], b, n);
    CountOne(b, p);
    CountConcat([a], [b], p);
  }

  /** Ids below 2^32 share the first shard, and a higher word picks the others, one after the other. */
  lemma ShardByHighWord(high: nat, low: nat, n: nat)
    requires low < 0x1_0000_0000 && n > 0
    ensures ShardOf(low, n) == 0
    ensures high < n ==> ShardOf(high * 0x1_0000_0000 + low, n) == high
    ensures ShardOf((high + n) * 0x1_0000_0000 + low, n) == ShardOf(high * 0x1_0000_0000 + low, n)
  {
    assert (high * 0x1_0000_0000 + low) / 0x1_0000_0000 == high;
    assert ((high + n) * 0x1_0000_0000 + low) / 0x1_0000_0000 == high + n;
    RemainderAgain(high, n);
  }

  lemma RemainderAgain(k: nat, n: nat)
    requires n > 0
    ensures (k + n) % n == k % n && (k < n ==> k % n == k)
  {
    assert k + n == n * (k / n + 1) + k % n;
    DivisionIs(k + n, n, k / n + 1, k % n);
  }

  /** Two ids in different shards: the second is not found, and registering it again enters it again. */
  lemma SecondShardMisses(us: seq<nat>, a: nat, b: nat, n: nat)
    requires n > 0 && ShardOf(a, n) != ShardOf(b, n) && us == [a] + [b]
    ensures Find(AfterAll(us, n, false), b) == -1
    ensures AfterAll(us + [b], n, false).ids == us + [b]
  {
    TwoEntered(us, a, b, n);
    assert us[..1] == [a];
    CountedFind(us, n, b);
    NextEntered(us, b, n);
  }

  // ---------------------------------------------------------------- the arrays

  class Shard {
    var count: nat
    var capacity: nat
    var sorted: array<nat>

    ghost predicate Valid()
      reads this
    {
      count <= capacity == sorted.Length <= 32767
    }

    ghost function Entries(): seq<nat>
      reads this, sorted
      requires Valid()
    {
      sorted[..count]
    }

    constructor ()
      ensures Valid() && Entries() == [] && fresh(sorted)
    {
      count, capacity, sorted := 0, 0, new nat[0];
    }

    /** The growth in shard_t::add. Up to 16383 entries the new capacity stays a 16-bit number. */
    method Grow()
      requires Valid() && count < 16384
      modifies this
      ensures Valid() && count < capacity && count == old(count) && Entries() == old(Entries())
      ensures sorted == old(sorted) || fresh(sorted)
    {
      if count >= capacity {
        var more := if capacity == 0 then 4 else capacity * 2;
        var grown := new nat[more];
        for i := 0 to count
          modifies grown
          invariant forall k :: 0 <= k < i ==> grown[k] == sorted[k]
        {
          grown[i] := sorted[i];
        }
        capacity, sorted := more, grown;
      }
    }

    /** The place of insertion for the last of the first size user ids. */
    method FindPosition(userIds: array<nat>, size: nat) returns (pos: nat)
      requires Valid() && 0 < size <= userIds.Length && forall e :: e in Entries() ==> e < size
      ensures pos == Position(Entries(), userIds[..size], userIds[size - 1])
    {
      ghost var shard, ids := Entries(), userIds[..size];
      assert forall k :: 0 <= k < count ==> sorted[k] == shard[k] && shard[k] in shard;
      pos := 0;
      while pos < count && userIds[sorted[pos]] < userIds[size - 1]
        invariant pos <= count
        invariant Position(shard, ids, ids[size - 1]) == pos + Position(shard[pos..], ids, ids[size - 1])
      {
        pos := pos + 1;
      }
    }

    /** Shifts what is behind pos and puts the entry there. */
    method Insert(pos: nat, entry: nat)
      requires Valid() && pos <= count < capacity
      modifies this`count, sorted
      ensures Valid() && Entries() == InsertAt(old(Entries()), pos, entry)
    {
      ghost var shard := Entries();
      var i := count;
      while i > pos
        modifies sorted
        invariant pos <= i <= count
        invariant forall k :: 0 <= k < i ==> sorted[k] == shard[k]
        invariant forall k :: i < k <= count ==> sorted[k] == shard[k - 1]
      {
        sorted[i] := sorted[i - 1];
        i := i - 1;
      }
      sorted[pos] := entry;
      count := count + 1;
      InsertedIs(shard, pos, entry, sorted[..count]);
    }

    /** shard_t::add for the last of the first size user ids. */
    method Add(userIds: array<nat>, size: nat, storesIndex: bool)
      requires Valid() && count < 16384 && 0 < size <= userIds.Length && userIds != sorted
      requires forall e :: e in Entries() ==> e < size
      modifies this, sorted
      ensures Valid() && Entries() == Added(old(Entries()), userIds[..size], storesIndex)
      ensures sorted == old(sorted) || fresh(sorted)
    {
      Grow();
      var pos := FindPosition(userIds, size);
      Insert(pos, if storesIndex then size - 1 else count);
    }

    method Find(userIds: array<nat>, size: nat, userId: nat) returns (index: int)
      requires Valid() && size <= userIds.Length && forall e :: e in Entries() ==> e < size
      ensures index == FindIn(Entries(), userIds[..size], userId)
    {
      ghost var shard, ids := Entries(), userIds[..size];
      for i := 0 to count
        invariant FindIn(shard, ids, userId) == FindIn(shard[i..], ids, userId)
      {
        assert sorted[i] == shard[i] && shard[i] in shard;
        if userIds[sorted[i]] == userId { return sorted[i]; }
      }
      return -1;
    }
  }

  /** Shards of their own, each without entries. */
  method NewShards(n: nat) returns (empty: seq<Shard>)
    ensures |empty| == n && forall shard :: shard in empty ==> fresh(shard) && fresh(shard.sorted)
    ensures forall i :: 0 <= i < n ==> empty[i].Valid() && empty[i].Entries() == []
    ensures forall i, k :: 0 <= i < k < n ==> empty[i] != empty[k] && empty[i].sorted != empty[k].sorted
  {
    empty := [];
    for j := 0 to n
      invariant |empty| == j && forall shard :: shard in empty ==> fresh(shard) && fresh(shard.sorted)
      invariant forall i :: 0 <= i < j ==> empty[i].Valid() && empty[i].Entries() == []
      invariant forall i, k :: 0 <= i < k < j ==> empty[i] != empty[k] && empty[i].sorted != empty[k].sorted
    {
      var shard := new Shard();
      assert forall i :: 0 <= i < j ==> empty[i] in empty;
      empty := empty + [shard];
    }
  }

  class StreamRegistry {
    const storesIndex: bool
    const userIds: array<nat>
    const streamIds: array<nat>
    const shards: seq<Shard>
    var size: nat
    ghost var contents: Registry

    ghost predicate Matches(j: nat)
      requires j < |shards|
      reads this, shards[j], shards[j].sorted
    {
      && shards[j].Valid() && shards[j].sorted != userIds && shards[j].sorted != streamIds
      && j < |contents.shards| && shards[j].Entries() == contents.shards[j]
    }

    ghost predicate Valid()
      reads this, userIds, streamIds, shards, set shard <- shards :: shard.sorted
    {
      && size <= userIds.Length == streamIds.Length && userIds != streamIds
      && contents.ids == userIds[..size]
      && (forall i :: 0 <= i < size ==> streamIds[i] == i)
      && WellFormed(contents, storesIndex)
      && |contents.shards| == |shards|
      && (forall j :: 0 <= j < |shards| ==> Matches(j))
      && (forall i, j :: 0 <= i < j < |shards| ==> shards[i] != shards[j] && shards[i].sorted != shards[j].sorted)
    }

    constructor (capacity: nat, shardingBits: nat, storesIndex: bool)
      ensures Valid() && size == 0 && userIds.Length == capacity && this.storesIndex == storesIndex
      ensures contents == Empty(Power2(shardingBits))
      ensures fresh(userIds) && fresh(streamIds)
      ensures forall shard :: shard in shards ==> fresh(shard) && fresh(shard.sorted)
    {
      var n: nat := Power2(shardingBits);
      var ids, streams := new nat[capacity], new nat[capacity];
      var empty := NewShards(n);
      userIds, streamIds, shards, size := ids, streams, empty, 0;
      this.storesIndex, contents := storesIndex, Empty(n);
      new;
      assert forall j :: 0 <= j < n ==> shards[j] in empty;
      EmptyWellFormed(n, storesIndex);
      assert forall j :: 0 <= j < n ==> Matches(j);
    }

    lemma EntriesInRange(j: nat)
      requires Valid() && j < |shards|
      ensures Matches(j) && (forall e :: e in shards[j].Entries() ==> e < size) && shards[j].count <= size
    {
      assert Indexed(contents, j, storesIndex) && Matches(j);
      assert forall e :: e in contents.shards[j] ==> Lists(contents, j, e, storesIndex);
    }

    /** stream_id_find */
    method FindStream(userId: nat) returns (streamId: int)
      requires Valid()
      ensures streamId == Find(contents, userId)
    {
      var j := ShardOf(userId, |shards|);
      EntriesInRange(j);
      FindInFinds(contents.shards[j], contents.ids, userId);
      var index := shards[j].Find(userIds, size, userId);
      streamId := if index >= 0 then streamIds[index] else -1;
    }

    /** stream_id_register */
    method RegisterStream(userId: nat) returns (streamId: nat)
      requires Valid()
      requires Find(contents, userId) < 0 ==> size < userIds.Length && size <= 32767
      requires Find(contents, userId) < 0 ==> shards[ShardOf(userId, |shards|)].count < 16384
      modifies this, userIds, streamIds, shards, set shard <- shards :: shard.sorted
      ensures Valid()
      ensures contents == Register(old(contents), userId, storesIndex)
      ensures streamId == RegisteredAs(old(contents), userId)
      ensures var was := old(contents);
              if Find(was, userId) >= 0 then contents == was && streamId == Find(was, userId)
              else contents.ids == was.ids + [userId] && streamId == |was.ids|
    {
      var found := FindStream(userId);
      FindInFinds(contents.shards[ShardOf(userId, |shards|)], contents.ids, userId);
      if found >= 0 { return found; }
      streamId := size;
      Enter(userId);
    }

    lemma OtherShards(j: nat)
      requires Valid() && j < |shards|
      ensures forall i :: 0 <= i < |shards| && i != j ==>
                Matches(i) && shards[i] != shards[j] && shards[i].sorted != shards[j].sorted
    {
      forall i | 0 <= i < |shards| && i != j
        ensures Matches(i) && shards[i] != shards[j] && shards[i].sorted != shards[j].sorted
      {
        if i < j { assert shards[i] != shards[j]; } else { assert shards[j] != shards[i]; }
      }
    }

    /** The id goes behind the others, and an entry for it into shard j. */
    method StoreUser(j: nat, userId: nat)
      requires Valid() && j < |shards| && shards[j].count < 16384 && size < userIds.Length
      modifies userIds, streamIds, shards[j], shards[j].sorted
      ensures userIds[..size + 1] == contents.ids + [userId]
      ensures forall i :: 0 <= i <= size ==> streamIds[i] == i
      ensures shards[j].Valid() && shards[j].sorted != userIds && shards[j].sorted != streamIds
      ensures shards[j].sorted == old(shards[j].sorted) || fresh(shards[j].sorted)
      ensures shards[j].Entries() == Added(contents.shards[j], contents.ids + [userId], storesIndex)
    {
      EntriesInRange(j);
      userIds[size], streamIds[size] := userId, size;
      assert userIds[..size + 1] == contents.ids + [userId];
      shards[j].Add(userIds, size + 1, storesIndex);
    }

    /** The rest of stream_id_register, for an id that was not found. */
    method Enter(userId: nat)
      requires Valid() && Find(contents, userId) < 0 && size < userIds.Length && size <= 32767
      requires shards[ShardOf(userId, |shards|)].count < 16384
      modifies this, userIds, streamIds, shards, set shard <- shards :: shard.sorted
      ensures Valid() && contents == Register(old(contents), userId, storesIndex)
    {
      ghost var was := contents;
      RegisterWellFormed(was, userId, storesIndex);
      var j := ShardOf(userId, |shards|);
      OtherShards(j);
      StoreUser(j, userId);
      size, contents := size + 1, Register(was, userId, storesIndex);
      assert Matches(j);
      forall i | 0 <= i < |shards| && i != j ensures Matches(i) {
        assert old(Matches(i));
      }
    }
  }
}
