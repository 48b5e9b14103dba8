/** What the mappings come to over runs of loads, with the index that the code does not extend. */
module MappingRuns {
  import opened Basics
  import opened MappingList
  import opened MappingIndex

  /** The loads lead from t to u, one merge as the code has it after the other. */
  ghost predicate Loads(t: Table, loads: seq<seq<Mapping>>, u: Table)
    decreases |loads|, 0
  {
    if loads == [] then u == t else LoadsMore(t, loads[..|loads| - 1], loads[|loads| - 1], u)
  }

  ghost predicate LoadsMore(t: Table, loads: seq<seq<Mapping>>, load: seq<Mapping>, u: Table)
    decreases |loads|, 1
  {
    exists v :: Loads(t, loads, v) && MergesTo(v, load, u)
  }

  // ---------------------------------------------------------------- any index memory

  /** The index has been sorted as far as there are mappings, and holds what its memory held. */
  ghost predicate HoldsItsMemory(start: Table, t: Table) {
    && start.Proper() && t.Proper() && |t.index| == |start.index| && Ordered(t.ids, t.index[..t.size])
    && multiset(t.index[..t.size]) == multiset(start.index[..t.size]) && t.index[t.size..] == start.index[t.size..]
  }

  lemma PrefixGrows(start: seq<nat>, index: seq<nat>, m: nat, n: nat)
    requires m <= n <= |index| == |start| && index[m..] == start[m..]
    requires multiset(index[..m]) == multiset(start[..m])
    ensures multiset(index[..n]) == multiset(start[..n]) && index[n..] == start[n..]
  {
    assert index[..n] == index[..m] + index[m..][..n - m] && start[..n] == start[..m] + start[m..][..n - m];
    assert index[n..] == index[m..][n - m..] && start[n..] == start[m..][n - m..];
  }

  lemma MergeHolds(start: Table, t: Table, loaded: seq<Mapping>, u: Table)
    requires HoldsItsMemory(start, t) && MergesTo(t, loaded, u)
    ensures HoldsItsMemory(start, u)
  {
    var added := AfterAdds(t, loaded);
    PrefixGrows(start.index, t.index, t.size, added.size);
    NothingAdded(t, loaded);
  }

  lemma {:induction false} NothingAdded(t: Table, loaded: seq<Mapping>)
    requires t.Proper() && t.size + |loaded| <= |t.ids|
    ensures AfterAdds(t, loaded).size == t.size ==> AfterAdds(t, loaded) == t
    decreases |loaded|
  {
    if loaded != [] {
      if t.Find(loaded[0].id) >= 0 { NothingAdded(t, loaded[1..]); }
    }
  }

  lemma {:induction false} LoadsHold(start: Table, loads: seq<seq<Mapping>>, u: Table)
    requires start.Proper() && start.size == 0 && Loads(start, loads, u)
    ensures HoldsItsMemory(start, u)
  {
    if loads != [] {
      var v :| Loads(start, loads[..|loads| - 1], v) && MergesTo(v, loads[|loads| - 1], u);
      LoadsHold(start, loads[..|loads| - 1], v);
      MergeHolds(start, v, loads[|loads| - 1], u);
    }
  }

  /** Whatever the memory of the index held: after any loads an id is found just if that names a mapping with it. */
  lemma FoundIfNamed(start: Table, loads: seq<seq<Mapping>>, u: Table, id: nat)
    requires start.Proper() && start.size == 0 && Loads(start, loads, u)
    ensures u.Proper() && u.size <= |start.index| && InBounds(start.index[..u.size], |u.ids|)
    ensures u.Find(id) >= 0 <==> Names(u.ids, start.index[..u.size], id)
  {
    LoadsHold(start, loads, u);
    SearchFinds(u.ids, u.index[..u.size], id);
    SameNames(u.ids, u.index[..u.size], start.index[..u.size], id);
    SameNames(u.ids, start.index[..u.size], u.index[..u.size], id);
  }

  lemma SameNames(ids: seq<nat>, a: seq<nat>, b: seq<nat>, id: nat)
    requires InBounds(a, |ids|) && multiset(a) == multiset(b)
    ensures InBounds(b, |ids|) && (Names(ids, b, id) ==> Names(ids, a, id))
  {
    forall k | 0 <= k < |b| ensures b[k] in a { assert multiset(b)[b[k]] > 0; assert multiset(a)[b[k]] > 0; }
    if Names(ids, b, id) {
      var k :| 0 <= k < |b| && ids[b[k]] == id;
      var i :| 0 <= i < |a| && a[i] == b[k];
      assert ids[a[i]] == id;
    }
  }

  // ---------------------------------------------------------------- index memory of zeros

  function Zeros(n: nat): seq<nat> { seq(n, _ => 0) }

  /** All that a search of zeros ever finds is the first mapping. */
  function AddedBy(ms: seq<Mapping>, loaded: seq<Mapping>): seq<Mapping>
    decreases |loaded|
  {
    if loaded == [] then ms
    else AddedBy(if ms != [] && ms[0].id == loaded[0].id then ms else ms + [loaded[0]], loaded[1..])
  }

  lemma {:induction false} ZerosFindFirst(ids: seq<nat>, n: nat, id: nat, left: int, right: int)
    requires |ids| > 0 && 0 <= left <= right + 1 <= n
    ensures Search(ids, Zeros(n), id, left, right) == if left <= right && ids[0] == id then 0 else -1
    decreases right - left + 1
  {
    if left <= right {
      var mid := (left + right) / 2;
      if id < ids[0] {
        ZerosFindFirst(ids, n, id, left, mid - 1);
      } else if id > ids[0] {
        ZerosFindFirst(ids, n, id, mid + 1, right);
      }
    }
  }

  lemma FindInZeros(t: Table, id: nat)
    requires t.Proper() && t.index == Zeros(|t.ids|)
    ensures t.Find(id) == if t.size > 0 && t.Contents()[0].id == id then 0 else -1
  {
    assert t.index[..t.size] == Zeros(t.size);
    if t.size > 0 { ZerosFindFirst(t.ids, t.size, id, 0, t.size - 1); }
  }

  lemma {:induction false} ZerosAdd(t: Table, loaded: seq<Mapping>)
    requires t.Proper() && t.size + |loaded| <= |t.ids| && t.index == Zeros(|t.ids|)
    ensures AfterAdds(t, loaded).Contents() == AddedBy(t.Contents(), loaded)
    decreases |loaded|
  {
    if loaded != [] {
      FindInZeros(t, loaded[0].id);
      ZerosAdd(if t.Find(loaded[0].id) >= 0 then t else t.With(loaded[0]), loaded[1..]);
    }
  }

  lemma ZerosSort(t: Table, u: Table)
    requires t.Proper() && t.index == Zeros(|t.ids|) && SortsTo(t, u)
    ensures u == t
  {
    forall k | 0 <= k < |u.index| ensures u.index[k] == 0 {
      if k < t.size {
        assert u.index[..t.size][k] in multiset(u.index[..t.size]);
        assert u.index[k] in multiset(t.index[..t.size]);
      } else {
        assert u.index[t.size..][k - t.size] == t.index[t.size..][k - t.size];
      }
    }
    assert u.index == t.index;
  }

  lemma {:induction false} ZerosLoad(start: Table, loads: seq<seq<Mapping>>, u: Table)
    requires start.Proper() && start.size == 0 && start.index == Zeros(|start.ids|) && Loads(start, loads, u)
    ensures u.Proper() && u.index == Zeros(|u.ids|) && u.Contents() == AddedBy([], Flatten(loads))
  {
    if loads != [] {
      var before, load := loads[..|loads| - 1], loads[|loads| - 1];
      var v :| Loads(start, before, v) && MergesTo(v, load, u);
      ZerosLoad(start, before, v);
      ZerosAdd(v, load);
      if v.size < AfterAdds(v, load).size { ZerosSort(AfterAdds(v, load), u); }
      AddedConcat([], Flatten(before), load);
    }
  }

  lemma {:induction false} AddedConcat(ms: seq<Mapping>, a: seq<Mapping>, b: seq<Mapping>)
    ensures AddedBy(ms, a + b) == AddedBy(AddedBy(ms, a), b)
    decreases |a|
  {
    if a == [] {
      assert a + b == b;
    } else {
      assert (a + b)[1..] == a[1..] + b;
      AddedConcat(if ms != [] && ms[0].id == a[0].id then ms else ms + [a[0]], a[1..], b);
    }
  }

  lemma {:induction false} MergedConcat(ms: seq<Mapping>, a: seq<Mapping>, b: seq<Mapping>)
    ensures Merged(ms, a + b) == Merged(Merged(ms, a), b)
    decreases |a|
  {
    if a == [] {
      assert a + b == b;
    } else {
      assert (a + b)[1..] == a[1..] + b;
      MergedConcat(if HasId(ms, a[0].id) then ms else ms + [a[0]], a[1..], b);
    }
  }

  lemma {:induction false} MeantLoads(loads: seq<seq<Mapping>>)
    ensures AfterLoads(loads) == Merged([], Flatten(loads))
  {
    if loads != [] {
      MeantLoads(loads[..|loads| - 1]);
      MergedConcat([], Flatten(loads[..|loads| - 1]), loads[|loads| - 1]);
    }
  }

  // ---------------------------------------------------------------- the exact conditions

  predicate OneId(all: seq<Mapping>) { forall i :: 0 <= i < |all| ==> all[i].id == all[0].id }

  predicate OthersOnce(all: seq<Mapping>) {
    forall i, j :: 0 <= i < j < |all| && all[i].id == all[j].id ==> all[i].id == all[0].id
  }

  lemma {:induction false} FirstStays(ms: seq<Mapping>, loaded: seq<Mapping>)
    requires ms != []
    ensures AddedBy(ms, loaded) != [] && AddedBy(ms, loaded)[0] == ms[0]
    decreases |loaded|
  {
    if loaded != [] { FirstStays(if ms[0].id == loaded[0].id then ms else ms + [loaded[0]], loaded[1..]); }
  }

  lemma FirstAdded(all: seq<Mapping>)
    ensures all != [] ==> AddedBy([], all) != [] && AddedBy([], all)[0] == all[0]
  {
    if all != [] {
      assert [] + [all[0]] == [all[0]];
      FirstStays([all[0]], all[1..]);
    }
  }

  /** On an index whose memory is zero, every loaded id is found if and only if all of them are one. */
  lemma ZerosKnowOneId(start: Table, loads: seq<seq<Mapping>>, u: Table)
    requires start.Proper() && start.size == 0 && start.index == Zeros(|start.ids|) && Loads(start, loads, u)
    ensures u.Proper()
    ensures (forall m :: m in Flatten(loads) ==> u.Find(m.id) >= 0) <==> OneId(Flatten(loads))
  {
    var all := Flatten(loads);
    ZerosLoad(start, loads, u);
    FirstAdded(all);
    forall m | m in all ensures u.Find(m.id) >= 0 <==> m.id == all[0].id { FindInZeros(u, m.id); }
    assert forall i :: 0 <= i < |all| ==> all[i] in all;
  }

  lemma AddedSnoc(all: seq<Mapping>, m: Mapping)
    ensures AddedBy([], all + [m])
         == if all != [] && all[0].id == m.id then AddedBy([], all) else AddedBy([], all) + [m]
  {
    AddedConcat([], all, [m]);
    FirstAdded(all);
    assert [m][1..] == [];
  }

  lemma MergedSnoc(all: seq<Mapping>, m: Mapping)
    ensures Merged([], all + [m]) == if HasId(all, m.id) then Merged([], all) else Merged([], all) + [m]
  {
    MergedConcat([], all, [m]);
    MergeMeaning([], all, m.id);
    LookupConcat(all, [], m.id);
    LookupConcat(Merged([], all), [], m.id);
    assert [m][1..] == [];
  }

  lemma {:induction false} AddsMore(all: seq<Mapping>)
    ensures |Merged([], all)| <= |AddedBy([], all)|
    ensures if OthersOnce(all) then AddedBy([], all) == Merged([], all) else |Merged([], all)| < |AddedBy([], all)|
  {
    if all != [] {
      var before, m := all[..|all| - 1], all[|all| - 1];
      assert all == before + [m];
      AddsMore(before);
      AddedSnoc(before, m);
      MergedSnoc(before, m);
      OthersOnceSnoc(before, m);
    }
  }

  lemma OthersOnceSnoc(before: seq<Mapping>, m: Mapping)
    ensures OthersOnce(before + [m])
            <==> OthersOnce(before) && (HasId(before, m.id) ==> before[0].id == m.id)
    ensures before != [] && before[0].id == m.id ==> HasId(before, m.id)
  {
    var all := before + [m];
    assert before != [] ==> before[0] in before;
    if OthersOnce(all) {
      forall i, j | 0 <= i < j < |before| && before[i].id == before[j].id ensures before[i].id == before[0].id {
        assert all[i].id == all[j].id;
      }
      if HasId(before, m.id) {
        var i :| 0 <= i < |before| && before[i].id == m.id;
        assert all[i].id == all[|before|].id;
      }
    }
    if OthersOnce(before) && (HasId(before, m.id) ==> before[0].id == m.id) {
      forall i, j | 0 <= i < j < |all| && all[i].id == all[j].id ensures all[i].id == all[0].id {
        if j == |before| { assert all[i] == before[i] && before[i] in before; }
      }
    }
  }

  /**
   On an index whose memory is zero, the mappings are those that the merges mean to leave if and only if no id
   but the first is ever loaded twice, in one load or in different ones.
   */
  lemma ZerosMergeRight(start: Table, loads: seq<seq<Mapping>>, u: Table)
    requires start.Proper() && start.size == 0 && start.index == Zeros(|start.ids|) && Loads(start, loads, u)
    ensures u.Proper() && (u.Contents() == AfterLoads(loads) <==> OthersOnce(Flatten(loads)))
  {
    ZerosLoad(start, loads, u);
    MeantLoads(loads);
    AddsMore(Flatten(loads));
  }

  /** Loading the same two mappings again enters the second again. */
  lemma ReloadDuplicates(start: Table, a: Mapping, b: Mapping, u: Table)
    requires start.Proper() && start.size == 0 && start.index == Zeros(|start.ids|) && a.id != b.id
    requires Loads(start, [[a, b], [a, b]], u)
    ensures u.Proper() && u.Contents() == [a, b, b]
  {
    var loads := [[a, b], [a, b]];
    assert loads[..1][..0] == [] && loads[..1] == [[a, b]];
    assert Flatten(loads[..1]) == [a, b] && Flatten(loads) == [a, b, a] + [b];
    ZerosLoad(start, loads, u);
    AddedSnoc([], a);
    assert [] + [a] == [a] && [a] + [b] == [a, b] && [a, b] + [a] == [a, b, a];
    AddedSnoc([a], b);
    AddedSnoc([a, b], a);
    AddedSnoc([a, b, a], b);
  }

  // ---------------------------------------------------------------- no index memory will do

  lemma AddUnfound(t: Table, m: Mapping, rest: seq<Mapping>)
    requires t.Proper() && t.size + 1 + |rest| <= |t.ids| && t.Find(m.id) < 0
    ensures AfterAdds(t, [m] + rest) == AfterAdds(t.With(m), rest)
  {
    assert ([m] + rest)[1..] == rest;
  }

  lemma EmptyFindsNothing(t: Table, id: nat)
    requires t.Proper() && t.size == 0
    ensures t.Find(id) == -1
  {
  }

  lemma FirstEntryElsewhere(start: Table, a: Mapping)
    requires start.Proper() && start.size == 0 && |start.ids| >= 3
    requires start.index[0] != 0 && start.ids[start.index[0]] != a.id
    ensures AfterAdds(start, [a] + [a]).Contents() == [a, a]
  {
    EmptyFindsNothing(start, a.id);
    AddUnfound(start, a, [a]);
    var one := start.With(a);
    assert one.index[..1] == [start.index[0]] && one.Find(a.id) < 0;
    AddUnfound(one, a, []);
    assert [a] + [] == [a];
  }

  lemma FirstEntryRight(start: Table, a: Mapping, b: Mapping)
    requires start.Proper() && start.size == 0 && |start.ids| >= 3 && start.index[0] == 0 && a.id > b.id
    ensures AfterAdds(start, [a] + ([b] + [b])).Contents() == [a, b, b]
  {
    EmptyFindsNothing(start, a.id);
    AddUnfound(start, a, [b] + [b]);
    var one := start.With(a);
    assert one.index[..1] == [0] && one.Find(b.id) < 0;
    AddUnfound(one, b, [b]);
    var two := one.With(b);
    assert two.index[..2][0] == 0 && two.ids[0] == a.id && two.Find(b.id) < 0;
    AddUnfound(two, b, []);
    assert [b] + [] == [b];
  }

  lemma MergedRepeats(a: Mapping, b: Mapping)
    ensures |Merged([], [a, a])| == 1 && |Merged([], [a, b, b])| <= 2
  {
    assert [a, a] == [a] + [a] && [a, b, b] == [a, b] + [b] && [a, b] == [a] + [b] && [] + [a] == [a];
    MergedSnoc([], a);
    MergedSnoc([a], a);
    MergedSnoc([a], b);
    MergedSnoc([a, b], b);
  }

  /**
   Whatever index memory there is to start with, if it has three places or more: there is a load whose merge
   does not leave the mappings it means to.
   */
  lemma NoMemoryIsRight(start: Table) returns (load: seq<Mapping>)
    requires start.Proper() && start.size == 0 && |start.ids| >= 3
    ensures |load| <= 3
    ensures forall u :: MergesTo(start, load, u) ==> u.Proper() && u.Contents() != Merged([], load)
  {
    var a, b := Mapping(start.ids[start.index[0]] + 1, ""), Mapping(0, "");
    MergedRepeats(a, b);
    if start.index[0] != 0 {
      FirstEntryElsewhere(start, a);
      load := [a, a];
      assert load == [a] + [a];
    } else {
      FirstEntryRight(start, a, b);
      load := [a, b, b];
      assert load == [a] + ([b] + [b]);
    }
  }

  // ---------------------------------------------------------------- the object over a run

  /** The mappings object with the memory it started from and the loads it has merged. */
  class LoadedMappings {
    const mappings: Mappings
    ghost const start: Table
    ghost var loads: seq<seq<Mapping>>

    ghost predicate Valid()
      reads this, mappings, mappings.ids, mappings.names, mappings.sorted
    {
      mappings.Shaped() && start.Proper() && start.size == 0 && Loads(start, loads, mappings.Now())
    }

    constructor (index: array<nat>)
      requires InBounds(index[..], index.Length)
      ensures Valid() && loads == [] && start.index == index[..] && |start.ids| == index.Length
      ensures mappings.sorted == index && fresh(mappings) && fresh(mappings.ids) && fresh(mappings.names)
    {
      var empty := new Mappings(index);
      mappings, start, loads := empty, empty.Now(), [];
    }

    /** A finished mappings job in update_stream_requests. */
    method Load(loaded: seq<Mapping>)
      requires Valid() && mappings.size + |loaded| <= mappings.ids.Length
      modifies this, mappings, mappings.ids, mappings.names, mappings.sorted
      ensures Valid() && loads == old(loads) + [loaded]
    {
      ghost var was := mappings.Now();
      mappings.Merge(loaded);
      assert (loads + [loaded])[..|loads|] == loads;
      assert Loads(start, loads, was) && MergesTo(was, loaded, mappings.Now());
      loads := loads + [loaded];
    }
  }
}
