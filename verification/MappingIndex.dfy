/** The mappings object of stream_request.cpp: parallel arrays and an index of places, sorted by id. */
module MappingIndex {
  import opened Basics
  import opened MappingList

  // ---------------------------------------------------------------- the binary search

  predicate InBounds(index: seq<nat>, n: nat) { forall k :: 0 <= k < |index| ==> index[k] < n }

  /** find_mapping from the bounds left and right on. */
  function Search(ids: seq<nat>, index: seq<nat>, id: nat, left: int, right: int): int
    requires InBounds(index, |ids|) && 0 <= left <= right + 1 <= |index|
    decreases right - left + 1
  {
    if left > right then -1
    else
      var mid := (left + right) / 2;
      var midId := ids[index[mid]];
      if id < midId then Search(ids, index, id, left, mid - 1)
      else if id > midId then Search(ids, index, id, mid + 1, right)
      else index[mid]
  }

  predicate Ordered(ids: seq<nat>, index: seq<nat>) {
    InBounds(index, |ids|) && forall a, b :: 0 <= a < b < |index| ==> ids[index[a]] <= ids[index[b]]
  }

  predicate Names(ids: seq<nat>, index: seq<nat>, id: nat)
    requires InBounds(index, |ids|)
  {
    exists k :: 0 <= k < |index| && ids[index[k]] == id
  }

  /** The index names every mapping, and has as many entries as there are: it is a permutation of their places. */
  predicate NamesAll(index: seq<nat>, n: nat) {
    |index| == n && InBounds(index, n) && forall i :: 0 <= i < n ==> i in index
  }

  /** What a search finds is an entry of the index with the id. */
  lemma {:induction false} SearchSound(ids: seq<nat>, index: seq<nat>, id: nat, left: int, right: int)
    requires InBounds(index, |ids|) && 0 <= left <= right + 1 <= |index|
    ensures var r := Search(ids, index, id, left, right);
            r == -1 || (0 <= r < |ids| && r in index && ids[r] == id)
    decreases right - left + 1
  {
    if left <= right {
      var mid := (left + right) / 2;
      if id < ids[index[mid]] {
        SearchSound(ids, index, id, left, mid - 1);
      } else if id > ids[index[mid]] {
        SearchSound(ids, index, id, mid + 1, right);
      }
    }
  }

  /** On an ordered index, the search finds an entry with the id if there is one within the bounds. */
  lemma {:induction false} SearchComplete(ids: seq<nat>, index: seq<nat>, id: nat, left: int, right: int, k: nat)
    requires Ordered(ids, index) && 0 <= left <= k <= right < |index| && ids[index[k]] == id
    ensures Search(ids, index, id, left, right) >= 0
    decreases right - left + 1
  {
    var mid := (left + right) / 2;
    if id < ids[index[mid]] {
      assert k < mid;
      SearchComplete(ids, index, id, left, mid - 1, k);
    } else if id > ids[index[mid]] {
      assert mid < k;
      SearchComplete(ids, index, id, mid + 1, right, k);
    }
  }

  function SearchAll(ids: seq<nat>, index: seq<nat>, id: nat): int
    requires InBounds(index, |ids|)
  {
    Search(ids, index, id, 0, |index| - 1)
  }

  /** The search of an ordered index finds an id if and only if an entry names it. */
  lemma SearchFinds(ids: seq<nat>, index: seq<nat>, id: nat)
    requires Ordered(ids, index)
    ensures SearchAll(ids, index, id) >= 0 <==> Names(ids, index, id)
  {
    SearchSound(ids, index, id, 0, |index| - 1);
    if Names(ids, index, id) {
      var k :| 0 <= k < |index| && ids[index[k]] == id;
      SearchComplete(ids, index, id, 0, |index| - 1, k);
    }
  }

  /** With unique ids and every place in an ordered index, the binary and the linear search agree on every id. */
  lemma SearchesAgree(ids: seq<nat>, all: seq<nat>, index: seq<nat>, id: nat)
    requires |ids| <= |all| && all[..|ids|] == ids && Unique(ids)
    requires Ordered(all, index) && NamesAll(index, |ids|)
    ensures SearchAll(all, index, id) == LinearFind(ids, id)
  {
    SearchFinds(all, index, id);
    SearchSound(all, index, id, 0, |index| - 1);
    LinearFindFinds(ids, id);
    var l, r := LinearFind(ids, id), SearchAll(all, index, id);
    assert r >= 0 ==> ids[r] == id;
    assert l >= 0 ==> l in index && all[l] == id;
  }

  // ---------------------------------------------------------------- the arrays as values

  /** The arrays to their full length, and how many mappings there are. */
  datatype Table = Table(ids: seq<nat>, names: seq<string>, index: seq<nat>, size: nat) {
    predicate Proper() {
      |ids| == |names| == |index| && size <= |ids| && InBounds(index, |ids|)
    }

    function Contents(): (ms: seq<Mapping>)
      requires Proper()
      ensures |ms| == size
    {
      seq(size, i requires 0 <= i < size => Mapping(ids[i], names[i]))
    }

    function Find(id: nat): int
      requires Proper()
    {
      SearchAll(ids, index[..size], id)
    }

    /** add_mapping, which leaves the index as it is. */
    function With(m: Mapping): (t: Table)
      requires Proper() && size < |ids|
      ensures t.Proper() && t.Contents() == Contents() + [m] && t.index == index
    {
      Table(ids[size := m.id], names[size := m.name], index, size + 1)
    }
  }

  /** Sorting brings the first size entries of the index into order, and changes nothing else. */
  ghost predicate SortsTo(t: Table, u: Table)
    requires t.Proper()
  {
    && u == t.(index := u.index) && u.Proper()
    && multiset(u.index[..t.size]) == multiset(t.index[..t.size]) && u.index[t.size..] == t.index[t.size..]
    && Ordered(u.ids, u.index[..u.size])
  }

  /** The loop of the merge. */
  function AfterAdds(t: Table, loaded: seq<Mapping>): (u: Table)
    requires t.Proper() && t.size + |loaded| <= |t.ids|
    ensures u.Proper() && u.index == t.index && |u.ids| == |t.ids| && t.size <= u.size <= t.size + |loaded|
    decreases |loaded|
  {
    if loaded == [] then t
    else AfterAdds(if t.Find(loaded[0].id) >= 0 then t else t.With(loaded[0]), loaded[1..])
  }

  /** Whatever the index holds, the loop adds the i-th loaded mapping just if the search then does not find its id. */
  lemma {:induction false} AddsIfNotFound(t: Table, loaded: seq<Mapping>, i: nat)
    requires t.Proper() && t.size + |loaded| <= |t.ids| && i < |loaded|
    ensures var before, after := AfterAdds(t, loaded[..i]), AfterAdds(t, loaded[..i + 1]);
            if before.Find(loaded[i].id) >= 0 then after == before
            else after.Contents() == before.Contents() + [loaded[i]] && after.index == t.index
    decreases i
  {
    if i > 0 {
      assert loaded[..i][1..] == loaded[1..][..i - 1] && loaded[..i + 1][1..] == loaded[1..][..i];
      AddsIfNotFound(if t.Find(loaded[0].id) >= 0 then t else t.With(loaded[0]), loaded[1..], i - 1);
    } else {
      assert loaded[..0] == [] && loaded[..1][1..] == [];
    }
  }

  /** The merge as the code has it: the search covers what was added, and the index is sorted if anything was. */
  ghost predicate MergesTo(t: Table, loaded: seq<Mapping>, u: Table) {
    && t.Proper() && t.size + |loaded| <= |t.ids|
    && var added := AfterAdds(t, loaded); if t.size < added.size then SortsTo(added, u) else u == added
  }

  // ---------------------------------------------------------------- the object

  lemma SwapKeeps(index: seq<nat>, a: nat, b: nat)
    requires a < b < |index|
    ensures multiset(index[a := index[b]][b := index[a]]) == multiset(index)
  {
  }

  lemma PermutationNamesAll(index: seq<nat>, was: seq<nat>, n: nat)
    requires NamesAll(was, n) && multiset(index) == multiset(was)
    ensures NamesAll(index, n)
  {
    assert |index| == |multiset(index)| && |was| == |multiset(was)|;
    forall i | 0 <= i < n ensures i in index {
      assert i in was && multiset(was)[i] > 0;
      assert multiset(index)[i] > 0;
    }
    forall k | 0 <= k < |index| ensures index[k] < n { assert index[k] in multiset(index); }
  }

  class Mappings {
    const ids: array<nat>
    const names: array<string>
    const sorted: array<nat>
    var size: nat

    ghost predicate Shaped()
      reads this, ids, names, sorted
    {
      Now().Proper() && ids != sorted
    }

    ghost function Now(): Table
      reads this, ids, names, sorted
    {
      Table(ids[..], names[..], sorted[..], size)
    }

    ghost function Contents(): (ms: seq<Mapping>)
      reads this, ids, names, sorted
      requires Shaped()
      ensures |ms| == size
    {
      Now().Contents()
    }

    /** The first count entries of the index are sorted and name the first count mappings. */
    ghost predicate Indexed(count: nat)
      reads this, ids, names, sorted
    {
      && Shaped() && count <= size
      && NamesAll(sorted[..size], size) && NamesAll(sorted[..count], count)
      && Ordered(ids[..], sorted[..count])
    }

    /** The index is as it is meant to be. */
    ghost predicate Valid()
      reads this, ids, names, sorted
    {
      Indexed(size)
    }

    /** No mappings, and an index array with the contents that its memory has. */
    constructor (index: array<nat>)
      requires InBounds(index[..], index.Length)
      ensures Valid() && Now().index == index[..] && size == 0 && sorted == index && |Now().ids| == index.Length
      ensures fresh(ids) && fresh(names)
    {
      ids, names, sorted := new nat[index.Length], new string[index.Length], index;
      size := 0;
    }

    /** With the index as it is meant to be, find_mapping agrees with a linear search on every id. */
    lemma FindAgrees(id: nat)
      requires Valid() && Unique(Ids(Contents()))
      ensures Now().Find(id) == LinearFind(Ids(Contents()), id)
    {
      SearchesAgree(Ids(Contents()), ids[..], sorted[..size], id);
    }

    /** find_mapping, on the first count entries of the index. */
    method Find(id: nat, count: nat) returns (r: int)
      requires Shaped() && count <= size
      ensures r == SearchAll(ids[..], sorted[..count], id)
      ensures count == size ==> r == Now().Find(id)
    {
      ghost var all, index := ids[..], sorted[..count];
      var left, right := 0, count - 1;
      while left <= right
        invariant 0 <= left <= right + 1 <= count
        invariant Search(all, index, id, left, right) == SearchAll(all, index, id)
      {
        var mid := (left + right) / 2;
        var midId := ids[sorted[mid]];
        if id < midId {
          right := mid - 1;
        } else if id > midId {
          left := mid + 1;
        } else {
          return sorted[mid];
        }
      }
      return -1;
    }

    /** add_mapping */
    method Add(m: Mapping)
      requires Shaped() && size < ids.Length
      modifies this`size, ids, names
      ensures Shaped() && Now() == old(Now()).With(m)
    {
      ids[size], names[size] := m.id, m.name;
      size := size + 1;
    }

    /** Not in the code: enters the mapping that was added last at the end of the index. */
    method EnterLast()
      requires Shaped() && size > 0 && NamesAll(sorted[..size - 1], size - 1)
      modifies sorted
      ensures Shaped() && Now() == old(Now()).(index := old(Now()).index[size - 1 := size - 1])
      ensures NamesAll(sorted[..size], size) && sorted[..size - 1] == old(sorted[..size - 1])
    {
      ghost var was := sorted[..size - 1];
      sorted[size - 1] := size - 1;
      assert sorted[..size] == was + [size - 1];
      assert sorted[..] == old(sorted[..])[size - 1 := size - 1];
    }

    /** sort_mappings; insertion stands for the library's sort. */
    method Sort()
      requires Shaped()
      modifies sorted
      ensures Shaped() && SortsTo(old(Now()), Now())
    {
      for i := 0 to size
        invariant InBounds(sorted[..], ids.Length)
        invariant multiset(sorted[..size]) == multiset(old(sorted[..size]))
        invariant sorted[size..] == old(sorted[size..])
        invariant forall a, b :: 0 <= a < b < i ==> ids[sorted[a]] <= ids[sorted[b]]
      {
        Sink(i);
      }
    }

    method SwapWithPrevious(j: nat)
      requires Shaped() && 0 < j < size
      modifies sorted
      ensures multiset(sorted[..size]) == multiset(old(sorted[..size])) && sorted[size..] == old(sorted[size..])
      ensures sorted[j - 1] == old(sorted[j]) && sorted[j] == old(sorted[j - 1])
      ensures forall k :: 0 <= k < sorted.Length && k != j - 1 && k != j ==> sorted[k] == old(sorted[k])
    {
      ghost var was := sorted[..size];
      sorted[j - 1], sorted[j] := sorted[j], sorted[j - 1];
      assert sorted[..size] == was[j - 1 := was[j]][j := was[j - 1]];
      SwapKeeps(was, j - 1, j);
    }

    /** Moves entry i down to its place among those before it. */
    method Sink(i: nat)
      requires Shaped() && i < size
      requires forall a, b :: 0 <= a < b < i ==> ids[sorted[a]] <= ids[sorted[b]]
      modifies sorted
      ensures InBounds(sorted[..], ids.Length)
      ensures multiset(sorted[..size]) == multiset(old(sorted[..size])) && sorted[size..] == old(sorted[size..])
      ensures forall a, b :: 0 <= a < b <= i ==> ids[sorted[a]] <= ids[sorted[b]]
    {
      var j := i;
      while j > 0 && ids[sorted[j - 1]] > ids[sorted[j]]
        invariant j <= i && InBounds(sorted[..], ids.Length)
        invariant multiset(sorted[..size]) == multiset(old(sorted[..size])) && sorted[size..] == old(sorted[size..])
        invariant forall a, b :: 0 <= a < b <= i && b != j ==> ids[sorted[a]] <= ids[sorted[b]]
      {
        SwapWithPrevious(j);
        j := j - 1;
      }
    }

    /** The merge loop of update_stream_requests. */
    method Merge(loaded: seq<Mapping>)
      requires Shaped() && size + |loaded| <= ids.Length
      modifies this`size, ids, names, sorted
      ensures Shaped() && MergesTo(old(Now()), loaded, Now())
      ensures Contents() == AfterAdds(old(Now()), loaded).Contents()
    {
      ghost var t := Now();
      var before := size;
      for i := 0 to |loaded|
        modifies this`size, ids, names
        invariant Shaped() && size <= before + i
        invariant AfterAdds(Now(), loaded[i..]) == AfterAdds(t, loaded)
      {
        assert loaded[i..][0] == loaded[i] && loaded[i..][1..] == loaded[i + 1..];
        var r := Find(loaded[i].id, size);
        if r < 0 { Add(loaded[i]); }
      }
      if before < size { Sort(); }
    }

    /** Adds m to the repaired mappings unless the search finds it; an eager merge then sorts. */
    method AddIfNew(m: Mapping, indexed: nat, eager: bool) returns (now: nat)
      requires Indexed(indexed) && size < ids.Length && (eager ==> indexed == size)
      modifies this`size, ids, names, sorted
      ensures Indexed(now) && now == if eager then size else indexed
      ensures Contents() == Offered(old(Contents()), indexed, m)
    {
      ghost var ms, index := Contents(), sorted[..indexed];
      now := indexed;
      var r := Find(m.id, indexed);
      SearchFinds(ids[..], index, m.id);
      NamedIsThere(ms, ids[..], index, indexed, m.id);
      if r < 0 {
        Add(m);
        EnterLast();
        assert Now().Contents() == ms + [m];
        if eager {
          ghost var entered := sorted[..size];
          Sort();
          PermutationNamesAll(sorted[..size], entered, size);
          now := size;
        } else {
          assert sorted[..indexed] == index;
        }
      }
    }

    /**
     The merge with the repair. An eager one keeps the index up to date while it goes; the other searches what
     was there before the merge and sorts once, behind the loop.
     */
    method MergeRepaired(loaded: seq<Mapping>, eager: bool)
      requires Valid() && size + |loaded| <= ids.Length
      modifies this`size, ids, names, sorted
      ensures Valid() && Contents() == MergedBy(old(Contents()), old(size), loaded, eager)
    {
      ghost var ms := Contents();
      var before: nat, indexed: nat := size, size;
      for i := 0 to |loaded|
        invariant Indexed(indexed) && before <= size <= before + i && indexed == if eager then size else before
        invariant MergedBy(Contents(), indexed, loaded[i..], eager) == MergedBy(ms, before, loaded, eager)
      {
        MergeStep(Contents(), indexed, loaded, i, eager);
        indexed := AddIfNew(loaded[i], indexed, eager);
      }
      if before < size { SortRepaired(); }
    }

    method SortRepaired()
      requires Shaped() && NamesAll(sorted[..size], size)
      modifies sorted
      ensures Valid() && Contents() == old(Contents())
    {
      ghost var was := sorted[..size];
      Sort();
      PermutationNamesAll(sorted[..size], was, size);
    }
  }

  /** When the index names just the first count mappings, it names those ids and no others. */
  lemma NamedIsThere(ms: seq<Mapping>, all: seq<nat>, index: seq<nat>, count: nat, id: nat)
    requires count <= |ms| <= |all| && all[..|ms|] == Ids(ms) && NamesAll(index, count)
    ensures Names(all, index, id) <==> HasId(ms[..count], id)
  {
    if Names(all, index, id) {
      var k :| 0 <= k < |index| && all[index[k]] == id;
      assert all[..|ms|][index[k]] == id && ms[..count][index[k]] in ms[..count];
    }
    if HasId(ms[..count], id) {
      var i :| 0 <= i < count && ms[..count][i].id == id;
      assert i in index && all[..|ms|][i] == id;
    }
  }
}
