/** Merging loaded id-to-name mappings into those there are, as stream_request.cpp means to. */
module MappingList {
  import opened Basics

  // ---------------------------------------------------------------- mappings as a list

  /** The name of an id by linear search. */
  function Lookup(ms: seq<Mapping>, id: nat): Option<string> {
    if ms == [] then None else if ms[0].id == id then Some(ms[0].name) else Lookup(ms[1..], id)
  }

  function Ids(ms: seq<Mapping>): (ids: seq<nat>)
    ensures |ids| == |ms| && forall i :: 0 <= i < |ms| ==> ids[i] == ms[i].id
  {
    seq(|ms|, i requires 0 <= i < |ms| => ms[i].id)
  }

  predicate HasId(ms: seq<Mapping>, id: nat) { exists m :: m in ms && m.id == id }

  /** The loaded mappings are added one by one, each if its id is not there yet. */
  function Merged(ms: seq<Mapping>, loaded: seq<Mapping>): seq<Mapping>
    decreases |loaded|
  {
    if loaded == [] then ms
    else Merged(if HasId(ms, loaded[0].id) then ms else ms + [loaded[0]], loaded[1..])
  }

  /** The loaded mappings whose id is not in ms. */
  function Unlisted(ms: seq<Mapping>, loaded: seq<Mapping>): seq<Mapping> {
    if loaded == [] then []
    else (if HasId(ms, loaded[0].id) then [] else [loaded[0]]) + Unlisted(ms, loaded[1..])
  }

  lemma {:induction false} LookupConcat(a: seq<Mapping>, b: seq<Mapping>, id: nat)
    ensures Lookup(a + b, id) == if HasId(a, id) then Lookup(a, id) else Lookup(b, id)
    ensures Lookup(a, id).Some? <==> HasId(a, id)
  {
    if a == [] {
      assert a + b == b;
    } else {
      assert (a + b)[1..] == a[1..] + b;
      assert forall m :: m in a <==> m == a[0] || m in a[1..];
      LookupConcat(a[1..], b, id);
    }
  }

  /** Merging keeps ids unique, keeps the old mappings in place, and gives each new id its first loaded name. */
  lemma {:induction false} MergeMeaning(ms: seq<Mapping>, loaded: seq<Mapping>, id: nat)
    ensures Unique(Ids(ms)) ==> Unique(Ids(Merged(ms, loaded)))
    ensures |ms| <= |Merged(ms, loaded)| && Merged(ms, loaded)[..|ms|] == ms
    ensures Lookup(Merged(ms, loaded), id) == if HasId(ms, id) then Lookup(ms, id) else Lookup(loaded, id)
    decreases |loaded|
  {
    LookupConcat(ms, loaded, id);
    if loaded != [] {
      var more := if HasId(ms, loaded[0].id) then ms else ms + [loaded[0]];
      MergeMeaning(more, loaded[1..], id);
      LookupConcat(ms, [loaded[0]], id);
      if more != ms { assert HasId(more, id) <==> HasId(ms, id) || id == loaded[0].id; }
    } else {
      assert Lookup(loaded, id).None?;
    }
  }

  function Offered(ms: seq<Mapping>, searched: nat, m: Mapping): seq<Mapping>
    requires searched <= |ms|
  {
    if HasId(ms[..searched], m.id) then ms else ms + [m]
  }

  /** A merge whose search sees the first searched mappings; an eager one widens that as it goes. */
  function MergedBy(ms: seq<Mapping>, searched: nat, loaded: seq<Mapping>, eager: bool): seq<Mapping>
    requires searched <= |ms|
    decreases |loaded|
  {
    if loaded == [] then ms
    else
      var more := Offered(ms, searched, loaded[0]);
      MergedBy(more, if eager then |more| else searched, loaded[1..], eager)
  }

  lemma MergeStep(ms: seq<Mapping>, searched: nat, loaded: seq<Mapping>, i: nat, eager: bool)
    requires searched <= |ms| && i < |loaded|
    ensures var more := Offered(ms, searched, loaded[i]);
            MergedBy(ms, searched, loaded[i..], eager)
            == MergedBy(more, if eager then |more| else searched, loaded[i + 1..], eager)
  {
    assert loaded[i..][0] == loaded[i] && loaded[i..][1..] == loaded[i + 1..];
  }

  lemma {:induction false} EagerMerge(ms: seq<Mapping>, loaded: seq<Mapping>)
    ensures MergedBy(ms, |ms|, loaded, true) == Merged(ms, loaded)
    decreases |loaded|
  {
    assert ms[..|ms|] == ms;
    if loaded != [] { EagerMerge(if HasId(ms, loaded[0].id) then ms else ms + [loaded[0]], loaded[1..]); }
  }

  lemma {:induction false} StaleMerge(ms: seq<Mapping>, searched: nat, loaded: seq<Mapping>)
    requires searched <= |ms|
    ensures MergedBy(ms, searched, loaded, false) == ms + Unlisted(ms[..searched], loaded)
    decreases |loaded|
  {
    if loaded != [] {
      var more := Offered(ms, searched, loaded[0]);
      assert more[..searched] == ms[..searched];
      StaleMerge(more, searched, loaded[1..]);
    }
  }

  function Flatten(loads: seq<seq<Mapping>>): seq<Mapping> {
    if loads == [] then [] else Flatten(loads[..|loads| - 1]) + loads[|loads| - 1]
  }

  function AfterLoads(loads: seq<seq<Mapping>>): seq<Mapping> {
    if loads == [] then [] else Merged(AfterLoads(loads[..|loads| - 1]), loads[|loads| - 1])
  }

  /** Over any run of loads, an id has the name that it was first loaded with. */
  lemma {:induction false} FirstNameStays(loads: seq<seq<Mapping>>, id: nat)
    ensures Unique(Ids(AfterLoads(loads))) && Lookup(AfterLoads(loads), id) == Lookup(Flatten(loads), id)
  {
    if loads != [] {
      var before, load := loads[..|loads| - 1], loads[|loads| - 1];
      FirstNameStays(before, id);
      MergeMeaning(AfterLoads(before), load, id);
      LookupConcat(Flatten(before), load, id);
      LookupConcat(AfterLoads(before), load, id);
    }
  }

  predicate RepeatsNoNewId(ms: seq<Mapping>, loaded: seq<Mapping>) {
    forall i, j :: 0 <= i < j < |loaded| && loaded[i].id == loaded[j].id ==> HasId(ms, loaded[i].id)
  }

  /**
   Of a merge whose index is repaired: searching only what was there before it, and sorting once behind it,
   comes to the same if and only if no new id is loaded twice.
   */
  lemma {:induction false} StaleSearchIsEnough(ms: seq<Mapping>, loaded: seq<Mapping>)
    ensures ms + Unlisted(ms, loaded) == Merged(ms, loaded) <==> RepeatsNoNewId(ms, loaded)
    decreases |loaded|
  {
    if loaded != [] {
      if HasId(ms, loaded[0].id) {
        StaleSearchIsEnough(ms, loaded[1..]);
        TailRepeats(ms, loaded);
      } else if HasId(loaded[1..], loaded[0].id) {
        NewIdLoadedAgain(ms, loaded);
      } else {
        NewIdLoadedOnce(ms, loaded);
        StaleSearchIsEnough(ms + [loaded[0]], loaded[1..]);
        NewHeadRepeats(ms, loaded);
      }
    }
  }

  lemma NewIdLoadedAgain(ms: seq<Mapping>, loaded: seq<Mapping>)
    requires loaded != [] && !HasId(ms, loaded[0].id) && HasId(loaded[1..], loaded[0].id)
    ensures ms + Unlisted(ms, loaded) != Merged(ms, loaded) && !RepeatsNoNewId(ms, loaded)
  {
    var k :| 0 <= k < |loaded[1..]| && loaded[1..][k].id == loaded[0].id;
    assert loaded[0].id == loaded[k + 1].id;
    UnlistedShrinks(ms, loaded[0], loaded[1..]);
    MergedSize(ms + [loaded[0]], loaded[1..]);
    assert |Merged(ms, loaded)| < |ms + Unlisted(ms, loaded)|;
  }

  lemma NewIdLoadedOnce(ms: seq<Mapping>, loaded: seq<Mapping>)
    requires loaded != [] && !HasId(ms, loaded[0].id) && !HasId(loaded[1..], loaded[0].id)
    ensures var more := ms + [loaded[0]];
            && ms + Unlisted(ms, loaded) == more + Unlisted(more, loaded[1..])
            && Merged(ms, loaded) == Merged(more, loaded[1..])
  {
    UnlistedShrinks(ms, loaded[0], loaded[1..]);
  }

  lemma TailRepeats(ms: seq<Mapping>, loaded: seq<Mapping>)
    requires loaded != [] && HasId(ms, loaded[0].id)
    ensures RepeatsNoNewId(ms, loaded) <==> RepeatsNoNewId(ms, loaded[1..])
  {
    if RepeatsNoNewId(ms, loaded[1..]) {
      forall i, j | 0 <= i < j < |loaded| && loaded[i].id == loaded[j].id ensures HasId(ms, loaded[i].id) {
        if i > 0 { assert loaded[1..][i - 1].id == loaded[1..][j - 1].id; }
      }
    }
  }

  lemma NewHeadRepeats(ms: seq<Mapping>, loaded: seq<Mapping>)
    requires loaded != [] && !HasId(loaded[1..], loaded[0].id)
    ensures RepeatsNoNewId(ms, loaded) <==> RepeatsNoNewId(ms + [loaded[0]], loaded[1..])
  {
    var more, rest := ms + [loaded[0]], loaded[1..];
    forall m | m in rest ensures HasId(more, m.id) <==> HasId(ms, m.id) {
      assert forall x :: x in more <==> x in ms || x == loaded[0];
    }
    forall i, j | 0 <= i < j < |loaded| && loaded[i].id == loaded[j].id ensures i > 0 {
      assert loaded[j] in rest;
    }
    if RepeatsNoNewId(more, rest) {
      forall i, j | 0 <= i < j < |loaded| && loaded[i].id == loaded[j].id ensures HasId(ms, loaded[i].id) {
        assert rest[i - 1] in rest && rest[i - 1].id == rest[j - 1].id;
      }
    }
    if RepeatsNoNewId(ms, loaded) {
      forall i, j | 0 <= i < j < |rest| && rest[i].id == rest[j].id ensures HasId(more, rest[i].id) {
        assert loaded[i + 1].id == loaded[j + 1].id && rest[i] in rest;
      }
    }
  }

  /** Searching before m is added lists at least what is listed after, and more if m's id is loaded again. */
  lemma {:induction false} UnlistedShrinks(ms: seq<Mapping>, m: Mapping, loaded: seq<Mapping>)
    requires !HasId(ms, m.id)
    ensures |Unlisted(ms + [m], loaded)| <= |Unlisted(ms, loaded)|
    ensures HasId(loaded, m.id) ==> |Unlisted(ms + [m], loaded)| < |Unlisted(ms, loaded)|
    ensures !HasId(loaded, m.id) ==> Unlisted(ms + [m], loaded) == Unlisted(ms, loaded)
  {
    if loaded != [] {
      UnlistedShrinks(ms, m, loaded[1..]);
      assert forall x :: x in loaded <==> x == loaded[0] || x in loaded[1..];
      var id := loaded[0].id;
      assert HasId(ms + [m], id) <==> HasId(ms, id) || id == m.id by {
        assert forall x :: x in ms + [m] <==> x in ms || x == m;
      }
    }
  }

  lemma {:induction false} MergedSize(ms: seq<Mapping>, loaded: seq<Mapping>)
    ensures |Merged(ms, loaded)| <= |ms| + |Unlisted(ms, loaded)|
    decreases |loaded|
  {
    if loaded != [] {
      if HasId(ms, loaded[0].id) {
        MergedSize(ms, loaded[1..]);
      } else {
        UnlistedShrinks(ms, loaded[0], loaded[1..]);
        MergedSize(ms + [loaded[0]], loaded[1..]);
      }
    }
  }
}
