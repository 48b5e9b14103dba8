/** What several of the models have in common. */
module Basics {

  datatype Option<T> = None | Some(value: T)

  type byte = x: int | 0 <= x < 256

  /** A line of a mappings file. */
  datatype Mapping = Mapping(id: nat, name: string)

  /** The last element takes the place of element i. */
  function SwapRemove<T>(s: seq<T>, i: nat): (r: seq<T>)
    requires i < |s|
    ensures |r| == |s| - 1
  {
    s[i := s[|s| - 1]][..|s| - 1]
  }

  predicate Unique(ids: seq<nat>) { forall i, k :: 0 <= i < k < |ids| ==> ids[i] != ids[k] }

  /** The first place of an id, or -1. */
  function LinearFind(ids: seq<nat>, id: nat): int {
    if ids == [] then -1
    else if ids[0] == id then 0
    else if LinearFind(ids[1..], id) < 0 then -1 else 1 + LinearFind(ids[1..], id)
  }

  lemma {:induction false} LinearFindFinds(ids: seq<nat>, id: nat)
    ensures var f := LinearFind(ids, id);
            if f >= 0 then f < |ids| && ids[f] == id && forall i :: 0 <= i < f ==> ids[i] != id
            else f == -1 && id !in ids
  {
    if ids != [] {
      LinearFindFinds(ids[1..], id);
      assert forall x :: x in ids <==> x == ids[0] || x in ids[1..];
    }
  }

  lemma LinearFindSnoc(ids: seq<nat>, x: nat, id: nat)
    ensures LinearFind(ids + [x], id)
         == if LinearFind(ids, id) >= 0 then LinearFind(ids, id) else if x == id then |ids| else -1
  {
    var more := ids + [x];
    LinearFindFinds(ids, id);
    LinearFindFinds(more, id);
    var f, g := LinearFind(ids, id), LinearFind(more, id);
    assert f >= 0 ==> more[f] == id;
    assert x == id ==> more[|ids|] == id;
    assert 0 <= g < |ids| ==> ids[g] == id;
  }

  lemma MultipleFar(d: int, k: int)
    requires d >= 0
    ensures (k >= 1 ==> d * k >= d) && (k <= -1 ==> d * k <= -d)
  {
    if k >= 1 { assert d * k == d * (k - 1) + d; }
    if k <= -1 { assert d * k == d * (k + 1) - d; }
  }

  /** What division and remainder are. */
  lemma DivisionIs(x: int, d: int, q: int, r: int)
    requires 0 <= r < d && x == d * q + r
    ensures x / d == q && x % d == r
  {
    var k := x / d - q;
    assert x == d * (x / d) + x % d && d * k == r - x % d;
    MultipleFar(d, k);
  }
}
