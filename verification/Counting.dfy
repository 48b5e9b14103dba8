/** Counting, filtering and bag lemmas shared by the thread-protocol models. */
module Counting {
  import opened Basics

  /** The number of elements of s that satisfy p. */
  function Count<T>(s: seq<T>, p: T -> bool): (n: nat)
    ensures n <= |s|
  {
    if s == [] then 0 else (if p(s[0]) then 1 else 0) + Count(s[1..], p)
  }

  function Bit(b: bool): nat { if b then 1 else 0 }

  lemma {:induction false} CountUpdate<T>(s: seq<T>, i: nat, x: T, p: T -> bool)
    requires i < |s|
    ensures Count(s[i := x], p) + Bit(p(s[i])) == Count(s, p) + Bit(p(x))
  {
    if i == 0 {
      assert s[i := x][1..] == s[1..];
    } else {
      assert s[i := x][1..] == s[1..][i - 1 := x];
      CountUpdate(s[1..], i - 1, x, p);
    }
  }

  lemma {:induction false} CountPositive<T>(s: seq<T>, p: T -> bool)
    ensures Count(s, p) > 0 <==> exists i :: 0 <= i < |s| && p(s[i])
  {
    if s != [] {
      CountPositive(s[1..], p);
      if exists i :: 0 <= i < |s| && p(s[i]) {
        var i :| 0 <= i < |s| && p(s[i]);
        if i > 0 { assert p(s[1..][i - 1]); }
      }
      if Count(s[1..], p) > 0 {
        var i :| 0 <= i < |s[1..]| && p(s[1..][i]);
        assert p(s[i + 1]);
      }
    }
  }

  /** Two predicates that exclude one another on s count at most |s| together. */
  lemma {:induction false} CountDisjoint<T>(s: seq<T>, p: T -> bool, q: T -> bool)
    requires forall i :: 0 <= i < |s| ==> !(p(s[i]) && q(s[i]))
    ensures Count(s, p) + Count(s, q) <= |s|
  {
    if s != [] {
      forall i | 0 <= i < |s[1..]| ensures !(p(s[1..][i]) && q(s[1..][i])) {
        assert s[1..][i] == s[i + 1];
      }
      CountDisjoint(s[1..], p, q);
    }
  }

  /** The elements of s that satisfy p, in order. */
  function Filter<T>(s: seq<T>, p: T -> bool): (r: seq<T>)
  {
    if s == [] then [] else if p(s[0]) then [s[0]] + Filter(s[1..], p) else Filter(s[1..], p)
  }

  lemma {:induction false} FilterConcat<T>(s: seq<T>, t: seq<T>, p: T -> bool)
    ensures Filter(s + t, p) == Filter(s, p) + Filter(t, p)
  {
    if s == [] {
      assert s + t == t;
    } else {
      assert (s + t)[1..] == s[1..] + t;
      FilterConcat(s[1..], t, p);
    }
  }

  lemma {:induction false} CountConcat<T>(s: seq<T>, t: seq<T>, p: T -> bool)
    ensures Count(s + t, p) == Count(s, p) + Count(t, p)
  {
    if s == [] {
      assert s + t == t;
    } else {
      assert (s + t)[1..] == s[1..] + t;
      CountConcat(s[1..], t, p);
    }
  }

  lemma {:induction false} CountSame<T>(s: seq<T>, t: seq<T>, p: T -> bool)
    requires |s| == |t| && forall i :: 0 <= i < |s| ==> p(s[i]) == p(t[i])
    ensures Count(s, p) == Count(t, p)
  {
    if s != [] { CountSame(s[1..], t[1..], p); }
  }

  lemma CountOne<T>(x: T, p: T -> bool)
    ensures Count([x], p) == Bit(p(x))
  {
    assert [x][1..] == [];
  }

  lemma SwapRemoveParts<T>(s: seq<T>, i: nat)
    requires i < |s|
    ensures s[i := s[|s| - 1]] == SwapRemove(s, i) + [s[|s| - 1]]
  {
  }

  lemma CountSwapRemove<T>(s: seq<T>, i: nat, p: T -> bool)
    requires i < |s|
    ensures Count(SwapRemove(s, i), p) + Bit(p(s[i])) == Count(s, p)
  {
    var last := s[|s| - 1];
    SwapRemoveParts(s, i);
    CountUpdate(s, i, last, p);
    CountConcat(SwapRemove(s, i), [last], p);
    CountOne(last, p);
  }

  function Is<T(==)>(x: T): T -> bool { (y: T) => y == x }

  /** How often x occurs in s. */
  function Times<T(==)>(s: seq<T>, x: T): nat { Count(s, Is(x)) }

  /** How often x occurs in a sequence of queues. */
  function TimesAll<T(==)>(qs: seq<seq<T>>, x: T): nat {
    if qs == [] then 0 else Times(qs[0], x) + TimesAll(qs[1..], x)
  }

  lemma {:induction false} TimesAllUpdate<T>(qs: seq<seq<T>>, i: nat, q: seq<T>, x: T)
    requires i < |qs|
    ensures TimesAll(qs[i := q], x) + Times(qs[i], x) == TimesAll(qs, x) + Times(q, x)
  {
    if i == 0 {
      assert qs[i := q][1..] == qs[1..];
    } else {
      assert qs[i := q][1..] == qs[1..][i - 1 := q];
      TimesAllUpdate(qs[1..], i - 1, q, x);
    }
  }

  lemma {:induction false} TimesAllEmpty<T>(qs: seq<seq<T>>, x: T)
    requires forall i :: 0 <= i < |qs| ==> qs[i] == []
    ensures TimesAll(qs, x) == 0
  {
    if qs != [] { TimesAllEmpty(qs[1..], x); }
  }

  /** Times is multiplicity in the bag of s. */
  lemma {:induction false} TimesIsMultiplicity<T>(s: seq<T>, x: T)
    ensures Times(s, x) == multiset(s)[x]
  {
    if s != [] {
      assert s == [s[0]] + s[1..];
      TimesIsMultiplicity(s[1..], x);
    }
  }
}
