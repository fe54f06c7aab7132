/** Sorting as the library's sort.Sort promises it: an ordered permutation, ties in any order. */
module Sorting {
  import opened Common

  ghost predicate TotalPreorder<T(!new)>(leq: (T, T) -> bool) {
    && (forall x, y :: leq(x, y) || leq(y, x))
    && (forall x, y, z :: Transits(leq, x, y, z))
  }

  ghost predicate Transits<T>(leq: (T, T) -> bool, x: T, y: T, z: T) {
    leq(x, y) && leq(y, z) ==> leq(x, z)
  }

  ghost predicate Sorted<T>(s: seq<T>, leq: (T, T) -> bool) {
    forall i, j :: 0 <= i < j < |s| ==> leq(s[i], s[j])
  }

  function Sort<T(!new)>(s: seq<T>, leq: (T, T) -> bool): (r: seq<T>)
    requires TotalPreorder(leq)
    ensures Sorted(r, leq)
    ensures multiset(r) == multiset(s)
  {
    if s == [] then [] else
    var k := |s| - 1;
    assert s == s[..k] + [s[k]];
    Insert(Sort(s[..k], leq), s[k], leq)
  }

  function Insert<T(!new)>(s: seq<T>, x: T, leq: (T, T) -> bool): (r: seq<T>)
    requires TotalPreorder(leq) && Sorted(s, leq)
    ensures Sorted(r, leq)
    ensures multiset(r) == multiset(s) + multiset{x}
  {
    var k := Place(s, x, leq);
    assert s == s[..k] + s[k..];
    s[..k] + [x] + s[k..]
  }

  /** Where x belongs in a sorted list. */
  function Place<T(!new)>(s: seq<T>, x: T, leq: (T, T) -> bool): (k: nat)
    requires TotalPreorder(leq) && Sorted(s, leq)
    ensures k <= |s|
    ensures forall j :: 0 <= j < k ==> leq(s[j], x)
    ensures forall j :: k <= j < |s| ==> leq(x, s[j])
  {
    if s == [] then 0 else
    var last := |s| - 1;
    assert forall j :: 0 <= j < |s| ==> Transits(leq, s[j], s[last], x);
    if leq(s[last], x) then |s| else Place(s[..last], x, leq)
  }

  lemma {:induction false} SizeDistinct<T>(s: seq<T>)
    requires |Elems(s)| == |s|
    ensures Distinct(s)
  {
    if s != [] {
      var k := |s| - 1;
      assert s == s[..k] + [s[k]];
      ElemsAppend(s[..k], s[k]);
      ElemsSize(s[..k]);
      assert s[k] !in Elems(s[..k]);
      SizeDistinct(s[..k]);
    }
  }

  lemma {:induction false} ElemsSize<T>(s: seq<T>)
    ensures |Elems(s)| <= |s|
  {
    if s != [] {
      var k := |s| - 1;
      assert s == s[..k] + [s[k]];
      ElemsAppend(s[..k], s[k]);
      ElemsSize(s[..k]);
    }
  }

  /** A permutation of distinct elements has distinct elements. */
  lemma PermutationDistinct<T>(s: seq<T>, r: seq<T>)
    requires multiset(s) == multiset(r) && Distinct(s)
    ensures Distinct(r) && |r| == |s|
    ensures forall x :: x in r <==> x in s
  {
    assert |multiset(s)| == |s| && |multiset(r)| == |r|;
    assert forall x :: x in r <==> x in multiset(r);
    assert forall x :: x in s <==> x in multiset(s);
    assert Elems(s) == Elems(r);
    DistinctSize(s);
    SizeDistinct(r);
  }
}
