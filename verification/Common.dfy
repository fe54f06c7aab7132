/** Small vocabulary shared by the other modules: options, sequences read as sets, and runs. */
module Common {

  datatype Option<+T> = None | Some(value: T)

  ghost predicate Distinct<T>(s: seq<T>) {
    forall i, j :: 0 <= i < j < |s| ==> s[i] != s[j]
  }

  ghost function Elems<T>(s: seq<T>): set<T> {
    set x | x in s
  }

  /** The numbers below n. */
  ghost function Below(n: nat): (r: set<nat>)
    ensures forall i: nat :: i in r <==> i < n
  {
    if n == 0 then {} else Below(n - 1) + {n - 1}
  }

  lemma ElemsAppend<T>(s: seq<T>, x: T)
    ensures Elems(s + [x]) == Elems(s) + {x}
  {
  }

  lemma ElemsPrepend<T>(x: T, s: seq<T>)
    ensures Elems([x] + s) == {x} + Elems(s)
  {
  }

  lemma ElemsDropLast<T>(s: seq<T>)
    requires Distinct(s) && s != []
    ensures Elems(s[..|s| - 1]) == Elems(s) - {s[|s| - 1]}
  {
    assert s == s[..|s| - 1] + [s[|s| - 1]];
  }

  lemma {:induction false} DistinctSize<T>(s: seq<T>)
    requires Distinct(s)
    ensures |Elems(s)| == |s|
  {
    if s != [] {
      var k := |s| - 1;
      assert s == s[..k] + [s[k]];
      ElemsAppend(s[..k], s[k]);
      DistinctSize(s[..k]);
    }
  }

  lemma {:induction false} BelowSize(n: nat)
    ensures |Below(n)| == n
  {
    if n != 0 {
      BelowSize(n - 1);
    }
  }

  lemma SubsetOfEqualSize<T>(a: set<T>, b: set<T>)
    requires a <= b && |a| == |b|
    ensures a == b
  {
    assert a + (b - a) == b;
    assert |b - a| == 0;
  }

  lemma SubsetSize<T>(a: set<T>, b: set<T>)
    requires a <= b
    ensures |a| <= |b|
  {
    assert a + (b - a) == b;
  }

  /** Pigeonhole: n distinct numbers below n are all the numbers below n. */
  lemma DistinctBelowIsAll(s: seq<nat>, n: nat)
    requires Distinct(s) && |s| == n
    requires forall k :: 0 <= k < |s| ==> s[k] < n
    ensures Elems(s) == Below(n)
  {
    DistinctSize(s);
    BelowSize(n);
    SubsetOfEqualSize(Elems(s), Below(n));
  }

  lemma MissingOne(s: set<nat>, n: nat, j: nat)
    requires s <= Below(n) && j < n && j !in s
    ensures |s| < n
  {
    BelowSize(n);
    SubsetSize(s, Below(n) - {j});
  }

  /** A set of fewer than n numbers below n misses one of them. */
  lemma OneMissing(s: set<nat>, n: nat) returns (j: nat)
    requires s <= Below(n) && |s| != n
    ensures j < n && j !in s
  {
    BelowSize(n);
    assert s != Below(n);
    j :| j in Below(n) && j !in s;
  }

  // ---- filtered sequences ----

  /** `ids` are, in order, the indices of all elements of s that are kept, and r has these elements. */
  ghost predicate KeptAt<T>(s: seq<T>, keep: T -> bool, r: seq<T>, ids: seq<nat>) {
    && |ids| == |r|
    && (forall i, j :: 0 <= i < j < |ids| ==> ids[i] < ids[j])
    && (forall i :: 0 <= i < |ids| ==> ids[i] < |s| && keep(s[ids[i]]) && r[i] == s[ids[i]])
    && (forall k: nat {:trigger NotMissed(s, keep, ids, k)} :: k < |s| ==> NotMissed(s, keep, ids, k))
  }

  ghost predicate NotMissed<T>(s: seq<T>, keep: T -> bool, ids: seq<nat>, k: nat)
    requires k < |s|
  {
    keep(s[k]) ==> k in ids
  }

  /** r has exactly the kept elements of s, in the order of s. */
  ghost predicate IsFiltered<T>(s: seq<T>, keep: T -> bool, r: seq<T>) {
    exists ids :: KeptAt(s, keep, r, ids)
  }

  lemma KeptMore<T>(s: seq<T>, x: T, keep: T -> bool, r: seq<T>, ids: seq<nat>)
    requires KeptAt(s, keep, r, ids)
    ensures if keep(x) then KeptAt(s + [x], keep, r + [x], ids + [|s|]) else KeptAt(s + [x], keep, r, ids)
  {
    var more := if keep(x) then ids + [|s|] else ids;
    forall k: nat | k < |s| + 1
      ensures NotMissed(s + [x], keep, more, k)
    {
      if k < |s| {
        assert NotMissed(s, keep, ids, k);
      } else if keep(x) {
        assert more[|ids|] == k;
      }
    }
  }

  lemma FilteredMore<T>(s: seq<T>, keep: T -> bool, r: seq<T>)
    requires s != [] && IsFiltered(s[..|s| - 1], keep, r)
    ensures IsFiltered(s, keep, if keep(s[|s| - 1]) then r + [s[|s| - 1]] else r)
  {
    var k := |s| - 1;
    var ids :| KeptAt(s[..k], keep, r, ids);
    KeptMore(s[..k], s[k], keep, r, ids);
    assert s[..k] + [s[k]] == s;
  }

  // ---- runs of a step relation ----

  ghost predicate StepAt<S>(next: (S, S) -> bool, run: seq<S>, k: nat)
    requires k < |run| - 1
  {
    next(run[k], run[k + 1])
  }

  /** Each state of the run leads to the following one. */
  ghost predicate IsPath<S>(next: (S, S) -> bool, run: seq<S>) {
    forall k: nat {:trigger StepAt(next, run, k)} :: k < |run| - 1 ==> StepAt(next, run, k)
  }

  lemma ShorterPath<S>(next: (S, S) -> bool, run: seq<S>)
    requires IsPath(next, run) && |run| > 1
    ensures IsPath(next, run[..|run| - 1]) && next(run[|run| - 2], run[|run| - 1])
  {
    var shorter := run[..|run| - 1];
    forall k: nat | k < |shorter| - 1
      ensures StepAt(next, shorter, k)
    {
      assert StepAt(next, run, k);
    }
    assert StepAt(next, run, |run| - 2);
  }
}
