/**
 * MapReduce: the shuffle of the distributed program (labs/src/mr/worker.go)
 * computes what the sequential program (labs/src/main/mrsequential.go)
 * computes. Files are sequences of pairs; the hash is any function.
 */
module Shuffle {
  import opened Common
  import opened Sorting
  import StringOrder

  datatype KeyValue = KeyValue(key: string, value: string)
  datatype Line = Line(key: string, output: string)

  type Reducer = (string, seq<string>) -> string

  predicate KeyLeq(a: KeyValue, b: KeyValue) {
    StringOrder.Leq(a.key, b.key)
  }

  lemma KeyLeqIsOrder()
    ensures TotalPreorder(KeyLeq)
  {
    forall x: KeyValue, y: KeyValue
      ensures KeyLeq(x, y) || KeyLeq(y, x)
    {
      StringOrder.LeqTotal(x.key, y.key);
    }
    forall x: KeyValue, y: KeyValue, z: KeyValue
      ensures Transits(KeyLeq, x, y, z)
    {
      if KeyLeq(x, y) && KeyLeq(y, z) {
        StringOrder.LeqTransitive(x.key, y.key, z.key);
      }
    }
  }

  // ---- the meaning of a reduction ----

  ghost predicate HasKey(kvs: seq<KeyValue>, key: string) {
    exists i :: 0 <= i < |kvs| && kvs[i].key == key
  }

  /** The values of one key, in order. */
  ghost function ValuesOf(kvs: seq<KeyValue>, key: string): seq<string> {
    if kvs == [] then [] else
    var k := |kvs| - 1;
    var r := ValuesOf(kvs[..k], key);
    if kvs[k].key == key then r + [kvs[k].value] else r
  }

  ghost predicate LineFor(kvs: seq<KeyValue>, reducef: Reducer, line: Line) {
    HasKey(kvs, line.key) && line.output == reducef(line.key, ValuesOf(kvs, line.key))
  }

  ghost predicate HasLine(lines: seq<Line>, key: string) {
    exists i :: 0 <= i < |lines| && lines[i].key == key
  }

  /** One line for every key, holding the reduction of that key's values. */
  ghost predicate Reduced(kvs: seq<KeyValue>, reducef: Reducer, lines: seq<Line>) {
    && (forall i, j :: 0 <= i < j < |lines| ==> lines[i].key != lines[j].key)
    && (forall i :: 0 <= i < |lines| ==> LineFor(kvs, reducef, lines[i]))
    && (forall key :: HasKey(kvs, key) ==> HasLine(lines, key))
  }

  /** The reducer looks at the values, not at their order. */
  ghost predicate OrderInsensitive(reducef: Reducer) {
    forall key, v, w :: multiset(v) == multiset(w) ==> reducef(key, v) == reducef(key, w)
  }

  lemma {:induction false} ValuesCount(kvs: seq<KeyValue>, key: string, v: string)
    ensures multiset(ValuesOf(kvs, key))[v] == multiset(kvs)[KeyValue(key, v)]
  {
    if kvs != [] {
      var k := |kvs| - 1;
      ValuesCount(kvs[..k], key, v);
      assert kvs == kvs[..k] + [kvs[k]];
    }
  }

  lemma ValuesOfPermutation(a: seq<KeyValue>, b: seq<KeyValue>, key: string)
    requires multiset(a) == multiset(b)
    ensures multiset(ValuesOf(a, key)) == multiset(ValuesOf(b, key))
    ensures HasKey(a, key) <==> HasKey(b, key)
  {
    forall v
      ensures multiset(ValuesOf(a, key))[v] == multiset(ValuesOf(b, key))[v]
    {
      ValuesCount(a, key, v);
      ValuesCount(b, key, v);
    }
    if HasKey(a, key) {
      var i :| 0 <= i < |a| && a[i].key == key;
      assert a[i] in multiset(b);
    }
    if HasKey(b, key) {
      var i :| 0 <= i < |b| && b[i].key == key;
      assert b[i] in multiset(a);
    }
  }

  /** An order-insensitive reduction does not depend on how the sort broke ties. */
  lemma ReducedPermutation(a: seq<KeyValue>, b: seq<KeyValue>, reducef: Reducer, lines: seq<Line>)
    requires multiset(a) == multiset(b) && OrderInsensitive(reducef) && Reduced(a, reducef, lines)
    ensures Reduced(b, reducef, lines)
  {
    forall i | 0 <= i < |lines|
      ensures LineFor(b, reducef, lines[i])
    {
      assert LineFor(a, reducef, lines[i]);
      ValuesOfPermutation(a, b, lines[i].key);
    }
    forall key | HasKey(b, key)
      ensures HasLine(lines, key)
    {
      ValuesOfPermutation(a, b, key);
    }
  }

  lemma {:induction false} SameElemsSameMultiset<T>(s: seq<T>, t: seq<T>)
    requires Distinct(s) && Distinct(t) && Elems(s) == Elems(t)
    ensures multiset(s) == multiset(t)
  {
    forall x
      ensures multiset(s)[x] == multiset(t)[x]
    {
      DistinctOnce(s, x);
      DistinctOnce(t, x);
      assert x in s <==> x in Elems(s);
      assert x in t <==> x in Elems(t);
    }
  }

  lemma {:induction false} DistinctOnce<T>(s: seq<T>, x: T)
    requires Distinct(s)
    ensures multiset(s)[x] == if x in s then 1 else 0
  {
    if s != [] {
      var k := |s| - 1;
      DistinctOnce(s[..k], x);
      assert s == s[..k] + [s[k]];
    }
  }

  /** The reduction of given pairs is unique up to the order of its lines. */
  lemma ReducedUnique(kvs: seq<KeyValue>, reducef: Reducer, a: seq<Line>, b: seq<Line>)
    requires Reduced(kvs, reducef, a) && Reduced(kvs, reducef, b)
    ensures multiset(a) == multiset(b)
  {
    forall line | line in a
      ensures line in b
    {
      LineInOther(kvs, reducef, a, b, line);
    }
    forall line | line in b
      ensures line in a
    {
      LineInOther(kvs, reducef, b, a, line);
    }
    assert Elems(a) == Elems(b);
    SameElemsSameMultiset(a, b);
  }

  lemma LineInOther(kvs: seq<KeyValue>, reducef: Reducer, a: seq<Line>, b: seq<Line>, line: Line)
    requires Reduced(kvs, reducef, a) && Reduced(kvs, reducef, b) && line in a
    ensures line in b
  {
    assert LineFor(kvs, reducef, line);
    assert HasLine(b, line.key);
    var j :| 0 <= j < |b| && b[j].key == line.key;
    assert LineFor(kvs, reducef, b[j]);
  }

  // ---- sorting and grouping ----

  /** In a sorted list, from the start of a group at i, the group ends at j. */
  ghost predicate IsGroup(kva: seq<KeyValue>, i: nat, j: nat) {
    && i < j <= |kva|
    && (forall k :: i <= k < j ==> kva[k].key == kva[i].key)
    && (forall k :: 0 <= k < i ==> kva[k].key != kva[i].key)
    && (forall k :: j <= k < |kva| ==> kva[k].key != kva[i].key)
  }

  lemma SortedGroup(kva: seq<KeyValue>, i: nat, j: nat)
    requires Sorted(kva, KeyLeq) && i < j <= |kva|
    requires forall k :: i <= k < j ==> kva[k].key == kva[i].key
    requires i > 0 ==> kva[i - 1].key != kva[i].key
    requires j < |kva| ==> kva[j].key != kva[i].key
    ensures IsGroup(kva, i, j)
  {
    forall k | 0 <= k < i
      ensures kva[k].key != kva[i].key
    {
      Between(kva, k, i - 1, i);
    }
    forall k | j <= k < |kva|
      ensures kva[k].key != kva[i].key
    {
      Between(kva, i, j, k);
    }
  }

  /** Between equal keys of a sorted list there are only equal keys. */
  lemma Between(kva: seq<KeyValue>, a: nat, b: nat, c: nat)
    requires Sorted(kva, KeyLeq) && a <= b <= c < |kva|
    ensures kva[a].key == kva[c].key ==> kva[b].key == kva[a].key
  {
    if a < b < c && kva[a].key == kva[c].key {
      assert KeyLeq(kva[a], kva[b]) && KeyLeq(kva[b], kva[c]);
      StringOrder.LeqAntisymmetric(kva[a].key, kva[b].key);
    }
  }

  ghost function Values(kvs: seq<KeyValue>): (r: seq<string>)
    ensures |r| == |kvs| && forall k :: 0 <= k < |kvs| ==> r[k] == kvs[k].value
  {
    seq(|kvs|, k requires 0 <= k < |kvs| => kvs[k].value)
  }

  lemma {:induction false} ValuesConcat(a: seq<KeyValue>, b: seq<KeyValue>, key: string)
    ensures ValuesOf(a + b, key) == ValuesOf(a, key) + ValuesOf(b, key)
  {
    if b == [] {
      assert a + b == a;
    } else {
      ValuesConcat(a, b[..|b| - 1], key);
      assert (a + b)[..|a + b| - 1] == a + b[..|b| - 1];
    }
  }

  lemma {:induction false} NoValues(kvs: seq<KeyValue>, key: string)
    requires forall k :: 0 <= k < |kvs| ==> kvs[k].key != key
    ensures ValuesOf(kvs, key) == []
  {
    if kvs != [] {
      NoValues(kvs[..|kvs| - 1], key);
    }
  }

  lemma {:induction false} AllValues(kvs: seq<KeyValue>, key: string)
    requires forall k :: 0 <= k < |kvs| ==> kvs[k].key == key
    ensures ValuesOf(kvs, key) == Values(kvs)
  {
    if kvs != [] {
      var k := |kvs| - 1;
      AllValues(kvs[..k], key);
      assert Values(kvs) == Values(kvs[..k]) + [kvs[k].value];
    }
  }

  lemma MiddleValues(a: seq<KeyValue>, b: seq<KeyValue>, c: seq<KeyValue>, key: string)
    requires forall k :: 0 <= k < |a| ==> a[k].key != key
    requires forall k :: 0 <= k < |b| ==> b[k].key == key
    requires forall k :: 0 <= k < |c| ==> c[k].key != key
    ensures ValuesOf(a + b + c, key) == Values(b)
  {
    NoValues(a, key);
    AllValues(b, key);
    NoValues(c, key);
    ValuesConcat(a, b, key);
    ValuesConcat(a + b, c, key);
  }

  lemma ThreeParts<T>(s: seq<T>, i: nat, j: nat)
    requires i <= j <= |s|
    ensures s == s[..i] + s[i..j] + s[j..]
  {
  }

  /** The values of a group's key are those of the group. */
  lemma GroupValues(kva: seq<KeyValue>, i: nat, j: nat)
    requires IsGroup(kva, i, j)
    ensures ValuesOf(kva, kva[i].key) == Values(kva[i..j])
  {
    MiddleValues(kva[..i], kva[i..j], kva[j..], kva[i].key);
    ThreeParts(kva, i, j);
  }

  /** The lines so far are those of the keys before position i. */
  ghost predicate GroupedSoFar(kva: seq<KeyValue>, reducef: Reducer, lines: seq<Line>, i: nat)
    requires i <= |kva|
  {
    && LinesSoFar(kva, reducef, lines, i)
    && (forall key :: HasKey(kva[..i], key) ==> HasLine(lines, key))
    && (0 < i < |kva| ==> kva[i - 1].key != kva[i].key)
  }

  ghost predicate LinesSoFar(kva: seq<KeyValue>, reducef: Reducer, lines: seq<Line>, i: nat)
    requires i <= |kva|
  {
    && (forall a, b :: 0 <= a < b < |lines| ==>
          lines[a].key != lines[b].key && StringOrder.Leq(lines[a].key, lines[b].key))
    && (forall a :: 0 <= a < |lines| ==> LineFor(kva, reducef, lines[a]) && HasKey(kva[..i], lines[a].key))
  }

  lemma GroupLine(kva: seq<KeyValue>, reducef: Reducer, i: nat, j: nat)
    requires IsGroup(kva, i, j)
    ensures LineFor(kva, reducef, Line(kva[i].key, reducef(kva[i].key, Values(kva[i..j]))))
    ensures HasKey(kva[..j], kva[i].key)
  {
    GroupValues(kva, i, j);
    assert kva[..j][i].key == kva[i].key;
  }

  lemma LinesMore(kva: seq<KeyValue>, reducef: Reducer, lines: seq<Line>, i: nat, j: nat, line: Line)
    requires Sorted(kva, KeyLeq) && i <= |kva| && LinesSoFar(kva, reducef, lines, i) && IsGroup(kva, i, j)
    requires line.key == kva[i].key && LineFor(kva, reducef, line) && HasKey(kva[..j], line.key)
    ensures LinesSoFar(kva, reducef, lines + [line], j)
  {
    forall a | 0 <= a < |lines|
      ensures HasKey(kva[..j], lines[a].key) && lines[a].key != line.key && StringOrder.Leq(lines[a].key, line.key)
    {
      KeyBefore(kva, i, j, lines[a].key);
    }
  }

  lemma GroupedMore(kva: seq<KeyValue>, reducef: Reducer, lines: seq<Line>, i: nat, j: nat)
    requires Sorted(kva, KeyLeq) && i <= |kva| && GroupedSoFar(kva, reducef, lines, i) && IsGroup(kva, i, j)
    ensures GroupedSoFar(kva, reducef, lines + [Line(kva[i].key, reducef(kva[i].key, Values(kva[i..j])))], j)
  {
    var line := Line(kva[i].key, reducef(kva[i].key, Values(kva[i..j])));
    GroupLine(kva, reducef, i, j);
    LinesMore(kva, reducef, lines, i, j, line);
    forall other | HasKey(kva[..j], other)
      ensures HasLine(lines + [line], other)
    {
      KeysThrough(kva, i, j, other);
      assert HasLine([line], line.key) by { assert [line][0].key == line.key; }
      HasLineConcat(lines, [line], other);
    }
  }

  lemma KeyBefore(kva: seq<KeyValue>, i: nat, j: nat, key: string)
    requires Sorted(kva, KeyLeq) && i <= |kva| && IsGroup(kva, i, j) && HasKey(kva[..i], key)
    ensures HasKey(kva[..j], key) && key != kva[i].key && StringOrder.Leq(key, kva[i].key)
  {
    var k :| 0 <= k < i && kva[..i][k].key == key;
    assert kva[..j][k].key == key;
    assert KeyLeq(kva[k], kva[i]);
  }

  lemma KeysThrough(kva: seq<KeyValue>, i: nat, j: nat, key: string)
    requires i <= |kva| && IsGroup(kva, i, j) && HasKey(kva[..j], key)
    ensures HasKey(kva[..i], key) || key == kva[i].key
  {
    var k :| 0 <= k < j && kva[..j][k].key == key;
    if k < i {
      assert kva[..i][k].key == key;
    }
  }

  lemma HasLineConcat(a: seq<Line>, b: seq<Line>, key: string)
    ensures HasLine(a, key) || HasLine(b, key) ==> HasLine(a + b, key)
  {
    if HasLine(a, key) {
      var i :| 0 <= i < |a| && a[i].key == key;
      assert (a + b)[i].key == key;
    } else if HasLine(b, key) {
      var i :| 0 <= i < |b| && b[i].key == key;
      assert (a + b)[|a| + i].key == key;
    }
  }

  ghost predicate InKeyOrder(lines: seq<Line>) {
    forall a, b :: 0 <= a < b < |lines| ==> StringOrder.Leq(lines[a].key, lines[b].key)
  }

  /** The lines are the reduction of kva, which is kvs sorted by key. */
  ghost predicate SortedReduced(kvs: seq<KeyValue>, kva: seq<KeyValue>, reducef: Reducer, lines: seq<Line>) {
    multiset(kva) == multiset(kvs) && Sorted(kva, KeyLeq) && Reduced(kva, reducef, lines)
  }

  /** Lines that sorting and reducing kvs may write, in key order: the sort is free in how it orders equal keys. */
  ghost predicate SortedOutput(kvs: seq<KeyValue>, reducef: Reducer, lines: seq<Line>) {
    InKeyOrder(lines) && exists kva :: SortedReduced(kvs, kva, reducef, lines)
  }

  /** Reduce each group of a sorted list, in order. */
  method GroupAndReduce(kva: seq<KeyValue>, reducef: Reducer) returns (lines: seq<Line>)
    requires Sorted(kva, KeyLeq)
    ensures Reduced(kva, reducef, lines)
    ensures InKeyOrder(lines)
  {
    lines := [];
    var i := 0;
    while i < |kva|
      invariant 0 <= i <= |kva| && GroupedSoFar(kva, reducef, lines, i)
    {
      var j := i + 1;
      while j < |kva| && kva[i].key == kva[j].key
        invariant i < j <= |kva| && forall k :: i <= k < j ==> kva[k].key == kva[i].key
      {
        j := j + 1;
      }
      SortedGroup(kva, i, j);
      var values := [];
      for k := i to j
        invariant |values| == k - i && forall a :: 0 <= a < |values| ==> values[a] == kva[i + a].value
      {
        values := values + [kva[k].value];
      }
      assert values == Values(kva[i..j]);
      var output := reducef(kva[i].key, values);
      GroupedMore(kva, reducef, lines, i, j);
      lines := lines + [Line(kva[i].key, output)];
      i := j;
    }
    assert kva[..|kva|] == kva;
  }

  // ---- the sequential program ----

  /** A job: the input files with the pairs the map function emits for each, and the reducer. */
  datatype Job = Job(mapped: seq<seq<KeyValue>>, reducef: Reducer)

  ghost function Concat<T>(s: seq<seq<T>>): seq<T> {
    if s == [] then [] else Concat(s[..|s| - 1]) + s[|s| - 1]
  }

  /** The lines the sequential program may write. */
  ghost predicate SequentialOutput(job: Job, lines: seq<Line>) {
    SortedOutput(Concat(job.mapped), job.reducef, lines)
  }

  method Sequential(job: Job) returns (lines: seq<Line>)
    ensures SequentialOutput(job, lines)
  {
    var intermediate := [];
    for i := 0 to |job.mapped|
      invariant intermediate == Concat(job.mapped[..i])
    {
      assert job.mapped[..i + 1][..i] == job.mapped[..i];
      intermediate := intermediate + job.mapped[i];
    }
    assert job.mapped[..|job.mapped|] == job.mapped;
    KeyLeqIsOrder();
    var kva := Sort(intermediate, KeyLeq);
    lines := GroupAndReduce(kva, job.reducef);
    assert SortedReduced(Concat(job.mapped), kva, job.reducef, lines);
  }

  // ---- the buckets ----

  /** The pairs whose keys hash to bucket b, in order. */
  ghost function InBucket(kvs: seq<KeyValue>, hash: string -> nat, n: nat, b: nat): seq<KeyValue>
    requires n > 0
  {
    if kvs == [] then [] else
    var k := |kvs| - 1;
    var r := InBucket(kvs[..k], hash, n, b);
    if hash(kvs[k].key) % n == b then r + [kvs[k]] else r
  }

  /** The bucket loop of a map task. */
  method FillBuckets(mapRes: seq<KeyValue>, hash: string -> nat, n: nat) returns (kvall: seq<seq<KeyValue>>)
    requires n > 0
    ensures |kvall| == n && forall b :: 0 <= b < n ==> kvall[b] == InBucket(mapRes, hash, n, b)
  {
    kvall := seq(n, _ => []);
    for i := 0 to |mapRes|
      invariant |kvall| == n && forall b :: 0 <= b < n ==> kvall[b] == InBucket(mapRes[..i], hash, n, b)
    {
      assert mapRes[..i + 1][..i] == mapRes[..i];
      var kv := mapRes[i];
      var index := hash(kv.key) % n;
      kvall := kvall[index := kvall[index] + [kv]];
    }
    assert mapRes[..|mapRes|] == mapRes;
  }

  lemma {:induction false} InBucketConcat(a: seq<KeyValue>, c: seq<KeyValue>, hash: string -> nat, n: nat, b: nat)
    requires n > 0
    ensures InBucket(a + c, hash, n, b) == InBucket(a, hash, n, b) + InBucket(c, hash, n, b)
  {
    if c == [] {
      assert a + c == a;
    } else {
      var k := |c| - 1;
      InBucketConcat(a, c[..k], hash, n, b);
      assert (a + c)[..|a| + k] == a + c[..k] && (a + c)[|a| + k] == c[k];
      var x, y := InBucket(a, hash, n, b), InBucket(c[..k], hash, n, b);
      assert (x + y) + [c[k]] == x + (y + [c[k]]);
    }
  }

  /** A bucket has exactly the pairs whose keys hash to it, in order. */
  lemma {:induction false} InBucketIsFiltered(kvs: seq<KeyValue>, hash: string -> nat, n: nat, b: nat)
    requires n > 0
    ensures IsFiltered(kvs, (kv: KeyValue) => hash(kv.key) % n == b, InBucket(kvs, hash, n, b))
  {
    var keep := (kv: KeyValue) => hash(kv.key) % n == b;
    if kvs == [] {
      assert KeptAt(kvs, keep, [], []);
    } else {
      InBucketIsFiltered(kvs[..|kvs| - 1], hash, n, b);
      FilteredMore(kvs, keep, InBucket(kvs[..|kvs| - 1], hash, n, b));
    }
  }

  lemma {:induction false} BucketKeeps(kvs: seq<KeyValue>, hash: string -> nat, n: nat, b: nat, key: string)
    requires n > 0
    ensures var r := InBucket(kvs, hash, n, b);
            if hash(key) % n == b then ValuesOf(r, key) == ValuesOf(kvs, key) && (HasKey(r, key) <==> HasKey(kvs, key))
            else !HasKey(r, key)
  {
    if kvs != [] {
      var k := |kvs| - 1;
      BucketKeeps(kvs[..k], hash, n, b, key);
      HasKeyLast(kvs, key);
      var r := InBucket(kvs[..k], hash, n, b);
      HasKeyLast(r + [kvs[k]], key);
      assert (r + [kvs[k]])[..|r|] == r;
    }
  }

  lemma HasKeyLast(kvs: seq<KeyValue>, key: string)
    requires kvs != []
    ensures HasKey(kvs, key) <==> HasKey(kvs[..|kvs| - 1], key) || kvs[|kvs| - 1].key == key
  {
    var k := |kvs| - 1;
    if HasKey(kvs[..k], key) {
      var i :| 0 <= i < k && kvs[..k][i].key == key;
      assert kvs[i].key == key;
    }
    if HasKey(kvs, key) && kvs[k].key != key {
      var i :| 0 <= i < |kvs| && kvs[i].key == key;
      assert kvs[..k][i].key == key;
    }
  }

  // ---- runs of the distributed program ----

  /** The files on disk: inter_i_b for a split and a bucket, mr-out-b for a bucket. */
  datatype Files = Files(inter: map<(nat, nat), seq<KeyValue>>, outs: map<nat, seq<Line>>)

  datatype Cluster = Cluster(job: Job, hash: string -> nat, nReduce: nat)

  /** A map task for split i writes its file for bucket b, perhaps again. */
  ghost predicate MapWrites(c: Cluster, s: Files, s': Files, i: nat, b: nat) {
    && i < |c.job.mapped| && b < c.nReduce
    && s' == s.(inter := s.inter[(i, b) := InBucket(c.job.mapped[i], c.hash, c.nReduce, b)])
  }

  /** What a reduce task for bucket b reads, split by split. */
  ghost function Collected(s: Files, b: nat, splits: nat): seq<KeyValue>
    requires forall i :: 0 <= i < splits ==> (i, b) in s.inter
  {
    if splits == 0 then [] else Collected(s, b, splits - 1) + s.inter[(splits - 1, b)]
  }

  /**
   * A reduce task for bucket b that finds all its files sorts and reduces them;
   * otherwise it fails and writes nothing.
   */
  ghost predicate ReduceWrites(c: Cluster, s: Files, s': Files, b: nat, lines: seq<Line>) {
    && b < c.nReduce
    && (forall i :: 0 <= i < |c.job.mapped| ==> (i, b) in s.inter)
    && s' == s.(outs := s.outs[b := lines])
    && SortedOutput(Collected(s, b, |c.job.mapped|), c.job.reducef, lines)
  }

  ghost predicate Next(c: Cluster, s: Files, s': Files) {
    || (exists i, b :: MapWrites(c, s, s', i, b))
    || (exists b, lines :: ReduceWrites(c, s, s', b, lines))
  }

  ghost function Steps(c: Cluster): (Files, Files) -> bool {
    (s: Files, s': Files) => Next(c, s, s')
  }

  ghost predicate IsRun(c: Cluster, run: seq<Files>) {
    && run != [] && run[0] == Files(map[], map[])
    && IsPath(Steps(c), run)
  }

  /** The collect, sort and group of a reduce task. */
  method PerformReduce(c: Cluster, s: Files, b: nat) returns (lines: Option<seq<Line>>)
    requires b < c.nReduce
    ensures lines.Some? <==> forall i :: 0 <= i < |c.job.mapped| ==> (i, b) in s.inter
    ensures lines.Some? ==> ReduceWrites(c, s, s.(outs := s.outs[b := lines.value]), b, lines.value)
  {
    var kva := [];
    for i := 0 to |c.job.mapped|
      invariant forall j :: 0 <= j < i ==> (j, b) in s.inter
      invariant kva == Collected(s, b, i)
    {
      if (i, b) !in s.inter {
        return None;
      }
      kva := kva + s.inter[(i, b)];
    }
    KeyLeqIsOrder();
    var sorted := Sort(kva, KeyLeq);
    var out := GroupAndReduce(sorted, c.job.reducef);
    assert SortedReduced(kva, sorted, c.job.reducef, out);
    return Some(out);
  }

  ghost predicate Inv(c: Cluster, s: Files) {
    && c.nReduce > 0
    && (forall i: nat, b: nat {:trigger (i, b) in s.inter} :: (i, b) in s.inter ==>
          i < |c.job.mapped| && b < c.nReduce && s.inter[(i, b)] == InBucket(c.job.mapped[i], c.hash, c.nReduce, b))
    && (forall b :: b in s.outs ==>
          b < c.nReduce && Reduced(InBucket(Concat(c.job.mapped), c.hash, c.nReduce, b), c.job.reducef, s.outs[b]))
  }

  lemma {:induction false} CollectedIs(c: Cluster, s: Files, b: nat, splits: nat)
    requires Inv(c, s) && splits <= |c.job.mapped| && b < c.nReduce
    requires forall i :: 0 <= i < splits ==> (i, b) in s.inter
    ensures Collected(s, b, splits) == InBucket(Concat(c.job.mapped[..splits]), c.hash, c.nReduce, b)
  {
    if splits > 0 {
      CollectedIs(c, s, b, splits - 1);
      var m := c.job.mapped;
      assert m[..splits][..splits - 1] == m[..splits - 1];
      InBucketConcat(Concat(m[..splits - 1]), m[splits - 1], c.hash, c.nReduce, b);
      assert (splits - 1, b) in s.inter;
    }
  }

  lemma ReduceInv(c: Cluster, s: Files, s': Files, b: nat, lines: seq<Line>)
    requires Inv(c, s) && ReduceWrites(c, s, s', b, lines) && OrderInsensitive(c.job.reducef)
    ensures Inv(c, s')
  {
    var kva :| SortedReduced(Collected(s, b, |c.job.mapped|), kva, c.job.reducef, lines);
    CollectedIs(c, s, b, |c.job.mapped|);
    assert c.job.mapped[..|c.job.mapped|] == c.job.mapped;
    ReducedPermutation(kva, InBucket(Concat(c.job.mapped), c.hash, c.nReduce, b), c.job.reducef, lines);
  }

  lemma NextInv(c: Cluster, s: Files, s': Files)
    requires Inv(c, s) && Next(c, s, s') && OrderInsensitive(c.job.reducef)
    ensures Inv(c, s')
  {
    if b, lines :| ReduceWrites(c, s, s', b, lines) {
      ReduceInv(c, s, s', b, lines);
    }
  }

  lemma {:induction false} RunInv(c: Cluster, run: seq<Files>)
    requires c.nReduce > 0 && OrderInsensitive(c.job.reducef) && IsRun(c, run)
    ensures Inv(c, run[|run| - 1])
  {
    var k := |run| - 1;
    if k > 0 {
      ShorterPath(Steps(c), run);
      RunInv(c, run[..k]);
      NextInv(c, run[k - 1], run[k]);
    }
  }

  // ---- putting the buckets together ----

  /** The output files of the buckets below n, one after the other. */
  ghost function Combined(outs: map<nat, seq<Line>>, n: nat): seq<Line>
    requires forall b :: 0 <= b < n ==> b in outs
  {
    if n == 0 then [] else Combined(outs, n - 1) + outs[n - 1]
  }

  /** The lines of the buckets below n are those of the keys that hash below n. */
  lemma {:induction false} CombinedLines(c: Cluster, s: Files, n: nat)
    requires Inv(c, s) && n <= c.nReduce && forall b :: 0 <= b < n ==> b in s.outs
    ensures var all := Concat(c.job.mapped);
            var lines := Combined(s.outs, n);
            && (forall i, j :: 0 <= i < j < |lines| ==> lines[i].key != lines[j].key)
            && (forall i :: 0 <= i < |lines| ==>
                  LineFor(all, c.job.reducef, lines[i]) && c.hash(lines[i].key) % c.nReduce < n)
            && (forall key :: HasKey(all, key) && c.hash(key) % c.nReduce < n ==> HasLine(lines, key))
  {
    if n > 0 {
      CombinedLines(c, s, n - 1);
      BucketLines(c, s, n - 1);
      var before, last := Combined(s.outs, n - 1), s.outs[n - 1];
      var lines := before + last;
      forall key | HasKey(Concat(c.job.mapped), key) && c.hash(key) % c.nReduce < n
        ensures HasLine(lines, key)
      {
        HasLineConcat(before, last, key);
      }
    }
  }

  lemma BucketLines(c: Cluster, s: Files, b: nat)
    requires Inv(c, s) && b in s.outs
    ensures var all := Concat(c.job.mapped);
            var lines := s.outs[b];
            && (forall i, j :: 0 <= i < j < |lines| ==> lines[i].key != lines[j].key)
            && (forall i :: 0 <= i < |lines| ==>
                  LineFor(all, c.job.reducef, lines[i]) && c.hash(lines[i].key) % c.nReduce == b)
            && (forall key :: HasKey(all, key) && c.hash(key) % c.nReduce == b ==> HasLine(lines, key))
  {
    var all := Concat(c.job.mapped);
    var part := InBucket(all, c.hash, c.nReduce, b);
    var lines := s.outs[b];
    forall i | 0 <= i < |lines|
      ensures LineFor(all, c.job.reducef, lines[i]) && c.hash(lines[i].key) % c.nReduce == b
    {
      assert LineFor(part, c.job.reducef, lines[i]);
      BucketKeeps(all, c.hash, c.nReduce, b, lines[i].key);
    }
    forall key | HasKey(all, key) && c.hash(key) % c.nReduce == b
      ensures HasLine(lines, key)
    {
      BucketKeeps(all, c.hash, c.nReduce, b, key);
    }
  }

  lemma CombinedIsReduced(c: Cluster, s: Files)
    requires Inv(c, s) && forall b :: 0 <= b < c.nReduce ==> b in s.outs
    ensures Reduced(Concat(c.job.mapped), c.job.reducef, Combined(s.outs, c.nReduce))
  {
    CombinedLines(c, s, c.nReduce);
  }

  /**
   * Distributed equals sequential: whatever the number of buckets, the hash, and
   * the order and number of times tasks ran, once every bucket has an output
   * file, the files together are a permutation of the sequential program's output.
   */
  lemma DistributedIsSequential(c: Cluster, run: seq<Files>, s: Files, lines: seq<Line>)
    requires c.nReduce > 0 && OrderInsensitive(c.job.reducef)
    requires IsRun(c, run) && s == run[|run| - 1] && forall b :: 0 <= b < c.nReduce ==> b in s.outs
    requires SequentialOutput(c.job, lines)
    ensures multiset(Combined(s.outs, c.nReduce)) == multiset(lines)
  {
    var all := Concat(c.job.mapped);
    RunInv(c, run);
    CombinedIsReduced(c, s);
    var kva :| SortedReduced(all, kva, c.job.reducef, lines);
    ReducedPermutation(kva, all, c.job.reducef, lines);
    ReducedUnique(all, c.job.reducef, Combined(s.outs, c.nReduce), lines);
  }
}
