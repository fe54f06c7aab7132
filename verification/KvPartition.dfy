/** Splitting a history by key (labs/src/models/kv.go:18-34). */
module KvPartition {
  import opened Common
  import opened Sorting
  import StringOrder
  import opened Linearizability
  import opened Entries
  import opened Locality

  type KvOperation = Operation<KvInput, KvOutput>

  /** The operations on one key, in the order of the history. */
  ghost function SubHistory(history: seq<KvOperation>, key: string): seq<KvOperation> {
    if history == [] then [] else
    var k := |history| - 1;
    var r := SubHistory(history[..k], key);
    if history[k].input.key == key then r + [history[k]] else r
  }

  ghost predicate Occurs(history: seq<KvOperation>, key: string) {
    exists i :: 0 <= i < |history| && history[i].input.key == key
  }

  /** One part for every key that occurs, in key order. */
  ghost predicate Partitions(history: seq<KvOperation>, keys: seq<string>, parts: seq<seq<KvOperation>>) {
    && Distinct(keys) && Sorted(keys, StringOrder.Leq)
    && (forall key :: key in keys <==> Occurs(history, key))
    && |parts| == |keys|
    && forall i :: 0 <= i < |keys| ==> parts[i] == SubHistory(history, keys[i])
  }

  ghost predicate Grouped(history: seq<KvOperation>, m: map<string, seq<KvOperation>>) {
    && (forall key :: key in m <==> Occurs(history, key))
    && (forall key :: key in m ==> m[key] == SubHistory(history, key))
  }

  lemma GroupedAppend(history: seq<KvOperation>, m: map<string, seq<KvOperation>>, o: KvOperation)
    requires Grouped(history, m)
    ensures var key := o.input.key;
            Grouped(history + [o], m[key := (if key in m then m[key] else []) + [o]])
  {
    OccursAppend(history, o);
    assert (history + [o])[..|history|] == history;
    SubHistoryOps(history, o.input.key);
  }

  method GroupByKey(history: seq<KvOperation>) returns (m: map<string, seq<KvOperation>>)
    ensures Grouped(history, m)
  {
    m := map[];
    for i := 0 to |history|
      invariant Grouped(history[..i], m)
    {
      var key := history[i].input.key;
      GroupedAppend(history[..i], m, history[i]);
      assert history[..i + 1] == history[..i] + [history[i]];
      m := m[key := (if key in m then m[key] else []) + [history[i]]];
    }
    assert history[..|history|] == history;
  }

  /** The keys of a map in order; the map is walked in any order. */
  method SortedKeys<V>(m: map<string, V>) returns (keys: seq<string>)
    ensures Distinct(keys) && Sorted(keys, StringOrder.Leq)
    ensures forall key :: key in keys <==> key in m
  {
    var ks: seq<string> := [];
    var rest := m.Keys;
    while rest != {}
      invariant rest <= m.Keys && Distinct(ks)
      invariant forall key :: key in ks <==> key in m && key !in rest
      decreases |rest|
    {
      var k :| k in rest;
      ks := ks + [k];
      rest := rest - {k};
    }
    StringOrder.LeqIsOrder();
    keys := Sort(ks, StringOrder.Leq);
    PermutationDistinct(ks, keys);
  }

  /** The parts of a history are those of its keys, in key order. */
  ghost predicate IsPartition(history: seq<KvOperation>, parts: seq<seq<KvOperation>>) {
    exists keys :: Partitions(history, keys, parts)
  }

  method Partition(history: seq<KvOperation>) returns (parts: seq<seq<KvOperation>>)
    ensures IsPartition(history, parts)
  {
    var m := GroupByKey(history);
    var keys := SortedKeys(m);
    parts := [];
    for i := 0 to |keys|
      invariant |parts| == i
      invariant forall j :: 0 <= j < i ==> parts[j] == SubHistory(history, keys[j])
    {
      assert keys[i] in m;
      parts := parts + [m[keys[i]]];
    }
    assert Partitions(history, keys, parts);
  }

  lemma OccursAppend(history: seq<KvOperation>, o: KvOperation)
    ensures forall key :: Occurs(history + [o], key) <==> Occurs(history, key) || key == o.input.key
  {
    var h := history + [o];
    forall key
      ensures Occurs(h, key) <==> Occurs(history, key) || key == o.input.key
    {
      if key == o.input.key {
        assert h[|history|].input.key == key;
      }
      if Occurs(history, key) {
        var i :| 0 <= i < |history| && history[i].input.key == key;
        assert h[i].input.key == key;
      }
    }
  }

  // ---- what the parts are to the whole ----

  lemma {:induction false} SubHistoryOps(history: seq<KvOperation>, key: string)
    ensures TimedOps(SubHistory(history, key)) == KeyHistory(TimedOps(history), key)
    ensures !Occurs(history, key) ==> SubHistory(history, key) == []
  {
    if history != [] {
      var k := |history| - 1;
      SubHistoryOps(history[..k], key);
      assert TimedOps(history)[..k] == TimedOps(history[..k]);
      assert history == history[..k] + [history[k]];
      OccursAppend(history[..k], history[k]);
    }
  }

  /** The part of a key has exactly its operations, in the order of the history. */
  lemma {:induction false} SubHistoryIsFiltered(history: seq<KvOperation>, key: string)
    ensures IsFiltered(history, (o: KvOperation) => o.input.key == key, SubHistory(history, key))
  {
    var keep := (o: KvOperation) => o.input.key == key;
    if history == [] {
      assert KeptAt(history, keep, [], []);
    } else {
      SubHistoryIsFiltered(history[..|history| - 1], key);
      FilteredMore(history, keep, SubHistory(history[..|history| - 1], key));
    }
  }

  lemma {:induction false} SubHistoryFrom(history: seq<KvOperation>, key: string)
    ensures forall o :: o in SubHistory(history, key) ==> o in history
  {
    if history != [] {
      SubHistoryFrom(history[..|history| - 1], key);
    }
  }

  lemma SubHistoryClear(history: seq<KvOperation>, key: string)
    requires ClearTimes(history)
    ensures ClearTimes(SubHistory(history, key))
  {
    SubHistoryFrom(history, key);
    var s := SubHistory(history, key);
    forall i | 0 <= i < |s|
      ensures s[i].call < s[i].ret && forall j :: 0 <= j < |s| ==> s[i].call != s[j].ret
    {
      assert s[i] in history;
      forall j | 0 <= j < |s|
        ensures s[i].call != s[j].ret
      {
        assert s[j] in history;
      }
    }
  }

  lemma EmptyIsLinearizable<S, I, O>(m: Model<S, I, O>, ops: seq<Op<I, O>>)
    requires ops == []
    ensures Linearizable(m, ops)
  {
    assert Linearization(m, ops, []);
  }

  /** The contract of Partition: the whole is linearizable if and only if each part is. */
  lemma PartitionContract(history: seq<KvOperation>, parts: seq<seq<KvOperation>>)
    requires ClearTimes(history) && IsPartition(history, parts)
    ensures Linearizable(STORE_MODEL, TimedOps(history)) <==>
            forall i :: 0 <= i < |parts| ==> Linearizable(KV_MODEL, TimedOps(parts[i]))
  {
    var ops := TimedOps(history);
    var keys :| Partitions(history, keys, parts);
    StoreIsLocal(ops);
    if forall i :: 0 <= i < |parts| ==> Linearizable(KV_MODEL, TimedOps(parts[i])) {
      forall key
        ensures Linearizable(KV_MODEL, KeyHistory(ops, key))
      {
        SubHistoryOps(history, key);
        if key in keys {
          var i :| 0 <= i < |keys| && keys[i] == key;
          assert Linearizable(KV_MODEL, TimedOps(parts[i]));
        } else {
          EmptyIsLinearizable(KV_MODEL, KeyHistory(ops, key));
        }
      }
    } else {
      var i :| 0 <= i < |parts| && !Linearizable(KV_MODEL, TimedOps(parts[i]));
      SubHistoryOps(history, keys[i]);
    }
  }
}
