/**
 * From a client's history to the verdict: checkOperations
 * (labs/src/porcupine/checker.go:360-368) on the key-value model, and on any
 * model that does not partition.
 */
module CheckOperations {
  import opened Linearizability
  import opened EntryList
  import opened History
  import opened Entries
  import opened Locality
  import opened KvPartition
  import opened Checker
  import Parallel

  type KvEntries = seq<Entry<KvInput, KvOutput>>

  ghost predicate EntriesOfParts(parts: seq<seq<KvOperation>>, l: seq<KvEntries>) {
    |l| == |parts| && forall i :: 0 <= i < |parts| ==> EntriesOf(parts[i], l[i])
  }

  /** The entry lists checked: one for each part of the history, its entries sorted by time. */
  ghost predicate Prepared(history: seq<KvOperation>, l: seq<KvEntries>) {
    exists parts :: IsPartition(history, parts) && EntriesOfParts(parts, l)
  }

  method Prepare(history: seq<KvOperation>) returns (l: seq<KvEntries>)
    ensures Prepared(history, l)
  {
    var partitions := Partition(history);
    l := [];
    for i := 0 to |partitions|
      invariant |l| == i && forall j :: 0 <= j < i ==> EntriesOf(partitions[j], l[j])
    {
      var entries := MakeEntries(partitions[i]);
      l := l + [entries];
    }
    assert EntriesOfParts(partitions, l);
  }

  /** The history is linearizable for the store exactly if each entry list is for a single key. */
  lemma PreparedVerdict(history: seq<KvOperation>, l: seq<KvEntries>)
    requires ClearTimes(history) && Prepared(history, l)
    ensures forall i :: 0 <= i < |l| ==> WellFormed(l[i])
    ensures Linearizable(STORE_MODEL, TimedOps(history)) <==>
            forall i :: 0 <= i < |l| ==> Linearizable(KV_MODEL, OpsOf(l[i]))
  {
    var parts :| IsPartition(history, parts) && EntriesOfParts(parts, l);
    var keys :| Partitions(history, keys, parts);
    forall i | 0 <= i < |l|
      ensures WellFormed(l[i])
      ensures Linearizable(KV_MODEL, OpsOf(l[i])) <==> Linearizable(KV_MODEL, TimedOps(parts[i]))
    {
      SubHistoryClear(history, keys[i]);
      EntriesVerdict(KV_MODEL, parts[i], l[i]);
    }
    PartitionContract(history, parts);
  }

  /** A worker's answer is one the combiner may get, the kill flag being up if one of its loads found it so. */
  method Work<S(!new, ==), I(!new), O(!new)>(m: Model<S, I, O>, history: seq<Entry<I, O>>, computeInfo: bool,
                                             kill: nat -> bool)
    returns (result: bool, loads: nat)
    requires RespectsStep(m) && WellFormed(history)
    ensures Parallel.MayReport(Linearizable(m, OpsOf(history)), WasKilled(kill, loads), result)
  {
    assert forall x :: SelfEqual(m, x);
    var longest;
    result, longest, loads := CheckSingle(m, history, computeInfo, kill);
  }

  method KvWork(history: KvEntries, computeInfo: bool, kill: nat -> bool) returns (result: bool, loads: nat)
    requires WellFormed(history)
    ensures Parallel.MayReport(Linearizable(KV_MODEL, OpsOf(history)), WasKilled(kill, loads), result)
  {
    KvModelRespectsStep();
    result, loads := Work(KV_MODEL, history, computeInfo, kill);
  }

  ghost predicate IsCallOn<S, I(!new), O(!new)>(m: Model<S, I, O>, l: seq<seq<Entry<I, O>>>, c: Parallel.Call) {
    && |c.linearizable| == |l|
    && forall i :: 0 <= i < |l| ==> WellFormed(l[i]) && (c.linearizable[i] <==> Linearizable(m, OpsOf(l[i])))
  }

  /** The true verdict. */
  ghost function Truth(linearizable: bool): Parallel.CheckResult {
    if linearizable then Parallel.Ok else Parallel.Illegal
  }

  /**
   * End to end on the key-value model: however the workers interleave, unless
   * it timed out the check says Ok exactly when the whole history, all keys
   * together, is linearizable for a key-value store, and Illegal otherwise.
   */
  lemma KvVerdict(history: seq<KvOperation>, l: seq<KvEntries>, c: Parallel.Call, run: seq<Parallel.State>)
    requires ClearTimes(history) && Prepared(history, l) && IsCallOn(KV_MODEL, l, c)
    requires Parallel.IsRun(c, run) && run[|run| - 1].phase == Parallel.Returned
    ensures var s := run[|run| - 1];
            && (Parallel.Verdict(s) == Parallel.Ok ==> Linearizable(STORE_MODEL, TimedOps(history)))
            && (Parallel.Verdict(s) == Parallel.Illegal ==> !Linearizable(STORE_MODEL, TimedOps(history)))
            && (!s.timedOut ==> Parallel.Verdict(s) == Truth(Linearizable(STORE_MODEL, TimedOps(history))))
  {
    PreparedVerdict(history, l);
    Parallel.VerdictSound(c, run);
  }

  /** A non-empty history always gets a verdict: some worker or the main loop can go on. */
  lemma KvAlwaysAnswers(history: seq<KvOperation>, l: seq<KvEntries>, c: Parallel.Call, run: seq<Parallel.State>)
    requires Prepared(history, l) && IsCallOn(KV_MODEL, l, c)
    requires Parallel.IsRun(c, run) && run[|run| - 1].phase != Parallel.Returned
    ensures !Parallel.CanStep(c, run[|run| - 1]) <==> history == [] && !c.hasTimeout
  {
    Parallel.StuckIffNothingToCheck(c, run);
    var parts :| IsPartition(history, parts) && EntriesOfParts(parts, l);
    var keys :| Partitions(history, keys, parts);
    if history != [] {
      assert Occurs(history, history[0].input.key);
      assert |keys| > 0;
    }
    if keys != [] {
      assert keys[0] in keys;
      assert Occurs(history, keys[0]);
    }
  }

  /** End to end on a model that keeps the history in one piece. */
  lemma SinglePartVerdict<S(!new), I(!new), O(!new)>(m: Model<S, I, O>, history: seq<Operation<I, O>>,
                                                     h: seq<Entry<I, O>>, c: Parallel.Call, run: seq<Parallel.State>)
    requires RespectsStep(m) && ClearTimes(history) && EntriesOf(history, h) && IsCallOn(m, [h], c)
    requires Parallel.IsRun(c, run) && run[|run| - 1].phase == Parallel.Returned
    ensures var s := run[|run| - 1];
            !s.timedOut ==> Parallel.Verdict(s) == Truth(Linearizable(m, TimedOps(history)))
  {
    EntriesVerdict(m, history, h);
    Parallel.VerdictSound(c, run);
    assert [h][0] == h;
  }

  /** End to end on a history of events, where real time is the order of the events. */
  lemma EventsVerdict<S(!new), I(!new), O(!new)>(m: Model<S, I, O>, events: seq<Event<I, O>>, ops: seq<Op<I, O>>,
                                                 renumbered: seq<Event<I, O>>, h: seq<Entry<I, O>>,
                                                 c: Parallel.Call, run: seq<Parallel.State>)
    requires RespectsStep(m) && EventsPaired(events) && OperationsOf(events, ops)
    requires Renumbered(events, renumbered) && Converted(renumbered, h) && IsCallOn(m, [h], c)
    requires Parallel.IsRun(c, run) && run[|run| - 1].phase == Parallel.Returned
    ensures var s := run[|run| - 1];
            !s.timedOut ==> Parallel.Verdict(s) == Truth(Linearizable(m, ops))
  {
    EventEntriesVerdict(m, events, renumbered, h, ops);
    Parallel.VerdictSound(c, run);
    assert [h][0] == h;
  }
}
