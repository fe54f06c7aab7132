/**
 * checkParallel (labs/src/porcupine/checker.go:269-347) as a step system: one
 * worker per partition, a result channel, a timer, and a main goroutine that
 * folds results into a verdict and raises the kill flag. Steps interleave
 * freely; the theorems hold for every run.
 */
module Parallel {
  import opened Common

  datatype CheckResult = Unknown | Ok | Illegal

  /** A worker's answer for one partition. */
  datatype Report = Report(partition: nat, result: bool)

  /** In the result loop, waiting for the remaining workers, or returned. */
  datatype Phase = Looping | Draining | Returned

  /** `sent` is all the channel ever carried; the first `count` of it have been received, the first `folded` folded. */
  datatype State = State(
    running: set<nat>,
    sent: seq<Report>,
    count: nat,
    folded: nat,
    ok: bool,
    timedOut: bool,
    kill: bool,
    phase: Phase)

  /** The call: which partitions are linearizable, whether info is wanted, whether a timeout is set. */
  datatype Call = Call(linearizable: seq<bool>, computeInfo: bool, hasTimeout: bool)

  /** What checkSingle may answer: never a false yes, and a false no only once the kill flag is up. */
  predicate MayReport(linearizable: bool, kill: bool, result: bool) {
    (result ==> linearizable) && (linearizable && !kill ==> result)
  }

  ghost predicate Init(c: Call, s: State) {
    s == State(Below(|c.linearizable|), [], 0, 0, true, false, false, Looping)
  }

  predicate Finish(c: Call, s: State, s': State, i: nat, result: bool) {
    && i in s.running && i < |c.linearizable|
    && MayReport(c.linearizable[i], s.kill, result)
    && s' == s.(running := s.running - {i}, sent := s.sent + [Report(i, result)])
  }

  function LeaveLoop(c: Call, s: State): State {
    s.(phase := if c.computeInfo && s.count < |c.linearizable| then Draining else Returned)
  }

  /** Receive one result in the loop and fold it in. */
  predicate Receive(c: Call, s: State, s': State) {
    && s.phase == Looping && s.count < |s.sent|
    && var ok := s.ok && s.sent[s.count].result;
    && var t := s.(count := s.count + 1, folded := s.count + 1, ok := ok);
    && s' ==
       if !ok && !c.computeInfo then LeaveLoop(c, t.(kill := true))
       else if t.count >= |c.linearizable| then LeaveLoop(c, t)
       else t
  }

  predicate Timeout(c: Call, s: State, s': State) {
    && s.phase == Looping && c.hasTimeout
    && s' == LeaveLoop(c, s.(timedOut := true, kill := true))
  }

  /** Receive one result after the loop and throw it away. */
  predicate Drain(c: Call, s: State, s': State) {
    && s.phase == Draining && s.count < |s.sent|
    && s' == LeaveLoop(c, s.(count := s.count + 1))
  }

  ghost predicate Next(c: Call, s: State, s': State) {
    || (exists i, result :: Finish(c, s, s', i, result))
    || Receive(c, s, s')
    || Timeout(c, s, s')
    || Drain(c, s, s')
  }

  function Verdict(s: State): CheckResult {
    if !s.ok then Illegal else if s.timedOut then Unknown else Ok
  }

  ghost function Steps(c: Call): (State, State) -> bool {
    (s: State, s': State) => Next(c, s, s')
  }

  ghost predicate IsRun(c: Call, run: seq<State>) {
    && run != [] && Init(c, run[0])
    && IsPath(Steps(c), run)
  }

  // ---- what every step keeps ----

  ghost predicate SentOk(c: Call, s: State) {
    && (forall k :: 0 <= k < |s.sent| ==>
          s.sent[k].partition < |c.linearizable| && s.sent[k].partition !in s.running)
    && (forall j, k :: 0 <= j < k < |s.sent| ==> s.sent[j].partition != s.sent[k].partition)
    && s.running <= Below(|c.linearizable|)
    && |s.running| + |s.sent| == |c.linearizable|
  }

  /** What was folded into the verdict is the truth about its partitions, and the verdict is its conjunction. */
  ghost predicate FoldedOk(c: Call, s: State)
    requires SentOk(c, s)
  {
    && s.folded <= s.count <= |s.sent|
    && (forall k :: 0 <= k < s.folded ==> s.sent[k].result == c.linearizable[s.sent[k].partition])
    && (s.ok <==> AllYes(s.sent[..s.folded]))
  }

  ghost predicate AllYes(reports: seq<Report>) {
    forall k :: 0 <= k < |reports| ==> reports[k].result
  }

  ghost predicate PhaseOk(c: Call, s: State)
    requires SentOk(c, s)
  {
    var n := |c.linearizable|;
    && (s.phase == Looping ==>
          && !s.kill && !s.timedOut && s.folded == s.count && (s.count < n || n == 0)
          && (s.ok || c.computeInfo)
          && forall k :: 0 <= k < |s.sent| ==> s.sent[k].result == c.linearizable[s.sent[k].partition])
    && (s.phase == Draining ==> s.count < n && s.timedOut && c.computeInfo)
    && (s.phase == Returned ==> s.timedOut || !s.ok || (s.folded == n && n > 0))
    && (s.timedOut ==> c.hasTimeout)
    && (s.phase == Returned && c.computeInfo ==> s.count == n)
  }

  ghost predicate Inv(c: Call, s: State) {
    SentOk(c, s) && FoldedOk(c, s) && PhaseOk(c, s)
  }

  lemma InitInv(c: Call, s: State)
    requires Init(c, s)
    ensures Inv(c, s)
  {
    BelowSize(|c.linearizable|);
  }

  lemma FinishInv(c: Call, s: State, s': State, i: nat, result: bool)
    requires Inv(c, s) && Finish(c, s, s', i, result)
    ensures Inv(c, s')
  {
    assert s'.sent[..s.folded] == s.sent[..s.folded];
  }

  lemma ReceiveInv(c: Call, s: State, s': State)
    requires Inv(c, s) && Receive(c, s, s')
    ensures Inv(c, s')
  {
    assert s.sent[..s.count + 1] == s.sent[..s.count] + [s.sent[s.count]];
  }

  lemma NextInv(c: Call, s: State, s': State)
    requires Inv(c, s) && Next(c, s, s')
    ensures Inv(c, s')
  {
    if i, result :| Finish(c, s, s', i, result) {
      FinishInv(c, s, s', i, result);
    } else if Receive(c, s, s') {
      ReceiveInv(c, s, s');
    }
  }

  lemma {:induction false} RunInv(c: Call, run: seq<State>)
    requires IsRun(c, run)
    ensures Inv(c, run[|run| - 1])
  {
    var k := |run| - 1;
    if k == 0 {
      InitInv(c, run[0]);
    } else {
      ShorterPath(Steps(c), run);
      RunInv(c, run[..k]);
      NextInv(c, run[k - 1], run[k]);
    }
  }

  ghost predicate Answered(s: State, i: nat)
    requires s.folded <= |s.sent|
  {
    exists k :: 0 <= k < s.folded && s.sent[k].partition == i
  }

  /** When as many results are folded as there are partitions, every partition was answered. */
  lemma AllFolded(c: Call, s: State)
    requires Inv(c, s) && s.folded == |c.linearizable|
    ensures forall i: nat :: i < |c.linearizable| ==> Answered(s, i)
  {
    var n := |c.linearizable|;
    var parts: seq<nat> := seq(n, k requires 0 <= k < n => s.sent[k].partition);
    assert Distinct(parts);
    DistinctBelowIsAll(parts, n);
    forall i: nat | i < n
      ensures Answered(s, i)
    {
      assert i in Elems(parts);
      var k :| 0 <= k < n && parts[k] == i;
      assert s.sent[k].partition == i;
    }
  }

  // ---- the theorems ----

  ghost predicate AllLinearizable(c: Call) {
    forall i :: 0 <= i < |c.linearizable| ==> c.linearizable[i]
  }

  /** Whatever the interleaving: Illegal and Ok are true, and Unknown comes only from a timeout. */
  lemma VerdictSound(c: Call, run: seq<State>)
    requires IsRun(c, run) && run[|run| - 1].phase == Returned
    ensures var s := run[|run| - 1];
            && (Verdict(s) == Ok ==> AllLinearizable(c))
            && (Verdict(s) == Illegal ==> !AllLinearizable(c))
            && (Verdict(s) == Unknown ==> s.timedOut && c.hasTimeout)
            && (Verdict(s) == Illegal <==> exists k :: 0 <= k < s.folded <= |s.sent| && !s.sent[k].result)
            && (!s.timedOut ==> (Verdict(s) == Ok <==> AllLinearizable(c)))
            && (!s.timedOut ==> (Verdict(s) == Illegal <==> !AllLinearizable(c)))
  {
    var s := run[|run| - 1];
    RunInv(c, run);
    if !s.ok {
      var k :| 0 <= k < s.folded && !s.sent[..s.folded][k].result;
      assert !c.linearizable[s.sent[k].partition];
    } else if !s.timedOut {
      AllFolded(c, s);
      forall i: nat | i < |c.linearizable|
        ensures c.linearizable[i]
      {
        assert Answered(s, i);
        var k :| 0 <= k < s.folded && s.sent[k].partition == i;
        assert s.sent[..s.folded][k].result;
      }
    }
  }

  /** When info is wanted, every worker has finished before the call returns, and without a timeout all are heard. */
  lemma InfoWaitsForAll(c: Call, run: seq<State>)
    requires IsRun(c, run) && run[|run| - 1].phase == Returned && c.computeInfo
    ensures run[|run| - 1].running == {}
    ensures !run[|run| - 1].timedOut ==> run[|run| - 1].folded == |c.linearizable|
  {
    RunKill(c, run);
  }

  ghost predicate KillInv(c: Call, s: State) {
    && Inv(c, s) && (s.kill ==> s.phase != Looping && (s.timedOut || !s.ok))
    && (s.phase == Returned && s.running != {} ==> s.kill)
    && (s.timedOut ==> s.kill)
    && (s.phase == Returned && c.computeInfo && !s.timedOut ==> s.folded == |c.linearizable|)
  }

  lemma KillStep(c: Call, s: State, s': State)
    requires KillInv(c, s) && Next(c, s, s')
    ensures KillInv(c, s')
  {
    NextInv(c, s, s');
    if s'.phase == Returned && s.phase == Looping && !s'.kill {
      assert s'.count == |c.linearizable| == |s'.sent|;
    }
  }

  lemma {:induction false} RunKill(c: Call, run: seq<State>)
    requires IsRun(c, run)
    ensures KillInv(c, run[|run| - 1])
  {
    var k := |run| - 1;
    if k == 0 {
      InitInv(c, run[0]);
    } else {
      ShorterPath(Steps(c), run);
      RunKill(c, run[..k]);
      KillStep(c, run[k - 1], run[k]);
    }
  }

  /**
   * The kill flag goes up only at a timeout or after a no, when the verdict no
   * longer depends on the workers; and it is up if the call returns, or waits
   * after a timeout, while a worker is running. Unless info is wanted, the first
   * no ends the loop.
   */
  lemma KillsLeftovers(c: Call, run: seq<State>)
    requires IsRun(c, run)
    ensures var s := run[|run| - 1];
            && (s.kill ==> s.phase != Looping && (s.timedOut || !s.ok))
            && (s.phase != Looping && s.running != {} ==> s.kill)
            && (s.phase == Looping ==> s.ok || c.computeInfo)
  {
    RunKill(c, run);
  }

  ghost function PhaseRank(p: Phase): nat {
    match p case Looping => 2 case Draining => 1 case Returned => 0
  }

  /** What is left to do: results to send, results to receive, phases to leave. */
  ghost function Remaining(c: Call, s: State): int {
    |s.running| + (|c.linearizable| - s.count) + PhaseRank(s.phase)
  }

  lemma StepsRunOut(c: Call, s: State, s': State)
    requires Inv(c, s) && Next(c, s, s')
    ensures 0 <= Remaining(c, s') < Remaining(c, s)
  {
    NextInv(c, s, s');
  }

  lemma LastStepRunsOut(c: Call, run: seq<State>)
    requires IsRun(c, run) && |run| > 1
    ensures IsRun(c, run[..|run| - 1])
    ensures 0 <= Remaining(c, run[|run| - 1]) < Remaining(c, run[|run| - 2])
  {
    ShorterPath(Steps(c), run);
    RunInv(c, run[..|run| - 1]);
    StepsRunOut(c, run[|run| - 2], run[|run| - 1]);
  }

  lemma StartRemaining(c: Call, s: State)
    requires Init(c, s)
    ensures Remaining(c, s) == 2 * |c.linearizable| + 2
  {
    BelowSize(|c.linearizable|);
  }

  /** Every run is finite: with n partitions it has at most 2 n + 2 steps. */
  lemma {:induction false} RunsAreBounded(c: Call, run: seq<State>)
    requires IsRun(c, run)
    ensures 0 <= Remaining(c, run[|run| - 1])
    ensures |run| - 1 + Remaining(c, run[|run| - 1]) <= 2 * |c.linearizable| + 2
    ensures |run| - 1 <= 2 * |c.linearizable| + 2
  {
    var k := |run| - 1;
    if k == 0 {
      StartRemaining(c, run[0]);
    } else {
      LastStepRunsOut(c, run);
      RunsAreBounded(c, run[..k]);
    }
  }

  ghost predicate CanStep(c: Call, s: State) {
    exists s' :: Next(c, s, s')
  }

  /**
   * No run is stuck before it returns, except that a call with no partitions
   * and no timeout waits forever for a result nobody will send.
   */
  lemma StuckIffNothingToCheck(c: Call, run: seq<State>)
    requires IsRun(c, run) && run[|run| - 1].phase != Returned
    ensures !CanStep(c, run[|run| - 1]) <==> |c.linearizable| == 0 && !c.hasTimeout
  {
    var s := run[|run| - 1];
    RunInv(c, run);
    if i :| i in s.running {
      var s' := s.(running := s.running - {i}, sent := s.sent + [Report(i, c.linearizable[i])]);
      assert Finish(c, s, s', i, c.linearizable[i]);
      assert Next(c, s, s');
    } else if s.phase == Draining {
      var s' := LeaveLoop(c, s.(count := s.count + 1));
      assert Drain(c, s, s');
      assert Next(c, s, s');
    } else if |c.linearizable| > 0 {
      var s' := ReceiveResult(c, s);
      assert Next(c, s, s');
    } else if c.hasTimeout {
      var s' := LeaveLoop(c, s.(timedOut := true, kill := true));
      assert Timeout(c, s, s');
      assert Next(c, s, s');
    }
  }

  lemma ReceiveResult(c: Call, s: State) returns (s': State)
    requires s.phase == Looping && s.count < |s.sent|
    ensures Receive(c, s, s')
  {
    var ok := s.ok && s.sent[s.count].result;
    var t := s.(count := s.count + 1, folded := s.count + 1, ok := ok);
    s' := if !ok && !c.computeInfo then LeaveLoop(c, t.(kill := true))
          else if t.count >= |c.linearizable| then LeaveLoop(c, t)
          else t;
  }
}
