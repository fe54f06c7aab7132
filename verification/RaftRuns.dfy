/** The theorems about log replication, for every run of the cluster. */
module RaftRuns {
  import opened RaftHandlers
  import opened RaftCluster

  /** A run: steps[k] leads from states[k] to states[k + 1]. */
  datatype Run = Run(states: seq<Cluster>, steps: seq<Step>)

  ghost predicate IsRun(r: Run) {
    && |r.states| == |r.steps| + 1
    && Init(r.states[0])
    && forall k: nat {:trigger StepOk(r, k)} :: k < |r.steps| ==> StepOk(r, k)
  }

  ghost predicate StepOk(r: Run, k: nat)
    requires k < |r.steps| < |r.states|
  {
    && WellTyped(r.states[k]) && Enabled(r.states[k], r.steps[k])
    && r.states[k + 1] == After(r.states[k], r.steps[k])
  }

  /** Step k acts as leader in term t. */
  ghost predicate ActsIn(r: Run, k: nat, t: nat)
    requires k < |r.steps| < |r.states|
  {
    StepOk(r, k) && IsAct(r.steps[k]) && ActTerm(r.states[k], r.steps[k]) == t
  }

  /** The hypothesis: no two servers act as leader in one term. */
  ghost predicate OneLeaderPerTerm(r: Run)
    requires |r.steps| < |r.states|
  {
    forall j: nat, k: nat, t {:trigger ActsIn(r, j, t), ActsIn(r, k, t)} ::
      j < |r.steps| && k < |r.steps| && ActsIn(r, j, t) && ActsIn(r, k, t) ==> r.steps[j].s == r.steps[k].s
  }

  /** The log of each term in which some server has acted before state k. */
  ghost function TermsAt(r: Run, k: nat): Terms
    requires IsRun(r) && k <= |r.steps|
  {
    if k == 0 then map[] else
    assert StepOk(r, k - 1);
    NextTerms(r.states[k - 1], TermsAt(r, k - 1), r.steps[k - 1])
  }

  ghost predicate LedBefore(r: Run, k: nat, t: nat, leader: nat)
    requires k <= |r.steps| < |r.states|
  {
    exists j: nat :: j < k && ActsIn(r, j, t) && r.steps[j].s == leader
  }

  lemma {:induction false} RunInv(r: Run, k: nat)
    requires IsRun(r) && OneLeaderPerTerm(r) && k <= |r.steps|
    ensures Inv(r.states[k], TermsAt(r, k))
    ensures forall t :: t in TermsAt(r, k) ==> LedBefore(r, k, t, TermsAt(r, k)[t].leader)
    ensures k > 0 ==> Extends(TermsAt(r, k - 1), TermsAt(r, k))
  {
    if k == 0 {
      InitInv(r.states[0]);
    } else {
      RunInv(r, k - 1);
      assert StepOk(r, k - 1);
      var c, terms, step := r.states[k - 1], TermsAt(r, k - 1), r.steps[k - 1];
      if IsAct(step) && ActTerm(c, step) in terms {
        var t := ActTerm(c, step);
        assert LedBefore(r, k - 1, t, terms[t].leader);
        var j: nat :| j < k - 1 && ActsIn(r, j, t) && r.steps[j].s == terms[t].leader;
        assert ActsIn(r, k - 1, t);
      }
      NextInv(c, terms, step);
      forall t | t in TermsAt(r, k)
        ensures LedBefore(r, k, t, TermsAt(r, k)[t].leader)
      {
        if IsAct(step) && t == ActTerm(c, step) {
          assert ActsIn(r, k - 1, t);
        } else {
          assert LedBefore(r, k - 1, t, terms[t].leader);
        }
      }
    }
  }

  lemma InitInv(c: Cluster)
    requires Init(c)
    ensures Inv(c, map[])
  {
    forall s: nat | s < |c.servers|
      ensures HoldsOk(c, map[], s)
    {
    }
  }

  lemma {:induction false} TermsGrow(r: Run, j: nat, k: nat)
    requires IsRun(r) && OneLeaderPerTerm(r) && j <= k <= |r.steps|
    ensures Extends(TermsAt(r, j), TermsAt(r, k))
  {
    if j < k {
      TermsGrow(r, j, k - 1);
      RunInv(r, k);
    }
  }

  /**
   * Log Matching, over whole runs and across time: whenever two servers, at any
   * two moments, hold entries of the same term at the same index, their logs
   * are identical through that index.
   */
  lemma LogMatching(r: Run, j: nat, k: nat, a: nat, b: nat, i: nat)
    requires IsRun(r) && OneLeaderPerTerm(r) && j <= k <= |r.steps|
    requires a < |r.states[j].servers| && b < |r.states[k].servers|
    requires i < |r.states[j].servers[a].log| && i < |r.states[k].servers[b].log|
    requires r.states[j].servers[a].log[i].term == r.states[k].servers[b].log[i].term
    ensures r.states[j].servers[a].log[..i + 1] == r.states[k].servers[b].log[..i + 1]
  {
    RunInv(r, j);
    RunInv(r, k);
    TermsGrow(r, j, k);
    var x, y := r.states[j].servers[a], r.states[k].servers[b];
    assert HoldsOk(r.states[j], TermsAt(r, j), a) && HoldsOk(r.states[k], TermsAt(r, k), b);
    LogOkMore(TermsAt(r, j), TermsAt(r, k), x.log, x.currentTerm);
    SameTermSamePrefix(TermsAt(r, k), x.log, y.log, x.currentTerm, y.currentTerm, i);
  }

  /** In every log of every run terms never fall, and none exceeds the server's current term. */
  lemma TermsAreOrdered(r: Run, k: nat, s: nat)
    requires IsRun(r) && OneLeaderPerTerm(r) && k <= |r.steps| && s < |r.states[k].servers|
    ensures var x := r.states[k].servers[s];
            && x.log != [] && x.log[0] == SENTINEL
            && (forall i: nat, j: nat :: i <= j < |x.log| ==> x.log[i].term <= x.log[j].term)
            && (forall i :: 0 <= i < |x.log| ==> x.log[i].term <= x.currentTerm)
            && x.savedTerm == x.currentTerm && x.savedLog == x.log
  {
    RunInv(r, k);
    assert HoldsOk(r.states[k], TermsAt(r, k), s);
    var x := r.states[k].servers[s];
    forall i: nat, j: nat | i <= j < |x.log|
      ensures x.log[i].term <= x.log[j].term
    {
      assert NotAbove(x.log, i, j);
    }
  }

  /** A leader only ever appends to its log while it leads: between two acts in a term nothing is cut or changed. */
  lemma LeaderAppendOnly(r: Run, j: nat, k: nat, t: nat)
    requires IsRun(r) && OneLeaderPerTerm(r) && j <= k < |r.steps|
    requires ActsIn(r, j, t) && ActsIn(r, k, t)
    ensures r.steps[j].s == r.steps[k].s
    ensures r.states[j + 1].servers[r.steps[j].s].log <= r.states[k + 1].servers[r.steps[k].s].log
  {
    TermsGrow(r, j + 1, k + 1);
    assert TermsAt(r, j + 1)[t] == Term(r.steps[j].s, r.states[j + 1].servers[r.steps[j].s].log);
    assert TermsAt(r, k + 1)[t] == Term(r.steps[k].s, r.states[k + 1].servers[r.steps[k].s].log);
  }

  /**
   * An answer never carries a term that is new to the server it goes back to: that
   * branch of the reply handler is dead.
   */
  lemma AnswersBringNoNewTerm(r: Run, k: nat)
    requires IsRun(r) && OneLeaderPerTerm(r) && k < |r.steps| && r.steps[k].DeliverAnswer?
    ensures var a := r.steps[k].answer;
            a.args.leader < |r.states[k].servers| && a.args.term <= r.states[k].servers[a.args.leader].currentTerm
  {
    RunInv(r, k);
    assert StepOk(r, k);
    var a := r.steps[k].answer.args;
    assert RequestOk(TermsAt(r, k), a);
    assert TermOk(TermsAt(r, k), r.states[k].servers, a.term);
  }

  // ---- what changes, and what does not ----

  /** A server's term rises only when it stands for election or, as a follower, takes over a higher one. */
  lemma TermChanges(r: Run, k: nat, s: nat)
    requires IsRun(r) && OneLeaderPerTerm(r) && k < |r.steps| && s < |r.states[k].servers|
    ensures s < |r.states[k + 1].servers|
    ensures var x, y, step := r.states[k].servers[s], r.states[k + 1].servers[s], r.steps[k];
            && (y.currentTerm == x.currentTerm
                || (step == Elect(s) && y.currentTerm == x.currentTerm + 1 && y.role == Candidate)
                || (y.currentTerm > x.currentTerm && y.role == Follower))
            && (step.HearTerm? && step.s == s ==> y.currentTerm >= step.term)
            && (step == Elect(s) ==> y.currentTerm == x.currentTerm + 1)
            && (y.role != x.role ==> y.role == Follower || step == Elect(s) || (step == Lead(s) && y.role == Leader))
  {
    TermsAreOrdered(r, k, s);
    assert StepOk(r, k);
  }

  /**
   * A log changes only by a command to its leader, at the end, or by an accepted
   * request; and what else can change commit, next and match indices.
   */
  lemma LogChanges(r: Run, k: nat, s: nat)
    requires IsRun(r) && OneLeaderPerTerm(r) && k < |r.steps| && s < |r.states[k].servers|
    ensures s < |r.states[k + 1].servers|
    ensures var x, y, step := r.states[k].servers[s], r.states[k + 1].servers[s], r.steps[k];
            && (step.Propose? && step.s == s ==>
                  x.role == Leader && y.log == x.log + [LogEntry(x.currentTerm, step.command)])
            && (y.log != x.log ==>
                  (step.Propose? || (step.Deliver? && x.log != [] && OnAppend(x, step.args).1.success)) && step.s == s)
            && (y.commitIndex != x.commitIndex ==>
                  (step.Commit? || step.Deliver? || (step.Restart? && y.commitIndex == 0)) && step.s == s)
            && (y.nextIndex != x.nextIndex || y.matchIndex != x.matchIndex ==>
                  || ((step.Lead? || step.Restart?) && step.s == s)
                  || (step.DeliverAnswer? && step.answer.args.leader == s))
  {
    TermsAreOrdered(r, k, s);
    assert StepOk(r, k);
  }

  /** A restart keeps term and log, which are persisted, and forgets everything else. */
  lemma RestartKeeps(r: Run, k: nat)
    requires IsRun(r) && OneLeaderPerTerm(r) && k < |r.steps| && StepOk(r, k) && r.steps[k].Restart?
    ensures var x, y := r.states[k].servers[r.steps[k].s], r.states[k + 1].servers[r.steps[k].s];
            && y.currentTerm == x.currentTerm && y.log == x.log && y.role == Follower && y.commitIndex == 0
            && |y.nextIndex| == |y.matchIndex| == |x.nextIndex|
            && (forall i :: 0 <= i < |y.nextIndex| ==> y.nextIndex[i] == y.matchIndex[i] == 0)
  {
    TermsAreOrdered(r, k, r.steps[k].s);
  }

  // ---- what a request does ----

  /** Step j sends request a, made from the sender's state at that moment. */
  ghost predicate SentAt(r: Run, j: nat, a: AppendArgs)
    requires j < |r.steps| < |r.states|
    ensures SentAt(r, j, a) ==>
              && a.leader < |r.states[j].servers| && IsAct(r.steps[j]) && r.steps[j].s == a.leader
              && a.term == r.states[j].servers[a.leader].currentTerm
              && a.leaderCommit == r.states[j].servers[a.leader].commitIndex
  {
    && StepOk(r, j)
    && match r.steps[j]
       case Replicate(s, peer) => a == AppendFor(r.states[j].servers[s], s, peer).value
       case Heartbeat(s) => a == HeartbeatFrom(r.states[j].servers[s], s)
       case _ => false
  }

  ghost predicate SentBefore(r: Run, k: nat, a: AppendArgs)
    requires k <= |r.steps| < |r.states|
  {
    exists j: nat :: j < k && SentAt(r, j, a)
  }

  lemma {:induction false} RequestOrigin(r: Run, k: nat, a: AppendArgs)
    requires IsRun(r) && k <= |r.steps| && a in r.states[k].requests
    ensures SentBefore(r, k, a)
  {
    assert k > 0;
    assert StepOk(r, k - 1);
    if a in r.states[k - 1].requests {
      RequestOrigin(r, k - 1, a);
    } else {
      assert SentAt(r, k - 1, a);
    }
  }

  /** What was sent can be delivered at any time after. */
  lemma {:induction false} SentStays(r: Run, j: nat, k: nat, a: AppendArgs)
    requires IsRun(r) && j < k <= |r.steps| && SentAt(r, j, a)
    ensures a in r.states[k].requests
    decreases k
  {
    assert StepOk(r, k - 1);
    if j < k - 1 {
      SentStays(r, j, k - 1, a);
    }
  }

  /** Sending a request makes the sender's log the log of its term. */
  lemma SendingLog(r: Run, j: nat, a: AppendArgs)
    requires IsRun(r) && j < |r.steps| && SentAt(r, j, a)
    ensures a.term in TermsAt(r, j + 1)
    ensures TermsAt(r, j + 1)[a.term].log == r.states[j].servers[a.leader].log
    ensures a.prevLogIndex + 1 + |a.entries| <= |r.states[j].servers[a.leader].log|
  {
    assert StepOk(r, j);
  }

  /** The sender's log when it sent a request agrees with the request, whatever happened to terms since. */
  lemma SenderLog(r: Run, j: nat, k: nat, a: AppendArgs)
    requires IsRun(r) && OneLeaderPerTerm(r) && j < k <= |r.steps| && SentAt(r, j, a)
    ensures a.term in TermsAt(r, k)
    ensures r.states[j].servers[a.leader].log <= TermsAt(r, k)[a.term].log
    ensures a.prevLogIndex + 1 + |a.entries| <= |r.states[j].servers[a.leader].log|
  {
    SendingLog(r, j, a);
    TermsGrow(r, j + 1, k);
  }

  /** The logs that meet when a request is delivered. */
  lemma DeliveredLogs(r: Run, k: nat)
    requires IsRun(r) && OneLeaderPerTerm(r) && k < |r.steps| && r.steps[k].Deliver? && StepOk(r, k)
    ensures var x, a, terms := r.states[k].servers[r.steps[k].s], r.steps[k].args, TermsAt(r, k);
            && LogOk(terms, x.log, x.currentTerm)
            && RequestOk(terms, a) && a.term > 0 && LogOk(terms, terms[a.term].log, a.term)
  {
    RunInv(r, k);
    var terms, a := TermsAt(r, k), r.steps[k].args;
    assert HoldsOk(r.states[k], terms, r.steps[k].s);
    assert RequestOk(terms, a) && TermOk(terms, r.states[k].servers, a.term);
  }

  /**
   * AppendEntries, over whole runs: when a server accepts a request, its log
   * agrees through the last entry sent with the log its sender had when it sent
   * it; the log is unchanged exactly if it did so before; and what it newly
   * commits, the sender had committed then, in the same log.
   */
  lemma AcceptedAgreesWithSender(r: Run, k: nat) returns (j: nat)
    requires IsRun(r) && OneLeaderPerTerm(r) && k < |r.steps| && r.steps[k].Deliver?
    requires StepOk(r, k) && OnAppend(r.states[k].servers[r.steps[k].s], r.steps[k].args).1.success
    ensures j < k && SentAt(r, j, r.steps[k].args)
    ensures TookOver(r.states[k].servers[r.steps[k].s], r.states[k + 1].servers[r.steps[k].s], r.steps[k].args,
                     r.states[j].servers[r.steps[k].args.leader])
  {
    var s, a := r.steps[k].s, r.steps[k].args;
    var x := r.states[k].servers[s];
    RequestOrigin(r, k, a);
    j :| j < k && SentAt(r, j, a);
    SenderLog(r, j, k, a);
    DeliveredLogs(r, k);
    AcceptedRequest(TermsAt(r, k), x, a, r.states[j].servers[a.leader]);
    assert r.states[k + 1].servers[s] == OnAppend(x, a).0;
  }

  /** The commit index falls exactly if a request's entries end below it and the leader's commit index is above it. */
  lemma CommitFallsIff(x: Server, a: AppendArgs)
    requires x.log != []
    ensures OnAppend(x, a).0.commitIndex < x.commitIndex <==>
            && OnAppend(x, a).1.success && a.entries != []
            && a.leaderCommit > x.commitIndex > a.prevLogIndex + |a.entries|
  {
  }

  /** An input on which it falls, from 3 to 1. */
  lemma CommitCanFall(x: Server, a: AppendArgs)
    requires var e := LogEntry(1, NoCommand);
             && x.log == [SENTINEL, e, e, e] && x.currentTerm == 1 && x.commitIndex == 3
             && a == AppendArgs(1, 0, 0, 0, [e], 4)
    ensures OnAppend(x, a).1.success && OnAppend(x, a).0.commitIndex == 1
  {
  }

  /** In a run that takes a sender that had committed beyond the end of its own log. */
  lemma CommitFallsInRun(r: Run, j: nat, k: nat)
    requires IsRun(r) && OneLeaderPerTerm(r) && j < k < |r.steps| && r.steps[k].Deliver?
    requires StepOk(r, k) && SentAt(r, j, r.steps[k].args)
    ensures var s, a := r.steps[k].s, r.steps[k].args;
            var x, y, sender := r.states[k].servers[s], r.states[k + 1].servers[s], r.states[j].servers[a.leader];
            y.commitIndex < x.commitIndex <==>
            OnAppend(x, a).1.success && a.entries != [] && |sender.log| <= x.commitIndex < sender.commitIndex
  {
    var s, a := r.steps[k].s, r.steps[k].args;
    CommitFallsIff(r.states[k].servers[s], a);
    assert r.states[k + 1].servers[s] == OnAppend(r.states[k].servers[s], a).0;
    assert a.entries != [] ==> a.prevLogIndex + 1 + |a.entries| == |r.states[j].servers[a.leader].log|;
  }

  /**
   * A server accepts a request exactly if it knows of no higher term and its log
   * agrees with the sender's through PrevLogIndex; a rejection changes neither
   * log nor commit index.
   */
  lemma AcceptsExactlyWhenAgreed(r: Run, j: nat, k: nat)
    requires IsRun(r) && OneLeaderPerTerm(r) && j < k < |r.steps| && r.steps[k].Deliver?
    requires StepOk(r, k) && SentAt(r, j, r.steps[k].args)
    ensures var s, a := r.steps[k].s, r.steps[k].args;
            var x, y := r.states[k].servers[s], r.states[k + 1].servers[s];
            var sender := r.states[j].servers[a.leader].log;
            var success := OnAppend(x, a).1.success;
            && a.prevLogIndex < |sender|
            && (success <==> a.term >= x.currentTerm && a.prevLogIndex < |x.log|
                             && x.log[..a.prevLogIndex + 1] == sender[..a.prevLogIndex + 1])
            && (!success ==> y.log == x.log && y.commitIndex == x.commitIndex)
  {
    var s, a := r.steps[k].s, r.steps[k].args;
    SenderLog(r, j, k, a);
    DeliveredLogs(r, k);
    AcceptedIffAgrees(TermsAt(r, k), r.states[k].servers[s], a, r.states[j].servers[a.leader].log);
    assert r.states[k + 1].servers[s] == OnAppend(r.states[k].servers[s], a).0;
  }

  /** A request delivered a second time changes nothing. */
  lemma RedeliveryIsIdempotent(s: Server, a: AppendArgs)
    requires s.log != []
    ensures var once := OnAppend(s, a).0;
            once.log != [] && OnAppend(once, a).0 == once
  {
    if a.term >= s.currentTerm && a.prevLogIndex < |s.log| && s.log[a.prevLogIndex].term == a.prevLogTerm {
      MergedTwice(s.log, a.prevLogIndex, a.entries);
    }
  }

  /** After a merge all the entries are held. */
  lemma MergedHolds(log: Log, prev: nat, entries: Log, k: nat)
    requires prev < |log| && k < |entries|
    ensures Held(Merge(log, prev, entries), prev, entries, k)
  {
    if k < Mismatch(log, prev, entries) {
      assert Held(log, prev, entries, k);
    }
  }

  lemma MergedTwice(log: Log, prev: nat, entries: Log)
    requires prev < |log|
    ensures var m := Merge(log, prev, entries);
            prev < |m| && m[prev] == log[prev] && Merge(m, prev, entries) == m
  {
    var m := Merge(log, prev, entries);
    forall k: nat | k < |entries|
      ensures Held(m, prev, entries, k)
    {
      MergedHolds(log, prev, entries, k);
    }
    MismatchUnique(m, prev, entries, |entries|);
  }

  // ---- an acknowledged prefix stays ----

  /** Server s is in term t at state k and holds the first e entries of that term's log. */
  ghost predicate Matches(r: Run, k: nat, s: nat, t: nat, e: nat)
    requires IsRun(r) && k <= |r.steps|
  {
    && s < |r.states[k].servers| && r.states[k].servers[s].currentTerm == t
    && t in TermsAt(r, k) && e <= |TermsAt(r, k)[t].log| && e <= |r.states[k].servers[s].log|
    && r.states[k].servers[s].log[..e] == TermsAt(r, k)[t].log[..e]
  }

  lemma ServersOnlyGainTerms(r: Run, k: nat, s: nat)
    requires IsRun(r) && OneLeaderPerTerm(r) && k < |r.steps| && s < |r.states[k].servers|
    ensures s < |r.states[k + 1].servers|
    ensures r.states[k].servers[s].currentTerm <= r.states[k + 1].servers[s].currentTerm
  {
    RunInv(r, k);
    assert StepOk(r, k);
    StepRaisesTerms(r.states[k], TermsAt(r, k), r.steps[k], s);
  }

  /** A prefix of a term's log stays in that log. */
  lemma PrefixStep(r: Run, k: nat, t: nat, e: nat)
    requires IsRun(r) && OneLeaderPerTerm(r) && k < |r.steps|
    requires t in TermsAt(r, k) && e <= |TermsAt(r, k)[t].log|
    ensures t in TermsAt(r, k + 1) && e <= |TermsAt(r, k + 1)[t].log|
    ensures TermsAt(r, k + 1)[t].log[..e] == TermsAt(r, k)[t].log[..e]
  {
    TermsGrow(r, k, k + 1);
    ShorterPrefix(TermsAt(r, k + 1)[t].log, TermsAt(r, k)[t].log, |TermsAt(r, k)[t].log|, e);
  }

  lemma ServerStep(r: Run, k: nat, s: nat, t: nat, e: nat)
    requires IsRun(r) && OneLeaderPerTerm(r) && k < |r.steps| && Matches(r, k, s, t, e)
    requires s < |r.states[k + 1].servers| && r.states[k + 1].servers[s].currentTerm == t
    ensures var log := r.states[k + 1].servers[s].log; e <= |log| && log[..e] == TermsAt(r, k)[t].log[..e]
  {
    RunInv(r, k);
    assert StepOk(r, k);
    StepKeepsMatch(r.states[k], TermsAt(r, k), r.steps[k], s, t, e);
  }

  lemma MatchStep(r: Run, k: nat, s: nat, t: nat, e: nat)
    requires IsRun(r) && OneLeaderPerTerm(r) && k < |r.steps| && Matches(r, k, s, t, e)
    requires s < |r.states[k + 1].servers| && r.states[k + 1].servers[s].currentTerm == t
    ensures Matches(r, k + 1, s, t, e)
  {
    PrefixStep(r, k, t, e);
    ServerStep(r, k, s, t, e);
  }

  /**
   * Once a server holds a prefix of its term's log it keeps it for as long as
   * it stays in that term, through redelivered and overtaken requests and
   * restarts.
   */
  lemma {:induction false} MatchStays(r: Run, j: nat, k: nat, s: nat, t: nat, e: nat)
    requires IsRun(r) && OneLeaderPerTerm(r) && j <= k <= |r.steps| && Matches(r, j, s, t, e)
    requires s < |r.states[k].servers| && r.states[k].servers[s].currentTerm == t
    ensures Matches(r, k, s, t, e)
    decreases k - j
  {
    if j < k {
      ServersOnlyGainTerms(r, j, s);
      TermsOnlyRise(r, j + 1, k, s);
      MatchStep(r, j, s, t, e);
      MatchStays(r, j + 1, k, s, t, e);
    }
  }

  lemma {:induction false} TermsOnlyRise(r: Run, j: nat, k: nat, s: nat)
    requires IsRun(r) && OneLeaderPerTerm(r) && j <= k <= |r.steps| && s < |r.states[j].servers|
    ensures s < |r.states[k].servers| && r.states[j].servers[s].currentTerm <= r.states[k].servers[s].currentTerm
  {
    if j < k {
      TermsOnlyRise(r, j, k - 1, s);
      ServersOnlyGainTerms(r, k - 1, s);
    }
  }

  lemma AcceptedTerm(x: Server, a: AppendArgs)
    requires x.log != [] && OnAppend(x, a).1.success
    ensures OnAppend(x, a).0.currentTerm == a.term
  {
  }

  /** A server that accepts a request holds the log of the request's term through the last entry sent. */
  lemma AcceptedMatches(r: Run, k: nat)
    requires IsRun(r) && OneLeaderPerTerm(r) && k < |r.steps| && r.steps[k].Deliver?
    requires StepOk(r, k) && OnAppend(r.states[k].servers[r.steps[k].s], r.steps[k].args).1.success
    ensures var a := r.steps[k].args;
            Matches(r, k + 1, r.steps[k].s, a.term, a.prevLogIndex + 1 + |a.entries|)
  {
    var s, a := r.steps[k].s, r.steps[k].args;
    var end := a.prevLogIndex + 1 + |a.entries|;
    var j := AcceptedAgreesWithSender(r, k);
    SenderLog(r, j, k + 1, a);
    var sender := r.states[j].servers[a.leader].log;
    ShorterPrefix(TermsAt(r, k + 1)[a.term].log, sender, |sender|, end);
    AcceptedTerm(r.states[k].servers[s], a);
    assert r.states[k + 1].servers[s] == OnAppend(r.states[k].servers[s], a).0;
  }

  /** What a success reply tells the leader remains true for as long as the server that gave it stays in the term. */
  lemma AcknowledgedStays(r: Run, j: nat, k: nat)
    requires IsRun(r) && OneLeaderPerTerm(r) && j < k <= |r.steps| && r.steps[j].Deliver?
    requires StepOk(r, j) && OnAppend(r.states[j].servers[r.steps[j].s], r.steps[j].args).1.success
    requires r.steps[j].s < |r.states[k].servers|
    requires r.states[k].servers[r.steps[j].s].currentTerm == r.steps[j].args.term
    ensures var a := r.steps[j].args;
            Matches(r, k, r.steps[j].s, a.term, a.prevLogIndex + 1 + |a.entries|)
  {
    var a := r.steps[j].args;
    AcceptedMatches(r, j);
    MatchStays(r, j + 1, k, r.steps[j].s, a.term, a.prevLogIndex + 1 + |a.entries|);
  }
}
