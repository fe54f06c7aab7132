/**
 * The fast roll-back of nextIndex (labs/src/raft/raft.go:490-511, 630-649): how
 * a leader finds the point from which to overwrite a follower's log, for fixed
 * logs that could occur in one run.
 */
module RaftRollback {
  import opened Common
  import opened RaftHandlers
  import opened RaftCluster
  import opened RaftRuns

  /** Two logs that agree with the same logs per term, as all logs of a run do. */
  ghost predicate Compatible(terms: Terms, leader: Log, follower: Log) {
    0 !in terms && exists a, b :: LogOk(terms, leader, a) && LogOk(terms, follower, b)
  }

  lemma RunLogsAreCompatible(r: Run, k: nat, a: nat, b: nat)
    requires IsRun(r) && OneLeaderPerTerm(r) && k <= |r.steps|
    requires a < |r.states[k].servers| && b < |r.states[k].servers|
    ensures Compatible(TermsAt(r, k), r.states[k].servers[a].log, r.states[k].servers[b].log)
  {
    RunInv(r, k);
    assert HoldsOk(r.states[k], TermsAt(r, k), a) && HoldsOk(r.states[k], TermsAt(r, k), b);
    assert 0 in TermsAt(r, k) ==> TermOk(TermsAt(r, k), r.states[k].servers, 0);
  }

  /**
   * One request with PrevLogIndex `next - 1`, which is the end of the log for a
   * heartbeat: None when it is accepted, else the next index after the rejection.
   */
  function Probe(leader: Log, follower: Log, next: nat): Option<nat>
    requires follower != [] && 0 < next <= |leader|
  {
    var prev := next - 1;
    if |follower| - 1 < prev then
      Some(RollBack(leader, AppendReply(0, false, 0, 0, |follower| - 1)))
    else if follower[prev].term != leader[prev].term then
      Some(RollBack(leader, AppendReply(0, false, follower[prev].term, RunStart(follower, prev), 0)))
    else
      None
  }

  /** What a leader sends a peer: entries from its next index on, or a heartbeat. */
  predicate Sends(leader: Server, me: nat, peer: nat, a: AppendArgs)
    requires leader.log != [] && peer < |leader.nextIndex|
  {
    || a == HeartbeatFrom(leader, me)
    || (leader.nextIndex[peer] > 0 && AppendFor(leader, me, peer) == Some(a))
  }

  /** The probe is what the handlers of leader and follower do between them, for both kinds of requests. */
  lemma ProbeIsHandlers(leader: Server, follower: Server, me: nat, peer: nat, a: AppendArgs)
    requires leader.log != [] && follower.log != []
    requires peer < |leader.nextIndex| == |leader.matchIndex| && Sends(leader, me, peer, a)
    requires follower.currentTerm <= leader.currentTerm
    ensures a.prevLogIndex < |leader.log|
    ensures var r := OnAppend(follower, a).1;
            var after := OnAppendReply(leader, peer, a, r);
            match Probe(leader.log, follower.log, a.prevLogIndex + 1)
            case None =>
              r.success && after.nextIndex[peer] == |leader.log| && after.matchIndex[peer] == |leader.log| - 1
            case Some(next) => !r.success && after == leader.(nextIndex := leader.nextIndex[peer := next])
  {
  }

  /** The logs agree through index a. */
  ghost predicate AgreeThrough(leader: Log, follower: Log, a: nat) {
    a < |leader| && a < |follower| && leader[..a + 1] == follower[..a + 1]
  }

  lemma SameTermAgrees(terms: Terms, leader: Log, follower: Log, i: nat)
    requires Compatible(terms, leader, follower)
    requires i < |leader| && i < |follower| && leader[i].term == follower[i].term
    ensures AgreeThrough(leader, follower, i)
  {
    var a, b :| LogOk(terms, leader, a) && LogOk(terms, follower, b);
    SameTermSamePrefix(terms, leader, follower, a, b, i);
  }

  lemma Rises(terms: Terms, leader: Log, follower: Log, i: nat, j: nat)
    requires Compatible(terms, leader, follower) && i <= j
    ensures j < |leader| ==> leader[i].term <= leader[j].term
    ensures j < |follower| ==> follower[i].term <= follower[j].term
  {
    assert j < |leader| ==> NotAbove(leader, i, j);
    assert j < |follower| ==> NotAbove(follower, i, j);
  }

  /** The leader's last entry of a term the follower has at p, if any, is before p when the two differ at p. */
  lemma LastBefore(terms: Terms, leader: Log, follower: Log, p: nat, i: nat)
    requires Compatible(terms, leader, follower)
    requires 0 < p < |leader| && p < |follower| && follower[p].term != leader[p].term
    requires 0 < i < |leader| && leader[i].term == follower[p].term
    ensures i < p && follower[i].term == leader[i].term
  {
    var a, b :| LogOk(terms, leader, a) && LogOk(terms, follower, b);
    assert EntryOk(terms, leader, i) && EntryOk(terms, follower, p);
    var l := terms[follower[p].term].log;
    var q := if p < i then p else i;
    assert leader[q] == leader[..i + 1][q] == l[..i + 1][q];
    assert follower[q] == follower[..p + 1][q] == l[..p + 1][q];
  }

  /**
   * A rejection moves nextIndex to PrevLogIndex or below, but not below any
   * index through which the logs agree. It moves it to 0, where the leader would
   * index its log at -1, exactly when the follower holds only the sentinel.
   */
  lemma RejectionMovesBack(terms: Terms, leader: Log, follower: Log, next: nat)
    requires Compatible(terms, leader, follower) && 0 < next <= |leader| && follower != []
    requires Probe(leader, follower, next).Some?
    ensures var next' := Probe(leader, follower, next).value;
            && next' <= next - 1
            && (forall a: nat :: AgreeThrough(leader, follower, a) ==> a <= next')
            && (next' == 0 <==> |follower| == 1)
  {
    var prev := next - 1;
    if |follower| - 1 >= prev {
      ConflictMovesBack(terms, leader, follower, next);
    }
  }

  lemma ConflictMovesBack(terms: Terms, leader: Log, follower: Log, next: nat)
    requires Compatible(terms, leader, follower) && 0 < next <= |leader| && next <= |follower|
    requires follower[next - 1].term != leader[next - 1].term
    ensures Probe(leader, follower, next).Some?
    ensures var next' := Probe(leader, follower, next).value;
            && 0 < next' <= next - 1
            && (forall a: nat :: AgreeThrough(leader, follower, a) ==> a < next')
            && (Probe(leader, follower, next').None? || next' == RunStart(follower, next - 1))
  {
    var prev := next - 1;
    var term := follower[prev].term;
    var first := RunStart(follower, prev);
    var last := LastOfTerm(leader, term);
    var next' := Probe(leader, follower, next).value;
    assert prev > 0 && first > 0 && term > 0 by { ConflictNotAtFront(terms, leader, follower, prev); }
    if last > 0 {
      LastBefore(terms, leader, follower, prev, last);
      Rises(terms, leader, follower, last, last + 1);
      Rises(terms, leader, follower, last + 1, prev);
      forall a: nat | AgreeThrough(leader, follower, a)
        ensures a < next'
      {
        AgreedAt(leader, follower, a, last + 1);
      }
    } else {
      forall a: nat | AgreeThrough(leader, follower, a)
        ensures a < next'
      {
        AgreedAt(leader, follower, a, first);
      }
    }
  }

  lemma AgreedAt(leader: Log, follower: Log, a: nat, i: nat)
    requires AgreeThrough(leader, follower, a)
    ensures i <= a ==> leader[i] == follower[i]
  {
    if i <= a {
      assert leader[i] == leader[..a + 1][i] && follower[i] == follower[..a + 1][i];
    }
  }

  lemma ConflictNotAtFront(terms: Terms, leader: Log, follower: Log, p: nat)
    requires Compatible(terms, leader, follower) && p < |leader| && p < |follower|
    requires follower[p].term != leader[p].term
    ensures 0 < p && 0 < follower[p].term && 0 < RunStart(follower, p)
  {
    var a, b :| LogOk(terms, leader, a) && LogOk(terms, follower, b);
    assert leader[0] == SENTINEL && follower[0] == SENTINEL;
    assert EntryOk(terms, follower, p);
  }

  // ---- how many rejections ----

  /** The number of rejections before a probe is accepted. */
  ghost function Rejections(terms: Terms, leader: Log, follower: Log, next: nat): nat
    requires Compatible(terms, leader, follower) && |follower| > 1 && 0 < next <= |leader|
    decreases next
  {
    match Probe(leader, follower, next)
    case None => 0
    case Some(next') =>
      RejectionMovesBack(terms, leader, follower, next);
      1 + Rejections(terms, leader, follower, next')
  }

  /** The next index at which a probe is finally accepted. */
  ghost function AcceptedAt(terms: Terms, leader: Log, follower: Log, next: nat): (r: nat)
    requires Compatible(terms, leader, follower) && |follower| > 1 && 0 < next <= |leader|
    ensures 0 < r <= next && Probe(leader, follower, r).None?
    ensures forall a: nat :: AgreeThrough(leader, follower, a) && a < next ==> a <= r
    decreases next
  {
    match Probe(leader, follower, next)
    case None => next
    case Some(next') =>
      RejectionMovesBack(terms, leader, follower, next);
      AcceptedAt(terms, leader, follower, next')
  }

  /** The terms of a follower's entries from index 1 through k. */
  ghost function TermsThrough(follower: Log, k: nat): set<nat>
    requires k < |follower|
  {
    set i | 0 < i <= k :: follower[i].term
  }

  /** When the follower's log reaches the probe, each rejection uses up one of its terms. */
  lemma {:induction false} ConflictRejections(terms: Terms, leader: Log, follower: Log, next: nat)
    requires Compatible(terms, leader, follower) && |follower| > 1 && 0 < next <= |leader| && next <= |follower|
    ensures Rejections(terms, leader, follower, next) <= |TermsThrough(follower, next - 1)|
    decreases next
  {
    var prev := next - 1;
    if follower[prev].term != leader[prev].term {
      ConflictMovesBack(terms, leader, follower, next);
      ConflictNotAtFront(terms, leader, follower, prev);
      var next' := Probe(leader, follower, next).value;
      var all := TermsThrough(follower, prev);
      assert follower[prev].term in all;
      if Probe(leader, follower, next').None? {
        assert Rejections(terms, leader, follower, next) == 1;
        SubsetSize({follower[prev].term}, all);
      } else {
        ConflictRejections(terms, leader, follower, next');
        var less := TermsThrough(follower, next' - 1);
        forall t | t in less
          ensures t in all && t != follower[prev].term
        {
          var i :| 0 < i <= next' - 1 && follower[i].term == t;
          Rises(terms, leader, follower, i, next' - 1);
          Rises(terms, leader, follower, next' - 1, prev);
        }
        SubsetSize(less + {follower[prev].term}, all);
      }
    }
  }

  lemma RejectionsBound(terms: Terms, leader: Log, follower: Log, next: nat)
    requires Compatible(terms, leader, follower) && |follower| > 1 && 0 < next <= |leader|
    ensures Rejections(terms, leader, follower, next) <=
            (if next <= |follower| then 0 else 1) + |TermsThrough(follower, |follower| - 1)|
  {
    if next <= |follower| {
      ConflictRejections(terms, leader, follower, next);
      MoreTerms(follower, next - 1);
    } else {
      var next' := |follower| - 1;
      assert Probe(leader, follower, next) == Some(next');
      ConflictRejections(terms, leader, follower, next');
      MoreTerms(follower, next' - 1);
    }
  }

  /**
   * Convergence: a first request of either kind, followed by requests from the
   * next index it leads to, is accepted after at most one rejection for a log
   * that is too short and one for each term of the follower's log, and then the
   * follower has the leader's whole log.
   */
  lemma RollBackConverges(terms: Terms, leader: Log, follower: Log, next: nat)
    requires Compatible(terms, leader, follower) && |follower| > 1 && 0 < next <= |leader|
    ensures Rejections(terms, leader, follower, next) <=
            (if next <= |follower| then 0 else 1) + |TermsThrough(follower, |follower| - 1)|
    ensures TakesOver(leader, follower, AcceptedAt(terms, leader, follower, next))
  {
    RejectionsBound(terms, leader, follower, next);
    TakesOverAll(terms, leader, follower, AcceptedAt(terms, leader, follower, next));
  }

  /** An accepted probe at `at` leaves the follower with the leader's whole log. */
  ghost predicate TakesOver(leader: Log, follower: Log, at: nat) {
    && 0 < at <= |leader| && at <= |follower|
    && var m := Merge(follower, at - 1, leader[at..]);
    && |leader| <= |m| && m[..|leader|] == leader
  }

  lemma MoreTerms(follower: Log, k: nat)
    requires k < |follower|
    ensures |TermsThrough(follower, k)| <= |TermsThrough(follower, |follower| - 1)|
  {
    SubsetSize(TermsThrough(follower, k), TermsThrough(follower, |follower| - 1));
  }

  lemma TakesOverAll(terms: Terms, leader: Log, follower: Log, at: nat)
    requires Compatible(terms, leader, follower) && 0 < at <= |leader| && follower != []
    requires Probe(leader, follower, at).None?
    ensures TakesOver(leader, follower, at)
  {
    var prev, entries := at - 1, leader[at..];
    var i := Mismatch(follower, prev, entries);
    if i > 0 {
      assert Held(follower, prev, entries, i - 1);
    }
    SameTermAgrees(terms, leader, follower, prev + i);
    assert leader[prev + 1..prev + 1 + |entries|] == entries;
    MergeSlice(follower, leader, prev, entries);
    assert leader[..|leader|] == leader;
  }

  // ---- rejections in runs ----

  /** Step i gave the answer. */
  ghost predicate AnsweredAt(r: Run, i: nat, answer: Answer)
    requires i < |r.steps| < |r.states|
  {
    && StepOk(r, i) && r.steps[i] == Deliver(answer.from, answer.args)
    && answer.reply == OnAppend(r.states[i].servers[answer.from], answer.args).1
  }

  lemma {:induction false} AnswerOrigin(r: Run, k: nat, answer: Answer) returns (i: nat)
    requires IsRun(r) && k <= |r.steps| && answer in r.states[k].answers
    ensures i < k && AnsweredAt(r, i, answer)
  {
    assert k > 0;
    assert StepOk(r, k - 1);
    if answer in r.states[k - 1].answers {
      i := AnswerOrigin(r, k - 1, answer);
    } else {
      i := k - 1;
    }
  }

  /** An answer given can be delivered at any time after. */
  lemma {:induction false} AnswerStays(r: Run, i: nat, k: nat, answer: Answer)
    requires IsRun(r) && i < k <= |r.steps| && AnsweredAt(r, i, answer)
    ensures answer in r.states[k].answers
    decreases k
  {
    assert StepOk(r, k - 1);
    if i < k - 1 {
      AnswerStays(r, i, k - 1, answer);
    }
  }

  /** The reply handler gets a rejection that it does not drop. */
  ghost predicate RejectedAt(r: Run, k: nat)
    requires k < |r.steps| < |r.states|
  {
    && StepOk(r, k) && r.steps[k].DeliverAnswer?
    && var answer := r.steps[k].answer;
    !answer.reply.success && answer.reply.term == answer.args.term
  }

  /** The follower's log when it rejected a request of the leader is compatible with the log of the request's term. */
  lemma RejectedLogs(r: Run, i: nat, k: nat)
    requires IsRun(r) && OneLeaderPerTerm(r) && i < k < |r.steps|
    requires RejectedAt(r, k) && AnsweredAt(r, i, r.steps[k].answer)
    ensures var a, terms := r.steps[k].answer.args, TermsAt(r, k);
            && a.term in terms && a.prevLogIndex < |terms[a.term].log|
            && terms[a.term].log[a.prevLogIndex].term == a.prevLogTerm
            && r.states[i].servers[r.steps[k].answer.from].log != []
            && Compatible(terms, terms[a.term].log, r.states[i].servers[r.steps[k].answer.from].log)
  {
    var a, x := r.steps[k].answer.args, r.states[i].servers[r.steps[k].answer.from];
    DeliveredLogs(r, i);
    TermsGrow(r, i, k);
    LogOkMore(TermsAt(r, i), TermsAt(r, k), x.log, x.currentTerm);
    RequestMore(TermsAt(r, i), TermsAt(r, k), a);
    TermsOfRun(r, k, a.term);
  }

  lemma TermsOfRun(r: Run, k: nat, t: nat)
    requires IsRun(r) && OneLeaderPerTerm(r) && k <= |r.steps| && t in TermsAt(r, k)
    ensures 0 !in TermsAt(r, k) && LogOk(TermsAt(r, k), TermsAt(r, k)[t].log, t)
  {
    RunInv(r, k);
    assert TermOk(TermsAt(r, k), r.states[k].servers, t);
    assert 0 in TermsAt(r, k) ==> TermOk(TermsAt(r, k), r.states[k].servers, 0);
  }

  /** What the reply handler sets on a rejection, when the logs were those. */
  lemma RejectionIsProbe(x: Server, a: AppendArgs, l: Log)
    requires x.log != [] && a.prevLogIndex < |l| && l[a.prevLogIndex].term == a.prevLogTerm
    requires !OnAppend(x, a).1.success && OnAppend(x, a).1.term == a.term
    ensures Probe(l, x.log, a.prevLogIndex + 1) == Some(RollBack(l, OnAppend(x, a).1))
  {
  }

  /**
   * How the answer of a follower with log x limits what the reply handler sets,
   * whatever the leader's log is by then.
   */
  lemma RollBackLimits(x: Server, a: AppendArgs, log: Log)
    requires x.log != [] && log != []
    requires !OnAppend(x, a).1.success && OnAppend(x, a).1.term == a.term
    requires a.prevLogIndex < |x.log| ==> RunStart(x.log, a.prevLogIndex) > 0
    ensures var r := OnAppend(x, a).1;
            && (RollBack(log, r) == 0 <==> |x.log| == 1)
            && (RollBack(log, r) <= a.prevLogIndex <==>
                  r.conflictIndex == 0 || LastOfTerm(log, r.conflictTerm) < a.prevLogIndex)
  {
  }

  /** Two behind the leader's last entry of the conflicting term, leader and follower have entries of the same term. */
  predicate AgreeBeyond(leader: Log, follower: Log, conflictTerm: nat)
    requires leader != []
  {
    var last := LastOfTerm(leader, conflictTerm);
    && last > 0 && last + 2 < |leader| && last + 2 < |follower|
    && leader[last + 2].term == follower[last + 2].term
  }

  /** When the roll-back stays at or above every index through which the logs agree. */
  lemma RollBackKeepsAgreed(terms: Terms, log: Log, x: Server, a: AppendArgs)
    requires Compatible(terms, log, x.log)
    requires !OnAppend(x, a).1.success && OnAppend(x, a).1.term == a.term
    requires a.prevLogIndex < |x.log| ==> RunStart(x.log, a.prevLogIndex) > 0
    ensures var r := OnAppend(x, a).1;
            (forall e: nat :: AgreeThrough(log, x.log, e) ==> e <= RollBack(log, r)) <==>
            !(r.conflictIndex > 0 && AgreeBeyond(log, x.log, r.conflictTerm))
  {
    var r := OnAppend(x, a).1;
    var last, next := LastOfTerm(log, r.conflictTerm), RollBack(log, r);
    if r.conflictIndex > 0 && AgreeBeyond(log, x.log, r.conflictTerm) {
      SameTermAgrees(terms, log, x.log, last + 2);
    } else {
      forall e: nat | AgreeThrough(log, x.log, e)
        ensures e <= next
      {
        AgreedAt(log, x.log, e, if last > 0 then last + 2 else r.conflictIndex);
      }
    }
  }

  /**
   * Every rejection in every run, however late it arrives. The leader's next
   * index becomes 0, and its next round panics, exactly if the follower held
   * only the sentinel when it answered. It becomes PrevLogIndex or less exactly
   * if the follower's log was too short or the leader's last entry of the
   * conflicting term is by now before PrevLogIndex. And it stays at or above
   * every index through which the two logs agree, unless they have entries of
   * the same term two behind that last entry.
   */
  lemma EveryRejection(r: Run, k: nat, i: nat)
    requires IsRun(r) && OneLeaderPerTerm(r) && i < k < |r.steps|
    requires RejectedAt(r, k) && AnsweredAt(r, i, r.steps[k].answer)
    ensures var answer := r.steps[k].answer;
            var leader, follower := r.states[k].servers[answer.args.leader].log, r.states[i].servers[answer.from].log;
            var next := r.states[k + 1].servers[answer.args.leader].nextIndex[answer.from];
            && leader != []
            && (next == 0 <==> |follower| == 1)
            && (next <= answer.args.prevLogIndex <==>
                  || answer.reply.conflictIndex == 0
                  || LastOfTerm(leader, answer.reply.conflictTerm) < answer.args.prevLogIndex)
            && ((forall e: nat :: AgreeThrough(leader, follower, e) ==> e <= next) <==>
                  !(answer.reply.conflictIndex > 0 && AgreeBeyond(leader, follower, answer.reply.conflictTerm)))
  {
    var answer := r.steps[k].answer;
    var a := answer.args;
    AnswersBringNoNewTerm(r, k);
    RejectedLogs(r, i, k);
    var x, l := r.states[i].servers[answer.from], TermsAt(r, k)[a.term].log;
    if a.prevLogIndex < |x.log| {
      ConflictNotAtFront(TermsAt(r, k), l, x.log, a.prevLogIndex);
    }
    RollBackLimits(x, a, r.states[k].servers[a.leader].log);
    AnsweredLogs(r, i, k, answer.from, a.leader);
    RollBackKeepsAgreed(TermsAt(r, k), r.states[k].servers[a.leader].log, x, a);
  }

  /** The log of one server now and of another before are compatible. */
  lemma AnsweredLogs(r: Run, i: nat, k: nat, from: nat, s: nat)
    requires IsRun(r) && OneLeaderPerTerm(r) && i <= k <= |r.steps|
    requires from < |r.states[i].servers| && s < |r.states[k].servers|
    ensures Compatible(TermsAt(r, k), r.states[k].servers[s].log, r.states[i].servers[from].log)
  {
    RunInv(r, i);
    RunInv(r, k);
    TermsGrow(r, i, k);
    var x := r.states[i].servers[from];
    assert HoldsOk(r.states[i], TermsAt(r, i), from) && HoldsOk(r.states[k], TermsAt(r, k), s);
    LogOkMore(TermsAt(r, i), TermsAt(r, k), x.log, x.currentTerm);
    assert 0 in TermsAt(r, k) ==> TermOk(TermsAt(r, k), r.states[k].servers, 0);
  }

  /**
   * A rejection that arrives while the leader is still in the request's term, by
   * then with more entries perhaps, moves its next index as RejectionMovesBack
   * says, with the follower's log as it was when it answered.
   */
  lemma RejectionInRun(r: Run, i: nat, k: nat)
    requires IsRun(r) && OneLeaderPerTerm(r) && i < k < |r.steps|
    requires RejectedAt(r, k) && AnsweredAt(r, i, r.steps[k].answer)
    requires var a := r.steps[k].answer.args; r.states[k].servers[a.leader].currentTerm == a.term
    ensures var answer := r.steps[k].answer;
            var leader, follower := r.states[k].servers[answer.args.leader].log, r.states[i].servers[answer.from].log;
            var next := r.states[k + 1].servers[answer.args.leader].nextIndex[answer.from];
            && next <= answer.args.prevLogIndex
            && (forall e: nat :: AgreeThrough(leader, follower, e) ==> e <= next)
            && (next == 0 <==> |follower| == 1)
  {
    var answer := r.steps[k].answer;
    var a := answer.args;
    AnswersBringNoNewTerm(r, k);
    RejectedLogs(r, i, k);
    LeaderHoldsTerm(r, k);
    var x, l := r.states[i].servers[answer.from], TermsAt(r, k)[a.term].log;
    RejectionIsProbe(x, a, l);
    RejectionMovesBack(TermsAt(r, k), l, x.log, a.prevLogIndex + 1);
  }

  /** A leader that gets an answer in the request's term holds the log of that term. */
  lemma LeaderHoldsTerm(r: Run, k: nat)
    requires IsRun(r) && OneLeaderPerTerm(r) && k < |r.steps| && StepOk(r, k) && r.steps[k].DeliverAnswer?
    requires var a := r.steps[k].answer.args; r.states[k].servers[a.leader].currentTerm == a.term
    ensures var a := r.steps[k].answer.args;
            a.term in TermsAt(r, k) && r.states[k].servers[a.leader].log == TermsAt(r, k)[a.term].log
  {
    RunInv(r, k);
    var a := r.steps[k].answer.args;
    assert RequestOk(TermsAt(r, k), a) && TermOk(TermsAt(r, k), r.states[k].servers, a.term);
  }
}
