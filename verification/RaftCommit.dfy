/**
 * What a leader commits (labs/src/raft/raft.go:212-229): it counts in matchIndex
 * what replies told it (labs/src/raft/raft.go:626-629). That is the truth about
 * a majority if each success is handled in the term of its request.
 */
module RaftCommit {
  import opened Common
  import opened RaftHandlers
  import opened RaftCluster
  import opened RaftRuns
  import opened RaftRollback

  /** A success that step k handles belongs to the leader's current term: the test the handler lacks. */
  ghost predicate PromptAt(r: Run, k: nat)
    requires k < |r.steps| < |r.states|
  {
    StepOk(r, k) && r.steps[k].DeliverAnswer? && r.steps[k].answer.reply.success ==>
      r.states[k].servers[r.steps[k].answer.args.leader].currentTerm == r.steps[k].answer.args.term
  }

  ghost predicate Prompt(r: Run)
    requires |r.steps| < |r.states|
  {
    forall k: nat {:trigger PromptAt(r, k)} :: k < |r.steps| ==> PromptAt(r, k)
  }

  /** By state k server p has, in term t, held the first e entries of that term's log. */
  ghost predicate HasHeld(r: Run, k: nat, p: nat, t: nat, e: nat)
    requires IsRun(r) && k <= |r.steps|
  {
    exists i: nat :: i <= k && Matches(r, i, p, t, e)
  }

  /** Those who, by state k, have in term t held the first e entries of that term's log. */
  ghost function HaveHeld(r: Run, k: nat, t: nat, e: nat): set<nat>
    requires IsRun(r) && k <= |r.steps|
  {
    set p | 0 <= p < |r.states[k].servers| && HasHeld(r, k, p, t, e)
  }

  // ---- matchIndex tells the truth ----

  ghost predicate TrueOf(r: Run, k: nat, x: Server, p: nat)
    requires IsRun(r) && k <= |r.steps| && p < |x.matchIndex|
  {
    x.matchIndex[p] == 0 || HasHeld(r, k, p, x.currentTerm, x.matchIndex[p] + 1)
  }

  /** Whatever a leader's matchIndex says of a peer was once so, in the leader's term. */
  ghost predicate TrueMatches(r: Run, k: nat, s: nat)
    requires IsRun(r) && k <= |r.steps| && s < |r.states[k].servers|
  {
    var x := r.states[k].servers[s];
    x.role == Leader ==>
      forall p: nat {:trigger TrueOf(r, k, x, p)} :: p < |x.matchIndex| ==> TrueOf(r, k, x, p)
  }

  /** The step handles a success for server s. */
  predicate Succeeds(step: Step, s: nat) {
    && step.DeliverAnswer? && step.answer.args.leader == s
    && step.answer.reply.success && step.answer.reply.term == step.answer.args.term
  }

  /** From x to y, matchIndex has noted the answer, a success. */
  predicate Noted(x: Server, y: Server, answer: Answer) {
    && answer.from < |x.matchIndex|
    && y.matchIndex == x.matchIndex[answer.from := answer.args.prevLogIndex + |answer.args.entries|]
  }

  /** What a step can do to a leader's matchIndex. */
  lemma MatchIndexStep(c: Cluster, step: Step, s: nat)
    requires WellTyped(c) && Enabled(c, step) && s < |c.servers|
    ensures s < |After(c, step).servers|
    ensures var x, y := c.servers[s], After(c, step).servers[s];
            || y.role != Leader
            || y.matchIndex == seq(|x.matchIndex|, _ => 0)
            || (x.role == Leader && y.currentTerm == x.currentTerm
                && if Succeeds(step, s) then Noted(x, y, step.answer) else y.matchIndex == x.matchIndex)
  {
  }

  lemma LongerHeld(r: Run, k: nat, p: nat, t: nat, e: nat)
    requires IsRun(r) && k < |r.steps| && HasHeld(r, k, p, t, e)
    ensures HasHeld(r, k + 1, p, t, e)
  {
    var i: nat :| i <= k && Matches(r, i, p, t, e);
  }

  /** A success handled in its term is true of the peer that sent it. */
  lemma SuccessIsTrue(r: Run, k: nat, s: nat)
    requires IsRun(r) && OneLeaderPerTerm(r) && k < |r.steps| && StepOk(r, k) && PromptAt(r, k)
    requires s < |r.states[k].servers| && Succeeds(r.steps[k], s)
    ensures var a := r.steps[k].answer.args;
            HasHeld(r, k + 1, r.steps[k].answer.from, r.states[k].servers[s].currentTerm,
                    a.prevLogIndex + |a.entries| + 1)
  {
    var answer := r.steps[k].answer;
    var i := AnswerOrigin(r, k, answer);
    AcceptedMatches(r, i);
  }

  lemma TrueOfPeer(r: Run, k: nat, s: nat, p: nat)
    requires IsRun(r) && OneLeaderPerTerm(r) && k < |r.steps| && StepOk(r, k) && PromptAt(r, k)
    requires s < |r.states[k].servers| && TrueMatches(r, k, s)
    requires s < |r.states[k + 1].servers| && p < |r.states[k + 1].servers[s].matchIndex|
    requires r.states[k + 1].servers[s].role == Leader
    ensures TrueOf(r, k + 1, r.states[k + 1].servers[s], p)
  {
    MatchIndexStep(r.states[k], r.steps[k], s);
    var x, y := r.states[k].servers[s], r.states[k + 1].servers[s];
    if y.matchIndex[p] != 0 {
      if Succeeds(r.steps[k], s) && p == r.steps[k].answer.from {
        SuccessIsTrue(r, k, s);
      } else {
        assert TrueOf(r, k, x, p);
        LongerHeld(r, k, p, x.currentTerm, x.matchIndex[p] + 1);
      }
    }
  }

  lemma TrueStep(r: Run, k: nat, s: nat)
    requires IsRun(r) && OneLeaderPerTerm(r) && Prompt(r) && k < |r.steps|
    requires s < |r.states[k].servers| && TrueMatches(r, k, s)
    ensures s < |r.states[k + 1].servers| && TrueMatches(r, k + 1, s)
  {
    assert StepOk(r, k) && PromptAt(r, k);
    MatchIndexStep(r.states[k], r.steps[k], s);
    var next := k + 1;
    var y := r.states[next].servers[s];
    if y.role == Leader {
      forall p: nat | p < |y.matchIndex|
        ensures TrueOf(r, next, y, p)
      {
        TrueOfPeer(r, k, s, p);
      }
    }
  }

  lemma {:induction false} RunTrue(r: Run, k: nat, s: nat)
    requires IsRun(r) && OneLeaderPerTerm(r) && Prompt(r) && k <= |r.steps| && s < |r.states[0].servers|
    ensures s < |r.states[k].servers| && TrueMatches(r, k, s)
  {
    if k > 0 {
      RunTrue(r, k - 1, s);
      TrueStep(r, k - 1, s);
    }
  }

  // ---- the majority ----

  lemma {:induction false} SameServers(r: Run, k: nat)
    requires IsRun(r) && k <= |r.steps|
    ensures |r.states[k].servers| == |r.states[0].servers|
  {
    if k > 0 {
      SameServers(r, k - 1);
      assert StepOk(r, k - 1);
    }
  }

  /** Who has held more has held less. */
  lemma HeldLess(r: Run, k: nat, p: nat, t: nat, e: nat, less: nat)
    requires IsRun(r) && k <= |r.steps| && HasHeld(r, k, p, t, e) && less <= e
    ensures HasHeld(r, k, p, t, less)
  {
    var i: nat :| i <= k && Matches(r, i, p, t, e);
    ShorterPrefix(r.states[i].servers[p].log, TermsAt(r, i)[t].log, e, less);
    assert Matches(r, i, p, t, less);
  }

  /** What is committed is an entry of the committing server's own term, beyond what it had committed. */
  lemma CommitIsOfOwnTerm(r: Run, k: nat)
    requires IsRun(r) && k < |r.steps| && StepOk(r, k) && r.steps[k].Commit?
    ensures var s, n := r.steps[k].s, r.steps[k].index;
            var x, y := r.states[k].servers[s], r.states[k + 1].servers[s];
            && x.commitIndex < n < |x.log| && x.log[n].term == x.currentTerm
            && |Claimed(x.matchIndex, n)| > |x.matchIndex| / 2
            && y == x.(commitIndex := n)
  {
    CommittableIff(r.states[k].servers[r.steps[k].s], r.steps[k].index);
  }

  /**
   * In runs whose successes are handled in their terms, a leader commits only
   * what a majority of the servers has held, in its term and up to that index.
   */
  lemma CommitIsHeld(r: Run, k: nat)
    requires IsRun(r) && OneLeaderPerTerm(r) && Prompt(r)
    requires k < |r.steps| && StepOk(r, k) && r.steps[k].Commit? && r.states[k].servers[r.steps[k].s].role == Leader
    ensures var t := r.states[k].servers[r.steps[k].s].currentTerm;
            |HaveHeld(r, k, t, r.steps[k].index + 1)| > |r.states[k].servers| / 2
  {
    var s, n := r.steps[k].s, r.steps[k].index;
    var x := r.states[k].servers[s];
    SameServers(r, k);
    RunTrue(r, k, s);
    HoldersAreClaimed(x.matchIndex, n);
    forall p | p in Claimed(x.matchIndex, n)
      ensures p in HaveHeld(r, k, x.currentTerm, n + 1)
    {
      assert TrueOf(r, k, x, p);
      HeldLess(r, k, p, x.currentTerm, x.matchIndex[p] + 1, n + 1);
    }
    SubsetSize(Claimed(x.matchIndex, n), HaveHeld(r, k, x.currentTerm, n + 1));
  }
}
