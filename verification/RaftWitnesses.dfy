/**
 * Runs of three servers in which replication goes wrong, each a run of the code
 * with one leader in each term. A candidate comes to power only after both other
 * servers heard of its term, and with the vote of one whose log is not ahead.
 */
module RaftWitnesses {
  import opened Common
  import opened RaftHandlers
  import opened RaftCluster
  import opened RaftRuns
  import opened RaftRollback
  import opened RaftCommit

  // ---- building runs ----

  /** Term t is led by leaders(t) alone. */
  ghost predicate LedBy(r: Run, leaders: nat -> nat)
    requires |r.steps| < |r.states|
  {
    forall k: nat, t {:trigger ActsIn(r, k, t)} :: k < |r.steps| && ActsIn(r, k, t) ==> r.steps[k].s == leaders(t)
  }

  /** The run ends in c, and term t was led by leaders(t) alone. */
  ghost predicate RunTo(r: Run, leaders: nat -> nat, c: Cluster) {
    IsRun(r) && LedBy(r, leaders) && r.states[|r.steps|] == c
  }

  lemma OneLeads(r: Run, leaders: nat -> nat, c: Cluster)
    requires RunTo(r, leaders, c)
    ensures IsRun(r) && OneLeaderPerTerm(r) && r.states[|r.steps|] == c
  {
  }

  /** The second run begins with the first. */
  ghost predicate Grows(r: Run, r': Run) {
    && |r.states| <= |r'.states| && |r.steps| <= |r'.steps|
    && (forall i :: 0 <= i < |r.states| ==> r'.states[i] == r.states[i])
    && (forall i :: 0 <= i < |r.steps| ==> r'.steps[i] == r.steps[i])
  }

  /** The run goes on with one step. */
  lemma Extend(r: Run, leaders: nat -> nat, c: Cluster, step: Step) returns (r': Run, c': Cluster)
    requires RunTo(r, leaders, c) && WellTyped(c) && Enabled(c, step)
    requires IsAct(step) ==> step.s == leaders(ActTerm(c, step))
    ensures c' == After(c, step) && RunTo(r', leaders, c')
    ensures r' == Run(r.states + [c'], r.steps + [step]) && Grows(r, r')
  {
    c' := After(c, step);
    r' := Run(r.states + [c'], r.steps + [step]);
    forall k: nat | k < |r'.steps|
      ensures StepOk(r', k)
    {
      assert k < |r.steps| ==> StepOk(r, k);
    }
    forall k: nat, t | k < |r'.steps| && ActsIn(r', k, t)
      ensures r'.steps[k].s == leaders(t)
    {
      assert k < |r.steps| ==> ActsIn(r, k, t);
    }
  }

  /** One of three servers, with nothing committed. */
  function Of3(role: Role, term: nat, log: Log, nextIndex: seq<nat>, matchIndex: seq<nat> := [0, 0, 0]): Server {
    Server(role, term, log, 0, nextIndex, matchIndex, term, log)
  }

  /** A follower that has never led. */
  function Plain(term: nat, log: Log): Server {
    Of3(Follower, term, log, [0, 0, 0])
  }

  lemma Start3(leaders: nat -> nat) returns (r: Run, c: Cluster)
    ensures RunTo(r, leaders, c) && c.servers == [Plain(0, [SENTINEL]), Plain(0, [SENTINEL]), Plain(0, [SENTINEL])]
  {
    var x := Plain(0, [SENTINEL]);
    assert Made(3, None) == x;
    c := Cluster([x, x, x], {}, {});
    r := Run([c], []);
  }

  /** Server s stands for election, the others hear of it, and it comes to power. */
  lemma Election(r: Run, leaders: nat -> nat, c: Cluster, s: nat, a: nat, b: nat) returns (r': Run, c': Cluster)
    requires RunTo(r, leaders, c) && WellTyped(c) && |c.servers| == 3
    requires s < 3 && a < 3 && b < 3 && s != a && s != b && a != b
    ensures RunTo(r', leaders, c') && Grows(r, r') && c'.requests == c.requests && c'.answers == c.answers
    ensures var t := c.servers[s].currentTerm + 1;
            && |c'.servers| == 3 && c'.servers[s] == OnLead(OnElection(c.servers[s]))
            && c'.servers[a] == SeeTerm(c.servers[a], t) && c'.servers[b] == SeeTerm(c.servers[b], t)
  {
    var t := c.servers[s].currentTerm + 1;
    r', c' := Extend(r, leaders, c, Elect(s));
    r', c' := Extend(r', leaders, c', HearTerm(a, t));
    r', c' := Extend(r', leaders, c', HearTerm(b, t));
    r', c' := Extend(r', leaders, c', Lead(s));
  }

  /** Leader s takes a command. */
  lemma Take(r: Run, leaders: nat -> nat, c: Cluster, s: nat, log: Log, entry: LogEntry)
    returns (r': Run, c': Cluster)
    requires RunTo(r, leaders, c) && WellTyped(c) && s < |c.servers| && c.servers[s].role == Leader
    requires c.servers[s].currentTerm == entry.term > 0 && leaders(entry.term) == s
    requires log == c.servers[s].log + [entry]
    ensures RunTo(r', leaders, c') && Grows(r, r') && c'.requests == c.requests && c'.answers == c.answers
    ensures c'.servers == c.servers[s := c.servers[s].(log := log, savedTerm := entry.term, savedLog := log)]
  {
    r', c' := Extend(r, leaders, c, Propose(s, entry.command));
  }

  /** What leader l sends from next index `next` on. */
  function Rest(x: Server, l: nat, next: nat): AppendArgs
    requires 0 < next < |x.log|
  {
    AppendArgs(x.currentTerm, l, next - 1, x.log[next - 1].term, x.log[next..], x.commitIndex)
  }

  /** A heartbeat of leader l tells it that follower f's log differs, so that it sends from index `next` on. */
  lemma FindOut(r: Run, leaders: nat -> nat, c: Cluster, l: nat, f: nat, next: nat) returns (r': Run, c': Cluster)
    requires RunTo(r, leaders, c) && WellTyped(c) && l < |c.servers| && f < |c.servers| && l != f
    requires var x, y := c.servers[l], c.servers[f];
             && x.role == Leader && x.currentTerm == y.currentTerm > 0 && leaders(x.currentTerm) == l
             && Probe(x.log, y.log, |x.log|) == Some(next)
    ensures RunTo(r', leaders, c') && Grows(r, r') && c.answers <= c'.answers
    ensures c'.servers == c.servers[l := c.servers[l].(nextIndex := c.servers[l].nextIndex[f := next])]
  {
    var x, y := c.servers[l], c.servers[f];
    var a := HeartbeatFrom(x, l);
    ProbeIsHandlers(x, y, l, f, a);
    r', c' := Extend(r, leaders, c, Heartbeat(l));
    r', c' := Extend(r', leaders, c', Deliver(f, a));
    assert c'.servers == c.servers;
    r', c' := Extend(r', leaders, c', DeliverAnswer(Answer(f, a, OnAppend(y, a).1)));
  }

  /** Leader l sends follower f its entries from the next index on, and f takes them over. */
  lemma Overwrite(r: Run, leaders: nat -> nat, c: Cluster, l: nat, f: nat, log: Log) returns (r': Run, c': Cluster)
    requires RunTo(r, leaders, c) && WellTyped(c) && l < |c.servers| && f < |c.servers|
    requires var x, y, next := c.servers[l], c.servers[f], c.servers[l].nextIndex[f];
             && x.role == Leader && x.currentTerm == y.currentTerm > 0 && leaders(x.currentTerm) == l
             && x.commitIndex == 0 && 0 < next < |x.log| && next <= |y.log|
             && y.log[next - 1].term == x.log[next - 1].term && Merge(y.log, next - 1, x.log[next..]) == log
    ensures RunTo(r', leaders, c') && Grows(r, r') && c.answers <= c'.answers
    ensures var x, y := c.servers[l], c.servers[f];
            && c'.servers == c.servers[f := y.(log := log, savedTerm := y.currentTerm, savedLog := log)]
            && Answer(f, Rest(x, l, x.nextIndex[f]), AppendReply(y.currentTerm, true, 0, 0, 0)) in c'.answers
  {
    var x := c.servers[l];
    r', c' := Extend(r, leaders, c, Replicate(l, f));
    r', c' := Extend(r', leaders, c', Deliver(f, Rest(x, l, x.nextIndex[f])));
  }

  lemma LeadOf3(x: Server)
    requires |x.nextIndex| == |x.matchIndex| == 3
    ensures OnLead(OnElection(x)) ==
            Server(Leader, x.currentTerm + 1, x.log, x.commitIndex, [|x.log|, |x.log|, |x.log|], [0, 0, 0],
                   x.currentTerm + 1, x.log)
  {
  }

  // ---- to 0 ----

  function Server0(t: nat): nat {
    0
  }

  /**
   * From the start to a panic: server 0 is elected and takes its first command,
   * server 1 rejects a heartbeat, and the leader's next round indexes its log at -1.
   */
  lemma HeartbeatLeadsToPanic(command: Command) returns (r: Run)
    ensures IsRun(r) && OneLeaderPerTerm(r)
    ensures var last := r.states[|r.steps|];
            |last.servers| == 3 && last.servers[0].role == Leader && Panics(last.servers[0])
  {
    var c;
    r, c := Start3(Server0);
    var v := Plain(1, [SENTINEL]);
    LeadOf3(c.servers[0]);
    r, c := Election(r, Server0, c, 0, 1, 2);
    assert c.servers == [Of3(Leader, 1, [SENTINEL], [1, 1, 1]), v, v];
    var x := Of3(Leader, 1, [SENTINEL, LogEntry(1, command)], [1, 1, 1]);
    r, c := Take(r, Server0, c, 0, x.log, LogEntry(1, command));
    assert c.servers == [x, v, v];
    r, c := FindOut(r, Server0, c, 0, 1, 0);
    assert c.servers[0].nextIndex[1] == 0;
    OneLeads(r, Server0, c);
  }

  // ---- a rejection two terms late ----

  /** The entries of terms 1, 2 and 3. */
  const E := LogEntry(1, NoCommand)
  const F := LogEntry(2, NoCommand)
  const G := LogEntry(3, NoCommand)

  /** Terms 1, 2 and 4 are led by server 1, terms 3 and 5 by server 0. */
  function InTurns(t: nat): nat {
    if t == 3 || t == 5 then 0 else 1
  }

  /** Two heartbeats of term 3: the first is accepted, the second rejected, and both answers arrive in term 5. */
  const FIRST := AppendArgs(3, 0, 0, 0, [], 0)
  const SECOND := AppendArgs(3, 0, 1, 3, [], 0)
  const YES := Answer(1, FIRST, AppendReply(3, true, 0, 0, 0))
  const NO := Answer(1, SECOND, AppendReply(3, false, 1, 1, 0))

  /** What server 1 holds from term 2 on. */
  const HELD := [SENTINEL, E, F, F]

  /** Server 1 takes a command in term 1, restarts, and takes two more in term 2. */
  lemma TwoTerms() returns (r: Run, c: Cluster)
    ensures RunTo(r, InTurns, c)
    ensures c.servers == [Plain(2, [SENTINEL]), Of3(Leader, 2, HELD, [2, 2, 2]), Plain(2, [SENTINEL])]
  {
    var v := Plain(1, [SENTINEL]);
    r, c := Start3(InTurns);
    LeadOf3(c.servers[1]);
    r, c := Election(r, InTurns, c, 1, 0, 2);
    assert c.servers == [v, Of3(Leader, 1, [SENTINEL], [1, 1, 1]), v];
    r, c := Take(r, InTurns, c, 1, [SENTINEL, E], E);
    assert c.servers == [v, Of3(Leader, 1, [SENTINEL, E], [1, 1, 1]), v];
    r, c := Extend(r, InTurns, c, Restart(1));
    assert c.servers == [v, Plain(1, [SENTINEL, E]), v];
    r, c := SecondTerm(r, c);
  }

  lemma SecondTerm(r: Run, c: Cluster) returns (r': Run, c': Cluster)
    requires RunTo(r, InTurns, c)
    requires c.servers == [Plain(1, [SENTINEL]), Plain(1, [SENTINEL, E]), Plain(1, [SENTINEL])]
    ensures RunTo(r', InTurns, c')
    ensures c'.servers == [Plain(2, [SENTINEL]), Of3(Leader, 2, HELD, [2, 2, 2]), Plain(2, [SENTINEL])]
  {
    var v := Plain(2, [SENTINEL]);
    LeadOf3(c.servers[1]);
    r', c' := Election(r, InTurns, c, 1, 0, 2);
    assert c'.servers == [v, Of3(Leader, 2, [SENTINEL, E], [2, 2, 2]), v];
    r', c' := Take(r', InTurns, c', 1, [SENTINEL, E, F], F);
    assert c'.servers == [v, Of3(Leader, 2, [SENTINEL, E, F], [2, 2, 2]), v];
    r', c' := Take(r', InTurns, c', 1, HELD, F);
    assert c'.servers == [v, Of3(Leader, 2, HELD, [2, 2, 2]), v];
  }

  /** Server 1 gave the rejection in step i, holding HELD. */
  ghost predicate GaveNo(r: Run, i: nat) {
    && i < |r.steps| < |r.states| && AnsweredAt(r, i, NO)
    && 1 < |r.states[i].servers| && r.states[i].servers[1].log == HELD
  }

  /** Server 0 leads term 3; server 1 accepts its first heartbeat. */
  lemma FirstAnswered() returns (r: Run, c: Cluster)
    ensures RunTo(r, InTurns, c) && YES in c.answers
    ensures c.servers ==
            [Of3(Leader, 3, [SENTINEL], [1, 1, 1]), Of3(Follower, 3, HELD, [2, 2, 2]), Plain(3, [SENTINEL])]
  {
    r, c := TwoTerms();
    var x, y, z := Of3(Leader, 3, [SENTINEL], [1, 1, 1]), Of3(Follower, 3, HELD, [2, 2, 2]), Plain(3, [SENTINEL]);
    LeadOf3(c.servers[0]);
    r, c := Election(r, InTurns, c, 0, 1, 2);
    assert c.servers == [x, y, z];
    r, c := Extend(r, InTurns, c, Heartbeat(0));
    r, c := Extend(r, InTurns, c, Deliver(1, FIRST));
    assert c.servers == [x, y, z];
  }

  /** Server 0 takes a command, and server 1 rejects its second heartbeat. */
  lemma BothAnswered() returns (r: Run, c: Cluster, i: nat)
    ensures RunTo(r, InTurns, c) && YES in c.answers && NO in c.answers && GaveNo(r, i)
    ensures c.servers ==
            [Of3(Leader, 3, [SENTINEL, G], [1, 1, 1]), Of3(Follower, 3, HELD, [2, 2, 2]), Plain(3, [SENTINEL])]
  {
    r, c := FirstAnswered();
    var x, y, z := Of3(Leader, 3, [SENTINEL, G], [1, 1, 1]), Of3(Follower, 3, HELD, [2, 2, 2]), Plain(3, [SENTINEL]);
    r, c := Take(r, InTurns, c, 0, [SENTINEL, G], G);
    assert c.servers == [x, y, z];
    r, c := Extend(r, InTurns, c, Heartbeat(0));
    assert RunStart(HELD, 1) == 1;
    i := |r.steps|;
    r, c := Extend(r, InTurns, c, Deliver(1, SECOND));
    assert c.servers == [x, y, z];
    assert StepOk(r, i);
  }

  lemma GaveNoStays(r: Run, r': Run, i: nat)
    requires GaveNo(r, i) && Grows(r, r') && |r'.steps| < |r'.states|
    ensures GaveNo(r', i)
  {
  }

  /** Server 1 leads term 4 and finds out that server 0 lacks its log. */
  lemma FoundOut() returns (r: Run, c: Cluster, i: nat)
    ensures RunTo(r, InTurns, c) && YES in c.answers && NO in c.answers && GaveNo(r, i)
    ensures c.servers ==
            [Of3(Follower, 4, [SENTINEL, G], [1, 1, 1]), Of3(Leader, 4, HELD, [1, 4, 4]), Plain(4, [SENTINEL])]
  {
    r, c, i := BothAnswered();
    var before := r;
    LeadOf3(c.servers[1]);
    r, c := Election(r, InTurns, c, 1, 0, 2);
    assert c.servers ==
           [Of3(Follower, 4, [SENTINEL, G], [1, 1, 1]), Of3(Leader, 4, HELD, [4, 4, 4]), Plain(4, [SENTINEL])];
    r, c := FindOut(r, InTurns, c, 1, 0, 1);
    assert [4, 4, 4][0 := 1] == [1, 4, 4];
    GaveNoStays(before, r, i);
  }

  /** Server 1 overwrites the log of server 0. */
  lemma Overwritten() returns (r: Run, c: Cluster, i: nat)
    ensures RunTo(r, InTurns, c) && YES in c.answers && NO in c.answers && GaveNo(r, i)
    ensures c.servers ==
            [Of3(Follower, 4, HELD, [1, 1, 1]), Of3(Leader, 4, HELD, [1, 4, 4]), Plain(4, [SENTINEL])]
  {
    var before;
    before, c, i := FoundOut();
    assert HELD[1..] == [E, F, F];
    MismatchUnique([SENTINEL, G], 0, [E, F, F], 0);
    r, c := Overwrite(before, InTurns, c, 1, 0, HELD);
    GaveNoStays(before, r, i);
  }

  /** Server 0 leads term 5, and learns that server 1 accepted its first heartbeat of term 3. */
  lemma LeadsAgain() returns (r: Run, c: Cluster, i: nat)
    ensures RunTo(r, InTurns, c) && NO in c.answers && GaveNo(r, i)
    ensures c.servers ==
            [Of3(Leader, 5, HELD, [4, 1, 4]), Of3(Follower, 5, HELD, [1, 4, 4]), Plain(5, [SENTINEL])]
  {
    r, c, i := Overwritten();
    var before := r;
    LeadOf3(c.servers[0]);
    r, c := Election(r, InTurns, c, 0, 1, 2);
    assert c.servers == [Of3(Leader, 5, HELD, [4, 4, 4]), Of3(Follower, 5, HELD, [1, 4, 4]), Plain(5, [SENTINEL])];
    r, c := Extend(r, InTurns, c, DeliverAnswer(YES));
    assert [4, 4, 4][1 := 1] == [4, 1, 4] && [0, 0, 0][1 := 0] == [0, 0, 0];
    GaveNoStays(before, r, i);
  }

  /**
   * A rejection of term 3 that arrives in term 5, when the leader's log has been
   * overwritten in between: it moves the next index forward, above PrevLogIndex,
   * and yet leaves it below an index through which the logs agree.
   */
  lemma LateRejectionMovesForward() returns (r: Run, i: nat)
    ensures IsRun(r) && OneLeaderPerTerm(r) && i < |r.steps| - 1
    ensures var k := |r.steps| - 1;
            && RejectedAt(r, k) && r.steps[k].answer == NO && AnsweredAt(r, i, NO) && |r.states[k].servers| == 3
            && r.states[k].servers[0].role == Leader && r.states[k].servers[0].nextIndex == [4, 1, 4]
            && |r.states[k + 1].servers| == 3 && r.states[k + 1].servers[0].nextIndex == [4, 2, 4]
            && NO.args.prevLogIndex == 1 && 1 < |r.states[i].servers|
            && AgreeThrough(r.states[k].servers[0].log, r.states[i].servers[1].log, 3)
  {
    var before, c;
    before, c, i := LeadsAgain();
    assert LastOfTerm(HELD[..2], 1) == 1 && LastOfTerm(HELD[..3], 1) == 1 by {
      assert HELD[..3][..2] == HELD[..2];
    }
    assert HELD[..4][..3] == HELD[..3] && HELD[..4] == HELD;
    assert [4, 1, 4][1 := 2] == [4, 2, 4];
    r, c := Extend(before, InTurns, c, DeliverAnswer(NO));
    OneLeads(r, InTurns, c);
    GaveNoStays(before, r, i);
    assert StepOk(r, |before.steps|);
  }

  // ---- a success two terms late ----

  /** Odd terms are led by server 0, even ones by server 2. */
  function OddEven(t: nat): nat {
    if t % 2 == 1 then 0 else 2
  }

  const H := LogEntry(5, NoCommand)
  const SHORT := [SENTINEL, E]
  const LONG := [SENTINEL, E, E, E]
  const CUT := [SENTINEL, E, F]

  /** In term 3 server 1 accepts all of LONG from server 0; the answer arrives in term 5. */
  const ACK := Answer(1, AppendArgs(3, 0, 0, 0, [E, E, E], 0), AppendReply(3, true, 0, 0, 0))

  /** Server 0 leads term 1, and its first entry reaches both other servers. */
  lemma Replicated() returns (r: Run, c: Cluster)
    ensures RunTo(r, OddEven, c)
    ensures c.servers == [Of3(Leader, 1, SHORT, [1, 1, 1]), Plain(1, SHORT), Plain(1, SHORT)]
  {
    var x, v := Of3(Leader, 1, SHORT, [1, 1, 1]), Plain(1, [SENTINEL]);
    r, c := Start3(OddEven);
    LeadOf3(c.servers[0]);
    r, c := Election(r, OddEven, c, 0, 1, 2);
    assert c.servers == [Of3(Leader, 1, [SENTINEL], [1, 1, 1]), v, v];
    r, c := Take(r, OddEven, c, 0, SHORT, E);
    assert c.servers == [x, v, v];
    assert SHORT[1..] == [E];
    MismatchUnique([SENTINEL], 0, [E], 0);
    r, c := Overwrite(r, OddEven, c, 0, 1, SHORT);
    assert c.servers == [x, Plain(1, SHORT), v];
    r, c := Overwrite(r, OddEven, c, 0, 2, SHORT);
  }

  /** Server 0 takes two more commands in term 1, and server 2 another in term 2. */
  lemma Divided() returns (r: Run, c: Cluster)
    ensures RunTo(r, OddEven, c)
    ensures c.servers == [Of3(Follower, 2, LONG, [1, 1, 1]), Plain(2, SHORT), Of3(Leader, 2, CUT, [2, 2, 2])]
  {
    r, c := Replicated();
    r, c := Take(r, OddEven, c, 0, [SENTINEL, E, E], E);
    assert c.servers == [Of3(Leader, 1, [SENTINEL, E, E], [1, 1, 1]), Plain(1, SHORT), Plain(1, SHORT)];
    r, c := Take(r, OddEven, c, 0, LONG, E);
    assert c.servers == [Of3(Leader, 1, LONG, [1, 1, 1]), Plain(1, SHORT), Plain(1, SHORT)];
    LeadOf3(c.servers[2]);
    r, c := Election(r, OddEven, c, 2, 0, 1);
    assert c.servers == [Of3(Follower, 2, LONG, [1, 1, 1]), Plain(2, SHORT), Of3(Leader, 2, SHORT, [2, 2, 2])];
    r, c := Take(r, OddEven, c, 2, CUT, F);
  }

  /** Server 0 leads term 3 and finds out that server 1 lacks its log. */
  lemma Behind() returns (r: Run, c: Cluster)
    ensures RunTo(r, OddEven, c)
    ensures c.servers == [Of3(Leader, 3, LONG, [4, 1, 4]), Plain(3, SHORT), Of3(Follower, 3, CUT, [2, 2, 2])]
  {
    r, c := Divided();
    LeadOf3(c.servers[0]);
    r, c := Election(r, OddEven, c, 0, 1, 2);
    assert c.servers == [Of3(Leader, 3, LONG, [4, 4, 4]), Plain(3, SHORT), Of3(Follower, 3, CUT, [2, 2, 2])];
    r, c := FindOut(r, OddEven, c, 0, 1, 1);
    assert [4, 4, 4][1 := 1] == [4, 1, 4];
  }

  /** Server 0 brings server 1 up to LONG. */
  lemma Acknowledged() returns (r: Run, c: Cluster)
    ensures RunTo(r, OddEven, c) && ACK in c.answers
    ensures c.servers == [Of3(Leader, 3, LONG, [4, 1, 4]), Plain(3, LONG), Of3(Follower, 3, CUT, [2, 2, 2])]
  {
    r, c := Behind();
    assert LONG[1..] == [E, E, E];
    MismatchUnique(SHORT, 0, [E, E, E], 1);
    assert SHORT[..2] + [E, E, E][1..] == LONG;
    r, c := Overwrite(r, OddEven, c, 0, 1, LONG);
  }

  /** Server 2 leads term 4 and cuts the log of server 0. */
  lemma Shortened() returns (r: Run, c: Cluster)
    ensures RunTo(r, OddEven, c) && ACK in c.answers
    ensures c.servers == [Of3(Follower, 4, CUT, [4, 1, 4]), Plain(4, LONG), Of3(Leader, 4, CUT, [2, 3, 3])]
  {
    r, c := Acknowledged();
    LeadOf3(c.servers[2]);
    r, c := Election(r, OddEven, c, 2, 0, 1);
    var x := Of3(Follower, 4, LONG, [4, 1, 4]);
    assert c.servers == [x, Plain(4, LONG), Of3(Leader, 4, CUT, [3, 3, 3])];
    assert RunStart(LONG, 2) == RunStart(LONG, 1) == 1;
    assert LastOfTerm(CUT, 1) == 1 by { assert CUT[..2] == SHORT && LastOfTerm(SHORT, 1) == 1; }
    r, c := FindOut(r, OddEven, c, 2, 0, 2);
    assert [3, 3, 3][0 := 2] == [2, 3, 3];
    assert c.servers == [x, Plain(4, LONG), Of3(Leader, 4, CUT, [2, 3, 3])];
    assert CUT[2..] == [F];
    MismatchUnique(LONG, 1, [F], 0);
    assert LONG[..2] + [F][0..] == CUT;
    r, c := Overwrite(r, OddEven, c, 2, 0, CUT);
  }

  /** Server 0 leads term 5, takes a command, and gets the answer of term 3. */
  lemma Misled() returns (r: Run, c: Cluster)
    ensures RunTo(r, OddEven, c)
    ensures c.servers == [Of3(Leader, 5, CUT + [H], [3, 4, 3], [0, 3, 0]), Plain(5, LONG),
                          Of3(Follower, 5, CUT, [2, 3, 3])]
  {
    r, c := Shortened();
    LeadOf3(c.servers[0]);
    r, c := Election(r, OddEven, c, 0, 1, 2);
    var z := Of3(Follower, 5, CUT, [2, 3, 3]);
    assert c.servers == [Of3(Leader, 5, CUT, [3, 3, 3]), Plain(5, LONG), z];
    r, c := Take(r, OddEven, c, 0, CUT + [H], H);
    assert c.servers == [Of3(Leader, 5, CUT + [H], [3, 3, 3]), Plain(5, LONG), z];
    r, c := Extend(r, OddEven, c, DeliverAnswer(ACK));
    assert [3, 3, 3][1 := 4] == [3, 4, 3] && [0, 0, 0][1 := 3] == [0, 3, 0];
  }

  /** Server 0 answers its own request. */
  lemma SelfAcknowledged() returns (r: Run, c: Cluster)
    ensures RunTo(r, OddEven, c)
    ensures c.servers == [Of3(Leader, 5, CUT + [H], [4, 4, 3], [3, 3, 0]), Plain(5, LONG),
                          Of3(Follower, 5, CUT, [2, 3, 3])]
  {
    r, c := Misled();
    var x := c.servers[0];
    assert x.log[3..] == [H];
    MismatchUnique(x.log, 2, [H], 1);
    r, c := Overwrite(r, OddEven, c, 0, 0, x.log);
    assert c.servers[0] == x;
    r, c := Extend(r, OddEven, c, DeliverAnswer(Answer(0, Rest(x, 0, 3), AppendReply(5, true, 0, 0, 0))));
    assert [3, 4, 3][0 := 4] == [4, 4, 3] && [0, 3, 0][0 := 3] == [3, 3, 0];
  }

  /**
   * A success of term 3 that arrives in term 5, when the leader's log has been
   * cut in between, and the leader commits an entry that nobody else has ever held.
   */
  lemma CommitWithoutMajority() returns (r: Run)
    ensures IsRun(r) && OneLeaderPerTerm(r) && |r.steps| > 0
    ensures var k := |r.steps| - 1;
            && StepOk(r, k) && r.steps[k] == Commit(0, 3) && |r.states[k].servers| == 3
            && r.states[k].servers[0].role == Leader && r.states[k].servers[0].currentTerm == 5
            && HaveHeld(r, k, 5, 4) <= {0}
  {
    var before, c := SelfAcknowledged();
    assert Holders([3, 3, 0], 3) == 2 by {
      assert [3, 3, 0][..2] == [3, 3] && [3, 3][..1] == [3] && Holders([3], 3) == 1 && Holders([3, 3], 3) == 2;
    }
    OneLeads(before, OddEven, c);
    forall p: nat | p < 3 && HasHeld(before, |before.steps|, p, 5, 4)
      ensures p == 0
    {
      NeverHeld(before, c, p);
    }
    var c';
    r, c' := Extend(before, OddEven, c, Commit(0, 3));
    OneLeads(r, OddEven, c');
    SameHeld(before, r, 5, 4);
    assert StepOk(r, |before.steps|);
  }

  lemma {:induction false} SameTerms(r: Run, r': Run, k: nat)
    requires IsRun(r) && IsRun(r') && Grows(r, r') && k <= |r.steps|
    ensures TermsAt(r', k) == TermsAt(r, k)
  {
    if k > 0 {
      SameTerms(r, r', k - 1);
      assert StepOk(r, k - 1) && StepOk(r', k - 1);
    }
  }

  /** What was held by the end of a run was held by then in a longer one. */
  lemma SameHeld(r: Run, r': Run, t: nat, e: nat)
    requires IsRun(r) && IsRun(r') && Grows(r, r')
    ensures forall p: nat :: HasHeld(r', |r.steps|, p, t, e) ==> HasHeld(r, |r.steps|, p, t, e)
  {
    forall p: nat | HasHeld(r', |r.steps|, p, t, e)
      ensures HasHeld(r, |r.steps|, p, t, e)
    {
      var i: nat :| i <= |r.steps| && Matches(r', i, p, t, e);
      SameTerms(r, r', i);
      assert Matches(r, i, p, t, e);
    }
  }

  /** The log of a term that has a leader is the log of that leader, while it is in the term. */
  lemma LogOfTerm(r: Run, leaders: nat -> nat, c: Cluster, t: nat)
    requires RunTo(r, leaders, c) && OneLeaderPerTerm(r) && t in TermsAt(r, |r.steps|)
    requires leaders(t) < |c.servers| && c.servers[leaders(t)].currentTerm == t
    ensures TermsAt(r, |r.steps|)[t].log == c.servers[leaders(t)].log
  {
    var k := |r.steps|;
    RunInv(r, k);
    assert LedBefore(r, k, t, TermsAt(r, k)[t].leader);
    assert TermOk(TermsAt(r, k), c.servers, t);
  }

  lemma NeverHeld(r: Run, c: Cluster, p: nat)
    requires RunTo(r, OddEven, c) && OneLeaderPerTerm(r) && HasHeld(r, |r.steps|, p, 5, 4) && p < 3
    requires c.servers == [Of3(Leader, 5, CUT + [H], [4, 4, 3], [3, 3, 0]), Plain(5, LONG),
                           Of3(Follower, 5, CUT, [2, 3, 3])]
    ensures p == 0
  {
    var k := |r.steps|;
    var i: nat :| i <= k && Matches(r, i, p, 5, 4);
    MatchStays(r, i, k, p, 5, 4);
    LogOfTerm(r, OddEven, c, 5);
    assert c.servers[p].log[..4][3] == (CUT + [H])[..4][3];
  }
}
