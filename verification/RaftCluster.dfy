/**
 * Log replication over whole runs. Servers exchange AppendEntries requests and
 * replies over a network that loses, repeats and reorders messages, and crash
 * and restart from what they persisted. Who leads is left open: any server may
 * become a leader at any time. The one hypothesis is that in each term at most
 * one server acts as leader, that is, sends AppendEntries or appends to its log.
 */
module RaftCluster {
  import opened Common
  import opened RaftHandlers

  /** The reply a server gave to a request. */
  datatype Answer = Answer(from: nat, args: AppendArgs, reply: AppendReply)

  /** All requests and answers ever sent stay deliverable. */
  datatype Cluster = Cluster(servers: seq<Server>, requests: set<AppendArgs>, answers: set<Answer>)

  datatype Step =
    | Elect(s: nat)
    | HearTerm(s: nat, term: nat)           // a vote request of a higher term
    | Lead(s: nat)
    | Propose(s: nat, command: Command)
    | Replicate(s: nat, peer: nat)
    | Heartbeat(s: nat)
    | Deliver(s: nat, args: AppendArgs)
    | DeliverAnswer(answer: Answer)
    | Commit(s: nat, index: nat)
    | Restart(s: nat)

  predicate ServerOk(x: Server, n: nat) {
    x.log != [] && |x.nextIndex| == n && |x.matchIndex| == n
  }

  predicate WellTyped(c: Cluster) {
    forall s :: 0 <= s < |c.servers| ==> ServerOk(c.servers[s], |c.servers|)
  }

  function InitServer(n: nat): Server {
    Made(n, None)
  }

  predicate Init(c: Cluster) {
    && (forall s :: 0 <= s < |c.servers| ==> c.servers[s] == InitServer(|c.servers|))
    && c.requests == {} && c.answers == {}
  }

  function Set(c: Cluster, s: nat, x: Server): Cluster
    requires s < |c.servers|
  {
    c.(servers := c.servers[s := x])
  }

  /** Whether a step may happen in a state. */
  predicate Enabled(c: Cluster, step: Step)
    requires WellTyped(c)
  {
    var n := |c.servers|;
    match step
    case Elect(s) => s < n
    case HearTerm(s, term) => s < n
    case Lead(s) => s < n && c.servers[s].currentTerm > 0
    case Propose(s, _) => s < n && c.servers[s].role == Leader && c.servers[s].currentTerm > 0
    case Replicate(s, peer) =>
      // the leader loop goes on until its server is a follower
      && s < n && peer < n && c.servers[s].role != Follower && c.servers[s].currentTerm > 0
      && c.servers[s].nextIndex[peer] > 0 && AppendFor(c.servers[s], s, peer).Some?
    case Heartbeat(s) => s < n && c.servers[s].role == Leader && c.servers[s].currentTerm > 0
    case Deliver(s, args) => s < n && args in c.requests
    case DeliverAnswer(a) => a in c.answers && a.from < n && a.args.leader < n
    case Commit(s, index) => s < n && c.servers[s].role != Follower && Committable(c.servers[s], index)
    case Restart(s) => s < n
  }

  function After(c: Cluster, step: Step): Cluster
    requires WellTyped(c) && Enabled(c, step)
  {
    match step
    case Elect(s) => Set(c, s, OnElection(c.servers[s]))
    case HearTerm(s, term) => Set(c, s, SeeTerm(c.servers[s], term))
    case Lead(s) => Set(c, s, OnLead(c.servers[s]))
    case Propose(s, command) => Set(c, s, OnStart(c.servers[s], command))
    case Replicate(s, peer) => c.(requests := c.requests + {AppendFor(c.servers[s], s, peer).value})
    case Heartbeat(s) => c.(requests := c.requests + {HeartbeatFrom(c.servers[s], s)})
    case Deliver(s, args) =>
      var r := OnAppend(c.servers[s], args);
      Set(c, s, r.0).(answers := c.answers + {Answer(s, args, r.1)})
    case DeliverAnswer(a) => Set(c, a.args.leader, OnAppendReply(c.servers[a.args.leader], a.from, a.args, a.reply))
    case Commit(s, index) => Set(c, s, c.servers[s].(commitIndex := index))
    case Restart(s) => Set(c, s, OnRestart(c.servers[s]))
  }

  /** The step is an act of leadership. */
  predicate IsAct(step: Step) {
    step.Propose? || step.Replicate? || step.Heartbeat?
  }

  // ---- logs per term ----

  /** Who led a term, and the log it has led with so far. */
  datatype Term = Term(leader: nat, log: Log)
  type Terms = map<nat, Term>

  /** The entry at index i fixes the whole log through i: it is the log of the entry's term. */
  ghost predicate EntryOk(terms: Terms, log: Log, i: nat)
    requires i < |log|
  {
    var t := log[i].term;
    t in terms && i < |terms[t].log| && log[..i + 1] == terms[t].log[..i + 1]
  }

  ghost predicate LogOk(terms: Terms, log: Log, bound: nat) {
    && log != [] && log[0] == SENTINEL
    && (forall i: nat {:trigger EntryOk(terms, log, i)} :: 0 < i < |log| ==> EntryOk(terms, log, i))
    && TermsRise(log)
    && (forall i :: 0 <= i < |log| ==> log[i].term <= bound)
  }

  /** Terms never fall along the log. */
  ghost predicate TermsRise(log: Log) {
    forall i: nat, j: nat {:trigger NotAbove(log, i, j)} :: i <= j < |log| ==> NotAbove(log, i, j)
  }

  ghost predicate NotAbove(log: Log, i: nat, j: nat)
    requires i < |log| && j < |log|
  {
    log[i].term <= log[j].term
  }

  ghost predicate RequestOk(terms: Terms, a: AppendArgs) {
    && a.term in terms && terms[a.term].leader == a.leader
    && var l := terms[a.term].log;
    && a.prevLogIndex + 1 + |a.entries| <= |l|
    && l[a.prevLogIndex].term == a.prevLogTerm
    && l[a.prevLogIndex + 1..a.prevLogIndex + 1 + |a.entries|] == a.entries
  }

  ghost predicate TermOk(terms: Terms, servers: seq<Server>, t: nat)
    requires t in terms
  {
    && t > 0 && LogOk(terms, terms[t].log, t)
    && terms[t].leader < |servers|
    && var x := servers[terms[t].leader];
    && x.currentTerm >= t
    && (x.currentTerm == t ==> x.log == terms[t].log)
  }

  ghost predicate PersistOk(x: Server) {
    x.savedTerm == x.currentTerm && x.savedLog == x.log
  }

  /** Server s: what its log is made of, and that the persister is up to date. */
  ghost predicate HoldsOk(c: Cluster, terms: Terms, s: nat)
    requires s < |c.servers|
  {
    LogOk(terms, c.servers[s].log, c.servers[s].currentTerm) && PersistOk(c.servers[s])
  }

  ghost predicate Inv(c: Cluster, terms: Terms) {
    && WellTyped(c)
    && (forall s: nat {:trigger HoldsOk(c, terms, s)} :: s < |c.servers| ==> HoldsOk(c, terms, s))
    && (forall t :: t in terms ==> TermOk(terms, c.servers, t))
    && (forall a :: a in c.requests ==> RequestOk(terms, a))
    && (forall a :: a in c.answers ==> a.args in c.requests)
  }

  /** Terms are added, and their logs grow. */
  ghost predicate Extends(terms: Terms, more: Terms) {
    forall t :: t in terms ==> t in more && more[t].leader == terms[t].leader && terms[t].log <= more[t].log
  }

  lemma LogOkMore(terms: Terms, more: Terms, log: Log, bound: nat)
    requires LogOk(terms, log, bound) && Extends(terms, more)
    ensures LogOk(more, log, bound)
  {
    forall i: nat | 0 < i < |log|
      ensures EntryOk(more, log, i)
    {
      assert EntryOk(terms, log, i);
      var t := log[i].term;
      assert more[t].log[..i + 1] == terms[t].log[..i + 1];
    }
  }

  lemma LogOkPrefix(terms: Terms, log: Log, bound: nat, k: nat)
    requires LogOk(terms, log, bound) && 0 < k <= |log|
    ensures LogOk(terms, log[..k], bound)
  {
    forall i: nat | 0 < i < k
      ensures EntryOk(terms, log[..k], i)
    {
      assert EntryOk(terms, log, i);
      assert log[..k][..i + 1] == log[..i + 1];
    }
    forall i: nat, j: nat | i <= j < k
      ensures NotAbove(log[..k], i, j)
    {
      assert NotAbove(log, i, j);
    }
  }

  /** Log matching for two logs: the same term at an index means the same log through it. */
  lemma SameTermSamePrefix(terms: Terms, a: Log, b: Log, ba: nat, bb: nat, i: nat)
    requires LogOk(terms, a, ba) && LogOk(terms, b, bb)
    requires i < |a| && i < |b| && a[i].term == b[i].term
    ensures a[..i + 1] == b[..i + 1]
  {
    if i == 0 {
      assert a[..1] == [SENTINEL] && b[..1] == [SENTINEL];
    } else {
      assert EntryOk(terms, a, i) && EntryOk(terms, b, i);
    }
  }

  // ---- merging ----

  /** Merging entries into log makes it agree with l through them; it stays as it is exactly if it did so before. */
  ghost predicate Merged(log: Log, l: Log, prev: nat, entries: Log)
    requires prev < |log|
  {
    var m, end := Merge(log, prev, entries), prev + 1 + |entries|;
    && end <= |m| && end <= |l| && m[..end] == l[..end]
    && (m == log || m == l[..end])
    && (m == log <==> end <= |log| && log[..end] == l[..end])
  }

  /** Behind a common prefix, the rest of a slice of l completes the prefix of l. */
  lemma SliceCompletes(log: Log, l: Log, prev: nat, entries: Log, i: nat)
    requires i <= |entries| && prev + 1 + i <= |log| && prev + 1 + |entries| <= |l|
    requires entries == l[prev + 1..prev + 1 + |entries|] && log[..prev + i + 1] == l[..prev + i + 1]
    ensures log[..prev + 1 + i] + entries[i..] == l[..prev + 1 + |entries|]
  {
  }

  /** Merging a slice of l into a log that agrees with l up to the first mismatch. */
  lemma MergeSlice(log: Log, l: Log, prev: nat, entries: Log)
    requires prev < |log| && prev + 1 + |entries| <= |l|
    requires entries == l[prev + 1..prev + 1 + |entries|]
    requires var i := Mismatch(log, prev, entries); log[..prev + i + 1] == l[..prev + i + 1]
    ensures Merged(log, l, prev, entries)
  {
    var i := Mismatch(log, prev, entries);
    var end := prev + 1 + |entries|;
    if i < |entries| {
      SliceCompletes(log, l, prev, entries, i);
      assert !Held(log, prev, entries, i) && l[prev + 1 + i] == entries[i];
      assert end <= |log| ==> log[..end][prev + 1 + i] != l[..end][prev + 1 + i];
    }
  }

  /** A request that passes the consistency check makes the follower agree with the sender through its last entry. */
  lemma MergeAgrees(terms: Terms, log: Log, bound: nat, a: AppendArgs)
    requires LogOk(terms, log, bound) && RequestOk(terms, a)
    requires LogOk(terms, terms[a.term].log, a.term)
    requires a.prevLogIndex < |log| && log[a.prevLogIndex].term == a.prevLogTerm
    ensures Merged(log, terms[a.term].log, a.prevLogIndex, a.entries)
  {
    var l := terms[a.term].log;
    var prev := a.prevLogIndex;
    var i := Mismatch(log, prev, a.entries);
    if i > 0 {
      assert Held(log, prev, a.entries, i - 1);
      assert a.entries[i - 1] == l[prev + i];
    }
    SameTermSamePrefix(terms, log, l, bound, a.term, prev + i);
    MergeSlice(log, l, prev, a.entries);
  }

  // ---- what every step keeps ----

  /** A step that changes one server, and its log only in a term it does not lead. */
  lemma LocalInv(c: Cluster, terms: Terms, s: nat, y: Server)
    requires Inv(c, terms) && s < |c.servers| && ServerOk(y, |c.servers|)
    requires LogOk(terms, y.log, y.currentTerm) && PersistOk(y) && y.currentTerm >= c.servers[s].currentTerm
    requires y.log != c.servers[s].log ==> y.currentTerm in terms && terms[y.currentTerm].leader != s
    ensures Inv(Set(c, s, y), terms)
  {
    var c' := Set(c, s, y);
    forall k: nat | k < |c.servers|
      ensures HoldsOk(c', terms, k)
    {
      assert HoldsOk(c, terms, k);
    }
    forall t | t in terms
      ensures TermOk(terms, c'.servers, t)
    {
      assert TermOk(terms, c.servers, t);
    }
  }

  /** A server that acts as leader in its term holds the log of that term. */
  lemma ActInv(c: Cluster, terms: Terms, s: nat)
    requires Inv(c, terms) && s < |c.servers|
    requires var t := c.servers[s].currentTerm; t > 0 && (t in terms ==> terms[t].leader == s)
    ensures var x := c.servers[s];
            var more := terms[x.currentTerm := Term(s, x.log)];
            Inv(c, more) && Extends(terms, more)
  {
    var x := c.servers[s];
    var t := x.currentTerm;
    var more := terms[t := Term(s, x.log)];
    if t in terms {
      assert TermOk(terms, c.servers, t);
      assert more == terms;
    } else {
      forall k: nat | k < |c.servers|
        ensures HoldsOk(c, more, k)
      {
        assert HoldsOk(c, terms, k);
        LogOkMore(terms, more, c.servers[k].log, c.servers[k].currentTerm);
      }
      forall u | u in more
        ensures TermOk(more, c.servers, u)
      {
        if u != t {
          assert TermOk(terms, c.servers, u);
          LogOkMore(terms, more, terms[u].log, u);
        } else {
          assert HoldsOk(c, more, s);
        }
      }
    }
  }

  lemma RequestMore(terms: Terms, more: Terms, a: AppendArgs)
    requires RequestOk(terms, a) && Extends(terms, more)
    ensures RequestOk(more, a)
  {
    var l, l' := terms[a.term].log, more[a.term].log;
    var end := a.prevLogIndex + 1 + |a.entries|;
    assert l'[..end] == l[..end];
    assert l'[a.prevLogIndex + 1..end] == l'[..end][a.prevLogIndex + 1..];
    assert l[a.prevLogIndex + 1..end] == l[..end][a.prevLogIndex + 1..];
    assert l'[a.prevLogIndex] == l[a.prevLogIndex];
  }

  lemma AppendedOk(terms: Terms, x: Server, s: nat, command: Command)
    requires LogOk(terms, x.log, x.currentTerm) && x.currentTerm > 0
    requires x.currentTerm in terms && terms[x.currentTerm] == Term(s, x.log)
    ensures var log := x.log + [LogEntry(x.currentTerm, command)];
            var more := terms[x.currentTerm := Term(s, log)];
            Extends(terms, more) && LogOk(more, log, x.currentTerm)
  {
    var log := x.log + [LogEntry(x.currentTerm, command)];
    var more := terms[x.currentTerm := Term(s, log)];
    LogOkMore(terms, more, x.log, x.currentTerm);
    forall i: nat | 0 < i < |log|
      ensures EntryOk(more, log, i)
    {
      if i < |x.log| {
        assert EntryOk(more, x.log, i);
        assert log[..i + 1] == x.log[..i + 1];
      }
    }
    forall i: nat, j: nat | i <= j < |log|
      ensures NotAbove(log, i, j)
    {
      if j < |x.log| { assert NotAbove(x.log, i, j); }
    }
  }

  lemma ProposeInv(c: Cluster, terms: Terms, s: nat, command: Command)
    requires Inv(c, terms) && Enabled(c, Propose(s, command))
    requires c.servers[s].currentTerm in terms && terms[c.servers[s].currentTerm] == Term(s, c.servers[s].log)
    ensures var y := OnStart(c.servers[s], command);
            var more := terms[y.currentTerm := Term(s, y.log)];
            Inv(After(c, Propose(s, command)), more) && Extends(terms, more)
  {
    var x := c.servers[s];
    var y := OnStart(x, command);
    var c' := Set(c, s, y);
    var more := terms[y.currentTerm := Term(s, y.log)];
    assert HoldsOk(c, terms, s);
    AppendedOk(terms, x, s, command);
    forall k: nat | k < |c.servers|
      ensures HoldsOk(c', more, k)
    {
      assert HoldsOk(c, terms, k);
      if k != s { LogOkMore(terms, more, c.servers[k].log, c.servers[k].currentTerm); }
    }
    forall u | u in more
      ensures TermOk(more, c'.servers, u)
    {
      if u != x.currentTerm {
        assert TermOk(terms, c.servers, u);
        LogOkMore(terms, more, terms[u].log, u);
      }
    }
    forall a | a in c.requests
      ensures RequestOk(more, a)
    {
      RequestMore(terms, more, a);
    }
  }

  lemma SendInv(c: Cluster, terms: Terms, s: nat, a: AppendArgs)
    requires Inv(c, terms) && s < |c.servers|
    requires var x := c.servers[s];
             && x.currentTerm in terms && terms[x.currentTerm] == Term(s, x.log)
             && a.term == x.currentTerm && a.leader == s && a.prevLogIndex < |x.log|
             && a.prevLogTerm == x.log[a.prevLogIndex].term
             && (a.entries == [] || a.entries == x.log[a.prevLogIndex + 1..])
    ensures Inv(c.(requests := c.requests + {a}), terms)
  {
    assert RequestOk(terms, a);
    var c' := c.(requests := c.requests + {a});
    forall k: nat | k < |c.servers|
      ensures HoldsOk(c', terms, k)
    {
      assert HoldsOk(c, terms, k);
    }
  }

  /** A log that a merge changed is a prefix of the sender's. */
  lemma ChangedLogOk(terms: Terms, x: Server, a: AppendArgs)
    requires LogOk(terms, x.log, x.currentTerm) && RequestOk(terms, a) && LogOk(terms, terms[a.term].log, a.term)
    requires a.prevLogIndex < |x.log| && x.log[a.prevLogIndex].term == a.prevLogTerm
    ensures var m := Merge(x.log, a.prevLogIndex, a.entries);
            m != x.log ==> LogOk(terms, m, a.term) && x.log != terms[a.term].log
  {
    MergeAgrees(terms, x.log, x.currentTerm, a);
    LogOkPrefix(terms, terms[a.term].log, a.term, a.prevLogIndex + 1 + |a.entries|);
  }

  lemma DeliverLog(terms: Terms, servers: seq<Server>, s: nat, a: AppendArgs)
    requires s < |servers| && servers[s].log != []
    requires LogOk(terms, servers[s].log, servers[s].currentTerm) && PersistOk(servers[s])
    requires RequestOk(terms, a) && TermOk(terms, servers, a.term)
    ensures var y := OnAppend(servers[s], a).0;
            && LogOk(terms, y.log, y.currentTerm) && PersistOk(y)
            && y.currentTerm >= servers[s].currentTerm
            && (y.log != servers[s].log ==> y.currentTerm == a.term && terms[a.term].leader != s)
  {
    var x := servers[s];
    if OnAppend(x, a).0.log != x.log {
      ChangedLogOk(terms, x, a);
    }
  }

  lemma AnswerInv(c: Cluster, terms: Terms, answer: Answer)
    requires Inv(c, terms) && answer.args in c.requests
    ensures Inv(c.(answers := c.answers + {answer}), terms)
  {
    var c' := c.(answers := c.answers + {answer});
    forall k: nat | k < |c.servers|
      ensures HoldsOk(c', terms, k)
    {
      assert HoldsOk(c, terms, k);
    }
  }

  lemma DeliverInv(c: Cluster, terms: Terms, s: nat, a: AppendArgs)
    requires Inv(c, terms) && Enabled(c, Deliver(s, a))
    ensures Inv(After(c, Deliver(s, a)), terms)
  {
    var r := OnAppend(c.servers[s], a);
    assert HoldsOk(c, terms, s);
    DeliverLog(terms, c.servers, s, a);
    LocalInv(c, terms, s, r.0);
    AnswerInv(Set(c, s, r.0), terms, Answer(s, a, r.1));
  }

  /** The term in which a step acts as leader. */
  function ActTerm(c: Cluster, step: Step): nat
    requires WellTyped(c) && Enabled(c, step) && IsAct(step)
  {
    c.servers[step.s].currentTerm
  }

  /** Steps that are no act of leadership leave the terms as they are. */
  lemma QuietInv(c: Cluster, terms: Terms, step: Step)
    requires Inv(c, terms) && Enabled(c, step) && !IsAct(step)
    ensures Inv(After(c, step), terms)
  {
    match step
    case Elect(s) => assert HoldsOk(c, terms, s); LocalInv(c, terms, s, OnElection(c.servers[s]));
    case HearTerm(s, term) => assert HoldsOk(c, terms, s); LocalInv(c, terms, s, SeeTerm(c.servers[s], term));
    case Lead(s) => assert HoldsOk(c, terms, s); LocalInv(c, terms, s, OnLead(c.servers[s]));
    case Restart(s) => assert HoldsOk(c, terms, s); LocalInv(c, terms, s, OnRestart(c.servers[s]));
    case Commit(s, index) => assert HoldsOk(c, terms, s); LocalInv(c, terms, s, c.servers[s].(commitIndex := index));
    case DeliverAnswer(a) =>
      assert HoldsOk(c, terms, a.args.leader);
      LocalInv(c, terms, a.args.leader, OnAppendReply(c.servers[a.args.leader], a.from, a.args, a.reply));
    case Deliver(s, a) => DeliverInv(c, terms, s, a);
  }

  /** The terms after a step: an act of leadership makes the server's log the log of its term. */
  function NextTerms(c: Cluster, terms: Terms, step: Step): Terms
    requires WellTyped(c) && Enabled(c, step)
  {
    if IsAct(step) then terms[ActTerm(c, step) := Term(step.s, After(c, step).servers[step.s].log)] else terms
  }

  lemma NextInv(c: Cluster, terms: Terms, step: Step)
    requires Inv(c, terms) && Enabled(c, step)
    requires IsAct(step) && ActTerm(c, step) in terms ==> terms[ActTerm(c, step)].leader == step.s
    ensures Inv(After(c, step), NextTerms(c, terms, step)) && Extends(terms, NextTerms(c, terms, step))
  {
    if !IsAct(step) {
      QuietInv(c, terms, step);
    } else {
      var s := step.s;
      var x := c.servers[s];
      ActInv(c, terms, s);
      var acted := terms[x.currentTerm := Term(s, x.log)];
      match step
      case Propose(_, command) =>
        ProposeInv(c, acted, s, command);
        assert NextTerms(c, terms, step) == acted[x.currentTerm := Term(s, OnStart(x, command).log)];
      case Replicate(_, peer) => SendInv(c, acted, s, AppendFor(x, s, peer).value);
      case Heartbeat(_) => SendInv(c, acted, s, HeartbeatFrom(x, s));
    }
  }

  // ---- single steps, for the theorems about runs ----

  lemma StepRaisesTerms(c: Cluster, terms: Terms, step: Step, s: nat)
    requires Inv(c, terms) && Enabled(c, step) && s < |c.servers|
    ensures s < |After(c, step).servers|
    ensures c.servers[s].currentTerm <= After(c, step).servers[s].currentTerm
  {
    assert HoldsOk(c, terms, s);
  }

  /**
   * From x to y, the server accepted request a, sent in state `sender`: its log
   * agrees with the sender's through the last entry sent, and is unchanged
   * exactly if it did so before. With entries it adopts a commit index of the
   * sender that is above its own, but no further than the entries go; so what
   * it newly commits, the sender had committed, and in the same log.
   */
  ghost predicate TookOver(x: Server, y: Server, a: AppendArgs, sender: Server) {
    var end := a.prevLogIndex + 1 + |a.entries|;
    && end <= |sender.log| && end <= |y.log| && y.log[..end] == sender.log[..end]
    && (y.log == x.log <==> end <= |x.log| && x.log[..end] == sender.log[..end])
    && y.commitIndex == (if a.entries != [] && sender.commitIndex > x.commitIndex
                         then Min(sender.commitIndex, end - 1) else x.commitIndex)
    && (y.commitIndex != x.commitIndex ==>
          && y.commitIndex <= sender.commitIndex && y.commitIndex < end
          && y.log[..y.commitIndex + 1] == sender.log[..y.commitIndex + 1])
  }

  /** The check of one entry's term tells exactly whether the whole log before it agrees with the sender's. */
  lemma AcceptedIffAgrees(terms: Terms, x: Server, a: AppendArgs, sender: Log)
    requires LogOk(terms, x.log, x.currentTerm) && RequestOk(terms, a) && LogOk(terms, terms[a.term].log, a.term)
    requires sender <= terms[a.term].log && a.prevLogIndex < |sender|
    ensures OnAppend(x, a).1.success <==>
            && a.term >= x.currentTerm && a.prevLogIndex < |x.log|
            && x.log[..a.prevLogIndex + 1] == sender[..a.prevLogIndex + 1]
    ensures !OnAppend(x, a).1.success ==> OnAppend(x, a).0.log == x.log && OnAppend(x, a).0.commitIndex == x.commitIndex
  {
    var prev, l := a.prevLogIndex, terms[a.term].log;
    assert sender[..prev + 1] == l[..prev + 1];
    if prev < |x.log| {
      if x.log[prev].term == a.prevLogTerm {
        SameTermSamePrefix(terms, x.log, l, x.currentTerm, a.term, prev);
      } else {
        assert x.log[..prev + 1][prev] != l[..prev + 1][prev];
      }
    }
  }

  /** What an accepted request does to log and commit index. */
  ghost predicate Effect(x: Server, y: Server, a: AppendArgs) {
    && a.prevLogIndex < |x.log| && y.log == Merge(x.log, a.prevLogIndex, a.entries)
    && y.commitIndex == (if a.entries != [] && a.leaderCommit > x.commitIndex
                         then Min(a.leaderCommit, a.prevLogIndex + |a.entries|) else x.commitIndex)
  }

  lemma AcceptedEffect(x: Server, a: AppendArgs)
    requires x.log != [] && OnAppend(x, a).1.success
    ensures Effect(x, OnAppend(x, a).0, a)
  {
  }

  lemma ShorterPrefix(a: Log, b: Log, end: nat, e: nat)
    requires e <= end <= |a| && end <= |b| && a[..end] == b[..end]
    ensures a[..e] == b[..e]
  {
    assert a[..e] == a[..end][..e] && b[..e] == b[..end][..e];
  }

  /** An accepted request has the effect described, once merging its entries has. */
  lemma MergedIsTaken(x: Server, y: Server, a: AppendArgs, l: Log, sender: Server)
    requires Effect(x, y, a) && Merged(x.log, l, a.prevLogIndex, a.entries)
    requires sender.log <= l && a.prevLogIndex + 1 + |a.entries| <= |sender.log|
    requires a.leaderCommit == sender.commitIndex
    ensures TookOver(x, y, a, sender)
  {
    var end := a.prevLogIndex + 1 + |a.entries|;
    ShorterPrefix(sender.log, l, |sender.log|, end);
    if y.commitIndex != x.commitIndex {
      ShorterPrefix(y.log, sender.log, end, y.commitIndex + 1);
    }
  }

  lemma AcceptedRequest(terms: Terms, x: Server, a: AppendArgs, sender: Server)
    requires LogOk(terms, x.log, x.currentTerm) && RequestOk(terms, a) && LogOk(terms, terms[a.term].log, a.term)
    requires OnAppend(x, a).1.success
    requires sender.log <= terms[a.term].log && a.prevLogIndex + 1 + |a.entries| <= |sender.log|
    requires a.leaderCommit == sender.commitIndex
    ensures TookOver(x, OnAppend(x, a).0, a, sender)
  {
    MergeAgrees(terms, x.log, x.currentTerm, a);
    AcceptedEffect(x, a);
    MergedIsTaken(x, OnAppend(x, a).0, a, terms[a.term].log, sender);
  }

  /** Merging a request of l's term keeps what the log already shares with l. */
  lemma MergeKeepsMatch(log: Log, l: Log, prev: nat, entries: Log, e: nat)
    requires prev < |log| && Merged(log, l, prev, entries)
    requires e <= |log| && e <= |l| && log[..e] == l[..e]
    ensures var m := Merge(log, prev, entries); e <= |m| && m[..e] == l[..e]
  {
    var end := prev + 1 + |entries|;
    if end <= e {
      ShorterPrefix(log, l, e, end);
    }
  }

  /** While server s stays in term t, it keeps the first e entries of the term's log. */
  lemma StepKeepsMatch(c: Cluster, terms: Terms, step: Step, s: nat, t: nat, e: nat)
    requires Inv(c, terms) && Enabled(c, step) && s < |c.servers|
    requires c.servers[s].currentTerm == t && t in terms && e <= |terms[t].log| && e <= |c.servers[s].log|
    requires c.servers[s].log[..e] == terms[t].log[..e]
    requires After(c, step).servers[s].currentTerm == t
    ensures var y := After(c, step).servers[s];
            e <= |y.log| && y.log[..e] == terms[t].log[..e]
  {
    var x := c.servers[s];
    assert HoldsOk(c, terms, s);
    match step
    case Propose(_, _) =>
      assert After(c, step).servers[s].log[..e] == x.log[..e];
    case Deliver(k, a) =>
      if k == s {
        assert RequestOk(terms, a) && TermOk(terms, c.servers, a.term);
        AppendKeepsMatch(terms, x, a, e);
      }
    case _ =>
  }

  lemma AppendKeepsMatch(terms: Terms, x: Server, a: AppendArgs, e: nat)
    requires LogOk(terms, x.log, x.currentTerm) && RequestOk(terms, a) && LogOk(terms, terms[a.term].log, a.term)
    requires x.currentTerm in terms && e <= |terms[x.currentTerm].log| && e <= |x.log|
    requires x.log[..e] == terms[x.currentTerm].log[..e]
    requires OnAppend(x, a).0.currentTerm == x.currentTerm
    ensures var y := OnAppend(x, a).0;
            e <= |y.log| && y.log[..e] == terms[x.currentTerm].log[..e]
  {
    if OnAppend(x, a).0.log != x.log {
      MergeAgrees(terms, x.log, x.currentTerm, a);
      MergeKeepsMatch(x.log, terms[a.term].log, a.prevLogIndex, a.entries, e);
    }
  }
}
