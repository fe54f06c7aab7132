/**
 * One Raft server's log replication (labs/src/raft/raft.go): the handlers as
 * methods of a class with the server's fields, each proved against a function
 * on values. Each handler is one atomic step. Votes are left out.
 */
module RaftHandlers {
  import opened Common

  datatype Command = NoCommand | Command(payload: string)
  datatype LogEntry = LogEntry(term: nat, command: Command)
  type Log = seq<LogEntry>

  /** Index 0 of every log. */
  const SENTINEL := LogEntry(0, NoCommand)

  datatype Role = Leader | Candidate | Follower

  datatype AppendArgs = AppendArgs(
    term: nat,
    leader: nat,
    prevLogIndex: nat,
    prevLogTerm: nat,
    entries: Log,
    leaderCommit: nat)

  datatype AppendReply = AppendReply(
    term: nat,
    success: bool,
    conflictTerm: nat,
    conflictIndex: nat,
    logLen: nat)

  /** A server's state; `savedTerm` and `savedLog` are what its persister holds. */
  datatype Server = Server(
    role: Role,
    currentTerm: nat,
    log: Log,
    commitIndex: nat,
    nextIndex: seq<nat>,
    matchIndex: seq<nat>,
    savedTerm: nat,
    savedLog: Log)

  // ---- the log of a follower ----

  /** The log holds entry k of those sent behind index prev, judged by its term. */
  predicate Held(log: Log, prev: nat, entries: Log, k: nat)
    requires k < |entries|
  {
    prev + 1 + k < |log| && entries[k].term == log[prev + 1 + k].term
  }

  /** The first of `entries` that the log does not hold behind index prev. */
  function Mismatch(log: Log, prev: nat, entries: Log): (i: nat)
    requires prev < |log|
    ensures i <= |entries| && prev + i < |log|
    ensures i < |entries| ==> !Held(log, prev, entries, i)
    ensures forall k: nat :: k < i ==> Held(log, prev, entries, k)
    decreases |entries|
  {
    if entries == [] || !Held(log, prev, entries, 0) then 0 else
    var i := Mismatch(log, prev + 1, entries[1..]);
    assert forall k: nat :: 0 < k < |entries| ==>
      (Held(log, prev, entries, k) <==> Held(log, prev + 1, entries[1..], k - 1));
    1 + i
  }

  lemma MismatchUnique(log: Log, prev: nat, entries: Log, i: nat)
    requires prev < |log| && i <= |entries|
    requires forall k: nat :: k < i ==> Held(log, prev, entries, k)
    requires i < |entries| ==> !Held(log, prev, entries, i)
    ensures Mismatch(log, prev, entries) == i
  {
  }

  /** The log after taking over entries behind index prev: cut at the first conflict, if any. */
  function Merge(log: Log, prev: nat, entries: Log): Log
    requires prev < |log|
  {
    var i := Mismatch(log, prev, entries);
    if i == |entries| then log else log[..prev + 1 + i] + entries[i..]
  }

  /** The first index of the run of equal terms that ends at p; 0 if it reaches the front. */
  function RunStart(log: Log, p: nat): (i: nat)
    requires p < |log|
    ensures i <= p
    ensures i > 0 ==> log[i - 1].term != log[p].term
    ensures forall k :: i <= k <= p ==> log[k].term == log[p].term
  {
    if p == 0 then 0
    else if log[p - 1].term != log[p].term then p
    else RunStart(log, p - 1)
  }

  /** The last index above 0 of an entry of the term; 0 when there is none. */
  function LastOfTerm(log: Log, term: nat): (i: nat)
    requires log != []
    ensures i < |log|
    ensures i > 0 ==> log[i].term == term
    ensures forall k :: i < k < |log| ==> log[k].term != term
  {
    if |log| == 1 then 0
    else if log[|log| - 1].term == term then |log| - 1
    else LastOfTerm(log[..|log| - 1], term)
  }

  function Min(x: nat, y: nat): nat {
    if x < y then x else y
  }

  /** Follow a higher term: it is persisted, and the server becomes a follower. */
  function SeeTerm(s: Server, term: nat): Server {
    if term > s.currentTerm then s.(currentTerm := term, role := Follower, savedTerm := term, savedLog := s.log) else s
  }

  /** What AppendEntries does to the server and what it answers. */
  function OnAppend(s: Server, a: AppendArgs): (Server, AppendReply)
    requires s.log != []
  {
    if a.term < s.currentTerm then
      (s, AppendReply(s.currentTerm, false, 0, 0, 0))
    else
      var t := SeeTerm(s, a.term);
      if |t.log| - 1 < a.prevLogIndex then
        (t, AppendReply(t.currentTerm, false, 0, 0, |t.log| - 1))
      else if t.log[a.prevLogIndex].term != a.prevLogTerm then
        (t, AppendReply(t.currentTerm, false, t.log[a.prevLogIndex].term, RunStart(t.log, a.prevLogIndex), 0))
      else if a.entries == [] then
        (t, AppendReply(t.currentTerm, true, 0, 0, 0))
      else
        var log := Merge(t.log, a.prevLogIndex, a.entries);
        var commit :=
          if a.leaderCommit > t.commitIndex then Min(a.leaderCommit, a.prevLogIndex + |a.entries|) else t.commitIndex;
        (t.(log := log, commitIndex := commit, savedTerm := t.currentTerm, savedLog := log),
         AppendReply(t.currentTerm, true, 0, 0, 0))
  }

  // ---- the leader ----

  /** Where to probe next after a rejection. */
  function RollBack(log: Log, r: AppendReply): nat
    requires log != []
  {
    if r.conflictIndex == 0 then r.logLen
    else if LastOfTerm(log, r.conflictTerm) > 0 then LastOfTerm(log, r.conflictTerm) + 1
    else r.conflictIndex
  }

  /** What the reply to an AppendEntries request does to the sender. */
  function OnAppendReply(s: Server, peer: nat, a: AppendArgs, r: AppendReply): Server
    requires s.log != [] && peer < |s.nextIndex| == |s.matchIndex|
  {
    if a.term != r.term then s
    else if r.term > s.currentTerm then SeeTerm(s, r.term)
    else if r.success then
      var matched := a.prevLogIndex + |a.entries|;
      s.(matchIndex := s.matchIndex[peer := matched], nextIndex := s.nextIndex[peer := matched + 1])
    else
      s.(nextIndex := s.nextIndex[peer := RollBack(s.log, r)])
  }

  /** The request the leader sends a peer that lacks entries. A next index of 0 makes the leader index its log at -1. */
  function AppendFor(s: Server, me: nat, peer: nat): Option<AppendArgs>
    requires s.log != [] && peer < |s.nextIndex|
    requires s.nextIndex[peer] > 0
  {
    var next := s.nextIndex[peer];
    if |s.log| - 1 >= next then
      Some(AppendArgs(s.currentTerm, me, next - 1, s.log[next - 1].term, s.log[next..], s.commitIndex))
    else None
  }

  function HeartbeatFrom(s: Server, me: nat): AppendArgs
    requires s.log != []
  {
    var last := |s.log| - 1;
    AppendArgs(s.currentTerm, me, last, s.log[last].term, [], s.commitIndex)
  }

  function OnLead(s: Server): Server {
    s.(role := Leader,
       nextIndex := seq(|s.nextIndex|, _ => |s.log|),
       matchIndex := seq(|s.matchIndex|, _ => 0))
  }

  function OnStart(s: Server, command: Command): Server {
    if s.role != Leader then s else
    var log := s.log + [LogEntry(s.currentTerm, command)];
    s.(log := log, savedTerm := s.currentTerm, savedLog := log)
  }

  function OnElection(s: Server): Server {
    s.(currentTerm := s.currentTerm + 1, role := Candidate, savedTerm := s.currentTerm + 1, savedLog := s.log)
  }

  /** A crash and restart: only what was persisted survives. */
  function OnRestart(s: Server): Server {
    Made(|s.nextIndex|, Some((s.savedTerm, s.savedLog)))
  }

  /** What Make sets up, from nothing or from what was persisted. */
  function Made(peers: nat, saved: Option<(nat, Log)>): Server {
    var (term, log) := if saved.Some? then saved.value else (0, [SENTINEL]);
    Server(Follower, term, log, 0, seq(peers, _ => 0), seq(peers, _ => 0), term, log)
  }

  /** The next round of the leader loop would index the log at -1. */
  predicate Panics(s: Server) {
    exists j :: 0 <= j < |s.nextIndex| && s.nextIndex[j] == 0 && |s.log| - 1 >= s.nextIndex[j]
  }

  /** How many peers are known to hold index n. */
  function Holders(matchIndex: seq<nat>, n: nat): nat {
    if matchIndex == [] then 0
    else Holders(matchIndex[..|matchIndex| - 1], n) + if matchIndex[|matchIndex| - 1] >= n then 1 else 0
  }

  /** The leader may commit index n: an entry of its own term that a majority holds. */
  predicate Committable(s: Server, n: nat) {
    && s.commitIndex < n < |s.log|
    && s.log[n].term == s.currentTerm
    && Holders(s.matchIndex, n) > |s.matchIndex| / 2
  }

  /** The servers to which matchIndex gives index n. */
  ghost function Claimed(matchIndex: seq<nat>, n: nat): set<nat> {
    set p | 0 <= p < |matchIndex| && matchIndex[p] >= n
  }

  lemma {:induction false} HoldersAreClaimed(matchIndex: seq<nat>, n: nat)
    ensures Holders(matchIndex, n) == |Claimed(matchIndex, n)|
  {
    if matchIndex != [] {
      var k := |matchIndex| - 1;
      HoldersAreClaimed(matchIndex[..k], n);
      var less := Claimed(matchIndex[..k], n);
      assert Claimed(matchIndex, n) == if matchIndex[k] >= n then less + {k} else less;
    }
  }

  // ---- what the handlers do, case by case ----

  /** A leader may commit exactly what is beyond its commit index, of its own term, and claimed by a majority. */
  lemma CommittableIff(s: Server, n: nat)
    ensures Committable(s, n) <==>
            && s.commitIndex < n < |s.log| && s.log[n].term == s.currentTerm
            && |Claimed(s.matchIndex, n)| > |s.matchIndex| / 2
  {
    HoldersAreClaimed(s.matchIndex, n);
  }

  /** AppendEntries follows a higher term; it accepts on a matching entry at PrevLogIndex, and else says what it has. */
  lemma AppendAnswers(x: Server, a: AppendArgs)
    requires x.log != []
    ensures var y, r := OnAppend(x, a).0, OnAppend(x, a).1;
            && r.term == y.currentTerm == (if a.term > x.currentTerm then a.term else x.currentTerm)
            && y.role == (if a.term > x.currentTerm then Follower else x.role)
            && y.nextIndex == x.nextIndex && y.matchIndex == x.matchIndex
            && (r.success <==> a.term >= x.currentTerm && a.prevLogIndex < |x.log|
                               && x.log[a.prevLogIndex].term == a.prevLogTerm)
            && (!r.success ==> y.log == x.log && y.commitIndex == x.commitIndex)
            && (a.term < x.currentTerm ==> y == x)
            && (r.success || a.term < x.currentTerm ==> r.conflictTerm == r.conflictIndex == r.logLen == 0)
    ensures var r := OnAppend(x, a).1;
            !r.success && a.term >= x.currentTerm ==>
              if a.prevLogIndex >= |x.log| then r.conflictTerm == r.conflictIndex == 0 && r.logLen == |x.log| - 1
              else r.conflictTerm == x.log[a.prevLogIndex].term && r.logLen == 0
                   && IsRunStart(x.log, a.prevLogIndex, r.conflictIndex)
  {
  }

  /** The entries from i through p have one term, and the entry before i, if any, has another. */
  ghost predicate IsRunStart(log: Log, p: nat, i: nat) {
    && i <= p < |log|
    && (i > 0 ==> log[i - 1].term != log[p].term)
    && forall k :: i <= k <= p ==> log[k].term == log[p].term
  }

  /** A success is noted in matchIndex and nextIndex, whatever the leader's log is by then, and nothing else changes. */
  lemma SuccessIsNoted(s: Server, peer: nat, a: AppendArgs, r: AppendReply)
    requires s.log != [] && peer < |s.nextIndex| == |s.matchIndex|
    requires r.success && a.term == r.term <= s.currentTerm
    ensures var y := OnAppendReply(s, peer, a, r);
            && y.matchIndex == s.matchIndex[peer := a.prevLogIndex + |a.entries|]
            && y.nextIndex == s.nextIndex[peer := a.prevLogIndex + |a.entries| + 1]
            && y == s.(matchIndex := y.matchIndex, nextIndex := y.nextIndex)
  {
  }

  /**
   * A rejection sets the peer's next index, and nothing else: to the end of a
   * log that is too short, else behind the leader's last entry of the
   * conflicting term, else, if it has none, to the conflict index. A reply of
   * another term than the request's is dropped, and a higher term is followed.
   */
  lemma RejectionIsNoted(s: Server, peer: nat, a: AppendArgs, r: AppendReply)
    requires s.log != [] && peer < |s.nextIndex| == |s.matchIndex|
    ensures a.term != r.term ==> OnAppendReply(s, peer, a, r) == s
    ensures a.term == r.term > s.currentTerm ==>
              OnAppendReply(s, peer, a, r) ==
              s.(currentTerm := r.term, role := Follower, savedTerm := r.term, savedLog := s.log)
    ensures !r.success && a.term == r.term <= s.currentTerm ==>
              var y := OnAppendReply(s, peer, a, r);
              var next := y.nextIndex[peer];
              && y == s.(nextIndex := s.nextIndex[peer := next])
              && (r.conflictIndex == 0 ==> next == r.logLen)
              && (r.conflictIndex > 0 ==> next == r.conflictIndex || IsBehindTerm(s.log, r.conflictTerm, next))
              && (r.conflictIndex > 0 && HasTerm(s.log, r.conflictTerm) ==> IsBehindTerm(s.log, r.conflictTerm, next))
  {
  }

  ghost predicate HasTerm(log: Log, term: nat) {
    exists i :: 0 < i < |log| && log[i].term == term
  }

  /** The entry before index i is the last one of the term. */
  ghost predicate IsBehindTerm(log: Log, term: nat, i: nat) {
    1 < i <= |log| && log[i - 1].term == term && forall k :: i <= k < |log| ==> log[k].term != term
  }

  /** A request for a peer with its next index in the log: all of the log from there on, with what precedes it. */
  ghost predicate IsRest(s: Server, me: nat, next: nat, a: AppendArgs) {
    && 0 < next < |s.log| && a.prevLogIndex == next - 1
    && s.log[..next] + a.entries == s.log && a.prevLogTerm == s.log[a.prevLogIndex].term
    && a.term == s.currentTerm && a.leader == me && a.leaderCommit == s.commitIndex
  }

  /** A peer gets a request exactly if its next index is in the log. */
  lemma SendsRest(s: Server, me: nat, peer: nat)
    requires s.log != [] && peer < |s.nextIndex| && s.nextIndex[peer] > 0
    ensures AppendFor(s, me, peer).Some? <==> s.nextIndex[peer] < |s.log|
    ensures forall a :: AppendFor(s, me, peer) == Some(a) <==> IsRest(s, me, s.nextIndex[peer], a)
  {
    var next := s.nextIndex[peer];
    forall a | IsRest(s, me, next, a)
      ensures AppendFor(s, me, peer) == Some(a)
    {
      assert a.entries == (s.log[..next] + a.entries)[next..];
    }
  }

  /** A heartbeat points at the end of the log and carries no entries. */
  lemma BeatsAtEnd(s: Server, me: nat)
    requires s.log != []
    ensures var a := HeartbeatFrom(s, me);
            && a.prevLogIndex + 1 == |s.log| && a.prevLogTerm == s.log[a.prevLogIndex].term && a.entries == []
            && a.term == s.currentTerm && a.leader == me && a.leaderCommit == s.commitIndex
  {
  }

  // ---- the same, as the server does it ----

  class Raft {
    var role: Role
    var currentTerm: nat
    var log: seq<LogEntry>
    var commitIndex: nat
    var nextIndex: seq<nat>
    var matchIndex: seq<nat>
    var savedTerm: nat
    var savedLog: seq<LogEntry>
    const me: nat

    ghost predicate Valid()
      reads this
    {
      log != [] && |nextIndex| == |matchIndex|
    }

    ghost function State(): Server
      reads this
    {
      Server(role, currentTerm, log, commitIndex, nextIndex, matchIndex, savedTerm, savedLog)
    }

    /** Make: with nothing persisted, a server starts from term 0 and the sentinel. */
    constructor (me: nat, peers: nat, saved: Option<(nat, Log)>)
      ensures State() == Made(peers, saved)
      ensures role == Follower && commitIndex == 0
      ensures currentTerm == savedTerm == (if saved.Some? then saved.value.0 else 0)
      ensures log == savedLog == (if saved.Some? then saved.value.1 else [SENTINEL])
      ensures |nextIndex| == |matchIndex| == peers && forall i :: 0 <= i < peers ==> nextIndex[i] == matchIndex[i] == 0
      ensures (saved.Some? ==> saved.value.1 != []) ==> Valid()
    {
      this.me := me;
      role, currentTerm, log, commitIndex := Follower, 0, [SENTINEL], 0;
      nextIndex, matchIndex := seq(peers, _ => 0), seq(peers, _ => 0);
      savedTerm, savedLog := 0, [SENTINEL];
      if saved.Some? {
        currentTerm, log := saved.value.0, saved.value.1;
        savedTerm, savedLog := saved.value.0, saved.value.1;
      }
    }

    method Persist()
      modifies this`savedTerm, this`savedLog
      ensures savedTerm == currentTerm && savedLog == log
    {
      savedTerm, savedLog := currentTerm, log;
    }

    /** Truncate at the first conflicting entry and append the rest. */
    method TakeEntries(prev: nat, entries: seq<LogEntry>)
      requires prev < |log|
      modifies this`log
      ensures log == Merge(old(log), prev, entries)
    {
      var conflictEntry := -1;
      var i := 0;
      while i < |entries|
        invariant 0 <= i <= |entries| && conflictEntry == -1 && log == old(log)
        invariant forall k: nat :: k < i ==> Held(log, prev, entries, k)
      {
        if |log| - 1 < prev + i + 1 || entries[i].term != log[prev + i + 1].term {
          MismatchUnique(log, prev, entries, i);
          log := log[..prev + i + 1];
          conflictEntry := i;
          break;
        }
        i := i + 1;
      }
      if conflictEntry == -1 {
        MismatchUnique(log, prev, entries, |entries|);
      } else {
        ghost var kept := log;
        i := conflictEntry;
        while i < |entries|
          invariant conflictEntry <= i <= |entries|
          invariant log == kept + entries[conflictEntry..i]
        {
          log := log + [entries[i]];
          i := i + 1;
        }
      }
    }

    /** The first index of the run of the conflicting term, or 0. */
    static method FindRunStart(log: seq<LogEntry>, prev: nat) returns (conflictIndex: nat)
      requires prev < |log|
      ensures conflictIndex == RunStart(log, prev)
    {
      conflictIndex := 0;
      var i := prev;
      while i > 0
        invariant 0 <= i <= prev && conflictIndex == 0
        invariant log[i].term == log[prev].term
        invariant RunStart(log, prev) == RunStart(log, i)
      {
        if log[i - 1].term != log[prev].term {
          return i;
        }
        i := i - 1;
      }
    }

    method FollowTerm(term: nat)
      requires Valid()
      modifies this
      ensures State() == SeeTerm(old(State()), term)
    {
      if term > currentTerm {
        currentTerm := term;
        role := Follower;
        Persist();
      }
    }

    /** The entries fit behind prevLogIndex: take them, persist, and follow the leader's commit. */
    method Accept(a: AppendArgs)
      requires a.prevLogIndex < |log|
      modifies this
      ensures log == Merge(old(log), a.prevLogIndex, a.entries)
      ensures commitIndex == if a.leaderCommit > old(commitIndex)
                             then Min(a.leaderCommit, a.prevLogIndex + |a.entries|) else old(commitIndex)
      ensures savedTerm == currentTerm && savedLog == log
      ensures unchanged(`role) && unchanged(`currentTerm) && unchanged(`nextIndex) && unchanged(`matchIndex)
    {
      TakeEntries(a.prevLogIndex, a.entries);
      Persist();
      if a.leaderCommit > commitIndex {
        commitIndex := Min(a.leaderCommit, a.prevLogIndex + |a.entries|);
      }
    }

    method AppendEntries(a: AppendArgs) returns (reply: AppendReply)
      requires Valid()
      modifies this
      ensures (State(), reply) == OnAppend(old(State()), a)
    {
      if a.term < currentTerm {
        return AppendReply(currentTerm, false, 0, 0, 0);
      }
      FollowTerm(a.term);
      if |log| - 1 < a.prevLogIndex {
        return AppendReply(currentTerm, false, 0, 0, |log| - 1);
      }
      if log[a.prevLogIndex].term != a.prevLogTerm {
        var conflictIndex := FindRunStart(log, a.prevLogIndex);
        return AppendReply(currentTerm, false, log[a.prevLogIndex].term, conflictIndex, 0);
      }
      reply := AppendReply(currentTerm, true, 0, 0, 0);
      if |a.entries| == 0 {
        return;
      }
      Accept(a);
    }

    method HandleAppendReply(peer: nat, a: AppendArgs, r: AppendReply)
      requires Valid() && peer < |nextIndex|
      modifies this
      ensures State() == OnAppendReply(old(State()), peer, a, r)
    {
      if a.term != r.term {
        return;
      }
      if r.term > currentTerm {
        currentTerm := r.term;
        Persist();
        role := Follower;
        return;
      }
      if r.success {
        matchIndex := matchIndex[peer := a.prevLogIndex + |a.entries|];
        nextIndex := nextIndex[peer := matchIndex[peer] + 1];
      } else if r.conflictIndex == 0 {
        nextIndex := nextIndex[peer := r.logLen];
      } else {
        var hasTerm := false;
        var i := |log| - 1;
        while i > 0
          invariant 0 <= i < |log| && !hasTerm && State() == old(State())
          invariant LastOfTerm(log, r.conflictTerm) == LastOfTerm(log[..i + 1], r.conflictTerm)
        {
          assert log[..i + 1][..i] == log[..i];
          if log[i].term == r.conflictTerm {
            hasTerm := true;
            nextIndex := nextIndex[peer := i + 1];
            break;
          }
          i := i - 1;
        }
        if !hasTerm {
          nextIndex := nextIndex[peer := r.conflictIndex];
        }
      }
    }

    /** Commit the highest index of the current term that matchIndex gives to a majority, if there is one. */
    method AdvanceCommit()
      requires Valid()
      modifies this`commitIndex
      ensures commitIndex != old(commitIndex) ==>
        && old(commitIndex) < commitIndex < |log| && log[commitIndex].term == currentTerm
        && |Claimed(matchIndex, commitIndex)| > |matchIndex| / 2
      ensures forall n: nat :: commitIndex < n < |log| && log[n].term == currentTerm ==>
        |Claimed(matchIndex, n)| <= |matchIndex| / 2
      ensures commitIndex == old(commitIndex) || Committable(old(State()), commitIndex)
    {
      var n := |log| - 1;
      while n > commitIndex
        invariant commitIndex == old(commitIndex) && n < |log|
        invariant forall k: nat :: n < k < |log| && log[k].term == currentTerm ==>
          |Claimed(matchIndex, k)| <= |matchIndex| / 2
      {
        if log[n].term == currentTerm {
          var matchNum := 0;
          for j := 0 to |matchIndex|
            invariant matchNum == Holders(matchIndex[..j], n)
          {
            assert matchIndex[..j + 1][..j] == matchIndex[..j];
            if matchIndex[j] >= n {
              matchNum := matchNum + 1;
            }
          }
          assert matchIndex[..|matchIndex|] == matchIndex;
          HoldersAreClaimed(matchIndex, n);
          if matchNum > |matchIndex| / 2 {
            commitIndex := n;
            return;
          }
        }
        n := n - 1;
      }
    }

    method Start(command: Command, killed: bool) returns (index: nat, term: nat, isLeader: bool)
      requires Valid()
      modifies this
      ensures State() == if killed then old(State()) else OnStart(old(State()), command)
      ensures isLeader <==> !killed && old(role) == Leader
      ensures term == old(currentTerm) && index == |old(log)|
      ensures log == (if isLeader then old(log) + [LogEntry(term, command)] else old(log))
      ensures isLeader ==> savedTerm == term && savedLog == log
      ensures unchanged(`role) && unchanged(`currentTerm) && unchanged(`commitIndex)
      ensures unchanged(`nextIndex) && unchanged(`matchIndex)
    {
      if killed || role != Leader {
        return |log|, currentTerm, false;
      }
      log := log + [LogEntry(currentTerm, command)];
      Persist();
      return |log| - 1, currentTerm, true;
    }

    /** Come to power: assume every peer has the whole log, and know of none that any matches. */
    method Lead()
      requires Valid()
      modifies this
      ensures Valid() && State() == OnLead(old(State()))
      ensures role == Leader && |nextIndex| == |old(nextIndex)|
      ensures forall i :: 0 <= i < |nextIndex| ==> nextIndex[i] == |log| && matchIndex[i] == 0
      ensures unchanged(`currentTerm) && unchanged(`log) && unchanged(`commitIndex)
      ensures unchanged(`savedTerm) && unchanged(`savedLog)
    {
      role := Leader;
      for i := 0 to |nextIndex|
        invariant Valid() && |nextIndex| == |old(nextIndex)| && |matchIndex| == |old(matchIndex)|
        invariant State() == old(State()).(role := Leader, nextIndex := nextIndex, matchIndex := matchIndex)
        invariant forall j :: 0 <= j < i ==> nextIndex[j] == |log| && matchIndex[j] == 0
      {
        nextIndex := nextIndex[i := |log|];
        matchIndex := matchIndex[i := 0];
      }
    }

    /** One round of the replication loop: the requests sent, peer by peer; a next index of 0 is a panic. */
    method Replicate() returns (panics: bool, sent: seq<(nat, AppendArgs)>)
      requires Valid()
      ensures panics <==> exists j :: 0 <= j < |nextIndex| && nextIndex[j] == 0
      ensures panics <==> Panics(State())
      ensures !panics ==> forall j, a :: (j, a) in sent <==>
        0 <= j < |nextIndex| && IsRest(State(), me, nextIndex[j], a)
    {
      sent := [];
      for j := 0 to |nextIndex|
        invariant forall k :: 0 <= k < j ==> nextIndex[k] > 0
        invariant forall k, a :: (k, a) in sent <==> 0 <= k < j && AppendFor(State(), me, k) == Some(a)
      {
        var index := nextIndex[j];
        if |log| - 1 >= index {
          if index == 0 {
            return true, [];
          }
          sent := sent + [(j, AppendArgs(currentTerm, me, index - 1, log[index - 1].term, log[index..], commitIndex))];
        }
      }
      panics := false;
      forall j, a | 0 <= j < |nextIndex|
        ensures AppendFor(State(), me, j) == Some(a) <==> IsRest(State(), me, nextIndex[j], a)
      {
        SendsRest(State(), me, j);
      }
    }
  }
}
