/**
 * From a client's history to the entry list of the search
 * (labs/src/porcupine/checker.go:43-55, 87-114).
 */
module Entries {
  import opened Common
  import opened Sorting
  import opened Linearizability
  import opened EntryList
  import opened History

  datatype Operation<I, O> = Operation(clientId: int, input: I, call: int, output: O, ret: int)

  datatype Event<I, O> =
    | CallEvent(input: I, id: int, clientId: int)
    | ReturnEvent(output: O, id: int, clientId: int)

  // ---- lists of paired entries ----

  /** Every id below n has entries; of two entries of one id the first is the call and the second the return. */
  ghost predicate Paired<I, O>(h: seq<Entry<I, O>>, n: nat) {
    && (forall p :: 0 <= p < |h| ==> 0 <= h[p].id < n)
    && (forall p, q :: 0 <= p < q < |h| && h[p].id == h[q].id ==> h[p].Call? && h[q].Return?)
    && (forall i: nat :: i < n ==> HasPair(h, i))
  }

  ghost predicate HasPair<I, O>(h: seq<Entry<I, O>>, i: nat) {
    exists p, q :: IsPairOf(h, i, p, q)
  }

  ghost predicate IsPairOf<I, O>(h: seq<Entry<I, O>>, i: nat, p: nat, q: nat) {
    && p < |h| && h[p].Call? && h[p].id == i
    && q < |h| && h[q].Return? && h[q].id == i
  }

  ghost function OpAt<I, O>(h: seq<Entry<I, O>>, n: nat, i: nat): (o: Op<I, O>)
    requires Paired(h, n) && i < n
    ensures 0 <= o.call < o.ret < |h| && IsPairOf(h, i, o.call, o.ret)
    ensures h[o.call].input == o.input && h[o.ret].output == o.output
  {
    assert HasPair(h, i);
    var p: nat, q: nat :| IsPairOf(h, i, p, q);
    Op(h[p].input, h[q].output, p, q)
  }

  /** The positions of the calls and returns, one pair after the other. */
  ghost function PairPositions<I, O>(ops: seq<Op<I, O>>): seq<int> {
    seq(2 * |ops|, k requires 0 <= k < 2 * |ops| => if k % 2 == 0 then ops[k / 2].call else ops[k / 2].ret)
  }

  /** A pair position tells whose it is, and whether it is the call's. */
  lemma PairPosition<I, O>(h: seq<Entry<I, O>>, n: nat, ops: seq<Op<I, O>>, k: nat)
    requires Paired(h, n) && |ops| == n && k < 2 * n
    requires forall i :: 0 <= i < n ==> ops[i] == OpAt(h, n, i)
    ensures var p := PairPositions(ops)[k];
            0 <= p < |h| && h[p].id == k / 2 && (h[p].Call? <==> k % 2 == 0)
  {
    var o := OpAt(h, n, k / 2);
  }

  lemma PairedCount<I, O>(h: seq<Entry<I, O>>, n: nat, ops: seq<Op<I, O>>)
    requires Paired(h, n) && |ops| == n
    requires forall i :: 0 <= i < n ==> ops[i] == OpAt(h, n, i)
    ensures |h| == 2 * n
  {
    var ps := PairPositions(ops);
    forall j, k | 0 <= j < k < |ps|
      ensures ps[j] != ps[k]
    {
      PairPosition(h, n, ops, j);
      PairPosition(h, n, ops, k);
    }
    forall p: nat | p < |h|
      ensures p in ps
    {
      var o := OpAt(h, n, h[p].id);
      assert p == o.call || p == o.ret;
      assert ps[2 * h[p].id] == o.call && ps[2 * h[p].id + 1] == o.ret;
    }
    var qs: seq<nat> := ps;
    assert Elems(qs) == Below(|h|);
    DistinctSize(qs);
    BelowSize(|h|);
  }

  lemma PairedIsWellFormed<I(!new), O(!new)>(h: seq<Entry<I, O>>, n: nat)
    requires Paired(h, n)
    ensures WellFormed(h) && |OpsOf(h)| == n
  {
    var ops := seq(n, i requires 0 <= i < n => OpAt(h, n, i));
    PairedCount(h, n, ops);
    forall p | 0 <= p < |h|
      ensures p == if h[p].Call? then ops[h[p].id].call else ops[h[p].id].ret
    {
      var o := OpAt(h, n, h[p].id);
    }
    assert Describes(h, ops);
    DescribesUnique(h, ops, OpsOf(h));
  }

  // ---- timed operations ----

  ghost function TimedOp<I, O>(o: Operation<I, O>): Op<I, O> {
    Op(o.input, o.output, o.call, o.ret)
  }

  /** The operations of a history, with their clock times. */
  ghost function TimedOps<I, O>(history: seq<Operation<I, O>>): (ops: seq<Op<I, O>>)
    ensures |ops| == |history|
    ensures forall i :: 0 <= i < |ops| ==> ops[i] == TimedOp(history[i])
  {
    seq(|history|, i requires 0 <= i < |history| => TimedOp(history[i]))
  }

  /** Each operation takes time, and no operation is called at the very instant one returns. */
  ghost predicate ClearTimes<I, O>(history: seq<Operation<I, O>>) {
    && (forall i :: 0 <= i < |history| ==> history[i].call < history[i].ret)
    && (forall i, j :: 0 <= i < |history| && 0 <= j < |history| ==> history[i].call != history[j].ret)
  }

  function CallOf<I, O>(history: seq<Operation<I, O>>, i: nat): Entry<I, O>
    requires i < |history|
  {
    Call(history[i].input, i, history[i].call, history[i].clientId)
  }

  function ReturnOf<I, O>(history: seq<Operation<I, O>>, i: nat): Entry<I, O>
    requires i < |history|
  {
    Return(history[i].output, i, history[i].ret, history[i].clientId)
  }

  /** A call and a return for every operation, in the order of the history. */
  ghost function Unsorted<I, O>(history: seq<Operation<I, O>>): seq<Entry<I, O>> {
    seq(2 * |history|, k requires 0 <= k < 2 * |history| =>
      if k % 2 == 0 then CallOf(history, k / 2) else ReturnOf(history, k / 2))
  }

  predicate NotLater<I, O>(a: Entry<I, O>, b: Entry<I, O>) {
    a.time <= b.time
  }

  /** The entries of a history in time order; entries of the same time in any order. */
  ghost predicate EntriesOf<I, O>(history: seq<Operation<I, O>>, h: seq<Entry<I, O>>) {
    multiset(h) == multiset(Unsorted(history)) && Sorted(h, NotLater)
  }

  method MakeEntries<I(!new), O(!new)>(history: seq<Operation<I, O>>) returns (entries: seq<Entry<I, O>>)
    ensures EntriesOf(history, entries)
  {
    entries := [];
    var id := 0;
    while id < |history|
      invariant id <= |history| && |entries| == 2 * id
      invariant forall k :: 0 <= k < 2 * id ==> entries[k] == Unsorted(history)[k]
    {
      var elem := history[id];
      entries := entries + [Call(elem.input, id, elem.call, elem.clientId)];
      entries := entries + [Return(elem.output, id, elem.ret, elem.clientId)];
      id := id + 1;
    }
    assert entries == Unsorted(history);
    entries := Sort(entries, NotLater);
  }

  lemma EntryOrigin<I, O>(history: seq<Operation<I, O>>, h: seq<Entry<I, O>>)
    requires EntriesOf(history, h)
    ensures Distinct(h) && |h| == 2 * |history|
    ensures forall p :: 0 <= p < |h| ==>
      0 <= h[p].id < |history| && h[p] == if h[p].Call? then CallOf(history, h[p].id) else ReturnOf(history, h[p].id)
    ensures forall i :: 0 <= i < |history| ==> CallOf(history, i) in h && ReturnOf(history, i) in h
  {
    var u := Unsorted(history);
    PermutationDistinct(u, h);
    forall p | 0 <= p < |h|
      ensures 0 <= h[p].id < |history|
      ensures h[p] == if h[p].Call? then CallOf(history, h[p].id) else ReturnOf(history, h[p].id)
    {
      assert h[p] in u;
    }
    forall i | 0 <= i < |history|
      ensures CallOf(history, i) in h && ReturnOf(history, i) in h
    {
      assert u[2 * i] == CallOf(history, i) && u[2 * i + 1] == ReturnOf(history, i);
    }
  }

  lemma EntriesPaired<I, O>(history: seq<Operation<I, O>>, h: seq<Entry<I, O>>)
    requires EntriesOf(history, h) && ClearTimes(history)
    ensures Paired(h, |history|)
  {
    EntryOrigin(history, h);
    forall i: nat | i < |history|
      ensures HasPair(h, i)
    {
      var p :| 0 <= p < |h| && h[p] == CallOf(history, i);
      var q :| 0 <= q < |h| && h[q] == ReturnOf(history, i);
      assert IsPairOf(h, i, p, q);
    }
    forall p, q | 0 <= p < q < |h| && h[p].id == h[q].id
      ensures h[p].Call? && h[q].Return?
    {
      assert NotLater(h[p], h[q]);
      assert h[p] != h[q];
    }
  }

  // ---- only the real-time order matters ----

  ghost predicate SameOrder<I, O>(a: seq<Op<I, O>>, b: seq<Op<I, O>>) {
    && |a| == |b|
    && (forall i :: 0 <= i < |a| ==> a[i].input == b[i].input && a[i].output == b[i].output)
    && (forall i: nat, j: nat :: i < |a| && j < |a| ==> (Precedes(a, i, j) <==> Precedes(b, i, j)))
  }

  lemma {:induction false} SameAfter<S, I, O>(m: Model<S, I, O>, a: seq<Op<I, O>>, b: seq<Op<I, O>>, order: seq<nat>)
    requires SameOrder(a, b)
    ensures After(m, a, order) == After(m, b, order)
  {
    if order != [] {
      SameAfter(m, a, b, order[..|order| - 1]);
    }
  }

  lemma SameLinearizations<S, I, O>(m: Model<S, I, O>, a: seq<Op<I, O>>, b: seq<Op<I, O>>, order: seq<nat>)
    requires SameOrder(a, b)
    ensures Linearization(m, a, order) <==> Linearization(m, b, order)
  {
    SameAfter(m, a, b, order);
  }

  lemma SameVerdict<S, I, O>(m: Model<S, I, O>, a: seq<Op<I, O>>, b: seq<Op<I, O>>)
    requires SameOrder(a, b)
    ensures Linearizable(m, a) <==> Linearizable(m, b)
  {
    forall order: seq<nat>
      ensures Linearization(m, a, order) <==> Linearization(m, b, order)
    {
      SameLinearizations(m, a, b, order);
    }
  }

  /** Entries sorted by time order returns and calls as the clock does. */
  lemma SortedKeepsOrder<I, O>(history: seq<Operation<I, O>>, h: seq<Entry<I, O>>, a: seq<Op<I, O>>, i: nat, j: nat)
    requires EntriesOf(history, h) && ClearTimes(history) && Describes(h, a) && |a| == |history|
    requires i < |a| && j < |a|
    ensures a[i].input == history[i].input && a[i].output == history[i].output
    ensures Precedes(a, i, j) <==> Precedes(TimedOps(history), i, j)
  {
    EntryOrigin(history, h);
    var r, c := a[i].ret, a[j].call;
    assert h[r] == ReturnOf(history, i) && h[c] == CallOf(history, j);
    if r < c {
      assert NotLater(h[r], h[c]);
    } else {
      assert r != c && NotLater(h[c], h[r]);
    }
  }

  /** However ties are broken, the sorted entries have the real-time order of the clock. */
  lemma EntriesKeepOrder<I(!new), O(!new)>(history: seq<Operation<I, O>>, h: seq<Entry<I, O>>)
    requires EntriesOf(history, h) && ClearTimes(history)
    ensures WellFormed(h) && SameOrder(OpsOf(h), TimedOps(history))
  {
    EntriesPaired(history, h);
    PairedIsWellFormed(h, |history|);
    var a, b := OpsOf(h), TimedOps(history);
    forall i: nat, j: nat | i < |a| && j < |a|
      ensures Precedes(a, i, j) <==> Precedes(b, i, j)
    {
      SortedKeepsOrder(history, h, a, i, j);
    }
    forall i: nat | i < |a|
      ensures a[i].input == b[i].input && a[i].output == b[i].output
    {
      SortedKeepsOrder(history, h, a, i, i);
    }
  }

  /** Each entry carries value, client and clock time of its operation's call or return. */
  lemma EntriesCarry<I, O>(history: seq<Operation<I, O>>, h: seq<Entry<I, O>>, p: nat)
    requires EntriesOf(history, h) && p < |h|
    ensures 0 <= h[p].id < |history| && h[p].clientId == history[h[p].id].clientId
    ensures if h[p].Call? then h[p].input == history[h[p].id].input && h[p].time == history[h[p].id].call
            else h[p].output == history[h[p].id].output && h[p].time == history[h[p].id].ret
  {
    EntryOrigin(history, h);
  }

  /** Checking the entries is checking the history. */
  lemma EntriesVerdict<S, I(!new), O(!new)>(m: Model<S, I, O>, history: seq<Operation<I, O>>, h: seq<Entry<I, O>>)
    requires EntriesOf(history, h) && ClearTimes(history)
    ensures WellFormed(h)
    ensures Linearizable(m, OpsOf(h)) <==> Linearizable(m, TimedOps(history))
  {
    EntriesKeepOrder(history, h);
    SameVerdict(m, OpsOf(h), TimedOps(history));
  }

  /** However the sort breaks ties, the entries stand for the history. */
  ghost predicate SortIsSafe<I(!new), O(!new)>(history: seq<Operation<I, O>>) {
    forall h :: EntriesOf(history, h) ==> WellFormed(h) && SameOrder(OpsOf(h), TimedOps(history))
  }

  predicate ReturnsFirst<I, O>(a: Entry<I, O>, b: Entry<I, O>) {
    a.time < b.time || (a.time == b.time && (a.Return? || b.Call?))
  }

  /** Entries sorted with returns first on ties put every return no later than the calls of its time. */
  lemma TieGoesToReturn<I(!new), O(!new)>(history: seq<Operation<I, O>>, h: seq<Entry<I, O>>, i: nat, j: nat)
    requires EntriesOf(history, h) && Sorted(h, ReturnsFirst)
    requires WellFormed(h) && SameOrder(OpsOf(h), TimedOps(history))
    requires i < |history| && j < |history|
    ensures history[i].call == history[j].ret ==> Precedes(OpsOf(h), j, i)
    ensures history[i].call > history[j].ret ==> OpsOf(h)[j].ret < OpsOf(h)[i].call
  {
    EntryOrigin(history, h);
    var ops := OpsOf(h);
    var c, r := ops[i].call, ops[j].ret;
    assert h[c] == CallOf(history, i) && h[r] == ReturnOf(history, j);
    if c < r {
      assert ReturnsFirst(h[c], h[r]);
    }
  }

  lemma SafeSortIsClear<I(!new), O(!new)>(history: seq<Operation<I, O>>, h: seq<Entry<I, O>>)
    requires EntriesOf(history, h) && Sorted(h, ReturnsFirst)
    requires WellFormed(h) && SameOrder(OpsOf(h), TimedOps(history))
    ensures ClearTimes(history)
  {
    forall i, j | 0 <= i < |history| && 0 <= j < |history|
      ensures history[i].call != history[j].ret
    {
      TieGoesToReturn(history, h, i, j);
    }
    forall i | 0 <= i < |history|
      ensures history[i].call < history[i].ret
    {
      TieGoesToReturn(history, h, i, i);
    }
  }

  /** The sort is safe on exactly the histories with clear times. */
  lemma SortSafeIffClearTimes<I(!new), O(!new)>(history: seq<Operation<I, O>>)
    ensures SortIsSafe(history) <==> ClearTimes(history)
  {
    if ClearTimes(history) {
      forall h | EntriesOf(history, h)
        ensures WellFormed(h) && SameOrder(OpsOf(h), TimedOps(history))
      {
        EntriesKeepOrder(history, h);
      }
    }
    if SortIsSafe(history) {
      var h := Sort(Unsorted(history), ReturnsFirst);
      assert Sorted(h, NotLater);
      assert EntriesOf(history, h);
      SafeSortIsClear(history, h);
    }
  }

  // ---- events ----

  /** Of two events with one id the first is the call and the second the return, and no id occurs alone. */
  ghost predicate EventsPaired<I, O>(events: seq<Event<I, O>>) {
    && (forall p, q :: 0 <= p < q < |events| && events[p].id == events[q].id ==>
          events[p].CallEvent? && events[q].ReturnEvent?)
    && (forall p :: 0 <= p < |events| ==> HasPartner(events, p))
  }

  ghost predicate HasPartner<I, O>(events: seq<Event<I, O>>, p: nat)
    requires p < |events|
  {
    exists q :: 0 <= q < |events| && q != p && events[q].id == events[p].id
  }

  function WithId<I, O>(e: Event<I, O>, id: int): Event<I, O> {
    match e
    case CallEvent(v, _, c) => CallEvent(v, id, c)
    case ReturnEvent(v, _, c) => ReturnEvent(v, id, c)
  }

  /** The two events differ at most in their ids. */
  ghost predicate SameEvent<I, O>(a: Event<I, O>, b: Event<I, O>) {
    && a.clientId == b.clientId && (a.CallEvent? <==> b.CallEvent?)
    && (if a.CallEvent? then a.input == b.input else a.output == b.output)
  }

  /** The same events under new ids: one new id for one old id, and the new ids are 0, 1, ... as they first occur. */
  ghost predicate Renumbered<I, O>(events: seq<Event<I, O>>, r: seq<Event<I, O>>) {
    && |r| == |events|
    && (forall p :: 0 <= p < |events| ==> SameEvent(events[p], r[p]))
    && (forall p, q :: 0 <= p < |events| && 0 <= q < |events| ==>
          (r[p].id == r[q].id <==> events[p].id == events[q].id))
    && (exists n: nat :: IdsAreBelow(r, n))
    && InOrder(r)
  }

  /** An id above 0 occurs only after the id below it. */
  ghost predicate InOrder<I, O>(r: seq<Event<I, O>>) {
    forall p: nat {:trigger AfterLower(r, p)} :: p < |r| ==> AfterLower(r, p)
  }

  ghost predicate AfterLower<I, O>(r: seq<Event<I, O>>, p: nat)
    requires p < |r|
  {
    r[p].id > 0 ==> exists q :: 0 <= q < p && r[q].id == r[p].id - 1
  }

  ghost predicate IdsAreBelow<I, O>(r: seq<Event<I, O>>, n: nat) {
    && (forall p :: 0 <= p < |r| ==> 0 <= r[p].id < n)
    && (forall i :: 0 <= i < n ==> IdUsed(r, i))
  }

  ghost predicate IdUsed<I, O>(r: seq<Event<I, O>>, i: int) {
    exists p :: 0 <= p < |r| && r[p].id == i
  }

  lemma InOrderMore<I, O>(r: seq<Event<I, O>>, e: Event<I, O>, n: int)
    requires InOrder(r) && e.id < n && forall i :: 0 <= i < n - 1 ==> IdUsed(r, i)
    ensures InOrder(r + [e])
  {
    forall p: nat | p < |r| + 1
      ensures AfterLower(r + [e], p)
    {
      if p < |r| {
        assert AfterLower(r, p);
        if r[p].id > 0 {
          var q :| 0 <= q < p && r[q].id == r[p].id - 1;
          assert (r + [e])[q].id == r[p].id - 1;
        }
      } else if e.id > 0 {
        assert IdUsed(r, e.id - 1);
        var q :| 0 <= q < |r| && r[q].id == e.id - 1;
        assert (r + [e])[q].id == e.id - 1;
      }
    }
  }

  method Renumber<I(!new), O(!new)>(events: seq<Event<I, O>>) returns (r: seq<Event<I, O>>)
    ensures Renumbered(events, r)
  {
    r := [];
    var m: map<int, int> := map[];
    var id := 0;
    for k := 0 to |events|
      invariant |r| == k && 0 <= id
      invariant forall p :: 0 <= p < k ==> events[p].id in m && r[p] == WithId(events[p], m[events[p].id])
      invariant forall x :: x in m ==> 0 <= m[x] < id
      invariant forall x, y :: x in m && y in m && m[x] == m[y] ==> x == y
      invariant forall i :: 0 <= i < id ==> IdUsed(r, i)
      invariant InOrder(r)
    {
      ghost var r0 := r;
      var v := events[k];
      if v.id in m {
        r := r + [WithId(v, m[v.id])];
      } else {
        r := r + [WithId(v, id)];
        m := m[v.id := id];
        assert r[k].id == id;
        id := id + 1;
      }
      forall i | 0 <= i < id
        ensures IdUsed(r, i)
      {
        if IdUsed(r0, i) {
          var p :| 0 <= p < |r0| && r0[p].id == i;
          assert r[p].id == i;
        }
      }
      InOrderMore(r0, r[k], id);
    }
    assert IdsAreBelow(r, id);
  }

  /** The entry of an event: the same, with its index as time. */
  ghost predicate IsEntryOf<I, O>(e: Event<I, O>, index: int, entry: Entry<I, O>) {
    && entry.id == e.id && entry.clientId == e.clientId && entry.time == index
    && (entry.Call? <==> e.CallEvent?)
    && (if e.CallEvent? then entry.input == e.input else entry.output == e.output)
  }

  method ConvertEntries<I, O>(events: seq<Event<I, O>>) returns (entries: seq<Entry<I, O>>)
    ensures Converted(events, entries)
  {
    entries := [];
    for i := 0 to |events|
      invariant |entries| == i
      invariant forall p :: 0 <= p < i ==> IsEntryOf(events[p], p, entries[p])
    {
      var elem := events[i];
      if elem.ReturnEvent? {
        entries := entries + [Return(elem.output, elem.id, i, elem.clientId)];
      } else {
        entries := entries + [Call(elem.input, elem.id, i, elem.clientId)];
      }
    }
  }

  ghost predicate Converted<I, O>(r: seq<Event<I, O>>, h: seq<Entry<I, O>>) {
    |h| == |r| && forall p :: 0 <= p < |r| ==> IsEntryOf(r[p], p, h[p])
  }

  lemma EventEntriesPaired<I, O>(events: seq<Event<I, O>>, r: seq<Event<I, O>>, h: seq<Entry<I, O>>, n: nat)
    requires EventsPaired(events) && Renumbered(events, r) && Converted(r, h) && IdsAreBelow(r, n)
    ensures Paired(h, n)
  {
    forall i: nat | i < n
      ensures HasPair(h, i)
    {
      assert IdUsed(r, i);
      var p :| 0 <= p < |r| && r[p].id == i;
      assert HasPartner(events, p);
      var q :| 0 <= q < |events| && q != p && events[q].id == events[p].id;
      assert IsPairOf(h, i, if p < q then p else q, if p < q then q else p);
    }
    forall p, q | 0 <= p < q < |h| && h[p].id == h[q].id
      ensures h[p].Call? && h[q].Return?
    {
      assert r[p].id == r[q].id;
    }
  }

  /** A call and a later return with the same id; time is the position among the events. */
  ghost predicate IsEventOp<I, O>(events: seq<Event<I, O>>, o: Op<I, O>) {
    && 0 <= o.call < o.ret < |events| && events[o.call].id == events[o.ret].id
    && events[o.call].CallEvent? && events[o.call].input == o.input
    && events[o.ret].ReturnEvent? && events[o.ret].output == o.output
  }

  /** The operations of a history of events, each once, in any order. */
  ghost predicate OperationsOf<I(!new), O(!new)>(events: seq<Event<I, O>>, ops: seq<Op<I, O>>) {
    Distinct(ops) && forall o :: o in ops <==> IsEventOp(events, o)
  }

  /** Renumbered paired events make a well-formed entry list of the operations of the events. */
  lemma EventEntriesWellFormed<I(!new), O(!new)>(events: seq<Event<I, O>>, r: seq<Event<I, O>>, h: seq<Entry<I, O>>)
    requires EventsPaired(events) && Renumbered(events, r) && Converted(r, h)
    ensures WellFormed(h) && OperationsOf(events, OpsOf(h))
  {
    var n: nat :| IdsAreBelow(r, n);
    EventEntriesPaired(events, r, h, n);
    PairedIsWellFormed(h, n);
    forall o
      ensures o in OpsOf(h) <==> IsEventOp(events, o)
    {
      EventOpOfEntries(events, r, h, OpsOf(h), o);
    }
  }

  lemma EventOpOfEntries<I, O>(events: seq<Event<I, O>>, r: seq<Event<I, O>>, h: seq<Entry<I, O>>,
                               ops: seq<Op<I, O>>, o: Op<I, O>)
    requires Renumbered(events, r) && Converted(r, h) && Describes(h, ops)
    ensures o in ops <==> IsEventOp(events, o)
  {
    if IsEventOp(events, o) {
      assert r[o.call].id == r[o.ret].id;
      assert ops[h[o.call].id] == o;
    }
    if o in ops {
      var i :| 0 <= i < |ops| && ops[i] == o;
      assert r[o.call].id == i && r[o.ret].id == i;
    }
  }

  // ---- the order in which operations are listed does not matter ----

  lemma RenamedLinearization<S, I, O>(m: Model<S, I, O>, a: seq<Op<I, O>>, b: seq<Op<I, O>>, rename: seq<nat>,
                                      order: seq<nat>)
    requires Renames(a, b, rename) && Distinct(a) && |a| == |b| && Linearization(m, a, order)
    ensures Linearization(m, b, Renamed(order, rename))
  {
    RenamedAfter(m, a, b, rename, order);
    var r := Renamed(order, rename);
    forall i, j | 0 <= i < j < |r|
      ensures r[i] != r[j] && !Precedes(b, r[j], r[i])
    {
      assert !Precedes(a, order[j], order[i]);
      assert a[order[i]] != a[order[j]];
    }
  }

  lemma ListedIn<I, O>(a: seq<Op<I, O>>, b: seq<Op<I, O>>, i: nat) returns (j: nat)
    requires i < |a| && a[i] in b
    ensures j < |b| && b[j] == a[i]
  {
    j :| 0 <= j < |b| && b[j] == a[i];
  }

  lemma {:induction false} Listed<I, O>(a: seq<Op<I, O>>, b: seq<Op<I, O>>, n: nat) returns (rename: seq<nat>)
    requires n <= |a| && forall o :: o in a ==> o in b
    ensures Renames(a[..n], b, rename)
  {
    if n == 0 {
      return [];
    }
    rename := Listed(a, b, n - 1);
    var j := ListedIn(a, b, n - 1);
    rename := rename + [j];
  }

  /** The verdict depends on which operations there are, not on how they are listed. */
  lemma SameOperations<S, I, O>(m: Model<S, I, O>, a: seq<Op<I, O>>, b: seq<Op<I, O>>)
    requires Distinct(a) && Distinct(b) && forall o :: o in a <==> o in b
    ensures Linearizable(m, a) ==> Linearizable(m, b)
  {
    assert Elems(a) == Elems(b);
    DistinctSize(a);
    DistinctSize(b);
    if order :| Linearization(m, a, order) {
      var rename := Listed(a, b, |a|);
      assert a[..|a|] == a;
      RenamedLinearization(m, a, b, rename, order);
    }
  }

  /** Checking the entries is checking the events. */
  lemma EventEntriesVerdict<S, I(!new), O(!new)>(m: Model<S, I, O>, events: seq<Event<I, O>>, r: seq<Event<I, O>>,
                                                 h: seq<Entry<I, O>>, ops: seq<Op<I, O>>)
    requires EventsPaired(events) && Renumbered(events, r) && Converted(r, h) && OperationsOf(events, ops)
    ensures WellFormed(h)
    ensures Linearizable(m, OpsOf(h)) <==> Linearizable(m, ops)
  {
    EventEntriesWellFormed(events, r, h);
    assert forall o :: o in ops <==> IsEventOp(events, o);
    assert forall o :: o in OpsOf(h) <==> IsEventOp(events, o);
    SameOperations(m, ops, OpsOf(h));
    SameOperations(m, OpsOf(h), ops);
  }
}
