/**
 * checkSingle (labs/src/porcupine/checker.go:174-248): the backtracking search
 * over the linked entry list, with its call stack, bit set and memo table.
 */
module Checker {
  import opened Common
  import opened Linearizability
  import opened Bitset
  import opened EntryList
  import opened History
  import opened SearchCache
  import opened Search

  /** A list of operation ids behind a pointer: several operations may share one. */
  class Ids {
    const ids: seq<nat>
    constructor (ids: seq<nat>)
      ensures this.ids == ids
    {
      this.ids := ids;
    }
  }

  datatype CallsEntry<S, I, O> = CallsEntry(entry: Node<I, O>, state: S)

  ghost function View(longest: seq<Ids?>): Longest {
    seq(|longest|, j requires 0 <= j < |longest| => if longest[j] == null then None else Some(longest[j].ids))
  }

  /** Each operation some partial linearization contains has a longest such recorded, and no other has any. */
  ghost predicate Optimal<S, I, O>(m: Model<S, I, O>, ops: seq<Op<I, O>>, longest: Longest) {
    && LongestOk(m, ops, longest)
    && forall order, j :: Partial(m, ops, order) && j in order && 0 <= j < |longest| ==>
         longest[j].Some? && |order| <= |longest[j].value|
  }

  // ---- nodes and operations ----

  /** The nodes carry the operations: values, ids, and calls pointing at their returns. */
  ghost predicate NodesMatch<I, O>(nodes: seq<Node<I, O>>, h: seq<Entry<I, O>>, ops: seq<Op<I, O>>) {
    && Describes(h, ops)
    && |nodes| == |h| + 1
    && Distinct(nodes)
    && forall i: nat :: i < |ops| ==> PairMatches(nodes, h, ops, i)
  }

  ghost predicate PairMatches<I, O>(nodes: seq<Node<I, O>>, h: seq<Entry<I, O>>, ops: seq<Op<I, O>>, i: nat)
    requires i < |ops| && |nodes| == |h| + 1
  {
    && 0 < CallPos(ops, i) < ReturnPos(ops, i) < |nodes|
    && var call, ret := nodes[CallPos(ops, i)], nodes[ReturnPos(ops, i)];
    && call.matching == ret && call.value == Input(ops[i].input) && call.id == i
    && ret.matching == null && ret.value == Output(ops[i].output) && ret.id == i
  }

  lemma NodesOfMatch<I, O>(nodes: seq<Node<I, O>>, h: seq<Entry<I, O>>, ops: seq<Op<I, O>>)
    requires Describes(h, ops) && |nodes| == |h| + 1 && Distinct(nodes)
    requires NodesOf(nodes[1..], 0, h)
    ensures NodesMatch(nodes, h, ops)
  {
    forall i: nat | i < |ops|
      ensures PairMatches(nodes, h, ops, i)
    {
      var l := nodes[1..];
      assert NodeOf(l, 0, h, ops[i].call) && NodeOf(l, 0, h, ops[i].ret);
      var q := ReturnAfter(h, i, ops[i].call + 1);
      assert q == ops[i].ret by {
        assert q <= ops[i].ret;
        assert h[q].Return? && h[q].id == i;
      }
    }
  }

  lemma LiveNotLinearized<I, O>(h: seq<Entry<I, O>>, order: seq<nat>, cursor: nat)
    requires 0 < cursor <= |h| && cursor in LiveAt(h, order) && h[cursor - 1].id >= 0
    ensures (h[cursor - 1].id as nat) !in order
  {
    assert !Gone(h, Elems(order), cursor);
  }

  /** What stands under the cursor: a call with a match, or a return without. */
  lemma NodeAtCursor<I, O>(nodes: seq<Node<I, O>>, h: seq<Entry<I, O>>, ops: seq<Op<I, O>>, cursor: nat)
    requires NodesMatch(nodes, h, ops) && 0 < cursor <= |h|
    ensures var i := h[cursor - 1].id;
            && 0 <= i < |ops| && nodes[cursor].id == i
            && (nodes[cursor].matching != null <==> h[cursor - 1].Call?)
            && cursor == (if h[cursor - 1].Call? then CallPos(ops, i) else ReturnPos(ops, i))
            && PairMatches(nodes, h, ops, i)
  {
    assert PairMatches(nodes, h, ops, h[cursor - 1].id);
  }

  /** The nodes of a lifted operation are not in the list. */
  lemma LiftedNotLive<I, O>(nodes: seq<Node<I, O>>, h: seq<Entry<I, O>>, ops: seq<Op<I, O>>, order: seq<nat>, j: nat)
    requires NodesMatch(nodes, h, ops) && IdsOf(ops, order) && j in order
    ensures PairMatches(nodes, h, ops, j)
    ensures nodes[CallPos(ops, j)] !in LiveNodes(nodes, LiveAt(h, order))
    ensures nodes[ReturnPos(ops, j)] !in LiveNodes(nodes, LiveAt(h, order))
  {
    assert PairMatches(nodes, h, ops, j);
    assert Gone(h, Elems(order), CallPos(ops, j)) && Gone(h, Elems(order), ReturnPos(ops, j));
    NotAmongLive(nodes, LiveAt(h, order), CallPos(ops, j));
    NotAmongLive(nodes, LiveAt(h, order), ReturnPos(ops, j));
  }

  // ---- the list while calls are lifted ----

  ghost function LiveAt<I, O>(h: seq<Entry<I, O>>, order: seq<nat>): set<nat> {
    Live(h, Elems(order))
  }

  ghost predicate LevelSaved<I, O>(nodes: seq<Node<I, O>>, h: seq<Entry<I, O>>, ops: seq<Op<I, O>>, order: seq<nat>,
                                   d: nat)
    requires NodesMatch(nodes, h, ops) && IdsOf(ops, order) && d < |order|
    reads nodes
  {
    Saved(nodes, LiveAt(h, order[..d]), CallPos(ops, order[d]), ReturnPos(ops, order[d]))
  }

  /** The list is the history without the linearized operations, and every lifted pair can be put back. */
  ghost predicate ListOk<I, O>(nodes: seq<Node<I, O>>, h: seq<Entry<I, O>>, ops: seq<Op<I, O>>, order: seq<nat>)
    requires NodesMatch(nodes, h, ops) && IdsOf(ops, order)
    reads nodes
  {
    && Linked(nodes, LiveAt(h, order))
    && forall d: nat {:trigger LevelSaved(nodes, h, ops, order, d)} :: d < |order| ==>
      LevelSaved(nodes, h, ops, order, d)
  }

  /** An operation not yet linearized has its pair in the list; linearizing it takes just that pair out. */
  lemma PairInList<I, O>(nodes: seq<Node<I, O>>, h: seq<Entry<I, O>>, ops: seq<Op<I, O>>, order: seq<nat>, i: nat)
    requires NodesMatch(nodes, h, ops) && i < |ops| && i !in order
    ensures Positions(nodes, LiveAt(h, order)) && IsPair(nodes, LiveAt(h, order), CallPos(ops, i), ReturnPos(ops, i))
    ensures LiveAt(h, order + [i]) == LiveAt(h, order) - {CallPos(ops, i)} - {ReturnPos(ops, i)}
  {
    LiveWithout(h, ops, Elems(order), i);
    ElemsAppend(order, i);
    assert PairMatches(nodes, h, ops, i);
  }

  /** The pair lifted on level d is not in the list. */
  ghost predicate OffList<I, O>(nodes: seq<Node<I, O>>, h: seq<Entry<I, O>>, ops: seq<Op<I, O>>, order: seq<nat>,
                                d: nat)
    requires NodesMatch(nodes, h, ops) && IdsOf(ops, order) && d < |order|
  {
    && PairMatches(nodes, h, ops, order[d])
    && nodes[CallPos(ops, order[d])] !in LiveNodes(nodes, LiveAt(h, order))
    && nodes[ReturnPos(ops, order[d])] !in LiveNodes(nodes, LiveAt(h, order))
  }

  lemma LevelsOffList<I, O>(nodes: seq<Node<I, O>>, h: seq<Entry<I, O>>, ops: seq<Op<I, O>>, order: seq<nat>)
    requires NodesMatch(nodes, h, ops) && IdsOf(ops, order)
    ensures forall d: nat {:trigger OffList(nodes, h, ops, order, d)} :: d < |order| ==>
              OffList(nodes, h, ops, order, d)
  {
    forall d: nat | d < |order|
      ensures OffList(nodes, h, ops, order, d)
    {
      LiftedNotLive(nodes, h, ops, order, order[d]);
    }
  }

  method LiftCall<I, O>(entry: Node<I, O>, ghost nodes: seq<Node<I, O>>, ghost h: seq<Entry<I, O>>,
                        ghost ops: seq<Op<I, O>>, ghost order: seq<nat>, ghost i: nat)
    requires NodesMatch(nodes, h, ops) && IdsOf(ops, order) && i < |ops| && i !in order
    requires ListOk(nodes, h, ops, order)
    requires entry == nodes[CallPos(ops, i)]
    modifies nodes
    ensures ListOk(nodes, h, ops, order + [i])
  {
    PairInList(nodes, h, ops, order, i);
    LevelsOffList(nodes, h, ops, order);
    Lift(entry, nodes, LiveAt(h, order), CallPos(ops, i), ReturnPos(ops, i));
    ghost var order' := order + [i];
    forall d: nat | d < |order'|
      ensures LevelSaved(nodes, h, ops, order', d)
    {
      assert order'[..d] == order[..d];
      if d < |order| {
        assert OffList(nodes, h, ops, order, d) && old(LevelSaved(nodes, h, ops, order, d));
      } else {
        assert order[..d] == order;
      }
    }
  }

  lemma LowerLevels<I, O>(nodes: seq<Node<I, O>>, h: seq<Entry<I, O>>, ops: seq<Op<I, O>>, order: seq<nat>)
    requires NodesMatch(nodes, h, ops) && IdsOf(ops, order) && order != [] && ListOk(nodes, h, ops, order)
    ensures var lower := order[..|order| - 1];
            forall d: nat {:trigger LevelSaved(nodes, h, ops, lower, d)} :: d < |lower| ==>
              LevelSaved(nodes, h, ops, lower, d)
  {
    var lower := order[..|order| - 1];
    forall d: nat | d < |lower|
      ensures LevelSaved(nodes, h, ops, lower, d)
    {
      assert lower[..d] == order[..d];
      assert LevelSaved(nodes, h, ops, order, d);
    }
  }

  method UnliftCall<I, O>(entry: Node<I, O>, ghost nodes: seq<Node<I, O>>, ghost h: seq<Entry<I, O>>,
                          ghost ops: seq<Op<I, O>>, ghost order: seq<nat>)
    requires NodesMatch(nodes, h, ops) && IdsOf(ops, order) && order != [] && Distinct(order)
    requires ListOk(nodes, h, ops, order)
    requires entry == nodes[CallPos(ops, order[|order| - 1])]
    modifies nodes
    ensures ListOk(nodes, h, ops, order[..|order| - 1])
  {
    ghost var k := |order| - 1;
    ghost var i := order[k];
    ghost var order' := order[..k];
    assert order == order' + [i];
    PairInList(nodes, h, ops, order', i);
    assert LevelSaved(nodes, h, ops, order, k);
    LowerLevels(nodes, h, ops, order);
    LevelsOffList(nodes, h, ops, order');
    Unlift(entry, nodes, LiveAt(h, order'), CallPos(ops, i), ReturnPos(ops, i));
    forall d: nat | d < |order'|
      ensures LevelSaved(nodes, h, ops, order', d)
    {
      assert OffList(nodes, h, ops, order', d) && old(LevelSaved(nodes, h, ops, order', d));
    }
  }

  // ---- the call stack ----

  ghost predicate CallsOk<S, I, O>(nodes: seq<Node<I, O>>, h: seq<Entry<I, O>>, ops: seq<Op<I, O>>,
                                   s: Search<S>, calls: seq<CallsEntry<S, I, O>>) {
    && NodesMatch(nodes, h, ops)
    && IdsOf(ops, s.order)
    && |calls| == |s.order| < |s.states|
    && forall k :: 0 <= k < |calls| ==>
         && calls[k].entry == nodes[CallPos(ops, s.order[k])]
         && calls[k].entry.id == s.order[k] && calls[k].state == s.states[k]
  }

  method StackIds<S, I, O>(calls: seq<CallsEntry<S, I, O>>) returns (ids: seq<nat>)
    requires forall k :: 0 <= k < |calls| ==> calls[k].entry.id >= 0
    ensures |ids| == |calls| && forall k :: 0 <= k < |calls| ==> ids[k] == calls[k].entry.id
  {
    ids := [];
    for k := 0 to |calls|
      invariant |ids| == k && forall j :: 0 <= j < k ==> ids[j] == calls[j].entry.id
    {
      ids := ids + [calls[k].entry.id];
    }
  }

  /** Remember the stack for each of its operations for which nothing as long is known. */
  method RecordLongest<S, I, O>(calls: seq<CallsEntry<S, I, O>>, before: seq<Ids?>, ghost order: seq<nat>)
    returns (longest: seq<Ids?>)
    requires |calls| == |order|
    requires forall k :: 0 <= k < |order| ==> calls[k].entry.id == order[k] < |before|
    ensures Record(View(before), View(longest), order)
    ensures |longest| == |before| && forall i, j :: 0 <= i < |longest| && 0 <= j < |longest| ==>
      longest[i] != before[i] && longest[j] != before[j] ==> longest[i] == longest[j]
  {
    longest := before;
    var shared: Ids? := null;
    for k := 0 to |calls|
      invariant shared != null ==> shared.ids == order
      invariant |longest| == |before|
      invariant forall j :: 0 <= j < |longest| ==>
        if j in order[..k] && (before[j] == null || |order| > |before[j].ids|)
        then longest[j] != null && longest[j] == shared
        else longest[j] == before[j]
    {
      var id := calls[k].entry.id;
      assert order[..k + 1] == order[..k] + [order[k]];
      if longest[id] == null || |calls| > |longest[id].ids| {
        if shared == null {
          var ids := StackIds(calls);
          assert ids == order;
          shared := new Ids(ids);
        }
        longest := longest[id := shared];
      }
    }
    assert order[..|calls|] == order;
  }

  // ---- the bit set and the memo table ----

  /** The bit set is the set of linearized operations, and the table holds the cached configurations. */
  ghost predicate TableOk<S>(n: nat, done: set<nat>, contents: set<Config<S>>, linearized: array<Word>,
                             cache: Buckets<S>)
    reads linearized
  {
    && n <= 64 * linearized.Length
    && Members(linearized[..]) == done
    && Holds(cache, linearized.Length, contents)
  }

  method MarkLinearized<S>(linearized: array<Word>, id: nat, ghost n: nat, ghost done: set<nat>,
                           ghost contents: set<Config<S>>, ghost cache: Buckets<S>)
    requires TableOk(n, done, contents, linearized, cache) && id < n
    modifies linearized
    ensures TableOk(n, done + {id}, contents, linearized, cache)
  {
    Set(linearized, id);
  }

  method UnmarkLinearized<S>(linearized: array<Word>, id: nat, ghost n: nat, ghost done: set<nat>,
                             ghost contents: set<Config<S>>, ghost cache: Buckets<S>)
    requires TableOk(n, done, contents, linearized, cache) && id < n
    modifies linearized
    ensures TableOk(n, done - {id}, contents, linearized, cache)
  {
    Clear(linearized, id);
  }

  /**
   * Take one step of the model with the call under the cursor. It is worth
   * following when the model accepts it and the configuration it leads to is
   * not in the memo table yet; then it is entered there.
   */
  method TryCall<S, I, O>(m: Model<S, I, O>, state: S, entry: Node<I, O>, linearized: array<Word>, cache: Buckets<S>,
                          ghost ops: seq<Op<I, O>>, ghost c: Config<S>, ghost contents: set<Config<S>>)
    returns (isNew: bool, newState: S, cache': Buckets<S>)
    requires TableOk(|ops|, c.done, contents, linearized, cache) && state == c.state
    requires 0 <= entry.id < |ops|
    requires entry.value == Input(ops[entry.id].input)
    requires entry.matching != null && entry.matching.value == Output(ops[entry.id].output)
    ensures isNew <==> Accepts(m, ops, state, entry.id) && !Covered(m, contents, Succ(m, ops, c, entry.id))
    ensures isNew ==> newState == Succ(m, ops, c, entry.id).state
    ensures TableOk(|ops|, c.done, if isNew then contents + {Succ(m, ops, c, entry.id)} else contents,
                    linearized, cache')
  {
    var matching := entry.matching;
    var (ok, next) := m.step(state, entry.value.input, matching.value.output);
    newState := next;
    if ok {
      var newLinearized := Clone(linearized);
      Set(newLinearized, entry.id);
      var newCacheEntry := CacheEntry(newLinearized[..], newState);
      assert EntryConfig(newCacheEntry) == Succ(m, ops, c, entry.id);
      var found := CacheContains(m, cache, newCacheEntry, contents);
      if !found {
        cache' := Remember(cache, newCacheEntry, contents);
        return true, newState, cache';
      }
    }
    return false, newState, cache;
  }

  // ---- one iteration of the search ----

  /** The list, the call stack and the cursor stand for the search s with the cursor at position `cursor`. */
  ghost predicate ListSide<S, I, O>(nodes: seq<Node<I, O>>, h: seq<Entry<I, O>>, ops: seq<Op<I, O>>,
                                    s: Search<S>, cursor: nat, entry: Node?<I, O>, calls: seq<CallsEntry<S, I, O>>)
    reads nodes
  {
    && CallsOk(nodes, h, ops, s, calls)
    && ListOk(nodes, h, ops, s.order)
    && entry == At(nodes, cursor)
  }

  lemma NextInList<I, O>(nodes: seq<Node<I, O>>, h: seq<Entry<I, O>>, ops: seq<Op<I, O>>, order: seq<nat>, p: nat)
    requires NodesMatch(nodes, h, ops) && IdsOf(ops, order) && ListOk(nodes, h, ops, order)
    requires p in LiveAt(h, order)
    ensures nodes[p].next == At(nodes, NextLive(LiveAt(h, order), |h|, p))
  {
    assert NodeLinked(nodes, LiveAt(h, order), p);
  }

  /** Push the call under the cursor, and put the cursor back on the first entry. */
  method PushCall<S, I, O>(m: Model<S, I, O>, headEntry: Node<I, O>, entry: Node<I, O>, state: S,
      calls: seq<CallsEntry<S, I, O>>, ghost nodes: seq<Node<I, O>>, ghost h: seq<Entry<I, O>>,
      ghost ops: seq<Op<I, O>>, ghost s: Search<S>, ghost i: nat)
    returns (entry': Node?<I, O>, calls': seq<CallsEntry<S, I, O>>)
    requires i < |ops| && i !in s.order && |s.states| == |s.order| + 1
    requires CallsOk(nodes, h, ops, s, calls) && ListOk(nodes, h, ops, s.order)
    requires headEntry == nodes[0] && entry == nodes[CallPos(ops, i)] && state == s.states[|s.order|]
    modifies nodes
    ensures var s' := Pushed(m, ops, s, i);
            ListSide(nodes, h, ops, s', NextLive(LiveAt(h, s'.order), |h|, 0), entry', calls')
  {
    assert PairMatches(nodes, h, ops, i);
    calls' := calls + [CallsEntry(entry, state)];
    LiftCall(entry, nodes, h, ops, s.order, i);
    NextInList(nodes, h, ops, s.order + [i], 0);
    entry' := headEntry.next;
  }

  /** Pop the last call, put it back in the list, and put the cursor behind it. */
  method PopCall<S, I, O>(calls: seq<CallsEntry<S, I, O>>,
      ghost nodes: seq<Node<I, O>>, ghost h: seq<Entry<I, O>>, ghost ops: seq<Op<I, O>>, ghost s: Search<S>)
    returns (entry': Node?<I, O>, state': S, id: nat, calls': seq<CallsEntry<S, I, O>>)
    requires calls != [] && |s.states| == |s.order| + 1 && Distinct(s.order)
    requires CallsOk(nodes, h, ops, s, calls) && ListOk(nodes, h, ops, s.order)
    modifies nodes
    ensures id == s.order[|s.order| - 1] && state' == s.states[|s.order| - 1]
    ensures var s' := Popped(s);
            ListSide(nodes, h, ops, s', NextLive(LiveAt(h, s'.order), |h|, CallPos(ops, id)), entry', calls')
  {
    var k := |calls| - 1;
    var callsTop := calls[k];
    state' := callsTop.state;
    id := callsTop.entry.id;
    calls' := calls[..k];
    assert PairMatches(nodes, h, ops, id);
    UnliftCall(callsTop.entry, nodes, h, ops, s.order);
    assert s.order == s.order[..k] + [id];
    LiveWithout(h, ops, Elems(s.order[..k]), id);
    NextInList(nodes, h, ops, s.order[..k], CallPos(ops, id));
    entry' := callsTop.entry.next;
  }

  /** The loop ends exactly when every operation is on the stack. */
  lemma HeadNext<S(!new), I, O>(m: Model<S, I, O>, nodes: seq<Node<I, O>>, h: seq<Entry<I, O>>, ops: seq<Op<I, O>>,
                                s: Search<S>)
    requires NodesMatch(nodes, h, ops) && StackOk(m, ops, s) && ListOk(nodes, h, ops, s.order)
    ensures nodes[0].next == null <==> |s.order| == |ops|
  {
    PushedCursor(m, h, ops, s);
    NextInList(nodes, h, ops, s.order, 0);
  }

  /** Linearize the call under the cursor, which leads to a new configuration, already in the table. */
  method FollowCall<S(!new), I, O>(m: Model<S, I, O>, headEntry: Node<I, O>, entry: Node<I, O>, state: S,
      calls: seq<CallsEntry<S, I, O>>, linearized: array<Word>, ghost cache: Buckets<S>, ghost nodes: seq<Node<I, O>>,
      ghost h: seq<Entry<I, O>>, ghost ops: seq<Op<I, O>>, ghost s: Search<S>, ghost i: nat)
    returns (entry': Node?<I, O>, calls': seq<CallsEntry<S, I, O>>)
    requires i < |ops| && i !in s.order && |s.states| == |s.order| + 1
    requires CallsOk(nodes, h, ops, s, calls) && ListOk(nodes, h, ops, s.order)
    requires headEntry == nodes[0] && entry == nodes[CallPos(ops, i)] && entry.id == i && state == s.states[|s.order|]
    requires TableOk(|ops|, Elems(s.order), Pushed(m, ops, s, i).cache, linearized, cache)
    modifies nodes, linearized
    ensures var s' := Pushed(m, ops, s, i);
            && ListSide(nodes, h, ops, s', NextLive(LiveAt(h, s'.order), |h|, 0), entry', calls')
            && TableOk(|ops|, Elems(s'.order), s'.cache, linearized, cache)
  {
    entry', calls' := PushCall(m, headEntry, entry, state, calls, nodes, h, ops, s, i);
    ElemsAppend(s.order, i);
    MarkLinearized(linearized, entry.id, |ops|, Elems(s.order), Pushed(m, ops, s, i).cache, cache);
  }

  /** Give up the last call: the configuration it led to is fully explored. */
  method Backtrack<S(!new), I, O>(calls: seq<CallsEntry<S, I, O>>, linearized: array<Word>, ghost cache: Buckets<S>,
      ghost nodes: seq<Node<I, O>>, ghost h: seq<Entry<I, O>>, ghost ops: seq<Op<I, O>>, ghost s: Search<S>)
    returns (entry': Node?<I, O>, state': S, calls': seq<CallsEntry<S, I, O>>)
    requires calls != [] && |s.states| == |s.order| + 1 && Distinct(s.order)
    requires CallsOk(nodes, h, ops, s, calls) && ListOk(nodes, h, ops, s.order)
    requires TableOk(|ops|, Elems(s.order), s.cache, linearized, cache)
    modifies nodes, linearized
    ensures var s' := Popped(s);
            && ListSide(nodes, h, ops, s', NextLive(LiveAt(h, s'.order), |h|, CallPos(ops, s.order[|s.order| - 1])),
                        entry', calls')
            && TableOk(|ops|, Elems(s'.order), s'.cache, linearized, cache)
            && state' == s'.states[|s'.order|]
  {
    var id;
    entry', state', id, calls' := PopCall(calls, nodes, h, ops, s);
    ElemsDropLast(s.order);
    UnmarkLinearized(linearized, id, |ops|, Elems(s.order), s.cache, cache);
  }

  lemma CanFollow<S(!new), I, O>(m: Model<S, I, O>, h: seq<Entry<I, O>>, ops: seq<Op<I, O>>,
                                 s: Search<S>, cursor: nat, partials: bool, longest: Longest, i: nat)
    returns (s': Search<S>, cursor': nat)
    requires forall x :: SelfEqual(m, x)
    requires Searching(m, h, ops, s, cursor, partials, longest) && |s.order| != |ops|
    requires i < |ops| && cursor == CallPos(ops, i) && h[cursor - 1].id == i
    requires Accepts(m, ops, Top(s).state, i) && !Covered(m, s.cache, Succ(m, ops, Top(s), i))
    ensures s' == Pushed(m, ops, s, i) && i !in s.order
    ensures cursor' == NextLive(LiveAt(h, s'.order), |h|, 0)
    ensures Searching(m, h, ops, s', cursor', partials, longest)
    ensures Unexplored(m, ops, s') < Unexplored(m, ops, s)
  {
    LiveNotLinearized(h, s.order, cursor);
    assert SelfEqual(m, Succ(m, ops, Top(s), i).state);
    s' := Pushed(m, ops, s, i);
    cursor' := NextLive(LiveAt(h, s'.order), |h|, 0);
    Pushes(m, h, ops, s, cursor, partials, longest, i);
  }

  lemma CanSkip<S(!new), I, O>(m: Model<S, I, O>, nodes: seq<Node<I, O>>, h: seq<Entry<I, O>>, ops: seq<Op<I, O>>,
                               s: Search<S>, cursor: nat, partials: bool, longest: Longest, i: nat)
    returns (cursor': nat)
    requires NodesMatch(nodes, h, ops) && IdsOf(ops, s.order) && ListOk(nodes, h, ops, s.order)
    requires Searching(m, h, ops, s, cursor, partials, longest) && |s.order| != |ops|
    requires i < |ops| && cursor == CallPos(ops, i)
    requires Accepts(m, ops, Top(s).state, i) ==> Covered(m, s.cache, Succ(m, ops, Top(s), i))
    ensures cursor < cursor' <= |h| && Searching(m, h, ops, s, cursor', partials, longest)
    ensures nodes[cursor].next == At(nodes, cursor')
  {
    cursor' := NextLive(LiveAt(h, s.order), |h|, cursor);
    Skips(m, h, ops, s, cursor, partials, longest, i);
    NextInList(nodes, h, ops, s.order, cursor);
  }

  /** The cursor is on a call: linearize it if that leads somewhere new, else step over it. */
  method VisitCall<S(!new), I, O>(m: Model<S, I, O>, headEntry: Node<I, O>, entry: Node<I, O>, state: S,
      calls: seq<CallsEntry<S, I, O>>, linearized: array<Word>, cache: Buckets<S>,
      ghost nodes: seq<Node<I, O>>, ghost h: seq<Entry<I, O>>, ghost ops: seq<Op<I, O>>,
      ghost s: Search<S>, ghost cursor: nat, ghost partials: bool, ghost longest: Longest)
    returns (entry': Node?<I, O>, state': S, calls': seq<CallsEntry<S, I, O>>, cache': Buckets<S>,
             ghost s': Search<S>, ghost cursor': nat)
    requires forall x :: SelfEqual(m, x)
    requires Searching(m, h, ops, s, cursor, partials, longest) && |s.order| != |ops|
    requires ListSide(nodes, h, ops, s, cursor, entry, calls) && headEntry == nodes[0]
    requires TableOk(|ops|, Elems(s.order), s.cache, linearized, cache) && state == s.states[|s.order|]
    requires entry.matching != null
    modifies nodes, linearized
    ensures Searching(m, h, ops, s', cursor', partials, longest)
    ensures ListSide(nodes, h, ops, s', cursor', entry', calls')
    ensures TableOk(|ops|, Elems(s'.order), s'.cache, linearized, cache') && state' == s'.states[|s'.order|]
    ensures if s'.order == s.order then s' == s && cursor < cursor' <= |h|
            else Unexplored(m, ops, s') < Unexplored(m, ops, s)
  {
    NodeAtCursor(nodes, h, ops, cursor);
    var isNew;
    isNew, state', cache' := TryCall(m, state, entry, linearized, cache, ops, Top(s), s.cache);
    if isNew {
      s', cursor' := CanFollow(m, h, ops, s, cursor, partials, longest, entry.id);
      entry', calls' := FollowCall(m, headEntry, entry, state, calls, linearized, cache', nodes, h, ops, s, entry.id);
    } else {
      s', calls', state' := s, calls, state;
      cursor' := CanSkip(m, nodes, h, ops, s, cursor, partials, longest, entry.id);
      entry' := entry.next;
    }
  }

  // ---- the search ----

  /** The entry list behind its head node, and an empty bit set. */
  method SetUp<S, I, O>(m: Model<S, I, O>, history: seq<Entry<I, O>>, ghost ops: seq<Op<I, O>>)
    returns (headEntry: Node<I, O>, entry: Node?<I, O>, n: nat, linearized: array<Word>, ghost nodes: seq<Node<I, O>>)
    requires Describes(history, ops)
    ensures n == |ops| && fresh(nodes) && fresh(linearized)
    ensures NodesMatch(nodes, history, ops) && headEntry == nodes[0]
    ensures ListSide<S, I, O>(nodes, history, ops, Search([], [m.init], {}), 1, entry, [])
    ensures TableOk<S>(n, {}, {}, linearized, map[])
  {
    ghost var l;
    entry, l := MakeLinkedEntries(history);
    var len := Length(entry, l);
    n := len / 2;
    linearized := NewBitset(n);
    var head := new Node<I, O>(Nil, null, -1);
    headEntry := InsertBefore(head, entry, l, 0);
    nodes := [headEntry] + l;
    assert l[..0] + [headEntry] + l[0..] == nodes;
    NodesOfMatch(nodes, history, ops);
    ChainIsLinked(nodes);
    assert LiveAt(history, []) == Below(|nodes|) by {
      assert forall p: nat :: 0 < p <= |history| ==> !Gone(history, {}, p);
    }
  }

  /** On success every operation gets the complete linearization. */
  method CompleteOrder<S, I, O>(calls: seq<CallsEntry<S, I, O>>, n: nat, ghost order: seq<nat>)
    returns (longest: seq<Ids?>)
    requires |calls| == |order| && forall k :: 0 <= k < |order| ==> calls[k].entry.id == order[k]
    ensures |longest| == n && forall i :: 0 <= i < n ==> longest[i] != null && longest[i].ids == order
    ensures forall i, j :: 0 <= i < n && 0 <= j < n ==> longest[i] == longest[j]
  {
    var ids := StackIds(calls);
    assert ids == order;
    var shared := new Ids(ids);
    longest := [];
    for i := 0 to n
      invariant |longest| == i && forall j :: 0 <= j < i ==> longest[j] == shared
    {
      longest := longest + [shared];
    }
  }

  /** The cursor is on a return and the stack is not empty: record it if asked to, and backtrack. */
  method VisitReturn<S(!new), I, O>(m: Model<S, I, O>, calls: seq<CallsEntry<S, I, O>>, linearized: array<Word>,
      longest: seq<Ids?>, partials: bool, ghost cache: Buckets<S>, ghost nodes: seq<Node<I, O>>,
      ghost h: seq<Entry<I, O>>, ghost ops: seq<Op<I, O>>, ghost s: Search<S>, ghost cursor: nat)
    returns (entry': Node?<I, O>, state': S, calls': seq<CallsEntry<S, I, O>>, longest': seq<Ids?>,
             ghost s': Search<S>, ghost cursor': nat)
    requires Searching(m, h, ops, s, cursor, partials, View(longest)) && |s.order| != |ops|
    requires CallsOk(nodes, h, ops, s, calls) && ListOk(nodes, h, ops, s.order)
    requires TableOk(|ops|, Elems(s.order), s.cache, linearized, cache)
    requires h[cursor - 1].Return? && calls != []
    modifies nodes, linearized
    ensures s' == Popped(s)
    ensures Searching(m, h, ops, s', cursor', partials, View(longest'))
    ensures ListSide(nodes, h, ops, s', cursor', entry', calls')
    ensures TableOk(|ops|, Elems(s'.order), s'.cache, linearized, cache)
    ensures state' == s'.states[|s'.order|]
    ensures !partials ==> longest' == longest
  {
    longest' := longest;
    if partials {
      longest' := RecordLongest(calls, longest, s.order);
      RecordKeeps(m, ops, s, View(longest), View(longest'));
    }
    s', cursor' := Pops(m, h, ops, s, cursor, partials, View(longest'));
    entry', state', calls' := Backtrack(calls, linearized, cache, nodes, h, ops, s);
  }

  /** Between two iterations: the loop variables stand for the search s with the cursor at position `cursor`. */
  ghost predicate LoopOk<S(!new), I, O>(m: Model<S, I, O>, nodes: seq<Node<I, O>>, h: seq<Entry<I, O>>,
      ops: seq<Op<I, O>>, s: Search<S>, cursor: nat, partials: bool, longest: seq<Ids?>, entry: Node?<I, O>, state: S,
      calls: seq<CallsEntry<S, I, O>>, linearized: array<Word>, cache: Buckets<S>)
    reads nodes, linearized
  {
    && Searching(m, h, ops, s, cursor, partials, View(longest))
    && ListSide(nodes, h, ops, s, cursor, entry, calls)
    && TableOk(|ops|, Elems(s.order), s.cache, linearized, cache)
    && state == s.states[|s.order|]
  }

  /** New configurations are explored, or the stack gets shorter, or the cursor moves on. */
  ghost predicate Progress<S(!new), I, O>(m: Model<S, I, O>, ops: seq<Op<I, O>>, end: nat, s: Search<S>, cursor: nat,
                                          s': Search<S>, cursor': nat) {
    || Unexplored(m, ops, s') < Unexplored(m, ops, s)
    || (s'.cache == s.cache && |s'.order| < |s.order|)
    || (s' == s && cursor < cursor' <= end)
  }

  /** One iteration: true if the search is to go on, false if there is nothing left to try. */
  method Iterate<S(!new), I, O>(m: Model<S, I, O>, headEntry: Node<I, O>, entry: Node<I, O>, state: S,
      calls: seq<CallsEntry<S, I, O>>, linearized: array<Word>, cache: Buckets<S>, computePartial: bool,
      longest: seq<Ids?>, ghost nodes: seq<Node<I, O>>, ghost h: seq<Entry<I, O>>, ghost ops: seq<Op<I, O>>,
      ghost s: Search<S>, ghost cursor: nat)
    returns (goOn: bool, entry': Node?<I, O>, state': S, calls': seq<CallsEntry<S, I, O>>, cache': Buckets<S>,
             longest': seq<Ids?>, ghost s': Search<S>, ghost cursor': nat)
    requires (forall x :: SelfEqual(m, x)) && headEntry == At(nodes, 0) && |s.order| != |ops|
    requires LoopOk(m, nodes, h, ops, s, cursor, computePartial, longest, entry, state, calls, linearized, cache)
    modifies nodes, linearized
    ensures LoopOk(m, nodes, h, ops, s', cursor', computePartial, longest', entry', state', calls', linearized, cache')
    ensures goOn ==> Progress(m, ops, |h|, s, cursor, s', cursor')
    ensures !goOn ==> s'.order == [] && h[cursor' - 1].Return?
    ensures !goOn ==> |s'.order| != |ops|
    ensures headEntry.next == null <==> |s'.order| == |ops|
    ensures !computePartial ==> longest' == longest
  {
    NodeAtCursor(nodes, h, ops, cursor);
    goOn := true;
    if entry.matching != null {
      longest' := longest;
      entry', state', calls', cache', s', cursor' := VisitCall(m, headEntry, entry, state, calls, linearized, cache,
        nodes, h, ops, s, cursor, computePartial, View(longest));
    } else if |calls| == 0 {
      goOn := false;
      entry', state', calls', cache', longest', s', cursor' := entry, state, calls, cache, longest, s, cursor;
    } else {
      cache' := cache;
      entry', state', calls', longest', s', cursor' := VisitReturn(m, calls, linearized, longest,
        computePartial, cache, nodes, h, ops, s, cursor);
    }
    HeadNext(m, nodes, h, ops, s');
  }

  datatype Outcome = Complete | Exhausted | Killed

  /** One of the first loads of the kill flag found it up. */
  ghost predicate WasKilled(kill: nat -> bool, loads: nat) {
    exists t: nat :: t < loads && kill(t)
  }

  /** The last load, and no other, found the flag up. */
  ghost predicate StoppedAt(kill: nat -> bool, loads: nat) {
    loads > 0 && kill(loads - 1) && !WasKilled(kill, loads - 1)
  }

  lemma LoadFlag(kill: nat -> bool, loads: nat)
    requires !WasKilled(kill, loads)
    ensures WasKilled(kill, loads + 1) <==> kill(loads)
    ensures kill(loads) ==> StoppedAt(kill, loads + 1)
  {
    if kill(loads) {
      assert loads < loads + 1;
    }
  }

  /** Nothing recorded for any of n operations. */
  function Nothing(n: nat): (longest: seq<Ids?>)
    ensures |longest| == n && forall i :: 0 <= i < n ==> longest[i] == null
  {
    seq(n, _ => null)
  }

  /** How the loop stopped: with everything on the stack, with nothing left to try, or by the kill flag. */
  ghost predicate Stopped<S(!new), I, O>(m: Model<S, I, O>, h: seq<Entry<I, O>>, ops: seq<Op<I, O>>, partials: bool,
                                         s: Search<S>, cursor: nat, longest: Longest, outcome: Outcome) {
    && Searching(m, h, ops, s, cursor, partials, longest)
    && (outcome.Complete? ==> |s.order| == |ops|)
    && (outcome.Exhausted? ==> s.order == [] && |s.order| != |ops| && h[cursor - 1].Return?)
  }

  /** Before the first iteration. */
  lemma Begun<S(!new), I, O>(m: Model<S, I, O>, nodes: seq<Node<I, O>>, h: seq<Entry<I, O>>, ops: seq<Op<I, O>>,
                             first: Node?<I, O>, linearized: array<Word>, partials: bool, longest: seq<Ids?>)
    requires NodesMatch(nodes, h, ops) && longest == Nothing(|ops|)
    requires ListSide<S, I, O>(nodes, h, ops, Search([], [m.init], {}), 1, first, [])
    requires TableOk<S>(|ops|, {}, {}, linearized, map[])
    ensures var s := Search([], [m.init], {});
            && LoopOk(m, nodes, h, ops, s, 1, partials, longest, first, m.init, [], linearized, map[])
            && (nodes[0].next == null <==> |s.order| == |ops|)
  {
    Started(m, h, ops, partials);
    assert View(longest) == seq(|ops|, _ => None);
    HeadNext(m, nodes, h, ops, Search([], [m.init], {}));
  }

  /** The first three numbers are below the last three, in lexicographic order. */
  predicate Lower(a: int, b: int, c: int, a': int, b': int, c': int) {
    a < a' || (a == a' && (b < b' || (b == b' && 0 <= c < c')))
  }

  /** A round of the loop: look at the kill flag and, unless it is up, make one iteration; None to go on. */
  method Round<S(!new), I, O>(m: Model<S, I, O>, headEntry: Node<I, O>, entry: Node?<I, O>, state: S,
      calls: seq<CallsEntry<S, I, O>>, linearized: array<Word>, cache: Buckets<S>, computePartial: bool,
      longest: seq<Ids?>, kill: nat -> bool, loads: nat, ghost nodes: seq<Node<I, O>>, ghost h: seq<Entry<I, O>>,
      ghost ops: seq<Op<I, O>>, ghost s: Search<S>, ghost cursor: nat)
    returns (end: Option<Outcome>, entry': Node?<I, O>, state': S, calls': seq<CallsEntry<S, I, O>>,
             cache': Buckets<S>, longest': seq<Ids?>, ghost s': Search<S>, ghost cursor': nat)
    requires (forall x :: SelfEqual(m, x)) && headEntry == At(nodes, 0) && |s.order| != |ops|
    requires LoopOk(m, nodes, h, ops, s, cursor, computePartial, longest, entry, state, calls, linearized, cache)
    requires !WasKilled(kill, loads)
    modifies nodes, linearized
    ensures LoopOk(m, nodes, h, ops, s', cursor', computePartial, longest', entry', state', calls', linearized, cache')
    ensures end.None? ==> Lower(Unexplored(m, ops, s'), |s'.order|, |h| + 1 - cursor',
                                Unexplored(m, ops, s), |s.order|, |h| + 1 - cursor)
    ensures end.None? ==> (headEntry.next == null <==> |s'.order| == |ops|)
    ensures end.Some? ==> Stopped(m, h, ops, computePartial, s', cursor', View(longest'), end.value)
    ensures end.Some? && end.value.Killed? ==> StoppedAt(kill, loads + 1)
    ensures end == Some(Killed) || !WasKilled(kill, loads + 1)
    ensures !computePartial ==> longest' == longest
  {
    LoadFlag(kill, loads);
    if kill(loads) {
      end, entry', state', calls', cache', longest', s', cursor' :=
        Some(Killed), entry, state, calls, cache, longest, s, cursor;
    } else {
      var goOn;
      goOn, entry', state', calls', cache', longest', s', cursor' :=
        Iterate(m, headEntry, entry, state, calls, linearized, cache, computePartial, longest,
                nodes, h, ops, s, cursor);
      end := if goOn then None else Some(Exhausted);
    }
  }

  /** The loop of the search, from the empty stack. */
  method Explore<S(!new), I, O>(m: Model<S, I, O>, headEntry: Node<I, O>, first: Node?<I, O>, n: nat,
      linearized: array<Word>, computePartial: bool, kill: nat -> bool, ghost nodes: seq<Node<I, O>>,
      ghost h: seq<Entry<I, O>>, ghost ops: seq<Op<I, O>>)
    returns (outcome: Outcome, calls: seq<CallsEntry<S, I, O>>, longest: seq<Ids?>, loads: nat,
             ghost s: Search<S>, ghost cursor: nat)
    requires (forall x :: SelfEqual(m, x)) && n == |ops| && headEntry == At(nodes, 0)
    requires NodesMatch(nodes, h, ops)
    requires ListSide<S, I, O>(nodes, h, ops, Search([], [m.init], {}), 1, first, [])
    requires TableOk<S>(n, {}, {}, linearized, map[])
    modifies nodes, linearized
    ensures Stopped(m, h, ops, computePartial, s, cursor, View(longest), outcome)
    ensures CallsOk(nodes, h, ops, s, calls)
    ensures outcome.Killed? ==> StoppedAt(kill, loads)
    ensures outcome.Killed? || !WasKilled(kill, loads)
    ensures !computePartial ==> longest == Nothing(n)
  {
    var cache: Buckets<S> := map[];
    var entry, state := first, m.init;
    calls := [];
    longest := Nothing(n);
    s, cursor := Search([], [m.init], {}), 1;
    Begun(m, nodes, h, ops, first, linearized, computePartial, longest);
    loads := 0;
    while headEntry.next != null
      invariant LoopOk(m, nodes, h, ops, s, cursor, computePartial, longest, entry, state, calls, linearized, cache)
      invariant headEntry.next == null <==> |s.order| == |ops|
      invariant !WasKilled(kill, loads) && (!computePartial ==> longest == Nothing(n))
      decreases Unexplored(m, ops, s), |s.order|, |h| + 1 - cursor
    {
      var end;
      end, entry, state, calls, cache, longest, s, cursor :=
        Round(m, headEntry, entry, state, calls, linearized, cache, computePartial, longest, kill, loads,
              nodes, h, ops, s, cursor);
      loads := loads + 1;
      if end.Some? {
        outcome := end.value;
        return;
      }
    }
    outcome := Complete;
  }

  /**
   * The decision procedure, given how each load of the kill flag turns out. What
   * it finds is right for any model whose `Equal` is reflexive. If `Equal`
   * respects `Step` and no load found the flag up, it answers true exactly when
   * the history is linearizable, and on a failure its partial results are optimal.
   * A load that finds the flag up is the last, and the answer is then false.
   */
  method CheckSingle<S(!new, ==), I(!new), O(!new)>(m: Model<S, I, O>, history: seq<Entry<I, O>>, computePartial: bool,
                                                    kill: nat -> bool)
    returns (ok: bool, longest: seq<Ids?>, loads: nat)
    requires (forall x :: SelfEqual(m, x)) && WellFormed(history)
    ensures ok ==> Linearizable(m, OpsOf(history))
    ensures LongestOk(m, OpsOf(history), View(longest))
    ensures ok ==> forall i :: 0 <= i < |longest| ==>
      longest[i] != null && Linearization(m, OpsOf(history), longest[i].ids)
    ensures ok ==> forall i, j :: 0 <= i < |longest| && 0 <= j < |longest| ==> longest[i] == longest[j]
    ensures !ok && !computePartial ==> longest == Nothing(|OpsOf(history)|)
    ensures WasKilled(kill, loads) ==> !ok && StoppedAt(kill, loads)
    ensures RespectsStep(m) && !ok && !WasKilled(kill, loads) ==>
      && !Linearizable(m, OpsOf(history))
      && (computePartial ==> Optimal(m, OpsOf(history), View(longest)))
  {
    ghost var ops := OpsOf(history);
    ghost var nodes, s, cursor;
    var headEntry, entry, n, linearized;
    headEntry, entry, n, linearized, nodes := SetUp(m, history, ops);
    var outcome, calls;
    outcome, calls, longest, loads, s, cursor :=
      Explore(m, headEntry, entry, n, linearized, computePartial, kill, nodes, history, ops);
    match outcome {
      case Complete =>
        FullStackIsLinearization(m, history, ops, s);
        CompletePartialIsLinearization(m, ops, s.order);
        longest := CompleteOrder(calls, n, s.order);
        return true, longest, loads;
      case Exhausted =>
        if RespectsStep(m) {
          Failed(m, history, ops, s, cursor, computePartial, View(longest));
        }
        return false, longest, loads;
      case Killed =>
        return false, longest, loads;
    }
  }

  lemma Failed<S(!new), I(!new), O(!new)>(m: Model<S, I, O>, h: seq<Entry<I, O>>, ops: seq<Op<I, O>>,
                                          s: Search<S>, cursor: nat, partials: bool, longest: Longest)
    requires RespectsStep(m) && s.order == [] && |s.order| != |ops|
    requires Searching(m, h, ops, s, cursor, partials, longest) && h[cursor - 1].Return?
    ensures !Linearizable(m, ops)
    ensures partials ==> Optimal(m, ops, longest)
  {
    forall order | Partial(m, ops, order) && order != []
      ensures |order| < |ops|
      ensures partials ==> forall j :: j in order ==> longest[j].Some? && |longest[j].value| >= |order|
    {
      NothingMissed(m, h, ops, s, partials, longest, cursor, order);
    }
    forall order
      ensures !Linearization(m, ops, order)
    {
      CompletePartialIsLinearization(m, ops, order);
    }
  }
}
