/**
 * The search of checkSingle (labs/src/porcupine/checker.go:174-248) on values:
 * what its loop keeps true, one lemma for each way an iteration can go, and
 * what follows when it stops. Pointers and bit sets are dealt with in Checker.
 */
module Search {
  import opened Common
  import opened Linearizability
  import opened EntryList
  import opened History
  import opened SearchCache

  /** The stack of linearized calls, the states along it, and the configurations cached. */
  datatype Search<S(==)> = Search(order: seq<nat>, states: seq<S>, cache: set<Config<S>>)

  type Longest = seq<Option<seq<nat>>>

  ghost predicate StackOk<S, I, O>(m: Model<S, I, O>, ops: seq<Op<I, O>>, s: Search<S>) {
    && Partial(m, ops, s.order)
    && |s.states| == |s.order| + 1
    && forall k :: 0 <= k <= |s.order| ==> After(m, ops, s.order[..k]) == Some(s.states[k])
  }

  ghost function ConfigAt<S>(s: Search<S>, k: nat): Config<S>
    requires k <= |s.order| < |s.states|
  {
    Config(Elems(s.order[..k]), s.states[k])
  }

  ghost function Top<S>(s: Search<S>): Config<S>
    requires |s.order| < |s.states|
  {
    Config(Elems(s.order), s.states[|s.order|])
  }

  /** Every step from c by an operation called before `limit` leads to a cached configuration. */
  ghost predicate Tried<S, I, O>(m: Model<S, I, O>, ops: seq<Op<I, O>>, cache: set<Config<S>>, c: Config<S>,
                                 limit: int) {
    forall i: nat {:trigger CanStep(m, ops, c, i)} ::
      CanStep(m, ops, c, i) && CallPos(ops, i) < limit ==> Covered(m, cache, Succ(m, ops, c, i))
  }

  ghost predicate Closed<S, I, O>(m: Model<S, I, O>, ops: seq<Op<I, O>>, cache: set<Config<S>>, c: Config<S>) {
    forall i: nat {:trigger CanStep(m, ops, c, i)} ::
      CanStep(m, ops, c, i) ==> Covered(m, cache, Succ(m, ops, c, i))
  }

  ghost predicate OnStack<S>(s: Search<S>, c: Config<S>)
    requires |s.order| < |s.states|
  {
    exists k :: 1 <= k <= |s.order| && c == ConfigAt(s, k)
  }

  /** Each operation of c has a recorded linearization at least as long as c. */
  ghost predicate Recorded<S>(longest: Longest, c: Config<S>) {
    forall j :: j in c.done ==> j < |longest| && longest[j].Some? && |longest[j].value| >= |c.done|
  }

  /** What is recorded for operation j is a partial linearization that contains j. */
  ghost predicate LongestOk<S, I, O>(m: Model<S, I, O>, ops: seq<Op<I, O>>, longest: Longest) {
    && |longest| == |ops|
    && forall j :: 0 <= j < |longest| && longest[j].Some? ==>
         Partial(m, ops, longest[j].value) && j in longest[j].value
  }

  /** A cached configuration is on the stack, or fully explored (and, if wanted, recorded). */
  ghost predicate CacheOk<S, I, O>(m: Model<S, I, O>, ops: seq<Op<I, O>>, s: Search<S>, partials: bool,
                                   longest: Longest)
    requires |s.order| < |s.states|
  {
    forall c :: c in s.cache ==>
      OnStack(s, c) || (Closed(m, ops, s.cache, c) && (partials ==> Recorded(longest, c)) && |c.done| < |ops|)
  }

  /** On every level of the stack, the calls up to the one taken there have been tried. */
  ghost predicate LevelsTried<S, I, O>(m: Model<S, I, O>, ops: seq<Op<I, O>>, s: Search<S>)
    requires |s.order| < |s.states| && IdsOf(ops, s.order)
  {
    forall k {:trigger ConfigAt(s, k)} :: 0 <= k < |s.order| ==>
      Tried(m, ops, s.cache, ConfigAt(s, k), CallPos(ops, s.order[k]) + 1)
  }

  /** What every iteration keeps, apart from the cursor. */
  ghost predicate Inv<S(!new), I, O>(m: Model<S, I, O>, ops: seq<Op<I, O>>,
                                     s: Search<S>, partials: bool, longest: Longest) {
    && StackOk(m, ops, s)
    && LevelsTried(m, ops, s)
    && CacheOk(m, ops, s, partials, longest)
    && s.cache <= ReachedWithin(m, ops, |ops|)
    && LongestOk(m, ops, longest)
  }

  /** The cursor is on a live entry, it has passed only calls, and all of those have been tried. */
  ghost predicate CursorOk<S, I, O>(m: Model<S, I, O>, h: seq<Entry<I, O>>, ops: seq<Op<I, O>>, s: Search<S>,
                                    cursor: nat)
    requires |s.order| < |s.states|
  {
    && 0 < cursor <= |h|
    && cursor in Live(h, Elems(s.order))
    && CallsBefore(h, Elems(s.order), cursor)
    && Tried(m, ops, s.cache, Top(s), cursor)
  }

  // ---- growing the cache ----

  lemma CoveredMore<S, I, O>(m: Model<S, I, O>, cache: set<Config<S>>, more: set<Config<S>>, c: Config<S>)
    requires Covered(m, cache, c) && cache <= more
    ensures Covered(m, more, c)
  {
  }

  lemma TriedMore<S, I, O>(m: Model<S, I, O>, ops: seq<Op<I, O>>, cache: set<Config<S>>, more: set<Config<S>>,
                           c: Config<S>, limit: int)
    requires Tried(m, ops, cache, c, limit) && cache <= more
    ensures Tried(m, ops, more, c, limit)
  {
    forall i: nat | CanStep(m, ops, c, i) && CallPos(ops, i) < limit
      ensures Covered(m, more, Succ(m, ops, c, i))
    {
      CoveredMore(m, cache, more, Succ(m, ops, c, i));
    }
  }

  lemma ClosedMore<S, I, O>(m: Model<S, I, O>, ops: seq<Op<I, O>>, cache: set<Config<S>>, more: set<Config<S>>,
                            c: Config<S>)
    requires Closed(m, ops, cache, c) && cache <= more
    ensures Closed(m, ops, more, c)
  {
    forall i: nat | CanStep(m, ops, c, i)
      ensures Covered(m, more, Succ(m, ops, c, i))
    {
      CoveredMore(m, cache, more, Succ(m, ops, c, i));
    }
  }

  // ---- the cursor ----

  /** The first live position after p is beyond every call that is live and not at most p. */
  lemma CallsUpToCursor<I, O>(h: seq<Entry<I, O>>, ops: seq<Op<I, O>>, done: set<nat>, p: nat, i: nat)
    requires Describes(h, ops) && i < |ops| && i !in done && p <= |h|
    requires CallPos(ops, i) < NextLive(Live(h, done), |h|, p)
    ensures CallPos(ops, i) <= p
  {
    LiveWithout(h, ops, done, i);
  }

  /** While something is left to linearize, the first live entry after the head is a call. */
  lemma NextAfterHead<I, O>(h: seq<Entry<I, O>>, ops: seq<Op<I, O>>, done: set<nat>)
    requires Describes(h, ops) && done <= Below(|ops|) && |done| != |ops|
    ensures var q := NextLive(Live(h, done), |h|, 0);
            q <= |h| && q in Live(h, done) && CallsBefore(h, done, q)
  {
    var i := OneMissing(done, |ops|);
    LiveWithout(h, ops, done, i);
    var q := NextLive(Live(h, done), |h|, 0);
    assert q <= CallPos(ops, i);
  }

  /** Past a live call there is a live entry: at the latest, its return. */
  lemma NextAfterCall<I, O>(h: seq<Entry<I, O>>, ops: seq<Op<I, O>>, done: set<nat>, i: nat)
    requires Describes(h, ops) && i < |ops| && i !in done
    requires CallsBefore(h, done, CallPos(ops, i))
    ensures var q := NextLive(Live(h, done), |h|, CallPos(ops, i));
            q <= |h| && q in Live(h, done) && CallsBefore(h, done, q)
  {
    LiveWithout(h, ops, done, i);
    var q := NextLive(Live(h, done), |h|, CallPos(ops, i));
    assert q <= ReturnPos(ops, i);
    forall p | p in Live(h, done) && 0 < p < q && p <= |h|
      ensures h[p - 1].Call?
    {
      assert p <= CallPos(ops, i);
    }
  }

  lemma CallsBeforeEnabled<I, O>(h: seq<Entry<I, O>>, ops: seq<Op<I, O>>, done: set<nat>, i: nat)
    requires Describes(h, ops) && Enabled(ops, done, i)
    ensures CallsBefore(h, done, CallPos(ops, i))
  {
    forall p | p in Live(h, done) && 0 < p < CallPos(ops, i) && p <= |h|
      ensures h[p - 1].Call?
    {
      if h[p - 1].Return? {
        EnabledIsBeforeReturn(h, ops, done, i, p);
        assert false;
      }
    }
  }

  // ---- the ways one iteration goes ----

  lemma Started<S(!new), I, O>(m: Model<S, I, O>, h: seq<Entry<I, O>>, ops: seq<Op<I, O>>, partials: bool)
    requires Describes(h, ops)
    ensures var s := Search([], [m.init], {});
            && Inv(m, ops, s, partials, seq(|ops|, _ => None))
            && (h != [] ==> CursorOk(m, h, ops, s, 1))
  {
    var s := Search([], [m.init], {});
    assert Elems(s.order) == {};
    assert StackOk(m, ops, s);
  }

  /** The call under the cursor leads nowhere new: go on to the next entry. */
  lemma Advanced<S(!new), I, O>(m: Model<S, I, O>, h: seq<Entry<I, O>>, ops: seq<Op<I, O>>, s: Search<S>, i: nat,
                                cursor: nat)
    requires Describes(h, ops) && i < |ops| && cursor == CallPos(ops, i)
    requires StackOk(m, ops, s) && CursorOk(m, h, ops, s, cursor)
    requires Accepts(m, ops, Top(s).state, i) ==> Covered(m, s.cache, Succ(m, ops, Top(s), i))
    ensures CursorOk(m, h, ops, s, NextLive(Live(h, Elems(s.order)), |h|, cursor))
  {
    var done := Elems(s.order);
    assert i !in done by { assert !Gone(h, done, cursor); }
    NextAfterCall(h, ops, done, i);
    forall j: nat | CanStep(m, ops, Top(s), j) && CallPos(ops, j) < NextLive(Live(h, done), |h|, cursor)
      ensures Covered(m, s.cache, Succ(m, ops, Top(s), j))
    {
      CallsUpToCursor(h, ops, done, cursor, j);
      if CallPos(ops, j) == cursor {
        assert j == i;
      }
    }
  }

  ghost function Pushed<S, I, O>(m: Model<S, I, O>, ops: seq<Op<I, O>>, s: Search<S>, i: nat): Search<S>
    requires |s.order| < |s.states| && i < |ops|
  {
    var c := Succ(m, ops, Top(s), i);
    Search(s.order + [i], s.states + [c.state], s.cache + {c})
  }

  lemma PushedLevels<S, I, O>(m: Model<S, I, O>, ops: seq<Op<I, O>>, s: Search<S>, i: nat)
    requires StackOk(m, ops, s) && CanStep(m, ops, Top(s), i)
    ensures StackOk(m, ops, Pushed(m, ops, s, i))
    ensures Top(Pushed(m, ops, s, i)) == Succ(m, ops, Top(s), i)
    ensures forall k :: 0 <= k <= |s.order| ==> ConfigAt(Pushed(m, ops, s, i), k) == ConfigAt(s, k)
    ensures ConfigAt(Pushed(m, ops, s, i), |s.order| + 1) == Succ(m, ops, Top(s), i)
  {
    var s' := Pushed(m, ops, s, i);
    assert s.order[..|s.order|] == s.order;
    assert s'.order[..|s'.order|] == s'.order;
    PartialExtend(m, ops, s.order, i);
    forall k | 0 <= k <= |s.order|
      ensures ConfigAt(s', k) == ConfigAt(s, k) && s'.order[..k] == s.order[..k]
    {
      assert s'.order[..k] == s.order[..k];
    }
  }

  /** The call under the cursor leads to a new configuration: cache it, and linearize the call. */
  lemma PushedInv<S(!new), I, O>(m: Model<S, I, O>, h: seq<Entry<I, O>>, ops: seq<Op<I, O>>,
                                 s: Search<S>, partials: bool, longest: Longest, i: nat, cursor: nat)
    requires Describes(h, ops) && i < |ops| && cursor == CallPos(ops, i)
    requires Inv(m, ops, s, partials, longest) && CursorOk(m, h, ops, s, cursor)
    requires Accepts(m, ops, Top(s).state, i) && SelfEqual(m, Succ(m, ops, Top(s), i).state)
    ensures Inv(m, ops, Pushed(m, ops, s, i), partials, longest)
  {
    var s' := Pushed(m, ops, s, i);
    CursorCallCanStep(m, h, ops, s, i, cursor);
    PushedTried(m, h, ops, s, i);
    PushedCacheOk(m, ops, s, partials, longest, i);
    PushedReached(m, ops, s, i);
  }

  lemma CursorCallCanStep<S(!new), I, O>(m: Model<S, I, O>, h: seq<Entry<I, O>>, ops: seq<Op<I, O>>, s: Search<S>,
                                         i: nat, cursor: nat)
    requires Describes(h, ops) && i < |ops| && cursor == CallPos(ops, i)
    requires |s.order| < |s.states| && CursorOk(m, h, ops, s, cursor) && Accepts(m, ops, Top(s).state, i)
    ensures CanStep(m, ops, Top(s), i)
  {
    assert i !in Elems(s.order) by { assert !Gone(h, Elems(s.order), cursor); }
    CallBeforeReturnsIsEnabled(h, ops, Elems(s.order), i);
  }

  lemma PushedReached<S(!new), I, O>(m: Model<S, I, O>, ops: seq<Op<I, O>>, s: Search<S>, i: nat)
    requires StackOk(m, ops, s) && CanStep(m, ops, Top(s), i)
    ensures StackOk(m, ops, Pushed(m, ops, s, i))
    ensures Succ(m, ops, Top(s), i) in ReachedWithin(m, ops, |ops|)
  {
    var s' := Pushed(m, ops, s, i);
    PushedLevels(m, ops, s, i);
    PartialReachable(m, ops, s'.order);
    assert s'.order[..|s'.order|] == s'.order;
  }

  lemma PushedTried<S(!new), I, O>(m: Model<S, I, O>, h: seq<Entry<I, O>>, ops: seq<Op<I, O>>, s: Search<S>, i: nat)
    requires Describes(h, ops)
    requires StackOk(m, ops, s) && CanStep(m, ops, Top(s), i) && SelfEqual(m, Succ(m, ops, Top(s), i).state)
    requires LevelsTried(m, ops, s) && Tried(m, ops, s.cache, Top(s), CallPos(ops, i))
    ensures LevelsTried(m, ops, Pushed(m, ops, s, i))
  {
    var s' := Pushed(m, ops, s, i);
    var c := Succ(m, ops, Top(s), i);
    PushedLevels(m, ops, s, i);
    assert Covered(m, s'.cache, c) by { assert c in s'.cache; }
    forall k | 0 <= k < |s'.order|
      ensures Tried(m, ops, s'.cache, ConfigAt(s', k), CallPos(ops, s'.order[k]) + 1)
    {
      if k < |s.order| {
        assert ConfigAt(s', k) == ConfigAt(s, k);
        TriedMore(m, ops, s.cache, s'.cache, ConfigAt(s, k), CallPos(ops, s.order[k]) + 1);
      } else {
        TriedMore(m, ops, s.cache, s'.cache, Top(s), CallPos(ops, i));
        assert ConfigAt(s', k) == Top(s) by { assert s.order[..k] == s.order; }
        OneMoreTried(m, h, ops, s'.cache, Top(s), i);
      }
    }
  }

  lemma OneMoreTried<S, I, O>(m: Model<S, I, O>, h: seq<Entry<I, O>>, ops: seq<Op<I, O>>, cache: set<Config<S>>,
                              c: Config<S>, i: nat)
    requires Describes(h, ops) && i < |ops|
    requires Tried(m, ops, cache, c, CallPos(ops, i)) && Covered(m, cache, Succ(m, ops, c, i))
    ensures Tried(m, ops, cache, c, CallPos(ops, i) + 1)
  {
    forall j: nat | CanStep(m, ops, c, j) && CallPos(ops, j) < CallPos(ops, i) + 1
      ensures Covered(m, cache, Succ(m, ops, c, j))
    {
      if CallPos(ops, j) == CallPos(ops, i) {
        assert j == i;
      }
    }
  }

  lemma PushedCacheOk<S, I, O>(m: Model<S, I, O>, ops: seq<Op<I, O>>, s: Search<S>, partials: bool, longest: Longest,
                               i: nat)
    requires StackOk(m, ops, s) && CanStep(m, ops, Top(s), i)
    requires CacheOk(m, ops, s, partials, longest)
    ensures CacheOk(m, ops, Pushed(m, ops, s, i), partials, longest)
  {
    var s' := Pushed(m, ops, s, i);
    PushedLevels(m, ops, s, i);
    forall c | c in s'.cache
      ensures OnStack(s', c) || (Closed(m, ops, s'.cache, c) && (partials ==> Recorded(longest, c)) && |c.done| < |ops|)
    {
      if c !in s.cache {
        assert c == ConfigAt(s', |s.order| + 1);
      } else if OnStack(s, c) {
        var k :| 1 <= k <= |s.order| && c == ConfigAt(s, k);
        assert c == ConfigAt(s', k);
      } else {
        ClosedMore(m, ops, s.cache, s'.cache, c);
      }
    }
  }

  /** After a push the search starts over at the first entry, unless nothing is left. */
  lemma PushedCursor<S(!new), I, O>(m: Model<S, I, O>, h: seq<Entry<I, O>>, ops: seq<Op<I, O>>, s: Search<S>)
    requires Describes(h, ops) && StackOk(m, ops, s)
    ensures var first := NextLive(Live(h, Elems(s.order)), |h|, 0);
            if |s.order| == |ops| then first == |h| + 1 else CursorOk(m, h, ops, s, first)
  {
    var done := Elems(s.order);
    DistinctSize(s.order);
    if |s.order| == |ops| {
      DistinctBelowIsAll(s.order, |ops|);
      forall p: nat | 0 < p <= |h|
        ensures Gone(h, done, p)
      {
        assert h[p - 1].id in Below(|ops|);
      }
    } else {
      assert done <= Below(|ops|);
      NextAfterHead(h, ops, done);
      forall j: nat | j < |ops| && j !in done
        ensures NextLive(Live(h, done), |h|, 0) <= CallPos(ops, j)
      {
        LiveWithout(h, ops, done, j);
      }
    }
  }

  ghost function Popped<S>(s: Search<S>): Search<S>
    requires |s.states| == |s.order| + 1 && s.order != []
  {
    var k := |s.order| - 1;
    Search(s.order[..k], s.states[..k + 1], s.cache)
  }

  lemma PoppedLevels<S, I, O>(m: Model<S, I, O>, ops: seq<Op<I, O>>, s: Search<S>)
    requires StackOk(m, ops, s) && s.order != []
    ensures StackOk(m, ops, Popped(s))
    ensures forall k :: 0 <= k < |s.order| ==> ConfigAt(Popped(s), k) == ConfigAt(s, k)
    ensures ConfigAt(s, |s.order|) == Top(s)
    ensures Top(Popped(s)) == ConfigAt(s, |s.order| - 1)
    ensures CanStep(m, ops, Top(Popped(s)), s.order[|s.order| - 1])
  {
    var s' := Popped(s);
    PartialPrefix(m, ops, s.order);
    forall k | 0 <= k < |s.order|
      ensures ConfigAt(s', k) == ConfigAt(s, k) && s'.order[..k] == s.order[..k]
    {
      assert s'.order[..k] == s.order[..k];
    }
    assert s.order[..|s.order|] == s.order;
    assert s'.order[..|s'.order|] == s'.order;
  }

  /** At the first live return, everything that could come next has been tried. */
  lemma TopClosed<S, I, O>(m: Model<S, I, O>, h: seq<Entry<I, O>>, ops: seq<Op<I, O>>, s: Search<S>, cursor: nat)
    requires Describes(h, ops) && StackOk(m, ops, s)
    requires CursorOk(m, h, ops, s, cursor) && h[cursor - 1].Return?
    ensures Closed(m, ops, s.cache, Top(s))
    ensures |Top(s).done| < |ops|
  {
    forall j: nat | CanStep(m, ops, Top(s), j)
      ensures Covered(m, s.cache, Succ(m, ops, Top(s), j))
    {
      EnabledIsBeforeReturn(h, ops, Elems(s.order), j, cursor);
    }
    var j := h[cursor - 1].id;
    assert j !in Elems(s.order) by { assert !Gone(h, Elems(s.order), cursor); }
    MissingOne(Elems(s.order), |ops|, j);
  }

  /** The cursor is on a return: give up the last call, and go on behind it. */
  /** Without its top, the stack still holds every cached configuration that is not fully explored. */
  lemma PoppedCache<S(!new), I, O>(m: Model<S, I, O>, ops: seq<Op<I, O>>, s: Search<S>, partials: bool,
                                   longest: Longest)
    requires s.order != [] && |s.states| == |s.order| + 1 && CacheOk(m, ops, s, partials, longest)
    requires Closed(m, ops, s.cache, Top(s)) && (partials ==> Recorded(longest, Top(s))) && |Top(s).done| < |ops|
    ensures CacheOk(m, ops, Popped(s), partials, longest)
  {
    var s' := Popped(s);
    forall c | c in s'.cache
      ensures OnStack(s', c) || (Closed(m, ops, s'.cache, c) && (partials ==> Recorded(longest, c)) && |c.done| < |ops|)
    {
      if OnStack(s, c) {
        var k: nat :| 1 <= k <= |s.order| && c == ConfigAt(s, k);
        if k < |s.order| {
          PoppedConfig(s, k);
          assert c == ConfigAt(s', k) && k <= |s'.order|;
        } else {
          assert c == Top(s);
        }
      }
    }
  }

  lemma PoppedConfig<S>(s: Search<S>, k: nat)
    requires k < |s.order| && |s.states| == |s.order| + 1
    ensures ConfigAt(Popped(s), k) == ConfigAt(s, k)
  {
    assert s.order[..|s.order| - 1][..k] == s.order[..k];
  }

  lemma PoppedInv<S(!new), I, O>(m: Model<S, I, O>, h: seq<Entry<I, O>>, ops: seq<Op<I, O>>,
                                 s: Search<S>, partials: bool, longest: Longest, cursor: nat)
    requires Describes(h, ops) && s.order != []
    requires Inv(m, ops, s, partials, longest) && CursorOk(m, h, ops, s, cursor)
    requires h[cursor - 1].Return?
    requires partials ==> Recorded(longest, Top(s))
    ensures Inv(m, ops, Popped(s), partials, longest)
  {
    var s' := Popped(s);
    TopClosed(m, h, ops, s, cursor);
    PoppedLevels(m, ops, s);
    PoppedCache(m, ops, s, partials, longest);
    forall k | 0 <= k < |s'.order|
      ensures Tried(m, ops, s'.cache, ConfigAt(s', k), CallPos(ops, s'.order[k]) + 1)
    {
      PoppedConfig(s, k);
    }
  }

  lemma PoppedCursor<S(!new), I, O>(m: Model<S, I, O>, h: seq<Entry<I, O>>, ops: seq<Op<I, O>>, s: Search<S>)
    requires Describes(h, ops) && s.order != []
    requires StackOk(m, ops, s) && LevelsTried(m, ops, s)
    ensures var i := s.order[|s.order| - 1];
            CursorOk(m, h, ops, Popped(s), NextLive(Live(h, Elems(Popped(s).order)), |h|, CallPos(ops, i)))
  {
    var s' := Popped(s);
    var k := |s.order| - 1;
    var i := s.order[k];
    var done := Elems(s'.order);
    PoppedLevels(m, ops, s);
    CallsBeforeEnabled(h, ops, done, i);
    NextAfterCall(h, ops, done, i);
    assert Tried(m, ops, s.cache, ConfigAt(s, k), CallPos(ops, i) + 1);
    forall j: nat | CanStep(m, ops, Top(s'), j) && CallPos(ops, j) < NextLive(Live(h, done), |h|, CallPos(ops, i))
      ensures Covered(m, s'.cache, Succ(m, ops, Top(s'), j))
    {
      CallsUpToCursor(h, ops, done, CallPos(ops, i), j);
    }
  }

  // ---- the iterations, as the loop sees them ----

  /** The search is where the loop test finds it: done, or with the cursor on an entry. */
  ghost predicate Searching<S(!new), I, O>(m: Model<S, I, O>, h: seq<Entry<I, O>>, ops: seq<Op<I, O>>,
                                           s: Search<S>, cursor: nat, partials: bool, longest: Longest) {
    && Describes(h, ops)
    && Inv(m, ops, s, partials, longest)
    && (|s.order| != |ops| ==> CursorOk(m, h, ops, s, cursor))
  }

  lemma Skips<S(!new), I, O>(m: Model<S, I, O>, h: seq<Entry<I, O>>, ops: seq<Op<I, O>>,
                             s: Search<S>, cursor: nat, partials: bool, longest: Longest, i: nat)
    requires Searching(m, h, ops, s, cursor, partials, longest) && |s.order| != |ops|
    requires i < |ops| && cursor == CallPos(ops, i)
    requires Accepts(m, ops, Top(s).state, i) ==> Covered(m, s.cache, Succ(m, ops, Top(s), i))
    ensures var next := NextLive(Live(h, Elems(s.order)), |h|, cursor);
            next <= |h| && Searching(m, h, ops, s, next, partials, longest)
  {
    Advanced(m, h, ops, s, i, cursor);
  }

  lemma Pushes<S(!new), I, O>(m: Model<S, I, O>, h: seq<Entry<I, O>>, ops: seq<Op<I, O>>,
                              s: Search<S>, cursor: nat, partials: bool, longest: Longest, i: nat)
    requires Searching(m, h, ops, s, cursor, partials, longest) && |s.order| != |ops|
    requires i < |ops| && cursor == CallPos(ops, i)
    requires Accepts(m, ops, Top(s).state, i) && !Covered(m, s.cache, Succ(m, ops, Top(s), i))
    requires SelfEqual(m, Succ(m, ops, Top(s), i).state)
    ensures var s' := Pushed(m, ops, s, i);
            && Searching(m, h, ops, s', NextLive(Live(h, Elems(s'.order)), |h|, 0), partials, longest)
            && Unexplored(m, ops, s') < Unexplored(m, ops, s)
  {
    var s' := Pushed(m, ops, s, i);
    PushedInv(m, h, ops, s, partials, longest, i, cursor);
    PushedCursor(m, h, ops, s');
    LessUnexplored(m, ops, s, s', Succ(m, ops, Top(s), i));
  }

  lemma LessUnexplored<S(!new), I, O>(m: Model<S, I, O>, ops: seq<Op<I, O>>, s: Search<S>, s': Search<S>, c: Config<S>)
    requires s'.cache == s.cache + {c} && c !in s.cache && c in ReachedWithin(m, ops, |ops|)
    ensures Unexplored(m, ops, s') < Unexplored(m, ops, s)
  {
    var all := ReachedWithin(m, ops, |ops|);
    assert all - s'.cache == (all - s.cache) - {c};
  }

  lemma Pops<S(!new), I, O>(m: Model<S, I, O>, h: seq<Entry<I, O>>, ops: seq<Op<I, O>>,
                            s: Search<S>, cursor: nat, partials: bool, longest: Longest)
    returns (s': Search<S>, cursor': nat)
    requires Searching(m, h, ops, s, cursor, partials, longest) && s.order != [] && |s.order| != |ops|
    requires h[cursor - 1].Return? && (partials ==> Recorded(longest, Top(s)))
    ensures s' == Popped(s)
    ensures cursor' == NextLive(Live(h, Elems(s'.order)), |h|, CallPos(ops, s.order[|s.order| - 1]))
    ensures Searching(m, h, ops, s', cursor', partials, longest)
  {
    s' := Popped(s);
    cursor' := NextLive(Live(h, Elems(s'.order)), |h|, CallPos(ops, s.order[|s.order| - 1]));
    PoppedInv(m, h, ops, s, partials, longest, cursor);
    PoppedCursor(m, h, ops, s);
  }

  /** How many reachable configurations are not cached yet: what makes the search end. */
  ghost function Unexplored<S(!new), I, O>(m: Model<S, I, O>, ops: seq<Op<I, O>>, s: Search<S>): nat {
    |ReachedWithin(m, ops, |ops|) - s.cache|
  }

  // ---- recording the longest partial linearizations ----

  /** `after` records the stack `order` wherever nothing as long was recorded before. */
  ghost predicate Record(before: Longest, after: Longest, order: seq<nat>) {
    && |after| == |before|
    && forall j :: 0 <= j < |before| ==>
         after[j] ==
         if j in order && (before[j].None? || |order| > |before[j].value|) then Some(order) else before[j]
  }

  lemma RecordKeeps<S(!new), I, O>(m: Model<S, I, O>, ops: seq<Op<I, O>>, s: Search<S>, before: Longest, after: Longest)
    requires Inv(m, ops, s, true, before) && Record(before, after, s.order)
    ensures Inv(m, ops, s, true, after)
    ensures Recorded(after, Top(s))
  {
    DistinctSize(s.order);
    forall c | c in s.cache && Recorded(before, c)
      ensures Recorded(after, c)
    {
      forall j | j in c.done
        ensures j < |after| && after[j].Some? && |after[j].value| >= |c.done|
      {
        assert j < |before| && before[j].Some?;
      }
    }
  }

  // ---- when the search stops ----

  /** A full stack is a linearization. */
  lemma FullStackIsLinearization<S, I, O>(m: Model<S, I, O>, h: seq<Entry<I, O>>, ops: seq<Op<I, O>>, s: Search<S>)
    requires Describes(h, ops) && StackOk(m, ops, s) && |s.order| == |ops|
    ensures Linearization(m, ops, s.order)
    ensures forall j: nat :: j < |ops| ==> j in s.order
  {
    CompletePartialIsLinearization(m, ops, s.order);
    DistinctBelowIsAll(s.order, |ops|);
    forall j: nat | j < |ops|
      ensures j in s.order
    {
      assert j in Elems(s.order);
    }
  }

  /** Nothing was missed: every partial linearization leads to a cached configuration. */
  lemma {:induction false} AllCovered<S(!new), I(!new), O(!new)>(m: Model<S, I, O>, ops: seq<Op<I, O>>,
                                                                 cache: set<Config<S>>, order: seq<nat>)
    requires RespectsStep(m)
    requires Closed(m, ops, cache, Config({}, m.init))
    requires forall c :: c in cache ==> Closed(m, ops, cache, c)
    requires Partial(m, ops, order) && order != []
    ensures Covered(m, cache, ConfigOf(m, ops, order))
  {
    var k := |order| - 1;
    PartialPrefix(m, ops, order);
    var p := ConfigOf(m, ops, order[..k]);
    var d := p;
    if k == 0 {
      assert order[..k] == [];
      assert p == Config({}, m.init);
      assert SelfEqual(m, p.state);
    } else {
      AllCovered(m, ops, cache, order[..k]);
      d :| d in cache && d.done == p.done && m.equal(p.state, d.state);
    }
    assert StepAgrees(m, p.state, d.state, ops[order[k]].input, ops[order[k]].output);
    assert CanStep(m, ops, d, order[k]);
    var c := Succ(m, ops, d, order[k]);
    var e :| e in cache && e.done == c.done && m.equal(c.state, e.state);
    assert EqualChains(m, ConfigOf(m, ops, order).state, c.state, e.state);
  }

  /** The stack is empty and the cursor on a return: the search has failed, and rightly so. */
  lemma NothingMissed<S(!new), I(!new), O(!new)>(m: Model<S, I, O>, h: seq<Entry<I, O>>, ops: seq<Op<I, O>>,
                                 s: Search<S>, partials: bool, longest: Longest, cursor: nat, order: seq<nat>)
    requires RespectsStep(m) && Describes(h, ops) && s.order == []
    requires Inv(m, ops, s, partials, longest) && CursorOk(m, h, ops, s, cursor)
    requires h[cursor - 1].Return?
    requires Partial(m, ops, order) && order != []
    ensures |order| < |ops|
    ensures partials ==> forall j :: j in order ==> longest[j].Some? && |longest[j].value| >= |order|
  {
    TopClosed(m, h, ops, s, cursor);
    assert Top(s) == Config({}, m.init) by {
      assert s.order[..0] == [] && After(m, ops, []) == Some(s.states[0]);
    }
    AllCovered(m, ops, s.cache, order);
    var c := ConfigOf(m, ops, order);
    var d :| d in s.cache && d.done == c.done && m.equal(c.state, d.state);
    DistinctSize(order);
    if partials {
      assert Recorded(longest, d);
      forall j | j in order
        ensures longest[j].Some? && |longest[j].value| >= |order|
      {
        assert j in d.done;
      }
    }
  }
}
