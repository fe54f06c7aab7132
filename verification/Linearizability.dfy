/**
 * What the checker decides. A history is a list of operations, each with the
 * time of its call and the time of its return; a model is a sequential
 * specification. The definitions here know nothing of the search that decides
 * them (labs/src/porcupine/checker.go) nor of the entry list it works on.
 */
module Linearizability {
  import opened Common

  /** The functions of a porcupine Model the search calls. */
  datatype Model<!S, !I, !O> = Model(
    init: S,
    step: (S, I, O) -> (bool, S),
    equal: (S, S) -> bool)

  /** One operation: an input, an output and the interval between call and return. */
  datatype Op<I, O> = Op(input: I, output: O, call: int, ret: int)

  /** A point of the search: which operations are linearized, and the state they lead to. */
  datatype Config<S> = Config(done: set<nat>, state: S)

  ghost predicate SelfEqual<S, I, O>(m: Model<S, I, O>, s: S) {
    m.equal(s, s)
  }

  ghost predicate EqualChains<S, I, O>(m: Model<S, I, O>, s: S, t: S, u: S) {
    m.equal(s, t) && m.equal(t, u) ==> m.equal(s, u)
  }

  /** A step the model takes from s it also takes from a state equal to s, to an equal state. */
  ghost predicate StepAgrees<S, I, O>(m: Model<S, I, O>, s: S, t: S, i: I, o: O) {
    m.equal(s, t) && m.step(s, i, o).0 ==> m.step(t, i, o).0 && m.equal(m.step(s, i, o).1, m.step(t, i, o).1)
  }

  /** `Equal` may identify states, as long as `Step` cannot tell them apart. */
  ghost predicate RespectsStep<S(!new), I(!new), O(!new)>(m: Model<S, I, O>) {
    && (forall s :: SelfEqual(m, s))
    && (forall s, t, u :: EqualChains(m, s, t, u))
    && (forall s, t, i, o :: StepAgrees(m, s, t, i, o))
  }

  predicate CallsPrecedeReturns<I, O>(ops: seq<Op<I, O>>) {
    forall i :: 0 <= i < |ops| ==> ops[i].call < ops[i].ret
  }

  /** Real-time order: a returned before b was called. */
  predicate Precedes<I, O>(ops: seq<Op<I, O>>, a: nat, b: nat)
    requires a < |ops| && b < |ops|
  {
    ops[a].ret < ops[b].call
  }

  /** One operation more, if there is a state to run it from and the model accepts it there. */
  ghost function Then<S, I, O>(m: Model<S, I, O>, ops: seq<Op<I, O>>, s: Option<S>, i: nat): Option<S> {
    if s.None? || i >= |ops| then None else
    var r := m.step(s.value, ops[i].input, ops[i].output);
    if r.0 then Some(r.1) else None
  }

  /** The state after running the operations `order` from the initial state, if the model accepts each. */
  ghost function After<S, I, O>(m: Model<S, I, O>, ops: seq<Op<I, O>>, order: seq<nat>): Option<S> {
    if order == [] then Some(m.init) else
    var k := |order| - 1;
    Then(m, ops, After(m, ops, order[..k]), order[k])
  }

  ghost predicate IdsOf<I, O>(ops: seq<Op<I, O>>, order: seq<nat>) {
    forall k :: 0 <= k < |order| ==> order[k] < |ops|
  }

  /** A total order of the whole history that the model accepts and that respects real time. */
  ghost predicate Linearization<S, I, O>(m: Model<S, I, O>, ops: seq<Op<I, O>>, order: seq<nat>) {
    && |order| == |ops|
    && IdsOf(ops, order)
    && Distinct(order)
    && After(m, ops, order).Some?
    && forall a, b :: 0 <= a < b < |order| ==> !Precedes(ops, order[b], order[a])
  }

  ghost predicate Linearizable<S, I, O>(m: Model<S, I, O>, ops: seq<Op<I, O>>) {
    exists order :: Linearization(m, ops, order)
  }

  // ---- the same operations in another list ----

  /** rename[i] is where b lists the operation that a lists at i. */
  ghost predicate Renames<I, O>(a: seq<Op<I, O>>, b: seq<Op<I, O>>, rename: seq<nat>) {
    && |rename| == |a|
    && forall i :: 0 <= i < |a| ==> rename[i] < |b| && b[rename[i]] == a[i]
  }

  ghost function Renamed(order: seq<nat>, rename: seq<nat>): (r: seq<nat>)
    requires forall k :: 0 <= k < |order| ==> order[k] < |rename|
    ensures |r| == |order| && forall k :: 0 <= k < |r| ==> r[k] == rename[order[k]]
  {
    seq(|order|, k requires 0 <= k < |order| => rename[order[k]])
  }

  lemma {:induction false} RenamedAfter<S, I, O>(m: Model<S, I, O>, a: seq<Op<I, O>>, b: seq<Op<I, O>>,
                                                 rename: seq<nat>, order: seq<nat>)
    requires Renames(a, b, rename) && IdsOf(a, order)
    ensures After(m, b, Renamed(order, rename)) == After(m, a, order)
  {
    if order != [] {
      var k := |order| - 1;
      RenamedAfter(m, a, b, rename, order[..k]);
      assert Renamed(order, rename)[..k] == Renamed(order[..k], rename);
    }
  }

  // ---- partial linearizations ----

  /** Every operation of the order comes after all that precede it in real time. */
  ghost predicate AfterPredecessors<I, O>(ops: seq<Op<I, O>>, order: seq<nat>)
    requires IdsOf(ops, order)
  {
    forall k, j :: 0 <= k < |order| && 0 <= j < |ops| && Precedes(ops, j, order[k]) ==> j in order[..k]
  }

  /** An order of some of the operations that could be the beginning of a linearization. */
  ghost predicate Partial<S, I, O>(m: Model<S, I, O>, ops: seq<Op<I, O>>, order: seq<nat>) {
    && IdsOf(ops, order)
    && Distinct(order)
    && After(m, ops, order).Some?
    && AfterPredecessors(ops, order)
  }

  /** The complete partial linearizations are the linearizations. */
  lemma CompletePartialIsLinearization<S, I, O>(m: Model<S, I, O>, ops: seq<Op<I, O>>, order: seq<nat>)
    requires CallsPrecedeReturns(ops)
    ensures Linearization(m, ops, order) <==> Partial(m, ops, order) && |order| == |ops|
  {
    if Linearization(m, ops, order) {
      DistinctBelowIsAll(order, |ops|);
      forall k, j | 0 <= k < |order| && 0 <= j < |ops| && Precedes(ops, j, order[k])
        ensures j in order[..k]
      {
        assert j in Elems(order);
        var b :| 0 <= b < |order| && order[b] == j;
        assert b < k;
      }
    }
    if Partial(m, ops, order) && |order| == |ops| {
      forall a, b | 0 <= a < b < |order|
        ensures !Precedes(ops, order[b], order[a])
      {
        assert order[b] !in order[..a];
      }
    }
  }

  // ---- one step of the search ----

  /** i may come next: it is not linearized, and nothing still to be linearized precedes it. */
  ghost predicate Enabled<I, O>(ops: seq<Op<I, O>>, done: set<nat>, i: nat) {
    && i < |ops|
    && i !in done
    && forall j: nat :: j < |ops| && j !in done ==> !Precedes(ops, j, i)
  }

  ghost predicate Accepts<S, I, O>(m: Model<S, I, O>, ops: seq<Op<I, O>>, s: S, i: nat)
    requires i < |ops|
  {
    m.step(s, ops[i].input, ops[i].output).0
  }

  ghost function Succ<S, I, O>(m: Model<S, I, O>, ops: seq<Op<I, O>>, c: Config<S>, i: nat): Config<S>
    requires i < |ops|
  {
    Config(c.done + {i}, m.step(c.state, ops[i].input, ops[i].output).1)
  }

  ghost predicate CanStep<S, I, O>(m: Model<S, I, O>, ops: seq<Op<I, O>>, c: Config<S>, i: nat) {
    Enabled(ops, c.done, i) && Accepts(m, ops, c.state, i)
  }

  /** The configuration a partial linearization leads to. */
  ghost function ConfigOf<S, I, O>(m: Model<S, I, O>, ops: seq<Op<I, O>>, order: seq<nat>): Config<S>
    requires After(m, ops, order).Some?
  {
    Config(Elems(order), After(m, ops, order).value)
  }

  lemma PartialPrefix<S, I, O>(m: Model<S, I, O>, ops: seq<Op<I, O>>, order: seq<nat>)
    requires Partial(m, ops, order) && order != []
    ensures var k := |order| - 1;
            && Partial(m, ops, order[..k])
            && CanStep(m, ops, ConfigOf(m, ops, order[..k]), order[k])
            && ConfigOf(m, ops, order) == Succ(m, ops, ConfigOf(m, ops, order[..k]), order[k])
  {
    var k := |order| - 1;
    var p := order[..k];
    assert order == p + [order[k]];
    ElemsAppend(p, order[k]);
    forall a, j | 0 <= a < |p| && 0 <= j < |ops| && Precedes(ops, j, p[a])
      ensures j in p[..a]
    {
      assert j in order[..a];
      assert order[..a] == p[..a];
    }
    assert After(m, ops, p).Some?;
    forall j: nat | j < |ops| && j !in Elems(p)
      ensures !Precedes(ops, j, order[k])
    {
    }
  }

  lemma PartialExtend<S, I, O>(m: Model<S, I, O>, ops: seq<Op<I, O>>, order: seq<nat>, i: nat)
    requires Partial(m, ops, order)
    requires CanStep(m, ops, ConfigOf(m, ops, order), i)
    ensures Partial(m, ops, order + [i])
    ensures ConfigOf(m, ops, order + [i]) == Succ(m, ops, ConfigOf(m, ops, order), i)
  {
    assert (order + [i])[..|order|] == order;
    ElemsAppend(order, i);
    AfterPredecessorsExtend(ops, order, i);
  }

  lemma AfterPredecessorsExtend<I, O>(ops: seq<Op<I, O>>, order: seq<nat>, i: nat)
    requires IdsOf(ops, order) && AfterPredecessors(ops, order) && Enabled(ops, Elems(order), i)
    ensures AfterPredecessors(ops, order + [i])
  {
    var o := order + [i];
    forall k, j | 0 <= k < |o| && 0 <= j < |ops| && Precedes(ops, j, o[k])
      ensures j in o[..k]
    {
      if k < |order| {
        assert o[..k] == order[..k];
      } else {
        assert o[..k] == order;
        assert j in Elems(order);
      }
    }
  }

  // ---- the search space is finite ----

  /** Configurations reached by exactly k steps. */
  ghost function ReachedIn<S(!new), I, O>(m: Model<S, I, O>, ops: seq<Op<I, O>>, k: nat): set<Config<S>> {
    if k == 0 then {Config({}, m.init)} else
    var prev := ReachedIn(m, ops, k - 1);
    set c, i | c in prev && i in Below(|ops|) && CanStep(m, ops, c, i) :: Succ(m, ops, c, i)
  }

  ghost function ReachedWithin<S(!new), I, O>(m: Model<S, I, O>, ops: seq<Op<I, O>>, k: nat): set<Config<S>> {
    if k == 0 then ReachedIn(m, ops, 0) else ReachedWithin(m, ops, k - 1) + ReachedIn(m, ops, k)
  }

  lemma {:induction false} PartialIsReached<S(!new), I, O>(m: Model<S, I, O>, ops: seq<Op<I, O>>, order: seq<nat>)
    requires Partial(m, ops, order)
    ensures ConfigOf(m, ops, order) in ReachedIn(m, ops, |order|)
  {
    if order == [] {
      assert Elems(order) == {};
    } else {
      var k := |order| - 1;
      PartialPrefix(m, ops, order);
      PartialIsReached(m, ops, order[..k]);
      assert order[k] in Below(|ops|);
    }
  }

  lemma {:induction false} ReachedInWithin<S(!new), I, O>(m: Model<S, I, O>, ops: seq<Op<I, O>>, j: nat, k: nat)
    requires j <= k
    ensures ReachedIn(m, ops, j) <= ReachedWithin(m, ops, k)
  {
    if j < k {
      ReachedInWithin(m, ops, j, k - 1);
    }
  }

  /** Every partial linearization leads to one of finitely many configurations. */
  lemma PartialReachable<S(!new), I, O>(m: Model<S, I, O>, ops: seq<Op<I, O>>, order: seq<nat>)
    requires Partial(m, ops, order)
    ensures |order| <= |ops|
    ensures ConfigOf(m, ops, order) in ReachedWithin(m, ops, |ops|)
  {
    DistinctSize(order);
    BelowSize(|ops|);
    SubsetSize(Elems(order), Below(|ops|));
    PartialIsReached(m, ops, order);
    ReachedInWithin(m, ops, |order|, |ops|);
  }
}
