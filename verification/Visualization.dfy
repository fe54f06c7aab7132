/**
 * What becomes of the recorded partial linearizations: the combiner collects
 * them (labs/src/porcupine/checker.go:314-333) and the visualizer replays them
 * (labs/src/porcupine/visualization.go:33-87). A replay that the model rejects
 * is a panic, written None.
 */
module Visualization {
  import opened Common
  import opened Sorting
  import opened Linearizability
  import opened EntryList
  import opened History
  import opened Search
  import opened Checker

  /** The pointers to the list p among given ones. */
  ghost function PointersTo(pointers: set<Ids>, p: seq<nat>): set<Ids> {
    set x | x in pointers && x.ids == p
  }

  /** The pointers recorded. */
  ghost function Recorded(longest: seq<Ids?>): set<Ids> {
    set x: Ids | x in longest
  }

  lemma OnePointerMore(pointers: set<Ids>, x: Ids, p: seq<nat>)
    requires x !in pointers
    ensures |PointersTo(pointers + {x}, p)| == |PointersTo(pointers, p)| + if x.ids == p then 1 else 0
  {
    if x.ids == p {
      assert PointersTo(pointers + {x}, p) == PointersTo(pointers, p) + {x};
    } else {
      assert PointersTo(pointers + {x}, p) == PointersTo(pointers, p);
    }
  }

  /** The recorded linearizations, one copy for each distinct pointer. */
  method UniquePartials(longest: seq<Ids?>) returns (partials: seq<seq<nat>>)
    ensures forall p :: multiset(partials)[p] == |PointersTo(Recorded(longest), p)|
  {
    var pointers: set<Ids> := {};
    for i := 0 to |longest|
      invariant pointers == Recorded(longest[..i])
    {
      assert longest[..i + 1] == longest[..i] + [longest[i]];
      if longest[i] != null {
        pointers := pointers + {longest[i]};
      }
    }
    assert longest[..|longest|] == longest;
    partials := [];
    var rest := pointers;
    while rest != {}
      invariant rest <= pointers
      invariant forall p :: multiset(partials)[p] == |PointersTo(pointers - rest, p)|
      decreases |rest|
    {
      var k :| k in rest;
      forall p
        ensures multiset(partials + [k.ids])[p] == |PointersTo(pointers - (rest - {k}), p)|
      {
        OnePointerMore(pointers - rest, k, p);
        assert pointers - (rest - {k}) == pointers - rest + {k};
      }
      partials := partials + [k.ids];
      rest := rest - {k};
    }
    assert pointers - rest == pointers;
  }

  /** The lists copied are exactly the recorded ones. */
  lemma CopiesAreRecorded(longest: seq<Ids?>, partials: seq<seq<nat>>, p: seq<nat>)
    requires multiset(partials)[p] == |PointersTo(Recorded(longest), p)|
    ensures p in partials <==> exists i :: 0 <= i < |longest| && longest[i] != null && longest[i].ids == p
  {
    var xs := PointersTo(Recorded(longest), p);
    if p in partials {
      assert p in multiset(partials) && xs != {};
      var x :| x in xs;
      var i :| 0 <= i < |longest| && longest[i] == x;
    }
    if i :| 0 <= i < |longest| && longest[i] != null && longest[i].ids == p {
      assert longest[i] in xs;
      assert |xs| > 0;
    }
  }

  // ---- replaying ----

  datatype HistoryElement = HistoryElement(clientId: int, start: int, end: int)
  datatype LinearizationStep = LinearizationStep(index: nat, stateDescription: string)

  /** What the page shows for one partition. */
  datatype PartitionData = PartitionData(
    history: seq<HistoryElement>,
    linearizations: seq<seq<LinearizationStep>>,
    largest: map<nat, nat>)

  /** The bars of the page: each operation's client and the times of its call and return. */
  ghost predicate HistoryOk<I, O>(entries: seq<Entry<I, O>>, ops: seq<Op<I, O>>, history: seq<HistoryElement>)
    requires Describes(entries, ops)
  {
    && |history| == |ops|
    && forall i :: 0 <= i < |ops| ==>
         && history[i].start == entries[ops[i].call].time && history[i].end == entries[ops[i].ret].time
         && history[i].clientId == entries[ops[i].call].clientId
  }

  ghost predicate HoldsValues<I, O>(ops: seq<Op<I, O>>, callValue: map<int, I>, returnValue: map<int, O>) {
    forall i :: 0 <= i < |ops| ==>
      i in callValue && callValue[i] == ops[i].input && i in returnValue && returnValue[i] == ops[i].output
  }

  method Values<I, O>(entries: seq<Entry<I, O>>, n: nat, ghost ops: seq<Op<I, O>>)
    returns (history: seq<HistoryElement>, callValue: map<int, I>, returnValue: map<int, O>)
    requires Describes(entries, ops) && n == |ops|
    ensures HistoryOk(entries, ops, history) && HoldsValues(ops, callValue, returnValue)
  {
    history := seq(n, _ => HistoryElement(0, 0, 0));
    callValue, returnValue := map[], map[];
    for p := 0 to |entries|
      invariant |history| == n
      invariant forall i :: 0 <= i < n && ops[i].call < p ==>
        && i in callValue && callValue[i] == ops[i].input
        && history[i].start == entries[ops[i].call].time && history[i].clientId == entries[ops[i].call].clientId
      invariant forall i :: 0 <= i < n && ops[i].ret < p ==>
        i in returnValue && returnValue[i] == ops[i].output && history[i].end == entries[ops[i].ret].time
    {
      var elem := entries[p];
      assert 0 <= elem.id < n;
      match elem {
        case Call(v, id, time, clientId) =>
          history := history[id := history[id].(clientId := clientId, start := time)];
          callValue := callValue[id := v];
        case Return(v, id, time, _) =>
          history := history[id := history[id].(end := time)];
          returnValue := returnValue[id := v];
      }
    }
  }

  /** The steps shown for a partial linearization: each operation with the state it leads to. */
  ghost predicate Shows<S, I, O>(m: Model<S, I, O>, ops: seq<Op<I, O>>, describe: S -> string, order: seq<nat>,
                                 steps: seq<LinearizationStep>) {
    |steps| == |order| && forall j :: 0 <= j < |order| ==> ShowsStep(m, ops, describe, order, j, steps[j])
  }

  ghost predicate ShowsStep<S, I, O>(m: Model<S, I, O>, ops: seq<Op<I, O>>, describe: S -> string, order: seq<nat>,
                                     j: nat, step: LinearizationStep)
    requires j < |order|
  {
    var reached := After(m, ops, order[..j + 1]);
    reached.Some? && step == LinearizationStep(order[j], describe(reached.value))
  }

  lemma {:induction false} PrefixAccepted<S, I, O>(m: Model<S, I, O>, ops: seq<Op<I, O>>, order: seq<nat>, k: nat)
    requires After(m, ops, order).Some? && k <= |order|
    ensures After(m, ops, order[..k]).Some?
    decreases |order|
  {
    if k == |order| {
      assert order[..k] == order;
    } else {
      var shorter := order[..|order| - 1];
      PrefixAccepted(m, ops, shorter, k);
      assert shorter[..k] == order[..k];
    }
  }

  /** Replay one partial linearization; None if the model rejects a step of it. */
  method Replay<S, I, O>(m: Model<S, I, O>, describe: S -> string, callValue: map<int, I>, returnValue: map<int, O>,
                         order: seq<nat>, ghost ops: seq<Op<I, O>>)
    returns (steps: Option<seq<LinearizationStep>>)
    requires IdsOf(ops, order) && HoldsValues(ops, callValue, returnValue)
    ensures steps.Some? <==> After(m, ops, order).Some?
    ensures steps.Some? ==> Shows(m, ops, describe, order, steps.value)
  {
    var state := m.init;
    var linearization: seq<LinearizationStep> := [];
    for j := 0 to |order|
      invariant After(m, ops, order[..j]) == Some(state)
      invariant |linearization| == j
      invariant forall k :: 0 <= k < j ==> ShowsStep(m, ops, describe, order, k, linearization[k])
    {
      assert order[..j + 1][..j] == order[..j];
      var histId := order[j];
      var (ok, next) := m.step(state, callValue[histId], returnValue[histId]);
      if !ok {
        if After(m, ops, order).Some? {
          PrefixAccepted(m, ops, order, j + 1);
          assert false;
        }
        return None;
      }
      state := next;
      linearization := linearization + [LinearizationStep(histId, describe(state))];
    }
    assert order[..|order|] == order;
    return Some(linearization);
  }

  // ---- the largest linearization of each operation ----

  predicate NotShorter(a: seq<nat>, b: seq<nat>) {
    |a| >= |b|
  }

  /** For each operation that occurs in the first lists, the index of the first of the longest it occurs in. */
  ghost predicate LargestOk(partials: seq<seq<nat>>, upTo: nat, largest: map<nat, nat>)
    requires upTo <= |partials|
  {
    && (forall id :: id in largest ==> largest[id] < upTo && id in partials[largest[id]])
    && (forall id :: id in largest ==> FirstLongest(partials, largest[id], id))
    && (forall i: nat {:trigger Entered(partials, largest, i)} :: i < upTo ==> Entered(partials, largest, i))
  }

  /** The lists before i that contain id are shorter than list i. */
  ghost predicate FirstLongest(partials: seq<seq<nat>>, i: nat, id: nat) {
    i < |partials| && forall k: nat {:trigger ShorterAt(partials, i, id, k)} :: k < i ==> ShorterAt(partials, i, id, k)
  }

  ghost predicate ShorterAt(partials: seq<seq<nat>>, i: nat, id: nat, k: nat)
    requires i < |partials| && k < |partials|
  {
    id in partials[k] ==> |partials[k]| < |partials[i]|
  }

  /** Each operation of list i has a list at least as long. */
  ghost predicate Entered(partials: seq<seq<nat>>, largest: map<nat, nat>, i: nat)
    requires i < |partials|
  {
    forall id :: id in partials[i] ==> AtLeast(partials, largest, id, |partials[i]|)
  }

  ghost predicate AtLeast(partials: seq<seq<nat>>, largest: map<nat, nat>, id: nat, size: nat) {
    id in largest && largest[id] < |partials| && size <= |partials[largest[id]]|
  }

  ghost predicate SizesOk(partials: seq<seq<nat>>, largest: map<nat, nat>, sizes: map<nat, nat>) {
    && sizes.Keys == largest.Keys
    && forall id :: id in largest ==> largest[id] < |partials| && sizes[id] == |partials[largest[id]]|
  }

  /** No operation's longest list got shorter. */
  ghost predicate Grew(partials: seq<seq<nat>>, before: map<nat, nat>, largest: map<nat, nat>) {
    forall id :: id in before && before[id] < |partials| ==> AtLeast(partials, largest, id, |partials[before[id]]|)
  }

  /** If the longest list entered for an operation is shorter than list i, so are all lists before i with it. */
  lemma ListedShorter(partials: seq<seq<nat>>, i: nat, before: map<nat, nat>, largest: map<nat, nat>,
                      sizes: map<nat, nat>, id: nat)
    requires i < |partials| && LargestOk(partials, i, before) && Grew(partials, before, largest)
    requires SizesOk(partials, largest, sizes) && (if id in sizes then sizes[id] else 0) < |partials[i]|
    ensures FirstLongest(partials, i, id)
  {
    forall k: nat | k < i
      ensures ShorterAt(partials, i, id, k)
    {
      if id in partials[k] {
        assert Entered(partials, before, k);
        assert AtLeast(partials, before, id, |partials[k]|);
        assert AtLeast(partials, largest, id, |partials[before[id]]|);
      }
    }
  }

  /** While the operations of list i are entered, the first j of them are. */
  ghost predicate Entering(partials: seq<seq<nat>>, i: nat, j: nat, before: map<nat, nat>, largest: map<nat, nat>,
                           sizes: map<nat, nat>)
    requires i < |partials| && j <= |partials[i]|
  {
    && SizesOk(partials, largest, sizes) && Grew(partials, before, largest)
    && (forall id :: id in largest ==>
          largest[id] < i + 1 && id in partials[largest[id]] && FirstLongest(partials, largest[id], id))
    && (forall k :: 0 <= k < j ==> AtLeast(partials, largest, partials[i][k], |partials[i]|))
  }

  /** Entering one more operation. */
  lemma EnterOne(partials: seq<seq<nat>>, i: nat, j: nat, before: map<nat, nat>, largest: map<nat, nat>,
                 sizes: map<nat, nat>, largest': map<nat, nat>, sizes': map<nat, nat>)
    requires i < |partials| && j < |partials[i]| && LargestOk(partials, i, before)
    requires Entering(partials, i, j, before, largest, sizes)
    requires var id, size := partials[i][j], |partials[i]|;
             if (if id in sizes then sizes[id] else 0) < size
             then largest' == largest[id := i] && sizes' == sizes[id := size]
             else largest' == largest && sizes' == sizes
    ensures Entering(partials, i, j + 1, before, largest', sizes')
  {
    var id, size := partials[i][j], |partials[i]|;
    if (if id in sizes then sizes[id] else 0) < size {
      ListedShorter(partials, i, before, largest, sizes, id);
      forall x | x in before && before[x] < |partials|
        ensures AtLeast(partials, largest', x, |partials[before[x]]|)
      {
        assert AtLeast(partials, largest, x, |partials[before[x]]|);
      }
      forall k | 0 <= k < j
        ensures AtLeast(partials, largest', partials[i][k], size)
      {
        assert AtLeast(partials, largest, partials[i][k], size);
      }
    }
  }

  lemma AllEntered(partials: seq<seq<nat>>, i: nat, before: map<nat, nat>, largest: map<nat, nat>,
                   sizes: map<nat, nat>)
    requires i < |partials| && LargestOk(partials, i, before)
    requires Entering(partials, i, |partials[i]|, before, largest, sizes)
    ensures LargestOk(partials, i + 1, largest) && SizesOk(partials, largest, sizes)
  {
    forall k: nat | k < i + 1
      ensures Entered(partials, largest, k)
    {
      if k < i {
        assert Entered(partials, before, k);
      }
    }
  }

  /** Enter the operations of list i. */
  method UpdateLargest(partials: seq<seq<nat>>, i: nat, before: map<nat, nat>, sizesBefore: map<nat, nat>)
    returns (largest: map<nat, nat>, sizes: map<nat, nat>)
    requires i < |partials|
    requires LargestOk(partials, i, before) && SizesOk(partials, before, sizesBefore)
    ensures LargestOk(partials, i + 1, largest) && SizesOk(partials, largest, sizes)
  {
    var partial := partials[i];
    largest, sizes := before, sizesBefore;
    for j := 0 to |partial|
      invariant Entering(partials, i, j, before, largest, sizes)
    {
      ghost var largest0, sizes0 := largest, sizes;
      var histId := partial[j];
      if (if histId in sizes then sizes[histId] else 0) < |partial| {
        sizes := sizes[histId := |partial|];
        largest := largest[histId := i];
      }
      EnterOne(partials, i, j, before, largest0, sizes0, largest, sizes);
    }
    AllEntered(partials, i, before, largest, sizes);
  }

  method SortPartials(partials: seq<seq<nat>>) returns (sorted: seq<seq<nat>>)
    ensures multiset(sorted) == multiset(partials) && Sorted(sorted, NotShorter)
    ensures forall p :: p in sorted <==> p in partials
  {
    sorted := Sort(partials, NotShorter);
    assert forall p :: p in sorted <==> p in multiset(sorted);
    assert forall p :: p in partials <==> p in multiset(partials);
  }

  ghost predicate ShownAt<S, I, O>(m: Model<S, I, O>, ops: seq<Op<I, O>>, describe: S -> string,
                                   partials: seq<seq<nat>>, shown: seq<seq<LinearizationStep>>, i: nat)
    requires i < |shown| <= |partials|
  {
    After(m, ops, partials[i]).Some? && Shows(m, ops, describe, partials[i], shown[i])
  }

  /** The first lists replay, and their steps are shown. */
  ghost predicate AllShown<S, I, O>(m: Model<S, I, O>, ops: seq<Op<I, O>>, describe: S -> string,
                                    partials: seq<seq<nat>>, shown: seq<seq<LinearizationStep>>) {
    && |shown| <= |partials|
    && forall i: nat {:trigger ShownAt(m, ops, describe, partials, shown, i)} :: i < |shown| ==>
         ShownAt(m, ops, describe, partials, shown, i)
  }

  lemma OneMoreShown<S, I, O>(m: Model<S, I, O>, ops: seq<Op<I, O>>, describe: S -> string, partials: seq<seq<nat>>,
                              shown: seq<seq<LinearizationStep>>, steps: seq<LinearizationStep>)
    requires AllShown(m, ops, describe, partials, shown) && |shown| < |partials|
    requires var p := partials[|shown|]; After(m, ops, p).Some? && Shows(m, ops, describe, p, steps)
    ensures AllShown(m, ops, describe, partials, shown + [steps])
  {
    forall i: nat | i < |shown| + 1
      ensures ShownAt(m, ops, describe, partials, shown + [steps], i)
    {
      assert i < |shown| ==> ShownAt(m, ops, describe, partials, shown, i);
    }
  }

  lemma ShownAreAccepted<S, I, O>(m: Model<S, I, O>, ops: seq<Op<I, O>>, describe: S -> string,
                                  partials: seq<seq<nat>>, shown: seq<seq<LinearizationStep>>)
    requires AllShown(m, ops, describe, partials, shown) && |shown| == |partials|
    ensures forall p :: p in partials ==> After(m, ops, p).Some?
  {
    forall p | p in partials
      ensures After(m, ops, p).Some?
    {
      var i: nat :| i < |partials| && partials[i] == p;
      assert ShownAt(m, ops, describe, partials, shown, i);
    }
  }

  /** What is shown: the operations' bars, the steps of each list, longest first, and each operation's longest list. */
  ghost predicate ViewOk<S, I, O>(m: Model<S, I, O>, describe: S -> string, entries: seq<Entry<I, O>>,
                                  ops: seq<Op<I, O>>, partials: seq<seq<nat>>, data: PartitionData)
    requires Describes(entries, ops)
  {
    && HistoryOk(entries, ops, data.history)
    && (forall i, j :: 0 <= i < j < |partials| ==> |partials[i]| >= |partials[j]|)
    && |data.linearizations| == |partials|
    && AllShown(m, ops, describe, partials, data.linearizations)
    && LargestOk(partials, |partials|, data.largest)
  }

  /** Replay all lists; None if the model rejects a step of one. */
  method ReplayAll<S, I, O>(m: Model<S, I, O>, describe: S -> string, callValue: map<int, I>,
                            returnValue: map<int, O>, partials: seq<seq<nat>>, ghost ops: seq<Op<I, O>>)
    returns (linearizations: Option<seq<seq<LinearizationStep>>>, largest: map<nat, nat>)
    requires forall p :: p in partials ==> IdsOf(ops, p)
    requires HoldsValues(ops, callValue, returnValue)
    ensures linearizations.Some? <==> forall p :: p in partials ==> After(m, ops, p).Some?
    ensures linearizations.Some? ==>
      && |linearizations.value| == |partials|
      && AllShown(m, ops, describe, partials, linearizations.value)
      && LargestOk(partials, |partials|, largest)
  {
    var shown := [];
    var sizes: map<nat, nat> := map[];
    largest := map[];
    for i := 0 to |partials|
      invariant |shown| == i && AllShown(m, ops, describe, partials, shown)
      invariant LargestOk(partials, i, largest) && SizesOk(partials, largest, sizes)
    {
      var steps := Replay(m, describe, callValue, returnValue, partials[i], ops);
      if steps.None? {
        return None, largest;
      }
      OneMoreShown(m, ops, describe, partials, shown, steps.value);
      shown := shown + [steps.value];
      largest, sizes := UpdateLargest(partials, i, largest, sizes);
    }
    ShownAreAccepted(m, ops, describe, partials, shown);
    linearizations := Some(shown);
  }

  /** The visualization of one partition; None stands for the panic. */
  method PartitionView<S, I, O>(m: Model<S, I, O>, describe: S -> string, entries: seq<Entry<I, O>>,
                                unsorted: seq<seq<nat>>, ghost ops: seq<Op<I, O>>)
    returns (data: Option<PartitionData>, ghost partials: seq<seq<nat>>)
    requires Describes(entries, ops)
    requires forall p :: p in unsorted ==> IdsOf(ops, p)
    ensures multiset(partials) == multiset(unsorted) && forall p :: p in partials <==> p in unsorted
    ensures data.Some? <==> forall p :: p in unsorted ==> After(m, ops, p).Some?
    ensures data.Some? ==> ViewOk(m, describe, entries, ops, partials, data.value)
  {
    var history, callValue, returnValue := Values(entries, |entries| / 2, ops);
    var sorted := SortPartials(unsorted);
    partials := sorted;
    var linearizations, largest := ReplayAll(m, describe, callValue, returnValue, sorted, ops);
    if linearizations.None? {
      return None, partials;
    }
    data := Some(PartitionData(history, linearizations.value, largest));
  }

  /**
   * The check of one partition and the page made from it, whether or not the
   * search was killed: it never panics, and shows the recorded partial
   * linearizations, one for each distinct pointer. On success that is one
   * linearization of the whole history. After a failure, if `Equal`
   * respects `Step`, that is for each operation a longest one.
   */
  method CheckAndView<S(!new, ==), I(!new), O(!new)>(m: Model<S, I, O>, describe: S -> string,
                                                     entries: seq<Entry<I, O>>, kill: nat -> bool)
    returns (ok: bool, data: Option<PartitionData>, longest: seq<Ids?>, loads: nat, ghost partials: seq<seq<nat>>)
    requires (forall x :: SelfEqual(m, x)) && WellFormed(entries)
    ensures data.Some? && ViewOk(m, describe, entries, OpsOf(entries), partials, data.value)
    ensures forall p :: multiset(partials)[p] == |PointersTo(Recorded(longest), p)|
    ensures forall p :: p in partials ==> Partial(m, OpsOf(entries), p)
    ensures ok && entries != [] ==> |partials| == 1 && Linearization(m, OpsOf(entries), partials[0])
    ensures RespectsStep(m) && !ok && !WasKilled(kill, loads) ==>
      forall order, id :: Partial(m, OpsOf(entries), order) && id in order ==>
        AtLeast(partials, data.value.largest, id, |order|)
  {
    ghost var ops := OpsOf(entries);
    ok, longest, loads := CheckSingle(m, entries, true, kill);
    var unsorted := UniquePartials(longest);
    forall p | p in unsorted
      ensures Partial(m, ops, p)
    {
      CopiesAreRecorded(longest, unsorted, p);
      var i :| 0 <= i < |longest| && longest[i] != null && longest[i].ids == p;
      assert View(longest)[i] == Some(p);
    }
    data, partials := PartitionView(m, describe, entries, unsorted, ops);
    if ok && entries != [] {
      OneIsShown(longest, partials);
    }
    if RespectsStep(m) && !ok && !WasKilled(kill, loads) {
      forall order, id | Partial(m, ops, order) && id in order
        ensures AtLeast(partials, data.value.largest, id, |order|)
      {
        CopiesAreRecorded(longest, unsorted, longest[id].ids);
        ShownIsLongest(m, ops, longest, partials, data.value.largest, order, id);
      }
    }
  }

  /** If all recorded pointers are the same, one list is shown. */
  lemma OneIsShown(longest: seq<Ids?>, partials: seq<seq<nat>>)
    requires longest != [] && longest[0] != null && forall i :: 0 <= i < |longest| ==> longest[i] == longest[0]
    requires forall p :: multiset(partials)[p] == |PointersTo(Recorded(longest), p)|
    ensures |partials| == 1 && partials[0] == longest[0].ids
  {
    var x := longest[0];
    assert Recorded(longest) == {x};
    forall p
      ensures multiset(partials)[p] == if p == x.ids then 1 else 0
    {
      assert PointersTo({x}, p) == if p == x.ids then {x} else {};
    }
    assert multiset(partials) == multiset{x.ids};
    assert |multiset(partials)| == |partials|;
    assert partials[0] in multiset(partials);
  }

  lemma ShownIsLongest<S, I, O>(m: Model<S, I, O>, ops: seq<Op<I, O>>, longest: seq<Ids?>, partials: seq<seq<nat>>,
                                largest: map<nat, nat>, order: seq<nat>, id: nat)
    requires Optimal(m, ops, View(longest))
    requires id < |longest| && longest[id] != null && longest[id].ids in partials
    requires LargestOk(partials, |partials|, largest)
    requires Partial(m, ops, order) && id in order
    ensures AtLeast(partials, largest, id, |order|)
  {
    var p := longest[id].ids;
    assert View(longest)[id] == Some(p) && |order| <= |p|;
    assert id in p;
    var i :| 0 <= i < |partials| && partials[i] == p;
    assert Entered(partials, largest, i);
  }
}
