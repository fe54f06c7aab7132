/**
 * The doubly linked list of call and return entries that the search edits in
 * place (labs/src/porcupine/checker.go:57-172).
 *
 * Nodes are named by their position: 0 is the head node, position p + 1 the
 * node of entry p. A set of live positions says which nodes are in the list;
 * nodes that were lifted out keep the neighbours they had when they left.
 */
module EntryList {
  import opened Common

  /** An entry of the history: a call carries the input, a return the output. */
  datatype Entry<I, O> =
    | Call(input: I, id: int, time: int, clientId: int)
    | Return(output: O, id: int, time: int, clientId: int)

  datatype Payload<I, O> = Nil | Input(input: I) | Output(output: O)

  class Node<I, O> {
    const value: Payload<I, O>
    const matching: Node?<I, O>  // the return node of a call; null for a return
    const id: int
    var next: Node?<I, O>
    var prev: Node?<I, O>

    constructor (value: Payload<I, O>, matching: Node?<I, O>, id: int)
      ensures this.value == value && this.matching == matching && this.id == id
      ensures next == null && prev == null
    {
      this.value, this.matching, this.id := value, matching, id;
      next, prev := null, null;
    }
  }

  // ---- neighbours among the live positions ----

  /** The next live position after p, or n + 1 when there is none up to n. */
  ghost function NextLive(live: set<nat>, n: nat, p: nat): (q: nat)
    requires p <= n
    ensures p < q <= n + 1
    ensures q <= n ==> q in live
    ensures forall r: nat :: p < r < q ==> r !in live
    decreases n - p
  {
    if p == n then n + 1
    else if p + 1 in live then p + 1
    else NextLive(live, n, p + 1)
  }

  /** The last live position before p, or -1 when there is none. */
  ghost function PrevLive(live: set<nat>, p: nat): (q: int)
    ensures -1 <= q < p
    ensures 0 <= q ==> q in live
    ensures forall r: nat :: q < r < p ==> r !in live
  {
    if p == 0 then -1
    else if p - 1 in live then p - 1
    else PrevLive(live, p - 1)
  }

  lemma NextLiveUnique(live: set<nat>, n: nat, p: nat, q: nat)
    requires p < q <= n + 1
    requires q <= n ==> q in live
    requires forall r: nat :: p < r < q ==> r !in live
    ensures NextLive(live, n, p) == q
  {
    var t := NextLive(live, n, p);
    assert t < q ==> t !in live;
    assert q < t ==> q !in live;
  }

  lemma PrevLiveUnique(live: set<nat>, p: nat, q: int)
    requires -1 <= q < p
    requires 0 <= q ==> q in live
    requires forall r: nat :: q < r < p ==> r !in live
    ensures PrevLive(live, p) == q
  {
    var t := PrevLive(live, p);
    assert 0 <= t && q < t ==> t !in live;
    assert 0 <= q && t < q ==> q !in live;
  }

  /** Taking x out makes x's neighbours each other's neighbours. */
  lemma NextLiveRemove(live: set<nat>, n: nat, x: nat, p: nat)
    requires x in live && x <= n && p <= n && p != x
    ensures NextLive(live - {x}, n, p) ==
            if NextLive(live, n, p) == x then NextLive(live, n, x) else NextLive(live, n, p)
  {
    var q := if NextLive(live, n, p) == x then NextLive(live, n, x) else NextLive(live, n, p);
    NextLiveUnique(live - {x}, n, p, q);
  }

  lemma PrevLiveRemove(live: set<nat>, x: nat, p: nat)
    requires x in live && p != x
    ensures PrevLive(live - {x}, p) ==
            if PrevLive(live, p) == x then PrevLive(live, x) else PrevLive(live, p)
  {
    var q := if PrevLive(live, p) == x then PrevLive(live, x) else PrevLive(live, p);
    PrevLiveUnique(live - {x}, p, q);
  }

  lemma NeighboursMutual(live: set<nat>, n: nat, x: nat, p: nat)
    requires x in live && x <= n && p in live && p <= n
    ensures NextLive(live, n, p) == x <==> PrevLive(live, x) == p
  {
    if NextLive(live, n, p) == x {
      PrevLiveUnique(live, x, p);
    }
    if PrevLive(live, x) == p {
      NextLiveUnique(live, n, p, x);
    }
  }

  // ---- the linked list ----

  ghost function At<I, O>(nodes: seq<Node<I, O>>, p: int): Node?<I, O> {
    if 0 <= p < |nodes| then nodes[p] else null
  }

  ghost predicate NodeLinked<I, O>(nodes: seq<Node<I, O>>, live: set<nat>, p: nat)
    requires p < |nodes|
    reads nodes[p]
  {
    && nodes[p].next == At(nodes, NextLive(live, |nodes| - 1, p))
    && nodes[p].prev == At(nodes, PrevLive(live, p))
  }

  ghost predicate Positions<I, O>(nodes: seq<Node<I, O>>, live: set<nat>) {
    && Distinct(nodes)
    && |nodes| > 0
    && 0 in live
    && forall p :: p in live ==> p < |nodes|
  }

  /** The nodes at the live positions form one doubly linked list, in position order. */
  ghost predicate Linked<I, O>(nodes: seq<Node<I, O>>, live: set<nat>)
    requires Positions(nodes, live)
    reads nodes
  {
    forall p {:trigger NodeLinked(nodes, live, p)} :: p in live ==> NodeLinked(nodes, live, p)
  }

  /** A lifted pair keeps the neighbours it had: the call in `live`, the return in `live` without the call. */
  ghost predicate Saved<I, O>(nodes: seq<Node<I, O>>, live: set<nat>, a: nat, b: nat)
    requires a < |nodes| && b < |nodes|
    reads nodes[a], nodes[b]
  {
    NodeLinked(nodes, live, a) && NodeLinked(nodes, live - {a}, b)
  }

  ghost predicate IsPair<I, O>(nodes: seq<Node<I, O>>, live: set<nat>, a: nat, b: nat)
    requires Positions(nodes, live)
  {
    0 < a < b && a in live && b in live && nodes[a].matching == nodes[b]
  }

  /** Neighbour pointers of every live node once x, still pointing at its neighbours, is bypassed. */
  lemma Bypassed<I, O>(nodes: seq<Node<I, O>>, live: set<nat>, x: nat, p: nat)
    requires Positions(nodes, live) && x in live && 0 < x && p in live && p != x
    ensures PrevLive(live, x) >= 0
    ensures At(nodes, NextLive(live - {x}, |nodes| - 1, p)) ==
            if p == PrevLive(live, x) then At(nodes, NextLive(live, |nodes| - 1, x))
            else At(nodes, NextLive(live, |nodes| - 1, p))
    ensures At(nodes, PrevLive(live - {x}, p)) ==
            if p == NextLive(live, |nodes| - 1, x) then At(nodes, PrevLive(live, x))
            else At(nodes, PrevLive(live, p))
  {
    var n := |nodes| - 1;
    NextLiveRemove(live, n, x, p);
    PrevLiveRemove(live, x, p);
    NeighboursMutual(live, n, x, p);
    NeighboursMutual(live, n, p, x);
  }

  ghost function LiveNodes<I, O>(nodes: seq<Node<I, O>>, live: set<nat>): set<Node<I, O>>
    requires forall p :: p in live ==> p < |nodes|
  {
    set p | p in live :: nodes[p]
  }

  lemma NotAmongLive<I, O>(nodes: seq<Node<I, O>>, live: set<nat>, p: nat)
    requires Positions(nodes, live) && p < |nodes| && p !in live
    ensures nodes[p] !in LiveNodes(nodes, live)
  {
  }

  /** Make the two neighbours of x, at positions `before` and `after`, point past it; nothing else changes. */
  method Bypass<I, O>(x: Node<I, O>, ghost nodes: seq<Node<I, O>>, ghost before: nat, ghost after: nat)
    requires Distinct(nodes) && before < |nodes|
    requires x.prev == nodes[before] && x.next == At(nodes, after)
    requires x !in {nodes[before], At(nodes, after)}
    modifies nodes[before], if after < |nodes| then {nodes[after]} else {}
    ensures forall p :: 0 <= p < |nodes| ==>
      && nodes[p].next == (if p == before then x.next else old(nodes[p].next))
      && nodes[p].prev == (if p == after then x.prev else old(nodes[p].prev))
    ensures x.next == old(x.next) && x.prev == old(x.prev)
  {
    x.prev.next := x.next;
    if x.next != null {
      x.next.prev := x.prev;
    }
  }

  /** Take node x out of the list; x itself keeps pointing at its old neighbours. */
  method Detach<I, O>(x: Node<I, O>, ghost nodes: seq<Node<I, O>>, ghost live: set<nat>, ghost a: nat)
    requires Positions(nodes, live) && Linked(nodes, live)
    requires a in live && 0 < a && x == nodes[a]
    modifies LiveNodes(nodes, live)
    ensures Linked(nodes, live - {a})
    ensures x.next == old(x.next) && x.prev == old(x.prev)
  {
    ghost var before := PrevLive(live, a);
    ghost var after := NextLive(live, |nodes| - 1, a);
    assert NodeLinked(nodes, live, a);
    assert before >= 0 by { Bypassed(nodes, live, a, 0); }
    Bypass(x, nodes, before, after);
    forall p | p in live - {a}
      ensures NodeLinked(nodes, live - {a}, p)
    {
      assert old(NodeLinked(nodes, live, p));
      Bypassed(nodes, live, a, p);
    }
  }

  /** Put x, which still points at its neighbours, back between them. */
  method Rejoin<I, O>(x: Node<I, O>, ghost nodes: seq<Node<I, O>>, ghost before: nat, ghost after: nat)
    requires Distinct(nodes) && before < |nodes|
    requires x.prev == nodes[before] && x.next == At(nodes, after)
    requires x !in {nodes[before], At(nodes, after)}
    modifies nodes[before], if after < |nodes| then {nodes[after]} else {}
    ensures forall p :: 0 <= p < |nodes| ==>
      && nodes[p].next == (if p == before then x else old(nodes[p].next))
      && nodes[p].prev == (if p == after then x else old(nodes[p].prev))
    ensures x.next == old(x.next) && x.prev == old(x.prev)
  {
    x.prev.next := x;
    if x.next != null {
      x.next.prev := x;
    }
  }

  /** Undo a Detach of position a. */
  method Attach<I, O>(x: Node<I, O>, ghost nodes: seq<Node<I, O>>, ghost live: set<nat>, ghost a: nat)
    requires Positions(nodes, live) && a in live && 0 < a && x == nodes[a]
    requires Linked(nodes, live - {a}) && NodeLinked(nodes, live, a)
    modifies LiveNodes(nodes, live - {a})
    ensures Linked(nodes, live)
    ensures x.next == old(x.next) && x.prev == old(x.prev)
  {
    ghost var before := PrevLive(live, a);
    ghost var after := NextLive(live, |nodes| - 1, a);
    assert before >= 0 by { Bypassed(nodes, live, a, 0); }
    Rejoin(x, nodes, before, after);
    forall p | p in live && p != a
      ensures NodeLinked(nodes, live, p)
    {
      assert old(NodeLinked(nodes, live - {a}, p));
      Bypassed(nodes, live, a, p);
      NeighboursMutual(live, |nodes| - 1, a, p);
      NeighboursMutual(live, |nodes| - 1, p, a);
    }
  }

  /** A call is never last, since its return follows it. */
  lemma CallHasNext(live: set<nat>, n: nat, a: nat, b: nat)
    requires a < b <= n && b in live
    ensures NextLive(live, n, a) <= b
  {
  }

  /**
   * Remove a call and its return from the list. The call has a next entry, so
   * that entry's link back can be written without a test.
   */
  method Lift<I, O>(entry: Node<I, O>, ghost nodes: seq<Node<I, O>>, ghost live: set<nat>, ghost a: nat, ghost b: nat)
    requires Positions(nodes, live) && Linked(nodes, live)
    requires IsPair(nodes, live, a, b) && entry == nodes[a]
    modifies LiveNodes(nodes, live)
    ensures Linked(nodes, live - {a} - {b})
    ensures Saved(nodes, live, a, b)
    ensures entry.next == old(entry.next) != null
  {
    assert NodeLinked(nodes, live, a);
    CallHasNext(live, |nodes| - 1, a, b);
    Detach(entry, nodes, live, a);
    assert NodeLinked(nodes, live - {a}, b);
    Detach(entry.matching, nodes, live - {a}, b);
  }

  /** Put a lifted pair back, the return first: the list is again what it was before the Lift. */
  method Unlift<I, O>(entry: Node<I, O>, ghost nodes: seq<Node<I, O>>, ghost live: set<nat>, ghost a: nat, ghost b: nat)
    requires Positions(nodes, live)
    requires IsPair(nodes, live, a, b) && entry == nodes[a]
    requires Linked(nodes, live - {a} - {b}) && Saved(nodes, live, a, b)
    modifies LiveNodes(nodes, live)
    ensures Linked(nodes, live)
    ensures entry.next == old(entry.next) != null
  {
    CallHasNext(live, |nodes| - 1, a, b);
    Attach(entry.matching, nodes, live - {a}, b);
    Attach(entry, nodes, live, a);
  }

  // ---- building the list ----

  ghost predicate ChainedAt<I, O>(l: seq<Node<I, O>>, k: nat)
    requires k < |l|
    reads l[k]
  {
    l[k].next == At(l, k + 1) && l[k].prev == At(l, k - 1)
  }

  /** The nodes of l, each linked to its neighbours in l. */
  ghost predicate Chain<I, O>(l: seq<Node<I, O>>)
    reads l
  {
    Distinct(l) && forall k: nat {:trigger ChainedAt(l, k)} :: k < |l| ==> ChainedAt(l, k)
  }

  lemma ChainIsLinked<I, O>(l: seq<Node<I, O>>)
    requires Chain(l) && l != []
    ensures Positions(l, Below(|l|)) && Linked(l, Below(|l|))
  {
    forall p: nat | p < |l|
      ensures NodeLinked(l, Below(|l|), p)
    {
      assert ChainedAt(l, p);
    }
  }

  /** Insert n in front of `mark`, which is at position k of the chain l. */
  method InsertBefore<I, O>(n: Node<I, O>, mark: Node?<I, O>, ghost l: seq<Node<I, O>>, ghost k: nat)
    returns (r: Node<I, O>)
    requires Chain(l) && k <= |l|
    requires if mark == null then l == [] else k < |l| && mark == l[k]
    requires n !in l && n.next == null && n.prev == null
    modifies n, l
    ensures Chain(l[..k] + [n] + l[k..])
    ensures r == n
  {
    if mark != null {
      assert ChainedAt(l, k);
      var beforeMark := mark.prev;
      mark.prev := n;
      n.next := mark;
      if beforeMark != null {
        n.prev := beforeMark;
        beforeMark.next := n;
      }
    }
    ghost var l' := l[..k] + [n] + l[k..];
    forall q: nat | q < |l'|
      ensures ChainedAt(l', q)
    {
      if q < k {
        assert old(ChainedAt(l, q));
      } else if q > k {
        assert old(ChainedAt(l, q - 1));
      }
    }
    return n;
  }

  method Length<I, O>(first: Node?<I, O>, ghost l: seq<Node<I, O>>) returns (len: nat)
    requires Chain(l) && first == At(l, 0)
    ensures len == |l|
  {
    var n := first;
    len := 0;
    while n != null
      invariant len <= |l| && n == At(l, len)
      decreases |l| - len
    {
      assert ChainedAt(l, len);
      n := n.next;
      len := len + 1;
    }
  }

  /** The first return of the same id after position p; |entries| when there is none. */
  ghost function ReturnAfter<I, O>(entries: seq<Entry<I, O>>, id: int, p: nat): (q: nat)
    requires p <= |entries|
    ensures p <= q <= |entries|
    ensures q < |entries| ==> entries[q].Return? && entries[q].id == id
    ensures forall r :: p <= r < q ==> !(entries[r].Return? && entries[r].id == id)
    decreases |entries| - p
  {
    if p == |entries| || (entries[p].Return? && entries[p].id == id) then p
    else ReturnAfter(entries, id, p + 1)
  }

  /** Node l[p] carries entry p; a call points at the first later return of its id. */
  ghost predicate NodeOf<I, O>(l: seq<Node<I, O>>, off: nat, entries: seq<Entry<I, O>>, p: nat)
    requires p < |entries| && |l| == |entries| - off && off <= p
  {
    match entries[p]
    case Call(v, id, _, _) =>
      && l[p - off].value == Input(v) && l[p - off].id == id
      && l[p - off].matching == At(l, ReturnAfter(entries, id, p + 1) - off)
    case Return(v, id, _, _) =>
      l[p - off].value == Output(v) && l[p - off].id == id && l[p - off].matching == null
  }

  ghost predicate NodesOf<I, O>(l: seq<Node<I, O>>, off: nat, entries: seq<Entry<I, O>>) {
    && off <= |entries| && |l| == |entries| - off
    && forall p {:trigger NodeOf(l, off, entries, p)} :: off <= p < |entries| ==> NodeOf(l, off, entries, p)
  }

  /** The match table holds, for every id, the node of its first return from `off` on. */
  ghost predicate ReturnsSeen<I, O>(l: seq<Node<I, O>>, off: nat, entries: seq<Entry<I, O>>,
                                    matches: map<int, Node<I, O>>)
    requires off <= |entries| && |l| == |entries| - off
  {
    forall id {:trigger ReturnAfter(entries, id, off)} ::
      (if id in matches then matches[id] else null) == At(l, ReturnAfter(entries, id, off) - off)
  }

  lemma NodesOfCons<I, O>(n: Node<I, O>, l: seq<Node<I, O>>, off: nat, entries: seq<Entry<I, O>>)
    requires 0 < off && NodesOf(l, off, entries)
    requires NodeOf([n] + l, off - 1, entries, off - 1)
    ensures NodesOf([n] + l, off - 1, entries)
  {
    var l', off' := [n] + l, off - 1;
    forall p | off <= p < |entries|
      ensures NodeOf(l', off', entries, p)
    {
      assert NodeOf(l, off, entries, p);
    }
  }

  lemma ReturnsSeenCons<I, O>(n: Node<I, O>, l: seq<Node<I, O>>, off: nat, entries: seq<Entry<I, O>>,
                              matches: map<int, Node<I, O>>)
    requires 0 < off <= |entries| && |l| == |entries| - off
    requires ReturnsSeen(l, off, entries, matches)
    ensures var e := entries[off - 1];
            ReturnsSeen([n] + l, off - 1, entries, if e.Return? then matches[e.id := n] else matches)
  {
    var e := entries[off - 1];
    var matches' := if e.Return? then matches[e.id := n] else matches;
    forall id
      ensures (if id in matches' then matches'[id] else null) ==
              At([n] + l, ReturnAfter(entries, id, off - 1) - (off - 1))
    {
      if !(e.Return? && e.id == id) {
        assert ReturnAfter(entries, id, off - 1) == ReturnAfter(entries, id, off);
      }
    }
  }

  /** The node n carries entry e; a call points at the return the table has for its id, if any. */
  ghost predicate Carries<I, O>(n: Node<I, O>, e: Entry<I, O>, matches: map<int, Node<I, O>>) {
    && n.id == e.id
    && match e
       case Call(v, id, _, _) => n.value == Input(v) && n.matching == if id in matches then matches[id] else null
       case Return(v, _, _, _) => n.value == Output(v) && n.matching == null
  }

  method NewNode<I, O>(elem: Entry<I, O>, matches: map<int, Node<I, O>>) returns (entry: Node<I, O>)
    ensures fresh(entry) && entry.next == null && entry.prev == null
    ensures Carries(entry, elem, matches)
  {
    if elem.Return? {
      entry := new Node(Output(elem.output), null, elem.id);
    } else {
      entry := new Node(Input(elem.input), if elem.id in matches then matches[elem.id] else null, elem.id);
    }
  }

  lemma CarriesIsNodeOf<I, O>(n: Node<I, O>, l: seq<Node<I, O>>, off: nat, entries: seq<Entry<I, O>>,
                              matches: map<int, Node<I, O>>)
    requires 0 < off <= |entries| && |l| == |entries| - off
    requires ReturnsSeen(l, off, entries, matches) && Carries(n, entries[off - 1], matches)
    ensures NodeOf([n] + l, off - 1, entries, off - 1)
  {
    var q := ReturnAfter(entries, entries[off - 1].id, off);
    assert At([n] + l, q - (off - 1)) == At(l, q - off);
  }

  method MakeLinkedEntries<I, O>(entries: seq<Entry<I, O>>) returns (root: Node?<I, O>, ghost l: seq<Node<I, O>>)
    ensures Chain(l) && fresh(l) && root == At(l, 0)
    ensures NodesOf(l, 0, entries)
  {
    root, l := null, [];
    var matches: map<int, Node<I, O>> := map[];
    var i := |entries|;
    while i > 0
      invariant 0 <= i <= |entries|
      invariant Chain(l) && fresh(l) && root == At(l, 0)
      invariant NodesOf(l, i, entries)
      invariant ReturnsSeen(l, i, entries, matches)
    {
      i := i - 1;
      var elem := entries[i];
      var entry := NewNode(elem, matches);
      CarriesIsNodeOf(entry, l, i + 1, entries, matches);
      ReturnsSeenCons(entry, l, i + 1, entries, matches);
      NodesOfCons(entry, l, i + 1, entries);
      if elem.Return? {
        matches := matches[elem.id := entry];
      }
      root := InsertBefore(entry, root, l, 0);
      assert l[..0] + [entry] + l[0..] == [entry] + l;
      l := [entry] + l;
    }
  }
}
