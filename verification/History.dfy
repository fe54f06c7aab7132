/** Which operations a list of entries records, and which entries are left once some are linearized. */
module History {
  import opened Linearizability
  import opened EntryList

  /** `ops` are the operations of the entry list h; time is the position in h. */
  ghost predicate Describes<I, O>(h: seq<Entry<I, O>>, ops: seq<Op<I, O>>) {
    && |h| == 2 * |ops|
    && (forall i :: 0 <= i < |ops| ==>
          && 0 <= ops[i].call < ops[i].ret < |h|
          && h[ops[i].call].Call? && h[ops[i].call].input == ops[i].input && h[ops[i].call].id == i
          && h[ops[i].ret].Return? && h[ops[i].ret].output == ops[i].output && h[ops[i].ret].id == i)
    && (forall p :: 0 <= p < |h| ==>
          && 0 <= h[p].id < |ops|
          && p == if h[p].Call? then ops[h[p].id].call else ops[h[p].id].ret)
  }

  /** Every id below |h| / 2 has one call and, later, one return. */
  ghost predicate WellFormed<I(!new), O(!new)>(h: seq<Entry<I, O>>) {
    exists ops :: Describes(h, ops)
  }

  ghost function OpsOf<I(!new), O(!new)>(h: seq<Entry<I, O>>): (ops: seq<Op<I, O>>)
    requires WellFormed(h)
    ensures Describes(h, ops)
  {
    var ops :| Describes(h, ops); ops
  }

  lemma DescribesUnique<I, O>(h: seq<Entry<I, O>>, a: seq<Op<I, O>>, b: seq<Op<I, O>>)
    requires Describes(h, a) && Describes(h, b)
    ensures a == b
  {
    forall i | 0 <= i < |a|
      ensures a[i] == b[i]
    {
      assert h[a[i].call].id == i && h[a[i].ret].id == i;
    }
  }

  // ---- node positions: 0 is the head, entry p is at p + 1 ----

  function CallPos<I, O>(ops: seq<Op<I, O>>, i: nat): int
    requires i < |ops|
  {
    ops[i].call + 1
  }

  function ReturnPos<I, O>(ops: seq<Op<I, O>>, i: nat): int
    requires i < |ops|
  {
    ops[i].ret + 1
  }

  /** The head and the entries of the operations not in `done`. */
  ghost function Live<I, O>(h: seq<Entry<I, O>>, done: set<nat>): (r: set<nat>)
    ensures 0 in r
    ensures forall p :: p in r <==> p == 0 || (0 < p <= |h| && !Gone(h, done, p))
  {
    {0} + set p: nat | 0 < p <= |h| && !Gone(h, done, p)
  }

  ghost predicate Gone<I, O>(h: seq<Entry<I, O>>, done: set<nat>, p: nat)
    requires 0 < p <= |h|
  {
    h[p - 1].id in done
  }

  /** Linearizing i takes exactly its two entries out. */
  lemma LiveWithout<I, O>(h: seq<Entry<I, O>>, ops: seq<Op<I, O>>, done: set<nat>, i: nat)
    requires Describes(h, ops) && i < |ops| && i !in done
    ensures 0 < CallPos(ops, i) < ReturnPos(ops, i) <= |h|
    ensures CallPos(ops, i) in Live(h, done) && ReturnPos(ops, i) in Live(h, done)
    ensures Live(h, done + {i}) == Live(h, done) - {CallPos(ops, i)} - {ReturnPos(ops, i)}
  {
    forall p: nat | 0 < p <= |h|
      ensures Gone(h, done + {i}, p) <==> Gone(h, done, p) || p == CallPos(ops, i) || p == ReturnPos(ops, i)
    {
      assert 0 <= h[p - 1].id < |ops|;
    }
  }

  /** All live entries before the position are calls. */
  ghost predicate CallsBefore<I, O>(h: seq<Entry<I, O>>, done: set<nat>, cursor: nat) {
    forall p :: p in Live(h, done) && 0 < p < cursor && p <= |h| ==> h[p - 1].Call?
  }

  /** An operation whose call comes before every live return may be linearized next... */
  lemma CallBeforeReturnsIsEnabled<I, O>(h: seq<Entry<I, O>>, ops: seq<Op<I, O>>, done: set<nat>, i: nat)
    requires Describes(h, ops) && i < |ops| && i !in done
    requires CallsBefore(h, done, CallPos(ops, i))
    ensures Enabled(ops, done, i)
  {
    forall j: nat | j < |ops| && j !in done
      ensures !Precedes(ops, j, i)
    {
      assert ReturnPos(ops, j) in Live(h, done);
    }
  }

  /** ... and no other may: the first live return ends the candidates. */
  lemma EnabledIsBeforeReturn<I, O>(h: seq<Entry<I, O>>, ops: seq<Op<I, O>>, done: set<nat>, i: nat, cursor: nat)
    requires Describes(h, ops) && Enabled(ops, done, i)
    requires cursor in Live(h, done) && 0 < cursor && h[cursor - 1].Return?
    ensures CallPos(ops, i) < cursor
  {
    var j := h[cursor - 1].id;
    assert !Precedes(ops, j, i);
  }
}
