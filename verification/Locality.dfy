/**
 * Checking one key at a time is enough: the KvModel partitions a history by
 * key (labs/src/models/kv.go:18-54) and the model's contract asks that a
 * history be linearizable exactly when every partition is
 * (labs/src/porcupine/model.go:28-31).
 */
module Locality {
  import opened Common
  import opened Linearizability

  datatype KvInput = KvInput(op: int, key: string, value: string)  // op 0 is get, 1 is put, else append
  datatype KvOutput = KvOutput(value: string)

  type KvOp = Op<KvInput, KvOutput>

  /** One step of a single key's value. */
  function KvStep(st: string, inp: KvInput, out: KvOutput): (bool, string) {
    if inp.op == 0 then (out.value == st, st)
    else if inp.op == 1 then (true, inp.value)
    else (true, st + inp.value)
  }

  const KV_MODEL: Model<string, KvInput, KvOutput> := Model("", KvStep, (s: string, t: string) => s == t)

  lemma KvModelRespectsStep()
    ensures RespectsStep(KV_MODEL)
  {
  }

  // ---- what the model accepts ----

  /** The values of the appends of an order, one after the other. */
  ghost function Appended(ops: seq<KvOp>, order: seq<nat>): string
    requires IdsOf(ops, order)
  {
    if order == [] then "" else
    var k := |order| - 1;
    var r := Appended(ops, order[..k]);
    if ops[order[k]].input.op in {0, 1} then r else r + ops[order[k]].input.value
  }

  /** The index of the last put of an order, or -1 if there is none. */
  ghost function LastPut(ops: seq<KvOp>, order: seq<nat>): (p: int)
    requires IdsOf(ops, order)
    ensures -1 <= p < |order| && (p >= 0 ==> ops[order[p]].input.op == 1)
    ensures forall k :: p < k < |order| ==> ops[order[k]].input.op != 1
  {
    if order == [] then -1 else
    var k := |order| - 1;
    if ops[order[k]].input.op == 1 then k else LastPut(ops, order[..k])
  }

  /** The value of the last put, or the empty string, followed by what was appended since. */
  ghost function ValueOf(ops: seq<KvOp>, order: seq<nat>): string
    requires IdsOf(ops, order)
  {
    var p := LastPut(ops, order);
    (if p < 0 then "" else ops[order[p]].input.value) + Appended(ops, order[p + 1..])
  }

  lemma ValueStep(ops: seq<KvOp>, order: seq<nat>)
    requires IdsOf(ops, order) && order != []
    ensures var inp, v := ops[order[|order| - 1]].input, ValueOf(ops, order[..|order| - 1]);
            ValueOf(ops, order) == if inp.op == 0 then v else if inp.op == 1 then inp.value else v + inp.value
  {
    var k := |order| - 1;
    var before, inp := order[..k], ops[order[k]].input;
    if inp.op == 1 {
      assert order[k + 1..] == [];
    } else {
      var p := LastPut(ops, before);
      assert order[p + 1..][..k - p - 1] == before[p + 1..];
    }
  }

  /** An operation, if it is a get, returns the value that those before it leave. */
  ghost predicate GetsRight(o: KvOp, value: string) {
    o.input.op == 0 ==> o.output.value == value
  }

  /** Each get of the order returns the value that those before it leave. */
  ghost predicate AllGetRight(ops: seq<KvOp>, order: seq<nat>)
    requires IdsOf(ops, order)
  {
    order == [] ||
    var k := |order| - 1;
    AllGetRight(ops, order[..k]) && GetsRight(ops[order[k]], ValueOf(ops, order[..k]))
  }

  /**
   * What KvModel accepts: each get returns the value of the last put before it,
   * or the empty string, followed by everything appended since.
   */
  lemma {:induction false} KvAccepts(ops: seq<KvOp>, order: seq<nat>)
    requires IdsOf(ops, order)
    ensures After(KV_MODEL, ops, order).Some? <==> AllGetRight(ops, order)
    ensures After(KV_MODEL, ops, order).Some? ==> After(KV_MODEL, ops, order).value == ValueOf(ops, order)
  {
    if order != [] {
      KvAccepts(ops, order[..|order| - 1]);
      ValueStep(ops, order);
    }
  }

  // ---- the specification: a store of all keys ----

  type Store = map<string, string>

  function Lookup(st: Store, key: string): string {
    if key in st then st[key] else ""
  }

  function StoreStep(st: Store, inp: KvInput, out: KvOutput): (bool, Store) {
    if inp.op == 0 then (out.value == Lookup(st, inp.key), st)
    else if inp.op == 1 then (true, st[inp.key := inp.value])
    else (true, st[inp.key := Lookup(st, inp.key) + inp.value])
  }

  /** A key-value store whose keys all start out empty. */
  const STORE_MODEL: Model<Store, KvInput, KvOutput> := Model(map[], StoreStep, (s: Store, t: Store) => s == t)

  // ---- orders of some of the operations ----

  function KeyOf(ops: seq<KvOp>, i: nat): string
    requires i < |ops|
  {
    ops[i].input.key
  }

  /** The ids of an order that belong to one key. */
  ghost function Only(ops: seq<KvOp>, order: seq<nat>, key: string): (r: seq<nat>)
    requires IdsOf(ops, order)
    ensures IdsOf(ops, r)
  {
    if order == [] then [] else
    var k := |order| - 1;
    var r := Only(ops, order[..k], key);
    if KeyOf(ops, order[k]) == key then r + [order[k]] else r
  }

  lemma {:induction false} OnlyMembers(ops: seq<KvOp>, order: seq<nat>, key: string)
    requires IdsOf(ops, order)
    ensures forall i :: i in Only(ops, order, key) <==> i in order && KeyOf(ops, i) == key
  {
    if order != [] {
      var k := |order| - 1;
      OnlyMembers(ops, order[..k], key);
      assert order == order[..k] + [order[k]];
    }
  }

  ghost predicate InRealTime(ops: seq<KvOp>, order: seq<nat>)
    requires IdsOf(ops, order)
  {
    forall a, b :: 0 <= a < b < |order| ==> !Precedes(ops, order[b], order[a])
  }

  /** An order of exactly the operations in `ids` that respects real time. */
  ghost predicate Arranges(ops: seq<KvOp>, ids: set<nat>, order: seq<nat>) {
    IdsOf(ops, order) && Distinct(order) && Elems(order) == ids && InRealTime(ops, order)
  }

  ghost function IdsWithKey(ops: seq<KvOp>, keys: set<string>): set<nat> {
    set i: nat | i < |ops| && KeyOf(ops, i) in keys
  }

  lemma {:induction false} OnlyArranges(ops: seq<KvOp>, order: seq<nat>, key: string)
    requires IdsOf(ops, order) && Distinct(order) && InRealTime(ops, order)
    ensures Distinct(Only(ops, order, key)) && InRealTime(ops, Only(ops, order, key))
  {
    if order != [] {
      var k := |order| - 1;
      OnlyArranges(ops, order[..k], key);
      OnlyMembers(ops, order[..k], key);
      var r := Only(ops, order[..k], key);
      forall x | x in r
        ensures x != order[k] && x < |ops| && !Precedes(ops, order[k], x)
      {
        var a :| 0 <= a < k && order[a] == x;
      }
    }
  }

  /** The last operation of an order steps the value of its own key only. */
  lemma OnlyLast(ops: seq<KvOp>, order: seq<nat>, key: string)
    requires IdsOf(ops, order) && order != []
    ensures var k := |order| - 1;
            var before := After(KV_MODEL, ops, Only(ops, order[..k], key));
            After(KV_MODEL, ops, Only(ops, order, key)) ==
            if KeyOf(ops, order[k]) == key then Then(KV_MODEL, ops, before, order[k]) else before
  {
    var k := |order| - 1;
    var r := Only(ops, order[..k], key);
    assert (r + [order[k]])[..|r|] == r;
  }

  lemma StoreThen(ops: seq<KvOp>, st: Store, i: nat, key: string)
    requires i < |ops|
    ensures var all := Then(STORE_MODEL, ops, Some(st), i);
            var own := Then(KV_MODEL, ops, Some(Lookup(st, KeyOf(ops, i))), i);
            && (all.Some? <==> own.Some?)
            && (all.Some? ==> Lookup(all.value, key) == if key == KeyOf(ops, i) then own.value else Lookup(st, key))
  {
  }

  /** The store accepts an order exactly when every key's value accepts that key's part of it. */
  lemma {:induction false} StoreAccepts(ops: seq<KvOp>, order: seq<nat>)
    requires IdsOf(ops, order)
    ensures After(STORE_MODEL, ops, order).Some? <==> forall key :: After(KV_MODEL, ops, Only(ops, order, key)).Some?
    ensures After(STORE_MODEL, ops, order).Some? ==> forall key ::
      After(KV_MODEL, ops, Only(ops, order, key)) == Some(Lookup(After(STORE_MODEL, ops, order).value, key))
  {
    if order != [] {
      var k := |order| - 1;
      var i := order[k];
      StoreAccepts(ops, order[..k]);
      var before := After(STORE_MODEL, ops, order[..k]);
      if before.None? {
        var key :| After(KV_MODEL, ops, Only(ops, order[..k], key)).None?;
        OnlyLast(ops, order, key);
      } else {
        OnlyLast(ops, order, KeyOf(ops, i));
        StoreThen(ops, before.value, i, KeyOf(ops, i));
        if After(STORE_MODEL, ops, order).Some? {
          forall key
            ensures After(KV_MODEL, ops, Only(ops, order, key)) ==
                    Some(Lookup(After(STORE_MODEL, ops, order).value, key))
          {
            OnlyLast(ops, order, key);
            StoreThen(ops, before.value, i, key);
          }
        }
      }
    }
  }

  // ---- merging the orders of different keys ----

  /** Take whichever head was called first. */
  ghost function Merge(ops: seq<KvOp>, a: seq<nat>, b: seq<nat>): (r: seq<nat>)
    requires IdsOf(ops, a) && IdsOf(ops, b)
    ensures IdsOf(ops, r) && Elems(r) == Elems(a) + Elems(b)
  {
    if a == [] then b
    else if b == [] then a
    else if ops[a[0]].call <= ops[b[0]].call then
      var rest := Merge(ops, a[1..], b);
      assert a == [a[0]] + a[1..];
      ElemsPrepend(a[0], a[1..]); ElemsPrepend(a[0], rest);
      [a[0]] + rest
    else
      var rest := Merge(ops, a, b[1..]);
      assert b == [b[0]] + b[1..];
      ElemsPrepend(b[0], b[1..]); ElemsPrepend(b[0], rest);
      [b[0]] + rest
  }

  lemma HeadFirst(ops: seq<KvOp>, x: nat, rest: seq<nat>)
    requires x < |ops| && IdsOf(ops, rest) && Distinct(rest) && InRealTime(ops, rest)
    requires forall k :: 0 <= k < |rest| ==> rest[k] != x && !Precedes(ops, rest[k], x)
    ensures IdsOf(ops, [x] + rest) && Distinct([x] + rest) && InRealTime(ops, [x] + rest)
  {
    var o := [x] + rest;
    forall i, j | 0 <= i < j < |o|
      ensures o[i] != o[j] && !Precedes(ops, o[j], o[i])
    {
      assert o[j] == rest[j - 1];
    }
  }

  /** Nothing in an order precedes something called no later than its head. */
  lemma NonePrecedes(ops: seq<KvOp>, x: nat, order: seq<nat>)
    requires x < |ops| && IdsOf(ops, order) && InRealTime(ops, order) && order != []
    requires CallsPrecedeReturns(ops) && ops[x].call <= ops[order[0]].call
    ensures forall k :: 0 <= k < |order| ==> !Precedes(ops, order[k], x)
  {
    forall k | 0 <= k < |order|
      ensures !Precedes(ops, order[k], x)
    {
      if k > 0 {
        assert !Precedes(ops, order[k], order[0]);
      }
    }
  }

  lemma {:induction false} MergeArranges(ops: seq<KvOp>, a: seq<nat>, b: seq<nat>)
    requires CallsPrecedeReturns(ops)
    requires IdsOf(ops, a) && Distinct(a) && InRealTime(ops, a)
    requires IdsOf(ops, b) && Distinct(b) && InRealTime(ops, b)
    requires Elems(a) !! Elems(b)
    ensures Distinct(Merge(ops, a, b)) && InRealTime(ops, Merge(ops, a, b))
  {
    if a != [] && b != [] {
      if ops[a[0]].call <= ops[b[0]].call {
        assert Elems(a[1..]) !! Elems(b);
        MergeArranges(ops, a[1..], b);
        MergedHead(ops, a, b, Merge(ops, a[1..], b));
      } else {
        assert Elems(a) !! Elems(b[1..]);
        MergeArranges(ops, a, b[1..]);
        MergedHead(ops, b, a, Merge(ops, a, b[1..]));
      }
    }
  }

  lemma MergedHead(ops: seq<KvOp>, own: seq<nat>, other: seq<nat>, rest: seq<nat>)
    requires CallsPrecedeReturns(ops) && own != [] && other != []
    requires IdsOf(ops, own) && Distinct(own) && InRealTime(ops, own)
    requires IdsOf(ops, other) && InRealTime(ops, other) && Elems(own) !! Elems(other)
    requires ops[own[0]].call <= ops[other[0]].call
    requires IdsOf(ops, rest) && Elems(rest) == Elems(own[1..]) + Elems(other)
    requires Distinct(rest) && InRealTime(ops, rest)
    ensures IdsOf(ops, [own[0]] + rest) && Distinct([own[0]] + rest) && InRealTime(ops, [own[0]] + rest)
  {
    NonePrecedes(ops, own[0], other);
    forall k | 0 <= k < |rest|
      ensures rest[k] != own[0] && !Precedes(ops, rest[k], own[0])
    {
      assert rest[k] in Elems(own[1..]) + Elems(other);
      if rest[k] in own[1..] {
        var j :| 0 <= j < |own| - 1 && own[1..][j] == rest[k];
        assert own[j + 1] == rest[k];
      } else {
        var j :| 0 <= j < |other| && other[j] == rest[k];
        assert own[0] in Elems(own);
      }
    }
    HeadFirst(ops, own[0], rest);
  }

  lemma {:induction false} OnlyConcat(ops: seq<KvOp>, s: seq<nat>, t: seq<nat>, key: string)
    requires IdsOf(ops, s) && IdsOf(ops, t)
    ensures IdsOf(ops, s + t) && Only(ops, s + t, key) == Only(ops, s, key) + Only(ops, t, key)
  {
    if t == [] {
      assert s + t == s;
    } else {
      var k := |t| - 1;
      OnlyConcat(ops, s, t[..k], key);
      assert (s + t)[..|s| + k] == s + t[..k] && (s + t)[|s| + k] == t[k];
      var a, b := Only(ops, s, key), Only(ops, t[..k], key);
      assert (a + b) + [t[k]] == a + (b + [t[k]]);
    }
  }

  lemma OnlyPrepend(ops: seq<KvOp>, x: nat, s: seq<nat>, key: string)
    requires x < |ops| && IdsOf(ops, s)
    ensures IdsOf(ops, [x] + s)
    ensures Only(ops, [x] + s, key) == (if KeyOf(ops, x) == key then [x] else []) + Only(ops, s, key)
  {
    OnlyConcat(ops, [x], s, key);
    assert [x][..0] == [];
  }

  lemma {:induction false} OnlyAllOrNone(ops: seq<KvOp>, s: seq<nat>, key: string)
    requires IdsOf(ops, s)
    ensures (forall i :: i in s ==> KeyOf(ops, i) == key) ==> Only(ops, s, key) == s
    ensures (forall i :: i in s ==> KeyOf(ops, i) != key) ==> Only(ops, s, key) == []
  {
    if s != [] {
      var k := |s| - 1;
      OnlyAllOrNone(ops, s[..k], key);
      assert s == s[..k] + [s[k]];
      assert s[k] in s;
    }
  }

  /** Merging one key's order into an order of other keys disturbs neither. */
  lemma {:induction false} MergeKeepsKeys(ops: seq<KvOp>, a: seq<nat>, b: seq<nat>, own: string, key: string)
    requires IdsOf(ops, a) && IdsOf(ops, b)
    requires forall i :: i in b ==> KeyOf(ops, i) == own
    requires forall i :: i in a ==> KeyOf(ops, i) != own
    ensures Only(ops, Merge(ops, a, b), key) == if key == own then b else Only(ops, a, key)
  {
    if a == [] || b == [] {
      OnlyAllOrNone(ops, a, key);
      OnlyAllOrNone(ops, b, key);
    } else if ops[a[0]].call <= ops[b[0]].call {
      assert a == [a[0]] + a[1..];
      MergeKeepsKeys(ops, a[1..], b, own, key);
      OnlyPrepend(ops, a[0], a[1..], key);
      OnlyPrepend(ops, a[0], Merge(ops, a[1..], b), key);
    } else {
      assert b == [b[0]] + b[1..];
      MergeKeepsKeys(ops, a, b[1..], own, key);
      OnlyPrepend(ops, b[0], Merge(ops, a, b[1..]), key);
    }
  }

  // ---- locality ----

  /** The operations of one key have an order the key's value accepts. */
  ghost predicate KeyArranged(ops: seq<KvOp>, key: string, order: seq<nat>) {
    Arranges(ops, IdsWithKey(ops, {key}), order) && After(KV_MODEL, ops, order).Some?
  }

  ghost predicate KeyLinearizable(ops: seq<KvOp>, key: string) {
    exists order :: KeyArranged(ops, key, order)
  }

  /** Orders for the single keys can be merged into one, key by key. */
  lemma {:induction false} MergeKeys(ops: seq<KvOp>, keys: set<string>) returns (order: seq<nat>)
    requires CallsPrecedeReturns(ops)
    requires forall key :: key in keys ==> KeyLinearizable(ops, key)
    ensures Arranges(ops, IdsWithKey(ops, keys), order)
    ensures forall key :: key in keys ==> After(KV_MODEL, ops, Only(ops, order, key)).Some?
    decreases |keys|
  {
    if keys == {} {
      order := [];
    } else {
      var own :| own in keys;
      var a := MergeKeys(ops, keys - {own});
      var b :| KeyArranged(ops, own, b);
      order := Merge(ops, a, b);
      MergeOneKey(ops, keys - {own}, own, a, b);
      assert keys == keys - {own} + {own};
    }
  }

  lemma MergeOneKey(ops: seq<KvOp>, keys: set<string>, own: string, a: seq<nat>, b: seq<nat>)
    requires CallsPrecedeReturns(ops) && own !in keys
    requires Arranges(ops, IdsWithKey(ops, keys), a) && KeyArranged(ops, own, b)
    requires forall key :: key in keys ==> After(KV_MODEL, ops, Only(ops, a, key)).Some?
    ensures Arranges(ops, IdsWithKey(ops, keys + {own}), Merge(ops, a, b))
    ensures forall key :: key in keys + {own} ==> After(KV_MODEL, ops, Only(ops, Merge(ops, a, b), key)).Some?
  {
    forall i | i in b
      ensures KeyOf(ops, i) == own
    {
      assert i in Elems(b);
    }
    forall i | i in a
      ensures KeyOf(ops, i) in keys
    {
      assert i in Elems(a);
    }
    assert IdsWithKey(ops, keys + {own}) == IdsWithKey(ops, keys) + IdsWithKey(ops, {own});
    MergeArranges(ops, a, b);
    forall key | key in keys + {own}
      ensures After(KV_MODEL, ops, Only(ops, Merge(ops, a, b), key)).Some?
    {
      MergeKeepsKeys(ops, a, b, own, key);
    }
  }

  ghost function AllKeys(ops: seq<KvOp>): set<string> {
    set i: nat | i < |ops| :: KeyOf(ops, i)
  }

  lemma AllIds(ops: seq<KvOp>, order: seq<nat>)
    requires IdsOf(ops, order) && Distinct(order)
    ensures |order| == |ops| <==> Elems(order) == IdsWithKey(ops, AllKeys(ops))
  {
    forall i: nat
      ensures i in IdsWithKey(ops, AllKeys(ops)) <==> i < |ops|
    {
      assert i < |ops| ==> KeyOf(ops, i) in AllKeys(ops);
    }
    assert IdsWithKey(ops, AllKeys(ops)) == Below(|ops|);
    DistinctSize(order);
    BelowSize(|ops|);
    if |order| == |ops| {
      DistinctBelowIsAll(order, |ops|);
    }
  }

  /** A history of all keys is linearizable exactly when each key's operations are. */
  lemma KeysAreIndependent(ops: seq<KvOp>)
    requires CallsPrecedeReturns(ops)
    ensures Linearizable(STORE_MODEL, ops) <==> forall key :: KeyLinearizable(ops, key)
  {
    if order: seq<nat> :| Linearization(STORE_MODEL, ops, order) {
      StoreAccepts(ops, order);
      AllIds(ops, order);
      forall key
        ensures KeyLinearizable(ops, key)
      {
        OnlyArranges(ops, order, key);
        OnlyMembers(ops, order, key);
        var r := Only(ops, order, key);
        forall i: nat
          ensures i in r <==> i in IdsWithKey(ops, {key})
        {
          if i < |ops| {
            assert KeyOf(ops, i) in AllKeys(ops);
            assert i in Elems(order);
          }
        }
        assert Elems(r) == IdsWithKey(ops, {key});
        assert KeyArranged(ops, key, r);
      }
    }
    if forall key :: KeyLinearizable(ops, key) {
      var order := MergeKeys(ops, AllKeys(ops));
      AllIds(ops, order);
      forall key
        ensures After(KV_MODEL, ops, Only(ops, order, key)).Some?
      {
        if key !in AllKeys(ops) {
          OnlyAllOrNone(ops, order, key);
        }
      }
      StoreAccepts(ops, order);
      assert Linearization(STORE_MODEL, ops, order);
    }
  }

  // ---- one key's operations as a history of its own ----

  /** The operations of one key, in the order of the history. */
  ghost function KeyHistory(ops: seq<KvOp>, key: string): seq<KvOp> {
    if ops == [] then [] else
    var k := |ops| - 1;
    var r := KeyHistory(ops[..k], key);
    if KeyOf(ops, k) == key then r + [ops[k]] else r
  }

  /** Where the operations of one key stand in the history. */
  ghost function KeyIds(ops: seq<KvOp>, key: string): seq<nat> {
    if ops == [] then [] else
    var k := |ops| - 1;
    var r := KeyIds(ops[..k], key);
    if KeyOf(ops, k) == key then r + [k] else r
  }

  lemma {:induction false} KeyIdsPart(ops: seq<KvOp>, key: string)
    ensures Part(ops, KeyIds(ops, key), KeyHistory(ops, key))
  {
    if ops != [] {
      var k := |ops| - 1;
      KeyIdsPart(ops[..k], key);
    }
  }

  lemma {:induction false} KeyIdsAre(ops: seq<KvOp>, key: string)
    ensures Elems(KeyIds(ops, key)) == IdsWithKey(ops, {key})
  {
    if ops != [] {
      var k := |ops| - 1;
      KeyIdsAre(ops[..k], key);
      ElemsAppend(KeyIds(ops[..k], key), k);
      assert IdsWithKey(ops, {key}) == IdsWithKey(ops[..k], {key}) + if KeyOf(ops, k) == key then {k} else {};
    }
  }

  /** `sub` is the part of `ops` at the places `ids`. */
  ghost predicate Part(ops: seq<KvOp>, ids: seq<nat>, sub: seq<KvOp>) {
    Renames(sub, ops, ids) && Distinct(ids)
  }

  lemma PartElems(ids: seq<nat>, order: seq<nat>)
    requires Distinct(order) && |order| == |ids| && forall k :: 0 <= k < |order| ==> order[k] < |ids|
    ensures Elems(Renamed(order, ids)) == Elems(ids)
  {
    var r := Renamed(order, ids);
    DistinctBelowIsAll(order, |ids|);
    forall x | x in ids
      ensures x in r
    {
      var j :| 0 <= j < |ids| && ids[j] == x;
      assert j in Elems(order);
      var k :| 0 <= k < |order| && order[k] == j;
      assert r[k] == x;
    }
  }

  lemma PartToWhole(ops: seq<KvOp>, ids: seq<nat>, sub: seq<KvOp>, order: seq<nat>)
    requires Part(ops, ids, sub) && Linearization(KV_MODEL, sub, order)
    ensures Arranges(ops, Elems(ids), Renamed(order, ids)) && After(KV_MODEL, ops, Renamed(order, ids)).Some?
  {
    var r := Renamed(order, ids);
    RenamedAfter(KV_MODEL, sub, ops, ids, order);
    PartElems(ids, order);
    forall a, b | 0 <= a < b < |r|
      ensures r[a] != r[b] && !Precedes(ops, r[b], r[a])
    {
      assert !Precedes(sub, order[b], order[a]);
    }
  }

  lemma WholeToPart(ops: seq<KvOp>, ids: seq<nat>, sub: seq<KvOp>, whole: seq<nat>) returns (order: seq<nat>)
    requires Part(ops, ids, sub) && Arranges(ops, Elems(ids), whole) && After(KV_MODEL, ops, whole).Some?
    ensures Linearization(KV_MODEL, sub, order)
  {
    DistinctSize(ids);
    DistinctSize(whole);
    order := [];
    while |order| < |whole|
      invariant |order| <= |whole|
      invariant forall k :: 0 <= k < |order| ==> order[k] < |ids| && ids[order[k]] == whole[k]
    {
      assert whole[|order|] in Elems(whole);
      var j: nat :| j < |ids| && ids[j] == whole[|order|];
      order := order + [j];
    }
    assert Renamed(order, ids) == whole;
    RenamedAfter(KV_MODEL, sub, ops, ids, order);
    forall a, b | 0 <= a < b < |order|
      ensures order[a] != order[b] && !Precedes(sub, order[b], order[a])
    {
      assert whole[a] != whole[b] && !Precedes(ops, whole[b], whole[a]);
    }
  }

  lemma KeyHistoryVerdict(ops: seq<KvOp>, key: string)
    ensures Linearizable(KV_MODEL, KeyHistory(ops, key)) <==> KeyLinearizable(ops, key)
  {
    var ids, sub := KeyIds(ops, key), KeyHistory(ops, key);
    KeyIdsPart(ops, key);
    KeyIdsAre(ops, key);
    if order: seq<nat> :| Linearization(KV_MODEL, sub, order) {
      PartToWhole(ops, ids, sub, order);
      assert KeyArranged(ops, key, Renamed(order, ids));
    }
    if KeyLinearizable(ops, key) {
      var whole :| KeyArranged(ops, key, whole);
      var order := WholeToPart(ops, ids, sub, whole);
    }
  }

  /** Locality: the store accepts a history exactly when each key's own history is linearizable. */
  lemma StoreIsLocal(ops: seq<KvOp>)
    requires CallsPrecedeReturns(ops)
    ensures Linearizable(STORE_MODEL, ops) <==> forall key :: Linearizable(KV_MODEL, KeyHistory(ops, key))
  {
    KeysAreIndependent(ops);
    if forall key :: KeyLinearizable(ops, key) {
      forall key
        ensures Linearizable(KV_MODEL, KeyHistory(ops, key))
      {
        KeyHistoryVerdict(ops, key);
      }
    } else {
      var key :| !KeyLinearizable(ops, key);
      KeyHistoryVerdict(ops, key);
    }
  }
}
