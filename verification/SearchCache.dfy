/**
 * The memo table of the search (labs/src/porcupine/checker.go:135-147,
 * 193-197): buckets of (bit set, state) pairs keyed by the hash of the bit set.
 * It stands for a plain set of configurations. A cached bit set is a copy that
 * is never changed again, so the table keeps its words.
 */
module SearchCache {
  import opened Linearizability
  import opened Bitset

  datatype CacheEntry<S> = CacheEntry(linearized: seq<Word>, state: S)

  type Buckets<S> = map<Word, seq<CacheEntry<S>>>

  function Bucket<S>(cache: Buckets<S>, h: Word): seq<CacheEntry<S>> {
    if h in cache then cache[h] else []
  }

  ghost function EntryConfig<S>(e: CacheEntry<S>): Config<S> {
    Config(Members(e.linearized), e.state)
  }

  /** A cached configuration the model does not distinguish from c. */
  ghost predicate Covered<S, I, O>(m: Model<S, I, O>, contents: set<Config<S>>, c: Config<S>) {
    exists d :: d in contents && d.done == c.done && m.equal(c.state, d.state)
  }

  ghost predicate Filed<S>(cache: Buckets<S>, len: nat, contents: set<Config<S>>, h: Word, k: nat)
    requires k < |Bucket(cache, h)|
  {
    var e := Bucket(cache, h)[k];
    |e.linearized| == len && HashOf(e.linearized) == h && EntryConfig(e) in contents
  }

  ghost predicate Somewhere<S>(cache: Buckets<S>, c: Config<S>) {
    exists h, k :: h in cache && 0 <= k < |Bucket(cache, h)| && EntryConfig(Bucket(cache, h)[k]) == c
  }

  /** The table holds exactly the configurations `contents`, each in the bucket of its hash. */
  ghost predicate Holds<S>(cache: Buckets<S>, len: nat, contents: set<Config<S>>) {
    && (forall h, k {:trigger Filed(cache, len, contents, h, k)} ::
          h in cache && 0 <= k < |Bucket(cache, h)| ==> Filed(cache, len, contents, h, k))
    && (forall c :: c in contents ==> Somewhere(cache, c))
  }

  lemma EqualSetsHashEqually(v: seq<Word>, w: seq<Word>)
    requires |v| == |w| && Members(v) == Members(w)
    ensures HashOf(v) == HashOf(w)
  {
    MembersInjective(v, w);
  }

  /** Looking in one bucket finds what a scan of the whole table would find. */
  method CacheContains<S, I, O>(m: Model<S, I, O>, cache: Buckets<S>, entry: CacheEntry<S>,
                                ghost contents: set<Config<S>>)
    returns (found: bool)
    requires Holds(cache, |entry.linearized|, contents)
    ensures found <==> Covered(m, contents, EntryConfig(entry))
  {
    var hash := Hash(entry.linearized);
    var bucket := Bucket(cache, hash);
    ghost var len := |entry.linearized|;
    for k := 0 to |bucket|
      invariant forall j :: 0 <= j < k ==>
        !(Members(bucket[j].linearized) == Members(entry.linearized) && m.equal(entry.state, bucket[j].state))
    {
      assert Filed(cache, len, contents, hash, k);
      var same := Equals(entry.linearized, bucket[k].linearized);
      if same && m.equal(entry.state, bucket[k].state) {
        assert EntryConfig(bucket[k]) in contents;
        return true;
      }
    }
    if c :| c in contents && c.done == Members(entry.linearized) && m.equal(entry.state, c.state) {
      assert Somewhere(cache, c);
      var h, k :| h in cache && 0 <= k < |Bucket(cache, h)| && EntryConfig(Bucket(cache, h)[k]) == c;
      assert Filed(cache, len, contents, h, k);
      EqualSetsHashEqually(Bucket(cache, h)[k].linearized, entry.linearized);
      assert false;
    }
    return false;
  }

  /** Enter a configuration in the bucket of its hash. */
  method Remember<S>(cache: Buckets<S>, entry: CacheEntry<S>, ghost contents: set<Config<S>>)
    returns (cache': Buckets<S>)
    requires Holds(cache, |entry.linearized|, contents)
    ensures Holds(cache', |entry.linearized|, contents + {EntryConfig(entry)})
  {
    var hash := Hash(entry.linearized);
    cache' := cache[hash := Bucket(cache, hash) + [entry]];
    ghost var len := |entry.linearized|;
    ghost var contents' := contents + {EntryConfig(entry)};
    forall g, k | g in cache' && 0 <= k < |Bucket(cache', g)|
      ensures Filed(cache', len, contents', g, k)
    {
      if g != hash || k < |Bucket(cache, hash)| {
        assert Filed(cache, len, contents, g, k);
      }
    }
    forall c | c in contents'
      ensures Somewhere(cache', c)
    {
      if c in contents {
        assert Somewhere(cache, c);
        var g, k :| g in cache && 0 <= k < |Bucket(cache, g)| && EntryConfig(Bucket(cache, g)[k]) == c;
        assert EntryConfig(Bucket(cache', g)[k]) == c;
      } else {
        assert EntryConfig(Bucket(cache', hash)[|Bucket(cache, hash)|]) == c;
      }
    }
  }
}
