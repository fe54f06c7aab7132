/**
 * The bit sets of linearized operations (labs/src/porcupine/bitset.go), as
 * arrays of 64-bit words changed in place. Every operation is specified by the
 * set of positions the words stand for. A uint64 is written as its 64 bits,
 * lowest first; the operators |, &, &^ and ^ act bit by bit.
 */
module Bitset {

  type Word = w: seq<bool> | |w| == 64 witness seq(64, _ => false)

  const ZERO: Word := seq(64, _ => false)

  function Or(v: Word, w: Word): Word {
    seq(64, k requires 0 <= k < 64 => v[k] || w[k])
  }

  function And(v: Word, w: Word): Word {
    seq(64, k requires 0 <= k < 64 => v[k] && w[k])
  }

  function AndNot(v: Word, w: Word): Word {
    seq(64, k requires 0 <= k < 64 => v[k] && !w[k])
  }

  function Xor(v: Word, w: Word): Word {
    seq(64, k requires 0 <= k < 64 => v[k] != w[k])
  }

  /** 1 << k */
  function OneShl(k: nat): Word
    requires k < 64
  {
    seq(64, j => j == k)
  }

  function Pow2(k: nat): (p: nat)
    ensures p > 0
  {
    if k == 0 then 1 else 2 * Pow2(k - 1)
  }

  /** The word holding n, modulo 2^64. */
  function ToWord(n: nat): Word {
    seq(64, k requires 0 <= k < 64 => (n / Pow2(k)) % 2 == 1)
  }

  /** bits.OnesCount64 */
  function OnesCount(w: Word): nat {
    CountTrue(w)
  }

  function CountTrue(s: seq<bool>): nat {
    if s == [] then 0 else CountTrue(s[..|s| - 1]) + (if s[|s| - 1] then 1 else 0)
  }

  /** Bit p of the whole set: bit p % 64 of word p / 64. */
  ghost predicate Has(words: seq<Word>, p: nat) {
    p < 64 * |words| && words[p / 64][p % 64]
  }

  /** The positions a bit set holds. */
  ghost function Members(words: seq<Word>): (r: set<nat>)
    ensures forall p: nat :: p in r <==> Has(words, p)
  {
    set p: nat | p < 64 * |words| && Has(words, p)
  }

  /** Two bit sets of the same length hold the same positions only if they are the same words. */
  lemma MembersInjective(v: seq<Word>, w: seq<Word>)
    requires |v| == |w| && Members(v) == Members(w)
    ensures v == w
  {
    forall i | 0 <= i < |v|
      ensures v[i] == w[i]
    {
      forall k | 0 <= k < 64
        ensures v[i][k] == w[i][k]
      {
        var p := 64 * i + k;
        assert p / 64 == i && p % 64 == k;
        assert Has(v, p) == Has(w, p) by { assert p in Members(v) <==> p in Members(w); }
      }
    }
  }

  // ---- counting ----

  /** The positions of the true elements of s, counted from base. */
  ghost function TruesFrom(base: nat, s: seq<bool>): set<nat> {
    set p: nat | p < base + |s| && TrueAt(base, s, p)
  }

  ghost predicate TrueAt(base: nat, s: seq<bool>, p: nat) {
    base <= p < base + |s| && s[p - base]
  }

  lemma {:induction false} TruesFromSize(base: nat, s: seq<bool>)
    ensures |TruesFrom(base, s)| == CountTrue(s)
  {
    if s == [] {
      assert TruesFrom(base, s) == {};
    } else {
      var k := |s| - 1;
      TruesFromSize(base, s[..k]);
      assert TruesFrom(base, s) == TruesFrom(base, s[..k]) + (if s[k] then {base + k} else {});
    }
  }

  lemma MembersOfLast(words: seq<Word>, w: Word)
    ensures |Members(words + [w])| == |Members(words)| + OnesCount(w)
  {
    var base := 64 * |words|;
    TruesFromSize(base, w);
    forall p: nat
      ensures Has(words + [w], p) <==> Has(words, p) || p in TruesFrom(base, w)
    {
      if base <= p < base + 64 {
        assert p / 64 == |words| && p % 64 == p - base;
      }
    }
    assert Members(words + [w]) == Members(words) + TruesFrom(base, w);
    assert Members(words) !! TruesFrom(base, w);
  }

  // ---- the hash ----

  ghost function XorAll(start: Word, words: seq<Word>): Word {
    if words == [] then start else Xor(XorAll(start, words[..|words| - 1]), words[|words| - 1])
  }

  /** The hash of a bit set: a function of the words alone. */
  ghost function HashOf(words: seq<Word>): Word {
    XorAll(ToWord(|Members(words)|), words)
  }

  /** The words that have bit k. */
  ghost function WithBit(words: seq<Word>, k: nat): set<nat>
    requires k < 64
  {
    set i | 0 <= i < |words| && words[i][k]
  }

  lemma WithBitMore(words: seq<Word>, w: Word, k: nat)
    requires k < 64
    ensures |WithBit(words + [w], k)| == |WithBit(words, k)| + if w[k] then 1 else 0
  {
    var less := WithBit(words, k);
    if w[k] {
      assert WithBit(words + [w], k) == less + {|words|};
    } else {
      assert WithBit(words + [w], k) == less;
    }
  }

  lemma {:induction false} XorAllBits(start: Word, words: seq<Word>, k: nat)
    requires k < 64
    ensures XorAll(start, words)[k] <==> start[k] != (|WithBit(words, k)| % 2 == 1)
  {
    if words != [] {
      var n := |words| - 1;
      XorAllBits(start, words[..n], k);
      WithBitMore(words[..n], words[n], k);
      assert words[..n] + [words[n]] == words;
    }
  }

  /** Bit k of the hash: whether an odd number of words has it, toggled by bit k of the number of members. */
  lemma HashBits(words: seq<Word>, k: nat)
    requires k < 64
    ensures HashOf(words)[k] <==> (|WithBit(words, k)| % 2 == 1) != ((|Members(words)| / Pow2(k)) % 2 == 1)
  {
    XorAllBits(ToWord(|Members(words)|), words, k);
  }

  // ---- operations ----

  method NewBitset(bits: nat) returns (b: array<Word>)
    ensures fresh(b)
    ensures bits <= 64 * b.Length < bits + 64
    ensures Members(b[..]) == {}
  {
    var extra := 0;
    if bits % 64 != 0 {
      extra := 1;
    }
    var chunks := bits / 64 + extra;
    b := new Word[chunks](_ => ZERO);
    forall p: nat
      ensures !Has(b[..], p)
    {
    }
  }

  method Clone(b: array<Word>) returns (c: array<Word>)
    ensures fresh(c) && c[..] == b[..]
  {
    c := new Word[b.Length](i requires 0 <= i < b.Length reads b => b[i]);
  }

  method Set(b: array<Word>, pos: nat)
    requires pos < 64 * b.Length
    modifies b
    ensures Members(b[..]) == old(Members(b[..])) + {pos}
  {
    var major, minor := pos / 64, pos % 64;
    b[major] := Or(b[major], OneShl(minor));
    ghost var was := old(b[..]);
    forall p: nat
      ensures Has(b[..], p) <==> p == pos || Has(was, p)
    {
      if p < 64 * b.Length && p / 64 == major {
        assert b[..][p / 64] == Or(was[major], OneShl(minor));
      }
    }
  }

  method Clear(b: array<Word>, pos: nat)
    requires pos < 64 * b.Length
    modifies b
    ensures Members(b[..]) == old(Members(b[..])) - {pos}
  {
    var major, minor := pos / 64, pos % 64;
    b[major] := AndNot(b[major], OneShl(minor));
    ghost var was := old(b[..]);
    forall p: nat
      ensures Has(b[..], p) <==> p != pos && Has(was, p)
    {
      if p < 64 * b.Length && p / 64 == major {
        assert b[..][p / 64] == AndNot(was[major], OneShl(minor));
      }
    }
  }

  method Get(b: array<Word>, pos: nat) returns (r: bool)
    requires pos < 64 * b.Length
    ensures r <==> pos in Members(b[..])
  {
    var major, minor := pos / 64, pos % 64;
    var masked := And(b[major], OneShl(minor));
    r := masked != ZERO;
    if b[major][minor] {
      assert masked[minor];
    } else {
      assert masked == ZERO;
    }
  }

  // Reading does not change a bit set, so the operations below take its words.

  method Popcnt(b: seq<Word>) returns (total: nat)
    ensures total == |Members(b)|
  {
    total := 0;
    assert Members(b[..0]) == {};
    for i := 0 to |b|
      invariant total == |Members(b[..i])|
    {
      total := total + OnesCount(b[i]);
      MembersOfLast(b[..i], b[i]);
      assert b[..i + 1] == b[..i] + [b[i]];
    }
    assert b[..|b|] == b;
  }

  method Hash(b: seq<Word>) returns (hash: Word)
    ensures hash == HashOf(b)
  {
    var count := Popcnt(b);
    hash := ToWord(count);
    for i := 0 to |b|
      invariant hash == XorAll(ToWord(count), b[..i])
    {
      hash := Xor(hash, b[i]);
      assert b[..i + 1] == b[..i] + [b[i]];
      assert b[..i + 1][..i] == b[..i];
    }
    assert b[..|b|] == b;
  }

  method Equals(b: seq<Word>, c: seq<Word>) returns (eq: bool)
    ensures |b| == |c| ==> (eq <==> Members(b) == Members(c))
    ensures |b| != |c| ==> !eq
  {
    if |b| == |c| && Members(b) == Members(c) {
      MembersInjective(b, c);
    }
    if |b| != |c| {
      return false;
    }
    for i := 0 to |b|
      invariant b[..i] == c[..i]
    {
      if b[i] != c[i] {
        return false;
      }
      assert b[..i + 1] == b[..i] + [b[i]] && c[..i + 1] == c[..i] + [c[i]];
    }
    assert b[..|b|] == b && c[..|b|] == c;
    return true;
  }
}
