/** The word-count application (labs/src/mrapps/wc.go) as an instance of the MapReduce theorem. */
module WordCount {
  import opened Common
  import opened Shuffle

  // ---- decimal numbers, as strconv.Itoa writes them ----

  function Digit(d: nat): char
    requires d < 10
  {
    (d + '0' as int) as char
  }

  function Itoa(n: nat): (s: string)
    ensures s != []
  {
    if n < 10 then [Digit(n)] else Itoa(n / 10) + [Digit(n % 10)]
  }

  function DigitValue(c: char): nat {
    if '0' <= c <= '9' then (c as int) - ('0' as int) else 0
  }

  function Atoi(s: string): nat {
    if s == [] then 0 else 10 * Atoi(s[..|s| - 1]) + DigitValue(s[|s| - 1])
  }

  lemma DigitRoundTrip(d: nat)
    requires d < 10
    ensures DigitValue(Digit(d)) == d
  {
  }

  /** The decimal form of a number reads back as the number. */
  lemma {:induction false} ItoaRoundTrip(n: nat)
    ensures Atoi(Itoa(n)) == n
  {
    var d := if n < 10 then n else n % 10;
    DigitRoundTrip(d);
    if n >= 10 {
      ItoaRoundTrip(n / 10);
    }
    var front := if n < 10 then [] else Itoa(n / 10);
    assert Itoa(n) == front + [Digit(d)];
    assert (front + [Digit(d)])[..|front|] == front;
  }

  /** Decimal digits, without a leading zero except in "0". */
  ghost predicate IsDecimal(s: string) {
    && s != [] && (forall k :: 0 <= k < |s| ==> '0' <= s[k] <= '9')
    && (s[0] == '0' ==> |s| == 1)
  }

  /** A number is written in its one decimal form. */
  lemma {:induction false} ItoaIsDecimal(n: nat)
    ensures IsDecimal(Itoa(n)) && (Itoa(n)[0] == '0' ==> n == 0)
  {
    if n >= 10 {
      ItoaIsDecimal(n / 10);
    }
  }

  // ---- words ----

  function LetterRun(s: string, isLetter: char -> bool): (n: nat)
    ensures n <= |s| && (forall k :: 0 <= k < n ==> isLetter(s[k])) && (n < |s| ==> !isLetter(s[n]))
  {
    if s == [] || !isLetter(s[0]) then 0 else 1 + LetterRun(s[1..], isLetter)
  }

  /** strings.FieldsFunc: the maximal runs of letters. */
  function Words(s: string, isLetter: char -> bool): seq<string>
    decreases |s|
  {
    if s == [] then []
    else if !isLetter(s[0]) then Words(s[1..], isLetter)
    else var n := LetterRun(s, isLetter); [s[..n]] + Words(s[n..], isLetter)
  }

  /** A word is at s[i..j]: letters, with no letter before and none behind. */
  ghost predicate IsWordAt(s: string, isLetter: char -> bool, i: int, j: int) {
    && 0 <= i < j <= |s|
    && (forall k :: i <= k < j ==> isLetter(s[k]))
    && (i == 0 || !isLetter(s[i - 1])) && (j == |s| || !isLetter(s[j]))
  }

  /** The places of all words of s from index `from` on, in order. */
  ghost predicate ArePlaces(s: string, isLetter: char -> bool, from: nat, places: seq<(nat, nat)>) {
    && (forall k: nat {:trigger IsPlace(s, isLetter, from, places, k)} :: k < |places| ==>
          IsPlace(s, isLetter, from, places, k))
    && (forall k, l :: 0 <= k < l < |places| ==> places[k].1 <= places[l].0)
    && (forall i: nat, j: nat {:trigger IsWordAt(s, isLetter, i, j)} :: from <= i && IsWordAt(s, isLetter, i, j) ==>
          (i, j) in places)
  }

  ghost predicate IsPlace(s: string, isLetter: char -> bool, from: nat, places: seq<(nat, nat)>, k: nat)
    requires k < |places|
  {
    from <= places[k].0 && IsWordAt(s, isLetter, places[k].0, places[k].1)
  }

  /** The texts at given places. */
  ghost predicate TextsAt(s: string, places: seq<(nat, nat)>, texts: seq<string>) {
    |texts| == |places| && forall k :: 0 <= k < |places| ==>
      places[k].0 <= places[k].1 <= |s| && texts[k] == s[places[k].0..places[k].1]
  }

  /** The index is not inside a word. */
  ghost predicate IsBoundary(s: string, isLetter: char -> bool, from: nat) {
    from <= |s| && (0 < from < |s| ==> !isLetter(s[from - 1]) || !isLetter(s[from]))
  }

  lemma NoPlaceHere(s: string, isLetter: char -> bool, from: nat, places: seq<(nat, nat)>)
    requires from < |s| && !isLetter(s[from]) && ArePlaces(s, isLetter, from + 1, places)
    ensures ArePlaces(s, isLetter, from, places)
  {
    forall k: nat | k < |places|
      ensures IsPlace(s, isLetter, from, places, k)
    {
      assert IsPlace(s, isLetter, from + 1, places, k);
    }
    forall i: nat, j: nat | from <= i && IsWordAt(s, isLetter, i, j)
      ensures (i, j) in places
    {
      assert isLetter(s[i]);
    }
  }

  lemma RunIsWord(s: string, isLetter: char -> bool, from: nat, n: nat)
    requires IsBoundary(s, isLetter, from) && from < |s| && isLetter(s[from])
    requires n == LetterRun(s[from..], isLetter)
    ensures IsWordAt(s, isLetter, from, from + n) && IsBoundary(s, isLetter, from + n)
  {
    forall k | from <= k < from + n
      ensures isLetter(s[k])
    {
      assert s[k] == s[from..][k - from];
    }
    assert from + n < |s| ==> s[from + n] == s[from..][n];
  }

  lemma TextsCons(s: string, from: nat, to: nat, places: seq<(nat, nat)>, texts: seq<string>)
    requires from <= to <= |s| && TextsAt(s, places, texts)
    ensures TextsAt(s, [(from, to)] + places, [s[from..to]] + texts)
  {
  }

  lemma WordsSkip(s: string, isLetter: char -> bool, from: nat)
    requires from < |s| && !isLetter(s[from])
    ensures Words(s[from..], isLetter) == Words(s[from + 1..], isLetter)
  {
    assert s[from..][1..] == s[from + 1..];
  }

  lemma WordsTake(s: string, isLetter: char -> bool, from: nat, n: nat)
    requires from < |s| && isLetter(s[from]) && n == LetterRun(s[from..], isLetter)
    ensures from + n <= |s|
    ensures Words(s[from..], isLetter) == [s[from..from + n]] + Words(s[from + n..], isLetter)
  {
    assert s[from..][n..] == s[from + n..] && s[from..][..n] == s[from..from + n];
  }

  /** Words finds the words from index `from` on at these places. */
  ghost predicate FoundAt(s: string, isLetter: char -> bool, from: nat, places: seq<(nat, nat)>) {
    from <= |s| && ArePlaces(s, isLetter, from, places) && TextsAt(s, places, Words(s[from..], isLetter))
  }

  lemma FoundSkip(s: string, isLetter: char -> bool, from: nat, places: seq<(nat, nat)>)
    requires from < |s| && !isLetter(s[from]) && FoundAt(s, isLetter, from + 1, places)
    ensures FoundAt(s, isLetter, from, places)
  {
    NoPlaceHere(s, isLetter, from, places);
    WordsSkip(s, isLetter, from);
  }

  lemma FoundTake(s: string, isLetter: char -> bool, from: nat, n: nat, rest: seq<(nat, nat)>)
    returns (places: seq<(nat, nat)>)
    requires IsBoundary(s, isLetter, from) && from < |s| && isLetter(s[from])
    requires n == LetterRun(s[from..], isLetter) && FoundAt(s, isLetter, from + n, rest)
    ensures FoundAt(s, isLetter, from, places)
  {
    RunIsWord(s, isLetter, from, n);
    places := FirstPlace(s, isLetter, from, n, rest);
    TextsCons(s, from, from + n, rest, Words(s[from + n..], isLetter));
    WordsTake(s, isLetter, from, n);
  }

  /** From an index that is not inside a word on, Words finds the words. */
  lemma {:induction false} WordsFrom(s: string, isLetter: char -> bool, from: nat) returns (places: seq<(nat, nat)>)
    requires IsBoundary(s, isLetter, from)
    ensures FoundAt(s, isLetter, from, places)
    decreases |s| - from
  {
    if from == |s| {
      places := [];
    } else if !isLetter(s[from]) {
      places := WordsFrom(s, isLetter, from + 1);
      FoundSkip(s, isLetter, from, places);
    } else {
      var n := LetterRun(s[from..], isLetter);
      RunIsWord(s, isLetter, from, n);
      var rest := WordsFrom(s, isLetter, from + n);
      places := FoundTake(s, isLetter, from, n, rest);
    }
  }

  lemma FirstPlace(s: string, isLetter: char -> bool, from: nat, n: nat, rest: seq<(nat, nat)>)
    returns (places: seq<(nat, nat)>)
    requires IsWordAt(s, isLetter, from, from + n) && ArePlaces(s, isLetter, from + n, rest)
    ensures places == [(from, from + n)] + rest && ArePlaces(s, isLetter, from, places)
  {
    places := [(from, from + n)] + rest;
    forall k: nat | k < |places|
      ensures IsPlace(s, isLetter, from, places, k) && (k > 0 ==> from + n <= places[k].0)
    {
      assert k > 0 ==> IsPlace(s, isLetter, from + n, rest, k - 1);
    }
    forall i: nat, j: nat | from <= i && IsWordAt(s, isLetter, i, j)
      ensures (i, j) in places
    {
      if i < from + n {
        SamePlace(s, isLetter, from, from + n, i, j);
      }
    }
  }

  /** Two words that overlap are the same. */
  lemma SamePlace(s: string, isLetter: char -> bool, i: nat, j: nat, k: nat, l: nat)
    requires IsWordAt(s, isLetter, i, j) && IsWordAt(s, isLetter, k, l) && i <= k < j
    ensures i == k && j == l
  {
  }

  /** What Map emits for a file: the pair (w, "1") for each of its words, in order. */
  ghost predicate Emits(contents: string, isLetter: char -> bool, kva: seq<KeyValue>) {
    exists places :: ArePlaces(contents, isLetter, 0, places) && PairsAt(contents, places, kva)
  }

  ghost predicate PairsAt(contents: string, places: seq<(nat, nat)>, kva: seq<KeyValue>) {
    |kva| == |places| && forall k :: 0 <= k < |places| ==>
      places[k].0 <= places[k].1 <= |contents| && kva[k] == KeyValue(contents[places[k].0..places[k].1], "1")
  }

  method Map(contents: string, isLetter: char -> bool) returns (kva: seq<KeyValue>)
    ensures Emits(contents, isLetter, kva)
  {
    var words := Words(contents, isLetter);
    kva := [];
    for i := 0 to |words|
      invariant |kva| == i && forall k :: 0 <= k < i ==> kva[k] == KeyValue(words[k], "1")
    {
      kva := kva + [KeyValue(words[i], "1")];
    }
    ghost var places := WordsFrom(contents, isLetter, 0);
    assert contents[0..] == contents;
    assert PairsAt(contents, places, kva);
  }

  /** Reduce: how many values there are. */
  function Reduce(key: string, values: seq<string>): string {
    Itoa(|values|)
  }

  lemma ReduceIsOrderInsensitive()
    ensures OrderInsensitive(Reduce)
  {
    forall key: string, v: seq<string>, w: seq<string> | multiset(v) == multiset(w)
      ensures Reduce(key, v) == Reduce(key, w)
    {
      assert |multiset(v)| == |v| && |multiset(w)| == |w|;
    }
  }

  // ---- counting ----

  /** Where the word w occurs in a text. */
  ghost function OccursAt(s: string, isLetter: char -> bool, w: string): set<nat> {
    set i: nat | i < |s| && Occurs(s, isLetter, w, i)
  }

  ghost predicate Occurs(s: string, isLetter: char -> bool, w: string, i: nat) {
    IsWordAt(s, isLetter, i, i + |w|) && s[i..i + |w|] == w
  }

  /** How often w occurs in all files together, as a word. */
  ghost function TotalCount(files: seq<string>, isLetter: char -> bool, w: string): nat {
    if files == [] then 0 else
    var k := |files| - 1;
    TotalCount(files[..k], isLetter, w) + |OccursAt(files[k], isLetter, w)|
  }

  /** The starts of the first n places with the text w. */
  ghost function Starts(places: seq<(nat, nat)>, kva: seq<KeyValue>, n: nat, w: string): (r: seq<nat>)
    requires n <= |places| == |kva|
    ensures |r| == |ValuesOf(kva[..n], w)|
  {
    if n == 0 then [] else
    assert kva[..n][..n - 1] == kva[..n - 1];
    var r := Starts(places, kva, n - 1, w);
    if kva[n - 1].key == w then r + [places[n - 1].0] else r
  }

  ghost predicate StartsAt(places: seq<(nat, nat)>, kva: seq<KeyValue>, n: nat, w: string, i: nat)
    requires n <= |places| == |kva|
  {
    exists k: nat :: k < n && kva[k].key == w && places[k].0 == i
  }

  lemma {:induction false} StartsAreDistinct(places: seq<(nat, nat)>, kva: seq<KeyValue>, n: nat, w: string)
    requires n <= |places| == |kva| && forall k, l :: 0 <= k < l < |places| ==> places[k].0 < places[l].0
    ensures Distinct(Starts(places, kva, n, w))
    ensures forall i :: i in Starts(places, kva, n, w) <==> StartsAt(places, kva, n, w, i)
  {
    if n > 0 {
      StartsAreDistinct(places, kva, n - 1, w);
      forall i: nat
        ensures StartsAt(places, kva, n, w, i) <==>
                StartsAt(places, kva, n - 1, w, i) || (kva[n - 1].key == w && places[n - 1].0 == i)
      {
        if StartsAt(places, kva, n - 1, w, i) {
          var k: nat :| k < n - 1 && kva[k].key == w && places[k].0 == i;
          assert k < n;
        }
      }
      assert !StartsAt(places, kva, n - 1, w, places[n - 1].0);
    }
  }

  /** The starts of w are the places where it occurs. */
  lemma StartsAreOccurrences(s: string, isLetter: char -> bool, places: seq<(nat, nat)>, kva: seq<KeyValue>, w: string,
                             i: nat)
    requires ArePlaces(s, isLetter, 0, places) && PairsAt(s, places, kva)
    ensures StartsAt(places, kva, |places|, w, i) <==> i < |s| && Occurs(s, isLetter, w, i)
  {
    if StartsAt(places, kva, |places|, w, i) {
      var k: nat :| k < |places| && kva[k].key == w && places[k].0 == i;
      assert IsPlace(s, isLetter, 0, places, k);
      assert places[k].1 == i + |w|;
    }
    if i < |s| && Occurs(s, isLetter, w, i) {
      assert (i, i + |w|) in places;
      var k: nat :| k < |places| && places[k] == (i, i + |w|);
      assert kva[k].key == w;
    }
  }

  lemma PlacesRise(s: string, isLetter: char -> bool, places: seq<(nat, nat)>)
    requires ArePlaces(s, isLetter, 0, places)
    ensures forall k, l :: 0 <= k < l < |places| ==> places[k].0 < places[l].0
  {
    forall k, l | 0 <= k < l < |places|
      ensures places[k].0 < places[l].0
    {
      assert IsPlace(s, isLetter, 0, places, k);
    }
  }

  /** A word has as many pairs as it has occurrences. */
  lemma EmittedCount(s: string, isLetter: char -> bool, kva: seq<KeyValue>, w: string)
    requires Emits(s, isLetter, kva)
    ensures |ValuesOf(kva, w)| == |OccursAt(s, isLetter, w)|
  {
    var places :| ArePlaces(s, isLetter, 0, places) && PairsAt(s, places, kva);
    var starts := Starts(places, kva, |places|, w);
    assert kva[..|places|] == kva;
    PlacesRise(s, isLetter, places);
    StartsAreDistinct(places, kva, |places|, w);
    forall i: nat
      ensures i in starts <==> i in OccursAt(s, isLetter, w)
    {
      StartsAreOccurrences(s, isLetter, places, kva, w, i);
    }
    assert Elems(starts) == OccursAt(s, isLetter, w);
    DistinctSize(starts);
  }

  /** What the map tasks emit for the files. */
  ghost predicate AllEmitted(files: seq<string>, isLetter: char -> bool, mapped: seq<seq<KeyValue>>) {
    |mapped| == |files| && forall i :: 0 <= i < |files| ==> Emits(files[i], isLetter, mapped[i])
  }

  lemma {:induction false} ValuesAreOccurrences(files: seq<string>, isLetter: char -> bool,
                                                mapped: seq<seq<KeyValue>>, w: string)
    requires AllEmitted(files, isLetter, mapped)
    ensures |ValuesOf(Concat(mapped), w)| == TotalCount(files, isLetter, w)
  {
    if files != [] {
      var k := |files| - 1;
      ValuesAreOccurrences(files[..k], isLetter, mapped[..k], w);
      EmittedCount(files[k], isLetter, mapped[k], w);
      ValuesConcat(Concat(mapped[..k]), mapped[k], w);
    }
  }

  lemma {:induction false} HasKeyIffValues(kvs: seq<KeyValue>, key: string)
    ensures HasKey(kvs, key) <==> ValuesOf(kvs, key) != []
  {
    if kvs != [] {
      HasKeyIffValues(kvs[..|kvs| - 1], key);
      HasKeyLast(kvs, key);
    }
  }

  /**
   * Word count, end to end: once every bucket has an output file, the combined
   * output has a line for a word exactly if the word occurs, exactly one, and
   * it shows the number of its occurrences in all files.
   */
  lemma WordCountIsRight(files: seq<string>, isLetter: char -> bool, c: Cluster, run: seq<Files>, s: Files, w: string)
    requires c.nReduce > 0 && c.job.reducef == Reduce && AllEmitted(files, isLetter, c.job.mapped)
    requires IsRun(c, run) && s == run[|run| - 1] && forall b :: 0 <= b < c.nReduce ==> b in s.outs
    ensures var lines := Combined(s.outs, c.nReduce);
            && (HasLine(lines, w) <==> TotalCount(files, isLetter, w) > 0)
            && (forall i, j :: 0 <= i < j < |lines| ==> lines[i].key != lines[j].key)
            && (forall i :: 0 <= i < |lines| && lines[i].key == w ==>
                  IsDecimal(lines[i].output) && Atoi(lines[i].output) == TotalCount(files, isLetter, w))
  {
    ReduceIsOrderInsensitive();
    RunInv(c, run);
    CombinedIsReduced(c, s);
    var all := Concat(c.job.mapped);
    var lines := Combined(s.outs, c.nReduce);
    ValuesAreOccurrences(files, isLetter, c.job.mapped, w);
    HasKeyIffValues(all, w);
    ItoaRoundTrip(TotalCount(files, isLetter, w));
    ItoaIsDecimal(TotalCount(files, isLetter, w));
    forall i | 0 <= i < |lines| && lines[i].key == w
      ensures LineFor(all, Reduce, lines[i])
    {
    }
  }
}
