/** The order of strings that Go's < and sort.Strings use. */
module StringOrder {
  import opened Sorting

  predicate Leq(a: string, b: string) {
    if a == [] then true
    else if b == [] then false
    else if a[0] == b[0] then Leq(a[1..], b[1..])
    else a[0] < b[0]
  }

  /** They are equal up to index k, where a ends or has the smaller character. */
  ghost predicate SplitAt(a: string, b: string, k: nat) {
    && k <= |a| && k <= |b| && a[..k] == b[..k]
    && (k < |a| ==> k < |b| && a[k] < b[k])
  }

  lemma SplitHeads(a: string, b: string, k: nat)
    requires SplitAt(a, b, k) && a != []
    ensures b != [] && (if k == 0 then a[0] < b[0] else a[0] == b[0])
  {
    if k > 0 {
      assert a[..k][0] == b[..k][0];
    }
  }

  /** The order is the lexicographic one. */
  lemma {:induction false} LeqIsLexicographic(a: string, b: string)
    ensures Leq(a, b) <==> exists k: nat :: SplitAt(a, b, k)
  {
    if a == [] {
      assert SplitAt(a, b, 0);
    } else if b != [] && a[0] == b[0] {
      LeqIsLexicographic(a[1..], b[1..]);
      if k: nat :| SplitAt(a[1..], b[1..], k) {
        assert a[..k + 1] == [a[0]] + a[1..][..k] && b[..k + 1] == [b[0]] + b[1..][..k];
        assert SplitAt(a, b, k + 1);
      }
      if k: nat :| SplitAt(a, b, k) {
        assert k > 0;
        assert a[1..][..k - 1] == a[..k][1..] && b[1..][..k - 1] == b[..k][1..];
        assert SplitAt(a[1..], b[1..], k - 1);
      }
    } else {
      assert b != [] && a[0] < b[0] ==> SplitAt(a, b, 0);
      if k: nat :| SplitAt(a, b, k) {
        SplitHeads(a, b, k);
      }
    }
  }

  lemma {:induction false} LeqTotal(a: string, b: string)
    ensures Leq(a, b) || Leq(b, a)
  {
    if a != [] && b != [] && a[0] == b[0] {
      LeqTotal(a[1..], b[1..]);
    }
  }

  lemma {:induction false} LeqTransitive(a: string, b: string, c: string)
    requires Leq(a, b) && Leq(b, c)
    ensures Leq(a, c)
  {
    if a != [] && b != [] && c != [] && a[0] == b[0] && b[0] == c[0] {
      LeqTransitive(a[1..], b[1..], c[1..]);
    }
  }

  lemma {:induction false} LeqAntisymmetric(a: string, b: string)
    requires Leq(a, b) && Leq(b, a)
    ensures a == b
  {
    if a != [] && b != [] {
      LeqAntisymmetric(a[1..], b[1..]);
    }
  }

  lemma LeqIsOrder()
    ensures TotalPreorder(Leq)
  {
    forall x: string, y: string
      ensures Leq(x, y) || Leq(y, x)
    {
      LeqTotal(x, y);
    }
    forall x: string, y: string, z: string
      ensures Transits(Leq, x, y, z)
    {
      if Leq(x, y) && Leq(y, z) {
        LeqTransitive(x, y, z);
      }
    }
  }
}
