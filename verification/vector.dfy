/** The in-place vector compaction of include/utils.h: removeIndexElements
    keeps the elements at odd positions, in order, and shrinks the vector to
    them. */
module VectorUtils {

  /** The elements at odd positions 1, 3, 5, ... of s, in order. */
  function Decimate<T>(s: seq<T>): (r: seq<T>)
    decreases |s|
  {
    if |s| < 2 then [] else [s[1]] + Decimate(s[2..])
  }

  /** The elements at even positions 0, 2, 4, ... of s, in order. */
  function EvenIndexed<T>(s: seq<T>): (r: seq<T>)
    decreases |s|
  {
    if |s| == 0 then []
    else if |s| == 1 then [s[0]]
    else [s[0]] + EvenIndexed(s[2..])
  }

  /** A vector of n elements keeps floor(n/2) of them; in particular an
      empty or one-element vector becomes empty. */
  lemma {:induction false} DecimateLength<T>(s: seq<T>)
    ensures |Decimate(s)| == |s| / 2
  {
    if |s| >= 2 {
      DecimateLength(s[2..]);
    }
  }

  /** The k-th survivor is the element at odd position 2k+1; since 2k+1
      grows with k, survivors keep their relative order. */
  lemma {:induction false} DecimateAt<T>(s: seq<T>, k: nat)
    requires k < |s| / 2
    ensures |Decimate(s)| == |s| / 2 && Decimate(s)[k] == s[2 * k + 1]
  {
    DecimateLength(s);
    if k > 0 {
      DecimateAt(s[2..], k - 1);
    }
  }

  lemma {:induction false} EvenIndexedLength<T>(s: seq<T>)
    ensures |EvenIndexed(s)| == (|s| + 1) / 2
  {
    if |s| >= 2 {
      EvenIndexedLength(s[2..]);
    }
  }

  /** The k-th dropped element is the one at even position 2k. */
  lemma {:induction false} EvenIndexedAt<T>(s: seq<T>, k: nat)
    requires k < (|s| + 1) / 2
    ensures |EvenIndexed(s)| == (|s| + 1) / 2 && EvenIndexed(s)[k] == s[2 * k]
  {
    EvenIndexedLength(s);
    if k > 0 {
      EvenIndexedAt(s[2..], k - 1);
    }
  }

  /** Survivors and even-position elements together are exactly the input
      multiset. */
  lemma {:induction false} DecimateSplits<T>(s: seq<T>)
    ensures multiset(Decimate(s)) + multiset(EvenIndexed(s)) == multiset(s)
    decreases |s|
  {
    if |s| >= 2 {
      DecimateSplits(s[2..]);
      DecimateCons(s);
      EvenIndexedCons(s);
      MultisetCons2(s);
    } else if |s| == 1 {
      assert EvenIndexed(s) == s;
    }
  }

  lemma DecimateCons<T>(s: seq<T>)
    requires |s| >= 2
    ensures multiset(Decimate(s)) == multiset{s[1]} + multiset(Decimate(s[2..]))
  {
  }

  lemma EvenIndexedCons<T>(s: seq<T>)
    requires |s| >= 2
    ensures multiset(EvenIndexed(s)) == multiset{s[0]} + multiset(EvenIndexed(s[2..]))
  {
  }

  lemma MultisetCons2<T>(s: seq<T>)
    requires |s| >= 2
    ensures multiset(s) == multiset{s[0]} + multiset{s[1]} + multiset(s[2..])
  {
    assert s == [s[0]] + [s[1]] + s[2..];
  }

  /** removeIndexElements(vec): a write index j trails the read index i,
      each odd-position element is copied down to vec[j], and the vector is
      then resized to j. */
  method RemoveIndexElements<T>(vec: seq<T>) returns (res: seq<T>)
    ensures res == Decimate(vec)
  {
    var v := vec;
    var j := 0;
    for i := 0 to |v|
      invariant |v| == |vec|
      invariant j == i / 2 && j <= i
      invariant forall k :: 0 <= k < j ==> v[k] == vec[2 * k + 1]
      // the writes stay below i, so no element still to be read is overwritten
      invariant forall k :: i <= k < |v| ==> v[k] == vec[k]
    {
      if i % 2 != 0 {
        v := v[j := v[i]];
        j := j + 1;
      }
    }
    res := v[..j];
    DecimateLength(vec);
    forall k | 0 <= k < |res|
      ensures res[k] == Decimate(vec)[k]
    {
      DecimateAt(vec, k);
    }
  }
}
