/** Shared building blocks: the failure-compatible wrappers that carry the
    error paths, and Select, the order-preserving index filter that every
    "test, then push_back" loop of the front-end is proved against. */
module Common {

  datatype Option<+T> = None | Some(value: T)

  datatype Result<+R, +E> = Success(value: R) | Failure(error: E)

  /** The indices i < n for which keep(i) holds, in increasing order. */
  function Select(n: nat, keep: nat -> bool): (idx: seq<nat>)
    ensures |idx| <= n
    ensures forall k :: 0 <= k < |idx| ==> idx[k] < n && keep(idx[k])
  {
    if n == 0 then []
    else Select(n - 1, keep) + (if keep(n - 1) then [n - 1] else [])
  }

  ghost predicate StrictlyIncreasing(idx: seq<nat>) {
    forall k, l :: 0 <= k < l < |idx| ==> idx[k] < idx[l]
  }

  /** Select keeps the order of the indices it scans. */
  lemma {:induction false} SelectIncreasing(n: nat, keep: nat -> bool)
    ensures StrictlyIncreasing(Select(n, keep))
  {
    if n > 0 {
      SelectIncreasing(n - 1, keep);
    }
  }

  /** An index is selected exactly when it is in range and passes the test. */
  lemma {:induction false} SelectMembership(n: nat, keep: nat -> bool, i: nat)
    ensures i in Select(n, keep) <==> i < n && keep(i)
  {
    if n > 0 && i < n - 1 {
      SelectMembership(n - 1, keep, i);
    }
  }

  /** The indices below n that pass the test, as a set. */
  ghost function Passing(n: nat, keep: nat -> bool): (r: set<nat>) {
    set i: nat | i < n && keep(i)
  }

  /** Select returns one index per passing position: no more, no fewer. */
  lemma {:induction false} SelectCount(n: nat, keep: nat -> bool)
    ensures |Select(n, keep)| == |Passing(n, keep)|
  {
    if n > 0 {
      SelectCount(n - 1, keep);
      var below := Passing(n - 1, keep);
      if keep(n - 1) {
        assert Passing(n, keep) == below + {n - 1};
        assert n - 1 !in below;
      } else {
        assert Passing(n, keep) == below;
      }
    }
  }
}
