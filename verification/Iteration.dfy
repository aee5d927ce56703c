/** Deterministic loops over finitely many states: they end soon or never. */
module Iteration {
  import opened Prelude

  /** `n` iterations of a loop from state `s`; `None` once it has ended. */
  ghost function Iterate<S(!new)>(step: S -> Option<S>, s: S, n: nat): Option<S> {
    if n == 0 then Some(s)
    else match step(s) { case None => None case Some(t) => Iterate(step, t, n - 1) }
  }

  lemma {:induction false} IterateSum<S(!new)>(step: S -> Option<S>, s: S, m: nat, n: nat)
    requires Iterate(step, s, m).Some?
    ensures Iterate(step, s, m + n) == Iterate(step, Iterate(step, s, m).value, n)
    decreases m
  {
    if m > 0 {
      IterateSum(step, step(s).value, m - 1, n);
    }
  }

  lemma {:induction false} IterateLess<S(!new)>(step: S -> Option<S>, s: S, m: nat, n: nat)
    requires m <= n && Iterate(step, s, n).Some?
    ensures Iterate(step, s, m).Some?
    decreases m
  {
    if m > 0 {
      IterateLess(step, step(s).value, m - 1, n - 1);
    }
  }

  /** A loop that comes back to a state never ends. */
  lemma {:induction false} CycleForever<S(!new)>(step: S -> Option<S>, s: S, k: nat, n: nat)
    requires k > 0 && Iterate(step, s, k) == Some(s)
    ensures Iterate(step, s, n).Some?
    decreases n
  {
    if n <= k {
      IterateLess(step, s, n, k);
    } else {
      IterateSum(step, s, k, n - k);
      CycleForever(step, s, k, n - k);
    }
  }

  /** The loop comes to some state twice. */
  ghost predicate Recurs<S(!new)>(step: S -> Option<S>, s: S) {
    exists m: nat, n: nat :: m < n && Iterate(step, s, m).Some? && Iterate(step, s, m) == Iterate(step, s, n)
  }

  /** While it goes on, the loop stays within `holes`. */
  ghost predicate StaysIn<S(!new)>(step: S -> Option<S>, s: S, holes: set<S>) {
    forall m: nat :: Iterate(step, s, m + 1).Some? ==> Iterate(step, s, m).Some? && Iterate(step, s, m).value in holes
  }

  /** More iterations than there are states come to one of them twice. */
  lemma ManyRecur<S(!new)>(step: S -> Option<S>, s: S, holes: set<S>)
    requires StaysIn(step, s, holes) && Iterate(step, s, |holes| + 1).Some?
    ensures Recurs(step, s)
  {
    var size := |holes|;
    forall m: nat | m <= size + 1 ensures Iterate(step, s, m).Some? {
      IterateLess(step, s, m, size + 1);
    }
    var states := seq(size + 1, m requires 0 <= m <= size => Iterate(step, s, m).value);
    forall m | 0 <= m < |states| ensures states[m] in holes {
      assert Iterate(step, s, m + 1).Some?;
    }
    if NoRepeat(states) {
      Pigeonhole(states, holes);
      assert false;
    }
    var i, j :| 0 <= i < j < |states| && states[i] == states[j];
    assert Iterate(step, s, i) == Iterate(step, s, j);
  }

  lemma RecurringNeverEnds<S(!new)>(step: S -> Option<S>, s: S, n: nat)
    requires Recurs(step, s)
    ensures Iterate(step, s, n).Some?
  {
    var i: nat, j: nat :| i < j && Iterate(step, s, i).Some? && Iterate(step, s, i) == Iterate(step, s, j);
    IterateSum(step, s, i, j - i);
    if n <= i {
      IterateLess(step, s, n, i);
    } else {
      CycleForever(step, Iterate(step, s, i).value, j - i, n - i);
      IterateSum(step, s, i, n - i);
    }
  }

  /** A loop over finitely many states ends within as many iterations, or never, and then it comes to a state twice. */
  lemma NeverEndsIff<S(!new)>(step: S -> Option<S>, s: S, holes: set<S>)
    requires StaysIn(step, s, holes)
    ensures Iterate(step, s, |holes| + 1).Some? <==> Recurs(step, s)
    ensures Recurs(step, s) <==> forall n: nat :: Iterate(step, s, n).Some?
  {
    if Iterate(step, s, |holes| + 1).Some? {
      ManyRecur(step, s, holes);
    }
    if Recurs(step, s) {
      forall n: nat ensures Iterate(step, s, n).Some? {
        RecurringNeverEnds(step, s, n);
      }
    }
  }
}
