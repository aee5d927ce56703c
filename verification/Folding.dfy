/** Loops over a list that may fail on the way. */
module Folding {
  /** The state, and whether no step failed; after a failure nothing more is done. */
  datatype Ran<T> = Ran(state: T, ok: bool)

  /** The first `n` steps from `start`. */
  ghost function Fold<T(!new)>(step: (T, nat) -> Ran<T>, start: T, n: nat): Ran<T> {
    if n == 0 then Ran(start, true)
    else
      var r := Fold(step, start, n - 1);
      if r.ok then step(r.state, n - 1) else r
  }

  /** What every step keeps holds at the end. */
  lemma {:induction false} FoldKeeps<T(!new)>(step: (T, nat) -> Ran<T>, start: T, n: nat, keeps: T -> bool)
    requires keeps(start) && forall t, k: nat :: k < n && keeps(t) ==> keeps(step(t, k).state)
    ensures keeps(Fold(step, start, n).state)
  {
    if n > 0 {
      FoldKeeps(step, start, n - 1, keeps);
    }
  }

  /** If moreover no step fails under what was kept so far, none does. */
  lemma {:induction false} FoldSucceeds<T(!new)>(
      step: (T, nat) -> Ran<T>, start: T, n: nat, keeps: (T, nat) -> bool)
    requires keeps(start, 0)
    requires forall t, k: nat :: k < n && keeps(t, k) ==> step(t, k).ok && keeps(step(t, k).state, k + 1)
    ensures Fold(step, start, n).ok && keeps(Fold(step, start, n).state, n)
  {
    if n > 0 {
      FoldSucceeds(step, start, n - 1, keeps);
    }
  }

  /** After a failure nothing changes. */
  lemma {:induction false} FoldStops<T(!new)>(step: (T, nat) -> Ran<T>, start: T, m: nat, n: nat)
    requires m <= n && !Fold(step, start, m).ok
    ensures Fold(step, start, n) == Fold(step, start, m)
    decreases n
  {
    if m < n {
      FoldStops(step, start, m, n - 1);
    }
  }

  /** Steps that do nothing. */
  lemma {:induction false} FoldIdles<T(!new)>(step: (T, nat) -> Ran<T>, start: T, n: nat)
    requires forall k: nat :: k < n ==> step(start, k) == Ran(start, true)
    ensures Fold(step, start, n) == Ran(start, true)
  {
    if n > 0 {
      FoldIdles(step, start, n - 1);
    }
  }
}
