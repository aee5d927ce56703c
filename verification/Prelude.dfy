/** Shared by every component. */
module Prelude {
  datatype Option<+T> = None | Some(value: T)

  ghost predicate StrictlyIncreasing(s: seq<int>) {
    forall i, j :: 0 <= i < j < |s| ==> s[i] < s[j]
  }

  /** The elements satisfying `p`. */
  function Filter<T>(p: T -> bool, s: seq<T>): (r: seq<T>)
    ensures |r| <= |s|
  {
    if s == [] then []
    else if p(s[|s| - 1]) then Filter(p, s[..|s| - 1]) + [s[|s| - 1]]
    else Filter(p, s[..|s| - 1])
  }

  /** Filtering one element more. */
  lemma FilterNext<T>(p: T -> bool, s: seq<T>, i: nat)
    requires i < |s|
    ensures Filter(p, s[..i + 1]) == Filter(p, s[..i]) + if p(s[i]) then [s[i]] else []
  {
    assert s[..i + 1][..i] == s[..i];
    assert Filter(p, s[..i]) + [] == Filter(p, s[..i]);
  }

  lemma {:induction false} FilterMember<T>(p: T -> bool, s: seq<T>, x: T)
    ensures x in Filter(p, s) <==> x in s && p(x)
  {
    if s != [] {
      FilterMember(p, s[..|s| - 1], x);
      assert s == s[..|s| - 1] + [s[|s| - 1]];
    }
  }

  /** `r` is what stands at the positions `at` of `s`. */
  ghost predicate StandsAt<T>(r: seq<T>, s: seq<T>, at: seq<int>) {
    && |at| == |r|
    && StrictlyIncreasing(at)
    && forall k :: 0 <= k < |at| ==> 0 <= at[k] < |s| && r[k] == s[at[k]]
  }

  /** Some position of `s` that satisfies `p` is missing from `at`. */
  ghost predicate Misses<T>(p: T -> bool, s: seq<T>, at: seq<int>) {
    exists i :: 0 <= i < |s| && p(s[i]) && i !in at
  }

  lemma ExtendPositions<T>(p: T -> bool, r: seq<T>, s: seq<T>, at: seq<int>, x: T)
    requires StandsAt(r, s, at) && !Misses(p, s, at)
    ensures p(x) ==> StandsAt(r + [x], s + [x], at + [|s|]) && !Misses(p, s + [x], at + [|s|])
    ensures !p(x) ==> StandsAt(r, s + [x], at) && !Misses(p, s + [x], at)
  {
    var more := at + [|s|];
    assert |s| == more[|at|];
    assert forall i <- at :: i in more;
  }

  /** Filtering is stable: it keeps exactly the satisfying positions, in order. */
  lemma {:induction false} FilterPositions<T>(p: T -> bool, s: seq<T>) returns (at: seq<int>)
    ensures StandsAt(Filter(p, s), s, at)
    ensures !Misses(p, s, at)
  {
    if s == [] {
      at := [];
    } else {
      var n := |s| - 1;
      at := FilterPositions(p, s[..n]);
      ExtendPositions(p, Filter(p, s[..n]), s[..n], at, s[n]);
      assert s == s[..n] + [s[n]];
      if p(s[n]) {
        at := at + [n];
      }
    }
  }

  /** How often `x` occurs in `s`. */
  ghost function Occurrences<T>(s: seq<T>, x: T): nat {
    if s == [] then 0
    else Occurrences(s[..|s| - 1], x) + if s[|s| - 1] == x then 1 else 0
  }

  lemma {:induction false} FilterOccurrences<T>(p: T -> bool, s: seq<T>, x: T)
    ensures Occurrences(Filter(p, s), x) == if p(x) then Occurrences(s, x) else 0
  {
    if s != [] {
      var n := |s| - 1;
      FilterOccurrences(p, s[..n], x);
      if p(s[n]) {
        assert Filter(p, s)[..|Filter(p, s)| - 1] == Filter(p, s[..n]);
      }
    }
  }

  lemma {:induction false} FilterNone<T>(p: T -> bool, s: seq<T>)
    requires forall i :: 0 <= i < |s| ==> !p(s[i])
    ensures Filter(p, s) == []
  {
    if s != [] {
      FilterNone(p, s[..|s| - 1]);
    }
  }

  /** Positions from `n` on contribute nothing. */
  lemma {:induction false} FilterPrefix<T>(p: T -> bool, s: seq<T>, n: nat)
    requires n <= |s|
    requires forall i :: n <= i < |s| ==> !p(s[i])
    ensures Filter(p, s) == Filter(p, s[..n])
  {
    if n == |s| {
      assert s[..n] == s;
    } else {
      FilterPrefix(p, s[..|s| - 1], n);
      assert s[..|s| - 1][..n] == s[..n];
    }
  }

  /** Two tests that agree on the elements keep the same ones. */
  lemma {:induction false} FilterAgree<T>(p: T -> bool, q: T -> bool, s: seq<T>)
    requires forall i :: 0 <= i < |s| ==> p(s[i]) == q(s[i])
    ensures Filter(p, s) == Filter(q, s)
  {
    if s != [] {
      FilterAgree(p, q, s[..|s| - 1]);
    }
  }

  ghost predicate NoRepeat<T>(s: seq<T>) {
    forall i, j | 0 <= i < j < |s| :: s[i] != s[j]
  }

  lemma {:induction false} Pigeonhole<T>(s: seq<T>, holes: set<T>)
    requires NoRepeat(s) && forall i | 0 <= i < |s| :: s[i] in holes
    ensures |s| <= |holes|
    decreases |s|
  {
    if s != [] {
      var n := |s| - 1;
      Pigeonhole(s[..n], holes - {s[n]});
    }
  }
}
