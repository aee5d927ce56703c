/** What the merge phase of the workload clusterer does to its tables, pair by pair. */
module ClusterMerging {
  import opened Prelude
  import opened Folding
  import opened UnionFind
  import opened ClusterTables
  import opened ClusterRules

  ghost predicate Known(tb: Tables, x: Id) {
    Forest(tb.parent, tb.rank) && x in tb.parent
  }

  ghost function RootOf(tb: Tables, x: Id): Id
    requires Known(tb, x)
  {
    Root(tb.parent, tb.rank, x)
  }

  /** The tables after a search for the representative of `x`. */
  ghost function Found(tb: Tables, x: Id): Tables
    requires Known(tb, x)
  {
    tb.(parent := Compress(tb.parent, tb.rank, x))
  }

  lemma FoundSound(tb: Tables, x: Id)
    requires Known(tb, x)
    ensures forall y :: Known(tb, y) ==> Known(Found(tb, x), y) && RootOf(Found(tb, x), y) == RootOf(tb, y)
    ensures Consistent(tb) ==> Consistent(Found(tb, x))
    ensures tb.parent[x] == x ==> Found(tb, x) == tb
  {
    CompressSound(tb.parent, tb.rank, x);
    if Consistent(tb) {
      RelinkedConsistent(tb, Found(tb, x));
    }
  }

  /** Merging the classes of two ids: searching both, then the union, then moving the data. */
  ghost function MergeStep(tb: Tables, a: Id, b: Id, now: Time): Ran<Tables> {
    if !Known(tb, a) || !Known(tb, b) then Ran(tb, false)
    else
      FoundSound(tb, a);
      var searched := Found(Found(tb, a), b);
      var root1, root2 := RootOf(tb, a), RootOf(tb, b);
      if root1 == root2 then Ran(searched, true)
      else if CanMerge(searched, root1, root2) then Ran(Merged(searched, root1, root2, now), true)
      else if root1 in searched.rank && root2 in searched.rank then Ran(United(searched, root1, root2), false)
      else Ran(searched, false)
  }

  ghost function PairStep(tb: Tables, a: Id, b: Id, cosine: Cosine, threshold: real, now: Time): Ran<Tables> {
    if Dissimilar(tb, a, b, cosine, threshold) then Ran(tb, true) else MergeStep(tb, a, b, now)
  }

  /** The pairs of `ids[i]` with the ids after it, one by one. */
  ghost function RowStepper(ids: seq<Id>, i: nat, cosine: Cosine, threshold: real, now: Time):
      (Tables, nat) -> Ran<Tables>
  {
    (tb: Tables, j: nat) =>
      if i < j < |ids| then PairStep(tb, ids[i], ids[j], cosine, threshold, now) else Ran(tb, true)
  }

  /** The rows of the double loop, one by one. */
  ghost function RowsStepper(ids: seq<Id>, cosine: Cosine, threshold: real, now: Time): (Tables, nat) -> Ran<Tables> {
    (tb: Tables, i: nat) => Fold(RowStepper(ids, i, cosine, threshold, now), tb, |ids|)
  }

  /** The merge phase. */
  ghost function Mergers(tb: Tables, cosine: Cosine, threshold: real, now: Time): Ran<Tables> {
    Fold(RowsStepper(tb.order, cosine, threshold, now), tb, |tb.order|)
  }

  // ----- consistency

  lemma MergeOfRoots(tb: Tables, a: Id, b: Id, now: Time)
    requires Consistent(tb) && LiveAreRoots(tb) && a in tb.clusters && b in tb.clusters && a != b
    ensures CanMerge(tb, a, b) && MergeStep(tb, a, b, now) == Ran(Merged(tb, a, b, now), true)
  {
    MergeOfTwoRoots(tb, a, b, now);
  }

  /** Two live roots are merged as the tables say. */
  lemma MergeOfTwoRoots(tb: Tables, a: Id, b: Id, now: Time)
    requires Consistent(tb) && a in tb.clusters && b in tb.clusters && a != b
    requires a in tb.parent && b in tb.parent && tb.parent[a] == a && tb.parent[b] == b
    ensures CanMerge(tb, a, b) && MergeStep(tb, a, b, now) == Ran(Merged(tb, a, b, now), true)
  {
    FoundSound(tb, a);
    FoundSound(tb, b);
    SizesKnown(tb);
  }

  lemma MergeStepSound(tb: Tables, a: Id, b: Id, now: Time)
    requires Consistent(tb) && a < tb.nextId && b < tb.nextId
    ensures Consistent(MergeStep(tb, a, b, now).state) && Shrunk(tb, MergeStep(tb, a, b, now).state)
    ensures MergeStep(tb, a, b, now).ok <==>
            Known(tb, a) && Known(tb, b) &&
            (RootOf(tb, a) == RootOf(tb, b) || (RootOf(tb, a) in tb.clusters && RootOf(tb, b) in tb.clusters))
  {
    FoundSound(tb, a);
    var once := Found(tb, a);
    FoundSound(once, b);
    var twice, root1, root2 := Found(once, b), RootOf(tb, a), RootOf(tb, b);
    if root1 != root2 {
      SizesKnown(twice);
      assert RootOf(twice, a) == root1 && RootOf(twice, b) == root2;
      MergeOutcome(twice, MergeStep(tb, a, b, now).state, root1, root2, now, MergeStep(tb, a, b, now).ok);
    }
  }

  lemma PairStepSound(tb: Tables, a: Id, b: Id, cosine: Cosine, threshold: real, now: Time)
    requires Consistent(tb) && a < tb.nextId && b < tb.nextId
    ensures var r := PairStep(tb, a, b, cosine, threshold, now); Consistent(r.state) && Shrunk(tb, r.state)
  {
    if !Dissimilar(tb, a, b, cosine, threshold) {
      MergeStepSound(tb, a, b, now);
    }
  }

  ghost predicate Issued(tb: Tables, ids: seq<Id>) {
    forall k | 0 <= k < |ids| :: ids[k] < tb.nextId
  }

  ghost predicate MergedFrom(start: Tables, tb: Tables) {
    Consistent(tb) && Shrunk(start, tb)
  }

  lemma RowSound(
      start: Tables, tb: Tables, ids: seq<Id>, i: nat, j: nat, cosine: Cosine, threshold: real, now: Time)
    requires Issued(start, ids) && j <= |ids| && MergedFrom(start, tb)
    ensures MergedFrom(start, Fold(RowStepper(ids, i, cosine, threshold, now), tb, j).state)
  {
    var step := RowStepper(ids, i, cosine, threshold, now);
    forall t, k: nat | k < j && MergedFrom(start, t) ensures MergedFrom(start, step(t, k).state) {
      if i < k {
        PairStepSound(t, ids[i], ids[k], cosine, threshold, now);
      }
    }
    FoldKeeps(step, tb, j, t => MergedFrom(start, t));
  }

  lemma RowsSound(start: Tables, ids: seq<Id>, i: nat, cosine: Cosine, threshold: real, now: Time)
    requires Issued(start, ids) && i <= |ids| && Consistent(start)
    ensures MergedFrom(start, Fold(RowsStepper(ids, cosine, threshold, now), start, i).state)
  {
    var step := RowsStepper(ids, cosine, threshold, now);
    forall t, k: nat | k < i && MergedFrom(start, t) ensures MergedFrom(start, step(t, k).state) {
      RowSound(start, t, ids, k, |ids|, cosine, threshold, now);
    }
    FoldKeeps(step, start, i, t => MergedFrom(start, t));
  }

  /** Nothing happens up to the diagonal. */
  lemma RowBegins(tb: Tables, ids: seq<Id>, i: nat, cosine: Cosine, threshold: real, now: Time)
    ensures Fold(RowStepper(ids, i, cosine, threshold, now), tb, i + 1) == Ran(tb, true)
  {
    FoldIdles(RowStepper(ids, i, cosine, threshold, now), tb, i + 1);
  }

  lemma OrderIssued(tb: Tables)
    requires OrderOk(tb)
    ensures Issued(tb, tb.order)
  {
    assert forall k | 0 <= k < |tb.order| :: tb.order[k] in tb.order;
  }

  lemma MergersSound(tb: Tables, cosine: Cosine, threshold: real, now: Time)
    requires Consistent(tb)
    ensures MergedFrom(tb, Mergers(tb, cosine, threshold, now).state)
  {
    OrderIssued(tb);
    RowsSound(tb, tb.order, |tb.order|, cosine, threshold, now);
  }

  // ----- with a positive threshold

  /** Nothing from list position `n` on can be merged wrongly, and clusters stay small. */
  ghost predicate SafeFrom(tb: Tables, ids: seq<Id>, n: nat) {
    Consistent(tb) && Issued(tb, ids) && LiveAreRoots(tb) && UnrankedFrom(tb, ids, n)
  }

  /** A pair that is merged consists of live roots, and all stays safe. */
  lemma PairSafe(tb: Tables, ids: seq<Id>, i: nat, j: nat, cosine: Cosine, threshold: real, now: Time)
    requires StrictlyIncreasing(ids) && i < j < |ids| && SafeFrom(tb, ids, i + 1) && 0.0 < threshold
    ensures var r := PairStep(tb, ids[i], ids[j], cosine, threshold, now);
            r.ok && SafeFrom(r.state, ids, i + 1) && (Thin(tb) ==> Thin(r.state))
  {
    var a, b := ids[i], ids[j];
    if !Dissimilar(tb, a, b, cosine, threshold) {
      ShortSeries(cosine, CenterOf(tb, a), CenterOf(tb, b));
      MergeSafe(tb, ids, i, j, now);
      MergeOfRoots(tb, a, b, now);
      MergeStepSound(tb, a, b, now);
      if Thin(tb) {
        MergedThin(tb, a, b, now);
      }
    }
  }

  /** What is kept while pairs from row `n` on are still to come. */
  ghost predicate StaysSafe(start: Tables, tb: Tables, ids: seq<Id>, n: nat) {
    SafeFrom(tb, ids, n) && (Thin(start) ==> Thin(tb))
  }

  lemma RowSafe(
      start: Tables, tb: Tables, ids: seq<Id>, i: nat, j: nat, cosine: Cosine, threshold: real, now: Time)
    requires StrictlyIncreasing(ids) && j <= |ids| && 0.0 < threshold && StaysSafe(start, tb, ids, i)
    ensures var r := Fold(RowStepper(ids, i, cosine, threshold, now), tb, j);
            r.ok && StaysSafe(start, r.state, ids, i + 1)
  {
    var step, next := RowStepper(ids, i, cosine, threshold, now), i + 1;
    forall t, k: nat | k < j && StaysSafe(start, t, ids, next)
      ensures step(t, k).ok && StaysSafe(start, step(t, k).state, ids, next)
    {
      if i < k {
        PairSafe(t, ids, i, k, cosine, threshold, now);
      }
    }
    FoldSucceeds(step, tb, j, (t, k) => StaysSafe(start, t, ids, next));
  }

  lemma RowsSafe(start: Tables, ids: seq<Id>, i: nat, cosine: Cosine, threshold: real, now: Time)
    requires StrictlyIncreasing(ids) && i <= |ids| && 0.0 < threshold && SafeFrom(start, ids, 0)
    ensures var r := Fold(RowsStepper(ids, cosine, threshold, now), start, i);
            r.ok && StaysSafe(start, r.state, ids, i)
  {
    var step := RowsStepper(ids, cosine, threshold, now);
    forall t, k: nat | k < i && StaysSafe(start, t, ids, k)
      ensures step(t, k).ok && StaysSafe(start, step(t, k).state, ids, k + 1)
    {
      RowSafe(start, t, ids, k, |ids|, cosine, threshold, now);
    }
    FoldSucceeds(step, start, i, (t, k) => StaysSafe(start, t, ids, k));
  }

  /**
   Where every live cluster is a root and those that can still be merged are
   unranked, no lookup fails, and live clusters stay roots.
   */
  lemma MergersSafe(tb: Tables, cosine: Cosine, threshold: real, now: Time)
    requires Consistent(tb) && Mergeable(tb) && 0.0 < threshold
    ensures var r := Mergers(tb, cosine, threshold, now);
            r.ok && LiveAreRoots(r.state) && (Thin(tb) ==> Thin(r.state))
  {
    OrderIssued(tb);
    RowsSafe(tb, tb.order, |tb.order|, cosine, threshold, now);
  }
}
