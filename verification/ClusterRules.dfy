/**
 What the workload clusterer compares and decides, and what its phases do to its
 tables.
 */
module ClusterRules {
  import opened Prelude
  import opened UnionFind
  import opened ClusterTables

  /** The cosine of two vectors; an arbitrary function, possibly another one on each call. */
  type Cosine = (Series, Series) -> real

  /** Named time series; the names are distinct, as dictionary keys are. */
  type Workload = s: seq<(Template, Series)> | forall i, j :: 0 <= i < j < |s| ==> s[i].0 != s[j].0

  function Restrict(a: Series, times: set<Time>): Series {
    map t | t in a && t in times :: a[t]
  }

  /** Similarity over the common timestamps; fewer than three count as none. */
  function Similarity(cosine: Cosine, a: Series, b: Series): real {
    var common := a.Keys * b.Keys;
    if |common| < 3 then 0.0 else cosine(Restrict(a, common), Restrict(b, common))
  }

  lemma SubsetSize<T>(a: set<T>, b: set<T>)
    requires a <= b
    ensures |a| <= |b|
  {
    assert b == a + (b - a);
  }

  /** A series of fewer than three points is similar to nothing. */
  lemma ShortSeries(cosine: Cosine, a: Series, b: Series)
    ensures |a| < 3 || |b| < 3 ==> Similarity(cosine, a, b) == 0.0
  {
    SubsetSize(a.Keys * b.Keys, a.Keys);
    SubsetSize(a.Keys * b.Keys, b.Keys);
  }

  function CenterOf(tb: Tables, c: Id): Series {
    if c in tb.centers then tb.centers[c] else map[]
  }

  /** A center that could take part in a merge. */
  predicate Fresh(tb: Tables, c: Id) {
    3 <= |CenterOf(tb, c)|
  }

  /** Between runs no cluster is fresh. */
  ghost predicate Settled(tb: Tables) {
    forall c | c in tb.clusters :: !Fresh(tb, c)
  }

  /** Clusters that could still be merged into others have never been merged into. */
  ghost predicate FreshUnranked(tb: Tables) {
    forall c | c in tb.clusters && Fresh(tb, c) :: c in tb.rank && tb.rank[c] == 0
  }

  /** Ids are never reused: a cluster that was not there before has a new id. */
  ghost predicate Later(before: Tables, after: Tables) {
    && before.nextId <= after.nextId
    && forall c | c in after.clusters :: c in before.clusters || before.nextId <= c
  }

  /** No cluster is smaller than `n`. */
  ghost predicate AtLeast(tb: Tables, n: int) {
    forall c | c in tb.clusters :: n <= |tb.clusters[c].templates|
  }

  /** Similarity of a series to each cluster's center. */
  function Score(cosine: Cosine, series: Series, centers: map<Id, Series>): Id -> real {
    (c: Id) => Similarity(cosine, series, if c in centers then centers[c] else map[])
  }

  predicate Eligible(score: Id -> real, threshold: real, c: Id) {
    score(c) > 0.0 && score(c) >= threshold
  }

  /** The score to beat: the best so far, or zero. */
  function ToBeat(score: Id -> real, best: Option<Id>): real {
    if best.Some? then score(best.value) else 0.0
  }

  /** The first id of highest score among the eligible ones. */
  function BestIn(order: seq<Id>, score: Id -> real, threshold: real): Option<Id> {
    if order == [] then None
    else
      var best, c := BestIn(order[..|order| - 1], score, threshold), order[|order| - 1];
      if score(c) > ToBeat(score, best) && score(c) >= threshold then Some(c) else best
  }

  lemma {:induction false} BestInIsBest(order: seq<Id>, score: Id -> real, threshold: real)
    ensures match BestIn(order, score, threshold)
            case Some(b) =>
              && b in order && Eligible(score, threshold, b)
              && forall c | c in order && Eligible(score, threshold, c) :: score(c) <= score(b)
            case None => forall c | c in order :: !Eligible(score, threshold, c)
  {
    if order != [] {
      var n := |order| - 1;
      BestInIsBest(order[..n], score, threshold);
      assert order == order[..n] + [order[n]];
    }
  }

  method BestOf(order: seq<Id>, score: Id -> real, threshold: real) returns (best: Option<Id>)
    ensures best == BestIn(order, score, threshold)
    ensures match best
            case Some(b) =>
              && b in order && Eligible(score, threshold, b)
              && forall c | c in order && Eligible(score, threshold, c) :: score(c) <= score(b)
            case None => forall c | c in order :: !Eligible(score, threshold, c)
  {
    best := None;
    var bestScore := 0.0;
    for i := 0 to |order|
      invariant best == BestIn(order[..i], score, threshold) && bestScore == ToBeat(score, best)
    {
      assert order[..i + 1][..i] == order[..i];
      var similarity := score(order[i]);
      if similarity > bestScore && similarity >= threshold {
        best, bestScore := Some(order[i]), similarity;
      }
    }
    assert order[..|order|] == order;
    BestInIsBest(order, score, threshold);
  }

  ghost predicate Mergeable(tb: Tables) {
    LiveAreRoots(tb) && FreshUnranked(tb)
  }

  /** Clusters may have gone, but no template lost its cluster and no id was taken. */
  ghost predicate Shrunk(before: Tables, after: Tables) {
    && after.nextId == before.nextId
    && after.clusters.Keys <= before.clusters.Keys
    && after.clusterOf.Keys == before.clusterOf.Keys
  }

  /** The listed clusters from position `n` on that could still be merged have rank 0. */
  ghost predicate UnrankedFrom(tb: Tables, ids: seq<Id>, n: nat) {
    forall k: nat | n <= k < |ids| :: UnrankedAt(tb, ids, k)
  }

  ghost predicate UnrankedAt(tb: Tables, ids: seq<Id>, k: nat)
    requires k < |ids|
  {
    ids[k] in tb.clusters && Fresh(tb, ids[k]) ==> ids[k] in tb.rank && tb.rank[ids[k]] == 0
  }

  /** A template too dissimilar from the center of its cluster. */
  function Far(tb: Tables, cosine: Cosine, threshold: real): ((Template, Series)) -> bool {
    (x: (Template, Series)) =>
      x.0 in tb.clusterOf && tb.clusterOf[x.0] in tb.clusters &&
      Similarity(cosine, x.1, CenterOf(tb, tb.clusterOf[x.0])) < threshold
  }

  function Names(s: seq<(Template, Series)>): (names: seq<Template>)
    ensures |names| == |s|
    ensures forall i :: 0 <= i < |s| ==> names[i] == s[i].0
  {
    seq(|s|, i requires 0 <= i < |s| => s[i].0)
  }

  ghost predicate Named(s: seq<(Template, Series)>, p: ((Template, Series)) -> bool, t: Template) {
    exists i :: 0 <= i < |s| && s[i].0 == t && p(s[i])
  }

  ghost predicate NoneEligible(tb: Tables, score: Id -> real, threshold: real) {
    forall c | c in tb.clusters :: !Eligible(score, threshold, c)
  }

  ghost predicate MostEligible(tb: Tables, score: Id -> real, threshold: real, b: Id) {
    && b in tb.clusters && b in tb.sizes && Eligible(score, threshold, b)
    && forall c | c in tb.clusters && Eligible(score, threshold, c) :: score(c) <= score(b)
  }

  /** A template stays where it is, joins a most similar cluster, or founds one if none is similar enough. */
  ghost predicate Placed(
      before: Tables, after: Tables, t: Template, series: Series, score: Id -> real, threshold: real, now: Time) {
    if t in before.clusterOf then after == before
    else if NoneEligible(before, score, threshold) then after == Created(before, t, series)
    else exists b :: MostEligible(before, score, threshold, b) && after == Joined(before, t, b, now)
  }

  /** Where a template goes. */
  function PlacedIn(tb: Tables, t: Template, series: Series, cosine: Cosine, threshold: real, now: Time): Tables {
    if t in tb.clusterOf && tb.clusterOf[t] in tb.clusters then tb
    else
      match BestIn(tb.order, Score(cosine, series, tb.centers), threshold)
      case None => Created(tb, t, series)
      case Some(b) => if b in tb.clusters && b in tb.sizes then Joined(tb, t, b, now) else tb
  }

  lemma PlacedInIsPlaced(tb: Tables, t: Template, series: Series, cosine: Cosine, threshold: real, now: Time)
    requires Consistent(tb)
    ensures Placed(tb, PlacedIn(tb, t, series, cosine, threshold, now), t, series, Score(cosine, series, tb.centers),
                   threshold, now)
  {
    var score := Score(cosine, series, tb.centers);
    BestInIsBest(tb.order, score, threshold);
    SizesKnown(tb);
    if t in tb.clusterOf {
      AssignedIsLive(tb, t);
    } else if BestIn(tb.order, score, threshold).Some? {
      assert MostEligible(tb, score, threshold, BestIn(tb.order, score, threshold).value);
    }
  }

  /** Templates were added and none moved; what merging needs is kept. */
  ghost predicate Extended(before: Tables, after: Tables) {
    && Later(before, after)
    && (forall t | t in before.clusterOf :: t in after.clusterOf && after.clusterOf[t] == before.clusterOf[t])
    && (Mergeable(before) ==> Mergeable(after))
  }

  ghost predicate Grown(before: Tables, after: Tables) {
    Extended(before, after) && (Thin(before) ==> Thin(after))
  }

  lemma FewerRoots(before: Tables, after: Tables)
    requires after.clusters.Keys <= before.clusters.Keys && after.parent == before.parent
    ensures LiveAreRoots(before) ==> LiveAreRoots(after)
  {
  }

  lemma SizesKnown(tb: Tables)
    requires Consistent(tb)
    ensures tb.clusters.Keys <= tb.sizes.Keys
  {
    forall c | c in tb.clusters
      ensures c in tb.sizes
    {
      assert ClusterOk(tb, c);
    }
  }

  lemma MergeOutcome(tb: Tables, tb': Tables, a: Id, b: Id, now: Time, ok: bool)
    requires Consistent(tb) && a in tb.parent && b in tb.parent && a != b
    requires tb.parent[a] == a && tb.parent[b] == b && tb.clusters.Keys <= tb.sizes.Keys
    requires ok <==> a in tb.clusters && b in tb.clusters
    requires tb' == if ok then Merged(tb, a, b, now) else United(tb, a, b)
    ensures Consistent(tb') && Shrunk(tb, tb')
  {
    if ok {
      MergedConsistent(tb, a, b, now);
    } else {
      LinkIsForest(tb.parent, tb.rank, a, b);
      RelinkedConsistent(tb, tb');
    }
  }

  lemma AssignedIsLive(tb: Tables, t: Template)
    requires Consistent(tb) && t in tb.clusterOf
    ensures tb.clusterOf[t] in tb.clusters
  {
    assert Assigned(tb, t, tb.clusterOf[t]) && Member(tb, t, tb.clusterOf[t]);
  }

  lemma NamesNext(p: ((Template, Series)) -> bool, s: seq<(Template, Series)>, i: nat)
    requires i < |s|
    ensures p(s[i]) ==> Names(Filter(p, s[..i + 1])) == Names(Filter(p, s[..i])) + [s[i].0]
    ensures !p(s[i]) ==> Names(Filter(p, s[..i + 1])) == Names(Filter(p, s[..i]))
  {
    FilterNext(p, s, i);
  }

  lemma NamesOfFiltered(series: Workload, p: ((Template, Series)) -> bool)
    ensures NoRepeat(Names(Filter(p, series)))
    ensures forall t :: t in Names(Filter(p, series)) <==> Named(series, p, t)
  {
    var kept := Filter(p, series);
    var at := FilterPositions(p, series);
    forall a, b | 0 <= a < b < |kept|
      ensures kept[a].0 != kept[b].0
    {
      assert at[a] < at[b];
    }
    forall t
      ensures t in Names(kept) <==> Named(series, p, t)
    {
      if t in Names(kept) {
        var a :| 0 <= a < |kept| && Names(kept)[a] == t;
        FilterMember(p, series, kept[a]);
        assert series[at[a]].0 == t;
      }
      if Named(series, p, t) {
        var i :| 0 <= i < |series| && series[i].0 == t && p(series[i]);
        assert i in at;
        var a :| 0 <= a < |at| && at[a] == i;
        assert Names(kept)[a] == t;
      }
    }
  }

  lemma ElementsNext(s: seq<Template>, i: nat)
    requires i < |s| && NoRepeat(s)
    ensures Elements(s[..i + 1]) == Elements(s[..i]) + {s[i]} && s[i] !in Elements(s[..i])
  {
    assert s[..i + 1] == s[..i] + [s[i]];
  }

  lemma DepartOutcome(tb: Tables, t: Template)
    requires Consistent(tb) && t in tb.clusterOf
    ensures tb.clusterOf[t] in tb.clusters && tb.clusterOf[t] in tb.sizes
    ensures var tb' := Departed(tb, t, tb.clusterOf[t]);
            Consistent(tb') && tb'.clusters.Keys == tb.clusters.Keys && tb'.clusterOf == tb.clusterOf - {t}
  {
    AssignedIsLive(tb, t);
    DepartedConsistent(tb, t, tb.clusterOf[t]);
  }

  function DepartedAll(tb: Tables, leaving: seq<Template>): Tables {
    if leaving == [] then tb
    else
      var tb', t := DepartedAll(tb, leaving[..|leaving| - 1]), leaving[|leaving| - 1];
      if t in tb'.clusterOf && tb'.clusterOf[t] in tb'.sizes then Departed(tb', t, tb'.clusterOf[t]) else tb'
  }

  lemma {:induction false} DepartAllOutcome(tb: Tables, leaving: seq<Template>)
    requires Consistent(tb) && NoRepeat(leaving)
    requires forall i :: 0 <= i < |leaving| ==> leaving[i] in tb.clusterOf
    ensures var tb' := DepartedAll(tb, leaving);
            Consistent(tb') && tb'.clusters.Keys == tb.clusters.Keys &&
                tb'.clusterOf == tb.clusterOf - Elements(leaving)
  {
    hide Consistent, Departed;
    if leaving != [] {
      var n := |leaving| - 1;
      DepartAllOutcome(tb, leaving[..n]);
      ElementsNext(leaving, n);
      assert leaving[..n + 1] == leaving;
      var tb' := DepartedAll(tb, leaving[..n]);
      assert leaving[n] in tb'.clusterOf;
      DepartOutcome(tb', leaving[n]);
      assert DepartedAll(tb, leaving) == Departed(tb', leaving[n], tb'.clusterOf[leaving[n]]);
    }
  }

  lemma {:induction false} DepartAllKeeps(tb: Tables, leaving: seq<Template>)
    ensures var tb' := DepartedAll(tb, leaving);
            && tb'.centers == tb.centers && tb'.parent == tb.parent && tb'.rank == tb.rank
            && tb'.nextId == tb.nextId && tb'.order == tb.order
  {
    if leaving != [] {
      DepartAllKeeps(tb, leaving[..|leaving| - 1]);
    }
  }

  lemma DepartNext(tb: Tables, leaving: seq<Template>, i: nat)
    requires Consistent(tb) && NoRepeat(leaving) && i < |leaving|
    requires forall k :: 0 <= k < |leaving| ==> leaving[k] in tb.clusterOf
    ensures var tb', t := DepartedAll(tb, leaving[..i]), leaving[i];
            && t in tb'.clusterOf && tb'.clusterOf[t] in tb'.sizes
            && DepartedAll(tb, leaving[..i + 1]) == Departed(tb', t, tb'.clusterOf[t])
  {
    DepartAllOutcome(tb, leaving[..i]);
    ElementsNext(leaving, i);
    assert leaving[..i + 1][..i] == leaving[..i];
    DepartOutcome(DepartedAll(tb, leaving[..i]), leaving[i]);
  }

  function DroppedAll(tb: Tables, small: seq<Id>): Tables {
    if small == [] then tb else Dropped(DroppedAll(tb, small[..|small| - 1]), small[|small| - 1])
  }

  lemma {:induction false} DropAllConsistent(tb: Tables, small: seq<Id>)
    requires Consistent(tb)
    ensures Consistent(DroppedAll(tb, small))
  {
    if small != [] {
      var n := |small| - 1;
      DropAllConsistent(tb, small[..n]);
      DroppedConsistent(DroppedAll(tb, small[..n]), small[n]);
    }
  }

  lemma {:induction false} DropAllKeeps(tb: Tables, small: seq<Id>)
    ensures var tb' := DroppedAll(tb, small); tb'.parent == tb.parent && tb'.rank == tb.rank && tb'.nextId == tb.nextId
  {
    if small != [] {
      DropAllKeeps(tb, small[..|small| - 1]);
    }
  }

  lemma {:induction false} DropAllClusters(tb: Tables, small: seq<Id>)
    ensures var tb' := DroppedAll(tb, small);
            && (forall c :: c in tb'.clusters <==> c in tb.clusters && c !in small)
            && (forall c | c in tb'.clusters :: tb'.clusters[c] == tb.clusters[c])
  {
    if small != [] {
      var n := |small| - 1;
      DropAllClusters(tb, small[..n]);
      assert small == small[..n] + [small[n]];
    }
  }

  function RecenteredAll(tb: Tables, ids: seq<Id>, now: Time): Tables {
    if ids == [] then tb
    else
      var tb', c := RecenteredAll(tb, ids[..|ids| - 1], now), ids[|ids| - 1];
      if c in tb'.clusters then Recentered(tb', c, now) else tb'
  }

  lemma {:induction false} RecenterAllConsistent(tb: Tables, ids: seq<Id>, now: Time)
    requires Consistent(tb)
    ensures Consistent(RecenteredAll(tb, ids, now))
  {
    if ids != [] {
      var n := |ids| - 1;
      RecenterAllConsistent(tb, ids[..n], now);
      var tb' := RecenteredAll(tb, ids[..n], now);
      if ids[n] in tb'.clusters {
        RecenteredConsistent(tb', ids[n], now);
      }
    }
  }

  lemma {:induction false} RecenterAllSettles(tb: Tables, ids: seq<Id>, now: Time)
    ensures var tb' := RecenteredAll(tb, ids, now);
            && tb'.clusters == tb.clusters
            && forall c | c in tb.clusters && c in ids && tb.clusters[c].templates != [] :: !Fresh(tb', c)
  {
    if ids != [] {
      var n := |ids| - 1;
      RecenterAllSettles(tb, ids[..n], now);
      var tb' := RecenteredAll(tb, ids[..n], now);
      if ids[n] in tb.clusters {
        RecenterSettles(tb', ids[n], now);
      }
      assert ids == ids[..n] + [ids[n]];
    }
  }

  lemma {:induction false} RecenterAllOnlyCenters(tb: Tables, ids: seq<Id>, now: Time)
    ensures RecenteredAll(tb, ids, now) == tb.(centers := RecenteredAll(tb, ids, now).centers)
  {
    if ids != [] {
      RecenterAllOnlyCenters(tb, ids[..|ids| - 1], now);
    }
  }

  lemma RecenterSettles(tb: Tables, c: Id, now: Time)
    requires c in tb.clusters
    ensures Recentered(tb, c, now).clusters == tb.clusters
    ensures tb.clusters[c].templates != [] ==> !Fresh(Recentered(tb, c, now), c)
    ensures forall x :: !Fresh(tb, x) ==> !Fresh(Recentered(tb, c, now), x)
  {
  }

  lemma SettledMergeable(tb: Tables)
    ensures LiveAreRoots(tb) && Settled(tb) ==> Mergeable(tb)
  {
  }

  lemma SameMergeable(before: Tables, after: Tables)
    requires after.clusters.Keys == before.clusters.Keys && after.centers == before.centers
    requires after.parent == before.parent && after.rank == before.rank
    ensures Mergeable(before) ==> Mergeable(after)
  {
  }

  lemma SizesAreLengths(tb: Tables)
    requires Consistent(tb)
    ensures forall c | c in tb.clusters :: c in tb.sizes && tb.sizes[c] == |tb.clusters[c].templates|
  {
    forall c | c in tb.clusters
      ensures c in tb.sizes && tb.sizes[c] == |tb.clusters[c].templates|
    {
      assert ClusterOk(tb, c);
    }
  }

  lemma GrownTransitive(a: Tables, b: Tables, c: Tables)
    requires Grown(a, b) && Grown(b, c)
    ensures Grown(a, c)
  {
  }

  lemma JoinOutcome(tb: Tables, t: Template, c: Id, now: Time)
    requires Consistent(tb) && t !in tb.clusterOf && c in tb.clusters && c in tb.sizes
    ensures Consistent(Joined(tb, t, c, now)) && Extended(tb, Joined(tb, t, c, now))
    ensures t in Joined(tb, t, c, now).clusterOf
  {
    JoinedConsistent(tb, t, c, now);
    JoinGrows(tb, t, c, now);
  }

  lemma PlacedOutcome(
      before: Tables, after: Tables, t: Template, series: Series, cosine: Cosine, threshold: real, now: Time)
    requires Consistent(before)
    requires Placed(before, after, t, series, Score(cosine, series, before.centers), threshold, now)
    ensures Consistent(after) && Grown(before, after) && t in after.clusterOf
  {
    if Thin(before) {
      PlacedThin(before, after, t, series, cosine, threshold, now);
    }
    PlacedExtends(before, after, t, series, Score(cosine, series, before.centers), threshold, now);
  }

  lemma PlacedExtends(
      before: Tables, after: Tables, t: Template, series: Series, score: Id -> real, threshold: real, now: Time)
    requires Consistent(before) && Placed(before, after, t, series, score, threshold, now)
    ensures Consistent(after) && Extended(before, after) && t in after.clusterOf
  {
    if t !in before.clusterOf {
      if NoneEligible(before, score, threshold) {
        CreateOutcome(before, t, series);
      } else {
        var b :| MostEligible(before, score, threshold, b) && after == Joined(before, t, b, now);
        JoinOutcome(before, t, b, now);
      }
    }
  }

  lemma EnlistedKeeps(tb: Tables, t: Template, c: Id)
    requires c in tb.clusters && c in tb.sizes
    ensures var tb' := Enlisted(tb, t, c);
            && tb'.clusters.Keys == tb.clusters.Keys && tb'.clusters[c].templates != [] && tb'.centers == tb.centers
            && tb'.clusterOf == tb.clusterOf[t := c] && tb'.nextId == tb.nextId
            && tb'.parent == tb.parent && tb'.rank == tb.rank
  {
  }

  /** A cluster that is joined gets a center of one point; the other centers stay. */
  lemma JoinedCenters(tb: Tables, t: Template, c: Id, now: Time)
    requires c in tb.clusters && c in tb.sizes
    ensures var tb' := Joined(tb, t, c, now);
            && tb'.clusters.Keys == tb.clusters.Keys && tb'.clusterOf == tb.clusterOf[t := c]
            && tb'.nextId == tb.nextId && tb'.parent == tb.parent && tb'.rank == tb.rank
            && !Fresh(tb', c) && forall x | x != c :: CenterOf(tb', x) == CenterOf(tb, x)
  {
    EnlistedKeeps(tb, t, c);
    RecenterSettles(Enlisted(tb, t, c), c, now);
  }

  lemma CreatedCenters(tb: Tables, t: Template, series: Series)
    ensures Created(tb, t, series).clusters.Keys == tb.clusters.Keys + {tb.nextId}
    ensures forall x ::
              CenterOf(Created(tb, t, series), x) == if x == tb.nextId then series else CenterOf(tb, x)
  {
  }

  lemma JoinGrows(tb: Tables, t: Template, c: Id, now: Time)
    requires t !in tb.clusterOf && c in tb.clusters && c in tb.sizes
    ensures Extended(tb, Joined(tb, t, c, now))
  {
    var tb' := Joined(tb, t, c, now);
    JoinedCenters(tb, t, c, now);
    if Mergeable(tb) {
      forall x | x in tb'.clusters && Fresh(tb', x)
        ensures x in tb'.rank && tb'.rank[x] == 0
      {
        assert x != c && CenterOf(tb', x) == CenterOf(tb, x);
      }
    }
  }

  lemma CreateOutcome(tb: Tables, t: Template, series: Series)
    requires Consistent(tb) && t !in tb.clusterOf
    ensures Consistent(Created(tb, t, series)) && Extended(tb, Created(tb, t, series))
    ensures t in Created(tb, t, series).clusterOf
  {
    CreatedConsistent(tb, t, series);
    assert tb.nextId !in tb.clusters;
    CreateGrows(tb, t, series);
  }

  lemma CreateMergeable(tb: Tables, t: Template, series: Series)
    requires Mergeable(tb)
    ensures Mergeable(Created(tb, t, series))
  {
    var tb' := Created(tb, t, series);
    CreatedCenters(tb, t, series);
    forall x | x in tb'.clusters && Fresh(tb', x)
      ensures x in tb'.rank && tb'.rank[x] == 0
    {
      assert x != tb.nextId ==> CenterOf(tb', x) == CenterOf(tb, x);
    }
  }

  lemma CreateGrows(tb: Tables, t: Template, series: Series)
    requires t !in tb.clusterOf && tb.nextId !in tb.clusters
    ensures Extended(tb, Created(tb, t, series))
  {
    hide Mergeable;
    if Mergeable(tb) {
      CreateMergeable(tb, t, series);
    }
  }

  /**
   Two fresh clusters can only be of the same call; the later one in the list has
   not absorbed anything yet, so the earlier one keeps both the data and the root.
   */
  lemma MergeSafe(tb: Tables, ids: seq<Id>, i: nat, j: nat, now: Time)
    requires Consistent(tb) && LiveAreRoots(tb) && UnrankedFrom(tb, ids, i + 1)
    requires StrictlyIncreasing(ids) && i < j < |ids|
    requires Fresh(tb, ids[i]) && Fresh(tb, ids[j])
    ensures ids[i] in tb.clusters && ids[j] in tb.clusters && ids[i] != ids[j]
    ensures ids[i] in tb.rank && ids[j] in tb.rank && ids[i] in tb.sizes && ids[j] in tb.sizes
    ensures LiveAreRoots(Merged(tb, ids[i], ids[j], now))
    ensures UnrankedFrom(Merged(tb, ids[i], ids[j], now), ids, i + 1)
  {
    var a, b := ids[i], ids[j];
    assert UnrankedAt(tb, ids, j);
    MergedRootsIff(tb, a, b, now);
    MergeKeepsUnranked(tb, ids, i, j, now);
  }

  lemma MergeKeepsUnranked(tb: Tables, ids: seq<Id>, i: nat, j: nat, now: Time)
    requires LiveAreRoots(tb) && UnrankedFrom(tb, ids, i + 1) && StrictlyIncreasing(ids) && i < j < |ids|
    requires ids[i] in tb.clusters && ids[j] in tb.clusters && ids[i] in tb.rank && ids[j] in tb.rank &&
        ids[i] in tb.sizes && ids[j] in tb.sizes
    ensures UnrankedFrom(Merged(tb, ids[i], ids[j], now), ids, i + 1)
  {
    var tb' := Merged(tb, ids[i], ids[j], now);
    forall k: nat | i + 1 <= k < |ids| ensures UnrankedAt(tb', ids, k) {
      assert UnrankedAt(tb, ids, k);
      if ids[k] in tb'.clusters {
        MergeLeavesAlone(tb, ids[i], ids[j], now, ids[k]);
      }
    }
  }

  /** A merge touches only the two clusters it is about. */
  lemma MergeLeavesAlone(tb: Tables, a: Id, b: Id, now: Time, c: Id)
    requires a in tb.rank && b in tb.rank && a != b && c != a
    requires a in tb.clusters && b in tb.clusters && a in tb.sizes && b in tb.sizes
    requires a in tb.parent && b in tb.parent && tb.parent[a] == a && tb.parent[b] == b
    requires c in Merged(tb, a, b, now).clusters
    ensures
      var tb' := Merged(tb, a, b, now);
      && c in tb.clusters && CenterOf(tb', c) == CenterOf(tb, c)
      && (c in tb.rank ==> c in tb'.rank && tb'.rank[c] == tb.rank[c])
  {
    hide Merged;
    MergedShape(tb, a, b, now);
    MovedOthers(tb, a, b, now, c);
  }

  predicate CanMerge(tb: Tables, a: Id, b: Id) {
    a in tb.rank && b in tb.rank && a != b && a in tb.clusters && b in tb.clusters && a in tb.sizes && b in tb.sizes
  }

  lemma FirstMerge(tb: Tables, a: Id, b: Id, c: Id, now: Time)
    requires Consistent(tb) && LiveAreRoots(tb) && a in tb.clusters && b in tb.clusters && c in tb.clusters &&
        a != b && a != c && b != c
    requires a in tb.rank && b in tb.rank && c in tb.rank && tb.rank[a] == tb.rank[b] == tb.rank[c]
    ensures CanMerge(tb, a, b)
    ensures var merged := Merged(tb, a, b, now);
            && Consistent(merged) && LiveAreRoots(merged) && c in merged.clusters && a in merged.clusters
            && c in merged.rank && a in merged.rank && merged.rank[c] < merged.rank[a]
  {
    MergedRootsIff(tb, a, b, now);
    MergedConsistent(tb, a, b, now);
    MergeRaisesRank(tb, a, b, c, now);
  }

  lemma MergeRaisesRank(tb: Tables, a: Id, b: Id, c: Id, now: Time)
    requires CanMerge(tb, a, b) && c in tb.rank && c != a && c != b && tb.rank[a] == tb.rank[b] == tb.rank[c]
    requires a in tb.parent && b in tb.parent && tb.parent[a] == a && tb.parent[b] == b
    ensures var rank := Merged(tb, a, b, now).rank; c in rank && a in rank && rank[c] < rank[a]
  {
    MergedShape(tb, a, b, now);
  }

  /** All ids so far are in use and unranked. */
  ghost predicate AllNew(tb: Tables) {
    forall c: Id | 0 <= c < tb.nextId :: c in tb.clusters && c in tb.rank && tb.rank[c] == 0
  }

  lemma OneMoreCluster(tb: Tables, t: Template, series: Series)
    requires Consistent(tb) && LiveAreRoots(tb) && AllNew(tb) && t !in tb.clusterOf
    ensures Consistent(Created(tb, t, series)) && LiveAreRoots(Created(tb, t, series)) && AllNew(Created(tb, t, series))
  {
    CreatedConsistent(tb, t, series);
    CreatedUnranked(tb, t, series);
  }

  lemma CreatedUnranked(tb: Tables, t: Template, series: Series)
    requires LiveAreRoots(tb) && AllNew(tb)
    ensures LiveAreRoots(Created(tb, t, series)) && AllNew(Created(tb, t, series))
  {
  }

  lemma ReassignedNext(clusterOf: map<Template, Id>, hashes: seq<Template>, i: nat, c: Id)
    requires i < |hashes|
    ensures Reassigned(clusterOf, hashes[..i + 1], c) == Reassigned(clusterOf, hashes[..i], c)[hashes[i] := c]
  {
    assert hashes[..i + 1] == hashes[..i] + [hashes[i]];
  }

  lemma {:induction false} AbsentUnchanged<T>(s: seq<T>, x: T)
    ensures x !in s ==> RemoveFirst(s, x) == s
  {
    if s != [] {
      AbsentUnchanged(s[1..], x);
      assert s == [s[0]] + s[1..];
    }
  }

  // ----- the pair loop

  predicate Dissimilar(tb: Tables, a: Id, b: Id, cosine: Cosine, threshold: real) {
    Similarity(cosine, CenterOf(tb, a), CenterOf(tb, b)) < threshold
  }

  // ----- how large clusters get

  /** At most two members, and at most one as long as the cluster can still be joined or merged. */
  ghost predicate ThinCluster(tb: Tables, c: Id)
    requires c in tb.clusters
  {
    |tb.clusters[c].templates| <= 2 && (Fresh(tb, c) ==> |tb.clusters[c].templates| <= 1)
  }

  ghost predicate Thin(tb: Tables) {
    forall c | c in tb.clusters :: ThinCluster(tb, c)
  }

  lemma ScoreMeansFresh(cosine: Cosine, series: Series, tb: Tables, threshold: real, c: Id)
    requires Eligible(Score(cosine, series, tb.centers), threshold, c)
    ensures Fresh(tb, c)
  {
    ShortSeries(cosine, series, CenterOf(tb, c));
  }

  /** A joined cluster has a center of one point, so it is not joined again. */
  lemma PlacedThin(
      before: Tables, after: Tables, t: Template, series: Series, cosine: Cosine, threshold: real, now: Time)
    requires Placed(before, after, t, series, Score(cosine, series, before.centers), threshold, now) && Thin(before)
    ensures Thin(after)
  {
    var score := Score(cosine, series, before.centers);
    if t !in before.clusterOf && !NoneEligible(before, score, threshold) {
      var b :| MostEligible(before, score, threshold, b) && after == Joined(before, t, b, now);
      ScoreMeansFresh(cosine, series, before, threshold, b);
      JoinedThin(before, t, b, now);
    } else {
      forall c | c in after.clusters ensures ThinCluster(after, c) {
        assert c in before.clusters ==> ThinCluster(before, c) && CenterOf(before, c) == CenterOf(before, c);
      }
    }
  }

  lemma JoinedThin(tb: Tables, t: Template, b: Id, now: Time)
    requires b in tb.clusters && b in tb.sizes && Thin(tb) && Fresh(tb, b)
    ensures Thin(Joined(tb, t, b, now))
  {
    var tb' := Joined(tb, t, b, now);
    forall c | c in tb'.clusters ensures ThinCluster(tb', c) {
      assert ThinCluster(tb, c);
      assert c != b ==> CenterOf(tb', c) == CenterOf(tb, c);
    }
  }

  lemma DepartedThin(tb: Tables, t: Template, c: Id)
    requires Thin(tb) && (c in tb.clusters ==> c in tb.sizes)
    ensures Thin(Departed(tb, t, c))
  {
    var tb' := Departed(tb, t, c);
    if c in tb.clusters {
      RemoveFirstShortens(tb.clusters[c].templates, t);
    }
    forall x | x in tb'.clusters ensures ThinCluster(tb', x) {
      assert ThinCluster(tb, x) && CenterOf(tb', x) == CenterOf(tb, x);
      assert x != c ==> tb'.clusters[x] == tb.clusters[x];
    }
  }

  lemma {:induction false} RemoveFirstShortens<T>(s: seq<T>, x: T)
    ensures |RemoveFirst(s, x)| <= |s|
  {
    if s != [] {
      RemoveFirstShortens(s[1..], x);
    }
  }

  lemma {:induction false} DepartedAllThin(tb: Tables, leaving: seq<Template>)
    requires Thin(tb)
    ensures Thin(DepartedAll(tb, leaving))
  {
    if leaving != [] {
      var n := |leaving| - 1;
      DepartedAllThin(tb, leaving[..n]);
      var tb', t := DepartedAll(tb, leaving[..n]), leaving[n];
      if t in tb'.clusterOf && tb'.clusterOf[t] in tb'.sizes {
        DepartedThin(tb', t, tb'.clusterOf[t]);
      }
    }
  }

  /** A merge that leaves members leaves a center of one point. */
  lemma MergedThin(tb: Tables, a: Id, b: Id, now: Time)
    requires CanMerge(tb, a, b) && Thin(tb) && Fresh(tb, a) && Fresh(tb, b)
    ensures Thin(Merged(tb, a, b, now))
  {
    var tb', moved := Merged(tb, a, b, now), Moved(tb, a, b);
    assert ThinCluster(tb, a) && ThinCluster(tb, b);
    RecenterSettles(moved, a, now);
    assert |moved.clusters[a].templates| <= 2;
    forall c | c in tb'.clusters && c != a ensures ThinCluster(tb', c) {
      assert ThinCluster(tb, c);
      MovedOthers(tb, a, b, now, c);
    }
  }

  lemma MovedOthers(tb: Tables, a: Id, b: Id, now: Time, c: Id)
    requires CanMerge(tb, a, b) && c in Merged(tb, a, b, now).clusters && c != a
    ensures c in tb.clusters && Merged(tb, a, b, now).clusters[c] == tb.clusters[c]
    ensures CenterOf(Merged(tb, a, b, now), c) == CenterOf(tb, c)
  {
    var united := United(tb, a, b);
    AbsorbedOthers(united, a, b, c);
  }

  lemma AbsorbedOthers(tb: Tables, a: Id, b: Id, c: Id)
    requires a in tb.clusters && b in tb.clusters && a in tb.sizes && b in tb.sizes && a != b && c != a
    ensures c in Absorbed(tb, a, b).clusters ==> c in tb.clusters && Absorbed(tb, a, b).clusters[c] == tb.clusters[c]
    ensures c != b ==> CenterOf(Absorbed(tb, a, b), c) == CenterOf(tb, c)
    ensures b !in Absorbed(tb, a, b).clusters
  {
  }

  lemma MergedAtLeast(tb: Tables, a: Id, b: Id, now: Time, n: nat)
    requires CanMerge(tb, a, b) && AtLeast(tb, n)
    ensures AtLeast(Merged(tb, a, b, now), n)
  {
    var moved := Moved(tb, a, b);
    RecenterSettles(moved, a, now);
    assert n <= |moved.clusters[a].templates|;
    forall c | c in Merged(tb, a, b, now).clusters && c != a
      ensures n <= |Merged(tb, a, b, now).clusters[c].templates|
    {
      MovedOthers(tb, a, b, now, c);
    }
  }
}
