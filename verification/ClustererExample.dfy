/**
 Two runs of the workload clusterer, with merge threshold zero, after which the
 members of a cluster are kept under an id that is not the root of its class.
 */
module ClustererExample {
  import opened Prelude
  import opened Folding
  import opened UnionFind
  import opened ClusterTables
  import opened ClusterRules
  import opened ClusterMerging
  import opened ClusterRuns
  import opened ClusterBarren
  import opened ClusterFruitful
  import opened Clusterer

  const FIRST: Series := map[0 := -1.0, 1 := -1.0, 2 := 0.0]
  const SECOND: Series := map[0 := 1.0, 1 := 0.0, 2 := 0.0]
  const THIRD: Series := map[0 := 0.0, 1 := 1.0, 2 := 0.0]

  const SETTING := Parameters(0.8, 1, 24, 0.0)

  /** As the cosine of these vectors is: the first points away from the other two, which are orthogonal. */
  ghost predicate LikeCosine(cosine: Cosine) {
    && cosine(FIRST, SECOND) < 0.0 && cosine(SECOND, FIRST) < 0.0
    && cosine(FIRST, THIRD) < 0.0 && cosine(THIRD, FIRST) < 0.0
    && cosine(SECOND, THIRD) == 0.0 && cosine(THIRD, SECOND) == 0.0
    && cosine(FIRST, FIRST) == 1.0 && cosine(SECOND, SECOND) == 1.0 && cosine(THIRD, THIRD) == 1.0
  }

  lemma SameTimes(cosine: Cosine, a: Series, b: Series)
    requires a.Keys == b.Keys == {0, 1, 2}
    ensures Similarity(cosine, a, b) == cosine(a, b)
  {
    assert a.Keys * b.Keys == {0, 1, 2};
    assert Restrict(a, {0, 1, 2}) == a && Restrict(b, {0, 1, 2}) == b;
  }

  /** Three templates with these series. */
  ghost predicate ThreeSeries(series: Workload) {
    |series| == 3 && series[0].1 == FIRST && series[1].1 == SECOND && series[2].1 == THIRD
  }

  lemma ThreeFound(series: Workload, now: Time, cosine: Cosine)
    requires ThreeSeries(series) && now <= 24 && LikeCosine(cosine)
    ensures Founders(Evolved(NO_TABLES, series, now, cosine, SETTING), series, 3)
  {
    ThreeAmple(now);
    ThreeSimilarities(cosine);
    OfThree(series, now, cosine, SETTING);
  }

  lemma OfThree(series: Workload, now: Time, cosine: Cosine, p: Parameters)
    requires |series| == 3 && AmpleSeries(series[0].1, now, p.window)
    requires AmpleSeries(series[1].1, now, p.window) && AmpleSeries(series[2].1, now, p.window)
    requires Unlike(cosine, series[1].1, series[0].1, p.similarity)
    requires Unlike(cosine, series[2].1, series[0].1, p.similarity)
    requires Unlike(cosine, series[2].1, series[1].1, p.similarity)
    requires SelfSimilar(series, cosine, p.similarity)
    ensures Founders(Evolved(NO_TABLES, series, now, cosine, p), series, 3)
  {
    hide AmpleSeries, Unlike, SelfSimilar, Founders, Evolved;
    FoundersEvolve(series, now, cosine, p);
  }

  lemma ThreeAmple(now: Time)
    requires now <= 24
    ensures AmpleSeries(FIRST, now, 24) && AmpleSeries(SECOND, now, 24) && AmpleSeries(THIRD, now, 24)
  {
    assert FIRST.Keys == {0, 1, 2} && SECOND.Keys == {0, 1, 2} && THIRD.Keys == {0, 1, 2};
    assert FIRST[0] != 0.0 && SECOND[0] != 0.0 && THIRD[1] != 0.0;
  }

  lemma ThreeSimilarities(cosine: Cosine)
    requires LikeCosine(cosine)
    ensures Similarity(cosine, FIRST, SECOND) < 0.0 && Similarity(cosine, SECOND, FIRST) < 0.0
    ensures Similarity(cosine, FIRST, THIRD) < 0.0 && Similarity(cosine, THIRD, FIRST) < 0.0
    ensures Similarity(cosine, SECOND, THIRD) == 0.0 && Similarity(cosine, THIRD, SECOND) == 0.0
    ensures Similarity(cosine, FIRST, FIRST) == 1.0 && Similarity(cosine, SECOND, SECOND) == 1.0
    ensures Similarity(cosine, THIRD, THIRD) == 1.0
  {
    SameTimes(cosine, FIRST, SECOND);
    SameTimes(cosine, SECOND, FIRST);
    SameTimes(cosine, FIRST, THIRD);
    SameTimes(cosine, THIRD, FIRST);
    SameTimes(cosine, SECOND, THIRD);
    SameTimes(cosine, THIRD, SECOND);
    SameTimes(cosine, FIRST, FIRST);
    SameTimes(cosine, SECOND, SECOND);
    SameTimes(cosine, THIRD, THIRD);
  }

  /** Of three pairs, if the first two are dissimilar only the last one counts. */
  lemma MergersOfThree(tb: Tables, cosine: Cosine, threshold: real, now: Time)
    requires |tb.order| == 3 && PairStep(tb, tb.order[1], tb.order[2], cosine, threshold, now).ok
    requires PairStep(tb, tb.order[0], tb.order[1], cosine, threshold, now) == Ran(tb, true)
    requires PairStep(tb, tb.order[0], tb.order[2], cosine, threshold, now) == Ran(tb, true)
    ensures Mergers(tb, cosine, threshold, now) == PairStep(tb, tb.order[1], tb.order[2], cosine, threshold, now)
  {
    hide PairStep;
    var ids, r := tb.order, PairStep(tb, tb.order[1], tb.order[2], cosine, threshold, now);
    var rows := RowsStepper(ids, cosine, threshold, now);
    FoldIdles(RowStepper(ids, 0, cosine, threshold, now), tb, 3);
    assert rows(tb, 0) == Ran(tb, true);
    RowBegins(tb, ids, 1, cosine, threshold, now);
    assert Fold(RowStepper(ids, 1, cosine, threshold, now), tb, 3) == r;
    assert rows(tb, 1) == r;
    RowBegins(r.state, ids, 2, cosine, threshold, now);
    assert rows(r.state, 2) == r;
    assert Fold(rows, tb, 1) == Ran(tb, true) && Fold(rows, tb, 2) == r;
  }

  /** Cluster 1 has the higher rank. */
  ghost predicate RankedWrong(tb: Tables) {
    && Consistent(tb) && LiveAreRoots(tb) && tb.order == [0, 1] && 0 in tb.clusters && 1 in tb.clusters
    && 0 in tb.rank && 1 in tb.rank && tb.rank[0] < tb.rank[1]
    && tb.clusters[0].templates != [] && tb.clusters[1].templates != []
  }

  lemma MergedOnce(tb: Tables, series: Workload, now: Time)
    requires |series| == 3 && Founders(tb, series, 3) && CanMerge(tb, 1, 2)
    ensures RankedWrong(Merged(tb, 1, 2, now))
  {
    assert Founder(tb, series, 0) && Founder(tb, series, 1) && Founder(tb, series, 2);
    FirstMerge(tb, 1, 2, 0, now);
    MergedLists(tb, now);
  }

  lemma MergedLists(tb: Tables, now: Time)
    requires CanMerge(tb, 1, 2) && tb.order == UpTo(3) && 0 in tb.clusters
    requires tb.clusters[0].templates != [] && tb.clusters[1].templates != []
    ensures var merged := Merged(tb, 1, 2, now);
            && merged.order == [0, 1] && 0 in merged.clusters && 1 in merged.clusters
            && merged.clusters[0].templates != [] && merged.clusters[1].templates != []
  {
    assert tb.order == [0, 1, 2];
    WithoutLast();
  }

  lemma WithoutLast()
    ensures Filter(Except(2), [0, 1, 2]) == [0, 1]
  {
    var ids: seq<Id> := [0, 1, 2];
    FilterNext(Except(2), ids, 0);
    FilterNext(Except(2), ids, 1);
    FilterNext(Except(2), ids, 2);
    assert ids[..3] == ids;
  }

  lemma FirstMergers(tb: Tables, series: Workload, now: Time, cosine: Cosine)
    requires ThreeSeries(series) && Founders(tb, series, 3) && LikeCosine(cosine)
    ensures var r := Mergers(tb, cosine, 0.0, now); r.ok && RankedWrong(r.state)
  {
    hide MergeStep, Merged;
    assert Founder(tb, series, 0) && Founder(tb, series, 1) && Founder(tb, series, 2);
    ThreeSimilarities(cosine);
    MergeOfRoots(tb, 1, 2, now);
    MergersOfThree(tb, cosine, 0.0, now);
    MergedOnce(tb, series, now);
  }

  /** Where every cluster is large enough, cleanup changes nothing but centers. */
  lemma NothingDropped(tb: Tables, minSize: int, now: Time)
    requires Consistent(tb) && AtLeast(tb, minSize)
    ensures Cleanup(tb, minSize, now) == RecenteredAll(tb, tb.order, now)
  {
    SizesAreLengths(tb);
    forall i | 0 <= i < |tb.order| ensures !SmallIn(tb, minSize)(tb.order[i]) {
      assert tb.order[i] in tb.order;
    }
    FilterNone(SmallIn(tb, minSize), tb.order);
  }

  lemma WrongAtLeastOne(tb: Tables)
    requires RankedWrong(tb)
    ensures AtLeast(tb, 1)
  {
    forall c | c in tb.clusters ensures 1 <= |tb.clusters[c].templates| {
      assert c in tb.order;
    }
  }

  /** Cleanup leaves centers of one point, so that the two clusters count as similar. */
  lemma CleanupWrong(tb: Tables, now: Time, cosine: Cosine)
    requires RankedWrong(tb)
    ensures var tb' := Cleanup(tb, 1, now); RankedWrong(tb') && !Dissimilar(tb', 0, 1, cosine, 0.0)
  {
    WrongAtLeastOne(tb);
    NothingDropped(tb, 1, now);
    RecenterAllConsistent(tb, tb.order, now);
    RecenterAllOnlyCenters(tb, tb.order, now);
    RecenterAllSettles(tb, tb.order, now);
    var settled := RecenteredAll(tb, tb.order, now);
    ShortSeries(cosine, CenterOf(settled, 0), CenterOf(settled, 1));
  }

  lemma FirstRun(series: Workload, now: Time, cosine: Cosine, other: Cosine)
    requires ThreeSeries(series) && now <= 24 && LikeCosine(cosine)
    ensures var r := RunOf(NO_TABLES, series, now, cosine, SETTING);
            r.ok && RankedWrong(r.state) && !Dissimilar(r.state, 0, 1, other, 0.0)
  {
    ThreeFound(series, now, cosine);
    var evolved := Evolved(NO_TABLES, series, now, cosine, SETTING);
    FirstMergers(evolved, series, now, cosine);
    CleanupWrong(Mergers(evolved, cosine, 0.0, now).state, now, other);
  }

  /** A run without series only merges and cleans up. */
  lemma IdleRun(tb: Tables, now: Time, cosine: Cosine, p: Parameters)
    ensures Evolved(tb, [], now, cosine, p) == tb
  {
  }

  lemma SecondRun(tb: Tables, now: Time, cosine: Cosine)
    requires RankedWrong(tb) && !Dissimilar(tb, 0, 1, cosine, 0.0)
    ensures var r := RunOf(tb, [], now, cosine, SETTING); r.ok && !LiveAreRoots(r.state)
  {
    IdleRun(tb, now, cosine, SETTING);
    MergeOfRoots(tb, 0, 1, now);
    MergersOfTwo(tb, cosine, 0.0, now);
    MergedRootsIff(tb, 0, 1, now);
    MergedConsistent(tb, 0, 1, now);
    WrongAtLeastOne(tb);
    MergedAtLeast(tb, 0, 1, now, 1);
    CleanupKeepsRoots(Merged(tb, 0, 1, now), 1, now);
  }

  lemma CleanupKeepsRoots(tb: Tables, minSize: int, now: Time)
    requires Consistent(tb) && AtLeast(tb, minSize) && !LiveAreRoots(tb)
    ensures !LiveAreRoots(Cleanup(tb, minSize, now))
  {
    NothingDropped(tb, minSize, now);
    RecenterAllOnlyCenters(tb, tb.order, now);
  }

  /**
   A merge threshold above zero is needed for live clusters to stay roots, if a
   similarity can be negative: after the second run the members are kept under
   cluster 0, while the root of its class is 1.
   */
  method WrongRootRun(x: Template, y: Template, z: Template, now: Time, cosine: Cosine)
    returns (c: OnlineWorkloadClusterer)
    requires x != y && y != z && x != z && now <= 24 && LikeCosine(cosine)
    ensures fresh(c) && c.Params() == SETTING && !LiveAreRoots(c.View())
  {
    hide RunOf;
    c := new OnlineWorkloadClusterer(0.8, 1, 24, 0.0, now);
    FirstRun([(x, FIRST), (y, SECOND), (z, THIRD)], now, cosine, cosine);
    var first := c.ClusterTemplates([(x, FIRST), (y, SECOND), (z, THIRD)], None, cosine);
    SecondRun(c.View(), now, cosine);
    var second := c.ClusterTemplates([], None, cosine);
    assert first && second;
  }
}
