/** Runs of the workload clusterer that leave a cluster, for all parameters that are not barren. */
module ClusterFruitful {
  import opened Prelude
  import opened Folding
  import opened UnionFind
  import opened ClusterTables
  import opened ClusterRules
  import opened ClusterMerging
  import opened ClusterRuns
  import opened ClusterBarren

  // ----- phase 1 with templates that are unlike each other

  /** No two series are similar enough for one to join the other. */
  ghost predicate Strangers(valid: Workload, cosine: Cosine, threshold: real) {
    forall i, j | 0 <= i < j < |valid| :: Unlike(cosine, valid[j].1, valid[i].1, threshold)
  }

  /** The first `n` templates have founded a cluster each. */
  ghost predicate Founders(tb: Tables, valid: Workload, n: nat) {
    && Consistent(tb) && LiveAreRoots(tb) && AllNew(tb) && tb.nextId == n <= |valid| && tb.order == UpTo(n)
    && forall i: nat | i < n :: Founder(tb, valid, i)
  }

  function UpTo(n: nat): (ids: seq<Id>)
    ensures |ids| == n && forall i | 0 <= i < n :: ids[i] == i
  {
    if n == 0 then [] else UpTo(n - 1) + [n - 1]
  }

  ghost predicate Founder(tb: Tables, valid: Workload, i: nat)
    requires i < |valid|
  {
    i in tb.clusters && tb.clusters[i].templates == [valid[i].0] && CenterOf(tb, i) == valid[i].1
  }

  lemma NextFounder(tb: Tables, valid: Workload, n: nat, cosine: Cosine, threshold: real, now: Time)
    requires Founders(tb, valid, n) && n < |valid| && Strangers(valid, cosine, threshold)
    ensures Founders(PlacedIn(tb, valid[n].0, valid[n].1, cosine, threshold, now), valid, n + 1)
  {
    var t, series := valid[n].0, valid[n].1;
    NewName(tb, valid, n);
    forall c | c in tb.clusters ensures !Eligible(Score(cosine, series, tb.centers), threshold, c) {
      assert Founder(tb, valid, c) && Unlike(cosine, valid[n].1, valid[c].1, threshold);
    }
    PlacedInIsPlaced(tb, t, series, cosine, threshold, now);
    assert NoneEligible(tb, Score(cosine, series, tb.centers), threshold);
    OneMoreCluster(tb, t, series);
    CreatedFounders(tb, valid, n);
  }

  lemma NewName(tb: Tables, valid: Workload, n: nat)
    requires Founders(tb, valid, n) && n < |valid|
    ensures valid[n].0 !in tb.clusterOf
  {
    forall c ensures !Member(tb, valid[n].0, c) {
      assert c in tb.clusters ==> Founder(tb, valid, c);
    }
    assert valid[n].0 in tb.clusterOf ==> Assigned(tb, valid[n].0, tb.clusterOf[valid[n].0]);
  }

  lemma CreatedFounders(tb: Tables, valid: Workload, n: nat)
    requires Founders(tb, valid, n) && n < |valid|
    ensures forall i: nat | i <= n :: Founder(Created(tb, valid[n].0, valid[n].1), valid, i)
  {
    CreatedCenters(tb, valid[n].0, valid[n].1);
    forall i: nat | i <= n ensures Founder(Created(tb, valid[n].0, valid[n].1), valid, i) {
      assert i < n ==> Founder(tb, valid, i);
    }
  }

  lemma AllFound(valid: Workload, cosine: Cosine, threshold: real, now: Time)
    requires Strangers(valid, cosine, threshold)
    ensures Founders(Assignments(NO_TABLES, valid, |valid|, cosine, threshold, now), valid, |valid|)
  {
    var step := PlaceStepper(valid, cosine, threshold, now);
    forall t, k: nat | k < |valid| && Founders(t, valid, k)
      ensures step(t, k).ok && Founders(step(t, k).state, valid, k + 1)
    {
      NextFounder(t, valid, k, cosine, threshold, now);
    }
    FoldSucceeds(step, NO_TABLES, |valid|, (t, k) => Founders(t, valid, k));
  }

  // ----- nobody is filtered out and nobody leaves

  /** Every series has three points or more, none of them before the time window, and not all zero. */
  ghost predicate Ample(series: Workload, now: Time, window: int) {
    forall i | 0 <= i < |series| :: AmpleSeries(series[i].1, now, window)
  }

  ghost predicate AmpleSeries(s: Series, now: Time, window: int) {
    && 3 <= |s| && (forall t | t in s :: t >= now - window)
    && exists t :: t in s && s[t] != 0.0
  }

  lemma AllValid(series: Workload, now: Time, window: int)
    requires Ample(series, now, window)
    ensures ValidSeries(series, now, window) == series
  {
    var p := Sufficient(now, window);
    forall i | 0 <= i < |series| ensures p(series[i]) && Recent(series[i].1, now, window) == series[i].1 {
      assert AmpleSeries(series[i].1, now, window);
      assert Recent(series[i].1, now, window) == series[i].1;
    }
    FilterAll(p, series);
  }

  lemma {:induction false} FilterAll<T>(p: T -> bool, s: seq<T>)
    requires forall i :: 0 <= i < |s| ==> p(s[i])
    ensures Filter(p, s) == s
  {
    if s != [] {
      FilterAll(p, s[..|s| - 1]);
      assert s == s[..|s| - 1] + [s[|s| - 1]];
    }
  }

  lemma LikeItself(cosine: Cosine, s: Series, now: Time, window: int)
    requires Proper(cosine) && AmpleSeries(s, now, window)
    ensures Similarity(cosine, s, s) == 1.0
  {
    assert s.Keys * s.Keys == s.Keys && Restrict(s, s.Keys) == s;
  }

  /** Every series is similar enough to itself. */
  ghost predicate SelfSimilar(series: Workload, cosine: Cosine, threshold: real) {
    forall i | 0 <= i < |series| :: Similarity(cosine, series[i].1, series[i].1) >= threshold
  }

  lemma AmpleSelfSimilar(series: Workload, now: Time, cosine: Cosine, p: Parameters)
    requires Ample(series, now, p.window) && Proper(cosine) && p.similarity <= 1.0
    ensures SelfSimilar(series, cosine, p.similarity)
  {
    forall i | 0 <= i < |series| ensures Similarity(cosine, series[i].1, series[i].1) >= p.similarity {
      assert AmpleSeries(series[i].1, now, p.window);
      LikeItself(cosine, series[i].1, now, p.window);
    }
  }

  lemma FoundersStay(tb: Tables, series: Workload, cosine: Cosine, threshold: real)
    requires Founders(tb, series, |series|) && SelfSimilar(series, cosine, threshold)
    ensures Departures(tb, series, cosine, threshold) == tb
  {
    var far := Far(tb, cosine, threshold);
    forall i | 0 <= i < |series| ensures !far(series[i]) {
      assert Founder(tb, series, i) && Member(tb, series[i].0, i) && Assigned(tb, series[i].0, i);
    }
    FilterNone(far, series);
  }

  lemma FoundersEvolve(series: Workload, now: Time, cosine: Cosine, p: Parameters)
    requires Ample(series, now, p.window) && SelfSimilar(series, cosine, p.similarity)
    requires Strangers(series, cosine, p.similarity)
    ensures Founders(Evolved(NO_TABLES, series, now, cosine, p), series, |series|)
  {
    AllValid(series, now, p.window);
    AllFound(series, cosine, p.similarity, now);
    FoundersStay(Assignments(NO_TABLES, series, |series|, cosine, p.similarity, now), series, cosine, p.similarity);
  }

  // ----- what is left

  /** The run does not fail and leaves a cluster. */
  ghost predicate LeavesSome(series: Workload, now: Time, cosine: Cosine, p: Parameters) {
    var r := RunOf(NO_TABLES, series, now, cosine, p);
    r.ok && r.state.clusters != map[]
  }

  lemma LargeKept(series: Workload, now: Time, cosine: Cosine, p: Parameters, c: Id)
    requires var r := Mergers(Evolved(NO_TABLES, series, now, cosine, p), cosine, p.merge, now);
             r.ok && Consistent(r.state) && c in r.state.clusters && p.minSize <= |r.state.clusters[c].templates|
    ensures LeavesSome(series, now, cosine, p)
  {
    var merged := Mergers(Evolved(NO_TABLES, series, now, cosine, p), cosine, p.merge, now).state;
    CleanupSound(merged, p.minSize, now);
    assert c in Cleanup(merged, p.minSize, now).clusters;
  }

  lemma MergersOfOne(tb: Tables, cosine: Cosine, threshold: real, now: Time)
    requires |tb.order| == 1
    ensures Mergers(tb, cosine, threshold, now) == Ran(tb, true)
  {
    var rows, row := RowsStepper(tb.order, cosine, threshold, now), RowStepper(tb.order, 0, cosine, threshold, now);
    FoldIdles(row, tb, 1);
    FoldIdles(rows, tb, 1);
  }

  lemma MergersOfTwo(tb: Tables, cosine: Cosine, threshold: real, now: Time)
    requires |tb.order| == 2 && PairStep(tb, tb.order[0], tb.order[1], cosine, threshold, now).ok
    ensures Mergers(tb, cosine, threshold, now) == PairStep(tb, tb.order[0], tb.order[1], cosine, threshold, now)
  {
    hide PairStep;
    var ids, r := tb.order, PairStep(tb, tb.order[0], tb.order[1], cosine, threshold, now);
    var rows := RowsStepper(ids, cosine, threshold, now);
    RowBegins(tb, ids, 0, cosine, threshold, now);
    assert Fold(RowStepper(ids, 0, cosine, threshold, now), tb, 2) == r;
    assert rows(tb, 0) == r;
    RowBegins(r.state, ids, 1, cosine, threshold, now);
    assert rows(r.state, 1) == r;
    assert Fold(rows, tb, 1) == r;
  }

  // ----- one template

  const STEADY: Series := map[0 := 1.0, 1 := 1.0, 2 := 1.0]

  lemma SteadyAmple(window: int)
    ensures AmpleSeries(STEADY, window, window)
  {
    assert STEADY.Keys == {0, 1, 2} && STEADY[0] != 0.0;
  }

  /** A founder stays if the threshold is at most one, and its cluster does in any case. */
  lemma One(cosine: Cosine, p: Parameters)
    requires Proper(cosine) && (p.minSize <= 0 || (p.minSize == 1 && p.similarity <= 1.0))
    ensures LeavesSome([("a", STEADY)], p.window, cosine, p)
  {
    var series: Workload, now := [("a", STEADY)], p.window;
    SteadyAmple(p.window);
    AllValid(series, now, p.window);
    AllFound(series, cosine, p.similarity, now);
    var placed := Assignments(NO_TABLES, series, 1, cosine, p.similarity, now);
    assert Founder(placed, series, 0);
    DeparturesSound(placed, series, cosine, p.similarity);
    DeparturesKeep(placed, series, cosine, p.similarity);
    if p.similarity <= 1.0 {
      AmpleSelfSimilar(series, now, cosine, p);
      FoundersStay(placed, series, cosine, p.similarity);
    }
    MergersOfOne(Evolved(NO_TABLES, series, now, cosine, p), cosine, p.merge, now);
    LargeKept(series, now, cosine, p, 0);
  }

  // ----- two templates

  /** With a threshold of at most zero a joined template stays. */
  lemma Joiner(cosine: Cosine, p: Parameters)
    requires Proper(cosine) && p.minSize == 2 && p.similarity <= 0.0
    ensures LeavesSome([("a", STEADY), ("b", STEADY)], p.window, cosine, p)
  {
    hide AmpleSeries, Pair, Consistent, LeavesSome;
    var series: Workload, now := [("a", STEADY), ("b", STEADY)], p.window;
    SteadyAmple(p.window);
    JoinedPair(cosine, p.similarity, now);
    PairShape(now);
    JoinerOf(series, now, cosine, p, 0);
  }

  /** One cluster whose center has one point is kept if it is large enough. */
  lemma JoinerOf(series: Workload, now: Time, cosine: Cosine, p: Parameters, c: Id)
    requires Ample(series, now, p.window) && p.similarity <= 0.0
    requires var tb := Assignments(NO_TABLES, series, |series|, cosine, p.similarity, now);
             && Consistent(tb) && tb.order == [c] && c in tb.clusters && !Fresh(tb, c)
             && p.minSize <= |tb.clusters[c].templates|
    ensures LeavesSome(series, now, cosine, p)
  {
    AllValid(series, now, p.window);
    hide Ample, Assignments, LeavesSome, ValidSeries;
    var placed := Assignments(NO_TABLES, series, |series|, cosine, p.similarity, now);
    forall x | x in placed.clusters ensures !Fresh(placed, x) {
      assert x in placed.order;
    }
    hide Consistent;
    JoinedStay(placed, series, cosine, p.similarity);
    MergersOfOne(placed, cosine, p.merge, now);
    LargeKept(series, now, cosine, p, c);
  }

  function Pair(now: Time): Tables {
    Joined(Created(NO_TABLES, "a", STEADY), "b", 0, now)
  }

  lemma JoinedPair(cosine: Cosine, threshold: real, now: Time)
    requires Proper(cosine) && threshold <= 0.0
    ensures Assignments(NO_TABLES, [("a", STEADY), ("b", STEADY)], 2, cosine, threshold, now) == Pair(now)
  {
    hide PlacedIn;
    AssignTwo(NO_TABLES, [("a", STEADY), ("b", STEADY)], cosine, threshold, now);
    SecondJoins(cosine, threshold, now);
  }

  lemma AssignTwo(tb: Tables, valid: seq<(Template, Series)>, cosine: Cosine, threshold: real, now: Time)
    requires |valid| == 2
    ensures Assignments(tb, valid, 2, cosine, threshold, now) ==
            PlacedIn(PlacedIn(tb, valid[0].0, valid[0].1, cosine, threshold, now), valid[1].0, valid[1].1, cosine,
                     threshold, now)
  {
    hide PlacedIn;
    var step := PlaceStepper(valid, cosine, threshold, now);
    assert Fold(step, tb, 1) == Ran(PlacedIn(tb, valid[0].0, valid[0].1, cosine, threshold, now), true);
  }

  lemma PairShape(now: Time)
    ensures Consistent(Pair(now)) && Pair(now).order == [0] && 0 in Pair(now).clusters
    ensures Pair(now).clusters[0].templates == ["a", "b"] && !Fresh(Pair(now), 0)
  {
    hide Joined, Consistent;
    var one := Created(NO_TABLES, "a", STEADY);
    NoTablesConsistent();
    CreatedConsistent(NO_TABLES, "a", STEADY);
    JoinedConsistent(one, "b", 0, now);
    JoinedCenters(one, "b", 0, now);
    JoinedList(one, "b", 0, now);
  }

  lemma NoTablesConsistent()
    ensures Consistent(NO_TABLES)
  {
  }

  lemma JoinedList(tb: Tables, t: Template, c: Id, now: Time)
    requires c in tb.clusters && c in tb.sizes && t !in tb.clusters[c].templates
    ensures var tb' := Joined(tb, t, c, now);
            tb'.order == tb.order && c in tb'.clusters && tb'.clusters[c].templates == tb.clusters[c].templates + [t]
  {
  }

  lemma SecondJoins(cosine: Cosine, threshold: real, now: Time)
    requires Proper(cosine) && threshold <= 0.0
    ensures var one := Created(NO_TABLES, "a", STEADY);
            && PlacedIn(NO_TABLES, "a", STEADY, cosine, threshold, now) == one
            && PlacedIn(one, "b", STEADY, cosine, threshold, now) == Pair(now)
  {
    var one := Created(NO_TABLES, "a", STEADY);
    SteadyAmple(0);
    LikeItself(cosine, STEADY, 0, 0);
    var none: seq<Id> := [];
    assert [0][..0] == none && BestIn(none, Score(cosine, STEADY, one.centers), threshold) == None;
    assert BestIn([0], Score(cosine, STEADY, one.centers), threshold) == Some(0);
  }

  lemma JoinedStay(tb: Tables, series: Workload, cosine: Cosine, threshold: real)
    requires (forall c | c in tb.clusters :: !Fresh(tb, c)) && threshold <= 0.0
    ensures Departures(tb, series, cosine, threshold) == tb
  {
    var far := Far(tb, cosine, threshold);
    forall i | 0 <= i < |series| ensures !far(series[i]) {
      if series[i].0 in tb.clusterOf {
        ShortSeries(cosine, series[i].1, CenterOf(tb, tb.clusterOf[series[i].0]));
      }
    }
    FilterNone(far, series);
  }

  const EARLY: Series := map[0 := 1.0, 1 := 0.0, 2 := 0.0]
  const LATE: Series := map[0 := 0.0, 1 := 0.0, 2 := 1.0]

  lemma Couple(p: Parameters)
    requires p.minSize == 2 && p.similarity <= 1.0 && 0.0 < p.merge < p.similarity
    ensures Proper(Alike(p.merge)) && LeavesSome([("a", EARLY), ("b", LATE)], p.window, Alike(p.merge), p)
  {
    hide LeavesSome, Proper;
    AlikeProper(p.merge);
    CoupleAlike(p.merge);
    CoupleAmple(p.window);
    CoupleOf([("a", EARLY), ("b", LATE)], p.window, Alike(p.merge), p);
  }

  /** Two founders with a similarity between the thresholds are merged. */
  lemma CoupleOf(series: Workload, now: Time, cosine: Cosine, p: Parameters)
    requires Proper(cosine) && p.minSize <= 2 && p.similarity <= 1.0
    requires |series| == 2 && AmpleSeries(series[0].1, now, p.window) && AmpleSeries(series[1].1, now, p.window)
    requires Unlike(cosine, series[1].1, series[0].1, p.similarity)
    requires p.merge <= Similarity(cosine, series[0].1, series[1].1)
    ensures LeavesSome(series, now, cosine, p)
  {
    hide Similarity, AmpleSeries, Unlike, Consistent, Founders;
    AmpleSelfSimilar(series, now, cosine, p);
    FoundersEvolve(series, now, cosine, p);
    CoupleMerges(Evolved(NO_TABLES, series, now, cosine, p), series, now, cosine, p.merge);
    LargeKept(series, now, cosine, p, 0);
  }

  lemma CoupleAmple(window: int)
    ensures AmpleSeries(EARLY, window, window) && AmpleSeries(LATE, window, window)
  {
    assert EARLY.Keys == {0, 1, 2} && EARLY[0] != 0.0 && LATE.Keys == {0, 1, 2} && LATE[2] != 0.0;
  }

  lemma CoupleMerges(tb: Tables, series: Workload, now: Time, cosine: Cosine, threshold: real)
    requires |series| == 2 && Founders(tb, series, 2)
    requires Similarity(cosine, series[0].1, series[1].1) >= threshold
    ensures var r := Mergers(tb, cosine, threshold, now);
            r.ok && Consistent(r.state) && 0 in r.state.clusters && |r.state.clusters[0].templates| == 2
  {
    hide Consistent, Merged, MergeStep;
    assert Founder(tb, series, 0) && Founder(tb, series, 1);
    MergeOfRoots(tb, 0, 1, now);
    MergersOfTwo(tb, cosine, threshold, now);
    CoupleMerged(tb, series, now);
  }

  /** A cosine of `v` for any two different vectors. */
  function Alike(v: real): Cosine {
    (a: Series, b: Series) => if a == b then 1.0 else v
  }

  lemma AlikeProper(v: real)
    requires v <= 1.0
    ensures Proper(Alike(v))
  {
  }

  lemma CoupleAlike(v: real)
    ensures Similarity(Alike(v), EARLY, LATE) == v && Similarity(Alike(v), LATE, EARLY) == v
  {
    assert EARLY.Keys * LATE.Keys == {0, 1, 2} && LATE.Keys * EARLY.Keys == {0, 1, 2};
    assert Restrict(EARLY, {0, 1, 2}) == EARLY && Restrict(LATE, {0, 1, 2}) == LATE;
    assert EARLY[0] != LATE[0];
  }

  lemma CoupleMerged(tb: Tables, series: Workload, now: Time)
    requires |series| == 2 && Founders(tb, series, 2) && CanMerge(tb, 0, 1)
    ensures var merged := Merged(tb, 0, 1, now);
            Consistent(merged) && 0 in merged.clusters && |merged.clusters[0].templates| == 2
  {
    assert Founder(tb, series, 0) && Founder(tb, series, 1);
    hide Consistent;
    MergedConsistent(tb, 0, 1, now);
    MergedSum(tb, 0, 1, now);
  }

  lemma MergedSum(tb: Tables, a: Id, b: Id, now: Time)
    requires CanMerge(tb, a, b)
    ensures var merged := Merged(tb, a, b, now);
            a in merged.clusters &&
            |merged.clusters[a].templates| == |tb.clusters[a].templates| + |tb.clusters[b].templates|
  {
    RecenterSettles(Moved(tb, a, b), a, now);
  }
}
