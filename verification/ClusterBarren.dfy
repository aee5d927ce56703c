/** For which parameters no run of the workload clusterer leaves a cluster. */
module ClusterBarren {
  import opened Prelude
  import opened Folding
  import opened UnionFind
  import opened ClusterTables
  import opened ClusterRules
  import opened ClusterMerging
  import opened ClusterRuns

  /** What is used of the cosine: it is symmetric, at most one, and one for a vector and itself unless that is zero. */
  ghost predicate Proper(cosine: Cosine) {
    && (forall a, b :: cosine(a, b) == cosine(b, a) && cosine(a, b) <= 1.0)
    && (forall a :: cosine(a, a) == 1.0 || forall t | t in a :: a[t] == 0.0)
  }

  /** The default parameters are among these. */
  predicate Barren(p: Parameters) {
    && 1 <= p.minSize
    && (1.0 < p.similarity || (0.0 < p.merge && (3 <= p.minSize || (p.minSize == 2 && 0.0 < p.similarity <= p.merge))))
  }

  /** A run from empty tables that does not fail leaves no cluster. */
  ghost predicate LeavesNone(tb: Tables, series: Workload, now: Time, cosine: Cosine, p: Parameters) {
    var r := RunOf(tb, series, now, cosine, p);
    r.ok ==> r.state.clusters == map[]
  }

  ghost predicate AtMost(tb: Tables, n: int) {
    forall c | c in tb.clusters :: |tb.clusters[c].templates| <= n
  }

  lemma SmallDropped(tb: Tables, minSize: int, now: Time)
    requires Consistent(tb) && AtMost(tb, minSize - 1)
    ensures Cleanup(tb, minSize, now).clusters == map[]
  {
    CleanupSound(tb, minSize, now);
    assert Cleanup(tb, minSize, now).clusters.Keys == {};
  }

  lemma ThinAtMost(tb: Tables)
    requires Thin(tb)
    ensures AtMost(tb, 2)
  {
    forall c | c in tb.clusters ensures |tb.clusters[c].templates| <= 2 {
      assert ThinCluster(tb, c);
    }
  }

  lemma EmptyTables(tb: Tables)
    requires tb.clusters == map[]
    ensures Thin(tb) && Mergeable(tb) && (Consistent(tb) ==> tb.clusterOf == map[])
  {
    if Consistent(tb) {
      forall t ensures t !in tb.clusterOf {
        if t in tb.clusterOf {
          AssignedIsLive(tb, t);
        }
      }
      assert tb.clusterOf.Keys == {};
    }
  }

  // ----- a minimum size of three or more

  lemma ThreeOrMore(tb: Tables, series: Workload, now: Time, cosine: Cosine, p: Parameters)
    requires Consistent(tb) && tb.clusters == map[] && 3 <= p.minSize && 0.0 < p.merge
    ensures RunOf(tb, series, now, cosine, p).ok && LeavesNone(tb, series, now, cosine, p)
  {
    EmptyTables(tb);
    EvolvedSound(tb, series, now, cosine, p);
    var evolved := Evolved(tb, series, now, cosine, p);
    MergersSound(evolved, cosine, p.merge, now);
    MergersSafe(evolved, cosine, p.merge, now);
    var merged := Mergers(evolved, cosine, p.merge, now).state;
    ThinAtMost(merged);
    SmallDropped(merged, p.minSize, now);
  }

  // ----- who is a member at all

  /** Whoever has a cluster is in the workload. */
  ghost predicate AllNamed(tb: Tables, series: seq<(Template, Series)>) {
    forall t | t in tb.clusterOf :: exists i :: 0 <= i < |series| && series[i].0 == t
  }

  lemma PlacedNames(
      tb: Tables, series: seq<(Template, Series)>, k: nat, cosine: Cosine, threshold: real, now: Time)
    requires AllNamed(tb, series) && k < |series|
    ensures AllNamed(PlacedIn(tb, series[k].0, series[k].1, cosine, threshold, now), series)
  {
    hide BestIn;
    var placed := PlacedIn(tb, series[k].0, series[k].1, cosine, threshold, now);
    PlacedKeys(tb, series[k].0, series[k].1, cosine, threshold, now);
    forall t | t in placed.clusterOf ensures exists i :: 0 <= i < |series| && series[i].0 == t {
      assert t == series[k].0 || t in tb.clusterOf;
    }
  }

  lemma PlacedKeys(tb: Tables, t: Template, series: Series, cosine: Cosine, threshold: real, now: Time)
    ensures PlacedIn(tb, t, series, cosine, threshold, now).clusterOf.Keys <= tb.clusterOf.Keys + {t}
  {
    hide BestIn;
  }

  lemma AssignedNames(tb: Tables, valid: seq<(Template, Series)>, cosine: Cosine, threshold: real, now: Time)
    requires tb.clusterOf == map[]
    ensures AllNamed(Assignments(tb, valid, |valid|, cosine, threshold, now), valid)
  {
    var step := PlaceStepper(valid, cosine, threshold, now);
    forall t, k: nat | k < |valid| && AllNamed(t, valid) ensures AllNamed(step(t, k).state, valid) {
      PlacedNames(t, valid, k, cosine, threshold, now);
    }
    FoldKeeps(step, tb, |valid|, t => AllNamed(t, valid));
  }

  lemma ValidNames(tb: Tables, series: Workload, now: Time, window: int)
    requires AllNamed(tb, ValidSeries(series, now, window))
    ensures AllNamed(tb, series)
  {
    var p := Sufficient(now, window);
    var kept := Filter(p, series);
    forall t | t in tb.clusterOf ensures exists i :: 0 <= i < |series| && series[i].0 == t {
      var i :| 0 <= i < |kept| && ValidSeries(series, now, window)[i].0 == t;
      FilterMember(p, series, kept[i]);
      var j :| 0 <= j < |series| && series[j] == kept[i];
      assert series[j].0 == t;
    }
  }

  ghost function Placed1(tb: Tables, series: Workload, now: Time, cosine: Cosine, p: Parameters): Tables {
    var valid := ValidSeries(series, now, p.window);
    Assignments(tb, valid, |valid|, cosine, p.similarity, now)
  }

  lemma PlacedSound(tb: Tables, series: Workload, now: Time, cosine: Cosine, p: Parameters)
    requires Consistent(tb) && tb.clusters == map[]
    ensures var placed := Placed1(tb, series, now, cosine, p);
            Consistent(placed) && Thin(placed) && AllNamed(placed, series)
  {
    EmptyTables(tb);
    var valid := ValidSeries(series, now, p.window);
    AssignmentsSound(tb, valid, |valid|, cosine, p.similarity, now);
    AssignedNames(tb, valid, cosine, p.similarity, now);
    ValidNames(Placed1(tb, series, now, cosine, p), series, now, p.window);
  }

  /** Every template whose series is far from its center leaves. */
  lemma FarLeave(tb: Tables, series: Workload, cosine: Cosine, threshold: real, t: Template)
    requires Consistent(tb) && AllNamed(tb, series) && t in tb.clusterOf
    requires forall s: Series :: Similarity(cosine, s, CenterOf(tb, tb.clusterOf[t])) < threshold
    ensures t !in Departures(tb, series, cosine, threshold).clusterOf
  {
    AssignedIsLive(tb, t);
    var i :| 0 <= i < |series| && series[i].0 == t;
    assert Far(tb, cosine, threshold)(series[i]);
    DeparturesSound(tb, series, cosine, threshold);
  }

  // ----- a similarity threshold above one

  lemma SimilarityBound(cosine: Cosine, a: Series, b: Series)
    requires Proper(cosine)
    ensures Similarity(cosine, a, b) <= 1.0 && Similarity(cosine, a, b) == Similarity(cosine, b, a)
  {
    assert a.Keys * b.Keys == b.Keys * a.Keys;
  }

  lemma AboveOne(tb: Tables, series: Workload, now: Time, cosine: Cosine, p: Parameters)
    requires Consistent(tb) && tb.clusters == map[] && Proper(cosine) && 1 <= p.minSize && 1.0 < p.similarity
    ensures LeavesNone(tb, series, now, cosine, p)
  {
    PlacedSound(tb, series, now, cosine, p);
    var placed, evolved := Placed1(tb, series, now, cosine, p), Evolved(tb, series, now, cosine, p);
    DeparturesSound(placed, series, cosine, p.similarity);
    forall t ensures t !in evolved.clusterOf {
      if t in placed.clusterOf {
        forall s: Series ensures Similarity(cosine, s, CenterOf(placed, placed.clusterOf[t])) < p.similarity {
          SimilarityBound(cosine, s, CenterOf(placed, placed.clusterOf[t]));
        }
        FarLeave(placed, series, cosine, p.similarity, t);
      }
    }
    MergersSound(evolved, cosine, p.merge, now);
    var merged := Mergers(evolved, cosine, p.merge, now).state;
    UnassignedEmpty(merged);
    SmallDropped(merged, p.minSize, now);
  }

  lemma UnassignedEmpty(tb: Tables)
    requires Consistent(tb) && forall t :: t !in tb.clusterOf
    ensures AtMost(tb, 0)
  {
    forall c | c in tb.clusters ensures |tb.clusters[c].templates| <= 0 {
      FirstAssigned(tb, c);
    }
  }

  lemma FirstAssigned(tb: Tables, c: Id)
    requires AssignmentOk(tb) && c in tb.clusters
    ensures tb.clusters[c].templates != [] ==> Assigned(tb, tb.clusters[c].templates[0], c)
  {
    if tb.clusters[c].templates != [] {
      assert Member(tb, tb.clusters[c].templates[0], c);
    }
  }

  // ----- a minimum size of two

  /** Of two clusters that could be merged, the later was not similar enough to the earlier to join it. */
  ghost predicate Apart(tb: Tables, cosine: Cosine, threshold: real) {
    forall a, b | a in tb.clusters && b in tb.clusters && a < b && Fresh(tb, a) && Fresh(tb, b) ::
      Unlike(cosine, CenterOf(tb, b), CenterOf(tb, a), threshold)
  }

  predicate Unlike(cosine: Cosine, a: Series, b: Series, threshold: real) {
    Similarity(cosine, a, b) <= 0.0 || Similarity(cosine, a, b) < threshold
  }

  lemma PlacedApart(tb: Tables, t: Template, series: Series, cosine: Cosine, threshold: real, now: Time)
    requires Consistent(tb) && Apart(tb, cosine, threshold)
    ensures Apart(PlacedIn(tb, t, series, cosine, threshold, now), cosine, threshold)
  {
    PlacedInIsPlaced(tb, t, series, cosine, threshold, now);
    var score := Score(cosine, series, tb.centers);
    if t !in tb.clusterOf && !NoneEligible(tb, score, threshold) {
      var b :| MostEligible(tb, score, threshold, b) &&
               PlacedIn(tb, t, series, cosine, threshold, now) == Joined(tb, t, b, now);
      JoinedApart(tb, t, b, cosine, threshold, now);
    } else if t !in tb.clusterOf {
      CreatedApart(tb, t, series, cosine, threshold);
    }
  }

  lemma JoinedApart(tb: Tables, t: Template, c: Id, cosine: Cosine, threshold: real, now: Time)
    requires Apart(tb, cosine, threshold) && c in tb.clusters && c in tb.sizes
    ensures Apart(Joined(tb, t, c, now), cosine, threshold)
  {
    var tb' := Joined(tb, t, c, now);
    JoinedCenters(tb, t, c, now);
    forall a, b | a in tb'.clusters && b in tb'.clusters && a < b && Fresh(tb', a) && Fresh(tb', b)
      ensures Unlike(cosine, CenterOf(tb', b), CenterOf(tb', a), threshold)
    {
      assert CenterOf(tb', a) == CenterOf(tb, a) && CenterOf(tb', b) == CenterOf(tb, b);
    }
  }

  lemma CreatedApart(tb: Tables, t: Template, series: Series, cosine: Cosine, threshold: real)
    requires OrderOk(tb) && Apart(tb, cosine, threshold)
    requires NoneEligible(tb, Score(cosine, series, tb.centers), threshold)
    ensures Apart(Created(tb, t, series), cosine, threshold)
  {
    hide Created, Similarity;
    var tb' := Created(tb, t, series);
    CreatedCenters(tb, t, series);
    forall a, b | a in tb'.clusters && b in tb'.clusters && a < b && Fresh(tb', a) && Fresh(tb', b)
      ensures Unlike(cosine, CenterOf(tb', b), CenterOf(tb', a), threshold)
    {
      assert a in tb.clusters && CenterOf(tb', a) == CenterOf(tb, a);
      if b == tb.nextId {
        assert !Eligible(Score(cosine, series, tb.centers), threshold, a);
      } else {
        assert CenterOf(tb', b) == CenterOf(tb, b);
      }
    }
  }

  lemma EmptyApart(tb: Tables, cosine: Cosine, threshold: real)
    requires tb.clusters == map[]
    ensures Apart(tb, cosine, threshold)
  {
  }

  lemma AssignedApart(tb: Tables, valid: seq<(Template, Series)>, cosine: Cosine, threshold: real, now: Time)
    requires Consistent(tb) && tb.clusters == map[]
    ensures Apart(Assignments(tb, valid, |valid|, cosine, threshold, now), cosine, threshold)
  {
    EmptyApart(tb, cosine, threshold);
    assert AssignedUpTo(tb, tb, valid, 0);
    hide Consistent, Grown, Apart, PlacedIn;
    var step := PlaceStepper(valid, cosine, threshold, now);
    forall t, k: nat | k < |valid| && AssignedUpTo(tb, t, valid, k) && Apart(t, cosine, threshold)
      ensures step(t, k).ok && AssignedUpTo(tb, step(t, k).state, valid, k + 1)
      ensures Apart(step(t, k).state, cosine, threshold)
    {
      PlaceNext(tb, t, valid, k, cosine, threshold, now);
      PlacedApart(t, valid[k].0, valid[k].1, cosine, threshold, now);
    }
    FoldSucceeds(step, tb, |valid|, (t, k) => AssignedUpTo(tb, t, valid, k) && Apart(t, cosine, threshold));
  }

  /** Nobody stays whose center has one point, so a cluster that keeps a member is fresh and keeps only that one. */
  lemma SinglesStay(tb: Tables, series: Workload, cosine: Cosine, threshold: real)
    requires Consistent(tb) && Thin(tb) && AllNamed(tb, series) && 0.0 < threshold
    ensures AtMost(Departures(tb, series, cosine, threshold), 1)
  {
    var tb' := Departures(tb, series, cosine, threshold);
    DeparturesSound(tb, series, cosine, threshold);
    DeparturesKeep(tb, series, cosine, threshold);
    forall c | c in tb'.clusters ensures |tb'.clusters[c].templates| <= 1 {
      assert ThinCluster(tb', c) && CenterOf(tb', c) == CenterOf(tb, c);
      if !Fresh(tb, c) {
        DullEmpty(tb, series, cosine, threshold, c);
      }
    }
  }

  lemma DullEmpty(tb: Tables, series: Workload, cosine: Cosine, threshold: real, c: Id)
    requires Consistent(tb) && AllNamed(tb, series) && 0.0 < threshold && c in tb.clusters && !Fresh(tb, c)
    ensures var tb' := Departures(tb, series, cosine, threshold);
            c in tb'.clusters && tb'.clusters[c].templates == []
  {
    var tb' := Departures(tb, series, cosine, threshold);
    DeparturesSound(tb, series, cosine, threshold);
    forall t ensures !Assigned(tb', t, c) {
      if Assigned(tb, t, c) {
        forall s: Series ensures Similarity(cosine, s, CenterOf(tb, c)) < threshold {
          ShortSeries(cosine, s, CenterOf(tb, c));
        }
        FarLeave(tb, series, cosine, threshold, t);
      }
    }
    FirstAssigned(tb', c);
  }

  /** No two clusters are then similar enough to be merged. */
  lemma NothingMerges(tb: Tables, cosine: Cosine, similarity: real, merge: real, now: Time)
    requires Consistent(tb) && Proper(cosine) && Apart(tb, cosine, similarity) && 0.0 < similarity <= merge
    ensures Mergers(tb, cosine, merge, now) == Ran(tb, true)
  {
    var ids := tb.order;
    forall i: nat ensures RowsStepper(ids, cosine, merge, now)(tb, i) == Ran(tb, true) {
      forall j: nat ensures RowStepper(ids, i, cosine, merge, now)(tb, j) == Ran(tb, true) {
        if i < j < |ids| {
          PairApart(tb, i, j, cosine, similarity, merge);
        }
      }
      FoldIdles(RowStepper(ids, i, cosine, merge, now), tb, |ids|);
    }
    FoldIdles(RowsStepper(ids, cosine, merge, now), tb, |ids|);
  }

  lemma PairApart(tb: Tables, i: nat, j: nat, cosine: Cosine, similarity: real, merge: real)
    requires OrderOk(tb) && Proper(cosine) && Apart(tb, cosine, similarity) && 0.0 < similarity <= merge
    requires i < j < |tb.order|
    ensures Dissimilar(tb, tb.order[i], tb.order[j], cosine, merge)
  {
    var a, b := tb.order[i], tb.order[j];
    assert a in tb.order && b in tb.order;
    SimilarityBound(cosine, CenterOf(tb, a), CenterOf(tb, b));
    ShortSeries(cosine, CenterOf(tb, a), CenterOf(tb, b));
  }

  lemma Two(tb: Tables, series: Workload, now: Time, cosine: Cosine, p: Parameters)
    requires Consistent(tb) && tb.clusters == map[] && Proper(cosine)
    requires 2 <= p.minSize && 0.0 < p.similarity <= p.merge
    ensures LeavesNone(tb, series, now, cosine, p)
  {
    PlacedSound(tb, series, now, cosine, p);
    var placed, evolved := Placed1(tb, series, now, cosine, p), Evolved(tb, series, now, cosine, p);
    AssignedApart(tb, ValidSeries(series, now, p.window), cosine, p.similarity, now);
    DeparturesSound(placed, series, cosine, p.similarity);
    DeparturesKeep(placed, series, cosine, p.similarity);
    SinglesStay(placed, series, cosine, p.similarity);
    StillApart(placed, evolved, cosine, p.similarity);
    NothingMerges(evolved, cosine, p.similarity, p.merge, now);
    SmallDropped(evolved, p.minSize, now);
  }

  lemma StillApart(before: Tables, after: Tables, cosine: Cosine, threshold: real)
    requires Apart(before, cosine, threshold)
    requires after.clusters.Keys == before.clusters.Keys && after.centers == before.centers
    ensures Apart(after, cosine, threshold)
  {
    forall c ensures CenterOf(after, c) == CenterOf(before, c) {
    }
  }

  /** With barren parameters every run from empty tables leaves them empty, so every sequence of runs does. */
  lemma BarrenRun(tb: Tables, series: Workload, now: Time, cosine: Cosine, p: Parameters)
    requires Consistent(tb) && tb.clusters == map[] && Barren(p) && Proper(cosine)
    ensures LeavesNone(tb, series, now, cosine, p)
  {
    if 1.0 < p.similarity {
      AboveOne(tb, series, now, cosine, p);
    } else if 3 <= p.minSize {
      ThreeOrMore(tb, series, now, cosine, p);
    } else {
      Two(tb, series, now, cosine, p);
    }
  }

  /** What the parameters say about a run. */
  lemma RunBarren(tb: Tables, series: Workload, now: Time, cosine: Cosine, p: Parameters)
    requires Consistent(tb)
    ensures tb.clusters == map[] && Barren(p) && Proper(cosine) ==> LeavesNone(tb, series, now, cosine, p)
    ensures tb.clusters == map[] && 3 <= p.minSize && 0.0 < p.merge ==> LeavesNone(tb, series, now, cosine, p)
  {
    if tb.clusters == map[] {
      if Barren(p) && Proper(cosine) {
        BarrenRun(tb, series, now, cosine, p);
      }
      if 3 <= p.minSize && 0.0 < p.merge {
        ThreeOrMore(tb, series, now, cosine, p);
      }
    }
  }
}
