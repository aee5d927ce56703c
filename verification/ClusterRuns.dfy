/** What a whole run of the workload clusterer does to its tables. */
module ClusterRuns {
  import opened Prelude
  import opened Folding
  import opened UnionFind
  import opened ClusterTables
  import opened ClusterRules
  import opened ClusterMerging

  datatype Parameters = Parameters(similarity: real, minSize: int, window: int, merge: real)

  // ----- phase 1

  /** The points within the time window. */
  function Recent(series: Series, now: Time, window: int): Series {
    map t | t in series && t >= now - window :: series[t]
  }

  /** At least two points, two of them recent. */
  function Sufficient(now: Time, window: int): ((Template, Series)) -> bool {
    (x: (Template, Series)) => |x.1| >= 2 && |Recent(x.1, now, window)| >= 2
  }

  function RecentOf(s: seq<(Template, Series)>, now: Time, window: int): (r: seq<(Template, Series)>)
    ensures |r| == |s| && forall i | 0 <= i < |s| :: r[i] == (s[i].0, Recent(s[i].1, now, window))
  {
    seq(|s|, i requires 0 <= i < |s| => (s[i].0, Recent(s[i].1, now, window)))
  }

  /** The templates with sufficient data, and only their recent points. */
  function ValidSeries(series: Workload, now: Time, window: int): seq<(Template, Series)> {
    RecentOf(Filter(Sufficient(now, window), series), now, window)
  }

  /** Exactly the templates with sufficient data are kept. */
  lemma ValidExact(series: Workload, now: Time, window: int)
    ensures forall i :: 0 <= i < |series| && |series[i].1| >= 2 && |Recent(series[i].1, now, window)| >= 2 ==>
              (series[i].0, Recent(series[i].1, now, window)) in ValidSeries(series, now, window)
    ensures forall v | v in ValidSeries(series, now, window) ::
              exists i :: 0 <= i < |series| && v == (series[i].0, Recent(series[i].1, now, window)) && |v.1| >= 2
  {
    var p, valid := Sufficient(now, window), ValidSeries(series, now, window);
    var kept := Filter(p, series);
    forall i | 0 <= i < |series| && p(series[i]) ensures (series[i].0, Recent(series[i].1, now, window)) in valid {
      FilterMember(p, series, series[i]);
      var k :| 0 <= k < |kept| && kept[k] == series[i];
      assert valid[k] == (series[i].0, Recent(series[i].1, now, window));
    }
    forall v | v in valid
      ensures exists i :: 0 <= i < |series| && v == (series[i].0, Recent(series[i].1, now, window)) && |v.1| >= 2
    {
      var k :| 0 <= k < |valid| && valid[k] == v;
      FilterMember(p, series, kept[k]);
      var i :| 0 <= i < |series| && series[i] == kept[k];
    }
  }

  ghost function PlaceStepper(valid: seq<(Template, Series)>, cosine: Cosine, threshold: real, now: Time):
      (Tables, nat) -> Ran<Tables>
  {
    (tb: Tables, k: nat) =>
      Ran(if k < |valid| then PlacedIn(tb, valid[k].0, valid[k].1, cosine, threshold, now) else tb, true)
  }

  /** The first `n` assignments. */
  ghost function Assignments(
      tb: Tables, valid: seq<(Template, Series)>, n: nat, cosine: Cosine, threshold: real, now: Time): Tables
  {
    Fold(PlaceStepper(valid, cosine, threshold, now), tb, n).state
  }

  ghost predicate AssignedUpTo(start: Tables, tb: Tables, valid: seq<(Template, Series)>, n: nat) {
    Consistent(tb) && Grown(start, tb) && forall i | 0 <= i < n && i < |valid| :: valid[i].0 in tb.clusterOf
  }

  lemma PlaceNext(
      start: Tables, tb: Tables, valid: seq<(Template, Series)>, k: nat, cosine: Cosine, threshold: real, now: Time)
    requires AssignedUpTo(start, tb, valid, k) && k < |valid|
    ensures AssignedUpTo(start, PlacedIn(tb, valid[k].0, valid[k].1, cosine, threshold, now), valid, k + 1)
  {
    var next := PlacedIn(tb, valid[k].0, valid[k].1, cosine, threshold, now);
    PlacedInIsPlaced(tb, valid[k].0, valid[k].1, cosine, threshold, now);
    PlacedOutcome(tb, next, valid[k].0, valid[k].1, cosine, threshold, now);
    GrownTransitive(start, tb, next);
  }

  lemma AssignmentsSound(
      tb: Tables, valid: seq<(Template, Series)>, n: nat, cosine: Cosine, threshold: real, now: Time)
    requires Consistent(tb) && n <= |valid|
    ensures Fold(PlaceStepper(valid, cosine, threshold, now), tb, n).ok
    ensures AssignedUpTo(tb, Assignments(tb, valid, n, cosine, threshold, now), valid, n)
  {
    var step := PlaceStepper(valid, cosine, threshold, now);
    forall t, k: nat | k < n && AssignedUpTo(tb, t, valid, k)
      ensures step(t, k).ok && AssignedUpTo(tb, step(t, k).state, valid, k + 1)
    {
      PlaceNext(tb, t, valid, k, cosine, threshold, now);
    }
    FoldSucceeds(step, tb, n, (t, k) => AssignedUpTo(tb, t, valid, k));
  }

  // ----- phase 2

  /** The templates that should leave their clusters. */
  function Leaving(tb: Tables, series: Workload, cosine: Cosine, threshold: real): seq<Template> {
    Names(Filter(Far(tb, cosine, threshold), series))
  }

  function Departures(tb: Tables, series: Workload, cosine: Cosine, threshold: real): Tables {
    DepartedAll(tb, Leaving(tb, series, cosine, threshold))
  }

  lemma LeavingAssigned(tb: Tables, series: Workload, cosine: Cosine, threshold: real)
    ensures NoRepeat(Leaving(tb, series, cosine, threshold))
    ensures forall t <- Leaving(tb, series, cosine, threshold) :: t in tb.clusterOf
  {
    NamesOfFiltered(series, Far(tb, cosine, threshold));
  }

  /** Exactly the dissimilar templates leave; no cluster disappears. */
  lemma DeparturesSound(tb: Tables, series: Workload, cosine: Cosine, threshold: real)
    requires Consistent(tb)
    ensures var tb' := Departures(tb, series, cosine, threshold);
            && Consistent(tb') && tb'.clusters.Keys == tb.clusters.Keys
            && (forall t :: t in tb'.clusterOf <==>
                              t in tb.clusterOf && !Named(series, Far(tb, cosine, threshold), t))
            && (forall t | t in tb'.clusterOf :: tb'.clusterOf[t] == tb.clusterOf[t])
  {
    var leaving := Leaving(tb, series, cosine, threshold);
    LeavingAssigned(tb, series, cosine, threshold);
    NamesOfFiltered(series, Far(tb, cosine, threshold));
    forall i | 0 <= i < |leaving| ensures leaving[i] in tb.clusterOf {
      assert leaving[i] in leaving;
    }
    DepartAllOutcome(tb, leaving);
  }

  lemma DeparturesKeep(tb: Tables, series: Workload, cosine: Cosine, threshold: real)
    requires Consistent(tb)
    ensures var tb' := Departures(tb, series, cosine, threshold);
            && tb'.centers == tb.centers && tb'.parent == tb.parent && tb'.rank == tb.rank
            && tb'.nextId == tb.nextId && tb'.order == tb.order
            && (Thin(tb) ==> Thin(tb')) && (Mergeable(tb) ==> Mergeable(tb'))
  {
    var leaving := Leaving(tb, series, cosine, threshold);
    DeparturesSound(tb, series, cosine, threshold);
    DepartAllKeeps(tb, leaving);
    SameMergeable(tb, DepartedAll(tb, leaving));
    if Thin(tb) {
      DepartedAllThin(tb, leaving);
    }
  }

  // ----- phase 3

  predicate TooSmall(tb: Tables, c: Id, minSize: int) {
    (if c in tb.sizes then tb.sizes[c] else 0) < minSize
  }

  function SmallIn(tb: Tables, minSize: int): Id -> bool {
    (c: Id) => TooSmall(tb, c, minSize)
  }

  /** The tables without the clusters below the minimum size. */
  function Kept(tb: Tables, minSize: int): Tables {
    DroppedAll(tb, Filter(SmallIn(tb, minSize), tb.order))
  }

  function Cleanup(tb: Tables, minSize: int, now: Time): Tables {
    RecenteredAll(Kept(tb, minSize), Kept(tb, minSize).order, now)
  }

  lemma KeptSound(tb: Tables, minSize: int)
    requires Consistent(tb)
    ensures OrderOk(Kept(tb, minSize))
    ensures var tb' := Kept(tb, minSize);
            && Consistent(tb') && tb'.parent == tb.parent && tb'.nextId == tb.nextId
            && (forall c :: c in tb'.clusters <==> c in tb.clusters && minSize <= |tb.clusters[c].templates|)
            && (forall c | c in tb'.clusters :: tb'.clusters[c] == tb.clusters[c])
  {
    var small := Filter(SmallIn(tb, minSize), tb.order);
    DropAllConsistent(tb, small);
    DropAllKeeps(tb, small);
    DropAllClusters(tb, small);
    forall c ensures c in small <==> c in tb.clusters && |tb.clusters[c].templates| < minSize {
      FilterMember(SmallIn(tb, minSize), tb.order, c);
      SizesAreLengths(tb);
    }
  }

  /** Exactly the clusters of minimum size stay, unchanged, each with a center of one point unless it is empty. */
  lemma CleanupSound(tb: Tables, minSize: int, now: Time)
    requires Consistent(tb)
    ensures var tb' := Cleanup(tb, minSize, now);
            && Consistent(tb') && tb'.parent == tb.parent && tb'.nextId == tb.nextId
            && (forall c :: c in tb'.clusters <==> c in tb.clusters && minSize <= |tb.clusters[c].templates|)
            && (forall c | c in tb'.clusters :: tb'.clusters[c] == tb.clusters[c])
            && (1 <= minSize ==> Settled(tb'))
  {
    var kept := Kept(tb, minSize);
    KeptSound(tb, minSize);
    RecenterAllConsistent(kept, kept.order, now);
    RecenterAllSettles(kept, kept.order, now);
    RecenterAllOnlyCenters(kept, kept.order, now);
  }

  // ----- a whole run

  /** The tables after phases 1 and 2 up to the merging. */
  ghost function Evolved(tb: Tables, series: Workload, now: Time, cosine: Cosine, p: Parameters): Tables {
    var valid := ValidSeries(series, now, p.window);
    Departures(Assignments(tb, valid, |valid|, cosine, p.similarity, now), series, cosine, p.similarity)
  }

  ghost function RunOf(tb: Tables, series: Workload, now: Time, cosine: Cosine, p: Parameters): Ran<Tables> {
    var r := Mergers(Evolved(tb, series, now, cosine, p), cosine, p.merge, now);
    if r.ok then Ran(Cleanup(r.state, p.minSize, now), true) else r
  }

  lemma EvolvedSound(tb: Tables, series: Workload, now: Time, cosine: Cosine, p: Parameters)
    requires Consistent(tb)
    ensures var tb' := Evolved(tb, series, now, cosine, p);
            && Consistent(tb') && Later(tb, tb') && (Thin(tb) ==> Thin(tb')) && (Mergeable(tb) ==> Mergeable(tb'))
  {
    var valid := ValidSeries(series, now, p.window);
    AssignmentsSound(tb, valid, |valid|, cosine, p.similarity, now);
    var placed := Assignments(tb, valid, |valid|, cosine, p.similarity, now);
    DeparturesSound(placed, series, cosine, p.similarity);
    DeparturesKeep(placed, series, cosine, p.similarity);
  }

  /** Every run keeps the tables consistent and never reuses an id; one that does not fail leaves no small cluster. */
  lemma RunSound(tb: Tables, series: Workload, now: Time, cosine: Cosine, p: Parameters)
    requires Consistent(tb)
    ensures var r := RunOf(tb, series, now, cosine, p);
            Consistent(r.state) && Later(tb, r.state) && (r.ok ==> AtLeast(r.state, p.minSize))
  {
    EvolvedSound(tb, series, now, cosine, p);
    MergersSound(Evolved(tb, series, now, cosine, p), cosine, p.merge, now);
    CleanupSound(Mergers(Evolved(tb, series, now, cosine, p), cosine, p.merge, now).state, p.minSize, now);
  }

  /** Parameters under which merging always keeps the data under the right id. */
  predicate Safe(p: Parameters) {
    1 <= p.minSize && 0.0 < p.merge
  }

  /** With safe parameters no run fails, and between runs every live cluster is a root. */
  lemma RunSafe(tb: Tables, series: Workload, now: Time, cosine: Cosine, p: Parameters)
    requires Consistent(tb) && LiveAreRoots(tb) && Settled(tb) && Safe(p)
    ensures var r := RunOf(tb, series, now, cosine, p); r.ok && LiveAreRoots(r.state) && Settled(r.state)
  {
    SettledMergeable(tb);
    EvolvedSound(tb, series, now, cosine, p);
    var evolved := Evolved(tb, series, now, cosine, p);
    MergersSound(evolved, cosine, p.merge, now);
    MergersSafe(evolved, cosine, p.merge, now);
    var merged := Mergers(evolved, cosine, p.merge, now).state;
    CleanupSound(merged, p.minSize, now);
    FewerRoots(merged, Cleanup(merged, p.minSize, now));
  }
}
