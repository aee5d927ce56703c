/** Online clustering of query templates by the shape of their time series. */
module Clusterer {
  import opened Prelude
  import opened Folding
  import opened UnionFind
  import opened ClusterTables
  import opened ClusterRules
  import opened ClusterMerging
  import opened ClusterRuns
  import opened ClusterBarren

  class OnlineWorkloadClusterer {
    const similarityThreshold: real
    const minClusterSize: int
    const timeWindow: int
    const mergeThreshold: real

    var clusters: map<Id, Cluster>
    var order: seq<Id>
    var clusterOf: map<Template, Id>
    var centers: map<Id, Series>
    var sizes: map<Id, int>
    var parent: map<Id, Id>
    var rank: map<Id, nat>
    var nextId: nat
    var now: Time

    ghost function View(): Tables
      reads this`clusters, this`order, this`clusterOf, this`centers, this`sizes, this`parent, this`rank, this`nextId
    {
      Tables(clusters, order, clusterOf, centers, sizes, parent, rank, nextId)
    }

    ghost function Params(): Parameters {
      Parameters(similarityThreshold, minClusterSize, timeWindow, mergeThreshold)
    }

    /** What holds between runs. */
    ghost predicate Valid()
      reads this
    {
      && Consistent(View())
      && (Safe(Params()) ==> LiveAreRoots(View()) && Settled(View()))
      && (3 <= minClusterSize && 0.0 < mergeThreshold ==> clusters == map[])
    }

    constructor (similarityThreshold: real, minClusterSize: int, timeWindow: int, mergeThreshold: real, now: Time)
      ensures Valid() && View() == NO_TABLES
      ensures this.similarityThreshold == similarityThreshold && this.minClusterSize == minClusterSize
      ensures this.timeWindow == timeWindow && this.mergeThreshold == mergeThreshold && this.now == now
    {
      this.similarityThreshold, this.minClusterSize := similarityThreshold, minClusterSize;
      this.timeWindow, this.mergeThreshold := timeWindow, mergeThreshold;
      clusters, order, clusterOf, centers, sizes := map[], [], map[], map[], map[];
      parent, rank, nextId := map[], map[], 0;
      this.now := now;
    }

    // ----- elementary operations

    method UpdateCenter(c: Id)
      requires c in clusters
      modifies this`centers
      ensures View() == Recentered(old(View()), c, now)
    {
      if clusters[c].templates == [] {
        return;
      }
      centers := centers[c := PlaceholderCenter(clusters[c].templates, now)];
    }

    method AddTemplate(t: Template, c: Id)
      requires c in clusters && c in sizes
      modifies this`clusterOf, this`clusters, this`sizes, this`centers
      ensures View() == Joined(old(View()), t, c, now)
    {
      clusterOf := clusterOf[t := c];
      var info := clusters[c];
      if t !in info.templates {
        clusters := clusters[c := Cluster(info.templates + [t], info.hashes + [t])];
        sizes := sizes[c := sizes[c] + 1];
      }
      UpdateCenter(c);
    }

    method CreateCluster(t: Template, series: Series) returns (c: Id)
      modifies this`nextId, this`clusters, this`order, this`clusterOf, this`centers, this`sizes, this`parent, this`rank
      ensures c == old(nextId) && View() == Created(old(View()), t, series)
    {
      c := nextId;
      nextId := nextId + 1;
      clusters, order := clusters[c := Cluster([t], [t])], order + [c];
      clusterOf := clusterOf[t := c];
      centers := centers[c := series];
      parent, rank := parent[c := c], rank[c := 0];
      sizes := sizes[c := 1];
    }

    method RemoveTemplate(t: Template, c: Id)
      requires c in clusters ==> t in clusterOf && c in sizes
      modifies this`clusters, this`clusterOf, this`sizes
      ensures View() == Departed(old(View()), t, c)
    {
      if c !in clusters {
        return;
      }
      var info := clusters[c];
      AbsentUnchanged(info.templates, t);
      AbsentUnchanged(info.hashes, t);
      var templates := if t in info.templates then RemoveFirst(info.templates, t) else info.templates;
      var hashes := if t in info.hashes then RemoveFirst(info.hashes, t) else info.hashes;
      clusters := clusters[c := Cluster(templates, hashes)];
      clusterOf := clusterOf - {t};
      sizes := sizes[c := sizes[c] - 1];
    }

    method RemoveCluster(c: Id)
      modifies this`clusters, this`order, this`clusterOf, this`centers, this`sizes
      ensures View() == Dropped(old(View()), c)
    {
      if c !in clusters {
        return;
      }
      var hashes := clusters[c].hashes;
      for i := 0 to |hashes|
        modifies this`clusterOf
        invariant clusterOf == old(clusterOf) - Elements(hashes[..i])
      {
        assert hashes[..i + 1] == hashes[..i] + [hashes[i]];
        if hashes[i] in clusterOf {
          clusterOf := clusterOf - {hashes[i]};
        }
      }
      assert hashes[..|hashes|] == hashes;
      clusters, order := clusters - {c}, Filter(Except(c), order);
      centers := centers - {c};
      sizes := sizes - {c};
    }

    /** Find with path compression; no representative changes. */
    method Find(x: Id) returns (root: Id)
      requires Forest(parent, rank) && x in parent
      modifies this`parent
      ensures parent == Compress(old(parent), rank, x)
      ensures Forest(parent, rank) && parent.Keys == old(parent).Keys
      ensures root == Root(old(parent), rank, x)
      ensures forall y | y in parent :: Root(parent, rank, y) == Root(old(parent), rank, y)
      decreases Above(rank, x)
    {
      CompressSound(parent, rank, x);
      if parent[x] != x {
        AboveShrinks(parent, rank, x);
        root := Find(parent[x]);
        parent := parent[x := root];
      }
      return parent[x];
    }

    /**
     Merge the classes of two ids.  `ok` is false where the lookup of a root's
     cluster would raise a KeyError, after the union has been recorded.
     */
    method MergeClusters(a: Id, b: Id) returns (ok: bool)
      requires Consistent(View()) && a in parent && b in parent
      modifies this`parent, this`rank, this`clusters, this`order, this`clusterOf, this`centers, this`sizes
      ensures Ran(View(), ok) == MergeStep(old(View()), a, b, now)
      ensures Consistent(View()) && Shrunk(old(View()), View())
      ensures ok <==>
                var root1, root2 := Root(old(parent), old(rank), a), Root(old(parent), old(rank), b);
                root1 == root2 || (root1 in old(clusters) && root2 in old(clusters))
      ensures a != b && a in old(clusters) && b in old(clusters) && old(parent)[a] == a && old(parent)[b] == b ==>
                CanMerge(old(View()), a, b) && View() == Merged(old(View()), a, b, now)
    {
      hide Merged, United;
      if a != b && a in clusters && b in clusters && parent[a] == a && parent[b] == b {
        MergeOfTwoRoots(View(), a, b, now);
      }
      MergeStepSound(View(), a, b, now);
      var root1, root2 := FindBoth(a, b);
      if root1 == root2 {
        return true;
      }
      ok := MergeRoots(root1, root2);
    }

    method FindBoth(a: Id, b: Id) returns (root1: Id, root2: Id)
      requires Consistent(View()) && a in parent && b in parent
      modifies this`parent
      ensures Known(old(View()), a) && Known(old(View()), b) && Known(Found(old(View()), a), b)
      ensures View() == Found(Found(old(View()), a), b)
      ensures root1 == RootOf(old(View()), a) && root2 == RootOf(old(View()), b)
      ensures root1 in rank && root2 in rank && clusters.Keys <= sizes.Keys
    {
      ghost var start := View();
      FoundSound(start, a);
      root1 := Find(a);
      FoundSound(View(), b);
      root2 := Find(b);
      SizesKnown(start);
    }

    method MergeRoots(root1: Id, root2: Id) returns (ok: bool)
      requires root1 in rank && root2 in rank && root1 != root2
      requires clusters.Keys <= sizes.Keys
      modifies this`parent, this`rank, this`clusters, this`order, this`clusterOf, this`centers, this`sizes
      ensures ok <==> root1 in old(clusters) && root2 in old(clusters)
      ensures View() == if ok then Merged(old(View()), root1, root2, now) else United(old(View()), root1, root2)
    {
      Union(root1, root2);
      if root1 !in clusters || root2 !in clusters {
        return false;
      }
      Absorb(root1, root2);
      UpdateCenter(root1);
      return true;
    }

    /** The union by rank. */
    method Union(root1: Id, root2: Id)
      requires root1 in rank && root2 in rank
      modifies this`parent, this`rank
      ensures View() == United(old(View()), root1, root2)
    {
      if rank[root1] < rank[root2] {
        parent := parent[root1 := root2];
      } else if rank[root1] > rank[root2] {
        parent := parent[root2 := root1];
      } else {
        parent := parent[root2 := root1];
        rank := rank[root1 := rank[root1] + 1];
      }
    }

    method Reassign(hashes: seq<Template>, c: Id)
      modifies this`clusterOf
      ensures clusterOf == Reassigned(old(clusterOf), hashes, c)
    {
      for i := 0 to |hashes|
        invariant clusterOf == Reassigned(old(clusterOf), hashes[..i], c)
      {
        ReassignedNext(old(clusterOf), hashes, i, c);
        clusterOf := clusterOf[hashes[i] := c];
      }
      assert hashes[..|hashes|] == hashes;
    }

    /** The data part of a merge. */
    method Absorb(root1: Id, root2: Id)
      requires root1 in clusters && root2 in clusters && root1 in sizes && root2 in sizes
      modifies this`clusters, this`order, this`clusterOf, this`centers, this`sizes
      ensures View() == Absorbed(old(View()), root1, root2)
    {
      var c1, c2 := clusters[root1], clusters[root2];
      clusters := clusters[root1 := Cluster(c1.templates + c2.templates, c1.hashes + c2.hashes)];
      Reassign(c2.hashes, root1);
      sizes := sizes[root1 := sizes[root1] + sizes[root2]];
      clusters, order := clusters - {root2}, Filter(Except(root2), order);
      centers := centers - {root2};
    }

    // ----- phase 1: assignment

    /** Templates with at least two points, two of them recent; only those points are kept. */
    method FilterValid(series: Workload) returns (valid: seq<(Template, Series)>)
      ensures valid == ValidSeries(series, now, timeWindow)
      ensures forall i :: 0 <= i < |series| && |series[i].1| >= 2 && |Recent(series[i].1, now, timeWindow)| >= 2 ==>
                (series[i].0, Recent(series[i].1, now, timeWindow)) in valid
      ensures forall v | v in valid ::
                exists i :: 0 <= i < |series| && v == (series[i].0, Recent(series[i].1, now, timeWindow)) && |v.1| >= 2
    {
      ValidExact(series, now, timeWindow);
      valid := [];
      for i := 0 to |series|
        invariant valid == RecentOf(Filter(Sufficient(now, timeWindow), series[..i]), now, timeWindow)
      {
        FilterNext(Sufficient(now, timeWindow), series, i);
        var (t, ts) := series[i];
        if |ts| >= 2 {
          var recent := Recent(ts, now, timeWindow);
          if |recent| >= 2 {
            valid := valid + [(t, recent)];
          }
        }
      }
      assert series[..|series|] == series;
    }

    method AssignTemplates(valid: seq<(Template, Series)>, cosine: Cosine)
      requires Consistent(View())
      modifies this`nextId, this`clusters, this`order, this`clusterOf, this`centers, this`sizes, this`parent, this`rank
      ensures View() == Assignments(old(View()), valid, |valid|, cosine, similarityThreshold, now)
      ensures Consistent(View()) && Grown(old(View()), View())
      ensures forall i :: 0 <= i < |valid| ==> valid[i].0 in clusterOf
    {
      for i := 0 to |valid|
        invariant View() == Assignments(old(View()), valid, i, cosine, similarityThreshold, now)
      {
        AssignmentsSound(old(View()), valid, i, cosine, similarityThreshold, now);
        AssignTemplate(valid[i].0, valid[i].1, cosine);
      }
      AssignmentsSound(old(View()), valid, |valid|, cosine, similarityThreshold, now);
    }

    method AssignTemplate(t: Template, series: Series, cosine: Cosine)
      requires Consistent(View())
      modifies this`nextId, this`clusters, this`order, this`clusterOf, this`centers, this`sizes, this`parent, this`rank
      ensures View() == PlacedIn(old(View()), t, series, cosine, similarityThreshold, now)
      ensures Placed(old(View()), View(), t, series, old(Score(cosine, series, centers)), similarityThreshold, now)
      ensures Consistent(View()) && Grown(old(View()), View()) && t in clusterOf
    {
      ghost var placed := PlacedIn(View(), t, series, cosine, similarityThreshold, now);
      PlacedInIsPlaced(View(), t, series, cosine, similarityThreshold, now);
      PlacedOutcome(View(), placed, t, series, cosine, similarityThreshold, now);
      SizesKnown(View());
      PlaceTemplate(t, series, cosine);
    }

    method PlaceTemplate(t: Template, series: Series, cosine: Cosine)
      requires OrderOk(View()) && clusters.Keys <= sizes.Keys
      modifies this`nextId, this`clusters, this`order, this`clusterOf, this`centers, this`sizes, this`parent, this`rank
      ensures View() == PlacedIn(old(View()), t, series, cosine, similarityThreshold, now)
    {
      if t in clusterOf {
        if clusterOf[t] in clusters {
          return;
        }
      }
      var best := BestOf(order, Score(cosine, series, centers), similarityThreshold);
      if best.Some? {
        AddTemplate(t, best.value);
      } else {
        var _ := CreateCluster(t, series);
      }
    }

    // ----- phase 2: departures and mergers

    method CollectLeaving(series: Workload, cosine: Cosine) returns (leaving: seq<Template>)
      ensures leaving == Leaving(View(), series, cosine, similarityThreshold)
    {
      leaving := [];
      ghost var far := Far(View(), cosine, similarityThreshold);
      for i := 0 to |series|
        invariant leaving == Names(Filter(far, series[..i]))
      {
        NamesNext(far, series, i);
        var leaves := CheckDeparture(series[i].0, series[i].1, cosine);
        assert leaves == far(series[i]);
        if leaves {
          leaving := leaving + [series[i].0];
        }
      }
      assert series[..|series|] == series;
    }

    method CheckDeparture(t: Template, series: Series, cosine: Cosine) returns (leaves: bool)
      ensures leaves <==> Far(View(), cosine, similarityThreshold)((t, series))
    {
      if t !in clusterOf || clusterOf[t] !in clusters {
        return false;
      }
      var c := clusterOf[t];
      var similarity := Similarity(cosine, series, if c in centers then centers[c] else map[]);
      return similarity < similarityThreshold;
    }

    method RemoveTemplates(leaving: seq<Template>)
      requires Consistent(View())
      requires NoRepeat(leaving) && forall i :: 0 <= i < |leaving| ==> leaving[i] in clusterOf
      modifies this`clusters, this`clusterOf, this`sizes
      ensures View() == DepartedAll(old(View()), leaving)
    {
      for i := 0 to |leaving|
        invariant View() == DepartedAll(old(View()), leaving[..i])
      {
        DepartNext(old(View()), leaving, i);
        RemoveTemplate(leaving[i], clusterOf[leaving[i]]);
      }
      assert leaving[..|leaving|] == leaving;
    }

    /** Removes exactly the templates that are too dissimilar from their center; no cluster disappears. */
    method CheckDepartures(series: Workload, cosine: Cosine)
      requires Consistent(View())
      modifies this`clusters, this`clusterOf, this`sizes
      ensures View() == Departures(old(View()), series, cosine, similarityThreshold)
      ensures Consistent(View()) && clusters.Keys == old(clusters).Keys
      ensures forall t :: t in clusterOf <==>
                t in old(clusterOf) && !Named(series, Far(old(View()), cosine, similarityThreshold), t)
      ensures forall t | t in clusterOf :: clusterOf[t] == old(clusterOf)[t]
    {
      var leaving := CollectLeaving(series, cosine);
      LeavingAssigned(View(), series, cosine, similarityThreshold);
      forall i | 0 <= i < |leaving|
        ensures leaving[i] in clusterOf
      {
        assert leaving[i] in leaving;
      }
      DeparturesSound(View(), series, cosine, similarityThreshold);
      RemoveTemplates(leaving);
    }

    /**
     Merge every pair of similar clusters.  With a positive threshold, and none
     of the candidates ranked yet, no lookup fails and live clusters stay roots.
     */
    method CheckMergers(cosine: Cosine) returns (ok: bool)
      requires Consistent(View())
      modifies this`parent, this`rank, this`clusters, this`order, this`clusterOf, this`centers, this`sizes
      ensures Ran(View(), ok) == Mergers(old(View()), cosine, mergeThreshold, now)
      ensures Consistent(View()) && Shrunk(old(View()), View())
      ensures 0.0 < mergeThreshold && old(Mergeable(View())) ==> ok && LiveAreRoots(View())
    {
      hide PairStep;
      ghost var start := View();
      OrderIssued(start);
      MergersSound(start, cosine, mergeThreshold, now);
      if 0.0 < mergeThreshold && Mergeable(start) {
        MergersSafe(start, cosine, mergeThreshold, now);
      }
      var ids := order;
      for i := 0 to |ids|
        invariant Ran(View(), true) == Fold(RowsStepper(ids, cosine, mergeThreshold, now), start, i)
      {
        RowsSound(start, ids, i, cosine, mergeThreshold, now);
        ok := CheckRow(ids, i, cosine);
        if !ok {
          FoldStops(RowsStepper(ids, cosine, mergeThreshold, now), start, i + 1, |ids|);
          return;
        }
      }
      return true;
    }

    /** One row of the double loop. */
    method CheckRow(ids: seq<Id>, i: nat, cosine: Cosine) returns (ok: bool)
      requires Consistent(View()) && Issued(View(), ids) && i < |ids|
      modifies this`parent, this`rank, this`clusters, this`order, this`clusterOf, this`centers, this`sizes
      ensures Ran(View(), ok) == Fold(RowStepper(ids, i, cosine, mergeThreshold, now), old(View()), |ids|)
    {
      hide PairStep;
      ghost var start, step := View(), RowStepper(ids, i, cosine, mergeThreshold, now);
      RowBegins(start, ids, i, cosine, mergeThreshold, now);
      for j := i + 1 to |ids|
        invariant Ran(View(), true) == Fold(step, start, j)
      {
        RowSound(start, start, ids, i, j, cosine, mergeThreshold, now);
        ok := CheckPair(ids[i], ids[j], cosine);
        if !ok {
          FoldStops(step, start, j + 1, |ids|);
          return;
        }
      }
      return true;
    }

    method CheckPair(a: Id, b: Id, cosine: Cosine) returns (ok: bool)
      requires Consistent(View()) && a < nextId && b < nextId
      modifies this`parent, this`rank, this`clusters, this`order, this`clusterOf, this`centers, this`sizes
      ensures Ran(View(), ok) == PairStep(old(View()), a, b, cosine, mergeThreshold, now)
      ensures Consistent(View()) && Shrunk(old(View()), View())
    {
      PairStepSound(View(), a, b, cosine, mergeThreshold, now);
      var center1 := if a in centers then centers[a] else map[];
      var center2 := if b in centers then centers[b] else map[];
      if Similarity(cosine, center1, center2) < mergeThreshold {
        return true;
      }
      ok := MergeClusters(a, b);
    }

    // ----- phase 3: cleanup

    /** Drop exactly the clusters below the minimum size, and refresh the other centers. */
    method ManageClusters()
      requires Consistent(View())
      modifies this`clusters, this`order, this`clusterOf, this`centers, this`sizes
      ensures View() == Cleanup(old(View()), minClusterSize, now)
      ensures Consistent(View())
      ensures forall c :: c in clusters <==> c in old(clusters) && minClusterSize <= |old(clusters)[c].templates|
      ensures forall c | c in clusters :: clusters[c] == old(clusters)[c]
      ensures 1 <= minClusterSize ==> Settled(View())
    {
      hide Consistent, OrderOk, DroppedAll, RecenteredAll, SmallIn, Settled;
      CleanupSound(View(), minClusterSize, now);
      KeptSound(View(), minClusterSize);
      var small := CollectSmall();
      RemoveClusters(small);
      RefreshCenters();
    }

    method CollectSmall() returns (small: seq<Id>)
      ensures small == Filter(SmallIn(View(), minClusterSize), order)
    {
      small := [];
      for i := 0 to |order|
        invariant small == Filter(SmallIn(View(), minClusterSize), order[..i])
      {
        FilterNext(SmallIn(View(), minClusterSize), order, i);
        if (if order[i] in sizes then sizes[order[i]] else 0) < minClusterSize {
          small := small + [order[i]];
        }
      }
      assert order[..|order|] == order;
    }

    method RemoveClusters(small: seq<Id>)
      modifies this`clusters, this`order, this`clusterOf, this`centers, this`sizes
      ensures View() == DroppedAll(old(View()), small)
    {
      for i := 0 to |small|
        invariant View() == DroppedAll(old(View()), small[..i])
      {
        assert small[..i + 1][..i] == small[..i];
        RemoveCluster(small[i]);
      }
      assert small[..|small|] == small;
    }

    method RefreshCenters()
      requires OrderOk(View())
      modifies this`centers
      ensures View() == RecenteredAll(old(View()), order, now)
    {
      for i := 0 to |order|
        invariant View() == RecenteredAll(old(View()), order[..i], now)
      {
        assert order[..i + 1][..i] == order[..i] && order[i] in order;
        UpdateCenter(order[i]);
      }
      assert order[..|order|] == order;
    }

    // ----- a whole run

    /**
     One clustering run.  `ok` is false only if a lookup failed.  With safe
     parameters none ever does, in any sequence of runs with any similarities.
     With barren parameters, such as the default ones, no run leaves a cluster.
     */
    method ClusterTemplates(series: Workload, currentTime: Option<Time>, cosine: Cosine) returns (ok: bool)
      requires Valid()
      modifies this
      ensures now == if currentTime.Some? then currentTime.value else old(now)
      ensures Ran(View(), ok) == RunOf(old(View()), series, now, cosine, Params())
      ensures Valid() && Later(old(View()), View())
      ensures Safe(Params()) ==> ok
      ensures ok ==> AtLeast(View(), minClusterSize)
      ensures 3 <= minClusterSize && 0.0 < mergeThreshold ==> clusters == map[]
      ensures ok && old(clusters) == map[] && Barren(Params()) && Proper(cosine) ==> clusters == map[]
    {
      if currentTime.Some? {
        now := currentTime.value;
      }
      RunSound(View(), series, now, cosine, Params());
      if Safe(Params()) {
        RunSafe(View(), series, now, cosine, Params());
      }
      RunBarren(View(), series, now, cosine, Params());
      EvolvedSound(View(), series, now, cosine, Params());
      AssignPhase(series, cosine);
      CheckDepartures(series, cosine);
      ok := MergeAndManage(cosine);
    }

    /** Phase 1. */
    method AssignPhase(series: Workload, cosine: Cosine)
      requires Consistent(View())
      modifies this`nextId, this`clusters, this`order, this`clusterOf, this`centers, this`sizes, this`parent, this`rank
      ensures var valid := ValidSeries(series, now, timeWindow);
              View() == Assignments(old(View()), valid, |valid|, cosine, similarityThreshold, now)
      ensures Consistent(View()) && Grown(old(View()), View())
      ensures forall x | x in ValidSeries(series, now, timeWindow) :: x.0 in clusterOf
    {
      var valid := FilterValid(series);
      AssignTemplates(valid, cosine);
    }

    /** The rest of phase 2, and phase 3 unless that failed. */
    method MergeAndManage(cosine: Cosine) returns (ok: bool)
      requires Consistent(View())
      modifies this`parent, this`rank, this`clusters, this`order, this`clusterOf, this`centers, this`sizes
      ensures var r := Mergers(old(View()), cosine, mergeThreshold, now);
              Ran(View(), ok) == if r.ok then Ran(Cleanup(r.state, minClusterSize, now), true) else r
    {
      ok := CheckMergers(cosine);
      if ok {
        ManageClusters();
      }
    }
  }
}
