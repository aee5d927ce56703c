/**
 With a merge threshold of at most zero, clusters with nothing in common are all
 merged into the first.
 */
module ClusterLump {
  import opened Prelude
  import opened Folding
  import opened UnionFind
  import opened ClusterTables
  import opened ClusterRules
  import opened ClusterMerging
  import opened ClusterRuns
  import opened ClusterBarren
  import opened ClusterFruitful

  /** No two series have a point in common. */
  ghost predicate Disjoint(series: Workload) {
    forall i, j | 0 <= i < j < |series| :: series[i].1.Keys * series[j].1.Keys == {}
  }

  // ----- the first row

  /** Clusters 1 to `j` - 1 have been merged into cluster 0, the later ones are as founded. */
  ghost predicate Lumped(tb: Tables, series: Workload, j: nat) {
    && Consistent(tb) && LiveAreRoots(tb) && tb.nextId == |series| && 0 in tb.clusters
    && tb.clusters[0].templates != [] && (CenterOf(tb, 0) == series[0].1 || !Fresh(tb, 0))
    && (forall i | 0 <= i < |series| :: series[i].0 in tb.clusterOf)
    && (forall x | x in tb.clusters :: x == 0 || x >= j)
    && (forall x: nat | x < |series| :: LumpedAt(tb, series, j, x))
  }

  ghost predicate LumpedAt(tb: Tables, series: Workload, j: nat, x: nat)
    requires x < |series|
  {
    Known(tb, x) && if x < j then RootOf(tb, x) == 0 else Untouched(tb, series, x)
  }

  ghost predicate Untouched(tb: Tables, series: Workload, x: nat)
    requires x < |series|
  {
    x in tb.clusters && x in tb.rank && tb.rank[x] == 0 && CenterOf(tb, x) == series[x].1
  }

  lemma FoundersLumped(tb: Tables, series: Workload)
    requires Founders(tb, series, |series|) && series != []
    ensures Lumped(tb, series, 1)
  {
    forall i: nat | i < |series| ensures series[i].0 in tb.clusterOf && LumpedAt(tb, series, 1, i) {
      assert Founder(tb, series, i) && Member(tb, series[i].0, i) && Assigned(tb, series[i].0, i);
    }
    assert Founder(tb, series, 0);
  }

  lemma NothingInCommon(cosine: Cosine, a: Series, b: Series)
    requires a.Keys * b.Keys == {}
    ensures Similarity(cosine, a, b) == 0.0 && Similarity(cosine, b, a) == 0.0
  {
    assert b.Keys * a.Keys == {};
  }

  lemma FirstSimilar(tb: Tables, series: Workload, j: nat, cosine: Cosine, threshold: real)
    requires Lumped(tb, series, j) && Disjoint(series) && 0 < j < |series| && threshold <= 0.0
    ensures !Dissimilar(tb, 0, j, cosine, threshold)
  {
    assert LumpedAt(tb, series, j, j);
    if Fresh(tb, 0) {
      NothingInCommon(cosine, series[0].1, series[j].1);
    } else {
      ShortSeries(cosine, CenterOf(tb, 0), CenterOf(tb, j));
    }
  }

  lemma NextLumped(tb: Tables, series: Workload, j: nat, now: Time)
    requires Lumped(tb, series, j) && 0 < j < |series|
    ensures CanMerge(tb, 0, j) && MergeStep(tb, 0, j, now) == Ran(Merged(tb, 0, j, now), true)
    ensures Lumped(Merged(tb, 0, j, now), series, j + 1)
  {
    hide Merged, Consistent, Known;
    assert LumpedAt(tb, series, j, j);
    MergeOfRoots(tb, 0, j, now);
    MergedConsistent(tb, 0, j, now);
    MergedRootsIff(tb, 0, j, now);
    MergedFirst(tb, 0, j, now);
    var merged, next := Merged(tb, 0, j, now), j + 1;
    forall x: nat | x < |series| ensures LumpedAt(merged, series, next, x) {
      LumpedNext(tb, series, j, x, now);
    }
  }

  lemma MergedFirst(tb: Tables, a: Id, b: Id, now: Time)
    requires CanMerge(tb, a, b) && tb.clusters[a].templates != []
    ensures var merged := Merged(tb, a, b, now);
            && merged.nextId == tb.nextId
            && a in merged.clusters && merged.clusters[a].templates != [] && !Fresh(merged, a)
  {
    RecenterSettles(Moved(tb, a, b), a, now);
  }

  lemma LumpedNext(tb: Tables, series: Workload, j: nat, x: nat, now: Time)
    requires Lumped(tb, series, j) && 0 < j < |series| && x < |series| && CanMerge(tb, 0, j)
    requires Consistent(Merged(tb, 0, j, now))
    ensures LumpedAt(Merged(tb, 0, j, now), series, j + 1, x)
  {
    assert LumpedAt(tb, series, j, j) && LumpedAt(tb, series, j, x) && LumpedAt(tb, series, j, 0);
    MergedShape(tb, 0, j, now);
    if x <= j {
      LinkIsForest(tb.parent, tb.rank, 0, j);
      LinkRoots(tb.parent, tb.rank, 0, j, x);
    } else {
      MergedConsistent(tb, 0, j, now);
      MergeLeavesAlone(tb, 0, j, now, x);
    }
  }

  /** What is kept along the first row; nothing happens on the diagonal. */
  ghost predicate RowKeeps(tb: Tables, series: Workload, j: nat) {
    Lumped(tb, series, if j == 0 then 1 else j)
  }

  lemma FirstRowStep(tb: Tables, series: Workload, j: nat, cosine: Cosine, threshold: real, now: Time)
    requires j < |series| && RowKeeps(tb, series, j) && Disjoint(series) && threshold <= 0.0
    ensures var r := RowStepper(UpTo(|series|), 0, cosine, threshold, now)(tb, j);
            r.ok && RowKeeps(r.state, series, j + 1)
  {
    hide MergeStep, Merged, Lumped;
    if j > 0 {
      FirstSimilar(tb, series, j, cosine, threshold);
      NextLumped(tb, series, j, now);
    }
  }

  lemma FirstRow(tb: Tables, series: Workload, cosine: Cosine, threshold: real, now: Time)
    requires Founders(tb, series, |series|) && Disjoint(series) && series != [] && threshold <= 0.0
    ensures var r := Fold(RowStepper(UpTo(|series|), 0, cosine, threshold, now), tb, |series|);
            r.ok && Lumped(r.state, series, |series|)
  {
    hide PairStep, Lumped;
    var step := RowStepper(UpTo(|series|), 0, cosine, threshold, now);
    FoundersLumped(tb, series);
    forall t, j: nat | j < |series| && RowKeeps(t, series, j)
      ensures step(t, j).ok && RowKeeps(step(t, j).state, series, j + 1)
    {
      FirstRowStep(t, series, j, cosine, threshold, now);
    }
    FoldSucceeds(step, tb, |series|, (t, j) => RowKeeps(t, series, j));
  }

  // ----- the other rows

  /** Everything is in cluster 0. */
  ghost predicate OneClass(tb: Tables, series: Workload) {
    && Consistent(tb) && tb.nextId == |series| && 0 in tb.clusters
    && (forall x | x in tb.clusters :: x == 0)
    && (forall i | 0 <= i < |series| :: series[i].0 in tb.clusterOf)
    && (forall x: nat | x < |series| :: Rooted(tb, x))
  }

  ghost predicate Rooted(tb: Tables, x: nat) {
    Known(tb, x) && RootOf(tb, x) == 0
  }

  lemma LumpedOneClass(tb: Tables, series: Workload)
    requires Lumped(tb, series, |series|)
    ensures OneClass(tb, series)
  {
    forall x: nat | x < |series| ensures Rooted(tb, x) {
      assert LumpedAt(tb, series, |series|, x);
    }
  }

  lemma StaysOneClass(tb: Tables, series: Workload, a: nat, b: nat, cosine: Cosine, threshold: real, now: Time)
    requires OneClass(tb, series) && a < |series| && b < |series|
    ensures var r := PairStep(tb, a, b, cosine, threshold, now); r.ok && OneClass(r.state, series)
  {
    assert Rooted(tb, a) && Rooted(tb, b);
    FoundSound(tb, a);
    FoundSound(Found(tb, a), b);
    var searched := Found(Found(tb, a), b);
    forall x: nat | x < |series| ensures Rooted(searched, x) {
      assert Rooted(tb, x);
    }
  }

  lemma LaterRow(tb: Tables, series: Workload, i: nat, cosine: Cosine, threshold: real, now: Time)
    requires OneClass(tb, series)
    ensures var r := Fold(RowStepper(UpTo(|series|), i, cosine, threshold, now), tb, |series|);
            r.ok && OneClass(r.state, series)
  {
    hide PairStep, OneClass;
    var ids := UpTo(|series|);
    var step := RowStepper(ids, i, cosine, threshold, now);
    forall t, j: nat | j < |series| && OneClass(t, series)
      ensures step(t, j).ok && OneClass(step(t, j).state, series)
    {
      if i < j {
        StaysOneClass(t, series, i, j, cosine, threshold, now);
      }
    }
    FoldSucceeds(step, tb, |series|, (t, j) => OneClass(t, series));
  }

  lemma AllLumped(tb: Tables, series: Workload, cosine: Cosine, threshold: real, now: Time)
    requires Founders(tb, series, |series|) && Disjoint(series) && series != [] && threshold <= 0.0
    ensures var r := Mergers(tb, cosine, threshold, now); r.ok && OneClass(r.state, series)
  {
    hide OneClass;
    var ids, first := UpTo(|series|), RowStepper(UpTo(|series|), 0, cosine, threshold, now);
    var rows := RowsStepper(ids, cosine, threshold, now);
    FirstRow(tb, series, cosine, threshold, now);
    var lumped := Fold(first, tb, |series|).state;
    LumpedOneClass(lumped, series);
    forall t, i: nat | i < |series| && RowsKeep(tb, t, series, i)
      ensures rows(t, i).ok && RowsKeep(tb, rows(t, i).state, series, i + 1)
    {
      if i > 0 {
        LaterRow(t, series, i, cosine, threshold, now);
      }
    }
    FoldSucceeds(rows, tb, |series|, (t, i) => RowsKeep(tb, t, series, i));
  }

  ghost predicate RowsKeep(start: Tables, tb: Tables, series: Workload, i: nat) {
    if i == 0 then tb == start else OneClass(tb, series)
  }

  /** So cluster 0 has as many members as there are templates. */
  lemma AllMembers(tb: Tables, series: Workload)
    requires OneClass(tb, series)
    ensures |series| <= |tb.clusters[0].templates|
  {
    var names, templates := Names(series), tb.clusters[0].templates;
    forall i | 0 <= i < |names| ensures names[i] in Elements(templates) {
      AssignedIsLive(tb, names[i]);
      assert Assigned(tb, names[i], 0) && Member(tb, names[i], 0);
    }
    Pigeonhole(names, Elements(templates));
    ElementCount(templates);
  }

  lemma {:induction false} ElementCount(s: seq<Template>)
    ensures |Elements(s)| <= |s|
  {
    if s != [] {
      var n := |s| - 1;
      ElementCount(s[..n]);
      assert Elements(s) == Elements(s[..n]) + {s[n]};
    }
  }

  // ----- such a workload

  function Name(i: nat): Template {
    seq(i, _ => 'q')
  }

  function Own(i: nat): Series {
    map[3 * i := 1.0, 3 * i + 1 := 1.0, 3 * i + 2 := 1.0]
  }

  /** Templates active at different times. */
  function Shifts(n: nat): (series: seq<(Template, Series)>)
    ensures |series| == n && forall i | 0 <= i < n :: series[i] == (Name(i), Own(i))
    ensures forall i, j :: 0 <= i < j < |series| ==> series[i].0 != series[j].0
  {
    seq(n, i requires 0 <= i < n => (Name(i), Own(i)))
  }

  lemma ShiftsApart(n: nat, window: int)
    ensures Disjoint(Shifts(n)) && Ample(Shifts(n), window, window)
  {
    forall i: nat | i < n ensures AmpleSeries(Own(i), window, window) {
      OwnAmple(i, window);
    }
  }

  lemma OwnAmple(i: nat, window: int)
    ensures AmpleSeries(Own(i), window, window)
  {
    assert Own(i).Keys == {3 * i, 3 * i + 1, 3 * i + 2} && Own(i)[3 * i] != 0.0;
  }

  lemma DisjointStrangers(series: Workload, cosine: Cosine, threshold: real)
    requires Disjoint(series)
    ensures Strangers(series, cosine, threshold)
  {
    forall i, j | 0 <= i < j < |series| ensures Unlike(cosine, series[j].1, series[i].1, threshold) {
      NothingInCommon(cosine, series[i].1, series[j].1);
    }
  }

  /** As many templates as the minimum size asks for are lumped together and kept. */
  lemma Lump(cosine: Cosine, p: Parameters)
    requires Proper(cosine) && 1 <= p.minSize && p.similarity <= 1.0 && p.merge <= 0.0
    ensures LeavesSome(Shifts(p.minSize), p.window, cosine, p)
  {
    var series: Workload, now := Shifts(p.minSize), p.window;
    ShiftsApart(p.minSize, p.window);
    DisjointStrangers(series, cosine, p.similarity);
    AmpleSelfSimilar(series, now, cosine, p);
    FoundersEvolve(series, now, cosine, p);
    var tb := Evolved(NO_TABLES, series, now, cosine, p);
    AllLumped(tb, series, cosine, p.merge, now);
    AllMembers(Mergers(tb, cosine, p.merge, now).state, series);
    LargeKept(series, now, cosine, p, 0);
  }

  /**
   No run from empty tables leaves a cluster, whatever the workload, the time and
   the similarities, if and only if the parameters are barren.
   */
  lemma BarrenIff(p: Parameters)
    ensures (forall series: Workload, now: Time, cosine: Cosine | Proper(cosine) ::
               LeavesNone(NO_TABLES, series, now, cosine, p)) <==> Barren(p)
  {
    if Barren(p) {
      assert Consistent(NO_TABLES);
      forall series: Workload, now: Time, cosine: Cosine | Proper(cosine)
        ensures LeavesNone(NO_TABLES, series, now, cosine, p)
      {
        BarrenRun(NO_TABLES, series, now, cosine, p);
      }
    } else {
      var series, cosine := Fruitful(p);
      assert !LeavesNone(NO_TABLES, series, p.window, cosine, p);
    }
  }

  lemma Fruitful(p: Parameters) returns (series: Workload, cosine: Cosine)
    requires !Barren(p)
    ensures Proper(cosine) && LeavesSome(series, p.window, cosine, p)
  {
    hide LeavesSome, Proper;
    cosine := Alike(0.0);
    AlikeProper(0.0);
    if p.minSize <= 0 || (p.minSize == 1 && p.similarity <= 1.0) {
      One(cosine, p);
      series := [("a", STEADY)];
    } else if p.merge <= 0.0 {
      Lump(cosine, p);
      series := Shifts(p.minSize);
    } else if p.similarity <= 0.0 {
      Joiner(cosine, p);
      series := [("a", STEADY), ("b", STEADY)];
    } else {
      Couple(p);
      series, cosine := [("a", EARLY), ("b", LATE)], Alike(p.merge);
    }
  }
}
