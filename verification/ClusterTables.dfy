/**
 The redundant tables of the workload clusterer as one value, what makes them
 consistent, and what each elementary operation does to them.
 */
module ClusterTables {
  import opened Prelude
  import opened UnionFind

  type Template = string
  type Time = int
  type Series = map<Time, real>

  datatype Cluster = Cluster(templates: seq<Template>, hashes: seq<Template>)

  datatype Tables = Tables(
    clusters: map<Id, Cluster>,
    order: seq<Id>,                 // insertion order of `clusters`
    clusterOf: map<Template, Id>,
    centers: map<Id, Series>,
    sizes: map<Id, int>,            // keeps the entries of merged clusters
    parent: map<Id, Id>,
    rank: map<Id, nat>,
    nextId: nat)

  const NO_TABLES := Tables(map[], [], map[], map[], map[], map[], map[], 0)

  // ----- consistency

  ghost predicate OrderOk(tb: Tables) {
    && StrictlyIncreasing(tb.order)
    && (forall c :: c in tb.order <==> c in tb.clusters)
    && forall c | c in tb.clusters :: c < tb.nextId
  }

  /** Both member lists agree, without duplicates, and the recorded size is their length. */
  ghost predicate ClusterOk(tb: Tables, c: Id)
    requires c in tb.clusters
  {
    && tb.clusters[c].templates == tb.clusters[c].hashes
    && NoRepeat(tb.clusters[c].templates)
    && c in tb.sizes && tb.sizes[c] == |tb.clusters[c].templates|
  }

  ghost predicate MembersOk(tb: Tables) {
    tb.centers.Keys == tb.clusters.Keys && forall c | c in tb.clusters :: ClusterOk(tb, c)
  }

  ghost predicate Member(tb: Tables, t: Template, c: Id) {
    c in tb.clusters && t in tb.clusters[c].templates
  }

  ghost predicate Assigned(tb: Tables, t: Template, c: Id) {
    t in tb.clusterOf && tb.clusterOf[t] == c
  }

  /** The map and the member lists describe the same assignment. */
  ghost predicate AssignmentOk(tb: Tables) {
    forall t, c :: Assigned(tb, t, c) <==> Member(tb, t, c)
  }

  ghost predicate IdsOk(tb: Tables) {
    Forest(tb.parent, tb.rank) && forall x: nat :: x in tb.parent <==> x < tb.nextId
  }

  ghost predicate Consistent(tb: Tables) {
    OrderOk(tb) && MembersOk(tb) && AssignmentOk(tb) && IdsOk(tb)
  }

  /** Every live cluster is the representative of its union-find class. */
  ghost predicate LiveAreRoots(tb: Tables) {
    forall c | c in tb.clusters :: c in tb.parent && tb.parent[c] == c
  }

  // ----- elementary operations

  /** The center an update writes: one point, at the current time. */
  function PlaceholderCenter(templates: seq<Template>, now: Time): Series
    requires templates != []
  {
    map[now := (|set t | t in templates| as real) / (|templates| as real)]
  }

  function Recentered(tb: Tables, c: Id, now: Time): Tables
    requires c in tb.clusters
  {
    if tb.clusters[c].templates == [] then tb
    else tb.(centers := tb.centers[c := PlaceholderCenter(tb.clusters[c].templates, now)])
  }

  function Enlisted(tb: Tables, t: Template, c: Id): Tables
    requires c in tb.clusters && c in tb.sizes
  {
    var info := tb.clusters[c];
    var tb' := tb.(clusterOf := tb.clusterOf[t := c]);
    if t in info.templates then tb'
    else tb'.(clusters := tb.clusters[c := Cluster(info.templates + [t], info.hashes + [t])],
              sizes := tb.sizes[c := tb.sizes[c] + 1])
  }

  function Joined(tb: Tables, t: Template, c: Id, now: Time): Tables
    requires c in tb.clusters && c in tb.sizes
  {
    Recentered(Enlisted(tb, t, c), c, now)
  }

  function Created(tb: Tables, t: Template, series: Series): Tables {
    var c := tb.nextId;
    Tables(tb.clusters[c := Cluster([t], [t])], tb.order + [c], tb.clusterOf[t := c], tb.centers[c := series],
           tb.sizes[c := 1], tb.parent[c := c], tb.rank[c := 0], c + 1)
  }

  /** list.remove: drop the first occurrence. */
  function RemoveFirst<T(==)>(s: seq<T>, x: T): seq<T> {
    if s == [] then []
    else if s[0] == x then s[1..]
    else [s[0]] + RemoveFirst(s[1..], x)
  }

  function Departed(tb: Tables, t: Template, c: Id): Tables
    requires c in tb.clusters ==> c in tb.sizes
  {
    if c !in tb.clusters then tb
    else
      var info := tb.clusters[c];
      tb.(clusters := tb.clusters[c := Cluster(RemoveFirst(info.templates, t), RemoveFirst(info.hashes, t))],
          clusterOf := tb.clusterOf - {t},
          sizes := tb.sizes[c := tb.sizes[c] - 1])
  }

  function Except(c: Id): Id -> bool {
    (x: Id) => x != c
  }

  function Elements(s: seq<Template>): set<Template> {
    set t | t in s
  }

  /** Delete a cluster and the assignments of its members. */
  function Dropped(tb: Tables, c: Id): Tables {
    if c !in tb.clusters then tb
    else
      tb.(clusters := tb.clusters - {c},
          order := Filter(Except(c), tb.order),
          clusterOf := tb.clusterOf - Elements(tb.clusters[c].hashes),
          centers := tb.centers - {c},
          sizes := tb.sizes - {c})
  }

  function Reassigned(clusterOf: map<Template, Id>, hashes: seq<Template>, c: Id): map<Template, Id> {
    clusterOf + map t | t in hashes :: c
  }

  /** Move all data of `b` to `a` and delete `b`. */
  function Absorbed(tb: Tables, a: Id, b: Id): Tables
    requires a in tb.clusters && b in tb.clusters && a in tb.sizes && b in tb.sizes
  {
    var ca, cb := tb.clusters[a], tb.clusters[b];
    tb.(clusters := tb.clusters[a := Cluster(ca.templates + cb.templates, ca.hashes + cb.hashes)] - {b},
        order := Filter(Except(b), tb.order),
        clusterOf := Reassigned(tb.clusterOf, cb.hashes, a),
        sizes := tb.sizes[a := tb.sizes[a] + tb.sizes[b]],
        centers := tb.centers - {b})
  }

  function United(tb: Tables, a: Id, b: Id): Tables
    requires a in tb.rank && b in tb.rank
  {
    tb.(parent := Link(tb.parent, tb.rank, a, b).0, rank := Link(tb.parent, tb.rank, a, b).1)
  }

  function Moved(tb: Tables, a: Id, b: Id): Tables
    requires a in tb.rank && b in tb.rank && a != b
    requires a in tb.clusters && b in tb.clusters && a in tb.sizes && b in tb.sizes
  {
    Absorbed(United(tb, a, b), a, b)
  }

  /** The whole merge of two roots. */
  function Merged(tb: Tables, a: Id, b: Id, now: Time): Tables
    requires a in tb.rank && b in tb.rank && a != b
    requires a in tb.clusters && b in tb.clusters && a in tb.sizes && b in tb.sizes
  {
    Recentered(Moved(tb, a, b), a, now)
  }

  // ----- they keep the tables consistent

  lemma {:induction false} RemoveFirstUnique<T>(s: seq<T>, x: T)
    requires NoRepeat(s)
    ensures NoRepeat(RemoveFirst(s, x))
    ensures forall y :: y in RemoveFirst(s, x) <==> y in s && y != x
    ensures |RemoveFirst(s, x)| == if x in s then |s| - 1 else |s|
  {
    if s != [] {
      var rest := s[1..];
      assert s == [s[0]] + rest;
      assert NoRepeat(rest);
      assert s[0] !in rest;
      if s[0] != x {
        RemoveFirstUnique(rest, x);
      }
    }
  }

  lemma {:induction false} ExceptOrder(order: seq<Id>, c: Id)
    requires StrictlyIncreasing(order)
    ensures StrictlyIncreasing(Filter(Except(c), order))
    ensures forall x :: x in Filter(Except(c), order) <==> x in order && x != c
  {
    var at := FilterPositions(Except(c), order);
    forall x
      ensures x in Filter(Except(c), order) <==> x in order && x != c
    {
      FilterMember(Except(c), order, x);
    }
  }

  lemma ConcatUnique<T>(a: seq<T>, b: seq<T>)
    requires NoRepeat(a) && NoRepeat(b) && forall i :: 0 <= i < |a| ==> a[i] !in b
    ensures NoRepeat(a + b)
  {
  }

  lemma JoinedConsistent(tb: Tables, t: Template, c: Id, now: Time)
    requires Consistent(tb) && c in tb.clusters && t !in tb.clusterOf
    ensures c in tb.sizes && Consistent(Joined(tb, t, c, now))
  {
    assert ClusterOk(tb, c);
    EnlistedConsistent(tb, t, c);
    RecenteredConsistent(Enlisted(tb, t, c), c, now);
  }

  lemma EnlistedConsistent(tb: Tables, t: Template, c: Id)
    requires Consistent(tb) && c in tb.clusters && c in tb.sizes && t !in tb.clusterOf
    ensures Consistent(Enlisted(tb, t, c))
  {
    assert ClusterOk(tb, c);
    assert !Assigned(tb, t, c) && !Member(tb, t, c);
    var tb' := Enlisted(tb, t, c);
    var templates := tb.clusters[c].templates + [t];
    assert tb'.clusters == tb.clusters[c := Cluster(templates, templates)];
    forall x | x in tb'.clusters
      ensures ClusterOk(tb', x)
    {
      assert ClusterOk(tb, x);
    }
    EnlistedAssignment(tb, tb', t, c, templates);
  }

  lemma EnlistedAssignment(tb: Tables, tb': Tables, t: Template, c: Id, templates: seq<Template>)
    requires AssignmentOk(tb) && c in tb.clusters && t !in tb.clusterOf && templates == tb.clusters[c].templates + [t]
    requires tb'.clusterOf == tb.clusterOf[t := c]
    requires tb'.clusters == tb.clusters[c := Cluster(templates, templates)]
    ensures AssignmentOk(tb')
  {
    forall u, x
      ensures Assigned(tb', u, x) <==> Member(tb', u, x)
    {
      assert Assigned(tb, u, x) <==> Member(tb, u, x);
    }
  }

  lemma CreatedConsistent(tb: Tables, t: Template, series: Series)
    requires Consistent(tb) && t !in tb.clusterOf
    ensures Consistent(Created(tb, t, series))
  {
    var tb', c := Created(tb, t, series), tb.nextId;
    assert c !in tb.clusters;
    CreatedIds(tb, t, series);
    forall x | x in tb'.clusters
      ensures ClusterOk(tb', x)
    {
      if x != c {
        assert ClusterOk(tb, x);
      }
    }
    forall u, x
      ensures Assigned(tb', u, x) <==> Member(tb', u, x)
    {
      assert Assigned(tb, u, x) <==> Member(tb, u, x);
    }
  }

  lemma CreatedIds(tb: Tables, t: Template, series: Series)
    requires Consistent(tb)
    ensures IdsOk(Created(tb, t, series)) && OrderOk(Created(tb, t, series))
  {
    var tb', c := Created(tb, t, series), tb.nextId;
    forall x | x in tb'.parent
      ensures Climbs(tb'.parent, tb'.rank, x)
    {
      if x != c {
        assert Climbs(tb.parent, tb.rank, x);
      }
    }
    forall i | 0 <= i < |tb.order|
      ensures tb.order[i] < c
    {
      assert tb.order[i] in tb.order;
    }
  }

  lemma DepartedConsistent(tb: Tables, t: Template, c: Id)
    requires Consistent(tb) && c in tb.clusters && Assigned(tb, t, c)
    ensures c in tb.sizes && Consistent(Departed(tb, t, c))
  {
    assert ClusterOk(tb, c) && Member(tb, t, c);
    var tb' := Departed(tb, t, c);
    RemoveFirstUnique(tb.clusters[c].templates, t);
    forall x | x in tb'.clusters
      ensures ClusterOk(tb', x)
    {
      assert ClusterOk(tb, x);
    }
    forall u, x
      ensures Assigned(tb', u, x) <==> Member(tb', u, x)
    {
      assert Assigned(tb, u, x) <==> Member(tb, u, x);
      assert Assigned(tb, u, c) <==> Member(tb, u, c);
    }
  }

  lemma DroppedConsistent(tb: Tables, c: Id)
    requires Consistent(tb)
    ensures Consistent(Dropped(tb, c))
  {
    if c in tb.clusters {
      var tb' := Dropped(tb, c);
      ExceptOrder(tb.order, c);
      assert ClusterOk(tb, c);
      forall x | x in tb'.clusters
        ensures ClusterOk(tb', x)
      {
        assert ClusterOk(tb, x);
      }
      forall u, x
        ensures Assigned(tb', u, x) <==> Member(tb', u, x)
      {
        assert Assigned(tb, u, x) <==> Member(tb, u, x);
        assert Assigned(tb, u, c) <==> Member(tb, u, c);
      }
    }
  }

  lemma RecenteredConsistent(tb: Tables, c: Id, now: Time)
    requires Consistent(tb) && c in tb.clusters
    ensures Consistent(Recentered(tb, c, now))
  {
    var tb' := Recentered(tb, c, now);
    forall x | x in tb'.clusters
      ensures ClusterOk(tb', x)
    {
      assert ClusterOk(tb, x);
    }
    forall u, x
      ensures Assigned(tb', u, x) <==> Member(tb', u, x)
    {
      assert Assigned(tb, u, x) <==> Member(tb, u, x);
    }
  }

  /** Changing only parents and ranks, to another forest over the same ids, keeps the tables consistent. */
  lemma RelinkedConsistent(before: Tables, after: Tables)
    requires Consistent(before) && after == before.(parent := after.parent, rank := after.rank)
    requires Forest(after.parent, after.rank) && after.parent.Keys == before.parent.Keys
    ensures Consistent(after)
  {
    forall c | c in after.clusters
      ensures ClusterOk(after, c)
    {
      assert ClusterOk(before, c);
    }
    forall t, c
      ensures Assigned(after, t, c) <==> Member(after, t, c)
    {
      assert Assigned(before, t, c) <==> Member(before, t, c);
    }
  }

  lemma MergedConsistent(tb: Tables, a: Id, b: Id, now: Time)
    requires Consistent(tb) && a in tb.clusters && b in tb.clusters && a != b
    requires a in tb.parent && b in tb.parent && tb.parent[a] == a && tb.parent[b] == b
    ensures a in tb.rank && b in tb.rank && a in tb.sizes && b in tb.sizes
    ensures Consistent(Merged(tb, a, b, now))
    ensures Merged(tb, a, b, now).clusterOf.Keys == tb.clusterOf.Keys
    ensures Merged(tb, a, b, now).clusters.Keys == tb.clusters.Keys - {b}
  {
    assert ClusterOk(tb, a) && ClusterOk(tb, b);
    LinkIsForest(tb.parent, tb.rank, a, b);
    RelinkedConsistent(tb, United(tb, a, b));
    AbsorbedConsistent(United(tb, a, b), a, b);
    RecenteredConsistent(Moved(tb, a, b), a, now);
  }

  lemma AbsorbedConsistent(tb: Tables, a: Id, b: Id)
    requires Consistent(tb) && a in tb.clusters && b in tb.clusters && a != b
    requires a in tb.sizes && b in tb.sizes
    ensures Consistent(Absorbed(tb, a, b))
    ensures Absorbed(tb, a, b).clusterOf.Keys == tb.clusterOf.Keys
    ensures Absorbed(tb, a, b).clusters.Keys == tb.clusters.Keys - {b}
  {
    ExceptOrder(tb.order, b);
    AbsorbedMembers(tb, a, b);
    AbsorbedAssignment(tb, a, b);
  }

  lemma AbsorbedMembers(tb: Tables, a: Id, b: Id)
    requires Consistent(tb) && a in tb.clusters && b in tb.clusters && a != b
    requires a in tb.sizes && b in tb.sizes
    ensures MembersOk(Absorbed(tb, a, b))
  {
    var tb' := Absorbed(tb, a, b);
    var ta, u := tb.clusters[a].templates, tb.clusters[b].templates;
    assert ClusterOk(tb, a) && ClusterOk(tb, b);
    forall i | 0 <= i < |ta|
      ensures ta[i] !in u
    {
      assert Member(tb, ta[i], a) && Assigned(tb, ta[i], a) && !Assigned(tb, ta[i], b);
      assert !Member(tb, ta[i], b);
    }
    ConcatUnique(ta, u);
    forall x | x in tb'.clusters
      ensures ClusterOk(tb', x)
    {
      assert ClusterOk(tb, x);
    }
  }

  lemma AbsorbedAssignment(tb: Tables, a: Id, b: Id)
    requires Consistent(tb) && a in tb.clusters && b in tb.clusters && a != b
    requires a in tb.sizes && b in tb.sizes
    ensures AssignmentOk(Absorbed(tb, a, b))
    ensures Absorbed(tb, a, b).clusterOf.Keys == tb.clusterOf.Keys
  {
    var tb' := Absorbed(tb, a, b);
    assert ClusterOk(tb, a) && ClusterOk(tb, b);
    forall t, x
      ensures Assigned(tb', t, x) <==> Member(tb', t, x)
    {
      assert Assigned(tb, t, b) <==> Member(tb, t, b);
      if x == a {
        assert Assigned(tb, t, a) <==> Member(tb, t, a);
      } else {
        assert Assigned(tb, t, x) <==> Member(tb, t, x);
      }
    }
    forall t | t in tb.clusters[b].hashes
      ensures t in tb.clusterOf
    {
      assert Member(tb, t, b) && Assigned(tb, t, b);
    }
  }

  /**
   After a merge every live cluster is still its own root exactly when the
   cluster that keeps the data did not have the lower rank: the data always
   goes to the first root, but the union makes the higher-ranked one the root.
   */
  lemma MergedRootsIff(tb: Tables, a: Id, b: Id, now: Time)
    requires Consistent(tb) && LiveAreRoots(tb) && a in tb.clusters && b in tb.clusters && a != b
    ensures a in tb.rank && b in tb.rank && a in tb.sizes && b in tb.sizes
    ensures LiveAreRoots(Merged(tb, a, b, now)) <==> tb.rank[a] >= tb.rank[b]
  {
    assert ClusterOk(tb, a) && ClusterOk(tb, b);
    MergedShape(tb, a, b, now);
    RootsAfterLink(tb.clusters.Keys, tb.parent, tb.rank, a, b);
    assert Merged(tb, a, b, now).parent == Link(tb.parent, tb.rank, a, b).0;
  }

  lemma RootsAfterLink(live: set<Id>, parent: map<Id, Id>, rank: map<Id, nat>, a: Id, b: Id)
    requires a in live && b in live && a != b && a in rank && b in rank
    requires forall c | c in live :: c in parent && parent[c] == c
    ensures (forall c | c in live - {b} :: c in Link(parent, rank, a, b).0 && Link(parent, rank, a, b).0[c] == c)
       <==> rank[a] >= rank[b]
  {
    assert a in live - {b};
  }

  lemma MergedShape(tb: Tables, a: Id, b: Id, now: Time)
    requires a in tb.rank && b in tb.rank && a != b
    requires a in tb.clusters && b in tb.clusters && a in tb.sizes && b in tb.sizes
    requires a in tb.parent && b in tb.parent && tb.parent[a] == a && tb.parent[b] == b
    ensures var tb' := Merged(tb, a, b, now);
            && tb'.clusters.Keys == tb.clusters.Keys - {b}
            && (tb'.parent, tb'.rank) == Link(tb.parent, tb.rank, a, b)
            && tb'.nextId == tb.nextId
  {
    var tb' := Merged(tb, a, b, now);
    assert tb'.clusters == Moved(tb, a, b).clusters;
  }
}
