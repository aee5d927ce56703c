/** Union-find over cluster ids, with ranks and path compression. */
module UnionFind {
  type Id = nat

  /** The parent of `x` is a known id, of higher rank unless `x` is a root. */
  ghost predicate Climbs(parent: map<Id, Id>, rank: map<Id, nat>, x: Id)
    requires parent.Keys == rank.Keys && x in parent
  {
    parent[x] in parent && (parent[x] != x ==> rank[x] < rank[parent[x]])
  }

  /** Parents and ranks cover the same ids, and rank grows strictly towards the root. */
  ghost predicate Forest(parent: map<Id, Id>, rank: map<Id, nat>) {
    && parent.Keys == rank.Keys
    && forall x {:trigger Climbs(parent, rank, x)} | x in parent :: Climbs(parent, rank, x)
  }

  /** The ids a search from `x` can still climb through. */
  ghost function Above(rank: map<Id, nat>, x: Id): set<Id>
    requires x in rank
  {
    set y | y in rank && rank[x] < rank[y]
  }

  lemma AboveShrinks(parent: map<Id, Id>, rank: map<Id, nat>, x: Id)
    requires Forest(parent, rank) && x in parent && parent[x] != x
    ensures parent[x] in rank && Above(rank, parent[x]) < Above(rank, x)
  {
    assert Climbs(parent, rank, x);
    assert parent[x] in Above(rank, x) && parent[x] !in Above(rank, parent[x]);
  }

  /** The representative of `x`; the climb ends because ranks increase. */
  ghost function Root(parent: map<Id, Id>, rank: map<Id, nat>, x: Id): (root: Id)
    requires Forest(parent, rank) && x in parent
    ensures root in parent && parent[root] == root
    decreases Above(rank, x)
  {
    if parent[x] == x then x
    else
      AboveShrinks(parent, rank, x);
      Root(parent, rank, parent[x])
  }

  lemma {:induction false} RootRank(parent: map<Id, Id>, rank: map<Id, nat>, x: Id)
    requires Forest(parent, rank) && x in parent
    ensures var root := Root(parent, rank, x);
            rank[x] <= rank[root] && (x != root ==> rank[x] < rank[root])
    decreases Above(rank, x)
  {
    if parent[x] != x {
      AboveShrinks(parent, rank, x);
      assert Climbs(parent, rank, x);
      RootRank(parent, rank, parent[x]);
    }
  }

  lemma CompressIsForest(parent: map<Id, Id>, rank: map<Id, nat>, x: Id)
    requires Forest(parent, rank) && x in parent
    ensures Forest(parent[x := Root(parent, rank, x)], rank)
  {
    RootRank(parent, rank, x);
    var parent' := parent[x := Root(parent, rank, x)];
    forall y | y in parent'
      ensures Climbs(parent', rank, y)
    {
      assert Climbs(parent, rank, y);
    }
  }

  /** Pointing an id straight at its representative changes no representative. */
  lemma {:induction false} CompressKeepsRoots(parent: map<Id, Id>, rank: map<Id, nat>, x: Id, y: Id)
    requires Forest(parent, rank) && x in parent && y in parent
    requires Forest(parent[x := Root(parent, rank, x)], rank)
    ensures Root(parent[x := Root(parent, rank, x)], rank, y) == Root(parent, rank, y)
    decreases Above(rank, y)
  {
    if parent[y] != y {
      AboveShrinks(parent, rank, y);
      CompressKeepsRoots(parent, rank, x, parent[y]);
    }
  }

  /** What a search with path compression leaves: every id it climbs through points straight at the representative. */
  ghost function Compress(parent: map<Id, Id>, rank: map<Id, nat>, x: Id): map<Id, Id>
    requires Forest(parent, rank) && x in parent
    decreases Above(rank, x)
  {
    if parent[x] == x then parent
    else
      AboveShrinks(parent, rank, x);
      Compress(parent, rank, parent[x])[x := Root(parent, rank, x)]
  }

  lemma {:induction false} CompressSound(parent: map<Id, Id>, rank: map<Id, nat>, x: Id)
    requires Forest(parent, rank) && x in parent
    ensures Forest(Compress(parent, rank, x), rank) && Compress(parent, rank, x).Keys == parent.Keys
    ensures forall y | y in parent :: Root(Compress(parent, rank, x), rank, y) == Root(parent, rank, y)
    decreases Above(rank, x)
  {
    if parent[x] != x {
      AboveShrinks(parent, rank, x);
      CompressSound(parent, rank, parent[x]);
      var parent' := Compress(parent, rank, parent[x]);
      CompressIsForest(parent', rank, x);
      forall y | y in parent ensures Root(parent'[x := Root(parent', rank, x)], rank, y) == Root(parent, rank, y) {
        CompressKeepsRoots(parent', rank, x, y);
      }
    }
  }

  /** Union by rank of two distinct roots. */
  function Link(parent: map<Id, Id>, rank: map<Id, nat>, a: Id, b: Id): (map<Id, Id>, map<Id, nat>)
    requires a in rank && b in rank
  {
    if rank[a] < rank[b] then (parent[a := b], rank)
    else if rank[a] > rank[b] then (parent[b := a], rank)
    else (parent[b := a], rank[a := rank[a] + 1])
  }

  /** The root that a union leaves. */
  function Winner(rank: map<Id, nat>, a: Id, b: Id): Id
    requires a in rank && b in rank
  {
    if rank[a] < rank[b] then b else a
  }

  lemma LinkIsForest(parent: map<Id, Id>, rank: map<Id, nat>, a: Id, b: Id)
    requires Forest(parent, rank) && a in parent && b in parent && a != b
    requires parent[a] == a && parent[b] == b
    ensures Forest(Link(parent, rank, a, b).0, Link(parent, rank, a, b).1)
  {
    var (parent', rank') := Link(parent, rank, a, b);
    forall y | y in parent'
      ensures Climbs(parent', rank', y)
    {
      assert Climbs(parent, rank, y);
    }
  }

  /** A union joins exactly the two classes. */
  lemma {:induction false} LinkRoots(parent: map<Id, Id>, rank: map<Id, nat>, a: Id, b: Id, y: Id)
    requires Forest(parent, rank) && a in parent && b in parent && a != b && y in parent
    requires parent[a] == a && parent[b] == b
    requires Forest(Link(parent, rank, a, b).0, Link(parent, rank, a, b).1)
    ensures Root(Link(parent, rank, a, b).0, Link(parent, rank, a, b).1, y) ==
            var root := Root(parent, rank, y);
            if root == a || root == b then Winner(rank, a, b) else root
    decreases Above(rank, y)
  {
    if parent[y] != y {
      AboveShrinks(parent, rank, y);
      LinkRoots(parent, rank, a, b, parent[y]);
    }
  }
}
