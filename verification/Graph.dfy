/** Directed graphs of identifiers: paths, bounded depth and topological order. */
module Graph {
  import opened Bytes

  type Edges = map<Id, seq<Id>>

  /** There is a path of k edges from a to b. */
  ghost predicate PathOf(g: Edges, a: Id, b: Id, k: nat)
    decreases k
  {
    if k == 0 then a == b
    else a in g && exists c <- g[a] :: PathOf(g, c, b, k - 1)
  }

  /** There is a path of at least one edge. */
  ghost predicate Leads(g: Edges, a: Id, b: Id) {
    exists k: nat :: k > 0 && PathOf(g, a, b, k)
  }

  ghost predicate Reaches(g: Edges, a: Id, b: Id) {
    exists k: nat :: PathOf(g, a, b, k)
  }

  ghost predicate ReachedFrom(g: Edges, roots: seq<Id>, b: Id) {
    exists a <- roots :: Reaches(g, a, b)
  }

  ghost predicate Closed(g: Edges) {
    forall a, c :: a in g && c in g[a] ==> c in g
  }

  ghost predicate Acyclic(g: Edges) {
    forall a :: !Leads(g, a, a)
  }

  // ---- paths ----

  lemma {:induction false} PathExtends(g: Edges, a: Id, b: Id, c: Id, k: nat)
    requires PathOf(g, a, b, k) && b in g && c in g[b]
    ensures PathOf(g, a, c, k + 1)
    decreases k
  {
    if k == 0 {
      assert PathOf(g, c, c, 0);
    } else {
      var d :| d in g[a] && PathOf(g, d, b, k - 1);
      PathExtends(g, d, b, c, k - 1);
    }
  }

  lemma LeadsExtends(g: Edges, a: Id, b: Id, c: Id)
    requires Reaches(g, a, b) && b in g && c in g[b]
    ensures Leads(g, a, c)
  {
    var k: nat :| PathOf(g, a, b, k);
    PathExtends(g, a, b, c, k);
  }

  lemma LeadsIsReaches(g: Edges, a: Id, b: Id)
    requires Leads(g, a, b)
    ensures Reaches(g, a, b)
  {
  }

  lemma ReachesSelf(g: Edges, a: Id)
    ensures Reaches(g, a, a)
  {
    assert PathOf(g, a, a, 0);
  }

  lemma ReachesBefore(g: Edges, a: Id, c: Id, b: Id)
    requires a in g && c in g[a] && Reaches(g, c, b)
    ensures Reaches(g, a, b)
  {
    var k: nat :| PathOf(g, c, b, k);
    assert PathOf(g, a, b, k + 1);
  }

  // ---- bounded depth ----

  /** Every path from `a` stays in the graph and has at most n records. */
  ghost predicate Short(g: Edges, a: Id, n: nat)
    decreases n
  {
    n > 0 && a in g && forall c <- g[a] :: Short(g, c, n - 1)
  }

  lemma {:induction false} ShortAlong(g: Edges, a: Id, b: Id, k: nat, n: nat)
    requires Short(g, a, n) && PathOf(g, a, b, k)
    ensures k < n && Short(g, b, n - k)
    decreases k
  {
    if k > 0 {
      var c :| c in g[a] && PathOf(g, c, b, k - 1);
      ShortAlong(g, c, b, k - 1, n - 1);
    }
  }

  ghost predicate PathsWithin(g: Edges, a: Id, n: nat) {
    forall b: Id, k: nat :: PathOf(g, a, b, k) ==> k < n && b in g
  }

  /** `Short` in terms of paths. */
  lemma {:induction false} ShortMeansPaths(g: Edges, a: Id, n: nat)
    ensures Short(g, a, n) <==> PathsWithin(g, a, n)
    decreases n
  {
    if Short(g, a, n) {
      forall b: Id, k: nat | PathOf(g, a, b, k)
        ensures k < n && b in g
      {
        ShortAlong(g, a, b, k, n);
      }
    }
    if PathsWithin(g, a, n) {
      assert PathOf(g, a, a, 0);
      forall c | c in g[a]
        ensures Short(g, c, n - 1)
      {
        PathsFromChild(g, a, c, n);
        ShortMeansPaths(g, c, n - 1);
      }
    }
  }

  lemma PathsFromChild(g: Edges, a: Id, c: Id, n: nat)
    requires PathsWithin(g, a, n) && a in g && c in g[a] && n > 0
    ensures PathsWithin(g, c, n - 1)
  {
    forall b: Id, k: nat | PathOf(g, c, b, k)
      ensures k < n - 1 && b in g
    {
      assert PathOf(g, a, b, k + 1);
    }
  }

  /** Nothing of bounded depth lies on a cycle. */
  lemma {:induction false} ShortIsAcyclic(g: Edges, a: Id, n: nat)
    requires Short(g, a, n)
    ensures !Leads(g, a, a)
    decreases n
  {
    if Leads(g, a, a) {
      var k: nat :| k > 0 && PathOf(g, a, a, k);
      ShortAlong(g, a, a, k, n);
      ShortIsAcyclic(g, a, n - k);
    }
  }

  // ---- topological order ----

  /** Identifiers in an order in which what each refers to comes before it. */
  ghost predicate Ordered(g: Edges, order: seq<Id>) {
    && (forall i, j :: 0 <= i < j < |order| ==> order[i] != order[j])
    && forall i :: 0 <= i < |order| ==> order[i] in g && AllBefore(g[order[i]], order[..i])
  }

  predicate AllBefore(ids: seq<Id>, order: seq<Id>) {
    forall c <- ids :: c in order
  }

  lemma OrderedGrows(g: Edges, order: seq<Id>, id: Id)
    requires Ordered(g, order) && id !in order && id in g && AllBefore(g[id], order)
    ensures Ordered(g, order + [id])
  {
    var all := order + [id];
    forall i | 0 <= i < |all|
      ensures all[i] in g && AllBefore(g[all[i]], all[..i])
    {
      if i < |order| {
        assert all[..i] == order[..i];
      } else {
        assert all[..i] == order;
      }
    }
  }

  /** A path from an ordered record goes back in the order. */
  lemma {:induction false} PathGoesBack(g: Edges, order: seq<Id>, i: nat, b: Id, k: nat) returns (j: nat)
    requires Ordered(g, order) && i < |order| && PathOf(g, order[i], b, k)
    ensures j <= i && order[j] == b && (k > 0 ==> j < i)
    decreases k
  {
    hide Ordered;
    j := i;
    if k > 0 {
      var c :| c in g[order[i]] && PathOf(g, c, b, k - 1);
      j := IndexBefore(g, order, i, c);
      j := PathGoesBack(g, order, j, b, k - 1);
    }
  }

  lemma IndexBefore(g: Edges, order: seq<Id>, i: nat, c: Id) returns (j: nat)
    requires Ordered(g, order) && i < |order| && c in g[order[i]]
    ensures j < i && order[j] == c
  {
    assert c in order[..i];
    j :| 0 <= j < i && order[..i][j] == c;
  }

  /** A graph that can be put in such an order is closed and has no cycle. */
  lemma OrderedIsAcyclic(g: Edges, order: seq<Id>)
    requires Ordered(g, order) && forall a :: a in g ==> a in order
    ensures Closed(g) && Acyclic(g)
  {
    forall a, c | a in g && c in g[a]
      ensures c in g
    {
      var i :| 0 <= i < |order| && order[i] == a;
      assert c in order[..i];
    }
    forall a
      ensures !Leads(g, a, a)
    {
      if Leads(g, a, a) {
        var k: nat :| k > 0 && PathOf(g, a, a, k);
        assert a in g;
        var i :| 0 <= i < |order| && order[i] == a;
        var j := PathGoesBack(g, order, i, a, k);
      }
    }
  }
}
