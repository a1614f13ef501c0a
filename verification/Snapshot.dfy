/** Complete snapshots: the record graph below a root document. */
module Snapshot {
  import opened Bytes
  import opened Results
  import opened Sorting
  import opened Cbor
  import opened Fields
  import opened Records
  import opened Model
  import opened Typed
  import opened Graph
  import Chunk

  /** The libraries a snapshot is checked with. */
  datatype Tools = Tools(env: Chunk.Env, sha: seq<u8> -> Hash, invertible: Invertible)

  datatype Snapshot = Snapshot(
    root: Record,
    records: map<Id, Record>,
    chunks: map<Id, seq<u8>>,
    resources: map<Hash, seq<u8>>)
  {
    function Get(id: Id): (r: Result<Record>) {
      if id in records then Ok(records[id]) else Err(InvalidData)
    }

    /** Which record refers to which. */
    function Graph(): (g: Edges)
      ensures g.Keys == records.Keys && forall id <- g :: g[id] == records[id].dependencies
    {
      map id <- records :: records[id].dependencies
    }

    // ---- checks on one record and those it refers to ----

    predicate StrokeAt(id: Id, objectId: Id, tools: Tools) {
      && Get(id).Ok?
      && var stroke := StrokeOf(records[id], tools.invertible);
         stroke.Ok? && stroke.value.id == objectId
    }

    predicate PageOk(r: Record, tools: Tools) {
      var page := PageOf(r);
      && page.Ok? && page.value.recognition == [] && page.value.corrections == []
      && forall i :: 0 <= i < |page.value.objects| ==>
           StrokeAt(page.value.objects[i].recordId, page.value.objects[i].objectId, tools)
    }

    predicate StrokeOk(r: Record, tools: Tools) {
      var stroke := StrokeOf(r, tools.invertible);
      && stroke.Ok?
      && Get(stroke.value.geometry).Ok? && GeometryOf(records[stroke.value.geometry]).Ok?
      && Get(stroke.value.brush).Ok? && BrushOf(records[stroke.value.brush]).Ok?
    }

    predicate SessionAt(id: Id, profile: SourceProfile) {
      && Get(id).Ok?
      && var session := SessionOf(records[id]);
         session.Ok? && profile.tickNs == Some(session.value.tickNs)
    }

    predicate GeometryOk(r: Record) {
      var geometry := GeometryOf(r);
      && geometry.Ok?
      && Get(geometry.value.profile).Ok?
      && var profile := SourceProfileOf(records[geometry.value.profile]);
         profile.Ok?
         && (geometry.value.timing.Some? ==> SessionAt(geometry.value.timing.value.session, profile.value))
    }

    predicate BodyOk(r: Record, tools: Tools) {
      if r.kind == PAGE then PageOk(r, tools)
      else if r.kind == STROKE then StrokeOk(r, tools)
      else if r.kind == GEOMETRY then GeometryOk(r)
      else if r.kind == SOURCE_PROFILE then SourceProfileOf(r).Ok?
      else if r.kind == BRUSH then BrushOf(r).Ok?
      else if r.kind == SESSION then SessionOf(r).Ok?
      else false
    }

    /** What a visit checks of a record itself. */
    predicate RecordOk(id: Id, tools: Tools) {
      && id in records
      && (forall i :: 0 <= i < |records[id].resources| ==> records[id].resources[i] in resources)
      && BodyOk(records[id], tools)
    }
  }

  // ---- the walk ----

  const DEPTH: nat := 64

  ghost function Elements(order: seq<Id>): (ids: set<Id>) {
    set id <- order
  }

  /** The records visited so far were finished in this order and are fine. */
  ghost predicate Finished(s: Snapshot, tools: Tools, visited: set<Id>, order: seq<Id>) {
    && Ordered(s.Graph(), order) && visited == Elements(order)
    && forall id <- visited :: s.RecordOk(id, tools)
  }

  ghost predicate AllOkFrom(s: Snapshot, tools: Tools, id: Id) {
    forall b :: Reaches(s.Graph(), id, b) ==> s.RecordOk(b, tools)
  }

  /** Everything below `id` is fine and close enough for a visit at this depth. */
  ghost predicate Visitable(s: Snapshot, tools: Tools, id: Id, depth: nat) {
    depth <= DEPTH && Short(s.Graph(), id, DEPTH + 1 - depth) && AllOkFrom(s, tools, id)
  }

  ghost predicate AllLead(s: Snapshot, active: set<Id>, id: Id) {
    forall a <- active :: Leads(s.Graph(), a, id)
  }

  lemma VisitableSelf(s: Snapshot, tools: Tools, id: Id, depth: nat, active: set<Id>)
    requires Visitable(s, tools, id, depth) && AllLead(s, active, id)
    ensures id !in active && s.RecordOk(id, tools)
  {
    ReachesSelf(s.Graph(), id);
    ShortIsAcyclic(s.Graph(), id, DEPTH + 1 - depth);
  }

  lemma VisitableChild(s: Snapshot, tools: Tools, id: Id, depth: nat, active: set<Id>, c: Id)
    requires Visitable(s, tools, id, depth) && AllLead(s, active, id) && c in s.Graph()[id]
    ensures Visitable(s, tools, c, depth + 1) && AllLead(s, active + {id}, c)
  {
    hide Snapshot.RecordOk;
    var g := s.Graph();
    ReachesSelf(g, id);
    assert Short(g, c, DEPTH + 1 - depth - 1);
    assert AllOkFrom(s, tools, c) by {
      forall b | Reaches(g, c, b)
        ensures s.RecordOk(b, tools)
      {
        ReachesBefore(g, id, c, b);
      }
    }
    forall a | a in active + {id}
      ensures Leads(g, a, c)
    {
      if a == id {
        ReachesSelf(g, a);
      } else {
        LeadsIsReaches(g, a, id);
      }
      LeadsExtends(g, a, id, c);
    }
  }

  ghost predicate NewReached(s: Snapshot, before: set<Id>, after: set<Id>, id: Id) {
    forall b <- after :: b !in before ==> Reaches(s.Graph(), id, b)
  }

  lemma VisitableDepth(s: Snapshot, tools: Tools, id: Id, depth: nat)
    requires Visitable(s, tools, id, depth)
    ensures depth <= DEPTH
  {
  }

  lemma RecordOkPresent(s: Snapshot, tools: Tools, id: Id)
    requires s.RecordOk(id, tools)
    ensures id in s.records
  {
  }

  /** A record whose children are all finished can be finished. */
  lemma Finish(s: Snapshot, tools: Tools, id: Id, visited: set<Id>, order: seq<Id>)
    requires Finished(s, tools, visited, order) && id !in visited && s.RecordOk(id, tools) && id in s.records
    requires forall c <- s.records[id].dependencies :: c in visited
    ensures Finished(s, tools, visited + {id}, order + [id])
  {
    hide Snapshot.RecordOk, Ordered;
    OrderedGrows(s.Graph(), order, id);
  }

  /** What the loop over a record's dependencies keeps. */
  ghost predicate Visiting(s: Snapshot, tools: Tools, id: Id, k: nat, before: set<Id>, visited: set<Id>,
                           active: set<Id>, order: seq<Id>)
    requires id in s.records && k <= |s.records[id].dependencies|
  {
    && Finished(s, tools, visited, order) && visited !! active && before <= visited
    && (forall i :: 0 <= i < k ==> s.records[id].dependencies[i] in visited)
    && NewReached(s, before, visited, id)
  }

  lemma VisitedChild(s: Snapshot, tools: Tools, id: Id, k: nat, before: set<Id>, visited: set<Id>, active: set<Id>,
                     order: seq<Id>, visited': set<Id>, order': seq<Id>)
    requires id in s.records && k < |s.records[id].dependencies|
    requires Visiting(s, tools, id, k, before, visited, active, order)
    requires var c := s.records[id].dependencies[k];
             Finished(s, tools, visited', order') && visited' !! active && c in visited' && visited <= visited'
             && NewReached(s, visited, visited', c)
    ensures Visiting(s, tools, id, k + 1, before, visited', active, order')
  {
    hide Finished;
    var c := s.records[id].dependencies[k];
    assert id in s.Graph() && c in s.Graph()[id];
    forall b | b in visited' && b !in before
      ensures Reaches(s.Graph(), id, b)
    {
      if b !in visited {
        ReachesBefore(s.Graph(), id, c, b);
      }
    }
  }

  /** Depth-first search from one record. On success everything below the record is
      finished; and a visit at a depth that leaves room for every path succeeds. */
  method Visit(s: Snapshot, tools: Tools, id: Id, visited: set<Id>, active: set<Id>, depth: nat, ghost order: seq<Id>)
    returns (ok: bool, visited': set<Id>, active': set<Id>, ghost order': seq<Id>)
    requires Finished(s, tools, visited, order) && visited !! active && depth <= DEPTH + 1
    ensures ok ==> Finished(s, tools, visited', order') && visited' !! active' && active' == active
    ensures ok ==> id in visited' && visited <= visited' && NewReached(s, visited, visited', id)
    ensures Visitable(s, tools, id, depth) && AllLead(s, active, id) ==> ok
    decreases DEPTH + 1 - depth
  {
    hide Snapshot.RecordOk, Visitable, AllLead, Finished, Visiting;
    visited', active', order' := visited, active, order;
    if id in visited {
      return true, visited', active', order';
    }
    ghost var expected := Visitable(s, tools, id, depth) && AllLead(s, active, id);
    if expected {
      VisitableSelf(s, tools, id, depth, active);
      VisitableDepth(s, tools, id, depth);
    }
    if depth > DEPTH || id in active || !s.RecordOk(id, tools) {
      return false, visited', active', order';
    }
    active' := active' + {id};
    RecordOkPresent(s, tools, id);
    var children := s.records[id].dependencies;
    assert Visiting(s, tools, id, 0, visited, visited', active', order') by {
      StartVisiting(s, tools, id, visited, active', order');
    }
    for k := 0 to |children|
      invariant Visiting(s, tools, id, k, visited, visited', active', order')
      invariant active' == active + {id}
    {
      if expected {
        VisitableChild(s, tools, id, depth, active, children[k]);
      }
      ghost var before, orderBefore := visited', order';
      VisitingFinished(s, tools, id, k, visited, visited', active', order');
      ok, visited', active', order' := Visit(s, tools, children[k], visited', active', depth + 1, order');
      if !ok {
        return;
      }
      VisitedChild(s, tools, id, k, visited, before, active', orderBefore, visited', order');
    }
    DoneVisiting(s, tools, id, visited, visited', active', order');
    active' := active' - {id};
    visited' := visited' + {id};
    order' := order' + [id];
    ok := true;
  }

  lemma StartVisiting(s: Snapshot, tools: Tools, id: Id, visited: set<Id>, active: set<Id>, order: seq<Id>)
    requires Finished(s, tools, visited, order) && visited !! active && id in s.records
    ensures Visiting(s, tools, id, 0, visited, visited, active, order)
  {
  }

  lemma VisitingFinished(s: Snapshot, tools: Tools, id: Id, k: nat, before: set<Id>, visited: set<Id>,
                         active: set<Id>, order: seq<Id>)
    requires id in s.records && k <= |s.records[id].dependencies|
    requires Visiting(s, tools, id, k, before, visited, active, order)
    ensures Finished(s, tools, visited, order) && visited !! active
  {
  }

  lemma DoneVisiting(s: Snapshot, tools: Tools, id: Id, before: set<Id>, visited: set<Id>, active: set<Id>, order: seq<Id>)
    requires id in s.records && s.RecordOk(id, tools) && id in active
    requires Visiting(s, tools, id, |s.records[id].dependencies|, before, visited, active, order)
    ensures Finished(s, tools, visited + {id}, order + [id]) && visited !! active
    ensures before <= visited && NewReached(s, before, visited + {id}, id)
  {
    hide Snapshot.RecordOk, Finished;
    Finish(s, tools, id, visited, order);
    ReachesSelf(s.Graph(), id);
  }

  // ---- the metadata of a snapshot ----

  /** A set within another of the same size is that set. */
  lemma SameSizeSubset<T>(a: set<T>, b: set<T>)
    requires a <= b && |a| == |b|
    ensures a == b
  {
    if exists x :: x in b && x !in a {
      var x :| x in b && x !in a;
      SubsetSize(a, b - {x});
    }
  }

  lemma SubsetSize<T>(a: set<T>, b: set<T>)
    requires a <= b
    ensures |a| <= |b|
  {
    if a != {} {
      var x :| x in a;
      SubsetSize(a - {x}, b - {x});
    }
  }

  predicate PagesOk(s: Snapshot, doc: Document) {
    forall i :: 0 <= i < |doc.pages| ==>
      && s.Get(doc.pages[i].recordId).Ok?
      && var page := PageOf(s.records[doc.pages[i].recordId]);
         page.Ok? && page.value.id == doc.pages[i].objectId
  }

  function ReferencedResources(s: Snapshot): (hashes: set<Hash>) {
    (set id <- s.records, h <- s.records[id].resources :: h) + (set h <- s.root.resources)
  }

  /** The catalogued records are exactly those reachable from the root; each is fine; no
      reference leaves the catalog; and there is no cycle. */
  ghost predicate GraphSound(s: Snapshot, tools: Tools) {
    && Closed(s.Graph()) && Acyclic(s.Graph())
    && (forall id <- s.records :: s.RecordOk(id, tools))
    && (forall id <- s.root.dependencies :: id in s.records)
    && (forall id <- s.records :: ReachedFrom(s.Graph(), s.root.dependencies, id))
  }

  /** No path from the root has more than 65 records. */
  ghost predicate Shallow(s: Snapshot) {
    forall id <- s.root.dependencies :: PathsWithin(s.Graph(), id, DEPTH + 1)
  }

  lemma {:induction false} PathStaysInside(g: Edges, a: Id, b: Id, k: nat)
    requires Closed(g) && a in g && PathOf(g, a, b, k)
    ensures b in g
    decreases k
  {
    if k > 0 {
      var c :| c in g[a] && PathOf(g, c, b, k - 1);
      PathStaysInside(g, c, b, k - 1);
    }
  }

  lemma RootVisitable(s: Snapshot, tools: Tools, id: Id)
    requires GraphSound(s, tools) && Shallow(s) && id in s.root.dependencies
    ensures Visitable(s, tools, id, 0) && AllLead(s, {}, id)
  {
    hide Snapshot.RecordOk;
    ShortMeansPaths(s.Graph(), id, DEPTH + 1);
    forall b | Reaches(s.Graph(), id, b)
      ensures s.RecordOk(b, tools)
    {
      var k: nat :| PathOf(s.Graph(), id, b, k);
      PathStaysInside(s.Graph(), id, b, k);
    }
  }

  ghost predicate RootReached(s: Snapshot, visited: set<Id>) {
    forall b <- visited :: ReachedFrom(s.Graph(), s.root.dependencies, b)
  }

  /** The walk over all records below the root. */
  method WalkRecords(s: Snapshot, tools: Tools) returns (ok: bool)
    ensures ok ==> GraphSound(s, tools)
    ensures GraphSound(s, tools) && Shallow(s) ==> ok
  {
    hide Snapshot.RecordOk, Visitable, AllLead, Finished, GraphSound, Shallow;
    var visited: set<Id>, active: set<Id> := {}, {};
    ghost var order: seq<Id> := [];
    NothingFinished(s, tools);
    for k := 0 to |s.root.dependencies|
      invariant Finished(s, tools, visited, order) && active == {} && RootReached(s, visited)
      invariant forall i :: 0 <= i < k ==> s.root.dependencies[i] in visited
    {
      var id := s.root.dependencies[k];
      if GraphSound(s, tools) && Shallow(s) {
        RootVisitable(s, tools, id);
      }
      ghost var before := visited;
      ok, visited, active, order := Visit(s, tools, id, visited, active, 0, order);
      if !ok {
        return;
      }
      assert RootReached(s, visited) by {
        RootReaches(s, id, before, visited);
      }
    }
    ok := |visited| == |s.records|;
    FinishedRecords(s, tools, visited, order);
    if ok {
      SameSizeSubset(visited, s.records.Keys);
      WalkSound(s, tools, visited, order);
    }
    if GraphSound(s, tools) {
      AllVisited(s, tools, visited, order);
    }
  }

  lemma NothingFinished(s: Snapshot, tools: Tools)
    ensures Finished(s, tools, {}, [])
  {
  }

  lemma RootReaches(s: Snapshot, id: Id, before: set<Id>, visited: set<Id>)
    requires id in s.root.dependencies && RootReached(s, before) && NewReached(s, before, visited, id)
    ensures RootReached(s, visited)
  {
  }

  lemma FinishedRecords(s: Snapshot, tools: Tools, visited: set<Id>, order: seq<Id>)
    requires Finished(s, tools, visited, order)
    ensures visited <= s.records.Keys
  {
    hide Snapshot.BodyOk, Ordered;
  }

  lemma WalkSound(s: Snapshot, tools: Tools, visited: set<Id>, order: seq<Id>)
    requires Finished(s, tools, visited, order) && visited == s.records.Keys && RootReached(s, visited)
    requires forall i :: 0 <= i < |s.root.dependencies| ==> s.root.dependencies[i] in visited
    ensures GraphSound(s, tools)
  {
    hide Snapshot.RecordOk, Ordered;
    OrderedIsAcyclic(s.Graph(), order);
  }

  /** Everything reachable from the root ends up visited. */
  lemma AllVisited(s: Snapshot, tools: Tools, visited: set<Id>, order: seq<Id>)
    requires Finished(s, tools, visited, order) && GraphSound(s, tools)
    requires forall i :: 0 <= i < |s.root.dependencies| ==> s.root.dependencies[i] in visited
    ensures visited == s.records.Keys
  {
    hide Snapshot.RecordOk, Acyclic, Closed;
    FinishedRecords(s, tools, visited, order);
    var g := s.Graph();
    forall b | b in s.records
      ensures b in visited
    {
      assert ReachedFrom(g, s.root.dependencies, b);
      var a :| a in s.root.dependencies && Reaches(g, a, b);
      var k: nat :| PathOf(g, a, b, k);
      var i :| 0 <= i < |order| && order[i] == a;
      var j := PathGoesBack(g, order, i, b, k);
    }
  }

  /** The metadata of a snapshot: pages, records and resources. */
  method ValidateMetadata(s: Snapshot, tools: Tools, doc: Document) returns (ok: bool)
    ensures ok ==> PagesOk(s, doc) && GraphSound(s, tools) && ReferencedResources(s) == s.resources.Keys
    ensures PagesOk(s, doc) && GraphSound(s, tools) && Shallow(s) && ReferencedResources(s) == s.resources.Keys ==> ok
  {
    hide PagesOk, GraphSound, Shallow;
    if !PagesOk(s, doc) {
      return false;
    }
    ok := WalkRecords(s, tools);
    if ok {
      var referenced := ReferencedResources(s);
      ok := |referenced| == |s.resources| && forall h <- referenced :: h in s.resources;
      if ok {
        SameSizeSubset(referenced, s.resources.Keys);
      }
    }
  }
}
