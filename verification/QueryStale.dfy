/** Where agreement fails: a backlink read in flight when an event is judged by the cached
    snapshot it is about to replace. */
module QueryStale {
  import opened Results
  import opened QueryCache
  import opened QueryEvents
  import opened QuerySystem
  import opened QueryLaws

  /** One step of any kind, deliveries to exposed entries included. */
  ghost predicate May(s: System, step: Step, r: System) {
    s.WellFormed() && Enabled(s, step) && r == After(s, step)
  }

  // ---- a read that lands after the last event ----

  /** The last event is delivered, then the read of the entry lands. */
  ghost predicate Lands(s: System, k: Key, r: System) {
    && May(s, Deliver, After1(s)) && May(After1(s), EndRead(k), r)
    && r.delivered == |r.commits| && k in r.queries && !r.queries[k].invalid && r.queries[k].data.Some?
  }

  /** The state after the next delivery, if there is one. */
  ghost function After1(s: System): (r: System) {
    if s.delivered < |s.commits| then Delivered(s) else s
  }

  ghost predicate LandsFresh(s: System, k: Key) {
    exists r :: Lands(s, k, r) && r.queries[k].data == Some(r.Now()(k))
  }

  ghost predicate LandsStale(s: System, k: Key) {
    exists r :: Lands(s, k, r) && r.queries[k].data != Some(r.Now()(k))
  }

  lemma UnjudgedIsLeftAlone(s: System, k: Key)
    requires s.WellFormed() && Unjudged(s, k)
    ensures k in Delivered(s).queries && Delivered(s).queries[k] == s.queries[k] && Delivered(s).WellFormed()
  {
    hide Announced, Touches, TouchesData, ActionsOf, Act, Inspects;
    var q, actions, clock := s.queries[k], ActionsOf(s.commits[s.delivered]), s.delivered + 1;
    forall i | 0 <= i < |actions|
      ensures !Drops(actions[i], k)
    {
      if Drops(actions[i], k) {
        DropsTouch(s.commits[s.delivered], actions[i], k);
      }
    }
    LeftAlone(q, actions, k, clock);
    BackIsNotSearch();
  }

  /** What has landed is what had been sampled. */
  lemma Landing(s: System, k: Key) returns (r: System)
    requires Inv(s) && s.delivered + 1 == |s.commits| && Unjudged(s, k)
    requires s.queries[k].read.value.sampled.Some?
    ensures Lands(s, k, r) && r.queries[k].data == s.queries[k].read.value.sampled && r.values == s.values
  {
    hide Announced, Touches, TouchesData, ActionsOf, Act, QueryOk, TicketOk, Inspects, Perform, BumpedQueries;
    UnjudgedIsLeftAlone(s, k);
    r := After(Delivered(s), EndRead(k));
  }

  /** One state has one landing. */
  lemma LandingIsUnique(s: System, k: Key, r: System, t: System)
    requires Lands(s, k, r) && Lands(s, k, t)
    ensures r == t
  {
    hide Delivered, Announced, Enabled;
  }

  /** If the entry was not marked invalid, its read lands as the backend's present snapshot,
      although the event was judged by the snapshot it replaces. */
  lemma ValidLandsFresh(s: System, k: Key)
    requires Inv(s) && s.delivered + 1 == |s.commits| && Unjudged(s, k) && !s.queries[k].invalid
    requires s.queries[k].read.value.sampled.Some?
    ensures LandsFresh(s, k) && !LandsStale(s, k)
  {
    hide Lands, Announced, Touches, TouchesData, ActionsOf, TicketOk, Inspects;
    var q := s.queries[k];
    assert QueryOk(s, k, q);
    NothingToInspect(ActionsOf(s.commits[s.delivered]), k);
    var d := s.(delivered := s.delivered + 1);
    OrderAfter(s, d, k, q.data.value, q.read.value.sampled.value);
    LastIsNow(d, k, q.read.value.sampled.value);
    var r := Landing(s, k);
    forall t | Lands(s, k, t)
      ensures t == r
    {
      LandingIsUnique(s, k, r, t);
    }
  }

  /** Once every event is delivered, what is fresh is the present snapshot. */
  lemma LastIsNow(s: System, k: Key, d: Data)
    requires s.WellFormed() && s.delivered == |s.commits| && Fresh(s, k, d)
    ensures d == s.Now()(k)
  {
  }

  // ---- another backend behind the same cache ----

  /** The same events, tickets and entries; only what the read has sampled, and what the
      backend holds, may differ. */
  ghost predicate Alike(s: System, r: System, k: Key) {
    && r.commits == s.commits && r.delivered == s.delivered && r.pending == s.pending && r.nextId == s.nextId
    && k in s.queries && s.queries[k].read.Some?
    && exists d: Data :: r.queries == WithSample(s.queries, k, d)
  }

  function WithSample(qs: Queries, k: Key, d: Data): (r: Queries)
    requires k in qs && qs[k].read.Some?
  {
    qs[k := qs[k].(read := Some(qs[k].read.value.(sampled := Some(d))))]
  }

  function Instead(v: Snapshots, k: Key, d: Data): (w: Snapshots) {
    x => if x == k then d else v(x)
  }

  /** A history in which the snapshot for k embeds what the last event changes, and only
      that event changes it. */
  function Rewritten(s: System, k: Key, before: Data, after: Data): (r: System)
    requires k in s.queries && s.queries[k].read.Some?
  {
    s.(queries := WithSample(s.queries, k, before),
       values := seq(|s.values|, v requires 0 <= v < |s.values| =>
                   Instead(s.values[v], k, if v == |s.commits| then after else before)))
  }

  /** An event that inspects does so for some changed block or page. */
  lemma SomethingChanged(e: Event) returns (sources: seq<string>, owners: seq<string>)
    requires Inspects(ActionsOf(e))
    ensures RefreshEmbedding(sources, owners) in ActionsOf(e) && (sources != [] || owners != [])
  {
    hide GatheredFrom, LiveAffected, LiveContainers, Without, AddAll;
    var actions := ActionsOf(e);
    var i :| 0 <= i < |actions| && actions[i].RefreshEmbedding?;
    var a := actions[i];
    assert a in actions;
    match e
    case MutationCommitted(c) =>
      InspectionOf(c, a);
      sources, owners := a.sources, a.owners;
    case PagesChanged(pages) =>
      if a in Each(pages, PagesRefresh) {
        var uuid := EachFrom(pages, PagesRefresh, a);
      } else {
        var uuid := EachFrom(pages, StatusRefresh, a);
      }
    case _ =>
  }

  lemma InspectionOf(c: ChangeSet, a: Action)
    requires a in ActionsOf(MutationCommitted(c)) && a.RefreshEmbedding?
    ensures a.sources != [] || a.owners != []
  {
    hide Removals, Forgotten, Refreshes, FamilyRefreshes;
    assert a in Removals(c) || a in Forgotten(c) || a in Refreshes(c) || a in FamilyRefreshes(c);
    if a in Removals(c) {
      NotInRemovals(c, a);
    } else if a in Refreshes(c) {
      NotInRefreshes(c, a);
    } else if a in Forgotten(c) {
      ForgottenOnly(c, a);
    } else {
      FamilyInspection(c, a);
    }
  }

  lemma FamilyInspection(c: ChangeSet, a: Action)
    requires a in FamilyRefreshes(c) && a.RefreshEmbedding?
    ensures a.sources != [] || a.owners != []
  {
    assert a in BacklinkActions(c);
    assert |UuidsOf(c.blocks)| == |c.blocks|;
  }

  /** No event clears a backlink snapshot. */
  lemma NothingClearsBacklinks(e: Event, k: Key, d: Option<Data>)
    requires BACKLINKS <= k
    ensures !Clears(ActionsOf(e), k, d)
  {
    hide Removals, Forgotten, Refreshes, FamilyRefreshes, PagesRefresh, StatusRefresh;
    var actions := ActionsOf(e);
    forall i | 0 <= i < |actions| && actions[i].Clear?
      ensures actions[i].key != k
    {
      var a := actions[i];
      assert a in actions;
      ClearIsRemoval(e, a);
      RemovalKeys(e.changes, a);
      assert k[1] == BACKLINKS[1] == "backlinks";
    }
  }

  lemma ClearIsRemoval(e: Event, a: Action)
    requires a in ActionsOf(e) && a.Clear?
    ensures e.MutationCommitted? && a in Removals(e.changes)
  {
    match e
    case MutationCommitted(c) =>
      hide Removals, Forgotten, Refreshes, FamilyRefreshes;
      assert a in Removals(c) || a in Forgotten(c) || a in Refreshes(c) || a in FamilyRefreshes(c);
      if a in Forgotten(c) {
        ForgottenOnly(c, a);
      } else if a in Refreshes(c) {
        NotInRefreshes(c, a);
      } else if a in FamilyRefreshes(c) {
        NotInFamilies(c, a);
      }
    case PagesChanged(pages) =>
      if a in Each(pages, PagesRefresh) {
        var uuid := EachFrom(pages, PagesRefresh, a);
      } else if a in Each(pages, StatusRefresh) {
        var uuid := EachFrom(pages, StatusRefresh, a);
      }
    case _ =>
  }

  lemma RemovalKeys(c: ChangeSet, a: Action)
    requires a in Removals(c) && a.Clear?
    ensures |a.key| > 1 && a.key[1] != "backlinks"
  {
    hide GatheredFrom, AddAll;
    assert "backlinks"[1] == 'a' && "backlinks"[0] == 'b' && |"backlinks"| == 9;
    assert "block"[1] == 'l' && "children"[0] == 'c' && "attachments"[0] == 'a' && "page"[0] == 'p';
    assert "page-document"[0] == 'p' && "page-render"[0] == 'p';
    if a in Each(GatheredFrom(c).deleted, DeletedBlock) {
      var uuid := EachFrom(GatheredFrom(c).deleted, DeletedBlock, a);
    } else {
      var uuid := EachFrom(AddAll([], c.deletedPages), DeletedPage, a);
    }
  }

  /** The rewritten history is one the events may have announced. */
  lemma RewrittenIsWellFormed(s: System, k: Key, sources: seq<string>, owners: seq<string>, n: nat)
    requires s.WellFormed() && s.delivered + 1 == |s.commits| && Unjudged(s, k)
    requires RefreshEmbedding(sources, owners) in ActionsOf(s.commits[s.delivered]) && (sources != [] || owners != [])
    ensures Rewritten(s, k, Backlinks(sources, owners, n), Backlinks(sources, owners, n + 1)).WellFormed()
  {
    hide Touches, Clears, ActionsOf, TouchesData;
    var r := Rewritten(s, k, Backlinks(sources, owners, n), Backlinks(sources, owners, n + 1));
    forall v | 0 <= v < |r.commits|
      ensures Announced(r.values[v], r.values[v + 1], r.commits[v])
    {
      assert Announced(s.values[v], s.values[v + 1], s.commits[v]);
      forall d: Data
        ensures !Clears(ActionsOf(s.commits[v]), k, Some(d))
      {
        NothingClearsBacklinks(s.commits[v], k, Some(d));
      }
      if v == s.delivered {
        EmbedsAll(ActionsOf(s.commits[v]), k, sources, owners, n);
      }
    }
  }

  lemma EmbedsAll(actions: seq<Action>, k: Key, sources: seq<string>, owners: seq<string>, n: nat)
    requires BACKLINKS <= k && RefreshEmbedding(sources, owners) in actions && (sources != [] || owners != [])
    ensures TouchesData(actions, k, Some(Backlinks(sources, owners, n)))
  {
    var d := Some(Backlinks(sources, owners, n));
    if sources != [] {
      assert d.value.blocks[0] in sources;
    } else {
      assert d.value.pages[0] in owners;
    }
    var i :| 0 <= i < |actions| && actions[i] == RefreshEmbedding(sources, owners);
    assert ConcernsData(actions[i], k, d);
  }

  /** It keeps the invariant: the entry is marked invalid, and its read has sampled the
      snapshot before the last event. */
  lemma RewrittenKeeps(s: System, k: Key, before: Data, after: Data)
    requires Inv(s) && s.delivered + 1 == |s.commits| && Exposed(s, k)
    requires Rewritten(s, k, before, after).WellFormed()
    ensures Inv(Rewritten(s, k, before, after))
  {
    hide Announced, Touches, ActionsOf, TouchesData, Inspects;
    var r := Rewritten(s, k, before, after);
    forall x | x in r.queries
      ensures QueryOk(r, x, r.queries[x])
    {
      assert QueryOk(s, x, s.queries[x]);
      SameTouches(s, r, x);
      if x == k {
        assert r.values[s.delivered](k) == before;
      } else {
        OtherKeys(s, k, before, after, x);
        hide TouchPending;
      }
    }
    forall i | 0 <= i < |r.pending|
      ensures TicketOk(r, r.pending[i])
    {
      var p := s.pending[i];
      assert TicketOk(s, p);
      SameTouches(s, r, p.ticket.key);
      OtherKeys(s, k, before, after, p.ticket.key);
      hide TouchPending, AsOf;
    }
  }

  lemma SameTouches(s: System, r: System, x: Key)
    requires r.commits == s.commits && r.delivered == s.delivered
    ensures TouchPending(r, x) <==> TouchPending(s, x)
  {
  }

  lemma OtherKeys(s: System, k: Key, before: Data, after: Data, x: Key)
    requires k in s.queries && s.queries[k].read.Some? && x != k
    ensures var r := Rewritten(s, k, before, after);
            && (forall d: Data :: AsOf(s, x, d) ==> AsOf(r, x, d))
            && (forall d: Data, e: Data :: InOrder(s, x, d, e) ==> InOrder(r, x, d, e))
  {
    hide Touches, ActionsOf;
    var r := Rewritten(s, k, before, after);
    assert forall v :: 0 <= v < |s.values| ==> r.values[v](x) == s.values[v](x);
    SameTouches(s, r, x);
    forall d: Data, e: Data | InOrder(s, x, d, e)
      ensures InOrder(r, x, d, e)
    {
      if !TouchPending(s, x) {
        var v, w :| s.delivered <= v <= w < |s.values| && d == s.values[v](x) && e == s.values[w](x);
        assert d == r.values[v](x) && e == r.values[w](x);
      }
    }
  }

  /** If the entry is marked invalid, the same cache may stand before a backend with which
      its read lands as a stale snapshot that nothing marks invalid. */
  lemma ExposedMayLandStale(s: System, k: Key) returns (r: System)
    requires Inv(s) && s.delivered + 1 == |s.commits| && Exposed(s, k)
    ensures Alike(s, r, k) && Inv(r) && LandsStale(r, k)
  {
    hide Inv, Lands, Announced, Touches, TouchesData, Inspects, ActionsOf;
    assert s.WellFormed() by {
      InvIsWellFormed(s);
    }
    var sources, owners := SomethingChanged(s.commits[s.delivered]);
    var before, after := Backlinks(sources, owners, 0), Backlinks(sources, owners, 1);
    r := Rewritten(s, k, before, after);
    RewrittenIsWellFormed(s, k, sources, owners, 0);
    RewrittenKeeps(s, k, before, after);
    assert r.queries == WithSample(s.queries, k, before);
    var landed := Landing(r, k);
    assert r.Now()(k) == after;
  }

  lemma InvIsWellFormed(s: System)
    requires Inv(s)
    ensures s.WellFormed()
  {
  }

  /** The condition is exact. When the last event leaves an entry alone that is being read,
      the read is sure to land as the backend's present snapshot if and only if the entry is
      not marked invalid. */
  lemma ExposureIsExact(s: System, k: Key)
    requires Inv(s) && s.delivered + 1 == |s.commits| && Unjudged(s, k)
    ensures s.queries[k].invalid <==> exists r :: Alike(s, r, k) && Inv(r) && LandsStale(r, k)
    ensures !s.queries[k].invalid ==> forall r :: Alike(s, r, k) && Inv(r) ==> LandsFresh(r, k)
  {
    hide Inv, LandsStale, LandsFresh, Touches, TouchesData, Inspects, ActionsOf;
    if s.queries[k].invalid {
      var r := ExposedMayLandStale(s, k);
    } else {
      forall r | Alike(s, r, k) && Inv(r)
        ensures LandsFresh(r, k) && !LandsStale(r, k)
      {
        ValidLandsFresh(r, k);
      }
    }
  }

  /** An entry that survives untouched is the same entry. */
  lemma {:induction false} LeftAlone(q: Query, actions: seq<Action>, k: Key, clock: nat)
    requires BACKLINKS <= k && !Touches(actions, k) && !TouchesData(actions, k, q.data)
    requires forall i :: 0 <= i < |actions| ==> !Drops(actions[i], k)
    ensures ActAll(Some(q), actions, k, clock) == Some(q)
    decreases |actions|
  {
    if actions != [] {
      TouchesSplit(actions[0], actions[1..], k, q.data);
      assert actions == [actions[0]] + actions[1..];
      LeftAlone(q, actions[1..], k, clock);
    }
  }

  /** The action may remove the entry without concerning it. */
  predicate Drops(a: Action, k: Key) {
    (a.RemoveInactive? && a.selection.Has(k)) || (a.RemoveInactiveNull? && a.key == k)
  }

  lemma BackIsNotSearch()
    ensures !(BACKLINKS <= SEARCH)
  {
    assert BACKLINKS[1] == "backlinks" && SEARCH[1] == "search-revision";
    assert "backlinks"[0] != "search-revision"[0];
  }

  lemma TouchedBy(actions: seq<Action>, a: Action, k: Key)
    requires a in actions && Concerns(a, k)
    ensures Touches(actions, k)
  {
    var i :| 0 <= i < |actions| && actions[i] == a;
  }

  /** Whatever an event may drop it also concerns. */
  lemma DropsTouch(e: Event, a: Action, k: Key)
    requires a in ActionsOf(e) && Drops(a, k)
    ensures Touches(ActionsOf(e), k)
  {
    hide GatheredFrom, LiveAffected, LiveContainers, Without, AddAll, Touches;
    match e
    case WorkspaceReplaced =>
      TouchedBy(ActionsOf(e), Family(ROOT), k);
    case MutationCommitted(c) =>
      NoDropsElsewhere(c, a, k);
      ForgottenIsRefreshed(c, k);
      TouchedBy(ActionsOf(e), Exact(k), k);
    case PagesChanged(pages) =>
      if a in Each(pages, PagesRefresh) {
        var uuid := EachFrom(pages, PagesRefresh, a);
      } else if a in Each(pages, StatusRefresh) {
        var uuid := EachFrom(pages, StatusRefresh, a);
      }
    case _ =>
  }

  lemma NoDropsElsewhere(c: ChangeSet, a: Action, k: Key)
    requires a in ActionsOf(MutationCommitted(c)) && Drops(a, k)
    ensures a in Forgotten(c) && a == RemoveInactiveNull(k)
  {
    hide Removals, Forgotten, Refreshes, FamilyRefreshes;
    assert a in Removals(c) || a in Forgotten(c) || a in Refreshes(c) || a in FamilyRefreshes(c);
    if a in Removals(c) {
      NotInRemovals(c, a);
    } else if a in Refreshes(c) {
      NotInRefreshes(c, a);
    } else if a in FamilyRefreshes(c) {
      NotInFamilies(c, a);
    } else {
      ForgottenOnly(c, a);
    }
  }

  lemma NotInFamilies(c: ChangeSet, a: Action)
    requires a in FamilyRefreshes(c)
    ensures a.Refresh? || a.RefreshEmbedding?
  {
  }

  lemma NotInRemovals(c: ChangeSet, a: Action)
    requires a in Removals(c)
    ensures a.Clear? || a.Remove?
  {
    hide GatheredFrom, AddAll;
    if a in Each(GatheredFrom(c).deleted, DeletedBlock) {
      var uuid := EachFrom(GatheredFrom(c).deleted, DeletedBlock, a);
    } else {
      var uuid := EachFrom(AddAll([], c.deletedPages), DeletedPage, a);
    }
  }

  lemma NotInRefreshes(c: ChangeSet, a: Action)
    requires a in Refreshes(c)
    ensures a.Refresh?
  {
    hide GatheredFrom, LiveAffected, LiveContainers, Without;
    var live := Without(Without(c.attachmentOwners, c.deletedPages), GatheredFrom(c).deleted);
    if a in Each(LiveAffected(c), RefreshDocument) {
      var uuid := EachFrom(LiveAffected(c), RefreshDocument, a);
    } else if a in Each(GatheredFrom(c).changed, RefreshBlock) {
      var uuid := EachFrom(GatheredFrom(c).changed, RefreshBlock, a);
    } else if a in Each(LiveContainers(c), RefreshChildren) {
      var uuid := EachFrom(LiveContainers(c), RefreshChildren, a);
    } else if a in Each(Without(c.changedPages, c.deletedPages), RefreshPage) {
      var uuid := EachFrom(Without(c.changedPages, c.deletedPages), RefreshPage, a);
    } else if a in Each(live, RefreshAttachments) {
      var uuid := EachFrom(live, RefreshAttachments, a);
    } else {
      var uuid := EachFrom(Without(c.handwritingPages, c.deletedPages), RefreshHandwriting, a);
    }
  }

  lemma ForgottenOnly(c: ChangeSet, a: Action)
    requires a in Forgotten(c)
    ensures a.RemoveInactiveNull?
  {
    hide GatheredFrom, LiveAffected, Without;
    var pages := Without(c.changedPages, c.deletedPages);
    if a in Each(pages, ForgetPage) {
      var uuid := EachFrom(pages, ForgetPage, a);
    } else if a in Each(LiveAffected(c), ForgetDocument) {
      var uuid := EachFrom(LiveAffected(c), ForgetDocument, a);
    } else {
      var uuid := EachFrom(GatheredFrom(c).changed, ForgetBlock, a);
    }
  }

  // ---- a run that ends stale ----

  const LINKS: Key := BACKLINKS + ["p"]

  /** An edit of block b, which stays on page n; graph lists what it changes in the graph. */
  function EditOf(graph: seq<string>): (c: ChangeSet) {
    var place := Some(Placement("n", None));
    ChangeSet([BlockChange("b", place, place)], [], [], ["n"], [], [], graph, false)
  }

  /** The block gains a link to page p, and then is edited behind its eightieth character. */
  const LINKING: Event := MutationCommitted(EditOf(["b"]))
  const EDITING: Event := MutationCommitted(EditOf([]))

  /** Block b, owned by page n, links to page p from version 1 on. */
  function Value(version: nat): (v: Snapshots) {
    k => if k != LINKS then Content(0) else if version == 0 then NONE else Backlinks(["b"], ["n"], version)
  }

  /** The first v of the two events. */
  function Commits(v: nat): (commits: seq<Event>) {
    if v == 0 then [] else if v == 1 then [LINKING] else [LINKING, EDITING]
  }

  function Values(v: nat): (values: seq<Snapshots>) {
    if v == 0 then [Value(0)] else if v == 1 then [Value(0), Value(1)] else [Value(0), Value(1), Value(2)]
  }

  /** The state after v commits and d deliveries. */
  function State(d: nat, v: nat, queries: Queries): (s: System)
    requires v <= 2
  {
    System(queries, |queries|, d, Commits(v), Values(v), [])
  }

  function Links(data: Option<Data>, invalid: bool, observers: nat, read: Option<Read>, epoch: nat): (qs: Queries) {
    map[LINKS := Query(0, epoch, data, invalid, observers, read)]
  }

  /** A run of any steps. */
  ghost predicate AnyRun(states: seq<System>) {
    && states != [] && Initial(states[0])
    && forall i :: 0 <= i < |states| - 1 ==> Moves(states[i], states[i + 1])
  }

  ghost predicate Moves(s: System, r: System) {
    exists step :: May(s, step, r)
  }

  const ENTRIES: seq<Action> :=
    [RemoveInactiveNull(DocumentKey("n")), RemoveInactiveNull(RenderKey("n")), RemoveInactiveNull(BlockKey("b")),
     Exact(DocumentKey("n")), Exact(RenderKey("n")), Exact(BlockKey("b")), Exact(ChildrenKey("n"))]

  /** Both events refresh the page and the block; only the first refreshes every backlink
      entry. */
  lemma EditActions(graph: seq<string>)
    ensures ActionsOf(MutationCommitted(EditOf(graph)))
            == ENTRIES + if graph != [] then [Family(GRAPH), Family(BACKLINKS)] else [RefreshEmbedding(["b"], [])]
  {
    var c := EditOf(graph);
    Gathers(graph);
    hide GatheredFrom, AddAll;
    assert LiveAffected(c) == ["n"] && LiveContainers(c) == ["n"];
    assert Removals(c) == [];
    assert Forgotten(c) == ENTRIES[..3] && Refreshes(c) == ENTRIES[3..];
    FamilyActions(c, graph);
  }

  lemma FamilyActions(c: ChangeSet, graph: seq<string>)
    requires c == EditOf(graph)
    ensures FamilyRefreshes(c) == if graph != [] then [Family(GRAPH), Family(BACKLINKS)] else [RefreshEmbedding(["b"], [])]
  {
    assert UuidsOf(c.blocks) == ["b"];
  }

  lemma Gathers(graph: seq<string>)
    ensures GatheredFrom(EditOf(graph)) == Gathered(["n"], ["n"], ["b"], []) && AddAll([], EditOf(graph).deletedPages) == []
  {
    var c := EditOf(graph);
    var b := c.blocks[0];
    assert PlacementsOf(b) == [Placement("n", None), Placement("n", None)];
    assert PagesOf(b) == ["n", "n"] && ContainersOf(b) == ["n", "n"];
    TwiceIsOnce("n");
    hide AddAll;
    assert c.blocks[1..] == [];
  }

  lemma TwiceIsOnce(x: string)
    ensures AddAll([], [x, x]) == [x] && AddAll([x], [x, x]) == [x] && AddAll([], [x]) == [x]
            && AddAll([x], []) == [x] && AddAll([], []) == []
  {
    assert [x, x][1..] == [x] && [x][1..] == [];
    assert AddAll([x], [x]) == [x] && AddAll([], [x]) == AddAll([x], []);
    assert AddAll([], [x, x]) == AddAll([x], [x]) && AddAll([x], [x, x]) == AddAll([x], [x]);
  }

  /** No page's or block's own action concerns the backlinks. */
  lemma EntriesLeaveLinks()
    ensures forall i :: 0 <= i < |ENTRIES| ==> !Concerns(ENTRIES[i], LINKS) && !Drops(ENTRIES[i], LINKS)
                                               && !ENTRIES[i].RefreshEmbedding? && !ENTRIES[i].Clear?
  {
    LinksDiffer();
    assert DocumentKey("n")[1] != LINKS[1] && RenderKey("n")[1] != LINKS[1];
    assert BlockKey("b")[1] != LINKS[1] && ChildrenKey("n")[1] != LINKS[1];
  }

  lemma LinksDiffer()
    ensures LINKS[1] == "backlinks" && |LINKS| == 3
    ensures "backlinks" != "page-document" && "backlinks" != "page-render" && "backlinks" != "block"
            && "backlinks" != "children" && "backlinks" != "graph"
  {
    assert "backlinks"[1] == 'a' && "backlinks"[0] == 'b' && "graph"[0] == 'g';
  }

  lemma NothingCleared(e: Event, k: Key, d: Data)
    requires e == LINKING || e == EDITING
    ensures !Clears(ActionsOf(e), k, Some(d))
  {
    hide ActionsOf;
    EditActions(["b"]);
    EditActions([]);
    EntriesLeaveLinks();
  }

  lemma FirstAnnounced()
    ensures Announced(Value(0), Value(1), LINKING)
  {
    hide ActionsOf, Clears;
    EditActions(["b"]);
    var actions := ActionsOf(LINKING);
    assert actions[8] == Family(BACKLINKS) && Concerns(actions[8], LINKS);
    forall k, d: Data
      ensures !Clears(actions, k, Some(d))
    {
      NothingCleared(LINKING, k, d);
    }
  }

  lemma SecondAnnounced()
    ensures Announced(Value(1), Value(2), EDITING)
    ensures !Touches(ActionsOf(EDITING), LINKS) && !TouchesData(ActionsOf(EDITING), LINKS, Some(NONE))
  {
    hide ActionsOf, Clears;
    EditActions([]);
    EntriesLeaveLinks();
    var actions := ActionsOf(EDITING);
    assert actions[7] == RefreshEmbedding(["b"], []);
    assert Value(1)(LINKS).blocks[0] == "b";
    assert ConcernsData(actions[7], LINKS, Some(Value(1)(LINKS)));
    forall k, d: Data
      ensures !Clears(actions, k, Some(d))
    {
      NothingCleared(EDITING, k, d);
    }
  }

  const NONE: Data := Backlinks([], [], 0)
  const ONE: Data := Backlinks(["b"], ["n"], 1)

  lemma Starts() returns (states: seq<System>)
    ensures AnyRun(states) && states[|states| - 1] == State(0, 0, Links(None, false, 1, None, 0))
  {
    var s0 := State(0, 0, map[]);
    var s1 := State(0, 0, Links(None, false, 0, None, 0));
    var s2 := State(0, 0, Links(None, false, 1, None, 0));
    assert May(s0, Build(LINKS), s1);
    states := Extend([s0], Build(LINKS), s1);
    hide AnyRun;
    assert May(s1, Observe(LINKS), s2);
    states := Extend(states, Observe(LINKS), s2);
  }

  lemma Extend(states: seq<System>, step: Step, r: System) returns (more: seq<System>)
    requires AnyRun(states) && May(states[|states| - 1], step, r)
    ensures AnyRun(more) && more[|more| - 1] == r
  {
    hide May, Initial;
    more := states + [r];
    forall i | 0 <= i < |more| - 1
      ensures Moves(more[i], more[i + 1])
    {
      if i < |states| - 1 {
        assert more[i] == states[i] && more[i + 1] == states[i + 1];
      }
    }
  }

  lemma Starting()
    ensures May(State(0, 0, Links(None, false, 1, None, 0)), StartRead(LINKS),
                State(0, 0, Links(None, false, 1, Some(Read(0, None)), 0)))
  {
  }

  lemma Sampling()
    ensures May(State(0, 0, Links(None, false, 1, Some(Read(0, None)), 0)), Sample(LINKS),
                State(0, 0, Links(None, false, 1, Some(Read(0, Some(NONE))), 0)))
  {
  }

  lemma Ending()
    ensures May(State(0, 0, Links(None, false, 1, Some(Read(0, Some(NONE))), 0)), EndRead(LINKS),
                State(0, 0, Links(Some(NONE), false, 1, None, 0)))
  {
  }

  /** The entry is made, observed and loaded. */
  lemma Loads() returns (states: seq<System>)
    ensures AnyRun(states) && states[|states| - 1] == State(0, 0, Links(Some(NONE), false, 1, None, 0))
  {
    hide AnyRun, May;
    states := Starts();
    Starting();
    states := Extend(states, StartRead(LINKS), State(0, 0, Links(None, false, 1, Some(Read(0, None)), 0)));
    Sampling();
    states := Extend(states, Sample(LINKS), State(0, 0, Links(None, false, 1, Some(Read(0, Some(NONE))), 0)));
    Ending();
    states := Extend(states, EndRead(LINKS), State(0, 0, Links(Some(NONE), false, 1, None, 0)));
  }

  const UNREAD: Query := Query(0, 1, Some(NONE), true, 1, Some(Read(1, None)))
  const STALE: Query := Query(0, 1, Some(NONE), true, 1, Some(Read(1, Some(ONE))))

  /** The search signal, after so many edits. */
  function Signal(edits: nat): (q: Query) {
    Query(1, 0, Some(Content(edits)), false, 0, None)
  }

  lemma Linked()
    ensures May(State(0, 0, Links(Some(NONE), false, 1, None, 0)), Commit(LINKING, Value(1)),
                State(0, 1, Links(Some(NONE), false, 1, None, 0)))
  {
    hide ActionsOf, Announced;
    FirstAnnounced();
  }

  lemma Redelivered()
    ensures May(State(0, 1, Links(Some(NONE), false, 1, None, 0)), Deliver,
                State(1, 1, map[LINKS := UNREAD, SEARCH := Signal(1)]))
  {
    hide ActionsOf, Announced, Perform;
    FirstAnnounced();
    FirstDelivery();
    BackIsNotSearch();
  }

  lemma Resampled()
    ensures May(State(1, 1, map[LINKS := UNREAD, SEARCH := Signal(1)]), Sample(LINKS),
                State(1, 1, map[LINKS := STALE, SEARCH := Signal(1)]))
  {
    hide ActionsOf, Announced;
    FirstAnnounced();
    BackIsNotSearch();
  }

  /** The first event makes the entry be read again, and the read sees block b. */
  lemma ReadsAgain() returns (states: seq<System>)
    ensures AnyRun(states) && states[|states| - 1] == State(1, 1, map[LINKS := STALE, SEARCH := Signal(1)])
  {
    hide AnyRun, May;
    states := Loads();
    Linked();
    states := Extend(states, Commit(LINKING, Value(1)), State(0, 1, Links(Some(NONE), false, 1, None, 0)));
    Redelivered();
    states := Extend(states, Deliver, State(1, 1, map[LINKS := UNREAD, SEARCH := Signal(1)]));
    Resampled();
    states := Extend(states, Sample(LINKS), State(1, 1, map[LINKS := STALE, SEARCH := Signal(1)]));
  }

  lemma FirstDelivery()
    ensures Perform(Links(Some(NONE), false, 1, None, 0), ActionsOf(LINKING), 1) == map[LINKS := UNREAD]
  {
    hide ActionsOf, Touches, TouchesData;
    var q := Query(0, 0, Some(NONE), false, 1, None);
    EditActions(["b"]);
    EntriesLeaveLinks();
    LinksDiffer();
    var last := [Family(GRAPH), Family(BACKLINKS)];
    ActAllJoin(Some(q), ENTRIES, last, LINKS, 1);
    EntriesLeave(q);
    assert last[1..] == [Family(BACKLINKS)];
    assert ActAll(Some(q), last, LINKS, 1) == ActAll(Some(q), last[1..], LINKS, 1) == Some(UNREAD);
  }

  lemma EntriesLeave(q: Query)
    ensures ActAll(Some(q), ENTRIES, LINKS, 1) == Some(q)
  {
    EntriesLeaveLinks();
    assert !Touches(ENTRIES, LINKS) && !TouchesData(ENTRIES, LINKS, q.data);
    LeftAlone(q, ENTRIES, LINKS, 1);
  }

  /** The second event finds nothing to refresh in the snapshot that is cached. */
  lemma SecondDelivery()
    ensures ActAll(Some(STALE), ActionsOf(EDITING), LINKS, 2) == Some(STALE)
    ensures ActAll(Some(Signal(1)), ActionsOf(EDITING), SEARCH, 2) == Some(Signal(1))
  {
    hide ActAll, Touches, TouchesData, ActionsOf, Drops;
    SecondAnnounced();
    var actions := ActionsOf(EDITING);
    forall i | 0 <= i < |actions|
      ensures !Drops(actions[i], LINKS)
    {
      if Drops(actions[i], LINKS) {
        DropsTouch(EDITING, actions[i], LINKS);
      }
    }
    LeftAlone(STALE, actions, LINKS, 2);
    SignalStays();
  }

  lemma SignalStays()
    ensures ActAll(Some(Signal(1)), ActionsOf(EDITING), SEARCH, 2) == Some(Signal(1))
  {
    hide ActionsOf;
    EditActions([]);
    BackIsNotSearch();
    SearchLeft(ActionsOf(EDITING), 8);
  }

  /** None of the actions concerns the search signal. */
  lemma {:induction false} SearchLeft(actions: seq<Action>, n: nat)
    requires |actions| == n && (forall i :: 0 <= i < n ==> actions[i] in ENTRIES + [RefreshEmbedding(["b"], [])])
    ensures ActAll(Some(Signal(1)), actions, SEARCH, 2) == Some(Signal(1))
    decreases n
  {
    if n > 0 {
      ActsOnSignal(actions[0]);
      SearchLeft(actions[1..], n - 1);
    }
  }

  lemma ActsOnSignal(a: Action)
    requires a in ENTRIES + [RefreshEmbedding(["b"], [])]
    ensures Act(Signal(1), a, SEARCH, 2) == Some(Signal(1))
  {
    BackIsNotSearch();
    assert |SEARCH| == 2 && |DocumentKey("n")| == 3 && |RenderKey("n")| == 3 && |BlockKey("b")| == 3 && |ChildrenKey("n")| == 3;
  }

  lemma Edited()
    ensures May(State(1, 1, map[LINKS := STALE, SEARCH := Signal(1)]), Commit(EDITING, Value(2)),
                State(1, 2, map[LINKS := STALE, SEARCH := Signal(1)]))
  {
    hide ActionsOf, Announced;
    FirstAnnounced();
    SecondAnnounced();
  }

  lemma Judged()
    ensures May(State(1, 2, map[LINKS := STALE, SEARCH := Signal(1)]), Deliver,
                State(2, 2, map[LINKS := STALE, SEARCH := Signal(2)]))
  {
    hide ActionsOf, Announced, ActAll;
    FirstAnnounced();
    SecondAnnounced();
    SecondDelivery();
    BackIsNotSearch();
    var qs := map[LINKS := STALE, SEARCH := Signal(1)];
    assert Perform(qs, ActionsOf(EDITING), 2) == qs;
  }

  const LANDED: Query := Query(0, 1, Some(ONE), false, 1, None)

  lemma LandsLate()
    ensures var r := State(2, 2, map[LINKS := LANDED, SEARCH := Signal(2)]);
            && May(State(2, 2, map[LINKS := STALE, SEARCH := Signal(2)]), EndRead(LINKS), r)
            && r.WellFormed() && !Agrees(r)
  {
    hide ActionsOf, Announced, Agrees;
    FirstAnnounced();
    SecondAnnounced();
    BackIsNotSearch();
    LandedIsOld();
  }

  lemma LandedIsOld()
    ensures var r := State(2, 2, map[LINKS := LANDED, SEARCH := Signal(2)]); r.WellFormed() && !Agrees(r)
  {
    hide ActionsOf, Announced;
    FirstAnnounced();
    SecondAnnounced();
    BackIsNotSearch();
    var r := State(2, 2, map[LINKS := LANDED, SEARCH := Signal(2)]);
    assert r.Now()(LINKS) == Backlinks(["b"], ["n"], 2) && r.queries[LINKS].data.value == ONE;
  }

  /** Without the guard a run can end with every event delivered and no read under way, and
      yet hold a snapshot that is not marked invalid and is not the backend's. */
  lemma StaleRun() returns (states: seq<System>)
    ensures AnyRun(states)
    ensures var r := states[|states| - 1];
            && r.WellFormed() && r.commits == [LINKING, EDITING] && r.delivered == |r.commits|
            && (forall k <- r.queries :: r.queries[k].read.None?) && !Agrees(r)
  {
    states := ReadsAgain();
    hide AnyRun, May, Agrees;
    Edited();
    states := Extend(states, Commit(EDITING, Value(2)), State(1, 2, map[LINKS := STALE, SEARCH := Signal(1)]));
    Judged();
    states := Extend(states, Deliver, State(2, 2, map[LINKS := STALE, SEARCH := Signal(2)]));
    LandsLate();
    states := Extend(states, EndRead(LINKS), State(2, 2, map[LINKS := LANDED, SEARCH := Signal(2)]));
  }
}
