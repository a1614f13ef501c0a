/** The client side: the query cache and its epochs, changed in place. */
module QueryClient {
  import opened Results
  import opened QueryCache
  import opened QueryEvents
  import opened QuerySystem

  lemma PerformOne(qs: Queries, a: Action, clock: nat)
    ensures Perform(qs, [a], clock)
            == map k | k in qs && Act(qs[k], a, k, clock).Some? :: Act(qs[k], a, k, clock).value
  {
    forall k | k in qs
      ensures ActAll(Some(qs[k]), [a], k, clock) == Act(qs[k], a, k, clock)
    {
      var r := Act(qs[k], a, k, clock);
      assert [a][1..] == [];
      assert ActAll(Some(qs[k]), [a], k, clock) == ActAll(r, [], k, clock);
    }
  }

  lemma PerformNone(qs: Queries, clock: nat)
    ensures Perform(qs, [], clock) == qs
  {
  }

  class Client {
    /** The cache; each entry holds the epoch kept for its query object. */
    var queries: Queries
    var nextId: nat
    /** How many events have been handled. */
    var clock: nat

    constructor ()
      ensures queries == map[] && nextId == 0 && clock == 0
    {
      queries, nextId, clock := map[], 0, 0;
    }

    // ---- the query library ----

    method CancelQueries(selection: Selection)
      modifies this`queries
      ensures queries == map k <- old(queries) ::
                if selection.Has(k) then old(queries)[k].Cancelled() else old(queries)[k]
    {
      queries := map k <- queries :: if selection.Has(k) then queries[k].Cancelled() else queries[k];
    }

    method InvalidateQueries(selection: Selection)
      modifies this`queries
      ensures queries == map k <- old(queries) ::
                if selection.Has(k) then old(queries)[k].Invalidated(clock) else old(queries)[k]
    {
      queries := map k <- queries :: if selection.Has(k) then queries[k].Invalidated(clock) else queries[k];
    }

    method SetQueryData(key: Key, answer: Answer) returns (published: Option<Data>)
      requires key in queries
      modifies this`queries
      ensures published == answer.Applied(old(queries)[key].data)
      ensures queries == if published.None? then old(queries)
                         else old(queries)[key := old(queries)[key].WithData(published.value)]
    {
      published := answer.Applied(queries[key].data);
      if published.Some? {
        queries := queries[key := queries[key].WithData(published.value)];
      }
    }

    // ---- epochs ----

    method AdvanceSnapshotEpoch(key: Key)
      requires key in queries
      modifies this`queries
      ensures queries == old(queries)[key := old(queries)[key].Advanced()]
    {
      queries := queries[key := queries[key].Advanced()];
    }

    method CaptureSnapshotPublication(key: Key) returns (t: Ticket)
      modifies this`queries, this`nextId
      ensures key in queries && t == Ticket(key, queries[key].id, queries[key].epoch) && Current(queries, t)
      ensures key in old(queries) ==> queries == old(queries) && nextId == old(nextId)
      ensures key !in old(queries) ==>
                queries == old(queries)[key := NewQuery(old(nextId))] && nextId == old(nextId) + 1
    {
      if key !in queries {
        queries := queries[key := NewQuery(nextId)];
        nextId := nextId + 1;
      }
      t := Ticket(key, queries[key].id, queries[key].epoch);
    }

    method RefreshQueries(selection: Selection)
      modifies this`queries
      ensures queries == Perform(old(queries), [Refresh(selection)], clock)
    {
      PerformOne(queries, Refresh(selection), clock);
      ghost var before := queries;
      var todo := set k <- queries | selection.Has(k);
      while todo != {}
        invariant queries.Keys == before.Keys && todo <= queries.Keys && forall k <- todo :: selection.Has(k)
        invariant forall k <- queries ::
                    queries[k] == if selection.Has(k) && k !in todo then before[k].Advanced() else before[k]
      {
        var k :| k in todo;
        AdvanceSnapshotEpoch(k);
        todo := todo - {k};
      }
      CancelQueries(selection);
      InvalidateQueries(selection);
    }

    method PublishSnapshot(key: Key, answer: Answer)
      requires key in queries
      modifies this`queries
      ensures queries == old(queries)[key := old(queries)[key].Published(answer, clock)]
    {
      AdvanceSnapshotEpoch(key);
      CancelQueries(Selection(key, true));
      var published := SetQueryData(key, answer);
      if published.None? {
        InvalidateQueries(Selection(key, true));
      }
    }

    method PublishQuerySnapshot(t: Ticket, answer: Answer) returns (accepted: bool)
      modifies this`queries
      ensures accepted <==> Current(old(queries), t)
      ensures queries == PublishedTo(old(queries), t, answer, clock)
    {
      if !Current(queries, t) {
        if t.key in queries && queries[t.key].read.None? {
          InvalidateQueries(Selection(t.key, true));
        }
        return false;
      }
      PublishSnapshot(t.key, answer);
      accepted := true;
    }

    // ---- events ----

    method RemoveQueries(selection: Selection, inactive: bool)
      modifies this`queries
      ensures queries == map k | k in old(queries) && !(selection.Has(k) && (inactive ==> old(queries)[k].observers == 0)) ::
                           old(queries)[k]
    {
      queries := map k | k in queries && !(selection.Has(k) && (inactive ==> queries[k].observers == 0)) :: queries[k];
    }

    method ClearSnapshot(key: Key, empty: Data)
      modifies this`queries
      ensures queries == Perform(old(queries), [Clear(key, empty)], clock)
    {
      PerformOne(queries, Clear(key, empty), clock);
      if key !in queries {
        return;
      }
      if queries[key].observers == 0 {
        RemoveQueries(Selection(key, true), false);
        return;
      }
      PublishSnapshot(key, Snapshot(empty));
    }

    method RemoveIfNull(key: Key)
      modifies this`queries
      ensures queries == Perform(old(queries), [RemoveInactiveNull(key)], clock)
    {
      PerformOne(queries, RemoveInactiveNull(key), clock);
      if key in queries && queries[key].observers == 0 && queries[key].data == Some(NullData) {
        RemoveQueries(Selection(key, true), false);
      }
    }

    /** The loop over the cached backlinks. */
    method RefreshEmbeddings(sources: seq<string>, owners: seq<string>)
      modifies this`queries
      ensures queries == Perform(old(queries), [RefreshEmbedding(sources, owners)], clock)
    {
      PerformOne(queries, RefreshEmbedding(sources, owners), clock);
      ghost var before := queries;
      var todo := set k <- queries | BACKLINKS <= k;
      while todo != {}
        invariant queries.Keys == before.Keys && todo <= queries.Keys && forall k <- todo :: BACKLINKS <= k
        invariant forall k <- queries ::
                    queries[k] == if BACKLINKS <= k && k !in todo && Embeds(before[k].data, sources, owners)
                                  then before[k].Refreshed(clock) else before[k]
      {
        var k :| k in todo;
        if Embeds(queries[k].data, sources, owners) {
          ghost var now := queries;
          RefreshQueries(Selection(k, true));
          PerformOne(now, Refresh(Selection(k, true)), clock);
        }
        todo := todo - {k};
      }
    }

    method Do(a: Action)
      modifies this`queries
      ensures queries == Perform(old(queries), [a], clock)
    {
      PerformOne(queries, a, clock);
      match a
      case Refresh(selection) => RefreshQueries(selection);
      case RemoveInactive(selection) => RemoveQueries(selection, true);
      case Remove(key) => RemoveQueries(Selection(key, true), false);
      case Clear(key, empty) => ClearSnapshot(key, empty);
      case RemoveInactiveNull(key) => RemoveIfNull(key);
      case RefreshEmbedding(sources, owners) => RefreshEmbeddings(sources, owners);
    }

    method DoAll(actions: seq<Action>)
      modifies this`queries
      ensures queries == Perform(old(queries), actions, clock)
    {
      hide Perform;
      PerformNone(queries, clock);
      assert actions[..0] == [];
      for i := 0 to |actions|
        invariant queries == Perform(old(queries), actions[..i], clock)
      {
        PerformJoin(old(queries), actions[..i], [actions[i]], clock);
        assert actions[..i + 1] == actions[..i] + [actions[i]];
        Do(actions[i]);
      }
      assert actions[..|actions|] == actions;
    }

    /** For every identifier in turn. */
    method ForEach(uuids: seq<string>, actions: string -> seq<Action>)
      modifies this`queries
      ensures queries == Perform(old(queries), Each(uuids, actions), clock)
    {
      hide Perform;
      PerformNone(queries, clock);
      assert uuids[..0] == [];
      for i := 0 to |uuids|
        invariant queries == Perform(old(queries), Each(uuids[..i], actions), clock)
      {
        PerformJoin(old(queries), Each(uuids[..i], actions), actions(uuids[i]), clock);
        assert uuids[..i + 1] == uuids[..i] + [uuids[i]];
        EachJoin(uuids[..i], [uuids[i]], actions);
        EachOne(uuids[i], actions);
        DoAll(actions(uuids[i]));
      }
      assert uuids[..|uuids|] == uuids;
    }

    // ---- the stages of a committed change ----

    method RemoveDeleted(c: ChangeSet, deletedBlocks: seq<string>)
      requires deletedBlocks == GatheredFrom(c).deleted
      modifies this`queries
      ensures queries == Perform(old(queries), Removals(c), clock)
    {
      hide Perform, Each, AddAll;
      ForEach(deletedBlocks, DeletedBlock);
      ForEach(AddAll([], c.deletedPages), DeletedPage);
      PerformJoin(old(queries), Each(deletedBlocks, DeletedBlock), Each(AddAll([], c.deletedPages), DeletedPage), clock);
    }

    method ForgetNulls(c: ChangeSet, affected: seq<string>, changed: seq<string>)
      requires affected == LiveAffected(c) && changed == GatheredFrom(c).changed
      modifies this`queries
      ensures queries == Perform(old(queries), Forgotten(c), clock)
    {
      hide Perform, Each, Without, LiveAffected;
      var pages := Without(c.changedPages, c.deletedPages);
      ForEach(pages, ForgetPage);
      ForEach(affected, ForgetDocument);
      ForEach(changed, ForgetBlock);
      ghost var p1, p2, p3 := Each(pages, ForgetPage), Each(affected, ForgetDocument), Each(changed, ForgetBlock);
      PerformJoin(old(queries), p1, p2, clock);
      PerformJoin(old(queries), p1 + p2, p3, clock);
    }

    method RefreshChanged(c: ChangeSet, g: Gathered, affected: seq<string>, containers: seq<string>)
      requires g == GatheredFrom(c) && affected == LiveAffected(c) && containers == LiveContainers(c)
      modifies this`queries
      ensures queries == Perform(old(queries), Refreshes(c), clock)
    {
      hide Perform, Each, Without, LiveAffected, LiveContainers, GatheredFrom;
      var pages := Without(c.changedPages, c.deletedPages);
      var owners := Without(Without(c.attachmentOwners, c.deletedPages), g.deleted);
      var drawings := Without(c.handwritingPages, c.deletedPages);
      ghost var q0 := queries;
      ghost var acc := Each(affected, RefreshDocument);
      ForEach(affected, RefreshDocument);
      PerformJoin(q0, acc, Each(g.changed, RefreshBlock), clock);
      ForEach(g.changed, RefreshBlock);
      acc := acc + Each(g.changed, RefreshBlock);
      PerformJoin(q0, acc, Each(containers, RefreshChildren), clock);
      ForEach(containers, RefreshChildren);
      acc := acc + Each(containers, RefreshChildren);
      PerformJoin(q0, acc, Each(pages, RefreshPage), clock);
      ForEach(pages, RefreshPage);
      acc := acc + Each(pages, RefreshPage);
      PerformJoin(q0, acc, Each(owners, RefreshAttachments), clock);
      ForEach(owners, RefreshAttachments);
      acc := acc + Each(owners, RefreshAttachments);
      PerformJoin(q0, acc, Each(drawings, RefreshHandwriting), clock);
      ForEach(drawings, RefreshHandwriting);
      acc := acc + Each(drawings, RefreshHandwriting);
    }

    method RefreshFamilies(c: ChangeSet)
      modifies this`queries
      ensures queries == Perform(old(queries), FamilyRefreshes(c), clock)
    {
      hide Perform;
      ghost var q0 := queries;
      ghost var acc: seq<Action> := [];
      PerformNone(q0, clock);
      if c.changedPages != [] || c.deletedPages != [] {
        PerformJoin(q0, acc, [Family(PAGES), Family(JOURNALS)], clock);
        DoAll([Family(PAGES), Family(JOURNALS)]);
        acc := acc + [Family(PAGES), Family(JOURNALS)];
      }
      if c.graphChangedContent != [] {
        PerformJoin(q0, acc, [Family(GRAPH)], clock);
        Do(Family(GRAPH));
        acc := acc + [Family(GRAPH)];
      }
      PerformJoin(q0, acc, BacklinkActions(c), clock);
      PerformNone(queries, clock);
      if c.graphChangedContent != [] {
        Do(Family(BACKLINKS));
      } else if AnyContent(c) {
        Do(RefreshEmbedding(UuidsOf(c.blocks), c.changedPages + c.deletedPages));
      }
      acc := acc + BacklinkActions(c);
      if c.attachmentOwners != [] {
        PerformJoin(q0, acc, [Family(ATTACHMENT_IMAGES)], clock);
        Do(Family(ATTACHMENT_IMAGES));
        acc := acc + [Family(ATTACHMENT_IMAGES)];
      }
      if c.historyChanged {
        PerformJoin(q0, acc, [Exact(HISTORY)], clock);
        Do(Exact(HISTORY));
        acc := acc + [Exact(HISTORY)];
      }
      assert acc == FamilyRefreshes(c);
    }

    /** The loop that fills the sets of affected pages, containers and blocks. */
    static method GatherChanges(c: ChangeSet) returns (g: Gathered)
      ensures g == GatheredFrom(c)
    {
      hide AddAll, Gathered.With;
      g := Gathered(AddAll(AddAll([], c.affectedPages), c.changedPages), [], [], []);
      assert c.blocks[0..] == c.blocks;
      for i := 0 to |c.blocks|
        invariant GatherBlocks(g, c.blocks[i..]) == GatheredFrom(c)
      {
        assert c.blocks[i..][1..] == c.blocks[i + 1..] && c.blocks[i..][0] == c.blocks[i];
        g := g.With(c.blocks[i]);
      }
    }

    method BumpSearch()
      modifies this`queries, this`nextId
      ensures (queries, nextId) == BumpedQueries(old(queries), old(nextId))
    {
      if SEARCH !in queries {
        queries := queries[SEARCH := NewQuery(nextId)];
        nextId := nextId + 1;
      }
      var published := SetQueryData(SEARCH, Snapshot(NextRevision(queries[SEARCH].data)));
      assert queries == BumpedQueries(old(queries), old(nextId)).0;
    }

    method ApplyCommittedChanges(c: ChangeSet)
      modifies this`queries, this`nextId
      ensures var performed := Perform(old(queries), ActionsOf(MutationCommitted(c)), clock);
              (queries, nextId)
              == if AnyContent(c) then BumpedQueries(performed, old(nextId)) else (performed, old(nextId))
    {
      hide Perform, Removals, Forgotten, Refreshes, FamilyRefreshes, GatheredFrom, Without, BumpedQueries;
      ghost var q0 := queries;
      var g := GatherChanges(c);
      var affected := Without(g.affected, c.deletedPages);
      var containers := Without(Without(g.containers, g.deleted), c.deletedPages);
      RemoveDeleted(c, g.deleted);
      PerformJoin(q0, Removals(c), Forgotten(c), clock);
      ForgetNulls(c, affected, g.changed);
      PerformJoin(q0, Removals(c) + Forgotten(c), Refreshes(c), clock);
      RefreshChanged(c, g, affected, containers);
      PerformJoin(q0, Removals(c) + Forgotten(c) + Refreshes(c), FamilyRefreshes(c), clock);
      RefreshFamilies(c);
      if AnyContent(c) {
        BumpSearch();
      }
    }

    /** Handling one event: the same as its delivery to the cache. */
    method ApplyDomainEvent(e: Event)
      modifies this`queries, this`nextId, this`clock
      ensures clock == old(clock) + 1
      ensures forall s: System ::
                s.queries == old(queries) && s.nextId == old(nextId) && s.delivered == old(clock)
                && s.delivered < |s.commits| && s.commits[s.delivered] == e ==>
                  Delivered(s) == s.(queries := queries, nextId := nextId, delivered := clock)
    {
      hide Perform, BumpedQueries;
      clock := clock + 1;
      if e.MutationCommitted? {
        ApplyCommittedChanges(e.changes);
      } else {
        DoAll(ActionsOf(e));
      }
    }
  }

  lemma EachOne(uuid: string, actions: string -> seq<Action>)
    ensures Each([uuid], actions) == actions(uuid)
  {
    assert Each([uuid][1..], actions) == [];
  }
}
