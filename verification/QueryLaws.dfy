/** Agreement of the cache with the backend over every interleaving. */
module QueryLaws {
  import opened Results
  import opened QueryCache
  import opened QueryEvents
  import opened QuerySystem

  // ---- freshness ----

  /** The same cache later: more commits, and no more deliveries. */
  ghost predicate Extends(s: System, r: System) {
    && s.WellFormed() && r.WellFormed() && r.delivered == s.delivered
    && s.commits <= r.commits && s.values <= r.values
  }

  lemma FreshStays(s: System, r: System, k: Key, d: Data)
    requires Extends(s, r) && Fresh(s, k, d)
    ensures Fresh(r, k, d)
  {
    if TouchPending(s, k) {
      TouchStays(s, r, k);
    } else {
      var v :| s.delivered <= v < |s.values| && d == s.values[v](k);
      assert d == r.values[v](k);
    }
  }

  lemma TouchStays(s: System, r: System, k: Key)
    requires Extends(s, r) && TouchPending(s, k)
    ensures TouchPending(r, k)
  {
    var c :| s.delivered <= c < |s.commits| && Touches(ActionsOf(s.commits[c]), k);
    assert r.commits[c] == s.commits[c];
  }

  lemma ReadStays(s: System, r: System, k: Key, read: Read)
    requires Extends(s, r) && ReadOk(s, k, read)
    ensures ReadOk(r, k, read)
  {
    hide Touches, ActionsOf, Fresh;
    if k != SEARCH && read.sampled.Some? {
      FreshStays(s, r, k, read.sampled.value);
    }
    forall c | read.started <= c < r.delivered && c < |r.commits|
      ensures !Touches(ActionsOf(r.commits[c]), k)
    {
      assert r.commits[c] == s.commits[c];
    }
  }

  lemma OrderStays(s: System, r: System, k: Key, d: Data, e: Data)
    requires Extends(s, r) && InOrder(s, k, d, e)
    ensures InOrder(r, k, d, e)
  {
    if TouchPending(s, k) {
      TouchStays(s, r, k);
    } else {
      var v, w :| s.delivered <= v <= w < |s.values| && d == s.values[v](k) && e == s.values[w](k);
      assert d == r.values[v](k) && e == r.values[w](k);
    }
  }

  lemma QueryStays(s: System, r: System, k: Key, q: Query)
    requires Extends(s, r) && s.nextId <= r.nextId && QueryOk(s, k, q)
    ensures QueryOk(r, k, q)
  {
    assert q.read.Some? && q.read.value.sampled.Some? ==> ReadOk(s, k, q.read.value);
    hide Fresh, ReadOk, InOrder;
    if k != SEARCH && q.data.Some? && !q.invalid {
      FreshStays(s, r, k, q.data.value);
      if q.read.Some? && q.read.value.sampled.Some? {
        OrderStays(s, r, k, q.data.value, q.read.value.sampled.value);
      }
    }
    if q.read.Some? {
      ReadStays(s, r, k, q.read.value);
    }
  }

  lemma AnswerStays(s: System, r: System, k: Key, a: Answer)
    requires Extends(s, r) && AnswerOk(s, k, a)
    ensures AnswerOk(r, k, a)
  {
    if a.Snapshot? {
      FreshStays(s, r, k, a.value);
    } else {
      TouchStays(s, r, k);
    }
  }

  // ---- steps that leave the history alone ----

  /** How an entry may change without any promise about tickets being lost: it keeps its
      identity and epoch, or its epoch grows. */
  ghost predicate Ages(q: Query, r: Query) {
    r.id == q.id && r.epoch >= q.epoch
  }

  lemma TicketStays(s: System, r: System, p: Pending)
    requires Extends(s, r) && s.nextId <= r.nextId && TicketOk(s, p)
    requires var k := p.ticket.key;
             k in r.queries ==>
               (k in s.queries && Ages(s.queries[k], r.queries[k])) || r.queries[k].id >= s.nextId
    ensures TicketOk(r, p)
  {
    hide AnswerOk;
    if p.answer.Some? && Current(r.queries, p.ticket) {
      assert Current(s.queries, p.ticket);
      AnswerStays(s, r, p.ticket.key, p.answer.value);
    }
  }

  /** A step that changes at most the entry of one key. */
  lemma OneEntry(s: System, r: System, k: Key)
    requires Inv(s) && Extends(s, r) && s.nextId <= r.nextId && r.pending == s.pending
    requires forall x :: x != k ==> (x in r.queries <==> x in s.queries)
    requires forall x :: x != k && x in s.queries ==> r.queries[x] == s.queries[x]
    requires k in r.queries ==> QueryOk(r, k, r.queries[k])
    requires k in r.queries ==>
               (k in s.queries && Ages(s.queries[k], r.queries[k])) || r.queries[k].id >= s.nextId
    ensures Inv(r)
  {
    hide QueryOk, TicketOk, System.WellFormed;
    forall x | x in r.queries && x != k
      ensures QueryOk(r, x, r.queries[x])
    {
      QueryStays(s, r, x, s.queries[x]);
    }
    forall i | 0 <= i < |r.pending|
      ensures TicketOk(r, r.pending[i])
    {
      TicketStays(s, r, s.pending[i]);
    }
  }

  lemma SameHistory(s: System, r: System)
    requires s.WellFormed() && r.commits == s.commits && r.values == s.values && r.delivered == s.delivered
    ensures Extends(s, r)
  {
  }

  lemma BuildKeeps(s: System, k: Key)
    requires Inv(s)
    ensures Inv(Built(s, k)) && Extends(s, Built(s, k))
  {
    hide TicketOk, Announced;
    SameHistory(s, Built(s, k));
    if k !in s.queries {
      OneEntry(s, Built(s, k), k);
    }
  }

  // ---- reads and observers ----

  lemma EntryKeeps(s: System, k: Key, q: Query)
    requires Inv(s) && k in s.queries && Ages(s.queries[k], q) && QueryOk(s, k, q)
    ensures Inv(WithQuery(s, k, q))
  {
    hide TicketOk, QueryOk, Announced;
    var r := WithQuery(s, k, q);
    SameHistory(s, r);
    QueryStays(s, r, k, q);
    OneEntry(s, r, k);
  }

  lemma NowIsFresh(s: System, k: Key)
    requires s.WellFormed()
    ensures Fresh(s, k, s.Now()(k))
  {
    assert s.values[|s.commits|](k) == s.Now()(k);
  }

  /** The present snapshot is no older than any fresh one. */
  lemma NowIsLast(s: System, k: Key, d: Data)
    requires s.WellFormed() && Fresh(s, k, d)
    ensures InOrder(s, k, d, s.Now()(k))
  {
    if !TouchPending(s, k) {
      var v :| s.delivered <= v < |s.values| && d == s.values[v](k);
      assert s.Now()(k) == s.values[|s.commits|](k);
    }
  }

  predicate OnEntry(step: Step) {
    step.Observe? || step.Unobserve? || step.StartRead? || step.Sample? || step.EndRead? || step.FailRead?
  }

  lemma EntryStepKeeps(s: System, step: Step)
    requires Inv(s) && Enabled(s, step) && OnEntry(step)
    ensures Inv(After(s, step))
  {
    hide TicketOk, Announced, Fresh;
    var k := step.key;
    NowIsFresh(s, k);
    var q := After(s, step).queries[k];
    assert QueryOk(s, k, s.queries[k]);
    var before := s.queries[k];
    if step.Sample? && k != SEARCH && before.data.Some? && !before.invalid {
      NowIsLast(s, k, before.data.value);
    }
    hide InOrder;
    EntryKeeps(s, k, q);
  }

  lemma EvictKeeps(s: System, k: Key)
    requires Inv(s) && k in s.queries
    ensures Inv(s.(queries := s.queries - {k}))
  {
    hide TicketOk, QueryOk, Announced;
    var r := s.(queries := s.queries - {k});
    SameHistory(s, r);
    OneEntry(s, r, k);
  }

  // ---- commits, captures and answers ----

  lemma CommitKeeps(s: System, event: Event, value: Snapshots)
    requires Inv(s) && Announced(s.Now(), value, event)
    ensures var r := s.(commits := s.commits + [event], values := s.values + [value]); Inv(r) && Extends(s, r)
  {
    hide TicketOk, QueryOk, Announced;
    var r := s.(commits := s.commits + [event], values := s.values + [value]);
    forall v | 0 <= v < |r.commits|
      ensures Announced(r.values[v], r.values[v + 1], r.commits[v])
    {
      if v == |s.commits| {
        assert r.values[v] == s.Now();
      } else {
        assert r.commits[v] == s.commits[v];
      }
    }
    forall k | k in r.queries
      ensures QueryOk(r, k, r.queries[k])
    {
      QueryStays(s, r, k, s.queries[k]);
    }
    forall i | 0 <= i < |r.pending|
      ensures TicketOk(r, r.pending[i])
    {
      TicketStays(s, r, s.pending[i]);
    }
  }

  /** A command's commit makes its patch wait for the event of that commit. */
  lemma AnswerKeeps(s: System, i: nat, a: Answer)
    requires Inv(s) && i < |s.pending| && AnswerOk(s, s.pending[i].ticket.key, a)
    ensures Inv(s.(pending := s.pending[i := s.pending[i].(answer := Some(a))]))
  {
    hide AnswerOk, QueryOk, Announced;
    var r := s.(pending := s.pending[i := s.pending[i].(answer := Some(a))]);
    SameHistory(s, r);
    AnswerStays(s, r, s.pending[i].ticket.key, a);
    forall k | k in r.queries
      ensures QueryOk(r, k, r.queries[k])
    {
      QueryStays(s, r, k, s.queries[k]);
    }
    forall j | 0 <= j < |r.pending|
      ensures TicketOk(r, r.pending[j])
    {
      TicketStays(s, r, s.pending[j]);
    }
  }

  lemma CommandCommitKeeps(s: System, step: Step)
    requires Inv(s) && Enabled(s, step) && step.CommandCommit?
    ensures Inv(After(s, step))
  {
    hide TicketOk, QueryOk, Announced, Touches, ActionsOf;
    var m := s.(commits := s.commits + [step.event], values := s.values + [step.value]);
    CommitKeeps(s, step.event, step.value);
    var k := m.pending[step.command].ticket.key;
    assert m.commits[|s.commits|] == step.event;
    assert TouchPending(m, k);
    AnswerKeeps(m, step.command, Patch(step.patch));
  }

  lemma CaptureKeeps(s: System, k: Key)
    requires Inv(s) && k != SEARCH && !(BACKLINKS <= k)
    ensures var b := Built(s, k);
            Inv(b.(pending := b.pending + [Pending(Ticket(k, b.queries[k].id, b.queries[k].epoch), None)]))
  {
    hide QueryOk, Announced;
    BuildKeeps(s, k);
    var b := Built(s, k);
    var r := b.(pending := b.pending + [Pending(Ticket(k, b.queries[k].id, b.queries[k].epoch), None)]);
    SameHistory(b, r);
    forall x | x in r.queries
      ensures QueryOk(r, x, r.queries[x])
    {
      QueryStays(b, r, x, b.queries[x]);
    }
    assert QueryOk(b, k, b.queries[k]);
    QueryIdBound(b, k);
    forall i | 0 <= i < |r.pending|
      ensures TicketOk(r, r.pending[i])
    {
      if i < |b.pending| {
        TicketStays(b, r, b.pending[i]);
      }
    }
  }

  lemma QueryIdBound(s: System, k: Key)
    requires k in s.queries && QueryOk(s, k, s.queries[k])
    ensures s.queries[k].id < s.nextId
  {
  }

  // ---- publishing ----

  lemma PublishKeeps(s: System, i: nat)
    requires Inv(s) && i < |s.pending| && s.pending[i].answer.Some?
    ensures Inv(s.(queries := PublishedTo(s.queries, s.pending[i].ticket, s.pending[i].answer.value, s.delivered)))
  {
    hide Announced, Fresh, AsOf, TouchPending;
    var p := s.pending[i];
    var k := p.ticket.key;
    assert TicketOk(s, p);
    if k in s.queries {
      var q := s.queries[k];
      assert QueryOk(s, k, q);
      if Current(s.queries, p.ticket) {
        var published := q.Published(p.answer.value, s.delivered);
        if published.data.Some? && !published.invalid {
          FreshAnswer(s, k, p.answer.value, published.data.value);
        }
        EntryKeeps(s, k, published);
      } else {
        EntryKeeps(s, k, q.Invalidated(s.delivered));
      }
    }
  }

  lemma FreshAnswer(s: System, k: Key, a: Answer, d: Data)
    requires AnswerOk(s, k, a) && (a.Snapshot? ==> d == a.value)
    ensures Fresh(s, k, d)
  {
  }

  // ---- refreshing and delivering ----

  /** An entry that a list of actions leaves untouched, or settles at the present clock. */
  lemma SettledIsOk(s: System, r: System, k: Key, q: Query, acted: Query, actions: seq<Action>)
    requires r.WellFormed() && s.nextId <= r.nextId && QueryOk(s, k, q) && acted.id == q.id
    requires Settled(acted, actions, k, r.delivered, q.epoch)
    requires k != SEARCH ==> forall d: Data :: Clears(actions, k, Some(d)) ==> AsOf(r, k, d)
    ensures QueryOk(r, k, acted)
  {
    hide Clears, AsOf, TouchPending;
  }

  lemma RefreshKeeps(s: System, selection: Selection)
    requires Inv(s)
    ensures Inv(s.(queries := Perform(s.queries, [Refresh(selection)], s.delivered)))
  {
    hide QueryOk, TicketOk, Announced, Act, ActAll, Settled, Selection.Has;
    var actions := [Refresh(selection)];
    var r := s.(queries := Perform(s.queries, actions, s.delivered));
    SameHistory(s, r);
    forall k | k in s.queries
      ensures k in r.queries ==> QueryOk(r, k, r.queries[k]) && Ages(s.queries[k], r.queries[k])
    {
      ActsOn(s.queries[k], [], actions, k, s.delivered);
      assert [] + actions == actions;
      QueryStays(s, r, k, s.queries[k]);
      if k in r.queries && Settled(r.queries[k], actions, k, s.delivered, s.queries[k].epoch) {
        SettledIsOk(s, r, k, s.queries[k], r.queries[k], actions);
        SettledAges(s.queries[k], r.queries[k], actions, k, s.delivered);
      }
    }
    forall i | 0 <= i < |r.pending|
      ensures TicketOk(r, r.pending[i])
    {
      TicketStays(s, r, s.pending[i]);
    }
  }

  lemma SettledAges(q: Query, r: Query, actions: seq<Action>, k: Key, clock: nat)
    requires Settled(r, actions, k, clock, q.epoch) && r.id == q.id
    ensures Ages(q, r) && r.epoch > q.epoch
  {
  }

  // ---- delivering an event ----

  /** What is fresh stays fresh when an event is delivered that does not concern it. */
  lemma FreshAfter(s: System, r: System, k: Key, d: Data)
    requires s.WellFormed() && r.WellFormed() && s.delivered < |s.commits| && k != SEARCH
    requires r.commits == s.commits && r.values == s.values && r.delivered == s.delivered + 1
    requires Fresh(s, k, d)
    requires var actions := ActionsOf(s.commits[s.delivered]);
             !Touches(actions, k) && (!TouchesData(actions, k, Some(d)) || !AsOf(s, k, d))
    ensures Fresh(r, k, d)
  {
    hide Touches, TouchesData, ActionsOf, Clears;
    if TouchPending(s, k) {
      var c :| s.delivered <= c < |s.commits| && Touches(ActionsOf(s.commits[c]), k);
      assert c != s.delivered;
    } else {
      var v :| s.delivered <= v < |s.values| && d == s.values[v](k);
      if v == s.delivered {
        assert Announced(s.values[v], s.values[v + 1], s.commits[v]);
        assert d == r.values[v + 1](k);
      }
    }
  }

  /** So does the order of two snapshots, even when the event was judged by the older one
      alone. */
  lemma OrderAfter(s: System, r: System, k: Key, d: Data, e: Data)
    requires s.WellFormed() && r.WellFormed() && s.delivered < |s.commits| && k != SEARCH
    requires r.commits == s.commits && r.values == s.values && r.delivered == s.delivered + 1
    requires InOrder(s, k, d, e)
    requires var actions := ActionsOf(s.commits[s.delivered]); !Touches(actions, k) && !TouchesData(actions, k, Some(d))
    ensures InOrder(r, k, d, e) && Fresh(r, k, e)
  {
    hide Touches, TouchesData, ActionsOf, Clears;
    if TouchPending(s, k) {
      TouchAfter(s, r, k);
    } else {
      var v, w :| s.delivered <= v <= w < |s.values| && d == s.values[v](k) && e == s.values[w](k);
      var c := s.delivered;
      if v == c {
        assert Announced(s.values[c], s.values[c + 1], s.commits[c]);
        assert d == r.values[c + 1](k);
        if w == c {
          assert e == r.values[c + 1](k);
        }
      }
      var v', w' := if v == c then c + 1 else v, if w == c then c + 1 else w;
      assert r.delivered <= v' <= w' < |r.values| && d == r.values[v'](k) && e == r.values[w'](k);
    }
  }

  lemma ReadAfter(s: System, r: System, k: Key, read: Read)
    requires s.WellFormed() && r.WellFormed() && s.delivered < |s.commits|
    requires r.commits == s.commits && r.values == s.values && r.delivered == s.delivered + 1
    requires ReadOk(s, k, read) && !Touches(ActionsOf(s.commits[s.delivered]), k)
    requires k != SEARCH && read.sampled.Some? ==>
               !(BACKLINKS <= k) || !Inspects(ActionsOf(s.commits[s.delivered])) || Fresh(r, k, read.sampled.value)
    ensures ReadOk(r, k, read)
  {
    hide Touches, TouchesData, ActionsOf, Announced, Fresh, Inspects;
    if k != SEARCH && read.sampled.Some? && !Fresh(r, k, read.sampled.value) {
      NoData(ActionsOf(s.commits[s.delivered]), k, read.sampled);
      FreshAfter(s, r, k, read.sampled.value);
    }
  }

  /** Only backlinks are inspected, and only by some events. */
  lemma NoData(actions: seq<Action>, k: Key, d: Option<Data>)
    requires !(BACKLINKS <= k) || !Inspects(actions)
    ensures !TouchesData(actions, k, d)
  {
  }

  /** An entry without data is never left alone by an event that inspects. */
  lemma NothingToInspect(actions: seq<Action>, k: Key)
    ensures Inspects(actions) && BACKLINKS <= k ==> TouchesData(actions, k, None)
  {
    if Inspects(actions) && BACKLINKS <= k {
      var i :| 0 <= i < |actions| && actions[i].RefreshEmbedding?;
      assert ConcernsData(actions[i], k, None);
    }
  }

  /** One entry through a delivery. */
  lemma DeliverEntry(s: System, r: System, k: Key)
    requires Inv(s) && s.delivered < |s.commits| && !Exposed(s, k) && k in s.queries
    requires r.WellFormed() && s.nextId <= r.nextId
    requires r.commits == s.commits && r.values == s.values && r.delivered == s.delivered + 1
    ensures var q := ActAll(Some(s.queries[k]), ActionsOf(s.commits[s.delivered]), k, s.delivered + 1);
            q.Some? ==>
              && QueryOk(r, k, q.value) && Ages(s.queries[k], q.value)
              && (q.value.epoch == s.queries[k].epoch ==> !Touches(ActionsOf(s.commits[s.delivered]), k))
  {
    hide Touches, TouchesData, ActionsOf, Announced, Fresh, ReadOk, InOrder, ActAll, Settled, Inspects;
    var q, actions, clock := s.queries[k], ActionsOf(s.commits[s.delivered]), s.delivered + 1;
    assert QueryOk(s, k, q);
    ActsOn(q, [], actions, k, clock);
    assert [] + actions == actions;
    var acted := ActAll(Some(q), actions, k, clock);
    if acted.Some? {
      if Touches(actions, k) || TouchesData(actions, k, q.data) {
        ClearedIsThere(s, r, k);
        SettledIsOk(s, r, k, q, acted.value, actions);
        SettledAges(q, acted.value, actions, k, clock);
      } else {
        if k != SEARCH && q.data.Some? && !q.invalid {
          FreshAfter(s, r, k, q.data.value);
          if q.read.Some? && q.read.value.sampled.Some? {
            OrderAfter(s, r, k, q.data.value, q.read.value.sampled.value);
          }
        }
        NothingToInspect(actions, k);
        if q.read.Some? {
          ReadAfter(s, r, k, q.read.value);
        }
      }
    }
  }

  /** What an event clears is empty at the version it announces. */
  lemma ClearedIsThere(s: System, r: System, k: Key)
    requires s.WellFormed() && s.delivered < |s.commits|
    requires r.values == s.values && r.delivered == s.delivered + 1
    ensures k != SEARCH ==>
              forall d: Data :: Clears(ActionsOf(s.commits[s.delivered]), k, Some(d)) ==> AsOf(r, k, d)
  {
    hide Touches, TouchesData, ActionsOf, Clears;
    assert Announced(s.values[s.delivered], s.values[s.delivered + 1], s.commits[s.delivered]);
    if k != SEARCH {
      forall d: Data | Clears(ActionsOf(s.commits[s.delivered]), k, Some(d))
        ensures AsOf(r, k, d)
      {
        assert d == r.values[s.delivered + 1](k);
      }
    }
  }

  /** One ticket through a delivery: it is retired, or its answer is still fresh. */
  lemma DeliverTicket(s: System, r: System, p: Pending)
    requires Inv(s) && s.delivered < |s.commits| && TicketOk(s, p)
    requires r.WellFormed() && s.nextId <= r.nextId
    requires r.commits == s.commits && r.values == s.values && r.delivered == s.delivered + 1
    requires var k := p.ticket.key;
             k in r.queries ==>
               && k in s.queries && Ages(s.queries[k], r.queries[k])
               && (r.queries[k].epoch == s.queries[k].epoch ==> !Touches(ActionsOf(s.commits[s.delivered]), k))
    ensures TicketOk(r, p)
  {
    hide Touches, TouchesData, ActionsOf, Announced, Fresh, QueryOk;
    var k := p.ticket.key;
    if p.answer.Some? && Current(r.queries, p.ticket) {
      assert Current(s.queries, p.ticket);
      if p.answer.value.Snapshot? {
        NoData(ActionsOf(s.commits[s.delivered]), k, Some(p.answer.value.value));
        FreshAfter(s, r, k, p.answer.value.value);
      } else {
        TouchAfter(s, r, k);
      }
    }
  }

  lemma TouchAfter(s: System, r: System, k: Key)
    requires s.WellFormed() && s.delivered < |s.commits| && TouchPending(s, k)
    requires r.commits == s.commits && r.delivered == s.delivered + 1
    requires !Touches(ActionsOf(s.commits[s.delivered]), k)
    ensures TouchPending(r, k)
  {
    hide Touches, ActionsOf;
    var c :| s.delivered <= c < |s.commits| && Touches(ActionsOf(s.commits[c]), k);
    assert c != s.delivered;
  }

  lemma BumpKeeps(s: System)
    requires Inv(s)
    ensures Inv(Bumped(s))
  {
    hide TicketOk, Announced, Fresh, ReadOk;
    BuildKeeps(s, SEARCH);
    var b := Built(s, SEARCH);
    var q := b.queries[SEARCH];
    assert QueryOk(b, SEARCH, q);
    EntryKeeps(b, SEARCH, q.WithData(NextRevision(q.data)));
    assert Bumped(s) == WithQuery(b, SEARCH, q.WithData(NextRevision(q.data)));
  }

  lemma DeliverKeeps(s: System)
    requires Inv(s) && s.delivered < |s.commits| && forall k :: !Exposed(s, k)
    ensures Inv(Delivered(s))
  {
    hide QueryOk, TicketOk, Announced, ActAll, Touches, ActionsOf, Exposed, Bumps;
    var e, clock := s.commits[s.delivered], s.delivered + 1;
    var r := s.(queries := Perform(s.queries, ActionsOf(e), clock), delivered := clock);
    forall k | k in s.queries
      ensures k in r.queries ==>
                && QueryOk(r, k, r.queries[k]) && Ages(s.queries[k], r.queries[k])
                && (r.queries[k].epoch == s.queries[k].epoch ==> !Touches(ActionsOf(e), k))
    {
      DeliverEntry(s, r, k);
    }
    forall i | 0 <= i < |r.pending|
      ensures TicketOk(r, r.pending[i])
    {
      DeliverTicket(s, r, s.pending[i]);
    }
    assert Inv(r);
    if Bumps(e) {
      BumpKeeps(r);
    }
  }

  // ---- whole runs ----

  /** Every step keeps the invariant. */
  lemma StepKeeps(s: System, step: Step, r: System)
    requires Inv(s) && Takes(s, step, r)
    ensures Inv(r)
  {
    hide Inv, Exposed, QueryOk, TicketOk, Delivered, PublishedTo, Perform, Touches, ActionsOf, Announced;
    match step
    case Commit(event, value) => CommitKeeps(s, event, value);
    case CommandCommit(_, _, _, _) => CommandCommitKeeps(s, step);
    case Deliver => DeliverKeeps(s);
    case Capture(key) => CaptureKeeps(s, key);
    case Answered(i) =>
      NowIsFresh(s, s.pending[i].ticket.key);
      AnswerKeeps(s, i, Snapshot(s.Now()(s.pending[i].ticket.key)));
    case Publish(i) => PublishKeeps(s, i);
    case Build(key) => BuildKeeps(s, key);
    case Evict(key) => EvictKeeps(s, key);
    case LocalRefresh(selection) => RefreshKeeps(s, selection);
    case _ => EntryStepKeeps(s, step);
  }

  lemma {:induction false} RunKeeps(states: seq<System>, i: nat)
    requires Run(states) && i < |states|
    ensures Inv(states[i])
  {
    hide Inv, Takes;
    if i == 0 {
      InitialInv(states[0]);
    } else {
      RunKeeps(states, i - 1);
      assert Follows(states[i - 1], states[i - 1 + 1]);
      var step :| Takes(states[i - 1], step, states[i]);
      StepKeeps(states[i - 1], step, states[i]);
    }
  }

  lemma InitialInv(s: System)
    requires Initial(s)
    ensures Inv(s)
  {
  }

  /** Every cached snapshot that is not marked invalid is the backend's present one. */
  ghost predicate Agrees(s: System)
    requires s.WellFormed()
  {
    forall k :: k in s.queries && k != SEARCH && s.queries[k].data.Some? && !s.queries[k].invalid ==>
      s.queries[k].data.value == s.Now()(k)
  }

  /** Once all events are delivered the cache agrees with the backend. */
  lemma Agreement(states: seq<System>, i: nat)
    requires Run(states) && i < |states| && states[i].delivered == |states[i].commits|
    ensures states[i].WellFormed() && Agrees(states[i])
  {
    hide TicketOk, Announced, Run;
    RunKeeps(states, i);
    var s := states[i];
    forall k | k in s.queries && k != SEARCH && s.queries[k].data.Some? && !s.queries[k].invalid
      ensures s.queries[k].data.value == s.Now()(k)
    {
      assert QueryOk(s, k, s.queries[k]);
    }
  }

  /** No read begun before a delivered event that concerns its key is still in flight, so
      none can land after it. */
  lemma NoLateReads(states: seq<System>, i: nat, k: Key, c: nat)
    requires Run(states) && i < |states| && k in states[i].queries && states[i].queries[k].read.Some?
    requires c < states[i].delivered <= |states[i].commits| && Touches(ActionsOf(states[i].commits[c]), k)
    ensures states[i].queries[k].read.value.started > c
  {
    hide TicketOk, Announced, Fresh, Run, Touches, ActionsOf;
    RunKeeps(states, i);
    assert QueryOk(states[i], k, states[i].queries[k]);
  }
}
