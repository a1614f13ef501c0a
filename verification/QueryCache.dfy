/** The client's query cache: entries, and what cancelling, invalidating, publishing and
    removing do to one of them. */
module QueryCache {
  import opened Results

  type Key = seq<string>

  /** The snapshots the code looks into; other contents are opaque. */
  datatype Data =
    | NullData
    | EmptyList
    | Backlinks(blocks: seq<string>, pages: seq<string>, body: nat)
    | Content(body: nat)

  /** A read in flight: when it began, counted in delivered events, and what it has read. */
  datatype Read = Read(started: nat, sampled: Option<Data>)

  /** A cached query. `id` stands for the identity of the query object; its epoch starts at
      zero and belongs to that object. */
  datatype Query = Query(
    id: nat,
    epoch: nat,
    data: Option<Data>,
    invalid: bool,
    observers: nat,
    read: Option<Read>)
  {
    function Advanced(): (q: Query) {
      this.(epoch := epoch + 1)
    }

    /** Cancelling discards the read in flight. */
    function Cancelled(): (q: Query) {
      this.(read := None)
    }

    /** Invalidating marks the entry and reads it again if something observes it. */
    function Invalidated(clock: nat): (q: Query) {
      this.(invalid := true, read := if observers > 0 then Some(Read(clock, None)) else read)
    }

    function WithData(d: Data): (q: Query) {
      this.(data := Some(d), invalid := false)
    }

    function Refreshed(clock: nat): (q: Query) {
      Advanced().Cancelled().Invalidated(clock)
    }

    /** An acknowledged snapshot: earlier reads are retired, then the data is stored, or
        read again if there is none to patch. */
    function Published(answer: Answer, clock: nat): (q: Query) {
      var retired := Advanced().Cancelled();
      var d := answer.Applied(retired.data);
      if d.None? then retired.Invalidated(clock) else retired.WithData(d.value)
    }
  }

  function NewQuery(id: nat): (q: Query) {
    Query(id, 0, None, false, 0, None)
  }

  /** What a command brings back: a snapshot, or a patch of the cached one. */
  datatype Answer = Snapshot(value: Data) | Patch(f: Option<Data> -> Option<Data>) {
    function Applied(previous: Option<Data>): (d: Option<Data>) {
      if Snapshot? then Some(value) else f(previous)
    }
  }

  /** A captured publication: the query and its epoch when the command was sent. */
  datatype Ticket = Ticket(key: Key, id: nat, epoch: nat)

  type Queries = map<Key, Query>

  datatype Selection = Selection(key: Key, exact: bool) {
    predicate Has(k: Key) {
      if exact then k == key else key <= k
    }
  }

  /** The ticket still names the cached query in its present epoch. */
  predicate Current(qs: Queries, t: Ticket) {
    t.key in qs && qs[t.key].id == t.id && qs[t.key].epoch == t.epoch
  }

  // ---- keys ----

  const ROOT: Key := ["backend"]
  const PAGES: Key := ROOT + ["pages"]
  const JOURNALS: Key := ROOT + ["journals"]
  const GRAPH: Key := ROOT + ["graph"]
  const BACKLINKS: Key := ROOT + ["backlinks"]
  const ATTACHMENT_IMAGES: Key := ROOT + ["attachments", "images"]
  const HISTORY: Key := ROOT + ["history"]
  const SEARCH: Key := ROOT + ["search-revision"]
  const SETTINGS: Key := ROOT + ["settings"]
  const HANDWRITING_STATUS: Key := ROOT + ["handwriting-status"]
  const SYNC_STATUS: Key := ROOT + ["sync-status"]
  const SERVER_AI: Key := ROOT + ["server-ai"]

  function PageKey(uuid: string): (k: Key) { ROOT + ["page", uuid] }
  function DocumentKey(uuid: string): (k: Key) { ROOT + ["page-document", uuid] }
  function RenderKey(uuid: string): (k: Key) { ROOT + ["page-render", uuid] }
  function BlockKey(uuid: string): (k: Key) { ROOT + ["block", uuid] }
  function ChildrenKey(uuid: string): (k: Key) { ROOT + ["children", uuid] }
  function AttachmentsKey(uuid: string): (k: Key) { ROOT + ["attachments", uuid] }
  function StatusKey(uuid: string): (k: Key) { HANDWRITING_STATUS + [uuid] }
  function VersionsKey(uuid: string): (k: Key) { ROOT + ["handwriting-version", uuid] }

  // ---- what an event does to the cache ----

  datatype Action =
    | Refresh(selection: Selection)
    | RemoveInactive(selection: Selection)
    | Remove(key: Key)
    | Clear(key: Key, empty: Data)
    | RemoveInactiveNull(key: Key)
    | RefreshEmbedding(sources: seq<string>, owners: seq<string>)

  function Exact(k: Key): (a: Action) { Refresh(Selection(k, true)) }

  function Family(k: Key): (a: Action) { Refresh(Selection(k, false)) }

  /** A backlink snapshot that embeds a changed block or page, or cannot be inspected. */
  predicate Embeds(d: Option<Data>, sources: seq<string>, owners: seq<string>) {
    d.None? || !d.value.Backlinks?
    || (exists i :: 0 <= i < |d.value.blocks| && d.value.blocks[i] in sources)
    || (exists i :: 0 <= i < |d.value.pages| && d.value.pages[i] in owners)
  }

  /** One action on the entry with key k. */
  function Act(q: Query, a: Action, k: Key, clock: nat): (r: Option<Query>) {
    match a
    case Refresh(selection) => if selection.Has(k) then Some(q.Refreshed(clock)) else Some(q)
    case RemoveInactive(selection) => if selection.Has(k) && q.observers == 0 then None else Some(q)
    case Remove(key) => if k == key then None else Some(q)
    case Clear(key, empty) =>
      if k != key then Some(q)
      else if q.observers == 0 then None
      else Some(q.Published(Snapshot(empty), clock))
    case RemoveInactiveNull(key) =>
      if k == key && q.observers == 0 && q.data == Some(NullData) then None else Some(q)
    case RefreshEmbedding(sources, owners) =>
      if BACKLINKS <= k && Embeds(q.data, sources, owners) then Some(q.Refreshed(clock)) else Some(q)
  }

  /** All actions, in order, on the entry with key k. */
  function ActAll(q: Option<Query>, actions: seq<Action>, k: Key, clock: nat): (r: Option<Query>)
    decreases |actions|
  {
    if q.None? || actions == [] then q
    else ActAll(Act(q.value, actions[0], k, clock), actions[1..], k, clock)
  }

  function Perform(qs: Queries, actions: seq<Action>, clock: nat): (r: Queries) {
    map k | k in qs && ActAll(Some(qs[k]), actions, k, clock).Some? ::
      ActAll(Some(qs[k]), actions, k, clock).value
  }

  lemma {:induction false} ActAllJoin(q: Option<Query>, a: seq<Action>, b: seq<Action>, k: Key, clock: nat)
    ensures ActAll(q, a + b, k, clock) == ActAll(ActAll(q, a, k, clock), b, k, clock)
    decreases |a|
  {
    if q.Some? && a != [] {
      ActAllJoin(Act(q.value, a[0], k, clock), a[1..], b, k, clock);
      assert (a + b)[1..] == a[1..] + b;
    } else {
      assert a == [] ==> a + b == b;
    }
  }

  /** Performing one list of actions after another is performing both. */
  lemma PerformJoin(qs: Queries, a: seq<Action>, b: seq<Action>, clock: nat)
    ensures Perform(Perform(qs, a, clock), b, clock) == Perform(qs, a + b, clock)
  {
    forall k | k in qs
      ensures ActAll(Some(qs[k]), a + b, k, clock) == ActAll(ActAll(Some(qs[k]), a, k, clock), b, k, clock)
    {
      ActAllJoin(Some(qs[k]), a, b, k, clock);
    }
  }

  // ---- which keys actions concern ----

  /** The action concerns the key whatever is cached. */
  predicate Concerns(a: Action, k: Key) {
    match a
    case Refresh(selection) => selection.Has(k)
    case Remove(key) => k == key
    case Clear(key, _) => k == key
    case _ => false
  }

  /** The action concerns the key because of the cached snapshot. */
  predicate ConcernsData(a: Action, k: Key, d: Option<Data>) {
    a.RefreshEmbedding? && BACKLINKS <= k && Embeds(d, a.sources, a.owners)
  }

  predicate Touches(actions: seq<Action>, k: Key) {
    exists i :: 0 <= i < |actions| && Concerns(actions[i], k)
  }

  predicate TouchesData(actions: seq<Action>, k: Key, d: Option<Data>) {
    exists i :: 0 <= i < |actions| && ConcernsData(actions[i], k, d)
  }

  predicate Clears(actions: seq<Action>, k: Key, d: Option<Data>) {
    exists i :: 0 <= i < |actions| && actions[i].Clear? && actions[i].key == k && d == Some(actions[i].empty)
  }

  /** An entry whose earlier reads and tickets are retired, and whose data is marked invalid
      or says that nothing is there. */
  predicate Settled(q: Query, actions: seq<Action>, k: Key, clock: nat, epoch: nat) {
    && q.epoch > epoch
    && (q.read.Some? ==> q.read.value == Read(clock, None))
    && (q.invalid || Clears(actions, k, q.data))
  }

  lemma OneSettles(q: Query, a: Action, k: Key, clock: nat)
    ensures var r := Act(q, a, k, clock);
            r.Some? ==>
              && r.value.id == q.id && r.value.epoch >= q.epoch
              && (Concerns(a, k) || ConcernsData(a, k, q.data) ==> Settled(r.value, [a], k, clock, q.epoch))
              && (!Concerns(a, k) && !ConcernsData(a, k, q.data) ==> r.value == q)
  {
    if a.Clear? {
      assert [a][0] == a;
    }
  }

  lemma ClearsMore(actions: seq<Action>, rest: seq<Action>, k: Key, d: Option<Data>)
    requires Clears(actions, k, d)
    ensures Clears(actions + rest, k, d) && Clears(rest + actions, k, d)
  {
    var i :| 0 <= i < |actions| && actions[i].Clear? && actions[i].key == k && d == Some(actions[i].empty);
    assert (actions + rest)[i] == actions[i] && (rest + actions)[|rest| + i] == actions[i];
  }

  /** What settled stays settled; and settling happens as soon as an action concerns the key. */
  lemma {:induction false} ActsSettle(q: Query, before: seq<Action>, actions: seq<Action>, k: Key, clock: nat, epoch: nat)
    requires Settled(q, before, k, clock, epoch)
    ensures var r := ActAll(Some(q), actions, k, clock);
            r.Some? ==> r.value.id == q.id && Settled(r.value, before + actions, k, clock, epoch)
    decreases |actions|
  {
    hide Act, Clears, Concerns, ConcernsData;
    if actions == [] {
      assert before + actions == before;
    } else {
      var a, rest := actions[0], actions[1..];
      OneSettles(q, a, k, clock);
      var r := Act(q, a, k, clock);
      if r.Some? {
        if Concerns(a, k) || ConcernsData(a, k, q.data) {
          if Clears([a], k, r.value.data) {
            ClearsMore([a], before, k, r.value.data);
          }
        } else if Clears(before, k, q.data) {
          ClearsMore(before, [a], k, q.data);
        }
        ActsSettle(r.value, before + [a], rest, k, clock, epoch);
        assert before + [a] + rest == before + actions;
      }
    }
  }

  /** The effect of a list of actions on an entry: settled if they touch it, and otherwise
      left as it is or removed. */
  lemma {:induction false} ActsOn(q: Query, before: seq<Action>, actions: seq<Action>, k: Key, clock: nat)
    ensures var r := ActAll(Some(q), actions, k, clock);
            r.Some? ==>
              && r.value.id == q.id
              && (Touches(actions, k) || TouchesData(actions, k, q.data) ==>
                    Settled(r.value, before + actions, k, clock, q.epoch))
              && (!Touches(actions, k) && !TouchesData(actions, k, q.data) ==> r.value == q)
    decreases |actions|
  {
    hide Act, Clears, Concerns, ConcernsData;
    if actions != [] {
      var a, rest := actions[0], actions[1..];
      OneSettles(q, a, k, clock);
      var r := Act(q, a, k, clock);
      assert before + [a] + rest == before + actions;
      TouchesSplit(a, rest, k, q.data);
      assert actions == [a] + rest;
      if r.Some? {
        if Concerns(a, k) || ConcernsData(a, k, q.data) {
          if Clears([a], k, r.value.data) {
            ClearsMore([a], before, k, r.value.data);
          }
          ActsSettle(r.value, before + [a], rest, k, clock, q.epoch);
        } else {
          ActsOn(q, before + [a], rest, k, clock);
        }
      }
    }
  }

  lemma TouchesSplit(a: Action, rest: seq<Action>, k: Key, d: Option<Data>)
    ensures Touches([a] + rest, k) <==> Concerns(a, k) || Touches(rest, k)
    ensures TouchesData([a] + rest, k, d) <==> ConcernsData(a, k, d) || TouchesData(rest, k, d)
  {
    hide Concerns, ConcernsData;
    var all := [a] + rest;
    assert all[0] == a && forall i :: 0 <= i < |rest| ==> all[i + 1] == rest[i];
  }
}
