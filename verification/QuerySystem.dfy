/** The cache, the backend it mirrors and everything that may interleave. */
module QuerySystem {
  import opened Results
  import opened QueryCache
  import opened QueryEvents

  type Snapshots = Key -> Data

  /** A ticket, and the answer its command has come back with. */
  datatype Pending = Pending(ticket: Ticket, answer: Option<Answer>)

  /** The cache; the backend's history, `values[v]` being its snapshots after v commits and
      `commits[v]` the event of the next one; how many events have been delivered; and the
      commands under way. */
  datatype System = System(
    queries: Queries,
    nextId: nat,
    delivered: nat,
    commits: seq<Event>,
    values: seq<Snapshots>,
    pending: seq<Pending>)
  {
    ghost predicate WellFormed() {
      && |values| == |commits| + 1 && delivered <= |commits|
      && forall v :: 0 <= v < |commits| ==> Announced(values[v], values[v + 1], commits[v])
    }

    function Now(): (v: Snapshots)
      requires |values| > 0
    {
      values[|values| - 1]
    }
  }

  /** What an event promises: a snapshot it does not concern is unchanged, and one it clears
      is empty afterwards. The search signal is not a snapshot. */
  ghost predicate Announced(before: Snapshots, after: Snapshots, e: Event) {
    forall k :: k != SEARCH ==>
      && (after(k) == before(k) || Touches(ActionsOf(e), k) || TouchesData(ActionsOf(e), k, Some(before(k))))
      && (forall d: Data :: Clears(ActionsOf(e), k, Some(d)) ==> after(k) == d)
  }

  // ---- what may happen ----

  datatype Step =
    | Commit(event: Event, value: Snapshots)
    | CommandCommit(event: Event, value: Snapshots, command: nat, patch: Option<Data> -> Option<Data>)
    | Deliver
    | Capture(key: Key)
    | Answered(command: nat)
    | Publish(command: nat)
    | Build(key: Key)
    | Observe(key: Key)
    | Unobserve(key: Key)
    | StartRead(key: Key)
    | Sample(key: Key)
    | EndRead(key: Key)
    | FailRead(key: Key)
    | Evict(key: Key)
    | LocalRefresh(selection: Selection)

  /** The event is judged by the backlink snapshots that are cached. */
  predicate Inspects(actions: seq<Action>) {
    exists i :: 0 <= i < |actions| && actions[i].RefreshEmbedding?
  }

  /** The event about to be delivered inspects the entry and leaves it alone although a read
      of it is under way: the snapshot inspected is the cached one, not the one being read. */
  predicate Unjudged(s: System, k: Key) {
    && s.delivered < |s.commits| && k in s.queries && k != SEARCH
    && var q := s.queries[k];
       && q.read.Some?
       && Inspects(ActionsOf(s.commits[s.delivered])) && !Touches(ActionsOf(s.commits[s.delivered]), k)
       && !TouchesData(ActionsOf(s.commits[s.delivered]), k, q.data)
       && BACKLINKS <= k
  }

  /** And the entry is marked invalid, so the snapshot inspected may be older than the one
      being read. */
  predicate Exposed(s: System, k: Key) {
    Unjudged(s, k) && s.queries[k].invalid
  }

  /** When a step can happen. */
  ghost predicate Enabled(s: System, step: Step)
    requires s.WellFormed()
  {
    match step
    case Commit(event, value) => Announced(s.Now(), value, event)
    case CommandCommit(event, value, i, _) =>
      && Announced(s.Now(), value, event)
      && i < |s.pending| && s.pending[i].answer.None? && Touches(ActionsOf(event), s.pending[i].ticket.key)
    case Deliver => s.delivered < |s.commits|
    case Capture(key) => key != SEARCH && !(BACKLINKS <= key)
    case Answered(i) => i < |s.pending| && s.pending[i].answer.None?
    case Publish(i) => i < |s.pending| && s.pending[i].answer.Some?
    case Build(key) => key !in s.queries
    case Observe(key) => key in s.queries
    case Unobserve(key) => key in s.queries && s.queries[key].observers > 0
    case StartRead(key) => key in s.queries
    case Sample(key) => key in s.queries && s.queries[key].read.Some? && s.queries[key].read.value.sampled.None?
    case EndRead(key) => key in s.queries && s.queries[key].read.Some? && s.queries[key].read.value.sampled.Some?
    case FailRead(key) => key in s.queries && s.queries[key].read.Some?
    case Evict(key) => key in s.queries && s.queries[key].observers == 0
    case LocalRefresh(_) => true
  }

  function WithQuery(s: System, k: Key, q: Query): (r: System) {
    s.(queries := s.queries[k := q])
  }

  /** The cache entry for a key, made if absent. */
  function Built(s: System, k: Key): (r: System)
    ensures k in r.queries
  {
    if k in s.queries then s else s.(queries := s.queries[k := NewQuery(s.nextId)], nextId := s.nextId + 1)
  }

  /** Publishing an answer: the acknowledged data if the ticket is current; otherwise only
      an idle entry is read again. */
  function PublishedTo(qs: Queries, t: Ticket, answer: Answer, clock: nat): (r: Queries) {
    if t.key !in qs then qs
    else
      var q := qs[t.key];
      if Current(qs, t) then qs[t.key := q.Published(answer, clock)]
      else if q.read.None? then qs[t.key := q.Invalidated(clock)]
      else qs
  }

  /** The search signal counts up. */
  function BumpedQueries(qs: Queries, nextId: nat): (r: (Queries, nat)) {
    if SEARCH in qs then (qs[SEARCH := qs[SEARCH].WithData(NextRevision(qs[SEARCH].data))], nextId)
    else (qs[SEARCH := NewQuery(nextId).WithData(NextRevision(None))], nextId + 1)
  }

  function Bumped(s: System): (r: System) {
    var b := BumpedQueries(s.queries, s.nextId);
    s.(queries := b.0, nextId := b.1)
  }

  function NextRevision(d: Option<Data>): (r: Data) {
    if d.Some? && d.value.Content? then Content(d.value.body + 1) else Content(1)
  }

  function Delivered(s: System): (r: System)
    requires s.delivered < |s.commits|
  {
    var e := s.commits[s.delivered];
    var clock := s.delivered + 1;
    var r := s.(queries := Perform(s.queries, ActionsOf(e), clock), delivered := clock);
    if Bumps(e) then Bumped(r) else r
  }

  ghost function After(s: System, step: Step): (r: System)
    requires s.WellFormed() && Enabled(s, step)
  {
    match step
    case Commit(event, value) => s.(commits := s.commits + [event], values := s.values + [value])
    case CommandCommit(event, value, i, patch) =>
      s.(commits := s.commits + [event], values := s.values + [value],
         pending := s.pending[i := s.pending[i].(answer := Some(Patch(patch)))])
    case Deliver => Delivered(s)
    case Capture(key) =>
      var b := Built(s, key);
      b.(pending := b.pending + [Pending(Ticket(key, b.queries[key].id, b.queries[key].epoch), None)])
    case Answered(i) =>
      s.(pending := s.pending[i := s.pending[i].(answer := Some(Snapshot(s.Now()(s.pending[i].ticket.key))))])
    case Publish(i) =>
      s.(queries := PublishedTo(s.queries, s.pending[i].ticket, s.pending[i].answer.value, s.delivered))
    case Build(key) => Built(s, key)
    case Observe(key) => WithQuery(s, key, s.queries[key].(observers := s.queries[key].observers + 1))
    case Unobserve(key) => WithQuery(s, key, s.queries[key].(observers := s.queries[key].observers - 1))
    case StartRead(key) => WithQuery(s, key, s.queries[key].(read := Some(Read(s.delivered, None))))
    case Sample(key) =>
      var q := s.queries[key];
      WithQuery(s, key, q.(read := Some(q.read.value.(sampled := Some(s.Now()(key))))))
    case EndRead(key) =>
      var q := s.queries[key];
      WithQuery(s, key, q.WithData(q.read.value.sampled.value).Cancelled())
    case FailRead(key) => WithQuery(s, key, s.queries[key].Cancelled())
    case Evict(key) => s.(queries := s.queries - {key})
    case LocalRefresh(selection) => s.(queries := Perform(s.queries, [Refresh(selection)], s.delivered))
  }

  /** Runs, in which an event is only delivered when it leaves no invalid entry alone that is
      being read. */
  ghost predicate Run(states: seq<System>) {
    && states != [] && Initial(states[0])
    && forall i :: 0 <= i < |states| - 1 ==> Follows(states[i], states[i + 1])
  }

  ghost predicate Initial(s: System) {
    s.WellFormed() && s.queries == map[] && s.pending == []
  }

  ghost predicate Follows(s: System, r: System) {
    exists step :: Takes(s, step, r)
  }

  ghost predicate Takes(s: System, step: Step, r: System) {
    s.WellFormed() && Enabled(s, step) && (step.Deliver? ==> forall k :: !Exposed(s, k)) && r == After(s, step)
  }

  // ---- the invariant ----

  /** A commit whose event is still to come concerns the key. */
  ghost predicate TouchPending(s: System, k: Key) {
    exists c :: s.delivered <= c < |s.commits| && Touches(ActionsOf(s.commits[c]), k)
  }

  /** The snapshot is the backend's as of a version no older than the events delivered. */
  ghost predicate AsOf(s: System, k: Key, d: Data) {
    exists v :: s.delivered <= v < |s.values| && d == s.values[v](k)
  }

  ghost predicate Fresh(s: System, k: Key, d: Data) {
    AsOf(s, k, d) || TouchPending(s, k)
  }

  ghost predicate QueryOk(s: System, k: Key, q: Query) {
    && q.id < s.nextId
    && (k != SEARCH && q.data.Some? && !q.invalid ==> Fresh(s, k, q.data.value))
    && (q.read.Some? ==> ReadOk(s, k, q.read.value))
    && (k != SEARCH && q.data.Some? && !q.invalid && q.read.Some? && q.read.value.sampled.Some? ==>
          InOrder(s, k, q.data.value, q.read.value.sampled.value))
  }

  /** The second snapshot is no older than the first, and neither is older than the events
      delivered. */
  ghost predicate InOrder(s: System, k: Key, d: Data, e: Data) {
    TouchPending(s, k)
    || exists v, w :: s.delivered <= v <= w < |s.values| && d == s.values[v](k) && e == s.values[w](k)
  }

  /** A read began after every delivered event that concerns its key, and what it has
      sampled is fresh. */
  ghost predicate ReadOk(s: System, k: Key, r: Read) {
    && r.started <= s.delivered
    && (forall c :: r.started <= c < s.delivered && c < |s.commits| ==> !Touches(ActionsOf(s.commits[c]), k))
    && (k != SEARCH && r.sampled.Some? ==> Fresh(s, k, r.sampled.value))
  }

  ghost predicate TicketOk(s: System, p: Pending) {
    && p.ticket.id < s.nextId && p.ticket.key != SEARCH && !(BACKLINKS <= p.ticket.key)
    && (p.ticket.key in s.queries && s.queries[p.ticket.key].id == p.ticket.id ==>
          p.ticket.epoch <= s.queries[p.ticket.key].epoch)
    && (p.answer.Some? && Current(s.queries, p.ticket) ==> AnswerOk(s, p.ticket.key, p.answer.value))
  }

  ghost predicate AnswerOk(s: System, k: Key, a: Answer) {
    if a.Snapshot? then Fresh(s, k, a.value) else TouchPending(s, k)
  }

  ghost predicate Inv(s: System) {
    && s.WellFormed()
    && (forall k <- s.queries :: QueryOk(s, k, s.queries[k]))
    && (forall i :: 0 <= i < |s.pending| ==> TicketOk(s, s.pending[i]))
  }
}
