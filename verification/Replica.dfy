/** The notes replica: applying operations in their sequence order. */
module Replica {
  import opened Results
  import opened Oplog

  /** The apply engine: which operations are valid, which it accepts on top of those
      applied so far, and whether its projections can be finished. */
  datatype Engine = Engine(
    valid: Op -> bool,
    accepts: (seq<Op>, Op) -> bool,
    finishes: seq<Op> -> bool)

  /** A replica: the operations applied, in order; the sequence cursor; the number stamped on
      each applied operation, if it has one; and the authored operations not yet published.
      The contents of the notes are a function of the operations applied. */
  datatype Replica = Replica(
    history: seq<Op>,
    cursor: nat,
    applied: map<nat, Option<nat>>,
    outbox: seq<Op>)

  function Remove(outbox: seq<Op>, id: nat): (r: seq<Op>) {
    if outbox == [] then []
    else if outbox[0].id == id then Remove(outbox[1..], id)
    else [outbox[0]] + Remove(outbox[1..], id)
  }

  function RemoveAll(outbox: seq<Op>, ops: seq<Op>): (r: seq<Op>)
    decreases |ops|
  {
    if ops == [] then outbox else RemoveAll(Remove(outbox, ops[0].id), ops[1..])
  }

  /** One sequenced operation. */
  function ApplyOne(e: Engine, r: Replica, s: Sequenced): (result: Reply<Replica>) {
    if s.seqno <= r.cursor then
      if exists id <- r.applied :: r.applied[id] == Some(s.seqno) && id != s.op.id then Failed(Conflict) else Done(r)
    else if s.seqno != r.cursor + 1 then Failed(Gap)
    else if s.op.id in r.applied then
      if r.applied[s.op.id].Some? && r.applied[s.op.id].value != s.seqno then Failed(Conflict)
      else Done(Stamped(r, s))
    else if !e.accepts(r.history, s.op) then Failed(Refused)
    else Done(Stamped(r, s).(history := r.history + [s.op]))
  }

  function Stamped(r: Replica, s: Sequenced): (result: Replica) {
    r.(applied := r.applied[s.op.id := Some(s.seqno)], outbox := Remove(r.outbox, s.op.id), cursor := s.seqno)
  }

  function ApplyAll(e: Engine, r: Replica, ss: seq<Sequenced>): (result: Reply<Replica>)
    decreases |ss|
  {
    if ss == [] then Done(r)
    else
      match ApplyOne(e, r, ss[0])
      case Failed(why) => Failed(why)
      case Done(next) => ApplyAll(e, next, ss[1..])
  }

  predicate AllValid(e: Engine, ss: seq<Sequenced>) {
    forall i :: 0 <= i < |ss| ==> ss[i].seqno <= I64_MAX && e.valid(ss[i].op)
  }

  /** A batch, applied as a whole or not at all. */
  function ApplyBatch(e: Engine, r: Replica, ss: seq<Sequenced>): (result: Reply<Replica>) {
    if !AllValid(e, ss) then Failed(Refused)
    else
      match ApplyAll(e, r, ss)
      case Failed(why) => Failed(why)
      case Done(next) => if e.finishes(next.history) then Done(next) else Failed(Refused)
  }

  lemma {:induction false} ApplyAllJoin(e: Engine, r: Replica, a: seq<Sequenced>, b: seq<Sequenced>)
    ensures ApplyAll(e, r, a + b)
            == match ApplyAll(e, r, a) case Failed(why) => Failed(why) case Done(next) => ApplyAll(e, next, b)
    decreases |a|
  {
    hide ApplyOne;
    if a == [] {
      assert a + b == b;
    } else {
      assert (a + b)[1..] == a[1..] + b && (a + b)[0] == a[0];
      if ApplyOne(e, r, a[0]).Done? {
        ApplyAllJoin(e, ApplyOne(e, r, a[0]).value, a[1..], b);
      }
    }
  }

  /** The transaction loop. */
  method ApplySequencedBatch(e: Engine, r: Replica, ss: seq<Sequenced>) returns (result: Reply<Replica>)
    ensures result == ApplyBatch(e, r, ss)
  {
    hide ApplyOne;
    for i := 0 to |ss|
      invariant forall j :: 0 <= j < i ==> ss[j].seqno <= I64_MAX && e.valid(ss[j].op)
    {
      if ss[i].seqno > I64_MAX || !e.valid(ss[i].op) {
        return Failed(Refused);
      }
    }
    var next := r;
    assert ss[0..] == ss;
    for i := 0 to |ss|
      invariant ApplyAll(e, r, ss) == ApplyAll(e, next, ss[i..])
    {
      assert ss[i..][1..] == ss[i + 1..] && ss[i..][0] == ss[i];
      var one := ApplyOne(e, next, ss[i]);
      if one.Failed? {
        return Failed(one.error);
      }
      next := one.value;
    }
    result := if e.finishes(next.history) then Done(next) else Failed(Refused);
  }

  // ---- agreement with the log ----

  predicate Has(ops: seq<Op>, id: nat) {
    exists i :: 0 <= i < |ops| && ops[i].id == id
  }

  /** No id of one list occurs in the other. */
  ghost predicate Disjoint(a: seq<Op>, b: seq<Op>) {
    forall i, j :: 0 <= i < |a| && 0 <= j < |b| ==> a[i].id != b[j].id
  }

  /** An operation waiting to be published is never in the log under another payload. */
  ghost predicate Honest(outbox: seq<Op>, ops: seq<Op>) {
    forall i, j :: 0 <= i < |outbox| && 0 <= j < |ops| && outbox[i].id == ops[j].id ==> outbox[i] == ops[j]
  }

  /** The operations applied are those of the log up to the cursor and those waiting to be
      published, each once; and the stamps say which is which. */
  ghost predicate InSync(r: Replica, log: Log) {
    && DistinctIds(log) && r.cursor <= |log|
    && DistinctIds(r.history) && DistinctIds(r.outbox) && Disjoint(log[..r.cursor], r.outbox)
    && (forall x :: x in r.history <==> x in log[..r.cursor] || x in r.outbox)
    && StampsOk(r, log)
    && Honest(r.outbox, log)
  }

  ghost predicate StampsOk(r: Replica, log: Log)
    requires r.cursor <= |log|
  {
    LogStamped(r, log) && OutboxUnstamped(r) && forall id <- r.applied :: Has(log[..r.cursor], id) || Has(r.outbox, id)
  }

  ghost predicate LogStamped(r: Replica, log: Log)
    requires r.cursor <= |log|
  {
    forall i :: 0 <= i < r.cursor ==> log[i].id in r.applied && r.applied[log[i].id] == Some(i + 1)
  }

  ghost predicate OutboxUnstamped(r: Replica) {
    forall i :: 0 <= i < |r.outbox| ==> r.outbox[i].id in r.applied && r.applied[r.outbox[i].id] == None
  }

  /** Without authored operations, the replica has applied the log up to its cursor, in
      order. */
  ghost predicate Mirrors(r: Replica, log: Log) {
    r.cursor <= |log| && r.outbox == [] && r.history == log[..r.cursor]
  }

  lemma {:induction false} RemoveHas(outbox: seq<Op>, id: nat)
    ensures forall x :: x in Remove(outbox, id) <==> x in outbox && x.id != id
    ensures DistinctIds(outbox) ==> DistinctIds(Remove(outbox, id))
    ensures |Remove(outbox, id)| <= |outbox|
  {
    if outbox != [] {
      RemoveHas(outbox[1..], id);
      assert outbox == [outbox[0]] + outbox[1..];
      if DistinctIds(outbox) {
        assert DistinctIds(outbox[1..]);
        var rest := Remove(outbox[1..], id);
        forall k | 0 <= k < |rest|
          ensures rest[k].id != outbox[0].id
        {
          assert rest[k] in outbox[1..];
        }
      }
    }
  }

  lemma {:induction false} RemoveOther(outbox: seq<Op>, id: nat)
    requires !Has(outbox, id)
    ensures Remove(outbox, id) == outbox
  {
    if outbox != [] {
      assert outbox[0].id != id;
      forall i | 0 <= i < |outbox| - 1
        ensures outbox[1..][i].id != id
      {
        assert outbox[1..][i] == outbox[i + 1];
      }
      RemoveOther(outbox[1..], id);
    }
  }

  lemma SameAfterAppend(r: Replica, log: Log, op: Op)
    requires InSync(r, log) && DistinctIds(log + [op]) && Honest(r.outbox, [op])
    ensures InSync(r, log + [op])
  {
    assert (log + [op])[..r.cursor] == log[..r.cursor];
    var more := log + [op];
    forall i, j | 0 <= i < |r.outbox| && 0 <= j < |more| && r.outbox[i].id == more[j].id
      ensures r.outbox[i] == more[j]
    {
      if j == |log| {
        assert [op][0] == more[j];
      }
    }
  }

  /** Removing the first k operations leaves the others. */
  lemma {:induction false} RemoveFront(outbox: seq<Op>, k: nat)
    requires k <= |outbox| && DistinctIds(outbox)
    ensures RemoveAll(outbox, outbox[..k]) == outbox[k..]
    decreases k
  {
    if k > 0 {
      forall i | 0 <= i < |outbox| - 1
        ensures outbox[1..][i].id != outbox[0].id
      {
        assert outbox[1..][i] == outbox[i + 1];
      }
      RemoveOther(outbox[1..], outbox[0].id);
      assert Remove(outbox, outbox[0].id) == outbox[1..];
      assert outbox[..k][1..] == outbox[1..][..k - 1];
      RemoveFront(outbox[1..], k - 1);
    }
  }
}
