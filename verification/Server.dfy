/** One user's server: ingesting batches, replaying the log, publishing authored work. */
module Server {
  import opened Results
  import opened Oplog
  import opened Replica
  import opened ReplicaLaws

  const INGEST_LIMIT: nat := 256
  const REPLAY_BATCH: nat := 1_000
  const OUTBOX_BATCH: nat := 256

  // ---- the log while a batch is appended ----

  lemma {:induction false} AppendAllJoin(log: Log, a: seq<Op>, b: seq<Op>)
    requires AppendAll(log, a).1.Done?
    ensures var (next, done) := AppendAll(log, a);
            var (last, more) := AppendAll(next, b);
            AppendAll(log, a + b)
            == (last, match more case Failed(why) => Failed(why) case Done(outs) => Done(done.value + outs))
    decreases |a|
  {
    hide AppendOne;
    if a == [] {
      assert a + b == b;
      var more := AppendAll(log, b).1;
      if more.Done? {
        assert [] + more.value == more.value;
      }
    } else {
      assert (a + b)[0] == a[0] && (a + b)[1..] == a[1..] + b;
      var one := AppendOne(log, a[0]).value;
      AppendAllJoin(one.0, a[1..], b);
      var done := AppendAll(one.0, a[1..]);
      var more := AppendAll(done.0, b).1;
      if more.Done? {
        assert [one.1] + (done.1.value + more.value) == [one.1] + done.1.value + more.value;
      }
    }
  }

  lemma AppendNext(log: Log, ops: seq<Op>, i: nat)
    requires i < |ops| && AppendAll(log, ops[..i]).1.Done?
    ensures var (next, done) := AppendAll(log, ops[..i]);
            var one := AppendOne(next, ops[i]);
            && (one.Failed? ==> AppendAll(log, ops).1 == Failed(one.error))
            && (one.Done? ==> AppendAll(log, ops[..i + 1]) == (one.value.0, Done(done.value + [one.value.1])))
  {
    hide AppendOne;
    var (next, done) := AppendAll(log, ops[..i]);
    var one := AppendOne(next, ops[i]);
    assert ops[i..][0] == ops[i] && ops[i..][1..] == ops[i + 1..];
    assert ops == ops[..i] + ops[i..] && ops[..i + 1] == ops[..i] + [ops[i]];
    AppendAllJoin(log, ops[..i], ops[i..]);
    AppendAllJoin(log, ops[..i], [ops[i]]);
    if one.Done? {
      AppendSingle(next, ops[i]);
    }
  }

  lemma AppendSingle(log: Log, op: Op)
    requires AppendOne(log, op).Done?
    ensures AppendAll(log, [op]) == (AppendOne(log, op).value.0, Done([AppendOne(log, op).value.1]))
  {
    assert [op][1..] == [];
    var one := AppendOne(log, op).value;
    assert AppendAll(one.0, []) == (one.0, Done([]));
    assert [one.1] + [] == [one.1];
  }

  /** The log with the inserted operations of `outs` behind it. */
  function Grown(log: Log, outs: seq<Appended>): (r: Log) {
    if outs == [] then log
    else
      var last := outs[|outs| - 1];
      var before := Grown(log, outs[..|outs| - 1]);
      if last.inserted then before + [last.operation.op] else before
  }

  /** Every inserted operation was the tail when it was appended. */
  ghost predicate TailsInTurn(log: Log, outs: seq<Appended>) {
    forall i :: 0 <= i < |outs| && outs[i].inserted ==>
      outs[i].operation.seqno == |Grown(log, outs[..i])| + 1
  }

  lemma TailsGrow(log: Log, outs: seq<Appended>, out: Appended)
    requires TailsInTurn(log, outs) && (out.inserted ==> out.operation.seqno == |Grown(log, outs)| + 1)
    ensures TailsInTurn(log, outs + [out])
    ensures Grown(log, outs + [out]) == if out.inserted then Grown(log, outs) + [out.operation.op] else Grown(log, outs)
  {
    hide Grown;
    var all := outs + [out];
    forall i | 0 <= i < |all| && all[i].inserted
      ensures all[i].operation.seqno == |Grown(log, all[..i])| + 1
    {
      if i < |outs| {
        assert all[..i] == outs[..i];
      } else {
        assert all[..i] == outs;
      }
    }
    GrownLast(log, outs, out);
  }

  lemma GrownLast(log: Log, outs: seq<Appended>, out: Appended)
    ensures Grown(log, outs + [out]) == if out.inserted then Grown(log, outs) + [out.operation.op] else Grown(log, outs)
  {
    assert (outs + [out])[..|outs|] == outs;
  }

  // ---- one ingest as a function of the state ----

  /** A batch: at most 256 operations, appended and then applied; otherwise nothing changes. */
  function Ingested(e: Engine, r: Replica, log: Log, ops: seq<Op>): (result: Reply<(Replica, Log, seq<Sequenced>)>) {
    if |ops| > INGEST_LIMIT then Failed(TooMany)
    else
      var (grown, outs) := AppendAll(log, ops);
      match outs
      case Failed(why) => Failed(why)
      case Done(appended) =>
        match ApplyBatch(e, r, Operations(appended))
        case Failed(why) => Failed(why)
        case Done(next) => Done((next, grown, Operations(appended)))
  }

  // ---- what one ingest keeps ----

  /** No id stands for two operations. */
  ghost predicate NoReuse(ops: seq<Op>) {
    forall i, j :: 0 <= i < |ops| && 0 <= j < |ops| && ops[i].id == ops[j].id ==> ops[i] == ops[j]
  }

  /** Appending succeeds exactly when no id is used for two different operations, in the log
      and the batch together. */
  lemma {:induction false} AppendAllSucceeds(log: Log, ops: seq<Op>)
    requires DistinctIds(log)
    ensures AppendAll(log, ops).1.Done? <==> NoReuse(log + ops)
    decreases |ops|
  {
    hide AppendAll, IndexOf;
    AppendAllUnfold(log, ops);
    if ops == [] {
      assert log + ops == log;
    } else {
      var one := AppendOne(log, ops[0]);
      AppendOneReuse(log, ops[0]);
      if one.Done? {
        AppendOneGrows(log, ops[0]);
        AppendAllSucceeds(one.value.0, ops[1..]);
        ReuseShift(log, ops, one.value.0);
      } else {
        var k :| 0 <= k < |log| && log[k].id == ops[0].id && log[k] != ops[0];
        assert (log + ops)[k] == log[k] && (log + ops)[|log|] == ops[0];
      }
    }
  }

  lemma AppendAllUnfold(log: Log, ops: seq<Op>)
    ensures ops == [] ==> AppendAll(log, ops).1.Done?
    ensures ops != [] ==>
              (AppendAll(log, ops).1.Done?
               <==> AppendOne(log, ops[0]).Done? && AppendAll(AppendOne(log, ops[0]).value.0, ops[1..]).1.Done?)
  {
    hide AppendOne;
  }

  lemma AppendOneReuse(log: Log, op: Op)
    requires DistinctIds(log)
    ensures AppendOne(log, op).Failed? <==> exists k :: 0 <= k < |log| && log[k].id == op.id && log[k] != op
    ensures AppendOne(log, op).Done? && !AppendOne(log, op).value.1.inserted ==> op in log
  {
    if k :| 0 <= k < |log| && log[k].id == op.id && log[k] != op {
      IndexUnique(log, k, op.id);
    }
  }

  lemma ReuseShift(log: Log, ops: seq<Op>, next: Log)
    requires ops != [] && (next == log + [ops[0]] || (next == log && ops[0] in log))
    ensures NoReuse(log + ops) <==> NoReuse(next + ops[1..])
  {
    var a, b := log + ops, next + ops[1..];
    assert a == log + [ops[0]] + ops[1..];
    assert forall x :: x in a <==> x in b;
    if NoReuse(b) {
      SameReuse(a, b);
    }
    if NoReuse(a) {
      SameReuse(b, a);
    }
  }

  lemma SameReuse(a: seq<Op>, b: seq<Op>)
    requires (forall x :: x in a <==> x in b) && NoReuse(b)
    ensures NoReuse(a)
  {
    forall i, j | 0 <= i < |a| && 0 <= j < |a| && a[i].id == a[j].id
      ensures a[i] == a[j]
    {
      assert a[i] in b && a[j] in b;
      var k :| 0 <= k < |b| && b[k] == a[i];
      var m :| 0 <= m < |b| && b[m] == a[j];
    }
  }

  /** A replica that has applied the whole log. */
  ghost predicate Ready(r: Replica, log: Log) {
    InSync(r, log) && r.cursor == |log|
  }

  /** An ingest keeps log and notes in step, answers every input in order with its place in
      the log, and fails only for a batch that is too large, a reused id, or the engine. */
  lemma IngestKeeps(e: Engine, r: Replica, log: Log, ops: seq<Op>)
    requires Ready(r, log) && Honest(r.outbox, ops) && |log| + |ops| <= I64_MAX
    ensures var result := Ingested(e, r, log, ops);
            && (result.Done? ==>
                  var (next, grown, accepted) := result.value;
                  && Ready(next, grown) && log <= grown
                  && (Mirrors(r, log) ==> Mirrors(next, grown))
                  && |accepted| == |ops|
                  && (forall i :: 0 <= i < |ops| ==>
                        && accepted[i].op == ops[i] && 1 <= accepted[i].seqno <= |grown|
                        && grown[accepted[i].seqno - 1] == ops[i])
                  && next.outbox == RemoveAll(r.outbox, ops) && |grown| <= |log| + |ops|)
            && (Willing(e) ==> (result.Done? <==> |ops| <= INGEST_LIMIT && NoReuse(log + ops)))
            && (result.Failed? ==>
                  || |ops| > INGEST_LIMIT || !NoReuse(log + ops)
                  || result.error == Refused)
  {
    hide InSync, AppendAll, ApplyAll, Mirrors, NoReuse, Honest, Willing;
    LogIsDistinct(r, log);
    AppendAllSucceeds(log, ops);
    if AppendAll(log, ops).1.Done? {
      IngestApplies(e, r, log, ops);
      AppendAllGrows(log, ops);
      BatchAccepted(e, r, Operations(AppendAll(log, ops).1.value));
    }
  }

  lemma BatchAccepted(e: Engine, r: Replica, ss: seq<Sequenced>)
    requires forall i :: 0 <= i < |ss| ==> ss[i].seqno <= I64_MAX
    ensures ApplyBatch(e, r, ss).Done? ==> ApplyBatch(e, r, ss) == ApplyAll(e, r, ss)
    ensures Willing(e) && ApplyAll(e, r, ss).Done? ==> ApplyBatch(e, r, ss).Done?
    ensures ApplyBatch(e, r, ss).Failed? && ApplyAll(e, r, ss).Done? ==> ApplyBatch(e, r, ss).error == Refused
    ensures ApplyBatch(e, r, ss).Failed? && ApplyAll(e, r, ss).Failed? ==>
              ApplyBatch(e, r, ss).error == Refused || ApplyBatch(e, r, ss).error == ApplyAll(e, r, ss).error
  {
  }

  /** The operations waiting to be published are not in the log yet, so publishing them
      reuses no id. */
  lemma OutboxIsNew(r: Replica, log: Log, k: nat)
    requires Ready(r, log) && k <= |r.outbox|
    ensures NoReuse(log + r.outbox[..k]) && Honest(r.outbox, r.outbox[..k])
  {
    var all := log + r.outbox[..k];
    assert log[..r.cursor] == log;
    forall i, j | 0 <= i < |all| && 0 <= j < |all| && all[i].id == all[j].id
      ensures all[i] == all[j]
    {
      assert all[i] == if i < |log| then log[i] else r.outbox[i - |log|];
      assert all[j] == if j < |log| then log[j] else r.outbox[j - |log|];
    }
  }

  class User {
    const oplog: OplogTable
    var notes: Replica

    constructor (table: OplogTable, replica: Replica)
      ensures oplog == table && notes == replica
    {
      oplog, notes := table, replica;
    }

    /** Takes the inserted operations off the log again, last first. */
    method RollBack(appends: seq<Appended>, ghost log: Log) returns (r: Reply<()>)
      requires oplog.Valid() && oplog.Contents() == Grown(log, appends) && TailsInTurn(log, appends)
      requires |oplog.Contents()| <= I64_MAX
      modifies oplog
      ensures oplog.Valid() && oplog.Contents() == log && r.Done?
    {
      assert appends[..|appends|] == appends;
      for i := |appends| downto 0
        invariant oplog.Valid() && oplog.Contents() == Grown(log, appends[..i])
        invariant |oplog.Contents()| <= I64_MAX
      {
        assert appends[..i + 1] == appends[..i] + [appends[i]];
        GrownLast(log, appends[..i], appends[i]);
        if appends[i].inserted {
          r := oplog.RemoveTail(appends[i].operation);
          if r.Failed? {
            return;
          }
        }
      }
      r := Done(());
    }

    /** Ingesting a batch. On success there is one entry per input, in order; on failure the
        log and the notes are as before. */
    method Ingest(e: Engine, ops: seq<Op>) returns (r: Reply<seq<Sequenced>>)
      requires oplog.Valid() && |oplog.Contents()| + |ops| <= I64_MAX
      modifies this, oplog
      ensures oplog.Valid()
      ensures var before := Ingested(e, old(notes), old(oplog.Contents()), ops);
              && (r.Done? <==> before.Done?)
              && (r.Done? ==> (notes, oplog.Contents(), r.value) == before.value)
              && (r.Failed? ==> notes == old(notes) && oplog.Contents() == old(oplog.Contents()))
    {
      hide AppendOne, ApplyBatch, AppendAll, Grown, TailsInTurn;
      if |ops| > INGEST_LIMIT {
        return Failed(TooMany);
      }
      ghost var log := oplog.Contents();
      var appends: seq<Appended> := [];
      NothingAppended(log);
      assert ops[..0] == [];
      for i := 0 to |ops|
        invariant oplog.Valid() && notes == old(notes) && |oplog.Contents()| <= |log| + i
        invariant AppendAll(log, ops[..i]) == (oplog.Contents(), Done(appends))
        invariant oplog.Contents() == Grown(log, appends) && TailsInTurn(log, appends)
      {
        AppendNext(log, ops, i);
        AppendShape(oplog.Contents(), ops[i]);
        var append := oplog.Append(ops[i]);
        if append.Failed? {
          var rolled := RollBack(appends, log);
          return Failed(append.error);
        }
        TailsGrow(log, appends, append.value);
        appends := appends + [append.value];
      }
      assert ops[..|ops|] == ops;
      var applied := ApplySequencedBatch(e, notes, Operations(appends));
      if applied.Failed? {
        var rolled := RollBack(appends, log);
        return Failed(applied.error);
      }
      notes := applied.value;
      r := Done(Operations(appends));
    }

    /** Replaying the log after the cursor, in batches. Each entry is applied once and in
        order; on success the cursor is the latest number. */
    method ReplayOplog(e: Engine) returns (r: Reply<()>)
      requires oplog.Valid() && InSync(notes, oplog.Contents()) && |oplog.Contents()| <= I64_MAX
      modifies this
      ensures InSync(notes, oplog.Contents()) && notes.cursor >= old(notes.cursor)
      ensures var log := oplog.Contents();
              ApplyAll(e, old(notes), Since(log, old(notes.cursor), notes.cursor - old(notes.cursor))) == Done(notes)
      ensures r.Done? ==> notes.cursor == |oplog.Contents()|
      ensures Willing(e) ==> r.Done?
    {
      hide InSync, ApplyAll, Since;
      ghost var log := oplog.Contents();
      var cursor := notes.cursor;
      NothingSince(e, notes, log);
      while true
        invariant InSync(notes, log) && cursor == notes.cursor && old(notes.cursor) <= cursor <= |log|
        invariant ApplyAll(e, old(notes), Since(log, old(notes.cursor), cursor - old(notes.cursor))) == Done(notes)
        decreases |log| - cursor
      {
        var operations := oplog.OpsSince(cursor, REPLAY_BATCH);
        if operations.Failed? {
          return Failed(OutOfRange);
        }
        SinceShape(log, cursor, REPLAY_BATCH);
        if operations.value == [] {
          return Done(());
        }
        var batch := operations.value;
        cursor := batch[|batch| - 1].seqno;
        ApplySince(e, notes, log, |batch|);
        SinceJoins(e, old(notes), notes, log, |batch|);
        BatchWilling(e, notes, batch);
        var applied := ApplySequencedBatch(e, notes, batch);
        if applied.Failed? {
          return Failed(applied.error);
        }
        notes := applied.value;
      }
    }

    /** One batch of the outbox. */
    method PublishBatch(e: Engine, operations: seq<Op>) returns (r: Reply<seq<Sequenced>>)
      requires oplog.Valid() && Ready(notes, oplog.Contents())
      requires 0 < |operations| <= |notes.outbox| && operations == notes.outbox[..|operations|]
      requires |oplog.Contents()| + |notes.outbox| <= I64_MAX && |operations| <= OUTBOX_BATCH
      modifies this, oplog
      ensures oplog.Valid() && Ready(notes, oplog.Contents()) && old(oplog.Contents()) <= oplog.Contents()
      ensures r.Done? ==> notes.outbox == old(notes.outbox)[|operations|..]
      ensures r.Done? ==> |oplog.Contents()| <= |old(oplog.Contents())| + |operations|
      ensures r.Done? ==> forall x <- operations :: x in oplog.Contents()
      ensures Willing(e) ==> r.Done?
    {
      hide Ready, Ingested, NoReuse, Honest, Willing, Mirrors;
      ghost var log := oplog.Contents();
      OutboxIsNew(notes, log, |operations|);
      IngestKeeps(e, notes, log, operations);
      ReadyOutbox(notes, log);
      RemoveFront(notes.outbox, |operations|);
      r := Ingest(e, operations);
    }

    /** Draining the outbox in batches. On success nothing waits any more, and everything
        that waited is in the log. */
    method PublishAuthoredOps(e: Engine) returns (r: Reply<()>)
      requires oplog.Valid() && Ready(notes, oplog.Contents())
      requires |oplog.Contents()| + |notes.outbox| <= I64_MAX
      modifies this, oplog
      ensures oplog.Valid() && Ready(notes, oplog.Contents()) && old(oplog.Contents()) <= oplog.Contents()
      ensures r.Done? ==> notes.outbox == [] && forall x <- old(notes.outbox) :: x in oplog.Contents()
      ensures Willing(e) ==> r.Done?
    {
      hide Ready, Willing;
      while true
        invariant oplog.Valid() && Ready(notes, oplog.Contents()) && old(oplog.Contents()) <= oplog.Contents()
        invariant |oplog.Contents()| + |notes.outbox| <= I64_MAX
        invariant forall x <- old(notes.outbox) :: x in oplog.Contents() || x in notes.outbox
        decreases |notes.outbox|
      {
        var operations := notes.outbox[..Min(OUTBOX_BATCH, |notes.outbox|)];
        if operations == [] {
          return Done(());
        }
        var full := |operations| == OUTBOX_BATCH;
        var batch := PublishBatch(e, operations);
        if batch.Failed? {
          return Failed(batch.error);
        }
        if !full {
          return Done(());
        }
      }
    }
  }

  lemma ReadyOutbox(r: Replica, log: Log)
    requires Ready(r, log)
    ensures DistinctIds(r.outbox)
  {
  }

  lemma NothingAppended(log: Log)
    ensures AppendAll(log, []) == (log, Done([])) && Grown(log, []) == log && TailsInTurn(log, [])
  {
  }

  lemma AppendShape(log: Log, op: Op)
    ensures var r := AppendOne(log, op);
            r.Done? ==>
              && r.value.0 == (if r.value.1.inserted then log + [op] else log)
              && (r.value.1.inserted ==> r.value.1.operation == Sequenced(|log| + 1, op))
  {
  }

  lemma NothingSince(e: Engine, r: Replica, log: Log)
    requires InSync(r, log)
    ensures r.cursor <= |log| && ApplyAll(e, r, Since(log, r.cursor, 0)) == Done(r)
  {
  }

  /** A batch is the entries up to its length, and is empty only at the end. */
  lemma SinceShape(log: Log, cursor: nat, limit: nat)
    requires cursor <= |log| && limit > 0
    ensures var batch := Since(log, cursor, limit);
            && batch == Since(log, cursor, |batch|) && cursor + |batch| <= |log|
            && (batch == [] <==> cursor == |log|)
            && (batch != [] ==> batch[|batch| - 1].seqno == cursor + |batch|)
            && forall i :: 0 <= i < |batch| ==> batch[i].seqno <= |log|
  {
  }

  lemma SinceJoins(e: Engine, first: Replica, r: Replica, log: Log, n: nat)
    requires first.cursor <= r.cursor && r.cursor + n <= |log|
    requires ApplyAll(e, first, Since(log, first.cursor, r.cursor - first.cursor)) == Done(r)
    ensures ApplyAll(e, first, Since(log, first.cursor, r.cursor + n - first.cursor))
            == ApplyAll(e, r, Since(log, r.cursor, n))
  {
    var a, b := Since(log, first.cursor, r.cursor - first.cursor), Since(log, r.cursor, n);
    assert Since(log, first.cursor, r.cursor + n - first.cursor) == a + b;
    ApplyAllJoin(e, first, a, b);
  }

  lemma BatchWilling(e: Engine, r: Replica, batch: seq<Sequenced>)
    requires Willing(e) ==> ApplyAll(e, r, batch).Done?
    requires forall i :: 0 <= i < |batch| ==> batch[i].seqno <= I64_MAX
    ensures Willing(e) ==> ApplyBatch(e, r, batch).Done?
    ensures ApplyBatch(e, r, batch).Done? ==> ApplyBatch(e, r, batch) == ApplyAll(e, r, batch)
  {
  }
}
