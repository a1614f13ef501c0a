/** The replica follows the log. */
module ReplicaLaws {
  import opened Results
  import opened Oplog
  import opened Replica

  // ---- one operation ----

  /** An entry at or below the cursor is skipped. */
  lemma ApplyOld(e: Engine, r: Replica, log: Log, s: Sequenced)
    requires InSync(r, log) && 1 <= s.seqno <= r.cursor && log[s.seqno - 1] == s.op
    ensures ApplyOne(e, r, s) == Done(r)
  {
    if id :| id in r.applied && r.applied[id] == Some(s.seqno) && id != s.op.id {
      StampIsIndex(r, log, id);
    }
  }

  lemma StampIsIndex(r: Replica, log: Log, id: nat)
    requires InSync(r, log) && id in r.applied && r.applied[id].Some?
    ensures 1 <= r.applied[id].value <= r.cursor && log[r.applied[id].value - 1].id == id
  {
    forall i | 0 <= i < |r.outbox|
      ensures r.outbox[i].id != id
    {
    }
    var i :| 0 <= i < r.cursor && log[..r.cursor][i].id == id;
  }

  lemma NextIsNew(r: Replica, log: Log)
    requires InSync(r, log) && r.cursor < |log|
    ensures var op := log[r.cursor];
            && !Has(log[..r.cursor], op.id)
            && (op.id in r.applied ==> r.applied[op.id] == None && op in r.outbox)
            && (op.id !in r.applied ==> !Has(r.outbox, op.id) && !Has(r.history, op.id))
  {
    var op := log[r.cursor];
    if op.id in r.applied {
      if r.applied[op.id].Some? {
        StampIsIndex(r, log, op.id);
      }
      var i :| 0 <= i < |r.outbox| && r.outbox[i].id == op.id;
      assert r.outbox[i] == op;
    } else {
      forall x | x in r.outbox
        ensures x.id != op.id
      {
        var j :| 0 <= j < |r.outbox| && r.outbox[j] == x;
      }
      forall i | 0 <= i < |r.history|
        ensures r.history[i].id != op.id
      {
        assert r.history[i] in r.history;
      }
    }
  }

  lemma StampKeeps(r: Replica, log: Log)
    requires InSync(r, log) && r.cursor < |log|
    ensures InSync(WithNext(r, log), log)
  {
    HistoryAfter(r, log);
    StampsAfter(r, log);
    ApartAfter(r, log);
    hide StampsOk, HistoryOk, Disjoint, Honest;
    var op := log[r.cursor];
    RemoveHas(r.outbox, op.id);
  }

  /** The prefix and the outbox still share no id, and the outbox is still honest. */
  lemma ApartAfter(r: Replica, log: Log)
    requires InSync(r, log) && r.cursor < |log|
    ensures var next := WithNext(r, log);
            Disjoint(log[..next.cursor], next.outbox) && Honest(next.outbox, log)
  {
    hide StampsOk;
    var op, next := log[r.cursor], WithNext(r, log);
    RemoveHas(r.outbox, op.id);
    forall i, j | 0 <= i < next.cursor && 0 <= j < |next.outbox|
      ensures log[i].id != next.outbox[j].id
    {
      assert next.outbox[j] in r.outbox && next.outbox[j].id != op.id;
      var k :| 0 <= k < |r.outbox| && r.outbox[k] == next.outbox[j];
      if i < r.cursor {
        assert log[..r.cursor][i] == log[i];
      }
    }
    forall i, j | 0 <= i < |next.outbox| && 0 <= j < |log| && next.outbox[i].id == log[j].id
      ensures next.outbox[i] == log[j]
    {
      assert next.outbox[i] in r.outbox;
      var k :| 0 <= k < |r.outbox| && r.outbox[k] == next.outbox[i];
    }
  }

  ghost predicate HistoryOk(r: Replica, log: Log)
    requires r.cursor <= |log|
  {
    && DistinctIds(r.history)
    && forall x :: x in r.history <==> x in log[..r.cursor] || x in r.outbox
  }

  lemma HistoryAfter(r: Replica, log: Log)
    requires InSync(r, log) && r.cursor < |log|
    ensures HistoryOk(WithNext(r, log), log)
  {
    hide StampsOk;
    var next := WithNext(r, log);
    var op := log[r.cursor];
    NextIsNew(r, log);
    RemoveHas(r.outbox, op.id);
    assert log[..r.cursor + 1] == log[..r.cursor] + [op];
    forall x
      ensures x in next.history <==> x in log[..next.cursor] || x in next.outbox
    {
      if x in r.outbox && x.id == op.id {
        var i :| 0 <= i < |r.outbox| && r.outbox[i] == x;
        assert x == op;
      }
    }
  }

  /** The replica with the next entry of the log applied or stamped. */
  function WithNext(r: Replica, log: Log): (next: Replica)
    requires r.cursor < |log|
  {
    var op := log[r.cursor];
    Stamped(r, Sequenced(r.cursor + 1, op)).(history := if op.id in r.applied then r.history else r.history + [op])
  }

  lemma StampsAfter(r: Replica, log: Log)
    requires InSync(r, log) && r.cursor < |log|
    ensures StampsOk(WithNext(r, log), log)
  {
    var next := WithNext(r, log);
    forall id | id in next.applied
      ensures Has(log[..next.cursor], id) || Has(next.outbox, id)
    {
      StampedSomewhere(r, log, id);
    }
    LogStampedAfter(r, log);
    OutboxAfter(r, log);
    hide Has, LogStamped, OutboxUnstamped, InSync;
  }

  lemma LogStampedAfter(r: Replica, log: Log)
    requires InSync(r, log) && r.cursor < |log|
    ensures LogStamped(WithNext(r, log), log)
  {
    hide Remove;
  }

  lemma OutboxAfter(r: Replica, log: Log)
    requires InSync(r, log) && r.cursor < |log|
    ensures OutboxUnstamped(WithNext(r, log))
  {
    var op, next := log[r.cursor], WithNext(r, log);
    RemoveHas(r.outbox, op.id);
    forall i | 0 <= i < |next.outbox|
      ensures next.outbox[i].id in next.applied && next.applied[next.outbox[i].id] == None
    {
      assert next.outbox[i] in r.outbox;
    }
  }

  lemma StampedSomewhere(r: Replica, log: Log, id: nat)
    requires InSync(r, log) && r.cursor < |log| && (id in r.applied || id == log[r.cursor].id)
    ensures Has(log[..r.cursor + 1], id) || Has(Remove(r.outbox, log[r.cursor].id), id)
  {
    var op, prefix := log[r.cursor], log[..r.cursor + 1];
    assert prefix[r.cursor] == op;
    RemoveHas(r.outbox, op.id);
    if id != op.id {
      if Has(log[..r.cursor], id) {
        var i :| 0 <= i < r.cursor && log[..r.cursor][i].id == id;
        assert prefix[i].id == id;
      } else {
        var i :| 0 <= i < |r.outbox| && r.outbox[i].id == id;
        var rest := Remove(r.outbox, op.id);
        assert r.outbox[i] in rest;
        var k :| 0 <= k < |rest| && rest[k] == r.outbox[i];
      }
    }
  }

  /** The next entry of the log: applied, or only stamped if it was authored here; refused
      only by the engine. */
  lemma ApplyNext(e: Engine, r: Replica, log: Log)
    requires InSync(r, log) && r.cursor < |log|
    ensures var result := ApplyOne(e, r, Sequenced(r.cursor + 1, log[r.cursor]));
            && (result.Failed? <==> log[r.cursor].id !in r.applied && !e.accepts(r.history, log[r.cursor]))
            && (result.Failed? ==> result.error == Refused)
            && (result.Done? ==>
                  && InSync(result.value, log) && result.value.cursor == r.cursor + 1
                  && result.value.outbox == Remove(r.outbox, log[r.cursor].id)
                  && (Mirrors(r, log) ==> Mirrors(result.value, log)))
  {
    hide InSync;
    var s := Sequenced(r.cursor + 1, log[r.cursor]);
    NextIsNew(r, log);
    var result := ApplyOne(e, r, s);
    if result.Done? {
      StampKeeps(r, log);
      assert result.value == WithNext(r, log);
      if Mirrors(r, log) {
        assert log[..r.cursor + 1] == log[..r.cursor] + [log[r.cursor]];
      }
    }
  }

  // ---- replay ----

  /** Replaying the entries after the cursor, up to n, applies each once and in order. */
  lemma {:induction false} ApplySince(e: Engine, r: Replica, log: Log, n: nat)
    requires InSync(r, log) && r.cursor + n <= |log|
    ensures var result := ApplyAll(e, r, Since(log, r.cursor, n));
            && (result.Failed? ==> result.error == Refused)
            && (result.Done? ==> InSync(result.value, log) && result.value.cursor == r.cursor + n)
            && (result.Done? && Mirrors(r, log) ==> Mirrors(result.value, log))
            && (Willing(e) ==> result.Done?)
    decreases n
  {
    hide InSync, ApplyOne, Mirrors;
    if n > 0 {
      ApplyNext(e, r, log);
      var ss := Since(log, r.cursor, n);
      var s := Sequenced(r.cursor + 1, log[r.cursor]);
      assert ss[0] == s;
      var one := ApplyOne(e, r, s);
      if one.Done? {
        assert ss[1..] == Since(log, r.cursor + 1, n - 1);
        ApplySince(e, one.value, log, n - 1);
      }
    }
  }

  /** An engine that refuses nothing. */
  ghost predicate Willing(e: Engine) {
    && (forall op :: e.valid(op))
    && (forall history, op :: e.accepts(history, op))
    && (forall history :: e.finishes(history))
  }

  // ---- appending many ----

  /** Appending in turn; on failure, how far it got. */
  function AppendAll(log: Log, ops: seq<Op>): (r: (Log, Reply<seq<Appended>>))
    decreases |ops|
  {
    if ops == [] then (log, Done([]))
    else
      match AppendOne(log, ops[0])
      case Failed(why) => (log, Failed(why))
      case Done((next, one)) =>
        var rest := AppendAll(next, ops[1..]);
        (rest.0, match rest.1 case Failed(why) => Failed(why) case Done(more) => Done([one] + more))
  }

  function Operations(outs: seq<Appended>): (ss: seq<Sequenced>)
    ensures |ss| == |outs| && forall i :: 0 <= i < |outs| ==> ss[i] == outs[i].operation
  {
    seq(|outs|, i requires 0 <= i < |outs| => outs[i].operation)
  }

  /** The log only grows, keeps its ids distinct, and every input has the number of its place
      in it. */
  lemma {:induction false} AppendAllGrows(log: Log, ops: seq<Op>)
    requires DistinctIds(log)
    ensures var r := AppendAll(log, ops);
            && log <= r.0 && DistinctIds(r.0) && |r.0| <= |log| + |ops|
            && (r.1.Done? ==>
                  && |r.1.value| == |ops|
                  && forall i :: 0 <= i < |ops| ==>
                       var s := r.1.value[i].operation;
                       s.op == ops[i] && 1 <= s.seqno <= |r.0| && r.0[s.seqno - 1] == ops[i])
    decreases |ops|
  {
    hide AppendOne;
    if ops != [] {
      AppendOneGrows(log, ops[0]);
      var one := AppendOne(log, ops[0]);
      if one.Done? {
        AppendAllGrows(one.value.0, ops[1..]);
      }
    }
  }

  lemma AppendOneGrows(log: Log, op: Op)
    requires DistinctIds(log)
    ensures var r := AppendOne(log, op);
            r.Done? ==>
              && log <= r.value.0 && DistinctIds(r.value.0) && |r.value.0| <= |log| + 1
              && r.value.1.operation.op == op
              && 1 <= r.value.1.operation.seqno <= |r.value.0| && r.value.0[r.value.1.operation.seqno - 1] == op
              && (r.value.1.inserted ==> r.value.0 == log + [op] && r.value.1.operation.seqno == |log| + 1)
              && (!r.value.1.inserted ==> r.value.0 == log)
  {
    if AppendOne(log, op).Done? {
      AppendKeepsDistinct(log, op);
    }
  }

  /** Applying what was just appended: from a replica that has applied the whole log, only
      the engine can refuse, and afterwards it has applied the whole grown log. */
  lemma {:induction false} IngestApplies(e: Engine, r: Replica, log: Log, ops: seq<Op>)
    requires InSync(r, log) && r.cursor == |log| && Honest(r.outbox, ops) && AppendAll(log, ops).1.Done?
    ensures var (grown, outs) := AppendAll(log, ops);
            var result := ApplyAll(e, r, Operations(outs.value));
            && (result.Failed? ==> result.error == Refused)
            && (result.Done? ==>
                  && InSync(result.value, grown) && result.value.cursor == |grown|
                  && result.value.outbox == RemoveAll(r.outbox, ops))
            && (result.Done? && Mirrors(r, log) ==> Mirrors(result.value, grown))
            && (Willing(e) ==> result.Done?)
    decreases |ops|
  {
    hide InSync, ApplyOne, Mirrors, AppendOne;
    if ops != [] {
      var one := AppendOne(log, ops[0]);
      var (next, out) := one.value;
      var rest := AppendAll(next, ops[1..]).1;
      var ss := Operations([out] + rest.value);
      assert ss[0] == out.operation && ss[1..] == Operations(rest.value);
      AppendedApplies(e, r, log, ops[0]);
      var applied := ApplyOne(e, r, out.operation);
      if applied.Done? {
        RemoveHas(r.outbox, ops[0].id);
        HonestRest(r.outbox, applied.value.outbox, ops);
        IngestApplies(e, applied.value, next, ops[1..]);
      }
    } else {
      assert Operations([]) == [];
    }
  }

  lemma HonestRest(before: seq<Op>, after: seq<Op>, ops: seq<Op>)
    requires Honest(before, ops) && ops != [] && forall x <- after :: x in before
    ensures Honest(after, ops[1..])
  {
    forall i, j | 0 <= i < |after| && 0 <= j < |ops| - 1 && after[i].id == ops[1..][j].id
      ensures after[i] == ops[1..][j]
    {
      assert after[i] in before;
      var k :| 0 <= k < |before| && before[k] == after[i];
      assert ops[j + 1] == ops[1..][j];
    }
  }

  lemma AppendedApplies(e: Engine, r: Replica, log: Log, op: Op)
    requires InSync(r, log) && r.cursor == |log| && AppendOne(log, op).Done? && Honest(r.outbox, [op])
    ensures var (next, out) := AppendOne(log, op).value;
            var result := ApplyOne(e, r, out.operation);
            && (result.Failed? ==> result.error == Refused && !Willing(e))
            && (result.Done? ==>
                  && InSync(result.value, next) && result.value.cursor == |next|
                  && result.value.outbox == Remove(r.outbox, op.id))
            && (result.Done? && Mirrors(r, log) ==> Mirrors(result.value, next))
  {
    hide InSync, ApplyOne, Honest;
    LogIsDistinct(r, log);
    AppendOneGrows(log, op);
    var (next, out) := AppendOne(log, op).value;
    if out.inserted {
      SameAfterAppend(r, log, op);
      ApplyNext(e, r, next);
      assert next[..r.cursor] == log[..r.cursor];
    } else {
      ApplyOld(e, r, log, out.operation);
      LoggedIsPublished(r, log, out.operation.seqno - 1);
      RemoveOther(r.outbox, op.id);
    }
  }

  lemma LogIsDistinct(r: Replica, log: Log)
    requires InSync(r, log)
    ensures DistinctIds(log) && r.cursor <= |log|
  {
  }

  /** What the log already holds up to the cursor is not waiting to be published. */
  lemma LoggedIsPublished(r: Replica, log: Log, i: nat)
    requires InSync(r, log) && i < r.cursor
    ensures forall x <- r.outbox :: x.id != log[i].id
  {
    forall x | x in r.outbox
      ensures x.id != log[i].id
    {
      var j :| 0 <= j < |r.outbox| && r.outbox[j] == x;
      assert log[..r.cursor][i] == log[i];
    }
  }
}
