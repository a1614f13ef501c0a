/** Whole lives of a server, crashes included. */
module ServerRuns {
  import opened Results
  import opened Oplog
  import opened Replica
  import opened ReplicaLaws
  import opened Server

  /** What is on disk: the log and the notes. */
  datatype State = State(log: Log, notes: Replica)

  datatype Step =
    | Batch(ops: seq<Op>)
    | Author(op: Op)
    | Crash(ops: seq<Op>, tail: seq<Op>)
    | Replay(n: nat)

  /** A batch is ingested, or an operation authored, only once the whole log is applied. A
      crash may come anywhere between the first append of a batch and the end of its
      application or roll-back: some of the operations it appends are then in the log. */
  ghost predicate Takes(e: Engine, s: State, step: Step, r: State) {
    match step
    case Batch(ops) =>
      && s.notes.cursor == |s.log| && Honest(s.notes.outbox, ops) && |s.log| + |ops| <= I64_MAX
      && var result := Ingested(e, s.notes, s.log, ops);
         r == if result.Done? then State(result.value.1, result.value.0) else s
    case Author(op) =>
      && s.notes.cursor == |s.log| && !Has(s.log, op.id) && !Has(s.notes.history, op.id)
      && r == State(s.log, s.notes.(history := s.notes.history + [op], applied := s.notes.applied[op.id := None],
                                    outbox := s.notes.outbox + [op]))
    case Crash(ops, tail) =>
      && s.notes.cursor == |s.log| && Honest(s.notes.outbox, ops)
      && s.log + tail <= AppendAll(s.log, ops).0
      && r == State(s.log + tail, s.notes)
    case Replay(n) =>
      && s.notes.cursor + n <= |s.log|
      && var result := ApplyAll(e, s.notes, Since(s.log, s.notes.cursor, n));
         r == if result.Done? then State(s.log, result.value) else s
  }

  ghost predicate Follows(e: Engine, s: State, r: State) {
    exists step :: Takes(e, s, step, r)
  }

  ghost predicate Initial(s: State) {
    s == State([], Replica([], 0, map[], []))
  }

  ghost predicate Run(e: Engine, states: seq<State>) {
    && states != [] && Initial(states[0])
    && forall i :: 0 <= i < |states| - 1 ==> Follows(e, states[i], states[i + 1])
  }

  // ---- every step keeps log and notes in step ----

  lemma AuthorKeeps(s: State, op: Op)
    requires InSync(s.notes, s.log) && s.notes.cursor == |s.log|
    requires !Has(s.log, op.id) && !Has(s.notes.history, op.id)
    ensures InSync(s.notes.(history := s.notes.history + [op], applied := s.notes.applied[op.id := None],
                            outbox := s.notes.outbox + [op]), s.log)
  {
    var r, log := s.notes, s.log;
    var next := r.(history := r.history + [op], applied := r.applied[op.id := None], outbox := r.outbox + [op]);
    assert log[..r.cursor] == log;
    forall i | 0 <= i < |r.outbox|
      ensures r.outbox[i].id != op.id
    {
      assert r.outbox[i] in r.history;
      var k :| 0 <= k < |r.history| && r.history[k] == r.outbox[i];
    }
    forall i | 0 <= i < |log|
      ensures log[i].id != op.id
    {
    }
    assert next.outbox[|r.outbox|] == op;
    forall id | id in next.applied
      ensures Has(log, id) || Has(next.outbox, id)
    {
      if id != op.id && Has(r.outbox, id) {
        var i :| 0 <= i < |r.outbox| && r.outbox[i].id == id;
        assert next.outbox[i].id == id;
      }
    }
  }

  /** A prefix of the appends of an honest batch. */
  lemma CrashKeeps(s: State, ops: seq<Op>, tail: seq<Op>)
    requires InSync(s.notes, s.log) && Honest(s.notes.outbox, ops) && s.log + tail <= AppendAll(s.log, ops).0
    ensures InSync(s.notes, s.log + tail)
  {
    var r, log, grown := s.notes, s.log, s.log + tail;
    AppendAllGrows(log, ops);
    var full := AppendAll(log, ops).0;
    forall i | 0 <= i < |grown|
      ensures grown[i] == full[i]
    {
    }
    assert grown[..r.cursor] == log[..r.cursor];
    forall i, j | 0 <= i < |r.outbox| && 0 <= j < |grown| && r.outbox[i].id == grown[j].id
      ensures r.outbox[i] == grown[j]
    {
      if j >= |log| {
        AppendedFrom(log, ops, j);
      }
    }
  }

  /** What appending adds comes from the batch. */
  lemma {:induction false} AppendedFrom(log: Log, ops: seq<Op>, j: nat)
    requires DistinctIds(log) && |log| <= j < |AppendAll(log, ops).0|
    ensures AppendAll(log, ops).0[j] in ops
    decreases |ops|
  {
    hide AppendOne;
    if ops != [] {
      AppendOneGrows(log, ops[0]);
      var one := AppendOne(log, ops[0]);
      if one.Done? {
        AppendAllGrows(one.value.0, ops[1..]);
        if j >= |one.value.0| {
          AppendedFrom(one.value.0, ops[1..], j);
        }
      }
    }
  }

  lemma StepKeeps(e: Engine, s: State, step: Step, r: State)
    requires InSync(s.notes, s.log) && Takes(e, s, step, r)
    ensures InSync(r.notes, r.log)
    ensures Mirrors(s.notes, s.log) && !step.Author? ==> Mirrors(r.notes, r.log)
  {
    hide InSync, Mirrors, ApplyAll, AppendAll, Ingested, Since, Honest;
    match step
    case Batch(ops) => IngestKeeps(e, s.notes, s.log, ops);
    case Author(op) => AuthorKeeps(s, op);
    case Crash(ops, tail) =>
      CrashKeeps(s, ops, tail);
      MirrorsLonger(s.notes, s.log, tail);
    case Replay(n) => ApplySince(e, s.notes, s.log, n);
  }

  lemma MirrorsLonger(r: Replica, log: Log, tail: seq<Op>)
    ensures Mirrors(r, log) ==> Mirrors(r, log + tail)
  {
    if Mirrors(r, log) {
      assert (log + tail)[..r.cursor] == log[..r.cursor];
    }
  }

  lemma {:induction false} RunInSync(e: Engine, states: seq<State>, i: nat)
    requires Run(e, states) && i < |states|
    ensures InSync(states[i].notes, states[i].log)
  {
    hide InSync, Takes;
    if i == 0 {
      assert InSync(states[0].notes, states[0].log) by {
        EmptyInSync();
      }
    } else {
      RunInSync(e, states, i - 1);
      assert Follows(e, states[i - 1], states[i - 1 + 1]);
      var step :| Takes(e, states[i - 1], step, states[i]);
      StepKeeps(e, states[i - 1], step, states[i]);
    }
  }

  lemma EmptyInSync()
    ensures InSync(Replica([], 0, map[], []), [])
  {
  }

  // ---- the contents of the notes ----

  function Fold<S>(s: S, ops: seq<Op>, apply: (S, Op) -> S): (r: S) {
    if ops == [] then s else apply(Fold(s, ops[..|ops| - 1], apply), ops[|ops| - 1])
  }

  /** The order of operations does not matter to their effect. */
  ghost predicate Commutes<S(!new)>(apply: (S, Op) -> S) {
    forall s, a, b :: apply(apply(s, a), b) == apply(apply(s, b), a)
  }

  /** An operation may be moved to the end. */
  lemma {:induction false} MoveLast<S(!new)>(s: S, ops: seq<Op>, k: nat, apply: (S, Op) -> S)
    requires k < |ops| && Commutes(apply)
    ensures Fold(s, ops, apply) == apply(Fold(s, ops[..k] + ops[k + 1..], apply), ops[k])
    decreases |ops|
  {
    var n := |ops| - 1;
    var rest := ops[..k] + ops[k + 1..];
    if k == n {
      assert rest == ops[..n];
    } else {
      var front := ops[..n];
      MoveLast(s, front, k, apply);
      assert rest[..n - 1] == front[..k] + front[k + 1..] && rest[n - 1] == ops[n];
      assert front[k] == ops[k];
    }
  }

  lemma FirstIsMember(b: seq<Op>)
    requires b != []
    ensures b[0] in b
  {
  }

  /** Without its last element a list has one member less, wherever it stands in another. */
  lemma SameWithoutLast(a: seq<Op>, b: seq<Op>, k: nat)
    requires DistinctIds(a) && DistinctIds(b) && a != [] && k < |b| && b[k] == a[|a| - 1]
    requires forall x :: x in a <==> x in b
    ensures var rest := b[..k] + b[k + 1..];
            DistinctIds(rest) && forall x :: x in a[..|a| - 1] <==> x in rest
  {
    var n, rest := |a| - 1, b[..k] + b[k + 1..];
    forall x | x in rest
      ensures x in a[..n]
    {
      var m :| 0 <= m < |rest| && rest[m] == x;
      assert x == b[if m < k then m else m + 1];
      assert x in a;
    }
    forall x | x in a[..n]
      ensures x in rest
    {
      var m :| 0 <= m < n && a[m] == x;
      assert x in b;
      var j :| 0 <= j < |b| && b[j] == x;
      assert x == rest[if j < k then j else j - 1];
    }
  }

  /** Lists with the same operations, each once, have the same effect. */
  lemma {:induction false} SameEffect<S(!new)>(s: S, a: seq<Op>, b: seq<Op>, apply: (S, Op) -> S)
    requires Commutes(apply) && DistinctIds(a) && DistinctIds(b) && forall x :: x in a <==> x in b
    ensures Fold(s, a, apply) == Fold(s, b, apply)
    decreases |a|
  {
    if a == [] {
      if b != [] {
        FirstIsMember(b);
      }
    } else {
      var n := |a| - 1;
      assert a[n] in b;
      var k :| 0 <= k < |b| && b[k] == a[n];
      var rest := b[..k] + b[k + 1..];
      SameWithoutLast(a, b, k);
      SameEffect(s, a[..n], rest, apply);
      MoveLast(s, b, k, apply);
    }
  }

  /** In every reachable state the notes hold the operations of the log up to the cursor
      together with those waiting to be published, each once; so if the order of operations
      does not matter, they are the fold of that prefix followed by the outbox. */
  lemma NotesAreTheLog<S(!new)>(e: Engine, states: seq<State>, i: nat, s: S, apply: (S, Op) -> S)
    requires Run(e, states) && i < |states| && Commutes(apply)
    ensures var (log, notes) := (states[i].log, states[i].notes);
            && DistinctIds(log) && notes.cursor <= |log|
            && Fold(s, notes.history, apply) == Fold(s, log[..notes.cursor] + notes.outbox, apply)
  {
    hide Takes;
    RunInSync(e, states, i);
    var log, notes := states[i].log, states[i].notes;
    var both := log[..notes.cursor] + notes.outbox;
    assert forall x :: x in both <==> x in log[..notes.cursor] || x in notes.outbox;
    SameEffect(s, notes.history, both, apply);
  }

  ghost predicate NothingAuthored(e: Engine, states: seq<State>) {
    forall i :: 0 <= i < |states| ==> states[i].notes.outbox == []
  }

  /** Without authored operations the notes have applied exactly the prefix, in its order. */
  lemma {:induction false} NotesAreThePrefix(e: Engine, states: seq<State>, i: nat)
    requires Run(e, states) && NothingAuthored(e, states) && i < |states|
    ensures states[i].notes.cursor <= |states[i].log|
    ensures states[i].notes.history == states[i].log[..states[i].notes.cursor]
  {
    hide InSync, Takes;
    if i > 0 {
      NotesAreThePrefix(e, states, i - 1);
      RunInSync(e, states, i - 1);
      assert Follows(e, states[i - 1], states[i - 1 + 1]);
      var step :| Takes(e, states[i - 1], step, states[i]);
      StepKeeps(e, states[i - 1], step, states[i]);
      NotAuthored(e, states[i - 1], step, states[i]);
    }
  }

  lemma NotAuthored(e: Engine, s: State, step: Step, r: State)
    requires Takes(e, s, step, r) && r.notes.outbox == []
    ensures !step.Author?
  {
    hide Ingested, ApplyAll, AppendAll;
  }

  // ---- where the condition on authored ids matters ----

  lemma {:induction false} HistoryGrows(e: Engine, r: Replica, ss: seq<Sequenced>)
    requires ApplyAll(e, r, ss).Done?
    ensures r.history <= ApplyAll(e, r, ss).value.history
    decreases |ss|
  {
    if ss != [] {
      HistoryGrows(e, ApplyOne(e, r, ss[0]).value, ss[1..]);
    }
  }

  /** A successful ingest leaves log and notes in step exactly when no operation of the
      batch reuses the id of one waiting to be published for another payload. */
  lemma InSyncIffHonest(e: Engine, r: Replica, log: Log, ops: seq<Op>)
    requires Ready(r, log) && |log| + |ops| <= I64_MAX && Ingested(e, r, log, ops).Done?
    ensures var (next, grown, accepted) := Ingested(e, r, log, ops).value;
            InSync(next, grown) <==> Honest(r.outbox, ops)
  {
    hide ApplyAll, AppendAll, AllValid;
    if Honest(r.outbox, ops) {
      hide InSync;
      IngestKeeps(e, r, log, ops);
    } else {
      var (next, grown, accepted) := Ingested(e, r, log, ops).value;
      var i, j :| 0 <= i < |r.outbox| && 0 <= j < |ops| && r.outbox[i].id == ops[j].id && r.outbox[i] != ops[j];
      HistoryGrows(e, r, Operations(AppendAll(log, ops).1.value));
      AppendAllGrows(log, ops);
      Divergence(r, next, grown, r.outbox[i], ops[j], accepted[j].seqno - 1);
    }
  }

  lemma Divergence(r: Replica, next: Replica, grown: Log, authored: Op, pushed: Op, k: nat)
    requires authored in r.history && r.history <= next.history && authored.id == pushed.id && authored != pushed
    requires k < |grown| && grown[k] == pushed
    ensures !InSync(next, grown)
  {
    assert authored in next.history;
    if InSync(next, grown) {
      if authored in next.outbox {
        assert false;
      } else {
        var m :| 0 <= m < next.cursor && grown[..next.cursor][m] == authored;
      }
    }
  }

  /** For instance, the log then records the batch's operation, the notes keep the authored
      one, and nothing waits any more. */
  lemma ReusedIdDiverges(e: Engine, authored: Op, pushed: Op)
    requires Willing(e) && authored.id == pushed.id && authored != pushed
    ensures var r := Replica([authored], 0, map[authored.id := None], [authored]);
            && Ready(r, [])
            && Ingested(e, r, [], [pushed])
               == Done((Replica([authored], 1, map[authored.id := Some(1)], []), [pushed], [Sequenced(1, pushed)]))
  {
    var r := Replica([authored], 0, map[authored.id := None], [authored]);
    assert Has(r.outbox, authored.id) by {
      assert r.outbox[0].id == authored.id;
    }
    AppendSingle([], pushed);
    var s := Sequenced(1, pushed);
    var ss := Operations(AppendAll([], [pushed]).1.value);
    assert ss == [s] && ss[1..] == [];
    assert Remove([authored], pushed.id) == [] by {
      assert [authored][1..] == [];
    }
    assert r.applied[pushed.id := Some(1)] == map[authored.id := Some(1)];
    var next := Replica([authored], 1, map[authored.id := Some(1)], []);
    assert ApplyOne(e, r, s) == Done(next);
    assert ApplyAll(e, next, []) == Done(next);
    assert ApplyAll(e, r, ss) == Done(next);
    assert AllValid(e, ss);
    assert ApplyBatch(e, r, ss) == Done(next);
    assert [] + [pushed] == [pushed];
  }
}
