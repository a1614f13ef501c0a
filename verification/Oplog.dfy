/** The server's operation log: a table of operations by sequence number. */
module Oplog {
  import opened Results

  datatype Op = Op(id: nat, payload: nat)

  datatype Failure = Conflict | Gap | Refused | TooMany | OutOfRange | NotTheTail

  datatype Reply<+T> = Done(value: T) | Failed(error: Failure)

  const I64_MAX: nat := 0x7FFF_FFFF_FFFF_FFFF

  datatype Sequenced = Sequenced(seqno: nat, op: Op)

  datatype Appended = Appended(operation: Sequenced, inserted: bool)

  type Log = seq<Op>

  ghost predicate DistinctIds(log: Log) {
    forall i, j :: 0 <= i < j < |log| ==> log[i].id != log[j].id
  }

  /** Where the operation with this id is, if it is there. */
  function IndexOf(log: Log, id: nat): (i: Option<nat>)
    ensures i.Some? ==> i.value < |log| && log[i.value].id == id
    ensures i.None? ==> forall k :: 0 <= k < |log| ==> log[k].id != id
  {
    if log == [] then None
    else if log[|log| - 1].id == id then Some(|log| - 1)
    else IndexOf(log[..|log| - 1], id)
  }

  /** What appending does to the log: nothing for an operation already there, an error for a
      reused id, and otherwise the next number. */
  function AppendOne(log: Log, op: Op): (r: Reply<(Log, Appended)>) {
    match IndexOf(log, op.id)
    case Some(i) =>
      if log[i] != op then Failed(Conflict) else Done((log, Appended(Sequenced(i + 1, op), false)))
    case None => Done((log + [op], Appended(Sequenced(|log| + 1, op), true)))
  }

  lemma AppendKeepsDistinct(log: Log, op: Op)
    requires DistinctIds(log) && AppendOne(log, op).Done?
    ensures DistinctIds(AppendOne(log, op).value.0)
  {
  }

  function Min(a: nat, b: nat): (m: nat) {
    if a <= b then a else b
  }

  /** The entries after `since`, at most `limit` of them. */
  function Since(log: Log, since: nat, limit: nat): (r: seq<Sequenced>) {
    if since >= |log| then []
    else seq(Min(limit, |log| - since), i requires 0 <= i < Min(limit, |log| - since) =>
               Sequenced(since + i + 1, log[since + i]))
  }

  // ---- the table ----

  type Rows = map<nat, Op>

  /** What the table's constraints ensure. */
  ghost predicate TableOk(rows: Rows) {
    && 0 !in rows
    && forall a, b :: a in rows && b in rows && a != b ==> rows[a].id != rows[b].id
  }

  ghost predicate Gapless(rows: Rows) {
    forall k: nat :: k in rows <==> 1 <= k <= |rows|
  }

  ghost function LogOf(rows: Rows): (log: Log)
    requires Gapless(rows)
    ensures |log| == |rows|
  {
    seq(|rows|, i requires 0 <= i < |rows| => rows[i + 1])
  }

  predicate IsMax(keys: set<nat>, m: nat) {
    if keys == {} then m == 0 else m in keys && forall k <- keys :: k <= m
  }

  /** COALESCE(MAX(seq), 0) over the table. */
  method MaxSeq(rows: Rows) returns (m: nat)
    ensures IsMax(rows.Keys, m)
  {
    if rows == map[] {
      return 0;
    }
    var seen: set<nat>, todo := {}, rows.Keys;
    m :| m in rows.Keys;
    while todo != {}
      invariant seen + todo == rows.Keys && m in rows && forall k <- seen :: k <= m
    {
      var k :| k in todo;
      m := if k > m then k else m;
      seen, todo := seen + {k}, todo - {k};
    }
  }

  lemma MaxOfGapless(rows: Rows, m: nat)
    requires Gapless(rows) && IsMax(rows.Keys, m)
    ensures m == |rows|
  {
    if rows != map[] {
      assert |rows| in rows;
    }
  }

  /** Numbers 1 to m. */
  function UpTo(m: nat): (s: set<nat>) {
    if m == 0 then {} else UpTo(m - 1) + {m}
  }

  lemma {:induction false} UpToSize(m: nat)
    ensures |UpTo(m)| == m && forall k: nat :: k in UpTo(m) <==> 1 <= k <= m
  {
    if m > 0 {
      UpToSize(m - 1);
    }
  }

  lemma {:induction false} SubsetSize(a: set<nat>, b: set<nat>)
    requires a <= b
    ensures |a| <= |b| && (|a| == |b| ==> a == b)
    decreases |a|
  {
    if a != {} {
      var x :| x in a;
      SubsetSize(a - {x}, b - {x});
      assert a == a - {x} + {x} && b == b - {x} + {x};
    }
  }

  /** Counting rows finds every gap: as many rows as the highest number means that the
      numbers are 1 to n. */
  lemma CountFindsGaps(rows: Rows, m: nat)
    requires 0 !in rows && IsMax(rows.Keys, m)
    ensures |rows| == m <==> Gapless(rows)
  {
    UpToSize(m);
    SubsetSize(rows.Keys, UpTo(m));
    assert |rows| == |rows.Keys|;
    if |rows| == m {
      assert rows.Keys == UpTo(m);
    }
    if Gapless(rows) {
      MaxOfGapless(rows, m);
    }
  }

  class OplogTable {
    var rows: Rows

    ghost predicate Valid()
      reads this
    {
      TableOk(rows) && Gapless(rows)
    }

    ghost function Contents(): (log: Log)
      reads this
      requires Valid()
    {
      LogOf(rows)
    }

    constructor ()
      ensures Valid() && Contents() == []
    {
      rows := map[];
    }

    method LatestSeq() returns (n: nat)
      requires Valid()
      ensures n == |Contents()|
    {
      n := MaxSeq(rows);
      MaxOfGapless(rows, n);
    }

    /** Opening a table fails exactly when its numbers have a gap. */
    method AssertGapless() returns (ok: bool)
      requires TableOk(rows)
      ensures ok <==> Gapless(rows)
    {
      var m := MaxSeq(rows);
      CountFindsGaps(rows, m);
      ok := |rows| == m;
    }

    method Append(op: Op) returns (r: Reply<Appended>)
      requires Valid()
      modifies this
      ensures Valid()
      ensures r.Done? <==> AppendOne(old(Contents()), op).Done?
      ensures r.Failed? ==> Contents() == old(Contents()) && r.error == AppendOne(old(Contents()), op).error
      ensures r.Done? ==> (Contents(), r.value) == AppendOne(old(Contents()), op).value
    {
      hide IndexOf;
      if seqno :| seqno in rows && rows[seqno].id == op.id {
        FoundRow(rows, seqno);
        if rows[seqno] != op {
          return Failed(Conflict);
        }
        return Done(Appended(Sequenced(seqno, rows[seqno]), false));
      }
      NotThere(rows, op.id);
      var n := MaxSeq(rows);
      MaxOfGapless(rows, n);
      AddRow(rows, op);
      rows := rows[n + 1 := op];
      r := Done(Appended(Sequenced(n + 1, op), true));
    }

    /** Deletes the last row, and only that. */
    method RemoveTail(operation: Sequenced) returns (r: Reply<()>)
      requires Valid()
      modifies this
      ensures Valid()
      ensures r.Done? <==> operation.seqno == |old(Contents())| <= I64_MAX
      ensures r.Failed? ==> Contents() == old(Contents())
      ensures r.Done? ==>
                var log := old(Contents());
                Contents() == if log != [] && log[|log| - 1].id == operation.op.id then log[..|log| - 1] else log
    {
      if operation.seqno > I64_MAX {
        return Failed(OutOfRange);
      }
      var latest := MaxSeq(rows);
      MaxOfGapless(rows, latest);
      if latest != operation.seqno {
        return Failed(NotTheTail);
      }
      if latest in rows && rows[latest].id == operation.op.id {
        DropRow(rows);
        rows := rows - {latest};
      }
      r := Done(());
    }

    method OpsSince(since: nat, limit: nat) returns (r: Reply<seq<Sequenced>>)
      requires Valid()
      ensures r.Done? <==> since <= I64_MAX && limit <= I64_MAX
      ensures r.Done? ==> r.value == Since(Contents(), since, limit)
    {
      if since > I64_MAX || limit > I64_MAX {
        return Failed(OutOfRange);
      }
      var n := MaxSeq(rows);
      MaxOfGapless(rows, n);
      var out: seq<Sequenced> := [];
      var k := since + 1;
      while k <= n && |out| < limit
        invariant k == since + 1 + |out| && |out| <= limit && (|out| > 0 ==> k <= n + 1)
        invariant forall i :: 0 <= i < |out| ==> since + i < n && out[i] == Sequenced(since + i + 1, rows[since + i + 1])
        decreases n + 1 - k
      {
        out := out + [Sequenced(k, rows[k])];
        k := k + 1;
      }
      assert out == Since(Contents(), since, limit);
      r := Done(out);
    }
  }

  lemma DropRow(rows: Rows)
    requires Gapless(rows) && TableOk(rows) && |rows| > 0
    ensures var fewer := rows - {|rows|};
            TableOk(fewer) && Gapless(fewer) && LogOf(fewer) == LogOf(rows)[..|rows| - 1]
  {
    var n := |rows|;
    assert n in rows;
    assert (rows - {n}).Keys == rows.Keys - {n};
    assert |rows - {n}| == n - 1;
  }

  lemma {:induction false} IndexUnique(log: Log, k: nat, id: nat)
    requires DistinctIds(log) && k < |log| && log[k].id == id
    ensures IndexOf(log, id) == Some(k)
  {
    if log[|log| - 1].id == id {
    } else {
      IndexUnique(log[..|log| - 1], k, id);
    }
  }

  lemma FoundRow(rows: Rows, seqno: nat)
    requires TableOk(rows) && Gapless(rows) && seqno in rows
    ensures 1 <= seqno <= |rows| && LogOf(rows)[seqno - 1] == rows[seqno]
    ensures IndexOf(LogOf(rows), rows[seqno].id) == Some(seqno - 1)
  {
    var log := LogOf(rows);
    forall i, j | 0 <= i < j < |log|
      ensures log[i].id != log[j].id
    {
      assert i + 1 in rows && j + 1 in rows;
    }
    IndexUnique(log, seqno - 1, rows[seqno].id);
  }

  lemma NotThere(rows: Rows, id: nat)
    requires Gapless(rows) && forall k :: k in rows ==> rows[k].id != id
    ensures IndexOf(LogOf(rows), id) == None
  {
  }

  lemma AddRow(rows: Rows, op: Op)
    requires Gapless(rows) && TableOk(rows) && forall k :: k in rows ==> rows[k].id != op.id
    ensures var more := rows[|rows| + 1 := op];
            TableOk(more) && Gapless(more) && LogOf(more) == LogOf(rows) + [op]
  {
    var n := |rows|;
    assert n + 1 !in rows;
    assert |rows[n + 1 := op]| == n + 1;
  }
}
