/** Sorting records by a byte-string key, as deterministic map encoding needs. */
module Sorting {
  import opened Bytes

  datatype Keyed<T> = Keyed(key: seq<u8>, value: T)

  predicate Ascending<T>(es: seq<Keyed<T>>) {
    forall i, j :: 0 <= i < j < |es| ==> Less(es[i].key, es[j].key)
  }

  predicate Sorted<T>(es: seq<Keyed<T>>) {
    forall i, j :: 0 <= i < j < |es| ==> !Less(es[j].key, es[i].key)
  }

  /** No two neighbours share a key. */
  predicate NeighboursDiffer<T>(es: seq<Keyed<T>>) {
    forall i :: 0 <= i < |es| - 1 ==> es[i].key != es[i + 1].key
  }

  /** Inserts before the first key that is not smaller. */
  function Insert<T(!new)>(e: Keyed<T>, es: seq<Keyed<T>>): (r: seq<Keyed<T>>)
    requires Sorted(es)
    ensures Sorted(r) && |r| == |es| + 1
    ensures forall x :: x in r <==> x == e || x in es
  {
    if es == [] || !Less(es[0].key, e.key) then
      InsertFront(e, es);
      [e] + es
    else
      var rest := Insert(e, es[1..]);
      InsertBehind(es[0], e, es[1..], rest);
      [es[0]] + rest
  }

  lemma InsertFront<T(!new)>(e: Keyed<T>, es: seq<Keyed<T>>)
    requires Sorted(es) && (es == [] || !Less(es[0].key, e.key))
    ensures Sorted([e] + es)
  {
    forall j | 0 <= j < |es|
      ensures !Less(es[j].key, e.key)
    {
      if Less(es[j].key, e.key) && j > 0 {
        LessIsTotal(es[0].key, es[j].key);
        if Less(es[0].key, es[j].key) {
          LessIsTransitive(es[0].key, es[j].key, e.key);
        }
      }
    }
  }

  lemma InsertBehind<T(!new)>(first: Keyed<T>, e: Keyed<T>, es: seq<Keyed<T>>, rest: seq<Keyed<T>>)
    requires Sorted([first] + es) && Less(first.key, e.key) && Sorted(rest)
    requires forall x :: x in rest <==> x == e || x in es
    ensures Sorted([first] + rest)
  {
    LessIsTotal(first.key, e.key);
    forall j | 0 <= j < |rest|
      ensures !Less(rest[j].key, first.key)
    {
      assert rest[j] in rest;
      if rest[j] != e {
        var k :| 0 <= k < |es| && es[k] == rest[j];
        assert ([first] + es)[k + 1] == es[k] && ([first] + es)[0] == first;
      }
    }
  }

  function Sort<T(!new)>(es: seq<Keyed<T>>): (r: seq<Keyed<T>>)
    ensures Sorted(r) && |r| == |es|
    ensures forall x :: x in r <==> x in es
  {
    if es == [] then []
    else
      assert forall x :: x in es <==> x == es[0] || x in es[1..];
      Insert(es[0], Sort(es[1..]))
  }

  lemma SortedDistinctIsAscending<T>(es: seq<Keyed<T>>)
    requires Sorted(es)
    ensures NeighboursDiffer(es) <==> Ascending(es)
  {
    if NeighboursDiffer(es) {
      forall i, j | 0 <= i < j < |es|
        ensures Less(es[i].key, es[j].key)
      {
        AscendingBetween(es, i, j);
      }
    }
    if Ascending(es) {
      forall i | 0 <= i < |es| - 1
        ensures es[i].key != es[i + 1].key
      {
        LessIsTotal(es[i].key, es[i + 1].key);
      }
    }
  }

  lemma {:induction false} AscendingBetween<T>(es: seq<Keyed<T>>, i: nat, j: nat)
    requires Sorted(es) && NeighboursDiffer(es) && i < j < |es|
    ensures Less(es[i].key, es[j].key)
    decreases j - i
  {
    LessIsTotal(es[i].key, es[i + 1].key);
    if i + 1 < j {
      AscendingBetween(es, i + 1, j);
      LessIsTransitive(es[i].key, es[i + 1].key, es[j].key);
    }
  }

  lemma {:induction false} SortAscending<T(!new)>(es: seq<Keyed<T>>)
    requires Ascending(es)
    ensures Sort(es) == es
  {
    if es != [] {
      SortAscending(es[1..]);
      if |es| > 1 {
        LessIsTotal(es[0].key, es[1].key);
      }
      assert es == [es[0]] + es[1..];
    }
  }

  /** Ascending sequences with the same elements are the same sequence. */
  lemma {:induction false} AscendingUnique<T(!new)>(a: seq<Keyed<T>>, b: seq<Keyed<T>>)
    requires Ascending(a) && Ascending(b)
    requires forall x :: x in a <==> x in b
    ensures a == b
  {
    assert a != [] ==> a[0] in a;
    assert b != [] ==> b[0] in b;
    if a != [] {
      FirstAgrees(a, b);
      assert a == [a[0]] + a[1..] && b == [b[0]] + b[1..];
      forall x
        ensures x in a[1..] <==> x in b[1..]
      {
        FirstOnlyOnce(a);
        FirstOnlyOnce(b);
        assert x in a[1..] <==> x in a && x != a[0];
        assert x in b[1..] <==> x in b && x != b[0];
      }
      AscendingUnique(a[1..], b[1..]);
    }
  }

  lemma FirstOnlyOnce<T>(a: seq<Keyed<T>>)
    requires Ascending(a) && a != []
    ensures a[0] !in a[1..]
  {
    if i :| 0 <= i < |a| - 1 && a[1..][i] == a[0] {
      assert Less(a[0].key, a[i + 1].key);
      LessIsTotal(a[0].key, a[0].key);
    }
  }

  lemma FirstAgrees<T(!new)>(a: seq<Keyed<T>>, b: seq<Keyed<T>>)
    requires Ascending(a) && Ascending(b) && a != [] && b != []
    requires forall x :: x in a <==> x in b
    ensures a[0] == b[0]
  {
    assert a[0] in a && b[0] in b;
    var i :| 0 <= i < |b| && b[i] == a[0];
    var j :| 0 <= j < |a| && a[j] == b[0];
    if i > 0 && j > 0 {
      assert Less(b[0].key, b[i].key) && Less(a[0].key, a[j].key);
      LessIsTotal(a[0].key, b[0].key);
    }
  }

  // ---- a total over the values does not depend on their order ----

  function Total<T>(f: T -> nat, es: seq<Keyed<T>>): (n: nat) {
    if es == [] then 0 else f(es[0].value) + Total(f, es[1..])
  }

  lemma {:induction false} TotalInsert<T(!new)>(f: T -> nat, e: Keyed<T>, es: seq<Keyed<T>>)
    requires Sorted(es)
    ensures Total(f, Insert(e, es)) == f(e.value) + Total(f, es)
  {
    if es == [] || !Less(es[0].key, e.key) {
      assert ([e] + es)[1..] == es;
    } else {
      TotalInsert(f, e, es[1..]);
      assert ([es[0]] + Insert(e, es[1..]))[1..] == Insert(e, es[1..]);
    }
  }

  lemma {:induction false} TotalSort<T(!new)>(f: T -> nat, es: seq<Keyed<T>>)
    ensures Total(f, Sort(es)) == Total(f, es)
  {
    if es != [] {
      TotalSort(f, es[1..]);
      TotalInsert(f, es[0], Sort(es[1..]));
    }
  }

  // ---- when sorting leaves no equal neighbours ----

  predicate KeysDistinct<T>(es: seq<Keyed<T>>) {
    forall i, j :: 0 <= i < j < |es| ==> es[i].key != es[j].key
  }

  lemma {:induction false} InsertAscending<T(!new)>(e: Keyed<T>, es: seq<Keyed<T>>)
    requires Sorted(es)
    ensures Ascending(Insert(e, es)) <==> Ascending(es) && forall x <- es :: x.key != e.key
  {
    if es == [] || !Less(es[0].key, e.key) {
      InsertFront(e, es);
      AscendingCons(e, es);
      forall x | x in es ensures Less(e.key, x.key) <==> x.key != e.key {
        var k :| 0 <= k < |es| && es[k] == x;
        assert ([e] + es)[0] == e && ([e] + es)[k + 1] == x;
        LessIsTotal(e.key, x.key);
      }
    } else {
      var tail := es[1..];
      InsertAscending(e, tail);
      LessIsTotal(es[0].key, e.key);
      assert es == [es[0]] + tail;
      AscendingCons(es[0], tail);
      AscendingCons(es[0], Insert(e, tail));
    }
  }

  lemma AscendingCons<T(!new)>(e: Keyed<T>, es: seq<Keyed<T>>)
    ensures Ascending([e] + es) <==> Ascending(es) && forall x <- es :: Less(e.key, x.key)
  {
    var r := [e] + es;
    if Ascending(r) {
      forall i, j | 0 <= i < j < |es| ensures Less(es[i].key, es[j].key) {
        assert r[i + 1] == es[i] && r[j + 1] == es[j];
      }
      forall x | x in es ensures Less(e.key, x.key) {
        var k :| 0 <= k < |es| && es[k] == x;
        assert r[0] == e && r[k + 1] == x;
      }
    }
  }

  lemma {:induction false} SortDistinct<T(!new)>(es: seq<Keyed<T>>)
    ensures NeighboursDiffer(Sort(es)) <==> KeysDistinct(es)
    ensures Ascending(Sort(es)) <==> KeysDistinct(es)
  {
    SortedDistinctIsAscending(Sort(es));
    if es != [] {
      SortDistinct(es[1..]);
      InsertAscending(es[0], Sort(es[1..]));
      assert forall i :: 1 <= i < |es| ==> es[i] == es[1..][i - 1];
      if KeysDistinct(es) {
        forall x | x in es[1..] ensures x.key != es[0].key {
          var k :| 0 <= k < |es| - 1 && es[1..][k] == x;
        }
      }
      if KeysDistinct(es[1..]) && forall x <- es[1..] :: x.key != es[0].key {
        assert forall i :: 1 <= i < |es| ==> es[i] in es[1..];
      }
    }
  }
}
