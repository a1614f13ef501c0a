/** Ordered maps, as the ascending list of their entries: numbered entries for integer
    keys, and the keyed entries of `Sorting` for identifiers and hashes. */
module Trees {
  import opened Bytes
  import opened Sorting

  datatype Numbered<V> = Numbered(key: u64, value: V)

  predicate Increasing<V>(t: seq<Numbered<V>>) {
    forall i, j :: 0 <= i < j < |t| ==> t[i].key < t[j].key
  }

  /** Adds an entry, replacing the one with the same key. */
  function Put<V>(t: seq<Numbered<V>>, e: Numbered<V>): (r: seq<Numbered<V>>)
    requires Increasing(t)
    ensures Increasing(r)
    ensures forall i :: 0 <= i < |r| ==> r[i] == e || exists j :: 0 <= j < |t| && r[i] == t[j]
  {
    if t == [] || e.key < t[0].key then [e] + t
    else if e.key == t[0].key then [e] + t[1..]
    else [t[0]] + Put(t[1..], e)
  }

  /** The map collected from entries in turn. */
  function Gather<V>(es: seq<Numbered<V>>): (t: seq<Numbered<V>>)
    ensures Increasing(t)
  {
    if es == [] then [] else Put(Gather(es[..|es| - 1]), es[|es| - 1])
  }

  lemma {:induction false} PutLast<V>(t: seq<Numbered<V>>, e: Numbered<V>)
    requires Increasing(t) && forall i :: 0 <= i < |t| ==> t[i].key < e.key
    ensures Put(t, e) == t + [e]
  {
    if t != [] {
      PutLast(t[1..], e);
      assert t + [e] == [t[0]] + (t[1..] + [e]);
    } else {
      assert t + [e] == [e] + t;
    }
  }

  lemma {:induction false} GatherIncreasing<V>(es: seq<Numbered<V>>)
    requires Increasing(es)
    ensures Gather(es) == es
  {
    if es != [] {
      var n := |es| - 1;
      GatherIncreasing(es[..n]);
      hide Gather, Put;
      PutLast(es[..n], es[n]);
      GatherLast(es);
      FrontLast(es);
    }
  }

  lemma GatherLast<V>(es: seq<Numbered<V>>)
    requires es != []
    ensures Gather(es) == Put(Gather(es[..|es| - 1]), es[|es| - 1])
  {
  }

  /** Increasing lists with the same entries are the same list. */
  lemma {:induction false} IncreasingUnique<V(!new)>(a: seq<Numbered<V>>, b: seq<Numbered<V>>)
    requires Increasing(a) && Increasing(b)
    requires forall x :: x in a <==> x in b
    ensures a == b
  {
    if a != [] {
      assert a[0] in a && a[0] in b;
      FirstOfBoth(a, b);
      TailsAgree(a, b);
      IncreasingUnique(a[1..], b[1..]);
      assert a == [a[0]] + a[1..] && b == [b[0]] + b[1..];
    } else if b != [] {
      IsMember(b);
    }
  }

  lemma IsMember<T>(b: seq<T>)
    requires b != []
    ensures b[0] in b
  {
  }

  lemma FirstOfBoth<V(!new)>(a: seq<Numbered<V>>, b: seq<Numbered<V>>)
    requires Increasing(a) && Increasing(b) && a != [] && b != [] && forall x :: x in a <==> x in b
    ensures a[0] == b[0]
  {
    assert a[0] in a && b[0] in b;
    var i :| 0 <= i < |b| && b[i] == a[0];
    var j :| 0 <= j < |a| && a[j] == b[0];
  }

  lemma TailsAgree<V(!new)>(a: seq<Numbered<V>>, b: seq<Numbered<V>>)
    requires Increasing(a) && Increasing(b) && a != [] && b != [] && a[0] == b[0] && forall x :: x in a <==> x in b
    ensures forall x :: x in a[1..] <==> x in b[1..]
  {
    forall x
      ensures x in a[1..] <==> x in b[1..]
    {
      assert x in a[1..] <==> x in a && x != a[0];
      assert x in b[1..] <==> x in b && x != b[0];
    }
  }

  // ---- the same for byte-string keys ----

  function PutKeyed<V>(t: seq<Keyed<V>>, e: Keyed<V>): (r: seq<Keyed<V>>)
    decreases |t|
  {
    if t == [] || Less(e.key, t[0].key) then [e] + t
    else if e.key == t[0].key then [e] + t[1..]
    else [t[0]] + PutKeyed(t[1..], e)
  }

  lemma {:induction false} PutKeyedAscending<V>(t: seq<Keyed<V>>, e: Keyed<V>)
    requires Ascending(t)
    ensures Ascending(PutKeyed(t, e))
    ensures forall i :: 0 <= i < |PutKeyed(t, e)| ==>
              PutKeyed(t, e)[i] == e || exists j :: 0 <= j < |t| && PutKeyed(t, e)[i] == t[j]
  {
    if t != [] {
      LessIsTotal(e.key, t[0].key);
      if Less(e.key, t[0].key) {
        forall j | 0 <= j < |t| ensures Less(e.key, t[j].key) {
          if j > 0 { LessIsTransitive(e.key, t[0].key, t[j].key); }
        }
      } else if e.key != t[0].key {
        PutKeyedAscending(t[1..], e);
      }
    }
  }

  function GatherKeyed<V>(es: seq<Keyed<V>>): (t: seq<Keyed<V>>)
    ensures Ascending(t)
  {
    if es == [] then []
    else
      PutKeyedAscending(GatherKeyed(es[..|es| - 1]), es[|es| - 1]);
      PutKeyed(GatherKeyed(es[..|es| - 1]), es[|es| - 1])
  }

  lemma {:induction false} PutKeyedLast<V>(t: seq<Keyed<V>>, e: Keyed<V>)
    requires forall i :: 0 <= i < |t| ==> Less(t[i].key, e.key)
    ensures PutKeyed(t, e) == t + [e]
  {
    if t != [] {
      LessIsTotal(t[0].key, e.key);
      PutKeyedLast(t[1..], e);
      assert t + [e] == [t[0]] + (t[1..] + [e]);
    } else {
      assert t + [e] == [e] + t;
    }
  }

  lemma {:induction false} GatherKeyedAscending<V>(es: seq<Keyed<V>>)
    requires Ascending(es)
    ensures GatherKeyed(es) == es
  {
    if es != [] {
      var n := |es| - 1;
      GatherKeyedAscending(es[..n]);
      PutKeyedLast(es[..n], es[n]);
      assert es == es[..n] + [es[n]];
    }
  }

  lemma {:induction false} PutKeyedLength<V>(t: seq<Keyed<V>>, e: Keyed<V>, n: nat)
    requires |e.key| == n && forall i :: 0 <= i < |t| ==> |t[i].key| == n
    ensures |PutKeyed(t, e)| <= |t| + 1 && forall i :: 0 <= i < |PutKeyed(t, e)| ==> |PutKeyed(t, e)[i].key| == n
  {
    if t != [] {
      PutKeyedLength(t[1..], e, n);
    }
  }

  lemma {:induction false} GatherKeyedLength<V>(es: seq<Keyed<V>>, n: nat)
    requires forall i :: 0 <= i < |es| ==> |es[i].key| == n
    ensures |GatherKeyed(es)| <= |es|
    ensures forall i :: 0 <= i < |GatherKeyed(es)| ==> |GatherKeyed(es)[i].key| == n
  {
    if es != [] {
      GatherKeyedLength(es[..|es| - 1], n);
      PutKeyedLength(GatherKeyed(es[..|es| - 1]), es[|es| - 1], n);
    }
  }

  lemma {:induction false} PutBounds<V>(t: seq<Numbered<V>>, e: Numbered<V>, limit: nat)
    requires Increasing(t) && e.key < limit && forall i :: 0 <= i < |t| ==> t[i].key < limit
    ensures |Put(t, e)| <= |t| + 1 && forall i :: 0 <= i < |Put(t, e)| ==> Put(t, e)[i].key < limit
  {
    if t != [] {
      PutBounds(t[1..], e, limit);
    }
  }

  lemma {:induction false} GatherBounds<V>(es: seq<Numbered<V>>, limit: nat)
    requires forall i :: 0 <= i < |es| ==> es[i].key < limit
    ensures |Gather(es)| <= |es| && forall i :: 0 <= i < |Gather(es)| ==> Gather(es)[i].key < limit
  {
    if es != [] {
      GatherBounds(es[..|es| - 1], limit);
      PutBounds(Gather(es[..|es| - 1]), es[|es| - 1], limit);
    }
  }
}
