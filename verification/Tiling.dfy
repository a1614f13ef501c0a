/** Byte ranges that tile a buffer: disjoint, in bounds, with only zeros between them. */
module Tiling {
  import opened Bytes

  datatype Range = Range(lo: nat, hi: nat)

  predicate Apart(a: Range, b: Range) {
    a.hi <= b.lo || b.hi <= a.lo
  }

  predicate AllApart(rs: seq<Range>) {
    forall i, j :: 0 <= i < j < |rs| ==> Apart(rs[i], rs[j])
  }

  predicate Covers(rs: seq<Range>, k: nat) {
    exists r <- rs :: r.lo <= k < r.hi
  }

  /** Every range is non-empty and lies in the buffer. */
  predicate InBounds(bytes: seq<u8>, rs: seq<Range>) {
    forall r <- rs :: r.lo < r.hi <= |bytes|
  }

  /** The ranges are pairwise disjoint and in bounds from `from` on, every byte from there
      on that no range covers is zero, and the last range ends the buffer. */
  ghost predicate Tiled(bytes: seq<u8>, from: nat, rs: seq<Range>) {
    && InBounds(bytes, rs) && (forall r <- rs :: from <= r.lo)
    && AllApart(rs)
    && (forall k :: from <= k < |bytes| && bytes[k] != 0 ==> Covers(rs, k))
    && if rs == [] then from == |bytes| else exists r <- rs :: r.hi == |bytes|
  }

  // ---- sorting ranges ----

  predicate Before(a: Range, b: Range) {
    a.lo < b.lo || (a.lo == b.lo && a.hi <= b.hi)
  }

  predicate InOrder(rs: seq<Range>) {
    forall i, j :: 0 <= i < j < |rs| ==> Before(rs[i], rs[j])
  }

  function Insert(e: Range, rs: seq<Range>): (r: seq<Range>)
    ensures forall x :: x in r <==> x == e || x in rs
  {
    if rs == [] || Before(e, rs[0]) then [e] + rs
    else
      assert forall x :: x in rs <==> x == rs[0] || x in rs[1..];
      [rs[0]] + Insert(e, rs[1..])
  }

  function Sort(rs: seq<Range>): (r: seq<Range>)
    ensures forall x :: x in r <==> x in rs
  {
    if rs == [] then []
    else
      assert forall x :: x in rs <==> x == rs[0] || x in rs[1..];
      Insert(rs[0], Sort(rs[1..]))
  }

  lemma InOrderCons(e: Range, rs: seq<Range>)
    ensures InOrder([e] + rs) <==> InOrder(rs) && forall x <- rs :: Before(e, x)
  {
    var all := [e] + rs;
    if InOrder(all) {
      forall i, j | 0 <= i < j < |rs| ensures Before(rs[i], rs[j]) {
        assert all[i + 1] == rs[i] && all[j + 1] == rs[j];
      }
      forall x | x in rs ensures Before(e, x) {
        var i :| 0 <= i < |rs| && rs[i] == x;
        assert all[0] == e && all[i + 1] == x;
      }
    }
  }

  lemma {:induction false} InsertInOrder(e: Range, rs: seq<Range>)
    requires InOrder(rs)
    ensures InOrder(Insert(e, rs))
  {
    if rs == [] || Before(e, rs[0]) {
      InOrderCons(e, rs);
    } else {
      assert rs == [rs[0]] + rs[1..];
      InOrderCons(rs[0], rs[1..]);
      InsertInOrder(e, rs[1..]);
      InOrderCons(rs[0], Insert(e, rs[1..]));
    }
  }

  lemma {:induction false} SortInOrder(rs: seq<Range>)
    ensures InOrder(Sort(rs))
  {
    if rs != [] {
      SortInOrder(rs[1..]);
      InsertInOrder(rs[0], Sort(rs[1..]));
    }
  }

  lemma AllApartCons(e: Range, rs: seq<Range>)
    ensures AllApart([e] + rs) <==> AllApart(rs) && forall x <- rs :: Apart(e, x)
  {
    var all := [e] + rs;
    if AllApart(all) {
      forall i, j | 0 <= i < j < |rs| ensures Apart(rs[i], rs[j]) {
        assert all[i + 1] == rs[i] && all[j + 1] == rs[j];
      }
      forall x | x in rs ensures Apart(e, x) {
        var i :| 0 <= i < |rs| && rs[i] == x;
        assert all[0] == e && all[i + 1] == x;
      }
    }
  }

  lemma {:induction false} InsertAllApart(e: Range, rs: seq<Range>)
    ensures AllApart(Insert(e, rs)) <==> AllApart([e] + rs)
  {
    AllApartCons(e, rs);
    if rs != [] && !Before(e, rs[0]) {
      assert rs == [rs[0]] + rs[1..];
      AllApartCons(rs[0], rs[1..]);
      InsertAllApart(e, rs[1..]);
      AllApartCons(e, rs[1..]);
      AllApartCons(rs[0], Insert(e, rs[1..]));
      assert forall x :: x in rs <==> x == rs[0] || x in rs[1..];
      assert Apart(e, rs[0]) == Apart(rs[0], e);
    }
  }

  lemma {:induction false} SortAllApart(rs: seq<Range>)
    ensures AllApart(Sort(rs)) <==> AllApart(rs)
  {
    if rs != [] {
      SortAllApart(rs[1..]);
      InsertAllApart(rs[0], Sort(rs[1..]));
      assert rs == [rs[0]] + rs[1..];
      AllApartCons(rs[0], rs[1..]);
      AllApartCons(rs[0], Sort(rs[1..]));
    }
  }

  /** Whether ranges tile a buffer does not depend on the order they are listed in. */
  lemma TiledSorted(bytes: seq<u8>, from: nat, rs: seq<Range>)
    ensures Tiled(bytes, from, Sort(rs)) <==> Tiled(bytes, from, rs)
  {
    hide AllApart, Sort;
    SortAllApart(rs);
    assert rs != [] ==> rs[0] in Sort(rs);
    assert Sort(rs) != [] ==> Sort(rs)[0] in rs;
    forall k: nat
      ensures Covers(Sort(rs), k) <==> Covers(rs, k)
    {
    }
  }

  // ---- the sweep ----

  predicate ZeroBetween(bytes: seq<u8>, lo: nat, hi: nat)
    requires lo <= hi <= |bytes|
  {
    forall k :: lo <= k < hi ==> bytes[k] == 0
  }

  /** The sweep from `end` over sorted ranges. */
  predicate Sweep(bytes: seq<u8>, end: nat, rs: seq<Range>)
    requires InBounds(bytes, rs)
    decreases |rs|
  {
    if rs == [] then end == |bytes|
    else end <= rs[0].lo && ZeroBetween(bytes, end, rs[0].lo) && Sweep(bytes, rs[0].hi, rs[1..])
  }

  lemma {:induction false} SweepTiles(bytes: seq<u8>, end: nat, rs: seq<Range>)
    requires InBounds(bytes, rs) && InOrder(rs) && end <= |bytes|
    ensures Sweep(bytes, end, rs) <==> Tiled(bytes, end, rs)
    decreases |rs|
  {
    hide Tiled, InOrder;
    if rs != [] {
      var r, rest := rs[0], rs[1..];
      assert rs == [r] + rest;
      assert r in rs;
      InOrderCons(r, rest);
      AllApartCons(r, rest);
      SweepTiles(bytes, r.hi, rest);
      if Sweep(bytes, end, rs) {
        TiledCons(bytes, end, r, rest);
      }
      if Tiled(bytes, end, rs) {
        TiledTail(bytes, end, r, rest);
      }
    } else {
      NothingTiles(bytes, end);
    }
  }

  lemma NothingTiles(bytes: seq<u8>, end: nat)
    ensures Tiled(bytes, end, []) <==> end == |bytes|
  {
  }

  lemma TiledCons(bytes: seq<u8>, end: nat, r: Range, rest: seq<Range>)
    requires InBounds(bytes, [r] + rest) && end <= r.lo && r.lo < r.hi <= |bytes|
    requires ZeroBetween(bytes, end, r.lo) && Tiled(bytes, r.hi, rest)
    ensures Tiled(bytes, end, [r] + rest)
  {
    var rs := [r] + rest;
    assert forall x :: x in rs <==> x == r || x in rest;
    AllApartCons(r, rest);
    forall k | end <= k < |bytes| && bytes[k] != 0
      ensures Covers(rs, k)
    {
      if k >= r.hi {
        assert Covers(rest, k);
        var x :| x in rest && x.lo <= k < x.hi;
        assert x in rs;
      } else {
        assert r in rs && r.lo <= k < r.hi;
      }
    }
    if rest == [] {
      assert r in rs && r.hi == |bytes|;
    } else {
      var x :| x in rest && x.hi == |bytes|;
      assert x in rs;
    }
  }

  lemma TiledTail(bytes: seq<u8>, end: nat, r: Range, rest: seq<Range>)
    requires InBounds(bytes, [r] + rest) && InOrder([r] + rest) && Tiled(bytes, end, [r] + rest)
    ensures end <= r.lo && r.lo < r.hi <= |bytes|
    ensures ZeroBetween(bytes, end, r.lo) && Tiled(bytes, r.hi, rest)
  {
    var rs := [r] + rest;
    assert forall x :: x in rs <==> x == r || x in rest;
    assert r in rs;
    InOrderCons(r, rest);
    AllApartCons(r, rest);
    forall x | x in rest
      ensures r.hi <= x.lo
    {
      assert x in rs && Before(r, x) && Apart(r, x);
    }
    forall k | end <= k < r.lo
      ensures bytes[k] == 0
    {
      assert !Covers(rs, k);
    }
    forall k | r.hi <= k < |bytes| && bytes[k] != 0
      ensures Covers(rest, k)
    {
      assert Covers(rs, k);
      var x :| x in rs && x.lo <= k < x.hi;
      assert x in rest;
    }
    var last :| last in rs && last.hi == |bytes|;
    assert rest != [] ==> rest[0] in rest && rest[0] in rs;
  }
}
