/** The ranges of a written chunk tile it. */
module ChunkTiling {
  import opened Bytes
  import opened Codec
  import opened Tiling
  import opened Chunk
  import opened ChunkImage
  import opened ChunkLaws

  function RangesTo(j: Job, k: nat): (rs: seq<Range>)
    requires k <= |j.c.columns|
  {
    if k == 0 then [] else RangesTo(j, k - 1) + RangesFor(j, k - 1)
  }

  /** Two stretches of the buffer. */
  datatype Area = Area(extraLo: nat, extraHi: nat, payloadLo: nat, payloadHi: nat) {
    predicate Has(p: nat) {
      extraLo <= p < extraHi || payloadLo <= p < payloadHi
    }

    predicate Encloses(r: Range) {
      r.lo < r.hi && ((extraLo <= r.lo && r.hi <= extraHi) || (payloadLo <= r.lo && r.hi <= payloadHi))
    }
  }

  /** The ranges lie in the area, apart from one another, and cover it. */
  ghost predicate Fills(rs: seq<Range>, a: Area) {
    && (forall r <- rs :: a.Encloses(r))
    && AllApart(rs)
    && forall p: nat :: a.Has(p) ==> Covers(rs, p)
  }

  lemma FillsBoth(xs: seq<Range>, ys: seq<Range>, a: Area, b: Area)
    requires Fills(xs, a) && Fills(ys, b)
    requires a.extraHi == b.extraLo && a.payloadHi == b.payloadLo && b.extraHi <= a.payloadLo
    requires a.extraLo <= a.extraHi <= b.extraHi && a.payloadLo <= a.payloadHi <= b.payloadHi
    ensures Fills(xs + ys, Area(a.extraLo, b.extraHi, a.payloadLo, b.payloadHi))
  {
    var rs := xs + ys;
    forall i, j | 0 <= i < j < |rs|
      ensures Apart(rs[i], rs[j])
    {
      if i < |xs| <= j {
        assert rs[i] in xs && rs[j] in ys;
        assert a.Encloses(xs[i]) && b.Encloses(ys[j - |xs|]);
      }
    }
    var both := Area(a.extraLo, b.extraHi, a.payloadLo, b.payloadHi);
    forall p: nat | both.Has(p)
      ensures Covers(rs, p)
    {
      if a.Has(p) {
        var r :| r in xs && r.lo <= p < r.hi;
        assert r in rs;
      } else {
        assert b.Has(p);
        var r :| r in ys && r.lo <= p < r.hi;
        assert r in rs;
      }
    }
  }

  function AreaTo(j: Job, k: nat): (a: Area)
    requires k <= |j.c.columns|
  {
    Area(j.TableEnd(), j.TableEnd() + |j.Extras(k)|, j.Start(), j.Start() + |j.Payloads(k)|)
  }

  function AreaOf(j: Job, k: nat): (a: Area)
    requires k < |j.c.columns|
  {
    Area(AreaTo(j, k).extraHi, AreaTo(j, k + 1).extraHi, AreaTo(j, k).payloadHi, AreaTo(j, k + 1).payloadHi)
  }

  lemma ThreeFill(params: nat, m: nat, bitmap: nat, payload: nat, n: nat)
    requires m > 0 && params + m + bitmap <= payload
    ensures Fills(RangeOf(params, m) + RangeOf(params + m, bitmap) + RangeOf(payload, n),
                  Area(params, params + m + bitmap, payload, payload + n))
  {
    var rs := RangeOf(params, m) + RangeOf(params + m, bitmap) + RangeOf(payload, n);
    forall p: nat | params <= p < params + m
      ensures Covers(rs, p)
    {
      assert Range(params, params + m) in rs;
    }
    forall p: nat | params + m <= p < params + m + bitmap
      ensures Covers(rs, p)
    {
      assert rs[1] == Range(params + m, params + m + bitmap);
    }
    forall p: nat | payload <= p < payload + n
      ensures Covers(rs, p)
    {
      assert rs[|rs| - 1] == Range(payload, payload + n);
    }
  }

  lemma ColumnFills(j: Job, k: nat)
    requires k < |j.c.columns|
    ensures Fills(RangesFor(j, k), AreaOf(j, k))
  {
    hide Job.Extras, Job.Payloads, Job.Selected, Job.Bitmap, Job.Payload, Fills, RangeOf;
    var col, at := j.c.columns[k], j.PlaceOf(k);
    ExtrasStep(j, k);
    PayloadsStep(j, k);
    ExtrasPrefix(j, k + 1, |j.c.columns|);
    ThreeFill(at.params, |j.Selected(col).Params()|, |j.Bitmap(col)|, at.payload, |j.Payload(col)|);
  }

  lemma {:induction false} ColumnsFill(j: Job, k: nat)
    requires k <= |j.c.columns|
    ensures Fills(RangesTo(j, k), AreaTo(j, k))
  {
    hide Job.Selected, Job.Extra, Job.Payload, Fills, RangesFor;
    if k == 0 {
      NothingFills(j.TableEnd(), j.Start());
    } else {
      ColumnsFill(j, k - 1);
      ColumnFills(j, k - 1);
      ExtrasPrefix(j, k, |j.c.columns|);
      ExtrasPrefix(j, k - 1, k);
      PayloadsPrefix(j, k - 1, k);
      hide Job.Extras, Job.Payloads;
      FillsBoth(RangesTo(j, k - 1), RangesFor(j, k - 1), AreaTo(j, k - 1), AreaOf(j, k - 1));
    }
  }

  lemma NothingFills(a: nat, b: nat)
    ensures Fills([], Area(a, a, b, b))
  {
  }

  /** The ranges of all columns tile everything behind the tables. */
  lemma ImageTiled(j: Job)
    requires |j.c.columns| > 0
    ensures Tiled(j.Image(), j.TableEnd(), RangesTo(j, |j.c.columns|))
  {
    hide Job.Image, Job.Extras, Job.Payloads, RangesTo;
    var n, bytes := |j.c.columns|, j.Image();
    var rs := RangesTo(j, n);
    ImageData(j);
    ColumnsFill(j, n);
    SomeExtras(j);
    var a := AreaTo(j, n);
    assert a.Has(j.Size() - 1);
    var last :| last in rs && last.lo <= j.Size() - 1 < last.hi;
    assert a.Encloses(last);
    FillsTiles(bytes, rs, a, last);
  }

  lemma SomeExtras(j: Job)
    requires |j.c.columns| > 0
    ensures |j.Extras(|j.c.columns|)| > 0
  {
    hide Job.Selected, Encoding.Params, Job.Bitmap;
  }

  lemma FillsTiles(bytes: seq<u8>, rs: seq<Range>, a: Area, last: Range)
    requires Fills(rs, a) && a.extraHi == a.payloadLo && a.payloadHi == |bytes| && a.extraLo <= a.extraHi <= a.payloadHi
    requires last in rs && last.hi == |bytes|
    ensures Tiled(bytes, a.extraLo, rs)
  {
    forall r | r in rs
      ensures r.lo < r.hi <= |bytes| && a.extraLo <= r.lo
    {
      assert a.Encloses(r);
    }
    forall k | a.extraLo <= k < |bytes| && bytes[k] != 0
      ensures Covers(rs, k)
    {
      assert a.Has(k);
    }
  }
}
