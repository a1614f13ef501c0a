/** Exactly which images a reader accepts, what it reads from them, and how reading without
    values relates to reading with them. */
module ChunkTheorems {
  import opened Bytes
  import opened Results
  import opened Codec
  import opened Tiling
  import opened Chunk
  import opened ChunkReader
  import opened ChunkImage
  import opened ChunkLaws
  import opened ChunkTiling

  predicate AxesOk(j: Job) {
    forall k :: 0 <= k < |j.c.columns| ==> j.AxisOk(j.c.columns[k])
  }

  lemma ImageFramed(j: Job)
    requires Readable(j) && j.env.Sound()
    ensures Framed(j.env, j.Image(), ShapeFor(j)) && |j.Image()| == j.Size()
  {
    hide Job.Image, Job.Extras, Job.Payloads, Job.Layable;
    ImageData(j);
  }

  lemma ColumnsRead(j: Job)
    requires Readable(j) && j.env.Sound() && Framed(j.env, j.Image(), ShapeFor(j))
    ensures ColumnsReadable(j.env, j.Image(), ShapeFor(j), true, |j.c.columns|) <==> AxesOk(j)
    ensures AxesOk(j) ==> ColumnsOf(j.env, j.Image(), ShapeFor(j), true) == j.c.columns
  {
    hide ReadColumn, Job.Image, Job.AxisOk, Readable, RangesFor, Job.Points, Job.Start, Job.Size;
    forall k | 0 <= k < |j.c.columns|
      ensures var r := ReadColumn(j.env, j.Image(), ShapeFor(j), k, true);
              (r.Ok? <==> j.AxisOk(j.c.columns[k])) && (r.Ok? ==> r.value.column == j.c.columns[k])
    {
      ColumnReads(j, k);
    }
  }

  lemma {:induction false} TotalsRead(j: Job, k: nat)
    requires Readable(j) && j.env.Sound() && Framed(j.env, j.Image(), ShapeFor(j)) && AxesOk(j)
    requires k <= |j.c.columns| && ColumnsReadable(j.env, j.Image(), ShapeFor(j), true, k)
    ensures DecodedBytes(j.env, j.Image(), ShapeFor(j), true, k) == ValueBytes(j.c.columns[..k])
    ensures RangesUpTo(j.env, j.Image(), ShapeFor(j), true, k) == RangesTo(j, k)
  {
    hide ReadColumn, Job.Image, Job.AxisOk, Framed, Readable, RangesFor;
    if k > 0 {
      TotalsRead(j, k - 1);
      ColumnReads(j, k - 1);
      assert j.c.columns[..k][..k - 1] == j.c.columns[..k - 1];
    }
  }

  lemma SemanticReads(j: Job, k: nat)
    requires Readable(j) && j.env.Sound() && k < |j.c.columns|
    ensures SemanticAt(j.Image(), ShapeFor(j), k) == j.c.columns[k].semantic
  {
    hide Word16, Uint, Job.Image, Job.Payload, RangeOf, Readable;
    ValueFields(j, k);
  }

  lemma OrderRead(j: Job)
    requires Readable(j) && j.env.Sound()
    ensures SemanticsIncrease(j.Image(), ShapeFor(j), |j.c.columns|) <==> j.SemanticsAscend()
    ensures forall axis: u16 :: HasAxis(j.Image(), ShapeFor(j), axis) <==> j.HasColumn(axis)
  {
    hide SemanticAt, Readable, Job.Image, Job.Points, Job.Start, Job.Size, HasAxis, SemanticsIncrease;
    forall k | 0 <= k < |j.c.columns|
      ensures SemanticAt(j.Image(), ShapeFor(j), k) == j.c.columns[k].semantic
    {
      SemanticReads(j, k);
    }
    OrderOf(j, j.Image(), ShapeFor(j));
  }

  lemma OrderOf(j: Job, bytes: seq<u8>, s: Shape)
    requires |j.c.columns| == s.columns
    requires forall k :: 0 <= k < s.columns ==> SemanticAt(bytes, s, k) == j.c.columns[k].semantic
    ensures SemanticsIncrease(bytes, s, s.columns) <==> j.SemanticsAscend()
    ensures forall axis: u16 :: HasAxis(bytes, s, axis) <==> j.HasColumn(axis)
  {
    hide SemanticAt;
    var columns := j.c.columns;
    if SemanticsIncrease(bytes, s, s.columns) {
      forall k | 0 < k < |columns|
        ensures columns[k - 1].semantic < columns[k].semantic
      {
        assert SemanticAt(bytes, s, k) == columns[k].semantic;
      }
      assert s.columns > 0 ==> 0 < SemanticAt(bytes, s, 0);
    }
    forall axis: u16
      ensures HasAxis(bytes, s, axis) <==> j.HasColumn(axis)
    {
      if HasAxis(bytes, s, axis) {
        var k :| 0 <= k < s.columns && SemanticAt(bytes, s, k) == axis;
        assert columns[k].semantic == axis;
      }
    }
  }

  /** A reader accepts the image of a chunk exactly when the chunk is presentable, and then
      reads back that very chunk. */
  lemma ImageAccepted(j: Job)
    requires j.Layable() && j.env.Sound()
    ensures Accepts(j.env, j.Image(), true) <==> j.Presentable()
    ensures j.Presentable() ==> ChunkOf(j.env, j.Image(), true) == j.c
  {
    hide Job.Image, Job.Layable, Job.AxisOk, Job.SegmentOk, Job.SemanticsAscend, Job.HasColumn, Job.Extras, Job.Payloads,
      SegmentsValid, ColumnsReadable, SemanticsIncrease, HasAxis, Tiled, ReadColumn, Uint, DistinctIds, Word16, Word32;
    if !Readable(j) {
      Oversized(j);
    } else {
      ImageFramed(j);
      HeaderAccepted(j);
      SegmentsRead(j);
      ColumnsRead(j);
      OrderRead(j);
      if AxesOk(j) {
        TableMeasured(j);
      }
    }
  }

  lemma Oversized(j: Job)
    requires j.Size() > MAX_CHUNK && j.env.Sound()
    ensures !Accepts(j.env, j.Image(), true)
  {
    hide Job.Image, Job.Extras, Job.Payloads, Uint, SegmentsValid, ColumnTableValid, HasAxis, Tiled;
    ImageData(j);
  }

  lemma TableMeasured(j: Job)
    requires Readable(j) && j.env.Sound() && Framed(j.env, j.Image(), ShapeFor(j)) && AxesOk(j)
    requires ColumnsReadable(j.env, j.Image(), ShapeFor(j), true, |j.c.columns|)
    ensures DecodedBytes(j.env, j.Image(), ShapeFor(j), true, |j.c.columns|) <= MAX_CHUNK
    ensures Tiled(j.Image(), j.TableEnd(), RangesUpTo(j.env, j.Image(), ShapeFor(j), true, |j.c.columns|))
  {
    hide Job.Image, Tiled, ReadColumn, Framed, Job.ColumnOk;
    TotalsRead(j, |j.c.columns|);
    assert j.c.columns[..|j.c.columns|] == j.c.columns;
    ImageTiled(j);
  }

  // ---- reading without values ----

  lemma ColumnWithoutValues(env: Env, bytes: seq<u8>, s: Shape, i: nat)
    requires i < s.columns && Framed(env, bytes, s)
    requires ReadColumn(env, bytes, s, i, true).Ok?
    ensures var full, bare := ReadColumn(env, bytes, s, i, true).value, ReadColumn(env, bytes, s, i, false);
            && bare.Ok? && bare.value.ranges == full.ranges
            && bare.value.column == full.column.(values := [])
            && bare.value.decoded == full.decoded == |full.column.values|
  {
    hide ReadValidity, ValuesValid, Uint, Word16, RangeOf, NumbersOf, Slice, EncodingOf;
    SliceLength(bytes, s, i);
  }

  lemma SliceLength(bytes: seq<u8>, s: Shape, i: nat)
    requires s.start <= |bytes|
    ensures var p := s.ColumnEntry(i);
            var r := Slice(bytes, Uint(bytes, p + 16, 8), Uint(bytes, p + 24, 4), s.start, |bytes|);
            r.Ok? ==> |r.value| == Uint(bytes, p + 24, 4)
  {
  }

  lemma {:induction false} TotalsWithoutValues(env: Env, bytes: seq<u8>, s: Shape, k: nat)
    requires Framed(env, bytes, s) && k <= s.columns && ColumnsReadable(env, bytes, s, true, k)
    ensures ColumnsReadable(env, bytes, s, false, k)
    ensures RangesUpTo(env, bytes, s, false, k) == RangesUpTo(env, bytes, s, true, k)
    ensures DecodedBytes(env, bytes, s, false, k) == DecodedBytes(env, bytes, s, true, k)
  {
    hide ReadColumn;
    if k > 0 {
      TotalsWithoutValues(env, bytes, s, k - 1);
      ColumnWithoutValues(env, bytes, s, k - 1);
    }
  }

  lemma {:induction false} DecodedIsValueBytes(env: Env, bytes: seq<u8>, s: Shape, k: nat)
    requires Framed(env, bytes, s) && k <= s.columns && ColumnsReadable(env, bytes, s, true, s.columns)
    ensures DecodedBytes(env, bytes, s, true, k) == ValueBytes(ColumnsOf(env, bytes, s, true)[..k])
  {
    hide ReadColumn;
    if k > 0 {
      DecodedIsValueBytes(env, bytes, s, k - 1);
      ColumnWithoutValues(env, bytes, s, k - 1);
      var all := ColumnsOf(env, bytes, s, true);
      assert all[..k][..k - 1] == all[..k - 1];
    }
  }

  /** Whatever can be decoded can be measured, and the measured size is the sum of the
      lengths of the values that decoding returns. */
  lemma MeasuredSize(env: Env, bytes: seq<u8>)
    requires env.pco.Progresses() && Accepts(env, bytes, true)
    ensures Accepts(env, bytes, false)
    ensures DecodedBytes(env, bytes, ShapeOf(bytes), false, ShapeOf(bytes).columns)
            == ValueBytes(ChunkOf(env, bytes, true).columns)
  {
    hide ReadColumn, Uint, Word16, Word32, SegmentsValid, SemanticsIncrease, HasAxis, Tiled;
    var s := ShapeOf(bytes);
    assert Framed(env, bytes, s) && ColumnTableValid(env, bytes, s, true);
    TotalsWithoutValues(env, bytes, s, s.columns);
    DecodedIsValueBytes(env, bytes, s, s.columns);
    var all := ColumnsOf(env, bytes, s, true);
    assert all[..s.columns] == all;
  }

  // ---- what acceptance means for the bytes ----

  /** A column's parameters and bitmap lie in the directory, its payload behind it. */
  lemma RangesInPlace(env: Env, bytes: seq<u8>, s: Shape, i: nat, decode: bool)
    requires Framed(env, bytes, s) && i < s.columns && ReadColumn(env, bytes, s, i, decode).Ok?
    ensures forall r <- ReadColumn(env, bytes, s, i, decode).value.ranges ::
              (s.TableEnd() <= r.lo < r.hi <= s.start) || (s.start <= r.lo < r.hi <= |bytes|)
  {
    hide ReadValidity, ValuesValid, Uint, Word16, NumbersOf, EncodingOf, DecodeValues, Slice, RangeOf;
    var p := s.ColumnEntry(i);
    SliceInside(bytes, Uint(bytes, p + 32, 4), Uint(bytes, p + 36, 4), s.TableEnd(), s.start);
    SliceInside(bytes, Uint(bytes, p + 40, 4), Uint(bytes, p + 44, 4), s.TableEnd(), s.start);
    SliceInside(bytes, Uint(bytes, p + 16, 8), Uint(bytes, p + 24, 4), s.start, |bytes|);
  }

  lemma SliceInside(bytes: seq<u8>, offset: nat, length: nat, low: nat, high: nat)
    requires high <= |bytes|
    ensures Slice(bytes, offset, length, low, high).Ok? ==>
              forall r <- RangeOf(offset, length) :: low <= r.lo < r.hi <= high
  {
  }

  /** A required axis has a value for every sample. */
  lemma RequiredColumn(env: Env, bytes: seq<u8>, s: Shape, i: nat)
    requires i < s.columns && Framed(env, bytes, s) && ReadColumn(env, bytes, s, i, true).Ok?
    requires Word16(bytes, s.ColumnEntry(i)) in [1, 2, 4, 12]
    ensures var c := ReadColumn(env, bytes, s, i, true).value.column;
            c.required && c.validity.None? && |c.values| == s.points * c.dtype.Width()
  {
    hide ValuesValid, Uint, Word16, RangeOf, NumbersOf, Slice, EncodingOf, DType.Width;
    ColumnWithoutValues(env, bytes, s, i);
  }

  /** In an accepted chunk the required axes have a value for every sample of its segments. */
  lemma RequiredAxes(env: Env, bytes: seq<u8>, i: nat)
    requires env.pco.Progresses() && Accepts(env, bytes, true) && i < |ChunkOf(env, bytes, true).columns|
    requires ChunkOf(env, bytes, true).columns[i].semantic in [1, 2, 4, 12]
    ensures var chunk := ChunkOf(env, bytes, true);
            var c := chunk.columns[i];
            c.required && c.validity.None? && |c.values| == CountOf(chunk.segments) * c.dtype.Width()
  {
    hide ReadColumn, Uint, Word16, Word32, SemanticsIncrease, HasAxis, Tiled, SegmentValid, SegmentAt, CountOf, DType.Width;
    var s := ShapeOf(bytes);
    ReadColumnFacts(env, bytes, s, i, true);
    RequiredColumn(env, bytes, s, i);
  }
}
