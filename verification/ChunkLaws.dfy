/** Reading the image of a chunk gives the chunk back. */
module ChunkLaws {
  import opened Bytes
  import opened Results
  import opened Codec
  import opened Tiling
  import opened Chunk
  import opened ChunkReader
  import opened ChunkLayout
  import opened ChunkImage

  // ---- the fields of a row ----

  /** The values the fields of a column entry hold. */
  datatype Entry = Entry(
    semantic: nat, logical: nat, storage: nat, codec: nat, wire: nat, outer: nat, flags: nat, points: nat,
    payloadAt: nat, payloadLength: nat, decoded: nat, paramsAt: nat, paramsLength: nat,
    bitmapAt: nat, bitmapLength: nat, crc: nat, stored: nat, reserved: nat)

  function EntryAt(bytes: seq<u8>, p: nat): (e: Entry) {
    Entry(Uint(bytes, p, 2), Uint(bytes, p + 2, 1), Uint(bytes, p + 3, 1), Uint(bytes, p + 4, 2),
          Uint(bytes, p + 6, 2), Uint(bytes, p + 8, 2), Uint(bytes, p + 10, 2), Uint(bytes, p + 12, 4),
          Uint(bytes, p + 16, 8), Uint(bytes, p + 24, 4), Uint(bytes, p + 28, 4), Uint(bytes, p + 32, 4),
          Uint(bytes, p + 36, 4), Uint(bytes, p + 40, 4), Uint(bytes, p + 44, 4), Uint(bytes, p + 48, 4),
          Uint(bytes, p + 52, 4), Uint(bytes, p + 56, 8))
  }

  predicate Small(n: nat) {
    n < 0x1_0000_0000
  }

  function OpenEntry(j: Job, col: Column, at: Place): (e: Entry) {
    var stored := j.State(col) == 1;
    Entry(col.semantic, col.dtype.Code(), col.dtype.Code(), j.Selected(col).Id(), 1, 0, j.Flags(col), j.Points(),
          0, 0, |col.values|, at.params, |j.Selected(col).Params()|,
          if stored then at.bitmap else 0, if stored then |j.Bitmap(col)| else 0, 0, 0, 0)
  }

  function EntryOf(j: Job, col: Column, at: Place): (e: Entry) {
    var payload := j.Payload(col);
    var open := OpenEntry(j, col, at);
    if payload == [] then open
    else open.(payloadAt := at.payload, payloadLength := |payload|, crc := j.env.crc(payload), stored := |payload|)
  }

  lemma BlankEntry()
    ensures EntryAt(Zeros(64), 0) == Entry(0, 0, 0, 0, 0, 0, 0, 0, 0, 0, 0, 0, 0, 0, 0, 0, 0, 0)
  {
    hide Uint;
    forall at: nat, size: nat | size <= 8
      ensures Uint(Zeros(64), at, size) == 0
    {
      ZerosRead(64, at, size);
    }
  }

  lemma OpenRowReads(j: Job, col: Column, at: Place)
    requires Small(j.Points()) && Small(|col.values|) && Small(at.params) && Small(at.bitmap)
    requires Small(|j.Bitmap(col)|)
    ensures EntryAt(j.OpenRow(col, at), 0) == OpenEntry(j, col, at)
  {
    hide Uint, Put, Job.Points, Job.State, Job.Selected, Job.Bitmap, Job.Flags;
    RadixValues();
    BlankEntry();
    var z := Zeros(64);
    var r0 := Put(z, 0, 2, col.semantic);
    ReadPut(z, 0, 2, col.semantic);
    var r1 := Put(r0, 2, 1, col.dtype.Code());
    ReadPut(r0, 2, 1, col.dtype.Code());
    var r2 := Put(r1, 3, 1, col.dtype.Code());
    ReadPut(r1, 3, 1, col.dtype.Code());
    var r3 := Put(r2, 4, 2, j.Selected(col).Id());
    ReadPut(r2, 4, 2, j.Selected(col).Id());
    var r4 := Put(r3, 6, 2, 1);
    ReadPut(r3, 6, 2, 1);
    assert EntryAt(r4, 0) == EntryAt(z, 0).(semantic := col.semantic, logical := col.dtype.Code(),
      storage := col.dtype.Code(), codec := j.Selected(col).Id(), wire := 1);
    MiddleOfRow(j, col, at, r4);
  }

  function Middle(j: Job, col: Column, at: Place, row: seq<u8>): (r: seq<u8>)
    requires |row| == 64
  {
    var r := Put(Put(row, 10, 2, j.Flags(col)), 12, 4, j.Points());
    var r := Put(r, 28, 4, |col.values|);
    var r := Put(Put(r, 32, 4, at.params), 36, 4, |j.Selected(col).Params()|);
    if j.State(col) == 1 then Put(Put(r, 40, 4, at.bitmap), 44, 4, |j.Bitmap(col)|) else r
  }

  lemma MiddleOfRow(j: Job, col: Column, at: Place, row: seq<u8>)
    requires |row| == 64
    requires Small(j.Points()) && Small(|col.values|) && Small(at.params) && Small(at.bitmap)
    requires Small(|j.Bitmap(col)|)
    ensures var e := EntryAt(row, 0).(flags := j.Flags(col), points := j.Points(), decoded := |col.values|,
                       paramsAt := at.params, paramsLength := |j.Selected(col).Params()|);
            EntryAt(Middle(j, col, at, row), 0)
            == if j.State(col) == 1 then e.(bitmapAt := at.bitmap, bitmapLength := |j.Bitmap(col)|) else e
  {
    assert j.Flags(col) < 0x1_0000 && |j.Selected(col).Params()| < 0x1_0000;
    hide Uint, Put, Job.Points, Job.State, Job.Selected, Job.Bitmap, Job.Flags;
    RadixValues();
    var r0 := Put(row, 10, 2, j.Flags(col));
    ReadPut(row, 10, 2, j.Flags(col));
    var r1 := Put(r0, 12, 4, j.Points());
    ReadPut(r0, 12, 4, j.Points());
    var r2 := Put(r1, 28, 4, |col.values|);
    ReadPut(r1, 28, 4, |col.values|);
    assert EntryAt(r2, 0) == EntryAt(row, 0).(flags := j.Flags(col), points := j.Points(), decoded := |col.values|);
    var r3 := Put(r2, 32, 4, at.params);
    ReadPut(r2, 32, 4, at.params);
    var r4 := Put(r3, 36, 4, |j.Selected(col).Params()|);
    ReadPut(r3, 36, 4, |j.Selected(col).Params()|);
    if j.State(col) == 1 {
      ReadPut(r4, 40, 4, at.bitmap);
      ReadPut(Put(r4, 40, 4, at.bitmap), 44, 4, |j.Bitmap(col)|);
    }
  }

  lemma RowReads(j: Job, col: Column, at: Place)
    requires Small(j.Points()) && Small(|col.values|) && Small(at.params) && Small(at.bitmap)
    requires Small(|j.Bitmap(col)|) && Small(|j.Payload(col)|) && Small(at.payload)
    ensures EntryAt(j.Row(col, at), 0) == EntryOf(j, col, at)
  {
    hide Uint, Put, Job.Points, Job.State, Job.Selected, Job.Bitmap, Job.Flags, Job.Payload, Job.OpenRow, EntryAt, Job.Placed;
    OpenRowReads(j, col, at);
    PlacedReads(j, j.OpenRow(col, at), at.payload, j.Payload(col));
  }

  lemma PlacedReads(j: Job, row: seq<u8>, at: nat, payload: seq<u8>)
    requires |row| == 64 && Small(at) && Small(|payload|)
    ensures EntryAt(j.Placed(row, at, payload), 0)
            == if payload == [] then EntryAt(row, 0)
               else EntryAt(row, 0).(payloadAt := at, payloadLength := |payload|, crc := j.env.crc(payload),
                                     stored := |payload|)
  {
    hide Uint, Put;
    RadixValues();
    if payload != [] {
      var r0 := Put(row, 16, 8, at);
      ReadPut(row, 16, 8, at);
      var r1 := Put(r0, 24, 4, |payload|);
      ReadPut(r0, 24, 4, |payload|);
      assert EntryAt(r1, 0) == EntryAt(row, 0).(payloadAt := at, payloadLength := |payload|);
      var r2 := Put(r1, 48, 4, j.env.crc(payload));
      ReadPut(r1, 48, 4, j.env.crc(payload));
      ReadPut(r2, 52, 4, |payload|);
    }
  }

  /** An entry reads the same within the buffer as on its own. */
  lemma EntryWithin(bytes: seq<u8>, p: nat)
    requires p + 64 <= |bytes|
    ensures EntryAt(bytes, p) == EntryAt(bytes[p..p + 64], 0)
  {
    hide Uint;
    var q := p + 64;
    UintOfSlice(bytes, p, q, 0, 2); UintOfSlice(bytes, p, q, 2, 1); UintOfSlice(bytes, p, q, 3, 1);
    UintOfSlice(bytes, p, q, 4, 2); UintOfSlice(bytes, p, q, 6, 2); UintOfSlice(bytes, p, q, 8, 2);
    UintOfSlice(bytes, p, q, 10, 2); UintOfSlice(bytes, p, q, 12, 4); UintOfSlice(bytes, p, q, 16, 8);
    UintOfSlice(bytes, p, q, 24, 4); UintOfSlice(bytes, p, q, 28, 4); UintOfSlice(bytes, p, q, 32, 4);
    UintOfSlice(bytes, p, q, 36, 4); UintOfSlice(bytes, p, q, 40, 4); UintOfSlice(bytes, p, q, 44, 4);
    UintOfSlice(bytes, p, q, 48, 4); UintOfSlice(bytes, p, q, 52, 4); UintOfSlice(bytes, p, q, 56, 8);
    assert Uint(bytes, p + 0, 2) == Uint(bytes, p, 2);
  }

  // ---- where a column's data are ----

  lemma {:induction false} ExtrasPrefix(j: Job, k: nat, m: nat)
    requires k <= m <= |j.c.columns|
    ensures |j.Extras(k)| <= |j.Extras(m)| && j.Extras(m)[..|j.Extras(k)|] == j.Extras(k)
  {
    hide Job.Extra;
    if k < m {
      ExtrasPrefix(j, k, m - 1);
    }
  }

  lemma {:induction false} PayloadsPrefix(j: Job, k: nat, m: nat)
    requires k <= m <= |j.c.columns|
    ensures |j.Payloads(k)| <= |j.Payloads(m)| && j.Payloads(m)[..|j.Payloads(k)|] == j.Payloads(k)
  {
    hide Job.Payload;
    if k < m {
      PayloadsPrefix(j, k, m - 1);
    }
  }

  /** `s` stands at `at` in `bytes`. */
  predicate Holds(bytes: seq<u8>, at: nat, s: seq<u8>) {
    at + |s| <= |bytes| && bytes[at..at + |s|] == s
  }

  lemma Piece(all: seq<u8>, base: nat, whole: seq<u8>, pre: seq<u8>, mid: seq<u8>)
    requires Holds(all, base, whole)
    requires |pre + mid| <= |whole| && whole[..|pre + mid|] == pre + mid
    ensures Holds(all, base + |pre|, mid)
  {
    forall i | 0 <= i < |mid|
      ensures all[base + |pre| + i] == mid[i]
    {
      assert (pre + mid)[|pre| + i] == mid[i];
      assert whole[..|pre + mid|][|pre| + i] == whole[|pre| + i];
      assert all[base..base + |whole|][|pre| + i] == all[base + |pre| + i];
    }
  }

  lemma ImageData(j: Job)
    ensures |j.Image()| == j.Size()
    ensures Holds(j.Image(), j.TableEnd(), j.Extras(|j.c.columns|))
    ensures Holds(j.Image(), j.Start(), j.Payloads(|j.c.columns|))
  {
    hide Job.Extras, Job.Payloads, Job.Header, Job.SegmentRows, Job.ColumnRows, Parts.Bytes;
    j.Sections().DataAt();
  }

  lemma PrefixHolds(all: seq<u8>, pre: seq<u8>, mid: seq<u8>)
    requires |pre + mid| <= |all| && all[..|pre + mid|] == pre + mid
    ensures Holds(all, |pre|, mid)
  {
    assert Holds(all, 0, all);
    Piece(all, 0, all, pre, mid);
  }

  lemma UpToHolds(all: seq<u8>, upTo: seq<u8>, pre: seq<u8>, mid: seq<u8>)
    requires upTo == pre + mid && |upTo| <= |all| && all[..|upTo|] == upTo
    ensures Holds(all, |pre|, mid)
  {
    hide Holds;
    PrefixHolds(all, pre, mid);
  }

  lemma PrefixOfPrefix(all: seq<u8>, a: seq<u8>, b: seq<u8>, c: seq<u8>)
    requires |a + (b + c)| <= |all| && all[..|a + (b + c)|] == a + (b + c)
    ensures Holds(all, |a|, b) && Holds(all, |a| + |b|, c)
  {
    PrefixHolds(all, a, b + c);
    assert Holds(b + c, 0, b) && Holds(b + c, |b|, c);
    HoldsWithin(all, |a|, b + c, 0, b);
    HoldsWithin(all, |a|, b + c, |b|, c);
  }

  lemma ExtraWithin(j: Job, k: nat)
    requires k < |j.c.columns|
    ensures var col, all := j.c.columns[k], j.Extras(|j.c.columns|);
            && Holds(all, |j.Extras(k)|, j.Selected(col).Params())
            && Holds(all, |j.Extras(k)| + |j.Selected(col).Params()|, j.Bitmap(col))
  {
    hide Job.Selected, Job.Bitmap, Encoding.Params, Holds;
    var col, n := j.c.columns[k], |j.c.columns|;
    ExtrasPrefix(j, k + 1, n);
    ExtrasStep(j, k);
    hide Job.Extras;
    PrefixOfPrefix(j.Extras(n), j.Extras(k), j.Selected(col).Params(), j.Bitmap(col));
  }

  lemma ExtrasStep(j: Job, k: nat)
    requires k < |j.c.columns|
    ensures var col := j.c.columns[k]; j.Extras(k + 1) == j.Extras(k) + (j.Selected(col).Params() + j.Bitmap(col))
  {
    hide Job.Selected, Job.Bitmap, Encoding.Params;
  }

  lemma PayloadsStep(j: Job, k: nat)
    requires k < |j.c.columns|
    ensures j.Payloads(k + 1) == j.Payloads(k) + j.Payload(j.c.columns[k])
  {
    hide Job.Payload;
  }

  lemma HoldsWithin(bytes: seq<u8>, base: nat, whole: seq<u8>, at: nat, s: seq<u8>)
    requires Holds(bytes, base, whole) && Holds(whole, at, s)
    ensures Holds(bytes, base + at, s)
  {
    assert whole[..at + |s|] == whole[..at] + s;
    Piece(bytes, base, whole, whole[..at], s);
  }

  /** A column's parameters, bitmap and payload are where its entry says. */
  lemma DataPlaced(j: Job, k: nat)
    requires k < |j.c.columns|
    ensures var col, at := j.c.columns[k], j.PlaceOf(k);
            && Holds(j.Image(), at.params, j.Selected(col).Params())
            && Holds(j.Image(), at.bitmap, j.Bitmap(col))
            && Holds(j.Image(), at.payload, j.Payload(col))
            && at.bitmap + |j.Bitmap(col)| <= j.Start() <= at.payload
  {
    hide Job.Selected, Job.Bitmap, Job.Payload, Job.Image, Holds, Encoding.Params;
    var col, n := j.c.columns[k], |j.c.columns|;
    ImageData(j);
    ExtraWithin(j, k);
    InExtras(j, k);
    HoldsWithin(j.Image(), j.TableEnd(), j.Extras(n), |j.Extras(k)|, j.Selected(col).Params());
    HoldsWithin(j.Image(), j.TableEnd(), j.Extras(n), |j.Extras(k)| + |j.Selected(col).Params()|, j.Bitmap(col));
    PayloadWithin(j, k);
    HoldsWithin(j.Image(), j.Start(), j.Payloads(n), |j.Payloads(k)|, j.Payload(col));
  }

  lemma InExtras(j: Job, k: nat)
    requires k < |j.c.columns|
    ensures |j.Extras(k)| + |j.Selected(j.c.columns[k]).Params()| + |j.Bitmap(j.c.columns[k])|
            <= |j.Extras(|j.c.columns|)|
  {
    hide Job.Selected, Job.Bitmap, Encoding.Params;
    ExtrasPrefix(j, k + 1, |j.c.columns|);
  }

  lemma PayloadWithin(j: Job, k: nat)
    requires k < |j.c.columns|
    ensures Holds(j.Payloads(|j.c.columns|), |j.Payloads(k)|, j.Payload(j.c.columns[k]))
  {
    hide Job.Payload, Job.Payloads, Holds;
    PayloadsPrefix(j, k + 1, |j.c.columns|);
    PayloadsStep(j, k);
    UpToHolds(j.Payloads(|j.c.columns|), j.Payloads(k + 1), j.Payloads(k), j.Payload(j.c.columns[k]));
  }

  // ---- one column ----

  lemma {:induction false} NoOnesMeansZeros(bitmap: seq<u8>)
    requires OnesIn(bitmap) == 0
    ensures bitmap == Zeros(|bitmap|)
  {
    if bitmap != [] {
      NoOnesMeansZeros(bitmap[1..]);
      assert bitmap == [bitmap[0]] + bitmap[1..];
    }
  }

  lemma ValidityReads(j: Job, col: Column)
    requires j.ValidityOk(col)
    ensures ReadValidity(j.State(col), j.Bitmap(col), j.Points()) == Ok(Validity(col.validity, j.ValidCount(col)))
  {
    if j.State(col) == 2 {
      NoOnesMeansZeros(col.validity.value);
    }
  }

  lemma FlagsRead(j: Job, col: Column)
    ensures var flags := j.Flags(col);
            && flags / 32 == 0 && flags / 4 % 4 == 0 && flags % 4 == j.State(col)
            && (flags / 16 % 2 == 1 <==> col.required)
            && (flags == 16 <==> col.required && col.validity.None?)
  {
  }

  lemma ValuesDecode(j: Job, col: Column)
    requires j.env.Sound() && j.ColumnOk(col)
    ensures DecodeValues(j.env, col.dtype, j.Selected(col), j.Payload(col), j.ValidCount(col), true) == Ok(col.values)
    ensures j.ValidCount(col) == 0 ==> j.Selected(col).Raw? && j.Payload(col) == []
    ensures j.Selected(col).Raw? ==> |j.Payload(col)| == |col.values|
  {
    hide Split, Join, Pco.Stream, ValuesValid, Job.ValidityOk;
    if j.Selected(col).Pco8? {
      CodecRoundTrip(j.env.pco, col.dtype, col.values, j.ValidCount(col));
    }
  }

  function ShapeFor(j: Job): (s: Shape) {
    Shape(j.Points(), |j.c.segments|, |j.c.columns|, j.Start(), j.Size() - j.Start())
  }

  function RangesFor(j: Job, k: nat): (rs: seq<Range>)
    requires k < |j.c.columns|
  {
    var col, at := j.c.columns[k], j.PlaceOf(k);
    RangeOf(at.params, |j.Selected(col).Params()|)
    + RangeOf(at.bitmap, |j.Bitmap(col)|) + RangeOf(at.payload, |j.Payload(col)|)
  }

  predicate Readable(j: Job) {
    j.Layable() && j.Size() <= MAX_CHUNK
  }

  lemma {:induction false} ValueBytesBound(columns: seq<Column>, k: nat)
    requires k < |columns|
    ensures |columns[k].values| <= ValueBytes(columns)
  {
    if k < |columns| - 1 {
      ValueBytesBound(columns[..|columns| - 1], k);
    }
  }

  lemma PlacesSmall(j: Job, k: nat)
    requires Readable(j) && k < |j.c.columns|
    ensures var col, at := j.c.columns[k], j.PlaceOf(k);
            && Small(j.Points()) && Small(|col.values|) && Small(at.params) && Small(at.bitmap)
            && Small(|j.Bitmap(col)|) && Small(|j.Payload(col)|) && Small(at.payload)
  {
    hide Job.Image, Job.Extras, Job.Payloads, Job.Bitmap, Job.Payload, Job.ColumnOk, Job.Points, Job.Selected;
    ImageData(j);
    DataPlaced(j, k);
    ValueBytesBound(j.c.columns, k);
  }

  lemma RowAt(j: Job, k: nat)
    requires k < |j.c.columns|
    ensures var p := ShapeFor(j).ColumnEntry(k);
            Holds(j.Image(), p, j.Row(j.c.columns[k], j.PlaceOf(k)))
  {
    hide Job.Row, Job.Header, Job.SegmentRows, Job.Extras, Job.Payloads, Parts.Bytes, Job.PlaceOf;
    j.Sections().ColumnRowAt(k);
  }

  /** The entry of column k in the image. */
  lemma EntryReads(j: Job, k: nat)
    requires Readable(j) && k < |j.c.columns|
    ensures EntryAt(j.Image(), ShapeFor(j).ColumnEntry(k)) == EntryOf(j, j.c.columns[k], j.PlaceOf(k))
    ensures ShapeFor(j).ColumnEntry(k) + 64 <= |j.Image()|
  {
    hide EntryAt, EntryOf, Job.Row, Job.PlaceOf, Job.Layable, Job.Image, Job.Payload, Job.Bitmap, Job.Points, ShapeFor;
    PlacesSmall(j, k);
    RowAt(j, k);
    EntryWithin(j.Image(), ShapeFor(j).ColumnEntry(k));
    RowReads(j, j.c.columns[k], j.PlaceOf(k));
  }

  lemma SliceHolds(bytes: seq<u8>, at: nat, s: seq<u8>, low: nat, high: nat)
    requires Holds(bytes, at, s) && |bytes| <= MAX_CHUNK && high <= |bytes|
    requires s != [] ==> low <= at && at + |s| <= high
    ensures Slice(bytes, if s == [] then 0 else at, |s|, low, high) == Ok(s)
  {
  }

  lemma ParamsRead(j: Job, k: nat)
    requires Readable(j) && k < |j.c.columns|
    ensures |j.Image()| == j.Size()
    ensures var col, at := j.c.columns[k], j.PlaceOf(k);
            && Slice(j.Image(), at.params, |j.Selected(col).Params()|, j.TableEnd(), j.Start())
               == Ok(j.Selected(col).Params())
            && Slice(j.Image(), if j.Bitmap(col) == [] then 0 else at.bitmap, |j.Bitmap(col)|, j.TableEnd(), j.Start())
               == Ok(j.Bitmap(col))
            && Slice(j.Image(), if j.Payload(col) == [] then 0 else at.payload, |j.Payload(col)|, j.Start(), j.Size())
               == Ok(j.Payload(col))
  {
    hide Job.Image, Job.Extras, Job.Payloads, Job.Selected, Encoding.Params, Holds, Slice, Job.Payload, Job.Bitmap, Job.Layable;
    DataPlaced(j, k);
    ImageData(j);
    var col, at, bytes := j.c.columns[k], j.PlaceOf(k), j.Image();
    SliceHolds(bytes, at.params, j.Selected(col).Params(), j.TableEnd(), j.Start());
    SliceHolds(bytes, at.bitmap, j.Bitmap(col), j.TableEnd(), j.Start());
    PayloadFits(j, k);
    SliceHolds(bytes, at.payload, j.Payload(col), j.Start(), j.Size());
  }

  lemma PayloadFits(j: Job, k: nat)
    requires k < |j.c.columns|
    ensures j.PlaceOf(k).payload + |j.Payload(j.c.columns[k])| <= j.Size()
  {
    hide Job.Payload;
    PayloadsPrefix(j, k + 1, |j.c.columns|);
  }

  lemma StoredBitmap(j: Job, col: Column)
    requires j.ValidityOk(col) && j.Points() > 0
    ensures j.State(col) == 1 <==> j.Bitmap(col) != []
  {
  }

  lemma ColumnFacts(j: Job, k: nat)
    requires j.Layable() && k < |j.c.columns|
    ensures var col := j.c.columns[k];
            && j.ColumnOk(col) && j.ValidityOk(col) && ValuesValid(col)
            && |col.values| == j.ValidCount(col) * col.dtype.Width()
  {
    hide ValuesValid, Job.ValidityOk, Compress;
  }

  /** Reading a column's entry up to its values. */
  lemma HeadReads(j: Job, k: nat)
    requires Readable(j) && k < |j.c.columns| && j.env.Sound()
    requires ShapeFor(j).TableEnd() <= ShapeFor(j).start <= |j.Image()|
    ensures var col, s := j.c.columns[k], ShapeFor(j);
            ReadColumn(j.env, j.Image(), s, k, true)
            == ReadValues(j.env, j.Image(), s, k, true, col.dtype, j.Selected(col), j.Flags(col),
                          Validity(col.validity, j.ValidCount(col)))
  {
    hide Uint, Slice, ReadValidity, ReadValues, Job.Image, Job.Extras, Job.Payloads, Job.Payload, Job.Bitmap, Job.Flags,
      Job.State, Job.Points, Job.Selected, Job.ColumnOk, Job.ValidCount, DTypeOf, Job.Start, Encoding.Params, DType.Code,
      EncodingOf, Encoding.Id;
    assert j.ValidityOk(j.c.columns[k]) by {
      ColumnFacts(j, k);
    }
    var col, p := j.c.columns[k], ShapeFor(j).ColumnEntry(k);
    EntryReads(j, k);
    ParamsRead(j, k);
    FlagsRead(j, col);
    ValidityReads(j, col);
    StoredBitmap(j, col);
    ByteIsUint(j.Image(), p + 2);
    ByteIsUint(j.Image(), p + 3);
    CodesRead(j, col);
  }

  lemma CodesRead(j: Job, col: Column)
    ensures DTypeOf(col.dtype.Code()) == Ok(col.dtype)
    ensures EncodingOf(j.Selected(col).Id()) == Ok(j.Selected(col))
  {
  }

  lemma ValueFields(j: Job, k: nat)
    requires Readable(j) && k < |j.c.columns| && j.env.Sound()
    ensures var col, at, p, bytes := j.c.columns[k], j.PlaceOf(k), ShapeFor(j).ColumnEntry(k), j.Image();
            var payload := j.Payload(col);
            && Word16(bytes, p) == col.semantic
            && Uint(bytes, p + 16, 8) == (if payload == [] then 0 else at.payload)
            && Uint(bytes, p + 24, 4) == Uint(bytes, p + 52, 4) == |payload|
            && Uint(bytes, p + 28, 4) == |col.values|
            && Uint(bytes, p + 48, 4) == j.env.crc(payload)
            && RangeOf(Uint(bytes, p + 32, 4), Uint(bytes, p + 36, 4)) == RangeOf(at.params, |j.Selected(col).Params()|)
            && RangeOf(Uint(bytes, p + 40, 4), Uint(bytes, p + 44, 4)) == RangeOf(at.bitmap, |j.Bitmap(col)|)
            && RangeOf(Uint(bytes, p + 16, 8), |payload|) == RangeOf(at.payload, |payload|)
  {
    hide Uint, Job.Image, Job.Payload, Job.State, Job.Points, Job.Selected, Job.ColumnOk, Encoding.Params, DType.Code, Job.PlaceOf;
    EntryReads(j, k);
  }

  lemma ReadValuesOf(env: Env, bytes: seq<u8>, s: Shape, i: nat, dtype: DType, encoding: Encoding, flags: nat,
                     validity: Validity, payload: seq<u8>, values: seq<u8>)
    requires i < s.columns && s.TableEnd() <= s.start <= |bytes| && env.pco.Progresses()
    requires var p := s.ColumnEntry(i);
             && Uint(bytes, p + 24, 4) == Uint(bytes, p + 52, 4) == |payload|
             && Uint(bytes, p + 28, 4) == validity.valid * dtype.Width() == |values|
             && Uint(bytes, p + 48, 4) == env.crc(payload)
             && Slice(bytes, Uint(bytes, p + 16, 8), |payload|, s.start, |bytes|) == Ok(payload)
    requires DecodeValues(env, dtype, encoding, payload, validity.valid, true) == Ok(values)
    requires validity.valid == 0 ==> encoding.Raw? && payload == []
    requires encoding.Raw? ==> |payload| == |values|
    ensures var r := ReadValues(env, bytes, s, i, true, dtype, encoding, flags, validity);
            var p := s.ColumnEntry(i);
            var col := Column(Word16(bytes, p), dtype, flags / 16 % 2 == 1, validity.bitmap, values);
            && (r.Ok? <==> (col.semantic in [1, 2, 4, 12] ==> flags == 16) && (col.semantic == 12 ==> dtype.U8?) && ValuesValid(col))
            && (r.Ok? ==>
                  r.value == ColumnRead(col, |values|,
                                        RangeOf(Uint(bytes, p + 32, 4), Uint(bytes, p + 36, 4))
                                        + RangeOf(Uint(bytes, p + 40, 4), Uint(bytes, p + 44, 4))
                                        + RangeOf(Uint(bytes, p + 16, 8), |payload|)))
  {
    hide Uint, Word16, Slice, DecodeValues, ValuesValid, RangeOf, DType.Width;
  }

  /** Reading the values of a column: it succeeds exactly when the axis rules hold. */
  lemma ValuesRead(j: Job, k: nat)
    requires Readable(j) && k < |j.c.columns| && j.env.Sound()
    requires ShapeFor(j).TableEnd() <= ShapeFor(j).start <= |j.Image()|
    ensures var col, s := j.c.columns[k], ShapeFor(j);
            var r := ReadValues(j.env, j.Image(), s, k, true, col.dtype, j.Selected(col), j.Flags(col),
                                Validity(col.validity, j.ValidCount(col)));
            && (r.Ok? <==> j.AxisOk(col))
            && (r.Ok? ==> r.value == ColumnRead(col, |col.values|, RangesFor(j, k)))
  {
    hide Uint, Word16, Slice, DecodeValues, ValuesValid, RangeOf, Job.Image, Job.Extras, Job.Payloads, Job.Payload, Job.Bitmap, Job.Flags,
      Job.PlaceOf, Job.Layable, Shape.ColumnEntry, Shape.TableEnd, DType.Width, Job.State, Job.Points, Job.Selected, Job.ColumnOk, Job.ValidityOk, Job.ValidCount, Job.Start, Encoding.Params, DType.Code;
    ColumnFacts(j, k);
    var col := j.c.columns[k];
    ValueFields(j, k);
    ParamsRead(j, k);
    FlagsRead(j, col);
    ValuesDecode(j, col);
    hide ReadValues;
    ReadValuesOf(j.env, j.Image(), ShapeFor(j), k, col.dtype, j.Selected(col), j.Flags(col),
                 Validity(col.validity, j.ValidCount(col)), j.Payload(col), col.values);
  }

  /** Reading column k of the image: it succeeds exactly when the axis rules hold, and gives
      the column back. */
  lemma ColumnReads(j: Job, k: nat)
    requires Readable(j) && k < |j.c.columns| && j.env.Sound() && Framed(j.env, j.Image(), ShapeFor(j))
    ensures var r := ReadColumn(j.env, j.Image(), ShapeFor(j), k, true);
            && (r.Ok? <==> j.AxisOk(j.c.columns[k]))
            && (r.Ok? ==> r.value == ColumnRead(j.c.columns[k], |j.c.columns[k].values|, RangesFor(j, k)))
  {
    hide ReadColumn, ReadValues, Job.Image, ShapeFor, RangesFor, Job.AxisOk, Job.Layable;
    HeadReads(j, k);
    ValuesRead(j, k);
  }

  // ---- the header ----

  lemma OpenHeaderReads(j: Job)
    requires Small(j.Points()) && Small(|j.c.segments|) && |j.c.columns| < 0x1_0000
    ensures var h := j.OpenHeader();
            && h[..8] == MAGIC && h[16..32] == j.c.id && h[32..48] == j.c.profile
            && Uint(h, 8, 2) == 1 && Uint(h, 10, 2) == 0 && Uint(h, 12, 4) == 0
            && Uint(h, 48, 4) == j.Points() && Uint(h, 52, 4) == |j.c.segments|
            && Uint(h, 56, 2) == |j.c.columns| && Uint(h, 58, 2) == 0
  {
    hide Uint, Job.Points;
    RadixValues();
    var z := Zeros(HEADER);
    ZerosRead(HEADER, 10, 2);
    ZerosRead(HEADER, 12, 4);
    ZerosRead(HEADER, 58, 2);
    var h0 := Splice(z, 0, MAGIC);
    SpliceReads(z, 0, MAGIC);
    var h1 := Put(h0, 8, 2, 1);
    ReadPut(h0, 8, 2, 1);
    var h2 := Splice(h1, 16, j.c.id);
    SpliceReads(h1, 16, j.c.id);
    var h3 := Splice(h2, 32, j.c.profile);
    SpliceReads(h2, 32, j.c.profile);
    var h4 := Put(h3, 48, 4, j.Points());
    ReadPut(h3, 48, 4, j.Points());
    var h5 := Put(h4, 52, 4, |j.c.segments|);
    ReadPut(h4, 52, 4, |j.c.segments|);
    var h6 := Put(h5, 56, 2, |j.c.columns|);
    ReadPut(h5, 56, 2, |j.c.columns|);
    assert h6[..48] == h3[..48];
    assert h3[..8] == h0[..8] && h3[16..32] == h2[16..32];
    assert h6[..8] == h6[..48][..8] && h6[16..32] == h6[..48][16..32] && h6[32..48] == h6[..48][32..48];
    assert h3[..8] == h3[..48][..8] && h3[16..32] == h3[..48][16..32] && h3[32..48] == h3[..48][32..48];
  }

  lemma SpliceReads(bytes: seq<u8>, at: nat, s: seq<u8>)
    requires at + |s| <= |bytes|
    ensures Splice(bytes, at, s)[at..at + |s|] == s
    ensures forall lo: nat, n: nat :: n <= 8 && (lo + n <= at || at + |s| <= lo) ==>
              Uint(Splice(bytes, at, s), lo, n) == Uint(bytes, lo, n)
  {
    forall lo: nat, n: nat | n <= 8 && (lo + n <= at || at + |s| <= lo)
      ensures Uint(Splice(bytes, at, s), lo, n) == Uint(bytes, lo, n)
    {
      if lo + n <= |bytes| {
        SpliceBeside(bytes, at, s, lo, lo + n);
      }
    }
  }

  /** The finished header: its counts and offsets, and its two checksums. */
  lemma HeaderRead(j: Job)
    requires Small(j.Points()) && Small(|j.c.segments|) && |j.c.columns| < 0x1_0000 && Small(j.Size())
    ensures var h := j.Header();
            && h[..8] == MAGIC && h[16..32] == j.c.id && h[32..48] == j.c.profile
            && Uint(h, 8, 2) == 1 && Uint(h, 10, 2) == 0 && Uint(h, 12, 4) == 0
            && Uint(h, 48, 4) == j.Points() && Uint(h, 52, 4) == |j.c.segments|
            && Uint(h, 56, 2) == |j.c.columns| && Uint(h, 58, 2) == 0
            && Uint(h, 60, 4) == j.Start() - HEADER && Uint(h, 64, 8) == j.Size() - j.Start()
            && Uint(h, 72, 4) == j.env.crc(h[..72]) && Uint(h, 76, 4) == j.env.crc(j.Directory())
  {
    hide Uint, Job.Points, Job.OpenHeader, Job.Directory, Job.Extras, Job.Payloads, Splice, LittleEndian, Radix;
    RadixValues();
    OpenHeaderReads(j);
    var h := j.OpenHeader();
    var h0 := Put(h, 60, 4, j.Start() - HEADER);
    ReadPut(h, 60, 4, j.Start() - HEADER);
    var h1 := Put(h0, 64, 8, j.Size() - j.Start());
    ReadPut(h0, 64, 8, j.Size() - j.Start());
    var h2 := Put(h1, 72, 4, j.env.crc(h1[..72]));
    ReadPut(h1, 72, 4, j.env.crc(h1[..72]));
    var h3 := Put(h2, 76, 4, j.env.crc(j.Directory()));
    ReadPut(h2, 76, 4, j.env.crc(j.Directory()));
    assert h3 == j.Header();
    PutAfter(h, 60, 4, j.Start() - HEADER, 48);
    PutAfter(h0, 64, 8, j.Size() - j.Start(), 48);
    PutAfter(h1, 72, 4, j.env.crc(h1[..72]), 72);
    PutAfter(h2, 76, 4, j.env.crc(j.Directory()), 72);
    assert h3[..72] == h1[..72];
    assert h3[..48] == h3[..72][..48] && h1[..48] == h1[..72][..48];
    assert h3[..48] == h[..48];
    FrontOf(h3);
    FrontOf(h);
  }

  lemma PutAfter(bytes: seq<u8>, at: nat, size: nat, v: nat, n: nat)
    requires n <= at && at + size <= |bytes|
    ensures Put(bytes, at, size, v)[..n] == bytes[..n]
  {
  }

  lemma FrontOf(h: seq<u8>)
    requires |h| >= 48
    ensures h[..8] == h[..48][..8] && h[16..32] == h[..48][16..32] && h[32..48] == h[..48][32..48]
  {
  }

  lemma {:induction false} ExtrasSmall(j: Job, k: nat)
    requires j.Layable() && k <= |j.c.columns|
    ensures |j.Extras(k)| <= k * 125003
  {
    hide Job.ColumnOk;
    if k > 0 {
      ExtrasSmall(j, k - 1);
      assert |j.Bitmap(j.c.columns[k - 1])| <= 125000 by {
        ColumnFacts(j, k - 1);
      }
    }
  }

  lemma ImageHeader(j: Job)
    ensures |j.Image()| == j.Size() && j.Size() >= j.Start() >= HEADER
    ensures j.Image()[..HEADER] == j.Header()
    ensures j.Image()[HEADER..j.Start()] == j.Directory()
  {
    hide Job.Header, Job.SegmentRows, Job.ColumnRows, Job.Extras, Job.Payloads, Flatten;
    var p := j.Sections();
    p.Length();
    p.HeaderAt();
    var pre, post := j.Header(), j.Payloads(|j.c.columns|);
    assert p.Bytes() == pre + j.Directory() + post;
  }

  lemma HeaderNumbers(bytes: seq<u8>, h: seq<u8>)
    requires HEADER <= |bytes| && bytes[..HEADER] == h
    ensures forall at: nat, size: nat :: size <= 8 && at + size <= HEADER ==> Uint(bytes, at, size) == Uint(h, at, size)
    ensures bytes[..8] == h[..8] && bytes[16..32] == h[16..32] && bytes[32..48] == h[32..48] && bytes[..72] == h[..72]
  {
    hide Uint;
    forall at: nat, size: nat | size <= 8 && at + size <= HEADER
      ensures Uint(bytes, at, size) == Uint(h, at, size)
    {
      UintInHeader(bytes, at, size);
    }
    FrontOf(h);
    FrontOf(bytes);
    assert h[..48] == bytes[..48];
  }

  lemma SizesFit(j: Job)
    requires Readable(j)
    ensures j.Start() <= HEADER + DIRECTORY_LIMIT && j.Size() <= MAX_CHUNK && j.TableEnd() <= j.Start()
    ensures 0 < j.Points() <= MAX_POINTS && 0 < |j.c.segments| <= 65536 && 0 < |j.c.columns| <= 64
  {
    hide Job.Points, Job.Extras, Job.Payloads, Job.ColumnOk;
    ExtrasSmall(j, |j.c.columns|);
    assert |j.c.columns| * 125003 <= 64 * 125003;
  }

  lemma HeaderAccepted(j: Job)
    requires Readable(j)
    ensures HeaderValid(j.env, j.Image()) && ShapeOf(j.Image()) == ShapeFor(j)
    ensures j.Image()[16..32] == j.c.id && j.Image()[32..48] == j.c.profile
  {
    hide Uint, Job.Header, Job.Image, Job.Points, Job.Directory, Job.Extras, Job.Payloads, Job.Start, Job.Size, Job.Layable;
    ImageHeader(j);
    SizesFit(j);
    HeaderRead(j);
    HeaderNumbers(j.Image(), j.Header());
  }

  lemma UintInHeader(bytes: seq<u8>, at: nat, size: nat)
    requires HEADER <= |bytes| && at + size <= HEADER && size <= 8
    ensures Uint(bytes, at, size) == Uint(bytes[..HEADER], at, size)
  {
    UintOfSlice(bytes, 0, HEADER, at, size);
    assert bytes[0..HEADER] == bytes[..HEADER];
  }

  // ---- segments ----

  lemma SegmentRowReads(j: Job, s: Segment)
    ensures var row := j.SegmentRow(s);
            && row[..16] == s.id && Uint(row, 16, 4) == s.count && Uint(row, 20, 4) == 0 && Uint(row, 24, 8) == 0
  {
    hide Uint;
    RadixValues();
    ZerosRead(32, 20, 4);
    ZerosRead(32, 24, 8);
    SpliceReads(Zeros(32), 0, s.id);
    ReadPut(Splice(Zeros(32), 0, s.id), 16, 4, s.count);
    PutAfter(Splice(Zeros(32), 0, s.id), 16, 4, s.count, 16);
  }

  lemma SegmentReads(j: Job, i: nat)
    requires i < |j.c.segments|
    ensures HEADER + i * 32 + 32 <= |j.Image()|
    ensures SegmentAt(j.Image(), i) == j.c.segments[i]
    ensures SegmentValid(j.Image(), i) <==> j.SegmentOk(j.c.segments[i])
  {
    hide Uint, Job.Header, Job.ColumnRows, Job.Extras, Job.Payloads, Parts.Bytes, Job.SegmentRow;
    j.Sections().SegmentRowAt(i);
    var p, bytes := HEADER + i * 32, j.Image();
    SegmentRowReads(j, j.c.segments[i]);
    assert bytes[p..p + 32][..16] == bytes[p..p + 16];
    UintOfSlice(bytes, p, p + 32, 16, 4);
    UintOfSlice(bytes, p, p + 32, 20, 4);
    UintOfSlice(bytes, p, p + 32, 24, 8);
  }

  predicate SegmentsOk(j: Job) {
    (forall k :: 0 <= k < |j.c.segments| ==> j.SegmentOk(j.c.segments[k])) && DistinctIds(j.c.segments)
  }

  lemma SegmentsRead(j: Job)
    requires ShapeFor(j).TableEnd() <= |j.Image()|
    ensures SegmentsAt(j.Image(), |j.c.segments|) == j.c.segments
    ensures SegmentsValid(j.Image(), ShapeFor(j)) <==> SegmentsOk(j)
  {
    hide SegmentAt, SegmentValid, Job.SegmentOk, DistinctIds, Job.Image;
    forall i | 0 <= i < |j.c.segments|
      ensures SegmentAt(j.Image(), i) == j.c.segments[i]
      ensures SegmentValid(j.Image(), i) <==> j.SegmentOk(j.c.segments[i])
    {
      SegmentReads(j, i);
    }
    assert SegmentsAt(j.Image(), |j.c.segments|) == j.c.segments;
  }
}
