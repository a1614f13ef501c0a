/** Writing a chunk: one growing buffer whose directory is patched in place. */
module ChunkWriter {
  import opened Bytes
  import opened Results
  import opened Codec
  import opened Chunk
  import opened ChunkReader
  import opened ChunkLayout
  import opened ChunkImage
  import opened ChunkLaws
  import opened ChunkTheorems

  // ---- patches, with the section they fall into ----

  method WriteHeader(bytes: seq<u8>, ghost parts: Parts, at: nat, s: seq<u8>)
    returns (r: seq<u8>, ghost after: Parts)
    requires parts.Valid() && bytes == parts.Bytes() && at + |s| <= HEADER
    ensures after == parts.(header := Splice(parts.header, at, s))
    ensures after.Valid() && r == after.Bytes()
  {
    hide Parts.Bytes, Splice;
    parts.PatchHeader(at, s);
    r := Splice(bytes, at, s);
    after := parts.(header := Splice(parts.header, at, s));
  }

  method WriteSegment(bytes: seq<u8>, ghost parts: Parts, k: nat, at: nat, s: seq<u8>)
    returns (r: seq<u8>, ghost after: Parts)
    requires parts.Valid() && bytes == parts.Bytes() && k < |parts.segments| && at + |s| <= 32
    ensures after == parts.(segments := parts.segments[k := Splice(parts.segments[k], at, s)])
    ensures after.Valid() && r == after.Bytes()
  {
    hide Parts.Bytes, Splice;
    parts.PatchSegment(k, at, s);
    r := Splice(bytes, HEADER + k * 32 + at, s);
    after := parts.(segments := parts.segments[k := Splice(parts.segments[k], at, s)]);
  }

  ghost function WithRow(parts: Parts, k: nat, row: seq<u8>): (r: Parts)
    requires k < |parts.columns|
  {
    parts.(columns := parts.columns[k := row])
  }

  /** A write to entry k, which so far holds `row` in `base`. */
  method WriteColumn(bytes: seq<u8>, ghost base: Parts, p: nat, ghost k: nat, ghost row: seq<u8>,
                     at: nat, size: nat, v: nat)
    returns (out: seq<u8>, ghost after: seq<u8>)
    requires base.Valid() && k < |base.columns| && |row| == 64 && p == base.ColumnEntry(k) && at + size <= 64
    requires bytes == WithRow(base, k, row).Bytes()
    ensures after == Put(row, at, size, v) && out == WithRow(base, k, after).Bytes()
  {
    hide Parts.Bytes, Splice;
    WithRow(base, k, row).PatchColumn(k, at, LittleEndian(size, v));
    out := Put(bytes, p + at, size, v);
    after := Put(row, at, size, v);
    assert WithRow(WithRow(base, k, row), k, after) == WithRow(base, k, after);
  }

  // ---- one column ----

  /** The parts once a column's entry, parameters and bitmap are written. */
  ghost function ColumnLaid(j: Job, parts: Parts, i: nat): (r: Parts)
    requires i < |j.c.columns| == |parts.columns|
  {
    parts.(columns := parts.columns[i := j.OpenRow(j.c.columns[i], j.PlaceOf(i))], extras := j.Extras(i + 1))
  }

  ghost predicate BeforeColumn(j: Job, parts: Parts, i: nat) {
    && i < |j.c.columns| == |parts.columns| && |j.c.segments| == |parts.segments|
    && parts.Valid() && parts.columns[i] == Zeros(64)
    && parts.extras == j.Extras(i) && parts.payloads == []
  }

  /** Checks a column, writes its entry and appends its parameters and bitmap; the payload
      is kept for later. */
  method LayColumn(j: Job, bytes: seq<u8>, ghost parts: Parts, i: nat, p: nat)
    returns (payload: Result<seq<u8>>, out: seq<u8>, ghost after: Parts)
    requires BeforeColumn(j, parts, i) && bytes == parts.Bytes() && p == parts.ColumnEntry(i)
    ensures payload.Ok? <==> j.ColumnOk(j.c.columns[i])
    ensures payload.Ok? ==>
              payload.value == j.Payload(j.c.columns[i]) && after == ColumnLaid(j, parts, i)
              && after.Valid() && out == after.Bytes()
  {
    hide Parts.Bytes, Put, ValuesValid, OnesIn, TailClear, Compress, CountOf;
    var column, n := j.c.columns[i], CountOf(j.c.segments);
    out, after := bytes, parts;
    var state, valid := 0, n;
    if column.validity.Some? {
      var bitmap := column.validity.value;
      if |bitmap| != BitmapLength(n) || !TailClear(bitmap, n) {
        return Err(InvalidData), out, after;
      }
      valid := OnesIn(bitmap);
      if valid >= n {
        return Err(InvalidData), out, after;
      }
      state := if valid == 0 then 2 else 1;
    }
    assert state == j.State(column) && valid == j.ValidCount(column) && j.ValidityOk(column);
    if |column.values| != valid * column.dtype.Width() {
      return Err(InvalidData), out, after;
    }
    var selected := if valid == 0 then Raw else j.encoding;
    if !ValuesValid(column) {
      return Err(InvalidData), out, after;
    }
    payload := Compress(j.env.pco, column.dtype, column.values, selected);
    if payload.Err? {
      return payload, out, after;
    }
    out, after := FillEntry(j, bytes, parts, i, p, state, selected);
  }

  method FillEntry(j: Job, bytes: seq<u8>, ghost parts: Parts, i: nat, p: nat, state: nat, selected: Encoding)
    returns (out: seq<u8>, ghost after: Parts)
    requires BeforeColumn(j, parts, i) && bytes == parts.Bytes() && p == parts.ColumnEntry(i)
    requires state == j.State(j.c.columns[i]) && selected == j.Selected(j.c.columns[i])
    ensures after == ColumnLaid(j, parts, i) && after.Valid() && out == after.Bytes()
  {
    hide Parts.Bytes, Put, Job.Selected, Job.State, CountOf, Encoding.Params, Job.Extras, Job.HeadRow;
    var column := j.c.columns[i];
    ghost var row;
    out, row := FillHead(j, bytes, parts, i, p, state, selected);
    ghost var base := parts;
    FillLength(parts, i, row);
    var offset := |out|;
    WithRow(base, i, row).AppendExtras(selected.Params());
    out, base := out + selected.Params(), base.(extras := base.extras + selected.Params());
    out, row := WriteColumn(out, base, p, i, row, 32, 4, offset);
    out, row := WriteColumn(out, base, p, i, row, 36, 4, |selected.Params()|);
    if state == 1 {
      FillLength(base, i, row);
      offset := |out|;
      var bitmap := BitmapOf(j, column);
      WithRow(base, i, row).AppendExtras(bitmap);
      out, base := out + bitmap, base.(extras := base.extras + bitmap);
      out, row := WriteColumn(out, base, p, i, row, 40, 4, offset);
      out, row := WriteColumn(out, base, p, i, row, 44, 4, |bitmap|);
    }
    after := WithRow(base, i, row);
    ExtrasStep(j, i);
    assert base.extras == j.Extras(i + 1);
  }

  method FillHead(j: Job, bytes: seq<u8>, ghost parts: Parts, i: nat, p: nat, state: nat, selected: Encoding)
    returns (out: seq<u8>, ghost row: seq<u8>)
    requires BeforeColumn(j, parts, i) && bytes == parts.Bytes() && p == parts.ColumnEntry(i)
    requires state == j.State(j.c.columns[i]) && selected == j.Selected(j.c.columns[i])
    ensures row == j.HeadRow(j.c.columns[i]) && out == WithRow(parts, i, row).Bytes()
  {
    hide Parts.Bytes, Put, Job.Selected, Job.State, CountOf, DType.Code, Encoding.Id, Job.Extras;
    var column, n := j.c.columns[i], CountOf(j.c.segments);
    assert WithRow(parts, i, Zeros(64)) == parts;
    out, row := WriteColumn(bytes, parts, p, i, Zeros(64), 0, 2, column.semantic);
    out, row := WriteColumn(out, parts, p, i, row, 2, 1, column.dtype.Code());
    out, row := WriteColumn(out, parts, p, i, row, 3, 1, column.dtype.Code());
    out, row := WriteColumn(out, parts, p, i, row, 4, 2, selected.Id());
    out, row := WriteColumn(out, parts, p, i, row, 6, 2, 1);
    out, row := WriteColumn(out, parts, p, i, row, 10, 2, state + if column.required then 16 else 0);
    out, row := WriteColumn(out, parts, p, i, row, 12, 4, n);
    out, row := WriteColumn(out, parts, p, i, row, 28, 4, |column.values|);
  }

  lemma FillLength(parts: Parts, i: nat, row: seq<u8>)
    requires parts.Valid() && i < |parts.columns| && |row| == 64
    ensures |WithRow(parts, i, row).Bytes()| == parts.Start() + |parts.payloads|
  {
    WithRow(parts, i, row).Length();
  }

  /** The bitmap of a column that has one. */
  function BitmapOf(j: Job, column: Column): (bitmap: seq<u8>)
    requires j.State(column) == 1
    ensures bitmap == j.Bitmap(column)
  {
    column.validity.value
  }

  // ---- the phases of writing ----

  /** The buffer after the header and the segment table are filled in. */
  ghost function TablesOpen(j: Job): (p: Parts)
    ensures p.Valid()
  {
    Parts(j.OpenHeader(), j.SegmentRows(), Blank(|j.c.columns|, 64), [], [])
  }

  method LayTables(j: Job) returns (bytes: seq<u8>)
    ensures bytes == TablesOpen(j).Bytes()
  {
    hide Parts.Bytes, Splice, CountOf, Job.SegmentRow;
    var c := j.c;
    bytes := Zeros(HEADER + |c.segments| * 32 + |c.columns| * 64);
    ghost var parts := Parts(Zeros(HEADER), Blank(|c.segments|, 32), Blank(|c.columns|, 64), [], []);
    BlankBytes(|c.segments|, |c.columns|);
    bytes, parts := WriteHeader(bytes, parts, 0, MAGIC);
    bytes, parts := WriteHeader(bytes, parts, 8, LittleEndian(2, 1));
    bytes, parts := WriteHeader(bytes, parts, 16, c.id);
    bytes, parts := WriteHeader(bytes, parts, 32, c.profile);
    bytes, parts := WriteHeader(bytes, parts, 48, LittleEndian(4, CountOf(c.segments)));
    bytes, parts := WriteHeader(bytes, parts, 52, LittleEndian(4, |c.segments|));
    bytes, parts := WriteHeader(bytes, parts, 56, LittleEndian(2, |c.columns|));
    assert parts.header == j.OpenHeader();
    for i := 0 to |c.segments|
      invariant parts.Valid() && bytes == parts.Bytes()
      invariant parts == Parts(j.OpenHeader(), parts.segments, Blank(|c.columns|, 64), [], [])
      invariant |parts.segments| == |c.segments|
      invariant forall k :: 0 <= k < i ==> parts.segments[k] == j.SegmentRow(c.segments[k])
      invariant forall k :: i <= k < |c.segments| ==> parts.segments[k] == Zeros(32)
    {
      bytes, parts := LaySegment(j, bytes, parts, i);
    }
    assert parts.segments == j.SegmentRows();
  }

  method LaySegment(j: Job, bytes: seq<u8>, ghost parts: Parts, i: nat)
    returns (out: seq<u8>, ghost after: Parts)
    requires parts.Valid() && bytes == parts.Bytes() && i < |j.c.segments| == |parts.segments|
    requires parts.segments[i] == Zeros(32)
    ensures after == parts.(segments := parts.segments[i := j.SegmentRow(j.c.segments[i])])
    ensures after.Valid() && out == after.Bytes()
  {
    hide Parts.Bytes, Splice;
    out, after := WriteSegment(bytes, parts, i, 0, j.c.segments[i].id);
    out, after := WriteSegment(out, after, i, 16, LittleEndian(4, j.c.segments[i].count));
  }

  lemma BlankBytes(n: nat, m: nat)
    ensures Zeros(HEADER + n * 32 + m * 64)
            == Parts(Zeros(HEADER), Blank(n, 32), Blank(m, 64), [], []).Bytes()
  {
    BlankFlat(n, 32);
    BlankFlat(m, 64);
  }

  /** The buffer when every entry is filled in but no payload is placed. */
  ghost predicate ColumnsLaid(j: Job, p: Parts, i: nat)
    requires i <= |j.c.columns|
  {
    && p.Valid() && p.header == j.OpenHeader() && p.segments == j.SegmentRows()
    && |p.columns| == |j.c.columns|
    && (forall k :: 0 <= k < i ==> p.columns[k] == j.OpenRow(j.c.columns[k], j.PlaceOf(k)))
    && (forall k :: i <= k < |j.c.columns| ==> p.columns[k] == Zeros(64))
    && p.extras == j.Extras(i) && p.payloads == []
  }

  ghost predicate FirstOk(j: Job, i: nat)
    requires i <= |j.c.columns|
  {
    forall k :: 0 <= k < i ==> j.ColumnOk(j.c.columns[k])
  }

  method LayColumns(j: Job, tables: seq<u8>)
    returns (r: Result<seq<seq<u8>>>, bytes: seq<u8>, ghost parts: Parts)
    requires tables == TablesOpen(j).Bytes()
    ensures r.Ok? <==> FirstOk(j, |j.c.columns|)
    ensures r.Ok? ==> ColumnsLaid(j, parts, |j.c.columns|) && bytes == parts.Bytes()
    ensures r.Ok? ==> |r.value| == |j.c.columns| && forall k :: 0 <= k < |r.value| ==> r.value[k] == j.Payload(j.c.columns[k])
  {
    hide Parts.Bytes, Job.OpenRow, Job.PlaceOf, Job.Payload, Job.ColumnOk, Job.SegmentRows, Job.OpenHeader, Job.Extra, Job.Extras;
    bytes, parts := tables, TablesOpen(j);
    NoExtras(j);
    var payloads: seq<seq<u8>> := [];
    for i := 0 to |j.c.columns|
      invariant ColumnsLaid(j, parts, i) && bytes == parts.Bytes() && FirstOk(j, i)
      invariant |payloads| == i && forall k :: 0 <= k < i ==> payloads[k] == j.Payload(j.c.columns[k])
    {
      var p := HEADER + |j.c.segments| * 32 + i * 64;
      var payload: Result<seq<u8>>;
      payload, bytes, parts := LayColumn(j, bytes, parts, i, p);
      if payload.Err? {
        return Err(payload.error), bytes, parts;
      }
      payloads := payloads + [payload.value];
    }
    r := Ok(payloads);
  }

  lemma NoExtras(j: Job)
    ensures j.Extras(0) == []
  {
  }

  /** The buffer when the first i payloads are placed. */
  ghost predicate PayloadsLaid(j: Job, p: Parts, i: nat)
    requires i <= |j.c.columns|
  {
    && p.Valid() && p.header == j.OpenHeader() && p.segments == j.SegmentRows()
    && |p.columns| == |j.c.columns|
    && (forall k :: 0 <= k < i ==> p.columns[k] == j.Row(j.c.columns[k], j.PlaceOf(k)))
    && (forall k :: i <= k < |j.c.columns| ==> p.columns[k] == j.OpenRow(j.c.columns[k], j.PlaceOf(k)))
    && p.extras == j.Extras(|j.c.columns|) && p.payloads == j.Payloads(i)
  }

  method LayPayloads(j: Job, laid: seq<u8>, ghost base: Parts, payloads: seq<seq<u8>>)
    returns (bytes: seq<u8>, ghost parts: Parts)
    requires ColumnsLaid(j, base, |j.c.columns|) && laid == base.Bytes()
    requires |payloads| == |j.c.columns| && forall k :: 0 <= k < |payloads| ==> payloads[k] == j.Payload(j.c.columns[k])
    ensures PayloadsLaid(j, parts, |j.c.columns|) && bytes == parts.Bytes()
  {
    hide Parts.Bytes, Job.OpenRow, Job.Row, Job.PlaceOf, Job.Payload, Job.SegmentRows, Job.OpenHeader, Job.Extra, Job.Extras, Job.Payloads;
    bytes, parts := laid, base;
    NoPayloads(j);
    for i := 0 to |payloads|
      invariant PayloadsLaid(j, parts, i) && bytes == parts.Bytes()
    {
      var p := HEADER + |j.c.segments| * 32 + i * 64;
      bytes, parts := LayPayload(j, bytes, parts, i, p, payloads[i]);
    }
  }

  lemma NoPayloads(j: Job)
    ensures j.Payloads(0) == []
  {
  }

  /** Points a column's entry at its payload and appends the payload. */
  method LayPayload(j: Job, bytes: seq<u8>, ghost parts: Parts, i: nat, p: nat, payload: seq<u8>)
    returns (out: seq<u8>, ghost after: Parts)
    requires i < |j.c.columns| && PayloadsLaid(j, parts, i) && bytes == parts.Bytes()
    requires p == parts.ColumnEntry(i) && payload == j.Payload(j.c.columns[i])
    ensures after == parts.(columns := parts.columns[i := j.Row(j.c.columns[i], j.PlaceOf(i))],
                            payloads := j.Payloads(i + 1))
    ensures after.Valid() && out == after.Bytes()
  {
    hide Parts.Bytes, Put, Job.OpenRow, Job.Payload, Job.SegmentRows, Job.OpenHeader, Job.Extras, Job.Payloads;
    PayloadsStep(j, i);
    out, after := bytes, parts;
    ghost var row := parts.columns[i];
    assert WithRow(parts, i, row) == parts;
    if payload != [] {
      parts.Length();
      var offset := |bytes|;
      out, row := WriteColumn(out, parts, p, i, row, 16, 8, offset);
      out, row := WriteColumn(out, parts, p, i, row, 24, 4, |payload|);
      out, row := WriteColumn(out, parts, p, i, row, 48, 4, j.env.crc(payload));
      out, row := WriteColumn(out, parts, p, i, row, 52, 4, |payload|);
      WithRow(parts, i, row).AppendPayload(payload);
      out, after := out + payload, WithRow(parts, i, row).(payloads := parts.payloads + payload);
    }
  }

  /** The header's sizes and the two checksums. */
  method Seal(j: Job, laid: seq<u8>, ghost base: Parts, start: nat) returns (bytes: seq<u8>)
    requires PayloadsLaid(j, base, |j.c.columns|) && laid == base.Bytes() && start == j.Start()
    ensures bytes == j.Image()
  {
    hide Parts.Bytes, Splice, Job.OpenHeader, Job.Extras, Job.Payloads, Job.SegmentRows, Job.ColumnRows, Job.Row, Flatten;
    base.Length();
    assert base.columns == j.ColumnRows() by {
      RowsAre(j, base);
    }
    ghost var parts := base;
    bytes, parts := WriteHeader(laid, parts, 60, LittleEndian(4, start - HEADER));
    bytes, parts := WriteHeader(bytes, parts, 64, LittleEndian(8, |laid| - start));
    parts.Length();
    SealedParts(j, parts);
    var header := j.env.crc(bytes[..72]);
    var directory := j.env.crc(bytes[HEADER..start]);
    bytes, parts := WriteHeader(bytes, parts, 72, LittleEndian(4, header));
    bytes, parts := WriteHeader(bytes, parts, 76, LittleEndian(4, directory));
  }

  lemma RowsAre(j: Job, p: Parts)
    requires PayloadsLaid(j, p, |j.c.columns|)
    ensures p.columns == j.ColumnRows()
  {
    hide Job.Row, Job.Extras, Job.Payloads, Job.SegmentRows, Job.OpenHeader;
  }

  /** What the checksums are taken over. */
  lemma SealedParts(j: Job, p: Parts)
    requires p.Valid() && p.segments == j.SegmentRows() && p.columns == j.ColumnRows()
    requires p.extras == j.Extras(|j.c.columns|)
    ensures HEADER <= j.Start() <= |p.Bytes()|
    ensures p.Bytes()[..72] == p.header[..72]
    ensures p.Bytes()[HEADER..j.Start()] == j.Directory()
  {
    hide Job.Extras, Job.SegmentRows, Job.ColumnRows, Flatten;
    p.Length();
    p.HeaderAt();
    assert p.Bytes() == p.header + j.Directory() + p.payloads;
  }

  // ---- writing a chunk ----

  method DecodedTotal(columns: seq<Column>) returns (n: nat)
    ensures n == ValueBytes(columns)
  {
    n := 0;
    for i := 0 to |columns|
      invariant n == ValueBytes(columns[..i])
    {
      assert columns[..i + 1][..i] == columns[..i];
      n := n + |columns[i].values|;
    }
    assert columns[..|columns|] == columns;
  }

  /** Writes a chunk. It succeeds exactly when the chunk is encodable; the bytes are the
      image, and reading them gives the chunk back. */
  method Encode(env: Env, c: Chunk, encoding: Encoding) returns (r: Result<seq<u8>>)
    requires env.Sound()
    ensures r.Ok? <==> Job(env, c, encoding).Encodable()
    ensures r.Ok? ==> r.value == Job(env, c, encoding).Image()
    ensures r.Ok? ==> Accepts(env, r.value, true) && ChunkOf(env, r.value, true) == c
  {
    hide Job.Image, Parts.Bytes, Job.Presentable, Job.ColumnOk, Accepts, ChunkOf, Job.Extras, Job.Payloads, Job.Payload;
    var j := Job(env, c, encoding);
    var decoded := DecodedTotal(c.columns);
    if decoded > MAX_CHUNK {
      return Err(ResourceLimit);
    }
    var n := CountOf(c.segments);
    if !(0 < n <= MAX_POINTS) || !(0 < |c.segments| <= 65536) || !(0 < |c.columns| <= 64) {
      return Err(InvalidData);
    }
    var bytes := LayTables(j);
    ghost var parts;
    var payloads;
    payloads, bytes, parts := LayColumns(j, bytes);
    if payloads.Err? {
      return Err(payloads.error);
    }
    parts.Length();
    var start := |bytes|;
    bytes, parts := LayPayloads(j, bytes, parts, payloads.value);
    bytes := Seal(j, bytes, parts, start);
    ImageAccepted(j);
    var decode := Decode(env, bytes);
    r := if decode.Ok? then Ok(bytes) else Err(decode.error);
  }
}
