/** The bytes a chunk is written as, section by section. */
module ChunkImage {
  import opened Bytes
  import opened Results
  import opened Codec
  import opened Chunk
  import opened ChunkLayout

  function ValueBytes(columns: seq<Column>): (n: nat) {
    if columns == [] then 0 else ValueBytes(columns[..|columns| - 1]) + |columns[|columns| - 1].values|
  }

  /** Where a column's parameters, bitmap and payload go. */
  datatype Place = Place(params: nat, bitmap: nat, payload: nat)

  /** One chunk to write with one encoding. */
  datatype Job = Job(env: Env, c: Chunk, encoding: Encoding) {
    function Points(): (n: nat) {
      CountOf(c.segments)
    }

    // ---- one column ----

    function State(col: Column): (n: nat)
      ensures n <= 2
    {
      if col.validity.None? then 0 else if OnesIn(col.validity.value) == 0 then 2 else 1
    }

    function ValidCount(col: Column): (n: nat) {
      if col.validity.None? then Points() else OnesIn(col.validity.value)
    }

    /** Columns without values are stored raw. */
    function Selected(col: Column): (e: Encoding) {
      if ValidCount(col) == 0 then Raw else encoding
    }

    /** Only a mixed bitmap is stored. */
    function Bitmap(col: Column): (bitmap: seq<u8>) {
      if State(col) == 1 then col.validity.value else []
    }

    function Payload(col: Column): (payload: seq<u8>) {
      var r := Compress(env.pco, col.dtype, col.values, Selected(col));
      if r.Ok? then r.value else []
    }

    function Flags(col: Column): (n: nat) {
      State(col) + if col.required then 16 else 0
    }

    function Extra(col: Column): (s: seq<u8>) {
      Selected(col).Params() + Bitmap(col)
    }

    predicate ValidityOk(col: Column) {
      col.validity.Some? ==>
        && |col.validity.value| == BitmapLength(Points())
        && TailClear(col.validity.value, Points())
        && OnesIn(col.validity.value) < Points()
    }

    /** The checks the writer makes on a column. */
    predicate ColumnOk(col: Column) {
      && ValidityOk(col)
      && |col.values| == ValidCount(col) * col.dtype.Width()
      && ValuesValid(col)
      && Compress(env.pco, col.dtype, col.values, Selected(col)).Ok?
    }

    // ---- all columns ----

    function Extras(k: nat): (s: seq<u8>)
      requires k <= |c.columns|
    {
      if k == 0 then [] else Extras(k - 1) + Extra(c.columns[k - 1])
    }

    function Payloads(k: nat): (s: seq<u8>)
      requires k <= |c.columns|
    {
      if k == 0 then [] else Payloads(k - 1) + Payload(c.columns[k - 1])
    }

    function TableEnd(): (p: nat) {
      HEADER + |c.segments| * 32 + |c.columns| * 64
    }

    function Start(): (p: nat) {
      TableEnd() + |Extras(|c.columns|)|
    }

    function Size(): (n: nat) {
      Start() + |Payloads(|c.columns|)|
    }

    function PlaceOf(k: nat): (p: Place)
      requires k < |c.columns|
    {
      var params := TableEnd() + |Extras(k)|;
      Place(params, params + |Selected(c.columns[k]).Params()|, Start() + |Payloads(k)|)
    }

    // ---- rows and header ----

    function SegmentRow(s: Segment): (row: seq<u8>)
      ensures |row| == 32
    {
      Put(Splice(Zeros(32), 0, s.id), 16, 4, s.count)
    }

    /** A column's entry before its parameters are placed. */
    function HeadRow(col: Column): (row: seq<u8>)
      ensures |row| == 64
    {
      var r := Put(Zeros(64), 0, 2, col.semantic);
      var r := Put(Put(r, 2, 1, col.dtype.Code()), 3, 1, col.dtype.Code());
      var r := Put(Put(r, 4, 2, Selected(col).Id()), 6, 2, 1);
      var r := Put(Put(r, 10, 2, Flags(col)), 12, 4, Points());
      Put(r, 28, 4, |col.values|)
    }

    /** A column's entry before its payload is placed. */
    function OpenRow(col: Column, at: Place): (row: seq<u8>)
      ensures |row| == 64
    {
      var r := HeadRow(col);
      var r := Put(Put(r, 32, 4, at.params), 36, 4, |Selected(col).Params()|);
      if State(col) == 1 then Put(Put(r, 40, 4, at.bitmap), 44, 4, |Bitmap(col)|) else r
    }

    function Row(col: Column, at: Place): (row: seq<u8>)
      ensures |row| == 64
    {
      Placed(OpenRow(col, at), at.payload, Payload(col))
    }

    /** An entry with its payload's place, length and checksum filled in. */
    function Placed(row: seq<u8>, at: nat, payload: seq<u8>): (r: seq<u8>)
      requires |row| == 64
      ensures |r| == 64
    {
      if payload == [] then row
      else
        Put(Put(Put(Put(row, 16, 8, at), 24, 4, |payload|), 48, 4, env.crc(payload)), 52, 4, |payload|)
    }

    function OpenHeader(): (h: seq<u8>)
      ensures |h| == HEADER
    {
      var h := Put(Splice(Zeros(HEADER), 0, MAGIC), 8, 2, 1);
      var h := Splice(Splice(h, 16, c.id), 32, c.profile);
      Put(Put(Put(h, 48, 4, Points()), 52, 4, |c.segments|), 56, 2, |c.columns|)
    }

    function SizedHeader(start: nat, length: nat): (h: seq<u8>)
      requires start >= HEADER
      ensures |h| == HEADER
    {
      Put(Put(OpenHeader(), 60, 4, start - HEADER), 64, 8, length)
    }

    function Header(): (h: seq<u8>)
      ensures |h| == HEADER
    {
      var h := SizedHeader(Start(), Size() - Start());
      Put(Put(h, 72, 4, env.crc(h[..72])), 76, 4, env.crc(Directory()))
    }

    function SegmentRows(): (rows: seq<seq<u8>>)
      ensures |rows| == |c.segments| && Wide(rows, 32)
      ensures forall k :: 0 <= k < |rows| ==> rows[k] == SegmentRow(c.segments[k])
    {
      seq(|c.segments|, k requires 0 <= k < |c.segments| => SegmentRow(c.segments[k]))
    }

    function ColumnRows(): (rows: seq<seq<u8>>)
      ensures |rows| == |c.columns| && Wide(rows, 64)
      ensures forall k :: 0 <= k < |rows| ==> rows[k] == Row(c.columns[k], PlaceOf(k))
    {
      seq(|c.columns|, k requires 0 <= k < |c.columns| => Row(c.columns[k], PlaceOf(k)))
    }

    /** The tables and what follows them up to the payloads. */
    function Directory(): (s: seq<u8>) {
      Flatten(SegmentRows()) + Flatten(ColumnRows()) + Extras(|c.columns|)
    }

    function Sections(): (p: Parts)
      ensures p.Valid()
    {
      Parts(Header(), SegmentRows(), ColumnRows(), Extras(|c.columns|), Payloads(|c.columns|))
    }

    /** The whole chunk. */
    function Image(): (bytes: seq<u8>) {
      Sections().Bytes()
    }

    // ---- what the writer demands ----

    /** The checks the writer makes before the final read. */
    predicate Layable() {
      && ValueBytes(c.columns) <= MAX_CHUNK
      && 0 < Points() <= MAX_POINTS && 0 < |c.segments| <= 65536 && 0 < |c.columns| <= 64
      && forall k :: 0 <= k < |c.columns| ==> ColumnOk(c.columns[k])
    }

    predicate AxisOk(col: Column) {
      && (col.semantic in [1, 2, 4, 12] ==> col.required && col.validity.None?)
      && (col.semantic == 12 ==> col.dtype.U8?)
    }

    predicate SegmentOk(s: Segment) {
      s.id != ZERO && s.count > 0
    }

    predicate HasColumn(semantic: u16) {
      exists k :: 0 <= k < |c.columns| && c.columns[k].semantic == semantic
    }

    predicate SemanticsAscend() {
      && (|c.columns| > 0 ==> 0 < c.columns[0].semantic)
      && forall k :: 0 < k < |c.columns| ==> c.columns[k - 1].semantic < c.columns[k].semantic
    }

    /** What only the final read checks: identifiers, segments, the columns' order, the
        required columns, and the size. */
    predicate Presentable() {
      && c.id != ZERO && c.profile != ZERO
      && (forall k :: 0 <= k < |c.segments| ==> SegmentOk(c.segments[k]))
      && DistinctIds(c.segments)
      && (forall k :: 0 <= k < |c.columns| ==> AxisOk(c.columns[k]))
      && SemanticsAscend()
      && HasColumn(1) && HasColumn(2) && HasColumn(12)
      && Size() <= MAX_CHUNK
    }

    /** Exactly when a chunk can be written. */
    predicate Encodable() {
      Layable() && Presentable()
    }
  }
}
