/** The binary column container: its fields, and what a reader accepts. */
module Chunk {
  import opened Bytes
  import opened Results
  import opened Floats
  import opened Codec
  import opened Tiling

  const MAX_CHUNK: nat := 64 * 1024 * 1024
  const DIRECTORY_LIMIT: nat := 16 * 1024 * 1024
  const MAX_POINTS: nat := 1_000_000
  const HEADER: nat := 80
  const MAGIC: seq<u8> := [0x49, 0x4E, 0x4B, 0x43, 0x48, 0x4E, 0x4B, 0]

  /** The checksum and the compression library. */
  datatype Env = Env(crc: seq<u8> -> u32, pco: Pco) {
    ghost predicate Sound() {
      crc([]) == 0 && pco.Progresses() && pco.Inverts()
    }
  }

  datatype Segment = Segment(id: Id, count: u32)

  datatype Column = Column(
    semantic: u16,
    dtype: DType,
    required: bool,
    validity: Option<seq<u8>>,
    values: seq<u8>)

  datatype Chunk = Chunk(id: Id, profile: Id, segments: seq<Segment>, columns: seq<Column>)

  // ---- reading integers and identifiers ----

  /** The little-endian integer of `size` bytes at `at`; zero past the end. */
  function Uint(bytes: seq<u8>, at: nat, size: nat): (n: u64)
    requires size <= 8
  {
    if at + size > |bytes| then 0
    else
      RadixValues();
      FromLittleEndianBound(bytes[at..at + size]);
      SmallRadix(size);
      FromLittleEndian(bytes[at..at + size])
  }

  lemma SmallRadix(size: nat)
    requires size <= 8
    ensures Radix(size) <= Radix(8) == 0x1_0000_0000_0000_0000
  {
    RadixValues();
    assert Radix(3) == 0x100_0000 && Radix(5) == 0x100_0000_0000;
    assert Radix(6) == 0x1_0000_0000_0000 && Radix(7) == 0x100_0000_0000_0000;
    assert Radix(0) == 1;
  }

  function Word32(bytes: seq<u8>, at: nat): (n: u32) {
    if at + 4 > |bytes| then 0
    else
      RadixValues();
      FromLittleEndianBound(bytes[at..at + 4]);
      Uint(bytes, at, 4)
  }

  function Word16(bytes: seq<u8>, at: nat): (n: u16) {
    if at + 2 > |bytes| then 0
    else
      RadixValues();
      FromLittleEndianBound(bytes[at..at + 2]);
      Uint(bytes, at, 2)
  }

  // ---- bitmaps ----

  function CountOnes(b: nat): (n: nat)
    ensures b > 0 ==> n > 0
  {
    if b == 0 then 0 else b % 2 + CountOnes(b / 2)
  }

  function OnesIn(bitmap: seq<u8>): (n: nat) {
    if bitmap == [] then 0 else CountOnes(bitmap[0]) + OnesIn(bitmap[1..])
  }

  function BitmapLength(n: nat): (length: nat) {
    (n + 7) / 8
  }

  /** No bit is set beyond row n. */
  predicate TailClear(bitmap: seq<u8>, n: nat)
    requires |bitmap| == BitmapLength(n)
  {
    n % 8 == 0 || Shr(bitmap[n / 8], n % 8) == 0
  }

  // ---- values ----

  predicate FiniteF32(bytes: seq<u8>)
    requires |bytes| == 4
  {
    FromLittleEndian(bytes) / 0x80_0000 % 256 != 255
  }

  predicate FiniteF64(bytes: seq<u8>)
    requires |bytes| == 8
  {
    RadixValues();
    FromLittleEndianBound(bytes);
    Finite(FromLittleEndian(bytes))
  }

  /** The value checks of a column: sample kinds are 0 to 2 in U8, floats are finite. */
  predicate ValuesValid(c: Column) {
    && (c.semantic == 12 ==> c.dtype.U8? && forall i :: 0 <= i < |c.values| ==> c.values[i] <= 2)
    && (c.dtype.F32? ==> forall i :: 0 <= i < |c.values| / 4 ==> FiniteF32(c.values[4 * i..4 * i + 4]))
    && (c.dtype.F64? ==> forall i :: 0 <= i < |c.values| / 8 ==> FiniteF64(c.values[8 * i..8 * i + 8]))
  }

  // ---- the header ----

  /** The counts and offsets a header states. */
  datatype Shape = Shape(points: nat, segments: nat, columns: nat, start: nat, payload: nat) {
    function ColumnEntry(i: nat): (p: nat) {
      HEADER + segments * 32 + i * 64
    }

    function TableEnd(): (p: nat) {
      HEADER + segments * 32 + columns * 64
    }
  }

  function ShapeOf(bytes: seq<u8>): (s: Shape) {
    Shape(Word32(bytes, 48), Word32(bytes, 52), Word16(bytes, 56), HEADER + Word32(bytes, 60), Uint(bytes, 64, 8))
  }

  predicate HeaderValid(env: Env, bytes: seq<u8>) {
    && HEADER <= |bytes| <= MAX_CHUNK
    && bytes[..8] == MAGIC
    && Uint(bytes, 8, 2) == 1 && Uint(bytes, 10, 2) == 0
    && Uint(bytes, 12, 4) == 0 && Uint(bytes, 58, 2) == 0
    && Uint(bytes, 72, 4) == env.crc(bytes[..72])
    && var s := ShapeOf(bytes);
       && 0 < s.points <= MAX_POINTS && 0 < s.segments <= 65536 && 0 < s.columns <= 64
       && s.start <= HEADER + DIRECTORY_LIMIT
       && s.start + s.payload == |bytes|
       && s.TableEnd() <= s.start
       && Uint(bytes, 76, 4) == env.crc(bytes[HEADER..s.start])
  }

  // ---- segments ----

  /** The identifier at a position. */
  function IdAt(bytes: seq<u8>, p: nat): (id: Id)
    requires p + 16 <= |bytes|
  {
    bytes[p..p + 16]
  }

  function SegmentAt(bytes: seq<u8>, i: nat): (r: Segment)
    requires HEADER + i * 32 + 32 <= |bytes|
  {
    var p := HEADER + i * 32;
    Segment(bytes[p..p + 16], Word32(bytes, p + 16))
  }

  predicate SegmentValid(bytes: seq<u8>, i: nat)
    requires HEADER + i * 32 + 32 <= |bytes|
  {
    var p := HEADER + i * 32;
    && SegmentAt(bytes, i).id != ZERO && SegmentAt(bytes, i).count > 0
    && Uint(bytes, p + 20, 4) == 0 && Uint(bytes, p + 24, 8) == 0
  }

  function SegmentsAt(bytes: seq<u8>, n: nat): (r: seq<Segment>)
    requires HEADER + n * 32 <= |bytes|
    ensures |r| == n && forall i :: 0 <= i < n ==> r[i] == SegmentAt(bytes, i)
  {
    seq(n, i requires 0 <= i < n => SegmentAt(bytes, i))
  }

  function CountOf(segments: seq<Segment>): (n: nat) {
    if segments == [] then 0 else CountOf(segments[..|segments| - 1]) + segments[|segments| - 1].count
  }

  predicate DistinctIds(segments: seq<Segment>) {
    forall i, j :: 0 <= i < j < |segments| ==> segments[i].id != segments[j].id
  }

  ghost predicate SegmentsValid(bytes: seq<u8>, s: Shape)
    requires s.TableEnd() <= |bytes|
  {
    && (forall i :: 0 <= i < s.segments ==> SegmentValid(bytes, i))
    && DistinctIds(SegmentsAt(bytes, s.segments))
    && CountOf(SegmentsAt(bytes, s.segments)) == s.points
  }

  // ---- columns ----

  /** The bytes of a range within [low, high); the empty range must have offset zero. */
  function Slice(bytes: seq<u8>, offset: nat, length: nat, low: nat, high: nat): (r: Result<seq<u8>>)
    requires high <= |bytes|
    ensures r.Ok? ==> |r.value| == length
  {
    if length == 0 then if offset == 0 then Ok([]) else Err(InvalidData)
    else if offset + length > USIZE_MAX then Err(InvalidData)
    else if low <= offset && offset + length <= high then Ok(bytes[offset..offset + length])
    else Err(InvalidData)
  }

  function RangeOf(offset: nat, length: nat): (r: seq<Range>) {
    if length == 0 then [] else [Range(offset, offset + length)]
  }

  datatype Validity = Validity(bitmap: Option<seq<u8>>, valid: nat)

  function ReadValidity(state: nat, bitmap: seq<u8>, n: nat): (r: Result<Validity>) {
    if state == 0 then if bitmap == [] then Ok(Validity(None, n)) else Err(InvalidData)
    else if state == 1 then
      if |bitmap| == BitmapLength(n) && TailClear(bitmap, n) && 0 < OnesIn(bitmap) < n
      then Ok(Validity(Some(bitmap), OnesIn(bitmap))) else Err(InvalidData)
    else if bitmap == [] then Ok(Validity(Some(Zeros(BitmapLength(n))), 0))
    else Err(InvalidData)
  }

  function EncodingOf(codec: u64): (r: Result<Encoding>)
    ensures r.Ok? ==> r.value.Id() == codec
  {
    if codec == 0 then Ok(Raw) else if codec == 2 then Ok(Pco8) else Err(Unsupported)
  }

  /** What one column entry yields: the column, its decoded size and its byte ranges. */
  datatype ColumnRead = ColumnRead(column: Column, decoded: nat, ranges: seq<Range>)

  function ReadColumn(env: Env, bytes: seq<u8>, s: Shape, i: nat, decode: bool): (r: Result<ColumnRead>)
    requires i < s.columns && s.TableEnd() <= s.start <= |bytes| && env.pco.Progresses()
  {
    var p := s.ColumnEntry(i);
    var n := s.points;
    var dtype :- DTypeOf(bytes[p + 2]);
    if bytes[p + 3] != dtype.Code() then Err(InvalidData)
    else
      var encoding :- EncodingOf(Uint(bytes, p + 4, 2));
      if Uint(bytes, p + 6, 2) != 1 then Err(Unsupported)
      else if Uint(bytes, p + 8, 2) != 0 then Err(InvalidData)
      else
        var flags := Uint(bytes, p + 10, 2);
        if flags / 32 != 0 || flags / 4 % 4 != 0 || flags % 4 == 3 then Err(InvalidData)
        else if Uint(bytes, p + 12, 4) != n || Uint(bytes, p + 56, 8) != 0 then Err(InvalidData)
        else
          var params :- Slice(bytes, Uint(bytes, p + 32, 4), Uint(bytes, p + 36, 4), s.TableEnd(), s.start);
          if params != encoding.Params() then Err(InvalidData)
          else
            var bitmap :- Slice(bytes, Uint(bytes, p + 40, 4), Uint(bytes, p + 44, 4), s.TableEnd(), s.start);
            var validity :- ReadValidity(flags % 4, bitmap, n);
            ReadValues(env, bytes, s, i, decode, dtype, encoding, flags, validity)
  }

  function ReadValues(env: Env, bytes: seq<u8>, s: Shape, i: nat, decode: bool,
                      dtype: DType, encoding: Encoding, flags: nat, validity: Validity): (r: Result<ColumnRead>)
    requires i < s.columns && s.TableEnd() <= s.start <= |bytes| && env.pco.Progresses()
  {
    var p := s.ColumnEntry(i);
    var semantic := Word16(bytes, p);
    var expected := validity.valid * dtype.Width();
    var length := Uint(bytes, p + 24, 4);
    if semantic in [1, 2, 4, 12] && flags != 16 then Err(InvalidData)
    else if Uint(bytes, p + 28, 4) != expected || Uint(bytes, p + 52, 4) != length then Err(InvalidData)
    else if validity.valid == 0 && !(encoding.Raw? && length == 0) then Err(InvalidData)
    else
      var payload :- Slice(bytes, Uint(bytes, p + 16, 8), length, s.start, |bytes|);
      if Uint(bytes, p + 48, 4) != env.crc(payload) then Err(InvalidData)
      else if encoding.Raw? && length != expected then Err(InvalidData)
      else
        var values :- DecodeValues(env, dtype, encoding, payload, validity.valid, decode);
        var column := Column(semantic, dtype, flags / 16 % 2 == 1, validity.bitmap, values);
        if semantic == 12 && !dtype.U8? then Err(InvalidData)
        else if decode && !ValuesValid(column) then Err(InvalidData)
        else
          Ok(ColumnRead(column, expected,
                        RangeOf(Uint(bytes, p + 32, 4), Uint(bytes, p + 36, 4))
                        + RangeOf(Uint(bytes, p + 40, 4), Uint(bytes, p + 44, 4))
                        + RangeOf(Uint(bytes, p + 16, 8), length)))
  }

  function DecodeValues(env: Env, dtype: DType, encoding: Encoding, payload: seq<u8>, valid: nat, decode: bool)
    : (r: Result<seq<u8>>)
    requires env.pco.Progresses()
  {
    if !decode then Ok([])
    else if encoding.Raw? then Ok(payload)
    else Decompress(env.pco, dtype, payload, valid)
  }
}
