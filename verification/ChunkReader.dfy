/** Reading a chunk: the loops over segments, columns and byte ranges, against a
    declarative account of what is accepted. */
module ChunkReader {
  import opened Bytes
  import opened Results
  import opened Codec
  import opened Tiling
  import opened Chunk

  // ---- what is accepted ----

  /** The tables lie in the directory and the directory in the bytes. */
  ghost predicate Framed(env: Env, bytes: seq<u8>, s: Shape) {
    env.pco.Progresses() && s.TableEnd() <= s.start <= |bytes| <= MAX_CHUNK
  }

  /** Every one of the first n columns can be read. */
  ghost predicate ColumnsReadable(env: Env, bytes: seq<u8>, s: Shape, decode: bool, n: nat)
    requires Framed(env, bytes, s) && n <= s.columns
  {
    forall i :: 0 <= i < n ==> ReadColumn(env, bytes, s, i, decode).Ok?
  }

  function SemanticAt(bytes: seq<u8>, s: Shape, i: nat): (n: u16) {
    Word16(bytes, s.ColumnEntry(i))
  }

  /** Columns are listed by strictly increasing, positive semantic. */
  predicate SemanticsIncrease(bytes: seq<u8>, s: Shape, n: nat) {
    && (n > 0 ==> 0 < SemanticAt(bytes, s, 0))
    && forall i :: 0 < i < n ==> SemanticAt(bytes, s, i - 1) < SemanticAt(bytes, s, i)
  }

  predicate HasAxis(bytes: seq<u8>, s: Shape, semantic: u16) {
    exists i :: 0 <= i < s.columns && SemanticAt(bytes, s, i) == semantic
  }

  /** The decoded bytes of the first k columns. */
  ghost function DecodedBytes(env: Env, bytes: seq<u8>, s: Shape, decode: bool, k: nat): (n: nat)
    requires Framed(env, bytes, s) && k <= s.columns && ColumnsReadable(env, bytes, s, decode, k)
  {
    if k == 0 then 0
    else DecodedBytes(env, bytes, s, decode, k - 1) + ReadColumn(env, bytes, s, k - 1, decode).value.decoded
  }

  /** The parameter, bitmap and payload ranges of the first k columns. */
  ghost function RangesUpTo(env: Env, bytes: seq<u8>, s: Shape, decode: bool, k: nat): (rs: seq<Range>)
    requires Framed(env, bytes, s) && k <= s.columns && ColumnsReadable(env, bytes, s, decode, k)
  {
    if k == 0 then []
    else RangesUpTo(env, bytes, s, decode, k - 1) + ReadColumn(env, bytes, s, k - 1, decode).value.ranges
  }

  ghost predicate ColumnTableValid(env: Env, bytes: seq<u8>, s: Shape, decode: bool)
    requires Framed(env, bytes, s)
  {
    && ColumnsReadable(env, bytes, s, decode, s.columns)
    && SemanticsIncrease(bytes, s, s.columns)
    && DecodedBytes(env, bytes, s, decode, s.columns) <= MAX_CHUNK
  }

  ghost predicate Accepts(env: Env, bytes: seq<u8>, decode: bool)
    requires env.pco.Progresses()
  {
    && HeaderValid(env, bytes)
    && var s := ShapeOf(bytes);
       && SegmentsValid(bytes, s)
       && ColumnTableValid(env, bytes, s, decode)
       && HasAxis(bytes, s, 1) && HasAxis(bytes, s, 2) && HasAxis(bytes, s, 12)
       && Tiled(bytes, s.TableEnd(), RangesUpTo(env, bytes, s, decode, s.columns))
       && bytes[16..32] != ZERO && bytes[32..48] != ZERO
  }

  ghost function ColumnsOf(env: Env, bytes: seq<u8>, s: Shape, decode: bool): (cs: seq<Column>)
    requires Framed(env, bytes, s) && ColumnsReadable(env, bytes, s, decode, s.columns)
    ensures |cs| == s.columns
    ensures forall i :: 0 <= i < |cs| ==> cs[i] == ReadColumn(env, bytes, s, i, decode).value.column
  {
    seq(s.columns, i requires 0 <= i < s.columns => ReadColumn(env, bytes, s, i, decode).value.column)
  }

  lemma AcceptsReadable(env: Env, bytes: seq<u8>, decode: bool)
    requires env.pco.Progresses() && Accepts(env, bytes, decode)
    ensures var s := ShapeOf(bytes);
            && HEADER <= |bytes| && Framed(env, bytes, s) && ColumnsReadable(env, bytes, s, decode, s.columns)
  {
    hide ReadColumn, SegmentsValid, Tiled, Uint, Word16, Word32, HasAxis, SemanticsIncrease;
  }

  /** The chunk accepted bytes describe. */
  ghost function ChunkOf(env: Env, bytes: seq<u8>, decode: bool): (c: Chunk)
    requires env.pco.Progresses() && Accepts(env, bytes, decode)
  {
    hide Accepts, HeaderValid, ReadColumn;
    AcceptsReadable(env, bytes, decode);
    var s := ShapeOf(bytes);
    Chunk(IdAt(bytes, 16), IdAt(bytes, 32), SegmentsAt(bytes, s.segments), ColumnsOf(env, bytes, s, decode))
  }

  // ---- the loops ----

  lemma CountGrows(segments: seq<Segment>, k: nat)
    requires k < |segments|
    ensures CountOf(segments[..k + 1]) == CountOf(segments[..k]) + segments[k].count
  {
    assert segments[..k + 1][..k] == segments[..k];
  }

  function IdsOf(segments: seq<Segment>): (ids: set<Id>) {
    set s <- segments :: s.id
  }

  lemma DistinctGrows(segments: seq<Segment>, k: nat)
    requires k < |segments| && DistinctIds(segments[..k])
    ensures IdsOf(segments[..k + 1]) == IdsOf(segments[..k]) + {segments[k].id}
    ensures DistinctIds(segments[..k + 1]) <==> segments[k].id !in IdsOf(segments[..k])
  {
    var before, after := segments[..k], segments[..k + 1];
    assert after == before + [segments[k]];
    if segments[k].id in IdsOf(before) {
      var s :| s in before && s.id == segments[k].id;
      var i :| 0 <= i < k && before[i] == s;
      assert after[i].id == after[k].id;
    }
  }

  lemma NothingDistinct()
    ensures DistinctIds([]) && IdsOf([]) == {}
  {
  }

  lemma RepeatedId(segments: seq<Segment>, k: nat)
    requires k < |segments| && segments[k].id in IdsOf(segments[..k])
    ensures !DistinctIds(segments)
  {
    var s :| s in segments[..k] && s.id == segments[k].id;
    var i :| 0 <= i < k && segments[i] == s;
  }

  /** The segment table; the total must equal the point count. */
  method ReadSegments(bytes: seq<u8>, s: Shape) returns (r: Result<seq<Segment>>)
    requires s.TableEnd() <= |bytes| <= MAX_CHUNK
    ensures r.Ok? <==> SegmentsValid(bytes, s)
    ensures r.Ok? ==> r.value == SegmentsAt(bytes, s.segments)
  {
    hide SegmentAt, SegmentValid, DistinctIds, IdsOf;
    ghost var all := SegmentsAt(bytes, s.segments);
    NothingDistinct();
    var segments: seq<Segment> := [];
    var ids: set<Id> := {};
    var total := 0;
    for i := 0 to s.segments
      invariant segments == all[..i]
      invariant ids == IdsOf(all[..i])
      invariant total == CountOf(all[..i])
      invariant forall k :: 0 <= k < i ==> SegmentValid(bytes, k)
      invariant DistinctIds(all[..i])
    {
      var segment := SegmentAt(bytes, i);
      if !SegmentValid(bytes, i) {
        return Err(InvalidData);
      }
      if segment.id in ids {
        RepeatedId(all, i);
        return Err(InvalidData);
      }
      CountGrows(all, i);
      DistinctGrows(all, i);
      ids := ids + {segment.id};
      total := total + segment.count;
      segments := segments + [segment];
    }
    assert all[..s.segments] == all;
    if total != s.points {
      return Err(InvalidData);
    }
    r := Ok(segments);
  }

  lemma {:induction false} DecodedGrows(env: Env, bytes: seq<u8>, s: Shape, decode: bool, j: nat, k: nat)
    requires Framed(env, bytes, s) && j <= k <= s.columns && ColumnsReadable(env, bytes, s, decode, s.columns)
    ensures DecodedBytes(env, bytes, s, decode, j) <= DecodedBytes(env, bytes, s, decode, k)
  {
    hide ReadColumn;
    if j < k {
      DecodedGrows(env, bytes, s, decode, j, k - 1);
    }
  }

  datatype Columns = Columns(columns: seq<Column>, ranges: seq<Range>, decoded: nat)

  /** The column table. */
  method ReadColumns(env: Env, bytes: seq<u8>, s: Shape, decode: bool) returns (r: Result<Columns>)
    requires Framed(env, bytes, s)
    ensures r.Ok? <==> ColumnTableValid(env, bytes, s, decode)
    ensures r.Ok? ==>
              r.value == Columns(ColumnsOf(env, bytes, s, decode), RangesUpTo(env, bytes, s, decode, s.columns),
                                 DecodedBytes(env, bytes, s, decode, s.columns))
  {
    hide ReadColumn, SemanticAt;
    var columns: seq<Column> := [];
    var ranges: seq<Range> := [];
    var previous := 0;
    var decoded := 0;
    for i := 0 to s.columns
      invariant |columns| == i
      invariant forall k :: 0 <= k < i ==>
                  ReadColumn(env, bytes, s, k, decode).Ok? && columns[k] == ReadColumn(env, bytes, s, k, decode).value.column
      invariant ranges == RangesUpTo(env, bytes, s, decode, i)
      invariant previous == if i == 0 then 0 else SemanticAt(bytes, s, i - 1)
      invariant SemanticsIncrease(bytes, s, i)
      invariant decoded == DecodedBytes(env, bytes, s, decode, i) && decoded <= MAX_CHUNK
    {
      var semantic := SemanticAt(bytes, s, i);
      if semantic <= previous {
        return Err(InvalidData);
      }
      previous := semantic;
      var column := ReadColumn(env, bytes, s, i, decode);
      if column.Err? {
        return Err(column.error);
      }
      if decoded + column.value.decoded > MAX_CHUNK {
        if ColumnsReadable(env, bytes, s, decode, s.columns) {
          DecodedGrows(env, bytes, s, decode, i + 1, s.columns);
        }
        return Err(InvalidData);
      }
      decoded := decoded + column.value.decoded;
      ranges := ranges + column.value.ranges;
      columns := columns + [column.value.column];
    }
    assert columns == ColumnsOf(env, bytes, s, decode);
    r := Ok(Columns(columns, ranges, decoded));
  }

  /** The sweep over the sorted ranges. */
  method CheckTiling(bytes: seq<u8>, from: nat, ranges: seq<Range>) returns (ok: bool)
    requires from <= |bytes| && InBounds(bytes, ranges)
    ensures ok <==> Tiled(bytes, from, ranges)
  {
    hide Tiled, Sort;
    var sorted := Sort(ranges);
    SortInOrder(ranges);
    TiledSorted(bytes, from, ranges);
    SweepTiles(bytes, from, sorted);
    var end := from;
    assert sorted[0..] == sorted;
    for i := 0 to |sorted|
      invariant 0 <= end <= |bytes|
      invariant forall x <- sorted[i..] :: x in sorted
      invariant Sweep(bytes, from, sorted) <==> Sweep(bytes, end, sorted[i..])
    {
      var range := sorted[i];
      assert range in sorted && sorted[i..][1..] == sorted[i + 1..] && sorted[i..][0] == range;
      if range.lo < end {
        return false;
      }
      var zero := true;
      for k := end to range.lo
        invariant zero <==> forall j :: end <= j < k ==> bytes[j] == 0
      {
        zero := zero && bytes[k] == 0;
      }
      if !zero {
        return false;
      }
      end := range.hi;
    }
    ok := end == |bytes|;
  }

  /** Whether some column has the given semantic. */
  method FindAxis(bytes: seq<u8>, s: Shape, columns: seq<Column>, semantic: u16) returns (found: bool)
    requires |columns| == s.columns
    requires forall i :: 0 <= i < |columns| ==> columns[i].semantic == SemanticAt(bytes, s, i)
    ensures found <==> HasAxis(bytes, s, semantic)
  {
    found := false;
    for i := 0 to |columns|
      invariant found <==> exists k :: 0 <= k < i && SemanticAt(bytes, s, k) == semantic
    {
      found := found || columns[i].semantic == semantic;
    }
  }

  lemma ReadColumnFacts(env: Env, bytes: seq<u8>, s: Shape, i: nat, decode: bool)
    requires i < s.columns && s.TableEnd() <= s.start <= |bytes| && env.pco.Progresses()
    requires ReadColumn(env, bytes, s, i, decode).Ok?
    ensures var c := ReadColumn(env, bytes, s, i, decode).value;
            && c.column.semantic == Word16(bytes, s.ColumnEntry(i))
            && InBounds(bytes, c.ranges)
  {
    hide ReadValidity, DecodeValues, ValuesValid, Uint, Word16;
  }

  lemma {:induction false} RangesInBounds(env: Env, bytes: seq<u8>, s: Shape, decode: bool, k: nat)
    requires Framed(env, bytes, s) && k <= s.columns && ColumnsReadable(env, bytes, s, decode, k)
    ensures InBounds(bytes, RangesUpTo(env, bytes, s, decode, k))
  {
    hide ReadColumn;
    if k > 0 {
      RangesInBounds(env, bytes, s, decode, k - 1);
      ReadColumnFacts(env, bytes, s, k - 1, decode);
    }
  }

  /** Reads a chunk, with or without its values. */
  method ReadLayout(env: Env, bytes: seq<u8>, decode: bool) returns (r: Result<(Chunk, nat)>)
    requires env.pco.Progresses()
    ensures r.Ok? <==> Accepts(env, bytes, decode)
    ensures r.Ok? ==>
              r.value.0 == ChunkOf(env, bytes, decode)
              && r.value.1 == DecodedBytes(env, bytes, ShapeOf(bytes), decode, ShapeOf(bytes).columns)
  {
    hide ReadColumn, SegmentsValid, Tiled, ColumnTableValid, HasAxis;
    if !HeaderValid(env, bytes) {
      return Err(InvalidData);
    }
    var s := ShapeOf(bytes);
    var segments := ReadSegments(bytes, s);
    if segments.Err? {
      return Err(segments.error);
    }
    var table := ReadColumns(env, bytes, s, decode);
    if table.Err? {
      return Err(table.error);
    }
    assert ColumnsReadable(env, bytes, s, decode, s.columns) by {
      TableReadable(env, bytes, s, decode);
    }
    SemanticsRead(env, bytes, s, decode);
    var x := FindAxis(bytes, s, table.value.columns, 1);
    var y := FindAxis(bytes, s, table.value.columns, 2);
    var kind := FindAxis(bytes, s, table.value.columns, 12);
    if !x || !y || !kind {
      return Err(InvalidData);
    }
    RangesReadable(env, bytes, s, decode);
    var tiled := CheckTiling(bytes, s.TableEnd(), table.value.ranges);
    if !tiled {
      return Err(InvalidData);
    }
    if bytes[16..32] == ZERO || bytes[32..48] == ZERO {
      return Err(InvalidData);
    }
    r := Ok((Chunk(bytes[16..32], bytes[32..48], segments.value, table.value.columns), table.value.decoded));
  }

  lemma TableReadable(env: Env, bytes: seq<u8>, s: Shape, decode: bool)
    requires Framed(env, bytes, s) && ColumnTableValid(env, bytes, s, decode)
    ensures ColumnsReadable(env, bytes, s, decode, s.columns)
  {
  }

  lemma SemanticsRead(env: Env, bytes: seq<u8>, s: Shape, decode: bool)
    requires Framed(env, bytes, s) && ColumnsReadable(env, bytes, s, decode, s.columns)
    ensures forall i :: 0 <= i < s.columns ==>
              ColumnsOf(env, bytes, s, decode)[i].semantic == SemanticAt(bytes, s, i)
  {
    hide ReadColumn;
    forall i | 0 <= i < s.columns
      ensures ColumnsOf(env, bytes, s, decode)[i].semantic == SemanticAt(bytes, s, i)
    {
      ReadColumnFacts(env, bytes, s, i, decode);
    }
  }

  lemma RangesReadable(env: Env, bytes: seq<u8>, s: Shape, decode: bool)
    requires Framed(env, bytes, s) && ColumnsReadable(env, bytes, s, decode, s.columns)
    ensures InBounds(bytes, RangesUpTo(env, bytes, s, decode, s.columns))
  {
    hide ReadColumn;
    RangesInBounds(env, bytes, s, decode, s.columns);
  }

  /** Reading a chunk with its values. */
  method Decode(env: Env, bytes: seq<u8>) returns (r: Result<Chunk>)
    requires env.pco.Progresses()
    ensures r.Ok? <==> Accepts(env, bytes, true)
    ensures r.Ok? ==> r.value == ChunkOf(env, bytes, true)
  {
    hide Accepts, ChunkOf;
    var read := ReadLayout(env, bytes, true);
    r := if read.Ok? then Ok(read.value.0) else Err(read.error);
  }

  /** The decoded size, without decompressing. */
  method DecodedValueBytes(env: Env, bytes: seq<u8>) returns (r: Result<nat>)
    requires env.pco.Progresses()
    ensures r.Ok? <==> Accepts(env, bytes, false)
    ensures r.Ok? ==> r.value == DecodedBytes(env, bytes, ShapeOf(bytes), false, ShapeOf(bytes).columns)
  {
    var read := ReadLayout(env, bytes, false);
    r := if read.Ok? then Ok(read.value.1) else Err(read.error);
  }
}
