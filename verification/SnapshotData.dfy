/** Complete snapshots: the catalog, the chunks, and how geometries use them. */
module SnapshotData {
  import opened Bytes
  import opened Results
  import opened Sorting
  import opened Records
  import opened Model
  import opened Typed
  import opened Graph
  import opened Snapshot
  import opened Ticks
  import Chunk
  import ChunkReader
  import ChunkTheorems

  // ---- the catalog ----

  /** The entries of an ordered map. */
  function ToMap<V>(t: seq<Keyed<V>>): (m: map<seq<u8>, V>) {
    if t == [] then map[] else ToMap(t[..|t| - 1])[t[|t| - 1].key := t[|t| - 1].value]
  }

  lemma {:induction false} ToMapKeys<V>(t: seq<Keyed<V>>)
    requires Ascending(t)
    ensures |ToMap(t)| == |t|
    ensures forall k <- ToMap(t) :: exists i :: 0 <= i < |t| && t[i].key == k
  {
    if t != [] {
      var n := |t| - 1;
      ToMapKeys(t[..n]);
      var rest := ToMap(t[..n]);
      if t[n].key in rest {
        var i :| 0 <= i < n && t[..n][i].key == t[n].key;
        LessIsTotal(t[i].key, t[n].key);
      }
      assert ToMap(t).Keys == rest.Keys + {t[n].key};
    }
  }

  predicate BlobMatches(tools: Tools, bytes: seq<u8>, b: BlobRef) {
    b.length == |bytes| && b.hash == tools.sha(bytes)
  }

  predicate FeaturesOk(r: Record, features: seq<u64>) {
    forall i :: 0 <= i < |r.features| ==> r.features[i] in features
  }

  predicate RecordIntact(s: Snapshot, tools: Tools, doc: Document, features: seq<u64>, id: Id)
    requires id in s.records
  {
    var r := s.records[id];
    && r.id == id && FeaturesOk(r, features) && id in ToMap(doc.records)
    && r.Encode().Ok? && BlobMatches(tools, r.Encode().value, ToMap(doc.records)[id])
  }

  predicate ResourceIntact(s: Snapshot, tools: Tools, doc: Document, hash: Hash)
    requires hash in s.resources
  {
    hash in ToMap(doc.resources) && ToMap(doc.resources)[hash] == |s.resources[hash]|
    && tools.sha(s.resources[hash]) == hash
  }

  /** The parts of the catalog check that need no decoding. */
  predicate CatalogIntact(s: Snapshot, tools: Tools, doc: Document, features: seq<u64>) {
    && s.root.id !in s.records
    && |doc.records| == |s.records| && |doc.chunks| == |s.chunks| && |doc.resources| == |s.resources|
    && (forall id <- s.records :: RecordIntact(s, tools, doc, features, id))
    && (forall hash <- s.resources :: ResourceIntact(s, tools, doc, hash))
  }

  ghost predicate ChunkIntact(s: Snapshot, tools: Tools, doc: Document, id: Id)
    requires id in s.chunks && tools.env.pco.Progresses()
  {
    var bytes := s.chunks[id];
    && id in ToMap(doc.chunks) && BlobMatches(tools, bytes, ToMap(doc.chunks)[id])
    && ChunkReader.Accepts(tools.env, bytes, true)
    && ChunkReader.ChunkOf(tools.env, bytes, true).id == id
  }

  /** The chunks the snapshot's bytes decode to. */
  ghost predicate DecodedFrom(s: Snapshot, tools: Tools, decoded: map<Id, Chunk.Chunk>)
    requires tools.env.pco.Progresses()
  {
    && decoded.Keys <= s.chunks.Keys
    && forall id <- decoded ::
         ChunkReader.Accepts(tools.env, s.chunks[id], true)
         && decoded[id] == ChunkReader.ChunkOf(tools.env, s.chunks[id], true)
  }

  /** Decodes every chunk and checks it against the catalog. */
  method DecodeChunks(s: Snapshot, tools: Tools, doc: Document) returns (ok: bool, decoded: map<Id, Chunk.Chunk>)
    requires tools.env.pco.Progresses()
    ensures ok <==> forall id <- s.chunks :: ChunkIntact(s, tools, doc, id)
    ensures ok ==> decoded.Keys == s.chunks.Keys && DecodedFrom(s, tools, decoded)
  {
    hide ChunkReader.Accepts, ChunkReader.ChunkOf, ToMap;
    decoded := map[];
    var todo := s.chunks.Keys;
    while todo != {}
      invariant todo <= s.chunks.Keys && decoded.Keys == s.chunks.Keys - todo
      invariant forall id <- s.chunks :: id !in todo ==> ChunkIntact(s, tools, doc, id)
      invariant DecodedFrom(s, tools, decoded)
    {
      var id :| id in todo;
      var bytes := s.chunks[id];
      if id !in ToMap(doc.chunks) || !BlobMatches(tools, bytes, ToMap(doc.chunks)[id]) {
        return false, decoded;
      }
      var chunk := ChunkReader.Decode(tools.env, bytes);
      if chunk.Err? || chunk.value.id != id {
        return false, decoded;
      }
      decoded := decoded[id := chunk.value];
      todo := todo - {id};
    }
    ok := true;
  }

  // ---- one part of a geometry ----

  /** Which types a channel may have. */
  predicate Allowed(c: Chunk.Column) {
    if c.semantic in [1, 2, 8, 9, 10] then c.dtype.F32? || c.dtype.F64?
    else if c.semantic == 3 then c.dtype.U16? || c.dtype.U32? || c.dtype.F32? || c.dtype.F64?
    else if c.semantic == 4 then c.dtype.U32? || c.dtype.U64?
    else if c.semantic in [5, 6] then c.dtype.I8? || c.dtype.I16? || c.dtype.F32? || c.dtype.F64?
    else if c.semantic == 7 then c.dtype.U16? || c.dtype.F32? || c.dtype.F64?
    else if c.semantic == 11 then c.dtype.I64? || c.dtype.F64?
    else if c.semantic == 12 then c.dtype.U8?
    else !c.required
  }

  /** The first column with the given semantic. */
  function ColumnWith(columns: seq<Chunk.Column>, semantic: nat): (c: Option<Chunk.Column>)
    ensures c.Some? ==> c.value in columns && c.value.semantic == semantic
  {
    if columns == [] then None
    else if columns[0].semantic == semantic then Some(columns[0])
    else ColumnWith(columns[1..], semantic)
  }

  /** The chunk and the index a part's segment is mapped to. */
  predicate Located(doc: Document, decoded: map<Id, Chunk.Chunk>, part: Part) {
    part.segment in ToMap(doc.segments) && ToMap(doc.segments)[part.segment].chunk in decoded
  }

  function ChunkAt(doc: Document, decoded: map<Id, Chunk.Chunk>, part: Part): (c: Chunk.Chunk)
    requires Located(doc, decoded, part)
  {
    decoded[ToMap(doc.segments)[part.segment].chunk]
  }

  function IndexAt(doc: Document, decoded: map<Id, Chunk.Chunk>, part: Part): (i: nat)
    requires Located(doc, decoded, part)
  {
    ToMap(doc.segments)[part.segment].index
  }

  predicate ChannelsFit(chunk: Chunk.Chunk, profile: SourceProfile) {
    && |chunk.columns| == |profile.axes|
    && forall i :: 0 <= i < |chunk.columns| ==>
         AxisAt(profile.axes, chunk.columns[i].semantic).Some? && Allowed(chunk.columns[i])
  }

  /** A part names a segment of the right size in a chunk of the geometry's profile, whose
      channels are those of the profile and include deltas exactly when there is timing. */
  predicate PartFits(doc: Document, decoded: map<Id, Chunk.Chunk>, g: Geometry, profile: SourceProfile, part: Part) {
    && Located(doc, decoded, part)
    && var chunk, index := ChunkAt(doc, decoded, part), IndexAt(doc, decoded, part);
       && chunk.profile == g.profile
       && index < |chunk.segments| && chunk.segments[index] == Chunk.Segment(part.segment, part.count)
       && ChannelsFit(chunk, profile)
       && (ColumnWith(chunk.columns, 4).Some? <==> g.timing.Some?)
  }

  /** The run of samples of a timed part. */
  function RunOf(doc: Document, decoded: map<Id, Chunk.Chunk>, g: Geometry, profile: SourceProfile, part: Part): (r: Run)
    requires PartFits(doc, decoded, g, profile, part) && g.timing.Some?
  {
    var chunk, index := ChunkAt(doc, decoded, part), IndexAt(doc, decoded, part);
    Run(ColumnWith(chunk.columns, 4).value, part.firstTick, Chunk.CountOf(chunk.segments[..index]), part.count)
  }

  lemma {:induction false} CountPrefix(segments: seq<Chunk.Segment>, k: nat)
    requires k <= |segments|
    ensures Chunk.CountOf(segments[..k]) <= Chunk.CountOf(segments)
    decreases |segments|
  {
    var n := |segments|;
    if k < n {
      CountPrefix(segments[..n - 1], k);
      assert segments[..n - 1][..k] == segments[..k];
    } else {
      assert segments[..n] == segments;
    }
  }

  /** Every sample of a timed part has a delta in its chunk. */
  lemma RunIsValid(s: Snapshot, tools: Tools, doc: Document, decoded: map<Id, Chunk.Chunk>, g: Geometry,
                   profile: SourceProfile, part: Part)
    requires tools.env.pco.Progresses() && DecodedFrom(s, tools, decoded)
    requires PartFits(doc, decoded, g, profile, part) && g.timing.Some? && part.count > 0
    ensures RunOf(doc, decoded, g, profile, part).Valid()
  {
    hide ChunkReader.Accepts, ChunkReader.ChunkOf, ToMap, Chunk.CountOf;
    var chunk, index := ChunkAt(doc, decoded, part), IndexAt(doc, decoded, part);
    var dt := ColumnWith(chunk.columns, 4).value;
    var id := ToMap(doc.segments)[part.segment].chunk;
    var i :| 0 <= i < |chunk.columns| && chunk.columns[i] == dt;
    ChunkTheorems.RequiredAxes(tools.env, s.chunks[id], i);
    CountPrefix(chunk.segments, index + 1);
    ChunkReader.CountGrows(chunk.segments, index);
    assert Allowed(dt);
  }
}
