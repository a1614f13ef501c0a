/** Validation of a complete snapshot: timing of every geometry, and use of everything that
    is catalogued. */
module SnapshotValidate {
  import opened Bytes
  import opened Results
  import opened Sorting
  import opened Records
  import opened Cbor
  import opened Fields
  import opened Bodies
  import opened Model
  import opened Typed
  import opened Graph
  import opened Snapshot
  import opened Ticks
  import opened SnapshotData
  import Chunk

  // ---- one geometry ----

  ghost predicate PartsFit(doc: Document, decoded: map<Id, Chunk.Chunk>, g: Geometry, profile: SourceProfile, n: nat)
    requires n <= |g.parts|
  {
    forall i :: 0 <= i < n ==> PartFits(doc, decoded, g, profile, g.parts[i])
  }

  ghost function RunsOf(doc: Document, decoded: map<Id, Chunk.Chunk>, g: Geometry, profile: SourceProfile, n: nat)
    : (runs: seq<Run>)
    requires n <= |g.parts| && PartsFit(doc, decoded, g, profile, n) && g.timing.Some?
    ensures |runs| == n && forall i :: 0 <= i < n ==> runs[i] == RunOf(doc, decoded, g, profile, g.parts[i])
  {
    seq(n, i requires 0 <= i < n => RunOf(doc, decoded, g, profile, g.parts[i]))
  }

  /** The first n parts fit, and time never decreases over all their samples. */
  ghost predicate PrefixFits(doc: Document, decoded: map<Id, Chunk.Chunk>, g: Geometry, profile: SourceProfile, n: nat)
    requires n <= |g.parts|
  {
    && PartsFit(doc, decoded, g, profile, n)
    && if g.timing.None? then forall i :: 0 <= i < n ==> g.parts[i].firstTick == 0
       else
         var runs := RunsOf(doc, decoded, g, profile, n);
         AllValid(runs) && Timed(runs, g.timing.value.startTick)
  }

  ghost predicate GeometryFits(doc: Document, decoded: map<Id, Chunk.Chunk>, g: Geometry, profile: SourceProfile) {
    PrefixFits(doc, decoded, g, profile, |g.parts|)
  }

  lemma FitsPrefix(doc: Document, decoded: map<Id, Chunk.Chunk>, g: Geometry, profile: SourceProfile, n: nat)
    requires n <= |g.parts| && GeometryFits(doc, decoded, g, profile)
    ensures PrefixFits(doc, decoded, g, profile, n)
  {
    hide PartFits, RunOf, Timed, AllValid;
    if g.timing.Some? {
      var all := RunsOf(doc, decoded, g, profile, |g.parts|);
      TimedPrefix(all, n, g.timing.value.startTick);
      assert all[..n] == RunsOf(doc, decoded, g, profile, n);
    }
  }

  /** The prior tick after the first n parts. */
  ghost function PriorTick(doc: Document, decoded: map<Id, Chunk.Chunk>, g: Geometry, profile: SourceProfile, n: nat)
    : (t: Option<nat>)
    requires n <= |g.parts| && PrefixFits(doc, decoded, g, profile, n)
  {
    if g.timing.None? then None else LastTick(AllTicks(RunsOf(doc, decoded, g, profile, n)))
  }

  lemma NothingPrior(doc: Document, decoded: map<Id, Chunk.Chunk>, g: Geometry, profile: SourceProfile)
    ensures PrefixFits(doc, decoded, g, profile, 0) && PriorTick(doc, decoded, g, profile, 0) == None
  {
    hide PartFits, RunOf;
  }

  /** How one more part extends the prefix. */
  lemma NextPart(s: Snapshot, tools: Tools, doc: Document, decoded: map<Id, Chunk.Chunk>, g: Geometry,
                 profile: SourceProfile, n: nat)
    requires n < |g.parts| && PrefixFits(doc, decoded, g, profile, n)
    requires PartFits(doc, decoded, g, profile, g.parts[n]) && g.parts[n].count > 0
    requires tools.env.pco.Progresses() && DecodedFrom(s, tools, decoded)
    ensures g.timing.None? ==>
              PriorTick(doc, decoded, g, profile, n) == None
              && (PrefixFits(doc, decoded, g, profile, n + 1) <==> g.parts[n].firstTick == 0)
              && (g.parts[n].firstTick == 0 ==> PriorTick(doc, decoded, g, profile, n + 1) == None)
    ensures g.timing.Some? ==>
              var run := RunOf(doc, decoded, g, profile, g.parts[n]);
              var prior := PriorTick(doc, decoded, g, profile, n);
              && run.Valid() && (prior.Some? ==> prior.value <= LAST)
              && (PrefixFits(doc, decoded, g, profile, n + 1) <==> Follows(run, prior, g.timing.value.startTick))
              && (PrefixFits(doc, decoded, g, profile, n + 1) ==>
                    PriorTick(doc, decoded, g, profile, n + 1) == Some(run.Tick(run.count - 1)))
  {
    hide PartFits, RunOf, Timed, AllValid, AllTicks, Follows, DecodedFrom, Run.Valid, Run.Tick;
    assert PartsFit(doc, decoded, g, profile, n + 1);
    if g.timing.Some? {
      var start := g.timing.value.startTick;
      var runs, run := RunsOf(doc, decoded, g, profile, n), RunOf(doc, decoded, g, profile, g.parts[n]);
      RunIsValid(s, tools, doc, decoded, g, profile, g.parts[n]);
      TicksBounded(runs, start);
      RunFollows(runs, run, start, PriorTick(doc, decoded, g, profile, n));
      assert RunsOf(doc, decoded, g, profile, n + 1) == runs + [run];
    }
  }

  lemma TicksBounded(runs: seq<Run>, startTick: u64)
    requires AllValid(runs) && Timed(runs, startTick)
    ensures LastTick(AllTicks(runs)).Some? ==> LastTick(AllTicks(runs)).value <= LAST
  {
    var ts := AllTicks(runs);
    assert ts != [] ==> ts[|ts| - 1] in ts;
  }

  /** The segments the first n parts name. */
  function SegmentsOf(parts: seq<Part>, n: nat): (ids: set<Id>)
    requires n <= |parts|
  {
    set i | 0 <= i < n :: parts[i].segment
  }

  predicate CountsPositive(parts: seq<Part>) {
    forall i :: 0 <= i < |parts| ==> parts[i].count > 0
  }

  /** The loop over the parts of a geometry. */
  method CheckGeometry(s: Snapshot, tools: Tools, doc: Document, decoded: map<Id, Chunk.Chunk>, g: Geometry,
                       profile: SourceProfile, usedSegments: set<Id>)
    returns (ok: bool, used: set<Id>)
    requires tools.env.pco.Progresses() && DecodedFrom(s, tools, decoded) && CountsPositive(g.parts)
    ensures ok <==> GeometryFits(doc, decoded, g, profile)
    ensures ok ==> used == usedSegments + SegmentsOf(g.parts, |g.parts|)
  {
    hide PartFits, RunOf, DecodedFrom, PrefixFits, PriorTick, Follows, Run.Valid, Run.Tick;
    used := usedSegments;
    var prior: Option<u64> := None;
    NothingPrior(doc, decoded, g, profile);
    for n := 0 to |g.parts|
      invariant PrefixFits(doc, decoded, g, profile, n)
      invariant prior == PriorTick(doc, decoded, g, profile, n)
      invariant used == usedSegments + SegmentsOf(g.parts, n)
    {
      var part := g.parts[n];
      if GeometryFits(doc, decoded, g, profile) {
        FitsPrefix(doc, decoded, g, profile, n + 1);
        PrefixPart(doc, decoded, g, profile, n + 1);
      }
      used := used + {part.segment};
      if !PartFits(doc, decoded, g, profile, part) {
        return false, used;
      }
      NextPart(s, tools, doc, decoded, g, profile, n);
      if g.timing.Some? {
        var ok', last := CheckRun(RunOf(doc, decoded, g, profile, part), prior, g.timing.value.startTick);
        if !ok' {
          return false, used;
        }
        prior := last;
      } else if part.firstTick != 0 {
        return false, used;
      }
    }
    ok := true;
  }

  lemma PrefixPart(doc: Document, decoded: map<Id, Chunk.Chunk>, g: Geometry, profile: SourceProfile, n: nat)
    requires 0 < n <= |g.parts| && PrefixFits(doc, decoded, g, profile, n)
    ensures PartFits(doc, decoded, g, profile, g.parts[n - 1])
  {
    hide PartFits, RunOf, AllValid, Timed;
  }

  // ---- all geometries ----

  predicate IsGeometry(s: Snapshot, id: Id) {
    id in s.records && s.records[id].kind == GEOMETRY
  }

  /** The geometry of a record and the profile it names, where both can be read. */
  function GeometryAt(s: Snapshot, id: Id): (g: Option<(Geometry, SourceProfile)>)
    requires id in s.records
  {
    var g := GeometryOf(s.records[id]);
    if g.Err? || g.value.profile !in s.records then None
    else
      var profile := SourceProfileOf(s.records[g.value.profile]);
      if profile.Err? then None else Some((g.value, profile.value))
  }

  ghost predicate GeometryAtFits(s: Snapshot, doc: Document, decoded: map<Id, Chunk.Chunk>, id: Id)
    requires id in s.records
  {
    var g := GeometryAt(s, id);
    g.Some? && GeometryFits(doc, decoded, g.value.0, g.value.1)
  }

  ghost predicate AllGeometriesFit(s: Snapshot, doc: Document, decoded: map<Id, Chunk.Chunk>) {
    forall id <- s.records :: IsGeometry(s, id) ==> GeometryAtFits(s, doc, decoded, id)
  }

  /** The segments a geometry record names. */
  function SegmentsAt(s: Snapshot, id: Id): (ids: set<Id>)
    requires id in s.records
  {
    if IsGeometry(s, id) && GeometryAt(s, id).Some?
    then SegmentsOf(GeometryAt(s, id).value.0.parts, |GeometryAt(s, id).value.0.parts|) else {}
  }

  function UsedSegments(s: Snapshot, ids: set<Id>): (segments: set<Id>)
    requires ids <= s.records.Keys
  {
    set id <- ids, segment <- SegmentsAt(s, id) :: segment
  }

  function UsedChunks(doc: Document): (chunks: set<Id>) {
    set segment <- ToMap(doc.segments) :: ToMap(doc.segments)[segment].chunk
  }

  lemma ReadableGeometry(s: Snapshot, tools: Tools, id: Id)
    requires s.RecordOk(id, tools) && IsGeometry(s, id)
    ensures GeometryAt(s, id).Some? && CountsPositive(GeometryAt(s, id).value.0.parts)
  {
    hide ReadGeometry, SourceProfileOf, Snapshot.SessionAt;
    ReadGeometryValid(s.records[id].body);
  }

  lemma ReadGeometryValid(v: Value)
    requires ReadGeometry(v).Ok?
    ensures CountsPositive(ReadGeometry(v).value.parts)
  {
    var g := ReadGeometry(v).value;
    hide PartsEnd, Extras, Assemble, ReadTiming, FieldOf, Collect;
    assert PartsEnd(g.parts, 0) == Some(g.pointCount);
    PartsTile(g.parts);
  }

  /** The loop over the geometry records. */
  method CheckGeometries(s: Snapshot, tools: Tools, doc: Document, decoded: map<Id, Chunk.Chunk>)
    returns (ok: bool, used: set<Id>)
    requires tools.env.pco.Progresses() && DecodedFrom(s, tools, decoded)
    requires forall id <- s.records :: s.RecordOk(id, tools)
    ensures ok <==> AllGeometriesFit(s, doc, decoded)
    ensures ok ==> used == UsedSegments(s, s.records.Keys)
  {
    hide Snapshot.RecordOk, GeometryFits, DecodedFrom, GeometryAt, SegmentsOf;
    used := {};
    ghost var done: set<Id> := {};
    var todo := s.records.Keys;
    while todo != {}
      invariant todo <= s.records.Keys && done == s.records.Keys - todo
      invariant forall id <- done :: IsGeometry(s, id) ==> GeometryAtFits(s, doc, decoded, id)
      invariant used == UsedSegments(s, done)
    {
      var id :| id in todo;
      if IsGeometry(s, id) {
        ReadableGeometry(s, tools, id);
        var g := GeometryAt(s, id).value;
        ghost var before := used;
        var ok', used' := CheckGeometry(s, tools, doc, decoded, g.0, g.1, used);
        if !ok' {
          assert !GeometryAtFits(s, doc, decoded, id);
          return false, used';
        }
        used := used';
        assert used == before + SegmentsAt(s, id);
      }
      UsedGrows(s, done, id);
      done := done + {id};
      todo := todo - {id};
    }
    ok := true;
  }

  lemma UsedGrows(s: Snapshot, done: set<Id>, id: Id)
    requires done <= s.records.Keys && id in s.records
    ensures UsedSegments(s, done + {id}) == UsedSegments(s, done) + SegmentsAt(s, id)
    ensures !IsGeometry(s, id) ==> SegmentsAt(s, id) == {}
  {
    hide SegmentsAt;
    assert !IsGeometry(s, id) ==> SegmentsAt(s, id) == {} by {
      NoSegments(s, id);
    }
  }

  lemma NoSegments(s: Snapshot, id: Id)
    requires id in s.records
    ensures !IsGeometry(s, id) ==> SegmentsAt(s, id) == {}
  {
  }

  // ---- the whole snapshot ----

  /** A segment some geometry names is mapped, into a chunk of the snapshot. */
  lemma UsedSegmentsMapped(s: Snapshot, doc: Document, decoded: map<Id, Chunk.Chunk>)
    requires AllGeometriesFit(s, doc, decoded)
    ensures forall segment <- UsedSegments(s, s.records.Keys) ::
              segment in ToMap(doc.segments) && ToMap(doc.segments)[segment].chunk in decoded
  {
    hide GeometryAt, ToMap;
    forall segment | segment in UsedSegments(s, s.records.Keys)
      ensures segment in ToMap(doc.segments) && ToMap(doc.segments)[segment].chunk in decoded
    {
      var id :| id in s.records && segment in SegmentsAt(s, id);
      assert GeometryAtFits(s, doc, decoded, id);
      var g := GeometryAt(s, id).value;
      SegmentMapped(doc, decoded, g.0, g.1, segment);
    }
  }

  lemma SegmentMapped(doc: Document, decoded: map<Id, Chunk.Chunk>, g: Geometry, profile: SourceProfile, segment: Id)
    requires GeometryFits(doc, decoded, g, profile) && segment in SegmentsOf(g.parts, |g.parts|)
    ensures segment in ToMap(doc.segments) && ToMap(doc.segments)[segment].chunk in decoded
  {
    hide ToMap, RunOf, Timed, AllValid;
    var i :| 0 <= i < |g.parts| && g.parts[i].segment == segment;
    assert PartFits(doc, decoded, g, profile, g.parts[i]);
  }

  /** Chunks are intact and decoded. */
  ghost predicate AllDecoded(s: Snapshot, tools: Tools, doc: Document, decoded: map<Id, Chunk.Chunk>)
    requires tools.env.pco.Progresses()
  {
    && (forall id <- s.chunks :: ChunkIntact(s, tools, doc, id))
    && decoded.Keys == s.chunks.Keys && DecodedFrom(s, tools, decoded)
  }

  /** Everything a valid snapshot satisfies. */
  ghost predicate Sound(s: Snapshot, tools: Tools, features: seq<u64>, decoded: map<Id, Chunk.Chunk>)
    requires tools.env.pco.Progresses()
  {
    hide DocumentOf, Record.Encode, CatalogIntact, PagesOk, GraphSound, DecodedFrom, ChunkIntact, UsedChunks;
    && s.root.Encode().Ok? && FeaturesOk(s.root, features) && DocumentOf(s.root).Ok?
    && var doc := DocumentOf(s.root).value;
       && CatalogIntact(s, tools, doc, features) && AllDecoded(s, tools, doc, decoded)
       && PagesOk(s, doc) && GraphSound(s, tools) && ReferencedResources(s) == s.resources.Keys
       && AllGeometriesFit(s, doc, decoded)
       && UsedSegments(s, s.records.Keys) == ToMap(doc.segments).Keys
       && UsedChunks(doc) == ToMap(doc.chunks).Keys
  }

  /** The snapshot is sound with the chunks its bytes decode to. */
  ghost predicate IsSound(s: Snapshot, tools: Tools, features: seq<u64>)
    requires tools.env.pco.Progresses()
  {
    hide Sound;
    exists decoded :: Sound(s, tools, features, decoded)
  }

  /** Checks a whole snapshot. What is accepted is sound; and a sound snapshot in which no
      path from the root has more than 65 records is accepted. */
  method Validate(s: Snapshot, tools: Tools, features: seq<u64>) returns (ok: bool)
    requires tools.env.pco.Progresses()
    ensures ok ==> IsSound(s, tools, features)
    ensures IsSound(s, tools, features) && Shallow(s) ==> ok
  {
    hide Snapshot.RecordOk, CatalogIntact, PagesOk, GraphSound, Shallow, AllGeometriesFit, UsedSegments, UsedChunks, ToMap,
      ReferencedResources, ChunkIntact, DecodedFrom, DocumentOf, Record.Encode;
    if s.root.Encode().Err? || !FeaturesOk(s.root, features) || DocumentOf(s.root).Err? {
      return false;
    }
    var doc := DocumentOf(s.root).value;
    if !CatalogIntact(s, tools, doc, features) {
      return false;
    }
    var intact, decoded := DecodeChunks(s, tools, doc);
    if !intact {
      return false;
    }
    forall other | AllDecoded(s, tools, doc, other)
      ensures other == decoded
    {
      SameDecoded(s, tools, decoded, other);
    }
    var metadata := ValidateMetadata(s, tools, doc);
    if !metadata {
      return false;
    }
    AllRecordsOk(s, tools);
    var fits, used := CheckGeometries(s, tools, doc, decoded);
    if !fits {
      return false;
    }
    UsedSegmentsMapped(s, doc, decoded);
    ToMapKeys(doc.segments);
    ToMapKeys(doc.chunks);
    if |used| != |doc.segments| {
      return false;
    }
    SameSizeSubset(used, ToMap(doc.segments).Keys);
    if |UsedChunks(doc)| != |doc.chunks| {
      return false;
    }
    ChunksCatalogued(s, tools, doc);
    ChunksUsed(doc, decoded, used);
    SameSizeSubset(UsedChunks(doc), ToMap(doc.chunks).Keys);
    assert Sound(s, tools, features, decoded);
    ok := true;
  }

  lemma SameDecoded(s: Snapshot, tools: Tools, a: map<Id, Chunk.Chunk>, b: map<Id, Chunk.Chunk>)
    requires tools.env.pco.Progresses() && DecodedFrom(s, tools, a) && DecodedFrom(s, tools, b) && a.Keys == b.Keys
    ensures a == b
  {
  }

  lemma AllRecordsOk(s: Snapshot, tools: Tools)
    requires GraphSound(s, tools)
    ensures forall id <- s.records :: s.RecordOk(id, tools)
  {
  }

  lemma ChunksCatalogued(s: Snapshot, tools: Tools, doc: Document)
    requires tools.env.pco.Progresses() && forall id <- s.chunks :: ChunkIntact(s, tools, doc, id)
    ensures s.chunks.Keys <= ToMap(doc.chunks).Keys
  {
    hide ToMap, BlobMatches;
  }

  lemma ChunksUsed(doc: Document, decoded: map<Id, Chunk.Chunk>, used: set<Id>)
    requires used == ToMap(doc.segments).Keys
    requires forall segment <- used :: segment in ToMap(doc.segments) && ToMap(doc.segments)[segment].chunk in decoded
    ensures UsedChunks(doc) <= decoded.Keys
  {
    hide ToMap;
  }

  /** The keys of the catalog are those of the snapshot. */
  predicate Catalogued(s: Snapshot, doc: Document) {
    && s.records.Keys == ToMap(doc.records).Keys
    && s.chunks.Keys == ToMap(doc.chunks).Keys
    && s.resources.Keys == ToMap(doc.resources).Keys
  }

  /** The catalog of an intact snapshot lists exactly the records, chunks and resources that
      are there. */
  lemma CatalogIsExact(s: Snapshot, tools: Tools, doc: Document, features: seq<u64>)
    requires tools.env.pco.Progresses()
    requires CatalogIntact(s, tools, doc, features) && forall id <- s.chunks :: ChunkIntact(s, tools, doc, id)
    ensures Catalogued(s, doc)
  {
    hide ToMap, ChunkIntact, FeaturesOk, BlobMatches, Record.Encode;
    ToMapKeys(doc.records);
    ToMapKeys(doc.chunks);
    ToMapKeys(doc.resources);
    ChunksCatalogued(s, tools, doc);
    assert forall id <- s.records :: RecordIntact(s, tools, doc, features, id);
    assert forall hash <- s.resources :: ResourceIntact(s, tools, doc, hash);
    SameSizeSubset(s.records.Keys, ToMap(doc.records).Keys);
    SameSizeSubset(s.chunks.Keys, ToMap(doc.chunks).Keys);
    SameSizeSubset(s.resources.Keys, ToMap(doc.resources).Keys);
  }
}
