# Tangleaf verification model

A Dafny model of the parts of Tangleaf whose correctness is hard to see, with
proofs over every input, every run or every reachable state. `dafny verify
dfyconfig.toml` checks all of it.

## What is modelled

**The ink file format** (`crates/ink-format`).
`Syntax` is the concrete syntax of CBOR with a printer and a parser, and
`Preflight` the budgeted well-formedness pass as it walks the bytes. `Cbor`,
`CborLaws` and `CborTheorems` hold deterministic encoding, its exact domain and
its inverse; `Floats` the shortest float forms, bit by bit; `Sorting` the key
order. `Fields`, `Records`, `RecordLaws`, `Trees`, `Bodies`, `Model`,
`ModelLaws` and `Typed` are the typed records with their unknown extension
fields. `Codec` is the column codec. A chunk is written by `ChunkWriter`, which
appends to one buffer and patches it in place, and read by `ChunkReader`;
`ChunkLayout`, `ChunkImage`, `ChunkLaws`, `ChunkTiling` and `ChunkTheorems`
connect the two. `Graph`, `Snapshot`, `Ticks`, `SnapshotData` and
`SnapshotValidate` validate a whole snapshot.

**The client snapshot cache** (`src/lib/query.ts`).
`QueryCache` is an entry of the cache and what cancelling, invalidating and
publishing do to it; `QueryEvents` turns domain events into cache actions;
`QueryClient` is the code itself over a mutable cache. `QuerySystem` adds the
backend's history, reads in flight, tickets and every interleaving of them;
`QueryLaws` proves agreement; `QueryStale` shows where it fails.

**The server operation log** (`server/src`, with the batch loop of
`crates/notes-core/src/operation.rs`). `Oplog` is the table, `Replica` the notes,
`Server` ingest, replay and publication, `ServerRuns` whole lives with crashes.
The contents of the notes are represented by the operations applied, in order.

**The embedding pipeline** (`crates/notes-ai`). `Text`, `Chunking`, `Splitting`
and `SplittingLaws` split text; `Embedding` flattens, requests and regroups.

**Hybrid logical clocks** (`crates/notes-core/src/hlc.rs`): `Hlc` over runs of
many devices, `HlcText` for the text form.

**Startup and close** (`src-tauri/src`): `Lifecycle` interleaves the opener, its
supervisor, exit, restore and the drain.

Methods that loop or patch in the program are methods with loops here; what
they compute is stated by functions and predicates, and the promises are
lemmas about those.

## What the libraries are assumed to do

- CRC-32 is any function with value 0 on the empty input; SHA-256 is any function.
- PCO is any compressor and block reader for which reading a compressed stream
  yields the same numbers and every block consumes input (`Codec.Pco`).
- ciborium writes the shortest heads and the shortest float form that keeps the
  value, and reads with at most 32 containers open at once.
- Whether a stroke transform is invertible (a determinant of floats) is a
  parameter, the same for writing and reading.
- The query library: cancelling discards the read in flight, invalidating marks
  the entry and reads it again if it is observed, setting data clears the mark.
  Each commit yields one event, delivered in commit order; a snapshot an event
  does not concern is unchanged by its commit, and one it clears is empty.
- The apply engine may refuse an operation or a projection; a batch is one
  database transaction.

## Where the code does not keep a promise

Each of these is stated as a lemma, with the condition under which the promise
holds.

1. A CBOR value with an empty container at nesting 32 can be encoded but not
   decoded: encoding allows nesting 32, decoding 32 open containers
   (`CborTheorems.DeepestEmptyContainerIsNotReadBack`), and nothing else is refused
   (`CborTheorems.RefusedIffDeepestIsEmpty`).
2. A document that maps a segment to the zero chunk can be written but not read
   (`ModelLaws.DocumentReads`, `ModelLaws.ZeroChunkIsNotReadBack`).
3. When an event changes only the content of blocks, a cached backlink snapshot
   is refreshed if it embeds one of them. If that entry is marked invalid and is
   being read again at that moment, the snapshot inspected is the old one; the
   read may already have sampled a newer one that does embed the block, and lands
   as current data. The cache then holds a stale snapshot that nothing marks
   invalid. `QueryStale.StaleRun` is such a run: a block gains a link to a page,
   and is then edited behind its 80th character while the backlinks of that page
   are still being read again. Agreement holds over every run in which no such
   event leaves alone a backlink entry that is marked invalid and being read
   (`QuerySystem.Exposed`, a condition the client can see). The condition is
   exact: with it the same cache may stand before a backend for which the entry
   ends stale, without it the read is sure to land as the present snapshot
   (`QueryStale.ExposureIsExact`).
4. The notes do not compare payloads when a sequenced operation has the id of an
   authored, unpublished one. Log and notes then part silently; they stay in step
   exactly when no batch reuses such an id (`ServerRuns.InSyncIffHonest`).
5. The splitter's fence flag is not updated at a hard cut. A cut is hard exactly
   when no line ends between the 64th character and the limit
   (`SplittingLaws.NaturalIffLineEnds`), and from the beginning of a line the flag
   stays right exactly if the cut is natural or cuts off an even number of fence
   lines (`SplittingLaws.FlagFromLineStart`). For a piece that begins inside a line
   the line it belongs to counts as well (`SplittingLaws.FlagStaysRight`);
   `SplittingLaws.FlagsRightIff` is the condition for a whole split. A code block
   of one line of more than 1,596 characters gets the wrong flag at its first cut
   (`SplittingLaws.FenceMissed`).
6. A receive is documented to exceed both its inputs, and a device's clocks to
   increase. Both fail when a counter is saturated and nothing is ahead of it
   (`Hlc.ReceiveFollows` and `Hlc.LocalFollows` say exactly when; `Hlc.CausalIff`
   and `Hlc.DistinctIff` say it of whole runs). Clocks parsed from pushed operations
   are received with any counter, so one of them is enough: after it every
   operation sent carries the same clock until physical time has passed it
   (`Hlc.PushedRepeats`). Without it, saturation takes 2^32 events
   (`Hlc.CounterBounded`).

## Model

| member | source | states |
|---|---|---|
| `Preflight.Preflight` | crates/ink-format/src/cbor.rs:111-162 | the pass succeeds if and only if the input prints back from one syntax tree of supported, definite-length items with no bytes left, nesting at most 32 and at most 1,000,000 items |
| `Preflight.CheckItem` | crates/ink-format/src/cbor.rs:112-158 | one item: success exactly when the grammar parses one here within the remaining depth and budget; on success the position is behind it and the budget has lost its item count |
| `Preflight.CheckItems` | crates/ink-format/src/cbor.rs:142-153 | the loop over a container's items, against the grammar for that many items |
| `Preflight.AcceptsIsWellFormed` | crates/ink-format/src/cbor.rs:111-162 | the recursive acceptance condition and the declarative one (some syntax tree prints to exactly this input) are the same |
| `Syntax.ParsePrint` | crates/ink-format/src/cbor.rs:111-162 | parsing a printed item, whatever follows it, gives the item and what follows (RFC 8949, section 3) |
| `Syntax.PrintParse` | crates/ink-format/src/cbor.rs:111-162 | an input that parses is the printed item followed by the rest: every accepted byte is accounted for |
| `Floats.Narrow16Widen` | crates/ink-format/src/cbor.rs:61-64 | widening a half-precision float and narrowing again gives the same bits, so the shortest form is stable |
| `Floats.Narrow32Widen` | crates/ink-format/src/cbor.rs:61-64 | the same for single precision |
| `CborLaws.CanonicalSucceeds` | crates/ink-format/src/cbor.rs:24-60 | the canonical form of a value exists exactly when the value is supported, repeats no map key at any depth and does not nest too deep |
| `CborLaws.CanonicalIsInOrder` | crates/ink-format/src/cbor.rs:24-60 | the canonical form has every map in key order, and nests and opens as many containers as the value |
| `CborTheorems.CanonicalIsSame` | crates/ink-format/src/cbor.rs:24-60 | the canonical form differs from the value in map order only |
| `CborLaws.SerializeIsInjective` | crates/ink-format/src/cbor.rs:61-64 | different supported values have different bytes |
| `CborTheorems.EncodeSucceeds` | crates/ink-format/src/cbor.rs:23-65 | encoding succeeds exactly for supported values with distinct keys within the nesting, byte and item limits, all of them independent of map order |
| `CborTheorems.DecodeEncode` | crates/ink-format/src/cbor.rs:23-77 | decoding an encoding gives the value with every map in key order if at most 32 containers are open at once, and fails otherwise |
| `CborTheorems.EncodeDecode` | crates/ink-format/src/cbor.rs:67-77 | what is decoded is in key order and encodes to the very bytes it came from |
| `CborTheorems.DecodeSucceeds` | crates/ink-format/src/cbor.rs:67-77 | the accepted inputs are exactly the encodings of values with at most 32 containers open at once |
| `CborTheorems.EncodingsAgree` | crates/ink-format/src/cbor.rs:23-65 | two values have one encoding exactly if they differ only in map order (RFC 8949, section 4.2.1) |
| `CborTheorems.DeepestEmptyContainerIsNotReadBack` | crates/ink-format/src/cbor.rs:25-25 | an empty array inside 32 arrays is written but not read: the inverse fails there |
| `CborTheorems.ContainersWithinNesting` | crates/ink-format/src/cbor.rs:70-71 | a value opens at most one container more than it nests, and that many exactly if an empty container is its deepest |
| `CborTheorems.RefusedIffDeepestIsEmpty` | crates/ink-format/src/cbor.rs:23-77 | the gap is exact: what the writer accepts the reader refuses if and only if an empty container is nested 32 deep |
| `Fields.FindInPlace` | crates/ink-format/src/cbor.rs:79-87 | in a map whose n-th field has key n, looking up key n finds the n-th field |
| `RecordLaws.RecordDecodeEncode` | crates/ink-format/src/record.rs:76-150 | decoding an encoded record gives the record with its body and extensions in key order, exactly when these leave the reader room for the envelope |
| `RecordLaws.RecordEncodeDecode` | crates/ink-format/src/record.rs:76-150 | a decoded record encodes to the bytes it was read from |
| `RecordLaws.RecordRoundTrip` | crates/ink-format/src/record.rs:106-150 | a record with body and extensions in key order is read back unchanged |
| `Bodies.AssembledReads` | crates/ink-format/src/model.rs:81-110 | every field and every extension of an assembled body is read back |
| `Bodies.Rebuild` | crates/ink-format/src/model.rs:87-110 | a body in key order that was read completely is assembled again from its fields and extensions, unknown ones included |
| `Bodies.ToFieldsAscend` | crates/ink-format/src/model.rs:100-110 | a map collected by integer key is in the deterministic order: the order of the keys is the order of their encodings |
| `Typed.CollectExtras` | crates/ink-format/src/model.rs:87-99 | the loop that keeps unknown fields at or above 0x8000, refuses smaller ones, and lets a repeated key replace the earlier |
| `ModelLaws.BackgroundReads` | crates/ink-format/src/model.rs:156-201 | reading a written Background gives it back |
| `ModelLaws.BackgroundRebuilds` | crates/ink-format/src/model.rs:156-201 | a value in key order that reads as a Background is written as that same value, extensions kept |
| `ModelLaws.PageReads` | crates/ink-format/src/model.rs:225-280 | reading a written Page gives it back |
| `ModelLaws.PageRebuilds` | crates/ink-format/src/model.rs:225-280 | a value in key order that reads as a Page is written as that same value, extensions kept |
| `ModelLaws.StrokeReads` | crates/ink-format/src/model.rs:298-349 | reading a written Stroke gives it back |
| `ModelLaws.StrokeRebuilds` | crates/ink-format/src/model.rs:298-349 | a value in key order that reads as a Stroke is written as that same value, extensions kept |
| `ModelLaws.GeometryReads` | crates/ink-format/src/model.rs:379-470 | reading a written Geometry gives it back |
| `ModelLaws.GeometryRebuilds` | crates/ink-format/src/model.rs:379-470 | a value in key order that reads as a Geometry is written as that same value, extensions kept |
| `ModelLaws.SourceProfileReads` | crates/ink-format/src/model.rs:523-581 | reading a written SourceProfile gives it back |
| `ModelLaws.SourceProfileRebuilds` | crates/ink-format/src/model.rs:523-581 | a value in key order that reads as a SourceProfile is written as that same value, extensions kept |
| `ModelLaws.BrushReads` | crates/ink-format/src/model.rs:591-616 | reading a written Brush gives it back |
| `ModelLaws.BrushRebuilds` | crates/ink-format/src/model.rs:591-616 | a value in key order that reads as a Brush is written as that same value, extensions kept |
| `ModelLaws.SessionReads` | crates/ink-format/src/model.rs:764-798 | reading a written Session gives it back |
| `ModelLaws.SessionRebuilds` | crates/ink-format/src/model.rs:764-798 | a value in key order that reads as a Session is written as that same value, extensions kept |
| `ModelLaws.DocumentReads` | crates/ink-format/src/model.rs:655-754 | reading a written Document gives it back exactly when no segment is mapped to the zero chunk |
| `ModelLaws.ZeroChunkIsNotReadBack` | crates/ink-format/src/model.rs:655-754 | a document that maps a segment to the zero chunk is written and not read |
| `ModelLaws.DocumentRebuilds` | crates/ink-format/src/model.rs:655-754 | a value in key order that reads as a Document is written as that same value |
| `Typed.PublishedRecordReads` | crates/ink-format/src/model.rs:18-37 | a published body survives the bytes: the decoded record is the one made, and declares every reference of the body |
| `Typed.PublishedStroke` | crates/ink-format/src/model.rs:18-37 | a stroke is read back from the bytes it is published as |
| `Typed.PublishedGeometry` | crates/ink-format/src/model.rs:18-37 | the same for a geometry |
| `Typed.PublishedPage` | crates/ink-format/src/model.rs:18-37 | the same for a Page |
| `Typed.PublishedSourceProfile` | crates/ink-format/src/model.rs:18-37 | the same for a SourceProfile |
| `Typed.PublishedBrush` | crates/ink-format/src/model.rs:18-37 | the same for a Brush |
| `Typed.PublishedSession` | crates/ink-format/src/model.rs:18-37 | the same for a Session |
| `Typed.PublishedDocument` | crates/ink-format/src/model.rs:18-37 | a document is read back from the bytes it is published as exactly if no segment of it names the zero chunk |
| `Typed.ReadStrokeIsRewritten` | crates/ink-format/src/model.rs:27-37 | a stroke read from record bytes, written again, reproduces those bytes |
| `Typed.ReadGeometryIsRewritten` | crates/ink-format/src/model.rs:27-37 | the same for a geometry |
| `Typed.ReadPageIsRewritten` | crates/ink-format/src/model.rs:27-37 | the same for a page |
| `Typed.ReadDocumentIsRewritten` | crates/ink-format/src/model.rs:27-37 | the same for a document |
| `Typed.ReadSourceProfileIsRewritten` | crates/ink-format/src/model.rs:27-37 | the same for a SourceProfile |
| `Typed.ReadBrushIsRewritten` | crates/ink-format/src/model.rs:27-37 | the same for a Brush |
| `Typed.ReadSessionIsRewritten` | crates/ink-format/src/model.rs:27-37 | the same for a Session |
| `Typed.CoverParts` | crates/ink-format/src/model.rs:379-391 | the coverage loop; when it succeeds the parts tile [0, end) |
| `Typed.PartsTile` | crates/ink-format/src/model.rs:379-391 | the coverage loop accepts exactly named, non-empty parts that follow each other without gap or overlap within 32 bits |
| `Codec.DecodeNumbers` | crates/ink-format/src/codec.rs:113-141 | the block loop succeeds exactly on a complete stream of exactly `count` numbers with nothing behind it, and returns them in order |
| `Codec.JoinSplit` | crates/ink-format/src/codec.rs:77-110 | splitting bytes into little-endian scalars and joining them is the identity |
| `Codec.CodecRoundTrip` | crates/ink-format/src/codec.rs:77-163 | decompressing a compressed column gives its bytes, for every type |
| `Tiling.SweepTiles` | crates/ink-format/src/chunk.rs:364-371 | the sweep over sorted ranges succeeds exactly when they are disjoint, in bounds, end the buffer, and every byte none of them covers is zero |
| `Tiling.TiledSorted` | crates/ink-format/src/chunk.rs:364-371 | whether ranges tile a buffer does not depend on the order they are listed in |
| `ChunkReader.ReadSegments` | crates/ink-format/src/chunk.rs:207-224 | the segment loop accepts exactly distinct, non-zero, non-empty segments with zero reserved bytes whose counts sum to the point count |
| `ChunkReader.ReadColumns` | crates/ink-format/src/chunk.rs:236-357 | the column loop succeeds exactly when every entry can be read, semantics strictly increase and the decoded total stays within the limit; it returns the columns, ranges and total |
| `ChunkReader.CheckTiling` | crates/ink-format/src/chunk.rs:364-371 | the sweep loop decides the declarative tiling condition |
| `ChunkReader.ReadLayout` | crates/ink-format/src/chunk.rs:168-381 | reading succeeds exactly on the accepted bytes and returns the chunk they describe and its decoded size |
| `ChunkReader.Decode` | crates/ink-format/src/chunk.rs:156-158 | decoding, likewise |
| `ChunkReader.DecodedValueBytes` | crates/ink-format/src/chunk.rs:164-166 | measuring, likewise without values |
| `ChunkTheorems.MeasuredSize` | crates/ink-format/src/chunk.rs:164-166 | whatever can be decoded can be measured, and the size is the sum of the value lengths that decoding returns |
| `ChunkTheorems.RangesInPlace` | crates/ink-format/src/chunk.rs:226-295 | every range of a readable column lies in the directory or behind it, in bounds |
| `ChunkTheorems.RequiredAxes` | crates/ink-format/src/chunk.rs:305-337 | in an accepted chunk the required axes have no bitmap and a value for every sample of its segments |
| `ChunkLayout.ReadPut` | crates/ink-format/src/chunk.rs:26-36 | a patched field reads back as the value put, and every field beside it is unchanged |
| `ChunkLaws.ColumnReads` | crates/ink-format/src/chunk.rs:84-131 | reading a written column entry succeeds exactly when the axis rules hold, and gives the column back: flags, bitmap (the all-null case included) and values |
| `ChunkLaws.HeaderAccepted` | crates/ink-format/src/chunk.rs:70-78 | the written header passes every check and states the counts and offsets that were laid out |
| `ChunkLaws.SegmentsRead` | crates/ink-format/src/chunk.rs:79-83 | the written segment table reads back as the segments |
| `ChunkTiling.ImageTiled` | crates/ink-format/src/chunk.rs:120-143 | the written parameters, bitmaps and payloads tile everything behind the tables |
| `ChunkTheorems.ImageAccepted` | crates/ink-format/src/chunk.rs:53-154 | the reader accepts the written bytes exactly when identifiers, segments, axes, order and size are right, and then reads that very chunk |
| `ChunkWriter.LayColumn` | crates/ink-format/src/chunk.rs:84-131 | one turn of the column loop: fails exactly when a check fails; otherwise the entry is patched, parameters and bitmap are appended, and nothing else changes |
| `ChunkWriter.LayColumns` | crates/ink-format/src/chunk.rs:84-131 | the column loop, over the growing buffer |
| `ChunkWriter.LayPayloads` | crates/ink-format/src/chunk.rs:133-143 | the payload loop: each entry gets the place, length and checksum of its payload |
| `ChunkWriter.Seal` | crates/ink-format/src/chunk.rs:144-150 | patching sizes and checksums turns the buffer into the laid-out sections one after the other |
| `ChunkWriter.Encode` | crates/ink-format/src/chunk.rs:53-154 | encoding succeeds exactly when the chunk is encodable; the bytes are accepted by the reader and read back as the same chunk, for both encodings |
| `Graph.ShortMeansPaths` | crates/ink-format/src/snapshot.rs:164-224 | bounded depth, as the walk checks it, means that every path stays in the graph and has at most that many records |
| `Graph.ShortIsAcyclic` | crates/ink-format/src/snapshot.rs:174-174 | nothing of bounded depth lies on a cycle |
| `Graph.OrderedIsAcyclic` | crates/ink-format/src/snapshot.rs:218-222 | a graph whose records can be listed each behind those it refers to is closed and has no cycle |
| `Snapshot.Visit` | crates/ink-format/src/snapshot.rs:164-224 | the depth-first walk: on success everything below the record is checked and finished after what it refers to, only reachable records were added, and the active set is restored; it succeeds whenever all below is fine and no path is too long for the depth |
| `Snapshot.WalkRecords` | crates/ink-format/src/snapshot.rs:229-235 | acceptance means closed, acyclic, every record fine and every catalogued record reachable; such a graph is accepted if no path from the root has more than 65 records |
| `Snapshot.ValidateMetadata` | crates/ink-format/src/snapshot.rs:161-250 | the same with pages and with referenced resources equal to those present |
| `Ticks.CheckRun` | crates/ink-format/src/snapshot.rs:118-142 | the loop over a part's samples accepts exactly a zero first delta, a start not before the prior tick, and no overflow of tick or session time |
| `Ticks.RunFollows` | crates/ink-format/src/snapshot.rs:118-142 | checking part after part is the same as: over all samples of all parts ticks never decrease and every session time fits in 64 bits |
| `SnapshotData.DecodeChunks` | crates/ink-format/src/snapshot.rs:51-57 | every chunk matches the catalog, decodes and has its identifier |
| `SnapshotData.RunIsValid` | crates/ink-format/src/snapshot.rs:104-120 | every sample of a timed part has a delta in its chunk, so no access is out of range |
| `SnapshotValidate.CheckGeometry` | crates/ink-format/src/snapshot.rs:63-146 | the loop over a geometry's parts decides the declarative condition and adds exactly its segments to those used |
| `SnapshotValidate.CheckGeometries` | crates/ink-format/src/snapshot.rs:59-147 | the loop over all geometry records; the used segments are exactly those named |
| `SnapshotValidate.Validate` | crates/ink-format/src/snapshot.rs:23-155 | what is accepted is sound, every mapped segment and every chunk being used; a sound snapshot without a path of more than 65 records is accepted |
| `SnapshotValidate.CatalogIsExact` | crates/ink-format/src/snapshot.rs:31-57 | by counting, the catalog of a sound snapshot lists exactly the records, chunks and resources present |
| `QueryCache.ActsOn` | src/lib/query.ts:166-295 | the effect of a list of cache actions on one entry: if any concerns it, its reads and tickets are retired and its data is marked invalid or cleared; otherwise it is untouched or removed |
| `QueryEvents.ForgottenIsRefreshed` | src/lib/query.ts:222-256 | an inactive null is only dropped where a refresh of the same key follows |
| `QueryClient.Client.CaptureSnapshotPublication` | src/lib/query.ts:65-70 | the ticket names the cached query, made if absent, in its present epoch |
| `QueryClient.Client.RefreshQueries` | src/lib/query.ts:76-85 | advances the epochs, cancels the reads and invalidates exactly the selected queries |
| `QueryClient.Client.PublishQuerySnapshot` | src/lib/query.ts:87-108 | accepts exactly current tickets; otherwise only an idle entry is read again |
| `QueryClient.Client.PublishSnapshot` | src/lib/query.ts:110-126 | retires earlier reads, then stores the snapshot, or reads again when there is nothing to patch |
| `QueryClient.Client.ApplyCommittedChanges` | src/lib/query.ts:166-295 | the loops over the change set have the effect of its list of cache actions |
| `QueryClient.Client.ApplyDomainEvent` | src/lib/query.ts:128-164 | handling an event is exactly its delivery in the interleaving model |
| `QueryLaws.StepKeeps` | src/lib/query.ts:65-126 | every step of commits, deliveries, reads, captures, acknowledgements and evictions keeps: unmarked data, sampled reads and current tickets are as of a version no older than the events delivered, or an event concerning them is still to come |
| `QueryLaws.Agreement` | src/lib/query.ts:65-126 | in every run, once all events are delivered every snapshot not marked invalid is the backend's present one (no event having left alone a backlink entry that was marked invalid and being read) |
| `QueryLaws.NoLateReads` | src/lib/query.ts:77-83 | no read begun before a delivered event that concerns its key is still in flight |
| `QueryStale.ValidLandsFresh` | src/lib/query.ts:271-285 | the read of an entry the last event leaves alone lands as the present snapshot if the entry is not marked invalid |
| `QueryStale.ExposedMayLandStale` | src/lib/query.ts:271-285 | for every state that keeps the invariant and in which the entry is marked invalid, there is one with the same events, tickets and entries, except for what the read has sampled, in which it lands stale |
| `QueryStale.ExposureIsExact` | src/lib/query.ts:271-285 | hence the guard is exact: such a read is sure to land as the present snapshot if and only if the entry is not marked invalid |
| `QueryStale.StaleRun` | src/lib/query.ts:271-285 | a concrete run that ends with all events delivered, no read in flight, and a stale backlink snapshot not marked invalid |
| `QueryStale.EditActions` | src/lib/query.ts:222-288 | an edit of one block refreshes the entries of its page and its own; all backlinks if it changed the graph, otherwise those found to embed the block |
| `Oplog.CountFindsGaps` | server/src/oplog.rs:148-163 | as many rows as the highest number means that the numbers are exactly 1 to n |
| `Oplog.OplogTable.AssertGapless` | server/src/oplog.rs:148-163 | opening succeeds exactly on a table without gap |
| `Oplog.OplogTable.Append` | server/src/oplog.rs:37-87 | idempotent append: the same operation answers with its place, a reused id fails and changes nothing, a new one gets the next number |
| `Oplog.OplogTable.RemoveTail` | server/src/oplog.rs:89-109 | only the last row can be removed, and only if it is the named operation |
| `Oplog.OplogTable.OpsSince` | server/src/oplog.rs:123-146 | the entries after the cursor in order, at most the limit |
| `Oplog.OplogTable.LatestSeq` | server/src/oplog.rs:111-121 | the highest number is the length of the log |
| `Replica.ApplySequencedBatch` | crates/notes-core/src/operation.rs:824-954 | the transaction loop, against the batch as a fold that applies all or nothing |
| `ReplicaLaws.ApplyNext` | crates/notes-core/src/operation.rs:865-927 | the next entry is applied once, or only stamped if it was authored here, and only the engine can refuse it |
| `ReplicaLaws.ApplySince` | server/src/state.rs:333-351 | replaying the entries behind the cursor applies each once, in order, and moves the cursor to the last |
| `ReplicaLaws.IngestApplies` | server/src/state.rs:462-471 | the sequence numbers of a batch just appended never look like a gap or a conflict to the notes |
| `Server.AppendAllSucceeds` | server/src/oplog.rs:37-87 | appending a batch succeeds exactly when no id stands for two operations, in log and batch together |
| `Server.User.RollBack` | server/src/state.rs:455-457 | the reverse roll-back never trips the tail guard and restores the log exactly |
| `Server.User.Ingest` | server/src/state.rs:439-483 | success is one entry per input; failure leaves log and notes as they were |
| `Server.IngestKeeps` | server/src/state.rs:439-483 | every accepted entry is its input at its place in the log, log and notes stay in step, and the only failures are size, reused ids and the engine |
| `Server.User.ReplayOplog` | server/src/state.rs:333-351 | replay terminates, visits each later entry once in order, and ends with the cursor at the latest number unless the engine refuses |
| `Server.User.PublishAuthoredOps` | server/src/state.rs:316-330 | the drain loop terminates with an empty outbox and everything that waited in the log |
| `ServerRuns.StepKeeps` | server/src/state.rs:439-483 | batches, authored operations, partial replays and crashes between append and apply keep log and notes in step |
| `ServerRuns.NotesAreThePrefix` | server/src/state.rs:333-351 | in every reachable state of a server that authors nothing, the notes have applied exactly the log up to the cursor, in order |
| `ServerRuns.NotesAreTheLog` | server/src/state.rs:277-330 | in every reachable state the notes are the fold of the log up to the cursor followed by the outbox, if the order of operations does not matter |
| `ServerRuns.InSyncIffHonest` | crates/notes-core/src/operation.rs:886-920 | a successful ingest leaves log and notes in step exactly when no operation reuses the id of an unpublished one for another payload |
| `ServerRuns.ReusedIdDiverges` | crates/notes-core/src/operation.rs:886-920 | such a reuse: the log records one operation, the notes keep the other, and nothing waits any more |
| `Text.CharsBefore` | crates/notes-ai/src/chunking.rs:186-191 | a byte position between two characters is found as its character position |
| `Chunking.NaturalBoundaries` | crates/notes-ai/src/chunking.rs:148-180 | every boundary stands behind a newline, its byte and character positions are the same place, its flag is the parity of the fence lines before it, its kind is that of its line, and every line that ends in reach has one |
| `Chunking.Select` | crates/notes-ai/src/chunking.rs:102-130 | the best kind in the window nearest to the target (the first of equals), else the furthest boundary that is not too near, else none |
| `Splitting.SplitBody` | crates/notes-ai/src/chunking.rs:87-146 | the loop terminates and its chunks are a split: each piece is cut at the chosen boundary or hard at the limit, and the fence flag is carried on |
| `SplittingLaws.SplitConserves` | crates/notes-ai/src/chunking.rs:87-146 | the chunks hold exactly the non-whitespace characters of the body, in order |
| `SplittingLaws.SplitSizes` | crates/notes-ai/src/chunking.rs:87-146 | every chunk of a non-blank body has at least one and at most `max` characters |
| `SplittingLaws.SplitKeepsLines` | crates/notes-ai/src/chunking.rs:99-141 | if no line is longer than `max - 64`, every cut is right behind a newline and the carried flag is the parity of the fence lines so far |
| `SplittingLaws.NaturalIffLineEnds` | crates/notes-ai/src/chunking.rs:117-137 | a cut is natural exactly when a line ends between the 64th character and the limit; a hard cut carries the flag over unchanged, whatever fences it cuts off |
| `SplittingLaws.FlagFromLineStart` | crates/notes-ai/src/chunking.rs:117-137 | from the beginning of a line with a right flag, the flag behind a piece is right exactly if a line ends in reach or the hard cut cuts off an even number of fences |
| `SplittingLaws.FlagStaysRight` | crates/notes-ai/src/chunking.rs:117-137 | the same from any place, the line the piece begins in counted as a whole |
| `SplittingLaws.FlagsRightIff` | crates/notes-ai/src/chunking.rs:87-146 | over a whole split: the flags are right up to a cut exactly if every piece before it keeps the flag right |
| `SplittingLaws.KeepsLinesIff` | crates/notes-ai/src/chunking.rs:87-146 | every cut falls behind a newline and carries the right flag exactly if every piece finds the end of a line in reach |
| `SplittingLaws.FenceMissed` | crates/notes-ai/src/chunking.rs:117-141 | a code block of one line of more than 1,596 characters: the first cut falls into the code and the flag carried on denies it |
| `Text.FencesMeet` | crates/notes-ai/src/chunking.rs:148-180 | the fence lines of two texts add up except for the line in which they meet |
| `SplittingLaws.CapProviderInput` | crates/notes-ai/src/chunking.rs:58-70 | at most 8000 characters; shorter inputs are unchanged |
| `SplittingLaws.SplitForEmbedding` | crates/notes-ai/src/chunking.rs:23-56 | indices 0 to k-1, every text within 8000 characters, each the header and one piece of the split |
| `Hlc.LocalFollows` | crates/notes-core/src/hlc.rs:41-72 | a send or receive is later than the device's previous clock exactly when something is ahead of that clock or its counter is not saturated; otherwise it is that clock again |
| `Hlc.ReceiveFollows` | crates/notes-core/src/hlc.rs:52-72 | exactly when a receive is later than both its inputs |
| `Hlc.CausalIff` | crates/notes-core/src/hlc.rs:41-72 | in any run, clocks pushed from outside included, clocks increase along causality exactly if every event finds the clocks it builds upon able to advance |
| `Hlc.DistinctIff` | crates/notes-core/src/hlc.rs:41-72 | in any run no clock is issued twice exactly if every event finds its device's previous clock able to advance |
| `Hlc.PushedRepeats` | crates/notes-core/src/operation.rs:3520-3538 | the receipt of one pushed clock with a saturated counter makes everything sent carry the same clock until physical time has passed it |
| `Hlc.CounterBounded` | crates/notes-core/src/hlc.rs:41-72 | a counter exceeds those pushed from outside by no more than the number of events |
| `Hlc.Causality` | crates/notes-core/src/hlc.rs:41-72 | so in a run with room in its counters, causally ordered events have strictly increasing clocks |
| `Hlc.AllDistinct` | crates/notes-core/src/hlc.rs:41-72 | and all its clocks are distinct |
| `Hlc.WallIsMax` | crates/notes-core/src/hlc.rs:41-72 | wall time is the greatest physical reading or pushed wall time in the causal past |
| `HlcText.ParseFormat` | crates/notes-core/src/hlc.rs:75-103 | parsing the text form gives the clock back |
| `HlcText.FormatOrder` | crates/notes-core/src/hlc.rs:8-13 | the order of the strings is the order of the clocks, for all clocks |
| `Lifecycle.StartupLifecycle.RetainApplicationLock` | src-tauri/src/startup.rs:52-59 | keeping the lock is the RetainLock step of the interleaving model |
| `Lifecycle.StartupLifecycle.RetainStore` | src-tauri/src/startup.rs:79-87 | keeping the store is the RetainStore step |
| `Lifecycle.StartupLifecycle.ReleaseApplicationLock` | src-tauri/src/startup.rs:61-68 | releasing the lock is the last step of an exit whose drain did not break |
| `Lifecycle.StartupLifecycle.Stop` | src-tauri/src/startup.rs:111-117 | stopping is the RequestExit step |
| `Lifecycle.StartupLifecycle.WhileStarting` | src-tauri/src/startup.rs:97-109 | the gate lets an action through exactly when, in the interleaving model, the opener becomes ready or the supervisor reports |
| `Lifecycle.StartupLifecycle.Finish` | src-tauri/src/startup.rs:146-187 | finishing, or dropping an unfinished registration, is the Supervise or the FailSetup step |
| `Lifecycle.WorkspaceShutdown.BeginClose` | src-tauri/src/workspace.rs:73-96 | only the first caller starts a drain, as in the interleaving model |
| `Lifecycle.WorkspaceShutdown.Begin` | src-tauri/src/workspace.rs:66-71 | stopping the startup and beginning to close is the ExitCloses or the RestoreCloses step, on both objects |
| `Lifecycle.WorkspaceShutdown.Report` | src-tauri/src/workspace.rs:88-94 | passing on the outcome of the drain is the ReportDrain step |
| `Lifecycle.StepKeeps` | src-tauri/src/workspace.rs:73-155 | every step of opener, supervisor, exit, restore and drain, panics included, keeps the ownership invariant, uses up a step, and publishes nothing after the stop |
| `Lifecycle.Ownership` | src-tauri/src/workspace.rs:73-155 | over every interleaving: the store is open only while the lock is held; a closed-workspace token exists only with the startup over, the store closed and its own share of the lock; at most one drain runs |
| `Lifecycle.TokenIsForGood` | src-tauri/src/workspace.rs:143-154 | once minted the token stays, keeps its share of the lock, and the store stays closed |
| `Lifecycle.NothingPublishedAfterStop` | src-tauri/src/startup.rs:97-117 | after stop neither readiness and sync nor a failure is published |
| `Lifecycle.LockIsThereToMint` | src-tauri/src/workspace.rs:146-148 | the error for a missing lock cannot occur |
| `Lifecycle.ExitFinishes` | src-tauri/src/workspace.rs:98-110 | every run is finite, and one that cannot go on has finished a requested exit |
| `Embedding.Assemble` | crates/notes-ai/src/embed.rs:843-869 | one document per job that did not fail, in order, each with its own chunks and vectors |
| `Embedding.RequestEach` | crates/notes-ai/src/embed.rs:789-824 | a job fails exactly if a request for one of its chunks fails, with its first failure; every other chunk has the vector of its own request |
| `Embedding.EmbedIndividually` | crates/notes-ai/src/embed.rs:782-841 | the fallback path, with exactly one record per failed job |
| `Embedding.Tick` | crates/notes-ai/src/embed.rs:689-749 | one round, on the batch path, the fallback and the deferral |
| `Embedding.EveryJobOnce` | crates/notes-ai/src/embed.rs:689-869 | every job is recorded failed exactly once or yields exactly one document whose chunks are its own split in order, each with its own vector |

## Left out

- Internals of ciborium, PCO, CRC-32, SHA-256, SQLite, tokio and the TanStack query library: only the facts listed above are used.
- The apply engine and its last-writer-wins merge: an operation is accepted or refused, and its effect is its place in the history.
- Snapshot.Visit: acceptance does not bound path length, because visited records are not walked again; so soundness holds for all accepted snapshots, and acceptance is promised for paths of at most 65 records.
- Snapshot.Visit: the visited and active sets are passed in and out instead of being borrowed mutably; the snapshot itself is a value.
- ChunkWriter.Encode: the buffer is a sequence that is reassigned, since the vector it models grows; allocation limits are not modelled.
- Error values: which of several failing checks is reported first is not stated, only that one is.
- QueryLaws.Agreement: captures are not modelled for backlink keys, which no caller captures, and the local search signal is not a backend snapshot.
- Direct writes of query data by views, such as src/features/journal/journal-entry.tsx:204, src/features/outliner/outliner.tsx:152 and src/features/pages/use-notes-workspace.ts:129: they set backend keys without an epoch, and are no step of the model.
- Query retries, garbage-collection timers and failed fetches beyond dropping the read: an eviction or a failed read is a step that may happen at any time.
- Server.User.PublishAuthoredOps: writers that author while it drains, and outbox entries held in quarantine, are not interleaved with the loop.
- Periodic snapshot files, broadcasts, and readers interleaved inside an ingest: one ingest is atomic for readers.
- Bootstrap of a replica from a client's snapshot: a guard on empty state before an import that is not part of this model.
- SplittingLaws.SplitForEmbedding: the chunk index is unbounded, where the program truncates it to 32 bits.
- Embedding.Tick: the store's reconciliation and the writes of documents and failure records are input and output and left out.
- Typed.PublishedPage: the identifiers a page refers to are taken to fit one vector, which the program collects them into.
- Lifecycle.Ownership: the opener does not panic between opening the store and retaining it, which the program does without an await; dropping the supervisor at runtime shutdown is left out.
- Streams around chunks, quota checks, re-ranking, hexadecimal parsing of settings: easy to see and not worth a proof.
- HTTP and WebSocket handlers, OAuth, the chat agent, provider clients, settings files, image decoding and the user interface: input and output.
