/** Typed records: a body inside its envelope, with its references declared. */
module Typed {
  import opened Bytes
  import opened Results
  import opened Sorting
  import opened Trees
  import opened Cbor
  import opened CborLaws
  import opened CborTheorems
  import opened Fields
  import opened Records
  import opened RecordLaws
  import opened Model
  import opened ModelLaws

  predicate Declares(r: Record, ids: seq<Id>) {
    forall i :: 0 <= i < |ids| ==> ids[i] in r.dependencies
  }

  function PageOf(r: Record): (p: Result<Page>) {
    if r.kind != PAGE then Err(InvalidData)
    else
      var x :- ReadPage(r.body);
      if Declares(r, x.Dependencies()) then Ok(x) else Err(InvalidData)
  }

  function StrokeOf(r: Record, invertible: Invertible): (s: Result<Stroke>) {
    if r.kind != STROKE then Err(InvalidData)
    else
      var x :- ReadStroke(r.body, invertible);
      if Declares(r, x.Dependencies()) then Ok(x) else Err(InvalidData)
  }

  function GeometryOf(r: Record): (g: Result<Geometry>) {
    if r.kind != GEOMETRY then Err(InvalidData)
    else
      var x :- ReadGeometry(r.body);
      if Declares(r, x.Dependencies()) then Ok(x) else Err(InvalidData)
  }

  function SourceProfileOf(r: Record): (p: Result<SourceProfile>) {
    if r.kind != SOURCE_PROFILE then Err(InvalidData) else ReadSourceProfile(r.body)
  }

  function BrushOf(r: Record): (b: Result<Brush>) {
    if r.kind != BRUSH then Err(InvalidData) else ReadBrush(r.body)
  }

  function SessionOf(r: Record): (s: Result<Session>) {
    if r.kind != SESSION then Err(InvalidData) else ReadSession(r.body)
  }

  function DocumentOf(r: Record): (d: Result<Document>) {
    if r.kind != DOCUMENT then Err(InvalidData)
    else
      var x :- ReadDocument(r.body);
      if Declares(r, x.Dependencies()) then Ok(x) else Err(InvalidData)
  }

  // ---- making a record from a body ----

  /** The identifiers sorted, each once. */
  function SortedIds(ids: seq<Id>): (r: seq<Id>)
    ensures forall i :: 0 <= i < |r| - 1 ==> Less(r[i], r[i + 1])
    ensures |r| <= |ids|
  {
    var es := seq(|ids|, i requires 0 <= i < |ids| => Keyed(ids[i], ()));
    GatherKeyedLength(es, 16);
    var t := GatherKeyed(es);
    seq(|t|, i requires 0 <= i < |t| => t[i].key)
  }

  lemma {:induction false} PutKeyedHas<V(!new)>(t: seq<Keyed<V>>, e: Keyed<V>, key: seq<u8>)
    requires Ascending(t)
    ensures (exists x <- PutKeyed(t, e) :: x.key == key) <==> e.key == key || exists x <- t :: x.key == key
  {
    if t != [] {
      assert t == [t[0]] + t[1..];
      if !Less(e.key, t[0].key) && e.key != t[0].key {
        PutKeyedHas(t[1..], e, key);
        var rest := PutKeyed(t[1..], e);
        assert forall x :: x in [t[0]] + rest <==> x == t[0] || x in rest;
      } else if Less(e.key, t[0].key) {
        assert forall x :: x in [e] + t <==> x == e || x in t;
      } else {
        assert forall x :: x in [e] + t[1..] <==> x == e || x in t[1..];
        assert forall x :: x in t <==> x == t[0] || x in t[1..];
      }
    } else {
      assert e in [e];
    }
  }

  lemma {:induction false} GatherKeyedHas<V(!new)>(es: seq<Keyed<V>>, key: seq<u8>)
    ensures (exists x <- GatherKeyed(es) :: x.key == key) <==> exists x <- es :: x.key == key
  {
    if es != [] {
      var n := |es| - 1;
      GatherKeyedHas(es[..n], key);
      PutKeyedHas(GatherKeyed(es[..n]), es[n], key);
      assert es == es[..n] + [es[n]];
    }
  }

  lemma SortedIdsHave(ids: seq<Id>, id: Id)
    ensures id in SortedIds(ids) <==> id in ids
  {
    hide GatherKeyed;
    var es := seq(|ids|, i requires 0 <= i < |ids| => Keyed(ids[i], ()));
    var t := GatherKeyed(es);
    GatherKeyedHas(es, id);
    if id in ids {
      var i :| 0 <= i < |ids| && ids[i] == id;
      assert es[i] in es && es[i].key == id;
      var x :| x in t && x.key == id;
      var j :| 0 <= j < |t| && t[j] == x;
      assert SortedIds(ids)[j] == id;
    }
    if id in SortedIds(ids) {
      var j :| 0 <= j < |t| && t[j].key == id;
      assert t[j] in t;
      var x :| x in es && x.key == id;
    }
  }

  /** The record a body of the given kind is published as. */
  function RecordOf(kind: u64, id: Id, body: Value, dependencies: Vec<Id>): (r: Result<Record>) {
    var record := Record(kind, id, body, [1], Map([]), SortedIds(dependencies), []);
    var _ :- record.Encode();
    Ok(record)
  }

  /** A published body survives the bytes: the decoded record is the one that was made and
      declares every reference of the body. */
  lemma PublishedRecordReads(kind: u64, id: Id, body: Value, dependencies: Vec<Id>)
    requires RecordOf(kind, id, body, dependencies).Ok?
    requires InOrder(body) && Containers(body) < READER_LIMIT
    ensures var r := RecordOf(kind, id, body, dependencies).value;
            && r.Encode().Ok? && Records.Decode(r.Encode().value) == Ok(r)
            && r.kind == kind && r.body == body && Declares(r, dependencies)
  {
    hide Record.Encode, Records.Decode, SortedIds, Containers, InOrder;
    var r := RecordOf(kind, id, body, dependencies).value;
    EmptyMap();
    RecordRoundTrip(r);
    forall i | 0 <= i < |dependencies|
      ensures dependencies[i] in r.dependencies
    {
      SortedIdsHave(dependencies, dependencies[i]);
    }
  }

  lemma EmptyMap()
    ensures InOrder(Map([])) && Containers(Map([])) == 1
  {
  }

  /** Each type is read back from the bytes it was published as. */
  lemma PublishedStroke(x: Stroke, id: Id, invertible: Invertible)
    requires x.ToValue(invertible).Ok? && RecordOf(STROKE, id, x.ToValue(invertible).value, x.Dependencies()).Ok?
    requires InOrder(x.ToValue(invertible).value) && Containers(x.ToValue(invertible).value) < READER_LIMIT
    ensures var r := RecordOf(STROKE, id, x.ToValue(invertible).value, x.Dependencies()).value;
            r.Encode().Ok? && Records.Decode(r.Encode().value) == Ok(r) && StrokeOf(r, invertible) == Ok(x)
  {
    hide Record.Encode, Records.Decode, RecordOf, Containers, InOrder, ReadStroke, Stroke.ToValue;
    PublishedRecordReads(STROKE, id, x.ToValue(invertible).value, x.Dependencies());
    StrokeReads(x, invertible);
  }

  lemma PublishedGeometry(x: Geometry, id: Id)
    requires x.ToValue().Ok? && RecordOf(GEOMETRY, id, x.ToValue().value, x.Dependencies()).Ok?
    requires InOrder(x.ToValue().value) && Containers(x.ToValue().value) < READER_LIMIT
    ensures var r := RecordOf(GEOMETRY, id, x.ToValue().value, x.Dependencies()).value;
            r.Encode().Ok? && Records.Decode(r.Encode().value) == Ok(r) && GeometryOf(r) == Ok(x)
  {
    hide Record.Encode, Records.Decode, RecordOf, Containers, InOrder, ReadGeometry, Geometry.ToValue;
    PublishedRecordReads(GEOMETRY, id, x.ToValue().value, x.Dependencies());
    GeometryReads(x);
  }

  lemma PublishedPage(x: Page, id: Id)
    requires |x.Dependencies()| <= USIZE_MAX && x.ToValue().Ok?
    requires RecordOf(PAGE, id, x.ToValue().value, x.Dependencies()).Ok?
    requires InOrder(x.ToValue().value) && Containers(x.ToValue().value) < READER_LIMIT
    ensures var r := RecordOf(PAGE, id, x.ToValue().value, x.Dependencies()).value;
            r.Encode().Ok? && Records.Decode(r.Encode().value) == Ok(r) && PageOf(r) == Ok(x)
  {
    hide Record.Encode, Records.Decode, RecordOf, Containers, InOrder, ReadPage, Page.ToValue;
    PublishedRecordReads(PAGE, id, x.ToValue().value, x.Dependencies());
    PageReads(x);
  }

  lemma PublishedSourceProfile(x: SourceProfile, id: Id)
    requires x.ToValue().Ok? && RecordOf(SOURCE_PROFILE, id, x.ToValue().value, []).Ok?
    requires InOrder(x.ToValue().value) && Containers(x.ToValue().value) < READER_LIMIT
    ensures var r := RecordOf(SOURCE_PROFILE, id, x.ToValue().value, []).value;
            r.Encode().Ok? && Records.Decode(r.Encode().value) == Ok(r) && SourceProfileOf(r) == Ok(x)
  {
    hide Record.Encode, Records.Decode, RecordOf, Containers, InOrder, ReadSourceProfile, SourceProfile.ToValue;
    PublishedRecordReads(SOURCE_PROFILE, id, x.ToValue().value, []);
    SourceProfileReads(x);
  }

  lemma PublishedBrush(x: Brush, id: Id)
    requires x.ToValue().Ok? && RecordOf(BRUSH, id, x.ToValue().value, []).Ok?
    requires InOrder(x.ToValue().value) && Containers(x.ToValue().value) < READER_LIMIT
    ensures var r := RecordOf(BRUSH, id, x.ToValue().value, []).value;
            r.Encode().Ok? && Records.Decode(r.Encode().value) == Ok(r) && BrushOf(r) == Ok(x)
  {
    hide Record.Encode, Records.Decode, RecordOf, Containers, InOrder, ReadBrush, Brush.ToValue;
    PublishedRecordReads(BRUSH, id, x.ToValue().value, []);
    BrushReads(x);
  }

  lemma PublishedSession(x: Session, id: Id)
    requires x.ToValue().Ok? && RecordOf(SESSION, id, x.ToValue().value, []).Ok?
    requires InOrder(x.ToValue().value) && Containers(x.ToValue().value) < READER_LIMIT
    ensures var r := RecordOf(SESSION, id, x.ToValue().value, []).value;
            r.Encode().Ok? && Records.Decode(r.Encode().value) == Ok(r) && SessionOf(r) == Ok(x)
  {
    hide Record.Encode, Records.Decode, RecordOf, Containers, InOrder, ReadSession, Session.ToValue;
    PublishedRecordReads(SESSION, id, x.ToValue().value, []);
    SessionReads(x);
  }

  /** A document is exactly if no segment of it names the zero chunk. */
  lemma PublishedDocument(x: Document, id: Id)
    requires x.ToValue().Ok? && RecordOf(DOCUMENT, id, x.ToValue().value, x.Dependencies()).Ok?
    requires InOrder(x.ToValue().value) && Containers(x.ToValue().value) < READER_LIMIT
    ensures var r := RecordOf(DOCUMENT, id, x.ToValue().value, x.Dependencies()).value;
            && r.Encode().Ok? && Records.Decode(r.Encode().value) == Ok(r)
            && (DocumentOf(r) == Ok(x) <==> ChunksNamed(x.segments)) && (DocumentOf(r).Ok? <==> ChunksNamed(x.segments))
  {
    hide Record.Encode, Records.Decode, RecordOf, Containers, InOrder, ReadDocument, Document.ToValue, ChunksNamed;
    PublishedRecordReads(DOCUMENT, id, x.ToValue().value, x.Dependencies());
    DocumentReads(x);
  }

  /** Reading a typed record from bytes and publishing its body again reproduces the body
      bytes, unknown extension fields included. */
  lemma ReadStrokeIsRewritten(input: seq<u8>, invertible: Invertible)
    requires Records.Decode(input).Ok? && StrokeOf(Records.Decode(input).value, invertible).Ok?
    ensures var r := Records.Decode(input).value;
            var body := StrokeOf(r, invertible).value.ToValue(invertible);
            body.Ok? && r.(body := body.value).Encode() == Ok(input)
  {
    hide Record.Encode, Records.Decode, InOrder, ReadStroke, Stroke.ToValue;
    RecordEncodeDecode(input);
    StrokeRebuilds(Records.Decode(input).value.body, invertible);
  }

  lemma ReadGeometryIsRewritten(input: seq<u8>)
    requires Records.Decode(input).Ok? && GeometryOf(Records.Decode(input).value).Ok?
    ensures var r := Records.Decode(input).value;
            var body := GeometryOf(r).value.ToValue();
            body.Ok? && r.(body := body.value).Encode() == Ok(input)
  {
    hide Record.Encode, Records.Decode, InOrder, ReadGeometry, Geometry.ToValue;
    RecordEncodeDecode(input);
    GeometryRebuilds(Records.Decode(input).value.body);
  }

  lemma ReadPageIsRewritten(input: seq<u8>)
    requires Records.Decode(input).Ok? && PageOf(Records.Decode(input).value).Ok?
    ensures var r := Records.Decode(input).value;
            var body := PageOf(r).value.ToValue();
            body.Ok? && r.(body := body.value).Encode() == Ok(input)
  {
    hide Record.Encode, Records.Decode, InOrder, ReadPage, Page.ToValue;
    RecordEncodeDecode(input);
    PageRebuilds(Records.Decode(input).value.body);
  }

  lemma ReadDocumentIsRewritten(input: seq<u8>)
    requires Records.Decode(input).Ok? && DocumentOf(Records.Decode(input).value).Ok?
    ensures var r := Records.Decode(input).value;
            var body := DocumentOf(r).value.ToValue();
            body.Ok? && r.(body := body.value).Encode() == Ok(input)
  {
    hide Record.Encode, Records.Decode, InOrder, ReadDocument, Document.ToValue;
    RecordEncodeDecode(input);
    DocumentRebuilds(Records.Decode(input).value.body);
  }

  lemma ReadSourceProfileIsRewritten(input: seq<u8>)
    requires Records.Decode(input).Ok? && SourceProfileOf(Records.Decode(input).value).Ok?
    ensures var r := Records.Decode(input).value;
            var body := SourceProfileOf(r).value.ToValue();
            body.Ok? && r.(body := body.value).Encode() == Ok(input)
  {
    hide Record.Encode, Records.Decode, InOrder, ReadSourceProfile, SourceProfile.ToValue;
    RecordEncodeDecode(input);
    SourceProfileRebuilds(Records.Decode(input).value.body);
  }

  lemma ReadBrushIsRewritten(input: seq<u8>)
    requires Records.Decode(input).Ok? && BrushOf(Records.Decode(input).value).Ok?
    ensures var r := Records.Decode(input).value;
            var body := BrushOf(r).value.ToValue();
            body.Ok? && r.(body := body.value).Encode() == Ok(input)
  {
    hide Record.Encode, Records.Decode, InOrder, ReadBrush, Brush.ToValue;
    RecordEncodeDecode(input);
    BrushRebuilds(Records.Decode(input).value.body);
  }

  lemma ReadSessionIsRewritten(input: seq<u8>)
    requires Records.Decode(input).Ok? && SessionOf(Records.Decode(input).value).Ok?
    ensures var r := Records.Decode(input).value;
            var body := SessionOf(r).value.ToValue();
            body.Ok? && r.(body := body.value).Encode() == Ok(input)
  {
    hide Record.Encode, Records.Decode, InOrder, ReadSession, Session.ToValue;
    RecordEncodeDecode(input);
    SessionRebuilds(Records.Decode(input).value.body);
  }

  // ---- the loops of the source, against the functions above ----

  method CollectExtras(v: Value, known: seq<u64>) returns (r: Result<Bodies.ExtraFields>)
    ensures r == Bodies.Extras(v, known)
  {
    if !v.Map? {
      return Err(InvalidData);
    }
    var out: Bodies.ExtraFields := [];
    ghost var seen: seq<Numbered<Value>> := [];
    assert v.fields[0..] == v.fields;
    NothingSeen(Bodies.ExtraEntries(v.fields, known));
    for i := 0 to |v.fields|
      invariant out == Gather(seen)
      invariant Bodies.ExtraEntries(v.fields, known) == Prefixed(seen, Bodies.ExtraEntries(v.fields[i..], known))
    {
      var f := v.fields[i];
      assert v.fields[i..][1..] == v.fields[i + 1..];
      var k := AsU64(f.key);
      if k.Err? {
        return Err(k.error);
      }
      if k.value !in known {
        if k.value < Bodies.FIRST_EXTENSION {
          return Err(Unsupported);
        }
        out := Put(out, Numbered(k.value, f.value));
        assert (seen + [Numbered(k.value, f.value)])[..|seen|] == seen;
        AddSeen(seen, Numbered(k.value, f.value), Bodies.ExtraEntries(v.fields[i + 1..], known));
        seen := seen + [Numbered(k.value, f.value)];
      }
    }
    assert seen + [] == seen;
    r := Ok(out);
  }

  ghost function Prefixed(seen: seq<Numbered<Value>>, rest: Result<seq<Numbered<Value>>>)
    : (r: Result<seq<Numbered<Value>>>)
  {
    if rest.Err? then rest else Ok(seen + rest.value)
  }

  lemma NothingSeen(rest: Result<seq<Numbered<Value>>>)
    ensures Prefixed([], rest) == rest
  {
    if rest.Ok? {
      assert [] + rest.value == rest.value;
    }
  }

  lemma AddSeen(seen: seq<Numbered<Value>>, e: Numbered<Value>, rest: Result<seq<Numbered<Value>>>)
    ensures rest.Ok? ==> Prefixed(seen, Ok([e] + rest.value)) == Prefixed(seen + [e], rest)
  {
    if rest.Ok? {
      assert seen + ([e] + rest.value) == seen + [e] + rest.value;
    }
  }

  /** The coverage loop of a geometry; the end is the point count it must equal. */
  method CoverParts(parts: seq<Part>) returns (end: Option<u32>)
    ensures end == PartsEnd(parts, 0)
    ensures end.Some? ==> Tiles(parts, end.value)
  {
    var n: u32 := 0;
    PartsTile(parts);
    assert parts[0..] == parts;
    for i := 0 to |parts|
      invariant PartsEnd(parts, 0) == PartsEnd(parts[i..], n)
    {
      var p := parts[i];
      assert parts[i..][1..] == parts[i + 1..];
      if p.segment == ZERO || p.count == 0 || p.firstSample != n {
        return None;
      }
      if n + p.count > 0xFFFF_FFFF {
        return None;
      }
      n := n + p.count;
    }
    end := Some(n);
  }

  /** The samples before part i. */
  function SamplesBefore(parts: seq<Part>, i: nat): (n: nat)
    requires i <= |parts|
  {
    if i == 0 then 0 else SamplesBefore(parts, i - 1) + parts[i - 1].count
  }

  /** The parts cover [0, end) without gap or overlap, each by at least one sample. */
  ghost predicate Tiles(parts: seq<Part>, end: nat) {
    && SamplesBefore(parts, |parts|) == end
    && forall i :: 0 <= i < |parts| ==> parts[i].count > 0 && parts[i].firstSample == SamplesBefore(parts, i)
  }

  lemma {:induction false} PartsTileFrom(parts: seq<Part>, k: nat)
    requires k <= |parts| && SamplesBefore(parts, k) <= 0xFFFF_FFFF
    ensures var end := PartsEnd(parts[k..], SamplesBefore(parts, k));
            end.Some? <==>
            && SamplesBefore(parts, |parts|) <= 0xFFFF_FFFF
            && forall i :: k <= i < |parts| ==>
                 parts[i].segment != ZERO && parts[i].count > 0 && parts[i].firstSample == SamplesBefore(parts, i)
    ensures var end := PartsEnd(parts[k..], SamplesBefore(parts, k));
            end.Some? ==> end.value == SamplesBefore(parts, |parts|)
    decreases |parts| - k
  {
    if k < |parts| {
      assert parts[k..][1..] == parts[k + 1..];
      SamplesGrow(parts, k + 1, |parts|);
      if SamplesBefore(parts, k + 1) <= 0xFFFF_FFFF {
        PartsTileFrom(parts, k + 1);
      }
    }
  }

  lemma {:induction false} SamplesGrow(parts: seq<Part>, i: nat, j: nat)
    requires i <= j <= |parts|
    ensures SamplesBefore(parts, i) <= SamplesBefore(parts, j)
  {
    if i < j {
      SamplesGrow(parts, i, j - 1);
    }
  }

  /** The coverage check accepts exactly named parts tiling a 32-bit range. */
  lemma PartsTile(parts: seq<Part>)
    ensures PartsEnd(parts, 0).Some? <==>
            && SamplesBefore(parts, |parts|) <= 0xFFFF_FFFF && Tiles(parts, SamplesBefore(parts, |parts|))
            && forall i :: 0 <= i < |parts| ==> parts[i].segment != ZERO
    ensures PartsEnd(parts, 0).Some? ==> PartsEnd(parts, 0).value == SamplesBefore(parts, |parts|)
  {
    assert parts[0..] == parts;
    PartsTileFrom(parts, 0);
  }
}
