/** Typed bodies lose nothing: what is written is read back, and what is read from a value
    in key order is written as that same value, extension fields included. */
module ModelLaws {
  import opened Bytes
  import opened Results
  import opened Floats
  import opened Sorting
  import opened Trees
  import opened Cbor
  import opened CborLaws
  import opened Fields
  import opened Bodies
  import opened Model

  // ---- small maps ----

  lemma SmallMapReads(os: seq<Option<Value>>)
    requires |os| <= FIRST_EXTENSION
    ensures Assemble(os, []) == Ok(SmallMap(os))
    ensures forall k :: 0 <= k < |os| ==> Lookup(SmallMap(os), k) == os[k]
    ensures Extras(SmallMap(os), Known(|os|)) == Ok([])
  {
    hide Body, Slots, Extras, Lookup;
    SlotsAt(os);
    SlotsLength(os);
    BodyLayout(Slots(os), []);
    assert Slots(os) + [] == Slots(os);
    AssembledReads(os, []);
  }

  lemma SmallMapRebuilds(v: Value, n: nat)
    requires v.Map? && InOrder(v) && n <= FIRST_EXTENSION && Extras(v, Known(n)) == Ok([])
    ensures SmallMap(Found(v, n)) == v
  {
    hide Body, Slots, Extras, Lookup;
    Rebuild(v, n);
    SmallMapReads(Found(v, n));
  }

  // ---- lists ----

  lemma FloatListReads(fs: Vec<u64>, n: nat)
    requires |fs| == n && AllFinite(fs)
    ensures FloatsOf(FloatList(fs), n) == Ok(fs)
  {
    CollectEach(fs, AsFinite, WriteFloat);
  }

  lemma FloatListRebuilds(v: Value, n: nat)
    requires FloatsOf(v, n).Ok?
    ensures |FloatsOf(v, n).value| <= USIZE_MAX && FloatList(FloatsOf(v, n).value) == v
  {
    EachCollect(v.items, AsFinite, WriteFloat);
  }

  lemma IdListReads(ids: Vec<Id>)
    requires forall i :: 0 <= i < |ids| ==> ids[i] != ZERO
    ensures Collect(Each(ids, Model.WriteId), AsId) == Ok(ids)
  {
    CollectEach(ids, AsId, Model.WriteId);
  }

  lemma RefListReads(refs: Vec<ObjectRef>)
    requires ValidRefs(refs)
    ensures Collect(Each(refs, WriteRef), ReadRef) == Ok(refs)
  {
    CollectEach(refs, ReadRef, WriteRef);
  }

  lemma RefRebuilds(v: Value)
    requires ReadRef(v).Ok?
    ensures WriteRef(ReadRef(v).value) == v
  {
    assert v.items == [v.items[0], v.items[1]];
  }

  lemma RefListRebuilds(vs: Vec<Value>)
    requires Collect(vs, ReadRef).Ok?
    ensures Each(Collect(vs, ReadRef).value, WriteRef) == vs
  {
    forall i | 0 <= i < |vs| && ReadRef(vs[i]).Ok?
      ensures WriteRef(ReadRef(vs[i]).value) == vs[i]
    {
      RefRebuilds(vs[i]);
    }
    EachCollect(vs, ReadRef, WriteRef);
  }

  // ---- background ----

  lemma BackgroundReads(x: Background)
    requires x.ToValue().Ok?
    ensures ReadBackground(x.ToValue().value) == Ok(x)
  {
    hide Assemble, Extras, Lookup;
    var v := x.ToValue().value;
    if x.grid.None? {
      AssembledReads([Some(Num(0)), Some(Blob(x.rgba)), None, None, None, None, None], x.extra);
      assert Lookup(v, 2).None? && Lookup(v, 3).None? && Lookup(v, 4).None? && Lookup(v, 5).None? && Lookup(v, 6).None?;
    } else {
      var g := x.grid.value;
      AssembledReads([Some(Num(1)), Some(Blob(x.rgba)), Some(Float(g.step[0])), Some(Float(g.step[1])),
                      Some(FloatList(g.origin)), Some(Float(g.lineWidth)), Some(Blob(g.lineRgba))], x.extra);
      FloatListReads(g.origin, 2);
      assert [g.step[0], g.step[1]] == g.step;
    }
  }

  lemma BackgroundRebuilds(v: Value)
    requires InOrder(v) && ReadBackground(v).Ok?
    ensures ReadBackground(v).value.ToValue() == Ok(v)
  {
    hide Assemble, Extras, Lookup, InOrder;
    var x := ReadBackground(v).value;
    assert Extras(v, Known(7)) == Ok(x.extra);
    ExtrasMap(v, Known(7));
    Rebuild(v, 7);
    if x.grid.None? {
      assert Found(v, 7) == [Some(Num(0)), Some(Blob(x.rgba)), None, None, None, None, None];
    } else {
      var g := x.grid.value;
      FloatListRebuilds(FieldOf(v, 4).value, 2);
      assert Found(v, 7) ==
             [Some(Num(1)), Some(Blob(x.rgba)), Some(Float(g.step[0])), Some(Float(g.step[1])),
              Some(FloatList(g.origin)), Some(Float(g.lineWidth)), Some(Blob(g.lineRgba))];
    }
  }

  lemma ExtrasMap(v: Value, known: seq<u64>)
    requires Extras(v, known).Ok?
    ensures v.Map?
  {
  }

  // ---- stroke ----

  lemma StrokeReads(x: Stroke, invertible: Invertible)
    requires x.ToValue(invertible).Ok?
    ensures ReadStroke(x.ToValue(invertible).value, invertible) == Ok(x)
  {
    hide Assemble, Extras, Lookup;
    AssembledReads([Some(Blob(x.id)), Some(Blob(x.geometry)), Some(Blob(x.brush)), Some(Blob(x.rgba)),
                    Some(Float(x.width)), Some(FloatList(x.transform)), WriteTime(x.createdAt), WriteTime(x.updatedAt)],
                   x.extra);
    FloatListReads(x.transform, 6);
  }

  lemma StrokeRebuilds(v: Value, invertible: Invertible)
    requires InOrder(v) && ReadStroke(v, invertible).Ok?
    ensures ReadStroke(v, invertible).value.ToValue(invertible) == Ok(v)
  {
    hide Assemble, Extras, Lookup, InOrder;
    var x := ReadStroke(v, invertible).value;
    ExtrasMap(v, Known(8));
    Rebuild(v, 8);
    FloatListRebuilds(FieldOf(v, 5).value, 6);
    assert Found(v, 8) ==
           [Some(Blob(x.id)), Some(Blob(x.geometry)), Some(Blob(x.brush)), Some(Blob(x.rgba)),
            Some(Float(x.width)), Some(FloatList(x.transform)), WriteTime(x.createdAt), WriteTime(x.updatedAt)];
  }

  // ---- values inside values ----

  lemma {:induction false} FindInOrder(fs: seq<Field>, key: u64)
    requires Find(fs, key).Some? && forall i :: 0 <= i < |fs| ==> InOrderField(fs[i])
    ensures InOrder(Find(fs, key).value)
  {
    if fs[0].key != Num(key) {
      FindInOrder(fs[1..], key);
    }
  }

  lemma LookupInOrder(v: Value, key: u64)
    requires InOrder(v) && Lookup(v, key).Some?
    ensures InOrder(Lookup(v, key).value)
  {
    hide Find;
    FindInOrder(v.fields, key);
  }

  // ---- geometry ----

  lemma TimingReads(t: Option<Timing>)
    requires t.Some? ==> t.value.session != ZERO
    ensures ReadTiming(WriteTiming(t)) == Ok(t)
  {
    hide SmallMap, Extras, Lookup;
    if t.Some? {
      SmallMapReads([Some(Blob(t.value.session)), Some(Num(t.value.startTick))]);
    }
  }

  lemma TimingRebuilds(v: Value)
    requires InOrder(v) && ReadTiming(v).Ok?
    ensures WriteTiming(ReadTiming(v).value) == v
  {
    hide SmallMap, Extras, Lookup, InOrder;
    if !v.Null? {
      var t := ReadTiming(v).value.value;
      ExtrasMap(v, Known(2));
      SmallMapRebuilds(v, 2);
      assert Found(v, 2) == [Some(Blob(t.session)), Some(Num(t.startTick))];
    }
  }

  lemma PartReads(p: Part)
    requires p.segment != ZERO
    ensures ReadPart(WritePart(p)) == Ok(p)
  {
    hide SmallMap, Extras, Lookup;
    SmallMapReads([Some(Blob(p.segment)), Some(Num(p.firstSample)), Some(Num(p.count)), Some(Num(p.firstTick))]);
  }

  lemma PartRebuilds(v: Value)
    requires InOrder(v) && ReadPart(v).Ok?
    ensures WritePart(ReadPart(v).value) == v
  {
    hide SmallMap, Extras, Lookup, InOrder;
    var p := ReadPart(v).value;
    ExtrasMap(v, Known(4));
    SmallMapRebuilds(v, 4);
    assert Found(v, 4) == [Some(Blob(p.segment)), Some(Num(p.firstSample)), Some(Num(p.count)), Some(Num(p.firstTick))];
  }

  lemma {:induction false} PartsAreNamed(parts: seq<Part>, n: u32)
    requires PartsEnd(parts, n).Some?
    ensures forall i :: 0 <= i < |parts| ==> parts[i].segment != ZERO
  {
    if parts != [] {
      PartsAreNamed(parts[1..], n + parts[0].count);
      assert parts == [parts[0]] + parts[1..];
    }
  }

  lemma PartListReads(parts: Vec<Part>)
    requires PartsEnd(parts, 0).Some?
    ensures Collect(Each(parts, WritePart), ReadPart) == Ok(parts)
  {
    hide WritePart, ReadPart, Collect;
    PartsAreNamed(parts, 0);
    forall i | 0 <= i < |parts|
      ensures ReadPart(WritePart(parts[i])) == Ok(parts[i])
    {
      PartReads(parts[i]);
    }
    CollectEach(parts, ReadPart, WritePart);
  }

  lemma PartListRebuilds(vs: Vec<Value>)
    requires Collect(vs, ReadPart).Ok? && InOrder(Array(vs))
    ensures Each(Collect(vs, ReadPart).value, WritePart) == vs
  {
    hide WritePart, ReadPart, Collect;
    forall i | 0 <= i < |vs| && ReadPart(vs[i]).Ok?
      ensures WritePart(ReadPart(vs[i]).value) == vs[i]
    {
      PartRebuilds(vs[i]);
    }
    EachCollect(vs, ReadPart, WritePart);
  }

  lemma GeometryReads(x: Geometry)
    requires x.ToValue().Ok?
    ensures ReadGeometry(x.ToValue().value) == Ok(x)
  {
    hide Assemble, Extras, Lookup, PartsEnd, Collect, WriteTiming, ReadTiming;
    AssembledReads([Some(Blob(x.profile)), Some(WriteTiming(x.timing)), Some(Num(x.pointCount)),
                    Some(Array(Each(x.parts, WritePart))), Some(Num(0)),
                    if x.bounds.None? then None else Some(FloatList(x.bounds.value)), x.provenance], x.extra);
    TimingReads(x.timing);
    PartListReads(x.parts);
    if x.bounds.Some? {
      FloatListReads(x.bounds.value, 4);
    }
  }

  lemma GeometryRebuilds(v: Value)
    requires InOrder(v) && ReadGeometry(v).Ok?
    ensures ReadGeometry(v).value.ToValue() == Ok(v)
  {
    hide Assemble, Extras, Lookup, InOrder, PartsEnd, Collect, WriteTiming, ReadTiming, FloatsOf;
    var x := ReadGeometry(v).value;
    ExtrasMap(v, Known(7));
    Rebuild(v, 7);
    LookupInOrder(v, 1);
    LookupInOrder(v, 3);
    TimingRebuilds(Lookup(v, 1).value);
    PartListRebuilds(Lookup(v, 3).value.items);
    if Lookup(v, 5).Some? {
      FloatListRebuilds(Lookup(v, 5).value, 4);
    }
    assert Found(v, 7) ==
           [Some(Blob(x.profile)), Some(WriteTiming(x.timing)), Some(Num(x.pointCount)),
            Some(Array(Each(x.parts, WritePart))), Some(Num(0)),
            if x.bounds.None? then None else Some(FloatList(x.bounds.value)), x.provenance];
  }

  // ---- keyed maps ----

  lemma {:induction false} EntriesRead<V>(t: seq<Keyed<V>>, key: Value -> Result<Vec<u8>>, read: Value -> Result<V>,
                                          write: V -> Value)
    requires forall i :: 0 <= i < |t| ==> |t[i].key| <= USIZE_MAX && key(Blob(t[i].key)) == Ok(t[i].key)
    requires forall i :: 0 <= i < |t| ==> read(write(t[i].value)) == Ok(t[i].value)
    ensures ReadEntries(MapEntries(t, write), key, read) == Ok(t)
  {
    if t != [] {
      var fs := MapEntries(t, write);
      EntriesRead(t[1..], key, read, write);
      assert fs[1..] == MapEntries(t[1..], write);
      assert fs[0] == Field(Blob(t[0].key), write(t[0].value));
      assert t == [t[0]] + t[1..];
    }
  }

  lemma IdMapReads<V>(t: IdMap<V>, read: Value -> Result<V>, write: V -> Value)
    requires NonzeroKeys(t) && forall i :: 0 <= i < |t| ==> read(write(t[i].value)) == Ok(t[i].value)
    ensures ReadIdMap(WriteMap(t, write), read) == Ok(t)
  {
    hide ReadEntries;
    EntriesRead(t, IdKey, read, write);
    GatherKeyedAscending(t);
  }

  lemma HashMapReads<V>(t: HashMap<V>, read: Value -> Result<V>, write: V -> Value)
    requires forall i :: 0 <= i < |t| ==> read(write(t[i].value)) == Ok(t[i].value)
    ensures ReadHashMap(WriteMap(t, write), read) == Ok(t)
  {
    hide ReadEntries;
    EntriesRead(t, HashKey, read, write);
    GatherKeyedAscending(t);
  }

  lemma EntriesAscend<V>(fs: seq<Field>, es: seq<Keyed<V>>, n: nat)
    requires |fs| == |es| && n <= USIZE_MAX && AscendingFields(fs)
    requires forall i :: 0 <= i < |es| ==> |es[i].key| == n && fs[i].key == Blob(es[i].key)
    ensures Ascending(es)
  {
    hide Serialize;
    forall i, j | 0 <= i < j < |es|
      ensures Less(es[i].key, es[j].key)
    {
      BlobsInOrder(es[i].key, es[j].key);
    }
  }

  lemma IdMapRebuilds<V>(v: Value, read: Value -> Result<V>, write: V -> Value)
    requires InOrder(v) && ReadIdMap(v, read).Ok?
    requires forall i :: 0 <= i < |v.fields| && read(v.fields[i].value).Ok? ==>
               write(read(v.fields[i].value).value) == v.fields[i].value
    ensures WriteMap(ReadIdMap(v, read).value, write) == v && NonzeroKeys(ReadIdMap(v, read).value)
  {
    hide ReadEntries, AscendingFields;
    var es := ReadEntries(v.fields, IdKey, read).value;
    assert forall i :: 0 <= i < |es| ==> ReadEntry(v.fields[i], IdKey, read) == Ok(es[i]);
    EntriesAscend(v.fields, es, 16);
    GatherKeyedAscending(es);
    assert MapEntries(es, write) == v.fields;
  }

  lemma HashMapRebuilds<V>(v: Value, read: Value -> Result<V>, write: V -> Value)
    requires InOrder(v) && ReadHashMap(v, read).Ok?
    requires forall i :: 0 <= i < |v.fields| && read(v.fields[i].value).Ok? ==>
               write(read(v.fields[i].value).value) == v.fields[i].value
    ensures WriteMap(ReadHashMap(v, read).value, write) == v
  {
    hide ReadEntries, AscendingFields;
    var es := ReadEntries(v.fields, HashKey, read).value;
    assert forall i :: 0 <= i < |es| ==> ReadEntry(v.fields[i], HashKey, read) == Ok(es[i]);
    EntriesAscend(v.fields, es, 32);
    GatherKeyedAscending(es);
    assert MapEntries(es, write) == v.fields;
  }

  // ---- page ----

  function PageSlots(x: Page, paper: Value): (os: seq<Option<Value>>)
    ensures |os| == 8
  {
    [Some(Blob(x.id)), Some(Float(x.width)), Some(Float(x.height)), Some(RefList(x.objects)), Some(paper),
     Some(IdList(x.recognition)), Some(IdList(x.corrections)), Some(WriteMap(x.selection, Model.WriteId))]
  }

  lemma PageReads(x: Page)
    requires x.ToValue().Ok?
    ensures ReadPage(x.ToValue().value) == Ok(x)
  {
    hide Assemble, Extras, Lookup, Collect, ReadBackground, Background.ToValue, ReadHashMap, WriteMap;
    var paper := x.background.ToValue().value;
    AssembledReads(PageSlots(x, paper), x.extra);
    BackgroundReads(x.background);
    RefListReads(x.objects);
    IdListReads(x.recognition);
    IdListReads(x.corrections);
    HashMapReads(x.selection, AsId, Model.WriteId);
  }

  lemma PageRebuilds(v: Value)
    requires InOrder(v) && ReadPage(v).Ok?
    ensures ReadPage(v).value.ToValue() == Ok(v)
  {
    hide Assemble, Extras, Lookup, InOrder, Collect, ReadBackground, Background.ToValue, ReadHashMap, WriteMap;
    var x := ReadPage(v).value;
    ExtrasMap(v, Known(8));
    Rebuild(v, 8);
    LookupInOrder(v, 4);
    LookupInOrder(v, 7);
    var paper := Lookup(v, 4).value;
    BackgroundRebuilds(paper);
    RefListRebuilds(Lookup(v, 3).value.items);
    EachCollect(Lookup(v, 5).value.items, AsId, Model.WriteId);
    EachCollect(Lookup(v, 6).value.items, AsId, Model.WriteId);
    HashMapRebuilds(Lookup(v, 7).value, AsId, Model.WriteId);
    assert Found(v, 8) == PageSlots(x, paper);
  }

  // ---- source profile ----

  lemma AxisReads(x: Axis)
    requires x.ToValue().Ok?
    ensures ReadAxis(x.ToValue().value) == Ok(x)
  {
    hide Assemble, Extras, Lookup;
    AssembledReads([Some(Text(x.unit)), Some(Num(x.representation)), Some(Text(x.convention)),
                    WriteLimit(x.min), WriteLimit(x.max)], x.extra);
  }

  lemma AxisRebuilds(v: Value)
    requires InOrder(v) && ReadAxis(v).Ok?
    ensures ReadAxis(v).value.ToValue() == Ok(v)
  {
    hide Assemble, Extras, Lookup, InOrder;
    var x := ReadAxis(v).value;
    ExtrasMap(v, Known(5));
    Rebuild(v, 5);
    assert Found(v, 5) ==
           [Some(Text(x.unit)), Some(Num(x.representation)), Some(Text(x.convention)),
            WriteLimit(x.min), WriteLimit(x.max)];
  }

  lemma {:induction false} AxesRead(axes: seq<Numbered<Axis>>)
    requires WriteAxes(axes).Ok? && forall i :: 0 <= i < |axes| ==> axes[i].key < 0x1_0000
    ensures ReadAxes(WriteAxes(axes).value) == Ok(axes)
  {
    hide Axis.ToValue, ReadAxis;
    if axes != [] {
      AxisReads(axes[0].value);
      AxesRead(axes[1..]);
      var fs := WriteAxes(axes).value;
      assert fs[1..] == WriteAxes(axes[1..]).value;
      assert axes == [axes[0]] + axes[1..];
    }
  }

  lemma {:induction false} AxesRebuild(fs: seq<Field>)
    requires ReadAxes(fs).Ok? && forall i :: 0 <= i < |fs| ==> InOrderField(fs[i])
    ensures WriteAxes(ReadAxes(fs).value) == Ok(fs)
  {
    hide Axis.ToValue, ReadAxis, InOrder, InOrderField;
    if fs != [] {
      AxisFieldRebuilds(fs[0]);
      AxesRebuild(fs[1..]);
      var axes := ReadAxes(fs).value;
      assert axes[1..] == ReadAxes(fs[1..]).value;
      assert fs == [fs[0]] + fs[1..];
    }
  }

  lemma AxisFieldRebuilds(f: Field)
    requires InOrderField(f) && AsU64(f.key).Ok? && ReadAxis(f.value).Ok?
    ensures ReadAxis(f.value).value.ToValue() == Ok(f.value) && f.key == Num(AsU64(f.key).value)
  {
    hide Axis.ToValue, ReadAxis, InOrder;
    AxisRebuilds(f.value);
  }

  /** An axis entry has the key it was read under. */
  lemma {:induction false} AxisKeys(fs: seq<Field>, i: nat)
    requires ReadAxes(fs).Ok? && i < |fs|
    ensures fs[i].key == Num(ReadAxes(fs).value[i].key)
  {
    hide ReadAxis;
    if i > 0 {
      AxisKeys(fs[1..], i - 1);
    }
  }

  lemma AxesIncrease(fs: seq<Field>, axes: seq<Numbered<Axis>>)
    requires |fs| == |axes| && AscendingFields(fs)
    requires forall i :: 0 <= i < |fs| ==> fs[i].key == Num(axes[i].key)
    ensures Increasing(axes)
  {
    hide Serialize;
    forall i, j | 0 <= i < j < |fs|
      ensures axes[i].key < axes[j].key
    {
      assert Less(Serialize(fs[i].key), Serialize(fs[j].key));
      LessIsTotal(Serialize(fs[i].key), Serialize(fs[j].key));
      if axes[j].key < axes[i].key {
        NumbersInOrder(axes[j].key, axes[i].key);
      }
    }
  }

  lemma SourceProfileReads(x: SourceProfile)
    requires x.ToValue().Ok?
    ensures ReadSourceProfile(x.ToValue().value) == Ok(x)
  {
    hide Assemble, Extras, Lookup, WriteAxes, ReadAxes, Gather, AxisAt;
    var fs: Vec<Field> := WriteAxes(x.axes).value;
    AssembledReads([Some(Map(fs)), Some(x.provenance), Some(if x.tickNs.None? then Null else Num(x.tickNs.value))],
                   x.extra);
    AxesRead(x.axes);
    GatherIncreasing(x.axes);
  }

  lemma SourceProfileRebuilds(v: Value)
    requires InOrder(v) && ReadSourceProfile(v).Ok?
    ensures ReadSourceProfile(v).value.ToValue() == Ok(v)
  {
    hide Assemble, Extras, Lookup, WriteAxes, ReadAxes, Gather, AxisAt, AscendingFields, InOrderField;
    var x := ReadSourceProfile(v).value;
    ExtrasMap(v, Known(3));
    Rebuild(v, 3);
    LookupInOrder(v, 0);
    var m := Lookup(v, 0).value;
    AxesRebuild(m.fields);
    forall i | 0 <= i < |m.fields|
      ensures m.fields[i].key == Num(ReadAxes(m.fields).value[i].key)
    {
      AxisKeys(m.fields, i);
    }
    AxesIncrease(m.fields, ReadAxes(m.fields).value);
    GatherIncreasing(ReadAxes(m.fields).value);
    assert Found(v, 3) == [Some(m), Some(x.provenance), Some(if x.tickNs.None? then Null else Num(x.tickNs.value))];
  }

  // ---- brush and session ----

  lemma BrushReads(x: Brush)
    requires x.ToValue().Ok?
    ensures ReadBrush(x.ToValue().value) == Ok(x)
  {
    hide Assemble, Extras, Lookup;
    AssembledReads([Some(Text(x.contract)), Some(Num(x.version)), Some(x.parameters)], x.extra);
  }

  lemma BrushRebuilds(v: Value)
    requires InOrder(v) && ReadBrush(v).Ok?
    ensures ReadBrush(v).value.ToValue() == Ok(v)
  {
    hide Assemble, Extras, Lookup, InOrder;
    var x := ReadBrush(v).value;
    ExtrasMap(v, Known(3));
    Rebuild(v, 3);
    assert Found(v, 3) == [Some(Text(x.contract)), Some(Num(x.version)), Some(x.parameters)];
  }

  lemma SessionReads(x: Session)
    requires x.ToValue().Ok?
    ensures ReadSession(x.ToValue().value) == Ok(x)
  {
    hide Assemble, Extras, Lookup;
    AssembledReads([Some(Num(x.tickNs)), Some(Num(1)), x.wallAnchor, Some(Text(x.adapter))], x.extra);
  }

  lemma SessionRebuilds(v: Value)
    requires InOrder(v) && ReadSession(v).Ok?
    ensures ReadSession(v).value.ToValue() == Ok(v)
  {
    hide Assemble, Extras, Lookup, InOrder;
    var x := ReadSession(v).value;
    ExtrasMap(v, Known(4));
    Rebuild(v, 4);
    assert Found(v, 4) == [Some(Num(x.tickNs)), Some(Num(1)), x.wallAnchor, Some(Text(x.adapter))];
  }

  // ---- document ----

  lemma BlobRefRebuilds(v: Value)
    requires ReadBlobRef(v).Ok?
    ensures WriteBlobRef(ReadBlobRef(v).value) == v
  {
    assert v.items == [v.items[0], v.items[1]];
  }

  lemma SegmentRefRebuilds(v: Value)
    requires ReadSegmentRef(v).Ok?
    ensures WriteSegmentRef(ReadSegmentRef(v).value) == v
  {
    assert v.items == [v.items[0], v.items[1]];
  }

  predicate ChunksNamed(t: seq<Keyed<SegmentRef>>) {
    forall i :: 0 <= i < |t| ==> t[i].value.chunk != ZERO
  }

  function DocumentSlots(x: Document): (os: seq<Option<Value>>)
    ensures |os| == 8
  {
    [Some(Blob(x.id)), Some(Num(1)), Some(Num(0)), Some(RefList(x.pages)), Some(WriteMap(x.chunks, WriteBlobRef)),
     Some(WriteMap(x.segments, WriteSegmentRef)), Some(WriteMap(x.records, WriteBlobRef)),
     Some(WriteMap(x.resources, WriteNumber))]
  }

  /** A document is read back exactly if no segment mapping names the zero chunk: writing
      does not check that, reading does. */
  lemma DocumentReads(x: Document)
    requires x.ToValue().Ok?
    ensures ReadDocument(x.ToValue().value) == Ok(x) <==> ChunksNamed(x.segments)
    ensures !ChunksNamed(x.segments) ==> ReadDocument(x.ToValue().value).Err?
  {
    hide Assemble, Extras, Lookup, Collect, ReadIdMap, ReadHashMap, WriteMap;
    AssembledReads(DocumentSlots(x), x.extra);
    RefListReads(x.pages);
    IdMapReads(x.chunks, ReadBlobRef, WriteBlobRef);
    IdMapReads(x.records, ReadBlobRef, WriteBlobRef);
    HashMapReads(x.resources, AsU64, WriteNumber);
    if ChunksNamed(x.segments) {
      IdMapReads(x.segments, ReadSegmentRef, WriteSegmentRef);
    } else {
      UnnamedChunk(x.segments);
    }
  }

  lemma UnnamedChunk(t: IdMap<SegmentRef>)
    requires !ChunksNamed(t)
    ensures ReadIdMap(WriteMap(t, WriteSegmentRef), ReadSegmentRef).Err?
  {
    hide ReadEntries;
    var fs := MapEntries(t, WriteSegmentRef);
    var i :| 0 <= i < |t| && t[i].value.chunk == ZERO;
    assert fs[i] == Field(Blob(t[i].key), WriteSegmentRef(t[i].value));
    assert ReadEntry(fs[i], IdKey, ReadSegmentRef).Err?;
  }

  /** A document that can be written but not read back. */
  lemma ZeroChunkIsNotReadBack()
    ensures var x := Document([1, 0, 0, 0, 0, 0, 0, 0, 0, 0, 0, 0, 0, 0, 0, 0], [], [],
                              [Keyed([2, 0, 0, 0, 0, 0, 0, 0, 0, 0, 0, 0, 0, 0, 0, 0], SegmentRef(ZERO, 0))], [], [], []);
            x.ToValue().Ok? && ReadDocument(x.ToValue().value).Err?
  {
    hide Slots;
    var key: Id := [2, 0, 0, 0, 0, 0, 0, 0, 0, 0, 0, 0, 0, 0, 0, 0];
    var segments: IdMap<SegmentRef> := [Keyed(key, SegmentRef(ZERO, 0))];
    var x := Document([1, 0, 0, 0, 0, 0, 0, 0, 0, 0, 0, 0, 0, 0, 0, 0], [], [], segments, [], [], []);
    assert key[0] != ZERO[0] && x.id[0] != ZERO[0];
    SlotsAt(DocumentSlots(x));
    SlotsLength(DocumentSlots(x));
    BodyLayout(Slots(DocumentSlots(x)), []);
    assert Slots(DocumentSlots(x)) + [] == Slots(DocumentSlots(x));
    assert !ChunksNamed(segments) by { assert segments[0].value.chunk == ZERO; }
    DocumentReads(x);
  }

  lemma DocumentRebuilds(v: Value)
    requires InOrder(v) && ReadDocument(v).Ok?
    ensures ReadDocument(v).value.ToValue() == Ok(v)
  {
    hide Assemble, Extras, Lookup, InOrder, Collect, ReadIdMap, ReadHashMap, WriteMap, ReadBlobRef, ReadSegmentRef;
    var x := ReadDocument(v).value;
    ExtrasMap(v, Known(8));
    Rebuild(v, 8);
    LookupInOrder(v, 4);
    LookupInOrder(v, 5);
    LookupInOrder(v, 6);
    LookupInOrder(v, 7);
    RefListRebuilds(Lookup(v, 3).value.items);
    CatalogRebuilds(Lookup(v, 4).value);
    SegmentsRebuild(Lookup(v, 5).value);
    CatalogRebuilds(Lookup(v, 6).value);
    HashMapRebuilds(Lookup(v, 7).value, AsU64, WriteNumber);
    assert Found(v, 8) == DocumentSlots(x);
  }

  lemma CatalogRebuilds(v: Value)
    requires InOrder(v) && ReadIdMap(v, ReadBlobRef).Ok?
    ensures WriteMap(ReadIdMap(v, ReadBlobRef).value, WriteBlobRef) == v
    ensures NonzeroKeys(ReadIdMap(v, ReadBlobRef).value)
  {
    hide InOrder, ReadBlobRef, WriteBlobRef;
    forall i | 0 <= i < |v.fields| && ReadBlobRef(v.fields[i].value).Ok?
      ensures WriteBlobRef(ReadBlobRef(v.fields[i].value).value) == v.fields[i].value
    {
      BlobRefRebuilds(v.fields[i].value);
    }
    IdMapRebuilds(v, ReadBlobRef, WriteBlobRef);
  }

  lemma SegmentsRebuild(v: Value)
    requires InOrder(v) && ReadIdMap(v, ReadSegmentRef).Ok?
    ensures WriteMap(ReadIdMap(v, ReadSegmentRef).value, WriteSegmentRef) == v
    ensures NonzeroKeys(ReadIdMap(v, ReadSegmentRef).value)
  {
    hide InOrder, ReadSegmentRef, WriteSegmentRef;
    forall i | 0 <= i < |v.fields| && ReadSegmentRef(v.fields[i].value).Ok?
      ensures WriteSegmentRef(ReadSegmentRef(v.fields[i].value).value) == v.fields[i].value
    {
      SegmentRefRebuilds(v.fields[i].value);
    }
    IdMapRebuilds(v, ReadSegmentRef, WriteSegmentRef);
  }
}
