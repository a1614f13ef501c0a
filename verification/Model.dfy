/** The typed record bodies: what each writes and what each accepts when read. */
module Model {
  import opened Bytes
  import opened Results
  import opened Floats
  import opened Sorting
  import opened Trees
  import opened Cbor
  import opened Fields
  import opened Bodies

  type Rgba = s: seq<u8> | |s| == 4 witness Zeros(4)
  type Quad = s: seq<u64> | |s| == 4 witness [0, 0, 0, 0]
  type Pair = s: seq<u64> | |s| == 2 witness [0, 0]
  type Transform = s: seq<u64> | |s| == 6 witness [0, 0, 0, 0, 0, 0]
  type i64 = n: int | -0x8000_0000_0000_0000 <= n < 0x8000_0000_0000_0000

  /** Whether the determinant a*d - b*c of a transform, computed in binary64, is finite and
      not zero. Floating-point arithmetic is not modelled. */
  type Invertible = Transform -> bool

  // ---- floats by their bits ----

  predicate Positive(bits: u64) {
    Finite(bits) && 0 < bits < SIGN
  }

  /** The order of finite floats: negative zero equals zero. */
  function Rank(bits: u64): (r: int) {
    if bits >= SIGN then SIGN - bits else bits
  }

  predicate NotANumber(bits: u64) {
    !Finite(bits) && bits % MANTISSA != 0
  }

  predicate AtMost(a: u64, b: u64) {
    !NotANumber(a) && !NotANumber(b) && Rank(a) <= Rank(b)
  }

  predicate Below(a: u64, b: u64) {
    !NotANumber(a) && !NotANumber(b) && Rank(a) < Rank(b)
  }

  predicate AllFinite(fs: seq<u64>) {
    forall i :: 0 <= i < |fs| ==> Finite(fs[i])
  }

  // ---- typed fields ----

  function IdAt(v: Value, k: u64): (r: Result<Id>) {
    var x :- FieldOf(v, k);
    AsId(x)
  }

  function NumberAt(v: Value, k: u64): (r: Result<u64>) {
    var x :- FieldOf(v, k);
    AsU64(x)
  }

  function AsFinite(v: Value): (r: Result<u64>)
    ensures r.Ok? ==> v == Float(r.value) && Finite(r.value)
  {
    if v.Float? && Finite(v.bits) then Ok(v.bits) else Err(InvalidData)
  }

  function FloatAt(v: Value, k: u64): (r: Result<u64>) {
    var x :- FieldOf(v, k);
    AsFinite(x)
  }

  function TextAt(v: Value, k: u64): (r: Result<Utf8String>) {
    var x :- FieldOf(v, k);
    if x.Text? then Ok(x.s) else Err(InvalidData)
  }

  function BlobAt(v: Value, k: u64, length: nat): (r: Result<Vec<u8>>)
    ensures r.Ok? ==> |r.value| == length
  {
    var x :- FieldOf(v, k);
    AsBlob(x, length)
  }

  function FloatsOf(v: Value, n: nat): (r: Result<seq<u64>>)
    ensures r.Ok? ==> |r.value| == n
  {
    var xs :- AsItems(v);
    if |xs| != n then Err(InvalidData) else Collect(xs, AsFinite)
  }

  function FloatsAt(v: Value, k: u64, n: nat): (r: Result<seq<u64>>)
    ensures r.Ok? ==> |r.value| == n
  {
    var x :- FieldOf(v, k);
    FloatsOf(x, n)
  }

  function WriteFloat(bits: u64): (v: Value) { Float(bits) }

  function FloatList(fs: Vec<u64>): (v: Value) { Array(Each(fs, WriteFloat)) }

  function IdsAt(v: Value, k: u64): (r: Result<Vec<Id>>) {
    var x :- FieldOf(v, k);
    var xs :- AsItems(x);
    var ids :- Collect(xs, AsId);
    Ok(ids)
  }

  function WriteId(id: Id): (v: Value) { Blob(id) }

  function IdList(ids: Vec<Id>): (v: Value) { Array(Each(ids, WriteId)) }

  /** No identifier is zero or repeated. */
  predicate Unique(ids: seq<Id>) {
    && (forall i :: 0 <= i < |ids| ==> ids[i] != ZERO)
    && forall i, j :: 0 <= i < j < |ids| ==> ids[i] != ids[j]
  }

  // ---- object references ----

  datatype ObjectRef = ObjectRef(objectId: Id, recordId: Id) {
    predicate Valid() {
      objectId != ZERO && recordId != ZERO
    }
  }

  function WriteRef(r: ObjectRef): (v: Value) {
    Array([Blob(r.objectId), Blob(r.recordId)])
  }

  function ReadRef(v: Value): (r: Result<ObjectRef>) {
    var xs :- AsItems(v);
    if |xs| != 2 then Err(InvalidData)
    else
      var objectId :- AsId(xs[0]);
      var recordId :- AsId(xs[1]);
      Ok(ObjectRef(objectId, recordId))
  }

  function RefsAt(v: Value, k: u64): (r: Result<Vec<ObjectRef>>) {
    var x :- FieldOf(v, k);
    var xs :- AsItems(x);
    var refs :- Collect(xs, ReadRef);
    Ok(refs)
  }

  function RefList(refs: Vec<ObjectRef>): (v: Value) { Array(Each(refs, WriteRef)) }

  predicate ValidRefs(refs: seq<ObjectRef>) {
    forall i :: 0 <= i < |refs| ==> refs[i].Valid()
  }

  function Objects(refs: seq<ObjectRef>): (ids: seq<Id>)
    ensures |ids| == |refs| && forall i :: 0 <= i < |ids| ==> ids[i] == refs[i].objectId
  {
    seq(|refs|, i requires 0 <= i < |refs| => refs[i].objectId)
  }

  function RecordsOf(refs: seq<ObjectRef>): (ids: seq<Id>)
    ensures |ids| == |refs| && forall i :: 0 <= i < |ids| ==> ids[i] == refs[i].recordId
  {
    seq(|refs|, i requires 0 <= i < |refs| => refs[i].recordId)
  }

  // ---- page background ----

  datatype Grid = Grid(step: Pair, origin: Pair, lineWidth: u64, lineRgba: Rgba)

  datatype Background = Background(rgba: Rgba, grid: Option<Grid>, extra: ExtraFields) {
    predicate Valid() {
      && rgba[3] == 255
      && (grid.Some? ==>
            var g := grid.value;
            Positive(g.step[0]) && Positive(g.step[1]) && Positive(g.lineWidth) && AllFinite(g.origin))
    }

    function ToValue(): (r: Result<Value>) {
      if !Valid() then Err(InvalidData)
      else if grid.None? then Assemble([Some(Num(0)), Some(Blob(rgba)), None, None, None, None, None], extra)
      else
        var g := grid.value;
        Assemble([Some(Num(1)), Some(Blob(rgba)), Some(Float(g.step[0])), Some(Float(g.step[1])),
                  Some(FloatList(g.origin)), Some(Float(g.lineWidth)), Some(Blob(g.lineRgba))], extra)
    }
  }

  function ReadGrid(v: Value): (r: Result<Option<Grid>>) {
    var kind :- NumberAt(v, 0);
    if kind == 0 then
      if exists k :: 2 <= k <= 6 && Lookup(v, k).Some? then Err(InvalidData) else Ok(None)
    else if kind == 1 then
      var x :- FloatAt(v, 2);
      var y :- FloatAt(v, 3);
      var origin :- FloatsAt(v, 4, 2);
      var width :- FloatAt(v, 5);
      var rgba :- BlobAt(v, 6, 4);
      Ok(Some(Grid([x, y], origin, width, rgba)))
    else Err(Unsupported)
  }

  function ReadBackground(v: Value): (r: Result<Background>) {
    var grid :- ReadGrid(v);
    var rgba :- BlobAt(v, 1, 4);
    var extra :- Extras(v, Known(7));
    var result := Background(rgba, grid, extra);
    var _ :- result.ToValue();
    Ok(result)
  }

  // ---- maps keyed by identifiers and hashes ----

  type IdMap<V> = t: seq<Keyed<V>> |
      Ascending(t) && |t| <= USIZE_MAX && forall i :: 0 <= i < |t| ==> |t[i].key| == 16

  type HashMap<V> = t: seq<Keyed<V>> |
      Ascending(t) && |t| <= USIZE_MAX && forall i :: 0 <= i < |t| ==> |t[i].key| == 32

  function ReadEntry<V>(f: Field, key: Value -> Result<Vec<u8>>, read: Value -> Result<V>): (r: Result<Keyed<V>>) {
    match key(f.key)
    case Err(e) => Err(e)
    case Ok(k) => match read(f.value) case Err(e) => Err(e) case Ok(v) => Ok(Keyed(k, v))
  }

  /** The entries of a map field, in the order listed. */
  function ReadEntries<V>(fs: seq<Field>, key: Value -> Result<Vec<u8>>, read: Value -> Result<V>)
    : (r: Result<seq<Keyed<V>>>)
    ensures r.Ok? ==> |r.value| == |fs| && forall i :: 0 <= i < |fs| ==> ReadEntry(fs[i], key, read) == Ok(r.value[i])
  {
    if fs == [] then Ok([])
    else
      match ReadEntry(fs[0], key, read)
      case Err(e) => Err(e)
      case Ok(x) =>
        match ReadEntries(fs[1..], key, read)
        case Err(e) => Err(e)
        case Ok(xs) => Ok([x] + xs)
  }

  function ReadIdMap<V>(v: Value, read: Value -> Result<V>): (r: Result<IdMap<V>>) {
    if !v.Map? then Err(InvalidData)
    else
      match ReadEntries(v.fields, IdKey, read)
      case Err(e) => Err(e)
      case Ok(es) =>
        assert forall i :: 0 <= i < |es| ==> ReadEntry(v.fields[i], IdKey, read) == Ok(es[i]);
        GatherKeyedLength(es, 16);
        Ok(GatherKeyed(es))
  }

  function ReadHashMap<V>(v: Value, read: Value -> Result<V>): (r: Result<HashMap<V>>) {
    if !v.Map? then Err(InvalidData)
    else
      match ReadEntries(v.fields, HashKey, read)
      case Err(e) => Err(e)
      case Ok(es) =>
        assert forall i :: 0 <= i < |es| ==> ReadEntry(v.fields[i], HashKey, read) == Ok(es[i]);
        GatherKeyedLength(es, 32);
        Ok(GatherKeyed(es))
  }

  function IdKey(v: Value): (r: Result<Vec<u8>>)
    ensures r.Ok? ==> |r.value| == 16 && v == Blob(r.value) && r.value != ZERO
  {
    match AsId(v) case Err(e) => Err(e) case Ok(id) => Ok(id)
  }

  function HashKey(v: Value): (r: Result<Vec<u8>>)
    ensures r.Ok? ==> |r.value| == 32 && v == Blob(r.value)
  {
    AsBlob(v, 32)
  }

  function WriteMap<V>(t: seq<Keyed<V>>, write: V -> Value): (v: Value)
    requires |t| <= USIZE_MAX && forall i :: 0 <= i < |t| ==> |t[i].key| <= USIZE_MAX
    ensures v.Map? && |v.fields| == |t|
    ensures forall i :: 0 <= i < |t| ==> v.fields[i] == Field(Blob(t[i].key), write(t[i].value))
  {
    Map(MapEntries(t, write))
  }

  function MapEntries<V>(t: seq<Keyed<V>>, write: V -> Value): (fs: seq<Field>)
    requires forall i :: 0 <= i < |t| ==> |t[i].key| <= USIZE_MAX
    ensures |fs| == |t| && forall i :: 0 <= i < |t| ==> fs[i] == Field(Blob(t[i].key), write(t[i].value))
  {
    seq(|t|, i requires 0 <= i < |t| => Field(Blob(t[i].key), write(t[i].value)))
  }

  predicate NonzeroKeys<V>(t: seq<Keyed<V>>) {
    forall i :: 0 <= i < |t| ==> t[i].key != ZERO
  }

  /** The map with field k holding `os[k]` and no other field. */
  function SmallMap(os: seq<Option<Value>>): (v: Value)
    requires |os| <= FIRST_EXTENSION
  {
    SlotsAt(os);
    SlotsLength(os);
    Map(ToFields(Slots(os)))
  }

  lemma {:induction false} SlotsLength(os: seq<Option<Value>>)
    ensures |Slots(os)| <= |os|
  {
    if os != [] {
      SlotsLength(os[..|os| - 1]);
    }
  }

  // ---- page ----

  datatype Page = Page(
    id: Id,
    width: u64,
    height: u64,
    objects: Vec<ObjectRef>,
    background: Background,
    recognition: Vec<Id>,
    corrections: Vec<Id>,
    selection: HashMap<Id>,
    extra: ExtraFields)
  {
    predicate Valid() {
      && Positive(width) && Positive(height) && id != ZERO
      && Unique(Objects(objects)) && Unique(recognition) && Unique(corrections)
      && (forall i :: 0 <= i < |selection| ==> selection[i].value in recognition)
      && ValidRefs(objects)
    }

    function ToValue(): (r: Result<Value>) {
      if !Valid() then Err(InvalidData)
      else
        var paper :- background.ToValue();
        Assemble([Some(Blob(id)), Some(Float(width)), Some(Float(height)), Some(RefList(objects)), Some(paper),
                  Some(IdList(recognition)), Some(IdList(corrections)), Some(WriteMap(selection, WriteId))], extra)
    }

    function Dependencies(): (ids: seq<Id>) {
      RecordsOf(objects) + recognition + corrections
    }
  }

  function ReadPage(v: Value): (r: Result<Page>) {
    var id :- IdAt(v, 0);
    var width :- FloatAt(v, 1);
    var height :- FloatAt(v, 2);
    var objects :- RefsAt(v, 3);
    var paper :- FieldOf(v, 4);
    var background :- ReadBackground(paper);
    var recognition :- IdsAt(v, 5);
    var corrections :- IdsAt(v, 6);
    var chosen :- FieldOf(v, 7);
    var selection :- ReadHashMap(chosen, AsId);
    var extra :- Extras(v, Known(8));
    var result := Page(id, width, height, objects, background, recognition, corrections, selection, extra);
    var _ :- result.ToValue();
    Ok(result)
  }

  // ---- stroke ----

  datatype Stroke = Stroke(
    id: Id,
    geometry: Id,
    brush: Id,
    rgba: Rgba,
    width: u64,
    transform: Transform,
    createdAt: Option<i64>,
    updatedAt: Option<i64>,
    extra: ExtraFields)
  {
    predicate Valid(invertible: Invertible) {
      && Positive(width) && id != ZERO && geometry != ZERO && brush != ZERO
      && AllFinite(transform) && invertible(transform)
    }

    function ToValue(invertible: Invertible): (r: Result<Value>) {
      if !Valid(invertible) then Err(InvalidData)
      else
        Assemble([Some(Blob(id)), Some(Blob(geometry)), Some(Blob(brush)), Some(Blob(rgba)), Some(Float(width)),
                  Some(FloatList(transform)), WriteTime(createdAt), WriteTime(updatedAt)], extra)
    }

    function Dependencies(): (ids: seq<Id>) {
      [geometry, brush]
    }
  }

  function WriteTime(t: Option<i64>): (v: Option<Value>) {
    match t case None => None case Some(n) => Some(Integer(n))
  }

  function ReadTime(v: Value, k: u64): (r: Result<Option<i64>>) {
    match Lookup(v, k)
    case None => Ok(None)
    case Some(x) =>
      if x.Integer? && -0x8000_0000_0000_0000 <= x.n < 0x8000_0000_0000_0000 then Ok(Some(x.n))
      else Err(InvalidData)
  }

  function ReadStroke(v: Value, invertible: Invertible): (r: Result<Stroke>) {
    var id :- IdAt(v, 0);
    var geometry :- IdAt(v, 1);
    var brush :- IdAt(v, 2);
    var rgba :- BlobAt(v, 3, 4);
    var width :- FloatAt(v, 4);
    var transform :- FloatsAt(v, 5, 6);
    var createdAt :- ReadTime(v, 6);
    var updatedAt :- ReadTime(v, 7);
    var extra :- Extras(v, Known(8));
    var result := Stroke(id, geometry, brush, rgba, width, transform, createdAt, updatedAt, extra);
    var _ :- result.ToValue(invertible);
    Ok(result)
  }

  // ---- geometry ----

  datatype Part = Part(segment: Id, firstSample: u32, count: u32, firstTick: u64)

  datatype Timing = Timing(session: Id, startTick: u64)

  datatype Geometry = Geometry(
    profile: Id,
    timing: Option<Timing>,
    pointCount: u32,
    parts: Vec<Part>,
    bounds: Option<Quad>,
    provenance: Option<Value>,
    extra: ExtraFields)
  {
    predicate Valid() {
      && profile != ZERO && pointCount > 0 && parts != []
      && PartsEnd(parts, 0) == Some(pointCount)
      && (timing.Some? ==> timing.value.session != ZERO)
      && (bounds.Some? ==>
            var b := bounds.value;
            AllFinite(b) && AtMost(b[0], b[2]) && AtMost(b[1], b[3]))
      && (provenance.Some? ==> IdsAt(provenance.value, 0).Ok? && TextAt(provenance.value, 1).Ok?)
    }

    function ToValue(): (r: Result<Value>) {
      if !Valid() then Err(InvalidData)
      else
        Assemble([Some(Blob(profile)), Some(WriteTiming(timing)), Some(Num(pointCount)),
                  Some(Array(Each(parts, WritePart))), Some(Num(0)),
                  if bounds.None? then None else Some(FloatList(bounds.value)), provenance], extra)
    }

    function Dependencies(): (ids: seq<Id>) {
      [profile] + (if timing.Some? then [timing.value.session] else [])
    }
  }

  /** The sample after the last part, if the parts follow each other from sample `n`. */
  function PartsEnd(parts: seq<Part>, n: u32): (end: Option<u32>) {
    if parts == [] then Some(n)
    else if parts[0].segment == ZERO || parts[0].count == 0 || parts[0].firstSample != n then None
    else if n + parts[0].count > 0xFFFF_FFFF then None
    else PartsEnd(parts[1..], n + parts[0].count)
  }

  function WriteTiming(t: Option<Timing>): (v: Value) {
    match t
    case None => Null
    case Some(x) => SmallMap([Some(Blob(x.session)), Some(Num(x.startTick))])
  }

  function ReadTiming(v: Value): (r: Result<Option<Timing>>) {
    if v.Null? then Ok(None)
    else
      var extra :- Extras(v, Known(2));
      if extra != [] then Err(InvalidData)
      else
        var session :- IdAt(v, 0);
        var start :- NumberAt(v, 1);
        Ok(Some(Timing(session, start)))
  }

  function WritePart(p: Part): (v: Value) {
    SmallMap([Some(Blob(p.segment)), Some(Num(p.firstSample)), Some(Num(p.count)), Some(Num(p.firstTick))])
  }

  function U32At(v: Value, k: u64): (r: Result<u32>) {
    var n :- NumberAt(v, k);
    if n > 0xFFFF_FFFF then Err(InvalidData) else Ok(n)
  }

  function ReadPart(v: Value): (r: Result<Part>) {
    var extra :- Extras(v, Known(4));
    if extra != [] then Err(InvalidData)
    else
      var segment :- IdAt(v, 0);
      var first :- U32At(v, 1);
      var count :- U32At(v, 2);
      var tick :- NumberAt(v, 3);
      Ok(Part(segment, first, count, tick))
  }

  function ReadBounds(v: Value): (r: Result<Option<Quad>>) {
    match Lookup(v, 5)
    case None => Ok(None)
    case Some(x) =>
      var fs :- FloatsOf(x, 4);
      Ok(Some(fs))
  }

  function ReadGeometry(v: Value): (r: Result<Geometry>) {
    var accuracy :- NumberAt(v, 4);
    if accuracy != 0 then Err(InvalidData)
    else
      var timingField :- FieldOf(v, 1);
      var timing :- ReadTiming(timingField);
      var profile :- IdAt(v, 0);
      var pointCount :- U32At(v, 2);
      var partField :- FieldOf(v, 3);
      var partItems :- AsItems(partField);
      var parts :- Collect(partItems, ReadPart);
      var bounds :- ReadBounds(v);
      var extra :- Extras(v, Known(7));
      var result := Geometry(profile, timing, pointCount, parts, bounds, Lookup(v, 6), extra);
      var _ :- result.ToValue();
      Ok(result)
  }

  // ---- source profile ----

  datatype Axis = Axis(
    unit: Utf8String,
    representation: u64,
    convention: Utf8String,
    min: Option<u64>,
    max: Option<u64>,
    extra: ExtraFields)
  {
    predicate Valid() {
      && representation <= 3
      && (min.Some? ==> Finite(min.value)) && (max.Some? ==> Finite(max.value))
      && (min.Some? && max.Some? ==> AtMost(min.value, max.value))
    }

    function ToValue(): (r: Result<Value>) {
      if !Valid() then Err(InvalidData)
      else
        Assemble([Some(Text(unit)), Some(Num(representation)), Some(Text(convention)), WriteLimit(min), WriteLimit(max)],
                 extra)
    }
  }

  function WriteLimit(x: Option<u64>): (v: Option<Value>) {
    match x case None => None case Some(bits) => Some(Float(bits))
  }

  function ReadLimit(v: Value, k: u64): (r: Result<Option<u64>>) {
    match Lookup(v, k)
    case None => Ok(None)
    case Some(x) => if x.Float? then Ok(Some(x.bits)) else Err(InvalidData)
  }

  function ReadAxis(v: Value): (r: Result<Axis>) {
    var unit :- TextAt(v, 0);
    var representation :- NumberAt(v, 1);
    var convention :- TextAt(v, 2);
    var min :- ReadLimit(v, 3);
    var max :- ReadLimit(v, 4);
    var extra :- Extras(v, Known(5));
    var result := Axis(unit, representation, convention, min, max, extra);
    var _ :- result.ToValue();
    Ok(result)
  }

  type Axes = t: seq<Numbered<Axis>> |
      Increasing(t) && |t| <= USIZE_MAX && forall i :: 0 <= i < |t| ==> t[i].key < 0x1_0000

  function AxisAt(axes: seq<Numbered<Axis>>, k: u64): (r: Option<Axis>) {
    if axes == [] then None else if axes[0].key == k then Some(axes[0].value) else AxisAt(axes[1..], k)
  }

  datatype SourceProfile = SourceProfile(axes: Axes, provenance: Value, tickNs: Option<u64>, extra: ExtraFields) {
    predicate Valid() {
      && AxisAt(axes, 1).Some? && AxisAt(axes, 2).Some? && AxisAt(axes, 12).Some? && AxisAt(axes, 0).None?
      && TextAt(provenance, 0).Ok? && tickNs != Some(0)
      && AxisAt(axes, 4).Some? == tickNs.Some?
      && (AxisAt(axes, 3).Some? ==> PressureValid(AxisAt(axes, 3).value))
    }

    function ToValue(): (r: Result<Value>) {
      if !Valid() then Err(InvalidData)
      else
        var fs :- WriteAxes(axes);
        Assemble([Some(Map(fs)), Some(provenance), Some(if tickNs.None? then Null else Num(tickNs.value))], extra)
    }

    function Dependencies(): (ids: seq<Id>) {
      []
    }
  }

  predicate PressureValid(p: Axis) {
    if p.representation <= 1 then p.min.Some? && p.max.Some? && Below(p.min.value, p.max.value)
    else p.representation == 2
  }

  function WriteAxes(axes: seq<Numbered<Axis>>): (r: Result<seq<Field>>)
    ensures r.Ok? ==> |r.value| == |axes|
  {
    if axes == [] then Ok([])
    else
      var v :- axes[0].value.ToValue();
      var rest :- WriteAxes(axes[1..]);
      Ok([Field(Num(axes[0].key), v)] + rest)
  }

  function ReadAxes(fs: seq<Field>): (r: Result<seq<Numbered<Axis>>>)
    ensures r.Ok? ==> |r.value| == |fs| && forall i :: 0 <= i < |fs| ==> r.value[i].key < 0x1_0000
  {
    if fs == [] then Ok([])
    else
      var k :- AsU64(fs[0].key);
      if k >= 0x1_0000 then Err(InvalidData)
      else
        var axis :- ReadAxis(fs[0].value);
        var rest :- ReadAxes(fs[1..]);
        Ok([Numbered(k, axis)] + rest)
  }

  function ReadSourceProfile(v: Value): (r: Result<SourceProfile>) {
    var axisField :- FieldOf(v, 0);
    if !axisField.Map? then Err(InvalidData)
    else
      var entries :- ReadAxes(axisField.fields);
      GatherBounds(entries, 0x1_0000);
      var provenance :- FieldOf(v, 1);
      var tickField :- FieldOf(v, 2);
      var tickNs :- ReadTick(tickField);
      var extra :- Extras(v, Known(3));
      var result := SourceProfile(Gather(entries), provenance, tickNs, extra);
      var _ :- result.ToValue();
      Ok(result)
  }

  function ReadTick(v: Value): (r: Result<Option<u64>>) {
    if v.Null? then Ok(None)
    else
      var n :- AsU64(v);
      Ok(Some(n))
  }

  // ---- brush and session ----

  datatype Brush = Brush(contract: Utf8String, version: u64, parameters: Value, extra: ExtraFields) {
    predicate Valid() {
      contract != [] && version > 0 && parameters.Map?
    }

    function ToValue(): (r: Result<Value>) {
      if !Valid() then Err(InvalidData)
      else Assemble([Some(Text(contract)), Some(Num(version)), Some(parameters)], extra)
    }
  }

  function ReadBrush(v: Value): (r: Result<Brush>) {
    var contract :- TextAt(v, 0);
    var version :- NumberAt(v, 1);
    var parameters :- FieldOf(v, 2);
    var extra :- Extras(v, Known(3));
    var result := Brush(contract, version, parameters, extra);
    var _ :- result.ToValue();
    Ok(result)
  }

  datatype Session = Session(tickNs: u64, wallAnchor: Option<Value>, adapter: Utf8String, extra: ExtraFields) {
    predicate Valid() {
      && tickNs > 0 && adapter != []
      && (wallAnchor.Some? ==>
            var w := wallAnchor.value;
            && NumberAt(w, 0).Ok? && FieldOf(w, 1).Ok? && ReadTime(w, 1).Ok?
            && (Lookup(w, 2).Some? ==> NumberAt(w, 2).Ok?))
    }

    function ToValue(): (r: Result<Value>) {
      if !Valid() then Err(InvalidData)
      else Assemble([Some(Num(tickNs)), Some(Num(1)), wallAnchor, Some(Text(adapter))], extra)
    }
  }

  function ReadSession(v: Value): (r: Result<Session>) {
    var clock :- NumberAt(v, 1);
    if clock != 1 then Err(InvalidData)
    else
      var tickNs :- NumberAt(v, 0);
      var adapter :- TextAt(v, 3);
      var extra :- Extras(v, Known(4));
      var result := Session(tickNs, Lookup(v, 2), adapter, extra);
      var _ :- result.ToValue();
      Ok(result)
  }

  // ---- document ----

  datatype BlobRef = BlobRef(hash: Hash, length: u64)

  function WriteBlobRef(b: BlobRef): (v: Value) {
    Array([Blob(b.hash), Num(b.length)])
  }

  function ReadBlobRef(v: Value): (r: Result<BlobRef>) {
    var xs :- AsItems(v);
    if |xs| != 2 then Err(InvalidData)
    else
      var hash :- AsBlob(xs[0], 32);
      var length :- AsU64(xs[1]);
      Ok(BlobRef(hash, length))
  }

  datatype SegmentRef = SegmentRef(chunk: Id, index: u32)

  function WriteSegmentRef(s: SegmentRef): (v: Value) {
    Array([Blob(s.chunk), Num(s.index)])
  }

  function ReadSegmentRef(v: Value): (r: Result<SegmentRef>) {
    var xs :- AsItems(v);
    if |xs| != 2 then Err(InvalidData)
    else
      var chunk :- AsId(xs[0]);
      var index :- AsU64(xs[1]);
      if index > 0xFFFF_FFFF then Err(InvalidData) else Ok(SegmentRef(chunk, index))
  }

  function WriteNumber(n: u64): (v: Value) { Num(n) }

  datatype Document = Document(
    id: Id,
    pages: Vec<ObjectRef>,
    chunks: IdMap<BlobRef>,
    segments: IdMap<SegmentRef>,
    records: IdMap<BlobRef>,
    resources: HashMap<u64>,
    extra: ExtraFields)
  {
    predicate Valid() {
      && id != ZERO && Unique(Objects(pages))
      && NonzeroKeys(chunks) && NonzeroKeys(segments) && NonzeroKeys(records)
      && ValidRefs(pages)
    }

    function ToValue(): (r: Result<Value>) {
      if !Valid() then Err(InvalidData)
      else
        Assemble([Some(Blob(id)), Some(Num(1)), Some(Num(0)), Some(RefList(pages)), Some(WriteMap(chunks, WriteBlobRef)),
                  Some(WriteMap(segments, WriteSegmentRef)), Some(WriteMap(records, WriteBlobRef)),
                  Some(WriteMap(resources, WriteNumber))], extra)
    }

    function Dependencies(): (ids: seq<Id>) {
      RecordsOf(pages)
    }
  }

  function ReadDocument(v: Value): (r: Result<Document>) {
    var major :- NumberAt(v, 1);
    var minor :- NumberAt(v, 2);
    if major != 1 || minor != 0 then Err(InvalidData)
    else
      var id :- IdAt(v, 0);
      var pages :- RefsAt(v, 3);
      var chunkField :- FieldOf(v, 4);
      var chunks :- ReadIdMap(chunkField, ReadBlobRef);
      var segmentField :- FieldOf(v, 5);
      var segments :- ReadIdMap(segmentField, ReadSegmentRef);
      var recordField :- FieldOf(v, 6);
      var records :- ReadIdMap(recordField, ReadBlobRef);
      var resourceField :- FieldOf(v, 7);
      var resources :- ReadHashMap(resourceField, AsU64);
      var extra :- Extras(v, Known(8));
      var result := Document(id, pages, chunks, segments, records, resources, extra);
      var _ :- result.ToValue();
      Ok(result)
  }
}
