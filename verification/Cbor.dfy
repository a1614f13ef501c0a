/** Deterministic CBOR (section 4.2.1 of RFC 8949): the value tree of the ink format,
    its canonical form, and the encoder and decoder built on them. */
module Cbor {
  import opened Bytes
  import opened Results
  import opened Syntax
  import opened Preflight
  import opened Floats
  import opened Sorting

  const RECORD_LIMIT: nat := 16 * 1024 * 1024

  /** Containers the reader may have open at once. */
  const READER_LIMIT: nat := 32

  type Integer64 = n: int | -0x1_0000_0000_0000_0000 <= n < 0x1_0000_0000_0000_0000
  type Vec<T> = s: seq<T> | |s| <= USIZE_MAX
  type Utf8String = s: Vec<u8> | Utf8(s)

  /** Well-formed UTF-8 (section 4 of RFC 3629). */
  predicate Utf8(s: seq<u8>)
    decreases |s|
  {
    if s == [] then true
    else if s[0] < 0x80 then Utf8(s[1..])
    else if 0xC2 <= s[0] <= 0xDF then |s| >= 2 && Tail(s[1]) && Utf8(s[2..])
    else if 0xE0 <= s[0] <= 0xEF then
      && |s| >= 3 && Tail(s[1]) && Tail(s[2])
      && (s[0] == 0xE0 ==> s[1] >= 0xA0) && (s[0] == 0xED ==> s[1] <= 0x9F)
      && Utf8(s[3..])
    else
      && 0xF0 <= s[0] <= 0xF4 && |s| >= 4 && Tail(s[1]) && Tail(s[2]) && Tail(s[3])
      && (s[0] == 0xF0 ==> s[1] >= 0x90) && (s[0] == 0xF4 ==> s[1] <= 0x8F)
      && Utf8(s[4..])
  }

  predicate Tail(b: u8) {
    0x80 <= b <= 0xBF
  }

  datatype Value =
    | Integer(n: Integer64)
    | Blob(b: Vec<u8>)
    | Float(bits: u64)
    | Text(s: Utf8String)
    | Bool(on: bool)
    | Null
    | Tag(tag: u64, inner: Value)
    | Array(items: Vec<Value>)
    | Map(fields: Vec<Field>)

  datatype Field = Field(key: Value, value: Value)

  function Num(n: u64): (v: Value) {
    Integer(n)
  }

  /** Values the format can write: no tags and only finite floats. */
  predicate Supported(v: Value)
    decreases v, 0
  {
    match v
    case Float(bits) => Finite(bits)
    case Tag(_, _) => false
    case Array(vs) => forall i :: 0 <= i < |vs| ==> Supported(vs[i])
    case Map(fs) => forall i :: 0 <= i < |fs| ==> SupportedField(fs[i])
    case _ => true
  }

  predicate SupportedField(f: Field)
    decreases f
  {
    Supported(f.key) && Supported(f.value)
  }

  // ---- values and their shortest syntax ----

  function Shortest(arg: u64): (w: Width)
    ensures w.Fits(arg)
  {
    RadixValues();
    if arg <= 23 then Inline
    else if arg < 0x100 then One
    else if arg < 0x1_0000 then Two
    else if arg < 0x1_0000_0000 then Four
    else Eight
  }

  function FloatItem(bits: u64): (t: Item)
    ensures t.Valid() && t.FloatBits?
  {
    RadixValues();
    if Widen16(Narrow16(bits)) == bits then FloatBits(Two, Narrow16(bits))
    else if Widen32(Narrow32(bits)) == bits then FloatBits(Four, Narrow32(bits))
    else FloatBits(Eight, bits)
  }

  /** The syntax the serializer chooses. Tags never get here: `Canonical` refuses them. */
  function ToItem(v: Value): (t: Item)
    ensures t.Valid()
    decreases v, 0
  {
    match v
    case Integer(n) => if n >= 0 then Unsigned(Shortest(n), n) else Negative(Shortest(-1 - n), -1 - n)
    case Blob(b) => ByteString(Shortest(|b|), b)
    case Float(bits) => FloatItem(bits)
    case Text(s) => TextString(Shortest(|s|), s)
    case Bool(on) => Simple(if on then 21 else 20)
    case Null => Simple(22)
    case Tag(_, inner) => ToItem(inner)
    case Array(vs) => List(Shortest(|vs|), ItemsOf(vs))
    case Map(fs) => Table(Shortest(|fs|), EntriesOf(fs))
  }

  function ItemsOf(vs: seq<Value>): (ts: seq<Item>)
    ensures |ts| == |vs| && AllValid(ts)
    decreases vs
  {
    if vs == [] then [] else [ToItem(vs[0])] + ItemsOf(vs[1..])
  }

  function EntriesOf(fs: seq<Field>): (ts: seq<Item>)
    ensures |ts| == 2 * |fs| && AllValid(ts)
    decreases fs
  {
    if fs == [] then [] else EntryOf(fs[0]) + EntriesOf(fs[1..])
  }

  function EntryOf(f: Field): (ts: seq<Item>)
    ensures |ts| == 2 && AllValid(ts) && ts[0].Valid() && ts[1].Valid()
    decreases f
  {
    [ToItem(f.key), ToItem(f.value)]
  }

  /** The bytes the serializer writes for a value. */
  function Serialize(v: Value): (s: seq<u8>) {
    Print(ToItem(v))
  }

  // ---- canonical form, encoding and decoding ----

  /** The value with every map in key order, if the format can write it. */
  function Canonical(v: Value, depth: nat): (r: Result<Value>)
    decreases v, 0
  {
    if depth > MAX_DEPTH then Err(InvalidData)
    else
      match v
      case Map(fs) =>
        var cs :- CanonicalFields(fs, depth + 1);
        Arrange(cs)
      case Array(vs) =>
        var cs :- CanonicalItems(vs, depth + 1);
        Ok(Array(cs))
      case Float(bits) => if Finite(bits) then Ok(v) else Err(InvalidData)
      case Tag(_, _) => Err(InvalidData)
      case _ => Ok(v)
  }

  function CanonicalItems(vs: seq<Value>, depth: nat): (r: Result<seq<Value>>)
    ensures r.Ok? ==> |r.value| == |vs|
    decreases vs
  {
    if vs == [] then Ok([])
    else
      var c :- Canonical(vs[0], depth);
      var cs :- CanonicalItems(vs[1..], depth);
      Ok([c] + cs)
  }

  function CanonicalFields(fs: seq<Field>, depth: nat): (r: Result<seq<Field>>)
    ensures r.Ok? ==> |r.value| == |fs|
    decreases fs
  {
    if fs == [] then Ok([])
    else
      var c :- CanonicalField(fs[0], depth);
      var cs :- CanonicalFields(fs[1..], depth);
      Ok([c] + cs)
  }

  function CanonicalField(f: Field, depth: nat): (r: Result<Field>)
    decreases f
  {
    var k :- Canonical(f.key, depth);
    var v :- Canonical(f.value, depth);
    Ok(Field(k, v))
  }

  /** The map of the given fields sorted by encoded key, unless two keys encode alike. */
  function Arrange(fs: Vec<Field>): (r: Result<Value>)
  {
    var sorted := Sort(Keys(fs));
    if NeighboursDiffer(sorted) then Ok(Map(FieldsOf(sorted))) else Err(InvalidData)
  }

  function Keys(fs: seq<Field>): (es: seq<Keyed<Field>>)
    ensures |es| == |fs| && forall i :: 0 <= i < |es| ==> es[i] == Keyed(Serialize(fs[i].key), fs[i])
  {
    seq(|fs|, i requires 0 <= i < |fs| => Keyed(Serialize(fs[i].key), fs[i]))
  }

  function FieldsOf(es: seq<Keyed<Field>>): (fs: seq<Field>)
    ensures |fs| == |es| && forall i :: 0 <= i < |fs| ==> fs[i] == es[i].value
  {
    seq(|es|, i requires 0 <= i < |es| => es[i].value)
  }

  function Encode(v: Value): (r: Result<seq<u8>>) {
    var c :- Canonical(v, 0);
    var out := Serialize(c);
    if |out| > RECORD_LIMIT || !Accepts(out) then Err(InvalidData) else Ok(out)
  }

  /** What the CBOR library builds from well-formed syntax: text must be UTF-8, and at
      most `limit` containers may be open at once. */
  function FromItem(t: Item, limit: nat): (r: Option<Value>)
    requires t.Valid()
    decreases t, 0
  {
    RadixValues();
    match t
    case Unsigned(_, a) => Some(Integer(a))
    case Negative(_, a) => Some(Integer(-1 - a))
    case ByteString(_, d) => Some(Blob(d))
    case TextString(_, d) => if Utf8(d) then Some(Text(d)) else None
    case Simple(c) => Some(if c == 20 then Bool(false) else if c == 21 then Bool(true) else Null)
    case FloatBits(w, a) => Some(Float(if w.Two? then Widen16(a) else if w.Four? then Widen32(a) else a))
    case List(_, ts) =>
      if limit == 0 then None
      else (match FromItems(ts, limit - 1) case None => None case Some(vs) => Some(Array(vs)))
    case Table(_, ts) =>
      if limit == 0 then None
      else (match FromEntries(ts, limit - 1) case None => None case Some(fs) => Some(Map(fs)))
  }

  function FromItems(ts: seq<Item>, limit: nat): (r: Option<seq<Value>>)
    requires AllValid(ts)
    ensures r.Some? ==> |r.value| == |ts|
    decreases ts
  {
    if ts == [] then Some([])
    else
      match (FromItem(ts[0], limit), FromItems(ts[1..], limit))
      case (Some(v), Some(vs)) => Some([v] + vs)
      case _ => None
  }

  lemma TwoAreValid(ts: seq<Item>)
    requires AllValid(ts) && |ts| >= 2
    ensures ts[0].Valid() && ts[1].Valid() && AllValid(ts[2..])
  {
    assert AllValid(ts[1..]) && ts[1..][0] == ts[1] && ts[1..][1..] == ts[2..];
  }

  function FromEntries(ts: seq<Item>, limit: nat): (r: Option<seq<Field>>)
    requires AllValid(ts) && |ts| % 2 == 0
    ensures r.Some? ==> 2 * |r.value| == |ts|
    decreases ts
  {
    if ts == [] then Some([])
    else
      TwoAreValid(ts);
      match (FromItem(ts[0], limit), FromItem(ts[1], limit), FromEntries(ts[2..], limit))
      case (Some(k), Some(v), Some(fs)) => Some([Field(k, v)] + fs)
      case _ => None
  }

  /** The CBOR library's reader, over a whole input. */
  function Read(input: seq<u8>, limit: nat): (r: Result<Value>)
    requires |input| <= RECORD_LIMIT
  {
    match Parse(input)
    case Bad => Err(InvalidData)
    case Good(t, _) =>
      PrintParse(input);
      match FromItem(t, limit)
      case None => Err(InvalidData)
      case Some(v) => Ok(v)
  }

  function Decode(input: seq<u8>): (r: Result<Value>) {
    if |input| > RECORD_LIMIT || !Accepts(input) then Err(InvalidData)
    else
      var v :- Read(input, READER_LIMIT);
      if Encode(v) == Ok(input) then Ok(v) else Err(InvalidData)
  }
}
