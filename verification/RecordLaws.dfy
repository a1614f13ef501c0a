/** Records survive writing and reading, and reading loses nothing. */
module RecordLaws {
  import opened Bytes
  import opened Results
  import opened Preflight
  import opened Cbor
  import opened CborLaws
  import opened CborTheorems
  import opened Fields
  import opened Records

  lemma SevenFields(fs: seq<Field>)
    requires |fs| == 7 && AscendingFields(fs)
    requires forall k :: 0 <= k < 7 ==> Find(fs, k).Some?
    ensures fs == [
      Field(Num(0), Find(fs, 0).value), Field(Num(1), Find(fs, 1).value), Field(Num(2), Find(fs, 2).value),
      Field(Num(3), Find(fs, 3).value), Field(Num(4), Find(fs, 4).value), Field(Num(5), Find(fs, 5).value),
      Field(Num(6), Find(fs, 6).value)]
  {
    hide Find, AscendingFields;
    KeysInPlace(fs, 7);
  }

  /** Rebuilding the envelope from its parts gives the value that was taken apart. */
  lemma RebuildValue(v: Value)
    requires FromValue(v).Ok? && InOrder(v)
    ensures FromValue(v).value.ToValue() == v
  {
    hide Find;
    var r := FromValue(v).value;
    var fs := v.fields;
    assert forall k :: 0 <= k < 7 ==> Find(fs, k).Some? by {
      assert Lookup(v, 0).Some? && Lookup(v, 1).Some? && Lookup(v, 2).Some? && Lookup(v, 3).Some?;
      assert Lookup(v, 4).Some? && Lookup(v, 5).Some? && Lookup(v, 6).Some?;
    }
    SevenFields(fs);
    EachCollect(AsItems(Find(fs, 3).value).value, AsU64, WriteU64);
    EachCollect(AsItems(Find(fs, 5).value).value, AsId, WriteId);
    EachCollect(AsItems(Find(fs, 6).value).value, AsHash, WriteHash);
  }

  /** What a record becomes when written and read: its body and extension maps are put in
      key order, and nothing else changes. */
  function Normal(r: Record): (n: Record)
    requires Canonical(r.body, 1).Ok? && Canonical(r.extensions, 1).Ok?
  {
    r.(body := Canonical(r.body, 1).value, extensions := Canonical(r.extensions, 1).value)
  }

  /** Reading a record and writing it again gives the bytes that were read. */
  lemma RecordEncodeDecode(input: seq<u8>)
    requires Records.Decode(input).Ok?
    ensures var r := Records.Decode(input).value;
            r.Encode() == Ok(input) && InOrder(r.body) && InOrder(r.extensions)
  {
    hide FromValue, Cbor.Encode, Cbor.Decode, Serialize;
    var v := Cbor.Decode(input).value;
    EncodeDecode(input);
    RebuildValue(v);
    var r := Records.Decode(input).value;
    assert r.ToValue().fields[2].value == r.body && r.ToValue().fields[4].value == r.extensions;
    assert InOrderField(v.fields[2]) && InOrderField(v.fields[4]);
  }

  // ---- writing, then reading ----

  predicate Scalar(v: Value) {
    v.Integer? || v.Blob? || v.Text? || v.Bool? || v.Null?
  }

  lemma {:induction false} ScalarsAreCanonical(vs: seq<Value>, depth: nat)
    requires depth <= MAX_DEPTH && forall v <- vs :: Scalar(v)
    ensures CanonicalItems(vs, depth) == Ok(vs) && MostContainers(vs) == 0
  {
    hide Canonical, Containers;
    if vs != [] {
      ScalarIsCanonical(vs[0], depth);
      ScalarsAreCanonical(vs[1..], depth);
      assert vs == [vs[0]] + vs[1..];
    }
  }

  lemma ScalarIsCanonical(v: Value, depth: nat)
    requires depth <= MAX_DEPTH && Scalar(v)
    ensures Canonical(v, depth) == Ok(v) && Containers(v) == 0
  {
  }

  lemma {:induction false} UintKeysKept(fs: Vec<Field>, depth: nat)
    requires UintKeys(Map(fs)) && Canonical(Map(fs), depth).Ok?
    ensures UintKeys(Canonical(Map(fs), depth).value)
  {
    hide Arrange, CanonicalFields, AscendingFields, DistinctSerialized;
    CanonicalFieldsAt(fs, depth + 1);
    var cs: Vec<Field> := CanonicalFields(fs, depth + 1).value;
    ArrangeOrders(cs);
    var gs := Arrange(cs).value.fields;
    forall i | 0 <= i < |gs|
      ensures AsU64(gs[i].key).Ok?
    {
      assert gs[i] in cs;
      var j :| 0 <= j < |cs| && cs[j] == gs[i];
      assert AsU64(fs[j].key).Ok? && CanonicalField(fs[j], depth + 1).Ok?;
    }
  }

  lemma ListsAreScalar(r: Record)
    ensures CanonicalItems(Each(r.features, WriteU64), 2) == Ok(Each(r.features, WriteU64))
    ensures CanonicalItems(Each(r.dependencies, WriteId), 2) == Ok(Each(r.dependencies, WriteId))
    ensures CanonicalItems(Each(r.resources, WriteHash), 2) == Ok(Each(r.resources, WriteHash))
    ensures MostContainers(Each(r.features, WriteU64)) == 0
    ensures MostContainers(Each(r.dependencies, WriteId)) == 0
    ensures MostContainers(Each(r.resources, WriteHash)) == 0
  {
    ScalarsAreCanonical(Each(r.features, WriteU64), 2);
    ScalarsAreCanonical(Each(r.dependencies, WriteId), 2);
    ScalarsAreCanonical(Each(r.resources, WriteHash), 2);
  }

  lemma ListIsCanonical(vs: Vec<Value>, depth: nat)
    requires depth < MAX_DEPTH && CanonicalItems(vs, depth + 1) == Ok(vs)
    ensures Canonical(Array(vs), depth) == Ok(Array(vs))
  {
  }

  lemma EnvelopeFieldsCanonical(r: Record)
    requires Canonical(r.body, 1).Ok? && Canonical(r.extensions, 1).Ok?
    ensures CanonicalFields(r.ToValue().fields, 1) == Ok(Normal(r).ToValue().fields)
  {
    hide CanonicalFields, CanonicalItems, Each, Canonical;
    ListsAreScalar(r);
    var fs, gs := r.ToValue().fields, Normal(r).ToValue().fields;
    forall i | 0 <= i < |fs|
      ensures CanonicalField(fs[i], 1) == Ok(gs[i])
    {
      ScalarIsCanonical(fs[i].key, 1);
      if i == 0 || i == 1 {
        ScalarIsCanonical(fs[i].value, 1);
      } else if i != 2 && i != 4 {
        ListIsCanonical(fs[i].value.items, 1);
      }
    }
    CanonicalFieldsAt(fs, 1);
    assert CanonicalFields(fs, 1).value == gs;
  }

  lemma EnvelopeAscends(r: Record)
    ensures AscendingFields(r.ToValue().fields)
  {
    hide Serialize;
    SmallKey(0); SmallKey(1); SmallKey(2); SmallKey(3); SmallKey(4); SmallKey(5); SmallKey(6);
    var fs := r.ToValue().fields;
    assert forall i :: 0 <= i < |fs| ==> Serialize(fs[i].key) == [i];
  }

  lemma EnvelopeCanonical(r: Record)
    requires Canonical(r.ToValue(), 0).Ok?
    ensures Canonical(r.body, 1).Ok? && Canonical(r.extensions, 1).Ok?
    ensures Canonical(r.ToValue(), 0) == Ok(Normal(r).ToValue())
  {
    hide CanonicalFields, CanonicalItems, Arrange, Each;
    var fs := r.ToValue().fields;
    CanonicalFieldsAt(fs, 1);
    assert CanonicalField(fs[2], 1).Ok? && CanonicalField(fs[4], 1).Ok?;
    EnvelopeFieldsCanonical(r);
    EnvelopeAscends(Normal(r));
    ArrangeAscending(Normal(r).ToValue().fields);
  }

  lemma EnvelopeContainers(r: Record)
    requires r.body.Map? && r.extensions.Map?
    ensures Containers(r.ToValue()) == 1 + Larger(Containers(r.body), Containers(r.extensions))
  {
    hide Each, MostContainers, MostInField, MostInFields, Containers;
    ListsAreScalar(r);
    var fs := r.ToValue().fields;
    FieldContainers(0, Num(r.kind));
    FieldContainers(1, Blob(r.id));
    FieldContainers(2, r.body);
    FieldContainers(3, fs[3].value);
    FieldContainers(4, r.extensions);
    FieldContainers(5, fs[5].value);
    FieldContainers(6, fs[6].value);
    FieldContainers(0, r.ToValue());
    MostOfSeven(fs);
  }

  lemma FieldContainers(k: u64, v: Value)
    ensures MostInField(Field(Num(k), v)) == Containers(v)
    ensures v.Array? ==> Containers(v) == 1 + MostContainers(v.items)
    ensures v.Map? ==> Containers(v) == 1 + MostInFields(v.fields)
    ensures Scalar(v) ==> Containers(v) == 0
  {
  }

  lemma MostOfSeven(fs: seq<Field>)
    requires |fs| == 7 && MostInField(fs[0]) == 0 && MostInField(fs[1]) == 0 && MostInField(fs[3]) == 1
    requires MostInField(fs[5]) == 1 && MostInField(fs[6]) == 1
    requires MostInField(fs[2]) >= 1 && MostInField(fs[4]) >= 1
    ensures MostInFields(fs) == Larger(MostInField(fs[2]), MostInField(fs[4]))
  {
    hide MostInField, MostInFields;
    MostInFieldsBounds(fs);
    var i :| 0 <= i < |fs| && MostInField(fs[i]) == MostInFields(fs);
    assert i == 0 || i == 1 || i == 2 || i == 3 || i == 4 || i == 5 || i == 6;
  }

  lemma ReadEnvelope(r: Record)
    requires r.Valid()
    ensures FromValue(r.ToValue()) == Ok(r)
  {
    hide Find, Collect, Each;
    var v := r.ToValue();
    var fs := v.fields;
    FindInPlace(fs);
    assert Lookup(v, 0) == Some(fs[0].value) && Lookup(v, 1) == Some(fs[1].value);
    assert Lookup(v, 2) == Some(fs[2].value) && Lookup(v, 3) == Some(fs[3].value);
    assert Lookup(v, 4) == Some(fs[4].value) && Lookup(v, 5) == Some(fs[5].value);
    assert Lookup(v, 6) == Some(fs[6].value);
    CollectEach(r.features, AsU64, WriteU64);
    CollectEach(r.dependencies, AsId, WriteId);
    CollectEach(r.resources, AsHash, WriteHash);
  }

  /** Reading back a written record gives the same record with its two free-form maps in
      key order, unless one of them holds an empty container at the deepest nesting. */
  lemma RecordDecodeEncode(r: Record)
    requires r.Encode().Ok?
    ensures Canonical(r.body, 1).Ok? && Canonical(r.extensions, 1).Ok?
    ensures Records.Decode(r.Encode().value)
            == if Containers(r.body) < READER_LIMIT && Containers(r.extensions) < READER_LIMIT
               then Ok(Normal(r)) else Err(InvalidData)
  {
    hide Cbor.Decode, Canonical, FromValue, UintKeys, Containers, InOrder, Same;
    DecodeEncode(r.ToValue());
    assert Canonical(r.ToValue(), 0).Ok? by { EncodeHasCanonical(r.ToValue()); }
    EnvelopeCanonical(r);
    MapsOf(r);
    EnvelopeContainers(r);
    UintKeysKept(r.body.fields, 1);
    UintKeysKept(r.extensions.fields, 1);
    ReadEnvelope(Normal(r));
  }

  lemma EncodeHasCanonical(v: Value)
    requires Cbor.Encode(v).Ok?
    ensures Canonical(v, 0).Ok?
  {
  }

  lemma MapsOf(r: Record)
    requires r.Valid()
    ensures r.body.Map? && r.extensions.Map? && UintKeys(r.body) && UintKeys(r.extensions)
  {
  }

  /** A record whose free-form maps are already in key order is read back unchanged. */
  lemma RecordRoundTrip(r: Record)
    requires r.Encode().Ok? && InOrder(r.body) && InOrder(r.extensions)
    requires Containers(r.body) < READER_LIMIT && Containers(r.extensions) < READER_LIMIT
    ensures Records.Decode(r.Encode().value) == Ok(r)
  {
    hide Cbor.Decode, Canonical, FromValue, UintKeys, Containers, InOrder;
    RecordDecodeEncode(r);
    CanonicalSucceeds(r.body, 1);
    CanonicalSucceeds(r.extensions, 1);
    InOrderIsCanonical(r.body, 1);
    InOrderIsCanonical(r.extensions, 1);
  }
}
