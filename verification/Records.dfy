/** Immutable metadata records: a typed envelope around an uninterpreted body. */
module Records {
  import opened Bytes
  import opened Results
  import opened Cbor
  import opened Fields

  const DOCUMENT: u64 := 1
  const PAGE: u64 := 2
  const STROKE: u64 := 3
  const GEOMETRY: u64 := 4
  const SOURCE_PROFILE: u64 := 5
  const SESSION: u64 := 6
  const BRUSH: u64 := 7

  datatype Record = Record(
    kind: u64,
    id: Id,
    body: Value,
    features: Vec<u64>,
    extensions: Value,
    dependencies: Vec<Id>,
    resources: Vec<Hash>)
  {
    /** The checks made before writing and after reading. */
    predicate Valid() {
      && kind > 0 && id != ZERO
      && UintKeys(body) && UintKeys(extensions)
      && (forall i :: 0 <= i < |features| - 1 ==> features[i] < features[i + 1])
      && (forall i :: 0 <= i < |dependencies| - 1 ==> Less(dependencies[i], dependencies[i + 1]))
      && (forall i :: 0 <= i < |dependencies| ==> dependencies[i] != ZERO && dependencies[i] != id)
      && (forall i :: 0 <= i < |resources| - 1 ==> Less(resources[i], resources[i + 1]))
    }

    function ToValue(): (v: Value) {
      Map([
        Field(Num(0), Num(kind)),
        Field(Num(1), Blob(id)),
        Field(Num(2), body),
        Field(Num(3), Array(Each(features, WriteU64))),
        Field(Num(4), extensions),
        Field(Num(5), Array(Each(dependencies, WriteId))),
        Field(Num(6), Array(Each(resources, WriteHash)))
      ])
    }

    function Encode(): (r: Result<seq<u8>>) {
      if Valid() then Cbor.Encode(ToValue()) else Err(InvalidData)
    }
  }

  predicate UintKeys(v: Value) {
    v.Map? && forall i :: 0 <= i < |v.fields| ==> AsU64(v.fields[i].key).Ok?
  }

  function WriteU64(n: u64): (v: Value) { Num(n) }

  function WriteId(id: Id): (v: Value) { Blob(id) }

  function WriteHash(hash: Hash): (v: Value) { Blob(hash) }

  function AsHash(v: Value): (r: Result<Hash>)
    ensures r.Ok? ==> v == Blob(r.value)
  {
    AsBlob(v, 32)
  }

  function FromValue(v: Value): (r: Result<Record>) {
    if !v.Map? || |v.fields| != 7 then Err(InvalidData)
    else
      var kindField :- FieldOf(v, 0);
      var kind :- AsU64(kindField);
      var idField :- FieldOf(v, 1);
      var id :- AsId(idField);
      var body :- FieldOf(v, 2);
      var featureField :- FieldOf(v, 3);
      var featureItems :- AsItems(featureField);
      var features :- Collect(featureItems, AsU64);
      var extensions :- FieldOf(v, 4);
      var dependencyField :- FieldOf(v, 5);
      var dependencyItems :- AsItems(dependencyField);
      var dependencies :- Collect(dependencyItems, AsId);
      var resourceField :- FieldOf(v, 6);
      var resourceItems :- AsItems(resourceField);
      var resources :- Collect(resourceItems, AsHash);
      Ok(Record(kind, id, body, features, extensions, dependencies, resources))
  }

  function Decode(input: seq<u8>): (r: Result<Record>) {
    var v :- Cbor.Decode(input);
    var record :- FromValue(v);
    if record.Valid() then Ok(record) else Err(InvalidData)
  }
}
