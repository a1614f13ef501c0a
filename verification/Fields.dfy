/** Reading typed parts out of a value tree, and the bridges from each reader back to the
    value it read. */
module Fields {
  import opened Bytes
  import opened Results
  import opened Syntax
  import opened Cbor
  import opened CborLaws

  function Find(fs: seq<Field>, key: u64): (r: Option<Value>) {
    if fs == [] then None
    else if fs[0].key == Num(key) then Some(fs[0].value)
    else Find(fs[1..], key)
  }

  function Lookup(v: Value, key: u64): (r: Option<Value>) {
    if v.Map? then Find(v.fields, key) else None
  }

  function FieldOf(v: Value, key: u64): (r: Result<Value>) {
    match Lookup(v, key) case None => Err(InvalidData) case Some(x) => Ok(x)
  }

  function AsItems(v: Value): (r: Result<Vec<Value>>) {
    if v.Array? then Ok(v.items) else Err(InvalidData)
  }

  function AsBlob(v: Value, length: nat): (r: Result<Vec<u8>>)
    ensures r.Ok? ==> |r.value| == length && v == Blob(r.value)
  {
    if v.Blob? && |v.b| == length then Ok(v.b) else Err(InvalidData)
  }

  function AsId(v: Value): (r: Result<Id>)
    ensures r.Ok? ==> v == Blob(r.value) && r.value != ZERO
  {
    if v.Blob? && |v.b| == 16 && v.b != ZERO then Ok(v.b) else Err(InvalidData)
  }

  function AsU64(v: Value): (r: Result<u64>)
    ensures r.Ok? ==> v == Num(r.value)
  {
    if v.Integer? && v.n >= 0 then Ok(v.n) else Err(InvalidData)
  }

  // ---- reading every element of a list ----

  function Collect<T>(vs: seq<Value>, read: Value -> Result<T>): (r: Result<seq<T>>)
    ensures r.Ok? ==> |r.value| == |vs| && forall i :: 0 <= i < |vs| ==> read(vs[i]) == Ok(r.value[i])
    ensures r.Err? ==> exists i :: 0 <= i < |vs| && read(vs[i]).Err?
  {
    if vs == [] then Ok([])
    else
      match read(vs[0])
      case Err(e) => Err(e)
      case Ok(x) =>
        assert forall i :: 0 <= i < |vs| - 1 ==> vs[1..][i] == vs[i + 1];
        match Collect(vs[1..], read)
        case Err(e) => Err(e)
        case Ok(xs) => Ok([x] + xs)
  }

  function Each<T>(xs: seq<T>, write: T -> Value): (vs: seq<Value>)
    ensures |vs| == |xs| && forall i :: 0 <= i < |vs| ==> vs[i] == write(xs[i])
  {
    seq(|xs|, i requires 0 <= i < |xs| => write(xs[i]))
  }

  lemma CollectEach<T>(xs: seq<T>, read: Value -> Result<T>, write: T -> Value)
    requires forall i :: 0 <= i < |xs| ==> read(write(xs[i])) == Ok(xs[i])
    ensures Collect(Each(xs, write), read) == Ok(xs)
  {
    var vs := Each(xs, write);
    assert forall i :: 0 <= i < |vs| ==> read(vs[i]) == Ok(xs[i]);
    assert Collect(vs, read).value == xs;
  }

  lemma EachCollect<T>(vs: seq<Value>, read: Value -> Result<T>, write: T -> Value)
    requires Collect(vs, read).Ok?
    requires forall i :: 0 <= i < |vs| && read(vs[i]).Ok? ==> write(read(vs[i]).value) == vs[i]
    ensures Each(Collect(vs, read).value, write) == vs
  {
  }

  // ---- maps whose keys are small unsigned integers ----

  lemma SmallKey(k: u64)
    requires k <= 23
    ensures Serialize(Num(k)) == [k]
  {
    assert BigEndian(0, k) == [];
  }

  lemma {:induction false} FindFirst(fs: seq<Field>, key: u64) returns (i: nat)
    requires Find(fs, key).Some?
    ensures i < |fs| && fs[i] == Field(Num(key), Find(fs, key).value)
  {
    if fs[0].key == Num(key) {
      i := 0;
    } else {
      i := FindFirst(fs[1..], key);
      i := i + 1;
    }
  }

  lemma {:induction false} FindUnique(fs: seq<Field>, key: u64, i: nat)
    requires i < |fs| && fs[i].key == Num(key)
    requires forall j :: 0 <= j < i ==> fs[j].key != Num(key)
    ensures Find(fs, key) == Some(fs[i].value)
  {
    if i > 0 {
      FindUnique(fs[1..], key, i - 1);
    }
  }

  /** Fields keyed by their position are found at their position. */
  lemma FindInPlace(fs: seq<Field>)
    requires |fs| <= 24 && forall k :: 0 <= k < |fs| ==> fs[k].key == Num(k)
    ensures forall k :: 0 <= k < |fs| ==> Find(fs, k) == Some(fs[k].value)
  {
    hide Find;
    forall k | 0 <= k < |fs|
      ensures Find(fs, k) == Some(fs[k].value)
    {
      FindUnique(fs, k, k);
    }
  }

  /** A map in key order that has exactly the fields 0 to n-1 lists them in that order. */
  lemma KeysInPlace(fs: seq<Field>, n: nat)
    requires |fs| == n <= 24 && AscendingFields(fs)
    requires forall k :: 0 <= k < n ==> Find(fs, k).Some?
    ensures forall k :: 0 <= k < n ==> fs[k] == Field(Num(k), Find(fs, k).value)
  {
    hide Serialize;
    forall k | 0 <= k < n
      ensures fs[k] == Field(Num(k), Find(fs, k).value)
    {
      var i := FindFirst(fs, k);
      PlaceAtLeast(fs, k, i);
      PlaceAtMost(fs, n, k, i);
    }
  }

  lemma PlacesIncrease(fs: seq<Field>, j: u64, k: u64, a: nat, b: nat)
    requires AscendingFields(fs) && j < k <= 23 && a < |fs| && b < |fs|
    requires fs[a].key == Num(j) && fs[b].key == Num(k)
    ensures a < b
  {
    hide Serialize;
    SmallKey(j);
    SmallKey(k);
    LessIsTotal([j], [k]);
    LessIsTotal([k], [k]);
    assert Less([j], [k]);
  }

  lemma {:induction false} PlaceAtLeast(fs: seq<Field>, k: nat, i: nat)
    requires AscendingFields(fs) && k <= 23 && i < |fs| && fs[i].key == Num(k)
    requires forall j :: 0 <= j < k ==> Find(fs, j).Some?
    ensures i >= k
  {
    hide Serialize, AscendingFields;
    if k > 0 {
      var h := FindFirst(fs, k - 1);
      PlaceAtLeast(fs, k - 1, h);
      PlacesIncrease(fs, k - 1, k, h, i);
    }
  }

  lemma {:induction false} PlaceAtMost(fs: seq<Field>, n: nat, k: nat, i: nat)
    requires |fs| == n <= 24 && AscendingFields(fs) && k < n && i < n && fs[i].key == Num(k)
    requires forall j :: 0 <= j < n ==> Find(fs, j).Some?
    ensures i <= k
    decreases n - k
  {
    hide Serialize, AscendingFields;
    if k < n - 1 {
      var h := FindFirst(fs, k + 1);
      PlaceAtMost(fs, n, k + 1, h);
      PlacesIncrease(fs, k, k + 1, i, h);
    }
  }
}
