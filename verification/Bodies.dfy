/** Body maps: numbered fields, of which the known ones are interpreted and the extension
    fields, numbered from 0x8000, are carried along. */
module Bodies {
  import opened Bytes
  import opened Results
  import opened Syntax
  import opened Sorting
  import opened Trees
  import opened Cbor
  import opened CborLaws
  import opened Fields

  const FIRST_EXTENSION: u64 := 0x8000

  type ExtraFields = t: seq<Numbered<Value>> | Increasing(t)

  // ---- the order of encoded integers and identifiers ----

  lemma {:induction false} LessAppend(p: seq<u8>, a: seq<u8>, b: seq<u8>)
    ensures Less(p + a, p + b) == Less(a, b)
  {
    if p == [] {
      assert p + a == a && p + b == b;
    } else {
      assert (p + a)[1..] == p[1..] + a && (p + b)[1..] == p[1..] + b;
      LessAppend(p[1..], a, b);
    }
  }

  lemma {:induction false} LessBefore(a: seq<u8>, b: seq<u8>, x: seq<u8>, y: seq<u8>)
    requires |a| == |b| && Less(a, b)
    ensures Less(a + x, b + y)
  {
    assert (a + x)[1..] == a[1..] + x && (b + y)[1..] == b[1..] + y;
    if a[0] == b[0] {
      LessBefore(a[1..], b[1..], x, y);
    }
  }

  lemma {:induction false} BigEndianOrder(n: nat, a: nat, b: nat)
    requires a < b < Radix(n)
    ensures Less(BigEndian(n, a), BigEndian(n, b))
  {
    if a / 0x100 == b / 0x100 {
      LessAppend(BigEndian(n - 1, a / 0x100), [a % 0x100], [b % 0x100]);
    } else {
      BigEndianOrder(n - 1, a / 0x100, b / 0x100);
      LessBefore(BigEndian(n - 1, a / 0x100), BigEndian(n - 1, b / 0x100), [a % 0x100], [b % 0x100]);
    }
  }

  lemma SerializedNumber(a: u64)
    ensures var w := Shortest(a);
            Serialize(Num(a)) == [w.Info(a)] + BigEndian(w.Size(), a)
  {
    var w := Shortest(a);
    assert Content(ToItem(Num(a))) == [];
    assert Print(ToItem(Num(a))) == Head(0, w, a) + [];
  }

  /** Encoded integers are ordered like the integers. */
  lemma NumbersInOrder(a: u64, b: u64)
    requires a < b
    ensures Less(Serialize(Num(a)), Serialize(Num(b)))
  {
    hide Serialize;
    SerializedNumber(a);
    SerializedNumber(b);
    RadixValues();
    var v, w := Shortest(a), Shortest(b);
    if v == w && !v.Inline? {
      BigEndianOrder(v.Size(), a, b);
      LessAppend([v.Info(a)], BigEndian(v.Size(), a), BigEndian(v.Size(), b));
    } else {
      assert v.Info(a) < w.Info(b);
    }
  }

  /** Encoded byte strings of one length are ordered like the byte strings. */
  lemma BlobsInOrder(a: Vec<u8>, b: Vec<u8>)
    requires |a| == |b|
    ensures Less(Serialize(Blob(a)), Serialize(Blob(b))) == Less(a, b)
  {
    assert Content(ToItem(Blob(a))) == a && Content(ToItem(Blob(b))) == b;
    LessAppend(Head(2, Shortest(|a|), |a|), a, b);
  }

  // ---- numbered fields as map fields ----

  function ToFields(t: seq<Numbered<Value>>): (fs: seq<Field>)
    ensures |fs| == |t| && forall i :: 0 <= i < |t| ==> fs[i] == Field(Num(t[i].key), t[i].value)
  {
    seq(|t|, i requires 0 <= i < |t| => Field(Num(t[i].key), t[i].value))
  }

  lemma ToFieldsAscend(t: seq<Numbered<Value>>)
    requires Increasing(t)
    ensures AscendingFields(ToFields(t))
  {
    hide Serialize;
    forall i, j | 0 <= i < j < |t|
      ensures Less(Serialize(Num(t[i].key)), Serialize(Num(t[j].key)))
    {
      NumbersInOrder(t[i].key, t[j].key);
    }
  }

  function At(t: seq<Numbered<Value>>, key: u64): (r: Option<Value>) {
    if t == [] then None else if t[0].key == key then Some(t[0].value) else At(t[1..], key)
  }

  lemma {:induction false} FindAt(t: seq<Numbered<Value>>, key: u64)
    ensures Find(ToFields(t), key) == At(t, key)
  {
    if t != [] {
      assert ToFields(t)[1..] == ToFields(t[1..]);
      FindAt(t[1..], key);
    }
  }

  lemma {:induction false} AtIn(t: seq<Numbered<Value>>, key: u64)
    requires Increasing(t)
    ensures forall x :: At(t, key) == Some(x) <==> Numbered(key, x) in t
  {
    if t != [] {
      AtIn(t[1..], key);
      assert t == [t[0]] + t[1..];
    }
  }

  // ---- extras: the fields no reader knows ----

  function ExtraEntries(fs: seq<Field>, known: seq<u64>): (r: Result<seq<Numbered<Value>>>) {
    if fs == [] then Ok([])
    else
      var k :- AsU64(fs[0].key);
      if k in known then ExtraEntries(fs[1..], known)
      else if k < FIRST_EXTENSION then Err(Unsupported)
      else
        var rest :- ExtraEntries(fs[1..], known);
        Ok([Numbered(k, fs[0].value)] + rest)
  }

  function Extras(v: Value, known: seq<u64>): (r: Result<ExtraFields>) {
    if !v.Map? then Err(InvalidData)
    else
      var es :- ExtraEntries(v.fields, known);
      Ok(Gather(es))
  }

  // ---- body: the map of known fields and extras ----

  function AddExtras(t: seq<Numbered<Value>>, extra: seq<Numbered<Value>>): (r: Result<seq<Numbered<Value>>>)
    requires Increasing(t)
    decreases |extra|
  {
    if extra == [] then Ok(t)
    else if extra[0].key < FIRST_EXTENSION || At(t, extra[0].key).Some? then Err(InvalidData)
    else AddExtras(Put(t, extra[0]), extra[1..])
  }

  /** Fails on an extra field that is not an extension. (A list longer than memory can
      hold is refused as well.) */
  function Body(fields: seq<Numbered<Value>>, extra: ExtraFields): (r: Result<Value>)
    ensures r.Ok? ==> r.value.Map?
  {
    var t :- AddExtras(Gather(fields), extra);
    if |t| > USIZE_MAX then Err(InvalidData) else Ok(Map(ToFields(t)))
  }

  ghost predicate Extensions(t: seq<Numbered<Value>>) {
    forall i :: 0 <= i < |t| ==> t[i].key >= FIRST_EXTENSION
  }

  ghost predicate Core(t: seq<Numbered<Value>>) {
    Increasing(t) && forall i :: 0 <= i < |t| ==> t[i].key < FIRST_EXTENSION
  }

  lemma {:induction false} AddExtrasAppends(t: seq<Numbered<Value>>, extra: seq<Numbered<Value>>)
    requires Increasing(t + extra)
    ensures Increasing(t)
    ensures AddExtras(t, extra) == if Extensions(extra) then Ok(t + extra) else Err(InvalidData)
    decreases |extra|
  {
    IncreasingPrefix(t, extra);
    if extra == [] {
      assert t + extra == t;
    } else {
      var e := extra[0];
      PutLast(t, e);
      assert t + [e] + extra[1..] == t + extra;
      AddExtrasAppends(t + [e], extra[1..]);
      AtIn(t, e.key);
      assert extra == [e] + extra[1..];
    }
  }

  lemma IncreasingPrefix(t: seq<Numbered<Value>>, extra: seq<Numbered<Value>>)
    requires Increasing(t + extra)
    ensures Increasing(t)
    ensures extra != [] ==> forall i :: 0 <= i < |t| ==> t[i].key < extra[0].key
  {
    assert forall i :: 0 <= i < |t| ==> (t + extra)[i] == t[i];
    assert extra != [] ==> (t + extra)[|t|] == extra[0];
  }

  lemma {:induction false} AddExtrasChecks(t: seq<Numbered<Value>>, extra: seq<Numbered<Value>>)
    requires Increasing(t) && AddExtras(t, extra).Ok?
    ensures Extensions(extra)
    decreases |extra|
  {
    if extra != [] {
      AddExtrasChecks(Put(t, extra[0]), extra[1..]);
      assert extra == [extra[0]] + extra[1..];
    }
  }

  /** A body lists its known fields first and then its extension fields. */
  lemma BodyLayout(fields: seq<Numbered<Value>>, extra: ExtraFields)
    requires Core(fields)
    ensures Body(fields, extra)
            == if Extensions(extra) && |fields + extra| <= USIZE_MAX
               then Ok(Map(ToFields(fields + extra))) else Err(InvalidData)
  {
    GatherIncreasing(fields);
    if Extensions(extra) {
      AddExtrasAppends(fields, extra);
    } else if AddExtras(fields, extra).Ok? {
      AddExtrasChecks(fields, extra);
    } else {
      AddExtrasError(fields, extra);
    }
  }

  lemma {:induction false} AddExtrasError(t: seq<Numbered<Value>>, extra: seq<Numbered<Value>>)
    requires Increasing(t) && AddExtras(t, extra).Err?
    ensures AddExtras(t, extra) == Err(InvalidData)
    decreases |extra|
  {
    if !(extra[0].key < FIRST_EXTENSION || At(t, extra[0].key).Some?) {
      AddExtrasError(Put(t, extra[0]), extra[1..]);
    }
  }

  // ---- reading a body that was built ----

  lemma {:induction false} AtAppend(a: seq<Numbered<Value>>, b: seq<Numbered<Value>>, key: u64)
    ensures At(a + b, key) == if At(a, key).Some? then At(a, key) else At(b, key)
  {
    if a == [] {
      assert a + b == b;
    } else {
      assert (a + b)[1..] == a[1..] + b;
      AtAppend(a[1..], b, key);
    }
  }

  lemma {:induction false} AtExtension(t: seq<Numbered<Value>>, key: u64)
    requires Extensions(t) && key < FIRST_EXTENSION
    ensures At(t, key) == None
  {
    if t != [] {
      AtExtension(t[1..], key);
    }
  }

  lemma ReadBack(fields: seq<Numbered<Value>>, extra: ExtraFields, key: u64)
    requires Body(fields, extra).Ok? && Core(fields) && key < FIRST_EXTENSION
    ensures Lookup(Body(fields, extra).value, key) == At(fields, key)
  {
    BodyLayout(fields, extra);
    FindAt(fields + extra, key);
    AtAppend(fields, extra, key);
    AtExtension(extra, key);
  }

  lemma ExtraEntriesStep(e: Numbered<Value>, t: seq<Numbered<Value>>, known: seq<u64>)
    ensures ExtraEntries(ToFields([e] + t), known)
            == if e.key in known then ExtraEntries(ToFields(t), known)
               else if e.key < FIRST_EXTENSION then Err(Unsupported)
               else match ExtraEntries(ToFields(t), known) case Err(x) => Err(x) case Ok(es) => Ok([e] + es)
  {
    assert ToFields([e] + t)[1..] == ToFields(t);
  }

  lemma {:induction false} ExtraEntriesOf(fields: seq<Numbered<Value>>, extra: seq<Numbered<Value>>, known: seq<u64>)
    requires forall i :: 0 <= i < |fields| ==> fields[i].key in known
    requires Extensions(extra) && forall i :: 0 <= i < |extra| ==> extra[i].key !in known
    ensures ExtraEntries(ToFields(fields + extra), known) == Ok(extra)
    decreases |fields| + |extra|
  {
    hide ExtraEntries, ToFields;
    if fields != [] {
      ExtraEntriesStep(fields[0], fields[1..] + extra, known);
      assert fields + extra == [fields[0]] + (fields[1..] + extra);
      ExtraEntriesOf(fields[1..], extra, known);
    } else if extra != [] {
      assert fields + extra == [extra[0]] + extra[1..] && [] + extra[1..] == extra[1..];
      ExtraEntriesStep(extra[0], extra[1..], known);
      ExtraEntriesOf([], extra[1..], known);
      assert extra == [extra[0]] + extra[1..];
    } else {
      NoExtras(known);
    }
  }

  lemma NoExtras(known: seq<u64>)
    ensures ExtraEntries(ToFields([]), known) == Ok([])
  {
  }

  lemma ExtrasReadBack(fields: seq<Numbered<Value>>, extra: ExtraFields, known: seq<u64>)
    requires Body(fields, extra).Ok? && Core(fields)
    requires forall i :: 0 <= i < |fields| ==> fields[i].key in known
    requires forall k <- known :: k < FIRST_EXTENSION
    ensures Extras(Body(fields, extra).value, known) == Ok(extra)
  {
    BodyLayout(fields, extra);
    ExtraEntriesOf(fields, extra, known);
    GatherIncreasing(extra);
  }

  // ---- bodies by slot: field k, if present, for k below the number of known fields ----

  function Slots(os: seq<Option<Value>>): (t: seq<Numbered<Value>>) {
    if os == [] then []
    else Slots(os[..|os| - 1]) + Slot(|os| - 1, os[|os| - 1])
  }

  function Slot(k: nat, o: Option<Value>): (t: seq<Numbered<Value>>) {
    if o.None? || k >= FIRST_EXTENSION then [] else [Numbered(k, o.value)]
  }

  function Known(n: nat): (ks: seq<u64>)
    requires n <= FIRST_EXTENSION
  {
    seq(n, k requires 0 <= k < n => k)
  }

  /** The body with field k holding `os[k]`, and the given extras. */
  function Assemble(os: seq<Option<Value>>, extra: ExtraFields): (r: Result<Value>)
    ensures r.Ok? ==> r.value.Map?
  {
    Body(Slots(os), extra)
  }

  lemma {:induction false} SlotsAt(os: seq<Option<Value>>)
    requires |os| <= FIRST_EXTENSION
    ensures Core(Slots(os)) && forall i :: 0 <= i < |Slots(os)| ==> Slots(os)[i].key < |os|
    ensures forall k :: 0 <= k < |os| ==> At(Slots(os), k) == os[k]
  {
    if os != [] {
      var n := |os| - 1;
      SlotsAt(os[..n]);
      var t := Slots(os[..n]);
      forall k | 0 <= k < |os|
        ensures At(Slots(os), k) == os[k]
      {
        AtAppend(t, Slot(n, os[n]), k);
        if k == n {
          AtAbove(t, k);
        }
      }
    }
  }

  lemma {:induction false} AtAbove(t: seq<Numbered<Value>>, key: u64)
    requires forall i :: 0 <= i < |t| ==> t[i].key < key
    ensures At(t, key) == None
  {
    if t != [] {
      AtAbove(t[1..], key);
    }
  }

  /** Every slot and every extra field of an assembled body is read back. */
  lemma AssembledReads(os: seq<Option<Value>>, extra: ExtraFields)
    requires |os| <= FIRST_EXTENSION && Assemble(os, extra).Ok?
    ensures var v := Assemble(os, extra).value;
            && (forall k :: 0 <= k < |os| ==> Lookup(v, k) == os[k])
            && Extras(v, Known(|os|)) == Ok(extra)
  {
    hide Body, Slots, Extras, Lookup;
    SlotsAt(os);
    forall k | 0 <= k < |os|
      ensures Lookup(Assemble(os, extra).value, k) == os[k]
    {
      ReadBack(Slots(os), extra, k);
    }
    InKnown(|os|);
    ExtrasReadBack(Slots(os), extra, Known(|os|));
  }

  // ---- rebuilding a body that was read ----

  function Found(v: Value, n: nat): (os: seq<Option<Value>>)
    requires n <= FIRST_EXTENSION
    ensures |os| == n && forall k :: 0 <= k < n ==> os[k] == Lookup(v, k)
  {
    seq(n, k requires 0 <= k < n => Lookup(v, k))
  }

  function Numbers(fs: seq<Field>): (t: seq<Numbered<Value>>)
    requires forall i :: 0 <= i < |fs| ==> AsU64(fs[i].key).Ok?
    ensures ToFields(t) == fs
  {
    if fs == [] then []
    else
      var t := [Numbered(AsU64(fs[0].key).value, fs[0].value)] + Numbers(fs[1..]);
      assert fs == [fs[0]] + fs[1..];
      t
  }

  lemma NumbersIncrease(t: seq<Numbered<Value>>)
    requires AscendingFields(ToFields(t))
    ensures Increasing(t)
  {
    hide Serialize;
    forall i, j | 0 <= i < j < |t|
      ensures t[i].key < t[j].key
    {
      assert Less(Serialize(Num(t[i].key)), Serialize(Num(t[j].key)));
      LessIsTotal(Serialize(Num(t[i].key)), Serialize(Num(t[j].key)));
      if t[j].key < t[i].key {
        NumbersInOrder(t[j].key, t[i].key);
      }
    }
  }

  lemma {:induction false} UintKeysOfExtras(fs: seq<Field>, known: seq<u64>)
    requires ExtraEntries(fs, known).Ok?
    ensures forall i :: 0 <= i < |fs| ==> AsU64(fs[i].key).Ok?
  {
    if fs != [] {
      UintKeysOfExtras(fs[1..], known);
      assert fs == [fs[0]] + fs[1..];
    }
  }

  lemma {:induction false} ExtraEntriesFilter(t: seq<Numbered<Value>>, known: seq<u64>)
    requires ExtraEntries(ToFields(t), known).Ok?
    ensures var es := ExtraEntries(ToFields(t), known).value;
            && Extensions(es) && (Increasing(t) ==> Increasing(es))
            && forall x :: x in es <==> x in t && x.key !in known
  {
    hide ExtraEntries, ToFields;
    if t != [] {
      assert t == [t[0]] + t[1..];
      ExtraEntriesStep(t[0], t[1..], known);
      ExtraEntriesFilter(t[1..], known);
      if Increasing(t) {
        var es := ExtraEntries(ToFields(t[1..]), known).value;
        forall i | 0 <= i < |es| ensures t[0].key < es[i].key {
          assert es[i] in t[1..];
        }
      }
    } else {
      NoExtras(known);
    }
  }

  lemma SlotsFilter(t: seq<Numbered<Value>>, os: seq<Option<Value>>)
    requires Increasing(t) && |os| <= FIRST_EXTENSION
    requires forall k :: 0 <= k < |os| ==> os[k] == At(t, k)
    ensures forall x :: x in Slots(os) <==> x in t && x.key < |os|
  {
    hide At, Slots;
    SlotsAt(os);
    forall x
      ensures x in Slots(os) <==> x in t && x.key < |os|
    {
      AtIn(Slots(os), x.key);
      AtIn(t, x.key);
      if x.key < |os| {
        assert At(t, x.key) == At(Slots(os), x.key);
        assert Numbered(x.key, x.value) == x;
      }
    }
  }

  /** A body that was read completely is assembled again from its slots and its extras. */
  lemma Rebuild(v: Value, n: nat)
    requires v.Map? && InOrder(v) && n <= FIRST_EXTENSION && Extras(v, Known(n)).Ok?
    ensures Assemble(Found(v, n), Extras(v, Known(n)).value) == Ok(v)
  {
    hide Serialize, AscendingFields, Slots, ExtraEntries, AddExtras, Find, At, Body;
    var known := Known(n);
    UintKeysOfExtras(v.fields, known);
    var t := Numbers(v.fields);
    NumbersIncrease(t);
    ExtraEntriesFilter(t, known);
    var os := Found(v, n);
    forall k | 0 <= k < n ensures os[k] == At(t, k) { FindAt(t, k); }
    SlotsFilter(t, os);
    SlotsAt(os);
    var p, es := Slots(os), ExtraEntries(v.fields, known).value;
    GatherIncreasing(es);
    InKnown(n);
    assert Increasing(p + es);
    IncreasingUnique(p + es, t);
    BodyLayout(p, es);
  }

  lemma InKnown(n: nat)
    requires n <= FIRST_EXTENSION
    ensures forall k: u64 :: k in Known(n) <==> k < n
  {
    forall k: u64 | k < n
      ensures k in Known(n)
    {
      assert Known(n)[k] == k;
    }
  }
}
