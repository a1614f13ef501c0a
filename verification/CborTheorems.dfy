/** The main results about deterministic encoding. */
module CborTheorems {
  import opened Bytes
  import opened Results
  import opened Syntax
  import opened Preflight
  import opened Floats
  import opened Cbor
  import opened CborLaws

  /** A value is encodable exactly if it holds no tag and no non-finite float, repeats no
      map key, and stays within the nesting, byte and item limits. None of these depends
      on the order in which maps list their entries. */
  lemma EncodeSucceeds(v: Value)
    ensures Encode(v).Ok? <==>
            && Supported(v) && DistinctKeys(v) && Nesting(v) <= MAX_DEPTH
            && Extent(ByteLength, v) <= RECORD_LIMIT && Extent(ItemCount, v) <= MAX_ITEMS
  {
    hide Canonical, ToItem, Accepts, Print, InOrder, Containers, Nesting, Supported, DistinctKeys, Extent;
    CanonicalSucceeds(v, 0);
    if Canonical(v, 0).Ok? {
      var c := Canonical(v, 0).value;
      CanonicalKeepsExtent(ByteLength, v, 0);
      CanonicalKeepsExtent(ItemCount, v, 0);
      ExtentMeasures(ByteLength, c);
      ExtentMeasures(ItemCount, c);
      CanonicalIsInOrder(v, 0);
      AcceptsSerialized(c);
    }
  }

  lemma AcceptsSerialized(c: Value)
    requires Supported(c)
    ensures Accepts(Serialize(c)) <==> Nesting(c) <= MAX_DEPTH && ToItem(c).Count() <= MAX_ITEMS
  {
    ReadSerialized(c);
    ItemDepth(c);
  }

  lemma {:induction false} ItemDepth(v: Value)
    requires Supported(v)
    ensures ToItem(v).Depth() == Nesting(v)
    decreases v, 0
  {
    hide MaxDepth, ItemsOf, EntriesOf, DeepestItem, DeepestField;
    if v.Array? {
      ItemsDepth(v.items);
    } else if v.Map? {
      EntriesDepth(v.fields);
    }
  }

  lemma {:induction false} ItemsDepth(vs: seq<Value>)
    requires forall i :: 0 <= i < |vs| ==> Supported(vs[i])
    ensures MaxDepth(ItemsOf(vs)) == DeepestItem(vs)
    decreases vs
  {
    hide ToItem, Nesting, Supported;
    if vs != [] {
      ItemDepth(vs[0]);
      ItemsDepth(vs[1..]);
      assert ItemsOf(vs)[1..] == ItemsOf(vs[1..]);
    }
  }

  lemma {:induction false} EntriesDepth(fs: seq<Field>)
    requires forall i :: 0 <= i < |fs| ==> SupportedField(fs[i])
    ensures MaxDepth(EntriesOf(fs)) == DeepestField(fs)
    decreases fs
  {
    hide ToItem, Nesting, Supported;
    if fs != [] {
      EntryDepth(fs[0]);
      EntriesDepth(fs[1..]);
      var ts := EntriesOf(fs);
      assert ts[0] == EntryOf(fs[0])[0] && ts[1..][0] == EntryOf(fs[0])[1];
      assert ts[1..][1..] == EntriesOf(fs[1..]);
    }
  }

  lemma {:induction false} EntryDepth(f: Field)
    requires SupportedField(f)
    ensures EntryOf(f)[0].Depth() == Nesting(f.key) && EntryOf(f)[1].Depth() == Nesting(f.value)
    decreases f
  {
    ItemDepth(f.key);
    ItemDepth(f.value);
  }

  /** Reading back what was written gives the value with every map in key order, unless
      the value opens more containers at once than the reader allows. */
  lemma DecodeEncode(v: Value)
    requires Encode(v).Ok?
    ensures var c := Canonical(v, 0).value;
            && Same(v, c) && InOrder(c)
            && Decode(Encode(v).value) == if Containers(v) <= READER_LIMIT then Ok(c) else Err(InvalidData)
  {
    hide Canonical, ToItem, FromItem, Parse, Print, InOrder, Same, Containers, Nesting, Supported;
    var c := Canonical(v, 0).value;
    CanonicalIsInOrder(v, 0);
    InOrderIsCanonical(c, 0);
    SameCanonical(v, c, 0, 0);
    ReadSerialized(c);
    FromToItem(c, READER_LIMIT);
  }

  /** What is read is in key order and writes the very bytes it was read from. */
  lemma EncodeDecode(input: seq<u8>)
    requires Decode(input).Ok?
    ensures var v := Decode(input).value;
            && Encode(v) == Ok(input) && InOrder(v) && Supported(v)
            && Containers(v) <= READER_LIMIT && Nesting(v) <= MAX_DEPTH
  {
    var v := Decode(input).value;
    assert Encode(v) == Ok(input);
    DecodeEncode(v);
    EncodeSucceeds(v);
    CanonicalIsInOrder(v, 0);
  }

  /** The accepted inputs are exactly the encodings of values within the reader's limit. */
  lemma DecodeSucceeds(input: seq<u8>)
    ensures Decode(input).Ok? <==> exists v :: Encode(v) == Ok(input) && Containers(v) <= READER_LIMIT
  {
    if Decode(input).Ok? {
      EncodeDecode(input);
    }
    if v :| Encode(v) == Ok(input) && Containers(v) <= READER_LIMIT {
      DecodeEncode(v);
    }
  }

  /** Two values have the same encoding exactly if they differ only in map order. */
  lemma EncodingsAgree(v: Value, w: Value)
    requires Encode(v).Ok? && Encode(w).Ok?
    ensures Encode(v) == Encode(w) <==> Same(v, w)
  {
    hide Canonical, Serialize, Accepts, InOrder, Same, Containers, Nesting, Supported;
    SameCanonical(v, w, 0, 0);
    CanonicalIsInOrder(v, 0);
    CanonicalIsInOrder(w, 0);
    if Encode(v) == Encode(w) {
      SerializeIsInjective(Canonical(v, 0).value, Canonical(w, 0).value);
    }
  }

  // ---- the one gap between the writer's depth limit and the reader's ----

  /** An empty array inside `n` arrays. */
  function Nest(n: nat): (v: Value) {
    if n == 0 then Array([]) else Array([Nest(n - 1)])
  }

  lemma {:induction false} NestMeasures(n: nat)
    ensures var v := Nest(n);
            && Supported(v) && DistinctKeys(v) && Nesting(v) == n && Containers(v) == n + 1
            && Extent(ByteLength, v) == n + 1 && Extent(ItemCount, v) == n + 1
  {
    if n > 0 {
      NestMeasures(n - 1);
      hide Supported, DistinctKeys, Nesting, Containers, Extent;
      ArrayOfOne(Nest(n - 1));
    } else {
      NoItem();
    }
  }

  lemma NoItem()
    ensures var v := Array([]);
            && Supported(v) && DistinctKeys(v) && Nesting(v) == 0 && Containers(v) == 1
            && Extent(ByteLength, v) == 1 && Extent(ItemCount, v) == 1
  {
  }

  lemma OnlyItem(v: Value)
    ensures DeepestItem([v]) == Nesting(v) && MostContainers([v]) == Containers(v)
    ensures forall m: Metric :: ExtentOfItems(m, [v]) == Extent(m, v)
  {
    hide Nesting, Containers, Extent;
    assert [v][1..] == [];
    assert DeepestItem([]) == 0 && MostContainers([]) == 0;
    assert forall m: Metric :: ExtentOfItems(m, []) == 0;
  }

  lemma ArrayOfOne(v: Value)
    ensures var a := Array([v]);
            && (Supported(a) <==> Supported(v)) && (DistinctKeys(a) <==> DistinctKeys(v))
            && Nesting(a) == 1 + Nesting(v) && Containers(a) == 1 + Containers(v)
            && Extent(ByteLength, a) == 1 + Extent(ByteLength, v) && Extent(ItemCount, a) == 1 + Extent(ItemCount, v)
  {
    hide ExtentOfItems, DeepestItem, MostContainers;
    OnlyItem(v);
  }

  /** The writer accepts an empty container at nesting 32; the reader refuses it. */
  lemma DeepestEmptyContainerIsNotReadBack()
    ensures Encode(Nest(32)).Ok? && Decode(Encode(Nest(32)).value).Err?
  {
    NestMeasures(32);
    EncodeSucceeds(Nest(32));
    DecodeEncode(Nest(32));
  }

  /** Somewhere in the value an empty container is nested exactly n deep. */
  predicate EmptyAt(v: Value, n: nat)
    decreases v, 0
  {
    match v
    case Array(vs) => if vs == [] then n == 0 else n > 0 && EmptyInItems(vs, n - 1)
    case Map(fs) => if fs == [] then n == 0 else n > 0 && EmptyInFields(fs, n - 1)
    case _ => false
  }

  predicate EmptyInItems(vs: seq<Value>, n: nat)
    decreases vs
  {
    vs != [] && (EmptyAt(vs[0], n) || EmptyInItems(vs[1..], n))
  }

  predicate EmptyInFields(fs: seq<Field>, n: nat)
    decreases fs
  {
    fs != [] && (EmptyInField(fs[0], n) || EmptyInFields(fs[1..], n))
  }

  predicate EmptyInField(f: Field, n: nat)
    decreases f
  {
    EmptyAt(f.key, n) || EmptyAt(f.value, n)
  }

  /** A value opens at most one container more than its nesting, and that many exactly if an
      empty container is the deepest. */
  lemma {:induction false} ContainersWithinNesting(v: Value, n: nat)
    requires Nesting(v) <= n
    ensures Containers(v) <= n + 1
    ensures Containers(v) == n + 1 <==> EmptyAt(v, n)
    decreases v, 0
  {
    hide DeepestItem, DeepestField, MostContainers, MostInFields, EmptyInItems, EmptyInFields;
    if v.Array? && v.items != [] {
      ContainersWithinNestingOfItems(v.items, n - 1);
    } else if v.Map? && v.fields != [] {
      ContainersWithinNestingOfFields(v.fields, n - 1);
    } else {
      assert MostContainers([]) == 0 && MostInFields([]) == 0 by {
        NothingOpened();
      }
    }
  }

  lemma NothingOpened()
    ensures MostContainers([]) == 0 && MostInFields([]) == 0
  {
  }

  lemma {:induction false} ContainersWithinNestingOfItems(vs: seq<Value>, n: nat)
    requires forall i :: 0 <= i < |vs| ==> Nesting(vs[i]) <= n
    ensures MostContainers(vs) <= n + 1
    ensures MostContainers(vs) == n + 1 <==> EmptyInItems(vs, n)
    decreases vs
  {
    hide Nesting, Containers, EmptyAt;
    if vs != [] {
      ContainersWithinNesting(vs[0], n);
      ContainersWithinNestingOfItems(vs[1..], n);
    }
  }

  lemma {:induction false} ContainersWithinNestingOfFields(fs: seq<Field>, n: nat)
    requires forall i :: 0 <= i < |fs| ==> NestingOf(fs[i]) <= n
    ensures MostInFields(fs) <= n + 1
    ensures MostInFields(fs) == n + 1 <==> EmptyInFields(fs, n)
    decreases fs
  {
    hide NestingOf, MostInField, EmptyInField;
    if fs != [] {
      ContainersWithinNestingOfField(fs[0], n);
      ContainersWithinNestingOfFields(fs[1..], n);
    }
  }

  lemma {:induction false} ContainersWithinNestingOfField(f: Field, n: nat)
    requires NestingOf(f) <= n
    ensures MostInField(f) <= n + 1
    ensures MostInField(f) == n + 1 <==> EmptyInField(f, n)
    decreases f
  {
    ContainersWithinNesting(f.key, n);
    ContainersWithinNesting(f.value, n);
  }

  /** The gap is exact: what the writer accepts the reader refuses if and only if an empty
      container is nested as deep as the writer allows. */
  lemma RefusedIffDeepestIsEmpty(v: Value)
    requires Encode(v).Ok?
    ensures Decode(Encode(v).value).Err? <==> EmptyAt(v, MAX_DEPTH)
  {
    hide Canonical, Serialize, Accepts, InOrder, Same, Containers, Nesting, Supported, Decode, EmptyAt;
    EncodeSucceeds(v);
    DecodeEncode(v);
    ContainersWithinNesting(v, MAX_DEPTH);
  }

  /** The canonical form of a value differs from it in map order only, and is in order. */
  lemma CanonicalIsSame(v: Value, depth: nat)
    requires Canonical(v, depth).Ok?
    ensures var c := Canonical(v, depth).value;
            && Same(v, c) && Supported(c) && InOrder(c)
            && Nesting(c) == Nesting(v) && Containers(c) == Containers(v) && depth + Nesting(v) <= MAX_DEPTH
  {
    hide Canonical, InOrder, Same, Containers, Nesting, Supported;
    var c := Canonical(v, depth).value;
    CanonicalIsInOrder(v, depth);
    InOrderIsCanonical(c, depth);
    SameCanonical(v, c, depth, depth);
  }
}
