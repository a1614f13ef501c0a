/** What deterministic encoding guarantees: encoding and decoding undo each other up to
    the order of map entries, and exactly which values can be encoded and read back. */
module CborLaws {
  import opened Bytes
  import opened Results
  import opened Syntax
  import opened Preflight
  import opened Floats
  import opened Sorting
  import opened Cbor

  // ---- reading back what was serialized ----

  /** Containers open at once while a value is read. */
  function Containers(v: Value): (n: nat)
    decreases v, 0
  {
    match v
    case Array(vs) => 1 + MostContainers(vs)
    case Map(fs) => 1 + MostInFields(fs)
    case _ => 0
  }

  function Larger(a: nat, b: nat): (c: nat) {
    if a < b then b else a
  }

  function MostContainers(vs: seq<Value>): (n: nat)
    decreases vs
  {
    if vs == [] then 0 else Larger(Containers(vs[0]), MostContainers(vs[1..]))
  }

  lemma {:induction false} MostContainersAgree(vs: seq<Value>, cs: seq<Value>)
    requires |vs| == |cs| && forall i :: 0 <= i < |vs| ==> Containers(vs[i]) == Containers(cs[i])
    ensures MostContainers(vs) == MostContainers(cs)
  {
    hide Containers;
    if vs != [] {
      MostContainersAgree(vs[1..], cs[1..]);
    }
  }

  lemma {:induction false} MostInFieldsBounds(fs: seq<Field>)
    ensures forall i :: 0 <= i < |fs| ==> MostInField(fs[i]) <= MostInFields(fs)
    ensures fs != [] ==> exists i :: 0 <= i < |fs| && MostInField(fs[i]) == MostInFields(fs)
  {
    hide MostInField;
    if fs != [] {
      MostInFieldsBounds(fs[1..]);
      assert fs == [fs[0]] + fs[1..];
    }
  }

  function MostInFields(fs: seq<Field>): (n: nat)
    decreases fs
  {
    if fs == [] then 0 else Larger(MostInField(fs[0]), MostInFields(fs[1..]))
  }

  function MostInField(f: Field): (n: nat)
    decreases f
  {
    Larger(Containers(f.key), Containers(f.value))
  }

  lemma {:induction false} FromToItem(v: Value, limit: nat)
    requires Supported(v)
    ensures FromItem(ToItem(v), limit) == if Containers(v) <= limit then Some(v) else None
    decreases v, 0
  {
    hide ItemsOf, EntriesOf, FromItems, FromEntries, MostContainers, MostInFields;
    if v.Array? {
      if limit > 0 { FromToItems(v.items, limit - 1); }
    } else if v.Map? {
      if limit > 0 { FromToEntries(v.fields, limit - 1); }
    } else {
      FromToScalar(v, limit);
    }
  }

  lemma FromToScalar(v: Value, limit: nat)
    requires Supported(v) && !v.Array? && !v.Map?
    ensures FromItem(ToItem(v), limit) == Some(v)
  {
  }

  lemma {:induction false} FromToItems(vs: seq<Value>, limit: nat)
    requires forall i :: 0 <= i < |vs| ==> Supported(vs[i])
    ensures FromItems(ItemsOf(vs), limit) == if MostContainers(vs) <= limit then Some(vs) else None
    decreases vs
  {
    if vs != [] {
      FromToItem(vs[0], limit);
      FromToItems(vs[1..], limit);
      assert vs == [vs[0]] + vs[1..];
      assert ItemsOf(vs)[1..] == ItemsOf(vs[1..]);
    }
  }

  lemma {:induction false} FromToEntries(fs: seq<Field>, limit: nat)
    requires forall i :: 0 <= i < |fs| ==> SupportedField(fs[i])
    ensures FromEntries(EntriesOf(fs), limit) == if MostInFields(fs) <= limit then Some(fs) else None
    decreases fs
  {
    hide FromItem, ToItem, Containers;
    if fs != [] {
      FromToEntry(fs[0], limit);
      FromToEntries(fs[1..], limit);
      var ts := EntriesOf(fs);
      assert fs == [fs[0]] + fs[1..];
      assert ts[0] == EntryOf(fs[0])[0] && ts[1] == EntryOf(fs[0])[1] && ts[2..] == EntriesOf(fs[1..]);
    }
  }

  lemma {:induction false} FromToEntry(f: Field, limit: nat)
    requires SupportedField(f)
    ensures FromItem(EntryOf(f)[0], limit) == if Containers(f.key) <= limit then Some(f.key) else None
    ensures FromItem(EntryOf(f)[1], limit) == if Containers(f.value) <= limit then Some(f.value) else None
    decreases f
  {
    FromToItem(f.key, limit);
    FromToItem(f.value, limit);
  }

  lemma ReadSerialized(v: Value)
    requires Supported(v)
    ensures Parse(Serialize(v)) == Good(ToItem(v), [])
  {
    ParsePrint(ToItem(v), []);
    assert Serialize(v) + [] == Serialize(v);
  }

  lemma SerializeIsInjective(v: Value, w: Value)
    requires Supported(v) && Supported(w) && Serialize(v) == Serialize(w)
    ensures v == w
  {
    ReadSerialized(v);
    ReadSerialized(w);
    var limit := Larger(Containers(v), Containers(w));
    FromToItem(v, limit);
    FromToItem(w, limit);
  }

  // ---- canonical form, field by field ----

  lemma {:induction false} CanonicalItemsAt(vs: seq<Value>, depth: nat)
    ensures CanonicalItems(vs, depth).Ok? <==> forall i :: 0 <= i < |vs| ==> Canonical(vs[i], depth).Ok?
    ensures CanonicalItems(vs, depth).Ok? ==>
              forall i :: 0 <= i < |vs| ==> Canonical(vs[i], depth) == Ok(CanonicalItems(vs, depth).value[i])
  {
    hide Canonical;
    if vs != [] {
      CanonicalItemsAt(vs[1..], depth);
      assert vs == [vs[0]] + vs[1..];
    }
  }

  lemma {:induction false} CanonicalFieldsAt(fs: seq<Field>, depth: nat)
    ensures CanonicalFields(fs, depth).Ok? <==> forall i :: 0 <= i < |fs| ==> CanonicalField(fs[i], depth).Ok?
    ensures CanonicalFields(fs, depth).Ok? ==>
              forall i :: 0 <= i < |fs| ==> CanonicalField(fs[i], depth) == Ok(CanonicalFields(fs, depth).value[i])
  {
    hide CanonicalField;
    if fs != [] {
      CanonicalFieldsAt(fs[1..], depth);
      assert fs == [fs[0]] + fs[1..];
    }
  }

  // ---- values already in canonical form ----

  ghost predicate AscendingFields(fs: seq<Field>) {
    forall i, j :: 0 <= i < j < |fs| ==> Less(Serialize(fs[i].key), Serialize(fs[j].key))
  }

  ghost predicate DistinctSerialized(fs: seq<Field>) {
    forall i, j :: 0 <= i < j < |fs| ==> Serialize(fs[i].key) != Serialize(fs[j].key)
  }

  /** Arranging fails exactly on repeated keys, and only reorders. */
  lemma ArrangeOrders(fs: Vec<Field>)
    ensures Arrange(fs).Ok? <==> DistinctSerialized(fs)
    ensures Arrange(fs).Ok? ==>
              var r := Arrange(fs).value;
              r.Map? && |r.fields| == |fs| && AscendingFields(r.fields)
              && forall f :: f in r.fields <==> f in fs
  {
    hide Serialize, Sort;
    var es := Keys(fs);
    SortDistinct(es);
    if Arrange(fs).Ok? {
      var gs := FieldsOf(Sort(es));
      forall f
        ensures f in gs <==> f in fs
      {
        if f in gs {
          var i :| 0 <= i < |gs| && gs[i] == f;
          assert Sort(es)[i] in es;
        }
        if f in fs {
          var i :| 0 <= i < |fs| && fs[i] == f;
          assert es[i] in Sort(es);
          var j :| 0 <= j < |es| && Sort(es)[j] == es[i];
          assert gs[j] == f;
        }
      }
      SortedKeys(es);
    }
  }

  lemma SortedKeys(es: seq<Keyed<Field>>)
    requires Ascending(Sort(es)) && forall e <- es :: e.key == Serialize(e.value.key)
    ensures AscendingFields(FieldsOf(Sort(es)))
  {
    hide Serialize, Sort;
    assert forall i :: 0 <= i < |es| ==> Sort(es)[i] in es;
  }

  lemma ArrangeAscending(fs: Vec<Field>)
    requires AscendingFields(fs)
    ensures Arrange(fs) == Ok(Map(fs))
  {
    hide Serialize, Sort;
    SortAscending(Keys(fs));
    SortedDistinctIsAscending(Keys(fs));
    assert FieldsOf(Keys(fs)) == fs;
  }

  /** The arranged map is determined by which fields there are. */
  lemma ArrangeForgetsOrder(fs: Vec<Field>, gs: Vec<Field>)
    requires Arrange(fs).Ok? && Arrange(gs).Ok?
    ensures Arrange(fs) == Arrange(gs) <==> forall f :: f in fs <==> f in gs
  {
    hide Serialize, Sort, Arrange;
    ArrangeOrders(fs);
    ArrangeOrders(gs);
    var a, b := Arrange(fs).value.fields, Arrange(gs).value.fields;
    if forall f :: f in fs <==> f in gs {
      forall e
        ensures e in Keys(a) <==> e in Keys(b)
      {
        InKeys(e, a);
        InKeys(e, b);
      }
      AscendingUnique(Keys(a), Keys(b));
      assert a == FieldsOf(Keys(a)) && b == FieldsOf(Keys(b));
    }
  }

  lemma InKeys(e: Keyed<Field>, fs: seq<Field>)
    ensures e in Keys(fs) <==> e.value in fs && e.key == Serialize(e.value.key)
  {
    hide Serialize;
    if e.value in fs && e.key == Serialize(e.value.key) {
      var i :| 0 <= i < |fs| && fs[i] == e.value;
      assert Keys(fs)[i] == e;
    }
  }

  // ---- values already in canonical form ----

  /** Every map lists its entries in ascending order of the encoded keys. */
  ghost predicate InOrder(v: Value)
    decreases v, 0
  {
    match v
    case Array(vs) => forall i :: 0 <= i < |vs| ==> InOrder(vs[i])
    case Map(fs) => AscendingFields(fs) && forall i :: 0 <= i < |fs| ==> InOrderField(fs[i])
    case _ => true
  }

  ghost predicate InOrderField(f: Field)
    decreases f
  {
    InOrder(f.key) && InOrder(f.value)
  }

  /** Nesting below a value: 0 for a value without children. */
  function Nesting(v: Value): (n: nat)
    decreases v, 0
  {
    match v
    case Array(vs) => if vs == [] then 0 else 1 + DeepestItem(vs)
    case Map(fs) => if fs == [] then 0 else 1 + DeepestField(fs)
    case _ => 0
  }

  function DeepestItem(vs: seq<Value>): (n: nat)
    ensures forall i :: 0 <= i < |vs| ==> Nesting(vs[i]) <= n
    ensures vs != [] ==> exists i :: 0 <= i < |vs| && Nesting(vs[i]) == n
    decreases vs
  {
    if vs == [] then 0
    else
      var rest := DeepestItem(vs[1..]);
      assert vs == [vs[0]] + vs[1..];
      Larger(Nesting(vs[0]), rest)
  }

  function DeepestField(fs: seq<Field>): (n: nat)
    ensures forall i :: 0 <= i < |fs| ==> NestingOf(fs[i]) <= n
    ensures fs != [] ==> exists i :: 0 <= i < |fs| && NestingOf(fs[i]) == n
    decreases fs
  {
    if fs == [] then 0
    else
      var rest := DeepestField(fs[1..]);
      assert fs == [fs[0]] + fs[1..];
      Larger(NestingOf(fs[0]), rest)
  }

  function NestingOf(f: Field): (n: nat)
    decreases f
  {
    Larger(Nesting(f.key), Nesting(f.value))
  }

  /** What a canonical value keeps and gains. */
  ghost predicate CanonicalOf(v: Value, c: Value, depth: nat) {
    && Supported(c) && InOrder(c) && Containers(c) == Containers(v)
    && Nesting(c) == Nesting(v) && depth + Nesting(v) <= MAX_DEPTH
  }

  lemma {:induction false} CanonicalIsInOrder(v: Value, depth: nat)
    requires Canonical(v, depth).Ok?
    ensures CanonicalOf(v, Canonical(v, depth).value, depth)
    decreases v, 0
  {
    hide Arrange, CanonicalFields, CanonicalItems, CanonicalOf;
    match v
    case Array(vs) =>
      CanonicalItemsAt(vs, depth + 1);
      forall i | 0 <= i < |vs|
        ensures CanonicalOf(vs[i], CanonicalItems(vs, depth + 1).value[i], depth + 1)
      {
        CanonicalIsInOrder(vs[i], depth + 1);
      }
      ArrayIsInOrder(vs, CanonicalItems(vs, depth + 1).value, depth);
    case Map(fs) =>
      CanonicalFieldsAt(fs, depth + 1);
      var cs := CanonicalFields(fs, depth + 1).value;
      forall i | 0 <= i < |fs|
        ensures CanonicalFieldOf(fs[i], cs[i], depth + 1)
      {
        CanonicalFieldIsInOrder(fs[i], depth + 1);
      }
      MapIsInOrder(fs, cs, depth);
    case _ => ScalarIsInOrder(v, depth);
  }

  lemma ScalarIsInOrder(v: Value, depth: nat)
    requires Canonical(v, depth).Ok? && !v.Array? && !v.Map?
    ensures CanonicalOf(v, v, depth)
  {
  }

  ghost predicate CanonicalFieldOf(f: Field, c: Field, depth: nat) {
    CanonicalOf(f.key, c.key, depth) && CanonicalOf(f.value, c.value, depth)
  }

  lemma {:induction false} CanonicalFieldIsInOrder(f: Field, depth: nat)
    requires CanonicalField(f, depth).Ok?
    ensures CanonicalFieldOf(f, CanonicalField(f, depth).value, depth)
    decreases f
  {
    hide CanonicalOf;
    CanonicalIsInOrder(f.key, depth);
    CanonicalIsInOrder(f.value, depth);
  }

  lemma ArrayIsInOrder(vs: Vec<Value>, cs: Vec<Value>, depth: nat)
    requires |vs| == |cs| && depth <= MAX_DEPTH
    requires forall i :: 0 <= i < |vs| ==> CanonicalOf(vs[i], cs[i], depth + 1)
    ensures CanonicalOf(Array(vs), Array(cs), depth)
  {
    MostContainersAgree(vs, cs);
  }

  lemma MapIsInOrder(fs: Vec<Field>, cs: Vec<Field>, depth: nat)
    requires |fs| == |cs| && depth <= MAX_DEPTH && Arrange(cs).Ok?
    requires forall i :: 0 <= i < |fs| ==> CanonicalFieldOf(fs[i], cs[i], depth + 1)
    ensures CanonicalOf(Map(fs), Arrange(cs).value, depth)
  {
    hide Arrange, AscendingFields, CanonicalFieldOf, SupportedField, InOrderField, DeepestField, MostInFields;
    ArrangeOrders(cs);
    var gs: Vec<Field> := Arrange(cs).value.fields;
    FieldsCarryOver(fs, cs, gs, depth);
    assert Supported(Map(gs));
    assert InOrder(Map(gs));
  }

  lemma FieldsCarryOver(fs: seq<Field>, cs: seq<Field>, gs: seq<Field>, depth: nat)
    requires |fs| == |cs| == |gs| && forall f :: f in gs <==> f in cs
    requires forall i :: 0 <= i < |fs| ==> CanonicalFieldOf(fs[i], cs[i], depth + 1)
    ensures forall i :: 0 <= i < |gs| ==> SupportedField(gs[i]) && InOrderField(gs[i])
    ensures fs != [] ==> DeepestField(gs) == DeepestField(fs) && DeepestField(fs) + depth + 1 <= MAX_DEPTH
    ensures MostInFields(gs) == MostInFields(fs)
  {
    hide Supported, InOrder, Nesting, Containers, DeepestField, MostInFields;
    forall i | 0 <= i < |gs|
      ensures SupportedField(gs[i]) && InOrderField(gs[i])
    {
      assert gs[i] in cs;
      var j :| 0 <= j < |cs| && cs[j] == gs[i];
      assert CanonicalFieldOf(fs[j], cs[j], depth + 1);
    }
    SameDeepest(fs, cs, gs);
    SameMost(fs, cs, gs);
  }

  lemma SameMost(fs: seq<Field>, cs: seq<Field>, gs: seq<Field>)
    requires |fs| == |cs| == |gs|
    requires forall i :: 0 <= i < |fs| ==> MostInField(cs[i]) == MostInField(fs[i])
    requires forall f :: f in gs <==> f in cs
    ensures MostInFields(gs) == MostInFields(fs)
  {
    hide MostInField;
    if fs != [] {
      MostInFieldsBounds(fs);
      MostInFieldsBounds(gs);
      var i :| 0 <= i < |fs| && MostInField(fs[i]) == MostInFields(fs);
      assert cs[i] in gs;
      var j :| 0 <= j < |gs| && gs[j] == cs[i];
      var k :| 0 <= k < |gs| && MostInField(gs[k]) == MostInFields(gs);
      assert gs[k] in cs;
      var l :| 0 <= l < |cs| && cs[l] == gs[k];
    }
  }

  lemma SameDeepest(fs: seq<Field>, cs: seq<Field>, gs: seq<Field>)
    requires |fs| == |cs| == |gs|
    requires forall i :: 0 <= i < |fs| ==> NestingOf(cs[i]) == NestingOf(fs[i])
    requires forall f :: f in gs <==> f in cs
    ensures fs != [] ==> DeepestField(gs) == DeepestField(fs)
  {
    hide NestingOf, DeepestField;
    if fs != [] {
      var i :| 0 <= i < |fs| && NestingOf(fs[i]) == DeepestField(fs);
      assert cs[i] in gs;
      var j :| 0 <= j < |gs| && gs[j] == cs[i];
      var k :| 0 <= k < |gs| && NestingOf(gs[k]) == DeepestField(gs);
      assert gs[k] in cs;
      var l :| 0 <= l < |cs| && cs[l] == gs[k];
    }
  }

  lemma {:induction false} InOrderIsCanonical(v: Value, depth: nat)
    requires Supported(v) && InOrder(v) && depth + Nesting(v) <= MAX_DEPTH
    ensures Canonical(v, depth) == Ok(v)
    decreases v, 0
  {
    hide Arrange, DeepestItem, DeepestField, CanonicalItems, CanonicalFields, Serialize;
    match v
    case Array(vs) =>
      forall i | 0 <= i < |vs|
        ensures Canonical(vs[i], depth + 1) == Ok(vs[i])
      {
        InOrderIsCanonical(vs[i], depth + 1);
      }
      CanonicalItemsAt(vs, depth + 1);
      assert CanonicalItems(vs, depth + 1).value == vs;
    case Map(fs) =>
      forall i | 0 <= i < |fs|
        ensures CanonicalField(fs[i], depth + 1) == Ok(fs[i])
      {
        InOrderFieldIsCanonical(fs[i], depth + 1);
      }
      CanonicalFieldsAt(fs, depth + 1);
      assert CanonicalFields(fs, depth + 1).value == fs;
      ArrangeAscending(fs);
    case _ =>
  }

  lemma {:induction false} InOrderFieldIsCanonical(f: Field, depth: nat)
    requires SupportedField(f) && InOrderField(f) && depth + NestingOf(f) <= MAX_DEPTH
    ensures CanonicalField(f, depth) == Ok(f)
    decreases f
  {
    hide Supported, InOrder, Nesting, Canonical;
    InOrderIsCanonical(f.key, depth);
    InOrderIsCanonical(f.value, depth);
  }

  // ---- equality up to the order of map entries ----

  /** The same value, except that maps may list the same entries in another order. */
  ghost predicate Same(v: Value, w: Value)
    decreases v, 0
  {
    if v.Array? && w.Array? then
      |v.items| == |w.items| && forall i :: 0 <= i < |v.items| ==> Same(v.items[i], w.items[i])
    else if v.Map? && w.Map? then
      && |v.fields| == |w.fields|
      && (forall i :: 0 <= i < |v.fields| ==> FoundIn(v.fields[i], w.fields))
      && (forall j :: 0 <= j < |w.fields| ==> FoundFor(v.fields, w.fields[j]))
    else v == w
  }

  ghost predicate FoundIn(f: Field, gs: seq<Field>)
    decreases f, 1
  {
    exists j :: 0 <= j < |gs| && SameField(f, gs[j])
  }

  ghost predicate FoundFor(fs: seq<Field>, g: Field)
    decreases fs
  {
    exists i :: 0 <= i < |fs| && SameField(fs[i], g)
  }

  ghost predicate SameField(f: Field, g: Field)
    decreases f, 0
  {
    Same(f.key, g.key) && Same(f.value, g.value)
  }

  lemma {:induction false} SameCanonical(v: Value, w: Value, d: nat, e: nat)
    requires Canonical(v, d).Ok? && Canonical(w, e).Ok?
    ensures Canonical(v, d).value == Canonical(w, e).value <==> Same(v, w)
    decreases v, 0
  {
    hide Arrange, CanonicalFields, CanonicalItems, CanonicalField, SameField;
    if v.Array? && w.Array? {
      CanonicalItemsAt(v.items, d + 1);
      CanonicalItemsAt(w.items, e + 1);
      var cs, ds := CanonicalItems(v.items, d + 1).value, CanonicalItems(w.items, e + 1).value;
      if |cs| == |ds| {
        forall i | 0 <= i < |cs|
          ensures cs[i] == ds[i] <==> Same(v.items[i], w.items[i])
        {
          SameCanonical(v.items[i], w.items[i], d + 1, e + 1);
        }
      }
    } else if v.Map? && w.Map? {
      CanonicalFieldsAt(v.fields, d + 1);
      CanonicalFieldsAt(w.fields, e + 1);
      var cs, ds := CanonicalFields(v.fields, d + 1).value, CanonicalFields(w.fields, e + 1).value;
      forall i, j | 0 <= i < |cs| && 0 <= j < |ds|
        ensures cs[i] == ds[j] <==> SameField(v.fields[i], w.fields[j])
      {
        SameCanonicalField(v.fields[i], w.fields[j], d + 1, e + 1);
      }
      SameMaps(v.fields, w.fields, cs, ds);
    } else {
      KindIsKept(v, d);
      KindIsKept(w, e);
    }
  }

  lemma KindIsKept(v: Value, d: nat)
    requires Canonical(v, d).Ok?
    ensures var c := Canonical(v, d).value;
            c.Array? == v.Array? && c.Map? == v.Map? && (!v.Array? && !v.Map? ==> c == v)
  {
  }

  lemma {:induction false} SameCanonicalField(f: Field, g: Field, d: nat, e: nat)
    requires CanonicalField(f, d).Ok? && CanonicalField(g, e).Ok?
    ensures CanonicalField(f, d) == CanonicalField(g, e) <==> SameField(f, g)
    decreases f
  {
    hide Canonical, Same;
    SameCanonical(f.key, g.key, d, e);
    SameCanonical(f.value, g.value, d, e);
  }

  lemma SameMaps(fs: Vec<Field>, gs: Vec<Field>, cs: Vec<Field>, ds: Vec<Field>)
    requires |fs| == |cs| && |gs| == |ds| && Arrange(cs).Ok? && Arrange(ds).Ok?
    requires forall i, j :: 0 <= i < |cs| && 0 <= j < |ds| ==> (cs[i] == ds[j] <==> SameField(fs[i], gs[j]))
    ensures Arrange(cs).value == Arrange(ds).value <==> Same(Map(fs), Map(gs))
  {
    hide Arrange, SameField, AscendingFields, DistinctSerialized;
    ArrangeOrders(cs);
    ArrangeOrders(ds);
    ArrangeForgetsOrder(cs, ds);
    if Arrange(cs).value == Arrange(ds).value {
      forall i | 0 <= i < |fs|
        ensures FoundIn(fs[i], gs)
      {
        assert cs[i] in ds;
        var j :| 0 <= j < |ds| && ds[j] == cs[i];
        assert SameField(fs[i], gs[j]);
      }
      forall j | 0 <= j < |gs|
        ensures FoundFor(fs, gs[j])
      {
        assert ds[j] in cs;
        var i :| 0 <= i < |cs| && cs[i] == ds[j];
        assert SameField(fs[i], gs[j]);
      }
    }
    if Same(Map(fs), Map(gs)) {
      SameEntries(fs, gs, cs, ds);
      assert Arrange(cs) == Arrange(ds);
    }
  }

  lemma SameEntries(fs: Vec<Field>, gs: Vec<Field>, cs: seq<Field>, ds: seq<Field>)
    requires |fs| == |cs| && |gs| == |ds| && Same(Map(fs), Map(gs))
    requires forall i, j :: 0 <= i < |cs| && 0 <= j < |ds| ==> (cs[i] == ds[j] <==> SameField(fs[i], gs[j]))
    ensures forall f :: f in cs <==> f in ds
  {
    hide SameField;
    forall f | f in cs
      ensures f in ds
    {
      var i :| 0 <= i < |cs| && cs[i] == f;
      assert FoundIn(fs[i], gs);
      var j :| 0 <= j < |gs| && SameField(fs[i], gs[j]);
      assert ds[j] == f;
    }
    forall f | f in ds
      ensures f in cs
    {
      var j :| 0 <= j < |ds| && ds[j] == f;
      assert FoundFor(fs, gs[j]);
      var i :| 0 <= i < |fs| && SameField(fs[i], gs[j]);
      assert cs[i] == f;
    }
  }

  // ---- exactly which values have a canonical form ----

  /** No map holds the same key twice, whatever order the key's own entries are in. */
  ghost predicate DistinctKeys(v: Value)
    decreases v, 0
  {
    match v
    case Array(vs) => forall i :: 0 <= i < |vs| ==> DistinctKeys(vs[i])
    case Map(fs) =>
      && (forall i :: 0 <= i < |fs| ==> DistinctKeysIn(fs[i]))
      && forall i, j :: 0 <= i < j < |fs| ==> !Same(fs[i].key, fs[j].key)
    case _ => true
  }

  ghost predicate DistinctKeysIn(f: Field)
    decreases f
  {
    DistinctKeys(f.key) && DistinctKeys(f.value)
  }

  ghost predicate HasCanonical(v: Value, depth: nat) {
    Supported(v) && DistinctKeys(v) && depth + Nesting(v) <= MAX_DEPTH
  }

  ghost predicate FieldHasCanonical(f: Field, depth: nat) {
    HasCanonical(f.key, depth) && HasCanonical(f.value, depth)
  }

  lemma {:induction false} CanonicalSucceeds(v: Value, depth: nat)
    ensures Canonical(v, depth).Ok? <==> HasCanonical(v, depth)
    decreases v, 0
  {
    hide Arrange, CanonicalFields, CanonicalItems, CanonicalField, Same, HasCanonical, FieldHasCanonical;
    if depth > MAX_DEPTH {
      TooDeep(v, depth);
    } else if v.Array? {
      forall i | 0 <= i < |v.items|
        ensures Canonical(v.items[i], depth + 1).Ok? <==> HasCanonical(v.items[i], depth + 1)
      {
        CanonicalSucceeds(v.items[i], depth + 1);
      }
      CanonicalItemsAt(v.items, depth + 1);
      ArrayHasCanonical(v.items, depth);
    } else if v.Map? {
      forall i | 0 <= i < |v.fields|
        ensures CanonicalField(v.fields[i], depth + 1).Ok? <==> FieldHasCanonical(v.fields[i], depth + 1)
      {
        CanonicalFieldSucceeds(v.fields[i], depth + 1);
      }
      CanonicalFieldsAt(v.fields, depth + 1);
      MapHasCanonical(v.fields, depth);
      if CanonicalFields(v.fields, depth + 1).Ok? {
        ArrangeSucceeds(v.fields, depth + 1);
      }
    } else {
      ScalarHasCanonical(v, depth);
    }
  }

  lemma {:induction false} CanonicalFieldSucceeds(f: Field, depth: nat)
    ensures CanonicalField(f, depth).Ok? <==> FieldHasCanonical(f, depth)
    decreases f
  {
    hide Canonical, HasCanonical;
    CanonicalSucceeds(f.key, depth);
    CanonicalSucceeds(f.value, depth);
  }

  lemma TooDeep(v: Value, depth: nat)
    requires depth > MAX_DEPTH
    ensures !HasCanonical(v, depth)
  {
  }

  lemma ScalarHasCanonical(v: Value, depth: nat)
    requires !v.Array? && !v.Map? && depth <= MAX_DEPTH
    ensures Canonical(v, depth).Ok? <==> HasCanonical(v, depth)
  {
  }

  lemma ArrayHasCanonical(vs: Vec<Value>, depth: nat)
    requires depth <= MAX_DEPTH
    ensures HasCanonical(Array(vs), depth) <==>
            forall i :: 0 <= i < |vs| ==> HasCanonical(vs[i], depth + 1)
  {
    if forall i :: 0 <= i < |vs| ==> HasCanonical(vs[i], depth + 1) {
      assert Supported(Array(vs)) && DistinctKeys(Array(vs));
    }
  }

  lemma MapHasCanonical(fs: Vec<Field>, depth: nat)
    requires depth <= MAX_DEPTH
    ensures HasCanonical(Map(fs), depth) <==>
            && (forall i :: 0 <= i < |fs| ==> FieldHasCanonical(fs[i], depth + 1))
            && forall i, j :: 0 <= i < j < |fs| ==> !Same(fs[i].key, fs[j].key)
  {
    hide Same;
    if HasCanonical(Map(fs), depth) {
      forall i | 0 <= i < |fs|
        ensures FieldHasCanonical(fs[i], depth + 1)
      {
        assert SupportedField(fs[i]) && DistinctKeysIn(fs[i]) && NestingOf(fs[i]) <= DeepestField(fs);
      }
    }
    if forall i :: 0 <= i < |fs| ==> FieldHasCanonical(fs[i], depth + 1) {
      forall i | 0 <= i < |fs|
        ensures SupportedField(fs[i]) && DistinctKeysIn(fs[i]) && NestingOf(fs[i]) + depth + 1 <= MAX_DEPTH
      {
        assert FieldHasCanonical(fs[i], depth + 1);
      }
      assert Supported(Map(fs));
    }
  }

  lemma ArrangeSucceeds(fs: Vec<Field>, depth: nat)
    requires CanonicalFields(fs, depth).Ok?
    ensures Arrange(CanonicalFields(fs, depth).value).Ok? <==>
            forall i, j :: 0 <= i < j < |fs| ==> !Same(fs[i].key, fs[j].key)
  {
    hide Arrange, CanonicalFields, Same, Serialize, Canonical, Supported;
    CanonicalFieldsAt(fs, depth);
    var cs := CanonicalFields(fs, depth).value;
    ArrangeOrders(cs);
    forall i, j | 0 <= i < j < |fs|
      ensures Serialize(cs[i].key) == Serialize(cs[j].key) <==> Same(fs[i].key, fs[j].key)
    {
      assert CanonicalField(fs[i], depth).Ok? && CanonicalField(fs[j], depth).Ok?;
      SameCanonical(fs[i].key, fs[j].key, depth, depth);
      CanonicalIsInOrder(fs[i].key, depth);
      CanonicalIsInOrder(fs[j].key, depth);
      if Serialize(cs[i].key) == Serialize(cs[j].key) {
        SerializeIsInjective(cs[i].key, cs[j].key);
      }
    }
  }

  // ---- the size of an encoding ----

  datatype Metric = ByteLength | ItemCount {
    /** The measure of a head alone. */
    function OfHead(width: Width): (n: nat) {
      if ItemCount? then 1 else 1 + width.Size()
    }

    function OfData(length: nat): (n: nat) {
      if ItemCount? then 0 else length
    }

    function OfItem(t: Item): (n: nat)
      requires t.Valid()
    {
      if ItemCount? then t.Count() else |Print(t)|
    }

    function OfItems(ts: seq<Item>): (n: nat)
      requires AllValid(ts)
    {
      if ItemCount? then CountAll(ts) else |PrintAll(ts)|
    }
  }

  /** Bytes or data items a value encodes to, whatever order its maps are in. */
  function Extent(m: Metric, v: Value): (n: nat)
    decreases v, 0
  {
    match v
    case Integer(i) => m.OfHead(Shortest(if i >= 0 then i else -1 - i))
    case Blob(b) => m.OfHead(Shortest(|b|)) + m.OfData(|b|)
    case Float(bits) => m.OfHead(FloatItem(bits).width)
    case Text(s) => m.OfHead(Shortest(|s|)) + m.OfData(|s|)
    case Bool(_) => 1
    case Null => 1
    case Tag(_, inner) => Extent(m, inner)
    case Array(vs) => m.OfHead(Shortest(|vs|)) + ExtentOfItems(m, vs)
    case Map(fs) => m.OfHead(Shortest(|fs|)) + ExtentOfFields(m, fs)
  }

  function ExtentOfItems(m: Metric, vs: seq<Value>): (n: nat)
    decreases vs
  {
    if vs == [] then 0 else Extent(m, vs[0]) + ExtentOfItems(m, vs[1..])
  }

  function ExtentOfFields(m: Metric, fs: seq<Field>): (n: nat)
    decreases fs
  {
    if fs == [] then 0 else ExtentOfField(m, fs[0]) + ExtentOfFields(m, fs[1..])
  }

  function ExtentOfField(m: Metric, f: Field): (n: nat)
    decreases f
  {
    Extent(m, f.key) + Extent(m, f.value)
  }

  lemma {:induction false} ExtentMeasures(m: Metric, v: Value)
    ensures m.OfItem(ToItem(v)) == Extent(m, v)
    decreases v, 0
  {
    hide Metric.OfItem, Metric.OfItems, Metric.OfHead, ItemsOf, EntriesOf, ExtentOfItems, ExtentOfFields;
    if v.Array? {
      ExtentMeasuresItems(m, v.items);
      ListExtent(m, Shortest(|v.items|), ItemsOf(v.items));
    } else if v.Map? {
      ExtentMeasuresFields(m, v.fields);
      TableExtent(m, Shortest(|v.fields|), EntriesOf(v.fields));
    } else if v.Tag? {
      ExtentMeasures(m, v.inner);
    } else {
      ScalarMeasures(m, v);
    }
  }

  lemma ScalarMeasures(m: Metric, v: Value)
    requires !v.Array? && !v.Map? && !v.Tag?
    ensures m.OfItem(ToItem(v)) == Extent(m, v)
  {
    ScalarExtent(m, ToItem(v));
  }

  lemma ListExtent(m: Metric, w: Width, ts: seq<Item>)
    requires List(w, ts).Valid()
    ensures m.OfItem(List(w, ts)) == m.OfHead(w) + m.OfItems(ts)
  {
    assert Content(List(w, ts)) == PrintAll(ts);
    PrintedLength(List(w, ts));
  }

  lemma PrintedLength(t: Item)
    requires t.Valid()
    ensures |Print(t)| == 1 + HeadOfItem(t).width.Size() + |Content(t)|
  {
    hide Content, HeadOfItem;
  }

  lemma TableExtent(m: Metric, w: Width, ts: seq<Item>)
    requires Table(w, ts).Valid()
    ensures m.OfItem(Table(w, ts)) == m.OfHead(w) + m.OfItems(ts)
  {
    assert Content(Table(w, ts)) == PrintAll(ts);
    PrintedLength(Table(w, ts));
  }

  lemma ScalarExtent(m: Metric, t: Item)
    requires t.Valid() && !t.List? && !t.Table?
    ensures m.OfItem(t) == m.OfHead(HeadOfItem(t).width) + m.OfData(|Content(t)|)
  {
    PrintedLength(t);
  }

  lemma {:induction false} ExtentMeasuresItems(m: Metric, vs: seq<Value>)
    ensures m.OfItems(ItemsOf(vs)) == ExtentOfItems(m, vs)
    decreases vs
  {
    hide Extent, ToItem;
    if vs != [] {
      ExtentMeasures(m, vs[0]);
      ExtentMeasuresItems(m, vs[1..]);
      assert ItemsOf(vs)[1..] == ItemsOf(vs[1..]);
    }
  }

  lemma {:induction false} ExtentMeasuresFields(m: Metric, fs: seq<Field>)
    ensures m.OfItems(EntriesOf(fs)) == ExtentOfFields(m, fs)
    decreases fs
  {
    hide Extent, ToItem, EntryOf, ExtentOfField, CountAll, PrintAll;
    if fs != [] {
      ExtentMeasuresField(m, fs[0]);
      ExtentMeasuresFields(m, fs[1..]);
      ItemsAdd(m, EntryOf(fs[0]), EntriesOf(fs[1..]));
    } else {
      NoItems(m);
    }
  }

  lemma {:induction false} ExtentMeasuresField(m: Metric, f: Field)
    ensures m.OfItems(EntryOf(f)) == ExtentOfField(m, f)
    decreases f
  {
    hide Extent, ToItem, PrintAll, CountAll;
    ExtentMeasures(m, f.key);
    ExtentMeasures(m, f.value);
    OneItem(m, ToItem(f.key));
    OneItem(m, ToItem(f.value));
    ItemsAdd(m, [ToItem(f.key)], [ToItem(f.value)]);
    assert EntryOf(f) == [ToItem(f.key)] + [ToItem(f.value)];
  }

  lemma OneItem(m: Metric, t: Item)
    requires t.Valid()
    ensures AllValid([t]) && m.OfItems([t]) == m.OfItem(t)
  {
    assert [t][1..] == [];
    if m.ItemCount? {
      assert CountAll([t]) == t.Count() + CountAll([]);
    } else {
      assert PrintAll([t]) == Print(t) + PrintAll([]);
    }
  }

  lemma NoItems(m: Metric)
    ensures m.OfItems([]) == 0
  {
  }

  lemma {:induction false} ItemsAdd(m: Metric, ts: seq<Item>, us: seq<Item>)
    requires AllValid(ts) && AllValid(us)
    ensures AllValid(ts + us) && m.OfItems(ts + us) == m.OfItems(ts) + m.OfItems(us)
  {
    if ts == [] {
      assert ts + us == us;
    } else {
      ItemsAdd(m, ts[1..], us);
      assert (ts + us)[1..] == ts[1..] + us;
    }
  }

  // ---- the size is the same in any order ----

  lemma {:induction false} FieldsTotal(m: Metric, es: seq<Keyed<Field>>)
    ensures Total(f => ExtentOfField(m, f), es) == ExtentOfFields(m, FieldsOf(es))
  {
    hide ExtentOfField;
    if es != [] {
      FieldsTotal(m, es[1..]);
      assert FieldsOf(es)[1..] == FieldsOf(es[1..]);
    }
  }

  lemma ArrangeKeepsExtent(m: Metric, fs: Vec<Field>)
    requires Arrange(fs).Ok?
    ensures Extent(m, Arrange(fs).value) == Extent(m, Map(fs))
  {
    hide ExtentOfField, ExtentOfFields, Serialize, Sort;
    FieldsTotal(m, Keys(fs));
    FieldsTotal(m, Sort(Keys(fs)));
    TotalSort(f => ExtentOfField(m, f), Keys(fs));
    assert FieldsOf(Keys(fs)) == fs;
  }

  lemma {:induction false} CanonicalKeepsExtent(m: Metric, v: Value, depth: nat)
    requires Canonical(v, depth).Ok?
    ensures Extent(m, Canonical(v, depth).value) == Extent(m, v)
    decreases v, 0
  {
    hide Arrange, CanonicalItems, CanonicalFields, ExtentOfItems, ExtentOfFields;
    match v
    case Array(vs) => ItemsKeepExtent(m, vs, depth + 1);
    case Map(fs) =>
      FieldsKeepExtent(m, fs, depth + 1);
      var cs: Vec<Field> := CanonicalFields(fs, depth + 1).value;
      ArrangeKeepsExtent(m, cs);
    case _ =>
  }

  lemma {:induction false} ItemsKeepExtent(m: Metric, vs: seq<Value>, depth: nat)
    requires CanonicalItems(vs, depth).Ok?
    ensures ExtentOfItems(m, CanonicalItems(vs, depth).value) == ExtentOfItems(m, vs)
    decreases vs
  {
    hide Canonical, Extent;
    if vs != [] {
      CanonicalKeepsExtent(m, vs[0], depth);
      ItemsKeepExtent(m, vs[1..], depth);
      assert CanonicalItems(vs, depth).value[1..] == CanonicalItems(vs[1..], depth).value;
    }
  }

  lemma {:induction false} FieldsKeepExtent(m: Metric, fs: seq<Field>, depth: nat)
    requires CanonicalFields(fs, depth).Ok?
    ensures ExtentOfFields(m, CanonicalFields(fs, depth).value) == ExtentOfFields(m, fs)
    decreases fs
  {
    hide CanonicalField, ExtentOfField;
    if fs != [] {
      FieldKeepsExtent(m, fs[0], depth);
      FieldsKeepExtent(m, fs[1..], depth);
      assert CanonicalFields(fs, depth).value[1..] == CanonicalFields(fs[1..], depth).value;
    }
  }

  lemma {:induction false} FieldKeepsExtent(m: Metric, f: Field, depth: nat)
    requires CanonicalField(f, depth).Ok?
    ensures ExtentOfField(m, CanonicalField(f, depth).value) == ExtentOfField(m, f)
    decreases f
  {
    hide Canonical, Extent;
    CanonicalKeepsExtent(m, f.key, depth);
    CanonicalKeepsExtent(m, f.value, depth);
  }
}
