/** Equal canonical text is equal value. */
module JsonEquality {
  import opened Utf16
  import opened CanonicalJson
  import opened JsonTexts

  // ---- The key order ----------------------------------------------------------------------

  /** On well-formed keys the byte order is the strict total order of UTF-16 code units. */
  lemma {:induction false} KeyOrder(a: Text, b: Text)
    requires WellFormed(a) && WellFormed(b)
    ensures KeyBefore(a, b) <==> Less(Units(a), Units(b))
    ensures a == b || KeyBefore(a, b) || KeyBefore(b, a)
    ensures KeyBefore(a, b) ==> a != b && !KeyBefore(b, a)
  {
    UnitsAreUnits(a);
    UnitsAreUnits(b);
    ByteOrderIsUnitOrder(Units(a), Units(b));
    ByteOrderIsUnitOrder(Units(b), Units(a));
    LessTotal(Units(a), Units(b));
    LessTotal(Units(b), Units(a));
    if Units(a) == Units(b) {
      UnitsInjective(a, b);
    }
  }

  /** Well-formed keys are told apart. */
  lemma {:induction false} WellFormedKeysApart(v: Json)
    requires Dictionary(v) && WellFormedKeys(v)
    ensures KeysApart(v)
    decreases v
  {
    match v
    case Arr(items) =>
      forall i | 0 <= i < |items|
        ensures KeysApart(items[i])
      {
        WellFormedKeysApart(items[i]);
      }
    case Obj(fields) =>
      forall i | 0 <= i < |fields|
        ensures KeysApart(fields[i].value)
      {
        WellFormedKeysApart(fields[i].value);
      }
      forall i, j | 0 <= i < j < |fields|
        ensures SortKey(fields[i].key) != SortKey(fields[j].key)
      {
        KeyOrder(fields[i].key, fields[j].key);
        LessTotal(SortKey(fields[i].key), SortKey(fields[j].key));
      }
    case _ =>
  }

  ghost predicate Sorted(fields: seq<Field>) {
    forall i, j :: 0 <= i < j < |fields| ==> KeyBefore(fields[i].key, fields[j].key)
  }

  lemma {:induction false} InsertMembers(f: Field, fields: seq<Field>, x: Field)
    ensures x in Insert(f, fields) <==> x == f || x in fields
  {
    if fields != [] && KeyBefore(fields[0].key, f.key) {
      InsertMembers(f, fields[1..], x);
      assert fields == [fields[0]] + fields[1..];
    }
  }

  lemma {:induction false} InsertSorts(f: Field, fields: seq<Field>)
    requires Sorted(fields) && forall i :: 0 <= i < |fields| ==> SortKey(fields[i].key) != SortKey(f.key)
    ensures Sorted(Insert(f, fields))
  {
    if fields != [] {
      LessTotal(SortKey(fields[0].key), SortKey(f.key));
      if KeyBefore(fields[0].key, f.key) {
        var rest := Insert(f, fields[1..]);
        InsertSorts(f, fields[1..]);
        forall j | 0 <= j < |rest|
          ensures KeyBefore(fields[0].key, rest[j].key)
        {
          InsertMembers(f, fields[1..], rest[j]);
          if rest[j] != f {
            var i :| 0 <= i < |fields[1..]| && fields[1..][i] == rest[j];
            assert fields[i + 1] == rest[j];
          }
        }
      } else {
        forall j | 0 <= j < |fields|
          ensures KeyBefore(f.key, fields[j].key)
        {
          if j > 0 {
            LessTransitive(SortKey(f.key), SortKey(fields[0].key), SortKey(fields[j].key));
          }
        }
      }
    }
  }

  /** A sorted list is determined by its members. */
  lemma {:induction false} SortedSame(a: seq<Field>, b: seq<Field>)
    requires Sorted(a) && Sorted(b)
    requires forall x :: x in a <==> x in b
    ensures a == b
  {
    assert a != [] ==> a[0] in b;
    assert b != [] ==> b[0] in a;
    if a != [] && b != [] {
      LessTotal(SortKey(a[0].key), SortKey(b[0].key));
      assert a[0] == b[0];
      forall x
        ensures x in a[1..] <==> x in b[1..]
      {
        TailMembers(a, x);
        TailMembers(b, x);
      }
      SortedSame(a[1..], b[1..]);
      assert a == [a[0]] + a[1..] && b == [b[0]] + b[1..];
    }
  }

  lemma {:induction false} TailMembers(a: seq<Field>, x: Field)
    requires Sorted(a) && a != []
    ensures x in a[1..] <==> x in a && x != a[0]
  {
    assert a == [a[0]] + a[1..];
    if x in a[1..] {
      var i :| 0 <= i < |a[1..]| && a[1..][i] == x;
      assert a[i + 1] == x;
      LessTotal(SortKey(a[0].key), SortKey(x.key));
    }
  }

  // ---- Canonical fields -------------------------------------------------------------------

  function CanonicalField(f: Field): Field {
    Field(f.key, Canonical(f.value))
  }

  lemma {:induction false} CanonicalMembers(fields: seq<Field>, x: Field)
    ensures x in CanonicalFields(fields) <==> exists i :: 0 <= i < |fields| && CanonicalField(fields[i]) == x
  {
    if fields != [] {
      CanonicalMembers(fields[1..], x);
      InsertMembers(CanonicalField(fields[0]), CanonicalFields(fields[1..]), x);
      if x in CanonicalFields(fields[1..]) {
        var i :| 0 <= i < |fields[1..]| && CanonicalField(fields[1..][i]) == x;
        assert CanonicalField(fields[i + 1]) == x;
      }
      forall i | 0 < i < |fields| && CanonicalField(fields[i]) == x
        ensures x in CanonicalFields(fields[1..])
      {
        assert fields[1..][i - 1] == fields[i];
      }
    }
  }

  lemma {:induction false} CanonicalSorts(fields: seq<Field>)
    requires Apart(fields)
    ensures Sorted(CanonicalFields(fields))
  {
    if fields != [] {
      var rest := CanonicalFields(fields[1..]);
      CanonicalSorts(fields[1..]);
      forall j | 0 <= j < |rest|
        ensures SortKey(rest[j].key) != SortKey(fields[0].key)
      {
        CanonicalMembers(fields[1..], rest[j]);
        var i :| 0 <= i < |fields[1..]| && CanonicalField(fields[1..][i]) == rest[j];
        assert fields[i + 1].key == rest[j].key;
      }
      InsertSorts(CanonicalField(fields[0]), rest);
    }
  }

  lemma {:induction false} FieldMeaningAt(fields: seq<Field>, i: nat)
    requires DistinctKeys(fields) && i < |fields|
    ensures fields[i].key in FieldMeanings(fields) && FieldMeanings(fields)[fields[i].key] == Meaning(fields[i].value)
  {
    if i > 0 {
      FieldMeaningAt(fields[1..], i - 1);
    }
  }

  lemma {:induction false} FieldOf(fields: seq<Field>, key: Text) returns (i: nat)
    requires key in FieldMeanings(fields)
    ensures i < |fields| && fields[i].key == key
  {
    i := 0;
    if fields[0].key != key {
      i := FieldOf(fields[1..], key);
      i := i + 1;
    }
  }

  // ---- Same value, same canonical tree ----------------------------------------------------

  lemma {:induction false} SameValueSameTree(v: Json, w: Json)
    requires Dictionary(v) && Dictionary(w) && KeysApart(v) && Meaning(v) == Meaning(w)
    ensures Canonical(v) == Canonical(w)
    decreases v
  {
    match v
    case Arr(items) => SameItems(items, w.items);
    case Obj(fields) => SameFields(fields, w.fields);
    case _ =>
  }

  lemma {:induction false} SameItems(a: seq<Json>, b: seq<Json>)
    requires forall i :: 0 <= i < |a| ==> Dictionary(a[i]) && KeysApart(a[i])
    requires forall i :: 0 <= i < |b| ==> Dictionary(b[i])
    requires Meanings(a) == Meanings(b)
    ensures CanonicalItems(a) == CanonicalItems(b)
    decreases a
  {
    if a != [] && b != [] {
      var x, y := Meanings(a[1..]), Meanings(b[1..]);
      assert ([Meaning(a[0])] + x)[0] == ([Meaning(b[0])] + y)[0];
      assert ([Meaning(a[0])] + x)[1..] == x && ([Meaning(b[0])] + y)[1..] == y;
      SameValueSameTree(a[0], b[0]);
      SameItems(a[1..], b[1..]);
    }
  }

  lemma {:induction false} SameKeysApart(a: seq<Field>, b: seq<Field>)
    requires DistinctKeys(a) && DistinctKeys(b) && Apart(a) && FieldMeanings(a) == FieldMeanings(b)
    ensures Apart(b)
  {
    forall i, j | 0 <= i < j < |b|
      ensures SortKey(b[i].key) != SortKey(b[j].key)
    {
      FieldMeaningAt(b, i);
      FieldMeaningAt(b, j);
      var p := FieldOf(a, b[i].key);
      var q := FieldOf(a, b[j].key);
    }
  }

  lemma {:induction false} SameFields(a: seq<Field>, b: seq<Field>)
    requires DistinctKeys(a) && DistinctKeys(b) && Apart(a) && FieldMeanings(a) == FieldMeanings(b)
    requires forall i :: 0 <= i < |a| ==> Dictionary(a[i].value) && KeysApart(a[i].value)
    requires forall i :: 0 <= i < |b| ==> Dictionary(b[i].value)
    ensures CanonicalFields(a) == CanonicalFields(b)
    decreases a
  {
    SameKeysApart(a, b);
    CanonicalSorts(a);
    CanonicalSorts(b);
    forall x
      ensures x in CanonicalFields(a) <==> x in CanonicalFields(b)
    {
      CanonicalMembers(a, x);
      CanonicalMembers(b, x);
      if x in CanonicalFields(a) {
        var i :| 0 <= i < |a| && CanonicalField(a[i]) == x;
        FieldMeaningAt(a, i);
        var j := FieldOf(b, a[i].key);
        FieldMeaningAt(b, j);
        SameValueSameTree(a[i].value, b[j].value);
        assert CanonicalField(b[j]) == x;
      }
      if x in CanonicalFields(b) {
        var j :| 0 <= j < |b| && CanonicalField(b[j]) == x;
        FieldMeaningAt(b, j);
        var i := FieldOf(a, b[j].key);
        FieldMeaningAt(a, i);
        SameValueSameTree(a[i].value, b[j].value);
        assert CanonicalField(a[i]) == x;
      }
    }
    SortedSame(CanonicalFields(a), CanonicalFields(b));
  }

  // ---- Sorting keeps the value ------------------------------------------------------------

  lemma {:induction false} InsertMeaning(f: Field, fields: seq<Field>)
    requires forall i :: 0 <= i < |fields| ==> fields[i].key != f.key
    ensures FieldMeanings(Insert(f, fields)) == FieldMeanings(fields)[f.key := Meaning(f.value)]
  {
    if fields != [] && KeyBefore(fields[0].key, f.key) {
      InsertMeaning(f, fields[1..]);
      var rest := Insert(f, fields[1..]);
      assert ([fields[0]] + rest)[1..] == rest;
    } else {
      assert ([f] + fields)[1..] == fields;
    }
  }

  lemma {:induction false} CanonicalMeaning(v: Json)
    requires Dictionary(v)
    ensures Meaning(Canonical(v)) == Meaning(v)
    decreases v
  {
    match v
    case Arr(items) => CanonicalItemsMeaning(items);
    case Obj(fields) => CanonicalFieldsMeaning(fields);
    case _ =>
  }

  lemma {:induction false} CanonicalItemsMeaning(items: seq<Json>)
    requires forall i :: 0 <= i < |items| ==> Dictionary(items[i])
    ensures Meanings(CanonicalItems(items)) == Meanings(items)
    decreases items
  {
    if items != [] {
      CanonicalMeaning(items[0]);
      CanonicalItemsMeaning(items[1..]);
      var rest := CanonicalItems(items[1..]);
      assert ([Canonical(items[0])] + rest)[1..] == rest;
    }
  }

  lemma {:induction false} CanonicalFieldsMeaning(fields: seq<Field>)
    requires DistinctKeys(fields) && forall i :: 0 <= i < |fields| ==> Dictionary(fields[i].value)
    ensures FieldMeanings(CanonicalFields(fields)) == FieldMeanings(fields)
    decreases fields
  {
    if fields != [] {
      var rest := CanonicalFields(fields[1..]);
      CanonicalMeaning(fields[0].value);
      CanonicalFieldsMeaning(fields[1..]);
      forall j | 0 <= j < |rest|
        ensures rest[j].key != fields[0].key
      {
        CanonicalMembers(fields[1..], rest[j]);
        var i :| 0 <= i < |fields[1..]| && CanonicalField(fields[1..][i]) == rest[j];
        assert fields[i + 1].key == rest[j].key;
      }
      InsertMeaning(CanonicalField(fields[0]), rest);
    }
  }

  /** Canonicalising neither adds nor loses a float. */
  lemma {:induction false} CanonicalFloat(v: Json)
    ensures HasFloat(Canonical(v)) <==> HasFloat(v)
    decreases v
  {
    match v
    case Arr(items) => ItemsFloat(items);
    case Obj(fields) =>
      var canonical := CanonicalFields(fields);
      forall i | 0 <= i < |fields|
        ensures CanonicalField(fields[i]) in canonical
        ensures (HasFloat(Canonical(fields[i].value)) <==> HasFloat(fields[i].value))
      {
        CanonicalMembers(fields, CanonicalField(fields[i]));
        CanonicalFloat(fields[i].value);
      }
      forall j | 0 <= j < |canonical| && HasFloat(canonical[j].value)
        ensures HasFloat(v)
      {
        CanonicalMembers(fields, canonical[j]);
      }
      forall i | 0 <= i < |fields| && HasFloat(fields[i].value)
        ensures HasFloat(Obj(canonical))
      {
        var j :| 0 <= j < |canonical| && canonical[j] == CanonicalField(fields[i]);
      }
    case _ =>
  }

  lemma {:induction false} ItemsFloat(items: seq<Json>)
    ensures HasFloat(Arr(CanonicalItems(items))) <==> HasFloat(Arr(items))
    decreases items
  {
    if items != [] {
      CanonicalFloat(items[0]);
      ItemsFloat(items[1..]);
      OneMoreItem(items[0], items[1..]);
      OneMoreItem(Canonical(items[0]), CanonicalItems(items[1..]));
      assert items == [items[0]] + items[1..];
    }
  }

  lemma {:induction false} OneMoreItem(item: Json, items: seq<Json>)
    ensures HasFloat(Arr([item] + items)) <==> HasFloat(item) || HasFloat(Arr(items))
  {
    var all := [item] + items;
    assert all[0] == item && forall i :: 0 <= i < |items| ==> all[i + 1] == items[i];
    if HasFloat(Arr(all)) {
      var i :| 0 <= i < |all| && HasFloat(all[i]);
      assert i > 0 ==> items[i - 1] == all[i];
    }
  }

  // ---- The theorem ------------------------------------------------------------------------

  /** Equal text means equal value, for all dictionaries. */
  lemma {:induction false} SameTextSameValue(v: Json, w: Json)
    requires Dictionary(v) && Dictionary(w) && CanonicalText(v).Ok? && CanonicalText(v) == CanonicalText(w)
    ensures Meaning(v) == Meaning(w)
  {
    CanonicalFloat(v);
    CanonicalFloat(w);
    RenderReads(Canonical(v), Canonical(w), [], []);
    CanonicalMeaning(v);
    CanonicalMeaning(w);
  }

  /** Float-free trees over well-formed keys have the same text exactly when they are the same value. */
  lemma {:induction false} SameTextExactlyWhenSameValue(v: Json, w: Json)
    requires Dictionary(v) && Dictionary(w) && WellFormedKeys(v) && WellFormedKeys(w)
    requires !HasFloat(v) && !HasFloat(w)
    ensures CanonicalText(v).Ok? && CanonicalText(w).Ok?
    ensures CanonicalText(v) == CanonicalText(w) <==> Meaning(v) == Meaning(w)
  {
    if Meaning(v) == Meaning(w) {
      WellFormedKeysApart(v);
      SameValueSameTree(v, w);
    } else if CanonicalText(v) == CanonicalText(w) {
      SameTextSameValue(v, w);
    }
  }

  /** With lone surrogates among the keys, insertion order can show in the text. */
  lemma {:induction false} IllFormedKeysShowTheirOrder()
    ensures var v, w := Obj([Field([0xD83D, 0xDE00], Null), Field([0x1_F600], Null)]),
                        Obj([Field([0x1_F600], Null), Field([0xD83D, 0xDE00], Null)]);
            Meaning(v) == Meaning(w) && CanonicalText(v) != CanonicalText(w)
  {
    var p, q := Field([0xD83D, 0xDE00], Null), Field([0x1_F600], Null);
    SurrogatesCollide();
    LessTotal(SortKey(p.key), SortKey(q.key));
    assert CanonicalFields([p]) == Insert(p, CanonicalFields([])) == [p];
    assert CanonicalFields([q]) == Insert(q, CanonicalFields([])) == [q];
    assert p.key != q.key && [p, q][1..] == [q] && [q, p][1..] == [p];
    assert CanonicalFields([p, q]) == [p, q] && CanonicalFields([q, p]) == [q, p];
    var v, w := Obj([p, q]), Obj([q, p]);
    assert FieldMeanings([p, q]) == FieldMeanings([q, p]) by {
      assert FieldMeanings([p]) == FieldMeanings([])[p.key := NullValue];
      assert FieldMeanings([q]) == FieldMeanings([])[q.key := NullValue];
      assert FieldMeanings([p, q]) == FieldMeanings([q])[p.key := NullValue];
      assert FieldMeanings([q, p]) == FieldMeanings([p])[q.key := NullValue];
    }
    if CanonicalText(v) == CanonicalText(w) {
      RenderReads(v, w, [], []);
    }
  }
}
