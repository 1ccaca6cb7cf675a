/** Canonical text is independent of key order exactly when the sort tells the keys apart. */
module JsonKeyOrder {
  import opened Utf16
  import opened CanonicalJson
  import opened JsonTexts
  import opened JsonEquality

  ghost predicate Precedes(fields: seq<Field>, a: Field, b: Field) {
    exists p, q :: 0 <= p < q < |fields| && fields[p] == a && fields[q] == b
  }

  lemma {:induction false} PrecedesLater(first: Field, rest: seq<Field>, a: Field, b: Field)
    ensures Precedes(rest, a, b) ==> Precedes([first] + rest, a, b)
    ensures a == first && b in rest ==> Precedes([first] + rest, a, b)
  {
    var all := [first] + rest;
    if Precedes(rest, a, b) {
      var p, q :| 0 <= p < q < |rest| && rest[p] == a && rest[q] == b;
      assert all[p + 1] == a && all[q + 1] == b;
    }
    if a == first && b in rest {
      var q :| 0 <= q < |rest| && rest[q] == b;
      assert all[0] == a && all[q + 1] == b;
    }
  }

  lemma {:induction false} InsertKeepsOrder(f: Field, fields: seq<Field>, a: Field, b: Field)
    requires Precedes(fields, a, b)
    ensures Precedes(Insert(f, fields), a, b)
  {
    if KeyBefore(fields[0].key, f.key) {
      var p, q :| 0 <= p < q < |fields| && fields[p] == a && fields[q] == b;
      assert fields[1..][q - 1] == b;
      InsertMembers(f, fields[1..], b);
      if p > 0 {
        assert fields[1..][p - 1] == a;
        InsertKeepsOrder(f, fields[1..], a, b);
      }
      PrecedesLater(fields[0], Insert(f, fields[1..]), a, b);
    } else {
      PrecedesLater(f, fields, a, b);
    }
  }

  /** The inserted field comes before all that do not sort before it. */
  lemma {:induction false} InsertedBefore(f: Field, fields: seq<Field>, b: Field)
    requires b in fields && !KeyBefore(b.key, f.key)
    ensures Precedes(Insert(f, fields), f, b)
  {
    if KeyBefore(fields[0].key, f.key) {
      assert fields == [fields[0]] + fields[1..];
      InsertedBefore(f, fields[1..], b);
      PrecedesLater(fields[0], Insert(f, fields[1..]), f, b);
    } else {
      PrecedesLater(f, fields, f, b);
    }
  }

  /** Keys the sort cannot tell apart keep their insertion order. */
  lemma {:induction false} SortIsStable(fields: seq<Field>, i: nat, j: nat)
    requires i < j < |fields| && SortKey(fields[i].key) == SortKey(fields[j].key)
    ensures Precedes(CanonicalFields(fields), CanonicalField(fields[i]), CanonicalField(fields[j]))
  {
    var rest := CanonicalFields(fields[1..]);
    if i > 0 {
      SortIsStable(fields[1..], i - 1, j - 1);
      InsertKeepsOrder(CanonicalField(fields[0]), rest, CanonicalField(fields[i]), CanonicalField(fields[j]));
    } else {
      assert fields[1..][j - 1] == fields[j];
      CanonicalMembers(fields[1..], CanonicalField(fields[j]));
      LessTotal(SortKey(fields[j].key), SortKey(fields[0].key));
      InsertedBefore(CanonicalField(fields[0]), rest, CanonicalField(fields[j]));
    }
  }

  lemma {:induction false} InsertDistinct(f: Field, fields: seq<Field>)
    requires DistinctKeys(fields) && forall i :: 0 <= i < |fields| ==> fields[i].key != f.key
    ensures DistinctKeys(Insert(f, fields))
  {
    if fields != [] && KeyBefore(fields[0].key, f.key) {
      InsertDistinct(f, fields[1..]);
      var rest := Insert(f, fields[1..]);
      forall j | 0 <= j < |rest|
        ensures rest[j].key != fields[0].key
      {
        InsertMembers(f, fields[1..], rest[j]);
        if rest[j] != f {
          var i :| 0 <= i < |fields[1..]| && fields[1..][i] == rest[j];
          assert fields[i + 1] == rest[j];
        }
      }
    }
  }

  lemma {:induction false} CanonicalDistinct(fields: seq<Field>)
    requires DistinctKeys(fields)
    ensures DistinctKeys(CanonicalFields(fields))
  {
    if fields != [] {
      var rest := CanonicalFields(fields[1..]);
      CanonicalDistinct(fields[1..]);
      forall j | 0 <= j < |rest|
        ensures rest[j].key != fields[0].key
      {
        CanonicalMembers(fields[1..], rest[j]);
        var i :| 0 <= i < |fields[1..]| && CanonicalField(fields[1..][i]) == rest[j];
        assert fields[i + 1].key == rest[j].key;
      }
      InsertDistinct(CanonicalField(fields[0]), rest);
    }
  }

  lemma {:induction false} SameMembersSameMeaning(a: seq<Field>, b: seq<Field>)
    requires DistinctKeys(a) && DistinctKeys(b) && forall x :: x in a <==> x in b
    ensures FieldMeanings(a) == FieldMeanings(b)
  {
    forall k | k in FieldMeanings(a)
      ensures k in FieldMeanings(b) && FieldMeanings(b)[k] == FieldMeanings(a)[k]
    {
      var i := FieldOf(a, k);
      assert a[i] in b;
      var j :| 0 <= j < |b| && b[j] == a[i];
      FieldMeaningAt(a, i);
      FieldMeaningAt(b, j);
    }
    forall k | k in FieldMeanings(b)
      ensures k in FieldMeanings(a)
    {
      var j := FieldOf(b, k);
      assert b[j] in a;
      var i :| 0 <= i < |a| && a[i] == b[j];
      FieldMeaningAt(a, i);
    }
  }

  /** Bringing field `j` to the front. */
  function Fronted(fields: seq<Field>, j: nat): seq<Field>
    requires j < |fields|
  {
    [fields[j]] + (fields[..j] + fields[j + 1..])
  }

  lemma {:induction false} FrontedMembers(fields: seq<Field>, j: nat, x: Field)
    requires j < |fields|
    ensures x in Fronted(fields, j) <==> x in fields
  {
    assert fields == fields[..j] + [fields[j]] + fields[j + 1..];
  }

  lemma {:induction false} FrontedDistinct(fields: seq<Field>, j: nat)
    requires j < |fields| && DistinctKeys(fields)
    ensures DistinctKeys(Fronted(fields, j))
  {
    var g := Fronted(fields, j);
    assert g[0] == fields[j] && forall i :: 1 <= i < |g| ==> g[i] == if i <= j then fields[i - 1] else fields[i];
  }

  lemma {:induction false} FrontedMeaning(fields: seq<Field>, j: nat)
    requires j < |fields| && DistinctKeys(fields)
    ensures DistinctKeys(Fronted(fields, j)) && FieldMeanings(Fronted(fields, j)) == FieldMeanings(fields)
  {
    var g := Fronted(fields, j);
    FrontedDistinct(fields, j);
    forall x
      ensures x in g <==> x in fields
    {
      FrontedMembers(fields, j, x);
    }
    SameMembersSameMeaning(g, fields);
  }

  lemma {:induction false} FrontedDictionary(fields: seq<Field>, j: nat)
    requires j < |fields| && Dictionary(Obj(fields))
    ensures Dictionary(Obj(Fronted(fields, j)))
  {
    var g := Fronted(fields, j);
    FrontedDistinct(fields, j);
    forall i | 0 <= i < |g|
      ensures Dictionary(g[i].value)
    {
      FrontedMembers(fields, j, g[i]);
    }
  }

  /** Two keys that collide: bringing the later one to the front shows in the canonical object. */
  lemma {:induction false} CollisionShows(fields: seq<Field>, i: nat, j: nat)
    requires DistinctKeys(fields) && i < j < |fields| && SortKey(fields[i].key) == SortKey(fields[j].key)
    ensures CanonicalFields(Fronted(fields, j)) != CanonicalFields(fields)
  {
    var g, c := Fronted(fields, j), CanonicalFields(fields);
    var x, y := CanonicalField(fields[i]), CanonicalField(fields[j]);
    FrontedMeaning(fields, j);
    SortIsStable(fields, i, j);
    assert g[0] == fields[j] && g[i + 1] == fields[i];
    SortIsStable(g, 0, i + 1);
    CanonicalDistinct(fields);
    assert Precedes(c, x, y) && Precedes(CanonicalFields(g), y, x);
  }

  // ---- Anywhere in the tree ---------------------------------------------------------------

  lemma {:induction false} ItemsAt(items: seq<Json>, k: nat)
    requires k < |items|
    ensures |Meanings(items)| == |CanonicalItems(items)| == |items|
    ensures Meanings(items)[k] == Meaning(items[k]) && CanonicalItems(items)[k] == Canonical(items[k])
  {
    if k > 0 {
      ItemsAt(items[1..], k - 1);
    } else if |items| > 1 {
      ItemsAt(items[1..], 0);
    }
  }

  lemma {:induction false} ItemReplaced(items: seq<Json>, k: nat, x: Json)
    requires k < |items| && Meaning(x) == Meaning(items[k]) && Canonical(x) != Canonical(items[k])
    ensures Meanings(items[k := x]) == Meanings(items) && CanonicalItems(items[k := x]) != CanonicalItems(items)
  {
    var items' := items[k := x];
    ItemsAt(items, k);
    ItemsAt(items', k);
    forall i | 0 <= i < |items|
      ensures Meanings(items')[i] == Meanings(items)[i]
    {
      ItemsAt(items, i);
      ItemsAt(items', i);
    }
  }

  lemma {:induction false} FieldReplaced(fields: seq<Field>, k: nat, x: Json)
    requires k < |fields| && DistinctKeys(fields) && Meaning(x) == Meaning(fields[k].value)
    requires Canonical(x) != Canonical(fields[k].value)
    ensures var fields' := fields[k := Field(fields[k].key, x)];
            DistinctKeys(fields') && FieldMeanings(fields') == FieldMeanings(fields)
              && CanonicalFields(fields') != CanonicalFields(fields)
  {
    var fields' := fields[k := Field(fields[k].key, x)];
    forall key
      ensures key in FieldMeanings(fields) <==> key in FieldMeanings(fields')
      ensures key in FieldMeanings(fields) ==> FieldMeanings(fields')[key] == FieldMeanings(fields)[key]
    {
      if key in FieldMeanings(fields) {
        var i := FieldOf(fields, key);
        FieldMeaningAt(fields, i);
        FieldMeaningAt(fields', i);
      }
      if key in FieldMeanings(fields') {
        var i := FieldOf(fields', key);
        FieldMeaningAt(fields, i);
      }
    }
    var y := CanonicalField(fields'[k]);
    CanonicalMembers(fields', y);
    CanonicalMembers(fields, y);
  }

  /** A tree with colliding keys has another insertion order with another canonical tree. */
  lemma {:induction false} OrderShows(v: Json) returns (w: Json)
    requires Dictionary(v) && !KeysApart(v)
    ensures Dictionary(w) && Meaning(w) == Meaning(v) && Canonical(w) != Canonical(v)
    decreases v
  {
    if v.Arr? {
      var k :| 0 <= k < |v.items| && !KeysApart(v.items[k]);
      var x := OrderShows(v.items[k]);
      ItemReplaced(v.items, k, x);
      w := Arr(v.items[k := x]);
    } else if !Apart(v.fields) {
      assert DistinctKeys(v.fields);
      var i, j :| 0 <= i < j < |v.fields| && SortKey(v.fields[i].key) == SortKey(v.fields[j].key);
      FrontedMeaning(v.fields, j);
      FrontedDictionary(v.fields, j);
      CollisionShows(v.fields, i, j);
      w := Obj(Fronted(v.fields, j));
    } else {
      var k :| 0 <= k < |v.fields| && !KeysApart(v.fields[k].value);
      var x := OrderShows(v.fields[k].value);
      FieldReplaced(v.fields, k, x);
      w := Obj(v.fields[k := Field(v.fields[k].key, x)]);
    }
  }

  /**
   The text of a float-free dictionary is the same for every insertion order of its keys
   exactly when no object in it has two keys with the same UTF-16.
   */
  lemma {:induction false} TextIgnoresOrderExactlyWhenKeysApart(v: Json)
    requires Dictionary(v) && !HasFloat(v)
    ensures KeysApart(v) <==>
            forall w :: Dictionary(w) && Meaning(w) == Meaning(v) ==> CanonicalText(w) == CanonicalText(v)
  {
    CanonicalFloat(v);
    if KeysApart(v) {
      forall w | Dictionary(w) && Meaning(w) == Meaning(v)
        ensures CanonicalText(w) == CanonicalText(v)
      {
        SameValueSameTree(v, w);
        CanonicalFloat(w);
      }
    } else {
      var w := OrderShows(v);
      CanonicalFloat(w);
      if CanonicalText(w) == CanonicalText(v) {
        RenderReads(Canonical(w), Canonical(v), [], []);
      }
    }
  }
}
