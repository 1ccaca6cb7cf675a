/** Canonical text can be read back: no two trees have the same text. */
module JsonTexts {
  import opened Utf16
  import opened CanonicalJson

  lemma {:induction false} Cancel(a: Text, x: Text, y: Text)
    requires a + x == a + y
    ensures x == y
  {
    assert (a + x)[|a|..] == x && (a + y)[|a|..] == y;
  }

  lemma {:induction false} SameHead(a: Text, b: Text, x: Text, y: Text)
    requires a + x == b + y && a != [] && b != []
    ensures a[0] == b[0]
  {
    assert (a + x)[0] == (b + y)[0];
  }

  // ---- Strings ----------------------------------------------------------------------------

  lemma {:induction false} EscapeReads(c: nat, d: nat, x: Text, y: Text)
    requires Escape(c) + x == Escape(d) + y
    ensures c == d && x == y
  {
    var l, r := Escape(c) + x, Escape(d) + y;
    assert l[0] == r[0];
    if |Escape(c)| > 1 && |Escape(d)| > 1 {
      assert l[1] == r[1];
      if |Escape(c)| > 2 && |Escape(d)| > 2 {
        assert l[4] == r[4] && l[5] == r[5];
        assert c / 16 == d / 16 && c % 16 == d % 16;
      }
    }
    assert c == d;
    Cancel(Escape(c), x, y);
  }

  lemma {:induction false} EscapeAllReads(s: Text, t: Text, x: Text, y: Text)
    requires EscapeAll(s, x) == EscapeAll(t, y)
    ensures s == t && x == y
  {
    if s == [] && t == [] {
      Cancel([34], x, y);
    } else if s == [] {
      SameHead([34], Escape(t[0]), x, EscapeAll(t[1..], y));
    } else if t == [] {
      SameHead(Escape(s[0]), [34], EscapeAll(s[1..], x), y);
    } else {
      EscapeReads(s[0], t[0], EscapeAll(s[1..], x), EscapeAll(t[1..], y));
      EscapeAllReads(s[1..], t[1..], x, y);
      assert s == [s[0]] + s[1..] && t == [t[0]] + t[1..];
    }
  }

  lemma {:induction false} QuoteReads(s: Text, t: Text, x: Text, y: Text)
    requires Quote(s, x) == Quote(t, y)
    ensures s == t && x == y
  {
    Cancel([34], EscapeAll(s, x), EscapeAll(t, y));
    EscapeAllReads(s, t, x, y);
  }

  // ---- Numbers ----------------------------------------------------------------------------

  /** What may follow a number: the end, or something that is not a digit. */
  predicate Ended(x: Text) {
    x == [] || !(48 <= x[0] < 58)
  }

  lemma {:induction false} DecimalInjective(n: nat, m: nat)
    requires Decimal(n) == Decimal(m)
    ensures n == m
  {
    var a, b := Decimal(n), Decimal(m);
    assert a[|a| - 1] == b[|b| - 1];
    if n >= 10 && m >= 10 {
      assert a[..|a| - 1] == Decimal(n / 10) && b[..|b| - 1] == Decimal(m / 10);
      DecimalInjective(n / 10, m / 10);
    }
  }

  /** A run of digits that ends before `x` is not longer than one that ends before `y`. */
  lemma {:induction false} DigitsEnd(a: Text, b: Text, x: Text, y: Text)
    requires a + x == b + y && Ended(x) && forall i :: 0 <= i < |b| ==> 48 <= b[i] < 58
    ensures |b| <= |a|
  {
    var l := a + x;
    assert x != [] ==> l[|a|] == x[0];
    assert forall i :: 0 <= i < |b| ==> l[i] == b[i];
  }

  lemma {:induction false} DecimalReads(n: nat, m: nat, x: Text, y: Text)
    requires Decimal(n) + x == Decimal(m) + y && Ended(x) && Ended(y)
    ensures n == m && x == y
  {
    var a, b := Decimal(n), Decimal(m);
    DigitsEnd(a, b, x, y);
    DigitsEnd(b, a, y, x);
    assert a == (a + x)[..|a|] && b == (b + y)[..|a|];
    Cancel(a, x, y);
    DecimalInjective(n, m);
  }

  lemma {:induction false} NumberReads(n: int, m: int, x: Text, y: Text)
    requires Number(n) + x == Number(m) + y && Ended(x) && Ended(y)
    ensures n == m && x == y
  {
    SameHead(Number(n), Number(m), x, y);
    if n < 0 {
      MinusApart(Decimal(-n), x);
      MinusApart(Decimal(-m), y);
      Cancel([45], Decimal(-n) + x, Decimal(-m) + y);
      DecimalReads(-n, -m, x, y);
    } else {
      DecimalReads(n, m, x, y);
    }
  }

  lemma {:induction false} MinusApart(a: Text, x: Text)
    ensures [45] + a + x == [45] + (a + x)
  {
  }

  // ---- Trees ------------------------------------------------------------------------------

  /** The first character tells what kind of tree follows. */
  function Kind(v: Json): nat
  {
    match v
    case Null => 110
    case Bool(b) => if b then 116 else 102
    case Int(n) => Number(n)[0]
    case Str(_) => 34
    case Arr(_) => 91
    case Obj(_) => 123
    case Float(_) => 0
  }

  lemma {:induction false} FirstCharacter(v: Json, x: Text)
    requires !v.Float?
    ensures Render(v, x) != [] && Render(v, x)[0] == Kind(v)
  {
  }

  lemma {:induction false} RenderReads(v: Json, w: Json, x: Text, y: Text)
    requires !HasFloat(v) && !HasFloat(w) && Ended(x) && Ended(y)
    requires Render(v, x) == Render(w, y)
    ensures v == w && x == y
    decreases v
  {
    FirstCharacter(v, x);
    FirstCharacter(w, y);
    assert Kind(v) == Kind(w);
    match v
    case Null => Cancel(NULL_TEXT, x, y);
    case Bool(b) => Cancel(if b then TRUE_TEXT else FALSE_TEXT, x, y);
    case Int(n) => NumberReads(n, w.n, x, y);
    case Str(text) => QuoteReads(text, w.text, x, y);
    case Arr(items) =>
      Cancel([91], RenderItems(items, x), RenderItems(w.items, y));
      ItemsRead(items, w.items, x, y);
    case Obj(fields) =>
      Cancel([123], RenderFields(fields, x), RenderFields(w.fields, y));
      FieldsRead(fields, w.fields, x, y);
  }

  lemma {:induction false} ItemsRead(a: seq<Json>, b: seq<Json>, x: Text, y: Text)
    requires forall i :: 0 <= i < |a| ==> !HasFloat(a[i])
    requires forall i :: 0 <= i < |b| ==> !HasFloat(b[i])
    requires RenderItems(a, x) == RenderItems(b, y)
    ensures a == b && x == y
    decreases a
  {
    if a == [] || b == [] {
      if a != [] {
        FirstCharacter(a[0], AfterItem(a, x));
      }
      if b != [] {
        FirstCharacter(b[0], AfterItem(b, y));
      }
      assert RenderItems(a, x)[0] == RenderItems(b, y)[0];
      Cancel([93], x, y);
    } else {
      RenderReads(a[0], b[0], AfterItem(a, x), AfterItem(b, y));
      assert AfterItem(a, x)[0] == AfterItem(b, y)[0];
      if |a| == 1 {
        Cancel([93], x, y);
        assert a == [a[0]] && b == [b[0]];
      } else {
        Cancel([44], RenderItems(a[1..], x), RenderItems(b[1..], y));
        ItemsRead(a[1..], b[1..], x, y);
        assert a == [a[0]] + a[1..] && b == [b[0]] + b[1..];
      }
    }
  }

  lemma {:induction false} FieldsRead(a: seq<Field>, b: seq<Field>, x: Text, y: Text)
    requires forall i :: 0 <= i < |a| ==> !HasFloat(a[i].value)
    requires forall i :: 0 <= i < |b| ==> !HasFloat(b[i].value)
    requires RenderFields(a, x) == RenderFields(b, y)
    ensures a == b && x == y
    decreases a
  {
    assert RenderFields(a, x)[0] == RenderFields(b, y)[0];
    if a == [] {
      Cancel([125], x, y);
    } else {
      var s, t := Render(a[0].value, AfterField(a, x)), Render(b[0].value, AfterField(b, y));
      QuoteReads(a[0].key, b[0].key, [58] + s, [58] + t);
      Cancel([58], s, t);
      RenderReads(a[0].value, b[0].value, AfterField(a, x), AfterField(b, y));
      assert AfterField(a, x)[0] == AfterField(b, y)[0];
      if |a| == 1 {
        Cancel([125], x, y);
        assert a == [a[0]] && b == [b[0]];
      } else {
        Cancel([44], RenderFields(a[1..], x), RenderFields(b[1..], y));
        FieldsRead(a[1..], b[1..], x, y);
        assert a == [a[0]] + a[1..] && b == [b[0]] + b[1..];
      }
    }
  }
}
