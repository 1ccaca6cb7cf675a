/**
 A reader for compact JSON, written from the grammar: it accepts no white space, no leading
 zero, and each character of a string in one spelling.
 */
module JsonReader {
  import opened Basics
  import opened Utf16
  import opened CanonicalJson
  import opened JsonTexts
  import opened JsonEquality

  /** What was read, and what comes after it. */
  datatype Reading<+T> = Nothing | Got(value: T, rest: Text)

  // ---- Strings ----------------------------------------------------------------------------

  function HexValue(c: nat): Option<nat> {
    if '0' as int <= c <= '9' as int then Some(c - '0' as int)
    else if 'a' as int <= c <= 'f' as int then Some(c - 'a' as int + 10)
    else None
  }

  /** The control character a letter after the backslash stands for. */
  function ShortEscape(letter: nat): Option<nat> {
    if letter == '"' as int || letter == '\\' as int then Some(letter)
    else if letter == 'b' as int then Some(8)
    else if letter == 't' as int then Some(9)
    else if letter == 'n' as int then Some(10)
    else if letter == 'f' as int then Some(12)
    else if letter == 'r' as int then Some(13)
    else None
  }

  /** `\u00XX` for a control character that has no letter. */
  function LongEscape(t: Text): Option<nat>
    requires |t| >= 6
  {
    if t[2] == '0' as int && t[3] == '0' as int && HexValue(t[4]).Some? && HexValue(t[5]).Some? then
      var c := 16 * HexValue(t[4]).value + HexValue(t[5]).value;
      if c < 32 && c !in {8, 9, 10, 12, 13} then Some(c) else None
    else None
  }

  /** One character of a string. */
  function ReadChar(t: Text): (r: Reading<nat>)
    ensures r.Got? ==> |r.rest| < |t|
  {
    if t == [] || t[0] == '"' as int || t[0] < 32 then Nothing
    else if t[0] != '\\' as int then Got(t[0], t[1..])
    else if |t| >= 2 && ShortEscape(t[1]).Some? then Got(ShortEscape(t[1]).value, t[2..])
    else if |t| >= 6 && t[1] == 'u' as int && LongEscape(t).Some? then Got(LongEscape(t).value, t[6..])
    else Nothing
  }

  /** The characters up to the closing quote. */
  function ReadString(t: Text): (r: Reading<Text>)
    ensures r.Got? ==> |r.rest| < |t|
    decreases |t|
  {
    if t != [] && t[0] == '"' as int then Got([], t[1..])
    else
      match ReadChar(t)
      case Nothing => Nothing
      case Got(c, rest) =>
        match ReadString(rest)
        case Nothing => Nothing
        case Got(s, rest') => Got([c] + s, rest')
  }

  // ---- Numbers ----------------------------------------------------------------------------

  predicate Digit(c: nat) {
    '0' as int <= c <= '9' as int
  }

  /** All digits at the front, after those that come to `n`. */
  function ReadDigits(t: Text, n: nat): (r: (nat, Text))
    ensures |r.1| <= |t|
    decreases |t|
  {
    if t != [] && Digit(t[0]) then ReadDigits(t[1..], 10 * n + (t[0] - '0' as int)) else (n, t)
  }

  /** A natural number without leading zeros. */
  function ReadNat(t: Text): (r: Reading<nat>)
    ensures r.Got? ==> |r.rest| < |t|
  {
    if t == [] || !Digit(t[0]) then Nothing
    else if t[0] == '0' as int && |t| > 1 && Digit(t[1]) then Nothing
    else
      var d := ReadDigits(t[1..], t[0] - '0' as int);
      Got(d.0, d.1)
  }

  function ReadNumber(t: Text): (r: Reading<int>)
    ensures r.Got? ==> |r.rest| < |t|
  {
    var minus := t != [] && t[0] == '-' as int;
    match ReadNat(if minus then t[1..] else t)
    case Nothing => Nothing
    case Got(n, rest) =>
      var m: int := n;
      if minus && m == 0 then Nothing else if minus then Got(-m, rest) else Got(m, rest)
  }

  // ---- Values -----------------------------------------------------------------------------

  /** The code points of a word. */
  function Word(s: string): (t: Text)
    ensures |t| == |s| && forall i :: 0 <= i < |s| ==> t[i] == s[i] as int
  {
    seq(|s|, i requires 0 <= i < |s| => s[i] as int)
  }

  function ReadWord(word: string, v: Json, t: Text): (r: Reading<Json>)
    requires word != ""
    ensures r.Got? ==> |r.rest| < |t|
  {
    if Word(word) <= t then Got(v, t[|word|..]) else Nothing
  }

  function ReadValue(t: Text): (r: Reading<Json>)
    ensures r.Got? ==> |r.rest| < |t|
    decreases |t|, 0
  {
    if t == [] then Nothing
    else if t[0] == 'n' as int then ReadWord("null", Null, t)
    else if t[0] == 't' as int then ReadWord("true", Bool(true), t)
    else if t[0] == 'f' as int then ReadWord("false", Bool(false), t)
    else if t[0] == '"' as int then
      (match ReadString(t[1..]) case Nothing => Nothing case Got(s, rest) => Got(Str(s), rest))
    else if t[0] == '[' as int then
      if |t| > 1 && t[1] == ']' as int then Got(Arr([]), t[2..])
      else (match ReadItems(t[1..]) case Nothing => Nothing case Got(items, rest) => Got(Arr(items), rest))
    else if t[0] == '{' as int then
      if |t| > 1 && t[1] == '}' as int then Got(Obj([]), t[2..])
      else (match ReadFields(t[1..]) case Nothing => Nothing case Got(fields, rest) => Got(Obj(fields), rest))
    else
      match ReadNumber(t) case Nothing => Nothing case Got(n, rest) => Got(Int(n), rest)
  }

  /** At least one item, up to the closing bracket. */
  function ReadItems(t: Text): (r: Reading<seq<Json>>)
    ensures r.Got? ==> |r.rest| < |t|
    decreases |t|, 1
  {
    match ReadValue(t)
    case Nothing => Nothing
    case Got(v, rest) =>
      if rest != [] && rest[0] == ']' as int then Got([v], rest[1..])
      else if rest != [] && rest[0] == ',' as int then
        (match ReadItems(rest[1..]) case Nothing => Nothing case Got(items, rest') => Got([v] + items, rest'))
      else Nothing
  }

  /** A key in quotes, a colon and a value. */
  function ReadField(t: Text): (r: Reading<Field>)
    ensures r.Got? ==> |r.rest| < |t|
    decreases |t|, 1
  {
    if t == [] || t[0] != '"' as int then Nothing
    else
      match ReadString(t[1..])
      case Nothing => Nothing
      case Got(key, rest) =>
        if rest == [] || rest[0] != ':' as int then Nothing
        else match ReadValue(rest[1..]) case Nothing => Nothing case Got(v, rest') => Got(Field(key, v), rest')
  }

  function ReadFields(t: Text): (r: Reading<seq<Field>>)
    ensures r.Got? ==> |r.rest| < |t|
    decreases |t|, 2
  {
    match ReadField(t)
    case Nothing => Nothing
    case Got(f, rest) =>
      if rest != [] && rest[0] == '}' as int then Got([f], rest[1..])
      else if rest != [] && rest[0] == ',' as int then
        (match ReadFields(rest[1..]) case Nothing => Nothing case Got(fields, rest') => Got([f] + fields, rest'))
      else Nothing
  }

  // ---- Reading back what was written ------------------------------------------------------

  lemma {:induction false} CharReadsBack(c: nat, x: Text)
    ensures ReadChar(Escape(c) + x) == Got(c, x)
    ensures (Escape(c) + x)[0] != '"' as int
  {
    var t := Escape(c) + x;
    assert t[|Escape(c)|..] == x;
    if |Escape(c)| == 6 {
      assert t[4] == HexDigit(c / 16) && t[5] == HexDigit(c % 16);
    }
  }

  lemma {:induction false} StringReadsBack(s: Text, x: Text)
    ensures ReadString(EscapeAll(s, x)) == Got(s, x)
  {
    if s == [] {
      assert ([34] + x)[1..] == x;
    } else {
      CharReadsBack(s[0], EscapeAll(s[1..], x));
      StringReadsBack(s[1..], x);
      assert s == [s[0]] + s[1..];
    }
  }

  lemma {:induction false} DigitsReadBack(n: nat, x: Text)
    ensures ReadDigits(Decimal(n) + x, 0) == ReadDigits(x, n)
  {
    if n < 10 {
      assert (Decimal(n) + x)[1..] == x;
    } else {
      var last := [48 + n % 10];
      DigitsReadBack(n / 10, last + x);
      assert Decimal(n) + x == Decimal(n / 10) + (last + x);
      assert (last + x)[1..] == x;
      assert 10 * (n / 10) + n % 10 == n;
    }
  }

  lemma {:induction false} FirstDigit(n: nat)
    ensures Decimal(n)[0] == 48 <==> n == 0
  {
    if n >= 10 {
      FirstDigit(n / 10);
    }
  }

  lemma {:induction false} NatReadsBack(n: nat, x: Text)
    requires Ended(x)
    ensures ReadNat(Decimal(n) + x) == Got(n, x)
  {
    var t := Decimal(n) + x;
    FirstDigit(n);
    DigitsReadBack(n, x);
    assert t[0] == Decimal(n)[0];
    assert n == 0 ==> t[1..] == x;
    assert ReadDigits(t, 0) == ReadDigits(t[1..], t[0] - 48);
  }

  lemma {:induction false} NegativeReadsBack(n: int, x: Text)
    requires Ended(x) && n < 0
    ensures ReadNumber([45] + Decimal(-n) + x) == Got(n, x)
  {
    var t := [45] + Decimal(-n) + x;
    NatReadsBack(-n, x);
    assert t[0] == 45 && t[1..] == Decimal(-n) + x;
  }

  lemma {:induction false} NumberReadsBack(n: int, x: Text)
    requires Ended(x)
    ensures ReadNumber(Number(n) + x) == Got(n, x)
  {
    if n < 0 {
      NegativeReadsBack(n, x);
    } else {
      NatReadsBack(n, x);
      assert (Number(n) + x)[0] == Number(n)[0];
    }
  }

  lemma {:induction false} WordReadsBack(word: string, v: Json, x: Text)
    requires word != ""
    ensures ReadWord(word, v, Word(word) + x) == Got(v, x)
  {
  }

  lemma {:induction false} ConstantReadsBack(v: Json, x: Text)
    requires v.Null? || v.Bool?
    ensures ReadValue(Render(v, x)) == Got(v, x)
  {
    assert Word("null") == NULL_TEXT && Word("true") == TRUE_TEXT && Word("false") == FALSE_TEXT;
    WordReadsBack("null", Null, x);
    WordReadsBack("true", Bool(true), x);
    WordReadsBack("false", Bool(false), x);
  }

  lemma {:induction false} ScalarReadsBack(v: Json, x: Text)
    requires (v.Int? || v.Str?) && Ended(x)
    ensures ReadValue(Render(v, x)) == Got(v, x)
  {
    if v.Int? {
      NumberReadsBack(v.n, x);
      assert (Number(v.n) + x)[0] == Number(v.n)[0];
    } else {
      StringReadsBack(v.text, x);
      assert Render(v, x)[1..] == EscapeAll(v.text, x);
    }
  }

  /** The reader reads the text of a float-free tree back, and stops where it ends. */
  lemma {:induction false} ReadsBack(v: Json, x: Text)
    requires !HasFloat(v) && Ended(x)
    ensures ReadValue(Render(v, x)) == Got(v, x)
    decreases v, 0
  {
    match v
    case Null | Bool(_) => ConstantReadsBack(v, x);
    case Int(_) | Str(_) => ScalarReadsBack(v, x);
    case Arr(items) =>
      if items != [] {
        ItemsReadBack(items, x);
      }
      ArrayReadsBack(items, x);
    case Obj(fields) =>
      if fields != [] {
        FieldsReadBack(fields, x);
      }
      ObjectReadsBack(fields, x);
  }

  lemma {:induction false} ArrayReadsBack(items: seq<Json>, x: Text)
    requires items != [] ==> !items[0].Float? && ReadItems(RenderItems(items, x)) == Got(items, x)
    ensures ReadValue(Render(Arr(items), x)) == Got(Arr(items), x)
  {
    var t := Render(Arr(items), x);
    assert t[1..] == RenderItems(items, x);
    if items == [] {
      assert t[2..] == x;
    } else {
      FirstCharacter(items[0], AfterItem(items, x));
    }
  }

  lemma {:induction false} ObjectReadsBack(fields: seq<Field>, x: Text)
    requires fields != [] ==> ReadFields(RenderFields(fields, x)) == Got(fields, x)
    ensures ReadValue(Render(Obj(fields), x)) == Got(Obj(fields), x)
  {
    var t := Render(Obj(fields), x);
    assert t[1..] == RenderFields(fields, x);
    if fields == [] {
      assert t[2..] == x;
    }
  }

  lemma {:induction false} ItemsReadBack(items: seq<Json>, x: Text)
    requires items != [] && forall i :: 0 <= i < |items| ==> !HasFloat(items[i])
    ensures ReadItems(RenderItems(items, x)) == Got(items, x)
    decreases items, 1
  {
    var rest := AfterItem(items, x);
    ReadsBack(items[0], rest);
    if |items| == 1 {
      assert rest[1..] == x && items == [items[0]];
    } else {
      assert rest[1..] == RenderItems(items[1..], x);
      ItemsReadBack(items[1..], x);
      assert items == [items[0]] + items[1..];
    }
  }

  lemma {:induction false} FieldReadsBack(f: Field, x: Text)
    requires !HasFloat(f.value) && Ended(x)
    ensures ReadField(Quote(f.key, [58] + Render(f.value, x))) == Got(f, x)
    decreases f, 1
  {
    var value := [58] + Render(f.value, x);
    StringReadsBack(f.key, value);
    assert Quote(f.key, value)[1..] == EscapeAll(f.key, value);
    assert value[1..] == Render(f.value, x);
    ReadsBack(f.value, x);
  }

  lemma {:induction false} FieldsReadBack(fields: seq<Field>, x: Text)
    requires fields != [] && forall i :: 0 <= i < |fields| ==> !HasFloat(fields[i].value)
    ensures ReadFields(RenderFields(fields, x)) == Got(fields, x)
    decreases fields, 2
  {
    var rest := AfterField(fields, x);
    FieldReadsBack(fields[0], rest);
    if |fields| == 1 {
      assert rest[1..] == x && fields == [fields[0]];
    } else {
      assert rest[1..] == RenderFields(fields[1..], x);
      FieldsReadBack(fields[1..], x);
      assert fields == [fields[0]] + fields[1..];
    }
  }

  // ---- Writing again what was read --------------------------------------------------------

  lemma {:induction false} CharWritesBack(t: Text)
    requires ReadChar(t).Got?
    ensures Escape(ReadChar(t).value) + ReadChar(t).rest == t
  {
    var c := ReadChar(t).value;
    if t[0] == '\\' as int && ShortEscape(t[1]).None? {
      assert t == t[..6] + t[6..];
      assert HexDigit(c / 16) == t[4] && HexDigit(c % 16) == t[5];
      assert Escape(c) == t[..6];
    } else if t[0] == '\\' as int {
      assert t == t[..2] + t[2..] && Escape(c) == t[..2];
    } else {
      assert t == [t[0]] + t[1..];
    }
  }

  lemma {:induction false} StringWritesBack(t: Text)
    requires ReadString(t).Got?
    ensures EscapeAll(ReadString(t).value, ReadString(t).rest) == t
    decreases |t|
  {
    if t[0] == '"' as int {
      assert t == [34] + t[1..];
    } else {
      CharWritesBack(t);
      StringWritesBack(ReadChar(t).rest);
    }
  }

  lemma {:induction false} DigitsWriteBack(t: Text, n: nat)
    requires n > 0
    ensures Decimal(ReadDigits(t, n).0) + ReadDigits(t, n).1 == Decimal(n) + t && Ended(ReadDigits(t, n).1)
    decreases |t|
  {
    if t != [] && Digit(t[0]) {
      var d := t[0] - 48;
      DigitsWriteBack(t[1..], 10 * n + d);
      assert (10 * n + d) / 10 == n && (10 * n + d) % 10 == d;
      assert Decimal(10 * n + d) == Decimal(n) + [t[0]];
      assert t == [t[0]] + t[1..];
      AppendAssoc(Decimal(n), [t[0]], t[1..]);
    }
  }

  lemma {:induction false} NatWritesBack(t: Text)
    requires ReadNat(t).Got?
    ensures Decimal(ReadNat(t).value) + ReadNat(t).rest == t && Ended(ReadNat(t).rest)
  {
    assert t == [t[0]] + t[1..];
    assert Decimal(t[0] - 48) == [t[0]];
    if t[0] > 48 {
      DigitsWriteBack(t[1..], t[0] - 48);
    } else {
      assert |t| > 1 ==> t[1..][0] == t[1];
    }
  }

  lemma {:induction false} NumberWritesBack(t: Text)
    requires ReadNumber(t).Got?
    ensures Number(ReadNumber(t).value) + ReadNumber(t).rest == t && Ended(ReadNumber(t).rest)
  {
    if t != [] && t[0] == '-' as int {
      NatWritesBack(t[1..]);
      MinusApart(Decimal(ReadNat(t[1..]).value), ReadNat(t[1..]).rest);
      assert t == [45] + t[1..];
    } else {
      NatWritesBack(t);
    }
  }

  lemma {:induction false} WordWritesBack(word: string, v: Json, t: Text)
    requires word != "" && ReadWord(word, v, t).Got?
    ensures Word(word) + ReadWord(word, v, t).rest == t
  {
  }

  lemma {:induction false} ConstantWritesBack(t: Text)
    requires t != [] && (t[0] == 'n' as int || t[0] == 't' as int || t[0] == 'f' as int) && ReadValue(t).Got?
    ensures Render(ReadValue(t).value, ReadValue(t).rest) == t && !HasFloat(ReadValue(t).value)
  {
    assert Word("null") == NULL_TEXT && Word("true") == TRUE_TEXT && Word("false") == FALSE_TEXT;
    if t[0] == 'n' as int {
      WordWritesBack("null", Null, t);
    } else if t[0] == 't' as int {
      WordWritesBack("true", Bool(true), t);
    } else {
      WordWritesBack("false", Bool(false), t);
    }
  }

  /** The reader accepts nothing else: whatever it reads is written again as the very same text. */
  lemma {:induction false} WritesBack(t: Text)
    requires ReadValue(t).Got?
    ensures Render(ReadValue(t).value, ReadValue(t).rest) == t && !HasFloat(ReadValue(t).value)
    decreases |t|, 0
  {
    var v, rest := ReadValue(t).value, ReadValue(t).rest;
    assert t == [t[0]] + t[1..];
    if t[0] == 'n' as int || t[0] == 't' as int || t[0] == 'f' as int {
      ConstantWritesBack(t);
    } else if t[0] == '"' as int {
      StringWritesBack(t[1..]);
    } else if t[0] == '[' as int {
      if |t| > 1 && t[1] == ']' as int {
        assert t[1..] == [93] + t[2..];
      } else {
        ItemsWriteBack(t[1..]);
      }
    } else if t[0] == '{' as int {
      if |t| > 1 && t[1] == '}' as int {
        assert t[1..] == [125] + t[2..];
      } else {
        FieldsWriteBack(t[1..]);
      }
    } else {
      NumberWritesBack(t);
    }
  }

  lemma {:induction false} ItemsWriteBack(t: Text)
    requires ReadItems(t).Got?
    ensures
      var items := ReadItems(t).value;
      && items != [] && RenderItems(items, ReadItems(t).rest) == t
      && forall i :: 0 <= i < |items| ==> !HasFloat(items[i])
    decreases |t|, 1
  {
    var v, rest := ReadValue(t).value, ReadValue(t).rest;
    WritesBack(t);
    assert rest == [rest[0]] + rest[1..];
    if rest[0] == ',' as int {
      ItemsWriteBack(rest[1..]);
      var more := ReadItems(rest[1..]).value;
      assert ([v] + more)[1..] == more;
    }
  }

  lemma {:induction false} FieldWritesBack(t: Text)
    requires ReadField(t).Got?
    ensures
      var f := ReadField(t).value;
      Quote(f.key, [58] + Render(f.value, ReadField(t).rest)) == t && !HasFloat(f.value)
    decreases |t|, 1
  {
    assert t == [34] + t[1..];
    StringWritesBack(t[1..]);
    var rest := ReadString(t[1..]).rest;
    assert rest == [58] + rest[1..];
    WritesBack(rest[1..]);
  }

  /** The text `t` is that of some fields, none of which holds a float, followed by `x`. */
  ghost predicate WritesFields(t: Text, fields: seq<Field>, x: Text) {
    && fields != [] && RenderFields(fields, x) == t
    && forall i :: 0 <= i < |fields| ==> !HasFloat(fields[i].value)
  }

  lemma {:induction false} LastField(t: Text, f: Field, x: Text)
    requires Quote(f.key, [58] + Render(f.value, [125] + x)) == t && !HasFloat(f.value)
    ensures WritesFields(t, [f], x)
  {
  }

  lemma {:induction false} OneMoreField(t: Text, f: Field, rest: Text, more: seq<Field>, x: Text)
    requires Quote(f.key, [58] + Render(f.value, [44] + rest)) == t && !HasFloat(f.value)
    requires WritesFields(rest, more, x)
    ensures WritesFields(t, [f] + more, x)
  {
    assert ([f] + more)[1..] == more;
  }

  /** What reading one field decides about reading several. */
  lemma {:induction false} FieldsStart(t: Text)
    requires ReadFields(t).Got?
    ensures ReadField(t).Got? && ReadField(t).rest != []
    ensures
      var f, rest := ReadField(t).value, ReadField(t).rest;
      if rest[0] == 125 then ReadFields(t) == Got([f], rest[1..])
      else && rest[0] == 44 && ReadFields(rest[1..]).Got?
           && ReadFields(t) == Got([f] + ReadFields(rest[1..]).value, ReadFields(rest[1..]).rest)
  {
  }

  lemma {:induction false} FieldsWriteBack(t: Text)
    requires ReadFields(t).Got?
    ensures WritesFields(t, ReadFields(t).value, ReadFields(t).rest)
    decreases |t|, 2
  {
    FieldsStart(t);
    var f, rest := ReadField(t).value, ReadField(t).rest;
    FieldWritesBack(t);
    assert rest == [rest[0]] + rest[1..];
    if rest[0] == 125 {
      LastField(t, f, rest[1..]);
    } else {
      FieldsWriteBack(rest[1..]);
      OneMoreField(t, f, rest[1..], ReadFields(rest[1..]).value, ReadFields(rest[1..]).rest);
    }
  }

  // ---- Canonical text ---------------------------------------------------------------------

  /** `a` comes before `b`: they differ first where `a` has the smaller unit, or `a` ends. */
  ghost predicate UnitsBefore(a: seq<nat>, b: seq<nat>) {
    exists p: nat :: p <= |a| && p < |b| && a[..p] == b[..p] && (p == |a| || a[p] < b[p])
  }

  /** In every object the keys ascend by their UTF-16 code units. */
  ghost predicate Ascending(v: Json) {
    match v
    case Arr(items) => forall i :: 0 <= i < |items| ==> Ascending(items[i])
    case Obj(fields) =>
      && (forall i, j :: 0 <= i < j < |fields| ==> UnitsBefore(Units(fields[i].key), Units(fields[j].key)))
      && forall i :: 0 <= i < |fields| ==> Ascending(fields[i].value)
    case _ => true
  }

  lemma {:induction false} LessMeansBefore(a: seq<nat>, b: seq<nat>)
    requires Less(a, b)
    ensures UnitsBefore(a, b)
  {
    var p: nat := 0;
    if a != [] && a[0] == b[0] {
      var x, y := a[1..], b[1..];
      LessMeansBefore(x, y);
      var q: nat :| q <= |x| && q < |y| && x[..q] == y[..q] && (q == |x| || x[q] < y[q]);
      p := q + 1;
      assert a[..p] == [a[0]] + x[..q] && b[..p] == [b[0]] + y[..q];
    }
    assert a[..p] == b[..p] && (p == |a| || a[p] < b[p]);
  }

  /** The canonical tree of a dictionary with well-formed keys lists its keys in that order. */
  lemma {:induction false} CanonicalAscends(v: Json)
    requires Dictionary(v) && WellFormedKeys(v)
    ensures Ascending(Canonical(v))
    decreases v, 0
  {
    match v
    case Arr(items) => ItemsAscend(items);
    case Obj(fields) =>
      var canonical := CanonicalFields(fields);
      WellFormedKeysApart(v);
      CanonicalSorts(fields);
      forall k | 0 <= k < |canonical|
        ensures Ascending(canonical[k].value) && WellFormed(canonical[k].key)
      {
        CanonicalMembers(fields, canonical[k]);
        var i :| 0 <= i < |fields| && CanonicalField(fields[i]) == canonical[k];
        CanonicalAscends(fields[i].value);
      }
      forall i, j | 0 <= i < j < |canonical|
        ensures UnitsBefore(Units(canonical[i].key), Units(canonical[j].key))
      {
        KeyOrder(canonical[i].key, canonical[j].key);
        LessMeansBefore(Units(canonical[i].key), Units(canonical[j].key));
      }
    case _ =>
  }

  lemma {:induction false} ItemsAscend(items: seq<Json>)
    requires forall i :: 0 <= i < |items| ==> Dictionary(items[i]) && WellFormedKeys(items[i])
    ensures Ascending(Arr(CanonicalItems(items)))
    decreases items, 1
  {
    if items != [] {
      CanonicalAscends(items[0]);
      ItemsAscend(items[1..]);
    }
  }

  /**
   Canonical text is JSON: a reader gets back, to the last character, a tree of the same
   value whose keys ascend by UTF-16 code units.
   */
  lemma {:induction false} CanonicalTextReads(v: Json)
    requires Dictionary(v) && WellFormedKeys(v)
    ensures CanonicalText(v).Ok? <==> !HasFloat(v)
    ensures CanonicalText(v).Ok? ==>
              var r := ReadValue(CanonicalText(v).value);
              r.Got? && r.rest == [] && Meaning(r.value) == Meaning(v) && Ascending(r.value)
  {
    if !HasFloat(v) {
      CanonicalFloat(v);
      ReadsBack(Canonical(v), []);
      CanonicalMeaning(v);
      CanonicalAscends(v);
    }
  }
}
