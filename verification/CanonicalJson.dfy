/**
 Canonical JSON: floats are rejected, object keys sorted by their UTF-16BE bytes, and the
 tree written without white space.  Two texts are equal exactly when the values are.
 */
module CanonicalJson {
  import opened Basics
  import opened Utf16

  /** A JSON tree as Python holds it: an object is its key-value pairs in insertion order. */
  datatype Json =
    | Null
    | Bool(b: bool)
    | Int(n: int)
    | Float(bits: nat)
    | Str(text: Text)
    | Arr(items: seq<Json>)
    | Obj(fields: seq<Field>)

  datatype Field = Field(key: Text, value: Json)

  // ---- What a tree means ------------------------------------------------------------------

  /** The value itself: an object is a finite map, so the order of its keys is no part of it. */
  datatype Value =
    | NullValue
    | BoolValue(b: bool)
    | IntValue(n: int)
    | FloatValue(bits: nat)
    | StrValue(text: Text)
    | ListValue(items: seq<Value>)
    | MapValue(fields: map<Text, Value>)

  ghost function Meaning(v: Json): Value {
    match v
    case Null => NullValue
    case Bool(b) => BoolValue(b)
    case Int(n) => IntValue(n)
    case Float(bits) => FloatValue(bits)
    case Str(text) => StrValue(text)
    case Arr(items) => ListValue(Meanings(items))
    case Obj(fields) => MapValue(FieldMeanings(fields))
  }

  ghost function Meanings(items: seq<Json>): seq<Value> {
    if items == [] then [] else [Meaning(items[0])] + Meanings(items[1..])
  }

  ghost function FieldMeanings(fields: seq<Field>): map<Text, Value> {
    if fields == [] then map[] else FieldMeanings(fields[1..])[fields[0].key := Meaning(fields[0].value)]
  }

  ghost predicate DistinctKeys(fields: seq<Field>) {
    forall i, j :: 0 <= i < j < |fields| ==> fields[i].key != fields[j].key
  }

  /** Objects are dictionaries: no key occurs twice. */
  ghost predicate Dictionary(v: Json) {
    match v
    case Arr(items) => forall i :: 0 <= i < |items| ==> Dictionary(items[i])
    case Obj(fields) => DistinctKeys(fields) && forall i :: 0 <= i < |fields| ==> Dictionary(fields[i].value)
    case _ => true
  }

  /** All object keys are well-formed Unicode. */
  ghost predicate WellFormedKeys(v: Json) {
    match v
    case Arr(items) => forall i :: 0 <= i < |items| ==> WellFormedKeys(items[i])
    case Obj(fields) => forall i :: 0 <= i < |fields| ==> WellFormed(fields[i].key) && WellFormedKeys(fields[i].value)
    case _ => true
  }

  // ---- _reject_float and _canonicalize ----------------------------------------------------

  predicate HasFloat(v: Json) {
    match v
    case Float(_) => true
    case Arr(items) => exists i :: 0 <= i < |items| && HasFloat(items[i])
    case Obj(fields) => exists i :: 0 <= i < |fields| && HasFloat(fields[i].value)
    case _ => false
  }

  /** `str(key).encode("utf-16-be", "surrogatepass")` */
  function SortKey(key: Text): seq<nat> {
    Bytes(Units(key))
  }

  predicate KeyBefore(a: Text, b: Text) {
    Less(SortKey(a), SortKey(b))
  }

  /** The sort tells all keys apart. */
  predicate Apart(fields: seq<Field>) {
    forall i, j :: 0 <= i < j < |fields| ==> SortKey(fields[i].key) != SortKey(fields[j].key)
  }

  /** So it does in every object of the tree. */
  predicate KeysApart(v: Json) {
    match v
    case Arr(items) => forall i :: 0 <= i < |items| ==> KeysApart(items[i])
    case Obj(fields) => Apart(fields) && forall i :: 0 <= i < |fields| ==> KeysApart(fields[i].value)
    case _ => true
  }

  /** Stable insertion: before the first field whose key is not smaller. */
  function Insert(f: Field, fields: seq<Field>): seq<Field> {
    if fields == [] then [f]
    else if KeyBefore(fields[0].key, f.key) then [fields[0]] + Insert(f, fields[1..])
    else [f] + fields
  }

  function Canonical(v: Json): Json {
    match v
    case Arr(items) => Arr(CanonicalItems(items))
    case Obj(fields) => Obj(CanonicalFields(fields))
    case _ => v
  }

  function CanonicalItems(items: seq<Json>): seq<Json> {
    if items == [] then [] else [Canonical(items[0])] + CanonicalItems(items[1..])
  }

  /** Sorted by key, with canonical values. */
  function CanonicalFields(fields: seq<Field>): seq<Field> {
    if fields == [] then []
    else Insert(Field(fields[0].key, Canonical(fields[0].value)), CanonicalFields(fields[1..]))
  }

  // ---- json.dumps with compact separators -------------------------------------------------

  function HexDigit(d: nat): nat {
    if d < 10 then 48 + d else 87 + d
  }

  /** The escapes of `ensure_ascii=False`: quote, backslash and the control characters. */
  function Escape(c: nat): (t: Text)
    ensures t != [] && t[0] != 34
  {
    if c == 34 || c == 92 then [92, c]
    else if c == 8 then [92, 98]
    else if c == 9 then [92, 116]
    else if c == 10 then [92, 110]
    else if c == 12 then [92, 102]
    else if c == 13 then [92, 114]
    else if c < 32 then [92, 117, 48, 48, HexDigit(c / 16), HexDigit(c % 16)]
    else [c]
  }

  /** The escaped text, the closing quote, and what comes after the string. */
  function EscapeAll(s: Text, rest: Text): Text {
    if s == [] then [34] + rest else Escape(s[0]) + EscapeAll(s[1..], rest)
  }

  function Quote(s: Text, rest: Text): Text {
    [34] + EscapeAll(s, rest)
  }

  function Decimal(n: nat): (t: Text)
    ensures t != [] && forall i :: 0 <= i < |t| ==> 48 <= t[i] < 58
  {
    if n < 10 then [48 + n] else Decimal(n / 10) + [48 + n % 10]
  }

  function Number(n: int): (t: Text)
    ensures t != [] && (t[0] == 45 || 48 <= t[0] < 58)
  {
    if n < 0 then [45] + Decimal(-n) else Decimal(n)
  }

  const NULL_TEXT: Text := [110, 117, 108, 108]
  const TRUE_TEXT: Text := [116, 114, 117, 101]
  const FALSE_TEXT: Text := [102, 97, 108, 115, 101]

  /** The text of a tree, followed by `rest`.  A float has none: it never gets this far. */
  function Render(v: Json, rest: Text): Text
    decreases v
  {
    match v
    case Null => NULL_TEXT + rest
    case Bool(b) => (if b then TRUE_TEXT else FALSE_TEXT) + rest
    case Int(n) => Number(n) + rest
    case Float(_) => rest
    case Str(text) => Quote(text, rest)
    case Arr(items) => [91] + RenderItems(items, rest)
    case Obj(fields) => [123] + RenderFields(fields, rest)
  }

  /** The items with commas between them, the closing bracket, and `rest`. */
  function RenderItems(items: seq<Json>, rest: Text): Text
    decreases items, 1
  {
    if items == [] then [93] + rest else Render(items[0], AfterItem(items, rest))
  }

  function AfterItem(items: seq<Json>, rest: Text): Text
    requires items != []
    decreases items, 0
  {
    if |items| == 1 then [93] + rest else [44] + RenderItems(items[1..], rest)
  }

  function RenderFields(fields: seq<Field>, rest: Text): Text
    decreases fields, 1
  {
    if fields == [] then [125] + rest
    else Quote(fields[0].key, [58] + Render(fields[0].value, AfterField(fields, rest)))
  }

  function AfterField(fields: seq<Field>, rest: Text): Text
    requires fields != []
    decreases fields, 0
  {
    if |fields| == 1 then [125] + rest else [44] + RenderFields(fields[1..], rest)
  }

  /** `canonical_json` */
  function CanonicalText(v: Json): Result<Text, string> {
    if HasFloat(v) then Err("ROUTING_POLICY_FLOAT_FORBIDDEN") else Ok(Render(Canonical(v), []))
  }
}
