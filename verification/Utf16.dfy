/** Text as code points, its UTF-16 encoding, and the order that encoding induces. */
module Utf16 {

  type Text = seq<nat>

  /** Unicode scalar values: code points that are not surrogates. */
  predicate Scalar(c: nat) {
    c < 0xD800 || 0xE000 <= c < 0x11_0000
  }

  predicate WellFormed(s: Text) {
    forall i :: 0 <= i < |s| ==> Scalar(s[i])
  }

  /** A code point beyond the basic plane becomes a surrogate pair. */
  function UnitsOf(c: nat): (u: seq<nat>)
    ensures u != []
  {
    if c < 0x1_0000 then [c]
    else [0xD800 + (c - 0x1_0000) / 0x400, 0xDC00 + (c - 0x1_0000) % 0x400]
  }

  function Units(s: Text): seq<nat> {
    if s == [] then [] else UnitsOf(s[0]) + Units(s[1..])
  }

  /** Big-endian: the high byte of each unit first. */
  function Bytes(units: seq<nat>): seq<nat> {
    if units == [] then [] else [units[0] / 256, units[0] % 256] + Bytes(units[1..])
  }

  /** Strict lexicographic order of unsigned values; a proper prefix comes first. */
  predicate Less(a: seq<nat>, b: seq<nat>) {
    if b == [] then false
    else if a == [] then true
    else a[0] < b[0] || (a[0] == b[0] && Less(a[1..], b[1..]))
  }

  predicate IsUnits(u: seq<nat>) {
    forall i :: 0 <= i < |u| ==> u[i] < 0x1_0000
  }

  lemma {:induction false} LessTotal(a: seq<nat>, b: seq<nat>)
    ensures a == b || Less(a, b) || Less(b, a)
    ensures Less(a, b) ==> a != b && !Less(b, a)
  {
    if a != [] && b != [] {
      LessTotal(a[1..], b[1..]);
      assert a == [a[0]] + a[1..] && b == [b[0]] + b[1..];
    }
  }

  lemma {:induction false} LessTransitive(a: seq<nat>, b: seq<nat>, c: seq<nat>)
    requires Less(a, b) && Less(b, c)
    ensures Less(a, c)
  {
    if a != [] && a[0] == b[0] && b[0] == c[0] {
      LessTransitive(a[1..], b[1..], c[1..]);
    }
  }

  /** Comparing the bytes of UTF-16BE is comparing unsigned code units, the order of section 3.2.3 of RFC 8785. */
  lemma {:induction false} ByteOrderIsUnitOrder(a: seq<nat>, b: seq<nat>)
    requires IsUnits(a) && IsUnits(b)
    ensures Less(Bytes(a), Bytes(b)) <==> Less(a, b)
    ensures Bytes(a) == Bytes(b) <==> a == b
  {
    if a != [] && b != [] {
      ByteOrderIsUnitOrder(a[1..], b[1..]);
      var ra, rb := Bytes(a[1..]), Bytes(b[1..]);
      assert Bytes(a)[1..][1..] == ra && Bytes(b)[1..][1..] == rb;
      assert Bytes(a)[1..] == [a[0] % 256] + ra && Bytes(b)[1..] == [b[0] % 256] + rb;
      assert a == [a[0]] + a[1..] && b == [b[0]] + b[1..];
    }
  }

  lemma {:induction false} UnitsAreUnits(s: Text)
    requires forall i :: 0 <= i < |s| ==> s[i] < 0x11_0000
    ensures IsUnits(Units(s))
  {
    if s != [] {
      UnitsAreUnits(s[1..]);
    }
  }

  /** A first unit says whether it stands alone, and a surrogate pair determines its code point. */
  lemma {:induction false} FirstScalar(c: nat, d: nat, x: seq<nat>, y: seq<nat>)
    requires Scalar(c) && Scalar(d) && UnitsOf(c) + x == UnitsOf(d) + y
    ensures c == d && x == y
  {
    var l, r := UnitsOf(c) + x, UnitsOf(d) + y;
    assert l[0] == r[0];
    if c >= 0x1_0000 && d >= 0x1_0000 {
      assert l[1] == r[1];
    }
    assert l[|UnitsOf(c)|..] == x && r[|UnitsOf(d)|..] == y;
  }

  /** UTF-16 tells well-formed texts apart. */
  lemma {:induction false} UnitsInjective(s: Text, t: Text)
    requires WellFormed(s) && WellFormed(t) && Units(s) == Units(t)
    ensures s == t
  {
    if s != [] && t != [] {
      FirstScalar(s[0], t[0], Units(s[1..]), Units(t[1..]));
      UnitsInjective(s[1..], t[1..]);
      assert s == [s[0]] + s[1..] && t == [t[0]] + t[1..];
    }
  }

  /** Two lone surrogates and the code point they would pair up to have the same encoding. */
  lemma {:induction false} SurrogatesCollide()
    ensures Units([0xD83D, 0xDE00]) == Units([0x1_F600]) && !WellFormed([0xD83D, 0xDE00])
  {
    assert Units([0xD83D, 0xDE00]) == [0xD83D] + Units([0xDE00]);
    assert Units([0xDE00]) == [0xDE00] + Units([]);
    assert Units([0x1_F600]) == [0xD83D, 0xDE00] + Units([]);
    var s := [0xD83D, 0xDE00];
    assert !Scalar(s[0]);
  }

  /** Code-point order is another order: it puts U+FB33 before U+1F600, UTF-16 after it. */
  lemma {:induction false} CodePointOrderDiffers()
    ensures Less([0xFB33], [0x1_F600]) && Less(Units([0x1_F600]), Units([0xFB33]))
  {
    assert Units([0x1_F600]) == [0xD83D, 0xDE00] + Units([]);
    assert Units([0xFB33]) == [0xFB33] + Units([]);
  }
}
