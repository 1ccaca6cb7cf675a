/**
 `tuple(sorted(set(tags)))`: Python compares strings by code point, and the frozen
 capability tags are put in that order without repetition.
 */
module TagOrder {

  import Utf16

  function Codes(s: string): (codes: seq<nat>)
    ensures |codes| == |s| && forall i :: 0 <= i < |s| ==> codes[i] == s[i] as int
  {
    seq(|s|, i requires 0 <= i < |s| => s[i] as int)
  }

  /** The lexicographic order of the code points. */
  predicate Less(a: string, b: string) {
    Utf16.Less(Codes(a), Codes(b))
  }

  lemma {:induction false} LessTotal(a: string, b: string)
    ensures a == b || Less(a, b) || Less(b, a)
    ensures Less(a, b) ==> a != b && !Less(b, a)
  {
    Utf16.LessTotal(Codes(a), Codes(b));
    if Codes(a) == Codes(b) {
      assert forall i :: 0 <= i < |a| ==> a[i] as int == Codes(b)[i];
    }
  }

  predicate StrictlySorted(s: seq<string>) {
    forall i :: 0 <= i < |s| - 1 ==> Less(s[i], s[i + 1])
  }

  function Insert(x: string, s: seq<string>): seq<string> {
    if s == [] then [x]
    else if x == s[0] then s
    else if Less(x, s[0]) then [x] + s
    else [s[0]] + Insert(x, s[1..])
  }

  function SortTags(s: seq<string>): seq<string> {
    if s == [] then [] else Insert(s[0], SortTags(s[1..]))
  }

  lemma {:induction false} SortedTail(s: seq<string>)
    requires StrictlySorted(s) && s != []
    ensures StrictlySorted(s[1..])
  {
    forall i | 0 <= i < |s[1..]| - 1
      ensures Less(s[1..][i], s[1..][i + 1])
    {
      assert Less(s[i + 1], s[i + 2]);
    }
  }

  lemma {:induction false} SortedCons(x: string, s: seq<string>)
    requires StrictlySorted(s) && (s != [] ==> Less(x, s[0]))
    ensures StrictlySorted([x] + s)
  {
    forall i | 0 <= i < |s|
      ensures Less(([x] + s)[i], ([x] + s)[i + 1])
    {
      if i > 0 {
        assert Less(s[i - 1], s[i]);
      }
    }
  }

  lemma {:induction false} InsertSorts(x: string, s: seq<string>)
    requires StrictlySorted(s)
    ensures StrictlySorted(Insert(x, s)) && Insert(x, s) != []
    ensures Insert(x, s)[0] == x || (s != [] && Insert(x, s)[0] == s[0])
    ensures forall y :: y in Insert(x, s) <==> y == x || y in s
  {
    if s != [] {
      LessTotal(x, s[0]);
      if Less(x, s[0]) {
        SortedCons(x, s);
      } else if x != s[0] {
        SortedTail(s);
        InsertSorts(x, s[1..]);
        assert |s| > 1 ==> Less(s[0], s[1]);
        SortedCons(s[0], Insert(x, s[1..]));
        assert s == [s[0]] + s[1..];
      }
    }
  }

  /** The result is strictly sorted and has exactly the given tags. */
  lemma {:induction false} SortTagsSorts(s: seq<string>)
    ensures StrictlySorted(SortTags(s))
    ensures forall y :: y in SortTags(s) <==> y in s
  {
    if s != [] {
      SortTagsSorts(s[1..]);
      InsertSorts(s[0], SortTags(s[1..]));
      assert s == [s[0]] + s[1..];
    }
  }

  /** Sorting leaves a tag list alone exactly when it already is strictly sorted. */
  lemma {:induction false} SortTagsKeeps(s: seq<string>)
    ensures SortTags(s) == s <==> StrictlySorted(s)
  {
    SortTagsSorts(s);
    if StrictlySorted(s) {
      SortedIsKept(s);
    }
  }

  lemma {:induction false} SortedIsKept(s: seq<string>)
    requires StrictlySorted(s)
    ensures SortTags(s) == s
  {
    if s != [] {
      SortedTail(s);
      SortedIsKept(s[1..]);
      if |s| > 1 {
        assert Less(s[0], s[1]);
        LessTotal(s[0], s[1]);
      }
    }
  }
}
