/** What rank fusion promises about the order of its results, and the search that uses it. */
module FusionLaws {
  import opened Basics
  import opened RankFusion

  /** Each id once, in non-increasing score. */
  lemma {:induction false} EachIdOnceByScore(lists: seq<seq<Item>>, k: nat, fused: seq<Fused>, i: nat, j: nat)
    requires IsFusion(lists, k, fused) && i < j < |fused|
    ensures fused[i].item.id != fused[j].item.id && fused[i].score >= fused[j].score
  {
    assert FusedAt(lists, k, fused[i]) && FusedAt(lists, k, fused[j]);
    assert Outranks(lists, k, fused[i].item.id, fused[j].item.id);
  }

  // ---- Dominance --------------------------------------------------------------------------

  function Count(list: seq<Item>, id: string): nat {
    if list == [] then 0 else Count(list[..|list| - 1], id) + if list[|list| - 1].id == id then 1 else 0
  }

  /** Wherever one stops reading, `a` has occurred at least as often as `b`. */
  predicate Dominates(list: seq<Item>, a: string, b: string) {
    forall n :: 0 <= n <= |list| ==> Count(list[..n], a) >= Count(list[..n], b)
  }

  lemma {:induction false} ShareShrinks(k: nat, p: nat, q: nat)
    requires 0 < p <= q
    ensures Share(k, p) >= Share(k, q)
  {
    var x, y := (k + p) as real, (k + q) as real;
    assert 1.0 / x >= 1.0 / y by {
      assert x > 0.0 && y >= x;
      assert (1.0 / x) * (x * y) == y && (1.0 / y) * (x * y) == x;
    }
  }

  /** What `n` occurrences at one share are worth. */
  function Worth(n: nat, share: real): real {
    if n == 0 then 0.0 else Worth(n - 1, share) + share
  }

  lemma {:induction false} WorthGrows(n: nat, x: real, y: real)
    requires x >= y
    ensures Worth(n, x) >= Worth(n, y) && (y >= 0.0 ==> Worth(n, y) >= 0.0)
  {
    if n > 0 {
      WorthGrows(n - 1, x, y);
    }
  }

  /** The lead in occurrences is worth at least its share at the end of the list. */
  lemma {:induction false} LeadPays(list: seq<Item>, k: nat, a: string, b: string)
    requires Dominates(list, a, b) && list != []
    ensures Count(list, a) >= Count(list, b)
    ensures ListScore(list, k, a) - ListScore(list, k, b) >= Worth(Count(list, a) - Count(list, b), Share(k, |list|))
  {
    assert list[..|list|] == list;
    var n := |list| - 1;
    var front := list[..n];
    var d := ListScore(front, k, a) - ListScore(front, k, b);
    var lead := Count(front, a) - Count(front, b);
    PrefixDominates(list, a, b);
    if n > 0 {
      LeadPays(front, k, a, b);
      ShareShrinks(k, n, n + 1);
    }
    LeadStep(d, lead, if n > 0 then Share(k, n) else Share(k, 1), Share(k, n + 1), list[n].id == a, list[n].id == b);
  }

  lemma {:induction false} PrefixDominates(list: seq<Item>, a: string, b: string)
    requires Dominates(list, a, b) && list != []
    ensures Dominates(list[..|list| - 1], a, b) && Count(list[..|list| - 1], a) >= Count(list[..|list| - 1], b)
  {
    var front := list[..|list| - 1];
    assert forall m :: 0 <= m <= |front| ==> front[..m] == list[..m];
  }

  /** One more item: the old lead is worth less at the longer list, the new occurrences exactly their share. */
  lemma {:induction false} LeadStep(d: real, lead: nat, x: real, y: real, a: bool, b: bool)
    requires d >= Worth(lead, x) && x >= y && lead + (if a then 1 else 0) - (if b then 1 else 0) >= 0
    ensures d + (if a then y else 0.0) - (if b then y else 0.0)
            >= Worth(lead + (if a then 1 else 0) - (if b then 1 else 0), y)
  {
    WorthGrows(lead, x, y);
  }

  /** An id that dominates another in every list never scores lower. */
  lemma {:induction false} DominanceKeepsScore(lists: seq<seq<Item>>, k: nat, a: string, b: string)
    requires forall i :: 0 <= i < |lists| ==> Dominates(lists[i], a, b)
    ensures Score(lists, k, a) >= Score(lists, k, b)
  {
    if lists != [] {
      var list := lists[|lists| - 1];
      DominanceKeepsScore(lists[..|lists| - 1], k, a, b);
      if list != [] {
        LeadPays(list, k, a, b);
        WorthGrows(Count(list, a) - Count(list, b), Share(k, |list|), Share(k, |list|));
      }
    }
  }

  predicate NoDuplicates(list: seq<Item>) {
    forall i, j :: 0 <= i < j < |list| ==> list[i].id != list[j].id
  }

  /** `a` is ranked at least as well as `b`: wherever `b` stands, `a` stands there or before. */
  predicate RankedNoWorse(list: seq<Item>, a: string, b: string) {
    forall q :: 0 <= q < |list| && list[q].id == b ==> Occurs(list[..q + 1], a)
  }

  lemma {:induction false} CountMeaning(list: seq<Item>, id: string)
    ensures Count(list, id) > 0 <==> Occurs(list, id)
    ensures NoDuplicates(list) ==> Count(list, id) <= 1
  {
    if list != [] {
      var front := list[..|list| - 1];
      CountMeaning(front, id);
      assert forall i :: 0 <= i < |front| ==> front[i] == list[i];
      if Occurs(front, id) {
        var i :| 0 <= i < |front| && front[i].id == id;
        assert list[i].id == id;
      }
    }
  }

  lemma {:induction false} RankedNoWorseDominates(list: seq<Item>, a: string, b: string)
    requires NoDuplicates(list) && RankedNoWorse(list, a, b)
    ensures Dominates(list, a, b)
  {
    forall n | 0 <= n <= |list|
      ensures Count(list[..n], a) >= Count(list[..n], b)
    {
      CountMeaning(list[..n], a);
      CountMeaning(list[..n], b);
      if Occurs(list[..n], b) {
        var q :| 0 <= q < n && list[..n][q].id == b;
        assert list[q].id == b;
        var p :| 0 <= p < q + 1 && list[..q + 1][p].id == a;
        assert list[..n][p].id == a;
      }
    }
  }

  /** The fused order respects an order on which all duplicate-free lists agree. */
  lemma {:induction false} BetterRankedNeverScoresLower(lists: seq<seq<Item>>, k: nat, a: string, b: string)
    requires forall i :: 0 <= i < |lists| ==> NoDuplicates(lists[i]) && RankedNoWorse(lists[i], a, b)
    ensures Score(lists, k, a) >= Score(lists, k, b)
  {
    forall i | 0 <= i < |lists|
      ensures Dominates(lists[i], a, b)
    {
      RankedNoWorseDominates(lists[i], a, b);
    }
    DominanceKeepsScore(lists, k, a, b);
  }

  // ---- The sum ----------------------------------------------------------------------------

  /** The reciprocals of `k` plus the rank, over all places of `id` from place `r` on. */
  function ReciprocalsFrom(list: seq<Item>, k: nat, id: string, r: nat): real
    requires r <= |list|
    decreases |list| - r
  {
    if r == |list| then 0.0
    else (if list[r].id == id then 1.0 / (k + r + 1) as real else 0.0) + ReciprocalsFrom(list, k, id, r + 1)
  }

  /** The same over all lists from list `i` on. */
  function ReciprocalsOf(lists: seq<seq<Item>>, k: nat, id: string, i: nat): real
    requires i <= |lists|
    decreases |lists| - i
  {
    if i == |lists| then 0.0 else ReciprocalsFrom(lists[i], k, id, 0) + ReciprocalsOf(lists, k, id, i + 1)
  }

  lemma {:induction false} LastReciprocal(list: seq<Item>, k: nat, id: string, r: nat)
    requires r < |list|
    ensures ReciprocalsFrom(list, k, id, r) == ReciprocalsFrom(list[..|list| - 1], k, id, r)
                                               + if list[|list| - 1].id == id then 1.0 / (k + |list|) as real else 0.0
    decreases |list| - r
  {
    if r < |list| - 1 {
      LastReciprocal(list, k, id, r + 1);
    }
  }

  lemma {:induction false} ListScoreIsSum(list: seq<Item>, k: nat, id: string)
    ensures ListScore(list, k, id) == ReciprocalsFrom(list, k, id, 0)
  {
    if list != [] {
      ListScoreIsSum(list[..|list| - 1], k, id);
      LastReciprocal(list, k, id, 0);
    }
  }

  lemma {:induction false} LastList(lists: seq<seq<Item>>, k: nat, id: string, i: nat)
    requires i < |lists|
    ensures ReciprocalsOf(lists, k, id, i)
            == ReciprocalsOf(lists[..|lists| - 1], k, id, i) + ReciprocalsFrom(lists[|lists| - 1], k, id, 0)
    decreases |lists| - i
  {
    if i < |lists| - 1 {
      LastList(lists, k, id, i + 1);
    }
  }

  /** A score is the plain sum of 1 / (k + rank) over every place of the id in every list. */
  lemma {:induction false} ScoreIsReciprocalSum(lists: seq<seq<Item>>, k: nat, id: string)
    ensures Score(lists, k, id) == ReciprocalsOf(lists, k, id, 0)
  {
    if lists != [] {
      ScoreIsReciprocalSum(lists[..|lists| - 1], k, id);
      ListScoreIsSum(lists[|lists| - 1], k, id);
      LastList(lists, k, id, 0);
    }
  }

  // ---- Two lists --------------------------------------------------------------------------

  lemma {:induction false} ScoreAbsent(list: seq<Item>, k: nat, id: string)
    requires !Occurs(list, id)
    ensures ListScore(list, k, id) == 0.0
  {
    if list != [] {
      var front := list[..|list| - 1];
      assert forall i :: 0 <= i < |front| ==> front[i] == list[i];
      ScoreAbsent(front, k, id);
    }
  }

  lemma {:induction false} ScoreAtRank(list: seq<Item>, k: nat, p: nat)
    requires NoDuplicates(list) && p < |list|
    ensures ListScore(list, k, list[p].id) == Share(k, p + 1)
  {
    var n := |list| - 1;
    var front := list[..n];
    assert forall i :: 0 <= i < n ==> front[i] == list[i];
    if p == n {
      ScoreAbsent(front, k, list[p].id);
    } else {
      ScoreAtRank(front, k, p);
    }
  }

  lemma {:induction false} ScoreOfTwo(x: seq<Item>, y: seq<Item>, k: nat, id: string)
    ensures Score([x, y], k, id) == ListScore(x, k, id) + ListScore(y, k, id)
  {
    assert [x, y][..1] == [x] && [x][..0] == [];
    assert Score([x], k, id) == Score([], k, id) + ListScore(x, k, id);
  }

  /** Two last places among `k + 1` beat one first place; two places at `k + 2` only equal it. */
  lemma {:induction false} TwoSharesBeatOne(k: nat)
    ensures 2.0 * Share(k, k + 1) > Share(k, 1)
    ensures 2.0 * Share(k, k + 2) == Share(k, 1)
  {
    var x := k as real;
    var u, v, w := 1.0 / (2.0 * x + 1.0), 1.0 / (x + 1.0), 1.0 / (2.0 * x + 2.0);
    assert Share(k, k + 1) == u && Share(k, 1) == v && Share(k, k + 2) == w;
    Reciprocals(x + 1.0, u, v, w);
  }

  lemma {:induction false} Reciprocals(y: real, u: real, v: real, w: real)
    requires y >= 1.0 && u * (2.0 * y - 1.0) == 1.0 && v * y == 1.0 && w * (2.0 * y) == 1.0
    ensures 2.0 * u > v && 2.0 * w == v
  {
    assert v > 0.0;
    var z := 2.0 * y - 1.0;
    assert (2.0 * u - v) * z == 2.0 * (u * z) - (2.0 * (v * y) - v) == v;
    assert (2.0 * w - v) * y == w * (2.0 * y) - v * y == 0.0;
  }

  predicate InBoth(x: seq<Item>, y: seq<Item>, id: string) {
    Occurs(x, id) && Occurs(y, id)
  }

  predicate InOne(x: seq<Item>, y: seq<Item>, id: string) {
    Occurs(x, id) != Occurs(y, id)
  }

  lemma {:induction false} ListScoreBounds(list: seq<Item>, k: nat, id: string)
    requires NoDuplicates(list) && Occurs(list, id)
    ensures Share(k, |list|) <= ListScore(list, k, id) <= Share(k, 1)
  {
    var p :| 0 <= p < |list| && list[p].id == id;
    ScoreAtRank(list, k, p);
    ShareShrinks(k, p + 1, |list|);
    ShareShrinks(k, 1, p + 1);
  }

  /** With two duplicate-free lists of at most `k + 1` items, being in both beats being in one. */
  lemma {:induction false} BothBeatsOne(x: seq<Item>, y: seq<Item>, k: nat, a: string, b: string)
    requires NoDuplicates(x) && NoDuplicates(y) && |x| <= k + 1 && |y| <= k + 1
    requires InBoth(x, y, a) && InOne(x, y, b)
    ensures Score([x, y], k, a) > Score([x, y], k, b)
  {
    ScoreOfTwo(x, y, k, a);
    ScoreOfTwo(x, y, k, b);
    ListScoreBounds(x, k, a);
    ListScoreBounds(y, k, a);
    ShareShrinks(k, |x|, k + 1);
    ShareShrinks(k, |y|, k + 1);
    TwoSharesBeatOne(k);
    if Occurs(x, b) {
      ListScoreBounds(x, k, b);
      ScoreAbsent(y, k, b);
    } else {
      ListScoreBounds(y, k, b);
      ScoreAbsent(x, k, b);
    }
  }

  /** The bound is exact: one item more, and last in both only ties with first in one. */
  lemma {:induction false} BoundIsExact(x: seq<Item>, y: seq<Item>, k: nat, a: string, b: string)
    requires NoDuplicates(x) && NoDuplicates(y) && |x| == k + 2 && |y| == k + 2
    requires x[k + 1].id == a && y[k + 1].id == a && x[0].id == b && !Occurs(y, b)
    ensures InBoth(x, y, a) && InOne(x, y, b) && Score([x, y], k, a) == Score([x, y], k, b)
  {
    ScoreOfTwo(x, y, k, a);
    ScoreOfTwo(x, y, k, b);
    ScoreAtRank(x, k, k + 1);
    ScoreAtRank(y, k, k + 1);
    ScoreAtRank(x, k, 0);
    ScoreAbsent(y, k, b);
    TwoSharesBeatOne(k);
  }

  // ---- The search -------------------------------------------------------------------------

  predicate Allowed(candidates: Option<set<string>>, item: Item) {
    candidates.Some? ==> item.id in candidates.value
  }

  function Authorized(list: seq<Item>, candidates: Option<set<string>>): seq<Item> {
    if list == [] then []
    else
      var front := Authorized(list[..|list| - 1], candidates);
      if Allowed(candidates, list[|list| - 1]) then front + [list[|list| - 1]] else front
  }

  lemma {:induction false} AuthorizedMeaning(list: seq<Item>, candidates: Option<set<string>>)
    ensures |Authorized(list, candidates)| <= |list|
    ensures forall item :: item in Authorized(list, candidates) <==> item in list && Allowed(candidates, item)
    ensures NoDuplicates(list) ==> NoDuplicates(Authorized(list, candidates))
  {
    if list != [] {
      var front, last := list[..|list| - 1], list[|list| - 1];
      AuthorizedMeaning(front, candidates);
      assert list == front + [last];
      if NoDuplicates(list) {
        var kept := Authorized(front, candidates);
        forall i | 0 <= i < |kept|
          ensures kept[i].id != last.id
        {
          assert kept[i] in front;
        }
      }
    }
  }

  /** The filter looks at each result by itself and keeps the order. */
  lemma {:induction false} AuthorizedInOrder(a: seq<Item>, b: seq<Item>, candidates: Option<set<string>>)
    ensures Authorized(a + b, candidates) == Authorized(a, candidates) + Authorized(b, candidates)
  {
    if b == [] {
      assert a + b == a;
    } else {
      AuthorizedInOrder(a, b[..|b| - 1], candidates);
      assert (a + b)[..|a + b| - 1] == a + b[..|b| - 1];
    }
  }

  /** The filter and limit steps of `hybrid_search`; `bm25` and `cosine` are what the two branches found. */
  method HybridSearch(bm25: seq<Item>, cosine: seq<Item>, candidates: Option<set<string>>, limit: nat)
    returns (selected: seq<Fused>, ghost fused: seq<Fused>)
    ensures IsFusion([Authorized(bm25, candidates), Authorized(cosine, candidates)], RRF_K, fused)
    ensures selected == if limit <= |fused| then fused[..limit] else fused
    ensures forall i :: 0 <= i < |selected| ==> Allowed(candidates, selected[i].item)
  {
    var x, y := Authorized(bm25, candidates), Authorized(cosine, candidates);
    var all := ReciprocalRankFusion([x, y], RRF_K);
    fused := all;
    selected := if limit <= |all| then all[..limit] else all;
    forall i | 0 <= i < |fused|
      ensures Allowed(candidates, fused[i].item)
    {
      assert FusedAt([x, y], RRF_K, fused[i]);
      AuthorizedMeaning(bm25, candidates);
      AuthorizedMeaning(cosine, candidates);
      FlatOfTwo(x, y);
      assert fused[i].item in x + y;
    }
  }

  lemma {:induction false} FlatOfTwo(x: seq<Item>, y: seq<Item>)
    ensures Flat([x, y]) == x + y
  {
    assert [x, y][..1] == [x] && [x][..0] == [];
    assert Flat([x]) == Flat([]) + x;
  }

  /**
   For every limit up to 30: each branch is asked for twice the limit, and after filtering a
   result found by both branches always precedes every result found by one.
   */
  lemma {:induction false} BothBranchesFirst(bm25: seq<Item>, cosine: seq<Item>, candidates: Option<set<string>>,
                                             limit: nat, fused: seq<Fused>, i: nat, j: nat)
    requires limit <= 30 && |bm25| <= 2 * limit && |cosine| <= 2 * limit && NoDuplicates(bm25) && NoDuplicates(cosine)
    requires IsFusion([Authorized(bm25, candidates), Authorized(cosine, candidates)], RRF_K, fused) && i < |fused|
    requires j < |fused|
    requires InBoth(Authorized(bm25, candidates), Authorized(cosine, candidates), fused[i].item.id)
    requires InOne(Authorized(bm25, candidates), Authorized(cosine, candidates), fused[j].item.id)
    ensures i < j
  {
    var x, y := Authorized(bm25, candidates), Authorized(cosine, candidates);
    AuthorizedMeaning(bm25, candidates);
    AuthorizedMeaning(cosine, candidates);
    assert j < i ==> Outranks([x, y], RRF_K, fused[j].item.id, fused[i].item.id);
    BothBeatsOne(x, y, RRF_K, fused[i].item.id, fused[j].item.id);
  }
}
