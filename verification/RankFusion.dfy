/** Reciprocal rank fusion of ranked result lists, in exact arithmetic. */
module RankFusion {
  import opened Basics

  datatype Item = Item(id: string, payload: string)
  datatype Fused = Fused(item: Item, score: real)

  const RRF_K: nat := 60

  // ---- Scores -----------------------------------------------------------------------------

  /** What an occurrence at the given rank, counted from 1, is worth. */
  function Share(k: nat, rank: nat): (r: real)
    requires rank > 0
    ensures r > 0.0
  {
    1.0 / (k + rank) as real
  }

  function ListScore(list: seq<Item>, k: nat, id: string): (r: real)
    ensures r >= 0.0
  {
    if list == [] then 0.0
    else ListScore(list[..|list| - 1], k, id) + if list[|list| - 1].id == id then Share(k, |list|) else 0.0
  }

  function Score(lists: seq<seq<Item>>, k: nat, id: string): (r: real)
    ensures r >= 0.0
  {
    if lists == [] then 0.0 else Score(lists[..|lists| - 1], k, id) + ListScore(lists[|lists| - 1], k, id)
  }

  /** All items in the order the loops see them. */
  function Flat(lists: seq<seq<Item>>): seq<Item> {
    if lists == [] then [] else Flat(lists[..|lists| - 1]) + lists[|lists| - 1]
  }

  predicate Occurs(items: seq<Item>, id: string) {
    exists i :: 0 <= i < |items| && items[i].id == id
  }

  /** The ids in the order of their first appearance: the key order of the score table. */
  function FirstSeen(items: seq<Item>): seq<string> {
    if items == [] then []
    else
      var front, last := items[..|items| - 1], items[|items| - 1];
      if Occurs(front, last.id) then FirstSeen(front) else FirstSeen(front) + [last.id]
  }

  predicate IsFirst(items: seq<Item>, i: nat) {
    i < |items| && forall j :: 0 <= j < i ==> items[j].id != items[i].id
  }

  predicate Distinct(ids: seq<string>) {
    forall i, j :: 0 <= i < j < |ids| ==> ids[i] != ids[j]
  }

  lemma {:induction false} FirstSeenMeaning(items: seq<Item>)
    ensures Distinct(FirstSeen(items))
    ensures forall id :: id in FirstSeen(items) <==> Occurs(items, id)
  {
    if items != [] {
      var front, last := items[..|items| - 1], items[|items| - 1];
      FirstSeenMeaning(front);
      assert forall i :: 0 <= i < |front| ==> items[i] == front[i];
      forall id
        ensures id in FirstSeen(items) <==> Occurs(items, id)
      {
        assert id in FirstSeen(front) <==> Occurs(front, id);
        assert Occurs(front, id) ==> Occurs(items, id);
      }
    }
  }

  // ---- The stable sort --------------------------------------------------------------------

  function ScoreIn(scores: map<string, real>, id: string): real {
    if id in scores then scores[id] else 0.0
  }

  /** Behind everything that scores at least as much. */
  function Place(id: string, ids: seq<string>, scores: map<string, real>): seq<string> {
    if ids != [] && ScoreIn(scores, ids[0]) >= ScoreIn(scores, id) then [ids[0]] + Place(id, ids[1..], scores)
    else [id] + ids
  }

  /** `sorted(ids, key=scores.get, reverse=True)` */
  function SortIds(ids: seq<string>, scores: map<string, real>): seq<string> {
    if ids == [] then [] else Place(ids[|ids| - 1], SortIds(ids[..|ids| - 1], scores), scores)
  }

  predicate Earlier(ids: seq<string>, a: string, b: string) {
    exists p, q :: 0 <= p < q < |ids| && ids[p] == a && ids[q] == b
  }

  /** `a` may stand before `b`: it scores more, or the same and was seen earlier. */
  predicate Ahead(ids: seq<string>, scores: map<string, real>, a: string, b: string) {
    ScoreIn(scores, a) > ScoreIn(scores, b) || (ScoreIn(scores, a) == ScoreIn(scores, b) && Earlier(ids, a, b))
  }

  ghost predicate Ranked(ids: seq<string>, scores: map<string, real>, r: seq<string>) {
    forall i, j :: 0 <= i < j < |r| ==> Ahead(ids, scores, r[i], r[j])
  }

  lemma {:induction false} PlaceMembers(id: string, ids: seq<string>, scores: map<string, real>, x: string)
    ensures x in Place(id, ids, scores) <==> x == id || x in ids
  {
    if ids != [] && ScoreIn(scores, ids[0]) >= ScoreIn(scores, id) {
      PlaceMembers(id, ids[1..], scores, x);
      assert ids == [ids[0]] + ids[1..];
    }
  }

  lemma {:induction false} PlaceRanks(all: seq<string>, scores: map<string, real>, id: string, r: seq<string>)
    requires Ranked(all, scores, r) && forall x :: x in r ==> Earlier(all, x, id)
    ensures Ranked(all, scores, Place(id, r, scores))
  {
    if r != [] && ScoreIn(scores, r[0]) >= ScoreIn(scores, id) {
      var rest := Place(id, r[1..], scores);
      PlaceRanks(all, scores, id, r[1..]);
      forall j | 0 <= j < |rest|
        ensures Ahead(all, scores, r[0], rest[j])
      {
        PlaceMembers(id, r[1..], scores, rest[j]);
        if rest[j] in r[1..] {
          var i :| 0 <= i < |r[1..]| && r[1..][i] == rest[j];
          assert r[i + 1] == rest[j];
        } else {
          assert r[0] in r;
        }
      }
    } else {
      forall j | 0 <= j < |r|
        ensures Ahead(all, scores, id, r[j])
      {
        assert j > 0 ==> Ahead(all, scores, r[0], r[j]);
      }
    }
  }

  lemma {:induction false} EarlierGrows(ids: seq<string>, n: nat, a: string, b: string)
    requires n <= |ids| && Earlier(ids[..n], a, b)
    ensures Earlier(ids, a, b)
  {
    var p, q :| 0 <= p < q < n && ids[..n][p] == a && ids[..n][q] == b;
    assert ids[p] == a && ids[q] == b;
  }

  /** The sort keeps the ids and ranks them. */
  lemma {:induction false} SortRanks(ids: seq<string>, scores: map<string, real>)
    ensures Ranked(ids, scores, SortIds(ids, scores))
    ensures forall x :: x in SortIds(ids, scores) <==> x in ids
  {
    if ids != [] {
      var n := |ids| - 1;
      var r := SortIds(ids[..n], scores);
      SortRanks(ids[..n], scores);
      forall i, j | 0 <= i < j < |r|
        ensures Ahead(ids, scores, r[i], r[j])
      {
        assert Ahead(ids[..n], scores, r[i], r[j]);
        if Earlier(ids[..n], r[i], r[j]) {
          EarlierGrows(ids, n, r[i], r[j]);
        }
      }
      forall x | x in r
        ensures Earlier(ids, x, ids[n])
      {
        var p :| 0 <= p < n && ids[..n][p] == x;
        assert ids[p] == x;
      }
      PlaceRanks(ids, scores, ids[n], r);
      forall x
        ensures x in SortIds(ids, scores) <==> x in ids
      {
        PlaceMembers(ids[n], r, scores, x);
        assert ids == ids[..n] + [ids[n]];
      }
    }
  }

  // ---- The fusion -------------------------------------------------------------------------

  /** The fused list is fully determined: each id once, with its score and first item, in rank order. */
  ghost predicate IsFusion(lists: seq<seq<Item>>, k: nat, fused: seq<Fused>) {
    && (forall i :: 0 <= i < |fused| ==> FusedAt(lists, k, fused[i]))
    && (forall i, j :: 0 <= i < j < |fused| ==> Outranks(lists, k, fused[i].item.id, fused[j].item.id))
    && (forall id :: Occurs(Flat(lists), id) ==> Listed(fused, id))
  }

  ghost predicate FusedAt(lists: seq<seq<Item>>, k: nat, f: Fused) {
    f.score == Score(lists, k, f.item.id) && exists p: nat :: IsFirst(Flat(lists), p) && Flat(lists)[p] == f.item
  }

  ghost predicate Outranks(lists: seq<seq<Item>>, k: nat, a: string, b: string) {
    || Score(lists, k, a) > Score(lists, k, b)
    || (Score(lists, k, a) == Score(lists, k, b) && a != b && Earlier(FirstSeen(Flat(lists)), a, b))
  }

  predicate Listed(fused: seq<Fused>, id: string) {
    exists i :: 0 <= i < |fused| && fused[i].item.id == id
  }

  /** The two dictionaries and the insertion order of their keys. */
  datatype Table = Table(order: seq<string>, scores: map<string, real>, items: map<string, Item>)

  ghost predicate HoldsFirst(t: Table, seen: seq<Item>, id: string) {
    id in t.items ==> exists p: nat :: IsFirst(seen, p) && seen[p] == t.items[id] && t.items[id].id == id
  }

  /** The table after the lists `done` and the items `part` of the next one. */
  ghost predicate Accumulated(t: Table, done: seq<seq<Item>>, part: seq<Item>, k: nat) {
    var seen := Flat(done) + part;
    && t.order == FirstSeen(seen)
    && (forall id :: id in t.scores <==> Occurs(seen, id))
    && (forall id :: id in t.items <==> Occurs(seen, id))
    && (forall id :: ScoreIn(t.scores, id) == Score(done, k, id) + ListScore(part, k, id))
    && (forall id :: HoldsFirst(t, seen, id))
  }

  function Add(t: Table, item: Item, k: nat, rank: nat): Table
    requires rank > 0
  {
    Table(if item.id in t.scores then t.order else t.order + [item.id],
          t.scores[item.id := ScoreIn(t.scores, item.id) + Share(k, rank)],
          if item.id in t.items then t.items else t.items[item.id := item])
  }

  lemma {:induction false} OccursMore(seen: seq<Item>, item: Item, id: string)
    ensures Occurs(seen + [item], id) <==> Occurs(seen, id) || id == item.id
  {
    assert (seen + [item])[|seen|] == item;
    if Occurs(seen, id) {
      var i :| 0 <= i < |seen| && seen[i].id == id;
      assert (seen + [item])[i].id == id;
    }
  }

  lemma {:induction false} FirstMore(t: Table, seen: seq<Item>, item: Item, k: nat, rank: nat, id: string)
    requires rank > 0 && HoldsFirst(t, seen, id) && (forall x :: x in t.items <==> Occurs(seen, x))
    ensures HoldsFirst(Add(t, item, k, rank), seen + [item], id)
  {
    var all := seen + [item];
    if id in t.items {
      var p: nat :| IsFirst(seen, p) && seen[p] == t.items[id] && t.items[id].id == id;
      assert IsFirst(all, p) && all[p] == seen[p];
    } else if id == item.id {
      assert !Occurs(seen, id);
      assert IsFirst(all, |seen|) && all[|seen|] == item;
    }
  }

  lemma {:induction false} ListScoreMore(part: seq<Item>, item: Item, k: nat, id: string)
    ensures ListScore(part + [item], k, id)
            == ListScore(part, k, id) + if item.id == id then Share(k, |part| + 1) else 0.0
  {
    assert (part + [item])[..|part|] == part;
  }

  lemma {:induction false} FirstSeenMore(seen: seq<Item>, item: Item)
    ensures FirstSeen(seen + [item]) == if Occurs(seen, item.id) then FirstSeen(seen) else FirstSeen(seen) + [item.id]
  {
    assert (seen + [item])[..|seen|] == seen;
  }

  lemma {:induction false} ScoresMore(t: Table, done: seq<seq<Item>>, part: seq<Item>, item: Item, k: nat, id: string)
    requires ScoreIn(t.scores, id) == Score(done, k, id) + ListScore(part, k, id)
    ensures ScoreIn(Add(t, item, k, |part| + 1).scores, id) == Score(done, k, id) + ListScore(part + [item], k, id)
  {
    ListScoreMore(part, item, k, id);
  }

  lemma {:induction false} AddAccumulates(t: Table, done: seq<seq<Item>>, part: seq<Item>, item: Item, k: nat)
    requires Accumulated(t, done, part, k)
    ensures Accumulated(Add(t, item, k, |part| + 1), done, part + [item], k)
  {
    var seen, t' := Flat(done) + part, Add(t, item, k, |part| + 1);
    AppendAssoc(Flat(done), part, [item]);
    FirstSeenMore(seen, item);
    forall id
      ensures id in t'.scores <==> Occurs(seen + [item], id)
      ensures id in t'.items <==> Occurs(seen + [item], id)
    {
      OccursMore(seen, item, id);
    }
    forall id
      ensures HoldsFirst(t', seen + [item], id)
    {
      assert HoldsFirst(t, seen, id);
      FirstMore(t, seen, item, k, |part| + 1, id);
    }
    forall id
      ensures ScoreIn(t'.scores, id) == Score(done, k, id) + ListScore(part + [item], k, id)
    {
      assert ScoreIn(t.scores, id) == Score(done, k, id) + ListScore(part, k, id);
      ScoresMore(t, done, part, item, k, id);
    }
  }

  lemma {:induction false} NextList(t: Table, lists: seq<seq<Item>>, n: nat, k: nat)
    requires n < |lists| && Accumulated(t, lists[..n], lists[n], k)
    ensures Accumulated(t, lists[..n + 1], [], k)
  {
    assert lists[..n + 1][..n] == lists[..n];
    assert Flat(lists[..n + 1]) + [] == Flat(lists[..n]) + lists[n];
    forall id
      ensures ScoreIn(t.scores, id) == Score(lists[..n + 1], k, id) + ListScore([], k, id)
    {
      assert ScoreIn(t.scores, id) == Score(lists[..n], k, id) + ListScore(lists[n], k, id);
    }
  }

  /** A complete table, its ids sorted, is the fusion. */
  lemma {:induction false} SortedTableIsFusion(t: Table, lists: seq<seq<Item>>, k: nat, fused: seq<Fused>)
    requires Accumulated(t, lists, [], k)
    requires var ids := SortIds(t.order, t.scores);
             |fused| == |ids| && forall i :: 0 <= i < |ids| ==>
               ids[i] in t.items && ids[i] in t.scores && fused[i] == Fused(t.items[ids[i]], t.scores[ids[i]])
    ensures IsFusion(lists, k, fused)
  {
    var ids, seen := SortIds(t.order, t.scores), Flat(lists);
    assert seen + [] == seen;
    FirstSeenMeaning(seen);
    SortRanks(t.order, t.scores);
    forall i | 0 <= i < |fused|
      ensures FusedAt(lists, k, fused[i]) && fused[i].item.id == ids[i]
    {
      assert HoldsFirst(t, seen, ids[i]);
      assert ScoreIn(t.scores, ids[i]) == Score(lists, k, ids[i]) + ListScore([], k, ids[i]);
    }
    forall i, j | 0 <= i < j < |fused|
      ensures Outranks(lists, k, fused[i].item.id, fused[j].item.id)
    {
      var a, b := ids[i], ids[j];
      assert Ahead(t.order, t.scores, a, b);
      assert ScoreIn(t.scores, a) == Score(lists, k, a) + ListScore([], k, a);
      assert ScoreIn(t.scores, b) == Score(lists, k, b) + ListScore([], k, b);
    }
    forall id | Occurs(seen, id)
      ensures Listed(fused, id)
    {
      assert id in t.order && id in ids;
      var i :| 0 <= i < |ids| && ids[i] == id;
      assert fused[i].item.id == id;
    }
  }

  /** `reciprocal_rank_fusion` */
  method ReciprocalRankFusion(lists: seq<seq<Item>>, k: nat) returns (fused: seq<Fused>)
    ensures IsFusion(lists, k, fused)
  {
    var t := Table([], map[], map[]);
    for n := 0 to |lists|
      invariant Accumulated(t, lists[..n], [], k)
    {
      var list := lists[n];
      assert list[..0] == [];
      for r := 0 to |list|
        invariant Accumulated(t, lists[..n], list[..r], k)
      {
        AddAccumulates(t, lists[..n], list[..r], list[r], k);
        assert list[..r + 1] == list[..r] + [list[r]];
        t := Add(t, list[r], k, r + 1);
      }
      assert list[..|list|] == list;
      NextList(t, lists, n, k);
    }
    assert lists[..|lists|] == lists;
    fused := Ranking(t, lists, k);
  }

  /** The items by descending score. */
  method Ranking(t: Table, ghost lists: seq<seq<Item>>, ghost k: nat) returns (fused: seq<Fused>)
    requires Accumulated(t, lists, [], k)
    ensures IsFusion(lists, k, fused)
  {
    var ids := SortIds(t.order, t.scores);
    KeysKnown(t, lists, k);
    fused := [];
    for i := 0 to |ids|
      invariant |fused| == i
      invariant forall j :: 0 <= j < i ==> fused[j] == Fused(t.items[ids[j]], t.scores[ids[j]])
    {
      fused := fused + [Fused(t.items[ids[i]], t.scores[ids[i]])];
    }
    SortedTableIsFusion(t, lists, k, fused);
  }

  lemma {:induction false} KeysKnown(t: Table, lists: seq<seq<Item>>, k: nat)
    requires Accumulated(t, lists, [], k)
    ensures forall id :: id in SortIds(t.order, t.scores) ==> id in t.items && id in t.scores
  {
    assert Flat(lists) + [] == Flat(lists);
    FirstSeenMeaning(Flat(lists));
    SortRanks(t.order, t.scores);
  }
}
