/** The two wrappers every component shares. */
module Basics {

  datatype Option<+T> = None | Some(value: T)

  datatype Result<+T, +E> = Ok(value: T) | Err(error: E)

  lemma {:induction false} AppendAssoc<T>(a: seq<T>, b: seq<T>, c: seq<T>)
    ensures a + (b + c) == (a + b) + c
  {
  }

  lemma {:induction false} UnionAssoc<T>(a: set<T>, b: set<T>, c: set<T>)
    ensures a + (b + c) == (a + b) + c
  {
  }

  lemma {:induction false} MergePut<K, V>(m: map<K, V>, n: map<K, V>, k: K, v: V)
    ensures m + n[k := v] == (m + n)[k := v]
  {
  }

  /** An element of `here` keeps its place in everything that continues `before + here`. */
  lemma {:induction false} PlaceIn<T>(before: seq<T>, here: seq<T>, all: seq<T>, j: nat)
    requires before + here <= all && j < |here|
    ensures |before| + j < |all| && all[|before| + j] == here[j]
  {
    assert (before + here)[|before| + j] == here[j];
  }
}
