/** Selections by position: which entries of a list were picked, and what was added to a list or a table for them. */
module Selecting {

  /** The list with one more item, or as it was. */
  function Listed<T>(items: seq<T>, item: T, listed: bool): seq<T> { if listed then items + [item] else items }

  /** `ks` lists in order the positions below `n` that are marked. */
  ghost predicate Picks(ks: seq<nat>, marked: seq<bool>, n: nat)
    requires n <= |marked|
  {
    && (forall i, j :: 0 <= i < j < |ks| ==> ks[i] < ks[j])
    && (forall i :: 0 <= i < |ks| ==> ks[i] < n && marked[ks[i]])
    && (forall k :: 0 <= k < n && marked[k] ==> k in ks)
  }

  function PickNext(ks: seq<nat>, n: nat, picked: bool): seq<nat> { if picked then ks + [n] else ks }

  lemma PicksNext(ks: seq<nat>, marked: seq<bool>, n: nat)
    requires n < |marked| && Picks(ks, marked, n)
    ensures Picks(PickNext(ks, n, marked[n]), marked, n + 1)
  {
    assert marked[n] ==> (ks + [n])[|ks|] == n;
    assert forall k :: k in ks ==> k in ks + [n];
  }

  /** The items listed are those at the picked positions, in their order. */
  ghost predicate Lists<T>(listed: seq<T>, ks: seq<nat>, items: seq<T>) {
    |listed| == |ks| && forall i :: 0 <= i < |ks| ==> ks[i] < |items| && listed[i] == items[ks[i]]
  }

  /** A list that grows by an item exactly at the marked positions. */
  lemma {:induction false} ListsAll<T>(stages: seq<seq<T>>, items: seq<T>, marked: seq<bool>, n: nat) returns (ks: seq<nat>)
    requires n < |stages| && n <= |items| == |marked| && stages[0] == []
    requires forall i :: 0 <= i < n ==> stages[i + 1] == Listed(stages[i], items[i], marked[i])
    ensures Picks(ks, marked, n) && Lists(stages[n], ks, items)
    decreases n
  {
    ks := [];
    if n > 0 {
      ks := ListsAll(stages, items, marked, n - 1);
      PicksNext(ks, marked, n - 1);
      ks := PickNext(ks, n - 1, marked[n - 1]);
    }
  }

  lemma ListedIffMarked<T>(ks: seq<nat>, marked: seq<bool>, n: nat, k: nat, listed: seq<T>, items: seq<T>)
    requires k < n <= |marked| == |items| && Picks(ks, marked, n) && Lists(listed, ks, items)
    requires forall i, j :: 0 <= i < j < |items| ==> items[i] != items[j]
    ensures items[k] in listed <==> marked[k]
  {
    if marked[k] {
      var i :| 0 <= i < |ks| && ks[i] == k;
      assert listed[i] == items[k];
    }
    if items[k] in listed {
      var i :| 0 <= i < |listed| && listed[i] == items[k];
      assert ks[i] == k;
    }
  }

  lemma {:induction false} CountsAll(counts: seq<nat>, marked: seq<bool>, n: nat) returns (ks: seq<nat>)
    requires n < |counts| && n <= |marked| && counts[0] == 0
    requires forall i :: 0 <= i < n ==> counts[i + 1] == counts[i] + if marked[i] then 1 else 0
    ensures Picks(ks, marked, n) && |ks| == counts[n]
    decreases n
  {
    ks := [];
    if n > 0 {
      ks := CountsAll(counts, marked, n - 1);
      PicksNext(ks, marked, n - 1);
      ks := PickNext(ks, n - 1, marked[n - 1]);
    }
  }

  // ---------- tables ----------

  /** The table with a row under `key` put in, or as it was. */
  ghost predicate Gains<K, V>(before: map<K, V>, after: map<K, V>, key: K, gained: bool) {
    if gained then key in after && after == before[key := after[key]] else after == before
  }

  /** A table that gains rows, one key after the other, exactly at the marked positions. */
  ghost predicate GainsAll<K, V>(stages: seq<map<K, V>>, keys: seq<K>, marked: seq<bool>) {
    |stages| == |keys| + 1 && |keys| == |marked| &&
    forall i :: 0 <= i < |keys| ==> Gains(stages[i], stages[i + 1], keys[i], marked[i])
  }

  lemma {:induction false} KeepsOthers<K, V>(stages: seq<map<K, V>>, keys: seq<K>, marked: seq<bool>, from: nat, n: nat, key: K)
    requires GainsAll(stages, keys, marked) && from <= n <= |keys| && forall i :: from <= i < n ==> keys[i] != key
    ensures key in stages[n] <==> key in stages[from]
    ensures key in stages[n] ==> stages[n][key] == stages[from][key]
    decreases n
  {
    if from < n {
      KeepsOthers(stages, keys, marked, from, n - 1, key);
      assert Gains(stages[n - 1], stages[n - 1 + 1], keys[n - 1], marked[n - 1]);
    }
  }

  /** A new key is in the table exactly when its position is marked, with the row it then got. */
  lemma GainedIffMarked<K, V>(stages: seq<map<K, V>>, keys: seq<K>, marked: seq<bool>, n: nat, k: nat)
    requires GainsAll(stages, keys, marked) && k < n <= |keys| && keys[k] !in stages[0]
    requires forall i, j :: 0 <= i < j < |keys| ==> keys[i] != keys[j]
    ensures keys[k] in stages[n] <==> marked[k]
    ensures marked[k] ==> keys[k] in stages[k + 1] && stages[n][keys[k]] == stages[k + 1][keys[k]]
  {
    KeepsOthers(stages, keys, marked, 0, k, keys[k]);
    assert Gains(stages[k], stages[k + 1], keys[k], marked[k]);
    KeepsOthers(stages, keys, marked, k + 1, n, keys[k]);
  }

  /** Every row gained was gained at one of the positions. */
  lemma GainedSomewhere<K, V>(stages: seq<map<K, V>>, keys: seq<K>, marked: seq<bool>, n: nat, key: K) returns (k: nat)
    requires GainsAll(stages, keys, marked) && n <= |keys| && key !in stages[0] && key in stages[n]
    ensures k < n && keys[k] == key
  {
    if forall i :: 0 <= i < n ==> keys[i] != key {
      KeepsOthers(stages, keys, marked, 0, n, key);
      assert false;
    } else {
      k :| 0 <= k < n && keys[k] == key;
    }
  }
}
