/** Dictionaries given as their entries, in order: a later entry of a key replaces an earlier one. */
module Dicts {

  function ToMap<K, V>(entries: seq<(K, V)>): map<K, V> {
    if entries == [] then map[]
    else ToMap(entries[..|entries| - 1])[entries[|entries| - 1].0 := entries[|entries| - 1].1]
  }

  ghost predicate IsDict<K, V>(entries: seq<(K, V)>) {
    forall i, j :: 0 <= i < j < |entries| ==> entries[i].0 != entries[j].0
  }

  lemma {:induction false} ToMapOfDict<K, V>(entries: seq<(K, V)>)
    requires IsDict(entries)
    ensures forall i :: 0 <= i < |entries| ==> entries[i].0 in ToMap(entries) && ToMap(entries)[entries[i].0] == entries[i].1
    ensures forall k :: k in ToMap(entries) ==> exists i :: 0 <= i < |entries| && entries[i].0 == k
  {
    if entries != [] {
      var init := entries[..|entries| - 1];
      assert forall i :: 0 <= i < |init| ==> init[i] == entries[i];
      ToMapOfDict(init);
    }
  }
}
