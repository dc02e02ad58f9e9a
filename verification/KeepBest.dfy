/** Keeping, for every key, the first item of the highest rank. */
module KeepBest {
  import opened Wrappers

  // The keys in the order in which they are first met.
  function Keys<T, K(==)>(xs: seq<T>, key: T -> K): seq<K> {
    if xs == [] then []
    else
      var init, k := Keys(xs[..|xs| - 1], key), key(xs[|xs| - 1]);
      if k in init then init else init + [k]
  }

  function Better<T>(a: Option<T>, b: Option<T>, rank: T -> real): Option<T> {
    if b.None? || (a.Some? && rank(b.value) <= rank(a.value)) then a else b
  }

  // The first item with the key that no other one with the key outranks.
  function Best<T, K(==)>(xs: seq<T>, key: T -> K, rank: T -> real, k: K): Option<T> {
    if xs == [] then None
    else
      var last := xs[|xs| - 1];
      Better(Best(xs[..|xs| - 1], key, rank, k), if key(last) == k then Some(last) else None, rank)
  }

  lemma {:induction false} BestIs<T, K>(xs: seq<T>, key: T -> K, rank: T -> real, k: K)
    ensures Best(xs, key, rank, k).Some? <==> k in Keys(xs, key)
    ensures Best(xs, key, rank, k).None? ==> forall i :: 0 <= i < |xs| ==> key(xs[i]) != k
    ensures Best(xs, key, rank, k).Some? ==> exists i :: 0 <= i < |xs| && IsFirstBest(xs, key, rank, k, i) && xs[i] == Best(xs, key, rank, k).value
  {
    if xs != [] {
      var init := xs[..|xs| - 1];
      BestIs(init, key, rank, k);
      assert forall i :: 0 <= i < |init| ==> init[i] == xs[i];
      var before := Best(init, key, rank, k);
      if before.Some? {
        var i :| 0 <= i < |init| && IsFirstBest(init, key, rank, k, i) && init[i] == before.value;
        if key(xs[|xs| - 1]) == k && rank(xs[|xs| - 1]) > rank(before.value) {
          assert IsFirstBest(xs, key, rank, k, |xs| - 1);
        } else {
          assert IsFirstBest(xs, key, rank, k, i);
        }
      } else if Best(xs, key, rank, k).Some? {
        assert IsFirstBest(xs, key, rank, k, |xs| - 1);
      }
    }
  }

  // Position `i` has the key, outranks all earlier positions with it and is outranked by none.
  ghost predicate IsFirstBest<T, K>(xs: seq<T>, key: T -> K, rank: T -> real, k: K, i: nat)
    requires i < |xs|
  {
    && key(xs[i]) == k
    && (forall j :: 0 <= j < i && key(xs[j]) == k ==> rank(xs[j]) < rank(xs[i]))
    && (forall j :: i < j < |xs| && key(xs[j]) == k ==> rank(xs[j]) <= rank(xs[i]))
  }

  function Picked<T, K(==)>(ks: seq<K>, xs: seq<T>, key: T -> K, rank: T -> real): seq<T>
    requires forall k :: k in ks ==> Best(xs, key, rank, k).Some?
  {
    if ks == [] then []
    else
      assert ks[|ks| - 1] in ks && forall k :: k in ks[..|ks| - 1] ==> k in ks;
      Picked(ks[..|ks| - 1], xs, key, rank) + [Best(xs, key, rank, ks[|ks| - 1]).value]
  }

  // One item a key, keys in the order first met.
  function Dedupe<T(!new), K(==,!new)>(xs: seq<T>, key: T -> K, rank: T -> real): seq<T> {
    assert forall k :: k in Keys(xs, key) ==> Best(xs, key, rank, k).Some? by {
      forall k ensures k in Keys(xs, key) ==> Best(xs, key, rank, k).Some? { BestIs(xs, key, rank, k); }
    }
    Picked(Keys(xs, key), xs, key, rank)
  }

  // The dictionary pass: a later item replaces the one kept only if it ranks higher.
  method DedupeKeepBest<T(!new), K(==,!new)>(xs: seq<T>, key: T -> K, rank: T -> real) returns (out: seq<T>)
    ensures out == Dedupe(xs, key, rank)
  {
    var order: seq<K> := [];
    var best: map<K, T> := map[];
    for i := 0 to |xs|
      invariant order == Keys(xs[..i], key)
      invariant forall k :: Best(xs[..i], key, rank, k) == if k in best then Some(best[k]) else None
    {
      assert xs[..i + 1][..i] == xs[..i];
      var k := key(xs[i]);
      assert k in order <==> k in best by { BestIs(xs[..i], key, rank, k); }
      if k !in best { order := order + [k]; }
      if k !in best || rank(xs[i]) > rank(best[k]) { best := best[k := xs[i]]; }
    }
    assert xs[..|xs|] == xs;
    out := [];
    assert forall k :: k in order ==> Best(xs, key, rank, k).Some? by {
      forall k ensures k in order ==> Best(xs, key, rank, k).Some? { BestIs(xs, key, rank, k); }
    }
    for i := 0 to |order|
      invariant (forall k :: k in order[..i] ==> Best(xs, key, rank, k).Some?) && out == Picked(order[..i], xs, key, rank)
    {
      assert order[i] in order && order[..i + 1][..i] == order[..i];
      out := out + [best[order[i]]];
    }
    assert order[..|order|] == order;
  }

  // ---------------------------------------------------------------- deduping in two parts

  lemma BetterAssociates<T>(a: Option<T>, b: Option<T>, c: Option<T>, rank: T -> real)
    ensures Better(Better(a, b, rank), c, rank) == Better(a, Better(b, c, rank), rank)
  {
  }

  lemma {:induction false} BestOfConcat<T, K>(xs: seq<T>, ys: seq<T>, key: T -> K, rank: T -> real, k: K)
    ensures Best(xs + ys, key, rank, k) == Better(Best(xs, key, rank, k), Best(ys, key, rank, k), rank)
  {
    if ys == [] {
      assert xs + ys == xs;
    } else {
      var init, last := ys[..|ys| - 1], ys[|ys| - 1];
      assert (xs + ys)[..|xs + ys| - 1] == xs + init;
      BestOfConcat(xs, init, key, rank, k);
      BetterAssociates(Best(xs, key, rank, k), Best(init, key, rank, k), if key(last) == k then Some(last) else None, rank);
    }
  }

  function Fresh<K(==)>(ks: seq<K>, seen: seq<K>): seq<K> {
    if ks == [] then []
    else Fresh(ks[..|ks| - 1], seen) + if ks[|ks| - 1] in seen then [] else [ks[|ks| - 1]]
  }

  lemma {:induction false} FreshElements<K>(ks: seq<K>, seen: seq<K>)
    ensures forall k :: k in Fresh(ks, seen) <==> k in ks && k !in seen
  {
    if ks != [] {
      FreshElements(ks[..|ks| - 1], seen);
      assert ks == ks[..|ks| - 1] + [ks[|ks| - 1]];
    }
  }

  lemma {:induction false} KeysOfConcat<T, K>(xs: seq<T>, ys: seq<T>, key: T -> K)
    ensures Keys(xs + ys, key) == Keys(xs, key) + Fresh(Keys(ys, key), Keys(xs, key))
  {
    if ys == [] {
      assert xs + ys == xs;
    } else {
      var init, k := ys[..|ys| - 1], key(ys[|ys| - 1]);
      assert (xs + ys)[..|xs + ys| - 1] == xs + init;
      KeysOfConcat(xs, init, key);
      FreshElements(Keys(init, key), Keys(xs, key));
      var a, b := Keys(xs, key), Keys(init, key);
      var f := Fresh(b, a);
      if k !in b {
        assert (b + [k])[..|b|] == b;
        assert Fresh(b + [k], a) == f + if k in a then [] else [k];
        assert f + [] == f && a + (f + [k]) == (a + f) + [k];
      }
    }
  }

  ghost predicate Distinct<K>(ks: seq<K>) {
    forall i, j :: 0 <= i < j < |ks| ==> ks[i] != ks[j]
  }

  lemma {:induction false} KeysDistinct<T, K>(xs: seq<T>, key: T -> K)
    ensures Distinct(Keys(xs, key))
  {
    if xs != [] { KeysDistinct(xs[..|xs| - 1], key); }
  }

  // A sequence with one item for each of the keys `ks`.
  ghost predicate Carries<T, K>(zs: seq<T>, ks: seq<K>, key: T -> K) {
    |zs| == |ks| && forall i :: 0 <= i < |zs| ==> key(zs[i]) == ks[i]
  }

  lemma {:induction false} KeysOfCarrier<T, K>(zs: seq<T>, ks: seq<K>, key: T -> K)
    requires Carries(zs, ks, key) && Distinct(ks)
    ensures Keys(zs, key) == ks
  {
    if zs != [] {
      KeysOfCarrier(zs[..|zs| - 1], ks[..|ks| - 1], key);
      assert ks == ks[..|ks| - 1] + [ks[|ks| - 1]];
    }
  }

  lemma {:induction false} PickedCarries<T, K>(ks: seq<K>, xs: seq<T>, key: T -> K, rank: T -> real)
    requires forall k :: k in ks ==> Best(xs, key, rank, k).Some?
    ensures Carries(Picked(ks, xs, key, rank), ks, key)
    ensures forall i :: 0 <= i < |ks| ==> Some(Picked(ks, xs, key, rank)[i]) == Best(xs, key, rank, ks[i])
  {
    if ks != [] {
      var init, k := ks[..|ks| - 1], ks[|ks| - 1];
      assert k in ks && forall k' :: k' in init ==> k' in ks;
      PickedCarries(init, xs, key, rank);
      BestIs(xs, key, rank, k);
    }
  }

  lemma {:induction false} BestOfCarrier<T, K>(zs: seq<T>, ks: seq<K>, key: T -> K, rank: T -> real, k: K)
    requires Carries(zs, ks, key) && Distinct(ks)
    ensures k !in ks ==> Best(zs, key, rank, k) == None
    ensures forall i :: 0 <= i < |ks| && ks[i] == k ==> Best(zs, key, rank, k) == Some(zs[i])
  {
    if zs != [] {
      var init := ks[..|ks| - 1];
      BestOfCarrier(zs[..|zs| - 1], init, key, rank, k);
      assert forall i :: 0 <= i < |init| ==> init[i] == ks[i];
      if ks[|ks| - 1] == k { assert k !in init; }
    }
  }

  lemma DedupeKeeps<T(!new), K(!new)>(xs: seq<T>, key: T -> K, rank: T -> real)
    ensures Keys(Dedupe(xs, key, rank), key) == Keys(xs, key)
    ensures forall k :: Best(Dedupe(xs, key, rank), key, rank, k) == Best(xs, key, rank, k)
  {
    var ks := Keys(xs, key);
    forall k ensures k in ks <==> Best(xs, key, rank, k).Some? { BestIs(xs, key, rank, k); }
    KeysDistinct(xs, key);
    PickedCarries(ks, xs, key, rank);
    var zs := Picked(ks, xs, key, rank);
    KeysOfCarrier(zs, ks, key);
    forall k ensures Best(zs, key, rank, k) == Best(xs, key, rank, k) {
      BestOfCarrier(zs, ks, key, rank, k);
      if k in ks { var i :| 0 <= i < |ks| && ks[i] == k; }
    }
  }

  lemma {:induction false} SamePicks<T, K>(ks: seq<K>, xs: seq<T>, ys: seq<T>, key: T -> K, rank: T -> real)
    requires forall k :: k in ks ==> Best(xs, key, rank, k).Some? && Best(ys, key, rank, k) == Best(xs, key, rank, k)
    ensures Picked(ks, xs, key, rank) == Picked(ks, ys, key, rank)
  {
    if ks != [] {
      assert ks[|ks| - 1] in ks && forall k :: k in ks[..|ks| - 1] ==> k in ks;
      SamePicks(ks[..|ks| - 1], xs, ys, key, rank);
    }
  }

  /** Deduping two parts on their own and then together gives what deduping the whole gives. */
  lemma DedupeInParts<T(!new), K(!new)>(xs: seq<T>, ys: seq<T>, key: T -> K, rank: T -> real)
    ensures Dedupe(xs + ys, key, rank) == Dedupe(Dedupe(xs, key, rank) + Dedupe(ys, key, rank), key, rank)
  {
    var us, vs := Dedupe(xs, key, rank), Dedupe(ys, key, rank);
    DedupeKeeps(xs, key, rank);
    DedupeKeeps(ys, key, rank);
    KeysOfConcat(xs, ys, key);
    KeysOfConcat(us, vs, key);
    forall k
      ensures Best(us + vs, key, rank, k) == Best(xs + ys, key, rank, k)
      ensures k in Keys(xs + ys, key) ==> Best(xs + ys, key, rank, k).Some?
    {
      BestOfConcat(xs, ys, key, rank, k);
      BestOfConcat(us, vs, key, rank, k);
      BestIs(xs + ys, key, rank, k);
    }
    SamePicks(Keys(xs + ys, key), xs + ys, us + vs, key, rank);
  }

  /** The result has each key once, in the order first met, with the first item of the highest rank. */
  lemma DedupeIs<T(!new), K(!new)>(xs: seq<T>, key: T -> K, rank: T -> real, i: nat)
    requires i < |Dedupe(xs, key, rank)|
    ensures var out := Dedupe(xs, key, rank);
      && |out| == |Keys(xs, key)| && key(out[i]) == Keys(xs, key)[i] && Distinct(Keys(xs, key))
      && exists j :: 0 <= j < |xs| && xs[j] == out[i] && IsFirstBest(xs, key, rank, key(out[i]), j)
  {
    var ks := Keys(xs, key);
    forall k ensures k in ks <==> Best(xs, key, rank, k).Some? { BestIs(xs, key, rank, k); }
    KeysDistinct(xs, key);
    PickedCarries(ks, xs, key, rank);
    BestIs(xs, key, rank, ks[i]);
  }
}
