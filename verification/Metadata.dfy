/** Metadata of a computed result, on its way across the boundary between two activities. */
module Metadata {
  import opened Wrappers
  import opened Dicts

  // A key is a text, or something else that `str` shows as one.
  datatype Key = Text(s: string) | Other(shown: string)

  // A plain value is one of JSON's own, without `item`; the `item` of a scalar gives a plain value; an
  // opaque value, such as a larger array or a date, has no `item` or one that raises.
  datatype Value = Plain(v: string) | Scalar(v: string) | Opaque(v: string)

  type Meta = seq<(Key, Value)>

  function Shown(k: Key): Key {
    if k.Text? then k else Text(k.shown)
  }

  function Coerced(v: Value): Value {
    if v.Scalar? then Plain(v.v) else v
  }

  // `_sanitize_metadata`.
  function Sanitized(meta: Meta): map<Key, Value> {
    if meta == [] then map[]
    else
      var (k, v) := meta[|meta| - 1];
      Sanitized(meta[..|meta| - 1])[Shown(k) := Coerced(v)]
  }

  method SanitizeMetadata(meta: Meta) returns (out: map<Key, Value>)
    ensures out == Sanitized(meta)
  {
    out := map[];
    for i := 0 to |meta|
      invariant out == Sanitized(meta[..i])
    {
      assert meta[..i + 1][..i] == meta[..i];
      var (k, v) := meta[i];
      var key := if k.Text? then k else Text(k.shown);
      if v.Scalar? {
        out := out[key := Plain(v.v)];
      } else {
        out := out[key := v];
      }
    }
    assert meta[..|meta|] == meta;
  }

  lemma {:induction false} SanitizedShape(meta: Meta)
    ensures forall k :: k in Sanitized(meta) ==> k.Text? && !Sanitized(meta)[k].Scalar?
    ensures (forall i :: 0 <= i < |meta| ==> meta[i].0.Text? && !meta[i].1.Scalar?) ==> Sanitized(meta) == ToMap(meta)
  {
    if meta != [] {
      var init := meta[..|meta| - 1];
      assert forall i :: 0 <= i < |init| ==> init[i] == meta[i];
      SanitizedShape(init);
    }
  }

  /** The coercion keeps a dictionary as it is if and only if its keys are texts and none of its
      values is a scalar of an array library. */
  lemma SanitizedIsSameIff(meta: Meta)
    requires IsDict(meta)
    ensures Sanitized(meta) == ToMap(meta) <==> forall i :: 0 <= i < |meta| ==> meta[i].0.Text? && !meta[i].1.Scalar?
  {
    SanitizedShape(meta);
    ToMapOfDict(meta);
  }

  // ---------------------------------------------------------------- as JSON

  // What JSON can make of every value: a plain one of an opaque one, if anything.
  predicate Sendable(jsonOf: string -> Option<string>, m: map<Key, Value>) {
    forall k :: k in m && m[k].Opaque? ==> jsonOf(m[k].v).Some?
  }

  function Arriving(jsonOf: string -> Option<string>, v: Value): Value {
    if v.Opaque? && jsonOf(v.v).Some? then Plain(jsonOf(v.v).value) else v
  }

  // The dictionary that persist gets for the one that compute answers with; none if the answer
  // cannot be written.
  function Sent(jsonOf: string -> Option<string>, m: map<Key, Value>): Option<map<Key, Value>> {
    if Sendable(jsonOf, m) then Some(map k | k in m :: Arriving(jsonOf, m[k])) else None
  }

  /** Metadata arrives as it was if and only if its keys are texts and all its values plain ones. */
  lemma ArrivesSameIff(jsonOf: string -> Option<string>, meta: Meta)
    requires IsDict(meta)
    ensures Sent(jsonOf, Sanitized(meta)) == Some(ToMap(meta)) <==>
      forall i :: 0 <= i < |meta| ==> meta[i].0.Text? && meta[i].1.Plain?
  {
    hide Sanitized, ToMap;
    SanitizedShape(meta);
    ToMapOfDict(meta);
    if Sent(jsonOf, Sanitized(meta)) == Some(ToMap(meta)) {
      var m := ToMap(meta);
      assert forall k :: k in m <==> k in Sanitized(meta);
      forall i | 0 <= i < |meta| ensures meta[i].0.Text? && meta[i].1.Plain? {
        assert m[meta[i].0] == Arriving(jsonOf, Sanitized(meta)[meta[i].0]);
      }
    }
    if forall i :: 0 <= i < |meta| ==> meta[i].0.Text? && meta[i].1.Plain? {
      assert Sanitized(meta) == ToMap(meta);
      forall k | k in ToMap(meta) ensures ToMap(meta)[k].Plain? {
        var i :| 0 <= i < |meta| && meta[i].0 == k;
      }
      assert Sent(jsonOf, Sanitized(meta)).value == ToMap(meta);
    }
  }

  // ---------------------------------------------------------------- what arrives

  // The text a key becomes.
  function TextOf(k: Key): string {
    match k
    case Text(s) => s
    case Other(shown) => shown
  }

  // Entry `i` is the last one whose key becomes that text.
  ghost predicate IsLastOf(meta: Meta, i: int, text: string) {
    && 0 <= i < |meta| && TextOf(meta[i].0) == text
    && forall j :: i < j < |meta| ==> TextOf(meta[j].0) != text
  }

  lemma {:induction false} SanitizedAt(meta: Meta, text: string, i: int)
    ensures forall k :: k in Sanitized(meta) ==> k.Text?
    ensures Text(text) in Sanitized(meta) <==> exists j :: IsLastOf(meta, j, text)
    ensures IsLastOf(meta, i, text) ==>
      && Text(text) in Sanitized(meta)
      && Sanitized(meta)[Text(text)] == if meta[i].1.Scalar? then Plain(meta[i].1.v) else meta[i].1
  {
    if meta != [] {
      var init, n := meta[..|meta| - 1], |meta| - 1;
      SanitizedAt(init, text, i);
      assert forall j :: 0 <= j < n ==> init[j] == meta[j];
      if TextOf(meta[n].0) == text {
        assert IsLastOf(meta, n, text);
      } else {
        assert forall j :: IsLastOf(meta, j, text) <==> IsLastOf(init, j, text);
      }
    }
  }

  /** What arrives of metadata: one entry for every text that a key becomes, with the value of the last
      such key: a plain value as it is, a scalar as the plain value it holds, and an opaque one as its
      JSON form, without which nothing arrives. */
  lemma MetadataArrives(jsonOf: string -> Option<string>, meta: Meta, text: string, i: int)
    ensures var sent := Sent(jsonOf, Sanitized(meta));
      && (IsLastOf(meta, i, text) && meta[i].1.Opaque? && jsonOf(meta[i].1.v).None? ==> sent.None?)
      && ((forall j :: 0 <= j < |meta| && meta[j].1.Opaque? ==> jsonOf(meta[j].1.v).Some?) ==> sent.Some?)
      && (sent.Some? ==>
            && (forall k :: k in sent.value ==> k.Text?)
            && (Text(text) in sent.value <==> exists j :: IsLastOf(meta, j, text))
            && (IsLastOf(meta, i, text) ==>
                  && Text(text) in sent.value
                  && (meta[i].1.Opaque? ==> jsonOf(meta[i].1.v).Some?)
                  && sent.value[Text(text)] == Plain(if meta[i].1.Opaque? then jsonOf(meta[i].1.v).value else meta[i].1.v)))
  {
    hide Sanitized;
    SanitizedAt(meta, text, i);
    var m := Sanitized(meta);
    if forall j :: 0 <= j < |meta| && meta[j].1.Opaque? ==> jsonOf(meta[j].1.v).Some? {
      forall k | k in m && m[k].Opaque? ensures jsonOf(m[k].v).Some? {
        SanitizedAt(meta, k.s, i);
        var j :| IsLastOf(meta, j, k.s);
        SanitizedAt(meta, k.s, j);
      }
    }
  }
}
