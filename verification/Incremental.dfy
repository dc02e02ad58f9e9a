/** Incremental runs of the ontology pipeline against full ones.

    A run visits the tables of a source. A visit whose table has the hash recorded for it is
    skipped; every other one builds the model, writes it to the sink and records the hash. Only
    the deterministic model is followed here, with no language model in play. */
module Incremental {
  import opened Wrappers
  import opened Mdl

  datatype Key = Key(schema: string, table: string)

  // The recorded hashes and the sink's models of one source.
  datatype Store = Store(state: map<Key, Hash>, sink: map<Key, Model>)

  // How the processing of a table goes: through; an exception before anything is written; or
  // the model written and the hash not recorded, by an exception after the early write that
  // precedes profiling, by one after the final write, or by a crash before the state is flushed.
  datatype Fate = Clean | FailsBeforeWriting | WritesUnrecorded

  datatype Visit = Visit(catalog: Option<string>, table: TableInfo, fate: Fate)

  const Empty := Store(map[], map[])

  function KeyOfTable(t: TableInfo): Key {
    Key(t.schema, t.name)
  }

  predicate Skips(s: Store, t: TableInfo, reEnrich: bool) {
    KeyOfTable(t) in s.state && s.state[KeyOfTable(t)] == ContentHash(t) && !reEnrich
  }

  // `_process_table`.
  function Process(sourceId: string, s: Store, v: Visit, reEnrich: bool): Store {
    var k := KeyOfTable(v.table);
    if Skips(s, v.table, reEnrich) then s.(state := s.state[k := ContentHash(v.table)])
    else match v.fate
      case Clean => Store(s.state[k := ContentHash(v.table)], s.sink[k := Build(sourceId, v.catalog, v.table)])
      case FailsBeforeWriting => s
      case WritesUnrecorded => s.(sink := s.sink[k := Build(sourceId, v.catalog, v.table)])
  }

  function ProcessAll(sourceId: string, s: Store, vs: seq<Visit>, reEnrich: bool): Store {
    if vs == [] then s
    else Process(sourceId, ProcessAll(sourceId, s, vs[..|vs| - 1], reEnrich), vs[|vs| - 1], reEnrich)
  }

  // ---------------------------------------------------------------- what a history says of a key

  predicate Completes(v: Visit, k: Key) {
    KeyOfTable(v.table) == k && v.fate.Clean?
  }

  // The last completed visit of the key.
  function Latest(vs: seq<Visit>, k: Key): Option<Visit> {
    if vs == [] then None
    else if Completes(vs[|vs| - 1], k) then Some(vs[|vs| - 1])
    else Latest(vs[..|vs| - 1], k)
  }

  // The hash on record for the key: that of its last completed visit.
  function Recorded(vs: seq<Visit>, k: Key): Option<Hash> {
    if Latest(vs, k).None? then None else Some(ContentHash(Latest(vs, k).value.table))
  }

  predicate Writes(v: Visit, k: Key) {
    KeyOfTable(v.table) == k && !v.fate.FailsBeforeWriting?
  }

  // The last visit of the key that gets as far as writing: what a full run shows.
  function LastWrite(vs: seq<Visit>, k: Key): Option<Visit> {
    if vs == [] then None
    else if Writes(vs[|vs| - 1], k) then Some(vs[|vs| - 1])
    else LastWrite(vs[..|vs| - 1], k)
  }

  // The last of them that is not skipped: what an incremental run shows.
  function LastKept(vs: seq<Visit>, k: Key): Option<Visit> {
    if vs == [] then None
    else
      var init, v := vs[..|vs| - 1], vs[|vs| - 1];
      if Writes(v, k) && Recorded(init, k) != Some(ContentHash(v.table)) then Some(v) else LastKept(init, k)
  }

  // The last visit that gets as far as writing is one that incremental runs skip.
  predicate LastWriteSkipped(vs: seq<Visit>, k: Key) {
    if vs == [] then false
    else
      var init, v := vs[..|vs| - 1], vs[|vs| - 1];
      if Writes(v, k) then Recorded(init, k) == Some(ContentHash(v.table)) else LastWriteSkipped(init, k)
  }

  // A key of a store: the hash on record for it and its model.
  function HashAt(s: Store, k: Key): Option<Hash> {
    if k in s.state then Some(s.state[k]) else None
  }

  function ModelAt(s: Store, k: Key): Option<Model> {
    if k in s.sink then Some(s.sink[k]) else None
  }

  function ModelOf(sourceId: string, v: Option<Visit>): Option<Model> {
    if v.None? then None else Some(Build(sourceId, v.value.catalog, v.value.table))
  }

  lemma OneVisit(sourceId: string, s: Store, v: Visit, reEnrich: bool, k: Key)
    ensures var t := Process(sourceId, s, v, reEnrich);
      && HashAt(t, k) == (if Completes(v, k) then Some(ContentHash(v.table)) else HashAt(s, k))
      && ModelAt(t, k) ==
        (if Writes(v, k) && (reEnrich || HashAt(s, k) != Some(ContentHash(v.table))) then ModelOf(sourceId, Some(v)) else ModelAt(s, k))
  {
    hide Build, ContentHash;
  }

  ghost predicate Tracks(sourceId: string, vs: seq<Visit>, k: Key) {
    var inc, full := ProcessAll(sourceId, Empty, vs, false), ProcessAll(sourceId, Empty, vs, true);
    && HashAt(inc, k) == HashAt(full, k) == Recorded(vs, k)
    && ModelAt(full, k) == ModelOf(sourceId, LastWrite(vs, k))
    && ModelAt(inc, k) == ModelOf(sourceId, LastKept(vs, k))
  }

  /** What both kinds of runs hold of a table after any visits, completed or not: the hash of the last
      completed visit; the model of the last writing visit in full runs, and of the last such visit
      that was not skipped in incremental ones. */
  lemma {:induction false} EveryKeyTracks(sourceId: string, vs: seq<Visit>, k: Key)
    ensures Tracks(sourceId, vs, k)
  {
    if vs != [] {
      hide Build, ContentHash, Process, HashAt, ModelAt, Completes, Writes;
      var init, v := vs[..|vs| - 1], vs[|vs| - 1];
      EveryKeyTracks(sourceId, init, k);
      OneVisit(sourceId, ProcessAll(sourceId, Empty, init, false), v, false, k);
      OneVisit(sourceId, ProcessAll(sourceId, Empty, init, true), v, true, k);
      RecordedOneMore(init, v, k);
    } else {
      assert ProcessAll(sourceId, Empty, vs, false) == Empty == ProcessAll(sourceId, Empty, vs, true);
    }
  }

  lemma RecordedOneMore(vs: seq<Visit>, v: Visit, k: Key)
    ensures Recorded(vs + [v], k) == if Completes(v, k) then Some(ContentHash(v.table)) else Recorded(vs, k)
  {
    hide ContentHash;
    assert (vs + [v])[..|vs|] == vs;
  }

  // The two visits: one is there if the other is, and they differ only if the last was skipped.
  lemma {:induction false} KeptAndWritten(vs: seq<Visit>, k: Key)
    ensures Recorded(vs, k).Some? ==> LastKept(vs, k).Some?
    ensures LastKept(vs, k).Some? <==> LastWrite(vs, k).Some?
    ensures !LastWriteSkipped(vs, k) ==> LastKept(vs, k) == LastWrite(vs, k)
  {
    if vs != [] {
      hide ContentHash;
      KeptAndWritten(vs[..|vs| - 1], k);
    }
  }

  /** Incremental against full, over any visits whatever becomes of them: the same hashes are on
      record, the same tables are in the sink, and a table's model is stale if and only if its last
      writing visit was skipped and the last one that was not had other content or another catalog. */
  lemma StaleIff(sourceId: string, vs: seq<Visit>, k: Key)
    ensures var inc, full := ProcessAll(sourceId, Empty, vs, false), ProcessAll(sourceId, Empty, vs, true);
      && inc.sink.Keys == full.sink.Keys && inc.state == full.state
      && (k in full.sink ==>
            var write, kept := LastWrite(vs, k), LastKept(vs, k);
            && write.Some? && kept.Some?
            && (!SameModel(inc.sink[k], full.sink[k]) <==>
                LastWriteSkipped(vs, k) &&
                (kept.value.catalog != write.value.catalog || !SameContent(kept.value.table, write.value.table))))
  {
    hide ProcessAll, SameModel, Build, ContentHash, LastWrite, LastKept, LastWriteSkipped, Recorded, Map, ColumnBuilder;
    var inc, full := ProcessAll(sourceId, Empty, vs, false), ProcessAll(sourceId, Empty, vs, true);
    forall k' ensures (k' in inc.sink <==> k' in full.sink) && (k' in inc.state <==> k' in full.state)
      && (k' in inc.state ==> inc.state[k'] == full.state[k'])
    {
      EveryKeyTracks(sourceId, vs, k');
      KeptAndWritten(vs, k');
    }
    EveryKeyTracks(sourceId, vs, k);
    KeptAndWritten(vs, k);
    if k in full.sink {
      var kept, write := LastKept(vs, k).value, LastWrite(vs, k).value;
      SameModelIff(sourceId, kept.catalog, kept.table, write.catalog, write.table);
    }
  }

  // No visit writes a model without recording its hash.
  predicate NoStrayWrites(vs: seq<Visit>) {
    forall i :: 0 <= i < |vs| ==> !vs[i].fate.WritesUnrecorded?
  }

  // Without stray writes the last visit kept has the content on record.
  lemma {:induction false} KeptIsRecorded(vs: seq<Visit>, k: Key)
    requires NoStrayWrites(vs)
    ensures LastWrite(vs, k) == Latest(vs, k) && (LastKept(vs, k).Some? <==> Latest(vs, k).Some?)
    ensures Latest(vs, k).Some? ==> ContentHash(LastKept(vs, k).value.table) == ContentHash(Latest(vs, k).value.table)
  {
    if vs != [] {
      hide ContentHash;
      KeptIsRecorded(vs[..|vs| - 1], k);
    }
  }

  /** Without stray writes, skipping what is unchanged leaves every table the model that full runs
      leave, up to the order of the columns, if and only if the catalog has not changed since the
      table's content last did. */
  lemma IncrementalEqualsFullIffCatalogKept(sourceId: string, vs: seq<Visit>, k: Key)
    requires NoStrayWrites(vs)
    ensures var inc, full := ProcessAll(sourceId, Empty, vs, false), ProcessAll(sourceId, Empty, vs, true);
      && inc.sink.Keys == full.sink.Keys && inc.state == full.state
      && (k in full.sink ==>
            && LastKept(vs, k).Some? && Latest(vs, k).Some?
            && (SameModel(inc.sink[k], full.sink[k]) <==> LastKept(vs, k).value.catalog == Latest(vs, k).value.catalog))
  {
    hide ProcessAll, SameModel, SameContent, Build, ContentHash, LastWrite, LastKept, LastWriteSkipped, Recorded, Latest;
    StaleIff(sourceId, vs, k);
    KeptIsRecorded(vs, k);
    KeptAndWritten(vs, k);
    if k in ProcessAll(sourceId, Empty, vs, true).sink {
      HashDeterminesContent(LastKept(vs, k).value.table, Latest(vs, k).value.table);
    }
  }

  lemma {:induction false} FromTheHistory(vs: seq<Visit>, k: Key)
    ensures Latest(vs, k).Some? ==> Latest(vs, k).value in vs
    ensures LastKept(vs, k).Some? ==> LastKept(vs, k).value in vs
  {
    if vs != [] {
      hide ContentHash;
      FromTheHistory(vs[..|vs| - 1], k);
    }
  }

  /** With one catalog throughout, which is what one database gives, skipping is invisible. */
  lemma OneCatalogIncrementalEqualsFull(sourceId: string, vs: seq<Visit>, catalog: Option<string>)
    requires NoStrayWrites(vs) && forall v :: v in vs ==> v.catalog == catalog
    ensures var inc, full := ProcessAll(sourceId, Empty, vs, false), ProcessAll(sourceId, Empty, vs, true);
      && inc.state == full.state && inc.sink.Keys == full.sink.Keys
      && forall k :: k in full.sink ==> SameModel(inc.sink[k], full.sink[k])
  {
    hide ProcessAll, SameModel, LastKept, Latest;
    var inc, full := ProcessAll(sourceId, Empty, vs, false), ProcessAll(sourceId, Empty, vs, true);
    IncrementalEqualsFullIffCatalogKept(sourceId, vs, Key("", ""));
    forall k | k in full.sink ensures SameModel(inc.sink[k], full.sink[k]) {
      IncrementalEqualsFullIffCatalogKept(sourceId, vs, k);
      FromTheHistory(vs, k);
    }
  }

  // ---------------------------------------------------------------- stray writes

  // The recorded hash is that of `a`, the sink holds the model of `b`.
  ghost predicate Stale(sourceId: string, s: Store, a: TableInfo, catalog: Option<string>, b: TableInfo) {
    var k := KeyOfTable(a);
    k in s.state && s.state[k] == ContentHash(a) && k in s.sink && s.sink[k] == Build(sourceId, catalog, b)
  }

  /** A run of visits that goes stale, whatever came before: if a visit of `a` completes, a changed
      version `b` is written unrecorded, and the source then returns to `a`, the skip leaves the
      model of `b`, where a full run would have put that of `a` back. */
  lemma StrayWriteGoesStale(sourceId: string, s: Store, catalog: Option<string>, a: TableInfo, b: TableInfo)
    requires KeyOfTable(a) == KeyOfTable(b) && ContentHash(a) != ContentHash(b)
    ensures var vs := [Visit(catalog, a, Clean), Visit(catalog, b, WritesUnrecorded), Visit(catalog, a, Clean)];
      && Stale(sourceId, ProcessAll(sourceId, s, vs, false), a, catalog, b)
      && ProcessAll(sourceId, s, vs, true).sink[KeyOfTable(a)] == Build(sourceId, catalog, a)
  {
    var v1, v2 := Visit(catalog, a, Clean), Visit(catalog, b, WritesUnrecorded);
    var vs := [v1, v2, v1];
    assert vs[..2] == [v1, v2] && [v1, v2][..1] == [v1] && [v1][..0] == [];
    forall reEnrich: bool
      ensures ProcessAll(sourceId, s, vs, reEnrich)
           == Process(sourceId, Process(sourceId, Process(sourceId, s, v1, reEnrich), v2, reEnrich), v1, reEnrich)
    {
      assert ProcessAll(sourceId, s, [v1], reEnrich) == Process(sourceId, ProcessAll(sourceId, s, [], reEnrich), v1, reEnrich);
      assert ProcessAll(sourceId, s, [v1, v2], reEnrich) == Process(sourceId, ProcessAll(sourceId, s, [v1], reEnrich), v2, reEnrich);
    }
  }

  // And it stays so for as long as the source keeps showing that content.
  lemma {:induction false} StaleWhileUnchanged(sourceId: string, s: Store, a: TableInfo, catalog: Option<string>, b: TableInfo, vs: seq<Visit>)
    requires Stale(sourceId, s, a, catalog, b)
    requires forall v :: v in vs && KeyOfTable(v.table) == KeyOfTable(a) ==> ContentHash(v.table) == ContentHash(a)
    ensures Stale(sourceId, ProcessAll(sourceId, s, vs, false), a, catalog, b)
    decreases |vs|
  {
    if vs != [] {
      hide Build, ContentHash, Process;
      assert vs[|vs| - 1] in vs;
      StaleWhileUnchanged(sourceId, s, a, catalog, b, vs[..|vs| - 1]);
      OneVisit(sourceId, ProcessAll(sourceId, s, vs[..|vs| - 1], false), vs[|vs| - 1], false, KeyOfTable(a));
    }
  }

  // ---------------------------------------------------------------- a crash before the flush

  predicate DistinctTables(vs: seq<Visit>) {
    forall i, j :: 0 <= i < j < |vs| ==> KeyOfTable(vs[i].table) != KeyOfTable(vs[j].table)
  }

  predicate NotVisited(vs: seq<Visit>, k: Key) {
    forall i :: 0 <= i < |vs| ==> KeyOfTable(vs[i].table) != k
  }

  function Unrecorded(vs: seq<Visit>): seq<Visit> {
    if vs == [] then []
    else Unrecorded(vs[..|vs| - 1]) +
         [vs[|vs| - 1].(fate := if vs[|vs| - 1].fate.FailsBeforeWriting? then FailsBeforeWriting else WritesUnrecorded)]
  }

  lemma LosingOneRecord(sourceId: string, s: Store, t: Store, v: Visit, reEnrich: bool)
    requires s.sink == t.sink
    requires HashAt(s, KeyOfTable(v.table)) == HashAt(t, KeyOfTable(v.table))
    ensures var fate := if v.fate.FailsBeforeWriting? then FailsBeforeWriting else WritesUnrecorded;
      Process(sourceId, s, v.(fate := fate), reEnrich) == Process(sourceId, t, v, reEnrich).(state := s.state)
  {
  }

  /** A run that dies before its state is flushed leaves what its writes leave when none of them is
      recorded: the old hashes beside the new models. */
  lemma {:induction false} CrashLosesTheRecords(sourceId: string, s: Store, vs: seq<Visit>, reEnrich: bool)
    requires DistinctTables(vs)
    ensures var done := ProcessAll(sourceId, s, vs, reEnrich);
      && ProcessAll(sourceId, s, Unrecorded(vs), reEnrich) == done.(state := s.state)
      && |Unrecorded(vs)| == |vs|
      && (forall k :: NotVisited(vs, k) ==> HashAt(done, k) == HashAt(s, k))
  {
    if vs != [] {
      hide Build, ContentHash, Process, HashAt;
      var init, v := vs[..|vs| - 1], vs[|vs| - 1];
      CrashLosesTheRecords(sourceId, s, init, reEnrich);
      assert Unrecorded(vs)[..|vs| - 1] == Unrecorded(init);
      assert NotVisited(init, KeyOfTable(v.table));
      forall k | NotVisited(vs, k) ensures NotVisited(init, k) && KeyOfTable(v.table) != k {
        assert forall i :: 0 <= i < |init| ==> init[i] == vs[i];
      }
      forall k { OneVisit(sourceId, ProcessAll(sourceId, s, init, reEnrich), v, reEnrich, k); }
      LosingOneRecord(sourceId, ProcessAll(sourceId, s, Unrecorded(init), reEnrich), ProcessAll(sourceId, s, init, reEnrich), v, reEnrich);
    }
  }

  // ---------------------------------------------------------------- one table at a time

  /** Processing a table leaves the record and the model of every other table as they were. */
  lemma OtherTablesUntouched(sourceId: string, s: Store, v: Visit, reEnrich: bool, other: TableInfo)
    requires other.schema != v.table.schema || other.name != v.table.name
    ensures var t := Process(sourceId, s, v, reEnrich);
      HashAt(t, KeyOfTable(other)) == HashAt(s, KeyOfTable(other)) && ModelAt(t, KeyOfTable(other)) == ModelAt(s, KeyOfTable(other))
  {
    hide Build, ContentHash;
  }
}
