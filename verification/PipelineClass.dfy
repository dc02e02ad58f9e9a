/** The run state and the pipeline as the objects a run works on. */
module PipelineObject {
  import opened Wrappers
  import opened Mdl
  import opened Incremental

  // Nested dictionaries: source, then schema, then table.
  type Records = map<string, map<string, map<string, Hash>>>

  function Entry(records: Records, source: string, schema: string, table: string): Option<Hash> {
    if source in records && schema in records[source] && table in records[source][schema]
    then Some(records[source][schema][table]) else None
  }

  // A file that is there whole or not at all; what is written to its temporary is not read.
  class RunState {
    var sources: Records
    var disk: Option<Records>
    var tmp: Option<Records>

    function Find(source: string, schema: string, table: string): Option<Hash>
      reads this
    {
      Entry(sources, source, schema, table)
    }

    constructor ()
      ensures disk == None && forall s, c, t :: Find(s, c, t) == None
    {
      sources, disk, tmp := map[], None, None;
    }

    method Lookup(source: string, schema: string, table: string) returns (h: Option<Hash>)
      ensures h == Find(source, schema, table)
    {
      var perSource := if source in sources then sources[source] else map[];
      var perSchema := if schema in perSource then perSource[schema] else map[];
      h := if table in perSchema then Some(perSchema[table]) else None;
    }

    method Record(source: string, schema: string, table: string, h: Hash)
      modifies this`sources
      ensures forall s, c, t ::
        Find(s, c, t) == if s == source && c == schema && t == table then Some(h) else old(Find(s, c, t))
    {
      var perSource := if source in sources then sources[source] else map[];
      var perSchema := if schema in perSource then perSource[schema] else map[];
      perSchema := perSchema[table := h];
      perSource := perSource[schema := perSchema];
      sources := sources[source := perSource];
    }

    // Write to the temporary file, then replace; `dies` is a crash between the two.
    method Flush(dies: bool)
      modifies this`disk, this`tmp
      ensures disk == if dies then old(disk) else Some(sources)
    {
      tmp := Some(sources);
      if dies { return; }
      disk := tmp;
      tmp := None;
    }

    // The next process: what the file holds, or a fresh start.
    method Load()
      modifies this`sources
      ensures sources == if disk.Some? then disk.value else map[]
    {
      sources := if disk.Some? then disk.value else map[];
    }
  }

  datatype Outcome = Created | Updated | Unchanged | Error

  function OutcomeOf(s: Store, v: Visit, reEnrich: bool): Outcome {
    if Skips(s, v.table, reEnrich) then Unchanged
    else if !v.fate.Clean? then Error
    else if KeyOfTable(v.table) in s.state then Updated else Created
  }

  /** What the outcome of a table tells: unchanged, nothing was touched; created, it has a record and had
      none; updated, it had one and has that of the new content; error, its record is as it was. */
  lemma OutcomeTells(sourceId: string, s: Store, v: Visit, reEnrich: bool)
    ensures var k, t := KeyOfTable(v.table), Process(sourceId, s, v, reEnrich);
      var now := Some(ContentHash(v.table));
      match OutcomeOf(s, v, reEnrich)
      case Unchanged => !reEnrich && HashAt(s, k) == now && t == s
      case Created => HashAt(s, k) == None && HashAt(t, k) == now && ModelAt(t, k) == Some(Build(sourceId, v.catalog, v.table))
      case Updated =>
        && HashAt(s, k).Some? && (reEnrich || HashAt(s, k) != now)
        && HashAt(t, k) == now && ModelAt(t, k) == Some(Build(sourceId, v.catalog, v.table))
      case Error => !v.fate.Clean? && (reEnrich || HashAt(s, k) != now) && HashAt(t, k) == HashAt(s, k)
  {
    hide ContentHash, Build;
    var k := KeyOfTable(v.table);
    if Skips(s, v.table, reEnrich) { assert s.state[k := s.state[k]] == s.state; }
  }

  function OutcomesOf(sourceId: string, s: Store, vs: seq<Visit>, reEnrich: bool): seq<Outcome> {
    if vs == [] then []
    else
      var init := vs[..|vs| - 1];
      OutcomesOf(sourceId, s, init, reEnrich) + [OutcomeOf(ProcessAll(sourceId, s, init, reEnrich), vs[|vs| - 1], reEnrich)]
  }

  class Pipeline {
    const sourceId: string
    const runState: RunState
    var sink: map<Key, Model>

    // The two objects hold the hashes and models of `s`.
    ghost predicate Shows(s: Store)
      reads this, runState
    {
      && sink == s.sink
      && forall k: Key :: runState.Find(sourceId, k.schema, k.table) == if k in s.state then Some(s.state[k]) else None
    }

    // The file holds the hashes `state`; no file holds none.
    ghost predicate OnDisk(state: map<Key, Hash>)
      reads this, runState
    {
      var records := if runState.disk.Some? then runState.disk.value else map[];
      forall k: Key :: Entry(records, sourceId, k.schema, k.table) == if k in state then Some(state[k]) else None
    }

    constructor (sourceId: string)
      ensures fresh(runState) && this.sourceId == sourceId && Shows(Empty) && OnDisk(map[])
    {
      this.sourceId := sourceId;
      runState := new RunState();
      sink := map[];
    }

    // The recorded hash of a table.
    method Recall(t: TableInfo, ghost s: Store) returns (h: Option<Hash>)
      requires Shows(s)
      ensures h == if KeyOfTable(t) in s.state then Some(s.state[KeyOfTable(t)]) else None
    {
      h := runState.Lookup(sourceId, t.schema, t.name);
      assert h == runState.Find(sourceId, KeyOfTable(t).schema, KeyOfTable(t).table);
    }

    method Remember(t: TableInfo, h: Hash, ghost s: Store)
      requires Shows(s)
      modifies runState`sources
      ensures Shows(s.(state := s.state[KeyOfTable(t) := h]))
    {
      runState.Record(sourceId, t.schema, t.name, h);
    }

    // `sink.write_mdl`: the model of a table replaces what was there for it.
    method WriteMdl(t: TableInfo, mdl: Model, ghost s: Store)
      requires Shows(s)
      modifies this`sink
      ensures Shows(s.(sink := s.sink[KeyOfTable(t) := mdl]))
    {
      sink := sink[KeyOfTable(t) := mdl];
    }

    // With profiling the model is written once before the enrichment stages and once after them.
    method ProcessTable(v: Visit, profiled: bool, reEnrich: bool, ghost s: Store) returns (outcome: Outcome)
      requires Shows(s)
      modifies this`sink, runState`sources
      ensures Shows(Process(sourceId, s, v, reEnrich))
      ensures outcome == OutcomeOf(s, v, reEnrich)
    {
      hide ContentHash, Build, Shows;
      ghost var k := KeyOfTable(v.table);
      var newHash := ContentHash(v.table);
      var prevHash := Recall(v.table, s);
      if prevHash == Some(newHash) && !reEnrich {
        Remember(v.table, newHash, s);
        return Unchanged;
      }
      if v.fate.FailsBeforeWriting? { return Error; }
      var mdl := BuildMdl(sourceId, v.catalog, v.table);
      ghost var written := s.(sink := s.sink[k := mdl]);
      if profiled {
        WriteMdl(v.table, mdl, s);
        if v.fate.WritesUnrecorded? { return Error; }
        WriteMdl(v.table, mdl, written);
        assert written.(sink := written.sink[k := mdl]) == written;
      } else {
        WriteMdl(v.table, mdl, s);
        if v.fate.WritesUnrecorded? { return Error; }
      }
      Remember(v.table, newHash, written);
      return if prevHash.None? then Created else Updated;
    }

    method ProcessTables(vs: seq<Visit>, profiled: bool, reEnrich: bool, ghost s: Store)
        returns (outcomes: seq<Outcome>, skipped: nat, errored: nat)
      requires Shows(s)
      modifies this`sink, runState`sources
      ensures Shows(ProcessAll(sourceId, s, vs, reEnrich))
      ensures outcomes == OutcomesOf(sourceId, s, vs, reEnrich)
      ensures skipped == multiset(outcomes)[Unchanged] && errored == multiset(outcomes)[Error]
    {
      hide Process, OutcomeOf, Shows;
      outcomes, skipped, errored := [], 0, 0;
      for i := 0 to |vs|
        invariant Shows(ProcessAll(sourceId, s, vs[..i], reEnrich))
        invariant outcomes == OutcomesOf(sourceId, s, vs[..i], reEnrich)
        invariant skipped == multiset(outcomes)[Unchanged] && errored == multiset(outcomes)[Error]
      {
        assert vs[..i + 1][..i] == vs[..i];
        var outcome := ProcessTable(vs[i], profiled, reEnrich, ProcessAll(sourceId, s, vs[..i], reEnrich));
        outcomes := outcomes + [outcome];
        if outcome == Unchanged { skipped := skipped + 1; } else if outcome == Error { errored := errored + 1; }
      }
      assert vs[..|vs|] == vs;
    }

    // The tables one after another, then the flush; `dies` is a crash before the flush is through.
    method Run(vs: seq<Visit>, profiled: bool, reEnrich: bool, dies: bool, ghost s: Store)
        returns (outcomes: seq<Outcome>, skipped: nat, errored: nat)
      requires Shows(s) && OnDisk(s.state)
      modifies this`sink, runState
      ensures var done := ProcessAll(sourceId, s, vs, reEnrich);
        Shows(done) && OnDisk(if dies then s.state else done.state)
      ensures outcomes == OutcomesOf(sourceId, s, vs, reEnrich)
      ensures skipped == multiset(outcomes)[Unchanged] && errored == multiset(outcomes)[Error]
    {
      hide ProcessAll, OutcomesOf;
      outcomes, skipped, errored := ProcessTables(vs, profiled, reEnrich, s);
      runState.Flush(dies);
    }

    // The next process starts from the file: of the work of a run that died, the models are there
    // and the records are not.
    method Restart(ghost done: Store, ghost state: map<Key, Hash>)
      requires Shows(done) && OnDisk(state)
      modifies runState`sources
      ensures Shows(done.(state := state)) && OnDisk(state)
    {
      runState.Load();
    }
  }
}
