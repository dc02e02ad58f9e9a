/** The worker's side of the staged workflow: loops that write files and replace them in place. */
module StagingObject {
  import opened Wrappers
  import opened Dicts
  import opened Uris
  import opened StagingPaths
  import opened Staging
  import Metadata

  lemma {:induction false} NoneForLonger(f: Files, uris: seq<(string, Uri)>, n: nat)
    requires n <= |uris| && ReadAll(f, uris[..n]) == None
    ensures ReadAll(f, uris) == None
    decreases |uris|
  {
    if n == |uris| {
      assert uris[..n] == uris;
    } else {
      var init := uris[..|uris| - 1];
      assert init[..n] == uris[..n];
      NoneForLonger(f, init, n);
    }
  }

  class Worker {
    var files: Files
    var store: Option<Persisted>

    // `write_named_dataset_to_parquet`, stopped by `stop` if it falls within the stream: batches go to
    // the temporary file, which replaces the destination only when all of them are in.
    method WriteDataset(dest: Path, stream: Stream, stop: Option<(nat, bool)>)
        returns (written: bool, rows: nat, nbytes: nat)
      modifies this`files
      ensures written == stop.None?
      ensures written ==>
        files == Written(old(files), Item(dest, stream)) && rows == |Rows(stream.chunks)| && nbytes == Bytes(stream.chunks)
      ensures !written ==> files == Interrupted(old(files), Item(dest, stream), stop.value.0, stop.value.1)
    {
      var tmp := TempOf(dest);
      rows, nbytes := 0, 0;
      var seen: seq<int> := [];
      var limit := if stop.Some? && stop.value.0 < |stream.chunks| then stop.value.0 else |stream.chunks|;
      for i := 0 to limit
        invariant seen == Rows(stream.chunks[..i]) && rows == |seen| && nbytes == Bytes(stream.chunks[..i])
        invariant files == if i == 0 then old(files) else old(files)[tmp := Partial(seen)]
      {
        assert stream.chunks[..i + 1][..i] == stream.chunks[..i];
        seen := seen + stream.chunks[i].rows;
        files := files[tmp := Partial(seen)];
        rows := rows + |stream.chunks[i].rows|;
        nbytes := nbytes + stream.chunks[i].nbytes;
      }
      assert stream.chunks[..|stream.chunks|] == stream.chunks;
      if stop.Some? {
        if stop.value.1 && tmp in files && dest !in files { files := files - {tmp}; }
        assert files == Interrupted(old(files), Item(dest, stream), stop.value.0, stop.value.1);
        return false, rows, nbytes;
      }
      files := (files - {tmp})[dest := Complete(Table(stream.schema, seen))];
      assert files == Written(old(files), Item(dest, stream));
      return true, rows, nbytes;
    }

    // One attempt of an activity: dataset after dataset, up to where it stops.
    method RunAttempt(items: seq<Item>, fate: Fate) returns (answered: bool)
      modifies this`files
      ensures files == Attempt(old(files), items, fate)
      ensures answered == fate.Returns?
    {
      hide Written, Interrupted;
      var whole := if fate.Stops? && fate.whole < |items| then fate.whole else |items|;
      for i := 0 to whole
        invariant files == WriteAll(old(files), items[..i])
      {
        assert items[..i + 1][..i] == items[..i];
        var _, _, _ := WriteDataset(items[i].path, items[i].stream, None);
      }
      assert items[..|items|] == items;
      if fate.Stops? && fate.whole < |items| {
        var _, _, _ := WriteDataset(items[whole].path, items[whole].stream, Some((fate.part, fate.exception)));
      }
      answered := fate.Returns?;
    }

    // An activity under its retry policy.
    method RunActivity(items: seq<Item>, limit: nat, fates: seq<Fate>) returns (answered: bool, attempts: nat)
      modifies this`files
      ensures var run := Retry(old(files), items, limit, fates);
        files == run.files && answered == run.answer.Some? && attempts == run.attempts
    {
      hide Attempt;
      answered, attempts := false, 0;
      var going := true;
      while going && attempts < limit && attempts < |fates|
        invariant attempts <= limit && attempts <= |fates|
        invariant var all := Retry(old(files), items, limit, fates);
          if going then
            !answered &&
            var rest := Retry(files, items, limit - attempts, fates[attempts..]);
            all == rest.(attempts := rest.attempts + attempts)
          else
            all.files == files && answered == all.answer.Some? && attempts == all.attempts
        decreases going, limit - attempts
      {
        var fate := fates[attempts];
        assert fates[attempts..][1..] == fates[attempts + 1..];
        answered := RunAttempt(items, fate);
        attempts := attempts + 1;
        going := fate.Stops? && fate.retryable;
      }
    }

    // Persist under its retry policy.
    method RunPersist(value: Persisted, fates: seq<PersistFate>) returns (done: bool, attempts: nat)
      modifies this`store
      ensures (store, done, attempts) == PersistStage(old(store), value, 5, fates)
    {
      done, attempts := false, 0;
      var going := true;
      while going && attempts < 5 && attempts < |fates|
        invariant attempts <= 5 && attempts <= |fates|
        invariant var all := PersistStage(old(store), value, 5, fates);
          if going then
            !done &&
            var rest := PersistStage(store, value, 5 - attempts, fates[attempts..]);
            all == (rest.0, rest.1, rest.2 + attempts)
          else
            all == (store, done, attempts)
        decreases going, 5 - attempts
      {
        var fate := fates[attempts];
        assert fates[attempts..][1..] == fates[attempts + 1..];
        attempts := attempts + 1;
        match fate {
          case Stored =>
            store := Some(value);
            done, going := true, false;
          case Failed(stored, retryable) =>
            if stored { store := Some(value); }
            going := retryable;
        }
      }
    }

    // The tables behind URIs, in order, up to the first that cannot be opened.
    method OpenAll(uris: seq<(string, Uri)>) returns (tables: Option<seq<(string, Table)>>)
      ensures tables == ReadAll(files, uris)
    {
      hide LocalPath;
      var read: seq<(string, Table)> := [];
      for i := 0 to |uris|
        invariant ReadAll(files, uris[..i]) == Some(read)
      {
        assert uris[..i + 1][..i] == uris[..i];
        var path := LocalPath(uris[i].1);
        if path !in files || !files[path].Complete? {
          NoneForLonger(files, uris, i + 1);
          return None;
        }
        read := read + [(uris[i].0, files[path].table)];
      }
      assert uris[..|uris|] == uris;
      return Some(read);
    }

    // The views of the inputs, one by one.
    method CreateViews(lib: Library, streams: seq<(string, Stream)>) returns (refused: Option<Failure>)
      ensures refused == RefusedView(lib, streams)
    {
      hide ViewNameOk;
      for i := 0 to |streams|
        invariant RefusedView(lib, streams) == RefusedView(lib, streams[i..])
      {
        var name := streams[i].0;
        assert streams[i..][0] == streams[i] && streams[i..][1..] == streams[i + 1..];
        if !ViewNameOk(lib.alnum, name) { return Some(Failure(false)); }
        if !lib.identifier(name) { return Some(Failure(true)); }
      }
      return None;
    }

    // One attempt of compute up to the recipe's result.
    method Compute(lib: Library, root: Root, r: Recipe) returns (computed: Result<Computed, Failure>)
      ensures computed == Computation(lib, root, files, r)
    {
      hide ReadAll, ExtractUris, RefusedView, ToMap;
      var inputs := OpenAll(ExtractUris(root, r.streams));
      if inputs.None? { return Err(Failure(true)); }
      var refused := CreateViews(lib, r.streams);
      if refused.Some? { return Err(refused.value); }
      return r.compute(ToMap(inputs.value));
    }

    // Compute under its retry policy: every attempt opens its inputs anew.
    method RunCompute(lib: Library, root: Root, r: Recipe, fates: seq<Fate>) returns (answer: Option<Computed>, attempts: nat)
      modifies this`files
      ensures ComputeRetry(lib, root, old(files), r, 2, fates) == Run(files, answer, attempts)
    {
      hide Computation, Attempt, ComputeItems, Fated, FinalFate;
      answer, attempts := None, 0;
      var going := true;
      while going && attempts < 2 && attempts < |fates|
        invariant attempts <= 2 && attempts <= |fates|
        invariant var all := ComputeRetry(lib, root, old(files), r, 2, fates);
          if going then
            answer == None &&
            var rest := ComputeRetry(lib, root, files, r, 2 - attempts, fates[attempts..]);
            all == rest.(attempts := rest.attempts + attempts)
          else
            all == Run(files, answer, attempts)
        decreases going, 2 - attempts
      {
        var fate := fates[attempts];
        assert fates[attempts..][1..] == fates[attempts + 1..];
        var computed := Compute(lib, root, r);
        attempts := attempts + 1;
        if computed.Err? {
          going := !FinalFate(fate, computed.error);
        } else {
          var own := Fated(lib, computed.value, fate);
          var answered := RunAttempt(ComputeItems(root, computed.value), own);
          if answered { answer := Some(computed.value); }
          going := own.Stops? && own.retryable;
        }
      }
    }

    // The attempts of an activity that fails by itself.
    method FailingAttempts(limit: nat, final: seq<bool>) returns (attempts: nat)
      ensures attempts == UptoFinal(limit, final)
    {
      attempts := 0;
      while attempts < limit && attempts < |final|
        invariant attempts <= limit && attempts <= |final|
        invariant UptoFinal(limit, final) == attempts + UptoFinal(limit - attempts, final[attempts..])
      {
        assert final[attempts..][1..] == final[attempts + 1..];
        attempts := attempts + 1;
        if final[attempts - 1] { return; }
      }
    }

    // The workflow: validate, extract, compute, persist, each only after the one before answered.
    method RunWorkflow(lib: Library, root: Root, r: Recipe, s: Schedule) returns (completed: bool, attempts: nat)
      requires store == None
      modifies this
      ensures Ending(files, store, completed, attempts) == Staged(lib, root, old(files), r, s)
    {
      hide Retry, ReadAll, ExtractItems, PersistStage, ToMap, ComputePath, UptoFinal, PersistFinals, ComputeRetry,
        LocalPath, AsUri, AuxUris, Metadata.Sent, Metadata.Sanitized;
      completed, attempts := false, 1;
      if !r.valid { return; }
      var extracted, n := RunActivity(ExtractItems(root, r.streams), 3, s.extract);
      attempts := attempts + n;
      if !extracted { return; }
      var answer, m := RunCompute(lib, root, r, s.compute);
      attempts := attempts + m;
      if answer.None? { return; }
      var c := answer.value;
      var coerced := Metadata.SanitizeMetadata(c.metadata);
      var metadata := Metadata.Sent(lib.jsonOf, coerced);
      var primary := Find(files, LocalPath(AsUri(ComputePath(root, PRIMARY))));
      var aux := OpenAll(AuxUris(root, c.auxiliaries));
      if primary.None? || aux.None? || metadata.None? {
        var failed := FailingAttempts(5, PersistFinals(s.persist));
        attempts := attempts + failed;
        return;
      }
      var done, k := RunPersist(Persisted(primary.value, ToMap(aux.value), metadata.value), s.persist);
      completed, attempts := done, attempts + k;
    }
  }
}
