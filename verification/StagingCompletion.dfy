/** When the staged workflow completes, whatever disturbs it: the retry limits of its activities. */
module StagingCompletion {
  import opened Wrappers
  import opened Uris
  import opened StagingPaths
  import opened Staging

  // An attempt within the limit returns, and those before it failed in a way that is retried.
  ghost predicate AnswersWithin(fates: seq<Fate>, limit: nat) {
    exists n: nat :: Settles(fates, limit, n) && fates[n].Returns?
  }

  predicate StoresAt(fates: seq<PersistFate>, limit: nat, n: nat) {
    && n < limit && n < |fates| && fates[n].Stored?
    && forall i :: 0 <= i < n ==> fates[i].Failed? && fates[i].retryable
  }

  ghost predicate StoresWithin(fates: seq<PersistFate>, limit: nat) {
    exists n: nat :: StoresAt(fates, limit, n)
  }

  lemma AnswersIff(f: Files, items: seq<Item>, limit: nat, fates: seq<Fate>)
    ensures Retry(f, items, limit, fates).answer.Some? <==> AnswersWithin(fates, limit)
  {
    hide Retry;
    var run := Retry(f, items, limit, fates);
    FirstFinalAttemptSettles(f, items, limit, fates, 0);
    if run.answer.Some? { FirstFinalAttemptSettles(f, items, limit, fates, run.attempts - 1); }
    if n: nat :| Settles(fates, limit, n) && fates[n].Returns? { FirstFinalAttemptSettles(f, items, limit, fates, n); }
  }

  lemma {:induction false} StoredIff(store: Option<Persisted>, value: Persisted, limit: nat, fates: seq<PersistFate>)
    ensures PersistStage(store, value, limit, fates).1 <==> StoresWithin(fates, limit)
    decreases limit
  {
    if limit > 0 && fates != [] {
      if fates[0].Stored? {
        assert StoresAt(fates, limit, 0);
      } else if fates[0].retryable {
        var rest, fewer := fates[1..], limit - 1;
        StoredIff(if fates[0].stored then Some(value) else store, value, fewer, rest);
        if n: nat :| StoresAt(rest, fewer, n) {
          assert forall i :: 1 <= i < n + 2 ==> fates[i] == rest[i - 1];
          assert StoresAt(fates, limit, n + 1);
        }
        if n: nat :| StoresAt(fates, limit, n) {
          assert n > 0 && forall i :: 0 <= i < n ==> rest[i] == fates[i + 1];
          assert StoresAt(rest, fewer, n - 1);
        }
      }
    }
  }

  lemma {:induction false} StoredAfter(store: Option<Persisted>, value: Persisted, limit: nat, fates: seq<PersistFate>, n: nat)
    requires StoresAt(fates, limit, n)
    ensures PersistStage(store, value, limit, fates).2 == n + 1
    decreases limit
  {
    if n > 0 {
      var rest := fates[1..];
      assert forall i :: 0 <= i < n ==> rest[i] == fates[i + 1];
      StoredAfter(if fates[0].stored then Some(value) else store, value, limit - 1, rest, n - 1);
    }
  }

  lemma {:induction false} FatedAsTheyAre(lib: Library, c: Computed, fates: seq<Fate>)
    requires Answered(lib, c).Some?
    ensures AllFated(lib, c, fates) == fates
  {
    hide Answered;
    if fates != [] { FatedAsTheyAre(lib, c, fates[1..]); }
  }

  // From the files that extract left, when the undisturbed run has something to store.
  lemma OutputCompletesIff(lib: Library, root: Root, f: Files, g: Files, r: Recipe, compute: seq<Fate>, persist: seq<PersistFate>)
    requires SameDests(f, g) && Computation(lib, root, g, r).Ok?
    requires var c := Computation(lib, root, g, r).value; Rehydrated(lib, root, WriteAll(g, ComputeItems(root, c)), c).Some?
    ensures var w := ComputeRetry(lib, root, f, r, 2, compute);
      && (w.answer.Some? <==> AnswersWithin(compute, 2))
      && (w.answer.Some? ==>
            var value := Rehydrated(lib, root, w.files, w.answer.value);
            value.Some? && (PersistStage(None, value.value, 5, persist).1 <==> StoresWithin(persist, 5)))
  {
    hide Retry, Computation, ComputeItems, PersistStage, WriteAll, AllFated, ComputeRetry, Find, ReadAll, AuxUris, Answered,
      AnswersWithin, StoresWithin;
    var c := Computation(lib, root, g, r).value;
    ComputesSame(lib, root, f, g, r);
    ComputesOnce(lib, root, f, r, 2, compute);
    FatedAsTheyAre(lib, c, compute);
    AnswersIff(f, ComputeItems(root, c), 2, compute);
    EveryOutputAgrees(lib, root, f, g, c, compute, persist);
    var w := ComputeRetry(lib, root, f, r, 2, compute);
    hide Rehydrated;
    if w.answer.Some? { StoredIff(None, Rehydrated(lib, root, w.files, c).value, 5, persist); }
  }

  /** Disturbed in any way, the workflow completes if and only if the undisturbed run has something to
      store and each activity has a returning attempt, with nothing but retried failures before it,
      within its limit: extract the first three, compute the first two, persist the first five. It has
      then stored what the undisturbed run stores. */
  lemma CompletesIff(lib: Library, root: Root, f: Files, r: Recipe, s: Schedule)
    ensures var end := Staged(lib, root, f, r, s);
      && (end.completed <==>
            && Undisturbed(lib, root, f, r).Some?
            && AnswersWithin(s.extract, 3) && AnswersWithin(s.compute, 2) && StoresWithin(s.persist, 5))
      && (end.completed ==> end.store == Undisturbed(lib, root, f, r))
  {
    EveryScheduleAgrees(lib, root, f, r, s);
    hide Retry, Computation, ComputeRetry, Rehydrated, ComputeItems, ExtractItems, PersistStage, WriteAll, AnswersWithin, StoresWithin;
    if Undisturbed(lib, root, f, r).Some? {
      var items := ExtractItems(root, r.streams);
      var e, g := Retry(f, items, 3, s.extract), WriteAll(f, items);
      AnswersIff(f, items, 3, s.extract);
      if e.answer.Some? {
        StagedItemsAreDests(root, r.streams, Computed(Table("", []), [], []));
        AnswerAsUndisturbed(f, f, items, 3, s.extract);
        OutputCompletesIff(lib, root, e.files, g, r, s.compute, s.persist);
      }
    }
  }

  /** A completed workflow has made one attempt to validate, and of every other activity those up to
      and with the first that returned. */
  lemma AttemptsUntilCompletion(lib: Library, root: Root, f: Files, r: Recipe, s: Schedule, x: nat, y: nat, z: nat)
    requires Undisturbed(lib, root, f, r).Some?
    requires Settles(s.extract, 3, x) && s.extract[x].Returns? && Settles(s.compute, 2, y) && s.compute[y].Returns?
    requires StoresAt(s.persist, 5, z)
    ensures Staged(lib, root, f, r, s).completed && Staged(lib, root, f, r, s).attempts == 1 + (x + 1) + (y + 1) + (z + 1)
  {
    CompletesIff(lib, root, f, r, s);
    assert AnswersWithin(s.extract, 3) && AnswersWithin(s.compute, 2) && StoresWithin(s.persist, 5);
    hide Retry, Computation, ComputeRetry, Rehydrated, ComputeItems, ExtractItems, PersistStage, WriteAll, AnswersWithin, StoresWithin,
      Settles, StoresAt, Undisturbed, Answered, AllFated, Finals;
    var items := ExtractItems(root, r.streams);
    var e := Retry(f, items, 3, s.extract);
    FirstFinalAttemptSettles(f, items, 3, s.extract, x);
    ComputesOnce(lib, root, e.files, r, 2, s.compute);
    var c := Computation(lib, root, e.files, r).value;
    var w := ComputeRetry(lib, root, e.files, r, 2, s.compute);
    RehydratedIsAnswered(lib, root, w.files, c);
    FatedAsTheyAre(lib, c, s.compute);
    FirstFinalAttemptSettles(e.files, ComputeItems(root, c), 2, s.compute, y);
    StoredAfter(None, Rehydrated(lib, root, w.files, c).value, 5, s.persist, z);
  }

  lemma RehydratedIsAnswered(lib: Library, root: Root, f: Files, c: Computed)
    requires Rehydrated(lib, root, f, c).Some?
    ensures Answered(lib, c).Some?
  {
    hide Answered;
  }

  /** An activity of which no attempt settles anything makes all the attempts it may. */
  lemma {:induction false} AllAttemptsMade(f: Files, items: seq<Item>, limit: nat, fates: seq<Fate>)
    requires forall i :: 0 <= i < |fates| && i < limit ==> fates[i].Stops? && fates[i].retryable
    ensures var run := Retry(f, items, limit, fates);
      run.answer == None && run.attempts == if limit < |fates| then limit else |fates|
    decreases limit
  {
    hide Attempt;
    if limit > 0 && fates != [] { AllAttemptsMade(Attempt(f, items, fates[0]), items, limit - 1, fates[1..]); }
  }

  /** An activity that fails by itself at every attempt ends with the first failure that is final, or
      after all the attempts it may make. */
  lemma {:induction false} FailsUntilFinal(limit: nat, final: seq<bool>)
    ensures var k := UptoFinal(limit, final);
      && k <= limit && k <= |final|
      && (forall i :: 0 <= i < k - 1 ==> !final[i])
      && (k < limit && k < |final| ==> k > 0 && final[k - 1])
    decreases limit
  {
    if limit > 0 && final != [] && !final[0] {
      var rest := final[1..];
      FailsUntilFinal(limit - 1, rest);
      assert forall i :: 0 <= i < |rest| ==> rest[i] == final[i + 1];
      assert forall i :: 1 <= i < |final| ==> final[i] == rest[i - 1];
    }
  }

  // ---------------------------------------------------------------- how compute ends

  // The attempt is the last one: what stops it is final, or nothing does and it answers, or fails by
  // itself in a way that is final.
  predicate EndsCompute(fate: Fate, outcome: Result<Computed, Failure>, sendable: bool) {
    match fate
    case Stops(_, _, _, retryable) => !retryable
    case Returns => if outcome.Ok? then sendable else !outcome.error.retryable
  }

  /** Compute ends with the first attempt that is the last by this reading, and answers exactly if that
      one returns with a result whose metadata can be sent; without one it makes all its attempts. */
  lemma {:induction false} ComputeEnds(lib: Library, root: Root, f: Files, r: Recipe, limit: nat, fates: seq<Fate>, n: nat)
    requires n <= limit && n <= |fates|
    requires var outcome := Computation(lib, root, f, r);
      forall i :: 0 <= i < n ==> !EndsCompute(fates[i], outcome, outcome.Ok? && Answered(lib, outcome.value).Some?)
    ensures var outcome := Computation(lib, root, f, r);
      var sendable := outcome.Ok? && Answered(lib, outcome.value).Some?;
      var run := ComputeRetry(lib, root, f, r, limit, fates);
      if n < limit && n < |fates| then
        EndsCompute(fates[n], outcome, sendable) ==>
          run.attempts == n + 1 && run.answer == if fates[n].Returns? && sendable then Some(outcome.value) else None
      else run.attempts == n && run.answer == None
    decreases n
  {
    hide Computation, Answered, Attempt, ComputeItems;
    if n > 0 {
      var outcome := Computation(lib, root, f, r);
      var rest := fates[1..];
      assert forall i :: 0 <= i < |rest| ==> rest[i] == fates[i + 1];
      if outcome.Ok? {
        var fate := Fated(lib, outcome.value, fates[0]);
        EveryAttemptComputesSame(lib, root, f, r, outcome.value, fate);
        ComputeEnds(lib, root, Attempt(f, ComputeItems(root, outcome.value), fate), r, limit - 1, rest, n - 1);
      } else {
        ComputeEnds(lib, root, f, r, limit - 1, rest, n - 1);
      }
    }
  }

  /** Compute fails by itself before the recipe runs if a file that a URI names is not there, which is
      retried, or else by the first dataset that no view can have: finally if the view check refuses the
      name, and to be retried if the statement does not parse. */
  lemma FailsBeforeTheRecipe(lib: Library, root: Root, f: Files, r: Recipe, i: nat)
    ensures var outcome := Computation(lib, root, f, r);
      && (ReadAll(f, ExtractUris(root, r.streams)).None? ==> outcome == Err(Failure(true)))
      && (ReadAll(f, ExtractUris(root, r.streams)).Some? && i < |r.streams|
          && !(ViewNameOk(lib.alnum, r.streams[i].0) && lib.identifier(r.streams[i].0))
          && (forall j :: 0 <= j < i ==> ViewNameOk(lib.alnum, r.streams[j].0) && lib.identifier(r.streams[j].0)) ==>
            outcome == Err(Failure(ViewNameOk(lib.alnum, r.streams[i].0))))
  {
    hide ReadAll, ExtractUris, ViewNameOk;
    if i < |r.streams| && forall j :: 0 <= j < i ==> ViewNameOk(lib.alnum, r.streams[j].0) && lib.identifier(r.streams[j].0) {
      FirstRefused(lib, r.streams, i);
    }
  }

  lemma {:induction false} FirstRefused(lib: Library, streams: seq<(string, Stream)>, i: nat)
    requires i < |streams|
    requires forall j :: 0 <= j < i ==> ViewNameOk(lib.alnum, streams[j].0) && lib.identifier(streams[j].0)
    ensures !(ViewNameOk(lib.alnum, streams[i].0) && lib.identifier(streams[i].0)) ==>
      RefusedView(lib, streams) == Some(Failure(ViewNameOk(lib.alnum, streams[i].0)))
    decreases i
  {
    hide ViewNameOk;
    if i > 0 {
      assert forall j :: 0 <= j < |streams[1..]| ==> streams[1..][j] == streams[j + 1];
      FirstRefused(lib, streams[1..], i - 1);
    }
  }

  lemma EmptyRootItems(c: Computed)
    ensures |ComputeItems("", c)| == 1 + |c.auxiliaries|
  {
    CountsAuxItems("", c.auxiliaries);
  }

  lemma {:induction false} CountsAuxItems(root: Path, auxiliaries: seq<(string, Table)>)
    ensures |AuxItems(root, auxiliaries)| == |auxiliaries|
  {
    if auxiliaries != [] { CountsAuxItems(root, auxiliaries[..|auxiliaries| - 1]); }
  }

  // An answer that cannot be sent is lost after all files have been written.
  lemma UnsendableIsWritten(lib: Library, root: Root, f: Files, c: Computed)
    requires Answered(lib, c).None?
    ensures var fate := Fated(lib, c, Returns);
      fate.Stops? && fate.retryable && Attempt(f, ComputeItems(root, c), fate) == WriteAll(f, ComputeItems(root, c))
  {
    hide Answered, WriteAll;
    AuxItemsAt(root, c.auxiliaries);
    EmptyRootItems(c);
  }

  // ---------------------------------------------------------------- what cannot be read back

  lemma {:induction false} PersistFinalsAt(fates: seq<PersistFate>)
    ensures |PersistFinals(fates)| == |fates|
    ensures forall i :: 0 <= i < |fates| ==> (PersistFinals(fates)[i] <==> fates[i].Failed? && !fates[i].retryable)
  {
    if fates != [] { PersistFinalsAt(fates[1..]); }
  }

  /** Output that cannot be read back is tried for five times, unless an attempt fails for good: with
      extract and compute answering at once, the workflow ends after eight attempts, with nothing stored. */
  lemma LostOutputTakesFive(lib: Library, root: Root, f: Files, r: Recipe, s: Schedule)
    requires r.valid && Undisturbed(lib, root, f, r).None?
    requires s.extract != [] && s.extract[0].Returns? && s.compute != [] && s.compute[0].Returns?
    requires var outcome := Computation(lib, root, WriteAll(f, ExtractItems(root, r.streams)), r);
      outcome.Ok? && Answered(lib, outcome.value).Some?
    requires |s.persist| >= 5 && forall i :: 0 <= i < 5 ==> s.persist[i].Stored? || s.persist[i].retryable
    ensures var end := Staged(lib, root, f, r, s);
      !end.completed && end.store == None && end.attempts == 8
  {
    hide Computation, ComputeItems, ExtractItems, WriteAll, Find, ReadAll, Answered, PersistFinals, UptoFinal;
    PersistFinalsAt(s.persist);
    FailsUntilFinal(5, PersistFinals(s.persist));
  }

  // ---------------------------------------------------------------- temporaries

  /** An activity that answers has left no temporary file of its own. */
  lemma {:induction false} NoTemporariesLeft(f: Files, items: seq<Item>, i: nat)
    requires Apart(items) && i < |items|
    ensures TempOf(items[i].path) !in WriteAll(f, items)
  {
    var init, n := items[..|items| - 1], |items| - 1;
    if i < n {
      assert init[i] == items[i];
      assert forall j :: 0 <= j < |init| ==> init[j] == items[j];
      NoTemporariesLeft(f, init, i);
      assert TempOf(items[i].path) != items[n].path;
    } else {
      assert TempOf(items[n].path) != items[n].path;
    }
  }

  /** A writer stopped by an exception removes its temporary file unless the destination is there; one
      that is killed leaves the rows of the batches it had written. Nothing else changes. */
  lemma WhatAStopLeaves(f: Files, item: Item, part: nat, exception: bool, p: Path)
    ensures var g := Interrupted(f, item, part, exception);
      var tmp := TempOf(item.path);
      var n := if part < |item.stream.chunks| then part else |item.stream.chunks|;
      && (p != tmp ==> (p in g <==> p in f) && (p in f ==> g[p] == f[p]))
      && (exception && item.path !in f ==> tmp !in g)
      && (!(exception && item.path !in f) ==>
            if n == 0 then (tmp in g <==> tmp in f) && (tmp in f ==> g[tmp] == f[tmp])
            else tmp in g && g[tmp] == Partial(Rows(item.stream.chunks[..n])))
  {
    assert item.stream.chunks[..|item.stream.chunks|] == item.stream.chunks;
    assert TempOf(item.path) != item.path by { assert |TempOf(item.path)| > |item.path|; }
    hide Rows;
  }

  // Rows and sizes of a stream are those of its batches, in order.
  lemma {:induction false} BatchesAddUp(a: seq<Chunk>, b: seq<Chunk>, c: Chunk)
    ensures Rows([c]) == c.rows && Bytes([c]) == c.nbytes
    ensures Rows(a + b) == Rows(a) + Rows(b) && Bytes(a + b) == Bytes(a) + Bytes(b)
    decreases |b|
  {
    assert [c][..0] == [] && Rows([c]) == Rows([c][..0]) + c.rows && Bytes([c]) == Bytes([c][..0]) + c.nbytes;
    if b == [] {
      assert a + b == a;
    } else {
      assert (a + b)[..|a + b| - 1] == a + b[..|b| - 1];
      BatchesAddUp(a, b[..|b| - 1], c);
    }
  }

  // ---------------------------------------------------------------- what is read

  /** A table that is read is one whose file is whole: what an interrupted writer leaves is never read. */
  lemma {:induction false} OnlyWholeFilesRead(f: Files, uris: seq<(string, Uri)>, i: nat)
    requires ReadAll(f, uris).Some? && i < |uris|
    ensures var read := ReadAll(f, uris).value;
      var p := LocalPath(uris[i].1);
      |read| == |uris| && read[i].0 == uris[i].0 && p in f && f[p] == Complete(read[i].1)
    decreases |uris|
  {
    hide LocalPath;
    var init, last := uris[..|uris| - 1], uris[|uris| - 1];
    if i < |init| {
      assert init[i] == uris[i];
      OnlyWholeFilesRead(f, init, i);
    } else if init != [] {
      OnlyWholeFilesRead(f, init, 0);
    }
  }
}
