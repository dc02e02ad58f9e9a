/** The staged workflow against the local runtime.

    Extract and compute each stage their tables as files and hand over URIs of them; compute and
    persist open what the URIs say. Every activity may be attempted several times; an attempt may
    end at any point of its writing. */
module Staging {
  import opened Wrappers
  import opened Dicts
  import opened Uris
  import opened StagingPaths
  import Metadata

  // One batch of a stream, with the size that the driver reports for it.
  datatype Chunk = Chunk(rows: seq<int>, nbytes: nat)
  datatype Stream = Stream(schema: string, chunks: seq<Chunk>)
  datatype Table = Table(schema: string, rows: seq<int>)

  // A Parquet file is readable only once its writer has been closed.
  datatype File = Complete(table: Table) | Partial(rows: seq<int>)
  type Files = map<Path, File>

  datatype Computed = Computed(primary: Table, auxiliaries: seq<(string, Table)>, metadata: Metadata.Meta)

  // What persist hands to the store: auxiliaries and metadata by name.
  datatype Persisted = Persisted(
    primary: Table, auxiliaries: map<string, Table>, metadata: map<Metadata.Key, Metadata.Value>)

  // An exception, and whether Temporal retries it.
  datatype Failure = Failure(retryable: bool)

  // What is left to Python and DuckDB: which characters are alphanumeric, which names a view can be
  // given without quotes, and the JSON form of an opaque value.
  datatype Library = Library(
    alnum: char -> bool, identifier: string -> bool, jsonOf: string -> Option<string>)

  // A deterministic recipe for fixed parameters.
  datatype Recipe = Recipe(
    valid: bool, streams: seq<(string, Stream)>, compute: map<string, Table> -> Result<Computed, Failure>)

  function Rows(chunks: seq<Chunk>): seq<int> {
    if chunks == [] then [] else Rows(chunks[..|chunks| - 1]) + chunks[|chunks| - 1].rows
  }

  function Bytes(chunks: seq<Chunk>): nat {
    if chunks == [] then 0 else Bytes(chunks[..|chunks| - 1]) + chunks[|chunks| - 1].nbytes
  }

  function TableOf(s: Stream): Table {
    Table(s.schema, Rows(s.chunks))
  }

  function Tables(streams: seq<(string, Stream)>): seq<(string, Table)> {
    if streams == [] then []
    else Tables(streams[..|streams| - 1]) + [(streams[|streams| - 1].0, TableOf(streams[|streams| - 1].1))]
  }

  // ---------------------------------------------------------------- the local runtime

  predicate NamesOk(lib: Library, streams: seq<(string, Stream)>) {
    forall i :: 0 <= i < |streams| ==> ViewNameOk(lib.alnum, streams[i].0)
  }

  // `LocalRuntime.submit`: what reaches the store, if anything does.
  function Local(lib: Library, r: Recipe): Option<Persisted> {
    if !r.valid || !NamesOk(lib, r.streams) then None
    else match r.compute(ToMap(Tables(r.streams)))
      case Err(_) => None
      case Ok(c) => Some(Persisted(c.primary, ToMap(c.auxiliaries), ToMap(c.metadata)))
  }

  // ---------------------------------------------------------------- writing one attempt

  // How an attempt ends: it returns; or it stops having finished `whole` files and `part` batches
  // of the next one. An exception runs the writer's cleanup, a killed worker does not; the failure
  // is one that Temporal retries, or not. An attempt whose answer is lost has finished all files.
  datatype Fate = Returns | Stops(whole: nat, part: nat, exception: bool, retryable: bool)

  datatype Item = Item(path: Path, stream: Stream)

  function Written(f: Files, item: Item): Files {
    (f - {TempOf(item.path)})[item.path := Complete(TableOf(item.stream))]
  }

  // Stopped after `part` batches: only the temporary file is touched.
  function Interrupted(f: Files, item: Item, part: nat, exception: bool): Files {
    var tmp := TempOf(item.path);
    var seen := if part < |item.stream.chunks| then item.stream.chunks[..part] else item.stream.chunks;
    var g := if seen == [] then f else f[tmp := Partial(Rows(seen))];
    if exception && item.path !in g then g - {tmp} else g
  }

  function WriteAll(f: Files, items: seq<Item>): Files {
    if items == [] then f else Written(WriteAll(f, items[..|items| - 1]), items[|items| - 1])
  }

  function Attempt(f: Files, items: seq<Item>, fate: Fate): Files {
    match fate
    case Returns => WriteAll(f, items)
    case Stops(whole, part, exception, _) =>
      if |items| <= whole then WriteAll(f, items)
      else Interrupted(WriteAll(f, items[..whole]), items[whole], part, exception)
  }

  datatype Run<T> = Run(files: Files, answer: Option<T>, attempts: nat)

  // An activity under its retry policy: attempts until one returns, the limit, or a final failure.
  function Retry(f: Files, items: seq<Item>, limit: nat, fates: seq<Fate>): Run<()>
    decreases limit
  {
    if limit == 0 || fates == [] then Run(f, None, 0)
    else
      var g := Attempt(f, items, fates[0]);
      if fates[0].Returns? then Run(g, Some(()), 1)
      else if !fates[0].retryable then Run(g, None, 1)
      else
        var rest := Retry(g, items, limit - 1, fates[1..]);
        rest.(attempts := rest.attempts + 1)
  }

  // ---------------------------------------------------------------- the workflow

  function ExtractItems(root: Path, streams: seq<(string, Stream)>): seq<Item> {
    if streams == [] then []
    else ExtractItems(root, streams[..|streams| - 1]) +
         [Item(ExtractPath(root, streams[|streams| - 1].0), streams[|streams| - 1].1)]
  }

  // A table goes out as batches and comes back as the same rows.
  function AsStream(t: Table): Stream {
    Stream(t.schema, [Chunk(t.rows, 0)])
  }

  function AuxItems(root: Path, auxiliaries: seq<(string, Table)>): seq<Item> {
    if auxiliaries == [] then []
    else AuxItems(root, auxiliaries[..|auxiliaries| - 1]) +
         [Item(ComputePath(root, AuxName(auxiliaries[|auxiliaries| - 1].0)), AsStream(auxiliaries[|auxiliaries| - 1].1))]
  }

  function ComputeItems(root: Path, c: Computed): seq<Item> {
    [Item(ComputePath(root, PRIMARY), AsStream(c.primary))] + AuxItems(root, c.auxiliaries)
  }

  // ---------------------------------------------------------------- handles

  function ExtractUris(root: Root, streams: seq<(string, Stream)>): seq<(string, Uri)> {
    if streams == [] then []
    else
      var name := streams[|streams| - 1].0;
      ExtractUris(root, streams[..|streams| - 1]) + [(name, AsUri(ExtractPath(root, name)))]
  }

  function AuxUris(root: Root, auxiliaries: seq<(string, Table)>): seq<(string, Uri)> {
    if auxiliaries == [] then []
    else
      var name := auxiliaries[|auxiliaries| - 1].0;
      AuxUris(root, auxiliaries[..|auxiliaries| - 1]) + [(name, AsUri(ComputePath(root, AuxName(name))))]
  }

  function Find(f: Files, p: Path): Option<Table> {
    if p in f && f[p].Complete? then Some(f[p].table) else None
  }

  // The tables behind the URIs; one that cannot be opened raises.
  function ReadAll(f: Files, uris: seq<(string, Uri)>): Option<seq<(string, Table)>> {
    if uris == [] then Some([])
    else
      match (ReadAll(f, uris[..|uris| - 1]), Find(f, LocalPath(uris[|uris| - 1].1)))
      case (Some(read), Some(table)) => Some(read + [(uris[|uris| - 1].0, table)])
      case _ => None
  }

  // The view of each stream in turn: its name is checked, and put into a statement as it is. A
  // refused name is final, a statement that does not parse is retried.
  function RefusedView(lib: Library, streams: seq<(string, Stream)>): Option<Failure> {
    if streams == [] then None
    else if !ViewNameOk(lib.alnum, streams[0].0) then Some(Failure(false))
    else if !lib.identifier(streams[0].0) then Some(Failure(true))
    else RefusedView(lib, streams[1..])
  }

  // Compute up to its output: open the inputs, create the views, run the recipe. A file that is not
  // there is retried.
  function Computation(lib: Library, root: Root, f: Files, r: Recipe): Result<Computed, Failure> {
    match ReadAll(f, ExtractUris(root, r.streams))
    case None => Err(Failure(true))
    case Some(inputs) =>
      match RefusedView(lib, r.streams)
      case Some(failure) => Err(failure)
      case None => r.compute(ToMap(inputs))
  }

  // The metadata in the answer of compute, as persist gets it.
  function Answered(lib: Library, c: Computed): Option<map<Metadata.Key, Metadata.Value>> {
    Metadata.Sent(lib.jsonOf, Metadata.Sanitized(c.metadata))
  }

  // What persist makes of the files and of the answer of compute.
  function Rehydrated(lib: Library, root: Root, f: Files, c: Computed): Option<Persisted> {
    match (Find(f, ReadPath(ComputePath(root, PRIMARY))), ReadAll(f, AuxUris(root, c.auxiliaries)), Answered(lib, c))
    case (Some(primary), Some(aux), Some(metadata)) => Some(Persisted(primary, ToMap(aux), metadata))
    case _ => None
  }

  // An answer that cannot be written fails, and is retried, after all files are.
  function Fated(lib: Library, c: Computed, fate: Fate): Fate {
    if fate.Returns? && Answered(lib, c).None? then Stops(|ComputeItems("", c)|, 0, true, true) else fate
  }

  // Compute under its retry policy: every attempt starts from the files that the one before left.
  function ComputeRetry(lib: Library, root: Root, f: Files, r: Recipe, limit: nat, fates: seq<Fate>): Run<Computed>
    decreases limit
  {
    if limit == 0 || fates == [] then Run(f, None, 0)
    else match Computation(lib, root, f, r)
      case Err(failure) =>
        if FinalFate(fates[0], failure) then Run(f, None, 1)
        else OneAttemptMore(ComputeRetry(lib, root, f, r, limit - 1, fates[1..]))
      case Ok(c) =>
        var fate := Fated(lib, c, fates[0]);
        var g := Attempt(f, ComputeItems(root, c), fate);
        if fate.Returns? then Run(g, Some(c), 1)
        else if !fate.retryable then Run(g, None, 1)
        else OneAttemptMore(ComputeRetry(lib, root, g, r, limit - 1, fates[1..]))
  }

  function OneAttemptMore<T>(run: Run<T>): Run<T> {
    run.(attempts := run.attempts + 1)
  }

  // An attempt that fails by itself, with `failure`, when nothing stops it earlier.
  predicate FinalFate(fate: Fate, failure: Failure) {
    if fate.Returns? then !failure.retryable else !fate.retryable
  }

  // The attempts made when none of them succeeds, given which failures are final.
  function UptoFinal(limit: nat, final: seq<bool>): (attempts: nat)
    ensures attempts <= limit
    decreases limit
  {
    if limit == 0 || final == [] then 0
    else if final[0] then 1
    else 1 + UptoFinal(limit - 1, final[1..])
  }

  function Finals(fates: seq<Fate>, failure: Failure): seq<bool> {
    if fates == [] then [] else [FinalFate(fates[0], failure)] + Finals(fates[1..], failure)
  }

  function AllFated(lib: Library, c: Computed, fates: seq<Fate>): seq<Fate> {
    if fates == [] then [] else [Fated(lib, c, fates[0])] + AllFated(lib, c, fates[1..])
  }

  // Persist: read back and hand to the store, under five attempts. `stored` tells whether an
  // attempt that failed had already reached the store.
  datatype PersistFate = Stored | Failed(stored: bool, retryable: bool)

  function PersistStage(store: Option<Persisted>, value: Persisted, limit: nat, fates: seq<PersistFate>):
    (res: (Option<Persisted>, bool, nat))
    decreases limit
  {
    if limit == 0 || fates == [] then (store, false, 0)
    else match fates[0]
      case Stored => (Some(value), true, 1)
      case Failed(stored, retryable) =>
        var next := if stored then Some(value) else store;
        if !retryable then (next, false, 1)
        else
          var rest := PersistStage(next, value, limit - 1, fates[1..]);
          (rest.0, rest.1, rest.2 + 1)
  }

  datatype Schedule = Schedule(extract: seq<Fate>, compute: seq<Fate>, persist: seq<PersistFate>)

  datatype Ending = Ending(files: Files, store: Option<Persisted>, completed: bool, attempts: nat)

  function PersistFinals(fates: seq<PersistFate>): seq<bool> {
    if fates == [] then []
    else [fates[0].Failed? && !fates[0].retryable] + PersistFinals(fates[1..])
  }

  // `RecipeStagedWorkflow.run`.
  function Staged(lib: Library, root: Root, f: Files, r: Recipe, s: Schedule): Ending {
    if !r.valid then Ending(f, None, false, 1)
    else
      var e := Retry(f, ExtractItems(root, r.streams), 3, s.extract);
      if e.answer.None? then Ending(e.files, None, false, 1 + e.attempts)
      else
        var w := ComputeRetry(lib, root, e.files, r, 2, s.compute);
        if w.answer.None? then Ending(w.files, None, false, 1 + e.attempts + w.attempts)
        else match Rehydrated(lib, root, w.files, w.answer.value)
          case None =>
            Ending(w.files, None, false, 1 + e.attempts + w.attempts + UptoFinal(5, PersistFinals(s.persist)))
          case Some(value) =>
            var p := PersistStage(None, value, 5, s.persist);
            Ending(w.files, p.0, p.1, 1 + e.attempts + w.attempts + p.2)
  }

  // No attempt fails by itself or is stopped.
  const SMOOTH := Schedule([Returns], [Returns], [Stored])

  // ---------------------------------------------------------------- files are never half there

  // The last item written to a path.
  function LastTo(items: seq<Item>, p: Path): Option<Item> {
    if items == [] then None
    else if items[|items| - 1].path == p then Some(items[|items| - 1])
    else LastTo(items[..|items| - 1], p)
  }

  // No temporary file of an item is the destination of one.
  predicate Apart(items: seq<Item>) {
    forall i, j :: 0 <= i < |items| && 0 <= j < |items| ==> TempOf(items[i].path) != items[j].path
  }

  lemma {:induction false} WriteAllWrites(f: Files, items: seq<Item>, p: Path)
    requires Apart(items)
    ensures LastTo(items, p).Some? ==> p in WriteAll(f, items) && WriteAll(f, items)[p] == Complete(TableOf(LastTo(items, p).value.stream))
    ensures LastTo(items, p).None? && (forall i :: 0 <= i < |items| ==> TempOf(items[i].path) != p) ==>
      (p in WriteAll(f, items) <==> p in f) && (p in f ==> WriteAll(f, items)[p] == f[p])
  {
    if items != [] {
      var init := items[..|items| - 1];
      WriteAllWrites(f, init, p);
      if LastTo(init, p).Some? { LastToIsAnItem(init, p); }
    }
  }

  lemma {:induction false} LastToIsAnItem(items: seq<Item>, p: Path)
    ensures LastTo(items, p).Some? ==> LastTo(items, p).value in items && LastTo(items, p).value.path == p
    ensures LastTo(items, p).None? ==> forall i :: 0 <= i < |items| ==> items[i].path != p
  {
    if items != [] { LastToIsAnItem(items[..|items| - 1], p); }
  }

  // The destination of an item holds nothing, or the whole table of one of the items for it.
  ghost predicate WholeOrAbsent(f: Files, items: seq<Item>, p: Path) {
    p in f ==> exists i :: 0 <= i < |items| && items[i].path == p && f[p] == Complete(TableOf(items[i].stream))
  }

  lemma AttemptKeepsWhole(f: Files, items: seq<Item>, fate: Fate, p: Path)
    requires Apart(items) && WholeOrAbsent(f, items, p) && LastTo(items, p).Some?
    ensures WholeOrAbsent(Attempt(f, items, fate), items, p)
  {
    LastToIsAnItem(items, p);
    if fate.Returns? || |items| <= fate.whole {
      WriteAllWrites(f, items, p);
    } else {
      var done := items[..fate.whole];
      WriteAllWrites(f, done, p);
      LastToIsAnItem(done, p);
      assert forall i :: 0 <= i < |done| ==> done[i] == items[i];
      assert TempOf(items[fate.whole].path) != p;
    }
  }

  /** At every moment between attempts a staged file is absent or whole: one of its writers' tables
      from the first row to the last. */
  lemma {:induction false} StagedFilesAreWhole(f: Files, items: seq<Item>, limit: nat, fates: seq<Fate>, p: Path)
    requires Apart(items) && WholeOrAbsent(f, items, p) && LastTo(items, p).Some?
    ensures WholeOrAbsent(Retry(f, items, limit, fates).files, items, p)
    decreases limit
  {
    if limit > 0 && fates != [] {
      AttemptKeepsWhole(f, items, fates[0], p);
      StagedFilesAreWhole(Attempt(f, items, fates[0]), items, limit - 1, fates[1..], p);
    }
  }

  predicate Untouched(items: seq<Item>, p: Path) {
    forall i :: 0 <= i < |items| ==> items[i].path != p && TempOf(items[i].path) != p
  }

  lemma AttemptLeavesOthers(f: Files, items: seq<Item>, fate: Fate, p: Path)
    requires Apart(items) && Untouched(items, p)
    ensures var g := Attempt(f, items, fate); (p in g <==> p in f) && (p in f ==> g[p] == f[p])
  {
    var done := if fate.Stops? && fate.whole < |items| then items[..fate.whole] else items;
    assert forall i :: 0 <= i < |done| ==> done[i] == items[i];
    LastToIsAnItem(done, p);
    if LastTo(done, p).Some? { assert false; }
    WriteAllWrites(f, done, p);
  }

  // An activity that answers has just written everything, whatever its earlier attempts left.
  lemma {:induction false} AnswerMeansWritten(f: Files, items: seq<Item>, limit: nat, fates: seq<Fate>, p: Path)
    requires Apart(items)
    ensures var run := Retry(f, items, limit, fates);
      && (run.answer.Some? && LastTo(items, p).Some? ==>
            p in run.files && run.files[p] == Complete(TableOf(LastTo(items, p).value.stream)))
      && (Untouched(items, p) ==> (p in run.files <==> p in f) && (p in f ==> run.files[p] == f[p]))
      && run.attempts <= limit
    decreases limit
  {
    if limit > 0 && fates != [] {
      if Untouched(items, p) { AttemptLeavesOthers(f, items, fates[0], p); }
      if fates[0].Returns? {
        WriteAllWrites(f, items, p);
      } else if fates[0].retryable {
        hide Attempt, LastTo;
        AnswerMeansWritten(Attempt(f, items, fates[0]), items, limit - 1, fates[1..], p);
      }
    }
  }

  // Attempt `n` is made and settles the activity: all before it failed in a way that is retried.
  predicate Settles(fates: seq<Fate>, limit: nat, n: nat) {
    && n < limit && n < |fates|
    && (fates[n].Returns? || !fates[n].retryable)
    && forall i :: 0 <= i < n ==> fates[i].Stops? && fates[i].retryable
  }

  /** An activity ends with the first attempt that returns or fails for good, and answers exactly if
      that one returns; without such an attempt within the limit it does not answer. */
  lemma {:induction false} FirstFinalAttemptSettles(f: Files, items: seq<Item>, limit: nat, fates: seq<Fate>, n: nat)
    ensures var run := Retry(f, items, limit, fates);
      && (Settles(fates, limit, n) ==> run.attempts == n + 1 && (run.answer.Some? <==> fates[n].Returns?))
      && (run.answer.Some? ==> run.attempts > 0 && Settles(fates, limit, run.attempts - 1))
    decreases limit
  {
    hide Attempt;
    if limit > 0 && fates != [] && fates[0].Stops? && fates[0].retryable {
      var g := Attempt(f, items, fates[0]);
      FirstFinalAttemptSettles(g, items, limit - 1, fates[1..], if n > 0 then n - 1 else 0);
      if Settles(fates, limit, n) {
        assert n > 0;
        assert forall i :: 0 <= i < n - 1 ==> fates[1..][i] == fates[i + 1];
        assert Settles(fates[1..], limit - 1, n - 1);
      }
      var rest := Retry(g, items, limit - 1, fates[1..]);
      if rest.answer.Some? {
        assert forall i :: 1 <= i < rest.attempts ==> fates[i] == fates[1..][i - 1];
        assert Settles(fates, limit, rest.attempts);
      }
    }
  }

  lemma LastToAt(items: seq<Item>, i: nat)
    requires i < |items| && forall j :: i < j < |items| ==> items[j].path != items[i].path
    ensures LastTo(items, items[i].path) == Some(items[i])
    decreases |items|
  {
    if i < |items| - 1 {
      var init := items[..|items| - 1];
      assert init[i] == items[i];
      LastToAt(init, i);
    }
  }

  // ---------------------------------------------------------------- the schedule makes no difference

  // The same staged files; temporaries may differ.
  ghost predicate SameDests(f: Files, g: Files) {
    forall p :: IsDest(p) ==> (p in f <==> p in g) && (p in f ==> f[p] == g[p])
  }

  ghost predicate AllDests(items: seq<Item>) {
    forall i :: 0 <= i < |items| ==> IsDest(items[i].path)
  }

  lemma DestsApart(items: seq<Item>)
    requires AllDests(items)
    ensures Apart(items)
  {
    forall i | 0 <= i < |items| ensures !IsDest(TempOf(items[i].path)) { DestsAndTemps(items[i].path); }
  }

  // Whatever it took, an activity that answers leaves the files of one that is not disturbed.
  lemma AnswerAsUndisturbed(f: Files, g: Files, items: seq<Item>, limit: nat, fates: seq<Fate>)
    requires AllDests(items) && SameDests(f, g) && Retry(f, items, limit, fates).answer.Some?
    ensures SameDests(Retry(f, items, limit, fates).files, WriteAll(g, items))
  {
    hide Retry, WriteAll, LastTo;
    DestsApart(items);
    var done := Retry(f, items, limit, fates).files;
    forall p | IsDest(p)
      ensures (p in done <==> p in WriteAll(g, items)) && (p in done ==> done[p] == WriteAll(g, items)[p])
    {
      AnswerMeansWritten(f, items, limit, fates, p);
      WriteAllWrites(g, items, p);
      LastToIsAnItem(items, p);
      forall i | 0 <= i < |items| ensures TempOf(items[i].path) != p { DestsAndTemps(items[i].path); }
    }
  }

  lemma {:induction false} ReadsSame(f: Files, g: Files, uris: seq<(string, Uri)>)
    requires SameDests(f, g) && forall i :: 0 <= i < |uris| ==> IsDest(LocalPath(uris[i].1))
    ensures ReadAll(f, uris) == ReadAll(g, uris)
  {
    hide LocalPath, IsDest;
    if uris != [] {
      var init := uris[..|uris| - 1];
      assert forall i :: 0 <= i < |init| ==> init[i] == uris[i];
      ReadsSame(f, g, init);
    }
  }

  lemma {:induction false} ExtractUrisAt(root: Root, streams: seq<(string, Stream)>)
    ensures var uris := ExtractUris(root, streams);
      && |uris| == |streams|
      && forall i :: 0 <= i < |uris| ==>
            && uris[i].0 == streams[i].0 && LocalPath(uris[i].1) == ReadPath(ExtractPath(root, streams[i].0))
            && IsDest(LocalPath(uris[i].1))
  {
    hide ExtractPath, LocalPath, AsUri, IsDest;
    if streams != [] {
      ExtractUrisAt(root, streams[..|streams| - 1]);
      DestsAreDests(root, streams[|streams| - 1].0);
    }
  }

  lemma {:induction false} AuxUrisAt(root: Root, auxiliaries: seq<(string, Table)>)
    ensures var uris := AuxUris(root, auxiliaries);
      && |uris| == |auxiliaries|
      && forall i :: 0 <= i < |uris| ==>
            && uris[i].0 == auxiliaries[i].0 && LocalPath(uris[i].1) == ReadPath(ComputePath(root, AuxName(auxiliaries[i].0)))
            && IsDest(LocalPath(uris[i].1))
  {
    hide ComputePath, LocalPath, AsUri, IsDest, AuxName;
    if auxiliaries != [] {
      AuxUrisAt(root, auxiliaries[..|auxiliaries| - 1]);
      DestsAreDests(root, AuxName(auxiliaries[|auxiliaries| - 1].0));
    }
  }

  lemma {:induction false} AuxItemsAt(root: Root, auxiliaries: seq<(string, Table)>)
    ensures var items := AuxItems(root, auxiliaries);
      && |items| == |auxiliaries|
      && forall i :: 0 <= i < |items| ==>
            items[i] == Item(ComputePath(root, AuxName(auxiliaries[i].0)), AsStream(auxiliaries[i].1))
  {
    if auxiliaries != [] { AuxItemsAt(root, auxiliaries[..|auxiliaries| - 1]); }
  }

  lemma {:induction false} ExtractItemsAt(root: Root, streams: seq<(string, Stream)>)
    ensures var items := ExtractItems(root, streams);
      && |items| == |streams|
      && forall i :: 0 <= i < |streams| ==> items[i] == Item(ExtractPath(root, streams[i].0), streams[i].1)
  {
    hide ExtractPath;
    if streams != [] { ExtractItemsAt(root, streams[..|streams| - 1]); }
  }

  lemma StagedItemsAreDests(root: Root, streams: seq<(string, Stream)>, c: Computed)
    ensures AllDests(ExtractItems(root, streams)) && AllDests(ComputeItems(root, c))
  {
    hide ExtractPath, ComputePath, IsDest, AuxName, ExtractItems, AuxItems;
    ExtractItemsAt(root, streams);
    AuxItemsAt(root, c.auxiliaries);
    forall n: string ensures IsDest(ExtractPath(root, n)) && IsDest(ComputePath(root, n)) { DestsAreDests(root, n); }
  }

  // ---------------------------------------------------------------- compute at every attempt

  // What compute opens, none of its own output is.
  lemma InputsOfComputeUntouched(root: Root, c: Computed, name: string)
    ensures Untouched(ComputeItems(root, c), ReadPath(ExtractPath(root, name)))
  {
    hide ReadPath, ExtractPath, ComputePath, IsDest, AuxName, AuxItems, TempOf;
    var items, q := ComputeItems(root, c), ReadPath(ExtractPath(root, name));
    AuxItemsAt(root, c.auxiliaries);
    DestsAreDests(root, name);
    OpenedIsWritten(root, name, PRIMARY);
    forall i | 0 <= i < |items| ensures items[i].path != q && TempOf(items[i].path) != q {
      DestsAndTemps(items[i].path);
      if i > 0 { OpenedIsWritten(root, name, AuxName(c.auxiliaries[i - 1].0)); }
    }
  }

  lemma {:induction false} ReadsSameAt(f: Files, g: Files, uris: seq<(string, Uri)>)
    requires forall i :: 0 <= i < |uris| ==> Find(f, LocalPath(uris[i].1)) == Find(g, LocalPath(uris[i].1))
    ensures ReadAll(f, uris) == ReadAll(g, uris)
  {
    hide LocalPath, Find;
    if uris != [] {
      var init := uris[..|uris| - 1];
      assert forall i :: 0 <= i < |init| ==> init[i] == uris[i];
      ReadsSameAt(f, g, init);
    }
  }

  /** Whatever an attempt of compute wrote before it stopped, the next one computes the same. */
  lemma EveryAttemptComputesSame(lib: Library, root: Root, f: Files, r: Recipe, c: Computed, fate: Fate)
    ensures Computation(lib, root, Attempt(f, ComputeItems(root, c), fate), r) == Computation(lib, root, f, r)
  {
    hide Attempt, ExtractUris, LocalPath, ReadPath, ExtractPath, ComputeItems, ReadAll, RefusedView, Untouched;
    var items, uris := ComputeItems(root, c), ExtractUris(root, r.streams);
    var g := Attempt(f, items, fate);
    ExtractUrisAt(root, r.streams);
    StagedItemsAreDests(root, [], c);
    DestsApart(items);
    forall i | 0 <= i < |uris| ensures Find(f, LocalPath(uris[i].1)) == Find(g, LocalPath(uris[i].1)) {
      InputsOfComputeUntouched(root, c, r.streams[i].0);
      AttemptLeavesOthers(f, items, fate, LocalPath(uris[i].1));
    }
    ReadsSameAt(f, g, uris);
  }

  // So compute, starting anew at every attempt, is one computation whose output is attempted.
  lemma {:induction false} ComputesOnce(lib: Library, root: Root, f: Files, r: Recipe, limit: nat, fates: seq<Fate>)
    ensures var run, outcome := ComputeRetry(lib, root, f, r, limit, fates), Computation(lib, root, f, r);
      if outcome.Err? then run == Run(f, None, UptoFinal(limit, Finals(fates, outcome.error)))
      else
        var w := Retry(f, ComputeItems(root, outcome.value), limit, AllFated(lib, outcome.value, fates));
        run == Run(w.files, if w.answer.Some? then Some(outcome.value) else None, w.attempts)
    decreases limit
  {
    hide Computation, ComputeItems, Attempt, Fated, FinalFate;
    if limit > 0 && fates != [] {
      match Computation(lib, root, f, r)
      case Err(failure) =>
        assert Finals(fates, failure)[1..] == Finals(fates[1..], failure);
        if !FinalFate(fates[0], failure) { ComputesOnce(lib, root, f, r, limit - 1, fates[1..]); }
      case Ok(c) =>
        var fate := Fated(lib, c, fates[0]);
        assert AllFated(lib, c, fates)[0] == fate && AllFated(lib, c, fates)[1..] == AllFated(lib, c, fates[1..]);
        if fate.Stops? && fate.retryable {
          EveryAttemptComputesSame(lib, root, f, r, c, fate);
          ComputesOnce(lib, root, Attempt(f, ComputeItems(root, c), fate), r, limit - 1, fates[1..]);
        }
    }
  }

  // What an undisturbed run stores, from the files it finds.
  function Undisturbed(lib: Library, root: Root, f: Files, r: Recipe): Option<Persisted> {
    if !r.valid then None
    else
      var g := WriteAll(f, ExtractItems(root, r.streams));
      match Computation(lib, root, g, r)
      case Err(_) => None
      case Ok(c) => Rehydrated(lib, root, WriteAll(g, ComputeItems(root, c)), c)
  }

  lemma ComputesSame(lib: Library, root: Root, f: Files, g: Files, r: Recipe)
    requires SameDests(f, g)
    ensures Computation(lib, root, f, r) == Computation(lib, root, g, r)
  {
    ExtractUrisAt(root, r.streams);
    ReadsSame(f, g, ExtractUris(root, r.streams));
  }

  lemma RehydratesSame(lib: Library, root: Root, f: Files, g: Files, c: Computed)
    requires SameDests(f, g)
    ensures Rehydrated(lib, root, f, c) == Rehydrated(lib, root, g, c)
  {
    AuxUrisAt(root, c.auxiliaries);
    ReadsSame(f, g, AuxUris(root, c.auxiliaries));
    DestsAreDests(root, PRIMARY);
  }

  lemma {:induction false} PersistStores(store: Option<Persisted>, value: Persisted, limit: nat, fates: seq<PersistFate>)
    ensures var (out, done, attempts) := PersistStage(store, value, limit, fates);
      && (done ==> out == Some(value)) && (out == store || out == Some(value)) && attempts <= limit
    decreases limit
  {
    if limit > 0 && fates != [] && fates[0].Failed? && fates[0].retryable {
      PersistStores(if fates[0].stored then Some(value) else store, value, limit - 1, fates[1..]);
    }
  }

  /** Under any schedule of crashes, exceptions, lost answers and retries, the store gets nothing or
      what it gets from a run that nothing disturbs; a completed workflow has stored it, and no more
      than 1 + 3 + 2 + 5 attempts are made. */
  lemma EveryScheduleAgrees(lib: Library, root: Root, f: Files, r: Recipe, s: Schedule)
    ensures var end := Staged(lib, root, f, r, s);
      && end.attempts <= 11
      && (end.store.Some? ==> end.store == Undisturbed(lib, root, f, r))
      && (end.completed ==> end.store.Some?)
  {
    hide Retry, Computation, ComputeRetry, Rehydrated, ComputeItems, ExtractItems, PersistStage, WriteAll, Finals, AllFated, PersistFinals;
    if r.valid {
      var items := ExtractItems(root, r.streams);
      var e, g := Retry(f, items, 3, s.extract), WriteAll(f, items);
      StagedItemsAreDests(root, r.streams, Computed(Table("", []), [], []));
      DestsApart(items);
      AnswerMeansWritten(f, items, 3, s.extract, "");
      if e.answer.Some? {
        AnswerAsUndisturbed(f, f, items, 3, s.extract);
        ComputesSame(lib, root, e.files, g, r);
        ComputesOnce(lib, root, e.files, r, 2, s.compute);
        if Computation(lib, root, g, r).Ok? {
          var c := Computation(lib, root, g, r).value;
          EveryOutputAgrees(lib, root, e.files, g, c, AllFated(lib, c, s.compute), s.persist);
        }
      }
    }
  }

  lemma EveryOutputAgrees(lib: Library, root: Root, f: Files, g: Files, c: Computed, fates: seq<Fate>, persist: seq<PersistFate>)
    requires SameDests(f, g)
    ensures var w := Retry(f, ComputeItems(root, c), 2, fates);
      && w.attempts <= 2
      && (w.answer.Some? ==>
            && Rehydrated(lib, root, w.files, c) == Rehydrated(lib, root, WriteAll(g, ComputeItems(root, c)), c)
            && (Rehydrated(lib, root, w.files, c).Some? ==>
                  var value := Rehydrated(lib, root, w.files, c).value;
                  var (out, done, attempts) := PersistStage(None, value, 5, persist);
                  (out == None || out == Some(value)) && (done ==> out == Some(value)) && attempts <= 5))
  {
    hide Retry, Rehydrated, ComputeItems, PersistStage, WriteAll;
    var items := ComputeItems(root, c);
    StagedItemsAreDests(root, [], c);
    DestsApart(items);
    var w := Retry(f, items, 2, fates);
    AnswerMeansWritten(f, items, 2, fates, "");
    if w.answer.Some? {
      AnswerAsUndisturbed(f, g, items, 2, fates);
      RehydratesSame(lib, root, w.files, WriteAll(g, items), c);
      if Rehydrated(lib, root, w.files, c).Some? { PersistStores(None, Rehydrated(lib, root, w.files, c).value, 5, persist); }
    }
  }

  lemma SmoothIsUndisturbed(lib: Library, root: Root, f: Files, r: Recipe)
    ensures var end := Staged(lib, root, f, r, SMOOTH);
      end.store == Undisturbed(lib, root, f, r) && (end.completed <==> end.store.Some?)
  {
    hide Computation, ComputeItems, ExtractItems, WriteAll, Find, ReadAll, Answered, ComputeRetry;
    if r.valid {
      var g := WriteAll(f, ExtractItems(root, r.streams));
      SmoothCompute(lib, root, g, r);
      if Computation(lib, root, g, r).Ok? && Answered(lib, Computation(lib, root, g, r).value).None? {
        assert Rehydrated(lib, root, WriteAll(g, ComputeItems(root, Computation(lib, root, g, r).value)), Computation(lib, root, g, r).value) == None;
      }
    }
  }

  lemma SmoothCompute(lib: Library, root: Root, f: Files, r: Recipe)
    ensures var w := ComputeRetry(lib, root, f, r, 2, [Returns]);
      var outcome := Computation(lib, root, f, r);
      if outcome.Err? || Answered(lib, outcome.value).None? then w.answer == None
      else w.answer == Some(outcome.value) && w.files == WriteAll(f, ComputeItems(root, outcome.value))
  {
    hide Computation, ComputeItems, WriteAll, Answered;
    assert [Returns][1..] == [];
  }
}
